/** Attempt budgets that survive controller restarts (src/retry.rs), on 64-bit words: every
    addition, product and shift saturates or is capped as the source does it. */
module Retry {
  import opened Bytes
  import opened Numbers
  import opened Options

  datatype Policy = Policy(limit: nat, delay: nat, maximumDelay: nat)

  datatype Budget = Budget(attempts: nat, nextAttempt: nat)

  predicate Words(policy: Policy) {
    policy.limit <= MAX_U64 && policy.delay <= MAX_U64 && policy.maximumDelay <= MAX_U64
  }

  function Saturated(n: nat): nat {
    Min(n, MAX_U64)
  }

  function Pow2(n: nat): (r: nat)
    ensures r > 0
  {
    if n == 0 then 1 else 2 * Pow2(n - 1)
  }

  // ---------------------------------------------------------------- one reservation

  function Delay(policy: Policy, attempts: nat): nat {
    Min(Saturated(policy.delay * Pow2(Min(attempts, 63))), policy.maximumDelay)
  }

  predicate Allowed(b: Budget, policy: Policy, now: nat) {
    b.attempts < policy.limit && now >= b.nextAttempt
  }

  function NextTime(b: Budget, policy: Policy): Option<nat> {
    if b.attempts < policy.limit then Some(b.nextAttempt) else None
  }

  function Reserved(b: Budget, policy: Policy, now: nat): Budget {
    var attempts := Saturated(b.attempts + 1);
    Budget(attempts, Saturated(now + Delay(policy, attempts)))
  }

  class State {
    var attempts: nat
    var nextAttempt: nat

    constructor ()
      ensures View() == Budget(0, 0)
    {
      attempts, nextAttempt := 0, 0;
    }

    function View(): Budget
      reads this
    {
      Budget(attempts, nextAttempt)
    }

    method Reserve(policy: Policy, now: nat)
      requires Words(policy) && attempts <= MAX_U64
      modifies this
      ensures View() == Reserved(old(View()), policy, now)
      ensures attempts <= MAX_U64 && nextAttempt <= MAX_U64
    {
      hide Delay;
      attempts := if attempts == MAX_U64 then MAX_U64 else attempts + 1;
      var wait := BackOff(policy, attempts);
      nextAttempt := if now + wait <= MAX_U64 then now + wait else MAX_U64;
    }

    method Exhaust(policy: Policy)
      modifies this
      ensures View() == old(View()).(attempts := policy.limit)
    {
      attempts := policy.limit;
    }
  }

  method BackOff(policy: Policy, attempts: nat) returns (wait: nat)
    ensures wait == Delay(policy, attempts)
  {
    hide Pow2;
    var multiplier := Shift(if attempts <= 63 then attempts else 63);
    wait := SaturatingProduct(policy.delay, multiplier);
    if wait > policy.maximumDelay {
      wait := policy.maximumDelay;
    }
  }

  method SaturatingProduct(a: nat, b: nat) returns (r: nat)
    ensures r == Saturated(a * b)
  {
    r := a * b;
    if r > MAX_U64 {
      r := MAX_U64;
    }
  }

  /** `1 << n`. */
  method Shift(n: nat) returns (r: nat)
    requires n <= 63
    ensures r == Pow2(n) && r <= MAX_U64
  {
    r := 1;
    for i := 0 to n
      invariant r == Pow2(i)
    {
      r := 2 * r;
    }
    Pow2Grows(n, 63);
    Pow2Of63();
  }

  lemma SmallPowers()
    ensures Pow2(7) == 128 && Pow2(8) == 256
  {
    assert Pow2(4) == 16;
    assert Pow2(6) == 64;
  }

  lemma Pow2Of63()
    ensures Pow2(63) == 0x8000_0000_0000_0000
  {
    hide Pow2;
    SmallPowers();
    Pow2Adds(8, 8);
    Pow2Adds(16, 16);
    Pow2Adds(32, 16);
    Pow2Adds(48, 8);
    Pow2Adds(56, 7);
  }

  lemma {:induction false} Pow2Adds(a: nat, b: nat)
    ensures Pow2(a + b) == Pow2(a) * Pow2(b)
  {
    if b > 0 {
      Pow2Adds(a, b - 1);
    }
  }

  lemma {:induction false} Pow2Grows(a: nat, b: nat)
    requires a <= b
    ensures Pow2(a) <= Pow2(b)
  {
    if a < b {
      Pow2Grows(a, b - 1);
    }
  }

  // ---------------------------------------------------------------- the back-off

  lemma TimesMonotone(d: nat, a: nat, b: nat)
    requires a <= b
    ensures d * a <= d * b
  {
  }

  /** More attempts never wait less. */
  lemma DelayGrows(policy: Policy, a: nat, b: nat)
    requires a <= b
    ensures Delay(policy, a) <= Delay(policy, b) <= policy.maximumDelay
  {
    Pow2Grows(Min(a, 63), Min(b, 63));
    TimesMonotone(policy.delay, Pow2(Min(a, 63)), Pow2(Min(b, 63)));
  }

  /** What doubling with a cap would be on unbounded integers. */
  function Doubled(policy: Policy, attempts: nat): nat {
    Min(policy.delay * Pow2(attempts), policy.maximumDelay)
  }

  /** The word arithmetic is exact doubling with a cap, except for a delay of one second, more than
      63 attempts and a maximum above 2^63: there the delay stops doubling one step early. */
  lemma DelayDoublesExactly(policy: Policy, attempts: nat)
    requires Words(policy)
    ensures Delay(policy, attempts) == Doubled(policy, attempts)
            <==> attempts <= 63 || policy.delay != 1 || policy.maximumDelay <= Pow2(63)
  {
    Pow2Of63();
    if attempts > 63 {
      Pow2Grows(64, attempts);
      assert Pow2(64) == 2 * Pow2(63);
      if policy.delay >= 2 {
        TimesMonotone(policy.delay, Pow2(64), Pow2(attempts));
        DelayAtLeast(policy.delay, Pow2(63));
        DelayAtLeast(policy.delay, Pow2(64));
      }
    }
  }

  lemma DelayAtLeast(d: nat, p: nat)
    requires d >= 2
    ensures d * p >= 2 * p
  {
  }

  /** The attempt is counted before the shift, so the wait after the first one is twice the initial
      delay. It is the initial delay itself only if that is zero or the cap. */
  lemma FirstWaitIsDoubled(policy: Policy)
    requires Words(policy)
    ensures Reserved(Budget(0, 0), policy, 0).nextAttempt == Delay(policy, 1)
    ensures Delay(policy, 1) == Min(Saturated(2 * policy.delay), policy.maximumDelay)
    ensures Delay(policy, 1) == policy.delay <==> policy.delay == 0 || policy.maximumDelay == policy.delay
  {
    assert Pow2(1) == 2 * Pow2(0) == 2;
  }

  /** The wait starts at the clock reading, is the back-off, and stops only at the end of the clock. */
  lemma ReservationSchedules(b: Budget, policy: Policy, now: nat)
    requires Words(policy) && now <= MAX_U64
    ensures var t := Reserved(b, policy, now).nextAttempt;
            Saturated(now + Min(policy.delay, policy.maximumDelay)) <= t <= MAX_U64 && t <= now + policy.maximumDelay
            && (t < MAX_U64 ==> t == now + Delay(policy, Reserved(b, policy, now).attempts))
  {
    DelayGrows(policy, 0, Reserved(b, policy, now).attempts);
    assert Pow2(0) == 1;
  }

  lemma AllowedIsNextTime(b: Budget, policy: Policy, now: nat)
    ensures Allowed(b, policy, now) <==> NextTime(b, policy).Some? && now >= NextTime(b, policy).value
  {
  }

  // ---------------------------------------------------------------- a campaign across restarts

  /** The controller asks, reserves, writes the reservation down, then launches. It may die before
      writing or before launching; a permanent failure exhausts the budget. The clock may do
      anything between attempts. */
  datatype Step =
    | Attempt(now: nat)
    | DieBeforeWriting(now: nat)
    | DieBeforeLaunching(now: nat)
    | GiveUp

  datatype Launch = Launch(at: nat, attempts: nat)

  datatype Campaign = Campaign(stored: Budget, launches: seq<Launch>)

  function Next(policy: Policy, c: Campaign, step: Step): Campaign {
    match step
    case GiveUp => c.(stored := c.stored.(attempts := policy.limit))
    case DieBeforeWriting(_) => c
    case DieBeforeLaunching(now) =>
      if Allowed(c.stored, policy, now) then c.(stored := Reserved(c.stored, policy, now)) else c
    case Attempt(now) =>
      if Allowed(c.stored, policy, now) then
        var reserved := Reserved(c.stored, policy, now);
        Campaign(reserved, c.launches + [Launch(now, reserved.attempts)])
      else c
  }

  function Run(policy: Policy, stored: Budget, steps: seq<Step>): Campaign {
    if steps == [] then Campaign(stored, [])
    else Next(policy, Run(policy, stored, steps[..|steps| - 1]), steps[|steps| - 1])
  }

  predicate ClockIsU64(steps: seq<Step>) {
    forall k :: 0 <= k < |steps| && !steps[k].GiveUp? ==> steps[k].now <= MAX_U64
  }

  /** The time from which the launch after this one is permitted. */
  function Due(policy: Policy, l: Launch): nat {
    Saturated(l.at + Delay(policy, l.attempts))
  }

  predicate Spaced(policy: Policy, c: Campaign) {
    && (forall i :: 0 <= i < |c.launches| ==> Due(policy, c.launches[i]) <= c.stored.nextAttempt)
    && (forall i, j :: 0 <= i < j < |c.launches| ==> Due(policy, c.launches[i]) <= c.launches[j].at)
    && (forall i, j :: 0 <= i < j < |c.launches| ==> c.launches[i].attempts < c.launches[j].attempts)
    && (forall i :: 0 <= i < |c.launches| ==> c.launches[i].attempts <= c.stored.attempts)
  }

  /** Attempts spent are never given back, below the limit. */
  predicate Spent(policy: Policy, stored: Budget, c: Campaign) {
    c.launches != [] ==> stored.attempts + |c.launches| <= c.stored.attempts <= policy.limit
  }

  lemma StepKeepsSpent(policy: Policy, stored: Budget, c: Campaign, step: Step)
    requires Words(policy) && Spent(policy, stored, c) && (c.launches == [] ==> stored.attempts <= c.stored.attempts || c.stored.attempts == policy.limit)
    ensures var d := Next(policy, c, step);
            Spent(policy, stored, d) && (d.launches == [] ==> stored.attempts <= d.stored.attempts || d.stored.attempts == policy.limit)
  {
    hide Delay;
  }

  lemma StepKeepsSpacing(policy: Policy, c: Campaign, step: Step)
    requires Words(policy) && Spaced(policy, c) && (!step.GiveUp? ==> step.now <= MAX_U64)
    requires c.launches != [] ==> c.stored.attempts <= policy.limit
    ensures Spaced(policy, Next(policy, c, step))
  {
    hide Delay;
  }

  lemma {:induction false} CampaignInvariant(policy: Policy, stored: Budget, steps: seq<Step>)
    requires Words(policy) && ClockIsU64(steps)
    ensures var c := Run(policy, stored, steps);
            && Spent(policy, stored, c) && Spaced(policy, c)
            && (c.launches == [] ==> stored.attempts <= c.stored.attempts || c.stored.attempts == policy.limit)
  {
    if steps != [] {
      var before, step := steps[..|steps| - 1], steps[|steps| - 1];
      CampaignInvariant(policy, stored, before);
      StepKeepsSpent(policy, stored, Run(policy, stored, before), step);
      StepKeepsSpacing(policy, Run(policy, stored, before), step);
      hide Next, Spaced;
    }
  }

  /** Across any restarts a campaign launches at most what its limit leaves. */
  lemma {:induction false} LaunchesAreLimited(policy: Policy, stored: Budget, steps: seq<Step>)
    requires Words(policy) && ClockIsU64(steps)
    ensures var launches := Run(policy, stored, steps).launches;
            launches != [] ==> stored.attempts + |launches| <= policy.limit
  {
    CampaignInvariant(policy, stored, steps);
  }

  /** Any two launches are at least the earlier one's back-off apart, and later launches back off by
      at least as much, however the controller died in between. */
  lemma {:induction false} LaunchesAreSpaced(policy: Policy, stored: Budget, steps: seq<Step>, i: nat, j: nat)
    requires Words(policy) && ClockIsU64(steps) && i < j < |Run(policy, stored, steps).launches|
    ensures var l := Run(policy, stored, steps).launches;
            && Saturated(l[i].at + Delay(policy, l[i].attempts)) <= l[j].at
            && Delay(policy, l[i].attempts) <= Delay(policy, l[j].attempts)
  {
    CampaignInvariant(policy, stored, steps);
    var l := Run(policy, stored, steps).launches;
    DelayGrows(policy, l[i].attempts, l[j].attempts);
    hide Delay;
  }

  /** After a permanent failure nothing is launched again. */
  lemma {:induction false} GivingUpIsFinal(policy: Policy, stored: Budget, steps: seq<Step>, k: nat)
    requires k < |steps| && steps[k].GiveUp?
    ensures Run(policy, stored, steps).launches == Run(policy, stored, steps[..k]).launches
    ensures Run(policy, stored, steps).stored.attempts == policy.limit
  {
    if k < |steps| - 1 {
      GivingUpIsFinal(policy, stored, steps[..|steps| - 1], k);
      assert steps[..|steps| - 1][..k] == steps[..k];
    }
  }

  /** A budget is not withheld either: asked late enough, a fresh campaign launches as often as its
      limit says. */
  lemma {:induction false} TheWholeLimitCanBeUsed(policy: Policy, n: nat) returns (steps: seq<Step>)
    requires Words(policy) && n <= policy.limit
    ensures |Run(policy, Budget(0, 0), steps).launches| == n && Run(policy, Budget(0, 0), steps).stored.attempts == n
    ensures Run(policy, Budget(0, 0), steps).stored.nextAttempt <= MAX_U64
  {
    if n == 0 {
      steps := [];
    } else {
      var before := TheWholeLimitCanBeUsed(policy, n - 1);
      steps := before + [Attempt(MAX_U64)];
      assert steps[..|before|] == before;
      hide Delay;
    }
  }

  /** An attempt launches exactly if the stored budget has an attempt left and its time has come. One
      that dies before launching is spent all the same, and one that dies before writing is not. */
  lemma AttemptLaunchesExactly(policy: Policy, stored: Budget, steps: seq<Step>, now: nat)
    ensures var c, d := Run(policy, stored, steps), Run(policy, stored, steps + [Attempt(now)]);
            |d.launches| == |c.launches| + if c.stored.attempts < policy.limit && c.stored.nextAttempt <= now then 1 else 0
    ensures Run(policy, stored, steps + [DieBeforeLaunching(now)])
            == Campaign(Run(policy, stored, steps + [Attempt(now)]).stored, Run(policy, stored, steps).launches)
    ensures Run(policy, stored, steps + [DieBeforeWriting(now)]) == Run(policy, stored, steps)
  {
    assert (steps + [Attempt(now)])[..|steps|] == steps;
    assert (steps + [DieBeforeLaunching(now)])[..|steps|] == steps;
    assert (steps + [DieBeforeWriting(now)])[..|steps|] == steps;
    hide Delay;
  }
}
