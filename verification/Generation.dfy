/** Allocating generation numbers (src/generation.rs, `allocate`): above every number that was ever
    persisted, under the upgrade lock. */
module Allocation {
  import opened Bytes
  import opened Numbers
  import opened Options

  // ---------------------------------------------------------------- decimal numbers

  function Digits(n: nat): string {
    if n < 10 then [(n as char) + '0'] else Digits(n / 10) + [((n % 10) as char) + '0']
  }

  predicate Digit(c: char) {
    '0' <= c <= '9'
  }

  /** `parse::<u64>` after an optional plus sign: no digit, another character and overflow fail. */
  function ParseDigits(s: string): Option<nat> {
    if s == [] then Some(0)
    else
      var prefix := ParseDigits(s[..|s| - 1]);
      var c := s[|s| - 1];
      if prefix.None? || !Digit(c) then None
      else
        var n := 10 * prefix.value + (c - '0') as nat;
        if n <= MAX_U64 then Some(n) else None
  }

  function ParseU64(s: string): Option<nat> {
    var digits := if s != [] && s[0] == '+' then s[1..] else s;
    if digits == [] then None else ParseDigits(digits)
  }

  /** The characters of Unicode's White_Space property, which `trim` removes. */
  predicate White(c: char) {
    || '\t' <= c <= '\r' || c == ' ' || c == '\U{0085}' || c == '\U{00A0}' || c == '\U{1680}'
    || '\U{2000}' <= c <= '\U{200A}' || c == '\U{2028}' || c == '\U{2029}' || c == '\U{202F}'
    || c == '\U{205F}' || c == '\U{3000}'
  }

  function Trim(s: string): string {
    if s == [] then s
    else if White(s[0]) then Trim(s[1..])
    else if White(s[|s| - 1]) then Trim(s[..|s| - 1])
    else s
  }

  lemma {:induction false} DigitsAreDigits(n: nat)
    ensures Digits(n) != [] && forall i :: 0 <= i < |Digits(n)| ==> Digit(Digits(n)[i])
  {
    if n >= 10 {
      DigitsAreDigits(n / 10);
    }
  }

  lemma {:induction false} ParseOfDigits(n: nat)
    requires n <= MAX_U64
    ensures ParseDigits(Digits(n)) == Some(n)
  {
    var s := Digits(n);
    if n >= 10 {
      ParseOfDigits(n / 10);
      assert s[..|s| - 1] == Digits(n / 10);
    } else {
      assert s[..|s| - 1] == [];
    }
  }

  predicate AllWhite(s: string) {
    forall i :: 0 <= i < |s| ==> White(s[i])
  }

  lemma {:induction false} TrimsFront(before: string, s: string)
    requires AllWhite(before)
    ensures Trim(before + s) == Trim(s)
    decreases |before|
  {
    hide White;
    if before == [] {
      assert before + s == s;
    } else {
      assert (before + s)[1..] == before[1..] + s;
      TrimsFront(before[1..], s);
    }
  }

  lemma {:induction false} TrimsBack(s: string, after: string)
    requires AllWhite(after) && s != [] && !White(s[0]) && !White(s[|s| - 1])
    ensures Trim(s + after) == s
    decreases |after|
  {
    hide White;
    if after == [] {
      assert s + after == s;
    } else {
      var all, front := s + after, after[..|after| - 1];
      assert all[0] == s[0] && all[|all| - 1] == after[|after| - 1] && all[..|all| - 1] == s + front;
      TrimsBack(s, front);
    }
  }

  /** The counter file reads back as the number that was written, whatever whitespace an editor or
      a JSON writer put around it. */
  lemma {:induction false} CounterReadsBack(n: nat, before: string, after: string)
    requires n <= MAX_U64 && AllWhite(before) && AllWhite(after)
    ensures ParseU64(Trim(before + Digits(n) + after)) == Some(n)
  {
    hide Trim, ParseDigits, Digits, AllWhite;
    DigitsAreDigits(n);
    ParseOfDigits(n);
    assert before + Digits(n) + after == before + (Digits(n) + after);
    TrimsFront(before, Digits(n) + after);
    TrimsBack(Digits(n), after);
  }

  /** The number digits stand for, of whatever size. */
  function Value(s: string): nat {
    if s == [] then 0 else 10 * Value(s[..|s| - 1]) + if Digit(s[|s| - 1]) then (s[|s| - 1] - '0') as nat else 0
  }

  predicate AllDigits(s: string) {
    forall i :: 0 <= i < |s| ==> Digit(s[i])
  }

  lemma {:induction false} DigitsParseExactly(s: string)
    ensures ParseDigits(s) == if AllDigits(s) && Value(s) <= MAX_U64 then Some(Value(s)) else None
  {
    if s != [] {
      var front := s[..|s| - 1];
      DigitsParseExactly(front);
      assert AllDigits(s) <==> AllDigits(front) && Digit(s[|s| - 1]);
    }
  }

  /** What is read as a number, exactly: at least one digit and nothing else, after at most one plus
      sign, and no more than 64 bits hold. */
  lemma ParsesExactly(s: string)
    ensures var digits := if s != [] && s[0] == '+' then s[1..] else s;
            ParseU64(s) == if digits != [] && AllDigits(digits) && Value(digits) <= MAX_U64 then Some(Value(digits)) else None
    ensures ParseU64("+" + s).Some? ==> ParseU64("+" + s) == ParseU64(s)
  {
    DigitsParseExactly(if s != [] && s[0] == '+' then s[1..] else s);
    DigitsParseExactly(s);
    assert ("+" + s)[1..] == s;
    assert s != [] && s[0] == '+' ==> !AllDigits(s);
  }

  // ---------------------------------------------------------------- one allocation

  datatype Allocated = Next(generation: nat) | Malformed | Exhausted

  function Prior(counter: Option<string>): Option<nat> {
    if counter.None? then Some(0) else ParseU64(Trim(counter.value))
  }

  /** A number some file or the selection already carries. */
  predicate Taken(stems: seq<string>, prior: nat, selected: nat, g: nat) {
    g == prior || g == selected || exists i :: 0 <= i < |stems| && ParseU64(stems[i]) == Some(g)
  }

  lemma {:induction false} ParseIsU64(s: string)
    ensures ParseU64(s).Some? ==> ParseU64(s).value <= MAX_U64
  {
  }

  function Highest(stems: seq<string>, least: nat): nat {
    if stems == [] then least
    else
      var rest, value := Highest(stems[..|stems| - 1], least), ParseU64(stems[|stems| - 1]);
      if value.Some? then Max(rest, value.value) else rest
  }

  function Outcome(counter: Option<string>, stems: seq<string>, selected: nat): Allocated {
    var prior := Prior(counter);
    if prior.None? then Malformed
    else
      var maximum := Highest(stems, Max(prior.value, selected));
      if maximum >= MAX_U64 then Exhausted else Next(maximum + 1)
  }

  class Store {
    var counter: Option<string>

    constructor (counter: Option<string>)
      ensures this.counter == counter
    {
      this.counter := counter;
    }

    /** The number is in the counter file before it is returned. */
    method Allocate(stems: seq<string>, selected: nat) returns (r: Allocated)
      modifies this
      ensures r == Outcome(old(counter), stems, selected)
      ensures counter == if r.Next? then Some(Digits(r.generation)) else old(counter)
    {
      var prior := Prior(counter);
      if prior.None? {
        return Malformed;
      }
      var maximum := if prior.value >= selected then prior.value else selected;
      for i := 0 to |stems|
        invariant maximum == Highest(stems[..i], Max(prior.value, selected)) && counter == old(counter)
      {
        assert stems[..i + 1][..i] == stems[..i];
        var value := ParseU64(stems[i]);
        if value.Some? && value.value > maximum {
          maximum := value.value;
        }
      }
      assert stems[..|stems|] == stems;
      if maximum >= MAX_U64 {
        return Exhausted;
      }
      counter := Some(Digits(maximum + 1));
      r := Next(maximum + 1);
    }
  }

  lemma {:induction false} HighestIsHighest(stems: seq<string>, least: nat)
    ensures Highest(stems, least) >= least
    ensures forall i :: 0 <= i < |stems| && ParseU64(stems[i]).Some? ==> ParseU64(stems[i]).value <= Highest(stems, least)
    ensures Highest(stems, least) == least || exists i :: 0 <= i < |stems| && ParseU64(stems[i]) == Some(Highest(stems, least))
  {
    if stems != [] {
      HighestIsHighest(stems[..|stems| - 1], least);
    }
  }

  /** An allocation is the least number above everything taken, and is refused exactly when the
      counter is unreadable or the largest number is taken. */
  lemma AllocationIsTheNextFree(counter: Option<string>, stems: seq<string>, selected: nat)
    requires selected <= MAX_U64
    ensures Outcome(counter, stems, selected).Malformed? <==> Prior(counter).None?
    ensures Prior(counter).Some? ==>
              (Outcome(counter, stems, selected).Exhausted? <==> Taken(stems, Prior(counter).value, selected, MAX_U64))
    ensures forall g: nat :: Outcome(counter, stems, selected) == Next(g) ==>
              && 0 < g <= MAX_U64 && Taken(stems, Prior(counter).value, selected, g - 1)
              && forall h: nat :: Taken(stems, Prior(counter).value, selected, h) ==> h < g
  {
    if Prior(counter).Some? {
      HighestIsHighest(stems, Max(Prior(counter).value, selected));
      if counter.Some? {
        ParseIsU64(Trim(counter.value));
      }
      forall i | 0 <= i < |stems| ensures ParseU64(stems[i]).Some? ==> ParseU64(stems[i]).value <= MAX_U64 {
        ParseIsU64(stems[i]);
      }
    }
  }

  // ---------------------------------------------------------------- allocations across crashes

  datatype Fate = Returns | DiesBeforePublishing | DiesAfterPublishing

  /** One attempt under the lock, whatever the directory and the selection then hold. */
  datatype Attempt = Attempt(stems: seq<string>, selected: nat, fate: Fate)

  datatype History = History(counter: Option<string>, issued: seq<nat>)

  function After(h: History, a: Attempt): History {
    var r := Outcome(h.counter, a.stems, a.selected);
    if !r.Next? || a.fate.DiesBeforePublishing? then h
    else History(Some(Digits(r.generation)), if a.fate.Returns? then h.issued + [r.generation] else h.issued)
  }

  function Attempts(counter: Option<string>, attempts: seq<Attempt>): History {
    if attempts == [] then History(counter, [])
    else After(Attempts(counter, attempts[..|attempts| - 1]), attempts[|attempts| - 1])
  }

  predicate Increasing(issued: seq<nat>) {
    forall i, j :: 0 <= i < j < |issued| ==> issued[i] < issued[j]
  }

  predicate Recorded(h: History) {
    h.issued != [] ==> Prior(h.counter).Some? && forall i :: 0 <= i < |h.issued| ==> h.issued[i] <= Prior(h.counter).value
  }

  lemma {:induction false} NextIsAbove(counter: Option<string>, stems: seq<string>, selected: nat)
    requires Outcome(counter, stems, selected).Next?
    ensures var g := Outcome(counter, stems, selected).generation;
            Prior(counter).Some? && Prior(counter).value < g && Prior(Some(Digits(g))) == Some(g)
  {
    hide Digits, Trim, ParseU64, Highest;
    var g := Outcome(counter, stems, selected).generation;
    HighestIsHighest(stems, Max(Prior(counter).value, selected));
    CounterReadsBack(g, [], []);
    assert [] + Digits(g) + [] == Digits(g);
  }

  lemma AttemptRecords(h: History, a: Attempt)
    requires Recorded(h) && Increasing(h.issued)
    ensures Recorded(After(h, a)) && Increasing(After(h, a).issued)
  {
    hide Outcome, Prior, Digits;
    if Outcome(h.counter, a.stems, a.selected).Next? {
      NextIsAbove(h.counter, a.stems, a.selected);
    }
  }

  /** No generation number is ever handed out twice, and later ones are larger, across any crashes
      and whatever happens to the generation files in between. */
  lemma {:induction false} GenerationsIncrease(counter: Option<string>, attempts: seq<Attempt>)
    ensures var issued := Attempts(counter, attempts).issued; forall i, j :: 0 <= i < j < |issued| ==> issued[i] < issued[j]
  {
    IssuedIsRecorded(counter, attempts);
  }

  lemma {:induction false} IssuedIsRecorded(counter: Option<string>, attempts: seq<Attempt>)
    ensures Recorded(Attempts(counter, attempts)) && Increasing(Attempts(counter, attempts).issued)
  {
    if attempts != [] {
      hide After, Recorded, Increasing;
      IssuedIsRecorded(counter, attempts[..|attempts| - 1]);
      AttemptRecords(Attempts(counter, attempts[..|attempts| - 1]), attempts[|attempts| - 1]);
    }
  }

  /** What each attempt leaves: the number it found is in the counter unless it died before, and
      handed out exactly if it returned. */
  lemma {:induction false} AttemptsAreCounted(counter: Option<string>, attempts: seq<Attempt>, a: Attempt)
    ensures var h, t := Attempts(counter, attempts), Attempts(counter, attempts + [a]);
            var r := Outcome(h.counter, a.stems, a.selected);
            && t.issued == h.issued + (if r.Next? && a.fate.Returns? then [r.generation] else [])
            && Prior(t.counter) == if r.Next? && !a.fate.DiesBeforePublishing? then Some(r.generation) else Prior(h.counter)
  {
    var h := Attempts(counter, attempts);
    assert (attempts + [a])[..|attempts|] == attempts;
    if Outcome(h.counter, a.stems, a.selected).Next? {
      NextIsAbove(h.counter, a.stems, a.selected);
    }
    hide Outcome, Prior, Digits;
  }
}

/** A process generation and the sessions it admitted (src/generation.rs): which generation is
    selected, when this one was superseded, and when it may retire; and the loop that waits for
    that. Sections under the session lock are steps; a selection is notified after its section.
    Times are nanoseconds of a clock that never goes back. */
module Sessions {
  import opened Options

  datatype Retirement = Idle | DrainExpired(active: nat, legacy: nat)

  /** What never changes about a generation. */
  datatype Fixed = Fixed(own: nat, staged: bool, started: nat, drainLimit: Option<nat>)

  datatype State = State(selected: nat, active: nat, legacy: nat, retired: bool, since: Option<nat>, notices: nat)

  function Initial(f: Fixed, selected: nat): State {
    State(selected, 0, 0, false, if selected > f.own then Some(f.started) else None, 0)
  }

  datatype Choice = Refused | Same | Moved

  /** The section of `select` under the lock. The notification comes after it, if the selection moved. */
  function Selecting(f: Fixed, s: State, selected: nat, now: nat): (State, Choice) {
    if selected < s.selected then (s, Refused)
    else if selected == s.selected then (s, Same)
    else (s.(selected := selected, since := if selected > f.own && s.since.None? then Some(now) else s.since), Moved)
  }

  function Notified(s: State): State {
    s.(notices := s.notices + 1)
  }

  /** A newer generation is selected, or this is a staged candidate that was not selected in time. */
  predicate Eligible(f: Fixed, s: State, now: nat, lifetime: nat) {
    s.selected > f.own || StagingExpired(f, s, now, lifetime)
  }

  predicate StagingExpired(f: Fixed, s: State, now: nat, lifetime: nat) {
    f.staged && s.selected < f.own && now - f.started > lifetime
  }

  predicate DrainOver(f: Fixed, s: State, now: nat) {
    f.drainLimit.Some? && s.since.Some? && now - s.since.value >= f.drainLimit.value
  }

  function Retiring(f: Fixed, s: State, now: nat, lifetime: nat, idle: bool, drain: bool): (State, Option<Retirement>) {
    if !Eligible(f, s, now, lifetime) then (s, None)
    else if (drain && DrainOver(f, s, now)) || (idle && s.active == 0) then
      (s.(retired := true), Some(if s.active == 0 then Idle else DrainExpired(s.active, s.legacy)))
    else (s, None)
  }

  class Generation {
    const fixed: Fixed
    var selected: nat
    var active: nat
    var legacy: nat
    var retired: bool
    var since: Option<nat>
    var notices: nat

    constructor (own: nat, selected: nat, staged: bool, drainLimit: Option<nat>, now: nat)
      ensures fixed == Fixed(own, staged, now, drainLimit) && View() == Initial(fixed, selected)
    {
      fixed := Fixed(own, staged, now, drainLimit);
      this.selected, active, legacy, retired, notices := selected, 0, 0, false, 0;
      since := if selected > own then Some(now) else None;
    }

    function View(): State
      reads this
    {
      State(selected, active, legacy, retired, since, notices)
    }

    method Select(value: nat, now: nat) returns (ok: bool)
      modifies this
      ensures ok <==> value >= old(selected)
      ensures ok ==> selected == value
      ensures var (s, choice) := Selecting(fixed, old(View()), value, now);
              ok == !choice.Refused? && View() == if choice.Moved? then Notified(s) else s
    {
      if value < selected {
        return false;
      }
      var previous := selected;
      selected := value;
      if previous != value {
        if value > fixed.own && since.None? {
          since := Some(now);
        }
        notices := notices + 1;
      }
      ok := true;
    }

    /** The lease counts from the moment it exists. */
    method Admit() returns (lease: Lease?)
      modifies this
      ensures lease == null <==> old(retired)
      ensures View() == if old(retired) then old(View()) else old(View()).(active := old(active) + 1)
      ensures lease != null ==> fresh(lease) && lease.generation == this && !lease.legacy
    {
      if retired {
        return null;
      }
      active := active + 1;
      lease := new Lease(this);
    }

    method TryRetire(now: nat, lifetime: nat, idle: bool, drain: bool) returns (r: Option<Retirement>)
      modifies this
      ensures (View(), r) == Retiring(fixed, old(View()), now, lifetime, idle, drain)
    {
      if selected <= fixed.own && !(fixed.staged && selected < fixed.own && now - fixed.started > lifetime) {
        return None;
      }
      var expired := drain && fixed.drainLimit.Some? && since.Some? && now - since.value >= fixed.drainLimit.value;
      var free := idle && active == 0;
      if !(expired || free) {
        return None;
      }
      retired := true;
      r := Some(if active == 0 then Idle else DrainExpired(active, legacy));
    }
  }

  class Lease {
    const generation: Generation
    var legacy: bool

    constructor (generation: Generation)
      ensures this.generation == generation && !legacy
    {
      this.generation := generation;
      legacy := false;
    }

    /** Marking twice counts once. */
    method MarkLegacy()
      modifies this, generation
      ensures legacy
      ensures generation.View()
              == if old(legacy) then old(generation.View())
                 else old(generation.View()).(legacy := old(generation.legacy) + 1)
    {
      if !legacy {
        legacy := true;
        generation.legacy := generation.legacy + 1;
      }
    }

    method Drop()
      requires generation.active > 0 && (legacy ==> generation.legacy > 0)
      modifies generation
      ensures generation.View() == Dropped(old(generation.View()), legacy)
    {
      generation.active := generation.active - 1;
      if legacy {
        generation.legacy := generation.legacy - 1;
      }
      generation.notices := generation.notices + 1;
    }
  }

  function Dropped(s: State, legacy: bool): State
    requires s.active > 0 && (legacy ==> s.legacy > 0)
  {
    s.(active := s.active - 1, legacy := if legacy then s.legacy - 1 else s.legacy, notices := s.notices + 1)
  }

  // ---------------------------------------------------------------- runs

  /** What `run_until_retired` was called with. */
  datatype Plan = Plan(interval: nat, lifetime: nat)

  /** The retirement loop: `seen` is the notice count it marked at its top. After a refusal to retire
      it reads the time left before the drain limit, at `readAt`, and then arms a timer, at `armedAt`. */
  datatype Loop =
    | NotRunning
    | AtTop(plan: Plan)
    | Marked(plan: Plan, seen: nat)
    | Refreshing(plan: Plan, seen: nat)
    | Refreshed(plan: Plan, seen: nat)
    | Unretired(plan: Plan, seen: nat)
    | Arming(plan: Plan, seen: nat, readAt: nat, wait: nat)
    | Asleep(plan: Plan, seen: nat, readAt: nat, wait: nat, armedAt: nat)
    | Retired(retirement: Retirement)

  /** The generation, the clock, the leases held with whether each is marked legacy, the selections
      that moved and have not notified yet, and the loop. */
  datatype World = World(
    state: State, now: nat, leases: map<nat, bool>, admitted: nat, broken: bool, sending: nat, loop: Loop)

  datatype Step =
    | Wait(time: nat)
    | Select(value: nat)
    | SendNotice
    | Admit
    | MarkLegacy(lease: nat)
    | Drop(lease: nat)
    | TryRetire(lifetime: nat, idle: bool, drain: bool)
    | StartLoop(plan: Plan)
    | AdvanceLoop

  function Begin(f: Fixed, selected: nat): World {
    World(Initial(f, selected), f.started, map[], 0, false, 0, NotRunning)
  }

  /** How long the loop sleeps unless it is notified. */
  function Pause(f: Fixed, s: State, now: nat, interval: nat): nat {
    if f.drainLimit.None? || s.since.None? then interval
    else
      var elapsed := now - s.since.value;
      var remaining := if elapsed >= f.drainLimit.value then 0 else f.drainLimit.value - elapsed;
      if remaining < interval then remaining else interval
  }

  /** One step of the loop. */
  function LoopStep(f: Fixed, s: State, now: nat, loop: Loop): (State, Loop) {
    match loop
    case AtTop(plan) => (s, Marked(plan, s.notices))
    case Marked(plan, seen) =>
      var (t, r) := Retiring(f, s, now, plan.lifetime, false, true);
      (t, if r.Some? then Retired(r.value) else Refreshing(plan, seen))
    case Refreshing(plan, seen) => (s, Refreshed(plan, seen))
    case Refreshed(plan, seen) =>
      var (t, r) := Retiring(f, s, now, plan.lifetime, true, true);
      (t, if r.Some? then Retired(r.value) else Unretired(plan, seen))
    case Unretired(plan, seen) => (s, Arming(plan, seen, now, Pause(f, s, now, plan.interval)))
    case Arming(plan, seen, readAt, wait) => (s, Asleep(plan, seen, readAt, wait, now))
    case Asleep(plan, seen, _, wait, armedAt) => (s, if s.notices != seen || now >= armedAt + wait then AtTop(plan) else loop)
    case _ => (s, loop)
  }

  function Selected(f: Fixed, w: World, value: nat): World {
    var (s, choice) := Selecting(f, w.state, value, w.now);
    w.(state := s, sending := if choice.Moved? then w.sending + 1 else w.sending)
  }

  /** `broken` records a counter that would have gone below zero. */
  function Next(f: Fixed, w: World, step: Step): World {
    match step
    case Wait(time) => w.(now := w.now + time)
    case Select(value) => Selected(f, w, value)
    case SendNotice => if w.sending == 0 then w else w.(state := Notified(w.state), sending := w.sending - 1)
    case Admit =>
      if w.state.retired then w
      else w.(state := w.state.(active := w.state.active + 1), leases := w.leases[w.admitted := false], admitted := w.admitted + 1)
    case MarkLegacy(lease) =>
      if lease !in w.leases || w.leases[lease] then w
      else w.(state := w.state.(legacy := w.state.legacy + 1), leases := w.leases[lease := true])
    case Drop(lease) =>
      if lease !in w.leases then w
      else if w.state.active == 0 || (w.leases[lease] && w.state.legacy == 0) then w.(broken := true)
      else w.(state := Dropped(w.state, w.leases[lease]), leases := w.leases - {lease})
    case TryRetire(lifetime, idle, drain) => w.(state := Retiring(f, w.state, w.now, lifetime, idle, drain).0)
    case StartLoop(plan) => if w.loop.NotRunning? then w.(loop := AtTop(plan)) else w
    case AdvanceLoop =>
      var (s, loop) := LoopStep(f, w.state, w.now, w.loop);
      w.(state := s, loop := loop)
  }

  function Run(f: Fixed, selected: nat, steps: seq<Step>): World {
    if steps == [] then Begin(f, selected)
    else Next(f, Run(f, selected, steps[..|steps| - 1]), steps[|steps| - 1])
  }

  // ---------------------------------------------------------------- the counters

  function MarkedLeases(leases: map<nat, bool>): set<nat> {
    set l | l in leases && leases[l]
  }

  predicate Counted(w: World) {
    && (forall l :: l in w.leases ==> l < w.admitted)
    && w.state.active == |w.leases| && w.state.legacy == |MarkedLeases(w.leases)| && !w.broken
  }

  lemma AdmitCounts(leases: map<nat, bool>, l: nat)
    requires l !in leases
    ensures |leases[l := false]| == |leases| + 1 && MarkedLeases(leases[l := false]) == MarkedLeases(leases)
  {
    assert leases[l := false].Keys == leases.Keys + {l};
  }

  lemma MarkCounts(leases: map<nat, bool>, l: nat)
    requires l in leases && !leases[l]
    ensures |leases[l := true]| == |leases| && |MarkedLeases(leases[l := true])| == |MarkedLeases(leases)| + 1
  {
    assert leases[l := true].Keys == leases.Keys;
    assert MarkedLeases(leases[l := true]) == MarkedLeases(leases) + {l};
  }

  lemma DropCounts(leases: map<nat, bool>, l: nat)
    requires l in leases
    ensures |leases| > 0 && (leases[l] ==> |MarkedLeases(leases)| > 0)
    ensures |leases - {l}| == |leases| - 1
    ensures |MarkedLeases(leases - {l})| == |MarkedLeases(leases)| - if leases[l] then 1 else 0
  {
    assert l in leases.Keys && leases.Keys == (leases - {l}).Keys + {l};
    if leases[l] {
      assert MarkedLeases(leases) == MarkedLeases(leases - {l}) + {l};
    } else {
      assert MarkedLeases(leases) == MarkedLeases(leases - {l});
    }
  }

  /** Selecting, notifying and retiring admit and release nobody. */
  lemma OthersCount(f: Fixed, w: World, step: Step)
    requires !step.Admit? && !step.MarkLegacy? && !step.Drop?
    ensures var t := Next(f, w, step);
            && t.leases == w.leases && t.admitted == w.admitted && t.broken == w.broken
            && t.state.active == w.state.active && t.state.legacy == w.state.legacy
  {
  }

  lemma StepKeepsCounts(f: Fixed, w: World, step: Step)
    requires Counted(w)
    ensures Counted(Next(f, w, step))
  {
    hide MarkedLeases, Retiring, Selecting, LoopStep;
    match step
    case Admit => AdmitCounts(w.leases, w.admitted);
    case MarkLegacy(lease) => if lease in w.leases && !w.leases[lease] { MarkCounts(w.leases, lease); }
    case Drop(lease) => if lease in w.leases { DropCounts(w.leases, lease); }
    case _ => OthersCount(f, w, step);
  }

  /** In every run the counts are the leases held and the marked ones among them, so no release
      takes a counter below zero. */
  lemma {:induction false} CountsAreLeases(f: Fixed, selected: nat, steps: seq<Step>)
    ensures Counted(Run(f, selected, steps))
  {
    if steps != [] {
      CountsAreLeases(f, selected, steps[..|steps| - 1]);
      StepKeepsCounts(f, Run(f, selected, steps[..|steps| - 1]), steps[|steps| - 1]);
      hide Next, Counted;
    }
  }

  // ---------------------------------------------------------------- what never goes back

  /** A later moment of the same run. */
  predicate Later(w: World, t: World) {
    && w.now <= t.now && w.state.selected <= t.state.selected && w.state.notices <= t.state.notices
    && (w.state.since.Some? ==> t.state.since == w.state.since)
    && (w.state.retired ==> t.state.retired && t.leases.Keys <= w.leases.Keys)
  }

  lemma StepIsLater(f: Fixed, w: World, step: Step)
    ensures Later(w, Next(f, w, step))
  {
  }

  /** Selection never moves back, the drain clock never restarts, and retirement is permanent: once
      retired, sessions only end. */
  lemma {:induction false} NothingGoesBack(f: Fixed, selected: nat, steps: seq<Step>, k: nat)
    requires k <= |steps|
    ensures Later(Run(f, selected, steps[..k]), Run(f, selected, steps))
  {
    if k == |steps| {
      assert steps[..k] == steps;
    } else {
      var before := steps[..|steps| - 1];
      assert before[..k] == steps[..k];
      NothingGoesBack(f, selected, before, k);
      StepIsLater(f, Run(f, selected, before), steps[|steps| - 1]);
      hide Next;
    }
  }

  // ---------------------------------------------------------------- the drain clock

  /** The time a newer generation was first selected, from the history of the selection alone. */
  function FirstNewer(f: Fixed, selected: nat, steps: seq<Step>): Option<nat> {
    if steps == [] then if selected > f.own then Some(f.started) else None
    else
      var before := steps[..|steps| - 1];
      var earlier := FirstNewer(f, selected, before);
      if earlier.Some? then earlier
      else if Run(f, selected, steps).state.selected > f.own then Some(Run(f, selected, before).now)
      else None
  }

  lemma StepKeepsClock(f: Fixed, w: World, step: Step)
    requires w.state.since.Some? <==> w.state.selected > f.own
    ensures var t := Next(f, w, step);
            && (t.state.since.Some? <==> t.state.selected > f.own)
            && t.state.since == if w.state.since.Some? then w.state.since
                                else if t.state.selected > f.own then Some(w.now) else None
  {
  }

  /** The drain clock starts exactly when a newer generation is first selected. */
  lemma {:induction false} DrainClockIsFirstNewer(f: Fixed, selected: nat, steps: seq<Step>)
    ensures var s := Run(f, selected, steps).state;
            s.since == FirstNewer(f, selected, steps) && (s.since.Some? <==> s.selected > f.own)
  {
    if steps != [] {
      DrainClockIsFirstNewer(f, selected, steps[..|steps| - 1]);
      StepKeepsClock(f, Run(f, selected, steps[..|steps| - 1]), steps[|steps| - 1]);
      hide Next;
    }
  }

  // ---------------------------------------------------------------- retirement

  /** What has to hold at the moment of a retirement, whoever asked for it. */
  predicate Justified(f: Fixed, w: World, step: Step) {
    && (step.TryRetire? || (step.AdvanceLoop? && (w.loop.Marked? || w.loop.Refreshed?)))
    && Eligible(f, w.state, w.now, if step.TryRetire? then step.lifetime else w.loop.plan.lifetime)
    && (w.leases == map[] || ((step.TryRetire? ==> step.drain) && DrainOver(f, w.state, w.now)))
  }

  lemma RetiringIsJustified(f: Fixed, w: World, step: Step)
    requires Counted(w) && !w.state.retired && Next(f, w, step).state.retired
    ensures Justified(f, w, step)
  {
    if w.state.active == 0 {
      assert w.leases.Keys == {};
    }
  }

  /** A generation retires only when it may: superseded, or a staged candidate that was not selected
      in time; and then without sessions, or past the drain limit. The selected one never retires. */
  lemma {:induction false} RetirementIsJustified(f: Fixed, selected: nat, steps: seq<Step>) returns (k: nat)
    requires Run(f, selected, steps).state.retired
    ensures k < |steps| && Justified(f, Run(f, selected, steps[..k]), steps[k])
    ensures Run(f, selected, steps[..k]).state.selected != f.own
    decreases |steps|
  {
    hide Next, Justified;
    var before, step := steps[..|steps| - 1], steps[|steps| - 1];
    var w := Run(f, selected, before);
    if w.state.retired {
      k := RetirementIsJustified(f, selected, before);
      assert before[..k] == steps[..k] && before[k] == steps[k];
    } else {
      k := |before|;
      CountsAreLeases(f, selected, before);
      RetiringIsJustified(f, w, step);
      JustifiedIsNotSelected(f, w, step);
      assert steps[..|before|] == before;
    }
  }

  lemma JustifiedIsNotSelected(f: Fixed, w: World, step: Step)
    requires Justified(f, w, step)
    ensures w.state.selected != f.own
  {
  }

  predicate Settled(f: Fixed, w: World) {
    w.state.retired && w.leases != map[] ==> DrainOver(f, w.state, w.now)
  }

  lemma StepKeepsSettled(f: Fixed, w: World, step: Step)
    requires Counted(w) && Settled(f, w)
    ensures Settled(f, Next(f, w, step))
  {
    var t := Next(f, w, step);
    if t.state.retired && !w.state.retired {
      RetiringIsJustified(f, w, step);
    } else if t.state.retired {
      StepIsLater(f, w, step);
      if w.leases == map[] {
        assert t.leases.Keys == {};
      }
    }
  }

  lemma {:induction false} RetiredIsSettled(f: Fixed, selected: nat, steps: seq<Step>)
    ensures Settled(f, Run(f, selected, steps))
  {
    if steps != [] {
      RetiredIsSettled(f, selected, steps[..|steps| - 1]);
      CountsAreLeases(f, selected, steps[..|steps| - 1]);
      StepKeepsSettled(f, Run(f, selected, steps[..|steps| - 1]), steps[|steps| - 1]);
      hide Next, Settled, Counted;
    }
  }

  /** A retired generation holds no session, at that moment or ever after, unless the drain limit has
      passed since a newer generation was first selected. */
  lemma {:induction false} NoSessionIsAbandonedEarly(f: Fixed, selected: nat, steps: seq<Step>)
    requires Run(f, selected, steps).state.retired && Run(f, selected, steps).leases != map[]
    ensures f.drainLimit.Some? && FirstNewer(f, selected, steps).Some?
    ensures FirstNewer(f, selected, steps).value + f.drainLimit.value <= Run(f, selected, steps).now
  {
    RetiredIsSettled(f, selected, steps);
    DrainClockIsFirstNewer(f, selected, steps);
  }

  // ---------------------------------------------------------------- the waiting loop

  predicate MayRetire(f: Fixed, s: State, now: nat, lifetime: nat) {
    Retiring(f, s, now, lifetime, true, true).1.Some?
  }

  /** Nothing has happened that the loop has not marked, or is about to be told. */
  predicate Untold(s: State, sending: nat, seen: nat) {
    s.notices == seen && sending == 0
  }

  /** Past its refusal to retire, an untold loop faces a generation that is not superseded or not
      idle, and a pause that ends by the drain limit. */
  predicate LoopSafe(f: Fixed, w: World) {
    match w.loop
    case Marked(_, seen) => seen <= w.state.notices
    case Refreshing(_, seen) => seen <= w.state.notices
    case Refreshed(_, seen) => seen <= w.state.notices
    case Unretired(plan, seen) => Resting(f, w, seen)
    case Arming(plan, seen, readAt, wait) => Resting(f, w, seen) && Limited(f, w, seen, plan.interval, readAt, wait)
    case Asleep(plan, seen, readAt, wait, armedAt) =>
      Resting(f, w, seen) && Limited(f, w, seen, plan.interval, readAt, wait) && readAt <= armedAt <= w.now
    case _ => true
  }

  predicate Resting(f: Fixed, w: World, seen: nat) {
    seen <= w.state.notices && (Untold(w.state, w.sending, seen) ==> w.state.selected <= f.own || w.state.active > 0)
  }

  predicate Limited(f: Fixed, w: World, seen: nat, interval: nat, readAt: nat, wait: nat) {
    && readAt <= w.now && wait <= interval
    && (Untold(w.state, w.sending, seen) && w.state.since.Some? && f.drainLimit.Some? ==>
          readAt + wait <= w.state.since.value + f.drainLimit.value || wait == 0)
  }

  /** The drain clock is set exactly when superseded, and not in the future. */
  predicate ClockSafe(f: Fixed, w: World) {
    (w.state.since.Some? <==> w.state.selected > f.own) && (w.state.since.Some? ==> w.state.since.value <= w.now)
  }

  lemma StepKeepsClockSafe(f: Fixed, w: World, step: Step)
    requires ClockSafe(f, w)
    ensures ClockSafe(f, Next(f, w, step))
  {
  }

  /** Whatever others do, an untold loop stays untold only of things that do not matter to it. */
  lemma OthersKeepLoopSafe(f: Fixed, w: World, step: Step)
    requires LoopSafe(f, w) && ClockSafe(f, w) && !step.AdvanceLoop?
    ensures LoopSafe(f, Next(f, w, step))
  {
  }

  lemma LoopKeepsLoopSafe(f: Fixed, w: World)
    requires LoopSafe(f, w) && ClockSafe(f, w)
    ensures LoopSafe(f, Next(f, w, AdvanceLoop))
  {
  }

  lemma {:induction false} LoopIsSafe(f: Fixed, selected: nat, steps: seq<Step>)
    ensures LoopSafe(f, Run(f, selected, steps)) && ClockSafe(f, Run(f, selected, steps))
  {
    if steps != [] {
      var w, step := Run(f, selected, steps[..|steps| - 1]), steps[|steps| - 1];
      LoopIsSafe(f, selected, steps[..|steps| - 1]);
      StepKeepsClockSafe(f, w, step);
      if step.AdvanceLoop? {
        LoopKeepsLoopSafe(f, w);
      } else {
        OthersKeepLoopSafe(f, w, step);
      }
      hide Next, LoopSafe, ClockSafe;
    }
  }

  /** No retirement is missed: in every run, a sleeping loop whose generation may retire has a notice
      it has not seen, or a selection is about to send one, or its pause has passed since it read
      the time left, or a staged candidate's lifetime ran out, for which it never sleeps longer
      than the refresh interval. */
  lemma {:induction false} NoRetirementIsMissed(f: Fixed, selected: nat, steps: seq<Step>)
    requires Run(f, selected, steps).loop.Asleep?
    ensures var w := Run(f, selected, steps);
            && w.loop.wait <= w.loop.plan.interval
            && (MayRetire(f, w.state, w.now, w.loop.plan.lifetime) ==>
                  || w.state.notices != w.loop.seen || w.sending > 0
                  || w.now >= w.loop.readAt + w.loop.wait
                  || StagingExpired(f, w.state, w.now, w.loop.plan.lifetime))
  {
    LoopIsSafe(f, selected, steps);
    hide Run;
  }

  /** Why a selection about to notify has to be named: after its section under the lock an idle
      generation may retire, and the loop sleeps on, untold. */
  lemma SelectionNotifiesLate() returns (f: Fixed, steps: seq<Step>)
    ensures var w := Run(f, 1, steps);
            && w.loop.Asleep? && MayRetire(f, w.state, w.now, w.loop.plan.lifetime)
            && w.state.notices == w.loop.seen && w.now < w.loop.readAt + w.loop.wait
            && !StagingExpired(f, w.state, w.now, w.loop.plan.lifetime) && w.sending == 1
  {
    hide Run;
    f := Fixed(1, false, 0, None);
    var plan := Plan(10, 10);
    steps := LoopFallsAsleep(f, plan);
    var w := Begin(f, 1).(loop := Asleep(plan, 0, 0, 10, 0));
    steps := Then(f, 1, steps, w, Select(2), Selected(f, w, 2));
  }

  lemma Then(f: Fixed, selected: nat, steps: seq<Step>, w: World, step: Step, t: World) returns (more: seq<Step>)
    requires Run(f, selected, steps) == w && Next(f, w, step) == t
    ensures Run(f, selected, more) == t && more == steps + [step]
  {
    hide Next;
    more := steps + [step];
    assert more[..|steps|] == steps;
  }

  lemma NothingYet(f: Fixed, selected: nat)
    ensures Run(f, selected, []) == Begin(f, selected)
  {
  }

  lemma LoopFallsAsleep(f: Fixed, plan: Plan) returns (steps: seq<Step>)
    requires f == Fixed(1, false, 0, None)
    ensures Run(f, 1, steps) == Begin(f, 1).(loop := Asleep(plan, 0, 0, plan.interval, 0))
  {
    NothingYet(f, 1);
    hide Run;
    var w := Begin(f, 1);
    steps := Then(f, 1, [], w, StartLoop(plan), w.(loop := AtTop(plan)));
    steps := Then(f, 1, steps, w.(loop := AtTop(plan)), AdvanceLoop, w.(loop := Marked(plan, 0)));
    steps := Then(f, 1, steps, w.(loop := Marked(plan, 0)), AdvanceLoop, w.(loop := Refreshing(plan, 0)));
    steps := Then(f, 1, steps, w.(loop := Refreshing(plan, 0)), AdvanceLoop, w.(loop := Refreshed(plan, 0)));
    steps := Then(f, 1, steps, w.(loop := Refreshed(plan, 0)), AdvanceLoop, w.(loop := Unretired(plan, 0)));
    steps := Then(f, 1, steps, w.(loop := Unretired(plan, 0)), AdvanceLoop, w.(loop := Arming(plan, 0, 0, plan.interval)));
    steps := Then(f, 1, steps, w.(loop := Arming(plan, 0, 0, plan.interval)), AdvanceLoop,
                  w.(loop := Asleep(plan, 0, 0, plan.interval, 0)));
  }

  // ---------------------------------------------------------------- exactly when

  /** The selection is the highest ever asked for. */
  lemma {:induction false} SelectionIsTheHighest(f: Fixed, selected: nat, steps: seq<Step>)
    ensures var top := Run(f, selected, steps).state.selected;
            && selected <= top && (forall k :: 0 <= k < |steps| && steps[k].Select? ==> steps[k].value <= top)
            && (top == selected || exists k :: 0 <= k < |steps| && steps[k] == Select(top))
    decreases |steps|
  {
    if steps != [] {
      var before, step := steps[..|steps| - 1], steps[|steps| - 1];
      SelectionIsTheHighest(f, selected, before);
      assert forall k :: 0 <= k < |before| ==> steps[k] == before[k];
      StepSelects(f, Run(f, selected, before), step);
      assert Run(f, selected, steps) == Next(f, Run(f, selected, before), step);
      hide Next, Run;
    }
  }

  lemma StepSelects(f: Fixed, w: World, step: Step)
    ensures Next(f, w, step).state.selected
            == if step.Select? && step.value > w.state.selected then step.value else w.state.selected
  {
  }

  /** Over every run an attempt to retire succeeds exactly if a newer generation was selected, or a
      staged candidate was passed over for its lifetime, and no session is left or the drain limit
      has passed since the newer one was first selected; and it reports which, with the sessions
      held and the legacy ones among them. */
  lemma {:induction false} RetiresExactly(f: Fixed, selected: nat, steps: seq<Step>, lifetime: nat, idle: bool, drain: bool)
    ensures var w := Run(f, selected, steps);
            var newer := FirstNewer(f, selected, steps);
            var r := Retiring(f, w.state, w.now, lifetime, idle, drain).1;
            && (r.Some? <==>
                  && (newer.Some? || (f.staged && w.state.selected < f.own && w.now - f.started > lifetime))
                  && ((idle && w.leases == map[])
                      || (drain && f.drainLimit.Some? && newer.Some? && w.now - newer.value >= f.drainLimit.value)))
            && (r.Some? ==>
                  r.value == if w.leases == map[] then Idle else DrainExpired(|w.leases|, |MarkedLeases(w.leases)|))
            && (Run(f, selected, steps + [TryRetire(lifetime, idle, drain)]).state.retired <==> w.state.retired || r.Some?)
  {
    assert (steps + [TryRetire(lifetime, idle, drain)])[..|steps|] == steps;
    CountsAreLeases(f, selected, steps);
    DrainClockIsFirstNewer(f, selected, steps);
    hide Run, FirstNewer, MarkedLeases;
    var w := Run(f, selected, steps);
    assert w.state.active == 0 ==> w.leases.Keys == {};
  }

  // ---------------------------------------------------------------- leases and notices, by history

  /** Step `k` admitted lease `l`. */
  ghost predicate AdmittedAt(f: Fixed, selected: nat, steps: seq<Step>, k: nat, l: nat) {
    && k < |steps| && steps[k].Admit? && !Run(f, selected, steps[..k]).state.retired
    && Run(f, selected, steps[..k]).admitted == l
  }

  /** Some step after step `k` is this one. */
  predicate DoneSince(steps: seq<Step>, k: nat, step: Step) {
    exists j :: k < j < |steps| && steps[j] == step
  }

  ghost predicate HeldSince(f: Fixed, selected: nat, steps: seq<Step>, k: nat, l: nat) {
    AdmittedAt(f, selected, steps, k, l) && !DoneSince(steps, k, Drop(l))
  }

  /** How one step changes whether a lease is held and marked. */
  lemma StepHolds(f: Fixed, w: World, step: Step, l: nat)
    requires Counted(w)
    ensures var t := Next(f, w, step);
            && (l in t.leases <==> (l in w.leases && step != Drop(l)) || (step.Admit? && !w.state.retired && l == w.admitted))
            && (l in t.leases && l in w.leases ==> (t.leases[l] <==> w.leases[l] || step == MarkLegacy(l)))
            && (l in t.leases && l !in w.leases ==> !t.leases[l])
            && t.admitted == w.admitted + if step.Admit? && !w.state.retired then 1 else 0
  {
    hide Retiring, Selecting, LoopStep, MarkedLeases;
    match step
    case Drop(lease) => if lease in w.leases { DropCounts(w.leases, lease); }
    case Admit =>
    case MarkLegacy(_) =>
    case _ => OthersCount(f, w, step);
  }

  lemma DoneSinceGrows(steps: seq<Step>, step: Step, k: nat, x: Step)
    requires k < |steps|
    ensures DoneSince(steps + [step], k, x) <==> DoneSince(steps, k, x) || step == x
  {
    var more := steps + [step];
    assert more[|steps|] == step && forall j :: 0 <= j < |steps| ==> more[j] == steps[j];
    if DoneSince(steps, k, x) {
      var j :| k < j < |steps| && steps[j] == x;
      assert more[j] == x;
    }
  }

  lemma {:induction false} EarlierLeasesAreLower(f: Fixed, selected: nat, steps: seq<Step>, k: nat, l: nat)
    requires AdmittedAt(f, selected, steps, k, l)
    ensures l < Run(f, selected, steps).admitted
    decreases |steps|
  {
    var before, step := steps[..|steps| - 1], steps[|steps| - 1];
    CountsAreLeases(f, selected, before);
    StepHolds(f, Run(f, selected, before), step, l);
    hide Next;
    if k < |before| {
      assert before[..k] == steps[..k];
      EarlierLeasesAreLower(f, selected, before, k, l);
    } else {
      assert steps[..k] == before;
    }
  }

  lemma AdmissionsGrow(f: Fixed, selected: nat, steps: seq<Step>, step: Step, k: nat, l: nat)
    ensures var w := Run(f, selected, steps);
            AdmittedAt(f, selected, steps + [step], k, l) <==>
              AdmittedAt(f, selected, steps, k, l) || (k == |steps| && step.Admit? && !w.state.retired && l == w.admitted)
  {
    hide Run;
    var more := steps + [step];
    if k < |steps| {
      assert more[..k] == steps[..k];
    } else {
      assert more[..|steps|] == steps;
    }
  }

  lemma HoldingGrows(f: Fixed, selected: nat, steps: seq<Step>, step: Step, k: nat, l: nat)
    ensures k < |steps| ==> (HeldSince(f, selected, steps + [step], k, l) <==> HeldSince(f, selected, steps, k, l) && step != Drop(l))
    ensures HeldSince(f, selected, steps + [step], |steps|, l) <==>
              step.Admit? && !Run(f, selected, steps).state.retired && l == Run(f, selected, steps).admitted
  {
    AdmissionsGrow(f, selected, steps, step, k, l);
    AdmissionsGrow(f, selected, steps, step, |steps|, l);
    hide AdmittedAt, Run;
    if k < |steps| {
      DoneSinceGrows(steps, step, k, Drop(l));
    }
    assert AdmittedAt(f, selected, steps, |steps|, l) ==> false by {
      NotYetAdmitted(f, selected, steps, l);
    }
  }

  lemma NotYetAdmitted(f: Fixed, selected: nat, steps: seq<Step>, l: nat)
    ensures !AdmittedAt(f, selected, steps, |steps|, l)
  {
  }

  lemma HeldIsBounded(f: Fixed, selected: nat, steps: seq<Step>, k: nat, l: nat)
    requires HeldSince(f, selected, steps, k, l)
    ensures k < |steps|
  {
  }

  /** A session is held exactly from its admission, while the generation was not retired, to its
      drop. */
  lemma {:induction false} LeasesAreHistory(f: Fixed, selected: nat, steps: seq<Step>, l: nat)
    ensures l in Run(f, selected, steps).leases <==> exists k: nat :: HeldSince(f, selected, steps, k, l)
    decreases |steps|
  {
    if steps != [] {
      var before, step := steps[..|steps| - 1], steps[|steps| - 1];
      assert steps == before + [step];
      var w := Run(f, selected, before);
      LeasesAreHistory(f, selected, before, l);
      CountsAreLeases(f, selected, before);
      StepHolds(f, w, step, l);
      assert Run(f, selected, steps) == Next(f, w, step);
      hide Run, Next, HeldSince, Counted;
      HoldingGrows(f, selected, before, step, 0, l);
      if l in Run(f, selected, steps).leases {
        if l in w.leases {
          var k: nat :| HeldSince(f, selected, before, k, l);
          HeldIsBounded(f, selected, before, k, l);
          HoldingGrows(f, selected, before, step, k, l);
        }
      } else if exists k: nat :: HeldSince(f, selected, steps, k, l) {
        var k: nat :| HeldSince(f, selected, steps, k, l);
        HeldIsBounded(f, selected, steps, k, l);
        HoldingGrows(f, selected, before, step, k, l);
      }
    }
  }

  /** And it is legacy exactly if it was marked since. */
  lemma {:induction false} LegacyIsHistory(f: Fixed, selected: nat, steps: seq<Step>, k: nat, l: nat)
    requires l in Run(f, selected, steps).leases && AdmittedAt(f, selected, steps, k, l)
    ensures Run(f, selected, steps).leases[l] <==> DoneSince(steps, k, MarkLegacy(l))
    decreases |steps|
  {
    var before, step := steps[..|steps| - 1], steps[|steps| - 1];
    assert steps == before + [step];
    var w := Run(f, selected, before);
    CountsAreLeases(f, selected, before);
    StepHolds(f, w, step, l);
    AdmissionsGrow(f, selected, before, step, k, l);
    assert Run(f, selected, steps) == Next(f, w, step);
    hide Run, Next, Counted;
    if AdmittedAt(f, selected, before, k, l) {
      EarlierLeasesAreLower(f, selected, before, k, l);
      LegacyIsHistory(f, selected, before, k, l);
      DoneSinceGrows(before, step, k, MarkLegacy(l));
    } else {
      NewLeaseIsNotHeld(f, selected, before);
    }
  }

  lemma NewLeaseIsNotHeld(f: Fixed, selected: nat, steps: seq<Step>)
    ensures Run(f, selected, steps).admitted !in Run(f, selected, steps).leases
  {
    CountsAreLeases(f, selected, steps);
  }

  /** Selections that moved, and sessions that ended. */
  function News(f: Fixed, selected: nat, steps: seq<Step>): nat {
    if steps == [] then 0
    else
      var before, step := steps[..|steps| - 1], steps[|steps| - 1];
      var w := Run(f, selected, before);
      News(f, selected, before)
      + if (step.Select? && step.value > w.state.selected) || (step.Drop? && step.lease in w.leases) then 1 else 0
  }

  lemma StepTells(f: Fixed, w: World, step: Step)
    requires Counted(w)
    ensures var t := Next(f, w, step);
            && t.state.notices + t.sending
               == w.state.notices + w.sending
                  + (if (step.Select? && step.value > w.state.selected) || (step.Drop? && step.lease in w.leases) then 1 else 0)
            && (step.SendNotice? && w.sending > 0 ==> t.sending == w.sending - 1)
            && (!step.SendNotice? ==> t.sending == w.sending + if step.Select? && step.value > w.state.selected then 1 else 0)
  {
    hide MarkedLeases;
    if step.Drop? && step.lease in w.leases {
      DropCounts(w.leases, step.lease);
    }
  }

  lemma RunOne(f: Fixed, selected: nat, steps: seq<Step>, step: Step)
    ensures Run(f, selected, steps + [step]) == Next(f, Run(f, selected, steps), step)
  {
    hide Next;
    assert (steps + [step])[..|steps|] == steps;
  }

  /** Every selection that moved and every session that ended is told exactly once, or is about to be. */
  lemma {:induction false} NewsIsToldOnce(f: Fixed, selected: nat, steps: seq<Step>)
    ensures var w := Run(f, selected, steps); w.state.notices + w.sending == News(f, selected, steps)
    decreases |steps|
  {
    hide Next, Counted;
    if steps != [] {
      var before := steps[..|steps| - 1];
      NewsIsToldOnce(f, selected, before);
      CountsAreLeases(f, selected, before);
      StepTells(f, Run(f, selected, before), steps[|steps| - 1]);
    }
  }

  /** And what is about to be told is, once its notice is sent. */
  lemma {:induction false} NoticesGoOut(f: Fixed, selected: nat, steps: seq<Step>)
    requires Run(f, selected, steps).sending > 0
    ensures var w, t := Run(f, selected, steps), Run(f, selected, steps + [SendNotice]);
            t.sending == w.sending - 1 && t.state.notices == w.state.notices + 1
  {
    CountsAreLeases(f, selected, steps);
    RunOne(f, selected, steps, SendNotice);
    hide Run, Next, Counted;
    StepTells(f, Run(f, selected, steps), SendNotice);
  }

  function Elapsed(steps: seq<Step>): nat {
    if steps == [] then 0
    else Elapsed(steps[..|steps| - 1]) + if steps[|steps| - 1].Wait? then steps[|steps| - 1].time else 0
  }

  // ---------------------------------------------------------------- what the loop does

  /** A pause shorter than the interval ends exactly with the drain limit. */
  predicate Measured(f: Fixed, w: World) {
    w.loop.Arming? || w.loop.Asleep? ==>
      || w.loop.wait == w.loop.plan.interval
      || (f.drainLimit.Some? && w.state.since.Some? && w.loop.wait < w.loop.plan.interval
          && (w.loop.wait > 0 ==> w.loop.readAt + w.loop.wait == w.state.since.value + f.drainLimit.value)
          && (w.loop.wait == 0 ==> w.loop.readAt >= w.state.since.value + f.drainLimit.value))
  }

  lemma StepKeepsMeasured(f: Fixed, w: World, step: Step)
    requires Measured(f, w) && ClockSafe(f, w)
    ensures Measured(f, Next(f, w, step))
  {
    hide Eligible, DrainOver;
  }

  lemma {:induction false} PausesAreMeasured(f: Fixed, selected: nat, steps: seq<Step>)
    ensures Measured(f, Run(f, selected, steps))
    decreases |steps|
  {
    hide Next, LoopSafe, ClockSafe;
    if steps != [] {
      var before := steps[..|steps| - 1];
      PausesAreMeasured(f, selected, before);
      LoopIsSafe(f, selected, before);
      hide Measured;
      StepKeepsMeasured(f, Run(f, selected, before), steps[|steps| - 1]);
    }
  }

  lemma WakesForAReason(f: Fixed, w: World)
    requires w.loop.Asleep? && Next(f, w, AdvanceLoop).loop != w.loop
    ensures w.state.notices != w.loop.seen || w.now >= w.loop.armedAt + w.loop.wait
  {
  }

  /** The loop does not spin: in every run it sleeps its interval, or else exactly to the drain limit,
      and wakes only for a notice or when that time has passed. */
  lemma {:induction false} SleepsNoLessThanItShould(f: Fixed, selected: nat, steps: seq<Step>)
    requires Run(f, selected, steps).loop.Asleep?
    ensures Measured(f, Run(f, selected, steps))
    ensures var w, t := Run(f, selected, steps), Run(f, selected, steps + [AdvanceLoop]);
            t.loop != w.loop ==> w.state.notices != w.loop.seen || w.now >= w.loop.armedAt + w.loop.wait
  {
    PausesAreMeasured(f, selected, steps);
    RunOne(f, selected, steps, AdvanceLoop);
    hide Run, Next, Measured;
    if Next(f, Run(f, selected, steps), AdvanceLoop).loop != Run(f, selected, steps).loop {
      WakesForAReason(f, Run(f, selected, steps));
    }
  }

  function Advances(n: nat): (r: seq<Step>)
    ensures |r| == n && forall k :: 0 <= k < n ==> r[k] == AdvanceLoop
  {
    seq(n, _ => AdvanceLoop)
  }

  lemma {:induction false} AdvanceOne(f: Fixed, selected: nat, steps: seq<Step>, n: nat)
    ensures Run(f, selected, steps + Advances(n + 1)) == Next(f, Run(f, selected, steps + Advances(n)), AdvanceLoop)
    ensures steps + Advances(0) == steps
  {
    hide Next;
    assert (steps + Advances(n + 1))[..|steps| + n] == steps + Advances(n);
  }

  /** The round a loop makes once it is awake, if its generation may retire. */
  lemma RoundRetires(f: Fixed, w: World)
    requires w.loop.AtTop? && MayRetire(f, w.state, w.now, w.loop.plan.lifetime)
    ensures var t := Next(f, Next(f, w, AdvanceLoop), AdvanceLoop);
            var u := Next(f, Next(f, t, AdvanceLoop), AdvanceLoop);
            && u.state.retired && u.loop.Retired?
            && u.loop.retirement == Retiring(f, w.state, w.now, w.loop.plan.lifetime, true, true).1.value
  {
  }

  /** A loop that has a reason to wake retires its generation if it may, within one round, and reports
      what a call to retire would have. */
  lemma {:induction false} TheLoopRetires(f: Fixed, selected: nat, steps: seq<Step>)
    requires var w := Run(f, selected, steps);
             && w.loop.Asleep? && (w.state.notices != w.loop.seen || w.now >= w.loop.armedAt + w.loop.wait)
             && MayRetire(f, w.state, w.now, w.loop.plan.lifetime)
    ensures var w, t := Run(f, selected, steps), Run(f, selected, steps + Advances(5));
            && t.state.retired && t.loop.Retired?
            && t.loop.retirement == Retiring(f, w.state, w.now, w.loop.plan.lifetime, true, true).1.value
  {
    var w := Run(f, selected, steps);
    AdvanceOne(f, selected, steps, 0);
    AdvanceOne(f, selected, steps, 1);
    AdvanceOne(f, selected, steps, 2);
    AdvanceOne(f, selected, steps, 3);
    AdvanceOne(f, selected, steps, 4);
    hide Run;
    assert Next(f, w, AdvanceLoop) == w.(loop := AtTop(w.loop.plan));
    hide Next;
    RoundRetires(f, w.(loop := AtTop(w.loop.plan)));
  }

  /** A loop that retires its generation ends with that step. */
  lemma TheLoopEndsWhenItRetires(f: Fixed, selected: nat, steps: seq<Step>)
    requires var w, t := Run(f, selected, steps), Run(f, selected, steps + [AdvanceLoop]); !w.state.retired && t.state.retired
    ensures Run(f, selected, steps + [AdvanceLoop]).loop.Retired?
  {
    assert (steps + [AdvanceLoop])[..|steps|] == steps;
    assert Run(f, selected, steps + [AdvanceLoop]) == Next(f, Run(f, selected, steps), AdvanceLoop);
    hide Run;
  }

  /** The clock is the waits. */
  lemma {:induction false} TimeIsTheWaits(f: Fixed, selected: nat, steps: seq<Step>)
    ensures Run(f, selected, steps).now == f.started + Elapsed(steps)
  {
    if steps != [] {
      TimeIsTheWaits(f, selected, steps[..|steps| - 1]);
    }
  }
}
