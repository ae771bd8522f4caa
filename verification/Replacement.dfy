/** Replacing a running daemon (src/replacement.rs): one transition machine decides the order of
    the adapter's operations, and one loop drives it under deadlines. Times are nanoseconds of a
    clock that never goes back, and a sleep never returns early. */
module Replacement {
  import opened Options

  const POLL_INTERVAL: nat := 25_000_000

  datatype Mode = Overlap | Exclusive

  datatype Step = Recheck | Prepare | Drain | Start | Verify | Validate | Commit | Retire

  /** What the adapter answers. */
  datatype Answer = Done | Pending | Unchanged | Error(code: nat)

  datatype Outcome = NotReplaced | Complete | RetirementPending

  datatype Reason = Deadline | Adapter(code: nat) | InvalidProgress

  datatype Result = Finished(outcome: Outcome) | Failure(step: Step, committed: bool, reason: Reason)

  datatype Budgets = Budgets(setup: nat, drain: Option<nat>)

  // ---------------------------------------------------------------- the transition machine

  datatype Position = Position(mode: Mode, step: Step, committed: bool)

  predicate Retries(step: Step) {
    step.Recheck? || step.Verify? || step.Drain?
  }

  function Following(mode: Mode, step: Step): Step {
    match step
    case Recheck => Prepare
    case Prepare => if mode.Exclusive? then Drain else Start
    case Drain => Start
    case Start => Verify
    case Verify => Validate
    case Validate => Commit
    case Commit => Retire
    case Retire => Retire
  }

  function Advanced(m: Position, answer: Answer): (Position, Option<Result>) {
    match answer
    case Error(code) => (m, Some(Failure(m.step, m.committed, Adapter(code))))
    case Unchanged =>
      (m, Some(if m.step.Recheck? then Finished(NotReplaced) else Failure(m.step, m.committed, InvalidProgress)))
    case Pending =>
      if Retries(m.step) then (m, None)
      else (m, Some(if m.step.Retire? then Finished(RetirementPending) else Failure(m.step, m.committed, InvalidProgress)))
    case Done =>
      if m.step.Retire? then (m, Some(Finished(Complete)))
      else if m.step.Commit? && m.mode.Exclusive? then (m.(committed := true), Some(Finished(Complete)))
      else (m.(step := Following(m.mode, m.step), committed := m.committed || m.step.Commit?), None)
  }

  class Machine {
    const mode: Mode
    var step: Step
    var committed: bool

    constructor (mode: Mode)
      ensures View() == Position(mode, Recheck, false)
    {
      this.mode, step, committed := mode, Recheck, false;
    }

    function View(): Position
      reads this
    {
      Position(mode, step, committed)
    }

    method Advance(answer: Answer) returns (r: Option<Result>)
      modifies this
      ensures (View(), r) == Advanced(old(View()), answer)
    {
      if answer.Error? {
        return Some(Failure(step, committed, Adapter(answer.code)));
      }
      if step.Recheck? && answer.Unchanged? {
        return Some(Finished(NotReplaced));
      }
      if (step.Recheck? || step.Verify? || step.Drain?) && answer.Pending? {
        return None;
      }
      if step.Retire? && answer.Pending? {
        return Some(Finished(RetirementPending));
      }
      if !answer.Done? {
        return Some(Failure(step, committed, InvalidProgress));
      }
      match step {
        case Recheck => step := Prepare;
        case Prepare => step := if mode.Exclusive? then Drain else Start;
        case Drain => step := Start;
        case Start => step := Verify;
        case Verify => step := Validate;
        case Validate => step := Commit;
        case Commit =>
          committed := true;
          if mode.Exclusive? {
            return Some(Finished(Complete));
          }
          step := Retire;
        case Retire =>
          return Some(Finished(Complete));
      }
      return None;
    }
  }

  // ---------------------------------------------------------------- the loop

  /** One adapter call as the adapter sees it. */
  datatype Call = Call(step: Step, deadline: Option<nat>, at: nat, answer: Answer)

  /** What the world does in one round: time passes before the round, in the adapter and after. */
  datatype Turn = Turn(idle: nat, busy: nat, pause: nat, answer: Answer)

  /** The loop between rounds. `ready` is the earliest time the next round can start. */
  datatype Loop = Loop(machine: Position, deadline: Option<nat>, ready: nat, calls: seq<Call>, result: Option<Result>)

  predicate Passed(deadline: Option<nat>, now: nat) {
    deadline.Some? && now >= deadline.value
  }

  /** A retry sleeps one poll interval, but never past the deadline. */
  function Wait(deadline: Option<nat>, now: nat): (r: nat)
    ensures r <= POLL_INTERVAL && (deadline.Some? && now <= deadline.value ==> now + r <= deadline.value)
    ensures r < POLL_INTERVAL ==> deadline.Some? && now + r >= deadline.value
  {
    if deadline.None? then POLL_INTERVAL
    else if now >= deadline.value then 0
    else if deadline.value - now < POLL_INTERVAL then deadline.value - now
    else POLL_INTERVAL
  }

  /** The deadline after a change of step: draining and retiring have their own budget, and setup
      starts again once a drain is over. */
  function Renewed(deadline: Option<nat>, budgets: Budgets, left: Step, entered: Step, now: nat): Option<nat> {
    if entered.Drain? || entered.Retire? then
      if budgets.drain.None? then None else Some(now + budgets.drain.value)
    else if left.Drain? then Some(now + budgets.setup)
    else deadline
  }

  function Begin(mode: Mode, budgets: Budgets, now: nat): Loop {
    Loop(Position(mode, Recheck, false), Some(now + budgets.setup), now, [], None)
  }

  function Expired(l: Loop): Loop {
    l.(result := Some(Failure(l.machine.step, l.machine.committed, Deadline)))
  }

  /** The state after the adapter has answered in time. */
  function Settled(l: Loop, budgets: Budgets, answer: Answer, now: nat): Loop {
    var (m, r) := Advanced(l.machine, answer);
    if r.Some? then l.(machine := m, result := r)
    else if m.step != l.machine.step then
      l.(machine := m, deadline := Renewed(l.deadline, budgets, l.machine.step, m.step, now), ready := now)
    else l.(machine := m, ready := now + Wait(l.deadline, now))
  }

  function Called(l: Loop, turn: Turn): Loop {
    l.(calls := l.calls + [Call(l.machine.step, l.deadline, l.ready + turn.idle, turn.answer)])
  }

  function Round(l: Loop, budgets: Budgets, turn: Turn): Loop {
    var head := l.ready + turn.idle;
    var after := head + turn.busy;
    if l.result.Some? then l
    else if Passed(l.deadline, head) then Expired(l)
    else if !turn.answer.Error? && !l.machine.step.Commit? && Passed(l.deadline, after) then Expired(Called(l, turn))
    else Settled(Called(l, turn), budgets, turn.answer, after + turn.pause)
  }

  function Rounds(mode: Mode, budgets: Budgets, now: nat, turns: seq<Turn>): Loop {
    if turns == [] then Begin(mode, budgets, now)
    else Round(Rounds(mode, budgets, now, turns[..|turns| - 1]), budgets, turns[|turns| - 1])
  }

  method Renew(deadline: Option<nat>, budgets: Budgets, left: Step, entered: Step, now: nat) returns (d: Option<nat>)
    ensures d == Renewed(deadline, budgets, left, entered, now)
  {
    d := deadline;
    if entered == Drain || entered == Retire {
      d := if budgets.drain.None? then None else Some(now + budgets.drain.value);
    } else if left == Drain {
      d := Some(now + budgets.setup);
    }
  }

  /** One round of the loop: the call and what follows from its answer. */
  method PlayRound(machine: Machine, budgets: Budgets, deadline: Option<nat>, now: nat, turn: Turn, ghost l: Loop)
    returns (r: Option<Result>, d: Option<nat>, clock: nat)
    requires l.result.None? && machine.View() == l.machine && deadline == l.deadline && now == l.ready
    modifies machine
    ensures var t := Round(l, budgets, turn);
            r == t.result && (r.None? ==> machine.View() == t.machine && d == t.deadline && clock == t.ready)
  {
    hide Advanced, Renewed, Wait;
    d, clock := deadline, now + turn.idle;
    if d.Some? && clock >= d.value {
      return Some(Failure(machine.step, machine.committed, Deadline)), d, clock;
    }
    var step := machine.step;
    clock := clock + turn.busy;
    if !turn.answer.Error? && step != Commit && d.Some? && clock >= d.value {
      return Some(Failure(step, machine.committed, Deadline)), d, clock;
    }
    clock := clock + turn.pause;
    r := machine.Advance(turn.answer);
    if r.None? {
      if machine.step != step {
        d := Renew(d, budgets, step, machine.step, clock);
      } else {
        clock := clock + Wait(d, clock);
      }
    }
  }

  /** The replacement loop, against any adapter and any clock: `turns` is what they do. No result
      means the loop is still going when the turns end. */
  method Run(mode: Mode, budgets: Budgets, now: nat, turns: seq<Turn>) returns (r: Option<Result>)
    ensures r == Rounds(mode, budgets, now, turns).result
  {
    hide Round;
    var machine := new Machine(mode);
    var deadline, clock := Some(now + budgets.setup), now;
    ghost var l := Begin(mode, budgets, now);
    r := None;
    var k := 0;
    while k < |turns| && r.None?
      invariant 0 <= k <= |turns| && fresh(machine)
      invariant l == Rounds(mode, budgets, now, turns[..k]) && r == l.result
      invariant r.None? ==> machine.View() == l.machine && deadline == l.deadline && clock == l.ready
    {
      assert turns[..k + 1][..k] == turns[..k];
      r, deadline, clock := PlayRound(machine, budgets, deadline, clock, turns[k], l);
      l := Round(l, budgets, turns[k]);
      k := k + 1;
    }
    FinishedStays(mode, budgets, now, turns, k);
    assert k == |turns| ==> turns[..k] == turns;
  }

  lemma {:induction false} FinishedStays(mode: Mode, budgets: Budgets, now: nat, turns: seq<Turn>, k: nat)
    requires k <= |turns|
    ensures Rounds(mode, budgets, now, turns[..k]).result.Some? ==>
              Rounds(mode, budgets, now, turns) == Rounds(mode, budgets, now, turns[..k])
  {
    if k < |turns| {
      FinishedStays(mode, budgets, now, turns[..|turns| - 1], k);
      assert turns[..|turns| - 1][..k] == turns[..k];
    } else {
      assert turns[..k] == turns;
    }
  }

  // ---------------------------------------------------------------- the order of the calls

  /** What a replacement does, in order. */
  function Script(mode: Mode): (r: seq<Step>)
    ensures |r| == 7
  {
    match mode
    case Overlap => [Recheck, Prepare, Start, Verify, Validate, Commit, Retire]
    case Exclusive => [Recheck, Prepare, Drain, Start, Verify, Validate, Commit]
  }

  function CommitAt(mode: Mode): nat {
    if mode.Overlap? then 5 else 6
  }

  /** How many calls answered that they were done. */
  function Progress(calls: seq<Call>): nat {
    if calls == [] then 0
    else Progress(calls[..|calls| - 1]) + if calls[|calls| - 1].answer.Done? then 1 else 0
  }

  /** Every call asks for the first step of the script that is not done yet. */
  predicate Follows(mode: Mode, calls: seq<Call>) {
    calls == [] ||
    (var before, last := calls[..|calls| - 1], calls[|calls| - 1];
     Follows(mode, before) && Progress(before) < 7 && last.step == Script(mode)[Progress(before)])
  }

  /** Every call is done, or is one that may be asked again. */
  predicate Steady(calls: seq<Call>) {
    calls == [] || (Steady(calls[..|calls| - 1]) && GoesOn(calls[|calls| - 1]))
  }

  predicate GoesOn(c: Call) {
    c.answer.Done? || (c.answer.Pending? && Retries(c.step))
  }

  predicate OnTrack(m: Position, calls: seq<Call>) {
    && Follows(m.mode, calls) && Steady(calls)
    && Progress(calls) < 7 && m.step == Script(m.mode)[Progress(calls)]
    && (m.committed <==> Progress(calls) > CommitAt(m.mode))
  }

  /** How a run ends: at a deadline between calls, at a deadline during a call other than the
      commit, or by what the machine says to the last answer. */
  predicate Ended(mode: Mode, calls: seq<Call>, r: Result) {
    || (r.Failure? && OnTrack(Position(mode, r.step, r.committed), calls) && r.reason.Deadline?)
    || (&& calls != []
        && var before, last := calls[..|calls| - 1], calls[|calls| - 1];
           var m := Position(mode, last.step, Progress(before) > CommitAt(mode));
           && OnTrack(m, before)
           && (|| (!last.step.Commit? && r == Failure(m.step, m.committed, Deadline))
               || Some(r) == Advanced(m, last.answer).1))
  }

  predicate Traced(mode: Mode, l: Loop) {
    && l.machine.mode == mode
    && (l.result.None? ==> OnTrack(l.machine, l.calls))
    && (l.result.Some? ==> Ended(mode, l.calls, l.result.value))
  }

  lemma {:induction false} CallFollows(mode: Mode, calls: seq<Call>, c: Call)
    requires Follows(mode, calls) && Progress(calls) < 7 && c.step == Script(mode)[Progress(calls)]
    ensures Follows(mode, calls + [c]) && (calls + [c])[..|calls|] == calls
    ensures Progress(calls + [c]) == Progress(calls) + if c.answer.Done? then 1 else 0
    ensures Steady(calls) && GoesOn(c) ==> Steady(calls + [c])
  {
    hide Script;
    assert (calls + [c])[..|calls|] == calls;
  }

  lemma ScriptSteps(mode: Mode, i: nat)
    requires i < 7
    ensures Script(mode)[i].Commit? <==> i == CommitAt(mode)
    ensures i == 6 <==> Script(mode)[i].Retire? || (Script(mode)[i].Commit? && mode.Exclusive?)
    ensures i < 6 ==> Following(mode, Script(mode)[i]) == Script(mode)[i + 1]
  {
  }

  /** An answer the machine goes on after keeps the run on the script. */
  lemma AdvanceKeepsTrack(m: Position, calls: seq<Call>, c: Call)
    requires OnTrack(m, calls) && c.step == m.step && Advanced(m, c.answer).1.None?
    ensures OnTrack(Advanced(m, c.answer).0, calls + [c])
  {
    CallFollows(m.mode, calls, c);
    ScriptSteps(m.mode, Progress(calls));
  }

  lemma RoundKeepsTrace(mode: Mode, l: Loop, budgets: Budgets, turn: Turn)
    requires Traced(mode, l)
    ensures Traced(mode, Round(l, budgets, turn))
  {
    if l.result.None? && !Passed(l.deadline, l.ready + turn.idle) {
      CallKeepsTrace(mode, l, budgets, turn);
    }
  }

  lemma CallKeepsTrace(mode: Mode, l: Loop, budgets: Budgets, turn: Turn)
    requires Traced(mode, l) && l.result.None? && !Passed(l.deadline, l.ready + turn.idle)
    ensures Traced(mode, Round(l, budgets, turn))
  {
    hide OnTrack, Advanced, Renewed, Wait;
    var m, c := l.machine, Call(l.machine.step, l.deadline, l.ready + turn.idle, turn.answer);
    var calls := l.calls + [c];
    assert calls[..|calls| - 1] == l.calls;
    TrackShape(m, l.calls);
    if Advanced(m, turn.answer).1.None? {
      AdvanceKeepsTrack(m, l.calls, c);
    }
    AdvanceKeepsMode(m, turn.answer);
  }

  lemma TrackShape(m: Position, calls: seq<Call>)
    requires OnTrack(m, calls)
    ensures m == Position(m.mode, m.step, Progress(calls) > CommitAt(m.mode))
  {
  }

  lemma AdvanceKeepsMode(m: Position, answer: Answer)
    ensures Advanced(m, answer).0.mode == m.mode
  {
  }

  lemma {:induction false} TraceHolds(mode: Mode, budgets: Budgets, now: nat, turns: seq<Turn>)
    ensures Traced(mode, Rounds(mode, budgets, now, turns))
  {
    if turns != [] {
      TraceHolds(mode, budgets, now, turns[..|turns| - 1]);
      RoundKeepsTrace(mode, Rounds(mode, budgets, now, turns[..|turns| - 1]), budgets, turns[|turns| - 1]);
      hide Round, Traced;
    }
  }

  /** Whether the new selection has been made. */
  predicate Selected(calls: seq<Call>) {
    exists k :: 0 <= k < |calls| && calls[k].step.Commit? && calls[k].answer.Done?
  }

  lemma SelectedGrows(calls: seq<Call>, c: Call)
    ensures Selected(calls + [c]) <==> Selected(calls) || (c.step.Commit? && c.answer.Done?)
  {
    var all := calls + [c];
    assert forall k :: 0 <= k < |calls| ==> all[k] == calls[k];
    assert all[|calls|] == c;
    if Selected(calls) {
      var k :| 0 <= k < |calls| && calls[k].step.Commit? && calls[k].answer.Done?;
      assert all[k].step.Commit?;
    }
  }

  lemma {:induction false} SelectedIsProgress(mode: Mode, calls: seq<Call>)
    requires Follows(mode, calls)
    ensures Selected(calls) <==> Progress(calls) > CommitAt(mode)
  {
    if calls != [] {
      hide Selected;
      var before, last := calls[..|calls| - 1], calls[|calls| - 1];
      assert calls == before + [last];
      SelectedIsProgress(mode, before);
      SelectedGrows(before, last);
      ScriptSteps(mode, Progress(before));
    }
  }

  lemma {:induction false} TracedFollows(mode: Mode, l: Loop)
    requires Traced(mode, l)
    ensures Follows(mode, l.calls)
    ensures l.calls != [] ==> Steady(l.calls[..|l.calls| - 1])
  {
    hide Script, Advanced;
  }

  lemma {:induction false} FollowsAt(mode: Mode, calls: seq<Call>, k: nat)
    requires Follows(mode, calls) && k < |calls|
    ensures Progress(calls[..k]) < 7 && calls[k].step == Script(mode)[Progress(calls[..k])]
  {
    if k < |calls| - 1 {
      FollowsAt(mode, calls[..|calls| - 1], k);
      assert calls[..|calls| - 1][..k] == calls[..k];
    }
  }

  lemma {:induction false} SteadyAt(calls: seq<Call>, k: nat)
    requires Steady(calls) && k < |calls|
    ensures GoesOn(calls[k])
  {
    if k < |calls| - 1 {
      SteadyAt(calls[..|calls| - 1], k);
    }
  }

  /** In every run the calls are the script: each asks for the first step not yet done, and only a
      recheck, a drain or a live proof is ever asked twice. */
  lemma {:induction false} CallsFollowTheScript(mode: Mode, budgets: Budgets, now: nat, turns: seq<Turn>, k: nat)
    requires k < |Rounds(mode, budgets, now, turns).calls|
    ensures var calls := Rounds(mode, budgets, now, turns).calls;
            && Progress(calls[..k]) < 7 && calls[k].step == Script(mode)[Progress(calls[..k])]
            && (k < |calls| - 1 ==> GoesOn(calls[k]))
  {
    hide Traced, Follows, Steady, Progress, Rounds, Script, GoesOn;
    var l := Rounds(mode, budgets, now, turns);
    TraceHolds(mode, budgets, now, turns);
    TracedFollows(mode, l);
    FollowsAt(mode, l.calls, k);
    if k < |l.calls| - 1 {
      SteadyAt(l.calls[..|l.calls| - 1], k);
    }
  }

  lemma {:induction false} FollowsPrefix(mode: Mode, calls: seq<Call>, k: nat)
    requires Follows(mode, calls) && k <= |calls|
    ensures Follows(mode, calls[..k])
  {
    if k < |calls| {
      FollowsPrefix(mode, calls[..|calls| - 1], k);
      assert calls[..|calls| - 1][..k] == calls[..k];
    } else {
      assert calls[..k] == calls;
    }
  }

  predicate DoneIn(calls: seq<Call>, step: Step) {
    exists k :: 0 <= k < |calls| && calls[k].step == step && calls[k].answer.Done?
  }

  lemma {:induction false} EarlierStepsAreDone(mode: Mode, calls: seq<Call>, p: nat)
    requires Follows(mode, calls) && p < Progress(calls) && p < 7
    ensures DoneIn(calls, Script(mode)[p])
  {
    var before, last := calls[..|calls| - 1], calls[|calls| - 1];
    if p < Progress(before) {
      EarlierStepsAreDone(mode, before, p);
      hide Script, Progress, Follows;
      var k :| 0 <= k < |before| && before[k].step == Script(mode)[p] && before[k].answer.Done?;
      assert calls[k] == before[k];
    }
  }

  /** A candidate is selected only after a live proof and a revalidation, at most once; an exclusive
      start follows the drain; an overlapping incumbent is never drained and is retired only after
      the selection. */
  lemma {:induction false} MilestonesInOrder(mode: Mode, budgets: Budgets, now: nat, turns: seq<Turn>, k: nat)
    requires k < |Rounds(mode, budgets, now, turns).calls|
    ensures var calls := Rounds(mode, budgets, now, turns).calls;
            && (calls[k].step.Commit? ==>
                  DoneIn(calls[..k], Verify) && DoneIn(calls[..k], Validate) && forall j :: 0 <= j < k ==> !calls[j].step.Commit?)
            && (calls[k].step.Start? && mode.Exclusive? ==> DoneIn(calls[..k], Drain))
            && (calls[k].step.Drain? ==> mode.Exclusive?)
            && (calls[k].step.Retire? ==> mode.Overlap? && DoneIn(calls[..k], Commit))
  {
    hide Traced, Follows, Steady, Progress, Rounds, DoneIn, Script, GoesOn;
    var l := Rounds(mode, budgets, now, turns);
    TraceHolds(mode, budgets, now, turns);
    TracedFollows(mode, l);
    CallsFollowTheScript(mode, budgets, now, turns, k);
    FollowsPrefix(mode, l.calls, k);
    BeforeTheStep(mode, l.calls[..k], l.calls[k].step);
    if l.calls[k].step.Commit? {
      CommitsOnce(mode, l.calls, k, Progress(l.calls[..k]));
    }
  }

  lemma {:induction false} BeforeTheStep(mode: Mode, before: seq<Call>, step: Step)
    requires Follows(mode, before) && Progress(before) < 7 && step == Script(mode)[Progress(before)]
    ensures step.Commit? ==> DoneIn(before, Verify) && DoneIn(before, Validate)
    ensures step.Start? && mode.Exclusive? ==> DoneIn(before, Drain)
    ensures step.Drain? ==> mode.Exclusive?
    ensures step.Retire? ==> mode.Overlap? && DoneIn(before, Commit)
  {
    hide Follows, Progress, DoneIn;
    var p := Progress(before);
    if p > 0 { EarlierStepsAreDone(mode, before, p - 1); }
    if p > 1 { EarlierStepsAreDone(mode, before, p - 2); }
  }

  lemma CommitsOnce(mode: Mode, calls: seq<Call>, k: nat, p: nat)
    requires k < |calls| && Follows(mode, calls) && Steady(calls[..|calls| - 1])
    requires p == Progress(calls[..k]) && p < 7 && calls[k].step == Script(mode)[p] && calls[k].step.Commit?
    ensures forall j :: 0 <= j < k ==> !calls[j].step.Commit?
  {
    hide Follows, Steady, Progress, Script;
    ScriptSteps(mode, p);
    FollowsPrefix(mode, calls, k);
    SelectedIsProgress(mode, calls[..k]);
    forall j | 0 <= j < k ensures !calls[j].step.Commit? {
      SteadyAt(calls[..|calls| - 1], j);
      assert calls[..k][j] == calls[j];
    }
  }

  // ---------------------------------------------------------------- what the result says

  /** The result is honest in every run: success is never claimed for a candidate that was not
      selected, and a failure says truly whether the selection was made, however late the commit
      came back. */
  lemma {:induction false} ResultIsHonest(mode: Mode, budgets: Budgets, now: nat, turns: seq<Turn>)
    requires Rounds(mode, budgets, now, turns).result.Some?
    ensures var l := Rounds(mode, budgets, now, turns); Honest(mode, l.calls, l.result.value)
  {
    var l := Rounds(mode, budgets, now, turns);
    TraceHolds(mode, budgets, now, turns);
    EndedIsHonest(mode, l.calls, l.result.value);
  }

  predicate Honest(mode: Mode, calls: seq<Call>, r: Result) {
    match r
    case Finished(NotReplaced) => Progress(calls) == 0 && calls != [] && calls[|calls| - 1].answer.Unchanged?
    case Finished(Complete) => Progress(calls) == 7 && Selected(calls)
    case Finished(RetirementPending) =>
      && mode.Overlap? && Progress(calls) == 6 && Selected(calls)
      && calls[|calls| - 1].step.Retire? && calls[|calls| - 1].answer.Pending?
    case Failure(step, committed, reason) =>
      && (committed <==> Selected(calls))
      && (reason.Adapter? ==> calls != [] && calls[|calls| - 1].step == step && calls[|calls| - 1].answer == Error(reason.code))
      && (reason.InvalidProgress? ==>
            calls != [] && calls[|calls| - 1].step == step && !calls[|calls| - 1].answer.Error? && !GoesOn(calls[|calls| - 1]))
  }

  lemma {:induction false} EndedIsHonest(mode: Mode, calls: seq<Call>, r: Result)
    requires Ended(mode, calls, r)
    ensures Honest(mode, calls, r)
  {
    if r.Failure? && r.reason.Deadline? && OnTrack(Position(mode, r.step, r.committed), calls) {
      hide Progress, Follows, Steady;
      SelectedIsProgress(mode, calls);
    } else {
      var before, last := calls[..|calls| - 1], calls[|calls| - 1];
      var m := Position(mode, last.step, Progress(before) > CommitAt(mode));
      assert OnTrack(m, before) by { hide Progress, Follows, Steady; }
      LastCall(m, before, last);
      assert calls == before + [last];
      hide Follows, Steady, Selected;
    }
  }

  lemma {:induction false} LastCall(m: Position, before: seq<Call>, last: Call)
    requires OnTrack(m, before) && last.step == m.step
    ensures Progress(before + [last]) == Progress(before) + if last.answer.Done? then 1 else 0
    ensures Selected(before + [last]) <==> Progress(before + [last]) > CommitAt(m.mode)
    ensures Progress(before) == 6 <==> m.step.Retire? || (m.step.Commit? && m.mode.Exclusive?)
    ensures m.step.Commit? <==> Progress(before) == CommitAt(m.mode)
    ensures Progress(before) == 0 <==> m.step.Recheck?
  {
    CallFollows(m.mode, before, last);
    SelectedIsProgress(m.mode, before + [last]);
    ScriptSteps(m.mode, Progress(before));
    hide Progress, Follows, Steady;
  }

  // ---------------------------------------------------------------- deadlines

  /** Which deadline governs a step: setup, then draining or retiring, then setup again. */
  function Phase(mode: Mode, step: Step): nat {
    match mode
    case Overlap => if step.Retire? then 1 else 0
    case Exclusive => if step.Recheck? || step.Prepare? then 0 else if step.Drain? then 1 else 2
  }

  predicate InMode(m: Position) {
    !m.step.Drain? || m.mode.Exclusive?
  }

  /** The calls so far, against the deadline in force. */
  predicate Timely(l: Loop, start: Option<nat>) {
    && (forall k :: 0 <= k < |l.calls| ==> !Passed(l.calls[k].deadline, l.calls[k].at))
    && (forall k :: 0 <= k < |l.calls| ==> Phase(l.machine.mode, l.calls[k].step) <= Phase(l.machine.mode, l.machine.step))
    && (forall k :: 0 <= k < |l.calls| && Phase(l.machine.mode, l.calls[k].step) == 0 ==> l.calls[k].deadline == start)
    && (Phase(l.machine.mode, l.machine.step) == 0 ==> l.deadline == start)
    && (forall k :: 0 <= k < |l.calls| && Phase(l.machine.mode, l.calls[k].step) == Phase(l.machine.mode, l.machine.step) ==>
          l.calls[k].deadline == l.deadline)
    && (forall j, k :: 0 <= j < k < |l.calls| && Phase(l.machine.mode, l.calls[j].step) == Phase(l.machine.mode, l.calls[k].step) ==>
          l.calls[j].deadline == l.calls[k].deadline)
  }

  lemma AdvanceMovesPhase(m: Position, answer: Answer)
    requires InMode(m)
    ensures var n := Advanced(m, answer).0;
            && InMode(n) && n.mode == m.mode && Phase(m.mode, m.step) <= Phase(m.mode, n.step)
            && (n.step != m.step ==>
                  (Phase(m.mode, m.step) != Phase(m.mode, n.step) <==> n.step.Drain? || n.step.Retire? || m.step.Drain?))
  {
  }

  lemma CallIsTimely(l: Loop, turn: Turn, start: Option<nat>)
    requires Timely(l, start) && !Passed(l.deadline, l.ready + turn.idle)
    ensures Timely(Called(l, turn), start)
  {
  }

  lemma SettleIsTimely(l: Loop, budgets: Budgets, answer: Answer, now: nat, start: Option<nat>)
    requires Timely(l, start) && InMode(l.machine)
    ensures Timely(Settled(l, budgets, answer, now), start) && InMode(Settled(l, budgets, answer, now).machine)
  {
    hide Advanced, Phase, Passed, Wait, InMode;
    AdvanceMovesPhase(l.machine, answer);
  }

  lemma RoundIsTimely(l: Loop, budgets: Budgets, turn: Turn, start: Option<nat>)
    requires Timely(l, start) && InMode(l.machine)
    ensures Timely(Round(l, budgets, turn), start) && InMode(Round(l, budgets, turn).machine)
  {
    hide Timely, InMode, Settled;
    ExpiredIsTimely(l, start);
    if !Passed(l.deadline, l.ready + turn.idle) {
      CallIsTimely(l, turn, start);
      ExpiredIsTimely(Called(l, turn), start);
      SettleIsTimely(Called(l, turn), budgets, turn.answer, l.ready + turn.idle + turn.busy + turn.pause, start);
    }
  }

  lemma {:induction false} RoundsAreTimely(mode: Mode, budgets: Budgets, now: nat, turns: seq<Turn>)
    ensures var l := Rounds(mode, budgets, now, turns); Timely(l, Some(now + budgets.setup)) && InMode(l.machine)
  {
    if turns != [] {
      hide Timely, InMode, Round;
      RoundsAreTimely(mode, budgets, now, turns[..|turns| - 1]);
      RoundIsTimely(Rounds(mode, budgets, now, turns[..|turns| - 1]), budgets, turns[|turns| - 1], Some(now + budgets.setup));
    }
  }

  lemma ExpiredIsTimely(l: Loop, start: Option<nat>)
    requires Timely(l, start)
    ensures Timely(Expired(l), start)
  {
  }

  /** No call is made once its deadline has passed. Retrying never buys time: all calls of one phase
      share one deadline, and the first phase's is the start plus the setup budget. */
  lemma {:induction false} DeadlinesAreKept(mode: Mode, budgets: Budgets, now: nat, turns: seq<Turn>, j: nat, k: nat)
    requires j <= k < |Rounds(mode, budgets, now, turns).calls|
    ensures var calls := Rounds(mode, budgets, now, turns).calls;
            && (calls[k].deadline.Some? ==> calls[k].at < calls[k].deadline.value)
            && (Phase(mode, calls[k].step) == 0 ==> calls[k].deadline == Some(now + budgets.setup))
            && (Phase(mode, calls[j].step) == Phase(mode, calls[k].step) ==> calls[j].deadline == calls[k].deadline)
  {
    RoundsAreTimely(mode, budgets, now, turns);
    TraceHolds(mode, budgets, now, turns);
  }

  /** The budget a phase runs on. */
  function BudgetOf(budgets: Budgets, phase: nat): Option<nat> {
    if phase == 1 then budgets.drain else Some(budgets.setup)
  }

  /** A budget counted from some moment between two times. */
  predicate StartsBetween(deadline: Option<nat>, budget: Option<nat>, from: nat, to: nat) {
    if budget.None? then deadline.None?
    else deadline.Some? && from + budget.value <= deadline.value <= to + budget.value
  }

  predicate Restarts(mode: Mode, budgets: Budgets, before: Call, step: Step, deadline: Option<nat>, at: nat) {
    Phase(mode, before.step) != Phase(mode, step) ==>
      StartsBetween(deadline, BudgetOf(budgets, Phase(mode, step)), before.at, at)
  }

  predicate Restarted(l: Loop, budgets: Budgets) {
    && (forall k :: 0 < k < |l.calls| ==>
          Restarts(l.machine.mode, budgets, l.calls[k - 1], l.calls[k].step, l.calls[k].deadline, l.calls[k].at))
    && (l.calls != [] ==> Restarts(l.machine.mode, budgets, l.calls[|l.calls| - 1], l.machine.step, l.deadline, l.ready))
  }

  lemma CallRestarts(l: Loop, budgets: Budgets, turn: Turn)
    requires Restarted(l, budgets)
    ensures Restarted(Called(l, turn), budgets)
  {
  }

  lemma SettleRestarts(l: Loop, budgets: Budgets, answer: Answer, now: nat)
    requires Restarted(l, budgets) && InMode(l.machine) && (l.machine.step.Retire? ==> l.machine.mode.Overlap?)
    requires l.calls != [] && l.calls[|l.calls| - 1].step == l.machine.step && l.calls[|l.calls| - 1].at <= now
    ensures Restarted(Settled(l, budgets, answer, now), budgets)
  {
    var t := Settled(l, budgets, answer, now);
    assert Restarts(l.machine.mode, budgets, l.calls[|l.calls| - 1], t.machine.step, t.deadline, t.ready);
  }

  lemma {:induction false} RoundsRestart(mode: Mode, budgets: Budgets, now: nat, turns: seq<Turn>)
    ensures Restarted(Rounds(mode, budgets, now, turns), budgets)
  {
    if turns != [] {
      var before, turn := turns[..|turns| - 1], turns[|turns| - 1];
      RoundsRestart(mode, budgets, now, before);
      CountedIsBounded(mode, budgets, now, before);
      RoundRestarts(Rounds(mode, budgets, now, before), budgets, turn);
      hide Round, Restarted;
    }
  }

  lemma RoundRestarts(l: Loop, budgets: Budgets, turn: Turn)
    requires Restarted(l, budgets) && (l.result.None? ==> Countable(l, budgets))
    ensures Restarted(Round(l, budgets, turn), budgets)
  {
    hide Settled, Restarted;
    CallRestarts(l, budgets, turn);
    ExpiredRestarts(l, budgets);
    ExpiredRestarts(Called(l, turn), budgets);
    if l.result.None? {
      SettleRestarts(Called(l, turn), budgets, turn.answer, l.ready + turn.idle + turn.busy + turn.pause);
    }
  }

  lemma ExpiredRestarts(l: Loop, budgets: Budgets)
    requires Restarted(l, budgets)
    ensures Restarted(Expired(l), budgets)
  {
  }

  /** Each change of phase starts that phase's own budget afresh, after the call that ended the old
      phase and before the first of the new one: draining and retiring on the drain budget, or
      without a deadline if there is none, and setup again after a drain. */
  lemma {:induction false} BudgetsStartWithTheirPhase(mode: Mode, budgets: Budgets, now: nat, turns: seq<Turn>, k: nat)
    requires 0 < k < |Rounds(mode, budgets, now, turns).calls|
    ensures var calls := Rounds(mode, budgets, now, turns).calls;
            Phase(mode, calls[k - 1].step) != Phase(mode, calls[k].step) ==>
              StartsBetween(calls[k].deadline, BudgetOf(budgets, Phase(mode, calls[k].step)), calls[k - 1].at, calls[k].at)
  {
    RoundsRestart(mode, budgets, now, turns);
    TraceHolds(mode, budgets, now, turns);
    hide Rounds, Phase, StartsBetween;
    var l := Rounds(mode, budgets, now, turns);
    assert Restarts(l.machine.mode, budgets, l.calls[k - 1], l.calls[k].step, l.calls[k].deadline, l.calls[k].at);
  }

  // ---------------------------------------------------------------- termination

  /** Polls that fit before a deadline this far away. */
  function Polls(time: int): nat {
    if time <= 0 then 0 else (time + POLL_INTERVAL - 1) / POLL_INTERVAL
  }

  function DrainPolls(budgets: Budgets): nat {
    if budgets.drain.None? then 0 else Polls(budgets.drain.value)
  }

  /** Calls that count: with an unlimited drain, all but its retries. */
  function Counted(budgets: Budgets, calls: seq<Call>): nat {
    if calls == [] then 0
    else Counted(budgets, calls[..|calls| - 1]) + Weight(budgets, calls[|calls| - 1].step, calls[|calls| - 1].answer)
  }

  function Weight(budgets: Budgets, step: Step, answer: Answer): nat {
    if budgets.drain.None? && step.Drain? && answer.Pending? then 0 else 1
  }

  function StepsLeft(m: Position): nat {
    match m.step
    case Recheck => 7
    case Prepare => 6
    case Drain => 5
    case Start => if m.mode.Overlap? then 5 else 4
    case Verify => if m.mode.Overlap? then 4 else 3
    case Validate => if m.mode.Overlap? then 3 else 2
    case Commit => if m.mode.Overlap? then 2 else 1
    case Retire => 1
  }

  /** Retries of the phases still to come. */
  function LaterPolls(m: Position, budgets: Budgets): nat {
    if m.mode.Overlap? then 0
    else match Phase(m.mode, m.step)
      case 0 => DrainPolls(budgets) + Polls(budgets.setup)
      case 1 => Polls(budgets.setup)
      case _ => 0
  }

  function PollsLeft(l: Loop): nat {
    if l.machine.step.Retire? || l.deadline.None? then 0 else Polls(l.deadline.value - l.ready)
  }

  function CallsLeft(l: Loop, budgets: Budgets): nat {
    if l.result.Some? then 0 else StepsLeft(l.machine) + PollsLeft(l) + LaterPolls(l.machine, budgets)
  }

  predicate HasDeadline(l: Loop, budgets: Budgets) {
    l.deadline.None? ==> budgets.drain.None? && (l.machine.step.Drain? || l.machine.step.Retire?)
  }

  lemma PollsShrink(a: int, b: int)
    requires a <= b
    ensures Polls(a) <= Polls(b)
    ensures 0 < b && (a <= b - POLL_INTERVAL || a <= 0) ==> Polls(a) < Polls(b)
  {
  }

  predicate Countable(l: Loop, budgets: Budgets) {
    InMode(l.machine) && HasDeadline(l, budgets) && (l.machine.step.Retire? ==> l.machine.mode.Overlap?)
  }

  /** Sleeping uses up at least one of the polls left. */
  lemma WaitingSpends(l: Loop, now: nat)
    requires l.deadline.Some? && l.ready < l.deadline.value && l.ready <= now && !l.machine.step.Retire?
    ensures PollsLeft(l.(ready := now + Wait(l.deadline, now))) < PollsLeft(l)
  {
    PollsShrink(l.deadline.value - (now + Wait(l.deadline, now)), l.deadline.value - l.ready);
    hide Polls;
  }

  /** Moving to the next step uses up the step, and starts a later phase's polls only once. */
  lemma MovingSpends(l: Loop, budgets: Budgets, now: nat)
    requires Countable(l, budgets) && l.ready <= now && l.result.None?
    requires Advanced(l.machine, Done).1.None?
    ensures var m := Advanced(l.machine, Done).0;
            var t := l.(machine := m, deadline := Renewed(l.deadline, budgets, l.machine.step, m.step, now), ready := now);
            Countable(t, budgets) && CallsLeft(t, budgets) < CallsLeft(l, budgets)
  {
    hide Polls;
    if l.deadline.Some? {
      PollsShrink(l.deadline.value - now, l.deadline.value - l.ready);
    }
  }

  lemma SettlingSpends(l: Loop, budgets: Budgets, answer: Answer, now: nat)
    requires Countable(l, budgets) && l.result.None? && l.ready <= now
    requires !Passed(l.deadline, l.ready)
    ensures var t := Settled(l, budgets, answer, now);
            && (t.result.None? ==> Countable(t, budgets))
            && CallsLeft(t, budgets) + Weight(budgets, l.machine.step, answer) <= CallsLeft(l, budgets)
  {
    hide Polls;
    var (m, r) := Advanced(l.machine, answer);
    if r.None? {
      if answer.Done? {
        MovingSpends(l, budgets, now);
      } else if l.deadline.Some? {
        WaitingSpends(l, now);
      }
    }
  }

  lemma {:induction false} CountedGrows(budgets: Budgets, calls: seq<Call>, c: Call)
    ensures Counted(budgets, calls + [c]) == Counted(budgets, calls) + Weight(budgets, c.step, c.answer)
  {
    assert (calls + [c])[..|calls|] == calls;
  }

  lemma {:induction false} CountedIsAll(budgets: Budgets, calls: seq<Call>)
    requires budgets.drain.Some?
    ensures Counted(budgets, calls) == |calls|
  {
    if calls != [] {
      CountedIsAll(budgets, calls[..|calls| - 1]);
    }
  }

  lemma RoundSpends(l: Loop, budgets: Budgets, turn: Turn)
    requires l.result.None? ==> Countable(l, budgets)
    ensures var t := Round(l, budgets, turn);
            && (t.result.None? ==> Countable(t, budgets))
            && Counted(budgets, t.calls) + CallsLeft(t, budgets) <= Counted(budgets, l.calls) + CallsLeft(l, budgets)
  {
    hide Countable, Settled, Polls, Counted, PollsLeft, LaterPolls;
    var c := Call(l.machine.step, l.deadline, l.ready + turn.idle, turn.answer);
    CountedGrows(budgets, l.calls, c);
    if l.result.None? && !Passed(l.deadline, l.ready + turn.idle) {
      CalledIsCountable(l, budgets, turn);
      SettlingSpends(Called(l, turn), budgets, turn.answer, l.ready + turn.idle + turn.busy + turn.pause);
      SettledCalls(Called(l, turn), budgets, turn.answer, l.ready + turn.idle + turn.busy + turn.pause);
    }
  }

  lemma CalledIsCountable(l: Loop, budgets: Budgets, turn: Turn)
    requires Countable(l, budgets)
    ensures Countable(Called(l, turn), budgets) && CallsLeft(Called(l, turn), budgets) == CallsLeft(l, budgets)
  {
  }

  lemma SettledCalls(l: Loop, budgets: Budgets, answer: Answer, now: nat)
    ensures Settled(l, budgets, answer, now).calls == l.calls
  {
  }

  function CallLimit(mode: Mode, budgets: Budgets): nat {
    7 + Polls(budgets.setup) + if mode.Overlap? then 0 else DrainPolls(budgets) + Polls(budgets.setup)
  }

  lemma {:induction false} CountedIsBounded(mode: Mode, budgets: Budgets, now: nat, turns: seq<Turn>)
    ensures var l := Rounds(mode, budgets, now, turns);
            && (l.result.None? ==> Countable(l, budgets))
            && Counted(budgets, l.calls) + CallsLeft(l, budgets) <= CallLimit(mode, budgets)
  {
    if turns != [] {
      CountedIsBounded(mode, budgets, now, turns[..|turns| - 1]);
      RoundSpends(Rounds(mode, budgets, now, turns[..|turns| - 1]), budgets, turns[|turns| - 1]);
      hide Round, Countable, Counted, CallsLeft;
    }
  }

  /** Every replacement with a drain budget makes at most seven calls plus one for each poll interval
      begun in its budgets; without one, only the retries of the drain are not counted. */
  lemma {:induction false} CallsAreBounded(mode: Mode, budgets: Budgets, now: nat, turns: seq<Turn>)
    ensures var calls := Rounds(mode, budgets, now, turns).calls;
            && Counted(budgets, calls) <= CallLimit(mode, budgets)
            && (budgets.drain.Some? ==> |calls| <= CallLimit(mode, budgets))
  {
    CountedIsBounded(mode, budgets, now, turns);
    if budgets.drain.Some? {
      CountedIsAll(budgets, Rounds(mode, budgets, now, turns).calls);
    }
  }

  lemma {:induction false} EveryRoundCalls(mode: Mode, budgets: Budgets, now: nat, turns: seq<Turn>)
    ensures var l := Rounds(mode, budgets, now, turns); l.result.None? ==> |l.calls| == |turns|
  {
    if turns != [] {
      EveryRoundCalls(mode, budgets, now, turns[..|turns| - 1]);
    }
  }

  /** With a drain budget every replacement ends, whatever the adapter answers. */
  lemma {:induction false} EveryReplacementEnds(mode: Mode, budgets: Budgets, now: nat, turns: seq<Turn>)
    requires budgets.drain.Some? && |turns| > CallLimit(mode, budgets)
    ensures Rounds(mode, budgets, now, turns).result.Some?
  {
    CallsAreBounded(mode, budgets, now, turns);
    EveryRoundCalls(mode, budgets, now, turns);
  }

  // ---------------------------------------------------------------- failures have a reason

  /** A deadline is blamed only once it has come: the round that ended the run began at or after the
      deadline in force, or its call came back then. */
  lemma {:induction false} DeadlineFailuresAreLate(mode: Mode, budgets: Budgets, now: nat, turns: seq<Turn>) returns (k: nat)
    requires var r := Rounds(mode, budgets, now, turns).result; r.Some? && r.value.Failure? && r.value.reason.Deadline?
    ensures k < |turns|
    ensures var l := Rounds(mode, budgets, now, turns[..k]);
            && l.result.None? && l.deadline.Some?
            && l.ready + turns[k].idle + turns[k].busy >= l.deadline.value
    decreases |turns|
  {
    var before := turns[..|turns| - 1];
    var l := Rounds(mode, budgets, now, before);
    if l.result.Some? {
      k := DeadlineFailuresAreLate(mode, budgets, now, before);
      assert turns[..k] == before[..k];
    } else {
      k := |before|;
    }
  }

  /** With time in hand and an adapter that does what it is asked, a replacement completes. */
  lemma {:induction false} AllDoneCompletes(mode: Mode, budgets: Budgets, now: nat, turns: seq<Turn>)
    requires 0 < budgets.setup && (budgets.drain.Some? ==> 0 < budgets.drain.value) && |turns| <= 7
    requires forall k :: 0 <= k < |turns| ==> turns[k] == Turn(0, 0, 0, Done)
    ensures var l := Rounds(mode, budgets, now, turns);
            if |turns| == 7 then l.result == Some(Finished(Complete))
            else l.result.None? && Progress(l.calls) == |turns| && (l.deadline.Some? ==> l.ready < l.deadline.value)
    decreases |turns|
  {
    if turns != [] {
      var before := turns[..|turns| - 1];
      AllDoneCompletes(mode, budgets, now, before);
      TraceHolds(mode, budgets, now, before);
      DoneInTime(mode, budgets, Rounds(mode, budgets, now, before));
      hide Round;
    }
  }

  lemma DoneAdvances(m: Position, calls: seq<Call>)
    requires OnTrack(m, calls)
    ensures var (n, r) := Advanced(m, Done);
            if Progress(calls) == 6 then r == Some(Finished(Complete)) else r.None? && n.step != m.step
  {
    ScriptSteps(m.mode, Progress(calls));
    hide Progress, Follows, Steady;
  }

  lemma DoneInTime(mode: Mode, budgets: Budgets, l: Loop)
    requires Traced(mode, l) && l.result.None? && (l.deadline.Some? ==> l.ready < l.deadline.value)
    requires 0 < budgets.setup && (budgets.drain.Some? ==> 0 < budgets.drain.value)
    ensures var t := Round(l, budgets, Turn(0, 0, 0, Done));
            if Progress(l.calls) == 6 then t.result == Some(Finished(Complete))
            else t.result.None? && Progress(t.calls) == Progress(l.calls) + 1 && (t.deadline.Some? ==> t.ready < t.deadline.value)
  {
    hide OnTrack, Progress, Advanced, Ended, Wait;
    DoneAdvances(l.machine, l.calls);
    DoneCounts(l.calls, Call(l.machine.step, l.deadline, l.ready, Done));
  }

  lemma {:induction false} DoneCounts(calls: seq<Call>, c: Call)
    requires c.answer.Done?
    ensures Progress(calls + [c]) == Progress(calls) + 1
  {
    assert (calls + [c])[..|calls|] == calls;
  }
}
