/** The request gate (src/lifecycle.rs): requests are admitted until draining starts, and a drain
    waits for the admitted ones. Critical sections are steps; the change channel is a version
    number, and a waiter sleeps until the version differs from the one it last marked as seen. */
module Lifecycle {
  datatype Event = DrainStarted | DrainCompleted

  datatype State = State(draining: bool, active: nat, version: nat, events: seq<Event>)

  function Admitted(s: State): State {
    if s.draining then s else s.(active := s.active + 1)
  }

  function Drained(s: State): State {
    if s.draining then s
    else s.(draining := true, version := s.version + 1,
            events := s.events + [DrainStarted] + if s.active == 0 then [DrainCompleted] else [])
  }

  function Released(s: State): State
    requires s.active > 0
  {
    if s.draining && s.active == 1 then
      s.(active := 0, version := s.version + 1, events := s.events + [DrainCompleted])
    else s.(active := s.active - 1)
  }

  class Gate {
    var draining: bool
    var active: nat
    var version: nat
    var events: seq<Event>

    constructor ()
      ensures View() == State(false, 0, 0, [])
    {
      draining, active, version, events := false, 0, 0, [];
    }

    function View(): State
      reads this
    {
      State(draining, active, version, events)
    }

    method Begin() returns (admitted: bool)
      modifies this
      ensures View() == Admitted(old(View())) && admitted == !old(draining)
    {
      if draining {
        return false;
      }
      active := active + 1;
      admitted := true;
    }

    method StartDrain() returns (first: bool)
      modifies this
      ensures View() == Drained(old(View())) && first == !old(draining)
    {
      if draining {
        return false;
      }
      draining := true;
      events := events + [DrainStarted];
      if active == 0 {
        events := events + [DrainCompleted];
      }
      version := version + 1;
      first := true;
    }

    /** A request guard is dropped. */
    method DropGuard()
      requires active > 0
      modifies this
      ensures View() == Released(old(View()))
    {
      active := active - 1;
      if draining && active == 0 {
        events := events + [DrainCompleted];
        version := version + 1;
      }
    }
  }

  // ---------------------------------------------------------------- runs

  /** `drain` waits for the requests, `draining` only for the gate to close. */
  datatype Wish = Drain | Draining

  datatype Waiter =
    | Called(wish: Wish)
    | Started(wish: Wish)
    | AtTop(wish: Wish, seen: nat)
    | Marked(wish: Wish, seen: nat)
    | Asleep(wish: Wish, seen: nat)
    | Returned(wish: Wish)

  /** `guards` are the request guards held. */
  datatype World = World(state: State, guards: set<nat>, admitted: nat, waiters: map<nat, Waiter>)

  datatype Step = Begin | DropGuard(guard: nat) | StartDrain | Call(id: nat, wish: Wish) | Advance(id: nat)

  function Initial(): World {
    World(State(false, 0, 0, []), {}, 0, map[])
  }

  predicate Wanted(s: State, wish: Wish) {
    match wish
    case Drain => s.active == 0
    case Draining => s.draining
  }

  function Advanced(w: World, waiter: Waiter): (State, Waiter) {
    match waiter
    case Called(wish) => (if wish.Drain? then Drained(w.state) else w.state, Started(wish))
    case Started(wish) => (w.state, AtTop(wish, w.state.version))
    case AtTop(wish, _) => (w.state, Marked(wish, w.state.version))
    case Marked(wish, seen) => (w.state, if Wanted(w.state, wish) then Returned(wish) else Asleep(wish, seen))
    case Asleep(wish, seen) => (w.state, if w.state.version != seen then AtTop(wish, w.state.version) else waiter)
    case Returned(_) => (w.state, waiter)
  }

  function Next(w: World, step: Step): World {
    match step
    case Begin =>
      if w.state.draining then w
      else w.(state := Admitted(w.state), guards := w.guards + {w.admitted}, admitted := w.admitted + 1)
    case DropGuard(g) =>
      if g in w.guards && w.state.active > 0 then w.(state := Released(w.state), guards := w.guards - {g}) else w
    case StartDrain => w.(state := Drained(w.state))
    case Call(id, wish) => if id in w.waiters then w else w.(waiters := w.waiters[id := Called(wish)])
    case Advance(id) =>
      if id !in w.waiters then w
      else
        var (state, waiter) := Advanced(w, w.waiters[id]);
        w.(state := state, waiters := w.waiters[id := waiter])
  }

  function Run(steps: seq<Step>): World {
    if steps == [] then Initial() else Next(Run(steps[..|steps| - 1]), steps[|steps| - 1])
  }

  // ---------------------------------------------------------------- invariants

  predicate Counted(w: World) {
    w.state.active == |w.guards| && forall g :: g in w.guards ==> g < w.admitted
  }

  predicate Reported(s: State) {
    s.events == (if s.draining then [DrainStarted] else []) + if s.draining && s.active == 0 then [DrainCompleted] else []
  }

  /** A waiter of either kind, against the state. */
  predicate Safe(s: State, waiter: Waiter) {
    && (!waiter.Called? && waiter.wish.Drain? ==> s.draining)
    && (waiter.Marked? ==> waiter.seen <= s.version)
    && (waiter.Asleep? ==> waiter.seen <= s.version && (waiter.seen == s.version ==> !Wanted(s, waiter.wish)))
    && (waiter.Returned? ==> s.draining && Wanted(s, waiter.wish))
  }

  predicate WaitersSafe(w: World) {
    forall id :: id in w.waiters ==> Safe(w.state, w.waiters[id])
  }

  predicate Invariant(w: World) {
    Counted(w) && Reported(w.state) && WaitersSafe(w)
  }

  /** One critical section of the gate, or none. */
  predicate Moves(s: State, t: State) {
    t == s || (!s.draining && t == Admitted(s)) || t == Drained(s) || (s.active > 0 && t == Released(s))
  }

  lemma StepMoves(w: World, step: Step)
    ensures Moves(w.state, Next(w, step).state)
  {
  }

  lemma MoveReports(s: State, t: State)
    requires Reported(s) && Moves(s, t)
    ensures Reported(t)
  {
  }

  /** Whatever the gate does, a waiter that stays where it is stays safe. */
  lemma MoveKeepsSafe(s: State, t: State, waiter: Waiter)
    requires Safe(s, waiter) && Moves(s, t)
    ensures Safe(t, waiter)
  {
  }

  lemma AdvanceKeepsSafe(w: World, waiter: Waiter)
    requires Safe(w.state, waiter)
    ensures Safe(Advanced(w, waiter).0, Advanced(w, waiter).1)
  {
  }

  lemma StepKeepsWaiters(w: World, step: Step)
    requires WaitersSafe(w)
    ensures WaitersSafe(Next(w, step))
  {
    hide Safe, Moves;
    var t := Next(w, step);
    StepMoves(w, step);
    forall id | id in t.waiters ensures Safe(t.state, t.waiters[id]) {
      if step == Advance(id) {
        AdvanceKeepsSafe(w, w.waiters[id]);
      } else if id in w.waiters {
        MoveKeepsSafe(w.state, t.state, w.waiters[id]);
      } else {
        CallIsSafe(t.state, step.wish);
      }
    }
  }

  lemma CallIsSafe(s: State, wish: Wish)
    ensures Safe(s, Called(wish))
  {
  }

  lemma AdmittingCounts(w: World)
    requires Counted(w)
    ensures Counted(Next(w, Begin))
  {
    assert w.admitted !in w.guards;
  }

  lemma DroppingCounts(w: World, g: nat)
    requires Counted(w)
    ensures Counted(Next(w, DropGuard(g)))
  {
    if g in w.guards {
      assert |w.guards - {g}| == |w.guards| - 1;
    }
  }

  lemma OthersCount(w: World, step: Step)
    requires !step.Begin? && !step.DropGuard?
    ensures var t := Next(w, step); t.guards == w.guards && t.admitted == w.admitted && t.state.active == w.state.active
  {
  }

  lemma StepKeepsCounts(w: World, step: Step)
    requires Counted(w)
    ensures Counted(Next(w, step))
  {
    hide Next;
    match step
    case Begin => AdmittingCounts(w);
    case DropGuard(g) => DroppingCounts(w, g);
    case _ => OthersCount(w, step);
  }

  lemma {:induction false} InvariantHolds(steps: seq<Step>)
    ensures Invariant(Run(steps))
  {
    if steps != [] {
      var w, step := Run(steps[..|steps| - 1]), steps[|steps| - 1];
      InvariantHolds(steps[..|steps| - 1]);
      StepKeepsCounts(w, step);
      StepMoves(w, step);
      MoveReports(w.state, Next(w, step).state);
      StepKeepsWaiters(w, step);
      hide Next, Counted, Reported, WaitersSafe;
    }
  }

  // ---------------------------------------------------------------- main results

  /** No drain is stranded: a waiter that gets what it waits for always has a change it has not
      seen, so it wakes. */
  lemma NoWakeUpIsLost(steps: seq<Step>, id: nat)
    requires id in Run(steps).waiters && Run(steps).waiters[id].Asleep?
    ensures var w := Run(steps); Wanted(w.state, w.waiters[id].wish) ==> w.waiters[id].seen < w.state.version
  {
    InvariantHolds(steps);
  }

  lemma StepKeepsReturned(w: World, step: Step, id: nat)
    requires id in w.waiters && w.waiters[id].Returned?
    ensures id in Next(w, step).waiters && Next(w, step).waiters[id] == w.waiters[id]
  {
  }

  lemma {:induction false} ReturnedIsFinal(steps: seq<Step>, more: seq<Step>, id: nat)
    requires id in Run(steps).waiters && Run(steps).waiters[id].Returned?
    ensures id in Run(steps + more).waiters && Run(steps + more).waiters[id] == Run(steps).waiters[id]
    decreases |more|
  {
    hide Next;
    if more == [] {
      assert steps + more == steps;
    } else {
      var before, step := steps + more[..|more| - 1], more[|more| - 1];
      assert (steps + more)[..|before|] == before && (steps + more)[|before|] == step;
      ReturnedIsFinal(steps, more[..|more| - 1], id);
      StepKeepsReturned(Run(before), step, id);
    }
  }

  /** A drain that returned found no request, and whatever happens after it none is ever held again. */
  lemma {:induction false} DrainedStaysDrained(steps: seq<Step>, more: seq<Step>, id: nat)
    requires id in Run(steps).waiters && Run(steps).waiters[id] == Returned(Drain)
    ensures Run(steps + more).state.draining && Run(steps + more).guards == {}
  {
    ReturnedIsFinal(steps, more, id);
    InvariantHolds(steps + more);
    hide Run;
  }

  /** The start is reported once, the completion once, in that order, exactly when they happened. */
  lemma DrainIsReportedOnce(steps: seq<Step>)
    ensures var w := Run(steps);
            w.state.events == (if w.state.draining then [DrainStarted] else [])
                              + if w.state.draining && w.guards == {} then [DrainCompleted] else []
  {
    InvariantHolds(steps);
  }

  // ---------------------------------------------------------------- by history

  lemma RunOne(steps: seq<Step>, step: Step)
    ensures Run(steps + [step]) == Next(Run(steps), step)
  {
    hide Next;
    assert (steps + [step])[..|steps|] == steps;
  }

  /** A step that closes the gate: `start_drain`, or a `drain` at its start. */
  ghost predicate Closes(steps: seq<Step>, k: nat) {
    && k < |steps|
    && (steps[k].StartDrain?
        || (steps[k].Advance? && steps[k].id in Run(steps[..k]).waiters && Run(steps[..k]).waiters[steps[k].id] == Called(Drain)))
  }

  lemma StepCloses(w: World, step: Step)
    ensures Next(w, step).state.draining <==>
              || w.state.draining || step.StartDrain?
              || (step.Advance? && step.id in w.waiters && w.waiters[step.id] == Called(Drain))
  {
  }

  /** The gate is closed exactly since somebody first asked for a drain. */
  lemma {:induction false} ClosedExactlySinceADrain(steps: seq<Step>)
    ensures Run(steps).state.draining <==> exists k: nat :: Closes(steps, k)
    decreases |steps|
  {
    if steps != [] {
      var before, step := steps[..|steps| - 1], steps[|steps| - 1];
      ClosedExactlySinceADrain(before);
      StepCloses(Run(before), step);
      hide Next;
      assert forall k: nat :: k < |before| ==> steps[..k] == before[..k] && steps[k] == before[k];
      assert steps[..|before|] == before;
      assert forall k: nat :: Closes(before, k) ==> Closes(steps, k);
      assert Closes(steps, |before|) <==>
               step.StartDrain? || (step.Advance? && step.id in Run(before).waiters && Run(before).waiters[step.id] == Called(Drain));
      assert forall k: nat :: k < |before| && Closes(steps, k) ==> Closes(before, k);
    }
  }

  /** Step `k` admitted request `g`, and it has not been dropped since. */
  ghost predicate HeldSince(steps: seq<Step>, k: nat, g: nat) {
    && k < |steps| && steps[k].Begin? && !Run(steps[..k]).state.draining && Run(steps[..k]).admitted == g
    && forall j :: k < j < |steps| ==> steps[j] != DropGuard(g)
  }

  lemma StepHolds(w: World, step: Step, g: nat)
    requires Counted(w)
    ensures g in Next(w, step).guards <==>
              (g in w.guards && step != DropGuard(g)) || (step.Begin? && !w.state.draining && g == w.admitted)
  {
    if g in w.guards {
      assert |w.guards| > 0;
    }
  }

  lemma HoldingGrows(steps: seq<Step>, step: Step, k: nat, g: nat)
    ensures HeldSince(steps + [step], k, g) <==>
              || (HeldSince(steps, k, g) && step != DropGuard(g))
              || (k == |steps| && step.Begin? && !Run(steps).state.draining && Run(steps).admitted == g)
  {
    hide Run;
    var more := steps + [step];
    assert more[|steps|] == step && forall j :: 0 <= j < |steps| ==> more[j] == steps[j];
    if k < |steps| {
      assert more[..k] == steps[..k];
    } else {
      assert more[..|steps|] == steps;
    }
  }

  /** A request is inside exactly from its admission, while the gate was open, to its drop. */
  lemma {:induction false} GuardsAreHistory(steps: seq<Step>, g: nat)
    ensures g in Run(steps).guards <==> exists k: nat :: HeldSince(steps, k, g)
    decreases |steps|
  {
    if steps != [] {
      var before, step := steps[..|steps| - 1], steps[|steps| - 1];
      assert steps == before + [step];
      var w := Run(before);
      GuardsAreHistory(before, g);
      InvariantHolds(before);
      StepHolds(w, step, g);
      assert Run(steps) == Next(w, step);
      hide Run, Next, HeldSince, Invariant;
      forall k: nat ensures HeldSince(steps, k, g) <==>
                              || (HeldSince(before, k, g) && step != DropGuard(g))
                              || (k == |before| && step.Begin? && !w.state.draining && w.admitted == g) {
        HoldingGrows(before, step, k, g);
      }
      if step.Begin? && !w.state.draining && w.admitted == g {
        assert HeldSince(steps, |before|, g);
      }
    }
  }

  // ---------------------------------------------------------------- waits end

  /** What a waiter waits for: that the gate is closed, and for a drain that no request is inside. */
  predicate Met(w: World, wish: Wish) {
    match wish
    case Drain => w.guards == {}
    case Draining => w.state.draining
  }

  /** Four steps of one waiter, left alone. */
  function Alone(w: World, id: nat): World {
    Next(Next(Next(Next(w, Advance(id)), Advance(id)), Advance(id)), Advance(id))
  }

  lemma RunAlone(steps: seq<Step>, id: nat)
    ensures Run(steps + [Advance(id), Advance(id), Advance(id), Advance(id)]) == Alone(Run(steps), id)
  {
    hide Next;
    var a := Advance(id);
    RunOne(steps, a);
    RunOne(steps + [a], a);
    RunOne(steps + [a] + [a], a);
    RunOne(steps + [a] + [a] + [a], a);
    hide Run;
    assert steps + [a] + [a] + [a] + [a] == steps + [a, a, a, a];
  }

  lemma ReturnsAlone(w: World, id: nat)
    requires id in w.waiters && Safe(w.state, w.waiters[id])
    requires Counted(w) && Met(w, w.waiters[id].wish)
    ensures id in Alone(w, id).waiters && Alone(w, id).waiters[id] == Returned(w.waiters[id].wish)
  {
    var wish := w.waiters[id].wish;
    assert Wanted(w.state, wish);
    var one := Next(w, Advance(id));
    assert Wanted(one.state, wish) && one.waiters[id].wish == wish;
  }

  /** Whoever waits for what has come about returns, within four steps of its own, wherever it is: in
      particular it is not asleep for good. */
  lemma {:induction false} WaitsEnd(steps: seq<Step>, id: nat)
    requires id in Run(steps).waiters && Met(Run(steps), Run(steps).waiters[id].wish)
    ensures var w := Run(steps + [Advance(id), Advance(id), Advance(id), Advance(id)]);
            id in w.waiters && w.waiters[id] == Returned(Run(steps).waiters[id].wish)
  {
    InvariantHolds(steps);
    RunAlone(steps, id);
    hide Run;
    ReturnsAlone(Run(steps), id);
  }

  /** A fresh call is taken, and a sleeper stirs exactly when there has been a change. */
  lemma {:induction false} CallsAndWakes(steps: seq<Step>, id: nat, wish: Wish)
    ensures id !in Run(steps).waiters ==>
              Run(steps + [Call(id, wish)]) == Run(steps).(waiters := Run(steps).waiters[id := Called(wish)])
    ensures id in Run(steps).waiters && Run(steps).waiters[id].Asleep? ==>
              (Run(steps + [Advance(id)]) != Run(steps) <==> Run(steps).waiters[id].seen < Run(steps).state.version)
  {
    InvariantHolds(steps);
    RunOne(steps, Call(id, wish));
    RunOne(steps, Advance(id));
    var w := Run(steps);
    hide Run;
    if id in w.waiters && w.waiters[id].Asleep? {
      assert w.waiters[id := w.waiters[id]] == w.waiters;
    }
  }
}
