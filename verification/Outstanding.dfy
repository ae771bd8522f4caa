/** Requests sent to the peer whose replies have not reached the client
    (src/transport.rs, `Outstanding`). The set counts requests per key, forgets them when the
    peer is gone, and wakes blocked callers only when an update leaves it settled while
    somebody waits. */
module Outstanding {
  type Key(==, !new)
  type Thread = nat

  /** The fields under the lock. Machine integers are `int` here, so that staying at or above
      zero is something to prove. */
  datatype State = State(
    capacity: nat, keys: map<Key, int>, tracked: int, epoch: nat, overflowed: bool,
    failing: int, transitions: int, waiters: int)

  predicate Settled(s: State) {
    !s.overflowed && s.failing == 0 && s.transitions == 0 && s.keys == map[]
  }

  predicate MustWake(s: State) {
    s.waiters > 0 && Settled(s)
  }

  function Count(s: State, key: Key): int {
    if key in s.keys then s.keys[key] else 0
  }

  // ---------------------------------------------------------------- the critical sections

  function Begun(s: State, key: Key): State {
    if s.tracked < s.capacity then s.(keys := s.keys[key := Count(s, key) + 1], tracked := s.tracked + 1)
    else s.(overflowed := true)
  }

  function Replied(s: State, epoch: nat, key: Key): State {
    if epoch != s.epoch || key !in s.keys then s
    else
      s.(keys := if s.keys[key] - 1 == 0 then s.keys - {key} else s.keys[key := s.keys[key] - 1],
         tracked := s.tracked - 1)
  }

  function Cleared(s: State): State {
    s.(keys := map[], tracked := 0, epoch := s.epoch + 1, overflowed := false)
  }

  function Failed(s: State): State {
    s.(failing := s.failing + 1, overflowed := false, tracked := 0, epoch := s.epoch + 1, keys := map[])
  }

  /** `keys` holds the requests of `contents`, each key with its multiplicity. */
  ghost predicate Represents(keys: map<Key, int>, contents: multiset<Key>) {
    forall key :: (key in keys <==> key in contents) && (key in keys ==> keys[key] == contents[key])
  }

  ghost predicate Tracks(s: State, contents: multiset<Key>) {
    Represents(s.keys, contents) && s.tracked == |contents| <= s.capacity
  }

  lemma SettlingTracks(s: State, contents: multiset<Key>, key: Key)
    requires Tracks(s, contents) && key in s.keys
    ensures Tracks(Replied(s, s.epoch, key), contents - multiset{key})
  {
  }

  lemma StrayTracks(s: State, contents: multiset<Key>, key: Key)
    requires Tracks(s, contents)
    ensures key !in s.keys ==> contents - multiset{key} == contents
  {
  }

  class OutstandingSet {
    const capacity: nat
    var keys: map<Key, int>
    var tracked: int
    var epoch: nat
    var overflowed: bool
    var failing: int
    var transitions: int
    var waiters: int
    ghost var contents: multiset<Key>

    function View(): State
      reads this
    {
      State(capacity, keys, tracked, epoch, overflowed, failing, transitions, waiters)
    }

    ghost predicate Valid()
      reads this
    {
      Tracks(View(), contents) && failing >= 0 && transitions >= 0 && waiters >= 0
    }

    constructor (capacity: nat)
      ensures Valid() && contents == multiset{}
      ensures View() == State(capacity, map[], 0, 0, false, 0, 0, 0)
    {
      this.capacity := capacity;
      keys, tracked, epoch, overflowed := map[], 0, 0, false;
      failing, transitions, waiters, contents := 0, 0, 0, multiset{};
    }

    method Begin(key: Key)
      requires Valid()
      modifies this
      ensures Valid() && View() == Begun(old(View()), key)
      ensures contents == if old(|contents|) < capacity then old(contents) + multiset{key} else old(contents)
      ensures overflowed <==> old(overflowed) || old(|contents|) == capacity
    {
      if tracked < capacity {
        keys := keys[key := (if key in keys then keys[key] else 0) + 1];
        tracked := tracked + 1;
        contents := contents + multiset{key};
      } else {
        overflowed := true;
      }
    }

    method Settle(epoch: nat, key: Key) returns (wake: bool)
      requires Valid()
      modifies this
      ensures Valid() && View() == Replied(old(View()), epoch, key)
      ensures contents == if epoch == old(this.epoch) then old(contents) - multiset{key} else old(contents)
      ensures View() != old(View()) ==> wake == MustWake(View())
    {
      hide Represents;
      wake := false;
      if epoch != this.epoch {
        return;
      }
      StrayTracks(View(), contents, key);
      if key in keys {
        if keys[key] - 1 == 0 {
          keys := keys - {key};
        } else {
          keys := keys[key := keys[key] - 1];
        }
        tracked := tracked - 1;
        SettlingTracks(old(View()), contents, key);
        contents := contents - multiset{key};
        wake := MustWake(View());
      }
    }

    method Clear() returns (wake: bool)
      requires Valid()
      modifies this
      ensures Valid() && View() == Cleared(old(View())) && contents == multiset{}
      ensures keys == map[] && epoch == old(epoch) + 1 && !overflowed
      ensures wake == MustWake(View())
    {
      keys, tracked, epoch, overflowed := map[], 0, epoch + 1, false;
      contents := multiset{};
      wake := MustWake(View());
    }

    /** Take every request, to report it as failed. */
    method Fail() returns (taken: map<Key, int>)
      requires Valid()
      modifies this
      ensures Valid() && View() == Failed(old(View())) && contents == multiset{}
      ensures keys == map[] && epoch == old(epoch) + 1 && !overflowed && failing == old(failing) + 1
      ensures Represents(taken, old(contents))
    {
      failing, overflowed, tracked, epoch := failing + 1, false, 0, epoch + 1;
      taken := keys;
      keys, contents := map[], multiset{};
    }

    /** Dropping the guard of a `Fail`: its reports have been written. */
    method DropFailing() returns (wake: bool)
      requires Valid() && failing > 0
      modifies this
      ensures Valid() && View() == old(View()).(failing := old(failing) - 1) && contents == old(contents)
      ensures wake == MustWake(View())
    {
      failing := failing - 1;
      wake := MustWake(View());
    }

    method StartTransition()
      requires Valid()
      modifies this
      ensures Valid() && View() == old(View()).(transitions := old(transitions) + 1) && contents == old(contents)
    {
      transitions := transitions + 1;
    }

    method DropTransition() returns (wake: bool)
      requires Valid() && transitions > 0
      modifies this
      ensures Valid() && View() == old(View()).(transitions := old(transitions) - 1) && contents == old(contents)
      ensures wake == MustWake(View())
    {
      transitions := transitions - 1;
      wake := MustWake(View());
    }
  }

  /** `Failing::keys`, over the map's keys in their order: every taken request is reported exactly
      once, a key reused by two requests twice, and the report is in key order. */
  method FailingKeys(keys: seq<Key>, taken: map<Key, int>, ghost contents: multiset<Key>, ghost less: (Key, Key) -> bool)
    returns (report: seq<Key>)
    requires Represents(taken, contents) && (forall key :: key in keys <==> key in taken)
    requires forall i, j :: 0 <= i < j < |keys| ==> keys[i] != keys[j] && less(keys[i], keys[j])
    ensures multiset(report) == contents
    ensures InOrder(report, less)
  {
    hide Represents, Reports, InOrder;
    report := [];
    NothingReported(contents, less);
    assert keys[..0] == [];
    for n := 0 to |keys|
      invariant Reports(report, keys[..n], contents) && InOrder(report, less)
    {
      var key := keys[n];
      TakenCounts(taken, contents, key);
      var copies := Repeat(key, taken[key]);
      ReportedEarlier(report, keys[..n], contents);
      ReportGrows(report, keys[..n], contents, key, copies);
      OrderGrows(report, less, key, copies);
      assert keys[..n + 1] == keys[..n] + [key];
      report := report + copies;
    }
    assert keys[..|keys|] == keys;
    AllReported(report, keys, taken, contents);
  }

  lemma NothingReported(contents: multiset<Key>, less: (Key, Key) -> bool)
    ensures Reports([], [], contents) && InOrder([], less)
  {
  }

  lemma TakenCounts(taken: map<Key, int>, contents: multiset<Key>, key: Key)
    requires Represents(taken, contents) && key in taken
    ensures taken[key] == contents[key] >= 0
  {
  }

  lemma AllReported(report: seq<Key>, keys: seq<Key>, taken: map<Key, int>, contents: multiset<Key>)
    requires Reports(report, keys, contents) && Represents(taken, contents) && (forall key :: key in keys <==> key in taken)
    ensures multiset(report) == contents
  {
  }

  /** The report holds exactly the requests of these keys. */
  ghost predicate Reports(report: seq<Key>, keys: seq<Key>, contents: multiset<Key>) {
    forall key :: multiset(report)[key] == if key in keys then contents[key] else 0
  }

  ghost predicate InOrder(report: seq<Key>, less: (Key, Key) -> bool) {
    forall i, j :: 0 <= i < j < |report| ==> report[i] == report[j] || less(report[i], report[j])
  }

  lemma ReportGrows(report: seq<Key>, keys: seq<Key>, contents: multiset<Key>, key: Key, copies: seq<Key>)
    requires Reports(report, keys, contents) && key !in keys && multiset(copies) == multiset{}[key := contents[key]]
    ensures Reports(report + copies, keys + [key], contents)
  {
    assert multiset(report + copies) == multiset(report) + multiset(copies);
  }

  lemma OrderGrows(report: seq<Key>, less: (Key, Key) -> bool, key: Key, copies: seq<Key>)
    requires InOrder(report, less) && (forall i :: 0 <= i < |copies| ==> copies[i] == key)
    requires forall i :: 0 <= i < |report| ==> less(report[i], key)
    ensures InOrder(report + copies, less)
  {
  }

  lemma ReportedEarlier(report: seq<Key>, keys: seq<Key>, contents: multiset<Key>)
    requires Reports(report, keys, contents)
    ensures forall i :: 0 <= i < |report| ==> report[i] in keys
  {
    forall i | 0 <= i < |report| ensures report[i] in keys {
      assert report[i] in multiset(report);
    }
  }

  method Repeat(key: Key, count: int) returns (copies: seq<Key>)
    requires count >= 0
    ensures multiset(copies) == multiset{}[key := count] && forall i :: 0 <= i < |copies| ==> copies[i] == key
  {
    copies := [];
    for i := 0 to count
      invariant multiset(copies) == multiset{}[key := i] && forall j :: 0 <= j < |copies| ==> copies[j] == key
    {
      copies := copies + [key];
    }
  }

  // ---------------------------------------------------------------- runs with waiting threads

  /** `parked` threads block on the condition variable. `awake` ones were notified, or woke
      for no reason, and contend for the lock. `inFlight` is the truth the set has to keep:
      every request sent and not yet answered, failed or cleared, tracked or not. */
  datatype World = World(state: State, parked: set<Thread>, awake: set<Thread>, inFlight: multiset<Key>)

  datatype Step =
    | Begin(key: Key)
    | Settle(epoch: nat, key: Key)
    | Clear
    | Fail
    | DropFailing
    | StartTransition
    | DropTransition
    | Enter(thread: Thread)
    | Spurious(thread: Thread)
    | Recheck(thread: Thread)

  function Initial(capacity: nat): World {
    World(State(capacity, map[], 0, 0, false, 0, 0, 0), {}, {}, multiset{})
  }

  /** `wake_if_settled`, called with the lock still held after an update. */
  function Notified(w: World): World {
    if MustWake(w.state) then w.(parked := {}, awake := w.awake + w.parked) else w
  }

  /** The check at the head of the `wait_settled` loop, with the lock held. */
  function Checked(w: World, t: Thread): World {
    if Settled(w.state) then w.(state := w.state.(waiters := w.state.waiters - 1))
    else w.(parked := w.parked + {t})
  }

  function Next(w: World, step: Step): World {
    match step
    case Begin(key) => w.(state := Begun(w.state, key), inFlight := w.inFlight + multiset{key})
    case Settle(epoch, key) =>
      if epoch != w.state.epoch then w
      else
        var t := w.(state := Replied(w.state, epoch, key), inFlight := w.inFlight - multiset{key});
        if key in w.state.keys then Notified(t) else t
    case Clear => Notified(w.(state := Cleared(w.state), inFlight := multiset{}))
    case Fail => w.(state := Failed(w.state), inFlight := multiset{})
    case DropFailing => if w.state.failing <= 0 then w else Notified(w.(state := w.state.(failing := w.state.failing - 1)))
    case StartTransition => w.(state := w.state.(transitions := w.state.transitions + 1))
    case DropTransition =>
      if w.state.transitions <= 0 then w else Notified(w.(state := w.state.(transitions := w.state.transitions - 1)))
    case Enter(t) =>
      if t in w.parked + w.awake then w else Checked(w.(state := w.state.(waiters := w.state.waiters + 1)), t)
    case Spurious(t) => if t in w.parked then w.(parked := w.parked - {t}, awake := w.awake + {t}) else w
    case Recheck(t) => if t in w.awake then Checked(w.(awake := w.awake - {t}), t) else w
  }

  function Run(capacity: nat, steps: seq<Step>): World {
    if steps == [] then Initial(capacity)
    else Next(Run(capacity, steps[..|steps| - 1]), steps[|steps| - 1])
  }

  /** The request multiset the map stands for. */
  ghost function Contents(capacity: nat, steps: seq<Step>): multiset<Key> {
    if steps == [] then multiset{}
    else
      Tally(Run(capacity, steps[..|steps| - 1]).state, Contents(capacity, steps[..|steps| - 1]), steps[|steps| - 1])
  }

  ghost predicate Invariant(w: World, contents: multiset<Key>) {
    var s := w.state;
    && Tracks(s, contents)
    && s.failing >= 0 && s.transitions >= 0
    && (!s.overflowed ==> contents == w.inFlight)
    && w.parked !! w.awake
    && s.waiters == |w.parked| + |w.awake|
    && (w.parked != {} ==> !Settled(s))
  }

  lemma BegunTracks(s: State, key: Key, contents: multiset<Key>)
    requires Tracks(s, contents) && s.tracked < s.capacity
    ensures Tracks(Begun(s, key), contents + multiset{key})
  {
  }

  lemma RepliedTracks(s: State, key: Key, contents: multiset<Key>)
    requires Tracks(s, contents)
    ensures Tracks(Replied(s, s.epoch, key), contents - multiset{key})
    ensures key !in s.keys ==> contents - multiset{key} == contents
  {
  }

  lemma NotifyKeeps(w: World, contents: multiset<Key>)
    requires Tracks(w.state, contents) && w.state.failing >= 0 && w.state.transitions >= 0
    requires !w.state.overflowed ==> contents == w.inFlight
    requires w.parked !! w.awake && w.state.waiters == |w.parked| + |w.awake|
    ensures Invariant(Notified(w), contents)
  {
    if MustWake(w.state) {
      assert |w.awake + w.parked| == |w.awake| + |w.parked|;
    }
  }

  lemma CheckKeeps(w: World, t: Thread, contents: multiset<Key>)
    requires Tracks(w.state, contents) && w.state.failing >= 0 && w.state.transitions >= 0
    requires !w.state.overflowed ==> contents == w.inFlight
    requires w.parked !! w.awake && t !in w.parked && t !in w.awake
    requires w.state.waiters == |w.parked| + |w.awake| + 1
    requires w.parked != {} ==> !Settled(w.state)
    ensures Invariant(Checked(w, t), contents)
  {
    hide Represents;
    assert |w.parked + {t}| == |w.parked| + 1;
  }

  lemma EnterKeeps(w: World, contents: multiset<Key>, t: Thread)
    requires Invariant(w, contents)
    ensures Invariant(Next(w, Enter(t)), contents)
  {
    hide Represents, Checked;
    if t !in w.parked + w.awake {
      CheckKeeps(w.(state := w.state.(waiters := w.state.waiters + 1)), t, contents);
    }
  }

  lemma RecheckKeeps(w: World, contents: multiset<Key>, t: Thread)
    requires Invariant(w, contents)
    ensures Invariant(Next(w, Recheck(t)), contents)
  {
    hide Represents, Checked;
    if t in w.awake {
      assert |w.awake - {t}| == |w.awake| - 1;
      CheckKeeps(w.(awake := w.awake - {t}), t, contents);
    }
  }

  lemma SpuriousKeeps(w: World, contents: multiset<Key>, t: Thread)
    requires Invariant(w, contents)
    ensures Invariant(Next(w, Spurious(t)), contents)
  {
    hide Represents;
    if t in w.parked {
      assert |w.parked - {t}| == |w.parked| - 1;
      assert t !in w.awake;
    }
  }

  lemma WaitKeeps(w: World, contents: multiset<Key>, step: Step)
    requires Invariant(w, contents) && (step.Enter? || step.Spurious? || step.Recheck?)
    ensures Invariant(Next(w, step), contents)
  {
    hide Invariant, Next;
    match step
    case Enter(t) => EnterKeeps(w, contents, t);
    case Recheck(t) => RecheckKeeps(w, contents, t);
    case Spurious(t) => SpuriousKeeps(w, contents, t);
    case _ =>
  }

  lemma {:induction false} InvariantHolds(capacity: nat, steps: seq<Step>)
    ensures Invariant(Run(capacity, steps), Contents(capacity, steps))
    decreases |steps|
  {
    if steps != [] {
      var before, step := steps[..|steps| - 1], steps[|steps| - 1];
      InvariantHolds(capacity, before);
      StepKeeps(Run(capacity, before), Contents(capacity, before), step);
      hide Next;
      hide Tally;
    }
  }

  /** The request multiset after one step. */
  function Tally(s: State, contents: multiset<Key>, step: Step): multiset<Key> {
    match step
    case Begin(key) => if s.tracked < s.capacity then contents + multiset{key} else contents
    case Settle(epoch, key) => if epoch == s.epoch then contents - multiset{key} else contents
    case Clear => multiset{}
    case Fail => multiset{}
    case _ => contents
  }

  lemma BeginKeeps(w: World, contents: multiset<Key>, key: Key)
    requires Invariant(w, contents)
    ensures Invariant(Next(w, Begin(key)), Tally(w.state, contents, Begin(key)))
  {
    if w.state.tracked < w.state.capacity {
      BegunTracks(w.state, key, contents);
    }
    hide Represents;
  }

  lemma SettleKeeps(w: World, contents: multiset<Key>, epoch: nat, key: Key)
    requires Invariant(w, contents)
    ensures Invariant(Next(w, Settle(epoch, key)), Tally(w.state, contents, Settle(epoch, key)))
  {
    if epoch == w.state.epoch {
      RepliedTracks(w.state, key, contents);
      hide Represents;
      if key in w.state.keys {
        NotifyKeeps(w.(state := Replied(w.state, epoch, key), inFlight := w.inFlight - multiset{key}), contents - multiset{key});
      }
    }
  }

  lemma GuardsKeep(w: World, contents: multiset<Key>, step: Step)
    requires Invariant(w, contents)
    requires step.Clear? || step.Fail? || step.DropFailing? || step.StartTransition? || step.DropTransition?
    ensures Invariant(Next(w, step), Tally(w.state, contents, step))
  {
    var s := w.state;
    if step.Clear? {
      NotifyKeeps(w.(state := Cleared(s), inFlight := multiset{}), multiset{});
    } else if step.DropFailing? && s.failing > 0 {
      NotifyKeeps(w.(state := s.(failing := s.failing - 1)), contents);
    } else if step.DropTransition? && s.transitions > 0 {
      NotifyKeeps(w.(state := s.(transitions := s.transitions - 1)), contents);
    }
    hide Notified;
  }

  lemma StepKeeps(w: World, contents: multiset<Key>, step: Step)
    requires Invariant(w, contents)
    ensures Invariant(Next(w, step), Tally(w.state, contents, step))
  {
    hide Next;
    hide Invariant;
    match step
    case Begin(key) => BeginKeeps(w, contents, key);
    case Settle(epoch, key) => SettleKeeps(w, contents, epoch, key);
    case Enter(_) => WaitKeeps(w, contents, step);
    case Spurious(_) => WaitKeeps(w, contents, step);
    case Recheck(_) => WaitKeeps(w, contents, step);
    case _ => GuardsKeep(w, contents, step);
  }

  // ---------------------------------------------------------------- main results

  /** No wake-up is lost: in every reachable state, with the lock free, a thread still parked
      means the set is not settled. */
  lemma NoWakeUpIsLost(capacity: nat, steps: seq<Step>)
    ensures var w := Run(capacity, steps); w.parked != {} ==> !Settled(w.state)
  {
    InvariantHolds(capacity, steps);
  }

  /** A caller leaves `wait_settled` only at a moment when nothing is in flight, no failure is
      being reported and no transition is under way, whatever the set could not track. */
  lemma ReleasedOnlyWhenNothingIsInFlight(capacity: nat, steps: seq<Step>, step: Step)
    requires step.Enter? || step.Recheck?
    requires var w := Run(capacity, steps);
             && (step.Enter? ==> step.thread !in w.parked + w.awake)
             && (step.Recheck? ==> step.thread in w.awake)
             && step.thread !in Next(w, step).parked
    ensures var w := Run(capacity, steps); w.inFlight == multiset{} && w.state.failing == 0 && w.state.transitions == 0
  {
    InvariantHolds(capacity, steps);
    var contents := Contents(capacity, steps);
    assert forall key :: key !in contents;
  }

  /** The counters never leave their machine range: nothing underflows, the tracked requests
      never exceed the capacity, and the total is zero exactly when no key is left. */
  lemma CountersStayInRange(capacity: nat, steps: seq<Step>)
    ensures var s := Run(capacity, steps).state;
            && 0 <= s.tracked <= capacity
            && s.failing >= 0 && s.transitions >= 0 && s.waiters >= 0
            && (forall key :: key in s.keys ==> s.keys[key] >= 1)
            && (s.tracked == 0 <==> s.keys == map[])
  {
    InvariantHolds(capacity, steps);
    CapacityIsFixed(capacity, steps);
    EmptyTogether(Run(capacity, steps).state.keys, Contents(capacity, steps));
  }

  lemma EmptyTogether(keys: map<Key, int>, contents: multiset<Key>)
    requires Represents(keys, contents)
    ensures |contents| == 0 <==> keys == map[]
  {
    if keys == map[] {
      assert forall key :: key !in contents;
    } else {
      var key :| key in keys;
      assert key in contents;
    }
  }

  lemma StepKeepsCapacity(w: World, step: Step)
    ensures Next(w, step).state.capacity == w.state.capacity
  {
  }

  lemma {:induction false} CapacityIsFixed(capacity: nat, steps: seq<Step>)
    ensures Run(capacity, steps).state.capacity == capacity
    decreases |steps|
  {
    if steps != [] {
      CapacityIsFixed(capacity, steps[..|steps| - 1]);
      StepKeepsCapacity(Run(capacity, steps[..|steps| - 1]), steps[|steps| - 1]);
      hide Next;
    }
  }

  // ---------------------------------------------------------------- per-key accounting

  /** Requests begun for `key` since the last fail or clear. */
  function Begins(steps: seq<Step>, key: Key): nat {
    if steps == [] then 0
    else
      var before := Begins(steps[..|steps| - 1], key);
      match steps[|steps| - 1]
      case Begin(k) => if k == key then before + 1 else before
      case Clear => 0
      case Fail => 0
      case _ => before
  }

  /** Replies for `key` since the last fail or clear, from connections of the current epoch. */
  function Settles(capacity: nat, steps: seq<Step>, key: Key): nat {
    if steps == [] then 0
    else
      var before := Settles(capacity, steps[..|steps| - 1], key);
      match steps[|steps| - 1]
      case Settle(epoch, k) => if k == key && epoch == Run(capacity, steps[..|steps| - 1]).state.epoch then before + 1 else before
      case Clear => 0
      case Fail => 0
      case _ => before
  }

  /** Replies for `key` since the last fail or clear, from connections of the current epoch, that
      found every request of the key answered already: strays and repeats. */
  function Strays(capacity: nat, steps: seq<Step>, key: Key): nat {
    if steps == [] then 0
    else
      var prefix := steps[..|steps| - 1];
      var before := Strays(capacity, prefix, key);
      match steps[|steps| - 1]
      case Settle(epoch, k) =>
        if k == key && epoch == Run(capacity, prefix).state.epoch && Settles(capacity, prefix, key) == Begins(prefix, key) + before
        then before + 1 else before
      case Clear => 0
      case Fail => 0
      case _ => before
  }

  /** The requests in flight are a per-epoch ledger of what was begun and answered, in every run:
      a stray or repeated reply takes nothing off it. */
  lemma {:induction false} InFlightIsTheLedger(capacity: nat, steps: seq<Step>, key: Key)
    ensures Run(capacity, steps).inFlight[key] == Begins(steps, key) - Settles(capacity, steps, key) + Strays(capacity, steps, key)
    decreases |steps|
  {
    if steps != [] {
      var before := steps[..|steps| - 1];
      InFlightIsTheLedger(capacity, before, key);
      StepInFlight(Run(capacity, before), steps[|steps| - 1], key);
      hide Next;
    }
  }

  /** The set refines that ledger: without an overflow each key's count is its balance, and so the
      requests begun minus the replies if and only if no reply was a stray. */
  lemma {:induction false} CountIsTheLedger(capacity: nat, steps: seq<Step>, key: Key)
    requires !Run(capacity, steps).state.overflowed
    ensures var begun, answered, strays := Begins(steps, key), Settles(capacity, steps, key), Strays(capacity, steps, key);
            && Count(Run(capacity, steps).state, key) == begun - answered + strays
            && (Count(Run(capacity, steps).state, key) == begun - answered <==> strays == 0)
  {
    InvariantHolds(capacity, steps);
    InFlightIsTheLedger(capacity, steps, key);
    hide Begins, Settles, Strays;
  }

  lemma StepInFlight(w: World, step: Step, key: Key)
    ensures Next(w, step).inFlight[key]
            == match step
               case Begin(k) => w.inFlight[key] + (if k == key then 1 else 0)
               case Settle(epoch, k) => if k == key && epoch == w.state.epoch && w.inFlight[key] > 0 then w.inFlight[key] - 1 else w.inFlight[key]
               case Clear => 0
               case Fail => 0
               case _ => w.inFlight[key]
  {
  }

  lemma StepKeepsEpochOrder(w: World, step: Step)
    ensures w.state.epoch <= Next(w, step).state.epoch
    ensures step.Clear? || step.Fail? ==> w.state.epoch < Next(w, step).state.epoch
  {
  }

  lemma {:induction false} EpochsOnlyGrow(capacity: nat, steps: seq<Step>, n: nat)
    requires n <= |steps|
    ensures Run(capacity, steps[..n]).state.epoch <= Run(capacity, steps).state.epoch
    decreases |steps|
  {
    if n == |steps| {
      assert steps[..n] == steps;
    } else {
      var before := steps[..|steps| - 1];
      EpochsOnlyGrow(capacity, before, n);
      assert before[..n] == steps[..n];
      StepKeepsEpochOrder(Run(capacity, before), steps[|steps| - 1]);
      hide Next;
    }
  }

  /** A connection that captured its epoch before a fail or clear settles nothing ever after,
      even for a key a newer request reuses. */
  lemma {:induction false} LateReplySettlesNothing(capacity: nat, steps: seq<Step>, captured: nat, reset: nat, key: Key)
    requires captured <= reset < |steps| && (steps[reset].Clear? || steps[reset].Fail?)
    ensures var epoch := Run(capacity, steps[..captured]).state.epoch;
            Run(capacity, steps + [Settle(epoch, key)]) == Run(capacity, steps)
  {
    hide Next;
    var epoch := Run(capacity, steps[..captured]).state.epoch;
    assert epoch < Run(capacity, steps).state.epoch by {
      EpochsOnlyGrow(capacity, steps[..reset], captured);
      assert steps[..reset][..captured] == steps[..captured];
      StepKeepsEpochOrder(Run(capacity, steps[..reset]), steps[reset]);
      RunAppend(capacity, steps[..reset], steps[reset]);
      assert steps[..reset] + [steps[reset]] == steps[..reset + 1];
      EpochsOnlyGrow(capacity, steps, reset + 1);
    }
    RunAppend(capacity, steps, Settle(epoch, key));
    StaleIsIgnored(Run(capacity, steps), epoch, key);
  }

  lemma RunAppend(capacity: nat, steps: seq<Step>, step: Step)
    ensures Run(capacity, steps + [step]) == Next(Run(capacity, steps), step)
  {
    assert (steps + [step])[..|steps|] == steps;
    hide Next;
  }

  lemma StaleIsIgnored(w: World, epoch: nat, key: Key)
    requires epoch != w.state.epoch
    ensures Next(w, Settle(epoch, key)) == w
  {
  }

  // ---------------------------------------------------------------- when a caller is released

  /** Transitions begun and not yet dropped. */
  function OpenTransitions(steps: seq<Step>): nat {
    if steps == [] then 0
    else
      var before := OpenTransitions(steps[..|steps| - 1]);
      match steps[|steps| - 1]
      case StartTransition => before + 1
      case DropTransition => if before == 0 then 0 else before - 1
      case _ => before
  }

  /** Failures taken and not yet reported. */
  function OpenFailures(steps: seq<Step>): nat {
    if steps == [] then 0
    else
      var before := OpenFailures(steps[..|steps| - 1]);
      match steps[|steps| - 1]
      case Fail => before + 1
      case DropFailing => if before == 0 then 0 else before - 1
      case _ => before
  }

  lemma StepCountsGuards(w: World, step: Step)
    ensures var t := Next(w, step).state;
            && t.transitions == (match step
                                 case StartTransition => w.state.transitions + 1
                                 case DropTransition => if w.state.transitions <= 0 then w.state.transitions else w.state.transitions - 1
                                 case _ => w.state.transitions)
            && t.failing == (match step
                             case Fail => w.state.failing + 1
                             case DropFailing => if w.state.failing <= 0 then w.state.failing else w.state.failing - 1
                             case _ => w.state.failing)
  {
  }

  /** The counters are the guards held, in every run. */
  lemma {:induction false} CountersAreOpenGuards(capacity: nat, steps: seq<Step>)
    ensures Run(capacity, steps).state.transitions == OpenTransitions(steps)
    ensures Run(capacity, steps).state.failing == OpenFailures(steps)
    decreases |steps|
  {
    if steps != [] {
      CountersAreOpenGuards(capacity, steps[..|steps| - 1]);
      StepCountsGuards(Run(capacity, steps[..|steps| - 1]), steps[|steps| - 1]);
      hide Next;
    }
  }

  /** Step `k` found the set full, and nothing has emptied it since. */
  ghost predicate OverflowedAt(capacity: nat, steps: seq<Step>, k: nat) {
    && k < |steps| && steps[k].Begin? && Run(capacity, steps[..k]).state.tracked >= capacity
    && forall j :: k < j < |steps| ==> !steps[j].Clear? && !steps[j].Fail?
  }

  lemma StepOverflows(w: World, step: Step)
    ensures Next(w, step).state.overflowed <==>
              (w.state.overflowed && !step.Clear? && !step.Fail?) || (step.Begin? && w.state.tracked >= w.state.capacity)
    ensures Next(w, step).state.capacity == w.state.capacity
  {
  }

  lemma OverflowGrows(capacity: nat, steps: seq<Step>, step: Step, k: nat)
    ensures OverflowedAt(capacity, steps + [step], k) <==>
              || (OverflowedAt(capacity, steps, k) && !step.Clear? && !step.Fail?)
              || (k == |steps| && step.Begin? && Run(capacity, steps).state.tracked >= capacity)
  {
    hide Run;
    var more := steps + [step];
    assert more[|steps|] == step && forall j :: 0 <= j < |steps| ==> more[j] == steps[j];
    if k < |steps| {
      assert more[..k] == steps[..k];
    } else {
      assert more[..|steps|] == steps;
    }
  }

  /** An overflow is remembered exactly from the request that found the set full to the next clear or
      failure. */
  lemma {:induction false} OverflowIsHistory(capacity: nat, steps: seq<Step>)
    ensures Run(capacity, steps).state.overflowed <==> exists k: nat :: OverflowedAt(capacity, steps, k)
    decreases |steps|
  {
    if steps != [] {
      var before, step := steps[..|steps| - 1], steps[|steps| - 1];
      assert steps == before + [step];
      OverflowIsHistory(capacity, before);
      CapacityIsFixed(capacity, before);
      StepOverflows(Run(capacity, before), step);
      assert Run(capacity, steps) == Next(Run(capacity, before), step);
      forall k: nat ensures OverflowedAt(capacity, steps, k) <==>
                              || (OverflowedAt(capacity, before, k) && !step.Clear? && !step.Fail?)
                              || (k == |before| && step.Begin? && Run(capacity, before).state.tracked >= capacity) {
        OverflowGrows(capacity, before, step, k);
      }
      hide Run, Next, OverflowedAt;
      if step.Begin? && Run(capacity, before).state.tracked >= capacity {
        assert OverflowedAt(capacity, steps, |before|);
      }
    }
  }

  /** A caller that checks is let go exactly if nothing is in flight, no failure is being reported, no
      transition is under way and no overflow is remembered; otherwise it is parked. */
  lemma {:induction false} ReleasedExactlyWhenQuiet(capacity: nat, steps: seq<Step>, step: Step)
    requires step.Enter? || step.Recheck?
    requires var w := Run(capacity, steps);
             (step.Enter? ==> step.thread !in w.parked + w.awake) && (step.Recheck? ==> step.thread in w.awake)
    ensures var w := Run(capacity, steps);
            var t := Next(w, step);
            var quiet := w.inFlight == multiset{} && OpenFailures(steps) == 0 && OpenTransitions(steps) == 0
                         && forall k: nat :: !OverflowedAt(capacity, steps, k);
            if quiet then step.thread !in t.parked + t.awake else step.thread in t.parked
  {
    InvariantHolds(capacity, steps);
    CountersAreOpenGuards(capacity, steps);
    OverflowIsHistory(capacity, steps);
    EmptyKeys(Run(capacity, steps).state, Contents(capacity, steps));
    hide Run, Contents, OpenFailures, OpenTransitions, OverflowedAt;
  }

  lemma EmptyKeys(s: State, contents: multiset<Key>)
    requires Tracks(s, contents)
    ensures s.keys == map[] <==> contents == multiset{}
  {
    assert forall key :: key in s.keys.Keys <==> key in contents;
    assert s.keys == map[] <==> s.keys.Keys == {};
    assert contents == multiset{} <==> forall key :: key !in contents;
  }
}
