/** The replaceable peer writer of the relay (src/transport.rs, `WriterSlot`). One producer
    hands it windows of client bytes; a coordinator replaces, pauses, resumes, ends and closes
    it. Every section under the lock is one step, the condition variable is explicit, and a
    run is any interleaving. */
module WriterSlot {
  import opened Bytes
  import opened Options

  const NEWLINE: u8 := 10

  type Window = seq<u8>

  /** The fields under the lock, the writer aside. */
  datatype Control = Control(
    generation: nat, paused: bool, atBoundary: bool, written: nat, failed: bool, ended: bool, closed: bool)

  const INITIAL: Control := Control(0, false, true, 0, false, false, false)

  function Installed(c: Control, offset: nat): Control {
    c.(generation := c.generation + 1, written := offset, atBoundary := true, failed := false, paused := true)
  }

  function PauseResult(c: Control): Option<nat> {
    if c.paused || c.failed || c.ended || c.closed || !c.atBoundary then None else Some(c.written)
  }

  function TriedPause(c: Control): Control {
    if PauseResult(c).None? then c else c.(paused := true)
  }

  predicate EndsRecord(bytes: Window) {
    bytes == [] || bytes[|bytes| - 1] == NEWLINE
  }

  /** A window written whole and flushed. */
  function Wrote(c: Control, bytes: Window): Control {
    var c := if c.written + |bytes| <= MAX_U64 then c.(written := c.written + |bytes|) else c.(failed := true);
    c.(atBoundary := EndsRecord(bytes))
  }

  // ---------------------------------------------------------------- the object

  /** A transport writer: the windows it took whole, and whether it was half-closed. */
  class Peer {
    var accepted: seq<Window>
    var halfClosed: bool

    constructor ()
      ensures accepted == [] && !halfClosed
    {
      accepted, halfClosed := [], false;
    }

    method ShutdownWrite()
      modifies this
      ensures halfClosed && accepted == old(accepted)
    {
      halfClosed := true;
    }
  }

  class Slot {
    var generation: nat
    var writer: Peer
    var paused: bool
    var atBoundary: bool
    var written: nat
    var failed: bool
    var ended: bool
    var closed: bool

    function View(): Control
      reads this
    {
      Control(generation, paused, atBoundary, written, failed, ended, closed)
    }

    constructor (writer: Peer)
      ensures View() == INITIAL && this.writer == writer
    {
      this.writer := writer;
      generation, paused, atBoundary, written := 0, false, true, 0;
      failed, ended, closed := false, false, false;
    }

    /** A closed slot only half-closes the newcomer; otherwise the newcomer is in place and
        paused, and the writer it replaced is half-closed. */
    method ReplacePaused(next: Peer, offset: nat)
      requires next != writer
      modifies this, writer, next
      ensures old(closed) ==> View() == old(View()) && writer == old(writer) && next.halfClosed
                              && old(writer).halfClosed == old(writer.halfClosed)
      ensures !old(closed) ==> View() == Installed(old(View()), offset) && writer == next
                               && paused && !failed && atBoundary && written == offset && generation == old(generation) + 1
                               && old(writer).halfClosed
                               && next.halfClosed == (old(next.halfClosed) || old(ended))
      ensures next.accepted == old(next.accepted) && old(writer).accepted == old(writer.accepted)
    {
      if closed {
        next.ShutdownWrite();
        return;
      }
      var before := writer;
      writer := next;
      generation, written, atBoundary, failed, paused := generation + 1, offset, true, false, true;
      if ended {
        writer.ShutdownWrite();
      }
      before.ShutdownWrite();
    }

    method TryPause() returns (r: Option<nat>)
      modifies this
      ensures r == PauseResult(old(View())) && View() == TriedPause(old(View())) && writer == old(writer)
    {
      if paused || failed || ended || closed || !atBoundary {
        return None;
      }
      paused := true;
      r := Some(written);
    }

    method Resume()
      modifies this
      ensures View() == old(View()).(paused := false) && writer == old(writer)
    {
      paused := false;
    }

    method Shutdown()
      modifies this, writer
      ensures View() == old(View()).(ended := true) && writer == old(writer)
      ensures writer.halfClosed && writer.accepted == old(writer.accepted)
    {
      ended := true;
      writer.ShutdownWrite();
    }

    method Close()
      modifies this, writer
      ensures View() == old(View()).(closed := true) && writer == old(writer)
      ensures writer.halfClosed && writer.accepted == old(writer.accepted)
    {
      closed := true;
      writer.ShutdownWrite();
    }

    /** `write_observed` once past the pause loop; `ok` is the transport's answer. Returns the
        generation to wait out after a failure. */
    method WriteObserved(bytes: Window, ok: bool) returns (waitFor: Option<nat>)
      requires !paused || closed
      modifies this, writer
      ensures writer == old(writer)
      ensures old(closed) ==> View() == old(View()) && waitFor == None
                              && writer.accepted == old(writer.accepted) && writer.halfClosed == old(writer.halfClosed)
      ensures !old(closed) && ok ==> View() == Wrote(old(View()), bytes) && waitFor == None
                                     && writer.accepted == old(writer.accepted) + [bytes]
                                     && writer.halfClosed == old(writer.halfClosed)
      ensures !old(closed) && !ok ==> View() == old(View()).(failed := true) && waitFor == Some(generation)
                                      && writer.accepted == old(writer.accepted) && writer.halfClosed
    {
      if closed {
        return None;
      }
      if ok {
        writer.accepted := writer.accepted + [bytes];
        if written + |bytes| <= MAX_U64 {
          written := written + |bytes|;
        } else {
          failed := true;
        }
        atBoundary := bytes == [] || bytes[|bytes| - 1] == NEWLINE;
        return None;
      }
      failed := true;
      writer.ShutdownWrite();
      waitFor := Some(generation);
    }
  }

  // ---------------------------------------------------------------- runs

  type Id = nat

  /** What became of one connected writer; `offset` counts its bootstrap bytes. */
  datatype Connection = Connection(offset: nat, accepted: seq<Window>, halfClosed: bool)

  /** Where the one producer is: between windows, at the head of a wait loop with the lock
      within reach, or blocked on the condition variable. */
  datatype Producer =
    | Idle
    | AtPause(window: Window)
    | ParkedPause(window: Window)
    | AtReplacement(generation: nat)
    | ParkedReplacement(generation: nat)

  /** Window number `window` was observed and handed to `writer`, which took it or failed. */
  datatype Handing = Handing(window: int, writer: Id, ok: bool)

  /** `windows` are the producer's windows in order; `closers` are replaced writers whose replacing
      call has released the lock and is about to half-close them. */
  datatype World = World(
    control: Control, writer: Id, connections: map<Id, Connection>, producer: Producer,
    windows: seq<Window>, handed: seq<Handing>, closers: set<Id>)

  datatype Step =
    | Submit(window: Window)
    | Check(ok: bool)
    | Spurious
    | ReplacePaused(id: Id, offset: nat)
    | CloseOld(old_: Id)
    | TryPause
    | Resume
    | Shutdown
    | Close

  function Initial(): World {
    World(INITIAL, 0, map[0 := Connection(0, [], false)], Idle, [], [], {})
  }

  function HalfClosed(connections: map<Id, Connection>, id: Id): map<Id, Connection> {
    if id in connections then connections[id := connections[id].(halfClosed := true)] else connections
  }

  function Woken(p: Producer): Producer {
    match p
    case ParkedPause(w) => AtPause(w)
    case ParkedReplacement(g) => AtReplacement(g)
    case _ => p
  }

  /** The producer takes the lock at the head of its loop. */
  function Checked(w: World, ok: bool): World {
    match w.producer
    case AtPause(window) =>
      if w.control.closed then w.(producer := Idle)
      else if w.control.paused then w.(producer := ParkedPause(window))
      else Delivered(w, window, ok)
    case AtReplacement(g) =>
      if w.control.generation == g && !w.control.closed then w.(producer := ParkedReplacement(g)) else w.(producer := Idle)
    case _ => w
  }

  function Delivered(w: World, window: Window, ok: bool): World {
    var log := w.handed + [Handing(|w.windows| - 1, w.writer, ok)];
    if ok then
      var connections :=
        if w.writer !in w.connections then w.connections
        else w.connections[w.writer := w.connections[w.writer].(accepted := w.connections[w.writer].accepted + [window])];
      w.(control := Wrote(w.control, window), connections := connections, producer := Idle, handed := log)
    else
      w.(control := w.control.(failed := true), connections := HalfClosed(w.connections, w.writer),
         producer := AtReplacement(w.control.generation), handed := log)
  }

  function Replaced(w: World, id: Id, offset: nat): World {
    if id in w.connections then w
    else if w.control.closed then w.(connections := w.connections[id := Connection(offset, [], true)])
    else
      w.(control := Installed(w.control, offset), writer := id,
         connections := w.connections[id := Connection(offset, [], w.control.ended)],
         producer := Woken(w.producer), closers := w.closers + {w.writer})
  }

  function Next(w: World, step: Step): World {
    match step
    case Submit(window) => if w.producer.Idle? then w.(producer := AtPause(window), windows := w.windows + [window]) else w
    case Check(ok) => Checked(w, ok)
    case Spurious => w.(producer := Woken(w.producer))
    case ReplacePaused(id, offset) => Replaced(w, id, offset)
    case CloseOld(old_) =>
      if old_ in w.closers then w.(connections := HalfClosed(w.connections, old_), closers := w.closers - {old_}) else w
    case TryPause => w.(control := TriedPause(w.control))
    case Resume => w.(control := w.control.(paused := false), producer := Woken(w.producer))
    case Shutdown => w.(control := w.control.(ended := true), connections := HalfClosed(w.connections, w.writer))
    case Close =>
      w.(control := w.control.(closed := true), connections := HalfClosed(w.connections, w.writer), producer := Woken(w.producer))
  }

  function Run(steps: seq<Step>): World {
    if steps == [] then Initial() else Next(Run(steps[..|steps| - 1]), steps[|steps| - 1])
  }

  // ---------------------------------------------------------------- invariants

  function Flat(windows: seq<Window>): Window {
    if windows == [] then [] else Flat(windows[..|windows| - 1]) + windows[|windows| - 1]
  }

  /** A window's bytes are in flight towards a writer from its submission to its handing. */
  predicate NotYetHanded(p: Producer) {
    p.AtPause? || p.ParkedPause?
  }

  predicate HandedOnce(w: World) {
    && (forall i, j :: 0 <= i < j < |w.handed| ==> w.handed[i].window < w.handed[j].window)
    && (forall i :: 0 <= i < |w.handed| ==>
          w.handed[i].window < |w.windows| && (NotYetHanded(w.producer) ==> w.handed[i].window < |w.windows| - 1))
    && (forall i :: 0 <= i < |w.handed| ==> 0 <= w.handed[i].window)
    && (NotYetHanded(w.producer) ==> w.windows != [] && w.windows[|w.windows| - 1] == w.producer.window)
  }

  /** The windows a writer was handed and took, in that order. */
  function Taken(handed: seq<Handing>, windows: seq<Window>, id: Id): seq<Window> {
    if handed == [] then []
    else
      var before, h := Taken(handed[..|handed| - 1], windows, id), handed[|handed| - 1];
      if h.ok && h.writer == id && 0 <= h.window < |windows| then before + [windows[h.window]] else before
  }

  predicate Faithful(w: World) {
    forall id :: id in w.connections ==> w.connections[id].accepted == Taken(w.handed, w.windows, id)
  }

  /** After a failure its writer is never handed anything again. */
  predicate NoReplay(handed: seq<Handing>) {
    forall i, j :: 0 <= i < j < |handed| && !handed[i].ok ==> handed[j].writer != handed[i].writer
  }

  predicate Abandoned(w: World) {
    w.producer.AtReplacement? || w.producer.ParkedReplacement?
  }

  predicate FailureContained(w: World) {
    && NoReplay(w.handed)
    && (forall i :: 0 <= i < |w.handed| ==> w.handed[i].writer in w.connections)
    && (forall i :: 0 <= i < |w.handed| && !w.handed[i].ok && w.handed[i].writer == w.writer ==>
          w.control.closed || (Abandoned(w) && w.producer.generation == w.control.generation))
    && (Abandoned(w) ==> w.producer.generation <= w.control.generation)
  }

  predicate HalfClosing(w: World) {
    && w.writer in w.connections
    && (forall id :: id in w.connections && id != w.writer ==> w.connections[id].halfClosed || id in w.closers)
    && w.writer !in w.closers && w.closers <= w.connections.Keys
    && (w.control.ended || w.control.closed ==> w.connections[w.writer].halfClosed)
  }

  predicate Accounting(w: World) {
    && w.writer in w.connections
    && var c := w.connections[w.writer];
    && (!w.control.failed ==> w.control.written == c.offset + |Flat(c.accepted)|)
    && (w.control.atBoundary <==> c.accepted == [] || EndsRecord(c.accepted[|c.accepted| - 1]))
  }

  predicate NothingLost(w: World) {
    && (w.producer.ParkedPause? ==> w.control.paused && !w.control.closed)
    && (w.producer.ParkedReplacement? ==> w.producer.generation == w.control.generation && !w.control.closed)
  }

  predicate Invariant(w: World) {
    HandedOnce(w) && Faithful(w) && FailureContained(w) && HalfClosing(w) && Accounting(w) && NothingLost(w)
  }

  lemma StepKeepsHandedOnce(w: World, step: Step)
    requires HandedOnce(w)
    ensures HandedOnce(Next(w, step))
  {
    hide Delivered, HalfClosed, Installed, TriedPause;
    if w.producer.AtPause? && step.Check? {
      DeliveryKeepsHandedOnce(w, step.ok);
    }
  }

  lemma DeliveryKeepsHandedOnce(w: World, ok: bool)
    requires HandedOnce(w) && w.producer.AtPause?
    ensures HandedOnce(Delivered(w, w.producer.window, ok))
  {
    hide HalfClosed, Wrote;
    var log := w.handed + [Handing(|w.windows| - 1, w.writer, ok)];
    assert forall i :: 0 <= i < |w.handed| ==> log[i] == w.handed[i];
  }

  lemma {:induction false} TakenIsStable(handed: seq<Handing>, windows: seq<Window>, window: Window, id: Id)
    requires forall i :: 0 <= i < |handed| ==> handed[i].window < |windows|
    ensures Taken(handed, windows + [window], id) == Taken(handed, windows, id)
    decreases |handed|
  {
    if handed != [] {
      TakenIsStable(handed[..|handed| - 1], windows, window, id);
    }
  }

  lemma {:induction false} TakenFromNobody(handed: seq<Handing>, windows: seq<Window>, id: Id)
    requires forall i :: 0 <= i < |handed| ==> handed[i].writer != id
    ensures Taken(handed, windows, id) == []
    decreases |handed|
  {
    if handed != [] {
      TakenFromNobody(handed[..|handed| - 1], windows, id);
    }
  }

  lemma DeliveryKeepsFaithful(w: World, ok: bool)
    requires HandedOnce(w) && Faithful(w) && w.producer.AtPause?
    ensures Faithful(Delivered(w, w.producer.window, ok))
  {
    var h := Handing(|w.windows| - 1, w.writer, ok);
    assert (w.handed + [h])[..|w.handed|] == w.handed;
  }

  lemma StepKeepsFaithful(w: World, step: Step)
    requires HandedOnce(w) && Faithful(w) && FailureContained(w)
    ensures Faithful(Next(w, step))
  {
    match step
    case Submit(window) =>
      forall id
        ensures Taken(w.handed, w.windows + [window], id) == Taken(w.handed, w.windows, id)
      {
        TakenIsStable(w.handed, w.windows, window, id);
      }
    case ReplacePaused(id, _) =>
      if id !in w.connections {
        TakenFromNobody(w.handed, w.windows, id);
      }
    case Check(ok) =>
      if w.producer.AtPause? {
        DeliveryKeepsFaithful(w, ok);
      }
      hide Delivered;
    case _ =>
  }

  lemma StepKeepsFailureContained(w: World, step: Step)
    requires FailureContained(w) && w.writer in w.connections
    ensures FailureContained(Next(w, step))
  {
  }

  lemma StepKeepsHalfClosing(w: World, step: Step)
    requires HalfClosing(w)
    ensures HalfClosing(Next(w, step))
  {
  }

  lemma DeliveryKeepsAccounting(w: World, ok: bool)
    requires Accounting(w) && w.producer.AtPause?
    ensures Accounting(Delivered(w, w.producer.window, ok))
  {
    var c, window := w.connections[w.writer], w.producer.window;
    assert (c.accepted + [window])[..|c.accepted|] == c.accepted;
    assert Flat(c.accepted + [window]) == Flat(c.accepted) + window;
    hide Flat;
  }

  lemma StepKeepsAccounting(w: World, step: Step)
    requires Accounting(w)
    ensures Accounting(Next(w, step))
  {
    assert Flat([]) == [];
    if step.Check? && w.producer.AtPause? {
      DeliveryKeepsAccounting(w, step.ok);
    }
    hide Flat;
    hide Delivered;
  }

  lemma StepKeepsNothingLost(w: World, step: Step)
    requires NothingLost(w)
    ensures NothingLost(Next(w, step))
  {
  }

  lemma {:induction false} InvariantHolds(steps: seq<Step>)
    ensures Invariant(Run(steps))
    decreases |steps|
  {
    if steps == [] {
      assert Flat([]) == [];
    } else {
      var w, step := Run(steps[..|steps| - 1]), steps[|steps| - 1];
      InvariantHolds(steps[..|steps| - 1]);
      StepKeepsHandedOnce(w, step);
      StepKeepsFaithful(w, step);
      StepKeepsFailureContained(w, step);
      StepKeepsHalfClosing(w, step);
      StepKeepsAccounting(w, step);
      StepKeepsNothingLost(w, step);
      hide Next;
    }
  }

  // ---------------------------------------------------------------- main results

  /** Over every run, each window is handed to at most one writer, and once a writer failed a
      window neither that window nor any other reaches it again. */
  lemma NoWindowIsReplayed(steps: seq<Step>)
    ensures var h := Run(steps).handed;
            && (forall i, j :: 0 <= i < j < |h| ==> h[i].window != h[j].window)
            && (forall i, j :: 0 <= i < j < |h| && !h[i].ok ==> h[j].writer != h[i].writer)
  {
    InvariantHolds(steps);
  }

  /** Until the slot closes every submitted window is handed on, but for the one in progress. */
  predicate HandsOn(w: World) {
    w.control.closed || |w.handed| == |w.windows| - if NotYetHanded(w.producer) then 1 else 0
  }

  lemma StepHandsOn(w: World, step: Step)
    requires HandsOn(w)
    ensures HandsOn(Next(w, step))
  {
    hide HalfClosed;
  }

  lemma {:induction false} EveryWindowIsHandedOn(steps: seq<Step>)
    ensures var w := Run(steps);
            w.control.closed || |w.handed| == |w.windows| - if NotYetHanded(w.producer) then 1 else 0
    decreases |steps|
  {
    if steps != [] {
      EveryWindowIsHandedOn(steps[..|steps| - 1]);
      StepHandsOn(Run(steps[..|steps| - 1]), steps[|steps| - 1]);
      hide Next;
    }
  }

  /** Conservation: what a writer took is exactly the windows handed to it, whole, in the order
      the producer submitted them. */
  lemma WritersTakeWhatTheyAreHanded(steps: seq<Step>, id: Id)
    requires id in Run(steps).connections
    ensures Run(steps).connections[id].accepted == Taken(Run(steps).handed, Run(steps).windows, id)
  {
    InvariantHolds(steps);
  }

  /** Every replaced writer is half-closed, or the call that replaced it is about to; and the
      current one is as soon as the input ended or the slot closed. */
  lemma {:induction false} EveryWriterIsHalfClosed(steps: seq<Step>)
    ensures var w := Run(steps);
            && w.writer in w.connections
            && (forall id :: id in w.connections && id != w.writer && id !in w.closers ==> w.connections[id].halfClosed)
            && (w.control.ended || w.control.closed ==> w.connections[w.writer].halfClosed)
  {
    InvariantHolds(steps);
  }

  /** The producer is never left blocked: parked before a write means still paused, parked
      after a failure means not yet replaced, and neither once the slot is closed. */
  lemma {:induction false} ProducerIsNeverStranded(steps: seq<Step>)
    ensures var w := Run(steps);
            && (w.producer.ParkedPause? ==> w.control.paused && !w.control.closed)
            && (w.producer.ParkedReplacement? ==> w.producer.generation == w.control.generation && !w.control.closed)
  {
    InvariantHolds(steps);
  }

  predicate NonEmpty(windows: seq<Window>) {
    forall i :: 0 <= i < |windows| ==> windows[i] != []
  }

  /** When `try_pause` grants `n`, the current writer took exactly `n` bytes, its bootstrap
      offset counted in, in whole windows, the last of them empty or ending in a newline; and if no
      window was empty, what it took ends at a record boundary. */
  lemma PauseIsAtBoundary(steps: seq<Step>)
    requires PauseResult(Run(steps).control).Some?
    ensures var w := Run(steps);
            && w.writer in w.connections
            && var c := w.connections[w.writer];
            && PauseResult(w.control) == Some(c.offset + |Flat(c.accepted)|)
            && (c.accepted == [] || EndsRecord(c.accepted[|c.accepted| - 1]))
            && (NonEmpty(c.accepted) ==> EndsRecord(Flat(c.accepted)))
  {
    hide Run, Flat, EndsRecord;
    InvariantHolds(steps);
    NothingFlat();
    var accepted := Run(steps).connections[Run(steps).writer].accepted;
    if accepted != [] {
      FlatEnds(accepted);
    }
  }

  lemma NothingFlat()
    ensures Flat([]) == [] && EndsRecord(Flat([]))
  {
  }

  /** The whole of what was written ends a record exactly when the last window does, unless
      that window is empty and says nothing. */
  lemma FlatEnds(windows: seq<Window>)
    requires windows != []
    ensures var last, front := windows[|windows| - 1], windows[..|windows| - 1];
            EndsRecord(Flat(windows)) <==> if last != [] then EndsRecord(last) else EndsRecord(Flat(front))
  {
    var last, front := windows[|windows| - 1], windows[..|windows| - 1];
    if last == [] {
      assert Flat(front) + last == Flat(front);
    }
  }

  /** No window with bytes was taken, or the last one that has bytes ends a record. */
  predicate LastBytesEnd(windows: seq<Window>) {
    forall k :: 0 <= k < |windows| && windows[k] != [] && (forall j :: k < j < |windows| ==> windows[j] == []) ==>
      EndsRecord(windows[k])
  }

  lemma {:induction false} FlatEndsWithLastBytes(windows: seq<Window>)
    ensures EndsRecord(Flat(windows)) <==> LastBytesEnd(windows)
    decreases |windows|
  {
    if windows == [] {
      assert Flat(windows) == [];
    } else {
      var last, front := windows[|windows| - 1], windows[..|windows| - 1];
      FlatEnds(windows);
      hide Flat, EndsRecord;
      if last == [] {
        FlatEndsWithLastBytes(front);
        assert forall k :: 0 <= k < |front| ==> front[k] == windows[k];
      }
    }
  }

  /** The windows after `k`, at least one, are empty, and `k` left a record unfinished. */
  predicate SplitBy(windows: seq<Window>, k: nat) {
    && k < |windows| - 1 && windows[k] != [] && !EndsRecord(windows[k])
    && forall j :: k < j < |windows| ==> windows[j] == []
  }

  /** Over every run, a granted pause splits a record if and only if an empty window was written
      straight after an unfinished one: without that the flag it relies on is right. */
  lemma {:induction false} PauseSplitsExactlyAfterAnEmptyWindow(steps: seq<Step>)
    requires PauseResult(Run(steps).control).Some?
    ensures var w := Run(steps);
            && w.writer in w.connections
            && var accepted := w.connections[w.writer].accepted;
               !EndsRecord(Flat(accepted)) <==> exists k: nat :: SplitBy(accepted, k)
  {
    InvariantHolds(steps);
    PauseIsAtBoundary(steps);
    var accepted := Run(steps).connections[Run(steps).writer].accepted;
    FlatEndsWithLastBytes(accepted);
    hide Run, Flat, EndsRecord;
    if !LastBytesEnd(accepted) {
      var k :| 0 <= k < |accepted| && accepted[k] != [] && (forall j :: k < j < |accepted| ==> accepted[j] == [])
               && !EndsRecord(accepted[k]);
      assert SplitBy(accepted, k);
    }
  }

  /** The boundary flag is exact after a write if and only if the window was not empty or the
      data already ended a record: an empty window sets it in the middle of one. */
  lemma BoundaryFlagExactUnlessEmptyMidRecord(c: Control, accepted: seq<Window>, window: Window)
    requires c.atBoundary <==> EndsRecord(Flat(accepted))
    ensures (Wrote(c, window).atBoundary <==> EndsRecord(Flat(accepted + [window])))
            <==> (window != [] || EndsRecord(Flat(accepted)))
  {
    FlatEnds(accepted + [window]);
    assert (accepted + [window])[..|accepted|] == accepted;
  }

  /** The failing case, as a run: `a`, then an empty window, then a granted pause. */
  lemma EmptyWindowSplitsARecord()
    ensures var w := Run([Submit([97]), Check(true), Submit([]), Check(true)]);
            && PauseResult(w.control) == Some(1)
            && 0 in w.connections && !EndsRecord(Flat(w.connections[0].accepted))
  {
    var steps := [Submit([97]), Check(true), Submit([]), Check(true)];
    assert steps[..3] == [Submit([97]), Check(true), Submit([])];
    assert steps[..3][..2] == [Submit([97]), Check(true)];
    assert steps[..3][..2][..1] == [Submit([97])];
    assert steps[..3][..2][..1][..0] == [];
    var w2 := Run(steps[..3][..2]);
    assert Run(steps[..3][..2][..1]) == Next(Initial(), Submit([97]));
    assert w2.connections[0].accepted == [[97]] && w2.control.written == 1;
    assert Run(steps[..3]) == Next(w2, Submit([]));
    var accepted := Run(steps).connections[0].accepted;
    assert accepted == [[97], []];
    assert accepted[..1] == [[97]] && accepted[..1][..0] == [];
    assert Flat(accepted[..1][..0]) == [] && Flat(accepted[..1]) == [97];
  }

  /** A granted pause freezes the stream: until a resume nothing is observed or written,
      whatever else happens, a replacement included. */
  lemma {:induction false} PauseFreezes(steps: seq<Step>, more: seq<Step>)
    requires Run(steps).control.paused
    requires forall i :: 0 <= i < |more| ==> !more[i].Resume?
    ensures Run(steps + more).control.paused && Run(steps + more).handed == Run(steps).handed
    decreases |more|
  {
    if more == [] {
      assert steps + more == steps;
    } else {
      var n := |more| - 1;
      PauseFreezes(steps, more[..n]);
      assert (steps + more)[..|steps + more| - 1] == steps + more[..n];
      StepFreezes(Run(steps + more[..n]), more[n]);
      hide Next;
    }
  }

  lemma StepFreezes(w: World, step: Step)
    requires w.control.paused && !step.Resume?
    ensures Next(w, step).control.paused && Next(w, step).handed == w.handed
  {
  }

  lemma {:induction false} RunTwo(steps: seq<Step>, a: Step, b: Step)
    ensures Run(steps + [a]) == Next(Run(steps), a) && Run(steps + [a, b]) == Next(Next(Run(steps), a), b)
  {
    hide Next;
    assert (steps + [a])[..|steps|] == steps;
    assert (steps + [a, b])[..|steps| + 1] == steps + [a];
  }

  /** A granted pause holds from the call that asked for it. */
  lemma {:induction false} GrantedPauseFreezes(steps: seq<Step>, more: seq<Step>)
    requires PauseResult(Run(steps).control).Some?
    requires forall i :: 0 <= i < |more| ==> !more[i].Resume?
    ensures Run(steps + [TryPause] + more).handed == Run(steps).handed
  {
    RunTwo(steps, TryPause, TryPause);
    hide Run;
    PauseFreezes(steps + [TryPause], more);
  }

  /** A replacement holds everything back until a resume: nothing reaches the newcomer before. */
  lemma {:induction false} ReplacementFreezes(steps: seq<Step>, id: Id, offset: nat, more: seq<Step>)
    requires !Run(steps).control.closed && id !in Run(steps).connections
    requires forall i :: 0 <= i < |more| ==> !more[i].Resume?
    ensures Run(steps + [ReplacePaused(id, offset)] + more).handed == Run(steps).handed
    ensures Run(steps + [ReplacePaused(id, offset)]).writer == id
  {
    RunTwo(steps, ReplacePaused(id, offset), Resume);
    hide Run;
    PauseFreezes(steps + [ReplacePaused(id, offset)], more);
  }

  /** After a resume of an open slot a waiting window goes to the current writer at once. */
  lemma {:induction false} ResumeReleasesTheWindow(steps: seq<Step>, ok: bool)
    requires !Run(steps).control.closed && NotYetHanded(Run(steps).producer)
    ensures var w := Run(steps);
            Run(steps + [Resume, Check(ok)]).handed == w.handed + [Handing(|w.windows| - 1, w.writer, ok)]
  {
    RunTwo(steps, Resume, Check(ok));
    hide Run;
  }

  /** A producer that waits out a failed write goes on once the writer is replaced. */
  lemma {:induction false} ReplacementReleasesTheProducer(steps: seq<Step>, id: Id, offset: nat, ok: bool)
    requires !Run(steps).control.closed && id !in Run(steps).connections
    requires Run(steps).producer.AtReplacement? || Run(steps).producer.ParkedReplacement?
    ensures Run(steps + [ReplacePaused(id, offset), Check(ok)]).producer == Idle
  {
    RunTwo(steps, ReplacePaused(id, offset), Check(ok));
    InvariantHolds(steps);
    hide Run;
  }

  /** Closing lets a producer go wherever it waits. */
  lemma {:induction false} CloseReleasesTheProducer(steps: seq<Step>, ok: bool)
    ensures Run(steps + [Close, Check(ok)]).producer == Idle
  {
    RunTwo(steps, Close, Check(ok));
    hide Run;
  }

  // ---------------------------------------------------------------- when a pause is granted

  /** A window the current writer was handed failed. */
  ghost predicate Stumbled(w: World) {
    exists i :: 0 <= i < |w.handed| && w.handed[i].writer == w.writer && !w.handed[i].ok
  }

  /** It took more bytes than a 64-bit count holds. */
  predicate Overrun(w: World) {
    && w.writer in w.connections && w.connections[w.writer].accepted != []
    && w.connections[w.writer].offset + |Flat(w.connections[w.writer].accepted)| > MAX_U64
  }

  ghost predicate FlagTrue(w: World) {
    w.control.failed <==> Stumbled(w) || Overrun(w)
  }

  lemma DeliveryKeepsFlag(w: World, ok: bool)
    requires Accounting(w) && FlagTrue(w) && w.producer.AtPause?
    ensures FlagTrue(Delivered(w, w.producer.window, ok))
  {
    var t, h := Delivered(w, w.producer.window, ok), Handing(|w.windows| - 1, w.writer, ok);
    assert t.handed == w.handed + [h] && t.handed[|w.handed|] == h;
    assert forall i :: 0 <= i < |w.handed| ==> t.handed[i] == w.handed[i];
    var c := w.connections[w.writer];
    if ok {
      assert (c.accepted + [w.producer.window])[..|c.accepted|] == c.accepted;
      EmptyIsFlat(c.accepted);
    }
  }

  lemma EmptyIsFlat(windows: seq<Window>)
    ensures windows == [] ==> |Flat(windows)| == 0
  {
  }

  lemma ReplacingKeepsFlag(w: World, id: Id, offset: nat)
    requires Invariant(w) && FlagTrue(w)
    ensures FlagTrue(Replaced(w, id, offset))
  {
  }

  lemma StepKeepsFlag(w: World, step: Step)
    requires Invariant(w) && FlagTrue(w)
    ensures FlagTrue(Next(w, step))
  {
    hide Invariant, Delivered, Replaced, Flat;
    match step
    case Check(ok) => if w.producer.AtPause? { Accounts(w); DeliveryKeepsFlag(w, ok); }
    case ReplacePaused(id, offset) => ReplacingKeepsFlag(w, id, offset);
    case _ =>
  }

  lemma Accounts(w: World)
    requires Invariant(w)
    ensures Accounting(w)
  {
  }

  lemma {:induction false} FlagIsTrue(steps: seq<Step>)
    ensures FlagTrue(Run(steps))
    decreases |steps|
  {
    if steps != [] {
      FlagIsTrue(steps[..|steps| - 1]);
      InvariantHolds(steps[..|steps| - 1]);
      StepKeepsFlag(Run(steps[..|steps| - 1]), steps[|steps| - 1]);
      hide Next, Invariant, FlagTrue;
    }
  }

  lemma {:induction false} EndedAndClosed(steps: seq<Step>)
    ensures Run(steps).control.ended <==> exists k :: 0 <= k < |steps| && steps[k].Shutdown?
    ensures Run(steps).control.closed <==> exists k :: 0 <= k < |steps| && steps[k].Close?
    decreases |steps|
  {
    if steps != [] {
      var before := steps[..|steps| - 1];
      EndedAndClosed(before);
      assert forall k :: 0 <= k < |before| ==> steps[k] == before[k];
      StepEndsAndCloses(Run(before), steps[|steps| - 1]);
      hide Next;
    }
  }

  lemma StepEndsAndCloses(w: World, step: Step)
    ensures Next(w, step).control.ended <==> w.control.ended || step.Shutdown?
    ensures Next(w, step).control.closed <==> w.control.closed || step.Close?
  {
    hide HalfClosed;
  }

  /** Over every run a pause is granted exactly if none is in force, the input has not ended, the slot
      was not closed, the current writer neither failed nor overran its count, and the last window
      it took, if any, is empty or ends in a newline. */
  lemma {:induction false} PauseIsGrantedExactly(steps: seq<Step>)
    ensures var w := Run(steps);
            && w.writer in w.connections
            && var accepted := w.connections[w.writer].accepted;
            && (PauseResult(w.control).Some? <==>
                  && !w.control.paused
                  && (forall k :: 0 <= k < |steps| ==> !steps[k].Shutdown? && !steps[k].Close?)
                  && !Stumbled(w) && !Overrun(w)
                  && (accepted == [] || accepted[|accepted| - 1] == [] || accepted[|accepted| - 1][|accepted[|accepted| - 1]| - 1] == NEWLINE))
  {
    InvariantHolds(steps);
    FlagIsTrue(steps);
    EndedAndClosed(steps);
    hide Run, Stumbled, Overrun, Flat;
  }

  lemma RunOne(steps: seq<Step>, step: Step)
    ensures Run(steps + [step]) == Next(Run(steps), step)
  {
    hide Next;
    assert (steps + [step])[..|steps|] == steps;
  }

  /** The call that replaced a writer half-closes it, once it gets to it; and a newcomer to a closed
      slot is half-closed at once and given nothing. */
  lemma {:induction false} ReplacementsAreHalfClosed(steps: seq<Step>, id: Id, offset: nat)
    ensures id in Run(steps).closers ==>
              var t := Run(steps + [CloseOld(id)]); id !in t.closers && id in t.connections && t.connections[id].halfClosed
    ensures Run(steps).control.closed && id !in Run(steps).connections ==>
              var t := Run(steps + [ReplacePaused(id, offset)]);
              && id in t.connections && t.connections[id] == Connection(offset, [], true)
              && t.writer == Run(steps).writer && t.control == Run(steps).control
  {
    InvariantHolds(steps);
    RunOne(steps, CloseOld(id));
    RunOne(steps, ReplacePaused(id, offset));
    hide Run;
  }

  /** The producer blocks exactly while it has to: before a write while the slot is paused, after a
      failure until the writer is replaced, and never on a closed slot. */
  lemma {:induction false} ProducerParksExactly(steps: seq<Step>, ok: bool)
    ensures var w, t := Run(steps), Run(steps + [Check(ok)]);
            && (w.producer.AtPause? ==> (t.producer.ParkedPause? <==> w.control.paused && !w.control.closed))
            && (w.producer.AtReplacement? ==>
                  (t.producer.ParkedReplacement? <==> w.producer.generation == w.control.generation && !w.control.closed))
  {
    RunOne(steps, Check(ok));
    hide Run;
  }
}
