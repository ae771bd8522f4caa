/** WATCH: the lifecycle subscription (src/control/watch.rs, src/control.rs, src/lifecycle.rs).

    The updaters and the server of one subscription run concurrently. Every lock-protected
    section, atomic access and channel operation is one step; a run is any interleaving of
    steps. `serve_watch` samples the published selection, the drain state and the readiness
    flag at three different instants. The client rejects any event that is inconsistent in
    itself or with the one before it. Both ends are proved to fit under every interleaving,
    and the server is proved never to sleep through a change. */
module Watch {
  import opened Bytes
  import Gate = Lifecycle
  import opened Options

  const WATCH_OPERATION: nat := 8

  /** One process's identity, and the request id of the subscription it serves. */
  datatype Service = Service(processId: nat, generation: nat, build: string, requestId: nat)

  datatype Published = Published(generation: Option<nat>, build: string, retiring: bool)

  datatype Change = Snapshot | Ready | Draining | SelectionChanged | Retiring

  datatype Event = Event(
    processId: nat, generation: nat, build: string, ready: bool, draining: bool,
    selected: Published, change: Change, sequence: nat)

  datatype MessageKind = Lifecycle | Application

  /** The control frame; its payload codec is lossless, so the frame carries the event. */
  datatype Control = Control(
    kind: MessageKind, operation: nat, requestId: nat, generation: nat,
    token: seq<int>, offset: Option<nat>, payload: Event)

  // ---------------------------------------------------------------- shared state, updaters

  /** `notifying`: a `mark_ready` call has swapped the flag and not yet notified.
      `retirements`: `mark_retiring` calls between closing admission and publishing.
      `gate` is the request gate, and its version and `version` count the sends of the two
      watch channels. */
  datatype Shared = Shared(
    ready: bool, notifying: bool, gate: Gate.State, retirements: nat, published: Published, version: nat)

  datatype Update =
    | MarkReadySwap
    | MarkReadyNotify
    | BeginRequest
    | FinishRequest
    | StartDrain
    | RetireDrain
    | RetirePublish
    | CommitSelection(generation: nat, build: string)

  function InitialShared(): Shared {
    Shared(false, false, Gate.State(false, 0, 0, []), 0, Published(None, "", false), 0)
  }

  function Drained(s: Shared): Shared {
    s.(gate := Gate.Drained(s.gate))
  }

  predicate MovesBack(p: Published, generation: nat, build: string) {
    p.generation.Some? && (generation < p.generation.value || (generation == p.generation.value && build != p.build))
  }

  predicate CommitRefused(c: Service, p: Published, generation: nat, build: string) {
    (generation == c.generation && build != c.build) || MovesBack(p, generation, build)
  }

  function Updated(c: Service, s: Shared, u: Update): Shared {
    match u
    case MarkReadySwap => if s.ready then s else s.(ready := true, notifying := true)
    case MarkReadyNotify => if s.notifying then s.(notifying := false, version := s.version + 1) else s
    case BeginRequest => s.(gate := Gate.Admitted(s.gate))
    case FinishRequest => if s.gate.active == 0 then s else s.(gate := Gate.Released(s.gate))
    case StartDrain => Drained(s)
    case RetireDrain => Drained(s).(retirements := s.retirements + 1)
    case RetirePublish =>
      if s.retirements == 0 then s
      else if s.published.retiring then s.(retirements := s.retirements - 1)
      else s.(retirements := s.retirements - 1, published := s.published.(retiring := true), version := s.version + 1)
    case CommitSelection(generation, build) =>
      if CommitRefused(c, s.published, generation, build) || s.published.generation == Some(generation) then s
      else s.(published := s.published.(generation := Some(generation), build := build), version := s.version + 1)
  }

  /** The updater calls as the service object makes them. */
  class ControlService {
    const service: Service
    var shared: Shared

    constructor (service: Service)
      ensures this.service == service && shared == InitialShared()
    {
      this.service := service;
      this.shared := InitialShared();
    }

    method MarkReady()
      modifies this
      ensures shared.ready && (!old(shared.ready) ==> !shared.notifying && shared.version == old(shared.version) + 1)
      ensures shared == if old(shared.ready) then old(shared)
                        else Updated(service, Updated(service, old(shared), MarkReadySwap), MarkReadyNotify)
    {
      var was := shared.ready;
      shared := shared.(ready := true);
      if !was {
        shared := shared.(notifying := true);
        shared := shared.(notifying := false, version := shared.version + 1);
      }
    }

    method StartDrain() returns (first: bool)
      modifies this
      ensures first == !old(shared.gate.draining) && shared.gate.draining
      ensures shared == Updated(service, old(shared), Update.StartDrain)
    {
      var gate := shared.gate;
      if gate.draining {
        return false;
      }
      gate := gate.(draining := true, events := gate.events + [Gate.DrainStarted]);
      if gate.active == 0 {
        gate := gate.(events := gate.events + [Gate.DrainCompleted]);
      }
      shared := shared.(gate := gate.(version := gate.version + 1));
      first := true;
    }

    method MarkRetiring()
      modifies this
      ensures shared.gate.draining && shared.published.retiring
      ensures shared == Updated(service, Updated(service, old(shared), RetireDrain), RetirePublish)
    {
      var _ := StartDrain();
      shared := shared.(retirements := shared.retirements + 1);
      if !shared.published.retiring {
        shared := shared.(published := shared.published.(retiring := true), version := shared.version + 1);
      }
      shared := shared.(retirements := shared.retirements - 1);
    }

    method SelectionCommitted(generation: nat, build: string) returns (ok: bool)
      modifies this
      ensures ok <==> (generation == service.generation ==> build == service.build)
                      && (old(shared.published.generation).Some? ==>
                            generation > old(shared.published.generation).value
                            || (generation == old(shared.published.generation).value && build == old(shared.published.build)))
      ensures ok ==> shared.published.generation == Some(generation) && shared.published.build == build
      ensures ok == !CommitRefused(service, old(shared.published), generation, build)
      ensures shared == Updated(service, old(shared), CommitSelection(generation, build))
    {
      if generation == service.generation && build != service.build {
        return false;
      }
      var p := shared.published;
      if (p.generation.Some? && generation < p.generation.value) || (Some(generation) == p.generation && build != p.build) {
        return false;
      }
      if Some(generation) != p.generation {
        shared := shared.(published := p.(generation := Some(generation), build := build), version := shared.version + 1);
      }
      ok := true;
    }
  }

  // ---------------------------------------------------------------- the server

  /** `Lifecycle::draining` inside the select: it checks the state after noting the channel
      version, and otherwise waits for the version to move. */
  datatype Arm = Off | Checking(noted: nat) | Waiting(noted: nat)

  datatype Pc =
    | Unsubscribed
    | Borrowing
    | SamplingDrain(published: Published)
    | SamplingReady(published: Published, draining: bool)
    | Comparing(event: Event)
    | Parked(arm: Arm)
    | Stopped

  datatype Server = Server(pc: Pc, seen: nat, previous: Option<Event>, sequence: nat, sent: seq<Control>)

  datatype Action = Subscribe | Borrow | SampleDrain | SampleReady | Compare | WakePublished | ArmCheck | ArmWake | Fail

  function InitialServer(): Server {
    Server(Unsubscribed, 0, None, 0, [])
  }

  function Kinds(old_: Event, new_: Event): seq<Change> {
    (if new_.ready != old_.ready && new_.ready then [Change.Ready] else [])
    + (if new_.draining != old_.draining then [Change.Draining] else [])
    + (if new_.selected.generation != old_.selected.generation then [SelectionChanged] else [])
    + (if new_.selected.retiring != old_.selected.retiring then [Change.Retiring] else [])
  }

  function Frame(c: Service, event: Event): Control {
    Control(MessageKind.Lifecycle, WATCH_OPERATION, c.requestId, c.generation, [], None, event)
  }

  /** Send `event` next, or stop when the sequence is exhausted. */
  function Sent(c: Service, v: Server, event: Event): Server {
    if v.sequence == MAX_U64 then v.(pc := Stopped)
    else
      var e := event.(sequence := v.sequence + 1);
      Server(Borrowing, v.seen, Some(e), v.sequence + 1, v.sent + [Frame(c, e)])
  }

  function Compared(c: Service, s: Shared, v: Server, event: Event): Server {
    if v.previous.None? then Sent(c, v, event)
    else
      var kinds := Kinds(v.previous.value, event);
      if kinds == [] then v.(pc := Parked(if event.draining then Off else Checking(s.gate.version)))
      else Sent(c, v, event.(change := if |kinds| == 1 then kinds[0] else Snapshot))
  }

  function Served(c: Service, s: Shared, v: Server, a: Action): Server {
    match (a, v.pc)
    case (Subscribe, Unsubscribed) => v.(pc := Borrowing, seen := s.version)
    case (Borrow, Borrowing) => v.(pc := SamplingDrain(s.published), seen := s.version)
    case (SampleDrain, SamplingDrain(p)) => v.(pc := SamplingReady(p, s.gate.draining))
    case (SampleReady, SamplingReady(p, d)) =>
      v.(pc := Comparing(Event(c.processId, c.generation, c.build, s.ready && !d, d, p, Snapshot, 0)))
    case (Compare, Comparing(event)) => Compared(c, s, v, event)
    case (WakePublished, Parked(_)) => if v.seen == s.version then v else v.(pc := Borrowing, seen := s.version)
    case (ArmCheck, Parked(Checking(n))) => if s.gate.draining then v.(pc := Borrowing) else v.(pc := Parked(Waiting(n)))
    case (ArmWake, Parked(Waiting(n))) => if n == s.gate.version then v else v.(pc := Parked(Checking(s.gate.version)))
    case (Fail, _) => v.(pc := Stopped)
    case _ => v
  }

  datatype State = State(shared: Shared, server: Server)
  datatype Step = Updater(update: Update) | Serving(action: Action)

  function Next(c: Service, s: State, step: Step): State {
    match step
    case Updater(u) => s.(shared := Updated(c, s.shared, u))
    case Serving(a) => s.(server := Served(c, s.shared, s.server, a))
  }

  function Run(c: Service, steps: seq<Step>): State {
    if steps == [] then State(InitialShared(), InitialServer())
    else Next(c, Run(c, steps[..|steps| - 1]), steps[|steps| - 1])
  }

  // ---------------------------------------------------------------- the client

  datatype Decoded = Good(event: Event) | Bad

  predicate ValidEvent(e: Event, reply: Control) {
    && e.processId != 0
    && e.generation == reply.generation
    && !(e.selected.generation.None? && e.selected.build != "")
    && !(e.selected.generation == Some(e.generation) && e.selected.build != e.build)
    && !(e.change == SelectionChanged && e.selected.generation.None?)
    && !(e.ready && e.draining)
    && !(e.selected.retiring && !e.draining)
    && !(e.change == Change.Ready && !e.ready)
    && !(e.change == Change.Draining && !e.draining)
    && !(e.change == Change.Retiring && !e.selected.retiring)
  }

  function DecodeEvent(reply: Control, requestId: nat): Decoded {
    if reply.kind == MessageKind.Lifecycle && reply.operation == WATCH_OPERATION && reply.requestId == requestId
       && reply.token == [] && reply.offset.None? && ValidEvent(reply.payload, reply)
    then Good(reply.payload) else Bad
  }

  /** Selections are ordered as optional numbers: none before any. */
  predicate SelectionLess(a: Option<nat>, b: Option<nat>) {
    b.Some? && (a.None? || a.value < b.value)
  }

  predicate Continues(latest: Event, e: Event) {
    && e.sequence == latest.sequence + 1 && e.sequence <= MAX_U64
    && e.processId == latest.processId && e.generation == latest.generation && e.build == latest.build
    && !SelectionLess(e.selected.generation, latest.selected.generation)
    && !(e.selected.generation == latest.selected.generation && e.selected.build != latest.selected.build)
    && !(latest.draining && !e.draining)
    && !(latest.selected.retiring && !e.selected.retiring)
  }

  class WatchClient {
    const requestId: nat
    var latest: Event
    var failed: bool

    /** The initial snapshot of a subscription; a `failed` client stands for the error. */
    constructor (requestId: nat, reply: Control)
      ensures this.requestId == requestId
      ensures failed <==> DecodeEvent(reply, requestId).Bad? || reply.payload.sequence != 1 || reply.payload.change != Snapshot
      ensures !failed ==> latest == reply.payload
    {
      this.requestId := requestId;
      latest := reply.payload;
      failed := DecodeEvent(reply, requestId).Bad? || reply.payload.sequence != 1 || reply.payload.change != Snapshot;
    }

    /** One `changed` call on the next frame. An error is terminal. */
    method Changed(reply: Control) returns (ok: bool)
      modifies this
      ensures ok <==> !old(failed) && DecodeEvent(reply, requestId).Good? && Continues(old(latest), reply.payload)
      ensures ok ==> latest == reply.payload
      ensures !ok ==> latest == old(latest)
      ensures failed == !ok
      ensures ok ==> reply.requestId == requestId && reply.kind == MessageKind.Lifecycle && reply.operation == WATCH_OPERATION
      ensures ok ==> latest.sequence == old(latest).sequence + 1
                     && latest.processId == old(latest).processId && latest.generation == old(latest).generation
                     && latest.build == old(latest).build
      ensures ok ==> (old(latest).draining ==> latest.draining) && (old(latest).selected.retiring ==> latest.selected.retiring)
      ensures ok ==> (old(latest).selected.generation.Some? ==>
                        latest.selected.generation.Some?
                        && latest.selected.generation.value >= old(latest).selected.generation.value
                        && (latest.selected.generation == old(latest).selected.generation ==>
                              latest.selected.build == old(latest).selected.build))
      ensures ok ==> !(latest.ready && latest.draining) && (latest.selected.retiring ==> latest.draining)
      ensures ok ==> latest.processId != 0 && latest.generation == reply.generation
                     && (latest.selected.generation.None? ==> latest.selected.build == "")
                     && (latest.selected.generation == Some(latest.generation) ==> latest.selected.build == latest.build)
      ensures ok ==> match latest.change
                     case Ready => latest.ready
                     case Draining => latest.draining
                     case SelectionChanged => latest.selected.generation.Some?
                     case Retiring => latest.selected.retiring
                     case Snapshot => true
    {
      if failed {
        return false;
      }
      failed := true;
      var decoded := DecodeEvent(reply, requestId);
      if decoded.Bad? || !Continues(latest, decoded.event) {
        return false;
      }
      latest := decoded.event;
      failed := false;
      ok := true;
    }
  }

  /** A subscription's frames as the client reads them: accepted from the first to the last. */
  predicate Accepted(requestId: nat, frames: seq<Control>) {
    && (forall i :: 0 <= i < |frames| ==> DecodeEvent(frames[i], requestId).Good?)
    && (frames != [] ==> frames[0].payload.sequence == 1 && frames[0].payload.change == Snapshot)
    && (forall i :: 0 < i < |frames| ==> Continues(frames[i - 1].payload, frames[i].payload))
  }

  /** A client that connects on the first accepted frame and follows the rest never fails. */
  method Follow(requestId: nat, frames: seq<Control>) returns (client: WatchClient)
    requires frames != [] && Accepted(requestId, frames)
    ensures fresh(client) && !client.failed && client.latest == frames[|frames| - 1].payload
  {
    client := new WatchClient(requestId, frames[0]);
    for i := 1 to |frames|
      invariant fresh(client) && client.requestId == requestId
      invariant !client.failed && client.latest == frames[i - 1].payload
    {
      var ok := client.Changed(frames[i]);
      assert ok;
    }
  }

  // ---------------------------------------------------------------- invariants

  /** `b` is `a` or a later publication. */
  predicate Later(a: Published, b: Published) {
    && (SelectionLess(a.generation, b.generation) || (a.generation == b.generation && a.build == b.build))
    && (a.retiring ==> b.retiring)
  }

  predicate ValidPublished(c: Service, p: Published) {
    && (p.generation.None? ==> p.build == "")
    && (p.generation == Some(c.generation) ==> p.build == c.build)
  }

  predicate ValidShared(c: Service, s: Shared) {
    && ValidPublished(c, s.published)
    && (s.published.retiring ==> s.gate.draining)
    && (s.retirements > 0 ==> s.gate.draining)
    && (s.notifying ==> s.ready)
  }

  /** A published sample is no newer than the truth, and if it is older a wake-up is due. */
  predicate SampleOk(c: Service, s: Shared, v: Server, p: Published) {
    && ValidPublished(c, p)
    && Later(p, s.published)
    && (p != s.published ==> v.seen < s.version)
    && (p.retiring ==> s.gate.draining)
    && (v.previous.Some? ==> Later(v.previous.value.selected, p))
  }

  /** What holds of an event built from the three samples. */
  predicate EventOk(c: Service, s: Shared, v: Server, e: Event) {
    && SampleOk(c, s, v, e.selected)
    && e.processId == c.processId && e.generation == c.generation && e.build == c.build
    && (e.draining ==> s.gate.draining)
    && (e.selected.retiring ==> e.draining)
    && (e.ready ==> s.ready && !e.draining)
    && (s.ready && !e.ready ==> e.draining || s.notifying || v.seen < s.version)
    && (v.previous.Some? ==> Advances(v.previous.value, e))
  }

  /** The order of a subscription's events, sequence and change kind aside. */
  predicate Advances(old_: Event, new_: Event) {
    && new_.processId == old_.processId && new_.generation == old_.generation && new_.build == old_.build
    && Later(old_.selected, new_.selected)
    && (old_.draining ==> new_.draining)
    && (old_.ready && !new_.ready ==> new_.draining && !old_.draining)
  }

  predicate PreviousOk(c: Service, s: Shared, e: Event) {
    && e.processId == c.processId && e.generation == c.generation && e.build == c.build
    && Later(e.selected, s.published)
    && (e.draining ==> s.gate.draining)
    && (e.ready ==> s.ready && !e.draining)
  }

  predicate PcOk(c: Service, s: Shared, v: Server) {
    match v.pc
    case SamplingDrain(p) => SampleOk(c, s, v, p)
    case SamplingReady(p, d) =>
      && SampleOk(c, s, v, p) && (d ==> s.gate.draining) && (p.retiring ==> d)
      && (v.previous.Some? && v.previous.value.draining ==> d)
    case Comparing(e) => EventOk(c, s, v, e) && e.change == Snapshot
    case Parked(arm) =>
      && v.previous.Some?
      && EventOk(c, s, v.(previous := None), v.previous.value)
      && (arm.Off? <==> v.previous.value.draining)
      && (!arm.Off? ==> arm.noted <= s.gate.version)
      && (arm.Waiting? && s.gate.draining ==> arm.noted < s.gate.version)
    case _ => true
  }

  predicate Invariant(c: Service, s: State) {
    var v := s.server;
    && ValidShared(c, s.shared)
    && v.seen <= s.shared.version
    && |v.sent| == v.sequence <= MAX_U64
    && (v.previous.Some? <==> v.sent != [])
    && (v.previous.Some? ==> PreviousOk(c, s.shared, v.previous.value) && v.sent[|v.sent| - 1] == Frame(c, v.previous.value)
                             && v.previous.value.sequence == v.sequence)
    && PcOk(c, s.shared, v)
    && Accepted(c.requestId, v.sent)
    && ExactKinds(v.sent)
  }

  // ---------------------------------------------------------------- change kinds

  /** The change kind says exactly what moved: a named kind means that field and no other, and
      a later snapshot means at least two. A drain may also take readiness away. */
  predicate ExactKind(old_: Event, new_: Event) {
    var selection := new_.selected.generation != old_.selected.generation;
    var retiring := new_.selected.retiring != old_.selected.retiring;
    var draining := new_.draining != old_.draining;
    var readied := new_.ready && !old_.ready;
    match new_.change
    case Ready => readied && !draining && !selection && !retiring
    case Draining => draining && new_.draining && !new_.ready && !selection && !retiring
    case SelectionChanged => SelectionLess(old_.selected.generation, new_.selected.generation)
                             && new_.ready == old_.ready && !draining && !retiring
    case Retiring => retiring && new_.selected.retiring && new_.ready == old_.ready && !draining && !selection
    case Snapshot =>
      || (readied && draining) || (readied && selection) || (readied && retiring)
      || (draining && selection) || (draining && retiring) || (selection && retiring)
  }

  predicate ExactKinds(frames: seq<Control>) {
    forall i :: 0 < i < |frames| ==> ExactKind(frames[i - 1].payload, frames[i].payload)
  }

  // ---------------------------------------------------------------- preservation

  /** What an update may change, as far as a subscription is concerned. */
  predicate Onward(s: Shared, t: Shared) {
    && Later(s.published, t.published)
    && s.version <= t.version && s.gate.version <= t.gate.version
    && (s.published != t.published ==> s.version < t.version)
    && (s.ready ==> t.ready) && (s.gate.draining ==> t.gate.draining)
    && (t.ready && !s.ready ==> t.notifying)
    && (s.notifying ==> t.notifying || s.version < t.version)
    && (t.gate.draining && !s.gate.draining ==> s.gate.version < t.gate.version)
  }

  lemma UpdateKeepsShared(c: Service, s: Shared, u: Update)
    requires ValidShared(c, s)
    ensures ValidShared(c, Updated(c, s, u)) && Onward(s, Updated(c, s, u))
  {
  }

  lemma LaterIsTransitive(a: Published, b: Published, d: Published)
    requires Later(a, b) && Later(b, d)
    ensures Later(a, d)
  {
  }

  lemma OnwardKeepsPrevious(c: Service, s: Shared, t: Shared, e: Event)
    requires Onward(s, t) && PreviousOk(c, s, e)
    ensures PreviousOk(c, t, e)
  {
    LaterIsTransitive(e.selected, s.published, t.published);
  }

  lemma OnwardKeepsPc(c: Service, s: Shared, t: Shared, v: Server)
    requires Onward(s, t) && ValidShared(c, t) && v.seen <= s.version && PcOk(c, s, v)
    ensures PcOk(c, t, v)
  {
    match v.pc
    case SamplingDrain(p) => LaterIsTransitive(p, s.published, t.published);
    case SamplingReady(p, _) => LaterIsTransitive(p, s.published, t.published);
    case Comparing(e) => LaterIsTransitive(e.selected, s.published, t.published);
    case Parked(_) => LaterIsTransitive(v.previous.value.selected, s.published, t.published);
    case _ =>
  }

  lemma UpdateKeepsInvariant(c: Service, s: State, u: Update)
    requires Invariant(c, s)
    ensures Invariant(c, Next(c, s, Updater(u)))
  {
    hide Updated, ExactKinds, Accepted, PcOk, PreviousOk, ValidShared;
    var t := Updated(c, s.shared, u);
    UpdateKeepsShared(c, s.shared, u);
    OnwardKeepsPc(c, s.shared, t, s.server);
    if s.server.previous.Some? {
      OnwardKeepsPrevious(c, s.shared, t, s.server.previous.value);
    }
  }

  /** An event that advances on the previous one, sent with the kind `serve_watch` computes,
      passes every check of the client and its kind is exact. */
  lemma SentIsAccepted(c: Service, s: Shared, v: Server, event: Event)
    requires c.processId != 0
    requires EventOk(c, s, v, event) && event.change == Snapshot
    requires v.previous.Some? && v.previous.value.sequence == v.sequence < MAX_U64
    requires PreviousOk(c, s, v.previous.value)
    requires Kinds(v.previous.value, event) != []
    ensures var kinds := Kinds(v.previous.value, event);
            var e := event.(change := if |kinds| == 1 then kinds[0] else Snapshot, sequence := v.sequence + 1);
            && DecodeEvent(Frame(c, e), c.requestId).Good?
            && Continues(v.previous.value, e)
            && ExactKind(v.previous.value, e)
  {
  }

  lemma FirstIsAccepted(c: Service, s: Shared, v: Server, event: Event)
    requires c.processId != 0
    requires EventOk(c, s, v, event) && event.change == Snapshot
    ensures DecodeEvent(Frame(c, event.(sequence := 1)), c.requestId).Good?
  {
  }

  lemma ExtendSent(requestId: nat, frames: seq<Control>, frame: Control)
    requires Accepted(requestId, frames) && ExactKinds(frames)
    requires DecodeEvent(frame, requestId).Good?
    requires frames == [] ==> frame.payload.sequence == 1 && frame.payload.change == Snapshot
    requires frames != [] ==> Continues(frames[|frames| - 1].payload, frame.payload)
                              && ExactKind(frames[|frames| - 1].payload, frame.payload)
    ensures Accepted(requestId, frames + [frame]) && ExactKinds(frames + [frame])
  {
    hide Continues;
    hide ExactKind;
    hide DecodeEvent;
  }

  lemma SendKeepsInvariant(c: Service, s: State, event: Event)
    requires Invariant(c, s)
    requires s.server.sequence < MAX_U64
    requires PreviousOk(c, s.shared, event)
    requires var e := event.(sequence := s.server.sequence + 1);
             && DecodeEvent(Frame(c, e), c.requestId).Good?
             && (s.server.previous.None? ==> e.change == Snapshot)
             && (s.server.previous.Some? ==> Continues(s.server.previous.value, e) && ExactKind(s.server.previous.value, e))
    ensures Invariant(c, s.(server := Sent(c, s.server, event)))
  {
    hide Continues;
    hide ExactKind;
    hide DecodeEvent;
    hide Accepted;
    hide ExactKinds;
    ExtendSent(c.requestId, s.server.sent, Frame(c, event.(sequence := s.server.sequence + 1)));
  }

  lemma CompareKeepsInvariant(c: Service, s: State)
    requires c.processId != 0
    requires Invariant(c, s) && s.server.pc.Comparing?
    ensures Invariant(c, Next(c, s, Serving(Compare)))
  {
    hide Continues;
    hide ExactKind;
    hide DecodeEvent;
    hide Accepted;
    hide ExactKinds;
    var v, event := s.server, s.server.pc.event;
    if v.previous.None? {
      FirstIsAccepted(c, s.shared, v, event);
      SendKeepsInvariant(c, s, event);
    } else {
      var kinds := Kinds(v.previous.value, event);
      if kinds == [] {
        NoKindsMeansSame(v.previous.value, event);
      } else if v.sequence < MAX_U64 {
        SentIsAccepted(c, s.shared, v, event);
        hide Kinds;
        SendKeepsInvariant(c, s, event.(change := if |kinds| == 1 then kinds[0] else Snapshot));
      }
    }
  }

  /** When `serve_watch` finds nothing to report, the event it built says what the last one
      said: readiness is only ever lost to a drain, which would itself be reported. */
  lemma NoKindsMeansSame(old_: Event, new_: Event)
    requires Advances(old_, new_) && Kinds(old_, new_) == []
    ensures new_.ready == old_.ready && new_.draining == old_.draining && new_.selected == old_.selected
  {
  }

  lemma ActionKeepsInvariant(c: Service, s: State, a: Action)
    requires c.processId != 0
    requires Invariant(c, s)
    ensures Invariant(c, Next(c, s, Serving(a)))
  {
    if a == Compare && s.server.pc.Comparing? {
      CompareKeepsInvariant(c, s);
    } else {
      hide ExactKinds;
      hide Accepted;
      hide Compared;
    }
  }

  lemma {:induction false} InvariantHolds(c: Service, steps: seq<Step>)
    requires c.processId != 0
    ensures Invariant(c, Run(c, steps))
    decreases |steps|
  {
    if steps != [] {
      var s := Run(c, steps[..|steps| - 1]);
      InvariantHolds(c, steps[..|steps| - 1]);
      match steps[|steps| - 1]
      case Updater(u) => UpdateKeepsInvariant(c, s, u);
      case Serving(a) => ActionKeepsInvariant(c, s, a);
    }
  }

  // ---------------------------------------------------------------- main results

  /** Under every interleaving, the client accepts every event of the subscription, and every
      change kind is exact. */
  lemma EveryEventIsAccepted(c: Service, steps: seq<Step>)
    requires c.processId != 0
    ensures Accepted(c.requestId, Run(c, steps).server.sent)
    ensures ExactKinds(Run(c, steps).server.sent)
  {
    InvariantHolds(c, steps);
  }

  /** What a subscriber is told about, as it is now. */
  predicate Reports(e: Event, s: Shared) {
    e.ready == (s.ready && !s.gate.draining) && e.draining == s.gate.draining && e.selected == s.published
  }

  /** Something will bring the parked server back to its samples: a version it has not seen,
      the drain arm about to fire, or a `mark_ready` about to notify. */
  predicate WakePending(s: Shared, v: Server) {
    || v.seen != s.version
    || s.notifying
    || (v.pc.Parked? && s.gate.draining && (v.pc.arm.Checking? || (v.pc.arm.Waiting? && v.pc.arm.noted != s.gate.version)))
  }

  /** `serve_watch` never parks on a lost change. */
  lemma NoChangeIsLost(c: Service, steps: seq<Step>)
    requires c.processId != 0
    ensures var s := Run(c, steps);
            s.server.pc.Parked? ==>
              && s.server.previous.Some?
              && (Reports(s.server.previous.value, s.shared) || WakePending(s.shared, s.server))
  {
    InvariantHolds(c, steps);
  }

  /** So once the server can take no further step and no updater is in flight, the last event
      the client accepted is the truth. */
  lemma QuiescentMeansUpToDate(c: Service, steps: seq<Step>)
    requires c.processId != 0
    requires var s := Run(c, steps);
             && !s.server.pc.Stopped? && !s.shared.notifying
             && (forall a :: a != Fail ==> Served(c, s.shared, s.server, a) == s.server)
    ensures var s := Run(c, steps);
            s.server.sent != [] && Reports(s.server.sent[|s.server.sent| - 1].payload, s.shared)
  {
    InvariantHolds(c, steps);
    var s := Run(c, steps);
    assert Served(c, s.shared, s.server, WakePublished) == s.server;
    assert Served(c, s.shared, s.server, ArmCheck) == s.server;
    assert Served(c, s.shared, s.server, ArmWake) == s.server;
    if !s.server.pc.Parked? {
      UnparkedMoves(c, s.shared, s.server);
    }
  }

  /** A server that is neither parked nor stopped always has a step to take. */
  lemma UnparkedMoves(c: Service, s: Shared, v: Server)
    requires !v.pc.Parked? && !v.pc.Stopped?
    ensures exists a :: a != Fail && Served(c, s, v, a) != v
  {
    match v.pc
    case Unsubscribed => assert Served(c, s, v, Subscribe) != v;
    case Borrowing => assert Served(c, s, v, Borrow) != v;
    case SamplingDrain(_) => assert Served(c, s, v, SampleDrain) != v;
    case SamplingReady(_, _) => assert Served(c, s, v, SampleReady) != v;
    case Comparing(_) => assert Served(c, s, v, Compare) != v;
  }

  lemma ServingStops(c: Service, s: Shared, v: Server, a: Action)
    requires a != Fail && (v.pc.Stopped? ==> v.sequence == MAX_U64)
    ensures Served(c, s, v, a).pc.Stopped? ==> Served(c, s, v, a).sequence == MAX_U64
  {
  }

  /** The server never gives up a subscription: unless its connection fails it stops only when the
      sequence numbers are used up. */
  lemma {:induction false} ServerStopsOnlyWhenExhausted(c: Service, steps: seq<Step>)
    requires forall k :: 0 <= k < |steps| ==> steps[k] != Serving(Fail)
    ensures var v := Run(c, steps).server; v.pc.Stopped? ==> v.sequence == MAX_U64
    decreases |steps|
  {
    if steps != [] {
      var s, step := Run(c, steps[..|steps| - 1]), steps[|steps| - 1];
      ServerStopsOnlyWhenExhausted(c, steps[..|steps| - 1]);
      if step.Serving? {
        ServingStops(c, s.shared, s.server, step.action);
      }
      hide Served, Updated;
    }
  }

  // ---------------------------------------------------------------- what is reported

  ghost predicate Happened(steps: seq<Step>, u: Update) {
    exists k :: 0 <= k < |steps| && steps[k] == Updater(u)
  }

  lemma HappenedGrows(steps: seq<Step>, u: Update)
    requires steps != []
    ensures Happened(steps, u) <==> Happened(steps[..|steps| - 1], u) || steps[|steps| - 1] == Updater(u)
  {
    var before := steps[..|steps| - 1];
    assert forall k :: 0 <= k < |before| ==> steps[k] == before[k];
    if Happened(before, u) {
      var k :| 0 <= k < |before| && before[k] == Updater(u);
      assert steps[k] == Updater(u);
    }
  }

  /** The state the events report is what the calls have made it: ready and draining exactly since the
      first such call, and retiring at the latest when no retirement call is under way. */
  lemma {:induction false} FlagsAreHistory(c: Service, steps: seq<Step>)
    ensures var s := Run(c, steps).shared;
            && (s.ready <==> Happened(steps, MarkReadySwap))
            && (s.gate.draining <==> Happened(steps, StartDrain) || Happened(steps, RetireDrain))
            && (s.published.retiring || s.retirements > 0 <==> Happened(steps, RetireDrain))
    decreases |steps|
  {
    hide Happened, Updated, Served;
    if steps != [] {
      var before, step := steps[..|steps| - 1], steps[|steps| - 1];
      FlagsAreHistory(c, before);
      HappenedGrows(steps, MarkReadySwap);
      HappenedGrows(steps, StartDrain);
      HappenedGrows(steps, RetireDrain);
      if step.Updater? {
        UpdateFlags(c, Run(c, before).shared, step.update);
      }
    } else {
      NothingHappened();
    }
  }

  lemma NothingHappened()
    ensures forall u :: !Happened([], u)
  {
  }

  lemma UpdateFlags(c: Service, s: Shared, u: Update)
    ensures var t := Updated(c, s, u);
            && (t.ready <==> s.ready || u.MarkReadySwap?)
            && (t.gate.draining <==> s.gate.draining || u.StartDrain? || u.RetireDrain?)
            && (t.published.retiring <==> s.published.retiring || (u.RetirePublish? && s.retirements > 0))
            && (t.retirements > 0 ==> s.retirements > 0 || u.RetireDrain?)
            && (u.RetireDrain? ==> t.retirements > 0)
            && (s.retirements > 0 ==> t.retirements > 0 || t.published.retiring)
  {
  }

  /** A commit that does not name this process's generation with another build. */
  predicate Proper(c: Service, step: Step) {
    && step.Updater? && step.update.CommitSelection?
    && (step.update.generation == c.generation ==> step.update.build == c.build)
  }

  /** The published selection is the highest generation properly committed, with a build it was
      committed with. */
  lemma {:induction false} SelectionIsTheHighestCommit(c: Service, steps: seq<Step>)
    ensures var p := Run(c, steps).shared.published;
            && (forall k :: 0 <= k < |steps| && Proper(c, steps[k]) ==>
                  p.generation.Some? && steps[k].update.generation <= p.generation.value)
            && (p.generation.Some? ==>
                  exists k :: 0 <= k < |steps| && Proper(c, steps[k])
                              && steps[k].update.generation == p.generation.value && steps[k].update.build == p.build)
    decreases |steps|
  {
    if steps != [] {
      var before, step := steps[..|steps| - 1], steps[|steps| - 1];
      SelectionIsTheHighestCommit(c, before);
      assert forall k :: 0 <= k < |before| ==> steps[k] == before[k];
      if step.Updater? {
        UpdateSelects(c, Run(c, before).shared, step.update);
      }
      hide Updated, Served;
    }
  }

  lemma UpdateSelects(c: Service, s: Shared, u: Update)
    ensures var p, q := s.published, Updated(c, s, u).published;
            if Proper(c, Updater(u)) && (p.generation.None? || u.generation > p.generation.value)
            then q.generation == Some(u.generation) && q.build == u.build
            else q.generation == p.generation && q.build == p.build
  {
  }

  // ---------------------------------------------------------------- catching up

  predicate UpToDate(s: Shared, v: Server) {
    v.previous.Some? && Reports(v.previous.value, s)
  }

  /** The samples in hand are of the present. */
  predicate Present(s: Shared, v: Server) {
    && v.seen == s.version
    && match v.pc
       case SamplingDrain(p) => p == s.published
       case SamplingReady(p, d) => p == s.published && d == s.gate.draining
       case Comparing(e) => Reports(e, s)
       case _ => true
  }

  /** How far a server is from waiting with nothing left to say, if nobody updates anything. */
  function Distance(s: Shared, v: Server): nat {
    var round := if UpToDate(s, v) then 0 else 4;
    match v.pc
    case Unsubscribed => 9
    case Borrowing => round + 4
    case SamplingDrain(_) => if Present(s, v) then round + 3 else 14
    case SamplingReady(_, _) => if Present(s, v) then round + 2 else 13
    case Comparing(_) => if Present(s, v) then round + 1 else 12
    case Parked(arm) => if UpToDate(s, v) then 0 else if arm.Waiting? then 10 else 9
    case Stopped => 0
  }

  /** What it does next. */
  function Onwards(s: Shared, v: Server): Action {
    match v.pc
    case Unsubscribed => Subscribe
    case Borrowing => Borrow
    case SamplingDrain(_) => SampleDrain
    case SamplingReady(_, _) => SampleReady
    case Comparing(_) => Compare
    case Parked(arm) => if v.seen != s.version then WakePublished else if arm.Checking? then ArmCheck else ArmWake
    case Stopped => Fail
  }

  predicate Waits(s: Shared, v: Server) {
    v.pc.Parked? && UpToDate(s, v)
  }

  lemma ComparesOn(c: Service, s: Shared, v: Server)
    requires PcOk(c, s, v) && v.pc.Comparing? && v.sequence < MAX_U64
    requires !s.notifying
    ensures var t := Served(c, s, v, Compare);
            !t.pc.Stopped? && Distance(s, t) < Distance(s, v) && v.sequence <= t.sequence <= v.sequence + 1
  {
    var e := v.pc.event;
    if v.previous.Some? && Kinds(v.previous.value, e) == [] {
      NoKindsMeansSame(v.previous.value, e);
    }
  }

  lemma ParkedMovesOn(c: Service, s: Shared, v: Server)
    requires PcOk(c, s, v) && v.pc.Parked? && !UpToDate(s, v) && !s.notifying
    ensures var t := Served(c, s, v, Onwards(s, v));
            !t.pc.Stopped? && Distance(s, t) < Distance(s, v) && t.sequence == v.sequence
  {
  }

  lemma MovesOn(c: Service, s: Shared, v: Server)
    requires PcOk(c, s, v) && !v.pc.Stopped? && !s.notifying && !Waits(s, v) && v.sequence < MAX_U64
    requires v.pc.Unsubscribed? ==> v.previous.None?
    ensures var t := Served(c, s, v, Onwards(s, v));
            && !t.pc.Stopped? && Distance(s, t) < Distance(s, v) && v.sequence <= t.sequence <= v.sequence + 1
            && (t.pc.Unsubscribed? ==> t.previous.None?)
  {
    hide PcOk;
    if v.pc.Parked? {
      ParkedMovesOn(c, s, v);
    } else if v.pc.Comparing? {
      ComparesOn(c, s, v);
    }
  }

  /** A subscription catches up: from every state any run reaches, with no `mark_ready` between its two
      steps, the server left to itself soon waits, and the last event it sent is the truth. */
  lemma {:induction false} SubscriptionsCatchUp(c: Service, steps: seq<Step>) returns (more: seq<Step>)
    requires c.processId != 0
    requires var s := Run(c, steps);
             !s.server.pc.Stopped? && !s.shared.notifying && s.server.sequence + Distance(s.shared, s.server) < MAX_U64
    ensures |more| <= Distance(Run(c, steps).shared, Run(c, steps).server) <= 14
    ensures forall k :: 0 <= k < |more| ==> more[k].Serving? && more[k].action != Fail
    ensures var s, t := Run(c, steps), Run(c, steps + more);
            && t.shared == s.shared && t.server.pc.Parked?
            && t.server.sent != [] && Reports(t.server.sent[|t.server.sent| - 1].payload, t.shared)
    decreases var s := Run(c, steps); Distance(s.shared, s.server)
  {
    hide Run, Distance, Reports, Onwards;
    var s := Run(c, steps);
    DistanceIsShort(s.shared, s.server);
    if Waits(s.shared, s.server) {
      more := [];
      assert steps + more == steps;
      WaitingHasSent(c, steps);
    } else {
      var step := TakesAStep(c, steps);
      var rest := SubscriptionsCatchUp(c, steps + [step]);
      more := [step] + rest;
      assert steps + [step] + rest == steps + more;
    }
  }

  lemma WaitingHasSent(c: Service, steps: seq<Step>)
    requires c.processId != 0 && Run(c, steps).server.previous.Some?
    ensures var v := Run(c, steps).server; v.sent != [] && v.sent[|v.sent| - 1].payload == v.previous.value
  {
    InvariantHolds(c, steps);
    hide Run;
  }

  lemma TakesAStep(c: Service, steps: seq<Step>) returns (step: Step)
    requires c.processId != 0
    requires var s := Run(c, steps);
             !s.server.pc.Stopped? && !s.shared.notifying && !Waits(s.shared, s.server) && s.server.sequence < MAX_U64
    ensures step.Serving? && step.action != Fail
    ensures var s, t := Run(c, steps), Run(c, steps + [step]);
            && t.shared == s.shared && !t.server.pc.Stopped? && Distance(t.shared, t.server) < Distance(s.shared, s.server)
            && t.server.sequence <= s.server.sequence + 1
  {
    InvariantHolds(c, steps);
    UnsubscribedHasSentNothing(c, steps);
    var s := Run(c, steps);
    step := Serving(Onwards(s.shared, s.server));
    assert (steps + [step])[..|steps|] == steps;
    assert Run(c, steps + [step]) == Next(c, s, step);
    hide Run, Served, PcOk, Distance, Accepted, ExactKinds;
    MovesOn(c, s.shared, s.server);
  }

  lemma DistanceIsShort(s: Shared, v: Server)
    ensures Distance(s, v) <= 14
  {
  }

  lemma {:induction false} UnsubscribedHasSentNothing(c: Service, steps: seq<Step>)
    ensures Run(c, steps).server.pc.Unsubscribed? ==> Run(c, steps).server.previous.None?
    decreases |steps|
  {
    if steps != [] {
      UnsubscribedHasSentNothing(c, steps[..|steps| - 1]);
    }
  }
}
