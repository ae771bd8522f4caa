/** The two-party handshake of src/wire.rs (`Session::connect`, `accept` and `refuse`) and the
    sessions it leads to, over two FIFO byte streams. Either side may write its bytes in any
    pieces, and may fail at any moment; a run is any interleaving. */
module Handshake {
  import opened Bytes
  import opened Numbers
  import opened Options
  import opened Wire

  /** The two offers, the refusal policy of a server that runs `refuse` instead of `accept`,
      and the opaque message codec. */
  datatype Setup = Setup(
    client: Hello, server: Hello, policy: Option<Refused>,
    encode: Hello -> seq<u8>, decode: seq<u8> -> Option<Hello>)

  /** The codec gives back the messages this handshake can send: the two offers and the refusals. */
  ghost predicate Lossless(u: Setup) {
    && u.decode(u.encode(u.client)) == Some(u.client) && u.decode(u.encode(u.server)) == Some(u.server)
    && forall r: Refused :: u.decode(u.encode(RefusalHello(r))) == Some(RefusalHello(r))
  }

  datatype Phase = Opening | AwaitingOffer | Offering | Refusing | Accepting | InSession | Failed

  /** One side. `out` is on the wire, `pending` still to be written, `read` the count of bytes
      consumed from the peer. `refused` is the reason a server sends or a client reports;
      `agreement` is set once negotiation succeeded, and outlives a later failure. */
  datatype Party = Party(
    phase: Phase, out: seq<u8>, pending: seq<u8>, read: nat,
    offered: bool, refused: Option<Refused>, agreement: Option<Agreement>, accepted: bool,
    sent: seq<seq<u8>>, received: seq<seq<u8>>)

  datatype World = World(c: Party, s: Party)

  datatype Side = Client | Server
  datatype Step = Write(side: Side, count: nat) | Advance(side: Side) | Send(side: Side, body: seq<u8>) | Fail(side: Side)

  function Fresh(phase: Phase, pending: seq<u8>): Party {
    Party(phase, [], pending, 0, false, None, None, false, [], [])
  }

  function Initial(u: Setup): World {
    World(Fresh(if ValidHello(u.client) then Opening else Failed, MAGIC),
          if u.policy.Some? || ValidHello(u.server) then Fresh(Opening, []) else Fresh(Failed, []))
  }

  function Written(p: Party, count: nat): Party {
    if p.phase.Failed? then p
    else
      var k := Min(count, |p.pending|);
      p.(out := p.out + p.pending[..k], pending := p.pending[k..])
  }

  function Broken(p: Party): Party {
    p.(phase := Failed)
  }

  // ---------------------------------------------------------------- the client

  /** What the client makes of the server's first message. */
  function ClientReads(u: Setup, p: Party, body: seq<u8>): Party {
    var remote := u.decode(body);
    if remote.None? then Broken(p)
    else
      match CheckRefusal(remote.value)
      case RefusedFor(r) => Broken(p).(refused := Some(r))
      case RefusedUnknown => Broken(p)
      case Offer =>
        var agreement := Negotiate(u.client, remote.value);
        if agreement.None? then Broken(p)
        else p.(phase := Accepting, pending := [1], accepted := true, agreement := agreement)
  }

  function ClientAdvance(u: Setup, p: Party, incoming: seq<u8>): Party {
    if p.pending != [] || p.read > |incoming| then p
    else
      match p.phase
      case Opening =>
        var body := u.encode(u.client);
        if Sendable(body, HELLO_LIMIT) then p.(phase := Offering, pending := Frame(body), offered := true) else Broken(p)
      case Offering =>
        (match ReadFrame(incoming[p.read..], HELLO_LIMIT)
         case NeedMore => p
         case Malformed => Broken(p)
         case Body(body, used) => ClientReads(u, p.(read := p.read + used), body))
      case Accepting =>
        if p.read == |incoming| then p
        else if incoming[p.read] == 1 then p.(phase := InSession, read := p.read + 1)
        else Broken(p)
      case InSession => Receives(p, incoming)
      case _ => p
  }

  /** Either side, once in session, takes the next whole frame. */
  function Receives(p: Party, incoming: seq<u8>): Party
    requires p.read <= |incoming|
  {
    if p.agreement.None? then p
    else
      match ReadFrame(incoming[p.read..], p.agreement.value.maxFrame)
      case NeedMore => p
      case Malformed => Broken(p)
      case Body(body, used) => p.(read := p.read + used, received := p.received + [body])
  }

  // ---------------------------------------------------------------- the server

  function Refuses(u: Setup, p: Party, r: Refused, frame: Option<Hello>): Party {
    if frame.None? then Broken(p)
    else
      var body := u.encode(frame.value);
      if Sendable(body, HELLO_LIMIT) then p.(phase := Refusing, pending := Frame(body), refused := Some(r)) else Broken(p)
  }

  function ServerReads(u: Setup, p: Party, body: seq<u8>): Party {
    var remote := u.decode(body);
    if remote.None? then Broken(p)
    else if u.policy.Some? then Refuses(u, p, u.policy.value, RefusalFrame(u.policy.value, u.server, remote.value))
    else
      var agreement := Negotiate(u.server, remote.value);
      if agreement.None? then Refuses(u, p, TooOld, Rejection(u.server, remote.value))
      else
        var offer := u.encode(u.server);
        if Sendable(offer, HELLO_LIMIT)
        then p.(phase := Offering, pending := Frame(offer), offered := true, agreement := agreement)
        else Broken(p).(agreement := agreement)
  }

  function ServerAdvance(u: Setup, p: Party, incoming: seq<u8>): Party {
    if p.pending != [] || p.read > |incoming| then p
    else
      match p.phase
      case Opening =>
        if |incoming| < |MAGIC| then p
        else if incoming[..|MAGIC|] == MAGIC then p.(phase := AwaitingOffer, read := |MAGIC|)
        else Broken(p)
      case AwaitingOffer =>
        (match ReadFrame(incoming[p.read..], HELLO_LIMIT)
         case NeedMore => p
         case Malformed => Broken(p)
         case Body(body, used) => ServerReads(u, p.(read := p.read + used), body))
      case Refusing => Broken(p)
      case Offering =>
        if p.read == |incoming| then p
        else if incoming[p.read] == 1 then p.(phase := Accepting, read := p.read + 1, pending := [1], accepted := true)
        else Broken(p)
      case Accepting => p.(phase := InSession)
      case InSession => Receives(p, incoming)
      case Failed => p
  }

  // ---------------------------------------------------------------- runs

  function Queued(p: Party, body: seq<u8>): Party {
    if p.phase.InSession? && p.pending == [] && p.agreement.Some? && Sendable(body, p.agreement.value.maxFrame)
    then p.(pending := Frame(body), sent := p.sent + [body]) else p
  }

  function Next(u: Setup, w: World, step: Step): World {
    match step
    case Write(Client, n) => w.(c := Written(w.c, n))
    case Write(Server, n) => w.(s := Written(w.s, n))
    case Advance(Client) => w.(c := ClientAdvance(u, w.c, w.s.out))
    case Advance(Server) => w.(s := ServerAdvance(u, w.s, w.c.out))
    case Send(Client, body) => w.(c := Queued(w.c, body))
    case Send(Server, body) => w.(s := Queued(w.s, body))
    case Fail(Client) => w.(c := Broken(w.c))
    case Fail(Server) => w.(s := Broken(w.s))
  }

  function Run(u: Setup, steps: seq<Step>): World {
    if steps == [] then Initial(u) else Next(u, Run(u, steps[..|steps| - 1]), steps[|steps| - 1])
  }

  // ---------------------------------------------------------------- the intended streams

  predicate Fits(h: Hello, u: Setup) {
    Sendable(u.encode(h), HELLO_LIMIT)
  }

  /** A side's frame of a handshake message; empty while the message cannot be sent at all. */
  function HelloFrame(u: Setup, h: Hello): seq<u8> {
    if Fits(h, u) then Frame(u.encode(h)) else []
  }

  function AcceptByte(accepted: bool): seq<u8> {
    if accepted then [1] else []
  }

  predicate Bounded(bodies: seq<seq<u8>>) {
    forall i :: 0 <= i < |bodies| ==> 0 < |bodies[i]| <= MAX_FRAME
  }

  function SessionBytes(sent: seq<seq<u8>>): seq<u8> {
    if Bounded(sent) then Frames(sent) else []
  }

  function ClientHello(u: Setup, offered: bool): seq<u8> {
    MAGIC + if offered then HelloFrame(u, u.client) else []
  }

  function ServerHello(u: Setup, offered: bool, refused: Option<Refused>): seq<u8> {
    if offered then HelloFrame(u, u.server)
    else if refused.Some? then HelloFrame(u, RefusalHello(refused.value)) else []
  }

  function Stream(hello: seq<u8>, accepted: bool, sent: seq<seq<u8>>): seq<u8> {
    hello + (AcceptByte(accepted) + SessionBytes(sent))
  }

  /** Everything a side has committed to write so far. */
  function ClientStream(u: Setup, p: Party): seq<u8> {
    Stream(ClientHello(u, p.offered), p.accepted, p.sent)
  }

  function ServerStream(u: Setup, p: Party): seq<u8> {
    Stream(ServerHello(u, p.offered, p.refused), p.accepted, p.sent)
  }

  // ---------------------------------------------------------------- invariants

  predicate WellSent(sent: seq<seq<u8>>, accepted: bool, agreement: Option<Agreement>) {
    && Bounded(sent)
    && (sent != [] ==> accepted && agreement.Some?)
    && (agreement.Some? ==> forall i :: 0 <= i < |sent| ==> |sent[i]| <= agreement.value.maxFrame)
  }

  predicate WellReceived(received: seq<seq<u8>>, sent: seq<seq<u8>>) {
    received <= sent && Bounded(received)
  }

  predicate ClientShape(u: Setup, c: Party) {
    && c.out + c.pending == ClientStream(u, c)
    && (c.offered ==> Fits(u.client, u))
    && (c.agreement.Some? <==> c.accepted)
    && (c.accepted ==> c.offered)
    && WellSent(c.sent, c.accepted, c.agreement)
  }

  predicate ClientOk(u: Setup, c: Party, s: Party) {
    && ClientShape(u, c)
    && (c.accepted ==> s.offered && c.agreement == Negotiate(u.client, u.server))
    && (c.refused.Some? ==> s.refused == c.refused || (s.offered && u.server.refusal == Code(c.refused.value)))
    && WellReceived(c.received, s.sent)
    && (!c.phase.InSession? && !c.phase.Failed? ==> c.received == [] && c.sent == [])
    && match c.phase
       case Opening => !c.offered && !c.accepted && c.read == 0
       case Offering => c.offered && !c.accepted && c.read == 0
       case Accepting => c.accepted && c.read == |ServerHello(u, s.offered, s.refused)|
       case InSession => c.accepted && s.accepted && c.read == |ServerHello(u, s.offered, s.refused)| + 1 + |Frames(c.received)|
       case Failed => true
       case _ => false
  }

  predicate ServerShape(u: Setup, s: Party) {
    && s.out + s.pending == ServerStream(u, s)
    && (s.offered ==> Fits(u.server, u) && s.refused.None? && s.agreement.Some?)
    && (s.refused.Some? ==> Fits(RefusalHello(s.refused.value), u))
    && (s.accepted ==> s.offered)
    && WellSent(s.sent, s.accepted, s.agreement)
  }

  predicate ServerOk(u: Setup, s: Party, c: Party) {
    && ServerShape(u, s)
    && (s.agreement.Some? ==> c.offered && s.agreement == Negotiate(u.server, u.client))
    && (s.accepted ==> c.accepted)
    && WellReceived(s.received, c.sent)
    && (!s.phase.InSession? && !s.phase.Failed? ==> s.received == [] && s.sent == [])
    && match s.phase
       case Opening => !s.offered && s.refused.None? && s.agreement.None? && s.read == 0
       case AwaitingOffer => !s.offered && s.refused.None? && s.agreement.None? && s.read == |MAGIC|
       case Offering => s.offered && !s.accepted && s.read == |ClientHello(u, true)|
       case Refusing => s.refused.Some?
       case Accepting => s.accepted && s.read == |ClientHello(u, true)| + 1
       case InSession => s.accepted && s.read == |ClientHello(u, true)| + 1 + |Frames(s.received)|
       case Failed => true
  }

  predicate Invariant(u: Setup, w: World) {
    ClientOk(u, w.c, w.s) && ServerOk(u, w.s, w.c) && w.c.read <= |w.s.out| && w.s.read <= |w.c.out|
  }

  // ---------------------------------------------------------------- streams

  /** What has arrived beyond a known part of the stream is the beginning of what follows. */
  lemma Available(out: seq<u8>, pending: seq<u8>, before: seq<u8>, rest: seq<u8>)
    requires out + pending == before + rest
    requires |before| <= |out|
    ensures out[|before|..] <= rest
  {
    var n := |out| - |before|;
    assert rest[..n] == (before + rest)[|before|..|out|];
    assert out[|before|..] == (out + pending)[|before|..|out|];
  }

  lemma Cancel(a: seq<u8>, x: seq<u8>, y: seq<u8>)
    requires a + x == a + y
    ensures x == y
  {
    assert (a + x)[|a|..] == x && (a + y)[|a|..] == y;
  }

  lemma {:induction false} FramesFrom(bodies: seq<seq<u8>>, n: nat) returns (tail: seq<u8>)
    requires Bounded(bodies) && n < |bodies|
    ensures Frames(bodies) == Frames(bodies[..n]) + (Frame(bodies[n]) + tail)
    decreases |bodies|
  {
    hide Frame;
    var m := |bodies| - 1;
    if n == m {
      tail := [];
      assert Frame(bodies[n]) + [] == Frame(bodies[n]);
    } else {
      var front := bodies[..m];
      var rest := FramesFrom(front, n);
      assert front[..n] == bodies[..n];
      tail := rest + Frame(bodies[m]);
      assert (Frames(bodies[..n]) + (Frame(bodies[n]) + rest)) + Frame(bodies[m])
          == Frames(bodies[..n]) + (Frame(bodies[n]) + tail);
    }
  }

  lemma FramesAppend(bodies: seq<seq<u8>>, body: seq<u8>)
    requires Bounded(bodies) && 0 < |body| <= MAX_FRAME
    ensures Bounded(bodies + [body]) && Frames(bodies + [body]) == Frames(bodies) + Frame(body)
  {
    assert (bodies + [body])[..|bodies|] == bodies;
  }

  /** Reading a handshake message that the peer has, or has not, begun to write. */
  lemma ReadsHello(u: Setup, avail: seq<u8>, hello: Hello, tail: seq<u8>)
    requires Fits(hello, u) && avail <= HelloFrame(u, hello) + tail
    ensures ReadFrame(avail, HELLO_LIMIT)
            == if |avail| < |HelloFrame(u, hello)| then NeedMore else Body(u.encode(hello), |HelloFrame(u, hello)|)
  {
    ReadFrameOfPrefix(avail, u.encode(hello), tail, HELLO_LIMIT);
  }

  /** In session the next frame is the next body the peer sent, or not all there yet. */
  lemma ReceivesNext(avail: seq<u8>, sent: seq<seq<u8>>, n: nat, limit: nat, head: seq<u8>)
    requires Bounded(sent) && n <= |sent| && limit <= MAX_FRAME
    requires forall i :: 0 <= i < |sent| ==> |sent[i]| <= limit
    requires avail <= head && Frames(sent) == Frames(sent[..n]) + head
    ensures var r := ReadFrame(avail, limit);
            r.NeedMore? || (n < |sent| && r == Body(sent[n], |Frame(sent[n])|))
  {
    if n == |sent| {
      assert sent[..n] == sent;
    } else {
      var tail := FramesFrom(sent, n);
      Cancel(Frames(sent[..n]), head, Frame(sent[n]) + tail);
      ReadFrameOfPrefix(avail, sent[n], tail, limit);
    }
  }

  // ---------------------------------------------------------------- preservation

  lemma WriteKeeps(u: Setup, w: World, step: Step)
    requires Invariant(u, w) && (step.Write? || step.Fail?)
    ensures Invariant(u, Next(u, w, step))
  {
    hide Fits;
    hide Frames;
    hide Stream;
    hide ClientHello;
    hide ServerHello;
    hide WellSent;
    hide WellReceived;
    var p := if step.side == Client then w.c else w.s;
    if step.Write? && !p.phase.Failed? {
      var k := Min(step.count, |p.pending|);
      assert (p.out + p.pending[..k]) + p.pending[k..] == p.out + p.pending;
    }
  }

  lemma StreamAppends(hello: seq<u8>, accepted: bool, sent: seq<seq<u8>>, body: seq<u8>)
    requires Bounded(sent) && 0 < |body| <= MAX_FRAME
    ensures Stream(hello, accepted, sent + [body]) == Stream(hello, accepted, sent) + Frame(body)
  {
    FramesAppend(sent, body);
    hide Frames;
    hide Frame;
  }

  lemma SendKeeps(u: Setup, w: World, side: Side, body: seq<u8>)
    requires Invariant(u, w)
    ensures Invariant(u, Next(u, w, Send(side, body)))
  {
    hide Fits;
    hide Frames;
    hide Stream;
    hide ClientHello;
    hide ServerHello;
    hide Negotiate;
    var p := if side == Client then w.c else w.s;
    if Queued(p, body) != p {
      var hello := if side == Client then ClientHello(u, p.offered) else ServerHello(u, p.offered, p.refused);
      StreamAppends(hello, p.accepted, p.sent, body);
      hide Frame;
      QueuedIsWellSent(p, body);
      hide WellSent;
      PrefixGrows(w.c.received, w.s.sent, body);
      PrefixGrows(w.s.received, w.c.sent, body);
      hide WellReceived;
    }
  }

  lemma QueuedIsWellSent(p: Party, body: seq<u8>)
    requires WellSent(p.sent, p.accepted, p.agreement) && p.accepted
    requires p.agreement.Some? && Sendable(body, p.agreement.value.maxFrame)
    ensures WellSent(p.sent + [body], p.accepted, p.agreement)
  {
  }

  lemma PrefixGrows(received: seq<seq<u8>>, sent: seq<seq<u8>>, body: seq<u8>)
    requires WellReceived(received, sent)
    ensures WellReceived(received, sent + [body])
  {
  }

  /** A session takes the peer's bodies one by one, in order. */
  lemma ReceiveKeeps(p: Party, sent: seq<seq<u8>>, before: seq<u8>, incoming: seq<u8>, pending: seq<u8>)
    requires p.agreement.Some? && p.agreement.value.maxFrame <= MAX_FRAME
    requires WellReceived(p.received, sent) && Bounded(sent)
    requires forall i :: 0 <= i < |sent| ==> |sent[i]| <= p.agreement.value.maxFrame
    requires incoming + pending == before + Frames(sent)
    requires p.read == |before| + |Frames(p.received)| <= |incoming|
    ensures var q := Receives(p, incoming);
            && q == p.(read := q.read, received := q.received)
            && WellReceived(q.received, sent)
            && q.read == |before| + |Frames(q.received)|
  {
    hide Frames;
    var n := |p.received|;
    assert p.received == sent[..n];
    var head := NextFrames(sent, n);
    Regroup(before, Frames(p.received), head);
    Available(incoming, pending, before + Frames(p.received), head);
    ReceivesNext(incoming[p.read..], sent, n, p.agreement.value.maxFrame, head);
    if n < |sent| {
      FramesAppend(p.received, sent[n]);
    }
    hide Frame;
    hide ReadFrame;
  }

  lemma Regroup(a: seq<u8>, b: seq<u8>, c: seq<u8>)
    ensures a + (b + c) == (a + b) + c
  {
  }

  lemma NextFrames(bodies: seq<seq<u8>>, n: nat) returns (head: seq<u8>)
    requires Bounded(bodies) && n <= |bodies|
    ensures Frames(bodies) == Frames(bodies[..n]) + head
  {
    if n == |bodies| {
      assert bodies[..n] == bodies;
      head := [];
    } else {
      var tail := FramesFrom(bodies, n);
      head := Frame(bodies[n]) + tail;
    }
  }

  // ---------------------------------------------------------------- the client advances

  lemma EmptyStream(hello: seq<u8>)
    ensures Stream(hello, false, []) == hello && Stream(hello, true, []) == hello + [1]
  {
    assert Frames([]) == [];
  }

  lemma ClientOpens(u: Setup, w: World)
    requires Invariant(u, w) && w.c.phase.Opening? && w.c.pending == []
    ensures Invariant(u, Next(u, w, Advance(Client)))
  {
    hide Stream, Frames, Frame, WellSent, WellReceived, ServerHello, Negotiate;
    EmptyStream(ClientHello(u, false));
    EmptyStream(ClientHello(u, true));
    assert MAGIC + [] == MAGIC;
  }

  /** The client's first message is the server's offer or its refusal, whole or not there yet. */
  lemma ClientReadsFirst(u: Setup, w: World)
    requires Invariant(u, w)
    ensures var r := ReadFrame(w.s.out, HELLO_LIMIT);
            || r.NeedMore?
            || (w.s.offered && Fits(u.server, u) && r == Body(u.encode(u.server), |ServerHello(u, true, None)|))
            || (!w.s.offered && w.s.refused.Some? && r.Body? && r.body == u.encode(RefusalHello(w.s.refused.value)))
    ensures var r := ReadFrame(w.s.out, HELLO_LIMIT); r.Body? ==> r.used <= |w.s.out|
  {
    var s := w.s;
    if s.offered || s.refused.Some? {
      var h := if s.offered then u.server else RefusalHello(s.refused.value);
      Available(s.out, s.pending, [], ServerStream(u, s));
      assert s.out[0..] == s.out;
      ReadsHello(u, s.out, h, AcceptByte(s.accepted) + SessionBytes(s.sent));
    } else {
      EmptyStream([]);
      assert s.out + s.pending == [];
    }
  }

  lemma ClientReadsOffer(u: Setup, p: Party)
    requires Lossless(u)
    ensures var q := ClientReads(u, p, u.encode(u.server));
            || q == Broken(p)
            || (q.refused.Some? && q == Broken(p).(refused := q.refused) && u.server.refusal == Code(q.refused.value))
            || (Negotiate(u.client, u.server).Some?
                && q == p.(phase := Accepting, pending := [1], accepted := true, agreement := Negotiate(u.client, u.server)))
  {
    hide Negotiate;
  }

  lemma ClientReadsRefusal(u: Setup, p: Party, r: Refused)
    requires Lossless(u)
    ensures ClientReads(u, p, u.encode(RefusalHello(r))) == Broken(p).(refused := Some(r))
  {
  }

  lemma ClientBreaks(u: Setup, w: World, q: Party)
    requires Invariant(u, w) && q == w.c.(phase := Failed, read := q.read, refused := q.refused)
    requires q.refused.Some? ==> w.s.refused == q.refused || (w.s.offered && u.server.refusal == Code(q.refused.value))
    requires q.read <= |w.s.out|
    ensures Invariant(u, w.(c := q))
  {
    hide Stream;
    hide Frames;
    hide Fits;
    hide HelloFrame;
    hide ClientHello;
    hide Negotiate;
    hide WellSent;
    hide WellReceived;
    hide ServerHello;
  }

  lemma ClientCommits(u: Setup, w: World, q: Party)
    requires Invariant(u, w) && w.c.phase.Offering? && w.c.pending == [] && w.s.offered
    requires Negotiate(u.client, u.server).Some?
    requires q == w.c.(phase := Accepting, pending := [1], accepted := true, agreement := Negotiate(u.client, u.server),
                       read := |ServerHello(u, true, None)|)
    requires q.read <= |w.s.out|
    ensures Invariant(u, w.(c := q))
  {
    hide Stream;
    hide Frames;
    hide Fits;
    hide HelloFrame;
    hide ClientHello;
    hide Negotiate;
    hide WellSent;
    hide WellReceived;
    EmptyStream(ClientHello(u, true));
    assert w.c.out + [] == w.c.out;
    EmptySent(Negotiate(u.client, u.server));
  }

  lemma EmptySent(agreement: Option<Agreement>)
    ensures forall accepted :: WellSent([], accepted, agreement)
  {
  }

  lemma ClientNegotiates(u: Setup, w: World)
    requires Lossless(u)
    requires Invariant(u, w) && w.c.phase.Offering? && w.c.pending == []
    ensures Invariant(u, Next(u, w, Advance(Client)))
  {
    hide Stream;
    hide Frames;
    hide Fits;
    hide HelloFrame;
    hide ClientHello;
    hide Negotiate;
    hide WellSent;
    hide WellReceived;
    hide ReadFrame;
    hide ClientReads;
    hide Lossless;
    ClientReadsFirst(u, w);
    assert w.s.out[w.c.read..] == w.s.out;
    var r := ReadFrame(w.s.out, HELLO_LIMIT);
    if r.Body? {
      var p := w.c.(read := w.c.read + r.used);
      var q := ClientReads(u, p, r.body);
      if w.s.offered {
        ClientReadsOffer(u, p);
        if q.phase.Failed? {
          ClientBreaks(u, w, q);
        } else {
          ClientCommits(u, w, q);
        }
      } else {
        ClientReadsRefusal(u, p, w.s.refused.value);
        ClientBreaks(u, w, q);
      }
      hide Invariant;
    }
  }

  lemma ClientEstablishes(u: Setup, w: World)
    requires Invariant(u, w) && w.c.phase.Accepting? && w.c.pending == []
    ensures Invariant(u, Next(u, w, Advance(Client)))
  {
    var hello := ServerHello(u, w.s.offered, w.s.refused);
    if w.c.read < |w.s.out| {
      Available(w.s.out, w.s.pending, hello, AcceptByte(w.s.accepted) + SessionBytes(w.s.sent));
      AcceptIsNext(w.s.out[w.c.read..], w.s.accepted, w.s.sent, w.s.agreement);
      assert w.s.out[w.c.read] == w.s.out[w.c.read..][0];
    }
    assert Frames([]) == [];
    hide Stream;
    hide Frames;
    hide ClientHello;
    hide ServerHello;
    hide Negotiate;
    hide Fits;
    hide WellSent;
    hide WellReceived;
  }

  /** The first byte after a side's hello is its acceptance. */
  lemma AcceptIsNext(avail: seq<u8>, accepted: bool, sent: seq<seq<u8>>, agreement: Option<Agreement>)
    requires avail != [] && avail <= AcceptByte(accepted) + SessionBytes(sent)
    requires WellSent(sent, accepted, agreement)
    ensures accepted && avail[0] == 1
  {
    assert Frames([]) == [];
    assert !accepted ==> sent == [];
  }

  lemma ClientReceives(u: Setup, w: World)
    requires Invariant(u, w) && w.c.phase.InSession? && w.c.pending == []
    ensures Invariant(u, Next(u, w, Advance(Client)))
  {
    hide Frames;
    hide Fits;
    hide ClientHello;
    hide ServerHello;
    var hello := ServerHello(u, w.s.offered, w.s.refused);
    if w.c.read <= |w.s.out| {
      NegotiateIsSymmetric(u.client, u.server);
      AgreementIsExact(u.client, u.server);
      hide Negotiate;
      Regroup(hello, [1], Frames(w.s.sent));
      ReceiveKeeps(w.c, w.s.sent, hello + [1], w.s.out, w.s.pending);
      hide Receives;
      hide Stream;
      hide WellSent;
      hide WellReceived;
    }
  }

  lemma ClientAdvances(u: Setup, w: World)
    requires Lossless(u) && Invariant(u, w)
    ensures Invariant(u, Next(u, w, Advance(Client)))
  {
    if w.c.pending == [] && w.c.read <= |w.s.out| {
      match w.c.phase
      case Opening => ClientOpens(u, w);
      case Offering => ClientNegotiates(u, w);
      case Accepting => ClientEstablishes(u, w);
      case InSession => ClientReceives(u, w);
      case _ =>
    }
    hide Invariant;
  }

  // ---------------------------------------------------------------- the server advances

  lemma ServerReadsMagic(u: Setup, w: World)
    requires Invariant(u, w) && w.s.phase.Opening? && w.s.pending == []
    ensures Invariant(u, Next(u, w, Advance(Server)))
  {
    if |w.c.out| >= |MAGIC| {
      MagicFirst(u, w.c);
    }
    hide Stream;
    hide Frames;
    hide ServerHello;
    hide WellSent;
    hide WellReceived;
  }

  lemma MagicFirst(u: Setup, c: Party)
    requires c.out + c.pending == ClientStream(u, c) && |c.out| >= |MAGIC|
    ensures c.out[..|MAGIC|] == MAGIC
  {
    assert c.out[..|MAGIC|] == (c.out + c.pending)[..|MAGIC|];
    assert ClientStream(u, c)[..|MAGIC|] == MAGIC;
  }

  /** The server's first message is the client's offer, whole or not there yet. */
  lemma ServerReadsFirst(u: Setup, w: World)
    requires Invariant(u, w) && |MAGIC| <= |w.c.out|
    ensures var r := ReadFrame(w.c.out[|MAGIC|..], HELLO_LIMIT);
            || r.NeedMore?
            || (w.c.offered && r == Body(u.encode(u.client), |ClientHello(u, true)| - |MAGIC|))
    ensures var r := ReadFrame(w.c.out[|MAGIC|..], HELLO_LIMIT); r.Body? ==> |MAGIC| + r.used <= |w.c.out|
  {
    var c := w.c;
    var tail := AcceptByte(c.accepted) + SessionBytes(c.sent);
    if c.offered {
      Regroup(MAGIC, HelloFrame(u, u.client), tail);
      Available(c.out, c.pending, MAGIC, HelloFrame(u, u.client) + tail);
      ReadsHello(u, c.out[|MAGIC|..], u.client, tail);
    } else {
      EmptyStream(ClientHello(u, false));
      assert c.out + c.pending == MAGIC;
    }
  }

  lemma ServerReadsOffer(u: Setup, p: Party)
    requires Lossless(u)
    ensures var q := ServerReads(u, p, u.encode(u.client));
            || q == Broken(p)
            || (Negotiate(u.server, u.client).Some? && q == Broken(p).(agreement := Negotiate(u.server, u.client)))
            || (q.refused.Some? && Fits(RefusalHello(q.refused.value), u)
                && q == p.(phase := Refusing, pending := HelloFrame(u, RefusalHello(q.refused.value)), refused := q.refused))
            || (Negotiate(u.server, u.client).Some? && Fits(u.server, u)
                && q == p.(phase := Offering, pending := HelloFrame(u, u.server), offered := true,
                           agreement := Negotiate(u.server, u.client)))
  {
    hide Negotiate;
    hide ValidHello;
    hide Frame;
  }

  lemma ServerBreaks(u: Setup, w: World, q: Party)
    requires Invariant(u, w) && w.s.phase.AwaitingOffer? && q == w.s.(phase := Failed, read := q.read, agreement := q.agreement)
    requires q.agreement.Some? ==> w.c.offered && q.agreement == Negotiate(u.server, u.client)
    requires q.read <= |w.c.out|
    ensures Invariant(u, w.(s := q))
  {
    hide Stream;
    hide Frames;
    hide Fits;
    hide HelloFrame;
    hide ClientHello;
    hide Negotiate;
    hide WellSent;
    hide WellReceived;
    EmptyStream([]);
    EmptySent(q.agreement);
  }

  lemma ServerRefuses(u: Setup, w: World, q: Party)
    requires Invariant(u, w) && w.s.phase.AwaitingOffer? && w.s.pending == []
    requires q.refused.Some? && Fits(RefusalHello(q.refused.value), u)
    requires q == w.s.(phase := Refusing, pending := HelloFrame(u, RefusalHello(q.refused.value)), refused := q.refused, read := q.read)
    requires q.read <= |w.c.out|
    ensures Invariant(u, w.(s := q))
  {
    hide Stream;
    hide Frames;
    hide Fits;
    hide HelloFrame;
    hide ClientHello;
    hide Negotiate;
    hide WellSent;
    hide WellReceived;
    EmptyStream([]);
    EmptyStream(HelloFrame(u, RefusalHello(q.refused.value)));
  }

  lemma ServerCommits(u: Setup, w: World, q: Party)
    requires Invariant(u, w) && w.s.phase.AwaitingOffer? && w.s.pending == [] && w.c.offered
    requires Negotiate(u.server, u.client).Some? && Fits(u.server, u)
    requires q == w.s.(phase := Offering, pending := HelloFrame(u, u.server), offered := true,
                       agreement := Negotiate(u.server, u.client), read := |ClientHello(u, true)|)
    requires q.read <= |w.c.out|
    ensures Invariant(u, w.(s := q))
  {
    hide Stream;
    hide Frames;
    hide Fits;
    hide HelloFrame;
    hide ClientHello;
    hide Negotiate;
    hide WellSent;
    hide WellReceived;
    EmptyStream([]);
    EmptyStream(HelloFrame(u, u.server));
    EmptySent(q.agreement);
  }

  lemma ServerNegotiates(u: Setup, w: World)
    requires Lossless(u)
    requires Invariant(u, w) && w.s.phase.AwaitingOffer? && w.s.pending == []
    ensures Invariant(u, Next(u, w, Advance(Server)))
  {
    hide Stream;
    hide Frames;
    hide Fits;
    hide HelloFrame;
    hide ClientHello;
    hide Negotiate;
    hide WellSent;
    hide WellReceived;
    hide ReadFrame;
    hide ServerReads;
    hide Lossless;
    if w.s.read <= |w.c.out| {
      ServerReadsFirst(u, w);
      var r := ReadFrame(w.c.out[|MAGIC|..], HELLO_LIMIT);
      if r.Body? {
        var p := w.s.(read := w.s.read + r.used);
        var q := ServerReads(u, p, r.body);
        ServerReadsOffer(u, p);
        if q.phase.Failed? {
          ServerBreaks(u, w, q);
        } else if q.phase.Refusing? {
          ServerRefuses(u, w, q);
        } else {
          ServerCommits(u, w, q);
        }
        hide Invariant;
      }
    }
  }

  lemma ServerReadsAcceptance(u: Setup, w: World)
    requires Invariant(u, w) && w.c.offered && w.s.read == |ClientHello(u, true)| < |w.c.out|
    ensures w.c.accepted && w.c.out[w.s.read] == 1
  {
    var hello := ClientHello(u, true);
    Available(w.c.out, w.c.pending, hello, AcceptByte(w.c.accepted) + SessionBytes(w.c.sent));
    AcceptIsNext(w.c.out[w.s.read..], w.c.accepted, w.c.sent, w.c.agreement);
    assert w.c.out[w.s.read] == w.c.out[w.s.read..][0];
  }

  lemma ServerAccepts(u: Setup, w: World)
    requires Invariant(u, w) && w.s.phase.Offering? && w.s.pending == []
    ensures Invariant(u, Next(u, w, Advance(Server)))
  {
    hide Stream;
    hide Frames;
    hide ClientHello;
    hide ServerHello;
    hide Negotiate;
    hide Fits;
    hide WellSent;
    hide WellReceived;
    if w.s.read < |w.c.out| {
      ServerReadsAcceptance(u, w);
      EmptyStream(ServerHello(u, w.s.offered, w.s.refused));
      EmptySent(w.s.agreement);
      assert w.s.out + [] == w.s.out;
    }
  }

  lemma ServerReceives(u: Setup, w: World)
    requires Invariant(u, w) && w.s.phase.InSession? && w.s.pending == []
    ensures Invariant(u, Next(u, w, Advance(Server)))
  {
    hide Frames;
    hide Fits;
    hide ClientHello;
    hide ServerHello;
    var hello := ClientHello(u, true);
    if w.s.read <= |w.c.out| {
      NegotiateIsSymmetric(u.client, u.server);
      AgreementIsExact(u.client, u.server);
      hide Negotiate;
      Regroup(hello, [1], Frames(w.c.sent));
      ReceiveKeeps(w.s, w.c.sent, hello + [1], w.c.out, w.c.pending);
      hide Receives;
      hide Stream;
      hide WellSent;
      hide WellReceived;
    }
  }

  lemma ServerEntersSession(u: Setup, w: World)
    requires Invariant(u, w) && w.s.phase.Accepting? && w.s.pending == []
    ensures Invariant(u, w.(s := w.s.(phase := InSession)))
  {
    hide Stream, ClientHello, ServerHello, Negotiate, Fits, WellSent, WellReceived;
    assert w.s.received == [] && Frames(w.s.received) == [];
  }

  lemma ServerStopsRefusing(u: Setup, w: World)
    requires Invariant(u, w) && w.s.phase.Refusing?
    ensures Invariant(u, w.(s := Broken(w.s)))
  {
    hide Stream, Frames, ClientHello, ServerHello, Negotiate, Fits, WellSent, WellReceived;
  }

  lemma ServerFinishes(u: Setup, w: World)
    requires Invariant(u, w) && (w.s.phase.Accepting? || w.s.phase.Refusing?) && w.s.pending == []
    ensures Invariant(u, Next(u, w, Advance(Server)))
  {
    assert w.s.read <= |w.c.out|;
    if w.s.phase.Accepting? {
      ServerEntersSession(u, w);
    } else {
      ServerStopsRefusing(u, w);
    }
    hide Invariant;
  }

  lemma ServerAdvances(u: Setup, w: World)
    requires Lossless(u) && Invariant(u, w)
    ensures Invariant(u, Next(u, w, Advance(Server)))
  {
    if w.s.pending == [] && w.s.read <= |w.c.out| {
      match w.s.phase
      case Opening => ServerReadsMagic(u, w);
      case AwaitingOffer => ServerNegotiates(u, w);
      case Offering => ServerAccepts(u, w);
      case InSession => ServerReceives(u, w);
      case Failed =>
      case _ => ServerFinishes(u, w);
    }
    hide Invariant;
  }

  lemma {:induction false} InvariantHolds(u: Setup, steps: seq<Step>)
    requires Lossless(u)
    ensures Invariant(u, Run(u, steps))
    decreases |steps|
  {
    if steps == [] {
      InitialIsOk(u);
    } else {
      var w, step := Run(u, steps[..|steps| - 1]), steps[|steps| - 1];
      InvariantHolds(u, steps[..|steps| - 1]);
      match step
      case Write(_, _) => WriteKeeps(u, w, step);
      case Fail(_) => WriteKeeps(u, w, step);
      case Send(side, body) => SendKeeps(u, w, side, body);
      case Advance(Client) => ClientAdvances(u, w);
      case Advance(Server) => ServerAdvances(u, w);
      hide Next;
      hide Invariant;
    }
  }

  lemma InitialIsOk(u: Setup)
    ensures Invariant(u, Initial(u))
  {
    hide ValidHello;
    EmptyStream([]);
    EmptyStream(MAGIC);
    assert MAGIC + [] == MAGIC;
    assert Frames([]) == [];
  }

  // ---------------------------------------------------------------- main results

  /** Over every run: a client in session means the server negotiated and accepted, a server
      that read an acceptance means the client negotiated and accepted, and either way both
      hold the one agreement of the two offers. */
  lemma SessionMeansAgreement(u: Setup, steps: seq<Step>)
    requires Lossless(u)
    ensures var w := Run(u, steps);
            && (w.c.phase.InSession? ==>
                  w.s.accepted && w.c.agreement.Some? && w.c.agreement == w.s.agreement == Negotiate(u.client, u.server))
            && (w.s.accepted || w.s.phase.InSession? ==>
                  w.c.accepted && w.s.agreement.Some? && w.s.agreement == w.c.agreement == Negotiate(u.server, u.client))
  {
    InvariantHolds(u, steps);
    hide Run;
    AgreementsMatch(u, Run(u, steps));
  }

  lemma AgreementsMatch(u: Setup, w: World)
    requires Invariant(u, w)
    ensures w.c.phase.InSession? ==>
              w.s.accepted && w.c.agreement.Some? && w.c.agreement == w.s.agreement == Negotiate(u.client, u.server)
    ensures w.s.accepted || w.s.phase.InSession? ==>
              w.c.accepted && w.s.agreement.Some? && w.s.agreement == w.c.agreement == Negotiate(u.server, u.client)
  {
    hide Negotiate;
    hide Stream;
    hide WellSent;
    hide WellReceived;
    hide Fits;
    NegotiateIsSymmetric(u.client, u.server);
  }

  /** A side in session has consumed exactly the handshake, and then exactly the frames whose
      bodies it returned; those are the bodies its peer sent, in order, none missing between. */
  lemma {:induction false} SessionsReadInOrder(u: Setup, steps: seq<Step>)
    requires Lossless(u)
    ensures var w := Run(u, steps);
            && w.c.received <= w.s.sent && w.s.received <= w.c.sent
            && Bounded(w.c.received) && Bounded(w.s.received)
            && (w.c.phase.InSession? ==> w.c.read == |HelloFrame(u, u.server)| + 1 + |Frames(w.c.received)|)
            && (w.s.phase.InSession? ==> w.s.read == |MAGIC| + |HelloFrame(u, u.client)| + 1 + |Frames(w.s.received)|)
  {
    InvariantHolds(u, steps);
    hide Frames;
    hide HelloFrame;
    hide Stream;
    hide Negotiate;
  }

  /** A client that reports a refusal was sent that refusal, and no offer, if and only if the server
      made no offer; an offer is reported as a refusal exactly as its own refusal field says, so
      a server whose offer leaves that field unset misleads nobody. */
  lemma {:induction false} RefusalsAreGenuine(u: Setup, steps: seq<Step>)
    requires Lossless(u)
    ensures var w := Run(u, steps);
            w.c.refused.Some? ==>
              && (w.s.refused == w.c.refused <==> !w.s.offered)
              && (w.s.offered ==> u.server.refusal == Code(w.c.refused.value))
  {
    InvariantHolds(u, steps);
    hide ClientStream;
    hide ServerStream;
    hide Negotiate;
  }

  /** Reading catches up: with the peer's bytes all written, a reader that cannot advance has
      returned every body its peer sent. */
  lemma NothingIsLeftUnread(u: Setup, steps: seq<Step>, side: Side)
    requires Lossless(u)
    requires var w := Run(u, steps);
             && w.c.phase.InSession? && w.s.phase.InSession? && w.c.pending == [] && w.s.pending == []
             && Next(u, w, Advance(side)) == w
    ensures var w := Run(u, steps); if side == Client then w.c.received == w.s.sent else w.s.received == w.c.sent
  {
    InvariantHolds(u, steps);
    SessionMeansAgreement(u, steps);
    AgreementIsExact(u.client, u.server);
    hide Negotiate;
    hide Frames;
    hide Fits;
    hide ClientHello;
    hide ServerHello;
    var w := Run(u, steps);
    if side == Client {
      CaughtUp(w.c, w.s.sent, ServerHello(u, w.s.offered, w.s.refused), w.s.out);
    } else {
      CaughtUp(w.s, w.c.sent, ClientHello(u, true), w.c.out);
    }
  }

  lemma CaughtUp(p: Party, sent: seq<seq<u8>>, hello: seq<u8>, incoming: seq<u8>)
    requires p.agreement.Some? && p.agreement.value.maxFrame <= MAX_FRAME
    requires WellReceived(p.received, sent) && Bounded(sent)
    requires forall i :: 0 <= i < |sent| ==> |sent[i]| <= p.agreement.value.maxFrame
    requires incoming == hello + ([1] + Frames(sent))
    requires p.read == |hello| + 1 + |Frames(p.received)|
    ensures p.read <= |incoming|
    ensures Receives(p, incoming) == p ==> p.received == sent
  {
    hide Frames;
    var n := |p.received|;
    assert p.received == sent[..n];
    if n < |sent| {
      var tail := FramesFrom(sent, n);
      var next := Frame(sent[n]) + tail;
      assert incoming[p.read..] == next;
      ReadFrameOfPrefix(next, sent[n], tail, p.agreement.value.maxFrame);
    } else {
      assert sent[..n] == sent;
    }
  }

  /** A failed side never moves another byte in either direction, whatever its peer does. */
  lemma {:induction false} FailureIsFinal(u: Setup, steps: seq<Step>, more: seq<Step>)
    ensures Run(u, steps).c.phase.Failed? ==> Run(u, steps + more).c == Run(u, steps).c
    ensures Run(u, steps).s.phase.Failed? ==> Run(u, steps + more).s == Run(u, steps).s
    decreases |more|
  {
    if more == [] {
      assert steps + more == steps;
    } else {
      var n := |more| - 1;
      FailureIsFinal(u, steps, more[..n]);
      assert (steps + more)[..|steps + more| - 1] == steps + more[..n];
      FailedStaysPut(u, Run(u, steps + more[..n]), more[n]);
      hide Next;
    }
  }

  lemma FailedStaysPut(u: Setup, w: World, step: Step)
    ensures w.c.phase.Failed? ==> Next(u, w, step).c == w.c
    ensures w.s.phase.Failed? ==> Next(u, w, step).s == w.s
  {
  }

  // ---------------------------------------------------------------- progress

  predicate Moves(u: Setup, w: World, step: Step) {
    Next(u, w, step) != w
  }

  lemma PendingMoves(p: Party)
    requires p.pending != [] && !p.phase.Failed?
    ensures Written(p, 1) != p
  {
  }

  lemma ServerWaitsForMagic(u: Setup, w: World)
    requires Invariant(u, w) && w.s.phase.Opening? && w.s.pending == []
    requires w.c.pending == []
    ensures Moves(u, w, Advance(Server))
  {
    assert w.c.out + [] == w.c.out;
    MagicFirst(u, w.c);
    hide Stream;
  }

  lemma OfferArrives(u: Setup, w: World)
    requires Invariant(u, w) && w.c.offered && w.c.pending == []
    ensures |MAGIC| <= |w.c.out| && ReadFrame(w.c.out[|MAGIC|..], HELLO_LIMIT).Body?
  {
    var tail := AcceptByte(w.c.accepted) + SessionBytes(w.c.sent);
    assert w.c.out + [] == w.c.out;
    Regroup(MAGIC, HelloFrame(u, u.client), tail);
    var avail := HelloFrame(u, u.client) + tail;
    assert w.c.out == MAGIC + avail && w.c.out[|MAGIC|..] == avail;
    ReadsHello(u, avail, u.client, tail);
  }

  lemma ServerWaitsForOffer(u: Setup, w: World)
    requires Lossless(u)
    requires Invariant(u, w) && w.s.phase.AwaitingOffer? && w.s.pending == []
    requires w.c.offered && w.c.pending == []
    ensures Moves(u, w, Advance(Server))
  {
    hide ReadFrame;
    hide ServerReads;
    hide HelloFrame;
    hide Stream;
    hide Negotiate;
    OfferArrives(u, w);
    ServerReadsFirst(u, w);
    ServerReadsOffer(u, w.s.(read := w.s.read + ReadFrame(w.c.out[|MAGIC|..], HELLO_LIMIT).used));
    hide Invariant;
  }

  lemma ClientWaitsForOffer(u: Setup, w: World)
    requires Lossless(u)
    requires Invariant(u, w) && w.c.phase.Offering? && w.c.pending == []
    requires w.s.offered && w.s.pending == []
    ensures Moves(u, w, Advance(Client))
  {
    hide ReadFrame;
    hide ClientReads;
    hide HelloFrame;
    hide Stream;
    hide Negotiate;
    ServerOfferArrives(u, w);
    ClientReadsFirst(u, w);
    assert w.s.out[w.c.read..] == w.s.out;
    ClientReadsOffer(u, w.c.(read := w.c.read + ReadFrame(w.s.out, HELLO_LIMIT).used));
    hide Invariant;
  }

  lemma ServerOfferArrives(u: Setup, w: World)
    requires Invariant(u, w) && w.s.offered && w.s.pending == []
    ensures ReadFrame(w.s.out, HELLO_LIMIT).Body?
  {
    assert w.s.out + [] == w.s.out;
    ReadsHello(u, w.s.out, u.server, AcceptByte(w.s.accepted) + SessionBytes(w.s.sent));
  }

  /** The acceptance byte a side waits for is there once its peer has written it. */
  lemma AcceptArrives(hello: seq<u8>, sent: seq<seq<u8>>, out: seq<u8>)
    requires out + [] == Stream(hello, true, sent)
    ensures |hello| < |out| && out[|hello|] == 1
  {
    assert out + [] == out;
  }

  /** The handshake never deadlocks: while neither side has failed and not both are in
      session, some side can write a pending byte or act on what has arrived. */
  lemma HandshakeProgresses(u: Setup, steps: seq<Step>)
    requires Lossless(u)
    requires var w := Run(u, steps);
             !w.c.phase.Failed? && !w.s.phase.Failed? && !(w.c.phase.InSession? && w.s.phase.InSession?)
    ensures exists step: Step :: !step.Fail? && !step.Send? && Moves(u, Run(u, steps), step)
  {
    InvariantHolds(u, steps);
    var w := Run(u, steps);
    hide Run;
    hide Frames;
    hide Fits;
    hide HelloFrame;
    hide Negotiate;
    hide Lossless;
    hide ReadFrame;
    hide ClientReads;
    hide ServerReads;
    if w.c.pending != [] {
      PendingMoves(w.c);
      assert Moves(u, w, Write(Client, 1));
    } else if w.s.pending != [] {
      PendingMoves(w.s);
      assert Moves(u, w, Write(Server, 1));
    } else {
      QuietMoves(u, w);
    }
  }

  lemma QuietMoves(u: Setup, w: World)
    requires Lossless(u) && Invariant(u, w) && w.c.pending == [] && w.s.pending == []
    requires !w.c.phase.Failed? && !w.s.phase.Failed? && !(w.c.phase.InSession? && w.s.phase.InSession?)
    ensures Moves(u, w, Advance(Client)) || Moves(u, w, Advance(Server))
  {
    hide Frames;
    hide Fits;
    hide HelloFrame;
    hide Negotiate;
    hide Lossless;
    hide ReadFrame;
    hide ClientReads;
    hide ServerReads;
    hide Stream;
    hide WellSent;
    hide WellReceived;
    if w.c.phase.Opening? {
      assert Moves(u, w, Advance(Client));
    } else {
      match w.s.phase
      case Opening => ServerWaitsForMagic(u, w);
      case AwaitingOffer => ServerWaitsForOffer(u, w);
      case Refusing =>
      case Accepting =>
        AcceptArrives(ClientHello(u, true), w.c.sent, w.c.out);
      case Offering =>
        if w.c.accepted {
          AcceptArrives(ClientHello(u, true), w.c.sent, w.c.out);
        } else {
          ClientWaitsForOffer(u, w);
        }
      case InSession =>
        AcceptArrives(ServerHello(u, w.s.offered, w.s.refused), w.s.sent, w.s.out);
    }
  }
}
