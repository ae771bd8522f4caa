/** What two peers get out of the handshake of src/wire.rs when nothing fails from outside: a session
    if their offers agree, and the reason if the server refuses a client that reads refusals. */
module HandshakeOutcome {
  import opened Bytes
  import opened Numbers
  import opened Options
  import opened Wire
  import opened Handshake

  predicate Faultless(steps: seq<Step>) {
    forall k :: 0 <= k < |steps| ==> !steps[k].Fail?
  }

  // ---------------------------------------------------------------- peers that agree

  /** A server that accepts, two offers that agree, and messages that fit their frames. */
  ghost predicate Compatible(u: Setup) {
    && Lossless(u) && u.policy.None? && Negotiate(u.client, u.server).Some? && u.server.refusal.NotRefused?
    && Fits(u.client, u) && Fits(u.server, u)
  }

  predicate Up(w: World) {
    !w.c.phase.Failed? && !w.s.phase.Failed? && w.s.refused.None?
  }

  /** The one way a client goes on, from a state in which it has written everything. */
  predicate ClientMoved(u: Setup, p: Party, q: Party) {
    && p.pending == []
    && match p.phase
       case Opening => q == p.(phase := Offering, pending := HelloFrame(u, u.client), offered := true)
       case Offering =>
         q == p.(phase := Accepting, pending := [1], accepted := true, agreement := Negotiate(u.client, u.server), read := q.read)
       case Accepting => q == p.(phase := InSession, read := p.read + 1)
       case InSession => q == p.(read := q.read, received := q.received) && |q.received| == |p.received| + 1
       case _ => false
  }

  predicate ServerMoved(u: Setup, p: Party, q: Party) {
    && p.pending == []
    && match p.phase
       case Opening => q == p.(phase := AwaitingOffer, read := |MAGIC|)
       case AwaitingOffer =>
         q == p.(phase := Offering, pending := HelloFrame(u, u.server), offered := true,
                 agreement := Negotiate(u.server, u.client), read := q.read)
       case Offering => q == p.(phase := Accepting, read := p.read + 1, pending := [1], accepted := true)
       case Accepting => q == p.(phase := InSession)
       case InSession => q == p.(read := q.read, received := q.received) && |q.received| == |p.received| + 1
       case _ => false
  }

  lemma ClientTakesOffer(u: Setup, p: Party)
    requires Compatible(u)
    ensures ClientReads(u, p, u.encode(u.server))
            == p.(phase := Accepting, pending := [1], accepted := true, agreement := Negotiate(u.client, u.server))
  {
    hide Negotiate;
  }

  lemma ServerTakesOffer(u: Setup, p: Party)
    requires Compatible(u)
    ensures ServerReads(u, p, u.encode(u.client))
            == p.(phase := Offering, pending := HelloFrame(u, u.server), offered := true, agreement := Negotiate(u.server, u.client))
  {
    NegotiateIsSymmetric(u.client, u.server);
    hide Negotiate, Frame;
  }

  lemma ReceivesOne(p: Party, incoming: seq<u8>)
    requires p.phase.InSession? && p.read <= |incoming|
    ensures var q := Receives(p, incoming); q == p || q.phase.Failed? || |q.received| == |p.received| + 1
  {
  }

  lemma ClientInSessionMoves(u: Setup, w: World)
    requires Invariant(u, w) && w.c.phase.InSession? && w.c.pending == []
    ensures var q := ClientAdvance(u, w.c, w.s.out); q == w.c || ClientMoved(u, w.c, q)
  {
    hide Frames, Fits, ClientHello, ServerHello;
    var hello := ServerHello(u, w.s.offered, w.s.refused);
    NegotiateIsSymmetric(u.client, u.server);
    AgreementIsExact(u.client, u.server);
    hide Negotiate;
    Regroup(hello, [1], Frames(w.s.sent));
    ReceiveKeeps(w.c, w.s.sent, hello + [1], w.s.out, w.s.pending);
    ReceivesOne(w.c, w.s.out);
    hide Receives, Stream;
  }

  lemma ServerInSessionMoves(u: Setup, w: World)
    requires Invariant(u, w) && w.s.phase.InSession? && w.s.pending == []
    ensures var q := ServerAdvance(u, w.s, w.c.out); q == w.s || ServerMoved(u, w.s, q)
  {
    hide Frames, Fits, ClientHello, ServerHello;
    var hello := ClientHello(u, true);
    NegotiateIsSymmetric(u.client, u.server);
    AgreementIsExact(u.client, u.server);
    hide Negotiate;
    Regroup(hello, [1], Frames(w.c.sent));
    ReceiveKeeps(w.s, w.c.sent, hello + [1], w.c.out, w.c.pending);
    ReceivesOne(w.s, w.c.out);
    hide Receives, Stream;
  }

  lemma ClientAcceptingMoves(u: Setup, w: World)
    requires Invariant(u, w) && w.c.phase.Accepting? && w.c.pending == []
    ensures var q := ClientAdvance(u, w.c, w.s.out); q == w.c || ClientMoved(u, w.c, q)
  {
    if w.c.read < |w.s.out| {
      var hello := ServerHello(u, w.s.offered, w.s.refused);
      Available(w.s.out, w.s.pending, hello, AcceptByte(w.s.accepted) + SessionBytes(w.s.sent));
      AcceptIsNext(w.s.out[w.c.read..], w.s.accepted, w.s.sent, w.s.agreement);
      assert w.s.out[w.c.read] == w.s.out[w.c.read..][0];
    }
    hide Stream, Frames, ServerHello, ClientHello, Negotiate, Fits;
  }

  lemma ClientOfferingMoves(u: Setup, w: World)
    requires Compatible(u) && Invariant(u, w) && Up(w) && w.c.phase.Offering? && w.c.pending == []
    ensures var q := ClientAdvance(u, w.c, w.s.out); q == w.c || ClientMoved(u, w.c, q)
  {
    hide Stream, Frames, Fits, HelloFrame, ClientHello, Negotiate, WellSent, WellReceived, ReadFrame, ClientReads, Compatible;
    ClientReadsFirst(u, w);
    assert w.s.out[w.c.read..] == w.s.out;
    var r := ReadFrame(w.s.out, HELLO_LIMIT);
    if r.Body? {
      ClientTakesOffer(u, w.c.(read := w.c.read + r.used));
    }
  }

  lemma ClientAdvanceMoves(u: Setup, w: World)
    requires Compatible(u) && Invariant(u, w) && Up(w)
    ensures var q := ClientAdvance(u, w.c, w.s.out); q == w.c || ClientMoved(u, w.c, q)
  {
    if w.c.pending == [] {
      match w.c.phase
      case Opening => ClientOpeningMoves(u, w);
      case Offering => ClientOfferingMoves(u, w);
      case Accepting => ClientAcceptingMoves(u, w);
      case InSession => ClientInSessionMoves(u, w);
      case _ =>
    }
    hide Invariant;
  }

  lemma ClientOpeningMoves(u: Setup, w: World)
    requires Compatible(u) && w.c.phase.Opening? && w.c.pending == []
    ensures var q := ClientAdvance(u, w.c, w.s.out); q == w.c || ClientMoved(u, w.c, q)
  {
    hide Frame, Negotiate;
  }

  lemma ServerOpeningMoves(u: Setup, w: World)
    requires Invariant(u, w) && w.s.phase.Opening? && w.s.pending == []
    ensures var q := ServerAdvance(u, w.s, w.c.out); q == w.s || ServerMoved(u, w.s, q)
  {
    if |w.c.out| >= |MAGIC| {
      MagicFirst(u, w.c);
    }
    hide Stream, Frames, ServerHello, WellSent, WellReceived;
  }

  lemma ServerAwaitingMoves(u: Setup, w: World)
    requires Compatible(u) && Invariant(u, w) && w.s.phase.AwaitingOffer? && w.s.pending == []
    ensures var q := ServerAdvance(u, w.s, w.c.out); q == w.s || ServerMoved(u, w.s, q)
  {
    hide Stream, Frames, Fits, HelloFrame, ClientHello, Negotiate, WellSent, WellReceived, ReadFrame, ServerReads, Compatible;
    ServerReadsFirst(u, w);
    var r := ReadFrame(w.c.out[|MAGIC|..], HELLO_LIMIT);
    if r.Body? {
      ServerTakesOffer(u, w.s.(read := w.s.read + r.used));
    }
  }

  lemma ServerOfferingMoves(u: Setup, w: World)
    requires Invariant(u, w) && w.s.phase.Offering? && w.s.pending == []
    ensures var q := ServerAdvance(u, w.s, w.c.out); q == w.s || ServerMoved(u, w.s, q)
  {
    hide Stream, Frames, ClientHello, ServerHello, Negotiate, Fits, WellSent, WellReceived;
    if w.s.read < |w.c.out| {
      ServerReadsAcceptance(u, w);
    }
  }

  lemma ServerAdvanceMoves(u: Setup, w: World)
    requires Compatible(u) && Invariant(u, w) && Up(w)
    ensures var q := ServerAdvance(u, w.s, w.c.out); q == w.s || ServerMoved(u, w.s, q)
  {
    if w.s.pending == [] {
      assert w.s.read <= |w.c.out| && !w.s.phase.Refusing?;
      match w.s.phase
      case Opening => ServerOpeningMoves(u, w);
      case AwaitingOffer => ServerAwaitingMoves(u, w);
      case Offering => ServerOfferingMoves(u, w);
      case InSession => ServerInSessionMoves(u, w);
      case _ =>
    }
    hide Invariant;
  }

  lemma StepStaysUp(u: Setup, w: World, step: Step)
    requires Compatible(u) && Invariant(u, w) && Up(w) && !step.Fail?
    ensures Up(Next(u, w, step))
  {
    hide Invariant, Compatible, ClientAdvance, ServerAdvance;
    match step
    case Advance(Client) => ClientAdvanceMoves(u, w);
    case Advance(Server) => ServerAdvanceMoves(u, w);
    case _ =>
  }

  lemma StartsUp(u: Setup)
    requires Compatible(u)
    ensures Up(Initial(u))
  {
    AgreementIsExact(u.client, u.server);
    hide Negotiate, ValidHello;
  }

  /** Two peers whose offers agree never fail each other: in every run without a fault from outside,
      however their bytes are cut and interleaved, neither side fails. */
  lemma {:induction false} CompatiblePeersStayUp(u: Setup, steps: seq<Step>)
    requires Compatible(u) && Faultless(steps)
    ensures Up(Run(u, steps))
    decreases |steps|
  {
    hide Compatible, Next, Up, Initial;
    if steps == [] {
      StartsUp(u);
    } else {
      CompatiblePeersStayUp(u, steps[..|steps| - 1]);
      LosslessOf(u);
      InvariantHolds(u, steps[..|steps| - 1]);
      StepStaysUp(u, Run(u, steps[..|steps| - 1]), steps[|steps| - 1]);
    }
  }

  lemma LosslessOf(u: Setup)
    requires Compatible(u)
    ensures Lossless(u)
  {
  }

  // ---------------------------------------------------------------- how far they have to go

  /** Bytes still to be written and moves still to be made by each side, before its session. */
  function ClientLeft(u: Setup, phase: Phase): nat {
    match phase
    case Opening => |HelloFrame(u, u.client)| + 5
    case Offering => 3
    case Accepting => 1
    case _ => 0
  }

  function ServerLeft(u: Setup, phase: Phase): nat {
    match phase
    case Opening => |HelloFrame(u, u.server)| + 5
    case AwaitingOffer => |HelloFrame(u, u.server)| + 4
    case Offering => 3
    case Accepting => 1
    case _ => 0
  }

  function Left(u: Setup, w: World): int {
    |w.c.pending| + |w.s.pending| + ClientLeft(u, w.c.phase) + ServerLeft(u, w.s.phase)
    + (|w.s.sent| - |w.c.received|) + (|w.c.sent| - |w.s.received|)
  }

  lemma LeftIsNatural(u: Setup, w: World)
    requires Invariant(u, w)
    ensures Left(u, w) >= 0
  {
  }

  function ClientShare(u: Setup, p: Party): int {
    |p.pending| + ClientLeft(u, p.phase) + |p.sent| - |p.received|
  }

  function ServerShare(u: Setup, p: Party): int {
    |p.pending| + ServerLeft(u, p.phase) + |p.sent| - |p.received|
  }

  lemma ClientMoveShrinks(u: Setup, p: Party, q: Party)
    requires ClientMoved(u, p, q)
    ensures ClientShare(u, q) < ClientShare(u, p)
  {
    hide HelloFrame, Negotiate;
  }

  lemma ServerMoveShrinks(u: Setup, p: Party, q: Party)
    requires ServerMoved(u, p, q)
    ensures ServerShare(u, q) < ServerShare(u, p)
  {
    hide HelloFrame, Negotiate;
  }

  lemma WriteShrinks(p: Party, count: nat)
    requires Written(p, count) != p
    ensures var q := Written(p, count);
            |q.pending| < |p.pending| && q == p.(out := q.out, pending := q.pending)
  {
  }

  /** Every move of a faultless handshake brings its end nearer, unless it sends a message. */
  lemma MoveShrinks(u: Setup, w: World, step: Step)
    requires Compatible(u) && Invariant(u, w) && Up(w) && !step.Fail? && !step.Send? && Moves(u, w, step)
    ensures Left(u, Next(u, w, step)) < Left(u, w)
  {
    hide Invariant, Compatible, ClientAdvance, ServerAdvance, Written, ClientMoved, ServerMoved, ClientLeft, ServerLeft, Up;
    match step
    case Advance(Client) =>
      ClientAdvanceMoves(u, w);
      ClientMoveShrinks(u, w.c, ClientAdvance(u, w.c, w.s.out));
    case Advance(Server) =>
      ServerAdvanceMoves(u, w);
      ServerMoveShrinks(u, w.s, ServerAdvance(u, w.s, w.c.out));
    case Write(Client, n) => WriteShrinks(w.c, n);
    case Write(Server, n) => WriteShrinks(w.s, n);
    case _ =>
  }

  /** Both in session and nothing under way: all is written, and read. */
  predicate Settled(w: World) {
    && w.c.phase.InSession? && w.s.phase.InSession? && w.c.pending == [] && w.s.pending == []
    && w.c.received == w.s.sent && w.s.received == w.c.sent
  }

  /** Until everything has arrived, something moves. */
  lemma SomethingMoves(u: Setup, steps: seq<Step>) returns (step: Step)
    requires Compatible(u) && Faultless(steps) && !Settled(Run(u, steps))
    ensures !step.Fail? && !step.Send? && Moves(u, Run(u, steps), step)
  {
    hide Next, Compatible, Invariant, Negotiate;
    LosslessOf(u);
    CompatiblePeersStayUp(u, steps);
    var w := Run(u, steps);
    if !w.c.phase.InSession? || !w.s.phase.InSession? {
      HandshakeProgresses(u, steps);
      step :| !step.Fail? && !step.Send? && Moves(u, w, step);
    } else if w.c.pending != [] {
      step := Write(Client, 1);
      WritesSome(u, w, Client);
    } else if w.s.pending != [] {
      step := Write(Server, 1);
      WritesSome(u, w, Server);
    } else if w.c.received != w.s.sent {
      step := Advance(Client);
      if !Moves(u, w, step) {
        NothingIsLeftUnread(u, steps, Client);
      }
    } else {
      step := Advance(Server);
      if !Moves(u, w, step) {
        NothingIsLeftUnread(u, steps, Server);
      }
    }
  }

  lemma WritesSome(u: Setup, w: World, side: Side)
    requires var p := if side == Client then w.c else w.s; !p.phase.Failed? && p.pending != []
    ensures Moves(u, w, Write(side, 1))
  {
    PendingMoves(if side == Client then w.c else w.s);
  }

  lemma OnlySendsAddMessages(u: Setup, w: World, step: Step)
    requires !step.Send?
    ensures Next(u, w, step).c.sent == w.c.sent && Next(u, w, step).s.sent == w.s.sent
  {
    hide Negotiate, ReadFrame, Frame, ValidHello, CheckRefusal;
  }

  /** From every state such peers reach there is a way on into a session on both sides, with every
      message sent so far read by its peer, no longer than the bytes and moves left. */
  lemma {:induction false} CompatiblePeersGetASession(u: Setup, steps: seq<Step>) returns (more: seq<Step>)
    requires Compatible(u) && Faultless(steps)
    ensures Faultless(more) && |more| <= Left(u, Run(u, steps))
    ensures var w, t := Run(u, steps), Run(u, steps + more);
            && t.c.phase.InSession? && t.s.phase.InSession?
            && t.c.agreement == t.s.agreement == Negotiate(u.client, u.server)
            && t.c.received == t.s.sent == w.s.sent && t.s.received == t.c.sent == w.c.sent
    decreases var w := Run(u, steps); Left(u, w)
  {
    hide Next, Compatible, Left, Invariant, Negotiate, Moves;
    LosslessOf(u);
    InvariantHolds(u, steps);
    LeftIsNatural(u, Run(u, steps));
    var w := Run(u, steps);
    CompatiblePeersStayUp(u, steps);
    if Settled(w) {
      more := [];
      assert steps + more == steps;
      SessionMeansAgreement(u, steps);
    } else {
      var step := SomethingMoves(u, steps);
      MoveShrinks(u, w, step);
      OnlySendsAddMessages(u, w, step);
      assert (steps + [step])[..|steps|] == steps;
      assert Run(u, steps + [step]) == Next(u, w, step);
      var rest := CompatiblePeersGetASession(u, steps + [step]);
      more := [step] + rest;
      assert steps + [step] + rest == steps + more;
    }
  }

  /** A message is taken exactly in session, one at a time, and within the frame limit agreed. */
  lemma {:induction false} MessagesAreTakenExactly(u: Setup, steps: seq<Step>, side: Side, body: seq<u8>)
    requires Lossless(u)
    ensures var w, t := Run(u, steps), Run(u, steps + [Send(side, body)]);
            var p, q := if side == Client then w.c else w.s, if side == Client then t.c else t.s;
            var agreement := Negotiate(u.client, u.server);
            var taken := p.phase.InSession? && p.pending == [] && agreement.Some? && 0 < |body| <= agreement.value.maxFrame;
            && q.sent == (if taken then p.sent + [body] else p.sent)
            && (if side == Client then t.s == w.s else t.c == w.c)
  {
    var w := Run(u, steps);
    SessionMeansAgreement(u, steps);
    assert (steps + [Send(side, body)])[..|steps|] == steps;
    assert Run(u, steps + [Send(side, body)]) == Next(u, w, Send(side, body));
    NegotiateIsSymmetric(u.client, u.server);
    AgreementIsExact(u.client, u.server);
    hide Run, Negotiate;
  }

  /** Without an agreement there is never a session on either side. */
  lemma {:induction false} NoSessionWithoutAgreement(u: Setup, steps: seq<Step>)
    requires Lossless(u) && Negotiate(u.client, u.server).None?
    ensures !Run(u, steps).c.phase.InSession? && !Run(u, steps).s.phase.InSession?
  {
    NegotiateIsSymmetric(u.client, u.server);
    hide Negotiate, Run;
    SessionMeansAgreement(u, steps);
  }

  // ---------------------------------------------------------------- clients that are refused

  /** The server refuses this client for `r`, and can tell it so: by policy, or because negotiation
      fails over something the client lacks. */
  ghost predicate Turned(u: Setup, r: Refused) {
    && Lossless(u) && ValidHello(u.client) && Fits(u.client, u) && Fits(RefusalHello(r), u)
    && if u.policy.Some? then u.policy == Some(r) && RefusalFrame(r, u.server, u.client).Some?
       else r == TooOld && ValidHello(u.server) && Negotiate(u.server, u.client).None? && Rejection(u.server, u.client).Some?
  }

  /** Until it has the reason the client is still trying; the server leaves only after sending it. */
  predicate Telling(w: World, r: Refused) {
    && !w.s.offered && (w.c.phase.Opening? || w.c.phase.Offering? || (w.c.phase.Failed? && w.c.refused == Some(r)))
    && match w.s.phase
       case Opening => true
       case AwaitingOffer => true
       case Refusing => w.s.refused == Some(r)
       case Failed => w.s.refused == Some(r) && w.s.pending == []
       case _ => false
  }

  lemma ServerTurnsAway(u: Setup, p: Party, r: Refused)
    requires Turned(u, r)
    ensures ServerReads(u, p, u.encode(u.client))
            == p.(phase := Refusing, pending := HelloFrame(u, RefusalHello(r)), refused := Some(r))
  {
    hide Negotiate, ValidHello, Frame;
  }

  predicate ClientTold(u: Setup, p: Party, q: Party, r: Refused) {
    && p.pending == []
    && match p.phase
       case Opening => q == p.(phase := Offering, pending := HelloFrame(u, u.client), offered := true)
       case Offering => q == p.(phase := Failed, refused := Some(r), read := q.read)
       case _ => false
  }

  predicate ServerTold(u: Setup, p: Party, q: Party, r: Refused) {
    && p.pending == []
    && match p.phase
       case Opening => q == p.(phase := AwaitingOffer, read := |MAGIC|)
       case AwaitingOffer => q == p.(phase := Refusing, pending := HelloFrame(u, RefusalHello(r)), refused := Some(r), read := q.read)
       case Refusing => q == p.(phase := Failed)
       case _ => false
  }

  lemma ClientHearsTheReason(u: Setup, w: World, r: Refused)
    requires Turned(u, r) && Invariant(u, w) && Telling(w, r) && w.c.phase.Offering? && w.c.pending == []
    ensures var q := ClientAdvance(u, w.c, w.s.out); q == w.c || ClientTold(u, w.c, q, r)
  {
    hide Stream, Frames, Fits, HelloFrame, ClientHello, Negotiate, WellSent, WellReceived, ReadFrame, ClientReads, Turned;
    ClientReadsFirst(u, w);
    assert w.s.out[w.c.read..] == w.s.out;
    var f := ReadFrame(w.s.out, HELLO_LIMIT);
    if f.Body? {
      TurnedIsLossless(u, r);
      assert w.s.refused == Some(r);
      ClientReadsRefusal(u, w.c.(read := w.c.read + f.used), r);
    }
  }

  lemma TurnedIsLossless(u: Setup, r: Refused)
    requires Turned(u, r)
    ensures Lossless(u)
  {
  }

  lemma ClientStillTries(u: Setup, w: World, r: Refused)
    requires Turned(u, r) && w.c.phase.Opening? && w.c.pending == []
    ensures var q := ClientAdvance(u, w.c, w.s.out); q == w.c || ClientTold(u, w.c, q, r)
  {
    hide Frame, Negotiate;
  }

  lemma ClientAdvanceTells(u: Setup, w: World, r: Refused)
    requires Turned(u, r) && Invariant(u, w) && Telling(w, r)
    ensures var q := ClientAdvance(u, w.c, w.s.out); q == w.c || ClientTold(u, w.c, q, r)
  {
    if w.c.pending == [] {
      match w.c.phase
      case Opening => ClientStillTries(u, w, r);
      case Offering => ClientHearsTheReason(u, w, r);
      case _ =>
    }
    hide Invariant;
  }

  lemma ServerReadsTheOffer(u: Setup, w: World, r: Refused)
    requires Turned(u, r) && Invariant(u, w) && w.s.phase.AwaitingOffer? && w.s.pending == []
    ensures var q := ServerAdvance(u, w.s, w.c.out); q == w.s || ServerTold(u, w.s, q, r)
  {
    hide Stream, Frames, Fits, HelloFrame, ClientHello, Negotiate, WellSent, WellReceived, ReadFrame, ServerReads, Turned;
    ServerReadsFirst(u, w);
    var f := ReadFrame(w.c.out[|MAGIC|..], HELLO_LIMIT);
    if f.Body? {
      ServerTurnsAway(u, w.s.(read := w.s.read + f.used), r);
    }
  }

  lemma ServerAdvanceTells(u: Setup, w: World, r: Refused)
    requires Turned(u, r) && Invariant(u, w) && Telling(w, r)
    ensures var q := ServerAdvance(u, w.s, w.c.out); q == w.s || ServerTold(u, w.s, q, r)
  {
    if w.s.pending == [] {
      match w.s.phase
      case Opening => ServerOpeningMoves(u, w);
      case AwaitingOffer => ServerReadsTheOffer(u, w, r);
      case _ =>
    }
    hide Invariant;
  }

  lemma StepTells(u: Setup, w: World, step: Step, r: Refused)
    requires Turned(u, r) && Invariant(u, w) && Telling(w, r) && !step.Fail?
    ensures Telling(Next(u, w, step), r)
  {
    hide Invariant, Turned, ClientAdvance, ServerAdvance, HelloFrame;
    match step
    case Advance(Client) => ClientAdvanceTells(u, w, r);
    case Advance(Server) => ServerAdvanceTells(u, w, r);
    case _ =>
  }

  lemma StartsTelling(u: Setup, r: Refused)
    requires Turned(u, r)
    ensures Telling(Initial(u), r)
  {
    hide Negotiate, ValidHello, Rejection, RefusalFrame;
  }

  /** A refused client that reads refusals fails only with the reason, in every faultless run. */
  lemma {:induction false} RefusedClientFailsOnlyWithTheReason(u: Setup, steps: seq<Step>, r: Refused)
    requires Turned(u, r) && Faultless(steps)
    ensures Telling(Run(u, steps), r)
    decreases |steps|
  {
    hide Turned, Next, Telling, Initial;
    if steps == [] {
      StartsTelling(u, r);
    } else {
      RefusedClientFailsOnlyWithTheReason(u, steps[..|steps| - 1], r);
      TurnedIsLossless(u, r);
      InvariantHolds(u, steps[..|steps| - 1]);
      StepTells(u, Run(u, steps[..|steps| - 1]), steps[|steps| - 1], r);
    }
  }

  lemma RefusalArrives(u: Setup, w: World, r: Refused)
    requires Invariant(u, w) && !w.s.offered && w.s.refused == Some(r) && w.s.pending == []
    ensures ReadFrame(w.s.out, HELLO_LIMIT).Body?
  {
    assert w.s.out + [] == w.s.out;
    ReadsHello(u, w.s.out, RefusalHello(r), AcceptByte(w.s.accepted) + SessionBytes(w.s.sent));
  }

  lemma ClientCanHear(u: Setup, w: World, r: Refused)
    requires Turned(u, r) && Invariant(u, w) && Telling(w, r) && w.c.phase.Offering? && w.c.pending == []
    requires w.s.refused == Some(r) && w.s.pending == []
    ensures Moves(u, w, Advance(Client))
  {
    hide Stream, Frames, Fits, HelloFrame, ClientHello, Negotiate, WellSent, WellReceived, ReadFrame, ClientReads, Turned;
    RefusalArrives(u, w, r);
    ClientReadsFirst(u, w);
    assert w.s.out[w.c.read..] == w.s.out;
    TurnedIsLossless(u, r);
    ClientReadsRefusal(u, w.c.(read := w.c.read + ReadFrame(w.s.out, HELLO_LIMIT).used), r);
  }

  lemma OpeningMoves(u: Setup, w: World)
    requires w.c.phase.Opening? && w.c.pending == [] && w.c.read <= |w.s.out|
    ensures Moves(u, w, Advance(Client))
  {
  }

  lemma RefusingMoves(u: Setup, w: World)
    requires w.s.phase.Refusing? && w.s.pending == [] && w.s.read <= |w.c.out|
    ensures Moves(u, w, Advance(Server))
  {
  }

  /** While the client has not got the reason, somebody can move. */
  lemma TellingProgresses(u: Setup, w: World, r: Refused) returns (step: Step)
    requires Turned(u, r) && Invariant(u, w) && Telling(w, r) && !w.c.phase.Failed?
    ensures !step.Fail? && !step.Send? && Moves(u, w, step)
  {
    TurnedIsLossless(u, r);
    hide Turned, Moves, Stream, Frames, Fits, HelloFrame, ClientHello, ServerHello, Negotiate, WellSent, WellReceived;
    if w.c.pending != [] {
      PendingMoves(w.c);
      step := Write(Client, 1);
      WrittenMoves(u, w, Client);
    } else if w.s.pending != [] {
      PendingMoves(w.s);
      step := Write(Server, 1);
      WrittenMoves(u, w, Server);
    } else if w.c.phase.Opening? {
      step := Advance(Client);
      OpeningMoves(u, w);
    } else {
      match w.s.phase
      case Opening =>
        step := Advance(Server);
        ServerWaitsForMagic(u, w);
      case AwaitingOffer =>
        step := Advance(Server);
        ServerWaitsForOffer(u, w);
      case Refusing =>
        step := Advance(Server);
        RefusingMoves(u, w);
      case Failed =>
        step := Advance(Client);
        ClientCanHear(u, w, r);
    }
  }

  lemma WrittenMoves(u: Setup, w: World, side: Side)
    requires if side == Client then Written(w.c, 1) != w.c else Written(w.s, 1) != w.s
    ensures Moves(u, w, Write(side, 1))
  {
    hide Written;
  }

  function ClientTrying(u: Setup, p: Party): nat {
    |p.pending| + match p.phase
                  case Opening => |HelloFrame(u, u.client)| + 2
                  case Offering => 1
                  case _ => 0
  }

  function ServerTrying(u: Setup, p: Party, r: Refused): nat {
    |p.pending| + match p.phase
                  case Opening => |HelloFrame(u, RefusalHello(r))| + 3
                  case AwaitingOffer => |HelloFrame(u, RefusalHello(r))| + 2
                  case Refusing => 1
                  case _ => 0
  }

  lemma TellingShrinks(u: Setup, w: World, step: Step, r: Refused)
    requires Turned(u, r) && Invariant(u, w) && Telling(w, r) && !step.Fail? && !step.Send? && Moves(u, w, step)
    ensures var t := Next(u, w, step);
            ClientTrying(u, t.c) + ServerTrying(u, t.s, r) < ClientTrying(u, w.c) + ServerTrying(u, w.s, r)
  {
    hide Invariant, Turned, Telling, ClientAdvance, ServerAdvance, Written, HelloFrame;
    match step
    case Advance(Client) => ClientAdvanceTells(u, w, r);
    case Advance(Server) => ServerAdvanceTells(u, w, r);
    case Write(Client, n) => WriteShrinks(w.c, n);
    case Write(Server, n) => WriteShrinks(w.s, n);
    case _ =>
  }

  /** From every state it reaches there is a way on to the client knowing the reason. */
  lemma {:induction false} RefusedClientLearnsWhy(u: Setup, steps: seq<Step>, r: Refused) returns (more: seq<Step>)
    requires Turned(u, r) && Faultless(steps)
    ensures Faultless(more) && Run(u, steps + more).c.refused == Some(r) && Run(u, steps + more).c.phase.Failed?
    decreases var w := Run(u, steps); ClientTrying(u, w.c) + ServerTrying(u, w.s, r)
  {
    hide Next, Turned, Invariant, ClientTrying, ServerTrying;
    TurnedIsLossless(u, r);
    InvariantHolds(u, steps);
    RefusedClientFailsOnlyWithTheReason(u, steps, r);
    var w := Run(u, steps);
    if w.c.phase.Failed? {
      more := [];
      assert steps + more == steps;
    } else {
      var step := TellingProgresses(u, w, r);
      TellingShrinks(u, w, step, r);
      assert (steps + [step])[..|steps|] == steps;
      assert Run(u, steps + [step]) == Next(u, w, step);
      var rest := RefusedClientLearnsWhy(u, steps + [step], r);
      more := [step] + rest;
      assert steps + [step] + rest == steps + more;
    }
  }

  // ---------------------------------------------------------------- a peer that may send anything

  /** One side alone, with a peer whose whole stream is `stream`, of which the first bytes have come. */
  datatype Turn = Hear(arrived: nat) | Put(count: nat)

  function Facing(u: Setup, side: Side, stream: seq<u8>, turns: seq<Turn>): Party {
    if turns == [] then
      if side == Client then Initial(u).c else Initial(u).s
    else
      var p, turn := Facing(u, side, stream, turns[..|turns| - 1]), turns[|turns| - 1];
      if turn.Put? then Written(p, turn.count)
      else
        var incoming := stream[..Min(turn.arrived, |stream|)];
        if side == Client then ClientAdvance(u, p, incoming) else ServerAdvance(u, p, incoming)
  }

  predicate Begun(stream: seq<u8>, p: Party) {
    && (p.phase.Opening? || p.phase.AwaitingOffer? || p.phase.Offering? ==> p.read <= |stream|)
    && (p.phase.AwaitingOffer? ==> MAGIC <= stream && p.read == |MAGIC|)
  }

  lemma ServerBegins(u: Setup, stream: seq<u8>, p: Party, n: nat)
    requires Begun(stream, p) && n <= |stream|
    ensures Begun(stream, ServerAdvance(u, p, stream[..n]))
  {
    hide Negotiate, ValidHello, Frame, CheckRefusal;
  }

  lemma {:induction false} ServerHasBegun(u: Setup, stream: seq<u8>, turns: seq<Turn>)
    ensures Begun(stream, Facing(u, Server, stream, turns))
    decreases |turns|
  {
    hide ValidHello, ServerAdvance;
    if turns != [] {
      ServerHasBegun(u, stream, turns[..|turns| - 1]);
      var p, turn := Facing(u, Server, stream, turns[..|turns| - 1]), turns[|turns| - 1];
      if turn.Hear? {
        ServerBegins(u, stream, p, Min(turn.arrived, |stream|));
      }
    }
  }

  /** What a server past the offers has been sent. */
  predicate ServerWasSent(u: Setup, stream: seq<u8>, p: Party, body: seq<u8>) {
    && |body| <= HELLO_LIMIT && MAGIC + Frame(body) <= stream && u.decode(body).Some?
    && p.agreement.Some? && p.agreement == Negotiate(u.server, u.decode(body).value)
    && (p.phase.Offering? ==> p.read == |MAGIC + Frame(body)|)
    && (p.phase.Accepting? || p.phase.InSession? ==> MAGIC + Frame(body) + [1] <= stream)
  }

  predicate PastOffers(phase: Phase) {
    phase.Offering? || phase.Accepting? || phase.InSession?
  }

  lemma ServerStillWasSent(u: Setup, stream: seq<u8>, p: Party, n: nat, body: seq<u8>)
    requires ServerWasSent(u, stream, p, body) && PastOffers(p.phase) && n <= |stream|
    ensures var q := ServerAdvance(u, p, stream[..n]); PastOffers(q.phase) ==> ServerWasSent(u, stream, q, body)
  {
    hide Negotiate, Frame, ReadFrame;
    var q := ServerAdvance(u, p, stream[..n]);
    if p.phase.Offering? && q.phase.Accepting? {
      assert stream[|MAGIC + Frame(body)|] == 1;
      assert MAGIC + Frame(body) + [1] == stream[..|MAGIC + Frame(body)| + 1];
    }
  }

  lemma ServerIsSent(u: Setup, stream: seq<u8>, p: Party, n: nat) returns (body: seq<u8>)
    requires Begun(stream, p) && !PastOffers(p.phase) && n <= |stream| && PastOffers(ServerAdvance(u, p, stream[..n]).phase)
    ensures ServerWasSent(u, stream, ServerAdvance(u, p, stream[..n]), body)
  {
    hide Negotiate, Frame, ReadFrame, ServerReads;
    var incoming := stream[..n];
    assert p.phase.AwaitingOffer? && p.pending == [] && p.read == |MAGIC| <= n;
    var read := ReadFrame(incoming[p.read..], HELLO_LIMIT);
    body := read.body;
    OfferFollowsMagic(stream, n);
    ServerOffersBack(u, p.(read := p.read + read.used), body);
  }

  lemma OfferFollowsMagic(stream: seq<u8>, n: nat)
    requires MAGIC <= stream && |MAGIC| <= n <= |stream| && ReadFrame(stream[..n][|MAGIC|..], HELLO_LIMIT).Body?
    ensures var read := ReadFrame(stream[..n][|MAGIC|..], HELLO_LIMIT);
            |read.body| <= HELLO_LIMIT && MAGIC + Frame(read.body) <= stream && |MAGIC + Frame(read.body)| == |MAGIC| + read.used
  {
    hide Frame, ReadFrame;
    BodyIsFramed(stream[..n][|MAGIC|..], HELLO_LIMIT);
    var read := ReadFrame(stream[..n][|MAGIC|..], HELLO_LIMIT);
    assert MAGIC + Frame(read.body) == stream[..|MAGIC| + read.used];
  }

  lemma ServerOffersBack(u: Setup, p: Party, body: seq<u8>)
    requires p.phase.AwaitingOffer? && PastOffers(ServerReads(u, p, body).phase)
    ensures var q := ServerReads(u, p, body);
            && q.phase.Offering? && q.read == p.read && u.decode(body).Some?
            && q.agreement.Some? && q.agreement == Negotiate(u.server, u.decode(body).value)
  {
    hide Negotiate, Frame, RefusalFrame, Rejection;
  }

  /** Whatever the peer is and sends, a server is in session only if it was sent the magic number, an
      offer it negotiated its agreement with, and the acceptance. */
  lemma {:induction false} ServerSessionAgainstAnybody(u: Setup, stream: seq<u8>, turns: seq<Turn>) returns (body: seq<u8>)
    requires PastOffers(Facing(u, Server, stream, turns).phase)
    ensures ServerWasSent(u, stream, Facing(u, Server, stream, turns), body)
    decreases |turns|
  {
    hide ServerAdvance, ServerWasSent, Begun, ValidHello;
    var before, turn := turns[..|turns| - 1], turns[|turns| - 1];
    var p := Facing(u, Server, stream, before);
    ServerHasBegun(u, stream, before);
    var n := if turn.Hear? then Min(turn.arrived, |stream|) else 0;
    if PastOffers(p.phase) {
      body := ServerSessionAgainstAnybody(u, stream, before);
      if turn.Hear? {
        ServerStillWasSent(u, stream, p, n, body);
      } else {
        WritingWasSent(u, stream, p, turn.count, body);
      }
    } else {
      body := ServerIsSent(u, stream, p, n);
    }
  }

  lemma WritingWasSent(u: Setup, stream: seq<u8>, p: Party, count: nat, body: seq<u8>)
    requires ServerWasSent(u, stream, p, body)
    ensures ServerWasSent(u, stream, Written(p, count), body)
  {
    hide Negotiate, Frame;
  }

  predicate ClientWasSent(u: Setup, stream: seq<u8>, p: Party, body: seq<u8>) {
    && |body| <= HELLO_LIMIT && Frame(body) <= stream && u.decode(body).Some? && CheckRefusal(u.decode(body).value).Offer?
    && p.agreement.Some? && p.agreement == Negotiate(u.client, u.decode(body).value)
    && (p.phase.Accepting? ==> p.read == |Frame(body)|)
    && (p.phase.InSession? ==> Frame(body) + [1] <= stream)
  }

  predicate Accepted(phase: Phase) {
    phase.Accepting? || phase.InSession?
  }

  predicate AtStart(p: Party) {
    !Accepted(p.phase) && !p.phase.Failed? ==> p.read == 0
  }

  lemma ClientStaysAtStart(u: Setup, p: Party, incoming: seq<u8>)
    requires AtStart(p)
    ensures AtStart(ClientAdvance(u, p, incoming))
  {
    hide ReadFrame, Negotiate, CheckRefusal, Frame;
  }

  lemma {:induction false} ClientAtStart(u: Setup, stream: seq<u8>, turns: seq<Turn>)
    ensures AtStart(Facing(u, Client, stream, turns))
    decreases |turns|
  {
    hide ValidHello, ClientAdvance;
    if turns != [] {
      ClientAtStart(u, stream, turns[..|turns| - 1]);
      var p, turn := Facing(u, Client, stream, turns[..|turns| - 1]), turns[|turns| - 1];
      if turn.Hear? {
        ClientStaysAtStart(u, p, stream[..Min(turn.arrived, |stream|)]);
      }
    }
  }

  lemma ClientStillWasSent(u: Setup, stream: seq<u8>, p: Party, n: nat, body: seq<u8>)
    requires ClientWasSent(u, stream, p, body) && Accepted(p.phase) && n <= |stream|
    ensures var q := ClientAdvance(u, p, stream[..n]); Accepted(q.phase) ==> ClientWasSent(u, stream, q, body)
  {
    hide Negotiate, Frame, ReadFrame, CheckRefusal;
    var q := ClientAdvance(u, p, stream[..n]);
    if p.phase.Accepting? && q.phase.InSession? {
      assert stream[|Frame(body)|] == 1;
      assert Frame(body) + [1] == stream[..|Frame(body)| + 1];
    }
  }

  lemma ClientIsSent(u: Setup, stream: seq<u8>, p: Party, n: nat) returns (body: seq<u8>)
    requires AtStart(p) && !Accepted(p.phase) && n <= |stream| && Accepted(ClientAdvance(u, p, stream[..n]).phase)
    ensures ClientWasSent(u, stream, ClientAdvance(u, p, stream[..n]), body)
  {
    var incoming := stream[..n];
    assert p.phase.Offering? && p.pending == [] && p.read == 0;
    assert incoming[0..] == incoming;
    var read := ReadFrame(incoming, HELLO_LIMIT);
    body := read.body;
    BodyIsFramed(incoming, HELLO_LIMIT);
    hide Negotiate, Frame, ReadFrame, ValidHello, CheckRefusal;
  }

  /** The same for a client: an offer that is no refusal, agreed with, and the acceptance. */
  lemma {:induction false} ClientSessionAgainstAnybody(u: Setup, stream: seq<u8>, turns: seq<Turn>) returns (body: seq<u8>)
    requires Accepted(Facing(u, Client, stream, turns).phase)
    ensures ClientWasSent(u, stream, Facing(u, Client, stream, turns), body)
    decreases |turns|
  {
    hide ClientAdvance, ClientWasSent, AtStart, ValidHello;
    var before, turn := turns[..|turns| - 1], turns[|turns| - 1];
    var p := Facing(u, Client, stream, before);
    ClientAtStart(u, stream, before);
    var n := if turn.Hear? then Min(turn.arrived, |stream|) else 0;
    if Accepted(p.phase) {
      body := ClientSessionAgainstAnybody(u, stream, before);
      if turn.Hear? {
        ClientStillWasSent(u, stream, p, n, body);
      } else {
        ClientWritingWasSent(u, stream, p, turn.count, body);
      }
    } else {
      body := ClientIsSent(u, stream, p, n);
    }
  }

  lemma ClientWritingWasSent(u: Setup, stream: seq<u8>, p: Party, count: nat, body: seq<u8>)
    requires ClientWasSent(u, stream, p, body)
    ensures ClientWasSent(u, stream, Written(p, count), body)
  {
    hide Negotiate, Frame, CheckRefusal;
  }

  /** A side whose own offer is invalid says nothing at all; a server that refuses everybody needs
      no valid offer. */
  lemma {:induction false} InvalidOffersGoNowhere(u: Setup, steps: seq<Step>)
    ensures !ValidHello(u.client) ==> Run(u, steps).c.phase.Failed? && Run(u, steps).c.out == []
    ensures u.policy.None? && !ValidHello(u.server) ==> Run(u, steps).s.phase.Failed? && Run(u, steps).s.out == []
  {
    FailureIsFinal(u, [], steps);
    assert [] + steps == steps;
    hide ValidHello, Next;
  }

  /** A fault fails its side and leaves the other alone. */
  lemma {:induction false} FaultsFailOneSide(u: Setup, steps: seq<Step>, side: Side)
    ensures var w, t := Run(u, steps), Run(u, steps + [Fail(side)]);
            if side == Client then t.c.phase.Failed? && t.s == w.s else t.s.phase.Failed? && t.c == w.c
  {
    assert (steps + [Fail(side)])[..|steps|] == steps;
  }
}
