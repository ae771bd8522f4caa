/** Negotiated binary sessions (src/wire.rs): the terms two offers agree on, length-prefixed
    frames, and the codec that poisons itself. Protobuf bodies are opaque byte strings. */
module Wire {
  import opened Bytes
  import opened Numbers
  import opened Options

  const MAGIC: seq<u8> := [0x4b, 0x4e, 0x44, 0x50, 0x42, 0x30, 0x30, 0x32]
  const VERSION: nat := 2
  const MAX_FRAME: nat := 65_536
  const HELLO_LIMIT: nat := 1_024
  const MIN_FRAME: nat := 256

  // ---------------------------------------------------------------- offers

  /** A capability mask as the set of its bits: `&` is intersection, `a & !b == 0` inclusion. */
  type Capabilities = set<nat>

  datatype Terms = Terms(minimum: nat, maximum: nat, supported: Capabilities, required: Capabilities, maxFrame: nat)

  datatype Identity = Identity(serviceId: seq<u8>, application: string, profile: string, instance: string)

  datatype Refusal = NotRefused | ProtocolTooOld | PeerRejected | ServerRetiring | UnknownRefusal

  datatype Hello = Hello(terms: Terms, identity: Identity, refusal: Refusal, readsRefusal: bool)

  datatype Agreement = Agreement(version: nat, capabilities: Capabilities, maxFrame: nat)

  predicate Alphanumeric(c: char) {
    'a' <= c <= 'z' || '0' <= c <= '9'
  }

  /** The first or the last character of a part between dots. */
  predicate StartsPart(s: string, i: nat)
    requires i < |s|
  {
    i == 0 || s[i - 1] == '.'
  }

  predicate EndsPart(s: string, i: nat)
    requires i < |s|
  {
    i == |s| - 1 || s[i + 1] == '.'
  }

  predicate Starts(s: string) {
    forall i: nat :: i < |s| && StartsPart(s, i) ==> Alphanumeric(s[i])
  }

  predicate Ends(s: string) {
    forall i: nat :: i < |s| && EndsPart(s, i) ==> Alphanumeric(s[i])
  }

  /** Dot-separated parts, each starting and ending with a letter or digit. */
  predicate ValidComponent(s: string) {
    && 1 <= |s| <= 64
    && (forall i :: 0 <= i < |s| ==> Alphanumeric(s[i]) || s[i] == '-' || s[i] == '.')
    && Starts(s) && Ends(s)
  }

  function FirstDot(s: string): (d: nat)
    ensures d <= |s| && (forall i :: 0 <= i < d ==> s[i] != '.') && (d < |s| ==> s[d] == '.')
  {
    if s == [] || s[0] == '.' then 0 else 1 + FirstDot(s[1..])
  }

  /** The parts between the dots, at least one. */
  function Parts(s: string): seq<string> {
    var d := FirstDot(s);
    if d == |s| then [s] else [s[..d]] + Parts(s[d + 1..])
  }

  predicate ValidPart(part: string) {
    part != [] && Alphanumeric(part[0]) && Alphanumeric(part[|part| - 1])
  }

  predicate ValidParts(parts: seq<string>) {
    forall k :: 0 <= k < |parts| ==> ValidPart(parts[k])
  }

  lemma {:induction false} EdgesArePartEdges(s: string)
    ensures s != [] && Starts(s) && Ends(s) <==> ValidParts(Parts(s))
    decreases |s|
  {
    var d := FirstDot(s);
    if d == |s| {
      assert Parts(s) == [s] && Parts(s)[0] == s;
      if s != [] {
        assert StartsPart(s, 0) && EndsPart(s, |s| - 1);
      }
    } else {
      var rest := s[d + 1..];
      EdgesArePartEdges(rest);
      assert Parts(s) == [s[..d]] + Parts(rest);
      EdgesAtTheDot(s, d);
      PartsThenRest(s[..d], Parts(rest));
    }
  }

  lemma PartsThenRest(first: string, rest: seq<string>)
    ensures ValidParts([first] + rest) <==> ValidPart(first) && ValidParts(rest)
  {
    hide ValidPart;
    var all := [first] + rest;
    assert all[0] == first && forall k :: 0 <= k < |rest| ==> rest[k] == all[k + 1];
    assert forall k :: 0 < k < |all| ==> all[k] == rest[k - 1];
  }

  lemma EdgesAtTheDot(s: string, d: nat)
    requires d < |s| && s[d] == '.' && forall i :: 0 <= i < d ==> s[i] != '.'
    ensures Starts(s) && Ends(s) <==> ValidPart(s[..d]) && s[d + 1..] != [] && Starts(s[d + 1..]) && Ends(s[d + 1..])
  {
    if Starts(s) && Ends(s) {
      EdgesDivide(s, d);
    }
    if ValidPart(s[..d]) && s[d + 1..] != [] && Starts(s[d + 1..]) && Ends(s[d + 1..]) {
      EdgesJoin(s, d);
    }
  }

  lemma EdgesDivide(s: string, d: nat)
    requires d < |s| && s[d] == '.' && Starts(s) && Ends(s)
    ensures ValidPart(s[..d]) && s[d + 1..] != [] && Starts(s[d + 1..]) && Ends(s[d + 1..])
  {
    var rest := s[d + 1..];
    assert !StartsPart(s, d) && !EndsPart(s, d) && StartsPart(s, 0) && EndsPart(s, d - 1);
    forall i: nat | i < |rest| && StartsPart(rest, i) ensures Alphanumeric(rest[i]) {
      assert StartsPart(s, d + 1 + i);
    }
    forall i: nat | i < |rest| && EndsPart(rest, i) ensures Alphanumeric(rest[i]) {
      assert EndsPart(s, d + 1 + i);
    }
  }

  lemma EdgesJoin(s: string, d: nat)
    requires d < |s| && s[d] == '.' && forall i :: 0 <= i < d ==> s[i] != '.'
    requires ValidPart(s[..d]) && s[d + 1..] != [] && Starts(s[d + 1..]) && Ends(s[d + 1..])
    ensures Starts(s) && Ends(s)
  {
    var rest := s[d + 1..];
    assert StartsPart(rest, 0) && rest[0] == s[d + 1];
    forall i: nat | i < |s| && StartsPart(s, i) ensures Alphanumeric(s[i]) {
      if i > d {
        assert StartsPart(rest, i - d - 1);
      }
    }
    forall i: nat | i < |s| && EndsPart(s, i) ensures Alphanumeric(s[i]) {
      if i > d {
        assert EndsPart(rest, i - d - 1);
      }
    }
  }

  /** The check as the service identity makes it: lower-case letters, digits, dashes and dots, and
      every part between dots begins and ends with a letter or digit. */
  lemma ValidComponentIsByParts(s: string)
    ensures ValidComponent(s) <==>
              && 0 < |s| <= 64
              && (forall c :: c in s ==> c == '-' || c == '.' || Alphanumeric(c))
              && ValidParts(Parts(s))
  {
    EdgesArePartEdges(s);
    hide Parts, Starts, Ends;
    assert forall i :: 0 <= i < |s| ==> s[i] in s;
  }

  lemma Letters(c: char)
    requires 'a' <= c <= 'z'
    ensures c in "abcdefghijklmnopqrstuvwxyz"
  {
    assert "abcdefghijklmnopqrstuvwxyz"[c as int - 'a' as int] == c;
  }

  lemma Digits(c: char)
    requires '0' <= c <= '9'
    ensures c in "0123456789"
  {
    assert "0123456789"[c as int - '0' as int] == c;
  }

  lemma AlphanumericIsALetterOrDigit(c: char)
    ensures Alphanumeric(c) <==> c in "abcdefghijklmnopqrstuvwxyz" || c in "0123456789"
  {
    if 'a' <= c <= 'z' {
      Letters(c);
    } else if '0' <= c <= '9' {
      Digits(c);
    }
  }

  predicate ValidIdentity(i: Identity) {
    && |i.serviceId| == 16 && (exists k :: 0 <= k < 16 && i.serviceId[k] != 0)
    && ValidComponent(i.application) && ValidComponent(i.profile) && ValidComponent(i.instance)
  }

  predicate ValidTerms(t: Terms) {
    t.minimum != 0 && t.minimum <= t.maximum && t.required <= t.supported && MIN_FRAME <= t.maxFrame <= MAX_FRAME
  }

  predicate ValidHello(h: Hello) {
    ValidIdentity(h.identity) && ValidTerms(h.terms)
  }

  function Agree(local: Terms, remote: Terms): Option<Agreement> {
    var minimum := Max(local.minimum, remote.minimum);
    var maximum := Min(local.maximum, remote.maximum);
    if minimum > VERSION || maximum < VERSION then None
    else
      var capabilities := local.supported * remote.supported;
      if !(local.required + remote.required <= capabilities) then None
      else Some(Agreement(VERSION, capabilities, Min(local.maxFrame, remote.maxFrame)))
  }

  function Negotiate(local: Hello, remote: Hello): Option<Agreement> {
    if !ValidHello(local) || !ValidHello(remote) || local.identity != remote.identity then None
    else Agree(local.terms, remote.terms)
  }

  /** Both peers calculate the agreement on their own, and get the same one or none. */
  lemma NegotiateIsSymmetric(a: Hello, b: Hello)
    ensures Negotiate(a, b) == Negotiate(b, a)
  {
    assert a.terms.supported * b.terms.supported == b.terms.supported * a.terms.supported;
    assert a.terms.required + b.terms.required == b.terms.required + a.terms.required;
  }

  /** When there is an agreement, exactly: both offers are valid, name one service, allow this version
      and cover each other's requirements. And what it is: this version, the capabilities both
      support, and the smaller of the two frame limits. */
  lemma AgreementIsExact(a: Hello, b: Hello)
    ensures Negotiate(a, b).Some? <==>
              && ValidHello(a) && ValidHello(b) && a.identity == b.identity
              && a.terms.minimum <= VERSION <= a.terms.maximum && b.terms.minimum <= VERSION <= b.terms.maximum
              && a.terms.required <= b.terms.supported && b.terms.required <= a.terms.supported
    ensures Negotiate(a, b).Some? ==>
              var agreed := Negotiate(a, b).value;
              && agreed.version == VERSION
              && MIN_FRAME <= agreed.maxFrame <= MAX_FRAME
              && agreed.maxFrame <= a.terms.maxFrame && agreed.maxFrame <= b.terms.maxFrame
              && (agreed.maxFrame == a.terms.maxFrame || agreed.maxFrame == b.terms.maxFrame)
              && (forall c :: c in agreed.capabilities <==> c in a.terms.supported && c in b.terms.supported)
              && a.terms.required + b.terms.required <= agreed.capabilities
  {
    hide ValidIdentity;
    assert a.terms.required + b.terms.required <= a.terms.supported * b.terms.supported <==>
           && a.terms.required <= a.terms.supported && a.terms.required <= b.terms.supported
           && b.terms.required <= a.terms.supported && b.terms.required <= b.terms.supported;
  }

  /** Nobody agrees with an unsound offer: the service has a name that is not nil and well-formed
      components, and the terms are in order. */
  lemma AgreedOffersAreSound(a: Hello, b: Hello)
    requires Negotiate(a, b).Some?
    ensures |a.identity.serviceId| == 16 && exists k :: 0 <= k < 16 && a.identity.serviceId[k] != 0
    ensures forall s :: s in [a.identity.application, a.identity.profile, a.identity.instance] ==>
              0 < |s| <= 64 && (forall c :: c in s ==> c == '-' || c == '.' || Alphanumeric(c)) && ValidParts(Parts(s))
    ensures forall t :: t in [a.terms, b.terms] ==>
              0 < t.minimum <= VERSION <= t.maximum && t.required <= t.supported && 256 <= t.maxFrame <= 65_536
  {
    AgreementIsExact(a, b);
    ValidComponentIsByParts(a.identity.application);
    ValidComponentIsByParts(a.identity.profile);
    ValidComponentIsByParts(a.identity.instance);
    hide ValidComponent, ValidParts, Parts;
  }

  lemma OrdinaryComponents()
    ensures ValidComponent("a") && ValidComponent("b") && ValidComponent("c")
  {
  }

  /** Two ordinary offers that agree, and on what. */
  lemma OrdinaryOffersAgree(id: seq<u8>)
    requires |id| == 16 && id[0] != 0
    ensures var identity := Identity(id, "a", "b", "c");
            var a := Hello(Terms(2, 2, {0, 1}, {0, 1}, 65_536), identity, NotRefused, true);
            var b := Hello(Terms(1, 3, {0, 1, 2}, {}, 256), identity, NotRefused, true);
            Negotiate(a, b) == Some(Agreement(2, {0, 1}, 256))
  {
    var a, b: set<nat> := {0, 1}, {0, 1, 2};
    assert a * b == {0, 1};
    OrdinaryComponents();
    hide ValidComponent;
  }

  // ---------------------------------------------------------------- refusals

  datatype Refused = TooOld | Rejected | Retiring

  function Code(r: Refused): Refusal {
    match r
    case TooOld => ProtocolTooOld
    case Rejected => PeerRejected
    case Retiring => ServerRetiring
  }

  /** A frame that refuses `remote`: only its refusal is set. */
  function RefusalHello(r: Refused): Hello {
    Hello(Terms(0, 0, {}, {}, 0), Identity([], "", "", ""), Code(r), false)
  }

  function RefusalFrame(r: Refused, offer: Hello, remote: Hello): Option<Hello> {
    if remote.readsRefusal && offer.identity == remote.identity && ValidHello(remote) then Some(RefusalHello(r)) else None
  }

  /** What a server sends before closing on a failed negotiation. */
  function Rejection(offer: Hello, remote: Hello): Option<Hello> {
    if remote.terms.maximum < VERSION || !(offer.terms.required <= remote.terms.supported)
    then RefusalFrame(TooOld, offer, remote) else None
  }

  datatype Checked = Offer | RefusedFor(reason: Refused) | RefusedUnknown

  function CheckRefusal(remote: Hello): Checked {
    match remote.refusal
    case NotRefused => Offer
    case ProtocolTooOld => RefusedFor(TooOld)
    case PeerRejected => RefusedFor(Rejected)
    case ServerRetiring => RefusedFor(Retiring)
    case UnknownRefusal => RefusedUnknown
  }

  /** A refusal reads back as the reason it was sent for. A client is told it is too old exactly if
      it lacks the version or a capability the server requires, reads refusals, and sent a valid
      offer for the same service; and then negotiation did fail. */
  lemma RefusalsReadBack(r: Refused, offer: Hello, remote: Hello)
    ensures CheckRefusal(RefusalHello(r)) == RefusedFor(r)
    ensures ValidHello(offer) && Rejection(offer, remote).Some? ==>
              Negotiate(offer, remote).None? && CheckRefusal(Rejection(offer, remote).value) == RefusedFor(TooOld)
    ensures Rejection(offer, remote).Some? <==>
              && (remote.terms.maximum < VERSION || exists c :: c in offer.terms.required && c !in remote.terms.supported)
              && remote.readsRefusal && offer.identity == remote.identity && ValidHello(remote)
    ensures RefusalFrame(r, offer, remote)
            == if remote.readsRefusal && offer.identity == remote.identity && ValidHello(remote) then Some(RefusalHello(r)) else None
  {
    AgreementIsExact(offer, remote);
  }

  // ---------------------------------------------------------------- frames

  function Le32(n: nat): (b: seq<u8>)
    requires n <= MAX_U32
    ensures |b| == 4
  {
    [(n % 256) as u8, (n / 0x100 % 256) as u8, (n / 0x1_0000 % 256) as u8, (n / 0x100_0000) as u8]
  }

  function FromLe32(b: seq<u8>): nat
    requires |b| == 4
  {
    b[0] as nat + 0x100 * b[1] as nat + 0x1_0000 * b[2] as nat + 0x100_0000 * b[3] as nat
  }

  lemma Le32ReadsBack(n: nat)
    requires n <= MAX_U32
    ensures FromLe32(Le32(n)) == n
  {
    assert n == n % 256 + 0x100 * (n / 0x100);
    assert n / 0x100 == n / 0x100 % 256 + 0x100 * (n / 0x1_0000);
    assert n / 0x1_0000 == n / 0x1_0000 % 256 + 0x100 * (n / 0x100_0000);
  }

  predicate Sendable(body: seq<u8>, limit: nat) {
    0 < |body| <= limit <= MAX_FRAME
  }

  function Frame(body: seq<u8>): seq<u8>
    requires |body| <= MAX_U32
  {
    Le32(|body|) + body
  }

  datatype Read = NeedMore | Malformed | Body(body: seq<u8>, used: nat)

  function ReadFrame(s: seq<u8>, limit: nat): Read {
    if |s| < 4 then NeedMore
    else
      var n := FromLe32(s[..4]);
      if n == 0 || n > limit then Malformed
      else if |s| < 4 + n then NeedMore
      else Body(s[4..4 + n], 4 + n)
  }

  /** Whatever part of `Frame(body)` and what follows has arrived, a reader either waits or
      gets exactly that body and consumes exactly its frame. */
  lemma ReadFrameOfPrefix(s: seq<u8>, body: seq<u8>, tail: seq<u8>, limit: nat)
    requires Sendable(body, limit)
    requires s <= Frame(body) + tail
    ensures ReadFrame(s, limit) == if |s| < |Frame(body)| then NeedMore else Body(body, |Frame(body)|)
  {
    if |s| >= 4 {
      assert s[..4] == Le32(|body|);
      Le32ReadsBack(|body|);
      if |s| >= 4 + |body| {
        assert s[4..4 + |body|] == body;
      }
    }
  }

  lemma Le32IsRead(b: seq<u8>)
    requires |b| == 4
    ensures FromLe32(b) <= MAX_U32 && Le32(FromLe32(b)) == b
  {
    var b0, b1, b2, b3 := b[0] as nat, b[1] as nat, b[2] as nat, b[3] as nat;
    var n := FromLe32(b);
    ByteSplits(n, b0, b1 + 0x100 * (b2 + 0x100 * b3));
    ByteSplits(b1 + 0x100 * (b2 + 0x100 * b3), b1, b2 + 0x100 * b3);
    TwoBytesSplit(n, b0 + 0x100 * b1, b2 + 0x100 * b3);
    ByteSplits(b2 + 0x100 * b3, b2, b3);
    ThreeBytesSplit(n, b0 + 0x100 * b1 + 0x1_0000 * b2, b3);
  }

  lemma ByteSplits(n: nat, low: nat, high: nat)
    requires low < 0x100 && n == low + 0x100 * high
    ensures n % 0x100 == low && n / 0x100 == high
  {
  }

  lemma TwoBytesSplit(n: nat, low: nat, high: nat)
    requires low < 0x1_0000 && n == low + 0x1_0000 * high
    ensures n / 0x1_0000 == high
  {
  }

  lemma ThreeBytesSplit(n: nat, low: nat, high: nat)
    requires low < 0x100_0000 && n == low + 0x100_0000 * high
    ensures n / 0x100_0000 == high
  {
  }

  /** A body is read only from its own frame. */
  lemma BodyIsFramed(s: seq<u8>, limit: nat)
    requires ReadFrame(s, limit).Body? && limit <= MAX_FRAME
    ensures var read := ReadFrame(s, limit); Sendable(read.body, limit) && Frame(read.body) <= s && read.used == |Frame(read.body)|
  {
    var read := ReadFrame(s, limit);
    Le32IsRead(s[..4]);
    assert Frame(read.body) == s[..read.used];
  }

  /** A length is judged as soon as it is in: a reader with four bytes or more gives up exactly if
      they begin no frame that could be sent. */
  lemma BadLengthIsRefusedAtOnce(s: seq<u8>, limit: nat)
    requires |s| >= 4 && limit <= MAX_FRAME
    ensures ReadFrame(s, limit).Malformed? <==>
              forall body :: Sendable(body, limit) ==> !(Frame(body) <= s) && !(s <= Frame(body))
  {
    var n := FromLe32(s[..4]);
    Le32IsRead(s[..4]);
    if ReadFrame(s, limit).Malformed? {
      forall body | Sendable(body, limit) ensures !(Frame(body) <= s) && !(s <= Frame(body)) {
        Le32ReadsBack(|body|);
        assert Frame(body)[..4] == Le32(|body|);
      }
    } else if |s| < 4 + n {
      var body := s[4..] + seq(4 + n - |s|, i => 0 as u8);
      assert Sendable(body, limit) && s <= Frame(body);
    } else {
      BodyIsFramed(s, limit);
    }
  }

  function Frames(bodies: seq<seq<u8>>): seq<u8>
    requires forall i :: 0 <= i < |bodies| ==> |bodies[i]| <= MAX_U32
  {
    if bodies == [] then [] else Frames(bodies[..|bodies| - 1]) + Frame(bodies[|bodies| - 1])
  }

  // ---------------------------------------------------------------- the codec

  /** One end of a stream: `unread` is what its peer has sent up to the end of the stream, and
      `written` everything this end has put on the wire. */
  class Framed {
    var unread: seq<u8>
    var written: seq<u8>
    var limit: nat
    var failed: bool

    ghost predicate Valid()
      reads this
    {
      MIN_FRAME <= limit <= MAX_FRAME
    }

    constructor (unread: seq<u8>, limit: nat)
      requires MIN_FRAME <= limit <= MAX_FRAME
      ensures Valid() && this.unread == unread && written == [] && this.limit == limit && !failed
    {
      this.unread, this.written, this.limit, this.failed := unread, [], limit, false;
    }

    /** The transport takes `accepted` bytes and then may fail to flush. A message that does
        not fit is refused before any byte moves and poisons nothing; a write that does not
        complete poisons the codec. */
    method Send(body: seq<u8>, accepted: nat, flushed: bool) returns (ok: bool)
      requires Valid()
      modifies this
      ensures Valid() && unread == old(unread) && limit == old(limit)
      ensures ok <==> !old(failed) && Sendable(body, limit) && accepted >= 4 + |body| && flushed
      ensures ok ==> !failed && written == old(written) + Frame(body)
      ensures old(failed) || !Sendable(body, limit) ==> written == old(written) && failed == old(failed)
      ensures !old(failed) && Sendable(body, limit) && !ok ==> failed && old(written) <= written <= old(written) + Frame(body)
    {
      if failed {
        return false;
      }
      if !(0 < |body| <= limit) {
        return false;
      }
      failed := true;
      var buffer := Frame(body);
      if accepted < |buffer| {
        written := written + buffer[..accepted];
        return false;
      }
      written := written + buffer;
      if !flushed {
        return false;
      }
      failed := false;
      ok := true;
    }

    /** Read exactly one message, nothing of the next; any error, a body that does not decode
        included, poisons the codec. */
    method Receive(decodes: seq<u8> -> bool) returns (r: Option<seq<u8>>)
      requires Valid()
      modifies this
      ensures Valid() && written == old(written) && limit == old(limit)
      ensures old(failed) ==> r == None && failed && unread == old(unread)
      ensures !old(failed) ==>
                match ReadFrame(old(unread), limit)
                case Body(body, used) =>
                  && used <= |old(unread)| && unread == old(unread)[used..]
                  && (if decodes(body) then r == Some(body) && !failed else r == None && failed)
                case _ => r == None && failed
    {
      if failed {
        return None;
      }
      failed := true;
      if |unread| < 4 {
        unread := [];
        return None;
      }
      var length := FromLe32(unread[..4]);
      if length == 0 || length > limit {
        unread := unread[4..];
        return None;
      }
      if |unread| < 4 + length {
        unread := [];
        return None;
      }
      var body := unread[4..4 + length];
      unread := unread[4 + length..];
      if !decodes(body) {
        return None;
      }
      r := Some(body);
      failed := false;
    }
  }
}
