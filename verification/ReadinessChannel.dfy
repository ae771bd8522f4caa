/** The readiness channel from a daemon to its launcher (src/readiness/channel.rs): one message
    per line, decoded a byte at a time, and an absorbing state that fixes the launcher's
    answer. */
module ReadinessChannel {
  import opened Bytes
  import opened Numbers
  import opened Options

  const MAX_MESSAGE: nat := 256
  const MAX_DETAIL: nat := MAX_MESSAGE - 10
  const NEWLINE: u8 := 10
  const SPACE: u8 := 0x20
  const READY: seq<u8> := [0x72, 0x65, 0x61, 0x64, 0x79]
  const PROGRESS: seq<u8> := [0x70, 0x72, 0x6f, 0x67, 0x72, 0x65, 0x73, 0x73]

  // ---------------------------------------------------------------- wire format

  datatype Message = Ready | Progress(detail: Option<seq<u8>>)

  predicate Printable(bytes: seq<u8>) {
    forall i :: 0 <= i < |bytes| ==> 0x20 <= bytes[i] <= 0x7e
  }

  function Parse(line: seq<u8>): Option<Message> {
    if line == READY then Some(Message.Ready)
    else if line == PROGRESS then Some(Message.Progress(None))
    else if PROGRESS + [SPACE] <= line && line != PROGRESS + [SPACE] && Printable(line[9..])
    then Some(Message.Progress(Some(line[9..])))
    else None
  }

  /** What the protocol can say, and how: the notifier's side. */
  predicate Sayable(m: Message) {
    m.Progress? && m.detail.Some? ==> m.detail.value != [] && Printable(m.detail.value) && |m.detail.value| <= MAX_DETAIL
  }

  function Line(m: Message): seq<u8> {
    match m
    case Ready => READY
    case Progress(None) => PROGRESS
    case Progress(Some(detail)) => PROGRESS + [SPACE] + detail
  }

  function Encoded(m: Message): seq<u8> {
    Line(m) + [NEWLINE]
  }

  /** Fails exactly on a detail that is too long or not printable; an empty one sends none. */
  method ProgressLine(detail: seq<u8>) returns (r: Option<seq<u8>>)
    ensures r.Some? <==> |detail| <= MAX_DETAIL && Printable(detail)
    ensures r.Some? ==> var m := Message.Progress(if detail == [] then None else Some(detail));
                      Sayable(m) && r.value == Encoded(m) && |r.value| <= MAX_MESSAGE
  {
    if |detail| > MAX_DETAIL || !Printable(detail) {
      return None;
    }
    var line := PROGRESS;
    if detail != [] {
      line := line + [SPACE];
      line := line + detail;
    }
    line := line + [NEWLINE];
    r := Some(line);
  }

  /** A line short enough to be buffered decodes to a message exactly when it is that message's
      encoding. */
  lemma ParseIsExact(line: seq<u8>, m: Message)
    requires |line| < MAX_MESSAGE
    ensures Parse(line) == Some(m) <==> Sayable(m) && Line(m) == line
  {
    if m.Progress? && m.detail.Some? {
      var whole := PROGRESS + [SPACE] + m.detail.value;
      assert whole[9..] == m.detail.value;
      assert PROGRESS + [SPACE] <= whole;
      if Parse(line) == Some(m) {
        assert line == PROGRESS + [SPACE] + line[9..];
      }
    }
  }

  lemma LineHasNoNewline(m: Message)
    requires Sayable(m)
    ensures NEWLINE !in Line(m) && |Line(m)| < MAX_MESSAGE
  {
  }

  // ---------------------------------------------------------------- the decoder

  datatype Step = More | Decoded(message: Message) | Bad

  function Pushed(line: seq<u8>, byte: u8): (seq<u8>, Step) {
    if byte == NEWLINE then
      var m := Parse(line);
      ([], if m.None? then Bad else Decoded(m.value))
    else if |line| >= MAX_MESSAGE - 1 then (line, Bad)
    else (line + [byte], More)
  }

  class Decoder {
    var line: seq<u8>

    constructor ()
      ensures line == []
    {
      line := [];
    }

    method Push(byte: u8) returns (step: Step)
      requires |line| < MAX_MESSAGE
      modifies this
      ensures (line, step) == Pushed(old(line), byte)
      ensures |line| < MAX_MESSAGE
    {
      if byte == NEWLINE {
        var message := Parse(line);
        line := [];
        return if message.None? then Bad else Decoded(message.value);
      }
      if |line| >= MAX_MESSAGE - 1 {
        return Bad;
      }
      line := line + [byte];
      step := More;
    }
  }

  datatype Event = Progressed | Readied | Malformed | Closed

  /** One `post`: the event, and the detail of a progress message. */
  datatype Post = Post(event: Event, detail: Option<seq<u8>>)

  function Posted(m: Message): Post {
    match m
    case Ready => Post(Readied, None)
    case Progress(detail) => Post(Progressed, detail)
  }

  /** The posts of a run of bytes, what is left in the buffer, and whether reading is over. */
  datatype Fed = Fed(line: seq<u8>, posts: seq<Post>, done: bool)

  function Feed(line: seq<u8>, bytes: seq<u8>): Fed
    decreases |bytes|
  {
    if bytes == [] then Fed(line, [], false)
    else
      var (next, step) := Pushed(line, bytes[0]);
      match step
      case More => Feed(next, bytes[1..])
      case Bad => Fed(next, [Post(Malformed, None)], true)
      case Decoded(m) =>
        if m.Ready? then Fed(next, [Posted(m)], true)
        else
          var rest := Feed(next, bytes[1..]);
          rest.(posts := [Posted(m)] + rest.posts)
  }

  // ---------------------------------------------------------------- the reader

  datatype Data = Chunk(bytes: seq<u8>) | Interrupted | Ended

  /** What one `read` returned: a nonzero count of bytes, an interruption, or the end (of the
      stream and a final error look alike); and whether the launcher had dropped its channel by then. */
  datatype Reading = Reading(data: Data, dropped: bool)

  /** The bytes that arrive before the stream ends. */
  function Stream(readings: seq<Reading>): seq<u8> {
    if readings == [] || readings[0].data.Ended? then []
    else (if readings[0].data.Chunk? then readings[0].data.bytes else []) + Stream(readings[1..])
  }

  predicate EndsIn(readings: seq<Reading>) {
    exists i :: 0 <= i < |readings| && readings[i].data.Ended?
  }

  /** `read_messages` over the reads it makes; `posts` is what it posted. When the reads run
      out it is still waiting for the next one. The events depend only on the bytes. */
  method ReadMessages(readings: seq<Reading>) returns (posts: seq<Post>)
    ensures posts <= Feed([], Stream(readings)).posts + [Post(Closed, None)]
    ensures (forall i :: 0 <= i < |readings| ==> !readings[i].dropped) ==>
              var fed := Feed([], Stream(readings));
              posts == fed.posts + if !fed.done && EndsIn(readings) then [Post(Closed, None)] else []
  {
    hide Feed;
    var decoder := new Decoder();
    posts := [];
    ghost var all := Feed([], Stream(readings));
    for i := 0 to |readings|
      invariant fresh(decoder) && |decoder.line| < MAX_MESSAGE
      invariant forall j :: 0 <= j < i ==> !readings[j].data.Ended?
      invariant var rest := Feed(decoder.line, Stream(readings[i..]));
                posts + rest.posts == all.posts && rest.done == all.done
    {
      StreamStep(readings, i);
      FeedNothing(decoder.line);
      if readings[i].dropped {
        return;
      }
      match readings[i].data
      case Ended =>
        posts := posts + [Post(Closed, None)];
        return;
      case Interrupted =>
      case Chunk(bytes) =>
        FeedAppends(decoder.line, bytes, Stream(readings[i + 1..]));
        var more, done := PushAll(decoder, bytes);
        posts := posts + more;
        if done {
          return;
        }
    }
    FeedNothing(decoder.line);
  }

  lemma FeedNothing(line: seq<u8>)
    ensures Feed(line, []) == Fed(line, [], false)
  {
  }

  lemma StreamStep(readings: seq<Reading>, i: nat)
    requires i < |readings|
    ensures Stream(readings[i..])
            == match readings[i].data
               case Chunk(bytes) => bytes + Stream(readings[i + 1..])
               case Interrupted => Stream(readings[i + 1..])
               case Ended => []
  {
    assert readings[i..][1..] == readings[i + 1..];
    assert [] + Stream(readings[i + 1..]) == Stream(readings[i + 1..]);
  }

  /** The inner loop: the bytes of one read. */
  method PushAll(decoder: Decoder, bytes: seq<u8>) returns (posts: seq<Post>, done: bool)
    requires |decoder.line| < MAX_MESSAGE
    modifies decoder
    ensures |decoder.line| < MAX_MESSAGE
    ensures Fed(decoder.line, posts, done) == Feed(old(decoder.line), bytes)
  {
    posts, done := [], false;
    ghost var all := Feed(decoder.line, bytes);
    for i := 0 to |bytes|
      invariant |decoder.line| < MAX_MESSAGE
      invariant var rest := Feed(decoder.line, bytes[i..]);
                all == Fed(rest.line, posts + rest.posts, rest.done)
    {
      assert bytes[i..][1..] == bytes[i + 1..];
      var step := decoder.Push(bytes[i]);
      match step
      case More =>
      case Bad =>
        posts := posts + [Post(Malformed, None)];
        done := true;
        return;
      case Decoded(m) =>
        posts := posts + [Posted(m)];
        if m.Ready? {
          done := true;
          return;
        }
    }
  }

  /** Only the last post of a stream can be final: reading ends there. */
  lemma {:induction false} OnlyTheLastPostIsFinal(line: seq<u8>, bytes: seq<u8>)
    ensures var fed := Feed(line, bytes);
            && (forall i :: 0 <= i < |fed.posts| - 1 ==> fed.posts[i].event.Progressed?)
            && (fed.posts != [] && !fed.done ==> fed.posts[|fed.posts| - 1].event.Progressed?)
    decreases |bytes|
  {
    if bytes != [] {
      OnlyTheLastPostIsFinal(Pushed(line, bytes[0]).0, bytes[1..]);
      hide Parse;
    }
  }

  /** How the reads happen to split the stream never matters. */
  lemma {:induction false} FeedAppends(line: seq<u8>, a: seq<u8>, b: seq<u8>)
    ensures var first := Feed(line, a);
            var second := Feed(first.line, b);
            Feed(line, a + b) == if first.done then first else Fed(second.line, first.posts + second.posts, second.done)
    decreases |a|
  {
    if a == [] {
      assert a + b == b;
    } else {
      assert (a + b)[0] == a[0] && (a + b)[1..] == a[1..] + b;
      FeedAppends(Pushed(line, a[0]).0, a[1..], b);
    }
  }

  // ---------------------------------------------------------------- line by line

  function FirstNewline(s: seq<u8>): (n: nat)
    ensures n <= |s| && NEWLINE !in s[..n]
    ensures n < |s| ==> s[n] == NEWLINE
  {
    if s == [] || s[0] == NEWLINE then 0
    else
      var n := FirstNewline(s[1..]);
      assert s[..n + 1] == [s[0]] + s[1..][..n];
      n + 1
  }

  /** The same stream read as the protocol describes it: whole lines of bounded length. */
  function ByLine(s: seq<u8>): Fed
    decreases |s|
  {
    var n := FirstNewline(s);
    if n >= MAX_MESSAGE then Fed(s[..MAX_MESSAGE - 1], [Post(Malformed, None)], true)
    else if n == |s| then Fed(s, [], false)
    else
      match Parse(s[..n])
      case None => Fed([], [Post(Malformed, None)], true)
      case Some(Ready) => Fed([], [Post(Readied, None)], true)
      case Some(Progress(detail)) =>
        var rest := ByLine(s[n + 1..]);
        rest.(posts := [Post(Progressed, detail)] + rest.posts)
  }

  lemma {:induction false} FeedPlain(line: seq<u8>, bytes: seq<u8>)
    requires NEWLINE !in bytes && |line| < MAX_MESSAGE
    ensures Feed(line, bytes) == if |line| + |bytes| < MAX_MESSAGE then Fed(line + bytes, [], false)
                                 else Fed((line + bytes)[..MAX_MESSAGE - 1], [Post(Malformed, None)], true)
    decreases |bytes|
  {
    if bytes == [] {
      assert line + bytes == line;
    } else if |line| == MAX_MESSAGE - 1 {
      assert (line + bytes)[..MAX_MESSAGE - 1] == line;
    } else {
      FeedPlain(line + [bytes[0]], bytes[1..]);
      assert line + [bytes[0]] + bytes[1..] == line + bytes;
    }
  }

  lemma {:induction false} FeedLong(s: seq<u8>, n: nat)
    requires MAX_MESSAGE <= n <= |s| && NEWLINE !in s[..n]
    ensures Feed([], s) == Fed(s[..MAX_MESSAGE - 1], [Post(Malformed, None)], true)
  {
    hide Feed;
    FeedPlain([], s[..n]);
    assert [] + s[..n] == s[..n] && s[..n][..MAX_MESSAGE - 1] == s[..MAX_MESSAGE - 1];
    FeedAppends([], s[..n], s[n..]);
    assert s == s[..n] + s[n..];
  }

  /** A first line within the limit, and what follows it. */
  lemma {:induction false} FeedLine(s: seq<u8>, n: nat)
    requires n < |s| && n < MAX_MESSAGE && NEWLINE !in s[..n] && s[n] == NEWLINE
    ensures Feed([], s)
            == match Parse(s[..n])
               case None => Fed([], [Post(Malformed, None)], true)
               case Some(Ready) => Fed([], [Post(Readied, None)], true)
               case Some(Progress(detail)) =>
                 var rest := Feed([], s[n + 1..]);
                 rest.(posts := [Post(Progressed, detail)] + rest.posts)
  {
    hide Feed, Parse;
    FeedPlain([], s[..n]);
    assert [] + s[..n] == s[..n] && s == s[..n] + s[n..] && s[n..][1..] == s[n + 1..];
    FeedAppends([], s[..n], s[n..]);
    FeedNewline(s[..n], s[n..]);
    var second := Feed(s[..n], s[n..]);
    assert [] + second.posts == second.posts;
  }

  /** Decoding a byte at a time is reading line by line. */
  lemma {:induction false} FeedIsByLine(s: seq<u8>)
    ensures Feed([], s) == ByLine(s)
    decreases |s|
  {
    hide Feed, Parse, FirstNewline;
    var n := FirstNewline(s);
    if n >= MAX_MESSAGE {
      FeedLong(s, n);
    } else if n == |s| {
      assert s[..n] == s && [] + s == s;
      FeedPlain([], s);
    } else {
      FeedLine(s, n);
      FeedIsByLine(s[n + 1..]);
    }
  }

  /** What a newline does to a buffered line. */
  lemma FeedNewline(line: seq<u8>, bytes: seq<u8>)
    requires bytes != [] && bytes[0] == NEWLINE
    ensures Feed(line, bytes)
            == match Parse(line)
               case None => Fed([], [Post(Malformed, None)], true)
               case Some(Ready) => Fed([], [Post(Readied, None)], true)
               case Some(Progress(detail)) =>
                 var rest := Feed([], bytes[1..]);
                 rest.(posts := [Post(Progressed, detail)] + rest.posts)
  {
  }

  // ---------------------------------------------------------------- an honest daemon

  function Conversation(ms: seq<Message>): seq<u8> {
    if ms == [] then [] else Encoded(ms[0]) + Conversation(ms[1..])
  }

  function Posts(ms: seq<Message>): seq<Post> {
    if ms == [] then [] else [Posted(ms[0])] + Posts(ms[1..])
  }

  predicate OnlyProgress(ms: seq<Message>) {
    forall i :: 0 <= i < |ms| ==> ms[i].Progress? && Sayable(ms[i])
  }

  lemma FeedOne(m: Message, rest: seq<u8>)
    requires Sayable(m)
    ensures Feed([], Encoded(m) + rest)
            == if m.Ready? then Fed([], [Posted(m)], true)
               else var fed := Feed([], rest); fed.(posts := [Posted(m)] + fed.posts)
  {
    hide Feed, Parse, Line, Sayable;
    LineHasNoNewline(m);
    ParseIsExact(Line(m), m);
    var s, n := Encoded(m) + rest, |Line(m)|;
    assert s[..n] == Line(m) && s[n] == NEWLINE && s[n + 1..] == rest;
    FeedLine(s, n);
  }

  /** A daemon that reports any progress and then says ready is heard exactly. */
  lemma {:induction false} HonestDaemonIsHeard(ms: seq<Message>)
    requires OnlyProgress(ms)
    ensures var fed := Feed([], Conversation(ms) + Encoded(Message.Ready));
            fed.done && fed.posts == Posts(ms) + [Post(Readied, None)]
    decreases |ms|
  {
    var ready := Encoded(Message.Ready);
    if ms == [] {
      assert Conversation(ms) + ready == ready + [];
      FeedOne(Message.Ready, []);
    } else {
      assert Conversation(ms) + ready == Encoded(ms[0]) + (Conversation(ms[1..]) + ready);
      FeedOne(ms[0], Conversation(ms[1..]) + ready);
      HonestDaemonIsHeard(ms[1..]);
    }
  }

  /** One that dies part way, even inside a message, is never taken for malformed or ready: the
      launcher hears the first of its progress reports and then only the end of the channel. */
  lemma DyingDaemonIsHeardAsDead(ms: seq<Message>, cut: seq<u8>)
    requires OnlyProgress(ms)
    requires cut <= Conversation(ms) + Encoded(Message.Ready) && cut != Conversation(ms) + Encoded(Message.Ready)
    ensures var fed := Feed([], cut); !fed.done && fed.posts <= Posts(ms)
  {
    var whole := Conversation(ms) + Encoded(Message.Ready);
    HonestDaemonIsHeard(ms);
    var first, missing := Feed([], cut), whole[|cut|..];
    assert whole == cut + missing;
    FeedAppends([], cut, missing);
    OnlyTheLastByteFinishes(ms, cut);
    var second := Feed(first.line, missing);
    assert second.done;
    DoneMeansPosted(first.line, missing);
    assert first.posts == (Posts(ms) + [Post(Readied, None)])[..|first.posts|];
  }

  lemma {:induction false} DoneMeansPosted(line: seq<u8>, bytes: seq<u8>)
    requires Feed(line, bytes).done
    ensures Feed(line, bytes).posts != []
    decreases |bytes|
  {
    if bytes != [] && Pushed(line, bytes[0]).1.More? {
      DoneMeansPosted(Pushed(line, bytes[0]).0, bytes[1..]);
    }
  }

  /** A conversation cut inside its first message is not over; cut later, it is over exactly when
      the message was the last or what follows is over. */
  lemma {:induction false} CutConversation(m: Message, rest: seq<u8>, cut: seq<u8>)
    requires Sayable(m) && cut <= Encoded(m) + rest
    ensures |cut| < |Encoded(m)| ==> !Feed([], cut).done
    ensures |cut| >= |Encoded(m)| ==>
              var tail := cut[|Encoded(m)|..];
              tail <= rest && (Feed([], cut).done <==> m.Ready? || Feed([], tail).done)
  {
    hide Feed, Line, Parse, Sayable;
    if |cut| < |Encoded(m)| {
      PrefixOfLine(m, rest, cut);
      FeedPlain([], cut);
    } else {
      var tail := cut[|Encoded(m)|..];
      assert cut == Encoded(m) + tail;
      assert tail == rest[..|tail|];
      FeedOne(m, tail);
    }
  }

  /** Nothing before the newline of `ready` ends an honest conversation. */
  lemma {:induction false} OnlyTheLastByteFinishes(ms: seq<Message>, cut: seq<u8>)
    requires OnlyProgress(ms)
    requires var whole := Conversation(ms) + Encoded(Message.Ready); cut <= whole && cut != whole
    ensures !Feed([], cut).done
    decreases |ms|
  {
    hide Feed, Line, Parse, Encoded;
    var ready := Encoded(Message.Ready);
    if ms == [] {
      assert Conversation(ms) + ready == ready + [];
      CutConversation(Message.Ready, [], cut);
    } else {
      var rest := Conversation(ms[1..]) + ready;
      assert Conversation(ms) + ready == Encoded(ms[0]) + rest;
      CutConversation(ms[0], rest, cut);
      if |cut| >= |Encoded(ms[0])| {
        var tail := cut[|Encoded(ms[0])|..];
        assert cut == Encoded(ms[0]) + tail;
        OnlyTheLastByteFinishes(ms[1..], tail);
      }
    }
  }

  lemma PrefixOfLine(m: Message, rest: seq<u8>, cut: seq<u8>)
    requires Sayable(m) && cut <= Encoded(m) + rest && |cut| < |Encoded(m)|
    ensures NEWLINE !in cut && |cut| < MAX_MESSAGE
  {
    LineHasNoNewline(m);
    assert cut == Line(m)[..|cut|];
  }

  // ---------------------------------------------------------------- the launcher's answer

  /** Durations in nanoseconds; sums saturate at the longest one. */
  const MAX_DURATION: nat := (MAX_U64 + 1) * 1_000_000_000 - 1

  function Later(a: nat, b: nat): nat {
    if a + b <= MAX_DURATION then a + b else MAX_DURATION
  }

  datatype Status = Waiting | Progressing | SaidReady | Died | SaidGarbage
  datatype NotReady = DaemonDied | DaemonMalformed | DaemonSilent
  datatype Decision = IsReady | IsNotReady(reason: NotReady) | Wait(remaining: nat)

  datatype Tracker = Tracker(status: Status, lastMessage: nat)

  predicate Final(s: Status) {
    s.SaidReady? || s.Died? || s.SaidGarbage?
  }

  function Recorded(t: Tracker, at: nat, event: Event): Tracker {
    if Final(t.status) then t
    else
      Tracker(match event
              case Progressed => Progressing
              case Readied => SaidReady
              case Malformed => SaidGarbage
              case Closed => Died,
              if t.lastMessage < at then at else t.lastMessage)
  }

  function Decide(t: Tracker, now: nat, silence: nat): Decision {
    match t.status
    case SaidReady => IsReady
    case Died => IsNotReady(DaemonDied)
    case SaidGarbage => IsNotReady(DaemonMalformed)
    case _ =>
      var until := Later(t.lastMessage, silence);
      if now >= until then IsNotReady(DaemonSilent) else Wait(until - now)
  }

  /** The launcher's end under its lock. */
  class Shared {
    var tracker: Tracker
    var version: nat
    var progress: nat
    var lastProgress: Option<seq<u8>>

    constructor ()
      ensures tracker == Tracker(Waiting, 0) && version == 0 && progress == 0 && lastProgress == None
    {
      tracker, version, progress, lastProgress := Tracker(Waiting, 0), 0, 0, None;
    }

    method Post(at: nat, event: Event, detail: Option<seq<u8>>)
      modifies this
      ensures tracker == Recorded(old(tracker), at, event) && version == old(version) + 1
      ensures Final(old(tracker.status)) ==> tracker == old(tracker)
      ensures event.Progressed? ==> progress == old(progress) + 1 && lastProgress == detail
      ensures !event.Progressed? ==> progress == old(progress) && lastProgress == old(lastProgress)
    {
      if !Final(tracker.status) {
        var last := if tracker.lastMessage < at then at else tracker.lastMessage;
        match event
        case Progressed => tracker := Tracker(Progressing, last);
        case Readied => tracker := Tracker(SaidReady, last);
        case Malformed => tracker := Tracker(SaidGarbage, last);
        case Closed => tracker := Tracker(Died, last);
      }
      version := version + 1;
      if event.Progressed? {
        progress := progress + 1;
        lastProgress := detail;
      }
    }
  }

  /** An event and when it was received. */
  datatype Timed = Timed(at: nat, event: Event)

  function Tracked(events: seq<Timed>): Tracker {
    if events == [] then Tracker(Waiting, 0)
    else Recorded(Tracked(events[..|events| - 1]), events[|events| - 1].at, events[|events| - 1].event)
  }

  /** The first event that is not progress, if any. */
  function FirstFinal(events: seq<Timed>): (r: Option<Event>)
    ensures r.Some? ==> !r.value.Progressed?
  {
    if events == [] then None
    else if !events[0].event.Progressed? then Some(events[0].event)
    else FirstFinal(events[1..])
  }

  lemma {:induction false} FirstFinalAppends(events: seq<Timed>, last: Timed)
    ensures FirstFinal(events + [last])
            == if FirstFinal(events).Some? then FirstFinal(events)
               else if last.event.Progressed? then None else Some(last.event)
    decreases |events|
  {
    if events == [] {
      assert (events + [last])[1..] == [];
    } else {
      assert (events + [last])[1..] == events[1..] + [last];
      FirstFinalAppends(events[1..], last);
    }
  }

  /** The state is exactly what the first final event made it. */
  lemma {:induction false} StatusIsFirstFinal(events: seq<Timed>)
    ensures Tracked(events).status
            == match FirstFinal(events)
               case Some(Readied) => SaidReady
               case Some(Malformed) => SaidGarbage
               case Some(Closed) => Died
               case _ => if events == [] then Waiting else Progressing
    decreases |events|
  {
    if events != [] {
      var front, last := events[..|events| - 1], events[|events| - 1];
      StatusIsFirstFinal(front);
      FirstFinalAppends(front, last);
      assert front + [last] == events;
    }
  }

  /** Once a launcher's answer is ready, died or malformed, no later message and no passing of
      time changes it. */
  lemma {:induction false} AnswerIsFixedForGood(events: seq<Timed>, more: seq<Timed>, now: nat, later: nat, silence: nat, patience: nat)
    requires FirstFinal(events).Some?
    ensures Decide(Tracked(events), now, silence) == Decide(Tracked(events + more), later, patience)
    ensures !Decide(Tracked(events), now, silence).Wait?
    ensures Decide(Tracked(events), now, silence) != IsNotReady(DaemonSilent)
    decreases |more|
  {
    StatusIsFirstFinal(events);
    if more == [] {
      assert events + more == events;
    } else {
      var n := |more| - 1;
      AnswerIsFixedForGood(events, more[..n], now, later, silence, patience);
      assert (events + more)[..|events + more| - 1] == events + more[..n];
      StatusIsFirstFinal(events + more[..n]);
    }
  }

  /** The answer is what the daemon said first that was final: ready, died and malformed each exactly
      then, and a wait or silence exactly while it has said nothing final; a wait ends when the
      silence after the last message does. */
  lemma AnswerIsWhatTheDaemonSaid(events: seq<Timed>, now: nat, silence: nat)
    ensures Decide(Tracked(events), now, silence) == IsReady <==> FirstFinal(events) == Some(Readied)
    ensures Decide(Tracked(events), now, silence) == IsNotReady(DaemonDied) <==> FirstFinal(events) == Some(Closed)
    ensures Decide(Tracked(events), now, silence) == IsNotReady(DaemonMalformed) <==> FirstFinal(events) == Some(Malformed)
    ensures Decide(Tracked(events), now, silence) == IsNotReady(DaemonSilent) || Decide(Tracked(events), now, silence).Wait?
            <==> FirstFinal(events).None?
    ensures Decide(Tracked(events), now, silence).Wait? ==>
              now + Decide(Tracked(events), now, silence).remaining == Min(Tracked(events).lastMessage + silence, MAX_DURATION)
  {
    StatusIsFirstFinal(events);
    hide Tracked, FirstFinal;
  }

  /** Until then only silence ends the wait, and it is counted from the latest message. */
  lemma {:induction false} SilenceRunsFromTheLastMessage(events: seq<Timed>, now: nat, silence: nat)
    requires FirstFinal(events).None?
    ensures forall i :: 0 <= i < |events| ==> events[i].at <= Tracked(events).lastMessage
    ensures Tracked(events).lastMessage == 0 || exists i :: 0 <= i < |events| && events[i].at == Tracked(events).lastMessage
    ensures Decide(Tracked(events), now, silence) == IsNotReady(DaemonSilent) <==>
              now >= Min(Tracked(events).lastMessage + silence, MAX_DURATION)
    decreases |events|
  {
    StatusIsFirstFinal(events);
    if events != [] {
      var front, last := events[..|events| - 1], events[|events| - 1];
      FirstFinalAppends(front, last);
      assert front + [last] == events;
      SilenceRunsFromTheLastMessage(front, now, silence);
      StatusIsFirstFinal(front);
    }
  }
}
