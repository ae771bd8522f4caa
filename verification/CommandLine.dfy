/** UTF-16 code units, any of them: lone surrogates are ordinary units here. */
module Utf16 {
  newtype u16 = x: int | 0 <= x < 0x1_0000

  const NUL: u16 := 0x00
}

/** The command line `CreateProcessW` takes, and the split the C runtime performs on it
    (src/local/command_line.rs). Printer and splitter are both loops over UTF-16 units; each
    is tied to a recursive function, and the functions are proved inverse to each other. */
module CommandLine {
  import opened Options
  import opened Utf16

  const TAB: u16 := 0x09
  const SPACE: u16 := 0x20
  const QUOTE: u16 := 0x22
  const BACKSLASH: u16 := 0x5c

  datatype Error = BadProgram | EmbeddedNul

  function Repeat(unit: u16, n: nat): (r: seq<u16>)
    ensures |r| == n
    ensures forall i :: 0 <= i < n ==> r[i] == unit
  {
    seq(n, _ => unit)
  }

  // ---------------------------------------------------------------- the printer

  predicate NeedsQuotes(arg: seq<u16>) {
    |arg| == 0 || exists i :: 0 <= i < |arg| && arg[i] in {0x20, 0x09, 0x0a, 0x0b, QUOTE}
  }

  /** What is still to be printed of a quoted argument when `pending` backslashes have been
      read but not yet written. */
  function Escaped(arg: seq<u16>, pending: nat): seq<u16>
  {
    if arg == [] then Repeat(BACKSLASH, pending * 2)
    else if arg[0] == BACKSLASH then Escaped(arg[1..], pending + 1)
    else if arg[0] == QUOTE then Repeat(BACKSLASH, pending * 2 + 1) + [QUOTE] + Escaped(arg[1..], 0)
    else Repeat(BACKSLASH, pending) + [arg[0]] + Escaped(arg[1..], 0)
  }

  function Printed(arg: seq<u16>): seq<u16> {
    if NeedsQuotes(arg) then [QUOTE] + Escaped(arg, 0) + [QUOTE] else arg
  }

  function PrintedAll(args: seq<seq<u16>>): seq<u16> {
    if args == [] then [] else [SPACE] + Printed(args[0]) + PrintedAll(args[1..])
  }

  function Line(program: seq<u16>, args: seq<seq<u16>>): seq<u16> {
    [QUOTE] + program + [QUOTE] + PrintedAll(args)
  }

  method AppendArgument(line: seq<u16>, arg: seq<u16>) returns (out: seq<u16>)
    ensures out == line + Printed(arg)
  {
    if !NeedsQuotes(arg) {
      return line + arg;
    }
    hide Escaped;
    out := line + [QUOTE];
    var backslashes: nat := 0;
    for i := 0 to |arg|
      invariant out + Escaped(arg[i..], backslashes) == line + [QUOTE] + Escaped(arg, 0)
    {
      EscapedStep(arg, i, backslashes);
      if arg[i] == BACKSLASH {
        backslashes := backslashes + 1;
        continue;
      }
      var run := Repeat(BACKSLASH, if arg[i] == QUOTE then backslashes * 2 + 1 else backslashes);
      Regroup(out, run, [arg[i]], Escaped(arg[i + 1..], 0));
      out := out + run;
      backslashes := 0;
      out := out + [arg[i]];
    }
    assert arg[|arg|..] == [];
    EscapedEnd(backslashes);
    out := out + Repeat(BACKSLASH, backslashes * 2);
    out := out + [QUOTE];
    assert line + [QUOTE] + Escaped(arg, 0) + [QUOTE] == line + ([QUOTE] + Escaped(arg, 0) + [QUOTE]);
  }

  lemma Regroup(a: seq<u16>, b: seq<u16>, c: seq<u16>, d: seq<u16>)
    ensures a + b + c + d == a + (b + c + d)
  {
  }

  lemma EscapedStep(arg: seq<u16>, i: nat, pending: nat)
    requires i < |arg|
    ensures Escaped(arg[i..], pending)
            == if arg[i] == BACKSLASH then Escaped(arg[i + 1..], pending + 1)
               else Repeat(BACKSLASH, if arg[i] == QUOTE then pending * 2 + 1 else pending) + [arg[i]] + Escaped(arg[i + 1..], 0)
  {
    assert arg[i..][0] == arg[i] && arg[i..][1..] == arg[i + 1..];
  }

  lemma EscapedEnd(pending: nat)
    ensures Escaped([], pending) == Repeat(BACKSLASH, pending * 2)
  {
  }

  /** Refuses exactly the inputs the loader or the C runtime could not give back. */
  method Build(program: seq<u16>, args: seq<seq<u16>>) returns (r: Result<seq<u16>, Error>)
    ensures r.Err? && r.error.BadProgram? <==> program == [] || QUOTE in program
    ensures r.Ok? <==>
            program != [] && QUOTE !in program && NUL !in program && forall arg :: arg in args ==> NUL !in arg
    ensures r.Ok? ==> r.value == Line(program, args)
  {
    if program == [] || QUOTE in program {
      return Err(BadProgram);
    }
    if NUL in program || exists arg :: arg in args && NUL in arg {
      return Err(EmbeddedNul);
    }
    var line := [QUOTE] + program + [QUOTE];
    line := AppendArguments(line, args);
    r := Ok(line);
  }

  method AppendArguments(start: seq<u16>, args: seq<seq<u16>>) returns (line: seq<u16>)
    ensures line == start + PrintedAll(args)
  {
    hide Printed;
    line := start;
    for i := 0 to |args|
      invariant line + PrintedAll(args[i..]) == start + PrintedAll(args)
    {
      PrintedAllStep(args, i);
      line := AppendArgument(line + [SPACE], args[i]);
    }
  }

  lemma PrintedAllStep(args: seq<seq<u16>>, i: nat)
    requires i < |args|
    ensures PrintedAll(args[i..]) == [SPACE] + Printed(args[i]) + PrintedAll(args[i + 1..])
  {
    assert args[i..][1..] == args[i + 1..];
  }

  // ---------------------------------------------------------------- the splitter

  /** How `""` inside a quoted region reads; splitters disagree. */
  datatype DoubledQuote = StaysQuoted | EndsQuote

  datatype Token = Token(text: seq<u16>, rest: seq<u16>)

  predicate Blank(unit: u16) { unit == SPACE || unit == TAB }

  /** The program name: quotes toggle, blanks outside quotes end it, nothing is escaped. */
  function ReadProgram(s: seq<u16>, quoted: bool): (t: Token)
    ensures |t.rest| <= |s|
  {
    if s == [] || (!quoted && Blank(s[0])) then Token([], s)
    else if s[0] == QUOTE then ReadProgram(s[1..], !quoted)
    else
      var t := ReadProgram(s[1..], quoted);
      t.(text := [s[0]] + t.text)
  }

  function SkipBlanks(s: seq<u16>): (r: seq<u16>)
    ensures |r| <= |s|
    ensures r != [] ==> !Blank(r[0])
  {
    if s != [] && Blank(s[0]) then SkipBlanks(s[1..]) else s
  }

  function LeadingBackslashes(s: seq<u16>): (n: nat)
    ensures n <= |s|
    ensures forall i :: 0 <= i < n ==> s[i] == BACKSLASH
    ensures n < |s| ==> s[n] != BACKSLASH
  {
    if s != [] && s[0] == BACKSLASH then 1 + LeadingBackslashes(s[1..]) else 0
  }

  /** One turn of the word loop, once its run of `n` backslashes has been consumed and `tail`
      is left: the text it adds, the units of `tail` it consumes, the quoting it leaves, and
      whether the word ends there. */
  datatype Turn = Turn(text: seq<u16>, used: nat, quoted: bool, done: bool)

  function TurnAfter(n: nat, tail: seq<u16>, quoted: bool, doubled: DoubledQuote): (t: Turn)
    ensures t.used <= |tail|
    ensures !t.done ==> 0 < t.used
  {
    if tail != [] && tail[0] == QUOTE && n % 2 == 1 then
      Turn(Repeat(BACKSLASH, n / 2) + [QUOTE], 1, quoted, false)
    else if tail != [] && tail[0] == QUOTE then
      if quoted && 1 < |tail| && tail[1] == QUOTE then
        Turn(Repeat(BACKSLASH, n / 2) + [QUOTE], 2, doubled.StaysQuoted?, false)
      else
        Turn(Repeat(BACKSLASH, n / 2), 1, !quoted, false)
    else if tail == [] || (!quoted && Blank(tail[0])) then
      Turn(Repeat(BACKSLASH, n), 0, quoted, true)
    else
      Turn(Repeat(BACKSLASH, n) + [tail[0]], 1, quoted, false)
  }

  function ReadWord(s: seq<u16>, quoted: bool, doubled: DoubledQuote): (t: Token)
    ensures |t.rest| <= |s|
    ensures !quoted && s != [] && !Blank(s[0]) ==> |t.rest| < |s|
    decreases |s|
  {
    var n := LeadingBackslashes(s);
    var turn := TurnAfter(n, s[n..], quoted, doubled);
    var rest := s[n..][turn.used..];
    if turn.done then Token(turn.text, rest)
    else
      var t := ReadWord(rest, turn.quoted, doubled);
      Token(turn.text + t.text, t.rest)
  }

  function Words(s: seq<u16>, doubled: DoubledQuote): seq<seq<u16>>
    decreases |s|
  {
    var s := SkipBlanks(s);
    if s == [] then []
    else
      var t := ReadWord(s, false, doubled);
      [t.text] + Words(t.rest, doubled)
  }

  function SplitLine(line: seq<u16>, doubled: DoubledQuote): seq<seq<u16>> {
    var t := ReadProgram(line, false);
    [t.text] + Words(t.rest, doubled)
  }

  method NextProgram(line: seq<u16>) returns (program: seq<u16>, units: seq<u16>)
    ensures Token(program, units) == ReadProgram(line, false)
  {
    hide ReadProgram;
    program, units := [], line;
    var quoted := false;
    while units != [] && !(!quoted && Blank(units[0]))
      invariant program + ReadProgram(units, quoted).text == ReadProgram(line, false).text
      invariant ReadProgram(units, quoted).rest == ReadProgram(line, false).rest
      decreases |units|
    {
      ReadProgramStep(units, quoted);
      if units[0] == QUOTE {
        quoted := !quoted;
      } else {
        program := program + [units[0]];
      }
      units := units[1..];
    }
    ReadProgramEnd(units, quoted);
    assert program + [] == program;
  }

  lemma ReadProgramStep(units: seq<u16>, quoted: bool)
    requires units != [] && !(!quoted && Blank(units[0]))
    ensures var t := ReadProgram(units, quoted);
            if units[0] == QUOTE then t == ReadProgram(units[1..], !quoted)
            else t.text == [units[0]] + ReadProgram(units[1..], quoted).text && t.rest == ReadProgram(units[1..], quoted).rest
  {
  }

  lemma ReadProgramEnd(units: seq<u16>, quoted: bool)
    requires units == [] || (!quoted && Blank(units[0]))
    ensures ReadProgram(units, quoted) == Token([], units)
  {
  }

  method DropBlanks(s: seq<u16>) returns (units: seq<u16>)
    ensures units == SkipBlanks(s)
  {
    units := s;
    while units != [] && Blank(units[0])
      invariant SkipBlanks(units) == SkipBlanks(s)
      decreases |units|
    {
      units := units[1..];
    }
  }

  method Split(line: seq<u16>, doubled: DoubledQuote) returns (words: seq<seq<u16>>)
    ensures words == SplitLine(line, doubled)
  {
    hide ReadWord;
    var program, units := NextProgram(line);
    words := [program];
    while true
      invariant words + Words(units, doubled) == SplitLine(line, doubled)
      decreases |units|
    {
      ghost var before := units;
      units := DropBlanks(units);
      if units == [] {
        assert words + [] == words;
        return;
      }
      var word, rest := NextWord(units, doubled);
      assert Words(before, doubled) == [word] + Words(rest, doubled);
      assert words + ([word] + Words(rest, doubled)) == (words + [word]) + Words(rest, doubled);
      words := words + [word];
      units := rest;
    }
  }

  method DropBackslashes(s: seq<u16>) returns (backslashes: nat, units: seq<u16>)
    ensures backslashes == LeadingBackslashes(s) && units == s[backslashes..]
  {
    backslashes, units := 0, s;
    while units != [] && units[0] == BACKSLASH
      invariant backslashes <= |s| && units == s[backslashes..]
      invariant backslashes + LeadingBackslashes(units) == LeadingBackslashes(s)
      decreases |units|
    {
      backslashes := backslashes + 1;
      units := units[1..];
    }
  }

  /** The inner loop of the split: one argument. */
  method NextWord(s: seq<u16>, doubled: DoubledQuote) returns (word: seq<u16>, units: seq<u16>)
    ensures Token(word, units) == ReadWord(s, false, doubled)
  {
    word, units := [], s;
    var quoted := false;
    ghost var whole := ReadWord(s, false, doubled);
    while true
      invariant word + ReadWord(units, quoted, doubled).text == whole.text
      invariant ReadWord(units, quoted, doubled).rest == whole.rest
      decreases |units|
    {
      ghost var before := word;
      var backslashes, tail := DropBackslashes(units);
      ghost var turn := TurnAfter(backslashes, tail, quoted, doubled);
      if tail != [] && tail[0] == QUOTE && backslashes % 2 == 1 {
        word := word + (Repeat(BACKSLASH, backslashes / 2) + [QUOTE]);
        units := tail[1..];
      } else if tail != [] && tail[0] == QUOTE {
        if quoted && 1 < |tail| && tail[1] == QUOTE {
          word := word + (Repeat(BACKSLASH, backslashes / 2) + [QUOTE]);
          units := tail[2..];
          quoted := doubled.StaysQuoted?;
        } else {
          word := word + Repeat(BACKSLASH, backslashes / 2);
          units := tail[1..];
          quoted := !quoted;
        }
      } else if tail == [] || (!quoted && Blank(tail[0])) {
        word := word + Repeat(BACKSLASH, backslashes);
        units := tail;
        return;
      } else {
        word := word + (Repeat(BACKSLASH, backslashes) + [tail[0]]);
        units := tail[1..];
      }
      assert word == before + turn.text;
      AppendAssociates(before, turn.text, ReadWord(units, quoted, doubled).text);
    }
  }

  lemma AppendAssociates(a: seq<u16>, b: seq<u16>, c: seq<u16>)
    ensures (a + b) + c == a + (b + c)
  {
  }

  // ---------------------------------------------------------------- round trip

  lemma BackslashRun(n: nat, tail: seq<u16>)
    requires tail != [] ==> tail[0] != BACKSLASH
    ensures LeadingBackslashes(Repeat(BACKSLASH, n) + tail) == n
  {
    var s := Repeat(BACKSLASH, n) + tail;
    assert forall i :: 0 <= i < n ==> s[i] == BACKSLASH;
    assert tail != [] ==> s[n] == tail[0];
  }

  /** Reading on from a run of `n` backslashes in front of `tail`. */
  lemma ReadOn(n: nat, tail: seq<u16>, quoted: bool, doubled: DoubledQuote)
    requires tail != [] ==> tail[0] != BACKSLASH
    ensures var turn := TurnAfter(n, tail, quoted, doubled);
            var t := ReadWord(tail[turn.used..], turn.quoted, doubled);
            ReadWord(Repeat(BACKSLASH, n) + tail, quoted, doubled)
            == if turn.done then Token(turn.text, tail[turn.used..]) else Token(turn.text + t.text, t.rest)
  {
    BackslashRun(n, tail);
    assert (Repeat(BACKSLASH, n) + tail)[n..] == tail;
  }

  predicate EndsWord(rest: seq<u16>) {
    rest == [] || rest[0] == SPACE
  }

  /** Reading back a quoted argument, from the middle: the `n` backslashes the printer holds
      back are restored in front of the rest of the argument. */
  lemma {:induction false} ReadQuoted(arg: seq<u16>, n: nat, rest: seq<u16>, doubled: DoubledQuote)
    requires EndsWord(rest)
    ensures ReadWord(Escaped(arg, n) + ([QUOTE] + rest), true, doubled) == Token(Repeat(BACKSLASH, n) + arg, rest)
    decreases |arg|
  {
    hide ReadWord;
    if arg == [] {
      ReadClosingQuote(n, rest, doubled);
      assert Repeat(BACKSLASH, n) + arg == Repeat(BACKSLASH, n);
    } else if arg[0] == BACKSLASH {
      ReadQuoted(arg[1..], n + 1, rest, doubled);
      assert Repeat(BACKSLASH, n) + arg == Repeat(BACKSLASH, n + 1) + arg[1..];
    } else {
      var next := Escaped(arg[1..], 0) + ([QUOTE] + rest);
      EscapedHead(arg, n, [QUOTE] + rest);
      ReadInside(n, arg[0], next, doubled);
      ReadQuoted(arg[1..], 0, rest, doubled);
      RestoreHead(arg, n);
    }
  }

  /** What the printer writes for the first unit of `arg` that is not a backslash. */
  lemma EscapedHead(arg: seq<u16>, n: nat, rest: seq<u16>)
    requires arg != [] && arg[0] != BACKSLASH
    ensures Escaped(arg, n) + rest
            == Repeat(BACKSLASH, if arg[0] == QUOTE then 2 * n + 1 else n) + ([arg[0]] + (Escaped(arg[1..], 0) + rest))
  {
  }

  lemma RestoreHead(arg: seq<u16>, n: nat)
    requires arg != []
    ensures Repeat(BACKSLASH, n) + arg == (Repeat(BACKSLASH, n) + [arg[0]]) + (Repeat(BACKSLASH, 0) + arg[1..])
  {
  }

  /** Inside quotes, an escaped quote or any other unit is read back with its backslashes. */
  lemma ReadInside(n: nat, unit: u16, next: seq<u16>, doubled: DoubledQuote)
    requires unit != BACKSLASH
    ensures var k := if unit == QUOTE then 2 * n + 1 else n;
            var t := ReadWord(next, true, doubled);
            ReadWord(Repeat(BACKSLASH, k) + ([unit] + next), true, doubled)
            == Token((Repeat(BACKSLASH, n) + [unit]) + t.text, t.rest)
  {
    var k := if unit == QUOTE then 2 * n + 1 else n;
    assert (2 * n + 1) % 2 == 1 && (2 * n + 1) / 2 == n;
    ReadOn(k, [unit] + next, true, doubled);
    assert ([unit] + next)[1..] == next;
  }

  /** Doubled trailing backslashes and the closing quote end the word. */
  lemma ReadClosingQuote(n: nat, rest: seq<u16>, doubled: DoubledQuote)
    requires EndsWord(rest)
    ensures ReadWord(Repeat(BACKSLASH, 2 * n) + ([QUOTE] + rest), true, doubled) == Token(Repeat(BACKSLASH, n), rest)
  {
    ReadOn(2 * n, [QUOTE] + rest, true, doubled);
    assert (2 * n) % 2 == 0 && (2 * n) / 2 == n;
    assert ([QUOTE] + rest)[1..] == rest;
    ReadNothing(rest, doubled);
    assert Repeat(BACKSLASH, n) + [] == Repeat(BACKSLASH, n);
  }

  lemma ReadNothing(rest: seq<u16>, doubled: DoubledQuote)
    requires EndsWord(rest)
    ensures ReadWord(rest, false, doubled) == Token([], rest)
  {
    ReadOn(0, rest, false, doubled);
    assert Repeat(BACKSLASH, 0) + rest == rest;
  }

  predicate Plain(arg: seq<u16>) {
    forall i :: 0 <= i < |arg| ==> arg[i] != QUOTE && !Blank(arg[i])
  }

  /** An argument without blanks and quotes reads back as it stands, backslashes included. */
  lemma {:induction false} ReadPlain(arg: seq<u16>, n: nat, rest: seq<u16>, doubled: DoubledQuote)
    requires EndsWord(rest) && Plain(arg)
    ensures ReadWord(Repeat(BACKSLASH, n) + (arg + rest), false, doubled) == Token(Repeat(BACKSLASH, n) + arg, rest)
    decreases |arg|
  {
    hide ReadWord;
    if arg == [] {
      assert arg + rest == rest && Repeat(BACKSLASH, n) + arg == Repeat(BACKSLASH, n);
      ReadOn(n, rest, false, doubled);
    } else if arg[0] == BACKSLASH {
      ReadPlain(arg[1..], n + 1, rest, doubled);
      assert Repeat(BACKSLASH, n) + arg == Repeat(BACKSLASH, n + 1) + arg[1..];
      assert Repeat(BACKSLASH, n) + (arg + rest) == Repeat(BACKSLASH, n + 1) + (arg[1..] + rest);
    } else {
      ReadOn(n, arg + rest, false, doubled);
      assert (arg + rest)[1..] == Repeat(BACKSLASH, 0) + (arg[1..] + rest);
      ReadPlain(arg[1..], 0, rest, doubled);
      RestoreHead(arg, n);
    }
  }

  lemma ReadPrintedQuoted(arg: seq<u16>, rest: seq<u16>, doubled: DoubledQuote)
    requires EndsWord(rest) && NeedsQuotes(arg)
    ensures ReadWord(Printed(arg) + rest, false, doubled) == Token(arg, rest)
  {
    hide ReadWord, Escaped, NeedsQuotes;
    var inside := Escaped(arg, 0) + ([QUOTE] + rest);
    assert Printed(arg) + rest == [QUOTE] + inside;
    ReadOpeningQuote(inside, doubled);
    ReadQuoted(arg, 0, rest, doubled);
    assert Repeat(BACKSLASH, 0) + arg == arg;
  }

  lemma ReadOpeningQuote(inside: seq<u16>, doubled: DoubledQuote)
    ensures ReadWord([QUOTE] + inside, false, doubled) == ReadWord(inside, true, doubled)
  {
    hide ReadWord;
    ReadOn(0, [QUOTE] + inside, false, doubled);
    assert Repeat(BACKSLASH, 0) + ([QUOTE] + inside) == [QUOTE] + inside && ([QUOTE] + inside)[1..] == inside;
    var t := ReadWord(inside, true, doubled);
    assert Repeat(BACKSLASH, 0) + t.text == t.text;
  }

  lemma ReadPrintedPlain(arg: seq<u16>, rest: seq<u16>, doubled: DoubledQuote)
    requires EndsWord(rest) && !NeedsQuotes(arg)
    ensures ReadWord(Printed(arg) + rest, false, doubled) == Token(arg, rest)
  {
    hide ReadWord;
    ReadPlain(arg, 0, rest, doubled);
    assert Repeat(BACKSLASH, 0) + (arg + rest) == Printed(arg) + rest;
    assert Repeat(BACKSLASH, 0) + arg == arg;
  }

  lemma PrintedStarts(arg: seq<u16>)
    ensures Printed(arg) != [] && !Blank(Printed(arg)[0])
  {
  }

  /** A printed argument reads back as that argument and ends where it ends, whatever follows. */
  lemma ReadPrinted(arg: seq<u16>, rest: seq<u16>, doubled: DoubledQuote)
    requires EndsWord(rest)
    ensures Printed(arg) != [] && !Blank(Printed(arg)[0])
    ensures ReadWord(Printed(arg) + rest, false, doubled) == Token(arg, rest)
  {
    PrintedStarts(arg);
    hide ReadWord, Printed, NeedsQuotes, Blank;
    if NeedsQuotes(arg) {
      ReadPrintedQuoted(arg, rest, doubled);
    } else {
      ReadPrintedPlain(arg, rest, doubled);
    }
  }

  lemma {:induction false} WordsOfPrinted(args: seq<seq<u16>>, doubled: DoubledQuote)
    ensures Words(PrintedAll(args), doubled) == args
    decreases |args|
  {
    hide ReadWord;
    if args != [] {
      var tail := PrintedAll(args[1..]);
      var s := Printed(args[0]) + tail;
      ReadPrinted(args[0], tail, doubled);
      assert PrintedAll(args) == [SPACE] + s;
      SkipOneBlank(s);
      WordsOfPrinted(args[1..], doubled);
      assert args == [args[0]] + args[1..];
    }
  }

  lemma SkipOneBlank(s: seq<u16>)
    requires s != [] && !Blank(s[0])
    ensures SkipBlanks([SPACE] + s) == s
  {
    assert ([SPACE] + s)[1..] == s;
  }

  lemma {:induction false} ReadQuotedProgram(program: seq<u16>, rest: seq<u16>)
    requires QUOTE !in program
    requires EndsWord(rest)
    ensures ReadProgram(program + [QUOTE] + rest, true) == Token(program, rest)
    decreases |program|
  {
    var s := program + [QUOTE] + rest;
    if program == [] {
      assert s[1..] == rest;
    } else {
      assert s[1..] == program[1..] + [QUOTE] + rest;
      ReadQuotedProgram(program[1..], rest);
    }
  }

  /** Every command line this printer builds splits back into exactly the program and the
      arguments it was built from, whichever way the splitter reads a doubled quote. */
  lemma RoundTrip(program: seq<u16>, args: seq<seq<u16>>, doubled: DoubledQuote)
    requires QUOTE !in program
    ensures SplitLine(Line(program, args), doubled) == [program] + args
  {
    var rest := PrintedAll(args);
    ReadQuotedProgram(program, rest);
    assert Line(program, args)[1..] == program + [QUOTE] + rest;
    WordsOfPrinted(args, doubled);
  }

  /** So no two invocations share a command line. */
  lemma LinesAreDistinct(p: seq<u16>, args: seq<seq<u16>>, q: seq<u16>, brgs: seq<seq<u16>>)
    requires QUOTE !in p && QUOTE !in q
    requires Line(p, args) == Line(q, brgs)
    ensures p == q && args == brgs
  {
    RoundTrip(p, args, StaysQuoted);
    RoundTrip(q, brgs, StaysQuoted);
    assert ([p] + args)[0] == p && ([p] + args)[1..] == args;
    assert ([q] + brgs)[0] == q && ([q] + brgs)[1..] == brgs;
  }

  /** The quote-free precondition is exact: with a quote in it, the program the loader reads
      back never equals the one that was passed, which is why `Build` refuses it. */
  lemma {:induction false} ProgramNeverReadsAsQuote(s: seq<u16>, quoted: bool)
    ensures QUOTE !in ReadProgram(s, quoted).text
    decreases |s|
  {
    if s != [] && !(!quoted && Blank(s[0])) {
      ProgramNeverReadsAsQuote(s[1..], if s[0] == QUOTE then !quoted else quoted);
    }
  }

  lemma RoundTripExactlyWhenQuoteFree(program: seq<u16>, args: seq<seq<u16>>, doubled: DoubledQuote)
    ensures SplitLine(Line(program, args), doubled) == [program] + args <==> QUOTE !in program
  {
    if QUOTE !in program {
      RoundTrip(program, args, doubled);
    } else {
      ProgramNeverReadsAsQuote(Line(program, args), false);
      assert ([program] + args)[0] == program;
    }
  }
}
