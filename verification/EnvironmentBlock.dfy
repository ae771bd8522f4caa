/** The environment block `CreateProcessW` takes (src/local/command_line.rs): an ordered edit
    script over the inherited variables, sorted without regard to case and written as
    NUL-terminated `NAME=value` entries. Proved to be a last-write-wins map that the reader of
    the block gets back. */
module EnvironmentBlock {
  import opened Options
  import opened Utf16

  const EQUALS: u16 := 0x3d

  type Text = seq<u16>

  datatype Var = Var(name: Text, value: Text)
  datatype Change = Set(name: Text, value: Text) | Remove(name: Text)
  datatype Error = BadName | BadValue

  function FoldUnit(unit: u16): u16 {
    if 0x61 <= unit <= 0x7a then unit - 0x20 else unit
  }

  function Folded(name: Text): (r: Text)
    ensures |r| == |name|
  {
    seq(|name|, i requires 0 <= i < |name| => FoldUnit(name[i]))
  }

  /** Names are compared without regard to (ASCII) case. */
  predicate SameName(a: Text, b: Text) {
    |a| == |b| && Folded(a) == Folded(b)
  }

  predicate ValidName(name: Text) {
    name != [] && EQUALS !in name[1..] && NUL !in name
  }

  predicate ValidChange(change: Change) {
    ValidName(change.name) && (change.Set? ==> NUL !in change.value)
  }

  predicate ValidVar(v: Var) {
    ValidName(v.name) && NUL !in v.value
  }

  predicate ValidVars(vars: seq<Var>) {
    forall i :: 0 <= i < |vars| ==> ValidVar(vars[i])
  }

  // ---------------------------------------------------------------- the edit script

  function Retain(vars: seq<Var>, name: Text): (r: seq<Var>)
    ensures |r| <= |vars|
  {
    if vars == [] then []
    else if SameName(vars[0].name, name) then Retain(vars[1..], name)
    else [vars[0]] + Retain(vars[1..], name)
  }

  function ApplyOne(vars: seq<Var>, change: Change): seq<Var> {
    match change
    case Set(name, value) => Retain(vars, name) + [Var(name, value)]
    case Remove(name) => Retain(vars, name)
  }

  function Apply(vars: seq<Var>, changes: seq<Change>): seq<Var> {
    if changes == [] then vars
    else ApplyOne(Apply(vars, changes[..|changes| - 1]), changes[|changes| - 1])
  }

  // ---------------------------------------------------------------- the sort

  /** Lexicographic order of folded names. */
  predicate Less(a: Text, b: Text) {
    b != [] && (a == [] || a[0] < b[0] || (a[0] == b[0] && Less(a[1..], b[1..])))
  }

  predicate Before(a: Var, b: Var) {
    Less(Folded(a.name), Folded(b.name))
  }

  /** The stable library sort: an element goes after everything it does not precede. */
  function Insert(vars: seq<Var>, v: Var): (r: seq<Var>)
    ensures |r| == |vars| + 1
  {
    var n := |vars|;
    if n == 0 || !Before(v, vars[n - 1]) then vars + [v]
    else Insert(vars[..n - 1], v) + [vars[n - 1]]
  }

  function Sort(vars: seq<Var>): (r: seq<Var>)
    ensures |r| == |vars|
  {
    if vars == [] then [] else Insert(Sort(vars[..|vars| - 1]), vars[|vars| - 1])
  }

  predicate Sorted(vars: seq<Var>) {
    forall i, j :: 0 <= i < j < |vars| ==> !Before(vars[j], vars[i])
  }

  predicate StrictlySorted(vars: seq<Var>) {
    forall i, j :: 0 <= i < j < |vars| ==> Before(vars[i], vars[j])
  }

  // ---------------------------------------------------------------- the block

  function Entry(v: Var): Text {
    v.name + [EQUALS] + v.value
  }

  function Serialized(vars: seq<Var>): Text {
    if vars == [] then [] else Entry(vars[0]) + [NUL] + Serialized(vars[1..])
  }

  function Block(vars: seq<Var>): Text {
    (if vars == [] then [NUL] else Serialized(vars)) + [NUL]
  }

  function Environment(inherited: seq<Var>, changes: seq<Change>): seq<Var> {
    Sort(Apply(inherited, changes))
  }

  /** Fails exactly when some change is invalid, on the first one that is. */
  method Build(inherited: seq<Var>, changes: seq<Change>) returns (r: Result<Text, Error>)
    ensures r.Ok? <==> forall i :: 0 <= i < |changes| ==> ValidChange(changes[i])
    ensures r.Ok? ==> r.value == Block(Environment(inherited, changes))
    ensures r.Err? ==> exists i :: 0 <= i < |changes| && !ValidChange(changes[i])
                                   && (forall j :: 0 <= j < i ==> ValidChange(changes[j]))
                                   && r.error == if ValidName(changes[i].name) then BadValue else BadName
  {
    var vars := inherited;
    for i := 0 to |changes|
      invariant forall j :: 0 <= j < i ==> ValidChange(changes[j])
      invariant vars == Apply(inherited, changes[..i])
    {
      var name := changes[i].name;
      if name == [] || EQUALS in name[1..] || NUL in name {
        return Err(BadName);
      }
      vars := Retain(vars, name);
      if changes[i].Set? {
        if NUL in changes[i].value {
          return Err(BadValue);
        }
        vars := vars + [Var(name, changes[i].value)];
      }
      assert changes[..i + 1][..i] == changes[..i];
    }
    assert changes[..|changes|] == changes;
    vars := Sort(vars);
    var block: Text := [];
    for i := 0 to |vars|
      invariant block + Serialized(vars[i..]) == Serialized(vars)
      invariant i > 0 ==> block != []
    {
      AppendEntry(block, vars[i..], Serialized(vars));
      assert vars[i..][1..] == vars[i + 1..];
      block := block + vars[i].name + [EQUALS] + vars[i].value + [NUL];
    }
    assert block == Serialized(vars);
    if block == [] {
      block := block + [NUL];
    }
    block := block + [NUL];
    r := Ok(block);
  }

  lemma AppendEntry(block: Text, vars: seq<Var>, all: Text)
    requires vars != [] && block + Serialized(vars) == all
    ensures block + vars[0].name + [EQUALS] + vars[0].value + [NUL] + Serialized(vars[1..]) == all
  {
  }

  // ---------------------------------------------------------------- the reader

  function SplitAtNul(s: Text): (r: seq<Text>)
    ensures |r| > 0
    ensures forall i :: 0 <= i < |r| ==> NUL !in r[i]
  {
    if s == [] then [[]]
    else
      var r := SplitAtNul(s[1..]);
      if s[0] == NUL then [[]] + r else [[s[0]] + r[0]] + r[1..]
  }

  function Position(s: Text, unit: u16): (r: Option<nat>)
    ensures r.None? <==> unit !in s
    ensures r.Some? ==> r.value < |s| && s[r.value] == unit && unit !in s[..r.value]
  {
    if s == [] then None
    else if s[0] == unit then Some(0)
    else
      var r := Position(s[1..], unit);
      if r.None? then None else
        assert s[..r.value + 1] == [s[0]] + s[1..][..r.value];
        Some(r.value + 1)
  }

  /** An entry splits at the first `=` after its first unit. */
  function ParseEntry(e: Text): Option<Var> {
    if e == [] then None
    else
      var at := Position(e[1..], EQUALS);
      if at.None? then None else Some(Var(e[..at.value + 1], e[at.value + 2..]))
  }

  function ParseEntries(es: seq<Text>): Option<seq<Var>> {
    if es == [] then Some([])
    else
      var head, tail := ParseEntry(es[0]), ParseEntries(es[1..]);
      if head.None? || tail.None? then None else Some([head.value] + tail.value)
  }

  /** The variables a block holds; `None` where the block is not one. */
  function Entries(block: Text): Option<seq<Var>> {
    var n := |block|;
    if n == 0 || block[n - 1] != NUL then None
    else if block[..n - 1] == [NUL] then Some([])
    else if n == 1 || block[n - 2] != NUL then None
    else ParseEntries(SplitAtNul(block[..n - 2]))
  }

  // ---------------------------------------------------------------- reading back

  lemma {:induction false} SplitFirst(e: Text, rest: Text)
    requires NUL !in e
    ensures SplitAtNul(e) == [e]
    ensures SplitAtNul(e + [NUL] + rest) == [e] + SplitAtNul(rest)
    decreases |e|
  {
    var s := e + [NUL] + rest;
    if e == [] {
      assert s[1..] == rest;
    } else {
      assert s[1..] == e[1..] + [NUL] + rest;
      SplitFirst(e[1..], rest);
      assert [e[0]] + e[1..] == e;
    }
  }

  lemma FirstPosition(s: Text, unit: u16, k: nat)
    requires k < |s| && s[k] == unit && unit !in s[..k]
    ensures Position(s, unit) == Some(k)
  {
    var at := Position(s, unit).value;
    assert forall i :: 0 <= i < k ==> s[i] in s[..k];
    assert forall i :: 0 <= i < at ==> s[i] in s[..at];
  }

  lemma ParseEntryBack(v: Var)
    requires ValidVar(v)
    ensures NUL !in Entry(v) && ParseEntry(Entry(v)) == Some(v)
  {
    var e := Entry(v);
    var k := |v.name| - 1;
    assert e[1..][k] == EQUALS && e[1..][..k] == v.name[1..];
    FirstPosition(e[1..], EQUALS, k);
    assert e[..k + 1] == v.name && e[k + 2..] == v.value;
  }

  /** The serialized variables without the NUL of the last entry. */
  function Joined(vars: seq<Var>): Text
    requires vars != []
  {
    if |vars| == 1 then Entry(vars[0]) else Entry(vars[0]) + [NUL] + Joined(vars[1..])
  }

  lemma {:induction false} SerializedIsJoined(vars: seq<Var>)
    requires vars != []
    ensures Serialized(vars) == Joined(vars) + [NUL]
    decreases |vars|
  {
    if |vars| == 1 {
      assert Serialized(vars[1..]) == [];
    } else {
      SerializedIsJoined(vars[1..]);
    }
  }

  lemma {:induction false} ParseJoined(vars: seq<Var>)
    requires vars != [] && ValidVars(vars)
    ensures ParseEntries(SplitAtNul(Joined(vars))) == Some(vars)
    decreases |vars|
  {
    hide SplitAtNul;
    hide ParseEntry;
    var e := Entry(vars[0]);
    ParseEntryBack(vars[0]);
    if |vars| == 1 {
      SplitFirst(e, []);
      assert [e][1..] == [] && ParseEntries([]) == Some([]);
      assert vars == [vars[0]] + [];
    } else {
      var rest := SplitAtNul(Joined(vars[1..]));
      ParseJoined(vars[1..]);
      SplitFirst(e, Joined(vars[1..]));
      assert ([e] + rest)[1..] == rest;
      assert vars == [vars[0]] + vars[1..];
    }
  }

  /** Whatever the reader returns is valid, entry by entry. */
  lemma {:induction false} ParsedIsValid(es: seq<Text>)
    requires forall i :: 0 <= i < |es| ==> NUL !in es[i]
    requires ParseEntries(es).Some?
    ensures ValidVars(ParseEntries(es).value)
    decreases |es|
  {
    if es != [] {
      ParsedIsValid(es[1..]);
      ParsedEntryIsValid(es[0]);
    }
  }

  lemma ParsedEntryIsValid(e: Text)
    requires NUL !in e && ParseEntry(e).Some?
    ensures ValidVar(ParseEntry(e).value)
  {
    var v, at := ParseEntry(e).value, Position(e[1..], EQUALS).value;
    assert v.name[1..] == e[1..][..at];
    assert forall i :: 0 <= i < |v.name| ==> v.name[i] == e[i];
    assert forall i :: 0 <= i < |v.value| ==> v.value[i] == e[at + 2 + i];
  }

  lemma ValidReadsBack(vars: seq<Var>)
    requires ValidVars(vars)
    ensures Entries(Block(vars)) == Some(vars)
  {
    if vars != [] {
      SerializedIsJoined(vars);
      ParseJoined(vars);
      hide ValidVars, Serialized, Joined, ParseEntries, SplitAtNul;
      var block, s := Block(vars), Joined(vars);
      assert |s| >= 1 && block == s + [NUL, NUL];
      assert block[..|block| - 1] == s + [NUL] && block[..|block| - 2] == s;
    }
  }

  lemma ReadBackIsValid(vars: seq<Var>)
    requires Entries(Block(vars)) == Some(vars)
    ensures ValidVars(vars)
  {
    if vars != [] {
      var block := Block(vars);
      ParsedIsValid(SplitAtNul(block[..|block| - 2]));
    }
  }

  /** A block reads back as the variables it was written from exactly when all of them are
      valid. Changes are checked for this; inherited variables are taken as they come. */
  lemma ReadsBackExactlyWhenValid(vars: seq<Var>)
    ensures Entries(Block(vars)) == Some(vars) <==> ValidVars(vars)
  {
    hide Entries, Block, ValidVars;
    if ValidVars(vars) {
      ValidReadsBack(vars);
    } else if Entries(Block(vars)) == Some(vars) {
      ReadBackIsValid(vars);
    }
  }

  // ---------------------------------------------------------------- last write wins

  /** The first variable of that name. */
  function Find(vars: seq<Var>, name: Text): Option<Var> {
    if vars == [] then None
    else if SameName(vars[0].name, name) then Some(vars[0])
    else Find(vars[1..], name)
  }

  /** The latest change to that name. */
  function LastChange(changes: seq<Change>, name: Text): Option<Change> {
    if changes == [] then None
    else
      var last := changes[|changes| - 1];
      if SameName(last.name, name) then Some(last) else LastChange(changes[..|changes| - 1], name)
  }

  /** The variable a name should have: the last change decides, and an untouched name keeps
      what was inherited. */
  function Expected(inherited: seq<Var>, changes: seq<Change>, name: Text): Option<Var> {
    match LastChange(changes, name)
    case Some(Set(n, v)) => Some(Var(n, v))
    case Some(Remove(_)) => None
    case None => Find(inherited, name)
  }

  lemma {:induction false} FindAppended(a: seq<Var>, b: seq<Var>, name: Text)
    ensures Find(a + b, name) == if Find(a, name).Some? then Find(a, name) else Find(b, name)
    decreases |a|
  {
    if a == [] {
      assert a + b == b;
    } else {
      assert (a + b)[1..] == a[1..] + b;
      FindAppended(a[1..], b, name);
    }
  }

  lemma {:induction false} FindRetained(vars: seq<Var>, gone: Text, name: Text)
    ensures Find(Retain(vars, gone), name) == if SameName(gone, name) then None else Find(vars, name)
    decreases |vars|
  {
    if vars != [] {
      FindRetained(vars[1..], gone, name);
      if !SameName(vars[0].name, gone) {
        var r := Retain(vars, gone);
        assert r[0] == vars[0] && r[1..] == Retain(vars[1..], gone);
      }
    }
  }

  lemma {:induction false} ApplyIsLastWins(inherited: seq<Var>, changes: seq<Change>, name: Text)
    ensures Find(Apply(inherited, changes), name) == Expected(inherited, changes, name)
    decreases |changes|
  {
    if changes != [] {
      var last, before := changes[|changes| - 1], Apply(inherited, changes[..|changes| - 1]);
      ApplyIsLastWins(inherited, changes[..|changes| - 1], name);
      FindRetained(before, last.name, name);
      if last.Set? {
        FindAppended(Retain(before, last.name), [Var(last.name, last.value)], name);
        assert Find([], name) == None;
      }
    }
  }

  // ---------------------------------------------------------------- sorting

  lemma {:induction false} LessIsIrreflexive(a: Text)
    ensures !Less(a, a)
    decreases |a|
  {
    if a != [] {
      LessIsIrreflexive(a[1..]);
    }
  }

  lemma {:induction false} LessIsTransitive(a: Text, b: Text, c: Text)
    requires Less(a, b) && Less(b, c)
    ensures Less(a, c)
    decreases |a|
  {
    if a != [] && a[0] == b[0] && b[0] == c[0] {
      LessIsTransitive(a[1..], b[1..], c[1..]);
    }
  }

  lemma {:induction false} LessIsTotal(a: Text, b: Text)
    ensures Less(a, b) || Less(b, a) || a == b
    decreases |a|
  {
    if a != [] && b != [] && a[0] == b[0] {
      LessIsTotal(a[1..], b[1..]);
      assert a == [a[0]] + a[1..] && b == [b[0]] + b[1..];
    }
  }

  /** `v` precedes whatever is not before something `v` precedes. */
  lemma BeforeCarries(v: Var, a: Var, b: Var)
    requires Before(v, a) && !Before(b, a)
    ensures Before(v, b)
  {
    LessIsTotal(Folded(b.name), Folded(a.name));
    if Before(a, b) {
      LessIsTransitive(Folded(v.name), Folded(a.name), Folded(b.name));
    }
  }

  lemma {:induction false} InsertIsPermutation(vars: seq<Var>, v: Var)
    ensures multiset(Insert(vars, v)) == multiset(vars) + multiset{v}
    decreases |vars|
  {
    var n := |vars|;
    if n > 0 && Before(v, vars[n - 1]) {
      InsertIsPermutation(vars[..n - 1], v);
      assert vars == vars[..n - 1] + [vars[n - 1]];
    }
  }

  lemma NotBeforeBack(a: Var, b: Var)
    requires Before(a, b)
    ensures !Before(b, a)
  {
    LessIsIrreflexive(Folded(a.name));
    if Before(b, a) {
      LessIsTransitive(Folded(a.name), Folded(b.name), Folded(a.name));
    }
  }

  lemma {:induction false} InsertIsSorted(vars: seq<Var>, v: Var)
    requires Sorted(vars)
    ensures Sorted(Insert(vars, v))
    decreases |vars|
  {
    hide Before;
    var n := |vars|;
    if n > 0 && Before(v, vars[n - 1]) {
      var front, last := vars[..n - 1], vars[n - 1];
      InsertIsSorted(front, v);
      InsertIsPermutation(front, v);
      NotBeforeBack(v, last);
      forall i | 0 <= i < n
        ensures !Before(last, Insert(front, v)[i])
      {
        assert Insert(front, v)[i] in multiset(front) + multiset{v};
      }
    } else if n > 0 {
      forall i | 0 <= i < n - 1
        ensures !Before(v, vars[i])
      {
        if Before(v, vars[i]) {
          BeforeCarries(v, vars[i], vars[n - 1]);
        }
      }
    }
  }

  lemma {:induction false} SortIsSorted(vars: seq<Var>)
    ensures Sorted(Sort(vars))
    ensures multiset(Sort(vars)) == multiset(vars)
    decreases |vars|
  {
    if vars != [] {
      var n := |vars| - 1;
      SortIsSorted(vars[..n]);
      InsertIsSorted(Sort(vars[..n]), vars[n]);
      InsertIsPermutation(Sort(vars[..n]), vars[n]);
      assert vars == vars[..n] + [vars[n]];
    }
  }

  /** The sort is stable, so it never changes which variable a name finds, even when
      inherited names collide. */
  lemma {:induction false} FindInserted(vars: seq<Var>, v: Var, name: Text)
    requires Sorted(vars)
    ensures Find(Insert(vars, v), name) == Find(vars + [v], name)
    decreases |vars|
  {
    var n := |vars|;
    if n > 0 && Before(v, vars[n - 1]) {
      var front, last := vars[..n - 1], vars[n - 1];
      assert vars == front + [last];
      FindInserted(front, v, name);
      FindAppended(Insert(front, v), [last], name);
      FindAppended(front, [v], name);
      FindAppended(front, [last], name);
      FindAppended(vars, [v], name);
      if SameName(v.name, name) && SameName(last.name, name) {
        LessIsIrreflexive(Folded(v.name));
      }
    }
  }

  lemma {:induction false} FindSorted(vars: seq<Var>, name: Text)
    ensures Find(Sort(vars), name) == Find(vars, name)
    decreases |vars|
  {
    if vars != [] {
      var n := |vars| - 1;
      FindSorted(vars[..n], name);
      SortIsSorted(vars[..n]);
      FindInserted(Sort(vars[..n]), vars[n], name);
      FindAppended(Sort(vars[..n]), [vars[n]], name);
      FindAppended(vars[..n], [vars[n]], name);
      assert vars == vars[..n] + [vars[n]];
    }
  }

  // ---------------------------------------------------------------- one entry per name

  predicate DistinctNames(vars: seq<Var>) {
    forall i, j :: 0 <= i < j < |vars| ==> !SameName(vars[i].name, vars[j].name)
  }

  lemma {:induction false} RetainMembers(vars: seq<Var>, name: Text, v: Var)
    ensures v in Retain(vars, name) <==> v in vars && !SameName(v.name, name)
    decreases |vars|
  {
    if vars != [] {
      RetainMembers(vars[1..], name, v);
      assert v in vars <==> v == vars[0] || v in vars[1..];
    }
  }

  lemma {:induction false} RetainDistinct(vars: seq<Var>, name: Text)
    requires DistinctNames(vars)
    ensures DistinctNames(Retain(vars, name))
    decreases |vars|
  {
    hide SameName;
    if vars != [] {
      RetainDistinct(vars[1..], name);
      forall i | 0 <= i < |Retain(vars[1..], name)|
        ensures !SameName(vars[0].name, Retain(vars[1..], name)[i].name)
      {
        RetainMembers(vars[1..], name, Retain(vars[1..], name)[i]);
      }
    }
  }

  lemma {:induction false} ApplyKeeps(vars: seq<Var>, changes: seq<Change>)
    requires forall i :: 0 <= i < |changes| ==> ValidChange(changes[i])
    ensures DistinctNames(vars) ==> DistinctNames(Apply(vars, changes))
    ensures ValidVars(vars) ==> ValidVars(Apply(vars, changes))
    decreases |changes|
  {
    if changes != [] {
      var last, before := changes[|changes| - 1], Apply(vars, changes[..|changes| - 1]);
      ApplyKeeps(vars, changes[..|changes| - 1]);
      forall v
        ensures v in Retain(before, last.name) <==> v in before && !SameName(v.name, last.name)
      {
        RetainMembers(before, last.name, v);
      }
      if DistinctNames(vars) {
        RetainDistinct(before, last.name);
      }
    }
  }

  lemma SortedDistinctIsStrict(vars: seq<Var>)
    requires DistinctNames(vars)
    ensures StrictlySorted(Sort(vars))
  {
    var r := Sort(vars);
    SortIsSorted(vars);
    SortKeepsDistinct(vars);
    forall i, j | 0 <= i < j < |r|
      ensures Before(r[i], r[j])
    {
      LessIsTotal(Folded(r[i].name), Folded(r[j].name));
    }
  }

  /** A permutation of pairwise different names has pairwise different names. */
  lemma SortKeepsDistinct(vars: seq<Var>)
    requires DistinctNames(vars)
    ensures DistinctNames(Sort(vars))
  {
    hide SameName;
    hide Sort;
    var r := Sort(vars);
    SortIsSorted(vars);
    forall i, j | 0 <= i < j < |r|
      ensures !SameName(r[i].name, r[j].name)
    {
      assert r[i] in multiset(r) && r[j] in multiset(r);
      var k :| 0 <= k < |vars| && vars[k] == r[i];
      var l :| 0 <= l < |vars| && vars[l] == r[j];
      OnceInSeq(vars, k);
      if r[i] == r[j] {
        TwiceInSeq(r, i, j);
      }
      SameNameIsSymmetric(r[i].name, r[j].name);
    }
  }

  lemma SameNameIsSymmetric(a: Text, b: Text)
    ensures SameName(a, b) <==> SameName(b, a)
  {
  }

  lemma TwiceInSeq(s: seq<Var>, i: nat, j: nat)
    requires i < j < |s| && s[i] == s[j]
    ensures multiset(s)[s[i]] >= 2
  {
    assert s == s[..i] + [s[i]] + s[i + 1..j] + [s[j]] + s[j + 1..];
  }

  lemma OnceInSeq(s: seq<Var>, k: nat)
    requires k < |s| && DistinctNames(s)
    ensures multiset(s)[s[k]] == 1
  {
    assert s == s[..k] + [s[k]] + s[k + 1..];
    assert s[k] !in s[..k];
    assert s[k] !in s[k + 1..];
  }

  /** The whole promise: with valid changes over a real environment (valid names, distinct
      without case), the block reads back as a list strictly sorted by folded name in which
      every name has exactly the value its last change, or else its inheritance, gives it. */
  lemma BlockHoldsTheEditedEnvironment(inherited: seq<Var>, changes: seq<Change>)
    requires ValidVars(inherited) && DistinctNames(inherited)
    requires forall i :: 0 <= i < |changes| ==> ValidChange(changes[i])
    ensures var block := Block(Environment(inherited, changes));
            && Entries(block).Some?
            && StrictlySorted(Entries(block).value)
            && forall name :: Find(Entries(block).value, name) == Expected(inherited, changes, name)
  {
    var vars := Apply(inherited, changes);
    ApplyKeeps(inherited, changes);
    SortIsSorted(vars);
    forall i | 0 <= i < |Sort(vars)|
      ensures ValidVar(Sort(vars)[i])
    {
      assert Sort(vars)[i] in multiset(Sort(vars));
    }
    ReadsBackExactlyWhenValid(Sort(vars));
    SortedDistinctIsStrict(vars);
    forall name
      ensures Find(Sort(vars), name) == Expected(inherited, changes, name)
    {
      FindSorted(vars, name);
      ApplyIsLastWins(inherited, changes, name);
    }
  }

  // ---------------------------------------------------------------- unchecked inheritance

  /** The edited environment holds the untouched inherited variables and what last changes set. */
  lemma {:induction false} ApplyMembers(inherited: seq<Var>, changes: seq<Change>, v: Var)
    ensures v in Apply(inherited, changes) <==>
              || (v in inherited && LastChange(changes, v.name).None?)
              || LastChange(changes, v.name) == Some(Set(v.name, v.value))
    decreases |changes|
  {
    if changes != [] {
      var last, before := changes[|changes| - 1], Apply(inherited, changes[..|changes| - 1]);
      ApplyMembers(inherited, changes[..|changes| - 1], v);
      RetainMembers(before, last.name, v);
      SameNameIsSymmetric(v.name, last.name);
      hide SameName, Retain;
      SameAsItself(v.name);
      assert v in Retain(before, last.name) + [Var(last.name, v.value)] <==>
             v in Retain(before, last.name) || v == Var(last.name, v.value);
    }
  }

  lemma SameAsItself(name: Text)
    ensures SameName(name, name)
  {
  }

  lemma {:induction false} LastChangeIsAChange(changes: seq<Change>, name: Text)
    ensures LastChange(changes, name).Some? ==> LastChange(changes, name).value in changes
    decreases |changes|
  {
    if changes != [] {
      LastChangeIsAChange(changes[..|changes| - 1], name);
    }
  }

  lemma SortKeepsValid(vars: seq<Var>)
    ensures ValidVars(Sort(vars)) <==> forall v :: v in vars ==> ValidVar(v)
  {
    SortIsSorted(vars);
    hide Sort, ValidVar;
    assert forall v :: v in Sort(vars) <==> v in multiset(Sort(vars));
    assert forall v :: v in vars <==> v in multiset(vars);
  }

  /** With valid changes, the block of any inherited environment reads back as that environment
      edited if and only if every inherited variable that no change touches is valid. */
  lemma BlockReadsBackExactly(inherited: seq<Var>, changes: seq<Change>)
    requires forall i :: 0 <= i < |changes| ==> ValidChange(changes[i])
    ensures Entries(Block(Environment(inherited, changes))) == Some(Environment(inherited, changes))
            <==> forall v :: v in inherited && LastChange(changes, v.name).None? ==> ValidVar(v)
  {
    var applied := Apply(inherited, changes);
    ReadsBackExactlyWhenValid(Environment(inherited, changes));
    SortKeepsValid(applied);
    hide Entries, Block, Apply, Sort, ValidName, LastChange;
    forall v: Var
      ensures v in applied <==>
                (v in inherited && LastChange(changes, v.name).None?) || LastChange(changes, v.name) == Some(Set(v.name, v.value))
    {
      ApplyMembers(inherited, changes, v);
    }
    forall v: Var | LastChange(changes, v.name) == Some(Set(v.name, v.value)) ensures ValidVar(v) {
      LastChangeIsAChange(changes, v.name);
    }
  }

  lemma SingleBlock(v: Var)
    ensures Block(Environment([v], [])) == Entry(v) + [NUL] + [NUL]
  {
    assert Apply([v], []) == [v];
    assert [v][..0] == [] && Sort([v]) == [v];
    assert [v][1..] == [] && Serialized([v]) == Entry(v) + [NUL] + [];
  }

  /** The failing input: an inherited name that ends in `=` comes back without it, and its value with
      it in front. */
  lemma UncheckedNameReadsBackChanged(name: Text, value: Text)
    requires ValidName(name) && NUL !in value
    ensures Entries(Block(Environment([Var(name + [EQUALS], value)], []))) == Some([Var(name, [EQUALS] + value)])
  {
    var v, w := Var(name + [EQUALS], value), Var(name, [EQUALS] + value);
    assert Entry(v) == Entry(w);
    SingleBlock(v);
    SingleBlock(w);
    ReadsBackExactlyWhenValid(Environment([w], []));
    assert Environment([w], []) == [w] by { assert Apply([w], []) == [w] && [w][..0] == []; }
    hide Entries, Block;
  }

  // ---------------------------------------------------------------- names

  predicate Upper(unit: u16) {
    0x41 <= unit <= 0x5a
  }

  /** Two units are one letter in either case, or the same unit. */
  predicate SameLetter(a: u16, b: u16) {
    a == b || (Upper(a) && b as int == a as int + 0x20) || (Upper(b) && a as int == b as int + 0x20)
  }

  /** Two names are the same exactly if they differ in nothing but the case of ASCII letters. */
  lemma SameNameIsAsciiCase(a: Text, b: Text)
    ensures SameName(a, b) <==> |a| == |b| && forall i :: 0 <= i < |a| ==> SameLetter(a[i], b[i])
  {
    if |a| == |b| {
      assert forall i :: 0 <= i < |a| ==> (Folded(a)[i] == Folded(b)[i] <==> SameLetter(a[i], b[i]));
      assert Folded(a) == Folded(b) <==> forall i :: 0 <= i < |a| ==> Folded(a)[i] == Folded(b)[i];
    }
  }

  /** Where two texts part, the one that ends or has the smaller unit is less. */
  ghost predicate PartsBelow(a: Text, b: Text, k: nat) {
    k <= |a| && k < |b| && a[..k] == b[..k] && (k == |a| || a[k] < b[k])
  }

  lemma {:induction false} LessIsWhereTheyPart(a: Text, b: Text)
    ensures Less(a, b) <==> exists k: nat :: PartsBelow(a, b, k)
    decreases |a|
  {
    if b == [] {
      assert forall k: nat :: !PartsBelow(a, b, k);
    } else if a == [] {
      assert PartsBelow(a, b, 0);
    } else if a[0] == b[0] {
      LessIsWhereTheyPart(a[1..], b[1..]);
      if Less(a, b) {
        var k: nat :| PartsBelow(a[1..], b[1..], k);
        assert a[..k + 1] == [a[0]] + a[1..][..k] && b[..k + 1] == [b[0]] + b[1..][..k];
        assert PartsBelow(a, b, k + 1);
      }
      if k: nat :| PartsBelow(a, b, k) {
        assert k > 0 && a[1..][..k - 1] == a[..k][1..] && b[1..][..k - 1] == b[..k][1..];
        assert PartsBelow(a[1..], b[1..], k - 1);
      }
    } else {
      if a[0] < b[0] {
        assert a[..0] == b[..0];
        assert PartsBelow(a, b, 0);
      }
      forall k: nat | PartsBelow(a, b, k) ensures k == 0 {
        PrefixesShareTheFirst(a, b, k);
      }
    }
  }

  lemma PrefixesShareTheFirst(a: Text, b: Text, k: nat)
    requires k <= |a| && k <= |b| && a[..k] == b[..k]
    ensures k > 0 ==> a[0] == b[0]
  {
    assert k > 0 ==> a[..k][0] == b[..k][0];
  }

  /** The upper-case form of a name, unit by unit. */
  lemma FoldedIsUpperCase(name: Text, i: nat)
    requires i < |name|
    ensures Folded(name)[i] as int == if 0x61 <= name[i] <= 0x7a then name[i] as int - 0x20 else name[i] as int
  {
  }

  /** Variables are in the order of their upper-case names, compared unit by unit. */
  lemma BeforeIsUnitOrder(a: Var, b: Var)
    ensures Before(a, b) <==> exists k: nat :: PartsBelow(Folded(a.name), Folded(b.name), k)
  {
    LessIsWhereTheyPart(Folded(a.name), Folded(b.name));
  }
}
