/** Atomic publication of discovery records (src/publication.rs): a record is written to a
    temporary file and renamed into place, readers take no lock, and conditional operations
    compare and act under the slot lock. Unix semantics: rename replaces a name in one step,
    and an open file is its inode. */
module RecordSlot {
  import opened Bytes
  import opened Options

  type Contents = seq<u8>

  // ---------------------------------------------------------------- comparing and reading

  /** `matches`: read one byte more than expected, then compare. */
  predicate Matches(file: Contents, contents: Contents) {
    var read := if |file| <= |contents| + 1 then file else file[..|contents| + 1];
    read == contents
  }

  /** The bounded comparison is equality, so a record that merely starts alike never matches. */
  lemma MatchesIsEquality(file: Contents, contents: Contents)
    ensures Matches(file, contents) <==> file == contents
  {
  }

  datatype Limited = Whole(contents: Contents) | TooLong

  /** `read_regular`: take one byte past the limit, and refuse what reaches it. */
  function ReadLimited(file: Contents, limit: nat): (r: Limited)
    ensures r == if |file| <= limit then Whole(file) else TooLong
  {
    var read := if |file| <= limit + 1 then file else file[..limit + 1];
    if |read| > limit then TooLong else Whole(read)
  }

  // ---------------------------------------------------------------- one call at a time

  datatype Name = Record | Temporary(pid: nat, number: nat)

  /** Where a publication fails, if it does. */
  datatype Fault = NoFault | AtCreate | AtWrite(written: nat) | AtRename | AtDirectorySync

  datatype Outcome = Done(changed: bool) | Failed

  class Directory {
    var files: map<Name, Contents>
    var next: nat

    constructor ()
      ensures files == map[]
    {
      files, next := map[], 0;
    }

    /** Temporary names of this process not tried yet. */
    ghost function Taken(pid: nat): set<Name>
      reads this
    {
      set n | n in files.Keys && n.Temporary? && n.pid == pid && n.number >= next
    }

    /** The record is replaced whole, or, on a failure before the rename, nothing is left
        changed: the temporary is gone either way. */
    method Publish(pid: nat, contents: Contents, fault: Fault) returns (ok: bool)
      modifies this
      ensures ok <==> fault.NoFault?
      ensures Current() == if fault.NoFault? || fault.AtDirectorySync? then Some(contents) else old(Current())
      ensures forall n :: n != Record ==> (n in files <==> n in old(files)) && (n in files ==> files[n] == old(files)[n])
    {
      while Temporary(pid, next) in files
        invariant files == old(files)
        decreases |Taken(pid)|
      {
        ghost var before := Taken(pid);
        ghost var here := Temporary(pid, next);
        assert here in before;
        next := next + 1;
        assert Taken(pid) <= before - {here};
        SmallerSet(Taken(pid), before, here);
      }
      var temporary := Temporary(pid, next);
      next := next + 1;
      if fault.AtCreate? {
        return false;
      }
      files := files[temporary := []];
      if fault.AtWrite? {
        files := files[temporary := contents[..if fault.written <= |contents| then fault.written else |contents|]];
        files := files - {temporary};
        return false;
      }
      files := files[temporary := contents];
      if fault.AtRename? {
        files := files - {temporary};
        return false;
      }
      files := files[Record := files[temporary]] - {temporary};
      ok := !fault.AtDirectorySync?;
    }

    function Current(): Option<Contents>
      reads this
    {
      if Record in files then Some(files[Record]) else None
    }

    /** A record that already matches is left alone; otherwise it is published. */
    method Repair(pid: nat, contents: Contents, fault: Fault) returns (r: Outcome)
      modifies this
      ensures old(Current()) == Some(contents) ==> r == Done(false) && files == old(files)
      ensures old(Current()) != Some(contents) ==>
                && r == (if fault.NoFault? then Done(true) else Failed)
                && Current() == if fault.NoFault? || fault.AtDirectorySync? then Some(contents) else old(Current())
      ensures forall n :: n != Record ==> (n in files <==> n in old(files)) && (n in files ==> files[n] == old(files)[n])
    {
      if Record in files {
        MatchesIsEquality(files[Record], contents);
        if Matches(files[Record], contents) {
          return Done(false);
        }
      }
      var ok := Publish(pid, contents, fault);
      r := if ok then Done(true) else Failed;
    }

    /** A record longer than the limit is an error before the predicate is asked. */
    method ReplaceIf(pid: nat, contents: Contents, accept: Option<Contents> -> bool, limit: nat, fault: Fault) returns (r: Outcome)
      modifies this
      ensures old(Current()).Some? && |old(Current()).value| > limit ==> r == Failed && files == old(files)
      ensures (old(Current()).Some? ==> |old(Current()).value| <= limit) ==>
                if accept(old(Current())) then
                  && r == (if fault.NoFault? then Done(true) else Failed)
                  && Current() == if fault.NoFault? || fault.AtDirectorySync? then Some(contents) else old(Current())
                else r == Done(false) && files == old(files)
      ensures forall n :: n != Record ==> (n in files <==> n in old(files)) && (n in files ==> files[n] == old(files)[n])
    {
      var current: Option<Contents> := None;
      if Record in files {
        var read := ReadLimited(files[Record], limit);
        if read.TooLong? {
          return Failed;
        }
        current := Some(read.contents);
      }
      if !accept(current) {
        return Done(false);
      }
      var ok := Publish(pid, contents, fault);
      r := if ok then Done(true) else Failed;
    }

    /** The predicate is asked only about a record that is there and within the limit. */
    method RemoveIf(wanted: Contents -> bool, limit: nat) returns (r: Outcome)
      modifies this
      ensures old(Current()) == None ==> r == Done(false)
      ensures old(Current()).Some? ==>
                r == if |old(Current()).value| > limit then Failed else Done(wanted(old(Current()).value))
      ensures files == if r == Done(true) then old(files) - {Record} else old(files)
    {
      if Record !in files {
        return Done(false);
      }
      var read := ReadLimited(files[Record], limit);
      if read.TooLong? {
        return Failed;
      }
      if !wanted(read.contents) {
        return Done(false);
      }
      files := files - {Record};
      r := Done(true);
    }

    method RemoveIfMatches(contents: Contents) returns (removed: bool)
      modifies this
      ensures removed <==> old(Current()) == Some(contents)
      ensures files == if removed then old(files) - {Record} else old(files)
    {
      if Record !in files || !Matches(files[Record], contents) {
        if Record in files {
          MatchesIsEquality(files[Record], contents);
        }
        return false;
      }
      MatchesIsEquality(files[Record], contents);
      files := files - {Record};
      removed := true;
    }
  }

  lemma SmallerSet<T>(small: set<T>, big: set<T>, x: T)
    requires x in big && small <= big - {x}
    ensures |small| < |big|
  {
    SubsetSize(small, big - {x});
  }

  lemma {:induction false} SubsetSize<T>(small: set<T>, big: set<T>)
    requires small <= big
    ensures |small| <= |big|
    decreases big
  {
    if small != {} {
      var x :| x in small;
      SubsetSize(small - {x}, big - {x});
    }
  }
}

/** Any number of slot users and lock-free readers at once, each step of a publication on its
    own, with crashes anywhere. */
module RecordProtocol {
  import opened Options
  import opened RecordSlot

  type Pid = nat
  type Inode = nat

  datatype Op =
    | Replace(contents: Contents)
    | Repair(contents: Contents)
    | ReplaceIf(contents: Contents, accept: Option<Contents> -> bool)
    | RemoveIfMatches(contents: Contents)
    | RemoveIf(wanted: Contents -> bool)

  /** Whether an operation acts on the record it finds. */
  predicate Wants(op: Op, current: Option<Contents>) {
    match op
    case Replace(_) => true
    case Repair(c) => current != Some(c)
    case ReplaceIf(_, accept) => accept(current)
    case RemoveIfMatches(c) => current == Some(c)
    case RemoveIf(wanted) => current.Some? && wanted(current.value)
  }

  predicate Removes(op: Op) {
    op.RemoveIfMatches? || op.RemoveIf?
  }

  /** A slot user: waiting for the lock, holding it before and after its decision, or writing a
      temporary. `locked` is false for a plain `publish_record`, which takes no slot lock. */
  datatype Pc =
    | Idle
    | Waiting(op: Op)
    | Deciding(op: Op)
    | Decided(op: Op, seen: Option<Contents>)
    | Writing(contents: Contents, op: Op, seen: Option<Contents>, temporary: Inode, locked: bool)

  /** What a read within a limit answers. */
  datatype Answer = Missing | Whole(contents: Contents) | Refused

  function AnswerFor(found: Option<Contents>, limit: nat): Answer {
    if found.None? then Missing
    else match ReadLimited(found.value, limit)
      case Whole(c) => Answer.Whole(c)
      case TooLong => Refused
  }

  /** A reader with an open handle and its read limit, and what the record was when it opened it;
      then its answer. */
  datatype Reader =
    | Reading(limit: nat, inode: Inode, got: Contents, held: Contents)
    | Finished(limit: nat, result: Answer, atOpen: Option<Contents>)

  /** An operation that took effect: what it had checked, and the record it replaced or removed. */
  datatype Act = Act(op: Op, seen: Option<Contents>, before: Option<Contents>)

  datatype State = State(
    path: Option<Inode>, files: map<Inode, Contents>, next: Inode, lock: Option<Pid>,
    pcs: map<Pid, Pc>, readers: map<nat, Reader>, published: set<Contents>, acts: seq<Act>)

  datatype Step =
    | Start(pid: Pid, op: Op)
    | StartUnlocked(pid: Pid, contents: Contents)
    | Lock(pid: Pid)
    | Decide(pid: Pid)
    | CreateTemporary(pid: Pid)
    | Append(pid: Pid, count: nat)
    | Rename(pid: Pid)
    | Remove(pid: Pid)
    | Crash(pid: Pid)
    | Open(reader: nat, limit: nat)
    | ReadSome(reader: nat, count: nat)
    | Finish(reader: nat)

  function Initial(record: Option<Contents>): State {
    if record.None? then State(None, map[], 0, None, map[], map[], {}, [])
    else State(Some(0), map[0 := record.value], 1, None, map[], map[], {record.value}, [])
  }

  function Current(s: State): Option<Contents> {
    if s.path.Some? && s.path.value in s.files then Some(s.files[s.path.value]) else None
  }

  function PcOf(s: State, p: Pid): Pc {
    if p in s.pcs then s.pcs[p] else Idle
  }

  function Longer(written: Contents, whole: Contents, count: nat): Contents {
    if |written| + count <= |whole| then whole[..|written| + count] else whole
  }

  // What one step of a user does to the slot.

  function Goes(s: State, p: Pid, pc: Pc): State {
    s.(pcs := s.pcs[p := pc])
  }

  function Released(s: State, p: Pid): State {
    s.(pcs := s.pcs[p := Idle], lock := if s.lock == Some(p) then None else s.lock)
  }

  function Created(s: State, p: Pid, contents: Contents, op: Op, seen: Option<Contents>, locked: bool): State {
    s.(pcs := s.pcs[p := Writing(contents, op, seen, s.next, locked)],
       files := s.files[s.next := []], next := s.next + 1)
  }

  function Appended(s: State, p: Pid, count: nat): State
    requires p in s.pcs && s.pcs[p].Writing? && s.pcs[p].temporary in s.files
  {
    var t := s.pcs[p].temporary;
    s.(files := s.files[t := Longer(s.files[t], s.pcs[p].contents, count)])
  }

  function Renamed(s: State, p: Pid): State
    requires p in s.pcs && s.pcs[p].Writing?
  {
    var pc := s.pcs[p];
    Released(s, p).(path := Some(pc.temporary), published := s.published + {pc.contents},
                    acts := if pc.locked then s.acts + [Act(pc.op, pc.seen, Current(s))] else s.acts)
  }

  function Unlinked(s: State, p: Pid): State
    requires p in s.pcs && s.pcs[p].Decided?
  {
    Released(s, p).(path := None, acts := s.acts + [Act(s.pcs[p].op, s.pcs[p].seen, Current(s))])
  }

  function NextUser(s: State, step: Step): State
    requires !step.Open? && !step.ReadSome? && !step.Finish?
  {
    var p := step.pid;
    match step
    case Start(_, op) => if PcOf(s, p).Idle? then Goes(s, p, Waiting(op)) else s
    case StartUnlocked(_, c) => if PcOf(s, p).Idle? then Created(s, p, c, Replace(c), None, false) else s
    case Lock(_) =>
      if PcOf(s, p).Waiting? && s.lock.None? then Goes(s, p, Deciding(PcOf(s, p).op)).(lock := Some(p)) else s
    case Decide(_) =>
      if !PcOf(s, p).Deciding? then s
      else if Wants(s.pcs[p].op, Current(s)) then Goes(s, p, Decided(s.pcs[p].op, Current(s)))
      else Released(s, p)
    case CreateTemporary(_) =>
      if PcOf(s, p).Decided? && !Removes(s.pcs[p].op) then
        Created(s, p, s.pcs[p].op.contents, s.pcs[p].op, s.pcs[p].seen, true)
      else s
    case Append(_, n) =>
      if PcOf(s, p).Writing? && s.pcs[p].temporary in s.files then Appended(s, p, n) else s
    case Rename(_) =>
      if PcOf(s, p).Writing? && s.pcs[p].temporary in s.files && s.files[s.pcs[p].temporary] == s.pcs[p].contents
      then Renamed(s, p) else s
    case Remove(_) => if PcOf(s, p).Decided? && Removes(s.pcs[p].op) then Unlinked(s, p) else s
    case Crash(_) => Released(s, p)
    case _ => s
  }

  predicate CanRead(s: State, r: nat) {
    r in s.readers && s.readers[r].Reading? && s.readers[r].inode in s.files
    && |s.readers[r].got| <= |s.files[s.readers[r].inode]|
  }

  /** Some more bytes of the open file, up to one past the limit. */
  function MoreRead(h: Reader, file: Contents, count: nat): Reader
    requires h.Reading? && |h.got| <= |file|
  {
    var wanted := |h.got| + count;
    var end := if wanted <= h.limit + 1 then wanted else if |h.got| <= h.limit + 1 then h.limit + 1 else |h.got|;
    h.(got := h.got + file[|h.got|..if end <= |file| then end else |file|])
  }

  /** Nothing is left to read, or one byte too many has been. */
  predicate ReadAll(h: Reader, file: Contents)
    requires h.Reading?
  {
    |h.got| == |file| || |h.got| == h.limit + 1
  }

  function NextReader(s: State, step: Step): State
    requires step.Open? || step.ReadSome? || step.Finish?
  {
    var r := step.reader;
    match step
    case Open(_, limit) =>
      if r in s.readers then s
      else if Current(s).None? then s.(readers := s.readers[r := Finished(limit, Missing, None)])
      else s.(readers := s.readers[r := Reading(limit, s.path.value, [], Current(s).value)])
    case ReadSome(_, n) =>
      if CanRead(s, r) then s.(readers := s.readers[r := MoreRead(s.readers[r], s.files[s.readers[r].inode], n)]) else s
    case Finish(_) =>
      if CanRead(s, r) && ReadAll(s.readers[r], s.files[s.readers[r].inode]) then
        var h := s.readers[r];
        s.(readers := s.readers[r := Finished(h.limit, if |h.got| > h.limit then Refused else Answer.Whole(h.got), Some(h.held))])
      else s
    case _ => s
  }

  function Next(s: State, step: Step): State {
    if step.Open? || step.ReadSome? || step.Finish? then NextReader(s, step) else NextUser(s, step)
  }

  function Run(record: Option<Contents>, steps: seq<Step>): State {
    if |steps| == 0 then Initial(record) else Next(Run(record, steps[..|steps| - 1]), steps[|steps| - 1])
  }

  // ---------------------------------------------------------------- invariants

  predicate InodesBelow(s: State) {
    && (forall i :: i in s.files ==> i < s.next)
    && (s.path.Some? ==> s.path.value in s.files)
  }

  /** A temporary is its writer's alone until it is renamed, and holds a part of the contents. */
  predicate Private(s: State) {
    Hidden(s.pcs, s.files, s.path) && Apart(s.pcs)
  }

  predicate Hidden(pcs: map<Pid, Pc>, files: map<Inode, Contents>, path: Option<Inode>) {
    forall p :: p in pcs && pcs[p].Writing? ==>
      pcs[p].temporary in files && files[pcs[p].temporary] <= pcs[p].contents && path != Some(pcs[p].temporary)
  }

  predicate Apart(pcs: map<Pid, Pc>) {
    forall p, q :: p in pcs && q in pcs && p != q && pcs[p].Writing? && pcs[q].Writing? ==> pcs[p].temporary != pcs[q].temporary
  }

  lemma MovingKeepsApart(pcs: map<Pid, Pc>, p: Pid, pc: Pc)
    requires Apart(pcs)
    requires pc.Writing? ==> forall q :: q in pcs && q != p && pcs[q].Writing? ==> pcs[q].temporary != pc.temporary
    ensures Apart(pcs[p := pc])
  {
  }

  predicate PublishedAtPath(s: State) {
    Current(s).Some? ==> Current(s).value in s.published
  }

  /** What a reader holds open is a published record that nobody writes to any more. */
  predicate ReadersSafe(s: State) {
    && (forall r :: r in s.readers && s.readers[r].Reading? ==>
          var h := s.readers[r];
          h.inode in s.files && s.files[h.inode] == h.held && h.got <= h.held && h.held in s.published)
    && (forall r, p :: r in s.readers && s.readers[r].Reading? && p in s.pcs && s.pcs[p].Writing? ==>
          s.readers[r].inode != s.pcs[p].temporary)
    && (forall r :: r in s.readers && s.readers[r].Finished? ==>
          && s.readers[r].result == AnswerFor(s.readers[r].atOpen, s.readers[r].limit)
          && (s.readers[r].atOpen.Some? ==> s.readers[r].atOpen.value in s.published))
  }

  predicate HoldsLock(pc: Pc) {
    pc.Deciding? || pc.Decided? || (pc.Writing? && pc.locked)
  }

  predicate LockDiscipline(s: State) {
    forall p :: p in s.pcs && HoldsLock(s.pcs[p]) ==> s.lock == Some(p)
  }

  /** A lock holder that has decided. */
  predicate Holds(pc: Pc) {
    pc.Decided? || (pc.Writing? && pc.locked)
  }

  predicate SeenIsWanted(s: State) {
    forall p :: p in s.pcs && Holds(s.pcs[p]) ==> Wants(s.pcs[p].op, s.pcs[p].seen)
  }

  predicate ActsChecked(s: State) {
    forall k :: 0 <= k < |s.acts| ==> Wants(s.acts[k].op, s.acts[k].seen)
  }

  predicate Shape(s: State) {
    InodesBelow(s) && Private(s) && PublishedAtPath(s) && ReadersSafe(s)
  }

  predicate Ownership(s: State) {
    LockDiscipline(s) && SeenIsWanted(s) && ActsChecked(s)
  }

  lemma MovingKeepsShape(s: State, p: Pid, pc: Pc, lock: Option<Pid>)
    requires Shape(s) && !pc.Writing?
    ensures Shape(Goes(s, p, pc).(lock := lock))
  {
    hide Apart;
    MovingKeepsApart(s.pcs, p, pc);
    assert Current(Goes(s, p, pc).(lock := lock)) == Current(s);
  }

  lemma CreatingKeepsFiles(s: State, p: Pid, c: Contents, op: Op, seen: Option<Contents>, locked: bool)
    requires InodesBelow(s) && PublishedAtPath(s)
    ensures var t := Created(s, p, c, op, seen, locked); InodesBelow(t) && PublishedAtPath(t)
  {
    assert Current(Created(s, p, c, op, seen, locked)) == Current(s);
  }

  lemma CreatingKeepsPrivate(s: State, p: Pid, c: Contents, op: Op, seen: Option<Contents>, locked: bool)
    requires InodesBelow(s) && Private(s)
    ensures Private(Created(s, p, c, op, seen, locked))
  {
    hide Apart;
    MovingKeepsApart(s.pcs, p, Writing(c, op, seen, s.next, locked));
  }

  lemma CreatingKeepsReaders(s: State, p: Pid, c: Contents, op: Op, seen: Option<Contents>, locked: bool)
    requires InodesBelow(s) && ReadersSafe(s)
    ensures ReadersSafe(Created(s, p, c, op, seen, locked))
  {
  }

  lemma CreatingKeepsShape(s: State, p: Pid, c: Contents, op: Op, seen: Option<Contents>, locked: bool)
    requires Shape(s)
    ensures Shape(Created(s, p, c, op, seen, locked))
  {
    hide InodesBelow, Private, PublishedAtPath, ReadersSafe;
    CreatingKeepsFiles(s, p, c, op, seen, locked);
    CreatingKeepsPrivate(s, p, c, op, seen, locked);
    CreatingKeepsReaders(s, p, c, op, seen, locked);
  }

  lemma AppendingKeepsShape(s: State, p: Pid, n: nat)
    requires Shape(s) && p in s.pcs && s.pcs[p].Writing?
    ensures Shape(Appended(s, p, n))
  {
    assert Current(Appended(s, p, n)) == Current(s);
  }

  lemma RenamingKeepsShape(s: State, p: Pid)
    requires Shape(s) && p in s.pcs && s.pcs[p].Writing? && s.files[s.pcs[p].temporary] == s.pcs[p].contents
    ensures Shape(Renamed(s, p))
  {
    MovingKeepsApart(s.pcs, p, Idle);
    assert Current(Renamed(s, p)) == Some(s.pcs[p].contents);
  }

  lemma UnlinkingKeepsShape(s: State, p: Pid)
    requires Shape(s) && p in s.pcs && s.pcs[p].Decided?
    ensures Shape(Unlinked(s, p))
  {
    hide Apart;
    MovingKeepsApart(s.pcs, p, Idle);
  }

  /** The requirement on one reader, beside the rest of the state. */
  predicate ReaderSafe(s: State, v: Reader) {
    match v
    case Reading(_, inode, got, held) =>
      && inode in s.files && s.files[inode] == held && got <= held && held in s.published
      && (forall p :: p in s.pcs && s.pcs[p].Writing? ==> s.pcs[p].temporary != inode)
    case Finished(limit, result, atOpen) =>
      result == AnswerFor(atOpen, limit) && (atOpen.Some? ==> atOpen.value in s.published)
  }

  lemma ReaderKeepsFiles(s: State, r: nat, v: Reader)
    requires InodesBelow(s) && Private(s) && PublishedAtPath(s)
    ensures var t := s.(readers := s.readers[r := v]); InodesBelow(t) && Private(t) && PublishedAtPath(t)
  {
    assert Current(s.(readers := s.readers[r := v])) == Current(s);
  }

  lemma ReaderKeepsReaders(s: State, r: nat, v: Reader)
    requires ReadersSafe(s) && ReaderSafe(s, v)
    ensures ReadersSafe(s.(readers := s.readers[r := v]))
  {
    hide AnswerFor;
  }

  lemma ReaderKeepsShape(s: State, r: nat, v: Reader)
    requires Shape(s) && ReaderSafe(s, v)
    ensures Shape(s.(readers := s.readers[r := v]))
  {
    hide InodesBelow, Private, PublishedAtPath, ReadersSafe, ReaderSafe;
    ReaderKeepsFiles(s, r, v);
    ReaderKeepsReaders(s, r, v);
  }

  lemma ReadingStaysAPrefix(h: Reader, file: Contents, count: nat)
    requires h.Reading? && h.got <= file
    ensures MoreRead(h, file, count).got <= file
  {
    assert forall end :: |h.got| <= end <= |file| ==> h.got + file[|h.got|..end] == file[..end];
  }

  lemma ReadAllIsTheAnswer(h: Reader)
    requires h.Reading? && h.got <= h.held && ReadAll(h, h.held)
    ensures (if |h.got| > h.limit then Refused else Answer.Whole(h.got)) == AnswerFor(Some(h.held), h.limit)
  {
    assert |h.got| == |h.held| ==> h.got == h.held;
  }

  lemma ReaderMoves(s: State, step: Step)
    requires Shape(s) && (step.Open? || step.ReadSome? || step.Finish?) && NextReader(s, step) != s
    ensures step.reader in NextReader(s, step).readers
    ensures NextReader(s, step) == s.(readers := s.readers[step.reader := NextReader(s, step).readers[step.reader]])
    ensures ReaderSafe(s, NextReader(s, step).readers[step.reader])
  {
    hide AnswerFor, ReadAll;
    if step.Open? {
      MissingIsAnswered(step.limit);
    } else {
      var h := s.readers[step.reader];
      if step.ReadSome? {
        ReadingStaysAPrefix(h, h.held, step.count);
      } else {
        ReadAllIsTheAnswer(h);
      }
    }
  }

  lemma MissingIsAnswered(limit: nat)
    ensures AnswerFor(None, limit) == Missing
  {
  }

  lemma ReadingKeepsShape(s: State, step: Step)
    requires Shape(s) && (step.Open? || step.ReadSome? || step.Finish?)
    ensures Shape(NextReader(s, step))
  {
    hide Shape, ReaderSafe, NextReader;
    if NextReader(s, step) != s {
      ReaderMoves(s, step);
      ReaderKeepsShape(s, step.reader, NextReader(s, step).readers[step.reader]);
    }
  }

  lemma TemporaryExists(s: State, p: Pid)
    requires Shape(s)
    ensures PcOf(s, p).Writing? ==> PcOf(s, p).temporary in s.files
  {
  }

  lemma UserKeepsShape(s: State, step: Step)
    requires Shape(s) && !step.Open? && !step.ReadSome? && !step.Finish?
    ensures Shape(NextUser(s, step))
  {
    hide Shape;
    var p := step.pid;
    var pc := PcOf(s, p);
    TemporaryExists(s, p);
    match step
    case Start(_, op) => MovingKeepsShape(s, p, Waiting(op), s.lock);
    case StartUnlocked(_, c) => CreatingKeepsShape(s, p, c, Replace(c), None, false);
    case Lock(_) => if pc.Waiting? { MovingKeepsShape(s, p, Deciding(pc.op), Some(p)); }
    case Decide(_) =>
      if pc.Deciding? {
        MovingKeepsShape(s, p, Decided(pc.op, Current(s)), s.lock);
        MovingKeepsShape(s, p, Idle, Released(s, p).lock);
      }
    case CreateTemporary(_) =>
      if pc.Decided? && !Removes(pc.op) { CreatingKeepsShape(s, p, pc.op.contents, pc.op, pc.seen, true); }
    case Append(_, n) => if pc.Writing? { AppendingKeepsShape(s, p, n); }
    case Rename(_) => if pc.Writing? && s.files[pc.temporary] == pc.contents { RenamingKeepsShape(s, p); }
    case Remove(_) => if pc.Decided? { UnlinkingKeepsShape(s, p); }
    case Crash(_) => MovingKeepsShape(s, p, Idle, Released(s, p).lock);
  }

  // ---------------------------------------------------------------- who holds the lock, and what it saw

  lemma MovingKeepsOwnership(s: State, p: Pid, pc: Pc)
    requires Ownership(s) && !pc.Writing?
    requires pc.Decided? ==> Wants(pc.op, pc.seen)
    requires HoldsLock(pc) ==> s.lock == Some(p)
    ensures Ownership(Goes(s, p, pc))
  {
    assert Current(Goes(s, p, pc)) == Current(s);
  }

  lemma LockingKeepsOwnership(s: State, p: Pid, op: Op)
    requires Ownership(s) && s.lock.None?
    ensures Ownership(Goes(s, p, Deciding(op)).(lock := Some(p)))
  {
    assert Current(Goes(s, p, Deciding(op)).(lock := Some(p))) == Current(s);
  }

  lemma ReleasingKeepsOwnership(s: State, p: Pid)
    requires Ownership(s)
    ensures Ownership(Released(s, p))
  {
    assert Current(Released(s, p)) == Current(s);
  }

  lemma CreatingKeepsOwnership(s: State, p: Pid, c: Contents, op: Op, seen: Option<Contents>, locked: bool)
    requires Ownership(s) && InodesBelow(s)
    requires locked ==> s.lock == Some(p) && Wants(op, seen)
    ensures Ownership(Created(s, p, c, op, seen, locked))
  {
    assert Current(Created(s, p, c, op, seen, locked)) == Current(s);
  }

  lemma AppendingKeepsOwnership(s: State, p: Pid, n: nat)
    requires Ownership(s) && Private(s) && p in s.pcs && s.pcs[p].Writing?
    ensures Ownership(Appended(s, p, n))
  {
    assert Current(Appended(s, p, n)) == Current(s);
  }

  lemma RenamingKeepsOwnership(s: State, p: Pid)
    requires Ownership(s) && p in s.pcs && s.pcs[p].Writing?
    ensures Ownership(Renamed(s, p))
  {
  }

  lemma UnlinkingKeepsOwnership(s: State, p: Pid)
    requires Ownership(s) && p in s.pcs && s.pcs[p].Decided?
    ensures Ownership(Unlinked(s, p))
  {
  }

  lemma UserKeepsOwnership(s: State, step: Step)
    requires Shape(s) && Ownership(s) && !step.Open? && !step.ReadSome? && !step.Finish?
    ensures Ownership(NextUser(s, step))
  {
    var p := step.pid;
    var pc := PcOf(s, p);
    match step
    case Start(_, op) => MovingKeepsOwnership(s, p, Waiting(op));
    case StartUnlocked(_, c) => CreatingKeepsOwnership(s, p, c, Replace(c), None, false);
    case Lock(_) => if pc.Waiting? && s.lock.None? { LockingKeepsOwnership(s, p, pc.op); }
    case Decide(_) =>
      if pc.Deciding? && Wants(pc.op, Current(s)) {
        MovingKeepsOwnership(s, p, Decided(pc.op, Current(s)));
      } else {
        ReleasingKeepsOwnership(s, p);
      }
    case CreateTemporary(_) =>
      if pc.Decided? && !Removes(pc.op) { CreatingKeepsOwnership(s, p, pc.op.contents, pc.op, pc.seen, true); }
    case Append(_, n) => if pc.Writing? { AppendingKeepsOwnership(s, p, n); }
    case Rename(_) => if pc.Writing? { RenamingKeepsOwnership(s, p); }
    case Remove(_) => if pc.Decided? { UnlinkingKeepsOwnership(s, p); }
    case Crash(_) => ReleasingKeepsOwnership(s, p);
  }

  lemma ReadingKeepsOwnership(s: State, step: Step)
    requires Ownership(s) && (step.Open? || step.ReadSome? || step.Finish?)
    ensures Ownership(NextReader(s, step))
  {
    assert Current(NextReader(s, step)) == Current(s);
  }

  lemma StepKeepsInvariant(s: State, step: Step)
    requires Shape(s) && Ownership(s)
    ensures Shape(Next(s, step)) && Ownership(Next(s, step))
  {
    hide Shape, Ownership, NextUser, NextReader;
    if step.Open? || step.ReadSome? || step.Finish? {
      ReadingKeepsShape(s, step);
      ReadingKeepsOwnership(s, step);
    } else {
      UserKeepsShape(s, step);
      UserKeepsOwnership(s, step);
    }
  }

  lemma InitialInvariant(record: Option<Contents>)
    ensures Shape(Initial(record)) && Ownership(Initial(record))
  {
    var s := Initial(record);
    assert s.pcs.Keys == {} && s.readers.Keys == {} && s.acts == [];
  }

  lemma {:induction false} InvariantHolds(record: Option<Contents>, steps: seq<Step>)
    ensures Shape(Run(record, steps)) && Ownership(Run(record, steps))
  {
    hide Shape, Ownership, Next, Initial;
    if |steps| > 0 {
      InvariantHolds(record, steps[..|steps| - 1]);
      StepKeepsInvariant(Run(record, steps[..|steps| - 1]), steps[|steps| - 1]);
    } else {
      InitialInvariant(record);
    }
  }

  // ---------------------------------------------------------------- readers

  /** At some step the reader opened the record with this limit, and this is what the record was. */
  ghost predicate OpenedAt(record: Option<Contents>, steps: seq<Step>, k: nat, r: nat, limit: nat, found: Option<Contents>) {
    k < |steps| && steps[k].Open? && steps[k].reader == r && steps[k].limit == limit
    && Current(Run(record, steps[..k])) == found
  }

  function Expected(v: Reader): Option<Contents> {
    if v.Reading? then Some(v.held) else v.atOpen
  }

  lemma ReaderHistory(s: State, step: Step, r: nat)
    requires r in Next(s, step).readers
    ensures var v := Next(s, step).readers[r];
            if r in s.readers then Expected(v) == Expected(s.readers[r]) && v.limit == s.readers[r].limit
            else step.Open? && step.reader == r && step.limit == v.limit && Expected(v) == Current(s)
  {
    hide ReadAll;
  }

  lemma {:induction false} ReadersOpened(record: Option<Contents>, steps: seq<Step>, r: nat) returns (k: nat)
    requires r in Run(record, steps).readers
    ensures var v := Run(record, steps).readers[r]; OpenedAt(record, steps, k, r, v.limit, Expected(v))
    decreases |steps|
  {
    hide Next;
    if |steps| > 0 {
      var before := steps[..|steps| - 1];
      ReaderHistory(Run(record, before), steps[|steps| - 1], r);
      if r in Run(record, before).readers {
        k := ReadersOpened(record, before, r);
        assert steps[..k] == before[..k] && steps[k] == before[k];
      } else {
        k := |before|;
      }
    }
  }

  /** A lock-free read is atomic: however its pieces interleave with publications, its answer is
      that of reading, at the moment of the open, the whole record: missing, whole within the limit,
      or refused beyond it. */
  lemma {:induction false} ReadsAreAtomic(record: Option<Contents>, steps: seq<Step>, r: nat) returns (k: nat, found: Option<Contents>)
    requires r in Run(record, steps).readers && Run(record, steps).readers[r].Finished?
    ensures OpenedAt(record, steps, k, r, Run(record, steps).readers[r].limit, found)
    ensures Run(record, steps).readers[r].result == AnswerFor(found, Run(record, steps).readers[r].limit)
  {
    InvariantHolds(record, steps);
    k := ReadersOpened(record, steps, r);
    found := Expected(Run(record, steps).readers[r]);
  }

  /** Somebody asked for exactly these contents to be published. */
  ghost predicate Offered(record: Option<Contents>, steps: seq<Step>, c: Contents) {
    record == Some(c) || exists k :: 0 <= k < |steps| && Offers(steps[k], c)
  }

  predicate Offers(step: Step, c: Contents) {
    || (step.Start? && !Removes(step.op) && step.op.contents == c)
    || (step.StartUnlocked? && step.contents == c)
  }

  /** The contents a user is about to publish, if any. */
  function Intends(pc: Pc): Option<Contents> {
    match pc
    case Idle => None
    case Writing(c, _, _, _, _) => Some(c)
    case _ => if Removes(pc.op) then None else Some(pc.op.contents)
  }

  lemma StepIntends(s: State, step: Step, p: Pid, c: Contents)
    requires Intends(PcOf(Next(s, step), p)) == Some(c)
    ensures Intends(PcOf(s, p)) == Some(c) || Offers(step, c)
  {
  }

  lemma StepPublishes(s: State, step: Step, c: Contents)
    requires c in Next(s, step).published && c !in s.published
    ensures exists p :: Intends(PcOf(s, p)) == Some(c)
  {
    assert Intends(PcOf(s, step.pid)) == Some(c);
  }

  lemma OfferedEarlier(record: Option<Contents>, steps: seq<Step>, step: Step, c: Contents)
    requires Offered(record, steps, c) || Offers(step, c)
    ensures Offered(record, steps + [step], c)
  {
    if record != Some(c) {
      var all := steps + [step];
      if Offers(step, c) {
        assert Offers(all[|steps|], c);
      } else {
        var k :| 0 <= k < |steps| && Offers(steps[k], c);
        assert Offers(all[k], c);
      }
    }
  }

  lemma {:induction false} IntentionsAreOffered(record: Option<Contents>, steps: seq<Step>, p: Pid, c: Contents)
    requires Intends(PcOf(Run(record, steps), p)) == Some(c)
    ensures Offered(record, steps, c)
  {
    if |steps| > 0 {
      var before, step := steps[..|steps| - 1], steps[|steps| - 1];
      assert steps == before + [step];
      StepIntends(Run(record, before), step, p, c);
      hide Next;
      if Intends(PcOf(Run(record, before), p)) == Some(c) {
        IntentionsAreOffered(record, before, p, c);
      }
      OfferedEarlier(record, before, step, c);
    }
  }

  lemma {:induction false} PublishedWasOffered(record: Option<Contents>, steps: seq<Step>, c: Contents)
    requires c in Run(record, steps).published
    ensures Offered(record, steps, c)
  {
    if |steps| > 0 {
      var before, step := steps[..|steps| - 1], steps[|steps| - 1];
      assert steps == before + [step];
      if c in Run(record, before).published {
        PublishedWasOffered(record, before, c);
      } else {
        StepPublishes(Run(record, before), step, c);
        hide Next;
        var p :| Intends(PcOf(Run(record, before), p)) == Some(c);
        IntentionsAreOffered(record, before, p, c);
      }
      hide Next;
      OfferedEarlier(record, before, step, c);
    }
  }

  /** No torn record: at every moment of every run, crashes included, what is in place and what
      any reader answers is, whole, something a publisher was asked to publish. */
  lemma NoTornRecord(record: Option<Contents>, steps: seq<Step>, r: nat)
    ensures var s := Run(record, steps); Current(s).Some? ==> Offered(record, steps, Current(s).value)
    ensures var s := Run(record, steps);
            r in s.readers && s.readers[r].Finished? && s.readers[r].result.Whole? ==> Offered(record, steps, s.readers[r].result.contents)
  {
    var s := Run(record, steps);
    InvariantHolds(record, steps);
    if Current(s).Some? {
      PublishedWasOffered(record, steps, Current(s).value);
    }
    if r in s.readers && s.readers[r].Finished? && s.readers[r].result.Whole? {
      PublishedWasOffered(record, steps, s.readers[r].result.contents);
    }
  }

  // ---------------------------------------------------------------- conditional operations

  function After(op: Op): Option<Contents> {
    if Removes(op) then None else Some(op.contents)
  }

  /** The record left by doing the logged operations one after the other. */
  function Replay(record: Option<Contents>, acts: seq<Act>): Option<Contents> {
    if |acts| == 0 then record else After(acts[|acts| - 1].op)
  }

  /** Every logged operation acted on what the one before it left, and wanted to. */
  ghost predicate Serial(record: Option<Contents>, acts: seq<Act>) {
    forall k :: 0 <= k < |acts| ==> acts[k].before == Replay(record, acts[..k]) && Wants(acts[k].op, acts[k].before)
  }

  predicate SlotOnly(steps: seq<Step>) {
    forall k :: 0 <= k < |steps| ==> !steps[k].StartUnlocked?
  }

  // What a lock holder checked, against what others published meanwhile.

  /** The rename of a plain publication, which takes no slot lock. */
  predicate PlainRename(s: State, step: Step) {
    step.Rename? && PcOf(s, step.pid).Writing? && !PcOf(s, step.pid).locked
    && PcOf(s, step.pid).temporary in s.files && s.files[PcOf(s, step.pid).temporary] == PcOf(s, step.pid).contents
  }

  /** What the last plain rename after step `from` and before step `end` put in place, if there was one. */
  function LastPlain(record: Option<Contents>, steps: seq<Step>, from: nat, end: nat): Option<Contents>
    requires end <= |steps|
    decreases end
  {
    if end <= from + 1 then None
    else if PlainRename(Run(record, steps[..end - 1]), steps[end - 1]) then
      Some(PcOf(Run(record, steps[..end - 1]), steps[end - 1].pid).contents)
    else LastPlain(record, steps, from, end - 1)
  }

  function Overwritten(seen: Option<Contents>, plain: Option<Contents>): Option<Contents> {
    if plain.Some? then plain else seen
  }

  lemma {:induction false} LastPlainOfPrefix(record: Option<Contents>, steps: seq<Step>, n: nat, from: nat, end: nat)
    requires end <= n <= |steps|
    ensures LastPlain(record, steps[..n], from, end) == LastPlain(record, steps, from, end)
    decreases end
  {
    if end > from + 1 {
      hide PlainRename, Run;
      assert steps[..n][..end - 1] == steps[..end - 1] && steps[..n][end - 1] == steps[end - 1];
      LastPlainOfPrefix(record, steps, n, from, end - 1);
    }
  }

  /** While one user holds the lock, only plain renames change the record. */
  lemma StepUnderLock(s: State, step: Step, p: Pid)
    requires Shape(s) && LockDiscipline(s) && Holds(PcOf(s, p)) && Holds(PcOf(Next(s, step), p))
    ensures PcOf(Next(s, step), p).seen == PcOf(s, p).seen
    ensures Current(Next(s, step)) == if PlainRename(s, step) then Some(PcOf(s, step.pid).contents) else Current(s)
  {
  }

  lemma StepDecides(s: State, step: Step, p: Pid)
    requires !Holds(PcOf(s, p)) && Holds(PcOf(Next(s, step), p))
    ensures step.Decide? && step.pid == p && PcOf(Next(s, step), p).seen == Current(s) && Current(Next(s, step)) == Current(s)
  {
  }

  /** The record a lock holder faces is what it saw, or what a plain rename has put there since. */
  lemma {:induction false} HolderFaces(record: Option<Contents>, steps: seq<Step>, p: Pid) returns (d: nat)
    requires Holds(PcOf(Run(record, steps), p))
    ensures d < |steps| && steps[d].Decide? && steps[d].pid == p
    ensures var pc := PcOf(Run(record, steps), p);
            && Current(Run(record, steps[..d])) == pc.seen
            && Current(Run(record, steps)) == Overwritten(pc.seen, LastPlain(record, steps, d, |steps|))
    decreases |steps|
  {
    hide Next, PlainRename, Shape, Holds;
    if |steps| > 0 {
      var before, step := steps[..|steps| - 1], steps[|steps| - 1];
      var s := Run(record, before);
      InvariantHolds(record, before);
      if Holds(PcOf(s, p)) {
        d := HolderFaces(record, before, p);
        StepUnderLock(s, step, p);
        LastPlainOfPrefix(record, steps, |before|, d, |before|);
        assert steps[..d] == before[..d] && steps[d] == before[d];
      } else {
        d := |before|;
        StepDecides(s, step, p);
      }
    } else {
      NobodyHolds(record, p);
    }
  }

  lemma NobodyHolds(record: Option<Contents>, p: Pid)
    ensures !Holds(PcOf(Initial(record), p))
  {
  }

  /** A step that logs an operation is its lock holder's rename or unlink. */
  lemma StepLogs(s: State, step: Step)
    ensures var t := Next(s, step);
            || t.acts == s.acts
            || (&& (step.Rename? || step.Remove?) && Holds(PcOf(s, step.pid))
                && t.acts == s.acts + [Act(PcOf(s, step.pid).op, PcOf(s, step.pid).seen, Current(s))])
  {
  }

  /** An operation decided at step `d` and took effect at step `e`, as the `k`-th of the log. */
  ghost predicate Happened(record: Option<Contents>, steps: seq<Step>, k: nat, d: nat, e: nat)
    requires k < |Run(record, steps).acts|
  {
    var a := Run(record, steps).acts[k];
    && d < e < |steps| && steps[d].Decide? && (steps[e].Rename? || steps[e].Remove?) && steps[e].pid == steps[d].pid
    && |Run(record, steps[..e]).acts| == k
    && Current(Run(record, steps[..d])) == a.seen && Current(Run(record, steps[..e])) == a.before
  }

  /** Over every run, plain publications included: a logged operation acted on the very record it
      had checked if and only if no plain rename between its decision and its effect left another. */
  lemma {:induction false} ActsOnWhatItCheckedExactly(record: Option<Contents>, steps: seq<Step>, k: nat) returns (d: nat, e: nat)
    requires k < |Run(record, steps).acts|
    ensures Happened(record, steps, k, d, e)
    ensures var a, plain := Run(record, steps).acts[k], LastPlain(record, steps, d, e);
            Wants(a.op, a.seen) && (a.before == a.seen <==> plain.None? || plain == a.seen)
    decreases |steps|
  {
    hide Next, PlainRename, Shape, Holds;
    InvariantHolds(record, steps);
    var before, step := steps[..|steps| - 1], steps[|steps| - 1];
    var s := Run(record, before);
    StepLogs(s, step);
    if k < |s.acts| {
      d, e := ActsOnWhatItCheckedExactly(record, before, k);
      assert steps[..d] == before[..d] && steps[d] == before[d] && steps[..e] == before[..e] && steps[e] == before[e];
    } else {
      d := HolderFaces(record, before, step.pid);
      e := |before|;
      assert steps[..d] == before[..d] && steps[d] == before[d] && steps[..e] == before;
    }
    LastPlainOfPrefix(record, steps, |before|, d, e);
  }

  /** So an old owner's cleanup takes away a record that is not its own exactly when a plain
      publication replaced its own after the comparison. */
  lemma {:induction false} CleanupRemovesItsOwnExactly(record: Option<Contents>, steps: seq<Step>, k: nat) returns (d: nat, e: nat)
    requires k < |Run(record, steps).acts| && Run(record, steps).acts[k].op.RemoveIfMatches?
    ensures Happened(record, steps, k, d, e)
    ensures var a, plain := Run(record, steps).acts[k], LastPlain(record, steps, d, e);
            a.before == Some(a.op.contents) <==> plain.None? || plain == Some(a.op.contents)
  {
    d, e := ActsOnWhatItCheckedExactly(record, steps, k);
  }

  lemma StepStaysLocked(s: State, step: Step, p: Pid)
    requires !step.StartUnlocked? && PcOf(Next(s, step), p).Writing? && !PcOf(Next(s, step), p).locked
    ensures PcOf(s, p).Writing? && !PcOf(s, p).locked
  {
  }

  lemma {:induction false} SlotWritersHoldTheLock(record: Option<Contents>, steps: seq<Step>, p: Pid)
    requires SlotOnly(steps)
    ensures PcOf(Run(record, steps), p).Writing? ==> PcOf(Run(record, steps), p).locked
    decreases |steps|
  {
    hide Next;
    if |steps| > 0 {
      var before := steps[..|steps| - 1];
      SlotWritersHoldTheLock(record, before, p);
      if PcOf(Run(record, steps), p).Writing? && !PcOf(Run(record, steps), p).locked {
        StepStaysLocked(Run(record, before), steps[|steps| - 1], p);
      }
    }
  }

  lemma {:induction false} SlotOnlyHasNoPlain(record: Option<Contents>, steps: seq<Step>, from: nat, end: nat)
    requires SlotOnly(steps) && end <= |steps|
    ensures LastPlain(record, steps, from, end) == None
    decreases end
  {
    if end > from + 1 {
      hide Run;
      SlotOnlyHasNoPlain(record, steps, from, end - 1);
      if steps[end - 1].Rename? {
        SlotWritersHoldTheLock(record, steps[..end - 1], steps[end - 1].pid);
      }
    }
  }

  /** When everybody goes through the slot, a cleanup never takes a successor's record away. */
  lemma {:induction false} CleanupRemovesOnlyItsOwn(record: Option<Contents>, steps: seq<Step>, k: nat)
    requires SlotOnly(steps) && k < |Run(record, steps).acts|
    ensures var a := Run(record, steps).acts[k];
            a.before == a.seen && (a.op.RemoveIfMatches? ==> a.before == Some(a.op.contents))
  {
    var d, e := ActsOnWhatItCheckedExactly(record, steps, k);
    SlotOnlyHasNoPlain(record, steps, d, e);
  }

  predicate WritesItsOp(pcs: map<Pid, Pc>) {
    forall p :: p in pcs && pcs[p].Writing? && pcs[p].locked ==> !Removes(pcs[p].op) && pcs[p].op.contents == pcs[p].contents
  }

  lemma StepKeepsWriting(s: State, step: Step)
    requires WritesItsOp(s.pcs)
    ensures WritesItsOp(Next(s, step).pcs)
  {
  }

  /** One step of a slot-only run extends the log exactly when it changes the record. */
  lemma StepExtendsLog(s: State, step: Step)
    requires Shape(s) && WritesItsOp(s.pcs) && !PlainRename(s, step)
    ensures var t := Next(s, step);
            if t.acts == s.acts then Current(t) == Current(s)
            else |t.acts| == |s.acts| + 1 && Current(t) == After(t.acts[|s.acts|].op)
  {
  }

  lemma ExtendSerial(record: Option<Contents>, acts: seq<Act>, a: Act)
    requires Serial(record, acts) && a.before == Replay(record, acts) && Wants(a.op, a.before)
    ensures Serial(record, acts + [a])
  {
    var all := acts + [a];
    forall k | 0 <= k < |all|
      ensures all[k].before == Replay(record, all[..k]) && Wants(all[k].op, all[k].before)
    {
      assert all[..k] == acts[..k];
      if k == |acts| {
        assert acts[..k] == acts;
      }
    }
  }

  /** Slot operations are serializable: when everybody goes through the slot, the record is the
      result of doing the logged operations one at a time, each deciding on the very record it
      then replaced or removed. */
  lemma {:induction false} SlotIsSerializable(record: Option<Contents>, steps: seq<Step>)
    requires SlotOnly(steps)
    ensures var s := Run(record, steps);
            WritesItsOp(s.pcs) && Serial(record, s.acts) && Current(s) == Replay(record, s.acts)
    decreases |steps|
  {
    hide Next, Shape, Serial, PlainRename, Holds;
    if |steps| > 0 {
      var before, step := steps[..|steps| - 1], steps[|steps| - 1];
      var s, t := Run(record, before), Run(record, steps);
      SlotIsSerializable(record, before);
      InvariantHolds(record, before);
      InvariantHolds(record, steps);
      StepKeepsWriting(s, step);
      SlotOnlyIsPlainFree(record, before, step);
      StepExtendsLog(s, step);
      StepLogs(s, step);
      if t.acts != s.acts {
        CleanupRemovesOnlyItsOwn(record, steps, |s.acts|);
        ExtendSerial(record, s.acts, t.acts[|s.acts|]);
      }
    } else {
      NothingLogged(record);
    }
  }

  lemma SlotOnlyIsPlainFree(record: Option<Contents>, steps: seq<Step>, step: Step)
    requires SlotOnly(steps)
    ensures !PlainRename(Run(record, steps), step)
  {
    hide Run;
    if step.Rename? {
      SlotWritersHoldTheLock(record, steps, step.pid);
    }
  }

  lemma NothingLogged(record: Option<Contents>)
    ensures var s := Initial(record); WritesItsOp(s.pcs) && Serial(record, s.acts) && Current(s) == Replay(record, s.acts)
  {
  }

  lemma Then(record: Option<Contents>, steps: seq<Step>, s: State, step: Step, t: State) returns (more: seq<Step>)
    requires Run(record, steps) == s && Next(s, step) == t
    ensures Run(record, more) == t
  {
    hide Next;
    more := steps + [step];
    assert more[..|steps|] == steps;
  }

  lemma NothingYet(record: Option<Contents>)
    ensures Run(record, []) == Initial(record)
  {
  }

  lemma ComparesThenPauses(mine: Contents) returns (steps: seq<Step>, s: State)
    ensures Run(Some(mine), steps) == s
    ensures s == Initial(Some(mine)).(lock := Some(1), pcs := map[1 := Decided(RemoveIfMatches(mine), Some(mine))])
  {
    NothingYet(Some(mine));
    hide Run;
    var op, s0 := RemoveIfMatches(mine), Initial(Some(mine));
    var s1 := s0.(pcs := map[1 := Waiting(op)]);
    var s2 := s1.(lock := Some(1), pcs := map[1 := Deciding(op)]);
    s := s2.(pcs := map[1 := Decided(op, Some(mine))]);
    steps := Then(Some(mine), [], s0, Start(1, op), s1);
    steps := Then(Some(mine), steps, s1, Lock(1), s2);
    steps := Then(Some(mine), steps, s2, Decide(1), s);
  }

  lemma PublishesMeanwhile(mine: Contents, theirs: Contents) returns (steps: seq<Step>, s: State)
    ensures Run(Some(mine), steps) == s && Current(s) == Some(theirs)
    ensures PcOf(s, 1) == Decided(RemoveIfMatches(mine), Some(mine)) && s.acts == []
  {
    hide Run;
    var s3;
    steps, s3 := ComparesThenPauses(mine);
    var s4 := Created(s3, 2, theirs, Replace(theirs), None, false);
    var s5 := Appended(s4, 2, |theirs|);
    assert Longer([], theirs, |theirs|) == theirs;
    s := Renamed(s5, 2);
    steps := Then(Some(mine), steps, s3, StartUnlocked(2, theirs), s4);
    steps := Then(Some(mine), steps, s4, Append(2, |theirs|), s5);
    steps := Then(Some(mine), steps, s5, Rename(2), s);
  }

  /** The slot has to be used by everybody: a plain `publish_record` between the comparison and
      the unlink is removed by a cleanup that never compared it. */
  lemma PlainPublicationCanBeRemoved(mine: Contents, theirs: Contents) returns (steps: seq<Step>)
    requires mine != theirs
    ensures var s := Run(Some(mine), steps);
            Current(s) == None && |s.acts| == 1 && s.acts[0].op == RemoveIfMatches(mine) && s.acts[0].before == Some(theirs)
  {
    hide Run;
    var s;
    steps, s := PublishesMeanwhile(mine, theirs);
    steps := Then(Some(mine), steps, s, Remove(1), Unlinked(s, 1));
  }

  // ---------------------------------------------------------------- one call alone

  /** The steps of one operation that nobody disturbs. */
  function Alone(p: Pid, op: Op, record: Option<Contents>): seq<Step> {
    [Start(p, op), Lock(p), Decide(p)]
    + if !Wants(op, record) then []
      else if Removes(op) then [Remove(p)]
      else [CreateTemporary(p), Append(p, |op.contents|), Rename(p)]
  }

  lemma {:induction false} RunAppends(record: Option<Contents>, steps: seq<Step>, step: Step)
    ensures Run(record, steps + [step]) == Next(Run(record, steps), step)
  {
    hide Next;
    assert (steps + [step])[..|steps|] == steps;
  }

  lemma RunOfThree(record: Option<Contents>, steps: seq<Step>, a: Step, b: Step, c: Step)
    ensures Run(record, steps + [a, b, c]) == Next(Next(Next(Run(record, steps), a), b), c)
  {
    hide Next;
    RunAppends(record, steps, a);
    RunAppends(record, steps + [a], b);
    RunAppends(record, steps + [a] + [b], c);
    hide Run;
    assert steps + [a] + [b] + [c] == steps + [a, b, c];
  }

  lemma DecidesAlone(s: State, p: Pid, op: Op)
    requires PcOf(s, p).Idle? && s.lock.None?
    ensures var t := Next(Next(Next(s, Start(p, op)), Lock(p)), Decide(p));
            && t.path == s.path && t.files == s.files && t.next == s.next && t.acts == s.acts
            && PcOf(t, p) == (if Wants(op, Current(s)) then Decided(op, Current(s)) else Idle)
            && t.lock == if Wants(op, Current(s)) then Some(p) else None
  {
    hide NextReader;
    var s1 := Goes(s, p, Waiting(op));
    assert Next(s, Start(p, op)) == s1;
    var s2 := Goes(s1, p, Deciding(op)).(lock := Some(p));
    assert Next(s1, Lock(p)) == s2;
    assert Current(s2) == Current(s);
  }

  lemma PublishesAlone(s: State, p: Pid, op: Op, seen: Option<Contents>)
    requires PcOf(s, p) == Decided(op, seen) && !Removes(op) && s.lock == Some(p)
    ensures var t := Next(Next(Next(s, CreateTemporary(p)), Append(p, |op.contents|)), Rename(p));
            Current(t) == Some(op.contents) && t.lock.None? && PcOf(t, p).Idle?
  {
    var s1 := Created(s, p, op.contents, op, seen, true);
    assert Next(s, CreateTemporary(p)) == s1;
    var s2 := Appended(s1, p, |op.contents|);
    assert Next(s1, Append(p, |op.contents|)) == s2;
    assert Longer([], op.contents, |op.contents|) == op.contents;
    assert Next(s2, Rename(p)) == Renamed(s2, p);
  }

  lemma RemovesAlone(s: State, p: Pid, op: Op, seen: Option<Contents>)
    requires PcOf(s, p) == Decided(op, seen) && Removes(op) && s.lock == Some(p)
    ensures var t := Next(s, Remove(p)); Current(t).None? && t.lock.None? && PcOf(t, p).Idle?
  {
  }

  /** Nobody is shut out and nothing is half done: in every state any run reaches with the lock free,
      an operation left alone leaves what it is asked for where it wants to act, and otherwise the
      record as it was; and it lets go of the lock. */
  lemma {:induction false} AloneDoesWhatItIsAsked(record: Option<Contents>, steps: seq<Step>, p: Pid, op: Op)
    requires PcOf(Run(record, steps), p).Idle? && Run(record, steps).lock.None?
    ensures var found := Current(Run(record, steps));
            var t := Run(record, steps + Alone(p, op, found));
            Current(t) == (if Wants(op, found) then After(op) else found) && t.lock.None? && PcOf(t, p).Idle?
  {
    var s := Run(record, steps);
    var found := Current(s);
    DecidesAlone(s, p, op);
    var first := steps + [Start(p, op), Lock(p), Decide(p)];
    RunOfThree(record, steps, Start(p, op), Lock(p), Decide(p));
    var t := Run(record, first);
    if !Wants(op, found) {
      assert steps + Alone(p, op, found) == first;
    } else if Removes(op) {
      RunAppends(record, first, Remove(p));
      assert steps + Alone(p, op, found) == first + [Remove(p)];
      RemovesAlone(t, p, op, found);
    } else {
      RunOfThree(record, first, CreateTemporary(p), Append(p, |op.contents|), Rename(p));
      assert steps + Alone(p, op, found) == first + [CreateTemporary(p), Append(p, |op.contents|), Rename(p)];
      PublishesAlone(t, p, op, found);
    }
    hide Run, Next;
  }

  predicate LockAtWork(s: State) {
    s.lock.Some? ==> HoldsLock(PcOf(s, s.lock.value))
  }

  lemma StepKeepsAtWork(s: State, step: Step)
    requires LockAtWork(s) && LockDiscipline(s)
    ensures LockAtWork(Next(s, step))
  {
  }

  /** The slot lock is never left behind: whoever holds it is in the middle of an operation. */
  lemma {:induction false} LockIsNeverLeftBehind(record: Option<Contents>, steps: seq<Step>)
    ensures var s := Run(record, steps); s.lock.Some? ==> HoldsLock(PcOf(s, s.lock.value))
    decreases |steps|
  {
    if steps != [] {
      LockIsNeverLeftBehind(record, steps[..|steps| - 1]);
      InvariantHolds(record, steps[..|steps| - 1]);
      StepKeepsAtWork(Run(record, steps[..|steps| - 1]), steps[|steps| - 1]);
      hide Next;
    }
  }

  predicate WithinLimit(s: State) {
    forall r :: r in s.readers && s.readers[r].Reading? ==> |s.readers[r].got| <= s.readers[r].limit + 1
  }

  lemma StepKeepsWithinLimit(s: State, step: Step)
    requires WithinLimit(s)
    ensures WithinLimit(Next(s, step))
  {
    hide NextUser;
    if !(step.Open? || step.ReadSome? || step.Finish?) {
      UsersLeaveReaders(s, step);
    }
  }

  lemma UsersLeaveReaders(s: State, step: Step)
    requires !step.Open? && !step.ReadSome? && !step.Finish?
    ensures NextUser(s, step).readers == s.readers
  {
  }

  lemma {:induction false} ReadersStayWithinLimit(record: Option<Contents>, steps: seq<Step>)
    ensures WithinLimit(Run(record, steps))
    decreases |steps|
  {
    if |steps| > 0 {
      ReadersStayWithinLimit(record, steps[..|steps| - 1]);
      StepKeepsWithinLimit(Run(record, steps[..|steps| - 1]), steps[|steps| - 1]);
      hide Next, WithinLimit;
    }
  }

  /** However large a record is, a read takes in no more than one byte past its limit. */
  lemma ReadsAreBounded(record: Option<Contents>, steps: seq<Step>, r: nat)
    requires r in Run(record, steps).readers && Run(record, steps).readers[r].Reading?
    ensures var h := Run(record, steps).readers[r]; |h.got| <= h.limit + 1
  {
    ReadersStayWithinLimit(record, steps);
    hide Run;
  }

  lemma ReadsOn(s: State, r: nat, limit: nat, inode: Inode)
    requires inode in s.files && r in s.readers && s.readers[r] == Reading(limit, inode, [], s.files[inode])
    ensures var held, t := s.files[inode], Next(Next(s, ReadSome(r, limit + 1)), Finish(r));
            r in t.readers && t.readers[r] == Finished(limit, AnswerFor(Some(held), limit), Some(held))
  {
    hide NextUser, AnswerFor;
    var held := s.files[inode];
    var h := Reading(limit, inode, [], held);
    ReadingStaysAPrefix(h, held, limit + 1);
    var h2 := MoreRead(h, held, limit + 1);
    assert |h2.got| == if |held| <= limit + 1 then |held| else limit + 1;
    ReadAllIsTheAnswer(h2);
    assert Next(s, ReadSome(r, limit + 1)) == s.(readers := s.readers[r := h2]);
  }

  /** A fresh read finishes, left alone, with the answer for the record in place. */
  lemma {:induction false} ReadsAlone(record: Option<Contents>, steps: seq<Step>, r: nat, limit: nat)
    requires r !in Run(record, steps).readers
    ensures var found := Current(Run(record, steps));
            var t := Run(record, steps + [Open(r, limit), ReadSome(r, limit + 1), Finish(r)]);
            r in t.readers && t.readers[r] == Finished(limit, AnswerFor(found, limit), found)
  {
    RunOfThree(record, steps, Open(r, limit), ReadSome(r, limit + 1), Finish(r));
    hide Run, NextUser, MoreRead, ReadAll;
    var s := Run(record, steps);
    MissingIsAnswered(limit);
    if Current(s).Some? {
      var open_ := s.(readers := s.readers[r := Reading(limit, s.path.value, [], Current(s).value)]);
      assert Next(s, Open(r, limit)) == open_;
      ReadsOn(open_, r, limit, s.path.value);
    }
  }

  lemma InitialCurrent(record: Option<Contents>)
    ensures Run(record, []) == Initial(record) && Current(Initial(record)) == record
    ensures PcOf(Initial(record), 1).Idle? && Initial(record).lock.None?
  {
  }

  /** The object and the protocol agree: an undisturbed call on the directory leaves the record the
      protocol's steps leave. */
  method Perform(d: Directory, pid: nat, op: Op, limit: nat)
    requires d.Current().Some? ==> |d.Current().value| <= limit
    modifies d
    ensures d.Current() == Current(Run(old(d.Current()), Alone(1, op, old(d.Current()))))
  {
    InitialCurrent(d.Current());
    hide Run;
    AloneDoesWhatItIsAsked(d.Current(), [], 1, op);
    assert [] + Alone(1, op, d.Current()) == Alone(1, op, d.Current());
    match op
    case Replace(c) => var _ := d.Publish(pid, c, NoFault);
    case Repair(c) => var _ := d.Repair(pid, c, NoFault);
    case ReplaceIf(c, accept) => var _ := d.ReplaceIf(pid, c, accept, limit, NoFault);
    case RemoveIfMatches(c) => var _ := d.RemoveIfMatches(c);
    case RemoveIf(wanted) => var _ := d.RemoveIf(wanted, limit);
  }
}
