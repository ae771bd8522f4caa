/** Endpoint election on a Unix socket path (src/local/unix_socket.rs): any number of processes
    acquire the path, guard it and crash. The bind lock is exclusive and dies with its holder,
    inode numbers are fresh, and a refused connection means that nobody listens. */
module Endpoint {
  import opened Options

  type Pid = nat
  type Inode = nat

  /** What a name refers to: a socket, or some file that is none. */
  datatype Node = Socket(inode: Inode) | Other

  // ---------------------------------------------------------------- one call at a time

  datatype Bound = Won(inode: Inode) | AlreadyRunning | BindFailed

  class Host {
    var path: Option<Node>
    var lock: Option<Pid>
    var listeners: map<Inode, Pid>
    var next: Inode

    ghost predicate Valid()
      reads this
    {
      (forall i :: i in listeners ==> i < next) && (path.Some? && path.value.Socket? ==> path.value.inode < next)
    }

    constructor ()
      ensures Valid() && path == None && lock == None && listeners == map[] && next == 0
    {
      path, lock, listeners, next := None, None, map[], 0;
    }

    /** `bind` and `listen` on the path. */
    method BindPrivate(pid: Pid) returns (r: Option<Inode>)
      requires Valid()
      modifies this
      ensures Valid() && lock == old(lock)
      ensures r.Some? <==> old(path).None?
      ensures r.Some? ==> r.value == old(next) && path == Some(Socket(r.value))
                          && listeners == old(listeners)[r.value := pid] && next == old(next) + 1
      ensures r.None? ==> path == old(path) && listeners == old(listeners) && next == old(next)
    {
      if path.Some? {
        return None;
      }
      path := Some(Socket(next));
      listeners := listeners[next := pid];
      r := Some(next);
      next := next + 1;
    }

    /** An undisturbed `acquire`: a taken lock or a live listener sends it away, a file that is
        no socket is left alone, and only a free path or a dead socket is taken over. */
    method Acquire(pid: Pid) returns (r: Bound)
      requires Valid()
      modifies this
      ensures Valid() && lock == old(lock)
      ensures r.AlreadyRunning? <==>
                old(lock).Some? || (old(path).Some? && old(path).value.Socket? && old(path).value.inode in old(listeners))
      ensures r.Won? <==>
                old(lock).None? && (old(path).None? || (old(path).value.Socket? && old(path).value.inode !in old(listeners)))
      ensures r.Won? ==> path == Some(Socket(r.inode)) && listeners == old(listeners)[r.inode := pid] && r.inode !in old(listeners)
      ensures !r.Won? ==> path == old(path) && listeners == old(listeners)
    {
      if lock.Some? {
        return AlreadyRunning;
      }
      lock := Some(pid);
      var bound := BindPrivate(pid);
      if bound.Some? {
        lock := None;
        return Won(bound.value);
      }
      if !path.value.Socket? {
        lock := None;
        return BindFailed;
      }
      if path.value.inode in listeners {
        lock := None;
        return AlreadyRunning;
      }
      path := None;
      bound := BindPrivate(pid);
      lock := None;
      r := Won(bound.value);
    }

    /** Dropping a guard: only the inode it observed goes, and only under the lock. */
    method DropGuard(pid: Pid, inode: Inode)
      requires Valid()
      modifies this
      ensures Valid() && lock == old(lock) && listeners == old(listeners) && next == old(next)
      ensures path == if old(lock).None? && old(path) == Some(Socket(inode)) then None else old(path)
    {
      if lock.Some? {
        return;
      }
      lock := Some(pid);
      if path == Some(Socket(inode)) {
        path := None;
      }
      lock := None;
    }
  }

  // ---------------------------------------------------------------- any interleaving

  /** One caller's progress. In `Binding` to `Refused` and in `DropLocked`, `DropMatched` it holds
      the lock. `Winner` owns the inode it bound; a guard may be captured by anybody, and `own` is
      the inode its holder bound, if it won. */
  datatype Pc =
    | Idle
    | Binding(attempt: nat)
    | Created(inode: Inode)
    | Listening(inode: Inode)
    | InUse
    | SawSocket
    | Refused
    | Winner(inode: Inode)
    | Guarded(own: Option<Inode>, observed: Inode)
    | DropLocked(own: Option<Inode>, observed: Inode)
    | DropMatched(own: Option<Inode>, observed: Inode)
    | Unguarded(own: Option<Inode>)
    | Done

  /** A name removed from the directory: by whom, whether by a guard, and what it was. */
  datatype Removal = Removal(by_: Pid, guard: bool, node: Node, live: bool, creator: Option<Pid>)

  /** `creators` remembers who bound each inode; `foreign` whether some guard captured a socket that
      its holder had not created. */
  datatype State = State(
    path: Option<Node>, lock: Option<Pid>, listeners: map<Inode, Pid>, creators: map<Inode, Pid>,
    next: Inode, pcs: map<Pid, Pc>, removals: seq<Removal>, foreign: bool)

  datatype Step =
    | TryLock(pid: Pid)
    | Bind(pid: Pid)
    | Listen(pid: Pid)
    | ReturnWon(pid: Pid)
    | Stat(pid: Pid)
    | ProbeRefused(pid: Pid)
    | Unlink(pid: Pid)
    | GiveUp(pid: Pid)
    | Capture(pid: Pid)
    | DropTryLock(pid: Pid)
    | DropStat(pid: Pid)
    | DropUnlink(pid: Pid)
    | StopListening(pid: Pid)
    | Crash(pid: Pid)

  function Initial(path: Option<Node>): State {
    State(path, None, map[], map[], if path.Some? && path.value.Socket? then path.value.inode + 1 else 0, map[], [], false)
  }

  function PcOf(s: State, p: Pid): Pc {
    if p in s.pcs then s.pcs[p] else Idle
  }

  predicate HoldsLock(pc: Pc) {
    pc.Binding? || pc.Created? || pc.Listening? || pc.InUse? || pc.SawSocket? || pc.Refused? || pc.DropLocked? || pc.DropMatched?
  }

  function Goes(s: State, p: Pid, pc: Pc): State {
    s.(pcs := s.pcs[p := pc])
  }

  function Closed(listeners: map<Inode, Pid>, p: Pid): map<Inode, Pid> {
    map i | i in listeners && listeners[i] != p :: listeners[i]
  }

  /** Removing the name, whatever it refers to at that moment. */
  function Removed(s: State, p: Pid, guard: bool): State {
    if s.path.None? then s
    else
      var node := s.path.value;
      var live := node.Socket? && node.inode in s.listeners;
      var creator := if node.Socket? && node.inode in s.creators then Some(s.creators[node.inode]) else None;
      s.(path := None, removals := s.removals + [Removal(p, guard, node, live, creator)])
  }

  function OwnInode(pc: Pc): Option<Inode> {
    match pc
    case Created(i) => Some(i)
    case Listening(i) => Some(i)
    case Winner(i) => Some(i)
    case Guarded(own, _) => own
    case DropLocked(own, _) => own
    case DropMatched(own, _) => own
    case Unguarded(own) => own
    case _ => None
  }

  predicate MadeBy(s: State, p: Pid, i: Inode) {
    i in s.creators && s.creators[i] == p
  }

  predicate MayCapture(pc: Pc) {
    pc.Idle? || pc.Done? || pc.Winner?
  }

  function Binds(s: State, p: Pid, attempt: nat): State {
    if s.path.None? then
      s.(pcs := s.pcs[p := Created(s.next)], path := Some(Socket(s.next)), creators := s.creators[s.next := p],
         next := s.next + 1)
    else if attempt == 1 then Goes(s, p, InUse)
    else Left(s, p)
  }

  /** A call that ends, letting go of the lock. */
  function Left(s: State, p: Pid): State {
    s.(pcs := s.pcs[p := Done], lock := None)
  }

  /** A step of `acquire`. */
  function Acquiring(s: State, step: Step): State {
    var p := step.pid;
    var pc := PcOf(s, p);
    match step
    case TryLock(_) =>
      if !pc.Idle? then s else if s.lock.Some? then Goes(s, p, Done) else s.(pcs := s.pcs[p := Binding(1)], lock := Some(p))
    case Bind(_) => if pc.Binding? then Binds(s, p, pc.attempt) else s
    case Listen(_) =>
      if pc.Created? then s.(pcs := s.pcs[p := Listening(pc.inode)], listeners := s.listeners[pc.inode := p]) else s
    case ReturnWon(_) => if pc.Listening? then s.(pcs := s.pcs[p := Winner(pc.inode)], lock := None) else s
    case Stat(_) =>
      if !pc.InUse? then s
      else if s.path.Some? && s.path.value.Socket? then Goes(s, p, SawSocket)
      else Left(s, p)
    case ProbeRefused(_) =>
      if pc.SawSocket? && s.path.Some? && s.path.value.Socket? && s.path.value.inode !in s.listeners
      then Goes(s, p, Refused) else s
    case Unlink(_) => if pc.Refused? then Goes(Removed(s, p, false), p, Binding(2)) else s
    case GiveUp(_) =>
      if HoldsLock(pc) && !pc.DropLocked? && !pc.DropMatched?
      then s.(pcs := s.pcs[p := Done], lock := None, listeners := Closed(s.listeners, p)) else s
    case _ => s
  }

  /** A step of a guard, or the end of a listener or of its process. */
  function Guarding(s: State, step: Step): State {
    var p := step.pid;
    var pc := PcOf(s, p);
    match step
    case Capture(_) =>
      if MayCapture(pc) && s.path.Some? && s.path.value.Socket? then
        var i := s.path.value.inode;
        s.(pcs := s.pcs[p := Guarded(OwnInode(pc), i)], foreign := s.foreign || !MadeBy(s, p, i))
      else s
    case DropTryLock(_) =>
      if !pc.Guarded? then s
      else if s.lock.Some? then Goes(s, p, Unguarded(pc.own))
      else s.(pcs := s.pcs[p := DropLocked(pc.own, pc.observed)], lock := Some(p))
    case DropStat(_) =>
      if !pc.DropLocked? then s
      else if s.path == Some(Socket(pc.observed)) then Goes(s, p, DropMatched(pc.own, pc.observed))
      else s.(pcs := s.pcs[p := Unguarded(pc.own)], lock := None)
    case DropUnlink(_) =>
      if pc.DropMatched? then Goes(Removed(s, p, true), p, Unguarded(pc.own)).(lock := None) else s
    case StopListening(_) =>
      if pc.Winner? || pc.Guarded? || pc.Unguarded? then s.(listeners := Closed(s.listeners, p)) else s
    case Crash(_) =>
      s.(pcs := s.pcs[p := Done], lock := if s.lock == Some(p) then None else s.lock, listeners := Closed(s.listeners, p))
    case _ => s
  }

  predicate IsGuarding(step: Step) {
    step.Capture? || step.DropTryLock? || step.DropStat? || step.DropUnlink? || step.StopListening? || step.Crash?
  }

  function Next(s: State, step: Step): State {
    if IsGuarding(step) then Guarding(s, step) else Acquiring(s, step)
  }

  function Run(path: Option<Node>, steps: seq<Step>): State {
    if steps == [] then Initial(path) else Next(Run(path, steps[..|steps| - 1]), steps[|steps| - 1])
  }

  // ---------------------------------------------------------------- invariants

  predicate LockDiscipline(s: State) {
    forall p :: p in s.pcs && HoldsLock(s.pcs[p]) ==> s.lock == Some(p)
  }

  predicate InodesBelow(s: State) {
    && (forall i :: i in s.creators ==> i < s.next)
    && (s.path.Some? && s.path.value.Socket? ==> s.path.value.inode < s.next)
  }

  predicate OwnersKnown(s: State) {
    Known(s.creators, s.pcs)
  }

  predicate Known(creators: map<Inode, Pid>, pcs: map<Pid, Pc>) {
    forall p :: p in pcs && OwnInode(pcs[p]).Some? ==>
      OwnInode(pcs[p]).value in creators && creators[OwnInode(pcs[p]).value] == p
  }

  predicate ListenersOwned(s: State) {
    Owned(s.listeners, s.pcs)
  }

  predicate Owned(listeners: map<Inode, Pid>, pcs: map<Pid, Pc>) {
    forall i :: i in listeners ==> listeners[i] in pcs && OwnInode(pcs[listeners[i]]) == Some(i)
  }

  predicate BinderAtPath(s: State) {
    forall p :: p in s.pcs && (s.pcs[p].Created? || s.pcs[p].Listening?) ==> s.path == Some(Socket(s.pcs[p].inode))
  }

  /** A call that owns the name: its listener lives. */
  predicate Serves(s: State, pc: Pc) {
    && (pc.Winner? || pc.Guarded? || pc.DropLocked? || pc.DropMatched?)
    && OwnInode(pc).Some? && OwnInode(pc).value in s.listeners
  }

  /** A guard removed this socket for somebody who had not made it. */
  predicate Lost(s: State, i: Inode) {
    exists k :: 0 <= k < |s.removals| && Steals(s.removals[k], i)
  }

  predicate Steals(r: Removal, i: Inode) {
    r.node == Socket(i) && r.guard && r.creator != Some(r.by_)
  }

  predicate ClaimantAtPath(s: State) {
    forall p :: p in s.pcs && Serves(s, s.pcs[p]) ==> Kept(s, OwnInode(s.pcs[p]).value)
  }

  predicate Kept(s: State, i: Inode) {
    s.path == Some(Socket(i)) || Lost(s, i)
  }

  /** What is at the path was never removed. */
  predicate RemovedIsGone(s: State) {
    && (forall k :: 0 <= k < |s.removals| && s.removals[k].node.Socket? ==> s.removals[k].node.inode < s.next)
    && (s.path.Some? && s.path.value.Socket? ==> forall k :: 0 <= k < |s.removals| ==> s.removals[k].node != s.path.value)
  }

  predicate RefusedIsDead(s: State) {
    forall p :: p in s.pcs && s.pcs[p].Refused? ==>
      s.path.Some? && s.path.value.Socket? && s.path.value.inode !in s.listeners
  }

  predicate GuardsOwn(s: State) {
    !s.foreign ==> forall p :: p in s.pcs && (s.pcs[p].Guarded? || s.pcs[p].DropLocked? || s.pcs[p].DropMatched?) ==>
      MadeBy(s, p, s.pcs[p].observed)
  }

  predicate MatchedAtPath(s: State) {
    forall p :: p in s.pcs && s.pcs[p].DropMatched? ==> s.path == Some(Socket(s.pcs[p].observed))
  }

  predicate OnlyHarmless(s: State) {
    && (forall k :: 0 <= k < |s.removals| ==> s.removals[k].node.Socket?)
    && (forall k :: 0 <= k < |s.removals| && !s.removals[k].guard ==> !s.removals[k].live)
    && (!s.foreign ==> forall k :: 0 <= k < |s.removals| && s.removals[k].guard ==> s.removals[k].creator == Some(s.removals[k].by_))
  }

  predicate Invariant(s: State) {
    && LockDiscipline(s) && InodesBelow(s) && OwnersKnown(s) && ListenersOwned(s)
    && BinderAtPath(s) && ClaimantAtPath(s) && RemovedIsGone(s) && RefusedIsDead(s) && GuardsOwn(s) && MatchedAtPath(s) && OnlyHarmless(s)
  }

  lemma AcquiringKeepsLock(s: State, step: Step)
    requires LockDiscipline(s) && !IsGuarding(step)
    ensures LockDiscipline(Acquiring(s, step))
  {
  }

  lemma GuardingKeepsLock(s: State, step: Step)
    requires LockDiscipline(s) && IsGuarding(step)
    ensures LockDiscipline(Guarding(s, step))
  {
  }

  lemma StepKeepsLock(s: State, step: Step)
    requires LockDiscipline(s)
    ensures LockDiscipline(Next(s, step))
  {
    hide LockDiscipline, Acquiring, Guarding;
    if IsGuarding(step) {
      GuardingKeepsLock(s, step);
    } else {
      AcquiringKeepsLock(s, step);
    }
  }

  lemma StepKeepsInodesBelow(s: State, step: Step)
    requires InodesBelow(s)
    ensures InodesBelow(Next(s, step))
  {
  }

  lemma MovingKeepsKnown(creators: map<Inode, Pid>, pcs: map<Pid, Pc>, p: Pid, pc: Pc)
    requires Known(creators, pcs)
    requires OwnInode(pc).None? || (p in pcs && OwnInode(pc) == OwnInode(pcs[p]))
    ensures Known(creators, pcs[p := pc])
  {
  }

  lemma CreatingKeepsKnown(creators: map<Inode, Pid>, pcs: map<Pid, Pc>, p: Pid, next: Inode)
    requires Known(creators, pcs) && (forall i :: i in creators ==> i < next)
    ensures Known(creators[next := p], pcs[p := Created(next)])
  {
  }

  lemma AcquiringKeepsOwners(s: State, step: Step)
    requires InodesBelow(s) && OwnersKnown(s) && !IsGuarding(step)
    ensures OwnersKnown(Acquiring(s, step))
  {
    hide Known, Closed;
    var p, c, pcs := step.pid, s.creators, s.pcs;
    var pc := PcOf(s, p);
    match step
    case TryLock(_) => MovingKeepsKnown(c, pcs, p, Done); MovingKeepsKnown(c, pcs, p, Binding(1));
    case Bind(_) =>
      CreatingKeepsKnown(c, pcs, p, s.next);
      MovingKeepsKnown(c, pcs, p, InUse);
      MovingKeepsKnown(c, pcs, p, Done);
    case Listen(_) => if pc.Created? { MovingKeepsKnown(c, pcs, p, Listening(pc.inode)); }
    case ReturnWon(_) => if pc.Listening? { MovingKeepsKnown(c, pcs, p, Winner(pc.inode)); }
    case Stat(_) => MovingKeepsKnown(c, pcs, p, SawSocket); MovingKeepsKnown(c, pcs, p, Done);
    case ProbeRefused(_) => MovingKeepsKnown(c, pcs, p, Refused);
    case Unlink(_) => MovingKeepsKnown(c, pcs, p, Binding(2));
    case GiveUp(_) => MovingKeepsKnown(c, pcs, p, Done);
    case _ =>
  }

  lemma GuardingKeepsOwners(s: State, step: Step)
    requires InodesBelow(s) && OwnersKnown(s) && IsGuarding(step)
    ensures OwnersKnown(Guarding(s, step))
  {
    hide Known, Closed;
    var p, c, pcs := step.pid, s.creators, s.pcs;
    var pc := PcOf(s, p);
    match step
    case Capture(_) =>
      if s.path.Some? && s.path.value.Socket? {
        MovingKeepsKnown(c, pcs, p, Guarded(OwnInode(pc), s.path.value.inode));
      }
    case DropTryLock(_) =>
      if pc.Guarded? {
        MovingKeepsKnown(c, pcs, p, Unguarded(pc.own));
        MovingKeepsKnown(c, pcs, p, DropLocked(pc.own, pc.observed));
      }
    case DropStat(_) =>
      if pc.DropLocked? {
        MovingKeepsKnown(c, pcs, p, Unguarded(pc.own));
        MovingKeepsKnown(c, pcs, p, DropMatched(pc.own, pc.observed));
      }
    case DropUnlink(_) => if pc.DropMatched? { MovingKeepsKnown(c, pcs, p, Unguarded(pc.own)); }
    case Crash(_) => MovingKeepsKnown(c, pcs, p, Done);
    case _ =>
  }

  lemma StepKeepsOwners(s: State, step: Step)
    requires InodesBelow(s) && OwnersKnown(s)
    ensures OwnersKnown(Next(s, step))
  {
    hide OwnersKnown, Acquiring, Guarding;
    if IsGuarding(step) {
      GuardingKeepsOwners(s, step);
    } else {
      AcquiringKeepsOwners(s, step);
    }
  }

  lemma MovingKeepsOwned(listeners: map<Inode, Pid>, pcs: map<Pid, Pc>, p: Pid, pc: Pc)
    requires Owned(listeners, pcs)
    requires p in pcs ==> OwnInode(pcs[p]).None? || OwnInode(pc) == OwnInode(pcs[p])
    ensures Owned(listeners, pcs[p := pc])
  {
  }

  lemma ListeningKeepsOwned(listeners: map<Inode, Pid>, pcs: map<Pid, Pc>, p: Pid, i: Inode)
    requires Owned(listeners, pcs) && p in pcs && OwnInode(pcs[p]) == Some(i)
    ensures Owned(listeners[i := p], pcs[p := Listening(i)])
  {
  }

  lemma ClosingKeepsOwned(listeners: map<Inode, Pid>, pcs: map<Pid, Pc>, p: Pid, pc: Pc)
    requires Owned(listeners, pcs)
    ensures Owned(Closed(listeners, p), pcs) && Owned(Closed(listeners, p), pcs[p := pc])
  {
  }

  lemma StepKeepsListeners(s: State, step: Step)
    requires ListenersOwned(s)
    ensures ListenersOwned(Next(s, step))
  {
    hide Owned;
    if IsGuarding(step) {
      GuardingKeepsListeners(s, step);
    } else {
      AcquiringKeepsListeners(s, step);
    }
  }

  lemma AcquiringKeepsListeners(s: State, step: Step)
    requires ListenersOwned(s) && !IsGuarding(step)
    ensures ListenersOwned(Acquiring(s, step))
  {
    hide Owned, Closed;
    var p, l, pcs := step.pid, s.listeners, s.pcs;
    var pc := PcOf(s, p);
    match step
    case TryLock(_) => if pc.Idle? { MovingKeepsOwned(l, pcs, p, Done); MovingKeepsOwned(l, pcs, p, Binding(1)); }
    case Bind(_) =>
      if pc.Binding? {
        MovingKeepsOwned(l, pcs, p, Created(s.next));
        MovingKeepsOwned(l, pcs, p, InUse);
        MovingKeepsOwned(l, pcs, p, Done);
      }
    case Listen(_) => if pc.Created? { ListeningKeepsOwned(l, pcs, p, pc.inode); }
    case ReturnWon(_) => if pc.Listening? { MovingKeepsOwned(l, pcs, p, Winner(pc.inode)); }
    case Stat(_) => if pc.InUse? { MovingKeepsOwned(l, pcs, p, SawSocket); MovingKeepsOwned(l, pcs, p, Done); }
    case ProbeRefused(_) => if pc.SawSocket? { MovingKeepsOwned(l, pcs, p, Refused); }
    case Unlink(_) => if pc.Refused? { MovingKeepsOwned(l, pcs, p, Binding(2)); }
    case GiveUp(_) => ClosingKeepsOwned(l, pcs, p, Done);
    case _ =>
  }

  lemma GuardingKeepsListeners(s: State, step: Step)
    requires ListenersOwned(s) && IsGuarding(step)
    ensures ListenersOwned(Guarding(s, step))
  {
    hide Owned, Closed;
    var p, l, pcs := step.pid, s.listeners, s.pcs;
    var pc := PcOf(s, p);
    match step
    case Capture(_) =>
      if MayCapture(pc) && s.path.Some? && s.path.value.Socket? {
        MovingKeepsOwned(l, pcs, p, Guarded(OwnInode(pc), s.path.value.inode));
      }
    case DropTryLock(_) =>
      if pc.Guarded? {
        MovingKeepsOwned(l, pcs, p, Unguarded(pc.own));
        MovingKeepsOwned(l, pcs, p, DropLocked(pc.own, pc.observed));
      }
    case DropStat(_) =>
      if pc.DropLocked? {
        MovingKeepsOwned(l, pcs, p, Unguarded(pc.own));
        MovingKeepsOwned(l, pcs, p, DropMatched(pc.own, pc.observed));
      }
    case DropUnlink(_) => if pc.DropMatched? { MovingKeepsOwned(l, pcs, p, Unguarded(pc.own)); }
    case StopListening(_) => ClosingKeepsOwned(l, pcs, p, Done);
    case Crash(_) => ClosingKeepsOwned(l, pcs, p, Done);
    case _ =>
  }

  lemma AcquiringKeepsBinder(s: State, step: Step)
    requires LockDiscipline(s) && BinderAtPath(s) && !IsGuarding(step)
    ensures BinderAtPath(Acquiring(s, step))
  {
  }

  lemma GuardingKeepsBinder(s: State, step: Step)
    requires LockDiscipline(s) && BinderAtPath(s) && IsGuarding(step)
    ensures BinderAtPath(Guarding(s, step))
  {
  }

  lemma StepKeepsBinder(s: State, step: Step)
    requires LockDiscipline(s) && BinderAtPath(s)
    ensures BinderAtPath(Next(s, step))
  {
    hide BinderAtPath, Acquiring, Guarding;
    if IsGuarding(step) {
      GuardingKeepsBinder(s, step);
    } else {
      AcquiringKeepsBinder(s, step);
    }
  }

  lemma StepKeepsRemovals(s: State, step: Step)
    ensures s.removals <= Next(s, step).removals
  {
  }

  lemma StepKeepsLost(s: State, step: Step, i: Inode)
    requires Lost(s, i)
    ensures Lost(Next(s, step), i)
  {
    StepKeepsRemovals(s, step);
    hide Next;
    var k :| 0 <= k < |s.removals| && Steals(s.removals[k], i);
    assert Steals(Next(s, step).removals[k], i);
  }

  lemma OtherAcquires(s: State, step: Step, p: Pid)
    requires OwnersKnown(s) && !IsGuarding(step) && step.pid != p
    requires p in Acquiring(s, step).pcs && Serves(Acquiring(s, step), Acquiring(s, step).pcs[p])
    ensures p in s.pcs && s.pcs[p] == Acquiring(s, step).pcs[p] && Serves(s, s.pcs[p])
  {
  }

  lemma OneAcquires(s: State, step: Step)
    requires !IsGuarding(step) && step.pid in Acquiring(s, step).pcs
    requires Serves(Acquiring(s, step), Acquiring(s, step).pcs[step.pid])
    ensures step.pid in s.pcs && OwnInode(s.pcs[step.pid]) == OwnInode(Acquiring(s, step).pcs[step.pid])
    ensures OwnInode(s.pcs[step.pid]).value in s.listeners
    ensures Serves(s, s.pcs[step.pid]) || s.pcs[step.pid].Listening?
  {
  }

  lemma GuardingServer(s: State, step: Step, p: Pid)
    requires IsGuarding(step) && p in Guarding(s, step).pcs && Serves(Guarding(s, step), Guarding(s, step).pcs[p])
    ensures p in s.pcs && OwnInode(s.pcs[p]) == OwnInode(Guarding(s, step).pcs[p]) && Serves(s, s.pcs[p])
    ensures step == DropUnlink(p) ==> Guarding(s, step) == s
  {
  }

  /** A call that serves served before, or was about to return as the winner. */
  lemma ServerBefore(s: State, step: Step, p: Pid)
    requires OwnersKnown(s) && p in Next(s, step).pcs && Serves(Next(s, step), Next(s, step).pcs[p])
    ensures p in s.pcs && OwnInode(s.pcs[p]) == OwnInode(Next(s, step).pcs[p])
    ensures OwnInode(s.pcs[p]).Some? && OwnInode(s.pcs[p]).value in s.listeners
    ensures Serves(s, s.pcs[p]) || s.pcs[p].Listening?
    ensures step == DropUnlink(p) ==> Next(s, step) == s
  {
    hide Acquiring, Guarding;
    if IsGuarding(step) {
      GuardingServer(s, step, p);
    } else {
      if step.pid == p {
        OneAcquires(s, step);
      } else {
        OtherAcquires(s, step, p);
      }
    }
  }

  /** The name of a live socket goes only to a guard, and to no guard of its maker that still serves. */
  lemma NameStays(s: State, step: Step, p: Pid, i: Inode)
    requires s.path == Some(Socket(i)) && i in s.listeners && MadeBy(s, p, i)
    requires RefusedIsDead(s) && (step == DropUnlink(p) ==> Next(s, step) == s)
    ensures Kept(Next(s, step), i)
  {
    var t := Next(s, step);
    if t.path != s.path {
      assert Steals(t.removals[|s.removals|], i);
    }
  }

  lemma StepKeepsClaimant(s: State, step: Step)
    requires OwnersKnown(s) && BinderAtPath(s) && ClaimantAtPath(s) && RefusedIsDead(s)
    ensures ClaimantAtPath(Next(s, step))
  {
    hide Next, Lost;
    var t := Next(s, step);
    forall p | p in t.pcs && Serves(t, t.pcs[p]) ensures Kept(t, OwnInode(t.pcs[p]).value) {
      ServerBefore(s, step, p);
      var i := OwnInode(s.pcs[p]).value;
      assert Kept(s, i);
      if Lost(s, i) {
        StepKeepsLost(s, step, i);
      } else {
        NameStays(s, step, p, i);
      }
    }
  }

  lemma StepKeepsGone(s: State, step: Step)
    requires InodesBelow(s) && RemovedIsGone(s)
    ensures RemovedIsGone(Next(s, step))
  {
  }

  lemma AcquiringKeepsRefused(s: State, step: Step)
    requires LockDiscipline(s) && RefusedIsDead(s) && !IsGuarding(step)
    ensures RefusedIsDead(Acquiring(s, step))
  {
  }

  lemma GuardingKeepsRefused(s: State, step: Step)
    requires LockDiscipline(s) && RefusedIsDead(s) && IsGuarding(step)
    ensures RefusedIsDead(Guarding(s, step))
  {
  }

  lemma StepKeepsRefused(s: State, step: Step)
    requires LockDiscipline(s) && RefusedIsDead(s)
    ensures RefusedIsDead(Next(s, step))
  {
    hide RefusedIsDead, Acquiring, Guarding;
    if IsGuarding(step) {
      GuardingKeepsRefused(s, step);
    } else {
      AcquiringKeepsRefused(s, step);
    }
  }

  lemma AcquiringKeepsGuards(s: State, step: Step)
    requires InodesBelow(s) && GuardsOwn(s) && !IsGuarding(step)
    ensures GuardsOwn(Acquiring(s, step))
  {
  }

  lemma GuardingKeepsGuards(s: State, step: Step)
    requires InodesBelow(s) && GuardsOwn(s) && IsGuarding(step)
    ensures GuardsOwn(Guarding(s, step))
  {
  }

  lemma StepKeepsGuards(s: State, step: Step)
    requires InodesBelow(s) && GuardsOwn(s)
    ensures GuardsOwn(Next(s, step))
  {
    hide GuardsOwn, Acquiring, Guarding;
    if IsGuarding(step) {
      GuardingKeepsGuards(s, step);
    } else {
      AcquiringKeepsGuards(s, step);
    }
  }

  lemma AcquiringKeepsMatched(s: State, step: Step)
    requires LockDiscipline(s) && MatchedAtPath(s) && !IsGuarding(step)
    ensures MatchedAtPath(Acquiring(s, step))
  {
  }

  lemma GuardingKeepsMatched(s: State, step: Step)
    requires LockDiscipline(s) && MatchedAtPath(s) && IsGuarding(step)
    ensures MatchedAtPath(Guarding(s, step))
  {
  }

  lemma StepKeepsMatched(s: State, step: Step)
    requires LockDiscipline(s) && MatchedAtPath(s)
    ensures MatchedAtPath(Next(s, step))
  {
    hide MatchedAtPath, Acquiring, Guarding;
    if IsGuarding(step) {
      GuardingKeepsMatched(s, step);
    } else {
      AcquiringKeepsMatched(s, step);
    }
  }

  lemma AcquiringKeepsHarmless(s: State, step: Step)
    requires OwnersKnown(s) && RefusedIsDead(s) && GuardsOwn(s) && MatchedAtPath(s) && OnlyHarmless(s) && !IsGuarding(step)
    ensures OnlyHarmless(Acquiring(s, step))
  {
  }

  lemma GuardingKeepsHarmless(s: State, step: Step)
    requires OwnersKnown(s) && RefusedIsDead(s) && GuardsOwn(s) && MatchedAtPath(s) && OnlyHarmless(s) && IsGuarding(step)
    ensures OnlyHarmless(Guarding(s, step))
  {
  }

  lemma StepKeepsHarmless(s: State, step: Step)
    requires OwnersKnown(s) && RefusedIsDead(s) && GuardsOwn(s) && MatchedAtPath(s) && OnlyHarmless(s)
    ensures OnlyHarmless(Next(s, step))
  {
    hide OnlyHarmless, Acquiring, Guarding;
    if IsGuarding(step) {
      GuardingKeepsHarmless(s, step);
    } else {
      AcquiringKeepsHarmless(s, step);
    }
  }

  lemma {:induction false} InvariantHolds(path: Option<Node>, steps: seq<Step>)
    ensures Invariant(Run(path, steps))
    decreases |steps|
  {
    if steps != [] {
      var s, step := Run(path, steps[..|steps| - 1]), steps[|steps| - 1];
      InvariantHolds(path, steps[..|steps| - 1]);
      hide Next;
      StepKeepsLock(s, step);
      StepKeepsInodesBelow(s, step);
      StepKeepsOwners(s, step);
      StepKeepsListeners(s, step);
      StepKeepsBinder(s, step);
      StepKeepsClaimant(s, step);
      StepKeepsGone(s, step);
      StepKeepsRefused(s, step);
      StepKeepsGuards(s, step);
      StepKeepsMatched(s, step);
      StepKeepsHarmless(s, step);
    }
  }

  // ---------------------------------------------------------------- what a guard captured

  /** At step `c` the caller captured this socket. */
  predicate CapturedAt(path: Option<Node>, steps: seq<Step>, c: nat, p: Pid, i: Inode) {
    c < |steps| && steps[c] == Capture(p) && Run(path, steps[..c]).path == Some(Socket(i))
  }

  predicate Guards(pc: Pc, i: Inode) {
    (pc.Guarded? || pc.DropLocked? || pc.DropMatched?) && pc.observed == i
  }

  lemma AcquiringGuards(s: State, step: Step, p: Pid, i: Inode)
    requires !IsGuarding(step) && Guards(PcOf(Acquiring(s, step), p), i)
    ensures Guards(PcOf(s, p), i)
  {
  }

  lemma GuardingGuards(s: State, step: Step, p: Pid, i: Inode)
    requires IsGuarding(step) && Guards(PcOf(Guarding(s, step), p), i)
    ensures Guards(PcOf(s, p), i) || (step == Capture(p) && s.path == Some(Socket(i)))
  {
  }

  lemma StepGuards(s: State, step: Step, p: Pid, i: Inode)
    requires Guards(PcOf(Next(s, step), p), i)
    ensures Guards(PcOf(s, p), i) || (step == Capture(p) && s.path == Some(Socket(i)))
  {
    hide Acquiring, Guarding, Guards;
    if IsGuarding(step) {
      GuardingGuards(s, step, p, i);
    } else {
      AcquiringGuards(s, step, p, i);
    }
  }

  lemma {:induction false} GuardsWereCaptured(path: Option<Node>, steps: seq<Step>, p: Pid, i: Inode) returns (c: nat)
    requires Guards(PcOf(Run(path, steps), p), i)
    ensures CapturedAt(path, steps, c, p, i)
    decreases |steps|
  {
    hide Next;
    var before, step := steps[..|steps| - 1], steps[|steps| - 1];
    StepGuards(Run(path, before), step, p, i);
    if Guards(PcOf(Run(path, before), p), i) {
      c := GuardsWereCaptured(path, before, p, i);
      assert steps[..c] == before[..c];
    } else {
      c := |before|;
    }
  }

  lemma StepRemoves(s: State, step: Step)
    requires MatchedAtPath(s)
    ensures var t := Next(s, step);
            || t.removals == s.removals
            || (exists r :: t.removals == s.removals + [r]
                            && (r.guard ==> r.node.Socket? && Guards(PcOf(s, r.by_), r.node.inode)
                                            && (r.creator == Some(r.by_) <==> MadeBy(s, r.by_, r.node.inode))))
  {
    var t := Next(s, step);
    if t.removals != s.removals {
      assert t.removals == s.removals + [t.removals[|s.removals|]];
    }
  }

  lemma StepKeepsMakers(s: State, step: Step, p: Pid, i: Inode)
    requires InodesBelow(s) && i < s.next
    ensures MadeBy(Next(s, step), p, i) <==> MadeBy(s, p, i)
    ensures i < Next(s, step).next
  {
  }

  /** Who made an inode is settled once it exists. */
  lemma {:induction false} MakersAreFixed(path: Option<Node>, steps: seq<Step>, c: nat, p: Pid, i: Inode)
    requires c <= |steps| && i < Run(path, steps[..c]).next
    ensures MadeBy(Run(path, steps), p, i) <==> MadeBy(Run(path, steps[..c]), p, i)
    ensures i < Run(path, steps).next
    decreases |steps|
  {
    if c == |steps| {
      assert steps[..c] == steps;
    } else {
      hide Next;
      var before := steps[..|steps| - 1];
      assert before[..c] == steps[..c];
      MakersAreFixed(path, before, c, p, i);
      InvariantHolds(path, before);
      StepKeepsMakers(Run(path, before), steps[|steps| - 1], p, i);
    }
  }

  // ---------------------------------------------------------------- main results

  /** Over every run, whoever captured what and when: a guard removes exactly a socket its holder
      captured, and that is its holder's own endpoint if and only if the one captured was. */
  lemma {:induction false} GuardRemovesItsOwnExactlyIfItCapturedIt(path: Option<Node>, steps: seq<Step>, k: nat) returns (c: nat)
    requires k < |Run(path, steps).removals| && Run(path, steps).removals[k].guard
    ensures var r := Run(path, steps).removals[k];
            && r.node.Socket? && CapturedAt(path, steps, c, r.by_, r.node.inode)
            && (r.creator == Some(r.by_) <==> MadeBy(Run(path, steps[..c]), r.by_, r.node.inode))
    decreases |steps|
  {
    hide Next;
    var before, step := steps[..|steps| - 1], steps[|steps| - 1];
    var s := Run(path, before);
    InvariantHolds(path, before);
    StepRemoves(s, step);
    if k < |s.removals| {
      c := GuardRemovesItsOwnExactlyIfItCapturedIt(path, before, k);
    } else {
      var r := Run(path, steps).removals[k];
      c := GuardsWereCaptured(path, before, r.by_, r.node.inode);
      InvariantHolds(path, before[..c]);
      MakersAreFixed(path, before, c, r.by_, r.node.inode);
    }
    assert before[..c] == steps[..c];
  }

  /** Every capture so far was of a socket its caller had made. */
  predicate CapturesOwn(path: Option<Node>, steps: seq<Step>) {
    !Run(path, steps).foreign
  }

  /** Every capture so far was made as its documentation asks, by a winner that still listens. */
  predicate CapturesInTime(path: Option<Node>, steps: seq<Step>) {
    forall c :: 0 <= c < |steps| && steps[c].Capture? ==> InTime(Run(path, steps[..c]), steps[c].pid)
  }

  predicate InTime(s: State, p: Pid) {
    PcOf(s, p).Winner? && PcOf(s, p).inode in s.listeners
  }

  lemma CaptureInTimeIsOwn(s: State, step: Step)
    requires ClaimantAtPath(s) && OwnersKnown(s) && OnlyHarmless(s) && !s.foreign && (step.Capture? ==> InTime(s, step.pid))
    ensures !Next(s, step).foreign
  {
    if step.Capture? {
      assert Serves(s, s.pcs[step.pid]);
      assert Kept(s, s.pcs[step.pid].inode);
    }
  }

  lemma {:induction false} InTimeMeansOwn(path: Option<Node>, steps: seq<Step>)
    requires CapturesInTime(path, steps)
    ensures CapturesOwn(path, steps)
    decreases |steps|
  {
    if steps != [] {
      hide Next;
      var before := steps[..|steps| - 1];
      assert forall c :: 0 <= c < |before| ==> before[..c] == steps[..c] && before[c] == steps[c];
      InTimeMeansOwn(path, before);
      InvariantHolds(path, before);
      CaptureInTimeIsOwn(Run(path, before), steps[|steps| - 1]);
    }
  }

  /** Whatever the interleaving and the crashes, `acquire` only ever unlinked a socket nobody was
      listening on. With guards captured in time, a guard only ever removed the endpoint its own
      process had created: a late drop never removes a successor's. */
  lemma {:induction false} RemovalsAreHarmless(path: Option<Node>, steps: seq<Step>, k: nat)
    requires k < |Run(path, steps).removals|
    ensures var r := Run(path, steps).removals[k];
            r.node.Socket? && (!r.guard ==> !r.live) && (CapturesInTime(path, steps) && r.guard ==> r.creator == Some(r.by_))
  {
    InvariantHolds(path, steps);
    if CapturesInTime(path, steps) {
      InTimeMeansOwn(path, steps);
    }
    hide Run;
  }

  /** A winner that has neither stopped listening nor dropped its guard. */
  predicate Serving(s: State, p: Pid) {
    p in s.pcs && Serves(s, s.pcs[p])
  }

  /** Over every run, a serving winner is reachable at the path if and only if its endpoint was not
      removed; and only a guard that captured another's socket can have removed it. */
  lemma {:induction false} ServerIsReachableUntilRemoved(path: Option<Node>, steps: seq<Step>, p: Pid)
    requires Serving(Run(path, steps), p)
    ensures var s := Run(path, steps);
            var own := Socket(OwnInode(s.pcs[p]).value);
            && (s.path == Some(own) <==> forall k :: 0 <= k < |s.removals| ==> s.removals[k].node != own)
            && (s.path != Some(own) ==> Lost(s, own.inode))
  {
    InvariantHolds(path, steps);
    var s := Run(path, steps);
    hide Run;
    assert Kept(s, OwnInode(s.pcs[p]).value);
  }

  /** Two winners serve at once only if such a guard removed one of them; with guards captured in
      time, never. */
  lemma {:induction false} OneWinnerAtATime(path: Option<Node>, steps: seq<Step>, p: Pid, q: Pid)
    requires Serving(Run(path, steps), p) && Serving(Run(path, steps), q) && p != q
    ensures var s := Run(path, steps); Lost(s, OwnInode(s.pcs[p]).value) || Lost(s, OwnInode(s.pcs[q]).value)
    ensures !CapturesInTime(path, steps)
  {
    ServerIsReachableUntilRemoved(path, steps, p);
    ServerIsReachableUntilRemoved(path, steps, q);
    InvariantHolds(path, steps);
    var s := Run(path, steps);
    assert OwnInode(s.pcs[p]) != OwnInode(s.pcs[q]);
    if CapturesInTime(path, steps) {
      InTimeMeansOwn(path, steps);
    }
    hide Run;
  }

  /** While one serves at the path, no other call wins: not now, and not in any step it takes. */
  lemma {:induction false} NobodyWinsAgainstAServer(path: Option<Node>, steps: seq<Step>, p: Pid, q: Pid)
    requires p != q && Serving(Run(path, steps), p) && !Lost(Run(path, steps), OwnInode(Run(path, steps).pcs[p]).value)
    ensures var s := Run(path, steps); q in s.pcs ==> !s.pcs[q].Created? && !s.pcs[q].Listening? && !s.pcs[q].Refused?
  {
    InvariantHolds(path, steps);
    ServerIsReachableUntilRemoved(path, steps, p);
    hide Run;
  }

  // ---------------------------------------------------------------- one call left alone

  predicate LockAtWork(s: State) {
    s.lock.Some? ==> HoldsLock(PcOf(s, s.lock.value))
  }

  lemma AcquiringKeepsAtWork(s: State, step: Step)
    requires LockAtWork(s) && LockDiscipline(s) && !IsGuarding(step)
    ensures LockAtWork(Acquiring(s, step))
  {
  }

  lemma GuardingKeepsAtWork(s: State, step: Step)
    requires LockAtWork(s) && LockDiscipline(s) && IsGuarding(step)
    ensures LockAtWork(Guarding(s, step))
  {
  }

  /** The lock is never left behind: whoever holds it is in the middle of a call. */
  lemma {:induction false} LockIsNeverLeftBehind(path: Option<Node>, steps: seq<Step>)
    ensures var s := Run(path, steps); s.lock.Some? ==> HoldsLock(PcOf(s, s.lock.value))
    decreases |steps|
  {
    if steps != [] {
      var before, step := steps[..|steps| - 1], steps[|steps| - 1];
      LockIsNeverLeftBehind(path, before);
      InvariantHolds(path, before);
      hide Acquiring, Guarding;
      if IsGuarding(step) {
        GuardingKeepsAtWork(Run(path, before), step);
      } else {
        AcquiringKeepsAtWork(Run(path, before), step);
      }
    }
  }

  function Onward(s: State, steps: seq<Step>): State
    decreases |steps|
  {
    if steps == [] then s else Onward(Next(s, steps[0]), steps[1..])
  }

  lemma {:induction false} RunOnward(path: Option<Node>, steps: seq<Step>, more: seq<Step>)
    ensures Run(path, steps + more) == Onward(Run(path, steps), more)
    decreases |more|
  {
    hide Next;
    if more == [] {
      assert steps + more == steps;
    } else {
      assert (steps + [more[0]])[..|steps|] == steps;
      assert steps + more == (steps + [more[0]]) + more[1..];
      RunOnward(path, steps + [more[0]], more[1..]);
    }
  }

  lemma OnwardTwo(s: State, a: Step, b: Step)
    ensures Onward(s, [a, b]) == Next(Next(s, a), b)
  {
    hide Next;
    assert [a, b][1..] == [b] && [b][1..] == [];
    assert Onward(Next(s, a), [b]) == Onward(Next(Next(s, a), b), []);
  }

  lemma OnwardThree(s: State, a: Step, b: Step, c: Step)
    ensures Onward(s, [a, b, c]) == Next(Next(Next(s, a), b), c)
  {
    hide Next;
    assert [a, b, c][1..] == [b, c];
    OnwardTwo(Next(s, a), b, c);
  }

  lemma OnwardFour(s: State, a: Step, b: Step, c: Step, d: Step)
    ensures Onward(s, [a, b, c, d]) == Next(Next(Next(Next(s, a), b), c), d)
  {
    hide Next;
    assert [a, b, c, d][1..] == [b, c, d];
    OnwardThree(Next(s, a), b, c, d);
  }

  predicate Dead(s: State) {
    s.path.Some? && s.path.value.Socket? && s.path.value.inode !in s.listeners
  }

  /** Bound with nobody in the way, a call wins. */
  lemma BindsAlone(s: State, p: Pid)
    requires PcOf(s, p).Binding? && s.path.None?
    ensures var t := Next(Next(Next(s, Bind(p)), Listen(p)), ReturnWon(p));
            && PcOf(t, p) == Winner(s.next) && t.path == Some(Socket(s.next)) && t.listeners == s.listeners[s.next := p]
            && t.lock.None? && t.removals == s.removals
  {
    hide Guarding;
  }

  lemma ClearsAlone(s: State, p: Pid)
    requires PcOf(s, p).InUse? && Dead(s)
    ensures var t := Next(Next(Next(s, Stat(p)), ProbeRefused(p)), Unlink(p));
            && PcOf(t, p) == Binding(2) && t.path.None? && t.listeners == s.listeners && t.next == s.next && |t.removals| == |s.removals| + 1
  {
    hide Guarding;
  }

  lemma StartsAlone(s: State, p: Pid)
    requires PcOf(s, p).Idle? && s.lock.None?
    ensures Next(s, TryLock(p)) == s.(pcs := s.pcs[p := Binding(1)], lock := Some(p))
    ensures s.path.Some? ==> Next(Next(s, TryLock(p)), Bind(p)) == s.(pcs := s.pcs[p := InUse], lock := Some(p))
  {
    hide Guarding;
    assert s.pcs[p := Binding(1)][p := InUse] == s.pcs[p := InUse];
  }

  lemma OtherAlone(s: State, p: Pid)
    requires PcOf(s, p).InUse? && s.path == Some(Other)
    ensures Next(s, Stat(p)) == s.(pcs := s.pcs[p := Done], lock := None)
  {
    hide Guarding;
  }

  /** What an undisturbed call does next to others: on a free path or a dead socket. */
  function Winning(s: State, p: Pid): seq<Step> {
    if s.path.None? then [TryLock(p), Bind(p), Listen(p), ReturnWon(p)]
    else [TryLock(p), Bind(p), Stat(p), ProbeRefused(p)] + [Unlink(p), Bind(p), Listen(p), ReturnWon(p)]
  }

  lemma {:induction false} OnwardAppends(s: State, a: seq<Step>, b: seq<Step>)
    ensures Onward(s, a + b) == Onward(Onward(s, a), b)
    decreases |a|
  {
    hide Next;
    if a == [] {
      assert a + b == b;
    } else {
      assert (a + b)[1..] == a[1..] + b;
      OnwardAppends(Next(s, a[0]), a[1..], b);
    }
  }

  lemma WinsAlone(s: State, p: Pid)
    requires PcOf(s, p).Idle? && s.lock.None? && (s.path.None? || Dead(s))
    ensures var t := Onward(s, Winning(s, p));
            && PcOf(t, p) == Winner(s.next) && t.path == Some(Socket(s.next)) && t.listeners == s.listeners[s.next := p]
            && t.lock.None? && |t.removals| == |s.removals| + if s.path.None? then 0 else 1
  {
    StartsAlone(s, p);
    var s1 := Next(s, TryLock(p));
    if s.path.None? {
      BindsAlone(s1, p);
      hide Next;
      OnwardFour(s, TryLock(p), Bind(p), Listen(p), ReturnWon(p));
    } else {
      var s2 := Next(s1, Bind(p));
      ClearsAlone(s2, p);
      var s4 := Next(Next(s2, Stat(p)), ProbeRefused(p));
      BindsAlone(Next(s4, Unlink(p)), p);
      hide Next;
      OnwardFour(s, TryLock(p), Bind(p), Stat(p), ProbeRefused(p));
      OnwardFour(s4, Unlink(p), Bind(p), Listen(p), ReturnWon(p));
      OnwardAppends(s, [TryLock(p), Bind(p), Stat(p), ProbeRefused(p)], [Unlink(p), Bind(p), Listen(p), ReturnWon(p)]);
    }
  }

  /** Nobody is locked out: in every state any run reaches with the lock free, a fresh call on a free
      path or a dead socket, left alone, wins, and is reachable at the path with its listener. */
  lemma {:induction false} AFreshCallWins(path: Option<Node>, steps: seq<Step>, p: Pid)
    requires var s := Run(path, steps); PcOf(s, p).Idle? && s.lock.None? && (s.path.None? || Dead(s))
    ensures var s := Run(path, steps);
            var t := Run(path, steps + Winning(s, p));
            && PcOf(t, p) == Winner(s.next) && Serving(t, p) && t.path == Some(Socket(s.next)) && t.lock.None?
  {
    RunOnward(path, steps, Winning(Run(path, steps), p));
    hide Run;
    WinsAlone(Run(path, steps), p);
  }

  /** A file that is no socket sends it away, and stays. */
  lemma {:induction false} AFreshCallLeavesOtherFiles(path: Option<Node>, steps: seq<Step>, p: Pid)
    requires var s := Run(path, steps); PcOf(s, p).Idle? && s.lock.None? && s.path == Some(Other)
    ensures var t := Run(path, steps + [TryLock(p), Bind(p), Stat(p)]);
            PcOf(t, p).Done? && t.path == Some(Other) && t.lock.None? && t.listeners == Run(path, steps).listeners
  {
    var s := Run(path, steps);
    var more := [TryLock(p), Bind(p), Stat(p)];
    RunOnward(path, steps, more);
    StartsAlone(s, p);
    OtherAlone(Next(Next(s, TryLock(p)), Bind(p)), p);
    hide Next, Run;
    OnwardThree(s, TryLock(p), Bind(p), Stat(p));
  }

  /** A guard dropped while the lock is free removes exactly the socket it observed. */
  lemma {:induction false} ADroppedGuardRemovesExactly(path: Option<Node>, steps: seq<Step>, p: Pid)
    requires var s := Run(path, steps); PcOf(s, p).Guarded? && s.lock.None?
    ensures var s, t := Run(path, steps), Run(path, steps + [DropTryLock(p), DropStat(p), DropUnlink(p)]);
            && t.path == (if s.path == Some(Socket(PcOf(s, p).observed)) then None else s.path)
            && t.lock.None? && t.listeners == s.listeners && PcOf(t, p) == Unguarded(PcOf(s, p).own)
  {
    var s := Run(path, steps);
    var more := [DropTryLock(p), DropStat(p), DropUnlink(p)];
    RunOnward(path, steps, more);
    DropsAlone(s, p);
    hide Next, Run;
    OnwardThree(s, DropTryLock(p), DropStat(p), DropUnlink(p));
  }

  lemma DropsAlone(s: State, p: Pid)
    requires PcOf(s, p).Guarded? && s.lock.None?
    ensures var t := Next(Next(Next(s, DropTryLock(p)), DropStat(p)), DropUnlink(p));
            && t.path == (if s.path == Some(Socket(PcOf(s, p).observed)) then None else s.path)
            && t.lock.None? && t.listeners == s.listeners && PcOf(t, p) == Unguarded(PcOf(s, p).own)
  {
    hide Acquiring;
  }

  /** How many steps of `acquire` a call may still take. */
  function StepsLeft(pc: Pc): nat {
    match pc
    case Idle => 8
    case Binding(attempt) => if attempt == 1 then 7 else 3
    case InUse => 6
    case SawSocket => 5
    case Refused => 4
    case Created(_) => 2
    case Listening(_) => 1
    case _ => 0
  }

  /** No call goes round in circles: every step it takes leaves it fewer. */
  lemma AcquireIsBounded(s: State, step: Step)
    requires !IsGuarding(step) && Next(s, step) != s
    ensures StepsLeft(PcOf(Next(s, step), step.pid)) < StepsLeft(PcOf(s, step.pid))
  {
    hide Guarding, Closed;
  }

  // ---------------------------------------------------------------- a late capture

  lemma Then(steps: seq<Step>, s: State, step: Step, t: State)
    requires Run(None, steps) == s && Next(s, step) == t
    ensures Run(None, steps + [step]) == t
  {
    hide Next;
    assert (steps + [step])[..|steps|] == steps;
  }

  lemma FirstBinds() returns (steps: seq<Step>, s: State)
    ensures Run(None, steps) == s
    ensures s == State(Some(Socket(0)), Some(1), map[], map[0 := 1], 1, map[1 := Created(0)], [], false)
  {
    NothingYet();
    hide Run, Guarding;
    steps, s := Take([], Initial(None), TryLock(1), Initial(None).(lock := Some(1), pcs := map[1 := Binding(1)]));
    steps, s := Take(steps, s, Bind(1),
                     State(Some(Socket(0)), Some(1), map[], map[0 := 1], 1, map[1 := Created(0)], [], false));
  }

  /** The first process wins, and then stops listening before it has captured a guard. */
  lemma FirstLeaves() returns (steps: seq<Step>, s: State)
    ensures Run(None, steps) == s
    ensures s == State(Some(Socket(0)), None, map[], map[0 := 1], 1, map[1 := Winner(0)], [], false)
  {
    hide Run, Guarding;
    steps, s := FirstBinds();
    var s3 := s.(listeners := map[0 := 1], pcs := map[1 := Listening(0)]);
    var s4 := s3.(lock := None, pcs := map[1 := Winner(0)]);
    steps, s := Take(steps, s, Listen(1), s3);
    steps, s := Take(steps, s, ReturnWon(1), s4);
    StopsListening(s4);
    steps, s := Take(steps, s, StopListening(1), s4.(listeners := map[]));
  }

  lemma NothingYet()
    ensures Run(None, []) == Initial(None)
  {
  }

  lemma StopsListening(s: State)
    requires s.listeners == map[0 := 1] && PcOf(s, 1).Winner?
    ensures Next(s, StopListening(1)) == s.(listeners := map[])
  {
    assert Closed(s.listeners, 1) == map[];
  }

  lemma Take(steps: seq<Step>, s: State, step: Step, t: State) returns (more: seq<Step>, u: State)
    requires Run(None, steps) == s && Next(s, step) == t
    ensures Run(None, more) == u && u == t
  {
    Then(steps, s, step, t);
    more, u := steps + [step], t;
  }

  /** A successor finds the dead socket, removes it and serves. */
  lemma SuccessorServes() returns (steps: seq<Step>, s: State)
    ensures Run(None, steps) == s
    ensures s == State(Some(Socket(1)), None, map[1 := 2], map[0 := 1, 1 := 2], 2, map[1 := Winner(0), 2 := Winner(1)],
                       [Removal(2, false, Socket(0), false, Some(1))], false)
  {
    hide Run, Guarding;
    steps, s := SuccessorClears();
    var s6 := s.(path := Some(Socket(1)), creators := map[0 := 1, 1 := 2], next := 2, pcs := map[1 := Winner(0), 2 := Created(1)]);
    var s7 := s6.(listeners := map[1 := 2], pcs := map[1 := Winner(0), 2 := Listening(1)]);
    var s8 := s7.(lock := None, pcs := map[1 := Winner(0), 2 := Winner(1)]);
    steps, s := Take(steps, s, Bind(2), s6);
    steps, s := Take(steps, s, Listen(2), s7);
    steps, s := Take(steps, s, ReturnWon(2), s8);
  }

  lemma SuccessorProbes() returns (steps: seq<Step>, s: State)
    ensures Run(None, steps) == s
    ensures s == State(Some(Socket(0)), Some(2), map[], map[0 := 1], 1, map[1 := Winner(0), 2 := SawSocket], [], false)
  {
    hide Run, Guarding;
    steps, s := FirstLeaves();
    var s1 := s.(lock := Some(2), pcs := map[1 := Winner(0), 2 := Binding(1)]);
    steps, s := Take(steps, s, TryLock(2), s1);
    steps, s := Take(steps, s, Bind(2), s1.(pcs := map[1 := Winner(0), 2 := InUse]));
    steps, s := Take(steps, s, Stat(2), s1.(pcs := map[1 := Winner(0), 2 := SawSocket]));
  }

  lemma SuccessorClears() returns (steps: seq<Step>, s: State)
    ensures Run(None, steps) == s
    ensures s == State(None, Some(2), map[], map[0 := 1], 1, map[1 := Winner(0), 2 := Binding(2)],
                       [Removal(2, false, Socket(0), false, Some(1))], false)
  {
    hide Run, Guarding;
    steps, s := SuccessorProbes();
    var s1 := s;
    steps, s := Take(steps, s, ProbeRefused(2), s1.(pcs := map[1 := Winner(0), 2 := Refused]));
    steps, s := Take(steps, s, Unlink(2),
                     s1.(path := None, pcs := map[1 := Winner(0), 2 := Binding(2)],
                         removals := [Removal(2, false, Socket(0), false, Some(1))]));
  }

  lemma CapturesLate() returns (steps: seq<Step>, s: State)
    ensures Run(None, steps) == s
    ensures s == State(Some(Socket(1)), Some(1), map[1 := 2], map[0 := 1, 1 := 2], 2,
                       map[1 := DropLocked(Some(0), 1), 2 := Winner(1)], [Removal(2, false, Socket(0), false, Some(1))], true)
  {
    hide Run, Acquiring;
    steps, s := SuccessorServes();
    var s1 := s.(foreign := true, pcs := map[1 := Guarded(Some(0), 1), 2 := Winner(1)]);
    steps, s := Take(steps, s, Capture(1), s1);
    steps, s := Take(steps, s, DropTryLock(1), s1.(lock := Some(1), pcs := map[1 := DropLocked(Some(0), 1), 2 := Winner(1)]));
  }

  lemma MatchesLate() returns (steps: seq<Step>, s: State)
    ensures Run(None, steps) == s
    ensures s == State(Some(Socket(1)), Some(1), map[1 := 2], map[0 := 1, 1 := 2], 2,
                       map[1 := DropMatched(Some(0), 1), 2 := Winner(1)], [Removal(2, false, Socket(0), false, Some(1))], true)
  {
    hide Run, Acquiring;
    steps, s := CapturesLate();
    steps, s := Take(steps, s, DropStat(1), s.(pcs := map[1 := DropMatched(Some(0), 1), 2 := Winner(1)]));
  }

  /** Why the capture has to come in time: a process that stopped listening before it captured takes
      a live successor's endpoint away. */
  lemma LateCaptureRemovesALiveSuccessor() returns (steps: seq<Step>)
    ensures var s := Run(None, steps);
            && |s.removals| == 2 && s.path == None && s.removals[1] == Removal(1, true, Socket(1), true, Some(2))
            && Serving(s, 2)
  {
    hide Run, Acquiring;
    var s;
    steps, s := MatchesLate();
    steps, s := Take(steps, s, DropUnlink(1),
                     s.(path := None, lock := None, pcs := map[1 := Unguarded(Some(0)), 2 := Winner(1)],
                        removals := s.removals + [Removal(1, true, Socket(1), true, Some(2))]));
  }
}
