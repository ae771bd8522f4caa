/** Waiting for a replacement that another process drives (src/selection.rs). Every round reads
    the selection record, then probes; the record decides only what to report without a
    proof. */
module Selection {
  import opened Numbers
  import opened Options
  import opened ReadinessChannel

  datatype Budget = Budget(commit: nat, proof: nat)

  datatype CommitRead = Committed | NotYet | ReadFailed
  datatype Probe<+P> = Proof(proof: P) | NoProof | ProbeFailed

  /** One round of evidence. Times are measured from the start of the wait: when the record had
      been read, when the proof's freshness was checked, and when the round was decided. */
  datatype Round<+P> = Round(committed: CommitRead, readAt: nat, probe: Probe<P>, checkedAt: nat, decidedAt: nat)

  datatype Outcome<+P> = IsCurrent(proof: P) | IsCommitted | IsNotCommitted | EvidenceFailed | Undecided

  // ---------------------------------------------------------------- the rules, by hindsight

  /** When a round first read a committed selection. */
  function FirstCommit<P>(rounds: seq<Round<P>>): Option<nat> {
    if rounds == [] then None
    else if rounds[0].committed == Committed then Some(rounds[0].readAt)
    else FirstCommit(rounds[1..])
  }

  /** By when the wait must end, given the rounds so far. */
  function Deadline<P>(budget: Budget, rounds: seq<Round<P>>): nat {
    var first := FirstCommit(rounds);
    if first.Some? then Min(Later(first.value, budget.proof), budget.commit) else budget.commit
  }

  /** What the last of `rounds` lets an observer report. */
  function Verdict<P>(budget: Budget, rounds: seq<Round<P>>): Outcome<P>
    requires rounds != []
  {
    var r, deadline := rounds[|rounds| - 1], Deadline(budget, rounds);
    if r.committed.ReadFailed? || r.probe.ProbeFailed? then EvidenceFailed
    else if r.probe.Proof? && r.checkedAt < deadline then IsCurrent(r.probe.proof)
    else if r.decidedAt < deadline then Undecided
    else if FirstCommit(rounds).Some? then IsCommitted
    else IsNotCommitted
  }

  // ---------------------------------------------------------------- the loop

  /** `await_selection` over the rounds its evidence yields. It stops in round `used` with that
      round's verdict, every earlier round having left the question open; `Undecided` means
      that the rounds ran out while it was still waiting. */
  method AwaitSelection<P>(budget: Budget, rounds: seq<Round<P>>) returns (outcome: Outcome<P>, used: nat)
    ensures used <= |rounds|
    ensures forall i :: 0 < i < used ==> Verdict(budget, rounds[..i]) == Undecided
    ensures !outcome.Undecided? ==> used > 0 && outcome == Verdict(budget, rounds[..used])
    ensures outcome.Undecided? ==> used == |rounds| && (used > 0 ==> Verdict(budget, rounds) == Undecided)
  {
    var committedAt: Option<nat> := None;
    for i := 0 to |rounds|
      invariant committedAt == FirstCommit(rounds[..i])
      invariant forall j :: 0 < j <= i ==> Verdict(budget, rounds[..j]) == Undecided
    {
      var r := rounds[i];
      FirstCommitAppends(rounds[..i], r);
      assert rounds[..i] + [r] == rounds[..i + 1];
      if r.committed.ReadFailed? {
        return EvidenceFailed, i + 1;
      }
      if r.committed.Committed? && committedAt.None? {
        committedAt := Some(r.readAt);
      }
      var until := if committedAt.Some? then Min(Later(committedAt.value, budget.proof), budget.commit) else budget.commit;
      if r.probe.ProbeFailed? {
        return EvidenceFailed, i + 1;
      }
      if r.probe.Proof? && r.checkedAt < until {
        return IsCurrent(r.probe.proof), i + 1;
      }
      if r.decidedAt >= until {
        return (if committedAt.Some? then IsCommitted else IsNotCommitted), i + 1;
      }
    }
    assert rounds[..|rounds|] == rounds;
    outcome, used := Undecided, |rounds|;
  }

  lemma {:induction false} FirstCommitAppends<P>(rounds: seq<Round<P>>, r: Round<P>)
    ensures FirstCommit(rounds + [r])
            == if FirstCommit(rounds).Some? then FirstCommit(rounds)
               else if r.committed == Committed then Some(r.readAt) else None
    decreases |rounds|
  {
    if rounds == [] {
      assert (rounds + [r])[1..] == [];
    } else {
      assert (rounds + [r])[1..] == rounds[1..] + [r];
      FirstCommitAppends(rounds[1..], r);
    }
  }

  /** A commit once read is never reported as not committed, however many later rounds read an
      older record; a proof counts only in time; and the wait is never left open past either bound. */
  lemma VerdictIsHonest<P>(budget: Budget, rounds: seq<Round<P>>, k: nat)
    requires k < |rounds|
    ensures var last, verdict := rounds[|rounds| - 1], Verdict(budget, rounds);
            && (rounds[k].committed == Committed ==> verdict != IsNotCommitted)
            && (verdict == IsNotCommitted ==> last.decidedAt >= budget.commit)
            && (verdict.IsCurrent? ==> last.probe == Proof(verdict.proof) && last.checkedAt < budget.commit)
            && (verdict == IsCommitted ==> exists i :: 0 <= i < |rounds| && rounds[i].committed == Committed)
            && (verdict == Undecided ==> last.decidedAt < budget.commit)
            && (rounds[k].committed == Committed && Ordered(rounds) ==>
                  && (verdict == Undecided ==> last.decidedAt < Later(rounds[k].readAt, budget.proof))
                  && (verdict.IsCurrent? ==> last.checkedAt < Later(rounds[k].readAt, budget.proof)))
  {
    FirstCommitIsFirst(rounds);
  }

  /** A moment before the commit budget and, for every commit read, before its proof budget. */
  predicate InTime<P>(budget: Budget, rounds: seq<Round<P>>, at: nat) {
    at < budget.commit
    && forall k :: 0 <= k < |rounds| && rounds[k].committed == Committed ==> at < Later(rounds[k].readAt, budget.proof)
  }

  /** The verdict of every round, exactly: a failed read or probe, a proof in time, an open question in
      time, and otherwise whether a commit was ever read. */
  lemma VerdictIsExact<P>(budget: Budget, rounds: seq<Round<P>>)
    requires rounds != [] && Ordered(rounds)
    ensures var last, verdict := rounds[|rounds| - 1], Verdict(budget, rounds);
            var failed := last.committed == ReadFailed || last.probe.ProbeFailed?;
            var current := last.probe.Proof? && InTime(budget, rounds, last.checkedAt);
            var open_ := InTime(budget, rounds, last.decidedAt);
            && (verdict.EvidenceFailed? <==> failed)
            && (verdict.IsCurrent? <==> !failed && current)
            && (verdict.IsCurrent? ==> verdict.proof == last.probe.proof)
            && (verdict.Undecided? <==> !failed && !current && open_)
            && (verdict.IsCommitted? <==>
                  !failed && !current && !open_ && exists k :: 0 <= k < |rounds| && rounds[k].committed == Committed)
            && (verdict.IsNotCommitted? <==>
                  !failed && !current && !open_ && forall k :: 0 <= k < |rounds| ==> rounds[k].committed != Committed)
  {
    FirstCommitIsFirst(rounds);
    DeadlineIsInTime(budget, rounds, rounds[|rounds| - 1].checkedAt);
    DeadlineIsInTime(budget, rounds, rounds[|rounds| - 1].decidedAt);
    hide Deadline, InTime, FirstCommit;
  }

  lemma DeadlineIsInTime<P>(budget: Budget, rounds: seq<Round<P>>, at: nat)
    requires Ordered(rounds)
    ensures at < Deadline(budget, rounds) <==> InTime(budget, rounds, at)
  {
    FirstCommitIsFirst(rounds);
    FirstCommitIsOne(rounds);
    hide FirstCommit;
  }

  lemma {:induction false} FirstCommitIsOne<P>(rounds: seq<Round<P>>)
    ensures FirstCommit(rounds).Some? ==>
              exists k :: 0 <= k < |rounds| && rounds[k].committed == Committed && rounds[k].readAt == FirstCommit(rounds).value
    decreases |rounds|
  {
    if rounds != [] {
      FirstCommitIsOne(rounds[1..]);
      assert forall i :: 1 <= i < |rounds| ==> rounds[i] == rounds[1..][i - 1];
    }
  }

  predicate Ordered<P>(rounds: seq<Round<P>>) {
    forall i, j :: 0 <= i < j < |rounds| ==> rounds[i].readAt <= rounds[j].readAt
  }

  lemma {:induction false} FirstCommitIsFirst<P>(rounds: seq<Round<P>>)
    ensures FirstCommit(rounds).Some? <==> exists i :: 0 <= i < |rounds| && rounds[i].committed == Committed
    ensures Ordered(rounds) && FirstCommit(rounds).Some? ==>
              forall i :: 0 <= i < |rounds| && rounds[i].committed == Committed ==> FirstCommit(rounds).value <= rounds[i].readAt
    decreases |rounds|
  {
    if rounds != [] {
      FirstCommitIsFirst(rounds[1..]);
      assert forall i :: 1 <= i < |rounds| ==> rounds[i] == rounds[1..][i - 1];
    }
  }
}

/** Selection evidence woken by a readiness channel (src/readiness/channel.rs, `Signaled`). */
module Signaled {
  import opened ReadinessChannel
  import opened Selection

  /** One wrapped round: the inner evidence, and what the channel says where it is asked. */
  datatype SignaledRound<+P> = SignaledRound(inner: Round<P>, channel: Decision)

  datatype Answer<+P> = Selected(outcome: Outcome<P>) | ChannelEnded(reason: NotReady)

  /** The wrapped probe fails for the channel only when the inner one found no proof. */
  predicate ChannelFails<P>(r: SignaledRound<P>) {
    r.inner.probe.NoProof? && r.channel.IsNotReady?
  }

  function Inner<P>(rounds: seq<SignaledRound<P>>): (r: seq<Round<P>>)
    ensures |r| == |rounds|
    ensures forall i :: 0 <= i < |rounds| ==> r[i] == rounds[i].inner
  {
    seq(|rounds|, i requires 0 <= i < |rounds| => rounds[i].inner)
  }

  /** The rounds as `await_selection` sees them through the wrapper. */
  function Wrapped<P>(rounds: seq<SignaledRound<P>>): (r: seq<Round<P>>)
    ensures |r| == |rounds|
    ensures forall i :: 0 <= i < |rounds| ==>
              r[i] == if ChannelFails(rounds[i]) then rounds[i].inner.(probe := ProbeFailed) else rounds[i].inner
  {
    seq(|rounds|, i requires 0 <= i < |rounds| =>
          if ChannelFails(rounds[i]) then rounds[i].inner.(probe := ProbeFailed) else rounds[i].inner)
  }

  lemma {:induction false} SameCommits<P>(a: seq<Round<P>>, b: seq<Round<P>>)
    requires |a| == |b|
    requires forall i :: 0 <= i < |a| ==> a[i].committed == b[i].committed && a[i].readAt == b[i].readAt
    ensures FirstCommit(a) == FirstCommit(b)
    decreases |a|
  {
    if a != [] {
      SameCommits(a[1..], b[1..]);
    }
  }

  /** Wrapping changes a verdict only where a round without a proof meets a failed channel, and
      then only to a failure: it adds no other outcome and takes none away. */
  lemma WrappingOnlyAddsFailures<P>(budget: Budget, rounds: seq<SignaledRound<P>>)
    requires rounds != []
    ensures Verdict(budget, Wrapped(rounds))
            == if ChannelFails(rounds[|rounds| - 1]) then EvidenceFailed else Verdict(budget, Inner(rounds))
    ensures ChannelFails(rounds[|rounds| - 1]) ==> !Verdict(budget, Inner(rounds)).IsCurrent?
  {
    SameCommits(Wrapped(rounds), Inner(rounds));
  }

  lemma ReadFailureFails<P>(budget: Budget, rounds: seq<Round<P>>)
    requires rounds != []
    ensures rounds[|rounds| - 1].committed.ReadFailed? ==> Verdict(budget, rounds).EvidenceFailed?
  {
  }

  /** `await_selection` over signaled evidence: the same answer in the same round as over the
      wrapped evidence, except that the first round without a proof and with a failed channel
      ends the wait with the channel's reason. */
  method AwaitSignaled<P>(budget: Budget, rounds: seq<SignaledRound<P>>) returns (answer: Answer<P>, used: nat)
    ensures used <= |rounds|
    ensures forall i :: 0 < i < used ==> Verdict(budget, Inner(rounds[..i])) == Undecided && !ChannelFails(rounds[i - 1])
    ensures answer.ChannelEnded? ==>
              && used > 0 && ChannelFails(rounds[used - 1]) && answer.reason == rounds[used - 1].channel.reason
              && !Verdict(budget, Inner(rounds[..used])).IsCurrent?
    ensures answer.Selected? && !answer.outcome.Undecided? ==>
              used > 0 && answer.outcome == Verdict(budget, Inner(rounds[..used]))
    ensures answer == Selected(Undecided) ==>
              used == |rounds| && (used > 0 ==> !ChannelFails(rounds[used - 1]) && Verdict(budget, Inner(rounds)) == Undecided)
  {
    hide Verdict;
    var outcome;
    outcome, used := AwaitSelection(budget, Wrapped(rounds));
    forall i | 0 < i <= used
      ensures Wrapped(rounds)[..i] == Wrapped(rounds[..i])
      ensures Verdict(budget, Wrapped(rounds[..i]))
              == if ChannelFails(rounds[i - 1]) then EvidenceFailed else Verdict(budget, Inner(rounds[..i]))
    {
      assert Wrapped(rounds)[..i] == Wrapped(rounds[..i]);
      WrappingOnlyAddsFailures(budget, rounds[..i]);
    }
    assert Wrapped(rounds)[..|rounds|] == Wrapped(rounds) && rounds[..|rounds|] == rounds;
    if outcome.EvidenceFailed? {
      ReadFailureFails(budget, Inner(rounds[..used]));
    }
    if outcome.EvidenceFailed? && !rounds[used - 1].inner.committed.ReadFailed? && ChannelFails(rounds[used - 1]) {
      WrappingOnlyAddsFailures(budget, rounds[..used]);
      answer := ChannelEnded(rounds[used - 1].channel.reason);
    } else {
      answer := Selected(outcome);
    }
  }

  // ---------------------------------------------------------------- when a round is worth making

  /** Where the launcher's thread is between two rounds. `seen` is the channel's version when the
      round's probe began. `wait` reads the version and then the readiness, each under the lock on
      its own. */
  datatype Pc =
    | BetweenRounds
    | Probing(seen: nat)
    | CheckingVersion(seen: nat)
    | CheckingReady(seen: nat)
    | InnerWait(seen: nat)
    | CheckingNews(seen: nat)
    | ParkedForNews(seen: nat)

  /** `notifying` counts posts that have released the lock and not yet notified; `prompted` the
      waits that returned because of news. */
  datatype State = State(tracker: Tracker, version: nat, notifying: nat, pc: Pc, prompted: nat)

  datatype Step =
    | PostLocked(at: nat, event: Event)
    | PostNotify
    | BeginProbe
    | EndProbe
    | CheckVersion
    | CheckReady
    | CheckNews(now: nat, silence: nat, outOfTime: bool)
    | WakeOrTimeOut
    | InnerWaitEnds

  function Initial(): State {
    State(Tracker(Waiting, 0), 0, 0, BetweenRounds, 0)
  }

  /** The reader's thread ends with its first final event (`ReadinessChannel.OnlyTheLastPostIsFinal`). */
  predicate ReaderEnded(t: Tracker) {
    !t.status.Waiting? && !t.status.Progressing?
  }

  /** `wait_for_news` goes on waiting only while nothing is worth a new round. */
  predicate Quiet(s: State, seen: nat, now: nat, silence: nat) {
    s.version == seen && Decide(s.tracker, now, silence).Wait?
  }

  /** A wait returns; news since the probe began is the reason or not. */
  function Returned(s: State, seen: nat): State {
    s.(pc := BetweenRounds, prompted := if s.version != seen then s.prompted + 1 else s.prompted)
  }

  function Next(s: State, step: Step): State {
    match (step, s.pc)
    case (PostLocked(at, event), _) =>
      if ReaderEnded(s.tracker) then s
      else s.(tracker := Recorded(s.tracker, at, event), version := s.version + 1, notifying := s.notifying + 1)
    case (PostNotify, _) =>
      if s.notifying == 0 then s
      else s.(notifying := s.notifying - 1, pc := if s.pc.ParkedForNews? then CheckingNews(s.pc.seen) else s.pc)
    case (BeginProbe, BetweenRounds) => s.(pc := Probing(s.version))
    case (EndProbe, Probing(seen)) => s.(pc := CheckingVersion(seen))
    case (CheckVersion, CheckingVersion(seen)) => if s.version != seen then Returned(s, seen) else s.(pc := CheckingReady(seen))
    case (CheckReady, CheckingReady(seen)) =>
      s.(pc := if s.tracker.status.SaidReady? then InnerWait(seen) else CheckingNews(seen))
    case (CheckNews(now, silence, outOfTime), CheckingNews(seen)) =>
      if Quiet(s, seen, now, silence) && !outOfTime then s.(pc := ParkedForNews(seen)) else Returned(s, seen)
    case (WakeOrTimeOut, ParkedForNews(seen)) => s.(pc := CheckingNews(seen))
    case (InnerWaitEnds, InnerWait(_)) => s.(pc := BetweenRounds)
    case _ => s
  }

  function Run(steps: seq<Step>): State {
    if steps == [] then Initial() else Next(Run(steps[..|steps| - 1]), steps[|steps| - 1])
  }

  predicate Invariant(s: State) {
    && s.prompted <= s.version
    && (!s.pc.BetweenRounds? ==> s.pc.seen <= s.version)
    && (!s.pc.BetweenRounds? ==> s.prompted <= s.pc.seen)
    && (s.pc.ParkedForNews? ==> s.pc.seen == s.version || s.notifying > 0)
    && (s.pc.InnerWait? ==> s.tracker.status.SaidReady?)
  }

  lemma {:induction false} InvariantHolds(steps: seq<Step>)
    ensures Invariant(Run(steps))
    decreases |steps|
  {
    if steps != [] {
      InvariantHolds(steps[..|steps| - 1]);
      StepKeeps(Run(steps[..|steps| - 1]), steps[|steps| - 1]);
      hide Next;
    }
  }

  lemma StepKeeps(s: State, step: Step)
    requires Invariant(s)
    ensures Invariant(Next(s, step))
  {
  }

  /** Past the version check of a wait, up to the end of the inner wait. */
  predicate PastTheCheck(pc: Pc) {
    pc.CheckingReady? || pc.InnerWait?
  }

  /** The launcher is in the wait in which `ready` was posted, at step `p`, between its reading of
      the version and its reading of the readiness. */
  ghost predicate PostedBetween(steps: seq<Step>, p: nat) {
    && p < |steps| && steps[p].PostLocked? && steps[p].event.Readied?
    && Run(steps[..p]).pc.CheckingReady? && !ReaderEnded(Run(steps[..p]).tracker)
    && forall q :: p < q <= |steps| ==> PastTheCheck(Run(steps[..q]).pc)
  }

  ghost predicate ReadyBetweenChecks(steps: seq<Step>) {
    exists p: nat :: PostedBetween(steps, p)
  }

  lemma {:induction false} PostedEarlier(steps: seq<Step>, p: nat)
    requires steps != [] && p < |steps| - 1
    ensures PostedBetween(steps, p) <==> PostedBetween(steps[..|steps| - 1], p) && PastTheCheck(Run(steps).pc)
  {
    var before := steps[..|steps| - 1];
    assert steps[..|steps|] == steps;
    assert forall q :: 0 <= q < |steps| ==> steps[..q] == before[..q];
    assert before[p] == steps[p];
  }

  /** Once `ready` is in, what a wait past its version check has not seen is exactly a `ready` that
      came between the checks. */
  lemma {:induction false} UnseenIsReadyBetween(steps: seq<Step>)
    ensures var s := Run(steps);
            PastTheCheck(s.pc) && s.tracker.status.SaidReady? ==> (s.pc.seen < s.version <==> ReadyBetweenChecks(steps))
  {
    if steps != [] && PastTheCheck(Run(steps).pc) && Run(steps).tracker.status.SaidReady? {
      var before, step := steps[..|steps| - 1], steps[|steps| - 1];
      var s := Run(before);
      InvariantHolds(before);
      UnseenIsReadyBetween(before);
      forall p: nat | p < |before| ensures PostedBetween(steps, p) <==> PostedBetween(before, p) {
        PostedEarlier(steps, p);
      }
      if !PastTheCheck(s.pc) {
        NotYetBetween(before);
      }
      LastStep(steps);
    }
  }

  lemma {:induction false} NotYetBetween(steps: seq<Step>)
    requires !PastTheCheck(Run(steps).pc)
    ensures forall p: nat :: !PostedBetween(steps, p)
  {
    assert steps[..|steps|] == steps;
  }

  lemma {:induction false} LastStep(steps: seq<Step>)
    requires steps != []
    ensures PostedBetween(steps, |steps| - 1) <==>
              var s, step := Run(steps[..|steps| - 1]), steps[|steps| - 1];
              step.PostLocked? && step.event.Readied? && s.pc.CheckingReady? && !ReaderEnded(s.tracker)
  {
    assert steps[..|steps|] == steps;
  }

  /** The launcher sleeps through channel news in exactly one case. Parked for news, it has seen
      every message or a notification is on its way. In the inner wait it has unseen news if and
      only if `ready` was posted between the two checks that led there. */
  lemma {:induction false} NewsIsMissedExactlyBetweenChecks(steps: seq<Step>)
    ensures var s := Run(steps); s.pc.ParkedForNews? ==> s.pc.seen == s.version || s.notifying > 0
    ensures var s := Run(steps); s.pc.InnerWait? ==> (s.pc.seen < s.version <==> ReadyBetweenChecks(steps))
  {
    InvariantHolds(steps);
    UnseenIsReadyBetween(steps);
  }

  /** The one case, as a run: nothing is left to wake the launcher before its next poll. */
  lemma ReadyCanGoUnseen()
    ensures var s := Run([BeginProbe, EndProbe, CheckVersion, PostLocked(0, Readied), PostNotify, CheckReady]);
            s.pc == InnerWait(0) && s.version == 1 && s.notifying == 0
  {
    var steps := [BeginProbe, EndProbe, CheckVersion, PostLocked(0, Readied), PostNotify, CheckReady];
    assert steps[..5][..4] == [BeginProbe, EndProbe, CheckVersion, PostLocked(0, Readied)];
    assert steps[..5][..4][..3] == [BeginProbe, EndProbe, CheckVersion];
    assert steps[..5][..4][..3][..2] == [BeginProbe, EndProbe];
    assert [BeginProbe, EndProbe][..1] == [BeginProbe] && [BeginProbe][..0] == [];
    assert Run([BeginProbe]).pc == Probing(0);
    assert Run([BeginProbe, EndProbe]).pc == CheckingVersion(0);
    assert Run(steps[..5][..4][..3]).pc == CheckingReady(0);
    assert Run(steps[..5][..4]).version == 1;
  }

  /** A wait ends, on any run, only for a reason: a message since the probe began, a channel that
      has decided, no time left, or the end of the inner wait that only a ready daemon's launcher
      is in. The second check hands over to the inner wait exactly when the daemon is ready, and the
      launcher parks exactly while there is no such reason. */
  lemma {:induction false} WaitsEndOnlyForAReason(steps: seq<Step>, step: Step)
    ensures var s, t := Run(steps), Run(steps + [step]);
            !s.pc.BetweenRounds? && t.pc.BetweenRounds? ==>
              || s.version > s.pc.seen
              || (s.pc.InnerWait? && s.tracker.status.SaidReady?)
              || (step.CheckNews? && (step.outOfTime || !Decide(s.tracker, step.now, step.silence).Wait?))
    ensures var s, t := Run(steps), Run(steps + [step]);
            s.pc.CheckingReady? && !t.pc.CheckingReady? ==> (t.pc.InnerWait? <==> s.tracker.status.SaidReady?)
    ensures var s, t := Run(steps), Run(steps + [step]);
            s.pc.CheckingNews? && step.CheckNews? ==>
              (t.pc.ParkedForNews? <==>
                 s.version == s.pc.seen && Decide(s.tracker, step.now, step.silence).Wait? && !step.outOfTime)
  {
    InvariantHolds(steps);
    assert (steps + [step])[..|steps|] == steps;
    assert Run(steps + [step]) == Next(Run(steps), step);
  }

  function StepsLeft(pc: Pc): nat {
    match pc
    case BetweenRounds => 0
    case Probing(_) => 5
    case CheckingVersion(_) => 4
    case CheckingReady(_) => 3
    case ParkedForNews(_) => 2
    case InnerWait(_) => 1
    case CheckingNews(_) => 1
  }

  /** The launcher's own next step, once it is out of time. */
  function Late(pc: Pc): Step {
    match pc
    case BetweenRounds => BeginProbe
    case Probing(_) => EndProbe
    case CheckingVersion(_) => CheckVersion
    case CheckingReady(_) => CheckReady
    case ParkedForNews(_) => WakeOrTimeOut
    case InnerWait(_) => InnerWaitEnds
    case CheckingNews(_) => CheckNews(0, 0, true)
  }

  /** Every wait can be brought to its end by the launcher and the clock alone. */
  lemma {:induction false} EveryWaitCanEnd(steps: seq<Step>) returns (more: seq<Step>)
    ensures |more| <= StepsLeft(Run(steps).pc)
    ensures Run(steps + more).pc.BetweenRounds? && Run(steps + more).version == Run(steps).version
    decreases var s := Run(steps); StepsLeft(s.pc)
  {
    var s := Run(steps);
    if s.pc.BetweenRounds? {
      more := [];
      assert steps + more == steps;
    } else {
      var step := Late(s.pc);
      assert (steps + [step])[..|steps|] == steps;
      assert Run(steps + [step]) == Next(s, step);
      var rest := EveryWaitCanEnd(steps + [step]);
      more := [step] + rest;
      assert steps + [step] + rest == steps + more;
    }
  }

  /** Messages posted. */
  function Posts(steps: seq<Step>): nat {
    if steps == [] then 0
    else
      var before, step := steps[..|steps| - 1], steps[|steps| - 1];
      Posts(before) + if step.PostLocked? && !ReaderEnded(Run(before).tracker) then 1 else 0
  }

  /** Waits that ended because of a message since their probe began. */
  function Prompted(steps: seq<Step>): nat {
    if steps == [] then 0
    else
      var s, t := Run(steps[..|steps| - 1]), Run(steps);
      Prompted(steps[..|steps| - 1])
      + if !s.pc.BetweenRounds? && !s.pc.InnerWait? && t.pc.BetweenRounds? && s.version != s.pc.seen then 1 else 0
  }

  lemma {:induction false} CountersAreHistory(steps: seq<Step>)
    ensures Run(steps).version == Posts(steps) && Run(steps).prompted == Prompted(steps)
    decreases |steps|
  {
    if steps != [] {
      CountersAreHistory(steps[..|steps| - 1]);
    }
  }

  /** News never makes it spin: over any run at most as many waits end because of news as messages
      were posted. */
  lemma AtMostOneExtraRoundPerMessage(steps: seq<Step>)
    ensures Prompted(steps) <= Posts(steps)
  {
    InvariantHolds(steps);
    CountersAreHistory(steps);
  }
}
