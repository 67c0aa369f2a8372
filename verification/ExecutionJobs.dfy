/** The execution jobs as statements over one proposal row. Each statement is proved to be the step of the
    state machine it stands for, and each whole job, left alone, a run of it. */
module ExecutionJobs {
  import opened Domain
  import opened OnchainExecution
  import opened ExecutionRuns

  class ProposalRow {
    const asset: bool
    const maxPolls: int
    var voted: bool
    var execution: Execution

    constructor (c: Chain)
      ensures Shows(c, Created(c))
    {
      asset, maxPolls, voted := c.asset, c.maxPolls, false;
      execution := Reset(if c.asset then Pending else NotRequired);
    }

    /** The row is the one the state machine is in. */
    ghost predicate Shows(c: Chain, s: State)
      reads this
    {
      asset == c.asset && maxPolls == c.maxPolls && voted == s.voted && execution == s.execution
    }

    // ---- Statements ----

    /** Under the row lock: a send is enqueued only for a row that is now clean and can be claimed. */
    method ExecuteOnchainActionIfNeeded(freshSupply: bool, r: Results, tokenApplied: bool, ghost c: Chain,
            ghost s: State)
        returns (enqueue: bool)
      requires Shows(c, s)
      modifies this`execution
      ensures Shows(c, Step(c, s, Finalise(freshSupply, r, tokenApplied)))
      ensures enqueue <==> asset && Undecided(old(execution), voted) && freshSupply && Mandated(r) && tokenApplied
      ensures enqueue ==> Sendable(execution, voted) && Step(c, s, Finalise(freshSupply, r, tokenApplied)).enqueued
      ensures execution == if !asset then Execution(NotRequired, None, None, None, 0)
                           else if !Undecided(old(execution), voted) then old(execution)
                           else Execution(Verdict(freshSupply, r, tokenApplied), None, None, None, 0)
    {
      hide IsProposalApproved, HasProposalQuorum, Mandated;
      MandateIsExact(r);
      if !asset {
        if execution.status != NotRequired || execution.tx.Some? || execution.started.Some? || execution.submitted.Some?
           || execution.polls != 0
        {
          execution := Reset(NotRequired);
        }
        return false;
      }
      if !voted || execution.status == Success || execution.status in {InProgress, Submitted, RequiresReview} {
        return false;
      }
      if !freshSupply {
        execution := Reset(Failed);
        return false;
      }
      if !IsProposalApproved(r) || !HasProposalQuorum(r) {
        execution := Reset(Skipped);
        return false;
      }
      if !tokenApplied {
        execution := Reset(Failed);
        return false;
      }
      execution := Reset(Pending);
      return true;
    }

    /** The conditional update that claims a send: whoever wins it shuts out every other claim, hold and decision. */
    method ClaimSend(worker: nat, now: Instant, ghost c: Chain, ghost s: State) returns (claimed: bool)
      requires Shows(c, s) && s.enqueued && worker !in s.sending
      modifies this`execution
      ensures claimed <==> Enabled(c, s, Label.ClaimSend(worker, now))
      ensures claimed <==> voted && old(execution).status == Pending && old(execution).tx.None?
      ensures execution == if claimed then Execution(InProgress, None, Some(now), None, 0) else old(execution)
      ensures Shows(c, Step(c, s, Label.ClaimSend(worker, now)))
      ensures claimed ==> !Sendable(execution, voted) && !Holdable(execution, asset, voted) && Settled(execution.status)
    {
      claimed := voted && execution.status == Pending && execution.tx.None?;
      if claimed {
        execution := execution.(status := InProgress, started := Some(now), submitted := None, polls := 0);
      }
    }

    /** The unconditional write after the hook returned a hash, or failed. */
    method FinishSend(worker: nat, tx: Option<Hash>, now: Instant, ghost c: Chain, ghost s: State)
      requires Shows(c, s) && worker in s.sending
      modifies this`execution
      ensures Shows(c, Step(c, s, SendDone(worker, tx, now)))
      ensures Usable(tx) ==> execution.tx == tx && Settled(execution.status) && (voted ==> Pollable(execution, voted))
      ensures execution == if tx.Some? && tx.value != ""
                           then Execution(Submitted, tx, old(execution).started, Some(now), 0)
                           else Execution(Failed, None, old(execution).started, None, 0)
    {
      if tx.None? || tx.value == "" {
        execution := execution.(status := Failed, tx := None, submitted := None, polls := 0);
        return;
      }
      execution := execution.(status := Submitted, tx := tx, submitted := Some(now), polls := 0);
    }

    /** The hold of a proposal whose vote snapshot failed; a held row is sent by no job again. */
    method HoldIncompleteVoteSnapshot(ghost c: Chain, ghost s: State) returns (held: bool)
      requires Shows(c, s)
      modifies this`execution
      ensures held <==> Enabled(c, s, Hold)
      ensures held <==> asset && voted && old(execution).status in {Pending, Failed, Skipped}
                        && old(execution) == Execution(old(execution).status, None, None, None, 0)
      ensures execution == if held then Execution(RequiresReview, None, None, None, 0) else old(execution)
      ensures Shows(c, Step(c, s, Hold))
      ensures held ==> Settled(execution.status) && !Sendable(execution, voted)
    {
      held := asset && voted && execution.status in {Pending, Failed, Skipped}
              && execution.tx.None? && execution.started.None? && execution.submitted.None? && execution.polls == 0;
      if held {
        execution := execution.(status := RequiresReview);
      }
    }

    /** The first statement of the lease check only reads. */
    method FindStaleLease(worker: nat, now: Instant, ghost c: Chain, ghost s: State) returns (stale: bool)
      requires Shows(c, s)
      ensures stale <==> Enabled(c, s, LeaseRead(worker, now))
      ensures Shows(c, Step(c, s, LeaseRead(worker, now)))
    {
      var cutoff := now - LEASE;
      stale := voted && execution.status == InProgress && execution.tx.None? && execution.started.Some?
               && execution.started.value < cutoff;
    }

    /** Its second statement no longer looks at what it overwrites. */
    method MarkForReview(worker: nat, ghost c: Chain, ghost s: State)
      requires Shows(c, s) && worker in s.expiring
      modifies this`execution
      ensures Shows(c, Step(c, s, LeaseWrite(worker)))
    {
      execution := execution.(status := RequiresReview);
    }

    /** What the poll's query returns for this row. */
    method StartPoll(worker: nat, ghost c: Chain, ghost s: State) returns (snapshot: Option<Snapshot>)
      requires Shows(c, s) && worker !in s.polling
      ensures snapshot.Some? <==> Enabled(c, s, PollStart(worker))
      ensures Shows(c, Step(c, s, PollStart(worker)))
      ensures snapshot.Some? ==> Step(c, s, PollStart(worker)).polling[worker] == snapshot.value
    {
      if voted && execution.status == Submitted && execution.tx.Some? {
        return Some(Snapshot(execution.tx.value, execution.polls));
      }
      return None;
    }

    /** The write of one poll, from what its query read; only a confirmed success reads the status again. */
    method FinishPoll(worker: nat, snapshot: Snapshot, answer: PollAnswer, ghost c: Chain, ghost s: State)
      requires Shows(c, s) && worker in s.polling && s.polling[worker] == snapshot && Truthful(c, snapshot.tx, answer)
      modifies this`execution
      ensures Shows(c, Step(c, s, PollDone(worker, answer)))
      ensures execution.status == Success ==> old(execution).status in {Submitted, Success}
      ensures answer == Resolved(true, true) ==>
                execution == if old(execution).status == Submitted then old(execution).(status := Success)
                             else old(execution)
      ensures answer.Resolved? && !answer.succeeded ==>
                execution == old(execution).(status := Failed, polls := snapshot.polls + 1)
      ensures answer in {Unreachable, NotFound, Resolved(true, false)} ==>
                execution == old(execution).(polls := snapshot.polls + 1,
                                             status := if snapshot.polls + 1 >= maxPolls then RequiresReview
                                                       else old(execution).status)
    {
      if answer.Resolved? && answer.succeeded && answer.synced {
        if execution.status == Submitted {
          execution := execution.(status := Success);
        }
        return;
      }
      var next := snapshot.polls + 1;
      if answer.Resolved? && !answer.succeeded {
        execution := execution.(status := Failed, polls := next);
        return;
      }
      execution := execution.(polls := next);
      if next >= maxPolls {
        execution := execution.(status := RequiresReview);
      }
    }

    // ---- Jobs, when nothing interleaves ----

    /** Claims, asks the hook, and records; nothing at all when the claim is lost. */
    method SendJob(worker: nat, hook: Option<Hash>, now: Instant, later: Instant, ghost c: Chain, ghost s: State)
        returns (ghost labels: seq<Label>)
      requires Shows(c, s) && s.enqueued && worker !in s.sending
      modifies this`execution
      ensures Shows(c, Run(c, s, labels)) && Run(c, s, labels).sending == s.sending
      ensures Sendable(old(execution), voted) && Usable(hook) ==> Run(c, s, labels).sent == s.sent + [hook.value]
      ensures !Sendable(old(execution), voted) || !Usable(hook) ==> Run(c, s, labels).sent == s.sent
    {
      labels := [];
      var claimed := ClaimSend(worker, now, c, s);
      if claimed {
        ghost var t := Step(c, s, Label.ClaimSend(worker, now));
        FinishSend(worker, hook, later, c, t);
        labels := [Label.ClaimSend(worker, now), SendDone(worker, hook, later)];
        RunTwo(c, s, labels[0], labels[1]);
        assert s.sending + {worker} - {worker} == s.sending;
      }
    }

    /** One poll of the submitted transaction. */
    method PollJob(worker: nat, answer: PollAnswer, ghost c: Chain, ghost s: State) returns (ghost labels: seq<Label>)
      requires Shows(c, s) && worker !in s.polling
      requires execution.tx.Some? ==> Truthful(c, execution.tx.value, answer)
      modifies this`execution
      ensures Shows(c, Run(c, s, labels)) && Run(c, s, labels).polling == s.polling
      ensures Run(c, s, labels).pollsDone == s.pollsDone + if Pollable(old(execution), voted) then 1 else 0
    {
      labels := [];
      var snapshot := StartPoll(worker, c, s);
      if snapshot.Some? {
        ghost var t := Step(c, s, PollStart(worker));
        FinishPoll(worker, snapshot.value, answer, c, t);
        labels := [PollStart(worker), PollDone(worker, answer)];
        RunTwo(c, s, labels[0], labels[1]);
        assert s.polling[worker := snapshot.value] - {worker} == s.polling;
      }
    }

    /** The lease check, both statements. */
    method CheckLease(worker: nat, now: Instant, ghost c: Chain, ghost s: State) returns (ghost labels: seq<Label>)
      requires Shows(c, s) && worker !in s.expiring
      modifies this`execution
      ensures Shows(c, Run(c, s, labels)) && Run(c, s, labels).expiring == s.expiring
      ensures !LeaseExpired(old(execution), voted, now) ==> Run(c, s, labels) == s
      ensures execution == if LeaseExpired(old(execution), voted, now) then old(execution).(status := RequiresReview)
                           else old(execution)
    {
      labels := [];
      var stale := FindStaleLease(worker, now, c, s);
      if stale {
        MarkForReview(worker, c, Step(c, s, LeaseRead(worker, now)));
        labels := [LeaseRead(worker, now), LeaseWrite(worker)];
        RunTwo(c, s, labels[0], labels[1]);
        assert s.expiring + {worker} - {worker} == s.expiring;
      }
    }

    /** The lease check, then a new decision for a row that failed or still waits; nothing else is touched. */
    method RetryJob(worker: nat, now: Instant, freshSupply: bool, r: Results, tokenApplied: bool,
            ghost c: Chain, ghost s: State)
        returns (ghost labels: seq<Label>)
      requires Shows(c, s) && worker !in s.expiring
      modifies this`execution
      ensures Shows(c, Run(c, s, labels))
      ensures execution == if voted && asset && old(execution).status in {Failed, Pending}
                           then Execution(Verdict(freshSupply, r, tokenApplied), None, None, None, 0)
                           else if LeaseExpired(old(execution), voted, now)
                           then old(execution).(status := RequiresReview)
                           else old(execution)
      ensures voted && asset && old(execution).status in {Failed, Pending}
              && freshSupply && Mandated(r) && tokenApplied
              ==> Sendable(execution, voted) && Run(c, s, labels).enqueued
      ensures old(execution).status in {Skipped, NotRequired, Success, Submitted, RequiresReview} ==>
                execution == old(execution) && Run(c, s, labels) == s
    {
      hide Run, Step, IsProposalApproved, HasProposalQuorum, Mandated;
      labels := CheckLease(worker, now, c, s);
      ghost var t := Run(c, s, labels);
      if voted && asset && execution.status in {Failed, Pending} {
        var enqueue := ExecuteOnchainActionIfNeeded(freshSupply, r, tokenApplied, c, t);
        RunThen(c, s, labels, Finalise(freshSupply, r, tokenApplied));
        labels := labels + [Finalise(freshSupply, r, tokenApplied)];
      }
    }
  }

  // ---- What the statements decide, on the columns ----

  /** A row that voting is over for and no send, result or person has taken up. */
  ghost predicate Undecided(e: Execution, voted: bool) { voted && e.status in {NotRequired, Pending, Failed, Skipped} }

  /** A refusal for want of data or of the token write is FAILED, to be tried again; a lost vote is SKIPPED. */
  ghost function Verdict(freshSupply: bool, r: Results, tokenApplied: bool): ExecutionStatus
  {
    if freshSupply && !Mandated(r) then Skipped
    else if freshSupply && tokenApplied then Pending
    else Failed
  }

  ghost predicate LeaseExpired(e: Execution, voted: bool, now: Instant)
  {
    voted && e.status == InProgress && e.tx.None? && e.started.Some? && now > e.started.value + 300 * SECOND
  }

  /** A decision refused for a stale supply or a failed token write is not lost: the row is one the retry job
      selects, and with fresh supply, a mandate and an applied token that job leaves a send to be claimed. */
  lemma {:induction false} RefusedDecisionIsRetried(c: Chain, s: State, freshSupply: bool, r: Results,
          tokenApplied: bool, later: Results, worker: nat, now: Instant)
    requires c.asset && Undecided(s.execution, s.voted) && worker !in s.sending
    requires !freshSupply || (Mandated(r) && !tokenApplied)
    requires Mandated(later)
    ensures var refused := Step(c, s, Finalise(freshSupply, r, tokenApplied));
            var retried := Step(c, refused, Finalise(true, later, true));
            && refused.voted && refused.execution == Execution(Failed, None, None, None, 0)
            && retried.enqueued && Sendable(retried.execution, retried.voted)
            && Enabled(c, retried, ClaimSend(worker, now))
            && Step(c, retried, ClaimSend(worker, now)).sending == s.sending + {worker}
  {
    hide IsProposalApproved, HasProposalQuorum, Mandated;
    MandateIsExact(r);
    MandateIsExact(later);
  }

  /** A vote without majority or quorum ends the matter: with nothing in flight, no statement of any job moves
      the row again until somebody decides, holds or repairs it. */
  lemma {:induction false} LostVoteIsLeftAlone(c: Chain, s: State, r: Results, tokenApplied: bool, l: Label)
    requires c.asset && Undecided(s.execution, s.voted) && !Mandated(r)
    requires s.sending == {} && s.expiring == {} && s.polling == map[]
    ensures var lost := Step(c, s, Finalise(true, r, tokenApplied));
            && lost.execution == Execution(Skipped, None, None, None, 0) && !Sendable(lost.execution, lost.voted)
            && (!l.Finalise? && !l.Hold? && !l.Repair? ==> Step(c, lost, l).execution == lost.execution)
  {
    hide IsProposalApproved, HasProposalQuorum, Mandated;
    MandateIsExact(r);
  }

  /** A send that failed, and a transaction the chain rejected, go back to the retry job in the same way. */
  lemma {:induction false} FailuresAreRetried(c: Chain, s: State, l: Label, later: Results)
    requires c.asset && s.voted && Enabled(c, s, l) && Mandated(later)
    requires (l.SendDone? && !Usable(l.tx)) || (l.PollDone? && l.answer.Resolved? && !l.answer.succeeded)
    ensures var failed := Step(c, s, l); var retried := Step(c, failed, Finalise(true, later, true));
            && failed.execution.status == Failed && failed.voted
            && retried.enqueued && Sendable(retried.execution, retried.voted)
  {
    hide IsProposalApproved, HasProposalQuorum, Mandated;
    MandateIsExact(later);
  }

  lemma RunThen(c: Chain, s: State, labels: seq<Label>, l: Label)
    ensures Run(c, s, labels + [l]) == Step(c, Run(c, s, labels), l)
  {
    hide Step;
    assert (labels + [l])[..|labels|] == labels;
  }

  lemma RunTwo(c: Chain, s: State, l0: Label, l1: Label)
    ensures Run(c, s, [l0, l1]) == Step(c, Step(c, s, l0), l1)
  {
    hide Step;
    assert [l0, l1][..1] == [l0] && [l0][..0] == [];
    assert Run(c, s, [l0]) == Step(c, Run(c, s, []), l0);
  }
}
