/** One proposal's on-chain execution: its columns, and what finalisation, polling, lease expiry, holding
    and repairing look at and write. */
module OnchainExecution {
  import opened Domain

  datatype ExecutionStatus =
    NotRequired | Pending | InProgress | Submitted | Success | Failed | Skipped | RequiresReview

  datatype Execution = Execution(status: ExecutionStatus, tx: Option<Hash>, started: Option<Instant>,
                                 submitted: Option<Instant>, polls: nat)

  const LEASE: int := 300 * SECOND

  /** The stored totals, the supply they are measured against and the quorum percentage. */
  datatype Results = Results(votesFor: Option<real>, votesAgainst: Option<real>, votesAbstain: Option<real>,
                             supply: Option<real>, percent: nat)

  function AsDecimal(value: Option<real>): real { value.GetOr(0.0) }

  predicate IsProposalApproved(r: Results) { AsDecimal(r.votesFor) > AsDecimal(r.votesAgainst) }

  predicate HasProposalQuorum(r: Results)
  {
    AsDecimal(r.votesFor) + AsDecimal(r.votesAgainst)
        + AsDecimal(r.votesAbstain) >= AsDecimal(r.supply) * r.percent as real / 100.0
  }

  /** More votes for than against, and all votes together reach the quorum's share of the supply. */
  ghost predicate Mandated(r: Results)
  {
    && r.votesFor.GetOr(0.0) > r.votesAgainst.GetOr(0.0)
    && 100.0 * (r.votesFor.GetOr(0.0) + r.votesAgainst.GetOr(0.0) + r.votesAbstain.GetOr(0.0))
       >= r.supply.GetOr(0.0) * r.percent as real
  }

  lemma MandateIsExact(r: Results)
    ensures Mandated(r) <==> IsProposalApproved(r) && HasProposalQuorum(r)
  {
  }

  predicate Clean(e: Execution) { e.tx.None? && e.started.None? && e.submitted.None? && e.polls == 0 }

  function Reset(status: ExecutionStatus): Execution { Execution(status, None, None, None, 0) }

  /** A row finalisation leaves alone: done, under way, or in a person's hands. */
  predicate Settled(status: ExecutionStatus) { status in {Success, InProgress, Submitted, RequiresReview} }

  function Decide(e: Execution, asset: bool, voted: bool, freshSupply: bool, r: Results, tokenApplied: bool): Execution
  {
    if !asset then Reset(NotRequired)
    else if !voted || Settled(e.status) then e
    else if !freshSupply then Reset(Failed)
    else if !IsProposalApproved(r) || !HasProposalQuorum(r) then Reset(Skipped)
    else if !tokenApplied then Reset(Failed)
    else Reset(Pending)
  }

  predicate Sendable(e: Execution, voted: bool) { voted && e.status == Pending && e.tx.None? }

  predicate LeaseRanOut(e: Execution, voted: bool, now: Instant)
  {
    voted && e.status == InProgress && e.tx.None? && e.started.Some? && e.started.value < now - LEASE
  }

  predicate Holdable(e: Execution, asset: bool, voted: bool)
  {
    asset && voted && e.status in {Pending, Failed, Skipped} && Clean(e)
  }

  predicate Repairable(e: Execution, asset: bool, voted: bool) { asset && voted && e.status == Skipped && Clean(e) }

  predicate Pollable(e: Execution, voted: bool) { voted && e.status == Submitted && e.tx.Some? }

  /** What a poll learned: nothing, or the transaction's final result and whether the token sync then worked. */
  datatype PollAnswer = Unreachable | NotFound | Resolved(succeeded: bool, synced: bool)

  function CountPoll(e: Execution, polls: nat, maxPolls: int): Execution
  {
    e.(polls := polls + 1, status := if polls + 1 >= maxPolls then RequiresReview else e.status)
  }

  /** The write after one poll, made from the poll count read when the poll began. */
  function Polled(e: Execution, polls: nat, answer: PollAnswer, maxPolls: int): Execution
  {
    match answer
    case Unreachable => CountPoll(e, polls, maxPolls)
    case NotFound => CountPoll(e, polls, maxPolls)
    case Resolved(true, true) => if e.status == Submitted then e.(status := Success) else e
    case Resolved(true, false) => CountPoll(e, polls, maxPolls)
    case Resolved(false, _) => e.(status := Failed, polls := polls + 1)
  }
}
