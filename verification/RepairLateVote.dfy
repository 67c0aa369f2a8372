/** The repair of one late vote on a decided asset proposal: what it checks, what it recounts and
    what it writes. */
module RepairLateVote {
  import opened Domain
  import opened VoteRecords
  import opened VoteMatching
  import opened VoteReconcile
  import opened VoteSnapshot
  import opened VoteTable
  import opened VoteTally
  import opened OnchainExecution

  type AssetIdentity = (string, string, string)

  datatype ProposalFacts = ProposalFacts(
    proposalType: ProposalType,
    status: ProposalStatus,
    endAt: Option<Instant>,
    hidden: bool,
    draft: bool,
    action: Action,
    identity: AssetIdentity,
    execution: Execution,
    supply: Option<real>,
    percent: nat)

  datatype TokenFacts = TokenFacts(identity: AssetIdentity, syncTx: Option<Hash>, inReview: bool)

  datatype Refusal =
    | NotDecided | IdentityMismatch | ExecutionStarted | UnresolvedElsewhere | NotALateVote
    | NoBalance | HiddenShadow | OtherLateVotes | UnknownChoice | BadWeight | BadSupply

  datatype Result<T> = Done(value: T) | Refused(reason: Refusal)

  /** A linked proposal whose execution may still be under way. */
  predicate Unresolved(p: ProposalFacts)
  {
    !Clean(p.execution)
    || (p.execution.status in {Pending, InProgress, Submitted, Failed, RequiresReview}
        && !(p.execution.status == Pending && p.status != Voted))
  }

  predicate LateOrUndated(v: Vote, endAt: Instant) { v.createdAt.None? || v.createdAt.value > endAt }

  /** Every check, in the order the command makes them; shadows are the balances held by hidden rows. */
  function Validate(p: ProposalFacts, token: TokenFacts, rows: seq<Stored>, target: Option<Stored>,
          related: seq<ProposalFacts>, shadows: set<BalanceId>, now: Instant): Option<Refusal>
  {
    if !IsAssetType(p.proposalType) || p.status != Voted || p.endAt.None? || p.endAt.value >= now || p.hidden
        || p.draft || p.action != NoAction
    then Some(NotDecided)
    else if p.identity != token.identity then Some(IdentityMismatch)
    else if p.execution.status != Skipped || !Clean(p.execution) then Some(ExecutionStarted)
    else if token.syncTx.Some? || token.inReview
        || (exists q :: q in related && Unresolved(q)) then Some(UnresolvedElsewhere)
    else if target.None? || target.value.vote.hidden || target.value.vote.createdAt.None?
        || target.value.vote.createdAt.value <= p.endAt.value
    then Some(NotALateVote)
    else if target.value.vote.balanceId.None? || target.value.vote.balanceId.value == "" then Some(NoBalance)
    else if target.value.vote.balanceId.value in shadows then Some(HiddenShadow)
    else if exists r :: r in rows && !r.vote.hidden && r.id != target.value.id
                        && LateOrUndated(r.vote, p.endAt.value) then Some(OtherLateVotes)
    else None
  }

  function TargetOf(rows: seq<Stored>, id: VoteId): (r: Option<Stored>)
    ensures r.Some? ==> r.value in rows && r.value.id == id
    ensures r.None? ==> forall x :: x in rows ==> x.id != id
  {
    if rows == [] then None else if rows[0].id == id then Some(rows[0]) else TargetOf(rows[1..], id)
  }

  /** The linked proposal has no execution on record and none to come. */
  ghost predicate NothingPending(q: ProposalFacts)
  {
    && q.execution.tx.None? && q.execution.started.None? && q.execution.submitted.None? && q.execution.polls == 0
    && (q.execution.status in {NotRequired, Skipped, Success} || (q.execution.status == Pending && q.status != Voted))
  }

  /** The late vote: visible, cast after the end, and its balance shadowed by no hidden row. */
  ghost predicate LateVote(v: Vote, endAt: Instant, shadows: set<BalanceId>)
  {
    && !v.hidden && v.createdAt.Some? && endAt < v.createdAt.value
    && v.balanceId.Some? && v.balanceId.value != "" && v.balanceId.value !in shadows
  }

  /** A decided asset proposal that was never sent, on nobody else's way, with this one late vote. */
  ghost predicate MayRepair(p: ProposalFacts, token: TokenFacts, rows: seq<Stored>, id: VoteId,
          related: seq<ProposalFacts>, shadows: set<BalanceId>, now: Instant)
  {
    && p.proposalType in {AddAsset, RemoveAsset} && p.status == Voted && p.endAt.Some? && p.endAt.value < now
    && !p.hidden && !p.draft && p.action == NoAction
    && p.execution == Execution(Skipped, None, None, None, 0)
    && p.identity == token.identity && token.syncTx.None? && !token.inReview
    && (forall q :: q in related ==> NothingPending(q))
    && (exists r :: r in rows && r.id == id && LateVote(r.vote, p.endAt.value, shadows))
    && forall r :: r in rows && !r.vote.hidden && r.id != id
                   ==> r.vote.createdAt.Some? && r.vote.createdAt.value <= p.endAt.value
  }

  lemma {:induction false} ChecksAreExact(p: ProposalFacts, token: TokenFacts, rows: seq<Stored>, id: VoteId,
          related: seq<ProposalFacts>, shadows: set<BalanceId>, now: Instant)
    requires DistinctRows(rows)
    ensures Validate(p, token, rows, TargetOf(rows, id), related, shadows, now).None?
            <==> MayRepair(p, token, rows, id, related, shadows, now)
    ensures var refusal := Validate(p, token, rows, TargetOf(rows, id), related, shadows, now);
            refusal.Some? ==> refusal.value !in {UnknownChoice, BadWeight, BadSupply}
  {
    hide Unresolved, NothingPending;
    forall q | q in related ensures Unresolved(q) <==> !NothingPending(q) {
      UnresolvedExactly(q);
    }
    var target := TargetOf(rows, id);
    forall r | r in rows && r.id == id ensures target == Some(r) {
      SameIdSameRow(rows, r, target.value);
    }
  }

  lemma UnresolvedExactly(q: ProposalFacts)
    ensures Unresolved(q) <==> !NothingPending(q)
  {
  }

  // ---- Recounting ----

  predicate Countable(r: Stored, target: VoteId, codes: set<string>)
  {
    !r.vote.hidden && r.id != target && r.vote.assetCode in codes
  }

  function Problem(v: Vote): Option<Refusal>
  {
    if v.choice == OtherChoice then Some(UnknownChoice)
    else if WeightOf(v, true).None? || WeightOf(v, true).value < 0.0 then Some(BadWeight)
    else None
  }

  /** The first countable row that cannot be counted. */
  function FirstProblem(rows: seq<Stored>, target: VoteId, codes: set<string>): (r: Option<Refusal>)
    ensures r.Some? ==> r.value in {UnknownChoice, BadWeight}
  {
    if rows == [] then None
    else
      var n := |rows| - 1;
      var earlier := FirstProblem(rows[..n], target, codes);
      if earlier.Some? then earlier
      else if Countable(rows[n], target, codes) then Problem(rows[n].vote) else None
  }

  /** The weight of one choice over the countable rows. */
  function CountFor(rows: seq<Stored>, target: VoteId, codes: set<string>, choice: Choice): real
  {
    if rows == [] then 0.0
    else
      var n := |rows| - 1;
      CountFor(rows[..n], target, codes, choice)
      + if Countable(rows[n], target, codes)
          && rows[n].vote.choice == choice then WeightOf(rows[n].vote, true).GetOr(0.0) else 0.0
  }

  const BALLOT: set<Choice> := {VoteFor, VoteAgainst, VoteAbstain}

  method Totals(rows: seq<Stored>, target: VoteId, codes: set<string>) returns (result: Result<map<Choice, real>>)
    ensures result.Refused? <==> FirstProblem(rows, target, codes).Some?
    ensures result.Refused? ==> FirstProblem(rows, target, codes) == Some(result.reason)
    ensures result.Done? ==> result.value.Keys == BALLOT && forall c :: c in BALLOT
                                                                        ==> result.value[c]
                                                                            == CountFor(rows, target, codes, c)
  {
    var totals: map<Choice, real> := map[VoteFor := 0.0, VoteAgainst := 0.0, VoteAbstain := 0.0];
    for i := 0 to |rows|
      invariant FirstProblem(rows[..i], target, codes).None?
      invariant totals.Keys == BALLOT && forall c :: c in BALLOT ==> totals[c] == CountFor(rows[..i], target, codes, c)
    {
      assert rows[..i + 1][..i] == rows[..i];
      var v := rows[i].vote;
      if v.hidden || rows[i].id == target || v.assetCode !in codes {
        continue;
      }
      if v.choice == OtherChoice {
        ProblemStays(rows, i + 1, target, codes);
        return Refused(UnknownChoice);
      }
      var weight := if v.votedAmount.Some? then v.votedAmount else v.amount;
      if weight.None? || weight.value < 0.0 {
        ProblemStays(rows, i + 1, target, codes);
        return Refused(BadWeight);
      }
      totals := totals[v.choice := totals[v.choice] + weight.value];
    }
    assert rows[..|rows|] == rows;
    return Done(totals);
  }

  lemma {:induction false} ProblemStays(rows: seq<Stored>, i: nat, target: VoteId, codes: set<string>)
    requires i <= |rows| && FirstProblem(rows[..i], target, codes).Some?
    ensures FirstProblem(rows, target, codes) == FirstProblem(rows[..i], target, codes)
    decreases |rows|
  {
    if i == |rows| {
      assert rows[..i] == rows;
    } else {
      assert rows[..|rows| - 1][..i] == rows[..i];
      ProblemStays(rows[..|rows| - 1], i, target, codes);
    }
  }

  /** Majority and quorum over recounted totals; the preserved supply must be usable. */
  function Decision(p: ProposalFacts, totals: map<Choice, real>): Result<bool>
    requires totals.Keys == BALLOT
  {
    if p.supply.None? || p.supply.value < 0.0 then Refused(BadSupply)
    else
      var total := totals[VoteFor] + totals[VoteAgainst] + totals[VoteAbstain];
      Done(totals[VoteFor] > totals[VoteAgainst] && total >= p.supply.value * p.percent as real / 100.0)
  }

  // ---- The repair agrees with finalisation ----

  function HideRow(rows: seq<Stored>, id: VoteId): seq<Stored>
  {
    seq(|rows|, i requires 0 <= i < |rows| => if rows[i].id
        == id then rows[i].(vote := rows[i].vote.(hidden := true)) else rows[i])
  }

  ghost predicate NoOtherLate(rows: seq<Stored>, target: VoteId, endAt: Instant)
  {
    forall r :: r in rows && !r.vote.hidden && r.id != target ==> !LateOrUndated(r.vote, endAt)
  }

  /** After the target is hidden, the tally of a decided proposal selects exactly the countable rows. */
  lemma {:induction false} RecountAgrees(rows: seq<Stored>, target: VoteId, codes: set<string>, endAt: Instant,
          choice: Choice)
    requires NoOtherLate(rows, target, endAt) && FirstProblem(rows, target, codes).None?
    ensures SumVotes(HideRow(rows, target), Query(true, choice, codes, Some(endAt)))
            == Some(CountFor(rows, target, codes, choice))
  {
    if rows != [] {
      var n := |rows| - 1;
      assert forall r :: r in rows[..n] ==> r in rows;
      assert rows[n] in rows;
      assert HideRow(rows, target)[..n] == HideRow(rows[..n], target);
      RecountAgrees(rows[..n], target, codes, endAt, choice);
    }
  }

  function TallyOf(rows: seq<Stored>, codes: set<string>, endAt: Option<Instant>, supply: Option<real>,
                   percent: nat): Results
  {
    Results(SumVotes(rows, Query(true, VoteFor, codes, endAt)), SumVotes(rows, Query(true, VoteAgainst, codes, endAt)),
            SumVotes(rows, Query(true, VoteAbstain, codes, endAt)), supply, percent)
  }

  /** Whenever the checks pass, what the repair stores and decides is what finalising the repaired rows would. */
  lemma RepairAgreesWithFinalisation(p: ProposalFacts, token: TokenFacts, rows: seq<Stored>, target: Stored,
          related: seq<ProposalFacts>, shadows: set<BalanceId>, now: Instant, codes: set<string>,
          totals: map<Choice, real>)
    requires Validate(p, token, rows, Some(target), related, shadows, now).None?
    requires FirstProblem(rows, target.id, codes).None? && totals.Keys == BALLOT
    requires forall c :: c in BALLOT ==> totals[c] == CountFor(rows, target.id, codes, c)
    ensures var r := TallyOf(HideRow(rows, target.id), codes, p.endAt, p.supply, p.percent);
            && r.votesFor == Some(totals[VoteFor]) && r.votesAgainst == Some(totals[VoteAgainst])
               && r.votesAbstain == Some(totals[VoteAbstain])
            && (Decision(p, totals).Done?
                ==> (Decision(p, totals).value <==> Mandated(r)))
            && (Decision(p, totals).Refused? <==> p.supply.None? || p.supply.value < 0.0)
  {
    var endAt := p.endAt.value;
    assert NoOtherLate(rows, target.id, endAt);
    RecountAgrees(rows, target.id, codes, endAt, VoteFor);
    RecountAgrees(rows, target.id, codes, endAt, VoteAgainst);
    RecountAgrees(rows, target.id, codes, endAt, VoteAbstain);
  }

  /** What an applied repair stores on the proposal. */
  datatype Repaired = Repaired(totals: map<Choice, real>, approved: bool, execution: Execution)

  /** The whole command: refuses, previews, or hides the target and hands the execution to a person. */
  method Handle(table: LogVotes, p: ProposalFacts, token: TokenFacts, related: seq<ProposalFacts>,
          shadows: set<BalanceId>, voteId: VoteId, codes: set<string>, now: Instant, apply: bool)
      returns (result: Result<Repaired>)
    requires table.Valid()
    requires forall r :: r in table.rows && r.vote.hidden && r.vote.balanceId.Some?
                         ==> r.vote.balanceId.value in shadows
    modifies table`rows
    ensures table.Valid()
    ensures result.Refused? || !apply ==> table.rows == old(table.rows)
    ensures result.Done? && apply ==> table.rows == HideRow(old(table.rows), voteId)
    ensures result.Done? ==> MayRepair(p, token, old(table.rows), voteId, related, shadows, now)
    ensures result.Done? ==>
              var r := TallyOf(HideRow(old(table.rows), voteId), codes, p.endAt, p.supply, p.percent);
              && result.value.totals.Keys == BALLOT && result.value.execution == p.execution.(status := RequiresReview)
                 && Repairable(p.execution, true, true)
              && r.votesFor == Some(result.value.totals[VoteFor])
                 && r.votesAgainst == Some(result.value.totals[VoteAgainst])
              && r.votesAbstain == Some(result.value.totals[VoteAbstain])
              && (result.value.approved <==> Mandated(r))
    ensures result.Refused? && result.reason !in {UnknownChoice, BadWeight, BadSupply}
            <==> !MayRepair(p, token, old(table.rows), voteId, related, shadows, now)
  {
    hide MayRepair;
    ChecksAreExact(p, token, table.rows, voteId, related, shadows, now);
    var target := TargetOf(table.rows, voteId);
    var refusal := Validate(p, token, table.rows, target, related, shadows, now);
    if refusal.Some? {
      return Refused(refusal.value);
    }
    var totals := Totals(table.rows, voteId, codes);
    if totals.Refused? {
      return Refused(totals.reason);
    }
    var decision := Decision(p, totals.value);
    if decision.Refused? {
      return Refused(decision.reason);
    }
    RepairAgreesWithFinalisation(p, token, table.rows, target.value, related, shadows, now, codes, totals.value);
    if apply {
      HideTarget(table, target.value, shadows);
    }
    return Done(Repaired(totals.value, decision.value, p.execution.(status := RequiresReview)));
  }

  /** Hiding cannot meet the unique index: no hidden row holds the balance. */
  method HideTarget(table: LogVotes, target: Stored, shadows: set<BalanceId>)
    requires table.Valid() && target in table.rows && target.vote.balanceId.Some?
             && target.vote.balanceId.value !in shadows
    requires forall r :: r in table.rows && r.vote.hidden && r.vote.balanceId.Some?
                         ==> r.vote.balanceId.value in shadows
    modifies table`rows
    ensures table.Valid() && table.rows == HideRow(old(table.rows), target.id)
  {
    var k := 0;
    while table.rows[k] != target
      invariant 0 <= k < |table.rows| && target in table.rows[k..]
      decreases |table.rows| - k
    {
      k := k + 1;
    }
    table.SaveColumns(k, target.vote.(hidden := true));
  }
}
