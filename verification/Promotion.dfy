/** One promotion attempt, after the verdict: the database transaction that either applies the
    paid transition whole, or leaves nothing but verdict bookkeeping. */
module Promotion {
  import opened Domain
  import opened Calendar
  import opened Hashes
  import opened Payments
  import opened Records
  import opened QueueSlots
  import opened Transitions

  /** A worker's verdict: the row as it was read, the transition resolved from it, and what
      Horizon answered. */
  datatype Judgement = Judgement(pid: ProposalId, snapshot: Row, transition: Transition, answer: Answer)

  /** The record of one applied promotion. */
  datatype Entry = Entry(
    purpose: Purpose,
    pid: ProposalId,
    transition: Transition,
    presented: Hash,
    resolved: set<Hash>,
    payer: Option<Account>,
    answer: Answer,
    before: Row,
    after: Row)

  /** What a transaction commits. */
  datatype Change =
    | Unchanged
    | Rewrite(pid: ProposalId, row: Row)
    | Promote(pid: ProposalId, row: Row, shelved: seq<HistoryRow>, slots: map<ProposalId, Slot>, entry: Entry)

  datatype Outcome =
    | NothingToDo | Skipped | Stale | NotConfirmed | Rejected | AlreadyConsumed
    | MissingWindow | InvalidWindow | AssetConflict | SlotTaken
    | ExpiredWindow | Booked | Updated | Created
    | RaisedIntegrity | RaisedMisconfigured | ReusePending

  predicate UsableHash(h: Option<Hash>) { h.Some? && IsCanonicalHash(h.value) }

  function ResultOf(env: Environment, j: Judgement): CheckResult
    requires UsableHash(j.transition.hash)
  {
    VerifyPayment(env, j.answer, j.transition.hash.value, j.snapshot.proposedBy, ExpectationOf(env, j.transition),
                  CostOf(env, j.transition))
  }

  // ---- Verdict bookkeeping ----

  function Retired(row: Row): Row { row.(draft := false, action := NoAction, hidden := true) }

  /** A terminal verdict lands only while the row awaits this action and was not yet rejected for this hash. */
  function TerminalVerdict(db: Db, pid: ProposalId, expected: Action, status: PaymentStatus, hash: Option<Hash>): Change
  {
    var marker := RejectionMarker(hash);
    if pid in db.rows && db.rows[pid].action == expected && db.rows[pid].rejectedHash != Some(marker) then
      var marked := db.rows[pid].(paymentStatus := status, rejectedHash := Some(marker));
      Rewrite(pid, if expected == ToCreate then Retired(marked) else marked)
    else Unchanged
  }

  /** A retryable verdict; a not-found answer starts the clock once and repeats keep it. */
  function RetryableVerdict(db: Db, pid: ProposalId, expected: Action, notFound: bool, now: Instant): Change
  {
    if pid in db.rows && db.rows[pid].action == expected then
      var row := db.rows[pid].(paymentStatus := HorizonError);
      Rewrite(pid, if notFound && row.notFoundSince.None? then row.(notFoundSince := Some(now)) else row)
    else Unchanged
  }

  function Reported(change: Change, landed: Outcome): (Change, Outcome)
  {
    (change, if change == Unchanged then Skipped else landed)
  }

  function RejectUnusableHash(db: Db, pid: ProposalId, t: Transition): (Change, Outcome)
  {
    Reported(TerminalVerdict(db, pid, ActionOf(t), InvalidPayment, t.hash), Rejected)
  }

  function HandleReuse(db: Db, pid: ProposalId, t: Transition): (Change, Outcome)
  {
    Reported(TerminalVerdict(db, pid, ActionOf(t), InvalidPayment, t.hash), AlreadyConsumed)
  }

  function RejectPayment(db: Db, pid: ProposalId, t: Transition, result: CheckResult, now: Instant): (Change, Outcome)
  {
    if result.status == HorizonError then
      (RetryableVerdict(db, pid, ActionOf(t), result.reason == TransactionNotFound, now), NotConfirmed)
    else
      Reported(TerminalVerdict(db, pid, ActionOf(t), result.status, t.hash), Rejected)
  }

  /** A confirmed payment that cannot be applied yet: the clock stops, the sweep keeps retrying. */
  function RetryState(db: Db, pid: ProposalId): Change
  {
    if pid in db.rows && db.rows[pid].action == ToSubmit then
      Rewrite(pid, db.rows[pid].(paymentStatus := Fine, notFoundSince := None))
    else Unchanged
  }

  // ---- The ledger claim ----

  /** The hashes to burn: all the payment resolves under, or the presented one when none were resolved. */
  function ClaimHashes(resolved: set<Hash>, presented: Hash): set<Hash>
  {
    var all := if resolved == {} then {presented} else resolved;
    set h | h in all && CanonicalHash(Some(h)) != "" :: CanonicalHash(Some(h))
  }

  predicate AnySpent(ledger: map<Hash, Claim>, hashes: set<Hash>) { exists h :: h in hashes && h in ledger }

  function Burned(ledger: map<Hash, Claim>, hashes: set<Hash>, claim: Claim): map<Hash, Claim>
  {
    ledger + map h | h in hashes :: claim
  }

  const ACCOUNT_ID_LENGTH := 56

  function PayerColumn(payer: Option<Account>): Option<Account>
  {
    if payer.Some? && |payer.value| == ACCOUNT_ID_LENGTH then payer else None
  }

  // ---- Rows as promoted ----

  function Settled(row: Row): Row
  {
    row.(paymentStatus := Fine, rejectedHash := None, notFoundSince := None, action := NoAction)
  }

  function WrittenText(text: Option<Html>): Html { if text.Some? then text.value else Unencodable(0) }

  function UpdatedRow(row: Row, t: Transition, now: Instant): Row
    requires t.UpdateTransition? && t.newTitle.Some?
  {
    Settled(row).(
      lastUpdated := now, title := t.newTitle.value, text := WrittenText(t.newText), version := row.version + 1,
      hash := t.hash, envelope := t.envelope, newTitle := None, newText := None, newHash := None, newEnvelope := None)
  }

  function SubmittedRow(row: Row, t: Transition, status: ProposalStatus, now: Instant): Row
    requires t.SubmitTransition?
  {
    Settled(row).(
      startAt := t.start, endAt := t.end, proposalStatus := status, lastUpdated := now,
      hash := t.hash, envelope := t.envelope, newStart := None, newEnd := None, newHash := None, newEnvelope := None)
  }

  function CreatedRow(row: Row): Row { Settled(row).(draft := false) }

  function Shelved(pid: ProposalId, row: Row, hidden: bool): HistoryRow
  {
    HistoryRow(pid, row.version, hidden, row.title, row.text, row.hash, row.envelope, row.lastUpdated)
  }

  function PurposeOf(t: Transition): Purpose
  {
    match t
    case CreateTransition(_, _, _, _, _) => ForCreate
    case UpdateTransition(_, _, _, _, _) => ForUpdate
    case SubmitTransition(_, _, _, _, _, _) => ForSubmit
  }

  function EntryFor(db: Db, j: Judgement, hashes: set<Hash>, payer: Option<Account>, row: Row): Entry
    requires j.pid in db.rows && j.transition.hash.Some?
  {
    Entry(PurposeOf(j.transition), j.pid, j.transition, j.transition.hash.value, hashes, PayerColumn(payer), j.answer,
          db.rows[j.pid], row)
  }

  /** The shared end of every promotion: history, row and claim land together or not at all. */
  function ApplyAndClaim(db: Db, j: Judgement, result: CheckResult, row: Row, shelved: seq<HistoryRow>,
                         slots: Option<map<ProposalId, Slot>>, applied: Outcome): (Change, Outcome)
    requires j.pid in db.rows && UsableHash(j.transition.hash)
  {
    var hashes := ClaimHashes(result.resolved, j.transition.hash.value);
    if (exists i :: 0 <= i < |shelved| && HistoryHashTaken(db.history, shelved[i].hash))
       || HashTaken(db.rows, j.pid, row.hash) || slots.None? then (Unchanged, RaisedIntegrity)
    else if AnySpent(db.ledger, hashes) then (Unchanged, ReusePending)
    else
      (Promote(j.pid, row, shelved, slots.value, EntryFor(db, j, hashes, result.payer, row)), applied)
  }

  // ---- The three promotions ----

  function CommitUpdate(env: Environment, db: Db, j: Judgement, now: Instant): (Change, Outcome)
    requires j.transition.UpdateTransition? && UsableHash(j.transition.hash) && j.pid in db.rows
  {
    var result := ResultOf(env, j);
    var row := db.rows[j.pid];
    if result.status != Fine then RejectPayment(db, j.pid, j.transition, result, now)
    else if row.action != ToUpdate then (Unchanged, Skipped)
    else if !MatchesLocked(j.transition, row) then (Unchanged, Stale)
    else if j.transition.newTitle.None? then (Unchanged, RaisedIntegrity)
    else ApplyAndClaim(db, j, result, UpdatedRow(row, j.transition, now), [Shelved(j.pid, row, false)], Some(db.slots),
                       Updated)
  }

  /** find_active_asset_proposal_conflict: another visible proposal is queued or voting on the asset. */
  predicate AssetConflicts(rows: map<ProposalId, Row>, q: ProposalId, pid: ProposalId, row: Row)
  {
    && q in rows && q != pid && IsAssetType(row.proposalType) && IsAssetType(rows[q].proposalType)
    && !rows[q].hidden && !rows[q].draft && QueueStatus(rows[q].proposalStatus)
    && row.asset.Some? && rows[q].asset == row.asset
  }

  /** A visible asset proposal that is queued or voting, and so blocks others on its asset. */
  predicate Active(row: Row)
  {
    IsAssetType(row.proposalType) && !row.hidden && !row.draft && QueueStatus(row.proposalStatus)
  }

  predicate HasAssetConflict(rows: map<ProposalId, Row>, pid: ProposalId, row: Row)
  {
    exists q :: q in rows && AssetConflicts(rows, q, pid, row)
  }

  function SubmitStatus(t: Transition, now: Instant): ProposalStatus
    requires t.SubmitTransition?
  {
    if t.start.Some? && t.start.value > now then Queued else Voting
  }

  /** The inner savepoint of a submit, with the spent-payment verdict written in the same transaction. */
  function SubmitScope(db: Db, j: Judgement, result: CheckResult, status: ProposalStatus,
                       now: Instant): (Change, Outcome)
    requires j.transition.SubmitTransition? && UsableHash(j.transition.hash) && j.pid in db.rows
  {
    var before := db.rows[j.pid];
    var row := SubmittedRow(before, j.transition, status, now);
    var slots :=
        if status == Expired then Some(db.slots) else Synced(db.rows[j.pid := row], db.slots, j.pid, row, true);
    var applied := if status == Expired then ExpiredWindow else Booked;
    var r := ApplyAndClaim(db, j, result, row, [Shelved(j.pid, before, true)], slots, applied);
    if r.1 == ReusePending then HandleReuse(db, j.pid, j.transition)
    else if r.1 == RaisedIntegrity && status != Expired
        && SlotConflict(db.rows, db.slots, j.pid, j.transition.start.GetOr(0), j.transition.end.GetOr(0))
    then (RetryState(db, j.pid), SlotTaken)
    else r
  }

  datatype Decision = Settle(change: Change, outcome: Outcome) | Enter(status: ProposalStatus)

  /** The checks of a confirmed submit, in their order, up to the savepoint. */
  function DecideSubmit(env: Environment, db: Db, pid: ProposalId, t: Transition, now: Instant): Decision
    requires t.SubmitTransition? && pid in db.rows
  {
    var row := db.rows[pid];
    if row.action != ToSubmit then Settle(Unchanged, Skipped)
    else if !MatchesLocked(t, row) then Settle(Unchanged, Stale)
    else if t.start.None? || t.end.None? then Settle(Unchanged, MissingWindow)
    else
      match ValidateWeeklySlot(Aware(t.start.value), Aware(t.end.value), now, env.horizonWeeks, true)
      case HorizonMisconfigured => Settle(Unchanged, RaisedMisconfigured)
      case Invalid(_) => Settle(RetryState(db, pid), InvalidWindow)
      case Valid =>
        if t.end.value <= now then Enter(Expired)
        else if HasAssetConflict(db.rows, pid, row) then Settle(RetryState(db, pid), AssetConflict)
        else if SlotConflict(db.rows, db.slots, pid, t.start.value, t.end.value)
            then Settle(RetryState(db, pid), SlotTaken)
        else Enter(SubmitStatus(t, now))
  }

  function CommitSubmit(env: Environment, db: Db, j: Judgement, now: Instant): (Change, Outcome)
    requires j.transition.SubmitTransition? && UsableHash(j.transition.hash) && j.pid in db.rows
  {
    var result := ResultOf(env, j);
    if result.status != Fine then RejectPayment(db, j.pid, j.transition, result, now)
    else
      match DecideSubmit(env, db, j.pid, j.transition, now)
      case Settle(change, outcome) => (change, outcome)
      case Enter(status) => SubmitScope(db, j, result, status, now)
  }

  /** An asset creation decides under the row lock, for a confirmed and for a rejected payment. */
  function CommitAssetCreate(db: Db, j: Judgement, result: CheckResult, now: Instant): (Change, Outcome)
    requires j.transition.CreateTransition? && UsableHash(j.transition.hash) && j.pid in db.rows
  {
    var row := db.rows[j.pid];
    if row.action != ToCreate then (Unchanged, Skipped)
    else if !MatchesLocked(j.transition, row) then (Unchanged, Stale)
    else if result.status != Fine then
      (Rewrite(j.pid, Retired(row).(
         lastUpdated := now, paymentStatus := result.status,
         rejectedHash := Some(RejectionMarker(j.transition.hash)))), Rejected)
    else if HasAssetConflict(db.rows, j.pid, row) then
      (Rewrite(j.pid, row.(paymentStatus := Fine, notFoundSince := None)), AssetConflict)
    else ApplyAndClaim(db, j, result, CreatedRow(row).(lastUpdated := now), [], Some(db.slots), Created)
  }

  function CommitCreate(env: Environment, db: Db, j: Judgement, now: Instant): (Change, Outcome)
    requires j.transition.CreateTransition? && UsableHash(j.transition.hash) && j.pid in db.rows
  {
    var result := ResultOf(env, j);
    var row := db.rows[j.pid];
    if result.status == HorizonError && j.snapshot.legacyStatus == HorizonError then (Unchanged, NothingToDo)
    else if IsAssetType(j.snapshot.proposalType)
        && result.status != HorizonError then CommitAssetCreate(db, j, result, now)
    else if result.status != Fine then RejectPayment(db, j.pid, j.transition, result, now)
    else if row.action != ToCreate then (Unchanged, Skipped)
    else if !MatchesLocked(j.transition, row) then (Unchanged, Stale)
    else ApplyAndClaim(db, j, result, CreatedRow(row), [], Some(db.slots), Created)
  }

  function Commit(env: Environment, db: Db, j: Judgement, now: Instant): (Change, Outcome)
    requires j.pid in db.rows
  {
    if !UsableHash(j.transition.hash) then RejectUnusableHash(db, j.pid, j.transition)
    else match j.transition
      case CreateTransition(_, _, _, _, _) => CommitCreate(env, db, j, now)
      case UpdateTransition(_, _, _, _, _) => CommitUpdate(env, db, j, now)
      case SubmitTransition(_, _, _, _, _, _) => CommitSubmit(env, db, j, now)
  }

  // ---- What every commit is ----

  /** The columns no verdict, no staging and no schedule tick ever touches. */
  predicate SameContent(a: Row, b: Row)
  {
    && a.proposedBy == b.proposedBy && a.proposalType == b.proposalType && a.asset == b.asset
    && a.title == b.title && a.text == b.text && a.version == b.version
    && a.hash == b.hash && a.envelope == b.envelope
    && a.startAt == b.startAt && a.endAt == b.endAt
  }

  /** The staged columns, the schedule state and the old status column. */
  predicate SameStaging(a: Row, b: Row)
  {
    && a.newTitle == b.newTitle && a.newText == b.newText && a.newHash == b.newHash && a.newEnvelope == b.newEnvelope
    && a.newStart == b.newStart && a.newEnd == b.newEnd
    && a.proposalStatus == b.proposalStatus && a.legacyStatus == b.legacyStatus
  }

  /** All a worker that does not promote may write: verdict, marker and clock, or the
      retirement of a creation - and only while the row awaits the action it was sent for. */
  ghost predicate LoserWrite(expected: Action, row: Row, after: Row)
  {
    var verdict :=
        row.(paymentStatus := after.paymentStatus, rejectedHash := after.rejectedHash,
             notFoundSince := after.notFoundSince);
    && row.action == expected
    && (after == verdict || (expected == ToCreate && after == Retired(verdict).(lastUpdated := after.lastUpdated)))
  }

  /** The written values are those of the transition, whatever the staged columns say by now. */
  ghost predicate Writes(t: Transition, before: Row, after: Row)
  {
    && after.hash == t.hash
    && match t
       case CreateTransition(_, who, kind, title, text) =>
         after.proposedBy == who && after.proposalType == kind && after.title == title && after.text == text
         && before.title == title && before.text == text
       case UpdateTransition(_, _, title, text, envelope) =>
         title == Some(after.title) && after.text == WrittenText(text) && after.envelope == envelope
       case SubmitTransition(_, _, start, end, envelope, _) =>
         after.startAt == start && after.endAt == end && after.envelope == envelope
  }

  /** What is written is what the locked row still held, staged or stored, column by column. */
  ghost predicate StillHeld(purpose: Purpose, before: Row, after: Row)
  {
    match purpose
    case ForCreate =>
      before.hash == after.hash && before.title == after.title && before.text == after.text
      && before.proposedBy == after.proposedBy && before.proposalType == after.proposalType
    case ForUpdate =>
      before.newHash == after.hash && before.newTitle == Some(after.title)
      && (before.newText.Some? ==> before.newText == Some(after.text))
    case ForSubmit =>
      before.newHash == after.hash && before.newStart == after.startAt && before.newEnd == after.endAt
      && after.startAt.Some? && after.endAt.Some?
    case Legacy => false
  }

  /** A promotion settles the verdict, uses its own staging up and leaves every other column alone. */
  ghost predicate UsesUp(purpose: Purpose, before: Row, after: Row)
  {
    && after.paymentStatus == Fine && after.rejectedHash.None? && after.notFoundSince.None?
    && after.legacyStatus == before.legacyStatus
    && match purpose
       case ForCreate =>
         SameContent(before, after) && SameStaging(before, after) && !after.draft
       case ForUpdate =>
         after.newTitle.None? && after.newText.None? && after.newHash.None? && after.newEnvelope.None?
         && after.newStart == before.newStart && after.newEnd == before.newEnd
         && after.startAt == before.startAt && after.endAt == before.endAt
         && after.proposalStatus == before.proposalStatus && after.draft == before.draft
       case ForSubmit =>
         after.newStart.None? && after.newEnd.None? && after.newHash.None? && after.newEnvelope.None?
         && after.newTitle == before.newTitle && after.newText == before.newText
         && after.title == before.title && after.text == before.text && after.draft == before.draft
       case Legacy => false
  }

  /** The payment settled on chain authorizes exactly the transition that was written. */
  ghost predicate PaidFor(env: Environment, e: Entry)
  {
    && e.purpose == PurposeOf(e.transition)
    && Writes(e.transition, e.before, e.after)
    && StillHeld(e.purpose, e.before, e.after) && UsesUp(e.purpose, e.before, e.after)
    && (!e.transition.CreateTransition? ==> e.transition.pid == e.pid)
    && (!env.bypass ==>
         && env.crypto.account(e.after.proposedBy).Some?
         && Authorizes(env, e.answer, env.crypto.account(e.after.proposedBy).value, ExpectationOf(env, e.transition),
                       CostOf(env, e.transition))
         && (e.payer.Some? <==> |env.crypto.account(e.after.proposedBy).value| == 56)
         && (e.payer.Some? ==> e.payer == env.crypto.account(e.after.proposedBy))
         && e.resolved == Resolved(e.presented, e.answer.info))
  }

  ghost predicate KeepsIdentity(before: Row, after: Row)
  {
    && after.hidden == before.hidden && after.asset == before.asset
    && after.proposedBy == before.proposedBy && after.proposalType == before.proposalType
  }

  /** The history row keeps everything that was published before it. */
  ghost predicate Keeps(h: HistoryRow, pid: ProposalId, before: Row)
  {
    && h.pid == pid && h.version == before.version && h.title == before.title && h.text == before.text
    && h.hash == before.hash && h.envelope == before.envelope && h.createdAt == before.lastUpdated
  }

  ghost predicate ShelvesFor(purpose: Purpose, pid: ProposalId, before: Row, after: Row, shelved: seq<HistoryRow>)
  {
    match purpose
    case ForCreate => shelved == [] && before.hash == after.hash && after.version == before.version
    case ForUpdate =>
      |shelved| == 1 && Keeps(shelved[0], pid, before) && !shelved[0].hidden && after.version == before.version + 1
    case ForSubmit =>
      |shelved| == 1 && Keeps(shelved[0], pid, before) && shelved[0].hidden && after.version == before.version
    case Legacy => false
  }

  ghost predicate LawfulPromotion(env: Environment, db: Db, c: Change)
    requires c.Promote?
  {
    var e := c.entry;
    && c.pid in db.rows && e.pid == c.pid && e.before == db.rows[c.pid] && e.after == c.row
    && e.before.action == ActionOf(e.transition) && e.after.action == NoAction
    && KeepsIdentity(e.before, e.after)
    && IsCanonicalHash(e.presented) && e.after.hash == Some(e.presented)
    && e.presented in e.resolved && (forall h :: h in e.resolved ==> IsCanonicalHash(h))
    && !AnySpent(db.ledger, e.resolved)
    && !HashTaken(db.rows, c.pid, c.row.hash)
    && (forall i :: 0 <= i < |c.shelved| ==> !HistoryHashTaken(db.history, c.shelved[i].hash))
    && ShelvesFor(e.purpose, c.pid, e.before, e.after, c.shelved)
    && PaidFor(env, e)
    && (Active(e.after) && !Active(e.before) ==> !HasAssetConflict(db.rows, c.pid, e.before))
    && (SlotLaw(db.slots) ==> SlotLaw(c.slots))
  }

  ghost predicate WellJudged(db: Db, j: Judgement)
  {
    && j.snapshot.action != NoAction
    && j.transition == Resolve(j.pid, j.snapshot)
    && j.pid in db.rows
    && db.rows[j.pid].proposedBy == j.snapshot.proposedBy
    && db.rows[j.pid].proposalType == j.snapshot.proposalType
  }

  lemma ClaimCoversPresented(env: Environment, j: Judgement)
    requires UsableHash(j.transition.hash) && ResultOf(env, j).status == Fine
    ensures var hashes := ClaimHashes(ResultOf(env, j).resolved, j.transition.hash.value);
            && j.transition.hash.value in hashes
            && (forall h :: h in hashes ==> IsCanonicalHash(h))
            && (!env.bypass ==> hashes == ResultOf(env, j).resolved == Resolved(j.transition.hash.value, j.answer.info))
  {
    var presented := j.transition.hash.value;
    CanonicalHashIsFixed(presented);
    var r := ResultOf(env, j);
    if !env.bypass {
      FineIsSound(env, j.answer, presented, j.snapshot.proposedBy, ExpectationOf(env, j.transition),
                  CostOf(env, j.transition));
    }
    var all := if r.resolved == {} then {presented} else r.resolved;
    forall h | h in all ensures CanonicalHash(Some(h)) == h {
      CanonicalHashIsFixed(h);
    }
    assert ClaimHashes(r.resolved, presented) == all;
  }

  lemma {:induction false} EntryIsPaidFor(env: Environment, db: Db, j: Judgement, row: Row)
    requires WellJudged(db, j) && UsableHash(j.transition.hash)
    requires ResultOf(env, j).status == Fine
    requires row.proposedBy == j.snapshot.proposedBy
    requires Writes(j.transition, db.rows[j.pid], row)
    requires StillHeld(PurposeOf(j.transition), db.rows[j.pid], row)
    requires UsesUp(PurposeOf(j.transition), db.rows[j.pid], row)
    ensures PaidFor(env, EntryFor(db, j, ClaimHashes(ResultOf(env, j).resolved, j.transition.hash.value),
                                  ResultOf(env, j).payer, row))
  {
    hide VerifyPayment, Authorizes, Resolved, ClaimHashes, Writes, ExpectationOf, CostOf, IsTransactionHash,
         IsCanonicalHash, StillHeld, UsesUp;
    ClaimCoversPresented(env, j);
    if !env.bypass {
      FineIsSound(env, j.answer, j.transition.hash.value, j.snapshot.proposedBy, ExpectationOf(env, j.transition),
                  CostOf(env, j.transition));
    }
  }

  lemma {:induction false} ApplyAndClaimIsLawful(env: Environment, db: Db, j: Judgement, row: Row,
          shelved: seq<HistoryRow>, slots: Option<map<ProposalId, Slot>>, applied: Outcome)
    requires WellJudged(db, j) && UsableHash(j.transition.hash)
    requires ResultOf(env, j).status == Fine
    requires db.rows[j.pid].action == ActionOf(j.transition)
    requires row.action == NoAction && KeepsIdentity(db.rows[j.pid], row)
    requires Writes(j.transition, db.rows[j.pid], row)
    requires StillHeld(PurposeOf(j.transition), db.rows[j.pid], row)
    requires UsesUp(PurposeOf(j.transition), db.rows[j.pid], row)
    requires ShelvesFor(PurposeOf(j.transition), j.pid, db.rows[j.pid], row, shelved)
    requires Active(row) && !Active(db.rows[j.pid]) ==> !HasAssetConflict(db.rows, j.pid, db.rows[j.pid])
    requires slots.Some? && SlotLaw(db.slots) ==> SlotLaw(slots.value)
    ensures var c := ApplyAndClaim(db, j, ResultOf(env, j), row, shelved, slots, applied).0;
            c == Unchanged
            || (c.Promote? && c.pid == j.pid && c.entry.transition == j.transition && LawfulPromotion(env, db, c))
  {
    hide ResultOf, PaidFor, ShelvesFor, ClaimHashes, IsCanonicalHash, SlotLaw, HasAssetConflict, StillHeld, UsesUp;
    ClaimCoversPresented(env, j);
    EntryIsPaidFor(env, db, j, row);
  }

  lemma {:induction false} SubmitScopeIsLawful(env: Environment, db: Db, j: Judgement, status: ProposalStatus,
          now: Instant)
    requires WellJudged(db, j) && UsableHash(j.transition.hash) && j.transition.SubmitTransition?
    requires ResultOf(env, j).status == Fine
    requires db.rows[j.pid].action == ToSubmit
    requires j.transition.start.Some? && j.transition.end.Some?
             && IsExactWeek(j.transition.start.value, j.transition.end.value)
    requires status == Expired || !HasAssetConflict(db.rows, j.pid, db.rows[j.pid])
    requires db.rows[j.pid].newHash == j.transition.hash
    requires db.rows[j.pid].newStart == j.transition.start && db.rows[j.pid].newEnd == j.transition.end
    ensures LawfulCommit(env, db, j, SubmitScope(db, j, ResultOf(env, j), status, now).0)
  {
    hide ResultOf, UsableHash, ClaimHashes, SlotLaw, Synced, RejectionMarker, HasAssetConflict, SlotConflict;
    var before := db.rows[j.pid];
    var row := SubmittedRow(before, j.transition, status, now);
    var rows := db.rows[j.pid := row];
    var slots := if status == Expired then Some(db.slots) else Synced(rows, db.slots, j.pid, row, true);
    if slots.Some? && SlotLaw(db.slots) && status != Expired {
      SyncKeepsLaw(rows, db.slots, j.pid, row, true);
    }
    var applied := if status == Expired then ExpiredWindow else Booked;
    ApplyAndClaimIsLawful(env, db, j, row, [Shelved(j.pid, before, true)], slots, applied);
  }

  ghost predicate LawfulCommit(env: Environment, db: Db, j: Judgement, c: Change)
  {
    match c
    case Unchanged => true
    case Rewrite(pid, row) => pid == j.pid && pid in db.rows && LoserWrite(ActionOf(j.transition), db.rows[pid], row)
    case Promote(pid, _, _, _, e) => pid == j.pid && e.transition == j.transition && LawfulPromotion(env, db, c)
  }

  lemma RejectionIsLawful(env: Environment, db: Db, j: Judgement, now: Instant)
    requires WellJudged(db, j)
    ensures LawfulCommit(env, db, j, RejectUnusableHash(db, j.pid, j.transition).0)
    ensures LawfulCommit(env, db, j, HandleReuse(db, j.pid, j.transition).0)
    ensures UsableHash(j.transition.hash)
            ==> LawfulCommit(env, db, j, RejectPayment(db, j.pid, j.transition, ResultOf(env, j), now).0)
    ensures j.transition.SubmitTransition? ==> LawfulCommit(env, db, j, RetryState(db, j.pid))
  {
    hide RejectionMarker, ResultOf, UsableHash, Resolve;
  }

  lemma {:induction false} CommitCreateIsLawful(env: Environment, db: Db, j: Judgement, now: Instant)
    requires WellJudged(db, j) && UsableHash(j.transition.hash) && j.transition.CreateTransition?
    ensures LawfulCommit(env, db, j, CommitCreate(env, db, j, now).0)
  {
    hide ResultOf, UsableHash, ApplyAndClaim, HasAssetConflict, RejectionMarker, LawfulPromotion, RejectPayment;
    RejectionIsLawful(env, db, j, now);
    var row := db.rows[j.pid];
    if ResultOf(env, j).status == Fine && row.action == ToCreate && MatchesLocked(j.transition, row) {
      if !IsAssetType(row.proposalType) {
        ApplyAndClaimIsLawful(env, db, j, CreatedRow(row), [], Some(db.slots), Created);
      } else if !HasAssetConflict(db.rows, j.pid, row) {
        ApplyAndClaimIsLawful(env, db, j, CreatedRow(row).(lastUpdated := now), [], Some(db.slots), Created);
      }
    }
  }

  lemma {:induction false} CommitUpdateIsLawful(env: Environment, db: Db, j: Judgement, now: Instant)
    requires WellJudged(db, j) && UsableHash(j.transition.hash) && j.transition.UpdateTransition?
    ensures LawfulCommit(env, db, j, CommitUpdate(env, db, j, now).0)
  {
    RejectionIsLawful(env, db, j, now);
    var row := db.rows[j.pid];
    if ResultOf(env, j).status == Fine && row.action == ToUpdate && j.transition.newTitle.Some?
        && MatchesLocked(j.transition, row) {
      ApplyAndClaimIsLawful(env, db, j, UpdatedRow(row, j.transition, now), [Shelved(j.pid, row, false)],
                            Some(db.slots), Updated);
    }
  }

  /** Entering the savepoint means the window is a validated whole week. */
  lemma {:induction false} EnteredWindow(env: Environment, db: Db, pid: ProposalId, t: Transition, now: Instant)
    requires t.SubmitTransition? && pid in db.rows && DecideSubmit(env, db, pid, t, now).Enter?
    ensures db.rows[pid].action == ToSubmit && t.start.Some? && t.end.Some?
    ensures db.rows[pid].newHash == t.hash && db.rows[pid].newStart == t.start && db.rows[pid].newEnd == t.end
    ensures ValidateWeeklySlot(Aware(t.start.value), Aware(t.end.value), now, env.horizonWeeks, true) == Valid
    ensures IsExactWeek(t.start.value, t.end.value)
    ensures now < t.end.value ==> !HasAssetConflict(db.rows, pid, db.rows[pid])
    ensures DecideSubmit(env, db, pid, t, now).status == if t.end.value <= now then Expired else SubmitStatus(t, now)
  {
    SpellingInjective(t.start, db.rows[pid].newStart);
    SpellingInjective(t.end, db.rows[pid].newEnd);
  }

  lemma {:induction false} CommitSubmitIsLawful(env: Environment, db: Db, j: Judgement, now: Instant)
    requires WellJudged(db, j) && UsableHash(j.transition.hash) && j.transition.SubmitTransition?
    ensures LawfulCommit(env, db, j, CommitSubmit(env, db, j, now).0)
  {
    RejectionIsLawful(env, db, j, now);
    if ResultOf(env, j).status == Fine {
      match DecideSubmit(env, db, j.pid, j.transition, now)
      case Settle(change, _) =>
        assert change in {Unchanged, RetryState(db, j.pid)};
      case Enter(status) =>
        EnteredWindow(env, db, j.pid, j.transition, now);
        SubmitScopeIsLawful(env, db, j, status, now);
    }
  }

  /** Every attempt either promotes lawfully, or writes no more than a loser may. */
  lemma {:induction false} CommitIsLawful(env: Environment, db: Db, j: Judgement, now: Instant)
    requires WellJudged(db, j)
    ensures LawfulCommit(env, db, j, Commit(env, db, j, now).0)
  {
    RejectionIsLawful(env, db, j, now);
    if UsableHash(j.transition.hash) {
      match j.transition
      case CreateTransition(_, _, _, _, _) => CommitCreateIsLawful(env, db, j, now);
      case UpdateTransition(_, _, _, _, _) => CommitUpdateIsLawful(env, db, j, now);
      case SubmitTransition(_, _, _, _, _, _) => CommitSubmitIsLawful(env, db, j, now);
    }
  }

  lemma RejectionsDoNotPromote(db: Db, pid: ProposalId, t: Transition, result: CheckResult, now: Instant)
    ensures !RejectPayment(db, pid, t, result, now).0.Promote?
    ensures !RejectUnusableHash(db, pid, t).0.Promote?
    ensures !HandleReuse(db, pid, t).0.Promote?
    ensures !RetryState(db, pid).Promote?
  {
  }

  lemma PromotedScope(db: Db, j: Judgement, result: CheckResult, status: ProposalStatus, now: Instant)
    requires j.transition.SubmitTransition? && UsableHash(j.transition.hash) && j.pid in db.rows
    requires SubmitScope(db, j, result, status, now).0.Promote?
    ensures var c := SubmitScope(db, j, result, status, now);
            && c.0.row == SubmittedRow(db.rows[j.pid], j.transition, status, now)
            && c.1 == (if status == Expired then ExpiredWindow else Booked)
            && Some(c.0.slots)
               == (if status
                   == Expired then Some(db.slots)
                   else Synced(db.rows[j.pid := c.0.row], db.slots, j.pid, c.0.row, true))
  {
    RejectionsDoNotPromote(db, j.pid, j.transition, result, now);
  }

  /** A promoting submit went through its savepoint, on a validated window. */
  lemma {:induction false} PromotedSubmit(env: Environment, db: Db, j: Judgement, now: Instant)
      returns (status: ProposalStatus)
    requires j.transition.SubmitTransition? && j.pid in db.rows
    requires Commit(env, db, j, now).0.Promote?
    ensures UsableHash(j.transition.hash)
    ensures j.transition.start.Some? && j.transition.end.Some?
    ensures ValidateWeeklySlot(Aware(j.transition.start.value), Aware(j.transition.end.value), now, env.horizonWeeks,
                               true) == Valid
    ensures status == if j.transition.end.value <= now then Expired else SubmitStatus(j.transition, now)
    ensures Commit(env, db, j, now) == SubmitScope(db, j, ResultOf(env, j), status, now)
  {
    var t := j.transition;
    hide ValidateWeeklySlot, SlotConflict, HasAssetConflict, MatchesLocked, RejectPayment, RejectUnusableHash,
         RetryState, SubmitScope, ResultOf;
    RejectionsDoNotPromote(db, j.pid, t, if UsableHash(t.hash) then ResultOf(env, j) else Failing(Fine, Ok), now);
    assert DecideSubmit(env, db, j.pid, t, now).Enter?;
    EnteredWindow(env, db, j.pid, t, now);
    status := DecideSubmit(env, db, j.pid, t, now).status;
  }

  /** A submit queues exactly when it names a future week, votes exactly when it names the
      current one, and expires only in that week's last second; a booked one owns its slot. */
  lemma {:induction false} SubmitStatusByWeek(env: Environment, db: Db, j: Judgement, now: Instant)
    requires j.transition.SubmitTransition? && j.pid in db.rows
    requires Commit(env, db, j, now).0.Promote?
    ensures j.transition.start.Some? && j.transition.end.Some?
    ensures var r := Commit(env, db, j, now);
            var s, e := Aware(j.transition.start.value), Aware(j.transition.end.value);
            && (r.0.row.proposalStatus == Queued
                <==> exists k :: 1 <= k <= env.horizonWeeks && IsWeekAhead(s, e, now, k))
            && (r.0.row.proposalStatus == Voting <==> IsWeekAhead(s, e, now, 0) && now < WeekStart(now) + WEEK - SECOND)
            && (r.0.row.proposalStatus == Expired
                <==> IsWeekAhead(s, e, now, 0) && WeekStart(now) + WEEK - SECOND <= now)
            && (r.1 == Booked <==> r.0.row.proposalStatus != Expired)
            && (r.1 == Booked ==>
                 if r.0.row.hidden || r.0.row.draft then j.pid !in r.0.slots
                 else j.pid in r.0.slots && r.0.slots[j.pid] == Slot(j.transition.start.value, j.transition.end.value))
  {
    var status := PromotedSubmit(env, db, j, now);
    PromotedScope(db, j, ResultOf(env, j), status, now);
    SubmitOutcomeByWeek(j.transition.start.value, j.transition.end.value, now, env.horizonWeeks);
  }

  /** On a lawful slot table the booking itself cannot be refused by the start index, so a
      confirmed submit into a free week fails only on a spent payment or a taken hash. */
  lemma {:induction false} FreeWeekBooks(env: Environment, db: Db, j: Judgement, now: Instant)
    requires WellJudged(db, j) && UsableHash(j.transition.hash) && j.transition.SubmitTransition?
    requires ResultOf(env, j).status == Fine && SlotLaw(db.slots)
    requires db.rows[j.pid].action == ToSubmit && MatchesLocked(j.transition, db.rows[j.pid])
    requires j.transition.start.Some? && j.transition.end.Some?
    requires ValidateWeeklySlot(Aware(j.transition.start.value), Aware(j.transition.end.value), now, env.horizonWeeks,
                                true) == Valid
    requires now < j.transition.end.value
    requires !HasAssetConflict(db.rows, j.pid, db.rows[j.pid])
    requires !SlotConflict(db.rows, db.slots, j.pid, j.transition.start.value, j.transition.end.value)
    ensures Commit(env, db, j, now).0.Promote? <==>
            && !AnySpent(db.ledger, ClaimHashes(ResultOf(env, j).resolved, j.transition.hash.value))
            && !HashTaken(db.rows, j.pid, j.transition.hash)
            && !HistoryHashTaken(db.history, db.rows[j.pid].hash)
  {
    hide ResultOf, UsableHash, ClaimHashes, MatchesLocked, HasAssetConflict;
    var before := db.rows[j.pid];
    var row := SubmittedRow(before, j.transition, SubmitStatus(j.transition, now), now);
    var rows := db.rows[j.pid := row];
    assert forall q :: q in db.slots && q != j.pid
                       ==> (Occupying(rows, db.slots, q) <==> Occupying(db.rows, db.slots, q));
    if UsesSlot(row) {
      FreeWindowBooks(rows, db.slots, j.pid, row);
    }
    assert [Shelved(j.pid, before, true)][0].hash == before.hash;
  }
}
