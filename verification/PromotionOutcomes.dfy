/** What an attempt does with the row it locked, said on the answer and the columns alone: exactly when it
    promotes, and what is left when the payment is unanswered, refused, spent or cannot be applied yet. */
module PromotionOutcomes {
  import opened Domain
  import opened Calendar
  import opened Hashes
  import opened Memo
  import opened Payments
  import opened Records
  import opened QueueSlots
  import opened Transitions
  import opened Promotion
  import opened Protocol

  // ---- The three kinds of answer ----

  function PriceOf(env: Environment, t: Transition): real
  {
    match t
    case SubmitTransition(_, _, _, _, _, _) => env.submitCost
    case _ => env.createCost
  }

  ghost predicate PaidOnChain(env: Environment, j: Judgement)
  {
    && env.crypto.account(j.snapshot.proposedBy).Some? && j.answer.Found? && j.answer.info.successful
    && Bought(env, j.answer.log, PriceOf(env, j.transition), env.crypto.account(j.snapshot.proposedBy).value)
  }

  ghost predicate Confirms(env: Environment, j: Judgement)
  {
    env.bypass || (PaidOnChain(env, j) && Commits(j.answer.info.memo, ExpectationOf(env, j.transition)))
  }

  /** Horizon gave no account of the payment: the lookup failed, a page did, or there were no operations. */
  ghost predicate Unanswered(env: Environment, j: Judgement)
  {
    && !env.bypass && env.crypto.account(j.snapshot.proposedBy).Some?
    && (j.answer.Lookup?
        || (&& j.answer.info.successful && !PaidOnChain(env, j)
            && (Breaks(j.answer.log) || j.answer.log.records == [])))
  }

  /** Unanswered because Horizon says there is no such transaction. */
  ghost predicate Missing(env: Environment, j: Judgement)
  {
    && Unanswered(env, j)
    && (j.answer == Lookup(NotFound)
        || (j.answer.Found? && Breaks(j.answer.log) && j.answer.log.fault.value.1 == NotFound))
  }

  ghost predicate Refuses(env: Environment, j: Judgement) { !Confirms(env, j) && !Unanswered(env, j) }

  /** The status a refusal is stored under. */
  ghost predicate RefusedAs(env: Environment, j: Judgement, status: PaymentStatus)
  {
    var failed := env.crypto.account(j.snapshot.proposedBy).Some? && j.answer.Found? && !j.answer.info.successful;
    && (status == FailedTransaction <==> failed)
    && (status == BadMemo <==> PaidOnChain(env, j))
    && (status == InvalidPayment <==> !failed && !PaidOnChain(env, j))
  }

  lemma {:induction false} AnswerDecides(env: Environment, j: Judgement)
    requires UsableHash(j.transition.hash)
    ensures var r := ResultOf(env, j);
            && (r.status == Fine <==> Confirms(env, j))
            && (r.status == HorizonError <==> Unanswered(env, j))
            && (Refuses(env, j) <==> r.status in {FailedTransaction, BadMemo, InvalidPayment})
            && (Refuses(env, j) ==> RefusedAs(env, j, r.status))
            && (r.reason == TransactionNotFound <==> Missing(env, j))
  {
    hide VerifyPayment, Bought, Breaks, Commits, ExpectationOf, IsCanonicalHash, IsTransactionHash;
    CanonicalHashIsFixed(j.transition.hash.value);
    VerdictTaxonomy(env, j.answer, j.transition.hash.value, j.snapshot.proposedBy, ExpectationOf(env, j.transition),
                    CostOf(env, j.transition));
  }

  // ---- When an attempt promotes ----

  /** Every name of the payment the ledger is keyed on. */
  function NamesOf(env: Environment, j: Judgement): set<Hash>
    requires j.transition.hash.Some?
  {
    if env.bypass || j.answer.Lookup? then {j.transition.hash.value}
    else Resolved(j.transition.hash.value, j.answer.info)
  }

  ghost predicate Unspent(env: Environment, db: Db, j: Judgement)
    requires j.transition.hash.Some?
  {
    forall h :: h in NamesOf(env, j) ==> h !in db.ledger
  }

  /** The two unique hash columns have room for the promotion. */
  ghost predicate HashesFree(db: Db, pid: ProposalId, hash: Option<Hash>, shelved: Option<Hash>)
  {
    && (forall q :: q in db.rows && q != pid ==> db.rows[q].hash != hash)
    && (shelved.Some? ==> forall i :: 0 <= i < |db.history| ==> db.history[i].hash != shelved)
  }

  /** Another visible proposal is queued or voting on the same asset. */
  ghost predicate Rivalled(db: Db, pid: ProposalId)
    requires pid in db.rows
  {
    exists q :: q in db.rows && q != pid && Rivals(db.rows[pid], db.rows[q])
  }

  ghost predicate Rivals(row: Row, other: Row)
  {
    && row.proposalType in {AddAsset, RemoveAsset} && other.proposalType in {AddAsset, RemoveAsset}
    && !other.hidden && !other.draft && other.proposalStatus in {Queued, Voting}
    && row.asset.Some? && other.asset == row.asset
  }

  /** Another proposal holds the slot that starts at `start` and still uses it. */
  ghost predicate WeekHeld(db: Db, pid: ProposalId, start: Instant)
  {
    exists q :: q in db.slots && q != pid && q in db.rows && db.slots[q].start == start
                && Uses(db.rows[q], db.slots[q])
  }

  ghost predicate Uses(row: Row, slot: Slot)
  {
    && !row.hidden && !row.draft && row.action == NoAction && row.proposalStatus in {Queued, Voting}
    && row.startAt == Some(slot.start) && row.endAt == Some(slot.end)
  }

  lemma RivalledIsConflict(db: Db, pid: ProposalId)
    requires pid in db.rows
    ensures Rivalled(db, pid) <==> HasAssetConflict(db.rows, pid, db.rows[pid])
  {
    if Rivalled(db, pid) {
      var q :| q in db.rows && q != pid && Rivals(db.rows[pid], db.rows[q]);
      assert AssetConflicts(db.rows, q, pid, db.rows[pid]);
    } else if q :| q in db.rows && AssetConflicts(db.rows, q, pid, db.rows[pid]) {
      assert Rivals(db.rows[pid], db.rows[q]);
    }
  }

  lemma {:induction false} WeekHeldIsConflict(db: Db, pid: ProposalId, start: Instant, end: Instant)
    requires SlotLaw(db.slots) && IsExactWeek(start, end)
    ensures WeekHeld(db, pid, start) <==> SlotConflict(db.rows, db.slots, pid, start, end)
  {
    hide IsExactWeek;
    forall q | q in db.slots && q != pid && q in db.rows
      ensures db.slots[q].start == start && Uses(db.rows[q], db.slots[q])
              <==> Conflicts(db.rows, db.slots, q, start, end) {
      ExactWeeksOverlapIffSameStart(db.slots[q].start, db.slots[q].end, start, end);
    }
  }

  /** Everything an update needs, short of an unspent payment. */
  ghost predicate UpdateFits(env: Environment, db: Db, j: Judgement)
    requires j.pid in db.rows && j.transition.UpdateTransition?
  {
    var row, t := db.rows[j.pid], j.transition;
    && t.hash.Some? && IsCanonicalHash(t.hash.value) && Confirms(env, j)
    && row.action == ToUpdate && row.newHash == t.hash && row.newTitle == t.newTitle && row.newText == t.newText
    && t.newTitle.Some? && HashesFree(db, j.pid, t.hash, row.hash)
  }

  lemma {:induction false} NamesAreClaimed(env: Environment, db: Db, j: Judgement)
    requires UsableHash(j.transition.hash) && Confirms(env, j)
    ensures var hashes := ClaimHashes(ResultOf(env, j).resolved, j.transition.hash.value);
            hashes == NamesOf(env, j) && (AnySpent(db.ledger, hashes) <==> !Unspent(env, db, j))
  {
    hide ResultOf, IsCanonicalHash, Commits, Resolved;
    AnswerDecides(env, j);
    ClaimCoversPresented(env, j);
    if env.bypass {
      BypassResolvesNothing(env, j);
    }
  }

  lemma BypassResolvesNothing(env: Environment, j: Judgement)
    requires UsableHash(j.transition.hash) && env.bypass
    ensures ClaimHashes(ResultOf(env, j).resolved, j.transition.hash.value) == {j.transition.hash.value}
  {
    CanonicalHashIsFixed(j.transition.hash.value);
  }

  /** The shared end of every promotion. */
  lemma {:induction false} ApplyExact(env: Environment, db: Db, j: Judgement, row: Row, shelved: seq<HistoryRow>,
          slots: Option<map<ProposalId, Slot>>, applied: Outcome)
    requires j.pid in db.rows && UsableHash(j.transition.hash) && Confirms(env, j)
    requires row.hash == j.transition.hash && |shelved| <= 1 && applied !in {RaisedIntegrity, ReusePending}
    ensures var r := ApplyAndClaim(db, j, ResultOf(env, j), row, shelved, slots, applied);
            var fits := slots.Some?
                        && HashesFree(db, j.pid, row.hash, if shelved == [] then None else shelved[0].hash);
            && (r.1 == applied <==> fits && Unspent(env, db, j))
            && (r.1 == ReusePending <==> fits && !Unspent(env, db, j))
            && (r.1 == RaisedIntegrity <==> !fits)
            && (r.0.Promote? <==> r.1 == applied)
            && (r.0.Promote? ==> r.0.row == row && r.0.shelved == shelved && r.0.slots == slots.value)
            && (!r.0.Promote? ==> r.0 == Unchanged)
  {
    hide ResultOf, ClaimHashes, AnySpent, Unspent, Confirms, IsCanonicalHash;
    NamesAreClaimed(env, db, j);
  }

  /** An update promotes exactly when Horizon confirms it, the locked row still holds its hash, title and
      text, the hash columns have room, and no name of the payment is spent; only the last is reuse. */
  lemma {:induction false} UpdateAppliesIff(env: Environment, db: Db, j: Judgement, now: Instant)
    requires j.pid in db.rows && j.transition.UpdateTransition?
    ensures var r := Commit(env, db, j, now);
            && (r.0.Promote? <==> UpdateFits(env, db, j) && Unspent(env, db, j))
            && (r.1 == ReusePending <==> UpdateFits(env, db, j) && !Unspent(env, db, j))
            && (r.1 == ReusePending ==> r.0 == Unchanged)
            && (r.1 == Updated <==> r.0.Promote?)
            && (r.0.Promote? ==> r.0.row.lastUpdated == now && r.0.slots == db.slots)
  {
    hide ResultOf, IsCanonicalHash, Confirms, Unspent, ApplyAndClaim, Unanswered, Refuses, HashesFree, TerminalVerdict,
         RetryableVerdict;
    RejectionsDoNotPromote(db, j.pid, j.transition, if UsableHash(j.transition.hash) then ResultOf(env, j)
                                                    else Failing(Fine, Ok), now);
    if UsableHash(j.transition.hash) {
      AnswerDecides(env, j);
      var row := db.rows[j.pid];
      if Confirms(env, j) && j.transition.newTitle.Some? {
        ApplyExact(env, db, j, UpdatedRow(row, j.transition, now), [Shelved(j.pid, row, false)], Some(db.slots),
                   Updated);
      }
    }
  }

  /** Everything a creation needs, short of an unspent payment. */
  ghost predicate CreateFits(env: Environment, db: Db, j: Judgement)
    requires j.pid in db.rows && j.transition.CreateTransition?
  {
    var row, t := db.rows[j.pid], j.transition;
    && t.hash.Some? && IsCanonicalHash(t.hash.value) && Confirms(env, j)
    && row.action == ToCreate && row.hash == t.hash && row.title == t.title && row.text == t.text
    && row.proposedBy == t.proposedBy && row.proposalType == t.proposalType
    && HashesFree(db, j.pid, t.hash, None)
    && (j.snapshot.proposalType in {AddAsset, RemoveAsset} ==> !Rivalled(db, j.pid))
  }

  /** A creation promotes exactly when it is confirmed, its row still holds what was paid for, no rival is
      queued or voting on its asset, and no name of the payment is spent. */
  lemma {:induction false} CreateAppliesIff(env: Environment, db: Db, j: Judgement, now: Instant)
    requires j.pid in db.rows && j.transition.CreateTransition?
    ensures var r := Commit(env, db, j, now);
            && (r.0.Promote? <==> CreateFits(env, db, j) && Unspent(env, db, j))
            && (r.1 == ReusePending <==> CreateFits(env, db, j) && !Unspent(env, db, j))
            && (r.1 == ReusePending ==> r.0 == Unchanged)
            && (r.1 == Created <==> r.0.Promote?)
            && (r.0.Promote? ==> r.0.shelved == [] && r.0.slots == db.slots)
  {
    hide ResultOf, IsCanonicalHash, Confirms, Unspent, Unanswered, Refuses, HashesFree, Rivalled, CommitCreate;
    if UsableHash(j.transition.hash) {
      AnswerDecides(env, j);
      if Confirms(env, j) {
        ConfirmedCreate(env, db, j, now);
      } else {
        UnconfirmedCreate(env, db, j, now);
      }
    }
  }

  lemma {:induction false} ConfirmedCreate(env: Environment, db: Db, j: Judgement, now: Instant)
    requires j.pid in db.rows && j.transition.CreateTransition? && UsableHash(j.transition.hash) && Confirms(env, j)
    ensures var r := CommitCreate(env, db, j, now);
            && (r.0.Promote? <==> CreateFits(env, db, j) && Unspent(env, db, j))
            && (r.1 == ReusePending <==> CreateFits(env, db, j) && !Unspent(env, db, j))
            && (r.1 == ReusePending ==> r.0 == Unchanged)
            && (r.1 == Created <==> r.0.Promote?)
            && (r.0.Promote? ==> r.0.shelved == [] && r.0.slots == db.slots)
  {
    hide ResultOf, IsCanonicalHash, Confirms, Unspent, ApplyAndClaim, Unanswered, Refuses, HashesFree, TerminalVerdict,
         RetryableVerdict, HasAssetConflict, Rivalled, RejectionMarker;
    AnswerDecides(env, j);
    RivalledIsConflict(db, j.pid);
    var row := db.rows[j.pid];
    if row.hash == j.transition.hash {
      ApplyExact(env, db, j, CreatedRow(row), [], Some(db.slots), Created);
      ApplyExact(env, db, j, CreatedRow(row).(lastUpdated := now), [], Some(db.slots), Created);
    }
  }

  lemma {:induction false} UnconfirmedCreate(env: Environment, db: Db, j: Judgement, now: Instant)
    requires j.pid in db.rows && j.transition.CreateTransition? && UsableHash(j.transition.hash) && !Confirms(env, j)
    ensures var r := CommitCreate(env, db, j, now); !r.0.Promote? && r.1 !in {ReusePending, Created}
  {
    hide ResultOf, IsCanonicalHash, Confirms, Unanswered, Refuses, ApplyAndClaim, TerminalVerdict, RetryableVerdict,
         HasAssetConflict, RejectionMarker, MatchesLocked;
    AnswerDecides(env, j);
    RejectionsDoNotPromote(db, j.pid, j.transition, ResultOf(env, j), now);
  }

  /** The window names the current week or one of the bookable ones. */
  ghost predicate Bookable(env: Environment, t: Transition, now: Instant)
    requires t.SubmitTransition?
  {
    && t.start.Some? && t.end.Some? && env.horizonWeeks >= 1
    && exists k :: 0 <= k <= env.horizonWeeks && IsWeekAhead(Aware(t.start.value), Aware(t.end.value), now, k)
  }

  /** The confirmed submit the locked row still holds. */
  ghost predicate HeldSubmit(env: Environment, db: Db, j: Judgement)
    requires j.pid in db.rows && j.transition.SubmitTransition?
  {
    var row, t := db.rows[j.pid], j.transition;
    && t.hash.Some? && IsCanonicalHash(t.hash.value) && Confirms(env, j)
    && row.action == ToSubmit && row.newHash == t.hash && row.newStart == t.start && row.newEnd == t.end
    && t.start.Some? && t.end.Some?
  }

  /** Something is in the way of booking: the window, a rival on the asset, or the holder of the week. */
  ghost predicate Blocked(env: Environment, db: Db, j: Judgement, now: Instant)
    requires j.pid in db.rows && j.transition.SubmitTransition?
    requires j.transition.start.Some? && j.transition.end.Some?
  {
    || !Bookable(env, j.transition, now)
    || (now < j.transition.end.value && (Rivalled(db, j.pid) || WeekHeld(db, j.pid, j.transition.start.value)))
  }

  ghost function Obstacle(env: Environment, db: Db, j: Judgement, now: Instant): Outcome
    requires j.pid in db.rows && j.transition.SubmitTransition?
    requires j.transition.start.Some? && j.transition.end.Some?
  {
    if !Bookable(env, j.transition, now) then InvalidWindow
    else if Rivalled(db, j.pid) then AssetConflict
    else SlotTaken
  }

  lemma {:induction false} BookableIsValid(env: Environment, t: Transition, now: Instant)
    requires t.SubmitTransition? && t.start.Some? && t.end.Some?
    ensures Bookable(env, t, now)
            <==> ValidateWeeklySlot(Aware(t.start.value), Aware(t.end.value), now, env.horizonWeeks, true) == Valid
    ensures Bookable(env, t, now) ==> IsExactWeek(t.start.value, t.end.value)
    ensures env.horizonWeeks >= 1
            ==> ValidateWeeklySlot(Aware(t.start.value), Aware(t.end.value), now, env.horizonWeeks, true)
                != HorizonMisconfigured
  {
    if env.horizonWeeks >= 1 {
      ValidIffWeekAhead(Aware(t.start.value), Aware(t.end.value), now, env.horizonWeeks, true);
    }
  }

  lemma {:induction false} DecisionExact(env: Environment, db: Db, j: Judgement, now: Instant)
    requires j.pid in db.rows && j.transition.SubmitTransition? && UsableHash(j.transition.hash) && SlotLaw(db.slots)
    requires Confirms(env, j)
    ensures var d := DecideSubmit(env, db, j.pid, j.transition, now);
            && (d.Enter? <==> HeldSubmit(env, db, j) && !Blocked(env, db, j, now))
            && (HeldSubmit(env, db, j) && Blocked(env, db, j, now) && env.horizonWeeks >= 1
                ==> d.change == RetryState(db, j.pid) && d.outcome == Obstacle(env, db, j, now))
            && (!HeldSubmit(env, db, j) ==> d.change == Unchanged && d.outcome in {Skipped, Stale, MissingWindow})
            && (d.Settle?
                ==> !d.change.Promote? && d.outcome !in {ReusePending, AlreadyConsumed, Booked, ExpiredWindow})
  {
    hide ValidateWeeklySlot, SlotConflict, HasAssetConflict, Rivalled, WeekHeld, Bookable, SlotLaw, Confirms,
         IsCanonicalHash, SpellingOf, RetryState, IsExactWeek;
    var t, row := j.transition, db.rows[j.pid];
    RejectionsDoNotPromote(db, j.pid, t, Failing(Fine, Ok), now);
    if SpellingOf(t.start) == SpellingOf(row.newStart) && SpellingOf(t.end) == SpellingOf(row.newEnd) {
      SpellingInjective(t.start, row.newStart);
      SpellingInjective(t.end, row.newEnd);
    }
    if t.start.Some? && t.end.Some? {
      BookableIsValid(env, t, now);
      RivalledIsConflict(db, j.pid);
      if Bookable(env, t, now) {
        WeekHeldIsConflict(db, j.pid, t.start.value, t.end.value);
      }
    }
  }

  /** The window a submit enters its savepoint with can be booked. */
  lemma {:induction false} OpenWeekBooks(env: Environment, db: Db, j: Judgement, row: Row, now: Instant)
    requires j.pid in db.rows && j.transition.SubmitTransition? && SlotLaw(db.slots)
    requires j.transition.start.Some? && j.transition.end.Some?
    requires Bookable(env, j.transition, now) && !WeekHeld(db, j.pid, j.transition.start.value)
    requires row.startAt == j.transition.start && row.endAt == j.transition.end
    ensures Synced(db.rows[j.pid := row], db.slots, j.pid, row, true).Some?
    ensures !SlotConflict(db.rows, db.slots, j.pid, j.transition.start.value, j.transition.end.value)
  {
    hide Bookable, WeekHeld, IsExactWeek;
    var t, rows := j.transition, db.rows[j.pid := row];
    BookableIsValid(env, t, now);
    WeekHeldIsConflict(db, j.pid, t.start.value, t.end.value);
    forall q | q in db.slots && q != j.pid
      ensures Conflicts(rows, db.slots, q, t.start.value, t.end.value)
              <==> Conflicts(db.rows, db.slots, q, t.start.value, t.end.value) {
    }
    if UsesSlot(row) {
      FreeWindowBooks(rows, db.slots, j.pid, row);
    }
  }

  lemma {:induction false} ScopeExact(env: Environment, db: Db, j: Judgement, now: Instant, status: ProposalStatus)
    requires j.pid in db.rows && j.transition.SubmitTransition? && SlotLaw(db.slots)
    requires UsableHash(j.transition.hash) && HeldSubmit(env, db, j) && !Blocked(env, db, j, now)
    requires status == if j.transition.end.value <= now then Expired else SubmitStatus(j.transition, now)
    ensures var r := SubmitScope(db, j, ResultOf(env, j), status, now);
            var fits := HashesFree(db, j.pid, j.transition.hash, db.rows[j.pid].hash);
            && (r.0.Promote? <==> fits && Unspent(env, db, j))
            && (r.1 in {Booked, ExpiredWindow} <==> r.0.Promote?)
            && (r.0.Promote? ==> r.0.row.lastUpdated == now)
            && (fits && !Unspent(env, db, j) ==> r == HandleReuse(db, j.pid, j.transition))
            && (!fits ==> r == (Unchanged, RaisedIntegrity))
  {
    hide ResultOf, IsCanonicalHash, Confirms, Unspent, ApplyAndClaim, HashesFree, TerminalVerdict, WeekHeld, Bookable,
         Rivalled, SlotConflict, Synced, SlotLaw;
    RejectionsDoNotPromote(db, j.pid, j.transition, Failing(Fine, Ok), now);
    var t, before := j.transition, db.rows[j.pid];
    var row := SubmittedRow(before, t, status, now);
    var slots :=
        if status == Expired then Some(db.slots) else Synced(db.rows[j.pid := row], db.slots, j.pid, row, true);
    if status != Expired {
      OpenWeekBooks(env, db, j, row, now);
    }
    ApplyExact(env, db, j, row, [Shelved(j.pid, before, true)], slots,
               if status == Expired then ExpiredWindow else Booked);
  }

  /** On a lawful slot table a submit promotes exactly when it is confirmed, its row still holds it, its week
      is bookable and nobody is in the way, the hash columns have room, and no name of the payment is spent. */
  lemma {:induction false} SubmitAppliesIff(env: Environment, db: Db, j: Judgement, now: Instant)
    requires j.pid in db.rows && j.transition.SubmitTransition? && SlotLaw(db.slots)
    ensures var r := Commit(env, db, j, now);
            var fits := HeldSubmit(env, db, j) && !Blocked(env, db, j, now)
                        && HashesFree(db, j.pid, j.transition.hash, db.rows[j.pid].hash);
            && (r.0.Promote? <==> fits && Unspent(env, db, j))
            && (r.1 in {Booked, ExpiredWindow} <==> r.0.Promote?)
            && (r.0.Promote? ==> r.0.row.lastUpdated == now)
            && (fits && !Unspent(env, db, j) ==> r == HandleReuse(db, j.pid, j.transition))
            && (HeldSubmit(env, db, j) && !Blocked(env, db, j, now) && !fits ==> r == (Unchanged, RaisedIntegrity))
  {
    hide ResultOf, IsCanonicalHash, Confirms, Unspent, Unanswered, Refuses, HashesFree, TerminalVerdict,
         RetryableVerdict, WeekHeld, Bookable, Rivalled, SlotLaw, DecideSubmit, SubmitScope, HeldSubmit, Blocked;
    RejectionsDoNotPromote(db, j.pid, j.transition, if UsableHash(j.transition.hash) then ResultOf(env, j)
                                                    else Failing(Fine, Ok), now);
    HeldIsConfirmed(env, db, j);
    if UsableHash(j.transition.hash) {
      AnswerDecides(env, j);
      if Confirms(env, j) {
        DecisionExact(env, db, j, now);
        if HeldSubmit(env, db, j) && !Blocked(env, db, j, now) {
          EnteredWindow(env, db, j.pid, j.transition, now);
          ScopeExact(env, db, j, now, DecideSubmit(env, db, j.pid, j.transition, now).status);
        }
      }
    }
  }

  lemma HeldIsConfirmed(env: Environment, db: Db, j: Judgement)
    requires j.pid in db.rows && j.transition.SubmitTransition?
    ensures HeldSubmit(env, db, j) ==> UsableHash(j.transition.hash) && Confirms(env, j)
                                       && j.transition.start.Some? && j.transition.end.Some?
  {
  }

  // ---- When the locked row moved on ----

  /** The row no longer holds, in some column, what the payment was judged for. */
  ghost predicate MovedOn(t: Transition, row: Row)
  {
    match t
    case CreateTransition(hash, who, kind, title, text) =>
      hash != row.hash || who != row.proposedBy || kind != row.proposalType || title != row.title || text != row.text
    case UpdateTransition(_, hash, title, text, _) =>
      hash != row.newHash || title != row.newTitle || text != row.newText
    case SubmitTransition(_, hash, start, end, _, _) =>
      hash != row.newHash || start != row.newStart || end != row.newEnd
  }

  lemma MovedOnIsStale(t: Transition, row: Row)
    ensures MovedOn(t, row) <==> !MatchesLocked(t, row)
  {
    if t.SubmitTransition? && SpellingOf(t.start) == SpellingOf(row.newStart)
       && SpellingOf(t.end) == SpellingOf(row.newEnd) {
      SpellingInjective(t.start, row.newStart);
      SpellingInjective(t.end, row.newEnd);
    }
  }

  /** A confirmed payment for what the row no longer holds writes nothing, whatever its kind. */
  lemma {:induction false} StaleChangesNothing(env: Environment, db: Db, j: Judgement, now: Instant)
    requires j.pid in db.rows && UsableHash(j.transition.hash) && Confirms(env, j)
    ensures db.rows[j.pid].action != ActionOf(j.transition) ==> Commit(env, db, j, now) == (Unchanged, Skipped)
    ensures db.rows[j.pid].action == ActionOf(j.transition) && MovedOn(j.transition, db.rows[j.pid])
            ==> Commit(env, db, j, now) == (Unchanged, Stale)
  {
    hide ResultOf, IsCanonicalHash, Confirms, Unanswered, Refuses, HasAssetConflict, SlotConflict, MatchesLocked,
         MovedOn, ApplyAndClaim, SubmitScope, ValidateWeeklySlot;
    AnswerDecides(env, j);
    MovedOnIsStale(j.transition, db.rows[j.pid]);
  }

  // ---- Unanswered payments ----

  lemma {:induction false} UnansweredCommit(env: Environment, db: Db, j: Judgement, now: Instant)
    requires j.pid in db.rows && UsableHash(j.transition.hash) && Unanswered(env, j)
    ensures Commit(env, db, j, now)
            == if j.transition.CreateTransition? && j.snapshot.legacyStatus == HorizonError
               then (Unchanged, NothingToDo)
               else (RetryableVerdict(db, j.pid, ActionOf(j.transition), Missing(env, j), now), NotConfirmed)
  {
    hide ResultOf, IsCanonicalHash, Confirms, Unanswered, Refuses, Missing, CommitAssetCreate, DecideSubmit,
         SubmitScope, MatchesLocked, ApplyAndClaim, TerminalVerdict, RetryableVerdict;
    AnswerDecides(env, j);
  }

  /** An outage decides nothing: when Horizon gives no account of the payment, an attempt of any kind leaves
      every column but the verdict and the clock as it was, on every row, and starts the clock only when
      Horizon denies the transaction. */
  lemma {:induction false} OutageDecidesNothing(env: Environment, db: Db, j: Judgement, now: Instant)
    requires j.pid in db.rows && UsableHash(j.transition.hash) && Unanswered(env, j)
    ensures var after := ApplyStep(db, StepOf(Commit(env, db, j, now).0));
            && after == db.(rows := after.rows) && after.rows.Keys == db.rows.Keys
            && (forall q :: q in db.rows && q != j.pid ==> after.rows[q] == db.rows[q])
            && var row, written := db.rows[j.pid], after.rows[j.pid];
            && written == row.(paymentStatus := written.paymentStatus, notFoundSince := written.notFoundSince)
            && (if row.action != ActionOf(j.transition)
                    || (j.transition.CreateTransition? && j.snapshot.legacyStatus == HorizonError)
                then written == row else written.paymentStatus == HorizonError)
            && (written.notFoundSince == row.notFoundSince
                || (Missing(env, j) && row.notFoundSince.None? && written.notFoundSince == Some(now)))
  {
    hide Commit, UsableHash, Unanswered, Missing;
    UnansweredCommit(env, db, j, now);
  }

  // ---- Refused payments ----

  /** `after` is `row` with a refusal recorded; a creation is retired by it, an update or submit stays armed. */
  ghost predicate RecordsRefusal(t: Transition, row: Row, after: Row)
  {
    && after.rejectedHash == Some(RejectionMarker(t.hash)) && after.notFoundSince == row.notFoundSince
    && SameContent(row, after) && SameStaging(row, after)
    && match t
       case CreateTransition(_, _, _, _, _) => after.action == NoAction && after.hidden && !after.draft
       case _ => after.action == row.action && after.hidden == row.hidden && after.draft == row.draft
                 && after.lastUpdated == row.lastUpdated
  }

  /** The row a refusal is recorded on: it awaits the action and does not bear this hash's marker yet -
      or, for an asset creation, still holds what was paid for. */
  ghost predicate AcceptsRefusal(j: Judgement, row: Row)
  {
    && row.action == ActionOf(j.transition)
    && if UsableHash(j.transition.hash) && j.transition.CreateTransition?
          && j.snapshot.proposalType in {AddAsset, RemoveAsset}
       then !MovedOn(j.transition, row) else row.rejectedHash != Some(RejectionMarker(j.transition.hash))
  }

  /** A refusal - an unusable hash, a failed or missing payment, the wrong memo - is recorded once, under its
      own status, on a row that accepts it, and touches nothing else. */
  lemma {:induction false} RefusalIsRecorded(env: Environment, db: Db, j: Judgement, now: Instant)
    requires j.pid in db.rows && (!UsableHash(j.transition.hash) || Refuses(env, j))
    ensures var r := Commit(env, db, j, now); var after, row := ApplyStep(db, StepOf(r.0)), db.rows[j.pid];
            if AcceptsRefusal(j, row) then
              && j.pid in after.rows && after == db.(rows := db.rows[j.pid := after.rows[j.pid]])
              && RecordsRefusal(j.transition, row, after.rows[j.pid]) && r.1 == Rejected
              && (if UsableHash(j.transition.hash) then RefusedAs(env, j, after.rows[j.pid].paymentStatus)
                  else after.rows[j.pid].paymentStatus == InvalidPayment)
            else after == db && r.1 in {Skipped, Stale}
  {
    hide ResultOf, IsCanonicalHash, Confirms, Unanswered, Refuses, RefusedAs, MovedOn, RejectionMarker, Commit;
    MovedOnIsStale(j.transition, db.rows[j.pid]);
    if UsableHash(j.transition.hash) {
      AnswerDecides(env, j);
      RefusedCommit(env, db, j, now);
    } else {
      UnusableCommit(env, db, j, now);
    }
    TerminalColumns(db, j);
  }

  /** What a refused payment commits, in every kind of transition. */
  lemma {:induction false} RefusedCommit(env: Environment, db: Db, j: Judgement, now: Instant)
    requires j.pid in db.rows && UsableHash(j.transition.hash) && Refuses(env, j)
    ensures Commit(env, db, j, now)
            == if j.transition.CreateTransition? && IsAssetType(j.snapshot.proposalType)
               then CommitAssetCreate(db, j, ResultOf(env, j), now)
               else Reported(TerminalVerdict(db, j.pid, ActionOf(j.transition), ResultOf(env, j).status,
                                             j.transition.hash), Rejected)
  {
    hide ResultOf, IsCanonicalHash, Confirms, Unanswered, Refuses, DecideSubmit, SubmitScope, MatchesLocked,
         ApplyAndClaim, TerminalVerdict, CommitAssetCreate;
    AnswerDecides(env, j);
  }

  lemma UnusableCommit(env: Environment, db: Db, j: Judgement, now: Instant)
    requires j.pid in db.rows && !UsableHash(j.transition.hash)
    ensures Commit(env, db, j, now)
            == Reported(TerminalVerdict(db, j.pid, ActionOf(j.transition), InvalidPayment, j.transition.hash), Rejected)
  {
    hide UsableHash, TerminalVerdict;
  }

  lemma TerminalColumns(db: Db, j: Judgement)
    requires j.pid in db.rows
    ensures forall status ::
              var c := TerminalVerdict(db, j.pid, ActionOf(j.transition), status, j.transition.hash);
              if db.rows[j.pid].action == ActionOf(j.transition)
                 && db.rows[j.pid].rejectedHash != Some(RejectionMarker(j.transition.hash))
              then c.Rewrite? && c.pid == j.pid && c.row.paymentStatus == status
                   && RecordsRefusal(j.transition, db.rows[j.pid], c.row)
              else c == Unchanged
  {
    hide RejectionMarker;
  }

  /** A spent payment is refused the same way, as INVALID_PAYMENT, by the write that follows the rollback. */
  lemma {:induction false} ReuseIsRecorded(db: Db, j: Judgement)
    requires j.pid in db.rows
    ensures var r := HandleReuse(db, j.pid, j.transition);
            var after, row := ApplyStep(db, StepOf(r.0)), db.rows[j.pid];
            if row.action == ActionOf(j.transition) && row.rejectedHash != Some(RejectionMarker(j.transition.hash)) then
              && j.pid in after.rows && after == db.(rows := db.rows[j.pid := after.rows[j.pid]])
              && RecordsRefusal(j.transition, row, after.rows[j.pid]) && r.1 == AlreadyConsumed
              && after.rows[j.pid].paymentStatus == InvalidPayment
            else after == db && r.1 == Skipped
  {
    hide RejectionMarker;
  }

  // ---- Paid, but not applicable yet ----

  /** A confirmed submit that cannot be booked keeps waiting: only the verdict turns FINE and the clock stops. */
  lemma {:induction false} BlockedSubmitWaits(env: Environment, db: Db, j: Judgement, now: Instant)
    requires j.pid in db.rows && j.transition.SubmitTransition? && SlotLaw(db.slots) && env.horizonWeeks >= 1
    requires HeldSubmit(env, db, j) && Blocked(env, db, j, now)
    ensures var r := Commit(env, db, j, now);
            && ApplyStep(db, StepOf(r.0))
               == db.(rows := db.rows[j.pid := db.rows[j.pid].(paymentStatus := Fine, notFoundSince := None)])
            && r.1 == Obstacle(env, db, j, now)
  {
    hide ResultOf, IsCanonicalHash, Confirms, Unanswered, Refuses, SlotLaw, DecideSubmit, SubmitScope, Blocked;
    AnswerDecides(env, j);
    DecisionExact(env, db, j, now);
  }

  /** So does a confirmed asset creation while a rival is queued or voting. */
  lemma {:induction false} RivalledCreationWaits(env: Environment, db: Db, j: Judgement, now: Instant)
    requires j.pid in db.rows && j.transition.CreateTransition? && UsableHash(j.transition.hash) && Confirms(env, j)
    requires db.rows[j.pid].action == ToCreate && !MovedOn(j.transition, db.rows[j.pid])
    requires j.snapshot.proposalType in {AddAsset, RemoveAsset} && Rivalled(db, j.pid)
    ensures var r := Commit(env, db, j, now);
            && ApplyStep(db, StepOf(r.0))
               == db.(rows := db.rows[j.pid := db.rows[j.pid].(paymentStatus := Fine, notFoundSince := None)])
            && r.1 == AssetConflict
  {
    hide ResultOf, IsCanonicalHash, Confirms, Unanswered, Refuses, Rivalled, HasAssetConflict, MatchesLocked, MovedOn;
    AnswerDecides(env, j);
    RivalledIsConflict(db, j.pid);
    MovedOnIsStale(j.transition, db.rows[j.pid]);
  }
}
