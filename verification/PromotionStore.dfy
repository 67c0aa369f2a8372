/** The promotion transactions as they run: statements over mutable tables, with savepoints.
    Each transaction is proved equal to its specification in Promotion. */
module PromotionStore {
  import opened Domain
  import opened Calendar
  import opened Hashes
  import opened Ordering
  import opened Payments
  import opened Records
  import opened QueueSlots
  import opened Transitions
  import opened Promotion
  import opened PromotionOutcomes
  import opened Backfill
  import opened Protocol
  import opened Sweep

  datatype ClaimOutcome = Claimed | AlreadySpent | NothingToClaim

  datatype Report = Report(sourceHashes: nat, uniqueHashes: nat, rowsCreated: int, rowsPreExisting: nat,
                           inFlightSkipped: nat, dryRun: bool)

  class Store {
    var rows: map<ProposalId, Row>
    var history: seq<HistoryRow>
    var ledger: map<Hash, Claim>
    var slots: map<ProposalId, Slot>

    constructor (db: Db)
      ensures State() == db
    {
      rows, history, ledger, slots := db.rows, db.history, db.ledger, db.slots;
    }

    function State(): Db
      reads this
    {
      Db(rows, history, ledger, slots)
    }

    /** Rolling back to a savepoint restores every table. */
    method Restore(savepoint: Db)
      modifies this
      ensures State() == savepoint
    {
      rows, history, ledger, slots := savepoint.rows, savepoint.history, savepoint.ledger, savepoint.slots;
    }

    // ---- Single statements ----

    method InsertHistory(row: HistoryRow) returns (ok: bool)
      modifies this`history
      ensures ok <==> !HistoryHashTaken(old(history), row.hash)
      ensures history == if ok then old(history) + [row] else old(history)
    {
      ok := !HistoryHashTaken(history, row.hash);
      if ok {
        history := history + [row];
      }
    }

    method SaveRow(pid: ProposalId, row: Row) returns (ok: bool)
      modifies this`rows
      ensures ok <==> !HashTaken(old(rows), pid, row.hash)
      ensures rows == if ok then old(rows)[pid := row] else old(rows)
    {
      ok := !HashTaken(rows, pid, row.hash);
      if ok {
        rows := rows[pid := row];
      }
    }

    /** Frees the start unless somebody occupies it; occupied, own and other slots stay. */
    method DeleteStaleSlots(start: Instant, exclude: ProposalId) returns (deleted: nat)
      modifies this`slots
      ensures slots == WithoutStale(rows, old(slots), exclude, start)
      ensures deleted == |old(slots)| - |slots|
      ensures StartTaken(slots, exclude, start)
              <==> exists q :: q in old(slots) && q != exclude && old(slots)[q].start == start
                               && Occupying(rows, old(slots), q)
    {
      var before, rest := slots, slots.Keys;
      deleted := 0;
      while rest != {}
        invariant rest <= before.Keys && slots.Keys <= before.Keys && rest <= slots.Keys
        invariant forall q :: q in slots ==> slots[q] == before[q]
        invariant forall q :: q in before ==> (q !in slots <==> q !in rest && StaleAt(rows, before, q, exclude, start))
        invariant deleted == |before| - |slots|
        decreases rest
      {
        var q := Least(rest);
        rest := rest - {q};
        if q != exclude && before[q].start == start && !Occupying(rows, before, q) {
          assert slots.Keys == (slots - {q}).Keys + {q};
          slots := slots - {q};
          deleted := deleted + 1;
        }
      }
      assert slots == WithoutStale(rows, before, exclude, start);
      EvictionFreesStartIff(rows, before, exclude, start);
    }

    /** Takes the row's own slot, evicting stale holders of its start; refused only by the start index. */
    method SyncQueueSlot(pid: ProposalId, row: Row, createMissing: bool) returns (ok: bool)
      modifies this`slots
      ensures ok <==> Synced(rows, old(slots), pid, row, createMissing).Some?
      ensures ok ==> slots == Synced(rows, old(slots), pid, row, createMissing).value
    {
      if UsesSlot(row) {
        var start, end := row.startAt.value, row.endAt.value;
        var deleted := DeleteStaleSlots(start, pid);
        if pid in slots {
          if StartTaken(slots, pid, start) {
            return false;
          }
          slots := slots[pid := Slot(start, end)];
          return true;
        }
        if !createMissing {
          return true;
        }
        deleted := DeleteStaleSlots(start, pid);
        EvictionFreesStartIff(rows, old(slots), pid, start);
        if StartTaken(slots, pid, start) {
          return false;
        }
        slots := slots[pid := Slot(start, end)];
        return true;
      }
      slots := slots - {pid};
      return true;
    }

    /** Burns every canonical spelling of `hashes`, or none. */
    method ClaimTransactionHashes(hashes: set<Hash>, pid: ProposalId, purpose: Purpose, payer: Option<Account>)
        returns (r: ClaimOutcome)
      modifies this`ledger
      ensures var canonical := set h | h in hashes && CanonicalHash(Some(h)) != "" :: CanonicalHash(Some(h));
              && (r == NothingToClaim <==> canonical == {})
              && (r == AlreadySpent <==> canonical != {} && AnySpent(old(ledger), canonical))
              && ledger == if r
                 == Claimed then Burned(old(ledger), canonical, Claim(pid, purpose, PayerColumn(payer)))
                 else old(ledger)
    {
      var canonical: set<Hash>, rest := {}, hashes;
      while rest != {}
        invariant rest <= hashes
        invariant canonical == set h | h in hashes - rest && CanonicalHash(Some(h)) != "" :: CanonicalHash(Some(h))
        decreases rest
      {
        var value :| value in rest;
        var spelled := CanonicalHash(Some(value));
        assert hashes - (rest - {value}) == (hashes - rest) + {value};
        if spelled != "" {
          canonical := canonical + {spelled};
        }
        rest := rest - {value};
      }
      assert hashes - rest == hashes;
      if canonical == {} {
        return NothingToClaim;
      }
      if AnySpent(ledger, canonical) {
        return AlreadySpent;
      }
      ledger := Burned(ledger, canonical, Claim(pid, purpose, PayerColumn(payer)));
      return Claimed;
    }

    // ---- Conditional verdict writes ----

    method PersistTerminalVerdict(pid: ProposalId, expected: Action, status: PaymentStatus, hash: Option<Hash>)
        returns (landed: bool)
      modifies this`rows
      ensures State() == ApplyStep(old(State()), StepOf(TerminalVerdict(old(State()), pid, expected, status, hash)))
      ensures landed <==> TerminalVerdict(old(State()), pid, expected, status, hash) != Unchanged
    {
      var marker := RejectionMarker(hash);
      landed := pid in rows && rows[pid].action == expected && rows[pid].rejectedHash != Some(marker);
      if landed {
        var row := rows[pid].(paymentStatus := status, rejectedHash := Some(marker));
        if expected == ToCreate {
          row := row.(draft := false, action := NoAction, hidden := true);
        }
        rows := rows[pid := row];
      }
    }

    method PersistRetryableVerdict(pid: ProposalId, expected: Action, notFound: bool, now: Instant)
      modifies this`rows
      ensures State() == ApplyStep(old(State()), StepOf(RetryableVerdict(old(State()), pid, expected, notFound, now)))
    {
      if pid in rows && rows[pid].action == expected {
        var row := rows[pid].(paymentStatus := HorizonError);
        if notFound && row.notFoundSince.None? {
          row := row.(notFoundSince := Some(now));
        }
        rows := rows[pid := row];
      }
    }

    method MarkSubmitRetryState(pid: ProposalId)
      modifies this`rows
      ensures State() == ApplyStep(old(State()), StepOf(RetryState(old(State()), pid)))
    {
      if pid in rows && rows[pid].action == ToSubmit {
        rows := rows[pid := rows[pid].(paymentStatus := Fine, notFoundSince := None)];
      }
    }

    method RejectPayment(pid: ProposalId, t: Transition, result: CheckResult, now: Instant) returns (outcome: Outcome)
      modifies this`rows
      ensures var spec := Promotion.RejectPayment(old(State()), pid, t, result, now);
              outcome == spec.1 && State() == ApplyStep(old(State()), StepOf(spec.0))
    {
      if result.status == HorizonError {
        PersistRetryableVerdict(pid, ActionOf(t), result.reason == TransactionNotFound, now);
        return NotConfirmed;
      }
      var landed := PersistTerminalVerdict(pid, ActionOf(t), result.status, t.hash);
      return if landed then Rejected else Skipped;
    }

    // ---- The promotions ----

    /** The writes of a promotion before its claim; stops at the first integrity error. */
    method WritePromotion(pid: ProposalId, row: Row, shelved: Option<HistoryRow>, syncSlot: bool) returns (ok: bool)
      modifies this
      ensures var db := old(State());
              var synced := if syncSlot then Synced(db.rows[pid := row], db.slots, pid, row, true) else Some(db.slots);
              && (ok
                  <==> !(shelved.Some? && HistoryHashTaken(db.history, shelved.value.hash))
                       && !HashTaken(db.rows, pid, row.hash) && synced.Some?)
              && (ok
                  ==> State()
                      == Db(db.rows[pid := row], db.history + (if shelved.Some? then [shelved.value] else []),
                            db.ledger, synced.value))
    {
      hide Synced, HashTaken, HistoryHashTaken;
      if shelved.Some? {
        ok := InsertHistory(shelved.value);
        if !ok {
          return;
        }
      }
      ok := SaveRow(pid, row);
      if !ok {
        return;
      }
      if syncSlot {
        ok := SyncQueueSlot(pid, row, true);
      }
    }

    /** History, row, slot and claim in one savepoint: all of them land, or the tables are as before. */
    method ApplyInSavepoint(j: Judgement, result: CheckResult, row: Row, shelved: Option<HistoryRow>, syncSlot: bool,
            applied: Outcome)
        returns (outcome: Outcome)
      requires j.pid in rows && UsableHash(j.transition.hash)
      requires ClaimHashes(result.resolved, j.transition.hash.value) != {}
      modifies this
      ensures var db := old(State());
              var synced :=
                  if syncSlot then Synced(db.rows[j.pid := row], db.slots, j.pid, row, true) else Some(db.slots);
              var spec :=
                  ApplyAndClaim(db, j, result, row, if shelved.Some? then [shelved.value] else [], synced, applied);
              outcome == spec.1 && State() == ApplyStep(db, StepOf(spec.0))
    {
      hide CanonicalHash, Synced, HashTaken, HistoryHashTaken, ApplyAndClaim, AnySpent, Burned, PayerColumn;
      var savepoint := State();
      ApplyAndClaimCases(savepoint, j, result, row, shelved,
        if syncSlot then Synced(savepoint.rows[j.pid := row], savepoint.slots, j.pid, row, true)
            else Some(savepoint.slots), applied);
      var written := WritePromotion(j.pid, row, shelved, syncSlot);
      if !written {
        Restore(savepoint);
        return RaisedIntegrity;
      }
      var hashes := if result.resolved == {} then {j.transition.hash.value} else result.resolved;
      var claim := ClaimTransactionHashes(hashes, j.pid, PurposeOf(j.transition), result.payer);
      if claim != Claimed {
        Restore(savepoint);
        return ReusePending;
      }
      return applied;
    }

    method CheckUpdate(env: Environment, j: Judgement, now: Instant) returns (outcome: Outcome)
      requires j.transition.UpdateTransition? && UsableHash(j.transition.hash) && j.pid in rows
      modifies this
      ensures var spec := CommitUpdate(env, old(State()), j, now);
              outcome == spec.1 && State() == ApplyStep(old(State()), StepOf(spec.0))
      ensures var row, t := old(rows)[j.pid], j.transition;
              Confirms(env, j) && row.action == ToUpdate
              && (row.newHash != t.hash || row.newTitle != t.newTitle || row.newText != t.newText)
              ==> outcome == Stale && State() == old(State())
      ensures outcome == Updated <==> UpdateFits(env, old(State()), j) && Unspent(env, old(State()), j)
    {
      hide VerifyPayment, ExpectationOf, MatchesLocked, Promotion.RejectPayment, ApplyAndClaim, UsableHash, Confirms,
           Unspent, UpdateFits, ResultOf, UpdatedRow, ClaimHashes, IsCanonicalHash;
      UpdateDecided(env, State(), j, now);
      var result := ResultOf(env, j);
      if result.status != Fine {
        outcome := RejectPayment(j.pid, j.transition, result, now);
        return;
      }
      var locked := rows[j.pid];
      if locked.action != ToUpdate {
        return Skipped;
      }
      if !MatchesLocked(j.transition, locked) {
        return Stale;
      }
      if j.transition.newTitle.None? {
        return RaisedIntegrity;
      }
      ClaimCoversPresented(env, j);
      outcome :=
          ApplyInSavepoint(j, result, UpdatedRow(locked, j.transition, now), Some(Shelved(j.pid, locked, false)),
                           false, Updated);
    }

    /** The inner savepoint of a submit and the two ways it is recovered from. */
    method SubmitInSavepoint(env: Environment, j: Judgement, status: ProposalStatus, now: Instant)
        returns (outcome: Outcome)
      requires j.transition.SubmitTransition? && UsableHash(j.transition.hash) && j.pid in rows
      requires ResultOf(env, j).status == Fine
      modifies this
      ensures var spec := SubmitScope(old(State()), j, ResultOf(env, j), status, now);
              outcome == spec.1 && State() == ApplyStep(old(State()), StepOf(spec.0))
    {
      hide ResultOf, ApplyAndClaim, UsableHash, TerminalVerdict, Synced;
      ghost var db := State();
      ClaimCoversPresented(env, j);
      var booking := status != Expired;
      outcome :=
          ApplyInSavepoint(j, ResultOf(env, j), SubmittedRow(rows[j.pid], j.transition, status, now),
                           Some(Shelved(j.pid, rows[j.pid], true)), booking,
                                  if booking then Booked else ExpiredWindow);
      ApplyAndClaimOutcome(db, j, ResultOf(env, j), SubmittedRow(db.rows[j.pid], j.transition, status, now),
                           [Shelved(j.pid, db.rows[j.pid], true)],
        if booking
            then Synced(db.rows[j.pid := SubmittedRow(db.rows[j.pid], j.transition, status, now)], db.slots, j.pid,
                        SubmittedRow(db.rows[j.pid], j.transition, status, now), true) else Some(db.slots),
        if booking then Booked else ExpiredWindow);
      if outcome == ReusePending {
        var landed := PersistTerminalVerdict(j.pid, ToSubmit, InvalidPayment, j.transition.hash);
        return if landed then AlreadyConsumed else Skipped;
      }
      if outcome == RaisedIntegrity && booking {
        if SlotConflict(rows, slots, j.pid, j.transition.start.GetOr(0), j.transition.end.GetOr(0)) {
          MarkSubmitRetryState(j.pid);
          return SlotTaken;
        }
      }
    }

    method CheckSubmit(env: Environment, j: Judgement, now: Instant) returns (outcome: Outcome)
      requires j.transition.SubmitTransition? && UsableHash(j.transition.hash) && j.pid in rows
      modifies this
      ensures var spec := CommitSubmit(env, old(State()), j, now);
              outcome == spec.1 && State() == ApplyStep(old(State()), StepOf(spec.0))
      ensures var row, t := old(rows)[j.pid], j.transition;
              Confirms(env, j) && row.action == ToSubmit
              && (row.newHash != t.hash || row.newStart != t.start || row.newEnd != t.end)
              ==> outcome == Stale && State() == old(State())
      ensures SlotLaw(old(slots)) ==>
                (outcome in {Booked, ExpiredWindow}
                 <==> && HeldSubmit(env, old(State()), j) && !Blocked(env, old(State()), j, now)
                      && HashesFree(old(State()), j.pid, j.transition.hash, old(rows)[j.pid].hash)
                      && Unspent(env, old(State()), j))
    {
      hide VerifyPayment, ExpectationOf, MatchesLocked, Promotion.RejectPayment, SubmitScope, UsableHash, SlotConflict,
           HasAssetConflict, RetryState, ValidateWeeklySlot, Confirms, HeldSubmit, Blocked, HashesFree, Unspent,
           SlotLaw, ResultOf;
      SubmitDecided(env, State(), j, now);
      var result, t := ResultOf(env, j), j.transition;
      if result.status != Fine {
        outcome := RejectPayment(j.pid, t, result, now);
        return;
      }
      var locked := rows[j.pid];
      if locked.action != ToSubmit {
        return Skipped;
      }
      if !MatchesLocked(t, locked) {
        return Stale;
      }
      if t.start.None? || t.end.None? {
        return MissingWindow;
      }
      match ValidateWeeklySlot(Aware(t.start.value), Aware(t.end.value), now, env.horizonWeeks, true) {
        case HorizonMisconfigured =>
          return RaisedMisconfigured;
        case Invalid(_) =>
          MarkSubmitRetryState(j.pid);
          return InvalidWindow;
        case Valid =>
      }
      if t.end.value <= now {
        outcome := SubmitInSavepoint(env, j, Expired, now);
        return;
      }
      if HasAssetConflict(rows, j.pid, locked) {
        MarkSubmitRetryState(j.pid);
        return AssetConflict;
      }
      if SlotConflict(rows, slots, j.pid, t.start.value, t.end.value) {
        MarkSubmitRetryState(j.pid);
        return SlotTaken;
      }
      outcome := SubmitInSavepoint(env, j, SubmitStatus(t, now), now);
    }

    method CheckAssetCreate(env: Environment, j: Judgement, now: Instant) returns (outcome: Outcome)
      requires j.transition.CreateTransition? && UsableHash(j.transition.hash) && j.pid in rows
      modifies this
      ensures var spec := CommitAssetCreate(old(State()), j, ResultOf(env, j), now);
              outcome == spec.1 && State() == ApplyStep(old(State()), StepOf(spec.0))
      ensures var row, t := old(rows)[j.pid], j.transition;
              row.action == ToCreate && (row.hash != t.hash || row.title != t.title || row.text != t.text
                                         || row.proposedBy != t.proposedBy || row.proposalType != t.proposalType)
              ==> outcome == Stale && State() == old(State())
    {
      hide ResultOf, MatchesLocked, ApplyAndClaim, UsableHash, HasAssetConflict, RejectionMarker;
      MovedOnIsStale(j.transition, rows[j.pid]);
      var result, locked := ResultOf(env, j), rows[j.pid];
      if locked.action != ToCreate {
        return Skipped;
      }
      if !MatchesLocked(j.transition, locked) {
        return Stale;
      }
      if result.status != Fine {
        rows := rows[j.pid := locked.(draft := false, action := NoAction, lastUpdated := now, hidden := true,
                                      rejectedHash := Some(RejectionMarker(j.transition.hash)),
                                      paymentStatus := result.status)];
        return Rejected;
      }
      if HasAssetConflict(rows, j.pid, locked) {
        rows := rows[j.pid := locked.(paymentStatus := Fine, notFoundSince := None)];
        return AssetConflict;
      }
      ClaimCoversPresented(env, j);
      outcome := ApplyInSavepoint(j, result, CreatedRow(locked).(lastUpdated := now), None, false, Created);
    }

    method CheckCreate(env: Environment, j: Judgement, now: Instant) returns (outcome: Outcome)
      requires j.transition.CreateTransition? && UsableHash(j.transition.hash) && j.pid in rows
      modifies this
      ensures var spec := CommitCreate(env, old(State()), j, now);
              outcome == spec.1 && State() == ApplyStep(old(State()), StepOf(spec.0))
      ensures var row, t := old(rows)[j.pid], j.transition;
              Confirms(env, j) && row.action == ToCreate
              && (row.hash != t.hash || row.title != t.title || row.text != t.text
                  || row.proposedBy != t.proposedBy || row.proposalType != t.proposalType)
              ==> outcome == Stale && State() == old(State())
      ensures outcome == Created <==> CreateFits(env, old(State()), j) && Unspent(env, old(State()), j)
    {
      hide VerifyPayment, ExpectationOf, MatchesLocked, Promotion.RejectPayment, ApplyAndClaim, UsableHash,
           CommitAssetCreate, Confirms, Unspent, CreateFits, ResultOf, ClaimHashes, IsCanonicalHash;
      CreateDecided(env, State(), j, now);
      var result := ResultOf(env, j);
      if result.status == HorizonError && j.snapshot.legacyStatus == HorizonError {
        return NothingToDo;
      }
      if IsAssetType(j.snapshot.proposalType) && result.status != HorizonError {
        outcome := CheckAssetCreate(env, j, now);
        return;
      }
      if result.status != Fine {
        outcome := RejectPayment(j.pid, j.transition, result, now);
        return;
      }
      var locked := rows[j.pid];
      if locked.action != ToCreate {
        return Skipped;
      }
      if !MatchesLocked(j.transition, locked) {
        return Stale;
      }
      ClaimCoversPresented(env, j);
      outcome := ApplyInSavepoint(j, result, CreatedRow(locked), None, false, Created);
    }

    /** One dispatched promotion attempt, whichever transition it is for. */
    method CheckTransaction(env: Environment, j: Judgement, now: Instant) returns (outcome: Outcome)
      requires j.pid in rows
      modifies this
      ensures var spec := Commit(env, old(State()), j, now);
              outcome == spec.1 && State() == ApplyStep(old(State()), StepOf(spec.0))
      ensures UsableHash(j.transition.hash) && Unanswered(env, j) ==>
                && history == old(history) && ledger == old(ledger) && slots == old(slots)
                && rows.Keys == old(rows).Keys
                && forall q :: q in rows ==> SameButVerdict(old(rows)[q], rows[q])
    {
      hide CommitCreate, CommitUpdate, CommitSubmit, TerminalVerdict, Confirms, Unspent, UpdateFits, CreateFits,
           HeldSubmit, Blocked, HashesFree, SlotLaw, Unanswered, UsableHash, SameButVerdict;
      OutageSpares(env, State(), j, now);
      if !UsableHash(j.transition.hash) {
        var landed := PersistTerminalVerdict(j.pid, ActionOf(j.transition), InvalidPayment, j.transition.hash);
        return if landed then Rejected else Skipped;
      }
      match j.transition {
        case CreateTransition(_, _, _, _, _) => outcome := CheckCreate(env, j, now);
        case UpdateTransition(_, _, _, _, _) => outcome := CheckUpdate(env, j, now);
        case SubmitTransition(_, _, _, _, _, _) => outcome := CheckSubmit(env, j, now);
      }
    }

    // ---- Operator commands ----

    /** A re-armed row is asked about again by the next sweep, unless it stays hidden; nothing a payment
        is bound to changes, and no other row does. */
    method RearmPaymentCheck(pid: ProposalId, action: Action, unhide: bool) returns (found: bool)
      modifies this`rows
      ensures found <==> pid in old(rows)
      ensures !found ==> rows == old(rows)
      ensures found
              ==> pid in rows && rows == old(rows)[pid := rows[pid]]
                  && rows[pid] == Rearmed(old(rows)[pid], action, unhide)
      ensures found ==>
                var row, armed := old(rows)[pid], rows[pid];
                && SameContent(row, armed) && SameStaging(row, armed) && armed.action == action
                && armed.paymentStatus == Fine && armed.rejectedHash.None? && armed.notFoundSince.None?
                && armed.draft == row.draft && armed.lastUpdated == row.lastUpdated
                && (armed.hidden <==> row.hidden && !unhide)
      ensures found && action != NoAction ==>
                forall now, timeout: int :: InSweep(rows[pid], now, timeout) <==> !old(rows)[pid].hidden || unhide
      ensures found && action == NoAction ==> forall now, timeout: int :: !InSweep(rows[pid], now, timeout)
    {
      found := pid in rows;
      if found {
        var row := rows[pid].(action := action, paymentStatus := Fine, rejectedHash := None, notFoundSince := None);
        if unhide {
          row := row.(hidden := false);
        }
        rows := rows[pid := row];
      }
    }

    /** The first loop of the backfill: the proposal column in id order. */
    method CollectRowClaims() returns (claims: map<Hash, ProposalId>, sourceHashes: nat)
      ensures claims == FirstClaims(RowSources(rows, rows.Keys))
      ensures sourceHashes == SourceCount(RowSources(rows, rows.Keys))
    {
      hide CanonicalHash, FirstClaims, SourceCount;
      claims, sourceHashes := map[], 0;
      var ids := rows.Keys;
      ghost var seen: seq<Source> := [];
      NoClaimsFromNothing();
      while ids != {}
        invariant ids <= rows.Keys
        invariant seen + RowSources(rows, ids) == RowSources(rows, rows.Keys)
        invariant claims == FirstClaims(seen) && sourceHashes == SourceCount(seen)
        decreases ids
      {
        var m := Least(ids);
        if rows[m].action != ToCreate {
          var source := (rows[m].hash, m);
          ClaimsGrow(seen, source);
          assert seen + ([source] + RowSources(rows, ids - {m})) == (seen + [source]) + RowSources(rows, ids - {m});
          seen := seen + [source];
          var h := CanonicalHash(source.0);
          if h != "" {
            sourceHashes := sourceHashes + 1;
            if h !in claims {
              claims := claims[h := m];
            }
          }
        }
        ids := ids - {m};
      }
      assert seen + RowSources(rows, {}) == seen;
    }

    /** Its second loop: the history column, for hashes no proposal already holds. */
    method CollectHistoryClaims(live: map<Hash, ProposalId>, counted: nat)
        returns (claims: map<Hash, ProposalId>, sourceHashes: nat)
      requires live == FirstClaims(RowSources(rows, rows.Keys)) && counted == SourceCount(RowSources(rows, rows.Keys))
      ensures claims == Claims(State()) && sourceHashes == SourceCount(Sources(State()))
    {
      hide CanonicalHash, FirstClaims, RowSources, SourceCount;
      claims, sourceHashes := live, counted;
      ghost var r, s := RowSources(rows, rows.Keys), HistorySources(history);
      assert r + s[..0] == r;
      for i := 0 to |history|
        invariant claims == FirstClaims(r + s[..i]) && sourceHashes == SourceCount(r + s[..i])
      {
        var source := (history[i].hash, history[i].pid);
        ClaimsGrow(r + s[..i], source);
        assert r + s[..i + 1] == r + s[..i] + [source];
        var h := CanonicalHash(source.0);
        if h != "" {
          sourceHashes := sourceHashes + 1;
          if h !in claims {
            claims := claims[h := source.1];
          }
        }
      }
      assert s[..|history|] == s;
    }

    /** Burns every stored hash of a confirmed transition, and reports what it saw and what it added. */
    method BackfillConsumedTransactions(dryRun: bool) returns (report: Report)
      modifies this`ledger
      ensures ledger == if dryRun then old(ledger) else Backfilled(old(State())).ledger
      ensures report.sourceHashes == SourceCount(Sources(old(State())))
      ensures report.uniqueHashes == |Claims(old(State()))|
      ensures report.rowsCreated == |NewClaims(old(State()))|
      ensures report.rowsPreExisting == |set h | h in Claims(old(State())) && h in old(ledger)|
      ensures report.inFlightSkipped == |set q | q in old(rows) && old(rows)[q].action == ToCreate|
      ensures report.dryRun == dryRun
      ensures !dryRun ==> |ledger| == |old(ledger)| + report.rowsCreated
    {
      hide Claims, SourceCount, Sources;
      var inFlight := InFlight(rows);
      assert inFlight == set q | q in rows && rows[q].action == ToCreate;
      var claims, sourceHashes := CollectRowClaims();
      claims, sourceHashes := CollectHistoryClaims(claims, sourceHashes);
      var added := map h | h in claims && h !in ledger :: Claim(claims[h], Legacy, None);
      var preExisting := set h | h in claims && h in ledger;
      CountsAddUp(claims, added, preExisting);
      assert added == NewClaims(State());
      if !dryRun {
        DisjointSizes(ledger, added);
        ledger := ledger + added;
      }
      report := Report(sourceHashes, |claims|, |claims| - |preExisting|, |preExisting|, |inFlight|, dryRun);
    }
  }

  lemma DisjointSizes(a: map<Hash, Claim>, b: map<Hash, Claim>)
    requires a.Keys !! b.Keys
    ensures |a + b| == |a| + |b|
  {
    assert (a + b).Keys == a.Keys + b.Keys;
    assert |a.Keys + b.Keys| == |a.Keys| + |b.Keys|;
  }

  lemma NoClaimsFromNothing()
    ensures FirstClaims([]) == map[] && SourceCount([]) == 0
  {
  }

  lemma ApplyAndClaimCases(db: Db, j: Judgement, result: CheckResult, row: Row, shelved: Option<HistoryRow>,
          slots: Option<map<ProposalId, Slot>>, applied: Outcome)
    requires j.pid in db.rows && UsableHash(j.transition.hash)
    ensures var shelf := if shelved.Some? then [shelved.value] else [];
            var hashes := ClaimHashes(result.resolved, j.transition.hash.value);
            var spec := ApplyAndClaim(db, j, result, row, shelf, slots, applied);
            if (shelved.Some? && HistoryHashTaken(db.history, shelved.value.hash))
                || HashTaken(db.rows, j.pid, row.hash) || slots.None?
            then spec == (Unchanged, RaisedIntegrity)
            else if AnySpent(db.ledger, hashes) then spec == (Unchanged, ReusePending)
            else spec.1 == applied && spec.0.Promote?
                 && ApplyStep(db, StepOf(spec.0))
                    == Db(db.rows[j.pid := row], db.history + shelf,
                          Burned(db.ledger, hashes, Claim(j.pid, PurposeOf(j.transition), PayerColumn(result.payer))),
                          slots.value)
  {
    hide ClaimHashes, HashTaken, HistoryHashTaken, PayerColumn;
    if shelved.Some? {
      assert [shelved.value][0] == shelved.value;
    }
  }

  lemma {:induction false} UpdateDecided(env: Environment, db: Db, j: Judgement, now: Instant)
    requires j.transition.UpdateTransition? && UsableHash(j.transition.hash) && j.pid in db.rows
    ensures var r := CommitUpdate(env, db, j, now); var row, t := db.rows[j.pid], j.transition;
            && (Confirms(env, j) && row.action == ToUpdate
                && (row.newHash != t.hash || row.newTitle != t.newTitle || row.newText != t.newText)
                ==> r == (Unchanged, Stale))
            && (r.1 == Updated <==> UpdateFits(env, db, j) && Unspent(env, db, j))
  {
    hide CommitUpdate, UsableHash, Confirms, Unspent;
    UpdateAppliesIff(env, db, j, now);
    if Confirms(env, j) {
      StaleChangesNothing(env, db, j, now);
    }
  }

  lemma {:induction false} SubmitDecided(env: Environment, db: Db, j: Judgement, now: Instant)
    requires j.transition.SubmitTransition? && UsableHash(j.transition.hash) && j.pid in db.rows
    ensures var r := CommitSubmit(env, db, j, now); var row, t := db.rows[j.pid], j.transition;
            && (Confirms(env, j) && row.action == ToSubmit
                && (row.newHash != t.hash || row.newStart != t.start || row.newEnd != t.end)
                ==> r == (Unchanged, Stale))
            && (SlotLaw(db.slots)
                ==> (r.1 in {Booked, ExpiredWindow}
                     <==> && HeldSubmit(env, db, j) && !Blocked(env, db, j, now)
                          && HashesFree(db, j.pid, t.hash, row.hash) && Unspent(env, db, j)))
  {
    hide CommitSubmit, UsableHash, Confirms, Unspent, HashesFree, SlotLaw;
    if SlotLaw(db.slots) {
      SubmitAppliesIff(env, db, j, now);
    }
    if Confirms(env, j) {
      StaleChangesNothing(env, db, j, now);
    }
  }

  lemma {:induction false} CreateDecided(env: Environment, db: Db, j: Judgement, now: Instant)
    requires j.transition.CreateTransition? && UsableHash(j.transition.hash) && j.pid in db.rows
    ensures var r := CommitCreate(env, db, j, now); var row, t := db.rows[j.pid], j.transition;
            && (Confirms(env, j) && row.action == ToCreate
                && (row.hash != t.hash || row.title != t.title || row.text != t.text
                    || row.proposedBy != t.proposedBy || row.proposalType != t.proposalType)
                ==> r == (Unchanged, Stale))
            && (r.1 == Created <==> CreateFits(env, db, j) && Unspent(env, db, j))
  {
    hide CommitCreate, UsableHash, Confirms, Unspent;
    CreateAppliesIff(env, db, j, now);
    if Confirms(env, j) {
      StaleChangesNothing(env, db, j, now);
    }
  }

  predicate SameButVerdict(before: Row, after: Row)
  {
    && after.action == before.action && after.hidden == before.hidden && after.draft == before.draft
    && after.rejectedHash == before.rejectedHash && SameContent(before, after) && SameStaging(before, after)
  }

  lemma {:induction false} OutageSpares(env: Environment, db: Db, j: Judgement, now: Instant)
    requires j.pid in db.rows
    ensures UsableHash(j.transition.hash) && Unanswered(env, j) ==>
              var after := ApplyStep(db, StepOf(Commit(env, db, j, now).0));
              && after == db.(rows := after.rows) && after.rows.Keys == db.rows.Keys
              && forall q :: q in after.rows ==> SameButVerdict(db.rows[q], after.rows[q])
  {
    hide Commit, UsableHash, Unanswered;
    if UsableHash(j.transition.hash) && Unanswered(env, j) {
      OutageDecidesNothing(env, db, j, now);
    }
  }

  lemma ApplyAndClaimOutcome(db: Db, j: Judgement, result: CheckResult, row: Row, shelved: seq<HistoryRow>,
          slots: Option<map<ProposalId, Slot>>, applied: Outcome)
    requires j.pid in db.rows && UsableHash(j.transition.hash) && applied in {Booked, ExpiredWindow}
    ensures var r := ApplyAndClaim(db, j, result, row, shelved, slots, applied);
            && r.1 in {applied, ReusePending, RaisedIntegrity}
            && (r.1 != applied ==> r.0 == Unchanged)
  {
  }

  lemma ClaimsGrow(sources: seq<Source>, next: Source)
    ensures var h := CanonicalHash(next.0); var earlier := FirstClaims(sources);
            FirstClaims(sources + [next]) == if h == "" || h in earlier then earlier else earlier[h := next.1]
    ensures SourceCount(sources + [next]) == SourceCount(sources) + if CanonicalHash(next.0) != "" then 1 else 0
  {
    hide CanonicalHash;
    assert (sources + [next])[..|sources|] == sources;
  }

  lemma CountsAddUp(claims: map<Hash, ProposalId>, added: map<Hash, Claim>, kept: set<Hash>)
    requires added.Keys + kept == claims.Keys && added.Keys !! kept
    ensures |added| == |claims| - |kept|
  {
    assert |added.Keys + kept| == |added.Keys| + |kept|;
  }
}
