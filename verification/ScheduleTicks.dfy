/** The schedule tick and the staging endpoints as statements over the store, each tied to the
    protocol's own steps. */
module ScheduleTicks {
  import opened Domain
  import opened Calendar
  import opened Hashes
  import opened Payments
  import opened Records
  import opened QueueSlots
  import opened Promotion
  import opened Ordering
  import opened Protocol
  import opened PromotionStore
  import opened PromotionOutcomes
  import opened ScheduleLaws

  // ---- Staging ----

  /** The update endpoint's write; refused on a closed row or a hash staged elsewhere. */
  method StageUpdate(store: Store, env: Environment, pid: ProposalId, title: string, text: Html, hash: Hash,
          envelope: Option<string>, advisory: PaymentStatus)
      returns (ok: bool)
    modifies store`rows
    ensures store.State()
            == ApplyStep(old(store.State()),
                         StageStep(env, old(store.State()),
                                   Label.StageUpdate(pid, title, text, hash, envelope, advisory)))
    ensures ok
            <==> StageStep(env, old(store.State()),
                           Label.StageUpdate(pid, title, text, hash, envelope, advisory)) != Keep
    ensures ok <==> TakesStaging(old(store.State()), pid, hash)
    ensures ok ==>
              && pid in store.rows && store.rows == old(store.rows)[pid := store.rows[pid]]
              && Armed(old(store.rows)[pid], store.rows[pid], ToUpdate, hash, envelope, advisory)
              && store.rows[pid].newTitle == Some(title) && store.rows[pid].newText == Some(text)
  {
    hide HashTaken, IsCanonicalHash, TakesStaging, Armed;
    StagedUpdateColumns(env, store.State(), Label.StageUpdate(pid, title, text, hash, envelope, advisory));
    ok := pid in store.rows && OpenForStaging(store.rows[pid]) && IsCanonicalHash(hash)
        && !NewHashTaken(store.rows, pid, Some(hash));
    if ok {
      var row := store.rows[pid];
      row := row.(newTitle := Some(title), newText := Some(text), newHash := Some(hash), newEnvelope := envelope);
      row := row.(action := ToUpdate, paymentStatus := advisory);
      row := row.(rejectedHash := None, notFoundSince := None);
      store.rows := store.rows[pid := row];
    }
  }

  /** The submit endpoint's write, under the transition lock: the window must be bookable and free. */
  method StageSubmit(store: Store, env: Environment, pid: ProposalId, start: Instant, end: Instant, hash: Hash,
          envelope: Option<string>, advisory: PaymentStatus, now: Instant)
      returns (ok: bool)
    modifies store`rows
    ensures store.State()
            == ApplyStep(old(store.State()),
                         StageStep(env, old(store.State()),
                                   Label.StageSubmit(pid, start, end, hash, envelope, advisory, now)))
    ensures ok
            <==> StageStep(env, old(store.State()),
                           Label.StageSubmit(pid, start, end, hash, envelope, advisory, now)) != Keep
    ensures SlotLaw(old(store.slots)) ==>
              (ok <==> && TakesStaging(old(store.State()), pid, hash) && env.horizonWeeks >= 1
                       && (exists k :: 1 <= k <= env.horizonWeeks && IsWeekAhead(Aware(start), Aware(end), now, k))
                       && !Rivalled(old(store.State()), pid) && !WeekHeld(old(store.State()), pid, start))
    ensures SlotLaw(old(store.slots)) && ok ==>
              && pid in store.rows && store.rows == old(store.rows)[pid := store.rows[pid]]
              && Armed(old(store.rows)[pid], store.rows[pid], ToSubmit, hash, envelope, advisory)
              && store.rows[pid].newStart == Some(start) && store.rows[pid].newEnd == Some(end)
  {
    hide HashTaken, IsCanonicalHash, SlotConflict, HasAssetConflict, ValidateWeeklySlot, TakesStaging, Armed, SlotLaw,
         Rivalled, WeekHeld;
    if SlotLaw(store.slots) {
      StagedSubmitColumns(env, store.State(),
                          Label.StageSubmit(pid, start, end, hash, envelope, advisory, now));
    }
    ok := pid in store.rows && OpenForStaging(store.rows[pid]) && IsCanonicalHash(hash)
        && !NewHashTaken(store.rows, pid, Some(hash));
    if !ok {
      return;
    }
    if ValidateWeeklySlot(Aware(start), Aware(end), now, env.horizonWeeks, false) != Valid {
      return false;
    }
    if HasAssetConflict(store.rows, pid, store.rows[pid]) || SlotConflict(store.rows, store.slots, pid, start, end) {
      return false;
    }
    var row :=
        store.rows[pid].(newStart := Some(start), newEnd := Some(end), newHash := Some(hash), newEnvelope := envelope);
    row := row.(action := ToSubmit, paymentStatus := advisory, rejectedHash := None, notFoundSince := None);
    store.rows := store.rows[pid := row];
  }

  // ---- Ticks are runs ----

  lemma RunGrows(env: Environment, w: World, labels: seq<Label>, l: Label)
    ensures Run(env, w, labels + [l]) == Exec(env, Run(env, w, labels), l)
  {
    assert (labels + [l])[..|labels|] == labels;
  }

  function DueIds(rows: map<ProposalId, Row>, now: Instant): set<ProposalId>
  {
    set q | q in rows && DueToFinish(rows[q], now)
  }

  /** The database once some due proposals are decided: their slots are free, nothing else moved. */
  function Decided(db: Db, done: set<ProposalId>): Db
  {
    db.(rows := map q | q in db.rows :: if q in done then db.rows[q].(proposalStatus := Voted) else db.rows[q],
                                        slots := db.slots - done)
  }

  lemma DecidedGrows(db: Db, done: set<ProposalId>, pid: ProposalId)
    requires pid in db.rows && pid !in done
    ensures Decided(db, done + {pid})
            == Decided(db, done).(rows := Decided(db, done).rows[pid := db.rows[pid].(proposalStatus := Voted)],
                                  slots := Decided(db, done).slots - {pid})
    ensures pid in Decided(db, done).rows && Decided(db, done).rows[pid] == db.rows[pid]
  {
  }

  lemma NoneDecided(db: Db)
    ensures Decided(db, {}) == db
  {
    assert db.slots - {} == db.slots;
  }

  method FinishProposal(store: Store, pid: ProposalId)
    requires pid in store.rows
    modifies store`rows, store`slots
    ensures store.State()
            == old(store.State()).(rows := old(store.rows)[pid := old(store.rows)[pid].(proposalStatus := Voted)],
                                   slots := old(store.slots) - {pid})
  {
    hide Synced;
    store.rows := store.rows[pid := store.rows[pid].(proposalStatus := Voted)];
    DecidedFreesSlot(store.rows, store.slots, pid, store.rows[pid]);
    var synced := store.SyncQueueSlot(pid, store.rows[pid], true);
  }

  /** Every voting proposal past its end becomes decided and gives up its slot. */
  method FinishDueVotingProposals(store: Store, now: Instant, ghost env: Environment, ghost w: World)
      returns (finished: set<ProposalId>, ghost labels: seq<Label>)
    requires w.db == store.State() && w.due == {} && w.ended == {}
    modifies store`rows, store`slots
    ensures finished == set q | q in old(store.rows) && VoteEnded(old(store.rows)[q], now)
    ensures store.rows.Keys == old(store.rows).Keys && forall q :: q in store.rows ==> !VoteEnded(store.rows[q], now)
    ensures forall q :: q in finished ==>
              store.rows[q] == old(store.rows)[q].(proposalStatus := Voted) && q !in store.slots
    ensures forall q :: q in store.rows && !VoteEnded(old(store.rows)[q], now) ==>
              store.rows[q] == old(store.rows)[q] && SlotOf(store.slots, q) == SlotOf(old(store.slots), q)
    ensures store.history == old(store.history) && store.ledger == old(store.ledger)
    ensures Run(env, w, labels) == w.(db := store.State())
  {
    hide Run, Exec, DueIds, Decided, VoteEnded;
    finished := DueIds(store.rows, now);
    DueAreRows(store.rows, now);
    ghost var db := store.State();
    NoneDecided(db);
    var rest := finished;
    labels := [ReadDue(now)];
    ReadsDue(env, w, now);
    assert finished - rest == {};
    while rest != {}
      invariant rest <= finished
      invariant store.State() == Decided(db, finished - rest)
      invariant Run(env, w, labels) == w.(db := store.State(), due := rest)
      decreases rest
    {
      var pid := Least(rest);
      DecidedGrows(db, finished - rest, pid);
      assert finished - (rest - {pid}) == (finished - rest) + {pid};
      ghost var before := Run(env, w, labels);
      FinishesOne(env, before, pid);
      FinishProposal(store, pid);
      RunGrows(env, w, labels, MarkVoted(pid));
      RunGrows(env, w, labels + [MarkVoted(pid)], DropSlot(pid));
      labels := labels + [MarkVoted(pid)] + [DropSlot(pid)];
      rest := rest - {pid};
    }
    assert finished - rest == finished;
    DecidedColumns(db, now);
  }

  function SlotOf(slots: map<ProposalId, Slot>, q: ProposalId): Option<Slot>
  {
    if q in slots then Some(slots[q]) else None
  }

  lemma {:induction false} DecidedColumns(db: Db, now: Instant)
    ensures var due := DueIds(db.rows, now); var after := Decided(db, due);
            && due == (set q | q in db.rows && VoteEnded(db.rows[q], now))
            && after.rows.Keys == db.rows.Keys
            && (forall q :: q in after.rows ==> !VoteEnded(after.rows[q], now))
            && (forall q :: q in due ==> after.rows[q] == db.rows[q].(proposalStatus := Voted) && q !in after.slots)
            && (forall q :: q in after.rows && !VoteEnded(db.rows[q], now) ==>
                  after.rows[q] == db.rows[q] && SlotOf(after.slots, q) == SlotOf(db.slots, q))
            && after.history == db.history && after.ledger == db.ledger
  {
  }

  lemma DueAreRows(rows: map<ProposalId, Row>, now: Instant)
    ensures DueIds(rows, now) <= rows.Keys
  {
  }

  lemma DecidedFreesSlot(rows: map<ProposalId, Row>, slots: map<ProposalId, Slot>, pid: ProposalId, row: Row)
    requires row.proposalStatus == Voted
    ensures Synced(rows, slots, pid, row, true) == Some(slots - {pid})
  {
  }

  lemma ReadsDue(env: Environment, w: World, now: Instant)
    requires w.due == {}
    ensures Run(env, w, [ReadDue(now)]) == w.(due := DueIds(w.db.rows, now))
  {
    RunGrows(env, w, [], ReadDue(now));
    assert [] + [ReadDue(now)] == [ReadDue(now)];
  }

  lemma FinishesOne(env: Environment, w: World, pid: ProposalId)
    requires pid in w.due && pid in w.db.rows && w.ended == {}
    ensures Exec(env, Exec(env, w, MarkVoted(pid)), DropSlot(pid))
            == w.(db := w.db.(rows := w.db.rows[pid := w.db.rows[pid].(proposalStatus := Voted)],
                              slots := w.db.slots - {pid}), due := w.due - {pid})
  {
    assert {pid} - {pid} == {};
  }

  /** One statement retires every open proposal that was left alone too long. */
  method ExpireStaleDiscussions(store: Store, env: Environment, now: Instant) returns (expired: nat)
    modifies store`rows
    ensures store.rows == map q | q in old(store.rows) ::
              if LeftAlone(env, old(store.State()), q, now) then old(store.rows)[q].(proposalStatus := Expired)
                  else old(store.rows)[q]
    ensures expired == |set q | q in old(store.rows) && LeftAlone(env, old(store.State()), q, now)|
    ensures forall q :: !LeftAlone(env, store.State(), q, now)
  {
    var state := store.State();
    forall q ensures StaleDiscussion(env, state, q, now) <==> LeftAlone(env, state, q, now) {
      DueExactly(env, state, q, now);
    }
    var stale := set q | q in store.rows && StaleDiscussion(env, state, q, now);
    store.rows :=
        map q | q in store.rows :: if q in stale then store.rows[q].(proposalStatus := Expired, action := NoAction)
                                   else store.rows[q];
    assert stale == set q | q in old(store.rows) && LeftAlone(env, state, q, now);
    expired := |stale|;
  }

  // ---- Starting ----

  /** The rows the start query returns. */
  predicate StartCandidate(db: Db, q: ProposalId, now: Instant)
  {
    Occupying(db.rows, db.slots, q) && db.rows[q].proposalStatus == Queued
        && db.rows[q].startAt.value <= now < db.rows[q].endAt.value
  }

  predicate OthersVoting(rows: map<ProposalId, Row>, pid: ProposalId)
  {
    exists q :: q in rows && q != pid && !rows[q].hidden && !rows[q].draft && rows[q].proposalStatus == Voting
  }

  /** At most one proposal starts, and one does exactly when one is due. */
  method StartDueScheduledProposals(store: Store, now: Instant) returns (started: nat, ghost chosen: Option<ProposalId>)
    modifies store`rows
    ensures started == if chosen.Some? then 1 else 0
    ensures chosen.None? <==> forall q :: !MayOpen(old(store.State()), q, now)
    ensures chosen.Some? ==>
              var pid := chosen.value;
              && MayOpen(old(store.State()), pid, now)
              && store.rows == old(store.rows)[pid := old(store.rows)[pid].(proposalStatus := Voting)]
    ensures chosen.None? ==> store.rows == old(store.rows)
  {
    hide Occupying, MayOpen;
    var state := store.State();
    forall q ensures DueToStart(state, q, now) <==> MayOpen(state, q, now) {
      StartExactly(state, q, now);
    }
    var rest := set q | q in store.rows && StartCandidate(state, q, now);
    started, chosen := 0, None;
    CandidatesAreRows(state, now);
    while rest != {}
      invariant rest <= store.rows.Keys && store.rows == old(store.rows)
      invariant forall q :: q in rest ==> StartCandidate(state, q, now)
      invariant forall q :: StartCandidate(state, q, now) ==> q in rest || !DueToStart(state, q, now)
      decreases rest
    {
      var pid := Least(rest);
      rest := rest - {pid};
      if OthersVoting(store.rows, pid) {
        continue;
      }
      assert DueToStart(state, pid, now);
      store.rows := store.rows[pid := store.rows[pid].(proposalStatus := Voting)];
      started, chosen := 1, Some(pid);
      return;
    }
  }

  lemma CandidatesAreRows(db: Db, now: Instant)
    ensures forall q :: DueToStart(db, q, now) ==> StartCandidate(db, q, now)
    ensures forall q :: StartCandidate(db, q, now) ==> q in db.rows
  {
  }

  /** On disjoint whole-week slots no two proposals are ever due together, so the order of the
      start query does not matter. */
  lemma OnlyOneIsDue(db: Db, p: ProposalId, q: ProposalId, now: Instant)
    requires SlotLaw(db.slots) && StartCandidate(db, p, now) && StartCandidate(db, q, now)
    ensures p == q
  {
    SlotsAreDisjoint(db.slots, p, q, now);
  }
}
