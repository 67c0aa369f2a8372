/** When a proposal's schedule state may move, and what a staging request leaves behind, said on the columns. */
module ScheduleLaws {
  import opened Domain
  import opened Calendar
  import opened Hashes
  import opened Payments
  import opened Records
  import opened QueueSlots
  import opened Transitions
  import opened Promotion
  import opened Backfill
  import opened PromotionOutcomes
  import opened Protocol
  import opened ProtocolInvariants
  import opened PromotionTheorems

  // ---- What is due ----

  /** A visible vote whose last second has passed. */
  ghost predicate VoteEnded(row: Row, now: Instant)
  {
    !row.hidden && !row.draft && row.proposalStatus == Voting && row.endAt.Some? && row.endAt.value <= now
  }

  /** A visible discussion without a slot, with nothing staged and no change for the whole period. */
  ghost predicate LeftAlone(env: Environment, db: Db, q: ProposalId, now: Instant)
  {
    && q in db.rows && q !in db.slots
    && var row := db.rows[q];
       !row.hidden && !row.draft && row.action == NoAction && row.proposalStatus == Discussion
       && row.lastUpdated + env.expiredAfter <= now
  }

  /** A queued proposal in its own booked week, while nobody else is voting. */
  ghost predicate MayOpen(db: Db, q: ProposalId, now: Instant)
  {
    && q in db.rows && q in db.slots && Uses(db.rows[q], db.slots[q]) && db.rows[q].proposalStatus == Queued
    && db.slots[q].start <= now < db.slots[q].end
    && forall p :: p in db.rows && p != q
                   ==> db.rows[p].hidden || db.rows[p].draft || db.rows[p].proposalStatus != Voting
  }

  lemma DueExactly(env: Environment, db: Db, q: ProposalId, now: Instant)
    ensures q in db.rows ==> (DueToFinish(db.rows[q], now) <==> VoteEnded(db.rows[q], now))
    ensures StaleDiscussion(env, db, q, now) <==> LeftAlone(env, db, q, now)
  {
  }

  lemma StartExactly(db: Db, q: ProposalId, now: Instant)
    ensures DueToStart(db, q, now) <==> MayOpen(db, q, now)
  {
  }

  // ---- Every move of the schedule state ----

  /** The only ways a step moves the state of `q`. */
  ghost predicate MovesLawfully(env: Environment, w: World, l: Label, q: ProposalId, after: Row)
    requires q in w.db.rows
  {
    var row := w.db.rows[q];
    match after.proposalStatus
    case Discussion => false
    case Queued => row.action == ToSubmit && l.CommitVerdict? && Submitted(row, after) && after.startAt.value > l.now
    case Voting =>
      || (&& row.action == ToSubmit && l.CommitVerdict? && Submitted(row, after)
          && after.startAt.value <= l.now < after.endAt.value)
      || (l.StartDue? && l.pid == q && MayOpen(w.db, q, l.now) && after == row.(proposalStatus := Voting))
    case Voted => l.MarkVoted? && l.pid == q && q in w.due && after == row.(proposalStatus := Voted)
    case Expired =>
      || (row.action == ToSubmit && l.CommitVerdict? && Submitted(row, after) && after.endAt.value <= l.now)
      || (l.ExpireStale? && l.pid == q && LeftAlone(env, w.db, q, l.now) && after == row.(proposalStatus := Expired))
  }

  /** The window went from the staged columns into the booked ones. */
  ghost predicate Submitted(row: Row, after: Row)
  {
    && after.startAt.Some? && after.endAt.Some?
    && after.startAt == row.newStart && after.endAt == row.newEnd && after.hash == row.newHash
  }

  lemma {:induction false} CommitMovesState(env: Environment, db: Db, j: Judgement, now: Instant)
    requires WellJudged(db, j)
    ensures var after := ApplyStep(db, StepOf(Commit(env, db, j, now).0));
            && j.pid in after.rows && after.rows == db.rows[j.pid := after.rows[j.pid]]
            && var row, written := db.rows[j.pid], after.rows[j.pid];
               written.proposalStatus == row.proposalStatus
               || (&& row.action == ToSubmit && Submitted(row, written)
                   && written.proposalStatus == (if written.endAt.value <= now then Expired
                                                 else if written.startAt.value > now then Queued else Voting))
  {
    hide Commit, PaidFor, SlotLaw, HasAssetConflict, HashTaken, AnySpent, WellJudged, IsCanonicalHash;
    JudgedRow(db, j);
    var c := Commit(env, db, j, now).0;
    CommitIsLawful(env, db, j, now);
    if c.Promote? {
      PromotionMovesState(env, db, j, now);
    }
  }

  lemma JudgedRow(db: Db, j: Judgement)
    requires WellJudged(db, j)
    ensures j.pid in db.rows
  {
  }

  lemma {:induction false} PromotionMovesState(env: Environment, db: Db, j: Judgement, now: Instant)
    requires WellJudged(db, j) && Commit(env, db, j, now).0.Promote?
    ensures j.pid in db.rows && Commit(env, db, j, now).0.pid == j.pid
    ensures var row, written := db.rows[j.pid], Commit(env, db, j, now).0.row;
            written.proposalStatus == row.proposalStatus
            || (&& row.action == ToSubmit && Submitted(row, written)
                && written.proposalStatus == (if written.endAt.value <= now then Expired
                                              else if written.startAt.value > now then Queued else Voting))
  {
    hide Commit, SlotLaw, HasAssetConflict, HashTaken, AnySpent, WellJudged, IsCanonicalHash, Authorizes;
    JudgedRow(db, j);
    CommitIsLawful(env, db, j, now);
    var e := Commit(env, db, j, now).0.entry;
    assert StillHeld(e.purpose, e.before, e.after) && UsesUp(e.purpose, e.before, e.after);
    if j.transition.SubmitTransition? {
      var status := PromotedSubmit(env, db, j, now);
      PromotedScope(db, j, ResultOf(env, j), status, now);
    }
  }

  lemma PhaseJudgement(w: World, worker: WorkerId)
    requires WorkersLaw(w) && worker in w.workers && !w.workers[worker].Loaded?
    ensures WellJudged(w.db, w.workers[worker].judgement)
  {
    assert PhaseLaw(w.db, w.workers[worker]);
  }

  lemma {:induction false} WorkerMovesLawfully(env: Environment, w: World, l: Label, q: ProposalId)
    requires WorkersLaw(w) && q in w.db.rows && IsWorkerWrite(l)
    ensures var rows := Exec(env, w, l).db.rows;
            && q in rows && rows.Keys == w.db.rows.Keys
            && (rows[q].proposalStatus == w.db.rows[q].proposalStatus || MovesLawfully(env, w, l, q, rows[q]))
  {
    hide WorkersLaw, Commit, HandleReuse, WellJudged, WorkersAfter, Submitted;
    if l.worker in w.workers && !w.workers[l.worker].Loaded? {
      var j := w.workers[l.worker].judgement;
      PhaseJudgement(w, l.worker);
      JudgedRow(w.db, j);
      if l.CommitVerdict? {
        CommitMovesState(env, w.db, j, l.now);
        WindowIsPresent(w.db.rows[j.pid], ApplyStep(w.db, StepOf(Commit(env, w.db, j, l.now).0)).rows[j.pid]);
      } else {
        RefusalKeepsState(w.db, j);
      }
    }
  }

  lemma WindowIsPresent(row: Row, after: Row)
    ensures Submitted(row, after) ==> after.startAt.Some? && after.endAt.Some?
  {
  }

  lemma RefusalKeepsState(db: Db, j: Judgement)
    requires j.pid in db.rows
    ensures var after := ApplyStep(db, StepOf(HandleReuse(db, j.pid, j.transition).0));
            && j.pid in after.rows && after.rows == db.rows[j.pid := after.rows[j.pid]]
            && after.rows[j.pid].proposalStatus == db.rows[j.pid].proposalStatus
  {
    hide RejectionMarker;
  }

  /** Whatever the label, a proposal's schedule state stays or moves for its own lawful reason: a submit that
      was paid for, a vote that was read as ended, a discussion left alone, a booked week that may open. */
  lemma {:induction false} StateMovesLawfully(env: Environment, w: World, l: Label, q: ProposalId)
    requires WorkersLaw(w) && q in w.db.rows
    ensures var rows := Exec(env, w, l).db.rows;
            q in rows && (rows[q].proposalStatus == w.db.rows[q].proposalStatus || MovesLawfully(env, w, l, q, rows[q]))
  {
    hide WorkersLaw, CommitOf, RefusalOf, HasAssetConflict, SlotConflict, HashTaken, NewHashTaken, LeftAlone, MayOpen,
         StaleDiscussion, DueToStart, IsCanonicalHash, ValidateWeeklySlot, WorkersAfter, Submitted, NewClaims,
         HasHistory, DueToFinish;
    if IsWorkerWrite(l) {
      WorkerMovesLawfully(env, w, l, q);
    } else if l.ExpireStale? || l.StartDue? {
      DueExactly(env, w.db, q, l.now);
      StartExactly(w.db, q, l.now);
    }
  }

  // ---- Votes close only when they ended ----

  /** Label `n` read `q` as a vote past its end. */
  ghost predicate ReadEnded(env: Environment, start: World, labels: seq<Label>, n: int, q: ProposalId)
  {
    && 0 <= n < |labels| && labels[n].ReadDue?
    && var w := Run(env, start, labels[..n]);
       q in w.db.rows && VoteEnded(w.db.rows[q], labels[n].now)
  }

  lemma {:induction false} DueIsReadBy(env: Environment, w: World, l: Label, q: ProposalId)
    requires q in Exec(env, w, l).due && q !in w.due
    ensures l.ReadDue? && q in w.db.rows && VoteEnded(w.db.rows[q], l.now)
  {
    hide StepFor, WorkersAfter, ApplyStep;
  }

  lemma {:induction false} DueWasRead(env: Environment, start: World, labels: seq<Label>, q: ProposalId)
      returns (n: int)
    requires Start(start) && q in Run(env, start, labels).due
    ensures ReadEnded(env, start, labels, n, q)
  {
    hide Run, Exec, VoteEnded;
    RunOfNothing(env, start);
    assert labels != [] by {
      assert labels == [] ==> Run(env, start, labels).due == {};
    }
    var last := |labels| - 1;
    RunUnfolds(env, start, labels);
    if q in Run(env, start, labels[..last]).due {
      n := DueWasRead(env, start, labels[..last], q);
      assert labels[..last][..n] == labels[..n];
    } else {
      DueIsReadBy(env, Run(env, start, labels[..last]), labels[last], q);
      n := last;
    }
  }

  lemma {:induction false} NewRowIsDiscussed(env: Environment, w: World, l: Label, q: ProposalId)
    requires WorkersLaw(w) && q !in w.db.rows && q in Exec(env, w, l).db.rows
    ensures Exec(env, w, l).db.rows[q].proposalStatus == Discussion
  {
    hide WorkersLaw, StepFor, WorkersAfter, PaidFor, HasAssetConflict, HashTaken, SlotLaw, IsCanonicalHash;
    StepIsLawful(env, w, l);
  }

  /** Over any run, a proposal that came to be decided was read, visible and voting, at or after its end. */
  lemma {:induction false} VotedWasEnded(env: Environment, start: World, labels: seq<Label>, q: ProposalId)
      returns (n: int)
    requires Start(start) && (q in start.db.rows ==> start.db.rows[q].proposalStatus != Voted)
    requires q in Run(env, start, labels).db.rows && Run(env, start, labels).db.rows[q].proposalStatus == Voted
    ensures ReadEnded(env, start, labels, n, q)
    decreases |labels|
  {
    hide Run, Exec, ReadEnded, Invariant;
    RunOfNothing(env, start);
    assert labels != [] by {
      assert labels == [] ==> Run(env, start, labels) == start;
    }
    var last := |labels| - 1;
    var w := Run(env, start, labels[..last]);
    RunUnfolds(env, start, labels);
    RunKeepsInvariant(env, start, labels[..last]);
    InvariantKnowsWorkers(env, w);
    if q !in w.db.rows {
      NewRowIsDiscussed(env, w, labels[last], q);
    } else if w.db.rows[q].proposalStatus == Voted {
      n := VotedWasEnded(env, start, labels[..last], q);
      ReadEarlier(env, start, labels, n, q);
    } else {
      StateMovesLawfully(env, w, labels[last], q);
      n := DueWasRead(env, start, labels[..last], q);
      ReadEarlier(env, start, labels, n, q);
    }
  }

  lemma {:induction false} ReadEarlier(env: Environment, start: World, labels: seq<Label>, n: int, q: ProposalId)
    requires labels != [] && ReadEnded(env, start, labels[..|labels| - 1], n, q)
    ensures ReadEnded(env, start, labels, n, q)
  {
    hide Run, VoteEnded;
    assert labels[..|labels| - 1][..n] == labels[..n];
  }

  // ---- What staging leaves behind ----

  /** The update and submit endpoints take a request exactly on an open row and an unused canonical hash. */
  ghost predicate TakesStaging(db: Db, pid: ProposalId, hash: Hash)
  {
    && pid in db.rows && db.rows[pid].proposalStatus == Discussion && !db.rows[pid].hidden && !db.rows[pid].draft
    && IsCanonicalHash(hash)
    && forall q :: q in db.rows && q != pid ==> db.rows[q].newHash != Some(hash)
  }

  /** A staged request arms its action afresh and leaves every published column alone. */
  ghost predicate Armed(row: Row, after: Row, action: Action, hash: Hash, envelope: Option<string>,
                        advisory: PaymentStatus)
  {
    && after.action == action && after.newHash == Some(hash) && after.newEnvelope == envelope
    && after.paymentStatus == advisory && after.rejectedHash.None? && after.notFoundSince.None?
    && SameContent(row, after) && after.lastUpdated == row.lastUpdated
    && after.hidden == row.hidden && after.draft == row.draft && after.proposalStatus == row.proposalStatus
    && after.legacyStatus == row.legacyStatus
  }

  lemma {:induction false} StagedUpdateColumns(env: Environment, db: Db, l: Label)
    requires l.StageUpdate?
    ensures var after := ApplyStep(db, StageStep(env, db, l));
            if TakesStaging(db, l.pid, l.hash) then
              && StageStep(env, db, l) != Keep && l.pid in after.rows
              && after == db.(rows := db.rows[l.pid := after.rows[l.pid]])
              && var row, staged := db.rows[l.pid], after.rows[l.pid];
              && Armed(row, staged, ToUpdate, l.hash, l.envelope, l.advisory)
              && staged.newTitle == Some(l.title) && staged.newText == Some(l.text)
              && staged.newStart == row.newStart && staged.newEnd == row.newEnd
            else StageStep(env, db, l) == Keep
  {
    hide IsCanonicalHash;
  }

  lemma {:induction false} StagedSubmitColumns(env: Environment, db: Db, l: Label)
    requires l.StageSubmit? && SlotLaw(db.slots)
    ensures var after := ApplyStep(db, StageStep(env, db, l));
            if && TakesStaging(db, l.pid, l.hash) && env.horizonWeeks >= 1
               && (exists k :: 1 <= k <= env.horizonWeeks && IsWeekAhead(Aware(l.start), Aware(l.end), l.now, k))
               && !Rivalled(db, l.pid) && !WeekHeld(db, l.pid, l.start) then
              && StageStep(env, db, l) != Keep && l.pid in after.rows
              && after == db.(rows := db.rows[l.pid := after.rows[l.pid]])
              && var row, staged := db.rows[l.pid], after.rows[l.pid];
              && Armed(row, staged, ToSubmit, l.hash, l.envelope, l.advisory)
              && staged.newStart == Some(l.start) && staged.newEnd == Some(l.end)
              && staged.newTitle == row.newTitle && staged.newText == row.newText
            else StageStep(env, db, l) == Keep
  {
    hide IsCanonicalHash, ValidateWeeklySlot, HasAssetConflict, SlotConflict, WeekHeld, Rivalled, SlotLaw, IsExactWeek;
    FutureWeekIsValid(env, l.start, l.end, l.now);
    if l.pid in db.rows {
      RivalledIsConflict(db, l.pid);
      if ValidateWeeklySlot(Aware(l.start), Aware(l.end), l.now, env.horizonWeeks, false) == Valid {
        WeekHeldIsConflict(db, l.pid, l.start, l.end);
      }
    }
  }

  lemma {:induction false} FutureWeekIsValid(env: Environment, start: Instant, end: Instant, now: Instant)
    ensures ValidateWeeklySlot(Aware(start), Aware(end), now, env.horizonWeeks, false) == Valid
            <==> env.horizonWeeks >= 1
                 && exists k :: 1 <= k <= env.horizonWeeks && IsWeekAhead(Aware(start), Aware(end), now, k)
    ensures ValidateWeeklySlot(Aware(start), Aware(end), now, env.horizonWeeks, false) == Valid
            ==> IsExactWeek(start, end)
  {
    if env.horizonWeeks >= 1 {
      ValidIffWeekAhead(Aware(start), Aware(end), now, env.horizonWeeks, false);
    }
  }

  /** Staging round trip: an update that is paid for as it was staged publishes the staged title, text and hash. */
  lemma {:induction false} StagedUpdateIsPublished(env: Environment, db: Db, l: Label, answer: Answer, now: Instant)
    requires l.StageUpdate? && TakesStaging(db, l.pid, l.hash)
    ensures var staged := ApplyStep(db, StageStep(env, db, l));
            && l.pid in staged.rows && staged.rows[l.pid].action == ToUpdate
            && var row := staged.rows[l.pid]; var j := Judgement(l.pid, row, Resolve(l.pid, row), answer);
               var r := Commit(env, staged, j, now);
               Confirms(env, j) && Unspent(env, staged, j) && HashesFree(staged, l.pid, Some(l.hash), row.hash)
               ==> && r.1 == Updated && r.0.Promote? && r.0.pid == l.pid
                   && r.0.row.title == l.title && r.0.row.text == l.text && r.0.row.hash == Some(l.hash)
                   && r.0.row.version == row.version + 1
  {
    hide Confirms, Unspent, HashesFree, Commit, IsCanonicalHash, LawfulPromotion;
    StagedUpdateColumns(env, db, l);
    var staged := ApplyStep(db, StageStep(env, db, l));
    var row := staged.rows[l.pid];
    var j := Judgement(l.pid, row, Resolve(l.pid, row), answer);
    UpdateAppliesIff(env, staged, j, now);
    CommitIsLawful(env, staged, j, now);
    if Commit(env, staged, j, now).0.Promote? {
      PromotedColumns(env, staged, j, now);
    }
  }

  /** And a submit that is paid for as it was staged, with nothing in the way by then, is booked for its window. */
  lemma {:induction false} StagedSubmitIsBooked(env: Environment, db: Db, l: Label, answer: Answer, now: Instant)
    requires l.StageSubmit? && SlotLaw(db.slots) && StageStep(env, db, l) != Keep
    ensures var staged := ApplyStep(db, StageStep(env, db, l));
            && l.pid in staged.rows && staged.rows[l.pid].action == ToSubmit
            && staged.rows[l.pid].newStart == Some(l.start) && staged.rows[l.pid].newEnd == Some(l.end)
            && var row := staged.rows[l.pid]; var j := Judgement(l.pid, row, Resolve(l.pid, row), answer);
               var r := Commit(env, staged, j, now);
               Confirms(env, j) && Unspent(env, staged, j) && HashesFree(staged, l.pid, Some(l.hash), row.hash)
               && !Blocked(env, staged, j, now)
               ==> && r.0.Promote? && r.0.pid == l.pid && r.0.row.hash == Some(l.hash)
                   && r.0.row.startAt == Some(l.start) && r.0.row.endAt == Some(l.end)
  {
    hide Confirms, Unspent, HashesFree, Commit, LawfulPromotion, Blocked, TakesStaging, SlotLaw;
    var staged := ApplyStep(db, StageStep(env, db, l));
    StagingIsTaken(env, db, l);
    StagedSubmitColumns(env, db, l);
    var row := staged.rows[l.pid];
    var j := Judgement(l.pid, row, Resolve(l.pid, row), answer);
    SubmitAppliesIff(env, staged, j, now);
    if Commit(env, staged, j, now).0.Promote? {
      PromotedColumns(env, staged, j, now);
    }
  }

  /** A staged creation waits as a draft for its own payment, and is published unchanged once it is paid for. */
  lemma {:induction false} StagedCreationIsPublished(env: Environment, db: Db, l: Label, answer: Answer, now: Instant)
    requires l.StageCreate? && StageStep(env, db, l) != Keep
    ensures var staged := ApplyStep(db, StageStep(env, db, l));
            && l.pid !in db.rows && staged == db.(rows := db.rows[l.pid := l.row])
            && l.row.action == ToCreate && l.row.draft && !l.row.hidden && l.row.proposalStatus == Discussion
            && var j := Judgement(l.pid, l.row, Resolve(l.pid, l.row), answer); var r := Commit(env, staged, j, now);
               Confirms(env, j) && Unspent(env, staged, j)
               && (l.row.proposalType == General || !Rivalled(staged, l.pid))
               ==> && r.1 == Created && r.0.Promote? && r.0.pid == l.pid && !r.0.row.draft && !r.0.row.hidden
                   && r.0.row.action == NoAction && SameContent(l.row, r.0.row) && SameStaging(l.row, r.0.row)
  {
    hide Confirms, Unspent, Commit, LawfulPromotion, IsCanonicalHash, Rivalled;
    var staged := ApplyStep(db, StageStep(env, db, l));
    var j := Judgement(l.pid, l.row, Resolve(l.pid, l.row), answer);
    CreateAppliesIff(env, staged, j, now);
    if Commit(env, staged, j, now).0.Promote? {
      PromotedColumns(env, staged, j, now);
      PromotedIsSettled(env, staged, j, now);
    }
  }

  lemma {:induction false} PromotedIsSettled(env: Environment, db: Db, j: Judgement, now: Instant)
    requires WellJudged(db, j) && j.pid in db.rows && Commit(env, db, j, now).0.Promote?
    ensures var c := Commit(env, db, j, now).0; c.row.action == NoAction && c.row.hidden == db.rows[j.pid].hidden
  {
    hide Commit, WellJudged, PaidFor, HasAssetConflict, SlotLaw, HashTaken, AnySpent;
    CommitIsLawful(env, db, j, now);
  }

  lemma {:induction false} StagingIsTaken(env: Environment, db: Db, l: Label)
    requires l.StageSubmit? && StageStep(env, db, l) != Keep
    ensures IsCanonicalHash(l.hash)
    ensures ApplyStep(db, StageStep(env, db, l)).slots == db.slots
  {
  }

  lemma {:induction false} PromotedColumns(env: Environment, db: Db, j: Judgement, now: Instant)
    requires WellJudged(db, j) && j.pid in db.rows && Commit(env, db, j, now).0.Promote?
    ensures var c := Commit(env, db, j, now).0;
            && c.pid == j.pid
            && Writes(j.transition, db.rows[j.pid], c.row)
            && StillHeld(PurposeOf(j.transition), db.rows[j.pid], c.row)
            && UsesUp(PurposeOf(j.transition), db.rows[j.pid], c.row)
            && (j.transition.UpdateTransition? ==> c.row.version == db.rows[j.pid].version + 1)
  {
    hide Commit, WellJudged, Writes, StillHeld, UsesUp, Authorizes, HasAssetConflict, SlotLaw, HashTaken, AnySpent;
    CommitIsLawful(env, db, j, now);
  }
}
