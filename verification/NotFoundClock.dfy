/** The not-found clock: when a payment hash was first reported missing, and what stops the count. */
module NotFoundClock {
  import opened Domain
  import opened Calendar
  import opened Hashes
  import opened Payments
  import opened Records
  import opened QueueSlots
  import opened Transitions
  import opened Promotion
  import opened Protocol
  import opened ProtocolInvariants
  import opened PromotionTheorems

  // ---- One step ----

  /** The clock stays, stops, or is started from stopped at `now`. */
  predicate ClockMoves(before: Row, after: Row, starts: bool, now: Instant)
  {
    after.notFoundSince == before.notFoundSince || after.notFoundSince.None?
    || (starts && before.notFoundSince.None? && after.notFoundSince == Some(now))
  }

  /** A verdict starts the clock only when Horizon answered that the hash does not exist, and
      only on a row that still awaits the action. */
  ghost predicate ClockLaw(env: Environment, db: Db, j: Judgement, c: Change, now: Instant)
  {
    c == Unchanged
    || (c.pid in db.rows
        && ClockMoves(db.rows[c.pid], c.row,
                      UsableHash(j.transition.hash) && ResultOf(env, j).reason == TransactionNotFound
                          && db.rows[c.pid].action == ActionOf(j.transition), now))
  }

  lemma RejectionClock(env: Environment, db: Db, j: Judgement, now: Instant)
    requires j.pid in db.rows
    ensures ClockLaw(env, db, j, RejectUnusableHash(db, j.pid, j.transition).0, now)
    ensures ClockLaw(env, db, j, HandleReuse(db, j.pid, j.transition).0, now)
    ensures UsableHash(j.transition.hash)
            ==> ClockLaw(env, db, j, RejectPayment(db, j.pid, j.transition, ResultOf(env, j), now).0, now)
    ensures ClockLaw(env, db, j, RetryState(db, j.pid), now)
  {
    hide ResultOf, UsableHash, RejectionMarker;
  }

  lemma SubmitScopeClock(env: Environment, db: Db, j: Judgement, status: ProposalStatus, now: Instant)
    requires j.transition.SubmitTransition? && UsableHash(j.transition.hash) && j.pid in db.rows
    ensures ClockLaw(env, db, j, SubmitScope(db, j, ResultOf(env, j), status, now).0, now)
  {
    hide ResultOf, UsableHash, RejectPayment, HandleReuse, RetryState, Synced, ClaimHashes, HistoryHashTaken, HashTaken,
         AnySpent, SlotConflict;
    RejectionClock(env, db, j, now);
  }

  lemma CreateClock(env: Environment, db: Db, j: Judgement, now: Instant)
    requires j.transition.CreateTransition? && UsableHash(j.transition.hash) && j.pid in db.rows
    ensures ClockLaw(env, db, j, CommitCreate(env, db, j, now).0, now)
  {
    hide ResultOf, UsableHash, RejectPayment, ClaimHashes, HistoryHashTaken, HashTaken, AnySpent, HasAssetConflict,
         MatchesLocked;
    RejectionClock(env, db, j, now);
  }

  lemma UpdateClock(env: Environment, db: Db, j: Judgement, now: Instant)
    requires j.transition.UpdateTransition? && UsableHash(j.transition.hash) && j.pid in db.rows
    ensures ClockLaw(env, db, j, CommitUpdate(env, db, j, now).0, now)
  {
    hide ResultOf, UsableHash, RejectPayment, ClaimHashes, HistoryHashTaken, HashTaken, AnySpent, MatchesLocked;
    RejectionClock(env, db, j, now);
  }

  lemma {:induction false} CommitClock(env: Environment, db: Db, j: Judgement, now: Instant)
    requires j.pid in db.rows
    ensures ClockLaw(env, db, j, Commit(env, db, j, now).0, now)
  {
    hide CommitCreate, CommitUpdate, SubmitScope, RejectPayment, RejectUnusableHash, RetryState, ClockLaw, ResultOf,
         UsableHash, MatchesLocked, HasAssetConflict, SlotConflict;
    RejectionClock(env, db, j, now);
    if UsableHash(j.transition.hash) {
      match j.transition
      case CreateTransition(_, _, _, _, _) => CreateClock(env, db, j, now);
      case UpdateTransition(_, _, _, _, _) => UpdateClock(env, db, j, now);
      case SubmitTransition(_, _, _, _, _, _) =>
        if ResultOf(env, j).status == Fine {
          match DecideSubmit(env, db, j.pid, j.transition, now)
          case Enter(status) => SubmitScopeClock(env, db, j, status, now);
          case Settle(change, _) =>
            assert change in {Unchanged, RetryState(db, j.pid)};
            UnchangedKeepsClock(env, db, j, now);
        }
    }
  }

  lemma UnchangedKeepsClock(env: Environment, db: Db, j: Judgement, now: Instant)
    ensures ClockLaw(env, db, j, Unchanged, now)
  {
  }

  /** The clock holds the first not-found time since it was last stopped: a step leaves it, stops
      it, or starts a stopped one when a worker's not-found verdict lands. */
  lemma {:induction false} ClockStartsOnce(env: Environment, w: World, l: Label, q: ProposalId)
    requires WorkersLaw(w) && q in w.db.rows
    ensures q in Exec(env, w, l).db.rows
    ensures ClockMoves(w.db.rows[q], Exec(env, w, l).db.rows[q],
              && l.CommitVerdict? && l.worker in w.workers && w.workers[l.worker].Judged?
              && UsableHash(w.workers[l.worker].judgement.transition.hash)
              && ResultOf(env, w.workers[l.worker].judgement).reason == TransactionNotFound
              && w.db.rows[q].action == ActionOf(w.workers[l.worker].judgement.transition),
              if l.CommitVerdict? then l.now else 0)
  {
    hide LawfulPromotion, Commit, HandleReuse, WellJudged, ResultOf, UsableHash, HasAssetConflict, SlotConflict,
         NewHashTaken, HashTaken, WorkersAfter, StaleDiscussion, DueToStart, HasHistory, IsCanonicalHash,
         OpenForStaging, ValidateWeeklySlot, DueToFinish;
    StepIsLawful(env, w, l);
    if IsWorkerWrite(l) && l.worker in w.workers && !w.workers[l.worker].Loaded? {
      var j := w.workers[l.worker].judgement;
      assert PhaseLaw(w.db, w.workers[l.worker]);
      if l.CommitVerdict? {
        CommitClockIfKnown(env, w.db, j, l.now);
      } else {
        HandleReuseClock(w.db, j);
      }
    }
  }

  lemma {:induction false} CommitClockIfKnown(env: Environment, db: Db, j: Judgement, now: Instant)
    requires WellJudged(db, j)
    ensures j.pid in db.rows && ClockLaw(env, db, j, Commit(env, db, j, now).0, now)
  {
    hide Commit, ClockLaw;
    CommitClock(env, db, j, now);
  }

  lemma HandleReuseClock(db: Db, j: Judgement)
    ensures var c := HandleReuse(db, j.pid, j.transition).0;
            c == Unchanged || (c.Rewrite? && c.pid in db.rows && c.row.notFoundSince == db.rows[c.pid].notFoundSince)
  {
  }

  /** A not-found verdict that lands on `q`: its row still awaits the action, and it is not a creation
      whose old status column already said so, which is left alone. */
  ghost predicate Landed(env: Environment, w: World, l: Label, q: ProposalId)
  {
    && l.CommitVerdict? && l.worker in w.workers && w.workers[l.worker].Judged?
    && var j := w.workers[l.worker].judgement;
      && j.pid == q && q in w.db.rows && w.db.rows[q].action == ActionOf(j.transition)
      && UsableHash(j.transition.hash) && ResultOf(env, j).reason == TransactionNotFound
      && !(j.transition.CreateTransition? && j.snapshot.legacyStatus == HorizonError)
  }

  lemma NotFoundIsRetryable(env: Environment, j: Judgement)
    requires UsableHash(j.transition.hash) && ResultOf(env, j).reason == TransactionNotFound
    ensures ResultOf(env, j).status == HorizonError
  {
    hide ScanVerdict, UsableHash, ExpectationOf, IsTransactionHash;
  }

  /** What a not-found verdict commits, in every kind of transition. */
  lemma NotFoundCommit(env: Environment, db: Db, j: Judgement, now: Instant)
    requires j.pid in db.rows && UsableHash(j.transition.hash) && ResultOf(env, j).reason == TransactionNotFound
    ensures Commit(env, db, j, now).0
            == if j.transition.CreateTransition? && j.snapshot.legacyStatus == HorizonError then Unchanged
               else RetryableVerdict(db, j.pid, ActionOf(j.transition), true, now)
  {
    hide ResultOf, UsableHash, RetryableVerdict, TerminalVerdict, CommitAssetCreate, DecideSubmit, ApplyAndClaim,
         MatchesLocked, SubmitScope;
    NotFoundIsRetryable(env, j);
  }

  /** The exact step: a landed verdict starts a stopped clock at its own time and leaves a running one;
      anything else leaves the clock or stops it. */
  lemma {:induction false} ClockStepExact(env: Environment, w: World, l: Label, q: ProposalId)
    requires WorkersLaw(w) && q in w.db.rows
    ensures q in Exec(env, w, l).db.rows
    ensures var before, after := w.db.rows[q].notFoundSince, Exec(env, w, l).db.rows[q].notFoundSince;
            if Landed(env, w, l, q) then after == Some(before.GetOr(l.now)) else after == before || after.None?
  {
    hide Commit, HandleReuse, ResultOf, UsableHash, WellJudged, StageStep, StaleDiscussion, DueToStart, DueToFinish;
    ClockStartsOnce(env, w, l, q);
    if l.CommitVerdict? && l.worker in w.workers && w.workers[l.worker].Judged? {
      var j := w.workers[l.worker].judgement;
      if UsableHash(j.transition.hash) && j.pid in w.db.rows && ResultOf(env, j).reason == TransactionNotFound {
        NotFoundCommit(env, w.db, j, l.now);
      }
    }
  }

  // ---- Whole runs ----

  /** The clock of `q` after the first `n` labels; stopped while the row does not exist. */
  function ClockAt(env: Environment, start: World, labels: seq<Label>, n: nat, q: ProposalId): Option<Instant>
    requires n <= |labels|
  {
    var rows := Run(env, start, labels[..n]).db.rows;
    if q in rows then rows[q].notFoundSince else None
  }

  ghost predicate LandedAt(env: Environment, start: World, labels: seq<Label>, n: nat, q: ProposalId)
    requires n < |labels|
  {
    Landed(env, Run(env, start, labels[..n]), labels[n], q)
  }

  /** The clock was started by label `n` - or ran from the start, for n = -1 - and never stopped since. */
  ghost predicate RunsSince(env: Environment, start: World, labels: seq<Label>, n: int, q: ProposalId, t: Instant)
  {
    && -1 <= n < |labels|
    && (n >= 0 ==> LandedAt(env, start, labels, n, q) && labels[n].now == t && ClockAt(env, start, labels, n, q).None?)
    && forall m :: n + 1 <= m <= |labels| ==> ClockAt(env, start, labels, m, q) == Some(t)
  }

  lemma {:induction false} ClockPrefix(env: Environment, start: World, labels: seq<Label>, m: nat, q: ProposalId)
    requires labels != [] && m < |labels|
    ensures ClockAt(env, start, labels[..|labels| - 1], m, q) == ClockAt(env, start, labels, m, q)
    ensures m < |labels| - 1
            ==> (LandedAt(env, start, labels[..|labels| - 1], m, q) <==> LandedAt(env, start, labels, m, q))
  {
    hide Run, Landed;
    assert labels[..|labels| - 1][..m] == labels[..m];
  }

  lemma {:induction false} InsertStartsStopped(env: Environment, w: World, l: Label, q: ProposalId)
    requires WorkersLaw(w) && q !in w.db.rows && q in Exec(env, w, l).db.rows
    ensures Exec(env, w, l).db.rows[q].notFoundSince.None?
  {
    hide Commit, HandleReuse, PaidFor, StaleDiscussion, DueToStart, HashTaken, IsCanonicalHash;
    StepIsLawful(env, w, l);
  }

  lemma {:induction false} ClockStep(env: Environment, start: World, labels: seq<Label>, n: nat, q: ProposalId)
    requires Start(start) && n < |labels|
    ensures var before, after := ClockAt(env, start, labels, n, q), ClockAt(env, start, labels, n + 1, q);
            if LandedAt(env, start, labels, n, q) then after == Some(before.GetOr(labels[n].now))
            else after == before || after.None?
  {
    hide Exec, Invariant, Landed;
    var w := Run(env, start, labels[..n]);
    assert labels[..n + 1][..n] == labels[..n];
    RunUnfolds(env, start, labels[..n + 1]);
    RunKeepsInvariant(env, start, labels[..n]);
    InvariantKnowsWorkers(env, w);
    if q in w.db.rows {
      ClockStepExact(env, w, labels[n], q);
    } else {
      LandedOnRow(env, w, labels[n], q);
      if q in Exec(env, w, labels[n]).db.rows {
        InsertStartsStopped(env, w, labels[n], q);
      }
    }
  }

  lemma LandedOnRow(env: Environment, w: World, l: Label, q: ProposalId)
    ensures Landed(env, w, l, q) ==> q in w.db.rows
  {
  }

  /** In every reachable state a running clock holds the time of the first not-found verdict that landed
      since the clock was last stopped: that verdict found it stopped, it has run ever since, and any
      verdict that landed earlier had started it too, so it was stopped in between. */
  lemma {:induction false} ClockHoldsFirstNotFound(env: Environment, start: World, labels: seq<Label>, q: ProposalId)
      returns (n: int)
    requires Start(start) && ClockAt(env, start, labels, |labels|, q).Some?
    ensures RunsSince(env, start, labels, n, q, ClockAt(env, start, labels, |labels|, q).value)
    ensures forall m :: 0 <= m < n && LandedAt(env, start, labels, m, q) ==> ClockAt(env, start, labels, m + 1, q).Some?
  {
    hide Run, Landed, ClockAt, LandedAt;
    var last, t := |labels| - 1, ClockAt(env, start, labels, |labels|, q).value;
    if labels == [] {
      n := -1;
      return;
    }
    ClockStep(env, start, labels, last, q);
    forall m | 0 <= m < last && LandedAt(env, start, labels, m, q) ensures ClockAt(env, start, labels, m + 1, q).Some? {
      ClockStep(env, start, labels, m, q);
    }
    if ClockAt(env, start, labels, last, q).None? {
      n := last;
      return;
    }
    ClockPrefix(env, start, labels, last, q);
    n := ClockHoldsFirstNotFound(env, start, labels[..last], q);
    forall m | n + 1 <= m <= |labels| ensures ClockAt(env, start, labels, m, q) == Some(t) {
      if m <= last {
        ClockPrefix(env, start, labels, m, q);
        assert ClockAt(env, start, labels[..last], m, q) == Some(t);
      }
    }
    if n >= 0 {
      ClockPrefix(env, start, labels, n, q);
    }
  }
}
