/** What every run of the promotion protocol keeps. */
module ProtocolInvariants {
  import opened Domain
  import opened Hashes
  import opened Payments
  import opened Records
  import opened QueueSlots
  import opened Transitions
  import opened Promotion
  import opened Backfill
  import opened Protocol

  // ---- Every database step is lawful ----

  ghost predicate LawfulStep(env: Environment, db: Db, s: DbStep)
  {
    match s
    case Keep => true
    case Put(pid, row) => pid in db.rows && SameContent(db.rows[pid], row)
    case Insert(pid, row) => pid !in db.rows && !HasHistory(db.history, pid) && FreshCreate(row)
      && !HashTaken(db.rows, pid, row.hash)
    case Apply(c) => c.Promote? && LawfulPromotion(env, db, c)
    case Burn(claims) => claims == NewClaims(db)
    case Free(_) => true
  }

  ghost predicate PhaseLaw(db: Db, p: Phase)
  {
    match p
    case Loaded(pid, snapshot) =>
      pid in db.rows && snapshot.action != NoAction
      && db.rows[pid].proposedBy == snapshot.proposedBy && db.rows[pid].proposalType == snapshot.proposalType
    case Judged(j) => WellJudged(db, j)
    case Refused(j) => WellJudged(db, j)
  }

  ghost predicate WorkersLaw(w: World)
  {
    forall k :: k in w.workers ==> PhaseLaw(w.db, w.workers[k])
  }

  lemma {:induction false} CommitLabelIsLawful(env: Environment, w: World, worker: WorkerId, now: Instant)
    requires WorkersLaw(w)
    ensures LawfulStep(env, w.db, StepOf(CommitOf(env, w, worker, now).0))
  {
    if worker in w.workers && w.workers[worker].Judged? {
      CommitIsLawful(env, w.db, w.workers[worker].judgement, now);
    }
  }

  lemma {:induction false} StepIsLawful(env: Environment, w: World, l: Label)
    requires WorkersLaw(w)
    ensures LawfulStep(env, w.db, StepFor(env, w, l))
  {
    hide LawfulPromotion, CommitOf, NewClaims, HasAssetConflict, SlotConflict, HashTaken, NewHashTaken, HandleReuse;
    if l.CommitVerdict? {
      CommitLabelIsLawful(env, w, l.worker, l.now);
    } else if l.WriteRefusal? && l.worker in w.workers && w.workers[l.worker].Refused? {
      RejectionIsLawful(env, w.db, w.workers[l.worker].judgement, 0);
    }
  }

  /** No step deletes a row or rewrites the account and the kind a payment is bound to. */
  lemma StepKeepsRows(env: Environment, db: Db, s: DbStep, q: ProposalId)
    requires LawfulStep(env, db, s) && q in db.rows
    ensures var after := ApplyStep(db, s);
            && q in after.rows
            && after.rows[q].proposedBy == db.rows[q].proposedBy
               && after.rows[q].proposalType == db.rows[q].proposalType
            && after.rows[q].asset == db.rows[q].asset
  {
  }

  lemma {:induction false} StepKeepsWorkers(env: Environment, w: World, l: Label)
    requires WorkersLaw(w)
    ensures WorkersLaw(Exec(env, w, l))
  {
    hide StepFor, LawfulPromotion, ApplyStep;
    StepIsLawful(env, w, l);
    var s := StepFor(env, w, l);
    var after := Exec(env, w, l);
    forall k | k in after.workers ensures PhaseLaw(after.db, after.workers[k]) {
      match after.workers[k]
      case Loaded(pid, _) => StepKeepsRows(env, w.db, s, pid);
      case Judged(j) => StepKeepsRows(env, w.db, s, j.pid);
      case Refused(j) => StepKeepsRows(env, w.db, s, j.pid);
    }
  }

  // ---- The ledger ----

  ghost predicate ResolvedDisjoint(log: seq<Entry>)
  {
    forall i, j :: 0 <= i < j < |log| ==> log[i].resolved !! log[j].resolved
  }

  ghost predicate Burner(log: seq<Entry>, i: int, h: Hash) { 0 <= i < |log| && h in log[i].resolved }

  /** Claims and promotions correspond: burned by a promotion exactly when claimed, and for it. */
  ghost predicate LedgerLaw(db: Db, log: seq<Entry>)
  {
    && (forall i, h :: Burner(log, i, h) ==> h in db.ledger && db.ledger[h] == ClaimOf(log[i]))
    && (forall h :: h in db.ledger && db.ledger[h].purpose != Legacy ==> exists i :: Burner(log, i, h))
    && (forall i :: 0 <= i < |log| ==> log[i].purpose != Legacy && log[i].presented in log[i].resolved)
    && ResolvedDisjoint(log)
  }

  function LogAfter(log: seq<Entry>, s: DbStep): seq<Entry>
    requires s.Apply? ==> s.promotion.Promote?
  {
    if s.Apply? then log + [s.promotion.entry] else log
  }

  lemma PromotionExtendsLedger(db: Db, log: seq<Entry>, e: Entry, after: Db)
    requires LedgerLaw(db, log) && !AnySpent(db.ledger, e.resolved)
    requires e.purpose != Legacy && e.presented in e.resolved
    requires after.ledger == Burned(db.ledger, e.resolved, ClaimOf(e))
    ensures LedgerLaw(after, log + [e])
  {
    var log' := log + [e];
    forall i, h | Burner(log', i, h) ensures h in after.ledger && after.ledger[h] == ClaimOf(log'[i]) {
      if i < |log| {
        assert Burner(log, i, h);
      }
    }
    forall h | h in after.ledger && after.ledger[h].purpose != Legacy ensures exists i :: Burner(log', i, h) {
      if h in e.resolved {
        assert Burner(log', |log|, h);
      } else {
        var i :| Burner(log, i, h);
        assert Burner(log', i, h);
      }
    }
    forall i, j | 0 <= i < j < |log'| ensures log'[i].resolved !! log'[j].resolved {
      if j == |log| {
        NewPromotionIsApart(db, log, e, i);
      }
    }
  }

  lemma NewPromotionIsApart(db: Db, log: seq<Entry>, e: Entry, i: nat)
    requires LedgerLaw(db, log) && !AnySpent(db.ledger, e.resolved) && i < |log|
    ensures log[i].resolved !! e.resolved
  {
    assert forall h :: h in log[i].resolved ==> Burner(log, i, h);
  }

  lemma StepKeepsLedger(env: Environment, db: Db, log: seq<Entry>, s: DbStep)
    requires LawfulStep(env, db, s) && LedgerLaw(db, log)
    ensures LedgerLaw(ApplyStep(db, s), LogAfter(log, s))
  {
    if s.Apply? {
      PromotionExtendsLedger(db, log, s.promotion.entry, ApplyStep(db, s));
    }
  }

  // ---- Where spent hashes are stored ----

  predicate HeldByRow(rows: map<ProposalId, Row>, h: Hash)
  {
    exists q :: q in rows && rows[q].hash == Some(h)
  }

  /** The presented hash of an applied promotion sits in one of the two columns. */
  predicate Recorded(db: Db, h: Hash) { HeldByRow(db.rows, h) || HistoryHashTaken(db.history, Some(h)) }

  ghost predicate RecordLaw(db: Db, log: seq<Entry>)
  {
    forall i :: 0 <= i < |log| ==> Recorded(db, log[i].presented)
  }

  lemma StepKeepsRecorded(env: Environment, db: Db, s: DbStep, h: Hash)
    requires LawfulStep(env, db, s) && Recorded(db, h)
    ensures Recorded(ApplyStep(db, s), h)
  {
    hide PaidFor, HasAssetConflict, AnySpent, SlotLaw, HashTaken;
    var after := ApplyStep(db, s);
    if k :| 0 <= k < |db.history| && db.history[k].hash == Some(h) {
      assert after.history[k].hash == Some(h);
    } else {
      var q :| q in db.rows && db.rows[q].hash == Some(h);
      if s.Apply? && s.promotion.pid == q && s.promotion.shelved != [] {
        assert after.history[|db.history|] == s.promotion.shelved[0];
        assert s.promotion.shelved[0].hash == Some(h);
      } else {
        assert q in after.rows && after.rows[q].hash == Some(h);
      }
    }
  }

  lemma StepKeepsRecord(env: Environment, db: Db, log: seq<Entry>, s: DbStep)
    requires LawfulStep(env, db, s) && RecordLaw(db, log)
    ensures RecordLaw(ApplyStep(db, s), LogAfter(log, s))
  {
    var after, log' := ApplyStep(db, s), LogAfter(log, s);
    forall i | 0 <= i < |log'| ensures Recorded(after, log'[i].presented) {
      if i < |log| {
        StepKeepsRecorded(env, db, s, log[i].presented);
      } else {
        assert s.promotion.pid in after.rows && after.rows[s.promotion.pid].hash == Some(log'[i].presented);
      }
    }
  }

  // ---- Versions and history ----

  function VisibleVersions(history: seq<HistoryRow>, pid: ProposalId): seq<nat>
  {
    if history == [] then []
    else
      var last := history[|history| - 1];
      VisibleVersions(history[..|history| - 1], pid) + if last.pid == pid && !last.hidden then [last.version] else []
  }

  function HiddenCount(history: seq<HistoryRow>, pid: ProposalId): nat
  {
    if history == [] then 0
    else
      var last := history[|history| - 1];
      HiddenCount(history[..|history| - 1], pid) + if last.pid == pid && last.hidden then 1 else 0
  }

  function SubmitCount(log: seq<Entry>, pid: ProposalId): nat
  {
    if log == [] then 0
    else
      var last := log[|log| - 1];
      SubmitCount(log[..|log| - 1], pid) + if last.pid == pid && last.purpose == ForSubmit then 1 else 0
  }

  function UpTo(n: nat): seq<nat> { seq(n, i => i + 1) }

  ghost predicate HistoryOwned(db: Db) { forall i :: 0 <= i < |db.history| ==> db.history[i].pid in db.rows }

  /** `version` is one more than the number of visible history rows, which number 1 to version - 1. */
  ghost predicate VersionLaw(db: Db)
  {
    && (forall q :: q in db.rows ==> VersionOk(db.history, q, db.rows[q].version))
    && HistoryOwned(db)
  }

  lemma AppendShelved(history: seq<HistoryRow>, row: HistoryRow, pid: ProposalId)
    ensures VisibleVersions(history + [row], pid) == VisibleVersions(history, pid) + if row.pid == pid
            && !row.hidden then [row.version] else []
    ensures HiddenCount(history + [row], pid) == HiddenCount(history, pid) + if row.pid == pid
            && row.hidden then 1 else 0
  {
    var longer := history + [row];
    assert longer[..|longer| - 1] == history;
  }

  lemma {:induction false} NoHistoryNoVersions(history: seq<HistoryRow>, pid: ProposalId)
    requires !HasHistory(history, pid)
    ensures VisibleVersions(history, pid) == []
  {
    if history != [] {
      var init := history[..|history| - 1];
      assert forall i :: 0 <= i < |init| ==> init[i] == history[i];
      assert history[|history| - 1].pid != pid;
      NoHistoryNoVersions(init, pid);
    }
  }

  ghost predicate VersionOk(history: seq<HistoryRow>, q: ProposalId, version: nat)
  {
    version >= 1 && VisibleVersions(history, q) == UpTo(version - 1)
  }

  lemma ShelvingKeepsVersion(history: seq<HistoryRow>, shelved: seq<HistoryRow>, purpose: Purpose, pid: ProposalId,
          before: Row, after: Row)
    requires ShelvesFor(purpose, pid, before, after, shelved) && VersionOk(history, pid, before.version)
    ensures VersionOk(history + shelved, pid, after.version)
  {
    if shelved == [] {
      assert history + shelved == history;
    } else {
      assert shelved == [shelved[0]];
      AppendShelved(history, shelved[0], pid);
      assert UpTo(before.version) == UpTo(before.version - 1) + [before.version];
    }
  }

  lemma ShelvingSparesOthers(history: seq<HistoryRow>, shelved: seq<HistoryRow>, purpose: Purpose, pid: ProposalId,
          before: Row, after: Row, q: ProposalId)
    requires ShelvesFor(purpose, pid, before, after, shelved) && q != pid
    ensures VisibleVersions(history + shelved, q) == VisibleVersions(history, q)
  {
    if shelved == [] {
      assert history + shelved == history;
    } else {
      assert shelved == [shelved[0]];
      AppendShelved(history, shelved[0], q);
    }
  }

  lemma {:induction false} StepKeepsVersionOf(env: Environment, db: Db, s: DbStep, q: ProposalId)
    requires LawfulStep(env, db, s) && VersionLaw(db) && q in ApplyStep(db, s).rows
    ensures var after := ApplyStep(db, s); VersionOk(after.history, q, after.rows[q].version)
  {
    hide PaidFor, VisibleVersions, SlotLaw, HasAssetConflict, HashTaken, AnySpent;
    if s.Apply? {
      var c := s.promotion;
      assert VersionOk(db.history, q, db.rows[q].version);
      if q == c.pid {
        ShelvingKeepsVersion(db.history, c.shelved, c.entry.purpose, c.pid, c.entry.before, c.entry.after);
      } else {
        ShelvingSparesOthers(db.history, c.shelved, c.entry.purpose, c.pid, c.entry.before, c.entry.after, q);
      }
    } else if s.Insert? && q == s.pid {
      NoHistoryNoVersions(db.history, q);
    } else {
      assert VersionOk(db.history, q, db.rows[q].version);
    }
  }

  lemma StepKeepsOwners(env: Environment, db: Db, s: DbStep)
    requires LawfulStep(env, db, s) && HistoryOwned(db)
    ensures HistoryOwned(ApplyStep(db, s))
  {
    if s.Apply? && s.promotion.shelved != [] {
      assert s.promotion.shelved == [s.promotion.shelved[0]];
      assert s.promotion.shelved[0].pid == s.promotion.pid;
    }
  }

  lemma StepKeepsVersions(env: Environment, db: Db, s: DbStep)
    requires LawfulStep(env, db, s) && VersionLaw(db)
    ensures VersionLaw(ApplyStep(db, s))
  {
    StepKeepsOwners(env, db, s);
    forall q | q in ApplyStep(db, s).rows
      ensures VersionOk(ApplyStep(db, s).history, q, ApplyStep(db, s).rows[q].version) {
      StepKeepsVersionOf(env, db, s, q);
    }
  }

  /** Hidden history rows grow by one with every applied submit and never otherwise. */
  lemma ShelvingCountsHidden(history: seq<HistoryRow>, log: seq<Entry>, shelved: seq<HistoryRow>, e: Entry,
          pid: ProposalId)
    requires ShelvesFor(e.purpose, e.pid, e.before, e.after, shelved)
    ensures HiddenCount(history + shelved, pid) - HiddenCount(history, pid)
            == SubmitCount(log + [e], pid) - SubmitCount(log, pid)
  {
    assert (log + [e])[..|log|] == log;
    if shelved == [] {
      assert history + shelved == history;
    } else {
      assert shelved == [shelved[0]];
      AppendShelved(history, shelved[0], pid);
    }
  }

  lemma StepKeepsHidden(env: Environment, db: Db, log: seq<Entry>, s: DbStep, pid: ProposalId)
    requires LawfulStep(env, db, s)
    ensures HiddenCount(ApplyStep(db, s).history, pid) - HiddenCount(db.history, pid)
            == SubmitCount(LogAfter(log, s), pid) - SubmitCount(log, pid)
  {
    if s.Apply? {
      ShelvingCountsHidden(db.history, log, s.promotion.shelved, s.promotion.entry, pid);
    }
  }

  // ---- Unique columns ----

  ghost predicate UniqueHashes(db: Db)
  {
    && (forall p, q :: p in db.rows && q in db.rows && db.rows[p].hash.Some? && db.rows[p].hash == db.rows[q].hash
                       ==> p == q)
    && (forall i, j :: 0 <= i < j < |db.history| && db.history[i].hash.Some?
                       ==> db.history[i].hash != db.history[j].hash)
  }

  lemma SavingKeepsUnique(db: Db, pid: ProposalId, row: Row, shelved: seq<HistoryRow>, after: Db)
    requires UniqueHashes(db) && !HashTaken(db.rows, pid, row.hash)
    requires |shelved| <= 1 && forall i :: 0 <= i < |shelved| ==> !HistoryHashTaken(db.history, shelved[i].hash)
    requires after.rows == db.rows[pid := row] && after.history == db.history + shelved
    ensures UniqueHashes(after)
  {
    forall i, j | 0 <= i < j < |after.history| && after.history[i].hash.Some?
      ensures after.history[i].hash != after.history[j].hash {
      if j == |db.history| {
        assert after.history[j] == shelved[0];
      }
    }
  }

  lemma StepKeepsUnique(env: Environment, db: Db, s: DbStep)
    requires LawfulStep(env, db, s) && UniqueHashes(db)
    ensures UniqueHashes(ApplyStep(db, s))
  {
    hide PaidFor, HasAssetConflict, AnySpent, SlotLaw;
    if s.Apply? {
      SavingKeepsUnique(db, s.promotion.pid, s.promotion.row, s.promotion.shelved, ApplyStep(db, s));
    }
  }

  // ---- The inductive invariant ----

  ghost predicate Invariant(env: Environment, w: World)
  {
    && WorkersLaw(w)
    && LedgerLaw(w.db, w.log)
    && RecordLaw(w.db, w.log)
    && VersionLaw(w.db)
    && UniqueHashes(w.db)
    && SlotLaw(w.db.slots)
    && (forall i :: 0 <= i < |w.log| ==> PaidFor(env, w.log[i]) && IsCanonicalHash(w.log[i].presented))
  }

  /** The state a deployment starts from: whatever hashes its columns hold, an inherited LEGACY
      ledger, no recorded promotion and no worker in flight. */
  ghost predicate Start(w: World)
  {
    && w.log == [] && w.workers == map[] && w.due == {} && w.ended == {}
    && (forall h :: h in w.db.ledger ==> w.db.ledger[h].purpose == Legacy)
    && VersionLaw(w.db) && UniqueHashes(w.db) && SlotLaw(w.db.slots)
  }

  lemma StepKeepsSlots(env: Environment, db: Db, s: DbStep)
    requires LawfulStep(env, db, s) && SlotLaw(db.slots)
    ensures SlotLaw(ApplyStep(db, s).slots)
  {
    hide PaidFor, HasAssetConflict, AnySpent, HashTaken;
  }

  lemma StepKeepsPaid(env: Environment, db: Db, log: seq<Entry>, s: DbStep)
    requires LawfulStep(env, db, s) && forall i :: 0 <= i < |log|
                                                   ==> PaidFor(env, log[i]) && IsCanonicalHash(log[i].presented)
    ensures var log' := LogAfter(log, s); forall i :: 0 <= i < |log'|
                                                      ==> PaidFor(env, log'[i]) && IsCanonicalHash(log'[i].presented)
  {
    hide PaidFor, HasAssetConflict, AnySpent, HashTaken, SlotLaw;
  }

  lemma {:induction false} StepKeepsInvariant(env: Environment, w: World, l: Label)
    requires Invariant(env, w)
    ensures Invariant(env, Exec(env, w, l))
  {
    hide WorkersLaw, LedgerLaw, RecordLaw, VersionLaw, UniqueHashes, SlotLaw, PaidFor, LawfulStep, ApplyStep, StepFor,
         WorkersAfter;
    var s := StepFor(env, w, l);
    StepIsLawful(env, w, l);
    StepKeepsWorkers(env, w, l);
    StepKeepsLedger(env, w.db, w.log, s);
    StepKeepsRecord(env, w.db, w.log, s);
    StepKeepsVersions(env, w.db, s);
    StepKeepsUnique(env, w.db, s);
    StepKeepsSlots(env, w.db, s);
    StepKeepsPaid(env, w.db, w.log, s);
  }

  lemma {:induction false} RunKeepsInvariant(env: Environment, w: World, labels: seq<Label>)
    requires Start(w)
    ensures Invariant(env, Run(env, w, labels))
  {
    if labels != [] {
      RunKeepsInvariant(env, w, labels[..|labels| - 1]);
      StepKeepsInvariant(env, Run(env, w, labels[..|labels| - 1]), labels[|labels| - 1]);
    }
  }
}
