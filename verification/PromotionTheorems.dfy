/** The main results about runs of the promotion protocol. */
module PromotionTheorems {
  import opened Domain
  import opened Calendar
  import opened Hashes
  import opened Memo
  import opened Payments
  import opened Records
  import opened QueueSlots
  import opened Transitions
  import opened Promotion
  import opened Backfill
  import opened Protocol
  import opened ProtocolInvariants

  // ---- Single use ----

  /** Over any run the resolved hashes of two promotions are disjoint, on whatever proposals. */
  lemma {:induction false} SingleUse(env: Environment, start: World, labels: seq<Label>, i: nat, j: nat)
    requires Start(start)
    requires var log := Run(env, start, labels).log; i < |log| && j < |log| && i != j
    ensures var log := Run(env, start, labels).log;
            && log[i].resolved !! log[j].resolved
            && log[i].presented != log[j].presented
            && log[i].presented !in log[j].resolved
  {
    hide WorkersLaw, RecordLaw, VersionLaw, UniqueHashes, SlotLaw, PaidFor, Exec;
    RunKeepsInvariant(env, start, labels);
    var log := Run(env, start, labels).log;
    if j < i {
      assert log[j].resolved !! log[i].resolved;
    }
  }

  /** Horizon's account of one fee-bumped payment, asked about under either of its names. */
  predicate DescribesFeeBump(info: TransactionInfo, asked: Hash, outer: Hash, inner: Hash)
  {
    && asked in {outer, inner}
    && info.hash == Some(asked) && info.innerHash == Some(inner) && info.feeBumpHash == Some(outer)
  }

  /** A fee-bumped payment buys at most one transition, under its outer and inner hash together. */
  lemma {:induction false} FeeBumpBuysOnce(env: Environment, start: World, labels: seq<Label>, i: nat, j: nat,
          outer: Hash, inner: Hash)
    requires Start(start) && !env.bypass
    requires IsCanonicalHash(outer) && IsCanonicalHash(inner)
    requires var log := Run(env, start, labels).log;
             && i < |log| && j < |log|
             && log[i].answer.Found? && DescribesFeeBump(log[i].answer.info, log[i].presented, outer, inner)
             && log[j].answer.Found? && DescribesFeeBump(log[j].answer.info, log[j].presented, outer, inner)
    ensures i == j
  {
    hide Resolved, IsCanonicalHash;
    RunKeepsInvariant(env, start, labels);
    var log := Run(env, start, labels).log;
    FeeBumpNamesTogether(outer, inner, log[i].presented, log[i].answer.info);
    FeeBumpNamesTogether(outer, inner, log[j].presented, log[j].answer.info);
    assert PaidFor(env, log[i]) && PaidFor(env, log[j]);
    assert outer in log[i].resolved && outer in log[j].resolved;
    if i != j {
      SingleUse(env, start, labels, i, j);
    }
  }

  // ---- Claimed if and only if applied ----

  /** The non-LEGACY claims are exactly the hashes the applied promotions resolve under. */
  lemma {:induction false} ClaimedIffApplied(env: Environment, start: World, labels: seq<Label>, h: Hash)
    requires Start(start)
    ensures var w := Run(env, start, labels);
            (h in w.db.ledger && w.db.ledger[h].purpose != Legacy) <==> exists i :: Burner(w.log, i, h)
  {
    RunKeepsInvariant(env, start, labels);
    var w := Run(env, start, labels);
    if i :| Burner(w.log, i, h) {
      assert w.db.ledger[h] == ClaimOf(w.log[i]);
    }
  }

  predicate IsWorkerWrite(l: Label) { l.CommitVerdict? || l.WriteRefusal? }

  function DispatchedFor(w: World, worker: WorkerId): Judgement
    requires worker in w.workers && !w.workers[worker].Loaded?
  {
    w.workers[worker].judgement
  }

  /** A worker that does not promote leaves history, ledger and slots alone, and writes at most
      the verdict columns of its own row - or retires the creation - and only while that row
      still awaits the action the worker was sent for. */
  lemma {:induction false} LosersCannotDamage(env: Environment, start: World, labels: seq<Label>, l: Label)
    requires Start(start) && IsWorkerWrite(l)
    requires var w := Run(env, start, labels); Exec(env, w, l).log == w.log
    ensures var w := Run(env, start, labels); var after := Exec(env, w, l);
            && after.db.history == w.db.history && after.db.ledger == w.db.ledger && after.db.slots == w.db.slots
            && after.db.rows.Keys == w.db.rows.Keys
            && (after.db.rows == w.db.rows
                || (&& l.worker in w.workers && !w.workers[l.worker].Loaded?
                    && var j := DispatchedFor(w, l.worker);
                    && j.pid in w.db.rows && LoserWrite(ActionOf(j.transition), w.db.rows[j.pid], after.db.rows[j.pid])
                    && after.db.rows == w.db.rows[j.pid := after.db.rows[j.pid]]))
            && (forall q :: q in w.db.rows && w.db.rows[q].action == NoAction ==> after.db.rows[q] == w.db.rows[q])
  {
    hide LawfulPromotion, LedgerLaw, RecordLaw, VersionLaw, UniqueHashes, SlotLaw, Commit, HandleReuse, WellJudged;
    RunKeepsInvariant(env, start, labels);
    var w := Run(env, start, labels);
    var s := StepFor(env, w, l);
    if l.CommitVerdict? && l.worker in w.workers && w.workers[l.worker].Judged? {
      assert PhaseLaw(w.db, w.workers[l.worker]);
      JudgedCommitIsLawful(env, w.db, w.workers[l.worker].judgement, l.now);
    } else if l.WriteRefusal? && l.worker in w.workers && w.workers[l.worker].Refused? {
      assert PhaseLaw(w.db, w.workers[l.worker]);
      RejectionIsLawful(env, w.db, w.workers[l.worker].judgement, 0);
    }
    assert s.Apply? ==> |Exec(env, w, l).log| == |w.log| + 1;
  }

  lemma {:induction false} JudgedCommitIsLawful(env: Environment, db: Db, j: Judgement, now: Instant)
    requires WellJudged(db, j)
    ensures j.pid in db.rows && LawfulCommit(env, db, j, Commit(env, db, j, now).0)
  {
    CommitIsLawful(env, db, j, now);
  }

  // ---- Paid-for values ----

  /** Every applied promotion wrote exactly the transition whose memo expectation and bound payer
      the settled payment satisfied, whatever staging did between the verdict and the lock. */
  lemma {:induction false} PaidForValues(env: Environment, start: World, labels: seq<Label>, i: nat)
    requires Start(start) && i < |Run(env, start, labels).log|
    ensures PaidFor(env, Run(env, start, labels).log[i])
  {
    RunKeepsInvariant(env, start, labels);
  }

  /** Every applied promotion was written over a row that, at that very step, still held its hash and its
      content, and used exactly that staging up: what a payer staged meanwhile is never consumed unapplied. */
  lemma {:induction false} StagedIsWritten(env: Environment, start: World, labels: seq<Label>, i: nat)
      returns (n: nat)
    requires Start(start) && i < |Run(env, start, labels).log|
    ensures n < |labels|
    ensures var w, after := Run(env, start, labels[..n]), Run(env, start, labels[..n + 1]);
            var e := Run(env, start, labels).log[i];
            && |w.log| == i && after.log == w.log + [e]
            && e.pid in w.db.rows && w.db.rows[e.pid] == e.before
            && e.pid in after.db.rows && after.db.rows[e.pid] == e.after
            && StillHeld(e.purpose, e.before, e.after) && UsesUp(e.purpose, e.before, e.after)
    decreases |labels|
  {
    hide Run, Exec, Invariant, StillHeld, UsesUp;
    RunOfNothing(env, start);
    assert labels != [] by {
      assert labels == [] ==> Run(env, start, labels).log == [];
    }
    var last := |labels| - 1;
    var w := Run(env, start, labels[..last]);
    RunUnfolds(env, start, labels);
    RunKeepsInvariant(env, start, labels[..last]);
    InvariantKnowsWorkers(env, w);
    LogGrowsAtStep(env, w, labels[last]);
    if i < |w.log| {
      n := StagedIsWritten(env, start, labels[..last], i);
      assert labels[..last][..n] == labels[..n] && labels[..last][..n + 1] == labels[..n + 1];
    } else {
      n := last;
      assert labels[..n + 1] == labels;
    }
  }

  lemma RunOfNothing(env: Environment, w: World)
    ensures Run(env, w, []) == w
  {
  }

  lemma InvariantKnowsWorkers(env: Environment, w: World)
    requires Invariant(env, w)
    ensures WorkersLaw(w)
  {
  }

  lemma {:induction false} LogGrowsAtStep(env: Environment, w: World, l: Label)
    requires WorkersLaw(w)
    ensures var after := Exec(env, w, l);
            || after.log == w.log
            || (&& |after.log| == |w.log| + 1
                && var e := after.log[|w.log|];
                   && after.log == w.log + [e] && e.pid in w.db.rows && e.pid in after.db.rows
                   && w.db.rows[e.pid] == e.before && after.db.rows[e.pid] == e.after
                   && StillHeld(e.purpose, e.before, e.after) && UsesUp(e.purpose, e.before, e.after))
  {
    hide StepFor, WorkersLaw, StillHeld, UsesUp, WorkersAfter, Authorizes, Writes, HasAssetConflict, SlotLaw, HashTaken;
    StepIsLawful(env, w, l);
  }

  ghost predicate ShelvedIn(history: seq<HistoryRow>, e: Entry)
  {
    exists k :: 0 <= k < |history| && Keeps(history[k], e.pid, e.before)
                && (history[k].hidden <==> e.purpose == ForSubmit)
  }

  lemma {:induction false} StepKeepsShelved(env: Environment, w: World, l: Label, e: Entry)
    requires WorkersLaw(w) && e.purpose != ForCreate
    requires ShelvedIn(w.db.history, e) || (|Exec(env, w, l).log| == |w.log| + 1 && Exec(env, w, l).log[|w.log|] == e)
    ensures ShelvedIn(Exec(env, w, l).db.history, e)
  {
    hide StepFor, WorkersLaw, Writes, StillHeld, UsesUp, WorkersAfter, Authorizes, HasAssetConflict, SlotLaw, HashTaken,
         Keeps;
    StepIsLawful(env, w, l);
    var after := Exec(env, w, l).db.history;
    if ShelvedIn(w.db.history, e) {
      var k :| 0 <= k < |w.db.history| && Keeps(w.db.history[k], e.pid, e.before)
               && (w.db.history[k].hidden <==> e.purpose == ForSubmit);
      assert after[k] == w.db.history[k];
    } else {
      var c := StepFor(env, w, l).promotion;
      assert after[|w.db.history|] == c.shelved[0];
    }
  }

  /** Nothing published is lost: whatever an update or a submit replaced - title, text, version, hash and
      envelope as they stood - is on a history row for ever, visible exactly when an update replaced it. */
  lemma {:induction false} PublishedIsShelved(env: Environment, start: World, labels: seq<Label>, i: nat)
    requires Start(start) && i < |Run(env, start, labels).log|
    requires Run(env, start, labels).log[i].purpose != ForCreate
    ensures ShelvedIn(Run(env, start, labels).db.history, Run(env, start, labels).log[i])
    decreases |labels|
  {
    hide Run, Exec, Invariant, ShelvedIn, StillHeld, UsesUp;
    RunOfNothing(env, start);
    assert labels != [] by {
      assert labels == [] ==> Run(env, start, labels).log == [];
    }
    var last := |labels| - 1;
    var w := Run(env, start, labels[..last]);
    RunUnfolds(env, start, labels);
    RunKeepsInvariant(env, start, labels[..last]);
    InvariantKnowsWorkers(env, w);
    LogGrowsAtStep(env, w, labels[last]);
    if i < |w.log| {
      PublishedIsShelved(env, start, labels[..last], i);
    }
    StepKeepsShelved(env, w, labels[last], Run(env, start, labels).log[i]);
  }

  /** The promotion is for the purpose, the target and the content that `g` names. */
  ghost predicate WroteWhat(env: Environment, e: Entry, g: Fields)
  {
    match g
    case CreateFields(who, literal, title, html) =>
      e.purpose == ForCreate && AccountElement(env.crypto, who) == env.crypto.account(e.after.proposedBy)
      && literal == TypeLiteral(e.after.proposalType) && title == Some(e.after.title)
         && Encoded(html) == Encoded(Some(e.after.text))
    case UpdateFields(id, title, html) =>
      e.purpose == ForUpdate && IdElement(id) == IdElement(IntegerId(e.pid))
      && title == Some(e.after.title) && Encoded(html) == Encoded(Some(e.after.text))
    case SubmitFields(id, start, end) =>
      e.purpose == ForSubmit && IdElement(id) == IdElement(IntegerId(e.pid)) && start == e.after.startAt
          && end == e.after.endAt
  }

  /** The free text a payment for the transition may commit to instead, while such memos are accepted. */
  function LegacyTextOf(env: Environment, t: Transition): Option<string>
  {
    if env.acceptLegacy then LegacyPreimage(FieldsOf(t), if t.SubmitTransition? then Some(t.legacyText) else None)
        else None
  }

  /** What the payer's memo commits to is what was written. A digest on chain that commits to `g`
      determines purpose, target and content of the promotion it bought, unless legacy memos are
      accepted and the promotion's own free text spells the payload of `g` out. */
  lemma {:induction false} MemoDeterminesWrite(env: Environment, start: World, labels: seq<Label>, i: nat, g: Fields)
    requires Start(start) && i < |Run(env, start, labels).log|
    requires !env.bypass && SeparatorFree(env.crypto) && CollisionFree(env.crypto)
    requires var e := Run(env, start, labels).log[i];
             Payload(env.crypto, g).Some? && e.answer.Found?
                 && e.answer.info.memo == HashMemo(env.crypto.sha(Payload(env.crypto, g).value))
    ensures var e := Run(env, start, labels).log[i];
            || (SameMeaning(env.crypto, FieldsOf(e.transition), g) && WroteWhat(env, e, g))
            || LegacyTextOf(env, e.transition) == Payload(env.crypto, g)
  {
    hide Payload, IdElement, LedgerLaw, RecordLaw, VersionLaw, UniqueHashes, SlotLaw, WorkersLaw, LegacyTextOf;
    RunKeepsInvariant(env, start, labels);
    var e := Run(env, start, labels).log[i];
    assert PaidFor(env, e);
    if LegacyTextOf(env, e.transition) != Payload(env.crypto, g) {
      WriteMatchesMemo(env, e, g);
    }
  }

  lemma WriteMatchesMemo(env: Environment, e: Entry, g: Fields)
    requires !env.bypass && SeparatorFree(env.crypto) && CollisionFree(env.crypto)
    requires PaidFor(env, e) && e.purpose == PurposeOf(e.transition)
    requires Payload(env.crypto, g).Some?
             && e.answer.info.memo == HashMemo(env.crypto.sha(Payload(env.crypto, g).value))
    requires LegacyTextOf(env, e.transition) != Payload(env.crypto, g)
    ensures SameMeaning(env.crypto, FieldsOf(e.transition), g)
    ensures WroteWhat(env, e, g)
  {
    var f := FieldsOf(e.transition);
    AcceptedSpellsPayload(env, e.transition, g);
    PayloadInjective(env.crypto, f, g);
  }

  /** A digest that commits to `g` is accepted for a transition exactly when one of its own two
      preimages is the payload of `g`. */
  lemma {:induction false} AcceptedSpellsPayload(env: Environment, t: Transition, g: Fields)
    requires CollisionFree(env.crypto) && Payload(env.crypto, g).Some?
    ensures var x, digest := ExpectationOf(env, t), env.crypto.sha(Payload(env.crypto, g).value);
            x.canonical == Some(digest) || x.legacy == Some(digest)
            <==> Payload(env.crypto, FieldsOf(t)) == Payload(env.crypto, g)
                 || LegacyTextOf(env, t) == Payload(env.crypto, g)
  {
    hide Payload, LegacyPreimage;
  }

  /** A payment accepted by its legacy memo alone still fixes the text: whatever text carries that
      digest is the text an update or a creation wrote. */
  lemma {:induction false} LegacyMemoDeterminesText(env: Environment, start: World, labels: seq<Label>, i: nat,
          text: string)
    requires Start(start) && i < |Run(env, start, labels).log|
    requires !env.bypass && CollisionFree(env.crypto)
    requires var e := Run(env, start, labels).log[i];
             && e.answer.Found? && e.answer.info.memo == HashMemo(env.crypto.sha(text))
                && !e.transition.SubmitTransition?
             && ExpectationOf(env, e.transition).canonical != Some(env.crypto.sha(text))
    ensures var e := Run(env, start, labels).log[i]; env.acceptLegacy && Encoded(Some(e.after.text)) == Some(text)
  {
    hide Payload, IdElement, LedgerLaw, RecordLaw, VersionLaw, UniqueHashes, SlotLaw, WorkersLaw, Run;
    RunKeepsInvariant(env, start, labels);
    assert PaidFor(env, Run(env, start, labels).log[i]);
  }

  // ---- Reconstruction of the ledger ----

  /** In every reachable state the presented hash of every promotion is still stored. */
  lemma SpentHashesStayStored(env: Environment, start: World, labels: seq<Label>, i: nat)
    requires Start(start) && i < |Run(env, start, labels).log|
    ensures var w := Run(env, start, labels); Recorded(w.db, w.log[i].presented)
  {
    RunKeepsInvariant(env, start, labels);
  }

  /** Some row holds the hash, in whatever spelling, while it awaits its creation. */
  predicate AwaitsCreate(db: Db, h: Hash)
  {
    exists q :: q in db.rows && db.rows[q].action == ToCreate && CanonicalHash(db.rows[q].hash) == h
  }

  /** Some other row, or some history row, holds the hash. */
  predicate HeldElsewhere(db: Db, h: Hash)
  {
    || (exists q :: q in db.rows && db.rows[q].action != ToCreate && CanonicalHash(db.rows[q].hash) == h)
    || (exists k :: 0 <= k < |db.history| && CanonicalHash(db.history[k].hash) == h)
  }

  predicate OnlyAwaits(db: Db, h: Hash) { AwaitsCreate(db, h) && !HeldElsewhere(db, h) }

  /** A stored hash is missed by the backfill exactly when only a row awaiting its creation holds it. */
  lemma {:induction false} BackfillCoversIff(db: Db, h: Hash)
    requires IsCanonicalHash(h) && Recorded(db, h)
    ensures h in Claims(db) <==> !OnlyAwaits(db, h)
  {
    hide Claims, IsCanonicalHash, CanonicalHash;
    CanonicalHashIsFixed(h);
    CanonicalIsNotBlank(h);
    ClaimsExact(db, h);
    if k :| 0 <= k < |db.history| && db.history[k].hash == Some(h) {
      assert CanonicalHash(db.history[k].hash) == h;
    } else if q :| q in db.rows && db.rows[q].hash == Some(h) {
      assert CanonicalHash(db.rows[q].hash) == h;
    }
  }

  lemma CanonicalIsNotBlank(h: Hash)
    requires IsCanonicalHash(h)
    ensures h != ""
  {
  }

  /** Reconstruction: one backfill over an emptied ledger burns every presented hash again,
      if and only if no promoted row sits re-armed to TO_CREATE as its hash's only holder. */
  lemma {:induction false} ReconstructionIff(env: Environment, start: World, labels: seq<Label>)
    requires Start(start)
    ensures var w := Run(env, start, labels); var rebuilt := Backfilled(w.db.(ledger := map[])).ledger;
            (forall i :: 0 <= i < |w.log| ==> w.log[i].presented in rebuilt)
            <==> forall i :: 0 <= i < |w.log| ==> !OnlyAwaits(w.db, w.log[i].presented)
  {
    hide Claims, IsCanonicalHash, OnlyAwaits, WorkersLaw, SlotLaw, VersionLaw, Recorded, UniqueHashes;
    RunKeepsInvariant(env, start, labels);
    var w := Run(env, start, labels);
    assert Claims(w.db.(ledger := map[])) == Claims(w.db) by { ClaimsIgnoreLedger(w.db); }
    forall i | 0 <= i < |w.log| ensures w.log[i].presented in Claims(w.db) <==> !OnlyAwaits(w.db, w.log[i].presented) {
      BackfillCoversIff(w.db, w.log[i].presented);
    }
  }

  lemma ClaimsIgnoreLedger(db: Db)
    ensures Claims(db.(ledger := map[])) == Claims(db)
  {
  }

  predicate Promoted(log: seq<Entry>, h: Hash) { exists i :: 0 <= i < |log| && log[i].presented == h }

  /** The operator re-arms a creation on a row whose own hash was already spent on a promotion. */
  predicate RearmsPromoted(w: World, l: Label)
  {
    && l.Rearm? && l.action == ToCreate && l.pid in w.db.rows
    && w.db.rows[l.pid].hash.Some? && Promoted(w.log, w.db.rows[l.pid].hash.value)
  }

  ghost predicate NeverRearmsPromoted(env: Environment, start: World, labels: seq<Label>)
  {
    forall k :: 0 <= k < |labels| ==> !RearmsPromoted(Run(env, start, labels[..k]), labels[k])
  }

  /** No promoted hash waits on a TO_CREATE row. */
  ghost predicate NoneAwaits(w: World)
  {
    forall q :: q in w.db.rows && w.db.rows[q].action == ToCreate && w.db.rows[q].hash.Some?
                ==> !Promoted(w.log, w.db.rows[q].hash.value) || HistoryHashTaken(w.db.history, w.db.rows[q].hash)
  }

  /** A row write that puts TO_CREATE where it was not, on the same hash. */
  predicate Arms(rows: map<ProposalId, Row>, pid: ProposalId, row: Row)
  {
    pid in rows && row.action == ToCreate && rows[pid].action != ToCreate
  }

  lemma LoserNeverArms(env: Environment, db: Db, j: Judgement, c: Change)
    requires LawfulCommit(env, db, j, c) && c.Rewrite?
    ensures !Arms(db.rows, c.pid, c.row) && c.pid in db.rows && c.row.hash == db.rows[c.pid].hash
  {
    hide LawfulPromotion;
  }

  lemma {:induction false} WorkerNeverArms(env: Environment, w: World, l: Label)
    requires WorkersLaw(w) && IsWorkerWrite(l) && StepFor(env, w, l).Put?
    ensures var s := StepFor(env, w, l);
            !Arms(w.db.rows, s.pid, s.row) && s.pid in w.db.rows
            && s.row.hash == w.db.rows[s.pid].hash
  {
    hide LawfulPromotion, LawfulCommit, Commit, HandleReuse, Arms, WellJudged;
    var phase := w.workers[l.worker];
    assert PhaseLaw(w.db, phase);
    if l.CommitVerdict? {
      JudgedCommitIsLawful(env, w.db, phase.judgement, l.now);
      LoserNeverArms(env, w.db, phase.judgement, Commit(env, w.db, phase.judgement, l.now).0);
    } else {
      RejectionIsLawful(env, w.db, phase.judgement, 0);
      LoserNeverArms(env, w.db, phase.judgement, HandleReuse(w.db, phase.judgement.pid, phase.judgement.transition).0);
    }
  }

  lemma {:induction false} OnlyRearmArms(env: Environment, w: World, l: Label)
    requires WorkersLaw(w) && StepFor(env, w, l).Put?
    ensures var s := StepFor(env, w, l);
            s.pid in w.db.rows && s.row.hash == w.db.rows[s.pid].hash
            && (Arms(w.db.rows, s.pid, s.row) ==> l.Rearm? && l.action == ToCreate && l.pid == s.pid)
  {
    hide CommitOf, RefusalOf, HasAssetConflict, SlotConflict, NewHashTaken, HashTaken;
    if IsWorkerWrite(l) {
      WorkerNeverArms(env, w, l);
    }
  }

  lemma {:induction false} PutKeepsNoneAwaiting(env: Environment, w: World, l: Label)
    requires WorkersLaw(w) && NoneAwaits(w) && !RearmsPromoted(w, l)
    requires StepFor(env, w, l).Put?
    ensures NoneAwaits(Exec(env, w, l))
  {
    hide WorkersLaw, StepFor, Promoted, HistoryHashTaken, WorkersAfter;
    OnlyRearmArms(env, w, l);
  }

  lemma {:induction false} InsertKeepsNoneAwaiting(env: Environment, w: World, l: Label)
    requires Invariant(env, w) && NoneAwaits(w) && StepFor(env, w, l).Insert?
    ensures NoneAwaits(Exec(env, w, l))
  {
    hide LedgerLaw, VersionLaw, UniqueHashes, SlotLaw, PaidFor, WorkersLaw, LawfulPromotion;
    StepIsLawful(env, w, l);
    var s := StepFor(env, w, l);
    if i :| 0 <= i < |w.log| && Some(w.log[i].presented) == s.row.hash {
      assert Recorded(w.db, w.log[i].presented);
      assert HistoryHashTaken(w.db.history, s.row.hash);
    }
  }

  lemma PromotionKeepsNoneAwaiting(w: World, after: World, c: Change)
    requires NoneAwaits(w) && c.Promote? && !HashTaken(w.db.rows, c.pid, c.row.hash)
    requires c.row.action == NoAction && c.row.hash == Some(c.entry.presented)
    requires after.db.rows == w.db.rows[c.pid := c.row] && after.db.history == w.db.history + c.shelved
             && after.log == w.log + [c.entry]
    ensures NoneAwaits(after)
  {
    forall q | q in after.db.rows && after.db.rows[q].action == ToCreate && after.db.rows[q].hash.Some?
        && Promoted(after.log, after.db.rows[q].hash.value)
      ensures HistoryHashTaken(after.db.history, after.db.rows[q].hash)
    {
      var h := w.db.rows[q].hash;
      var i :| 0 <= i < |after.log| && after.log[i].presented == h.value;
      assert i < |w.log|;
      var k :| 0 <= k < |w.db.history| && w.db.history[k].hash == h;
      assert after.db.history[k].hash == h;
    }
  }

  lemma {:induction false} StepKeepsNoneAwaiting(env: Environment, w: World, l: Label)
    requires Invariant(env, w) && NoneAwaits(w) && !RearmsPromoted(w, l)
    ensures NoneAwaits(Exec(env, w, l))
  {
    hide StepFor, WorkersLaw, LedgerLaw, RecordLaw, VersionLaw, UniqueHashes, SlotLaw, PaidFor, Promoted,
         HistoryHashTaken, HashTaken, HasAssetConflict, WorkersAfter, RearmsPromoted;
    var s := StepFor(env, w, l);
    match s
    case Put(_, _) => PutKeepsNoneAwaiting(env, w, l);
    case Insert(_, _) => InsertKeepsNoneAwaiting(env, w, l);
    case Apply(c) =>
      StepIsLawful(env, w, l);
      PromotionKeepsNoneAwaiting(w, Exec(env, w, l), c);
    case _ =>
  }

  lemma {:induction false} RunKeepsNoneAwaiting(env: Environment, start: World, labels: seq<Label>)
    requires Start(start) && NeverRearmsPromoted(env, start, labels)
    ensures NoneAwaits(Run(env, start, labels))
  {
    hide StepFor, Exec;
    if labels != [] {
      var init := labels[..|labels| - 1];
      forall k | 0 <= k < |init| ensures !RearmsPromoted(Run(env, start, init[..k]), init[k]) {
        assert init[..k] == labels[..k] && init[k] == labels[k];
      }
      RunKeepsNoneAwaiting(env, start, init);
      RunKeepsInvariant(env, start, init);
      StepKeepsNoneAwaiting(env, Run(env, start, init), labels[|labels| - 1]);
      RunUnfolds(env, start, labels);
    }
  }

  lemma RunUnfolds(env: Environment, start: World, labels: seq<Label>)
    requires labels != []
    ensures Run(env, start, labels) == Exec(env, Run(env, start, labels[..|labels| - 1]), labels[|labels| - 1])
  {
  }

  /** Unless a promoted row was re-armed to TO_CREATE, one backfill over an emptied ledger
      burns the presented hash of every promotion again. */
  lemma {:induction false} Reconstruction(env: Environment, start: World, labels: seq<Label>)
    requires Start(start) && NeverRearmsPromoted(env, start, labels)
    ensures var w := Run(env, start, labels); var rebuilt := Backfilled(w.db.(ledger := map[])).ledger;
            forall i :: 0 <= i < |w.log| ==> w.log[i].presented in rebuilt
  {
    hide Claims, Run, WorkersLaw, LedgerLaw, VersionLaw, SlotLaw, PaidFor, OnlyAwaits, NoneAwaits;
    RunKeepsInvariant(env, start, labels);
    RunKeepsNoneAwaiting(env, start, labels);
    ReconstructionIff(env, start, labels);
    var w := Run(env, start, labels);
    forall i | 0 <= i < |w.log| ensures !OnlyAwaits(w.db, w.log[i].presented) {
      NoneAwaitsAlone(w, i);
    }
  }

  lemma {:induction false} NoneAwaitsAlone(w: World, i: nat)
    requires NoneAwaits(w) && i < |w.log| && IsCanonicalHash(w.log[i].presented) && Recorded(w.db, w.log[i].presented)
    ensures !OnlyAwaits(w.db, w.log[i].presented)
  {
    hide CanonicalHash, IsCanonicalHash;
    var h := w.log[i].presented;
    CanonicalHashIsFixed(h);
    assert Promoted(w.log, h);
    if k :| 0 <= k < |w.db.history| && w.db.history[k].hash == Some(h) {
      assert CanonicalHash(w.db.history[k].hash) == h;
    } else if q :| q in w.db.rows && w.db.rows[q].hash == Some(h) {
      assert CanonicalHash(w.db.rows[q].hash) == h;
    }
  }

  // ---- What a rebuilt ledger still refuses ----

  /** A hash claimed at the start, by whatever purpose, is never bought with again. */
  lemma {:induction false} ClaimedStaysRefused(env: Environment, start: World, labels: seq<Label>, h: Hash)
    requires Start(start) && h in start.db.ledger
    ensures var w := Run(env, start, labels);
            h in w.db.ledger && forall i :: 0 <= i < |w.log| ==> h !in w.log[i].resolved
  {
    hide Exec, StepFor, Invariant;
    if labels != [] {
      var init := labels[..|labels| - 1];
      ClaimedStaysRefused(env, start, init, h);
      RunKeepsInvariant(env, start, init);
      RunUnfolds(env, start, labels);
      StepRefusesClaimed(env, Run(env, start, init), labels[|labels| - 1], h);
    }
  }

  lemma {:induction false} StepRefusesClaimed(env: Environment, w: World, l: Label, h: Hash)
    requires Invariant(env, w) && h in w.db.ledger && forall i :: 0 <= i < |w.log| ==> h !in w.log[i].resolved
    ensures var after := Exec(env, w, l); h in after.db.ledger && forall i :: 0 <= i < |after.log|
                                                                              ==> h !in after.log[i].resolved
  {
    hide StepFor, WorkersAfter, WorkersLaw, LedgerLaw, RecordLaw, VersionLaw, UniqueHashes, SlotLaw, PaidFor, HashTaken,
         HasAssetConflict;
    StepIsLawful(env, w, l);
  }

  /** The database after its ledger was lost and rebuilt from the two stored columns, nobody at work. */
  function Rebuilt(db: Db): World { World(Backfilled(db.(ledger := map[])), [], map[], {}, {}) }

  lemma RebuiltIsStart(db: Db)
    requires VersionLaw(db) && UniqueHashes(db) && SlotLaw(db.slots)
    ensures Start(Rebuilt(db))
  {
    hide Claims;
  }

  /** After a rebuild every used payment stays refused, under its outer and its inner name. */
  lemma {:induction false} RebuildRefusesUsedPayments(env: Environment, start: World, labels: seq<Label>,
          later: seq<Label>, i: nat, j: nat, outer: Hash, inner: Hash)
    requires Start(start) && NeverRearmsPromoted(env, start, labels) && i < |Run(env, start, labels).log|
    ensures var used := Run(env, start, labels).log[i].presented;
            var rebuilt := Rebuilt(Run(env, start, labels).db);
            var log := Run(env, rebuilt, later).log;
            && Start(rebuilt)
            && (j < |log| ==> used !in log[j].resolved && used != log[j].presented)
            && (j < |log| && !env.bypass && IsCanonicalHash(outer) && IsCanonicalHash(inner) && used in {outer, inner}
                && log[j].answer.Found?
                ==> !DescribesFeeBump(log[j].answer.info, log[j].presented, outer, inner))
  {
    hide Run, Claims, WorkersLaw, LedgerLaw, RecordLaw, IsCanonicalHash, SlotLaw, VersionLaw, UniqueHashes;
    RunKeepsInvariant(env, start, labels);
    Reconstruction(env, start, labels);
    var w := Run(env, start, labels);
    var used, rebuilt := w.log[i].presented, Rebuilt(w.db);
    RebuiltIsStart(w.db);
    ClaimedStaysRefused(env, rebuilt, later, used);
    if j < |Run(env, rebuilt, later).log| {
      RunKeepsInvariant(env, rebuilt, later);
      var e := Run(env, rebuilt, later).log[j];
      PresentedIsResolved(env, rebuilt, later, j);
      if !env.bypass && IsCanonicalHash(outer) && IsCanonicalHash(inner) && e.answer.Found?
         && DescribesFeeBump(e.answer.info, e.presented, outer, inner) {
        FeeBumpNamesTogether(outer, inner, e.presented, e.answer.info);
      }
    }
  }

  lemma {:induction false} PresentedIsResolved(env: Environment, start: World, labels: seq<Label>, j: nat)
    requires Start(start) && j < |Run(env, start, labels).log|
    ensures var e := Run(env, start, labels).log[j];
            e.presented in e.resolved
                && (!env.bypass ==> e.answer.Found? && e.resolved == Resolved(e.presented, e.answer.info))
  {
    hide Run;
    RunKeepsInvariant(env, start, labels);
  }

  lemma RunThen(env: Environment, w: World, labels: seq<Label>, l: Label)
    ensures Run(env, w, labels + [l]) == Exec(env, Run(env, w, labels), l)
  {
    assert (labels + [l])[..|labels|] == labels;
  }

  function SampleRow(h: Hash): Row
  {
    Row("G", General, None, "title", Html("text"), 1, Some(h), None, 0, None, None, false, true, ToCreate,
        Discussion, Fine, Fine, None, None, None, None, None, None, None, None)
  }

  function SampleJudgement(h: Hash, answer: Answer): Judgement
  {
    Judgement(0, SampleRow(h), Resolve(0, SampleRow(h)), answer)
  }

  function SampleLabels(h: Hash, answer: Answer): seq<Label>
  {
    [StageCreate(0, SampleRow(h)), Load(0, 0), Ask(0, answer), CommitVerdict(0, 0), Rearm(0, ToCreate, false)]
  }

  const EMPTY_WORLD := World(Db(map[], [], map[], map[]), [], map[], {}, {})

  lemma SampleStages(env: Environment, h: Hash, answer: Answer)
    requires IsCanonicalHash(h)
    ensures Run(env, EMPTY_WORLD, SampleLabels(h, answer)[..3])
            == World(Db(map[0 := SampleRow(h)], [], map[], map[]), [], map[0 := Judged(SampleJudgement(h, answer))],
                     {}, {})
  {
    hide IsCanonicalHash;
    var labels, row := SampleLabels(h, answer), SampleRow(h);
    RunThen(env, EMPTY_WORLD, [], labels[0]);
    RunThen(env, EMPTY_WORLD, labels[..1], labels[1]);
    RunThen(env, EMPTY_WORLD, labels[..2], labels[2]);
    assert labels[..1] == [] + [labels[0]] && labels[..2] == labels[..1] + [labels[1]]
           && labels[..3] == labels[..2] + [labels[2]];
    var w1 := Exec(env, EMPTY_WORLD, labels[0]);
    assert StepFor(env, EMPTY_WORLD, labels[0]) == Insert(0, row);
    assert w1 == EMPTY_WORLD.(db := Db(map[0 := row], [], map[], map[]));
    var w2 := Exec(env, w1, labels[1]);
    assert w2 == w1.(workers := map[0 := Loaded(0, row)]);
  }

  lemma SamplePromotes(env: Environment, h: Hash, answer: Answer, db: Db)
    requires IsCanonicalHash(h) && ResultOf(env, SampleJudgement(h, answer)).status == Fine
    requires db == Db(map[0 := SampleRow(h)], [], map[], map[])
    ensures var c := Commit(env, db, SampleJudgement(h, answer), 0).0;
            && c.Promote? && c.pid == 0 && c.row == CreatedRow(SampleRow(h)) && c.shelved == []
               && c.entry.presented == h
  {
    hide ResultOf, ClaimHashes, IsCanonicalHash;
    ClaimCoversPresented(env, SampleJudgement(h, answer));
  }

  lemma SampleRun(env: Environment, h: Hash, answer: Answer)
    requires IsCanonicalHash(h) && ResultOf(env, SampleJudgement(h, answer)).status == Fine
    ensures var w := Run(env, EMPTY_WORLD, SampleLabels(h, answer));
            && w.db.rows == map[0 := Rearmed(CreatedRow(SampleRow(h)), ToCreate, false)] && w.db.history == []
            && |w.log| == 1 && w.log[0].presented == h
  {
    hide Commit, Resolve, ResultOf, IsCanonicalHash, Exec;
    var labels := SampleLabels(h, answer);
    SampleStages(env, h, answer);
    var w3 := Run(env, EMPTY_WORLD, labels[..3]);
    RunThen(env, EMPTY_WORLD, labels[..3], labels[3]);
    RunThen(env, EMPTY_WORLD, labels[..4], labels[4]);
    assert labels[..4] == labels[..3] + [labels[3]] && labels == labels[..4] + [labels[4]];
    SampleCommits(env, h, answer, w3);
    SampleRearms(env, h, Exec(env, w3, labels[3]));
  }

  lemma SampleCommits(env: Environment, h: Hash, answer: Answer, w: World)
    requires IsCanonicalHash(h) && ResultOf(env, SampleJudgement(h, answer)).status == Fine
    requires w
             == World(Db(map[0 := SampleRow(h)], [], map[], map[]), [], map[0 := Judged(SampleJudgement(h, answer))],
                      {}, {})
    ensures var after := Exec(env, w, CommitVerdict(0, 0));
            after.db.rows == map[0 := CreatedRow(SampleRow(h))] && after.db.history == [] && |after.log| == 1
                && after.log[0].presented == h
  {
    hide Commit, Resolve, ResultOf, IsCanonicalHash, CreatedRow, SampleRow;
    SamplePromotes(env, h, answer, w.db);
  }

  lemma SampleRearms(env: Environment, h: Hash, w: World)
    requires w.db.rows == map[0 := CreatedRow(SampleRow(h))]
    ensures var after := Exec(env, w, Rearm(0, ToCreate, false));
            after.db.rows == map[0 := Rearmed(CreatedRow(SampleRow(h)), ToCreate, false)]
                && after.db.history == w.db.history && after.log == w.log
  {
    hide CreatedRow, SampleRow, Rearmed;
  }

  /** The escape is real: whatever confirmed payment created the proposal, re-arming it to
      TO_CREATE makes the backfill skip its spent hash. */
  lemma {:induction false} RearmedCreationIsMissed(env: Environment, h: Hash, answer: Answer)
    requires IsCanonicalHash(h) && ResultOf(env, SampleJudgement(h, answer)).status == Fine
    ensures Start(EMPTY_WORLD)
    ensures var w := Run(env, EMPTY_WORLD, SampleLabels(h, answer));
            |w.log| == 1 && w.log[0].presented !in Backfilled(w.db.(ledger := map[])).ledger
  {
    hide Run, Claims, CanonicalHash, ResultOf;
    SampleRun(env, h, answer);
    ClaimsExact(Run(env, EMPTY_WORLD, SampleLabels(h, answer)).db.(ledger := map[]), h);
  }

  // ---- Versions, slots, assets and the clock ----

  /** Versions are conserved: a row's version is one more than its visible history rows, which
      are numbered 1 to version - 1, and its hidden ones number the submits applied to it. */
  lemma {:induction false} VersionsAreConserved(env: Environment, start: World, labels: seq<Label>, q: ProposalId)
    requires Start(start) && q in Run(env, start, labels).db.rows
    ensures var w := Run(env, start, labels);
            && w.db.rows[q].version >= 1 && VisibleVersions(w.db.history, q) == UpTo(w.db.rows[q].version - 1)
            && HiddenCount(w.db.history, q) == HiddenCount(start.db.history, q) + SubmitCount(w.log, q)
  {
    hide WorkersLaw, LedgerLaw, RecordLaw, UniqueHashes, SlotLaw, PaidFor, Exec, HiddenCount, SubmitCount;
    RunKeepsInvariant(env, start, labels);
    HiddenRowsCountSubmits(env, start, labels, q);
    assert VersionOk(Run(env, start, labels).db.history, q, Run(env, start, labels).db.rows[q].version);
  }

  lemma {:induction false} HiddenRowsCountSubmits(env: Environment, start: World, labels: seq<Label>, q: ProposalId)
    requires Start(start)
    ensures var w := Run(env, start, labels);
            HiddenCount(w.db.history, q) == HiddenCount(start.db.history, q)
            + SubmitCount(w.log, q)
  {
    hide StepFor, WorkersLaw, LedgerLaw, RecordLaw, VersionLaw, UniqueHashes, SlotLaw, PaidFor, HiddenCount, ApplyStep;
    if labels == [] {
      assert SubmitCount([], q) == 0;
    } else {
      var init := labels[..|labels| - 1];
      HiddenRowsCountSubmits(env, start, init, q);
      RunKeepsInvariant(env, start, init);
      var w := Run(env, start, init);
      StepIsLawful(env, w, labels[|init|]);
      StepKeepsHidden(env, w.db, w.log, StepFor(env, w, labels[|init|]), q);
    }
  }

  /** In every reachable state any instant lies in at most one slot, and every slot is a whole week. */
  lemma {:induction false} SlotsStayDisjoint(env: Environment, start: World, labels: seq<Label>, p: ProposalId,
          q: ProposalId, t: Instant)
    requires Start(start)
    requires var slots := Run(env, start, labels).db.slots; p in slots && q in slots
    ensures var slots := Run(env, start, labels).db.slots;
            && IsExactWeek(slots[p].start, slots[p].end)
            && (Contains(slots[p].start, slots[p].end, t) && Contains(slots[q].start, slots[q].end, t) ==> p == q)
  {
    hide WorkersLaw, LedgerLaw, RecordLaw, UniqueHashes, VersionLaw, PaidFor, Exec;
    RunKeepsInvariant(env, start, labels);
    SlotsAreDisjoint(Run(env, start, labels).db.slots, p, q, t);
  }

  /** At most one visible proposal is queued or voting on an asset. */
  ghost predicate AssetExclusive(rows: map<ProposalId, Row>)
  {
    forall p, q :: p in rows && q in rows && Active(rows[p]) && Active(rows[q])
                   && rows[p].asset.Some? && rows[p].asset == rows[q].asset
                   ==> p == q
  }

  /** The operator makes a hidden active proposal visible while another one holds its asset. */
  predicate UnhidesConflict(w: World, l: Label)
  {
    && l.Rearm? && l.unhide && l.pid in w.db.rows && !Active(w.db.rows[l.pid])
    && Active(w.db.rows[l.pid].(hidden := false)) && HasAssetConflict(w.db.rows, l.pid, w.db.rows[l.pid])
  }

  ghost predicate NoNewlyActive(rows: map<ProposalId, Row>, pid: ProposalId, row: Row)
  {
    && pid in rows && row.asset == rows[pid].asset && row.proposalType == rows[pid].proposalType
    && (Active(row) && !Active(rows[pid]) ==> !HasAssetConflict(rows, pid, rows[pid]))
  }

  lemma SavingKeepsExclusive(rows: map<ProposalId, Row>, pid: ProposalId, row: Row)
    requires AssetExclusive(rows) && NoNewlyActive(rows, pid, row)
    ensures AssetExclusive(rows[pid := row])
  {
    forall q | q in rows && q != pid && Active(rows[q]) && Active(row) && row.asset.Some? && row.asset == rows[q].asset
      ensures false {
      if !Active(rows[pid]) {
        assert AssetConflicts(rows, q, pid, rows[pid]);
      }
    }
  }

  lemma LawfulNoNewlyActive(env: Environment, db: Db, j: Judgement, c: Change)
    requires LawfulCommit(env, db, j, c) && c != Unchanged
    ensures NoNewlyActive(db.rows, c.pid, c.row)
  {
    hide PaidFor, HashTaken, AnySpent, SlotLaw, HasAssetConflict;
  }

  lemma {:induction false} WorkerNoNewlyActive(env: Environment, w: World, l: Label, c: Change)
    requires WorkersLaw(w) && IsWorkerWrite(l) && c != Unchanged
    requires c == if l.CommitVerdict? then CommitOf(env, w, l.worker, l.now).0 else RefusalOf(w, l.worker)
    ensures NoNewlyActive(w.db.rows, c.pid, c.row)
  {
    hide LawfulPromotion, LawfulCommit, Commit, HandleReuse, NoNewlyActive, WellJudged;
    var phase := w.workers[l.worker];
    assert PhaseLaw(w.db, phase);
    if l.CommitVerdict? {
      JudgedCommitIsLawful(env, w.db, phase.judgement, l.now);
    } else {
      RejectionIsLawful(env, w.db, phase.judgement, 0);
    }
    LawfulNoNewlyActive(env, w.db, phase.judgement, c);
  }

  lemma PutNoNewlyActive(env: Environment, w: World, l: Label)
    requires WorkersLaw(w) && StepFor(env, w, l).Put? && !IsWorkerWrite(l)
    ensures NoNewlyActive(w.db.rows, StepFor(env, w, l).pid, StepFor(env, w, l).row) <==> !UnhidesConflict(w, l)
  {
    hide HasAssetConflict, SlotConflict, NewHashTaken, HashTaken;
  }

  lemma {:induction false} WorkerWriteKeepsExclusive(env: Environment, w: World, l: Label)
    requires WorkersLaw(w) && IsWorkerWrite(l) && AssetExclusive(w.db.rows)
    ensures AssetExclusive(Exec(env, w, l).db.rows)
  {
    hide CommitOf, RefusalOf, WorkersLaw, NoNewlyActive, AssetExclusive, WorkersAfter;
    var c := if l.CommitVerdict? then CommitOf(env, w, l.worker, l.now).0 else RefusalOf(w, l.worker);
    assert StepFor(env, w, l) == StepOf(c);
    if c != Unchanged {
      WorkerNoNewlyActive(env, w, l, c);
      SavingKeepsExclusive(w.db.rows, c.pid, c.row);
      assert Exec(env, w, l).db.rows == w.db.rows[c.pid := c.row];
    } else {
      assert Exec(env, w, l).db.rows == w.db.rows;
    }
  }

  lemma UnhideBreaksExclusive(w: World, l: Label)
    requires UnhidesConflict(w, l)
    ensures !AssetExclusive(w.db.rows[l.pid := Rearmed(w.db.rows[l.pid], l.action, l.unhide)])
  {
    var row := Rearmed(w.db.rows[l.pid], l.action, l.unhide);
    var q :| q in w.db.rows && AssetConflicts(w.db.rows, q, l.pid, w.db.rows[l.pid]);
    var rows := w.db.rows[l.pid := row];
    assert Active(rows[q]) && Active(rows[l.pid]) && rows[q].asset == rows[l.pid].asset;
  }

  lemma PutKeepsExclusiveIff(env: Environment, w: World, l: Label)
    requires WorkersLaw(w) && AssetExclusive(w.db.rows) && StepFor(env, w, l).Put? && !IsWorkerWrite(l)
    ensures AssetExclusive(Exec(env, w, l).db.rows) <==> !UnhidesConflict(w, l)
  {
    hide WorkersLaw, NoNewlyActive, AssetExclusive, WorkersAfter, StageStep, StaleDiscussion, DueToStart,
         HasAssetConflict;
    PutNoNewlyActive(env, w, l);
    var s := StepFor(env, w, l);
    if UnhidesConflict(w, l) {
      UnhideBreaksExclusive(w, l);
    } else {
      SavingKeepsExclusive(w.db.rows, s.pid, s.row);
    }
  }

  lemma OtherStepsKeepExclusive(env: Environment, w: World, l: Label)
    requires AssetExclusive(w.db.rows) && !StepFor(env, w, l).Put? && !IsWorkerWrite(l)
    ensures AssetExclusive(Exec(env, w, l).db.rows) && !UnhidesConflict(w, l)
  {
    hide HasAssetConflict, SlotConflict, NewHashTaken, HashTaken, WorkersAfter, StaleDiscussion, DueToStart, HasHistory,
         CommitOf;
    var s := StepFor(env, w, l);
    if s.Insert? {
      assert FreshCreate(s.row) && s.pid !in w.db.rows;
    }
  }

  /** One visible active proposal per asset: every step keeps it, except an operator's unhide
      of a row whose asset another active proposal holds - and that one always breaks it. */
  lemma {:induction false} StepKeepsAssetExclusive(env: Environment, w: World, l: Label)
    requires WorkersLaw(w) && AssetExclusive(w.db.rows)
    ensures AssetExclusive(Exec(env, w, l).db.rows) <==> !UnhidesConflict(w, l)
  {
    hide StepFor, Exec, WorkersLaw, AssetExclusive;
    if IsWorkerWrite(l) {
      WorkerWriteKeepsExclusive(env, w, l);
    } else if StepFor(env, w, l).Put? {
      PutKeepsExclusiveIff(env, w, l);
    } else {
      OtherStepsKeepExclusive(env, w, l);
    }
  }

  ghost predicate NeverUnhidesConflict(env: Environment, start: World, labels: seq<Label>)
  {
    forall k :: 0 <= k < |labels| ==> !UnhidesConflict(Run(env, start, labels[..k]), labels[k])
  }

  /** Over any run without such an unhide, at most one visible proposal is queued or voting per asset. */
  lemma {:induction false} AssetsStayExclusive(env: Environment, start: World, labels: seq<Label>)
    requires Start(start) && AssetExclusive(start.db.rows) && NeverUnhidesConflict(env, start, labels)
    ensures AssetExclusive(Run(env, start, labels).db.rows)
  {
    hide Exec, AssetExclusive, UnhidesConflict, LedgerLaw, RecordLaw, VersionLaw, UniqueHashes, SlotLaw, PaidFor;
    if labels != [] {
      var init := labels[..|labels| - 1];
      forall k | 0 <= k < |init| ensures !UnhidesConflict(Run(env, start, init[..k]), init[k]) {
        assert init[..k] == labels[..k] && init[k] == labels[k];
      }
      AssetsStayExclusive(env, start, init);
      RunKeepsInvariant(env, start, init);
      StepKeepsAssetExclusive(env, Run(env, start, init), labels[|init|]);
    }
  }

  /** Two proposals queued for one asset, one of them hidden. */
  function HiddenTwin(): World
  {
    var visible :=
        Row("G", AddAsset, Some("C"), "title", Html("text"), 1, None, None, 0, None, None, false, false, NoAction,
                       Queued, Fine, Fine, None, None, None, None, None, None, None, None);
    World(Db(map[0 := visible, 1 := visible.(hidden := true)], [], map[], map[]), [], map[], {}, {})
  }

  /** The exception is real: from a lawful start, one un-hide leaves two visible proposals queued for one asset. */
  lemma UnhideBreaksRun(env: Environment, action: Action)
    ensures Start(HiddenTwin()) && AssetExclusive(HiddenTwin().db.rows)
    ensures UnhidesConflict(HiddenTwin(), Rearm(1, action, true))
    ensures !AssetExclusive(Run(env, HiddenTwin(), [Rearm(1, action, true)]).db.rows)
  {
    var w, l := HiddenTwin(), Rearm(1, action, true);
    RunThen(env, w, [], l);
    assert [] + [l] == [l];
    HiddenTwinStarts();
    assert AssetConflicts(w.db.rows, 0, 1, w.db.rows[1]);
    UnhideBreaksExclusive(w, l);
  }

  lemma HiddenTwinStarts()
    ensures Start(HiddenTwin()) && AssetExclusive(HiddenTwin().db.rows)
  {
    assert UpTo(0) == [];
  }
}
