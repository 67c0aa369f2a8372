/** Any number of payment workers, staging requests, operator commands and schedule ticks over
    one database.  A run is any sequence of labels; a label that is not enabled changes nothing. */
module Protocol {
  import opened Domain
  import opened Calendar
  import opened Hashes
  import opened Payments
  import opened Records
  import opened QueueSlots
  import opened Transitions
  import opened Promotion
  import opened Backfill

  type WorkerId = nat

  /** Where a worker stands between its database transactions, with its stale snapshot. */
  datatype Phase =
    | Loaded(pid: ProposalId, snapshot: Row)
    | Judged(judgement: Judgement)
    | Refused(judgement: Judgement)

  /** `due` and `ended` hold what a finish tick has read but not yet written. */
  datatype World = World(
    db: Db,
    log: seq<Entry>,
    workers: map<WorkerId, Phase>,
    due: set<ProposalId>,
    ended: set<ProposalId>)

  datatype Label =
    | StageCreate(pid: ProposalId, row: Row)
    | StageUpdate(pid: ProposalId, title: string, text: Html, hash: Hash, envelope: Option<string>,
                  advisory: PaymentStatus)
    | StageSubmit(pid: ProposalId, start: Instant, end: Instant, hash: Hash, envelope: Option<string>,
                  advisory: PaymentStatus, now: Instant)
    | Rearm(pid: ProposalId, action: Action, unhide: bool)
    | RunBackfill
    | Load(worker: WorkerId, pid: ProposalId)
    | Ask(worker: WorkerId, answer: Answer)
    | CommitVerdict(worker: WorkerId, now: Instant)
    | WriteRefusal(worker: WorkerId)
    | Abort(worker: WorkerId, retry: bool)
    | ReadDue(now: Instant)
    | MarkVoted(pid: ProposalId)
    | DropSlot(pid: ProposalId)
    | ExpireStale(pid: ProposalId, now: Instant)
    | StartDue(pid: ProposalId, now: Instant)

  /** One atomic database step. */
  datatype DbStep =
    | Keep
    | Put(pid: ProposalId, row: Row)
    | Insert(pid: ProposalId, row: Row)
    | Apply(promotion: Change)
    | Burn(claims: map<Hash, Claim>)
    | Free(pid: ProposalId)

  function ClaimOf(e: Entry): Claim { Claim(e.pid, e.purpose, e.payer) }

  function ApplyStep(db: Db, step: DbStep): Db
    requires step.Apply? ==> step.promotion.Promote?
  {
    match step
    case Keep => db
    case Put(pid, row) => db.(rows := db.rows[pid := row])
    case Insert(pid, row) => db.(rows := db.rows[pid := row])
    case Apply(c) =>
      Db(db.rows[c.pid := c.row], db.history + c.shelved, Burned(db.ledger, c.entry.resolved, ClaimOf(c.entry)),
         c.slots)
    case Burn(claims) => db.(ledger := db.ledger + claims)
    case Free(pid) => db.(slots := db.slots - {pid})
  }

  // ---- Staging, re-arming and the schedule ----

  predicate HasHistory(history: seq<HistoryRow>, pid: ProposalId)
  {
    exists i :: 0 <= i < |history| && history[i].pid == pid
  }

  /** A freshly staged creation, as the create serializers write it. */
  predicate FreshCreate(row: Row)
  {
    && row.version == 1 && row.draft && !row.hidden && row.action == ToCreate && row.proposalStatus == Discussion
    && row.startAt.None? && row.endAt.None? && row.rejectedHash.None? && row.notFoundSince.None?
    && row.newTitle.None? && row.newText.None? && row.newHash.None? && row.newEnvelope.None? && row.newStart.None?
       && row.newEnd.None?
    && row.hash.Some? && IsCanonicalHash(row.hash.value)
    && (IsAssetType(row.proposalType) ==> row.asset.Some?)
  }

  /** Rows the update and submit endpoints may stage on. */
  predicate OpenForStaging(row: Row) { row.proposalStatus == Discussion && !row.hidden && !row.draft }

  function Staged(row: Row, action: Action, hash: Hash, envelope: Option<string>, advisory: PaymentStatus): Row
  {
    row.(action := action, newHash := Some(hash), newEnvelope := envelope, paymentStatus := advisory,
         rejectedHash := None, notFoundSince := None)
  }

  function StageStep(env: Environment, db: Db, l: Label): DbStep
    requires l.StageCreate? || l.StageUpdate? || l.StageSubmit?
  {
    match l
    case StageCreate(pid, row) =>
      if pid in db.rows || HasHistory(db.history, pid) || !FreshCreate(row)
          || HashTaken(db.rows, pid, row.hash) then Keep
      else Insert(pid, row)
    case StageUpdate(pid, title, text, hash, envelope, advisory) =>
      if pid !in db.rows || !OpenForStaging(db.rows[pid]) || !IsCanonicalHash(hash)
          || NewHashTaken(db.rows, pid, Some(hash)) then Keep
      else Put(pid, Staged(db.rows[pid], ToUpdate, hash, envelope, advisory).(newTitle := Some(title),
                                                                              newText := Some(text)))
    case StageSubmit(pid, start, end, hash, envelope, advisory, now) =>
      if pid !in db.rows || !OpenForStaging(db.rows[pid]) || !IsCanonicalHash(hash)
          || NewHashTaken(db.rows, pid, Some(hash)) then Keep
      else if ValidateWeeklySlot(Aware(start), Aware(end), now, env.horizonWeeks, false) != Valid
              || HasAssetConflict(db.rows, pid, db.rows[pid])
                 || SlotConflict(db.rows, db.slots, pid, start, end) then Keep
      else Put(pid, Staged(db.rows[pid], ToSubmit, hash, envelope, advisory).(newStart := Some(start),
                                                                              newEnd := Some(end)))
  }

  function Rearmed(row: Row, action: Action, unhide: bool): Row
  {
    row.(action := action, paymentStatus := Fine, rejectedHash := None, notFoundSince := None,
         hidden := row.hidden && !unhide)
  }

  predicate DueToFinish(row: Row, now: Instant)
  {
    !row.hidden && !row.draft && row.proposalStatus == Voting && row.endAt.Some? && row.endAt.value <= now
  }

  predicate StaleDiscussion(env: Environment, db: Db, pid: ProposalId, now: Instant)
  {
    && pid in db.rows && pid !in db.slots
    && !db.rows[pid].hidden && !db.rows[pid].draft && db.rows[pid].action == NoAction
    && db.rows[pid].proposalStatus == Discussion && db.rows[pid].lastUpdated <= now - env.expiredAfter
  }

  predicate DueToStart(db: Db, pid: ProposalId, now: Instant)
  {
    && Occupying(db.rows, db.slots, pid) && db.rows[pid].proposalStatus == Queued
    && db.rows[pid].startAt.value <= now < db.rows[pid].endAt.value
    && forall q :: q in db.rows && q != pid
                   ==> !(!db.rows[q].hidden && !db.rows[q].draft && db.rows[q].proposalStatus == Voting)
  }

  function StepOf(c: Change): DbStep
  {
    match c
    case Unchanged => Keep
    case Rewrite(pid, row) => Put(pid, row)
    case Promote(_, _, _, _, _) => Apply(c)
  }

  function CommitOf(env: Environment, w: World, worker: WorkerId, now: Instant): (Change, Outcome)
  {
    if worker in w.workers && w.workers[worker].Judged? && w.workers[worker].judgement.pid in w.db.rows
    then Commit(env, w.db, w.workers[worker].judgement, now) else (Unchanged, NothingToDo)
  }

  function RefusalOf(w: World, worker: WorkerId): Change
  {
    if worker in w.workers && w.workers[worker].Refused?
    then HandleReuse(w.db, w.workers[worker].judgement.pid, w.workers[worker].judgement.transition).0 else Unchanged
  }

  function StepFor(env: Environment, w: World, l: Label): (s: DbStep)
    ensures s.Apply? ==> s.promotion.Promote?
  {
    match l
    case StageCreate(_, _) => StageStep(env, w.db, l)
    case StageUpdate(_, _, _, _, _, _) => StageStep(env, w.db, l)
    case StageSubmit(_, _, _, _, _, _, _) => StageStep(env, w.db, l)
    case Rearm(pid, action, unhide) => if pid in w.db.rows then Put(pid, Rearmed(w.db.rows[pid], action, unhide))
      else Keep
    case RunBackfill => Burn(NewClaims(w.db))
    case Load(_, _) => Keep
    case Ask(_, _) => Keep
    case CommitVerdict(worker, now) => StepOf(CommitOf(env, w, worker, now).0)
    case WriteRefusal(worker) => StepOf(RefusalOf(w, worker))
    case Abort(_, _) => Keep
    case ReadDue(_) => Keep
    case MarkVoted(pid) => if pid in w.due
      && pid in w.db.rows then Put(pid, w.db.rows[pid].(proposalStatus := Voted)) else Keep
    case DropSlot(pid) => if pid in w.ended then Free(pid) else Keep
    case ExpireStale(pid, now) => if StaleDiscussion(env, w.db, pid, now)
      then Put(pid, w.db.rows[pid].(proposalStatus := Expired)) else Keep
    case StartDue(pid, now) => if DueToStart(w.db, pid, now) then Put(pid, w.db.rows[pid].(proposalStatus := Voting))
      else Keep
  }

  // ---- Workers ----

  function WorkersAfter(env: Environment, w: World, l: Label): map<WorkerId, Phase>
  {
    match l
    case Load(worker, pid) =>
      if worker !in w.workers && pid in w.db.rows && w.db.rows[pid].action != NoAction
      then w.workers[worker := Loaded(pid, w.db.rows[pid])] else w.workers
    case Ask(worker, answer) =>
      if worker in w.workers && w.workers[worker].Loaded? && w.workers[worker].snapshot.action != NoAction then
        var p := w.workers[worker];
        w.workers[worker := Judged(Judgement(p.pid, p.snapshot, Resolve(p.pid, p.snapshot), answer))]
      else w.workers
    case CommitVerdict(worker, now) =>
      if worker in w.workers && w.workers[worker].Judged? then
        if CommitOf(env, w, worker, now).1
            == ReusePending then w.workers[worker := Refused(w.workers[worker].judgement)]
        else w.workers - {worker}
      else w.workers
    case WriteRefusal(worker) =>
      if worker in w.workers && w.workers[worker].Refused? then w.workers - {worker} else w.workers
    case Abort(worker, retry) =>
      if worker in w.workers && retry && w.workers[worker].Judged?
      then w.workers[worker := Loaded(w.workers[worker].judgement.pid, w.workers[worker].judgement.snapshot)]
      else w.workers - {worker}
    case _ => w.workers
  }

  function Exec(env: Environment, w: World, l: Label): World
  {
    var step := StepFor(env, w, l);
    World(
      ApplyStep(w.db, step),
      if step.Apply? then w.log + [step.promotion.entry] else w.log,
      WorkersAfter(env, w, l),
      match l
      case ReadDue(now) => w.due + set q | q in w.db.rows && DueToFinish(w.db.rows[q], now)
      case MarkVoted(pid) => w.due - {pid}
      case _ => w.due,
      match l
      case MarkVoted(pid) => if pid in w.due then w.ended + {pid} else w.ended
      case DropSlot(pid) => w.ended - {pid}
      case _ => w.ended)
  }

  /** The world after a run, last label last. */
  function Run(env: Environment, w: World, labels: seq<Label>): World
  {
    if labels == [] then w else Exec(env, Run(env, w, labels[..|labels| - 1]), labels[|labels| - 1])
  }
}
