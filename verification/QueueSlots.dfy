/** The queue-slot table: who occupies a week, and how a promoted row takes its own. */
module QueueSlots {
  import opened Domain
  import opened Calendar
  import opened Records

  predicate QueueStatus(s: ProposalStatus) { s == Queued || s == Voting }

  predicate UsesSlot(row: Row)
  {
    && !row.hidden && !row.draft && row.action == NoAction && QueueStatus(row.proposalStatus)
    && row.startAt.Some? && row.endAt.Some?
  }

  /** A slot row counts only while its proposal still uses exactly that window. */
  predicate Occupying(rows: map<ProposalId, Row>, slots: map<ProposalId, Slot>, q: ProposalId)
  {
    && q in slots && q in rows && UsesSlot(rows[q])
    && rows[q].startAt == Some(slots[q].start) && rows[q].endAt == Some(slots[q].end)
  }

  predicate Conflicts(rows: map<ProposalId, Row>, slots: map<ProposalId, Slot>, q: ProposalId, start: Instant,
          end: Instant)
  {
    Occupying(rows, slots, q) && slots[q].start < end && slots[q].end > start
  }

  /** find_queue_slot_conflict: some other proposal occupies an overlapping window. */
  predicate SlotConflict(rows: map<ProposalId, Row>, slots: map<ProposalId, Slot>, pid: ProposalId, start: Instant,
          end: Instant)
  {
    exists q :: q in slots && q != pid && Conflicts(rows, slots, q, start, end)
  }

  predicate StaleAt(rows: map<ProposalId, Row>, slots: map<ProposalId, Slot>, q: ProposalId, pid: ProposalId,
          start: Instant)
  {
    q in slots && q != pid && slots[q].start == start && !Occupying(rows, slots, q)
  }

  function WithoutStale(rows: map<ProposalId, Row>, slots: map<ProposalId, Slot>, pid: ProposalId,
                        start: Instant): map<ProposalId, Slot>
  {
    map q | q in slots && !StaleAt(rows, slots, q, pid, start) :: slots[q]
  }

  /** Evicting stale slots makes a start available exactly when nobody occupies it, and touches no slot that
      is another start's, is occupied, or belongs to the proposal it is done for. */
  lemma EvictionFreesStartIff(rows: map<ProposalId, Row>, slots: map<ProposalId, Slot>, pid: ProposalId, start: Instant)
    ensures var kept := WithoutStale(rows, slots, pid, start);
            && (StartTaken(kept, pid, start)
                <==> exists q :: q in slots && q != pid && slots[q].start == start && Occupying(rows, slots, q))
            && (forall q :: q in slots && (q == pid || slots[q].start != start || Occupying(rows, slots, q))
                            ==> q in kept && kept[q] == slots[q])
            && (forall q :: q in kept ==> q in slots && kept[q] == slots[q])
            && WithoutStale(rows, kept, pid, start) == kept
  {
    var kept := WithoutStale(rows, slots, pid, start);
    if q :| q in slots && q != pid && slots[q].start == start && Occupying(rows, slots, q) {
      assert q in kept;
    }
    forall q | q in kept ensures !StaleAt(rows, kept, q, pid, start) {
      assert !StaleAt(rows, slots, q, pid, start);
    }
  }

  predicate StartTaken(slots: map<ProposalId, Slot>, pid: ProposalId, start: Instant)
  {
    exists q :: q in slots && q != pid && slots[q].start == start
  }

  /** The slot table after syncing `pid`, or nothing when the unique start index refuses. */
  function Synced(rows: map<ProposalId, Row>, slots: map<ProposalId, Slot>, pid: ProposalId, row: Row,
          createMissing: bool): Option<map<ProposalId, Slot>>
  {
    if UsesSlot(row) then
      var kept := WithoutStale(rows, slots, pid, row.startAt.value);
      if pid !in kept && !createMissing then Some(kept)
      else if StartTaken(kept, pid, row.startAt.value) then None
      else Some(kept[pid := Slot(row.startAt.value, row.endAt.value)])
    else Some(slots - {pid})
  }

  ghost predicate ExactSlots(slots: map<ProposalId, Slot>)
  {
    forall q :: q in slots ==> IsExactWeek(slots[q].start, slots[q].end)
  }

  ghost predicate DistinctStarts(slots: map<ProposalId, Slot>)
  {
    forall p, q :: p in slots && q in slots && slots[p].start == slots[q].start ==> p == q
  }

  ghost predicate SlotLaw(slots: map<ProposalId, Slot>) { ExactSlots(slots) && DistinctStarts(slots) }

  /** Whole weeks with distinct starts: any instant lies in at most one slot, and the overlap
      query that guards booking degenerates to equality of starts. */
  lemma SlotsAreDisjoint(slots: map<ProposalId, Slot>, p: ProposalId, q: ProposalId, t: Instant)
    requires SlotLaw(slots) && p in slots && q in slots
    ensures Contains(slots[p].start, slots[p].end, t) && Contains(slots[q].start, slots[q].end, t) ==> p == q
    ensures slots[p].start < slots[q].end && slots[p].end > slots[q].start <==> p == q
  {
    ExactWeeksOverlapIffSameStart(slots[p].start, slots[p].end, slots[q].start, slots[q].end);
  }

  /** A sync touches its own slot and stale rows on the same start, nothing else. */
  lemma SyncSparesOthers(rows: map<ProposalId, Row>, slots: map<ProposalId, Slot>, pid: ProposalId, row: Row,
          createMissing: bool, q: ProposalId)
    requires Synced(rows, slots, pid, row, createMissing).Some?
    requires q != pid
    ensures var after := Synced(rows, slots, pid, row, createMissing).value;
            && (q in after ==> q in slots && after[q] == slots[q])
            && (q in slots && Occupying(rows, slots, q) ==> q in after)
            && (q in slots && q !in after ==> UsesSlot(row) && StaleAt(rows, slots, q, pid, row.startAt.value))
  {
  }

  /** Booking fails exactly when another proposal really occupies the same start. */
  lemma SyncFailsIff(rows: map<ProposalId, Row>, slots: map<ProposalId, Slot>, pid: ProposalId, row: Row)
    ensures Synced(rows, slots, pid, row, true).None?
            <==> UsesSlot(row) && exists q :: q in slots && q != pid && Occupying(rows, slots, q)
                                              && slots[q].start == row.startAt.value
  {
    if UsesSlot(row) {
      var kept := WithoutStale(rows, slots, pid, row.startAt.value);
      if q :| q in slots && q != pid && Occupying(rows, slots, q) && slots[q].start == row.startAt.value {
        assert q in kept;
      }
    }
  }

  /** On a lawful table, a window without an occupied conflict can always be booked, the booking
      leaves the slot equal to the row's window, and the table stays lawful. */
  lemma FreeWindowBooks(rows: map<ProposalId, Row>, slots: map<ProposalId, Slot>, pid: ProposalId, row: Row)
    requires SlotLaw(slots) && UsesSlot(row) && IsExactWeek(row.startAt.value, row.endAt.value)
    requires !SlotConflict(rows, slots, pid, row.startAt.value, row.endAt.value)
    ensures var after := Synced(rows, slots, pid, row, true);
            && after.Some? && SlotLaw(after.value)
            && pid in after.value && after.value[pid] == Slot(row.startAt.value, row.endAt.value)
  {
    SyncFailsIff(rows, slots, pid, row);
    assert forall q :: q in slots && q != pid && Occupying(rows, slots, q)
                       ==> !Conflicts(rows, slots, q, row.startAt.value, row.endAt.value);
  }

  lemma SyncKeepsLaw(rows: map<ProposalId, Row>, slots: map<ProposalId, Slot>, pid: ProposalId, row: Row,
          createMissing: bool)
    requires SlotLaw(slots)
    requires UsesSlot(row) ==> IsExactWeek(row.startAt.value, row.endAt.value)
    requires Synced(rows, slots, pid, row, createMissing).Some?
    ensures SlotLaw(Synced(rows, slots, pid, row, createMissing).value)
  {
  }
}
