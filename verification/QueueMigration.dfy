/** The migration that gives every paid asset proposal with a window its queue slot. */
module QueueMigration {
  import opened Domain
  import opened Calendar
  import opened Records
  import opened QueueSlots

  /** A row the migration's query returns: a paid, visible asset proposal with a window not yet over. */
  datatype Candidate = Candidate(id: ProposalId, status: ProposalStatus, start: Instant, end: Instant)

  datatype Fault = EmptyRange | NotAWeek | AlreadyStarted | NotActive | Overlaps(previous: ProposalId)

  datatype Result<+T> = Accepted(value: T) | Rejected(id: ProposalId, fault: Fault)

  predicate IsLegacyWeek(start: Instant, end: Instant) { Weekday(start) == 0 && end == start + WEEK }

  /** The whole week a candidate stands for, and nothing if its window is neither exact nor legacy. */
  function Window(c: Candidate): Option<Slot>
  {
    if IsExactWeek(c.start, c.end) then Some(Slot(c.start, c.end))
    else if IsLegacyWeek(c.start, c.end) then Some(Slot(Midnight(c.start), Midnight(c.start) + WEEK - SECOND))
    else None
  }

  function Validated(c: Candidate, now: Instant): Result<Slot>
  {
    if c.end <= c.start then Rejected(c.id, EmptyRange)
    else if Window(c).None? then Rejected(c.id, NotAWeek)
    else
      var w := Window(c).value;
      if c.status == Discussion && w.start <= now then Rejected(c.id, AlreadyStarted)
      else if c.status == Voting && !Contains(w.start, w.end, now) then Rejected(c.id, NotActive)
      else Accepted(w)
  }

  /** The order the query asks for. */
  ghost predicate Ordered(cs: seq<Candidate>)
  {
    && (forall i, j :: 0 <= i < j < |cs| ==> cs[i].start <= cs[j].start)
    && (forall i, j :: 0 <= i < j < |cs| ==> cs[i].id != cs[j].id)
  }

  ghost predicate AllValid(cs: seq<Candidate>, now: Instant)
  {
    forall i :: 0 <= i < |cs| ==> Validated(cs[i], now).Accepted?
  }

  ghost predicate PairwiseApart(cs: seq<Candidate>, now: Instant)
  {
    forall i, j :: 0 <= i < j < |cs| && Validated(cs[i], now).Accepted? && Validated(cs[j], now).Accepted?
                   ==> Validated(cs[i], now).value.start != Validated(cs[j], now).value.start
  }

  // ---- Normalisation ----

  lemma WindowIsFlooredWeek(c: Candidate)
    requires Window(c).Some?
    ensures var w := Window(c).value; w.start == WeekStart(c.start) && IsExactWeek(w.start, w.end)
  {
    WeekStartIsFloor(c.start);
  }

  /** Flooring to the week keeps the order of starts, so equal windows are neighbours. */
  lemma WindowsAreMonotone(a: Candidate, b: Candidate)
    requires Window(a).Some? && Window(b).Some? && a.start <= b.start
    ensures Window(a).value.start <= Window(b).value.start
    ensures Window(b).value.start <= Window(a).value.end <==> Window(a).value.start == Window(b).value.start
  {
    WindowIsFlooredWeek(a);
    WindowIsFlooredWeek(b);
    WeekStartIsFloor(a.start);
    WeekStartIsFloor(b.start);
    var m, n := a.start / WEEK, b.start / WEEK;
    assert WeekStart(a.start) == WEEK * m && WeekStart(b.start) == WEEK * n;
    assert m <= n;
    assert m < n ==> WEEK * m + WEEK <= WEEK * n;
  }

  // ---- The migration ----

  method BackfillProposalQueueSlots(candidates: seq<Candidate>, now: Instant) returns (result: Result<seq<Slot>>)
    requires Ordered(candidates)
    ensures result.Accepted? <==> AllValid(candidates, now) && PairwiseApart(candidates, now)
    ensures result.Accepted? ==> |result.value| == |candidates| && forall i :: 0 <= i < |candidates|
                                                                               ==> Validated(candidates[i], now)
                                                                                   == Accepted(result.value[i])
  {
    hide Window;
    var validated: seq<Slot> := [];
    var previous: Option<(ProposalId, Slot)> := None;
    for i := 0 to |candidates|
      invariant |validated| == i
      invariant forall k :: 0 <= k < i ==> Validated(candidates[k], now) == Accepted(validated[k])
      invariant PairwiseApart(candidates[..i], now)
      invariant previous == if i == 0 then None else Some((candidates[i - 1].id, validated[i - 1]))
    {
      var window := Validated(candidates[i], now);
      if window.Rejected? {
        return Rejected(window.id, window.fault);
      }
      NeighbourDecides(candidates, now, validated, i);
      if previous.Some? && window.value.start <= previous.value.1.end {
        return Rejected(candidates[i].id, Overlaps(previous.value.0));
      }
      validated := validated + [window.value];
      previous := Some((candidates[i].id, window.value));
    }
    assert candidates[..|candidates|] == candidates;
    return Accepted(validated);
  }

  /** Comparing with the row before is comparing with every earlier row. */
  lemma {:induction false} NeighbourDecides(cs: seq<Candidate>, now: Instant, validated: seq<Slot>, i: nat)
    requires Ordered(cs) && i < |cs| && |validated| == i && Validated(cs[i], now).Accepted?
    requires forall k :: 0 <= k < i ==> Validated(cs[k], now) == Accepted(validated[k])
    requires PairwiseApart(cs[..i], now)
    ensures i > 0 && Validated(cs[i], now).value.start <= validated[i - 1].end ==> !PairwiseApart(cs, now)
    ensures (i > 0 ==> Validated(cs[i], now).value.start > validated[i - 1].end) ==> PairwiseApart(cs[..i + 1], now)
  {
    hide Window;
    var w := Validated(cs[i], now).value;
    forall k | 0 <= k < i
      ensures validated[k].start <= validated[i - 1].start <= w.start
      && (w.start <= validated[k].end <==> validated[k].start == w.start) {
      ValidatedWindow(cs[k], now);
      ValidatedWindow(cs[i - 1], now);
      ValidatedWindow(cs[i], now);
      WindowsAreMonotone(cs[k], cs[i]);
      WindowsAreMonotone(cs[i - 1], cs[i]);
      if k < i - 1 {
        WindowsAreMonotone(cs[k], cs[i - 1]);
      }
    }
    if i > 0 && w.start <= validated[i - 1].end {
      assert Validated(cs[i - 1], now).value.start == Validated(cs[i], now).value.start;
    }
    if i > 0 && w.start > validated[i - 1].end {
      assert validated[i - 1].start != w.start;
      forall k | 0 <= k < i ensures validated[k].start != w.start {
      }
    }
  }

  lemma ValidatedWindow(c: Candidate, now: Instant)
    requires Validated(c, now).Accepted?
    ensures Window(c) == Some(Validated(c, now).value)
  {
  }

  // ---- The state it leaves ----

  function SlotTable(cs: seq<Candidate>, slots: seq<Slot>): map<ProposalId, Slot>
    requires |cs| == |slots|
  {
    if cs == [] then map[] else SlotTable(cs[..|cs| - 1], slots[..|cs| - 1])[cs[|cs| - 1].id := slots[|cs| - 1]]
  }

  function MigratedRow(row: Row, slot: Slot): Row
  {
    row.(startAt := Some(slot.start), endAt := Some(slot.end),
         proposalStatus := if row.proposalStatus == Discussion then Queued else row.proposalStatus)
  }

  lemma {:induction false} SlotTableExact(cs: seq<Candidate>, slots: seq<Slot>)
    requires |cs| == |slots| && forall i, j :: 0 <= i < j < |cs| ==> cs[i].id != cs[j].id
    ensures forall i :: 0 <= i < |cs| ==> cs[i].id in SlotTable(cs, slots) && SlotTable(cs, slots)[cs[i].id] == slots[i]
    ensures forall q :: q in SlotTable(cs, slots) ==> exists i :: 0 <= i < |cs| && cs[i].id == q
  {
    if cs != [] {
      var n := |cs| - 1;
      SlotTableExact(cs[..n], slots[..n]);
      forall q | q in SlotTable(cs, slots) ensures exists i :: 0 <= i < |cs| && cs[i].id == q {
        if q == cs[n].id {
        } else {
          var i :| 0 <= i < n && cs[..n][i].id == q;
          assert cs[i].id == q;
        }
      }
      forall i | 0 <= i < |cs| ensures cs[i].id in SlotTable(cs, slots) && SlotTable(cs, slots)[cs[i].id] == slots[i] {
        if i < n {
          assert cs[..n][i] == cs[i] && slots[..n][i] == slots[i];
        }
      }
    }
  }

  /** An accepted migration establishes the slot law: whole weeks, pairwise disjoint, each slot
      equal to its row's new window. */
  lemma {:induction false} MigrationEstablishesLaw(cs: seq<Candidate>, slots: seq<Slot>, now: Instant)
    requires Ordered(cs) && AllValid(cs, now) && PairwiseApart(cs, now)
    requires |slots| == |cs| && forall i :: 0 <= i < |cs| ==> Validated(cs[i], now) == Accepted(slots[i])
    ensures SlotLaw(SlotTable(cs, slots))
    ensures forall i :: 0 <= i < |cs| ==> cs[i].id in SlotTable(cs, slots) && SlotTable(cs, slots)[cs[i].id] == slots[i]
  {
    hide Window, SlotTable;
    SlotTableExact(cs, slots);
    var table := SlotTable(cs, slots);
    forall p, q | p in table && q in table
      ensures IsExactWeek(table[p].start, table[p].end) && (table[p].start == table[q].start ==> p == q) {
      var i :| 0 <= i < |cs| && cs[i].id == p;
      var j :| 0 <= j < |cs| && cs[j].id == q;
      ValidatedWindow(cs[i], now);
      WindowIsFlooredWeek(cs[i]);
      assert slots[i] == Validated(cs[i], now).value && slots[j] == Validated(cs[j], now).value;
    }
  }

  /** Exactly which candidates pass, and as which week: a Monday start, a week's length or a second less from
      midnight, a discussion still ahead of its week, a vote inside it. */
  lemma {:induction false} ValidatedExactly(c: Candidate, now: Instant)
    ensures var week := Slot(WeekStart(c.start), WeekStart(c.start) + WEEK - SECOND);
            && (Validated(c, now).Accepted?
                <==> && Weekday(c.start) == 0
                     && (c.end == c.start + WEEK || (c.start % DAY == 0 && c.end == c.start + WEEK - SECOND))
                     && (c.status == Discussion ==> now < week.start)
                     && (c.status == Voting ==> week.start <= now <= week.end))
            && (Validated(c, now).Accepted? ==> Validated(c, now).value == week)
            && (Validated(c, now).Rejected?
                ==> Validated(c, now).id == c.id && (Validated(c, now).fault == EmptyRange <==> c.end <= c.start))
  {
  }

  /** A migrated proposal stands where the clock says: queued while its week is ahead, voting inside it; only
      its window and its state change. */
  lemma {:induction false} MigratedRowFitsClock(c: Candidate, now: Instant, row: Row)
    requires Validated(c, now).Accepted? && c.status in {Discussion, Voting} && row.proposalStatus == c.status
    ensures var slot := Validated(c, now).value; var after := MigratedRow(row, slot);
            && after.startAt == Some(slot.start) && after.endAt == Some(slot.end)
            && after == row.(startAt := after.startAt, endAt := after.endAt, proposalStatus := after.proposalStatus)
            && after.proposalStatus in {Queued, Voting}
            && (after.proposalStatus == Queued <==> now < slot.start)
            && (after.proposalStatus == Voting <==> slot.start <= now <= slot.end)
  {
    ValidatedExactly(c, now);
  }

  /** A migrated row whose action is settled occupies its slot. */
  lemma MigratedRowsOccupy(rows: map<ProposalId, Row>, slots: map<ProposalId, Slot>, q: ProposalId, row: Row)
    requires q in rows && q in slots && rows[q] == MigratedRow(row, slots[q])
    ensures Occupying(rows, slots, q)
            <==> !row.hidden && !row.draft && row.action == NoAction
                 && row.proposalStatus in {Discussion, Queued, Voting}
  {
  }
}
