/** A committed snapshot refines the chain: the live rows are the on-time listed balances. */
module VoteCommit {
  import opened Domain
  import opened VoteRecords
  import opened VoteMatching
  import opened VoteReconcile
  import opened VoteSnapshot
  import opened VoteRefinement
  import opened VoteTable

  /** Visible, unclaimed and originally created by the end of the voting. */
  predicate Live(r: Stored, endAt: Instant) { !r.vote.hidden && !r.vote.claimed && OnTimeDate(r.vote.createdAt, endAt) }

  /** The row shows the listed balance in every column a tally reads. */
  ghost predicate Shows(r: Stored, l: Listed, freezing: bool)
  {
    && r.vote.balanceId == Some(l.1.id) && r.vote.amount == Some(l.1.amount) && r.vote.link == l.1.link
    && r.vote.key == KeyOf(l.0, l.1) && r.vote.choice == l.0 && r.vote.assetCode == l.1.asset.0
    && (freezing ==> r.vote.votedAmount == Some(l.1.amount))
  }

  /** Live rows and counted balances stand for each other. */
  ghost predicate InStep(rows: seq<Stored>, counted: seq<Listed>, endAt: Instant, freezing: bool)
  {
    && (forall r :: r in rows && Live(r, endAt) ==> exists l :: l in counted && Shows(r, l, freezing))
    && (forall l :: l in counted ==> exists r :: r in rows && Live(r, endAt) && Shows(r, l, freezing))
  }

  /** Columns a snapshot never rewrites. */
  ghost predicate KeepsOrigin(a: Stored, b: Stored)
  {
    && a.id == b.id && a.vote.key == b.vote.key && a.vote.choice == b.vote.choice
       && a.vote.assetCode == b.vote.assetCode
    && a.vote.createdAt == b.vote.createdAt && a.vote.originalAmount == b.vote.originalAmount
       && a.vote.owner == b.vote.owner
    && a.vote.hidden == b.vote.hidden && (a.vote.hidden ==> a == b)
  }

  /** What the writes of a plan rest on. */
  ghost predicate Lawful(rows: seq<Stored>, nextId: VoteId, plan: Plan, covered: seq<Listed>, keys: set<VoteKey>,
          endAt: Instant, freezing: bool)
  {
    && DistinctRows(rows) && UniqueBalances(rows) && (forall r :: r in rows ==> r.id < nextId)
    && WriteLaw(Visible(rows), plan.updates, plan.created, plan.processed, covered, keys, endAt, freezing)
  }

  // ---- One row at a time ----

  lemma UpdateOfVisible(rows: seq<Stored>, nextId: VoteId, plan: Plan, covered: seq<Listed>, keys: set<VoteKey>,
          endAt: Instant, freezing: bool, u: Stored)
    requires Lawful(rows, nextId, plan, covered, keys, endAt, freezing) && u in plan.updates
    ensures u.id < nextId
    ensures forall r :: r in rows && r.id == u.id
                        ==> !r.vote.hidden && OnTimeDate(r.vote.createdAt, endAt) && u.vote.key == r.vote.key
    ensures exists l :: l in covered && WrittenFor(u.vote, l, freezing)
  {
    assert FromOnTimeRow(Visible(rows), u, keys, endAt);
    var row :| row in Visible(rows) && row.id == u.id && OnTimeDate(row.vote.createdAt, endAt)
        && u.vote.key == row.vote.key;
    forall r | r in rows && r.id == u.id ensures r == row {
      SameIdSameRow(rows, r, row);
    }
    assert WrittenForSome(u.vote, covered, freezing);
  }

  function OldRowAfter(r: Stored, plan: Plan, freezing: bool): Stored
  {
    RewrittenRow(SweptRow(r, plan.processed), plan.updates, freezing)
  }

  /** The committed table is the old rows, each rewritten, followed by the new rows as created. */
  lemma {:induction false} CommittedRows(rows: seq<Stored>, nextId: VoteId, plan: Plan, covered: seq<Listed>,
          keys: set<VoteKey>, endAt: Instant, freezing: bool)
    requires Lawful(rows, nextId, plan, covered, keys, endAt, freezing)
    ensures var after := Committed(rows, nextId, plan, freezing);
            && |after| == |rows| + |plan.created|
            && (forall k :: 0 <= k < |rows| ==> after[k] == OldRowAfter(rows[k], plan, freezing))
            && (forall i :: 0 <= i < |plan.created| ==> after[|rows| + i] == Stored(nextId + i, plan.created[i]))
  {
    hide Lawful, SweptRow;
    var after := Committed(rows, nextId, plan, freezing);
    forall i | 0 <= i < |plan.created| ensures after[|rows| + i] == Stored(nextId + i, plan.created[i]) {
      var u := UpdateFor(plan.updates, nextId + i);
      if u.Some? {
        var j :| 0 <= j < |plan.updates| && plan.updates[j].id == nextId + i;
        UpdateOfVisible(rows, nextId, plan, covered, keys, endAt, freezing, plan.updates[j]);
      }
    }
  }

  /** What becomes of an old row: it takes over a covered balance, or stays out of the live set. */
  lemma OldRowOutcome(rows: seq<Stored>, nextId: VoteId, plan: Plan, covered: seq<Listed>, keys: set<VoteKey>,
          endAt: Instant, freezing: bool, r: Stored, keyOf: BalanceId -> VoteKey)
    requires Lawful(rows, nextId, plan, covered, keys, endAt, freezing) && Keyed(rows, keyOf) && r in rows
    ensures var after := OldRowAfter(r, plan, freezing);
            && KeepsOrigin(r, after)
            && (if HasUpdate(plan.updates, r.id)
                then Live(after, endAt) && exists l :: l in covered && Shows(after, l, freezing)
                else !Live(after, endAt) && after.vote.balanceId == r.vote.balanceId)
  {
    hide KeyOf, OnTimeDate, UpdateFor;
    var u := UpdateFor(plan.updates, r.id);
    if u.Some? {
      UpdatedRowOutcome(rows, nextId, plan, covered, keys, endAt, freezing, r, keyOf);
    } else {
      assert !r.vote.hidden ==> r in Visible(rows);
    }
  }

  lemma {:induction false} UpdatedRowOutcome(rows: seq<Stored>, nextId: VoteId, plan: Plan, covered: seq<Listed>,
          keys: set<VoteKey>, endAt: Instant, freezing: bool, r: Stored, keyOf: BalanceId -> VoteKey)
    requires Lawful(rows, nextId, plan, covered, keys, endAt, freezing) && Keyed(rows, keyOf) && r in rows
             && UpdateFor(plan.updates, r.id).Some?
    ensures var after := OldRowAfter(r, plan, freezing);
            KeepsOrigin(r, after) && Live(after, endAt) && exists l :: l in covered && Shows(after, l, freezing)
  {
    hide KeyOf, OnTimeDate, Lawful;
    var u := UpdateFor(plan.updates, r.id);
    var i :| 0 <= i < |plan.updates| && plan.updates[i].id == r.id && plan.updates[i].vote == u.value;
    UpdateOfVisible(rows, nextId, plan, covered, keys, endAt, freezing, plan.updates[i]);
    var l :| l in covered && WrittenFor(u.value, l, freezing);
    KeyShowsChoice(l);
    assert Shows(OldRowAfter(r, plan, freezing), l, freezing);
  }

  lemma KeyShowsChoice(l: Listed)
    ensures KeyOf(l.0, l.1).choice == l.0 && KeyOf(l.0, l.1).code == l.1.asset.0
  {
  }

  ghost predicate NewRowsWellFormed(created: seq<Vote>)
  {
    forall v :: v in created ==> v.choice == v.key.choice && v.assetCode == v.key.code
  }

  // ---- The theorem ----

  /** After a commit the live rows and the covered balances stand for each other. */
  lemma {:induction false} CommitIsInStep(rows: seq<Stored>, nextId: VoteId, plan: Plan, covered: seq<Listed>,
          keys: set<VoteKey>, endAt: Instant, freezing: bool, keyOf: BalanceId -> VoteKey)
    requires Lawful(rows, nextId, plan, covered, keys, endAt, freezing) && Keyed(rows, keyOf)
             && NewRowsWellFormed(plan.created) && OneEach(covered)
    ensures InStep(Committed(rows, nextId, plan, freezing), covered, endAt, freezing)
  {
    hide Lawful, KeyOf, OnTimeDate, Committed, Keyed, OldRowAfter, Live, HasUpdate;
    var after := Committed(rows, nextId, plan, freezing);
    CommittedRows(rows, nextId, plan, covered, keys, endAt, freezing);
    forall r | r in after && Live(r, endAt) ensures exists l :: l in covered && Shows(r, l, freezing) {
      var k :| 0 <= k < |after| && after[k] == r;
      if k < |rows| {
        assert rows[k] in rows;
        OldRowOutcome(rows, nextId, plan, covered, keys, endAt, freezing, rows[k], keyOf);
      } else {
        assert r == Stored(nextId + (k - |rows|), plan.created[k - |rows|]);
        NewRowOutcome(rows, nextId, plan, covered, keys, endAt, freezing, k - |rows|);
      }
    }
    forall l | l in covered ensures exists r :: r in after && Live(r, endAt) && Shows(r, l, freezing) {
      CoveredIsPlaced(rows, nextId, plan, covered, keys, endAt, freezing, keyOf, l);
    }
  }

  lemma NewRowOutcome(rows: seq<Stored>, nextId: VoteId, plan: Plan, covered: seq<Listed>, keys: set<VoteKey>,
          endAt: Instant, freezing: bool, i: nat)
    requires Lawful(rows, nextId, plan, covered, keys, endAt, freezing) && NewRowsWellFormed(plan.created)
             && i < |plan.created|
    ensures var r := Stored(nextId + i, plan.created[i]);
            Live(r, endAt) && exists l :: l in covered && Shows(r, l, freezing)
  {
    hide KeyOf, OnTimeDate;
    var v := plan.created[i];
    assert v in plan.created && WrittenForSome(v, covered, freezing);
    var l :| l in covered && WrittenFor(v, l, freezing);
    KeyShowsChoice(l);
    assert Shows(Stored(nextId + i, v), l, freezing);
  }

  /** Each balance is listed once. */
  ghost predicate OneEach(covered: seq<Listed>)
  {
    forall a, b :: a in covered && b in covered && a.1.id == b.1.id ==> a == b
  }

  lemma UpdateForItsRow(updates: seq<Stored>, i: nat)
    requires DistinctRows(updates) && i < |updates|
    ensures UpdateFor(updates, updates[i].id) == Some(updates[i].vote)
  {
  }

  lemma CoveredIsPlaced(rows: seq<Stored>, nextId: VoteId, plan: Plan, covered: seq<Listed>, keys: set<VoteKey>,
          endAt: Instant, freezing: bool, keyOf: BalanceId -> VoteKey, l: Listed)
    requires Lawful(rows, nextId, plan, covered, keys, endAt, freezing) && Keyed(rows, keyOf)
             && NewRowsWellFormed(plan.created)
    requires l in covered && OneEach(covered)
    ensures exists r :: r in Committed(rows, nextId, plan, freezing) && Live(r, endAt) && Shows(r, l, freezing)
  {
    hide Lawful, Committed, Keyed, Live, OldRowAfter;
    var after := Committed(rows, nextId, plan, freezing);
    CommittedRows(rows, nextId, plan, covered, keys, endAt, freezing);
    LawfulPlaces(rows, nextId, plan, covered, keys, endAt, freezing, l);
    if i :| 0 <= i < |plan.updates| && plan.updates[i].vote.balanceId == Some(l.1.id) {
      var k := UpdateLands(rows, nextId, plan, covered, keys, endAt, freezing, keyOf, i);
      assert after[k] in after;
    } else {
      var i :| 0 <= i < |plan.created| && plan.created[i].balanceId == Some(l.1.id);
      NewRowOutcome(rows, nextId, plan, covered, keys, endAt, freezing, i);
      assert after[|rows| + i] in after;
    }
  }

  lemma LawfulPlaces(rows: seq<Stored>, nextId: VoteId, plan: Plan, covered: seq<Listed>, keys: set<VoteKey>,
          endAt: Instant, freezing: bool, l: Listed)
    requires Lawful(rows, nextId, plan, covered, keys, endAt, freezing) && l in covered
    ensures Places(plan.updates, plan.created, l.1.id)
  {
  }

  /** Every update finds its row, which then shows the balance it was given. */
  lemma {:induction false} UpdateLands(rows: seq<Stored>, nextId: VoteId, plan: Plan, covered: seq<Listed>,
          keys: set<VoteKey>, endAt: Instant, freezing: bool, keyOf: BalanceId -> VoteKey, i: nat)
      returns (k: nat)
    requires Lawful(rows, nextId, plan, covered, keys, endAt, freezing) && Keyed(rows, keyOf) && i < |plan.updates|
    ensures k < |rows| && Live(OldRowAfter(rows[k], plan, freezing), endAt)
    ensures exists l :: l in covered && Shows(OldRowAfter(rows[k], plan, freezing), l, freezing)
                        && plan.updates[i].vote.balanceId == Some(l.1.id)
  {
    hide KeyOf, OnTimeDate, Live, Keyed;
    var u := plan.updates[i];
    assert u in plan.updates && FromOnTimeRow(Visible(rows), u, keys, endAt);
    var row :| row in Visible(rows) && row.id == u.id;
    k :| 0 <= k < |rows| && rows[k] == row;
    UpdateForItsRow(plan.updates, i);
    OldRowOutcome(rows, nextId, plan, covered, keys, endAt, freezing, row, keyOf);
  }

  // ---- The table's own invariants ----

  /** The balance a row ends up with is its old one, or one no other visible row ever held. */
  lemma {:induction false} OldRowsStayApart(rows: seq<Stored>, nextId: VoteId, plan: Plan, covered: seq<Listed>,
          keys: set<VoteKey>, endAt: Instant, freezing: bool, a: Stored, b: Stored)
    requires Lawful(rows, nextId, plan, covered, keys, endAt, freezing) && a in rows && b in rows && a.id != b.id
    ensures var x, y := OldRowAfter(a, plan, freezing).vote, OldRowAfter(b, plan, freezing).vote;
            x.hidden == y.hidden && x.balanceId.Some? ==> x.balanceId != y.balanceId
  {
    hide KeyOf, OnTimeDate, Lawful;
    RowBalance(rows, nextId, plan, covered, keys, endAt, freezing, a);
    RowBalance(rows, nextId, plan, covered, keys, endAt, freezing, b);
    assert a.vote.hidden == b.vote.hidden && a.vote.balanceId.Some? ==> a.vote.balanceId != b.vote.balanceId by {
      assert Lawful(rows, nextId, plan, covered, keys, endAt, freezing);
      BalancesDiffer(rows, nextId, plan, covered, keys, endAt, freezing, a, b);
    }
    if HasUpdate(plan.updates, a.id) && HasUpdate(plan.updates, b.id) {
      UpdatesDiffer(rows, nextId, plan, covered, keys, endAt, freezing, a.id, b.id);
    }
  }

  lemma BalancesDiffer(rows: seq<Stored>, nextId: VoteId, plan: Plan, covered: seq<Listed>, keys: set<VoteKey>,
          endAt: Instant, freezing: bool, a: Stored, b: Stored)
    requires Lawful(rows, nextId, plan, covered, keys, endAt, freezing) && a in rows && b in rows && a.id != b.id
    ensures a.vote.hidden == b.vote.hidden && a.vote.balanceId.Some? ==> a.vote.balanceId != b.vote.balanceId
  {
    hide WriteLaw;
  }

  lemma UpdatesDiffer(rows: seq<Stored>, nextId: VoteId, plan: Plan, covered: seq<Listed>, keys: set<VoteKey>,
          endAt: Instant, freezing: bool, a: VoteId, b: VoteId)
    requires Lawful(rows, nextId, plan, covered, keys, endAt, freezing) && a != b
    ensures var x, y := UpdateFor(plan.updates, a), UpdateFor(plan.updates, b);
            x.Some? && y.Some? ==> x.value.balanceId != y.value.balanceId
  {
    hide UpdateFor, UniqueBalances;
  }

  /** An updated row takes a listed balance that no other row holds; any other row keeps its own. */
  lemma {:induction false} RowBalance(rows: seq<Stored>, nextId: VoteId, plan: Plan, covered: seq<Listed>,
          keys: set<VoteKey>, endAt: Instant, freezing: bool, r: Stored)
    requires Lawful(rows, nextId, plan, covered, keys, endAt, freezing) && r in rows
    ensures var after, u := OldRowAfter(r, plan, freezing), UpdateFor(plan.updates, r.id);
            && after.vote.hidden == r.vote.hidden
            && (u.None? ==> after.vote.balanceId == r.vote.balanceId)
            && (u.Some? ==> !r.vote.hidden && after.vote.balanceId == u.value.balanceId && u.value.balanceId.Some?
                            && forall o :: o in rows && !o.vote.hidden && o.vote.balanceId == u.value.balanceId
                                           ==> o.id == r.id)
    ensures HasUpdate(plan.updates, r.id) <==> UpdateFor(plan.updates, r.id).Some?
  {
    hide KeyOf, OnTimeDate, UpdateFor;
    var u := UpdateFor(plan.updates, r.id);
    if u.Some? {
      var i :| 0 <= i < |plan.updates| && plan.updates[i].id == r.id && plan.updates[i].vote == u.value;
      UpdateOfVisible(rows, nextId, plan, covered, keys, endAt, freezing, plan.updates[i]);
      var l :| l in covered && WrittenFor(u.value, l, freezing);
      forall o | o in rows && !o.vote.hidden && o.vote.balanceId == u.value.balanceId ensures o.id == r.id {
        assert o in Visible(rows) && Moves(plan.updates, o.id, o.vote.balanceId);
      }
    }
  }

  /** A new row's balance was held by no visible row and is taken by no update. */
  lemma NewRowBalance(rows: seq<Stored>, nextId: VoteId, plan: Plan, covered: seq<Listed>, keys: set<VoteKey>,
          endAt: Instant, freezing: bool, i: nat)
    requires Lawful(rows, nextId, plan, covered, keys, endAt, freezing) && i < |plan.created|
    ensures !plan.created[i].hidden && plan.created[i].balanceId.Some?
    ensures forall r :: r in rows && !r.vote.hidden ==> r.vote.balanceId != plan.created[i].balanceId
    ensures forall r :: r in rows && !r.vote.hidden
                        ==> OldRowAfter(r, plan, freezing).vote.balanceId != plan.created[i].balanceId
  {
    hide KeyOf, OnTimeDate;
    var v := plan.created[i];
    assert v in plan.created && WrittenForSome(v, covered, freezing);
    var l :| l in covered && WrittenFor(v, l, freezing);
    forall r | r in rows && !r.vote.hidden ensures r.vote.balanceId != v.balanceId {
      HeldIsMoved(rows, nextId, plan, covered, keys, endAt, freezing, r, l);
    }
  }

  lemma HeldIsMoved(rows: seq<Stored>, nextId: VoteId, plan: Plan, covered: seq<Listed>, keys: set<VoteKey>,
          endAt: Instant, freezing: bool, r: Stored, l: Listed)
    requires Lawful(rows, nextId, plan, covered, keys, endAt, freezing) && r in rows && !r.vote.hidden && l in covered
    ensures r.vote.balanceId == Some(l.1.id) ==> Moves(plan.updates, r.id, r.vote.balanceId)
  {
    assert r in Visible(rows);
  }

  /** Row and balance uniqueness survive every commit. */
  lemma {:induction false} CommitKeepsUnique(rows: seq<Stored>, nextId: VoteId, plan: Plan, covered: seq<Listed>,
          keys: set<VoteKey>, endAt: Instant, freezing: bool)
    requires Lawful(rows, nextId, plan, covered, keys, endAt, freezing)
    ensures var after := Committed(rows, nextId, plan, freezing);
            DistinctRows(after) && UniqueBalances(after) && forall r :: r in after ==> r.id < nextId + |plan.created|
  {
    hide Committed, OldRowAfter, Lawful;
    CommitKeepsIds(rows, nextId, plan, covered, keys, endAt, freezing);
    var after, n := Committed(rows, nextId, plan, freezing), |rows|;
    CommittedRows(rows, nextId, plan, covered, keys, endAt, freezing);
    forall i, j | 0 <= i < j < |after| && after[i].vote.hidden == after[j].vote.hidden && after[i].vote.balanceId.Some?
      ensures after[i].vote.balanceId != after[j].vote.balanceId
    {
      if j < n {
        LawfulIds(rows, nextId, plan, covered, keys, endAt, freezing);
        OldRowsStayApart(rows, nextId, plan, covered, keys, endAt, freezing, rows[i], rows[j]);
      } else if i < n {
        RowBalance(rows, nextId, plan, covered, keys, endAt, freezing, rows[i]);
        NewRowBalance(rows, nextId, plan, covered, keys, endAt, freezing, j - n);
        assert after[j] == Stored(nextId + (j - n), plan.created[j - n]);
      } else {
        CreatedApart(rows, nextId, plan, covered, keys, endAt, freezing, i - n, j - n);
        assert after[i] == Stored(nextId + (i - n), plan.created[i - n])
               && after[j] == Stored(nextId + (j - n), plan.created[j - n]);
      }
    }
  }

  lemma LawfulIds(rows: seq<Stored>, nextId: VoteId, plan: Plan, covered: seq<Listed>, keys: set<VoteKey>,
          endAt: Instant, freezing: bool)
    requires Lawful(rows, nextId, plan, covered, keys, endAt, freezing)
    ensures DistinctRows(rows) && forall r :: r in rows ==> r.id < nextId
  {
    hide WriteLaw;
  }

  lemma {:induction false} CommitKeepsIds(rows: seq<Stored>, nextId: VoteId, plan: Plan, covered: seq<Listed>,
          keys: set<VoteKey>, endAt: Instant, freezing: bool)
    requires Lawful(rows, nextId, plan, covered, keys, endAt, freezing)
    ensures var after := Committed(rows, nextId, plan, freezing);
            DistinctRows(after) && forall r :: r in after ==> r.id < nextId + |plan.created|
  {
    hide Committed, OldRowAfter, Lawful;
    var after, n := Committed(rows, nextId, plan, freezing), |rows|;
    CommittedRows(rows, nextId, plan, covered, keys, endAt, freezing);
    LawfulIds(rows, nextId, plan, covered, keys, endAt, freezing);
    forall k | 0 <= k < |after| ensures after[k].id == if k < n then rows[k].id else nextId + (k - n) {
      if k < n {
        OldRowKeepsId(rows[k], plan, freezing);
      } else {
        assert after[k] == Stored(nextId + (k - n), plan.created[k - n]);
      }
    }
    assert forall k :: 0 <= k < n ==> rows[k] in rows;
  }

  lemma OldRowKeepsId(r: Stored, plan: Plan, freezing: bool)
    ensures OldRowAfter(r, plan, freezing).id == r.id
  {
  }

  lemma CreatedApart(rows: seq<Stored>, nextId: VoteId, plan: Plan, covered: seq<Listed>, keys: set<VoteKey>,
          endAt: Instant, freezing: bool, i: nat, j: nat)
    requires Lawful(rows, nextId, plan, covered, keys, endAt, freezing) && i < j < |plan.created|
    ensures plan.created[i].balanceId != plan.created[j].balanceId
  {
  }

  /** The key discipline survives every commit whose listing obeys it. */
  lemma {:induction false} CommitKeepsKeyed(rows: seq<Stored>, nextId: VoteId, plan: Plan, covered: seq<Listed>,
          keys: set<VoteKey>, endAt: Instant, freezing: bool, keyOf: BalanceId -> VoteKey)
    requires Lawful(rows, nextId, plan, covered, keys, endAt, freezing) && Keyed(rows, keyOf)
             && NewRowsWellFormed(plan.created)
    requires forall l :: l in covered ==> KeyOf(l.0, l.1) == keyOf(l.1.id)
    ensures Keyed(Committed(rows, nextId, plan, freezing), keyOf)
  {
    hide Committed, OldRowAfter, Lawful, KeyOf, HasUpdate, Live;
    var after, n := Committed(rows, nextId, plan, freezing), |rows|;
    CommittedRows(rows, nextId, plan, covered, keys, endAt, freezing);
    forall r | r in after && !r.vote.hidden
      ensures (r.vote.balanceId.Some? ==> r.vote.key == keyOf(r.vote.balanceId.value))
              && r.vote.choice == r.vote.key.choice && r.vote.assetCode == r.vote.key.code
    {
      var k :| 0 <= k < |after| && after[k] == r;
      if k < n {
        assert rows[k] in rows;
        OldRowOutcome(rows, nextId, plan, covered, keys, endAt, freezing, rows[k], keyOf);
      } else {
        NewRowOutcome(rows, nextId, plan, covered, keys, endAt, freezing, k - n);
        assert plan.created[k - n] in plan.created;
      }
    }
  }
}
