/** Counting stored votes, and what a snapshot makes the count mean. */
module VoteTally {
  import opened Domain
  import opened VoteRecords
  import opened VoteMatching
  import opened VoteReconcile
  import opened VoteSnapshot
  import opened VoteRefinement
  import opened VoteTable
  import opened VoteCommit
  import opened VoteIndexing

  /** Which rows a tally reads: every choice is one, a decided proposal also counts claimed rows. */
  datatype Query = Query(voted: bool, choice: Choice, codes: set<string>, endAt: Option<Instant>)

  predicate EligibleVote(v: Vote, endAt: Option<Instant>)
  {
    !v.hidden && (endAt.None? || OnTimeDate(v.createdAt, endAt.value))
  }

  predicate Selected(v: Vote, q: Query)
  {
    EligibleVote(v, q.endAt) && v.choice == q.choice && v.assetCode in q.codes && (q.voted || !v.claimed)
  }

  function WeightOf(v: Vote, voted: bool): Option<real>
  {
    if voted && v.votedAmount.Some? then v.votedAmount else v.amount
  }

  /** The sum over the selected rows; none when a selected row has no weight, which is an error. */
  function SumVotes(rows: seq<Stored>, q: Query): Option<real>
  {
    if rows == [] then Some(0.0)
    else
      var n := |rows| - 1;
      var sum := SumVotes(rows[..n], q);
      if !Selected(rows[n].vote, q) then sum
      else if sum.None? || WeightOf(rows[n].vote, q.voted).None? then None
      else Some(sum.value + WeightOf(rows[n].vote, q.voted).value)
  }

  // ---- Sums over distinct entries depend on the entries alone ----

  type Weighed = (BalanceId, real)

  ghost predicate NoRepeats(s: seq<Weighed>) { forall i, j :: 0 <= i < j < |s| ==> s[i] != s[j] }

  function Sum(s: seq<Weighed>): real { if s == [] then 0.0 else Sum(s[..|s| - 1]) + s[|s| - 1].1 }

  lemma {:induction false} SumWithout(s: seq<Weighed>, k: nat)
    requires k < |s|
    ensures Sum(s) == Sum(s[..k] + s[k + 1..]) + s[k].1
  {
    var n, shorter := |s| - 1, s[..k] + s[k + 1..];
    if k == n {
      assert shorter == s[..n];
    } else {
      SumWithout(s[..n], k);
      assert shorter[..|shorter| - 1] == s[..n][..k] + s[..n][k + 1..];
      assert shorter[|shorter| - 1] == s[n];
    }
  }

  lemma HeadBelongs(s: seq<Weighed>)
    ensures s != [] ==> s[0] in s
  {
  }

  lemma {:induction false} SameEntriesSameSum(a: seq<Weighed>, b: seq<Weighed>)
    requires NoRepeats(a) && NoRepeats(b) && forall x :: x in a <==> x in b
    ensures Sum(a) == Sum(b)
  {
    if a == [] {
      HeadBelongs(b);
    } else {
      var n := |a| - 1;
      assert a[n] in b;
      var k :| 0 <= k < |b| && b[k] == a[n];
      var shorter := b[..k] + b[k + 1..];
      SumWithout(b, k);
      forall x ensures x in a[..n] <==> x in shorter {
        if x in a[..n] {
          assert x in b && x != a[n];
          var j :| 0 <= j < |b| && b[j] == x;
          assert j < k ==> shorter[j] == x;
          assert j > k ==> shorter[j - 1] == x;
        }
        if x in shorter {
          assert x in b && x != b[k];
          assert x in a;
          var j :| 0 <= j < |a| && a[j] == x;
          assert a[..n][j] == x;
        }
      }
      SameEntriesSameSum(a[..n], shorter);
    }
  }

  // ---- A snapshot's count is the chain's count ----

  function RowEntries(rows: seq<Stored>, q: Query): seq<Weighed>
  {
    if rows == [] then []
    else
      var n := |rows| - 1;
      var v := rows[n].vote;
      RowEntries(rows[..n], q) + if Selected(v, q) && v.balanceId.Some?
          && v.amount.Some? then [(v.balanceId.value, v.amount.value)] else []
  }

  lemma {:induction false} RowEntriesExact(rows: seq<Stored>, q: Query)
    ensures forall x :: x in RowEntries(rows, q)
                        <==> exists row :: row in rows && Selected(row.vote, q) && row.vote.balanceId == Some(x.0)
                                           && row.vote.amount == Some(x.1)
  {
    hide Selected;
    if rows != [] {
      var n := |rows| - 1;
      RowEntriesExact(rows[..n], q);
      assert rows == rows[..n] + [rows[n]];
    }
  }

  lemma {:induction false} RowEntriesDistinct(rows: seq<Stored>, q: Query)
    requires UniqueBalances(rows)
    ensures NoRepeats(RowEntries(rows, q))
  {
    hide OnTimeDate;
    if rows != [] {
      var n := |rows| - 1;
      RowEntriesDistinct(rows[..n], q);
      RowEntriesExact(rows[..n], q);
      forall x | x in RowEntries(rows[..n], q) && Selected(rows[n].vote, q)
        ensures Some(x.0) != rows[n].vote.balanceId {
        var row :| row in rows[..n] && Selected(row.vote, q) && row.vote.balanceId == Some(x.0);
        var k :| 0 <= k < n && rows[..n][k] == row;
        assert rows[k] == row;
      }
    }
  }

  lemma {:induction false} SumOfEntries(rows: seq<Stored>, q: Query)
    requires !q.voted && forall row :: row in rows && Selected(row.vote, q)
                                       ==> row.vote.balanceId.Some? && row.vote.amount.Some?
    ensures SumVotes(rows, q) == Some(Sum(RowEntries(rows, q)))
  {
    hide Selected, RowEntries, Sum;
    if rows == [] {
      NoEntries(q);
    } else {
      var n := |rows| - 1;
      SumOfEntries(rows[..n], q);
      assert rows[n] in rows;
      OneMoreEntry(rows, q);
    }
  }

  lemma NoEntries(q: Query)
    ensures Sum(RowEntries([], q)) == 0.0
  {
  }

  lemma OneMoreEntry(rows: seq<Stored>, q: Query)
    requires rows != []
    ensures var v := rows[|rows| - 1].vote;
            Sum(RowEntries(rows, q)) == Sum(RowEntries(rows[..|rows| - 1], q))
                                        + if Selected(v, q) && v.balanceId.Some?
                                            && v.amount.Some? then v.amount.value else 0.0
  {
    hide Selected;
    var v, fewer := rows[|rows| - 1].vote, RowEntries(rows[..|rows| - 1], q);
    if Selected(v, q) && v.balanceId.Some? && v.amount.Some? {
      assert RowEntries(rows, q) == fewer + [(v.balanceId.value, v.amount.value)];
      assert (fewer + [(v.balanceId.value, v.amount.value)])[..|fewer|] == fewer;
    } else {
      assert fewer + [] == fewer;
    }
  }

  /** A ballot cast in time, in one of the counted assets. */
  ghost predicate Weighs(s: VoteSettings, onTime: BalanceId -> bool, b: Balance, endAt: Instant, codes: set<string>)
  {
    IsBallot(s, b, endAt) && onTime(b.id) && b.asset.0 in codes
  }

  /** The sum of one issuer's counted ballots. */
  ghost function BallotSum(s: VoteSettings, onTime: BalanceId -> bool, balances: seq<Balance>, endAt: Instant,
          codes: set<string>): real
  {
    if balances == [] then 0.0
    else
      var n := |balances| - 1;
      BallotSum(s, onTime, balances[..n], endAt, codes)
      + if Weighs(s, onTime, balances[n], endAt, codes) then balances[n].amount else 0.0
  }

  ghost function BallotEntries(s: VoteSettings, onTime: BalanceId -> bool, balances: seq<Balance>, endAt: Instant,
          codes: set<string>): (r: seq<Weighed>)
    ensures forall x :: x in r
                        <==> exists b :: b in balances && Weighs(s, onTime, b, endAt, codes) && x == (b.id, b.amount)
    ensures Sum(r) == BallotSum(s, onTime, balances, endAt, codes)
  {
    if balances == [] then []
    else
      var n := |balances| - 1;
      assert balances == balances[..n] + [balances[n]];
      var b, fewer := balances[n], BallotEntries(s, onTime, balances[..n], endAt, codes);
      if !Weighs(s, onTime, b, endAt, codes) then fewer
      else
        assert (fewer + [(b.id, b.amount)])[..|fewer|] == fewer;
        fewer + [(b.id, b.amount)]
  }

  ghost predicate DistinctBalances(balances: seq<Balance>)
  {
    forall i, j :: 0 <= i < j < |balances| ==> balances[i].id != balances[j].id
  }

  lemma {:induction false} BallotEntriesDistinct(s: VoteSettings, onTime: BalanceId -> bool, balances: seq<Balance>,
          endAt: Instant, codes: set<string>)
    requires DistinctBalances(balances)
    ensures NoRepeats(BallotEntries(s, onTime, balances, endAt, codes))
  {
    hide Weighs;
    if balances != [] {
      var n := |balances| - 1;
      BallotEntriesDistinct(s, onTime, balances[..n], endAt, codes);
      forall x | x in BallotEntries(s, onTime, balances[..n], endAt, codes) ensures x.0 != balances[n].id {
        var b :| b in balances[..n] && x == (b.id, b.amount);
        var i :| 0 <= i < n && balances[..n][i] == b;
        assert balances[i].id != balances[n].id;
      }
    }
  }

  /** The running tally of a choice, read right after a complete snapshot, is the sum of the ballots
      cast in time for that choice's issuer. */
  lemma {:induction false} TallyIsOnChain(s: VoteSettings, onTime: BalanceId -> bool, rows: seq<Stored>,
          balances: seq<Balance>, endAt: Instant, freezing: bool, choice: Choice, codes: set<string>)
    requires UniqueBalances(rows) && DistinctBalances(balances)
    requires Mirrors(s, rows, choice, balances, endAt, onTime, freezing)
    ensures SumVotes(rows, Query(false, choice, codes, Some(endAt)))
            == Some(BallotSum(s, onTime, balances, endAt, codes))
  {
    hide IsBallot, UniqueBalances, DistinctBalances, NoRepeats, RowEntries, BallotEntries, Selected, BallotSum, Mirrors;
    var q := Query(false, choice, codes, Some(endAt));
    var mine, theirs := RowEntries(rows, q), BallotEntries(s, onTime, balances, endAt, codes);
    forall row | row in rows && Selected(row.vote, q) ensures row.vote.balanceId.Some? && row.vote.amount.Some? {
      var b := SelectedRowIsBallot(s, onTime, rows, balances, endAt, freezing, q, row);
    }
    SumOfEntries(rows, q);
    RowEntriesExact(rows, q);
    RowEntriesDistinct(rows, q);
    BallotEntriesDistinct(s, onTime, balances, endAt, codes);
    forall x | x in mine ensures x in theirs {
      var row :| row in rows && Selected(row.vote, q) && row.vote.balanceId == Some(x.0)
          && row.vote.amount == Some(x.1);
      var b := SelectedRowIsBallot(s, onTime, rows, balances, endAt, freezing, q, row);
      assert x == (b.id, b.amount);
    }
    forall x | x in theirs ensures x in mine {
      var b :| b in balances && Weighs(s, onTime, b, endAt, codes) && x == (b.id, b.amount);
      var row := BallotIsSelected(s, onTime, rows, balances, endAt, freezing, q, b);
    }
    SameEntriesSameSum(mine, theirs);
  }

  lemma {:induction false} SelectedRowIsBallot(s: VoteSettings, onTime: BalanceId -> bool, rows: seq<Stored>,
          balances: seq<Balance>, endAt: Instant, freezing: bool, q: Query, row: Stored)
      returns (b: Balance)
    requires Mirrors(s, rows, q.choice, balances, endAt, onTime, freezing) && !q.voted && q.endAt == Some(endAt)
    requires row in rows && Selected(row.vote, q)
    ensures b in balances && Weighs(s, onTime, b, endAt, q.codes)
    ensures row.vote.balanceId == Some(b.id) && row.vote.amount == Some(b.amount)
  {
    hide IsBallot;
    assert Standing(row, endAt);
    b :| b in balances && IsBallot(s, b, endAt) && onTime(b.id) && Mirrored(row, b, freezing);
  }

  lemma {:induction false} BallotIsSelected(s: VoteSettings, onTime: BalanceId -> bool, rows: seq<Stored>,
          balances: seq<Balance>, endAt: Instant, freezing: bool, q: Query, b: Balance)
      returns (row: Stored)
    requires Mirrors(s, rows, q.choice, balances, endAt, onTime, freezing) && !q.voted && q.endAt == Some(endAt)
    requires b in balances && Weighs(s, onTime, b, endAt, q.codes)
    ensures row in rows && Selected(row.vote, q)
    ensures row.vote.balanceId == Some(b.id) && row.vote.amount == Some(b.amount)
  {
    hide IsBallot;
    row :| row in rows && Standing(row, endAt) && row.vote.choice == q.choice && Mirrored(row, b, freezing);
  }

  /** All three tallies at once: for, against and abstaining, each from its own issuer's ballots. */
  lemma {:induction false} TalliesAreOnChain(s: VoteSettings, onTime: BalanceId -> bool, rows: seq<Stored>,
          votesFor: seq<Balance>, votesAgainst: seq<Balance>, abstained: Option<seq<Balance>>, endAt: Instant,
          freezing: bool, codes: set<string>)
    requires UniqueBalances(rows)
    requires DistinctBalances(votesFor) && DistinctBalances(votesAgainst) && DistinctBalances(abstained.GetOr([]))
    requires RowsMirrorBallots(s, rows, votesFor, votesAgainst, abstained, endAt, onTime, freezing)
    ensures SumVotes(rows, Query(false, VoteFor, codes, Some(endAt)))
            == Some(BallotSum(s, onTime, votesFor, endAt, codes))
    ensures SumVotes(rows, Query(false, VoteAgainst, codes, Some(endAt)))
            == Some(BallotSum(s, onTime, votesAgainst, endAt, codes))
    ensures SumVotes(rows, Query(false, VoteAbstain, codes, Some(endAt)))
            == Some(if abstained.Some? then BallotSum(s, onTime, abstained.value, endAt, codes) else 0.0)
  {
    hide Mirrors, UniqueBalances, DistinctBalances, SumVotes;
    TallyIsOnChain(s, onTime, rows, votesFor, endAt, freezing, VoteFor, codes);
    TallyIsOnChain(s, onTime, rows, votesAgainst, endAt, freezing, VoteAgainst, codes);
    TallyIsOnChain(s, onTime, rows, abstained.GetOr([]), endAt, freezing, VoteAbstain, codes);
  }

  // ---- Frozen weights ----

  /** What one row adds to the tally of a decided proposal. */
  function Contribution(r: Stored, choice: Choice, codes: set<string>, endAt: Option<Instant>): Option<real>
  {
    if Selected(r.vote, Query(true, choice, codes, endAt)) then WeightOf(r.vote, true) else Some(0.0)
  }

  /** A run of non-freezing commits, whatever each one planned and whenever it read its rows. */
  function CommittedRun(rows: seq<Stored>, nextId: VoteId, plans: seq<Plan>): seq<Stored>
    decreases plans
  {
    if plans == [] then rows
    else CommittedRun(Committed(rows, nextId, plans[0], false), nextId + |plans[0].created|, plans[1..])
  }

  /** A non-freezing commit, even one planned before the freeze, never moves a frozen row's contribution. */
  lemma FrozenRowIsFixed(r: Stored, plan: Plan, choice: Choice, codes: set<string>, endAt: Option<Instant>)
    requires r.vote.votedAmount.Some?
    ensures var after := OldRowAfter(r, plan, false);
            after.id == r.id && after.vote.votedAmount == r.vote.votedAmount
                && Contribution(after, choice, codes, endAt) == Contribution(r, choice, codes, endAt)
  {
    hide OnTimeDate, UpdateFor;
  }

  /** A balance id longer than every stored one. */
  function UnusedBalance(rows: seq<Stored>): (id: BalanceId)
    ensures forall r :: r in rows ==> r.vote.balanceId != Some(id)
    ensures forall r :: r in rows && r.vote.balanceId.Some? ==> |r.vote.balanceId.value| < |id|
  {
    if rows == [] then "0"
    else
      var n := |rows| - 1;
      assert rows == rows[..n] + [rows[n]];
      UnusedBalance(rows[..n]) + (if rows[n].vote.balanceId.Some? then rows[n].vote.balanceId.value else "") + "0"
  }

  /** The balance a service could have put in place of `l`: a new id and one more unit. */
  function Melted(rows: seq<Stored>, r: Stored, l: Listed): Listed
  {
    (l.0, l.1.(id := UnusedBalance(rows), amount := r.vote.amount.GetOr(0.0) + 1.0))
  }

  /** The plan of a non-freezing snapshot that finds `r` paired with that balance and nothing else listed. */
  function MeltingPlan(rows: seq<Stored>, r: Stored, l: Listed): Plan
  {
    var m := Melted(rows, r, l);
    Plan([], [UpdatedRow(r, Item(0, m.0, m.1, None), false)], {r.id})
  }

  lemma MeltingPlanIsLawful(rows: seq<Stored>, nextId: VoteId, r: Stored, l: Listed, endAt: Instant)
    requires DistinctRows(rows) && UniqueBalances(rows) && (forall x :: x in rows ==> x.id < nextId)
    requires r in rows && !r.vote.hidden && OnTimeDate(r.vote.createdAt, endAt) && r.vote.key == KeyOf(l.0, l.1)
    ensures Lawful(rows, nextId, MeltingPlan(rows, r, l), [Melted(rows, r, l)], {r.vote.key}, endAt, false)
  {
    hide OnTimeDate, TimesAndOwner, UnusedBalance;
    var m, plan := Melted(rows, r, l), MeltingPlan(rows, r, l);
    var u := plan.updates[0];
    assert WrittenFor(u.vote, m, false) && m in [m];
    assert r in Visible(rows);
    assert FromOnTimeRow(Visible(rows), u, {r.vote.key}, endAt);
    forall x | x in Visible(rows) && x.id in plan.processed ensures HasUpdate(plan.updates, x.id) {
      assert plan.updates[0].id == x.id;
    }
    assert Places(plan.updates, plan.created, m.1.id) by {
      assert plan.updates[0].vote.balanceId == Some(m.1.id);
    }
  }

  /** A row's contribution survives every non-freezing snapshot exactly when it is frozen or not counted:
      else a replacement of its balance, paired with it, moves the decided proposal's tally. */
  lemma {:induction false} FixedExactlyWhenFrozen(rows: seq<Stored>, nextId: VoteId, r: Stored, l: Listed,
          endAt: Instant, choice: Choice, codes: set<string>)
    requires DistinctRows(rows) && UniqueBalances(rows) && (forall x :: x in rows ==> x.id < nextId)
    requires r in rows && r.vote.key == KeyOf(l.0, l.1)
    ensures (forall plan, covered, keys :: Lawful(rows, nextId, plan, covered, keys, endAt, false)
               ==> Contribution(OldRowAfter(r, plan, false), choice, codes, Some(endAt))
                   == Contribution(r, choice, codes, Some(endAt)))
            <==> r.vote.votedAmount.Some? || !Selected(r.vote, Query(true, choice, codes, Some(endAt)))
  {
    hide OnTimeDate, Lawful, KeyOf, DistinctRows, UniqueBalances, UpdateFor, UnusedBalance, WeightOf;
    if r.vote.votedAmount.Some? {
      forall plan
        ensures Contribution(OldRowAfter(r, plan, false), choice, codes, Some(endAt))
        == Contribution(r, choice, codes, Some(endAt)) {
        FrozenRowIsFixed(r, plan, choice, codes, Some(endAt));
      }
    } else if Selected(r.vote, Query(true, choice, codes, Some(endAt))) {
      MeltingPlanIsLawful(rows, nextId, r, l, endAt);
      MeltingMovesTally(rows, r, l, endAt, choice, codes);
    }
  }

  lemma MeltingMovesTally(rows: seq<Stored>, r: Stored, l: Listed, endAt: Instant, choice: Choice, codes: set<string>)
    requires r.vote.votedAmount.None? && Selected(r.vote, Query(true, choice, codes, Some(endAt)))
    ensures var after := OldRowAfter(r, MeltingPlan(rows, r, l), false);
            && Contribution(after, choice, codes, Some(endAt)) == Some(r.vote.amount.GetOr(0.0) + 1.0)
            && Contribution(r, choice, codes, Some(endAt)) == r.vote.amount
  {
    hide OnTimeDate, UnusedBalance, TimesAndOwner;
    var plan := MeltingPlan(rows, r, l);
    assert UpdateFor(plan.updates, r.id) == Some(plan.updates[0].vote);
  }

  lemma CommittedKeepsPlace(rows: seq<Stored>, nextId: VoteId, plan: Plan, freezing: bool, k: nat)
    requires k < |rows|
    ensures |Committed(rows, nextId, plan, freezing)| >= |rows|
            && Committed(rows, nextId, plan, freezing)[k] == OldRowAfter(rows[k], plan, freezing)
  {
    hide RewrittenRow, SweptRow;
  }

  lemma {:induction false} FrozenForEver(rows: seq<Stored>, nextId: VoteId, plans: seq<Plan>, k: nat, choice: Choice,
          codes: set<string>, endAt: Option<Instant>)
    requires k < |rows| && rows[k].vote.votedAmount.Some?
    ensures var after := CommittedRun(rows, nextId, plans);
            |after| >= |rows| && after[k].id == rows[k].id
                && Contribution(after[k], choice, codes, endAt) == Contribution(rows[k], choice, codes, endAt)
    decreases plans
  {
    hide Contribution, OldRowAfter, Committed;
    if plans != [] {
      CommittedKeepsPlace(rows, nextId, plans[0], false, k);
      FrozenRowIsFixed(rows[k], plans[0], choice, codes, endAt);
      FrozenForEver(Committed(rows, nextId, plans[0], false), nextId + |plans[0].created|, plans[1..], k, choice,
                    codes, endAt);
    }
  }

  /** A ballot that the freezing snapshot mirrored weighs its frozen amount in the final tally of its own
      choice, after any number of later non-freezing snapshots. */
  lemma {:induction false} FrozenBalanceKeepsItsWeight(s: VoteSettings, onTime: BalanceId -> bool, rows: seq<Stored>,
          nextId: VoteId, choice: Choice, balances: seq<Balance>, endAt: Instant, b: Balance, plans: seq<Plan>,
          codes: set<string>)
    requires Mirrors(s, rows, choice, balances, endAt, onTime, true)
    requires b in balances && Weighs(s, onTime, b, endAt, codes)
    ensures exists k :: 0 <= k < |rows| && rows[k].vote.balanceId == Some(b.id)
                        && k < |CommittedRun(rows, nextId, plans)|
                        && Contribution(CommittedRun(rows, nextId, plans)[k], choice, codes, Some(endAt))
                           == Some(b.amount)
  {
    hide CommittedRun, Contribution, Mirrors, Weighs;
    var r := FrozenRowOf(s, onTime, rows, choice, balances, endAt, b, codes);
    var k :| 0 <= k < |rows| && rows[k] == r;
    FrozenForEver(rows, nextId, plans, k, choice, codes, Some(endAt));
  }

  lemma {:induction false} FrozenRowOf(s: VoteSettings, onTime: BalanceId -> bool, rows: seq<Stored>, choice: Choice,
          balances: seq<Balance>, endAt: Instant, b: Balance, codes: set<string>)
      returns (r: Stored)
    requires Mirrors(s, rows, choice, balances, endAt, onTime, true)
    requires b in balances && Weighs(s, onTime, b, endAt, codes)
    ensures r in rows && r.vote.balanceId == Some(b.id) && r.vote.votedAmount.Some?
            && Contribution(r, choice, codes, Some(endAt)) == Some(b.amount)
  {
    hide IsBallot, Contribution, Mirrored, Standing;
    r :| r in rows && Standing(r, endAt) && r.vote.choice == choice && Mirrored(r, b, true);
    FrozenWeight(r, choice, b, endAt, codes);
  }

  lemma FrozenWeight(r: Stored, choice: Choice, b: Balance, endAt: Instant, codes: set<string>)
    requires Standing(r, endAt) && r.vote.choice == choice && Mirrored(r, b, true) && b.asset.0 in codes
    ensures r.vote.balanceId == Some(b.id) && r.vote.votedAmount.Some?
            && Contribution(r, choice, codes, Some(endAt)) == Some(b.amount)
  {
  }
}
