/** The stored vote rows of one proposal and the writes a snapshot commits. */
module VoteTable {
  import opened Domain
  import opened VoteRecords
  import opened VoteMatching
  import opened VoteReconcile
  import opened VoteSnapshot
  import opened VoteRefinement

  // ---- Queries ----

  function Visible(rows: seq<Stored>): (r: seq<Stored>)
    ensures forall x :: x in r <==> x in rows && !x.vote.hidden
  {
    if rows == [] then [] else (if rows[0].vote.hidden then [] else [rows[0]]) + Visible(rows[1..])
  }

  function WithKey(rows: seq<Stored>, key: VoteKey): (r: seq<Stored>)
    ensures forall x :: x in r <==> x in rows && x.vote.key == key
  {
    if rows == [] then [] else (if rows[0].vote.key == key then [rows[0]] else []) + WithKey(rows[1..], key)
  }

  /** The unique index on visibility and balance. */
  ghost predicate UniqueBalances(rows: seq<Stored>)
  {
    forall i, j :: 0 <= i < j < |rows| && rows[i].vote.hidden == rows[j].vote.hidden && rows[i].vote.balanceId.Some?
                   ==> rows[i].vote.balanceId != rows[j].vote.balanceId
  }

  predicate Clash(rows: seq<Stored>, id: VoteId, v: Vote)
  {
    v.balanceId.Some? && exists r :: r in rows && r.id != id && r.vote.hidden == v.hidden
                                     && r.vote.balanceId == v.balanceId
  }

  /** A visible row is filed under the key of its balance, and shows that key's choice and asset. */
  ghost predicate Keyed(rows: seq<Stored>, keyOf: BalanceId -> VoteKey)
  {
    forall r :: r in rows && !r.vote.hidden ==>
      && (r.vote.balanceId.Some? ==> r.vote.key == keyOf(r.vote.balanceId.value))
      && r.vote.choice == r.vote.key.choice && r.vote.assetCode == r.vote.key.code
  }

  lemma {:induction false} VisibleDistinct(rows: seq<Stored>)
    requires DistinctRows(rows) && UniqueBalances(rows)
    ensures DistinctRows(Visible(rows)) && DistinctHolders(Visible(rows))
  {
    if rows != [] {
      VisibleDistinct(rows[1..]);
      forall x | x in Visible(rows[1..]) && !rows[0].vote.hidden
        ensures x.id != rows[0].id && (rows[0].vote.balanceId.Some? ==> x.vote.balanceId != rows[0].vote.balanceId)
      {
        var i :| 0 <= i < |rows[1..]| && rows[1..][i] == x;
        assert rows[i + 1] == x;
      }
    }
  }

  lemma {:induction false} WithKeyDistinct(rows: seq<Stored>, key: VoteKey)
    requires DistinctRows(rows) && DistinctHolders(rows)
    ensures DistinctRows(WithKey(rows, key)) && DistinctHolders(WithKey(rows, key))
  {
    if rows != [] {
      WithKeyDistinct(rows[1..], key);
      forall x | x in WithKey(rows[1..], key)
        ensures x.id != rows[0].id && (rows[0].vote.balanceId.Some? ==> x.vote.balanceId != rows[0].vote.balanceId)
      {
        var i :| 0 <= i < |rows[1..]| && rows[1..][i] == x;
        assert rows[i + 1] == x;
      }
    }
  }

  // ---- What a commit writes ----

  /** The computed writes of one snapshot. */
  datatype Plan = Plan(created: seq<Vote>, updates: seq<Stored>, processed: set<VoteId>)

  function SweptRow(r: Stored, processed: set<VoteId>): Stored
  {
    if !r.vote.hidden && r.id !in processed && !r.vote.claimed then r.(vote := r.vote.(claimed := true)) else r
  }

  /** The columns bulk_update names; the frozen weight only when freezing. */
  function Overwrite(stored: Vote, v: Vote, freezing: bool): Vote
  {
    stored.(groupIndex := v.groupIndex, balanceId := v.balanceId, amount := v.amount, link := v.link,
            claimed := v.claimed,
            votedAmount := if freezing then v.votedAmount else stored.votedAmount)
  }

  function UpdateFor(updates: seq<Stored>, id: VoteId): (r: Option<Vote>)
    ensures r.Some? ==> exists i :: 0 <= i < |updates| && updates[i].id == id && updates[i].vote == r.value
    ensures r.None? ==> !HasUpdate(updates, id)
  {
    if updates == [] then None
    else
      var last := updates[|updates| - 1];
      if last.id == id then Some(last.vote) else UpdateFor(updates[..|updates| - 1], id)
  }

  function RewrittenRow(r: Stored, updates: seq<Stored>, freezing: bool): Stored
  {
    var v := UpdateFor(updates, r.id);
    if v.Some? then r.(vote := Overwrite(r.vote, v.value, freezing)) else r
  }

  function Swept(rows: seq<Stored>, processed: set<VoteId>): seq<Stored>
  {
    seq(|rows|, i requires 0 <= i < |rows| => SweptRow(rows[i], processed))
  }

  function Inserted(created: seq<Vote>, nextId: VoteId): seq<Stored>
  {
    seq(|created|, i requires 0 <= i < |created| => Stored(nextId + i, created[i]))
  }

  function Rewritten(rows: seq<Stored>, updates: seq<Stored>, freezing: bool): seq<Stored>
  {
    seq(|rows|, i requires 0 <= i < |rows| => RewrittenRow(rows[i], updates, freezing))
  }

  function Committed(rows: seq<Stored>, nextId: VoteId, plan: Plan, freezing: bool): seq<Stored>
  {
    Rewritten(Swept(rows, plan.processed) + Inserted(plan.created, nextId), plan.updates, freezing)
  }

  // ---- The transaction ----

  class LogVotes {
    var rows: seq<Stored>
    var nextId: VoteId

    ghost predicate Valid()
      reads this
    {
      DistinctRows(rows) && UniqueBalances(rows) && forall r :: r in rows ==> r.id < nextId
    }

    constructor ()
      ensures Valid() && rows == []
    {
      rows, nextId := [], 0;
    }

    /** An insert or update that would break the unique index is an error of the caller. */
    method InsertRow(v: Vote)
      requires !Clash(rows, nextId, v)
      modifies this
      ensures rows == old(rows) + [Stored(old(nextId), v)] && nextId == old(nextId) + 1
    {
      rows, nextId := rows + [Stored(nextId, v)], nextId + 1;
    }

    method SaveColumns(k: nat, v: Vote)
      requires k < |rows| && !Clash(rows, rows[k].id, v)
      modifies this`rows
      ensures rows == old(rows)[k := old(rows)[k].(vote := v)]
    {
      rows := rows[k := rows[k].(vote := v)];
    }

    method MarkStale(processed: set<VoteId>)
      modifies this`rows
      ensures rows == Swept(old(rows), processed)
    {
      for k := 0 to |rows|
        invariant |rows| == |old(rows)|
        invariant forall i :: 0 <= i < k ==> rows[i] == SweptRow(old(rows)[i], processed)
        invariant forall i :: k <= i < |rows| ==> rows[i] == old(rows)[i]
      {
        if !rows[k].vote.hidden && rows[k].id !in processed && !rows[k].vote.claimed {
          rows := rows[k := rows[k].(vote := rows[k].vote.(claimed := true))];
        }
      }
    }

    method BulkCreate(created: seq<Vote>)
      requires forall r :: r in rows ==> r.id < nextId
      requires forall i, r :: 0 <= i < |created| && r in rows && !r.vote.hidden && created[i].balanceId.Some?
                              ==> r.vote.balanceId != created[i].balanceId
      requires forall i :: 0 <= i < |created| ==> !created[i].hidden
      requires forall i, j :: 0 <= i < j < |created| ==> created[i].balanceId != created[j].balanceId
      modifies this
      ensures rows == old(rows) + Inserted(created, old(nextId)) && nextId == old(nextId) + |created|
    {
      for i := 0 to |created|
        invariant rows == old(rows) + Inserted(created[..i], old(nextId)) && nextId == old(nextId) + i
      {
        assert forall r :: r in rows && !r.vote.hidden
                           ==> created[i].balanceId.None? || r.vote.balanceId != created[i].balanceId;
        InsertRow(created[i]);
        assert Inserted(created[..i + 1], old(nextId)) == Inserted(created[..i], old(nextId))
               + [Stored(old(nextId) + i, created[i])];
      }
      assert created[..|created|] == created;
    }

    /** Every intermediate state respects the unique index, so no order of the writes can fail. */
    method BulkUpdate(updates: seq<Stored>, freezing: bool)
      requires DistinctRows(rows) && NoStepClashes(rows, updates)
      modifies this`rows
      ensures rows == Rewritten(old(rows), updates, freezing)
    {
      hide NoStepClashes, DistinctRows, UpdateFor, Overwrite, Clash;
      for i := 0 to |updates|
        invariant rows == Rewritten(old(rows), updates[..i], freezing)
      {
        NextUpdate(old(rows), updates, i, freezing);
        var k := 0;
        while k < |rows| && rows[k].id != updates[i].id
          invariant 0 <= k <= |rows|
          invariant forall j :: 0 <= j < k ==> rows[j].id != updates[i].id
        {
          k := k + 1;
        }
        if k < |rows| {
          SaveColumns(k, Overwrite(rows[k].vote, updates[i].vote, freezing));
        }
      }
      assert updates[..|updates|] == updates;
    }
  }

  /** No row's old or new balance is another row's new balance, among rows of one visibility. */
  ghost predicate NoStepClashes(rows: seq<Stored>, updates: seq<Stored>)
  {
    && (forall i, r :: 0 <= i < |updates| && r in rows && r.id == updates[i].id ==> !r.vote.hidden)
    && (forall i, j :: 0 <= i < j < |updates| ==> updates[i].vote.balanceId != updates[j].vote.balanceId)
    && (forall i, r :: 0 <= i < |updates| && r in rows && !r.vote.hidden
                       && r.vote.balanceId == updates[i].vote.balanceId
                       ==> r.id == updates[i].id)
  }

  lemma NextUpdate(rows: seq<Stored>, updates: seq<Stored>, i: nat, freezing: bool)
    requires i < |updates| && DistinctRows(rows) && NoStepClashes(rows, updates)
    ensures var now, next := Rewritten(rows, updates[..i], freezing), Rewritten(rows, updates[..i + 1], freezing);
            && (forall k :: 0 <= k < |now| && now[k].id == updates[i].id ==>
                  && !Clash(now, now[k].id, Overwrite(now[k].vote, updates[i].vote, freezing))
                  && next == now[k := now[k].(vote := Overwrite(now[k].vote, updates[i].vote, freezing))])
            && ((forall k :: 0 <= k < |now| ==> now[k].id != updates[i].id) ==> next == now)
  {
    hide NoStepClashes, Overwrite, Clash, UpdateFor;
    var now, next := Rewritten(rows, updates[..i], freezing), Rewritten(rows, updates[..i + 1], freezing);
    forall k | 0 <= k < |now|
      ensures next[k] == if now[k].id
              == updates[i].id then now[k].(vote := Overwrite(now[k].vote, updates[i].vote, freezing)) else now[k]
    {
      NextRow(rows[k], updates, i, freezing);
    }
    forall k | 0 <= k < |now| && now[k].id == updates[i].id
      ensures !Clash(now, now[k].id, Overwrite(now[k].vote, updates[i].vote, freezing))
      ensures next == now[k := now[k].(vote := Overwrite(now[k].vote, updates[i].vote, freezing))]
    {
      assert now[k].id == rows[k].id;
      NextUpdateIsClear(rows, updates, i, freezing, k);
      assert forall j :: 0 <= j < |rows| && j != k ==> rows[j].id != rows[k].id;
    }
  }

  lemma NextRow(r: Stored, updates: seq<Stored>, i: nat, freezing: bool)
    requires i < |updates|
    ensures var now := RewrittenRow(r, updates[..i], freezing);
            RewrittenRow(r, updates[..i + 1], freezing) == if now.id
                == updates[i].id then now.(vote := Overwrite(now.vote, updates[i].vote, freezing)) else now
  {
    assert updates[..i + 1][..i] == updates[..i];
  }

  lemma NextUpdateIsClear(rows: seq<Stored>, updates: seq<Stored>, i: nat, freezing: bool, k: nat)
    requires i < |updates| && NoStepClashes(rows, updates) && k < |rows| && rows[k].id == updates[i].id
    ensures var now := Rewritten(rows, updates[..i], freezing);
            !Clash(now, now[k].id, Overwrite(now[k].vote, updates[i].vote, freezing))
  {
    var now := Rewritten(rows, updates[..i], freezing);
    assert rows[k] in rows;
    forall j | 0 <= j < |now| && now[j].id != now[k].id && !now[j].vote.hidden
      ensures now[j].vote.balanceId != updates[i].vote.balanceId {
      assert rows[j] in rows;
    }
  }
}
