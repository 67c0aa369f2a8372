/** Reconstruction of the ledger from the two stored hash columns. */
module Backfill {
  import opened Domain
  import opened Hashes
  import opened Ordering
  import opened Records

  type Source = (Option<Hash>, ProposalId)

  /** The Proposal column in id order, without the rows whose creation is still in flight. */
  function RowSources(rows: map<ProposalId, Row>, ids: set<ProposalId>): seq<Source>
    requires ids <= rows.Keys
  {
    if ids == {} then []
    else
      var m := Least(ids);
      (if rows[m].action == ToCreate then [] else [(rows[m].hash, m)]) + RowSources(rows, ids - {m})
  }

  function HistorySources(history: seq<HistoryRow>): seq<Source>
  {
    seq(|history|, i requires 0 <= i < |history| => (history[i].hash, history[i].pid))
  }

  /** Live proposals are read first, so their attribution wins. */
  function Sources(db: Db): seq<Source>
  {
    RowSources(db.rows, db.rows.Keys) + HistorySources(db.history)
  }

  /** One claim per canonical hash, attributed to the first source that holds it. */
  function FirstClaims(sources: seq<Source>): map<Hash, ProposalId>
  {
    if sources == [] then map[]
    else
      var earlier := FirstClaims(sources[..|sources| - 1]);
      var last := sources[|sources| - 1];
      var h := CanonicalHash(last.0);
      if h == "" || h in earlier then earlier else earlier[h := last.1]
  }

  /** How many source cells hold a hash, repetitions included. */
  function SourceCount(sources: seq<Source>): nat
  {
    if sources == [] then 0
    else SourceCount(sources[..|sources| - 1]) + if CanonicalHash(sources[|sources| - 1].0) != "" then 1 else 0
  }

  lemma {:induction false} SourceCountExact(sources: seq<Source>)
    ensures SourceCount(sources) == |set i | 0 <= i < |sources| && CanonicalHash(sources[i].0) != ""|
  {
    hide CanonicalHash;
    var cells := set i | 0 <= i < |sources| && CanonicalHash(sources[i].0) != "";
    if sources != [] {
      var n, init := |sources| - 1, sources[..|sources| - 1];
      var earlier := set i | 0 <= i < n && CanonicalHash(init[i].0) != "";
      SourceCountExact(init);
      assert cells == earlier + if CanonicalHash(sources[n].0) != "" then {n} else {};
    }
  }

  /** Rows left alone because their creation is still in flight. */
  function InFlight(rows: map<ProposalId, Row>): set<ProposalId> { set q | q in rows && rows[q].action == ToCreate }

  function Claims(db: Db): map<Hash, ProposalId> { FirstClaims(Sources(db)) }

  /** The rows the insert adds; conflicting inserts are ignored. */
  function NewClaims(db: Db): map<Hash, Claim>
  {
    map h | h in Claims(db) && h !in db.ledger :: Claim(Claims(db)[h], Legacy, None)
  }

  function Backfilled(db: Db): Db { db.(ledger := db.ledger + NewClaims(db)) }

  ghost predicate FirstHolder(sources: seq<Source>, h: Hash, i: nat)
  {
    i < |sources| && CanonicalHash(sources[i].0) == h && forall k :: 0 <= k < i ==> CanonicalHash(sources[k].0) != h
  }

  /** A hash is claimed exactly when some source holds it, for its first holder. */
  lemma {:induction false} FirstClaimsExact(sources: seq<Source>, h: Hash)
    requires h != ""
    ensures h in FirstClaims(sources) <==> exists i :: 0 <= i < |sources| && CanonicalHash(sources[i].0) == h
    ensures h in FirstClaims(sources)
            ==> exists i: nat :: FirstHolder(sources, h, i) && FirstClaims(sources)[h] == sources[i].1
    ensures "" !in FirstClaims(sources)
  {
    hide CanonicalHash;
    if sources != [] {
      var n := |sources| - 1;
      var init := sources[..n];
      FirstClaimsExact(init, h);
      assert forall i :: 0 <= i < n ==> init[i] == sources[i];
      if h in FirstClaims(init) {
        var i: nat :| FirstHolder(init, h, i) && FirstClaims(init)[h] == init[i].1;
        assert FirstHolder(sources, h, i);
      } else if CanonicalHash(sources[n].0) == h {
        assert FirstHolder(sources, h, n);
      }
    }
  }

  lemma {:induction false} RowSourcesHold(rows: map<ProposalId, Row>, ids: set<ProposalId>, h: Hash)
    requires ids <= rows.Keys
    ensures (exists i :: 0 <= i < |RowSources(rows, ids)| && CanonicalHash(RowSources(rows, ids)[i].0) == h)
            <==> exists q :: q in ids && rows[q].action != ToCreate && CanonicalHash(rows[q].hash) == h
    decreases |ids|
  {
    if ids != {} {
      var m := Least(ids);
      var tail := RowSources(rows, ids - {m});
      RowSourcesHold(rows, ids - {m}, h);
      var all := RowSources(rows, ids);
      if rows[m].action == ToCreate {
        assert all == tail;
      } else {
        assert all == [(rows[m].hash, m)] + tail;
        assert forall i :: 1 <= i < |all| ==> all[i] == tail[i - 1];
        assert forall i :: 0 <= i < |tail| ==> tail[i] == all[i + 1];
        if CanonicalHash(rows[m].hash) == h {
          assert CanonicalHash(all[0].0) == h;
        }
      }
    }
  }

  /** What one backfill burns: the confirmed column of every row not awaiting its creation,
      and the whole history column. */
  lemma ClaimsExact(db: Db, h: Hash)
    requires h != ""
    ensures h in Claims(db) <==>
            || (exists q :: q in db.rows && db.rows[q].action != ToCreate && CanonicalHash(db.rows[q].hash) == h)
            || (exists k :: 0 <= k < |db.history| && CanonicalHash(db.history[k].hash) == h)
  {
    hide CanonicalHash, FirstClaims, RowSources;
    FirstClaimsExact(Sources(db), h);
    RowSourcesHold(db.rows, db.rows.Keys, h);
    var r, s := RowSources(db.rows, db.rows.Keys), HistorySources(db.history);
    var all := Sources(db);
    assert forall i :: 0 <= i < |r| ==> all[i] == r[i];
    assert forall i :: |r| <= i < |all| ==> all[i] == s[i - |r|] && all[i].0 == db.history[i - |r|].hash;
    if k :| 0 <= k < |db.history| && CanonicalHash(db.history[k].hash) == h {
      assert all[|r| + k] == s[k];
    }
    if i :| 0 <= i < |r| && CanonicalHash(r[i].0) == h {
      assert CanonicalHash(all[i].0) == h;
    }
    if i :| 0 <= i < |all| && CanonicalHash(all[i].0) == h {
      if i < |r| {
        assert CanonicalHash(r[i].0) == h;
      } else {
        assert CanonicalHash(db.history[i - |r|].hash) == h;
      }
    }
  }

  /** A second run writes nothing, and no run alters an existing claim. */
  lemma BackfillIdempotent(db: Db)
    ensures Backfilled(Backfilled(db)) == Backfilled(db)
    ensures forall h :: h in db.ledger ==> h in Backfilled(db).ledger && Backfilled(db).ledger[h] == db.ledger[h]
    ensures Backfilled(db).ledger.Keys == db.ledger.Keys + Claims(db).Keys
  {
    assert Claims(Backfilled(db)) == Claims(db);
    assert NewClaims(Backfilled(db)) == map[];
  }
}
