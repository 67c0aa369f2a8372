/** Reconciliation of one vote group: which listed balances count, which stored row each one
    belongs to, and what is written for it. */
module VoteReconcile {
  import opened Domain
  import opened Sorting
  import opened VoteRecords
  import opened VoteMatching

  ghost predicate DistinctHolders(rows: seq<Stored>)
  {
    forall i, j :: 0 <= i < j < |rows| && rows[i].vote.balanceId.Some?
                   ==> rows[i].vote.balanceId != rows[j].vote.balanceId
  }

  ghost predicate SameBalance(row: Stored, item: Item) { row.vote.balanceId == Some(item.balance.id) }

  // ---- The three phases ----

  /** Phase one: rows whose balance is still listed. */
  method MatchById(items: seq<Item>, rows: seq<Stored>) returns (pairs: seq<Pair>)
    requires DistinctRows(rows) && DistinctItems(items) && DistinctHolders(rows)
    ensures DrawnFrom(pairs, rows, items) && InjectivePairs(pairs)
    ensures forall row, item :: (row, item) in pairs <==> row in rows && item in items && SameBalance(row, item)
  {
    pairs := [];
    var matched: set<VoteId> := {};
    for i := 0 to |items|
      invariant matched == RowIds(pairs)
      invariant InjectivePairs(pairs)
      invariant forall row, item :: (row, item) in pairs
                                    <==> row in rows && item in items[..i] && SameBalance(row, item)
    {
      var holder := HolderOf(rows, items[i].balance.id);
      if holder.Some? && holder.value.id !in matched {
        NextExactPair(pairs, rows, items, i, holder.value);
        pairs := pairs + [(holder.value, items[i])];
        matched := matched + {holder.value.id};
      } else {
        NoNextExactPair(pairs, rows, items, i);
      }
    }
  }

  lemma SameIdSameRow(rows: seq<Stored>, a: Stored, b: Stored)
    requires DistinctRows(rows) && a in rows && b in rows && a.id == b.id
    ensures a == b
  {
  }

  lemma SameHolderSameRow(rows: seq<Stored>, a: Stored, b: Stored)
    requires DistinctHolders(rows) && a in rows && b in rows && a.vote.balanceId.Some?
             && a.vote.balanceId == b.vote.balanceId
    ensures a == b
  {
  }

  lemma NextExactPair(pairs: seq<Pair>, rows: seq<Stored>, items: seq<Item>, i: nat, row: Stored)
    requires DistinctRows(rows) && DistinctItems(items) && DistinctHolders(rows) && i < |items|
    requires InjectivePairs(pairs) && row in rows && SameBalance(row, items[i]) && row.id !in RowIds(pairs)
    requires forall r, item :: (r, item) in pairs <==> r in rows && item in items[..i] && SameBalance(r, item)
    ensures var longer := pairs + [(row, items[i])];
            && InjectivePairs(longer) && RowIds(longer) == RowIds(pairs) + {row.id}
            && forall r, item :: (r, item) in longer <==> r in rows && item in items[..i + 1] && SameBalance(r, item)
  {
    var longer := pairs + [(row, items[i])];
    assert items[..i + 1] == items[..i] + [items[i]];
    forall k | 0 <= k < |pairs|
      ensures pairs[k].0.id != row.id && pairs[k].1.index != items[i].index
      && pairs[k].1.balance.id != items[i].balance.id {
      assert pairs[k] in pairs && (pairs[k].0, pairs[k].1) in pairs;
      assert pairs[k].0.id in RowIds(pairs);
      assert pairs[k].1 in items[..i];
    }
    forall r, item | r in rows && item in items[..i + 1] && SameBalance(r, item) ensures (r, item) in longer {
      if item == items[i] {
        SameHolderSameRow(rows, r, row);
      }
    }
    assert RowIds(longer) == RowIds(pairs) + {row.id} by {
      assert forall p :: p in longer <==> p in pairs || p == (row, items[i]);
    }
  }

  lemma NoNextExactPair(pairs: seq<Pair>, rows: seq<Stored>, items: seq<Item>, i: nat)
    requires DistinctRows(rows) && DistinctItems(items) && DistinctHolders(rows) && i < |items|
    requires var h := HolderOf(rows, items[i].balance.id); h.Some? ==> h.value.id in RowIds(pairs)
    requires forall r, item :: (r, item) in pairs <==> r in rows && item in items[..i] && SameBalance(r, item)
    ensures forall r, item :: (r, item) in pairs <==> r in rows && item in items[..i + 1] && SameBalance(r, item)
  {
    assert items[..i + 1] == items[..i] + [items[i]];
    var h := HolderOf(rows, items[i].balance.id);
    if h.Some? {
      var p :| p in pairs && p.0.id == h.value.id;
      assert (p.0, p.1) in pairs;
      SameIdSameRow(rows, p.0, h.value);
      assert false;
    }
  }

  /** Ranks agree along the pairs, and whatever is left over on either side ranks after them. */
  ghost predicate PairedByRank(rows: seq<Stored>, items: seq<Item>, pairs: seq<Pair>)
  {
    && |pairs| == (if |rows| < |items| then |rows| else |items|)
    && (forall i, j :: 0 <= i < j < |pairs|
                       ==> pairs[i].0.vote.groupIndex <= pairs[j].0.vote.groupIndex
                           && pairs[i].1.index < pairs[j].1.index)
    && (forall i, row :: 0 <= i < |pairs| && row in rows && row.id !in RowIds(pairs)
                         ==> pairs[i].0.vote.groupIndex <= row.vote.groupIndex)
    && (forall i, item :: 0 <= i < |pairs| && item in items && item.index !in ItemIndexes(pairs)
                          ==> pairs[i].1.index < item.index)
  }

  /** Phase three: what is left of rows and replacements, paired by rank. */
  method MatchByPosition(rows: seq<Stored>, items: seq<Item>) returns (pairs: seq<Pair>)
    requires DistinctRows(rows) && DistinctItems(items)
    ensures DrawnFrom(pairs, rows, items) && InjectivePairs(pairs) && PairedByRank(rows, items, pairs)
    ensures (forall row :: row in rows ==> row.id in RowIds(pairs))
            || (forall item :: item in items ==> item.index in ItemIndexes(pairs))
  {
    var byIndex := Sort(rows, (r: Stored) => r.vote.groupIndex as real);
    var byRank := Sort(items, (x: Item) => x.index as real);
    SortKeepsDistinct(rows, (r: Stored) => r.vote.groupIndex as real, (r: Stored) => r.id);
    SortKeepsDistinct(items, (x: Item) => x.index as real, (x: Item) => x.index);
    SortKeepsDistinct(items, (x: Item) => x.index as real, (x: Item) => x.balance.id);
    var count := if |byIndex| < |byRank| then |byIndex| else |byRank|;
    pairs := [];
    for k := 0 to count
      invariant |pairs| == k
      invariant forall i :: 0 <= i < k ==> pairs[i] == (byIndex[i], byRank[i])
    {
      pairs := pairs + [(byIndex[k], byRank[k])];
    }
    ZipCovers(pairs, byIndex, byRank, rows, items);
    SortOrders(rows, (r: Stored) => r.vote.groupIndex as real);
    SortOrders(items, (x: Item) => x.index as real);
    ZipRanks(pairs, byIndex, byRank, rows, items);
  }

  lemma ZipRanks(pairs: seq<Pair>, byIndex: seq<Stored>, byRank: seq<Item>, rows: seq<Stored>, items: seq<Item>)
    requires |byIndex| == |rows| && |byRank| == |items| && |pairs| == (if |rows| < |items| then |rows| else |items|)
    requires forall i :: 0 <= i < |pairs| ==> pairs[i] == (byIndex[i], byRank[i])
    requires (forall x :: x in byIndex <==> x in rows) && (forall x :: x in byRank <==> x in items)
    requires SortedBy(byIndex, (r: Stored) => r.vote.groupIndex as real)
             && SortedBy(byRank, (x: Item) => x.index as real)
    requires DistinctBy(byRank, (x: Item) => x.index)
    ensures PairedByRank(rows, items, pairs)
  {
    hide RowIds, ItemIndexes;
    var group, rank, index :=
        (r: Stored) => r.vote.groupIndex as real, (x: Item) => x.index as real, (x: Item) => x.index;
    forall i, j | 0 <= i < j < |byIndex| ensures byIndex[i].vote.groupIndex <= byIndex[j].vote.groupIndex {
      assert group(byIndex[i]) <= group(byIndex[j]);
    }
    forall i, j | 0 <= i < j < |byRank| ensures byRank[i].index < byRank[j].index {
      assert rank(byRank[i]) <= rank(byRank[j]) && index(byRank[i]) != index(byRank[j]);
    }
    forall i, row | 0 <= i < |pairs| && row in rows && row.id !in RowIds(pairs)
      ensures pairs[i].0.vote.groupIndex <= row.vote.groupIndex {
      var k :| 0 <= k < |byIndex| && byIndex[k] == row;
      PairIsTaken(pairs, k);
    }
    forall i, item | 0 <= i < |pairs| && item in items && item.index !in ItemIndexes(pairs)
      ensures pairs[i].1.index < item.index {
      var k :| 0 <= k < |byRank| && byRank[k] == item;
      PairIsTaken(pairs, k);
    }
  }

  lemma PairIsTaken(pairs: seq<Pair>, k: nat)
    ensures k < |pairs| ==> pairs[k].0.id in RowIds(pairs) && pairs[k].1.index in ItemIndexes(pairs)
  {
    if k < |pairs| {
      assert pairs[k] in pairs;
    }
  }

  lemma ZipCovers(pairs: seq<Pair>, byIndex: seq<Stored>, byRank: seq<Item>, rows: seq<Stored>, items: seq<Item>)
    requires |pairs| == (if |byIndex| < |byRank| then |byIndex| else |byRank|)
    requires forall i :: 0 <= i < |pairs| ==> pairs[i] == (byIndex[i], byRank[i])
    requires forall x :: x in byIndex <==> x in rows
    requires forall x :: x in byRank <==> x in items
    requires DistinctBy(byIndex, (r: Stored) => r.id)
    requires DistinctBy(byRank, (x: Item) => x.index) && DistinctBy(byRank, (x: Item) => x.balance.id)
    ensures DrawnFrom(pairs, rows, items) && InjectivePairs(pairs)
    ensures (forall row :: row in rows ==> row.id in RowIds(pairs))
            || (forall item :: item in items ==> item.index in ItemIndexes(pairs))
  {
    var rowId, itemIndex, itemId := (r: Stored) => r.id, (x: Item) => x.index, (x: Item) => x.balance.id;
    forall i, j | 0 <= i < j < |pairs|
      ensures pairs[i].0.id != pairs[j].0.id && pairs[i].1.index != pairs[j].1.index
              && pairs[i].1.balance.id != pairs[j].1.balance.id
    {
      assert rowId(byIndex[i]) != rowId(byIndex[j]) && itemIndex(byRank[i]) != itemIndex(byRank[j])
             && itemId(byRank[i]) != itemId(byRank[j]);
    }
    if |byIndex| < |byRank| {
      forall row | row in rows ensures row.id in RowIds(pairs) {
        var k :| 0 <= k < |byIndex| && byIndex[k] == row;
        assert pairs[k] in pairs;
      }
    } else {
      forall item | item in items ensures item.index in ItemIndexes(pairs) {
        var k :| 0 <= k < |byRank| && byRank[k] == item;
        assert pairs[k] in pairs;
      }
    }
  }

  // ---- The phases together ----

  ghost predicate Untouched(a: seq<Pair>, b: seq<Pair>)
  {
    forall p :: p in b ==> p.0.id !in RowIds(a) && p.1.index !in ItemIndexes(a)
  }

  lemma JoinPairs(rows: seq<Stored>, items: seq<Item>, a: seq<Pair>, b: seq<Pair>)
    requires DistinctItems(items)
    requires DrawnFrom(a, rows, items) && DrawnFrom(b, rows, items) && InjectivePairs(a) && InjectivePairs(b)
             && Untouched(a, b)
    ensures DrawnFrom(a + b, rows, items) && InjectivePairs(a + b)
    ensures RowIds(a + b) == RowIds(a) + RowIds(b) && ItemIndexes(a + b) == ItemIndexes(a) + ItemIndexes(b)
  {
    var all := a + b;
    forall p | p in all ensures p.0 in rows && p.1 in items {
      assert p in a || p in b;
    }
    forall i, j | 0 <= i < j < |all|
      ensures all[i].0.id != all[j].0.id && all[i].1.index != all[j].1.index
              && all[i].1.balance.id != all[j].1.balance.id
    {
      if i < |a| <= j {
        assert all[i] in a && all[j] in b;
        assert all[i].0.id in RowIds(a) && all[i].1.index in ItemIndexes(a);
        DistinctItemsDiffer(items, all[i].1, all[j].1);
      }
    }
    assert forall p :: p in all <==> p in a || p in b;
  }

  lemma DistinctItemsDiffer(items: seq<Item>, x: Item, y: Item)
    requires DistinctItems(items) && x in items && y in items && x.index != y.index
    ensures x.balance.id != y.balance.id
  {
  }

  lemma RestOf(rows: seq<Stored>, items: seq<Item>, a: seq<Pair>, b: seq<Pair>)
    requires DrawnFrom(b, RemainingRows(rows, RowIds(a)), ServiceItems(RemainingItems(items, ItemIndexes(a))))
    ensures DrawnFrom(b, rows, items) && Untouched(a, b)
  {
    hide Service;
    forall p | p in b ensures p.0 in rows && p.1 in items && p.0.id !in RowIds(a) && p.1.index !in ItemIndexes(a) {
      assert p.0 in RemainingRows(rows, RowIds(a)) && p.1 in ServiceItems(RemainingItems(items, ItemIndexes(a)));
    }
  }

  /** What a finished matching guarantees. */
  ghost predicate SoundMatching(p: Provenance, rows: seq<Stored>, items: seq<Item>, pairs: seq<Pair>, rest: seq<Item>)
  {
    && DrawnFrom(pairs, rows, items) && InjectivePairs(pairs) && DistinctItems(rest)
    && (forall x :: x in rest <==> x in items && x.index !in ItemIndexes(pairs))
    && (forall row, item :: row in rows && item in items && SameBalance(row, item) ==> (row, item) in pairs)
    && (forall pair :: pair in pairs ==> SameBalance(pair.0, pair.1) || Service(pair.1))
    && ((exists item :: item in rest && Service(item)) ==> forall row :: row in rows ==> row.id in RowIds(pairs))
  }

  /** The replacements no pair has taken yet. */
  function OpenItems(items: seq<Item>, taken: seq<Pair>): seq<Item>
  {
    ServiceItems(RemainingItems(items, ItemIndexes(taken)))
  }

  function OpenRows(rows: seq<Stored>, taken: seq<Pair>): seq<Stored> { RemainingRows(rows, RowIds(taken)) }

  /** The pairs, phase by phase; each phase works on what the earlier ones left open. */
  ghost predicate Phases(p: Provenance, rows: seq<Stored>, items: seq<Item>, byId: seq<Pair>, byOrigin: seq<Pair>,
          byPosition: seq<Pair>)
  {
    && (forall row, item :: (row, item) in byId <==> row in rows && item in items && SameBalance(row, item))
    && (forall pair :: pair in byOrigin
                       <==> exists o :: UniqueOnBothSides(p, OpenRows(rows, byId), OpenItems(items, byId), o, pair))
    && PairedByRank(OpenRows(rows, byId + byOrigin), OpenItems(items, byId + byOrigin), byPosition)
  }

  /** Exact id, then unique origin, then position: an injective matching that never leaves both
      a row and a replacement over. */
  method MatchGroup(ix: Indexer, rows: seq<Stored>, items: seq<Item>)
      returns (pairs: seq<Pair>, rest: seq<Item>, ghost byId: seq<Pair>, ghost byOrigin: seq<Pair>,
               ghost byPosition: seq<Pair>)
    requires ix.Valid() && DistinctRows(rows) && DistinctItems(items) && DistinctHolders(rows)
    modifies ix`cache
    ensures ix.Valid() && SoundMatching(ix.provenance, rows, items, pairs, rest)
    ensures pairs == byId + byOrigin + byPosition && Phases(ix.provenance, rows, items, byId, byOrigin, byPosition)
  {
    hide Service, UniqueOnBothSides, InjectivePairs, DistinctItems, DistinctRows, SameBalance, PairedByRank,
         RemainingRows, RemainingItems, ServiceItems;
    var exact := MatchById(items, rows);
    RemainingRowsDistinct(rows, RowIds(exact));
    RemainingItemsDistinct(items, ItemIndexes(exact));
    ServiceItemsDistinct(RemainingItems(items, ItemIndexes(exact)));
    var traced := ix.MatchByOrigin(OpenRows(rows, exact), OpenItems(items, exact));
    RestOf(rows, items, exact, traced);
    JoinPairs(rows, items, exact, traced);
    var first := exact + traced;
    RemainingRowsDistinct(rows, RowIds(first));
    RemainingItemsDistinct(items, ItemIndexes(first));
    ServiceItemsDistinct(RemainingItems(items, ItemIndexes(first)));
    var ranked := MatchByPosition(OpenRows(rows, first), OpenItems(items, first));
    RestOf(rows, items, first, ranked);
    JoinPairs(rows, items, first, ranked);
    pairs := first + ranked;
    rest := RemainingItems(items, ItemIndexes(pairs));
    RemainingItemsDistinct(items, ItemIndexes(pairs));
    OnlyServicePairs(rows, items, exact, traced, ranked);
    NeverBothLeft(rows, items, first, ranked);
    byId, byOrigin, byPosition := exact, traced, ranked;
  }

  lemma {:induction false} OnlyServicePairs(rows: seq<Stored>, items: seq<Item>, byId: seq<Pair>, byOrigin: seq<Pair>,
          byPosition: seq<Pair>)
    requires forall row, item :: (row, item) in byId <==> row in rows && item in items && SameBalance(row, item)
    requires DrawnFrom(byOrigin, RemainingRows(rows, RowIds(byId)),
                       ServiceItems(RemainingItems(items, ItemIndexes(byId))))
    requires DrawnFrom(byPosition, RemainingRows(rows, RowIds(byId + byOrigin)),
                       ServiceItems(RemainingItems(items, ItemIndexes(byId + byOrigin))))
    ensures forall pair :: pair in byId + byOrigin + byPosition ==> SameBalance(pair.0, pair.1) || Service(pair.1)
    ensures forall row, item :: row in rows && item in items && SameBalance(row, item)
                                ==> (row, item) in byId + byOrigin + byPosition
  {
    hide Service, SameBalance;
    forall pair | pair in byId + byOrigin + byPosition ensures SameBalance(pair.0, pair.1) || Service(pair.1) {
      if pair in byId {
        assert (pair.0, pair.1) in byId;
      } else if pair in byOrigin {
        assert pair.1 in ServiceItems(RemainingItems(items, ItemIndexes(byId)));
      } else {
        assert pair in byPosition;
        assert pair.1 in ServiceItems(RemainingItems(items, ItemIndexes(byId + byOrigin)));
      }
    }
  }

  lemma NeverBothLeft(rows: seq<Stored>, items: seq<Item>, first: seq<Pair>, byPosition: seq<Pair>)
    requires RowIds(first + byPosition) == RowIds(first) + RowIds(byPosition)
    requires ItemIndexes(first + byPosition) == ItemIndexes(first) + ItemIndexes(byPosition)
    requires (forall row :: row in RemainingRows(rows, RowIds(first)) ==> row.id in RowIds(byPosition))
             || (forall item :: item in ServiceItems(RemainingItems(items, ItemIndexes(first)))
                                ==> item.index in ItemIndexes(byPosition))
    ensures (exists item :: item in RemainingItems(items, ItemIndexes(first + byPosition)) && Service(item))
            ==> forall row :: row in rows ==> row.id in RowIds(first + byPosition)
  {
    hide Service;
    if item :| item in RemainingItems(items, ItemIndexes(first + byPosition)) && Service(item) {
      assert item in ServiceItems(RemainingItems(items, ItemIndexes(first)));
      forall row | row in rows ensures row.id in RowIds(first + byPosition) {
        if row.id !in RowIds(first) {
          assert row in RemainingRows(rows, RowIds(first));
        }
      }
    }
  }
}
