/** Matching one group of stored rows to the balances listed under the same key: exact id,
    unique origin, then position. */
module VoteMatching {
  import opened Domain
  import opened VoteRecords

  /** A listed balance of one group with its rank by amount. */
  datatype Item = Item(index: nat, choice: Choice, balance: Balance, metadata: Option<(Instant, real)>)

  type Pair = (Stored, Item)

  /** What Horizon would answer about provenance. */
  datatype Provenance = Provenance(
    origin: BalanceId -> Option<BalanceId>,
    created: BalanceId -> Option<(Instant, real)>)

  predicate Service(item: Item) { !SelfSponsored(item.balance) }

  ghost predicate DistinctRows(rows: seq<Stored>) { forall i, j :: 0 <= i < j < |rows| ==> rows[i].id != rows[j].id }

  ghost predicate DistinctItems(items: seq<Item>)
  {
    forall i, j :: 0 <= i < j < |items|
                   ==> items[i].index != items[j].index && items[i].balance.id != items[j].balance.id
  }

  ghost predicate InjectivePairs(pairs: seq<Pair>)
  {
    forall i, j :: 0 <= i < j < |pairs| ==>
      pairs[i].0.id != pairs[j].0.id && pairs[i].1.index != pairs[j].1.index
          && pairs[i].1.balance.id != pairs[j].1.balance.id
  }

  ghost predicate DrawnFrom(pairs: seq<Pair>, rows: seq<Stored>, items: seq<Item>)
  {
    forall p :: p in pairs ==> p.0 in rows && p.1 in items
  }

  function RowIds(pairs: seq<Pair>): set<VoteId> { set p | p in pairs :: p.0.id }

  function ItemIndexes(pairs: seq<Pair>): set<nat> { set p | p in pairs :: p.1.index }

  function RemainingRows(rows: seq<Stored>, matched: set<VoteId>): (r: seq<Stored>)
    ensures forall x :: x in r <==> x in rows && x.id !in matched
  {
    if rows == [] then []
    else (if rows[0].id in matched then [] else [rows[0]]) + RemainingRows(rows[1..], matched)
  }

  function RemainingItems(items: seq<Item>, matched: set<nat>): (r: seq<Item>)
    ensures forall x :: x in r <==> x in items && x.index !in matched
  {
    if items == [] then []
    else (if items[0].index in matched then [] else [items[0]]) + RemainingItems(items[1..], matched)
  }

  function ServiceItems(items: seq<Item>): (r: seq<Item>)
    ensures forall x :: x in r <==> x in items && Service(x)
  {
    if items == [] then []
    else (if Service(items[0]) then [items[0]] else []) + ServiceItems(items[1..])
  }

  lemma {:induction false} RemainingRowsDistinct(rows: seq<Stored>, matched: set<VoteId>)
    requires DistinctRows(rows)
    ensures DistinctRows(RemainingRows(rows, matched))
  {
    if rows != [] {
      RemainingRowsDistinct(rows[1..], matched);
      assert forall x :: x in RemainingRows(rows[1..], matched) ==> x in rows[1..];
    }
  }

  lemma {:induction false} RemainingItemsDistinct(items: seq<Item>, matched: set<nat>)
    requires DistinctItems(items)
    ensures DistinctItems(RemainingItems(items, matched))
  {
    if items != [] {
      RemainingItemsDistinct(items[1..], matched);
      assert forall x :: x in RemainingItems(items[1..], matched) ==> x in items[1..];
    }
  }

  lemma {:induction false} ServiceItemsDistinct(items: seq<Item>)
    requires DistinctItems(items)
    ensures DistinctItems(ServiceItems(items))
  {
    hide Service;
    if items != [] {
      ServiceItemsDistinct(items[1..]);
      forall x | x in ServiceItems(items[1..])
        ensures x.index != items[0].index && x.balance.id != items[0].balance.id {
        var i :| 0 <= i < |items[1..]| && items[1..][i] == x;
        assert items[i + 1] == x;
      }
    }
  }

  /** The row holding a balance id, as the id-keyed dictionary returns it. */
  function HolderOf(rows: seq<Stored>, id: BalanceId): (r: Option<Stored>)
    ensures r.Some? ==> r.value in rows && r.value.vote.balanceId == Some(id)
    ensures r.None? ==> forall x :: x in rows ==> x.vote.balanceId != Some(id)
  {
    if rows == [] then None
    else
      var last := rows[|rows| - 1];
      if last.vote.balanceId == Some(id) then Some(last) else HolderOf(rows[..|rows| - 1], id)
  }

  // ---- Origins ----

  function OriginOf(p: Provenance, id: Option<BalanceId>): Option<BalanceId>
  {
    if id.None? || id.value == "" then None else p.origin(id.value)
  }

  function RowsWithOrigin(p: Provenance, rows: seq<Stored>, o: BalanceId): (r: seq<Stored>)
    ensures forall x :: x in r <==> x in rows && OriginOf(p, x.vote.balanceId) == Some(o)
  {
    if rows == [] then []
    else
      var last := rows[|rows| - 1];
      RowsWithOrigin(p, rows[..|rows| - 1], o) + if OriginOf(p, last.vote.balanceId) == Some(o) then [last] else []
  }

  function ItemsWithOrigin(p: Provenance, items: seq<Item>, o: BalanceId): (r: seq<Item>)
    ensures forall x :: x in r <==> x in items && OriginOf(p, Some(x.balance.id)) == Some(o)
  {
    if items == [] then []
    else
      var last := items[|items| - 1];
      ItemsWithOrigin(p, items[..|items| - 1], o) + if OriginOf(p, Some(last.balance.id)) == Some(o) then [last] else []
  }

  /** Both sides have exactly one candidate for the origin. */
  ghost predicate UniqueOnBothSides(p: Provenance, rows: seq<Stored>, items: seq<Item>, o: BalanceId, pair: Pair)
  {
    RowsWithOrigin(p, rows, o) == [pair.0] && ItemsWithOrigin(p, items, o) == [pair.1]
  }

  function Group<K, T>(m: map<K, seq<T>>, k: K): seq<T> { if k in m then m[k] else [] }

  lemma RowGroupsGrow(p: Provenance, rows: seq<Stored>, i: nat, o: BalanceId)
    requires i < |rows|
    ensures RowsWithOrigin(p, rows[..i + 1], o)
            == RowsWithOrigin(p, rows[..i], o)
                + if OriginOf(p, rows[i].vote.balanceId) == Some(o) then [rows[i]] else []
  {
    assert rows[..i + 1][..i] == rows[..i];
  }

  lemma ItemGroupsGrow(p: Provenance, items: seq<Item>, i: nat, o: BalanceId)
    requires i < |items|
    ensures ItemsWithOrigin(p, items[..i + 1], o)
            == ItemsWithOrigin(p, items[..i], o)
                + if OriginOf(p, Some(items[i].balance.id)) == Some(o) then [items[i]] else []
  {
    assert items[..i + 1][..i] == items[..i];
  }

  /** Filing one element under its key, if it has one, extends that group and no other. */
  function Filed<K(!new), T>(groups: map<K, seq<T>>, key: Option<K>, x: T): (r: map<K, seq<T>>)
    ensures forall k :: Group(r, k) == Group(groups, k) + if key == Some(k) then [x] else []
    ensures forall k :: k in r <==> k in groups || key == Some(k)
  {
    if key.Some? then groups[key.value := Group(groups, key.value) + [x]] else groups
  }

  lemma NoGroups<K(!new), T>()
    ensures forall k :: Group<K, T>(map[], k) == []
  {
  }

  lemma NoItemsNoGroups(p: Provenance)
    ensures forall o :: RowsWithOrigin(p, [], o) == [] && ItemsWithOrigin(p, [], o) == []
  {
  }

  /** The per-snapshot state the matching shares: the origin cache and the ids that stay unresolved. */
  class Indexer {
    const settings: VoteSettings
    const provenance: Provenance
    var cache: map<BalanceId, Option<BalanceId>>
    var incomplete: set<BalanceId>

    ghost predicate Valid()
      reads this
    {
      forall b :: b in cache ==> cache[b] == provenance.origin(b)
    }

    constructor (settings: VoteSettings, provenance: Provenance)
      ensures Valid() && incomplete == {} && this.settings == settings && this.provenance == provenance
    {
      this.settings, this.provenance, cache, incomplete := settings, provenance, map[], {};
    }

    method ResolveOrigin(id: Option<BalanceId>) returns (origin: Option<BalanceId>)
      requires Valid()
      modifies this`cache
      ensures Valid() && origin == OriginOf(provenance, id)
    {
      if id.None? || id.value == "" {
        return None;
      }
      if id.value in cache {
        return cache[id.value];
      }
      origin := provenance.origin(id.value);
      cache := cache[id.value := origin];
    }

    method GroupRowsByOrigin(rows: seq<Stored>) returns (groups: map<BalanceId, seq<Stored>>)
      requires Valid()
      modifies this`cache
      ensures Valid() && forall o :: Group(groups, o) == RowsWithOrigin(provenance, rows, o)
    {
      hide OriginOf, RowsWithOrigin, Group, Filed;
      NoItemsNoGroups(provenance);
      groups := map[];
      NoGroups<BalanceId, Stored>();
      assert rows[..0] == [];
      for i := 0 to |rows|
        invariant Valid()
        invariant forall o :: Group(groups, o) == RowsWithOrigin(provenance, rows[..i], o)
      {
        var origin := ResolveOrigin(rows[i].vote.balanceId);
        forall o ensures RowsWithOrigin(provenance, rows[..i + 1], o)
                         == RowsWithOrigin(provenance, rows[..i], o) + if origin == Some(o) then [rows[i]] else [] {
          RowGroupsGrow(provenance, rows, i, o);
        }
        groups := Filed(groups, origin, rows[i]);
      }
      assert rows[..|rows|] == rows;
    }

    method GroupItemsByOrigin(items: seq<Item>) returns (groups: map<BalanceId, seq<Item>>, order: seq<BalanceId>)
      requires Valid()
      modifies this`cache
      ensures Valid() && forall o :: Group(groups, o) == ItemsWithOrigin(provenance, items, o)
      ensures forall o :: o in order <==> o in groups
      ensures forall i, j :: 0 <= i < j < |order| ==> order[i] != order[j]
    {
      hide OriginOf, ItemsWithOrigin, Group, Filed;
      NoItemsNoGroups(provenance);
      groups, order := map[], [];
      NoGroups<BalanceId, Item>();
      assert items[..0] == [];
      for i := 0 to |items|
        invariant Valid()
        invariant forall o :: Group(groups, o) == ItemsWithOrigin(provenance, items[..i], o)
        invariant forall o :: o in order <==> o in groups
        invariant forall i, j :: 0 <= i < j < |order| ==> order[i] != order[j]
      {
        var origin := ResolveOrigin(Some(items[i].balance.id));
        forall o ensures ItemsWithOrigin(provenance, items[..i + 1], o)
                         == ItemsWithOrigin(provenance, items[..i], o) + if origin == Some(o) then [items[i]] else [] {
          ItemGroupsGrow(provenance, items, i, o);
        }
        if origin.Some? && origin.value !in groups {
          order := order + [origin.value];
        }
        groups := Filed(groups, origin, items[i]);
      }
      assert items[..|items|] == items;
    }

    /** Pairs a row with a replacement exactly when both are the only ones of their origin. */
    method MatchByOrigin(rows: seq<Stored>, items: seq<Item>) returns (pairs: seq<Pair>)
      requires Valid() && DistinctRows(rows) && DistinctItems(items)
      modifies this`cache
      ensures Valid() && DrawnFrom(pairs, rows, items) && InjectivePairs(pairs)
      ensures forall pair :: pair in pairs <==> exists o :: UniqueOnBothSides(provenance, rows, items, o, pair)
    {
      hide OriginOf, RowsWithOrigin, ItemsWithOrigin, DrawnFrom, InjectivePairs;
      var rowGroups := GroupRowsByOrigin(rows);
      var itemGroups, order := GroupItemsByOrigin(items);
      pairs := [];
      ghost var origins: seq<BalanceId> := [];
      for k := 0 to |order|
        invariant Valid()
        invariant |origins| == |pairs|
        invariant forall i :: 0 <= i < |pairs|
                              ==> origins[i] in order[..k]
                                  && UniqueOnBothSides(provenance, rows, items, origins[i], pairs[i])
        invariant forall i, j :: 0 <= i < j < |origins| ==> origins[i] != origins[j]
        invariant forall i, pair :: 0 <= i < k && UniqueOnBothSides(provenance, rows, items, order[i], pair)
                                    ==> pair in pairs
      {
        var found, listed := Group(rowGroups, order[k]), itemGroups[order[k]];
        assert listed == Group(itemGroups, order[k]);
        if |listed| == 1 && |found| == 1 {
          assert found == [found[0]] && listed == [listed[0]];
          pairs, origins := pairs + [(found[0], listed[0])], origins + [order[k]];
        }
      }
      UniqueOriginsInject(provenance, rows, items, origins, pairs);
      forall pair, o | UniqueOnBothSides(provenance, rows, items, o, pair) ensures pair in pairs {
        assert Group(itemGroups, o) == [pair.1];
        assert o in order;
      }
    }
  }

  lemma UniqueOriginsInject(p: Provenance, rows: seq<Stored>, items: seq<Item>, origins: seq<BalanceId>,
          pairs: seq<Pair>)
    requires DistinctRows(rows) && DistinctItems(items) && |origins| == |pairs|
    requires forall i :: 0 <= i < |pairs| ==> UniqueOnBothSides(p, rows, items, origins[i], pairs[i])
    requires forall i, j :: 0 <= i < j < |origins| ==> origins[i] != origins[j]
    ensures DrawnFrom(pairs, rows, items) && InjectivePairs(pairs)
  {
    forall i | 0 <= i < |pairs|
      ensures pairs[i].0 in rows && OriginOf(p, pairs[i].0.vote.balanceId) == Some(origins[i])
      ensures pairs[i].1 in items && OriginOf(p, Some(pairs[i].1.balance.id)) == Some(origins[i])
    {
      assert pairs[i].0 in RowsWithOrigin(p, rows, origins[i]) && pairs[i].1 in ItemsWithOrigin(p, items, origins[i]);
    }
    forall i, j | 0 <= i < j < |pairs|
      ensures pairs[i].0.id != pairs[j].0.id && pairs[i].1.index != pairs[j].1.index
              && pairs[i].1.balance.id != pairs[j].1.balance.id
    {
      assert pairs[i].0 != pairs[j].0 && pairs[i].1 != pairs[j].1;
    }
  }
}
