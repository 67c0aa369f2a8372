/** The vote snapshot: from the listed balances to the committed rows, or nothing at all. */
module VoteSnapshot {
  import opened Domain
  import opened Ordering
  import opened Sorting
  import opened VoteRecords
  import opened VoteMatching
  import opened VoteReconcile

  // ---- Provenance of listed balances ----

  /** Date and amount of the original create operation; a replacement is traced to its origin first. */
  function MetadataOf(p: Provenance, id: BalanceId, viaOrigin: bool): Option<(Instant, real)>
  {
    if id == "" then None
    else
      var source := if viaOrigin then OriginOf(p, Some(id)) else Some(id);
      if source.None? then None else p.created(source.value)
  }

  function ItemMetadata(p: Provenance, item: Item): Option<(Instant, real)>
  {
    MetadataOf(p, item.balance.id, Service(item))
  }

  /** The original creation date that decides an item: the stored one of its row, else Horizon's. */
  function OriginalDate(p: Provenance, rows: seq<Stored>, item: Item): Option<Instant>
  {
    var holder := HolderOf(rows, item.balance.id);
    if holder.Some? then holder.value.vote.createdAt
    else if ItemMetadata(p, item).Some? then Some(ItemMetadata(p, item).value.0) else None
  }

  predicate Unresolved(p: Provenance, rows: seq<Stored>, item: Item) { OriginalDate(p, rows, item).None? }

  predicate OnTimeDate(date: Option<Instant>, endAt: Instant) { date.Some? && date.value <= endAt }

  predicate OnTime(p: Provenance, rows: seq<Stored>, item: Item, endAt: Instant)
  {
    OnTimeDate(OriginalDate(p, rows, item), endAt)
  }

  /** An eligible item carries the metadata a new row would be written with. */
  function WithMetadata(p: Provenance, rows: seq<Stored>, item: Item): Item
  {
    if HolderOf(rows, item.balance.id).Some? then item else item.(metadata := ItemMetadata(p, item))
  }

  function Eligible(p: Provenance, rows: seq<Stored>, items: seq<Item>, endAt: Instant): seq<Item>
  {
    if items == [] then []
    else
      var last := items[|items| - 1];
      Eligible(p, rows, items[..|items| - 1], endAt)
          + if OnTime(p, rows, last, endAt) then [WithMetadata(p, rows, last)] else []
  }

  /** Rows of the group whose balance is still listed but was created after the end. */
  function LateHolders(p: Provenance, rows: seq<Stored>, items: seq<Item>, endAt: Instant): set<VoteId>
  {
    set item | item in items && HolderOf(rows, item.balance.id).Some?
        && !OnTime(p, rows, item, endAt) :: HolderOf(rows, item.balance.id).value.id
  }

  function OnTimeRows(rows: seq<Stored>, endAt: Instant): (r: seq<Stored>)
    ensures forall x :: x in r <==> x in rows && OnTimeDate(x.vote.createdAt, endAt)
  {
    if rows == [] then []
    else (if OnTimeDate(rows[0].vote.createdAt, endAt) then [rows[0]] else []) + OnTimeRows(rows[1..], endAt)
  }

  lemma {:induction false} EligibleExact(p: Provenance, rows: seq<Stored>, items: seq<Item>, endAt: Instant)
    ensures forall x :: x in Eligible(p, rows, items, endAt)
                        <==> exists y :: y in items && OnTime(p, rows, y, endAt) && x == WithMetadata(p, rows, y)
  {
    hide OnTime, WithMetadata;
    if items != [] {
      var n := |items| - 1;
      EligibleExact(p, rows, items[..n], endAt);
      assert items == items[..n] + [items[n]];
    }
  }

  lemma {:induction false} EligibleDistinct(p: Provenance, rows: seq<Stored>, items: seq<Item>, endAt: Instant)
    requires DistinctItems(items)
    ensures DistinctItems(Eligible(p, rows, items, endAt))
  {
    hide OnTime;
    if items != [] {
      var n := |items| - 1;
      EligibleDistinct(p, rows, items[..n], endAt);
      EligibleExact(p, rows, items[..n], endAt);
      forall x | x in Eligible(p, rows, items[..n], endAt)
        ensures x.index != items[n].index && x.balance.id != items[n].balance.id {
        var y :| y in items[..n] && OnTime(p, rows, y, endAt) && x == WithMetadata(p, rows, y);
        assert y in items[..n];
      }
    }
  }

  lemma {:induction false} OnTimeRowsDistinct(rows: seq<Stored>, endAt: Instant)
    requires DistinctRows(rows) && DistinctHolders(rows)
    ensures DistinctRows(OnTimeRows(rows, endAt)) && DistinctHolders(OnTimeRows(rows, endAt))
  {
    if rows != [] {
      OnTimeRowsDistinct(rows[1..], endAt);
      forall x | x in OnTimeRows(rows[1..], endAt)
        ensures x.id != rows[0].id && (x.vote.balanceId.Some? ==> x.vote.balanceId != rows[0].vote.balanceId)
      {
        var i :| 0 <= i < |rows[1..]| && rows[1..][i] == x;
        assert rows[i + 1] == x;
      }
    }
  }

  method LoadOriginalMetadata(ix: Indexer, id: BalanceId, viaOrigin: bool) returns (metadata: Option<(Instant, real)>)
    requires ix.Valid()
    modifies ix`cache
    ensures ix.Valid() && metadata == MetadataOf(ix.provenance, id, viaOrigin)
  {
    if id == "" {
      return None;
    }
    var source := Some(id);
    if viaOrigin {
      source := ix.ResolveOrigin(source);
      if source.None? {
        return None;
      }
    }
    return ix.provenance.created(source.value);
  }

  /** The eligibility loop: keeps the on-time items, shields late rows from the stale sweep, and
      records every balance whose provenance stays unknown. */
  method SelectEligible(ix: Indexer, rows: seq<Stored>, items: seq<Item>, endAt: Instant)
      returns (eligible: seq<Item>, processed: set<VoteId>, aborted: bool)
    requires ix.Valid()
    modifies ix`cache, ix`incomplete
    ensures ix.Valid() && old(ix.incomplete) <= ix.incomplete
    ensures (exists item :: item in items && Unresolved(ix.provenance, rows, item)) ==> ix.incomplete != {}
    ensures (forall item :: item in items ==> !Unresolved(ix.provenance, rows, item))
            ==> ix.incomplete == old(ix.incomplete) && !aborted
    ensures aborted ==> exists item :: item in items && Service(item) && Unresolved(ix.provenance, rows, item)
    ensures !aborted
            ==> eligible == Eligible(ix.provenance, rows, items, endAt)
                && processed == LateHolders(ix.provenance, rows, items, endAt)
  {
    hide MetadataOf, SelfSponsored;
    eligible, processed, aborted := [], {}, false;
    for i := 0 to |items|
      invariant ix.Valid() && !aborted && old(ix.incomplete) <= ix.incomplete
      invariant (exists item :: item in items[..i] && Unresolved(ix.provenance, rows, item)) ==> ix.incomplete != {}
      invariant (forall item :: item in items[..i] ==> !Unresolved(ix.provenance, rows, item))
                ==> ix.incomplete == old(ix.incomplete)
      invariant eligible == Eligible(ix.provenance, rows, items[..i], endAt)
      invariant processed == LateHolders(ix.provenance, rows, items[..i], endAt)
    {
      var item := items[i];
      assert item in items[..i + 1] && item in items;
      PrefixStep(ix.provenance, rows, items, i, endAt);
      var holder := HolderOf(rows, item.balance.id);
      if holder.Some? {
        var created := holder.value.vote.createdAt;
        if created.None? || !OnTimeDate(created, endAt) {
          if created.None? {
            ix.incomplete := ix.incomplete + {item.balance.id};
          }
          processed := processed + {holder.value.id};
        } else {
          eligible := eligible + [item];
        }
      } else {
        var metadata := LoadOriginalMetadata(ix, item.balance.id, Service(item));
        if metadata.None? {
          ix.incomplete := ix.incomplete + {item.balance.id};
          assert Unresolved(ix.provenance, rows, item);
          if Service(item) {
            processed := processed + set row | row in rows :: row.id;
            return eligible, processed, true;
          }
        } else if OnTimeDate(Some(metadata.value.0), endAt) {
          eligible := eligible + [item.(metadata := metadata)];
        }
      }
    }
    assert items[..|items|] == items;
  }

  lemma PrefixStep(p: Provenance, rows: seq<Stored>, items: seq<Item>, i: nat, endAt: Instant)
    requires i < |items|
    ensures Eligible(p, rows, items[..i + 1], endAt)
            == Eligible(p, rows, items[..i], endAt)
                + if OnTime(p, rows, items[i], endAt) then [WithMetadata(p, rows, items[i])] else []
    ensures var holder := HolderOf(rows, items[i].balance.id);
            LateHolders(p, rows, items[..i + 1], endAt)
            == LateHolders(p, rows, items[..i], endAt) + if holder.Some?
                && !OnTime(p, rows, items[i], endAt) then {holder.value.id} else {}
    ensures forall item :: item in items[..i + 1] <==> item in items[..i] || item == items[i]
  {
    hide OnTime, WithMetadata, HolderOf;
    assert items[..i + 1][..i] == items[..i];
    assert items[..i + 1] == items[..i] + [items[i]];
  }

  // ---- One group ----

  type Listed = (Choice, Balance)

  function NegatedAmount(l: Listed): real { -l.1.amount }

  /** The group as the matching sees it: largest amount first, ranked by position. */
  function ItemsOf(raw: seq<Listed>): seq<Item>
  {
    var sorted := Sort(raw, NegatedAmount);
    seq(|sorted|, i requires 0 <= i < |sorted| => Item(i, sorted[i].0, sorted[i].1, None))
  }

  ghost predicate DistinctListing(raw: seq<Listed>) { DistinctBy(raw, (l: Listed) => l.1.id) }

  lemma ItemsOfExact(raw: seq<Listed>)
    requires DistinctListing(raw)
    ensures DistinctItems(ItemsOf(raw))
    ensures forall x :: x in ItemsOf(raw) ==> (x.choice, x.balance) in raw && x.metadata.None?
    ensures forall l :: l in raw ==> exists x :: x in ItemsOf(raw) && (x.choice, x.balance) == l
    ensures forall i, j :: 0 <= i < j < |ItemsOf(raw)|
                           ==> ItemsOf(raw)[i].balance.amount >= ItemsOf(raw)[j].balance.amount
    ensures forall i :: 0 <= i < |ItemsOf(raw)| ==> ItemsOf(raw)[i].index == i
  {
    var sorted, items := Sort(raw, NegatedAmount), ItemsOf(raw);
    var id := (l: Listed) => l.1.id;
    SortOrders(raw, NegatedAmount);
    SortKeepsDistinct(raw, NegatedAmount, id);
    forall i, j | 0 <= i < j < |items|
      ensures items[i].balance.id != items[j].balance.id && items[i].balance.amount >= items[j].balance.amount
    {
      assert id(sorted[i]) != id(sorted[j]);
      assert NegatedAmount(sorted[i]) <= NegatedAmount(sorted[j]);
    }
    forall l | l in raw ensures exists x :: x in items && (x.choice, x.balance) == l {
      assert l in sorted;
      var k :| 0 <= k < |sorted| && sorted[k] == l;
      assert items[k] in items;
    }
    forall x | x in items ensures (x.choice, x.balance) in raw {
      var k :| 0 <= k < |items| && items[k] == x;
      assert sorted[k] in sorted;
    }
  }

  function UpdatedRow(row: Stored, item: Item, freezing: bool): Stored
  {
    Stored(row.id, ParsedVote(row.vote.key, item.index, row.vote.choice, item.balance, row.vote.createdAt,
                              row.vote.originalAmount, row.vote.votedAmount, freezing))
  }

  function NewRow(key: VoteKey, item: Item, freezing: bool): Vote
    requires item.metadata.Some?
  {
    ParsedVote(key, item.index, item.choice, item.balance, Some(item.metadata.value.0), Some(item.metadata.value.1),
               None, freezing)
  }

  function UpdatesOf(pairs: seq<Pair>, freezing: bool): seq<Stored>
  {
    seq(|pairs|, i requires 0 <= i < |pairs| => UpdatedRow(pairs[i].0, pairs[i].1, freezing))
  }

  ghost predicate AllDated(items: seq<Item>) { forall x :: x in items ==> x.metadata.Some? }

  function NewRowsOf(key: VoteKey, rest: seq<Item>, freezing: bool): seq<Vote>
    requires AllDated(rest)
  {
    seq(|rest|, i requires 0 <= i < |rest| => NewRow(key, rest[i], freezing))
  }

  ghost predicate UsableListing(s: VoteSettings, raw: seq<Listed>)
  {
    forall l :: l in raw ==> SupportedAsset(s, l.1.asset) && HasTimes(l.1)
  }

  /** Rows are stored under the key their balance is listed under. */
  ghost predicate KeyedHolders(all: seq<Stored>, existing: seq<Stored>, raw: seq<Listed>)
  {
    && (forall row :: row in existing ==> row in all)
    && (forall row, l :: row in all && l in raw && row.vote.balanceId == Some(l.1.id) ==> row in existing)
  }

  ghost predicate Resolved(p: Provenance, existing: seq<Stored>, raw: seq<Listed>)
  {
    forall item :: item in ItemsOf(raw) ==> !Unresolved(p, existing, item)
  }

  lemma HeldItemIsMatched(p: Provenance, existing: seq<Stored>, y: Item, endAt: Instant, onTime: seq<Stored>,
          eligible: seq<Item>, pairs: seq<Pair>, rest: seq<Item>)
    requires onTime == OnTimeRows(existing, endAt) && SoundMatching(p, onTime, eligible, pairs, rest)
    requires WithMetadata(p, existing, y) in eligible && OnTime(p, existing, y, endAt)
             && HolderOf(existing, y.balance.id).Some?
    ensures WithMetadata(p, existing, y).index in ItemIndexes(pairs)
  {
    var row, x := HolderOf(existing, y.balance.id).value, WithMetadata(p, existing, y);
    assert row in onTime && SameBalance(row, x);
    assert (row, x) in pairs;
  }

  lemma RestHasNoHolder(p: Provenance, all: seq<Stored>, existing: seq<Stored>, raw: seq<Listed>, endAt: Instant,
          pairs: seq<Pair>, rest: seq<Item>)
    requires DistinctListing(raw) && KeyedHolders(all, existing, raw) && DistinctHolders(existing)
    requires SoundMatching(p, OnTimeRows(existing, endAt), Eligible(p, existing, ItemsOf(raw), endAt), pairs, rest)
    ensures forall x :: x in rest ==> x.metadata.Some? && HolderOf(all, x.balance.id).None?
    ensures forall x :: x in rest ==> OnTimeDate(Some(x.metadata.value.0), endAt)
  {
    hide MetadataOf, Service;
    var items := ItemsOf(raw);
    ItemsOfExact(raw);
    EligibleExact(p, existing, items, endAt);
    forall x | x in rest
      ensures x.metadata.Some? && HolderOf(all, x.balance.id).None? && OnTimeDate(Some(x.metadata.value.0), endAt)
    {
      var y :| y in items && OnTime(p, existing, y, endAt) && x == WithMetadata(p, existing, y);
      var holder := HolderOf(existing, y.balance.id);
      if holder.Some? {
        HeldItemIsMatched(p, existing, y, endAt, OnTimeRows(existing, endAt), Eligible(p, existing, items, endAt),
                          pairs, rest);
      }
      assert holder.None?;
      assert (y.choice, y.balance) in raw;
    }
  }

  /** A balance left for a new row carries what Horizon says of its original creation. */
  lemma RestKeepsMetadata(p: Provenance, existing: seq<Stored>, raw: seq<Listed>, endAt: Instant, pairs: seq<Pair>,
          rest: seq<Item>)
    requires DistinctListing(raw)
    requires SoundMatching(p, OnTimeRows(existing, endAt), Eligible(p, existing, ItemsOf(raw), endAt), pairs, rest)
    ensures forall x :: x in rest && x.metadata.Some?
                        ==> (x.choice, x.balance) in raw
                            && x.metadata == ItemMetadata(p, Item(0, x.choice, x.balance, None))
  {
    hide MetadataOf, OnTimeRows, Eligible, OnTime;
    ItemsOfExact(raw);
    EligibleExact(p, existing, ItemsOf(raw), endAt);
    forall x | x in rest && x.metadata.Some?
      ensures (x.choice, x.balance) in raw && x.metadata == ItemMetadata(p, Item(0, x.choice, x.balance, None)) {
      assert x in Eligible(p, existing, ItemsOf(raw), endAt);
      var y :| y in ItemsOf(raw) && OnTime(p, existing, y, endAt) && x == WithMetadata(p, existing, y);
      assert Service(y) == Service(Item(0, x.choice, x.balance, None));
    }
  }

  function AsSeq<T>(o: Option<T>): seq<T> { if o.Some? then [o.value] else [] }

  /** A balance no row of the group was matched to: a new row, unless some visible row of the
      proposal already holds it, which is then updated instead. */
  method PlaceNewVote(s: VoteSettings, key: VoteKey, item: Item, all: seq<Stored>, freezing: bool)
      returns (vote: Option<Vote>, moved: Option<Stored>)
    requires item.metadata.Some?
    ensures SupportedAsset(s, item.balance.asset) && HasTimes(item.balance) ==>
              var holder := HolderOf(all, item.balance.id);
              && (holder.None? ==> vote == Some(NewRow(key, item, freezing)) && moved == None)
              && (holder.Some? ==> vote == None && moved == Some(UpdatedRow(holder.value, item, freezing)))
  {
    vote :=
        ParseVote(s, key, item.index, item.choice, item.balance, Some(item.metadata.value.0),
                  Some(item.metadata.value.1), None, freezing);
    moved := None;
    if vote.Some? {
      var holder := HolderOf(all, item.balance.id);
      if holder.Some? {
        var row := holder.value.vote;
        var update :=
            ParseVote(s, row.key, item.index, row.choice, item.balance, row.createdAt, row.originalAmount,
                      row.votedAmount, freezing);
        vote := None;
        moved := if update.Some? then Some(Stored(holder.value.id, update.value)) else None;
      }
    }
  }

  /** Every matched row takes over its balance. */
  method WriteMatches(s: VoteSettings, pairs: seq<Pair>, freezing: bool)
      returns (updates: seq<Stored>, ids: set<VoteId>)
    requires forall pair :: pair in pairs ==> SupportedAsset(s, pair.1.balance.asset) && HasTimes(pair.1.balance)
    ensures updates == UpdatesOf(pairs, freezing) && ids == RowIds(pairs)
  {
    hide SupportedAsset, HasTimes, ParsedVote;
    updates, ids := [], {};
    for i := 0 to |pairs|
      invariant updates == UpdatesOf(pairs[..i], freezing) && ids == RowIds(pairs[..i])
    {
      var row, item := pairs[i].0, pairs[i].1;
      assert pairs[i] in pairs;
      assert pairs[..i + 1] == pairs[..i] + [pairs[i]];
      assert RowIds(pairs[..i + 1]) == RowIds(pairs[..i]) + {row.id};
      var update :=
          ParseVote(s, row.vote.key, item.index, row.vote.choice, item.balance, row.vote.createdAt,
                    row.vote.originalAmount, row.vote.votedAmount, freezing);
      if update.Some? {
        updates, ids := updates + [Stored(row.id, update.value)], ids + {row.id};
      }
    }
    assert pairs[..|pairs|] == pairs;
  }

  /** Every unmatched balance becomes a new row when no visible row holds it. */
  method WriteNewRows(s: VoteSettings, key: VoteKey, rest: seq<Item>, all: seq<Stored>, freezing: bool)
      returns (created: seq<Vote>, moved: seq<Stored>, ids: set<VoteId>)
    requires AllDated(rest)
    requires forall x :: x in rest
                         ==> SupportedAsset(s, x.balance.asset) && HasTimes(x.balance)
                             && HolderOf(all, x.balance.id).None?
    ensures created == NewRowsOf(key, rest, freezing) && moved == [] && ids == {}
  {
    hide SupportedAsset, HasTimes, ParsedVote, HolderOf;
    created, moved, ids := [], [], {};
    for i := 0 to |rest|
      invariant moved == [] && ids == {}
      invariant AllDated(rest[..i]) && created == NewRowsOf(key, rest[..i], freezing)
    {
      var item := rest[i];
      assert item in rest;
      assert rest[..i + 1] == rest[..i] + [item];
      var vote, update := PlaceNewVote(s, key, item, all, freezing);
      created := created + AsSeq(vote);
      moved := moved + AsSeq(update);
      ids := ids + set row | row in AsSeq(update) :: row.id;
    }
    assert rest[..|rest|] == rest;
  }

  /** One group: matched rows are updated in place, unmatched balances become new rows. */
  method ReconcileVoteGroup(ix: Indexer, key: VoteKey, raw: seq<Listed>, existing: seq<Stored>, all: seq<Stored>,
          endAt: Instant, freezing: bool)
      returns (created: seq<Vote>, updates: seq<Stored>, processed: set<VoteId>, ghost pairs: seq<Pair>,
               ghost rest: seq<Item>)
    requires ix.Valid() && DistinctListing(raw) && UsableListing(ix.settings, raw)
    requires DistinctRows(existing) && DistinctHolders(existing) && KeyedHolders(all, existing, raw)
    modifies ix`cache, ix`incomplete
    ensures ix.Valid() && old(ix.incomplete) <= ix.incomplete
    ensures !Resolved(ix.provenance, existing, raw) ==> ix.incomplete != {}
    ensures Resolved(ix.provenance, existing, raw) ==>
              && ix.incomplete == old(ix.incomplete)
              && SoundMatching(ix.provenance, OnTimeRows(existing, endAt),
                               Eligible(ix.provenance, existing, ItemsOf(raw), endAt), pairs, rest)
              && AllDated(rest)
              && updates == UpdatesOf(pairs, freezing) && created == NewRowsOf(key, rest, freezing)
              && processed == RowIds(pairs) + LateHolders(ix.provenance, existing, ItemsOf(raw), endAt)
  {
    hide SupportedAsset, HasTimes, OnTimeRows, Eligible, LateHolders, Unresolved, ParsedVote, SoundMatching, Service,
         DistinctRows, DistinctHolders, DistinctItems;
    created, updates, pairs, rest := [], [], [], [];
    var items := ItemsOf(raw);
    ItemsOfExact(raw);
    var eligible, aborted;
    eligible, processed, aborted := SelectEligible(ix, existing, items, endAt);
    if aborted {
      return;
    }
    var onTime := OnTimeRows(existing, endAt);
    OnTimeRowsDistinct(existing, endAt);
    EligibleDistinct(ix.provenance, existing, items, endAt);
    EligibleListed(ix.provenance, existing, raw, endAt);
    ghost var byId, byOrigin, byPosition;
    var matched, unmatched;
    matched, unmatched, byId, byOrigin, byPosition := MatchGroup(ix, onTime, eligible);
    pairs, rest := matched, unmatched;
    RestHasNoHolder(ix.provenance, all, existing, raw, endAt, matched, unmatched);
    MatchedListed(ix.provenance, raw, onTime, eligible, matched, unmatched);
    var matchedIds;
    updates, matchedIds := WriteMatches(ix.settings, matched, freezing);
    var moved, movedIds;
    created, moved, movedIds := WriteNewRows(ix.settings, key, unmatched, all, freezing);
    updates, processed := updates + moved, processed + matchedIds + movedIds;
  }

  lemma EligibleListed(p: Provenance, existing: seq<Stored>, raw: seq<Listed>, endAt: Instant)
    requires DistinctListing(raw)
    ensures forall x :: x in Eligible(p, existing, ItemsOf(raw), endAt) ==> (x.choice, x.balance) in raw
  {
    hide OnTime;
    ItemsOfExact(raw);
    EligibleExact(p, existing, ItemsOf(raw), endAt);
  }

  lemma MatchedListed(p: Provenance, raw: seq<Listed>, onTime: seq<Stored>, eligible: seq<Item>, pairs: seq<Pair>,
          rest: seq<Item>)
    requires SoundMatching(p, onTime, eligible, pairs, rest)
    requires forall x :: x in eligible ==> (x.choice, x.balance) in raw
    ensures forall pair :: pair in pairs ==> (pair.1.choice, pair.1.balance) in raw
    ensures forall x :: x in rest ==> (x.choice, x.balance) in raw
  {
  }
}
