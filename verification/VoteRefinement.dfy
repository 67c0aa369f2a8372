/** What a set of computed writes says about the listed balances it covers, group by group. */
module VoteRefinement {
  import opened Domain
  import opened Sorting
  import opened VoteRecords
  import opened VoteMatching
  import opened VoteReconcile
  import opened VoteSnapshot

  /** The row states the listed balance: identity, amount, link, and the frozen weight if asked for. */
  ghost predicate WrittenFor(v: Vote, l: Listed, freezing: bool)
  {
    && v.balanceId == Some(l.1.id) && v.amount == Some(l.1.amount) && v.link == l.1.link
    && !v.claimed && !v.hidden && v.key == KeyOf(l.0, l.1)
    && (freezing ==> v.votedAmount == Some(l.1.amount))
  }

  ghost predicate WrittenForSome(v: Vote, covered: seq<Listed>, freezing: bool)
  {
    exists l :: l in covered && WrittenFor(v, l, freezing)
  }

  ghost predicate HasUpdate(updates: seq<Stored>, id: VoteId) { exists i :: 0 <= i < |updates| && updates[i].id == id }

  ghost predicate Moves(updates: seq<Stored>, id: VoteId, b: Option<BalanceId>)
  {
    exists i :: 0 <= i < |updates| && updates[i].id == id && updates[i].vote.balanceId == b
  }

  ghost predicate Places(updates: seq<Stored>, created: seq<Vote>, b: BalanceId)
  {
    || (exists i :: 0 <= i < |updates| && updates[i].vote.balanceId == Some(b))
    || (exists i :: 0 <= i < |created| && created[i].balanceId == Some(b))
  }

  ghost predicate FromOnTimeRow(all: seq<Stored>, u: Stored, keys: set<VoteKey>, endAt: Instant)
  {
    exists row :: row in all && row.id == u.id && OnTimeDate(row.vote.createdAt, endAt) && row.vote.key in keys
                  && u.vote.key == row.vote.key
  }

  ghost predicate DistinctBalances(updates: seq<Stored>, created: seq<Vote>)
  {
    && (forall i, j :: 0 <= i < j < |updates| ==> updates[i].vote.balanceId != updates[j].vote.balanceId)
    && (forall i, j :: 0 <= i < j < |created| ==> created[i].balanceId != created[j].balanceId)
    && (forall i, j :: 0 <= i < |updates| && 0 <= j < |created| ==> updates[i].vote.balanceId != created[j].balanceId)
  }

  /** The writes stand for exactly the covered balances, over distinct on-time rows. */
  ghost predicate WriteLaw(all: seq<Stored>, updates: seq<Stored>, created: seq<Vote>, processed: set<VoteId>,
                           covered: seq<Listed>, keys: set<VoteKey>, endAt: Instant, freezing: bool)
  {
    && DistinctRows(updates)
    && DistinctBalances(updates, created)
    && (forall u :: u in updates
                    ==> FromOnTimeRow(all, u, keys, endAt) && WrittenForSome(u.vote, covered, freezing)
                        && u.id in processed)
    && (forall v :: v in created ==> OnTimeDate(v.createdAt, endAt) && WrittenForSome(v, covered, freezing))
    && (forall l :: l in covered ==> Places(updates, created, l.1.id) && KeyOf(l.0, l.1) in keys)
    && (forall row, l :: row in all && l in covered && row.vote.balanceId == Some(l.1.id)
                         ==> Moves(updates, row.id, row.vote.balanceId))
    && (forall row :: row in all && row.id in processed
                      ==> HasUpdate(updates, row.id) || !OnTimeDate(row.vote.createdAt, endAt))
  }

  lemma NothingWritten(all: seq<Stored>, endAt: Instant, freezing: bool)
    ensures WriteLaw(all, [], [], {}, [], {}, endAt, freezing)
  {
  }

  // ---- Writes of separate groups combine ----

  lemma JoinedBalances(all: seq<Stored>, u1: seq<Stored>, c1: seq<Vote>, k1: seq<Listed>, u2: seq<Stored>,
          c2: seq<Vote>, k2: seq<Listed>, freezing: bool)
    requires DistinctBalances(u1, c1) && DistinctBalances(u2, c2)
    requires forall u :: u in u1 ==> WrittenForSome(u.vote, k1, freezing)
    requires forall v :: v in c1 ==> WrittenForSome(v, k1, freezing)
    requires forall u :: u in u2 ==> WrittenForSome(u.vote, k2, freezing)
    requires forall v :: v in c2 ==> WrittenForSome(v, k2, freezing)
    requires forall a, b :: a in k1 && b in k2 ==> a.1.id != b.1.id
    ensures DistinctBalances(u1 + u2, c1 + c2)
  {
    forall a, b | a in u1 && b in u2 ensures a.vote.balanceId != b.vote.balanceId {
      DifferentBalances(a.vote, b.vote, k1, k2, freezing);
    }
    forall a, b | a in u1 && b in c2 ensures a.vote.balanceId != b.balanceId {
      DifferentBalances(a.vote, b, k1, k2, freezing);
    }
    forall a, b | a in c1 && b in u2 ensures a.balanceId != b.vote.balanceId {
      DifferentBalances(a, b.vote, k1, k2, freezing);
    }
    forall a, b | a in c1 && b in c2 ensures a.balanceId != b.balanceId {
      DifferentBalances(a, b, k1, k2, freezing);
    }
  }

  lemma DifferentBalances(a: Vote, b: Vote, k1: seq<Listed>, k2: seq<Listed>, freezing: bool)
    requires WrittenForSome(a, k1, freezing) && WrittenForSome(b, k2, freezing)
    requires forall x, y :: x in k1 && y in k2 ==> x.1.id != y.1.id
    ensures a.balanceId != b.balanceId
  {
    var x :| x in k1 && WrittenFor(a, x, freezing);
    var y :| y in k2 && WrittenFor(b, y, freezing);
  }

  lemma JoinedRows(all: seq<Stored>, u1: seq<Stored>, keys1: set<VoteKey>, u2: seq<Stored>, keys2: set<VoteKey>,
          endAt: Instant)
    requires DistinctRows(all) && DistinctRows(u1) && DistinctRows(u2) && keys1 !! keys2
    requires forall u :: u in u1 ==> FromOnTimeRow(all, u, keys1, endAt)
    requires forall u :: u in u2 ==> FromOnTimeRow(all, u, keys2, endAt)
    ensures DistinctRows(u1 + u2)
  {
    forall a, b | a in u1 && b in u2 ensures a.id != b.id {
      var x :| x in all && x.id == a.id && x.vote.key in keys1;
      var y :| y in all && y.id == b.id && y.vote.key in keys2;
      if x.id == y.id {
        SameIdSameRow(all, x, y);
      }
    }
  }

  lemma {:induction false} JoinedWrites(all: seq<Stored>, u1: seq<Stored>, c1: seq<Vote>, p1: set<VoteId>,
          k1: seq<Listed>, keys1: set<VoteKey>, u2: seq<Stored>, c2: seq<Vote>, p2: set<VoteId>, k2: seq<Listed>,
          keys2: set<VoteKey>, endAt: Instant, freezing: bool)
    requires DistinctRows(all) && keys1 !! keys2
    requires WriteLaw(all, u1, c1, p1, k1, keys1, endAt, freezing)
             && WriteLaw(all, u2, c2, p2, k2, keys2, endAt, freezing)
    requires forall a, b :: a in k1 && b in k2 ==> a.1.id != b.1.id
    ensures WriteLaw(all, u1 + u2, c1 + c2, p1 + p2, k1 + k2, keys1 + keys2, endAt, freezing)
  {
    hide KeyOf, OnTimeDate, WrittenFor, DistinctRows;
    JoinedBalances(all, u1, c1, k1, u2, c2, k2, freezing);
    JoinedRows(all, u1, keys1, u2, keys2, endAt);
    forall v | WrittenForSome(v, k1, freezing) || WrittenForSome(v, k2, freezing)
      ensures WrittenForSome(v, k1 + k2, freezing) {
      var l :| (l in k1 || l in k2) && WrittenFor(v, l, freezing);
      assert l in k1 + k2;
    }
    forall b: BalanceId | Places(u1, c1, b) || Places(u2, c2, b) ensures Places(u1 + u2, c1 + c2, b) {
      PlacesGrow(u1, c1, u2, c2, b);
    }
    forall id, b: Option<BalanceId> | Moves(u1, id, b) || Moves(u2, id, b) ensures Moves(u1 + u2, id, b) {
      MovesGrow(u1, u2, id, b);
    }
    forall id | HasUpdate(u1, id) || HasUpdate(u2, id) ensures HasUpdate(u1 + u2, id) {
      HasUpdateGrows(u1, u2, id);
    }
  }

  lemma PlacesGrow(u1: seq<Stored>, c1: seq<Vote>, u2: seq<Stored>, c2: seq<Vote>, b: BalanceId)
    requires Places(u1, c1, b) || Places(u2, c2, b)
    ensures Places(u1 + u2, c1 + c2, b)
  {
    var u, c := u1 + u2, c1 + c2;
    assert forall i :: 0 <= i < |u1| ==> u[i] == u1[i];
    assert forall i :: 0 <= i < |u2| ==> u[|u1| + i] == u2[i];
    assert forall i :: 0 <= i < |c1| ==> c[i] == c1[i];
    assert forall i :: 0 <= i < |c2| ==> c[|c1| + i] == c2[i];
  }

  lemma MovesGrow(u1: seq<Stored>, u2: seq<Stored>, id: VoteId, b: Option<BalanceId>)
    requires Moves(u1, id, b) || Moves(u2, id, b)
    ensures Moves(u1 + u2, id, b)
  {
    var u := u1 + u2;
    assert forall i :: 0 <= i < |u1| ==> u[i] == u1[i];
    assert forall i :: 0 <= i < |u2| ==> u[|u1| + i] == u2[i];
  }

  lemma HasUpdateGrows(u1: seq<Stored>, u2: seq<Stored>, id: VoteId)
    requires HasUpdate(u1, id) || HasUpdate(u2, id)
    ensures HasUpdate(u1 + u2, id)
  {
    var u := u1 + u2;
    assert forall i :: 0 <= i < |u1| ==> u[i] == u1[i];
    assert forall i :: 0 <= i < |u2| ==> u[|u1| + i] == u2[i];
  }

  // ---- The writes of one group ----

  /** The date that decides a listed balance, read off the whole visible table. */
  function ListedDate(p: Provenance, all: seq<Stored>, l: Listed): Option<Instant>
  {
    OriginalDate(p, all, Item(0, l.0, l.1, None))
  }

  function CoveredOf(items: seq<Item>): seq<Listed>
  {
    seq(|items|, i requires 0 <= i < |items| => (items[i].choice, items[i].balance))
  }

  /** Everything one reconciled group promises. */
  ghost predicate GroupResult(p: Provenance, key: VoteKey, raw: seq<Listed>, existing: seq<Stored>, endAt: Instant,
          freezing: bool, created: seq<Vote>, updates: seq<Stored>, processed: set<VoteId>, pairs: seq<Pair>,
          rest: seq<Item>)
  {
    && SoundMatching(p, OnTimeRows(existing, endAt), Eligible(p, existing, ItemsOf(raw), endAt), pairs, rest)
    && AllDated(rest)
    && updates == UpdatesOf(pairs, freezing) && created == NewRowsOf(key, rest, freezing)
    && processed == RowIds(pairs) + LateHolders(p, existing, ItemsOf(raw), endAt)
  }

  ghost predicate GroupInput(all: seq<Stored>, existing: seq<Stored>, key: VoteKey, raw: seq<Listed>)
  {
    && DistinctListing(raw) && DistinctRows(all) && DistinctHolders(all) && KeyedHolders(all, existing, raw)
    && DistinctRows(existing) && DistinctHolders(existing)
    && (forall row :: row in existing ==> row.vote.key == key)
    && (forall l :: l in raw ==> KeyOf(l.0, l.1) == key)
  }

  // ---- A group's writes stand for exactly its on-time balances ----

  lemma SameHolder(all: seq<Stored>, existing: seq<Stored>, raw: seq<Listed>, l: Listed)
    requires KeyedHolders(all, existing, raw) && DistinctHolders(all) && DistinctHolders(existing) && l in raw
    ensures HolderOf(all, l.1.id) == HolderOf(existing, l.1.id)
  {
    var a, b := HolderOf(all, l.1.id), HolderOf(existing, l.1.id);
    if a.Some? {
      assert a.value in existing;
      SameHolderSameRow(existing, a.value, b.value);
    }
  }

  lemma SameDate(p: Provenance, all: seq<Stored>, existing: seq<Stored>, raw: seq<Listed>, x: Item)
    requires KeyedHolders(all, existing, raw) && DistinctHolders(all) && DistinctHolders(existing)
             && (x.choice, x.balance) in raw
    ensures OriginalDate(p, existing, x) == ListedDate(p, all, (x.choice, x.balance))
  {
    hide MetadataOf, HolderOf;
    SameHolder(all, existing, raw, (x.choice, x.balance));
    assert Service(x) == Service(Item(0, x.choice, x.balance, None));
  }

  lemma EligibleKeepsListed(p: Provenance, existing: seq<Stored>, raw: seq<Listed>, endAt: Instant, l: Listed)
    requires DistinctListing(raw)
    ensures l in CoveredOf(Eligible(p, existing, ItemsOf(raw), endAt))
            <==> exists y :: y in ItemsOf(raw) && OnTime(p, existing, y, endAt) && (y.choice, y.balance) == l
  {
    hide OnTime;
    var items, eligible := ItemsOf(raw), Eligible(p, existing, ItemsOf(raw), endAt);
    EligibleExact(p, existing, items, endAt);
    if y :| y in items && OnTime(p, existing, y, endAt) && (y.choice, y.balance) == l {
      assert WithMetadata(p, existing, y) in eligible;
      var k :| 0 <= k < |eligible| && eligible[k] == WithMetadata(p, existing, y);
      assert CoveredOf(eligible)[k] == l;
    }
    if l in CoveredOf(eligible) {
      var k :| 0 <= k < |eligible| && CoveredOf(eligible)[k] == l;
      assert eligible[k] in eligible;
    }
  }

  /** A group covers exactly the listed balances whose original creation is on time. */
  lemma CoveredExactly(p: Provenance, all: seq<Stored>, existing: seq<Stored>, key: VoteKey, raw: seq<Listed>,
          endAt: Instant, l: Listed)
    requires GroupInput(all, existing, key, raw)
    ensures l in CoveredOf(Eligible(p, existing, ItemsOf(raw), endAt))
            <==> l in raw && OnTimeDate(ListedDate(p, all, l), endAt)
  {
    hide OriginalDate, ListedDate;
    EligibleKeepsListed(p, existing, raw, endAt, l);
    ItemsOfExact(raw);
    forall y | y in ItemsOf(raw) ensures OriginalDate(p, existing, y) == ListedDate(p, all, (y.choice, y.balance)) {
      SameDate(p, all, existing, raw, y);
    }
  }

  /** A group is resolved exactly when every listed balance has a known original creation date. */
  lemma ResolvedExactly(p: Provenance, all: seq<Stored>, existing: seq<Stored>, key: VoteKey, raw: seq<Listed>)
    requires GroupInput(all, existing, key, raw)
    ensures Resolved(p, existing, raw) <==> forall l :: l in raw ==> ListedDate(p, all, l).Some?
  {
    hide OriginalDate, ListedDate;
    ItemsOfExact(raw);
    forall y | y in ItemsOf(raw) ensures OriginalDate(p, existing, y) == ListedDate(p, all, (y.choice, y.balance)) {
      SameDate(p, all, existing, raw, y);
    }
  }

  lemma EligibleStandsForListed(p: Provenance, key: VoteKey, raw: seq<Listed>, existing: seq<Stored>, endAt: Instant,
          x: Item)
    requires DistinctListing(raw) && (forall l :: l in raw ==> KeyOf(l.0, l.1) == key)
    requires x in Eligible(p, existing, ItemsOf(raw), endAt)
    ensures (x.choice, x.balance) in CoveredOf(Eligible(p, existing, ItemsOf(raw), endAt))
            && KeyOf(x.choice, x.balance) == key
  {
    hide KeyOf, OnTime;
    var eligible := Eligible(p, existing, ItemsOf(raw), endAt);
    var k :| 0 <= k < |eligible| && eligible[k] == x;
    assert CoveredOf(eligible)[k] == (x.choice, x.balance);
    EligibleListed(p, existing, raw, endAt);
  }

  lemma {:induction false} GroupUpdates(p: Provenance, all: seq<Stored>, key: VoteKey, raw: seq<Listed>,
          existing: seq<Stored>, endAt: Instant, freezing: bool, created: seq<Vote>, updates: seq<Stored>,
          processed: set<VoteId>, pairs: seq<Pair>, rest: seq<Item>)
    requires GroupInput(all, existing, key, raw)
             && GroupResult(p, key, raw, existing, endAt, freezing, created, updates, processed, pairs, rest)
    ensures DistinctRows(updates)
    ensures forall u :: u in updates ==>
              && FromOnTimeRow(all, u, {key}, endAt) && u.id in processed
              && WrittenForSome(u.vote, CoveredOf(Eligible(p, existing, ItemsOf(raw), endAt)), freezing)
  {
    hide KeyOf, Eligible, CoveredOf, LateHolders, Service, OnTimeDate, SoundMatching, ParsedVote, FromOnTimeRow,
         WrittenForSome, GroupInput;
    var covered := CoveredOf(Eligible(p, existing, ItemsOf(raw), endAt));
    MatchingInjects(p, OnTimeRows(existing, endAt), Eligible(p, existing, ItemsOf(raw), endAt), pairs, rest);
    forall u | u in updates
      ensures FromOnTimeRow(all, u, {key}, endAt) && u.id in processed && WrittenForSome(u.vote, covered, freezing) {
      var i :| 0 <= i < |updates| && updates[i] == u;
      assert pairs[i] in pairs && pairs[i].0.id in RowIds(pairs);
      GroupUpdate(p, all, key, raw, existing, endAt, freezing, pairs[i]);
    }
  }

  lemma MatchingInjects(p: Provenance, rows: seq<Stored>, items: seq<Item>, pairs: seq<Pair>, rest: seq<Item>)
    requires SoundMatching(p, rows, items, pairs, rest)
    ensures forall i, j :: 0 <= i < j < |pairs| ==> pairs[i].0.id != pairs[j].0.id
    ensures forall pair :: pair in pairs ==> pair.0 in rows && pair.1 in items
  {
  }

  lemma {:induction false} GroupUpdate(p: Provenance, all: seq<Stored>, key: VoteKey, raw: seq<Listed>,
          existing: seq<Stored>, endAt: Instant, freezing: bool, pair: Pair)
    requires GroupInput(all, existing, key, raw)
    requires pair.0 in OnTimeRows(existing, endAt) && pair.1 in Eligible(p, existing, ItemsOf(raw), endAt)
    ensures var u := UpdatedRow(pair.0, pair.1, freezing);
            FromOnTimeRow(all, u, {key}, endAt)
                && WrittenForSome(u.vote, CoveredOf(Eligible(p, existing, ItemsOf(raw), endAt)), freezing)
  {
    hide KeyOf, Eligible, CoveredOf, OnTimeDate, DistinctRows, DistinctHolders;
    EligibleStandsForListed(p, key, raw, existing, endAt, pair.1);
    assert WrittenFor(UpdatedRow(pair.0, pair.1, freezing).vote, (pair.1.choice, pair.1.balance), freezing);
  }

  lemma {:induction false} GroupCreations(p: Provenance, all: seq<Stored>, key: VoteKey, raw: seq<Listed>,
          existing: seq<Stored>, endAt: Instant, freezing: bool, created: seq<Vote>, updates: seq<Stored>,
          processed: set<VoteId>, pairs: seq<Pair>, rest: seq<Item>)
    requires GroupInput(all, existing, key, raw)
             && GroupResult(p, key, raw, existing, endAt, freezing, created, updates, processed, pairs, rest)
    ensures forall v :: v in created
                        ==> OnTimeDate(v.createdAt, endAt)
                            && WrittenForSome(v, CoveredOf(Eligible(p, existing, ItemsOf(raw), endAt)), freezing)
    ensures DistinctBalances(updates, created)
  {
    hide Eligible, CoveredOf, LateHolders, Service, OnTimeDate, TimesAndOwner;
    var covered := CoveredOf(Eligible(p, existing, ItemsOf(raw), endAt));
    RestHasNoHolder(p, all, existing, raw, endAt, pairs, rest);
    forall v | v in created ensures OnTimeDate(v.createdAt, endAt) && WrittenForSome(v, covered, freezing) {
      var i :| 0 <= i < |created| && created[i] == v;
      assert rest[i] in rest;
      EligibleStandsForListed(p, key, raw, existing, endAt, rest[i]);
      assert WrittenFor(v, (rest[i].choice, rest[i].balance), freezing);
    }
    ItemsOfExact(raw);
    EligibleDistinct(p, existing, ItemsOf(raw), endAt);
    RestApartFromPairs(p, OnTimeRows(existing, endAt), Eligible(p, existing, ItemsOf(raw), endAt), pairs, rest);
  }

  lemma RestApartFromPairs(p: Provenance, rows: seq<Stored>, items: seq<Item>, pairs: seq<Pair>, rest: seq<Item>)
    requires DistinctItems(items) && SoundMatching(p, rows, items, pairs, rest)
    ensures forall i, j :: 0 <= i < |pairs| && 0 <= j < |rest| ==> pairs[i].1.balance.id != rest[j].balance.id
  {
    forall i, j | 0 <= i < |pairs| && 0 <= j < |rest| ensures pairs[i].1.balance.id != rest[j].balance.id {
      assert pairs[i] in pairs && rest[j] in rest && pairs[i].1.index in ItemIndexes(pairs);
      DistinctItemsDiffer(items, pairs[i].1, rest[j]);
    }
  }

  lemma GroupCovers(p: Provenance, all: seq<Stored>, key: VoteKey, raw: seq<Listed>, existing: seq<Stored>,
          endAt: Instant, freezing: bool, created: seq<Vote>, updates: seq<Stored>, processed: set<VoteId>,
          pairs: seq<Pair>, rest: seq<Item>)
    requires GroupInput(all, existing, key, raw)
             && GroupResult(p, key, raw, existing, endAt, freezing, created, updates, processed, pairs, rest)
    ensures forall l :: l in CoveredOf(Eligible(p, existing, ItemsOf(raw), endAt))
                        ==> Places(updates, created, l.1.id) && KeyOf(l.0, l.1) == key
  {
    hide KeyOf, Eligible, LateHolders, Service, OnTimeDate, TimesAndOwner, SoundMatching, DistinctItems;
    var eligible := Eligible(p, existing, ItemsOf(raw), endAt);
    ItemsOfExact(raw);
    EligibleDistinct(p, existing, ItemsOf(raw), endAt);
    forall l | l in CoveredOf(eligible) ensures Places(updates, created, l.1.id) && KeyOf(l.0, l.1) == key {
      var k :| 0 <= k < |eligible| && CoveredOf(eligible)[k] == l;
      var x := eligible[k];
      EligibleStandsForListed(p, key, raw, existing, endAt, x);
      MatchedOrRest(p, OnTimeRows(existing, endAt), eligible, pairs, rest, x);
      if i :| 0 <= i < |pairs| && pairs[i].1 == x {
        assert updates[i].vote.balanceId == Some(l.1.id);
      } else {
        var i :| 0 <= i < |rest| && rest[i] == x;
        assert created[i].balanceId == Some(l.1.id);
      }
    }
  }

  lemma MatchedOrRest(p: Provenance, rows: seq<Stored>, items: seq<Item>, pairs: seq<Pair>, rest: seq<Item>, x: Item)
    requires DistinctItems(items) && SoundMatching(p, rows, items, pairs, rest) && x in items
    ensures (exists i :: 0 <= i < |pairs| && pairs[i].1 == x) || (exists i :: 0 <= i < |rest| && rest[i] == x)
  {
    if x.index in ItemIndexes(pairs) {
      var pair :| pair in pairs && pair.1.index == x.index;
      assert pair.1 in items && pair.1 == x;
    } else {
      assert x in rest;
    }
  }

  lemma {:induction false} GroupKeepsHolders(p: Provenance, all: seq<Stored>, key: VoteKey, raw: seq<Listed>,
          existing: seq<Stored>, endAt: Instant, freezing: bool, created: seq<Vote>, updates: seq<Stored>,
          processed: set<VoteId>, pairs: seq<Pair>, rest: seq<Item>, row: Stored, l: Listed)
    requires GroupInput(all, existing, key, raw)
             && GroupResult(p, key, raw, existing, endAt, freezing, created, updates, processed, pairs, rest)
    requires row in all && l in CoveredOf(Eligible(p, existing, ItemsOf(raw), endAt))
             && row.vote.balanceId == Some(l.1.id)
    ensures Moves(updates, row.id, row.vote.balanceId)
  {
    hide KeyOf, LateHolders, Service, TimesAndOwner, Eligible, OnTimeRows, SoundMatching, GroupInput;
    HeldCoveredIsEligible(p, all, key, raw, existing, endAt, row, l);
    var x :| x in Eligible(p, existing, ItemsOf(raw), endAt) && x.balance.id == l.1.id;
    SameBalanceIsMatched(p, OnTimeRows(existing, endAt), Eligible(p, existing, ItemsOf(raw), endAt), pairs, rest, row,
                         x);
    var i :| 0 <= i < |pairs| && pairs[i] == (row, x);
    assert updates[i].id == row.id;
  }

  lemma SameBalanceIsMatched(p: Provenance, rows: seq<Stored>, items: seq<Item>, pairs: seq<Pair>, rest: seq<Item>,
          row: Stored, x: Item)
    requires SoundMatching(p, rows, items, pairs, rest) && row in rows && x in items
             && row.vote.balanceId == Some(x.balance.id)
    ensures (row, x) in pairs
  {
    assert SameBalance(row, x);
  }

  lemma HeldCoveredIsEligible(p: Provenance, all: seq<Stored>, key: VoteKey, raw: seq<Listed>, existing: seq<Stored>,
          endAt: Instant, row: Stored, l: Listed)
    requires GroupInput(all, existing, key, raw) && row in all && row.vote.balanceId == Some(l.1.id)
    requires l in CoveredOf(Eligible(p, existing, ItemsOf(raw), endAt))
    ensures row in OnTimeRows(existing, endAt)
    ensures exists x :: x in Eligible(p, existing, ItemsOf(raw), endAt) && x.balance.id == l.1.id
  {
    hide KeyOf, TimesAndOwner, MetadataOf, Eligible, ListedDate, Service, ItemsOf;
    CoveredExactly(p, all, existing, key, raw, endAt, l);
    EligibleKeepsListed(p, existing, raw, endAt, l);
    EligibleExact(p, existing, ItemsOf(raw), endAt);
    var y :| y in ItemsOf(raw) && OnTime(p, existing, y, endAt) && (y.choice, y.balance) == l;
    assert WithMetadata(p, existing, y) in Eligible(p, existing, ItemsOf(raw), endAt);
    assert row in existing;
    SameHolderSameRow(existing, row, HolderOf(existing, l.1.id).value);
  }

  lemma {:induction false} GroupProcessed(p: Provenance, all: seq<Stored>, key: VoteKey, raw: seq<Listed>,
          existing: seq<Stored>, endAt: Instant, freezing: bool, created: seq<Vote>, updates: seq<Stored>,
          processed: set<VoteId>, pairs: seq<Pair>, rest: seq<Item>, row: Stored)
    requires GroupInput(all, existing, key, raw)
             && GroupResult(p, key, raw, existing, endAt, freezing, created, updates, processed, pairs, rest)
    requires row in all && row.id in processed
    ensures HasUpdate(updates, row.id) || !OnTimeDate(row.vote.createdAt, endAt)
  {
    hide KeyOf, Service, TimesAndOwner, MetadataOf, Eligible, ListedDate, SoundMatching;
    if row.id in RowIds(pairs) {
      var pair :| pair in pairs && pair.0.id == row.id;
      var i :| 0 <= i < |pairs| && pairs[i] == pair;
      assert updates[i].id == row.id;
    } else {
      var item :| item in ItemsOf(raw) && HolderOf(existing, item.balance.id).Some? && !OnTime(p, existing, item, endAt)
                  && HolderOf(existing, item.balance.id).value.id == row.id;
      SameIdSameRow(all, row, HolderOf(existing, item.balance.id).value);
    }
  }

  /** A row past the end whose balance is still listed. */
  ghost predicate LateListed(row: Stored, raw: seq<Listed>, endAt: Instant)
  {
    !OnTimeDate(row.vote.createdAt, endAt) && exists l :: l in raw && row.vote.balanceId == Some(l.1.id)
  }

  /** A group shields from the stale sweep exactly the rows it updates and the late rows still listed in it. */
  lemma {:induction false} GroupShields(p: Provenance, all: seq<Stored>, key: VoteKey, raw: seq<Listed>,
          existing: seq<Stored>, endAt: Instant, freezing: bool, created: seq<Vote>, updates: seq<Stored>,
          processed: set<VoteId>, pairs: seq<Pair>, rest: seq<Item>, row: Stored)
    requires GroupInput(all, existing, key, raw)
             && GroupResult(p, key, raw, existing, endAt, freezing, created, updates, processed, pairs, rest)
    requires row in all
    ensures row.id in processed <==> HasUpdate(updates, row.id) || LateListed(row, raw, endAt)
  {
    hide KeyOf, Service, TimesAndOwner, MetadataOf, Eligible, ListedDate, SoundMatching, OnTimeDate;
    ItemsOfExact(raw);
    if row.id in RowIds(pairs) {
      var pair :| pair in pairs && pair.0.id == row.id;
      var i :| 0 <= i < |pairs| && pairs[i] == pair;
      assert updates[i].id == row.id;
    } else if row.id in processed {
      var item :| item in ItemsOf(raw) && HolderOf(existing, item.balance.id).Some? && !OnTime(p, existing, item, endAt)
                  && HolderOf(existing, item.balance.id).value.id == row.id;
      SameIdSameRow(all, row, HolderOf(existing, item.balance.id).value);
      assert (item.choice, item.balance) in raw;
    }
    if i :| 0 <= i < |updates| && updates[i].id == row.id {
      assert pairs[i] in pairs && pairs[i].0.id == row.id;
    } else if LateListed(row, raw, endAt) {
      var l :| l in raw && row.vote.balanceId == Some(l.1.id);
      var x :| x in ItemsOf(raw) && (x.choice, x.balance) == l;
      assert row in existing;
      SameHolderSameRow(existing, row, HolderOf(existing, l.1.id).value);
      assert row.id in LateHolders(p, existing, ItemsOf(raw), endAt);
    }
  }

  /** The writes of a resolved group obey the law for exactly the balances it covers. */
  lemma {:induction false} GroupWrites(p: Provenance, all: seq<Stored>, key: VoteKey, raw: seq<Listed>,
          existing: seq<Stored>, endAt: Instant, freezing: bool, created: seq<Vote>, updates: seq<Stored>,
          processed: set<VoteId>, pairs: seq<Pair>, rest: seq<Item>)
    requires GroupInput(all, existing, key, raw)
             && GroupResult(p, key, raw, existing, endAt, freezing, created, updates, processed, pairs, rest)
    ensures WriteLaw(all, updates, created, processed, CoveredOf(Eligible(p, existing, ItemsOf(raw), endAt)), {key},
                     endAt, freezing)
  {
    hide GroupInput, GroupResult, DistinctRows, DistinctBalances, FromOnTimeRow, WrittenForSome, OnTimeDate, Places,
         KeyOf, Moves, HasUpdate, Eligible, CoveredOf;
    GroupUpdates(p, all, key, raw, existing, endAt, freezing, created, updates, processed, pairs, rest);
    GroupCreations(p, all, key, raw, existing, endAt, freezing, created, updates, processed, pairs, rest);
    GroupCovers(p, all, key, raw, existing, endAt, freezing, created, updates, processed, pairs, rest);
    var covered := CoveredOf(Eligible(p, existing, ItemsOf(raw), endAt));
    forall row, l | row in all && l in covered && row.vote.balanceId == Some(l.1.id)
      ensures Moves(updates, row.id, row.vote.balanceId) {
      GroupKeepsHolders(p, all, key, raw, existing, endAt, freezing, created, updates, processed, pairs, rest, row, l);
    }
    forall row | row in all && row.id in processed
      ensures HasUpdate(updates, row.id) || !OnTimeDate(row.vote.createdAt, endAt) {
      GroupProcessed(p, all, key, raw, existing, endAt, freezing, created, updates, processed, pairs, rest, row);
    }
  }

  // ---- Ranks ----

  /** Of two votes under one key the heavier ranks first. */
  ghost predicate Ranked(a: Vote, b: Vote)
  {
    a.key == b.key && a.amount.Some? && b.amount.Some? && a.amount.value > b.amount.value
    ==> a.groupIndex < b.groupIndex
  }

  ghost predicate IsWritten(updates: seq<Stored>, created: seq<Vote>, v: Vote)
  {
    (exists u :: u in updates && u.vote == v) || v in created
  }

  ghost predicate RankLaw(updates: seq<Stored>, created: seq<Vote>)
  {
    forall a, b :: IsWritten(updates, created, a) && IsWritten(updates, created, b) ==> Ranked(a, b)
  }

  lemma {:induction false} EligibleRanks(p: Provenance, existing: seq<Stored>, raw: seq<Listed>, endAt: Instant,
          x: Item, y: Item)
    requires DistinctListing(raw)
    requires x in Eligible(p, existing, ItemsOf(raw), endAt) && y in Eligible(p, existing, ItemsOf(raw), endAt)
    requires x.balance.amount > y.balance.amount
    ensures x.index < y.index
  {
    hide OnTime, ItemsOf, Eligible, DistinctListing, HolderOf;
    var items := ItemsOf(raw);
    ItemsOfExact(raw);
    EligibleExact(p, existing, items, endAt);
    var i :| 0 <= i < |items| && OnTime(p, existing, items[i], endAt) && x == WithMetadata(p, existing, items[i]);
    var j :| 0 <= j < |items| && OnTime(p, existing, items[j], endAt) && y == WithMetadata(p, existing, items[j]);
    assert items[i].index == i && items[j].index == j;
  }

  lemma {:induction false} WrittenFromItem(p: Provenance, key: VoteKey, raw: seq<Listed>, existing: seq<Stored>,
          endAt: Instant, freezing: bool, created: seq<Vote>, updates: seq<Stored>, processed: set<VoteId>,
          pairs: seq<Pair>, rest: seq<Item>, v: Vote)
      returns (x: Item)
    requires GroupResult(p, key, raw, existing, endAt, freezing, created, updates, processed, pairs, rest)
    requires IsWritten(updates, created, v)
    ensures x in Eligible(p, existing, ItemsOf(raw), endAt)
    ensures v.amount == Some(x.balance.amount) && v.groupIndex == x.index
  {
    hide Eligible, OnTimeRows, LateHolders, TimesAndOwner;
    if u :| u in updates && u.vote == v {
      var i :| 0 <= i < |updates| && updates[i] == u;
      assert pairs[i] in pairs;
      x := pairs[i].1;
    } else {
      var i :| 0 <= i < |created| && created[i] == v;
      assert rest[i] in rest;
      x := rest[i];
    }
  }

  /** The writes of one group rank its votes by falling amount. */
  lemma {:induction false} GroupRanks(p: Provenance, key: VoteKey, raw: seq<Listed>, existing: seq<Stored>,
          endAt: Instant, freezing: bool, created: seq<Vote>, updates: seq<Stored>, processed: set<VoteId>,
          pairs: seq<Pair>, rest: seq<Item>)
    requires DistinctListing(raw)
    requires GroupResult(p, key, raw, existing, endAt, freezing, created, updates, processed, pairs, rest)
    ensures RankLaw(updates, created)
  {
    hide GroupResult, IsWritten, Eligible, DistinctListing;
    forall a, b | IsWritten(updates, created, a) && IsWritten(updates, created, b) ensures Ranked(a, b) {
      var x :=
          WrittenFromItem(p, key, raw, existing, endAt, freezing, created, updates, processed, pairs, rest, a);
      var y :=
          WrittenFromItem(p, key, raw, existing, endAt, freezing, created, updates, processed, pairs, rest, b);
      if x.balance.amount > y.balance.amount {
        EligibleRanks(p, existing, raw, endAt, x, y);
      }
    }
  }

  lemma WrittenUnderKeys(all: seq<Stored>, updates: seq<Stored>, created: seq<Vote>, processed: set<VoteId>,
          covered: seq<Listed>, keys: set<VoteKey>, endAt: Instant, freezing: bool, v: Vote)
    requires WriteLaw(all, updates, created, processed, covered, keys, endAt, freezing)
    requires IsWritten(updates, created, v)
    ensures v.key in keys
  {
    hide KeyOf, OnTimeDate;
    assert WrittenForSome(v, covered, freezing);
  }

  lemma {:induction false} JoinedRanks(all: seq<Stored>, u1: seq<Stored>, c1: seq<Vote>, p1: set<VoteId>,
          k1: seq<Listed>, keys1: set<VoteKey>, u2: seq<Stored>, c2: seq<Vote>, p2: set<VoteId>, k2: seq<Listed>,
          keys2: set<VoteKey>, endAt: Instant, freezing: bool)
    requires keys1 !! keys2 && RankLaw(u1, c1) && RankLaw(u2, c2)
    requires WriteLaw(all, u1, c1, p1, k1, keys1, endAt, freezing)
             && WriteLaw(all, u2, c2, p2, k2, keys2, endAt, freezing)
    ensures RankLaw(u1 + u2, c1 + c2)
  {
    hide WriteLaw, Ranked;
    forall a, b | IsWritten(u1 + u2, c1 + c2, a) && IsWritten(u1 + u2, c1 + c2, b) ensures Ranked(a, b) {
      forall v | v in {a, b}
        ensures IsWritten(u1, c1, v) || IsWritten(u2, c2, v)
        ensures IsWritten(u1, c1, v) ==> v.key in keys1
        ensures IsWritten(u2, c2, v) ==> v.key in keys2 {
        if IsWritten(u1, c1, v) {
          WrittenUnderKeys(all, u1, c1, p1, k1, keys1, endAt, freezing, v);
        }
        if IsWritten(u2, c2, v) {
          WrittenUnderKeys(all, u2, c2, p2, k2, keys2, endAt, freezing, v);
        }
      }
      if a.key != b.key {
        UnrelatedKeysRank(a, b);
      }
    }
  }

  lemma UnrelatedKeysRank(a: Vote, b: Vote)
    requires a.key != b.key
    ensures Ranked(a, b)
  {
  }
}
