/** One vote snapshot: group what Horizon lists, reconcile group by group, then commit all or nothing. */
module VoteIndexing {
  import opened Domain
  import opened Sorting
  import opened MemoText
  import opened KnownSpellings
  import opened VoteRecords
  import opened VoteMatching
  import opened VoteReconcile
  import opened VoteSnapshot
  import opened VoteRefinement
  import opened VoteTable
  import opened VoteCommit

  const HOUR: int := 3600 * SECOND
  const UNIX_EPOCH: Instant := 719_162 * DAY

  /** Nearest whole second, ties to even. */
  function RoundToSecond(t: int): (r: int)
    ensures -SECOND <= 2 * (t - r * SECOND) <= SECOND
    ensures 2 * (t - r * SECOND) in {-SECOND, SECOND} ==> r % 2 == 0
  {
    var q, rest := t / SECOND, t % SECOND;
    if 2 * rest < SECOND || (2 * rest == SECOND && q % 2 == 0) then q else q + 1
  }

  /** The second at which every vote of the proposal must unlock: one hour after the voting ends. */
  function ExpectedUnlock(endAt: Instant): int { RoundToSecond(endAt + HOUR - UNIX_EPOCH) }

  /** That second, counted from the Unix epoch, is the whole second nearest to an hour after the end. */
  lemma {:induction false} UnlockFollowsEnd(endAt: Instant)
    ensures IsoUtcSeconds(UNIX_EPOCH) == Some("1970-01-01T00:00:00Z")
    ensures var unlock := UNIX_EPOCH + ExpectedUnlock(endAt) * 1_000_000;
            && -1_000_000 <= 2 * (endAt + 60 * 60 * 1_000_000 - unlock) <= 1_000_000
            && (endAt % 1_000_000 == 0 ==> unlock == endAt + 60 * 60 * 1_000_000)
  {
    hide IsoUtcSeconds;
    UnixEpochIsSpelled();
  }

  // ---- Grouping ----

  function Tagged(choice: Choice, balances: seq<Balance>): seq<Listed>
  {
    seq(|balances|, i requires 0 <= i < |balances| => (choice, balances[i]))
  }

  /** What the claimant queries return, in the order they are made; abstaining is optional. */
  function Listing(votesFor: seq<Balance>, votesAgainst: seq<Balance>, abstained: Option<seq<Balance>>): seq<Listed>
  {
    Tagged(VoteFor, votesFor) + Tagged(VoteAgainst, votesAgainst)
        + if abstained.Some? then Tagged(VoteAbstain, abstained.value) else []
  }

  predicate Belongs(s: VoteSettings, expected: int, key: VoteKey, l: Listed)
  {
    Admissible(s, l.1, expected) && KeyOf(l.0, l.1) == key
  }

  function GroupOf(s: VoteSettings, listing: seq<Listed>, expected: int, key: VoteKey): (r: seq<Listed>)
    ensures forall l :: l in r <==> l in listing && Belongs(s, expected, key, l)
  {
    if listing == [] then []
    else
      var n := |listing| - 1;
      GroupOf(s, listing[..n], expected, key) + if Belongs(s, expected, key, listing[n]) then [listing[n]] else []
  }

  lemma {:induction false} GroupDistinct(s: VoteSettings, listing: seq<Listed>, expected: int, key: VoteKey)
    requires DistinctListing(listing)
    ensures DistinctListing(GroupOf(s, listing, expected, key))
  {
    hide Belongs;
    if listing != [] {
      var n, id := |listing| - 1, (l: Listed) => l.1.id;
      assert DistinctBy(listing[..n], id) by {
        forall i, j | 0 <= i < j < n ensures id(listing[..n][i]) != id(listing[..n][j]) {
          assert id(listing[i]) != id(listing[j]);
        }
      }
      GroupDistinct(s, listing[..n], expected, key);
      forall l | l in GroupOf(s, listing[..n], expected, key) ensures id(l) != id(listing[n]) {
        var i :| 0 <= i < n && listing[..n][i] == l;
        assert id(listing[i]) != id(listing[n]);
      }
    }
  }

  lemma GroupGrows(s: VoteSettings, listing: seq<Listed>, expected: int, i: nat, key: VoteKey)
    requires i < |listing|
    ensures GroupOf(s, listing[..i + 1], expected, key)
            == GroupOf(s, listing[..i], expected, key)
               + if Admissible(s, listing[i].1, expected)
                   && KeyOf(listing[i].0, listing[i].1) == key then [listing[i]] else []
  {
    assert listing[..i + 1][..i] == listing[..i];
  }

  /** Admissible balances by key, keys in order of first appearance. */
  method BuildRawVoteGroups(s: VoteSettings, listing: seq<Listed>, expected: int)
      returns (groups: map<VoteKey, seq<Listed>>, order: seq<VoteKey>)
    ensures forall k :: Group(groups, k) == GroupOf(s, listing, expected, k)
    ensures forall k :: k in order <==> k in groups
    ensures forall i, j :: 0 <= i < j < |order| ==> order[i] != order[j]
  {
    hide Admissible, KeyOf, GroupOf, Group, Filed, Belongs;
    groups, order := map[], [];
    NoGroups<VoteKey, Listed>();
    NothingGrouped(s, listing, expected);
    for i := 0 to |listing|
      invariant forall k :: Group(groups, k) == GroupOf(s, listing[..i], expected, k)
      invariant forall k :: k in order <==> k in groups
      invariant forall i, j :: 0 <= i < j < |order| ==> order[i] != order[j]
    {
      var (choice, balance) := listing[i];
      var key := if Admissible(s, balance, expected) then Some(KeyOf(choice, balance)) else None;
      forall k
        ensures GroupOf(s, listing[..i + 1], expected, k) == GroupOf(s, listing[..i], expected, k)
        + if key == Some(k) then [listing[i]] else [] {
        GroupGrows(s, listing, expected, i, k);
      }
      if key.Some? && key.value !in groups {
        order := order + [key.value];
      }
      groups := Filed(groups, key, listing[i]);
    }
    assert listing[..|listing|] == listing;
  }

  lemma NothingGrouped(s: VoteSettings, listing: seq<Listed>, expected: int)
    ensures forall k :: GroupOf(s, listing[..0], expected, k) == []
  {
  }

  // ---- The snapshot ----

  /** An admissible listed balance that was originally created by the end of the voting; `onTime` is the
      truth on chain, independent of what is stored. */
  ghost predicate Counted(s: VoteSettings, expected: int, onTime: BalanceId -> bool, l: Listed)
  {
    Admissible(s, l.1, expected) && onTime(l.1.id)
  }

  /** Stored dates are on the true side of the end: whoever dates a visible row dates its balance. */
  ghost predicate TrueDates(rows: seq<Stored>, endAt: Instant, onTime: BalanceId -> bool)
  {
    forall r :: r in rows && !r.vote.hidden && r.vote.balanceId.Some? && r.vote.createdAt.Some?
                ==> (OnTimeDate(r.vote.createdAt, endAt) <==> onTime(r.vote.balanceId.value))
  }

  /** When and with what amount a listed vote was first cast: a balance whose sponsor is one of its claimants
      was cast as it stands, any other is traced to the balance it replaced. */
  ghost function FirstCast(p: Provenance, b: Balance): Option<(Instant, real)>
  {
    if b.id == "" then None
    else if b.sponsor.Some? && b.sponsor.value != ""
            && exists i :: 0 <= i < |b.claimants| && b.claimants[i].destination == b.sponsor
    then p.created(b.id)
    else if p.origin(b.id).Some? then p.created(p.origin(b.id).value)
    else None
  }

  lemma FirstCastIsMetadata(p: Provenance, choice: Choice, b: Balance)
    ensures ItemMetadata(p, Item(0, choice, b, None)) == FirstCast(p, b)
  {
  }

  /** Every original date Horizon gives for a listed balance is on the true side of the end. */
  ghost predicate Agrees(p: Provenance, listing: seq<Listed>, endAt: Instant, onTime: BalanceId -> bool)
  {
    forall l :: l in listing && FirstCast(p, l.1).Some?
                ==> (FirstCast(p, l.1).value.0 <= endAt <==> onTime(l.1.id))
  }

  /** How the code decides it: the stored date of the row that holds the balance, else Horizon's. */
  ghost predicate Counts(s: VoteSettings, p: Provenance, rows: seq<Stored>, expected: int, endAt: Instant, l: Listed)
  {
    Admissible(s, l.1, expected) && OnTimeDate(ListedDate(p, Visible(rows), l), endAt)
  }

  ghost predicate Dated(s: VoteSettings, p: Provenance, rows: seq<Stored>, expected: int, l: Listed)
  {
    Admissible(s, l.1, expected) ==> ListedDate(p, Visible(rows), l).Some?
  }

  /** Every admissible balance of the listing has one key, wherever and whenever it is listed. */
  ghost predicate ListedUnder(s: VoteSettings, listing: seq<Listed>, expected: int, keyOf: BalanceId -> VoteKey)
  {
    forall l :: l in listing && Admissible(s, l.1, expected) ==> KeyOf(l.0, l.1) == keyOf(l.1.id)
  }

  ghost predicate CoversCounted(s: VoteSettings, p: Provenance, rows: seq<Stored>, listing: seq<Listed>, expected: int,
          endAt: Instant, keys: set<VoteKey>, covered: seq<Listed>)
  {
    forall l :: l in covered <==> l in listing && Counts(s, p, rows, expected, endAt, l) && KeyOf(l.0, l.1) in keys
  }

  ghost predicate AllDatedIn(s: VoteSettings, p: Provenance, rows: seq<Stored>, listing: seq<Listed>, expected: int,
          keys: set<VoteKey>)
  {
    forall l :: l in listing && KeyOf(l.0, l.1) in keys ==> Dated(s, p, rows, expected, l)
  }

  lemma {:induction false} GroupInputHolds(s: VoteSettings, rows: seq<Stored>, listing: seq<Listed>, expected: int,
          key: VoteKey, keyOf: BalanceId -> VoteKey)
    requires DistinctRows(rows) && UniqueBalances(rows) && Keyed(rows, keyOf)
    requires DistinctListing(listing) && ListedUnder(s, listing, expected, keyOf)
    ensures GroupInput(Visible(rows), WithKey(Visible(rows), key), key, GroupOf(s, listing, expected, key))
    ensures UsableListing(s, GroupOf(s, listing, expected, key))
  {
    hide KeyOf, ValidUnlock, DistinctListing, DistinctRows, DistinctHolders;
    VisibleDistinct(rows);
    WithKeyDistinct(Visible(rows), key);
    GroupDistinct(s, listing, expected, key);
  }

  /** What one more reconciled group adds to the plan. */
  lemma {:induction false} GroupExtendsPlan(s: VoteSettings, p: Provenance, rows: seq<Stored>, listing: seq<Listed>,
          expected: int, endAt: Instant, freezing: bool, keyOf: BalanceId -> VoteKey, keys: set<VoteKey>, key: VoteKey,
          plan: Plan, covered: seq<Listed>, created: seq<Vote>, updates: seq<Stored>, processed: set<VoteId>,
          pairs: seq<Pair>, rest: seq<Item>)
      returns (more: seq<Listed>)
    requires DistinctRows(rows) && UniqueBalances(rows) && Keyed(rows, keyOf)
    requires DistinctListing(listing) && ListedUnder(s, listing, expected, keyOf) && key !in keys
    requires WriteLaw(Visible(rows), plan.updates, plan.created, plan.processed, covered, keys, endAt, freezing)
    requires CoversCounted(s, p, rows, listing, expected, endAt, keys, covered)
    requires GroupResult(p, key, GroupOf(s, listing, expected, key), WithKey(Visible(rows), key), endAt, freezing,
                         created, updates, processed, pairs, rest)
    ensures WriteLaw(Visible(rows), plan.updates + updates, plan.created + created, plan.processed + processed,
                     covered + more, keys + {key}, endAt, freezing)
    ensures CoversCounted(s, p, rows, listing, expected, endAt, keys + {key}, covered + more)
  {
    hide WriteLaw, GroupInput, GroupResult, KeyOf, Keyed, UniqueBalances, ListedUnder, ListedDate, OnTimeDate,
         Admissible, DistinctRows, DistinctListing, Eligible, CoveredOf;
    var all, raw := Visible(rows), GroupOf(s, listing, expected, key);
    var existing := WithKey(all, key);
    GroupInputHolds(s, rows, listing, expected, key, keyOf);
    GroupWrites(p, all, key, raw, existing, endAt, freezing, created, updates, processed, pairs, rest);
    more := CoveredOf(Eligible(p, existing, ItemsOf(raw), endAt));
    forall l ensures l in more <==> l in listing && Counts(s, p, rows, expected, endAt, l) && KeyOf(l.0, l.1) == key {
      CoveredExactly(p, all, existing, key, raw, endAt, l);
    }
    VisibleDistinct(rows);
    forall a, b | a in covered && b in more ensures a.1.id != b.1.id {
      OnceListed(listing, a, b);
    }
    JoinedWrites(all, plan.updates, plan.created, plan.processed, covered, keys, updates, created, processed, more,
                 {key}, endAt, freezing);
  }

  lemma OnceListed(listing: seq<Listed>, a: Listed, b: Listed)
    requires DistinctListing(listing) && a in listing && b in listing
    ensures a.1.id == b.1.id ==> a == b
  {
    var id := (l: Listed) => l.1.id;
    var i :| 0 <= i < |listing| && listing[i] == a;
    var j :| 0 <= j < |listing| && listing[j] == b;
    assert i < j ==> id(listing[i]) != id(listing[j]);
    assert j < i ==> id(listing[j]) != id(listing[i]);
  }

  lemma {:induction false} GroupDates(s: VoteSettings, p: Provenance, rows: seq<Stored>, listing: seq<Listed>,
          expected: int, keyOf: BalanceId -> VoteKey, keys: set<VoteKey>, key: VoteKey)
    requires DistinctRows(rows) && UniqueBalances(rows) && Keyed(rows, keyOf)
    requires DistinctListing(listing) && ListedUnder(s, listing, expected, keyOf)
    ensures AllDatedIn(s, p, rows, listing, expected, keys + {key})
            <==> AllDatedIn(s, p, rows, listing, expected, keys)
                 && Resolved(p, WithKey(Visible(rows), key), GroupOf(s, listing, expected, key))
  {
    hide GroupInput, KeyOf, Keyed, UniqueBalances, ListedUnder, ListedDate, Resolved, Admissible, DistinctRows,
         DistinctListing;
    GroupInputHolds(s, rows, listing, expected, key, keyOf);
    ResolvedExactly(p, Visible(rows), WithKey(Visible(rows), key), key, GroupOf(s, listing, expected, key));
  }

  lemma NewRowsShowTheirKey(key: VoteKey, rest: seq<Item>, freezing: bool, raw: seq<Listed>)
    requires AllDated(rest) && forall x :: x in rest ==> (x.choice, x.balance) in raw
    requires forall l :: l in raw ==> KeyOf(l.0, l.1) == key
    ensures NewRowsWellFormed(NewRowsOf(key, rest, freezing))
  {
    forall v | v in NewRowsOf(key, rest, freezing) ensures v.choice == v.key.choice && v.assetCode == v.key.code {
      var i :| 0 <= i < |rest| && NewRowsOf(key, rest, freezing)[i] == v;
      KeyShowsChoice((rest[i].choice, rest[i].balance));
      assert rest[i] in rest;
    }
  }

  /** A new row belongs to the balance's owner and keeps the date and amount it was first cast with. */
  ghost predicate HasTrueOrigin(p: Provenance, listing: seq<Listed>, v: Vote)
  {
    exists l :: l in listing && v.balanceId == Some(l.1.id) && v.createdAt.Some? && v.originalAmount.Some?
                && FirstCast(p, l.1) == Some((v.createdAt.value, v.originalAmount.value))
                && v.owner == TimesAndOwner(l.1.claimants, l.1.sponsor).1
  }

  ghost predicate TrueOrigins(p: Provenance, listing: seq<Listed>, created: seq<Vote>)
  {
    forall v :: v in created ==> HasTrueOrigin(p, listing, v)
  }

  lemma {:induction false} PlannedRowsAreNew(s: VoteSettings, p: Provenance, rows: seq<Stored>, listing: seq<Listed>,
          expected: int, endAt: Instant, freezing: bool, keyOf: BalanceId -> VoteKey, key: VoteKey, created: seq<Vote>,
          updates: seq<Stored>, processed: set<VoteId>, pairs: seq<Pair>, rest: seq<Item>)
    requires DistinctListing(listing)
    requires GroupResult(p, key, GroupOf(s, listing, expected, key), WithKey(Visible(rows), key), endAt, freezing,
                         created, updates, processed, pairs, rest)
    ensures NewRowsWellFormed(created) && TrueOrigins(p, listing, created)
  {
    hide Eligible, OnTimeRows, KeyOf, LateHolders, Service, TrueOrigins;
    var raw, existing := GroupOf(s, listing, expected, key), WithKey(Visible(rows), key);
    GroupDistinct(s, listing, expected, key);
    EligibleListed(p, existing, raw, endAt);
    MatchedListed(p, raw, OnTimeRows(existing, endAt), Eligible(p, existing, ItemsOf(raw), endAt), pairs, rest);
    NewRowsShowTheirKey(key, rest, freezing, raw);
    RestKeepsMetadata(p, existing, raw, endAt, pairs, rest);
    NewRowsHaveTrueOrigins(p, listing, raw, key, rest, freezing);
  }

  lemma NewRowsHaveTrueOrigins(p: Provenance, listing: seq<Listed>, raw: seq<Listed>, key: VoteKey, rest: seq<Item>,
          freezing: bool)
    requires AllDated(rest) && forall l :: l in raw ==> l in listing
    requires forall x :: x in rest && x.metadata.Some?
                         ==> (x.choice, x.balance) in raw
                             && x.metadata == ItemMetadata(p, Item(0, x.choice, x.balance, None))
    ensures TrueOrigins(p, listing, NewRowsOf(key, rest, freezing))
  {
    hide ItemMetadata, FirstCast, TimesAndOwner;
    forall v | v in NewRowsOf(key, rest, freezing) ensures HasTrueOrigin(p, listing, v) {
      var i :| 0 <= i < |rest| && NewRowsOf(key, rest, freezing)[i] == v;
      var x := rest[i];
      assert x in rest && (x.choice, x.balance) in listing;
      FirstCastIsMetadata(p, x.choice, x.balance);
    }
  }

  /** The plan of the groups reconciled so far. */
  ghost predicate Planned(s: VoteSettings, p: Provenance, rows: seq<Stored>, listing: seq<Listed>, expected: int,
          endAt: Instant, freezing: bool, keys: set<VoteKey>, plan: Plan, covered: seq<Listed>)
  {
    && WriteLaw(Visible(rows), plan.updates, plan.created, plan.processed, covered, keys, endAt, freezing)
    && NewRowsWellFormed(plan.created) && TrueOrigins(p, listing, plan.created)
    && CoversCounted(s, p, rows, listing, expected, endAt, keys, covered)
    && ShieldLaw(s, rows, listing, expected, endAt, keys, plan.updates, plan.processed)
    && RankLaw(plan.updates, plan.created)
  }

  lemma {:induction false} GroupRanksPlan(s: VoteSettings, p: Provenance, rows: seq<Stored>, listing: seq<Listed>,
          expected: int, endAt: Instant, freezing: bool, keyOf: BalanceId -> VoteKey, keys: set<VoteKey>, key: VoteKey,
          plan: Plan, covered: seq<Listed>, created: seq<Vote>, updates: seq<Stored>, processed: set<VoteId>,
          pairs: seq<Pair>, rest: seq<Item>)
    requires DistinctRows(rows) && UniqueBalances(rows) && Keyed(rows, keyOf)
    requires DistinctListing(listing) && ListedUnder(s, listing, expected, keyOf) && key !in keys
    requires WriteLaw(Visible(rows), plan.updates, plan.created, plan.processed, covered, keys, endAt, freezing)
             && RankLaw(plan.updates, plan.created)
    requires GroupResult(p, key, GroupOf(s, listing, expected, key), WithKey(Visible(rows), key), endAt, freezing,
                         created, updates, processed, pairs, rest)
    ensures RankLaw(plan.updates + updates, plan.created + created)
  {
    hide WriteLaw, RankLaw, GroupInput, GroupResult, KeyOf, Keyed, UniqueBalances, ListedUnder, DistinctRows,
         DistinctListing, Eligible, CoveredOf;
    var all, raw := Visible(rows), GroupOf(s, listing, expected, key);
    var existing := WithKey(all, key);
    GroupInputHolds(s, rows, listing, expected, key, keyOf);
    InputFacts(all, existing, key, raw);
    GroupWrites(p, all, key, raw, existing, endAt, freezing, created, updates, processed, pairs, rest);
    GroupRanks(p, key, raw, existing, endAt, freezing, created, updates, processed, pairs, rest);
    JoinedRanks(all, plan.updates, plan.created, plan.processed, covered, keys, updates, created, processed,
                CoveredOf(Eligible(p, existing, ItemsOf(raw), endAt)), {key}, endAt, freezing);
  }

  /** The admissible listed balances of some keys. */
  ghost predicate LateUnder(s: VoteSettings, listing: seq<Listed>, expected: int, endAt: Instant, keys: set<VoteKey>,
          row: Stored)
  {
    && !OnTimeDate(row.vote.createdAt, endAt)
    && exists l :: l in listing && Admissible(s, l.1, expected) && KeyOf(l.0, l.1) in keys
                   && row.vote.balanceId == Some(l.1.id)
  }

  /** Shielded from the stale sweep are exactly the updated rows and the late rows still listed. */
  ghost predicate ShieldLaw(s: VoteSettings, rows: seq<Stored>, listing: seq<Listed>, expected: int, endAt: Instant,
          keys: set<VoteKey>, updates: seq<Stored>, processed: set<VoteId>)
  {
    forall row :: row in rows && !row.vote.hidden ==>
      (row.id in processed <==> HasUpdate(updates, row.id) || LateUnder(s, listing, expected, endAt, keys, row))
  }

  lemma {:induction false} GroupShieldsPlan(s: VoteSettings, p: Provenance, rows: seq<Stored>, listing: seq<Listed>,
          expected: int, endAt: Instant, freezing: bool, keyOf: BalanceId -> VoteKey, keys: set<VoteKey>, key: VoteKey,
          plan: Plan, created: seq<Vote>, updates: seq<Stored>, processed: set<VoteId>, pairs: seq<Pair>,
          rest: seq<Item>)
    requires DistinctRows(rows) && UniqueBalances(rows) && Keyed(rows, keyOf)
    requires DistinctListing(listing) && ListedUnder(s, listing, expected, keyOf)
    requires ShieldLaw(s, rows, listing, expected, endAt, keys, plan.updates, plan.processed)
    requires GroupResult(p, key, GroupOf(s, listing, expected, key), WithKey(Visible(rows), key), endAt, freezing,
                         created, updates, processed, pairs, rest)
    ensures ShieldLaw(s, rows, listing, expected, endAt, keys + {key}, plan.updates + updates,
                      plan.processed + processed)
  {
    hide GroupInput, GroupResult, KeyOf, Keyed, UniqueBalances, ListedUnder, OnTimeDate, Admissible, DistinctRows,
         DistinctListing, HasUpdate;
    var raw, existing := GroupOf(s, listing, expected, key), WithKey(Visible(rows), key);
    GroupInputHolds(s, rows, listing, expected, key, keyOf);
    forall row | row in rows && !row.vote.hidden
      ensures row.id in plan.processed + processed
              <==> HasUpdate(plan.updates + updates, row.id)
                   || LateUnder(s, listing, expected, endAt, keys + {key}, row) {
      GroupShields(p, Visible(rows), key, raw, existing, endAt, freezing, created, updates, processed, pairs, rest,
                   row);
      HasUpdateInEither(plan.updates, updates, row.id);
      LateInGroup(s, listing, expected, endAt, key, row);
      assert LateUnder(s, listing, expected, endAt, keys + {key}, row)
             <==> LateUnder(s, listing, expected, endAt, keys, row)
                  || LateUnder(s, listing, expected, endAt, {key}, row);
    }
  }

  lemma LateInGroup(s: VoteSettings, listing: seq<Listed>, expected: int, endAt: Instant, key: VoteKey, row: Stored)
    ensures LateListed(row, GroupOf(s, listing, expected, key), endAt)
            <==> LateUnder(s, listing, expected, endAt, {key}, row)
  {
    hide KeyOf, Admissible, OnTimeDate;
  }

  lemma HasUpdateInEither(u1: seq<Stored>, u2: seq<Stored>, id: VoteId)
    ensures HasUpdate(u1 + u2, id) <==> HasUpdate(u1, id) || HasUpdate(u2, id)
  {
    if HasUpdate(u1, id) || HasUpdate(u2, id) {
      HasUpdateGrows(u1, u2, id);
    }
  }

  method PlanGroup(ix: Indexer, rows: seq<Stored>, listing: seq<Listed>, expected: int, endAt: Instant, freezing: bool,
          key: VoteKey, raw: seq<Listed>, plan: Plan, ghost keyOf: BalanceId -> VoteKey, ghost keys: set<VoteKey>,
          ghost covered: seq<Listed>)
      returns (next: Plan, ghost more: seq<Listed>)
    requires ix.Valid() && DistinctRows(rows) && UniqueBalances(rows) && Keyed(rows, keyOf)
    requires DistinctListing(listing) && ListedUnder(ix.settings, listing, expected, keyOf)
    requires key !in keys && raw == GroupOf(ix.settings, listing, expected, key)
    requires ix.incomplete == {} <==> AllDatedIn(ix.settings, ix.provenance, rows, listing, expected, keys)
    requires ix.incomplete == {}
             ==> Planned(ix.settings, ix.provenance, rows, listing, expected, endAt, freezing, keys, plan, covered)
    modifies ix`cache, ix`incomplete
    ensures ix.Valid()
    ensures ix.incomplete == {} <==> AllDatedIn(ix.settings, ix.provenance, rows, listing, expected, keys + {key})
    ensures ix.incomplete == {}
            ==> Planned(ix.settings, ix.provenance, rows, listing, expected, endAt, freezing, keys + {key}, next,
                        covered + more)
  {
    hide WriteLaw, GroupInput, Keyed, ListedUnder, UniqueBalances, DistinctListing, UsableListing, DistinctRows,
         DistinctHolders, KeyedHolders, Resolved, AllDatedIn, CoversCounted, SoundMatching, HasTrueOrigin, AllDated,
         Eligible, OnTimeRows, LateHolders, Belongs, ShieldLaw, RankLaw;
    var existing := WithKey(Visible(rows), key);
    GroupInputHolds(ix.settings, rows, listing, expected, key, keyOf);
    InputFacts(Visible(rows), existing, key, raw);
    GroupDates(ix.settings, ix.provenance, rows, listing, expected, keyOf, keys, key);
    var created, updates, processed;
    ghost var pairs, rest;
    created, updates, processed, pairs, rest :=
        ReconcileVoteGroup(ix, key, raw, existing, Visible(rows), endAt, freezing);
    next, more := Plan(plan.created + created, plan.updates + updates, plan.processed + processed), [];
    if ix.incomplete == {} {
      more :=
          GroupExtendsPlan(ix.settings, ix.provenance, rows, listing, expected, endAt, freezing, keyOf, keys, key,
                           plan, covered, created, updates, processed, pairs, rest);
      PlannedRowsAreNew(ix.settings, ix.provenance, rows, listing, expected, endAt, freezing, keyOf, key, created,
                        updates, processed, pairs, rest);
      GroupRanksPlan(ix.settings, ix.provenance, rows, listing, expected, endAt, freezing, keyOf, keys, key, plan,
                     covered, created, updates, processed, pairs, rest);
      GroupShieldsPlan(ix.settings, ix.provenance, rows, listing, expected, endAt, freezing, keyOf, keys, key, plan,
                       created, updates, processed, pairs, rest);
    }
  }

  lemma InputFacts(all: seq<Stored>, existing: seq<Stored>, key: VoteKey, raw: seq<Listed>)
    requires GroupInput(all, existing, key, raw)
    ensures DistinctListing(raw) && DistinctRows(existing) && DistinctHolders(existing)
            && KeyedHolders(all, existing, raw)
  {
  }

  lemma NothingPlanned(s: VoteSettings, p: Provenance, rows: seq<Stored>, listing: seq<Listed>, expected: int,
          endAt: Instant, freezing: bool)
    ensures Planned(s, p, rows, listing, expected, endAt, freezing, {}, Plan([], [], {}), [])
    ensures AllDatedIn(s, p, rows, listing, expected, {})
  {
    NothingWritten(Visible(rows), endAt, freezing);
  }

  /** The computed writes never meet the unique index, in any intermediate state. */
  lemma {:induction false} PlanNeverClashes(rows: seq<Stored>, nextId: VoteId, plan: Plan, covered: seq<Listed>,
          keys: set<VoteKey>, endAt: Instant, freezing: bool)
    requires Lawful(rows, nextId, plan, covered, keys, endAt, freezing)
    ensures var swept := Swept(rows, plan.processed);
            && (forall r :: r in swept ==> r.id < nextId)
            && (forall i, r :: 0 <= i < |plan.created| && r in swept && !r.vote.hidden
                               && plan.created[i].balanceId.Some?
                               ==> r.vote.balanceId != plan.created[i].balanceId)
            && (forall i :: 0 <= i < |plan.created| ==> !plan.created[i].hidden)
            && (forall i, j :: 0 <= i < j < |plan.created| ==> plan.created[i].balanceId != plan.created[j].balanceId)
            && DistinctRows(swept + Inserted(plan.created, nextId))
               && NoStepClashes(swept + Inserted(plan.created, nextId), plan.updates)
  {
    hide Lawful, OldRowAfter, Swept;
    var swept := Swept(rows, plan.processed);
    SweptShape(rows, plan.processed);
    LawfulIds(rows, nextId, plan, covered, keys, endAt, freezing);
    forall i | 0 <= i < |plan.created|
      ensures !plan.created[i].hidden && forall r :: r in swept && !r.vote.hidden
                                                     ==> r.vote.balanceId != plan.created[i].balanceId
    {
      NewRowBalance(rows, nextId, plan, covered, keys, endAt, freezing, i);
      forall r | r in swept && !r.vote.hidden ensures r.vote.balanceId != plan.created[i].balanceId {
        var k :| 0 <= k < |swept| && swept[k] == r;
        assert rows[k] in rows;
      }
    }
    forall i, j | 0 <= i < j < |plan.created| ensures plan.created[i].balanceId != plan.created[j].balanceId {
      CreatedApart(rows, nextId, plan, covered, keys, endAt, freezing, i, j);
    }
    forall k | 0 <= k < |swept| ensures swept[k].id < nextId {
      assert rows[k] in rows;
    }
    var staged := swept + Inserted(plan.created, nextId);
    forall i, j | 0 <= i < j < |staged| ensures staged[i].id != staged[j].id {
      assert j < |swept| ==> rows[i].id != rows[j].id;
    }
    UpdatesNeverClash(rows, nextId, plan, covered, keys, endAt, freezing, staged);
  }

  lemma SweptShape(rows: seq<Stored>, processed: set<VoteId>)
    ensures var swept := Swept(rows, processed);
            |swept| == |rows| && forall k :: 0 <= k < |rows|
                                             ==> swept[k].id == rows[k].id
                                                 && swept[k].vote.hidden == rows[k].vote.hidden
                                                 && swept[k].vote.balanceId == rows[k].vote.balanceId
  {
  }

  lemma {:induction false} UpdatesNeverClash(rows: seq<Stored>, nextId: VoteId, plan: Plan, covered: seq<Listed>,
          keys: set<VoteKey>, endAt: Instant, freezing: bool, staged: seq<Stored>)
    requires Lawful(rows, nextId, plan, covered, keys, endAt, freezing)
    requires staged == Swept(rows, plan.processed) + Inserted(plan.created, nextId)
    ensures NoStepClashes(staged, plan.updates)
  {
    hide Lawful, Swept, OldRowAfter, NoStepClashes;
    SweptShape(rows, plan.processed);
    forall i | 0 <= i < |plan.updates| ensures ClearFor(staged, plan.updates[i]) {
      UpdateNeverClashes(rows, nextId, plan, covered, keys, endAt, freezing, staged, i);
    }
    ClearStepsNeverClash(rows, nextId, plan, covered, keys, endAt, freezing, staged);
  }

  ghost predicate ClearFor(staged: seq<Stored>, u: Stored)
  {
    forall r :: r in staged
                ==> (r.id == u.id ==> !r.vote.hidden)
                    && (!r.vote.hidden && r.vote.balanceId == u.vote.balanceId ==> r.id == u.id)
  }

  lemma ClearStepsNeverClash(rows: seq<Stored>, nextId: VoteId, plan: Plan, covered: seq<Listed>, keys: set<VoteKey>,
          endAt: Instant, freezing: bool, staged: seq<Stored>)
    requires Lawful(rows, nextId, plan, covered, keys, endAt, freezing)
    requires forall i :: 0 <= i < |plan.updates| ==> ClearFor(staged, plan.updates[i])
    ensures NoStepClashes(staged, plan.updates)
  {
  }

  lemma {:induction false} UpdateNeverClashes(rows: seq<Stored>, nextId: VoteId, plan: Plan, covered: seq<Listed>,
          keys: set<VoteKey>, endAt: Instant, freezing: bool, staged: seq<Stored>, i: nat)
    requires Lawful(rows, nextId, plan, covered, keys, endAt, freezing) && i < |plan.updates|
    requires staged == Swept(rows, plan.processed) + Inserted(plan.created, nextId)
    ensures ClearFor(staged, plan.updates[i])
  {
    hide Lawful, Swept, OldRowAfter;
    SweptShape(rows, plan.processed);
    var u := plan.updates[i];
    UpdateOfVisible(rows, nextId, plan, covered, keys, endAt, freezing, u);
    UpdateBalance(rows, nextId, plan, covered, keys, endAt, freezing, i);
    forall r | r in staged
      ensures (r.id == u.id ==> !r.vote.hidden)
      && (!r.vote.hidden && r.vote.balanceId == u.vote.balanceId ==> r.id == u.id) {
      var k :| 0 <= k < |staged| && staged[k] == r;
      if k < |rows| {
        assert rows[k] in rows;
      } else {
        assert r == Stored(nextId + (k - |rows|), plan.created[k - |rows|]);
      }
    }
  }

  /** A balance an update hands over is held by no other visible row and given to no new row. */
  lemma UpdateBalance(rows: seq<Stored>, nextId: VoteId, plan: Plan, covered: seq<Listed>, keys: set<VoteKey>,
          endAt: Instant, freezing: bool, i: nat)
    requires Lawful(rows, nextId, plan, covered, keys, endAt, freezing) && i < |plan.updates|
    ensures forall r :: r in rows && !r.vote.hidden && r.vote.balanceId == plan.updates[i].vote.balanceId
                        ==> r.id == plan.updates[i].id
    ensures forall j :: 0 <= j < |plan.created| ==> plan.created[j].balanceId != plan.updates[i].vote.balanceId
  {
    hide KeyOf, OnTimeDate;
    var u := plan.updates[i];
    assert u in plan.updates && WrittenForSome(u.vote, covered, freezing);
    var l :| l in covered && WrittenFor(u.vote, l, freezing);
    forall r | r in rows && !r.vote.hidden && r.vote.balanceId == u.vote.balanceId ensures r.id == u.id {
      HeldIsMoved(rows, nextId, plan, covered, keys, endAt, freezing, r, l);
    }
  }

  /** A dated balance counts, as the code decides it, exactly when it was created on time. */
  lemma CountsTruly(s: VoteSettings, p: Provenance, rows: seq<Stored>, listing: seq<Listed>, expected: int,
          endAt: Instant, onTime: BalanceId -> bool, l: Listed)
    requires TrueDates(rows, endAt, onTime) && Agrees(p, listing, endAt, onTime)
    requires l in listing && Dated(s, p, rows, expected, l)
    ensures Counts(s, p, rows, expected, endAt, l) <==> Counted(s, expected, onTime, l)
  {
    hide MetadataOf, Admissible, FirstCast, ItemMetadata;
    FirstCastIsMetadata(p, l.0, l.1);
    var holder := HolderOf(Visible(rows), l.1.id);
    if holder.Some? {
      assert holder.value in rows && !holder.value.vote.hidden;
    }
  }

  /** A commit that covers only balances created on time keeps every stored date on the true side. */
  lemma {:induction false} CommitKeepsTrueDates(rows: seq<Stored>, nextId: VoteId, plan: Plan, covered: seq<Listed>,
          keys: set<VoteKey>, endAt: Instant, freezing: bool, keyOf: BalanceId -> VoteKey, onTime: BalanceId -> bool)
    requires Lawful(rows, nextId, plan, covered, keys, endAt, freezing) && Keyed(rows, keyOf)
             && NewRowsWellFormed(plan.created)
    requires TrueDates(rows, endAt, onTime) && forall l :: l in covered ==> onTime(l.1.id)
    ensures TrueDates(Committed(rows, nextId, plan, freezing), endAt, onTime)
  {
    hide Lawful, KeyOf, Committed, Keyed, OldRowAfter, OnTimeDate, HasUpdate;
    var after := Committed(rows, nextId, plan, freezing);
    CommittedRows(rows, nextId, plan, covered, keys, endAt, freezing);
    forall r | r in after && !r.vote.hidden && r.vote.balanceId.Some? && r.vote.createdAt.Some?
      ensures OnTimeDate(r.vote.createdAt, endAt) <==> onTime(r.vote.balanceId.value)
    {
      var k :| 0 <= k < |after| && after[k] == r;
      if k < |rows| {
        assert rows[k] in rows;
        OldRowOutcome(rows, nextId, plan, covered, keys, endAt, freezing, rows[k], keyOf);
      } else {
        NewRowOutcome(rows, nextId, plan, covered, keys, endAt, freezing, k - |rows|);
      }
    }
  }

  // ---- Ballots and rows ----

  /** The bound reads as a second within one of an hour after the end, and as its own epoch does. */
  ghost predicate UnlocksAfter(bound: UnlockBound, endAt: Instant)
  {
    && bound.parsed.Some? && ExpectedUnlock(endAt) - 1 <= bound.parsed.value <= ExpectedUnlock(endAt) + 1
    && match bound.epoch
       case NoEpoch => true
       case BadEpoch => false
       case Epoch(seconds) => seconds - 1 <= bound.parsed.value <= seconds + 1
  }

  /** A vote on chain: a supported asset, locked for some claimant until after the end and never otherwise. */
  ghost predicate IsBallot(s: VoteSettings, b: Balance, endAt: Instant)
  {
    && (b.asset == s.aqua || b.asset == s.ice || b.asset == s.gdice)
    && (exists i :: 0 <= i < |b.claimants| && b.claimants[i].bound.Some? && b.claimants[i].destination.Some?)
    && (forall i :: 0 <= i < |b.claimants| && b.claimants[i].bound.Some?
                    ==> UnlocksAfter(b.claimants[i].bound.value, endAt))
  }

  lemma {:induction false} BallotIsAdmissible(s: VoteSettings, b: Balance, endAt: Instant)
    ensures Admissible(s, b, ExpectedUnlock(endAt)) <==> IsBallot(s, b, endAt)
  {
    hide ExpectedUnlock, TimesAndOwner;
    OwnerIsLastBound(b.claimants, b.sponsor);
    forall i | 0 <= i < |b.claimants| && b.claimants[i].bound.Some?
      ensures BoundAgrees(b.claimants[i].bound.value, ExpectedUnlock(endAt))
              <==> UnlocksAfter(b.claimants[i].bound.value, endAt) {
    }
    if IsBallot(s, b, endAt) {
      var i :| 0 <= i < |b.claimants| && b.claimants[i].bound.Some? && b.claimants[i].destination.Some?;
      assert Bound(b.claimants[i]);
    } else if HasTimes(b) {
      var i :| 0 <= i < |b.claimants| && Bound(b.claimants[i]);
    }
  }

  /** A visible, unclaimed vote that was first cast by the end. */
  ghost predicate Standing(r: Stored, endAt: Instant)
  {
    !r.vote.hidden && !r.vote.claimed && r.vote.createdAt.Some? && r.vote.createdAt.value <= endAt
  }

  ghost predicate Mirrored(r: Stored, b: Balance, freezing: bool)
  {
    && r.vote.balanceId == Some(b.id) && r.vote.amount == Some(b.amount) && r.vote.link == b.link
    && r.vote.assetCode == b.asset.0 && (freezing ==> r.vote.votedAmount == Some(b.amount))
  }

  /** The standing votes for one choice are exactly the ballots cast in time for that choice's issuer. */
  ghost predicate Mirrors(s: VoteSettings, rows: seq<Stored>, choice: Choice, balances: seq<Balance>, endAt: Instant,
          onTime: BalanceId -> bool, freezing: bool)
  {
    && (forall r :: r in rows && Standing(r, endAt) && r.vote.choice == choice ==>
          exists b :: b in balances && IsBallot(s, b, endAt) && onTime(b.id) && Mirrored(r, b, freezing))
    && (forall b :: b in balances && IsBallot(s, b, endAt) && onTime(b.id) ==>
          exists r :: r in rows && Standing(r, endAt) && r.vote.choice == choice && Mirrored(r, b, freezing))
  }

  lemma {:induction false} ListedByChoice(votesFor: seq<Balance>, votesAgainst: seq<Balance>,
          abstained: Option<seq<Balance>>, l: Listed)
    ensures l in Listing(votesFor, votesAgainst, abstained)
            <==> match l.0
                 case VoteFor => l.1 in votesFor
                 case VoteAgainst => l.1 in votesAgainst
                 case VoteAbstain => abstained.Some? && l.1 in abstained.value
                 case OtherChoice => false
  {
    hide Tagged;
    TaggedExactly(VoteFor, votesFor, l);
    TaggedExactly(VoteAgainst, votesAgainst, l);
    if abstained.Some? {
      TaggedExactly(VoteAbstain, abstained.value, l);
    }
  }

  lemma {:induction false} TaggedExactly(choice: Choice, balances: seq<Balance>, l: Listed)
    ensures l in Tagged(choice, balances) <==> l.0 == choice && l.1 in balances
  {
    if l.0 == choice && l.1 in balances {
      var i :| 0 <= i < |balances| && balances[i] == l.1;
      assert Tagged(choice, balances)[i] == l;
    }
  }

  lemma {:induction false} StandingIsBallot(s: VoteSettings, rows: seq<Stored>, counted: seq<Listed>,
          balances: seq<Balance>, endAt: Instant, onTime: BalanceId -> bool, freezing: bool, r: Stored)
      returns (b: Balance)
    requires InStep(rows, counted, endAt, freezing)
    requires forall l :: l in counted && l.0 == r.vote.choice ==> l.1 in balances
    requires forall l :: l in counted ==> Counted(s, ExpectedUnlock(endAt), onTime, l)
    requires r in rows && Standing(r, endAt)
    ensures b in balances && IsBallot(s, b, endAt) && onTime(b.id) && Mirrored(r, b, freezing)
    ensures (r.vote.choice, b) in counted
  {
    hide KeyOf, ExpectedUnlock, Admissible, IsBallot;
    assert Live(r, endAt);
    var l :| l in counted && Shows(r, l, freezing);
    b := l.1;
    BallotIsAdmissible(s, b, endAt);
  }

  lemma {:induction false} BallotIsStanding(s: VoteSettings, rows: seq<Stored>, counted: seq<Listed>, choice: Choice,
          endAt: Instant, onTime: BalanceId -> bool, freezing: bool, b: Balance)
      returns (r: Stored)
    requires InStep(rows, counted, endAt, freezing)
    requires (choice, b) in counted
    ensures r in rows && Standing(r, endAt) && r.vote.choice == choice && Mirrored(r, b, freezing)
  {
    hide KeyOf;
    var l := (choice, b);
    r :| r in rows && Live(r, endAt) && Shows(r, l, freezing);
  }

  lemma {:induction false} InStepMirrors(s: VoteSettings, rows: seq<Stored>, counted: seq<Listed>, choice: Choice,
          balances: seq<Balance>, endAt: Instant, onTime: BalanceId -> bool, freezing: bool)
    requires InStep(rows, counted, endAt, freezing)
    requires forall l :: l in counted ==> Counted(s, ExpectedUnlock(endAt), onTime, l)
    requires forall l :: l in counted && l.0 == choice ==> l.1 in balances
    requires forall b :: b in balances && Counted(s, ExpectedUnlock(endAt), onTime, (choice, b))
                         ==> (choice, b) in counted
    ensures Mirrors(s, rows, choice, balances, endAt, onTime, freezing)
  {
    hide InStep, ExpectedUnlock, Admissible, IsBallot, Standing, Mirrored;
    forall r | r in rows && Standing(r, endAt) && r.vote.choice == choice
      ensures exists b :: b in balances && IsBallot(s, b, endAt) && onTime(b.id) && Mirrored(r, b, freezing) {
      var b := StandingIsBallot(s, rows, counted, balances, endAt, onTime, freezing, r);
    }
    forall b | b in balances && IsBallot(s, b, endAt) && onTime(b.id)
      ensures exists r :: r in rows && Standing(r, endAt) && r.vote.choice == choice && Mirrored(r, b, freezing) {
      BallotIsAdmissible(s, b, endAt);
      var r := BallotIsStanding(s, rows, counted, choice, endAt, onTime, freezing, b);
    }
  }

  /** Every standing vote, whichever its choice, is one of the three ballots. */
  ghost predicate RowsMirrorBallots(s: VoteSettings, rows: seq<Stored>, votesFor: seq<Balance>,
          votesAgainst: seq<Balance>, abstained: Option<seq<Balance>>, endAt: Instant, onTime: BalanceId -> bool,
          freezing: bool)
  {
    && Mirrors(s, rows, VoteFor, votesFor, endAt, onTime, freezing)
    && Mirrors(s, rows, VoteAgainst, votesAgainst, endAt, onTime, freezing)
    && Mirrors(s, rows, VoteAbstain, abstained.GetOr([]), endAt, onTime, freezing)
    && (forall r :: r in rows && Standing(r, endAt) ==> r.vote.choice in {VoteFor, VoteAgainst, VoteAbstain})
  }

  lemma {:induction false} InStepMirrorsBallots(s: VoteSettings, rows: seq<Stored>, counted: seq<Listed>,
          votesFor: seq<Balance>, votesAgainst: seq<Balance>, abstained: Option<seq<Balance>>, endAt: Instant,
          onTime: BalanceId -> bool, freezing: bool)
    requires InStep(rows, counted, endAt, freezing)
    requires forall l :: l in counted <==> l in Listing(votesFor, votesAgainst, abstained)
                                           && Counted(s, ExpectedUnlock(endAt), onTime, l)
    ensures RowsMirrorBallots(s, rows, votesFor, votesAgainst, abstained, endAt, onTime, freezing)
  {
    hide Listing, Counted, InStep, ExpectedUnlock, Mirrors, Standing;
    forall l | l in counted
      ensures l.0 in {VoteFor, VoteAgainst, VoteAbstain}
              && l.1 in BallotsFor(votesFor, votesAgainst, abstained, l.0) {
      ListedByChoice(votesFor, votesAgainst, abstained, l);
    }
    forall choice, b | b in BallotsFor(votesFor, votesAgainst, abstained, choice)
      ensures (choice, b) in Listing(votesFor, votesAgainst, abstained) {
      ListedByChoice(votesFor, votesAgainst, abstained, (choice, b));
    }
    InStepMirrors(s, rows, counted, VoteFor, votesFor, endAt, onTime, freezing);
    InStepMirrors(s, rows, counted, VoteAgainst, votesAgainst, endAt, onTime, freezing);
    InStepMirrors(s, rows, counted, VoteAbstain, abstained.GetOr([]), endAt, onTime, freezing);
    forall r | r in rows && Standing(r, endAt) ensures r.vote.choice in {VoteFor, VoteAgainst, VoteAbstain} {
      var l := StandingIsCounted(rows, counted, endAt, freezing, r);
    }
  }

  ghost function BallotsFor(votesFor: seq<Balance>, votesAgainst: seq<Balance>, abstained: Option<seq<Balance>>,
          choice: Choice): seq<Balance>
  {
    match choice
    case VoteFor => votesFor
    case VoteAgainst => votesAgainst
    case VoteAbstain => abstained.GetOr([])
    case OtherChoice => []
  }

  lemma {:induction false} StandingIsCounted(rows: seq<Stored>, counted: seq<Listed>, endAt: Instant, freezing: bool,
          r: Stored)
      returns (l: Listed)
    requires InStep(rows, counted, endAt, freezing) && r in rows && Standing(r, endAt)
    ensures l in counted && l.0 == r.vote.choice
  {
    hide KeyOf;
    assert Live(r, endAt);
    l :| l in counted && Shows(r, l, freezing);
  }

  ghost predicate Holds(r: Stored, b: Balance) { !r.vote.hidden && r.vote.balanceId == Some(b.id) }

  /** The ballot's date is known: from the visible row that holds it, else from Horizon. */
  ghost predicate Datable(p: Provenance, rows: seq<Stored>, b: Balance)
  {
    if exists r :: r in rows && Holds(r, b) then exists r :: r in rows && Holds(r, b) && r.vote.createdAt.Some?
    else FirstCast(p, b).Some?
  }

  ghost predicate AllDatable(s: VoteSettings, p: Provenance, rows: seq<Stored>, balances: seq<Balance>, endAt: Instant)
  {
    forall b :: b in balances && IsBallot(s, b, endAt) ==> Datable(p, rows, b)
  }

  lemma {:induction false} DatedIsDatable(s: VoteSettings, p: Provenance, rows: seq<Stored>, endAt: Instant, l: Listed)
    requires UniqueBalances(rows)
    ensures Dated(s, p, rows, ExpectedUnlock(endAt), l) <==> (IsBallot(s, l.1, endAt) ==> Datable(p, rows, l.1))
  {
    hide Admissible, IsBallot, FirstCast, ItemMetadata, ExpectedUnlock;
    BallotIsAdmissible(s, l.1, endAt);
    FirstCastIsMetadata(p, l.0, l.1);
    var holder := HolderOf(Visible(rows), l.1.id);
    if holder.Some? {
      assert Holds(holder.value, l.1);
      forall r | r in rows && Holds(r, l.1) ensures r == holder.value {
        SameBalanceSameRow(rows, r, holder.value);
      }
    } else {
      forall r | r in rows ensures !Holds(r, l.1) {
        assert !r.vote.hidden ==> r in Visible(rows);
      }
    }
  }

  lemma SameBalanceSameRow(rows: seq<Stored>, a: Stored, b: Stored)
    requires UniqueBalances(rows) && a in rows && b in rows
    requires a.vote.hidden == b.vote.hidden && a.vote.balanceId.Some? && a.vote.balanceId == b.vote.balanceId
    ensures a == b
  {
    var i :| 0 <= i < |rows| && rows[i] == a;
    var j :| 0 <= j < |rows| && rows[j] == b;
    assert !(i < j) && !(j < i);
  }

  lemma {:induction false} AllDatedIsDatable(s: VoteSettings, p: Provenance, rows: seq<Stored>, votesFor: seq<Balance>,
          votesAgainst: seq<Balance>, abstained: Option<seq<Balance>>, endAt: Instant)
    requires UniqueBalances(rows)
    ensures (forall l :: l in Listing(votesFor, votesAgainst, abstained)
                         ==> Dated(s, p, rows, ExpectedUnlock(endAt), l))
            <==> AllDatable(s, p, rows, votesFor, endAt) && AllDatable(s, p, rows, votesAgainst, endAt)
                 && AllDatable(s, p, rows, abstained.GetOr([]), endAt)
  {
    hide Listing, Dated, IsBallot, Datable, ExpectedUnlock, UniqueBalances;
    forall l
      ensures Dated(s, p, rows, ExpectedUnlock(endAt), l) <==> (IsBallot(s, l.1, endAt) ==> Datable(p, rows, l.1)) {
      DatedIsDatable(s, p, rows, endAt, l);
    }
    forall choice, b
      ensures (choice, b) in Listing(votesFor, votesAgainst, abstained)
              <==> match choice
                   case VoteFor => b in votesFor
                   case VoteAgainst => b in votesAgainst
                   case VoteAbstain => abstained.Some? && b in abstained.value
                   case OtherChoice => false {
      ListedByChoice(votesFor, votesAgainst, abstained, (choice, b));
    }
    if forall l :: l in Listing(votesFor, votesAgainst, abstained) ==> Dated(s, p, rows, ExpectedUnlock(endAt), l) {
      forall b | b in votesFor && IsBallot(s, b, endAt) ensures Datable(p, rows, b) {
        assert (VoteFor, b) in Listing(votesFor, votesAgainst, abstained);
      }
      forall b | b in votesAgainst && IsBallot(s, b, endAt) ensures Datable(p, rows, b) {
        assert (VoteAgainst, b) in Listing(votesFor, votesAgainst, abstained);
      }
      forall b | b in abstained.GetOr([]) && IsBallot(s, b, endAt) ensures Datable(p, rows, b) {
        assert (VoteAbstain, b) in Listing(votesFor, votesAgainst, abstained);
      }
    }
  }

  /** Nothing changes unless every admissible listed balance has a known original date; if it has,
      the committed live rows are exactly the listed, admissible balances created by the end. */
  method UpdateProposalVotesSnapshot(table: LogVotes, s: VoteSettings, p: Provenance, votesFor: seq<Balance>,
          votesAgainst: seq<Balance>, abstained: Option<seq<Balance>>, endAt: Instant, freezing: bool,
          ghost keyOf: BalanceId -> VoteKey, ghost onTime: BalanceId -> bool)
      returns (complete: bool, ghost counted: seq<Listed>, ghost plan: Plan)
    requires table.Valid() && Keyed(table.rows, keyOf)
    requires DistinctListing(Listing(votesFor, votesAgainst, abstained))
    requires ListedUnder(s, Listing(votesFor, votesAgainst, abstained), ExpectedUnlock(endAt), keyOf)
    requires TrueDates(table.rows, endAt, onTime)
             && Agrees(p, Listing(votesFor, votesAgainst, abstained), endAt, onTime)
    modifies table
    ensures table.Valid() && Keyed(table.rows, keyOf) && TrueDates(table.rows, endAt, onTime)
    ensures complete
            <==> AllDatable(s, p, old(table.rows), votesFor, endAt)
                 && AllDatable(s, p, old(table.rows), votesAgainst, endAt)
                 && AllDatable(s, p, old(table.rows), abstained.GetOr([]), endAt)
    ensures !complete ==> table.rows == old(table.rows) && table.nextId == old(table.nextId)
    ensures complete
            ==> table.rows == Committed(old(table.rows), old(table.nextId), plan, freezing)
                && InStep(table.rows, counted, endAt, freezing)
    ensures complete
            ==> RowsMirrorBallots(s, table.rows, votesFor, votesAgainst, abstained, endAt, onTime, freezing)
    ensures complete ==>
              forall k :: 0 <= k < |old(table.rows)| && !old(table.rows)[k].vote.hidden ==>
                k < |table.rows|
                && ClaimedExactly(s, old(table.rows)[k], table.rows[k], votesFor, votesAgainst, abstained, endAt)
    ensures complete ==> RanksFollowAmounts(table.rows, endAt)
    ensures complete ==> TrueOrigins(p, Listing(votesFor, votesAgainst, abstained), plan.created)
    ensures complete ==> |table.rows| == |old(table.rows)| + |plan.created|
                         && (forall k :: 0 <= k < |old(table.rows)| ==> KeepsOrigin(old(table.rows)[k], table.rows[k]))
                         && (forall i :: 0 <= i < |plan.created|
                                         ==> table.rows[|old(table.rows)| + i]
                                             == Stored(old(table.nextId) + i, plan.created[i]))
    ensures complete ==> forall l :: l in counted
                                     <==> l in Listing(votesFor, votesAgainst, abstained)
                                          && Counted(s, ExpectedUnlock(endAt), onTime, l)
  {
    hide Keyed, ListedUnder, DistinctListing, InStep, Committed, KeepsOrigin, HasTrueOrigin, TrueDates, Agrees,
         RowsMirrorBallots, AllDatable, ClaimedExactly, Listing, Lawful, Counted, DistinctRows, UniqueBalances,
         RanksFollowAmounts;
    var draft;
    ghost var keys;
    complete, draft, counted, keys :=
        PlanSnapshot(table.rows, table.nextId, s, p, votesFor, votesAgainst, abstained, endAt, freezing, keyOf, onTime);
    plan := draft;
    if complete {
      CommitPlan(table, draft, freezing, counted, keys, endAt);
    }
  }

  /** Group after group; the plan counts only when every ballot could be dated. */
  method PlanSnapshot(rows: seq<Stored>, ghost nextId: VoteId, s: VoteSettings, p: Provenance, votesFor: seq<Balance>,
          votesAgainst: seq<Balance>, abstained: Option<seq<Balance>>, endAt: Instant, freezing: bool,
          ghost keyOf: BalanceId -> VoteKey, ghost onTime: BalanceId -> bool)
      returns (complete: bool, plan: Plan, ghost counted: seq<Listed>, ghost keys: set<VoteKey>)
    requires DistinctRows(rows) && UniqueBalances(rows) && (forall r :: r in rows ==> r.id < nextId)
             && Keyed(rows, keyOf)
    requires DistinctListing(Listing(votesFor, votesAgainst, abstained))
    requires ListedUnder(s, Listing(votesFor, votesAgainst, abstained), ExpectedUnlock(endAt), keyOf)
    requires TrueDates(rows, endAt, onTime) && Agrees(p, Listing(votesFor, votesAgainst, abstained), endAt, onTime)
    ensures complete
            <==> AllDatable(s, p, rows, votesFor, endAt) && AllDatable(s, p, rows, votesAgainst, endAt)
                 && AllDatable(s, p, rows, abstained.GetOr([]), endAt)
    ensures complete
            ==> Lawful(rows, nextId, plan, counted, keys, endAt, freezing)
                && SnapshotHolds(s, p, rows, Committed(rows, nextId, plan, freezing), nextId, plan, counted, votesFor,
                                 votesAgainst, abstained, endAt, freezing, keyOf, onTime)
  {
    hide Keyed, ListedUnder, DistinctListing, DistinctRows, UniqueBalances, Admissible, KeyOf, Planned, AllDatedIn,
         AllDatable, TrueDates, Agrees, Dated, Lawful, SnapshotHolds, CoversCounted, Listing, Committed;
    AllDatedIsDatable(s, p, rows, votesFor, votesAgainst, abstained, endAt);
    var expected, listing := ExpectedUnlock(endAt), Listing(votesFor, votesAgainst, abstained);
    var groups, order := BuildRawVoteGroups(s, listing, expected);
    var ix := new Indexer(s, p);
    plan, counted := Plan([], [], {}), [];
    NothingPlanned(s, p, rows, listing, expected, endAt, freezing);
    assert KeysBefore(order, 0) == {};
    for i := 0 to |order|
      invariant ix.Valid() && ix.settings == s && ix.provenance == p && fresh(ix)
      invariant ix.incomplete == {} <==> AllDatedIn(s, p, rows, listing, expected, KeysBefore(order, i))
      invariant ix.incomplete == {}
                ==> Planned(s, p, rows, listing, expected, endAt, freezing, KeysBefore(order, i), plan, counted)
    {
      NextKey(order, i);
      assert Group(groups, order[i]) == GroupOf(s, listing, expected, order[i]);
      ghost var more;
      plan, more :=
          PlanGroup(ix, rows, listing, expected, endAt, freezing, order[i], groups[order[i]], plan, keyOf,
                    KeysBefore(order, i), counted);
      counted := counted + more;
    }
    AllKeysGrouped(s, p, rows, listing, expected, endAt, groups, order, counted);
    keys := KeysBefore(order, |order|);
    complete := ix.incomplete == {};
    if complete {
      PlannedCovers(s, p, rows, listing, expected, endAt, freezing, keys, plan, counted);
      PlanHolds(s, p, rows, nextId, plan, counted, keys, votesFor, votesAgainst, abstained, endAt, freezing, keyOf,
                onTime);
    }
  }

  lemma PlannedCovers(s: VoteSettings, p: Provenance, rows: seq<Stored>, listing: seq<Listed>, expected: int,
          endAt: Instant, freezing: bool, keys: set<VoteKey>, plan: Plan, covered: seq<Listed>)
    requires Planned(s, p, rows, listing, expected, endAt, freezing, keys, plan, covered)
    ensures CoversCounted(s, p, rows, listing, expected, endAt, keys, covered)
  {
  }

  /** What a complete snapshot leaves, whatever the table held before. */
  ghost predicate SnapshotHolds(s: VoteSettings, p: Provenance, rows: seq<Stored>, after: seq<Stored>, nextId: VoteId,
          plan: Plan, counted: seq<Listed>, votesFor: seq<Balance>, votesAgainst: seq<Balance>,
          abstained: Option<seq<Balance>>, endAt: Instant, freezing: bool, keyOf: BalanceId -> VoteKey,
          onTime: BalanceId -> bool)
  {
    && DistinctRows(after) && UniqueBalances(after) && (forall r :: r in after ==> r.id < nextId + |plan.created|)
    && Keyed(after, keyOf) && TrueDates(after, endAt, onTime) && InStep(after, counted, endAt, freezing)
    && RowsMirrorBallots(s, after, votesFor, votesAgainst, abstained, endAt, onTime, freezing)
    && RanksFollowAmounts(after, endAt)
    && TrueOrigins(p, Listing(votesFor, votesAgainst, abstained), plan.created)
    && |after| == |rows| + |plan.created|
    && (forall k :: 0 <= k < |rows| ==> KeepsOrigin(rows[k], after[k]))
    && (forall i :: 0 <= i < |plan.created| ==> after[|rows| + i] == Stored(nextId + i, plan.created[i]))
    && (forall k :: 0 <= k < |rows| && !rows[k].vote.hidden
                    ==> ClaimedExactly(s, rows[k], after[k], votesFor, votesAgainst, abstained, endAt))
    && (forall l :: l in counted
                    <==> l in Listing(votesFor, votesAgainst, abstained)
                         && Counted(s, ExpectedUnlock(endAt), onTime, l))
  }

  lemma {:induction false} PlanHolds(s: VoteSettings, p: Provenance, rows: seq<Stored>, nextId: VoteId, plan: Plan,
          counted: seq<Listed>, keys: set<VoteKey>, votesFor: seq<Balance>, votesAgainst: seq<Balance>,
          abstained: Option<seq<Balance>>, endAt: Instant, freezing: bool, keyOf: BalanceId -> VoteKey,
          onTime: BalanceId -> bool)
    requires DistinctRows(rows) && UniqueBalances(rows) && (forall r :: r in rows ==> r.id < nextId)
             && Keyed(rows, keyOf)
    requires TrueDates(rows, endAt, onTime) && Agrees(p, Listing(votesFor, votesAgainst, abstained), endAt, onTime)
    requires var listing, expected := Listing(votesFor, votesAgainst, abstained), ExpectedUnlock(endAt);
             && DistinctListing(listing) && ListedUnder(s, listing, expected, keyOf)
             && Planned(s, p, rows, listing, expected, endAt, freezing, keys, plan, counted)
             && (forall l :: l in listing ==> Dated(s, p, rows, expected, l))
             && (forall l :: l in counted <==> l in listing && Counts(s, p, rows, expected, endAt, l))
             && (forall l :: l in listing && Admissible(s, l.1, expected) ==> KeyOf(l.0, l.1) in keys)
    ensures Lawful(rows, nextId, plan, counted, keys, endAt, freezing)
            && SnapshotHolds(s, p, rows, Committed(rows, nextId, plan, freezing), nextId, plan, counted, votesFor,
                             votesAgainst, abstained, endAt, freezing, keyOf, onTime)
  {
    hide WriteLaw, Keyed, ListedUnder, DistinctListing, DistinctRows, UniqueBalances, Admissible, KeyOf, Counts,
         Counted, Dated, InStep, Committed, NewRowsWellFormed, KeepsOrigin, HasTrueOrigin, TrueDates, Agrees,
         RowsMirrorBallots, ShieldLaw, ClaimedExactly, Listing, ExpectedUnlock, Lawful, RankLaw, RanksFollowAmounts;
    var expected, listing := ExpectedUnlock(endAt), Listing(votesFor, votesAgainst, abstained);
    CoversTruly(s, p, rows, listing, expected, endAt, onTime, counted);
    CommitHolds(s, p, rows, nextId, listing, expected, endAt, freezing, keyOf, keys, plan, counted);
    CommitKeepsOrigins(rows, nextId, plan, counted, keys, endAt, freezing, keyOf);
    CommitKeepsTrueDates(rows, nextId, plan, counted, keys, endAt, freezing, keyOf, onTime);
    CommitClaimsExactly(s, rows, nextId, plan, counted, keys, freezing, keyOf, votesFor, votesAgainst, abstained,
                        endAt);
    CommitRanks(rows, nextId, plan, counted, keys, endAt, freezing, keyOf);
    InStepMirrorsBallots(s, Committed(rows, nextId, plan, freezing), counted, votesFor, votesAgainst, abstained, endAt,
                         onTime, freezing);
  }

  lemma CoversTruly(s: VoteSettings, p: Provenance, rows: seq<Stored>, listing: seq<Listed>, expected: int,
          endAt: Instant, onTime: BalanceId -> bool, covered: seq<Listed>)
    requires TrueDates(rows, endAt, onTime) && Agrees(p, listing, endAt, onTime)
    requires forall l :: l in listing ==> Dated(s, p, rows, expected, l)
    requires forall l :: l in covered <==> l in listing && Counts(s, p, rows, expected, endAt, l)
    ensures forall l :: l in covered <==> l in listing && Counted(s, expected, onTime, l)
    ensures forall l :: l in covered ==> onTime(l.1.id)
  {
    hide TrueDates, Agrees, Dated, Counts, Admissible;
    forall l | l in listing ensures Counts(s, p, rows, expected, endAt, l) <==> Counted(s, expected, onTime, l) {
      CountsTruly(s, p, rows, listing, expected, endAt, onTime, l);
    }
  }

  /** The three statements of the commit, in the order the transaction makes them. */
  method CommitPlan(table: LogVotes, plan: Plan, freezing: bool, ghost covered: seq<Listed>, ghost keys: set<VoteKey>,
          ghost endAt: Instant)
    requires Lawful(table.rows, table.nextId, plan, covered, keys, endAt, freezing)
    modifies table
    ensures table.rows == Committed(old(table.rows), old(table.nextId), plan, freezing)
    ensures table.nextId == old(table.nextId) + |plan.created|
  {
    hide Lawful, DistinctRows, NoStepClashes, Swept, Inserted;
    PlanNeverClashes(table.rows, table.nextId, plan, covered, keys, endAt, freezing);
    CommittedIs(table.rows, table.nextId, plan, freezing);
    table.MarkStale(plan.processed);
    table.BulkCreate(plan.created);
    table.BulkUpdate(plan.updates, freezing);
  }

  ghost function KeysBefore(order: seq<VoteKey>, n: nat): set<VoteKey>
    requires n <= |order|
  {
    set k | k in order[..n]
  }

  lemma NextKey(order: seq<VoteKey>, i: nat)
    requires i < |order| && forall i, j :: 0 <= i < j < |order| ==> order[i] != order[j]
    ensures order[i] !in KeysBefore(order, i) && KeysBefore(order, i + 1) == KeysBefore(order, i) + {order[i]}
  {
    assert order[..i + 1] == order[..i] + [order[i]];
  }

  lemma CommittedIs(rows: seq<Stored>, nextId: VoteId, plan: Plan, freezing: bool)
    ensures Committed(rows, nextId, plan, freezing)
            == Rewritten(Swept(rows, plan.processed) + Inserted(plan.created, nextId), plan.updates, freezing)
  {
  }

  lemma AllKeysGrouped(s: VoteSettings, p: Provenance, rows: seq<Stored>, listing: seq<Listed>, expected: int,
          endAt: Instant, groups: map<VoteKey, seq<Listed>>, order: seq<VoteKey>, covered: seq<Listed>)
    requires forall k :: Group(groups, k) == GroupOf(s, listing, expected, k)
    requires forall k :: k in order <==> k in groups
    ensures AllDatedIn(s, p, rows, listing, expected, KeysBefore(order, |order|))
            <==> forall l :: l in listing ==> Dated(s, p, rows, expected, l)
    ensures CoversCounted(s, p, rows, listing, expected, endAt, KeysBefore(order, |order|), covered)
            ==> forall l :: l in covered <==> l in listing && Counts(s, p, rows, expected, endAt, l)
    ensures forall l :: l in listing && Admissible(s, l.1, expected) ==> KeyOf(l.0, l.1) in KeysBefore(order, |order|)
  {
    hide Admissible, KeyOf, ListedDate;
    assert order[..|order|] == order;
    forall l | l in listing && Admissible(s, l.1, expected) ensures KeyOf(l.0, l.1) in KeysBefore(order, |order|) {
      assert l in GroupOf(s, listing, expected, KeyOf(l.0, l.1));
      assert l in Group(groups, KeyOf(l.0, l.1));
    }
  }

  lemma {:induction false} CommitHolds(s: VoteSettings, p: Provenance, rows: seq<Stored>, nextId: VoteId,
          listing: seq<Listed>, expected: int, endAt: Instant, freezing: bool, keyOf: BalanceId -> VoteKey,
          keys: set<VoteKey>, plan: Plan, covered: seq<Listed>)
    requires DistinctRows(rows) && UniqueBalances(rows) && (forall r :: r in rows ==> r.id < nextId)
             && Keyed(rows, keyOf)
    requires DistinctListing(listing) && ListedUnder(s, listing, expected, keyOf)
    requires Planned(s, p, rows, listing, expected, endAt, freezing, keys, plan, covered)
    ensures Lawful(rows, nextId, plan, covered, keys, endAt, freezing) && NewRowsWellFormed(plan.created)
    ensures var after := Committed(rows, nextId, plan, freezing);
            && DistinctRows(after) && UniqueBalances(after)
               && (forall r :: r in after ==> r.id < nextId + |plan.created|)
            && Keyed(after, keyOf) && InStep(after, covered, endAt, freezing)
  {
    hide WriteLaw, Keyed, DistinctListing, DistinctRows, UniqueBalances, Admissible, KeyOf, ListedDate, OnTimeDate,
         InStep, Committed, NewRowsWellFormed;
    assert OneEach(covered) by {
      forall a, b | a in covered && b in covered ensures a.1.id == b.1.id ==> a == b {
        OnceListed(listing, a, b);
      }
    }
    CommitIsInStep(rows, nextId, plan, covered, keys, endAt, freezing, keyOf);
    CommitKeepsUnique(rows, nextId, plan, covered, keys, endAt, freezing);
    CommitKeepsKeyed(rows, nextId, plan, covered, keys, endAt, freezing, keyOf);
  }

  /** A vote cast late, or never dated, whose balance is still among the ballots. */
  ghost predicate LateBallot(s: VoteSettings, r: Stored, votesFor: seq<Balance>, votesAgainst: seq<Balance>,
          abstained: Option<seq<Balance>>, endAt: Instant)
  {
    && (r.vote.createdAt.None? || r.vote.createdAt.value > endAt)
    && exists b :: (b in votesFor || b in votesAgainst || b in abstained.GetOr([])) && IsBallot(s, b, endAt)
                   && r.vote.balanceId == Some(b.id)
  }

  /** A visible old row ends up standing, or claimed - unless it was cast late and is still a ballot, when its
      mark stays what it was. */
  ghost predicate ClaimedExactly(s: VoteSettings, r: Stored, after: Stored, votesFor: seq<Balance>,
          votesAgainst: seq<Balance>, abstained: Option<seq<Balance>>, endAt: Instant)
  {
    after.vote.claimed
    <==> !Standing(after, endAt)
         && (r.vote.claimed || !LateBallot(s, r, votesFor, votesAgainst, abstained, endAt))
  }

  lemma {:induction false} LateBallotIsListed(s: VoteSettings, votesFor: seq<Balance>, votesAgainst: seq<Balance>,
          abstained: Option<seq<Balance>>, endAt: Instant, keys: set<VoteKey>, row: Stored)
    requires forall l :: l in Listing(votesFor, votesAgainst, abstained) && Admissible(s, l.1, ExpectedUnlock(endAt))
                         ==> KeyOf(l.0, l.1) in keys
    ensures LateUnder(s, Listing(votesFor, votesAgainst, abstained), ExpectedUnlock(endAt), endAt, keys, row)
            <==> LateBallot(s, row, votesFor, votesAgainst, abstained, endAt)
  {
    hide Listing, IsBallot, Admissible, ExpectedUnlock, KeyOf;
    var listing := Listing(votesFor, votesAgainst, abstained);
    if l :| l in listing && Admissible(s, l.1, ExpectedUnlock(endAt)) && row.vote.balanceId == Some(l.1.id) {
      ListedByChoice(votesFor, votesAgainst, abstained, l);
      BallotIsAdmissible(s, l.1, endAt);
    }
    if b :| (b in votesFor || b in votesAgainst || b in abstained.GetOr([])) && IsBallot(s, b, endAt)
            && row.vote.balanceId == Some(b.id) {
      var choice := if b in votesFor then VoteFor else if b in votesAgainst then VoteAgainst else VoteAbstain;
      ListedByChoice(votesFor, votesAgainst, abstained, (choice, b));
      BallotIsAdmissible(s, b, endAt);
      assert (choice, b) in listing;
    }
  }

  lemma {:induction false} CommitClaimsExactly(s: VoteSettings, rows: seq<Stored>, nextId: VoteId, plan: Plan,
          covered: seq<Listed>, keys: set<VoteKey>, freezing: bool, keyOf: BalanceId -> VoteKey,
          votesFor: seq<Balance>, votesAgainst: seq<Balance>, abstained: Option<seq<Balance>>, endAt: Instant)
    requires Lawful(rows, nextId, plan, covered, keys, endAt, freezing) && Keyed(rows, keyOf)
    requires ShieldLaw(s, rows, Listing(votesFor, votesAgainst, abstained), ExpectedUnlock(endAt), endAt, keys,
                       plan.updates, plan.processed)
    requires forall l :: l in Listing(votesFor, votesAgainst, abstained) && Admissible(s, l.1, ExpectedUnlock(endAt))
                         ==> KeyOf(l.0, l.1) in keys
    ensures var after := Committed(rows, nextId, plan, freezing);
            |after| >= |rows|
            && forall k :: 0 <= k < |rows| && !rows[k].vote.hidden
                           ==> ClaimedExactly(s, rows[k], after[k], votesFor, votesAgainst, abstained, endAt)
  {
    hide Lawful, Keyed, OldRowAfter, Committed, Shows, HasUpdate, ExpectedUnlock, Listing, LateUnder, LateBallot,
         Admissible, KeyOf;
    CommittedRows(rows, nextId, plan, covered, keys, endAt, freezing);
    forall k | 0 <= k < |rows| && !rows[k].vote.hidden
      ensures ClaimedExactly(s, rows[k], OldRowAfter(rows[k], plan, freezing), votesFor, votesAgainst, abstained, endAt)
    {
      OldRowOutcome(rows, nextId, plan, covered, keys, endAt, freezing, rows[k], keyOf);
      LateBallotIsListed(s, votesFor, votesAgainst, abstained, endAt, keys, rows[k]);
      SweptMark(rows[k], plan, freezing);
      assert rows[k] in rows;
    }
  }

  lemma SweptMark(r: Stored, plan: Plan, freezing: bool)
    requires !r.vote.hidden
    ensures !HasUpdate(plan.updates, r.id)
            ==> (OldRowAfter(r, plan, freezing).vote.claimed <==> r.vote.claimed || r.id !in plan.processed)
  {
  }

  /** Standing votes of one voter and choice are numbered by falling amount. */
  ghost predicate RanksFollowAmounts(rows: seq<Stored>, endAt: Instant)
  {
    forall a, b :: a in rows && b in rows && Standing(a, endAt) && Standing(b, endAt) ==> Ranked(a.vote, b.vote)
  }

  lemma {:induction false} StandingIsWritten(rows: seq<Stored>, nextId: VoteId, plan: Plan, covered: seq<Listed>,
          keys: set<VoteKey>, endAt: Instant, freezing: bool, keyOf: BalanceId -> VoteKey, r: Stored)
      returns (v: Vote)
    requires Lawful(rows, nextId, plan, covered, keys, endAt, freezing) && Keyed(rows, keyOf)
    requires r in Committed(rows, nextId, plan, freezing) && Standing(r, endAt)
    ensures IsWritten(plan.updates, plan.created, v)
    ensures v.key == r.vote.key && v.amount == r.vote.amount && v.groupIndex == r.vote.groupIndex
  {
    hide Lawful, Keyed, Committed, KeyOf, HasUpdate, Shows, UpdateFor;
    var after := Committed(rows, nextId, plan, freezing);
    CommittedRows(rows, nextId, plan, covered, keys, endAt, freezing);
    var k :| 0 <= k < |after| && after[k] == r;
    if k < |rows| {
      assert rows[k] in rows && Live(r, endAt);
      OldRowOutcome(rows, nextId, plan, covered, keys, endAt, freezing, rows[k], keyOf);
      v := UpdateOf(rows, nextId, plan, covered, keys, endAt, freezing, rows[k]);
    } else {
      v := plan.created[k - |rows|];
    }
  }

  lemma {:induction false} UpdateOf(rows: seq<Stored>, nextId: VoteId, plan: Plan, covered: seq<Listed>,
          keys: set<VoteKey>, endAt: Instant, freezing: bool, r: Stored)
      returns (v: Vote)
    requires Lawful(rows, nextId, plan, covered, keys, endAt, freezing) && r in rows && HasUpdate(plan.updates, r.id)
    ensures IsWritten(plan.updates, plan.created, v) && v.key == r.vote.key
    ensures OldRowAfter(r, plan, freezing).vote.amount == v.amount
            && OldRowAfter(r, plan, freezing).vote.groupIndex == v.groupIndex
            && OldRowAfter(r, plan, freezing).vote.key == r.vote.key
  {
    hide Lawful, OnTimeDate, WrittenFor;
    var u := UpdateFor(plan.updates, r.id);
    var i :| 0 <= i < |plan.updates| && plan.updates[i].id == r.id && plan.updates[i].vote == u.value;
    assert plan.updates[i] in plan.updates;
    UpdateOfVisible(rows, nextId, plan, covered, keys, endAt, freezing, plan.updates[i]);
    v := u.value;
  }

  lemma {:induction false} CommitRanks(rows: seq<Stored>, nextId: VoteId, plan: Plan, covered: seq<Listed>,
          keys: set<VoteKey>, endAt: Instant, freezing: bool, keyOf: BalanceId -> VoteKey)
    requires Lawful(rows, nextId, plan, covered, keys, endAt, freezing) && Keyed(rows, keyOf)
    requires RankLaw(plan.updates, plan.created)
    ensures RanksFollowAmounts(Committed(rows, nextId, plan, freezing), endAt)
  {
    hide Lawful, Keyed, Committed, Standing, IsWritten;
    var after := Committed(rows, nextId, plan, freezing);
    forall a, b | a in after && b in after && Standing(a, endAt) && Standing(b, endAt) ensures Ranked(a.vote, b.vote) {
      var x := StandingIsWritten(rows, nextId, plan, covered, keys, endAt, freezing, keyOf, a);
      var y := StandingIsWritten(rows, nextId, plan, covered, keys, endAt, freezing, keyOf, b);
      assert Ranked(x, y);
    }
  }

  /** Old rows keep their identity, origin and order; new rows follow as planned. */
  lemma {:induction false} CommitKeepsOrigins(rows: seq<Stored>, nextId: VoteId, plan: Plan, covered: seq<Listed>,
          keys: set<VoteKey>, endAt: Instant, freezing: bool, keyOf: BalanceId -> VoteKey)
    requires Lawful(rows, nextId, plan, covered, keys, endAt, freezing) && Keyed(rows, keyOf)
    ensures var after := Committed(rows, nextId, plan, freezing);
            && |after| == |rows| + |plan.created| && (forall k :: 0 <= k < |rows| ==> KeepsOrigin(rows[k], after[k]))
            && (forall i :: 0 <= i < |plan.created| ==> after[|rows| + i] == Stored(nextId + i, plan.created[i]))
  {
    hide Lawful, Keyed, KeepsOrigin, OldRowAfter, Committed, Live, Shows, HasUpdate;
    CommittedRows(rows, nextId, plan, covered, keys, endAt, freezing);
    forall k | 0 <= k < |rows| ensures KeepsOrigin(rows[k], OldRowAfter(rows[k], plan, freezing)) {
      OldRowOutcome(rows, nextId, plan, covered, keys, endAt, freezing, rows[k], keyOf);
    }
  }
}
