/** Claimable balances as Horizon lists them, stored vote rows, and the key that groups both. */
module VoteRecords {
  import opened Domain

  type BalanceId = string
  type VoteId = nat

  /** The three choices of a ballot; a stored row may hold something else. */
  datatype Choice = VoteFor | VoteAgainst | VoteAbstain | OtherChoice

  /** The epoch companion of an unlock bound: absent, unreadable, or seconds. */
  datatype EpochField = NoEpoch | BadEpoch | Epoch(seconds: int)

  /** A `not abs_before` bound: its text and the second it parses to, if it does. */
  datatype UnlockBound = UnlockBound(text: string, parsed: Option<int>, epoch: EpochField)

  datatype Claimant = Claimant(destination: Option<Account>, bound: Option<UnlockBound>)

  datatype Balance = Balance(
    id: BalanceId,
    asset: (string, string),
    amount: real,
    sponsor: Option<Account>,
    claimants: seq<Claimant>,
    link: string)

  datatype VoteKey = VoteKey(choice: Choice, owner: Option<Account>, code: string, times: multiset<string>)

  datatype Vote = Vote(
    key: VoteKey,
    groupIndex: int,
    balanceId: Option<BalanceId>,
    choice: Choice,
    amount: Option<real>,
    originalAmount: Option<real>,
    votedAmount: Option<real>,
    owner: Option<Account>,
    createdAt: Option<Instant>,
    link: string,
    assetCode: string,
    claimed: bool,
    hidden: bool)

  /** A stored row together with its primary key. */
  datatype Stored = Stored(id: VoteId, vote: Vote)

  datatype VoteSettings = VoteSettings(aqua: (string, string), ice: (string, string), gdice: (string, string))

  predicate SupportedAsset(s: VoteSettings, asset: (string, string)) { asset in [s.aqua, s.ice, s.gdice] }

  predicate SelfSponsored(b: Balance)
  {
    b.sponsor.Some? && b.sponsor.value != "" && exists i :: 0 <= i < |b.claimants|
                                                            && b.claimants[i].destination == b.sponsor
  }

  const TOLERANCE := 1

  predicate Near(a: int, b: int) { -TOLERANCE <= a - b <= TOLERANCE }

  /** One bound agrees with the expected unlock second and with its own epoch. */
  predicate BoundAgrees(bound: UnlockBound, expected: int)
  {
    && bound.parsed.Some? && bound.epoch != BadEpoch
    && (bound.epoch.Epoch? ==> Near(bound.parsed.value, bound.epoch.seconds))
    && Near(bound.parsed.value, expected)
  }

  predicate ValidUnlock(b: Balance, expected: int)
  {
    && (exists i :: 0 <= i < |b.claimants| && b.claimants[i].bound.Some?)
    && (forall i :: 0 <= i < |b.claimants| && b.claimants[i].bound.Some?
                    ==> BoundAgrees(b.claimants[i].bound.value, expected))
  }

  /** Owner and unlock texts of a balance: the last bound claimant owns it, else its sponsor. */
  function TimesAndOwner(claimants: seq<Claimant>, sponsor: Option<Account>): (seq<string>, Option<Account>)
  {
    if claimants == [] then ([], sponsor)
    else
      var last := claimants[|claimants| - 1];
      var earlier := TimesAndOwner(claimants[..|claimants| - 1], sponsor);
      if last.bound.Some?
          && last.destination.Some? then (earlier.0 + [last.bound.value.text], last.destination) else earlier
  }

  predicate Bound(c: Claimant) { c.bound.Some? && c.destination.Some? }

  /** The last bound claimant owns the balance, its sponsor only when there is none. */
  lemma {:induction false} OwnerIsLastBound(claimants: seq<Claimant>, sponsor: Option<Account>)
    ensures var to := TimesAndOwner(claimants, sponsor);
            && (to.0 == [] <==> forall i :: 0 <= i < |claimants| ==> !Bound(claimants[i]))
            && (to.0 == [] ==> to.1 == sponsor)
            && (to.0 != []
                ==> exists i :: 0 <= i < |claimants| && Bound(claimants[i]) && to.1 == claimants[i].destination
                                           && to.0[|to.0| - 1] == claimants[i].bound.value.text
                                           && forall j :: i < j < |claimants| ==> !Bound(claimants[j]))
  {
    if claimants != [] {
      var n := |claimants| - 1;
      var earlier := claimants[..n];
      OwnerIsLastBound(earlier, sponsor);
      assert forall i :: 0 <= i < n ==> earlier[i] == claimants[i];
      if Bound(claimants[n]) {
        assert TimesAndOwner(claimants, sponsor).0 == TimesAndOwner(earlier, sponsor).0
               + [claimants[n].bound.value.text];
      } else if TimesAndOwner(earlier, sponsor).0 != [] {
        var i :| 0 <= i < n && Bound(earlier[i]) && TimesAndOwner(earlier, sponsor).1 == earlier[i].destination
                 && TimesAndOwner(earlier, sponsor).0[|TimesAndOwner(earlier, sponsor).0| - 1]
                    == earlier[i].bound.value.text
                 && forall j :: i < j < n ==> !Bound(earlier[j]);
        assert Bound(claimants[i]);
      }
    }
  }

  method MakeTimeListAndOwner(b: Balance) returns (times: seq<string>, owner: Option<Account>)
    ensures (times, owner) == TimesAndOwner(b.claimants, b.sponsor)
  {
    times, owner := [], b.sponsor;
    for i := 0 to |b.claimants|
      invariant (times, owner) == TimesAndOwner(b.claimants[..i], b.sponsor)
    {
      assert b.claimants[..i + 1][..i] == b.claimants[..i];
      var claimant := b.claimants[i];
      if claimant.bound.Some? && claimant.destination.Some? {
        owner := claimant.destination;
        times := times + [claimant.bound.value.text];
      }
    }
    assert b.claimants[..|b.claimants|] == b.claimants;
  }

  predicate HasTimes(b: Balance) { TimesAndOwner(b.claimants, b.sponsor).0 != [] }

  function KeyOf(choice: Choice, b: Balance): VoteKey
  {
    var to := TimesAndOwner(b.claimants, b.sponsor);
    VoteKey(choice, to.1, b.asset.0, multiset(to.0))
  }

  /** A listed balance that can stand for a vote at all: asset, lock and a usable key. */
  predicate Admissible(s: VoteSettings, b: Balance, expected: int)
  {
    SupportedAsset(s, b.asset) && ValidUnlock(b, expected) && HasTimes(b)
  }

  /** The row parse_vote builds; `metadata` is the original creation date and amount. */
  function ParsedVote(key: VoteKey, index: int, choice: Choice, b: Balance, createdAt: Option<Instant>,
          originalAmount: Option<real>, voted: Option<real>, freezing: bool): Vote
  {
    Vote(key, index, Some(b.id), choice, Some(b.amount), originalAmount, if freezing then Some(b.amount) else voted,
         TimesAndOwner(b.claimants, b.sponsor).1, createdAt, b.link, b.asset.0, false, false)
  }

  /** parse_vote refuses an unsupported asset and a balance without a bound claimant. */
  function ParseVote(s: VoteSettings, key: VoteKey, index: int, choice: Choice, b: Balance, createdAt: Option<Instant>,
                     originalAmount: Option<real>, voted: Option<real>, freezing: bool): Option<Vote>
  {
    if !SupportedAsset(s, b.asset) || !HasTimes(b) then None
    else Some(ParsedVote(key, index, choice, b, createdAt, originalAmount, voted, freezing))
  }
}
