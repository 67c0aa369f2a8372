/** Tracing a replaced claimable balance back to the balance its voter first created. */
module ClaimableTrace {
  import opened Domain

  type BalanceId = string

  datatype OperationKind = CreateBalance | ClawbackBalance | OtherKind

  datatype Record = Record(
    kind: OperationKind,
    id: Option<string>,
    transaction: Option<string>,
    sponsor: Option<Account>,
    destinations: seq<Option<Account>>,
    balance: Option<BalanceId>)

  /** What Horizon lists, oldest first, for a balance and for a transaction. */
  datatype Horizon = Horizon(ofBalance: BalanceId -> seq<Record>, ofTransaction: string -> seq<Record>)

  // ---- Reading the records ----

  predicate SelfSponsored(r: Record) { r.sponsor.Some? && r.sponsor.value != "" && r.sponsor in r.destinations }

  method SponsorInClaimantDestinations(r: Record) returns (found: bool)
    ensures found <==> SelfSponsored(r)
  {
    if r.sponsor.None? || r.sponsor.value == "" {
      return false;
    }
    for i := 0 to |r.destinations|
      invariant r.sponsor !in r.destinations[..i]
    {
      if r.destinations[i] == r.sponsor {
        return true;
      }
    }
    return false;
  }

  function Creations(records: seq<Record>): seq<Record>
  {
    if records == [] then []
    else (if records[0].kind == CreateBalance then [records[0]] else []) + Creations(records[1..])
  }

  function SingleCreation(records: seq<Record>): Option<Record>
  {
    var found := Creations(records);
    if |found| == 1 then Some(found[0]) else None
  }

  /** A creation is accepted exactly when the records hold one, at one place. */
  lemma {:induction false} SingleCreationExact(records: seq<Record>, r: Record)
    ensures SingleCreation(records) == Some(r)
            <==> exists i :: 0 <= i < |records| && records[i] == r && forall j :: 0 <= j < |records|
                                                                                  ==> (records[j].kind == CreateBalance
                                                                                       <==> j == i)
  {
    CreationsCount(records);
    if i :| 0 <= i < |records| && records[i] == r && forall j :: 0 <= j < |records|
                                                                 ==> (records[j].kind == CreateBalance <==> j == i) {
      OneCreation(records, i);
    }
    if SingleCreation(records) == Some(r) {
      var i := CreationPlace(records, r);
    }
  }

  lemma {:induction false} CreationsCount(records: seq<Record>)
    ensures Creations(records) == [] <==> forall j :: 0 <= j < |records| ==> records[j].kind != CreateBalance
  {
    if records != [] {
      CreationsCount(records[1..]);
      if records[0].kind != CreateBalance && Creations(records[1..]) == [] {
        forall j | 0 <= j < |records| ensures records[j].kind != CreateBalance {
          assert j > 0 ==> records[j] == records[1..][j - 1];
        }
      } else if records[0].kind != CreateBalance {
        var j :| 0 <= j < |records[1..]| && records[1..][j].kind == CreateBalance;
        assert records[j + 1].kind == CreateBalance;
      }
    }
  }

  lemma {:induction false} OneCreation(records: seq<Record>, i: nat)
    requires i < |records| && forall j :: 0 <= j < |records| ==> (records[j].kind == CreateBalance <==> j == i)
    ensures Creations(records) == [records[i]]
  {
    if i == 0 {
      CreationsCount(records[1..]);
    } else {
      assert forall j :: 0 <= j < |records[1..]| ==> records[1..][j] == records[j + 1];
      OneCreation(records[1..], i - 1);
    }
  }

  lemma {:induction false} CreationPlace(records: seq<Record>, r: Record) returns (i: nat)
    requires Creations(records) == [r]
    ensures i < |records| && records[i] == r && forall j :: 0 <= j < |records|
                                                            ==> (records[j].kind == CreateBalance <==> j == i)
  {
    if records[0].kind == CreateBalance {
      assert Creations(records) == [records[0]] + Creations(records[1..]);
      assert Creations(records)[0] == records[0] && |Creations(records[1..])| == 0;
      CreationsCount(records[1..]);
      i := 0;
      forall j | 0 < j < |records| ensures records[j].kind != CreateBalance {
        assert records[j] == records[1..][j - 1];
      }
    } else {
      assert Creations(records) == Creations(records[1..]);
      var k := CreationPlace(records[1..], r);
      i := k + 1;
      forall j | 0 <= j < |records| ensures records[j].kind == CreateBalance <==> j == i {
        assert j > 0 ==> records[j] == records[1..][j - 1];
      }
    }
  }

  /** The text Python gives an identifier that may be missing. */
  function Spelled(id: Option<string>): string { id.GetOr("None") }

  ghost predicate FirstNamed(records: seq<Record>, id: string, i: nat)
  {
    i < |records| && Spelled(records[i].id) == id && forall j :: 0 <= j < i ==> Spelled(records[j].id) != id
  }

  /** The replaced balance: the clawback right before the creation in its own transaction. */
  ghost predicate ReplacedBy(records: seq<Record>, id: string, previous: BalanceId)
  {
    exists i :: 0 < i && FirstNamed(records, id, i) && records[i - 1].kind == ClawbackBalance
                && records[i - 1].balance == Some(previous)
  }

  function IndexOf(records: seq<Record>, id: string, from: nat): (r: nat)
    requires from <= |records|
    ensures from <= r <= |records| && (r < |records| ==> Spelled(records[r].id) == id)
    ensures forall j :: from <= j < r ==> Spelled(records[j].id) != id
    decreases |records| - from
  {
    if from == |records| || Spelled(records[from].id) == id then from else IndexOf(records, id, from + 1)
  }

  function PreviousBalance(records: seq<Record>, id: string): (r: Option<BalanceId>)
    ensures forall p :: r == Some(p) <==> ReplacedBy(records, id, p)
  {
    var i := IndexOf(records, id, 0);
    if i == |records| || i == 0 then None
    else if records[i - 1].kind != ClawbackBalance then None
    else
      assert FirstNamed(records, id, i);
      records[i - 1].balance
  }

  // ---- One step back ----

  datatype Step = Origin | Back(previous: BalanceId) | Stuck

  function StepFrom(h: Horizon, b: BalanceId): Step
  {
    var creation := SingleCreation(h.ofBalance(b));
    if creation.None? then Stuck
    else if SelfSponsored(creation.value) then Origin
    else if creation.value.transaction.None? || creation.value.id.None? then Stuck
    else
      var previous := PreviousBalance(h.ofTransaction(creation.value.transaction.value), creation.value.id.value);
      if previous.None? || previous.value == "" then Stuck else Back(previous.value)
  }

  /** Where the trace ends within a number of lookups. */
  function Trace(h: Horizon, b: BalanceId, depth: nat): Option<BalanceId>
    decreases depth
  {
    if depth == 0 then None
    else
      match StepFrom(h, b)
      case Origin => Some(b)
      case Back(previous) => Trace(h, previous, depth - 1)
      case Stuck => None
  }

  method FindOriginClaimableBalanceId(h: Horizon, start: BalanceId, maxDepth: int, perCallLimit: int)
      returns (origin: Option<BalanceId>)
    ensures origin == if start == "" || maxDepth < 1 || perCallLimit < 1 then None else Trace(h, start, maxDepth)
  {
    if start == "" || maxDepth < 1 || perCallLimit < 1 {
      return None;
    }
    var current := start;
    for depth := 0 to maxDepth
      invariant Trace(h, start, maxDepth) == Trace(h, current, maxDepth - depth)
    {
      var records := h.ofBalance(current);
      if records == [] {
        assert Creations(records) == [];
        return None;
      }
      var creation := SingleCreation(records);
      if creation.None? {
        return None;
      }
      var selfSponsored := SponsorInClaimantDestinations(creation.value);
      if selfSponsored {
        return Some(current);
      }
      if creation.value.transaction.None? || creation.value.id.None? {
        return None;
      }
      var previous := PreviousBalance(h.ofTransaction(creation.value.transaction.value), creation.value.id.value);
      if previous.None? || previous.value == "" {
        return None;
      }
      current := previous.value;
    }
    return None;
  }

  // ---- What the trace means ----

  /** The balance reached after a number of replacements undone. */
  function Ancestor(h: Horizon, b: BalanceId, k: nat): Option<BalanceId>
    decreases k
  {
    if k == 0 then Some(b)
    else
      match StepFrom(h, b)
      case Back(previous) => Ancestor(h, previous, k - 1)
      case _ => None
  }

  /** Undoing one replacement leaves the origin as it is, one lookup closer. */
  lemma OriginSurvivesReplacement(h: Horizon, b: BalanceId, previous: BalanceId, depth: nat)
    requires StepFrom(h, b) == Back(previous)
    ensures Trace(h, b, depth + 1) == Trace(h, previous, depth)
    ensures Trace(h, b, depth).Some? ==> Trace(h, previous, depth) == Trace(h, b, depth)
  {
    hide StepFrom;
    if Trace(h, b, depth).Some? {
      DeeperFindsTheSame(h, previous, depth - 1, depth);
    }
  }

  lemma {:induction false} DeeperFindsTheSame(h: Horizon, b: BalanceId, depth: nat, deeper: nat)
    requires depth <= deeper && Trace(h, b, depth).Some?
    ensures Trace(h, b, deeper) == Trace(h, b, depth)
    decreases depth
  {
    if StepFrom(h, b).Back? {
      DeeperFindsTheSame(h, StepFrom(h, b).previous, depth - 1, deeper - 1);
    }
  }

  /** Any number of replacements later the origin is still the same. */
  lemma {:induction false} OriginSurvivesReplacements(h: Horizon, b: BalanceId, k: nat, earlier: BalanceId, depth: nat)
    requires Ancestor(h, b, k) == Some(earlier) && Trace(h, b, depth).Some?
    ensures Trace(h, earlier, depth) == Trace(h, b, depth)
    decreases k
  {
    hide StepFrom;
    if k > 0 {
      var previous := StepFrom(h, b).previous;
      OriginSurvivesReplacement(h, b, previous, depth);
      OriginSurvivesReplacements(h, previous, k - 1, earlier, depth);
    }
  }

  /** The k-th ancestor is self-sponsored; nothing precedes it, so it is the first one that is. */
  ghost predicate OriginAt(h: Horizon, b: BalanceId, k: nat, origin: BalanceId)
  {
    Ancestor(h, b, k) == Some(origin) && StepFrom(h, origin) == Origin
  }

  /** The trace finds exactly the first self-sponsored ancestor within reach. */
  lemma {:induction false} TraceIsFirstOrigin(h: Horizon, b: BalanceId, depth: nat, origin: BalanceId)
    ensures Trace(h, b, depth) == Some(origin) <==> exists k: nat :: k < depth && OriginAt(h, b, k, origin)
    decreases depth
  {
    hide StepFrom;
    if depth > 0 {
      if Trace(h, b, depth) == Some(origin) {
        if StepFrom(h, b) == Origin {
          assert OriginAt(h, b, 0, origin);
        } else {
          TraceIsFirstOrigin(h, StepFrom(h, b).previous, depth - 1, origin);
          var k: nat :| k < depth - 1 && OriginAt(h, StepFrom(h, b).previous, k, origin);
          assert OriginAt(h, b, k + 1, origin);
        }
      }
      forall k: nat | k < depth && OriginAt(h, b, k, origin) ensures Trace(h, b, depth) == Some(origin) {
        if k > 0 {
          assert OriginAt(h, StepFrom(h, b).previous, k - 1, origin);
          TraceIsFirstOrigin(h, StepFrom(h, b).previous, depth - 1, origin);
        }
      }
    }
  }

  lemma {:induction false} AncestorsCompose(h: Horizon, b: BalanceId, i: nat, k: nat)
    requires Ancestor(h, b, i).Some?
    ensures Ancestor(h, b, i + k) == Ancestor(h, Ancestor(h, b, i).value, k)
    decreases i
  {
    if i > 0 {
      AncestorsCompose(h, StepFrom(h, b).previous, i - 1, k);
    }
  }

  /** An origin has no ancestor, so nothing lies beyond it. */
  lemma NothingBeyondOrigin(h: Horizon, b: BalanceId, i: nat, j: nat)
    requires i < j && Ancestor(h, b, j).Some?
    ensures Ancestor(h, b, i).Some? && StepFrom(h, Ancestor(h, b, i).value) != Origin
    decreases i
  {
    if i > 0 {
      NothingBeyondOrigin(h, StepFrom(h, b).previous, i - 1, j - 1);
    }
  }

  /** Data whose replacements go round in a circle has no origin at any depth. */
  lemma CyclesHaveNoOrigin(h: Horizon, b: BalanceId, i: nat, j: nat, depth: nat)
    requires i < j && Ancestor(h, b, i).Some? && Ancestor(h, b, i) == Ancestor(h, b, j)
    ensures Trace(h, b, depth).None?
  {
    if Trace(h, b, depth).Some? {
      var origin := Trace(h, b, depth).value;
      TraceIsFirstOrigin(h, b, depth, origin);
      var k: nat :| k < depth && OriginAt(h, b, k, origin);
      NoOriginOnCycle(h, b, i, j, k);
    }
  }

  /** No ancestor of a circling balance is self-sponsored. */
  lemma {:induction false} NoOriginOnCycle(h: Horizon, b: BalanceId, i: nat, j: nat, k: nat)
    requires i < j && Ancestor(h, b, i).Some? && Ancestor(h, b, i) == Ancestor(h, b, j)
    ensures Ancestor(h, b, k).Some? ==> StepFrom(h, Ancestor(h, b, k).value) != Origin
    decreases k
  {
    hide StepFrom;
    if k < j {
      NothingBeyondOrigin(h, b, k, j);
    } else {
      var back := k - j + i;
      AncestorsCompose(h, b, i, k - j);
      AncestorsCompose(h, b, j, k - j);
      NoOriginOnCycle(h, b, i, j, back);
    }
  }
}
