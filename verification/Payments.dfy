/** Verification of one payment: the paginated operation scan, the memo check and the verdict. */
module Payments {
  import opened Domain
  import opened Hashes
  import opened Memo

  datatype Environment = Environment(
    crypto: Crypto,
    aquaCode: string,
    aquaIssuer: Account,
    acceptLegacy: bool,
    bypass: bool,
    createCost: real,
    submitCost: real,
    horizonWeeks: int,
    expiredAfter: int)

  /** One operation record; `amount` is absent when it is not a finite decimal. */
  datatype Operation = Operation(
    token: string,
    isPayment: bool,
    successful: Option<bool>,
    assetCode: Option<string>,
    assetIssuer: Option<string>,
    to: Option<string>,
    amount: Option<real>,
    from: Option<string>)

  datatype Fault = NotFound | Unavailable

  /** The operations of a transaction as Horizon serves them page by page; `fault` names the
      page request that fails, counted from zero. */
  datatype OperationLog = OperationLog(records: seq<Operation>, fault: Option<(nat, Fault)>)

  datatype MemoField = NoMemo | OtherMemoType | UndecodableMemo | HashMemo(digest: string)

  datatype TransactionInfo = TransactionInfo(
    successful: bool,
    hash: Option<string>,
    innerHash: Option<string>,
    feeBumpHash: Option<string>,
    memo: MemoField)

  /** Everything Horizon says about one hash. */
  datatype Answer = Lookup(fault: Fault) | Found(info: TransactionInfo, log: OperationLog)

  datatype Scan =
    | Matched(operation: Operation)
    | Faulted(fault: Fault)
    | EmptyOperations
    | PayerMismatch
    | NoMatchingPayment

  datatype Reason =
    | Ok | Bypass | BadHashFormat | HorizonUnavailable | HorizonEmptyOperations | TransactionNotFound
    | TransactionFailed | NoPayment | WrongPayer | MemoMissing | MemoTypeMismatch | MemoMismatch | MemoUnrepresentable

  datatype CheckResult = CheckResult(
    status: PaymentStatus,
    reason: Reason,
    resolved: set<Hash>,
    payer: Option<Account>,
    format: Option<Format>)

  // ---- The scan ----

  /** Right asset, right destination, exact amount, in one operation that did not fail. */
  predicate PaysIssuer(env: Environment, op: Operation, amount: real)
  {
    && op.isPayment
    && op.successful != Some(false)
    && op.assetCode == Some(env.aquaCode)
    && op.assetIssuer == Some(env.aquaIssuer)
    && op.to == Some(env.aquaIssuer)
    && op.amount == Some(amount)
  }

  function PayerOf(env: Environment, op: Operation): Option<Account>
  {
    if op.from.Some? then env.crypto.account(op.from.value) else None
  }

  predicate PaysFrom(env: Environment, op: Operation, amount: real, payer: Account)
  {
    PaysIssuer(env, op, amount) && PayerOf(env, op) == Some(payer)
  }

  ghost predicate DistinctTokens(records: seq<Operation>)
  {
    && (forall i :: 0 <= i < |records| ==> records[i].token != "")
    && (forall i, j :: 0 <= i < j < |records| ==> records[i].token != records[j].token)
  }

  function PositionAfter(records: seq<Operation>, cursor: string): nat
    ensures PositionAfter(records, cursor) <= |records|
  {
    if records == [] then 0
    else if records[0].token == cursor then 1
    else 1 + PositionAfter(records[1..], cursor)
  }

  lemma {:induction false} PositionAfterToken(records: seq<Operation>, i: nat)
    requires DistinctTokens(records) && i < |records|
    ensures PositionAfter(records, records[i].token) == i + 1
  {
    if i > 0 {
      PositionAfterToken(records[1..], i - 1);
    }
  }

  function Min(a: nat, b: nat): nat { if a < b then a else b }

  /** One page: the records after `cursor`, at most `limit` of them. */
  function Page(records: seq<Operation>, cursor: string, limit: nat): seq<Operation>
  {
    var start := if cursor == "" then 0 else PositionAfter(records, cursor);
    records[start..Min(start + limit, |records|)]
  }

  /** How many records are served before the failing request, and whether it is ever made. */
  function ServedBefore(log: OperationLog, pageSize: nat): nat
  {
    if log.fault.None? then |log.records| else Min(log.fault.value.0 * pageSize, |log.records|)
  }

  predicate FaultReached(log: OperationLog, pageSize: nat)
  {
    log.fault.Some? && (log.fault.value.0 == 0 || (log.fault.value.0 - 1) * pageSize < |log.records|)
  }

  ghost predicate FirstMatch(env: Environment, records: seq<Operation>, amount: real, payer: Account, k: nat)
  {
    && k < |records|
    && PaysFrom(env, records[k], amount, payer)
    && forall i :: 0 <= i < k ==> !PaysFrom(env, records[i], amount, payer)
  }

  predicate SomePays(env: Environment, records: seq<Operation>, amount: real, payer: Account)
  {
    exists i :: 0 <= i < |records| && PaysFrom(env, records[i], amount, payer)
  }

  predicate SomePaysIssuer(env: Environment, records: seq<Operation>, amount: real)
  {
    exists i :: 0 <= i < |records| && PaysIssuer(env, records[i], amount)
  }

  function LeastMatch(env: Environment, records: seq<Operation>, amount: real, payer: Account): (k: nat)
    requires SomePays(env, records, amount, payer)
    ensures FirstMatch(env, records, amount, payer, k)
  {
    if PaysFrom(env, records[0], amount, payer) then 0
    else
      var i :| 0 <= i < |records| && PaysFrom(env, records[i], amount, payer);
      assert PaysFrom(env, records[1..][i - 1], amount, payer);
      var k := LeastMatch(env, records[1..], amount, payer);
      1 + k
  }

  /** The verdict of the scan over the whole log, whatever the page size. */
  function ScanVerdict(env: Environment, log: OperationLog, pageSize: nat, amount: real, payer: Account): Scan
  {
    var served := log.records[..ServedBefore(log, pageSize)];
    if SomePays(env, served, amount, payer) then Matched(served[LeastMatch(env, served, amount, payer)])
    else if FaultReached(log, pageSize) then Faulted(log.fault.value.1)
    else if |log.records| == 0 then EmptyOperations
    else if SomePaysIssuer(env, log.records, amount) then PayerMismatch
    else NoMatchingPayment
  }

  /** Pages through the whole log: every record once, in order, for every page size. */
  method LoadAllRecords(records: seq<Operation>, startCursor: string, pageSize: nat) returns (loaded: seq<Operation>)
    requires pageSize > 0 && DistinctTokens(records)
    ensures loaded == records[if startCursor == "" then 0 else PositionAfter(records, startCursor)..]
  {
    loaded := [];
    var cursor := startCursor;
    ghost var first := if startCursor == "" then 0 else PositionAfter(records, startCursor);
    ghost var at := first;
    while true
      invariant first <= at <= |records| && loaded == records[first..at]
      invariant at == if cursor == "" then 0 else PositionAfter(records, cursor)
      decreases |records| - at
    {
      var page := Page(records, cursor, pageSize);
      assert page == records[at..at + |page|];
      loaded := loaded + page;
      assert loaded == records[first..at + |page|];
      if |page| == 0 {
        assert at == |records| && records[first..at] == records[first..];
        break;
      }
      PositionAfterToken(records, at + |page| - 1);
      cursor := page[|page| - 1].token;
      at := at + |page|;
    }
  }

  /** The loop body over one page: the first operation that pays, and whether any paid the issuer. */
  method ScanPage(env: Environment, page: seq<Operation>, payer: Account, amount: real)
      returns (hit: Option<nat>, sawPaymentToIssuer: bool)
    ensures hit.Some? ==> FirstMatch(env, page, amount, payer, hit.value)
    ensures hit.None?
            ==> !SomePays(env, page, amount, payer) && (sawPaymentToIssuer <==> SomePaysIssuer(env, page, amount))
  {
    sawPaymentToIssuer := false;
    for i := 0 to |page|
      invariant forall k :: 0 <= k < i ==> !PaysFrom(env, page[k], amount, payer)
      invariant sawPaymentToIssuer <==> exists k :: 0 <= k < i && PaysIssuer(env, page[k], amount)
    {
      if PaysIssuer(env, page[i], amount) {
        sawPaymentToIssuer := true;
        if PayerOf(env, page[i]) == Some(payer) {
          return Some(i), true;
        }
      }
    }
    return None, sawPaymentToIssuer;
  }

  /** The scan as it runs: page after page, stopping at the first operation that pays. */
  method FindMatchingPaymentOperation(env: Environment, log: OperationLog, pageSize: nat, payer: Account, amount: real)
      returns (verdict: Scan)
    requires pageSize > 0 && DistinctTokens(log.records)
    ensures verdict == ScanVerdict(env, log, pageSize, amount, payer)
  {
    hide PositionAfter, PaysIssuer, PaysFrom;
    var sawPaymentToIssuer, sawAnyRecord := false, false;
    var cursor := "";
    var requests: nat := 0;
    ghost var at := 0;
    while true
      invariant at == Min(requests * pageSize, |log.records|)
      invariant at == if cursor == "" then 0 else PositionAfter(log.records, cursor)
      invariant log.fault.Some? ==> requests <= log.fault.value.0
      invariant requests > 0 ==> (requests - 1) * pageSize < |log.records|
      invariant sawAnyRecord <==> at > 0
      invariant sawPaymentToIssuer <==> SomePaysIssuer(env, log.records[..at], amount)
      invariant !SomePays(env, log.records[..at], amount, payer)
      decreases |log.records| - at
    {
      if log.fault.Some? && log.fault.value.0 == requests {
        return Faulted(log.fault.value.1);
      }
      var page := Page(log.records, cursor, pageSize);
      assert page == log.records[at..at + |page|];
      var hit, seen := ScanPage(env, page, payer, amount);
      if hit.Some? {
        HitIsVerdict(env, log, pageSize, amount, payer, at, page, hit.value, requests);
        return Matched(page[hit.value]);
      }
      if |page| == 0 {
        break;
      }
      PrefixGrows(env, log.records, at, page, amount, payer);
      PositionAfterToken(log.records, at + |page| - 1);
      NextPage(requests, pageSize);
      sawAnyRecord, sawPaymentToIssuer := true, sawPaymentToIssuer || seen;
      cursor := page[|page| - 1].token;
      at, requests := at + |page|, requests + 1;
    }
    assert log.records[..at] == log.records;
    NoFaultAfterLastPage(log, pageSize, requests);
    if !sawAnyRecord {
      return EmptyOperations;
    }
    verdict := if sawPaymentToIssuer then PayerMismatch else NoMatchingPayment;
  }

  lemma PrefixGrows(env: Environment, records: seq<Operation>, at: nat, page: seq<Operation>, amount: real,
          payer: Account)
    requires at + |page| <= |records| && page == records[at..at + |page|]
    ensures SomePaysIssuer(env, records[..at + |page|], amount)
            <==> SomePaysIssuer(env, records[..at], amount) || SomePaysIssuer(env, page, amount)
    ensures SomePays(env, records[..at + |page|], amount, payer)
            <==> SomePays(env, records[..at], amount, payer) || SomePays(env, page, amount, payer)
  {
    var longer, shorter := records[..at + |page|], records[..at];
    assert forall i :: 0 <= i < at ==> longer[i] == shorter[i];
    assert forall i :: 0 <= i < |page| ==> page[i] == longer[at + i];
    assert forall i :: at <= i < |longer| ==> longer[i] == page[i - at];
  }

  lemma ScaleMonotone(a: nat, b: nat, scale: nat)
    requires a <= b
    ensures a * scale <= b * scale
  {
  }

  lemma NextPage(requests: nat, pageSize: nat)
    ensures (requests + 1) * pageSize == requests * pageSize + pageSize
  {
  }

  lemma {:induction false} PageIsServed(log: OperationLog, pageSize: nat, at: nat, count: nat, requests: nat)
    requires at == Min(requests * pageSize, |log.records|)
    requires at + count <= |log.records| && count <= pageSize
    requires log.fault.Some? ==> requests < log.fault.value.0
    ensures at + count <= ServedBefore(log, pageSize)
  {
    if log.fault.Some? {
      NextPage(requests, pageSize);
      ScaleMonotone(requests + 1, log.fault.value.0, pageSize);
    }
  }

  lemma {:induction false} HitIsVerdict(env: Environment, log: OperationLog, pageSize: nat, amount: real,
          payer: Account, at: nat, page: seq<Operation>, k: nat, requests: nat)
    requires at == Min(requests * pageSize, |log.records|)
    requires at + |page| <= |log.records| && page == log.records[at..at + |page|] && |page| <= pageSize
    requires log.fault.Some? ==> requests < log.fault.value.0
    requires !SomePays(env, log.records[..at], amount, payer) && FirstMatch(env, page, amount, payer, k)
    ensures ScanVerdict(env, log, pageSize, amount, payer) == Matched(page[k])
  {
    hide PaysFrom;
    var served := log.records[..ServedBefore(log, pageSize)];
    PageIsServed(log, pageSize, at, |page|, requests);
    forall i | 0 <= i < at + k ensures !PaysFrom(env, served[i], amount, payer) {
      if i < at {
        assert log.records[..at][i] == served[i];
      } else {
        assert page[i - at] == served[i];
      }
    }
    assert served[at + k] == page[k];
    FirstMatchUnique(env, served, amount, payer, at + k);
  }

  lemma FirstMatchUnique(env: Environment, records: seq<Operation>, amount: real, payer: Account, k: nat)
    requires FirstMatch(env, records, amount, payer, k)
    ensures SomePays(env, records, amount, payer) && LeastMatch(env, records, amount, payer) == k
  {
    var m := LeastMatch(env, records, amount, payer);
    assert !(m < k) && !(k < m);
  }

  lemma NoFaultAfterLastPage(log: OperationLog, pageSize: nat, requests: nat)
    requires pageSize > 0 && requests * pageSize >= |log.records|
    requires log.fault.Some? ==> requests < log.fault.value.0
    ensures !FaultReached(log, pageSize)
    ensures ServedBefore(log, pageSize) == |log.records|
  {
    if log.fault.Some? {
      ScaleMonotone(requests, log.fault.value.0 - 1, pageSize);
      ScaleMonotone(requests, log.fault.value.0, pageSize);
    }
  }

  /** On a log served without faults the verdict is exact, and no page size changes it. */
  lemma ScanIsExact(env: Environment, records: seq<Operation>, pageSize: nat, amount: real, payer: Account)
    ensures var v := ScanVerdict(env, OperationLog(records, None), pageSize, amount, payer);
            && (v.Matched? <==> exists i :: 0 <= i < |records| && PaysFrom(env, records[i], amount, payer))
            && (v.PayerMismatch? <==> SomePaysIssuer(env, records, amount)
                                      && forall i :: 0 <= i < |records| && PaysIssuer(env, records[i], amount)
                                                     ==> PayerOf(env, records[i]) != Some(payer))
            && (v.EmptyOperations? <==> records == [])
            && (v.Matched? ==> v.operation in records && PaysFrom(env, v.operation, amount, payer))
            && !v.Faulted?
  {
    assert records[..|records|] == records;
  }

  // ---- The verdict ----

  function ValidHashes(candidates: seq<Option<string>>): set<Hash>
  {
    if candidates == [] then {}
    else
      (if candidates[0].Some? && IsTransactionHash(candidates[0].value) then {Lower(candidates[0].value)} else {})
      + ValidHashes(candidates[1..])
  }

  /** Every hash the payment answers to: the one asked about, its own, its inner and its outer one. */
  method ResolvedHashes(requested: Hash, info: TransactionInfo) returns (resolved: set<Hash>)
    ensures resolved == Resolved(requested, info)
    ensures forall h :: h in resolved <==> h == requested || Names(info.hash, h) || Names(info.innerHash, h)
                                           || Names(info.feeBumpHash, h)
  {
    ResolvedExactly(requested, info);
    resolved := {requested};
    var values := [info.hash, info.innerHash, info.feeBumpHash];
    for i := 0 to |values|
      invariant resolved + ValidHashes(values[i..]) == {requested} + ValidHashes(values)
    {
      if values[i].Some? && IsTransactionHash(values[i].value) {
        resolved := resolved + {Lower(values[i].value)};
      }
    }
  }

  /** The candidate is a hash, whichever its case, and `h` its lower-case spelling. */
  ghost predicate Names(candidate: Option<string>, h: Hash)
  {
    candidate.Some? && |candidate.value| == 64 && h == Lower(candidate.value) && IsCanonicalHash(h)
  }

  lemma {:induction false} ValidHashesExactly(candidates: seq<Option<string>>, h: Hash)
    ensures h in ValidHashes(candidates) <==> exists i :: 0 <= i < |candidates| && Names(candidates[i], h)
  {
    hide IsCanonicalHash;
    if candidates != [] {
      ValidHashesExactly(candidates[1..], h);
      assert forall i :: 1 <= i < |candidates| ==> candidates[i] == candidates[1..][i - 1];
      if i :| 0 <= i < |candidates[1..]| && Names(candidates[1..][i], h) {
        assert Names(candidates[i + 1], h);
      }
    }
  }

  lemma {:induction false} ResolvedExactly(requested: Hash, info: TransactionInfo)
    ensures forall h :: h in Resolved(requested, info)
                        <==> h == requested || Names(info.hash, h) || Names(info.innerHash, h)
                             || Names(info.feeBumpHash, h)
  {
    hide Names, ValidHashes;
    var values := [info.hash, info.innerHash, info.feeBumpHash];
    forall h ensures h in ValidHashes(values)
                     <==> Names(info.hash, h) || Names(info.innerHash, h) || Names(info.feeBumpHash, h) {
      ValidHashesExactly(values, h);
      assert values[0] == info.hash && values[1] == info.innerHash && values[2] == info.feeBumpHash;
    }
  }

  function Resolved(requested: Hash, info: TransactionInfo): set<Hash>
  {
    {requested} + ValidHashes([info.hash, info.innerHash, info.feeBumpHash])
  }

  lemma {:induction false} ValidHashesAreCanonical(candidates: seq<Option<string>>)
    ensures forall h :: h in ValidHashes(candidates) ==> IsCanonicalHash(h)
    ensures forall i :: 0 <= i < |candidates| && candidates[i].Some? && IsTransactionHash(candidates[i].value)
                        ==> Lower(candidates[i].value) in ValidHashes(candidates)
  {
    if candidates != [] {
      ValidHashesAreCanonical(candidates[1..]);
      assert forall i :: 1 <= i < |candidates| ==> candidates[i] == candidates[1..][i - 1];
    }
  }

  /** Both names of a fee-bumped payment resolve to both names, whichever was presented. */
  lemma FeeBumpNamesTogether(outer: Hash, inner: Hash, asked: Hash, info: TransactionInfo)
    requires IsCanonicalHash(outer) && IsCanonicalHash(inner) && asked in {outer, inner}
    requires info.hash == Some(asked) && info.innerHash == Some(inner) && info.feeBumpHash == Some(outer)
    ensures Resolved(asked, info) == {outer, inner}
  {
    CanonicalHashIsFixed(outer);
    CanonicalHashIsFixed(inner);
    var values := [info.hash, info.innerHash, info.feeBumpHash];
    assert values[1..] == [info.innerHash, info.feeBumpHash];
    assert values[1..][1..] == [info.feeBumpHash];
    assert values[1..][1..][1..] == [];
    assert ValidHashes(values[1..][1..]) == {outer};
    assert ValidHashes(values[1..]) == {inner, outer};
  }

  function MemoVerdict(memo: MemoField, e: Expectation): (Reason, Option<Format>)
  {
    match memo
    case NoMemo => (MemoMissing, None)
    case OtherMemoType => (MemoTypeMismatch, None)
    case UndecodableMemo => (MemoTypeMismatch, None)
    case HashMemo(digest) =>
      if !AcceptsAnything(e) then (MemoUnrepresentable, None)
      else
        var format := MatchMemo(e, digest);
        if format.None? then (MemoMismatch, None) else (Ok, format)
  }

  function Failing(status: PaymentStatus, reason: Reason): CheckResult
  {
    CheckResult(status, reason, {}, None, None)
  }

  function FaultResult(f: Fault): CheckResult
  {
    Failing(HorizonError, if f == NotFound then TransactionNotFound else HorizonUnavailable)
  }

  const PAGE_SIZE: nat := 200

  /** The verdict on one payment; the payment is judged before the memo. */
  function VerifyPayment(env: Environment, answer: Answer, hash: Hash, expectedPayer: string, expectation: Expectation,
          amount: real): CheckResult
  {
    if env.bypass then CheckResult(Fine, Bypass, {}, None, None)
    else if !IsTransactionHash(hash) then Failing(InvalidPayment, BadHashFormat)
    else if env.crypto.account(expectedPayer).None? then Failing(InvalidPayment, WrongPayer)
    else
      var requested := Lower(hash);
      var payer := env.crypto.account(expectedPayer).value;
      match answer
      case Lookup(f) => FaultResult(f)
      case Found(info, log) =>
        if !info.successful then Failing(FailedTransaction, TransactionFailed)
        else match ScanVerdict(env, log, PAGE_SIZE, amount, payer)
          case Faulted(f) => FaultResult(f)
          case EmptyOperations => Failing(HorizonError, HorizonEmptyOperations)
          case PayerMismatch => Failing(InvalidPayment, WrongPayer)
          case NoMatchingPayment => Failing(InvalidPayment, NoPayment)
          case Matched(operation) =>
            var m := MemoVerdict(info.memo, expectation);
            if m.0 != Ok then Failing(BadMemo, m.0)
            else CheckResult(Fine, Ok, Resolved(requested, info), PayerOf(env, operation), m.1)
  }

  /** The payment asked for: the exact amount of AQUA, sent to its issuer by the bound account. */
  ghost predicate Buys(env: Environment, op: Operation, amount: real, payer: Account)
  {
    && op.isPayment && op.successful != Some(false)
    && op.assetCode == Some(env.aquaCode) && op.assetIssuer == Some(env.aquaIssuer) && op.to == Some(env.aquaIssuer)
    && op.amount == Some(amount)
    && op.from.Some? && env.crypto.account(op.from.value) == Some(payer)
  }

  ghost predicate Commits(memo: MemoField, e: Expectation)
  {
    memo.HashMemo? && (e.canonical == Some(memo.digest) || e.legacy == Some(memo.digest))
  }

  /** What a settled, authorizing payment consists of. */
  ghost predicate Authorizes(env: Environment, answer: Answer, payer: Account, e: Expectation, amount: real)
  {
    && answer.Found? && answer.info.successful
    && (exists i :: 0 <= i < |answer.log.records| && Buys(env, answer.log.records[i], amount, payer))
    && Commits(answer.info.memo, e)
  }

  /** FINE is exact: it is granted to a settled payment from the bound account, for the exact
      amount, whose memo commits to the transition - and to nothing else. */
  lemma FineIffAuthorized(env: Environment, answer: Answer, hash: Hash, by_: string, e: Expectation, amount: real)
    requires !env.bypass && IsTransactionHash(hash) && env.crypto.account(by_).Some?
    requires answer.Found? ==> answer.log.fault.None?
    ensures VerifyPayment(env, answer, hash, by_, e, amount).status == Fine
            <==> Authorizes(env, answer, env.crypto.account(by_).value, e, amount)
  {
    if answer.Found? {
      ScanIsExact(env, answer.log.records, PAGE_SIZE, amount, env.crypto.account(by_).value);
      assert answer.log == OperationLog(answer.log.records, None);
    }
  }

  /** The operation was served: it stands on a page before the one whose request fails. */
  ghost predicate Served(log: OperationLog, i: int)
  {
    0 <= i < |log.records| && (log.fault.Some? ==> i < log.fault.value.0 * 200)
  }

  /** The failing request is made: it is the first one, or the page before it was not empty. */
  ghost predicate Breaks(log: OperationLog)
  {
    log.fault.Some? && (log.fault.value.0 == 0 || (log.fault.value.0 - 1) * 200 < |log.records|)
  }

  ghost predicate Bought(env: Environment, log: OperationLog, amount: real, payer: Account)
  {
    exists i :: Served(log, i) && Buys(env, log.records[i], amount, payer)
  }

  lemma ScanTaxonomy(env: Environment, log: OperationLog, amount: real, payer: Account)
    ensures var v := ScanVerdict(env, log, PAGE_SIZE, amount, payer);
            && (v.Matched? <==> Bought(env, log, amount, payer))
            && (v.Faulted? <==> !Bought(env, log, amount, payer) && Breaks(log))
            && (v.Faulted? ==> v.fault == log.fault.value.1)
            && (v.EmptyOperations? <==> !Breaks(log) && log.records == [])
            && (v.PayerMismatch? <==> !Bought(env, log, amount, payer) && !Breaks(log)
                                      && SomePaysIssuer(env, log.records, amount))
  {
    var served := log.records[..ServedBefore(log, PAGE_SIZE)];
    if SomePays(env, served, amount, payer) {
      var i :| 0 <= i < |served| && PaysFrom(env, served[i], amount, payer);
      assert Served(log, i) && Buys(env, log.records[i], amount, payer);
    } else if i :| Served(log, i) && Buys(env, log.records[i], amount, payer) {
      assert PaysFrom(env, served[i], amount, payer);
    }
  }

  /** Every verdict is exact on what Horizon answered. An infrastructure failure is never a verdict on the
      payment: HORIZON_ERROR is a failed lookup, a page fault before any paying operation, or an empty log. */
  lemma {:induction false} VerdictTaxonomy(env: Environment, answer: Answer, hash: Hash, by_: string, e: Expectation,
          amount: real)
    ensures var r := VerifyPayment(env, answer, hash, by_, e, amount);
            var asked := !env.bypass && IsTransactionHash(hash) && env.crypto.account(by_).Some?;
            var settled := asked && answer.Found? && answer.info.successful;
            var bought := settled && Bought(env, answer.log, amount, env.crypto.account(by_).value);
            && (r.status == HorizonError
                <==> asked && (answer.Lookup?
                               || (settled && !bought && (Breaks(answer.log) || answer.log.records == []))))
            && (r.status == FailedTransaction <==> asked && answer.Found? && !answer.info.successful)
            && (r.status == InvalidPayment
                <==> !env.bypass && (!asked || (settled && !bought && !Breaks(answer.log) && answer.log.records != [])))
            && (r.status == BadMemo <==> bought && !Commits(answer.info.memo, e))
            && (r.status == Fine <==> env.bypass || (bought && Commits(answer.info.memo, e)))
            && (r.reason == TransactionNotFound
                <==> asked && (answer == Lookup(NotFound)
                               || (settled && !bought && Breaks(answer.log) && answer.log.fault.value.1 == NotFound)))
  {
    hide ScanVerdict, Bought, Breaks, SomePaysIssuer, IsTransactionHash, Resolved;
    if answer.Found? && env.crypto.account(by_).Some? {
      ScanTaxonomy(env, answer.log, amount, env.crypto.account(by_).value);
    }
  }

  /** Why a payment is refused: which account paid, and what kind of memo it carries. */
  lemma {:induction false} RefusalReasons(env: Environment, answer: Answer, hash: Hash, by_: string, e: Expectation,
          amount: real)
    ensures var r := VerifyPayment(env, answer, hash, by_, e, amount);
            && (r.reason == BadHashFormat <==> !env.bypass && !IsTransactionHash(hash))
            && (r.status == InvalidPayment
                ==> (r.reason == WrongPayer
                     <==> IsTransactionHash(hash)
                          && (env.crypto.account(by_).None?
                              || SomePaysIssuer(env, answer.log.records, amount))))
            && (r.status == BadMemo
                ==> && (r.reason == MemoMissing <==> answer.info.memo.NoMemo?)
                    && (r.reason == MemoTypeMismatch <==> answer.info.memo in {OtherMemoType, UndecodableMemo})
                    && (r.reason == MemoUnrepresentable
                        <==> answer.info.memo.HashMemo? && e.canonical.None? && e.legacy.None?))
  {
    hide ScanVerdict, SomePays, LeastMatch, IsTransactionHash, Resolved, PaysIssuer;
    if answer.Found? && env.crypto.account(by_).Some? {
      ScanTaxonomy(env, answer.log, amount, env.crypto.account(by_).value);
    }
  }

  /** The soundness half needs no assumption about faults, and names the payer and the hashes. */
  lemma FineIsSound(env: Environment, answer: Answer, hash: Hash, by_: string, e: Expectation, amount: real)
    requires !env.bypass
    requires VerifyPayment(env, answer, hash, by_, e, amount).status == Fine
    ensures IsTransactionHash(hash) && env.crypto.account(by_).Some?
    ensures Authorizes(env, answer, env.crypto.account(by_).value, e, amount)
    ensures var r := VerifyPayment(env, answer, hash, by_, e, amount);
            && r.payer == env.crypto.account(by_)
            && r.resolved == Resolved(Lower(hash), answer.info)
            && Lower(hash) in r.resolved
            && (forall h :: h in r.resolved ==> IsCanonicalHash(h))
            && r.format == MatchMemo(e, answer.info.memo.digest)
  {
    var payer := env.crypto.account(by_).value;
    var served := answer.log.records[..ServedBefore(answer.log, PAGE_SIZE)];
    var k := LeastMatch(env, served, amount, payer);
    assert PaysFrom(env, answer.log.records[k], amount, payer);
    ValidHashesAreCanonical([answer.info.hash, answer.info.innerHash, answer.info.feeBumpHash]);
  }
}
