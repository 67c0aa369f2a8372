/** The governance payment memo: three payload grammars, their digests, and the match. */
module Memo {
  import opened Domain
  import opened MemoText

  /** The cryptography the memo relies on, as total functions. */
  datatype Crypto = Crypto(sha: string -> string, account: string -> Option<Account>)

  /** Hex digests and base32 account ids never contain the separator. */
  ghost predicate SeparatorFree(c: Crypto)
  {
    && (forall s :: SEPARATOR !in c.sha(s))
    && (forall a :: c.account(a).Some? ==> SEPARATOR !in c.account(a).value)
  }

  ghost predicate CollisionFree(c: Crypto)
  {
    forall a, b :: c.sha(a) == c.sha(b) ==> a == b
  }

  /** What a caller may hand over as a proposal id. */
  datatype IdArgument = IntegerId(number: int) | TextId(text: string) | UnusableId

  /** The fields one purpose commits to. */
  datatype Fields =
    | CreateFields(proposedBy: Option<string>, typeLiteral: string, title: Option<string>, html: Option<Html>)
    | UpdateFields(id: IdArgument, newTitle: Option<string>, newHtml: Option<Html>)
    | SubmitFields(id: IdArgument, start: Option<Instant>, end: Option<Instant>)

  datatype Format = Canonical | LegacyFormat

  datatype Expectation = Expectation(canonical: Option<string>, legacy: Option<string>)

  function TypeLiteral(t: ProposalType): string
  {
    match t
    case General => "GENERAL"
    case AddAsset => "ADD_ASSET"
    case RemoveAsset => "REMOVE_ASSET"
  }

  function Encoded(h: Option<Html>): Option<string>
  {
    match h
    case Some(Html(text)) => Some(text)
    case _ => None
  }

  predicate AllDigits(s: string) { forall i :: 0 <= i < |s| ==> '0' <= s[i] <= '9' }

  predicate CanonicalDigits(s: string) { |s| > 0 && AllDigits(s) && (|s| > 1 ==> s[0] != '0') }

  /** Accepts text only in the one spelling an integer has: no padding, no plus sign, no "-0". */
  predicate IsCanonicalDecimal(s: string)
  {
    CanonicalDigits(s) || (|s| > 1 && s[0] == '-' && s[1] != '0' && CanonicalDigits(s[1..]))
  }

  function IdElement(id: IdArgument): Option<string>
  {
    match id
    case IntegerId(n) => Some(Decimal(n))
    case TextId(s) => if IsCanonicalDecimal(s) then Some(s) else None
    case UnusableId => None
  }

  function LiteralElement(s: string): Option<string> { if SEPARATOR in s then None else Some(s) }

  function DigestElement(c: Crypto, s: Option<string>): Option<string>
  {
    if s.Some? then Some(c.sha(s.value)) else None
  }

  function IsoElement(t: Option<Instant>): Option<string> { if t.Some? then IsoUtcSeconds(t.value) else None }

  function AccountElement(c: Crypto, a: Option<string>): Option<string> { if a.Some? then c.account(a.value) else None }

  function PurposeWord(f: Fields): string
  {
    match f
    case CreateFields(_, _, _, _) => "CREATE"
    case UpdateFields(_, _, _) => "UPDATE"
    case SubmitFields(_, _, _) => "SUBMIT"
  }

  function Elements(c: Crypto, f: Fields): seq<Option<string>>
  {
    match f
    case CreateFields(who, literal, title, html) =>
      [AccountElement(c, who), LiteralElement(literal), DigestElement(c, title), DigestElement(c, Encoded(html))]
    case UpdateFields(id, title, html) =>
      [IdElement(id), DigestElement(c, title), DigestElement(c, Encoded(html))]
    case SubmitFields(id, start, end) =>
      [IdElement(id), IsoElement(start), IsoElement(end)]
  }

  predicate Representable(c: Crypto, f: Fields) { forall e :: e in Elements(c, f) ==> e.Some? }

  function Pieces(c: Crypto, f: Fields): seq<string>
    requires Representable(c, f)
  {
    var es := Elements(c, f);
    ["AQUA-GOV", "v1", PurposeWord(f)] + seq(|es|, i requires 0 <= i < |es| => es[i].value)
  }

  /** The preimage, or nothing when some element cannot be represented. */
  function Payload(c: Crypto, f: Fields): Option<string>
  {
    if Representable(c, f) then Some(Join(Pieces(c, f))) else None
  }

  /** The pre-v1 preimage is free text; a submit must be handed the current proposal text. */
  function LegacyPreimage(f: Fields, legacyText: Option<Html>): Option<string>
  {
    if legacyText.Some? then Encoded(legacyText)
    else match f
      case CreateFields(_, _, _, html) => Encoded(html)
      case UpdateFields(_, _, html) => Encoded(html)
      case SubmitFields(_, _, _) => None
  }

  function BuildExpectation(c: Crypto, f: Fields, legacyText: Option<Html>, acceptLegacy: bool): Expectation
  {
    Expectation(
      DigestElement(c, Payload(c, f)),
      if acceptLegacy then DigestElement(c, LegacyPreimage(f, legacyText)) else None)
  }

  predicate AcceptsAnything(e: Expectation) { e.canonical.Some? || e.legacy.Some? }

  /** The accepted digests are tried in order, canonical first. */
  function MatchMemo(e: Expectation, candidate: string): Option<Format>
  {
    if e.canonical.Some? && e.canonical.value == candidate then Some(Canonical)
    else if e.legacy.Some? && e.legacy.value == candidate then Some(LegacyFormat)
    else None
  }

  /** Legacy is reported only when the canonical digest does not match. */
  lemma MatchPrefersCanonical(e: Expectation, candidate: string)
    ensures MatchMemo(e, candidate) == Some(Canonical) <==> e.canonical == Some(candidate)
    ensures MatchMemo(e, candidate) == Some(LegacyFormat)
            <==> e.canonical != Some(candidate) && e.legacy == Some(candidate)
  {
  }

  function ValueOfDigits(s: string): nat
    requires AllDigits(s)
  {
    if |s| == 0 then 0 else 10 * ValueOfDigits(s[..|s| - 1]) + (s[|s| - 1] - '0') as nat
  }

  lemma DigitsAppend(v: nat, d: nat)
    requires v > 0 && d < 10
    ensures Digits(10 * v + d) == Digits(v) + [DigitChar(d)]
  {
    var n := 10 * v + d;
    assert n / 10 == v && n % 10 == d;
  }

  lemma {:induction false} CanonicalDigitsSpellValue(s: string)
    requires CanonicalDigits(s)
    ensures Digits(ValueOfDigits(s)) == s
    ensures s[0] != '0' ==> ValueOfDigits(s) > 0
  {
    var d := (s[|s| - 1] - '0') as nat;
    var init := s[..|s| - 1];
    assert s == init + [DigitChar(d)];
    if |s| > 1 {
      CanonicalDigitsSpellValue(init);
      DigitsAppend(ValueOfDigits(init), d);
    } else {
      assert init == "";
    }
  }

  /** Text is accepted exactly when it is the decimal spelling of an integer. */
  lemma {:induction false} TextIdAcceptedIff(s: string)
    ensures IdElement(TextId(s)).Some? <==> exists n :: s == Decimal(n)
  {
    hide Decimal, IsCanonicalDecimal;
    if IsCanonicalDecimal(s) {
      var n := CanonicalDecimalSpells(s);
    }
    if n :| s == Decimal(n) {
      DecimalIsCanonical(n);
    }
  }

  lemma {:induction false} CanonicalDecimalSpells(s: string) returns (n: int)
    requires IsCanonicalDecimal(s)
    ensures s == Decimal(n)
  {
    hide Digits, ValueOfDigits;
    if CanonicalDigits(s) {
      CanonicalDigitsSpellValue(s);
      n := ValueOfDigits(s);
    } else {
      CanonicalDigitsSpellValue(s[1..]);
      n := -(ValueOfDigits(s[1..]) as int);
      assert s == ['-'] + s[1..];
    }
  }

  lemma {:induction false} DigitsAreCanonical(n: nat)
    ensures CanonicalDigits(Digits(n))
    ensures n > 0 ==> Digits(n)[0] != '0'
  {
    if n >= 10 {
      DigitsAreCanonical(n / 10);
    }
  }

  lemma DecimalIsCanonical(n: int)
    ensures IsCanonicalDecimal(Decimal(n))
  {
    if n < 0 {
      DigitsAreCanonical(-n);
      assert Decimal(n)[1..] == Digits(-n);
    } else {
      DigitsAreCanonical(n);
    }
  }

  lemma IdElementNamesOneInteger(id: IdArgument) returns (n: int)
    requires IdElement(id).Some?
    ensures IdElement(id).value == Decimal(n)
  {
    match id
    case IntegerId(k) => n := k;
    case TextId(s) =>
      TextIdAcceptedIff(s);
      n :| s == Decimal(n);
  }

  lemma ElementsAreFramed(c: Crypto, f: Fields)
    requires SeparatorFree(c) && Representable(c, f)
    ensures forall e :: e in Elements(c, f) ==> SEPARATOR !in e.value
  {
    hide IdElement;
    var es := Elements(c, f);
    match f
    case CreateFields(_, _, _, _) =>
    case UpdateFields(id, _, _) =>
      assert es[0].Some?;
      var n := IdElementNamesOneInteger(id);
      DecimalHasNoSeparator(n);
    case SubmitFields(id, start, end) =>
      assert es[0].Some? && es[1].Some? && es[2].Some?;
      var n := IdElementNamesOneInteger(id);
      DecimalHasNoSeparator(n);
      IsoHasNoSeparator(start.value);
      IsoHasNoSeparator(end.value);
  }

  lemma PiecesAreFramed(c: Crypto, f: Fields)
    requires SeparatorFree(c) && Representable(c, f)
    ensures Framed(Pieces(c, f))
  {
    hide Elements, SeparatorFree;
    var es := Elements(c, f);
    ElementsAreFramed(c, f);
    forall e | e in Pieces(c, f) ensures SEPARATOR !in e {
      var i :| 0 <= i < |Pieces(c, f)| && e == Pieces(c, f)[i];
      if i >= 3 {
        assert e == es[i - 3].value;
      }
    }
  }

  /** Two sets of fields that name the same transition. */
  ghost predicate SameMeaning(c: Crypto, f: Fields, g: Fields)
  {
    match f
    case CreateFields(who, literal, title, html) =>
      g.CreateFields? && AccountElement(c, who) == AccountElement(c, g.proposedBy) && literal == g.typeLiteral
      && title == g.title && Encoded(html) == Encoded(g.html)
    case UpdateFields(id, title, html) =>
      g.UpdateFields? && IdElement(id) == IdElement(g.id) && title == g.newTitle && Encoded(html) == Encoded(g.newHtml)
    case SubmitFields(id, start, end) =>
      g.SubmitFields? && IdElement(id) == IdElement(g.id) && start == g.start && end == g.end
  }

  lemma EqualElements(c: Crypto, f: Fields, g: Fields)
    requires SeparatorFree(c) && Representable(c, f) && Representable(c, g)
    requires Payload(c, f) == Payload(c, g)
    ensures PurposeWord(f) == PurposeWord(g)
    ensures Elements(c, f) == Elements(c, g)
  {
    PiecesAreFramed(c, f);
    PiecesAreFramed(c, g);
    var p, q := Pieces(c, f), Pieces(c, g);
    JoinInjective(p, q);
    assert p[2] == PurposeWord(f) && q[2] == PurposeWord(g);
    var es, fs := Elements(c, f), Elements(c, g);
    assert |es| == |p| - 3 == |fs|;
    forall i | 0 <= i < |es| ensures es[i] == fs[i] {
      assert es[i].Some? && fs[i].Some?;
      assert p[i + 3] == es[i].value && q[i + 3] == fs[i].value;
    }
  }

  /** Equal payloads name the same purpose, the same account or proposal, and the same content. */
  lemma PayloadInjective(c: Crypto, f: Fields, g: Fields)
    requires SeparatorFree(c) && CollisionFree(c)
    requires Payload(c, f).Some? && Payload(c, f) == Payload(c, g)
    ensures SameMeaning(c, f, g)
  {
    EqualElements(c, f, g);
    var es, fs := Elements(c, f), Elements(c, g);
    match f
    case CreateFields(_, _, _, _) =>
      assert g.CreateFields?;
      assert es[0] == fs[0] && es[1] == fs[1] && es[2] == fs[2] && es[3] == fs[3];
      assert es[1].Some? && es[2].Some? && es[3].Some?;
    case UpdateFields(_, _, _) =>
      assert g.UpdateFields?;
      assert es[0] == fs[0] && es[1] == fs[1] && es[2] == fs[2];
      assert es[1].Some? && es[2].Some?;
    case SubmitFields(_, start, end) =>
      assert g.SubmitFields?;
      assert es[0] == fs[0] && es[1] == fs[1] && es[2] == fs[2];
      assert es[1].Some? && es[2].Some?;
      IsoInjective(start.value, g.start.value);
      IsoInjective(end.value, g.end.value);
  }

  /** One memo cannot commit canonically to two different transitions. */
  lemma CanonicalMemoCommits(c: Crypto, f: Fields, fText: Option<Html>, g: Fields, gText: Option<Html>, legacy: bool,
          candidate: string)
    requires SeparatorFree(c) && CollisionFree(c)
    requires MatchMemo(BuildExpectation(c, f, fText, legacy), candidate) == Some(Canonical)
    requires MatchMemo(BuildExpectation(c, g, gText, legacy), candidate) == Some(Canonical)
    ensures SameMeaning(c, f, g)
  {
    MatchPrefersCanonical(BuildExpectation(c, f, fText, legacy), candidate);
    MatchPrefersCanonical(BuildExpectation(c, g, gText, legacy), candidate);
    PayloadInjective(c, f, g);
  }

  /** The legacy digest of one expectation collides with the canonical digest of another exactly when
      the legacy text is that other payload: the prefix separates no domains. */
  lemma {:induction false} LegacyCollidesIff(c: Crypto, f: Fields, legacyText: Option<Html>, g: Fields)
    requires CollisionFree(c) && Payload(c, g).Some?
    ensures BuildExpectation(c, f, legacyText, true).legacy == BuildExpectation(c, g, None, false).canonical
            <==> LegacyPreimage(f, legacyText) == Payload(c, g)
  {
    hide Payload, LegacyPreimage;
    if LegacyPreimage(f, legacyText).Some? && c.sha(LegacyPreimage(f, legacyText).value) == c.sha(Payload(c, g).value) {
      assert LegacyPreimage(f, legacyText).value == Payload(c, g).value;
    }
  }

  /** Fields like `f` whose free text is `text`, and the text a submit carries beside its window. */
  function WithText(f: Fields, text: string): (Fields, Option<Html>)
  {
    match f
    case CreateFields(_, _, _, _) => (f.(html := Some(Html(text))), None)
    case UpdateFields(_, _, _) => (f.(newHtml := Some(Html(text))), None)
    case SubmitFields(_, _, _) => (f, Some(Html(text)))
  }

  /** Free text of every purpose can spell out every canonical payload; the payment that was meant
      for `g` is then accepted for `f` too, and reported as legacy unless both mean the same. */
  lemma {:induction false} LegacyTextCanSpellAPayload(c: Crypto, f: Fields, g: Fields)
    requires SeparatorFree(c) && CollisionFree(c) && Payload(c, g).Some?
    ensures var spelled := WithText(f, Payload(c, g).value);
            var expectation := BuildExpectation(c, spelled.0, spelled.1, true);
            && LegacyPreimage(spelled.0, spelled.1) == Payload(c, g)
            && MatchMemo(expectation, c.sha(Payload(c, g).value)).Some?
            && (MatchMemo(expectation, c.sha(Payload(c, g).value)) == Some(Canonical) ==> SameMeaning(c, spelled.0, g))
  {
    hide Payload;
    var spelled := WithText(f, Payload(c, g).value);
    if Payload(c, spelled.0) == Payload(c, g) {
      PayloadInjective(c, spelled.0, g);
    }
  }
}
