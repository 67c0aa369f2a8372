/** Spellings used inside a memo payload: decimals, second-precision UTC instants and the
    separator-joined framing.  Each spelling is shown to lose nothing. */
module MemoText {
  import opened Domain

  const SEPARATOR: char := '|'

  function DigitChar(d: nat): char
    requires d < 10
  {
    "0123456789"[d]
  }

  function Digits(n: nat): (s: string)
    ensures |s| >= 1
    ensures forall c :: c in s ==> '0' <= c <= '9'
  {
    if n < 10 then [DigitChar(n)] else Digits(n / 10) + [DigitChar(n % 10)]
  }

  function Decimal(n: int): string
  {
    if n < 0 then ['-'] + Digits(-n) else Digits(n)
  }

  function Pad2(n: nat): (s: string)
    requires n < 100
    ensures |s| == 2
    ensures forall c :: c in s ==> '0' <= c <= '9'
  {
    [DigitChar(n / 10), DigitChar(n % 10)]
  }

  lemma {:induction false} DigitsInjective(a: nat, b: nat)
    requires Digits(a) == Digits(b)
    ensures a == b
  {
    if a >= 10 && b >= 10 {
      assert Digits(a)[..|Digits(a)| - 1] == Digits(a / 10);
      assert Digits(b)[..|Digits(b)| - 1] == Digits(b / 10);
      assert Digits(a)[|Digits(a)| - 1] == DigitChar(a % 10);
      assert Digits(b)[|Digits(b)| - 1] == DigitChar(b % 10);
      DigitsInjective(a / 10, b / 10);
    }
  }

  lemma DigitsStartWithDigit(n: nat)
    ensures Digits(n)[0] != '-'
  {
    assert Digits(n)[0] in Digits(n);
  }

  lemma DecimalHasNoSeparator(n: int)
    ensures SEPARATOR !in Decimal(n)
  {
  }

  /** One decimal spelling per integer. */
  lemma DecimalInjective(a: int, b: int)
    requires Decimal(a) == Decimal(b)
    ensures a == b
  {
    var m: nat, n: nat := if a < 0 then -a else a, if b < 0 then -b else b;
    DigitsStartWithDigit(m);
    DigitsStartWithDigit(n);
    if a < 0 && b < 0 {
      assert Decimal(a)[1..] == Digits(m) && Decimal(b)[1..] == Digits(n);
    }
    DigitsInjective(m, n);
  }

  predicate IsLeap(year: nat) { year % 4 == 0 && (year % 100 != 0 || year % 400 == 0) }

  function DaysInYear(year: nat): nat { if IsLeap(year) then 366 else 365 }

  function DaysInMonth(year: nat, month: nat): nat
  {
    if month == 2 then (if IsLeap(year) then 29 else 28)
    else if month in {4, 6, 9, 11} then 30
    else 31
  }

  /** Year and zero-based day of that year, `days` after the first of January of `year`. */
  function YearAndDay(days: nat, year: nat): (r: (nat, nat))
    ensures r.0 >= year
    ensures r.1 < DaysInYear(r.0)
    decreases days
  {
    if days < DaysInYear(year) then (year, days) else YearAndDay(days - DaysInYear(year), year + 1)
  }

  /** Month and one-based day, `day` days after the first of `month`. */
  function MonthAndDay(day: nat, year: nat, month: nat): (r: (nat, nat))
    requires 1 <= month <= 12
    ensures month <= r.0 <= 12
    ensures 1 <= r.1
    decreases 12 - month
  {
    if month == 12 || day < DaysInMonth(year, month) then (month, day + 1)
    else MonthAndDay(day - DaysInMonth(year, month), year, month + 1)
  }

  function DaysFromMonth(year: nat, month: nat): nat
    requires 1 <= month <= 12
    decreases 12 - month
  {
    DaysInMonth(year, month) + if month == 12 then 0 else DaysFromMonth(year, month + 1)
  }

  lemma {:induction false} MonthDayFits(day: nat, year: nat, month: nat)
    requires 1 <= month <= 12
    requires day < DaysFromMonth(year, month)
    ensures MonthAndDay(day, year, month).1 <= 31
    decreases 12 - month
  {
    if month < 12 && day >= DaysInMonth(year, month) {
      MonthDayFits(day - DaysInMonth(year, month), year, month + 1);
    }
  }

  lemma MonthsFillTheYear(year: nat)
    ensures DaysFromMonth(year, 1) == DaysInYear(year)
  {
    assert DaysFromMonth(year, 10) == 92;
    assert DaysFromMonth(year, 7) == 184;
    assert DaysFromMonth(year, 4) == 275;
  }

  lemma {:induction false} YearAndDayInjective(a: nat, b: nat, year: nat)
    requires YearAndDay(a, year) == YearAndDay(b, year)
    ensures a == b
    decreases a
  {
    if a >= DaysInYear(year) && b >= DaysInYear(year) {
      YearAndDayInjective(a - DaysInYear(year), b - DaysInYear(year), year + 1);
    }
  }

  lemma {:induction false} MonthAndDayInjective(a: nat, b: nat, year: nat, month: nat)
    requires 1 <= month <= 12
    requires MonthAndDay(a, year, month) == MonthAndDay(b, year, month)
    ensures a == b
    decreases 12 - month
  {
    if month < 12 && a >= DaysInMonth(year, month) && b >= DaysInMonth(year, month) {
      MonthAndDayInjective(a - DaysInMonth(year, month), b - DaysInMonth(year, month), year, month + 1);
    }
  }

  function DateText(days: nat): string
  {
    var yd := YearAndDay(days, 1);
    MonthsFillTheYear(yd.0);
    var md := MonthAndDay(yd.1, yd.0, 1);
    MonthDayFits(yd.1, yd.0, 1);
    Decimal(yd.0) + ['-'] + Pad2(md.0) + ['-'] + Pad2(md.1)
  }

  function ClockText(second: nat): string
    requires second < 86_400
  {
    ['T'] + Pad2(second / 3600) + [':'] + Pad2(second / 60 % 60) + [':'] + Pad2(second % 60) + ['Z']
  }

  /** `YYYY-MM-DDTHH:MM:SSZ`, refused for an instant that carries a sub-second part. */
  function IsoUtcSeconds(t: Instant): Option<string>
  {
    if t < 0 || t % SECOND != 0 then None
    else
      var s := t / SECOND;
      Some(DateText(s / 86_400) + ClockText(s % 86_400))
  }

  lemma DigitCharInjective(a: nat, b: nat)
    requires a < 10 && b < 10 && DigitChar(a) == DigitChar(b)
    ensures a == b
  {
  }

  lemma Pad2Injective(a: nat, b: nat)
    requires a < 100 && b < 100
    ensures Pad2(a) == Pad2(b) <==> a == b
  {
    if Pad2(a) == Pad2(b) {
      assert Pad2(a)[0] == Pad2(b)[0] && Pad2(a)[1] == Pad2(b)[1];
      DigitCharInjective(a / 10, b / 10);
      DigitCharInjective(a % 10, b % 10);
      assert a == 10 * (a / 10) + a % 10;
    }
  }

  lemma SplitTail(p: string, q: string, a: string, b: string)
    requires |q| == |b|
    requires p + q == a + b
    ensures p == a && q == b
  {
    assert (p + q)[..|p|] == p && (a + b)[..|a|] == a;
    assert (p + q)[|p|..] == q && (a + b)[|a|..] == b;
  }

  lemma ClockParts(a: nat)
    ensures a == 3600 * (a / 3600) + 60 * (a / 60 % 60) + a % 60
  {
    assert a / 60 / 60 == a / 3600;
  }

  lemma ClockInjective(a: nat, b: nat)
    requires a < 86_400 && b < 86_400
    requires ClockText(a) == ClockText(b)
    ensures a == b
  {
    var u, v := ClockText(a), ClockText(b);
    assert u[1..3] == Pad2(a / 3600) && v[1..3] == Pad2(b / 3600);
    assert u[4..6] == Pad2(a / 60 % 60) && v[4..6] == Pad2(b / 60 % 60);
    assert u[7..9] == Pad2(a % 60) && v[7..9] == Pad2(b % 60);
    Pad2Injective(a / 3600, b / 3600);
    Pad2Injective(a / 60 % 60, b / 60 % 60);
    Pad2Injective(a % 60, b % 60);
    ClockParts(a);
    ClockParts(b);
  }

  lemma DateInjective(a: nat, b: nat)
    requires DateText(a) == DateText(b)
    ensures a == b
  {
    var ya, yb := YearAndDay(a, 1), YearAndDay(b, 1);
    MonthsFillTheYear(ya.0);
    MonthsFillTheYear(yb.0);
    MonthDayFits(ya.1, ya.0, 1);
    MonthDayFits(yb.1, yb.0, 1);
    var ma, mb := MonthAndDay(ya.1, ya.0, 1), MonthAndDay(yb.1, yb.0, 1);
    SplitTail(Decimal(ya.0) + ['-'] + Pad2(ma.0) + ['-'], Pad2(ma.1), Decimal(yb.0) + ['-'] + Pad2(mb.0) + ['-'],
              Pad2(mb.1));
    SplitTail(Decimal(ya.0) + ['-'] + Pad2(ma.0), ['-'], Decimal(yb.0) + ['-'] + Pad2(mb.0), ['-']);
    SplitTail(Decimal(ya.0) + ['-'], Pad2(ma.0), Decimal(yb.0) + ['-'], Pad2(mb.0));
    SplitTail(Decimal(ya.0), ['-'], Decimal(yb.0), ['-']);
    DecimalInjective(ya.0, yb.0);
    Pad2Injective(ma.0, mb.0);
    Pad2Injective(ma.1, mb.1);
    MonthAndDayInjective(ya.1, yb.1, ya.0, 1);
    YearAndDayInjective(a, b, 1);
  }

  /** One UTC spelling per instant that has one at all. */
  lemma IsoInjective(a: Instant, b: Instant)
    requires IsoUtcSeconds(a).Some? && IsoUtcSeconds(a) == IsoUtcSeconds(b)
    ensures a == b
  {
    var s, t := a / SECOND, b / SECOND;
    SplitTail(DateText(s / 86_400), ClockText(s % 86_400), DateText(t / 86_400), ClockText(t % 86_400));
    ClockInjective(s % 86_400, t % 86_400);
    DateInjective(s / 86_400, t / 86_400);
  }

  lemma IsoHasNoSeparator(t: Instant)
    requires IsoUtcSeconds(t).Some?
    ensures SEPARATOR !in IsoUtcSeconds(t).value
  {
    var yd := YearAndDay(t / SECOND / 86_400, 1);
    DecimalHasNoSeparator(yd.0);
  }

  /** Elements joined by one separator each, none trailing. */
  function Join(elements: seq<string>): string
    requires |elements| > 0
  {
    if |elements| == 1 then elements[0] else elements[0] + [SEPARATOR] + Join(elements[1..])
  }

  ghost predicate Framed(elements: seq<string>)
  {
    forall e :: e in elements ==> SEPARATOR !in e
  }

  lemma HeadsAgree(a: string, x: string, b: string, y: string)
    requires SEPARATOR !in a && SEPARATOR !in b
    requires a + [SEPARATOR] + x == b + [SEPARATOR] + y
    ensures a == b && x == y
  {
    var s := a + [SEPARATOR] + x;
    assert s[|a|] == SEPARATOR;
    assert s == b + [SEPARATOR] + y && s[|b|] == SEPARATOR;
    assert s[..|a|] == a && s[..|b|] == b;
    assert forall i :: 0 <= i < |a| ==> s[i] in a;
    assert forall i :: 0 <= i < |b| ==> s[i] in b;
    assert s[|a| + 1..] == x && s[|b| + 1..] == y;
  }

  lemma {:induction false} JoinCarriesSeparator(es: seq<string>)
    requires |es| > 1
    ensures SEPARATOR in Join(es)
  {
    assert Join(es)[|es[0]|] == SEPARATOR;
  }

  /** The framing is injective as long as no element carries the separator. */
  lemma {:induction false} JoinInjective(a: seq<string>, b: seq<string>)
    requires |a| > 0 && |b| > 0
    requires Framed(a) && Framed(b)
    requires Join(a) == Join(b)
    ensures a == b
    decreases |a|
  {
    if |a| == 1 || |b| == 1 {
      if |a| > 1 {
        JoinCarriesSeparator(a);
      } else if |b| > 1 {
        JoinCarriesSeparator(b);
      }
      assert a == [a[0]] && b == [b[0]];
    } else {
      HeadsAgree(a[0], Join(a[1..]), b[0], Join(b[1..]));
      JoinInjective(a[1..], b[1..]);
      assert a == [a[0]] + a[1..] && b == [b[0]] + b[1..];
    }
  }
}
