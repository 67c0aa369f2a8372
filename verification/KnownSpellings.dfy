/** The memo payload and its dates against independent references: the closed form of the civil calendar and
    the payload grammar written out. */
module KnownSpellings {
  import opened Domain
  import opened Calendar
  import opened MemoText
  import opened Memo

  // ---- The civil calendar in closed form ----

  /** Days before the first of January of `year`, counted from year 1. */
  function DaysBeforeYear(year: nat): int
    requires year >= 1
  {
    365 * (year - 1) + (year - 1) / 4 - (year - 1) / 100 + (year - 1) / 400
  }

  /** Days before the first of `month` in its year. */
  function DaysBeforeMonth(year: nat, month: nat): nat
    requires 1 <= month <= 12
  {
    [0, 31, 59, 90, 120, 151, 181, 212, 243, 273, 304, 334][month - 1] + if month > 2 && IsLeap(year) then 1 else 0
  }

  ghost predicate IsCivilDate(year: int, month: int, day: int)
  {
    year >= 1 && 1 <= month <= 12 && 1 <= day
    && day <= (if month == 2 then (if IsLeap(year) then 29 else 28) else if month in {4, 6, 9, 11} then 30 else 31)
  }

  lemma FourthYears(p: nat)
    ensures (p + 1) / 4 == p / 4 + if (p + 1) % 4 == 0 then 1 else 0
  {
  }

  lemma HundredthYears(p: nat)
    ensures (p + 1) / 100 == p / 100 + if (p + 1) % 100 == 0 then 1 else 0
  {
  }

  lemma FourHundredthYears(p: nat)
    ensures (p + 1) / 400 == p / 400 + if (p + 1) % 400 == 0 then 1 else 0
  {
  }

  lemma LeapParts(year: nat)
    ensures year % 400 == 0 ==> year % 100 == 0
    ensures year % 100 == 0 ==> year % 4 == 0
  {
    if year % 400 == 0 {
      assert year == 100 * (4 * (year / 400));
    }
    if year % 100 == 0 {
      assert year == 4 * (25 * (year / 100));
    }
  }

  lemma NextYear(year: nat)
    requires year >= 1
    ensures DaysBeforeYear(year + 1) == DaysBeforeYear(year) + DaysInYear(year)
  {
    FourthYears(year - 1);
    HundredthYears(year - 1);
    FourHundredthYears(year - 1);
    LeapParts(year);
  }

  lemma {:induction false} YearAndDayFrom(from: nat, year: nat, day: nat)
    requires 1 <= from <= year && day < DaysInYear(year)
    ensures DaysBeforeYear(from) <= DaysBeforeYear(year)
    ensures YearAndDay(DaysBeforeYear(year) - DaysBeforeYear(from) + day, from) == (year, day)
    decreases year - from
  {
    hide DaysBeforeYear;
    if from < year {
      NextYear(from);
      YearAndDayFrom(from + 1, year, day);
    }
  }

  lemma NextMonth(year: nat, month: nat)
    requires 1 <= month < 12
    ensures DaysBeforeMonth(year, month + 1) == DaysBeforeMonth(year, month) + DaysInMonth(year, month)
  {
  }

  lemma {:induction false} MonthAndDayFrom(from: nat, year: nat, month: nat, day: nat)
    requires 1 <= from <= month && IsCivilDate(year, month, day)
    ensures DaysBeforeMonth(year, from) <= DaysBeforeMonth(year, month)
    ensures MonthAndDay(DaysBeforeMonth(year, month) - DaysBeforeMonth(year, from) + day - 1, year, from)
            == (month, day)
    decreases month - from
  {
    hide DaysBeforeMonth;
    if from < month {
      NextMonth(year, from);
      MonthAndDayFrom(from + 1, year, month, day);
    }
  }

  lemma DayOfYearFits(year: nat, month: nat, day: nat)
    requires IsCivilDate(year, month, day)
    ensures DaysBeforeMonth(year, month) + day - 1 < DaysInYear(year)
  {
  }

  /** Every civil date is spelled at its own instant, with the clock in hours, minutes and seconds. */
  lemma {:induction false} CivilInstantIsSpelled(year: nat, month: nat, day: nat, hour: nat, minute: nat, second: nat)
    requires IsCivilDate(year, month, day) && hour < 24 && minute < 60 && second < 60
    ensures var days := DaysBeforeYear(year) + DaysBeforeMonth(year, month) + day - 1;
            IsoUtcSeconds(days * DAY + (3600 * hour + 60 * minute + second) * SECOND)
            == Some(Decimal(year) + "-" + Pad2(month) + "-" + Pad2(day)
                    + "T" + Pad2(hour) + ":" + Pad2(minute) + ":" + Pad2(second) + "Z")
  {
    hide YearAndDay, MonthAndDay, DaysBeforeMonth, Decimal, Pad2, DaysBeforeYear, DateText, ClockText;
    var ofYear := DaysBeforeMonth(year, month) + day - 1;
    var days := DaysBeforeYear(year) + ofYear;
    var clock := 3600 * hour + 60 * minute + second;
    CivilDateIsSpelled(year, month, day);
    ClockIsSpelled(hour, minute, second);
    InstantParts(days, clock);
    var date := Decimal(year) + "-" + Pad2(month) + "-" + Pad2(day);
    var time := "T" + Pad2(hour) + ":" + Pad2(minute) + ":" + Pad2(second) + "Z";
    assert IsoUtcSeconds(days * DAY + clock * SECOND) == Some(date + time);
    assert date + time == Decimal(year) + "-" + Pad2(month) + "-" + Pad2(day)
           + "T" + Pad2(hour) + ":" + Pad2(minute) + ":" + Pad2(second) + "Z";
  }

  lemma {:induction false} CivilDateIsSpelled(year: nat, month: nat, day: nat)
    requires IsCivilDate(year, month, day)
    ensures var days := DaysBeforeYear(year) + DaysBeforeMonth(year, month) + day - 1;
            days >= 0 && DateText(days) == Decimal(year) + "-" + Pad2(month) + "-" + Pad2(day)
  {
    hide YearAndDay, MonthAndDay, DaysBeforeMonth, Decimal, Pad2;
    DayOfYearFits(year, month, day);
    YearAndDayFrom(1, year, DaysBeforeMonth(year, month) + day - 1);
    MonthAndDayFrom(1, year, month, day);
    assert DaysBeforeMonth(year, 1) == 0 by { FirstMonth(year); }
  }

  lemma FirstMonth(year: nat)
    ensures DaysBeforeMonth(year, 1) == 0
  {
  }

  lemma ClockIsSpelled(hour: nat, minute: nat, second: nat)
    requires hour < 24 && minute < 60 && second < 60
    ensures 3600 * hour + 60 * minute + second < 86_400
    ensures ClockText(3600 * hour + 60 * minute + second)
            == "T" + Pad2(hour) + ":" + Pad2(minute) + ":" + Pad2(second) + "Z"
  {
    hide Pad2;
    var t := 3600 * hour + 60 * minute + second;
    assert t / 3600 == hour && t % 60 == second;
    assert t / 60 == 60 * hour + minute;
    assert t / 60 % 60 == minute;
  }

  lemma InstantParts(days: nat, clock: nat)
    requires clock < 86_400
    ensures var t := days * DAY + clock * SECOND;
            t >= 0 && t % SECOND == 0 && t / SECOND / 86_400 == days && t / SECOND % 86_400 == clock
  {
    var t := days * DAY + clock * SECOND;
    assert t == (days * 86_400 + clock) * SECOND;
    assert t / SECOND == days * 86_400 + clock;
  }

  lemma {:induction false} JoinOneMore(first: string, rest: seq<string>)
    requires |rest| > 0
    ensures Join([first] + rest) == first + "|" + Join(rest)
  {
    assert ([first] + rest)[1..] == rest;
  }

  lemma EpochNumbers()
    ensures Decimal(1970) == "1970" && Pad2(0) == "00" && Pad2(1) == "01"
    ensures DaysBeforeYear(1970) + DaysBeforeMonth(1970, 1) + 1 - 1 == 719_162
  {
    assert Digits(1970) == Digits(197) + "0" && Digits(197) == Digits(19) + "7" && Digits(19) == "19";
  }

  /** The instant Unix seconds are counted from. */
  lemma {:induction false} UnixEpochIsSpelled()
    ensures IsoUtcSeconds(719_162 * DAY) == Some("1970-01-01T00:00:00Z")
  {
    hide IsoUtcSeconds, Decimal, Pad2;
    CivilInstantIsSpelled(1970, 1, 1, 0, 0, 0);
    EpochNumbers();
    assert "1970" + "-" + "01" + "-" + "01" + "T" + "00" + ":" + "00" + ":" + "00" + "Z" == "1970-01-01T00:00:00Z";
    assert 719_162 * DAY + (3600 * 0 + 60 * 0 + 0) * SECOND == 719_162 * DAY;
  }

  // ---- The payload grammar ----

  /** What a purpose's memo commits to, written out; nothing is representable when an element is missing. */
  function Grammar(c: Crypto, f: Fields): Option<string>
  {
    match f
    case CreateFields(Some(who), literal, Some(title), Some(Html(text))) =>
      if c.account(who).None? || '|' in literal then None
      else Some("AQUA-GOV|v1|CREATE|" + c.account(who).value + "|" + literal + "|" + c.sha(title) + "|" + c.sha(text))
    case UpdateFields(id, Some(title), Some(Html(text))) =>
      if IdElement(id).None? then None
      else Some("AQUA-GOV|v1|UPDATE|" + IdElement(id).value + "|" + c.sha(title) + "|" + c.sha(text))
    case SubmitFields(id, Some(start), Some(end)) =>
      if IdElement(id).None? || IsoUtcSeconds(start).None? || IsoUtcSeconds(end).None? then None
      else Some("AQUA-GOV|v1|SUBMIT|" + IdElement(id).value + "|" + IsoUtcSeconds(start).value + "|"
                + IsoUtcSeconds(end).value)
    case _ => None
  }

  /** The text of every payload, and exactly when there is one. */
  lemma {:induction false} PayloadGrammar(c: Crypto, f: Fields)
    ensures Payload(c, f) == Grammar(c, f)
  {
    hide IdElement, IsoUtcSeconds, Join;
    var es := Elements(c, f);
    assert Representable(c, f) <==> forall i :: 0 <= i < |es| ==> es[i].Some?;
    assert es[0] in es && es[1] in es && es[2] in es && es[|es| - 1] in es;
    assert "AQUA-GOV|v1|" + "CREATE" + "|" == "AQUA-GOV|v1|CREATE|";
    assert "AQUA-GOV|v1|" + "UPDATE" + "|" == "AQUA-GOV|v1|UPDATE|";
    assert "AQUA-GOV|v1|" + "SUBMIT" + "|" == "AQUA-GOV|v1|SUBMIT|";
    if Representable(c, f) {
      JoinedPieces(c, f);
    }
  }

  lemma {:induction false} JoinedPieces(c: Crypto, f: Fields)
    requires Representable(c, f)
    ensures var es := Elements(c, f); var head := "AQUA-GOV|v1|" + PurposeWord(f);
            Join(Pieces(c, f))
            == if |es| == 4 then head + "|" + es[0].value + "|" + es[1].value + "|" + es[2].value + "|" + es[3].value
               else head + "|" + es[0].value + "|" + es[1].value + "|" + es[2].value
  {
    hide Join, IdElement, IsoUtcSeconds;
    var es := Elements(c, f);
    var a, b, d := es[0].value, es[1].value, es[2].value;
    var tail := if |es| == 4 then [es[3].value] else [];
    assert Pieces(c, f) == ["AQUA-GOV", "v1", PurposeWord(f)] + ([a] + ([b] + ([d] + tail)));
    JoinHead(PurposeWord(f), [a] + ([b] + ([d] + tail)));
    JoinOneMore(a, [b] + ([d] + tail));
    JoinOneMore(b, [d] + tail);
    JoinLast(d, tail);
  }

  lemma Regroup(a: string, b: string, c: string)
    ensures a + (b + c) == (a + b) + c
  {
  }

  lemma {:induction false} JoinThree(a: string, b: string, c: string, rest: seq<string>)
    requires |rest| > 0
    ensures Join([a, b, c] + rest) == (a + "|" + b + "|") + c + "|" + Join(rest)
  {
    hide Join;
    assert [a, b, c] + rest == [a] + ([b] + ([c] + rest));
    JoinOneMore(a, [b] + ([c] + rest));
    JoinOneMore(b, [c] + rest);
    JoinOneMore(c, rest);
    Regroup(a + "|", b + "|", c + "|" + Join(rest));
    Regroup(a + "|", b, "|");
    Regroup(a + "|" + b + "|", c + "|", Join(rest));
    Regroup(a + "|" + b + "|", c, "|");
  }

  lemma JoinHead(word: string, rest: seq<string>)
    requires |rest| > 0
    ensures Join(["AQUA-GOV", "v1", word] + rest) == "AQUA-GOV|v1|" + word + "|" + Join(rest)
  {
    hide Join;
    JoinThree("AQUA-GOV", "v1", word, rest);
    assert "AQUA-GOV" + "|" + "v1" + "|" == "AQUA-GOV|v1|";
  }

  lemma JoinLast(d: string, tail: seq<string>)
    requires |tail| <= 1
    ensures Join([d] + tail) == if tail == [] then d else d + "|" + tail[0]
  {
    if tail != [] {
      JoinOneMore(d, tail);
      assert Join(tail) == tail[0];
    }
  }

  lemma SmallNumbers()
    ensures Decimal(2026) == "2026" && Decimal(42) == "42"
    ensures Pad2(0) == "00" && Pad2(7) == "07" && Pad2(9) == "09" && Pad2(13) == "13" && Pad2(23) == "23"
            && Pad2(59) == "59"
  {
    assert Digits(2026) == Digits(202) + "6" && Digits(202) == Digits(20) + "2" && Digits(20) == "20";
    assert Digits(42) == Digits(4) + "2" && Digits(4) == "4";
  }

  /** Monday, 7 September 2026. */
  function ExampleWeek(): Instant { (DaysBeforeYear(2026) + DaysBeforeMonth(2026, 9) + 7 - 1) * DAY }

  lemma ExampleWeekIsExact()
    ensures IsExactWeek(ExampleWeek(), ExampleWeek() + WEEK - SECOND)
  {
    assert ExampleWeek() == 739_865 * DAY;
  }

  lemma {:induction false} ExampleWeekStarts()
    ensures IsoUtcSeconds(ExampleWeek()) == Some("2026-09-07T00:00:00Z")
  {
    hide IsoUtcSeconds, Decimal, Pad2, DaysBeforeYear, DaysBeforeMonth;
    CivilInstantIsSpelled(2026, 9, 7, 0, 0, 0);
    SmallNumbers();
    assert "2026" + "-" + "09" + "-" + "07" + "T" + "00" + ":" + "00" + ":" + "00" + "Z" == "2026-09-07T00:00:00Z";
    assert ExampleWeek() + (3600 * 0 + 60 * 0 + 0) * SECOND == ExampleWeek();
  }

  lemma {:induction false} ExampleWeekEnds()
    ensures IsoUtcSeconds(ExampleWeek() + WEEK - SECOND) == Some("2026-09-13T23:59:59Z")
  {
    hide IsoUtcSeconds, Decimal, Pad2, DaysBeforeYear, DaysBeforeMonth;
    CivilInstantIsSpelled(2026, 9, 13, 23, 59, 59);
    SmallNumbers();
    assert "2026" + "-" + "09" + "-" + "13" + "T" + "23" + ":" + "59" + ":" + "59" + "Z" == "2026-09-13T23:59:59Z";
    assert ExampleWeek() + WEEK - SECOND
           == (DaysBeforeYear(2026) + DaysBeforeMonth(2026, 9) + 13 - 1) * DAY + (3600 * 23 + 60 * 59 + 59) * SECOND;
  }

  /** The documented example is a bookable week, and this is the payload of its submission. */
  lemma {:induction false} SubmitVector(c: Crypto)
    ensures IsExactWeek(ExampleWeek(), ExampleWeek() + WEEK - SECOND)
    ensures Payload(c, SubmitFields(IntegerId(42), Some(ExampleWeek()), Some(ExampleWeek() + WEEK - SECOND)))
            == Some("AQUA-GOV|v1|SUBMIT|42|2026-09-07T00:00:00Z|2026-09-13T23:59:59Z")
  {
    hide IsoUtcSeconds, Payload, Decimal, ExampleWeek, Pad2, IsExactWeek;
    SmallNumbers();
    ExampleWeekIsExact();
    ExampleWeekStarts();
    ExampleWeekEnds();
    PayloadGrammar(c, SubmitFields(IntegerId(42), Some(ExampleWeek()), Some(ExampleWeek() + WEEK - SECOND)));
    assert "AQUA-GOV|v1|SUBMIT|" + "42" + "|" == "AQUA-GOV|v1|SUBMIT|42|";
    assert "AQUA-GOV|v1|SUBMIT|42|" + "2026-09-07T00:00:00Z" + "|" == "AQUA-GOV|v1|SUBMIT|42|2026-09-07T00:00:00Z|";
    assert "AQUA-GOV|v1|SUBMIT|42|2026-09-07T00:00:00Z|" + "2026-09-13T23:59:59Z"
           == "AQUA-GOV|v1|SUBMIT|42|2026-09-07T00:00:00Z|2026-09-13T23:59:59Z";
  }
}
