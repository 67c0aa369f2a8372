/** Weekly queue calendar: exact Monday-to-Sunday windows and the booking horizon. */
module Calendar {
  import opened Domain

  /** A datetime argument: absent, without a time zone, or an instant. */
  datatype Stamp = Missing | Naive | Aware(at: Instant)

  datatype Field = StartAt | EndAt
  datatype WindowError =
    | IsRequired
    | MustBeAware
    | MustBeMondayMidnight
    | MustFollowStart
    | MustBeExactWeek
    | OutsideHorizon

  datatype Validation = Valid | Invalid(errors: map<Field, WindowError>) | HorizonMisconfigured

  function Midnight(t: Instant): Instant { t - t % DAY }

  function Weekday(t: Instant): int { (t / DAY) % 7 }

  function WeekStart(now: Instant): Instant { Midnight(now) - Weekday(now) * DAY }

  predicate IsMondayMidnight(t: Instant) { Weekday(t) == 0 && t % DAY == 0 }

  predicate IsExactWeek(start: Instant, end: Instant)
  {
    IsMondayMidnight(start) && end == start + WEEK - SECOND
  }

  function MinBooking(now: Instant): Instant { WeekStart(now) + WEEK }

  function MaxBooking(now: Instant, horizonWeeks: int): Instant
  {
    MinBooking(now) + horizonWeeks * WEEK - SECOND
  }

  predicate WithinHorizon(start: Instant, end: Instant, now: Instant, horizonWeeks: int, allowCurrentWeek: bool)
  {
    && start < end
    && (if allowCurrentWeek then WeekStart(now) else MinBooking(now)) <= start
    && end <= MaxBooking(now, horizonWeeks)
  }

  function PresenceErrors(start: Stamp, end: Stamp): map<Field, WindowError>
  {
    var startErrors: map<Field, WindowError> :=
      if start.Missing? then map[StartAt := IsRequired]
      else if start.Naive? then map[StartAt := MustBeAware]
      else if !IsMondayMidnight(start.at) then map[StartAt := MustBeMondayMidnight]
      else map[];
    var endErrors: map<Field, WindowError> :=
      if end.Missing? then map[EndAt := IsRequired]
      else if end.Naive? then map[EndAt := MustBeAware]
      else map[];
    startErrors + endErrors
  }

  /** Validation of a booking request, with the errors the two fields collect. */
  function ValidateWeeklySlot(start: Stamp, end: Stamp, now: Instant, horizonWeeks: int,
                              allowCurrentWeek: bool): Validation
  {
    var errors := PresenceErrors(start, end);
    if errors != map[] || !start.Aware? || !end.Aware? then Invalid(errors)
    else if end.at <= start.at then Invalid(map[EndAt := MustFollowStart])
    else if !IsExactWeek(start.at, end.at) then Invalid(map[EndAt := MustBeExactWeek])
    else if horizonWeeks < 1 then HorizonMisconfigured
    else if !WithinHorizon(start.at, end.at, now, horizonWeeks, allowCurrentWeek)
        then Invalid(map[EndAt := OutsideHorizon])
    else Valid
  }

  /** The window of the k-th week counted from the one containing `now`. */
  predicate IsWeekAhead(start: Stamp, end: Stamp, now: Instant, k: int)
  {
    && start == Aware(WeekStart(now) + k * WEEK)
    && end == Aware(WeekStart(now) + k * WEEK + WEEK - SECOND)
  }

  lemma WeekStartIsFloor(now: Instant)
    ensures WeekStart(now) == now - now % WEEK
    ensures WeekStart(now) <= now < WeekStart(now) + WEEK
    ensures IsMondayMidnight(WeekStart(now))
  {
    var d, r := now / DAY, now % DAY;
    var w, k := d / 7, d % 7;
    assert now == DAY * d + r && d == 7 * w + k;
    assert Midnight(now) == DAY * d && Weekday(now) == k;
    assert WeekStart(now) == WEEK * w;
    assert now == WEEK * w + (DAY * k + r);
    assert WEEK * w / DAY == 7 * w;
  }

  lemma MondayMidnightIsWholeWeek(t: Instant)
    ensures IsMondayMidnight(t) <==> t % WEEK == 0
  {
    WeekStartIsFloor(t);
    if t % WEEK == 0 {
      assert WeekStart(t) == t;
    }
  }

  predicate Contains(start: Instant, end: Instant, t: Instant) { start <= t <= end }

  /** Whole-week windows overlap only when they start together. */
  lemma ExactWeeksOverlapIffSameStart(s1: Instant, e1: Instant, s2: Instant, e2: Instant)
    requires IsExactWeek(s1, e1) && IsExactWeek(s2, e2)
    ensures (s1 < e2 && e1 > s2) <==> s1 == s2
    ensures (exists t :: Contains(s1, e1, t) && Contains(s2, e2, t)) <==> s1 == s2
  {
    MondayMidnightIsWholeWeek(s1);
    MondayMidnightIsWholeWeek(s2);
    if s1 / WEEK < s2 / WEEK {
      assert s1 + WEEK <= s2;
    } else if s2 / WEEK < s1 / WEEK {
      assert s2 + WEEK <= s1;
    } else {
      assert Contains(s1, e1, s1) && Contains(s2, e2, s1);
    }
  }

  lemma ExactWeekIsWeekAhead(start: Instant, end: Instant, now: Instant) returns (k: int)
    requires IsExactWeek(start, end)
    ensures IsWeekAhead(Aware(start), Aware(end), now, k)
  {
    WeekStartIsFloor(now);
    MondayMidnightIsWholeWeek(WeekStart(now));
    MondayMidnightIsWholeWeek(start);
    k := start / WEEK - WeekStart(now) / WEEK;
  }

  lemma {:induction false} WeekAheadIsExact(start: Instant, end: Instant, now: Instant, k: int)
    requires IsWeekAhead(Aware(start), Aware(end), now, k)
    ensures IsExactWeek(start, end)
  {
    WeekStartIsFloor(now);
    MondayMidnightIsWholeWeek(WeekStart(now));
    assert start == WEEK * (WeekStart(now) / WEEK + k);
    MondayMidnightIsWholeWeek(start);
  }

  lemma WeekAheadWithinHorizonIff(start: Instant, end: Instant, now: Instant, k: int, horizonWeeks: int,
          allowCurrentWeek: bool)
    requires IsWeekAhead(Aware(start), Aware(end), now, k)
    ensures WithinHorizon(start, end, now, horizonWeeks, allowCurrentWeek)
            <==> (if allowCurrentWeek then 0 else 1) <= k <= horizonWeeks
  {
    if k <= horizonWeeks {
      assert k * WEEK <= horizonWeeks * WEEK;
    } else {
      assert k * WEEK >= (horizonWeeks + 1) * WEEK;
    }
  }

  /** Horizon arithmetic: a window validates exactly when it is one of the next weeks. */
  lemma ValidIffWeekAhead(start: Stamp, end: Stamp, now: Instant, horizonWeeks: int, allowCurrentWeek: bool)
    requires horizonWeeks >= 1
    ensures ValidateWeeklySlot(start, end, now, horizonWeeks, allowCurrentWeek) == Valid
            <==> exists k :: (if allowCurrentWeek then 0 else 1) <= k <= horizonWeeks && IsWeekAhead(start, end, now, k)
  {
    if ValidateWeeklySlot(start, end, now, horizonWeeks, allowCurrentWeek) == Valid {
      var k := ExactWeekIsWeekAhead(start.at, end.at, now);
      WeekAheadWithinHorizonIff(start.at, end.at, now, k, horizonWeeks, allowCurrentWeek);
    }
    if k :| (if allowCurrentWeek then 0 else 1) <= k <= horizonWeeks && IsWeekAhead(start, end, now, k) {
      WeekAheadIsExact(start.at, end.at, now, k);
      WeekAheadWithinHorizonIff(start.at, end.at, now, k, horizonWeeks, allowCurrentWeek);
    }
  }

  /** What a paid submit does with a validated window, seen as the week it names. */
  lemma SubmitOutcomeByWeek(start: Instant, end: Instant, now: Instant, horizonWeeks: int)
    requires horizonWeeks >= 1
    requires ValidateWeeklySlot(Aware(start), Aware(end), now, horizonWeeks, true) == Valid
    ensures start > now <==> exists k :: 1 <= k <= horizonWeeks && IsWeekAhead(Aware(start), Aware(end), now, k)
    ensures start <= now <==> IsWeekAhead(Aware(start), Aware(end), now, 0)
    ensures end <= now <==> start <= now && WeekStart(now) + WEEK - SECOND <= now
    ensures end <= now ==> now < end + SECOND
  {
    ValidIffWeekAhead(Aware(start), Aware(end), now, horizonWeeks, true);
    WeekStartIsFloor(now);
    var k :| 0 <= k <= horizonWeeks && IsWeekAhead(Aware(start), Aware(end), now, k);
    if k >= 1 {
      assert start >= WeekStart(now) + WEEK;
    }
  }
}
