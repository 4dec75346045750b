/**
 * The date window of the entry queries: both bounds default to today, the
 * end bound is moved to 23:59:59.000 of its day, and the store keeps the
 * entries whose timestamp lies between the bounds, both included.
 */
module Queries {
  import opened Wrappers
  import opened Calendar

  datatype QueryError = MissingUserId | InvalidStartDate | InvalidEndDate

  /** The store's filter: one user's entries with start <= timestamp <= end, in milliseconds. */
  datatype Window = Window(userId: string, start: int, end: int)

  /** An absent query parameter takes the default; a present one, even empty, is used as given. */
  function QueryParam(param: Option<string>, default: string): (v: string)
    ensures param.None? ==> v == default
    ensures param.Some? ==> v == param.value
  {
    match param
    case Some(s) => s
    case None => default
  }

  /**
   * The window for a query: `userId` must be non-empty, the start and end
   * texts (today when absent) must parse as dates, checked in that order,
   * and the end bound is the end date plus 24 hours less one second, in
   * milliseconds.
   */
  function QueryWindow(userId: string, startParam: Option<string>, endParam: Option<string>, today: Date)
    : (r: Result<Window, QueryError>)
    requires ValidDate(today)
    ensures r == Err(MissingUserId) <==> userId == ""
    ensures r == Err(InvalidStartDate) <==>
      userId != "" && ParseDate(QueryParam(startParam, FormatDate(today))).None?
    ensures r == Err(InvalidEndDate) <==>
      userId != "" && ParseDate(QueryParam(startParam, FormatDate(today))).Some?
      && ParseDate(QueryParam(endParam, FormatDate(today))).None?
    ensures r.Ok? ==>
      var first := ParseDate(QueryParam(startParam, FormatDate(today))).value;
      var last := ParseDate(QueryParam(endParam, FormatDate(today))).value;
      r.value == Window(userId, StartOfDay(first) * 1000, (StartOfDay(last) + SecondsPerDay - 1) * 1000)
  {
    if userId == "" then Err(MissingUserId)
    else
      var todayText := FormatDate(today);
      match ParseDate(QueryParam(startParam, todayText))
      case None => Err(InvalidStartDate)
      case Some(first) =>
        match ParseDate(QueryParam(endParam, todayText))
        case None => Err(InvalidEndDate)
        case Some(last) =>
          Ok(Window(userId, StartOfDay(first) * 1000, (StartOfDay(last) + SecondsPerDay - 1) * 1000))
  }

  /**
   * A start or end parameter that is present but empty is not replaced by
   * today: it fails to parse, so the query is refused.
   */
  lemma EmptyParamIsRefused(userId: string, endParam: Option<string>, today: Date)
    requires ValidDate(today) && userId != ""
    ensures QueryWindow(userId, Some(""), endParam, today) == Err(InvalidStartDate)
    ensures QueryWindow(userId, None, Some(""), today) == Err(InvalidEndDate)
  {
    ParseFormatRoundTrip(today);
  }

  /**
   * The store's range filter: the entry's user is the window's user and its
   * timestamp lies between the bounds, both included. Only the window's own
   * user is ever matched, and an empty range matches nothing.
   */
  predicate InWindow(w: Window, userId: string, t: Instant): (b: bool)
    requires ValidInstant(t)
    ensures b ==> userId == w.userId && w.start <= w.end
  {
    userId == w.userId && w.start <= Millis(t) <= w.end
  }

  /** `t` falls after 23:59:59.000 on day `last`: the part of that day an inclusive end bound at that time leaves out. */
  predicate InLastSecondFraction(t: Instant, last: Date) {
    t.date == last && t.second == SecondsPerDay - 1 && t.millisecond > 0
  }

  /**
   * The window as the code builds it: an instant lies between the start
   * of `first` and 23:59:59.000 on `last` exactly when its date lies between
   * `first` and `last` in calendar order, both days included, and it is not
   * in the fraction of a second after 23:59:59.000 on `last`.
   */
  lemma {:induction false} WindowCoversDays(first: Date, last: Date, t: Instant)
    requires ValidDate(first) && ValidDate(last) && ValidInstant(t)
    ensures StartOfDay(first) * 1000 <= Millis(t) <= (StartOfDay(last) + SecondsPerDay - 1) * 1000
        <==> NotAfter(first, t.date) && NotAfter(t.date, last) && !InLastSecondFraction(t, last)
  {
    DayNumberOrder(first, t.date);
    DayNumberOrder(t.date, last);
    DayNumberInjective(first, t.date);
    DayNumberInjective(t.date, last);
    var a, b, c := DayNumber(first), DayNumber(t.date), DayNumber(last);
    StartBound(a, b, t.second, t.millisecond);
    EndBound(b, c, t.second, t.millisecond);
  }

  lemma {:induction false} StartBound(a: int, b: int, s: int, ms: int)
    requires 0 <= s < SecondsPerDay && 0 <= ms < 1000
    ensures a * SecondsPerDay * 1000 <= (b * SecondsPerDay + s) * 1000 + ms <==> a <= b
  {
  }

  lemma {:induction false} EndBound(b: int, c: int, s: int, ms: int)
    requires 0 <= s < SecondsPerDay && 0 <= ms < 1000
    ensures (b * SecondsPerDay + s) * 1000 + ms <= (c * SecondsPerDay + SecondsPerDay - 1) * 1000
        <==> b < c || (b == c && (s < SecondsPerDay - 1 || ms == 0))
  {
  }

  /** With neither date given, the window is today up to 23:59:59.000, for any valid today. */
  lemma {:induction false} DefaultWindowIsToday(userId: string, today: Date, t: Instant)
    requires ValidDate(today) && ValidInstant(t) && userId != ""
    ensures QueryWindow(userId, None, None, today).Ok?
    ensures InWindow(QueryWindow(userId, None, None, today).value, userId, t)
        <==> t.date == today && !InLastSecondFraction(t, today)
  {
    ParseFormatRoundTrip(today);
    WindowCoversDays(today, today, t);
  }

  /** An entry stamped at 23:59:59.500 today is missing from the default query's answer. */
  lemma {:induction false} WindowMissesLastFraction(userId: string, today: Date)
    requires ValidDate(today) && userId != ""
    ensures var t := Instant(today, SecondsPerDay - 1, 500);
      ValidInstant(t) && QueryWindow(userId, None, None, today).Ok?
      && !InWindow(QueryWindow(userId, None, None, today).value, userId, t)
  {
    DefaultWindowIsToday(userId, today, Instant(today, SecondsPerDay - 1, 500));
  }

  /** The evidently intended bound: up to, but not including, midnight after `last`. */
  predicate InWholeDays(first: Date, last: Date, t: Instant)
    requires ValidDate(first) && ValidDate(last) && ValidInstant(t)
  {
    StartOfDay(first) * 1000 <= Millis(t) < (StartOfDay(last) + SecondsPerDay) * 1000
  }

  /** The half-open bound covers whole days: exactly the instants dated from `first` to `last`. */
  lemma {:induction false} WholeDaysCoverDates(first: Date, last: Date, t: Instant)
    requires ValidDate(first) && ValidDate(last) && ValidInstant(t)
    ensures InWholeDays(first, last, t) <==> NotAfter(first, t.date) && NotAfter(t.date, last)
  {
    DayNumberOrder(first, t.date);
    DayNumberOrder(t.date, last);
    DayNumberInjective(first, t.date);
    DayNumberInjective(t.date, last);
    var a, b, c := DayNumber(first), DayNumber(t.date), DayNumber(last);
    StartBound(a, b, t.second, t.millisecond);
    NextDayBound(b, c, t.second, t.millisecond);
  }

  lemma {:induction false} NextDayBound(b: int, c: int, s: int, ms: int)
    requires 0 <= s < SecondsPerDay && 0 <= ms < 1000
    ensures (b * SecondsPerDay + s) * 1000 + ms < (c * SecondsPerDay + SecondsPerDay) * 1000 <==> b <= c
  {
  }

  // ----- The store's user condition -----

  /** The key under which stored entries keep their user (`bson:"userId"` on both entry types). */
  const StoredUserKey: string := "userId"

  /** The key the store's range queries put their user condition on. */
  const FilterUserKey: string := "userID"

  /** MongoDB equality on one field: the document holds the key, compared case-sensitively, with that value. */
  predicate FieldMatches(doc: map<string, string>, key: string, value: string) {
    key in doc && doc[key] == value
  }

  /** The entries of `xs` that `keep` selects, in their original order. */
  function Select<T(==,!new)>(xs: seq<T>, keep: T -> bool): (ys: seq<T>)
    ensures |ys| <= |xs|
    ensures forall y :: y in ys <==> y in xs && keep(y)
  {
    if xs == [] then []
    else if keep(xs[0]) then [xs[0]] + Select(xs[1..], keep)
    else Select(xs[1..], keep)
  }
}
