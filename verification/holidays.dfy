/** The business-day calendar: weekends and the public holidays of a date's year
    are excluded. The holiday library is represented by a table giving each
    year's holiday list in the order the library reports it. */
module Holidays {
  import opened Fields
  import opened Records

  datatype Holiday = Holiday(date: Day, name: string)

  /** The holiday list the holiday library reports for each (Gregorian) year. */
  type HolidayTable = int -> seq<Holiday>

  const Sunday: int := 0
  const Saturday: int := 6

  /** Day of the week, Sunday = 0 … Saturday = 6; day 0 (1970-01-01) was a Thursday. */
  function Weekday(d: Day): (w: int)
    ensures 0 <= w < 7
  {
    (d + 4) % 7
  }

  /** The Gregorian year containing day `d` (days-to-civil conversion; Dafny's
      division is floor division for a positive divisor, as the conversion needs). */
  function YearOf(d: Day): int
  {
    var z := d + 719468;
    var era := z / 146097;
    var doe := z - era * 146097;
    var yoe := (doe - doe / 1460 + doe / 36524 - doe / 146096) / 365;
    var doy := doe - (365 * yoe + yoe / 4 - yoe / 100);
    var mp := (5 * doy + 2) / 153;
    var y := yoe + era * 400;
    if mp >= 10 then y + 1 else y
  }

  /** Fixed points of the day numbering: 2025-12-31 and 2026-01-01 fall in the
      right years, 1970-01-01 was a Thursday and 2025-12-15 a Monday. */
  lemma DayNumberingAnchors()
    ensures YearOf(20453) == 2025 && YearOf(20454) == 2026
    ensures Weekday(0) == 4 && Weekday(20437) == 1 && Weekday(20454) == 4
  {
    YearOfAnchor(20453, 0, 2025);
    YearOfAnchor(20454, 1, 2026);
  }

  /** The conversion evaluated on the last days of 2025 and the first of 2026
      (day 9436 of the 400-year era that began on 2000-03-01 is 2025-12-31). */
  lemma YearOfAnchor(d: Day, dayOfEra: int, year: int)
    requires 0 <= d - 11017 < 146097
    requires dayOfEra == d - 11017 - 9436 && 0 <= dayOfEra < 30
    requires year == 2025 + (if dayOfEra >= 1 then 1 else 0)
    ensures YearOf(d) == year
  {
    var z := d + 719468;
    assert z / 146097 == 5;
    var doe := z - 5 * 146097;
    assert doe == 9436 + dayOfEra;
    assert doe / 1460 == 6 && doe / 36524 == 0 && doe / 146096 == 0;
    assert (doe - 6) / 365 == 25;
    var doy := doe - (365 * 25 + 6 - 0);
    assert doy == 305 + dayOfEra;
    var mp := (5 * doy + 2) / 153;
    assert mp == (if dayOfEra >= 1 then 10 else 9) by {
      assert 5 * doy + 2 == 1527 + 5 * dayOfEra;
    }
  }

  predicate IsWeekend(d: Day)
  {
    Weekday(d) == Sunday || Weekday(d) == Saturday
  }

  /** The holiday list consulted for day `d`: that of `d`'s year. */
  function HolidaysFor(table: HolidayTable, d: Day): seq<Holiday>
  {
    table(YearOf(d))
  }

  /** Whether some holiday of `hs` falls on day `d` (whole-day comparison). */
  function AnyOnDay(hs: seq<Holiday>, d: Day): (r: bool)
    ensures r <==> exists i :: 0 <= i < |hs| && hs[i].date == d
  {
    if hs == [] then false
    else if hs[0].date == d then true
    else
      var rest := AnyOnDay(hs[1..], d);
      assert forall i :: 0 < i < |hs| ==> hs[i] == hs[1..][i - 1];
      rest
  }

  /** The position of the first holiday of `hs` that falls on day `d`, if any. */
  function FirstOnDay(hs: seq<Holiday>, d: Day): (r: Option<nat>)
    ensures r.None? <==> forall i :: 0 <= i < |hs| ==> hs[i].date != d
    ensures r.Some? ==> r.value < |hs| && hs[r.value].date == d
    ensures r.Some? ==> forall j :: 0 <= j < r.value ==> hs[j].date != d
  {
    if hs == [] then None
    else if hs[0].date == d then Some(0)
    else
      match FirstOnDay(hs[1..], d)
      case None =>
        assert forall i :: 0 < i < |hs| ==> hs[i] == hs[1..][i - 1];
        None
      case Some(k) =>
        assert forall j :: 0 < j <= k ==> hs[j] == hs[1..][j - 1];
        Some(k + 1)
  }

  /** `isBusinessDay`: neither Saturday nor Sunday, and no holiday of the year on that day. */
  function IsBusinessDay(table: HolidayTable, d: Day): (r: bool)
    ensures Weekday(d) == Sunday || Weekday(d) == Saturday ==> !r
    ensures !IsWeekend(d) ==>
      (r <==> forall i :: 0 <= i < |HolidaysFor(table, d)| ==> HolidaysFor(table, d)[i].date != d)
  {
    if IsWeekend(d) then false
    else !AnyOnDay(HolidaysFor(table, d), d)
  }

  /** `getHolidayName`: the name of the first holiday of the year on that day, or null.
      The weekday is not consulted. */
  function HolidayName(table: HolidayTable, d: Day): (r: Option<string>)
    ensures r.None? <==> forall i :: 0 <= i < |HolidaysFor(table, d)| ==> HolidaysFor(table, d)[i].date != d
    ensures r.Some? ==>
      exists k :: 0 <= k < |HolidaysFor(table, d)| &&
        HolidaysFor(table, d)[k] == Holiday(d, r.value) &&
        forall j :: 0 <= j < k ==> HolidaysFor(table, d)[j].date != d
  {
    match FirstOnDay(HolidaysFor(table, d), d)
    case None => None
    case Some(k) => Some(HolidaysFor(table, d)[k].name)
  }

  /** On a weekday, being a business day and having no holiday name are the same
      thing: both functions use the same whole-day comparison. */
  lemma BusinessDayIffNoHolidayName(table: HolidayTable, d: Day)
    requires !IsWeekend(d)
    ensures IsBusinessDay(table, d) <==> HolidayName(table, d).None?
  {
  }

  /** `getNextBusinessDay`: step forward one day at a time until a business day.
      The source loop has no bound, so the caller must know one exists. */
  method NextBusinessDay(table: HolidayTable, d: Day) returns (next: Day)
    requires exists k :: d < k && IsBusinessDay(table, k)
    ensures d < next && IsBusinessDay(table, next)
    ensures forall j :: d < j < next ==> !IsBusinessDay(table, j)
  {
    ghost var bound :| d < bound && IsBusinessDay(table, bound);
    next := d + 1;
    while !IsBusinessDay(table, next)
      invariant d < next <= bound
      invariant forall j :: d < j < next ==> !IsBusinessDay(table, j)
      decreases bound - next
    {
      next := next + 1;
    }
  }

  /** The business days among `start`, `start + 1`, …, `start + count - 1`, in order:
      the reference for what a scan of `count` days collects. */
  function BusinessDaysIn(table: HolidayTable, start: Day, count: nat): (r: seq<Day>)
    ensures |r| <= count
  {
    if count == 0 then []
    else
      var earlier := BusinessDaysIn(table, start, count - 1);
      var last := start + count - 1;
      if IsBusinessDay(table, last) then earlier + [last] else earlier
  }

  /** Every day collected lies in the scanned window and is a business day. */
  lemma {:induction false} BusinessDaysInSound(table: HolidayTable, start: Day, count: nat)
    ensures forall x :: x in BusinessDaysIn(table, start, count) ==>
      start <= x < start + count && IsBusinessDay(table, x)
  {
    if count > 0 {
      BusinessDaysInSound(table, start, count - 1);
    }
  }

  predicate Ascending(r: seq<Day>)
  {
    forall i, j :: 0 <= i < j < |r| ==> r[i] < r[j]
  }

  lemma AppendAscending(r: seq<Day>, x: Day)
    requires Ascending(r)
    requires forall y :: y in r ==> y < x
    ensures Ascending(r + [x])
  {
    var s := r + [x];
    forall i, j | 0 <= i < j < |s|
      ensures s[i] < s[j]
    {
      assert s[i] == r[i] && r[i] in r;
      if j < |r| {
        assert s[j] == r[j];
      }
    }
  }

  /** The scan of `count` days extends the scan of one day fewer by its last day,
      when that day is a business day. */
  lemma BusinessDaysInStep(table: HolidayTable, start: Day, count: nat)
    requires count > 0
    ensures BusinessDaysIn(table, start, count) ==
      if IsBusinessDay(table, start + count - 1)
      then BusinessDaysIn(table, start, count - 1) + [start + count - 1]
      else BusinessDaysIn(table, start, count - 1)
  {
  }

  /** One step of the scan keeps its result ascending. */
  lemma AscendingStep(earlier: seq<Day>, last: Day, keep: bool, r: seq<Day>)
    requires Ascending(earlier) && forall y :: y in earlier ==> y < last
    requires r == if keep then earlier + [last] else earlier
    ensures Ascending(r)
  {
    if keep {
      AppendAscending(earlier, last);
    }
  }

  /** The days collected are strictly ascending. */
  lemma {:induction false} BusinessDaysInAscending(table: HolidayTable, start: Day, count: nat)
    ensures Ascending(BusinessDaysIn(table, start, count))
  {
    if count > 0 {
      var earlier := BusinessDaysIn(table, start, count - 1);
      var last := start + count - 1;
      BusinessDaysInAscending(table, start, count - 1);
      BusinessDaysInSound(table, start, count - 1);
      BusinessDaysInStep(table, start, count);
      AscendingStep(earlier, last, IsBusinessDay(table, last), BusinessDaysIn(table, start, count));
    }
  }

  /** No business day of the scanned window is skipped. */
  lemma {:induction false} BusinessDaysInComplete(table: HolidayTable, start: Day, count: nat, x: Day)
    requires start <= x < start + count && IsBusinessDay(table, x)
    ensures x in BusinessDaysIn(table, start, count)
  {
    if x < start + count - 1 {
      BusinessDaysInComplete(table, start, count - 1, x);
    }
  }

  /** Scanning more days only appends to what a shorter scan found. */
  lemma {:induction false} BusinessDaysInExtends(table: HolidayTable, start: Day, m: nat, n: nat)
    requires m <= n
    ensures BusinessDaysIn(table, start, m) <= BusinessDaysIn(table, start, n)
    decreases n - m
  {
    if m < n {
      BusinessDaysInExtends(table, start, m, n - 1);
      var earlier := BusinessDaysIn(table, start, n - 1);
      assert earlier <= BusinessDaysIn(table, start, n);
    }
  }

  /** A prefix of the scan result skips no business day up to its own last element. */
  lemma ScanPrefixHasNoGaps(table: HolidayTable, start: Day, count: nat, k: nat, i: nat, x: Day)
    requires k <= |BusinessDaysIn(table, start, count)| && i < k
    requires start <= x <= BusinessDaysIn(table, start, count)[i] && IsBusinessDay(table, x)
    ensures x in BusinessDaysIn(table, start, count)[..k]
  {
    var r := BusinessDaysIn(table, start, count);
    BusinessDaysInSound(table, start, count);
    assert r[i] in r;
    BusinessDaysInComplete(table, start, count, x);
    BusinessDaysInAscending(table, start, count);
    var m :| 0 <= m < |r| && r[m] == x;
    assert r[..k][m] == x;
  }

  /** How many days `getBusinessDaysInRange` examines at most: twice the number wanted. */
  function ScanWindow(n: int): nat
  {
    if n > 0 then 2 * n else 0
  }

  /** What a scan prefix promises: the days are business days of the window, ascending,
      and none is skipped up to the last one (nor anywhere, if the whole scan is taken). */
  lemma ScanPrefixProperties(table: HolidayTable, start: Day, count: nat, k: nat)
    requires k <= |BusinessDaysIn(table, start, count)|
    ensures var days := BusinessDaysIn(table, start, count)[..k];
      && (forall i :: 0 <= i < |days| ==> IsBusinessDay(table, days[i]) && start <= days[i] < start + count)
      && (forall i, j :: 0 <= i < j < |days| ==> days[i] < days[j])
      && (k == |BusinessDaysIn(table, start, count)| ==>
           forall x :: start <= x < start + count && IsBusinessDay(table, x) ==> x in days)
      && (forall i, x :: 0 <= i < |days| && start <= x <= days[i] && IsBusinessDay(table, x) ==> x in days)
  {
    var r := BusinessDaysIn(table, start, count);
    var days := r[..k];
    BusinessDaysInSound(table, start, count);
    BusinessDaysInAscending(table, start, count);
    assert forall i :: 0 <= i < |days| ==> days[i] == r[i] && r[i] in r;
    if k == |r| {
      assert days == r;
      forall x | start <= x < start + count && IsBusinessDay(table, x)
        ensures x in days
      {
        BusinessDaysInComplete(table, start, count, x);
      }
    }
    forall i, x | 0 <= i < |days| && start <= x <= days[i] && IsBusinessDay(table, x)
      ensures x in days
    {
      ScanPrefixHasNoGaps(table, start, count, k, i, x);
    }
  }

  /** `getBusinessDaysInRange`: collect business days from `start` until `n` are found
      or `2n` days have been examined. */
  method BusinessDaysInRange(table: HolidayTable, start: Day, n: int) returns (days: seq<Day>)
    ensures n <= 0 ==> days == []
    ensures |days| == Min(Max(n, 0), |BusinessDaysIn(table, start, ScanWindow(n))|)
    ensures days == BusinessDaysIn(table, start, ScanWindow(n))[..|days|]
    ensures forall i :: 0 <= i < |days| ==> IsBusinessDay(table, days[i]) && start <= days[i] < start + ScanWindow(n)
    ensures forall i, j :: 0 <= i < j < |days| ==> days[i] < days[j]
    ensures |days| < n ==>
      forall x :: start <= x < start + ScanWindow(n) && IsBusinessDay(table, x) ==> x in days
    ensures forall i, x :: 0 <= i < |days| && start <= x <= days[i] && IsBusinessDay(table, x) ==> x in days
  {
    days := [];
    var current := start;
    var checked := 0;
    while |days| < n && checked < n * 2
      invariant 0 <= checked <= ScanWindow(n)
      invariant current == start + checked
      invariant days == BusinessDaysIn(table, start, checked)
      invariant |days| <= Max(n, 0)
      decreases ScanWindow(n) - checked
    {
      if IsBusinessDay(table, current) {
        days := days + [current];
      }
      current := current + 1;
      checked := checked + 1;
    }
    ScanStopped(table, start, n, checked, days);
  }

  /** Where the loop of `getBusinessDaysInRange` stops, its result is a prefix of the
      whole window's scan with all the properties that prefix has. */
  lemma ScanStopped(table: HolidayTable, start: Day, n: int, checked: nat, days: seq<Day>)
    requires checked <= ScanWindow(n) && days == BusinessDaysIn(table, start, checked)
    requires |days| <= Max(n, 0) && (|days| >= n || checked >= n * 2)
    ensures n <= 0 ==> days == []
    ensures |days| == Min(Max(n, 0), |BusinessDaysIn(table, start, ScanWindow(n))|)
    ensures days == BusinessDaysIn(table, start, ScanWindow(n))[..|days|]
    ensures forall i :: 0 <= i < |days| ==> IsBusinessDay(table, days[i]) && start <= days[i] < start + ScanWindow(n)
    ensures forall i, j :: 0 <= i < j < |days| ==> days[i] < days[j]
    ensures |days| < n ==>
      forall x :: start <= x < start + ScanWindow(n) && IsBusinessDay(table, x) ==> x in days
    ensures forall i, x :: 0 <= i < |days| && start <= x <= days[i] && IsBusinessDay(table, x) ==> x in days
  {
    BusinessDaysInExtends(table, start, checked, ScanWindow(n));
    ScanPrefixProperties(table, start, ScanWindow(n), |days|);
  }

  function Min(a: int, b: int): int { if a < b then a else b }
  function Max(a: int, b: int): int { if a < b then b else a }
}
