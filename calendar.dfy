/**
 * The calendar helpers behind the breadcrumb browser: month keys, the
 * zero-padded `YYYY-MM-DD` day keys, the placeholder day of an empty
 * month, the choice of the single day to render, the year and day
 * pickers, and the `MM.DD.YY` date printed on the journal card.
 *
 * `Date`'s local-time conversion is not modelled: a local calendar date is
 * the value `LocalDate(year, month, day)` with `month` counted from 1, and
 * the weekday of a date, which only `Date.getDay` knows, is passed in.
 */
module Calendar {
  import opened Common

  datatype LocalDate = LocalDate(year: int, month: int, day: int)

  /** A mock song of a historical day. */
  datatype Song = Song(title: string, artist: string, year: int, lyric: string)

  datatype Day = Day(dateISO: string, weekday: string, songs: seq<Song>)

  /** A month of the mock history; `days` is `None` when it is not an array. */
  datatype MonthData = MonthData(month: string, year: int, days: Option<seq<Day>>)

  /** A month as the breadcrumb view renders it. */
  datatype MonthView = MonthView(month: string, year: int, days: seq<Day>)

  const MonthNames: seq<string> := ["January", "February", "March", "April", "May", "June",
    "July", "August", "September", "October", "November", "December"]

  // ---------------------------------------------------------------------
  // Keys
  // ---------------------------------------------------------------------

  /** `getMonthKey(year, monthIndex)`: `YYYY-MM` with the month counted from 1. */
  function MonthKey(year: int, monthIndex: int): string
  {
    IntToString(year) + "-" + PadStart2(IntToString(monthIndex + 1))
  }

  /** The `${year}-${pad(month)}-${pad(day)}` key used for days throughout the page. */
  function IsoDate(year: int, month: int, day: int): string
  {
    IntToString(year) + "-" + PadStart2(IntToString(month)) + "-" + PadStart2(IntToString(day))
  }

  function DateKey(d: LocalDate): string
  {
    IsoDate(d.year, d.month, d.day)
  }

  lemma {:induction false} NatToStringInjective(a: nat, b: nat)
    requires NatToString(a) == NatToString(b)
    ensures a == b
  {
    DigitsValueOfNatToString(a);
    DigitsValueOfNatToString(b);
  }

  /** Distinct months of non-negative years have distinct keys. */
  lemma MonthKeyInjective(y1: nat, m1: nat, y2: nat, m2: nat)
    requires m1 < 12 && m2 < 12
    requires MonthKey(y1, m1) == MonthKey(y2, m2)
    ensures y1 == y2 && m1 == m2
  {
    PaddedIsTwoDigits(m1 + 1);
    PaddedIsTwoDigits(m2 + 1);
    SplitAtDash(NatToString(y1), TwoDigits(m1 + 1), NatToString(y2), TwoDigits(m2 + 1));
    NatToStringInjective(y1, y2);
  }

  /** Two texts `a-b` with `b` of the same length split the same way. */
  lemma SplitAtDash(a1: string, b1: string, a2: string, b2: string)
    requires |b1| == |b2| && a1 + "-" + b1 == a2 + "-" + b2
    ensures a1 == a2 && b1 == b2
  {
    var k1, k2 := a1 + "-" + b1, a2 + "-" + b2;
    assert |a1| == |a2|;
    assert k1[..|a1|] == a1 && k2[..|a2|] == a2;
    assert k1[|a1| + 1..] == b1 && k2[|a2| + 1..] == b2;
  }

  /**
   * Within one month the day keys are ordered as the days are, so the
   * string maximum the breadcrumb picks is the latest day.
   */
  lemma {:induction false} IsoDateOrder(y: int, m: nat, d1: nat, d2: nat)
    requires m < 100 && d1 < d2 < 100
    ensures StrLess(IsoDate(y, m, d1), IsoDate(y, m, d2))
  {
    PaddedIsTwoDigits(d1);
    PaddedIsTwoDigits(d2);
    var prefix := IntToString(y) + "-" + PadStart2(IntToString(m)) + "-";
    var a, b := TwoDigits(d1), TwoDigits(d2);
    assert IsoDate(y, m, d1) == prefix + a && IsoDate(y, m, d2) == prefix + b;
    TwoDigitsOrder(d1, d2);
    PrefixKeepsOrder(prefix, a, b);
  }

  lemma TwoDigitsOrder(d1: nat, d2: nat)
    requires d1 < d2 < 100
    ensures StrLess(TwoDigits(d1), TwoDigits(d2))
  {
    var a, b := TwoDigits(d1), TwoDigits(d2);
    if d1 / 10 == d2 / 10 {
      assert a[1..] == [a[1]] && b[1..] == [b[1]];
      assert StrLess(a[1..], b[1..]);
    }
  }

  lemma {:induction false} PrefixKeepsOrder(p: string, a: string, b: string)
    requires StrLess(a, b)
    ensures StrLess(p + a, p + b)
    decreases |p|
  {
    if p != [] {
      assert (p + a)[1..] == p[1..] + a && (p + b)[1..] == p[1..] + b;
      assert (p + a)[0] == (p + b)[0];
      PrefixKeepsOrder(p[1..], a, b);
    } else {
      assert p + a == a && p + b == b;
    }
  }

  // ---------------------------------------------------------------------
  // Days of a month
  // ---------------------------------------------------------------------

  predicate IsLeapYear(y: int)
  {
    y % 4 == 0 && (y % 100 != 0 || y % 400 == 0)
  }

  /** `new Date(year, m, d)` reads a year from 0 to 99 as 1900 to 1999. */
  function FullYear(year: int): int
  {
    if 0 <= year <= 99 then 1900 + year else year
  }

  /** `new Date(year, monthIndex + 1, 0).getDate()`: the length of the month. */
  function DaysInMonth(year: int, monthIndex: int): (n: int)
    requires 0 <= monthIndex < 12
    ensures 28 <= n <= 31
    ensures n == 29 <==> monthIndex == 1 && IsLeapYear(FullYear(year))
  {
    if monthIndex == 1 then (if IsLeapYear(FullYear(year)) then 29 else 28)
    else if monthIndex == 3 || monthIndex == 5 || monthIndex == 8 || monthIndex == 10 then 30
    else 31
  }

  function MonthsTotal(year: int, k: nat): int
    requires k <= 12
  {
    if k == 0 then 0 else MonthsTotal(year, k - 1) + DaysInMonth(year, k - 1)
  }

  /** The twelve month lengths add up to the Gregorian year length. */
  lemma YearLength(year: int)
    ensures MonthsTotal(year, 12) == if IsLeapYear(FullYear(year)) then 366 else 365
  {
    var feb := DaysInMonth(year, 1);
    assert MonthsTotal(year, 1) == 31;
    assert MonthsTotal(year, 2) == 31 + feb;
    assert MonthsTotal(year, 3) == 62 + feb;
    assert MonthsTotal(year, 4) == 92 + feb;
    assert MonthsTotal(year, 5) == 123 + feb;
    assert MonthsTotal(year, 6) == 153 + feb;
    assert MonthsTotal(year, 7) == 184 + feb;
    assert MonthsTotal(year, 8) == 215 + feb;
    assert MonthsTotal(year, 9) == 245 + feb;
    assert MonthsTotal(year, 10) == 276 + feb;
    assert MonthsTotal(year, 11) == 306 + feb;
  }

  /** The day picker's options: one key per day of the month, from the 1st. */
  function DayOptions(year: int, monthIndex: int): (r: seq<string>)
    requires 0 <= monthIndex < 12
    ensures |r| == DaysInMonth(year, monthIndex)
  {
    DayKeys(year, monthIndex + 1, DaysInMonth(year, monthIndex))
  }

  /** The keys of the first `n` days of a month. */
  function DayKeys(year: int, month: int, n: nat): (r: seq<string>)
    ensures |r| == n
  {
    seq(n, i => IsoDate(year, month, i + 1))
  }

  /** Option `i` is the key of day `i + 1`. */
  lemma DayOptionAt(year: int, monthIndex: int, i: nat)
    requires 0 <= monthIndex < 12 && i < DaysInMonth(year, monthIndex)
    ensures DayOptions(year, monthIndex)[i] == IsoDate(year, monthIndex + 1, i + 1)
  {
  }

  /** The options are listed in increasing order of their keys. */
  lemma DayOptionsIncreasing(year: int, monthIndex: int)
    requires 0 <= monthIndex < 12
    ensures var r := DayOptions(year, monthIndex);
      forall i, j :: 0 <= i < j < |r| ==> StrLess(r[i], r[j])
  {
    DayKeysIncreasing(year, monthIndex + 1, DaysInMonth(year, monthIndex));
  }

  lemma DayKeysIncreasing(year: int, month: nat, n: nat)
    requires month < 100 && n < 100
    ensures var r := DayKeys(year, month, n);
      forall i, j :: 0 <= i < j < |r| ==> StrLess(r[i], r[j])
  {
    forall i, j | 0 <= i < j < n ensures StrLess(DayKeys(year, month, n)[i], DayKeys(year, month, n)[j]) {
      DayKeyLess(year, month, n, i, j);
    }
  }

  lemma DayKeyLess(year: int, month: nat, n: nat, i: nat, j: nat)
    requires month < 100 && i < j < n < 100
    ensures StrLess(DayKeys(year, month, n)[i], DayKeys(year, month, n)[j])
  {
    IsoDateOrder(year, month, i + 1, j + 1);
  }

  // ---------------------------------------------------------------------
  // The single day rendered for a month
  // ---------------------------------------------------------------------

  /** The song record a placeholder day shows three times. */
  const Filler := Song("Placeholder", "TBD", 0, "No data yet")

  function PlaceholderDay(year: int, monthIndex: int, dayNumber: int, weekday: string): Day
  {
    Day(IsoDate(year, monthIndex + 1, dayNumber), weekday, [Filler, Filler, Filler])
  }

  /** `ensureSinglePlaceholderIfEmpty`: a month with no days gets one placeholder day, the 1st. */
  function EnsureSinglePlaceholder(year: int, monthIndex: int, days: Option<seq<Day>>, weekdayOf: string -> string): (r: seq<Day>)
    ensures r != []
    ensures days.Some? && days.value != [] ==> r == days.value
    ensures days.None? || days.value == [] ==>
      var key := IsoDate(year, monthIndex + 1, 1);
      r == [Day(key, weekdayOf(key), [Filler, Filler, Filler])]
  {
    if days.None? || days.value == [] then
      [PlaceholderDay(year, monthIndex, 1, weekdayOf(IsoDate(year, monthIndex + 1, 1)))]
    else days.value
  }

  /** Index of the first day whose key is `target` (`Array.prototype.find`). */
  function FindDay(days: seq<Day>, target: string): (r: Option<nat>)
    ensures r.Some? ==> (r.value < |days| && days[r.value].dateISO == target
                         && forall j :: 0 <= j < r.value ==> days[j].dateISO != target)
    ensures r.None? ==> forall j :: 0 <= j < |days| ==> days[j].dateISO != target
  {
    if days == [] then None
    else if days[0].dateISO == target then Some(0)
    else match FindDay(days[1..], target)
      case None => None
      case Some(i) => Some(i + 1)
  }

  /**
   * Index of `days.reduce((a, b) => a.dateISO > b.dateISO ? a : b)`: a day
   * with the greatest key; of several such days, the last one wins.
   */
  function LatestDay(days: seq<Day>): (p: nat)
    requires days != []
    ensures p < |days|
    ensures forall j :: 0 <= j < p ==> !StrLess(days[p].dateISO, days[j].dateISO)
    ensures forall j :: p < j < |days| ==> StrLess(days[j].dateISO, days[p].dateISO)
  {
    if |days| == 1 then 0
    else
      var init := days[..|days| - 1];
      var a := LatestDay(init);
      var b := |days| - 1;
      if StrLess(days[b].dateISO, days[a].dateISO) then
        assert init[a] == days[a];
        a
      else
        forall j | 0 <= j < b ensures !StrLess(days[b].dateISO, days[j].dateISO) {
          assert init[j] == days[j];
          if StrLess(days[b].dateISO, days[j].dateISO) {
            if j < a {
              if days[a].dateISO != days[j].dateISO {
                StrLessTotal(days[a].dateISO, days[j].dateISO);
              }
              StrLessTransitive(days[b].dateISO, days[j].dateISO, days[a].dateISO);
            } else if j > a {
              StrLessTransitive(days[b].dateISO, days[j].dateISO, days[a].dateISO);
            }
          }
        }
        b
  }

  /**
   * The day `getOrderedMonths` renders: the day whose key matches the
   * picked day number, and otherwise the latest day of the month.
   */
  function SelectDay(days: seq<Day>, target: Option<string>): (r: Day)
    requires days != []
    ensures r in days
    ensures target.Some? && (exists j :: 0 <= j < |days| && days[j].dateISO == target.value) ==>
      r.dateISO == target.value
    ensures (target.None? || forall j :: 0 <= j < |days| ==> days[j].dateISO != target.value) ==>
      forall j :: 0 <= j < |days| ==> !StrLess(r.dateISO, days[j].dateISO)
  {
    var found := if target.Some? then FindDay(days, target.value) else None;
    match found
    case Some(i) => days[i]
    case None =>
      var p := LatestDay(days);
      forall j | p < j < |days| ensures !StrLess(days[p].dateISO, days[j].dateISO) {
        if StrLess(days[p].dateISO, days[j].dateISO) {
          StrLessTransitive(days[p].dateISO, days[j].dateISO, days[p].dateISO);
          StrLessIrreflexive(days[p].dateISO);
        }
      }
      StrLessIrreflexive(days[p].dateISO);
      days[p]
  }

  /**
   * `getOrderedMonths`: the one month the navigation state points at, with
   * exactly one day to render.  `keyed` is the mock history keyed by
   * `MonthKey`.
   */
  function OrderedMonths(keyed: map<string, MonthData>, year: int, monthIndex: int,
                         dayNumber: Option<int>, weekdayOf: string -> string): (r: seq<MonthView>)
    requires 0 <= monthIndex < 12
    ensures |r| == 1 && |r[0].days| == 1
    ensures r[0].month == MonthNames[monthIndex] && r[0].year == FullYear(year)
    ensures MonthKey(FullYear(year), monthIndex) !in keyed ==>
      r[0].days[0].dateISO == IsoDate(FullYear(year), monthIndex + 1, 1)
    ensures MonthKey(FullYear(year), monthIndex) in keyed ==>
      var days := keyed[MonthKey(FullYear(year), monthIndex)].days;
      days.Some? && days.value != [] ==> r[0].days[0] in days.value
    ensures var days := if MonthKey(FullYear(year), monthIndex) in keyed
                        then keyed[MonthKey(FullYear(year), monthIndex)].days else None;
      days.None? || days.value == [] ==>
        var first := IsoDate(FullYear(year), monthIndex + 1, 1);
        r[0].days[0] == Day(first, weekdayOf(first), [Filler, Filler, Filler])
    ensures MonthKey(FullYear(year), monthIndex) in keyed ==>
      var days := keyed[MonthKey(FullYear(year), monthIndex)].days;
      var target := if dayNumber.Some? then Some(IsoDate(year, monthIndex + 1, dayNumber.value)) else None;
      days.Some? && days.value != [] ==> r[0].days[0] == SelectDay(days.value, target)
  {
    var fullYear := FullYear(year);
    var key := MonthKey(fullYear, monthIndex);
    if key in keyed then
      var ensured := EnsureSinglePlaceholder(fullYear, monthIndex, keyed[key].days, weekdayOf);
      var target := if dayNumber.Some? then Some(IsoDate(year, monthIndex + 1, dayNumber.value)) else None;
      [MonthView(MonthNames[monthIndex], fullYear, [SelectDay(ensured, target)])]
    else
      [MonthView(MonthNames[monthIndex], fullYear, EnsureSinglePlaceholder(fullYear, monthIndex, None, weekdayOf))]
  }

  // ---------------------------------------------------------------------
  // The year picker
  // ---------------------------------------------------------------------

  ghost predicate StrictlyIncreasing(s: seq<int>)
  {
    forall i, j :: 0 <= i < j < |s| ==> s[i] < s[j]
  }

  /** Insert `y` into an increasing sequence unless it is already there. */
  function InsertYear(y: int, s: seq<int>): (r: seq<int>)
    requires StrictlyIncreasing(s)
    ensures StrictlyIncreasing(r)
    ensures forall x :: x in r <==> x == y || x in s
  {
    if s == [] then [y]
    else if y < s[0] then [y] + s
    else if y == s[0] then s
    else
      var rest := InsertYear(y, s[1..]);
      assert forall j :: 0 <= j < |rest| ==> s[0] < rest[j] by {
        forall j | 0 <= j < |rest| ensures s[0] < rest[j] {
          assert rest[j] in rest;
          if rest[j] != y {
            var k :| 0 <= k < |s[1..]| && s[1..][k] == rest[j];
            assert s[k + 1] == rest[j];
          }
        }
      }
      var r := [s[0]] + rest;
      assert forall i, j :: 0 <= i < j < |r| ==> r[i] < r[j] by {
        forall i, j | 0 <= i < j < |r| ensures r[i] < r[j] {
          if i > 0 {
            assert r[i] == rest[i - 1] && r[j] == rest[j - 1];
          } else {
            assert r[j] == rest[j - 1];
          }
        }
      }
      assert s == [s[0]] + s[1..];
      r
  }

  /** The distinct values of `years`, in increasing order. */
  function SortedDistinct(years: seq<int>): (r: seq<int>)
    ensures StrictlyIncreasing(r)
    ensures forall x :: x in r <==> x in years
  {
    if years == [] then []
    else
      var init := years[..|years| - 1];
      assert years == init + [years[|years| - 1]];
      InsertYear(years[|years| - 1], SortedDistinct(init))
  }

  /** `getUniqueYears`: every mock year and the current one, each once, ascending. */
  function UniqueYears(history: seq<MonthData>, currentYear: int): (r: seq<int>)
    ensures StrictlyIncreasing(r)
    ensures currentYear in r
    ensures forall y :: y in r <==> y == currentYear || exists m :: m in history && m.year == y
  {
    var years := seq(|history|, i requires 0 <= i < |history| => history[i].year) + [currentYear];
    var r := SortedDistinct(years);
    forall y | y in r ensures y == currentYear || exists m :: m in history && m.year == y {
      if y != currentYear {
        var i :| 0 <= i < |years| && years[i] == y;
        assert history[i] in history;
      }
    }
    forall m | m in history ensures m.year in r {
      var i :| 0 <= i < |history| && history[i] == m;
      assert years[i] == m.year;
    }
    assert years[|history|] == currentYear;
    r
  }

  // ---------------------------------------------------------------------
  // The journal card's date
  // ---------------------------------------------------------------------

  /** `s.split("-")`. */
  function SplitDash(s: string): (r: seq<string>)
    ensures |r| >= 1
  {
    if s == [] then [""]
    else if s[0] == '-' then [""] + SplitDash(s[1..])
    else
      var rest := SplitDash(s[1..]);
      [[s[0]] + rest[0]] + rest[1..]
  }

  lemma {:induction false} SplitDashField(a: string, b: string)
    requires forall i :: 0 <= i < |a| ==> a[i] != '-'
    ensures SplitDash(a + "-" + b) == [a] + SplitDash(b)
  {
    if a != [] {
      assert (a + "-" + b)[1..] == a[1..] + "-" + b;
      SplitDashField(a[1..], b);
      assert [a[0]] + a[1..] == a;
    } else {
      assert ("-" + b)[1..] == b;
    }
  }

  function LeadingDigits(s: string): (r: string)
    ensures |r| <= |s| && r == s[..|r|]
    ensures forall i :: 0 <= i < |r| ==> IsDigit(r[i])
  {
    if s != [] && IsDigit(s[0]) then [s[0]] + LeadingDigits(s[1..]) else ""
  }

  /** `parseInt(s, 10)`; `None` stands for `NaN`. */
  function ParseInt(s: string): Option<int>
  {
    var t := TrimStart(s);
    var negative := t != [] && t[0] == '-';
    var body := if t != [] && (t[0] == '-' || t[0] == '+') then t[1..] else t;
    var digits := LeadingDigits(body);
    if digits == [] then None
    else if negative then Some(-(DigitsValue(digits) as int))
    else Some(DigitsValue(digits))
  }

  /** `String(n).slice(-2)`. */
  function LastTwo(s: string): string
  {
    if |s| <= 2 then s else s[|s| - 2..]
  }

  /**
   * `formatJournalDate`: `MM.DD.YY` of a `YYYY-MM-DD` key.  The source hands
   * the parsed fields to `new Date(y, m - 1, d)`, which rolls an
   * out-of-range month or day over into the next month or year and prints
   * `NaN` fields for text that does not parse; those inputs give `None`
   * here.
   */
  function FormatJournalDate(dateISO: string): Option<string>
  {
    var parts := SplitDash(dateISO);
    var y := ParseInt(parts[0]);
    var m := if |parts| > 1 then ParseInt(parts[1]) else None;
    var d := if |parts| > 2 then ParseInt(parts[2]) else None;
    if y.None? || m.None? || d.None? then None else JournalDate(y.value, m.value, d.value)
  }

  /** `MM.DD.YY` of a year, month and day, when they name a real date. */
  function JournalDate(year: int, month: int, day: int): Option<string>
  {
    if !(1 <= month <= 12) || !(1 <= day <= DaysInMonth(year, month - 1)) then None
    else Some(TwoDigits(month) + "." + TwoDigits(day) + "." + LastTwo(IntToString(FullYear(year))))
  }

  lemma {:induction false} ParseIntOfDigits(s: string)
    requires s != [] && forall i :: 0 <= i < |s| ==> IsDigit(s[i])
    ensures ParseInt(s) == Some(DigitsValue(s))
  {
    assert !IsSpace(s[0]);
    var t := TrimStart(s);
    assert t == s;
    assert t[0] != '-' && t[0] != '+';
    DigitsAreLeading(s);
  }

  lemma {:induction false} SplitDashWhole(a: string)
    requires forall i :: 0 <= i < |a| ==> a[i] != '-'
    ensures SplitDash(a) == [a]
  {
    if a != [] {
      SplitDashWhole(a[1..]);
      assert [a[0]] + a[1..] == a;
    }
  }

  lemma {:induction false} DigitsAreLeading(s: string)
    requires forall i :: 0 <= i < |s| ==> IsDigit(s[i])
    ensures LeadingDigits(s) == s
  {
    if s != [] {
      DigitsAreLeading(s[1..]);
    }
  }

  lemma DateKeyParts(d: LocalDate)
    requires d.year >= 0 && 1 <= d.month <= 12 && 1 <= d.day <= 31
    ensures DateKey(d) == NatToString(d.year) + "-" + (TwoDigits(d.month) + "-" + TwoDigits(d.day))
  {
    PaddedIsTwoDigits(d.month);
    PaddedIsTwoDigits(d.day);
    var ys, ms, ds := IntToString(d.year), PadStart2(IntToString(d.month)), PadStart2(IntToString(d.day));
    assert ys == NatToString(d.year);
    assert DateKey(d) == ys + "-" + ms + "-" + ds;
    DashAssoc(ys, ms, ds);
  }

  lemma DashAssoc(a: string, b: string, c: string)
    ensures a + "-" + b + "-" + c == a + "-" + (b + "-" + c)
  {
  }

  lemma NoDash(s: string)
    requires forall i :: 0 <= i < |s| ==> IsDigit(s[i])
    ensures forall i :: 0 <= i < |s| ==> s[i] != '-'
  {
  }

  lemma SplitDateKey(d: LocalDate)
    requires d.year >= 0 && 1 <= d.month <= 12 && 1 <= d.day <= 31
    ensures SplitDash(DateKey(d)) == [NatToString(d.year), TwoDigits(d.month), TwoDigits(d.day)]
  {
    DateKeyParts(d);
    SplitKey(d.year, d.month, d.day);
  }

  /** A year and two two-digit fields joined by dashes split back into the three fields. */
  lemma SplitKey(year: nat, month: nat, day: nat)
    requires month < 100 && day < 100
    ensures var a, b, c := NatToString(year), TwoDigits(month), TwoDigits(day);
      SplitDash(a + "-" + (b + "-" + c)) == [a, b, c]
  {
    var a, b, c := NatToString(year), TwoDigits(month), TwoDigits(day);
    NoDash(a);
    NoDash(b);
    NoDash(c);
    SplitDashField(a, b + "-" + c);
    SplitDashField(b, c);
    SplitDashWhole(c);
    assert [a] + ([b] + [c]) == [a, b, c];
  }

  lemma ParseIntOfNatToString(n: nat)
    ensures ParseInt(NatToString(n)) == Some(n)
  {
    ParseIntOfDigits(NatToString(n));
    DigitsValueOfNatToString(n);
  }

  lemma ParseIntOfTwoDigits(n: nat)
    requires n < 100
    ensures ParseInt(TwoDigits(n)) == Some(n)
  {
    ParseIntOfDigits(TwoDigits(n));
  }

  lemma FormatJournalDateOfFields(s: string, year: int, month: int, day: int)
    requires |SplitDash(s)| >= 3
    requires ParseInt(SplitDash(s)[0]) == Some(year)
    requires ParseInt(SplitDash(s)[1]) == Some(month)
    requires ParseInt(SplitDash(s)[2]) == Some(day)
    ensures FormatJournalDate(s) == JournalDate(year, month, day)
  {
  }

  /** A real date of a year from 100 on prints as `MM.DD.YY`, with the year's last two digits. */
  lemma JournalDateOfRealDate(year: int, month: int, day: int)
    requires year >= 100 && 1 <= month <= 12 && 1 <= day <= DaysInMonth(year, month - 1)
    ensures JournalDate(year, month, day) ==
      Some(TwoDigits(month) + "." + TwoDigits(day) + "." + LastTwo(NatToString(year)))
  {
  }

  /**
   * The day keys the page writes read back through `formatJournalDate` to
   * their own year, month and day; `JournalDateOfRealDate` gives the text
   * printed for a real date.
   */
  lemma FormatJournalDateOfKey(d: LocalDate)
    requires d.year >= 0 && 1 <= d.month <= 12 && 1 <= d.day <= 31
    ensures FormatJournalDate(DateKey(d)) == JournalDate(d.year, d.month, d.day)
  {
    SplitDateKey(d);
    ParseIntOfNatToString(d.year);
    ParseIntOfTwoDigits(d.month);
    ParseIntOfTwoDigits(d.day);
    FormatJournalDateOfFields(DateKey(d), d.year, d.month, d.day);
  }
}
