/**
 * The in-Rust aggregation of `get_analytics` and the pay summary windows:
 * totals over the queried sessions, the per-date, per-category and
 * per-weekday breakdowns, and the two scans over daily totals used by the
 * achievement checks.
 */
module Analytics {
  import W = Wrappers
  import opened Calendar
  import opened Models
  import opened Logic
  import Streaks

  /** A row of the analytics query: a session and the colour of its session type, if any. */
  datatype Row = Row(session: Session, typeColor: W.Option<string>)

  const DefaultColor: string := "#6366F1"
  const UnknownCategory: string := "Unknown"

  function ColorOf(r: Row): string { r.typeColor.GetOr(DefaultColor) }
  function CategoryOf(r: Row): string { r.session.sessionTypeName.GetOr(UnknownCategory) }
  function RowHours(r: Row): real { r.session.hours }
  function RowPay(r: Row): real { CalculatePay(r.session) }

  function SessionsOf(rows: seq<Row>): (ss: seq<Session>)
    ensures |ss| == |rows| && forall i :: 0 <= i < |rows| ==> ss[i] == rows[i].session
  {
    seq(|rows|, i requires 0 <= i < |rows| => rows[i].session)
  }

  /** `WHERE s.date >= ? AND s.date <= ?` on the stored date strings. */
  function RowsInRange(rows: seq<Row>, lo: Date, hi: Date): seq<Row> {
    Filter(rows, (r: Row) => InRange(r.session.date, lo, hi))
  }

  // ---------- Summary ----------

  function RealMax(a: real, b: real): real { if a >= b then a else b }

  /** `fold(0.0, f64::max)` over the hours. */
  function LongestSession(ss: seq<Session>): (m: real)
    ensures m >= 0.0
    ensures forall s :: s in ss ==> s.hours <= m
    ensures m == 0.0 || exists s :: s in ss && s.hours == m
    decreases |ss|
  {
    if ss == [] then 0.0
    else
      var init := ss[..|ss| - 1];
      var last := ss[|ss| - 1];
      assert forall s :: s in ss <==> s in init || s == last by {
        assert ss == init + [last];
      }
      RealMax(LongestSession(init), last.hours)
  }

  datatype AnalyticsSummary = AnalyticsSummary(
    totalHours: real,
    totalSessions: nat,
    avgSessionLength: real,
    longestSession: real,
    totalPay: real)

  /**
   * The summary: the average is the total over the count, or 0 without
   * sessions; the longest session is the greatest hours, never below 0.
   */
  function Summarize(ss: seq<Session>): (r: AnalyticsSummary)
    ensures r.totalSessions == |ss|
    ensures |ss| > 0 ==> r.avgSessionLength * (|ss| as real) == r.totalHours
    ensures |ss| == 0 ==> r.avgSessionLength == 0.0 && r.totalHours == 0.0 && r.longestSession == 0.0
  {
    var total := Sum(ss, HoursOf);
    AnalyticsSummary(
      total,
      |ss|,
      if |ss| > 0 then total / (|ss| as real) else 0.0,
      LongestSession(ss),
      Sum(ss, CalculatePay))
  }

  // ---------- Daily breakdown ----------

  datatype DailyHours = DailyHours(date: Date, hours: real, pay: real)

  function DatesOf(daily: seq<DailyHours>): (ds: seq<Date>)
    ensures |ds| == |daily| && forall k :: 0 <= k < |daily| ==> ds[k] == daily[k].date
  {
    seq(|daily|, k requires 0 <= k < |daily| => daily[k].date)
  }

  function DailyHoursOf(e: DailyHours): real { e.hours }
  function DailyPayOf(e: DailyHours): real { e.pay }

  /**
   * One entry per distinct session date, in ascending date order, each
   * holding the hours and pay of exactly the sessions on that date.
   */
  ghost predicate IsDailyBreakdown(ss: seq<Session>, daily: seq<DailyHours>) {
    StrictlySorted(DatesOf(daily))
    && (forall d :: d in DatesOf(daily) <==> d in Streaks.SessionDates(ss))
    && forall k :: 0 <= k < |daily| ==>
         daily[k].hours == TotalHoursForDate(ss, daily[k].date)
         && daily[k].pay == TotalPayForDate(ss, daily[k].date)
  }

  /** The daily map after a prefix ss: one key per date, holding that date's hours and pay. */
  ghost predicate DailyMapOf(ss: seq<Session>, m: map<Date, (real, real)>) {
    (forall d :: d in m <==> d in Streaks.SessionDates(ss))
    && forall d :: d in m ==> m[d].0 == TotalHoursForDate(ss, d) && m[d].1 == TotalPayForDate(ss, d)
  }

  /** `entry(date).or_insert((0.0, 0.0))` followed by adding the session's hours and pay. */
  function AddToDay(m: map<Date, (real, real)>, s: Session): map<Date, (real, real)> {
    var e := if s.date in m then m[s.date] else (0.0, 0.0);
    m[s.date := (e.0 + s.hours, e.1 + CalculatePay(s))]
  }

  lemma DailyMapStep(ss: seq<Session>, s: Session, m: map<Date, (real, real)>)
    requires DailyMapOf(ss, m)
    ensures DailyMapOf(ss + [s], AddToDay(m, s))
  {
    DailyMapKeys(ss, s, m);
    DailyMapValues(ss, s, m, AddToDay(m, s));
  }

  lemma DailyMapValues(ss: seq<Session>, s: Session, m: map<Date, (real, real)>, m': map<Date, (real, real)>)
    requires DailyMapOf(ss, m) && m' == AddToDay(m, s)
    ensures forall d :: d in m' ==> m'[d].0 == TotalHoursForDate(ss + [s], d) && m'[d].1 == TotalPayForDate(ss + [s], d)
  {
    if s.date !in m {
      NewDayEmpty(ss, s.date);
    }
    forall d | d in m' ensures m'[d].0 == TotalHoursForDate(ss + [s], d) && m'[d].1 == TotalPayForDate(ss + [s], d) {
      TotalsForDateAppend(ss, s, d);
      if d != s.date {
        assert m'[d] == m[d];
      }
    }
  }

  lemma DailyMapKeys(ss: seq<Session>, s: Session, m: map<Date, (real, real)>)
    requires forall d :: d in m <==> d in Streaks.SessionDates(ss)
    ensures forall d :: d in AddToDay(m, s) <==> d in Streaks.SessionDates(ss + [s])
  {
    assert Streaks.SessionDates(ss + [s]) == Streaks.SessionDates(ss) + [s.date];
  }

  lemma NewDayEmpty(ss: seq<Session>, d: Date)
    requires d !in Streaks.SessionDates(ss)
    ensures TotalHoursForDate(ss, d) == 0.0 && TotalPayForDate(ss, d) == 0.0
  {
    forall x | x in ss ensures x.date != d {
      var j :| 0 <= j < |ss| && ss[j] == x;
      assert Streaks.SessionDates(ss)[j] == x.date;
    }
    TotalsForDateNone(ss, d);
  }

  /** The daily map of `get_analytics`, filled in one pass and then sorted by date. */
  method DailyBreakdown(ss: seq<Session>) returns (daily: seq<DailyHours>)
    ensures IsDailyBreakdown(ss, daily)
    ensures DatesOf(daily) == SortedDistinct(Streaks.SessionDates(ss))
  {
    var m: map<Date, (real, real)> := map[];
    for i := 0 to |ss|
      invariant DailyMapOf(ss[..i], m)
    {
      assert ss[..i + 1] == ss[..i] + [ss[i]];
      DailyMapStep(ss[..i], ss[i], m);
      m := AddToDay(m, ss[i]);
    }
    assert ss[..|ss|] == ss;
    var keys := SortedDistinct(Streaks.SessionDates(ss));
    daily := seq(|keys|, k requires 0 <= k < |keys| => DailyHours(keys[k], m[keys[k]].0, m[keys[k]].1));
    assert DatesOf(daily) == keys;
  }

  lemma {:induction false} DailySumsAsGroups(ss: seq<Session>, daily: seq<DailyHours>)
    requires forall k :: 0 <= k < |daily| ==>
      daily[k].hours == TotalHoursForDate(ss, daily[k].date) && daily[k].pay == TotalPayForDate(ss, daily[k].date)
    ensures Sum(daily, DailyHoursOf) == SumGroups(ss, DateOf, HoursOf, DatesOf(daily))
    ensures Sum(daily, DailyPayOf) == SumGroups(ss, DateOf, CalculatePay, DatesOf(daily))
    decreases |daily|
  {
    if daily != [] {
      var init := daily[..|daily| - 1];
      DailySumsAsGroups(ss, init);
      assert DatesOf(daily)[..|daily| - 1] == DatesOf(init);
    }
  }

  /** The daily entries add up to the summary totals, and there is one per distinct date. */
  lemma DailyBreakdownTotals(ss: seq<Session>, daily: seq<DailyHours>)
    requires IsDailyBreakdown(ss, daily)
    ensures Sum(daily, DailyHoursOf) == Sum(ss, HoursOf)
    ensures Sum(daily, DailyPayOf) == Sum(ss, CalculatePay)
    ensures |daily| == |set s | s in ss :: s.date|
  {
    var ds := DatesOf(daily);
    forall i, j | 0 <= i < j < |ds| ensures ds[i] != ds[j] {
      StrictlySortedDistinct(ds, i, j);
    }
    forall x | x in ss ensures DateOf(x) in ds {
      var i :| 0 <= i < |ss| && ss[i] == x;
      assert Streaks.SessionDates(ss)[i] == x.date;
    }
    DailySumsAsGroups(ss, daily);
    SumGroupsTotal(ss, DateOf, HoursOf, ds);
    SumGroupsTotal(ss, DateOf, CalculatePay, ds);
    StrictlySortedCount(ds);
    assert (set x | x in ds) == (set s | s in ss :: s.date) by {
      Streaks.SessionDatesMembers(ss);
    }
  }

  // ---------- Category breakdown ----------

  datatype CategoryBreakdown = CategoryBreakdown(category: string, color: string, hours: real, sessions: nat, pay: real)

  function CategoriesOf(cats: seq<CategoryBreakdown>): (cs: seq<string>)
    ensures |cs| == |cats| && forall k :: 0 <= k < |cats| ==> cs[k] == cats[k].category
  {
    seq(|cats|, k requires 0 <= k < |cats| => cats[k].category)
  }

  /** The colour of the first row of category c, which creates the entry. */
  function FirstColor(rows: seq<Row>, c: string): string
    decreases |rows|
  {
    if rows == [] then DefaultColor
    else if CategoryOf(rows[0]) == c then ColorOf(rows[0])
    else FirstColor(rows[1..], c)
  }

  predicate HasCategory(rows: seq<Row>, c: string) {
    exists r :: r in rows && CategoryOf(r) == c
  }

  lemma {:induction false} FirstColorAppend(rows: seq<Row>, r: Row, c: string)
    ensures FirstColor(rows + [r], c) == if HasCategory(rows, c) then FirstColor(rows, c) else FirstColor([r], c)
    decreases |rows|
  {
    if rows != [] {
      assert (rows + [r])[0] == rows[0];
      assert (rows + [r])[1..] == rows[1..] + [r];
      FirstColorAppend(rows[1..], r, c);
      assert HasCategory(rows, c) <==> CategoryOf(rows[0]) == c || HasCategory(rows[1..], c) by {
        assert rows == [rows[0]] + rows[1..];
      }
    } else {
      assert rows + [r] == [r];
    }
  }

  /**
   * One entry per distinct category, "Unknown" standing for a session
   * without a type; each holds the hours, session count and pay of exactly
   * that category's rows and the colour of its first row.
   */
  ghost predicate IsCategoryBreakdown(rows: seq<Row>, cats: seq<CategoryBreakdown>) {
    Distinct(CategoriesOf(cats))
    && (forall c :: c in CategoriesOf(cats) <==> HasCategory(rows, c))
    && forall k :: 0 <= k < |cats| ==>
         cats[k].hours == GroupTotal(rows, CategoryOf, RowHours, cats[k].category)
         && cats[k].pay == GroupTotal(rows, CategoryOf, RowPay, cats[k].category)
         && cats[k].sessions == GroupCount(rows, CategoryOf, cats[k].category)
         && cats[k].color == FirstColor(rows, cats[k].category)
  }

  /** The category map of `get_analytics`, kept as entries in order of first appearance. */
  method CategoryBreakdowns(rows: seq<Row>) returns (cats: seq<CategoryBreakdown>)
    ensures IsCategoryBreakdown(rows, cats)
  {
    cats := [];
    for i := 0 to |rows|
      invariant IsCategoryBreakdown(rows[..i], cats)
    {
      var r := rows[i];
      var c := CategoryOf(r);
      assert rows[..i + 1] == rows[..i] + [r];
      var k := IndexOf(CategoriesOf(cats), c);
      if k < |cats| {
        var e := cats[k];
        var updated := cats[k := CategoryBreakdown(e.category, e.color, e.hours + RowHours(r), e.sessions + 1, e.pay + RowPay(r))];
        CategoryStepExisting(rows[..i], r, rows[..i + 1], cats, k, updated);
        cats := updated;
      } else {
        var updated := cats + [CategoryBreakdown(c, ColorOf(r), RowHours(r), 1, RowPay(r))];
        CategoryStepNew(rows[..i], r, rows[..i + 1], cats, updated);
        cats := updated;
      }
    }
    assert rows[..|rows|] == rows;
  }

  lemma HasCategoryAppend(rows: seq<Row>, r: Row)
    ensures forall x :: HasCategory(rows + [r], x) <==> HasCategory(rows, x) || x == CategoryOf(r)
  {
    forall x ensures HasCategory(rows + [r], x) <==> HasCategory(rows, x) || x == CategoryOf(r) {
      assert r in rows + [r];
      if HasCategory(rows + [r], x) {
        var y :| y in rows + [r] && CategoryOf(y) == x;
        if y != r { assert y in rows; }
      }
      if HasCategory(rows, x) {
        var y :| y in rows && CategoryOf(y) == x;
        assert y in rows + [r];
      }
    }
  }

  /** A row of a category already listed adds to that entry only. */
  lemma CategoryStepExisting(rows: seq<Row>, r: Row, next: seq<Row>, cats: seq<CategoryBreakdown>, k: nat, cats': seq<CategoryBreakdown>)
    requires next == rows + [r]
    requires IsCategoryBreakdown(rows, cats) && k < |cats| && cats[k].category == CategoryOf(r)
    requires var e := cats[k];
      cats' == cats[k := CategoryBreakdown(e.category, e.color, e.hours + RowHours(r), e.sessions + 1, e.pay + RowPay(r))]
    ensures IsCategoryBreakdown(next, cats')
  {
    var c := CategoryOf(r);
    HasCategoryAppend(rows, r);
    assert CategoriesOf(cats') == CategoriesOf(cats);
    forall j | 0 <= j < |cats'| ensures
      cats'[j].hours == GroupTotal(rows + [r], CategoryOf, RowHours, cats'[j].category)
      && cats'[j].pay == GroupTotal(rows + [r], CategoryOf, RowPay, cats'[j].category)
      && cats'[j].sessions == GroupCount(rows + [r], CategoryOf, cats'[j].category)
      && cats'[j].color == FirstColor(rows + [r], cats'[j].category)
    {
      GroupTotalAppend(rows, r, CategoryOf, RowHours, cats[j].category);
      GroupTotalAppend(rows, r, CategoryOf, RowPay, cats[j].category);
      GroupCountAppend(rows, r, CategoryOf, cats[j].category);
      FirstColorAppend(rows, r, cats[j].category);
      if j != k {
        assert CategoriesOf(cats)[j] != CategoriesOf(cats)[k];
      }
    }
  }

  /** A row of a new category appends its entry. */
  lemma CategoryStepNew(rows: seq<Row>, r: Row, next: seq<Row>, cats: seq<CategoryBreakdown>, cats': seq<CategoryBreakdown>)
    requires next == rows + [r]
    requires IsCategoryBreakdown(rows, cats) && CategoryOf(r) !in CategoriesOf(cats)
    requires cats' == cats + [CategoryBreakdown(CategoryOf(r), ColorOf(r), RowHours(r), 1, RowPay(r))]
    ensures IsCategoryBreakdown(next, cats')
  {
    var c := CategoryOf(r);
    HasCategoryAppend(rows, r);
    assert !HasCategory(rows, c);
    forall x | x in rows ensures CategoryOf(x) != c {
    }
    GroupTotalNone(rows, CategoryOf, RowHours, c);
    GroupTotalNone(rows, CategoryOf, RowPay, c);
    GroupCountNone(rows, CategoryOf, c);
    assert CategoriesOf(cats') == CategoriesOf(cats) + [c];
    forall j | 0 <= j < |cats'| ensures
      cats'[j].hours == GroupTotal(rows + [r], CategoryOf, RowHours, cats'[j].category)
      && cats'[j].pay == GroupTotal(rows + [r], CategoryOf, RowPay, cats'[j].category)
      && cats'[j].sessions == GroupCount(rows + [r], CategoryOf, cats'[j].category)
      && cats'[j].color == FirstColor(rows + [r], cats'[j].category)
    {
      GroupTotalAppend(rows, r, CategoryOf, RowHours, cats'[j].category);
      GroupTotalAppend(rows, r, CategoryOf, RowPay, cats'[j].category);
      GroupCountAppend(rows, r, CategoryOf, cats'[j].category);
      FirstColorAppend(rows, r, cats'[j].category);
      if j < |cats| {
        assert cats'[j].category in CategoriesOf(cats);
      } else {
        assert FirstColor([r], c) == ColorOf(r);
      }
    }
  }

  /** Position of c in cs, or |cs| when it is absent. */
  function IndexOf(cs: seq<string>, c: string): (k: nat)
    ensures k <= |cs|
    ensures k < |cs| ==> cs[k] == c
    ensures k == |cs| ==> c !in cs
    decreases |cs|
  {
    if cs == [] then 0 else if cs[0] == c then 0 else 1 + IndexOf(cs[1..], c)
  }

  lemma {:induction false} CategorySumsAsGroups(rows: seq<Row>, cats: seq<CategoryBreakdown>)
    requires forall k :: 0 <= k < |cats| ==>
      cats[k].hours == GroupTotal(rows, CategoryOf, RowHours, cats[k].category)
      && cats[k].sessions == GroupCount(rows, CategoryOf, cats[k].category)
    ensures Sum(cats, CategoryHoursOf) == SumGroups(rows, CategoryOf, RowHours, CategoriesOf(cats))
    ensures Sum(cats, CategorySessionsOf) == SumGroups(rows, CategoryOf, One, CategoriesOf(cats))
    decreases |cats|
  {
    if cats != [] {
      var init := cats[..|cats| - 1];
      CategorySumsAsGroups(rows, init);
      assert CategoriesOf(cats)[..|cats| - 1] == CategoriesOf(init);
      GroupCountAsTotal(rows, CategoryOf, cats[|cats| - 1].category);
    }
  }

  function CategoryHoursOf(e: CategoryBreakdown): real { e.hours }
  function CategorySessionsOf(e: CategoryBreakdown): real { e.sessions as real }

  /** The per-category session counts add up to the number of sessions, and the hours to the total. */
  lemma CategoryBreakdownTotals(rows: seq<Row>, cats: seq<CategoryBreakdown>)
    requires IsCategoryBreakdown(rows, cats)
    ensures Sum(cats, CategorySessionsOf) == |rows| as real
    ensures Sum(cats, CategoryHoursOf) == Sum(rows, RowHours)
  {
    var cs := CategoriesOf(cats);
    forall x | x in rows ensures CategoryOf(x) in cs {
      assert HasCategory(rows, CategoryOf(x));
    }
    CategorySumsAsGroups(rows, cats);
    SumGroupsTotal(rows, CategoryOf, RowHours, cs);
    SumGroupsTotal(rows, CategoryOf, One, cs);
    SumOne(rows);
  }

  // ---------- Weekday breakdown ----------

  datatype WeekdayBreakdown = WeekdayBreakdown(weekday: string, hours: real, sessions: nat)

  const WeekdayNames: seq<string> := ["Sun", "Mon", "Tue", "Wed", "Thu", "Fri", "Sat"]

  /** The weekday bucket of a row, Sunday 0 to Saturday 6; a date that does not parse goes to 7, which is dropped. */
  function WeekdayOf(r: Row): (w: int)
    ensures 0 <= w <= 7 && (w == 7 <==> r.session.date.Malformed?)
  {
    if r.session.date.Iso? then Weekday(r.session.date.day) else 7
  }

  /** Exactly seven entries, Sun..Sat, each with the hours and count of the rows on that weekday. */
  ghost predicate IsWeekdayBreakdown(rows: seq<Row>, w: seq<WeekdayBreakdown>) {
    |w| == 7
    && forall d :: 0 <= d < 7 ==>
         w[d].weekday == WeekdayNames[d]
         && w[d].hours == GroupTotal(rows, WeekdayOf, RowHours, d)
         && w[d].sessions == GroupCount(rows, WeekdayOf, d)
  }

  /** The two fixed arrays of `get_analytics`, filled in one pass. */
  method WeekdayBreakdowns(rows: seq<Row>) returns (w: seq<WeekdayBreakdown>)
    ensures IsWeekdayBreakdown(rows, w)
  {
    var hours := new real[7](_ => 0.0);
    var counts := new nat[7](_ => 0);
    forall d: nat | d < 7 ensures GroupTotal([], WeekdayOf, RowHours, d) == 0.0 && GroupCount([], WeekdayOf, d) == 0 {
      GroupTotalNone([], WeekdayOf, RowHours, d);
      GroupCountNone([], WeekdayOf, d);
    }
    for i := 0 to |rows|
      invariant forall d :: 0 <= d < 7 ==>
        hours[d] == GroupTotal(rows[..i], WeekdayOf, RowHours, d) && counts[d] == GroupCount(rows[..i], WeekdayOf, d)
    {
      var r := rows[i];
      assert rows[..i + 1] == rows[..i] + [r];
      WeekdayStep(rows[..i], r, rows[..i + 1]);
      if r.session.date.Iso? {
        var wd := Weekday(r.session.date.day);
        hours[wd] := hours[wd] + r.session.hours;
        counts[wd] := counts[wd] + 1;
      }
    }
    assert rows[..|rows|] == rows;
    var hs, cs := hours[..], counts[..];
    w := seq(7, d requires 0 <= d < 7 => WeekdayBreakdown(WeekdayNames[d], hs[d], cs[d]));
  }

  /** A row adds its hours and one session to its own weekday and leaves the others. */
  lemma WeekdayStep(rows: seq<Row>, r: Row, next: seq<Row>)
    requires next == rows + [r]
    ensures forall d :: 0 <= d < 8 ==>
      GroupTotal(next, WeekdayOf, RowHours, d) == GroupTotal(rows, WeekdayOf, RowHours, d) + (if WeekdayOf(r) == d then r.session.hours else 0.0)
      && GroupCount(next, WeekdayOf, d) == GroupCount(rows, WeekdayOf, d) + (if WeekdayOf(r) == d then 1 else 0)
  {
    forall d | 0 <= d < 8 ensures
      GroupTotal(next, WeekdayOf, RowHours, d) == GroupTotal(rows, WeekdayOf, RowHours, d) + (if WeekdayOf(r) == d then r.session.hours else 0.0)
      && GroupCount(next, WeekdayOf, d) == GroupCount(rows, WeekdayOf, d) + (if WeekdayOf(r) == d then 1 else 0)
    {
      GroupTotalAppend(rows, r, WeekdayOf, RowHours, d);
      GroupCountAppend(rows, r, WeekdayOf, d);
    }
  }

  function WeekdayHoursOf(e: WeekdayBreakdown): real { e.hours }

  lemma {:induction false} WeekdaySumsAsGroups(rows: seq<Row>, w: seq<WeekdayBreakdown>, n: nat)
    requires n <= |w| && forall d :: 0 <= d < n ==> w[d].hours == GroupTotal(rows, WeekdayOf, RowHours, d)
    ensures Sum(w[..n], WeekdayHoursOf) == SumGroups(rows, WeekdayOf, RowHours, Upto(n))
    decreases n
  {
    if n > 0 {
      WeekdaySumsAsGroups(rows, w, n - 1);
      assert w[..n][..n - 1] == w[..n - 1];
      assert w[..n][n - 1] == w[n - 1];
      assert Upto(n)[..n - 1] == Upto(n - 1);
      assert Upto(n)[n - 1] == n - 1;
    }
  }

  function Upto(n: nat): (ks: seq<int>)
    ensures |ks| == n && forall k :: 0 <= k < n ==> ks[k] == k
  {
    seq(n, k requires 0 <= k < n => k)
  }

  /**
   * Rows whose date does not parse are dropped: with non-negative hours the
   * weekday hours add up to at most the total, and to exactly the total when
   * every date parses.
   */
  lemma WeekdayBreakdownTotals(rows: seq<Row>, w: seq<WeekdayBreakdown>)
    requires IsWeekdayBreakdown(rows, w)
    requires forall r :: r in rows ==> r.session.hours >= 0.0
    ensures Sum(w, WeekdayHoursOf) <= Sum(rows, RowHours)
    ensures (forall r :: r in rows ==> r.session.date.Iso?) ==> Sum(w, WeekdayHoursOf) == Sum(rows, RowHours)
  {
    WeekdaySumsAsGroups(rows, w, 7);
    assert w[..7] == w;
    AllWeekdaysTotal(rows);
    GroupTotalNonNegative(rows, WeekdayOf, RowHours, 7);
    if forall r :: r in rows ==> r.session.date.Iso? {
      GroupTotalNone(rows, WeekdayOf, RowHours, 7);
    }
  }

  /** The seven weekdays and the bucket of unparsed dates together hold every row. */
  lemma AllWeekdaysTotal(rows: seq<Row>)
    ensures SumGroups(rows, WeekdayOf, RowHours, Upto(7)) + GroupTotal(rows, WeekdayOf, RowHours, 7) == Sum(rows, RowHours)
  {
    var ks := Upto(8);
    assert ks[..7] == Upto(7);
    assert Distinct(ks);
    forall x | x in rows ensures WeekdayOf(x) in ks {
      assert ks[WeekdayOf(x)] == WeekdayOf(x);
    }
    SumGroupsTotal(rows, WeekdayOf, RowHours, ks);
  }

  // ---------- The analytics result ----------

  datatype AnalyticsData = AnalyticsData(
    summary: AnalyticsSummary,
    dailyHours: seq<DailyHours>,
    categoryBreakdown: seq<CategoryBreakdown>,
    weekdayBreakdown: seq<WeekdayBreakdown>)

  /** `get_analytics` over the sessions whose date string lies in [rangeStart, rangeEnd]. */
  method GetAnalytics(all: seq<Row>, rangeStart: Date, rangeEnd: Date) returns (a: AnalyticsData)
    ensures a.summary == Summarize(SessionsOf(RowsInRange(all, rangeStart, rangeEnd)))
    ensures IsDailyBreakdown(SessionsOf(RowsInRange(all, rangeStart, rangeEnd)), a.dailyHours)
    ensures IsCategoryBreakdown(RowsInRange(all, rangeStart, rangeEnd), a.categoryBreakdown)
    ensures IsWeekdayBreakdown(RowsInRange(all, rangeStart, rangeEnd), a.weekdayBreakdown)
  {
    var rows := RowsInRange(all, rangeStart, rangeEnd);
    var ss := SessionsOf(rows);
    var daily := DailyBreakdown(ss);
    var cats := CategoryBreakdowns(rows);
    var days := WeekdayBreakdowns(rows);
    a := AnalyticsData(Summarize(ss), daily, cats, days);
  }

  // ---------- Pay summary ----------

  datatype PaySummary = PaySummary(today: real, thisMonth: real, thisYear: real, allTime: real)

  function PayInRange(ss: seq<Session>, lo: Date, hi: Date): real {
    Sum(Filter(ss, (s: Session) => InRange(s.date, lo, hi)), CalculatePay)
  }

  /**
   * `get_pay_summary`: pay on today's date, from the first of the month to
   * today, from the first of January to today, and over all sessions.
   */
  function GetPaySummary(ss: seq<Session>, today: CivilDate): PaySummary
    requires ValidCivil(today)
  {
    var t := Iso(DaysFromCivil(today));
    PaySummary(
      TotalPayForDate(ss, t),
      PayInRange(ss, Iso(DaysFromCivil(Civil(today.year, today.month, 1))), t),
      PayInRange(ss, Iso(DaysFromCivil(Civil(today.year, 1, 1))), t),
      Sum(ss, CalculatePay))
  }

  /** The windows are nested, so with non-negative pay today ≤ month ≤ year ≤ all time. */
  lemma PaySummaryNested(ss: seq<Session>, today: CivilDate)
    requires ValidCivil(today)
    requires forall s :: s in ss ==> CalculatePay(s) >= 0.0
    ensures GetPaySummary(ss, today).today <= GetPaySummary(ss, today).thisMonth
    ensures GetPaySummary(ss, today).thisMonth <= GetPaySummary(ss, today).thisYear
    ensures GetPaySummary(ss, today).thisYear <= GetPaySummary(ss, today).allTime
  {
    var t := DaysFromCivil(today);
    var ms := DaysFromCivil(Civil(today.year, today.month, 1));
    var ys := DaysFromCivil(Civil(today.year, 1, 1));
    DaysFromCivilWithinMonth(today);
    MonthStartAfterYearStart(today.year, today.month);
    DayWithinRange(ss, ms, t);
    RangeWithinRange(ss, ys, ms, t);
    FilterSumBound(ss, (s: Session) => InRange(s.date, Iso(ys), Iso(t)), CalculatePay);
  }

  lemma DayWithinRange(ss: seq<Session>, lo: int, t: int)
    requires lo <= t
    requires forall s :: s in ss ==> CalculatePay(s) >= 0.0
    ensures TotalPayForDate(ss, Iso(t)) <= PayInRange(ss, Iso(lo), Iso(t))
  {
    GroupTotalWithin(ss, DateOf, CalculatePay, Iso(t), (s: Session) => InRange(s.date, Iso(lo), Iso(t)));
  }

  lemma RangeWithinRange(ss: seq<Session>, lo: int, lo': int, t: int)
    requires lo <= lo'
    requires forall s :: s in ss ==> CalculatePay(s) >= 0.0
    ensures PayInRange(ss, Iso(lo'), Iso(t)) <= PayInRange(ss, Iso(lo), Iso(t))
  {
    FilterSumMonotone(ss, (s: Session) => InRange(s.date, Iso(lo'), Iso(t)), (s: Session) => InRange(s.date, Iso(lo), Iso(t)), CalculatePay);
  }

  // ---------- Scans over the daily totals ----------

  function SumReals(xs: seq<real>): real
    decreases |xs|
  {
    if xs == [] then 0.0 else SumReals(xs[..|xs| - 1]) + xs[|xs| - 1]
  }

  /** The seven consecutive entries from i average under eight hours. */
  predicate RestfulWindow(days: seq<real>, i: int)
    requires 0 <= i <= |days| - 7
  {
    SumReals(days[i..i + 7]) / 7.0 < 8.0
  }

  /**
   * `has_sustainable_week` over the daily totals in date order: false with
   * fewer than seven days, otherwise whether some seven consecutive entries
   * (not necessarily consecutive calendar days) average under eight hours.
   */
  method HasSustainableWeek(days: seq<real>) returns (b: bool)
    ensures b <==> |days| >= 7 && exists i :: 0 <= i <= |days| - 7 && RestfulWindow(days, i)
  {
    if |days| < 7 {
      return false;
    }
    var i := 0;
    while i <= |days| - 7
      invariant 0 <= i <= |days| - 6
      invariant forall j :: 0 <= j < i ==> !RestfulWindow(days, j)
    {
      if SumReals(days[i..i + 7]) / 7.0 < 8.0 {
        assert RestfulWindow(days, i);
        return true;
      }
      i := i + 1;
    }
    return false;
  }

  /** The hours of each distinct date, in date order. */
  function DailyTotalsOf(ss: seq<Session>): seq<real> {
    var ds := SortedDistinct(Streaks.SessionDates(ss));
    seq(|ds|, k requires 0 <= k < |ds| => TotalHoursForDate(ss, ds[k]))
  }

  /** The daily totals of all sessions (`GROUP BY date ORDER BY date`): one per distinct date, adding up to all hours. */
  method DailyTotals(ss: seq<Session>) returns (days: seq<real>)
    ensures days == DailyTotalsOf(ss)
    ensures |days| == |set s | s in ss :: s.date|
    ensures SumReals(days) == Sum(ss, HoursOf)
  {
    var daily := DailyBreakdown(ss);
    DailyBreakdownTotals(ss, daily);
    days := seq(|daily|, k requires 0 <= k < |daily| => daily[k].hours);
    DailyTotalsSum(daily, days);
  }

  lemma {:induction false} DailyTotalsSum(daily: seq<DailyHours>, days: seq<real>)
    requires |days| == |daily| && forall k :: 0 <= k < |daily| ==> days[k] == daily[k].hours
    ensures SumReals(days) == Sum(daily, DailyHoursOf)
    decreases |daily|
  {
    if daily != [] {
      DailyTotalsSum(daily[..|daily| - 1], days[..|days| - 1]);
    }
  }

  /**
   * `has_paced_week`: at least seven distinct dates, and no session longer
   * than six hours on the seven latest of them (`COALESCE(MAX(hours), 0)`).
   */
  function HasPacedWeek(ss: seq<Session>): bool {
    var ds := SortedDistinct(Streaks.SessionDates(ss));
    |ds| >= 7 && LongestSession(Filter(ss, (s: Session) => s.date in ds[|ds| - 7..])) <= 6.0
  }

  /** Paced means: enough distinct days, and every session on the latest seven is at most six hours. */
  lemma HasPacedWeekMeaning(ss: seq<Session>)
    ensures HasPacedWeek(ss) <==>
      var ds := SortedDistinct(Streaks.SessionDates(ss));
      |ds| >= 7 && forall s :: s in ss && s.date in ds[|ds| - 7..] ==> s.hours <= 6.0
  {
  }

  lemma PacedWeekNeedsSevenDays(ss: seq<Session>)
    requires HasPacedWeek(ss)
    ensures |set s | s in ss :: s.date| >= 7
  {
    SortedDistinctCount(Streaks.SessionDates(ss));
    assert (set x | x in Streaks.SessionDates(ss)) == (set s | s in ss :: s.date) by {
      Streaks.SessionDatesMembers(ss);
    }
  }
}
