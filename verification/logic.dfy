/**
 * Pure derived figures over the session list: sums by date, the trailing
 * four-week averages and the estimated time to reach a goal.
 */
module Logic {
  import W = Wrappers
  import Text
  import opened Calendar
  import opened Models

  // ---------- Filtering and summing ----------

  /** Keeps the elements satisfying p, in order (`iter().filter(p)`). */
  function Filter<T(!new)>(xs: seq<T>, p: T -> bool): (r: seq<T>)
    ensures |r| <= |xs|
    ensures forall x :: x in r <==> x in xs && p(x)
    decreases |xs|
  {
    if xs == [] then []
    else
      var init := Filter(xs[..|xs| - 1], p);
      var last := xs[|xs| - 1];
      assert forall x :: x in xs <==> x in xs[..|xs| - 1] || x == last by {
        assert xs == xs[..|xs| - 1] + [last];
      }
      if p(last) then init + [last] else init
  }

  /** Sum of f over the elements (`map(f).sum()`). */
  function Sum<T>(xs: seq<T>, f: T -> real): real
    decreases |xs|
  {
    if xs == [] then 0.0 else Sum(xs[..|xs| - 1], f) + f(xs[|xs| - 1])
  }

  function HoursOf(s: Session): real { s.hours }

  function DateOf(s: Session): Date { s.date }

  lemma FilterAppend<T(!new)>(xs: seq<T>, x: T, p: T -> bool)
    ensures Filter(xs + [x], p) == Filter(xs, p) + (if p(x) then [x] else [])
  {
    assert (xs + [x])[..|xs|] == xs;
  }

  lemma SumAppend<T(!new)>(xs: seq<T>, x: T, f: T -> real)
    ensures Sum(xs + [x], f) == Sum(xs, f) + f(x)
  {
    assert (xs + [x])[..|xs|] == xs;
  }

  lemma {:induction false} SumConcat<T(!new)>(a: seq<T>, b: seq<T>, f: T -> real)
    ensures Sum(a + b, f) == Sum(a, f) + Sum(b, f)
    decreases |b|
  {
    if b == [] {
      assert a + b == a;
    } else {
      var b' := b[..|b| - 1];
      SumConcat(a, b', f);
      assert a + b == (a + b') + [b[|b| - 1]];
      SumAppend(a + b', b[|b| - 1], f);
    }
  }

  lemma {:induction false} SumNonNegative<T(!new)>(xs: seq<T>, f: T -> real)
    requires forall x :: x in xs ==> f(x) >= 0.0
    ensures Sum(xs, f) >= 0.0
    decreases |xs|
  {
    if xs != [] {
      SumNonNegative(xs[..|xs| - 1], f);
    }
  }

  /** Filtering out elements with a non-negative value can only lower the sum. */
  lemma {:induction false} FilterSumBound<T(!new)>(xs: seq<T>, p: T -> bool, f: T -> real)
    requires forall x :: x in xs ==> f(x) >= 0.0
    ensures Sum(Filter(xs, p), f) <= Sum(xs, f)
    decreases |xs|
  {
    if xs != [] {
      FilterSumBound(xs[..|xs| - 1], p, f);
      var last := xs[|xs| - 1];
      if p(last) {
        SumAppend(Filter(xs[..|xs| - 1], p), last, f);
      }
    }
  }

  /** A weaker filter keeps at least as much of a non-negative sum. */
  lemma {:induction false} FilterSumMonotone<T(!new)>(xs: seq<T>, p: T -> bool, q: T -> bool, f: T -> real)
    requires forall x :: x in xs ==> f(x) >= 0.0
    requires forall x :: x in xs && p(x) ==> q(x)
    ensures Sum(Filter(xs, p), f) <= Sum(Filter(xs, q), f)
    decreases |xs|
  {
    if xs != [] {
      var init := xs[..|xs| - 1];
      var last := xs[|xs| - 1];
      assert xs == init + [last];
      FilterSumMonotone(init, p, q, f);
      FilterAppend(init, last, p);
      FilterAppend(init, last, q);
      if p(last) { SumAppend(Filter(init, p), last, f); }
      if q(last) { SumAppend(Filter(init, q), last, f); }
    }
  }

  /** A filter that keeps every element changes nothing. */
  lemma {:induction false} FilterAll<T(!new)>(xs: seq<T>, p: T -> bool)
    requires forall x :: x in xs ==> p(x)
    ensures Filter(xs, p) == xs
    decreases |xs|
  {
    if xs != [] {
      FilterAll(xs[..|xs| - 1], p);
      assert xs == xs[..|xs| - 1] + [xs[|xs| - 1]];
    }
  }

  /** A filter that keeps no element leaves nothing. */
  lemma {:induction false} FilterNone<T(!new)>(xs: seq<T>, p: T -> bool)
    requires forall x :: x in xs ==> !p(x)
    ensures Filter(xs, p) == []
    decreases |xs|
  {
    if xs != [] {
      FilterNone(xs[..|xs| - 1], p);
    }
  }

  // ---------- Grouping by a key ----------

  /** Sum of f over the elements whose key is k. */
  function GroupTotal<T(!new), K(==)>(xs: seq<T>, key: T -> K, f: T -> real, k: K): real {
    Sum(Filter(xs, (x: T) => key(x) == k), f)
  }

  /** Appending an element adds its value to its own group and to no other. */
  lemma GroupTotalAppend<T(!new), K>(xs: seq<T>, x: T, key: T -> K, f: T -> real, k: K)
    ensures GroupTotal(xs + [x], key, f, k) == GroupTotal(xs, key, f, k) + (if key(x) == k then f(x) else 0.0)
  {
    var p := (y: T) => key(y) == k;
    FilterAppend(xs, x, p);
    if key(x) == k {
      SumAppend(Filter(xs, p), x, f);
    } else {
      assert Filter(xs + [x], p) == Filter(xs, p);
    }
  }

  lemma {:induction false} GroupTotalNone<T(!new), K>(xs: seq<T>, key: T -> K, f: T -> real, k: K)
    requires forall x :: x in xs ==> key(x) != k
    ensures GroupTotal(xs, key, f, k) == 0.0
  {
    FilterNone(xs, (x: T) => key(x) == k);
  }

  lemma GroupTotalNonNegative<T(!new), K>(xs: seq<T>, key: T -> K, f: T -> real, k: K)
    requires forall x :: x in xs ==> f(x) >= 0.0
    ensures GroupTotal(xs, key, f, k) >= 0.0
  {
    SumNonNegative(Filter(xs, (x: T) => key(x) == k), f);
  }

  /** A group is part of any filter that keeps all of its members. */
  lemma GroupTotalWithin<T(!new), K>(xs: seq<T>, key: T -> K, f: T -> real, k: K, q: T -> bool)
    requires forall x :: x in xs ==> f(x) >= 0.0
    requires forall x :: x in xs && key(x) == k ==> q(x)
    ensures GroupTotal(xs, key, f, k) <= Sum(Filter(xs, q), f)
  {
    FilterSumMonotone(xs, (x: T) => key(x) == k, q, f);
  }

  lemma {:induction false} FilterSame<T(!new)>(xs: seq<T>, p: T -> bool, q: T -> bool)
    requires forall x :: p(x) == q(x)
    ensures Filter(xs, p) == Filter(xs, q)
    decreases |xs|
  {
    if xs != [] { FilterSame(xs[..|xs| - 1], p, q); }
  }

  /** A group total is the sum over any filter that keeps exactly the group's members. */
  lemma GroupTotalAsFilter<T(!new), K>(xs: seq<T>, key: T -> K, f: T -> real, k: K, p: T -> bool)
    requires forall x :: p(x) == (key(x) == k)
    ensures GroupTotal(xs, key, f, k) == Sum(Filter(xs, p), f)
  {
    FilterSame(xs, p, (x: T) => key(x) == k);
  }

  /** Number of elements whose key is k. */
  function GroupCount<T(!new), K(==)>(xs: seq<T>, key: T -> K, k: K): nat {
    |Filter(xs, (x: T) => key(x) == k)|
  }

  lemma GroupCountAppend<T(!new), K>(xs: seq<T>, x: T, key: T -> K, k: K)
    ensures GroupCount(xs + [x], key, k) == GroupCount(xs, key, k) + (if key(x) == k then 1 else 0)
  {
    FilterAppend(xs, x, (y: T) => key(y) == k);
  }

  lemma GroupCountNone<T(!new), K>(xs: seq<T>, key: T -> K, k: K)
    requires forall x :: x in xs ==> key(x) != k
    ensures GroupCount(xs, key, k) == 0
  {
    FilterNone(xs, (x: T) => key(x) == k);
  }

  function One<T>(x: T): real { 1.0 }

  lemma {:induction false} SumOne<T>(xs: seq<T>)
    ensures Sum(xs, One) == |xs| as real
    decreases |xs|
  {
    if xs != [] {
      SumOne(xs[..|xs| - 1]);
    }
  }

  /** Counting a group is summing one per element of it. */
  lemma GroupCountAsTotal<T(!new), K>(xs: seq<T>, key: T -> K, k: K)
    ensures GroupCount(xs, key, k) as real == GroupTotal(xs, key, One, k)
  {
    SumOne(Filter(xs, (x: T) => key(x) == k));
  }

  /** The group totals of the keys in ks, added up. */
  function SumGroups<T(!new), K(==)>(xs: seq<T>, key: T -> K, f: T -> real, ks: seq<K>): real
    decreases |ks|
  {
    if ks == [] then 0.0
    else SumGroups(xs, key, f, ks[..|ks| - 1]) + GroupTotal(xs, key, f, ks[|ks| - 1])
  }

  predicate Distinct<K(==)>(ks: seq<K>) {
    forall i, j :: 0 <= i < j < |ks| ==> ks[i] != ks[j]
  }

  /** Over distinct keys, one more element adds its value once if its key is listed. */
  lemma {:induction false} SumGroupsAppend<T(!new), K>(xs: seq<T>, x: T, key: T -> K, f: T -> real, ks: seq<K>)
    requires Distinct(ks)
    ensures SumGroups(xs + [x], key, f, ks) == SumGroups(xs, key, f, ks) + (if key(x) in ks then f(x) else 0.0)
    decreases |ks|
  {
    if ks != [] {
      var init := ks[..|ks| - 1];
      var last := ks[|ks| - 1];
      assert ks == init + [last];
      assert Distinct(init);
      SumGroupsAppend(xs, x, key, f, init);
      GroupTotalAppend(xs, x, key, f, last);
      assert key(x) == last ==> key(x) !in init;
    }
  }

  /**
   * Splitting by key loses nothing: when the distinct keys ks cover every
   * element, the group totals add up to the overall sum.
   */
  lemma {:induction false} SumGroupsTotal<T(!new), K>(xs: seq<T>, key: T -> K, f: T -> real, ks: seq<K>)
    requires Distinct(ks)
    requires forall x :: x in xs ==> key(x) in ks
    ensures SumGroups(xs, key, f, ks) == Sum(xs, f)
    decreases |xs|
  {
    if xs == [] {
      SumGroupsEmpty(key, f, ks);
    } else {
      var init := xs[..|xs| - 1];
      var last := xs[|xs| - 1];
      assert xs == init + [last];
      SumGroupsTotal(init, key, f, ks);
      SumGroupsAppend(init, last, key, f, ks);
    }
  }

  lemma {:induction false} SumGroupsEmpty<T(!new), K>(key: T -> K, f: T -> real, ks: seq<K>)
    ensures SumGroups([], key, f, ks) == 0.0
    decreases |ks|
  {
    if ks != [] {
      SumGroupsEmpty(key, f, ks[..|ks| - 1]);
    }
  }

  // ---------- Per-date totals ----------

  /** `total_hours_for_date`: hours of exactly the sessions on that date. */
  function TotalHoursForDate(ss: seq<Session>, date: Date): real {
    GroupTotal(ss, DateOf, HoursOf, date)
  }

  /** `total_pay_for_date`: pay of exactly the sessions on that date. */
  function TotalPayForDate(ss: seq<Session>, date: Date): real {
    GroupTotal(ss, DateOf, CalculatePay, date)
  }

  /** Appending a session adds its hours and pay to its own date and to no other. */
  lemma TotalsForDateAppend(ss: seq<Session>, s: Session, date: Date)
    ensures TotalHoursForDate(ss + [s], date)
      == TotalHoursForDate(ss, date) + (if s.date == date then s.hours else 0.0)
    ensures TotalPayForDate(ss + [s], date)
      == TotalPayForDate(ss, date) + (if s.date == date then CalculatePay(s) else 0.0)
  {
    GroupTotalAppend(ss, s, DateOf, HoursOf, date);
    GroupTotalAppend(ss, s, DateOf, CalculatePay, date);
  }

  /** Sessions on other dates do not contribute. */
  lemma TotalsForDateNone(ss: seq<Session>, date: Date)
    requires forall s :: s in ss ==> s.date != date
    ensures TotalHoursForDate(ss, date) == 0.0 && TotalPayForDate(ss, date) == 0.0
  {
    GroupTotalNone(ss, DateOf, HoursOf, date);
    GroupTotalNone(ss, DateOf, CalculatePay, date);
  }

  // ---------- Trailing four-week window ----------

  /** The local wall clock: a day number and the seconds elapsed since its midnight. */
  datatype Now = Now(today: int, seconds: int)

  predicate ValidNow(now: Now) {
    0 <= now.seconds < 86400
  }

  /** The session's date parses and its midnight is not before the instant four weeks ago. */
  predicate InLastFourWeeks(d: Date, now: Now) {
    d.Iso? && d.day * 86400 >= (now.today - 28) * 86400 + now.seconds
  }

  /** Counted in days: every day after today−28, and today−28 itself only at exactly midnight. */
  lemma InLastFourWeeksDays(d: Date, now: Now)
    requires ValidNow(now)
    ensures InLastFourWeeks(d, now)
      <==> d.Iso? && (d.day > now.today - 28 || (d.day == now.today - 28 && now.seconds == 0))
  {
    if d.Iso? && d.day <= now.today - 29 {
      assert d.day * 86400 <= (now.today - 29) * 86400;
    }
  }

  function RecentSessions(ss: seq<Session>, now: Now): seq<Session> {
    Filter(ss, (s: Session) => InLastFourWeeks(s.date, now))
  }

  /** `calculate_avg_weekly_income`: pay in the window over four weeks, however many weeks had sessions. */
  function AvgWeeklyIncome(ss: seq<Session>, now: Now): (r: real)
    ensures r * 4.0 == Sum(RecentSessions(ss, now), CalculatePay)
  {
    Sum(RecentSessions(ss, now), CalculatePay) / 4.0
  }

  /** `calculate_avg_weekly_hours`: hours in the window over four weeks. */
  function AvgWeeklyHours(ss: seq<Session>, now: Now): (r: real)
    ensures r * 4.0 == Sum(RecentSessions(ss, now), HoursOf)
  {
    Sum(RecentSessions(ss, now), HoursOf) / 4.0
  }

  /** Sessions enter the window exactly when their date parses and is recent enough. */
  lemma RecentSessionsMembers(ss: seq<Session>, now: Now, s: Session)
    ensures s in RecentSessions(ss, now) <==> s in ss && s.date.Iso? && InLastFourWeeks(s.date, now)
  {
  }

  lemma AvgWeeklyHoursNonNegative(ss: seq<Session>, now: Now)
    requires forall s :: s in ss ==> s.hours >= 0.0
    ensures AvgWeeklyHours(ss, now) >= 0.0
  {
    SumNonNegative(RecentSessions(ss, now), HoursOf);
  }

  /** With non-negative hours the average is at most a quarter of all hours ever logged. */
  lemma AvgWeeklyHoursBound(ss: seq<Session>, now: Now)
    requires forall s :: s in ss ==> s.hours >= 0.0
    ensures AvgWeeklyHours(ss, now) * 4.0 <= Sum(ss, HoursOf)
  {
    FilterSumBound(ss, (s: Session) => InLastFourWeeks(s.date, now), HoursOf);
  }

  // ---------- Goal ETA ----------

  /** The least integer not below x (`f64::ceil`). */
  function Ceil(x: real): (c: int)
    ensures c as real >= x && (c - 1) as real < x
  {
    if x.Floor as real == x then x.Floor else x.Floor + 1
  }

  lemma CeilUnique(x: real, c: int)
    requires c as real >= x && (c - 1) as real < x
    ensures c == Ceil(x)
  {
  }

  /** `calculate_goal_eta`. */
  function GoalEta(goal: Goal, avgWeeklyIncome: real): W.Option<string> {
    if avgWeeklyIncome <= 0.0 then W.None
    else
      var remaining := RemainingAmount(goal);
      if remaining <= 0.0 then W.Some("Goal Complete!")
      else
        var weeks := Ceil(remaining / avgWeeklyIncome);
        if weeks < 4 then W.Some(Text.NatToString(weeks) + " weeks")
        else if weeks < 52 then W.Some(Text.NatToString(Ceil(weeks as real / 4.33)) + " months")
        else W.Some(Text.NatToString(Ceil(weeks as real / 52.0)) + " years")
  }

  /** No income gives no estimate, even for a goal already reached. */
  lemma GoalEtaNoIncome(goal: Goal, income: real)
    requires income <= 0.0
    ensures GoalEta(goal, income).None?
  {
  }

  lemma GoalEtaComplete(goal: Goal, income: real)
    requires income > 0.0 && goal.currentAmount >= goal.targetAmount
    ensures GoalEta(goal, income) == W.Some("Goal Complete!")
  {
  }

  /**
   * With income and something left, the estimate names w weeks for the least
   * w with w·income covering the rest, and switches to months (of 4.33 weeks,
   * rounded up) from four weeks and to years (rounded up) from 52 weeks.
   */
  /** Multiplying by a positive factor keeps the order of two reals. */
  lemma ScaleOrder(a: real, b: real, c: real)
    requires c > 0.0
    ensures a * c >= b * c <==> a >= b
    ensures a * c < b * c <==> a < b
  {
    if a >= b {
      assert a * c - b * c == (a - b) * c;
    } else {
      assert b * c - a * c == (b - a) * c;
    }
  }

  /** The least whole number of periods of length c that covers r. */
  lemma CeilOfRatio(r: real, c: real, w: int)
    requires c > 0.0 && (w as real) * c >= r && ((w - 1) as real) * c < r
    ensures w == Ceil(r / c)
  {
    var q := r / c;
    assert q * c == r;
    ScaleOrder(w as real, q, c);
    ScaleOrder((w - 1) as real, q, c);
    CeilUnique(q, w);
  }

  lemma MonthsWitness(goal: Goal, income: real, w: int)
    requires income > 0.0 && goal.currentAmount < goal.targetAmount && 4 <= w < 52
    requires w == Ceil((goal.targetAmount - goal.currentAmount) / income)
    ensures exists m: nat ::
      GoalEta(goal, income) == W.Some(Text.NatToString(m) + " months")
      && (m as real) * 4.33 >= w as real && ((m - 1) as real) * 4.33 < w as real
  {
    var m := Ceil(w as real / 4.33);
    assert m >= 1;
    assert (m as real) * 4.33 >= w as real by {
      assert (m as real) >= w as real / 4.33;
    }
    assert ((m - 1) as real) * 4.33 < w as real by {
      assert ((m - 1) as real) < w as real / 4.33;
    }
    assert GoalEta(goal, income) == W.Some(Text.NatToString(m) + " months");
  }

  lemma YearsWitness(goal: Goal, income: real, w: int)
    requires income > 0.0 && goal.currentAmount < goal.targetAmount && w >= 52
    requires w == Ceil((goal.targetAmount - goal.currentAmount) / income)
    ensures exists y: nat ::
      GoalEta(goal, income) == W.Some(Text.NatToString(y) + " years")
      && y * 52 >= w && (y - 1) * 52 < w
  {
    var y := Ceil(w as real / 52.0);
    assert y >= 1;
    assert (y as real) * 52.0 >= w as real by {
      assert (y as real) >= w as real / 52.0;
    }
    assert ((y - 1) as real) * 52.0 < w as real by {
      assert ((y - 1) as real) < w as real / 52.0;
    }
    assert GoalEta(goal, income) == W.Some(Text.NatToString(y) + " years");
  }

  lemma GoalEtaUnits(goal: Goal, income: real, w: int)
    requires income > 0.0 && goal.currentAmount < goal.targetAmount
    requires (w as real) * income >= goal.targetAmount - goal.currentAmount
    requires ((w - 1) as real) * income < goal.targetAmount - goal.currentAmount
    ensures w >= 1
    ensures w < 4 ==> GoalEta(goal, income) == W.Some(Text.NatToString(w) + " weeks")
    ensures 4 <= w < 52 ==> exists m: nat ::
      GoalEta(goal, income) == W.Some(Text.NatToString(m) + " months")
      && (m as real) * 4.33 >= w as real && ((m - 1) as real) * 4.33 < w as real
    ensures w >= 52 ==> exists y: nat ::
      GoalEta(goal, income) == W.Some(Text.NatToString(y) + " years")
      && y * 52 >= w && (y - 1) * 52 < w
  {
    var remaining := goal.targetAmount - goal.currentAmount;
    CeilOfRatio(remaining, income, w);
    assert w >= 1;
    if 4 <= w < 52 {
      MonthsWitness(goal, income, w);
    } else if w >= 52 {
      YearsWitness(goal, income, w);
    }
  }
}
