/**
 * Day streaks: the session streaks behind the focus score and the
 * completion streaks of habits.
 */
module Streaks {
  import opened Calendar
  import opened Models

  // ---------- Runs of consecutive days ----------

  /** Entries k and k+1 are both real dates exactly one day apart. */
  predicate Linked(ds: seq<Date>, k: int)
    requires 0 <= k < |ds| - 1
  {
    ds[k].Iso? && ds[k + 1].Iso? && ds[k + 1].day - ds[k].day == 1
  }

  /** ds[a..a+n] is a non-empty stretch of consecutive calendar days. */
  predicate IsRun(ds: seq<Date>, a: int, n: int) {
    0 <= a && 0 < n && a + n <= |ds| && forall k :: a <= k < a + n - 1 ==> Linked(ds, k)
  }

  function Max(a: int, b: int): int { if a >= b then a else b }

  /**
   * len is the length of the longest run of consecutive days in ds: some run
   * is that long and none is longer (and for a non-empty list it lies between
   * 1 and |ds|).
   */
  ghost predicate IsLongestRun(ds: seq<Date>, len: int) {
    (ds != [] ==> 1 <= len <= |ds| && exists a :: IsRun(ds, a, len))
    && forall a, n :: IsRun(ds, a, n) ==> n <= len
  }

  /**
   * The longest-streak scan over a sorted list of distinct dates: a pair
   * exactly one day apart extends the streak, any other pair of real dates
   * closes it, and a pair involving a date that does not parse is skipped.
   * An empty list yields the initial streak of 1.
   */
  method LongestRun(ds: seq<Date>) returns (longest: int)
    requires IsoFirst(ds)
    ensures ds == [] ==> longest == 1
    ensures IsLongestRun(ds, longest)
  {
    longest := 0;
    var streak := 1;
    if |ds| == 0 {
      return 1;
    }
    ghost var end := 0;
    ghost var wit := 0;
    for i := 1 to |ds|
      invariant 1 <= streak <= end + 1 && end < i
      invariant IsRun(ds, end + 1 - streak, streak)
      invariant end + 1 - streak == 0 || !Linked(ds, end - streak)
      invariant forall k :: end < k < i ==> ds[k].Malformed?
      invariant 0 <= longest <= |ds|
      invariant longest == 0 || IsRun(ds, wit, longest)
      invariant forall a, n :: IsRun(ds, a, n) && a + n <= i ==> n <= Max(longest, streak)
    {
      var start := end + 1 - streak;
      if ds[i - 1].Iso? && ds[i].Iso? {
        assert end == i - 1;
        if ds[i].day - ds[i - 1].day == 1 {
          assert Linked(ds, i - 1);
          forall a, n | IsRun(ds, a, n) && a + n == i + 1 ensures n <= streak + 1 {
            if start > 0 { RunAvoidsBreak(ds, a, n, start - 1); }
          }
          assert IsRun(ds, start, streak + 1);
          streak := streak + 1;
          end := i;
        } else {
          assert !Linked(ds, i - 1);
          forall a, n | IsRun(ds, a, n) && a + n == i + 1 ensures n == 1 {
            RunAvoidsBreak(ds, a, n, i - 1);
          }
          if streak > longest {
            wit := start;
          }
          longest := Max(longest, streak);
          streak := 1;
          end := i;
          assert IsRun(ds, i, 1);
        }
      } else {
        assert ds[i].Malformed? by {
          if ds[i].Iso? { assert ds[i - 1].Malformed?; }
        }
        forall a, n | IsRun(ds, a, n) && a + n == i + 1 ensures n == 1 {
          RunAvoidsBreak(ds, a, n, i - 1);
        }
      }
    }
    if streak > longest {
      wit := end + 1 - streak;
    }
    longest := Max(longest, streak);
    assert IsRun(ds, wit, longest);
  }

  /** A run cannot stretch across a pair that is not linked. */
  lemma RunAvoidsBreak(ds: seq<Date>, a: int, n: int, k: int)
    requires IsRun(ds, a, n) && 0 <= k < |ds| - 1 && !Linked(ds, k) && k < a + n - 1
    ensures k < a
  {
  }

  // ---------- Session streaks ----------

  /**
   * Counts back from today while the date is present. The "today or
   * yesterday" guard never moves the starting day, so only a streak that
   * includes today counts.
   */
  method CurrentStreak(dates: seq<Date>, today: int) returns (n: nat)
    ensures forall d :: today - n < d <= today ==> Iso(d) in dates
    ensures Iso(today - n) !in dates
    ensures Iso(today) !in dates ==> n == 0
  {
    n := 0;
    if Iso(today) in dates || Iso(today - 1) in dates {
      var check := today;
      ghost var seen: set<Date> := {};
      ghost var present := set d | d in dates;
      while Iso(check) in dates
        invariant check == today - n
        invariant forall d :: check < d <= today ==> Iso(d) in dates
        invariant forall x :: x in seen ==> x in present && x.Iso? && x.day > check
        decreases present - seen
      {
        seen := seen + {Iso(check)};
        n := n + 1;
        check := check - 1;
      }
    }
  }

  function SessionDates(ss: seq<Session>): (ds: seq<Date>)
    ensures |ds| == |ss| && forall i :: 0 <= i < |ss| ==> ds[i] == ss[i].date
  {
    seq(|ss|, i requires 0 <= i < |ss| => ss[i].date)
  }

  /** Some session was logged on d. */
  predicate LoggedOn(ss: seq<Session>, d: Date) {
    exists s :: s in ss && s.date == d
  }

  lemma SessionDatesMembers(ss: seq<Session>)
    ensures forall d :: d in SessionDates(ss) <==> LoggedOn(ss, d)
  {
    var all := SessionDates(ss);
    forall d ensures d in all <==> LoggedOn(ss, d) {
      if d in all {
        var i :| 0 <= i < |all| && all[i] == d;
        assert ss[i] in ss;
      }
      if LoggedOn(ss, d) {
        var s :| s in ss && s.date == d;
        var i :| 0 <= i < |ss| && ss[i] == s;
        assert all[i] == d;
      }
    }
  }

  /**
   * `calculate_streaks`: (current, longest) over every session date. No
   * sessions gives (0, 0); otherwise the current streak is the number of
   * consecutive days logged back from today and the longest streak the
   * longest run among the distinct dates, at most their number.
   */
  method CalculateStreaks(ss: seq<Session>, today: int) returns (current: nat, longest: int)
    ensures ss == [] ==> current == 0 && longest == 0
    ensures forall d :: today - current < d <= today ==> LoggedOn(ss, Iso(d))
    ensures !LoggedOn(ss, Iso(today - current))
    ensures ss != [] ==> longest <= |set s | s in ss :: s.date|
    ensures ss != [] ==> IsLongestRun(SortedDistinct(SessionDates(ss)), longest)
  {
    if ss == [] {
      return 0, 0;
    }
    var all := SessionDates(ss);
    var dates := SortedDistinct(all);
    SessionDatesMembers(ss);
    current := CurrentStreak(dates, today);
    SortedIsoFirst(dates);
    longest := LongestRun(dates);
    SortedDistinctCount(all);
    assert (set x | x in all) == (set s | s in ss :: s.date) by {
      forall x | x in all ensures x in (set s | s in ss :: s.date) {
        var s :| s in ss && s.date == x;
      }
    }
  }

  // ---------- Habit streaks ----------

  predicate StrictlyDecreasing(ds: seq<int>) {
    forall i, j :: 0 <= i < j < |ds| ==> ds[i] > ds[j]
  }

  /**
   * The habit current streak over completion days in descending order,
   * checking from day `check`: a later day is skipped, the check day or the
   * day before it extends the streak (so one missing day is tolerated) and
   * moves the check to the day before the matched one, and anything earlier
   * ends the walk.
   */
  function HabitRun(ds: seq<int>, check: int): (n: nat)
    ensures n <= |ds|
    decreases |ds|
  {
    if ds == [] then 0
    else if ds[0] == check || ds[0] == check - 1 then 1 + HabitRun(ds[1..], ds[0] - 1)
    else if ds[0] > check then HabitRun(ds[1..], check)
    else 0
  }

  /** The for-loop of `compute_habit_streaks` with its today-or-yesterday guard. */
  method HabitCurrentStreak(ds: seq<int>, today: int) returns (n: nat)
    requires StrictlyDecreasing(ds)
    ensures n == HabitRun(ds, today)
  {
    n := 0;
    if today in ds || today - 1 in ds {
      var check := today;
      var i := 0;
      while i < |ds|
        invariant 0 <= i <= |ds|
        invariant n + HabitRun(ds[i..], check) == HabitRun(ds, today)
        decreases |ds| - i
      {
        var d := ds[i];
        assert ds[i..][1..] == ds[i + 1..];
        if d == check {
          n := n + 1;
          check := check - 1;
        } else if d < check {
          if d == check - 1 {
            n := n + 1;
            check := check - 2;
          } else {
            break;
          }
        }
        i := i + 1;
      }
    } else {
      HabitRunNeedsRecentDay(ds, today);
    }
  }

  /** A non-zero habit streak needs a completion today or yesterday, so the guard changes nothing. */
  lemma {:induction false} HabitRunNeedsRecentDay(ds: seq<int>, today: int)
    requires StrictlyDecreasing(ds)
    ensures HabitRun(ds, today) > 0 ==> today in ds || today - 1 in ds
    decreases |ds|
  {
    if ds != [] && ds[0] > today && ds[0] != today - 1 {
      HabitRunNeedsRecentDay(ds[1..], today);
    }
  }

  /** Days later than the check day are skipped. */
  lemma {:induction false} HabitRunSkipsFuture(future: seq<int>, ds: seq<int>, today: int)
    requires forall i :: 0 <= i < |future| ==> future[i] > today
    ensures HabitRun(future + ds, today) == HabitRun(ds, today)
    decreases |future|
  {
    if future == [] {
      assert future + ds == ds;
    } else {
      assert (future + ds)[0] == future[0] > today;
      assert (future + ds)[1..] == future[1..] + ds;
      HabitRunSkipsFuture(future[1..], ds, today);
    }
  }

  /** One missing day is tolerated: completions today and two days ago give a streak of 2. */
  lemma HabitRunToleratesGap(today: int)
    ensures HabitRun([today, today - 2], today) == 2
  {
    assert [today, today - 2][1..] == [today - 2];
  }

  /** Two missing days in a row end the streak. */
  lemma HabitRunStopsAtDoubleGap(today: int)
    ensures HabitRun([today, today - 3], today) == 1
  {
    assert [today, today - 3][1..] == [today - 3];
  }

  /** The habit's completion days, distinct and latest first (`SELECT DISTINCT date(...) ORDER BY ... DESC`). */
  function DescendingDays(asc: seq<Date>): (ds: seq<int>)
    requires forall i :: 0 <= i < |asc| ==> asc[i].Iso?
    ensures |ds| == |asc| && forall i :: 0 <= i < |asc| ==> ds[i] == asc[|asc| - 1 - i].day
  {
    seq(|asc|, i requires 0 <= i < |asc| => asc[|asc| - 1 - i].day)
  }

  function IsoDays(days: seq<int>): (ds: seq<Date>)
    ensures |ds| == |days| && forall i :: 0 <= i < |days| ==> ds[i] == Iso(days[i])
  {
    seq(|days|, i requires 0 <= i < |days| => Iso(days[i]))
  }

  /** The completion days as dates, with the facts the streak walks need. */
  lemma HabitDates(logDays: seq<int>)
    ensures forall i :: 0 <= i < |SortedDistinct(IsoDays(logDays))| ==> SortedDistinct(IsoDays(logDays))[i].Iso?
    ensures forall x :: x in SortedDistinct(IsoDays(logDays)) <==> x.Iso? && x.day in logDays
  {
    var asc := SortedDistinct(IsoDays(logDays));
    forall x ensures x in IsoDays(logDays) <==> x.Iso? && x.day in logDays {
      if x in IsoDays(logDays) {
        var i :| 0 <= i < |logDays| && IsoDays(logDays)[i] == x;
      }
      if x.Iso? && x.day in logDays {
        var i :| 0 <= i < |logDays| && logDays[i] == x.day;
        assert IsoDays(logDays)[i] == x;
      }
    }
    forall i | 0 <= i < |asc| ensures asc[i].Iso? {
      assert asc[i] in IsoDays(logDays);
    }
  }

  /** The distinct completion days, latest first. */
  function HabitDays(logDays: seq<int>): (ds: seq<int>)
    ensures StrictlyDecreasing(ds)
    ensures forall d :: d in ds <==> d in logDays
  {
    HabitDates(logDays);
    var asc := SortedDistinct(IsoDays(logDays));
    var ds := DescendingDays(asc);
    assert forall d :: d in ds <==> d in logDays by {
      forall d ensures d in ds <==> d in logDays {
        if d in ds {
          var i :| 0 <= i < |ds| && ds[i] == d;
          assert asc[|asc| - 1 - i] in asc;
        }
        if d in logDays {
          assert Iso(d) in asc;
          var j :| 0 <= j < |asc| && asc[j] == Iso(d);
          assert ds[|asc| - 1 - j] == d;
        }
      }
    }
    ds
  }

  /**
   * `compute_habit_streaks` over the days a habit was completed: no logs
   * gives (0, 0); the current streak is the tolerant walk from today over
   * the distinct days latest first, which is zero unless the habit was done
   * today or yesterday; the best streak is the longest run of consecutive
   * completion days, at most the number of distinct days.
   */
  method ComputeHabitStreaks(logDays: seq<int>, today: int) returns (current: nat, best: int)
    ensures logDays == [] ==> current == 0 && best == 0
    ensures logDays != [] ==> current == HabitRun(HabitDays(logDays), today)
    ensures current > 0 ==> today in logDays || today - 1 in logDays
    ensures logDays != [] ==> best <= |set d | d in logDays|
    ensures logDays != [] ==> IsLongestRun(SortedDistinct(IsoDays(logDays)), best)
  {
    if logDays == [] {
      return 0, 0;
    }
    HabitDates(logDays);
    var asc := SortedDistinct(IsoDays(logDays));
    var ds := HabitDays(logDays);
    current := HabitCurrentStreak(ds, today);
    HabitRunNeedsRecentDay(ds, today);
    SortedIsoFirst(asc);
    best := LongestRun(asc);
    SortedDistinctCount(IsoDays(logDays));
    IsoImageCount(logDays);
  }

  /** Wrapping days as dates keeps them apart. */
  lemma IsoImageCount(days: seq<int>)
    ensures |set x | x in IsoDays(days)| == |set d | d in days|
  {
    var src := set d | d in days;
    var img := set x | x in IsoDays(days);
    forall x | x in img ensures x.Iso? && x.day in src {
      var i :| 0 <= i < |days| && IsoDays(days)[i] == x;
    }
    var back := set x | x in img :: x.day;
    forall d | d in src ensures d in back {
      var i :| 0 <= i < |days| && days[i] == d;
      assert IsoDays(days)[i] in img;
    }
    assert back == src;
    InjectiveImage(img);
  }

  lemma {:induction false} InjectiveImage(img: set<Date>)
    requires forall x :: x in img ==> x.Iso?
    ensures |set x | x in img :: x.day| == |img|
    decreases |img|
  {
    if img != {} {
      var x :| x in img;
      var rest := img - {x};
      InjectiveImage(rest);
      assert (set y | y in img :: y.day) == (set y | y in rest :: y.day) + {x.day};
      assert x.day !in (set y | y in rest :: y.day);
    }
  }
}
