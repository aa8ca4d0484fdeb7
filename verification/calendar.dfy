/**
 * Calendar dates as the application stores them: a `YYYY-MM-DD` string that
 * either denotes a day (counted from 1970-01-01) or does not parse.
 *
 * Well-formed dates compare by day number, which agrees with the order of
 * their `YYYY-MM-DD` strings for four-digit years. Strings that do not parse
 * are placed after every well-formed date and compared character by
 * character among themselves; the stored strings themselves do not sort
 * that way ("" sorts first).
 */
module Calendar {
  import Text

  datatype Date = Iso(day: int) | Malformed(text: string)

  /** Weekday counted from Sunday (0) to Saturday (6); 1970-01-01 was a Thursday. */
  function Weekday(day: int): (w: nat)
    ensures w < 7
  {
    (day + 4) % 7
  }

  lemma WeekdayPeriodic(day: int)
    ensures Weekday(day + 7) == Weekday(day)
    ensures Weekday(day + 1) == (Weekday(day) + 1) % 7
  {
  }

  /** The strict order on dates: by day, then every malformed string after every day, by text. */
  predicate DateLess(a: Date, b: Date) {
    match (a, b)
    case (Iso(x), Iso(y)) => x < y
    case (Iso(_), Malformed(_)) => true
    case (Malformed(_), Iso(_)) => false
    case (Malformed(s), Malformed(t)) => Text.LexLess(s, t)
  }

  lemma DateLessIrreflexive(a: Date)
    ensures !DateLess(a, a)
  {
    if a.Malformed? { Text.LexIrreflexive(a.text); }
  }

  lemma DateLessTransitive(a: Date, b: Date, c: Date)
    requires DateLess(a, b) && DateLess(b, c)
    ensures DateLess(a, c)
  {
    if a.Malformed? { Text.LexTransitive(a.text, b.text, c.text); }
  }

  lemma DateLessTrichotomy(a: Date, b: Date)
    ensures a == b || DateLess(a, b) || DateLess(b, a)
  {
    if a.Malformed? && b.Malformed? { Text.LexTrichotomy(a.text, b.text); }
  }

  /** `lo <= d && d <= hi` on the stored strings (SQL `date >= ? AND date <= ?`). */
  predicate InRange(d: Date, lo: Date, hi: Date) {
    !DateLess(d, lo) && !DateLess(hi, d)
  }

  lemma InRangeIsoOnly(d: Date, lo: int, hi: int)
    requires InRange(d, Iso(lo), Iso(hi))
    ensures d.Iso? && lo <= d.day <= hi
  {
  }

  // ---------- Sorting without duplicates ----------

  predicate StrictlySorted(s: seq<Date>) {
    forall i, j :: 0 <= i < j < |s| ==> DateLess(s[i], s[j])
  }

  /** Inserts x into a strictly sorted list unless it is already there. */
  function Insert(x: Date, s: seq<Date>): (r: seq<Date>)
    requires StrictlySorted(s)
    ensures StrictlySorted(r)
    ensures forall y :: y in r <==> y == x || y in s
    decreases |s|
  {
    if s == [] then [x]
    else if x == s[0] then s
    else if DateLess(x, s[0]) then
      (assert forall j :: 0 < j < |s| ==> DateLess(x, s[j]) by {
        forall j | 0 < j < |s| ensures DateLess(x, s[j]) {
          DateLessTransitive(x, s[0], s[j]);
        }
      }
      [x] + s)
    else
      var rest := Insert(x, s[1..]);
      DateLessTrichotomy(x, s[0]);
      assert forall y :: y in rest ==> DateLess(s[0], y);
      [s[0]] + rest
  }

  /** The distinct dates of s in ascending order (collect into a set, then sort). */
  function SortedDistinct(s: seq<Date>): (r: seq<Date>)
    ensures StrictlySorted(r)
    ensures forall y :: y in r <==> y in s
    decreases |s|
  {
    if s == [] then []
    else
      var r := Insert(s[|s| - 1], SortedDistinct(s[..|s| - 1]));
      assert forall y :: y in s <==> y in s[..|s| - 1] || y == s[|s| - 1] by {
        assert s == s[..|s| - 1] + [s[|s| - 1]];
      }
      r
  }

  /** A strictly sorted list holds no date twice. */
  lemma StrictlySortedDistinct(s: seq<Date>, i: int, j: int)
    requires StrictlySorted(s) && 0 <= i < |s| && 0 <= j < |s| && i != j
    ensures s[i] != s[j]
  {
    if i < j { DateLessIrreflexive(s[i]); } else { DateLessIrreflexive(s[j]); }
  }

  /** A strictly sorted list is as long as the set of dates it holds. */
  lemma {:induction false} StrictlySortedCount(s: seq<Date>)
    requires StrictlySorted(s)
    ensures |s| == |set x | x in s|
    decreases |s|
  {
    if s != [] {
      var t := s[1..];
      StrictlySortedCount(t);
      HeadNotInTail(s);
      ConsSet(s);
    }
  }

  lemma HeadNotInTail(s: seq<Date>)
    requires StrictlySorted(s) && s != []
    ensures s[0] !in s[1..]
  {
    forall j | 1 <= j < |s| ensures s[j] != s[0] {
      StrictlySortedDistinct(s, 0, j);
    }
  }

  lemma ConsSet(s: seq<Date>)
    requires s != []
    ensures (set x | x in s) == (set x | x in s[1..]) + {s[0]}
  {
    assert s == [s[0]] + s[1..];
  }

  /** Sorting without duplicates leaves one entry per distinct date. */
  lemma SortedDistinctCount(s: seq<Date>)
    ensures |SortedDistinct(s)| == |set x | x in s|
  {
    var r := SortedDistinct(s);
    StrictlySortedCount(r);
    assert (set x | x in r) == (set x | x in s);
  }

  /** In a sorted list every well-formed date comes before every malformed one. */
  predicate IsoFirst(s: seq<Date>) {
    forall i, j :: 0 <= i < j < |s| && s[i].Malformed? ==> s[j].Malformed?
  }

  lemma SortedIsoFirst(s: seq<Date>)
    requires StrictlySorted(s)
    ensures IsoFirst(s)
  {
  }

  // ---------- Civil calendar ----------

  /** A proleptic Gregorian date; only used for "today", which is always valid. */
  datatype CivilDate = Civil(year: int, month: int, dayOfMonth: int)

  predicate ValidCivil(c: CivilDate) {
    1 <= c.month <= 12 && 1 <= c.dayOfMonth <= 31
  }

  /** Days since 1970-01-01 of a civil date (Howard Hinnant's days_from_civil). */
  function DaysFromCivil(c: CivilDate): int
    requires ValidCivil(c)
  {
    var y := if c.month <= 2 then c.year - 1 else c.year;
    var era := y / 400;
    var yoe := y - era * 400;
    var mp := (c.month + 9) % 12;
    var doy := (153 * mp + 2) / 5 + c.dayOfMonth - 1;
    var doe := yoe * 365 + yoe / 4 - yoe / 100 + doy;
    era * 146097 + doe - 719468
  }

  lemma DaysFromCivilEpoch()
    ensures DaysFromCivil(Civil(1970, 1, 1)) == 0
  {
  }

  /** Within a month consecutive days of the month are consecutive day numbers. */
  lemma DaysFromCivilWithinMonth(c: CivilDate)
    requires ValidCivil(c)
    ensures DaysFromCivil(c) == DaysFromCivil(Civil(c.year, c.month, 1)) + (c.dayOfMonth - 1)
  {
  }

  /** The first of a month is never before the first of January of its year. */
  lemma MonthStartAfterYearStart(year: int, month: int)
    requires 1 <= month <= 12
    ensures DaysFromCivil(Civil(year, 1, 1)) <= DaysFromCivil(Civil(year, month, 1))
  {
    var y := year - 1;
    var era := y / 400;
    var yoe := y - era * 400;
    var daysBeforeMarch := yoe * 365 + yoe / 4 - yoe / 100;
    assert 0 <= yoe < 400;
    if month > 2 {
      var era2 := year / 400;
      var yoe2 := year - era2 * 400;
      if yoe < 399 {
        assert era2 == era && yoe2 == yoe + 1;
      } else {
        assert era2 == era + 1 && yoe2 == 0;
      }
    }
  }
}
