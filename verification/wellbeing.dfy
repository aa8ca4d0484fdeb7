/**
 * The focus score and the burnout risk assessment computed from the
 * sessions of a trailing window of days.
 */
module Wellbeing {
  import opened Calendar
  import opened Models
  import opened Logic
  import Analytics
  import Streaks

  function Min(a: real, b: real): real { if a <= b then a else b }

  /** The sessions dated from `today - days` to `today` (string comparison on the stored dates). */
  function InWindow(ss: seq<Session>, today: int, days: int): seq<Session> {
    Filter(ss, (s: Session) => InRange(s.date, Iso(today - days), Iso(today)))
  }

  // ---------- Focus ----------

  /** Sessions under one hour count as fragments. */
  const ShortSessionThreshold: real := 1.0

  /**
   * 100 minus the share of short sessions in percent, or 100 without
   * sessions: 100 exactly when nothing is short, 0 exactly when everything is.
   */
  function FragmentationScore(shortCount: nat, count: nat): (f: real)
    ensures shortCount <= count ==> 0.0 <= f <= 100.0
    ensures count == 0 ==> f == 100.0
    ensures count > 0 ==> (100.0 - f) * (count as real) == (shortCount as real) * 100.0
    ensures count > 0 ==> (f == 100.0 <==> shortCount == 0)
    ensures count > 0 ==> (f == 0.0 <==> shortCount == count)
  {
    if count > 0 then
      var share := (shortCount as real) / (count as real);
      assert share * (count as real) == shortCount as real;
      100.0 - share * 100.0
    else 100.0
  }

  /**
   * Up to 40 points for a four-hour average session, 0.3 per fragmentation
   * point and up to 30 points for a seven-day streak, capped at 100.
   */
  function FocusScore(avgSessionLength: real, fragmentation: real, currentStreak: nat): (s: real)
    ensures s <= 100.0
    ensures avgSessionLength >= 0.0 && fragmentation >= 0.0 ==> s >= 0.0
  {
    Min(Min(avgSessionLength / 4.0 * 40.0, 40.0) + fragmentation * 0.3 + Min((currentStreak as real) / 7.0 * 30.0, 30.0), 100.0)
  }

  /** The score never falls when the average, the fragmentation score or the streak grows. */
  lemma FocusScoreMonotone(a: real, a': real, f: real, f': real, k: nat, k': nat)
    requires a <= a' && f <= f' && k <= k'
    ensures FocusScore(a, f, k) <= FocusScore(a', f', k')
  {
    assert (k as real) / 7.0 * 30.0 <= (k' as real) / 7.0 * 30.0;
  }

  /** Four-hour sessions, no fragments and a week-long streak give the full 100 points. */
  lemma FocusScoreFull(a: real, k: nat)
    requires a >= 4.0 && k >= 7
    ensures FocusScore(a, 100.0, k) == 100.0
  {
    assert (k as real) / 7.0 * 30.0 >= 30.0;
  }

  datatype FocusMetrics = FocusMetrics(
    focusScore: real,
    fragmentationScore: real,
    avgSessionLength: real,
    sessionCount: nat,
    totalHours: real,
    longestStreakDays: int,
    currentStreakDays: nat)

  function IsShort(s: Session): bool { s.hours < ShortSessionThreshold }

  /**
   * `get_focus_metrics` over the window of `days` days ending today: the
   * window's summary, its share of short sessions, and the streaks over all
   * sessions.
   */
  method GetFocusMetrics(all: seq<Session>, today: int, days: int) returns (m: FocusMetrics)
    ensures m.sessionCount == |InWindow(all, today, days)|
    ensures m.totalHours == Sum(InWindow(all, today, days), HoursOf)
    ensures m.avgSessionLength == Analytics.Summarize(InWindow(all, today, days)).avgSessionLength
    ensures 0.0 <= m.fragmentationScore <= 100.0
    ensures m.sessionCount == 0 ==> m.fragmentationScore == 100.0
    ensures m.fragmentationScore == FragmentationScore(|Filter(InWindow(all, today, days), IsShort)|, m.sessionCount)
    ensures m.focusScore == FocusScore(m.avgSessionLength, m.fragmentationScore, m.currentStreakDays)
    ensures forall d :: today - m.currentStreakDays < d <= today ==> Streaks.LoggedOn(all, Iso(d))
    ensures !Streaks.LoggedOn(all, Iso(today - m.currentStreakDays))
    ensures all == [] ==> m.longestStreakDays == 0
    ensures all != [] ==> Streaks.IsLongestRun(SortedDistinct(Streaks.SessionDates(all)), m.longestStreakDays)
  {
    var window := InWindow(all, today, days);
    var summary := Analytics.Summarize(window);
    var shortCount := |Filter(window, IsShort)|;
    var fragmentation := FragmentationScore(shortCount, summary.totalSessions);
    var current, longest := Streaks.CalculateStreaks(all, today);
    m := FocusMetrics(FocusScore(summary.avgSessionLength, fragmentation, current), fragmentation,
      summary.avgSessionLength, summary.totalSessions, summary.totalHours, longest, current);
  }

  // ---------- Burnout risk ----------

  datatype Severity = Ok | Warning | Danger

  datatype BurnoutFactor = BurnoutFactor(name: string, severity: Severity, threshold: string)

  datatype RiskLevel = Low | Moderate | High | Critical

  datatype BurnoutRisk = BurnoutRisk(
    riskLevel: RiskLevel,
    riskScore: real,
    factors: seq<BurnoutFactor>,
    recommendations: seq<string>)

  /** A rating and the risk points it carries. */
  datatype Rating = Rating(severity: Severity, points: real)

  function HoursRating(weeklyHours: real): Rating {
    if weeklyHours > 60.0 then Rating(Danger, 35.0)
    else if weeklyHours > 50.0 then Rating(Warning, 20.0)
    else Rating(Ok, 0.0)
  }

  function LongestSessionRating(maxSession: real): Rating {
    if maxSession > 10.0 then Rating(Danger, 25.0)
    else if maxSession > 8.0 then Rating(Warning, 15.0)
    else Rating(Ok, 0.0)
  }

  function RestRating(restDays: int): Rating {
    if restDays < 2 then Rating(Danger, 30.0)
    else if restDays < 4 then Rating(Warning, 15.0)
    else Rating(Ok, 0.0)
  }

  /** The spread is a standard deviation over 4 hours; compared squared, as a variance over 16. */
  function ConsistencyRating(variance: real): Rating {
    if variance > 16.0 then Rating(Warning, 10.0) else Rating(Ok, 0.0)
  }

  /** Each rating's points are 0 exactly when it is ok, and bounded by 35, 25, 30 and 10. */
  lemma RatingPoints(h: real, m: real, r: int, v: real)
    ensures 0.0 <= HoursRating(h).points <= 35.0 && (HoursRating(h).points == 0.0 <==> HoursRating(h).severity == Ok)
    ensures 0.0 <= LongestSessionRating(m).points <= 25.0
      && (LongestSessionRating(m).points == 0.0 <==> LongestSessionRating(m).severity == Ok)
    ensures 0.0 <= RestRating(r).points <= 30.0 && (RestRating(r).points == 0.0 <==> RestRating(r).severity == Ok)
    ensures 0.0 <= ConsistencyRating(v).points <= 10.0
      && (ConsistencyRating(v).points == 0.0 <==> ConsistencyRating(v).severity == Ok)
    ensures HoursRating(h).severity == Ok <==> h <= 50.0
    ensures LongestSessionRating(m).severity == Ok <==> m <= 8.0
    ensures RestRating(r).severity == Ok <==> r >= 4
    ensures ConsistencyRating(v).severity == Ok <==> v <= 16.0
  {
  }

  function RiskLevelOf(score: real): (l: RiskLevel)
    ensures l == Critical <==> score >= 70.0
    ensures l == High <==> 45.0 <= score < 70.0
    ensures l == Moderate <==> 20.0 <= score < 45.0
    ensures l == Low <==> score < 20.0
  {
    if score >= 70.0 then Critical
    else if score >= 45.0 then High
    else if score >= 20.0 then Moderate
    else Low
  }

  /** A higher score never gives a lower level. */
  lemma RiskLevelMonotone(a: real, b: real)
    requires a <= b
    ensures RiskLevelOf(a) == Critical ==> RiskLevelOf(b) == Critical
    ensures RiskLevelOf(b) == Low ==> RiskLevelOf(a) == Low
    ensures RiskLevelOf(a) == High ==> RiskLevelOf(b) == High || RiskLevelOf(b) == Critical
  {
  }

  // Mean and spread of the per-day hours.

  function SumSquaredDeviation(xs: seq<real>, mean: real): (r: real)
    ensures r >= 0.0
    decreases |xs|
  {
    if xs == [] then 0.0
    else SumSquaredDeviation(xs[..|xs| - 1], mean) + Square(xs[|xs| - 1] - mean)
  }

  function Square(d: real): (r: real)
    ensures r >= 0.0
  {
    if d >= 0.0 then d * d else (-d) * (-d)
  }

  /** The population variance (0 for no days). */
  function Variance(xs: seq<real>): (v: real)
    ensures v >= 0.0
  {
    if xs == [] then 0.0
    else
      var mean := Analytics.SumReals(xs) / (|xs| as real);
      SumSquaredDeviation(xs, mean) / (|xs| as real)
  }

  lemma {:induction false} SumOfConstant(xs: seq<real>, c: real)
    requires forall i :: 0 <= i < |xs| ==> xs[i] == c
    ensures Analytics.SumReals(xs) == (|xs| as real) * c
    ensures SumSquaredDeviation(xs, c) == 0.0
    decreases |xs|
  {
    if xs != [] {
      SumOfConstant(xs[..|xs| - 1], c);
    }
  }

  /** The same hours every day mean no spread at all. */
  lemma VarianceOfConstant(xs: seq<real>, c: real)
    requires forall i :: 0 <= i < |xs| ==> xs[i] == c
    ensures Variance(xs) == 0.0
  {
    SumOfConstant(xs, c);
    if xs != [] {
      assert Analytics.SumReals(xs) / (|xs| as real) == c;
    }
  }

  /** Hours per distinct day of the window (the per-date fold). */
  function HoursPerDay(ss: seq<Session>): (hs: seq<real>)
    ensures |hs| == |SortedDistinct(Streaks.SessionDates(ss))|
  {
    var ds := SortedDistinct(Streaks.SessionDates(ss));
    seq(|ds|, k requires 0 <= k < |ds| => TotalHoursForDate(ss, ds[k]))
  }

  /** Rest days out of a fixed fortnight: fourteen minus the days with a session. */
  function RestDays(recent: seq<Session>): int {
    14 - |SortedDistinct(Streaks.SessionDates(recent))|
  }

  /** The four factor ratings, in the order they are reported. */
  function FactorRatings(recent: seq<Session>): (rs: seq<Rating>)
    ensures |rs| == 4
  {
    [HoursRating(Sum(recent, HoursOf) / 2.0),
     LongestSessionRating(Analytics.LongestSession(recent)),
     RestRating(RestDays(recent)),
     ConsistencyRating(Variance(HoursPerDay(recent)))]
  }

  function TotalPoints(rs: seq<Rating>): real
    requires |rs| == 4
  {
    rs[0].points + rs[1].points + rs[2].points + rs[3].points
  }

  /** The risk score lies between 0 and 100, and is 0 exactly when every factor is ok. */
  lemma TotalPointsBounds(recent: seq<Session>)
    ensures 0.0 <= TotalPoints(FactorRatings(recent)) <= 100.0
    ensures TotalPoints(FactorRatings(recent)) == 0.0 <==> forall k :: 0 <= k < 4 ==> FactorRatings(recent)[k].severity == Ok
  {
    var rs := FactorRatings(recent);
    RatingPoints(Sum(recent, HoursOf) / 2.0, Analytics.LongestSession(recent), RestDays(recent), Variance(HoursPerDay(recent)));
  }

  const WeeklyHoursName: string := "Weekly Hours"
  const LongestSessionName: string := "Longest Session"
  const RestDaysName: string := "Rest Days (2 weeks)"
  const ConsistencyName: string := "Schedule Consistency"
  const FactorNames: seq<string> := [WeeklyHoursName, LongestSessionName, RestDaysName, ConsistencyName]

  const ReduceHoursAdvice: string := "Reduce weekly hours to under 50 for sustainability."
  const BreakSessionsAdvice: string := "Break long sessions into smaller blocks with breaks."
  const RestAdvice: string := "Schedule at least 2 full rest days per week."
  const ConsistencyAdvice: string := "Establish a more consistent daily schedule."
  const FactorAdvice: seq<string> := [ReduceHoursAdvice, BreakSessionsAdvice, RestAdvice, ConsistencyAdvice]
  const BalancedMessage: string := "Great work-life balance! Keep it up."

  /** The advice for each factor that is not ok, in factor order. */
  function AdviceFor(fs: seq<BurnoutFactor>, advice: seq<string>): (r: seq<string>)
    requires |fs| == |advice|
    decreases |fs|
  {
    if fs == [] then []
    else
      var init := AdviceFor(fs[..|fs| - 1], advice[..|fs| - 1]);
      if fs[|fs| - 1].severity != Ok then init + [advice[|fs| - 1]] else init
  }

  /** The advice lists nothing exactly when every factor is ok, and it lists each non-ok factor's advice. */
  lemma {:induction false} AdviceForMembers(fs: seq<BurnoutFactor>, advice: seq<string>)
    requires |fs| == |advice|
    ensures AdviceFor(fs, advice) == [] <==> forall k :: 0 <= k < |fs| ==> fs[k].severity == Ok
    ensures forall k :: 0 <= k < |fs| && fs[k].severity != Ok ==> advice[k] in AdviceFor(fs, advice)
    decreases |fs|
  {
    if fs != [] {
      var n := |fs| - 1;
      AdviceForMembers(fs[..n], advice[..n]);
      assert forall k :: 0 <= k < n ==> fs[..n][k] == fs[k] && advice[..n][k] == advice[k];
    }
  }

  /** With four factors the advice is each factor's own line, in order, when that factor is not ok. */
  lemma AdviceForFour(fs: seq<BurnoutFactor>, advice: seq<string>)
    requires |fs| == 4 && |advice| == 4
    ensures AdviceFor(fs, advice) ==
      (if fs[0].severity != Ok then [advice[0]] else []) + (if fs[1].severity != Ok then [advice[1]] else [])
      + (if fs[2].severity != Ok then [advice[2]] else []) + (if fs[3].severity != Ok then [advice[3]] else [])
  {
    var a1 := AdviceFor(fs[..1], advice[..1]);
    assert fs[..1][..0] == [] && advice[..1][..0] == [];
    assert AdviceFor(fs[..1][..0], advice[..1][..0]) == [];
    assert a1 == (if fs[0].severity != Ok then [advice[0]] else []);
    var a2 := AdviceFor(fs[..2], advice[..2]);
    assert fs[..2][..1] == fs[..1] && advice[..2][..1] == advice[..1];
    assert a2 == a1 + (if fs[1].severity != Ok then [advice[1]] else []);
    var a3 := AdviceFor(fs[..3], advice[..3]);
    assert fs[..3][..2] == fs[..2] && advice[..3][..2] == advice[..2];
    assert a3 == a2 + (if fs[2].severity != Ok then [advice[2]] else []);
    assert fs[..3] == fs[..|fs| - 1] && advice[..3] == advice[..|advice| - 1];
  }

  function Names(fs: seq<BurnoutFactor>): seq<string> {
    seq(|fs|, k requires 0 <= k < |fs| => fs[k].name)
  }

  function Severities(fs: seq<BurnoutFactor>): seq<Severity> {
    seq(|fs|, k requires 0 <= k < |fs| => fs[k].severity)
  }

  function Severities'(rs: seq<Rating>): seq<Severity> {
    seq(|rs|, k requires 0 <= k < |rs| => rs[k].severity)
  }

  function Recommendations(fs: seq<BurnoutFactor>): seq<string>
    requires |fs| == 4
  {
    var advice := AdviceFor(fs, FactorAdvice);
    if advice == [] then [BalancedMessage] else advice
  }

  /**
   * The body of `get_burnout_risk` once the four ratings are known: the
   * factors in their fixed order, the score as the sum of the points, the
   * level from the score, and the advice for every factor that is not ok
   * (or the single positive message).
   */
  method Assess(rs: seq<Rating>) returns (r: BurnoutRisk)
    requires |rs| == 4
    ensures |r.factors| == 4 && Names(r.factors) == FactorNames
    ensures Severities(r.factors) == Severities'(rs)
    ensures r.riskScore == TotalPoints(rs)
    ensures r.riskLevel == RiskLevelOf(r.riskScore)
    ensures r.recommendations == Recommendations(r.factors)
  {
    var factors: seq<BurnoutFactor> := [];
    var riskScore: real := 0.0;

    var hours := rs[0];
    factors := factors + [BurnoutFactor(WeeklyHoursName, hours.severity, "Under 50h")];
    riskScore := riskScore + hours.points;

    var longest := rs[1];
    factors := factors + [BurnoutFactor(LongestSessionName, longest.severity, "Under 8h")];
    riskScore := riskScore + longest.points;

    var rest := rs[2];
    factors := factors + [BurnoutFactor(RestDaysName, rest.severity, "At least 4 days")];
    riskScore := riskScore + rest.points;

    var consistency := rs[3];
    factors := factors + [BurnoutFactor(ConsistencyName, consistency.severity, "Under ±4h")];
    riskScore := riskScore + consistency.points;

    FourFactors(rs, factors);

    var recommendations: seq<string> := [];
    if hours.severity != Ok { recommendations := recommendations + [ReduceHoursAdvice]; }
    if longest.severity != Ok { recommendations := recommendations + [BreakSessionsAdvice]; }
    if rest.severity != Ok { recommendations := recommendations + [RestAdvice]; }
    if consistency.severity != Ok { recommendations := recommendations + [ConsistencyAdvice]; }
    AdviceForFour(factors, FactorAdvice);
    assert recommendations == AdviceFor(factors, FactorAdvice);
    if recommendations == [] {
      recommendations := recommendations + [BalancedMessage];
    }
    r := BurnoutRisk(RiskLevelOf(riskScore), riskScore, factors, recommendations);
  }

  /** The four factors in their fixed order carry the four ratings' severities. */
  lemma FourFactors(rs: seq<Rating>, factors: seq<BurnoutFactor>)
    requires |rs| == 4
    requires factors == [BurnoutFactor(WeeklyHoursName, rs[0].severity, "Under 50h"),
      BurnoutFactor(LongestSessionName, rs[1].severity, "Under 8h"),
      BurnoutFactor(RestDaysName, rs[2].severity, "At least 4 days"),
      BurnoutFactor(ConsistencyName, rs[3].severity, "Under ±4h")]
    ensures |factors| == 4 && Names(factors) == FactorNames
    ensures Severities(factors) == Severities'(rs)
  {
  }

  /**
   * `get_burnout_risk` over the sessions from `today - days` to today.
   * Weekly hours always divide the window's hours by two and rest days
   * always count from fourteen, whatever `days` is.
   */
  method GetBurnoutRisk(all: seq<Session>, today: int, days: int) returns (r: BurnoutRisk)
    ensures |r.factors| == 4 && Names(r.factors) == FactorNames
    ensures Severities(r.factors) == Severities'(FactorRatings(InWindow(all, today, days)))
    ensures r.riskScore == TotalPoints(FactorRatings(InWindow(all, today, days)))
    ensures 0.0 <= r.riskScore <= 100.0
    ensures r.riskLevel == RiskLevelOf(r.riskScore)
    ensures r.recommendations == Recommendations(r.factors)
  {
    var recent := InWindow(all, today, days);
    TotalPointsBounds(recent);
    r := Assess(FactorRatings(recent));
  }

  /** Exactly one recommendation per factor that is not ok, or the one positive message when all are ok. */
  lemma BurnoutRecommendations(fs: seq<BurnoutFactor>)
    requires |fs| == 4
    ensures (forall k :: 0 <= k < 4 ==> fs[k].severity == Ok) ==> Recommendations(fs) == [BalancedMessage]
    ensures (exists k :: 0 <= k < 4 && fs[k].severity != Ok) ==>
      |Recommendations(fs)| == |set k | 0 <= k < 4 && fs[k].severity != Ok|
      && forall k :: 0 <= k < 4 && fs[k].severity != Ok ==> FactorAdvice[k] in Recommendations(fs)
  {
    AdviceForMembers(fs, FactorAdvice);
    AdviceCount(fs, FactorAdvice);
  }

  lemma {:induction false} AdviceCount(fs: seq<BurnoutFactor>, advice: seq<string>)
    requires |fs| == |advice|
    ensures |AdviceFor(fs, advice)| == |set k | 0 <= k < |fs| && fs[k].severity != Ok|
    decreases |fs|
  {
    if fs != [] {
      var n := |fs| - 1;
      AdviceCount(fs[..n], advice[..n]);
      var before := set k | 0 <= k < n && fs[..n][k].severity != Ok;
      var now := set k | 0 <= k < |fs| && fs[k].severity != Ok;
      if fs[n].severity != Ok {
        assert now == before + {n};
      } else {
        assert now == before;
      }
    }
  }
}
