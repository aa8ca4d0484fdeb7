/**
 * The financial side of the advisor: the what-if simulator, the current
 * baseline, and the income trend with its insights.
 */
module Finance {
  import W = Wrappers
  import opened Calendar
  import opened Models
  import opened Logic

  // ---------- Simulator ----------

  datatype GoalProjection = GoalProjection(
    goalId: int,
    goalName: string,
    remaining: real,
    weeksToComplete: W.Option<real>,
    completionDay: W.Option<int>)

  /** The advice lines of the simulator (display text left out). */
  datatype SimulationInsight =
    | Deficit(shortfall: real)
    | LowSavingsRate
    | GreatSavingsRate
    | BurnoutHours
    | IncreaseHours
    | RaiseRate

  datatype SimulationResult = SimulationResult(
    weeklyIncome: real,
    weeklySavings: real,
    monthlyIncome: real,
    monthlySavings: real,
    yearlyIncome: real,
    yearlySavings: real,
    goalProjections: seq<GoalProjection>,
    sustainabilityScore: real,
    insights: seq<SimulationInsight>)

  function MinReal(a: real, b: real): real { if a <= b then a else b }

  /**
   * Weeks to finish a goal at a weekly saving, only when something is saved;
   * the completion day is today plus the whole number of days in those weeks.
   */
  function Project(g: Goal, weeklySavings: real, today: int): (p: GoalProjection)
    ensures p.goalId == g.id && p.goalName == g.name && p.remaining == RemainingAmount(g)
    ensures p.weeksToComplete.Some? <==> weeklySavings > 0.0
    ensures p.completionDay.None? <==> p.weeksToComplete.None?
    ensures p.weeksToComplete.Some? ==> p.weeksToComplete.value * weeklySavings == p.remaining && p.weeksToComplete.value >= 0.0
    ensures p.weeksToComplete.Some? ==> p.completionDay.value == today + (p.weeksToComplete.value * 7.0).Floor
    ensures p.weeksToComplete.Some? ==> today <= p.completionDay.value
  {
    var remaining := RemainingAmount(g);
    var weeks := if weeklySavings > 0.0 then W.Some(remaining / weeklySavings) else W.None;
    var day := match weeks case Some(w) => W.Some(today + (w * 7.0).Floor) case None => W.None;
    GoalProjection(g.id, g.name, remaining, weeks, day)
  }

  /**
   * 0 without income; with nothing saved the income as a share of expenses,
   * up to 50; otherwise 50 plus half the savings rate in percent, up to 100.
   */
  function SustainabilityScore(weeklyIncome: real, weeklyExpenses: real): real {
    var weeklySavings := weeklyIncome - weeklyExpenses;
    if weeklyIncome == 0.0 then 0.0
    else if weeklySavings <= 0.0 then
      (if weeklyExpenses == 0.0 then 0.0 else MinReal(weeklyIncome / weeklyExpenses * 50.0, 50.0))
    else MinReal(50.0 + weeklySavings / weeklyIncome * 50.0, 100.0)
  }

  lemma QuotientAtMostOne(a: real, b: real)
    requires 0.0 < b && a <= b
    ensures a / b <= 1.0
  {
  }

  /** With non-negative income and expenses the score lies in [0, 100], above 50 exactly when something is saved. */
  lemma SustainabilityBounds(weeklyIncome: real, weeklyExpenses: real)
    requires weeklyIncome >= 0.0 && weeklyExpenses >= 0.0
    ensures 0.0 <= SustainabilityScore(weeklyIncome, weeklyExpenses) <= 100.0
    ensures weeklyIncome > 0.0 ==> (SustainabilityScore(weeklyIncome, weeklyExpenses) > 50.0 <==> weeklyIncome > weeklyExpenses)
    ensures weeklyIncome > 0.0 && weeklyExpenses >= weeklyIncome ==>
      SustainabilityScore(weeklyIncome, weeklyExpenses) * weeklyExpenses == weeklyIncome * 50.0
  {
    var savings := weeklyIncome - weeklyExpenses;
    if weeklyIncome > 0.0 && savings <= 0.0 {
      var share := weeklyIncome / weeklyExpenses;
      assert share * weeklyExpenses == weeklyIncome;
      QuotientAtMostOne(weeklyIncome, weeklyExpenses);
    }
    if weeklyIncome > 0.0 && savings > 0.0 {
      var rate := savings / weeklyIncome;
      assert rate * weeklyIncome == savings;
      QuotientAtMostOne(savings, weeklyIncome);
    }
  }

  /** The savings rule (first match only), then the hours rule, then the rate rule. */
  function Insights(hoursPerWeek: real, hourlyRate: real, weeklyIncome: real, weeklySavings: real): seq<SimulationInsight> {
    var savings :=
      if weeklySavings < 0.0 then [Deficit(-weeklySavings)]
      else if weeklySavings < weeklyIncome * 0.1 then [LowSavingsRate]
      else if weeklySavings > weeklyIncome * 0.3 then [GreatSavingsRate]
      else [];
    var hours :=
      if hoursPerWeek > 50.0 then [BurnoutHours]
      else if hoursPerWeek < 20.0 && weeklySavings < 0.0 then [IncreaseHours]
      else [];
    var rate := if hourlyRate < 25.0 && hoursPerWeek > 40.0 then [RaiseRate] else [];
    savings + hours + rate
  }

  /** At most one insight per rule group, and they come in group order. */
  lemma InsightsShape(h: real, r: real, income: real, savings: real)
    ensures |Insights(h, r, income, savings)| <= 3
    ensures savings < 0.0 ==> Insights(h, r, income, savings)[0] == Deficit(-savings)
    ensures (BurnoutHours in Insights(h, r, income, savings)) <==> h > 50.0
    ensures (IncreaseHours in Insights(h, r, income, savings)) <==> h <= 50.0 && h < 20.0 && savings < 0.0
    ensures (RaiseRate in Insights(h, r, income, savings)) <==> r < 25.0 && h > 40.0
    ensures !(LowSavingsRate in Insights(h, r, income, savings) && GreatSavingsRate in Insights(h, r, income, savings))
  {
  }

  /** `simulate_financial_scenario` for the stored goals and the given day. */
  function Simulate(goals: seq<Goal>, hoursPerWeek: real, hourlyRate: real, weeklyExpenses: real, today: int): (r: SimulationResult)
    ensures r.weeklyIncome == hoursPerWeek * hourlyRate
    ensures r.weeklySavings == r.weeklyIncome - weeklyExpenses
    ensures r.monthlyIncome == r.weeklyIncome * 4.33 && r.monthlySavings == r.weeklySavings * 4.33
    ensures r.yearlyIncome == r.weeklyIncome * 52.0 && r.yearlySavings == r.weeklySavings * 52.0
    ensures |r.goalProjections| == |goals|
    ensures forall i :: 0 <= i < |goals| ==> r.goalProjections[i] == Project(goals[i], r.weeklySavings, today)
    ensures r.sustainabilityScore == SustainabilityScore(r.weeklyIncome, weeklyExpenses)
    ensures r.insights == Insights(hoursPerWeek, hourlyRate, r.weeklyIncome, r.weeklySavings)
  {
    var income := hoursPerWeek * hourlyRate;
    var savings := income - weeklyExpenses;
    SimulationResult(income, savings, income * 4.33, savings * 4.33, income * 52.0, savings * 52.0,
      seq(|goals|, i requires 0 <= i < |goals| => Project(goals[i], savings, today)),
      SustainabilityScore(income, weeklyExpenses),
      Insights(hoursPerWeek, hourlyRate, income, savings))
  }

  /** 40 hours at 20 with 500 of expenses: only the great-savings insight, and a score of 68.75. */
  lemma SimulationExample(goals: seq<Goal>, today: int)
    ensures Simulate(goals, 40.0, 20.0, 500.0, today).insights == [GreatSavingsRate]
    ensures Simulate(goals, 40.0, 20.0, 500.0, today).sustainabilityScore == 68.75
    ensures Simulate(goals, 40.0, 20.0, 500.0, today).weeklySavings == 300.0
  {
    var r := Simulate(goals, 40.0, 20.0, 500.0, today);
    assert r.weeklyIncome == 800.0;
    assert 300.0 / 800.0 == 0.375;
  }

  // ---------- Baseline ----------

  /** `get_current_financial_baseline`: average weekly hours and the implied rate, 30 when no hours. */
  function Baseline(ss: seq<Session>, now: Now): (r: (real, real))
    ensures r.0 == AvgWeeklyHours(ss, now)
    ensures r.0 > 0.0 ==> r.1 * r.0 == AvgWeeklyIncome(ss, now)
    ensures r.0 <= 0.0 ==> r.1 == 30.0
  {
    var hours := AvgWeeklyHours(ss, now);
    var income := AvgWeeklyIncome(ss, now);
    (hours, if hours > 0.0 then income / hours else 30.0)
  }

  /** The implied rate is the windowed pay over the windowed hours: the four weeks cancel. */
  lemma BaselineRate(ss: seq<Session>, now: Now)
    requires Sum(RecentSessions(ss, now), HoursOf) > 0.0
    ensures Baseline(ss, now).1 * Sum(RecentSessions(ss, now), HoursOf) == Sum(RecentSessions(ss, now), CalculatePay)
  {
    var b := Baseline(ss, now);
    var h := Sum(RecentSessions(ss, now), HoursOf);
    var p := Sum(RecentSessions(ss, now), CalculatePay);
    assert b.0 * 4.0 == h;
    assert b.1 * b.0 == p / 4.0;
    calc {
      b.1 * h;
      b.1 * (b.0 * 4.0);
      (b.1 * b.0) * 4.0;
      p;
    }
  }

  // ---------- Income trend ----------

  datatype Trend = Increasing | Decreasing | Stable

  /** Sessions dated after the day four weeks ago. */
  predicate InRecentWindow(d: Date, today: int) {
    d.Iso? && d.day > today - 28
  }

  /** Sessions dated after eight weeks ago and no later than four weeks ago. */
  predicate InOlderWindow(d: Date, today: int) {
    d.Iso? && today - 56 < d.day <= today - 28
  }

  /** The two windows never share a session, and together they are the last eight weeks. */
  lemma WindowsDisjoint(d: Date, today: int)
    ensures !(InRecentWindow(d, today) && InOlderWindow(d, today))
    ensures InRecentWindow(d, today) || InOlderWindow(d, today) <==> d.Iso? && d.day > today - 56
  {
  }

  function RecentIncome(ss: seq<Session>, today: int): real {
    Sum(Filter(ss, (s: Session) => InRecentWindow(s.date, today)), CalculatePay)
  }

  function OlderIncome(ss: seq<Session>, today: int): real {
    Sum(Filter(ss, (s: Session) => InOlderWindow(s.date, today)), CalculatePay)
  }

  /** More than 10 % up is increasing, more than 10 % down is decreasing, anything else stable. */
  function TrendOf(recent: real, older: real): (t: Trend)
    ensures t == Increasing <==> recent > older * 1.1
    ensures t == Decreasing <==> !(recent > older * 1.1) && recent < older * 0.9
    ensures t == Stable <==> older * 0.9 <= recent <= older * 1.1
  {
    if recent > older * 1.1 then Increasing
    else if recent < older * 0.9 then Decreasing
    else Stable
  }

  /** With no past income any positive recent income is an increase, and none at all is stable. */
  lemma TrendFromNothing(recent: real)
    ensures recent > 0.0 ==> TrendOf(recent, 0.0) == Increasing
    ensures TrendOf(0.0, 0.0) == Stable
  {
  }

  // ---------- Financial analysis ----------

  datatype InsightSeverity = Success | Caution | Info

  datatype FinancialInsight =
    | IncomeInsight(severity: InsightSeverity, trend: Trend, recent: real, older: real)
    | GoalAlmostComplete(goalName: string, progress: real, remaining: real)
    | HighWeeklyHours(avgWeeklyHours: real)

  datatype Recommendation =
    | ClearGoals(weeks: real, totalRemaining: real)
    | ReviewPipeline

  datatype FinancialAnalysis = FinancialAnalysis(
    avgWeeklyHours: real,
    avgWeeklyIncome: real,
    projectedMonthlyIncome: real,
    projectedYearlyIncome: real,
    incomeTrend: Trend,
    insights: seq<FinancialInsight>,
    recommendations: seq<Recommendation>)

  function TrendSeverity(t: Trend): InsightSeverity {
    match t
    case Increasing => Success
    case Decreasing => Caution
    case Stable => Info
  }

  /** The goal is between 90 % and 100 % and x is its insight. */
  predicate AlmostDone(g: Goal, x: FinancialInsight) {
    90.0 <= ProgressPercent(g) < 100.0 && x == GoalAlmostComplete(g.name, ProgressPercent(g), RemainingAmount(g))
  }

  /** One insight per goal between 90 % and 100 %, in goal order. */
  function AlmostComplete(goals: seq<Goal>): (r: seq<FinancialInsight>)
    ensures forall x :: x in r <==> (exists g :: g in goals && AlmostDone(g, x))
    decreases |goals|
  {
    if goals == [] then []
    else
      var init := goals[..|goals| - 1];
      var g := goals[|goals| - 1];
      assert forall h :: h in goals <==> h in init || h == g by {
        assert goals == init + [g];
      }
      var r := AlmostComplete(init)
        + (if 90.0 <= ProgressPercent(g) < 100.0 then [GoalAlmostComplete(g.name, ProgressPercent(g), RemainingAmount(g))] else []);
      assert forall x :: x in r <==> (exists h :: h in goals && AlmostDone(h, x)) by {
        forall x ensures x in r <==> (exists h :: h in goals && AlmostDone(h, x)) {
          if exists h :: h in goals && AlmostDone(h, x) {
            var h :| h in goals && AlmostDone(h, x);
            if h != g { assert h in init; }
          }
          if x in AlmostComplete(init) {
            var h :| h in init && AlmostDone(h, x);
            assert h in goals;
          } else if x in r {
            assert AlmostDone(g, x) && g in goals;
          }
        }
      }
      r
  }

  function TotalRemaining(goals: seq<Goal>): (r: real)
    ensures r >= 0.0
    decreases |goals|
  {
    if goals == [] then 0.0 else TotalRemaining(goals[..|goals| - 1]) + RemainingAmount(goals[|goals| - 1])
  }

  /** `get_financial_analysis`. */
  function Analyze(ss: seq<Session>, goals: seq<Goal>, now: Now): (a: FinancialAnalysis)
    ensures a.avgWeeklyHours == AvgWeeklyHours(ss, now) && a.avgWeeklyIncome == AvgWeeklyIncome(ss, now)
    ensures a.projectedMonthlyIncome == a.avgWeeklyIncome * 4.33 && a.projectedYearlyIncome == a.avgWeeklyIncome * 52.0
    ensures a.incomeTrend == TrendOf(RecentIncome(ss, now.today), OlderIncome(ss, now.today))
  {
    var hours := AvgWeeklyHours(ss, now);
    var income := AvgWeeklyIncome(ss, now);
    var recent := RecentIncome(ss, now.today);
    var older := OlderIncome(ss, now.today);
    var trend := TrendOf(recent, older);
    var incomeInsight := if income > 0.0 then [IncomeInsight(TrendSeverity(trend), trend, recent, older)] else [];
    var hoursInsight := if hours > 50.0 then [HighWeeklyHours(hours)] else [];
    var total := TotalRemaining(goals);
    var clear := if income > 0.0 && goals != [] then [ClearGoals(total / income, total)] else [];
    var review := if trend == Decreasing then [ReviewPipeline] else [];
    FinancialAnalysis(hours, income, income * 4.33, income * 52.0, trend,
      incomeInsight + AlmostComplete(goals) + hoursInsight, clear + review)
  }

  /**
   * The insights: the income trend exactly when there is income, the hours
   * warning exactly above 50 hours a week.
   */
  lemma AnalysisInsights(ss: seq<Session>, goals: seq<Goal>, now: Now)
    ensures var a := Analyze(ss, goals, now);
      (exists x :: x in a.insights && x.IncomeInsight?) <==> a.avgWeeklyIncome > 0.0
    ensures var a := Analyze(ss, goals, now);
      HighWeeklyHours(a.avgWeeklyHours) in a.insights <==> a.avgWeeklyHours > 50.0
  {
    var a := Analyze(ss, goals, now);
    var done := AlmostComplete(goals);
    assert forall x :: x in done ==> x.GoalAlmostComplete?;
    var income := AvgWeeklyIncome(ss, now);
    if income > 0.0 {
      var x := a.insights[0];
      assert x in a.insights && x.IncomeInsight?;
    }
  }

  /** The recommendations: weeks to clear the goals with income and goals, a review when income falls. */
  lemma AnalysisRecommendations(ss: seq<Session>, goals: seq<Goal>, now: Now)
    ensures var a := Analyze(ss, goals, now);
      (exists x :: x in a.recommendations && x.ClearGoals?) <==> a.avgWeeklyIncome > 0.0 && goals != []
    ensures var a := Analyze(ss, goals, now);
      ReviewPipeline in a.recommendations <==> a.incomeTrend == Decreasing
  {
    var a := Analyze(ss, goals, now);
    var income := AvgWeeklyIncome(ss, now);
    var total := TotalRemaining(goals);
    var trend := a.incomeTrend;
    var clear := if income > 0.0 && goals != [] then [ClearGoals(total / income, total)] else [];
    var review := if trend == Decreasing then [ReviewPipeline] else [];
    assert a.recommendations == clear + review;
    if income > 0.0 && goals != [] {
      assert clear[0] in a.recommendations;
    }
  }

  /** The estimate to clear the goals is the weeks the average income needs to cover what remains of all of them. */
  lemma ClearGoalsEstimate(ss: seq<Session>, goals: seq<Goal>, now: Now)
    ensures var a := Analyze(ss, goals, now);
      forall x :: x in a.recommendations && x.ClearGoals? ==>
        x.weeks * a.avgWeeklyIncome == x.totalRemaining && x.totalRemaining == TotalRemaining(goals)
  {
    var a := Analyze(ss, goals, now);
    var income := AvgWeeklyIncome(ss, now);
    var total := TotalRemaining(goals);
    var clear := if income > 0.0 && goals != [] then [ClearGoals(total / income, total)] else [];
    var review := if a.incomeTrend == Decreasing then [ReviewPipeline] else [];
    assert a.recommendations == clear + review;
    forall x | x in a.recommendations && x.ClearGoals?
      ensures x.weeks * a.avgWeeklyIncome == x.totalRemaining && x.totalRemaining == total
    {
      assert x in clear;
      QuotientTimes(total, income);
    }
  }

  lemma QuotientTimes(a: real, b: real)
    requires b != 0.0
    ensures (a / b) * b == a
  {
  }
}
