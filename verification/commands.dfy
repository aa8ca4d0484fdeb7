/**
 * The checks the command layer makes before it touches the store: input
 * validation, habits due today, and the free tier's creation limits.
 */
module Commands {
  import W = Wrappers
  import Text
  import opened Calendar
  import opened Models
  import opened Logic

  // ---------- Input checks ----------

  /** `add_session`: hours first, then the project name. */
  function CheckNewSession(hours: real, projectName: string): (r: W.Result<(), string>)
    ensures r.Ok? <==> 0.1 <= hours <= 24.0 && !Text.IsBlank(projectName)
    ensures (hours < 0.1 || hours > 24.0) ==> r == W.Err("Hours must be between 0.1 and 24.0")
    ensures 0.1 <= hours <= 24.0 && Text.IsBlank(projectName) ==> r == W.Err("Project name cannot be empty")
  {
    if hours < 0.1 || hours > 24.0 then W.Err("Hours must be between 0.1 and 24.0")
    else if Text.IsBlank(projectName) then W.Err("Project name cannot be empty")
    else W.Ok(())
  }

  /**
   * Adding accepts what updating accepts, apart from the date, which only
   * the update checks; with both faults the two report different errors,
   * since they check in opposite orders.
   */
  lemma NewSessionAgreesWithValidate(s: Session)
    ensures CheckNewSession(s.hours, s.projectName).Ok? && s.date != Malformed("") <==> ValidateSession(s).Ok?
    ensures Text.IsBlank(s.projectName) && s.hours > 24.0 ==>
      CheckNewSession(s.hours, s.projectName) != ValidateSession(s)
  {
  }

  /** `add_goal`: the target first, then the name. */
  function CheckNewGoal(targetAmount: real, name: string): (r: W.Result<(), string>)
    ensures r.Ok? <==> targetAmount > 0.0 && !Text.IsBlank(name)
    ensures targetAmount <= 0.0 ==> r == W.Err("Target amount must be positive")
    ensures targetAmount > 0.0 && Text.IsBlank(name) ==> r == W.Err("Goal name cannot be empty")
  {
    if targetAmount <= 0.0 then W.Err("Target amount must be positive")
    else if Text.IsBlank(name) then W.Err("Goal name cannot be empty")
    else W.Ok(())
  }

  /** A new goal passing the check, saved with nothing yet contributed, passes `FinancialGoal::validate`. */
  lemma NewGoalValidates(g: Goal)
    requires CheckNewGoal(g.targetAmount, g.name).Ok? && g.currentAmount == 0.0
    ensures ValidateGoal(g).Ok?
    ensures ProgressPercent(g) == 0.0 && RemainingAmount(g) == g.targetAmount
  {
  }

  /** `add_contribution`: only a positive amount. */
  function CheckContribution(amount: real): (r: W.Result<(), string>)
    ensures r.Ok? <==> amount > 0.0
    ensures r.Err? ==> r.error == "Contribution amount must be positive"
  {
    if amount <= 0.0 then W.Err("Contribution amount must be positive") else W.Ok(())
  }

  // ---------- Pending habits ----------

  datatype Habit = Habit(
    id: int,
    name: string,
    triggerType: string,
    triggerValue: real,
    isActive: bool)

  datatype HabitLog = HabitLog(id: int, habitId: int, completedDay: Date)

  /** Whether today's work triggers the habit; an unknown trigger type never does. */
  predicate Triggered(h: Habit, sessionCount: nat, totalHours: real) {
    if h.triggerType == "after_session" then sessionCount as real >= h.triggerValue
    else if h.triggerType == "after_hours" then totalHours >= h.triggerValue
    else h.triggerType == "daily"
  }

  function CompletedIds(logs: seq<HabitLog>, today: int): set<int> {
    set l | l in logs && l.completedDay == Iso(today) :: l.habitId
  }

  /**
   * `get_pending_habits`: the active habits not completed today whose trigger
   * today's sessions (those dated today) meet, in stored order.
   */
  function PendingHabits(habits: seq<Habit>, sessions: seq<Session>, logs: seq<HabitLog>, today: int): seq<Habit> {
    var todays := Filter(sessions, (s: Session) => s.date == Iso(today));
    var done := CompletedIds(logs, today);
    Filter(habits, (h: Habit) => h.isActive && h.id !in done && Triggered(h, |todays|, Sum(todays, HoursOf)))
  }

  /** A habit is pending exactly when it is active, not logged today, and triggered by today's sessions. */
  lemma PendingHabitsSpec(habits: seq<Habit>, sessions: seq<Session>, logs: seq<HabitLog>, today: int, h: Habit)
    ensures h in PendingHabits(habits, sessions, logs, today) <==>
      h in habits && h.isActive && !(exists l :: l in logs && l.completedDay == Iso(today) && l.habitId == h.id)
      && Triggered(h, |Filter(sessions, (s: Session) => s.date == Iso(today))|,
        TotalHoursForDate(sessions, Iso(today)))
  {
    var done := CompletedIds(logs, today);
    if exists l :: l in logs && l.completedDay == Iso(today) && l.habitId == h.id {
      var l :| l in logs && l.completedDay == Iso(today) && l.habitId == h.id;
      assert h.id in done;
    }
    assert Sum(Filter(sessions, (s: Session) => s.date == Iso(today)), HoursOf) == TotalHoursForDate(sessions, Iso(today)) by {
      GroupTotalAsFilter(sessions, DateOf, HoursOf, Iso(today), (s: Session) => s.date == Iso(today));
    }
  }

  /** A daily habit is pending every day until it is logged, whatever was worked. */
  lemma DailyHabitPending(habits: seq<Habit>, sessions: seq<Session>, logs: seq<HabitLog>, today: int, h: Habit)
    requires h in habits && h.isActive && h.triggerType == "daily"
    requires forall l :: l in logs && l.completedDay == Iso(today) ==> l.habitId != h.id
    ensures h in PendingHabits(habits, sessions, logs, today)
  {
    PendingHabitsSpec(habits, sessions, logs, today, h);
  }

  // ---------- Tier limits ----------

  datatype Feature = SessionTypes | Goals

  datatype LimitCheck = LimitCheck(allowed: bool, current: nat, limit: W.Option<nat>, feature: string)

  function FeatureName(f: Feature): string {
    match f
    case SessionTypes => "session_types"
    case Goals => "goals"
  }

  /** `can_create_session_type` / `can_create_goal`: allowed while below the tier's cap, always without one. */
  function CanCreate(tier: Tier, f: Feature, count: nat): (c: LimitCheck)
    ensures c.current == count && c.feature == FeatureName(f)
    ensures c.allowed <==> c.limit.None? || count < c.limit.value
    ensures c.limit == match f case SessionTypes => ForTier(tier).maxSessionTypes case Goals => ForTier(tier).maxGoals
  {
    var limits := ForTier(tier);
    var limit := match f case SessionTypes => limits.maxSessionTypes case Goals => limits.maxGoals;
    LimitCheck(match limit case Some(max) => count < max case None => true, count, limit, FeatureName(f))
  }

  /** Free allows a new session type while fewer than 2 exist and a new goal while fewer than 3 exist; paid tiers always allow. */
  lemma CanCreateByTier(tier: Tier, count: nat)
    ensures tier == Free ==> (CanCreate(tier, SessionTypes, count).allowed <==> count < 2)
    ensures tier == Free ==> (CanCreate(tier, Goals, count).allowed <==> count < 3)
    ensures tier != Free ==> CanCreate(tier, SessionTypes, count).allowed && CanCreate(tier, Goals, count).allowed
    ensures tier != Free ==> CanCreate(tier, SessionTypes, count).limit.None?
  {
  }
}
