/**
 * Domain records of the time tracker: work sessions and their pay rule,
 * financial goals, the string codecs of the enumerations, the feature limits
 * of each licence tier and the table of achievements.
 */
module Models {
  import W = Wrappers
  import Text
  import opened Calendar

  // ---------- Pay type ----------

  datatype PayType = None | Hourly | Fixed

  function PayTypeToString(p: PayType): string {
    match p
    case None => "None"
    case Hourly => "Hourly"
    case Fixed => "Fixed"
  }

  /** Parses a stored pay type; the empty string also denotes `None`. */
  function PayTypeFromString(s: string): W.Result<PayType, string> {
    if s == "None" || s == "" then W.Ok(PayType.None)
    else if s == "Hourly" then W.Ok(Hourly)
    else if s == "Fixed" then W.Ok(Fixed)
    else W.Err("Invalid pay type: " + s)
  }

  lemma PayTypeRoundTrip(p: PayType)
    ensures PayTypeFromString(PayTypeToString(p)) == W.Ok(p)
  {
  }

  /** Exactly the three names and the empty string parse; everything else is an error naming the input. */
  lemma PayTypeFromStringCases(s: string)
    ensures PayTypeFromString(s).Ok? <==> s in {"None", "", "Hourly", "Fixed"}
    ensures PayTypeFromString(s).Ok? && s != "" ==> PayTypeToString(PayTypeFromString(s).value) == s
    ensures s == "" ==> PayTypeFromString(s) == W.Ok(PayType.None)
    ensures PayTypeFromString(s).Err? ==> PayTypeFromString(s).error == "Invalid pay type: " + s
  {
  }

  // ---------- Goal type ----------

  datatype GoalType = Debt | Purchase | Savings

  function GoalTypeToString(g: GoalType): string {
    match g
    case Debt => "Debt"
    case Purchase => "Purchase"
    case Savings => "Savings"
  }

  function GoalTypeFromString(s: string): W.Result<GoalType, string> {
    if s == "Debt" then W.Ok(Debt)
    else if s == "Purchase" then W.Ok(Purchase)
    else if s == "Savings" then W.Ok(Savings)
    else W.Err("Invalid goal type: " + s)
  }

  lemma GoalTypeRoundTrip(g: GoalType)
    ensures GoalTypeFromString(GoalTypeToString(g)) == W.Ok(g)
  {
  }

  lemma GoalTypeFromStringCases(s: string)
    ensures GoalTypeFromString(s).Ok? <==> exists g :: GoalTypeToString(g) == s
    ensures GoalTypeFromString(s).Ok? ==> GoalTypeToString(GoalTypeFromString(s).value) == s
    ensures GoalTypeFromString(s).Err? ==> GoalTypeFromString(s).error == "Invalid goal type: " + s
  {
    if GoalTypeFromString(s).Ok? {
      assert GoalTypeToString(GoalTypeFromString(s).value) == s;
    }
  }

  // ---------- Invoice status ----------

  datatype InvoiceStatus = Draft | Sent | Paid | Overdue

  function InvoiceStatusToString(st: InvoiceStatus): string {
    match st
    case Draft => "Draft"
    case Sent => "Sent"
    case Paid => "Paid"
    case Overdue => "Overdue"
  }

  function InvoiceStatusFromString(s: string): W.Result<InvoiceStatus, string> {
    if s == "Draft" then W.Ok(Draft)
    else if s == "Sent" then W.Ok(Sent)
    else if s == "Paid" then W.Ok(Paid)
    else if s == "Overdue" then W.Ok(Overdue)
    else W.Err("Invalid invoice status: " + s)
  }

  lemma InvoiceStatusRoundTrip(st: InvoiceStatus)
    ensures InvoiceStatusFromString(InvoiceStatusToString(st)) == W.Ok(st)
  {
  }

  lemma InvoiceStatusFromStringCases(s: string)
    ensures InvoiceStatusFromString(s).Ok? <==> exists st :: InvoiceStatusToString(st) == s
    ensures InvoiceStatusFromString(s).Ok? ==> InvoiceStatusToString(InvoiceStatusFromString(s).value) == s
    ensures InvoiceStatusFromString(s).Err? ==> InvoiceStatusFromString(s).error == "Invalid invoice status: " + s
  {
    if InvoiceStatusFromString(s).Ok? {
      assert InvoiceStatusToString(InvoiceStatusFromString(s).value) == s;
    }
  }

  /** Reading an invoice row: an unknown stored status is shown as Draft. */
  function StoredInvoiceStatus(s: string): (st: InvoiceStatus)
    ensures InvoiceStatusFromString(s).Ok? ==> st == InvoiceStatusFromString(s).value
    ensures InvoiceStatusFromString(s).Err? ==> st == Draft
  {
    match InvoiceStatusFromString(s)
    case Ok(v) => v
    case Err(_) => Draft
  }

  // ---------- Tier ----------

  datatype Tier = Free | Pro | Lifetime

  function TierToString(t: Tier): string {
    match t
    case Free => "Free"
    case Pro => "Pro"
    case Lifetime => "Lifetime"
  }

  /** Total: anything but the exact names "Pro" and "Lifetime" is Free. */
  function TierFromString(s: string): Tier {
    if s == "Pro" then Pro
    else if s == "Lifetime" then Lifetime
    else Free
  }

  lemma TierRoundTrip(t: Tier)
    ensures TierFromString(TierToString(t)) == t
  {
  }

  lemma TierFromStringCases(s: string)
    ensures TierFromString(s) != Free <==> s == "Pro" || s == "Lifetime"
    ensures TierFromString(s) != Free ==> TierToString(TierFromString(s)) == s
    ensures TierFromString("pro") == Free && TierFromString("lifetime") == Free
  {
  }

  // ---------- Work sessions ----------

  datatype Session = Session(
    id: int,
    sessionTypeId: int,
    sessionTypeName: W.Option<string>,
    date: Date,
    projectName: string,
    hours: real,
    description: W.Option<string>,
    payType: W.Option<PayType>,
    hourlyRate: W.Option<real>,
    fixedAmount: W.Option<real>)

  /** What a session earns. */
  function CalculatePay(s: Session): real {
    match s.payType
    case Some(Hourly) => s.hourlyRate.GetOr(0.0) * s.hours
    case Some(Fixed) => s.fixedAmount.GetOr(0.0)
    case _ => 0.0
  }

  /** The pay rule case by case: a missing rate or amount counts as zero, and an unpaid or untyped session earns nothing. */
  lemma PayRule(s: Session)
    ensures s.payType == W.Some(Hourly) && s.hourlyRate.None? ==> CalculatePay(s) == 0.0
    ensures s.payType == W.Some(Hourly) && s.hourlyRate.Some? ==> CalculatePay(s) == s.hourlyRate.value * s.hours
    ensures s.payType == W.Some(Fixed) ==> CalculatePay(s) == (if s.fixedAmount.Some? then s.fixedAmount.value else 0.0)
    ensures s.payType == W.None || s.payType == W.Some(PayType.None) ==> CalculatePay(s) == 0.0
  {
  }

  /** Non-negative rates, amounts and hours never give negative pay. */
  lemma PayNonNegative(s: Session)
    requires s.hours >= 0.0
    requires s.hourlyRate.Some? ==> s.hourlyRate.value >= 0.0
    requires s.fixedAmount.Some? ==> s.fixedAmount.value >= 0.0
    ensures CalculatePay(s) >= 0.0
  {
  }

  /** `WorkSession::validate`: the checks run in the order name, hours, date. */
  function ValidateSession(s: Session): (r: W.Result<(), string>)
    ensures r.Ok? <==> !Text.IsBlank(s.projectName) && 0.1 <= s.hours <= 24.0 && s.date != Malformed("")
  {
    if Text.IsBlank(s.projectName) then W.Err("Project name cannot be empty")
    else if s.hours < 0.1 || s.hours > 24.0 then W.Err("Hours must be between 0.1 and 24.0")
    else if s.date == Malformed("") then W.Err("Date cannot be empty")
    else W.Ok(())
  }

  /** The first failing check decides the message. */
  lemma ValidateSessionOrder(s: Session)
    ensures Text.IsBlank(s.projectName) ==> ValidateSession(s) == W.Err("Project name cannot be empty")
    ensures !Text.IsBlank(s.projectName) && (s.hours < 0.1 || s.hours > 24.0)
      ==> ValidateSession(s) == W.Err("Hours must be between 0.1 and 24.0")
    ensures !Text.IsBlank(s.projectName) && 0.1 <= s.hours <= 24.0 && s.date == Malformed("")
      ==> ValidateSession(s) == W.Err("Date cannot be empty")
  {
  }

  // ---------- Goals ----------

  datatype Goal = Goal(
    id: int,
    goalType: GoalType,
    name: string,
    targetAmount: real,
    currentAmount: real,
    createdDate: Date,
    targetDate: W.Option<Date>)

  function ProgressPercent(g: Goal): (p: real)
    ensures p <= 100.0
    ensures g.targetAmount <= 0.0 ==> p == 0.0
    ensures g.targetAmount > 0.0 && g.currentAmount >= 0.0 ==> p >= 0.0
    ensures g.targetAmount > 0.0 ==> (p == 100.0 <==> g.currentAmount >= g.targetAmount)
    ensures g.targetAmount > 0.0 && g.currentAmount < g.targetAmount ==> p == g.currentAmount / g.targetAmount * 100.0
  {
    if g.targetAmount <= 0.0 then 0.0
    else
      var raw := g.currentAmount / g.targetAmount * 100.0;
      assert raw >= 100.0 <==> g.currentAmount >= g.targetAmount by {
        assert raw == g.currentAmount * 100.0 / g.targetAmount;
      }
      if raw < 100.0 then raw else 100.0
  }

  function RemainingAmount(g: Goal): (r: real)
    ensures r >= 0.0
    ensures g.currentAmount <= g.targetAmount ==> r == g.targetAmount - g.currentAmount
    ensures g.currentAmount >= g.targetAmount ==> r == 0.0
  {
    var d := g.targetAmount - g.currentAmount;
    if d > 0.0 then d else 0.0
  }

  /** A goal is complete (nothing remains) exactly when its progress is 100 %. */
  lemma RemainingZeroIffComplete(g: Goal)
    requires g.targetAmount > 0.0
    ensures RemainingAmount(g) == 0.0 <==> ProgressPercent(g) == 100.0
  {
  }

  /** `FinancialGoal::validate`: name, then target, then current amount. */
  function ValidateGoal(g: Goal): (r: W.Result<(), string>)
    ensures r.Ok? <==> !Text.IsBlank(g.name) && g.targetAmount > 0.0 && g.currentAmount >= 0.0
    ensures Text.IsBlank(g.name) ==> r == W.Err("Goal name cannot be empty")
    ensures !Text.IsBlank(g.name) && g.targetAmount <= 0.0 ==> r == W.Err("Target amount must be positive")
    ensures !Text.IsBlank(g.name) && g.targetAmount > 0.0 && g.currentAmount < 0.0 ==> r == W.Err("Current amount cannot be negative")
  {
    if Text.IsBlank(g.name) then W.Err("Goal name cannot be empty")
    else if g.targetAmount <= 0.0 then W.Err("Target amount must be positive")
    else if g.currentAmount < 0.0 then W.Err("Current amount cannot be negative")
    else W.Ok(())
  }

  /** A goal that passes validation has progress between 0 and 100. */
  lemma ValidGoalProgressBounds(g: Goal)
    requires ValidateGoal(g).Ok?
    ensures 0.0 <= ProgressPercent(g) <= 100.0
    ensures RemainingAmount(g) <= g.targetAmount
  {
  }

  // ---------- Feature limits ----------

  datatype FeatureLimits = FeatureLimits(
    maxSessionTypes: W.Option<nat>,
    maxGoals: W.Option<nat>,
    analyticsDays: W.Option<nat>,
    hasInvoices: bool,
    hasAiAdvisor: bool,
    hasVoiceInput: bool,
    hasSimulator: bool,
    hasPdfExport: bool)

  function ForTier(t: Tier): FeatureLimits {
    match t
    case Free => FeatureLimits(W.Some(2), W.Some(3), W.Some(7), false, true, false, false, false)
    case Pro | Lifetime => FeatureLimits(W.None, W.None, W.None, true, true, true, true, true)
  }

  /** Free is capped at 2 session types, 3 goals and 7 analytics days with only the advisor; paid tiers are identical and unlimited. */
  lemma ForTierProperties(t: Tier)
    ensures t == Free ==>
      (ForTier(t).maxSessionTypes == W.Some(2) && ForTier(t).maxGoals == W.Some(3)
       && ForTier(t).analyticsDays == W.Some(7))
    ensures t == Free ==>
      (ForTier(t).hasAiAdvisor && !ForTier(t).hasInvoices && !ForTier(t).hasVoiceInput
       && !ForTier(t).hasSimulator && !ForTier(t).hasPdfExport)
    ensures t != Free ==> ForTier(t) == ForTier(Pro)
    ensures t != Free ==>
      (ForTier(t).maxSessionTypes.None? && ForTier(t).maxGoals.None? && ForTier(t).analyticsDays.None?
       && ForTier(t).hasInvoices && ForTier(t).hasAiAdvisor && ForTier(t).hasVoiceInput
       && ForTier(t).hasSimulator && ForTier(t).hasPdfExport)
  {
  }

  // ---------- Achievements ----------

  datatype AchievementCategory = Presence | Awareness | Balance | Commitment | Financial

  datatype AchievementDef = AchievementDef(
    id: string, name: string, description: string, category: AchievementCategory, icon: string)

  const PresenceAchievements: seq<AchievementDef> := [
    AchievementDef("first_step", "First Step", "Logged your first session", Presence, "\U{1F331}"),
    AchievementDef("back_again", "Back Again", "Used ChronoDesk on 3 different days", Presence, "\U{1F44B}"),
    AchievementDef("getting_comfortable", "Getting Comfortable", "Logged 10 total sessions", Presence, "\U{1FAB4}"),
    AchievementDef("part_of_routine", "Part of the Routine", "Used ChronoDesk across 7 different days", Presence, "\U{1F33F}")
  ]

  const AwarenessAchievements: seq<AchievementDef> := [
    AchievementDef("curious_mind", "Curious Mind", "Opened Analytics for the first time", Awareness, "\U{1F9E0}"),
    AchievementDef("pattern_noticed", "Pattern Noticed", "Viewed Analytics on 5 different days", Awareness, "\U{1F50D}"),
    AchievementDef("zoomed_out", "Zoomed Out", "Explored at least 3 different time ranges in Analytics", Awareness, "\U{1F52D}"),
    AchievementDef("connecting_dots", "Connecting the Dots", "Used Analytics and Advisor in the same day", Awareness, "\U{1F9E9}")
  ]

  const BalanceAchievements: seq<AchievementDef> := [
    AchievementDef("paced_yourself", "Paced Yourself", "No session longer than 6 hours in a full week", Balance, "\U{2696}\U{FE0F}"),
    AchievementDef("sustainable_week", "Sustainable Week", "Averaged under 8 hours per day for a full week", Balance, "\U{1F30A}"),
    AchievementDef("human_weekend", "Human Weekend", "Logged less than 3 hours total on a weekend", Balance, "\U{2600}\U{FE0F}")
  ]

  const CommitmentAchievements: seq<AchievementDef> := [
    AchievementDef("long_run", "In It for the Long Run", "Logged sessions in 3 different calendar weeks", Commitment, "\U{1F3C3}"),
    AchievementDef("one_full_month", "One Full Month", "Tracked time across 4 different weeks", Commitment, "\U{1F4C5}"),
    AchievementDef("hundred_hours", "Hundred Hours", "Tracked 100 total hours", Commitment, "\U{1F4AF}")
  ]

  const FinancialAchievements: seq<AchievementDef> := [
    AchievementDef("first_dollar", "First Dollar", "Tracked your first paid session", Financial, "\U{1F4B5}")
  ]

  /** The fifteen achievements, in the order they are checked. */
  const Achievements: seq<AchievementDef> :=
    PresenceAchievements + AwarenessAchievements + BalanceAchievements + CommitmentAchievements + FinancialAchievements

  function CountCategory(defs: seq<AchievementDef>, c: AchievementCategory): (n: nat)
    ensures n <= |defs|
  {
    if defs == [] then 0
    else (if defs[0].category == c then 1 else 0) + CountCategory(defs[1..], c)
  }

  predicate DistinctIds(defs: seq<AchievementDef>) {
    forall i, j :: 0 <= i < j < |defs| ==> defs[i].id != defs[j].id
  }

  /** Each group of the table holds only its own category. */
  predicate OfCategory(defs: seq<AchievementDef>, k: AchievementCategory) {
    forall i :: 0 <= i < |defs| ==> defs[i].category == k
  }

  lemma PresenceGroup()
    ensures |PresenceAchievements| == 4 && OfCategory(PresenceAchievements, Presence)
  {
  }
  lemma AwarenessGroup()
    ensures |AwarenessAchievements| == 4 && OfCategory(AwarenessAchievements, Awareness)
  {
  }
  lemma BalanceGroup()
    ensures |BalanceAchievements| == 3 && OfCategory(BalanceAchievements, Balance)
  {
  }
  lemma CommitmentGroup()
    ensures |CommitmentAchievements| == 3 && OfCategory(CommitmentAchievements, Commitment)
  {
  }
  lemma FinancialGroup()
    ensures |FinancialAchievements| == 1 && OfCategory(FinancialAchievements, Financial)
  {
  }

  /** Fifteen achievements: four Presence, four Awareness, three Balance, three Commitment, one Financial. */
  lemma AchievementCategories()
    ensures |Achievements| == 15
    ensures CountCategory(Achievements, Presence) == 4 && CountCategory(Achievements, Awareness) == 4
    ensures CountCategory(Achievements, Balance) == 3 && CountCategory(Achievements, Commitment) == 3
    ensures CountCategory(Achievements, Financial) == 1
  {
    PresenceGroup();
    AwarenessGroup();
    BalanceGroup();
    CommitmentGroup();
    FinancialGroup();
    forall c: AchievementCategory
      ensures CountCategory(Achievements, c) == (if c == Presence then 4 else if c == Awareness then 4
        else if c == Balance then 3 else if c == Commitment then 3 else 1)
    {
      CountByGroup(c);
      CountUniform(PresenceAchievements, Presence, c);
      CountUniform(AwarenessAchievements, Awareness, c);
      CountUniform(BalanceAchievements, Balance, c);
      CountUniform(CommitmentAchievements, Commitment, c);
      CountUniform(FinancialAchievements, Financial, c);
    }
  }

  /** Counting over the whole table is counting group by group. */
  lemma CountByGroup(c: AchievementCategory)
    ensures CountCategory(Achievements, c) ==
      CountCategory(PresenceAchievements, c) + CountCategory(AwarenessAchievements, c)
      + CountCategory(BalanceAchievements, c) + CountCategory(CommitmentAchievements, c)
      + CountCategory(FinancialAchievements, c)
  {
    var p, a, b, m, f := PresenceAchievements, AwarenessAchievements, BalanceAchievements,
      CommitmentAchievements, FinancialAchievements;
    CountConcat(p + a + b + m, f, c);
    CountConcat(p + a + b, m, c);
    CountConcat(p + a, b, c);
    CountConcat(p, a, c);
  }

  lemma {:induction false} CountConcat(a: seq<AchievementDef>, b: seq<AchievementDef>, c: AchievementCategory)
    ensures CountCategory(a + b, c) == CountCategory(a, c) + CountCategory(b, c)
    decreases |a|
  {
    if a != [] {
      CountConcat(a[1..], b, c);
      var ab := a + b;
      assert ab[0] == a[0];
      assert ab[1..] == a[1..] + b;
      assert CountCategory(ab, c) == (if ab[0].category == c then 1 else 0) + CountCategory(ab[1..], c);
    } else {
      assert a + b == b;
    }
  }

  lemma {:induction false} CountUniform(defs: seq<AchievementDef>, k: AchievementCategory, c: AchievementCategory)
    requires OfCategory(defs, k)
    ensures CountCategory(defs, c) == if c == k then |defs| else 0
    decreases |defs|
  {
    if defs != [] {
      CountUniform(defs[1..], k, c);
    }
  }

  /** The length and the first and third characters already tell the ids apart. */
  function IdKey(id: string): (int, char, char) {
    (|id|, if |id| > 0 then id[0] else ' ', if |id| > 2 then id[2] else ' ')
  }

  /** The keys of the fifteen ids, in table order; no two are equal. */
  const IdKeys: seq<(int, char, char)> := [
    (10, 'f', 'r'), (10, 'b', 'c'), (19, 'g', 't'), (15, 'p', 'r'),
    (12, 'c', 'r'), (15, 'p', 't'), (10, 'z', 'o'), (15, 'c', 'n'),
    (14, 'p', 'c'), (16, 's', 's'), (13, 'h', 'm'),
    (8, 'l', 'n'), (14, 'o', 'e'), (13, 'h', 'n'),
    (12, 'f', 'r')]

  /** The keys of a group of the table, which starts at position offset. */
  predicate KeysAt(group: seq<AchievementDef>, offset: nat) {
    offset + |group| <= |IdKeys| && forall i :: 0 <= i < |group| ==> IdKey(group[i].id) == IdKeys[offset + i]
  }

  lemma PresenceKeys()
    ensures KeysAt(PresenceAchievements, 0)
  {
  }
  lemma AwarenessKeys()
    ensures KeysAt(AwarenessAchievements, 4)
  {
  }
  lemma BalanceKeys()
    ensures KeysAt(BalanceAchievements, 8)
  {
  }
  lemma CommitmentKeys()
    ensures KeysAt(CommitmentAchievements, 11)
  {
  }
  lemma FinancialKeys()
    ensures KeysAt(FinancialAchievements, 14)
  {
  }

  lemma {:induction false} ConcatKeys(a: seq<AchievementDef>, b: seq<AchievementDef>, offset: nat)
    requires KeysAt(a, offset) && KeysAt(b, offset + |a|)
    ensures KeysAt(a + b, offset)
  {
    forall i | 0 <= i < |a + b| ensures IdKey((a + b)[i].id) == IdKeys[offset + i] {
      if i < |a| {
        assert (a + b)[i] == a[i];
      } else {
        assert (a + b)[i] == b[i - |a|];
      }
    }
  }

  /** No two achievements share an id. */
  lemma AchievementIdsDistinct()
    ensures DistinctIds(Achievements)
  {
    var p, a, b, m, f := PresenceAchievements, AwarenessAchievements, BalanceAchievements,
      CommitmentAchievements, FinancialAchievements;
    PresenceKeys();
    AwarenessKeys();
    BalanceKeys();
    CommitmentKeys();
    FinancialKeys();
    ConcatKeys(p, a, 0);
    ConcatKeys(p + a, b, 0);
    ConcatKeys(p + a + b, m, 0);
    ConcatKeys(p + a + b + m, f, 0);
    assert KeysAt(Achievements, 0);
    forall i, j | 0 <= i < j < |Achievements| ensures Achievements[i].id != Achievements[j].id {
      assert IdKeys[i] != IdKeys[j];
    }
  }
}
