# Chrono in Dafny

Chrono is a desktop time tracker with a licence service behind it. This project models its core and proves what that core promises.

- **The tracker's back end.** This covers:
  - the domain records and their codecs;
  - pay, goal progress and ETA rules;
  - the windowed averages;
  - the analytics aggregation;
  - day streaks and habit streaks;
  - the focus score and burnout risk;
  - the financial simulation and analysis;
  - the achievement conditions and the unlocking pass;
  - input checks, pending habits and the free tier's creation limits;
  - the record store's writes: sessions, the project cache, invoices and unlocked achievements.
- **The licence service.** This covers:
  - licence keys, tiers, expiry and validity;
  - the licence store, with its licences, device activations and processed webhook events;
  - the activate, validate and deactivate routes;
  - the payment provider's webhook, with idempotent dispatch and the status transitions of each handler;
  - the AI advisor route with its per-key daily rate limiter.
- **The front end's translation store:** language choice, table loading and the dotted-key lookup `t` with `{param}` substitution.
- **The console work log (`WorkClock.cpp`):** guarded setters, the interactive add loop, and the text file it saves and loads.

Each source component is one module:
- Wrappers, Text and Calendar are shared helpers.
- Models and Logic cover the domain.
- Streaks, Analytics, Wellbeing, Finance, Achievements and Commands cover the command layer.
- Storage is the local store.
- LicenseUtils, LicenseStore, LicenseRoutes, Webhook and AiChat are the licence service.
- I18n and WorkClock are the last two.

Code that updates state in place becomes a class with `modifies` clauses: the local database, the licence store, the rate limiter, the language store and the work log. Loops become methods with invariants, proved against the functions that state what they compute. Pure rules become functions, and lemmas relate them.

Modelling choices:
- Dates are either a day number (day 0 is 1970-01-01) or a malformed string.
- Money and hours are real numbers.
- The clock, randomness, the signature check, email delivery and the completion service are all parameters.

## Model

| member | source | states |
|---|---|---|
| Calendar.Weekday | Launcher/src-tauri/src/storage/db.rs:506-511 | a day number falls on one of the seven weekdays, Sunday 0 to Saturday 6 |
| Calendar.WeekdayPeriodic | Launcher/src-tauri/src/storage/db.rs:508 | weekdays repeat every seven days, and the next day is the next weekday |
| Calendar.InRangeIsoOnly | Launcher/src-tauri/src/storage/db.rs:292-298 | a stored date between two well-formed bounds is itself well formed and lies between them |
| Calendar.SortedDistinct | Launcher/src-tauri/src/commands.rs:540-546 | the dates collected into a set and then sorted are strictly ascending and hold exactly the dates of the input |
| Calendar.DateLessIrreflexive | Launcher/src-tauri/src/commands.rs:546 | no date sorts before itself |
| Calendar.DateLessTransitive | Launcher/src-tauri/src/commands.rs:546 | the order dates are sorted by is transitive |
| Calendar.DateLessTrichotomy | Launcher/src-tauri/src/commands.rs:546 | any two distinct dates are ordered one way or the other, so sorting is determined |
| Calendar.SortedDistinctCount | Launcher/src-tauri/src/commands.rs:540-546 | the sorted list has one entry per distinct date |
| Calendar.SortedIsoFirst | Launcher/src-tauri/src/storage/db.rs:482 | in a sorted list every well-formed date comes before every malformed one |
| Calendar.DaysFromCivilEpoch | Launcher/src-tauri/src/storage/db.rs:234 | 1970-01-01 is day 0 of the day count used for "today" |
| Calendar.DaysFromCivilWithinMonth | Launcher/src-tauri/src/storage/db.rs:234-235 | a day of the month is the first of that month plus the day of the month less one |
| Calendar.MonthStartAfterYearStart | Launcher/src-tauri/src/storage/db.rs:235-236 | the first of the current month is never before the first of January of its year |
| Text.NatToString | Launcher/src-tauri/src/storage/db.rs:870 | the decimal rendering of a number is non-empty, made of digits only, and has no leading zero from 10 on |
| Text.NatToStringRoundTrip | Launcher/src-tauri/src/storage/db.rs:870 | the digits printed for a number denote that number |
| Text.PadZeros | Launcher/src-tauri/src/storage/db.rs:870 | zero padding keeps a string at least as long as the width, and adds only zeros, all in front |
| Text.LeadingZerosValue | Launcher/src-tauri/src/storage/db.rs:870 | leading zeros do not change the number a digit string denotes |
| Text.ToLowerAscii | Launcher/backend/lib/utils.ts:35 | lower-casing keeps the length and lower-cases each character on its own |
| Text.ContainsAt | Launcher/backend/lib/utils.ts:36 | a string includes another exactly when the other is a prefix of one of its suffixes |
| Text.Split | Launcher/src/lib/stores/i18n.ts:89 | splitting always gives at least one part |
| Text.SplitJoin | Launcher/src/lib/stores/i18n.ts:89 | joining the parts with the separator gives the string back, and no part holds the separator |
| Text.SplitField | Launcher/src/lib/stores/i18n.ts:89 | a first field without the separator is split off as the first part, and the rest splits on its own |
| Text.SplitLast | Launcher/src/lib/stores/i18n.ts:89 | a string without the separator splits into itself alone |
| Text.ReplaceAllAbsent | Launcher/src/lib/stores/i18n.ts:102 | replacing a pattern that does not occur leaves the string as it was |
| Text.ReplaceAllSelf | Launcher/src/lib/stores/i18n.ts:102 | replacing a pattern by itself leaves the string as it was |
| Models.PayTypeRoundTrip | Launcher/src-tauri/src/core/models.rs:28-46 | parsing the name a pay type prints gives that pay type back |
| Models.PayTypeFromStringCases | Launcher/src-tauri/src/core/models.rs:37-45 | exactly "None", "", "Hourly" and "Fixed" parse; "" parses to None; any other input is the error "Invalid pay type: " followed by the input |
| Models.GoalTypeRoundTrip | Launcher/src-tauri/src/core/models.rs:112-130 | parsing the name a goal type prints gives that goal type back |
| Models.GoalTypeFromStringCases | Launcher/src-tauri/src/core/models.rs:121-129 | a string parses exactly when it is the name of some goal type, parsing then printing gives it back, and otherwise the error names the input |
| Models.InvoiceStatusRoundTrip | Launcher/src-tauri/src/core/models.rs:419-439 | parsing the name an invoice status prints gives that status back |
| Models.InvoiceStatusFromStringCases | Launcher/src-tauri/src/core/models.rs:429-438 | a string parses exactly when it is the name of some status, parsing then printing gives it back, and otherwise the error names the input |
| Models.StoredInvoiceStatus | Launcher/src-tauri/src/storage/db.rs:794 | a stored status that parses is read as itself, and any other stored text is read as Draft |
| Models.TierRoundTrip | Launcher/src-tauri/src/core/models.rs:572-589 | parsing the name a tier prints gives that tier back |
| Models.TierFromStringCases | Launcher/src-tauri/src/core/models.rs:581-587 | only the exact strings "Pro" and "Lifetime" give a paid tier, which prints back as the same string; lower-case spellings give Free |
| Models.PayRule | Launcher/src-tauri/src/core/models.rs:64-74 | the pay for each pay type: the rate times the hours for Hourly, the fixed amount for Fixed, with a missing rate or amount counting as 0, and 0 for None or no pay type |
| Models.PayNonNegative | Launcher/src-tauri/src/core/models.rs:64-74 | with non-negative hours, rate and amount the pay is never negative |
| Models.ValidateSession | Launcher/src-tauri/src/core/models.rs:77-90 | a session is accepted exactly when its project name is not blank, its hours lie in [0.1, 24] and its date is not empty |
| Models.ValidateSessionOrder | Launcher/src-tauri/src/core/models.rs:77-90 | the checks run in the order name, hours, date, and the first one that fails gives the message |
| Models.ProgressPercent | Launcher/src-tauri/src/core/models.rs:144-149 | progress is at most 100; it is 0 when the target is not positive and not negative when the current amount is not negative; it is 100 exactly when the current amount reaches the target, and the plain ratio times 100 below that |
| Models.RemainingAmount | Launcher/src-tauri/src/core/models.rs:151-153 | the remaining amount is never negative; it is the target less the current amount up to the target, and 0 from there on |
| Models.RemainingZeroIffComplete | Launcher/src-tauri/src/core/models.rs:144-153 | for a positive target, nothing remains exactly when the progress is 100 % |
| Models.ValidateGoal | Launcher/src-tauri/src/core/models.rs:155-167 | a goal is accepted exactly when its name is not blank, its target is positive and its current amount is not negative; the name check comes first, then the target check, then the current amount, each failure with its own message |
| Models.ValidGoalProgressBounds | Launcher/src-tauri/src/core/models.rs:144-167 | a goal that passes validation has progress between 0 and 100 and a remaining amount no larger than its target |
| Models.ForTierProperties | Launcher/src-tauri/src/core/models.rs:623-647 | Free allows 2 session types, 3 goals and 7 days of analytics, with the advisor and no other paid feature; Pro and Lifetime have the same limits, with no caps and every feature |
| Models.AchievementCategories | Launcher/src-tauri/src/core/models.rs:223-343 | the table holds 15 achievements: 4 Presence, 4 Awareness, 3 Balance, 3 Commitment and 1 Financial |
| Models.AchievementIdsDistinct | Launcher/src-tauri/src/core/models.rs:224-343 | no two achievements in the table share an id |
| Logic.Filter | Launcher/src-tauri/src/core/logic.rs:32 | filtering keeps exactly the elements that satisfy the test and is never longer than its input |
| Logic.TotalsForDateAppend | Launcher/src-tauri/src/core/logic.rs:31-37 | one more session adds its hours and its pay to the totals of its own date and leaves every other date's totals as they were |
| Logic.TotalsForDateNone | Launcher/src-tauri/src/core/logic.rs:31-37 | a date with no session has zero hours and zero pay |
| Logic.InLastFourWeeksDays | Launcher/src-tauri/src/core/logic.rs:40-51 | a session is in the four-week window exactly when its date parses and is after the day 28 days ago, or is that day and the clock reads exactly midnight |
| Logic.RecentSessionsMembers | Launcher/src-tauri/src/core/logic.rs:43-52 | a session is counted exactly when it is one of the sessions, its date parses and it lies in the window |
| Logic.AvgWeeklyIncome | Launcher/src-tauri/src/core/logic.rs:39-57 | four times the average weekly income is the pay of the sessions in the window, whatever the number of weeks that had sessions |
| Logic.AvgWeeklyHours | Launcher/src-tauri/src/core/logic.rs:59-77 | four times the average weekly hours is the hours of the sessions in the window |
| Logic.AvgWeeklyHoursNonNegative | Launcher/src-tauri/src/core/logic.rs:59-77 | with non-negative hours the weekly average is not negative |
| Logic.AvgWeeklyHoursBound | Launcher/src-tauri/src/core/logic.rs:59-77 | with non-negative hours four weekly averages never exceed all the hours ever logged |
| Logic.Ceil | Launcher/src-tauri/src/core/logic.rs:18 | the ceiling is the least integer not below its argument |
| Logic.GoalEtaNoIncome | Launcher/src-tauri/src/core/logic.rs:9-11 | without a positive weekly income there is no estimate, even for a goal already reached |
| Logic.GoalEtaComplete | Launcher/src-tauri/src/core/logic.rs:13-16 | with income and nothing remaining the estimate is "Goal Complete!" |
| Logic.GoalEtaUnits | Launcher/src-tauri/src/core/logic.rs:18-28 | the estimate is the least whole number of weeks whose income covers what remains, at least 1; under 4 weeks it is given in weeks, under 52 in the least number of 4.33-week months covering them, and otherwise in the least number of 52-week years covering them |
| Streaks.LongestRun | Launcher/src-tauri/src/commands.rs:564-580 | over a sorted list the scan returns the length of the longest stretch of consecutive calendar days: some stretch is that long and none is longer; an empty list gives the initial 1 |
| Streaks.RunAvoidsBreak | Launcher/src-tauri/src/commands.rs:572-576 | a stretch of consecutive days never spans a pair of entries that are not one day apart |
| Streaks.CurrentStreak | Launcher/src-tauri/src/commands.rs:552-562 | the count n is such that every one of the n days back from today is present and the day before them is not; a streak without today is 0, whatever yesterday holds |
| Streaks.SessionDatesMembers | Launcher/src-tauri/src/commands.rs:540-546 | a date is among the session dates exactly when some session was logged on it |
| Streaks.CalculateStreaks | Launcher/src-tauri/src/commands.rs:535-583 | no sessions give (0, 0); otherwise the current streak is the run of logged days back from today and the longest streak is the longest run among the distinct dates, at most their number |
| Streaks.HabitCurrentStreak | Launcher/src-tauri/src/storage/db.rs:1075-1097 | the loop with its today-or-yesterday guard computes the tolerant walk over the distinct completion days from today |
| Streaks.HabitRun | Launcher/src-tauri/src/storage/db.rs:1081-1096 | the habit streak never exceeds the number of completion days |
| Streaks.HabitRunNeedsRecentDay | Launcher/src-tauri/src/storage/db.rs:1080 | a non-zero walk needs a completion today or yesterday, so the guard does not change the result |
| Streaks.HabitRunSkipsFuture | Launcher/src-tauri/src/storage/db.rs:1081-1086 | completion days later than today are passed over |
| Streaks.HabitRunToleratesGap | Launcher/src-tauri/src/storage/db.rs:1086-1091 | completions today and two days ago give a streak of 2: one missing day is tolerated |
| Streaks.HabitRunStopsAtDoubleGap | Launcher/src-tauri/src/storage/db.rs:1092-1094 | completions today and three days ago give a streak of 1: two missing days end it |
| Streaks.HabitDays | Launcher/src-tauri/src/storage/db.rs:1058-1066 | the distinct completion days, latest first: strictly decreasing and holding exactly the logged days |
| Streaks.HabitDates | Launcher/src-tauri/src/storage/db.rs:1102-1103 | the sorted completion dates are all well formed and are exactly the logged days |
| Streaks.ComputeHabitStreaks | Launcher/src-tauri/src/storage/db.rs:1056-1121 | no logs give (0, 0); otherwise the current streak is the tolerant walk from today, which is 0 unless the habit was done today or yesterday, and the best streak is the longest run of consecutive completion days, at most the number of distinct days |
| Streaks.IsoImageCount | Launcher/src-tauri/src/storage/db.rs:1102-1103 | there are as many distinct completion dates as distinct completion days |
| Analytics.SessionsOf | Launcher/src-tauri/src/storage/db.rs:440-455 | the query rows carry their sessions in the same order |
| Analytics.LongestSession | Launcher/src-tauri/src/storage/db.rs:461 | the fold from 0.0 with max is non-negative, at least every session's hours, and equal to one of them unless it is the initial 0.0 |
| Analytics.Summarize | Launcher/src-tauri/src/storage/db.rs:457-470 | the summary counts every session; with sessions the average times the count is the total hours, and with none the average, total and longest are all 0 |
| Analytics.DailyMapStep | Launcher/src-tauri/src/storage/db.rs:474-478 | adding one session's hours and pay to its date's entry keeps the map equal to the per-date totals of the sessions seen so far |
| Analytics.DailyMapValues | Launcher/src-tauri/src/storage/db.rs:475-477 | after the step every date's entry holds exactly that date's hours and pay |
| Analytics.DailyMapKeys | Launcher/src-tauri/src/storage/db.rs:475 | after the step the map has one key per distinct date seen so far |
| Analytics.NewDayEmpty | Launcher/src-tauri/src/storage/db.rs:475 | a date not seen so far starts from zero hours and zero pay, as or_insert((0.0, 0.0)) does |
| Analytics.DailyBreakdown | Launcher/src-tauri/src/storage/db.rs:472-482 | one entry per distinct date, strictly ascending by date, each with exactly the hours and pay of the sessions on that date |
| Analytics.DailyBreakdownTotals | Launcher/src-tauri/src/storage/db.rs:472-482 | the daily entries add up to the total hours and total pay of all sessions, and there are as many entries as distinct dates |
| Analytics.FirstColorAppend | Launcher/src-tauri/src/storage/db.rs:488 | a category's colour is set by its first row and later rows do not change it |
| Analytics.CategoryBreakdowns | Launcher/src-tauri/src/storage/db.rs:484-501 | one entry per distinct category name, "Unknown" for a session without a type, each with that category's hours, session count and pay and the colour of its first row |
| Analytics.HasCategoryAppend | Launcher/src-tauri/src/storage/db.rs:487 | a category is present after a row exactly when it was before or it is that row's category |
| Analytics.CategoryStepExisting | Launcher/src-tauri/src/storage/db.rs:488-491 | a row of a listed category adds its hours, one session and its pay to that entry and leaves the others |
| Analytics.CategoryStepNew | Launcher/src-tauri/src/storage/db.rs:488-491 | a row of a new category appends an entry with its colour, hours, one session and pay |
| Analytics.IndexOf | Launcher/src-tauri/src/storage/db.rs:488 | finds the entry of a category when it is listed and reports its absence otherwise |
| Analytics.CategoryBreakdownTotals | Launcher/src-tauri/src/storage/db.rs:484-501 | the category session counts add up to the number of sessions and the category hours to the total hours |
| Analytics.WeekdayOf | Launcher/src-tauri/src/storage/db.rs:507-508 | a parsed date goes to its weekday, Sunday 0 to Saturday 6; only an unparsable date falls outside the seven buckets |
| Analytics.WeekdayBreakdowns | Launcher/src-tauri/src/storage/db.rs:503-520 | exactly seven entries named Sun to Sat, each with the hours and number of sessions on that weekday |
| Analytics.WeekdayStep | Launcher/src-tauri/src/storage/db.rs:506-512 | a row adds its hours and one session to its own weekday only |
| Analytics.Upto | Launcher/src-tauri/src/storage/db.rs:514 | the indices 0 to n-1 in order |
| Analytics.WeekdayBreakdownTotals | Launcher/src-tauri/src/storage/db.rs:503-520 | with non-negative hours the weekday hours never exceed the total, and equal it when every date parses |
| Analytics.AllWeekdaysTotal | Launcher/src-tauri/src/storage/db.rs:506-512 | the seven weekdays and the bucket of unparsable dates together account for every row's hours |
| Analytics.GetAnalytics | Launcher/src-tauri/src/storage/db.rs:427-528 | the summary, daily, category and weekday breakdowns are those of exactly the sessions whose date string lies in the requested range |
| Analytics.PaySummaryNested | Launcher/src-tauri/src/storage/db.rs:232-264 | with non-negative pay, today's pay is at most this month's, this month's at most this year's and this year's at most all time |
| Analytics.DayWithinRange | Launcher/src-tauri/src/storage/db.rs:243-248 | today's sessions are among those from the month start to today, so their pay is no larger |
| Analytics.RangeWithinRange | Launcher/src-tauri/src/storage/db.rs:247-252 | a later range start admits fewer sessions and so no more pay |
| Analytics.HasSustainableWeek | Launcher/src-tauri/src/storage/db.rs:703-726 | true exactly when there are at least seven daily totals and some seven consecutive ones average under eight hours |
| Analytics.DailyTotals | Launcher/src-tauri/src/storage/db.rs:706-712 | the hours of each distinct date, in date order: one total per distinct date, together adding up to all hours |
| Analytics.HasPacedWeekMeaning | Launcher/src-tauri/src/storage/db.rs:729-754 | paced exactly when there are at least seven distinct dates and no session on the seven latest dates is longer than six hours |
| Analytics.PacedWeekNeedsSevenDays | Launcher/src-tauri/src/storage/db.rs:732-740 | a paced week needs at least seven distinct session dates |
| Storage.FindType | Launcher/src-tauri/src/storage/db.rs:434-435 | the LEFT JOIN finds a session type with the session's type id when there is one and reports none otherwise |
| Storage.PayTypeStored | Launcher/src-tauri/src/storage/db.rs:193 | a pay type written as its text by add_session is read back unchanged by the and_then(from_string) of the readers |
| Storage.ReadSessions | Launcher/src-tauri/src/storage/db.rs:440-455 | each stored row becomes one session, joined with its session type, keeping the rows' order; the statement's ORDER BY s.date is not applied here (see Analytics.GetAnalytics under "## Left out") |
| Storage.UpsertKeepsKeysUnique | Launcher/src-tauri/src/storage/db.rs:411-423 | the project cache keeps at most one entry per (project name, session type) |
| Storage.UpsertProjectSpec | Launcher/src-tauri/src/storage/db.rs:411-423 | an existing (name, type) entry gets the new date and one more use, in place; a new pair is appended with one use; every other entry is unchanged |
| Storage.InvoiceNumberParse | Launcher/src-tauri/src/storage/db.rs:870 | the invoice number is "INV-" followed by at least four digits whose value is the existing count plus one |
| Storage.InvoiceNumberInjective | Launcher/src-tauri/src/storage/db.rs:870 | different invoice counts give different invoice numbers |
| Storage.ItemAmountIsPay | Launcher/src-tauri/src/storage/db.rs:903-909 | matching the stored pay type text gives the same amount as the pay rule applied to the parsed session, whatever text is stored |
| Storage.InvoiceItems | Launcher/src-tauri/src/storage/db.rs:936-950 | one line per selected session, in order, each naming its session and carrying the pay rule's amount, the session's rate or 0 and the "type - project" description |
| Storage.InvoiceItemIds | Launcher/src-tauri/src/storage/db.rs:945-949 | the lines of one invoice take the next consecutive line ids |
| Storage.InvoiceItemsSum | Launcher/src-tauri/src/storage/db.rs:903-909 | the line amounts add up to the invoice subtotal |
| Storage.InvoiceTotals | Launcher/src-tauri/src/storage/db.rs:911-912 | the total is the subtotal scaled by 1 + rate/100, an absent rate adds no tax, and a non-negative rate never lowers the total below the subtotal |
| Storage.NewInvoiceRecord | Launcher/src-tauri/src/storage/db.rs:915-931 | the inserted invoice is a Draft numbered after the current count, whose tax is subtotal times rate/100 and whose total is subtotal plus tax |
| Storage.InsertDescPermutes | Launcher/src-tauri/src/storage/db.rs:984 | inserting a session into the descending order keeps exactly the same sessions |
| Storage.InsertDescSorted | Launcher/src-tauri/src/storage/db.rs:984 | inserting a session keeps the list latest date first |
| Storage.ConsDesc | Launcher/src-tauri/src/storage/db.rs:984 | a session no earlier than every session of a descending list can lead it |
| Storage.NotLaterAfterLater | Launcher/src-tauri/src/storage/db.rs:984 | the date order used by ORDER BY is transitive in its non-strict form |
| Storage.SortDateDesc | Launcher/src-tauri/src/storage/db.rs:984 | the result is latest date first and a permutation of the input |
| Storage.WithTypeRates | Launcher/src-tauri/src/storage/db.rs:975-1000 | each open row is read with its own hourly rate or else its session type's |
| Storage.UninvoicedSessionsSpec | Launcher/src-tauri/src/storage/db.rs:971-1004 | exactly the sessions named on no invoice line are returned, latest date first, and a session's own rate takes precedence over its type's |
| Storage.Database.constructor | Launcher/src-tauri/src/storage/db.rs:41-53 | a fresh store holds the two default session types, Work at 30.0 per hour and Study without a rate, and nothing else |
| Storage.Database.AddSession | Launcher/src-tauri/src/storage/db.rs:182-201 | appends the row under the next id with the pay type stored as text, then upserts the project cache; no other table changes |
| Storage.Database.UpdateProjectCache | Launcher/src-tauri/src/storage/db.rs:411-423 | the cache becomes the upsert of the old cache, still one entry per key |
| Storage.Database.UnlockAchievement | Launcher/src-tauri/src/storage/db.rs:593-600 | INSERT OR IGNORE: returns true exactly when the id was not yet unlocked, and afterwards the id is unlocked; the set only grows |
| Storage.Database.CreateInvoice | Launcher/src-tauri/src/storage/db.rs:865-953 | appends the Draft invoice numbered after the current count with the selected sessions' subtotal, then one line per selected session under fresh line ids |
| Storage.Database.UpdateInvoiceStatus | Launcher/src-tauri/src/storage/db.rs:955-962 | the invoice with that id takes the new status and every other invoice is unchanged |
| Storage.Database.DeleteInvoice | Launcher/src-tauri/src/storage/db.rs:964-969 | removes that invoice's lines and then the invoice, keeping every other row |
| Storage.CreatedInvoiceConsistent | Launcher/src-tauri/src/storage/db.rs:865-953 | the stored subtotal is the sum of the line amounts and every line follows the pay rule for a selected session |
| Wellbeing.FragmentationScore | Launcher/src-tauri/src/commands.rs:508-512 | 100 with no sessions; otherwise 100 less the short share as a percentage, within [0, 100], 100 exactly when no session is short and 0 exactly when all are |
| Wellbeing.FocusScore | Launcher/src-tauri/src/commands.rs:518-522 | the capped sum of the length, fragmentation and streak points never exceeds 100 and is non-negative for non-negative inputs |
| Wellbeing.FocusScoreMonotone | Launcher/src-tauri/src/commands.rs:518-522 | a longer average, a better fragmentation score or a longer streak never lowers the focus score |
| Wellbeing.FocusScoreFull | Launcher/src-tauri/src/commands.rs:518-522 | four-hour sessions, no fragments and a seven-day streak give the full 100 |
| Wellbeing.GetFocusMetrics | Launcher/src-tauri/src/commands.rs:487-533 | count, hours and average are the summary of the sessions in the window; fragmentation counts the window's sessions under one hour; the streaks are calculate_streaks over all sessions, the longest 0 when there are none; the focus score combines them |
| Wellbeing.RatingPoints | Launcher/src-tauri/src/commands.rs:604-681 | the hours, longest-session, rest-day and consistency ratings carry 0 to 35, 25, 30 and 10 points, 0 exactly when ok, and are ok exactly below their thresholds of 50 hours, 8 hours, 4 rest days and a deviation of 4 hours |
| Wellbeing.RiskLevelOf | Launcher/src-tauri/src/commands.rs:692-700 | Critical from 70, High from 45, Moderate from 20 and Low below |
| Wellbeing.RiskLevelMonotone | Launcher/src-tauri/src/commands.rs:692-700 | a higher risk score never gives a lower level |
| Wellbeing.SumSquaredDeviation | Launcher/src-tauri/src/commands.rs:669-671 | a sum of squared deviations is never negative |
| Wellbeing.Variance | Launcher/src-tauri/src/commands.rs:667-675 | the population variance of the per-day hours is never negative, and 0 with no days |
| Wellbeing.SumOfConstant | Launcher/src-tauri/src/commands.rs:668-671 | days of equal hours have that mean and no deviation |
| Wellbeing.VarianceOfConstant | Launcher/src-tauri/src/commands.rs:667-675 | the same hours every day give no spread |
| Wellbeing.HoursPerDay | Launcher/src-tauri/src/commands.rs:661-665 | one hours total per distinct date of the window |
| Wellbeing.FactorRatings | Launcher/src-tauri/src/commands.rs:600-689 | four ratings: weekly hours over a fixed two weeks, the longest session, rest days out of a fixed fourteen, and the spread of daily hours |
| Wellbeing.TotalPointsBounds | Launcher/src-tauri/src/commands.rs:598-689 | the risk score lies between 0 and 100 and is 0 exactly when every factor is ok |
| Wellbeing.AdviceForMembers | Launcher/src-tauri/src/commands.rs:703-716 | no advice exactly when every factor is ok, and each non-ok factor's advice is listed |
| Wellbeing.AdviceForFour | Launcher/src-tauri/src/commands.rs:703-716 | with four factors the advice is each non-ok factor's own line, in factor order |
| Wellbeing.AdviceCount | Launcher/src-tauri/src/commands.rs:703-716 | there is exactly one advice line per non-ok factor |
| Wellbeing.FourFactors | Launcher/src-tauri/src/commands.rs:612-688 | the four factors are named and thresholded in the fixed order and carry the four ratings' severities |
| Wellbeing.Assess | Launcher/src-tauri/src/commands.rs:597-720 | exactly four factors in the fixed order with the ratings' severities; the score is the sum of their points; the level follows the score; one recommendation per non-ok factor or the single positive message |
| Wellbeing.GetBurnoutRisk | Launcher/src-tauri/src/commands.rs:586-728 | the assessment of the sessions in the window: four factors, a score between 0 and 100, the level of that score and the recommendations of the factors |
| Wellbeing.BurnoutRecommendations | Launcher/src-tauri/src/commands.rs:703-720 | all factors ok give exactly the one positive message; otherwise one recommendation per non-ok factor and no positive message |
| Finance.Project | Launcher/src-tauri/src/commands.rs:400-421 | a projection keeps the goal's id, name and remaining amount; weeks to complete exist exactly when savings are positive and then cover the remaining amount; the completion day exists exactly when the weeks do and is today plus the whole number of days in those weeks |
| Finance.SustainabilityBounds | Launcher/src-tauri/src/commands.rs:425-432 | for non-negative income and expenses the score lies in [0, 100]; with income it is above 50 exactly when income exceeds expenses, and with nothing saved it is income over expenses times 50 |
| Finance.InsightsShape | Launcher/src-tauri/src/commands.rs:434-456 | at most three insights: a deficit leads; the burnout warning appears exactly above 50 hours; the more-hours advice exactly under 20 hours with a deficit and at most 50 hours; the rate advice exactly under a rate of 25 with over 40 hours; low and great savings never both appear |
| Finance.Simulate | Launcher/src-tauri/src/commands.rs:387-469 | income is hours times rate, savings income less expenses, monthly and yearly figures scale by 4.33 and 52, one projection per goal in order, with the score and insights of those figures |
| Finance.SimulationExample | Launcher/src-tauri/src/commands.rs:425-456 | 40 hours at 20 with 500 of expenses saves 300 a week, yields only the great-savings insight and scores 68.75 |
| Finance.Baseline | Launcher/src-tauri/src/commands.rs:472-482 | the baseline hours are the average weekly hours; with hours the rate times the hours is the average weekly income; without hours the rate is the default 30 |
| Finance.BaselineRate | Launcher/src-tauri/src/commands.rs:474-480 | the implied rate is the pay over the hours of the same four-week window, the division by four cancelling |
| Finance.WindowsDisjoint | Launcher/src-tauri/src/commands.rs:866-886 | the recent and older windows never share a date, and together they hold exactly the parsed dates after eight weeks ago |
| Finance.TrendOf | Launcher/src-tauri/src/commands.rs:888-894 | increasing exactly when recent exceeds 1.1 times older, decreasing exactly when not increasing and recent is below 0.9 times older, stable otherwise |
| Finance.TrendFromNothing | Launcher/src-tauri/src/commands.rs:888-894 | with no older income any positive recent income is an increase, and no income at all is stable |
| Finance.AlmostComplete | Launcher/src-tauri/src/commands.rs:911-923 | an insight for exactly the goals whose progress is at least 90 % and below 100 % |
| Finance.TotalRemaining | Launcher/src-tauri/src/commands.rs:940 | the total still to save over all goals is never negative |
| Finance.Analyze | Launcher/src-tauri/src/commands.rs:858-961 | the averages are the four-week window's, the projections scale the weekly income by 4.33 and 52, and the trend compares the recent and older windows |
| Finance.AnalysisInsights | Launcher/src-tauri/src/commands.rs:899-934 | the income insight appears exactly when there is income, and the high-hours insight exactly above 50 hours a week |
| Finance.AnalysisRecommendations | Launcher/src-tauri/src/commands.rs:936-950 | the clear-the-goals estimate appears exactly when there is income and some goal, and the pipeline review exactly when income is decreasing |
| Finance.ClearGoalsEstimate | Launcher/src-tauri/src/commands.rs:939-945 | the estimated weeks times the weekly income give the total remaining over all goals |
| Commands.CheckNewSession | Launcher/src-tauri/src/commands.rs:50-56 | a new session is accepted exactly when its hours lie in [0.1, 24] and its project name is not blank; hours are checked first and each fault has its own message |
| Commands.NewSessionAgreesWithValidate | Launcher/src-tauri/src/commands.rs:50-64 | adding accepts what updating accepts apart from the empty date, which only the update checks; with a blank name and too many hours the two report different errors |
| Commands.CheckNewGoal | Launcher/src-tauri/src/commands.rs:79-85 | a new goal is accepted exactly when its target is positive and its name is not blank; the target is checked first, and each failure has its own message |
| Commands.NewGoalValidates | Launcher/src-tauri/src/commands.rs:79-87 | a goal that passed the add check and has nothing contributed yet passes the goal validation, with 0 % progress and the whole target remaining |
| Commands.CheckContribution | Launcher/src-tauri/src/commands.rs:96-99 | a contribution is accepted exactly when it is positive |
| Commands.PendingHabitsSpec | Launcher/src-tauri/src/commands.rs:791-815 | a habit is pending exactly when it is active, has no log today, and today's sessions meet its trigger: a session count, an hours total, or daily; an unknown trigger never fires |
| Commands.DailyHabitPending | Launcher/src-tauri/src/commands.rs:808 | an active daily habit not logged today is pending whatever was worked |
| Commands.CanCreate | Launcher/src-tauri/src/commands.rs:1057-1093 | the check reports the current count and the feature name, carries the tier's cap for that feature as its limit, and allows creation exactly when the tier has no cap or the count is below it |
| Commands.CanCreateByTier | Launcher/src-tauri/src/commands.rs:1057-1093 | Free allows a session type while fewer than 2 exist and a goal while fewer than 3 exist; paid tiers always allow, without a cap |
| Achievements.FactsOf | Launcher/src-tauri/src/storage/db.rs:652-700 | the session count, the number of distinct session days and the paid-session flag are read from the stored sessions |
| Achievements.UnknownIdNeverMet | Launcher/src-tauri/src/commands.rs:378 | an id outside the table never meets its condition |
| Achievements.PresenceNested | Launcher/src-tauri/src/commands.rs:354-372 | the thresholds nest: ten sessions imply one, seven days imply three, four weeks imply three, five analytics days imply one |
| Achievements.ToUnlockMembers | Launcher/src-tauri/src/commands.rs:325-340 | an id is reported exactly when it is in the table, was not unlocked at the start and its condition holds |
| Achievements.ToUnlockDistinct | Launcher/src-tauri/src/commands.rs:325-340 | with distinct table ids no id is reported twice |
| Achievements.ToUnlockStep | Launcher/src-tauri/src/commands.rs:325-340 | each row of the table adds at most its own id, which was not reported before |
| Achievements.UnlockPass | Launcher/src-tauri/src/commands.rs:317-342 | the loop reports exactly the locked ids whose condition holds, in table order, and unlocks exactly those |
| Achievements.CheckAndUnlock | Launcher/src-tauri/src/commands.rs:316-343 | the pass evaluates the conditions over the facts read from the store, with the sustainable-week scan over the per-date hour totals of all sessions in date order, and afterwards the unlocked set is the old one plus the reported ids |
| Achievements.UnlockedReport | Launcher/src-tauri/src/commands.rs:316-382 | over the fixed table the report has no duplicate and holds exactly the achievements that were locked and are now met |
| LicenseUtils.KeyPrefix | Launcher/backend/lib/utils.ts:13 | the prefix is "LIFE" or "PRO" |
| LicenseUtils.Group | Launcher/backend/lib/utils.ts:5-6 | a group is four symbols, each the alphabet symbol the generator drew |
| LicenseUtils.GroupSymbols | Launcher/backend/lib/utils.ts:4-6 | a group holds only symbols of the 31-character alphabet and so never the separator |
| LicenseUtils.SplitFour | Launcher/backend/lib/utils.ts:15 | four separator-free fields joined by a separator split back into the same four fields |
| LicenseUtils.KeyFields | Launcher/backend/lib/utils.ts:12-16 | a key splits at '-' into exactly its prefix and its three groups |
| LicenseUtils.KeyTier | Launcher/backend/lib/utils.ts:13 | reading the tier off a key never gives free |
| LicenseUtils.KeyTierRoundTrip | Launcher/backend/lib/utils.ts:12-16 | a generated key announces the tier it was made for: "LIFE" for lifetime and "PRO" for every other tier |
| LicenseUtils.VerifyWebhookSignature | Launcher/backend/lib/utils.ts:21-29 | the comparison throws exactly when the signature and the digest differ in length, and matches exactly when they are equal |
| LicenseUtils.EmptySignatureThrows | Launcher/backend/lib/utils.ts:28 | an empty signature against a non-empty digest throws rather than answering false |
| LicenseUtils.ParseTierFromProduct | Launcher/backend/lib/utils.ts:34-38 | never free; lifetime exactly when the lower-cased variant name, or the product name when the variant is missing or empty, contains "lifetime" |
| LicenseUtils.LifetimeVariant | Launcher/backend/lib/utils.ts:35-36 | a variant named "Lifetime Access" gives lifetime |
| LicenseUtils.LifetimeProduct | Launcher/backend/lib/utils.ts:35-36 | without a variant, or with an empty one, the product name decides, whatever its letter case |
| LicenseUtils.VariantOverrides | Launcher/backend/lib/utils.ts:35 | a non-empty variant name overrides a product name that mentions lifetime |
| LicenseUtils.CalculateExpiryDate | Launcher/backend/lib/utils.ts:43-56 | the end date when there is one, else the renewal date plus three days, and none exactly when both are missing |
| LicenseUtils.ValidityMeaning | Launcher/backend/lib/utils.ts:61-69 | valid exactly when active and either without expiry or not yet past it; the expiry instant itself is still valid |
| LicenseUtils.ValidityAntitone | Launcher/backend/lib/utils.ts:67 | a licence valid now was valid at every earlier instant |
| LicenseUtils.ErrorResponse | Launcher/backend/lib/utils.ts:74-76 | an error body carrying the message, with the given status |
| LicenseUtils.SuccessResponse | Launcher/backend/lib/utils.ts:81-83 | a data body carrying the data, with the given status |
| LicenseUtils.DefaultStatuses | Launcher/backend/lib/utils.ts:74-83 | an error reply defaults to status 400 and a success reply to 200 |
| LicenseStore.FeatureLimitsAgree | Launcher/backend/lib/db.ts:58-84 | the server's limits agree with the desktop table for every tier: Free allows 2 session types and 3 goals, Pro and Lifetime get identical limits |
| LicenseStore.OrNull | Launcher/backend/lib/db.ts:106-109 | an absent or empty optional field is stored as null and any other value unchanged |
| LicenseStore.StoredMaxActivations | Launcher/backend/lib/db.ts:110 | an absent or zero activation limit is stored as 3, any other value unchanged |
| LicenseStore.Stored | Launcher/backend/lib/db.ts:100-115 | the created row is active, carries the key, tier and expiry given, the defaulted activation limit and the null-defaulted optional fields |
| LicenseStore.FirstMatch | Launcher/backend/lib/db.ts:118-144 | the position of the first row whose column holds the value, or none exactly when no row does |
| LicenseStore.Lookup | Launcher/backend/lib/db.ts:118-144 | the row found holds the value in the column, and none is found exactly when no row does |
| LicenseStore.WithStatus | Launcher/backend/lib/db.ts:146-150 | only the named licence's status changes; an unknown id changes nothing |
| LicenseStore.WithExpiry | Launcher/backend/lib/db.ts:152-156 | only the named licence's expiry changes; an unknown id changes nothing |
| LicenseStore.Upsert | Launcher/backend/lib/db.ts:193-201 | the (licence, device) pair is present with the new activation time; an existing pair keeps its device name, a new one stores the null-defaulted name; every other pair is unchanged |
| LicenseStore.WithoutLicense | Launcher/backend/lib/db.ts:209-213 | exactly the activations of other licences remain, unchanged |
| LicenseStore.Mark | Launcher/backend/lib/db.ts:224-229 | the event is recorded afterwards; an already-recorded event leaves the table unchanged |
| LicenseStore.UpsertDevices | Launcher/backend/lib/db.ts:193-201 | adding a device adds it to that licence's set only, and the count grows by one exactly when the device was new |
| LicenseStore.RemoveDevice | Launcher/backend/lib/db.ts:203-207 | removing takes exactly that device from that licence's set and leaves the other licences' sets alone |
| LicenseStore.RemoveAllDevices | Launcher/backend/lib/db.ts:209-213 | removing all empties that licence's set and leaves the other licences' sets alone |
| LicenseStore.MarkIdempotent | Launcher/backend/lib/db.ts:217-229 | marking an event twice is marking it once, it is processed afterwards, and earlier events are untouched |
| LicenseStore.AppendKeepsTable | Launcher/backend/lib/db.ts:100-115 | a new row at the next position, with a new key and a new or absent order id, keeps ids as positions and keys and order ids unique |
| LicenseStore.UpdatesKeepTable | Launcher/backend/lib/db.ts:146-156 | status and expiry updates keep the table well formed |
| LicenseStore.Store.constructor | Launcher/backend/lib/db.ts:87-88 | an empty store |
| LicenseStore.Store.CreateLicense | Launcher/backend/lib/db.ts:90-116 | fails, changing nothing, exactly when the key or the order id is already taken; otherwise appends the stored row at the next position |
| LicenseStore.Store.UpdateLicenseStatus | Launcher/backend/lib/db.ts:146-150 | the table becomes the status update of the old one |
| LicenseStore.Store.UpdateLicenseExpiry | Launcher/backend/lib/db.ts:152-156 | the table becomes the expiry update of the old one |
| LicenseStore.Store.AddActivation | Launcher/backend/lib/db.ts:193-201 | the activations become the upsert of the old ones |
| LicenseStore.Store.RemoveActivation | Launcher/backend/lib/db.ts:203-207 | exactly the (licence, device) pair is removed |
| LicenseStore.Store.RemoveAllActivations | Launcher/backend/lib/db.ts:209-213 | every activation of the licence is removed |
| LicenseStore.Store.MarkEventProcessed | Launcher/backend/lib/db.ts:224-229 | the processed events become the insert-or-ignore of the event |
| LicenseRoutes.Activate | Launcher/backend/app/api/license/activate/route.ts:11-70 | the reply is the chain's answer for the licence found by key and its devices before the call, and only a new device on a valid licence with room is added to the store |
| LicenseRoutes.ActivateRefusals | Launcher/backend/app/api/license/activate/route.ts:15-32 | a missing key or device is a 400, an unknown key a 404 "License not found", and an invalid licence a 403 saying revoked when revoked and expired otherwise |
| LicenseRoutes.ActivateOnValid | Launcher/backend/app/api/license/activate/route.ts:35-69 | on a valid licence a device already present succeeds and reports the unchanged count; a new device is refused with 403 when the count has reached the maximum, and is otherwise added, reporting one more, at most the maximum |
| LicenseRoutes.ActivateOutcome | Launcher/backend/app/api/license/activate/route.ts:36-69 | after any successful activation the device is in the licence's set, and a set within its maximum stays within it |
| LicenseRoutes.Validate | Launcher/backend/app/api/license/validate/route.ts:10-62 | the route answers an error exactly when the key is missing, otherwise 200; "not found" exactly when no licence has the key; a valid reply is for a valid licence and reports its tier and its device count |
| LicenseRoutes.ValidateCases | Launcher/backend/app/api/license/validate/route.ts:14-38 | a missing key is the only error reply, with 400; every other reply is 200; an unknown key is valid false; an invalid licence is valid false with the free tier and free limits |
| LicenseRoutes.ValidateOnValid | Launcher/backend/app/api/license/validate/route.ts:40-61 | a valid licence reports its own tier, that tier's limits and its device count; it is activated exactly when a device id is given and present, and can activate exactly when activated or below the maximum |
| LicenseRoutes.ValidateAgreesWithActivate | Launcher/backend/app/api/license/validate/route.ts:60 | for a valid licence and a given device, can_activate holds exactly when the activate route would not refuse that device |
| LicenseRoutes.Deactivate | Launcher/backend/app/api/license/deactivate/route.ts:10-38 | a missing field is a 400 and an unknown key a 404, both changing nothing; otherwise exactly that device's activation is removed, present or not, and the count read back afterwards is reported |
| LicenseRoutes.DeactivateOutcome | Launcher/backend/app/api/license/deactivate/route.ts:26-37 | afterwards the device is not in the licence's set, the count drops by one exactly when it was there, and other licences keep their sets |
| Webhook.EventKeyInjective | Launcher/backend/app/api/webhooks/lemonsqueezy/route.ts:76 | the idempotence key `<event>-<id>` tells distinct events apart whenever event names hold no '-', both directions |
| Webhook.HandlerFor | Launcher/backend/app/api/webhooks/lemonsqueezy/route.ts:87-112 | payment success is handled as an update and payment failure as a cancellation, and exactly the names outside the switch's seven cases are unhandled |
| Webhook.RenewedStatus | Launcher/backend/app/api/webhooks/lemonsqueezy/route.ts:206-209 | a renewal turns an expired licence active and leaves active and revoked ones unchanged |
| Webhook.CancelledStatus | Launcher/backend/app/api/webhooks/lemonsqueezy/route.ts:223-235 | a cancellation with an end date expires the licence only if that date is already past; without one it expires at once |
| Webhook.RevokedStays | Launcher/backend/app/api/webhooks/lemonsqueezy/route.ts:192-259 | a revoked licence is never reactivated by a renewal or a cancellation and stays invalid |
| Webhook.HandleOrderCreated | Launcher/backend/app/api/webhooks/lemonsqueezy/route.ts:124-159 | no order item: nothing stored and no error; otherwise exactly one licence (tier from the product, three activations, the order id) is appended when its key and order id are free, and the handler fails when the insert is refused or the email is not delivered |
| Webhook.HandleSubscriptionCreated | Launcher/backend/app/api/webhooks/lemonsqueezy/route.ts:161-190 | appends exactly one pro licence with the subscription id and the computed expiry when its key is free; fails when refused or the email is not delivered |
| Webhook.HandleSubscriptionUpdated | Launcher/backend/app/api/webhooks/lemonsqueezy/route.ts:192-212 | an unknown subscription changes nothing; otherwise only that licence changes: expiry recomputed from renews_at/ends_at and the status renewed |
| Webhook.HandleSubscriptionCancelled | Launcher/backend/app/api/webhooks/lemonsqueezy/route.ts:214-238 | an unknown subscription changes nothing; otherwise only that licence changes: expiry set to the end date when given and the status as the cancellation rule says |
| Webhook.HandleOrderRefunded | Launcher/backend/app/api/webhooks/lemonsqueezy/route.ts:240-259 | an unknown order changes nothing; otherwise the licence is revoked, every one of its activations removed, and the handler fails only when an address exists and the email fails |
| Webhook.RefundLeavesNoDevices | Launcher/backend/app/api/webhooks/lemonsqueezy/route.ts:240-251 | a refund of a known order leaves its licence revoked with no devices and every other licence's devices as they were |
| Webhook.Dispatch | Launcher/backend/app/api/webhooks/lemonsqueezy/route.ts:87-112 | routes each event name (payment success as an update, payment failure as a cancellation) to its handler; the licence table and the activations afterwards are the handler's result: an unhandled name changes nothing, and only a refund of a known order touches activations, removing that licence's |
| Webhook.HandleWebhook | Launcher/backend/app/api/webhooks/lemonsqueezy/route.ts:56-122 | missing secret is 500; a signature of the digest's length that differs is 401, and one of another length (a missing header included) makes the comparison throw and gives 500 "Internal error", all three changing nothing; an event already processed is acknowledged with no effect; otherwise the handler runs and the event is marked and 200 returned exactly when the handler returns, else 500 with the event left unmarked; the licence table and activations are then those the handler leaves |
| Webhook.UnsignedRequestThrows | Launcher/backend/app/api/webhooks/lemonsqueezy/route.ts:60-71 | a request without an x-signature header is compared as '' and, the digest being non-empty, throws |
| AiChat.RateLimitKey | Launcher/backend/app/api/ai/chat/route.ts:42-44 | the limiter key is the licence key, a ':' and the device id |
| AiChat.RateLimitKeyInjective | Launcher/backend/app/api/ai/chat/route.ts:42-44 | for licence keys without ':' two limiter keys are equal exactly when licence and device both are, so devices do not share a quota |
| AiChat.DailyLimit | Launcher/backend/app/api/ai/chat/route.ts:9-10 | a free licence gets 10 queries a day, every other tier 100 |
| AiChat.Window | Launcher/backend/app/api/ai/chat/route.ts:50-55 | a missing or elapsed record is replaced by a fresh count of zero ending at the coming midnight; a live one is kept |
| AiChat.DecideMeaning | Launcher/backend/app/api/ai/chat/route.ts:46-68 | a call is refused exactly when the window's count has reached the limit, with nothing remaining and nothing stored; an allowed call stores the count plus one and reports the limit less the new count, never negative |
| AiChat.AtMostLimit | Launcher/backend/app/api/ai/chat/route.ts:46-68 | within one window, any run of calls is allowed at most the limit less the count already spent |
| AiChat.FreshWindowLimit | Launcher/backend/app/api/ai/chat/route.ts:46-68 | from a fresh window, at most the daily limit of calls are allowed before midnight |
| AiChat.RateLimiter.constructor | Launcher/backend/app/api/ai/chat/route.ts:7 | the limiter starts with no records |
| AiChat.RateLimiter.CheckRateLimit | Launcher/backend/app/api/ai/chat/route.ts:46-68 | answers as the decision rule says and stores the key's record only when the call is allowed |
| AiChat.GateMeaning | Launcher/backend/app/api/ai/chat/route.ts:75-92 | a request passes to the quota exactly when all fields are present, the licence exists and is valid, and the device is activated for it; every other request is a 400 or 403 rejection |
| AiChat.Chat | Launcher/backend/app/api/ai/chat/route.ts:70-145 | rejections before the quota leave the limiter unchanged; a reached limit answers 429 with the limit and stores nothing; an allowed call spends one unit and answers the completion (or the fallback text when empty) or a 502 when the completion service fails |
| I18n.WalkUndefined | Launcher/src/lib/stores/i18n.ts:92-95 | once the value is undefined, every further segment leaves it undefined |
| I18n.WalkAppend | Launcher/src/lib/stores/i18n.ts:92-95 | following a path in two parts is following the first part, then the second from where it ended |
| I18n.WalkStopsUndefined | Launcher/src/lib/stores/i18n.ts:92-95 | stopping the walk at the first undefined segment gives what walking the whole path would |
| I18n.Placeholder | Launcher/src/lib/stores/i18n.ts:102 | a placeholder is the parameter name in braces |
| I18n.SubstituteAppend | Launcher/src/lib/stores/i18n.ts:100-104 | parameters apply one after another, each to the text the earlier ones produced |
| I18n.SubstituteAbsent | Launcher/src/lib/stores/i18n.ts:100-104 | a text containing none of the parameters' placeholders comes back unchanged |
| I18n.Translate | Launcher/src/lib/stores/i18n.ts:85-107 | the loop that breaks at the first undefined segment and the in-order replacement compute exactly the translation: the key itself with no table or when the key does not name a string, otherwise that string with every placeholder filled in |
| I18n.MissingSegment | Launcher/src/lib/stores/i18n.ts:92-97 | a key with any undefined segment translates to the key itself, whatever the parameters |
| I18n.SubtreeIsNotText | Launcher/src/lib/stores/i18n.ts:97 | a key naming a group of translations rather than a string translates to the key itself |
| I18n.NestedKey | Launcher/src/lib/stores/i18n.ts:89-95 | a dotted key leads where its tail leads from the group its first segment names, and translates alike when that is a string |
| I18n.NoPlaceholders | Launcher/src/lib/stores/i18n.ts:97-106 | with nothing to fill in, the translation is the table's string itself |
| I18n.DefaultLanguage | Launcher/src/lib/stores/i18n.ts:32-44 | the start-up language is always one of the seven supported codes |
| I18n.DefaultLanguageMeaning | Launcher/src/lib/stores/i18n.ts:32-44 | English without a window; else a supported saved choice; else a supported browser base language; else English, and any other answer came from the saved choice or the browser |
| I18n.BrowserRegion | Launcher/src/lib/stores/i18n.ts:40-41 | a supported browser language with a region suffix selects its base language when nothing is saved |
| I18n.SavedChoiceWins | Launcher/src/lib/stores/i18n.ts:36-37 | a saved supported choice wins over whatever the browser reports |
| I18n.BundleFor | Launcher/src/lib/stores/i18n.ts:17-27 | the table loaded is always one of the supported ones |
| I18n.BundleForMeaning | Launcher/src/lib/stores/i18n.ts:17-27 | each supported language loads its own table and every other code the English one |
| I18n.Localizer.constructor | Launcher/src/lib/stores/i18n.ts:46-48 | the store starts on the default language with its table current and cached |
| I18n.Localizer.InitTranslations | Launcher/src/lib/stores/i18n.ts:67-72 | a table is loaded into the cache only when missing, and the language's table becomes current; the cache keeps holding the right table for each language |
| I18n.Localizer.SetLanguage | Launcher/src/lib/stores/i18n.ts:52-57 | the choice is saved only when a window exists, the new language becomes current with its own table, and cached tables are kept |
| WorkClock.WorkSession.constructor | WorkClock.cpp:9-17 | a new session has empty date and name and indeterminate hours |
| WorkClock.WorkSession.SetHours | WorkClock.cpp:19-21 | hours are stored only when 0 < h <= 24; otherwise the field is unchanged |
| WorkClock.WorkSession.SetName | WorkClock.cpp:23-25 | an empty name is ignored, any other replaces the field |
| WorkClock.WorkSession.SetDate | WorkClock.cpp:27-29 | an empty date is ignored, any other replaces the field |
| WorkClock.Made | WorkClock.cpp:68-72 | a fresh session after the three setters keeps the date and name given and the hours only when they are valid |
| WorkClock.NewSession | WorkClock.cpp:68-72 | building a session through the setters gives exactly that value |
| WorkClock.FirstAccepted | WorkClock.cpp:53-65 | the answer that ends the prompt is the first one that is a number in (0, 24], and no earlier answer is |
| WorkClock.ReadHours | WorkClock.cpp:51-65 | the prompt repeats after every failed or out-of-range answer and returns the first accepted one, which is valid hours, after exactly that many answers |
| WorkClock.LastRound | WorkClock.cpp:74-81 | the loop ends after the first round answered 'n' or 'N', and no earlier round was |
| WorkClock.AddedSessions | WorkClock.cpp:40-82 | each round adds one session with its date and name, and every session added at the console has valid hours |
| WorkClock.WorkLog.constructor | WorkClock.cpp:144 | the log starts with the sessions given |
| WorkClock.WorkLog.AddSession | WorkClock.cpp:36-83 | appends exactly one session per round, in order, up to and including the first round answered 'n' or 'N', and consumes exactly those rounds |
| WorkClock.WordLength | WorkClock.cpp:97 | a word extracted by `>>` holds no whitespace and ends at whitespace or the end of input |
| WorkClock.WordThenSpace | WorkClock.cpp:97 | a word followed by whitespace is extracted as one token |
| WorkClock.TokensAppend | WorkClock.cpp:97 | text ending in whitespace tokenizes apart from whatever follows it |
| WorkClock.SaveToFile | WorkClock.cpp:108-122 | no output when the file cannot be opened; otherwise one `date name hours` line per session, in order |
| WorkClock.SerializeAppend | WorkClock.cpp:115-119 | the file of a list is the files of its parts one after another, one line per session in order |
| WorkClock.LoadFromFile | WorkClock.cpp:85-106 | an empty list when the file cannot be opened; otherwise sessions built through the setters from consecutive triples of words until a triple is missing or its hours do not read as a number |
| WorkClock.ParseTriples | WorkClock.cpp:97-103 | the i-th session loaded comes from the i-th triple of words, whose third reads as a number, and loading stops at the first triple that is missing or whose third does not |
| WorkClock.ParseEntry | WorkClock.cpp:97-103 | the i-th session loaded is built from the i-th triple of words, whose third reads as a number |
| WorkClock.ParseStops | WorkClock.cpp:97-103 | loading uses at most the words there are and stops at the first triple whose third word does not read as a number |
| WorkClock.LineTokens | WorkClock.cpp:115-119 | a saved line of single-word fields reads back as exactly its three words |
| WorkClock.SaveLoadRoundTrip | WorkClock.cpp:85-122 | loading what was saved gives back the same list whenever every date and name is a non-empty single word and every hours value is valid and prints as a word that reads back |
| WorkClock.NameWithSpaceLost | WorkClock.cpp:97-103 | a name holding a space breaks the format: the second word of the name is read as hours and that session is lost |

## Left out

- Network I/O is not modelled: the AI advisor and licence activation calls of the desktop app, the completion service and email delivery. The service call and email delivery become an outcome passed in, and the prompt text is left out.
- The HMAC-SHA256 digest and nanoid are not modelled. The hex digest of the body is an input, and the random key characters are draws given in advance. Only the key format is modelled.
- The wall clock is a parameter: today, now and the coming midnight.
- The licence and event timestamps the store writes are left out: `created_at`, `updated_at` and `processed_at`. An activation's `activated_at` is modelled, taking the clock passed in.
- SQL is modelled only through its effect. The schema, migrations, seeding and foreign keys are not part of this model, and tables are sequences of records.
- The SQL date filters compare date strings. The model admits only well-formed dates to a date range, which differs from the source for malformed stored dates.
- SQLite's calendar-week and weekend queries, and the app-event counts that some achievements use, are reported facts (`ActivityFacts`). They are not computed.
- `getLicenseByKey`, `getLicenseByOrderId` and `getLicenseBySubscriptionId` take the first match in insertion order. The source's query has no ORDER BY.
- Calendar.DateLess: the model places every malformed date after every well-formed one, and orders malformed dates among themselves by their text. The source sorts the raw strings, so "" sorts before every ISO date and "2024-01-01x" sorts between "2024-01-01" and "2024-01-02". The lemmas below inherit this whenever a stored date does not parse.
- Calendar.Date: a well-formed date is its day number. A non-canonical string that chrono still parses, such as "2024-1-5", cannot be represented, and neither can its text order.
- Calendar.SortedDistinct: "ascending" is the model's order, so for malformed dates it differs from the source's string sort (see Calendar.DateLess).
- Calendar.SortedIsoFirst: holds for the model's order only. In the source's string order "" comes before every ISO date.
- Streaks.LongestRun: requires well-formed dates first, which the model's order guarantees. It does not model lists with a malformed date before or between well-formed ones, where the source skips the pairs that involve it.
- Streaks.CalculateStreaks: the longest streak follows the model's date order. For "2024-01-01", "2024-01-01x" and "2024-01-02" the source returns 1, while the model puts the malformed date last and returns 2.
- Analytics.DailyBreakdown: the entries are ascending in the model's order, not by the raw strings, when a stored date is malformed.
- Analytics.DailyTotals: the totals are in the model's date order, which differs from ORDER BY date only when a stored date is malformed.
- Analytics.HasPacedWeek: the seven latest dates follow the model's order. A session dated "" counts among them here, while ORDER BY date DESC LIMIT 7 ranks "" last.
- Analytics.HasPacedWeekMeaning: the seven latest dates it speaks of follow the model's order (see Analytics.HasPacedWeek).
- Storage.NotLaterAfterLater: the order proved transitive is the model's, not the text order that ORDER BY s.date DESC applies to malformed dates.
- Storage.SortDateDesc: sorts latest first in the model's order, which puts malformed dates first and so differs from ORDER BY s.date DESC's string order for malformed dates.
- Storage.UninvoicedSessionsSpec: "latest date first" is the model's order, so malformed dates come first here. In the SQL text order "" comes last, and other malformed strings sort among the ISO dates. Sessions with equal dates stay in insertion order, where the source's ORDER BY leaves their order unspecified.
- LicenseUtils.CalculateExpiryDate: the renewal date plus three days is modelled as 3 × 86 400 000 ms. The source's `setDate(getDate() + 3)` adds three local calendar days, which differs across a daylight-saving change.
- LicenseUtils.VerifyWebhookSignature: lengths are counted in characters. `Buffer.from` counts UTF-8 bytes, so a signature with non-ASCII characters can compare differently: it can have the digest's character count but a different byte length.
- Analytics.GetAnalytics: the rows in range keep the table's order instead of ORDER BY s.date (db.rs:437). A category takes its colour from its first row (db.rs:485-492), and session-type names may repeat. So when two types share a name, the model can pick the colour of the earlier-inserted session while the source picks that of the earlier-dated one. The totals, the daily and weekday breakdowns and the summary do not depend on the order.
- Text.ToLowerAscii: lowers the ASCII letters A-Z only. `toLowerCase()` lowers all of Unicode and can change the length ("İ" becomes "i" followed by a combining dot). The "lifetime" test can then differ only for a label whose non-ASCII letters lower-case into letters of "lifetime".
- WorkClock.LoadFromFile: `>>` into a double is modelled as reading a whole word. The source stops inside a word such as "3.5x", keeps 3.5, and reads "x" as the next date; the model instead treats such a word as a failed read and stops loading.
- IEEE-754 rounding, NaN and infinities, float-to-integer casts and `format!` display strings are not modelled. Amounts are exact reals.
- Finance.SustainabilityScore: when savings are not positive and expenses are 0, the model returns 0. That case means a negative income, and the source then divides by zero and gets negative infinity.
- Daylight-saving shifts in the local-midnight window bounds are not modelled. A day is a day number.
- Missing request fields are the empty string or false, so JSON parse failures and non-string fields are not modelled.
- AiChat.Chat: the source's catch-all 500 for errors other than the completion service's is not modelled. The completion outcome is either an answer or a service error (502).
- I18n: `RegExp` special characters in parameter names, and `$` patterns in replacement values, are not modelled. Each `{name}` is replaced literally.
- I18n: indexing into a string leaf (JavaScript character access) is modelled as undefined. Parameters arrive already converted by `String(val)`, in `Object.entries` order.
- I18n.Localizer: asynchronous loading is not modelled. Concurrent `initTranslations` calls, and the order in which subscribers run, are modelled as one call completing before the next.
- WorkClock: how C++ prints and reads a double is the pair of parameters `show` and `read`. The round trip assumes hours print as a word that reads back exactly.
- WorkClock.ReadHours: `operator>>` is given each answer as a whole number or a failure. Partial numeric prefixes are not modelled. The hours left indeterminate by a default-constructed session are a parameter `unset`.
- WorkClock.WorkLog.AddSession: console input is a finite list of rounds containing a stopping answer. End of input, where the source would loop forever, is not modelled.
- The console menu, `showSessions` and prompt texts are left out as user interface.
- The `Mutex` around the connection and the Tauri state are left out as plumbing.
- Commands not listed above, the admin licence route and the UI stores are left out as pass-through or presentation.
