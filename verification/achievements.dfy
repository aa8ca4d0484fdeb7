/**
 * Achievement conditions and the unlocking pass over the fixed table.
 */
module Achievements {
  import opened Calendar
  import opened Models
  import opened Logic
  import Analytics
  import Storage

  /**
   * What the app-event log and SQLite's calendar-week and weekend queries
   * report; these tables and date functions are not part of this model.
   */
  datatype ActivityFacts = ActivityFacts(
    analyticsViewDays: nat,
    analyticsRanges: nat,
    analyticsAndAdvisorSameDay: bool,
    humanWeekend: bool,
    sessionWeeks: nat)

  /** Every fact the conditions consult. */
  datatype Facts = Facts(
    totalSessions: nat,
    distinctSessionDays: nat,
    totalHours: real,
    hasPaidSession: bool,
    pacedWeek: bool,
    sustainableWeek: bool,
    activity: ActivityFacts)

  function StoredHours(r: Storage.StoredSession): real { r.hours }

  /** `has_paid_session`: stored as Hourly or Fixed with a positive rate or amount (a missing one compares false). */
  predicate IsPaid(r: Storage.StoredSession) {
    (r.payType == Storage.W.Some("Hourly") || r.payType == Storage.W.Some("Fixed"))
    && ((r.hourlyRate.Some? && r.hourlyRate.value > 0.0) || (r.fixedAmount.Some? && r.fixedAmount.value > 0.0))
  }

  /** The session facts read from the store, the rest as reported. */
  function FactsOf(rs: seq<Storage.StoredSession>, types: seq<Storage.SessionType>, sustainableWeek: bool, activity: ActivityFacts): (f: Facts)
    ensures f.totalSessions == |rs| && f.distinctSessionDays == |set r | r in rs :: r.date|
    ensures f.hasPaidSession <==> exists r :: r in rs && IsPaid(r)
  {
    Facts(|rs|, |set r | r in rs :: r.date|, Sum(rs, StoredHours), exists r :: r in rs && IsPaid(r),
      Analytics.HasPacedWeek(Storage.ReadSessions(rs, types)), sustainableWeek, activity)
  }

  /** `check_achievement_condition`; an id outside the table is never met. */
  predicate Condition(id: string, f: Facts) {
    if id == "first_step" then f.totalSessions >= 1
    else if id == "back_again" then f.distinctSessionDays >= 3
    else if id == "getting_comfortable" then f.totalSessions >= 10
    else if id == "part_of_routine" then f.distinctSessionDays >= 7
    else if id == "curious_mind" then f.activity.analyticsViewDays >= 1
    else if id == "pattern_noticed" then f.activity.analyticsViewDays >= 5
    else if id == "zoomed_out" then f.activity.analyticsRanges >= 3
    else if id == "connecting_dots" then f.activity.analyticsAndAdvisorSameDay
    else if id == "paced_yourself" then f.pacedWeek
    else if id == "sustainable_week" then f.sustainableWeek
    else if id == "human_weekend" then f.activity.humanWeekend
    else if id == "long_run" then f.activity.sessionWeeks >= 3
    else if id == "one_full_month" then f.activity.sessionWeeks >= 4
    else if id == "hundred_hours" then f.totalHours >= 100.0
    else if id == "first_dollar" then f.hasPaidSession
    else false
  }

  function Ids(defs: seq<AchievementDef>): (ids: seq<string>)
    ensures |ids| == |defs| && forall i :: 0 <= i < |defs| ==> ids[i] == defs[i].id
  {
    seq(|defs|, i requires 0 <= i < |defs| => defs[i].id)
  }

  /** Every id the conditions know is in the table, so any other id is never met. */
  lemma UnknownIdNeverMet(id: string, f: Facts)
    requires id !in Ids(Achievements)
    ensures !Condition(id, f)
  {
    var ids := Ids(Achievements);
    assert ids == ["first_step", "back_again", "getting_comfortable", "part_of_routine",
      "curious_mind", "pattern_noticed", "zoomed_out", "connecting_dots",
      "paced_yourself", "sustainable_week", "human_weekend",
      "long_run", "one_full_month", "hundred_hours", "first_dollar"];
  }

  /** Presence thresholds nest: ten sessions imply one, seven days imply three. */
  lemma PresenceNested(f: Facts)
    ensures Condition("getting_comfortable", f) ==> Condition("first_step", f)
    ensures Condition("part_of_routine", f) ==> Condition("back_again", f)
    ensures Condition("one_full_month", f) ==> Condition("long_run", f)
    ensures Condition("pattern_noticed", f) ==> Condition("curious_mind", f)
  {
  }

  /** The ids, in table order, that were not unlocked before and whose condition holds. */
  function ToUnlock(defs: seq<AchievementDef>, unlocked: set<string>, f: Facts): seq<string>
    decreases |defs|
  {
    if defs == [] then []
    else
      var id := defs[|defs| - 1].id;
      ToUnlock(defs[..|defs| - 1], unlocked, f) + (if id !in unlocked && Condition(id, f) then [id] else [])
  }

  lemma {:induction false} ToUnlockMembers(defs: seq<AchievementDef>, unlocked: set<string>, f: Facts)
    ensures forall x :: x in ToUnlock(defs, unlocked, f) <==> x in Ids(defs) && x !in unlocked && Condition(x, f)
    decreases |defs|
  {
    if defs != [] {
      var n := |defs| - 1;
      ToUnlockMembers(defs[..n], unlocked, f);
      assert Ids(defs) == Ids(defs[..n]) + [defs[n].id];
    }
  }

  predicate NoDuplicates(xs: seq<string>) {
    forall i, j :: 0 <= i < j < |xs| ==> xs[i] != xs[j]
  }

  lemma {:induction false} ToUnlockDistinct(defs: seq<AchievementDef>, unlocked: set<string>, f: Facts)
    requires DistinctIds(defs)
    ensures NoDuplicates(ToUnlock(defs, unlocked, f))
    decreases |defs|
  {
    if defs != [] {
      var n := |defs| - 1;
      var init := defs[..n];
      assert DistinctIds(init);
      ToUnlockDistinct(init, unlocked, f);
      ToUnlockMembers(init, unlocked, f);
      assert defs[n].id !in Ids(init) by {
        forall i | 0 <= i < n ensures Ids(init)[i] != defs[n].id {
          assert Ids(init)[i] == defs[i].id;
        }
      }
    }
  }

  /**
   * `check_and_unlock_achievements`: walks the table once, skips what was
   * unlocked at the start, and unlocks and reports each achievement whose
   * condition holds and whose insert was new.
   */
  method CheckAndUnlock(db: Storage.Database, activity: ActivityFacts) returns (newly: seq<string>)
    modifies db`unlocked
    ensures newly == ToUnlock(Achievements, old(db.unlocked),
      FactsOf(db.sessions, db.sessionTypes, Sustainable(Analytics.DailyTotalsOf(ReadAll(db))), activity))
    ensures db.unlocked == old(db.unlocked) + set x | x in newly
  {
    var totals := Analytics.DailyTotals(ReadAll(db));
    var sustainable := Analytics.HasSustainableWeek(totals);
    AchievementIdsDistinct();
    newly := UnlockPass(db, Achievements, FactsOf(db.sessions, db.sessionTypes, sustainable, activity));
  }

  /** The loop of `check_and_unlock_achievements` over a table with distinct ids. */
  method UnlockPass(db: Storage.Database, table: seq<AchievementDef>, facts: Facts) returns (newly: seq<string>)
    requires DistinctIds(table)
    modifies db`unlocked
    ensures newly == ToUnlock(table, old(db.unlocked), facts)
    ensures db.unlocked == old(db.unlocked) + set x | x in newly
  {
    var before := db.unlocked;
    newly := [];
    var i := 0;
    while i < |table|
      invariant 0 <= i <= |table|
      invariant newly == ToUnlock(table[..i], before, facts)
      invariant db.unlocked == before + set x | x in newly
    {
      var def := table[i];
      ToUnlockStep(table, i, before, facts);
      if def.id !in before && Condition(def.id, facts) {
        var isNew := db.UnlockAchievement(def.id);
        if isNew {
          newly := newly + [def.id];
        }
      }
      i := i + 1;
    }
    assert table[..i] == table;
  }

  /** One more row of the table adds at most its own id, which was not reported before. */
  lemma ToUnlockStep(table: seq<AchievementDef>, i: int, before: set<string>, facts: Facts)
    requires DistinctIds(table) && 0 <= i < |table|
    ensures table[i].id !in ToUnlock(table[..i], before, facts)
    ensures ToUnlock(table[..i + 1], before, facts) == ToUnlock(table[..i], before, facts)
      + (if table[i].id !in before && Condition(table[i].id, facts) then [table[i].id] else [])
  {
    assert table[..i + 1][..i] == table[..i];
    ToUnlockMembers(table[..i], before, facts);
    assert table[i].id !in Ids(table[..i]) by {
      forall k | 0 <= k < i ensures Ids(table[..i])[k] != table[i].id {
        assert table[k].id != table[i].id;
      }
    }
  }

  /** What `has_sustainable_week` answers for these daily totals. */
  predicate Sustainable(days: seq<real>) {
    |days| >= 7 && exists i :: 0 <= i <= |days| - 7 && Analytics.RestfulWindow(days, i)
  }

  function ReadAll(db: Storage.Database): seq<Session>
    reads db
  {
    Storage.ReadSessions(db.sessions, db.sessionTypes)
  }

  /**
   * The pass reports exactly the achievements that were locked and are now
   * met, each once, and every reported one was locked before.
   */
  lemma UnlockedReport(unlocked: set<string>, f: Facts)
    ensures NoDuplicates(ToUnlock(Achievements, unlocked, f))
    ensures forall x :: x in ToUnlock(Achievements, unlocked, f) <==>
      x in Ids(Achievements) && x !in unlocked && Condition(x, f)
  {
    AchievementIdsDistinct();
    ToUnlockDistinct(Achievements, unlocked, f);
    ToUnlockMembers(Achievements, unlocked, f);
  }
}
