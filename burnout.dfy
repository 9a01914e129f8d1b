/**
 * `burnout_score` (app.py): a weekly burnout risk from the hours of study,
 * work and sleep in the events it is given.
 */
module Burnout {
  import opened Agenda

  /** The labels "Bajo", "Medio" and "Alto". */
  datatype Risk = Low | Medium | High

  /** The `notes` text: the fixed "No hay datos." or the three weekly totals it reports. */
  datatype Summary = NoData | Week(study: real, work: real, sleep: real)

  datatype Assessment = Assessment(score: real, risk: Risk, notes: Summary)

  const DesiredSleep: real := 49.0
  const StudyLoad: real := 20.0
  const WorkLoad: real := 30.0

  /** `min(1.0, x)`. */
  function Cap(x: real): real {
    if x < 1.0 then x else 1.0
  }

  /** `max(0.0, min(1.0, x))`. */
  function Clamp(x: real): real {
    if x < 0.0 then 0.0 else if x > 1.0 then 1.0 else x
  }

  function RiskOf(score: real): (r: Risk)
    ensures r == Low <==> score < 0.3
    ensures r == Medium <==> 0.3 <= score < 0.6
    ensures r == High <==> 0.6 <= score
  {
    if score < 0.3 then Low else if score < 0.6 then Medium else High
  }

  /** The weighted combination of the sleep deficit and the study and work loads, before clamping. */
  function WeightedScore(study: real, work: real, sleep: real): real {
    0.5 * (1.0 - Cap(sleep / DesiredSleep)) + 0.3 * Cap(study / StudyLoad) + 0.2 * Cap(work / WorkLoad)
  }

  /** With non-negative hours the weighted score already lies in [0, 1], so the clamp never acts. */
  lemma WeightedScoreInRange(study: real, work: real, sleep: real)
    requires study >= 0.0 && work >= 0.0 && sleep >= 0.0
    ensures 0.0 <= WeightedScore(study, work, sleep) <= 1.0
    ensures Clamp(WeightedScore(study, work, sleep)) == WeightedScore(study, work, sleep)
  {
  }

  /** Sleep lowers the score, study and work raise it. */
  lemma WeightedScoreMonotone(study: real, work: real, sleep: real, study': real, work': real, sleep': real)
    requires study <= study' && work <= work' && sleep >= sleep'
    ensures WeightedScore(study, work, sleep) <= WeightedScore(study', work', sleep')
  {
  }

  function BurnoutScore(events: seq<Event>): (b: Assessment)
    ensures events == [] ==> b == Assessment(0.2, Low, NoData)
    ensures 0.0 <= b.score <= 1.0
    ensures b.risk == RiskOf(b.score)
    ensures events != [] ==> b.notes == Week(CategoryHours(events, StudyCategories),
                                           CategoryHours(events, {WorkCategory}),
                                           CategoryHours(events, {SleepCategory}))
  {
    if events == [] then Assessment(0.2, Low, NoData)
    else
      var study := CategoryHours(events, StudyCategories);
      var work := CategoryHours(events, {WorkCategory});
      var sleep := CategoryHours(events, {SleepCategory});
      var score := Clamp(WeightedScore(study, work, sleep));
      Assessment(score, RiskOf(score), Week(study, work, sleep))
  }

  /** For a non-empty agenda the score is the unclamped weighted score of its three totals. */
  lemma ScoreIsWeighted(events: seq<Event>, study: real, work: real, sleep: real)
    requires events != []
    requires study == CategoryHours(events, StudyCategories)
    requires work == CategoryHours(events, {WorkCategory})
    requires sleep == CategoryHours(events, {SleepCategory})
    ensures BurnoutScore(events).score == WeightedScore(study, work, sleep)
  {
    WeightedScoreInRange(study, work, sleep);
  }

  /** An event outside the study-like, work and sleep categories changes nothing. */
  lemma {:induction false} IgnoresOtherCategories(events: seq<Event>, e: Event)
    requires events != []
    requires e.category !in StudyCategories && e.category != WorkCategory && e.category != SleepCategory
    ensures BurnoutScore(events + [e]) == BurnoutScore(events)
  {
    CategoryHoursAppend(events, [e], StudyCategories);
    CategoryHoursAppend(events, [e], {WorkCategory});
    CategoryHoursAppend(events, [e], {SleepCategory});
  }

  /** One more sleep event never raises the score. */
  lemma {:induction false} MoreSleepNeverRaisesScore(events: seq<Event>, e: Event)
    requires events != [] && e.category == SleepCategory
    ensures BurnoutScore(events + [e]).score <= BurnoutScore(events).score
  {
    CategoryHoursAppend(events, [e], StudyCategories);
    CategoryHoursAppend(events, [e], {WorkCategory});
    CategoryHoursAppend(events, [e], {SleepCategory});
    var study := CategoryHours(events, StudyCategories);
    var work := CategoryHours(events, {WorkCategory});
    var sleep := CategoryHours(events, {SleepCategory});
    var sleep' := CategoryHours(events + [e], {SleepCategory});
    assert sleep <= sleep';
    ScoreIsWeighted(events, study, work, sleep);
    ScoreIsWeighted(events + [e], study, work, sleep');
    WeightedScoreMonotone(study, work, sleep', study, work, sleep);
  }

  /**
   * The first event of any category, a sleep event included, moves the
   * score up from the 0.2 of an empty agenda: an event lasts at most a day,
   * so the sleep deficit alone still scores more than 0.2.
   */
  lemma FirstEventRaisesScore(e: Event)
    ensures BurnoutScore([]).score < BurnoutScore([e]).score
  {
    var study := CategoryHours([e], StudyCategories);
    var work := CategoryHours([e], {WorkCategory});
    var sleep := CategoryHours([e], {SleepCategory});
    assert sleep <= Hours(e) <= 24.0;
    ScoreIsWeighted([e], study, work, sleep);
  }

  /** One more study-like or work event never lowers the score, the first event included. */
  lemma {:induction false} MoreLoadNeverLowersScore(events: seq<Event>, e: Event)
    requires e.category in StudyCategories || e.category == WorkCategory
    ensures BurnoutScore(events).score <= BurnoutScore(events + [e]).score
  {
    if events == [] {
      assert events + [e] == [e];
      FirstEventRaisesScore(e);
      return;
    }
    CategoryHoursAppend(events, [e], StudyCategories);
    CategoryHoursAppend(events, [e], {WorkCategory});
    CategoryHoursAppend(events, [e], {SleepCategory});
    var study := CategoryHours(events, StudyCategories);
    var work := CategoryHours(events, {WorkCategory});
    var sleep := CategoryHours(events, {SleepCategory});
    var study' := CategoryHours(events + [e], StudyCategories);
    var work' := CategoryHours(events + [e], {WorkCategory});
    assert study <= study' && work <= work';
    ScoreIsWeighted(events, study, work, sleep);
    ScoreIsWeighted(events + [e], study', work', sleep);
    WeightedScoreMonotone(study, work, sleep, study', work', sleep);
  }
}
