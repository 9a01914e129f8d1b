/**
 * `local_optimizer_impl` (app.py): relocation suggestions for the
 * low-energy flexible events, the weekly study target, and the study blocks
 * that make up the hours still missing. The events table is a parameter in
 * place of the database query, and `today` in place of the system clock.
 */
module Optimizer {
  import opened Wrappers
  import opened Agenda
  import opened Relocation
  import opened StudyPlan

  /** The weekly study hours the optimizer aims for at least. */
  const WeeklyStudyTarget: real := 12.0

  /** The optimizer's result dictionary. */
  datatype Plan = Plan(suggestions: seq<Suggestion>, studyBlocks: seq<Block>, targetWeek: real, existingStudy: real)

  function Max(a: real, b: real): (r: real)
    ensures r >= a && r >= b && (r == a || r == b)
  {
    if a >= b then a else b
  }

  /** `target_week`: the smallest number of hours that is at least 12 and at least what is already studied. */
  function TargetWeek(study: real): (t: real)
    ensures t >= WeeklyStudyTarget && t >= study
    ensures t == WeeklyStudyTarget || t == study
  {
    Max(WeeklyStudyTarget, study)
  }

  /** `remaining`: the hours missing to the target, which is the gap below 12 hours, or nothing. */
  function Missing(study: real): (r: real)
    ensures study < WeeklyStudyTarget ==> r == WeeklyStudyTarget - study
    ensures study >= WeeklyStudyTarget ==> r == 0.0
  {
    Max(0.0, TargetWeek(study) - study)
  }

  /** `study_blocks`: none for an empty agenda or when nothing is missing, else the planner's blocks. */
  function PlannedBlocks(events: seq<Event>, today: int, bh: real): seq<Block> {
    if events == [] then []
    else
      var remaining := Missing(CategoryHours(events, StudyCategories));
      if remaining > 0.0 then StudyBlocks(events, today, bh, remaining) else []
  }

  /** The plan `local_optimizer_impl` returns for the agenda `events` on day `today`. */
  function Optimize(events: seq<Event>, today: int, bh: real): Plan {
    if events == [] then Plan([], [], WeeklyStudyTarget, 0.0)
    else
      var study := CategoryHours(events, StudyCategories);
      Plan(Relocations(events), PlannedBlocks(events, today, bh), TargetWeek(study), study)
  }

  /**
   * The target is at least 12 hours and at least the study hours booked,
   * and the study already booked is the agenda's study-category hours
   * (none for an empty agenda).
   */
  lemma TargetCoversStudy(events: seq<Event>, today: int, bh: real)
    ensures var r := Optimize(events, today, bh);
            && r.targetWeek >= WeeklyStudyTarget && r.targetWeek >= r.existingStudy
            && (r.targetWeek == WeeklyStudyTarget || r.targetWeek == r.existingStudy)
            && r.existingStudy == CategoryHours(events, StudyCategories)
  {
  }

  /** Every planned study block is a free evening block of at least 0.6 energy on its day. */
  lemma PlannedBlocksAreGood(events: seq<Event>, today: int, bh: real)
    ensures var p := PlannedBlocks(events, today, bh);
            forall k :: 0 <= k < |p| ==> GoodBlock(Busy(events, p[k].date), BlockMinutes(bh), p[k])
  {
    var p := PlannedBlocks(events, today, bh);
    var f := Proposer(events, BlockMinutes(bh));
    StudyBlocksCoverGap(events, today, bh);
    forall k | 0 <= k < |p|
      ensures GoodBlock(Busy(events, p[k].date), BlockMinutes(bh), p[k])
    {
      assert f(p[k].date) == Some(p[k]);
      ProposedBlockIsGood(events, BlockMinutes(bh), p[k]);
    }
  }

  /**
   * What the optimizer's result promises: the suggestions are exactly the
   * free same-day moves advised for the flexible events below 0.6 energy,
   * and every study block is a free evening block of at least 0.6 energy.
   */
  lemma ResultPromises(events: seq<Event>, today: int, bh: real)
    ensures var r := Optimize(events, today, bh);
            && (forall s :: s in r.suggestions ==>
                  exists e :: e in events && e.fixed == 0 && EnergyOf(e) < LowEnergy && FreeSameDayMove(events, e, s))
            && (forall e :: e in events && e.fixed == 0 && EnergyOf(e) < LowEnergy && Advice(events, RowOf(e)).Some? ==>
                  Advice(events, RowOf(e)).value in r.suggestions)
            && (forall k :: 0 <= k < |r.studyBlocks| ==> GoodBlock(Busy(events, r.studyBlocks[k].date), BlockMinutes(bh), r.studyBlocks[k]))
  {
    var r := Optimize(events, today, bh);
    PlannedBlocksAreGood(events, today, bh);
    assert r.suggestions == Relocations(events) && r.studyBlocks == PlannedBlocks(events, today, bh);
    forall s | s in r.suggestions
      ensures exists e :: e in events && e.fixed == 0 && EnergyOf(e) < LowEnergy && FreeSameDayMove(events, e, s)
    {
      RelocationsFromLowFlexible(events, s);
      var e :| e in events && e.fixed == 0 && EnergyOf(e) < LowEnergy && Advice(events, RowOf(e)) == Some(s);
      AdviceIsFreeSameDaySlot(events, e);
    }
    forall e | e in events && e.fixed == 0 && EnergyOf(e) < LowEnergy && Advice(events, RowOf(e)).Some?
      ensures Advice(events, RowOf(e)).value in r.suggestions
    {
      LowFlexibleGetsAdvice(events, e);
    }
  }

  /**
   * The study blocks are well planned (see WellPlanned) against the gap to
   * 12 hours: at most one per day of the week, each its day's first good
   * evening, and all but the last leave hours missing. When 12 hours are
   * already booked there are none.
   */
  lemma StudyBlocksCoverGap(events: seq<Event>, today: int, bh: real)
    ensures var study := CategoryHours(events, StudyCategories);
            && WellPlanned(PlannedBlocks(events, today, bh), Proposer(events, BlockMinutes(bh)), today, bh, WeeklyStudyTarget - study)
            && (study >= WeeklyStudyTarget ==> PlannedBlocks(events, today, bh) == [])
  {
    var study := CategoryHours(events, StudyCategories);
    if events != [] && study < WeeklyStudyTarget {
      StudyBlocksFacts(events, today, bh, Missing(study));
    }
  }

  /**
   * Every day of the week with a good evening gets a study block unless the
   * blocks already reach the target. An empty agenda is the exception: it
   * returns no blocks at all, however free its evenings.
   */
  lemma StudyBlocksReachTarget(events: seq<Event>, today: int, bh: real)
    ensures events == [] ==> PlannedBlocks(events, today, bh) == []
    ensures events != [] ==>
              FillsWeek(PlannedBlocks(events, today, bh), ProposingDays(Proposer(events, BlockMinutes(bh)), today, 0),
                        bh, WeeklyStudyTarget - CategoryHours(events, StudyCategories))
  {
    var study := CategoryHours(events, StudyCategories);
    if events != [] {
      if study < WeeklyStudyTarget {
        StudyBlocksFillWeek(events, today, bh, Missing(study));
      } else {
        assert FillsWeek([], ProposingDays(Proposer(events, BlockMinutes(bh)), today, 0), bh, WeeklyStudyTarget - study);
      }
    }
  }

  /**
   * `local_optimizer_impl`. The block arithmetic must stay inside
   * `datetime`'s range whenever the study planner runs.
   */
  method LocalOptimizer(events: seq<Event>, today: int, bh: real) returns (r: Plan)
    requires events != [] && CategoryHours(events, StudyCategories) < WeeklyStudyTarget ==> BlockFits(BlockMinutes(bh))
    ensures r == Optimize(events, today, bh)
  {
    if events == [] {
      return Plan([], [], WeeklyStudyTarget, 0.0);
    }
    var suggestions := SuggestRelocations(events);
    var study := CategoryHours(events, StudyCategories);
    var target := Max(WeeklyStudyTarget, study);
    var remaining := Max(0.0, target - study);
    var blocks: seq<Block> := [];
    if remaining > 0.0 {
      blocks := PlanStudyBlocks(events, today, bh, remaining);
    }
    r := Plan(suggestions, blocks, target, study);
  }
}
