/**
 * The study-block planner of `local_optimizer_impl` (app.py): for each of
 * the seven days from `today`, while study hours are still missing, the
 * first evening hour (18:00 to 21:00) whose block of `block_hours` is free
 * and averages at least 0.6 energy becomes a study block.
 */
module StudyPlan {
  import opened Wrappers
  import opened Clock
  import opened Energy
  import opened Agenda

  const EveningFirst: int := 18
  const EveningLast: int := 21
  const StudyEnergy: real := 0.6
  const WeekDays: int := 7

  /** Minutes between `date.min` 00:00 and the end of `date.max`: the range of Python's `datetime`. */
  const DatetimeMinutes: int := 3652059 * 1440

  /** A proposed study block: its day, its start and (possibly wrapped) end, and its sampled energy. */
  datatype Block = Block(date: int, start: TimeOfDay, end: TimeOfDay, avg: real)

  /** `int(block_hours * 60)`: Python's `int` truncates toward zero. */
  function BlockMinutes(bh: real): (m: int)
    ensures bh >= 0.0 ==> 0 <= m && m as real <= bh * 60.0 < m as real + 1.0
    ensures bh < 0.0 ==> m as real - 1.0 < bh * 60.0 <= m as real <= 0.0
  {
    if bh >= 0.0 then (bh * 60.0).Floor else -((-bh * 60.0).Floor)
  }

  /**
   * The block arithmetic `datetime.combine(date.min, time(hour, 0)) +
   * timedelta(minutes=...)` stays inside `datetime`'s range for every
   * evening hour. Python raises OverflowError only at an hour it tries
   * whose end leaves that range; this asks it of all four hours.
   */
  predicate BlockFits(m: int) {
    0 <= EveningFirst * 60 + m && EveningLast * 60 + m < DatetimeMinutes
  }

  /** An evening hour whose block is free and averages at least 0.6. */
  predicate GoodEvening(busy: seq<(TimeOfDay, TimeOfDay)>, m: int, h: int)
    requires 0 <= h < 24
  {
    SlotFree(busy, h, m) && SlotEnergy(h, m) >= StudyEnergy
  }

  /** The inner `for hour in range(h, 22)` with its `break`: the first good evening hour from `h` on. */
  function FirstEvening(busy: seq<(TimeOfDay, TimeOfDay)>, m: int, h: int): (r: Option<int>)
    requires EveningFirst <= h <= EveningLast + 1
    ensures r.Some? ==> h <= r.value <= EveningLast
    decreases EveningLast + 1 - h
  {
    if h > EveningLast then None
    else if GoodEvening(busy, m, h) then Some(h)
    else FirstEvening(busy, m, h + 1)
  }

  /** The scan finds the first good evening hour from `h` on, and finds none exactly when there is none. */
  lemma {:induction false} FirstEveningMeaning(busy: seq<(TimeOfDay, TimeOfDay)>, m: int, h: int)
    requires EveningFirst <= h <= EveningLast + 1
    ensures var r := FirstEvening(busy, m, h);
            && (r.Some? ==> GoodEvening(busy, m, r.value))
            && (r.Some? ==> forall k :: h <= k < r.value ==> !GoodEvening(busy, m, k))
            && (r.None? <==> forall k :: h <= k <= EveningLast ==> !GoodEvening(busy, m, k))
    decreases EveningLast + 1 - h
  {
    if h <= EveningLast && !GoodEvening(busy, m, h) {
      FirstEveningMeaning(busy, m, h + 1);
    }
  }

  /** The block the scan of the evening hours from `h` on finds for day `d`, if any. */
  function BlockFrom(busy: seq<(TimeOfDay, TimeOfDay)>, d: int, m: int, h: int): (r: Option<Block>)
    requires EveningFirst <= h <= EveningLast + 1
    ensures r.Some? ==> r.value.date == d
    decreases EveningLast + 1 - h
  {
    if h > EveningLast then None
    else if GoodEvening(busy, m, h) then
      var a: TimeOfDay := h * 3600;
      Some(Block(d, a, SlotEnd(a, m), SlotEnergy(h, m)))
    else BlockFrom(busy, d, m, h + 1)
  }

  /** The scan yields the block at the first good evening hour. */
  lemma {:induction false} BlockFromFirstEvening(busy: seq<(TimeOfDay, TimeOfDay)>, d: int, m: int, h: int)
    requires EveningFirst <= h <= EveningLast + 1
    ensures BlockFrom(busy, d, m, h) ==
            match FirstEvening(busy, m, h)
            case None => None
            case Some(k) => Some(Block(d, k * 3600, SlotEnd(k * 3600, m), SlotEnergy(k, m)))
    decreases EveningLast + 1 - h
  {
    if h <= EveningLast && !GoodEvening(busy, m, h) {
      BlockFromFirstEvening(busy, d, m, h + 1);
    }
  }

  /** The block proposed for day `d`, given that day's busy list, if any evening hour qualifies. */
  function BlockOn(busy: seq<(TimeOfDay, TimeOfDay)>, d: int, m: int): (r: Option<Block>)
    ensures r.Some? ==> r.value.date == d
  {
    BlockFrom(busy, d, m, EveningFirst)
  }

  /** The block proposed for day `d` of the agenda. */
  function DayBlock(events: seq<Event>, d: int, m: int): (r: Option<Block>)
    ensures r.Some? ==> r.value.date == d
  {
    BlockOn(Busy(events, d), d, m)
  }

  /** The proposal of each day of the agenda, for blocks of `m` minutes. */
  function Proposer(events: seq<Event>, m: int): int -> Option<Block> {
    d => DayBlock(events, d, m)
  }

  /** A proposer's blocks fall on the day they are proposed for. */
  ghost predicate DatesBlocks(f: int -> Option<Block>) {
    forall d :: f(d).Some? ==> f(d).value.date == d
  }

  lemma ProposerDatesBlocks(events: seq<Event>, m: int)
    ensures DatesBlocks(Proposer(events, m))
  {
    forall d | Proposer(events, m)(d).Some?
      ensures Proposer(events, m)(d).value.date == d
    {
      assert Proposer(events, m)(d) == DayBlock(events, d, m);
    }
  }

  /** The proposals `f` makes for days `today + k`, `today + k + 1`, ... up to the end of the week. */
  function WeekFrom(f: int -> Option<Block>, today: int, k: int): (ps: seq<Option<Block>>)
    requires 0 <= k <= WeekDays
    ensures |ps| == WeekDays - k
    decreases WeekDays - k
  {
    if k == WeekDays then [] else [f(today + k)] + WeekFrom(f, today, k + 1)
  }

  /** The proposal of each of the seven days from `today`, in order. */
  function Week(f: int -> Option<Block>, today: int): (ps: seq<Option<Block>>)
    ensures |ps| == WeekDays
  {
    WeekFrom(f, today, 0)
  }

  lemma {:induction false} WeekFromAt(f: int -> Option<Block>, today: int, k: int, i: int)
    requires 0 <= k <= i < WeekDays
    ensures WeekFrom(f, today, k)[i - k] == f(today + i)
    decreases i - k
  {
    if k < i {
      WeekFromAt(f, today, k + 1, i);
    }
  }

  /** The proposals of the seven days from `today`, one per day. */
  predicate Proposals(ps: seq<Option<Block>>, f: int -> Option<Block>, today: int) {
    |ps| == WeekDays && forall k :: 0 <= k < WeekDays ==> ps[k] == f(today + k)
  }

  /** Entry `k` of the week is the proposal for day `today + k`. */
  lemma WeekProposals(f: int -> Option<Block>, today: int)
    ensures Proposals(Week(f, today), f, today)
  {
    forall k | 0 <= k < WeekDays
      ensures Week(f, today)[k] == f(today + k)
    {
      WeekFromAt(f, today, 0, k);
    }
  }

  /** Proposal `k` is for day `today + k`. */
  predicate Dated(ps: seq<Option<Block>>, today: int) {
    forall k :: 0 <= k < |ps| && ps[k].Some? ==> ps[k].value.date == today + k
  }

  /**
   * The outer `for i in range(7): if remaining <= 0: break`, from day `i`
   * on, over the days' proposals `ps`: each block found takes
   * `block_hours` off what remains.
   */
  function PlanFrom(ps: seq<Option<Block>>, bh: real, i: int, remaining: real): seq<Block>
    requires 0 <= i <= |ps|
    decreases |ps| - i
  {
    if i == |ps| || remaining <= 0.0 then []
    else
      match ps[i]
      case None => PlanFrom(ps, bh, i + 1, remaining)
      case Some(b) => [b] + PlanFrom(ps, bh, i + 1, remaining - bh)
  }

  /** The `study_blocks` list for `remaining` missing hours. */
  function StudyBlocks(events: seq<Event>, today: int, bh: real, remaining: real): seq<Block> {
    PlanFrom(Week(Proposer(events, BlockMinutes(bh)), today), bh, 0, remaining)
  }

  /**
   * A proposed block starts on a whole evening hour from 18:00 to 21:00,
   * is free, averages at least 0.6, takes at least one sample (so it starts
   * before its end) and ends `m` minutes later on the clock; no earlier
   * evening hour of that day would have done.
   */
  lemma BlockOnMeaning(busy: seq<(TimeOfDay, TimeOfDay)>, d: int, m: int)
    requires BlockOn(busy, d, m).Some?
    ensures var b := BlockOn(busy, d, m).value;
            && b.start % 3600 == 0 && EveningFirst <= b.start / 3600 <= EveningLast
            && b.end == SlotEnd(b.start, m)
            && ConflictFree(busy, b.start, b.end)
            && b.avg >= StudyEnergy && b.avg == SlotEnergy(b.start / 3600, m)
            && b.start < b.end
            && forall k :: EveningFirst <= k < b.start / 3600 ==> !GoodEvening(busy, m, k)
  {
    FirstEveningMeaning(busy, m, EveningFirst);
    BlockFromFirstEvening(busy, d, m, EveningFirst);
    var h := FirstEvening(busy, m, EveningFirst).value;
    var a := h * 3600;
    assert a / 3600 == h;
    SamplesAt(a, SlotEnd(a, m), 1800);
  }

  /** A day gets no block exactly when no evening hour is free with an average of at least 0.6. */
  lemma NoBlockMeaning(busy: seq<(TimeOfDay, TimeOfDay)>, d: int, m: int)
    ensures BlockOn(busy, d, m).None? <==> forall k :: EveningFirst <= k <= EveningLast ==> !GoodEvening(busy, m, k)
  {
    FirstEveningMeaning(busy, m, EveningFirst);
    BlockFromFirstEvening(busy, d, m, EveningFirst);
  }

  /**
   * A study block of `m` minutes for a day with busy list `busy`: it starts
   * on a whole hour from 18:00 to 21:00, ends `m` minutes later on the
   * clock, is free of the busy list and averages at least 0.6.
   */
  predicate GoodBlock(busy: seq<(TimeOfDay, TimeOfDay)>, m: int, b: Block) {
    && b.start % 3600 == 0 && EveningFirst <= b.start / 3600 <= EveningLast
    && b.end == SlotEnd(b.start, m)
    && ConflictFree(busy, b.start, b.end)
    && b.avg >= StudyEnergy
  }

  /** A block the agenda proposes for its day is a good block for that day's busy list. */
  lemma ProposedBlockIsGood(events: seq<Event>, m: int, b: Block)
    requires Proposer(events, m)(b.date) == Some(b)
    ensures GoodBlock(Busy(events, b.date), m, b)
  {
    assert Proposer(events, m)(b.date) == BlockOn(Busy(events, b.date), b.date, m);
    BlockOnMeaning(Busy(events, b.date), b.date, m);
  }

  /** A block of at most a day's minutes never wraps past midnight: it ends exactly `m` minutes after it starts. */
  lemma BlockDoesNotWrap(busy: seq<(TimeOfDay, TimeOfDay)>, d: int, m: int)
    requires 0 <= m <= 1440
    requires BlockOn(busy, d, m).Some?
    ensures BlockOn(busy, d, m).value.end == BlockOn(busy, d, m).value.start + 60 * m
  {
    BlockOnMeaning(busy, d, m);
    BlockFromFirstEvening(busy, d, m, EveningFirst);
    var h := FirstEvening(busy, m, EveningFirst).value;
    SlotEnergyOfWrappedSlot(h, m);
  }

  /** A non-positive block length, as far back as `date.min` allows, never yields a block. */
  lemma NoBlockOfNoLength(busy: seq<(TimeOfDay, TimeOfDay)>, d: int, m: int)
    requires BlockFits(m) && m <= 0
    ensures BlockOn(busy, d, m) == None
  {
    forall k | EveningFirst <= k <= EveningLast
      ensures !GoodEvening(busy, m, k)
    {
      var a := k * 3600;
      assert SlotEnd(a, m) == a + 60 * m;
      SamplesAt(a, SlotEnd(a, m), 1800);
    }
    FirstEveningMeaning(busy, m, EveningFirst);
    BlockFromFirstEvening(busy, d, m, EveningFirst);
  }

  /**
   * The plan from day `i` has at most one block per remaining day, on
   * strictly increasing days, and each block is its day's proposal.
   */
  lemma {:induction false} PlanDays(ps: seq<Option<Block>>, today: int, bh: real, i: int, remaining: real)
    requires 0 <= i <= |ps| && Dated(ps, today)
    ensures var p := PlanFrom(ps, bh, i, remaining);
            && |p| <= |ps| - i
            && (forall k :: 0 <= k < |p| ==> today + i <= p[k].date < today + |ps|)
            && (forall j, k :: 0 <= j < k < |p| ==> p[j].date < p[k].date)
            && (forall k :: 0 <= k < |p| ==> ps[p[k].date - today] == Some(p[k]))
    decreases |ps| - i
  {
    if i < |ps| && remaining > 0.0 {
      match ps[i]
      case None =>
        PlanDays(ps, today, bh, i + 1, remaining);
      case Some(b) =>
        PlanDays(ps, today, bh, i + 1, remaining - bh);
        var rest := PlanFrom(ps, bh, i + 1, remaining - bh);
        var p := [b] + rest;
        assert b.date == today + i;
        forall k | 0 < k < |p|
          ensures p[k] == rest[k - 1]
        {
        }
    }
  }

  /** The hours that `n` blocks of `bh` hours take off what remains. */
  function BookedHours(n: nat, bh: real): real {
    if n == 0 then 0.0 else BookedHours(n - 1, bh) + bh
  }

  lemma {:induction false} BookedHoursIsProduct(n: nat, bh: real)
    ensures BookedHours(n, bh) == n as real * bh
  {
    if n > 0 {
      BookedHoursIsProduct(n - 1, bh);
    }
  }

  /**
   * The planner never books more than it needs: all blocks but the last
   * still leave hours missing.
   */
  lemma {:induction false} PlanNeverOverbooks(ps: seq<Option<Block>>, bh: real, i: int, remaining: real)
    requires 0 <= i <= |ps|
    requires PlanFrom(ps, bh, i, remaining) != []
    ensures BookedHours(|PlanFrom(ps, bh, i, remaining)| - 1, bh) < remaining
    decreases |ps| - i
  {
    match ps[i]
    case None =>
      PlanNeverOverbooks(ps, bh, i + 1, remaining);
    case Some(b) =>
      var rest := PlanFrom(ps, bh, i + 1, remaining - bh);
      if rest != [] {
        PlanNeverOverbooks(ps, bh, i + 1, remaining - bh);
      }
  }

  /** The number of days `today + k` to the end of the week that `f` proposes a block for. */
  function ProposingDays(f: int -> Option<Block>, today: int, k: int): (n: nat)
    requires 0 <= k <= WeekDays
    ensures n <= WeekDays - k
    decreases WeekDays - k
  {
    if k == WeekDays then 0 else (if f(today + k).Some? then 1 else 0) + ProposingDays(f, today, k + 1)
  }

  /**
   * The planner only stops early when the hours are covered: from day `i`
   * on, every day that proposes a block gets it, or the blocks book at
   * least what remains.
   */
  lemma {:induction false} PlanFills(ps: seq<Option<Block>>, f: int -> Option<Block>, today: int, bh: real, i: int, remaining: real)
    requires Proposals(ps, f, today) && 0 <= i <= WeekDays
    ensures var p := PlanFrom(ps, bh, i, remaining);
            |p| == ProposingDays(f, today, i) || remaining <= BookedHours(|p|, bh)
    decreases WeekDays - i
  {
    if i < WeekDays && remaining > 0.0 {
      assert ps[i] == f(today + i);
      if ps[i].Some? {
        PlanFills(ps, f, today, bh, i + 1, remaining - bh);
      } else {
        PlanFills(ps, f, today, bh, i + 1, remaining);
      }
    }
  }

  /** When every day proposes a block, all seven days are proposing days. */
  lemma {:induction false} AllDaysProposing(f: int -> Option<Block>, today: int, k: int)
    requires 0 <= k <= WeekDays && EveryDayProposes(f, today)
    ensures ProposingDays(f, today, k) == WeekDays - k
    decreases WeekDays - k
  {
    if k < WeekDays {
      AllDaysProposing(f, today, k + 1);
    }
  }

  /** Days that propose nothing give no plan. */
  lemma {:induction false} NoProposalsNoPlan(ps: seq<Option<Block>>, bh: real, i: int, remaining: real)
    requires 0 <= i <= |ps|
    requires forall k :: 0 <= k < |ps| ==> ps[k] == None
    ensures PlanFrom(ps, bh, i, remaining) == []
    decreases |ps| - i
  {
    if i < |ps| && remaining > 0.0 {
      NoProposalsNoPlan(ps, bh, i + 1, remaining);
    }
  }

  /** One turn of the week loop: day `i`'s proposal `b` joins the blocks when there is one. */
  lemma PlanStep(ps: seq<Option<Block>>, bh: real, i: int, remaining: real, blocks: seq<Block>, b: Option<Block>)
    requires 0 <= i < |ps| && remaining > 0.0 && b == ps[i]
    ensures blocks + PlanFrom(ps, bh, i, remaining) ==
            if b.Some? then (blocks + [b.value]) + PlanFrom(ps, bh, i + 1, remaining - bh)
            else blocks + PlanFrom(ps, bh, i + 1, remaining)
  {
    if b.Some? {
      assert PlanFrom(ps, bh, i, remaining) == [b.value] + PlanFrom(ps, bh, i + 1, remaining - bh);
    }
  }

  /** No hours missing, no blocks. */
  lemma NothingMissingNoBlocks(events: seq<Event>, today: int, bh: real, remaining: real)
    requires remaining <= 0.0
    ensures StudyBlocks(events, today, bh, remaining) == []
  {
  }

  /** A week whose days propose nothing gives no plan. */
  lemma NoWeekProposalsNoPlan(f: int -> Option<Block>, today: int, bh: real, remaining: real)
    requires forall d :: today <= d < today + WeekDays ==> f(d) == None
    ensures PlanFrom(Week(f, today), bh, 0, remaining) == []
  {
    var ps := Week(f, today);
    WeekProposals(f, today);
    forall k | 0 <= k < |ps|
      ensures ps[k] == None
    {
      assert ps[k] == f(today + k);
    }
    NoProposalsNoPlan(ps, bh, 0, remaining);
  }

  lemma NoLengthNoProposal(events: seq<Event>, m: int, d: int)
    requires BlockFits(m) && m <= 0
    ensures Proposer(events, m)(d) == None
  {
    NoBlockOfNoLength(Busy(events, d), d, m);
  }

  /** A block length that rounds to no minutes (and stays in `datetime`'s range) yields no blocks at all. */
  lemma NoLengthNoBlocks(events: seq<Event>, today: int, bh: real, remaining: real)
    requires BlockFits(BlockMinutes(bh)) && BlockMinutes(bh) <= 0
    ensures StudyBlocks(events, today, bh, remaining) == []
  {
    var f := Proposer(events, BlockMinutes(bh));
    forall d | today <= d < today + WeekDays
      ensures f(d) == None
    {
      NoLengthNoProposal(events, BlockMinutes(bh), d);
    }
    NoWeekProposalsNoPlan(f, today, bh, remaining);
  }

  /**
   * What the planner promises of its blocks `p`: at most one per day of the
   * coming week, on increasing days, each the block its day proposes (the
   * first good evening hour of that day, see BlockOnMeaning), and all but
   * the last leave hours missing.
   */
  predicate WellPlanned(p: seq<Block>, f: int -> Option<Block>, today: int, bh: real, remaining: real) {
    && |p| <= WeekDays
    && (forall k :: 0 <= k < |p| ==> today <= p[k].date < today + WeekDays)
    && (forall j, k :: 0 <= j < k < |p| ==> p[j].date < p[k].date)
    && (forall k :: 0 <= k < |p| ==> f(p[k].date) == Some(p[k]))
    && (p != [] ==> (|p| - 1) as real * bh < remaining)
  }

  /** A plan over the seven proposals of a week is well planned. */
  lemma PlanFacts(ps: seq<Option<Block>>, f: int -> Option<Block>, today: int, bh: real, remaining: real)
    requires Proposals(ps, f, today) && DatesBlocks(f)
    ensures WellPlanned(PlanFrom(ps, bh, 0, remaining), f, today, bh, remaining)
  {
    var p := PlanFrom(ps, bh, 0, remaining);
    assert Dated(ps, today) by {
      forall k | 0 <= k < |ps| && ps[k].Some?
        ensures ps[k].value.date == today + k
      {
        assert ps[k] == f(today + k);
      }
    }
    PlanDays(ps, today, bh, 0, remaining);
    if p != [] {
      PlanNeverOverbooks(ps, bh, 0, remaining);
      BookedHoursIsProduct(|p| - 1, bh);
    }
  }

  /** The study blocks are well planned against the agenda's proposals. */
  lemma StudyBlocksFacts(events: seq<Event>, today: int, bh: real, remaining: real)
    ensures WellPlanned(StudyBlocks(events, today, bh, remaining), Proposer(events, BlockMinutes(bh)), today, bh, remaining)
  {
    var f := Proposer(events, BlockMinutes(bh));
    WeekProposals(f, today);
    ProposerDatesBlocks(events, BlockMinutes(bh));
    PlanFacts(Week(f, today), f, today, bh, remaining);
  }

  /** Every day of the week from `today` proposes a block. */
  predicate EveryDayProposes(f: int -> Option<Block>, today: int) {
    forall d :: today <= d < today + WeekDays ==> f(d).Some?
  }

  /** The blocks `p` take every one of the `days` proposing days, or book at least the `remaining` hours. */
  predicate FillsWeek(p: seq<Block>, days: int, bh: real, remaining: real) {
    |p| == days || remaining <= |p| as real * bh
  }

  /** PlanFills over the seven proposals of a week. */
  lemma WeekFills(ps: seq<Option<Block>>, f: int -> Option<Block>, today: int, bh: real, remaining: real)
    requires Proposals(ps, f, today)
    ensures FillsWeek(PlanFrom(ps, bh, 0, remaining), ProposingDays(f, today, 0), bh, remaining)
  {
    PlanFills(ps, f, today, bh, 0, remaining);
    BookedHoursIsProduct(|PlanFrom(ps, bh, 0, remaining)|, bh);
  }

  /**
   * Every day of the week with a good evening gets its study block, unless
   * the blocks already cover what remains; when every day has one, the
   * blocks take all seven days or cover what remains.
   */
  lemma StudyBlocksFillWeek(events: seq<Event>, today: int, bh: real, remaining: real)
    ensures var f := Proposer(events, BlockMinutes(bh));
            && FillsWeek(StudyBlocks(events, today, bh, remaining), ProposingDays(f, today, 0), bh, remaining)
            && (EveryDayProposes(f, today) ==> FillsWeek(StudyBlocks(events, today, bh, remaining), WeekDays, bh, remaining))
  {
    var f := Proposer(events, BlockMinutes(bh));
    WeekProposals(f, today);
    WeekFills(Week(f, today), f, today, bh, remaining);
    if EveryDayProposes(f, today) {
      AllDaysProposing(f, today, 0);
    }
  }

  /** The inner loop over the evening hours of one day. */
  method FirstFreeBlock(busy: seq<(TimeOfDay, TimeOfDay)>, d: int, m: int) returns (b: Option<Block>)
    ensures b == BlockOn(busy, d, m)
  {
    var hour := EveningFirst;
    while hour <= EveningLast
      invariant EveningFirst <= hour <= EveningLast + 1
      invariant BlockFrom(busy, d, m, hour) == BlockOn(busy, d, m)
    {
      var a: TimeOfDay := hour * 3600;
      var e := SlotEnd(a, m);
      var free := IsConflictFree(busy, a, e);
      if free {
        var avg := SampleMean(a, e, 1800);
        if avg >= StudyEnergy {
          return Some(Block(d, a, e, avg));
        }
      }
      hour := hour + 1;
    }
    return None;
  }

  /** The body of the outer loop for day `today + i`: its busy list, then its first good evening. */
  method ProposeDay(events: seq<Event>, today: int, m: int, i: int, ghost ps: seq<Option<Block>>) returns (b: Option<Block>)
    requires Proposals(ps, Proposer(events, m), today) && 0 <= i < WeekDays
    ensures b == ps[i]
  {
    var d := today + i;
    var busy := BusyOn(events, d);
    b := FirstFreeBlock(busy, d, m);
    ProposalAt(ps, events, today, m, i, b);
  }

  lemma ProposalAt(ps: seq<Option<Block>>, events: seq<Event>, today: int, m: int, i: int, b: Option<Block>)
    requires Proposals(ps, Proposer(events, m), today) && 0 <= i < WeekDays
    requires b == DayBlock(events, today + i, m)
    ensures ps[i] == b
  {
    assert ps[i] == Proposer(events, m)(today + i);
  }

  /** The outer loop over the seven days of the week, given their proposals `ps`. */
  method PlanWeek(events: seq<Event>, today: int, bh: real, m: int, ghost ps: seq<Option<Block>>, remaining0: real) returns (blocks: seq<Block>)
    requires Proposals(ps, Proposer(events, m), today)
    ensures blocks == PlanFrom(ps, bh, 0, remaining0)
  {
    var remaining := remaining0;
    blocks := [];
    var i := 0;
    while i < WeekDays
      invariant 0 <= i <= WeekDays
      invariant blocks + PlanFrom(ps, bh, i, remaining) == PlanFrom(ps, bh, 0, remaining0)
    {
      if remaining <= 0.0 {
        break;
      }
      var b := ProposeDay(events, today, m, i, ps);
      PlanStep(ps, bh, i, remaining, blocks, b);
      if b.Some? {
        blocks := blocks + [b.value];
        remaining := remaining - bh;
      }
      i := i + 1;
    }
    assert blocks == blocks + PlanFrom(ps, bh, i, remaining);
  }

  /** The outer loop over the seven days, taking `block_hours` off `remaining` per block. */
  method PlanStudyBlocks(events: seq<Event>, today: int, bh: real, remaining0: real) returns (blocks: seq<Block>)
    requires BlockFits(BlockMinutes(bh))
    ensures blocks == StudyBlocks(events, today, bh, remaining0)
  {
    var m := BlockMinutes(bh);
    WeekProposals(Proposer(events, m), today);
    blocks := PlanWeek(events, today, bh, m, Week(Proposer(events, m), today), remaining0);
  }
}
