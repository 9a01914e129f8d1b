# agenda_pro scheduling core in Dafny

This project models the scheduling and wellbeing core of agenda_pro, a
Streamlit agenda application (`app.py`), and proves properties of it. The
core reads a user's events, each with a category, a date, a start and end
time of day and a fixed/flexible flag. The model has seven modules:

- **Clock** (`parse_time_str_safe`): reads a stored start or end value
  as a time of day. It tries "%H:%M", then "%H:%M:%S", and falls back to
  midnight.
- **Energy** (`dur_hours`, `hour_energy`, `event_energy_score`): an event's
  length in hours, the productivity coefficient of each hour of the day,
  and an event's mean hourly energy. An end at or before the start means
  the event crosses midnight.
- **Agenda**: the events as rows with their `dur_h` and `energy` columns,
  each day's busy list, the half-open conflict test
  `not (sb <= x or sa >= y)`, the candidate slot of an hour (its end wraps
  past midnight like `datetime.time`) and its 30-minute-sampled energy.
- **Burnout** (`burnout_score`): a score in [0, 1] and a Low/Medium/High
  label from the weekly study, work and sleep hours.
- **Relocation** (first half of `local_optimizer_impl`): each flexible
  event with energy below 0.6 is offered the best free whole-hour start
  from 06:00 to 21:00 on its own day, if that start beats the event's
  energy by 0.15. The events are visited by increasing energy.
- **StudyPlan** (second half of `local_optimizer_impl`): while study hours
  are missing, each of the seven days from today gets at most one study
  block. The block starts at the first evening hour from 18:00 to 21:00
  that is free and averages at least 0.6 energy.
- **Optimizer** (`local_optimizer_impl`): the weekly target
  `max(12, existing study)`, the missing hours, and the whole result.

Pure pandas and expression code is modelled as functions. The loops of
`event_energy_score` and `local_optimizer_impl` are modelled as methods
with loops, each proved equal to its specification function. The
two-format loop of `parse_time_str_safe` is pure and is unrolled in the
function `Clock.ParseTime`. Properties are proved as lemmas about those
functions. The database query `get_events` is replaced by an event list
parameter, and `date.today()` by a `today` parameter. Dates are day
numbers. Times of day are seconds since midnight.

Behaviour kept as the code has it, which a reader might not expect:

- A day's busy list includes the event being relocated. A suggested slot
  therefore passes the raw half-open test against the event's current
  interval (`Relocation.AdviceIsFreeSameDaySlot`).
- Neither slots nor busy intervals are normalised across midnight before
  the conflict test (app.py:357-359, 388-389). A busy interval that crosses
  midnight has an end earlier than its start, so every slot starting at or
  after that end passes the test against it. A suggested slot can then
  share time with the event's own span past its start, for example a
  15:00-23:00 slot for a 19:00-03:00 event.
- A slot whose end wraps past midnight takes no energy samples and
  averages 0.
- The weekly target is the constant 12 hours, not a parameter.
- An empty agenda scores 0.2 with no data (app.py:194-195). The first
  event of any kind moves the score above that, even a sleep event or an
  event of another category (`Burnout.FirstEventRaisesScore`). Adding
  sleep, or an event of another category, lowers or keeps the score only
  once the agenda is non-empty.

## Model

| member | source | states |
|---|---|---|
| Clock.Fields | app.py:154-157 | splitting a text at its colons gives colon-free fields |
| Clock.JoinFields | app.py:154-157 | joining the fields with colons gives back the text, so a text is read through its fields without loss |
| Clock.StrptimeHM | app.py:154-155 | `strptime(s, "%H:%M")`: its meaning is stated by Clock.ParseHM and Clock.ParseFormatHM |
| Clock.StrptimeHMS | app.py:156-157 | `strptime(s, "%H:%M:%S")`: its meaning is stated by Clock.ParseHMS and Clock.ParseFormatHMS |
| Clock.FieldValue | app.py:154-157 | a numeric field is accepted only as one or two ASCII digits whose value is at most the bound (23 for hours, 59 for minutes and seconds) |
| Clock.ParseTime | app.py:147-162 | a clock value is returned unchanged; a non-text value, or a text neither format accepts, reads as midnight |
| Clock.ParseHM | app.py:154-157 | a text "H:M" with in-range fields reads as H hours M minutes |
| Clock.ParseHMS | app.py:154-157 | a text "H:M:S" with in-range fields reads as that time to the second |
| Clock.ParseFormatHM | app.py:154-157 | reading back the "%H:%M" text of a time gives the time truncated to the minute |
| Clock.ParseFormatHMS | app.py:154-157 | reading back the "%H:%M:%S" text of a time gives the time itself |
| Energy.DurSeconds | app.py:164-171 | an event lasts more than 0 and at most 24 hours, counted in seconds |
| Energy.DurationIsClockDistance | app.py:168-171 | the duration is the one length in (0, 24h] that, added to the start, lands on the end's clock time |
| Energy.DurHours | app.py:164-171 | the duration in hours is in (0, 24]; it is end minus start when the end is later, and 24 hours minus the gap otherwise |
| Energy.HourEnergy | app.py:173-180 | the hourly coefficient table: its meaning is stated by Energy.HourEnergyBands |
| Energy.HourEnergyBands | app.py:173-180 | the coefficient is in [0.35, 0.95]; it is at least 0.6 exactly from 06:00 to 23:00 and at least 0.9 exactly in 09-12 and 16-20; otherwise it is the floor 0.35 |
| Energy.Samples | app.py:187-190 | the sampling `while` loop's values: stated by Energy.SamplesAt and Energy.SamplesBounds |
| Energy.Mean | app.py:191 | the mean with its 0.0 fallback: stated by Energy.MeanBounds |
| Energy.SamplesAt | app.py:187-190 | the sampling loop takes ceil(length/step) samples, the k-th being the coefficient of the hour at start + k*step |
| Energy.SamplesBounds | app.py:187-190 | every sample lies in [0.35, 0.95] |
| Energy.MeanBounds | app.py:191 | a mean of values within [lo, hi] lies within [lo, hi] |
| Energy.EnergyBetween | app.py:182-191 | the energy of a span lies in [0.35, 0.95] |
| Energy.EventEnergy | app.py:182-191 | an event's energy lies in [0.35, 0.95], so the 0.0 fallback for no samples is never taken |
| Energy.EnergyBetweenSamples | app.py:182-191 | the energy is the mean of at least one hourly sample; there are ceil(duration in hours) samples, the k-th at hour (start + k) mod 24 |
| Energy.SampleMean | app.py:362-365 | the 30-minute sampling loop returns the mean of the samples the specification lists |
| Energy.EventEnergyScore | app.py:182-191 | the hourly sampling loop equals the event's energy and lies in [0.35, 0.95] |
| Agenda.Frame | app.py:340-341 | one row per event, in order, holding the event's duration and energy |
| Agenda.InFrame | app.py:340-341 | every row of the frame is the row of one of the events |
| Agenda.CategoryHours | app.py:371 | a category sum is non-negative, and zero when no event has a category in the set |
| Agenda.CategoryHoursAppend | app.py:371 | the category sum of two lists is the sum of their category sums |
| Agenda.Busy | app.py:346-349 | the busy list has at most one interval per event |
| Agenda.EventIsBusy | app.py:346-349 | every event of a day is on that day's busy list, whatever its flag |
| Agenda.BusyIsEvents | app.py:346-349 | every busy interval is the (start, end) of an event of that day |
| Agenda.Overlaps | app.py:359 | the raw half-open test: stated by Agenda.OverlapsIffSharedInstant |
| Agenda.OverlapsIffSharedInstant | app.py:359 | for proper intervals, the half-open test holds exactly when some instant lies in both |
| Agenda.ConflictFreeAvoidsEvent | app.py:357-360 | a slot free of a day's busy list passes the raw half-open test against every event of that day |
| Agenda.SlotEnd | app.py:354 | the `.time()` end of a slot, wrapping past midnight: stated by Agenda.SlotEnergyOfWrappedSlot and StudyPlan.BlockDoesNotWrap |
| Agenda.SlotEnergy | app.py:362-365 | the slot's 30-minute-sampled mean: stated by Agenda.SlotEnergyOfWrappedSlot and Energy.SampleMean |
| Agenda.SlotEnergyOfWrappedSlot | app.py:354-365 | a slot that wraps past midnight (at most a day long) averages 0; a slot that does not wrap ends exactly its length after its start |
| Agenda.BusyOn | app.py:347-349 | the loop that fills `busy` builds the day's busy list |
| Agenda.IsConflictFree | app.py:356-360 | the overlap loop with its break answers "free" exactly when no busy interval overlaps the slot |
| Burnout.RiskOf | app.py:206-208 | Low exactly below 0.3, Medium exactly in [0.3, 0.6), High exactly from 0.6 |
| Burnout.WeightedScore | app.py:200-205 | the weighted score before the clamp: stated by Burnout.WeightedScoreInRange and Burnout.WeightedScoreMonotone |
| Burnout.WeightedScoreInRange | app.py:200-205 | with non-negative hours the weighted score already lies in [0, 1], so the clamp never acts |
| Burnout.WeightedScoreMonotone | app.py:200-204 | less sleep, more study or more work never lowers the weighted score |
| Burnout.BurnoutScore | app.py:193-211 | an empty agenda gives 0.2, Low, "no data"; otherwise the score lies in [0, 1], the label matches the score and the notes report the study, work and sleep totals |
| Burnout.ScoreIsWeighted | app.py:196-205 | for a non-empty agenda the score is the weighted score of its three category totals |
| Burnout.IgnoresOtherCategories | app.py:197-199 | for a non-empty agenda, an event outside the study-like, work and sleep categories leaves the result unchanged |
| Burnout.MoreSleepNeverRaisesScore | app.py:199-205 | for a non-empty agenda, one more sleep event never raises the score |
| Burnout.FirstEventRaisesScore | app.py:194-205 | the first event of any category, a sleep event included, scores more than the 0.2 of an empty agenda |
| Burnout.MoreLoadNeverLowersScore | app.py:194-205 | one more study-like or work event never lowers the score, whether or not the agenda was empty |
| Relocation.DurationMinutes | app.py:350 | `int(dur_h * 60)`: stated by Relocation.DurationMinutesOfEvent |
| Relocation.DurationMinutesOfEvent | app.py:350 | `dur_min` is the duration's whole minutes, between 0 and 1440 |
| Relocation.FreeHours | app.py:352-361 | the start hours the candidate loop keeps: stated by Relocation.FreeHourIsFree, Relocation.FreeHourListed and Relocation.FreeHoursIncreasing |
| Relocation.Candidates | app.py:351-366 | the `candidates` list: the free hours' slots, built by Relocation.FreeSlots |
| Relocation.FreeHourIsFree | app.py:352-361 | every hour listed as free lies in the scanned range and its slot is conflict-free |
| Relocation.FreeHourListed | app.py:352-361 | every scanned hour whose slot is conflict-free is listed |
| Relocation.FreeHoursIncreasing | app.py:352-366 | the free hours, and so the candidates, come in increasing order |
| Relocation.SortByAvg | app.py:367 | `sorted(candidates, key=-avg)`: stated by Relocation.SortByAvgFacts and Relocation.SortedHeadIsBest |
| Relocation.SortByAvgFacts | app.py:367 | `sorted(candidates, key=-avg)` is a permutation of the candidates, in decreasing energy order |
| Relocation.FirstHit | app.py:367-370 | the scan returns a candidate of the list that reaches the threshold, if it returns one |
| Relocation.BestIndex | app.py:367 | the earliest position of greatest energy: nothing scores more, and everything before it scores less |
| Relocation.BestOf | app.py:367 | the reference choice is a candidate and no candidate scores more |
| Relocation.SortedHeadIsBest | app.py:367 | the stable descending sort puts the earliest best candidate first |
| Relocation.FirstHitOfSorted | app.py:367-370 | sorting then scanning picks the earliest best candidate if it clears the threshold, and nothing otherwise |
| Relocation.BestCandidateIsBestHour | app.py:352-367 | when some hour is free, some hour is the best free hour (free, nothing free scores more, every earlier free hour scores less) |
| Relocation.Choice | app.py:351-370 | the slot the candidate loop, sort and scan pick: stated by Relocation.ChoiceIsBestSlot and Relocation.ChosenSlotIsFree |
| Relocation.ChoiceIsBestSlot | app.py:352-370 | a slot is chosen exactly when some free start hour reaches the threshold, and it is then the best free hour's slot |
| Relocation.ChosenSlotIsFree | app.py:352-370 | a chosen slot starts on a whole hour in 06..21, does not wrap, lasts the event's minutes, is conflict-free and reaches the threshold |
| Relocation.Advice | app.py:344-370 | a suggestion carries the row's event id, date and energy |
| Relocation.AdviceIsFreeSameDaySlot | app.py:344-370 | a suggestion keeps the event's id, day and energy and proposes a whole-hour start in 06..21 lasting the event's whole minutes, passing the raw half-open test against the day's busy list and the event itself, with energy at least the event's plus 0.15 |
| Relocation.LowFlexible | app.py:343 | the filter keeps at most the rows it is given |
| Relocation.LowFlexibleMembers | app.py:343 | a row is kept exactly when it is flexible with energy below 0.6 |
| Relocation.SortByEnergy | app.py:343 | `sort_values("energy")`: stated by Relocation.SortByEnergyFacts |
| Relocation.SortByEnergyFacts | app.py:343 | `sort_values("energy")` is a permutation of the rows, in ascending energy order |
| Relocation.Relocations | app.py:342-370 | the `suggestions` list: stated by Relocation.RelocationsAreLowFlexibleAdvice, Relocation.AtMostOneSuggestionPerEvent and Relocation.RelocationsByEnergy |
| Relocation.CollectedFromRow | app.py:344-370 | each collected suggestion is the advice for one of the rows |
| Relocation.RelocationsFromLowFlexible | app.py:343-370 | every suggestion is the advice for a flexible event of the list whose energy is below 0.6 |
| Relocation.LowFlexibleGetsAdvice | app.py:343-370 | every flexible event below 0.6 energy whose advice is a slot gets that suggestion in the list |
| Relocation.RelocationsAreLowFlexibleAdvice | app.py:343-370 | a suggestion is in the list exactly when it is the advice for a flexible event of the agenda below 0.6 energy |
| Relocation.AtMostOneSuggestionPerEvent | app.py:344-370 | no id gets more suggestions than events carry it; with distinct ids, at most one per event |
| Relocation.RelocationsIgnoreOrder | app.py:343-370 | any two orderings of the same rows yield the same suggestions, up to order |
| Relocation.AdviceKeepsRow | app.py:369 | the advice for a row keeps the row's event id and energy |
| Relocation.RelocationsByEnergy | app.py:343-370 | suggestions come out by non-decreasing energy of the event moved |
| Relocation.SlotAt | app.py:353-366 | one turn of the candidate loop adds the hour's candidate exactly when its slot is free |
| Relocation.FreeSlots | app.py:351-366 | the candidate loop builds the free hours' candidates in increasing start order |
| Relocation.FirstReaching | app.py:367-370 | the loop with its break returns the first ranked candidate that reaches the threshold |
| Relocation.ChooseSlot | app.py:351-370 | candidate loop, sort and scan together give the specified choice |
| Relocation.AdviseRow | app.py:345-370 | the loop body for one row gives that row's advice |
| Relocation.SuggestRelocations | app.py:342-370 | the relocation loop returns the specified suggestions |
| StudyPlan.BlockMinutes | app.py:385 | `int(block_hours*60)` truncates toward zero, for both signs |
| StudyPlan.FirstEvening | app.py:383-399 | the hour scan returns an hour from where it starts up to 21, if it returns one |
| StudyPlan.FirstEveningMeaning | app.py:383-399 | the scan finds a good hour with no good hour before it, and finds none exactly when no hour is good |
| StudyPlan.BlockFrom | app.py:383-399 | a block found for a day is dated that day |
| StudyPlan.BlockFromFirstEvening | app.py:383-399 | the block found is the slot of the first good evening hour, with its sampled energy |
| StudyPlan.DayBlock | app.py:379-399 | a day's proposal is dated that day |
| StudyPlan.BlockOn | app.py:383-399 | a day's first good evening block: stated by StudyPlan.BlockOnMeaning and StudyPlan.NoBlockMeaning |
| StudyPlan.BlockOnMeaning | app.py:383-399 | a proposed block starts on a whole hour in 18..21 and ends `m` minutes later on the clock; it is conflict-free, averages at least 0.6 (its slot's energy), starts before its end, and no earlier evening hour was good |
| StudyPlan.ProposedBlockIsGood | app.py:379-399 | a block the agenda proposes for a day starts on a whole hour in 18..21, ends its length later on the clock, is free of that day's busy list and averages at least 0.6 |
| StudyPlan.NoBlockMeaning | app.py:383-399 | a day proposes nothing exactly when no evening hour is free with energy at least 0.6 |
| StudyPlan.BlockDoesNotWrap | app.py:385-386 | a block of at most a day ends exactly its length after its start |
| StudyPlan.NoBlockOfNoLength | app.py:385-396 | a block length of zero or fewer minutes never yields a block |
| StudyPlan.PlanFrom | app.py:377-399 | the day loop with its `remaining` bookkeeping: stated by StudyPlan.PlanDays, StudyPlan.PlanNeverOverbooks and StudyPlan.PlanFills |
| StudyPlan.StudyBlocks | app.py:374-399 | the `study_blocks` list: stated by StudyPlan.StudyBlocksFacts and StudyPlan.StudyBlocksFillWeek |
| StudyPlan.PlanDays | app.py:377-399 | the plan has at most one block per remaining day, on increasing days, each its day's proposal |
| StudyPlan.PlanNeverOverbooks | app.py:377-399 | all blocks but the last leave hours missing |
| StudyPlan.ProposingDays | app.py:377-399 | the number of days of the week from a given day that propose a block, at most the days left |
| StudyPlan.PlanFills | app.py:377-399 | every day that proposes a block gets it, unless the blocks already book the remaining hours |
| StudyPlan.AllDaysProposing | app.py:377-399 | when every day proposes a block, every remaining day counts as proposing |
| StudyPlan.NoProposalsNoPlan | app.py:377-399 | days that propose nothing give no blocks |
| StudyPlan.NothingMissingNoBlocks | app.py:378 | with no hours missing there are no blocks |
| StudyPlan.NoLengthNoBlocks | app.py:385-399 | a block length of zero or fewer minutes yields no blocks at all |
| StudyPlan.PlanFacts | app.py:377-399 | a plan over a week of proposals is well planned |
| StudyPlan.StudyBlocksFacts | app.py:377-399 | the study blocks are at most seven, on increasing days of the coming week, each its day's first good evening block; all but the last leave hours missing |
| StudyPlan.WeekFills | app.py:377-399 | over a week of proposals, the plan takes every proposing day or books at least what remains |
| StudyPlan.StudyBlocksFillWeek | app.py:377-399 | every day of the week with a good evening gets its block unless the blocks cover what remains; with a good evening every day, they take all seven days or cover what remains |
| StudyPlan.FirstFreeBlock | app.py:383-399 | the hour loop with its conflict loop, sampling and break returns the day's specified block |
| StudyPlan.ProposeDay | app.py:379-399 | one turn of the day loop (busy list, then hour loop) gives that day's proposal |
| StudyPlan.PlanWeek | app.py:377-399 | the day loop with its `remaining` bookkeeping and break returns the specified plan |
| StudyPlan.PlanStudyBlocks | app.py:376-399 | the whole study-block loop returns the specified study blocks |
| Optimizer.TargetWeek | app.py:372 | the target is at least 12 and at least the existing study, and equals one of them |
| Optimizer.Missing | app.py:373 | the missing hours are the gap below 12 hours, or zero from 12 hours on |
| Optimizer.PlannedBlocks | app.py:338-399 | the blocks of the result: stated by Optimizer.StudyBlocksCoverGap, Optimizer.StudyBlocksReachTarget and Optimizer.PlannedBlocksAreGood |
| Optimizer.Optimize | app.py:336-400 | the result dictionary: stated by Optimizer.TargetCoversStudy and Optimizer.ResultPromises |
| Optimizer.TargetCoversStudy | app.py:336-373 | the result's target covers 12 hours and the existing study, which is the agenda's study-category hours |
| Optimizer.PlannedBlocksAreGood | app.py:374-399 | every planned study block starts on a whole hour from 18:00 to 21:00, ends its length later on the clock, is free of its day's busy list and averages at least 0.6 |
| Optimizer.ResultPromises | app.py:336-400 | every suggestion of the result is a free same-day move for a flexible event below 0.6 energy, every such event with advice gets its suggestion, and every study block is a free evening block of at least 0.6 energy |
| Optimizer.StudyBlocksCoverGap | app.py:371-399 | the blocks are well planned against the gap to 12 hours, and there are none once 12 hours are booked |
| Optimizer.StudyBlocksReachTarget | app.py:338-399 | an empty agenda gets no blocks; otherwise every day with a good evening gets a block unless the blocks reach the target |
| Optimizer.LocalOptimizer | app.py:336-400 | the optimizer returns the specified result: empty defaults for an empty agenda, otherwise relocations, study blocks, target and existing study |

## Left out

- Clock.ParseTime: texts that only `datetime.fromisoformat` accepts (ISO date-times, fractional seconds) read as midnight here; their time part is not modelled.
- Clock.FieldValue: `strptime` also accepts non-ASCII Unicode digits for %H/%M/%S; only ASCII digits are modelled.
- Dates are day numbers; parsing date strings with `pd.to_datetime`, and dates it cannot parse, are not modelled.
- Durations, energies and scores are exact reals; floating-point rounding is not modelled.
- StudyPlan.PlanStudyBlocks: requires `BlockFits`, that the block's end stay inside `datetime`'s range at every evening hour from 18:00 to 21:00; Python raises OverflowError only at an hour it actually tries, so block lengths for which some evening hour's end leaves that range are not modelled, even where the search would stop at an earlier hour.
- Optimizer.LocalOptimizer: inherits that requirement whenever the planner runs.
- Relocation.SortByEnergy: pandas' default `sort_values` is not guaranteed stable; the model sorts stably, and Relocation.RelocationsIgnoreOrder shows the set of suggestions does not depend on the order among equal energies.
- The text fields of the results (the "from"/"to"/"reason" strings, notes text with one decimal, "%H:%M" block times) are kept as the values they format; Clock.ParseFormatHM shows what reading a "%H:%M" time back gives.
- `goals_text` and `user_id` take no part in the computation; `get_events` and `date.today()` become parameters.
- The Gemini optimizer, the Streamlit UI, the database, calendar export, `datos_iniciales.py` and `crear_base.py` are not part of this model.
- Event title, notes and priority play no part in the core's computations and are not modelled.
