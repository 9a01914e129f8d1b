/**
 * The relocation half of `local_optimizer_impl` (app.py): each flexible
 * event whose energy is below 0.6 is offered the best free whole-hour start
 * between 06:00 and 21:00 on its own day, if that start beats the event's
 * energy by 0.15.
 */
module Relocation {
  import opened Wrappers
  import opened Clock
  import opened Energy
  import opened Agenda
  import opened Lists

  const Margin: real := 0.15
  const LowEnergy: real := 0.6
  const FirstHour: int := 6
  const LastHour: int := 21

  /** An entry of `candidates`: a free slot and its 30-minute-sampled energy. */
  datatype Candidate = Candidate(start: TimeOfDay, end: TimeOfDay, avg: real)

  /** One entry of `suggestions`: the event, where it is, where to move it, and the two energies behind the advice. */
  datatype Suggestion = Suggestion(eventId: int, date: int, fromStart: TimeInput, fromEnd: TimeInput,
                                   toStart: TimeOfDay, toEnd: TimeOfDay, avg: real, energy: real)

  /** `dur_min = int(dur_h * 60)`: whole minutes of the row's event, truncated. */
  function DurationMinutes(r: Row): int {
    (r.durH * 60.0).Floor
  }

  /** For a row of the frame, the whole minutes of the event's duration: between 0 and 1440. */
  lemma DurationMinutesOfEvent(e: Event)
    ensures DurationMinutes(RowOf(e)) == DurSeconds(StartOf(e), EndOf(e)) / 60
    ensures 0 <= DurationMinutes(RowOf(e)) <= 1440
  {
    var d := DurSeconds(StartOf(e), EndOf(e));
    var m := d / 60;
    assert RowOf(e).durH * 60.0 == d as real / 60.0;
    assert (m as real) <= d as real / 60.0 < (m + 1) as real;
  }

  /** The threshold `energy + 0.15` that a new slot must reach. */
  function Threshold(r: Row): real {
    r.energy + Margin
  }

  /** An hour of the day. */
  type Hour = h: int | 0 <= h < 24

  /** The candidate tuple `(s, e, avg)` for the slot starting at hour `h`. */
  function CandidateAt(h: Hour, minutes: int): Candidate {
    Candidate(h * 3600, SlotEnd(h * 3600, minutes), SlotEnergy(h, minutes))
  }

  function SlotsOf(minutes: int): Hour -> Candidate {
    (h: Hour) => CandidateAt(h, minutes)
  }

  lemma HourStart(h: int)
    requires 0 <= h < 24
    ensures (h * 3600) % 3600 == 0 && (h * 3600) / 3600 == h
  {
  }

  /** The hours of `range(h, 22)` whose slot meets no busy interval, in increasing order. */
  function FreeHours(busy: seq<(TimeOfDay, TimeOfDay)>, minutes: int, h: int): seq<Hour>
    requires FirstHour <= h <= LastHour + 1
    decreases LastHour + 1 - h
  {
    if h > LastHour then []
    else (if SlotFree(busy, h, minutes) then [h as Hour] else []) + FreeHours(busy, minutes, h + 1)
  }

  /** The `candidates` list built by `for hour in range(h, 22)`: the slots of the free hours, by increasing start. */
  function Candidates(busy: seq<(TimeOfDay, TimeOfDay)>, minutes: int, h: int): seq<Candidate>
    requires FirstHour <= h <= LastHour + 1
  {
    Map(SlotsOf(minutes), FreeHours(busy, minutes, h))
  }

  /** Each listed hour lies in `h`..21 and its slot is free. */
  lemma {:induction false} FreeHourIsFree(busy: seq<(TimeOfDay, TimeOfDay)>, m: int, h: int, i: int)
    requires FirstHour <= h <= LastHour + 1
    requires 0 <= i < |FreeHours(busy, m, h)|
    ensures h <= FreeHours(busy, m, h)[i] <= LastHour && SlotFree(busy, FreeHours(busy, m, h)[i], m)
    decreases LastHour + 1 - h
  {
    var hs := FreeHours(busy, m, h);
    var rest := FreeHours(busy, m, h + 1);
    var d := |hs| - |rest|;
    if i >= d {
      assert hs[i] == rest[i - d];
      FreeHourIsFree(busy, m, h + 1, i - d);
    }
  }

  /** Every hour from `h` to 21 whose slot is free is listed. */
  lemma {:induction false} FreeHourListed(busy: seq<(TimeOfDay, TimeOfDay)>, m: int, h: int, k: int)
    requires FirstHour <= h <= k <= LastHour && SlotFree(busy, k, m)
    ensures k in FreeHours(busy, m, h)
    decreases k - h
  {
    if h < k {
      FreeHourListed(busy, m, h + 1, k);
    }
  }

  /** The listed hours strictly increase. */
  lemma {:induction false} FreeHoursIncreasing(busy: seq<(TimeOfDay, TimeOfDay)>, m: int, h: int, i: int, j: int)
    requires FirstHour <= h <= LastHour + 1
    requires 0 <= i < j < |FreeHours(busy, m, h)|
    ensures FreeHours(busy, m, h)[i] < FreeHours(busy, m, h)[j]
    decreases LastHour + 1 - h
  {
    var hs := FreeHours(busy, m, h);
    var rest := FreeHours(busy, m, h + 1);
    var d := |hs| - |rest|;
    assert hs[j] == rest[j - d];
    if i < d {
      FreeHourIsFree(busy, m, h + 1, j - d);
    } else {
      assert hs[i] == rest[i - d];
      FreeHoursIncreasing(busy, m, h + 1, i - d, j - d);
    }
  }

  /** Energies do not increase along the list. */
  predicate Descending(cs: seq<Candidate>) {
    forall i, j :: 0 <= i < j < |cs| ==> cs[i].avg >= cs[j].avg
  }

  /** One insertion step of `sorted(candidates, key=lambda x: -x[2])`; `c` goes before entries of no higher energy. */
  function InsertByAvg(c: Candidate, cs: seq<Candidate>): seq<Candidate> {
    if cs == [] || c.avg >= cs[0].avg then [c] + cs
    else [cs[0]] + InsertByAvg(c, cs[1..])
  }

  /** `sorted(candidates, key=lambda x: -x[2])`: a stable sort by decreasing energy. */
  function SortByAvg(cs: seq<Candidate>): seq<Candidate> {
    if cs == [] then [] else InsertByAvg(cs[0], SortByAvg(cs[1..]))
  }

  /** Insertion adds exactly `c` and puts `c` or the old head first. */
  lemma {:induction false} InsertByAvgPermutes(c: Candidate, cs: seq<Candidate>)
    ensures multiset(InsertByAvg(c, cs)) == multiset(cs) + multiset{c}
    ensures |InsertByAvg(c, cs)| == |cs| + 1
    ensures InsertByAvg(c, cs)[0] == c || (cs != [] && InsertByAvg(c, cs)[0] == cs[0])
  {
    if cs != [] && c.avg < cs[0].avg {
      assert cs == [cs[0]] + cs[1..];
      InsertByAvgPermutes(c, cs[1..]);
    }
  }

  /** Inserting a candidate into candidates whose energies are all at most `hi` keeps them so, if its own is too. */
  lemma {:induction false} InsertByAvgBelow(c: Candidate, cs: seq<Candidate>, hi: real)
    requires c.avg <= hi
    requires forall k :: 0 <= k < |cs| ==> cs[k].avg <= hi
    ensures forall k :: 0 <= k < |InsertByAvg(c, cs)| ==> InsertByAvg(c, cs)[k].avg <= hi
  {
    if cs != [] && c.avg < cs[0].avg {
      InsertByAvgBelow(c, cs[1..], hi);
      var rest := InsertByAvg(c, cs[1..]);
      forall k | 0 <= k < |InsertByAvg(c, cs)|
        ensures InsertByAvg(c, cs)[k].avg <= hi
      {
        if k > 0 {
          assert InsertByAvg(c, cs)[k] == rest[k - 1];
        }
      }
    }
  }

  /** Insertion keeps a descending list descending. */
  lemma {:induction false} InsertByAvgDescending(c: Candidate, cs: seq<Candidate>)
    requires Descending(cs)
    ensures Descending(InsertByAvg(c, cs))
  {
    if cs != [] && c.avg < cs[0].avg {
      InsertByAvgDescending(c, cs[1..]);
      InsertByAvgBelow(c, cs[1..], cs[0].avg);
      var rest := InsertByAvg(c, cs[1..]);
      var s := [cs[0]] + rest;
      assert InsertByAvg(c, cs) == s;
      forall i, j | 0 <= i < j < |s|
        ensures s[i].avg >= s[j].avg
      {
        assert s[j] == rest[j - 1];
        if i > 0 {
          assert s[i] == rest[i - 1];
        }
      }
    }
  }

  /** The sort is a permutation and its result is descending. */
  lemma {:induction false} SortByAvgFacts(cs: seq<Candidate>)
    ensures multiset(SortByAvg(cs)) == multiset(cs) && |SortByAvg(cs)| == |cs|
    ensures Descending(SortByAvg(cs))
  {
    if cs != [] {
      assert cs == [cs[0]] + cs[1..];
      SortByAvgFacts(cs[1..]);
      InsertByAvgPermutes(cs[0], SortByAvg(cs[1..]));
      InsertByAvgDescending(cs[0], SortByAvg(cs[1..]));
    }
  }

  /** The scan `for ... in sorted(...): if avg >= threshold: ...; break`. */
  function FirstHit(cs: seq<Candidate>, threshold: real): (r: Option<Candidate>)
    ensures r.Some? ==> r.value in cs && r.value.avg >= threshold
  {
    if cs == [] then None
    else if cs[0].avg >= threshold then Some(cs[0])
    else FirstHit(cs[1..], threshold)
  }

  /** The position of the earliest candidate of greatest energy. */
  function BestIndex(cs: seq<Candidate>): (i: int)
    requires cs != []
    ensures 0 <= i < |cs|
    ensures forall k :: 0 <= k < |cs| ==> cs[k].avg <= cs[i].avg
    ensures forall j :: 0 <= j < i ==> cs[j].avg < cs[i].avg
  {
    if |cs| == 1 then 0
    else
      var i := BestIndex(cs[1..]);
      if cs[0].avg >= cs[1..][i].avg then 0 else i + 1
  }

  /** The reference choice: the earliest candidate of greatest energy. */
  function BestOf(cs: seq<Candidate>): (b: Candidate)
    requires cs != []
    ensures b in cs
    ensures forall c :: c in cs ==> c.avg <= b.avg
  {
    cs[BestIndex(cs)]
  }

  lemma {:induction false} SortedHeadIsBest(cs: seq<Candidate>)
    requires cs != []
    ensures SortByAvg(cs)[0] == BestOf(cs)
  {
    if |cs| > 1 {
      SortedHeadIsBest(cs[1..]);
      InsertByAvgPermutes(cs[0], SortByAvg(cs[1..]));
    } else {
      assert SortByAvg(cs) == InsertByAvg(cs[0], []);
    }
  }

  lemma {:induction false} FirstHitNone(cs: seq<Candidate>, threshold: real)
    requires forall c :: c in cs ==> c.avg < threshold
    ensures FirstHit(cs, threshold) == None
  {
    if cs != [] {
      assert cs[0] in cs;
      assert forall c :: c in cs[1..] ==> c in cs;
      FirstHitNone(cs[1..], threshold);
    }
  }

  /**
   * The stable descending sort followed by the first hit picks the earliest
   * candidate of greatest energy when that one clears the threshold, and
   * nothing otherwise.
   */
  lemma FirstHitOfSorted(cs: seq<Candidate>, threshold: real)
    ensures FirstHit(SortByAvg(cs), threshold) ==
            if cs != [] && BestOf(cs).avg >= threshold then Some(BestOf(cs)) else None
  {
    var s := SortByAvg(cs);
    SortByAvgFacts(cs);
    if cs != [] {
      SortedHeadIsBest(cs);
      var b := BestOf(cs);
      assert s[0] == b;
      if b.avg < threshold {
        forall c | c in s
          ensures c.avg < threshold
        {
          assert c in multiset(cs);
        }
        FirstHitNone(s, threshold);
      }
    }
  }

  /** The slot the sorted scan picks for a day's busy list, an event length and a threshold. */
  function Choice(busy: seq<(TimeOfDay, TimeOfDay)>, minutes: int, threshold: real): Option<Candidate> {
    FirstHit(SortByAvg(Candidates(busy, minutes, FirstHour)), threshold)
  }

  /** The advice for one row: None, or the suggestion the sorted scan emits. */
  function Advice(events: seq<Event>, r: Row): (a: Option<Suggestion>)
    ensures a.Some? ==> a.value.eventId == r.ev.id && a.value.date == r.ev.date && a.value.energy == r.energy
  {
    match Choice(Busy(events, r.ev.date), DurationMinutes(r), Threshold(r))
    case None => None
    case Some(c) => Some(Suggestion(r.ev.id, r.ev.date, r.ev.start, r.ev.end, c.start, c.end, c.avg, r.energy))
  }

  /** Hour `h` is free, no free hour scores more, and every earlier free hour scores less. */
  predicate IsBestHour(busy: seq<(TimeOfDay, TimeOfDay)>, minutes: int, h: int)
    requires FirstHour <= h <= LastHour
  {
    && SlotFree(busy, h, minutes)
    && (forall k :: FirstHour <= k <= LastHour && SlotFree(busy, k, minutes) ==> SlotEnergy(k, minutes) <= SlotEnergy(h, minutes))
    && (forall k :: FirstHour <= k < h && SlotFree(busy, k, minutes) ==> SlotEnergy(k, minutes) < SlotEnergy(h, minutes))
  }

  /** A free hour has a candidate, at the hour's position in the list of free hours. */
  lemma CandidateOfFreeHour(busy: seq<(TimeOfDay, TimeOfDay)>, m: int, hs: seq<Hour>, cands: seq<Candidate>, k: int) returns (j: int)
    requires hs == FreeHours(busy, m, FirstHour) && cands == Candidates(busy, m, FirstHour)
    requires FirstHour <= k <= LastHour && SlotFree(busy, k, m)
    ensures 0 <= j < |hs| && hs[j] == k && j < |cands| && cands[j] == CandidateAt(k, m)
  {
    FreeHourListed(busy, m, FirstHour, k);
    j :| 0 <= j < |hs| && hs[j] == k;
  }

  /** The free hour whose candidate is the earliest best one is the best free hour. */
  lemma EarliestBestCandidateIsBestHour(busy: seq<(TimeOfDay, TimeOfDay)>, m: int, hs: seq<Hour>, cands: seq<Candidate>, i: int)
    requires hs == FreeHours(busy, m, FirstHour) && cands == Candidates(busy, m, FirstHour)
    requires 0 <= i < |hs|
    requires forall k :: 0 <= k < |cands| ==> cands[k].avg <= cands[i].avg
    requires forall j :: 0 <= j < i ==> cands[j].avg < cands[i].avg
    ensures FirstHour <= hs[i] <= LastHour
    ensures IsBestHour(busy, m, hs[i])
  {
    var h := hs[i];
    FreeHourIsFree(busy, m, FirstHour, i);
    assert cands[i] == CandidateAt(h, m);
    forall k | FirstHour <= k <= LastHour && SlotFree(busy, k, m)
      ensures SlotEnergy(k, m) <= SlotEnergy(h, m)
      ensures k < h ==> SlotEnergy(k, m) < SlotEnergy(h, m)
    {
      var j := CandidateOfFreeHour(busy, m, hs, cands, k);
      if k < h && i < j {
        FreeHoursIncreasing(busy, m, FirstHour, i, j);
      }
    }
  }

  /** The earliest candidate of greatest energy is the best free hour. */
  lemma BestCandidateIsBestHour(busy: seq<(TimeOfDay, TimeOfDay)>, m: int)
    requires Candidates(busy, m, FirstHour) != []
    ensures exists h :: FirstHour <= h <= LastHour && IsBestHour(busy, m, h)
                        && BestOf(Candidates(busy, m, FirstHour)) == CandidateAt(h, m)
  {
    var cands := Candidates(busy, m, FirstHour);
    var b := BestOf(cands);
    var i := BestIndex(cands);
    EarliestBestCandidateIsBestHour(busy, m, FreeHours(busy, m, FirstHour), cands, i);
    var h := FreeHours(busy, m, FirstHour)[i];
    assert cands[i] == CandidateAt(h, m);
  }

  /**
   * A slot is chosen exactly when some free start hour reaches the
   * threshold, and the choice is then the earliest free hour of greatest
   * energy.
   */
  lemma ChoiceIsBestSlot(busy: seq<(TimeOfDay, TimeOfDay)>, minutes: int, threshold: real)
    ensures Choice(busy, minutes, threshold).Some? <==>
            exists k :: FirstHour <= k <= LastHour && SlotFree(busy, k, minutes) && SlotEnergy(k, minutes) >= threshold
    ensures Choice(busy, minutes, threshold).Some? ==>
            exists h :: FirstHour <= h <= LastHour && IsBestHour(busy, minutes, h) && SlotEnergy(h, minutes) >= threshold
                        && Choice(busy, minutes, threshold).value == CandidateAt(h, minutes)
  {
    var cands := Candidates(busy, minutes, FirstHour);
    FirstHitOfSorted(cands, threshold);
    if cands != [] {
      BestCandidateIsBestHour(busy, minutes);
    } else {
      forall k | FirstHour <= k <= LastHour && SlotFree(busy, k, minutes)
        ensures false
      {
        FreeHourListed(busy, minutes, FirstHour, k);
      }
    }
  }

  /**
   * A chosen slot, for a positive threshold and at most a day's minutes,
   * starts on a whole hour from 06:00 to 21:00, does not wrap past
   * midnight, lasts `minutes`, is free and reaches the threshold.
   */
  lemma ChosenSlotIsFree(busy: seq<(TimeOfDay, TimeOfDay)>, m: int, threshold: real)
    requires 0 <= m <= 1440 && threshold > 0.0
    requires Choice(busy, m, threshold).Some?
    ensures var c := Choice(busy, m, threshold).value;
            && c.start % 3600 == 0 && FirstHour <= c.start / 3600 <= LastHour
            && c.start < c.end && c.end == c.start + 60 * m
            && ConflictFree(busy, c.start, c.end)
            && c.avg >= threshold
  {
    ChoiceIsBestSlot(busy, m, threshold);
    var c := Choice(busy, m, threshold).value;
    var h :| FirstHour <= h <= LastHour && IsBestHour(busy, m, h) && SlotEnergy(h, m) >= threshold && c == CandidateAt(h, m);
    SlotEnergyOfWrappedSlot(h, m);
    HourStart(h);
  }

  /**
   * `s` moves event `e` to a slot on its own day that starts on a whole hour
   * from 06:00 to 21:00, does not wrap past midnight, lasts the event's
   * whole minutes, passes the raw half-open test against every interval of
   * the day's busy list, the event's own included, and reaches the event's
   * energy plus 0.15.
   */
  predicate FreeSameDayMove(events: seq<Event>, e: Event, s: Suggestion) {
    && s.eventId == e.id && s.date == e.date && s.energy == EnergyOf(e)
    && s.toStart % 3600 == 0 && FirstHour <= s.toStart / 3600 <= LastHour
    && s.toStart < s.toEnd && s.toEnd == s.toStart + 60 * (DurSeconds(StartOf(e), EndOf(e)) / 60)
    && ConflictFree(Busy(events, e.date), s.toStart, s.toEnd)
    && !Overlaps(s.toStart, s.toEnd, StartOf(e), EndOf(e))
    && s.avg >= s.energy + Margin
  }

  /** A suggestion for an event of the agenda is a free same-day move. */
  lemma AdviceIsFreeSameDaySlot(events: seq<Event>, e: Event)
    requires e in events
    requires Advice(events, RowOf(e)).Some?
    ensures FreeSameDayMove(events, e, Advice(events, RowOf(e)).value)
  {
    var r := RowOf(e);
    var busy := Busy(events, e.date);
    var m := DurationMinutes(r);
    DurationMinutesOfEvent(e);
    assert r.energy >= 0.35;
    ChosenSlotIsFree(busy, m, Threshold(r));
    var s := Advice(events, r).value;
    ConflictFreeAvoidsEvent(events, e, s.toStart, s.toEnd);
  }

  /** Flexible (`fixed == 0`) rows whose energy is below 0.6. */
  predicate IsLowFlexible(r: Row) {
    r.ev.fixed == 0 && r.energy < LowEnergy
  }

  /** `df[(df["fixed"] == 0) & (df["energy"] < 0.6)]`, in frame order. */
  function LowFlexible(rows: seq<Row>): (low: seq<Row>)
    ensures |low| <= |rows|
  {
    if rows == [] then [] else (if IsLowFlexible(rows[0]) then [rows[0]] else []) + LowFlexible(rows[1..])
  }

  /** The filter keeps exactly the flexible low-energy rows. */
  lemma {:induction false} LowFlexibleMembers(rows: seq<Row>, r: Row)
    ensures r in LowFlexible(rows) <==> r in rows && IsLowFlexible(r)
  {
    if rows != [] {
      LowFlexibleMembers(rows[1..], r);
      assert r in rows <==> r == rows[0] || r in rows[1..];
    }
  }

  /** Energies do not decrease along the rows. */
  predicate Ascending(rows: seq<Row>) {
    forall i, j :: 0 <= i < j < |rows| ==> rows[i].energy <= rows[j].energy
  }

  function InsertByEnergy(r: Row, rows: seq<Row>): seq<Row> {
    if rows == [] || r.energy <= rows[0].energy then [r] + rows
    else [rows[0]] + InsertByEnergy(r, rows[1..])
  }

  /**
   * `sort_values("energy")`, by increasing energy. The model fixes one order
   * for rows of equal energy; RelocationsIgnoreOrder shows that any other
   * order gives the same suggestions.
   */
  function SortByEnergy(rows: seq<Row>): seq<Row> {
    if rows == [] then [] else InsertByEnergy(rows[0], SortByEnergy(rows[1..]))
  }

  lemma {:induction false} InsertByEnergyPermutes(r: Row, rows: seq<Row>)
    ensures multiset(InsertByEnergy(r, rows)) == multiset(rows) + multiset{r}
    ensures |InsertByEnergy(r, rows)| == |rows| + 1
  {
    if rows != [] && r.energy > rows[0].energy {
      assert rows == [rows[0]] + rows[1..];
      InsertByEnergyPermutes(r, rows[1..]);
    }
  }

  /** Inserting a row into rows whose energies are all at least `lo` keeps them so, if the row's is too. */
  lemma {:induction false} InsertByEnergyAbove(r: Row, rows: seq<Row>, lo: real)
    requires lo <= r.energy
    requires forall k :: 0 <= k < |rows| ==> lo <= rows[k].energy
    ensures forall k :: 0 <= k < |InsertByEnergy(r, rows)| ==> lo <= InsertByEnergy(r, rows)[k].energy
  {
    if rows != [] && r.energy > rows[0].energy {
      InsertByEnergyAbove(r, rows[1..], lo);
      var rest := InsertByEnergy(r, rows[1..]);
      forall k | 0 <= k < |InsertByEnergy(r, rows)|
        ensures lo <= InsertByEnergy(r, rows)[k].energy
      {
        if k > 0 {
          assert InsertByEnergy(r, rows)[k] == rest[k - 1];
        }
      }
    }
  }

  lemma {:induction false} InsertByEnergyAscending(r: Row, rows: seq<Row>)
    requires Ascending(rows)
    ensures Ascending(InsertByEnergy(r, rows))
  {
    if rows != [] && r.energy > rows[0].energy {
      InsertByEnergyAscending(r, rows[1..]);
      InsertByEnergyAbove(r, rows[1..], rows[0].energy);
      var rest := InsertByEnergy(r, rows[1..]);
      var s := [rows[0]] + rest;
      assert InsertByEnergy(r, rows) == s;
      forall i, j | 0 <= i < j < |s|
        ensures s[i].energy <= s[j].energy
      {
        assert s[j] == rest[j - 1];
        if i > 0 {
          assert s[i] == rest[i - 1];
        }
      }
    }
  }

  /** The sort is a permutation and its result is ascending. */
  lemma {:induction false} SortByEnergyFacts(rows: seq<Row>)
    ensures multiset(SortByEnergy(rows)) == multiset(rows) && |SortByEnergy(rows)| == |rows|
    ensures Ascending(SortByEnergy(rows))
  {
    if rows != [] {
      assert rows == [rows[0]] + rows[1..];
      SortByEnergyFacts(rows[1..]);
      InsertByEnergyPermutes(rows[0], SortByEnergy(rows[1..]));
      InsertByEnergyAscending(rows[0], SortByEnergy(rows[1..]));
    }
  }

  /** The advice for each row, as a function value. */
  function AdviceFor(events: seq<Event>): Row -> Option<Suggestion> {
    r => Advice(events, r)
  }

  /** The suggestions collected by `for _, r in rows: ...`, in that order. */
  function Collect(events: seq<Event>, rows: seq<Row>): seq<Suggestion> {
    Somes(Map(AdviceFor(events), rows))
  }

  /** The `suggestions` list of `local_optimizer_impl`. */
  function Relocations(events: seq<Event>): seq<Suggestion> {
    Collect(events, SortByEnergy(LowFlexible(Frame(events))))
  }

  /** Each collected suggestion is the advice for one of the rows. */
  lemma CollectedFromRow(events: seq<Event>, rows: seq<Row>, s: Suggestion) returns (k: int)
    requires s in Collect(events, rows)
    ensures 0 <= k < |rows| && Advice(events, rows[k]) == Some(s)
  {
    k := SomesOfMap(AdviceFor(events), rows, s);
  }

  /** Every suggestion is the advice for a flexible, low-energy event of the list. */
  lemma RelocationsFromLowFlexible(events: seq<Event>, s: Suggestion)
    requires s in Relocations(events)
    ensures exists e :: e in events && e.fixed == 0 && EnergyOf(e) < LowEnergy && Advice(events, RowOf(e)) == Some(s)
  {
    var low := LowFlexible(Frame(events));
    var sorted := SortByEnergy(low);
    SortByEnergyFacts(low);
    var k := CollectedFromRow(events, sorted, s);
    var r := sorted[k];
    assert r in multiset(sorted);
    assert r in low;
    LowFlexibleMembers(Frame(events), r);
    InFrame(events, r);
  }

  /** Conversely, every flexible low-energy event that has advice gets it into the suggestions. */
  lemma LowFlexibleGetsAdvice(events: seq<Event>, e: Event)
    requires e in events && e.fixed == 0 && EnergyOf(e) < LowEnergy
    requires Advice(events, RowOf(e)).Some?
    ensures Advice(events, RowOf(e)).value in Relocations(events)
  {
    var frame := Frame(events);
    var r := RowOf(e);
    var k :| 0 <= k < |events| && events[k] == e;
    assert frame[k] == r;
    LowFlexibleMembers(frame, r);
    var low := LowFlexible(frame);
    SortByEnergyFacts(low);
    var sorted := SortByEnergy(low);
    assert r in multiset(sorted);
    var j :| 0 <= j < |sorted| && sorted[j] == r;
    var advice := Map(AdviceFor(events), sorted);
    assert advice[j] == Advice(events, r);
    SomesHas(advice, Advice(events, r).value);
  }

  /** The suggestions are exactly the advice for the flexible events whose energy is below 0.6. */
  lemma RelocationsAreLowFlexibleAdvice(events: seq<Event>, s: Suggestion)
    ensures s in Relocations(events) <==>
            exists e :: e in events && e.fixed == 0 && EnergyOf(e) < LowEnergy && Advice(events, RowOf(e)) == Some(s)
  {
    if s in Relocations(events) {
      RelocationsFromLowFlexible(events, s);
    }
    if exists e :: e in events && e.fixed == 0 && EnergyOf(e) < LowEnergy && Advice(events, RowOf(e)) == Some(s) {
      var e :| e in events && e.fixed == 0 && EnergyOf(e) < LowEnergy && Advice(events, RowOf(e)) == Some(s);
      LowFlexibleGetsAdvice(events, e);
    }
  }

  function CountRows(rows: seq<Row>, id: int): nat {
    if rows == [] then 0 else (if rows[0].ev.id == id then 1 else 0) + CountRows(rows[1..], id)
  }

  function CountEvents(events: seq<Event>, id: int): nat {
    if events == [] then 0 else (if events[0].id == id then 1 else 0) + CountEvents(events[1..], id)
  }

  function CountSuggestions(ss: seq<Suggestion>, id: int): nat {
    if ss == [] then 0 else (if ss[0].eventId == id then 1 else 0) + CountSuggestions(ss[1..], id)
  }

  lemma {:induction false} CountRowsInsert(r: Row, rows: seq<Row>, id: int)
    ensures CountRows(InsertByEnergy(r, rows), id) == CountRows([r] + rows, id)
  {
    if rows != [] && r.energy > rows[0].energy {
      CountRowsInsert(r, rows[1..], id);
      assert ([r] + rows)[1..] == rows;
      assert ([r] + rows[1..])[1..] == rows[1..];
    }
  }

  lemma {:induction false} CountRowsSort(rows: seq<Row>, id: int)
    ensures CountRows(SortByEnergy(rows), id) == CountRows(rows, id)
  {
    if rows != [] {
      CountRowsSort(rows[1..], id);
      CountRowsInsert(rows[0], SortByEnergy(rows[1..]), id);
    }
  }

  lemma {:induction false} CountRowsLow(rows: seq<Row>, id: int)
    ensures CountRows(LowFlexible(rows), id) <= CountRows(rows, id)
  {
    if rows != [] {
      CountRowsLow(rows[1..], id);
      var rest := LowFlexible(rows[1..]);
      if IsLowFlexible(rows[0]) {
        assert LowFlexible(rows) == [rows[0]] + rest;
        assert ([rows[0]] + rest)[1..] == rest;
      } else {
        assert LowFlexible(rows) == rest;
      }
    }
  }

  lemma {:induction false} CountRowsFrame(events: seq<Event>, id: int)
    ensures CountRows(Frame(events), id) == CountEvents(events, id)
  {
    if events != [] {
      assert Frame(events)[1..] == Frame(events[1..]);
      CountRowsFrame(events[1..], id);
    }
  }

  /** A per-row advice that keeps the row's event id yields no more suggestions for an id than rows with it. */
  lemma {:induction false} CountKept(f: Row -> Option<Suggestion>, rows: seq<Row>, id: int)
    requires forall r :: f(r).Some? ==> f(r).value.eventId == r.ev.id
    ensures CountSuggestions(Somes(Map(f, rows)), id) <= CountRows(rows, id)
  {
    if rows != [] {
      CountKept(f, rows[1..], id);
      var head: seq<Suggestion> := Single(f(rows[0]));
      assert Map(f, rows)[1..] == Map(f, rows[1..]);
      var rest: seq<Suggestion> := Somes(Map(f, rows[1..]));
      assert Somes(Map(f, rows)) == head + rest;
      if head != [] {
        assert head == [f(rows[0]).value];
        assert (head + rest)[0].eventId == rows[0].ev.id;
        assert (head + rest)[1..] == rest;
      } else {
        assert head + rest == rest;
      }
    }
  }

  /** No event gets more suggestions than there are events with its id: with distinct ids, at most one. */
  lemma AtMostOneSuggestionPerEvent(events: seq<Event>, id: int)
    ensures CountSuggestions(Relocations(events), id) <= CountEvents(events, id)
  {
    AdviceKeepsRow(events);
    CountKept(AdviceFor(events), SortByEnergy(LowFlexible(Frame(events))), id);
    CountRowsSort(LowFlexible(Frame(events)), id);
    CountRowsLow(Frame(events), id);
    CountRowsFrame(events, id);
  }

  /**
   * Suggestions never feed back into the search, so the order in which the
   * low-energy rows are visited changes only the order of the output: any
   * two orderings of the same rows give the same suggestions.
   */
  lemma RelocationsIgnoreOrder(events: seq<Event>, p: seq<Row>, q: seq<Row>)
    requires multiset(p) == multiset(q)
    ensures multiset(Collect(events, p)) == multiset(Collect(events, q))
  {
    MapPermutation(AdviceFor(events), p, q);
    SomesPermutation(Map(AdviceFor(events), p), Map(AdviceFor(events), q));
  }

  /** The advice for a row keeps the row's event id and energy. */
  lemma AdviceKeepsRow(events: seq<Event>)
    ensures forall r :: AdviceFor(events)(r).Some? ==>
              AdviceFor(events)(r).value.eventId == r.ev.id && AdviceFor(events)(r).value.energy == r.energy
  {
    forall r | AdviceFor(events)(r).Some?
      ensures AdviceFor(events)(r).value.eventId == r.ev.id && AdviceFor(events)(r).value.energy == r.energy
    {
      assert AdviceFor(events)(r) == Advice(events, r);
    }
  }

  /** The energies of the moved events do not decrease along the suggestions. */
  predicate SuggestionsAscending(ss: seq<Suggestion>) {
    forall i, j :: 0 <= i < j < |ss| ==> ss[i].energy <= ss[j].energy
  }

  /** Advice that carries the row's energy, on rows of energy at least `lo`, gives suggestions of energy at least `lo`. */
  lemma {:induction false} KeptAbove(f: Row -> Option<Suggestion>, rows: seq<Row>, lo: real)
    requires forall r :: f(r).Some? ==> f(r).value.energy == r.energy
    requires forall k :: 0 <= k < |rows| ==> lo <= rows[k].energy
    ensures forall k :: 0 <= k < |Somes(Map(f, rows))| ==> lo <= Somes(Map(f, rows))[k].energy
  {
    forall k | 0 <= k < |Somes(Map(f, rows))|
      ensures lo <= Somes(Map(f, rows))[k].energy
    {
      var j := SomesOfMap(f, rows, Somes(Map(f, rows))[k]);
    }
  }

  /** An advice that carries the row's energy keeps rows sorted by energy sorted. */
  lemma {:induction false} KeptInEnergyOrder(f: Row -> Option<Suggestion>, rows: seq<Row>)
    requires forall r :: f(r).Some? ==> f(r).value.energy == r.energy
    requires Ascending(rows)
    ensures SuggestionsAscending(Somes(Map(f, rows)))
  {
    if rows != [] {
      var advice := Map(f, rows[1..]);
      KeptInEnergyOrder(f, rows[1..]);
      KeptAbove(f, rows[1..], rows[0].energy);
      var rest := Somes(advice);
      assert Map(f, rows)[1..] == advice;
      var ss := Single(f(rows[0])) + rest;
      assert Somes(Map(f, rows)) == ss;
      forall i, j | 0 <= i < j < |ss|
        ensures ss[i].energy <= ss[j].energy
      {
        var d := |ss| - |rest|;
        assert ss[j] == rest[j - d];
        if i >= d {
          assert ss[i] == rest[i - d];
        }
      }
    }
  }

  /** Suggestions come out worst-scheduled first: by non-decreasing energy of the event moved. */
  lemma RelocationsByEnergy(events: seq<Event>)
    ensures SuggestionsAscending(Relocations(events))
  {
    var rows := SortByEnergy(LowFlexible(Frame(events)));
    SortByEnergyFacts(LowFlexible(Frame(events)));
    AdviceKeepsRow(events);
    KeptInEnergyOrder(AdviceFor(events), rows);
    assert Relocations(events) == Somes(Map(AdviceFor(events), rows));
  }

  /** The hours hour `h` contributes: itself when its slot meets no busy interval. */
  function HourList(busy: seq<(TimeOfDay, TimeOfDay)>, m: int, h: Hour): seq<Hour> {
    if SlotFree(busy, h, m) then [h] else []
  }

  /** The body of the candidate loop: the conflict test, then the sampled average. */
  method SlotAt(busy: seq<(TimeOfDay, TimeOfDay)>, minutes: int, hour: Hour) returns (found: seq<Candidate>)
    ensures found == Map(SlotsOf(minutes), HourList(busy, minutes, hour))
  {
    var a: TimeOfDay := hour * 3600;
    var b := SlotEnd(a, minutes);
    var free := IsConflictFree(busy, a, b);
    found := [];
    if free {
      var avg := SampleMean(a, b, 1800);
      found := [Candidate(a, b, avg)];
    }
  }

  /** One turn of the candidate loop: hour `h` moves from the hours still to scan to the hours scanned. */
  lemma FreeHoursStep(busy: seq<(TimeOfDay, TimeOfDay)>, m: int, hours: seq<Hour>, h: Hour)
    requires FirstHour <= h <= LastHour
    requires hours + FreeHours(busy, m, h) == FreeHours(busy, m, FirstHour)
    ensures (hours + HourList(busy, m, h)) + FreeHours(busy, m, h + 1) == FreeHours(busy, m, FirstHour)
    ensures Map(SlotsOf(m), hours + HourList(busy, m, h)) == Map(SlotsOf(m), hours) + Map(SlotsOf(m), HourList(busy, m, h))
  {
    assert FreeHours(busy, m, h) == HourList(busy, m, h) + FreeHours(busy, m, h + 1);
    AppendAssoc(hours, HourList(busy, m, h), FreeHours(busy, m, h + 1));
    MapAppend(SlotsOf(m), hours, HourList(busy, m, h));
  }

  /** The candidate loop `for hour in range(6, 22)`. */
  method FreeSlots(busy: seq<(TimeOfDay, TimeOfDay)>, minutes: int) returns (candidates: seq<Candidate>)
    ensures candidates == Candidates(busy, minutes, FirstHour)
  {
    candidates := [];
    ghost var hours: seq<Hour> := [];
    var hour := FirstHour;
    while hour <= LastHour
      invariant FirstHour <= hour <= LastHour + 1
      invariant hours + FreeHours(busy, minutes, hour) == FreeHours(busy, minutes, FirstHour)
      invariant candidates == Map(SlotsOf(minutes), hours)
    {
      var found := SlotAt(busy, minutes, hour);
      FreeHoursStep(busy, minutes, hours, hour);
      hours := hours + HourList(busy, minutes, hour);
      candidates := candidates + found;
      hour := hour + 1;
    }
    assert hours == FreeHours(busy, minutes, FirstHour);
  }

  /** The scan of the ranked candidates that stops at the first one reaching the threshold. */
  method FirstReaching(ranked: seq<Candidate>, threshold: real) returns (c: Option<Candidate>)
    ensures c == FirstHit(ranked, threshold)
  {
    var i := 0;
    while i < |ranked|
      invariant 0 <= i <= |ranked|
      invariant FirstHit(ranked, threshold) == FirstHit(ranked[i..], threshold)
    {
      if ranked[i].avg >= threshold {
        return Some(ranked[i]);
      }
      assert ranked[i..][1..] == ranked[i + 1..];
      i := i + 1;
    }
    return None;
  }

  /** The candidate loop, the sort by decreasing energy and the scan for the threshold. */
  method ChooseSlot(busy: seq<(TimeOfDay, TimeOfDay)>, minutes: int, threshold: real) returns (c: Option<Candidate>)
    ensures c == Choice(busy, minutes, threshold)
  {
    var candidates := FreeSlots(busy, minutes);
    var ranked := SortByAvg(candidates);
    c := FirstReaching(ranked, threshold);
  }

  /** The body of `for _, r in low.iterrows()`: busy list, candidate loop, sorted scan. */
  method AdviseRow(events: seq<Event>, r: Row) returns (s: Option<Suggestion>)
    ensures s == Advice(events, r)
  {
    var busy := BusyOn(events, r.ev.date);
    var minutes := (r.durH * 60.0).Floor;
    var c := ChooseSlot(busy, minutes, r.energy + Margin);
    if c.Some? {
      var best := c.value;
      s := Some(Suggestion(r.ev.id, r.ev.date, r.ev.start, r.ev.end, best.start, best.end, best.avg, r.energy));
    } else {
      s := None;
    }
    AdviceOfChoice(events, r, busy, minutes, r.energy + Margin, c);
  }

  /** The advice for a row, in terms of the slot the sorted scan picks. */
  lemma AdviceOfChoice(events: seq<Event>, r: Row, busy: seq<(TimeOfDay, TimeOfDay)>, minutes: int, threshold: real, c: Option<Candidate>)
    requires busy == Busy(events, r.ev.date) && minutes == DurationMinutes(r) && threshold == Threshold(r)
    requires c == Choice(busy, minutes, threshold)
    ensures Advice(events, r) ==
              if c.Some? then Some(Suggestion(r.ev.id, r.ev.date, r.ev.start, r.ev.end, c.value.start, c.value.end, c.value.avg, r.energy))
              else None
  {
  }

  /** The relocation loop over the low-energy flexible rows, sorted by energy. */
  method SuggestRelocations(events: seq<Event>) returns (ss: seq<Suggestion>)
    ensures ss == Relocations(events)
  {
    var low := SortByEnergy(LowFlexible(Frame(events)));
    ss := [];
    var i := 0;
    assert low[i..] == low;
    while i < |low|
      invariant 0 <= i <= |low|
      invariant ss + Collect(events, low[i..]) == Collect(events, low)
    {
      var s := AdviseRow(events, low[i]);
      SomesMapStep(AdviceFor(events), low, i, ss, s);
      ss := ss + Single(s);
      i := i + 1;
    }
    assert low[i..] == [];
    assert Collect(events, []) == [];
  }
}
