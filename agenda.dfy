/**
 * Events as the optimizer and the burnout estimate see them, each day's
 * busy list, the half-open conflict test, and the candidate slots that
 * both searches of `local_optimizer_impl` (app.py) try.
 */
module Agenda {
  import opened Clock
  import opened Energy

  /**
   * One row of the events table. Dates are day numbers; start and end are
   * the stored values, read with ParseTime wherever the source reads them.
   * Title, notes and priority play no part in the computations here.
   */
  datatype Event = Event(id: int, category: string, date: int, start: TimeInput, end: TimeInput, fixed: int)

  /** The study-like categories, which count towards the weekly study target. */
  const StudyCategories: set<string> := {"Estudio", "Tarea", "Tesis", "Clase", "Proyecto TI", "Investigación"}
  const WorkCategory: string := "Trabajo"
  const SleepCategory: string := "Sueño"

  function StartOf(e: Event): TimeOfDay {
    ParseTime(e.start)
  }

  function EndOf(e: Event): TimeOfDay {
    ParseTime(e.end)
  }

  /** The `dur_h` column. */
  function Hours(e: Event): real {
    DurHours(e.start, e.end)
  }

  /** The `energy` column. */
  function EnergyOf(e: Event): real {
    EventEnergy(e.start, e.end)
  }

  /** A row of the optimizer's frame: an event with its `dur_h` and `energy` columns. */
  datatype Row = Row(ev: Event, durH: real, energy: real)

  function RowOf(e: Event): Row {
    Row(e, Hours(e), EnergyOf(e))
  }

  /** The frame after `df["dur_h"] = ...` and `df["energy"] = ...`: one row per event, in list order. */
  function Frame(events: seq<Event>): (rows: seq<Row>)
    ensures |rows| == |events|
    ensures forall k :: 0 <= k < |rows| ==> rows[k] == RowOf(events[k])
  {
    seq(|events|, k requires 0 <= k < |events| => RowOf(events[k]))
  }

  lemma InFrame(events: seq<Event>, r: Row)
    requires r in Frame(events)
    ensures r.ev in events && r == RowOf(r.ev)
  {
    var k :| 0 <= k < |events| && Frame(events)[k] == r;
  }

  /** Total hours of the events whose category is in `cats` (a filtered `dur` column summed). */
  function CategoryHours(events: seq<Event>, cats: set<string>): (h: real)
    ensures h >= 0.0
    ensures (forall k :: 0 <= k < |events| ==> events[k].category !in cats) ==> h == 0.0
  {
    if events == [] then 0.0
    else (if events[0].category in cats then Hours(events[0]) else 0.0) + CategoryHours(events[1..], cats)
  }

  lemma {:induction false} CategoryHoursAppend(events: seq<Event>, more: seq<Event>, cats: set<string>)
    ensures CategoryHours(events + more, cats) == CategoryHours(events, cats) + CategoryHours(more, cats)
  {
    if events != [] {
      assert (events + more)[1..] == events[1..] + more;
      CategoryHoursAppend(events[1..], more, cats);
    } else {
      assert events + more == more;
    }
  }

  /** The (start, end) pairs of the events on day `d`, in list order; every event of the day counts. */
  function Busy(events: seq<Event>, d: int): (busy: seq<(TimeOfDay, TimeOfDay)>)
    ensures |busy| <= |events|
  {
    if events == [] then []
    else (if events[0].date == d then [(StartOf(events[0]), EndOf(events[0]))] else []) + Busy(events[1..], d)
  }

  /** Every event of the day is on the day's busy list, whatever its `fixed` flag. */
  lemma {:induction false} EventIsBusy(events: seq<Event>, e: Event)
    requires e in events
    ensures (StartOf(e), EndOf(e)) in Busy(events, e.date)
  {
    if events[0] != e {
      assert e in events[1..];
      EventIsBusy(events[1..], e);
    }
  }

  /** Every interval of the busy list belongs to an event of that day. */
  lemma {:induction false} BusyIsEvents(events: seq<Event>, d: int, k: int)
    requires 0 <= k < |Busy(events, d)|
    ensures exists e :: e in events && e.date == d && Busy(events, d)[k] == (StartOf(e), EndOf(e))
  {
    var rest := Busy(events[1..], d);
    if events[0].date == d && k == 0 {
      assert Busy(events, d)[0] == (StartOf(events[0]), EndOf(events[0]));
    } else {
      var k' := if events[0].date == d then k - 1 else k;
      assert Busy(events, d)[k] == rest[k'];
      BusyIsEvents(events[1..], d, k');
      var e :| e in events[1..] && e.date == d && rest[k'] == (StartOf(e), EndOf(e));
      assert e in events;
    }
  }

  /** The half-open test `not (sb <= x or sa >= y)`, on the clock values as they are. */
  predicate Overlaps(sa: int, sb: int, x: int, y: int) {
    !(sb <= x || sa >= y)
  }

  predicate Within(t: int, a: int, b: int) {
    a <= t < b
  }

  /** For proper intervals, the test holds exactly when some instant lies in both. */
  lemma OverlapsIffSharedInstant(sa: int, sb: int, x: int, y: int)
    requires sa < sb && x < y
    ensures Overlaps(sa, sb, x, y) <==> exists t :: Within(t, sa, sb) && Within(t, x, y)
  {
    if Overlaps(sa, sb, x, y) {
      var t := if sa < x then x else sa;
      assert Within(t, sa, sb) && Within(t, x, y);
    }
  }

  /** No interval of the busy list overlaps [sa, sb). */
  predicate ConflictFree(busy: seq<(TimeOfDay, TimeOfDay)>, sa: int, sb: int) {
    forall k :: 0 <= k < |busy| ==> !Overlaps(sa, sb, busy[k].0, busy[k].1)
  }

  /** A slot free of a day's busy list also avoids every single event of that day, the event being moved included. */
  lemma ConflictFreeAvoidsEvent(events: seq<Event>, e: Event, sa: int, sb: int)
    requires e in events
    requires ConflictFree(Busy(events, e.date), sa, sb)
    ensures !Overlaps(sa, sb, StartOf(e), EndOf(e))
  {
    var busy := Busy(events, e.date);
    EventIsBusy(events, e);
    var k :| 0 <= k < |busy| && busy[k] == (StartOf(e), EndOf(e));
  }

  /** `(datetime.combine(date.min, a) + timedelta(minutes=minutes)).time()`: the end wraps past midnight. */
  function SlotEnd(a: TimeOfDay, minutes: int): TimeOfDay {
    (a + minutes * 60) % SecondsPerDay
  }

  /** The slot that starts on the hour `h` and lasts `minutes`. */
  predicate SlotFree(busy: seq<(TimeOfDay, TimeOfDay)>, h: int, minutes: int)
    requires 0 <= h < 24
  {
    ConflictFree(busy, h * 3600, SlotEnd(h * 3600, minutes))
  }

  /** The slot's energy, sampled every 30 minutes from its start up to its (possibly wrapped) end. */
  function SlotEnergy(h: int, minutes: int): real
    requires 0 <= h < 24
  {
    Mean(Samples(h * 3600, SlotEnd(h * 3600, minutes), 1800))
  }

  /** A slot whose end wraps past midnight takes no samples and scores 0; otherwise it ends `minutes` later. */
  lemma SlotEnergyOfWrappedSlot(h: int, minutes: int)
    requires 0 <= h < 24 && minutes >= 0
    ensures h * 3600 + minutes * 60 >= SecondsPerDay && minutes <= 1440 ==> SlotEnergy(h, minutes) == 0.0
    ensures h * 3600 + minutes * 60 < SecondsPerDay ==> SlotEnd(h * 3600, minutes) == h * 3600 + minutes * 60
  {
    var a := h * 3600;
    if a + minutes * 60 >= SecondsPerDay && minutes <= 1440 {
      assert SlotEnd(a, minutes) == a + minutes * 60 - SecondsPerDay;
      assert Samples(a, SlotEnd(a, minutes), 1800) == [];
    }
  }

  /** The loop that fills `busy` from the day's rows. */
  method BusyOn(events: seq<Event>, d: int) returns (busy: seq<(TimeOfDay, TimeOfDay)>)
    ensures busy == Busy(events, d)
  {
    busy := [];
    var i := 0;
    while i < |events|
      invariant 0 <= i <= |events|
      invariant busy + Busy(events[i..], d) == Busy(events, d)
    {
      assert events[i..][1..] == events[i + 1..];
      if events[i].date == d {
        busy := busy + [(StartOf(events[i]), EndOf(events[i]))];
      }
      i := i + 1;
    }
    assert events[i..] == [];
  }

  /** The loop over the busy list that sets `overlaps` (or `conflict`) and breaks. */
  method IsConflictFree(busy: seq<(TimeOfDay, TimeOfDay)>, sa: int, sb: int) returns (free: bool)
    ensures free == ConflictFree(busy, sa, sb)
  {
    var k := 0;
    while k < |busy|
      invariant 0 <= k <= |busy|
      invariant forall j :: 0 <= j < k ==> !Overlaps(sa, sb, busy[j].0, busy[j].1)
    {
      var (x, y) := busy[k];
      if !(sb <= x || sa >= y) {
        return false;
      }
      k := k + 1;
    }
    return true;
  }
}
