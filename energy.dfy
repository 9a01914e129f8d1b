/**
 * Durations and the diurnal energy model (app.py: `dur_hours`,
 * `hour_energy`, `event_energy_score`), and the sampling loop that the
 * optimizer repeats with a 30-minute step.
 */
module Energy {
  import opened Clock

  /**
   * Seconds from `s` to `e`; an end at or before the start crosses midnight,
   * so a day is added. The result is the clock distance from `s` to `e`
   * (see DurationIsClockDistance).
   */
  function DurSeconds(s: TimeOfDay, e: TimeOfDay): (d: int)
    ensures 0 < d <= SecondsPerDay
  {
    if e <= s then e + SecondsPerDay - s else e - s
  }

  /** The duration is the one length in (0, 24h] that, added to the start, lands on the end's clock time. */
  lemma DurationIsClockDistance(s: TimeOfDay, e: TimeOfDay, d: int)
    requires 0 < d <= SecondsPerDay
    ensures (s + d) % SecondsPerDay == e <==> d == DurSeconds(s, e)
  {
    if s + d < SecondsPerDay {
      assert (s + d) % SecondsPerDay == s + d;
    } else {
      assert (s + d) % SecondsPerDay == s + d - SecondsPerDay;
    }
  }

  /** `dur_hours`: the length of an event in hours, in (0, 24]. */
  function DurHours(start: TimeInput, end: TimeInput): (h: real)
    ensures 0.0 < h <= 24.0
    ensures ParseTime(start) < ParseTime(end) ==> h == (ParseTime(end) - ParseTime(start)) as real / 3600.0
    ensures ParseTime(end) <= ParseTime(start) ==> h == 24.0 - (ParseTime(start) - ParseTime(end)) as real / 3600.0
  {
    DurSeconds(ParseTime(start), ParseTime(end)) as real / 3600.0
  }

  /** `hour_energy`: the productivity coefficient of an hour of the day. */
  function HourEnergy(h: int): real {
    if 9 <= h < 12 then 0.95
    else if 16 <= h < 20 then 0.92
    else if 6 <= h < 9 then 0.75
    else if 12 <= h < 16 then 0.78
    else if 20 <= h < 23 then 0.6
    else 0.35
  }

  /**
   * The coefficient lies in [0.35, 0.95]; it reaches 0.6 exactly from 06:00
   * to 23:00, 0.9 exactly in the two peaks 09:00-12:00 and 16:00-20:00, and
   * is the night floor 0.35 otherwise.
   */
  lemma HourEnergyBands(h: int)
    ensures 0.35 <= HourEnergy(h) <= 0.95
    ensures HourEnergy(h) >= 0.6 <==> 6 <= h < 23
    ensures HourEnergy(h) >= 0.9 <==> 9 <= h < 12 || 16 <= h < 20
    ensures HourEnergy(h) == 0.35 <==> h < 6 || 23 <= h
  {
  }

  /**
   * The values collected by `while t < until: vals.append(hour_energy(t.hour)); t += step`,
   * with `t` counted in seconds from midnight of the first day.
   */
  function Samples(t: int, until: int, step: int): seq<real>
    requires step > 0
    decreases until - t
  {
    if t >= until then [] else [HourEnergy((t / 3600) % 24)] + Samples(t + step, until, step)
  }

  /** There are ceil((until - t) / step) samples, and sample k is taken at t + k * step. */
  lemma SamplesAt(t: int, until: int, step: int)
    requires step > 0
    ensures t >= until ==> Samples(t, until, step) == []
    ensures t < until ==> (|Samples(t, until, step)| - 1) * step < until - t <= |Samples(t, until, step)| * step
    ensures forall k :: 0 <= k < |Samples(t, until, step)| ==>
              Samples(t, until, step)[k] == HourEnergy(((t + k * step) / 3600) % 24)
  {
    SamplesCount(t, until, step);
    forall k | 0 <= k < |Samples(t, until, step)|
      ensures Samples(t, until, step)[k] == HourEnergy(((t + k * step) / 3600) % 24)
    {
      SampleValue(t, until, step, k);
    }
  }

  lemma {:induction false} SamplesCount(t: int, until: int, step: int)
    requires step > 0
    ensures t < until ==> (|Samples(t, until, step)| - 1) * step < until - t <= |Samples(t, until, step)| * step
    decreases until - t
  {
    if t < until {
      SamplesCount(t + step, until, step);
      var n := |Samples(t + step, until, step)|;
      assert (n + 1) * step == n * step + step;
    }
  }

  lemma {:induction false} SampleValue(t: int, until: int, step: int, k: int)
    requires step > 0
    requires 0 <= k < |Samples(t, until, step)|
    ensures Samples(t, until, step)[k] == HourEnergy(((t + k * step) / 3600) % 24)
    decreases until - t
  {
    if k > 0 {
      SampleValue(t + step, until, step, k - 1);
      assert t + step + (k - 1) * step == t + k * step;
    }
  }

  function Sum(xs: seq<real>): real {
    if xs == [] then 0.0 else xs[0] + Sum(xs[1..])
  }

  /** `np.mean(vals) if vals else 0`. */
  function Mean(xs: seq<real>): real {
    if xs == [] then 0.0 else Sum(xs) / (|xs| as real)
  }

  lemma {:induction false} SumBounds(xs: seq<real>, lo: real, hi: real)
    requires forall k :: 0 <= k < |xs| ==> lo <= xs[k] <= hi
    ensures (|xs| as real) * lo <= Sum(xs) <= (|xs| as real) * hi
  {
    if xs != [] {
      SumBounds(xs[1..], lo, hi);
    }
  }

  lemma QuotientBounds(total: real, n: real, lo: real, hi: real)
    requires n > 0.0 && n * lo <= total <= n * hi
    ensures lo <= total / n <= hi
  {
    var q := total / n;
    assert (q - lo) * n == total - n * lo;
    assert (hi - q) * n == n * hi - total;
  }

  /** A mean of values that all lie in [lo, hi] lies in [lo, hi]. */
  lemma MeanBounds(xs: seq<real>, lo: real, hi: real)
    requires xs != []
    requires forall k :: 0 <= k < |xs| ==> lo <= xs[k] <= hi
    ensures lo <= Mean(xs) <= hi
  {
    SumBounds(xs, lo, hi);
    QuotientBounds(Sum(xs), |xs| as real, lo, hi);
  }

  /** Every sample is an hour coefficient, so it lies in [0.35, 0.95]. */
  lemma {:induction false} SamplesBounds(t: int, until: int, step: int)
    requires step > 0
    ensures forall k :: 0 <= k < |Samples(t, until, step)| ==> 0.35 <= Samples(t, until, step)[k] <= 0.95
    decreases until - t
  {
    if t < until {
      SamplesBounds(t + step, until, step);
      HourEnergyBands((t / 3600) % 24);
      var xs := Samples(t, until, step);
      forall k | 0 <= k < |xs|
        ensures 0.35 <= xs[k] <= 0.95
      {
        if k > 0 {
          assert xs[k] == Samples(t + step, until, step)[k - 1];
        }
      }
    }
  }

  /** The energy of the span from `s` to `e` (the next day's `e` when `e` is not after `s`), sampled hourly. */
  function EnergyBetween(s: TimeOfDay, e: TimeOfDay): (r: real)
    ensures 0.35 <= r <= 0.95
  {
    var xs := Samples(s, s + DurSeconds(s, e), 3600);
    SamplesAt(s, s + DurSeconds(s, e), 3600);
    SamplesBounds(s, s + DurSeconds(s, e), 3600);
    MeanBounds(xs, 0.35, 0.95);
    Mean(xs)
  }

  /**
   * `event_energy_score`: the mean of `hour_energy` taken once an hour from
   * the start up to (not including) the end, the end moved to the next day
   * when it is not after the start. There is always at least one sample, so
   * the score lies in [0.35, 0.95] and the 0.0 fallback is never taken.
   */
  function EventEnergy(start: TimeInput, end: TimeInput): (r: real)
    ensures 0.35 <= r <= 0.95
  {
    EnergyBetween(ParseTime(start), ParseTime(end))
  }

  /** The shape of a span's energy: ceil(duration in hours) hourly samples, the k-th at hour (start + k) mod 24. */
  lemma EnergyBetweenSamples(s: TimeOfDay, e: TimeOfDay)
    ensures var d := DurSeconds(s, e);
            var xs := Samples(s, s + d, 3600);
            && EnergyBetween(s, e) == Mean(xs)
            && xs != []
            && (|xs| - 1) * 3600 < d <= |xs| * 3600
            && forall k :: 0 <= k < |xs| ==> xs[k] == HourEnergy(((s + k * 3600) / 3600) % 24)
  {
    SamplesAt(s, s + DurSeconds(s, e), 3600);
  }

  /** The sampling loop: the mean energy of the instants from, from + step, ... before until. */
  method SampleMean(from: int, until: int, step: int) returns (avg: real)
    requires step > 0
    ensures avg == Mean(Samples(from, until, step))
  {
    var t := from;
    var vals: seq<real> := [];
    while t < until
      invariant vals + Samples(t, until, step) == Samples(from, until, step)
      decreases until - t
    {
      vals := vals + [HourEnergy((t / 3600) % 24)];
      t := t + step;
    }
    assert Samples(t, until, step) == [];
    assert vals == vals + Samples(t, until, step);
    avg := Mean(vals);
  }

  /** `event_energy_score` on an event's stored start and end. */
  method EventEnergyScore(start: TimeInput, end: TimeInput) returns (r: real)
    ensures r == EventEnergy(start, end)
    ensures 0.35 <= r <= 0.95
  {
    var s := ParseTime(start);
    var e := ParseTime(end);
    var endOfDay := e;
    if e <= s {
      endOfDay := e + SecondsPerDay;
    }
    assert endOfDay == s + DurSeconds(s, e);
    r := SampleMean(s, endOfDay, 3600);
    assert r == EnergyBetween(s, e);
  }
}
