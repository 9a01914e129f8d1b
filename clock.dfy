/**
 * Times of day and `parse_time_str_safe` (app.py).
 *
 * A time of day is a number of seconds since midnight. A stored start or
 * end value is read by trying `strptime` with "%H:%M" and then with
 * "%H:%M:%S"; anything else reads as midnight.
 */
module Clock {
  import opened Wrappers

  const SecondsPerDay: int := 86400

  /** A time of day to the second, as seconds since midnight. */
  type TimeOfDay = t: int | 0 <= t < 86400

  const Midnight: TimeOfDay := 0

  /** A stored start or end value: a clock value, a text, or anything else (a missing value, a number). */
  datatype TimeInput = ClockValue(time: TimeOfDay) | Text(text: string) | NotText

  function Hms(h: int, m: int, s: int): (t: TimeOfDay)
    requires 0 <= h < 24 && 0 <= m < 60 && 0 <= s < 60
    ensures t / 3600 == h && (t % 3600) / 60 == m && t % 60 == s
  {
    h * 3600 + m * 60 + s
  }

  predicate IsDigit(c: char) {
    '0' <= c <= '9'
  }

  function DigitValue(c: char): nat
    requires IsDigit(c)
  {
    (c as int) - ('0' as int)
  }

  function DigitChar(d: nat): (c: char)
    requires d < 10
    ensures IsDigit(c) && DigitValue(c) == d
  {
    (('0' as int) + d) as char
  }

  /** The texts between the colons of `s`, in order; `Join` puts them back together. */
  function Fields(s: string): (fs: seq<string>)
    ensures |fs| >= 1
    ensures forall k :: 0 <= k < |fs| ==> ':' !in fs[k]
  {
    if s == [] then [[]]
    else
      var rest := Fields(s[1..]);
      if s[0] == ':' then [[]] + rest
      else
        assert forall k :: 1 <= k < |rest| ==> ':' !in rest[k];
        [[s[0]] + rest[0]] + rest[1..]
  }

  function Join(fs: seq<string>): string
    requires |fs| >= 1
  {
    if |fs| == 1 then fs[0] else fs[0] + ":" + Join(fs[1..])
  }

  lemma {:induction false} JoinFields(s: string)
    ensures Join(Fields(s)) == s
  {
    if s != [] {
      var rest := Fields(s[1..]);
      JoinFields(s[1..]);
      if s[0] == ':' {
        assert Fields(s) == [[]] + rest;
        assert Join(Fields(s)) == [] + ":" + Join(rest);
      } else if |rest| == 1 {
        assert Fields(s) == [[s[0]] + rest[0]];
      } else {
        assert Fields(s) == [[s[0]] + rest[0]] + rest[1..];
        assert Join(rest) == rest[0] + ":" + Join(rest[1..]);
        assert Join(Fields(s)) == [s[0]] + rest[0] + ":" + Join(rest[1..]);
      }
    }
  }

  lemma {:induction false} FieldsOfPlain(a: string)
    requires ':' !in a
    ensures Fields(a) == [a]
  {
    if a != [] {
      assert a[0] != ':' && ':' !in a[1..];
      FieldsOfPlain(a[1..]);
      assert [a[0]] + a[1..] == a;
    }
  }

  lemma {:induction false} FieldsOfColon(a: string, b: string)
    requires ':' !in a
    ensures Fields(a + ":" + b) == [a] + Fields(b)
  {
    if a == [] {
      assert a + ":" + b == [':'] + b;
      assert ([':'] + b)[1..] == b;
    } else {
      assert (a + ":" + b)[1..] == a[1..] + ":" + b;
      FieldsOfColon(a[1..], b);
      assert [a[0]] + a[1..] == a;
    }
  }

  /**
   * One numeric field as `strptime` reads it: one or two ASCII digits whose
   * value is at most `max` (23 for %H, 59 for %M; %S also admits 60 and 61,
   * which `datetime` then refuses, so 59 there too).
   */
  function FieldValue(f: string, max: nat): (v: Option<nat>)
    ensures v.Some? ==> v.value <= max
    ensures v.Some? ==> 1 <= |f| <= 2 && forall k :: 0 <= k < |f| ==> IsDigit(f[k])
  {
    if |f| == 1 && IsDigit(f[0]) && DigitValue(f[0]) <= max then
      Some(DigitValue(f[0]))
    else if |f| == 2 && IsDigit(f[0]) && IsDigit(f[1]) && 10 * DigitValue(f[0]) + DigitValue(f[1]) <= max then
      Some(10 * DigitValue(f[0]) + DigitValue(f[1]))
    else
      None
  }

  /** `datetime.strptime(s, "%H:%M").time()`, or None where it raises. */
  function StrptimeHM(s: string): Option<TimeOfDay> {
    var fs := Fields(s);
    if |fs| != 2 then None
    else
      match (FieldValue(fs[0], 23), FieldValue(fs[1], 59))
      case (Some(h), Some(m)) => Some(Hms(h, m, 0))
      case _ => None
  }

  /** `datetime.strptime(s, "%H:%M:%S").time()`, or None where it raises. */
  function StrptimeHMS(s: string): Option<TimeOfDay> {
    var fs := Fields(s);
    if |fs| != 3 then None
    else
      match (FieldValue(fs[0], 23), FieldValue(fs[1], 59), FieldValue(fs[2], 59))
      case (Some(h), Some(m), Some(sec)) => Some(Hms(h, m, sec))
      case _ => None
  }

  /** `parse_time_str_safe`: always a valid time of day, midnight when nothing matches. */
  function ParseTime(x: TimeInput): (t: TimeOfDay)
    ensures x.ClockValue? ==> t == x.time
    ensures x.NotText? ==> t == Midnight
    ensures x.Text? && StrptimeHM(x.text).None? && StrptimeHMS(x.text).None? ==> t == Midnight
  {
    match x
    case ClockValue(t) => t
    case NotText => Midnight
    case Text(s) =>
      match StrptimeHM(s)
      case Some(t) => t
      case None => StrptimeHMS(s).GetOr(Midnight)
  }

  /** Texts of one or two digits hold no colon. */
  lemma DigitsHaveNoColon(f: string, max: nat)
    requires FieldValue(f, max).Some?
    ensures ':' !in f
  {
  }

  /** A text "H:M" whose fields are in range reads as that time. */
  lemma ParseHM(hs: string, ms: string, h: nat, m: nat)
    requires FieldValue(hs, 23) == Some(h) && FieldValue(ms, 59) == Some(m)
    ensures ParseTime(Text(hs + ":" + ms)) == Hms(h, m, 0)
  {
    DigitsHaveNoColon(hs, 23);
    DigitsHaveNoColon(ms, 59);
    FieldsOfColon(hs, ms);
    FieldsOfPlain(ms);
  }

  /** A text "H:M:S" whose fields are in range reads as that time. */
  lemma ParseHMS(hs: string, ms: string, ss: string, h: nat, m: nat, s: nat)
    requires FieldValue(hs, 23) == Some(h) && FieldValue(ms, 59) == Some(m) && FieldValue(ss, 59) == Some(s)
    ensures ParseTime(Text(hs + ":" + ms + ":" + ss)) == Hms(h, m, s)
  {
    DigitsHaveNoColon(hs, 23);
    DigitsHaveNoColon(ms, 59);
    DigitsHaveNoColon(ss, 59);
    assert hs + ":" + ms + ":" + ss == hs + ":" + (ms + ":" + ss);
    FieldsOfColon(hs, ms + ":" + ss);
    FieldsOfColon(ms, ss);
    FieldsOfPlain(ss);
  }

  /** Two zero-padded digits, as `strftime` writes %H, %M and %S. */
  function TwoDigits(n: nat): (f: string)
    requires n < 100
    ensures |f| == 2
  {
    [DigitChar(n / 10), DigitChar(n % 10)]
  }

  lemma TwoDigitsValue(n: nat, max: nat)
    requires n <= max && n < 100
    ensures FieldValue(TwoDigits(n), max) == Some(n)
  {
  }

  /** `t.strftime("%H:%M")`, the form in which the application stores times. */
  function FormatHM(t: TimeOfDay): string {
    TwoDigits(t / 3600) + ":" + TwoDigits((t % 3600) / 60)
  }

  /** `t.strftime("%H:%M:%S")`. */
  function FormatHMS(t: TimeOfDay): string {
    TwoDigits(t / 3600) + ":" + TwoDigits((t % 3600) / 60) + ":" + TwoDigits(t % 60)
  }

  /** A time of day splits into its hour, minute and second fields. */
  lemma TimeFields(t: TimeOfDay)
    ensures t / 3600 < 24 && (t % 3600) / 60 < 60
    ensures Hms(t / 3600, (t % 3600) / 60, t % 60) == t
    ensures Hms(t / 3600, (t % 3600) / 60, 0) == t - t % 60
  {
  }

  /** Reading back a stored "%H:%M" text gives the time truncated to the minute. */
  lemma ParseFormatHM(t: TimeOfDay)
    ensures ParseTime(Text(FormatHM(t))) == t - t % 60
  {
    var h, m := t / 3600, (t % 3600) / 60;
    TimeFields(t);
    TwoDigitsValue(h, 23);
    TwoDigitsValue(m, 59);
    ParseHM(TwoDigits(h), TwoDigits(m), h, m);
  }

  /** Reading back a "%H:%M:%S" text gives the time itself. */
  lemma ParseFormatHMS(t: TimeOfDay)
    ensures ParseTime(Text(FormatHMS(t))) == t
  {
    var h, m, s := t / 3600, (t % 3600) / 60, t % 60;
    TimeFields(t);
    TwoDigitsValue(h, 23);
    TwoDigitsValue(m, 59);
    TwoDigitsValue(s, 59);
    ParseHMS(TwoDigits(h), TwoDigits(m), TwoDigits(s), h, m, s);
  }
}
