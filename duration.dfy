/**
 * `format_duration`: a millisecond count shown as "Ns", "Nm Ss" or "Hh Mm",
 * and the reading of those three shapes back into their figures.
 */
module Duration {
  import opened Wrappers
  import opened Decimal

  /** The three shapes `format_duration` prints. */
  datatype DurationText =
    | Seconds(seconds: nat)
    | MinutesSeconds(minutes: nat, seconds: nat)
    | HoursMinutes(hours: nat, minutes: nat)

  /**
   * The figures `format_duration` prints for `ms` milliseconds. The source
   * divides by 1000 in floating point, then takes the floor of the quotient
   * by 60 and of the remainder modulo 60; the model does the same on exact
   * reals. Each shape shows the duration truncated to its smallest unit.
   */
  function DurationParts(ms: nat): (d: DurationText)
    ensures d.Seconds? <==> ms < 60000
    ensures d.Seconds? ==> d.seconds < 60 && d.seconds * 1000 <= ms < (d.seconds + 1) * 1000
    ensures d.MinutesSeconds? ==>
      && 1 <= d.minutes < 60 && d.seconds < 60
      && (d.minutes * 60 + d.seconds) * 1000 <= ms < (d.minutes * 60 + d.seconds + 1) * 1000
    ensures d.HoursMinutes? ==>
      && 1 <= d.hours && d.minutes < 60
      && (d.hours * 60 + d.minutes) * 60000 <= ms < (d.hours * 60 + d.minutes + 1) * 60000
  {
    var totalSeconds: real := ms as real / 1000.0;
    var minutes := (totalSeconds / 60.0).Floor;
    var seconds := (totalSeconds - 60.0 * minutes as real).Floor;
    assert 0 <= minutes && 0 <= seconds < 60;
    if minutes == 0 then
      Seconds(seconds)
    else if minutes < 60 then
      MinutesSeconds(minutes, seconds)
    else
      HoursMinutes(minutes / 60, minutes % 60)
  }

  /** The text of each shape, figures printed as f-strings print integers. */
  function RenderDuration(d: DurationText): (s: string) {
    match d
    case Seconds(s) => NatToString(s) + "s"
    case MinutesSeconds(m, s) => NatToString(m) + "m " + NatToString(s) + "s"
    case HoursMinutes(h, m) => NatToString(h) + "h " + NatToString(m) + "m"
  }

  /** The string `format_duration` returns. */
  function FormatDuration(ms: nat): (s: string) {
    RenderDuration(DurationParts(ms))
  }

  /** Reads one of the three shapes back; `None` for any other string. */
  function ParseDuration(s: string): (r: Option<DurationText>) {
    match SplitNumber(s)
    case None => None
    case Some((a, t)) =>
      if t == "s" then Some(Seconds(a))
      else if |t| >= 2 && t[1] == ' ' && (t[0] == 'm' || t[0] == 'h') then
        match SplitNumber(t[2..])
        case None => None
        case Some((b, tail)) =>
          if t[0] == 'm' && tail == "s" then Some(MinutesSeconds(a, b))
          else if t[0] == 'h' && tail == "m" then Some(HoursMinutes(a, b))
          else None
      else None
  }

  /** A two-figure shape: `first`, a unit letter, a space, `second`, a closing unit letter. */
  lemma ParseTwoFigures(first: nat, second: nat, u1: char, u2: char)
    requires u1 == 'm' || u1 == 'h'
    requires u2 == 's' || u2 == 'm'
    ensures var t := [u1, ' '] + NatToString(second) + [u2];
      && SplitNumber(NatToString(first) + t) == Some((first, t))
      && t[2..] == NatToString(second) + [u2]
      && SplitNumber(t[2..]) == Some((second, [u2]))
  {
    var t := [u1, ' '] + NatToString(second) + [u2];
    SplitRenderedNumber(first, t);
    assert t[2..] == NatToString(second) + [u2];
    SplitRenderedNumber(second, [u2]);
  }

  lemma ParseMinutesSeconds(m: nat, sec: nat)
    ensures ParseDuration(RenderDuration(MinutesSeconds(m, sec))) == Some(MinutesSeconds(m, sec))
  {
    var t := ['m', ' '] + NatToString(sec) + ['s'];
    var shown := RenderDuration(MinutesSeconds(m, sec));
    assert shown == NatToString(m) + t;
    ParseTwoFigures(m, sec, 'm', 's');
    assert SplitNumber(shown) == Some((m, t));
    assert |t| >= 3 && t[0] == 'm' && t[1] == ' ';
  }

  lemma ParseHoursMinutes(h: nat, m: nat)
    ensures ParseDuration(RenderDuration(HoursMinutes(h, m))) == Some(HoursMinutes(h, m))
  {
    var t := ['h', ' '] + NatToString(m) + ['m'];
    var shown := RenderDuration(HoursMinutes(h, m));
    assert shown == NatToString(h) + t;
    ParseTwoFigures(h, m, 'h', 'm');
    assert SplitNumber(shown) == Some((h, t));
    assert |t| >= 3 && t[0] == 'h' && t[1] == ' ';
  }

  /** Every rendered duration reads back as the figures it was rendered from. */
  lemma ParseRenderDuration(d: DurationText)
    ensures ParseDuration(RenderDuration(d)) == Some(d)
  {
    match d
    case Seconds(s) => SplitRenderedNumber(s, "s");
    case MinutesSeconds(m, s) => ParseMinutesSeconds(m, s);
    case HoursMinutes(h, m) => ParseHoursMinutes(h, m);
  }

  /**
   * The shown string determines the shown figures: two millisecond counts
   * print the same text exactly when they give the same figures.
   */
  lemma {:induction false} FormatDurationInjective(ms1: nat, ms2: nat)
    ensures FormatDuration(ms1) == FormatDuration(ms2) <==> DurationParts(ms1) == DurationParts(ms2)
  {
    ParseRenderDuration(DurationParts(ms1));
    ParseRenderDuration(DurationParts(ms2));
  }
}
