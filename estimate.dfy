/**
 * `estimate_processing_time`: from the total audio duration, a range of
 * whole minutes for parallel transcription and one for serial transcription.
 */
module Estimate {
  import opened Wrappers
  import opened Decimal

  /** Both ranges the estimate prints, in whole minutes. */
  datatype Estimate = Estimate(parallelMin: nat, parallelMax: nat, serialMin: nat, serialMax: nat)

  /** The share of the audio duration each figure assumes, in percent. */
  const SerialMinPercent: nat := 25
  const SerialMaxPercent: nat := 35
  const ParallelMinPercent: nat := 10
  const ParallelMaxPercent: nat := 20

  /**
   * `int(total_seconds * p/100)` for `total_seconds = ms / 1000`, on exact
   * rationals: the whole seconds that `percent` percent of `ms` milliseconds last.
   */
  function ShareSeconds(ms: nat, percent: nat): (s: nat)
    ensures s * 100000 <= ms * percent < (s + 1) * 100000
  {
    ms * percent / 100000
  }

  /**
   * One range in whole minutes: a maximum under a minute shows as 1-1,
   * otherwise each end is its whole minutes, but never less than 1.
   */
  function MinuteRange(minSeconds: nat, maxSeconds: nat): (r: (nat, nat))
    ensures 1 <= r.0 && 1 <= r.1
    ensures minSeconds <= maxSeconds ==> r.0 <= r.1
    ensures maxSeconds < 60 ==> r == (1, 1)
    ensures maxSeconds >= 60 ==> r.0 * 60 <= Max(60, minSeconds) && r.1 == maxSeconds / 60
    ensures maxSeconds >= 60 && minSeconds >= 60 ==> minSeconds < (r.0 + 1) * 60
  {
    if maxSeconds < 60 then (1, 1)
    else (Max(1, minSeconds / 60), Max(1, maxSeconds / 60))
  }

  function Max(a: nat, b: nat): (m: nat) {
    if a < b then b else a
  }

  /** The four figures; each is at least 1 and each range is in order. */
  function EstimateProcessingTime(ms: nat): (e: Estimate)
    ensures 1 <= e.parallelMin <= e.parallelMax
    ensures 1 <= e.serialMin <= e.serialMax
  {
    ShareMonotone(ms, ms, ParallelMinPercent, ParallelMaxPercent);
    ShareMonotone(ms, ms, SerialMinPercent, SerialMaxPercent);
    var serial := MinuteRange(ShareSeconds(ms, SerialMinPercent), ShareSeconds(ms, SerialMaxPercent));
    var parallel := MinuteRange(ShareSeconds(ms, ParallelMinPercent), ShareSeconds(ms, ParallelMaxPercent));
    Estimate(parallel.0, parallel.1, serial.0, serial.1)
  }

  const ParallelSuffix: string := " minutes (with parallelization) or "
  const SerialSuffix: string := " minutes (serial)"

  /** The sentence `estimate_processing_time` returns. */
  function EstimateText(e: Estimate): (s: string) {
    NatToString(e.parallelMin) + "-" + NatToString(e.parallelMax) + ParallelSuffix
    + NatToString(e.serialMin) + "-" + NatToString(e.serialMax) + SerialSuffix
  }

  /** Reads a range "lo-hi" followed by `suffix`, giving both ends and what follows. */
  function ParseRange(s: string, suffix: string): (r: Option<((nat, nat), string)>) {
    match ReadNumberThen(s, "-")
    case None => None
    case Some((lo, t)) =>
      match ReadNumberThen(t, suffix)
      case None => None
      case Some((hi, rest)) => Some(((lo, hi), rest))
  }

  /** Reads the four figures back out of an estimate sentence; `None` for any other string. */
  function ParseEstimate(s: string): (r: Option<Estimate>) {
    match ParseRange(s, ParallelSuffix)
    case None => None
    case Some((parallel, t)) =>
      match ParseRange(t, SerialSuffix)
      case None => None
      case Some((serial, rest)) =>
        if rest == [] then Some(Estimate(parallel.0, parallel.1, serial.0, serial.1)) else None
  }

  lemma ParseRenderedRange(lo: nat, hi: nat, suffix: string, rest: string)
    requires suffix != [] && !IsDigit(suffix[0])
    ensures ParseRange(NatToString(lo) + "-" + NatToString(hi) + suffix + rest, suffix) == Some(((lo, hi), rest))
  {
    var t := NatToString(hi) + suffix + rest;
    var s := NatToString(lo) + "-" + NatToString(hi) + suffix + rest;
    assert s == NatToString(lo) + "-" + t;
    assert "-"[0] == '-';
    ReadRenderedNumberThen(lo, "-", t);
    assert ReadNumberThen(s, "-") == Some((lo, t));
    ReadRenderedNumberThen(hi, suffix, rest);
    assert ReadNumberThen(t, suffix) == Some((hi, rest));
  }

  /** Every estimate sentence reads back as the four figures it was printed from. */
  lemma {:induction false} ParseEstimateText(e: Estimate)
    ensures ParseEstimate(EstimateText(e)) == Some(e)
  {
    var serial := NatToString(e.serialMin) + "-" + NatToString(e.serialMax) + SerialSuffix;
    assert EstimateText(e) == NatToString(e.parallelMin) + "-" + NatToString(e.parallelMax) + ParallelSuffix + serial;
    assert ParallelSuffix[0] == ' ' && SerialSuffix[0] == ' ';
    ParseRenderedRange(e.parallelMin, e.parallelMax, ParallelSuffix, serial);
    assert serial == NatToString(e.serialMin) + "-" + NatToString(e.serialMax) + SerialSuffix + [];
    ParseRenderedRange(e.serialMin, e.serialMax, SerialSuffix, []);
  }

  /** A larger share of a longer recording lasts at least as many whole seconds. */
  lemma {:induction false} ShareMonotone(ms1: nat, ms2: nat, p1: nat, p2: nat)
    requires ms1 <= ms2 && p1 <= p2
    ensures ShareSeconds(ms1, p1) <= ShareSeconds(ms2, p2)
  {
    assert ms1 * p1 <= ms2 * p1 <= ms2 * p2;
  }

  /** A range with its ends in order stays in order, and larger seconds never give fewer minutes. */
  lemma {:induction false} MinuteRangeMonotone(lo1: nat, hi1: nat, lo2: nat, hi2: nat)
    requires lo1 <= lo2 && hi1 <= hi2
    ensures MinuteRange(lo1, hi1).0 <= MinuteRange(lo2, hi2).0
    ensures MinuteRange(lo1, hi1).1 <= MinuteRange(lo2, hi2).1
  {
  }

  /**
   * A range whose maximum share is under a minute shows as 1-1; otherwise
   * each end is the whole minutes of its share, raised to 1.
   */
  lemma {:induction false} EstimateShape(ms: nat)
    ensures var e := EstimateProcessingTime(ms);
      && (ShareSeconds(ms, ParallelMaxPercent) < 60 ==> e.parallelMin == 1 && e.parallelMax == 1)
      && (ShareSeconds(ms, ParallelMaxPercent) >= 60 ==>
            && e.parallelMin == Max(1, ShareSeconds(ms, ParallelMinPercent) / 60)
            && e.parallelMax == ShareSeconds(ms, ParallelMaxPercent) / 60)
      && (ShareSeconds(ms, SerialMaxPercent) < 60 ==> e.serialMin == 1 && e.serialMax == 1)
      && (ShareSeconds(ms, SerialMaxPercent) >= 60 ==>
            && e.serialMin == Max(1, ShareSeconds(ms, SerialMinPercent) / 60)
            && e.serialMax == ShareSeconds(ms, SerialMaxPercent) / 60)
  {
  }

  /** The parallel range never exceeds the serial one, end by end. */
  lemma {:induction false} ParallelNoSlowerThanSerial(ms: nat)
    ensures var e := EstimateProcessingTime(ms);
      e.parallelMin <= e.serialMin && e.parallelMax <= e.serialMax
  {
    ShareMonotone(ms, ms, ParallelMinPercent, SerialMinPercent);
    ShareMonotone(ms, ms, ParallelMaxPercent, SerialMaxPercent);
    MinuteRangeMonotone(ShareSeconds(ms, ParallelMinPercent), ShareSeconds(ms, ParallelMaxPercent),
                        ShareSeconds(ms, SerialMinPercent), ShareSeconds(ms, SerialMaxPercent));
  }

  /** A longer total duration never gives a smaller estimate. */
  lemma {:induction false} EstimateMonotone(ms1: nat, ms2: nat)
    requires ms1 <= ms2
    ensures var e1, e2 := EstimateProcessingTime(ms1), EstimateProcessingTime(ms2);
      && e1.parallelMin <= e2.parallelMin && e1.parallelMax <= e2.parallelMax
      && e1.serialMin <= e2.serialMin && e1.serialMax <= e2.serialMax
  {
    ShareMonotone(ms1, ms2, ParallelMinPercent, ParallelMinPercent);
    ShareMonotone(ms1, ms2, ParallelMaxPercent, ParallelMaxPercent);
    ShareMonotone(ms1, ms2, SerialMinPercent, SerialMinPercent);
    ShareMonotone(ms1, ms2, SerialMaxPercent, SerialMaxPercent);
    MinuteRangeMonotone(ShareSeconds(ms1, ParallelMinPercent), ShareSeconds(ms1, ParallelMaxPercent),
                        ShareSeconds(ms2, ParallelMinPercent), ShareSeconds(ms2, ParallelMaxPercent));
    MinuteRangeMonotone(ShareSeconds(ms1, SerialMinPercent), ShareSeconds(ms1, SerialMaxPercent),
                        ShareSeconds(ms2, SerialMinPercent), ShareSeconds(ms2, SerialMaxPercent));
  }
}
