/**
 * `format_size`: a byte count shown in the largest of B, KB, MB, GB, TB
 * that keeps the shown figure below 1024.
 */
module Size {
  import opened Wrappers
  import opened Decimal

  datatype SizeUnit = B | KB | MB | GB | TB

  /**
   * What `format_size` shows. A plain byte count is printed as an integer;
   * any larger unit carries the count divided by a power of 1024, which the
   * source prints with one decimal place.
   */
  datatype SizeText = Bytes(count: nat) | Scaled(value: real, unit: SizeUnit)

  const KiB: nat := 1024
  const MiB: nat := 1024 * 1024
  const GiB: nat := 1024 * 1024 * 1024
  const TiB: nat := 1024 * 1024 * 1024 * 1024

  /** The units the loop of `format_size` walks through, smallest first. */
  const LoopUnits: seq<SizeUnit> := [B, KB, MB, GB]

  /** `Divisor[k]` is 1024 to the power k: the divisor in effect for `LoopUnits[k]` and, at 4, for TB. */
  const Divisor: seq<nat> := [1, KiB, MiB, GiB, TiB]

  /** The unit choice by thresholds: the reference against which the loop is checked. */
  function SizeTextOf(n: nat): (t: SizeText) {
    if n < KiB then Bytes(n)
    else if n < MiB then Scaled(n as real / KiB as real, KB)
    else if n < GiB then Scaled(n as real / MiB as real, MB)
    else if n < TiB then Scaled(n as real / GiB as real, GB)
    else Scaled(n as real / TiB as real, TB)
  }

  /** The power of 1024 that a unit divides by. */
  function UnitDivisor(u: SizeUnit): (d: nat)
    ensures d >= 1
  {
    match u
    case B => 1
    case KB => KiB
    case MB => MiB
    case GB => GiB
    case TB => TiB
  }

  /**
   * The loop of `format_size`: divide by 1024 until the figure drops below
   * 1024, at most four times, then fall back on TB.
   */
  method FormatSize(n: nat) returns (t: SizeText)
    ensures t == SizeTextOf(n)
  {
    var value: real := n as real;
    for i := 0 to |LoopUnits|
      invariant value == n as real / Divisor[i] as real
      invariant i > 0 ==> n >= Divisor[i]
    {
      if value < 1024.0 {
        if LoopUnits[i] == B {
          return Bytes(n);
        }
        return Scaled(value, LoopUnits[i]);
      }
      value := value / 1024.0;
    }
    return Scaled(value, TB);
  }

  /**
   * Every scaled figure is the exact quotient of the byte count by the
   * unit's power of 1024, at least 1, and below 1024 unless the unit is TB.
   */
  lemma ScaledFigureInRange(n: nat)
    ensures SizeTextOf(n).Bytes? <==> n < KiB
    ensures SizeTextOf(n).Bytes? ==> SizeTextOf(n).count == n
    ensures SizeTextOf(n).Scaled? ==>
      var t := SizeTextOf(n);
      && t.value * UnitDivisor(t.unit) as real == n as real
      && 1.0 <= t.value
      && (t.unit != TB ==> t.value < 1024.0)
  {
  }

  /** The text of the bytes case: the integer itself, a space and "B", and no decimal point. */
  function BytesText(n: nat): (s: string)
    ensures |s| >= 3 && s[|s| - 2..] == " B" && '.' !in s
    ensures AllDigits(s[..|s| - 2]) && StringToNat(s[..|s| - 2]) == n
    ensures s[0] == '0' ==> n == 0 && |s| == 3
  {
    StringToNatInverse(n);
    var digits := NatToString(n);
    assert (digits + " B")[..|digits|] == digits;
    digits + " B"
  }

  /**
   * The text shown for a size. Only the bytes case is rendered: the count's
   * own decimal digits, without padding, then " B". The one-decimal
   * rendering of the scaled units is not modelled.
   */
  function SizeLabel(t: SizeText): (text: Option<string>)
    ensures text.Some? <==> t.Bytes?
    ensures text.Some? ==>
      var s := text.value;
      && |s| >= 3 && s[|s| - 2..] == " B" && '.' !in s
      && AllDigits(s[..|s| - 2]) && StringToNat(s[..|s| - 2]) == t.count
      && (s[0] == '0' ==> t.count == 0 && |s| == 3)
  {
    match t
    case Bytes(count) => Some(BytesText(count))
    case Scaled(_, _) => None
  }

  /** A size under 1024 bytes is labelled with its own integer, " B", and no decimal point. */
  lemma {:induction false} SmallSizeLabel(n: nat)
    requires n < KiB
    ensures SizeLabel(SizeTextOf(n)).Some?
    ensures var s := SizeLabel(SizeTextOf(n)).value;
      && |s| >= 3 && s[|s| - 2..] == " B" && '.' !in s
      && AllDigits(s[..|s| - 2]) && StringToNat(s[..|s| - 2]) == n
      && (s[0] == '0' ==> n == 0 && |s| == 3)
  {
    var s := BytesText(n);
    assert SizeLabel(SizeTextOf(n)) == Some(s);
  }
}
