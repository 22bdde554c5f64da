/** Conversions between the six-cell HH MM SS entry buffer of the countdown
    view model and a duration in milliseconds: calcBuffer reads the buffer,
    applyBuffer writes a duration back into it. */
module Conversions {

  const MsPerSecond: int := 1000
  const MsPerMinute: int := 60_000
  const MsPerHour: int := 3_600_000

  /** The largest duration the keypad can enter: 99 h 99 min 99 s. */
  const MaxEntry: int := 362_439_000

  /** The first duration whose hour count needs three decimal digits. */
  const HundredHours: int := 360_000_000

  predicate IsDigit(x: int) { 0 <= x <= 9 }

  predicate AllDigits(s: seq<int>) {
    forall i :: 0 <= i < |s| ==> IsDigit(s[i])
  }

  /** Six cells, each a decimal digit: every buffer the keypad can produce. */
  predicate IsDigits(b: seq<int>) {
    |b| == 6 && AllDigits(b)
  }

  /** What the view model's buffer always satisfies: six non-negative cells.
      They are not all digits: applyBuffer writes an hours-tens cell of 10 or
      more for 100 hours or more, and backspace shifts it into the next cell. */
  predicate WellShaped(b: seq<int>) {
    |b| == 6 && forall i :: 0 <= i < 6 ==> b[i] >= 0
  }

  predicate AllZero(s: seq<int>) {
    forall i :: 0 <= i < |s| ==> s[i] == 0
  }

  function Zeros(): (z: seq<int>)
    ensures IsDigits(z) && AllZero(z)
  {
    [0, 0, 0, 0, 0, 0]
  }

  /** The two-digit number held by cells i (tens) and i + 1 (ones). */
  function Pair(b: seq<int>, i: nat): int
    requires i + 1 < |b|
  {
    b[i] * 10 + b[i + 1]
  }

  /** Kotlin's Iterable<Int>.sum(), used by toggle as "is anything entered". */
  function Sum(s: seq<int>): (r: int)
    ensures (forall i :: 0 <= i < |s| ==> s[i] >= 0) ==> r >= 0 && (r == 0 <==> AllZero(s))
  {
    if s == [] then 0
    else
      assert forall i :: 1 <= i < |s| ==> s[1..][i - 1] == s[i];
      s[0] + Sum(s[1..])
  }

  /** calcBuffer: the buffer read as hours, minutes and seconds, in
      milliseconds. Minutes and seconds pairs above 59 are taken at face value. */
  function CalcBuffer(b: seq<int>): (ms: int)
    requires |b| == 6
    ensures ms % MsPerSecond == 0
    ensures WellShaped(b) ==> ms >= 0 && (ms == 0 <==> AllZero(b))
    ensures IsDigits(b) ==> ms <= MaxEntry
  {
    var h := b[0] * 10 + b[1];
    var m := b[2] * 10 + b[3];
    var s := b[4] * 10 + b[5];
    assert 1000 * 60 * 60 * h + 1000 * 60 * m + 1000 * s == 1000 * (3600 * h + 60 * m + s);
    assert WellShaped(b) ==> h >= 0 && m >= 0 && s >= 0;
    assert WellShaped(b) && h == 0 && m == 0 && s == 0 ==> AllZero(b);
    1000 * 60 * 60 * h + 1000 * 60 * m + 1000 * s
  }

  /** ceil(t / d) for a non-negative t. */
  function CeilDiv(t: nat, d: nat): nat
    requires d > 0
  {
    (t + d - 1) / d
  }

  /** applyBuffer: hours and minutes are truncated, the seconds are rounded
      up to a whole second and then taken modulo 60, and each count is split
      into its tens and ones. The hour count is not clamped to two digits. */
  function ApplyBuffer(t: nat): (b: seq<int>)
    ensures WellShaped(b) && forall i :: 1 <= i < 6 ==> IsDigit(b[i])
    ensures t < HundredHours ==> IsDigits(b)
    ensures Pair(b, 0) == t / MsPerHour
    ensures Pair(b, 2) == t / MsPerMinute % 60
    ensures Pair(b, 4) == CeilDiv(t, MsPerSecond) % 60
  {
    var h := t / 1000 / 60 / 60;
    var m := (t / 1000 / 60) % 60;
    var s := CeilDiv(t, 1000) % 60;
    [h / 10, h % 10, m / 10, m % 10, s / 10, s % 10]
  }

  /** Toggle's guard `sum != 0` means exactly "the entered duration is positive". */
  lemma SumNonZeroIffPositive(b: seq<int>)
    requires WellShaped(b)
    ensures Sum(b) != 0 <==> CalcBuffer(b) > 0
  {
  }

  /** What the display reads back after applyBuffer(t): t rounded up to a
      whole second, less one minute when that rounding carries into the next
      minute (the minutes are truncated while the seconds wrap to 0). */
  lemma DisplayedDuration(t: nat)
    ensures var up := CeilDiv(t, MsPerSecond);
      CalcBuffer(ApplyBuffer(t))
      == if t % MsPerSecond != 0 && up % 60 == 0 then up * MsPerSecond - MsPerMinute
         else up * MsPerSecond
  {
    var f := t / 1000;
    var up := CeilDiv(t, MsPerSecond);
    var b := ApplyBuffer(t);
    assert CalcBuffer(b) == MsPerHour * Pair(b, 0) + MsPerMinute * Pair(b, 2) + MsPerSecond * Pair(b, 4);
    assert t / MsPerHour == f / 3600 && t / MsPerMinute == f / 60;
    ClockArithmetic(t, f, up);
  }

  /** The arithmetic behind DisplayedDuration, on plain integers. */
  lemma ClockArithmetic(t: nat, f: nat, up: nat)
    requires f == t / 1000 && up == (t + 999) / 1000
    ensures 3_600_000 * (f / 3600) + 60_000 * (f / 60 % 60) + 1000 * (up % 60)
      == if t % 1000 != 0 && up % 60 == 0 then up * 1000 - 60_000 else up * 1000
  {
    assert f / 60 == 60 * (f / 3600) + f / 60 % 60;
    assert f == 60 * (f / 60) + f % 60;
    if t % 1000 == 0 {
      assert up == f;
    } else {
      assert up == f + 1;
      if up % 60 == 0 {
        assert f % 60 == 59;
      } else {
        assert up % 60 == f % 60 + 1;
      }
    }
  }

  /** calcBuffer(applyBuffer(t)) == t for every whole number of seconds. */
  lemma CalcApplyRoundTrip(t: nat)
    requires t % MsPerSecond == 0
    ensures CalcBuffer(ApplyBuffer(t)) == t
  {
  }

  /** applyBuffer(calcBuffer(b)) == b for every keypad buffer whose minutes
      and seconds pairs are below 60. */
  lemma ApplyCalcRoundTrip(b: seq<int>)
    requires IsDigits(b)
    requires Pair(b, 2) < 60 && Pair(b, 4) < 60
    ensures ApplyBuffer(CalcBuffer(b)) == b
  {
    var h, m, s := Pair(b, 0), Pair(b, 2), Pair(b, 4);
    var t := CalcBuffer(b);
    assert t == 1000 * (3600 * h + 60 * m + s);
    DurationSplit(t, h, m, s);
    var r := ApplyBuffer(t);
    assert Pair(r, 0) == h && Pair(r, 2) == m && Pair(r, 4) == s;
    DigitsOfPair(r, b, 0);
    DigitsOfPair(r, b, 2);
    DigitsOfPair(r, b, 4);
  }

  /** A duration built from h hours, m < 60 minutes and s < 60 seconds splits
      back into them. */
  lemma DurationSplit(t: nat, h: nat, m: nat, s: nat)
    requires m < 60 && s < 60 && t == 1000 * (3600 * h + 60 * m + s)
    ensures t / MsPerHour == h && t / MsPerMinute % 60 == m
    ensures CeilDiv(t, MsPerSecond) % 60 == s
  {
    assert t / 1000 == 3600 * h + 60 * m + s;
    assert CeilDiv(t, 1000) == 3600 * h + 60 * m + s;
    assert t / 60_000 == 60 * h + m;
    assert t / 3_600_000 == h;
  }

  /** Two pairs of digit cells holding the same number hold the same digits. */
  lemma DigitsOfPair(r: seq<int>, b: seq<int>, i: nat)
    requires i + 1 < |r| && i + 1 < |b|
    requires IsDigit(r[i + 1]) && IsDigit(b[i + 1]) && Pair(r, i) == Pair(b, i)
    ensures r[i] == b[i] && r[i + 1] == b[i + 1]
  {
  }

  /** With between 59 and 60 seconds left the buffer shows 00:00:00: the
      seconds round up to 60, wrap to 0, and the minutes are truncated. */
  lemma ZeroShownWithTimeLeft(t: nat)
    requires 59_000 < t < 60_000
    ensures ApplyBuffer(t) == Zeros() && CalcBuffer(ApplyBuffer(t)) == 0
  {
  }
}
