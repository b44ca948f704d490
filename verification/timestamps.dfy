/**
  Instants and durations. An instant is a whole number of microseconds since
  the epoch (UTC), the resolution of a Python `datetime`; a duration in
  seconds is a real, as `timedelta.total_seconds()` returns it.
 */
module Timestamps {
  import opened Rounding

  /** `timedelta(microseconds=us).total_seconds()`. */
  function Seconds(us: int): real
  {
    us as real / 1000000.0
  }

  /** `origin + timedelta(seconds=s)`: the timedelta constructor rounds the
      seconds half-to-even to whole microseconds, and the addition is exact. */
  function Shift(origin: int, s: real): int
  {
    origin + RoundHalfEven(s * 1000000.0)
  }

  /** The shifted instant is within half a microsecond of the exact one. */
  lemma ShiftClose(origin: int, s: real)
    ensures Abs(Seconds(Shift(origin, s) - origin) - s) <= 0.0000005
  {
  }

  /** Shifting by a duration of whole microseconds is exact. */
  lemma ShiftWhole(origin: int, s: real)
    requires IsWhole(s * 1000000.0)
    ensures Seconds(Shift(origin, s) - origin) == s
  {
    RoundWhole(s * 1000000.0);
  }

  /** Shifting never inverts the order of two durations. */
  lemma ShiftMonotone(origin: int, s: real, s': real)
    requires s <= s'
    ensures Shift(origin, s) <= Shift(origin, s')
  {
    RoundMonotone(s * 1000000.0, s' * 1000000.0);
  }

  /** The decimal digit character for `d`. */
  function DigitChar(d: nat): char
    requires d < 10
  {
    "0123456789"[d]
  }

  /** The last `width` decimal digits of `n`, zero-padded (`"%0*d"` for an `n`
      of at most `width` digits). */
  function Digits(n: nat, width: nat): (s: string)
    ensures |s| == width
    ensures forall i :: 0 <= i < |s| ==> '0' <= s[i] <= '9'
  {
    if width == 0 then "" else Digits(n / 10, width - 1) + [DigitChar(n % 10)]
  }

  /** `datetime.microsecond`: the sub-second part of an instant. */
  function MicrosecondField(t: int): (us: nat)
    ensures us < 1000000
    ensures (t - us) % 1000000 == 0
  {
    t % 1000000
  }

  /** `strftime("%f")[:3]`: the first three of the six zero-padded microsecond
      digits, which the output writes as the milliseconds of the time stamp. */
  function MillisText(t: int): string
  {
    Digits(MicrosecondField(t), 6)[..3]
  }

  /** The leading digits of a padded number are the padded number with its
      last three digits cut off. */
  lemma DigitsDropThree(n: nat)
    ensures Digits(n, 6)[..3] == Digits(n / 1000, 3)
  {
    var a := n / 10;
    var b := a / 10;
    var c := b / 10;
    DivideThousand(n);
    var tail := [DigitChar(b % 10), DigitChar(a % 10), DigitChar(n % 10)];
    assert Digits(n, 6) == Digits(a, 5) + [DigitChar(n % 10)];
    assert Digits(a, 5) == Digits(b, 4) + [DigitChar(a % 10)];
    assert Digits(b, 4) == Digits(c, 3) + [DigitChar(b % 10)];
    assert Digits(n, 6) == Digits(c, 3) + tail;
  }

  /** Dropping one decimal digit three times drops three. */
  lemma DivideThousand(n: nat)
    ensures n / 10 / 10 / 10 == n / 1000
  {
  }

  /** The emitted milliseconds are the microsecond field truncated, never
      rounded, to whole milliseconds. */
  lemma MillisTruncates(t: int)
    ensures MillisText(t) == Digits(MicrosecondField(t) / 1000, 3)
  {
    DigitsDropThree(MicrosecondField(t));
  }

  /** An instant 999.6 ms past a whole second is written with milliseconds
      `999`; rounding would have carried into the seconds. */
  lemma MillisTruncateExample()
    ensures MillisText(1999600) == "999"
  {
    MillisTruncates(1999600);
    assert MicrosecondField(1999600) / 1000 == 999;
    assert Digits(999, 3) == "999";
  }
}
