/**
  Rewriting a replacement track from an original one: the readings each
  replacement point gets from the original's fitted channels
  (`GpxFile.add_extensions`) and the new times paced by the original's
  moving duration (`GpxFile.fix_time`).
 */
module Fusion {
  import opened Sums
  import opened Rounding
  import opened Polynomial
  import opened Timestamps
  import opened TrackPoints
  import opened FitValues
  import opened Channels
  import opened Gpx

  /** `start_time()`: the instant of the first point. */
  function StartTime(original: GpxFile): int
    requires |original.pts| >= 1
  {
    original.pts[0].raw.time
  }

  /** The original's moving duration: its duration less its still time. */
  function EffectiveSeconds(original: GpxFile): real
  {
    original.totalSeconds - original.totalStillTime
  }

  /** The original's `polyfit` dictionary: one cubic per channel of its fit
      samples, in the same order. The coefficients come from the
      least-squares routine, which is not modelled. */
  function Polyfit(original: GpxFile, coeffs: seq<seq<real>>): (fits: seq<Fit>)
    requires |coeffs| == |original.values|
    requires forall c :: 0 <= c < |coeffs| ==> |coeffs[c]| == 4
    ensures |fits| == |original.values|
    ensures forall c :: 0 <= c < |fits| ==>
      fits[c].name == original.values[c].name && fits[c].coeffs == coeffs[c] && |fits[c].coeffs| == 4
  {
    seq(|coeffs|, c requires 0 <= c < |coeffs| => Fit(original.values[c].name, coeffs[c]))
  }

  /** `GpxFile.add_extensions`: the readings written on each point. */
  function AddExtensions(replacement: GpxFile, fits: seq<Fit>): (r: seq<seq<Reading>>)
    ensures |r| == |replacement.pts|
    ensures forall k :: 0 <= k < |r| ==> |r[k]| == |fits|
  {
    seq(|replacement.pts|, k requires 0 <= k < |replacement.pts| =>
      Channels.AddExtensions(replacement.pts[k].ndistance, fits))
  }

  /** Every replacement point gets one reading per channel of the original,
      in the original's channel order: named with the namespace prefix forced,
      and holding the channel's polynomial evaluated at the point's distance
      fraction, rounded to one decimal for temperature and to a whole number
      otherwise. */
  lemma SynthesizedReadings(replacement: GpxFile, original: GpxFile, coeffs: seq<seq<real>>, k: nat, c: nat)
    requires |coeffs| == |original.values|
    requires forall c :: 0 <= c < |coeffs| ==> |coeffs[c]| == 4
    requires k < |replacement.pts|
    requires c < |original.values|
    ensures var r := AddExtensions(replacement, Polyfit(original, coeffs))[k][c];
      var name := original.values[c].name;
      var v := Polyval(coeffs[c], replacement.pts[k].ndistance);
      && HasNamespace(r.name)
      && r.name == Qualify(name)
      && (r.value.OneDecimal? <==> name == Temperature || name == Namespace + Temperature)
      && (r.value.Whole? ==> Abs(r.value.n as real - v) <= 0.5)
      && (r.value.OneDecimal? ==> Abs(r.value.v - v) <= 0.05 && IsWhole(r.value.v * 10.0))
      && (r.value.Whole? && Abs(r.value.n as real - v) == 0.5 ==> r.value.n % 2 == 0)
      && (r.value.OneDecimal? && Abs(r.value.v - v) == 0.05 ==> (r.value.v * 10.0).Floor % 2 == 0)
  {
    var fits := Polyfit(original, coeffs);
    assert fits[c] == Fit(original.values[c].name, coeffs[c]);
    var r := AddExtensions(replacement, fits)[k][c];
    assert r == Synthesize(fits[c], replacement.pts[k].ndistance);
    TemperatureNames(fits[c].name);
  }

  /** `GpxFile.fix_time`: every point's instant becomes the original's start
      plus the original's moving duration scaled by the point's distance
      fraction. Nothing but the instants changes. */
  function FixTime(replacement: GpxFile, original: GpxFile): (r: GpxFile)
    requires |original.pts| >= 1
    ensures r == replacement.(pts := r.pts)
    ensures |r.pts| == |replacement.pts|
    ensures forall k :: 0 <= k < |r.pts| ==>
      r.pts[k] == replacement.pts[k].(raw := replacement.pts[k].raw.(time := r.pts[k].raw.time))
  {
    var start, seconds := StartTime(original), EffectiveSeconds(original);
    replacement.(pts := seq(|replacement.pts|, k requires 0 <= k < |replacement.pts| =>
      TrackPoints.FixTime(replacement.pts[k], start, seconds)))
  }

  /** Each reconstructed instant is the original's start plus the point's
      share of the original's moving duration, to within half a microsecond. */
  lemma ReconstructedOffset(replacement: GpxFile, original: GpxFile, k: nat)
    requires |original.pts| >= 1
    requires k < |replacement.pts|
    ensures var r := FixTime(replacement, original);
      Abs(Seconds(r.pts[k].raw.time - StartTime(original))
          - Offset(EffectiveSeconds(original), replacement.pts[k].ndistance)) <= 0.0000005
  {
    var r := FixTime(replacement, original);
    assert r.pts[k] == TrackPoints.FixTime(replacement.pts[k], StartTime(original), EffectiveSeconds(original));
    FixTimeClose(replacement.pts[k], StartTime(original), EffectiveSeconds(original));
  }

  /** The millisecond text `fix_time` writes for point `k`. */
  function FixedMillis(fixed: GpxFile, k: nat): string
    requires k < |fixed.pts|
  {
    MillisText(fixed.pts[k].raw.time)
  }

  /** The written milliseconds are the microseconds of the new instant cut to
      three digits, never rounded. */
  lemma FixedMillisTruncate(fixed: GpxFile, k: nat)
    requires k < |fixed.pts|
    ensures FixedMillis(fixed, k) == Digits(MicrosecondField(fixed.pts[k].raw.time) / 1000, 3)
  {
    MillisTruncates(fixed.pts[k].raw.time);
  }

  /** Reconstructed instants never go backwards along a loaded replacement
      track when the original's moving duration is not negative. */
  lemma ReconstructedTimesMonotone(
    raw: seq<RawPoint>, geo: Geodesic, original: GpxFile, i: nat, j: nat)
    requires Loadable(raw, geo)
    requires NonNegative(geo)
    requires |raw| >= 2
    requires |original.pts| >= 1
    requires EffectiveSeconds(original) >= 0.0
    requires i <= j < |raw|
    ensures var r := FixTime(Normalized(raw, geo), original);
      r.pts[i].raw.time <= r.pts[j].raw.time
  {
    NDistanceMonotone(raw, geo, i, j);
    FixTimeOrdered(Normalized(raw, geo), original, i, j);
  }

  /** Two points in distance-fraction order keep their order once their
      instants are reconstructed. */
  lemma FixTimeOrdered(replacement: GpxFile, original: GpxFile, i: nat, j: nat)
    requires |original.pts| >= 1
    requires EffectiveSeconds(original) >= 0.0
    requires i < |replacement.pts| && j < |replacement.pts|
    requires replacement.pts[i].ndistance <= replacement.pts[j].ndistance
    ensures var r := FixTime(replacement, original);
      r.pts[i].raw.time <= r.pts[j].raw.time
  {
    var e, start := EffectiveSeconds(original), StartTime(original);
    var r := FixTime(replacement, original);
    assert r.pts[i] == TrackPoints.FixTime(replacement.pts[i], start, e);
    assert r.pts[j] == TrackPoints.FixTime(replacement.pts[j], start, e);
    FixTimeMonotone(replacement.pts[i], replacement.pts[j], start, e);
  }

  /** A sum of whole numbers of microseconds is a whole number of them. */
  lemma {:induction false} SumWholeMicros(s: seq<real>)
    requires forall i :: 0 <= i < |s| ==> IsWhole(s[i] * 1000000.0)
    ensures IsWhole(Sum(s) * 1000000.0)
  {
    if |s| > 0 {
      var init := s[..|s| - 1];
      SumWholeMicros(init);
      var a, b := Sum(init) * 1000000.0, s[|s| - 1] * 1000000.0;
      WholeSum(a, b);
      assert Sum(s) * 1000000.0 == a + b;
    }
  }

  /** A loaded original's moving duration is a whole number of microseconds:
      its duration and each still interval are differences of instants. */
  lemma EffectiveWholeMicros(raw: seq<RawPoint>, geo: Geodesic)
    requires Loadable(raw, geo)
    ensures IsWhole(EffectiveSeconds(Normalized(raw, geo)) * 1000000.0)
  {
    var f := Normalized(raw, geo);
    var a, b := TotalSeconds(raw) * 1000000.0, Sum(StillTimes(NormalPoints(raw, geo))) * 1000000.0;
    StillTotalWholeMicros(raw, geo);
    assert a == (raw[|raw| - 1].time - raw[0].time) as real;
    WholeDifference(a, b);
    assert EffectiveSeconds(f) * 1000000.0 == a - b;
  }

  /** The total still time of a loaded track is a whole number of
      microseconds. */
  lemma StillTotalWholeMicros(raw: seq<RawPoint>, geo: Geodesic)
    requires Loadable(raw, geo)
    ensures IsWhole(Sum(StillTimes(NormalPoints(raw, geo))) * 1000000.0)
  {
    var still := StillTimes(NormalPoints(raw, geo));
    forall i | 0 <= i < |still|
      ensures IsWhole(still[i] * 1000000.0)
    {
      assert still[i] == CalcStillTime(NormalPoint(raw, geo, i));
      StillWholeMicros(raw, geo, i);
    }
    SumWholeMicros(still);
  }

  /** The still time of a point is a whole number of microseconds: zero, or
      the difference of two instants. */
  lemma StillWholeMicros(raw: seq<RawPoint>, geo: Geodesic, i: nat)
    requires Loadable(raw, geo)
    requires i < |raw|
    ensures IsWhole(CalcStillTime(NormalPoint(raw, geo, i)) * 1000000.0)
  {
    if i > 0 {
      assert NormalPoint(raw, geo, i).sinceLast * 1000000.0 == (raw[i].time - raw[i - 1].time) as real;
    }
  }


  /** With chronological timestamps the original's moving duration lies
      between zero and its whole duration. */
  lemma EffectiveSecondsBounded(raw: seq<RawPoint>, geo: Geodesic)
    requires Loadable(raw, geo)
    requires Chronological(raw)
    ensures var f := Normalized(raw, geo);
      0.0 <= EffectiveSeconds(f) <= f.totalSeconds
  {
    StillTimeBounded(raw, geo);
  }

  /** The replacement's first point lands on the original's start and its
      last on the start plus the original's moving duration, exactly. */
  lemma ReconstructedEndpoints(raw: seq<RawPoint>, geo: Geodesic, original: GpxFile)
    requires Loadable(raw, geo)
    requires |raw| >= 2
    requires |original.pts| >= 1
    requires IsWhole(EffectiveSeconds(original) * 1000000.0)
    ensures var r := FixTime(Normalized(raw, geo), original);
      && r.pts[0].raw.time == StartTime(original)
      && Seconds(r.pts[|raw| - 1].raw.time - StartTime(original)) == EffectiveSeconds(original)
  {
    var f := Normalized(raw, geo);
    var e := EffectiveSeconds(original);
    NDistanceEndpoints(raw, geo);
    var r := FixTime(f, original);
    assert r.pts[0] == TrackPoints.FixTime(f.pts[0], StartTime(original), e);
    assert r.pts[|raw| - 1] == TrackPoints.FixTime(f.pts[|raw| - 1], StartTime(original), e);
    assert Offset(e, f.pts[0].ndistance) == 0.0;
    assert Offset(e, f.pts[|raw| - 1].ndistance) == e;
    RoundWhole(0.0);
    ShiftWhole(StartTime(original), e);
  }
}
