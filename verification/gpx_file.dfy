/**
  A loaded track file (`GpxFile` in gpxfixer.py): the numeric part of its
  construction, which normalises distances and times, gathers the fit
  samples and totals the time spent standing still.
 */
module Gpx {
  import opened Sums
  import opened Timestamps
  import opened TrackPoints
  import opened FitValues

  /** A loaded file: its points with their computed fields, the track's
      duration in seconds, its length in metres, the fit samples per channel
      and the time spent standing still, in seconds. */
  datatype GpxFile = GpxFile(
    pts: seq<TrackPoint>,
    totalSeconds: real,
    totalDistance: real,
    values: seq<Group>,
    totalStillTime: real)

  /** Seconds from the first point to the last. */
  function TotalSeconds(raw: seq<RawPoint>): real
    requires |raw| >= 1
  {
    Seconds(raw[|raw| - 1].time - raw[0].time)
  }

  /** The distance of point `i` from its predecessor; the first point has none. */
  function Step(raw: seq<RawPoint>, geo: Geodesic, i: nat): real
    requires i < |raw|
  {
    if i == 0 then 0.0 else geo(raw[i - 1].pos, raw[i].pos)
  }

  /** The per-point distances, in point order. */
  function Distances(raw: seq<RawPoint>, geo: Geodesic): (ds: seq<real>)
    ensures |ds| == |raw|
  {
    seq(|raw|, i requires 0 <= i < |raw| => Step(raw, geo, i))
  }

  /** The track's length: the sum of the per-point distances. */
  function TotalDistance(raw: seq<RawPoint>, geo: Geodesic): real
  {
    Sum(Distances(raw, geo))
  }

  /** What loading needs: at least one point (the code reads the last point
      of the list) and, once there is an interval to normalise, a non-zero
      duration (else the division raises) and a non-zero length (else the
      fractions are not numbers). */
  predicate Loadable(raw: seq<RawPoint>, geo: Geodesic)
  {
    && |raw| >= 1
    && (|raw| >= 2 ==> TotalSeconds(raw) != 0.0 && TotalDistance(raw, geo) != 0.0)
  }

  /** The timestamps never go backwards. */
  predicate Chronological(raw: seq<RawPoint>)
  {
    forall i :: 0 < i < |raw| ==> raw[i - 1].time <= raw[i].time
  }

  // The reference definition of a loaded file: every computed field in
  // closed form.

  /** Point `i` (not the first) once its distance and time fields are set. */
  function Timed(raw: seq<RawPoint>, geo: Geodesic, i: nat): TrackPoint
    requires Loadable(raw, geo)
    requires 0 < i < |raw|
  {
    var elapsed := raw[i].time - raw[0].time;
    Fresh(raw[i]).(
      elapsed := elapsed,
      nelapsed := Seconds(elapsed) / TotalSeconds(raw),
      distance := Step(raw, geo, i),
      sinceLast := Seconds(raw[i].time - raw[i - 1].time))
  }

  /** Point `i` fully normalised: its accumulated distance is the sum of the
      distances up to and including its own. */
  function NormalPoint(raw: seq<RawPoint>, geo: Geodesic, i: nat): TrackPoint
    requires Loadable(raw, geo)
    requires i < |raw|
  {
    if i == 0 then Fresh(raw[0])
    else
      var acc := Sum(Distances(raw, geo)[..i + 1]);
      Timed(raw, geo, i).(accumulated := acc, ndistance := acc / TotalDistance(raw, geo))
  }

  /** Every point of the track, normalised. */
  function NormalPoints(raw: seq<RawPoint>, geo: Geodesic): (pts: seq<TrackPoint>)
    requires Loadable(raw, geo)
    ensures |pts| == |raw|
  {
    seq(|raw|, i requires 0 <= i < |raw| => NormalPoint(raw, geo, i))
  }

  /** The still time of each point. */
  function StillTimes(pts: seq<TrackPoint>): (s: seq<real>)
    ensures |s| == |pts|
  {
    seq(|pts|, i requires 0 <= i < |pts| => CalcStillTime(pts[i]))
  }

  /** The seconds since the previous point, of each point. */
  function SinceLasts(pts: seq<TrackPoint>): (s: seq<real>)
    ensures |s| == |pts|
  {
    seq(|pts|, i requires 0 <= i < |pts| => pts[i].sinceLast)
  }

  /** The loaded file, in closed form. */
  function Normalized(raw: seq<RawPoint>, geo: Geodesic): GpxFile
    requires Loadable(raw, geo)
  {
    var pts := NormalPoints(raw, geo);
    GpxFile(pts, TotalSeconds(raw), TotalDistance(raw, geo), CollectValues(pts), Sum(StillTimes(pts)))
  }

  /** The first loop of `GpxFile.__init__`: each point after the first gets
      its distance from its predecessor and its time fields. */
  method AdjustPass(raw: seq<RawPoint>, geo: Geodesic) returns (pts: seq<TrackPoint>)
    requires Loadable(raw, geo)
    ensures |pts| == |raw|
    ensures pts[0] == Fresh(raw[0])
    ensures forall k :: 0 < k < |raw| ==> pts[k] == Timed(raw, geo, k)
  {
    var n := |raw|;
    pts := seq(n, i requires 0 <= i < n => Fresh(raw[i]));
    var totalSeconds := Seconds(pts[n - 1].raw.time - pts[0].raw.time);
    var origin := pts[0];
    for i := 1 to n
      invariant |pts| == n
      invariant pts[0] == origin == Fresh(raw[0])
      invariant forall k :: 0 < k < i ==> pts[k] == Timed(raw, geo, k)
      invariant forall k :: i <= k < n ==> pts[k] == Fresh(raw[k])
    {
      var pt := AdjustDistance(pts[i], pts[i - 1], geo);
      pt := AdjustTime(pt, origin, pts[i - 1], totalSeconds);
      pts := pts[i := pt];
    }
  }

  /** The second loop of `GpxFile.__init__`, after the track's length is
      summed: each point after the first extends its predecessor's
      accumulated distance. */
  method NDistancePass(raw: seq<RawPoint>, geo: Geodesic, timed: seq<TrackPoint>)
    returns (pts: seq<TrackPoint>, totalDistance: real)
    requires Loadable(raw, geo)
    requires |timed| == |raw|
    requires timed[0] == Fresh(raw[0])
    requires forall k :: 0 < k < |raw| ==> timed[k] == Timed(raw, geo, k)
    ensures pts == NormalPoints(raw, geo)
    ensures totalDistance == TotalDistance(raw, geo)
  {
    var n := |raw|;
    var ds := Distances(raw, geo);
    var distances := seq(n, k requires 0 <= k < n => timed[k].distance);
    assert distances == ds;
    totalDistance := Sum(distances);
    SumPrefixStep(ds, 0);
    assert ds[..0] == [];
    pts := timed;
    for i := 1 to n
      invariant |pts| == n
      invariant forall k :: 0 <= k < i ==> pts[k] == NormalPoint(raw, geo, k)
      invariant forall k :: 0 <= k < i ==> pts[k].accumulated == Sum(ds[..k + 1])
      invariant forall k :: i <= k < n ==> pts[k] == Timed(raw, geo, k)
    {
      NDistanceStep(raw, geo, i, pts[i - 1], pts[i]);
      pts := pts[i := SetNDistance(pts[i], pts[i - 1], totalDistance)];
    }
  }

  /** One step of the second pass turns point `i` into its normal form,
      given its predecessor's. */
  lemma NDistanceStep(raw: seq<RawPoint>, geo: Geodesic, i: nat, last: TrackPoint, p: TrackPoint)
    requires Loadable(raw, geo)
    requires 0 < i < |raw|
    requires last.accumulated == Sum(Distances(raw, geo)[..i])
    requires p == Timed(raw, geo, i)
    ensures var q := SetNDistance(p, last, TotalDistance(raw, geo));
      q == NormalPoint(raw, geo, i) && q.accumulated == Sum(Distances(raw, geo)[..i + 1])
  {
    SumPrefixStep(Distances(raw, geo), i);
  }

  /** The loop of `GpxFile.__init__` that gathers the fit samples: every
      point's samples, in point order, which group into each channel's
      column of time fractions and readings. */
  method GatherValues(pts: seq<TrackPoint>) returns (values: seq<Group>)
    ensures values == CollectValues(pts)
    ensures WellFormed(values)
    ensures forall n :: XsOf(values, n) == ColumnXs(pts, n) && YsOf(values, n) == ColumnYs(pts, n)
    ensures GroupNames(values) == FirstSeen([], TagOrder(pts))
  {
    values := [];
    for i := 0 to |pts|
      invariant values == CollectValues(pts[..i])
    {
      assert pts[..i + 1][..i] == pts[..i];
      values := AppendFitValues(pts[i], values);
    }
    assert pts[..|pts|] == pts;
    CollectValuesAreColumns(pts);
    CollectValuesKeyOrder(pts);
  }

  /** The numeric part of `GpxFile.__init__`: the two passes, the fit
      samples and the still time. */
  method Load(raw: seq<RawPoint>, geo: Geodesic) returns (f: GpxFile)
    requires Loadable(raw, geo)
    ensures f == Normalized(raw, geo)
  {
    var totalSeconds := Seconds(raw[|raw| - 1].time - raw[0].time);
    var timed := AdjustPass(raw, geo);
    var pts, totalDistance := NDistancePass(raw, geo, timed);
    var values := GatherValues(pts);
    var still := Sum(seq(|pts|, k requires 0 <= k < |pts| => CalcStillTime(pts[k])));
    f := GpxFile(pts, totalSeconds, totalDistance, values, still);
  }

  // Properties of a loaded file.

  /** The passes start at the second point, so the first keeps the zeros it
      was created with. */
  lemma FirstPointUntouched(raw: seq<RawPoint>, geo: Geodesic)
    requires Loadable(raw, geo)
    ensures var p := Normalized(raw, geo).pts[0];
      && p.raw == raw[0]
      && p.elapsed == 0 && p.nelapsed == 0.0 && p.sinceLast == 0.0
      && p.distance == 0.0 && p.accumulated == 0.0 && p.ndistance == 0.0
  {
  }

  /** The accumulated distance of point `i` is the running sum of the
      distances up to it, which is what extending the predecessor's
      accumulated distance point by point computes. */
  lemma {:induction false} AccumulatedIsRunningSum(raw: seq<RawPoint>, geo: Geodesic, i: nat)
    requires Loadable(raw, geo)
    requires 0 < i < |raw|
    ensures var pts := Normalized(raw, geo).pts;
      && pts[i].distance == geo(raw[i - 1].pos, raw[i].pos)
      && pts[i].accumulated == pts[i - 1].accumulated + pts[i].distance
  {
    var ds := Distances(raw, geo);
    SumPrefixStep(ds, i);
    if i == 1 {
      SumPrefixStep(ds, 0);
      assert ds[..0] == [];
    }
  }

  /** With non-negative distances, the per-point distances are non-negative. */
  lemma DistancesNonNegative(raw: seq<RawPoint>, geo: Geodesic)
    requires NonNegative(geo)
    ensures AllNonNegative(Distances(raw, geo))
  {
  }

  /** The accumulated distance of point `i` is the sum of the first `i + 1`
      per-point distances, the first point included. */
  lemma AccumulatedAt(raw: seq<RawPoint>, geo: Geodesic, i: nat)
    requires Loadable(raw, geo)
    requires i < |raw|
    ensures Normalized(raw, geo).pts[i].accumulated == Sum(Distances(raw, geo)[..i + 1])
  {
    if i == 0 {
      var ds := Distances(raw, geo);
      SumPrefixStep(ds, 0);
      assert ds[..0] == [];
    }
  }

  /** Accumulated distance never decreases along the track and ends at the
      track's length. */
  lemma AccumulatedMonotone(raw: seq<RawPoint>, geo: Geodesic, i: nat, j: nat)
    requires Loadable(raw, geo)
    requires NonNegative(geo)
    requires i <= j < |raw|
    ensures var f := Normalized(raw, geo);
      && 0.0 <= f.pts[i].accumulated <= f.pts[j].accumulated <= f.totalDistance
      && f.pts[|raw| - 1].accumulated == f.totalDistance
  {
    var f := Normalized(raw, geo);
    var ds := Distances(raw, geo);
    var n := |raw|;
    DistancesNonNegative(raw, geo);
    PrefixSumsBounded(ds, i, j);
    AccumulatedAt(raw, geo, i);
    AccumulatedAt(raw, geo, j);
    AccumulatedAt(raw, geo, n - 1);
    assert ds[..n] == ds;
    assert f.totalDistance == Sum(ds);
  }

  /** The distance fraction of point `i` is its accumulated distance over the
      track's length. */
  lemma NDistanceIsFraction(raw: seq<RawPoint>, geo: Geodesic, i: nat)
    requires Loadable(raw, geo)
    requires |raw| >= 2
    requires i < |raw|
    ensures var f := Normalized(raw, geo);
      f.pts[i].ndistance == f.pts[i].accumulated / f.totalDistance
  {
    AccumulatedAt(raw, geo, i);
  }

  /** The distance fraction runs from exactly 0 at the first point to exactly
      1 at the last. */
  lemma NDistanceEndpoints(raw: seq<RawPoint>, geo: Geodesic)
    requires Loadable(raw, geo)
    requires |raw| >= 2
    ensures var f := Normalized(raw, geo);
      f.pts[0].ndistance == 0.0 && f.pts[|raw| - 1].ndistance == 1.0
  {
    var ds := Distances(raw, geo);
    var n := |raw|;
    assert Normalized(raw, geo).pts[n - 1] == NormalPoint(raw, geo, n - 1);
    assert ds[..n] == ds;
    var t := TotalDistance(raw, geo);
    assert NormalPoint(raw, geo, n - 1).ndistance == t / t;
    DivideSelf(t);
  }

  /** With non-negative distances the distance fractions lie in [0, 1] and
      never decrease along the track. */
  lemma NDistanceMonotone(raw: seq<RawPoint>, geo: Geodesic, i: nat, j: nat)
    requires Loadable(raw, geo)
    requires NonNegative(geo)
    requires |raw| >= 2
    requires i <= j < |raw|
    ensures var f := Normalized(raw, geo);
      0.0 <= f.pts[i].ndistance <= f.pts[j].ndistance <= 1.0
  {
    var f := Normalized(raw, geo);
    AccumulatedMonotone(raw, geo, i, j);
    NDistanceIsFraction(raw, geo, i);
    NDistanceIsFraction(raw, geo, j);
    var a, b, t := f.pts[i].accumulated, f.pts[j].accumulated, f.totalDistance;
    assert t > 0.0;
    DivideMonotone(a, b, t);
    DivideMonotone(b, t, t);
    DivideSelf(t);
  }

  /** Dividing by a positive number keeps the order and the sign. */
  lemma DivideMonotone(a: real, b: real, t: real)
    requires 0.0 <= a <= b
    requires t > 0.0
    ensures 0.0 <= a / t <= b / t
  {
    assert b / t - a / t == (b - a) / t;
  }

  /** A non-zero number divided by itself is one. */
  lemma DivideSelf(t: real)
    requires t != 0.0
    ensures t / t == 1.0
  {
  }

  /** Timestamps that never go backwards between neighbours are ordered
      between any two points. */
  lemma {:induction false} ChronologicalOrder(raw: seq<RawPoint>, i: nat, j: nat)
    requires Chronological(raw)
    requires i <= j < |raw|
    ensures raw[i].time <= raw[j].time
  {
    if i < j {
      ChronologicalOrder(raw, i, j - 1);
    }
  }

  /** The time fraction runs from exactly 0 at the first point to exactly 1
      at the last. */
  lemma NElapsedEndpoints(raw: seq<RawPoint>, geo: Geodesic)
    requires Loadable(raw, geo)
    requires |raw| >= 2
    ensures var f := Normalized(raw, geo);
      f.pts[0].nelapsed == 0.0 && f.pts[|raw| - 1].nelapsed == 1.0
  {
    var n := |raw|;
    assert Normalized(raw, geo).pts[n - 1] == NormalPoint(raw, geo, n - 1);
    var t := TotalSeconds(raw);
    assert NormalPoint(raw, geo, n - 1).nelapsed == t / t;
    DivideSelf(t);
  }

  /** With chronological timestamps the time fractions lie in [0, 1] and
      never decrease along the track. */
  lemma NElapsedMonotone(raw: seq<RawPoint>, geo: Geodesic, i: nat, j: nat)
    requires Loadable(raw, geo)
    requires Chronological(raw)
    requires |raw| >= 2
    requires i <= j < |raw|
    ensures var f := Normalized(raw, geo);
      0.0 <= f.pts[i].nelapsed <= f.pts[j].nelapsed <= 1.0
  {
    var f := Normalized(raw, geo);
    var t0, t := raw[0].time, TotalSeconds(raw);
    ElapsedFractions(raw, i, j);
    assert f.pts[i] == NormalPoint(raw, geo, i);
    assert f.pts[j] == NormalPoint(raw, geo, j);
  }

  /** The elapsed seconds of chronological points, as fractions of the
      duration, are ordered and lie in [0, 1]. */
  lemma ElapsedFractions(raw: seq<RawPoint>, i: nat, j: nat)
    requires Chronological(raw)
    requires i <= j < |raw|
    requires TotalSeconds(raw) != 0.0
    ensures var t0, t := raw[0].time, TotalSeconds(raw);
      0.0 <= Seconds(raw[i].time - t0) / t <= Seconds(raw[j].time - t0) / t <= 1.0
  {
    ChronologicalOrder(raw, 0, i);
    ChronologicalOrder(raw, i, j);
    ChronologicalOrder(raw, j, |raw| - 1);
    var t0, t := raw[0].time, TotalSeconds(raw);
    var a, b := Seconds(raw[i].time - t0), Seconds(raw[j].time - t0);
    assert 0.0 <= a <= b <= t;
    DivideMonotone(a, b, t);
    DivideMonotone(b, t, t);
    DivideSelf(t);
  }

  /** The seconds since the previous point, summed over the first `j + 1`
      points, are the seconds from the first point to point `j`. */
  lemma {:induction false} SinceLastPrefix(raw: seq<RawPoint>, geo: Geodesic, j: nat)
    requires Loadable(raw, geo)
    requires j < |raw|
    ensures Sum(SinceLasts(Normalized(raw, geo).pts)[..j + 1]) == Seconds(raw[j].time - raw[0].time)
  {
    var s := SinceLasts(Normalized(raw, geo).pts);
    SumPrefixStep(s, j);
    if j == 0 {
      assert s[..0] == [];
    } else {
      SinceLastPrefix(raw, geo, j - 1);
    }
  }

  /** The seconds since the previous point telescope: over the whole track
      they add up to the track's duration. */
  lemma SinceLastTelescopes(raw: seq<RawPoint>, geo: Geodesic)
    requires Loadable(raw, geo)
    ensures var f := Normalized(raw, geo);
      Sum(SinceLasts(f.pts)) == f.totalSeconds
  {
    var s := SinceLasts(Normalized(raw, geo).pts);
    SinceLastPrefix(raw, geo, |raw| - 1);
    assert s[..|raw|] == s;
  }

  /** With chronological timestamps the time spent standing still is never
      negative and never more than the track's duration. */
  lemma StillTimeBounded(raw: seq<RawPoint>, geo: Geodesic)
    requires Loadable(raw, geo)
    requires Chronological(raw)
    ensures var f := Normalized(raw, geo);
      0.0 <= f.totalStillTime <= f.totalSeconds
  {
    var pts := Normalized(raw, geo).pts;
    var still, since := StillTimes(pts), SinceLasts(pts);
    forall k | 0 <= k < |pts|
      ensures 0.0 <= still[k] <= since[k]
    {
      if k > 0 {
        assert raw[k - 1].time <= raw[k].time;
      }
    }
    SumNonNegative(still);
    SumPointwiseLe(still, since);
    SinceLastTelescopes(raw, geo);
  }
}
