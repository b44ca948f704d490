/**
  One sample of a track (`TrackPoint` in gpxfixer.py): the fields parsed from
  the file, and the fields the normalisation fills in, each point operation
  as a pure function returning the updated point.
 */
module TrackPoints {
  import opened Rounding
  import opened Timestamps

  /** Latitude and longitude in degrees. */
  datatype Position = Position(lat: real, lon: real)

  /** One sensor reading of the point's extension group, by tag name. */
  datatype Channel = Channel(name: string, value: real)

  /** The parsed part of a point; `time` is in microseconds since the epoch. */
  datatype RawPoint = RawPoint(pos: Position, ele: real, time: int, channels: seq<Channel>)

  /** A point with its computed fields: `elapsed` (microseconds since the
      track's first point), `nelapsed` (elapsed as a fraction of the track's
      duration), `distance` (metres from the previous point),
      `accumulated` (metres from the first point), `ndistance` (accumulated
      as a fraction of the track's length) and `sinceLast` (seconds since the
      previous point). */
  datatype TrackPoint = TrackPoint(
    raw: RawPoint,
    elapsed: int,
    nelapsed: real,
    distance: real,
    accumulated: real,
    ndistance: real,
    sinceLast: real)

  /** The great-circle distance in metres between two positions; the haversine
      formula is not modelled, only this signature. */
  type Geodesic = (Position, Position) -> real

  /** Distances are never negative. */
  ghost predicate NonNegative(geo: Geodesic)
  {
    forall a, b :: geo(a, b) >= 0.0
  }

  /** Below this speed (metres per second) an interval counts as standing still. */
  const MinRate: real := 1.5

  /** A freshly parsed point: every computed field starts at zero. */
  function Fresh(raw: RawPoint): (p: TrackPoint)
  {
    TrackPoint(raw, 0, 0.0, 0.0, 0.0, 0.0, 0.0)
  }

  /** `adjust_time`: the time fields relative to the track's first point and
      to the previous point. */
  function AdjustTime(p: TrackPoint, origin: TrackPoint, last: TrackPoint, totalSeconds: real): TrackPoint
    requires totalSeconds != 0.0
  {
    var elapsed := p.raw.time - origin.raw.time;
    p.(elapsed := elapsed,
       nelapsed := Seconds(elapsed) / totalSeconds,
       sinceLast := Seconds(p.raw.time - last.raw.time))
  }

  /** `adjust_distance`: the distance from the previous point. */
  function AdjustDistance(p: TrackPoint, last: TrackPoint, geo: Geodesic): TrackPoint
  {
    p.(distance := geo(last.raw.pos, p.raw.pos))
  }

  /** `set_ndistance`: extends the previous point's accumulated distance and
      normalises it by the track's length. */
  function SetNDistance(p: TrackPoint, last: TrackPoint, totalDistance: real): TrackPoint
    requires totalDistance != 0.0
  {
    var accumulated := p.distance + last.accumulated;
    p.(accumulated := accumulated, ndistance := accumulated / totalDistance)
  }

  /** `calc_still_time`: the interval since the previous point if the device
      moved slower than `MinRate` over it (a non-positive interval counts as
      rate 0), and 0 otherwise. */
  function CalcStillTime(p: TrackPoint): (r: real)
    ensures r == 0.0 || r == p.sinceLast
    ensures r == p.sinceLast <==> (p.sinceLast <= 0.0 || p.distance / p.sinceLast < MinRate)
    ensures p.sinceLast >= 0.0 ==> 0.0 <= r <= p.sinceLast
  {
    var rate := if p.sinceLast > 0.0 then p.distance / p.sinceLast else 0.0;
    if rate < MinRate then p.sinceLast else 0.0
  }

  /** The offset of a point at distance fraction `fraction` along a journey
      of `totalSeconds`: `total_seconds * self.ndistance`. */
  function Offset(totalSeconds: real, fraction: real): real
  {
    totalSeconds * fraction
  }

  /** Spreading a non-negative duration keeps the order of the fractions. */
  lemma OffsetMonotone(totalSeconds: real, a: real, b: real)
    requires totalSeconds >= 0.0
    requires a <= b
    ensures Offset(totalSeconds, a) <= Offset(totalSeconds, b)
  {
    assert totalSeconds * b - totalSeconds * a == totalSeconds * (b - a);
  }

  /** `fix_time`: the point's new instant, `totalSeconds` scaled by its
      distance fraction after `originTime`. Nothing else about the point
      changes. */
  function FixTime(p: TrackPoint, originTime: int, totalSeconds: real): (q: TrackPoint)
    ensures q == p.(raw := p.raw.(time := q.raw.time))
  {
    p.(raw := p.raw.(time := Shift(originTime, Offset(totalSeconds, p.ndistance))))
  }

  /** The new instant lies within half a microsecond of the origin plus the
      point's offset. */
  lemma FixTimeClose(p: TrackPoint, originTime: int, totalSeconds: real)
    ensures Abs(Seconds(FixTime(p, originTime, totalSeconds).raw.time - originTime)
                - Offset(totalSeconds, p.ndistance)) <= 0.0000005
  {
    ShiftClose(originTime, Offset(totalSeconds, p.ndistance));
  }

  /** A point further along the track is not given an earlier instant, as
      long as the duration being spread is not negative. */
  lemma FixTimeMonotone(p: TrackPoint, p': TrackPoint, originTime: int, totalSeconds: real)
    requires totalSeconds >= 0.0
    requires p.ndistance <= p'.ndistance
    ensures FixTime(p, originTime, totalSeconds).raw.time <= FixTime(p', originTime, totalSeconds).raw.time
  {
    OffsetMonotone(totalSeconds, p.ndistance, p'.ndistance);
    ShiftMonotone(originTime, Offset(totalSeconds, p.ndistance), Offset(totalSeconds, p'.ndistance));
  }
}
