# gpxfixer track fusion, modelled in Dafny

gpxfixer takes two GPX tracks of one activity: an *original*, whose sensor
channels (heart rate, cadence, temperature, ...) and timing are trusted, and a
*replacement*, whose positions are trusted. It rewrites the replacement so
that each of its points carries sensor readings synthesised from the original
and a time stamp paced by the original's moving duration.

This project models the numeric core of `gpxfixer.py` over exact reals:

- `TrackPoints` (`track_points.dfy`): the `TrackPoint` record and its
  per-point operations. These are `adjust_time`, `adjust_distance`,
  `set_ndistance`, `calc_still_time` with its `MIN_RATE` of 1.5 m/s, and
  `fix_time`.
- `Gpx` (`gpx_file.dfy`): the numeric part of `GpxFile.__init__`. It runs the
  distance and time pass, the accumulated-distance pass and the gathering of
  the fit samples as methods with loops, and totals the still time. `Load` is
  proved equal to a closed-form reference definition (`Normalized`) built on
  prefix sums, and the properties of a loaded track are stated about that
  definition. The gathered fit samples are also proved equal to each
  channel's column of time fractions and readings, read off the points
  directly.
- `FitValues` (`fit_values.dfy`): `append_fit_values` and the `values`
  dictionary. It is an insertion-ordered list of per-channel groups.
- `Channels` (`channels.dfy`): the naming and rounding of
  `TrackPoint.add_extensions`. Names get the `ns3:` prefix forced. `atemp`
  readings are rounded to one decimal and all other channels to a whole
  number.
- `Fusion` (`fusion.dfy`): `GpxFile.add_extensions`, `GpxFile.fix_time` and
  `start_time`. These cover the synthesised readings, the reconstructed
  instants and the milliseconds written for them.
- Support modules:
  - `Sums`: Python's left-to-right `sum`.
  - `Rounding`: `round` as round-half-to-even.
  - `Polynomial`: `np.poly1d` evaluation by Horner's rule.
  - `Timestamps`: microsecond instants, `timedelta` rounding and the `%f`
    field.

Modelling choices:

- An instant is an `int` number of microseconds, the resolution of a Python
  `datetime`.
- `timedelta(seconds=s)` rounds `s` half-to-even to whole microseconds
  (`Timestamps.Shift`).
- The great-circle distance is a function parameter `geo`. Properties that
  need distances to be non-negative require `NonNegative(geo)`.
- The coefficients of `np.polyfit` are an input: four per channel, highest
  degree first.
- Python dictionaries keep insertion order, so `values` and `polyfit` are
  sequences in first-seen order.

Behaviour of `gpxfixer.py` that the model keeps as written:

- The fit samples use a point's time fraction `nelapsed` as the abscissa
  (`gpxfixer.py:89`), but the polynomials are evaluated at the replacement's
  distance fraction `ndistance` (`gpxfixer.py:70`).
- The code defines no error kinds of its own.
  - The numeric passes of a one-point track do nothing, and all its
    fractions stay 0. The model allows it.
  - An empty track fails with an `IndexError` on `self.pts[-1]`
    (`gpxfixer.py:116`).
  - A zero duration raises `ZeroDivisionError` (`gpxfixer.py:44`).
  - A zero length makes numpy produce NaN fractions (`gpxfixer.py:63`).
  - The model states these last three cases as the precondition `Loadable`.
- A channel with fewer than four samples is not rejected: its samples go to
  `np.polyfit` unchecked (`gpxfixer.py:130-132`), which is not part of this
  model.

## Model

| member | source | states |
|---|---|---|
| Rounding.RoundHalfEven | gpxfixer.py:76 | `round(v)` is within one half of `v`, and an exact half goes to the even neighbour |
| Rounding.RoundIsNearest | gpxfixer.py:76 | no integer is closer to `v` than `round(v)` |
| Rounding.RoundMonotone | gpxfixer.py:76 | rounding never inverts the order of two values |
| Rounding.RoundWhole | gpxfixer.py:76 | a whole number rounds to itself |
| Rounding.RoundTenths | gpxfixer.py:74 | `round(v, 1)` is a whole number of tenths within 0.05 of `v`, and an exact half-tenth goes to the even number of tenths |
| Polynomial.PolyvalIsTerms | gpxfixer.py:70 | Horner evaluation of the coefficients equals the sum of `c[i] * x^(d-i)` |
| Polynomial.PolyvalCubic | gpxfixer.py:131-132 | a degree-3 fit `[a, b, c, d]` evaluates to `a x^3 + b x^2 + c x + d` |
| Timestamps.ShiftClose | gpxfixer.py:94 | adding `timedelta(seconds=s)` moves an instant by `s` seconds, give or take half a microsecond |
| Timestamps.ShiftWhole | gpxfixer.py:94 | a duration of whole microseconds is added exactly |
| Timestamps.ShiftMonotone | gpxfixer.py:94 | a longer duration never gives an earlier instant |
| Timestamps.MillisTruncates | gpxfixer.py:95 | `strftime("%f")[:3]` is the microsecond field divided by 1000, i.e. truncated and not rounded, as three digits |
| Timestamps.MillisTruncateExample | gpxfixer.py:95 | an instant 999.6 ms past a second is written `999` |
| TrackPoints.CalcStillTime | gpxfixer.py:99-103 | the still time is the whole interval exactly when the interval is not positive or the speed over it is below 1.5 m/s, and 0 otherwise |
| TrackPoints.OffsetMonotone | gpxfixer.py:93 | a non-negative duration scaled by a larger fraction is not shorter |
| TrackPoints.FixTime | gpxfixer.py:92-94 | `fix_time` changes the point's instant and nothing else |
| TrackPoints.FixTimeClose | gpxfixer.py:92-94 | the new instant is the origin plus `total_seconds * ndistance`, to within half a microsecond |
| TrackPoints.FixTimeMonotone | gpxfixer.py:92-94 | a point with a larger distance fraction never gets an earlier instant when the duration is not negative |
| FitValues.AddSampleAppends | gpxfixer.py:87-90 | one sample creates its channel's group if missing and appends x and y to that channel's lists only; the dictionary stays valid |
| FitValues.AddSampleOrder | gpxfixer.py:86-88 | a channel not yet in the dictionary gets a new group after all existing ones; a known channel leaves the number and order of the groups as they were |
| FitValues.GroupNamesAreNames | gpxfixer.py:86-87 | the dictionary's key sequence holds exactly its keys |
| FitValues.AddSampleNameOrder | gpxfixer.py:86-88 | one sample adds its channel to the end of the key sequence if and only if it is new |
| FitValues.FirstSeenAppend | gpxfixer.py:85-88 | inserting the names of two runs of tags in turn orders the keys as inserting the names of the joined run |
| FitValues.AppendChannelsNameOrder | gpxfixer.py:85-88 | a point adds its new tag names to the key sequence in tag order, each once |
| FitValues.CollectValuesKeyOrder | gpxfixer.py:125-129 | the dictionary's keys, and so the order in which channels are fitted, are the track's tag names in order of first occurrence |
| FitValues.AppendChannelsAppends | gpxfixer.py:85-90 | a point appends, for every channel, its time fraction and that channel's readings in tag order, and touches no other channel |
| FitValues.CollectValuesAreColumns | gpxfixer.py:125-127 | the gathered dictionary is valid, and each channel's lists are exactly the time fractions and readings of the points carrying it, in point order |
| FitValues.ColumnLengths | gpxfixer.py:85-90 | each channel's x and y lists are equally long and non-empty exactly when some point carries the channel |
| FitValues.GroupedNames | gpxfixer.py:125-127 | the dictionary has a key exactly for the channel names some point carries |
| Channels.Qualify | gpxfixer.py:71-72 | the written tag always has the `ns3:` prefix; a prefixed name is kept as is and any other name follows the prefix |
| Channels.QualifyIdempotent | gpxfixer.py:71-72 | forcing the prefix twice is forcing it once |
| Channels.TemperatureNames | gpxfixer.py:71-73 | after prefixing, exactly `atemp` and `ns3:atemp` name the temperature channel |
| Channels.RoundFor | gpxfixer.py:73-76 | temperature is rounded to tenths and every other channel to a whole number, each within its rounding bound and with exact halves going to the even neighbour |
| Channels.Synthesize | gpxfixer.py:69-78 | a reading is the prefixed channel name with the polynomial's value at the distance fraction, rounded half-to-even as its name requires |
| Channels.AddExtensions | gpxfixer.py:69-79 | a point gets one reading per fitted channel, in the fits' order |
| Gpx.AdjustPass | gpxfixer.py:116-120 | the first pass leaves the first point fresh and gives every other point its distance, elapsed time, time fraction and interval |
| Gpx.NDistancePass | gpxfixer.py:121-123 | the second pass sums the distances and gives every point its closed-form accumulated distance and distance fraction |
| Gpx.GatherValues | gpxfixer.py:125-127 | the gathering loop builds a valid dictionary whose lists for each channel are that channel's time fractions and readings, in point order, and whose keys are the tag names in order of first occurrence |
| Gpx.Load | gpxfixer.py:116-134 | loading a track yields exactly the closed-form normalised file |
| Gpx.FirstPointUntouched | gpxfixer.py:24-29 | the first point keeps its parsed data and all its computed fields stay 0 |
| Gpx.AccumulatedIsRunningSum | gpxfixer.py:61-62 | each later point's distance is the geodesic from its predecessor and its accumulated distance extends the predecessor's by it |
| Gpx.AccumulatedMonotone | gpxfixer.py:121-123 | with non-negative distances, accumulated distance is non-negative and non-decreasing, and the last point's is the track's length |
| Gpx.NDistanceIsFraction | gpxfixer.py:63 | the distance fraction is the accumulated distance over the track's length |
| Gpx.NDistanceEndpoints | gpxfixer.py:121-123 | the distance fraction is exactly 0 at the first point and exactly 1 at the last |
| Gpx.NDistanceMonotone | gpxfixer.py:61-63 | with non-negative distances the distance fractions lie in [0, 1] and never decrease |
| Gpx.NElapsedEndpoints | gpxfixer.py:42-44 | the time fraction is exactly 0 at the first point and exactly 1 at the last |
| Gpx.NElapsedMonotone | gpxfixer.py:42-44 | with chronological time stamps the time fractions lie in [0, 1] and never decrease |
| Gpx.SinceLastTelescopes | gpxfixer.py:45 | the intervals since the previous point add up to the track's duration |
| Gpx.StillTimeBounded | gpxfixer.py:134 | with chronological time stamps the total still time lies between 0 and the track's duration |
| Fusion.Polyfit | gpxfixer.py:129-132 | there is one cubic per channel of the fit samples, in the same order and under the same names, each holding that channel's own coefficients |
| Fusion.AddExtensions | gpxfixer.py:136-138 | every replacement point gets one list of readings, one reading per fitted channel |
| Fusion.SynthesizedReadings | gpxfixer.py:136-138 | reading `c` of replacement point `k` is channel `c` of the original, prefixed, evaluated at the point's distance fraction and rounded half-to-even as its name requires |
| Fusion.FixTime | gpxfixer.py:140-145 | rewriting the times keeps every point and every other field of the file |
| Fusion.ReconstructedOffset | gpxfixer.py:140-145 | each new instant is the original's start plus its moving duration times the point's distance fraction, to within half a microsecond |
| Fusion.ReconstructedTimesMonotone | gpxfixer.py:140-145 | along a loaded replacement with non-negative distances, the new instants never go backwards when the moving duration is not negative |
| Fusion.ReconstructedEndpoints | gpxfixer.py:140-145 | the replacement's first point lands on the original's start and its last point on start plus moving duration, exactly |
| Fusion.EffectiveWholeMicros | gpxfixer.py:143-144 | a loaded original's moving duration is a whole number of microseconds |
| Fusion.EffectiveSecondsBounded | gpxfixer.py:143-145 | with chronological time stamps the moving duration lies between 0 and the original's duration |
| Fusion.FixedMillisTruncate | gpxfixer.py:95-97 | the milliseconds written for a point are its microsecond field truncated to three digits |

## Left out

- The haversine formula (`gpxfixer.py:47-59`) is not modelled. Distances come from the parameter `geo`, because trigonometry over reals is outside the model.
- `np.polyfit` (`gpxfixer.py:131`) is not modelled. Least-squares fitting is numerical linear algebra, so the coefficients are an input to `Fusion.Polyfit`.
- XML parsing and serialisation are not modelled. This covers BeautifulSoup, the building and replacing of extension tags (`gpxfixer.py:66-68`, `77-83`), `str(new_value)`, `replace_gps`, `__str__` and `pretty`. These are string and tree I/O.
- Time parsing by `dateutil`, time zones, and the `%Y-%m-%dT%H:%M:%S` part of the output (`gpxfixer.py:96`) are not modelled. Only the millisecond field is.
- The command line (`main`) is not modelled.
- Floating point is not modelled: reals stand for IEEE doubles. `round` is round-half-to-even on exact values, and `round(v, 1)` is modelled as rounding `10 v` and dividing by 10, as numpy does.
- Gpx.Load: a zero duration, a zero length or an empty track is excluded by the precondition `Loadable` rather than modelled as the exception or NaN the code produces.
- TrackPoints.FixTimeClose: states the offset to within half a microsecond, the rounding of `timedelta`, rather than the exact instant. Fusion.ReconstructedEndpoints gives the exact instants where the duration is a whole number of microseconds.
- Parsing the point fields `lat`, `lon`, `ele`, `time` and the extension tags (`gpxfixer.py:17-40`) is not modelled. `RawPoint` takes them as given. So is the conversion `float(ext.string)` of a tag's text (`gpxfixer.py:90`): it raises `ValueError` for text that is not a number and `TypeError` for a tag without a single text child; a `Channel` carries its reading as a real already.
