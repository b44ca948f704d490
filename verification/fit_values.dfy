/**
  The samples the curve fit is built from (`append_fit_values` and the
  `values` dictionary of gpxfixer.py). A Python dictionary keeps its keys in
  insertion order, so it is modelled as a list of groups, one per channel
  name, in the order the names were first seen.
 */
module FitValues {
  import opened TrackPoints

  /** The samples of one channel: parallel lists of abscissae and values. */
  datatype Group = Group(name: string, xs: seq<real>, ys: seq<real>)

  /** The channel names that have a group. */
  function Names(values: seq<Group>): set<string>
  {
    if |values| == 0 then {} else {values[0].name} + Names(values[1..])
  }

  /** A valid dictionary: no name twice, and every group has as many
      abscissae as values, and at least one of each. */
  predicate WellFormed(values: seq<Group>)
  {
    && (forall i, j :: 0 <= i < j < |values| ==> values[i].name != values[j].name)
    && (forall i :: 0 <= i < |values| ==> |values[i].xs| == |values[i].ys| && |values[i].xs| > 0)
  }

  /** The abscissae recorded for `name`, empty if it has no group. */
  function XsOf(values: seq<Group>, name: string): seq<real>
  {
    if |values| == 0 then []
    else if values[0].name == name then values[0].xs
    else XsOf(values[1..], name)
  }

  /** The values recorded for `name`, empty if it has no group. */
  function YsOf(values: seq<Group>, name: string): seq<real>
  {
    if |values| == 0 then []
    else if values[0].name == name then values[0].ys
    else YsOf(values[1..], name)
  }

  /** One sample of channel `name`: the group is created the first time the
      name is seen, and the sample is appended to both of its lists. */
  function AddSample(values: seq<Group>, name: string, x: real, y: real): (r: seq<Group>)
  {
    if |values| == 0 then [Group(name, [x], [y])]
    else if values[0].name == name then
      [values[0].(xs := values[0].xs + [x], ys := values[0].ys + [y])] + values[1..]
    else [values[0]] + AddSample(values[1..], name, x, y)
  }

  /** The samples of one point's channels, in the order of its tags, all at
      abscissa `x`. */
  function AppendChannels(values: seq<Group>, channels: seq<Channel>, x: real): seq<Group>
  {
    if |channels| == 0 then values
    else
      var c := channels[|channels| - 1];
      AddSample(AppendChannels(values, channels[..|channels| - 1], x), c.name, x, c.value)
  }

  /** `append_fit_values`: a point adds its channels at its time fraction. */
  function AppendFitValues(p: TrackPoint, values: seq<Group>): seq<Group>
  {
    AppendChannels(values, p.raw.channels, p.nelapsed)
  }

  /** The `values` dictionary of a track: every point's samples, in point order. */
  function CollectValues(pts: seq<TrackPoint>): seq<Group>
  {
    if |pts| == 0 then []
    else AppendFitValues(pts[|pts| - 1], CollectValues(pts[..|pts| - 1]))
  }

  // Reference definitions: the column of one channel, read off the points
  // directly.

  /** `x` once for every channel tag called `name`. */
  function ChannelXs(channels: seq<Channel>, x: real, name: string): seq<real>
  {
    if |channels| == 0 then []
    else
      ChannelXs(channels[..|channels| - 1], x, name)
      + (if channels[|channels| - 1].name == name then [x] else [])
  }

  /** The value of every channel tag called `name`. */
  function ChannelYs(channels: seq<Channel>, name: string): seq<real>
  {
    if |channels| == 0 then []
    else
      var c := channels[|channels| - 1];
      ChannelYs(channels[..|channels| - 1], name) + (if c.name == name then [c.value] else [])
  }

  /** The time fractions of the points carrying `name`, in point order, once
      per tag. */
  function ColumnXs(pts: seq<TrackPoint>, name: string): seq<real>
  {
    if |pts| == 0 then []
    else
      var p := pts[|pts| - 1];
      ColumnXs(pts[..|pts| - 1], name) + ChannelXs(p.raw.channels, p.nelapsed, name)
  }

  /** The readings of channel `name`, in point order. */
  function ColumnYs(pts: seq<TrackPoint>, name: string): seq<real>
  {
    if |pts| == 0 then []
    else
      var p := pts[|pts| - 1];
      ColumnYs(pts[..|pts| - 1], name) + ChannelYs(p.raw.channels, name)
  }

  /** Some point carries a channel tag called `name`. */
  ghost predicate Carries(pts: seq<TrackPoint>, name: string)
  {
    exists i, k :: 0 <= i < |pts| && 0 <= k < |pts[i].raw.channels| && pts[i].raw.channels[k].name == name
  }

  /** In a valid dictionary a name has a group exactly when it has samples. */
  lemma {:induction false} NamesHaveSamples(values: seq<Group>, name: string)
    requires WellFormed(values)
    ensures name in Names(values) <==> XsOf(values, name) != []
  {
    if |values| > 0 {
      NamesHaveSamples(values[1..], name);
    }
  }

  /** Adding a sample appends it to its own channel's lists and to no other. */
  lemma AddSampleAppends(values: seq<Group>, name: string, x: real, y: real)
    requires WellFormed(values)
    ensures WellFormed(AddSample(values, name, x, y))
    ensures Names(AddSample(values, name, x, y)) == Names(values) + {name}
    ensures forall n :: XsOf(AddSample(values, name, x, y), n) == XsOf(values, n) + (if n == name then [x] else [])
    ensures forall n :: YsOf(AddSample(values, name, x, y), n) == YsOf(values, n) + (if n == name then [y] else [])
  {
    AddSampleNames(values, name, x, y);
    AddSampleWellFormed(values, name, x, y);
    forall n
      ensures XsOf(AddSample(values, name, x, y), n) == XsOf(values, n) + (if n == name then [x] else [])
      ensures YsOf(AddSample(values, name, x, y), n) == YsOf(values, n) + (if n == name then [y] else [])
    {
      AddSampleLists(values, name, x, y, n);
    }
  }

  /** A sample gives its channel a group if it had none. */
  lemma {:induction false} AddSampleNames(values: seq<Group>, name: string, x: real, y: real)
    ensures Names(AddSample(values, name, x, y)) == Names(values) + {name}
  {
    var r := AddSample(values, name, x, y);
    if |values| > 0 {
      if values[0].name == name {
        assert r[1..] == values[1..];
      } else {
        AddSampleNames(values[1..], name, x, y);
        assert r[1..] == AddSample(values[1..], name, x, y);
      }
    }
  }

  /** A sample lands at the end of its own channel's lists. */
  lemma {:induction false} AddSampleLists(values: seq<Group>, name: string, x: real, y: real, n: string)
    ensures XsOf(AddSample(values, name, x, y), n) == XsOf(values, n) + (if n == name then [x] else [])
    ensures YsOf(AddSample(values, name, x, y), n) == YsOf(values, n) + (if n == name then [y] else [])
  {
    var r := AddSample(values, name, x, y);
    if |values| > 0 {
      if values[0].name == name {
        assert r[1..] == values[1..];
      } else {
        AddSampleLists(values[1..], name, x, y, n);
        assert r[1..] == AddSample(values[1..], name, x, y);
      }
    }
  }

  /** A sample keeps the dictionary valid. */
  lemma {:induction false} AddSampleWellFormed(values: seq<Group>, name: string, x: real, y: real)
    requires WellFormed(values)
    ensures WellFormed(AddSample(values, name, x, y))
  {
    var r := AddSample(values, name, x, y);
    if |values| > 0 && values[0].name == name {
      assert forall i :: 1 <= i < |r| ==> r[i] == values[i];
    } else if |values| > 0 {
      var rest := values[1..];
      AddSampleWellFormed(rest, name, x, y);
      AddSampleNames(rest, name, x, y);
      var rest' := AddSample(rest, name, x, y);
      assert r[1..] == rest';
      forall i, j | 0 <= i < j < |r|
        ensures r[i].name != r[j].name
      {
        if i == 0 {
          // r[j] is a group of rest', whose names are those of rest plus name.
          assert r[j] == rest'[j - 1];
          NameIn(rest', j - 1);
          if r[j].name != name {
            NameAt(rest, r[j].name);
            var k :| 0 <= k < |rest| && rest[k].name == r[j].name;
            assert values[k + 1].name == r[j].name;
          }
        }
      }
    }
  }

  /** A new channel's group goes last; a sample of a known channel keeps
      every group where it was. */
  lemma {:induction false} AddSampleOrder(values: seq<Group>, name: string, x: real, y: real)
    ensures name !in Names(values) ==> AddSample(values, name, x, y) == values + [Group(name, [x], [y])]
    ensures name in Names(values) ==>
      var r := AddSample(values, name, x, y);
      |r| == |values| && forall i :: 0 <= i < |r| ==> r[i].name == values[i].name
  {
    if |values| > 0 && values[0].name != name {
      AddSampleOrder(values[1..], name, x, y);
    }
  }

  // Reference definitions for the key order: the channel names of a track
  // in order of first occurrence.

  /** The group names, in dictionary order. */
  function GroupNames(values: seq<Group>): seq<string>
  {
    if |values| == 0 then [] else [values[0].name] + GroupNames(values[1..])
  }

  /** The tag names of one point, in tag order. */
  function TagNames(channels: seq<Channel>): seq<string>
  {
    if |channels| == 0 then [] else TagNames(channels[..|channels| - 1]) + [channels[|channels| - 1].name]
  }

  /** Every tag name of a track, point by point and in tag order. */
  function TagOrder(pts: seq<TrackPoint>): seq<string>
  {
    if |pts| == 0 then [] else TagOrder(pts[..|pts| - 1]) + TagNames(pts[|pts| - 1].raw.channels)
  }

  /** `seen` followed by the names of `names` not seen before, each once, in
      order of first occurrence. */
  function FirstSeen(seen: seq<string>, names: seq<string>): seq<string>
  {
    if |names| == 0 then seen
    else
      var s := FirstSeen(seen, names[..|names| - 1]);
      var n := names[|names| - 1];
      if n in s then s else s + [n]
  }

  /** The group names are the names with a group. */
  lemma {:induction false} GroupNamesAreNames(values: seq<Group>)
    ensures forall n :: n in GroupNames(values) <==> n in Names(values)
  {
    if |values| > 0 {
      GroupNamesAreNames(values[1..]);
    }
  }

  /** Group names of a concatenation. */
  lemma {:induction false} GroupNamesAppend(values: seq<Group>, g: Group)
    ensures GroupNames(values + [g]) == GroupNames(values) + [g.name]
  {
    if |values| > 0 {
      assert (values + [g])[1..] == values[1..] + [g];
      GroupNamesAppend(values[1..], g);
    }
  }

  /** Group names that agree index by index are equal. */
  lemma {:induction false} GroupNamesPointwise(a: seq<Group>, b: seq<Group>)
    requires |a| == |b|
    requires forall i :: 0 <= i < |a| ==> a[i].name == b[i].name
    ensures GroupNames(a) == GroupNames(b)
  {
    if |a| > 0 {
      GroupNamesPointwise(a[1..], b[1..]);
    }
  }

  /** A sample adds its channel to the key order if it is new. */
  lemma AddSampleNameOrder(values: seq<Group>, name: string, x: real, y: real)
    ensures GroupNames(AddSample(values, name, x, y)) == FirstSeen(GroupNames(values), [name])
  {
    AddSampleOrder(values, name, x, y);
    GroupNamesAreNames(values);
    assert FirstSeen(GroupNames(values), [name]) == FirstSeen(GroupNames(values), []) + (if name in GroupNames(values) then [] else [name]);
    if name in Names(values) {
      GroupNamesPointwise(AddSample(values, name, x, y), values);
    } else {
      GroupNamesAppend(values, Group(name, [x], [y]));
    }
  }

  /** Taking first occurrences of a concatenation is taking them of each part
      in turn. */
  lemma {:induction false} FirstSeenAppend(seen: seq<string>, a: seq<string>, b: seq<string>)
    ensures FirstSeen(seen, a + b) == FirstSeen(FirstSeen(seen, a), b)
  {
    if |b| > 0 {
      var b' := b[..|b| - 1];
      assert (a + b)[..|a + b| - 1] == a + b';
      FirstSeenAppend(seen, a, b');
    } else {
      assert a + b == a;
    }
  }

  /** A point's channels add their names to the key order in tag order, each
      new name once. */
  lemma {:induction false} AppendChannelsNameOrder(values: seq<Group>, channels: seq<Channel>, x: real)
    ensures GroupNames(AppendChannels(values, channels, x)) == FirstSeen(GroupNames(values), TagNames(channels))
  {
    if |channels| > 0 {
      var init := channels[..|channels| - 1];
      var c := channels[|channels| - 1];
      AppendChannelsNameOrder(values, init, x);
      AddSampleNameOrder(AppendChannels(values, init, x), c.name, x, c.value);
      FirstSeenAppend(GroupNames(values), TagNames(init), [c.name]);
    }
  }

  /** The dictionary's keys are the track's channel names in order of first
      occurrence, as a Python dictionary orders its keys by first insertion. */
  lemma {:induction false} CollectValuesKeyOrder(pts: seq<TrackPoint>)
    ensures GroupNames(CollectValues(pts)) == FirstSeen([], TagOrder(pts))
  {
    if |pts| > 0 {
      var init := pts[..|pts| - 1];
      var p := pts[|pts| - 1];
      CollectValuesKeyOrder(init);
      AppendChannelsNameOrder(CollectValues(init), p.raw.channels, p.nelapsed);
      FirstSeenAppend([], TagOrder(init), TagNames(p.raw.channels));
    }
  }

  /** The name of every element has a group. */
  lemma {:induction false} NameIn(values: seq<Group>, i: nat)
    requires i < |values|
    ensures values[i].name in Names(values)
  {
    if i > 0 {
      NameIn(values[1..], i - 1);
    }
  }

  /** A name with a group is the name of some element. */
  lemma {:induction false} NameAt(values: seq<Group>, name: string)
    requires name in Names(values)
    ensures exists i :: 0 <= i < |values| && values[i].name == name
  {
    if values[0].name != name {
      NameAt(values[1..], name);
      var i :| 0 <= i < |values[1..]| && values[1..][i].name == name;
      assert values[i + 1].name == name;
    }
  }

  /** A point's channels are appended to each channel's lists in tag order,
      and the names that gain a group are exactly the point's tag names. */
  lemma {:induction false} AppendChannelsAppends(values: seq<Group>, channels: seq<Channel>, x: real)
    requires WellFormed(values)
    ensures WellFormed(AppendChannels(values, channels, x))
    ensures forall n :: XsOf(AppendChannels(values, channels, x), n) == XsOf(values, n) + ChannelXs(channels, x, n)
    ensures forall n :: YsOf(AppendChannels(values, channels, x), n) == YsOf(values, n) + ChannelYs(channels, n)
  {
    if |channels| > 0 {
      var init := channels[..|channels| - 1];
      var c := channels[|channels| - 1];
      AppendChannelsAppends(values, init, x);
      AddSampleAppends(AppendChannels(values, init, x), c.name, x, c.value);
    }
  }

  /** The grouping of a whole track is a valid dictionary whose lists for each
      channel are exactly that channel's column: the time fractions and the
      readings of the points carrying it, in point order; a point without the
      channel contributes nothing to it. */
  lemma {:induction false} CollectValuesAreColumns(pts: seq<TrackPoint>)
    ensures WellFormed(CollectValues(pts))
    ensures forall n :: XsOf(CollectValues(pts), n) == ColumnXs(pts, n)
    ensures forall n :: YsOf(CollectValues(pts), n) == ColumnYs(pts, n)
  {
    if |pts| > 0 {
      var p := pts[|pts| - 1];
      CollectValuesAreColumns(pts[..|pts| - 1]);
      AppendChannelsAppends(CollectValues(pts[..|pts| - 1]), p.raw.channels, p.nelapsed);
    }
  }

  /** A point contributes as many abscissae as values to every channel. */
  lemma {:induction false} ChannelLengths(channels: seq<Channel>, x: real, name: string)
    ensures |ChannelXs(channels, x, name)| == |ChannelYs(channels, name)|
    ensures ChannelXs(channels, x, name) != [] <==> exists k :: 0 <= k < |channels| && channels[k].name == name
  {
    if |channels| > 0 {
      var init := channels[..|channels| - 1];
      ChannelLengths(init, x, name);
      if exists k :: 0 <= k < |init| && init[k].name == name {
        var k :| 0 <= k < |init| && init[k].name == name;
        assert channels[k].name == name;
      }
    }
  }

  /** Every channel's two columns are equally long, and a channel has samples
      exactly when some point carries it. */
  lemma {:induction false} ColumnLengths(pts: seq<TrackPoint>, name: string)
    ensures |ColumnXs(pts, name)| == |ColumnYs(pts, name)|
    ensures ColumnXs(pts, name) != [] <==> Carries(pts, name)
  {
    if |pts| > 0 {
      var init := pts[..|pts| - 1];
      var p := pts[|pts| - 1];
      ColumnLengths(init, name);
      ChannelLengths(p.raw.channels, p.nelapsed, name);
      if Carries(init, name) {
        var i, k :| 0 <= i < |init| && 0 <= k < |init[i].raw.channels| && init[i].raw.channels[k].name == name;
        assert pts[i] == init[i];
      }
      if Carries(pts, name) {
        var i, k :| 0 <= i < |pts| && 0 <= k < |pts[i].raw.channels| && pts[i].raw.channels[k].name == name;
        if i < |init| {
          assert init[i] == pts[i];
        }
      }
    }
  }

  /** The dictionary of a track has a key exactly for the channel names some
      point carries, and each key's two lists are equally long. */
  lemma GroupedNames(pts: seq<TrackPoint>, name: string)
    ensures name in Names(CollectValues(pts)) <==> Carries(pts, name)
    ensures |XsOf(CollectValues(pts), name)| == |YsOf(CollectValues(pts), name)|
  {
    CollectValuesAreColumns(pts);
    NamesHaveSamples(CollectValues(pts), name);
    ColumnLengths(pts, name);
  }
}
