/** `mms_data_time_clip`: clipping every dataset of a data dictionary, in
    place, to a time window.

    The bounds are turned into POSIX timestamps first (a datetime is read
    as UTC). Then each dataset in key order: its time axis is `dataset['x']`;
    a window with start after end, a window disjoint from the axis and a
    window covering it leave the dataset alone; otherwise two scans find the
    first sample at or after the start and the last one at or before the
    end, and every one-dimensional axis of the dataset is cut to that index
    range. Timestamps are integers: only comparisons are made. */
module TimeClip {
  import opened Base
  import opened Dates
  import Strptime
  import opened Dicts
  import opened LoadDatafile

  // ---------------------------------------------------------------------
  // The bounds
  // ---------------------------------------------------------------------

  /** What the caller passes as a bound: a datetime, a number taken as a
      timestamp already, a string to parse, or a value of another type. */
  datatype TimeArg = Moment(t: DateTime) | Epoch(n: int) | Written(s: string) | Unsupported

  const UnixEpoch: DateTime := DateTime(1970, 1, 1, 0, 0, 0)

  /** `t.replace(tzinfo=timezone.utc).timestamp()`: seconds since
      1970-01-01T00:00:00. */
  function PosixTime(t: DateTime): int
    requires 1 <= t.month <= 12
  {
    86400 * (DayNumber(t) - DayNumber(UnixEpoch)) + TimeOfDay(t)
  }

  /** Timestamps order datetimes as Python compares them, so clipping by
      timestamp is clipping by datetime. */
  lemma PosixOrder(a: DateTime, b: DateTime)
    requires Valid(a) && Valid(b)
    ensures Before(a, b) <==> PosixTime(a) < PosixTime(b)
    ensures a == b <==> PosixTime(a) == PosixTime(b)
  {
    OrderIsLexicographic(a, b);
    OrderIsLexicographic(b, a);
    DayNumberOrder(a, b);
  }

  /** A bound as a timestamp: a datetime converted, a number as it is, a
      string parsed in the ISO layouts (a parse failure is a ValueError),
      anything else a TypeError. */
  function Timestamp(a: TimeArg): (r: Result<int>)
    requires a.Moment? ==> Valid(a.t)
    ensures a.Unsupported? ==> r == Err(TypeError)
    ensures a.Moment? ==> r == Ok(PosixTime(a.t))
    ensures a.Epoch? ==> r == Ok(a.n)
    ensures a.Written? ==> (r.Ok? <==> ParseBound(a.s).Some?)
  {
    match a
    case Moment(t) => Ok(PosixTime(t))
    case Epoch(n) => Ok(n)
    case Written(s) =>
      var t := ParseBound(s);
      if t.Some? then Ok(PosixTime(t.value)) else Err(ValueError)
    case Unsupported => Err(TypeError)
  }

  /** The date and date-time layouts the model reads. */
  function ParseBound(s: string): (r: Option<DateTime>)
    ensures r.Some? ==> Valid(r.value)
  {
    var a := Strptime.ParseIso(s);
    if a.Some? then a else Strptime.ParseIsoDate(s)
  }

  // ---------------------------------------------------------------------
  // The index scans
  // ---------------------------------------------------------------------

  /** Where the forward scan stops: the first sample at or after lo. It
      exists when the last sample is. */
  function FirstAtOrAfter(ts: seq<int>, lo: int): (i: nat)
    requires |ts| > 0 && lo <= ts[|ts| - 1]
    ensures i < |ts| && lo <= ts[i]
    ensures forall k :: 0 <= k < i ==> ts[k] < lo
  {
    if lo <= ts[0] then 0 else 1 + FirstAtOrAfter(ts[1..], lo)
  }

  /** Where the backward scan stops: the last sample at or before hi. It
      exists when the first sample is. */
  function LastAtOrBefore(ts: seq<int>, hi: int): (i: nat)
    requires |ts| > 0 && ts[0] <= hi
    ensures i < |ts| && ts[i] <= hi
    ensures forall k :: i < k < |ts| ==> hi < ts[k]
  {
    if ts[|ts| - 1] <= hi then |ts| - 1 else LastAtOrBefore(ts[..|ts| - 1], hi)
  }

  /** Python's `xs[lo:hi]` for non-negative bounds: both clamped to the
      length, empty when they cross. */
  function Slice(xs: seq<int>, lo: nat, hi: nat): (r: seq<int>)
    ensures lo <= hi <= |xs| ==> r == xs[lo..hi]
    ensures hi <= lo ==> r == []
  {
    var a := if lo < |xs| then lo else |xs|;
    var b := if hi < |xs| then hi else |xs|;
    if a < b then xs[a..b] else []
  }

  // ---------------------------------------------------------------------
  // One dataset
  // ---------------------------------------------------------------------

  /** One axis cut to [lo, hi): a list or array with at least one element
      is sliced, anything else kept. */
  function ClipAxis(a: Axis, lo: nat, hi: nat): Axis
  {
    if a.Elems? && |a.xs| >= 1 then Elems(Slice(a.xs, lo, hi)) else a
  }

  /** Every axis of a dataset cut to [lo, hi), in place: the keys keep
      their order. */
  function ClipAxes(d: Dataset, lo: nat, hi: nat): (r: Dataset)
    ensures r.keys == d.keys && |r.vals| == |d.vals|
  {
    RawDict(d.keys, seq(|d.vals|, k requires 0 <= k < |d.vals| => ClipAxis(d.vals[k], lo, hi)))
  }

  /** Cutting the axes cuts each one, looked up by name. */
  lemma ClipAxesItems(d: Dataset, lo: nat, hi: nat, name: string)
    requires name in d.items()
    ensures name in ClipAxes(d, lo, hi).items()
    ensures ClipAxes(d, lo, hi).items()[name] == ClipAxis(d.items()[name], lo, hi)
  {
    Listed(d);
    var i := IndexOf(d.keys, name);
    var r := ClipAxes(d, lo, hi);
    assert ValueAt(d, i) == d.vals[i];
    assert ValueAt(r, i) == r.vals[i];
  }

  /** What the source checks before it cuts, in its order. */
  datatype Case = NoTimeAxis | Unsized | Reversed | NoSamples | Disjoint | Covering | Cut

  /** The branch a dataset takes for the window [lo, hi]: the time axis is
      looked up and measured before the window is compared with it. */
  function CaseOf(d: Dataset, lo: int, hi: int): Case
  {
    if "x" !in d.items() then NoTimeAxis
    else if d.items()["x"].Scalar? then Unsized
    else
      var ts := d.items()["x"].xs;
      if lo > hi then Reversed
      else if |ts| == 0 then NoSamples
      else if lo > ts[|ts| - 1] || hi < ts[0] then Disjoint
      else if lo <= ts[0] && hi >= ts[|ts| - 1] then Covering
      else Cut
  }

  /** The time axis of a dataset that has one. */
  function TimeAxis(d: Dataset): seq<int>
    requires "x" in d.items() && d.items()["x"].Elems?
  {
    d.items()["x"].xs
  }

  /** The index range [first, last + 1) the scans find. */
  function Window(ts: seq<int>, lo: int, hi: int): (w: (nat, nat))
    requires |ts| > 0 && lo <= ts[|ts| - 1] && ts[0] <= hi
  {
    (FirstAtOrAfter(ts, lo), LastAtOrBefore(ts, hi) + 1)
  }

  /** One iteration of the dataset loop: a missing 'x' is a KeyError,
      `len` of a scalar a TypeError, an empty axis an IndexError (the last
      sample is looked up); the three skipping cases keep the dataset; a
      cut slices every axis to the scanned range. */
  function ClipDataset(d: Dataset, lo: int, hi: int): (r: Result<Dataset>)
    ensures r.Ok? ==> r.value.keys == d.keys
  {
    match CaseOf(d, lo, hi)
    case NoTimeAxis => Err(KeyError)
    case Unsized => Err(TypeError)
    case NoSamples => Err(IndexError)
    case Cut =>
      var w := Window(TimeAxis(d), lo, hi);
      Ok(ClipAxes(d, w.0, w.1))
    case _ => Ok(d)
  }

  /** A window that starts after it ends, is disjoint from the time axis or
      covers it leaves the dataset as it was; a dataset without a sized
      time axis fails whatever the window. */
  lemma KeptWhole(d: Dataset, lo: int, hi: int)
    ensures "x" !in d.items() ==> ClipDataset(d, lo, hi) == Err(KeyError)
    ensures "x" in d.items() && d.items()["x"].Scalar? ==> ClipDataset(d, lo, hi) == Err(TypeError)
    ensures "x" in d.items() && d.items()["x"].Elems? ==>
      (lo > hi ==> ClipDataset(d, lo, hi) == Ok(d)) &&
      (var ts := TimeAxis(d);
       lo <= hi && |ts| > 0 && (lo > ts[|ts| - 1] || hi < ts[0]) ==> ClipDataset(d, lo, hi) == Ok(d)) &&
      (var ts := TimeAxis(d);
       lo <= hi && |ts| > 0 && lo <= ts[0] && ts[|ts| - 1] <= hi ==> ClipDataset(d, lo, hi) == Ok(d))
  {
  }

  /** The scans meet the window: every sample before `first` is earlier
      than lo, every sample from `end` on is later than hi, and the range
      [first, end) lies within the axis. On an unsorted axis it can be
      empty. */
  lemma ScanRange(ts: seq<int>, lo: int, hi: int)
    requires |ts| > 0 && lo <= hi && lo <= ts[|ts| - 1] && ts[0] <= hi
    ensures var w := Window(ts, lo, hi);
      w.0 <= w.1 <= |ts| && w.0 < |ts| && 0 < w.1 &&
      lo <= ts[w.0] && ts[w.1 - 1] <= hi &&
      (forall k :: 0 <= k < w.0 ==> ts[k] < lo) &&
      (forall k :: w.1 <= k < |ts| ==> hi < ts[k])
  {
    var last := LastAtOrBefore(ts, hi);
    assert last + 1 < |ts| ==> ts[last + 1] > hi;
  }

  /** A cut cuts every axis, the time axis too, to the one range the scans
      find. */
  lemma CutAxes(d: Dataset, lo: int, hi: int, name: string)
    requires CaseOf(d, lo, hi) == Cut && name in d.items()
    ensures var w := Window(TimeAxis(d), lo, hi);
      ClipDataset(d, lo, hi).Ok? &&
      name in ClipDataset(d, lo, hi).value.items() &&
      ClipDataset(d, lo, hi).value.items()[name] == ClipAxis(d.items()[name], w.0, w.1)
  {
    var w := Window(TimeAxis(d), lo, hi);
    ClipAxesItems(d, w.0, w.1, name);
  }

  // ---------------------------------------------------------------------
  // On a sorted time axis
  // ---------------------------------------------------------------------

  predicate Sorted(ts: seq<int>)
  {
    forall i, j :: 0 <= i < j < |ts| ==> ts[i] <= ts[j]
  }

  /** The samples that lie in [lo, hi], in order. */
  function Within(ts: seq<int>, lo: int, hi: int): seq<int>
  {
    if |ts| == 0 then []
    else Within(ts[..|ts| - 1], lo, hi) + (if lo <= ts[|ts| - 1] <= hi then [ts[|ts| - 1]] else [])
  }

  lemma {:induction false} WithinAppend(a: seq<int>, b: seq<int>, lo: int, hi: int)
    ensures Within(a + b, lo, hi) == Within(a, lo, hi) + Within(b, lo, hi)
    decreases |b|
  {
    if |b| > 0 {
      var b' := b[..|b| - 1];
      WithinAppend(a, b', lo, hi);
      assert (a + b)[..|a + b| - 1] == a + b';
    } else {
      assert a + b == a;
    }
  }

  lemma {:induction false} WithinNone(ts: seq<int>, lo: int, hi: int)
    requires forall k :: 0 <= k < |ts| ==> ts[k] < lo || hi < ts[k]
    ensures Within(ts, lo, hi) == []
    decreases |ts|
  {
    if |ts| > 0 {
      WithinNone(ts[..|ts| - 1], lo, hi);
    }
  }

  lemma {:induction false} WithinAll(ts: seq<int>, lo: int, hi: int)
    requires forall k :: 0 <= k < |ts| ==> lo <= ts[k] <= hi
    ensures Within(ts, lo, hi) == ts
    decreases |ts|
  {
    if |ts| > 0 {
      WithinAll(ts[..|ts| - 1], lo, hi);
    }
  }

  /** Samples before i earlier than the window, samples in [i, j) inside
      it and samples from j on later: the window holds [i, j). */
  lemma WithinSplit(ts: seq<int>, lo: int, hi: int, i: nat, j: nat)
    requires i <= j <= |ts|
    requires forall k :: 0 <= k < i ==> ts[k] < lo
    requires forall k :: i <= k < j ==> lo <= ts[k] <= hi
    requires forall k :: j <= k < |ts| ==> hi < ts[k]
    ensures Within(ts, lo, hi) == ts[i..j]
  {
    var front, mid, back := ts[0..i], ts[i..j], ts[j..|ts|];
    ThreeParts(ts, i, j);
    NoneIn(ts, lo, hi, 0, i);
    AllIn(ts, lo, hi, i, j);
    NoneIn(ts, lo, hi, j, |ts|);
    WithinAppend(front + mid, back, lo, hi);
    WithinAppend(front, mid, lo, hi);
  }

  lemma ThreeParts(ts: seq<int>, i: nat, j: nat)
    requires i <= j <= |ts|
    ensures ts == ts[0..i] + ts[i..j] + ts[j..|ts|]
  {
  }

  /** No sample of ts[a..b] in the window: the window holds none of them. */
  lemma NoneIn(ts: seq<int>, lo: int, hi: int, a: nat, b: nat)
    requires a <= b <= |ts|
    requires forall k :: a <= k < b ==> ts[k] < lo || hi < ts[k]
    ensures Within(ts[a..b], lo, hi) == []
  {
    var s := ts[a..b];
    forall k | 0 <= k < |s| ensures s[k] < lo || hi < s[k] {
      assert s[k] == ts[a + k];
    }
    WithinNone(s, lo, hi);
  }

  /** Every sample of ts[a..b] in the window: the window holds them all. */
  lemma AllIn(ts: seq<int>, lo: int, hi: int, a: nat, b: nat)
    requires a <= b <= |ts|
    requires forall k :: a <= k < b ==> lo <= ts[k] <= hi
    ensures Within(ts[a..b], lo, hi) == ts[a..b]
  {
    var s := ts[a..b];
    forall k | 0 <= k < |s| ensures lo <= s[k] <= hi {
      assert s[k] == ts[a + k];
    }
    WithinAll(s, lo, hi);
  }

  /** On a sorted axis the scanned range holds exactly the samples in
      [lo, hi]. */
  lemma SortedScan(ts: seq<int>, lo: int, hi: int)
    requires |ts| > 0 && lo <= hi && lo <= ts[|ts| - 1] && ts[0] <= hi && Sorted(ts)
    ensures Window(ts, lo, hi).0 <= Window(ts, lo, hi).1 <= |ts|
    ensures ts[Window(ts, lo, hi).0..Window(ts, lo, hi).1] == Within(ts, lo, hi)
  {
    var w := Window(ts, lo, hi);
    ScanRange(ts, lo, hi);
    forall k | w.0 <= k < w.1 ensures lo <= ts[k] <= hi {
      assert ts[w.0] <= ts[k] <= ts[w.1 - 1];
    }
    WithinSplit(ts, lo, hi, w.0, w.1);
  }

  /** On a sorted time axis a cut keeps exactly the samples in [lo, hi]. */
  lemma SortedCut(d: Dataset, lo: int, hi: int)
    requires CaseOf(d, lo, hi) == Cut && Sorted(TimeAxis(d))
    ensures ClipDataset(d, lo, hi).Ok? && "x" in ClipDataset(d, lo, hi).value.items()
    ensures ClipDataset(d, lo, hi).value.items()["x"] == Elems(Within(TimeAxis(d), lo, hi))
  {
    SortedScan(TimeAxis(d), lo, hi);
    CutAxes(d, lo, hi, "x");
  }

  /** On a sorted time axis a covering window keeps every sample, which are
      the samples in the window; a disjoint one keeps every sample too,
      though none of them is in the window. */
  lemma SortedKept(d: Dataset, lo: int, hi: int)
    requires CaseOf(d, lo, hi) in {Covering, Disjoint} && Sorted(TimeAxis(d))
    ensures ClipDataset(d, lo, hi) == Ok(d)
    ensures CaseOf(d, lo, hi) == Covering ==> Within(TimeAxis(d), lo, hi) == TimeAxis(d)
    ensures CaseOf(d, lo, hi) == Disjoint ==> Within(TimeAxis(d), lo, hi) == [] != TimeAxis(d)
  {
    var ts := TimeAxis(d);
    if CaseOf(d, lo, hi) == Covering {
      SortedCovered(ts, lo, hi);
    } else {
      SortedDisjoint(ts, lo, hi);
    }
  }

  /** A window covering both ends of a sorted axis holds every sample. */
  lemma SortedCovered(ts: seq<int>, lo: int, hi: int)
    requires Sorted(ts) && |ts| > 0 && lo <= ts[0] && ts[|ts| - 1] <= hi
    ensures Within(ts, lo, hi) == ts
  {
    forall k | 0 <= k < |ts| ensures lo <= ts[k] <= hi {
      assert ts[0] <= ts[k] <= ts[|ts| - 1];
    }
    WithinAll(ts, lo, hi);
  }

  /** A window past either end of a sorted axis holds no sample. */
  lemma SortedDisjoint(ts: seq<int>, lo: int, hi: int)
    requires Sorted(ts) && |ts| > 0 && (lo > ts[|ts| - 1] || hi < ts[0])
    ensures Within(ts, lo, hi) == []
  {
    forall k | 0 <= k < |ts| ensures ts[k] < lo || hi < ts[k] {
      assert ts[0] <= ts[k] <= ts[|ts| - 1];
    }
    WithinNone(ts, lo, hi);
  }

  // ---------------------------------------------------------------------
  // The whole dictionary
  // ---------------------------------------------------------------------

  /** The first dataset, from position i on, whose clipping fails, or the
      number of datasets when none does. */
  function FirstFailure(sets: Dict<Dataset>, lo: int, hi: int, i: nat): (j: nat)
    requires i <= |sets.vals|
    ensures i <= j <= |sets.vals|
    ensures forall k :: i <= k < j ==> ClipDataset(sets.vals[k], lo, hi).Ok?
    ensures j < |sets.vals| ==> ClipDataset(sets.vals[j], lo, hi).Err?
    decreases |sets.vals| - i
  {
    if i == |sets.vals| || ClipDataset(sets.vals[i], lo, hi).Err? then i
    else FirstFailure(sets, lo, hi, i + 1)
  }

  /** The dictionary once its first n datasets have been clipped in place. */
  function ClippedUpTo(sets: Dict<Dataset>, lo: int, hi: int, n: nat): (r: Dict<Dataset>)
    requires n <= |sets.vals|
    requires forall k :: 0 <= k < n ==> ClipDataset(sets.vals[k], lo, hi).Ok?
    ensures r.keys == sets.keys && |r.vals| == |sets.vals|
  {
    var vals: seq<Dataset> := seq(|sets.vals|, k requires 0 <= k < |sets.vals| =>
      if k < n then ClipDataset(sets.vals[k], lo, hi).value else sets.vals[k]);
    RawDict(sets.keys, vals)
  }

  /** What clipping to [lo, hi] raises: the error of the first dataset
      that fails, if one does. */
  function ClipStatus(sets: Dict<Dataset>, lo: int, hi: int): Result<()>
  {
    var j := FirstFailure(sets, lo, hi, 0);
    if j < |sets.vals| then Err(ClipDataset(sets.vals[j], lo, hi).error) else Ok(())
  }

  /** The dictionary after clipping to [lo, hi]: the datasets before the
      first failure clipped, the others as they were. */
  function ClipResult(sets: Dict<Dataset>, lo: int, hi: int): Dict<Dataset>
  {
    ClippedUpTo(sets, lo, hi, FirstFailure(sets, lo, hi, 0))
  }

  /** `mms_data_time_clip(data_dict, start_time, end_time)`: a bound that
      cannot be converted raises before anything is clipped. */
  function TimeClipStatus(sets: Dict<Dataset>, startTime: TimeArg, endTime: TimeArg): Result<()>
    requires startTime.Moment? ==> Valid(startTime.t)
    requires endTime.Moment? ==> Valid(endTime.t)
  {
    var lo := Timestamp(startTime);
    var hi := Timestamp(endTime);
    if lo.Err? then Err(lo.error)
    else if hi.Err? then Err(hi.error)
    else ClipStatus(sets, lo.value, hi.value)
  }

  /** The data dictionary after `mms_data_time_clip`. */
  function TimeClipResult(sets: Dict<Dataset>, startTime: TimeArg, endTime: TimeArg): Dict<Dataset>
    requires startTime.Moment? ==> Valid(startTime.t)
    requires endTime.Moment? ==> Valid(endTime.t)
  {
    var lo := Timestamp(startTime);
    var hi := Timestamp(endTime);
    if lo.Err? || hi.Err? then sets else ClipResult(sets, lo.value, hi.value)
  }

  /** Clipping keeps the dataset names in their order and touches each
      dataset on its own: one before the first failure is clipped, one
      from it on is left as it was. */
  lemma ClipEntry(sets: Dict<Dataset>, lo: int, hi: int, i: nat)
    requires i < |sets.keys|
    ensures ClipResult(sets, lo, hi).keys == sets.keys
    ensures sets.keys[i] in sets.items() && sets.items()[sets.keys[i]] == sets.vals[i]
    ensures sets.keys[i] in ClipResult(sets, lo, hi).items()
    ensures ClipResult(sets, lo, hi).items()[sets.keys[i]] ==
      if i < FirstFailure(sets, lo, hi, 0) then ClipDataset(sets.vals[i], lo, hi).value else sets.vals[i]
  {
    var r := ClipResult(sets, lo, hi);
    assert ValueAt(sets, i) == sets.vals[i];
    assert ValueAt(r, i) == r.vals[i];
  }

  /** Clipping succeeds exactly when every dataset clips, and then every
      dataset is clipped; otherwise it raises the first failure's error. */
  lemma ClipStatusIs(sets: Dict<Dataset>, lo: int, hi: int)
    ensures ClipStatus(sets, lo, hi).Ok? <==>
      forall k :: 0 <= k < |sets.vals| ==> ClipDataset(sets.vals[k], lo, hi).Ok?
    ensures ClipStatus(sets, lo, hi).Err? ==>
      exists k :: 0 <= k < |sets.vals| && ClipDataset(sets.vals[k], lo, hi) == Err(ClipStatus(sets, lo, hi).error)
  {
  }

  /** A window that starts after it ends changes nothing; it still raises
      for the first dataset without a sized time axis. */
  lemma ReversedWindow(sets: Dict<Dataset>, lo: int, hi: int)
    requires lo > hi
    ensures ClipResult(sets, lo, hi) == sets
    ensures ClipStatus(sets, lo, hi).Ok? <==> forall k :: 0 <= k < |sets.vals| ==>
      "x" in sets.vals[k].items() && sets.vals[k].items()["x"].Elems?
  {
    var r := ClipResult(sets, lo, hi);
    forall k | 0 <= k < |sets.vals| ensures r.vals[k] == sets.vals[k] {
      KeptWhole(sets.vals[k], lo, hi);
    }
    assert r.vals == sets.vals;
    forall k | 0 <= k < |sets.vals|
      ensures ClipDataset(sets.vals[k], lo, hi).Ok? <==>
        "x" in sets.vals[k].items() && sets.vals[k].items()["x"].Elems?
    {
      KeptWhole(sets.vals[k], lo, hi);
    }
  }

  /** One more dataset clipped in place. */
  lemma ClippedStep(sets: Dict<Dataset>, lo: int, hi: int, i: nat)
    requires i < |sets.vals|
    requires forall k :: 0 <= k <= i ==> ClipDataset(sets.vals[k], lo, hi).Ok?
    ensures Put(ClippedUpTo(sets, lo, hi, i), sets.keys[i], ClipDataset(sets.vals[i], lo, hi).value) ==
      ClippedUpTo(sets, lo, hi, i + 1)
  {
    var c := ClippedUpTo(sets, lo, hi, i);
    PutAt(c, i, ClipDataset(sets.vals[i], lo, hi).value);
    assert c.vals[i := ClipDataset(sets.vals[i], lo, hi).value] == ClippedUpTo(sets, lo, hi, i + 1).vals;
  }

  // ---------------------------------------------------------------------
  // The procedure
  // ---------------------------------------------------------------------

  /** The two index scans: forward from the first sample while it is
      earlier than lo, backward from the last while it is later than hi;
      the end index is one past where the backward scan stops. */
  method ScanWindow(ts: seq<int>, lo: int, hi: int) returns (first: nat, end: nat)
    requires |ts| > 0 && lo <= ts[|ts| - 1] && ts[0] <= hi
    ensures first == Window(ts, lo, hi).0
    ensures end == Window(ts, lo, hi).1
  {
    first := 0;
    while ts[first] < lo
      invariant first < |ts|
      invariant forall k :: 0 <= k < first ==> ts[k] < lo
      decreases |ts| - first
    {
      first := first + 1;
    }
    var last := |ts| - 1;
    while ts[last] > hi
      invariant 0 <= last < |ts|
      invariant forall k :: last < k < |ts| ==> hi < ts[k]
      decreases last
    {
      last := last - 1;
    }
    end := last + 1;
  }

  /** The axis loop: each list or array axis with an element is replaced by
      its slice, in place. */
  method CutDataset(d: Dataset, lo: nat, hi: nat) returns (r: Dataset)
    ensures r == ClipAxes(d, lo, hi)
  {
    r := d;
    for i := 0 to |d.keys|
      invariant r.keys == d.keys && |r.vals| == |d.vals|
      invariant forall k :: 0 <= k < i ==> r.vals[k] == ClipAxis(d.vals[k], lo, hi)
      invariant forall k :: i <= k < |d.vals| ==> r.vals[k] == d.vals[k]
    {
      var a := ValueAt(r, i);
      if a.Elems? && |a.xs| >= 1 {
        PutAt(r, i, Elems(Slice(a.xs, lo, hi)));
        r := Put(r, r.keys[i], Elems(Slice(a.xs, lo, hi)));
      }
    }
    assert r.vals == ClipAxes(d, lo, hi).vals;
  }

  /** One iteration of the dataset loop. */
  method ClipOne(d: Dataset, lo: int, hi: int) returns (r: Result<Dataset>)
    ensures r == ClipDataset(d, lo, hi)
  {
    if "x" !in d.items() {
      return Err(KeyError);
    }
    var t := d.items()["x"];
    if t.Scalar? {
      return Err(TypeError);
    }
    var ts := t.xs;
    if lo > hi {
      return Ok(d);
    }
    if |ts| == 0 {
      return Err(IndexError);
    }
    if lo > ts[|ts| - 1] || hi < ts[0] {
      return Ok(d);
    }
    if lo <= ts[0] && hi >= ts[|ts| - 1] {
      return Ok(d);
    }
    var first, end := ScanWindow(ts, lo, hi);
    var cut := CutDataset(d, first, end);
    return Ok(cut);
  }

  /** The data dictionary, whose datasets are clipped in place. */
  class DataDict {
    var sets: Dict<Dataset>

    constructor (sets: Dict<Dataset>)
      ensures this.sets == sets
    {
      this.sets := sets;
    }

    /** `mms_data_time_clip(data_dict, start_time, end_time)`. */
    method TimeClip(startTime: TimeArg, endTime: TimeArg) returns (r: Result<()>)
      requires startTime.Moment? ==> Valid(startTime.t)
      requires endTime.Moment? ==> Valid(endTime.t)
      modifies this
      ensures r == TimeClipStatus(old(sets), startTime, endTime)
      ensures sets == TimeClipResult(old(sets), startTime, endTime)
    {
      var lo := Timestamp(startTime);
      if lo.Err? {
        return Err(lo.error);
      }
      var hi := Timestamp(endTime);
      if hi.Err? {
        return Err(hi.error);
      }
      r := ClipAll(lo.value, hi.value);
    }

    /** The dataset loop on timestamps: each dataset, in key order, is
        clipped and stored back; the first failure stops the loop with the
        datasets before it already clipped. */
    method ClipAll(lo: int, hi: int) returns (r: Result<()>)
      modifies this
      ensures r == ClipStatus(old(sets), lo, hi)
      ensures sets == ClipResult(old(sets), lo, hi)
    {
      ghost var sets0 := sets;
      for i := 0 to |sets.keys|
        invariant forall k :: 0 <= k < i ==> ClipDataset(sets0.vals[k], lo, hi).Ok?
        invariant sets == ClippedUpTo(sets0, lo, hi, i)
      {
        var d := ClipOne(ValueAt(sets, i), lo, hi);
        if d.Err? {
          assert FirstFailure(sets0, lo, hi, 0) == i;
          return Err(d.error);
        }
        ClippedStep(sets0, lo, hi, i);
        sets := Put(sets, sets.keys[i], d.value);
      }
      assert FirstFailure(sets0, lo, hi, 0) == |sets0.vals|;
      r := Ok(());
    }
  }
}
