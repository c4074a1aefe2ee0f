/** `MMS_SDC_API_CLIENT`: the selector of the MMS Science Data Center client.

    Its fields say which files are wanted (spacecraft, instrument, data rate
    mode, level, optional descriptor, version, file names, time interval).
    Assigning some of them runs hooks that keep the others consistent; the
    selector turns into an SDC query, remote names into local paths, and a
    remote listing into the files already on disk and those to download.
    The network, the disk and the clock are inputs: the text of a file-name
    listing, the set of paths present, a per-file transfer outcome and the
    current time. */
module SdcClient {
  import opened Base
  import opened Strings
  import opened Dates
  import Strptime
  import opened MmsUtils

  // ---------------------------------------------------------------------
  // Date attributes
  // ---------------------------------------------------------------------

  /** What `_start_date` or `_end_date` holds: None, a datetime, or a
      string the setter could not read. As an argument of the setter,
      Text is any string. */
  datatype DateValue = NoDate | Moment(t: DateTime) | Text(s: string)

  /** A datetime held by a date attribute is a real calendar instant. */
  predicate DateOk(v: DateValue)
  {
    v.Moment? ==> Valid(v.t)
  }

  /** The start_date / end_date setter: a string is read as
      `%Y-%m-%dT%H:%M:%S` from its first 19 characters, else as `%Y-%m-%d`;
      when neither reads, the string itself is stored (the ValueError the
      setter builds is never raised). Other values are stored unchanged. */
  function StoredDate(v: DateValue): (r: DateValue)
    requires DateOk(v)
    ensures DateOk(r)
    ensures !v.Text? ==> r == v
    ensures r.Text? ==> r == v
  {
    match v
    case Text(s) =>
      var a := Strptime.ParseIso(Slice(s, 0, 19));
      if a.Some? then Moment(a.value)
      else
        var b := Strptime.ParseIsoDate(s);
        if b.Some? then Moment(b.value) else Text(s)
    case _ => v
  }

  /** The start_date / end_date getter: `isoformat()` of a datetime, the
      stored value otherwise. */
  function DateText(v: DateValue): Option<string>
  {
    match v
    case NoDate => None
    case Moment(t) => Some(IsoFormat(t))
    case Text(s) => Some(s)
  }

  /** The setter reads both documented layouts: an ISO datetime followed by
      anything (fractions, a zone), and an ISO date, which means midnight. */
  lemma SetterReads(t: DateTime, rest: string)
    requires Valid(t)
    ensures StoredDate(Text(IsoFormat(t) + rest)) == Moment(t)
    ensures StoredDate(Text(IsoDate(t))) == Moment(DateOf(t))
  {
    var s := IsoFormat(t) + rest;
    assert |IsoFormat(t)| == 19;
    assert Slice(s, 0, 19) == IsoFormat(t);
    Strptime.IsoRoundTrip(t);
    Strptime.IsoDateRoundTrip(t);
    assert |IsoDate(t)| == 10;
    assert Slice(IsoDate(t), 0, 19) == IsoDate(t);
  }

  /** A text of at most 19 characters that reads as an ISO date and time
      is stored as that datetime. */
  lemma StoresIso(s: string)
    requires |s| <= 19 && Strptime.ParseIso(s).Some?
    ensures StoredDate(Text(s)) == Moment(Strptime.ParseIso(s).value)
  {
    SliceWhole(s, 19);
  }

  /** A text that does not read as an ISO date and time but reads as an ISO
      date is stored as that date at midnight. */
  lemma StoresIsoDate(s: string)
    requires Strptime.ParseIso(s).None? && Strptime.ParseIsoDate(s).Some?
    ensures StoredDate(Text(s)) == Moment(Strptime.ParseIsoDate(s).value)
  {
    SliceWhole(s, 19);
  }

  /** The setter also reads an ISO date and time whose fields are written
      without their leading zero. */
  lemma SetterReadsNarrowedTime(t: DateTime, short: seq<bool>)
    requires Valid(t) && |short| == |Strptime.IsoLayout|
    ensures StoredDate(Text(Strptime.Render(Strptime.IsoLayout, 0, Strptime.IsoValues(t), short))) == Moment(t)
  {
    Strptime.IsoReadsNarrowed(t, short);
    StoresIso(Strptime.Render(Strptime.IsoLayout, 0, Strptime.IsoValues(t), short));
  }

  /** And an ISO date whose month or day is written with one digit, which
      means midnight. */
  lemma SetterReadsNarrowedDate(t: DateTime, short: seq<bool>)
    requires Valid(t) && |short| == |Strptime.IsoDateLayout|
    ensures StoredDate(Text(Strptime.Render(Strptime.IsoDateLayout, 0, Strptime.IsoDateValues(t), short))) ==
      Moment(DateOf(t))
  {
    var b := Strptime.Render(Strptime.IsoDateLayout, 0, Strptime.IsoDateValues(t), short);
    Strptime.IsoDateReadsNarrowed(t, short);
    StoresIsoDate(b);
  }

  /** Setting start_date to '2020-1-5' stores midnight of 5 January 2020. */
  lemma SetterReadsShortDate()
    ensures StoredDate(Text("2020-1-5")) == Moment(DateTime(2020, 1, 5, 0, 0, 0))
  {
    Strptime.NarrowIsoDate();
    StoresIsoDate("2020-1-5");
  }

  /** What filter_time makes of a stored date it receives through the
      getter: the datetime itself, TypeError for None, and ValueError for a
      string the setter could not read. Storing the getter's text again
      changes nothing. */
  lemma DateTextReadBack(v: DateValue)
    requires DateOk(v)
    ensures var x := StoredDate(v);
      ArgTime(DateText(x)) ==
        (match x
         case NoDate => Err(TypeError)
         case Moment(t) => Ok(t)
         case Text(_) => Err(ValueError))
    ensures var x := StoredDate(v);
      DateText(x).Some? ==> StoredDate(Text(DateText(x).value)) == x
  {
    var x := StoredDate(v);
    match x
    case NoDate =>
    case Moment(t) =>
      Strptime.IsoRoundTrip(t);
      SetterReads(t, "");
      assert IsoFormat(t) + "" == IsoFormat(t);
    case Text(s) =>
      assert v == Text(s);
      assert Strptime.ParseIso(Slice(s, 0, 19)).None?;
      if |s| <= 19 {
        assert Slice(s, 0, 19) == s;
      }
  }

  // ---------------------------------------------------------------------
  // site and data_type
  // ---------------------------------------------------------------------

  /** The site setter: team, team_site, sitl and private select the SITL
      site, public and public_site the public one, anything else is a
      ValueError. */
  function SiteFor(v: Arg): (r: Result<string>)
    ensures r.Ok? ==> r.value in {"sitl", "public"}
  {
    if v.Str? && v.s in {"team", "team_site", "sitl", "private"} then Ok("sitl")
    else if v.Str? && v.s in {"public", "public_site"} then Ok("public")
    else Err(ValueError)
  }

  /** The site the level hook selects: public for None, 'l2' and 'l3'
      (assigned as 'public'), SITL for any other level (assigned as
      'private'). */
  function LevelSite(level: Arg): (site: string)
    ensures Ok(site) == SiteFor(Str(if level in {Null, Str("l2"), Str("l3")} then "public" else "private"))
  {
    if level in {Null, Str("l2"), Str("l3")} then "public" else "sitl"
  }

  /** Assigning the site the setter produced selects the same site again. */
  lemma SiteIdempotent(v: Arg)
    requires SiteFor(v).Ok?
    ensures SiteFor(Str(SiteFor(v).value)) == SiteFor(v)
  {
  }

  /** The site setter succeeds exactly on its six spellings, and fails with
      ValueError on everything else, a list or None included. */
  lemma SiteAccepts(v: Arg)
    ensures SiteFor(v).Ok? <==> v.Str? && v.s in {"team", "team_site", "sitl", "private", "public", "public_site"}
    ensures SiteFor(v).Err? ==> SiteFor(v).error == ValueError
    ensures SiteFor(v) == Ok("public") <==> v in {Str("public"), Str("public_site")}
  {
  }

  const DataTypes: set<string> := {"ancillary", "hk", "science"}

  /** The data_type hook: one of ancillary, hk, science is accepted; another
      string is a ValueError; for a non-string the hook's message
      concatenation fails first, with TypeError. */
  function DataTypeFor(v: Arg): (r: Result<string>)
    ensures r.Ok? <==> v.Str? && v.s in DataTypes
    ensures r.Ok? ==> r.value == v.s
    ensures r.Err? ==> r.error == (if v.Str? then ValueError else TypeError)
  {
    if v.Str? && v.s in DataTypes then Ok(v.s)
    else if v.Str? then Err(ValueError)
    else Err(TypeError)
  }

  // ---------------------------------------------------------------------
  // The selector's state and the SDC query
  // ---------------------------------------------------------------------

  /** The attributes of a client. */
  datatype State = State(site: string, dataType: string, ancProduct: Arg,
                         sc: Arg, instr: Arg, mode: Arg, level: Arg, optdesc: Arg,
                         version: Arg, files: Arg, startDate: DateValue, endDate: DateValue,
                         offline: bool, dataRoot: string, infoType: string)

  /** A query value: a string as it is, a list joined with ','. */
  function ArgText(a: Arg): Option<string>
  {
    match a
    case Null => None
    case Str(s) => Some(s)
    case Strs(l) => Some(Join(l, ","))
  }

  /** The end day searches the query's end date has to name for an
      interval from s to e: the SDC treats it as exclusive. */
  predicate RollsOver(s: DateTime, e: DateTime)
  {
    SameDay(s, e) || !AtMidnight(e)
  }

  /** The query's end date: `%Y-%m-%d` of the end, moved one day on when
      the end lies on the start's day or is not at midnight. A string end
      or a start that is not a datetime has no `strftime` / `date()`
      (AttributeError); stepping past year 9999 is an OverflowError. */
  function QueryEnd(start: DateValue, end: DateValue): Result<Option<string>>
  {
    match end
    case NoDate => Ok(None)
    case Text(_) => Err(AttributeError)
    case Moment(e) =>
      match start
      case Moment(s) =>
        if RollsOver(s, e) then
          if Valid(NextDay(e)) then Ok(Some(IsoDate(NextDay(e)))) else Err(OverflowError)
        else Ok(Some(IsoDate(e)))
      case _ => Err(AttributeError)
  }

  /** The query's start date: the start truncated to `%Y-%m-%d`. */
  function QueryStart(start: DateValue): Result<Option<string>>
  {
    match start
    case NoDate => Ok(None)
    case Moment(t) => Ok(Some(IsoDate(t)))
    case Text(_) => Err(AttributeError)
  }

  const QueryKeys: seq<string> := ["sc_id", "instrument_id", "data_rate_mode", "data_level",
                                   "descriptor", "version", "files", "start_date", "end_date", "product"]

  /** The (key, value) pairs of the values that are not None, in key order. */
  function Pairs(keys: seq<string>, values: seq<Option<string>>): seq<(string, string)>
    requires |keys| == |values|
  {
    if |keys| == 0 then []
    else (if values[0].Some? then [(keys[0], values[0].value)] else []) + Pairs(keys[1..], values[1..])
  }

  /** `Query()`: the request parameters, in insertion order. */
  function Query(st: State): Result<seq<(string, string)>>
  {
    var values :- QueryValues(st);
    Ok(Pairs(QueryKeys, values))
  }

  /** The value (or None) of every key, the end date first computed. */
  function QueryValues(st: State): (r: Result<seq<Option<string>>>)
    ensures r.Ok? ==> |r.value| == |QueryKeys|
  {
    var endText :- QueryEnd(st.startDate, st.endDate);
    var startText :- QueryStart(st.startDate);
    Ok([ArgText(st.sc), ArgText(st.instr), ArgText(st.mode), ArgText(st.level),
        ArgText(st.optdesc), ArgText(st.version), ArgText(st.files),
        startText, endText, ArgText(st.ancProduct)])
  }

  /** The value of the first pair with key k. */
  function Lookup(q: seq<(string, string)>, k: string): Option<string>
  {
    if |q| == 0 then None else if q[0].0 == k then Some(q[0].1) else Lookup(q[1..], k)
  }

  /** Position of k in keys (|keys| when absent). */
  function IndexOf(keys: seq<string>, k: string): (i: nat)
    ensures i <= |keys|
    ensures k in keys ==> i < |keys| && keys[i] == k
    ensures k !in keys ==> i == |keys|
    ensures forall j :: 0 <= j < i ==> keys[j] != k
  {
    if |keys| == 0 || keys[0] == k then 0 else 1 + IndexOf(keys[1..], k)
  }

  predicate DistinctKeys(keys: seq<string>)
  {
    forall i, j :: 0 <= i < j < |keys| ==> keys[i] != keys[j]
  }

  lemma QueryKeysDistinct()
    ensures DistinctKeys(QueryKeys)
  {
    var ks := QueryKeys;
    forall i, j | 0 <= i < j < |ks| ensures ks[i] != ks[j] {
      assert |ks[i]| != |ks[j]| || ks[i][0] != ks[j][0] || ks[i][5] != ks[j][5];
    }
  }

  lemma DistinctTail(keys: seq<string>)
    requires |keys| > 0 && DistinctKeys(keys)
    ensures DistinctKeys(keys[1..]) && keys[0] !in keys[1..]
  {
    forall i, j | 0 <= i < j < |keys[1..]| ensures keys[1..][i] != keys[1..][j] {
      assert keys[1..][i] == keys[i + 1] && keys[1..][j] == keys[j + 1];
    }
    forall i | 0 <= i < |keys[1..]| ensures keys[1..][i] != keys[0] {
      assert keys[1..][i] == keys[i + 1];
    }
  }

  /** In the pairs of distinct keys, each key's value is the one given for
      it. */
  lemma {:induction false} PairsLookup(keys: seq<string>, values: seq<Option<string>>, k: string)
    requires |keys| == |values| && DistinctKeys(keys)
    ensures Lookup(Pairs(keys, values), k) == if k in keys then values[IndexOf(keys, k)] else None
    decreases |keys|
  {
    if |keys| > 0 {
      var rest := Pairs(keys[1..], values[1..]);
      var q := Pairs(keys, values);
      DistinctTail(keys);
      PairsLookup(keys[1..], values[1..], k);
      if values[0].Some? {
        assert q == [(keys[0], values[0].value)] + rest;
        assert q[0] == (keys[0], values[0].value) && q[1..] == rest;
      } else {
        assert q == rest;
      }
      if k == keys[0] {
      } else if k in keys {
        assert k in keys[1..];
        assert values[IndexOf(keys, k)] == values[1..][IndexOf(keys[1..], k)];
      } else {
        assert k !in keys[1..];
      }
    }
  }

  /** The pairs come in the order of their keys. */
  lemma {:induction false} PairsOrder(keys: seq<string>, values: seq<Option<string>>)
    requires |keys| == |values| && DistinctKeys(keys)
    ensures forall i :: 0 <= i < |Pairs(keys, values)| ==> Pairs(keys, values)[i].0 in keys
    ensures forall i, j :: 0 <= i < j < |Pairs(keys, values)| ==>
      IndexOf(keys, Pairs(keys, values)[i].0) < IndexOf(keys, Pairs(keys, values)[j].0)
    decreases |keys|
  {
    if |keys| > 0 {
      var rest := Pairs(keys[1..], values[1..]);
      DistinctTail(keys);
      PairsOrder(keys[1..], values[1..]);
      forall j | 0 <= j < |rest|
        ensures rest[j].0 in keys && IndexOf(keys, rest[j].0) == 1 + IndexOf(keys[1..], rest[j].0)
      {
        assert rest[j].0 in keys[1..];
      }
      if values[0].Some? {
        var q := Pairs(keys, values);
        assert q == [(keys[0], values[0].value)] + rest;
        assert forall j :: 1 <= j < |q| ==> q[j] == rest[j - 1];
      }
    }
  }

  /** Query builds one key per attribute that is not None, with strings
      passed as they are and lists joined with ','; start_date is the
      start's day and end_date the corrected end day; the keys come in the
      fixed order sc_id, instrument_id, data_rate_mode, data_level,
      descriptor, version, files, start_date, end_date, product, each once. */
  lemma QueryContents(st: State)
    requires Query(st).Ok?
    ensures var q := Query(st).value;
      Lookup(q, "sc_id") == ArgText(st.sc) &&
      Lookup(q, "instrument_id") == ArgText(st.instr) &&
      Lookup(q, "data_rate_mode") == ArgText(st.mode) &&
      Lookup(q, "data_level") == ArgText(st.level) &&
      Lookup(q, "descriptor") == ArgText(st.optdesc) &&
      Lookup(q, "version") == ArgText(st.version) &&
      Lookup(q, "files") == ArgText(st.files) &&
      Lookup(q, "start_date") == (if st.startDate.Moment? then Some(IsoDate(st.startDate.t)) else None) &&
      Lookup(q, "end_date") == QueryEnd(st.startDate, st.endDate).value &&
      Lookup(q, "product") == ArgText(st.ancProduct)
    ensures forall i :: 0 <= i < |Query(st).value| ==> Query(st).value[i].0 in QueryKeys
    ensures forall i, j :: 0 <= i < j < |Query(st).value| ==>
      IndexOf(QueryKeys, Query(st).value[i].0) < IndexOf(QueryKeys, Query(st).value[j].0)
  {
    var vs := QueryValues(st).value;
    QueryKeysDistinct();
    PairsOrder(QueryKeys, vs);
    QueryLookup(st, 0);
    QueryLookup(st, 1);
    QueryLookup(st, 2);
    QueryLookup(st, 3);
    QueryLookup(st, 4);
    QueryLookup(st, 5);
    QueryLookup(st, 6);
    QueryLookup(st, 7);
    QueryLookup(st, 8);
    QueryLookup(st, 9);
  }

  lemma QueryLookup(st: State, n: nat)
    requires Query(st).Ok? && n < |QueryKeys|
    ensures Lookup(Query(st).value, QueryKeys[n]) == QueryValues(st).value[n]
  {
    var vs := QueryValues(st).value;
    QueryKeysDistinct();
    PairsLookup(QueryKeys, vs, QueryKeys[n]);
    assert IndexOf(QueryKeys, QueryKeys[n]) == n;
  }

  /** Query fails exactly when a date attribute holds an unread string, when
      there is an end but no start datetime (AttributeError), or when the
      corrected end day would pass 9999-12-31 (OverflowError). */
  lemma QueryFails(st: State)
    requires DateOk(st.endDate)
    ensures Query(st).Err? <==>
      st.startDate.Text? || st.endDate.Text? || (st.endDate.Moment? && !st.startDate.Moment?) ||
      (st.startDate.Moment? && st.endDate.Moment? && RollsOver(st.startDate.t, st.endDate.t) &&
       st.endDate.t.year == 9999 && st.endDate.t.month == 12 && st.endDate.t.day == 31)
    ensures Query(st).Err? ==> Query(st).error in {AttributeError, OverflowError}
  {
    if st.endDate.Moment? {
      NextDayStaysValid(st.endDate.t);
    }
  }

  /** The corrected end day is the earliest midnight that is after the
      start's day and not before the end: the SDC's half-open day range
      [start day, end day) then covers the whole interval from start to end. */
  lemma QueryEndDay(s: DateTime, e: DateTime, m: DateTime)
    requires Valid(s) && Valid(e) && AtOrBefore(s, e)
    requires !(e.year == 9999 && e.month == 12 && e.day == 31)
    requires Valid(m) && AtMidnight(m) && DayBefore(s, m) && AtOrBefore(e, m)
    ensures var d := if RollsOver(s, e) then DateOf(NextDay(e)) else e;
      QueryEnd(Moment(s), Moment(e)) == Ok(Some(IsoDate(d))) &&
      Valid(d) && AtMidnight(d) && DayBefore(s, d) && AtOrBefore(e, d) && AtOrBefore(d, m)
  {
    NextDayStaysValid(e);
    var n := NextDay(e);
    assert IsoDate(DateOf(n)) == IsoDate(n);
    EndDayBounds(s, e, m);
  }

  /** The day QueryEnd names, as a datetime, lies between the bounds
      QueryEndDay states. */
  lemma EndDayBounds(s: DateTime, e: DateTime, m: DateTime)
    requires Valid(s) && Valid(e) && AtOrBefore(s, e)
    requires !(e.year == 9999 && e.month == 12 && e.day == 31)
    requires Valid(m) && AtMidnight(m) && DayBefore(s, m) && AtOrBefore(e, m)
    ensures var d := if RollsOver(s, e) then DateOf(NextDay(e)) else e;
      Valid(d) && AtMidnight(d) && DayBefore(s, d) && AtOrBefore(e, d) && AtOrBefore(d, m)
  {
    if RollsOver(s, e) {
      NextMidnightBounds(s, e, m);
    } else {
      DayOrder(s, e);
    }
  }

  // ---------------------------------------------------------------------
  // Remote names and local paths
  // ---------------------------------------------------------------------

  /** `name2path(filename)`: the data root, every '_'-field of the name but
      the last two, the year and month of the time tag (and its day for
      burst data), then the name. Fewer than three fields is an IndexError
      (`parts[2]`). */
  function Name2Path(root: string, filename: string): (r: Result<string>)
    ensures r.Err? <==> |Split(filename, '_')| < 3
    ensures r.Err? ==> r.error == IndexError
  {
    var parts := Split(filename, '_');
    if |parts| < 3 then Err(IndexError) else Ok(NamePath(root, parts, filename))
  }

  /** The path name2path gives a file with the '_'-fields parts. */
  function NamePath(root: string, parts: seq<string>, filename: string): string
    requires |parts| >= 3
  {
    PathJoin(root, NameDirs(parts) + [filename])
  }

  /** The directories name2path takes from a name's '_'-fields: all but the
      last two, the year and month of the time tag, and its day for burst
      data. */
  function NameDirs(parts: seq<string>): seq<string>
    requires |parts| >= 3
  {
    var tag := parts[|parts| - 2];
    var days := if parts[2] == "brst" then [Slice(tag, 6, 8)] else [];
    parts[..|parts| - 2] + [Slice(tag, 0, 4), Slice(tag, 4, 6)] + days
  }

  /** A science file, parts being its '_'-fields, goes into the directory
      construct_path gives for its fields but the last, which is also the
      directory it gives for the file's start day. */
  lemma Name2PathLayout(root: string, filename: string, parts: seq<string>)
    requires parts == Split(filename, '_') && |parts| >= 6
    ensures Name2Path(root, filename) == Ok(PathJoin(PathFor(parts[..|parts| - 1], root, false), [filename]))
    ensures var tag := parts[|parts| - 2];
      |tag| >= 8 ==>
        Name2Path(root, filename) == Ok(PathJoin(PathFor(parts[..|parts| - 2] + [tag[..8]], root, false), [filename]))
  {
    NamePathLayout(root, parts, filename);
  }

  /** The path from fields is the file joined to construct_path's directory
      for the fields but the last, and for those but the last two and the
      day of the time tag. */
  lemma NamePathLayout(root: string, parts: seq<string>, filename: string)
    requires |parts| >= 6
    ensures NamePath(root, parts, filename) == PathJoin(PathFor(parts[..|parts| - 1], root, false), [filename])
    ensures var tag := parts[|parts| - 2];
      |tag| >= 8 ==>
        NamePath(root, parts, filename) == PathJoin(PathFor(parts[..|parts| - 2] + [tag[..8]], root, false), [filename])
  {
    PathJoinConcat(root, NameDirs(parts), [filename]);
    FieldDirs(root, parts);
  }

  /** construct_path's directory for the fields of a name but the last, or
      for those but the last two and the day of the time tag, is the one
      name2path builds from the fields. */
  lemma FieldDirs(root: string, parts: seq<string>)
    requires |parts| >= 6
    ensures PathFor(parts[..|parts| - 1], root, false) == PathJoin(root, NameDirs(parts))
    ensures var tag := parts[|parts| - 2];
      |tag| >= 8 ==> PathFor(parts[..|parts| - 2] + [tag[..8]], root, false) == PathJoin(root, NameDirs(parts))
  {
    var n := |parts|;
    var tag := parts[n - 2];
    var dirs := NameDirs(parts);
    var c := parts[..n - 1];
    assert c[..|c| - 1] == parts[..n - 2] && Last(c) == tag && c[2] == parts[2];
    assert dirs + [] == dirs;
    if |tag| >= 8 {
      var c8 := parts[..n - 2] + [tag[..8]];
      assert c8[..|c8| - 1] == parts[..n - 2] && Last(c8) == tag[..8] && c8[2] == parts[2];
      assert Slice(tag[..8], 0, 4) == Slice(tag, 0, 4);
      assert Slice(tag[..8], 4, 6) == Slice(tag, 4, 6);
      assert Slice(tag[..8], 6, 8) == Slice(tag, 6, 8);
    }
  }

  /** A plain file name is the basename of its local path. */
  lemma Name2PathBasename(root: string, filename: string)
    requires |Split(filename, '_')| >= 3 && PlainComponent(filename)
    ensures Basename(Name2Path(root, filename).value) == filename
  {
    BasenamePathJoin(root, NameDirs(Split(filename, '_')), filename);
  }

  /** `ancillaryname2path(filename)`: data root, 'ancillary' and the
      '_'-fields but the last two, all lower-cased, then the name as it is. */
  function AncillaryName2Path(root: string, filename: string): string
  {
    var parts := Split(filename, '_');
    PathJoin(Lower(PathJoin(root, ["ancillary"] + Slice(parts, 0, -2))), [filename])
  }

  /** The directory part is lower case whatever the case of the root, and
      the name is appended unchanged. */
  lemma AncillaryLayout(root: string, filename: string)
    ensures var parts := Split(filename, '_');
      var dir := Lower(PathJoin(root, ["ancillary"] + Slice(parts, 0, -2)));
      Lower(dir) == dir && AncillaryName2Path(root, filename) == JoinStep(dir, filename)
    ensures PlainComponent(filename) ==> Basename(AncillaryName2Path(root, filename)) == filename
  {
    var parts := Split(filename, '_');
    var dir := Lower(PathJoin(root, ["ancillary"] + Slice(parts, 0, -2)));
    LowerIdempotent(PathJoin(root, ["ancillary"] + Slice(parts, 0, -2)));
    assert [filename][1..] == [];
    assert PathJoin(dir, [filename]) == PathJoin(JoinStep(dir, filename), []);
    if PlainComponent(filename) {
      assert [] + [filename] == [filename];
      BasenamePathJoin(dir, [], filename);
    }
  }

  /** On plain components the ancillary path is
      lower(root/ancillary/fields...) + '/' + name. */
  lemma AncillaryPlainLayout(root: string, filename: string, parts: seq<string>)
    requires parts == Split(filename, '_')
    requires PlainRoot(root) && PlainComponent(filename)
    requires var ps := ["ancillary"] + Slice(parts, 0, -2);
      forall i :: 0 <= i < |ps| ==> PlainComponent(ps[i])
    ensures AncillaryName2Path(root, filename) ==
      Lower(Join([root, "ancillary"] + Slice(parts, 0, -2), "/")) + "/" + filename
  {
    var ps := ["ancillary"] + Slice(parts, 0, -2);
    var full := [root] + ps;
    assert full == [root, "ancillary"] + Slice(parts, 0, -2);
    PathJoinPlain(root, ps);
    var dir := Lower(Join(full, "/"));
    assert Last(full) == ps[|ps| - 1];
    LowerJoinPlain(full);
    JoinStepPlain(dir, filename);
    assert [filename][1..] == [];
    assert PathJoin(dir, [filename]) == JoinStep(dir, filename);
  }

  /** `ParseFileNames(filename)`: the '_'-fields of the base name, with ''
      inserted before the time tag when there are six, and the last field
      without its last four characters (the leading 'v' stays). */
  function ParseFileNames(filename: string): (r: seq<string>)
    ensures |r| == if |Split(Basename(filename), '_')| == 6 then 7 else |Split(Basename(filename), '_')|
  {
    var parts := Split(Basename(filename), '_');
    var full := if |parts| == 6 then parts[..4] + [""] + parts[4..] else parts;
    full[..|full| - 1] + [Slice(Last(full), 0, -4)]
  }

  /** On six- and seven-field names ParseFileNames gives the fields of
      parse_filename, except that the version keeps its 'v'. */
  lemma ParseFileNamesAgrees(filename: string)
    requires |Split(Basename(filename), '_')| in {6, 7}
    ensures ScienceFields(Basename(filename)).Ok?
    ensures var r := ParseFileNames(filename);
      var p := ScienceFields(Basename(filename)).value;
      var last := Last(Split(Basename(filename), '_'));
      |r| == 7 && r[..6] == [p.sc, p.instr, p.mode, p.level, p.optdesc, p.tstart] &&
      r[6] == Slice(last, 0, -4) && Slice(r[6], 1, |r[6]|) == p.version
  {
    var parts := Split(Basename(filename), '_');
    var last := Last(parts);
    var r := ParseFileNames(filename);
    var v := Slice(last, 0, -4);
    if |last| >= 5 {
      assert v == last[..|last| - 4];
      assert Slice(v, 1, |v|) == last[1..|last| - 4];
    }
  }

  /** The local name of one remote name: the data root joined with the
      remote path's '/'-pieces from the third on. */
  function LocalName(root: string, remote: string): string
  {
    var pieces := Split(remote, '/');
    PathJoin(root, Slice(pieces, 2, |pieces|))
  }

  /** `remote2localnames(remote_names)` on a list. */
  function Remote2LocalNames(root: string, remote: seq<string>): (locals: seq<string>)
    ensures |locals| == |remote|
    ensures forall i :: 0 <= i < |remote| ==> locals[i] == LocalName(root, remote[i])
  {
    seq(|remote|, i requires 0 <= i < |remote| => LocalName(root, remote[i]))
  }

  /** A remote name with at least three '/'-pieces keeps its file name. */
  lemma LocalNameKeepsBasename(root: string, remote: string)
    requires |Split(remote, '/')| >= 3 && Basename(remote) != ""
    ensures Basename(LocalName(root, remote)) == Basename(remote)
  {
    var pieces := Split(remote, '/');
    var f := Last(pieces);
    assert Slice(pieces, 2, |pieces|) == pieces[2..|pieces| - 1] + [f];
    BasenamePathJoin(root, pieces[2..|pieces| - 1], f);
  }

  // ---------------------------------------------------------------------
  // Splitting a remote listing by local presence
  // ---------------------------------------------------------------------

  /** `[i for i, local in enumerate(locals) if os.path.isfile(local)]`. */
  function PresentIndices(locals: seq<string>, existing: set<string>): (idx: seq<nat>)
    ensures forall k :: 0 <= k < |idx| ==> idx[k] < |locals| && locals[idx[k]] in existing
    ensures forall i :: 0 <= i < |locals| && locals[i] in existing ==> i in idx
    ensures forall a, b :: 0 <= a < b < |idx| ==> idx[a] < idx[b]
    decreases |locals|
  {
    if |locals| == 0 then []
    else
      var n := |locals| - 1;
      PresentIndices(locals[..n], existing) + (if locals[n] in existing then [n] else [])
  }

  /** The indices not in PresentIndices: those whose local file is absent. */
  function AbsentIndices(locals: seq<string>, existing: set<string>): (idx: seq<nat>)
    ensures forall k :: 0 <= k < |idx| ==> idx[k] < |locals| && locals[idx[k]] !in existing
    ensures forall i :: 0 <= i < |locals| && locals[i] !in existing ==> i in idx
    ensures forall a, b :: 0 <= a < b < |idx| ==> idx[a] < idx[b]
    decreases |locals|
  {
    if |locals| == 0 then []
    else
      var n := |locals| - 1;
      AbsentIndices(locals[..n], existing) + (if locals[n] !in existing then [n] else [])
  }

  /** One more local name adds its index to the absent ones when its file
      does not exist. */
  lemma AbsentSnoc(locals: seq<string>, existing: set<string>, i: nat)
    requires i < |locals|
    ensures AbsentIndices(locals[..i + 1], existing) ==
      AbsentIndices(locals[..i], existing) + (if locals[i] !in existing then [i] else [])
  {
    assert locals[..i + 1][..i] == locals[..i];
  }

  /** An index is present exactly when its local file exists. */
  lemma InPresent(locals: seq<string>, existing: set<string>, i: nat)
    requires i < |locals|
    ensures i in PresentIndices(locals, existing) <==> locals[i] in existing
  {
    var idx := PresentIndices(locals, existing);
    if i in idx {
      var k :| 0 <= k < |idx| && idx[k] == i;
    }
  }

  /** `[xs[i] for i in idx]`. */
  function Pick(xs: seq<string>, idx: seq<nat>): (r: seq<string>)
    requires forall k :: 0 <= k < |idx| ==> idx[k] < |xs|
    ensures |r| == |idx| && forall k :: 0 <= k < |idx| ==> r[k] == xs[idx[k]]
  {
    seq(|idx|, k requires 0 <= k < |idx| => xs[idx[k]])
  }

  /** Picking one more index appends its element. */
  lemma PickSnoc(xs: seq<string>, idx: seq<nat>, i: nat)
    requires forall k :: 0 <= k < |idx| ==> idx[k] < |xs|
    requires i < |xs|
    ensures Pick(xs, idx + [i]) == Pick(xs, idx) + [xs[i]]
  {
    assert forall k :: 0 <= k < |idx| ==> (idx + [i])[k] == idx[k];
  }

  /** Every index is present or absent, never both. */
  lemma {:induction false} PresenceCount(locals: seq<string>, existing: set<string>)
    ensures |PresentIndices(locals, existing)| + |AbsentIndices(locals, existing)| == |locals|
    decreases |locals|
  {
    if |locals| > 0 {
      PresenceCount(locals[..|locals| - 1], existing);
    }
  }

  /** The two lists Search builds before time filtering: the local names
      that exist and the remote names whose local name does not. */
  function Presence(root: string, remote: seq<string>, existing: set<string>): (seq<string>, seq<string>)
  {
    var locals := Remote2LocalNames(root, remote);
    (Pick(locals, PresentIndices(locals, existing)), Pick(remote, AbsentIndices(locals, existing)))
  }

  /** Presence keeps, in remote order, exactly the local names that exist
      and exactly the remote names whose local name does not; the two lists
      together are as long as the remote list. */
  lemma PresenceSplit(root: string, remote: seq<string>, existing: set<string>)
    ensures var r := Presence(root, remote, existing);
      |r.0| + |r.1| == |remote| &&
      (forall x :: x in r.0 <==> x in existing && exists i :: 0 <= i < |remote| && x == LocalName(root, remote[i])) &&
      (forall f :: f in r.1 <==> exists i :: 0 <= i < |remote| && f == remote[i] && LocalName(root, remote[i]) !in existing)
  {
    var locals := Remote2LocalNames(root, remote);
    PresenceCount(locals, existing);
    forall x
      ensures x in Pick(locals, PresentIndices(locals, existing)) <==>
        x in existing && exists i :: 0 <= i < |remote| && x == LocalName(root, remote[i])
    {
      PresentPicked(locals, existing, x);
    }
    forall f
      ensures f in Pick(remote, AbsentIndices(locals, existing)) <==>
        exists i :: 0 <= i < |remote| && f == remote[i] && LocalName(root, remote[i]) !in existing
    {
      AbsentPicked(remote, locals, existing, f);
    }
  }

  /** The present picks are exactly the local names that exist. */
  lemma PresentPicked(locals: seq<string>, existing: set<string>, x: string)
    ensures x in Pick(locals, PresentIndices(locals, existing)) <==>
      x in existing && exists i :: 0 <= i < |locals| && x == locals[i]
  {
    var present := PresentIndices(locals, existing);
    var r := Pick(locals, present);
    if x in r {
      var k :| 0 <= k < |present| && r[k] == x;
      assert x == locals[present[k]];
    }
    if x in existing && exists i :: 0 <= i < |locals| && x == locals[i] {
      var i :| 0 <= i < |locals| && x == locals[i];
      var k :| 0 <= k < |present| && present[k] == i;
      assert r[k] == x;
    }
  }

  /** The absent picks are exactly the remote names whose local name does
      not exist. */
  lemma AbsentPicked(remote: seq<string>, locals: seq<string>, existing: set<string>, f: string)
    requires |locals| == |remote|
    ensures f in Pick(remote, AbsentIndices(locals, existing)) <==>
      exists i :: 0 <= i < |remote| && f == remote[i] && locals[i] !in existing
  {
    var absent := AbsentIndices(locals, existing);
    var r := Pick(remote, absent);
    if f in r {
      var k :| 0 <= k < |absent| && r[k] == f;
      assert f == remote[absent[k]];
    }
    if exists i :: 0 <= i < |remote| && f == remote[i] && locals[i] !in existing {
      var i :| 0 <= i < |remote| && f == remote[i] && locals[i] !in existing;
      var k :| 0 <= k < |absent| && absent[k] == i;
      assert r[k] == f;
    }
  }

  // ---------------------------------------------------------------------
  // Local_FileNames: the day list and the directory search
  // ---------------------------------------------------------------------

  /** The default start of a local search: the beginning of the mission. */
  const MissionStart: DateTime := DateTime(2015, 9, 1, 0, 0, 0)

  /** The `while start_date <= end_date` loop of Local_FileNames. */
  method DayList(s: DateTime, e: DateTime) returns (r: Result<seq<string>>)
    requires Valid(s)
    ensures r == Days(s, e)
  {
    var day := s;
    var dates: seq<string> := [];
    if Days(s, e).Ok? {
      assert [] + Days(s, e).value == Days(s, e).value;
    }
    while AtOrBefore(day, e)
      invariant Valid(day)
      invariant Days(s, e) == Extend(dates, Days(day, e))
      decreases Stamp(e) - Stamp(day)
    {
      var next := NextDay(day);
      if !Valid(next) {
        return Err(OverflowError);
      }
      NextDayAdvancesOneDay(day);
      var rest := Days(next, e);
      if rest.Ok? {
        assert dates + ([Compact(day)] + rest.value) == (dates + [Compact(day)]) + rest.value;
      }
      dates := dates + [Compact(day)];
      day := next;
    }
    assert dates + [] == dates;
    r := Ok(dates);
  }

  /** The dates Local_FileNames searches: a missing start is the mission
      start and a missing end is today. Two datetimes give the day list;
      two unread strings compare as strings, and when the loop is entered
      the string has no `strftime` (AttributeError); a string against a
      datetime cannot be compared (TypeError). */
  function SearchDates(st: State, today: DateTime): Result<seq<string>>
    requires DateOk(st.startDate) && DateOk(st.endDate) && Valid(today)
  {
    var s := if st.startDate.NoDate? then Moment(MissionStart) else st.startDate;
    var e := if st.endDate.NoDate? then Moment(today) else st.endDate;
    if s.Moment? && e.Moment? then Days(s.t, e.t)
    else if s.Text? && e.Text? then (if LexLe(s.s, e.s) then Err(AttributeError) else Ok([]))
    else Err(TypeError)
  }

  /** What the search meets for a directory and a name pattern:
      `os.chdir` into the directory raises FileNotFoundError, raises
      another error, or enters it, and `glob.glob` lists the matching names
      there. */
  datatype Listing = Missing | Refused(error: PyError) | Names(names: seq<string>)

  /** The directory search, for directories named as given from the
      working directory the search starts in. */
  type Glob = (string, string) -> Listing

  /** `os.path.join(root, file)` for every name found. */
  function Found(root: string, names: seq<string>): (r: seq<string>)
    ensures |r| == |names| && forall k :: 0 <= k < |names| ==> r[k] == PathJoin(root, [names[k]])
  {
    seq(|names|, k requires 0 <= k < |names| => PathJoin(root, [names[k]]))
  }

  /** The files found for one path pattern: none when its directory does
      not exist, and the error when entering it raises another one. */
  function GlobOne(path: string, glob: Glob): Result<seq<string>>
  {
    match glob(Dirname(path), Basename(path))
    case Missing => Ok([])
    case Refused(e) => Err(e)
    case Names(ns) => Ok(Found(Dirname(path), ns))
  }

  /** The files found for every pattern, in pattern order, or the error
      of the first directory that could not be entered. */
  function GlobAll(paths: seq<string>, glob: Glob): Result<seq<string>>
  {
    ConcatMap((p: string) => GlobOne(p, glob), paths)
  }

  /** The loop over the path patterns of Local_FileNames, each directory
      entered from the starting directory. */
  method SearchDirs(paths: seq<string>, glob: Glob) returns (r: Result<seq<string>>)
    ensures r == GlobAll(paths, glob)
  {
    var result := [];
    for i := 0 to |paths|
      invariant GlobAll(paths[..i], glob) == Ok(result)
    {
      assert paths[..i + 1][..i] == paths[..i];
      ghost var one := GlobOne(paths[i], glob);
      assert GlobAll(paths[..i + 1], glob) ==
        if one.Err? then Err(one.error) else Ok(result + one.value);
      var root := Dirname(paths[i]);
      var found := glob(root, Basename(paths[i]));
      if found.Refused? {
        assert GlobAll(paths[..i + 1], glob) == Err(found.error);
        ConcatMapPrefixErr((p: string) => GlobOne(p, glob), paths, i + 1);
        return Err(found.error);
      }
      if found.Names? {
        result := AppendFound(result, root, found.names);
      } else {
        assert one.value == [] && result + one.value == result;
      }
    }
    assert paths[..|paths|] == paths;
    r := Ok(result);
  }

  /** The inner loop: every name found, joined to the directory, appended
      in the order the search reports them. */
  method AppendFound(result0: seq<string>, root: string, names: seq<string>) returns (result: seq<string>)
    ensures result == result0 + Found(root, names)
  {
    result := result0;
    for j := 0 to |names|
      invariant result == result0 + Found(root, names[..j])
    {
      assert Found(root, names[..j + 1]) == Found(root, names[..j]) + [PathJoin(root, [names[j]])];
      result := result + [PathJoin(root, [names[j]])];
    }
    assert names[..|names|] == names;
  }

  /** The search enters directory dir and reports, for the pattern, a name
      that joined to dir gives x. */
  predicate Reports(glob: Glob, dir: string, pattern: string, x: string)
  {
    glob(dir, pattern).Names? &&
    exists n :: n in glob(dir, pattern).names && x == PathJoin(dir, [n])
  }

  /** The files found for one path pattern are the names the search reports
      for its directory and pattern, joined to that directory; the pattern
      fails exactly when its directory refuses to be entered. */
  lemma GlobOneMembers(path: string, glob: Glob, x: string)
    ensures GlobOne(path, glob).Err? <==> glob(Dirname(path), Basename(path)).Refused?
    ensures GlobOne(path, glob).Ok? ==>
      (x in GlobOne(path, glob).value <==> Reports(glob, Dirname(path), Basename(path), x))
  {
    var found := glob(Dirname(path), Basename(path));
    if found.Names? {
      var fs := Found(Dirname(path), found.names);
      if x in fs {
        var k :| 0 <= k < |fs| && fs[k] == x;
        assert found.names[k] in found.names;
      }
      if exists n :: n in found.names && x == PathJoin(Dirname(path), [n]) {
        var n :| n in found.names && x == PathJoin(Dirname(path), [n]);
        var k :| 0 <= k < |found.names| && found.names[k] == n;
        assert fs[k] == x;
      }
    }
  }

  /** The search fails exactly when the directory of one of the paths
      refuses to be entered, and then with that directory's error; when it
      succeeds, a file is found exactly when it is a name the search
      reports for the directory and pattern of one of the paths, joined to
      that directory. */
  lemma GlobAllMembers(paths: seq<string>, glob: Glob, x: string)
    ensures GlobAll(paths, glob).Err? <==>
      exists i :: 0 <= i < |paths| && glob(Dirname(paths[i]), Basename(paths[i])).Refused?
    ensures GlobAll(paths, glob).Err? ==>
      exists i :: 0 <= i < |paths| && glob(Dirname(paths[i]), Basename(paths[i])) == Refused(GlobAll(paths, glob).error)
    ensures GlobAll(paths, glob).Ok? ==>
      (x in GlobAll(paths, glob).value <==>
       exists i :: 0 <= i < |paths| && Reports(glob, Dirname(paths[i]), Basename(paths[i]), x))
  {
    forall i | 0 <= i < |paths|
      ensures GlobOne(paths[i], glob).Err? <==> glob(Dirname(paths[i]), Basename(paths[i])).Refused?
      ensures GlobOne(paths[i], glob).Ok? ==>
        (x in GlobOne(paths[i], glob).value <==> Reports(glob, Dirname(paths[i]), Basename(paths[i]), x))
    {
      GlobOneMembers(paths[i], glob, x);
    }
  }

  /** The loop as written: every `os.chdir` after the first successful one
      resolves the directory from the directory that one entered, not from
      the starting directory. Here fs answers for resolved directories and
      cwd is the working directory. */
  function SearchFrom(paths: seq<string>, fs: Glob, cwd: string): Result<seq<string>>
    decreases |paths|
  {
    if |paths| == 0 then Ok([])
    else
      var root := Dirname(paths[0]);
      var dir := JoinStep(cwd, root);
      match fs(dir, Basename(paths[0]))
      case Missing => SearchFrom(paths[1..], fs, cwd)
      case Refused(e) => Err(e)
      case Names(ns) =>
        var rest := SearchFrom(paths[1..], fs, dir);
        if rest.Err? then Err(rest.error) else Ok(Found(root, ns) + rest.value)
  }

  /** The search from the starting directory over a first pattern and
      the rest. */
  lemma GlobAllCons(p: string, ps: seq<string>, glob: Glob)
    ensures GlobAll([p] + ps, glob) ==
      if GlobOne(p, glob).Err? then Err(GlobOne(p, glob).error)
      else if GlobAll(ps, glob).Err? then Err(GlobAll(ps, glob).error)
      else Ok(GlobOne(p, glob).value + GlobAll(ps, glob).value)
  {
    ConcatMapCons((q: string) => GlobOne(q, glob), p, ps);
  }

  /** When every directory is absolute, where the search starts does not
      matter: the loop as written finds what the search from the starting
      directory finds. */
  lemma {:induction false} AbsoluteAsWritten(paths: seq<string>, fs: Glob, cwd: string)
    requires forall i :: 0 <= i < |paths| ==> StartsWith(Dirname(paths[i]), "/")
    ensures SearchFrom(paths, fs, cwd) == GlobAll(paths, fs)
    decreases |paths|
  {
    if |paths| > 0 {
      var root := Dirname(paths[0]);
      assert JoinStep(cwd, root) == root;
      assert paths == [paths[0]] + paths[1..];
      GlobAllCons(paths[0], paths[1..], fs);
      var listing := fs(root, Basename(paths[0]));
      assert forall i :: 0 <= i < |paths[1..]| ==> paths[1..][i] == paths[i + 1];
      if listing.Missing? {
        AbsoluteAsWritten(paths[1..], fs, cwd);
        assert GlobOne(paths[0], fs) == Ok([]);
        var rest := GlobAll(paths[1..], fs);
        if rest.Ok? {
          assert [] + rest.value == rest.value;
        }
      } else if listing.Names? {
        AbsoluteAsWritten(paths[1..], fs, root);
      }
    }
  }

  /** A relative directory and a name in it, as the path functions split
      and join them. */
  lemma PathParts(x: string, f: string)
    requires PlainRoot(x) && '/' !in f
    ensures Dirname(x + "/" + f) == x && Basename(x + "/" + f) == f
    ensures PathJoin(x, [f]) == x + "/" + f
  {
    DirnameAfterSlash(x, f);
    BasenameAfterSlash(x, f);
    assert !StartsWith(f, "/") by {
      if |f| > 0 { assert f[0] in f; }
    }
  }

  /** A file system with one directory d, whose matches for a pattern are
      the pattern itself. */
  function OnlyDir(d: string): Glob
  {
    (dir: string, pattern: string) => if dir == d then Names([pattern]) else Missing
  }

  /** The one directory lists a pattern's own name; any other is missing. */
  lemma OnlyDirAt(d: string, dir: string, pattern: string)
    ensures OnlyDir(d)(dir, pattern) == if dir == d then Names([pattern]) else Missing
  {
  }

  /** One name in the relative directory x, searched from w: found. */
  lemma OneFromStart(w: string, x: string, a: string, glob: Glob)
    requires PlainRoot(x) && '/' !in a
    requires forall dir, pattern :: glob(dir, pattern) == OnlyDir(JoinStep(w, x))(JoinStep(w, dir), pattern)
    ensures GlobOne(x + "/" + a, glob) == Ok([x + "/" + a])
  {
    PathParts(x, a);
    OnlyDirAt(JoinStep(w, x), JoinStep(w, x), a);
    assert glob(x, a) == Names([a]);
    assert Found(x, [a]) == [x + "/" + a];
  }

  /** Two names in the relative directory x, searched from w: both found. */
  lemma TwoFromStart(w: string, x: string, a: string, b: string, glob: Glob)
    requires PlainRoot(x) && '/' !in a && '/' !in b
    requires forall dir, pattern :: glob(dir, pattern) == OnlyDir(JoinStep(w, x))(JoinStep(w, dir), pattern)
    ensures GlobAll([x + "/" + a, x + "/" + b], glob) == Ok([x + "/" + a, x + "/" + b])
  {
    var p, q := x + "/" + a, x + "/" + b;
    OneFromStart(w, x, a, glob);
    OneFromStart(w, x, b, glob);
    GlobAllCons(q, [], glob);
    assert GlobAll([], glob) == Ok([]);
    assert [q] + [] == [q];
    GlobAllCons(p, [q], glob);
    assert [p] + [q] == [p, q];
  }

  /** Entering x a second time from inside it misses: nothing more is found. */
  lemma SecondMisses(x: string, b: string, d: string)
    requires PlainRoot(x) && !StartsWith(x, "/") && '/' !in b
    ensures SearchFrom([x + "/" + b], OnlyDir(d), d) == Ok([])
  {
    PathParts(x, b);
    assert |JoinStep(d, x)| > |d|;
    OnlyDirAt(d, JoinStep(d, x), b);
    assert [x + "/" + b][1..] == [];
  }

  /** The same search as written: after entering x, the second lookup
      resolves x again from inside it. */
  lemma TwoAsWritten(w: string, x: string, a: string, b: string)
    requires PlainRoot(x) && !StartsWith(x, "/") && '/' !in a && '/' !in b
    ensures SearchFrom([x + "/" + a, x + "/" + b], OnlyDir(JoinStep(w, x)), w) == Ok([x + "/" + a])
  {
    var p, q := x + "/" + a, x + "/" + b;
    var d := JoinStep(w, x);
    PathParts(x, a);
    OnlyDirAt(d, d, a);
    SecondMisses(x, b, d);
    assert [p, q][1..] == [q];
    assert Found(x, [a]) == [p];
    assert [p] + [] == [p];
  }

  /** With a relative data root, two days of the same month share a
      directory x: the first `os.chdir` enters it, the second resolves x
      again from inside it and misses, so the second day's files are not
      reported although the directory holds them. */
  lemma RelativeRootMisses(w: string, x: string, a: string, b: string)
    requires PlainRoot(x) && !StartsWith(x, "/") && '/' !in a && '/' !in b
    ensures GlobAll([x + "/" + a, x + "/" + b], (dir: string, pattern: string) => OnlyDir(JoinStep(w, x))(JoinStep(w, dir), pattern))
      == Ok([x + "/" + a, x + "/" + b])
    ensures SearchFrom([x + "/" + a, x + "/" + b], OnlyDir(JoinStep(w, x)), w) == Ok([x + "/" + a])
  {
    TwoFromStart(w, x, a, b, (dir: string, pattern: string) => OnlyDir(JoinStep(w, x))(JoinStep(w, dir), pattern));
    TwoAsWritten(w, x, a, b);
  }

  /** `Local_FileNames(mirror)`: the files under the data root whose
      directory and name pattern construct_path gives for the selector and
      the searched days. With mirror the unset `mirror_root` attribute is an
      AttributeError. */
  function LocalFileNames(st: State, mirror: bool, today: DateTime, glob: Glob): Result<seq<string>>
    requires DateOk(st.startDate) && DateOk(st.endDate) && Valid(today)
  {
    if mirror then Err(AttributeError)
    else
      var dates :- SearchDates(st, today);
      var paths :- ConstructPath(st.sc, st.instr, st.mode, st.level, Strs(dates), st.optdesc, st.dataRoot, true);
      GlobAll(paths, glob)
  }

  /** Every value of an argument is a plain path component. */
  predicate PlainArg(a: Arg)
  {
    forall v :: v in Values(a) ==> PlainComponent(v)
  }

  /** The search pattern of a combination lies in the layout directory
      construct_path gives for it without `files`, and its name part is
      the file-name pattern. */
  lemma PatternDir(c: seq<string>, root: string)
    requires |c| >= 5 && PlainRoot(root)
    requires forall i :: 0 <= i < |c| ==> PlainComponent(c[i])
    requires |Last(c)| >= 8
    ensures Dirname(PathFor(c, root, true)) == PathFor(c, root, false)
    ensures Basename(PathFor(c, root, true)) == NamePattern(c)
  {
    var t := Last(c);
    var dirs := c[..|c| - 1] + [Slice(t, 0, 4), Slice(t, 4, 6)] + (if c[2] == "brst" then [Slice(t, 6, 8)] else []);
    assert PlainComponent(c[|c| - 1]);
    assert forall i :: 0 <= i < |dirs| ==> PlainComponent(dirs[i]) by {
      forall i | 0 <= i < |dirs| ensures PlainComponent(dirs[i]) {
        if i < |c| - 1 {
          assert dirs[i] == c[i];
        }
      }
    }
    var pat := NamePattern(c);
    NamePatternPlain(c);
    assert dirs + [] == dirs;
    var dir := PathJoin(root, dirs);
    assert PathFor(c, root, false) == dir;
    PathJoinPlainRoot(root, dirs);
    PathJoinSnoc(root, dirs, pat);
    assert pat[0] != '/';
    assert PathFor(c, root, true) == dir + "/" + pat;
    DirnameAfterSlash(dir, pat);
    BasenameAfterSlash(dir, pat);
  }

  /** The `%Y%m%d` text of a day is a plain eight-character component. */
  lemma CompactPlain(t: DateTime)
    ensures |Compact(t)| == 8 && PlainComponent(Compact(t))
  {
    var s := Compact(t);
    assert forall k :: 0 <= k < 8 ==> IsDigit(s[k]);
  }

  /** Every day Local_FileNames searches is a plain eight-character
      component. */
  lemma SearchedDaysPlain(st: State, today: DateTime)
    requires DateOk(st.startDate) && DateOk(st.endDate) && Valid(today)
    requires SearchDates(st, today).Ok?
    ensures forall d :: d in SearchDates(st, today).value ==> |d| == 8 && PlainComponent(d)
  {
    var dates := SearchDates(st, today).value;
    var s := if st.startDate.NoDate? then Moment(MissionStart) else st.startDate;
    var e := if st.endDate.NoDate? then Moment(today) else st.endDate;
    if s.Moment? && e.Moment? {
      DaysContents(s.t, e.t);
      forall d | d in dates ensures |d| == 8 && PlainComponent(d) {
        var k :| 0 <= k < |dates| && dates[k] == d;
        CompactPlain(AddDays(s.t, k));
      }
    }
  }

  /** c takes one value from each argument. */
  predicate Combo(args: seq<Arg>, c: seq<string>)
  {
    |c| == |args| && forall i :: 0 <= i < |args| ==> c[i] in Values(args[i])
  }

  /** A search over path patterns of plain combinations finds files only in
      the layout directory of a combination, with its pattern. */
  lemma PatternFilesLayout(args: seq<Arg>, paths: seq<string>, root: string, glob: Glob, x: string)
    requires |args| >= 5 && PlainRoot(root)
    requires forall c :: Combo(args, c) ==>
      |Last(c)| >= 8 && forall j :: 0 <= j < |c| ==> PlainComponent(c[j])
    requires forall p :: p in paths ==> exists c :: Combo(args, c) && p == PathFor(c, root, true)
    requires GlobAll(paths, glob).Ok? && x in GlobAll(paths, glob).value
    ensures exists c :: Combo(args, c) && Reports(glob, PathFor(c, root, false), NamePattern(c), x)
  {
    GlobAllMembers(paths, glob, x);
    var i :| 0 <= i < |paths| && Reports(glob, Dirname(paths[i]), Basename(paths[i]), x);
    var p := paths[i];
    assert p in paths;
    var c :| Combo(args, c) && p == PathFor(c, root, true);
    PatternDir(c, root);
    assert glob(PathFor(c, root, false), NamePattern(c)) == glob(Dirname(p), Basename(p));
  }

  /** A path construct_path gives is the path of one combination. */
  lemma PatternOf(sc: Arg, instr: Arg, mode: Arg, level: Arg, tstart: Arg, optdesc: Arg, root: string, p: string)
    requires ConstructPath(sc, instr, mode, level, tstart, optdesc, root, true).Ok?
    requires p in ConstructPath(sc, instr, mode, level, tstart, optdesc, root, true).value
    ensures var args := PathArgs(sc, instr, mode, level, tstart, optdesc);
      exists c :: |c| == |args| && (forall i :: 0 <= i < |args| ==> c[i] in Values(args[i])) &&
        p == PathFor(c, root, true)
  {
    ConstructPathMembers(sc, instr, mode, level, tstart, optdesc, root, true, p);
  }

  /** A combination of plain values and days is made of plain components and
      ends in a day. */
  lemma CombinationPlain(sc: Arg, instr: Arg, mode: Arg, level: Arg, dates: seq<string>, optdesc: Arg, c: seq<string>)
    requires PlainArg(sc) && PlainArg(instr) && PlainArg(mode) && PlainArg(level) && PlainArg(optdesc)
    requires forall d :: d in dates ==> |d| == 8 && PlainComponent(d)
    requires var args := PathArgs(sc, instr, mode, level, Strs(dates), optdesc);
      |c| == |args| && forall i :: 0 <= i < |args| ==> c[i] in Values(args[i])
    ensures |c| >= 5 && |Last(c)| >= 8
    ensures forall j :: 0 <= j < |c| ==> PlainComponent(c[j])
  {
    var args := PathArgs(sc, instr, mode, level, Strs(dates), optdesc);
    assert Last(args) == Strs(dates);
    assert Last(c) in dates;
    forall j | 0 <= j < |c| - 1 ensures PlainComponent(c[j]) {
      assert args[j] in [sc, instr, mode, level, optdesc];
    }
  }

  /** On plain selector values and data root, every file Local_FileNames
      reports is a name the search found, joined to the layout directory of
      one combination of the selector's values and a searched day, looked
      up with that combination's file-name pattern. */
  lemma LocalFilesLayout(st: State, today: DateTime, glob: Glob, x: string)
    requires DateOk(st.startDate) && DateOk(st.endDate) && Valid(today)
    requires LocalFileNames(st, false, today, glob).Ok? && x in LocalFileNames(st, false, today, glob).value
    requires PlainRoot(st.dataRoot)
    requires PlainArg(st.sc) && PlainArg(st.instr) && PlainArg(st.mode) && PlainArg(st.level) && PlainArg(st.optdesc)
    ensures SearchDates(st, today).Ok?
    ensures var args := PathArgs(st.sc, st.instr, st.mode, st.level, Strs(SearchDates(st, today).value), st.optdesc);
      exists c :: Combo(args, c) && Reports(glob, PathFor(c, st.dataRoot, false), NamePattern(c), x)
  {
    var dates := SearchDates(st, today).value;
    var args := PathArgs(st.sc, st.instr, st.mode, st.level, Strs(dates), st.optdesc);
    var paths := ConstructPath(st.sc, st.instr, st.mode, st.level, Strs(dates), st.optdesc, st.dataRoot, true).value;
    SearchedDaysPlain(st, today);
    forall c | Combo(args, c) ensures |Last(c)| >= 8 && forall j :: 0 <= j < |c| ==> PlainComponent(c[j]) {
      CombinationPlain(st.sc, st.instr, st.mode, st.level, dates, st.optdesc, c);
    }
    forall p | p in paths ensures exists c :: Combo(args, c) && p == PathFor(c, st.dataRoot, true) {
      PatternOf(st.sc, st.instr, st.mode, st.level, Strs(dates), st.optdesc, st.dataRoot, p);
    }
    PatternFilesLayout(args, paths, st.dataRoot, glob, x);
  }
}
