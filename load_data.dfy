/** `mms_load_data`: find, download, load and merge the files of a request.

    The scalar arguments are wrapped into lists; one SDC client is built
    for every (data type, level, descriptor) triple, in that nesting order,
    and each client's Download adds its local paths to one list; the list
    is sorted, every file is loaded, and the loads are merged. Nothing
    merged means None; otherwise the variables, optionally clipped to the
    time range, and the metadata are returned. The server, the transfers,
    the directory walk, the file reader and `load_cdf` are inputs. */
module LoadData {
  import opened Base
  import opened Strings
  import opened Dates
  import opened Dicts
  import opened MmsUtils
  import opened SdcClient
  import opened SdcApi
  import opened LoadDatafile
  import opened Merge
  import TimeClip

  // ---------------------------------------------------------------------
  // The request and the world
  // ---------------------------------------------------------------------

  /** The arguments of `mms_load_data` the model follows. The time range is
      given as the two datetimes the source parses it into. */
  datatype Request = Request(start: DateTime, end: DateTime, probe: Arg, dataRate: Arg, level: Arg,
                             instrument: Arg, dataType: Arg, ancProduct: Arg, descriptor: Arg,
                             prefix: string, suffix: string, timeClip: bool, noUpdate: bool,
                             dataRoot: Option<string>)

  /** What comes from outside: the server's replies to the file-names and
      file-info requests of a client (by the client's URL), each transfer's
      outcome, the current day, the local directory walk, the user's home,
      the lines of each ancillary file and `load_cdf`. */
  datatype World = World(names: string -> Exchange, info: string -> Exchange, transfer: string -> bool,
                         today: DateTime, glob: Glob, home: string, read: string -> seq<string>,
                         loadCdf: string -> Result<CdfData>)

  // ---------------------------------------------------------------------
  // Argument normalisation
  // ---------------------------------------------------------------------

  /** `if not isinstance(x, list): x = [x]`: a list's items, or the value
      alone (None too). */
  function AsList(a: Arg): (r: seq<Arg>)
    ensures a.Strs? ==> |r| == |a.items| && forall i :: 0 <= i < |r| ==> r[i] == Str(a.items[i])
    ensures !a.Strs? ==> r == [a]
  {
    if a.Strs? then seq(|a.items|, i requires 0 <= i < |a.items| => Str(a.items[i])) else [a]
  }

  /** `if not (isinstance(x, list) or x is None): x = [x]`, for probe and
      data_rate. */
  function Wrapped(a: Arg): (r: Arg)
    ensures a.Str? ==> r == Strs([a.s])
    ensures !a.Str? ==> r == a
  {
    if a.Str? then Strs([a.s]) else a
  }

  /** The probes: wrapped, then `['mms' + str(p) for p in probe]` when the
      list is not empty. */
  function Probes(a: Arg): (r: Arg)
    ensures a.Null? ==> r.Null?
    ensures a.Str? ==> r == Strs(["mms" + a.s])
    ensures a.Strs? ==>
      r.Strs? && |r.items| == |a.items| && forall i :: 0 <= i < |a.items| ==> r.items[i] == "mms" + a.items[i]
  {
    if a.Str? then Strs(["mms" + a.s])
    else if a.Strs? && |a.items| > 0 then Strs(seq(|a.items|, i requires 0 <= i < |a.items| => "mms" + a.items[i]))
    else a
  }

  /** The data type of one iteration: `len(dtype) == 0` makes it 'science';
      `len(None)` is a TypeError. */
  function DataTypeName(d: Arg): (r: Result<Arg>)
    ensures r.Err? <==> d.Null?
    ensures r.Err? ==> r.error == TypeError
    ensures r.Ok? ==> r.value == (if d == Str("") || d == Strs([]) then Str("science") else d)
  {
    if d.Null? then Err(TypeError)
    else if d == Str("") || d == Strs([]) then Ok(Str("science"))
    else Ok(d)
  }

  /** The normalised arguments every client of the loop shares, and the
      three lists it runs over. */
  datatype Plan = Plan(sc: Arg, instr: Arg, modes: Arg, dtypes: seq<Arg>, levels: seq<Arg>, descs: seq<Arg>,
                       ancProduct: Arg, dataRoot: Option<string>, startDate: string, endDate: string,
                       offline: bool)

  /** The argument normalisation of `mms_load_data` (lines 137-144) and
      its two `isoformat()` calls. */
  function PlanOf(req: Request): Plan
  {
    Plan(Probes(req.probe), req.instrument, Wrapped(req.dataRate), AsList(req.dataType), AsList(req.level),
         AsList(req.descriptor), req.ancProduct, req.dataRoot, IsoFormat(req.start), IsoFormat(req.end),
         req.noUpdate)
  }

  // ---------------------------------------------------------------------
  // The client loop, specified
  // ---------------------------------------------------------------------

  /** The selector of the client built for one triple: site 'public', the
      dates as ISO texts, no file list and no version; the data_type hook
      may refuse the data type. */
  function ClientState(plan: Plan, home: string, dname: Arg, lvl: Arg, desc: Arg): (r: Result<State>)
    ensures r.Err? <==> DataTypeFor(dname).Err?
    ensures r.Ok? ==> DateOk(r.value.startDate) && DateOk(r.value.endDate)
  {
    if DataTypeFor(dname).Err? then Err(DataTypeFor(dname).error)
    else
      var root := if plan.dataRoot.Some? then plan.dataRoot.value else PathJoin(home, ["data", "mms"]);
      InitialSelection(plan.sc, plan.instr, plan.modes, lvl, plan.ancProduct, dname.s, root,
                       DateValue.Text(plan.endDate), Null, plan.offline, desc, DateValue.Text(plan.startDate), Null);
      Ok(Initial(plan.sc, plan.instr, plan.modes, lvl, plan.ancProduct, dname.s, root,
                 DateValue.Text(plan.endDate), Null, plan.offline, desc, DateValue.Text(plan.startDate), Null))
  }

  /** What one client's `Download()` returns, `url()` being computed first
      for the log line; o is the order its time filters visit their groups. */
  function ClientResult(plan: Plan, w: World, existing: set<string>, dname: Arg, lvl: Arg, desc: Arg,
                        o: Orders): Result<seq<string>>
    requires Dates.Valid(w.today)
  {
    var st :- ClientState(plan, w.home, dname, lvl, desc);
    var url :- Url(st);
    DownloadOutcome(st, existing, w.names(url), w.info(url), w.transfer, w.today, w.glob, o).result
  }

  /** The files on disk after one client's `Download()`. */
  function ClientDisk(plan: Plan, w: World, existing: set<string>, dname: Arg, lvl: Arg, desc: Arg,
                      o: Orders): set<string>
    requires Dates.Valid(w.today)
  {
    var st := ClientState(plan, w.home, dname, lvl, desc);
    if st.Err? then existing
    else
      var url := Url(st.value);
      if url.Err? then existing
      else DownloadOutcome(st.value, existing, w.names(url.value), w.info(url.value), w.transfer, w.today,
                           w.glob, o).disk
  }

  /** Whether o are orders one client's time filters may visit their
      crafts in: none when the client is not built or has no URL, and
      otherwise the orders its Download's search allows. */
  predicate ClientOrdered(plan: Plan, w: World, existing: set<string>, dname: Arg, lvl: Arg, desc: Arg, o: Orders)
    requires Dates.Valid(w.today)
  {
    var st := ClientState(plan, w.home, dname, lvl, desc);
    if st.Err? || Url(st.value).Err? then o == Orders([], [], [])
    else
      var url := Url(st.value).value;
      OrdersOk(st.value.(infoType := "download"), w.names(url), existing, w.today, w.glob, o)
  }

  /** What Clients gives for a client that is built and has a URL. */
  lemma ClientBuilt(plan: Plan, w: World, existing: set<string>, t: Triple, o: Orders, st: State, url: string)
    requires Dates.Valid(w.today)
    requires ClientState(plan, w.home, t.0, t.1, t.2) == Ok(st) && Url(st) == Ok(url)
    ensures var out := DownloadOutcome(st, existing, w.names(url), w.info(url), w.transfer, w.today, w.glob, o);
      Clients(plan, w)(existing, t, o) ==
        (out.result, out.disk, OrdersOk(st.(infoType := "download"), w.names(url), existing, w.today, w.glob, o))
  {
  }

  /** A (data type, level, descriptor) triple a client is built for. */
  type Triple = (Arg, Arg, Arg)

  /** What one client does, given the files already on disk, its triple and
      the orders of its time filters: its result, the files on disk
      after it, and whether those orders are ones its filters allow. */
  type Runner = (set<string>, Triple, Orders) -> (Result<seq<string>>, set<string>, bool)

  /** The clients of one `mms_load_data` call. */
  function Clients(plan: Plan, w: World): Runner
    requires Dates.Valid(w.today)
  {
    (disk: set<string>, t: Triple, o: Orders) =>
      (ClientResult(plan, w, disk, t.0, t.1, t.2, o), ClientDisk(plan, w, disk, t.0, t.1, t.2, o),
       ClientOrdered(plan, w, disk, t.0, t.1, t.2, o))
  }

  /** The loop's state: the collected paths or the error that ended the
      loop, the files on disk, and (for the specification only) the triples
      a client was built for, in order, and whether every client so far ran
      its filters in orders they allow. */
  datatype Gathered = Gathered(files: Result<seq<string>>, disk: set<string>, visited: seq<Triple>, ordered: bool)

  /** One client: built, asked for its URL and told to download; its paths
      extend the list. An earlier failure ends the loop. */
  function ClientStep(g: Gathered, run: Runner, t: Triple, o: Orders): Gathered
  {
    if g.files.Err? then g
    else
      var got := run(g.disk, t, o);
      Gathered(if got.0.Ok? then Ok(g.files.value + got.0.value) else Err(got.0.error), got.1, g.visited + [t],
               g.ordered && got.2)
  }

  /** The descriptor loop after |os| iterations, os holding each client's
      orders. */
  function DescsUpTo(g: Gathered, run: Runner, dname: Arg, lvl: Arg, descs: seq<Arg>, os: seq<Orders>): Gathered
    requires |os| <= |descs|
  {
    if |os| == 0 then g
    else
      var k := |os| - 1;
      ClientStep(DescsUpTo(g, run, dname, lvl, descs, os[..k]), run, (dname, lvl, descs[k]), os[k])
  }

  /** The level loop after |os| iterations. */
  function LevelsUpTo(g: Gathered, run: Runner, dname: Arg, levels: seq<Arg>, descs: seq<Arg>,
                      os: seq<seq<Orders>>): Gathered
    requires |os| <= |levels|
    requires forall j :: 0 <= j < |os| ==> |os[j]| <= |descs|
  {
    if |os| == 0 then g
    else
      var j := |os| - 1;
      DescsUpTo(LevelsUpTo(g, run, dname, levels, descs, os[..j]), run, dname, levels[j], descs, os[j])
  }

  /** The data type loop after |os| iterations: each data type is checked
      before its levels run. */
  function DtypesUpTo(g: Gathered, run: Runner, dtypes: seq<Arg>, levels: seq<Arg>, descs: seq<Arg>,
                      os: seq<seq<seq<Orders>>>): Gathered
    requires |os| <= |dtypes|
    requires forall i :: 0 <= i < |os| ==> |os[i]| <= |levels|
    requires forall i, j :: 0 <= i < |os| && 0 <= j < |os[i]| ==> |os[i][j]| <= |descs|
  {
    if |os| == 0 then g
    else
      var i := |os| - 1;
      var prev := DtypesUpTo(g, run, dtypes, levels, descs, os[..i]);
      var name := DataTypeName(dtypes[i]);
      if prev.files.Err? then prev
      else if name.Err? then prev.(files := Err(name.error))
      else LevelsUpTo(prev, run, name.value, levels, descs, os[i])
  }

  /** One more pass of the descriptor loop runs one more client. */
  lemma DescsSnoc(g: Gathered, run: Runner, dname: Arg, lvl: Arg, descs: seq<Arg>, os: seq<Orders>, o: Orders)
    requires |os| < |descs|
    ensures DescsUpTo(g, run, dname, lvl, descs, os + [o]) ==
      ClientStep(DescsUpTo(g, run, dname, lvl, descs, os), run, (dname, lvl, descs[|os|]), o)
  {
    assert (os + [o])[..|os|] == os;
  }

  /** One more pass of the level loop runs the descriptor loop after the
      passes before it. */
  lemma LevelsSnoc(g: Gathered, run: Runner, dname: Arg, levels: seq<Arg>, descs: seq<Arg>,
                   os: seq<seq<Orders>>, o: seq<Orders>)
    requires |os| < |levels| && |o| <= |descs|
    requires forall j :: 0 <= j < |os| ==> |os[j]| <= |descs|
    ensures forall j :: 0 <= j < |os + [o]| ==> |(os + [o])[j]| <= |descs|
    ensures LevelsUpTo(g, run, dname, levels, descs, os + [o]) ==
      DescsUpTo(LevelsUpTo(g, run, dname, levels, descs, os), run, dname, levels[|os|], descs, o)
  {
    assert (os + [o])[..|os|] == os;
  }

  /** One more pass of the data type loop checks the next data type and,
      when its name is good, runs the level loop after the passes before
      it. */
  lemma DtypesSnoc(g: Gathered, run: Runner, dtypes: seq<Arg>, levels: seq<Arg>, descs: seq<Arg>,
                   os: seq<seq<seq<Orders>>>, o: seq<seq<Orders>>)
    requires Fits(dtypes, levels, descs, os) && |os| < |dtypes|
    requires |o| <= |levels| && forall j :: 0 <= j < |o| ==> |o[j]| <= |descs|
    ensures Fits(dtypes, levels, descs, os + [o])
    ensures var prev := DtypesUpTo(g, run, dtypes, levels, descs, os);
      var name := DataTypeName(dtypes[|os|]);
      DtypesUpTo(g, run, dtypes, levels, descs, os + [o]) ==
        if prev.files.Err? then prev
        else if name.Err? then prev.(files := Err(name.error))
        else LevelsUpTo(prev, run, name.value, levels, descs, o)
  {
    assert (os + [o])[..|os|] == os;
  }

  /** Every loop ran to its end. */
  predicate Complete(dtypes: seq<Arg>, levels: seq<Arg>, descs: seq<Arg>, os: seq<seq<seq<Orders>>>)
  {
    |os| == |dtypes| &&
    (forall i :: 0 <= i < |os| ==> |os[i]| == |levels|) &&
    (forall i, j :: 0 <= i < |os| && 0 <= j < |os[i]| ==> |os[i][j]| == |descs|)
  }

  /** One more complete pass of the data type loop keeps every loop run to
      its end. */
  lemma CompleteSnoc(dtypes: seq<Arg>, levels: seq<Arg>, descs: seq<Arg>, os: seq<seq<seq<Orders>>>,
                     o: seq<seq<Orders>>)
    requires |os| < |dtypes| && Complete(dtypes[..|os|], levels, descs, os)
    requires |o| == |levels| && forall j :: 0 <= j < |o| ==> |o[j]| == |descs|
    ensures Complete(dtypes[..|os| + 1], levels, descs, os + [o])
  {
  }

  /** No loop ran past its end. */
  predicate Fits(dtypes: seq<Arg>, levels: seq<Arg>, descs: seq<Arg>, os: seq<seq<seq<Orders>>>)
  {
    |os| <= |dtypes| &&
    (forall i :: 0 <= i < |os| ==> |os[i]| <= |levels|) &&
    (forall i, j :: 0 <= i < |os| && 0 <= j < |os[i]| ==> |os[i][j]| <= |descs|)
  }

  /** The client loop of a plan, started with no paths on the disk given;
      os holds the orders of its clients' time filters. */
  function Gather(plan: Plan, w: World, disk: set<string>, os: seq<seq<seq<Orders>>>): Gathered
    requires Dates.Valid(w.today) && Fits(plan.dtypes, plan.levels, plan.descs, os)
  {
    DtypesUpTo(Gathered(Ok([]), disk, [], true), Clients(plan, w), plan.dtypes, plan.levels, plan.descs, os)
  }

  // ---------------------------------------------------------------------
  // Which clients the loop builds
  // ---------------------------------------------------------------------

  /** The triples for one data type, one level and its first k
      descriptors, after those already in acc. */
  function RowFrom(acc: seq<Triple>, dname: Arg, lvl: Arg, descs: seq<Arg>, k: nat): seq<Triple>
    requires k <= |descs|
  {
    if k == 0 then acc else RowFrom(acc, dname, lvl, descs, k - 1) + [(dname, lvl, descs[k - 1])]
  }

  /** The triples for one data type and its first n levels, after those
      already in acc. */
  function RowsFrom(acc: seq<Triple>, dname: Arg, levels: seq<Arg>, descs: seq<Arg>, n: nat): seq<Triple>
    requires n <= |levels|
  {
    if n == 0 then acc
    else RowFrom(RowsFrom(acc, dname, levels, descs, n - 1), dname, levels[n - 1], descs, |descs|)
  }

  /** The triples for the first n data types, each under its loop name,
      after those already in acc. */
  function TriplesFrom(acc: seq<Triple>, dtypes: seq<Arg>, levels: seq<Arg>, descs: seq<Arg>, n: nat): seq<Triple>
    requires n <= |dtypes|
  {
    if n == 0 then acc
    else
      var before := TriplesFrom(acc, dtypes, levels, descs, n - 1);
      var name := DataTypeName(dtypes[n - 1]);
      if name.Ok? then RowsFrom(before, name.value, levels, descs, |levels|) else before
  }

  lemma {:induction false} RowSize(acc: seq<Triple>, dname: Arg, lvl: Arg, descs: seq<Arg>, k: nat)
    requires k <= |descs|
    ensures |RowFrom(acc, dname, lvl, descs, k)| == |acc| + k
  {
    if k > 0 {
      RowSize(acc, dname, lvl, descs, k - 1);
    }
  }

  lemma {:induction false} RowsSize(acc: seq<Triple>, dname: Arg, levels: seq<Arg>, descs: seq<Arg>, n: nat)
    requires n <= |levels|
    ensures |RowsFrom(acc, dname, levels, descs, n)| == |acc| + n * |descs|
  {
    if n > 0 {
      RowsSize(acc, dname, levels, descs, n - 1);
      RowSize(RowsFrom(acc, dname, levels, descs, n - 1), dname, levels[n - 1], descs, |descs|);
      assert (n - 1) * |descs| + |descs| == n * |descs|;
    }
  }

  /** The number of clients: the product of the three list lengths. */
  lemma {:induction false} TriplesSize(acc: seq<Triple>, dtypes: seq<Arg>, levels: seq<Arg>, descs: seq<Arg>, n: nat)
    requires n <= |dtypes| && forall i :: 0 <= i < n ==> DataTypeName(dtypes[i]).Ok?
    ensures |TriplesFrom(acc, dtypes, levels, descs, n)| == |acc| + n * (|levels| * |descs|)
  {
    if n > 0 {
      TriplesSize(acc, dtypes, levels, descs, n - 1);
      RowsSize(TriplesFrom(acc, dtypes, levels, descs, n - 1), DataTypeName(dtypes[n - 1]).value, levels, descs,
               |levels|);
      assert (n - 1) * (|levels| * |descs|) + |levels| * |descs| == n * (|levels| * |descs|);
    }
  }

  /** A run that did not fail built one client per remaining descriptor,
      in order. */
  lemma {:induction false} DescsVisit(g: Gathered, run: Runner, dname: Arg, lvl: Arg, descs: seq<Arg>,
                                      os: seq<Orders>)
    requires |os| <= |descs|
    requires DescsUpTo(g, run, dname, lvl, descs, os).files.Ok?
    ensures g.files.Ok?
    ensures DescsUpTo(g, run, dname, lvl, descs, os).visited == RowFrom(g.visited, dname, lvl, descs, |os|)
  {
    if |os| > 0 {
      DescsVisit(g, run, dname, lvl, descs, os[..|os| - 1]);
    }
  }

  /** A run that did not fail and went through every descriptor built one
      client per level and descriptor, level by level. */
  lemma {:induction false} LevelsVisit(g: Gathered, run: Runner, dname: Arg, levels: seq<Arg>, descs: seq<Arg>,
                                       os: seq<seq<Orders>>)
    requires |os| <= |levels|
    requires forall j :: 0 <= j < |os| ==> |os[j]| == |descs|
    requires LevelsUpTo(g, run, dname, levels, descs, os).files.Ok?
    ensures g.files.Ok?
    ensures LevelsUpTo(g, run, dname, levels, descs, os).visited == RowsFrom(g.visited, dname, levels, descs, |os|)
  {
    if |os| > 0 {
      var j := |os| - 1;
      DescsVisit(LevelsUpTo(g, run, dname, levels, descs, os[..j]), run, dname, levels[j], descs, os[j]);
      LevelsVisit(g, run, dname, levels, descs, os[..j]);
    }
  }

  /** The last data type of a run that did not fail had a good name and
      ran its level loop after a run that did not fail either. */
  lemma DtypesStep(g: Gathered, run: Runner, dtypes: seq<Arg>, levels: seq<Arg>, descs: seq<Arg>,
                   os: seq<seq<seq<Orders>>>)
    requires 0 < |os| <= |dtypes|
    requires forall i :: 0 <= i < |os| ==> |os[i]| <= |levels|
    requires forall i, j :: 0 <= i < |os| && 0 <= j < |os[i]| ==> |os[i][j]| <= |descs|
    requires DtypesUpTo(g, run, dtypes, levels, descs, os).files.Ok?
    ensures DtypesUpTo(g, run, dtypes, levels, descs, os[..|os| - 1]).files.Ok?
    ensures DataTypeName(dtypes[|os| - 1]).Ok?
    ensures DtypesUpTo(g, run, dtypes, levels, descs, os) ==
      LevelsUpTo(DtypesUpTo(g, run, dtypes, levels, descs, os[..|os| - 1]), run,
                 DataTypeName(dtypes[|os| - 1]).value, levels, descs, os[|os| - 1])
  {
  }

  /** In a run that did not fail every data type visited had a good name. */
  lemma {:induction false} DtypesNamed(g: Gathered, run: Runner, dtypes: seq<Arg>, levels: seq<Arg>,
                                       descs: seq<Arg>, os: seq<seq<seq<Orders>>>, i: nat)
    requires i < |os| <= |dtypes|
    requires forall i :: 0 <= i < |os| ==> |os[i]| <= |levels|
    requires forall i, j :: 0 <= i < |os| && 0 <= j < |os[i]| ==> |os[i][j]| <= |descs|
    requires DtypesUpTo(g, run, dtypes, levels, descs, os).files.Ok?
    ensures DataTypeName(dtypes[i]).Ok?
    decreases |os|
  {
    DtypesStep(g, run, dtypes, levels, descs, os);
    if i < |os| - 1 {
      DtypesNamed(g, run, dtypes, levels, descs, os[..|os| - 1], i);
    }
  }

  /** A run that did not fail and went through every level and descriptor
      built exactly one client per (data type, level, descriptor) triple:
      data types outermost, then levels, then descriptors, each data type
      under its loop name. */
  lemma {:induction false} DtypesVisit(g: Gathered, run: Runner, dtypes: seq<Arg>, levels: seq<Arg>,
                                       descs: seq<Arg>, os: seq<seq<seq<Orders>>>)
    requires |os| <= |dtypes|
    requires forall i :: 0 <= i < |os| ==> |os[i]| == |levels|
    requires forall i, j :: 0 <= i < |os| && 0 <= j < |os[i]| ==> |os[i][j]| == |descs|
    requires DtypesUpTo(g, run, dtypes, levels, descs, os).files.Ok?
    ensures g.files.Ok?
    ensures DtypesUpTo(g, run, dtypes, levels, descs, os).visited == TriplesFrom(g.visited, dtypes, levels, descs, |os|)
  {
    if |os| > 0 {
      var i := |os| - 1;
      var prev := DtypesUpTo(g, run, dtypes, levels, descs, os[..i]);
      DtypesStep(g, run, dtypes, levels, descs, os);
      DtypesVisit(g, run, dtypes, levels, descs, os[..i]);
      LevelsVisit(prev, run, DataTypeName(dtypes[i]).value, levels, descs, os[i]);
    }
  }

  /** A complete loop that did not fail built one client per triple of
      the three lists, |dtypes| * |levels| * |descs| clients in all. */
  lemma GatherVisits(plan: Plan, w: World, disk: set<string>, os: seq<seq<seq<Orders>>>)
    requires Dates.Valid(w.today) && Complete(plan.dtypes, plan.levels, plan.descs, os)
    requires Gather(plan, w, disk, os).files.Ok?
    ensures Gather(plan, w, disk, os).visited == TriplesFrom([], plan.dtypes, plan.levels, plan.descs, |os|)
    ensures |Gather(plan, w, disk, os).visited| == |plan.dtypes| * (|plan.levels| * |plan.descs|)
  {
    var g := Gathered(Ok([]), disk, [], true);
    DtypesVisit(g, Clients(plan, w), plan.dtypes, plan.levels, plan.descs, os);
    forall i | 0 <= i < |os|
      ensures DataTypeName(plan.dtypes[i]).Ok?
    {
      DtypesNamed(g, Clients(plan, w), plan.dtypes, plan.levels, plan.descs, os, i);
    }
    TriplesSize([], plan.dtypes, plan.levels, plan.descs, |os|);
  }

  // ---------------------------------------------------------------------
  // Sorting, loading, merging and clipping
  // ---------------------------------------------------------------------

  /** `p.map(partial(load_datafile, ...), out_files)`: one load per path,
      in order; a failed load surfaces when the merge loop reaches it. */
  function LoadAll(files: seq<string>, req: Request, w: World): (r: seq<Result<Loaded>>)
    ensures |r| == |files|
    ensures forall i :: 0 <= i < |files| ==>
      r[i] == LoadDatafile.LoadDatafile(Str(files[i]), w.read, w.loadCdf, req.prefix, req.suffix)
  {
    seq(|files|, i requires 0 <= i < |files| => LoadDatafile.LoadDatafile(Str(files[i]), w.read, w.loadCdf, req.prefix, req.suffix))
  }

  /** What `mms_load_data` returns once the clients gave their paths: the
      paths are sorted, loaded and merged; no variables or no metadata
      means None; otherwise the variables, clipped to the request's range
      when asked, and the metadata. */
  function Finish(req: Request, w: World, files: seq<string>): Result<Option<(Dict<Dataset>, Dict<Meta>)>>
    requires Valid(req.start) && Valid(req.end)
  {
    var loads := LoadAll(Strings.Sort(files), req, w);
    var merged :- MergeAll(loads);
    if Len(merged.vars) == 0 || Len(merged.metas) == 0 then Ok(None)
    else if !req.timeClip then Ok(Some((merged.vars, merged.metas)))
    else
      var clipped := TimeClip.TimeClipStatus(merged.vars, TimeClip.Moment(req.start), TimeClip.Moment(req.end));
      if clipped.Err? then Err(clipped.error)
      else Ok(Some((TimeClip.TimeClipResult(merged.vars, TimeClip.Moment(req.start), TimeClip.Moment(req.end)),
                    merged.metas)))
  }


  /** The result does not depend on the order in which the clients
      returned their paths, only on which paths (with repetitions) they
      returned: `sorted` puts any arrangement in the same order. */
  lemma FinishOrderFree(req: Request, w: World, a: seq<string>, b: seq<string>)
    requires Valid(req.start) && Valid(req.end)
    requires multiset(a) == multiset(b)
    ensures Finish(req, w, a) == Finish(req, w, b)
  {
    AscendingUnique(Strings.Sort(a), Strings.Sort(b));
  }

  /** The merge tail of `mms_load_data` (lines 279-300): None exactly when the merge left no variables or no
      metadata; otherwise the merged metadata, and the merged variables
      under the same names in the same order, unchanged unless clipping
      was asked for. */
  lemma FinishShape(req: Request, w: World, files: seq<string>)
    requires Valid(req.start) && Valid(req.end)
    ensures var loads := LoadAll(Strings.Sort(files), req, w);
      var merged := MergeAll(loads);
      var r := Finish(req, w, files);
      (r.Err? ==> merged.Err? || req.timeClip) &&
      (r == Ok(None) <==> merged.Ok? && (Len(merged.value.vars) == 0 || Len(merged.value.metas) == 0)) &&
      (r.Ok? && r.value.Some? ==>
         merged.Ok? && r.value.value.1 == merged.value.metas && r.value.value.0.keys == merged.value.vars.keys &&
         (!req.timeClip ==> r.value.value.0 == merged.value.vars))
  {
    var loads := LoadAll(Strings.Sort(files), req, w);
    var merged := MergeAll(loads);
    if merged.Ok? && Len(merged.value.vars) > 0 && req.timeClip {
      var lo := TimeClip.Timestamp(TimeClip.Moment(req.start));
      var hi := TimeClip.Timestamp(TimeClip.Moment(req.end));
      TimeClip.ClipEntry(merged.value.vars, lo.value, hi.value, 0);
    }
  }

  // ---------------------------------------------------------------------
  // The loop itself
  // ---------------------------------------------------------------------

  /** One pass of the client loop of `mms_load_data` (lines 179-193): the client is built with site
      'public', its URL computed and its Download run. */
  method RunClient(plan: Plan, w: World, disk: Disk, t: Triple) returns (r: Result<seq<string>>, ghost o: Orders)
    requires Dates.Valid(w.today)
    modifies disk
    ensures r == Clients(plan, w)(old(disk.files), t, o).0
    ensures disk.files == Clients(plan, w)(old(disk.files), t, o).1
    ensures Clients(plan, w)(old(disk.files), t, o).2
  {
    o := Orders([], [], []);
    var made := Client.New(plan.sc, plan.instr, plan.modes, t.1, plan.ancProduct, t.0, plan.dataRoot,
                           DateValue.Text(plan.endDate), Null, plan.offline, t.2, Str("public"),
                           DateValue.Text(plan.startDate), Null, w.home);
    if made.Err? {
      return Err(made.error), o;
    }
    var c := made.value;
    var url := Url(c.attrs);
    if url.Err? {
      return Err(url.error), o;
    }
    ghost var st := c.attrs;
    ghost var before := disk.files;
    r, o := c.Download(disk, w.names(url.value), w.info(url.value), w.transfer, w.today, w.glob);
    ClientBuilt(plan, w, before, t, o, st, url.value);
  }


  /** The descriptor loop of `mms_load_data` (lines 178-193) for one data type and level,
      after a run g that collected files. */
  method RunDescs(plan: Plan, w: World, disk: Disk, dname: Arg, lvl: Arg, files: seq<string>, ghost g: Gathered)
    returns (r: Result<seq<string>>, ghost os: seq<Orders>)
    requires Dates.Valid(w.today) && g.files == Ok(files) && g.disk == disk.files
    modifies disk
    ensures |os| <= |plan.descs| && (r.Ok? ==> |os| == |plan.descs|)
    ensures r == DescsUpTo(g, Clients(plan, w), dname, lvl, plan.descs, os).files
    ensures disk.files == DescsUpTo(g, Clients(plan, w), dname, lvl, plan.descs, os).disk
    ensures DescsUpTo(g, Clients(plan, w), dname, lvl, plan.descs, os).ordered == g.ordered
  {
    var run := Clients(plan, w);
    os := [];
    var out := files;
    for k := 0 to |plan.descs|
      invariant |os| == k
      invariant DescsUpTo(g, run, dname, lvl, plan.descs, os).files == Ok(out)
      invariant DescsUpTo(g, run, dname, lvl, plan.descs, os).disk == disk.files
      invariant DescsUpTo(g, run, dname, lvl, plan.descs, os).ordered == g.ordered
    {
      var got, o := RunClient(plan, w, disk, (dname, lvl, plan.descs[k]));
      DescsSnoc(g, run, dname, lvl, plan.descs, os, o);
      os := os + [o];
      if got.Err? {
        return Err(got.error), os;
      }
      out := out + got.value;
    }
    r := Ok(out);
  }


  /** The level loop of `mms_load_data` (lines 177-193) for one data type, after a run g that
      collected files. */
  method RunLevels(plan: Plan, w: World, disk: Disk, dname: Arg, files: seq<string>, ghost g: Gathered)
    returns (r: Result<seq<string>>, ghost os: seq<seq<Orders>>)
    requires Dates.Valid(w.today) && g.files == Ok(files) && g.disk == disk.files
    modifies disk
    ensures |os| <= |plan.levels| && forall j :: 0 <= j < |os| ==> |os[j]| <= |plan.descs|
    ensures r.Ok? ==> |os| == |plan.levels| && forall j :: 0 <= j < |os| ==> |os[j]| == |plan.descs|
    ensures r == LevelsUpTo(g, Clients(plan, w), dname, plan.levels, plan.descs, os).files
    ensures disk.files == LevelsUpTo(g, Clients(plan, w), dname, plan.levels, plan.descs, os).disk
    ensures LevelsUpTo(g, Clients(plan, w), dname, plan.levels, plan.descs, os).ordered == g.ordered
  {
    var run := Clients(plan, w);
    os := [];
    var out := files;
    for j := 0 to |plan.levels|
      invariant |os| == j && forall i :: 0 <= i < j ==> |os[i]| == |plan.descs|
      invariant LevelsUpTo(g, run, dname, plan.levels, plan.descs, os).files == Ok(out)
      invariant LevelsUpTo(g, run, dname, plan.levels, plan.descs, os).disk == disk.files
      invariant LevelsUpTo(g, run, dname, plan.levels, plan.descs, os).ordered == g.ordered
    {
      ghost var before := LevelsUpTo(g, run, dname, plan.levels, plan.descs, os);
      var got;
      ghost var o;
      got, o := RunDescs(plan, w, disk, dname, plan.levels[j], out, before);
      LevelsSnoc(g, run, dname, plan.levels, plan.descs, os, o);
      os := os + [o];
      if got.Err? {
        return got, os;
      }
      out := got.value;
    }
    r := Ok(out);
  }

  /** The data type loop of `mms_load_data` (lines 174-193): each data type is checked, then
      its levels run. */
  method RunAll(plan: Plan, w: World, disk: Disk) returns (r: Result<seq<string>>, ghost os: seq<seq<seq<Orders>>>)
    requires Dates.Valid(w.today)
    modifies disk
    ensures Fits(plan.dtypes, plan.levels, plan.descs, os)
    ensures r.Ok? ==> Complete(plan.dtypes, plan.levels, plan.descs, os)
    ensures r == Gather(plan, w, old(disk.files), os).files
    ensures disk.files == Gather(plan, w, old(disk.files), os).disk
    ensures Gather(plan, w, old(disk.files), os).ordered
  {
    var run := Clients(plan, w);
    ghost var g := Gathered(Ok([]), disk.files, [], true);
    os := [];
    var out := [];
    for i := 0 to |plan.dtypes|
      invariant Complete(plan.dtypes[..i], plan.levels, plan.descs, os)
      invariant DtypesUpTo(g, run, plan.dtypes, plan.levels, plan.descs, os).files == Ok(out)
      invariant DtypesUpTo(g, run, plan.dtypes, plan.levels, plan.descs, os).disk == disk.files
      invariant DtypesUpTo(g, run, plan.dtypes, plan.levels, plan.descs, os).ordered
    {
      ghost var before := DtypesUpTo(g, run, plan.dtypes, plan.levels, plan.descs, os);
      var name := DataTypeName(plan.dtypes[i]);
      if name.Err? {
        DtypesSnoc(g, run, plan.dtypes, plan.levels, plan.descs, os, []);
        os := os + [[]];
        return Err(name.error), os;
      }
      var got;
      ghost var o;
      got, o := RunLevels(plan, w, disk, name.value, out, before);
      DtypesSnoc(g, run, plan.dtypes, plan.levels, plan.descs, os, o);
      if got.Err? {
        os := os + [o];
        return got, os;
      }
      CompleteSnoc(plan.dtypes, plan.levels, plan.descs, os, o);
      os := os + [o];
      out := got.value;
    }
    r := Ok(out);
  }


  // ---------------------------------------------------------------------
  // mms_load_data
  // ---------------------------------------------------------------------

  /** What `mms_load_data` returns for a request, the disk holding the
      paths given at first and os being the orders of the clients' time
      filters. */
  function LoadOutcome(req: Request, w: World, disk: set<string>, os: seq<seq<seq<Orders>>>)
    : Result<Option<(Dict<Dataset>, Dict<Meta>)>>
    requires Valid(req.start) && Valid(req.end) && Dates.Valid(w.today)
    requires Fits(PlanOf(req).dtypes, PlanOf(req).levels, PlanOf(req).descs, os)
  {
    var gathered := Gather(PlanOf(req), w, disk, os);
    if gathered.files.Err? then Err(gathered.files.error) else Finish(req, w, gathered.files.value)
  }

  /** `mms_load_data(trange, ...)` with trange already read as two
      datetimes: the arguments are normalised, the clients download,
      the paths are sorted, loaded and merged, and the variables clipped
      in place when asked. */
  method MmsLoadData(req: Request, w: World, disk: Disk)
    returns (r: Result<Option<(Dict<Dataset>, Dict<Meta>)>>, ghost os: seq<seq<seq<Orders>>>)
    requires Valid(req.start) && Valid(req.end) && Dates.Valid(w.today)
    modifies disk
    ensures Fits(PlanOf(req).dtypes, PlanOf(req).levels, PlanOf(req).descs, os)
    ensures r == LoadOutcome(req, w, old(disk.files), os)
    ensures r.Ok? ==> Complete(PlanOf(req).dtypes, PlanOf(req).levels, PlanOf(req).descs, os)
    ensures disk.files == Gather(PlanOf(req), w, old(disk.files), os).disk
    ensures Gather(PlanOf(req), w, old(disk.files), os).ordered
  {
    var plan := PlanOf(req);
    var files;
    files, os := RunAll(plan, w, disk);
    if files.Err? {
      return Err(files.error), os;
    }
    var loads := LoadAll(Strings.Sort(files.value), req, w);
    var merged := MergeLoads(loads);
    if merged.Err? {
      return Err(merged.error), os;
    }
    if Len(merged.value.vars) == 0 || Len(merged.value.metas) == 0 {
      return Ok(None), os;
    }
    var vars := merged.value.vars;
    if req.timeClip {
      var data := new TimeClip.DataDict(vars);
      var clipped := data.TimeClip(TimeClip.Moment(req.start), TimeClip.Moment(req.end));
      if clipped.Err? {
        return Err(clipped.error), os;
      }
      vars := data.sets;
    }
    r := Ok(Some((vars, merged.value.metas)));
  }

}
