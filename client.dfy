/** The `MMS_SDC_API_CLIENT` object itself: its attributes, the hooks that
    run when they are assigned, the log-in retry of `check_response`, and the
    operations that change it — `Search` and `Download`, which swaps in an
    explicit file list and puts the old attributes back.

    The SDC, the disk and the clock are inputs. An `Exchange` is what the
    SDC answers to one request (the first reply and the replies to the
    re-requests after each log-in); a `Disk` holds the set of paths that
    exist; `transfer` says for every file name whether streaming it to disk
    succeeds; a `Glob` answers directory searches; `today` is the clock. */
module SdcApi {
  import opened Base
  import opened Strings
  import opened Dates
  import opened MmsUtils
  import opened SdcClient

  // ---------------------------------------------------------------------
  // Replies of the SDC and check_response
  // ---------------------------------------------------------------------

  /** One HTTP reply: its status, its text, and the `file_name` of every
      entry of the `files` list of its JSON body. */
  datatype Response = Response(status: int, text: string, fileNames: seq<string>)

  /** `response.ok` of requests: no client or server error status. */
  predicate Succeeded(r: Response)
  {
    r.status < 400
  }

  /** How the SDC answers one request: the first reply, and the reply to the
      k-th request remade after the k-th log-in. */
  datatype Exchange = Exchange(reply: Response, retry: nat -> Response)

  /** check_response logs in at most this many times. */
  const MaxAttempts: nat := 3

  /** The first attempt from k on (up to MaxAttempts) whose reply succeeds. */
  function FirstSuccess(retry: nat -> Response, k: nat): (r: Option<nat>)
    requires 1 <= k
    ensures r.Some? ==> (k <= r.value <= MaxAttempts && Succeeded(retry(r.value)) &&
                         forall j :: k <= j < r.value ==> !Succeeded(retry(j)))
    ensures r.None? ==> forall j :: k <= j <= MaxAttempts ==> !Succeeded(retry(j))
    decreases MaxAttempts + 1 - k
  {
    if k > MaxAttempts then None
    else if Succeeded(retry(k)) then Some(k)
    else FirstSuccess(retry, k + 1)
  }

  /** What check_response returns for a reply: a 200 reply itself; for 401
      the first successful reply among at most three log-in attempts, or a
      ConnectionError ('Failed log-in.'); for any other status a
      ConnectionError. */
  function CheckOutcome(response: Response, retry: nat -> Response): Result<Response>
  {
    if response.status == 200 then Ok(response)
    else if response.status == 401 then
      match FirstSuccess(retry, 1)
      case Some(k) => Ok(retry(k))
      case None => Err(ConnectionError)
    else Err(ConnectionError)
  }

  /** check_response succeeds exactly on a 200 reply, or on a 401 reply when
      one of the first three re-requests succeeds; what it then returns is a
      successful reply, and every failure is a ConnectionError. */
  lemma CheckOutcomeCases(response: Response, retry: nat -> Response)
    ensures CheckOutcome(response, retry).Ok? <==>
      response.status == 200 ||
      (response.status == 401 && exists k :: 1 <= k <= MaxAttempts && Succeeded(retry(k)))
    ensures CheckOutcome(response, retry).Ok? ==> Succeeded(CheckOutcome(response, retry).value)
    ensures CheckOutcome(response, retry).Err? ==> CheckOutcome(response, retry).error == ConnectionError
  {
    var f := FirstSuccess(retry, 1);
    if response.status == 401 && f.None? {
      assert forall k :: 1 <= k <= MaxAttempts ==> !Succeeded(retry(k));
    }
  }

  /** `Get()`: the query is built first (its errors propagate); a reply that
      is not ok goes through check_response. */
  function GetResult(st: State, ex: Exchange): Result<Response>
  {
    var query :- Query(st);
    if Succeeded(ex.reply) then Ok(ex.reply) else CheckOutcome(ex.reply, ex.retry)
  }

  // ---------------------------------------------------------------------
  // The attribute hooks, on the selector's state
  // ---------------------------------------------------------------------

  /** `self.level = v`: the level hook derives the site first. */
  function AssignLevel(st: State, v: Arg): State
  {
    st.(site := LevelSite(v), level := v)
  }

  /** `self.files = v`: a value other than None first sets sc, instr, mode,
      level (and so the site), optdesc and version to None. */
  function AssignFiles(st: State, v: Arg): State
  {
    if v.Null? then st.(files := v)
    else st.(sc := Null, instr := Null, mode := Null, site := LevelSite(Null), level := Null,
             optdesc := Null, version := Null, files := v)
  }

  /** Assigning a file list, even an empty one, leaves the selector "by
      file list" only: the six attribute fields are None and the site is
      public; assigning None changes `files` alone. Nothing else moves. */
  lemma AssignFilesClears(st: State, v: Arg)
    ensures var r := AssignFiles(st, v);
      r.files == v &&
      r.dataType == st.dataType && r.ancProduct == st.ancProduct &&
      r.startDate == st.startDate && r.endDate == st.endDate &&
      r.offline == st.offline && r.dataRoot == st.dataRoot && r.infoType == st.infoType
    ensures !v.Null? ==> var r := AssignFiles(st, v);
      r.sc == r.instr == r.mode == r.level == r.optdesc == r.version == Null && r.site == "public"
    ensures v.Null? ==> AssignFiles(st, v) == st.(files := Null)
  {
  }

  /** The attributes Download saves and puts back, in the order of its
      `state` dictionary. */
  datatype Field = ScField | InstrField | ModeField | LevelField | OptdescField | VersionField | FilesField

  const SavedFields: seq<Field> :=
    [ScField, InstrField, ModeField, LevelField, OptdescField, VersionField, FilesField]

  /** `setattr(self, key, v)` for one of the saved attributes, hooks
      included. */
  function SetAttr(st: State, f: Field, v: Arg): State
  {
    match f
    case ScField => st.(sc := v)
    case InstrField => st.(instr := v)
    case ModeField => st.(mode := v)
    case LevelField => AssignLevel(st, v)
    case OptdescField => st.(optdesc := v)
    case VersionField => st.(version := v)
    case FilesField => AssignFiles(st, v)
  }

  /** The saved attributes of a selector. */
  datatype Snapshot = Snapshot(sc: Arg, instr: Arg, mode: Arg, level: Arg, optdesc: Arg, version: Arg, files: Arg)
  {
    function Get(f: Field): Arg
    {
      match f
      case ScField => sc
      case InstrField => instr
      case ModeField => mode
      case LevelField => level
      case OptdescField => optdesc
      case VersionField => version
      case FilesField => files
    }
  }

  function SnapshotOf(st: State): Snapshot
  {
    Snapshot(st.sc, st.instr, st.mode, st.level, st.optdesc, st.version, st.files)
  }

  /** The first n rounds of Download's restore loop: `self.files = None`,
      then the saved value of the n-th key. */
  function RestoreSteps(st: State, snap: Snapshot, n: nat): State
    requires n <= |SavedFields|
  {
    if n == 0 then st
    else
      var f := SavedFields[n - 1];
      SetAttr(SetAttr(RestoreSteps(st, snap, n - 1), FilesField, Null), f, snap.Get(f))
  }

  /** The state the restore loop leaves: the six attributes saved, the site
      their level derives, then the saved file list assigned (with its
      hook). */
  function Restored(st: State, snap: Snapshot): State
  {
    var attrs := st.(sc := snap.sc, instr := snap.instr, mode := snap.mode,
                     level := snap.level, site := LevelSite(snap.level),
                     optdesc := snap.optdesc, version := snap.version, files := Null);
    AssignFiles(attrs, snap.files)
  }

  /** Running the whole restore loop gives Restored, whatever the state it
      starts from. */
  lemma RestoreLoopResult(st: State, snap: Snapshot)
    ensures RestoreSteps(st, snap, |SavedFields|) == Restored(st, snap)
  {
    var s0 := st.(files := Null);
    assert RestoreSteps(st, snap, 1) == s0.(sc := snap.sc);
    assert RestoreSteps(st, snap, 2) == s0.(sc := snap.sc, instr := snap.instr);
    assert RestoreSteps(st, snap, 3) == s0.(sc := snap.sc, instr := snap.instr, mode := snap.mode);
    var s4 := s0.(sc := snap.sc, instr := snap.instr, mode := snap.mode,
                  level := snap.level, site := LevelSite(snap.level));
    assert RestoreSteps(st, snap, 4) == s4;
    assert RestoreSteps(st, snap, 5) == s4.(optdesc := snap.optdesc);
    assert RestoreSteps(st, snap, 6) == s4.(optdesc := snap.optdesc, version := snap.version);
  }

  /** After the restore, a selector that was chosen by attributes (no file
      list) has its sc, instr, mode, level, optdesc, version and files back,
      and the site its level derives, not necessarily the site it had; one
      that had a file list gets the file list back with the six attributes
      None and the public site. Fields the loop does not touch are kept from
      the state it starts in. */
  lemma RestoreRecovers(before: State, st: State)
    ensures var r := Restored(st, SnapshotOf(before));
      r.files == before.files &&
      r.dataType == st.dataType && r.ancProduct == st.ancProduct &&
      r.startDate == st.startDate && r.endDate == st.endDate &&
      r.offline == st.offline && r.dataRoot == st.dataRoot && r.infoType == st.infoType
    ensures before.files.Null? ==> var r := Restored(st, SnapshotOf(before));
      r.sc == before.sc && r.instr == before.instr && r.mode == before.mode &&
      r.level == before.level && r.optdesc == before.optdesc && r.version == before.version &&
      r.site == LevelSite(before.level)
    ensures !before.files.Null? ==> var r := Restored(st, SnapshotOf(before));
      r.sc == r.instr == r.mode == r.level == r.optdesc == r.version == Null && r.site == "public"
  {
    var snap := SnapshotOf(before);
    var attrs := st.(sc := snap.sc, instr := snap.instr, mode := snap.mode,
                     level := snap.level, site := LevelSite(snap.level),
                     optdesc := snap.optdesc, version := snap.version, files := Null);
    AssignFilesClears(attrs, snap.files);
  }

  /** The site Download keeps after a restore can differ from the site it
      started with: an explicitly chosen SITL site for level-2 data comes
      back public. */
  lemma RestoreResetsSite(st: State)
    requires st.files.Null? && st.level == Str("l2") && st.site == "sitl"
    ensures Restored(st, SnapshotOf(st)).site == "public"
    ensures Restored(st, SnapshotOf(st)) != st
  {
  }

  // ---------------------------------------------------------------------
  // Search, specified on the selector's state
  // ---------------------------------------------------------------------

  /** The order in which each filter_time call of a search visits its set of
      (spacecraft, instrument) pairs: on the SDC listing, on the local list
      and on the remote list. */
  datatype Orders = Orders(names: seq<Craft>, local: seq<Craft>, remote: seq<Craft>)

  /** filter_time over a list with the selector's start and end dates. */
  function FilterBy(st: State, files: seq<string>, order: seq<Craft>): Result<seq<string>>
  {
    FilterTimeResult(files, DateText(st.startDate), DateText(st.endDate), order)
  }

  /** `FileNames()`: an empty reply text is no file; otherwise the
      comma-separated names, time filtered. */
  function FileNamesResult(st: State, ex: Exchange, order: seq<Craft>): Result<seq<string>>
  {
    var response :- GetResult(st, ex);
    if response.text == "" then Ok([]) else FilterBy(st, Split(response.text, ','), order)
  }

  /** Search's time filter: applied to a list only when it is not empty. */
  function FilterNonEmpty(st: State, files: seq<string>, order: seq<Craft>): Result<seq<string>>
  {
    if |files| > 0 then FilterBy(st, files, order) else Ok(files)
  }

  /** The two lists Search has before its time filters: offline, the local
      search and nothing remote; online, the SDC listing split by whether
      its local path exists. */
  function SearchSplit(st: State, names: Exchange, existing: set<string>, today: DateTime,
                       glob: Glob, order: seq<Craft>): Result<(seq<string>, seq<string>)>
    requires DateOk(st.startDate) && DateOk(st.endDate) && Dates.Valid(today)
  {
    if st.offline then
      var local :- LocalFileNames(st, false, today, glob);
      Ok((local, []))
    else
      var remote :- FileNamesResult(st, names, order);
      Ok(Presence(st.dataRoot, remote, existing))
  }

  /** `Search()`: the split, then each list time filtered. */
  function SearchResult(st: State, names: Exchange, existing: set<string>, today: DateTime,
                        glob: Glob, o: Orders): Result<(seq<string>, seq<string>)>
    requires DateOk(st.startDate) && DateOk(st.endDate) && Dates.Valid(today)
  {
    var split :- SearchSplit(st, names, existing, today, glob, o.names);
    var local :- FilterNonEmpty(st, split.0, o.local);
    var remote :- FilterNonEmpty(st, split.1, o.remote);
    Ok((local, remote))
  }

  /** The order Search's filter of a list visits its crafts in, as
      filter_time promises it for that list. */
  predicate ListOrder(st: State, files: seq<string>, order: seq<Craft>)
  {
    VisitOrder(files, order, FilterBy(st, files, order))
  }

  /** The names of the SDC's file-names reply: none for an empty text,
      the comma-separated names otherwise. */
  function ListedNames(st: State, ex: Exchange): (r: seq<string>)
    ensures GetResult(st, ex).Err? ==> r == []
  {
    var response := GetResult(st, ex);
    if response.Ok? && response.value.text != "" then Split(response.value.text, ',') else []
  }

  /** FileNames' order: the one of its filter over the listed names, when
      the reply lists any. */
  predicate NamesOrder(st: State, ex: Exchange, order: seq<Craft>)
  {
    ListedNames(st, ex) != [] ==> ListOrder(st, ListedNames(st, ex), order)
  }

  /** The orders of one search, each the order of a filter that ran:
      online, the listing's; then the local list's, when it is not empty;
      then, once the local filter succeeded, the remote list's, when it is
      not empty. */
  predicate OrdersOk(st: State, names: Exchange, existing: set<string>, today: DateTime, glob: Glob, o: Orders)
    requires DateOk(st.startDate) && DateOk(st.endDate) && Dates.Valid(today)
  {
    (!st.offline ==> NamesOrder(st, names, o.names)) &&
    var split := SearchSplit(st, names, existing, today, glob, o.names);
    split.Ok? ==>
      (|split.value.0| > 0 ==> ListOrder(st, split.value.0, o.local)) &&
      (FilterNonEmpty(st, split.value.0, o.local).Ok? && |split.value.1| > 0 ==>
         ListOrder(st, split.value.1, o.remote))
  }

  /** A successful filter of a non-empty list in an order filter_time
      allows keeps every name of the list starting inside the window. */
  lemma FilterNonEmptyKeeps(st: State, files: seq<string>, order: seq<Craft>, f: string)
    requires ListOrder(st, files, order) && FilterNonEmpty(st, files, order).Ok? && f in files
    ensures ArgTime(DateText(st.startDate)).Ok? && ArgTime(DateText(st.endDate)).Ok?
    ensures StartsFrom(f, ArgTime(DateText(st.startDate)).value) && StartsBy(f, ArgTime(DateText(st.endDate)).value) ==>
      f in FilterNonEmpty(st, files, order).value
  {
    FilterTimeKeeps(files, DateText(st.startDate), DateText(st.endDate), order);
  }

  /** What a successful filter of a non-empty list keeps: names of the
      list only, each starting no later than the end date. */
  lemma FilterNonEmptyWithin(st: State, files: seq<string>, order: seq<Craft>, f: string)
    requires FilterNonEmpty(st, files, order).Ok?
    requires f in FilterNonEmpty(st, files, order).value
    ensures f in files
    ensures |files| > 0 ==> StartsBy(f, ArgTime(DateText(st.endDate)).value)
  {
    if |files| > 0 {
      var start := ArgTime(DateText(st.startDate)).value;
      var end := ArgTime(DateText(st.endDate)).value;
      var i :| 0 <= i < |order| && GroupResult(files, start, end, order[i]).Ok? &&
        f in GroupResult(files, start, end, order[i]).value;
      FilterGroupWindow(Group(files, order[i]), start, end);
    }
  }

  /** What Search finds: offline, nothing remote; online, local files whose
      paths exist and remote names whose local path does not, all of them
      from the SDC listing. */
  lemma SearchFinds(st: State, names: Exchange, existing: set<string>, today: DateTime, glob: Glob, o: Orders)
    requires DateOk(st.startDate) && DateOk(st.endDate) && Dates.Valid(today)
    requires SearchResult(st, names, existing, today, glob, o).Ok?
    ensures st.offline ==> SearchResult(st, names, existing, today, glob, o).value.1 == []
    ensures !st.offline ==> FileNamesResult(st, names, o.names).Ok?
    ensures !st.offline ==>
      var remote := FileNamesResult(st, names, o.names).value;
      var r := SearchResult(st, names, existing, today, glob, o).value;
      (forall x :: x in r.0 ==> x in existing && exists i :: 0 <= i < |remote| && x == LocalName(st.dataRoot, remote[i])) &&
      (forall f :: f in r.1 ==> f in remote && LocalName(st.dataRoot, f) !in existing)
  {
    var s := SearchSplit(st, names, existing, today, glob, o.names).value;
    var r := SearchResult(st, names, existing, today, glob, o).value;
    forall x | x in r.0 ensures x in s.0 {
      FilterNonEmptyWithin(st, s.0, o.local, x);
    }
    forall f | f in r.1 ensures f in s.1 {
      FilterNonEmptyWithin(st, s.1, o.remote, f);
    }
    if !st.offline {
      var remote := FileNamesResult(st, names, o.names).value;
      PresenceSplit(st.dataRoot, remote, existing);
      forall f | f in r.1 ensures f in remote && LocalName(st.dataRoot, f) !in existing {
        var i :| 0 <= i < |remote| && f == remote[i] && LocalName(st.dataRoot, remote[i]) !in existing;
      }
    }
  }

  /** What Search keeps, whatever order its filters visit their crafts
      in. Offline, every local file starting inside the window. Online,
      every listed name starting inside the window: as a remote name when
      its local name does not exist, and as its local name when that
      exists and starts inside the window too. A name found at all means
      both dates were readable. */
  lemma SearchKeeps(st: State, names: Exchange, existing: set<string>, today: DateTime, glob: Glob, o: Orders)
    requires DateOk(st.startDate) && DateOk(st.endDate) && Dates.Valid(today)
    requires OrdersOk(st, names, existing, today, glob, o)
    requires SearchResult(st, names, existing, today, glob, o).Ok?
    ensures var found := if st.offline then LocalFileNames(st, false, today, glob).value else ListedNames(st, names);
      found != [] ==> ArgTime(DateText(st.startDate)).Ok? && ArgTime(DateText(st.endDate)).Ok?
    ensures ArgTime(DateText(st.startDate)).Ok? && ArgTime(DateText(st.endDate)).Ok? ==>
      var start := ArgTime(DateText(st.startDate)).value;
      var end := ArgTime(DateText(st.endDate)).value;
      var r := SearchResult(st, names, existing, today, glob, o).value;
      (st.offline ==> forall x :: (x in LocalFileNames(st, false, today, glob).value &&
         StartsFrom(x, start) && StartsBy(x, end)) ==> x in r.0) &&
      (!st.offline ==> forall f :: f in ListedNames(st, names) && StartsFrom(f, start) && StartsBy(f, end) ==>
         (LocalName(st.dataRoot, f) !in existing ==> f in r.1) &&
         ((LocalName(st.dataRoot, f) in existing && StartsFrom(LocalName(st.dataRoot, f), start) &&
           StartsBy(LocalName(st.dataRoot, f), end)) ==> LocalName(st.dataRoot, f) in r.0))
  {
    forall x | st.offline && x in LocalFileNames(st, false, today, glob).value
      ensures ArgTime(DateText(st.startDate)).Ok? && ArgTime(DateText(st.endDate)).Ok?
      ensures StartsFrom(x, ArgTime(DateText(st.startDate)).value) && StartsBy(x, ArgTime(DateText(st.endDate)).value) ==>
        x in SearchResult(st, names, existing, today, glob, o).value.0
    {
      LocalKept(st, names, existing, today, glob, o, x);
    }
    forall f | !st.offline && f in ListedNames(st, names)
      ensures ArgTime(DateText(st.startDate)).Ok? && ArgTime(DateText(st.endDate)).Ok?
      ensures StartsFrom(f, ArgTime(DateText(st.startDate)).value) && StartsBy(f, ArgTime(DateText(st.endDate)).value) ==>
        (LocalName(st.dataRoot, f) !in existing ==> f in SearchResult(st, names, existing, today, glob, o).value.1) &&
        ((LocalName(st.dataRoot, f) in existing && StartsFrom(LocalName(st.dataRoot, f), ArgTime(DateText(st.startDate)).value) &&
          StartsBy(LocalName(st.dataRoot, f), ArgTime(DateText(st.endDate)).value)) ==>
         LocalName(st.dataRoot, f) in SearchResult(st, names, existing, today, glob, o).value.0)
    {
      ListedKept(st, names, existing, today, glob, o, f);
    }
  }

  /** SearchKeeps for one local file of an offline search. */
  lemma LocalKept(st: State, names: Exchange, existing: set<string>, today: DateTime, glob: Glob, o: Orders, x: string)
    requires DateOk(st.startDate) && DateOk(st.endDate) && Dates.Valid(today)
    requires OrdersOk(st, names, existing, today, glob, o)
    requires SearchResult(st, names, existing, today, glob, o).Ok?
    requires st.offline && x in LocalFileNames(st, false, today, glob).value
    ensures ArgTime(DateText(st.startDate)).Ok? && ArgTime(DateText(st.endDate)).Ok?
    ensures StartsFrom(x, ArgTime(DateText(st.startDate)).value) && StartsBy(x, ArgTime(DateText(st.endDate)).value) ==>
      x in SearchResult(st, names, existing, today, glob, o).value.0
  {
    var s := SearchSplit(st, names, existing, today, glob, o.names).value;
    assert s.0 == LocalFileNames(st, false, today, glob).value;
    FilterNonEmptyKeeps(st, s.0, o.local, x);
  }

  /** SearchKeeps for one listed name of an online search. */
  lemma ListedKept(st: State, names: Exchange, existing: set<string>, today: DateTime, glob: Glob, o: Orders, f: string)
    requires DateOk(st.startDate) && DateOk(st.endDate) && Dates.Valid(today)
    requires OrdersOk(st, names, existing, today, glob, o)
    requires SearchResult(st, names, existing, today, glob, o).Ok?
    requires !st.offline && f in ListedNames(st, names)
    ensures ArgTime(DateText(st.startDate)).Ok? && ArgTime(DateText(st.endDate)).Ok?
    ensures StartsFrom(f, ArgTime(DateText(st.startDate)).value) && StartsBy(f, ArgTime(DateText(st.endDate)).value) ==>
      (LocalName(st.dataRoot, f) !in existing ==> f in SearchResult(st, names, existing, today, glob, o).value.1) &&
      ((LocalName(st.dataRoot, f) in existing && StartsFrom(LocalName(st.dataRoot, f), ArgTime(DateText(st.startDate)).value) &&
        StartsBy(LocalName(st.dataRoot, f), ArgTime(DateText(st.endDate)).value)) ==>
       LocalName(st.dataRoot, f) in SearchResult(st, names, existing, today, glob, o).value.0)
  {
    var listed := ListedNames(st, names);
    var remote := FileNamesResult(st, names, o.names).value;
    var s := SearchSplit(st, names, existing, today, glob, o.names).value;
    assert FileNamesResult(st, names, o.names) == FilterBy(st, listed, o.names);
    assert s == Presence(st.dataRoot, remote, existing);
    FilterNonEmptyKeeps(st, listed, o.names, f);
    var start := ArgTime(DateText(st.startDate)).value;
    var end := ArgTime(DateText(st.endDate)).value;
    if StartsFrom(f, start) && StartsBy(f, end) {
      PresenceSplit(st.dataRoot, remote, existing);
      var i :| 0 <= i < |remote| && remote[i] == f;
      if LocalName(st.dataRoot, f) !in existing {
        assert f in s.1;
        FilterNonEmptyKeeps(st, s.1, o.remote, f);
      } else {
        assert LocalName(st.dataRoot, f) in s.0;
        FilterNonEmptyKeeps(st, s.0, o.local, LocalName(st.dataRoot, f));
      }
    }
  }

  // ---------------------------------------------------------------------
  // Downloading files
  // ---------------------------------------------------------------------

  const SdcHome: string := "https://lasp.colorado.edu/mms/sdc"

  /** The request URL sans query: SDC home, site, 'files/api/v1', the type
      of information and the data type. */
  function BaseUrl(st: State): string
  {
    Join([SdcHome, st.site, "files", "api", "v1", st.infoType, st.dataType], "/")
  }

  /** `url()`: the base URL and '?', then `key=value&` for every query
      pair. */
  function Url(st: State): Result<string>
  {
    var q :- Query(st);
    Ok(BaseUrl(st) + "?" + QueryText(q))
  }

  function QueryText(q: seq<(string, string)>): string
  {
    if |q| == 0 then "" else q[0].0 + "=" + q[0].1 + "&" + QueryText(q[1..])
  }

  /** Where DownloadFile writes a file: the ancillary layout when the
      download URL mentions 'ancillary', the science layout otherwise. */
  function DestinationOf(root: string, url: string, name: string): Result<string>
  {
    if Contains(url, "ancillary") then Ok(AncillaryName2Path(root, name)) else Name2Path(root, name)
  }

  /** What DownloadFile returns: the destination, or the error of the path
      computation, or the transfer's failure. */
  function Fetched(root: string, url: string, name: string, delivered: bool): Result<string>
  {
    var path :- DestinationOf(root, url, name);
    if delivered then Ok(path) else Err(DownloadError)
  }

  /** The paths on disk after DownloadFile: a delivered file is there, a
      failed one is removed (even if it was there before). */
  function AfterFetch(existing: set<string>, root: string, url: string, name: string, delivered: bool): set<string>
  {
    var path := DestinationOf(root, url, name);
    if path.Err? then existing
    else if delivered then existing + {path.value}
    else existing - {path.value}
  }

  /** The disk after every file of the list has been tried, in order. */
  function AfterFetches(existing: set<string>, root: string, url: string, names: seq<string>,
                        transfer: string -> bool): set<string>
  {
    if |names| == 0 then existing
    else
      var n := Last(names);
      AfterFetch(AfterFetches(existing, root, url, names[..|names| - 1], transfer), root, url, n, transfer(n))
  }

  /** What DownloadFile returns for each file of the list, in order. */
  function Attempts(root: string, url: string, names: seq<string>, transfer: string -> bool)
    : (r: seq<Result<string>>)
    ensures |r| == |names|
    ensures forall k :: 0 <= k < |names| ==> r[k] == Fetched(root, url, names[k], transfer(names[k]))
  {
    seq(|names|, k requires 0 <= k < |names| => Fetched(root, url, names[k], transfer(names[k])))
  }

  /** Trying one more file of the list adds its result and acts on the
      disk the earlier ones left. */
  lemma FetchStep(existing: set<string>, root: string, url: string, names: seq<string>,
                  transfer: string -> bool, i: nat)
    requires i < |names|
    ensures Attempts(root, url, names[..i + 1], transfer) ==
      Attempts(root, url, names[..i], transfer) + [Fetched(root, url, names[i], transfer(names[i]))]
    ensures AfterFetches(existing, root, url, names[..i + 1], transfer) ==
      AfterFetch(AfterFetches(existing, root, url, names[..i], transfer), root, url, names[i], transfer(names[i]))
  {
    assert names[..i + 1][..i] == names[..i];
  }

  /** When every file is delivered, the disk gains exactly the returned
      paths and loses nothing. */
  lemma {:induction false} FetchesAllDelivered(existing: set<string>, root: string, url: string,
                                               names: seq<string>, transfer: string -> bool)
    requires MapAll((n: string) => Fetched(root, url, n, transfer(n)), names).Ok?
    ensures var paths := MapAll((n: string) => Fetched(root, url, n, transfer(n)), names).value;
      AfterFetches(existing, root, url, names, transfer) == existing + set p | p in paths
    decreases |names|
  {
    var f := (n: string) => Fetched(root, url, n, transfer(n));
    if |names| > 0 {
      var init := names[..|names| - 1];
      MapAllSnoc(f, names);
      FetchesAllDelivered(existing, root, url, init, transfer);
      SetOfSnoc(MapAll(f, init).value, f(Last(names)).value);
    }
  }

  /** The elements of a sequence with one more at the end. */
  lemma SetOfSnoc(ps: seq<string>, x: string)
    ensures (set p | p in ps + [x]) == (set p | p in ps) + {x}
  {
  }

  /** A file whose transfer fails is not on disk afterwards unless a later
      file of the list is written to the same path. */
  lemma {:induction false} FailedFetchRemoved(existing: set<string>, root: string, url: string,
                                             names: seq<string>, transfer: string -> bool, k: nat)
    requires k < |names| && !transfer(names[k]) && DestinationOf(root, url, names[k]).Ok?
    requires forall j :: k < j < |names| ==> DestinationOf(root, url, names[j]) != DestinationOf(root, url, names[k])
    ensures DestinationOf(root, url, names[k]).value !in AfterFetches(existing, root, url, names, transfer)
    decreases |names|
  {
    var init := names[..|names| - 1];
    if k < |names| - 1 {
      assert init[k] == names[k];
      FailedFetchRemoved(existing, root, url, init, transfer, k);
    }
  }

  /** The paths that exist: `os.path.isfile` and the files DownloadFile
      writes and removes. */
  class Disk {
    var files: set<string>

    constructor (files: set<string>)
      ensures this.files == files
    {
      this.files := files;
    }
  }

  /** The selector a new client holds: the level's site, then the file
      list assigned last. */
  function Initial(sc: Arg, instr: Arg, mode: Arg, level: Arg, ancProduct: Arg, dataType: string,
                   dataRoot: string, endDate: DateValue, files: Arg, offline: bool, optdesc: Arg,
                   startDate: DateValue, version: Arg): State
    requires DateOk(startDate) && DateOk(endDate)
  {
    AssignFiles(State(LevelSite(level), dataType, ancProduct, sc, instr, mode, level, optdesc, version, Null,
                      StoredDate(startDate), StoredDate(endDate), offline, dataRoot, "download"),
                files)
  }

  /** A new client's selection: with no file list, the attributes given and
      the site their level derives (the site argument only has to be valid);
      with a file list, only the list and the public site. The dates are
      stored as their setters read them. */
  lemma InitialSelection(sc: Arg, instr: Arg, mode: Arg, level: Arg, ancProduct: Arg, dataType: string,
                         dataRoot: string, endDate: DateValue, files: Arg, offline: bool, optdesc: Arg,
                         startDate: DateValue, version: Arg)
    requires DateOk(startDate) && DateOk(endDate)
    ensures var st := Initial(sc, instr, mode, level, ancProduct, dataType, dataRoot, endDate, files,
                              offline, optdesc, startDate, version);
      st.site in {"sitl", "public"} && st.dataType == dataType && st.ancProduct == ancProduct &&
      st.files == files && st.offline == offline && st.dataRoot == dataRoot && st.infoType == "download" &&
      DateOk(st.startDate) && DateOk(st.endDate) &&
      st.startDate == StoredDate(startDate) && st.endDate == StoredDate(endDate)
    ensures var st := Initial(sc, instr, mode, level, ancProduct, dataType, dataRoot, endDate, files,
                              offline, optdesc, startDate, version);
      files.Null? ==>
        st.sc == sc && st.instr == instr && st.mode == mode && st.level == level &&
        st.optdesc == optdesc && st.version == version && st.site == LevelSite(level)
    ensures var st := Initial(sc, instr, mode, level, ancProduct, dataType, dataRoot, endDate, files,
                              offline, optdesc, startDate, version);
      !files.Null? ==>
        st.sc == Null && st.instr == Null && st.mode == Null && st.level == Null &&
        st.optdesc == Null && st.version == Null && st.site == "public"
  {
  }

  // ---------------------------------------------------------------------
  // The client object
  // ---------------------------------------------------------------------

  /** The client object. Its attributes live in `attrs`, the instance's
      attribute dictionary: every assignment to an attribute goes through
      the hooks of `__setattr__` and the property setters, modelled by the
      Set... methods below, and replaces the dictionary's entry. */
  class Client {
    var attrs: State

    /** The hooks keep site and data_type among their accepted values, and
        the date setters store only real datetimes. */
    ghost predicate Valid()
      reads this
    {
      attrs.site in {"sitl", "public"} && attrs.dataType in DataTypes &&
      DateOk(attrs.startDate) && DateOk(attrs.endDate)
    }

    /** The object before `__init__` assigns its attributes. */
    constructor Blank()
      ensures Valid()
      ensures attrs == State("public", "science", Null, Null, Null, Null, Null, Null, Null, Null,
                             NoDate, NoDate, false, "", "download")
    {
      attrs := State("public", "science", Null, Null, Null, Null, Null, Null, Null, Null,
                     NoDate, NoDate, false, "", "download");
    }

    /** `MMS_SDC_API_CLIENT(...)`: the attributes are assigned in the order
        of `__init__`, through the hooks; a bad site or data type raises. A
        missing data root is `home/data/mms`. */
    static method New(sc: Arg, instr: Arg, mode: Arg, level: Arg, ancProduct: Arg, dataType: Arg,
                      dataRoot: Option<string>, endDate: DateValue, files: Arg, offline: bool,
                      optdesc: Arg, site: Arg, startDate: DateValue, version: Arg, home: string)
      returns (r: Result<Client>)
      requires DateOk(startDate) && DateOk(endDate)
      ensures r.Ok? <==> SiteFor(site).Ok? && DataTypeFor(dataType).Ok?
      ensures r.Err? ==> r.error == (if SiteFor(site).Err? then ValueError else DataTypeFor(dataType).error)
      ensures r.Ok? ==> fresh(r.value) && r.value.Valid()
      ensures r.Ok? ==> (r.value.attrs ==
                           Initial(sc, instr, mode, level, ancProduct, dataType.s,
                                   if dataRoot.Some? then dataRoot.value else PathJoin(home, ["data", "mms"]),
                                   endDate, files, offline, optdesc, startDate, version))
    {
      var c := new Client.Blank();
      var ok := c.SetSite(site);
      if ok.Err? {
        return Err(ok.error);
      }
      c.SetAncProduct(ancProduct);
      ok := c.SetDataType(dataType);
      if ok.Err? {
        return Err(ok.error);
      }
      var root := if dataRoot.Some? then dataRoot.value else PathJoin(home, ["data", "mms"]);
      c.Configure(endDate, instr, level, mode, offline, optdesc, sc, startDate, version, files, root);
      InitialSelection(sc, instr, mode, level, ancProduct, dataType.s, root, endDate, files, offline, optdesc,
                       startDate, version);
      r := Ok(c);
    }

    /** The rest of `__init__` once site, anc_product and data_type are set:
        end_date, instr, level, mode, offline, optdesc, sc, start_date,
        version and files in this order, then the data root and the type of
        information. */
    method Configure(endDate: DateValue, instr: Arg, level: Arg, mode: Arg, offline: bool, optdesc: Arg,
                     sc: Arg, startDate: DateValue, version: Arg, files: Arg, dataRoot: string)
      requires DateOk(startDate) && DateOk(endDate) && attrs.files.Null?
      modifies this
      ensures attrs == Initial(sc, instr, mode, level, old(attrs).ancProduct, old(attrs).dataType, dataRoot,
                               endDate, files, offline, optdesc, startDate, version)
    {
      SetEndDate(endDate);
      SetField(InstrField, instr);
      SetField(LevelField, level);
      SetField(ModeField, mode);
      SetOffline(offline);
      SetField(OptdescField, optdesc);
      SetField(ScField, sc);
      SetStartDate(startDate);
      SetField(VersionField, version);
      SetField(FilesField, files);
      SetDataRoot(dataRoot);
      attrs := attrs.(infoType := "download");
    }

    /** The site setter. */
    method SetSite(v: Arg) returns (r: Result<()>)
      modifies this
      ensures r.Ok? <==> SiteFor(v).Ok?
      ensures r.Err? ==> r.error == ValueError && attrs == old(attrs)
      ensures r.Ok? ==> attrs == old(attrs).(site := SiteFor(v).value)
    {
      var s := SiteFor(v);
      if s.Err? {
        return Err(s.error);
      }
      attrs := attrs.(site := s.value);
      r := Ok(());
    }

    /** `self.data_type = v`: checked against ancillary, hk, science. */
    method SetDataType(v: Arg) returns (r: Result<()>)
      modifies this
      ensures r.Ok? <==> v.Str? && v.s in DataTypes
      ensures r.Err? ==> r.error == DataTypeFor(v).error && attrs == old(attrs)
      ensures r.Ok? ==> attrs == old(attrs).(dataType := v.s)
    {
      var d := DataTypeFor(v);
      if d.Err? {
        return Err(d.error);
      }
      attrs := attrs.(dataType := d.value);
      r := Ok(());
    }

    /** `self.anc_product = v`: whatever v is, even None, the data type
        becomes 'ancillary' first. */
    method SetAncProduct(v: Arg)
      modifies this
      ensures attrs == old(attrs).(dataType := "ancillary", ancProduct := v)
    {
      var ok := SetDataType(Str("ancillary"));
      attrs := attrs.(ancProduct := v);
    }

    /** `self.level = v`: the site follows the level (through the site
        setter, with 'public' or 'private'). */
    method SetLevel(v: Arg)
      modifies this
      ensures attrs == AssignLevel(old(attrs), v)
    {
      var ok := SetSite(Str(if v in {Null, Str("l2"), Str("l3")} then "public" else "private"));
      attrs := attrs.(level := v);
    }

    /** `self.files = v`: a file list first clears the other selection
        attributes, level through its own hook. */
    method SetFiles(v: Arg)
      modifies this
      ensures attrs == AssignFiles(old(attrs), v)
    {
      if !v.Null? {
        attrs := attrs.(sc := Null, instr := Null, mode := Null);
        SetLevel(Null);
        attrs := attrs.(optdesc := Null, version := Null);
      }
      attrs := attrs.(files := v);
    }

    /** The start_date setter. */
    method SetStartDate(v: DateValue)
      requires DateOk(v)
      modifies this
      ensures attrs == old(attrs).(startDate := StoredDate(v))
    {
      attrs := attrs.(startDate := StoredDate(v));
    }

    /** The end_date setter. */
    method SetEndDate(v: DateValue)
      requires DateOk(v)
      modifies this
      ensures attrs == old(attrs).(endDate := StoredDate(v))
    {
      attrs := attrs.(endDate := StoredDate(v));
    }

    /** `self.offline = v`: no hook. */
    method SetOffline(v: bool)
      modifies this
      ensures attrs == old(attrs).(offline := v)
    {
      attrs := attrs.(offline := v);
    }

    /** `self.data_root = v`: no hook. */
    method SetDataRoot(v: string)
      modifies this
      ensures attrs == old(attrs).(dataRoot := v)
    {
      attrs := attrs.(dataRoot := v);
    }

    /** `setattr(self, key, v)` for a key of Download's saved state. */
    method SetField(f: Field, v: Arg)
      modifies this
      ensures attrs == SetAttr(old(attrs), f, v)
    {
      match f
      case ScField => attrs := attrs.(sc := v);
      case InstrField => attrs := attrs.(instr := v);
      case ModeField => attrs := attrs.(mode := v);
      case LevelField => SetLevel(v);
      case OptdescField => attrs := attrs.(optdesc := v);
      case VersionField => attrs := attrs.(version := v);
      case FilesField => SetFiles(v);
    }

    /** `check_response(response)`: on 401, log in and remake the request,
        at most three times, stopping at the first reply that is ok. The
        log-in prompt and the session are not modelled; `logins` counts
        the attempts. */
    method CheckResponse(response: Response, retry: nat -> Response) returns (r: Result<Response>, logins: nat)
      ensures r == CheckOutcome(response, retry)
      ensures logins <= MaxAttempts
      ensures response.status != 401 ==> logins == 0
      ensures response.status == 401 ==>
        logins == (if FirstSuccess(retry, 1).Some? then FirstSuccess(retry, 1).value else MaxAttempts)
    {
      logins := 0;
      if response.status == 200 {
        return Ok(response), logins;
      } else if response.status == 401 {
        var nAttempts := 1;
        var last := response;
        while nAttempts <= MaxAttempts
          invariant 1 <= nAttempts <= MaxAttempts + 1
          invariant logins == nAttempts - 1
          invariant forall j :: 1 <= j < nAttempts ==> !Succeeded(retry(j))
          decreases MaxAttempts + 1 - nAttempts
        {
          logins := logins + 1;
          last := retry(nAttempts);
          if Succeeded(last) {
            break;
          }
          nAttempts := nAttempts + 1;
        }
        if nAttempts > MaxAttempts {
          return Err(ConnectionError), logins;
        }
        assert FirstSuccess(retry, 1) == Some(nAttempts) by {
          FirstSuccessIs(retry, 1, nAttempts);
        }
        r := Ok(last);
      } else {
        r := Err(ConnectionError);
      }
    }

    /** `Get()`: post the query; a reply that is not ok goes through
        check_response. */
    method Get(ex: Exchange) returns (r: Result<Response>)
      ensures r == GetResult(attrs, ex)
    {
      var q := Query(attrs);
      if q.Err? {
        return Err(q.error);
      }
      r := Ok(ex.reply);
      if !Succeeded(ex.reply) {
        var logins;
        r, logins := CheckResponse(ex.reply, ex.retry);
      }
    }

    /** `FileNames()`. */
    method FileNames(ex: Exchange) returns (r: Result<seq<string>>, ghost order: seq<Craft>)
      modifies this
      ensures attrs == old(attrs).(infoType := "file_names")
      ensures r == FileNamesResult(old(attrs), ex, order)
      ensures NamesOrder(old(attrs), ex, order)
    {
      attrs := attrs.(infoType := "file_names");
      order := [];
      var response := Get(ex);
      if response.Err? {
        return Err(response.error), order;
      }
      if response.value.text == "" {
        return Ok([]), order;
      }
      r, order := FilterTime(Split(response.value.text, ','), DateText(attrs.startDate), DateText(attrs.endDate));
    }

    /** `FileInfo()`: the file names of the SDC's file information. */
    method FileInfo(ex: Exchange) returns (r: Result<seq<string>>)
      modifies this
      ensures attrs == old(attrs).(infoType := "file_info")
      ensures r == FileInfoResult(old(attrs), ex)
    {
      attrs := attrs.(infoType := "file_info");
      var response := Get(ex);
      if response.Err? {
        return Err(response.error);
      }
      r := Ok(response.value.fileNames);
    }

    /** `Local_FileNames()`: the day list, the path patterns, and the
        directory search. */
    method FindLocalFiles(today: DateTime, glob: Glob) returns (r: Result<seq<string>>)
      requires Valid() && Dates.Valid(today)
      ensures r == LocalFileNames(attrs, false, today, glob)
    {
      var st := attrs;
      var s := if st.startDate.NoDate? then Moment(MissionStart) else st.startDate;
      var e := if st.endDate.NoDate? then Moment(today) else st.endDate;
      var dates: Result<seq<string>>;
      if s.Moment? && e.Moment? {
        dates := DayList(s.t, e.t);
      } else if s.Text? && e.Text? {
        dates := if LexLe(s.s, e.s) then Err(AttributeError) else Ok([]);
      } else {
        dates := Err(TypeError);
      }
      assert dates == SearchDates(st, today);
      if dates.Err? {
        return Err(dates.error);
      }
      var paths := ConstructPath(st.sc, st.instr, st.mode, st.level, Strs(dates.value), st.optdesc, st.dataRoot, true);
      if paths.Err? {
        return Err(paths.error);
      }
      r := SearchDirs(paths.value, glob);
    }

    /** The time filter Search applies to one list. */
    method FilterList(list: seq<string>) returns (r: Result<seq<string>>, ghost order: seq<Craft>)
      ensures r == FilterNonEmpty(attrs, list, order)
      ensures |list| > 0 ==> ListOrder(attrs, list, order)
    {
      order := [];
      r := Ok(list);
      if |list| > 0 {
        r, order := FilterTime(list, DateText(attrs.startDate), DateText(attrs.endDate));
      }
    }

    /** Search's split of the SDC listing: the local name of every listed
        file that exists, and every listed file whose local name does
        not. */
    method SplitByPresence(disk: Disk, listed: seq<string>) returns (present: seq<string>, missing: seq<string>)
      ensures (present, missing) == Presence(attrs.dataRoot, listed, disk.files)
    {
      var locals := Remote2LocalNames(attrs.dataRoot, listed);
      var idx := ExistingIndices(locals, disk.files);
      present := Pick(locals, idx);
      missing := OmitIndices(listed, locals, disk.files, idx);
    }

    /** `Search()`: offline, the local search and no remote file; online,
        the SDC listing split by whether each local name is a file; then
        each non-empty list time filtered. */
    method Search(disk: Disk, names: Exchange, today: DateTime, glob: Glob)
      returns (r: Result<(seq<string>, seq<string>)>, ghost o: Orders)
      requires Valid() && Dates.Valid(today)
      modifies this
      ensures attrs == old(attrs).(infoType := if old(attrs).offline then old(attrs).infoType else "file_names")
      ensures r == SearchResult(old(attrs), names, disk.files, today, glob, o)
      ensures OrdersOk(old(attrs), names, disk.files, today, glob, o)
    {
      o := Orders([], [], []);
      var localFiles: seq<string>;
      var remoteFiles: seq<string>;
      if attrs.offline {
        var found := FindLocalFiles(today, glob);
        if found.Err? {
          return Err(found.error), o;
        }
        localFiles, remoteFiles := found.value, [];
      } else {
        var listed;
        ghost var namesOrder;
        listed, namesOrder := FileNames(names);
        o := o.(names := namesOrder);
        if listed.Err? {
          return Err(listed.error), o;
        }
        localFiles, remoteFiles := SplitByPresence(disk, listed.value);
      }
      assert SearchSplit(old(attrs), names, disk.files, today, glob, o.names) == Ok((localFiles, remoteFiles));
      var local;
      ghost var localOrder;
      local, localOrder := FilterList(localFiles);
      o := o.(local := localOrder);
      if local.Err? {
        return Err(local.error), o;
      }
      var remote;
      ghost var remoteOrder;
      remote, remoteOrder := FilterList(remoteFiles);
      o := o.(remote := remoteOrder);
      if remote.Err? {
        return Err(remote.error), o;
      }
      r := Ok((local.value, remote.value));
    }

    /** `DownloadFile(info, url)`: the destination from the file name (the
        ancillary layout when the URL mentions 'ancillary'), then the
        transfer; a failed transfer removes the file before raising. */
    method DownloadFile(name: string, url: string, disk: Disk, delivered: bool) returns (r: Result<string>)
      modifies disk
      ensures r == Fetched(attrs.dataRoot, url, name, delivered)
      ensures disk.files == AfterFetch(old(disk.files), attrs.dataRoot, url, name, delivered)
    {
      var file := DestinationOf(attrs.dataRoot, url, name);
      if file.Err? {
        return Err(file.error);
      }
      if delivered {
        disk.files := disk.files + {file.value};
        r := Ok(file.value);
      } else {
        disk.files := disk.files - {file.value};
        r := Err(DownloadError);
      }
    }

    /** The parallel map over the file information, run one file after the
        other: every transfer is tried, then the results are collected in
        order and the first failure is raised. */
    method DownloadAll(names: seq<string>, url: string, disk: Disk, transfer: string -> bool)
      returns (r: Result<seq<string>>)
      modifies disk
      ensures r == FetchAll(attrs.dataRoot, url, names, transfer)
      ensures disk.files == AfterFetches(old(disk.files), attrs.dataRoot, url, names, transfer)
    {
      var root := attrs.dataRoot;
      ghost var start := disk.files;
      var results: seq<Result<string>> := [];
      for i := 0 to |names|
        invariant results == Attempts(root, url, names[..i], transfer)
        invariant disk.files == AfterFetches(start, root, url, names[..i], transfer)
      {
        FetchStep(start, root, url, names, transfer, i);
        var x := DownloadFile(names[i], url, disk, transfer(names[i]));
        results := results + [x];
      }
      assert names[..|names|] == names;
      r := Collect(root, url, names, transfer, results);
    }

    /** `Download()`. Offline, or when nothing is missing, the local files
        of the search are returned as they are; otherwise the missing files
        are fetched. */
    method Download(disk: Disk, names: Exchange, info: Exchange, transfer: string -> bool,
                    today: DateTime, glob: Glob)
      returns (r: Result<seq<string>>, ghost o: Orders)
      requires Valid() && Dates.Valid(today)
      modifies this, disk
      ensures Valid()
      ensures Outcome(r, attrs, disk.files) ==
        DownloadOutcome(old(attrs), old(disk.files), names, info, transfer, today, glob, o)
      ensures OrdersOk(old(attrs).(infoType := "download"), names, old(disk.files), today, glob, o)
    {
      attrs := attrs.(infoType := "download");
      var url := BaseUrl(attrs);
      var found;
      found, o := Search(disk, names, today, glob);
      if found.Err? {
        return Err(found.error), o;
      }
      if attrs.offline || found.value.1 == [] {
        return Ok(found.value.0), o;
      }
      r := FetchMissing(disk, found.value.0, found.value.1, info, transfer, url);
    }

    /** The download of the missing files: the attributes are saved, the
        missing files' base names become the file list (the site is put
        back), their file information is fetched and every file
        transferred; on success the local files are followed by the new
        paths and the attributes are restored. */
    method FetchMissing(disk: Disk, localFiles: seq<string>, remoteFiles: seq<string>, info: Exchange,
                        transfer: string -> bool, url: string) returns (r: Result<seq<string>>)
      requires Valid()
      modifies this, disk
      ensures Valid()
      ensures Outcome(r, attrs, disk.files) ==
        FetchOutcome(old(attrs), old(disk.files), localFiles, remoteFiles, info, transfer, url)
    {
      var site := attrs.site;
      var state := SnapshotOf(attrs);
      SetFiles(Strs(Basenames(remoteFiles)));
      var ok := SetSite(Str(site));
      var fileInfo := FileInfo(info);
      if fileInfo.Err? {
        return Err(fileInfo.error);
      }
      var newFiles := DownloadAll(fileInfo.value, url, disk, transfer);
      if newFiles.Err? {
        return Err(newFiles.error);
      }
      Restore(state);
      r := Ok(localFiles + newFiles.value);
    }

    /** Download's restore loop: for every saved key, `self.files = None`
        and then the saved value, through the hooks. */
    method Restore(state: Snapshot)
      modifies this
      ensures attrs == Restored(old(attrs), state)
    {
      ghost var start := attrs;
      for k := 0 to |SavedFields|
        invariant attrs == RestoreSteps(start, state, k)
      {
        SetField(FilesField, Null);
        SetField(SavedFields[k], state.Get(SavedFields[k]));
      }
      RestoreLoopResult(start, state);
    }
  }

  /** `[i for i, local in enumerate(locals) if os.path.isfile(local)]`. */
  method ExistingIndices(locals: seq<string>, existing: set<string>) returns (idx: seq<nat>)
    ensures idx == PresentIndices(locals, existing)
  {
    idx := [];
    for i := 0 to |locals|
      invariant idx == PresentIndices(locals[..i], existing)
    {
      assert locals[..i + 1][..i] == locals[..i];
      if locals[i] in existing {
        idx := idx + [i];
      }
    }
    assert locals[..|locals|] == locals;
  }

  /** `[remote[i] for i in range(len(remote)) if i not in idx]`. */
  method OmitIndices(remote: seq<string>, locals: seq<string>, existing: set<string>, idx: seq<nat>)
    returns (missing: seq<string>)
    requires |remote| == |locals| && idx == PresentIndices(locals, existing)
    ensures missing == Pick(remote, AbsentIndices(locals, existing))
  {
    missing := [];
    for i := 0 to |remote|
      invariant missing == Pick(remote, AbsentIndices(locals[..i], existing))
    {
      AbsentSnoc(locals, existing, i);
      InPresent(locals, existing, i);
      if i !in idx {
        PickSnoc(remote, AbsentIndices(locals[..i], existing), i);
        missing := missing + [remote[i]];
      }
    }
    assert locals[..|locals|] == locals;
  }

  /** `[f.result() for f in futures]`: the results in order, or the first
      failure. */
  method Collect(root: string, url: string, names: seq<string>, transfer: string -> bool,
                 results: seq<Result<string>>) returns (r: Result<seq<string>>)
    requires results == Attempts(root, url, names, transfer)
    ensures r == FetchAll(root, url, names, transfer)
  {
    var f := (n: string) => Fetched(root, url, n, transfer(n));
    var out: seq<string> := [];
    for i := 0 to |results|
      invariant MapAll(f, names[..i]) == Ok(out)
    {
      assert names[..i + 1][..i] == names[..i];
      if results[i].Err? {
        MapAllPrefixErr(f, names, i + 1);
        return Err(results[i].error);
      }
      out := out + [results[i].value];
    }
    assert names[..|names|] == names;
    r := Ok(out);
  }

  /** Every file of the list transferred, in order: the paths, or the
      first failure. */
  function FetchAll(root: string, url: string, names: seq<string>, transfer: string -> bool): Result<seq<string>>
  {
    MapAll((n: string) => Fetched(root, url, n, transfer(n)), names)
  }

  /** What Download returns, the selector it leaves and the files on disk
      afterwards. */
  datatype Outcome = Outcome(result: Result<seq<string>>, selector: State, disk: set<string>)

  /** Download from the selector st and the paths `existing`. A failure of
      the search, of the file information or of a transfer propagates and
      leaves the selector as it is at that point. */
  function DownloadOutcome(st: State, existing: set<string>, names: Exchange, info: Exchange,
                           transfer: string -> bool, today: DateTime, glob: Glob, o: Orders): Outcome
    requires DateOk(st.startDate) && DateOk(st.endDate) && Dates.Valid(today)
  {
    var st1 := st.(infoType := "download");
    var found := SearchResult(st1, names, existing, today, glob, o);
    var searched := if st.offline then st1 else st.(infoType := "file_names");
    if found.Err? then Outcome(Err(found.error), searched, existing)
    else if st.offline || found.value.1 == [] then Outcome(Ok(found.value.0), searched, existing)
    else FetchOutcome(searched, existing, found.value.0, found.value.1, info, transfer, BaseUrl(st1))
  }

  /** The download of the missing files from the selector st: the file
      list swapped in with the site kept, the file information, the
      transfers, then the restore. The restore of the source's `except`
      branch is never reached: the pool's failures are raised only when its
      results are collected, after the `try`. */
  function FetchOutcome(st: State, existing: set<string>, local: seq<string>, missing: seq<string>,
                        info: Exchange, transfer: string -> bool, url: string): Outcome
  {
    var swapped := AssignFiles(st, Strs(Basenames(missing))).(site := st.site);
    var fileInfo := FileInfoResult(swapped, info);
    var asked := swapped.(infoType := "file_info");
    if fileInfo.Err? then Outcome(Err(fileInfo.error), asked, existing)
    else
      var disk := AfterFetches(existing, st.dataRoot, url, fileInfo.value, transfer);
      var paths := FetchAll(st.dataRoot, url, fileInfo.value, transfer);
      if paths.Err? then Outcome(Err(paths.error), asked, disk)
      else Outcome(Ok(local + paths.value), Restored(asked, SnapshotOf(st)), disk)
  }

  /** `[file.split('/')[-1] for file in remote_files]`. */
  function Basenames(files: seq<string>): (r: seq<string>)
    ensures |r| == |files| && forall i :: 0 <= i < |files| ==> r[i] == Basename(files[i])
  {
    seq(|files|, i requires 0 <= i < |files| => Basename(files[i]))
  }

  /** What FileInfo returns once the selector holds the file list. */
  function FileInfoResult(st: State, ex: Exchange): Result<seq<string>>
  {
    var g := GetResult(st, ex);
    if g.Ok? then Ok(g.value.fileNames) else Err(g.error)
  }

  /** FirstSuccess from k is n when the attempts k until n fail and n
      succeeds. */
  lemma {:induction false} FirstSuccessIs(retry: nat -> Response, k: nat, n: nat)
    requires 1 <= k <= n <= MaxAttempts && Succeeded(retry(n))
    requires forall j :: k <= j < n ==> !Succeeded(retry(j))
    ensures FirstSuccess(retry, k) == Some(n)
    decreases n - k
  {
    if k < n {
      FirstSuccessIs(retry, k + 1, n);
    }
  }
}
