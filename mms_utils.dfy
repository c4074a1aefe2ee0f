/** `mms_utils`: the MMS directory and file-name conventions.

    `construct_path` builds sc/instr/mode/level[/optdesc]/YYYY/MM[/DD] paths
    (and file-name patterns) for every combination of its arguments;
    `parse_filename` splits file names back into their fields;
    `filter_time` keeps, per spacecraft and instrument, the files whose start
    times can hold data in a time interval. */
module MmsUtils {
  import opened Base
  import opened Strings
  import opened Dates
  import Strptime

  /** A Python argument that may be None, one string, or a list of strings. */
  datatype Arg = Null | Str(s: string) | Strs(items: seq<string>)

  /** The strings a (non-None) argument stands for: a lone string is
      treated as a one-element list. */
  function Values(a: Arg): seq<string>
  {
    match a
    case Null => []
    case Str(s) => [s]
    case Strs(items) => items
  }

  // ---------------------------------------------------------------------
  // The nested comprehension `for s in sc for i in instr ...`
  // ---------------------------------------------------------------------

  function Prepend(d: string, cs: seq<seq<string>>): (r: seq<seq<string>>)
    ensures |r| == |cs|
    ensures forall j :: 0 <= j < |cs| ==> r[j] == [d] + cs[j]
  {
    seq(|cs|, j requires 0 <= j < |cs| => [d] + cs[j])
  }

  /** Every d of ds (outer) in front of every c of cs (inner). */
  function Distribute(ds: seq<string>, cs: seq<seq<string>>): (r: seq<seq<string>>)
    ensures |r| == |ds| * |cs|
  {
    if |ds| == 0 then [] else Prepend(ds[0], cs) + Distribute(ds[1..], cs)
  }

  /** The cross product in comprehension order. A None iterable raises
      TypeError, but only once the loops outside it produce an element:
      inner iterables are evaluated per outer element. */
  function Cross(args: seq<Arg>): (r: Result<seq<seq<string>>>)
    decreases |args|
  {
    if |args| == 0 then Ok([[]])
    else if args[0].Null? then Err(TypeError)
    else if |Values(args[0])| == 0 then Ok([])
    else
      var rest :- Cross(args[1..]);
      Ok(Distribute(Values(args[0]), rest))
  }

  /** The number of combinations. */
  function Product(args: seq<Arg>): nat
  {
    if |args| == 0 then 1 else |Values(args[0])| * Product(args[1..])
  }

  /** Combination k * |cs| + j is the k-th outer value before the j-th
      inner combination: the outer loop varies slowest. */
  lemma {:induction false} DistributeIndex(ds: seq<string>, cs: seq<seq<string>>, k: nat, j: nat)
    requires k < |ds| && j < |cs|
    ensures k * |cs| + j < |Distribute(ds, cs)|
    ensures Distribute(ds, cs)[k * |cs| + j] == [ds[k]] + cs[j]
    decreases k
  {
    if k > 0 {
      DistributeIndex(ds[1..], cs, k - 1, j);
      assert k * |cs| + j == |cs| + ((k - 1) * |cs| + j);
    }
  }

  lemma {:induction false} DistributeMembers(ds: seq<string>, cs: seq<seq<string>>, x: seq<string>)
    ensures x in Distribute(ds, cs) <==> |x| >= 1 && x[0] in ds && x[1..] in cs
    decreases |ds|
  {
    if |ds| > 0 {
      DistributeMembers(ds[1..], cs, x);
      if |x| >= 1 && x[0] == ds[0] && x[1..] in cs {
        var j :| 0 <= j < |cs| && cs[j] == x[1..];
        assert x == [ds[0]] + cs[j];
        assert x == Prepend(ds[0], cs)[j];
      }
      if x in Prepend(ds[0], cs) {
        var j :| 0 <= j < |cs| && Prepend(ds[0], cs)[j] == x;
        assert x[1..] == cs[j];
      }
      assert ds == [ds[0]] + ds[1..];
    }
  }

  /** The cross product holds exactly the sequences taking one value from
      each argument, in argument order. */
  lemma {:induction false} CrossMembers(args: seq<Arg>, x: seq<string>)
    requires Cross(args).Ok?
    ensures x in Cross(args).value <==>
      |x| == |args| && forall i :: 0 <= i < |args| ==> x[i] in Values(args[i])
    decreases |args|
  {
    if |args| == 0 {
    } else if |Values(args[0])| == 0 {
    } else {
      var rest := Cross(args[1..]).value;
      DistributeMembers(Values(args[0]), rest, x);
      if |x| >= 1 {
        CrossMembers(args[1..], x[1..]);
        if |x| == |args| && x[0] in Values(args[0]) {
          assert (forall i :: 0 <= i < |args| ==> x[i] in Values(args[i])) <==>
                 (forall i :: 0 <= i < |args| - 1 ==> x[1..][i] in Values(args[1..][i])) by {
            forall i | 0 <= i < |args| - 1
              ensures x[1..][i] == x[i + 1] && args[1..][i] == args[i + 1]
            {
            }
            if forall i :: 0 <= i < |args| - 1 ==> x[1..][i] in Values(args[1..][i]) {
              forall i | 1 <= i < |args| ensures x[i] in Values(args[i]) {
                assert x[1..][i - 1] == x[i];
              }
            }
          }
        }
      }
    }
  }

  /** A successful cross product has one entry per combination. */
  lemma {:induction false} CrossCount(args: seq<Arg>)
    requires Cross(args).Ok?
    ensures |Cross(args).value| == Product(args)
    decreases |args|
  {
    if |args| > 0 && |Values(args[0])| > 0 {
      CrossCount(args[1..]);
    }
  }

  /** TypeError exactly when a None argument is reached, i.e. no argument
      before it is an empty list. */
  lemma {:induction false} CrossFails(args: seq<Arg>)
    ensures Cross(args).Err? ==> Cross(args).error == TypeError
    ensures Cross(args).Err? <==>
      exists k :: 0 <= k < |args| && args[k].Null? &&
        forall j :: 0 <= j < k ==> |Values(args[j])| > 0
    decreases |args|
  {
    if |args| > 0 && !args[0].Null? && |Values(args[0])| > 0 {
      CrossFails(args[1..]);
      if Cross(args[1..]).Err? {
        var k :| 0 <= k < |args[1..]| && args[1..][k].Null? &&
          forall j :: 0 <= j < k ==> |Values(args[1..][j])| > 0;
        assert args[k + 1].Null?;
        forall j | 0 <= j < k + 1 ensures |Values(args[j])| > 0 {
          if j > 0 { assert args[j] == args[1..][j - 1]; }
        }
      }
      if exists k :: 0 <= k < |args| && args[k].Null? && forall j :: 0 <= j < k ==> |Values(args[j])| > 0 {
        var k :| 0 <= k < |args| && args[k].Null? && forall j :: 0 <= j < k ==> |Values(args[j])| > 0;
        assert k > 0;
        assert args[1..][k - 1].Null?;
        forall j | 0 <= j < k - 1 ensures |Values(args[1..][j])| > 0 {
          assert args[1..][j] == args[j + 1];
        }
      }
    } else if |args| > 0 && !args[0].Null? {
      assert forall k :: 0 <= k < |args| && args[k].Null? ==> 0 < k && |Values(args[0])| == 0;
    }
  }

  // ---------------------------------------------------------------------
  // construct_path
  // ---------------------------------------------------------------------

  /** The file-name pattern of one combination: its fields, the start time
      followed by '*', and 'v*.cdf', joined by '_'. */
  function NamePattern(c: seq<string>): string
    requires |c| >= 1
  {
    Join(c[..|c| - 1] + [Last(c) + "*", "v*.cdf"], "_")
  }

  /** The path of one combination c = [sc, instr, mode, level, (optdesc,)
      tstart]: year and month directories from tstart, plus the day for
      burst mode, then (with files) the name pattern. */
  function PathFor(c: seq<string>, root: string, files: bool): string
    requires |c| >= 5
  {
    var t := Last(c);
    var dirs := c[..|c| - 1] + [Slice(t, 0, 4), Slice(t, 4, 6)] +
                (if c[2] == "brst" then [Slice(t, 6, 8)] else []);
    PathJoin(root, dirs + (if files then [NamePattern(c)] else []))
  }

  /** The arguments in loop order: optdesc takes part only when not None. */
  function PathArgs(sc: Arg, instr: Arg, mode: Arg, level: Arg, tstart: Arg, optdesc: Arg): seq<Arg>
  {
    [sc, instr, mode, level] + (if optdesc.Null? then [] else [optdesc]) + [tstart]
  }

  /** `construct_path(sc, instr, mode, level, tstart, optdesc, root, files)`. */
  function ConstructPath(sc: Arg, instr: Arg, mode: Arg, level: Arg, tstart: Arg,
                         optdesc: Arg, root: string, files: bool): (r: Result<seq<string>>)
    ensures r.Ok? <==> Cross(PathArgs(sc, instr, mode, level, tstart, optdesc)).Ok?
  {
    var cs :- Cross(PathArgs(sc, instr, mode, level, tstart, optdesc));
    assert forall k :: 0 <= k < |cs| ==> |cs[k]| == |PathArgs(sc, instr, mode, level, tstart, optdesc)| by {
      forall k | 0 <= k < |cs| {
        CrossMembers(PathArgs(sc, instr, mode, level, tstart, optdesc), cs[k]);
      }
    }
    Ok(seq(|cs|, k requires 0 <= k < |cs| => PathFor(cs[k], root, files)))
  }

  /** construct_path fails (TypeError) exactly on a None instr, mode or
      level (or sc) that the loops reach, and otherwise yields one path per
      combination of one value from each argument. */
  lemma ConstructPathOutcome(sc: Arg, instr: Arg, mode: Arg, level: Arg, tstart: Arg,
                             optdesc: Arg, root: string, files: bool)
    ensures var args := PathArgs(sc, instr, mode, level, tstart, optdesc);
      var r := ConstructPath(sc, instr, mode, level, tstart, optdesc, root, files);
      (r.Err? <==> exists k :: 0 <= k < |args| && args[k].Null? &&
                     forall j :: 0 <= j < k ==> |Values(args[j])| > 0) &&
      (r.Err? ==> r.error == TypeError) &&
      (r.Ok? ==> |r.value| == Product(args))
  {
    var args := PathArgs(sc, instr, mode, level, tstart, optdesc);
    CrossFails(args);
    if Cross(args).Ok? {
      CrossCount(args);
    }
  }

  /** The paths construct_path yields are exactly those of the combinations
      of one value from each argument. */
  lemma ConstructPathMembers(sc: Arg, instr: Arg, mode: Arg, level: Arg, tstart: Arg,
                             optdesc: Arg, root: string, files: bool, p: string)
    ensures var args := PathArgs(sc, instr, mode, level, tstart, optdesc);
      var r := ConstructPath(sc, instr, mode, level, tstart, optdesc, root, files);
      r.Ok? ==> (p in r.value <==> exists c :: Picks(c, args) && p == PathFor(c, root, files))
  {
    var args := PathArgs(sc, instr, mode, level, tstart, optdesc);
    if Cross(args).Ok? {
      if p in ConstructPath(sc, instr, mode, level, tstart, optdesc, root, files).value {
        PathPicked(sc, instr, mode, level, tstart, optdesc, root, files, p);
      }
      if exists c :: Picks(c, args) && p == PathFor(c, root, files) {
        var c :| Picks(c, args) && p == PathFor(c, root, files);
        PickedPath(sc, instr, mode, level, tstart, optdesc, root, files, c);
      }
    }
  }

  /** c takes one value of each argument, in order. */
  predicate Picks(c: seq<string>, args: seq<Arg>)
  {
    |c| == |args| && forall i :: 0 <= i < |args| ==> c[i] in Values(args[i])
  }

  /** Every constructed path comes from a combination. */
  lemma PathPicked(sc: Arg, instr: Arg, mode: Arg, level: Arg, tstart: Arg,
                   optdesc: Arg, root: string, files: bool, p: string)
    requires Cross(PathArgs(sc, instr, mode, level, tstart, optdesc)).Ok?
    requires p in ConstructPath(sc, instr, mode, level, tstart, optdesc, root, files).value
    ensures exists c :: Picks(c, PathArgs(sc, instr, mode, level, tstart, optdesc)) && p == PathFor(c, root, files)
  {
    var args := PathArgs(sc, instr, mode, level, tstart, optdesc);
    var r := ConstructPath(sc, instr, mode, level, tstart, optdesc, root, files).value;
    var k :| 0 <= k < |r| && r[k] == p;
    ConstructPathAt(sc, instr, mode, level, tstart, optdesc, root, files, k);
    CrossMembers(args, Cross(args).value[k]);
    assert Picks(Cross(args).value[k], args);
  }

  /** Every combination's path is constructed. */
  lemma PickedPath(sc: Arg, instr: Arg, mode: Arg, level: Arg, tstart: Arg,
                   optdesc: Arg, root: string, files: bool, c: seq<string>)
    requires Cross(PathArgs(sc, instr, mode, level, tstart, optdesc)).Ok?
    requires Picks(c, PathArgs(sc, instr, mode, level, tstart, optdesc))
    ensures PathFor(c, root, files) in ConstructPath(sc, instr, mode, level, tstart, optdesc, root, files).value
  {
    var args := PathArgs(sc, instr, mode, level, tstart, optdesc);
    var cs := Cross(args).value;
    CrossMembers(args, c);
    var k :| 0 <= k < |cs| && cs[k] == c;
    ConstructPathAt(sc, instr, mode, level, tstart, optdesc, root, files, k);
  }

  /** Path k of construct_path is the path of combination k. */
  lemma ConstructPathAt(sc: Arg, instr: Arg, mode: Arg, level: Arg, tstart: Arg,
                        optdesc: Arg, root: string, files: bool, k: nat)
    requires Cross(PathArgs(sc, instr, mode, level, tstart, optdesc)).Ok?
    requires k < |Cross(PathArgs(sc, instr, mode, level, tstart, optdesc)).value|
    ensures var cs := Cross(PathArgs(sc, instr, mode, level, tstart, optdesc)).value;
      var r := ConstructPath(sc, instr, mode, level, tstart, optdesc, root, files).value;
      |r| == |cs| && |cs[k]| >= 5 && r[k] == PathFor(cs[k], root, files)
  {
    var args := PathArgs(sc, instr, mode, level, tstart, optdesc);
    CrossMembers(args, Cross(args).value[k]);
  }

  /** On plain names os.path.join is a '/'-join, so a path follows the MMS
      layout root/sc/instr/mode/level[/optdesc]/YYYY/MM[/DD][/pattern]. */
  lemma PathForLayout(c: seq<string>, root: string, files: bool)
    requires |c| >= 5 && PlainRoot(root)
    requires forall i :: 0 <= i < |c| ==> PlainComponent(c[i])
    requires |Last(c)| >= 8
    ensures var t := Last(c);
      PathFor(c, root, files) ==
        Join([root] + c[..|c| - 1] + [t[0..4], t[4..6]] +
             (if c[2] == "brst" then [t[6..8]] else []) +
             (if files then [NamePattern(c)] else []), "/")
  {
    var t := Last(c);
    var dirs := c[..|c| - 1] + [t[0..4], t[4..6]] + (if c[2] == "brst" then [t[6..8]] else []);
    var ps := dirs + (if files then [NamePattern(c)] else []);
    assert forall k :: 0 <= k < 8 ==> t[k] != '/' by {
      assert PlainComponent(c[|c| - 1]);
    }
    assert forall i :: 0 <= i < |ps| ==> PlainComponent(ps[i]) by {
      forall i | 0 <= i < |ps| ensures PlainComponent(ps[i]) {
        if i < |c| - 1 {
          assert ps[i] == c[i];
        } else if ps[i] == t[0..4] || ps[i] == t[4..6] || ps[i] == t[6..8] {
        } else {
          assert files && ps[i] == NamePattern(c);
          NamePatternPlain(c);
        }
      }
    }
    PathJoinPlain(root, ps);
    assert [root] + ps == [root] + c[..|c| - 1] + [t[0..4], t[4..6]] +
             (if c[2] == "brst" then [t[6..8]] else []) +
             (if files then [NamePattern(c)] else []);
  }

  lemma NamePatternPlain(c: seq<string>)
    requires |c| >= 1
    requires forall i :: 0 <= i < |c| ==> '/' !in c[i]
    ensures PlainComponent(NamePattern(c))
  {
    var ps := c[..|c| - 1] + [Last(c) + "*", "v*.cdf"];
    assert forall i :: 0 <= i < |ps| ==> '/' !in ps[i] by {
      forall i | 0 <= i < |ps| ensures '/' !in ps[i] {
        if i < |c| - 1 { assert ps[i] == c[i]; }
      }
    }
    JoinNoChar(ps, "_", '/');
    JoinLength(ps, "_");
  }

  lemma {:induction false} JoinNoChar(parts: seq<string>, sep: string, ch: char)
    requires ch !in sep
    requires forall i :: 0 <= i < |parts| ==> ch !in parts[i]
    ensures ch !in Join(parts, sep)
    decreases |parts|
  {
    if |parts| > 1 {
      JoinNoChar(parts[1..], sep, ch);
    }
  }

  lemma JoinLength(parts: seq<string>, sep: string)
    requires |parts| >= 1
    ensures |Join(parts, sep)| >= |Last(parts)|
    decreases |parts|
  {
  }

  // ---------------------------------------------------------------------
  // parse_filename
  // ---------------------------------------------------------------------

  /** The seven fields parse_filename returns for one file. */
  datatype FileParts = FileParts(sc: string, instr: string, mode: string, level: string,
                                 optdesc: string, tstart: string, version: string)

  /** The first two '_'-pieces of s, with the separator, start s. */
  lemma SplitPrefix(s: string, c: char)
    requires |Split(s, c)| >= 2
    ensures StartsWith(s, Split(s, c)[0] + [c] + Split(s, c)[1])
  {
    var parts := Split(s, c);
    SplitJoin(s, c);
    JoinCons(parts[0], parts[1..], [c]);
    assert parts == [parts[0]] + parts[1..];
    JoinCons(parts[1], parts[2..], [c]);
    assert parts[1..] == [parts[1]] + parts[2..];
    var p := parts[0] + [c] + parts[1];
    assert s[..|p|] == p;
  }

  /** The fields of an ancillary file's base name sc_product_YYYYDDD_...ext:
      the start day is read with `%Y%j` and written back as `%Y%m%d`, and the
      version is the extension without its first two characters. */
  function AncillaryFields(name: string): (r: Result<FileParts>)
    ensures r.Ok? ==> StartsWith(name, r.value.sc + "_" + r.value.instr)
  {
    var be := SplitExt(name);
    var parts := Split(be.0, '_');
    var version := Slice(be.1, 2, |be.1|);
    if |parts| < 3 then Err(IndexError)
    else match Strptime.ParseYearDay(parts[2])
      case None => Err(ValueError)
      case Some(d) =>
        SplitPrefix(be.0, '_');
        Ok(FileParts(parts[0], parts[1], "", "", "", Compact(d), version))
  }

  /** The fields of a base name sc_instr_mode_level[_optdesc]_tstart_vX.Y.Z.cdf:
      with six pieces there is no optional descriptor, otherwise the fifth
      piece is one; the version drops the 'v' and the last four characters. */
  function ScienceFields(name: string): (r: Result<FileParts>)
    ensures r.Ok? ==> StartsWith(name, r.value.sc + "_" + r.value.instr)
  {
    var parts := Split(name, '_');
    if |parts| != 6 && |parts| < 5 then Err(IndexError)
    else
      SplitPrefix(name, '_');
      var optdesc := if |parts| == 6 then "" else parts[4];
      Ok(FileParts(parts[0], parts[1], parts[2], parts[3], optdesc,
                   parts[|parts| - 2], Slice(parts[|parts| - 1], 1, -4)))
  }

  /** parse_filename of one file: a path with an 'ancillary' directory holds
      an ancillary file, any other a science file. The spacecraft and
      instrument fields always start the file's base name. */
  function ParseOne(file: string): (r: Result<FileParts>)
    ensures r.Ok? ==> StartsWith(Basename(file), r.value.sc + "_" + r.value.instr)
  {
    if "ancillary" in Split(file, '/') then AncillaryFields(Basename(file))
    else ScienceFields(Basename(file))
  }

  /** parse_filename over a list: the fields of every file, or the error of
      the first file that cannot be parsed. */
  function ParseAll(files: seq<string>): (r: Result<seq<FileParts>>)
    ensures r.Ok? <==> forall i :: 0 <= i < |files| ==> ParseOne(files[i]).Ok?
    ensures r.Ok? ==> (|r.value| == |files| &&
      forall i :: 0 <= i < |files| ==> ParseOne(files[i]) == Ok(r.value[i]))
    ensures r.Err? ==>
      exists i :: 0 <= i < |files| && ParseOne(files[i]) == Err(r.error) &&
        forall j :: 0 <= j < i ==> ParseOne(files[j]).Ok?
  {
    MapAll(ParseOne, files)
  }

  /** `parse_filename(files)`. */
  method ParseFilenames(files: seq<string>) returns (r: Result<seq<FileParts>>)
    ensures r == ParseAll(files)
  {
    var out: seq<FileParts> := [];
    var i := 0;
    while i < |files|
      invariant 0 <= i <= |files|
      invariant ParseAll(files[..i]) == Ok(out)
    {
      var p := ParseOne(files[i]);
      if p.Err? {
        assert files[..i + 1][..i] == files[..i];
        MapAllPrefixErr(ParseOne, files, i + 1);
        return Err(p.error);
      }
      assert files[..i + 1][..i] == files[..i];
      out := out + [p.value];
      i := i + 1;
    }
    assert files[..i] == files;
    r := Ok(out);
  }

  /** A name built by construct_path with files=True parses back into its
      fields, with start time tstart + '*' and version '*'. */
  lemma PatternParses(c: seq<string>, root: string)
    requires 5 <= |c| <= 6
    requires forall i :: 0 <= i < |c| ==> c[i] != "" && '/' !in c[i] && '_' !in c[i]
    requires "ancillary" !in Split(PathFor(c, root, true), '/')
    ensures ParseOne(PathFor(c, root, true)) ==
      Ok(FileParts(c[0], c[1], c[2], c[3], if |c| == 6 then c[4] else "",
                   Last(c) + "*", "*"))
  {
    var t := Last(c);
    var dirs := c[..|c| - 1] + [Slice(t, 0, 4), Slice(t, 4, 6)] +
                (if c[2] == "brst" then [Slice(t, 6, 8)] else []);
    var path := PathFor(c, root, true);
    assert path == PathJoin(root, dirs + [NamePattern(c)]);
    NamePatternPlain(c);
    BasenamePathJoin(root, dirs, NamePattern(c));
    assert ParseOne(path) == ScienceFields(NamePattern(c));
    PatternFields(c);
  }

  lemma PatternFields(c: seq<string>)
    requires 5 <= |c| <= 6
    requires forall i :: 0 <= i < |c| ==> c[i] != "" && '_' !in c[i]
    ensures ScienceFields(NamePattern(c)) ==
      Ok(FileParts(c[0], c[1], c[2], c[3], if |c| == 6 then c[4] else "",
                   Last(c) + "*", "*"))
  {
    var t := Last(c);
    var ps := c[..|c| - 1] + [t + "*", "v*.cdf"];
    assert forall i :: 0 <= i < |ps| ==> '_' !in ps[i] by {
      forall i | 0 <= i < |ps| ensures '_' !in ps[i] {
        if i < |c| - 1 { assert ps[i] == c[i]; }
      }
    }
    JoinSplit(ps, '_');
    assert Split(NamePattern(c), '_') == ps;
    assert |ps| == |c| + 1;
    assert ps[|ps| - 2] == t + "*";
    assert ps[|ps| - 1] == "v*.cdf";
    assert Slice("v*.cdf", 1, -4) == "*";
  }

  // ---------------------------------------------------------------------
  // filter_time, one spacecraft/instrument group
  // ---------------------------------------------------------------------

  /** The start time written in a time tag: `%Y%m%d` when it has eight
      characters, `%Y%m%d%H%M%S` otherwise; ValueError when unreadable. */
  function TagTime(tag: string): (r: Result<DateTime>)
    ensures r.Ok? ==> Valid(r.value)
    ensures r.Err? ==> r.error == ValueError
  {
    var t := if |tag| == 8 then Strptime.ParseCompactDate(tag) else Strptime.ParseCompactDateTime(tag);
    if t.Some? then Ok(t.value) else Err(ValueError)
  }

  function PartsTime(p: FileParts): Result<DateTime>
  {
    TagTime(p.tstart)
  }

  /** The start time recorded in a file's name. */
  function TimeOf(f: string): (r: Result<DateTime>)
    ensures r.Ok? ==> Valid(r.value)
  {
    var p :- ParseOne(f);
    TagTime(p.tstart)
  }

  /** A file with its start time. */
  datatype Entry = Entry(time: DateTime, file: string)

  /** Non-decreasing start times. */
  predicate Sorted(es: seq<Entry>)
  {
    forall i, j :: 0 <= i < j < |es| ==> !Before(es[j].time, es[i].time)
  }

  /** The entries of a group, in list order: parse_filename of every file,
      then the time of every tag. */
  function Entries(files: seq<string>): (r: Result<seq<Entry>>)
    ensures r.Ok? <==> forall i :: 0 <= i < |files| ==> TimeOf(files[i]).Ok?
    ensures r.Ok? ==> (|r.value| == |files| &&
      forall i :: 0 <= i < |files| ==>
        r.value[i].file == files[i] && TimeOf(files[i]) == Ok(r.value[i].time))
    ensures r.Err? ==> r.error == (if ParseAll(files).Err? then ParseAll(files).error else ValueError)
  {
    var parts := ParseAll(files);
    if parts.Err? then
      assert !(forall i :: 0 <= i < |files| ==> TimeOf(files[i]).Ok?) by {
        var i :| 0 <= i < |files| && ParseOne(files[i]).Err?;
        assert TimeOf(files[i]).Err?;
      }
      Err(parts.error)
    else
      PartsTimes(files, parts.value);
      var times := MapAll(PartsTime, parts.value);
      if times.Err? then
        assert !(forall i :: 0 <= i < |files| ==> TimeOf(files[i]).Ok?) by {
          var i :| 0 <= i < |parts.value| && PartsTime(parts.value[i]).Err?;
          assert TimeOf(files[i]).Err?;
        }
        Err(times.error)
      else
        var r := seq(|files|, i requires 0 <= i < |files| => Entry(times.value[i], files[i]));
        assert forall i :: 0 <= i < |files| ==> TimeOf(files[i]) == Ok(r[i].time);
        Ok(r)
  }

  /** The time of a file is the time of its parsed fields. */
  lemma PartsTimes(files: seq<string>, parts: seq<FileParts>)
    requires |parts| == |files| && forall i :: 0 <= i < |files| ==> ParseOne(files[i]) == Ok(parts[i])
    ensures forall i :: 0 <= i < |files| ==> TimeOf(files[i]) == PartsTime(parts[i])
  {
  }

  /** Stable insertion: x goes before the first entry that does not start
      earlier than it, so among equal times earlier elements stay first. */
  function Insert(x: Entry, es: seq<Entry>): (r: seq<Entry>)
    ensures multiset(r) == multiset(es) + multiset{x}
  {
    if |es| == 0 then [x]
    else if Before(es[0].time, x.time) then
      assert es == [es[0]] + es[1..];
      [es[0]] + Insert(x, es[1..])
    else [x] + es
  }

  /** Every entry of es starts no earlier than x. */
  predicate NoneEarlier(x: Entry, es: seq<Entry>)
  {
    forall i :: 0 <= i < |es| ==> !Before(es[i].time, x.time)
  }

  lemma SortedCons(x: Entry, es: seq<Entry>)
    requires NoneEarlier(x, es) && Sorted(es)
    ensures Sorted([x] + es)
  {
    var s := [x] + es;
    forall i, j | 0 <= i < j < |s| ensures !Before(s[j].time, s[i].time) {
      assert s[j] == es[j - 1];
      if i > 0 { assert s[i] == es[i - 1]; }
    }
  }

  /** Inserting an entry no earlier than y into entries no earlier than y
      gives entries no earlier than y. */
  lemma InsertNoneEarlier(y: Entry, x: Entry, es: seq<Entry>, r: seq<Entry>)
    requires NoneEarlier(y, es) && !Before(x.time, y.time)
    requires multiset(r) == multiset(es) + multiset{x}
    ensures NoneEarlier(y, r)
  {
    forall i | 0 <= i < |r| ensures !Before(r[i].time, y.time) {
      assert r[i] in multiset(es) + multiset{x};
      if r[i] != x {
        assert r[i] in es;
      }
    }
  }

  lemma {:induction false} InsertSorted(x: Entry, es: seq<Entry>)
    requires Sorted(es)
    ensures Sorted(Insert(x, es))
    decreases |es|
  {
    if |es| > 0 {
      if Before(es[0].time, x.time) {
        SortedDrop(es);
        InsertSorted(x, es[1..]);
        InsertAfterFirst(x, es, Insert(x, es[1..]));
      } else {
        NoneEarlierThanFirst(x, es);
        SortedCons(x, es);
      }
    }
  }

  /** Putting the first entry back in front of a sorted insertion into the
      rest keeps the order when the first entry starts before x. */
  lemma InsertAfterFirst(x: Entry, es: seq<Entry>, r: seq<Entry>)
    requires Sorted(es) && |es| > 0 && Before(es[0].time, x.time)
    requires Sorted(r) && multiset(r) == multiset(es[1..]) + multiset{x}
    ensures Sorted([es[0]] + r)
  {
    SortedDrop(es);
    InsertNoneEarlier(es[0], x, es[1..], r);
    SortedCons(es[0], r);
  }

  /** The rest of a sorted list is sorted and starts no earlier than its
      first entry. */
  lemma SortedDrop(es: seq<Entry>)
    requires Sorted(es) && |es| > 0
    ensures NoneEarlier(es[0], es[1..]) && Sorted(es[1..])
  {
    var t := es[1..];
    forall i | 0 <= i < |t| ensures !Before(t[i].time, es[0].time) {
      assert t[i] == es[i + 1];
    }
    forall i, j | 0 <= i < j < |t| ensures !Before(t[j].time, t[i].time) {
      assert t[i] == es[i + 1] && t[j] == es[j + 1];
    }
  }

  /** An entry no later than the first of a sorted list is no later than
      any of them. */
  lemma NoneEarlierThanFirst(x: Entry, es: seq<Entry>)
    requires Sorted(es) && |es| > 0 && !Before(es[0].time, x.time)
    ensures NoneEarlier(x, es)
  {
    forall i | 0 < i < |es| ensures !Before(es[i].time, x.time) {
      assert !Before(es[i].time, es[0].time);
    }
  }

  /** `sorted(..., key=start time)`: a stable sort. */
  function Sort(es: seq<Entry>): (r: seq<Entry>)
    ensures multiset(r) == multiset(es)
    ensures Sorted(r)
  {
    if |es| == 0 then []
    else
      assert es == [es[0]] + es[1..];
      InsertSorted(es[0], Sort(es[1..]));
      Insert(es[0], Sort(es[1..]))
  }

  /** The entries starting at time k, in order. */
  function AtTime(es: seq<Entry>, k: DateTime): seq<Entry>
  {
    if |es| == 0 then []
    else (if es[0].time == k then [es[0]] else []) + AtTime(es[1..], k)
  }

  lemma {:induction false} InsertAtTime(x: Entry, es: seq<Entry>, k: DateTime)
    ensures AtTime(Insert(x, es), k) == (if x.time == k then [x] else []) + AtTime(es, k)
    decreases |es|
  {
    if |es| == 0 {
      assert AtTime([x], k) == (if x.time == k then [x] else []) + AtTime([], k);
    } else if Before(es[0].time, x.time) {
      InsertAtTime(x, es[1..], k);
      var t := Insert(x, es[1..]);
      assert ([es[0]] + t)[1..] == t;
      assert es[0].time != x.time;
    } else {
      assert ([x] + es)[1..] == es;
    }
  }

  /** The sort keeps the order of files with equal start times. */
  lemma {:induction false} SortStable(es: seq<Entry>, k: DateTime)
    ensures AtTime(Sort(es), k) == AtTime(es, k)
    decreases |es|
  {
    if |es| > 0 {
      SortStable(es[1..], k);
      InsertAtTime(es[0], Sort(es[1..]), k);
    }
  }

  /** `[... if t <= end_date]`: the entries starting at or before `end`. */
  function KeepUntil(es: seq<Entry>, end: DateTime): (r: seq<Entry>)
    ensures forall e :: e in r <==> e in es && AtOrBefore(e.time, end)
  {
    if |es| == 0 then []
    else
      var t := KeepUntil(es[1..], end);
      assert es == [es[0]] + es[1..];
      if AtOrBefore(es[0].time, end) then [es[0]] + t else t
  }

  /** Keeping a part of sorted entries keeps them sorted. */
  lemma {:induction false} KeepUntilSorted(es: seq<Entry>, end: DateTime)
    requires Sorted(es)
    ensures Sorted(KeepUntil(es, end))
    decreases |es|
  {
    if |es| > 0 {
      SortedDrop(es);
      KeepUntilSorted(es[1..], end);
      var t := KeepUntil(es[1..], end);
      if AtOrBefore(es[0].time, end) {
        forall i | 0 <= i < |t| ensures !Before(t[i].time, es[0].time) {
          assert t[i] in es[1..];
        }
        SortedCons(es[0], t);
      }
    }
  }

  /** Index of the first entry not earlier than `start` (|es| if none). */
  function FirstFrom(es: seq<Entry>, start: DateTime): (k: nat)
    ensures k <= |es|
    ensures forall i :: 0 <= i < k ==> Before(es[i].time, start)
    ensures k < |es| ==> !Before(es[k].time, start)
  {
    if |es| == 0 || !Before(es[0].time, start) then 0
    else 1 + FirstFrom(es[1..], start)
  }

  function Range(lo: nat, hi: nat): (r: seq<nat>)
    ensures lo <= hi ==> |r| == hi - lo
    ensures forall i :: 0 <= i < |r| ==> r[i] == lo + i
    decreases hi - lo
  {
    if lo >= hi then [] else [lo] + Range(lo + 1, hi)
  }

  /** `[i for i, t in enumerate(fstart) if t >= start_date]`, from index `from`. */
  function StartIndices(es: seq<Entry>, start: DateTime, from: nat): (idx: seq<nat>)
    requires from <= |es|
    ensures forall i :: 0 <= i < |idx| ==> from <= idx[i] < |es|
    decreases |es| - from
  {
    if from == |es| then []
    else (if !Before(es[from].time, start) then [from] else []) + StartIndices(es, start, from + 1)
  }

  /** On sorted entries the start indices are everything from the first
      entry not earlier than `start`. */
  lemma {:induction false} StartIndicesSuffix(es: seq<Entry>, start: DateTime, from: nat)
    requires Sorted(es) && from <= |es|
    ensures var k := FirstFrom(es, start);
      StartIndices(es, start, from) == Range(if from < k then k else from, |es|)
    decreases |es| - from
  {
    var k := FirstFrom(es, start);
    if from < |es| {
      StartIndicesSuffix(es, start, from + 1);
      if !Before(es[from].time, start) {
        assert from >= k;
        assert [from] + Range(from + 1, |es|) == Range(from, |es|);
      } else {
      }
    }
  }

  /** The files of some entries. */
  function Files(es: seq<Entry>): (fs: seq<string>)
    ensures |fs| == |es|
    ensures forall i :: 0 <= i < |es| ==> fs[i] == es[i].file
  {
    seq(|es|, i requires 0 <= i < |es| => es[i].file)
  }

  /** `[files[i] for i in idx]`. */
  function Select(es: seq<Entry>, idx: seq<nat>): seq<string>
    requires forall i :: 0 <= i < |idx| ==> idx[i] < |es|
  {
    seq(|idx|, i requires 0 <= i < |idx| => es[idx[i]].file)
  }

  /** The start-time rule of filter_time on the kept entries of a group.
      Python's `&` evaluates both operands, so `fstart[-1]` is read even
      when idx is non-empty and `idx[0]` even when it is empty: an empty
      group, or one whose entries all precede `start` on earlier days,
      raises IndexError. */
  function Window(kept: seq<Entry>, idx: seq<nat>, start: DateTime): Result<seq<string>>
    requires forall i :: 0 <= i < |idx| ==> idx[i] < |kept|
  {
    if |kept| == 0 then Err(IndexError)
    else if |idx| == 0 then
      if SameDay(Last(kept).time, start) then Ok([Last(kept).file]) else Err(IndexError)
    else if idx[0] != 0 && kept[idx[0]].time != start then
      Ok(Select(kept, [idx[0] - 1] + idx))
    else Ok(Select(kept, idx))
  }

  /** The body of filter_time's loop for the files of one group. */
  function FilterGroup(files: seq<string>, start: DateTime, end: DateTime): Result<seq<string>>
  {
    var es :- Entries(files);
    var kept := KeepUntil(Sort(es), end);
    Window(kept, StartIndices(kept, start, 0), start)
  }

  lemma SelectRange(es: seq<Entry>, a: nat)
    requires a <= |es|
    ensures Select(es, Range(a, |es|)) == Files(es[a..])
  {
  }

  /** On sorted entries the window is a suffix of the kept entries: from
      the first one not earlier than `start`, or from the one before it
      when that one is not exactly `start`, or just the last entry when all
      precede `start` on its own day. */
  lemma WindowSuffix(kept: seq<Entry>, start: DateTime)
    requires Sorted(kept)
    ensures var w := Window(kept, StartIndices(kept, start, 0), start);
      var n := |kept|;
      var k := FirstFrom(kept, start);
      (n == 0 ==> w == Err(IndexError)) &&
      (0 < n == k ==> w == if SameDay(kept[n - 1].time, start) then Ok(Files(kept[n - 1..])) else Err(IndexError)) &&
      (0 < k < n && kept[k].time != start ==> w == Ok(Files(kept[k - 1..]))) &&
      (k < n && (k == 0 || kept[k].time == start) ==> w == Ok(Files(kept[k..])))
  {
    StartIndicesSuffix(kept, start, 0);
    WindowOfRange(kept, FirstFrom(kept, start), start);
  }

  /** The window over the indices from k to the end. */
  lemma WindowOfRange(kept: seq<Entry>, k: nat, start: DateTime)
    requires k <= |kept|
    ensures var w := Window(kept, Range(k, |kept|), start);
      var n := |kept|;
      (n == 0 ==> w == Err(IndexError)) &&
      (0 < n == k ==> w == if SameDay(kept[n - 1].time, start) then Ok(Files(kept[n - 1..])) else Err(IndexError)) &&
      (0 < k < n && kept[k].time != start ==> w == Ok(Files(kept[k - 1..]))) &&
      (k < n && (k == 0 || kept[k].time == start) ==> w == Ok(Files(kept[k..])))
  {
    var n := |kept|;
    var idx := Range(k, n);
    if k < n {
      assert idx[0] == k;
      if k > 0 && kept[k].time != start {
        assert [k - 1] + idx == Range(k - 1, n);
        SelectRange(kept, k - 1);
      } else {
        SelectRange(kept, k);
      }
    } else if n > 0 {
      assert |idx| == 0;
      assert [Last(kept).file] == Files(kept[n - 1..]);
    }
  }

  // ---------------------------------------------------------------------
  // What filter_time keeps of one group
  // ---------------------------------------------------------------------

  /** f's name records a start time at or before t. */
  predicate StartsBy(f: string, t: DateTime)
  {
    TimeOf(f).Ok? && AtOrBefore(TimeOf(f).value, t)
  }

  /** f's name records a start time at or after t. */
  predicate StartsFrom(f: string, t: DateTime)
  {
    TimeOf(f).Ok? && AtOrBefore(t, TimeOf(f).value)
  }

  /** f's name records a start time strictly before t. */
  predicate StartsBefore(f: string, t: DateTime)
  {
    TimeOf(f).Ok? && Before(TimeOf(f).value, t)
  }

  /** f's name records a start time on t's day or a later day. */
  predicate StartsFromDayOf(f: string, t: DateTime)
  {
    TimeOf(f).Ok? && !DayBefore(TimeOf(f).value, t)
  }

  /** f starts no later than g. */
  predicate NoLaterThan(f: string, g: string)
  {
    TimeOf(f).Ok? && TimeOf(g).Ok? && AtOrBefore(TimeOf(f).value, TimeOf(g).value)
  }

  /** Entries that carry the start times of their files' names, all from
      `files` and starting by `end`. */
  predicate FromGroup(kept: seq<Entry>, files: seq<string>, end: DateTime)
  {
    forall e :: e in kept ==> e.file in files && TimeOf(e.file) == Ok(e.time) && AtOrBefore(e.time, end)
  }

  /** Every file of `files` starting by `end` has its entry in kept. */
  predicate HasAllBy(kept: seq<Entry>, files: seq<string>, end: DateTime)
  {
    forall f :: f in files && StartsBy(f, end) ==> Entry(TimeOf(f).value, f) in kept
  }

  /** The kept entries of a group: its files starting by `end`, by start time. */
  function Kept(files: seq<string>, end: DateTime): seq<Entry>
    requires Entries(files).Ok?
  {
    KeepUntil(Sort(Entries(files).value), end)
  }

  /** The kept entries of a group are sorted, come from the group with the
      times of their names, and are exactly the files starting by `end`. */
  lemma KeptEntries(files: seq<string>, end: DateTime)
    requires Entries(files).Ok?
    ensures Sorted(Kept(files, end))
    ensures FromGroup(Kept(files, end), files, end)
    ensures HasAllBy(Kept(files, end), files, end)
  {
    var es := Entries(files).value;
    var kept := Kept(files, end);
    KeepUntilSorted(Sort(es), end);
    forall e | e in kept
      ensures e.file in files && TimeOf(e.file) == Ok(e.time) && AtOrBefore(e.time, end)
    {
      assert e in multiset(Sort(es));
      assert e in es;
      var i :| 0 <= i < |es| && es[i] == e;
    }
    forall f | f in files && StartsBy(f, end)
      ensures Entry(TimeOf(f).value, f) in kept
    {
      var i :| 0 <= i < |files| && files[i] == f;
      assert es[i] == Entry(TimeOf(f).value, f);
      assert es[i] in multiset(Sort(es));
    }
  }

  /** Where the window of sorted entries begins (see WindowSuffix). */
  function WindowFrom(kept: seq<Entry>, start: DateTime): nat
  {
    var n := |kept|;
    var k := FirstFrom(kept, start);
    if k == n then (if n > 0 then n - 1 else 0)
    else if k > 0 && kept[k].time != start then k - 1
    else k
  }

  /** A successful group is the kept entries from WindowFrom on. */
  lemma FilterGroupSlice(files: seq<string>, start: DateTime, end: DateTime)
    requires FilterGroup(files, start, end).Ok?
    ensures Entries(files).Ok?
    ensures var kept := Kept(files, end);
      |kept| > 0 &&
      (FirstFrom(kept, start) == |kept| ==> SameDay(kept[|kept| - 1].time, start)) &&
      FilterGroup(files, start, end).value == Files(kept[WindowFrom(kept, start)..])
  {
    if Entries(files).Err? {
      GroupFailsLikeEntries(files, start, end);
    }
    FilterGroupIsWindow(files, start, end);
    KeepUntilSorted(Sort(Entries(files).value), end);
    WindowSlice(Kept(files, end), start);
  }

  /** A window that exists is the kept entries from WindowFrom on. */
  lemma WindowSlice(kept: seq<Entry>, start: DateTime)
    requires Sorted(kept)
    requires Window(kept, StartIndices(kept, start, 0), start).Ok?
    ensures |kept| > 0
    ensures FirstFrom(kept, start) == |kept| ==> SameDay(kept[|kept| - 1].time, start)
    ensures Window(kept, StartIndices(kept, start, 0), start).value == Files(kept[WindowFrom(kept, start)..])
  {
    WindowSuffix(kept, start);
  }

  /** A group whose names parse filters to the window of its kept entries. */
  lemma FilterGroupIsWindow(files: seq<string>, start: DateTime, end: DateTime)
    requires Entries(files).Ok?
    ensures var kept := Kept(files, end);
      FilterGroup(files, start, end) == Window(kept, StartIndices(kept, start, 0), start)
  {
  }

  /** The window on sorted entries: every entry from `start` on is in it;
      after its first entry none precedes `start`; a first entry before
      `start` is the latest such; and that predecessor is there whenever
      some entry precedes `start` and the first later one is not exactly
      at `start`. */
  lemma WindowFacts(kept: seq<Entry>, start: DateTime)
    requires Sorted(kept) && |kept| > 0
    requires FirstFrom(kept, start) == |kept| ==> SameDay(kept[|kept| - 1].time, start)
    ensures var n := |kept|;
      var k := FirstFrom(kept, start);
      var j := WindowFrom(kept, start);
      j < n &&
      j <= k &&
      (forall m :: j < m < n ==> AtOrBefore(start, kept[m].time)) &&
      (Before(kept[j].time, start) ==> forall m :: 0 <= m < k ==> AtOrBefore(kept[m].time, kept[j].time)) &&
      (k > 0 && (k < n ==> kept[k].time != start) ==> Before(kept[j].time, start))
  {
    var n := |kept|;
    var k := FirstFrom(kept, start);
    var j := WindowFrom(kept, start);
    if k < n {
      forall m | j < m < n ensures AtOrBefore(start, kept[m].time) {
        if m > k { assert !Before(kept[m].time, kept[k].time); }
      }
    }
    if Before(kept[j].time, start) {
      assert j == k - 1;
      forall m | 0 <= m < k ensures AtOrBefore(kept[m].time, kept[j].time) {
        if m < j { assert !Before(kept[j].time, kept[m].time); }
      }
    }
  }

  /** The window holds only files of the group starting by `end`, in
      start-time order. */
  lemma WindowBounded(kept: seq<Entry>, files: seq<string>, start: DateTime, end: DateTime)
    requires Sorted(kept) && |kept| > 0 && FromGroup(kept, files, end)
    ensures var r := Files(kept[WindowFrom(kept, start)..]);
      (forall f :: f in r ==> f in files && StartsBy(f, end)) &&
      (forall i, j :: 0 <= i < j < |r| ==> NoLaterThan(r[i], r[j]))
  {
    var w := kept[WindowFrom(kept, start)..];
    assert forall e :: e in w ==> e in kept;
    assert Sorted(w) by {
      forall i, i' | 0 <= i < i' < |w| ensures !Before(w[i'].time, w[i].time) {
        assert w[i] == kept[WindowFrom(kept, start) + i];
        assert w[i'] == kept[WindowFrom(kept, start) + i'];
      }
    }
    FilesOfEntries(w, files, end);
  }

  lemma FilesOfEntries(w: seq<Entry>, files: seq<string>, end: DateTime)
    requires Sorted(w) && FromGroup(w, files, end)
    ensures var r := Files(w);
      (forall f :: f in r ==> f in files && StartsBy(f, end)) &&
      (forall i, j :: 0 <= i < j < |r| ==> NoLaterThan(r[i], r[j]))
  {
    var r := Files(w);
    forall f | f in r ensures f in files && StartsBy(f, end) {
      var i :| 0 <= i < |r| && r[i] == f;
      assert w[i] in w;
    }
    forall i, i' | 0 <= i < i' < |r| ensures NoLaterThan(r[i], r[i']) {
      assert w[i] in w && w[i'] in w;
      assert TimeOf(r[i]) == Ok(w[i].time);
      assert TimeOf(r[i']) == Ok(w[i'].time);
    }
  }

  /** The window holds every file of the group starting within
      [start, end], and after its first file only such files. */
  lemma WindowCovers(kept: seq<Entry>, files: seq<string>, start: DateTime, end: DateTime)
    requires Sorted(kept) && |kept| > 0
    requires FirstFrom(kept, start) == |kept| ==> SameDay(kept[|kept| - 1].time, start)
    requires FromGroup(kept, files, end) && HasAllBy(kept, files, end)
    ensures var r := Files(kept[WindowFrom(kept, start)..]);
      (forall f :: f in files && StartsFrom(f, start) && StartsBy(f, end) ==> f in r) &&
      (forall i :: 1 <= i < |r| ==> StartsFrom(r[i], start))
  {
    WindowFacts(kept, start);
    WindowHasAll(kept, files, start, end);
    WindowAfterFirst(kept, files, start, end);
  }

  lemma WindowHasAll(kept: seq<Entry>, files: seq<string>, start: DateTime, end: DateTime)
    requires Sorted(kept) && |kept| > 0
    requires FirstFrom(kept, start) == |kept| ==> SameDay(kept[|kept| - 1].time, start)
    requires HasAllBy(kept, files, end)
    requires WindowFrom(kept, start) <= FirstFrom(kept, start)
    ensures var r := Files(kept[WindowFrom(kept, start)..]);
      forall f :: f in files && StartsFrom(f, start) && StartsBy(f, end) ==> f in r
  {
    var n := |kept|;
    var j := WindowFrom(kept, start);
    var r := Files(kept[j..]);
    forall f | f in files && StartsFrom(f, start) && StartsBy(f, end) ensures f in r {
      var m :| 0 <= m < n && kept[m] == Entry(TimeOf(f).value, f);
      EntryInWindow(kept, start, j, m);
    }
  }

  /** An entry at or after `start` lies in a window starting no later
      than the first such entry. */
  lemma EntryInWindow(kept: seq<Entry>, start: DateTime, j: nat, m: nat)
    requires j <= FirstFrom(kept, start) && m < |kept| && AtOrBefore(start, kept[m].time)
    ensures kept[m].file in Files(kept[j..])
  {
    assert m >= FirstFrom(kept, start);
    assert Files(kept[j..])[m - j] == kept[m].file;
  }

  lemma WindowAfterFirst(kept: seq<Entry>, files: seq<string>, start: DateTime, end: DateTime)
    requires |kept| > 0 && FromGroup(kept, files, end)
    requires WindowFrom(kept, start) < |kept|
    requires forall m :: WindowFrom(kept, start) < m < |kept| ==> AtOrBefore(start, kept[m].time)
    ensures var r := Files(kept[WindowFrom(kept, start)..]);
      forall i :: 1 <= i < |r| ==> StartsFrom(r[i], start)
  {
    var j := WindowFrom(kept, start);
    var r := Files(kept[j..]);
    forall i | 1 <= i < |r| ensures StartsFrom(r[i], start) {
      assert kept[j + i] in kept;
    }
  }

  /** A first window file before `start` is the latest file of the group
      starting before `start` (and by `end`); it is there whenever some such
      file exists and no file starts exactly at `start`. */
  lemma WindowPredecessor(kept: seq<Entry>, files: seq<string>, start: DateTime, end: DateTime)
    requires Sorted(kept) && |kept| > 0
    requires FirstFrom(kept, start) == |kept| ==> SameDay(kept[|kept| - 1].time, start)
    requires FromGroup(kept, files, end) && HasAllBy(kept, files, end)
    ensures var r := Files(kept[WindowFrom(kept, start)..]);
      |r| >= 1 &&
      (StartsBefore(r[0], start) ==>
        forall f :: f in files && StartsBefore(f, start) && StartsBy(f, end) ==> NoLaterThan(f, r[0])) &&
      ((exists f :: f in files && StartsBefore(f, start) && StartsBy(f, end)) ==>
        (forall f :: f in files ==> TimeOf(f) != Ok(start)) ==> StartsBefore(r[0], start))
  {
    WindowFacts(kept, start);
    var j := WindowFrom(kept, start);
    var e := kept[j];
    assert e in kept;
    assert Files(kept[j..])[0] == e.file;
    assert TimeOf(e.file) == Ok(e.time);
    LatestBefore(kept, files, start, end);
    PredecessorPresent(kept, files, start, end);
  }

  lemma LatestBefore(kept: seq<Entry>, files: seq<string>, start: DateTime, end: DateTime)
    requires Sorted(kept) && |kept| > 0
    requires FirstFrom(kept, start) == |kept| ==> SameDay(kept[|kept| - 1].time, start)
    requires HasAllBy(kept, files, end)
    ensures var e := kept[WindowFrom(kept, start)];
      Before(e.time, start) ==>
        forall f :: f in files && StartsBefore(f, start) && StartsBy(f, end) ==> AtOrBefore(TimeOf(f).value, e.time)
  {
    WindowFacts(kept, start);
    var n := |kept|;
    var e := kept[WindowFrom(kept, start)];
    if Before(e.time, start) {
      forall f | f in files && StartsBefore(f, start) && StartsBy(f, end)
        ensures AtOrBefore(TimeOf(f).value, e.time)
      {
        var m :| 0 <= m < n && kept[m] == Entry(TimeOf(f).value, f);
      }
    }
  }

  lemma PredecessorPresent(kept: seq<Entry>, files: seq<string>, start: DateTime, end: DateTime)
    requires Sorted(kept) && |kept| > 0
    requires FirstFrom(kept, start) == |kept| ==> SameDay(kept[|kept| - 1].time, start)
    requires FromGroup(kept, files, end) && HasAllBy(kept, files, end)
    ensures var e := kept[WindowFrom(kept, start)];
      (exists f :: f in files && StartsBefore(f, start) && StartsBy(f, end)) ==>
        (forall f :: f in files ==> TimeOf(f) != Ok(start)) ==> Before(e.time, start)
  {
    if (exists f :: f in files && StartsBefore(f, start) && StartsBy(f, end)) &&
       (forall f :: f in files ==> TimeOf(f) != Ok(start)) {
      var f :| f in files && StartsBefore(f, start) && StartsBy(f, end);
      var m :| 0 <= m < |kept| && kept[m] == Entry(TimeOf(f).value, f);
      SomeBefore(kept, start, m);
      if FirstFrom(kept, start) < |kept| {
        FirstFromNotAtStart(kept, files, start, end);
      }
      WindowStartsBefore(kept, start);
    }
  }

  /** When some entry precedes `start` and the first one from `start` on is
      not exactly at `start`, the window starts with an entry before it. */
  lemma WindowStartsBefore(kept: seq<Entry>, start: DateTime)
    requires |kept| > 0 && FirstFrom(kept, start) > 0
    requires FirstFrom(kept, start) < |kept| ==> kept[FirstFrom(kept, start)].time != start
    ensures Before(kept[WindowFrom(kept, start)].time, start)
  {
  }

  /** When some sorted entry precedes `start`, the first does. */
  lemma SomeBefore(kept: seq<Entry>, start: DateTime, m: nat)
    requires Sorted(kept) && m < |kept| && Before(kept[m].time, start)
    ensures FirstFrom(kept, start) > 0
  {
    if m > 0 {
      assert !Before(kept[m].time, kept[0].time);
    }
  }

  /** With no file starting exactly at `start`, the first entry from
      `start` on starts strictly later. */
  lemma FirstFromNotAtStart(kept: seq<Entry>, files: seq<string>, start: DateTime, end: DateTime)
    requires FromGroup(kept, files, end) && FirstFrom(kept, start) < |kept|
    requires forall f :: f in files ==> TimeOf(f) != Ok(start)
    ensures kept[FirstFrom(kept, start)].time != start
  {
    var g := kept[FirstFrom(kept, start)];
    assert g in kept;
    assert TimeOf(g.file) == Ok(g.time);
  }

  /** What a successful group keeps: only files starting by `end`; every
      file starting within [start, end]; in start-time order; at most the
      first file starts before `start`, and then it is the latest such
      file; and when no file starts exactly at `start` but one starts
      before it, the latest such file is kept as the first. */
  lemma FilterGroupWindow(files: seq<string>, start: DateTime, end: DateTime)
    requires FilterGroup(files, start, end).Ok?
    ensures var r := FilterGroup(files, start, end).value;
      |r| >= 1 &&
      (forall f :: f in r ==> f in files && StartsBy(f, end)) &&
      (forall f :: f in files && StartsFrom(f, start) && StartsBy(f, end) ==> f in r) &&
      (forall i, j :: 0 <= i < j < |r| ==> NoLaterThan(r[i], r[j])) &&
      (forall i :: 1 <= i < |r| ==> StartsFrom(r[i], start)) &&
      (StartsBefore(r[0], start) ==>
        forall f :: f in files && StartsBefore(f, start) && StartsBy(f, end) ==> NoLaterThan(f, r[0])) &&
      ((exists f :: f in files && StartsBefore(f, start) && StartsBy(f, end)) ==>
        (forall f :: f in files ==> TimeOf(f) != Ok(start)) ==> StartsBefore(r[0], start))
  {
    FilterGroupSlice(files, start, end);
    KeptEntries(files, end);
    var kept := Kept(files, end);
    WindowBounded(kept, files, start, end);
    WindowCovers(kept, files, start, end);
    WindowPredecessor(kept, files, start, end);
  }

  /** How a group fails: the first unparsable name's error, ValueError for
      an unreadable time tag, and otherwise IndexError exactly when no file
      starts by `end` on or after the calendar day of `start`. */
  lemma FilterGroupOutcome(files: seq<string>, start: DateTime, end: DateTime)
    requires Valid(start)
    ensures ParseAll(files).Err? ==> FilterGroup(files, start, end) == Err(ParseAll(files).error)
    ensures ParseAll(files).Ok? && (exists f :: f in files && TimeOf(f).Err?) ==>
      FilterGroup(files, start, end) == Err(ValueError)
    ensures (forall f :: f in files ==> TimeOf(f).Ok?) ==>
      (FilterGroup(files, start, end).Ok? <==>
         exists f :: f in files && StartsBy(f, end) && StartsFromDayOf(f, start)) &&
      (FilterGroup(files, start, end).Err? ==> FilterGroup(files, start, end).error == IndexError)
  {
    if Entries(files).Err? {
      GroupFailsLikeEntries(files, start, end);
    }
    if exists f :: f in files && TimeOf(f).Err? {
      SomeTimeFails(files);
    }
    if forall f :: f in files ==> TimeOf(f).Ok? {
      AllTimesRead(files);
      GroupSucceeds(files, start, end);
    }
  }

  /** A group whose entries fail fails the same way. */
  lemma GroupFailsLikeEntries(files: seq<string>, start: DateTime, end: DateTime)
    requires Entries(files).Err?
    ensures FilterGroup(files, start, end) == Err(Entries(files).error)
  {
  }

  /** One unreadable name makes the entries fail. */
  lemma SomeTimeFails(files: seq<string>)
    requires exists f :: f in files && TimeOf(f).Err?
    ensures Entries(files).Err?
  {
    var f :| f in files && TimeOf(f).Err?;
    var i :| 0 <= i < |files| && files[i] == f;
  }

  /** Every name readable makes the entries succeed. */
  lemma AllTimesRead(files: seq<string>)
    requires forall f :: f in files ==> TimeOf(f).Ok?
    ensures Entries(files).Ok?
  {
    forall i | 0 <= i < |files| ensures TimeOf(files[i]).Ok? {
      assert files[i] in files;
    }
  }

  lemma GroupSucceeds(files: seq<string>, start: DateTime, end: DateTime)
    requires Valid(start) && Entries(files).Ok?
    ensures FilterGroup(files, start, end).Ok? <==>
      exists f :: f in files && StartsBy(f, end) && StartsFromDayOf(f, start)
    ensures FilterGroup(files, start, end).Err? ==> FilterGroup(files, start, end).error == IndexError
  {
    var kept := Kept(files, end);
    KeptEntries(files, end);
    WindowSuffix(kept, start);
    WindowSucceeds(kept, files, start, end);
  }

  /** The window exists exactly when some kept entry is on or after the
      day of `start`. */
  lemma WindowSucceeds(kept: seq<Entry>, files: seq<string>, start: DateTime, end: DateTime)
    requires Valid(start) && Sorted(kept)
    requires FromGroup(kept, files, end) && HasAllBy(kept, files, end)
    ensures var n := |kept|;
      var k := FirstFrom(kept, start);
      (n > 0 && (k == n ==> SameDay(kept[n - 1].time, start))) <==>
        exists f :: f in files && StartsBy(f, end) && StartsFromDayOf(f, start)
  {
    var n := |kept|;
    var k := FirstFrom(kept, start);
    if n > 0 && (k == n ==> SameDay(kept[n - 1].time, start)) {
      WindowWitness(kept, files, start, end);
    }
    if exists f :: f in files && StartsBy(f, end) && StartsFromDayOf(f, start) {
      var f :| f in files && StartsBy(f, end) && StartsFromDayOf(f, start);
      WindowFromWitness(kept, files, start, end, f);
    }
  }

  /** When the window exists, its entry on or after the day of `start` is
      a file of the group starting by `end`. */
  lemma WindowWitness(kept: seq<Entry>, files: seq<string>, start: DateTime, end: DateTime)
    requires Valid(start) && FromGroup(kept, files, end)
    requires var n := |kept|;
      n > 0 && (FirstFrom(kept, start) == n ==> SameDay(kept[n - 1].time, start))
    ensures exists f :: f in files && StartsBy(f, end) && StartsFromDayOf(f, start)
  {
    var n := |kept|;
    var k := FirstFrom(kept, start);
    var e := if k < n then kept[k] else kept[n - 1];
    assert e in kept;
    if k < n {
      BeforeIsStrictTotalOrder(start, e.time, start);
      DayOrder(start, e.time);
    }
    assert StartsBy(e.file, end) && StartsFromDayOf(e.file, start);
  }

  /** A file of the group starting by `end` and on or after the day of
      `start` makes the window exist. */
  lemma WindowFromWitness(kept: seq<Entry>, files: seq<string>, start: DateTime, end: DateTime, f: string)
    requires Valid(start) && Sorted(kept)
    requires FromGroup(kept, files, end) && HasAllBy(kept, files, end)
    requires f in files && StartsBy(f, end) && StartsFromDayOf(f, start)
    ensures var n := |kept|;
      n > 0 && (FirstFrom(kept, start) == n ==> SameDay(kept[n - 1].time, start))
  {
    var m :| 0 <= m < |kept| && kept[m] == Entry(TimeOf(f).value, f);
    var last := kept[|kept| - 1];
    assert last in kept;
    assert TimeOf(last.file) == Ok(last.time);
    LastOnStartDay(kept, start, m);
  }

  /** When every entry of a sorted `kept` is before `start` and one of
      them is on or after the day of `start`, the last one is on that day. */
  lemma LastOnStartDay(kept: seq<Entry>, start: DateTime, m: nat)
    requires Valid(start) && Sorted(kept) && m < |kept|
    requires Valid(kept[m].time) && Valid(kept[|kept| - 1].time)
    requires !DayBefore(kept[m].time, start)
    ensures FirstFrom(kept, start) == |kept| ==> SameDay(kept[|kept| - 1].time, start)
  {
    var n := |kept|;
    if FirstFrom(kept, start) == n {
      if m < n - 1 {
        assert AtOrBefore(kept[m].time, kept[n - 1].time);
      }
      LastOnDay(kept[m].time, kept[n - 1].time, start);
    }
  }

  // ---------------------------------------------------------------------
  // filter_time over the whole list
  // ---------------------------------------------------------------------

  /** A spacecraft and an instrument, the key of one group. */
  type Craft = (string, string)

  /** The (spacecraft, instrument) pairs of some parsed names. */
  function Crafts(parts: seq<FileParts>): set<Craft>
  {
    set p | p in parts :: (p.sc, p.instr)
  }

  /** f's base name starts with `sc_instr`. */
  predicate InGroup(f: string, c: Craft)
  {
    StartsWith(Basename(f), c.0 + "_" + c.1)
  }

  /** The files of craft c, in list order. */
  function Group(files: seq<string>, c: Craft): (g: seq<string>)
    ensures forall f :: f in g <==> f in files && InGroup(f, c)
  {
    if |files| == 0 then []
    else (if InGroup(files[0], c) then [files[0]] else []) + Group(files[1..], c)
  }

  /** A start or end argument: `strptime(value, '%Y-%m-%dT%H:%M:%S')`, with
      TypeError for None. */
  function ArgTime(value: Option<string>): (r: Result<DateTime>)
    ensures r.Ok? ==> Valid(r.value)
    ensures value.None? ==> r == Err(TypeError)
    ensures value.Some? ==> (r.Ok? <==> Strptime.ParseIso(value.value).Some?)
    ensures value.Some? && r.Err? ==> r.error == ValueError
  {
    if value.None? then Err(TypeError)
    else
      var t := Strptime.ParseIso(value.value);
      if t.Some? then Ok(t.value) else Err(ValueError)
  }

  /** What filter_time's loop body yields for craft c. */
  function GroupResult(files: seq<string>, start: DateTime, end: DateTime, c: Craft): Result<seq<string>>
  {
    FilterGroup(Group(files, c), start, end)
  }

  /** The groups of `order`, one after the other, stopping at the first
      group that fails. */
  function FoldGroups(files: seq<string>, start: DateTime, end: DateTime, order: seq<Craft>): Result<seq<string>>
  {
    ConcatMap((c: Craft) => GroupResult(files, start, end, c), order)
  }

  /** Visiting one more craft appends its group's files, or stops at the
      first error. */
  lemma FoldGroupsSnoc(files: seq<string>, start: DateTime, end: DateTime, order: seq<Craft>, c: Craft)
    ensures var prev := FoldGroups(files, start, end, order);
      var g := GroupResult(files, start, end, c);
      FoldGroups(files, start, end, order + [c]) ==
        if prev.Err? then prev else if g.Err? then Err(g.error) else Ok(prev.value + g.value)
  {
    assert (order + [c])[..|order|] == order;
  }

  /** filter_time when its set of crafts is visited in the order `order`. */
  function FilterTimeResult(files: seq<string>, startDate: Option<string>, endDate: Option<string>,
                            order: seq<Craft>): Result<seq<string>>
  {
    var start :- ArgTime(startDate);
    var end :- ArgTime(endDate);
    var parts :- ParseAll(files);
    FoldGroups(files, start, end, order)
  }

  /** No craft is visited twice. */
  predicate Distinct(order: seq<Craft>)
  {
    forall i, j :: 0 <= i < j < |order| ==> order[i] != order[j]
  }

  lemma DistinctSnoc(order: seq<Craft>, c: Craft)
    requires Distinct(order) && c !in order
    ensures Distinct(order + [c])
  {
    var o := order + [c];
    forall i, j | 0 <= i < j < |o| ensures o[i] != o[j] {
      assert o[i] == order[i];
      if j < |order| { assert o[j] == order[j]; }
    }
  }

  /** What an order filter_time visits its crafts in is, given the result
      r it led to: no craft twice, only crafts of the names, and, when r is
      a success, every craft of the names. */
  predicate VisitOrder(files: seq<string>, order: seq<Craft>, r: Result<seq<string>>)
  {
    Distinct(order) &&
    (ParseAll(files).Ok? ==> forall c :: c in order ==> c in Crafts(ParseAll(files).value)) &&
    (r.Ok? ==> ParseAll(files).Ok? && forall c :: c in Crafts(ParseAll(files).value) ==> c in order)
  }

  /** `filter_time(fnames, start_date, end_date)`. Python iterates over a
      set, whose order is not specified: the ghost result `order` is the
      order this run visited the crafts in, each once, and on success it is
      every craft of the names. */
  method FilterTime(fnames: seq<string>, startDate: Option<string>, endDate: Option<string>)
    returns (r: Result<seq<string>>, ghost order: seq<Craft>)
    ensures r == FilterTimeResult(fnames, startDate, endDate, order)
    ensures VisitOrder(fnames, order, r)
  {
    order := [];
    var start := ArgTime(startDate);
    if start.Err? {
      return Err(start.error), order;
    }
    var end := ArgTime(endDate);
    if end.Err? {
      return Err(end.error), order;
    }
    var parsed := ParseFilenames(fnames);
    if parsed.Err? {
      return Err(parsed.error), order;
    }
    var craftSet := CraftSet(parsed.value);
    r, order := VisitCrafts(fnames, start.value, end.value, craftSet);
  }

  /** The loop collecting `(name[0], name[1])` of every parsed name. */
  method CraftSet(parts: seq<FileParts>) returns (craftSet: set<Craft>)
    ensures craftSet == Crafts(parts)
  {
    craftSet := {};
    for i := 0 to |parts|
      invariant craftSet == Crafts(parts[..i])
    {
      assert parts[..i + 1] == parts[..i] + [parts[i]];
      craftSet := craftSet + {(parts[i].sc, parts[i].instr)};
    }
    assert parts[..|parts|] == parts;
  }

  /** The loop over the craft set: each group's files in turn, in an order
      the set chooses. */
  method VisitCrafts(fnames: seq<string>, start: DateTime, end: DateTime, craftSet: set<Craft>)
    returns (r: Result<seq<string>>, ghost order: seq<Craft>)
    ensures r == FoldGroups(fnames, start, end, order)
    ensures Distinct(order) && forall c :: c in order ==> c in craftSet
    ensures r.Ok? ==> forall c :: c in craftSet ==> c in order
  {
    order := [];
    var outFiles: seq<string> := [];
    var remaining := craftSet;
    while remaining != {}
      invariant remaining <= craftSet
      invariant Distinct(order)
      invariant forall c :: c in order ==> c in craftSet && c !in remaining
      invariant forall c :: c in craftSet ==> c in remaining || c in order
      invariant FoldGroups(fnames, start, end, order) == Ok(outFiles)
      decreases |remaining|
    {
      var c :| c in remaining;
      var g := GroupResult(fnames, start, end, c);
      FoldGroupsSnoc(fnames, start, end, order, c);
      DistinctSnoc(order, c);
      order := order + [c];
      if g.Err? {
        return Err(g.error), order;
      }
      outFiles := outFiles + g.value;
      remaining := remaining - {c};
    }
    r := Ok(outFiles);
  }

  /** A name that parses lands in the group of its own craft. */
  lemma OwnGroup(files: seq<string>, f: string)
    requires ParseAll(files).Ok? && f in files
    ensures ParseOne(f).Ok?
    ensures (ParseOne(f).value.sc, ParseOne(f).value.instr) in Crafts(ParseAll(files).value)
    ensures f in Group(files, (ParseOne(f).value.sc, ParseOne(f).value.instr))
  {
    var k :| 0 <= k < |files| && files[k] == f;
    assert ParseAll(files).value[k] in ParseAll(files).value;
  }

  /** The files of a group parse when the whole list does. */
  lemma GroupParses(files: seq<string>, c: Craft)
    requires ParseAll(files).Ok?
    ensures ParseAll(Group(files, c)).Ok?
  {
    var g := Group(files, c);
    forall i | 0 <= i < |g| ensures ParseOne(g[i]).Ok? {
      assert g[i] in files;
      var k :| 0 <= k < |files| && files[k] == g[i];
    }
  }

  /** What a successful filter_time returns, whatever order the craft set
      is visited in: only files of the list that start by `end`, and every
      file of the list that starts within [start, end]. */
  lemma FilterTimeWindow(files: seq<string>, start: DateTime, end: DateTime, order: seq<Craft>)
    requires ParseAll(files).Ok?
    requires forall c :: c in Crafts(ParseAll(files).value) ==> c in order
    requires FoldGroups(files, start, end, order).Ok?
    ensures var r := FoldGroups(files, start, end, order).value;
      (forall f :: f in r ==> f in files && StartsBy(f, end)) &&
      (forall f :: f in files && StartsFrom(f, start) && StartsBy(f, end) ==> f in r)
  {
    var r := FoldGroups(files, start, end, order).value;
    forall f | f in r ensures f in files && StartsBy(f, end) {
      var i :| 0 <= i < |order| && GroupResult(files, start, end, order[i]).Ok? &&
        f in GroupResult(files, start, end, order[i]).value;
      FilterGroupWindow(Group(files, order[i]), start, end);
    }
    forall f | f in files && StartsFrom(f, start) && StartsBy(f, end) ensures f in r {
      OwnGroup(files, f);
      var c := (ParseOne(f).value.sc, ParseOne(f).value.instr);
      var i :| 0 <= i < |order| && order[i] == c;
      assert GroupResult(files, start, end, order[i]).Ok?;
      FilterGroupWindow(Group(files, c), start, end);
    }
  }

  /** A group whose names parse fails only with ValueError or IndexError. */
  lemma GroupErrors(files: seq<string>, start: DateTime, end: DateTime, c: Craft)
    requires Valid(start) && ParseAll(files).Ok?
    ensures GroupResult(files, start, end, c).Err? ==>
      GroupResult(files, start, end, c).error in {ValueError, IndexError}
  {
    GroupParses(files, c);
    FilterGroupOutcome(Group(files, c), start, end);
  }

  /** Whatever order filter_time visits its crafts in, a success keeps
      exactly the names starting by the end date, all of those starting on
      or after the start date among them: no visit order drops a name
      inside the window. */
  lemma FilterTimeKeeps(files: seq<string>, startDate: Option<string>, endDate: Option<string>, order: seq<Craft>)
    requires FilterTimeResult(files, startDate, endDate, order).Ok?
    requires VisitOrder(files, order, FilterTimeResult(files, startDate, endDate, order))
    ensures ArgTime(startDate).Ok? && ArgTime(endDate).Ok?
    ensures var start := ArgTime(startDate).value;
      var end := ArgTime(endDate).value;
      var r := FilterTimeResult(files, startDate, endDate, order).value;
      (forall f :: f in r ==> f in files && StartsBy(f, end)) &&
      (forall f :: f in files && StartsFrom(f, start) && StartsBy(f, end) ==> f in r)
  {
    FilterTimeWindow(files, ArgTime(startDate).value, ArgTime(endDate).value, order);
  }

  /** When every time tag is readable, a group succeeds exactly when one of
      its files starts by `end` on or after the day of `start`. */
  lemma GroupOutcome(files: seq<string>, start: DateTime, end: DateTime, c: Craft)
    requires Valid(start) && ParseAll(files).Ok?
    requires forall f :: f in files ==> TimeOf(f).Ok?
    ensures GroupResult(files, start, end, c).Ok? <==>
      exists f :: f in files && InGroup(f, c) && StartsBy(f, end) && StartsFromDayOf(f, start)
    ensures GroupResult(files, start, end, c).Err? ==> GroupResult(files, start, end, c).error == IndexError
  {
    GroupParses(files, c);
    FilterGroupOutcome(Group(files, c), start, end);
  }

  /** How filter_time ends once its arguments and names parse and every
      time tag is readable, whatever order the craft set is visited in: it
      succeeds exactly when every craft has a file starting by `end` on or
      after the day of `start`, and fails with IndexError otherwise. */
  lemma FilterTimeOutcome(files: seq<string>, start: DateTime, end: DateTime, order: seq<Craft>)
    requires Valid(start) && ParseAll(files).Ok?
    requires forall c :: c in Crafts(ParseAll(files).value) <==> c in order
    requires forall f :: f in files ==> TimeOf(f).Ok?
    ensures var r := FoldGroups(files, start, end, order);
      (r.Ok? <==> forall c :: c in Crafts(ParseAll(files).value) ==>
         exists f :: f in files && InGroup(f, c) && StartsBy(f, end) && StartsFromDayOf(f, start)) &&
      (r.Err? ==> r.error == IndexError)
  {
    var r := FoldGroups(files, start, end, order);
    var crafts := Crafts(ParseAll(files).value);
    forall c | c in crafts
      ensures GroupResult(files, start, end, c).Ok? <==>
        exists f :: f in files && InGroup(f, c) && StartsBy(f, end) && StartsFromDayOf(f, start)
    {
      GroupOutcome(files, start, end, c);
    }
    if r.Err? {
      var i :| 0 <= i < |order| && GroupResult(files, start, end, order[i]) == Err(r.error);
      GroupOutcome(files, start, end, order[i]);
    }
  }

  /** An unreadable time tag makes filter_time fail, with ValueError or
      with the IndexError of a group visited before. */
  lemma FilterTimeBadTag(files: seq<string>, start: DateTime, end: DateTime, order: seq<Craft>)
    requires Valid(start) && ParseAll(files).Ok?
    requires forall c :: c in Crafts(ParseAll(files).value) ==> c in order
    requires exists f :: f in files && TimeOf(f).Err?
    ensures var r := FoldGroups(files, start, end, order);
      r.Err? && r.error in {ValueError, IndexError}
  {
    var r := FoldGroups(files, start, end, order);
    var f :| f in files && TimeOf(f).Err?;
    OwnGroup(files, f);
    var c := (ParseOne(f).value.sc, ParseOne(f).value.instr);
    var i :| 0 <= i < |order| && order[i] == c;
    GroupParses(files, c);
    FilterGroupOutcome(Group(files, c), start, end);
    assert GroupResult(files, start, end, order[i]).Err?;
    var j :| 0 <= j < |order| && GroupResult(files, start, end, order[j]) == Err(r.error);
    GroupErrors(files, start, end, order[j]);
  }
}
