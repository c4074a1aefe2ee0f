/** `load_datafile`: loading one downloaded file.

    A name containing 'ancillary' is an ancillary text file: its first line
    is a title, then come `key = value, value, ...` header lines (a line
    ending in ',' continues on the next one) up to a blank line, then the
    table. Every other name is a CDF file, read by `load_cdf`, which is not
    part of this model: its result is an input. The file's lines are an
    input too. */
module LoadDatafile {
  import opened Base
  import opened Strings
  import opened Dicts
  import opened MmsUtils

  // ---------------------------------------------------------------------
  // What a loaded file holds
  // ---------------------------------------------------------------------

  /** A metadata value: a string, a list of strings, or a number. */
  datatype MetaValue = Text(s: string) | Items(items: seq<string>) | Number(n: int)

  /** The metadata of one dataset. */
  type Meta = Dict<MetaValue>

  /** One variable of a dataset: a one-dimensional array (timestamps or
      samples, kept as integers) or a scalar. */
  datatype Axis = Elems(xs: seq<int>) | Scalar(v: int)

  /** A dataset: its variables by name; the time axis is 'x'. */
  type Dataset = Dict<Axis>

  /** What `load_cdf` returns: datasets by name and their metadata. */
  datatype CdfData = CdfData(data: Dict<Dataset>, metadata: Dict<Meta>)

  /** The result of `load_datafile`: the header of an ancillary file with
      the number of header lines after the title, or a CDF file's data. */
  datatype Loaded = Ancillary(meta: Meta, metalines: nat) | Cdf(file: CdfData)

  // ---------------------------------------------------------------------
  // Dispatch
  // ---------------------------------------------------------------------

  /** `load_datafile(filename, prefix=..., suffix=...)`: a non-string name
      is a ValueError; a name containing 'ancillary' goes to the ancillary
      loader, any other to `load_cdf`. */
  function LoadDatafile(filename: Arg, read: string -> seq<string>, loadCdf: string -> Result<CdfData>,
                        prefix: string, suffix: string): (r: Result<Loaded>)
    ensures !filename.Str? ==> r == Err(ValueError)
    ensures r.Ok? && r.value.Ancillary? <==> filename.Str? && Contains(filename.s, "ancillary")
    ensures filename.Str? && !Contains(filename.s, "ancillary") ==>
      (r.Ok? <==> loadCdf(filename.s).Ok?) && (r.Ok? ==> r.value == Cdf(loadCdf(filename.s).value))
    ensures r.Ok? && r.value.Ancillary? ==>
      (r.value.meta, r.value.metalines) == AncillaryHeader(filename.s, read(filename.s), prefix, suffix)
  {
    if !filename.Str? then Err(ValueError)
    else if Contains(filename.s, "ancillary") then
      var lines := read(filename.s);
      var h := AncillaryHeader(filename.s, lines, prefix, suffix);
      Ok(Ancillary(h.0, h.1))
    else
      var c := loadCdf(filename.s);
      if c.Ok? then Ok(Cdf(c.value)) else Err(c.error)
  }

  // ---------------------------------------------------------------------
  // The title and the data set name
  // ---------------------------------------------------------------------

  /** `file.readline()` at line pos: the empty string past the end. */
  function ReadLine(lines: seq<string>, pos: nat): string
  {
    if pos < |lines| then lines[pos] else ""
  }

  /** The title: the first line, stripped. */
  function Title(lines: seq<string>): string
  {
    Strip(ReadLine(lines, 0))
  }

  /** Where the header lines start: after the title line, if there is one. */
  function StartOf(lines: seq<string>): nat
  {
    if |lines| == 0 then 0 else 1
  }

  /** `Set_Name`: the prefix, the first two '_'-separated fields of the base
      name without its extension, the suffix. */
  function SetName(filename: string, prefix: string, suffix: string): string
  {
    prefix + FirstTwoFields(Stem(filename)) + suffix
  }

  /** The base name without extension. */
  function Stem(filename: string): string
  {
    SplitExt(Basename(filename)).0
  }

  /** The first two '_'-separated fields joined by '_'. Splitting with
      `maxsplit=2` gives the same first two fields as a full split. */
  function FirstTwoFields(stem: string): string
  {
    Join(Slice(Split(stem, '_'), 0, 2), "_")
  }

  /** mid holds the separator exactly once, at position i. */
  predicate OnlyAt(mid: string, c: char, i: int)
  {
    0 <= i < |mid| && mid[i] == c && c !in mid[..i] && c !in mid[i + 1..]
  }

  /** The first two fields are the longest prefix of the stem that holds
      at most one '_': with no '_' they are the whole stem, with one they
      end where the stem ends or at the stem's second '_'. */
  lemma FirstTwoFieldsPrefix(stem: string)
    ensures var mid := FirstTwoFields(stem);
      StartsWith(stem, mid) &&
      ('_' !in mid ==> mid == stem) &&
      ('_' in mid ==> exists i :: OnlyAt(mid, '_', i)) &&
      (mid != stem ==> stem[|mid|] == '_')
  {
    var parts := Split(stem, '_');
    SplitJoin(stem, '_');
    assert Join(parts, "_") == stem;
    if |parts| == 1 {
      assert Slice(parts, 0, 2) == parts;
    } else {
      TwoFields(stem, parts);
    }
  }

  lemma TwoFields(stem: string, parts: seq<string>)
    requires parts == Split(stem, '_') && |parts| >= 2 && Join(parts, "_") == stem
    ensures var mid := FirstTwoFields(stem);
      StartsWith(stem, mid) && OnlyAt(mid, '_', |parts[0]|) &&
      (mid != stem ==> stem[|mid|] == '_')
  {
    var mid := parts[0] + "_" + parts[1];
    assert Slice(parts, 0, 2) == [parts[0], parts[1]];
    JoinTwo(parts[0], parts[1], [], "_");
    assert [parts[0], parts[1]] + [] == [parts[0], parts[1]];
    assert FirstTwoFields(stem) == mid;
    assert parts == [parts[0], parts[1]] + parts[2..];
    JoinTwo(parts[0], parts[1], parts[2..], "_");
    var tail := if |parts| == 2 then "" else "_" + Join(parts[2..], "_");
    assert stem == mid + tail;
    assert stem[..|mid|] == mid;
    var i := |parts[0]|;
    assert '_' !in parts[0] && '_' !in parts[1];
    assert mid[..i] == parts[0];
    assert mid[i + 1..] == parts[1];
  }

  lemma JoinTwo(a: string, b: string, rest: seq<string>, sep: string)
    ensures Join([a, b] + rest, sep) == a + sep + b + (if |rest| == 0 then "" else sep + Join(rest, sep))
  {
    assert [a, b] + rest == [a] + ([b] + rest);
    JoinCons(a, [b] + rest, sep);
    JoinCons(b, rest, sep);
  }

  // ---------------------------------------------------------------------
  // Header lines
  // ---------------------------------------------------------------------

  predicate EndsWithComma(s: string)
  {
    |s| > 0 && s[|s| - 1] == ','
  }

  /** Every line of the file, stripped: the loops below only ever look at
      a line through `strip()`. */
  function StrippedLines(lines: seq<string>): (ts: seq<string>)
    ensures |ts| == |lines| && forall i :: 0 <= i < |lines| ==> ts[i] == Strip(lines[i])
  {
    seq(|lines|, i requires 0 <= i < |lines| => Strip(lines[i]))
  }

  /** Lines concatenated. */
  function Glued(ls: seq<string>): string
  {
    if |ls| == 0 then "" else ls[0] + Glued(ls[1..])
  }

  /** The continuation loop from line pos: while the text ends with ',',
      the next line, stripped, is appended. The loop stops at the end of
      the file (see the finding on ContinueAsWritten). It stops only at a
      text without a trailing ',' or at the end, and returns the text and
      the position after the lines it consumed. */
  function Continue(tmp: string, ts: seq<string>, pos: nat): (r: (string, nat))
    requires pos <= |ts|
    ensures pos <= r.1 <= |ts| && |tmp| <= |r.0|
    ensures !EndsWithComma(r.0) || r.1 == |ts|
    ensures !EndsWithComma(tmp) ==> r == (tmp, pos)
    decreases |ts| - pos
  {
    if EndsWithComma(tmp) && pos < |ts| then Continue(tmp + ts[pos], ts, pos + 1)
    else (tmp, pos)
  }

  /** The continued text is the first line followed by every line the loop
      consumed, each stripped. */
  lemma {:induction false} ContinueGlues(tmp: string, ts: seq<string>, pos: nat)
    requires pos <= |ts|
    ensures var r := Continue(tmp, ts, pos);
      r.0 == tmp + Glued(ts[pos..r.1])
    decreases |ts| - pos
  {
    var r := Continue(tmp, ts, pos);
    if EndsWithComma(tmp) && pos < |ts| {
      ContinueGlues(tmp + ts[pos], ts, pos + 1);
      assert ts[pos..r.1][1..] == ts[pos + 1..r.1];
    } else {
      assert ts[pos..pos] == [];
    }
  }

  /** The `for line in file` loop from line pos: each non-blank line with
      its continuations is one entry; the loop ends after the first blank
      line or at the end of the file. Every entry is non-blank; an entry
      still ending in ',' means the file ran out. */
  function Scan(ts: seq<string>, pos: nat): (r: (seq<string>, nat))
    requires pos <= |ts|
    ensures pos <= r.1 <= |ts|
    ensures r.1 == |ts| || (pos < r.1 && ts[r.1 - 1] == "")
    ensures forall i :: 0 <= i < |r.0| ==> |r.0[i]| > 0
    ensures forall i :: 0 <= i < |r.0| && EndsWithComma(r.0[i]) ==> r.1 == |ts|
    decreases |ts| - pos
  {
    if pos == |ts| then ([], pos)
    else
      var t := ts[pos];
      if t == "" then ([], pos + 1)
      else
        var c := Continue(t, ts, pos + 1);
        var rest := Scan(ts, c.1);
        var out := [c.0] + rest.0;
        assert forall i :: 1 <= i < |out| ==> out[i] == rest.0[i - 1];
        (out, rest.1)
  }

  /** `s.partition(c)`: the text before the first c, the separator, the
      rest; without a c, the whole string and two empty strings. */
  function Partition(s: string, c: char): (r: (string, string, string))
    ensures c !in r.0
    ensures r.1 == "" ==> r.0 == s && r.2 == ""
    ensures r.1 != "" ==> r.1 == [c] && s == r.0 + [c] + r.2
  {
    if |s| == 0 then ("", "", "")
    else if s[0] == c then ("", [c], s[1..])
    else
      var p := Partition(s[1..], c);
      assert s == [s[0]] + s[1..];
      ([s[0]] + p.0, p.1, p.2)
  }

  /** The key of a header entry: the text before the first '=', stripped. */
  function KeyOf(entry: string): string
  {
    Strip(Partition(entry, '=').0)
  }

  /** The values of a header entry: the text after the first '=' split at
      ',', each piece stripped. */
  function ValuesOf(entry: string): (vs: seq<string>)
    ensures var pieces := Split(Partition(entry, '=').2, ',');
      |vs| == |pieces| && forall i :: 0 <= i < |vs| ==> vs[i] == Strip(pieces[i])
  {
    var pieces := Split(Partition(entry, '=').2, ',');
    seq(|pieces|, i requires 0 <= i < |pieces| => Strip(pieces[i]))
  }

  /** The assignment `meta[key] = value` each entry makes. */
  function Pairs(entries: seq<string>): (kvs: seq<(string, MetaValue)>)
    ensures |kvs| == |entries|
    ensures forall i :: 0 <= i < |entries| ==> kvs[i] == (KeyOf(entries[i]), Items(ValuesOf(entries[i])))
  {
    seq(|entries|, i requires 0 <= i < |entries| => (KeyOf(entries[i]), Items(ValuesOf(entries[i]))))
  }

  /** The dictionary before the header lines: the title, then the set name. */
  function InitialMeta(filename: string, lines: seq<string>, prefix: string, suffix: string): Meta
  {
    Put(Put(Empty(), "Title", Text(Title(lines))), "Set_Name", Text(SetName(filename, prefix, suffix)))
  }

  /** `metalines`, the number of lines the header read after the title:
      those up to the first blank line, that line included, or up to the
      end of the file, continuation lines included. */
  function MetaLines(lines: seq<string>): (n: nat)
    ensures StartOf(lines) + n <= |lines|
    ensures StartOf(lines) + n == |lines| || (n > 0 && Strip(lines[StartOf(lines) + n - 1]) == "")
  {
    var start := StartOf(lines);
    var ts := StrippedLines(lines);
    var s := Scan(ts, start);
    assert s.1 == |ts| || ts[s.1 - 1] == Strip(lines[s.1 - 1]);
    s.1 - start
  }

  /** The header of an ancillary file: the metadata dictionary and
      `metalines`. */
  function AncillaryHeader(filename: string, lines: seq<string>, prefix: string, suffix: string): (r: (Meta, nat))
    ensures r.1 + StartOf(lines) <= |lines|
  {
    var s := Scan(StrippedLines(lines), StartOf(lines));
    (PutAll(InitialMeta(filename, lines, prefix, suffix), Pairs(s.0)), MetaLines(lines))
  }

  /** The header holds the title and the set name, unless a header entry
      reuses their key. */
  lemma HeaderNames(filename: string, lines: seq<string>, prefix: string, suffix: string)
    ensures var entries := Scan(StrippedLines(lines), StartOf(lines)).0;
      var meta := AncillaryHeader(filename, lines, prefix, suffix).0;
      "Title" in meta.items() && "Set_Name" in meta.items() &&
      ((forall e :: e in entries ==> KeyOf(e) != "Title") ==> meta.items()["Title"] == Text(Title(lines))) &&
      ((forall e :: e in entries ==> KeyOf(e) != "Set_Name") ==>
         meta.items()["Set_Name"] == Text(SetName(filename, prefix, suffix)))
  {
    var entries := Scan(StrippedLines(lines), StartOf(lines)).0;
    var m0 := InitialMeta(filename, lines, prefix, suffix);
    InitialNames(filename, lines, prefix, suffix);
    PutAllKeys(m0, Pairs(entries), "Title");
    PutAllKeys(m0, Pairs(entries), "Set_Name");
    if forall e :: e in entries ==> KeyOf(e) != "Title" {
      UnusedKeyKept(m0, entries, "Title");
    }
    if forall e :: e in entries ==> KeyOf(e) != "Set_Name" {
      UnusedKeyKept(m0, entries, "Set_Name");
    }
  }

  /** The dictionary before the header lines holds the title and the set
      name. */
  lemma InitialNames(filename: string, lines: seq<string>, prefix: string, suffix: string)
    ensures var m0 := InitialMeta(filename, lines, prefix, suffix);
      "Title" in m0.items() && m0.items()["Title"] == Text(Title(lines)) &&
      "Set_Name" in m0.items() && m0.items()["Set_Name"] == Text(SetName(filename, prefix, suffix))
  {
  }

  /** A key no header entry uses keeps its value. */
  lemma UnusedKeyKept(m0: Meta, entries: seq<string>, key: string)
    requires key in m0.items()
    requires forall e :: e in entries ==> KeyOf(e) != key
    ensures key in PutAll(m0, Pairs(entries)).items()
    ensures PutAll(m0, Pairs(entries)).items()[key] == m0.items()[key]
  {
    var kvs := Pairs(entries);
    forall i | 0 <= i < |kvs| ensures kvs[i].0 != key {
      assert entries[i] in entries;
    }
    PutAllKeeps(m0, kvs, key);
  }

  /** Every header entry's key is mapped to the values of the last entry
      with that key: a repeated key overwrites. */
  lemma HeaderEntries(filename: string, lines: seq<string>, prefix: string, suffix: string, i: nat)
    requires var entries := Scan(StrippedLines(lines), StartOf(lines)).0;
      i < |entries| && forall j :: i < j < |entries| ==> KeyOf(entries[j]) != KeyOf(entries[i])
    ensures var entries := Scan(StrippedLines(lines), StartOf(lines)).0;
      var meta := AncillaryHeader(filename, lines, prefix, suffix).0;
      KeyOf(entries[i]) in meta.items() && meta.items()[KeyOf(entries[i])] == Items(ValuesOf(entries[i]))
  {
    var entries := Scan(StrippedLines(lines), StartOf(lines)).0;
    PutAllLastWins(InitialMeta(filename, lines, prefix, suffix), Pairs(entries), KeyOf(entries[i]), i);
  }

  /** `load_ancillary_data`'s header: the title line, then the header
      lines, read in order. */
  method LoadAncillaryHeader(filename: string, lines: seq<string>, prefix: string, suffix: string)
    returns (meta: Meta, metalines: nat)
    ensures meta == AncillaryHeader(filename, lines, prefix, suffix).0
    ensures metalines == AncillaryHeader(filename, lines, prefix, suffix).1
  {
    var pos := 0;
    var title := Strip(ReadLine(lines, pos));
    if pos < |lines| {
      pos := pos + 1;
    }
    assert title == Title(lines) && pos == StartOf(lines);
    meta := Put(Empty(), "Title", Text(title));
    meta := Put(meta, "Set_Name", Text(SetName(filename, prefix, suffix)));
    assert meta == InitialMeta(filename, lines, prefix, suffix);
    var end;
    meta, end := ReadHeaderLines(lines, pos, meta);
    metalines := end - pos;
    assert metalines == MetaLines(lines);
  }

  /** The `for line in file` loop from line pos: every entry is assigned
      into meta; returns the position after the last line read. */
  method ReadHeaderLines(lines: seq<string>, pos0: nat, meta0: Meta) returns (meta: Meta, pos: nat)
    requires pos0 <= |lines|
    ensures var s := Scan(StrippedLines(lines), pos0);
      meta == PutAll(meta0, Pairs(s.0)) && pos == s.1
  {
    ghost var ts := StrippedLines(lines);
    ghost var goal := (PutAll(meta0, Pairs(Scan(ts, pos0).0)), Scan(ts, pos0).1);
    meta, pos := meta0, pos0;
    while pos < |lines|
      invariant pos0 <= pos <= |lines|
      invariant (PutAll(meta, Pairs(Scan(ts, pos).0)), Scan(ts, pos).1) == goal
      decreases |lines| - pos
    {
      ghost var here := pos;
      var tmp := Strip(lines[pos]);
      assert tmp == ts[pos];
      pos := pos + 1;
      if tmp == "" {
        assert Pairs([]) == [];
        break;
      }
      tmp, pos := ReadContinuation(tmp, lines, pos);
      ghost var rest := Scan(ts, pos);
      assert Scan(ts, here) == ([tmp] + rest.0, rest.1);
      NextEntry(meta, tmp, rest.0);
      meta := Put(meta, Strip(Partition(tmp, '=').0), Items(ValuesOf(tmp)));
    }
  }

  /** The continuation loop, stopping at the end of the file. */
  method ReadContinuation(tmp0: string, lines: seq<string>, pos0: nat) returns (tmp: string, pos: nat)
    requires pos0 <= |lines|
    ensures (tmp, pos) == Continue(tmp0, StrippedLines(lines), pos0)
  {
    ghost var ts := StrippedLines(lines);
    tmp, pos := tmp0, pos0;
    while EndsWithComma(tmp) && pos < |lines|
      invariant pos0 <= pos <= |lines|
      invariant Continue(tmp, ts, pos) == Continue(tmp0, ts, pos0)
      decreases |lines| - pos
    {
      tmp := tmp + Strip(lines[pos]);
      pos := pos + 1;
    }
  }

  /** The first entry's assignment, then the rest. */
  lemma NextEntry(meta: Meta, e: string, rest: seq<string>)
    ensures PutAll(meta, Pairs([e] + rest)) == PutAll(Put(meta, KeyOf(e), Items(ValuesOf(e))), Pairs(rest))
  {
    assert Pairs([e] + rest)[1..] == Pairs(rest);
  }

  // ---------------------------------------------------------------------
  // The continuation loop as written
  // ---------------------------------------------------------------------

  /** The continuation loop as the source writes it, run for at most fuel
      rounds (None: still running). `file.readline()` returns '' at the
      end of the file, so a text ending in ',' keeps its comma there. */
  function ContinueAsWritten(tmp: string, lines: seq<string>, pos: nat, fuel: nat): Option<(string, nat)>
    decreases fuel
  {
    if fuel == 0 then None
    else if EndsWithComma(tmp) then ContinueAsWritten(tmp + Strip(ReadLine(lines, pos)), lines, pos + 1, fuel - 1)
    else Some((tmp, pos))
  }

  /** When the loop as written finishes, it agrees with Continue. */
  lemma {:induction false} ContinueAsWrittenAgrees(tmp: string, lines: seq<string>, pos: nat, fuel: nat)
    requires pos <= |lines|
    requires ContinueAsWritten(tmp, lines, pos, fuel).Some?
    ensures ContinueAsWritten(tmp, lines, pos, fuel).value == Continue(tmp, StrippedLines(lines), pos)
    decreases fuel
  {
    if EndsWithComma(tmp) {
      if pos == |lines| {
        ContinueAtEndRuns(tmp, lines, pos, fuel);
        assert false;
      } else {
        ContinueAsWrittenAgrees(tmp + Strip(lines[pos]), lines, pos + 1, fuel - 1);
      }
    }
  }

  /** At the end of the file a text ending in ',' never stops growing: the
      loop as written runs forever. */
  lemma {:induction false} ContinueAtEndRuns(tmp: string, lines: seq<string>, pos: nat, fuel: nat)
    requires pos >= |lines| && EndsWithComma(tmp)
    ensures ContinueAsWritten(tmp, lines, pos, fuel).None?
    decreases fuel
  {
    if fuel > 0 {
      assert Strip(ReadLine(lines, pos)) == "";
      assert tmp + "" == tmp;
      ContinueAtEndRuns(tmp, lines, pos + 1, fuel - 1);
    }
  }

  /** A file whose last header line ends in ',': the source never finishes
      reading it, whatever the number of rounds, while the loop that stops
      at the end of the file reads the entry `K` with values 'a' and '' and
      counts one header line. */
  lemma TrailingCommaAtEnd(fuel: nat)
    ensures ContinueAsWritten("K=a,", ["T", "K=a,"], 2, fuel).None?
    ensures var h := AncillaryHeader("x", ["T", "K=a,"], "", "");
      h.1 == 1 && "K" in h.0.items() && h.0.items()["K"] == Items(["a", ""])
  {
    var lines := ["T", "K=a,"];
    var e := "K=a,";
    ContinueAtEndRuns(e, lines, 2, fuel);
    StripTrimmed(e);
    var ts := StrippedLines(lines);
    assert ts[1] == e;
    assert Continue(e, ts, 2) == (e, 2);
    assert Scan(ts, 2) == ([], 2);
    assert e != "";
    assert [e] + [] == [e];
    assert Scan(ts, 1) == ([e], 2);
    EntryOfExample();
    HeaderEntries("x", lines, "", "", 0);
  }

  lemma EntryOfExample()
    ensures KeyOf("K=a,") == "K" && ValuesOf("K=a,") == ["a", ""]
  {
    var e := "K=a,";
    assert e[0] == 'K' && e[1..] == "=a,";
    assert Partition("=a,", '=') == ("", "=", "a,");
    assert ['K'] + "" == "K";
    assert Partition(e, '=') == ("K", "=", "a,");
    StripTrimmed("K");
    StripTrimmed("a");
    var a := "a,";
    assert a[1..] == ",";
    assert [','][1..] == "";
    assert Split(",", ',') == ["", ""];
    assert a[0] == 'a' && [a[0]] + "" == "a";
    assert Split(a, ',') == ["a", ""];
  }
}
