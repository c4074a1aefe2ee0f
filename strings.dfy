/** The parts of Python's `str`, `list` slicing and `os.path` (POSIX) that
    the modelled code relies on, with the properties the rest of the model
    uses: split/join are inverse, os.path.join is a plain '/'-join on plain
    components, basename recovers the last component. */
module Strings {

  // ---------------------------------------------------------------------
  // Python slicing
  // ---------------------------------------------------------------------

  /** Python's normalisation of a slice bound: negative counts from the end,
      then clamp into [0, n]. */
  function Clamp(i: int, n: nat): (j: nat)
    ensures j <= n
    ensures 0 <= i <= n ==> j == i
    ensures i < 0 && 0 <= i + n ==> j == i + n
  {
    var k := if i < 0 then i + n else i;
    if k < 0 then 0 else if k > n then n else k
  }

  /** `s[lo:hi]` for integer bounds, with Python's clamping. */
  function Slice<T>(s: seq<T>, lo: int, hi: int): (r: seq<T>)
    ensures |r| <= |s|
    ensures 0 <= lo <= hi <= |s| ==> r == s[lo..hi]
    ensures Clamp(lo, |s|) < Clamp(hi, |s|) ==> r == s[Clamp(lo, |s|)..Clamp(hi, |s|)]
    ensures Clamp(hi, |s|) <= Clamp(lo, |s|) ==> r == []
  {
    var a := Clamp(lo, |s|);
    var b := Clamp(hi, |s|);
    if a < b then s[a..b] else []
  }

  /** `s[0:hi]` of a string no longer than hi is the string itself. */
  lemma SliceWhole<T>(s: seq<T>, hi: int)
    requires |s| <= hi
    ensures Slice(s, 0, hi) == s
  {
    if |s| > 0 {
      assert s[0..|s|] == s;
    }
  }

  function Last<T>(s: seq<T>): T
    requires |s| > 0
  {
    s[|s| - 1]
  }

  // ---------------------------------------------------------------------
  // str.split(sep) and sep.join(parts) for a one-character separator
  // ---------------------------------------------------------------------

  /** `s.split(c)`: never empty, no piece contains the separator. */
  function Split(s: string, c: char): (parts: seq<string>)
    ensures |parts| >= 1
    ensures forall i :: 0 <= i < |parts| ==> c !in parts[i]
  {
    if |s| == 0 then [""]
    else
      var rest := Split(s[1..], c);
      if s[0] == c then [""] + rest
      else [[s[0]] + rest[0]] + rest[1..]
  }

  /** `sep.join(parts)`. */
  function Join(parts: seq<string>, sep: string): string
  {
    if |parts| == 0 then ""
    else if |parts| == 1 then parts[0]
    else parts[0] + sep + Join(parts[1..], sep)
  }

  lemma JoinCons(p: string, rest: seq<string>, sep: string)
    ensures Join([p] + rest, sep) == if |rest| == 0 then p else p + sep + Join(rest, sep)
  {
    assert ([p] + rest)[1..] == rest;
  }

  lemma JoinAppend(parts: seq<string>, x: string, sep: string)
    requires |parts| >= 1
    ensures Join(parts + [x], sep) == Join(parts, sep) + sep + x
    decreases |parts|
  {
    if |parts| == 1 {
      JoinCons(parts[0], [x], sep);
    } else {
      assert (parts + [x])[1..] == parts[1..] + [x];
      JoinAppend(parts[1..], x, sep);
    }
  }

  /** A '/'-join whose last part is a plain component, lower-cased, is
      non-empty and does not end in '/'. */
  lemma LowerJoinPlain(parts: seq<string>)
    requires |parts| >= 2 && PlainComponent(Last(parts))
    ensures PlainRoot(Lower(Join(parts, "/")))
  {
    var end := Last(parts);
    JoinLast(parts, "/");
    assert end[|end| - 1] in end;
  }

  /** Joining a plain component to a directory that does not end in '/'
      puts one '/' between them. */
  lemma JoinStepPlain(dir: string, b: string)
    requires PlainRoot(dir) && PlainComponent(b)
    ensures JoinStep(dir, b) == dir + "/" + b
  {
    assert b[0] in b;
  }

  /** A join ends with the last character of its last, non-empty part. */
  lemma JoinLast(parts: seq<string>, sep: string)
    requires |parts| >= 2 && Last(parts) != ""
    ensures var j := Join(parts, sep);
      |j| > 0 && j[|j| - 1] == Last(parts)[|Last(parts)| - 1]
  {
    var init := parts[..|parts| - 1];
    assert parts == init + [Last(parts)];
    JoinAppend(init, Last(parts), sep);
  }

  lemma {:induction false} JoinPrependToFirst(a: string, parts: seq<string>, sep: string)
    requires |parts| >= 1
    ensures Join([a + parts[0]] + parts[1..], sep) == a + Join(parts, sep)
  {
    JoinCons(a + parts[0], parts[1..], sep);
    JoinCons(parts[0], parts[1..], sep);
    assert parts == [parts[0]] + parts[1..];
  }

  /** Joining the pieces of a split with the same separator gives the string back. */
  lemma {:induction false} SplitJoin(s: string, c: char)
    ensures Join(Split(s, c), [c]) == s
    decreases |s|
  {
    if |s| > 0 {
      var rest := Split(s[1..], c);
      SplitJoin(s[1..], c);
      if s[0] == c {
        JoinCons("", rest, [c]);
        assert s == [c] + s[1..];
      } else {
        JoinPrependToFirst([s[0]], rest, [c]);
        assert s == [s[0]] + s[1..];
      }
    }
  }

  /** The pieces of x + y from the pieces of x and of y: the last piece of x
      and the first piece of y become one. */
  function Fuse(sx: seq<string>, sy: seq<string>): seq<string>
    requires |sx| >= 1 && |sy| >= 1
  {
    sx[..|sx| - 1] + [Last(sx) + sy[0]] + sy[1..]
  }

  lemma FuseCons(h: string, sx: seq<string>, sy: seq<string>)
    requires |sx| >= 1 && |sy| >= 1
    ensures Fuse([h] + sx, sy) == [h] + Fuse(sx, sy)
  {
    assert ([h] + sx)[..|sx|] == [h] + sx[..|sx| - 1];
  }

  lemma FuseHead(a: string, sx: seq<string>, sy: seq<string>)
    requires |sx| >= 1 && |sy| >= 1
    ensures var f := Fuse(sx, sy);
      Fuse([a + sx[0]] + sx[1..], sy) == [a + f[0]] + f[1..]
  {
    var f := Fuse(sx, sy);
    if |sx| == 1 {
      var sx2 := [a + sx[0]] + sx[1..];
      assert sx2 == [a + sx[0]];
      assert Fuse(sx2, sy) == [a + sx[0] + sy[0]] + sy[1..];
      assert f == [sx[0] + sy[0]] + sy[1..];
      assert f[1..] == sy[1..];
      assert a + sx[0] + sy[0] == a + (sx[0] + sy[0]);
    } else {
      assert sx[..|sx| - 1] == [sx[0]] + sx[1..|sx| - 1];
      assert f == [sx[0]] + (sx[1..|sx| - 1] + [Last(sx) + sy[0]] + sy[1..]);
      var sx2 := [a + sx[0]] + sx[1..];
      assert sx2[..|sx2| - 1] == [a + sx[0]] + sx[1..|sx| - 1];
    }
  }

  /** Split distributes over concatenation. */
  lemma {:induction false} SplitConcat(x: string, y: string, c: char)
    ensures Split(x + y, c) == Fuse(Split(x, c), Split(y, c))
    decreases |x|
  {
    if |x| == 0 {
      assert x + y == y;
      var sy := Split(y, c);
      assert Fuse([""], sy) == ["" + sy[0]] + sy[1..];
      assert "" + sy[0] == sy[0];
      assert sy == [sy[0]] + sy[1..];
    } else {
      assert (x + y)[1..] == x[1..] + y;
      assert (x + y)[0] == x[0];
      SplitConcat(x[1..], y, c);
      if x[0] == c {
        FuseCons("", Split(x[1..], c), Split(y, c));
      } else {
        FuseHead([x[0]], Split(x[1..], c), Split(y, c));
      }
    }
  }

  lemma {:induction false} SplitNoSep(s: string, c: char)
    requires c !in s
    ensures Split(s, c) == [s]
    decreases |s|
  {
    if |s| > 0 {
      assert c !in s[1..] by {
        forall k | 0 <= k < |s[1..]| ensures s[1..][k] != c {
          assert s[1..][k] == s[k + 1];
        }
      }
      SplitNoSep(s[1..], c);
      assert s == [s[0]] + s[1..];
    }
  }

  /** Splitting a join of separator-free pieces gives the pieces back. */
  lemma {:induction false} JoinSplit(parts: seq<string>, c: char)
    requires |parts| >= 1
    requires forall i :: 0 <= i < |parts| ==> c !in parts[i]
    ensures Split(Join(parts, [c]), c) == parts
    decreases |parts|
  {
    if |parts| == 1 {
      SplitNoSep(parts[0], c);
    } else {
      var tail := Join(parts[1..], [c]);
      JoinCons(parts[0], parts[1..], [c]);
      assert parts == [parts[0]] + parts[1..];
      assert Join(parts, [c]) == parts[0] + ([c] + tail);
      JoinSplit(parts[1..], c);
      SplitNoSep(parts[0], c);
      assert [c][1..] == [];
      assert Split([c], c) == ["", ""];
      SplitConcat([c], tail, c);
      assert Split([c] + tail, c) == [""] + parts[1..];
      SplitConcat(parts[0], [c] + tail, c);
      var sy := [""] + parts[1..];
      assert sy[1..] == parts[1..];
      assert parts[0] + sy[0] == parts[0];
      assert Fuse([parts[0]], sy) == [parts[0]] + parts[1..];
    }
  }

  // ---------------------------------------------------------------------
  // Prefixes and substrings
  // ---------------------------------------------------------------------

  /** `s.startswith(p)`. */
  predicate StartsWith(s: string, p: string)
  {
    |p| <= |s| && s[..|p|] == p
  }

  /** `p in s` for strings: p occurs as a substring of s. */
  predicate Contains(s: string, p: string)
    decreases |s|
  {
    StartsWith(s, p) || (|s| > 0 && Contains(s[1..], p))
  }

  /** p occurs in s starting at position i. */
  predicate OccursAt(s: string, p: string, i: int)
  {
    0 <= i <= |s| - |p| && s[i..i + |p|] == p
  }

  /** Contains agrees with "some window of s equals p". */
  lemma {:induction false} ContainsIff(s: string, p: string)
    ensures Contains(s, p) <==> exists i :: OccursAt(s, p, i)
    decreases |s|
  {
    if StartsWith(s, p) {
      assert OccursAt(s, p, 0);
    } else if |s| > 0 {
      ContainsIff(s[1..], p);
      if Contains(s[1..], p) {
        var i :| OccursAt(s[1..], p, i);
        assert s[1..][i..i + |p|] == s[i + 1..i + 1 + |p|];
        assert OccursAt(s, p, i + 1);
      }
      if i :| OccursAt(s, p, i) {
        assert i != 0;
        assert s[1..][i - 1..i - 1 + |p|] == s[i..i + |p|];
        assert OccursAt(s[1..], p, i - 1);
      }
    } else {
      assert forall i :: !OccursAt(s, p, i);
    }
  }

  // ---------------------------------------------------------------------
  // str.strip() and str.lower()
  // ---------------------------------------------------------------------

  /** The characters Python's `str.isspace` accepts. */
  predicate IsSpace(ch: char)
  {
    ch == ' ' || ('\t' <= ch <= '\r') || ('\U{1c}' <= ch <= '\U{1f}') ||
    ch == '\U{85}' || ch == '\U{a0}' || ch == '\U{1680}' ||
    ('\U{2000}' <= ch <= '\U{200a}') || ch == '\U{2028}' || ch == '\U{2029}' ||
    ch == '\U{202f}' || ch == '\U{205f}' || ch == '\U{3000}'
  }

  /** `s.lstrip()`. */
  function StripLeft(s: string): (r: string)
    ensures |r| <= |s|
  {
    if |s| > 0 && IsSpace(s[0]) then StripLeft(s[1..]) else s
  }

  /** `s.rstrip()`. */
  function StripRight(s: string): (r: string)
    ensures |r| <= |s|
  {
    if |s| > 0 && IsSpace(s[|s| - 1]) then StripRight(s[..|s| - 1]) else s
  }

  /** `s.strip()`. */
  function Strip(s: string): (r: string)
    ensures |r| <= |s|
  {
    StripRight(StripLeft(s))
  }

  /** lstrip removes leading whitespace only: the result is a suffix of s
      after whitespace, and starts with no whitespace. */
  lemma {:induction false} LeftWindow(s: string)
    ensures var r := StripLeft(s);
      r == s[|s| - |r|..] && (r == [] || !IsSpace(r[0])) &&
      forall k :: 0 <= k < |s| - |r| ==> IsSpace(s[k])
    decreases |s|
  {
    if |s| > 0 && IsSpace(s[0]) {
      LeftWindow(s[1..]);
    }
  }

  /** rstrip removes trailing whitespace only. */
  lemma {:induction false} RightWindow(s: string)
    ensures var r := StripRight(s);
      r == s[..|r|] && (r == [] || !IsSpace(r[|r| - 1])) &&
      forall k :: |r| <= k < |s| ==> IsSpace(s[k])
    decreases |s|
  {
    if |s| > 0 && IsSpace(s[|s| - 1]) {
      RightWindow(s[..|s| - 1]);
    }
  }

  /** strip removes whitespace only, from both ends: the result is the
      window of s at i, with whitespace only around it and at neither of
      its ends. */
  lemma StripWindow(s: string)
    ensures var r := Strip(s);
      var i := |s| - |StripLeft(s)|;
      i + |r| <= |s| && s[i..i + |r|] == r &&
      (r == [] || (!IsSpace(r[0]) && !IsSpace(r[|r| - 1]))) &&
      (forall k :: 0 <= k < i ==> IsSpace(s[k])) &&
      (forall k :: i + |r| <= k < |s| ==> IsSpace(s[k]))
  {
    var t := StripLeft(s);
    var r := StripRight(t);
    LeftWindow(s);
    RightWindow(t);
    WindowOf(s, t, r);
  }

  lemma WindowOf(s: string, t: string, r: string)
    requires |t| <= |s| && t == s[|s| - |t|..] && (t == [] || !IsSpace(t[0]))
    requires |r| <= |t| && r == t[..|r|] && (r == [] || !IsSpace(r[|r| - 1]))
    requires forall k :: |r| <= k < |t| ==> IsSpace(t[k])
    ensures var i := |s| - |t|;
      s[i..i + |r|] == r && (r == [] || (!IsSpace(r[0]) && !IsSpace(r[|r| - 1]))) &&
      (forall k :: i + |r| <= k < |s| ==> IsSpace(s[k]))
  {
    var i := |s| - |t|;
    if r != [] {
      assert r[0] == t[0];
    }
    forall k | i + |r| <= k < |s|
      ensures IsSpace(s[k])
    {
      assert s[k] == t[k - i];
    }
  }

  /** A string with no whitespace at either end is its own strip. */
  lemma StripTrimmed(s: string)
    requires s == [] || (!IsSpace(s[0]) && !IsSpace(s[|s| - 1]))
    ensures Strip(s) == s
  {
  }

  /** Stripping is idempotent. */
  lemma StripIdempotent(s: string)
    ensures Strip(Strip(s)) == Strip(s)
  {
    StripWindow(s);
    StripTrimmed(Strip(s));
  }

  function LowerChar(ch: char): char
  {
    if 'A' <= ch <= 'Z' then (ch as int + 32) as char else ch
  }

  /** `s.lower()` (ASCII letters). */
  function Lower(s: string): (r: string)
    ensures |r| == |s|
    ensures forall i :: 0 <= i < |s| ==> r[i] == LowerChar(s[i])
  {
    if |s| == 0 then "" else [LowerChar(s[0])] + Lower(s[1..])
  }

  lemma LowerConcat(a: string, b: string)
    ensures Lower(a + b) == Lower(a) + Lower(b)
  {
    assert forall i :: 0 <= i < |a + b| ==> Lower(a + b)[i] == (Lower(a) + Lower(b))[i];
  }

  /** Lower-casing is idempotent and leaves a string without upper-case
      ASCII letters unchanged. */
  lemma LowerIdempotent(s: string)
    ensures Lower(Lower(s)) == Lower(s)
    ensures (forall i :: 0 <= i < |s| ==> !('A' <= s[i] <= 'Z')) ==> Lower(s) == s
  {
    var l := Lower(s);
    var ll := Lower(l);
    forall i | 0 <= i < |s| ensures ll[i] == l[i] {
      LowerCharTwice(s[i]);
    }
    assert ll == l;
  }

  lemma LowerCharTwice(ch: char)
    ensures LowerChar(LowerChar(ch)) == LowerChar(ch)
  {
  }

  // ---------------------------------------------------------------------
  // Comparison and sorted()
  // ---------------------------------------------------------------------

  /** Python's `a <= b` on strings: code-point lexicographic order. */
  predicate LexLe(a: string, b: string)
    decreases |a|
  {
    |a| == 0 || (|b| > 0 && (a[0] < b[0] || (a[0] == b[0] && LexLe(a[1..], b[1..]))))
  }

  /** Any two strings compare one way or the other. */
  lemma {:induction false} LexLeTotal(a: string, b: string)
    ensures LexLe(a, b) || LexLe(b, a)
    decreases |a|
  {
    if |a| > 0 && |b| > 0 && a[0] == b[0] {
      LexLeTotal(a[1..], b[1..]);
    }
  }

  lemma {:induction false} LexLeTrans(a: string, b: string, c: string)
    requires LexLe(a, b) && LexLe(b, c)
    ensures LexLe(a, c)
    decreases |a|
  {
    if |a| > 0 && a[0] == b[0] && b[0] == c[0] {
      LexLeTrans(a[1..], b[1..], c[1..]);
    }
  }

  /** Strings that compare both ways are equal. */
  lemma {:induction false} LexLeAntisymmetric(a: string, b: string)
    requires LexLe(a, b) && LexLe(b, a)
    ensures a == b
    decreases |a|
  {
    if |a| > 0 {
      LexLeAntisymmetric(a[1..], b[1..]);
      assert a == [a[0]] + a[1..] && b == [b[0]] + b[1..];
    }
  }

  /** Every string is at most every later one. */
  predicate Ascending(xs: seq<string>)
  {
    forall i, j :: 0 <= i < j < |xs| ==> LexLe(xs[i], xs[j])
  }

  /** x placed before the first string of xs it is at most. */
  function Insert(x: string, xs: seq<string>): (r: seq<string>)
    ensures multiset(r) == multiset(xs) + multiset{x}
  {
    if |xs| == 0 then [x]
    else if LexLe(x, xs[0]) then [x] + xs
    else
      assert xs == [xs[0]] + xs[1..];
      [xs[0]] + Insert(x, xs[1..])
  }

  /** Inserting into an ascending sequence keeps it ascending. */
  lemma {:induction false} InsertAscending(x: string, xs: seq<string>)
    requires Ascending(xs)
    ensures Ascending(Insert(x, xs))
  {
    if |xs| == 0 {
    } else if LexLe(x, xs[0]) {
      var r := [x] + xs;
      forall i, j | 0 <= i < j < |r|
        ensures LexLe(r[i], r[j])
      {
        if i == 0 && j > 1 {
          LexLeTrans(x, xs[0], xs[j - 1]);
        }
      }
    } else {
      var rest := Insert(x, xs[1..]);
      InsertAscending(x, xs[1..]);
      LexLeTotal(x, xs[0]);
      var r := [xs[0]] + rest;
      forall i, j | 0 <= i < j < |r|
        ensures LexLe(r[i], r[j])
      {
        if i == 0 {
          assert r[j] in multiset(xs[1..]) + multiset{x};
        }
      }
    }
  }

  /** `sorted(xs)`: the same strings, in ascending order. */
  function Sort(xs: seq<string>): (r: seq<string>)
    ensures multiset(r) == multiset(xs)
    ensures Ascending(r)
  {
    if |xs| == 0 then []
    else
      var init := xs[..|xs| - 1];
      assert xs == init + [xs[|xs| - 1]];
      InsertAscending(xs[|xs| - 1], Sort(init));
      Insert(xs[|xs| - 1], Sort(init))
  }

  lemma MultisetTail(xs: seq<string>)
    requires |xs| > 0
    ensures multiset(xs[1..]) == multiset(xs) - multiset{xs[0]}
  {
    assert xs == [xs[0]] + xs[1..];
  }

  /** Only one ascending sequence holds a given multiset of strings: the
      result of `sorted` does not depend on the order of its input. */
  lemma {:induction false} AscendingUnique(xs: seq<string>, ys: seq<string>)
    requires Ascending(xs) && Ascending(ys) && multiset(xs) == multiset(ys)
    ensures xs == ys
    decreases |xs|
  {
    if |xs| > 0 {
      assert |ys| == |multiset(ys)| == |xs|;
      assert xs[0] in multiset(ys) && ys[0] in multiset(xs);
      var i :| 0 <= i < |ys| && ys[i] == xs[0];
      var j :| 0 <= j < |xs| && xs[j] == ys[0];
      if i > 0 && j > 0 {
        assert LexLe(ys[0], ys[i]) && LexLe(xs[0], xs[j]);
        LexLeAntisymmetric(xs[0], ys[0]);
      }
      assert xs[0] == ys[0];
      MultisetTail(xs);
      MultisetTail(ys);
      assert Ascending(xs[1..]) && Ascending(ys[1..]);
      AscendingUnique(xs[1..], ys[1..]);
    }
  }

  // ---------------------------------------------------------------------
  // os.path (POSIX)
  // ---------------------------------------------------------------------

  /** `os.path.basename(p)`: everything after the last '/'. */
  function Basename(p: string): (b: string)
    ensures '/' !in b
  {
    Last(Split(p, '/'))
  }

  /** The basename of `a + "/" + b` is b when b has no '/'. */
  lemma BasenameAfterSlash(a: string, b: string)
    requires '/' !in b
    ensures Basename(a + "/" + b) == b
  {
    var slash: string := ['/'];
    assert slash[1..] == [];
    assert Split(slash, '/') == ["", ""];
    SplitConcat(a, slash, '/');
    var sa := Split(a + slash, '/');
    assert Last(sa) == "";
    SplitNoSep(b, '/');
    SplitConcat(a + slash, b, '/');
    assert Split(a + slash + b, '/') == sa[..|sa| - 1] + ["" + b];
  }

  /** One step of `os.path.join`: an absolute component restarts the path,
      otherwise a '/' is inserted unless the path is empty or ends in '/'. */
  function JoinStep(path: string, b: string): string
  {
    if StartsWith(b, "/") then b
    else if path == "" || path[|path| - 1] == '/' then path + b
    else path + "/" + b
  }

  /** `os.path.join(a, *ps)`. */
  function PathJoin(a: string, ps: seq<string>): string
    decreases |ps|
  {
    if |ps| == 0 then a else PathJoin(JoinStep(a, ps[0]), ps[1..])
  }

  lemma {:induction false} PathJoinSnoc(a: string, ps: seq<string>, b: string)
    ensures PathJoin(a, ps + [b]) == JoinStep(PathJoin(a, ps), b)
    decreases |ps|
  {
    if |ps| == 0 {
      assert [b][1..] == [];
    } else {
      assert (ps + [b])[1..] == ps[1..] + [b];
      PathJoinSnoc(JoinStep(a, ps[0]), ps[1..], b);
    }
  }

  /** Joining in two steps is joining once. */
  lemma {:induction false} PathJoinConcat(a: string, xs: seq<string>, ys: seq<string>)
    ensures PathJoin(a, xs + ys) == PathJoin(PathJoin(a, xs), ys)
    decreases |xs|
  {
    if |xs| > 0 {
      assert (xs + ys)[1..] == xs[1..] + ys;
      PathJoinConcat(JoinStep(a, xs[0]), xs[1..], ys);
    } else {
      assert xs + ys == ys;
    }
  }

  /** A component is plain when it is non-empty and contains no '/'. */
  predicate PlainComponent(b: string)
  {
    b != "" && '/' !in b
  }

  /** A root is plain when it is non-empty and does not end in '/'. */
  predicate PlainRoot(a: string)
  {
    a != "" && a[|a| - 1] != '/'
  }

  /** On a plain root and plain components, os.path.join is '/'.join. */
  lemma {:induction false} PathJoinPlain(a: string, ps: seq<string>)
    requires PlainRoot(a)
    requires forall i :: 0 <= i < |ps| ==> PlainComponent(ps[i])
    ensures PathJoin(a, ps) == Join([a] + ps, "/")
    decreases |ps|
  {
    if |ps| == 0 {
      assert [a] + ps == [a];
    } else {
      var b, rest := ps[0], ps[1..];
      JoinStepPlain(a, b);
      PlainExtend(a, b);
      PathJoinPlain(a + "/" + b, rest);
      JoinPrepend(a, b, rest);
      assert ps == [b] + rest;
    }
  }

  /** A plain component put after a '/' leaves a plain root. */
  lemma PlainExtend(a: string, b: string)
    requires PlainComponent(b)
    ensures PlainRoot(a + "/" + b)
  {
    var j := a + "/" + b;
    assert j[|j| - 1] == b[|b| - 1];
    assert b[|b| - 1] in b;
  }

  /** Joining a and b with '/' first does not change a '/'-join. */
  lemma JoinPrepend(a: string, b: string, rest: seq<string>)
    ensures Join([a] + ([b] + rest), "/") == Join([a + "/" + b] + rest, "/")
  {
    JoinCons(a, [b] + rest, "/");
    JoinCons(b, rest, "/");
    JoinCons(a + "/" + b, rest, "/");
    if |rest| > 0 {
      var j := Join(rest, "/");
      assert a + "/" + (b + "/" + j) == (a + "/" + b) + "/" + j;
    }
  }

  /** Joining plain components to a plain root gives a plain root. */
  lemma {:induction false} PathJoinPlainRoot(a: string, ps: seq<string>)
    requires PlainRoot(a)
    requires forall i :: 0 <= i < |ps| ==> PlainComponent(ps[i])
    ensures PlainRoot(PathJoin(a, ps))
    decreases |ps|
  {
    if |ps| > 0 {
      var b := ps[0];
      assert b[0] != '/';
      var a' := a + "/" + b;
      assert JoinStep(a, b) == a';
      assert a'[|a'| - 1] == b[|b| - 1];
      assert forall i :: 0 <= i < |ps[1..]| ==> ps[1..][i] == ps[i + 1];
      PathJoinPlainRoot(a', ps[1..]);
    }
  }

  /** Whatever the directory components, joining a plain file name last
      makes it the basename of the result. */
  lemma BasenamePathJoin(a: string, ps: seq<string>, f: string)
    requires PlainComponent(f)
    ensures Basename(PathJoin(a, ps + [f])) == f
  {
    PathJoinSnoc(a, ps, f);
    var p := PathJoin(a, ps);
    assert !StartsWith(f, "/");
    if p == "" {
      assert JoinStep(p, f) == f;
      SplitNoSep(f, '/');
    } else if p[|p| - 1] == '/' {
      assert JoinStep(p, f) == p[..|p| - 1] + "/" + f;
      BasenameAfterSlash(p[..|p| - 1], f);
    } else {
      BasenameAfterSlash(p, f);
    }
  }

  /** Index of the last occurrence of ch in s, or -1. */
  function LastIndexOf(s: string, ch: char): (i: int)
    ensures -1 <= i < |s|
    ensures i >= 0 ==> s[i] == ch
    ensures forall k :: i < k < |s| ==> s[k] != ch
  {
    if |s| == 0 then -1
    else if s[|s| - 1] == ch then |s| - 1
    else LastIndexOf(s[..|s| - 1], ch)
  }

  /** `s.rstrip('/')`. */
  function RStripSlash(s: string): (r: string)
    ensures |r| <= |s| && r == s[..|r|]
    ensures r == "" || r[|r| - 1] != '/'
  {
    if |s| > 0 && s[|s| - 1] == '/' then RStripSlash(s[..|s| - 1]) else s
  }

  /** `os.path.dirname(p)`: everything up to the last '/', without trailing
      slashes unless it consists of slashes only. */
  function Dirname(p: string): string
  {
    var head := p[..LastIndexOf(p, '/') + 1];
    if exists k :: 0 <= k < |head| && head[k] != '/' then RStripSlash(head) else head
  }

  /** The directory of `x + "/" + f` is x when f has no '/' and x is a
      plain root. */
  lemma DirnameAfterSlash(x: string, f: string)
    requires PlainRoot(x) && '/' !in f
    ensures Dirname(x + "/" + f) == x
  {
    var p := x + "/" + f;
    var i := LastIndexOf(p, '/');
    assert p[|x|] == '/';
    assert forall k :: |x| < k < |p| ==> p[k] == f[k - |x| - 1];
    assert i == |x|;
    var head := p[..i + 1];
    assert head == x + "/";
    assert head[|x| - 1] != '/';
    assert head[..|head| - 1] == x;
    assert RStripSlash(head) == RStripSlash(x) == x;
  }

  /** True when some character of s[lo..hi] is not a '.'. */
  predicate HasNonDot(s: string, lo: nat, hi: nat)
    requires lo <= hi <= |s|
  {
    exists k :: lo <= k < hi && s[k] != '.'
  }

  /** `os.path.splitext(p)`: the extension starts at the last '.' after the
      last '/', provided a non-dot character precedes it in the final
      component (so ".bashrc" has no extension). */
  function SplitExt(p: string): (r: (string, string))
    ensures r.0 + r.1 == p
    ensures r.1 == "" || (r.1[0] == '.' && '.' !in r.1[1..] && '/' !in r.1)
  {
    var sep := LastIndexOf(p, '/');
    var dot := LastIndexOf(p, '.');
    if dot > sep && HasNonDot(p, sep + 1, dot) then
      assert forall k :: 1 <= k < |p[dot..]| ==> p[dot..][k] == p[dot + k];
      assert p[..dot] + p[dot..] == p;
      (p[..dot], p[dot..])
    else (p, "")
  }

  // ---------------------------------------------------------------------
  // Decimal digits
  // ---------------------------------------------------------------------

  predicate IsDigit(ch: char)
  {
    '0' <= ch <= '9'
  }

  predicate AllDigits(s: string)
  {
    forall i :: 0 <= i < |s| ==> IsDigit(s[i])
  }

  /** The value of a decimal digit string (most significant first). */
  function DigitsValue(s: string): nat
    requires AllDigits(s)
  {
    if |s| == 0 then 0
    else DigitsValue(s[..|s| - 1]) * 10 + (s[|s| - 1] as int - '0' as int)
  }

  function Pow10(w: nat): (p: nat)
    ensures p >= 1
  {
    if w == 0 then 1 else 10 * Pow10(w - 1)
  }

  /** n written with exactly w decimal digits, zero-padded (`%0wd` of n mod 10^w). */
  function Pad(n: nat, w: nat): (s: string)
    ensures |s| == w
    ensures AllDigits(s)
  {
    if w == 0 then "" else Pad(n / 10, w - 1) + [(('0' as int) + n % 10) as char]
  }

  /** Reading back a zero-padded number gives the number, when it fits. */
  lemma {:induction false} PadValue(n: nat, w: nat)
    requires n < Pow10(w)
    ensures DigitsValue(Pad(n, w)) == n
  {
    if w > 0 {
      PadValue(n / 10, w - 1);
      var s := Pad(n, w);
      assert s[..|s| - 1] == Pad(n / 10, w - 1);
    }
  }

  /** Pad is injective on the numbers that fit. */
  lemma PadInjective(n: nat, m: nat, w: nat)
    requires n < Pow10(w) && m < Pow10(w)
    requires Pad(n, w) == Pad(m, w)
    ensures n == m
  {
    PadValue(n, w);
    PadValue(m, w);
  }
}
