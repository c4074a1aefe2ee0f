/** `datetime.strptime` on the formats the package reads, as CPython's
    `_strptime` does it: every directive of the format becomes a group of
    alternatives of a regular expression (compiled ignoring case), the
    expression is matched from the start of the text with backtracking, the
    match has to reach the end of the text ("unconverted data remains"
    otherwise), and the numbers read then go through `datetime`'s range
    checks. A field may therefore be written with fewer digits than
    `strftime` writes: `%m`, `%d`, `%H`, `%M` and `%S` read one or two
    digits, `%j` one to three, and `%d` also a space and a digit. */
module Strptime {
  import opened Base
  import opened Strings
  import opened Dates

  // ---------------------------------------------------------------------
  // The regular expressions
  // ---------------------------------------------------------------------

  /** One character of an alternative: any decimal digit (`\d`), a
      character range (`[0-5]`, or a single character), or a literal
      character of the format, compared ignoring case. */
  datatype Class = AnyDigit | Between(lo: char, hi: char) | Exactly(c: char)

  function One(c: char): Class
  {
    Between(c, c)
  }

  predicate Admits(k: Class, ch: char)
  {
    match k
    case AnyDigit => IsDigit(ch)
    case Between(lo, hi) => lo <= ch <= hi
    case Exactly(c) => LowerChar(ch) == LowerChar(c)
  }

  /** The directives of the formats: `%Y %m %d %H %M %S %j` and a literal
      character. */
  datatype Directive = Year | Month | Day | Hour | Minute | Second | DayOfYear | Lit(c: char)

  /** The alternatives of each directive's group, in the order in which
      `_strptime`'s `TimeRE` lists them, which is the order they are tried. */
  function Alternatives(d: Directive): seq<seq<Class>>
  {
    match d
    case Year => YearAlternatives
    case Month => MonthAlternatives
    case Day => DayAlternatives
    case Hour => HourAlternatives
    case Minute => MinuteAlternatives
    case Second => SecondAlternatives
    case DayOfYear => DayOfYearAlternatives
    case Lit(c) => [[Exactly(c)]]
  }

  /** `\d\d\d\d` */
  const YearAlternatives: seq<seq<Class>> := [[AnyDigit, AnyDigit, AnyDigit, AnyDigit]]
  /** `1[0-2]|0[1-9]|[1-9]` */
  const MonthAlternatives: seq<seq<Class>> :=
    [[One('1'), Between('0', '2')], [One('0'), Between('1', '9')], [Between('1', '9')]]
  /** `3[0-1]|[1-2]\d|0[1-9]|[1-9]| [1-9]` */
  const DayAlternatives: seq<seq<Class>> :=
    [[One('3'), Between('0', '1')], [Between('1', '2'), AnyDigit], [One('0'), Between('1', '9')],
     [Between('1', '9')], [One(' '), Between('1', '9')]]
  /** `2[0-3]|[0-1]\d|\d` */
  const HourAlternatives: seq<seq<Class>> :=
    [[One('2'), Between('0', '3')], [Between('0', '1'), AnyDigit], [AnyDigit]]
  /** `[0-5]\d|\d` */
  const MinuteAlternatives: seq<seq<Class>> := [[Between('0', '5'), AnyDigit], [AnyDigit]]
  /** `6[0-1]|[0-5]\d|\d` */
  const SecondAlternatives: seq<seq<Class>> :=
    [[One('6'), Between('0', '1')], [Between('0', '5'), AnyDigit], [AnyDigit]]
  /** `36[0-6]|3[0-5]\d|[1-2]\d\d|0[1-9]\d|00[1-9]|[1-9]\d|0[1-9]|[1-9]` */
  const DayOfYearAlternatives: seq<seq<Class>> :=
    [[One('3'), One('6'), Between('0', '6')], [One('3'), Between('0', '5'), AnyDigit],
     [Between('1', '2'), AnyDigit, AnyDigit], [One('0'), Between('1', '9'), AnyDigit],
     [One('0'), One('0'), Between('1', '9')], [Between('1', '9'), AnyDigit],
     [One('0'), Between('1', '9')], [Between('1', '9')]]

  /** The alternative p reads the characters of s from position i on. */
  predicate FitsAt(p: seq<Class>, s: string, i: nat)
    ensures FitsAt(p, s, i) ==> i + |p| <= |s|
    decreases |p|
  {
    if |p| == 0 then i <= |s| else i < |s| && Admits(p[0], s[i]) && FitsAt(p[1..], s, i + 1)
  }

  /** The most characters a directive reads: the width `strftime` pads
      its field to. */
  function MaxWidth(d: Directive): nat
  {
    match d
    case Year => 4
    case DayOfYear => 3
    case Lit(_) => 1
    case _ => 2
  }

  /** The fewest characters a directive reads. */
  function MinWidth(d: Directive): nat
  {
    if d.Year? then 4 else 1
  }

  lemma AlternativesWithin(d: Directive)
    ensures forall a :: a in Alternatives(d) ==> MinWidth(d) <= |a| <= MaxWidth(d)
  {
    match d
    case Year =>
    case Month =>
    case Day =>
    case Hour =>
    case Minute =>
    case Second =>
    case DayOfYear =>
    case Lit(_) =>
  }

  /** The sum of xs[k..]. */
  function Sum(xs: seq<nat>, k: nat): nat
    requires k <= |xs|
    decreases |xs| - k
  {
    if k == |xs| then 0 else xs[k] + Sum(xs, k + 1)
  }

  /** The fewest and the most characters each directive of ds reads. */
  function MinWidths(ds: seq<Directive>): (lo: seq<nat>)
    ensures |lo| == |ds| && forall k :: 0 <= k < |ds| ==> lo[k] == MinWidth(ds[k])
  {
    seq(|ds|, k requires 0 <= k < |ds| => MinWidth(ds[k]))
  }

  function MaxWidths(ds: seq<Directive>): (hi: seq<nat>)
    ensures |hi| == |ds| && forall k :: 0 <= k < |ds| ==> hi[k] == MaxWidth(ds[k])
  {
    seq(|ds|, k requires 0 <= k < |ds| => MaxWidth(ds[k]))
  }

  /** The compiled expression of a format: the alternatives of each
      directive's group. */
  function Pattern(ds: seq<Directive>): (ps: seq<seq<seq<Class>>>)
    ensures |ps| == |ds| && forall k :: 0 <= k < |ds| ==> ps[k] == Alternatives(ds[k])
  {
    seq(|ds|, k requires 0 <= k < |ds| => Alternatives(ds[k]))
  }

  /** `re.match` of the groups ps[k..] against s from position i: the text
      each group read and where the match ends, for the first match in
      backtracking order. The match need not reach the end of s. */
  function Match(ps: seq<seq<seq<Class>>>, k: nat, s: string, i: nat): (r: Option<(seq<string>, nat)>)
    requires k <= |ps| && i <= |s|
    ensures r.Some? ==> |r.value.0| == |ps| - k && i <= r.value.1 <= |s|
    decreases |ps| - k, 1, 0
  {
    if k == |ps| then Some(([], i)) else Try(ps, k, 0, s, i)
  }

  /** The first of the alternatives from alts[n] on that reads at i, or
      |alts| when none does. */
  function FirstFitting(alts: seq<seq<Class>>, n: nat, s: string, i: nat): (f: nat)
    requires n <= |alts|
    ensures n <= f <= |alts|
    ensures f < |alts| ==> FitsAt(alts[f], s, i)
    decreases |alts| - n
  {
    if n == |alts| || FitsAt(alts[n], s, i) then n else FirstFitting(alts, n + 1, s, i)
  }

  /** Group k tries its alternatives from the n-th on, in order; the first
      that reads at i and after which the remaining groups match wins. */
  function Try(ps: seq<seq<seq<Class>>>, k: nat, n: nat, s: string, i: nat): (r: Option<(seq<string>, nat)>)
    requires k < |ps| && i <= |s| && n <= |ps[k]|
    ensures r.Some? ==> |r.value.0| == |ps| - k && i <= r.value.1 <= |s|
    decreases |ps| - k, 0, |ps[k]| - n
  {
    var f := FirstFitting(ps[k], n, s, i);
    if f == |ps[k]| then None
    else
      var j := i + |ps[k][f]|;
      var m := Match(ps, k + 1, s, j);
      if m.Some? then Some(([s[i..j]] + m.value.0, m.value.1))
      else Try(ps, k, f + 1, s, i)
  }

  /** Every alternative of group g reads lo[g] to hi[g] characters. */
  predicate Sized(ps: seq<seq<seq<Class>>>, lo: seq<nat>, hi: seq<nat>)
  {
    |lo| == |ps| && |hi| == |ps| &&
    forall g, a :: 0 <= g < |ps| && a in ps[g] ==> lo[g] <= |a| <= hi[g]
  }

  lemma PatternSized(ds: seq<Directive>)
    ensures Sized(Pattern(ds), MinWidths(ds), MaxWidths(ds))
  {
    forall g | 0 <= g < |ds| {
      AlternativesWithin(ds[g]);
    }
  }

  /** A match of the groups ps[k..] is as long as the sums of their
      shortest and of their longest alternatives, or between them. */
  lemma {:induction false} MatchBounds(ps: seq<seq<seq<Class>>>, lo: seq<nat>, hi: seq<nat>, k: nat, s: string, i: nat)
    requires Sized(ps, lo, hi) && k <= |ps| && i <= |s|
    ensures var r := Match(ps, k, s, i);
      r.Some? ==> i + Sum(lo, k) <= r.value.1 <= i + Sum(hi, k)
    decreases |ps| - k, 1, 0
  {
    if k < |ps| {
      TryBounds(ps, lo, hi, k, 0, s, i);
    }
  }

  lemma {:induction false} TryBounds(ps: seq<seq<seq<Class>>>, lo: seq<nat>, hi: seq<nat>, k: nat, n: nat, s: string, i: nat)
    requires Sized(ps, lo, hi) && k < |ps| && i <= |s| && n <= |ps[k]|
    ensures var r := Try(ps, k, n, s, i);
      r.Some? ==> i + Sum(lo, k) <= r.value.1 <= i + Sum(hi, k)
    decreases |ps| - k, 0, |ps[k]| - n
  {
    var f := FirstFitting(ps[k], n, s, i);
    if f < |ps[k]| {
      var j := i + |ps[k][f]|;
      var m := Match(ps, k + 1, s, j);
      TryCases(ps, k, n, s, i);
      if m.Some? {
        assert ps[k][f] in ps[k];
        MatchBounds(ps, lo, hi, k + 1, s, j);
        assert Try(ps, k, n, s, i).value.1 == m.value.1;
        assert Sum(lo, k) == lo[k] + Sum(lo, k + 1);
        assert Sum(hi, k) == hi[k] + Sum(hi, k + 1);
      } else {
        TryBounds(ps, lo, hi, k, f + 1, s, i);
        assert Try(ps, k, n, s, i) == Try(ps, k, f + 1, s, i);
      }
    }
  }

  /** `int()` of a field's text: its decimal digits as a number (the space
      a `%d` field may start with is skipped, as `int(' 5')` skips it). */
  function Num(t: string): nat
  {
    if |t| == 0 then 0
    else if IsDigit(t[|t| - 1]) then Num(t[..|t| - 1]) * 10 + (t[|t| - 1] as int - '0' as int)
    else Num(t[..|t| - 1])
  }

  /** On a text of digits, `int()` is the decimal value. */
  lemma {:induction false} NumOfDigits(t: string)
    requires AllDigits(t)
    ensures Num(t) == DigitsValue(t)
  {
    if |t| > 0 {
      NumOfDigits(t[..|t| - 1]);
    }
  }

  /** What strptime reads before the range checks: the first match from
      the start of s, which must reach the end of s, as one number per
      directive (a literal's is that of its character, 0 for a separator);
      None is the ValueError. */
  function Fields(ds: seq<Directive>, s: string): (r: Option<seq<nat>>)
    ensures r.Some? ==> |r.value| == |ds| && Sum(MinWidths(ds), 0) <= |s| <= Sum(MaxWidths(ds), 0)
  {
    var m := Match(Pattern(ds), 0, s, 0);
    PatternSized(ds);
    MatchBounds(Pattern(ds), MinWidths(ds), MaxWidths(ds), 0, s, 0);
    if m.Some? && m.value.1 == |s| then Some(FieldValues(m.value.0)) else None
  }

  /** `int()` of every field's text. */
  function FieldValues(ts: seq<string>): (vs: seq<nat>)
    ensures |vs| == |ts| && forall k :: 0 <= k < |ts| ==> vs[k] == Num(ts[k])
  {
    seq(|ts|, k requires 0 <= k < |ts| => Num(ts[k]))
  }

  // ---------------------------------------------------------------------
  // The formats and their readings
  // ---------------------------------------------------------------------

  /** `'%Y-%m-%dT%H:%M:%S'` */
  const IsoLayout: seq<Directive> :=
    [Year, Lit('-'), Month, Lit('-'), Day, Lit('T'), Hour, Lit(':'), Minute, Lit(':'), Second]
  /** `'%Y-%m-%d'` */
  const IsoDateLayout: seq<Directive> := [Year, Lit('-'), Month, Lit('-'), Day]
  /** `'%Y%m%d'` */
  const CompactLayout: seq<Directive> := [Year, Month, Day]
  /** `'%Y%m%d%H%M%S'` */
  const CompactTimeLayout: seq<Directive> := [Year, Month, Day, Hour, Minute, Second]
  /** `'%Y%j'` */
  const YearDayLayout: seq<Directive> := [Year, DayOfYear]

  /** An ISO date and time is 14 to 19 characters long. */
  lemma IsoWidth()
    ensures Sum(MinWidths(IsoLayout), 0) == 14 && Sum(MaxWidths(IsoLayout), 0) == 19
  {
    var lo, hi := MinWidths(IsoLayout), MaxWidths(IsoLayout);
    assert Sum(lo, 11) == 0 && Sum(hi, 11) == 0;
    assert Sum(lo, 10) == 1 && Sum(hi, 10) == 2;
    assert Sum(lo, 9) == 2 && Sum(hi, 9) == 3;
    assert Sum(lo, 8) == 3 && Sum(hi, 8) == 5;
    assert Sum(lo, 7) == 4 && Sum(hi, 7) == 6;
    assert Sum(lo, 6) == 5 && Sum(hi, 6) == 8;
    assert Sum(lo, 5) == 6 && Sum(hi, 5) == 9;
    assert Sum(lo, 4) == 7 && Sum(hi, 4) == 11;
    assert Sum(lo, 3) == 8 && Sum(hi, 3) == 12;
    assert Sum(lo, 2) == 9 && Sum(hi, 2) == 14;
    assert Sum(lo, 1) == 10 && Sum(hi, 1) == 15;
  }

  /** `datetime(...)`: the checks of the constructor. */
  function Checked(t: DateTime): (r: Option<DateTime>)
    ensures r.Some? <==> Valid(t)
    ensures r.Some? ==> r.value == t
  {
    if Valid(t) then Some(t) else None
  }

  /** `datetime.strptime(s, '%Y-%m-%dT%H:%M:%S')`; None is the ValueError. */
  function ParseIso(s: string): (r: Option<DateTime>)
    ensures r.Some? ==> Valid(r.value) && 14 <= |s| <= 19
  {
    var f := Fields(IsoLayout, s);
    IsoWidth();
    if f.None? then None
    else
      var v := f.value;
      Checked(DateTime(v[0], v[2], v[4], v[6], v[8], v[10]))
  }

  /** An ISO date is 8 to 10 characters long. */
  lemma IsoDateWidth()
    ensures Sum(MinWidths(IsoDateLayout), 0) == 8 && Sum(MaxWidths(IsoDateLayout), 0) == 10
  {
    var lo, hi := MinWidths(IsoDateLayout), MaxWidths(IsoDateLayout);
    assert Sum(lo, 5) == 0 && Sum(hi, 5) == 0;
    assert Sum(lo, 4) == 1 && Sum(hi, 4) == 2;
    assert Sum(lo, 3) == 2 && Sum(hi, 3) == 3;
    assert Sum(lo, 2) == 3 && Sum(hi, 2) == 5;
    assert Sum(lo, 1) == 4 && Sum(hi, 1) == 6;
  }

  /** `datetime.strptime(s, '%Y-%m-%d')`. */
  function ParseIsoDate(s: string): (r: Option<DateTime>)
    ensures r.Some? ==> Valid(r.value) && AtMidnight(r.value) && 8 <= |s| <= 10
  {
    var f := Fields(IsoDateLayout, s);
    IsoDateWidth();
    if f.None? then None
    else
      var v := f.value;
      Checked(DateTime(v[0], v[2], v[4], 0, 0, 0))
  }

  /** `datetime.strptime(s, '%Y%m%d')`. */
  function ParseCompactDate(s: string): (r: Option<DateTime>)
    ensures r.Some? ==> Valid(r.value) && AtMidnight(r.value)
  {
    var f := Fields(CompactLayout, s);
    if f.None? then None
    else
      var v := f.value;
      Checked(DateTime(v[0], v[1], v[2], 0, 0, 0))
  }

  /** `datetime.strptime(s, '%Y%m%d%H%M%S')`. */
  function ParseCompactDateTime(s: string): (r: Option<DateTime>)
    ensures r.Some? ==> Valid(r.value)
  {
    var f := Fields(CompactTimeLayout, s);
    if f.None? then None
    else
      var v := f.value;
      Checked(DateTime(v[0], v[1], v[2], v[3], v[4], v[5]))
  }

  /** `datetime.strptime(s, '%Y%j')`: the day of year counts from 1 January
      of the year read (`date(year, 1, 1)` rejects year 0, and a day past
      9999-12-31 does not exist). */
  function ParseYearDay(s: string): (r: Option<DateTime>)
    ensures r.Some? ==> Valid(r.value) && AtMidnight(r.value)
  {
    var f := Fields(YearDayLayout, s);
    if f.None? then None
    else
      var v := f.value;
      if 1 <= v[0] && 1 <= v[1] <= 366 then
        var t := FromDayOfYear(v[0], v[1]);
        Checked(t)
      else None
  }

  // ---------------------------------------------------------------------
  // Writing fields, and reading them back
  // ---------------------------------------------------------------------

  /** The character of n's last decimal digit. */
  function DigitChar(n: nat): char
  {
    (('0' as int) + n % 10) as char
  }

  lemma PadTwo(v: nat)
    requires v < 100
    ensures Pad(v, 2) == [DigitChar(v / 10), DigitChar(v)]
  {
    assert Pad(v / 100, 0) == "";
  }

  lemma PadThree(v: nat)
    requires v < 1000
    ensures Pad(v, 3) == [DigitChar(v / 100), DigitChar(v / 10), DigitChar(v)]
  {
    PadTwo(v / 10);
    assert v / 10 / 10 == v / 100;
  }

  lemma FitsOne(a: Class, s: string, i: nat)
    ensures FitsAt([a], s, i) <==> i < |s| && Admits(a, s[i])
  {
    assert [a][1..] == [];
  }

  lemma FitsTwo(a: Class, b: Class, s: string, i: nat)
    ensures FitsAt([a, b], s, i) <==> i + 1 < |s| && Admits(a, s[i]) && Admits(b, s[i + 1])
  {
    assert [a, b][1..] == [b];
    FitsOne(b, s, i + 1);
  }

  lemma FitsThree(a: Class, b: Class, c: Class, s: string, i: nat)
    ensures FitsAt([a, b, c], s, i) <==>
      i + 2 < |s| && Admits(a, s[i]) && Admits(b, s[i + 1]) && Admits(c, s[i + 2])
  {
    assert [a, b, c][1..] == [b, c];
    FitsTwo(b, c, s, i + 1);
  }

  /** A field is written with one digit: a value below ten of a one- or
      two-digit field, when the writer leaves out the leading zero. */
  predicate Narrowed(d: Directive, v: nat, short: bool)
  {
    short && !d.Lit? && !d.Year? && !d.DayOfYear? && v < 10
  }

  /** The text of one directive: a literal character, or a field
      zero-padded to its width (`strftime`), or with one digit when
      narrowed (as in '2020-1-5'). */
  function Piece(d: Directive, v: nat, short: bool): (p: string)
    ensures |p| == (if Narrowed(d, v, short) then 1 else MaxWidth(d))
  {
    if d.Lit? then [d.c]
    else if Narrowed(d, v, short) then [DigitChar(v)]
    else Pad(v, MaxWidth(d))
  }

  /** The values a directive's group can read back (a valid datetime's
      fields are in range); a literal's value is the one Fields gives it. */
  predicate InRange(d: Directive, v: nat)
  {
    match d
    case Year => v <= 9999
    case Month => 1 <= v <= 12
    case Day => 1 <= v <= 31
    case Hour => v <= 23
    case Minute => v <= 59
    case Second => v <= 61
    case DayOfYear => 1 <= v <= 366
    case Lit(c) => v == Num([c])
  }

  /** The text written for ds[k..] with values vs, narrowing the fields
      marked in short. */
  function Render(ds: seq<Directive>, k: nat, vs: seq<nat>, short: seq<bool>): string
    requires k <= |ds| && |vs| == |ds| && |short| == |ds|
    decreases |ds| - k
  {
    if k == |ds| then "" else Piece(ds[k], vs[k], short[k]) + Render(ds, k + 1, vs, short)
  }

  /** The text of each directive in that writing. */
  function Texts(ds: seq<Directive>, k: nat, vs: seq<nat>, short: seq<bool>): (ts: seq<string>)
    requires k <= |ds| && |vs| == |ds| && |short| == |ds|
  {
    seq(|ds| - k, j requires 0 <= j < |ds| - k => Piece(ds[k + j], vs[k + j], short[k + j]))
  }

  /** Every value in its group's range, and every narrowed field followed
      by a literal that is not a digit, or last. */
  predicate Writable(ds: seq<Directive>, vs: seq<nat>, short: seq<bool>)
    requires |vs| == |ds| && |short| == |ds|
  {
    forall k :: 0 <= k < |ds| ==>
      InRange(ds[k], vs[k]) &&
      (Narrowed(ds[k], vs[k], short[k]) ==> k + 1 == |ds| || (ds[k + 1].Lit? && !IsDigit(ds[k + 1].c)))
  }

  /** One step of Try, for callers whose groups are not abstract. */
  lemma TryCases(ps: seq<seq<seq<Class>>>, k: nat, n: nat, s: string, i: nat)
    requires k < |ps| && i <= |s| && n <= |ps[k]|
    ensures var f := FirstFitting(ps[k], n, s, i);
      f < |ps[k]| ==>
        var m := Match(ps, k + 1, s, i + |ps[k][f]|);
        Try(ps, k, n, s, i) ==
          if m.Some? then Some(([s[i..i + |ps[k][f]|]] + m.value.0, m.value.1)) else Try(ps, k, f + 1, s, i)
  {
  }

  /** Group k takes its alternative n, ending at j, when that is the first
      from the m-th on that reads at i and the remaining groups match
      after it. */
  lemma TryTakes(ps: seq<seq<seq<Class>>>, k: nat, m: nat, s: string, i: nat, n: nat, j: nat)
    requires k < |ps| && i <= |s| && m <= |ps[k]|
    requires n < |ps[k]| && FirstFitting(ps[k], m, s, i) == n && j == i + |ps[k][n]|
    requires Match(ps, k + 1, s, j).Some?
    ensures Try(ps, k, m, s, i).Some?
    ensures Try(ps, k, m, s, i).value.0 == [s[i..j]] + Match(ps, k + 1, s, j).value.0
    ensures Try(ps, k, m, s, i).value.1 == Match(ps, k + 1, s, j).value.1
  {
  }

  /** Group k backtracks past its alternative n when the remaining groups
      do not match after it. */
  lemma TrySkips(ps: seq<seq<seq<Class>>>, k: nat, m: nat, s: string, i: nat, n: nat)
    requires k < |ps| && i <= |s| && m <= |ps[k]|
    requires n < |ps[k]| && FirstFitting(ps[k], m, s, i) == n
    requires Match(ps, k + 1, s, i + |ps[k][n]|).None?
    ensures Try(ps, k, m, s, i) == Try(ps, k, n + 1, s, i)
  {
  }

  /** Group k fails when none of its alternatives from the m-th on reads. */
  lemma TryFails(ps: seq<seq<seq<Class>>>, k: nat, m: nat, s: string, i: nat)
    requires k < |ps| && i <= |s| && m <= |ps[k]| && FirstFitting(ps[k], m, s, i) == |ps[k]|
    ensures Try(ps, k, m, s, i).None?
  {
  }

  /** Group k takes its alternative n, ending at j, when that is the first
      that reads at i and the remaining groups match after it. */
  lemma MatchTakes(ps: seq<seq<seq<Class>>>, k: nat, s: string, i: nat, n: nat, j: nat)
    requires k < |ps| && i <= |s|
    requires n < |ps[k]| && FirstFitting(ps[k], 0, s, i) == n && j == i + |ps[k][n]|
    requires Match(ps, k + 1, s, j).Some?
    ensures Match(ps, k, s, i).Some?
    ensures Match(ps, k, s, i).value.0 == [s[i..j]] + Match(ps, k + 1, s, j).value.0
    ensures Match(ps, k, s, i).value.1 == Match(ps, k + 1, s, j).value.1
  {
    assert Match(ps, k, s, i) == Try(ps, k, 0, s, i);
    TryTakes(ps, k, 0, s, i, n, j);
  }

  /** The first alternative from alts[m] on that reads is the n-th when
      it reads and none between does. */
  lemma {:induction false} FirstFittingIs(alts: seq<seq<Class>>, s: string, i: nat, m: nat, n: nat)
    requires m <= n < |alts| && FitsAt(alts[n], s, i)
    requires forall j :: m <= j < n ==> !FitsAt(alts[j], s, i)
    ensures FirstFitting(alts, m, s, i) == n
    decreases n - m
  {
    if m < n {
      FirstFittingIs(alts, s, i, m + 1, n);
    }
  }

  lemma FitsFour(a: Class, b: Class, c: Class, e: Class, s: string, i: nat)
    ensures FitsAt([a, b, c, e], s, i) <==>
      i + 3 < |s| && Admits(a, s[i]) && Admits(b, s[i + 1]) && Admits(c, s[i + 2]) && Admits(e, s[i + 3])
  {
    assert [a, b, c, e][1..] == [b, c, e];
    FitsThree(b, c, e, s, i + 1);
  }

  /** s holds at i the text written for one directive, followed, when
      the field is narrowed, by the end of s or a character that is not a
      digit. */
  predicate WrittenAt(d: Directive, v: nat, short: bool, s: string, i: nat)
  {
    var p := Piece(d, v, short);
    i + |p| <= |s| && s[i..i + |p|] == p &&
    (Narrowed(d, v, short) ==> i + 1 == |s| || !IsDigit(s[i + 1]))
  }

  /** The n-th alternative of d's group is the first that reads at i, and
      it reads as many characters as were written. */
  predicate ReadsFirst(d: Directive, v: nat, short: bool, s: string, i: nat, n: nat)
  {
    n < |Alternatives(d)| && |Alternatives(d)[n]| == |Piece(d, v, short)| &&
    FirstFitting(Alternatives(d), 0, s, i) == n
  }

  /** The characters of a one- or two-digit field as written. */
  lemma SmallField(d: Directive, v: nat, short: bool, s: string, i: nat)
    requires MaxWidth(d) == 2 && !d.Lit? && v < 100 && WrittenAt(d, v, short, s, i)
    ensures Narrowed(d, v, short) ==> i < |s| && s[i] == DigitChar(v) && (i + 1 == |s| || !IsDigit(s[i + 1]))
    ensures !Narrowed(d, v, short) ==> i + 1 < |s| && s[i] == DigitChar(v / 10) && s[i + 1] == DigitChar(v)
  {
    var p := Piece(d, v, short);
    assert s[i..i + |p|][0] == s[i];
    if !Narrowed(d, v, short) {
      PadTwo(v);
      assert s[i..i + |p|][1] == s[i + 1];
    }
  }

  lemma MonthReadsFirst(v: nat, short: bool, s: string, i: nat) returns (n: nat)
    requires InRange(Month, v) && WrittenAt(Month, v, short, s, i)
    ensures ReadsFirst(Month, v, short, s, i, n)
  {
    var alts := MonthAlternatives;
    SmallField(Month, v, short, s, i);
    FitsTwo(One('1'), Between('0', '2'), s, i);
    FitsTwo(One('0'), Between('1', '9'), s, i);
    FitsOne(Between('1', '9'), s, i);
    n := if Narrowed(Month, v, short) then 2 else if v >= 10 then 0 else 1;
    FirstFittingIs(alts, s, i, 0, n);
  }

  lemma DayReadsFirst(v: nat, short: bool, s: string, i: nat) returns (n: nat)
    requires InRange(Day, v) && WrittenAt(Day, v, short, s, i)
    ensures ReadsFirst(Day, v, short, s, i, n)
  {
    var alts := DayAlternatives;
    SmallField(Day, v, short, s, i);
    FitsTwo(One('3'), Between('0', '1'), s, i);
    FitsTwo(Between('1', '2'), AnyDigit, s, i);
    FitsTwo(One('0'), Between('1', '9'), s, i);
    FitsOne(Between('1', '9'), s, i);
    n := if Narrowed(Day, v, short) then 3 else if v >= 30 then 0 else if v >= 10 then 1 else 2;
    FirstFittingIs(alts, s, i, 0, n);
  }

  lemma HourReadsFirst(v: nat, short: bool, s: string, i: nat) returns (n: nat)
    requires InRange(Hour, v) && WrittenAt(Hour, v, short, s, i)
    ensures ReadsFirst(Hour, v, short, s, i, n)
  {
    var alts := HourAlternatives;
    SmallField(Hour, v, short, s, i);
    FitsTwo(One('2'), Between('0', '3'), s, i);
    FitsTwo(Between('0', '1'), AnyDigit, s, i);
    FitsOne(AnyDigit, s, i);
    n := if Narrowed(Hour, v, short) then 2 else if v >= 20 then 0 else 1;
    FirstFittingIs(alts, s, i, 0, n);
  }

  lemma MinuteReadsFirst(v: nat, short: bool, s: string, i: nat) returns (n: nat)
    requires InRange(Minute, v) && WrittenAt(Minute, v, short, s, i)
    ensures ReadsFirst(Minute, v, short, s, i, n)
  {
    var alts := MinuteAlternatives;
    SmallField(Minute, v, short, s, i);
    FitsTwo(Between('0', '5'), AnyDigit, s, i);
    FitsOne(AnyDigit, s, i);
    n := if Narrowed(Minute, v, short) then 1 else 0;
    FirstFittingIs(alts, s, i, 0, n);
  }

  lemma SecondReadsFirst(v: nat, short: bool, s: string, i: nat) returns (n: nat)
    requires InRange(Second, v) && WrittenAt(Second, v, short, s, i)
    ensures ReadsFirst(Second, v, short, s, i, n)
  {
    var alts := SecondAlternatives;
    SmallField(Second, v, short, s, i);
    FitsTwo(One('6'), Between('0', '1'), s, i);
    FitsTwo(Between('0', '5'), AnyDigit, s, i);
    FitsOne(AnyDigit, s, i);
    n := if Narrowed(Second, v, short) then 2 else if v >= 60 then 0 else 1;
    FirstFittingIs(alts, s, i, 0, n);
  }

  lemma YearReadsFirst(v: nat, short: bool, s: string, i: nat) returns (n: nat)
    requires InRange(Year, v) && WrittenAt(Year, v, short, s, i)
    ensures ReadsFirst(Year, v, short, s, i, n)
  {
    var p := Piece(Year, v, short);
    assert AllDigits(p);
    assert s[i..i + 4][0] == s[i] && s[i..i + 4][1] == s[i + 1];
    assert s[i..i + 4][2] == s[i + 2] && s[i..i + 4][3] == s[i + 3];
    FitsFour(AnyDigit, AnyDigit, AnyDigit, AnyDigit, s, i);
    n := 0;
    FirstFittingIs(YearAlternatives, s, i, 0, n);
  }

  /** The characters of a three-digit field as written. */
  lemma ThreeDigitField(v: nat, short: bool, s: string, i: nat)
    requires InRange(DayOfYear, v) && WrittenAt(DayOfYear, v, short, s, i)
    ensures i + 2 < |s|
    ensures s[i] == ('0' as int + v / 100) as char
    ensures s[i + 1] == ('0' as int + v / 10 % 10) as char
    ensures s[i + 2] == ('0' as int + v % 10) as char
  {
    PadThree(v);
    assert s[i..i + 3][0] == s[i] && s[i..i + 3][1] == s[i + 1] && s[i..i + 3][2] == s[i + 2];
  }

  lemma DayOfYearReadsFirst(v: nat, short: bool, s: string, i: nat) returns (n: nat)
    requires InRange(DayOfYear, v) && WrittenAt(DayOfYear, v, short, s, i)
    ensures ReadsFirst(DayOfYear, v, short, s, i, n)
  {
    var alts := DayOfYearAlternatives;
    ThreeDigitField(v, short, s, i);
    n := if v >= 360 then 0 else if v >= 300 then 1 else if v >= 100 then 2 else if v >= 10 then 3 else 4;
    FitsThree(alts[n][0], alts[n][1], alts[n][2], s, i);
    assert alts[n] == [alts[n][0], alts[n][1], alts[n][2]];
    forall j | 0 <= j < n
      ensures !FitsAt(alts[j], s, i)
    {
      FitsThree(alts[j][0], alts[j][1], alts[j][2], s, i);
      assert alts[j] == [alts[j][0], alts[j][1], alts[j][2]];
    }
    FirstFittingIs(alts, s, i, 0, n);
  }

  lemma LitReadsFirst(c: char, v: nat, short: bool, s: string, i: nat) returns (n: nat)
    requires WrittenAt(Lit(c), v, short, s, i)
    ensures ReadsFirst(Lit(c), v, short, s, i, n)
  {
    assert s[i..i + 1][0] == s[i];
    FitsOne(Exactly(c), s, i);
    n := 0;
    FirstFittingIs(Alternatives(Lit(c)), s, i, 0, n);
  }

  lemma PieceReadsFirst(d: Directive, v: nat, short: bool, s: string, i: nat) returns (n: nat)
    requires InRange(d, v) && WrittenAt(d, v, short, s, i)
    ensures ReadsFirst(d, v, short, s, i, n)
  {
    match d
    case Year => n := YearReadsFirst(v, short, s, i);
    case Month => n := MonthReadsFirst(v, short, s, i);
    case Day => n := DayReadsFirst(v, short, s, i);
    case Hour => n := HourReadsFirst(v, short, s, i);
    case Minute => n := MinuteReadsFirst(v, short, s, i);
    case Second => n := SecondReadsFirst(v, short, s, i);
    case DayOfYear => n := DayOfYearReadsFirst(v, short, s, i);
    case Lit(c) => n := LitReadsFirst(c, v, short, s, i);
  }

  /** ps holds the groups of the directives ds. */
  predicate Compiles(ps: seq<seq<seq<Class>>>, ds: seq<Directive>)
  {
    |ps| == |ds| && forall g :: 0 <= g < |ds| ==> ps[g] == Alternatives(ds[g])
  }

  /** A text written for the directives ds[k..] is matched group by group
      along the pieces it was written in, and the match reaches its end. */
  lemma {:induction false} ReadRendered(ps: seq<seq<seq<Class>>>, ds: seq<Directive>, k: nat, vs: seq<nat>, short: seq<bool>, s: string, i: nat)
    requires Compiles(ps, ds) && k <= |ds| && |vs| == |ds| && |short| == |ds| && Writable(ds, vs, short)
    requires i <= |s| && s[i..] == Render(ds, k, vs, short)
    ensures Match(ps, k, s, i).Some?
    ensures Match(ps, k, s, i).value.0 == Texts(ds, k, vs, short)
    ensures Match(ps, k, s, i).value.1 == |s|
    decreases |ds| - k
  {
    if k < |ds| {
      var p := Piece(ds[k], vs[k], short[k]);
      var j := i + |p|;
      assert s[i..] == p + Render(ds, k + 1, vs, short);
      assert s[i..j] == p && s[j..] == Render(ds, k + 1, vs, short) by {
        assert s[i..j] == s[i..][..|p|];
        assert s[j..] == s[i..][|p|..];
      }
      if Narrowed(ds[k], vs[k], short[k]) && k + 1 < |ds| {
        assert s[j] == s[j..][0] == ds[k + 1].c;
      }
      var n := PieceReadsFirst(ds[k], vs[k], short[k], s, i);
      assert ps[k] == Alternatives(ds[k]);
      ReadRendered(ps, ds, k + 1, vs, short, s, j);
      MatchTakes(ps, k, s, i, n, j);
      TextsCons(ds, k, vs, short);
    } else {
      assert |s[i..]| == 0;
      assert Texts(ds, k, vs, short) == [];
    }
  }

  lemma TextsCons(ds: seq<Directive>, k: nat, vs: seq<nat>, short: seq<bool>)
    requires k < |ds| && |vs| == |ds| && |short| == |ds|
    ensures Texts(ds, k, vs, short) == [Piece(ds[k], vs[k], short[k])] + Texts(ds, k + 1, vs, short)
  {
  }

  /** `int()` reads back the value a field was written with. */
  lemma PieceValue(d: Directive, v: nat, short: bool)
    requires InRange(d, v)
    ensures Num(Piece(d, v, short)) == v
  {
    var p := Piece(d, v, short);
    if d.Lit? {
    } else if Narrowed(d, v, short) {
      assert p[..0] == [];
    } else {
      assert Pow10(2) == 100 && Pow10(3) == 1000 && Pow10(4) == 10000;
      PadValue(v, MaxWidth(d));
      NumOfDigits(p);
    }
  }

  /** Writing values and reading the text back gives the values: strptime
      inverts the writing, with every field zero-padded as strftime writes
      it or narrowed to one digit where a separator follows. */
  lemma ReadBack(ds: seq<Directive>, vs: seq<nat>, short: seq<bool>)
    requires |vs| == |ds| && |short| == |ds| && Writable(ds, vs, short)
    ensures Fields(ds, Render(ds, 0, vs, short)) == Some(vs)
  {
    var s := Render(ds, 0, vs, short);
    ReadRendered(Pattern(ds), ds, 0, vs, short, s, 0);
    var ts := Texts(ds, 0, vs, short);
    forall k | 0 <= k < |ds|
      ensures Num(ts[k]) == vs[k]
    {
      PieceValue(ds[k], vs[k], short[k]);
    }
    assert FieldValues(ts) == vs;
  }

  // ---------------------------------------------------------------------
  // The formats read back
  // ---------------------------------------------------------------------

  /** A separator that is not a digit reads as 0. */
  lemma SeparatorValue(c: char)
    requires !IsDigit(c)
    ensures Num([c]) == 0
  {
    assert [c][..0] == [];
  }

  /** The values of t's fields in the directives of `'%Y-%m-%dT%H:%M:%S'`. */
  function IsoValues(t: DateTime): (vs: seq<nat>)
    ensures |vs| == |IsoLayout|
  {
    [t.year, 0, t.month, 0, t.day, 0, t.hour, 0, t.minute, 0, t.second]
  }

  /** No field narrowed: the fields as strftime pads them. */
  function Padded(n: nat): (short: seq<bool>)
    ensures |short| == n && forall k :: 0 <= k < n ==> !short[k]
  {
    seq(n, k => false)
  }

  /** Any field of a valid datetime may be narrowed in the ISO layout:
      every one- or two-digit field there is followed by a separator or
      last. */
  lemma IsoWritable(t: DateTime, short: seq<bool>)
    requires Valid(t) && |short| == |IsoLayout|
    ensures Writable(IsoLayout, IsoValues(t), short)
  {
    SeparatorValue('-');
    SeparatorValue('T');
    SeparatorValue(':');
  }

  /** The text written for ds[..k], built from the left. */
  function RenderFront(ds: seq<Directive>, k: nat, vs: seq<nat>, short: seq<bool>): string
    requires k <= |ds| && |vs| == |ds| && |short| == |ds|
  {
    if k == 0 then "" else RenderFront(ds, k - 1, vs, short) + Piece(ds[k - 1], vs[k - 1], short[k - 1])
  }

  /** Writing from the left and from the right gives the same text. */
  lemma {:induction false} RenderSplit(ds: seq<Directive>, k: nat, vs: seq<nat>, short: seq<bool>)
    requires k <= |ds| && |vs| == |ds| && |short| == |ds|
    ensures RenderFront(ds, k, vs, short) + Render(ds, k, vs, short) == Render(ds, 0, vs, short)
  {
    if k > 0 {
      RenderSplit(ds, k - 1, vs, short);
      var f, p, r := RenderFront(ds, k - 1, vs, short), Piece(ds[k - 1], vs[k - 1], short[k - 1]), Render(ds, k, vs, short);
      assert Render(ds, k - 1, vs, short) == p + r;
      assert RenderFront(ds, k, vs, short) == f + p;
      Regroup(f, p, r);
    } else {
      Regroup("", "", Render(ds, 0, vs, short));
    }
  }

  /** Concatenation regroups. */
  lemma Regroup(f: string, p: string, r: string)
    ensures (f + p) + r == f + (p + r)
  {
  }

  /** `isoformat()` is the ISO layout written with every field padded. */
  lemma IsoRendered(t: DateTime)
    requires Valid(t)
    ensures Render(IsoLayout, 0, IsoValues(t), Padded(11)) == IsoFormat(t)
  {
    var ds, vs, sh := IsoLayout, IsoValues(t), Padded(11);
    RenderSplit(ds, 11, vs, sh);
    assert RenderFront(ds, 1, vs, sh) == Pad(t.year, 4) by {
      assert "" + Pad(t.year, 4) == Pad(t.year, 4);
    }
    assert RenderFront(ds, 2, vs, sh) == Pad(t.year, 4) + "-";
    assert RenderFront(ds, 3, vs, sh) == Pad(t.year, 4) + "-" + Pad(t.month, 2);
    assert RenderFront(ds, 4, vs, sh) == Pad(t.year, 4) + "-" + Pad(t.month, 2) + "-";
    assert RenderFront(ds, 5, vs, sh) == IsoDate(t);
    assert RenderFront(ds, 6, vs, sh) == IsoDate(t) + "T";
    assert RenderFront(ds, 7, vs, sh) == IsoDate(t) + "T" + Pad(t.hour, 2);
    assert RenderFront(ds, 8, vs, sh) == IsoDate(t) + "T" + Pad(t.hour, 2) + ":";
    assert RenderFront(ds, 9, vs, sh) == IsoDate(t) + "T" + Pad(t.hour, 2) + ":" + Pad(t.minute, 2);
    assert RenderFront(ds, 10, vs, sh) == IsoDate(t) + "T" + Pad(t.hour, 2) + ":" + Pad(t.minute, 2) + ":";
    assert RenderFront(ds, 11, vs, sh) == IsoFormat(t);
    assert RenderFront(ds, 11, vs, sh) + "" == RenderFront(ds, 11, vs, sh);
  }

  /** strptime reads an ISO date and time back whichever of its fields are
      written without their leading zero ('2020-01-05T1:2:3' included). */
  lemma IsoReadsNarrowed(t: DateTime, short: seq<bool>)
    requires Valid(t) && |short| == |IsoLayout|
    ensures ParseIso(Render(IsoLayout, 0, IsoValues(t), short)) == Some(t)
  {
    IsoWritable(t, short);
    ReadBack(IsoLayout, IsoValues(t), short);
  }

  /** Reading `isoformat()` back gives the datetime itself. */
  lemma IsoRoundTrip(t: DateTime)
    requires Valid(t)
    ensures ParseIso(IsoFormat(t)) == Some(t)
  {
    IsoRendered(t);
    IsoReadsNarrowed(t, Padded(11));
  }

  /** The values of t's fields in the directives of `'%Y-%m-%d'`. */
  function IsoDateValues(t: DateTime): (vs: seq<nat>)
    ensures |vs| == |IsoDateLayout|
  {
    [t.year, 0, t.month, 0, t.day]
  }

  lemma IsoDateWritable(t: DateTime, short: seq<bool>)
    requires Valid(t) && |short| == |IsoDateLayout|
    ensures Writable(IsoDateLayout, IsoDateValues(t), short)
  {
    SeparatorValue('-');
  }

  /** `strftime('%Y-%m-%d')` is the ISO date layout written with every
      field padded. */
  lemma IsoDateRendered(t: DateTime)
    requires Valid(t)
    ensures Render(IsoDateLayout, 0, IsoDateValues(t), Padded(5)) == IsoDate(t)
  {
    var ds, vs, sh := IsoDateLayout, IsoDateValues(t), Padded(5);
    RenderSplit(ds, 5, vs, sh);
    assert RenderFront(ds, 1, vs, sh) == Pad(t.year, 4) by {
      assert "" + Pad(t.year, 4) == Pad(t.year, 4);
    }
    assert RenderFront(ds, 2, vs, sh) == Pad(t.year, 4) + "-";
    assert RenderFront(ds, 3, vs, sh) == Pad(t.year, 4) + "-" + Pad(t.month, 2);
    assert RenderFront(ds, 4, vs, sh) == Pad(t.year, 4) + "-" + Pad(t.month, 2) + "-";
    assert RenderFront(ds, 5, vs, sh) == IsoDate(t);
    assert RenderFront(ds, 5, vs, sh) + "" == RenderFront(ds, 5, vs, sh);
  }

  /** strptime reads an ISO date back whichever of its month and day are
      written without their leading zero ('2020-1-5' included). */
  lemma IsoDateReadsNarrowed(t: DateTime, short: seq<bool>)
    requires Valid(t) && |short| == |IsoDateLayout|
    ensures ParseIsoDate(Render(IsoDateLayout, 0, IsoDateValues(t), short)) == Some(DateOf(t))
  {
    IsoDateWritable(t, short);
    ReadBack(IsoDateLayout, IsoDateValues(t), short);
  }

  /** Reading a `%Y-%m-%d` text back gives that day at midnight. */
  lemma IsoDateRoundTrip(t: DateTime)
    requires Valid(t)
    ensures ParseIsoDate(IsoDate(t)) == Some(DateOf(t))
  {
    IsoDateRendered(t);
    IsoDateReadsNarrowed(t, Padded(5));
  }

  /** The values of t's fields in the directives of `'%Y%m%d'`. */
  function CompactValues(t: DateTime): (vs: seq<nat>)
    ensures |vs| == |CompactLayout|
  {
    [t.year, t.month, t.day]
  }

  /** `strftime('%Y%m%d')` is the compact layout written with every field
      padded. */
  lemma CompactRendered(t: DateTime)
    requires Valid(t)
    ensures Render(CompactLayout, 0, CompactValues(t), Padded(3)) == Compact(t)
  {
    var ds, vs, sh := CompactLayout, CompactValues(t), Padded(3);
    RenderSplit(ds, 3, vs, sh);
    assert RenderFront(ds, 1, vs, sh) == Pad(t.year, 4) by {
      assert "" + Pad(t.year, 4) == Pad(t.year, 4);
    }
    assert RenderFront(ds, 2, vs, sh) == Pad(t.year, 4) + Pad(t.month, 2);
    assert RenderFront(ds, 3, vs, sh) == Compact(t);
    assert RenderFront(ds, 3, vs, sh) + "" == RenderFront(ds, 3, vs, sh);
  }

  /** Reading a `%Y%m%d` text back gives that day at midnight. */
  lemma CompactRoundTrip(t: DateTime)
    requires Valid(t)
    ensures ParseCompactDate(Compact(t)) == Some(DateOf(t))
  {
    CompactRendered(t);
    assert Writable(CompactLayout, CompactValues(t), Padded(3));
    ReadBack(CompactLayout, CompactValues(t), Padded(3));
  }

  /** Two valid days with the same `%Y%m%d` text are the same day. */
  lemma CompactInjective(a: DateTime, b: DateTime)
    requires Valid(a) && Valid(b) && Compact(a) == Compact(b)
    ensures DateOf(a) == DateOf(b)
  {
    CompactRoundTrip(a);
    CompactRoundTrip(b);
  }

  /** The values of t's fields in the directives of `'%Y%m%d%H%M%S'`. */
  function CompactTimeValues(t: DateTime): (vs: seq<nat>)
    ensures |vs| == |CompactTimeLayout|
  {
    [t.year, t.month, t.day, t.hour, t.minute, t.second]
  }

  /** A fourteen-digit time tag reads back as the datetime it was written
      from. */
  lemma CompactTimeRoundTrip(t: DateTime)
    requires Valid(t)
    ensures ParseCompactDateTime(Render(CompactTimeLayout, 0, CompactTimeValues(t), Padded(6))) == Some(t)
  {
    assert Writable(CompactTimeLayout, CompactTimeValues(t), Padded(6));
    ReadBack(CompactTimeLayout, CompactTimeValues(t), Padded(6));
  }

  /** A `%Y%j` text with a three-digit day of year reads back as that day:
      the doy-th day from 1 January, or None past 9999-12-31. */
  lemma YearDayRoundTrip(y: nat, doy: nat)
    requires 1 <= y <= 9999 && 1 <= doy <= 366
    ensures ParseYearDay(Render(YearDayLayout, 0, [y, doy], Padded(2))) == Checked(FromDayOfYear(y, doy))
  {
    assert Writable(YearDayLayout, [y, doy], Padded(2));
    ReadBack(YearDayLayout, [y, doy], Padded(2));
  }

  const ShortTag: string := "201510161234"

  /** The minute and second groups of `'%Y%m%d%H%M%S'` on '34' at the end
      of '201510161234': the minute group first takes '34', which leaves the
      second group nothing, so it backtracks to '3' and the seconds are '4'. */
  lemma ShortTagBacktracks(ps: seq<seq<seq<Class>>>)
    requires Compiles(ps, CompactTimeLayout)
    ensures var m := Match(ps, 4, ShortTag, 10);
      m.Some? && m.value.0 == ["3", "4"] && m.value.1 == 12
  {
    var s := ShortTag;
    assert ps[5] == SecondAlternatives && ps[4] == MinuteAlternatives;
    assert FirstFitting(ps[5], 0, s, 12) == 3;
    TryFails(ps, 5, 0, s, 12);
    assert Match(ps, 5, s, 12).None?;
    assert FirstFitting(ps[5], 0, s, 11) == 2;
    MatchTakes(ps, 5, s, 11, 2, 12);
    assert FirstFitting(ps[4], 0, s, 10) == 0;
    TrySkips(ps, 4, 0, s, 10, 0);
    assert FirstFitting(ps[4], 1, s, 10) == 1;
    TryTakes(ps, 4, 1, s, 10, 1, 11);
    assert Match(ps, 4, s, 10) == Try(ps, 4, 0, s, 10);
    assert s[10..11] == "3" && s[11..12] == "4";
  }

  /** The day and hour groups take their first reading. */
  lemma ShortTagTime(ps: seq<seq<seq<Class>>>)
    requires Compiles(ps, CompactTimeLayout)
    ensures var m := Match(ps, 2, ShortTag, 6);
      m.Some? && m.value.0 == ["16", "12", "3", "4"] && m.value.1 == 12
  {
    var s := ShortTag;
    ShortTagBacktracks(ps);
    assert ps[3] == HourAlternatives && FirstFitting(ps[3], 0, s, 8) == 1;
    MatchTakes(ps, 3, s, 8, 1, 10);
    assert ps[2] == DayAlternatives && FirstFitting(ps[2], 0, s, 6) == 1;
    MatchTakes(ps, 2, s, 6, 1, 8);
    assert s[6..8] == "16" && s[8..10] == "12";
  }

  /** The year and month groups take their first reading. */
  lemma ShortTagMatch(ps: seq<seq<seq<Class>>>)
    requires Compiles(ps, CompactTimeLayout)
    ensures var m := Match(ps, 0, ShortTag, 0);
      m.Some? && m.value.0 == ["2015", "10", "16", "12", "3", "4"] && m.value.1 == 12
  {
    var s := ShortTag;
    ShortTagTime(ps);
    assert ps[1] == MonthAlternatives && FirstFitting(ps[1], 0, s, 4) == 0;
    MatchTakes(ps, 1, s, 4, 0, 6);
    assert ps[0] == YearAlternatives && FirstFitting(ps[0], 0, s, 0) == 0;
    MatchTakes(ps, 0, s, 0, 0, 4);
    assert s[0..4] == "2015" && s[4..6] == "10";
  }

  lemma ShortTagValues()
    ensures FieldValues(["2015", "10", "16", "12", "3", "4"]) == [2015, 10, 16, 12, 3, 4]
  {
    assert "2015"[..3] == "201" && "201"[..2] == "20" && "20"[..1] == "2" && "2"[..0] == "";
    assert "10"[..1] == "1" && "16"[..1] == "1" && "12"[..1] == "1" && "1"[..0] == "";
    assert "3"[..0] == "" && "4"[..0] == "";
  }

  /** So the time tag '201510161234' stands for 2015-10-16 12:03:04. */
  lemma ShortTagReads()
    ensures ParseCompactDateTime(ShortTag) == Some(DateTime(2015, 10, 16, 12, 3, 4))
  {
    ShortTagMatch(Pattern(CompactTimeLayout));
    ShortTagValues();
  }

  /** '2020-1-5' is 5 January 2020 written with the month and the day
      narrowed. */
  lemma NarrowIsoDateText()
    ensures Render(IsoDateLayout, 0, [2020, 0, 1, 0, 5], [false, false, true, false, true]) == "2020-1-5"
  {
    var ds, vs, short := IsoDateLayout, [2020, 0, 1, 0, 5], [false, false, true, false, true];
    assert Piece(Day, 5, true) == "5" && Piece(Month, 1, true) == "1";
    assert Pad(2020, 4) == "2020";
    assert Render(ds, 5, vs, short) == "";
    assert Render(ds, 4, vs, short) == "5";
    assert Render(ds, 3, vs, short) == "-5";
    assert Render(ds, 2, vs, short) == "1-5";
    assert Render(ds, 1, vs, short) == "-1-5";
  }

  /** '2020-1-5' is read as 5 January 2020 by `'%Y-%m-%d'`. */
  lemma NarrowIsoDate()
    ensures ParseIsoDate("2020-1-5") == Some(DateTime(2020, 1, 5, 0, 0, 0))
  {
    var t := DateTime(2020, 1, 5, 0, 0, 0);
    IsoDateReadsNarrowed(t, [false, false, true, false, true]);
    assert IsoDateValues(t) == [2020, 0, 1, 0, 5] && DateOf(t) == t;
    NarrowIsoDateText();
  }
}
