/** Result and option types shared by every module of the model.

    The Python code signals failure by raising; each exception class that the
    modelled code can raise becomes one constructor of PyError, and an
    operation that may raise returns a Result. */
module Base {

  /** The exceptions the modelled code raises (or lets escape). */
  datatype PyError =
    | ValueError       // bad attribute value, unparsable date string
    | IndexError       // indexing past the end of a list or of a split
    | TypeError        // operation applied to None or to the wrong kind of value
    | KeyError         // missing dictionary key
    | AttributeError   // method called on None (e.g. None.date())
    | OverflowError    // date arithmetic past year 9999
    | ConnectionError  // failed log-in or non-success HTTP status
    | DownloadError    // a transfer raised while streaming a file to disk

  datatype Option<+T> = None | Some(value: T)

  datatype Result<+T> = Ok(value: T) | Err(error: PyError) {
    predicate IsFailure() { Err? }

    function PropagateFailure<U>(): Result<U>
      requires Err?
    {
      Err(error)
    }

    function Extract(): T
      requires Ok?
    {
      value
    }
  }

  /** Applying a fallible operation to every element in order: all the
      results, or the error of the first element that fails. */
  function MapAll<T, U>(f: T -> Result<U>, xs: seq<T>): (r: Result<seq<U>>)
    ensures r.Ok? <==> forall i :: 0 <= i < |xs| ==> f(xs[i]).Ok?
    ensures r.Ok? ==> (|r.value| == |xs| &&
      forall i :: 0 <= i < |xs| ==> f(xs[i]) == Ok(r.value[i]))
    ensures r.Err? ==>
      exists i :: 0 <= i < |xs| && f(xs[i]) == Err(r.error) &&
        forall j :: 0 <= j < i ==> f(xs[j]).Ok?
    decreases |xs|
  {
    if |xs| == 0 then Ok([])
    else
      var init := xs[..|xs| - 1];
      assert forall i :: 0 <= i < |init| ==> init[i] == xs[i];
      var ps := MapAll(f, init);
      if ps.Err? then Err(ps.error)
      else
        var p := f(xs[|xs| - 1]);
        if p.Err? then Err(p.error)
        else Ok(ps.value + [p.value])
  }

  /** An error in a prefix is the error of the whole sequence. */
  lemma MapAllPrefixErr<T, U>(f: T -> Result<U>, xs: seq<T>, n: nat)
    requires n <= |xs|
    requires MapAll(f, xs[..n]).Err?
    ensures MapAll(f, xs) == MapAll(f, xs[..n])
  {
    var e := MapAll(f, xs[..n]);
    var i :| 0 <= i < n && f(xs[..n][i]) == Err(e.error) &&
      forall j :: 0 <= j < i ==> f(xs[..n][j]).Ok?;
    assert f(xs[i]) == Err(e.error);
    assert forall j :: 0 <= j < i ==> f(xs[j]).Ok? by {
      forall j | 0 <= j < i ensures f(xs[j]).Ok? {
        assert xs[..n][j] == xs[j];
      }
    }
    var r := MapAll(f, xs);
    var i' :| 0 <= i' < |xs| && f(xs[i']) == Err(r.error) &&
      forall j :: 0 <= j < i' ==> f(xs[j]).Ok?;
    assert i' == i;
  }

  /** A successful run over a non-empty sequence is the run over all but
      the last element followed by the last element's result. */
  lemma MapAllSnoc<T, U>(f: T -> Result<U>, xs: seq<T>)
    requires |xs| > 0 && MapAll(f, xs).Ok?
    ensures MapAll(f, xs[..|xs| - 1]).Ok? && f(xs[|xs| - 1]).Ok?
    ensures MapAll(f, xs).value == MapAll(f, xs[..|xs| - 1]).value + [f(xs[|xs| - 1]).value]
  {
  }

  /** Applying an operation that yields a list to every element in order
      and concatenating the lists. */
  function Flatten<T, U(!new)>(f: T -> seq<U>, xs: seq<T>): (r: seq<U>)
    ensures forall u :: u in r <==> exists i :: 0 <= i < |xs| && u in f(xs[i])
    decreases |xs|
  {
    if |xs| == 0 then []
    else
      var init := xs[..|xs| - 1];
      assert forall i :: 0 <= i < |init| ==> init[i] == xs[i];
      Flatten(f, init) + f(xs[|xs| - 1])
  }

  /** Applying a fallible operation that yields a list to every element in
      order and concatenating the lists, or the first error. */
  function ConcatMap<T, U(!new)>(f: T -> Result<seq<U>>, xs: seq<T>): (r: Result<seq<U>>)
    ensures r.Ok? <==> forall i :: 0 <= i < |xs| ==> f(xs[i]).Ok?
    ensures r.Ok? ==> forall u :: u in r.value <==>
      exists i :: 0 <= i < |xs| && f(xs[i]).Ok? && u in f(xs[i]).value
    ensures r.Err? ==> exists i :: 0 <= i < |xs| && f(xs[i]) == Err(r.error)
    decreases |xs|
  {
    if |xs| == 0 then Ok([])
    else
      var init := xs[..|xs| - 1];
      assert forall i :: 0 <= i < |init| ==> init[i] == xs[i];
      var out := ConcatMap(f, init);
      if out.Err? then Err(out.error)
      else
        var g := f(xs[|xs| - 1]);
        if g.Err? then Err(g.error)
        else Ok(out.value + g.value)
  }

  /** An error in a prefix is the error of the whole sequence: the
      operation is not applied past it. */
  lemma {:induction false} ConcatMapPrefixErr<T, U(!new)>(f: T -> Result<seq<U>>, xs: seq<T>, n: nat)
    requires n <= |xs| && ConcatMap(f, xs[..n]).Err?
    ensures ConcatMap(f, xs) == ConcatMap(f, xs[..n])
    decreases |xs|
  {
    if n < |xs| {
      var init := xs[..|xs| - 1];
      assert init[..n] == xs[..n];
      ConcatMapPrefixErr(f, init, n);
    } else {
      assert xs[..n] == xs;
    }
  }

  /** The run over a sequence is the first element's result followed by
      the run over the rest, or the first error. */
  lemma {:induction false} ConcatMapCons<T, U(!new)>(f: T -> Result<seq<U>>, x: T, xs: seq<T>)
    ensures ConcatMap(f, [x] + xs) ==
      if f(x).Err? then Err(f(x).error)
      else if ConcatMap(f, xs).Err? then Err(ConcatMap(f, xs).error)
      else Ok(f(x).value + ConcatMap(f, xs).value)
    decreases |xs|
  {
    var ys := [x] + xs;
    if |xs| == 0 {
      assert ys[..|ys| - 1] == [] && ys[|ys| - 1] == x;
      assert ConcatMap(f, ys[..|ys| - 1]) == Ok([]) && ConcatMap(f, xs) == Ok([]);
      if f(x).Ok? {
        var v: seq<U> := [];
        assert v + f(x).value == f(x).value && f(x).value + v == f(x).value;
      }
    } else {
      var init := xs[..|xs| - 1];
      assert ys[..|ys| - 1] == [x] + init;
      assert ys[|ys| - 1] == xs[|xs| - 1];
      ConcatMapCons(f, x, init);
      var out := ConcatMap(f, init);
      var g := f(xs[|xs| - 1]);
      if f(x).Ok? && out.Ok? && g.Ok? {
        assert (f(x).value + out.value) + g.value == f(x).value + (out.value + g.value);
      }
    }
  }
}
