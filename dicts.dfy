/** Python dictionaries with string keys.

    A dict iterates over its keys in insertion order; assigning to a key
    that is already present keeps its place, a new key goes to the end.
    `d.update(e)` assigns e's entries one by one in e's order. */
module Dicts {

  /** The keys in insertion order and their values, in the same order. */
  datatype RawDict<V> = RawDict(keys: seq<string>, vals: seq<V>)
  {
    /** The mapping itself. */
    function items(): map<string, V>
    {
      ItemsOf(keys, vals)
    }
  }

  /** Each key mapped to its value, a later key overriding an earlier one. */
  function ItemsOf<V>(keys: seq<string>, vals: seq<V>): map<string, V>
  {
    if |keys| == 0 || |vals| == 0 then map[]
    else ItemsOf(keys[..|keys| - 1], vals[..|vals| - 1])[keys[|keys| - 1] := vals[|vals| - 1]]
  }

  /** The keys listed. */
  function KeySet(keys: seq<string>): set<string>
  {
    if |keys| == 0 then {} else KeySet(keys[..|keys| - 1]) + {keys[|keys| - 1]}
  }

  /** No key listed twice. */
  predicate Distinct(keys: seq<string>)
  {
    |keys| == 0 || (keys[|keys| - 1] !in KeySet(keys[..|keys| - 1]) && Distinct(keys[..|keys| - 1]))
  }

  /** Every key listed once, with one value each. */
  predicate WellFormed<V>(d: RawDict<V>)
  {
    |d.keys| == |d.vals| && Distinct(d.keys)
  }

  type Dict<V> = d: RawDict<V> | WellFormed(d) witness RawDict([], [])

  lemma {:induction false} KeySetIs(keys: seq<string>)
    ensures forall k :: k in KeySet(keys) <==> k in keys
    decreases |keys|
  {
    if |keys| > 0 {
      KeySetIs(keys[..|keys| - 1]);
      assert keys == keys[..|keys| - 1] + [keys[|keys| - 1]];
    }
  }

  lemma {:induction false} ItemsKeys<V>(keys: seq<string>, vals: seq<V>)
    requires |keys| == |vals|
    ensures forall k :: k in ItemsOf(keys, vals) <==> k in keys
    decreases |keys|
  {
    if |keys| > 0 {
      ItemsKeys(keys[..|keys| - 1], vals[..|vals| - 1]);
      assert keys == keys[..|keys| - 1] + [keys[|keys| - 1]];
    }
  }

  /** A dictionary maps exactly the keys it lists. */
  lemma Listed<V>(d: Dict<V>)
    ensures forall k :: k in d.items() <==> k in d.keys
  {
    ItemsKeys(d.keys, d.vals);
  }

  /** A key is listed after none of the keys before it. */
  lemma {:induction false} DistinctAt(keys: seq<string>, n: nat)
    requires Distinct(keys) && 0 < n <= |keys|
    ensures keys[n - 1] !in keys[..n - 1]
    decreases |keys|
  {
    if n < |keys| {
      var front := keys[..|keys| - 1];
      DistinctAt(front, n);
      assert front[..n - 1] == keys[..n - 1];
    } else {
      KeySetIs(keys[..n - 1]);
    }
  }

  /** A key is listed before none of the keys after it. */
  lemma DistinctAfter(keys: seq<string>, i: nat)
    requires Distinct(keys) && i < |keys|
    ensures keys[i] !in keys[i + 1..]
  {
    forall j | i + 1 <= j < |keys|
      ensures keys[j] != keys[i]
    {
      DistinctAt(keys, j + 1);
      assert keys[..j][i] == keys[i];
    }
  }

  /** The keys from i on: key i, then those after it. */
  lemma InFrom(keys: seq<string>, i: nat)
    requires i < |keys|
    ensures forall k :: k in keys[i..] <==> k == keys[i] || k in keys[i + 1..]
  {
    forall k ensures k in keys[i..] <==> k == keys[i] || k in keys[i + 1..] {
      if k in keys[i..] {
        var m :| 0 <= m < |keys[i..]| && keys[i..][m] == k;
        if m > 0 {
          assert keys[i + 1..][m - 1] == k;
        }
      }
      if k in keys[i + 1..] {
        var m :| 0 <= m < |keys[i + 1..]| && keys[i + 1..][m] == k;
        assert keys[i..][m + 1] == k;
      }
      if k == keys[i] {
        assert keys[i..][0] == k;
      }
    }
  }

  /** The first n keys: the first n - 1, then key n - 1. */
  lemma InPrefix(keys: seq<string>, n: nat)
    requires 0 < n <= |keys|
    ensures forall k :: k in keys[..n] <==> k in keys[..n - 1] || k == keys[n - 1]
  {
    forall k ensures k in keys[..n] <==> k in keys[..n - 1] || k == keys[n - 1] {
      if k in keys[..n] {
        var m :| 0 <= m < n && keys[..n][m] == k;
        if m < n - 1 {
          assert keys[..n - 1][m] == k;
        }
      }
      if k in keys[..n - 1] {
        var m :| 0 <= m < n - 1 && keys[..n - 1][m] == k;
        assert keys[..n][m] == k;
      }
      if k == keys[n - 1] {
        assert keys[..n][n - 1] == k;
      }
    }
  }

  /** The i-th key maps to the i-th value. */
  lemma {:induction false} ItemAt<V>(keys: seq<string>, vals: seq<V>, i: nat)
    requires |keys| == |vals| && Distinct(keys) && i < |keys|
    ensures keys[i] in ItemsOf(keys, vals) && ItemsOf(keys, vals)[keys[i]] == vals[i]
    decreases |keys|
  {
    var n := |keys|;
    if i < n - 1 {
      ItemAt(keys[..n - 1], vals[..n - 1], i);
      DistinctAt(keys, n);
      assert keys[i] in keys[..n - 1];
    }
  }

  /** The value of the i-th key. */
  function ValueAt<V>(d: Dict<V>, i: nat): (v: V)
    requires i < |d.keys|
    ensures d.keys[i] in d.items() && d.items()[d.keys[i]] == v
  {
    ItemAt(d.keys, d.vals, i);
    d.vals[i]
  }

  /** Where key k is listed. */
  function IndexOf(keys: seq<string>, k: string): (i: nat)
    requires k in keys
    ensures i < |keys| && keys[i] == k
  {
    if keys[|keys| - 1] == k then |keys| - 1
    else
      assert keys == keys[..|keys| - 1] + [keys[|keys| - 1]];
      IndexOf(keys[..|keys| - 1], k)
  }

  /** Replacing the value of a listed key. */
  lemma {:induction false} AssignAt<V>(keys: seq<string>, vals: seq<V>, i: nat, v: V)
    requires |keys| == |vals| && Distinct(keys) && i < |keys|
    ensures ItemsOf(keys, vals[i := v]) == ItemsOf(keys, vals)[keys[i] := v]
    decreases |keys|
  {
    var n := |keys|;
    var front, vfront := keys[..n - 1], vals[..n - 1];
    if i < n - 1 {
      AssignAt(front, vfront, i, v);
      assert vals[i := v][..n - 1] == vfront[i := v];
      DistinctAt(keys, n);
      assert keys[i] in front;
    } else {
      assert vals[i := v][..n - 1] == vfront;
    }
  }

  function Empty<V>(): (r: Dict<V>)
    ensures |r.keys| == 0 && r.items() == map[]
  {
    RawDict([], [])
  }

  /** `d[k] = v`. */
  function Put<V>(d: Dict<V>, k: string, v: V): (r: Dict<V>)
    ensures r.items() == d.items()[k := v]
    ensures k in d.items() ==> r.keys == d.keys
    ensures k !in d.items() ==> r.keys == d.keys + [k]
    ensures d.keys <= r.keys
  {
    Listed(d);
    if k in d.keys then
      var i := IndexOf(d.keys, k);
      AssignAt(d.keys, d.vals, i, v);
      RawDict(d.keys, d.vals[i := v])
    else
      AppendKey(d.keys, d.vals, k, v);
      RawDict(d.keys + [k], d.vals + [v])
  }

  /** Assigning to the i-th key replaces the i-th value in place. */
  lemma PutAt<V>(d: Dict<V>, i: nat, v: V)
    requires i < |d.keys|
    ensures Put(d, d.keys[i], v) == RawDict(d.keys, d.vals[i := v])
  {
    var j := IndexOf(d.keys, d.keys[i]);
    if i < j {
      DistinctAt(d.keys, j + 1);
    } else if j < i {
      DistinctAt(d.keys, i + 1);
    }
    Listed(d);
  }

  /** Listing a new key last. */
  lemma AppendKey<V>(keys: seq<string>, vals: seq<V>, k: string, v: V)
    requires |keys| == |vals| && Distinct(keys) && k !in keys
    ensures Distinct(keys + [k])
    ensures ItemsOf(keys + [k], vals + [v]) == ItemsOf(keys, vals)[k := v]
  {
    KeySetIs(keys);
    assert (keys + [k])[..|keys|] == keys;
    assert (vals + [v])[..|vals|] == vals;
  }

  /** `len(d)`: the number of keys, which is zero exactly when nothing is
      mapped. */
  function Len<V>(d: Dict<V>): (n: nat)
    ensures n == 0 <==> d.items() == map[]
  {
    Listed(d);
    if |d.keys| == 0 then 0
    else
      assert d.keys[|d.keys| - 1] in d.items();
      |d.keys|
  }

  /** The first n assignments of `d.update(e)`. */
  function UpdateFrom<V>(d: Dict<V>, e: Dict<V>, n: nat): Dict<V>
    requires n <= |e.keys|
  {
    if n == 0 then d
    else Put(UpdateFrom(d, e, n - 1), e.keys[n - 1], ValueAt(e, n - 1))
  }

  /** `d.update(e)`. */
  function Update<V>(d: Dict<V>, e: Dict<V>): Dict<V>
  {
    UpdateFrom(d, e, |e.keys|)
  }

  /** The entries of e's first n keys. */
  function PrefixItems<V>(e: Dict<V>, n: nat): map<string, V>
    requires n <= |e.keys|
  {
    ItemsOf(e.keys[..n], e.vals[..n])
  }

  /** After the first n assignments the entries are d's overwritten by
      those of e's first n keys. */
  lemma {:induction false} UpdateFromItems<V>(d: Dict<V>, e: Dict<V>, n: nat)
    requires n <= |e.keys|
    ensures UpdateFrom(d, e, n).items() == d.items() + PrefixItems(e, n)
  {
    if n > 0 {
      UpdateFromItems(d, e, n - 1);
      UpdateFromItemsStep(d, e, n - 1);
    }
  }

  /** The induction step of UpdateFromItems. */
  lemma UpdateFromItemsStep<V>(d: Dict<V>, e: Dict<V>, m: nat)
    requires m < |e.keys|
    requires UpdateFrom(d, e, m).items() == d.items() + PrefixItems(e, m)
    ensures UpdateFrom(d, e, m + 1).items() == d.items() + PrefixItems(e, m + 1)
  {
    var n := m + 1;
    PrefixItemsStep(e, n);
    UpdateFromStep(d, e, n);
    UnionAssign(UpdateFrom(d, e, n).items(), UpdateFrom(d, e, n - 1).items(), d.items(),
                PrefixItems(e, n - 1), PrefixItems(e, n), e.keys[n - 1], ValueAt(e, n - 1));
  }

  /** The n-th assignment of `d.update(e)`. */
  lemma UpdateFromStep<V>(d: Dict<V>, e: Dict<V>, n: nat)
    requires 0 < n <= |e.keys|
    ensures UpdateFrom(d, e, n).items() == UpdateFrom(d, e, n - 1).items()[e.keys[n - 1] := ValueAt(e, n - 1)]
  {
    var u := UpdateFrom(d, e, n - 1);
    assert UpdateFrom(d, e, n) == Put(u, e.keys[n - 1], ValueAt(e, n - 1));
  }

  /** One more of e's entries adds one more assignment. */
  lemma PrefixItemsStep<V>(e: Dict<V>, n: nat)
    requires 0 < n <= |e.keys|
    ensures PrefixItems(e, n) == PrefixItems(e, n - 1)[e.keys[n - 1] := ValueAt(e, n - 1)]
  {
    assert e.keys[..n][..n - 1] == e.keys[..n - 1];
    assert e.vals[..n][..n - 1] == e.vals[..n - 1];
  }

  /** After the first n assignments d's keys still come first. */
  lemma {:induction false} UpdateFromKeys<V>(d: Dict<V>, e: Dict<V>, n: nat)
    requires n <= |e.keys|
    ensures d.keys <= UpdateFrom(d, e, n).keys
  {
    if n > 0 {
      UpdateFromKeys(d, e, n - 1);
      var u := UpdateFrom(d, e, n - 1);
      PrefixTrans(d.keys, u.keys, UpdateFrom(d, e, n).keys);
    }
  }

  lemma PrefixTrans(a: seq<string>, b: seq<string>, c: seq<string>)
    requires a <= b && b <= c
    ensures a <= c
  {
    assert a == b[..|a|] && b == c[..|b|];
    assert c[..|b|][..|a|] == c[..|a|];
  }

  lemma UnionAssign<V>(after: map<string, V>, before: map<string, V>, a: map<string, V>,
                       b: map<string, V>, b': map<string, V>, k: string, v: V)
    requires after == before[k := v] && before == a + b && b' == b[k := v]
    ensures after == a + b'
  {
  }

  /** `d.update(e)` is the right-biased union: e's entries overwrite d's,
      d's keys keep their places at the front. */
  lemma UpdateItems<V>(d: Dict<V>, e: Dict<V>)
    ensures Update(d, e).items() == d.items() + e.items()
    ensures d.keys <= Update(d, e).keys
  {
    UpdateFromItems(d, e, |e.keys|);
    UpdateFromKeys(d, e, |e.keys|);
    assert e.keys[..|e.keys|] == e.keys && e.vals[..|e.vals|] == e.vals;
  }

  /** `d[k] = v` for every pair in order. */
  function PutAll<V>(d: Dict<V>, kvs: seq<(string, V)>): Dict<V>
    decreases |kvs|
  {
    if |kvs| == 0 then d else PutAll(Put(d, kvs[0].0, kvs[0].1), kvs[1..])
  }

  /** After the assignments a key is mapped when it was or when a pair has
      it. */
  lemma {:induction false} PutAllKeys<V>(d: Dict<V>, kvs: seq<(string, V)>, k: string)
    ensures k in PutAll(d, kvs).items() <==> k in d.items() || exists i :: 0 <= i < |kvs| && kvs[i].0 == k
    decreases |kvs|
  {
    if |kvs| > 0 {
      var rest := kvs[1..];
      PutAllKeys(Put(d, kvs[0].0, kvs[0].1), rest, k);
      if i :| 1 <= i < |kvs| && kvs[i].0 == k {
        assert rest[i - 1].0 == k;
      }
      if i :| 0 <= i < |rest| && rest[i].0 == k {
        assert kvs[i + 1].0 == k;
      }
    }
  }

  /** A key no pair has keeps its old value. */
  lemma {:induction false} PutAllKeeps<V>(d: Dict<V>, kvs: seq<(string, V)>, k: string)
    requires forall i :: 0 <= i < |kvs| ==> kvs[i].0 != k
    requires k in d.items()
    ensures k in PutAll(d, kvs).items() && PutAll(d, kvs).items()[k] == d.items()[k]
    decreases |kvs|
  {
    if |kvs| > 0 {
      var rest := kvs[1..];
      assert forall i :: 0 <= i < |rest| ==> rest[i] == kvs[i + 1];
      PutAllKeeps(Put(d, kvs[0].0, kvs[0].1), rest, k);
    }
  }

  /** A key holds the value of its last pair. */
  lemma {:induction false} PutAllLastWins<V>(d: Dict<V>, kvs: seq<(string, V)>, k: string, i: nat)
    requires i < |kvs| && kvs[i].0 == k
    requires forall j :: i < j < |kvs| ==> kvs[j].0 != k
    ensures k in PutAll(d, kvs).items() && PutAll(d, kvs).items()[k] == kvs[i].1
    decreases |kvs|
  {
    var rest := kvs[1..];
    var d' := Put(d, kvs[0].0, kvs[0].1);
    assert forall j :: 0 <= j < |rest| ==> rest[j] == kvs[j + 1];
    if i == 0 {
      PutAllKeeps(d', rest, k);
    } else {
      PutAllLastWins(d', rest, k, i - 1);
    }
  }
}
