/** The CDF branch of `mms_load_data`'s merge loop.

    The loaded files are taken in order. For every dataset of a file, an
    unseen dataset is added as it is. A seen dataset must have as many
    variables as the stored one (TypeError otherwise), and each variable
    is appended to the stored one with `np.concatenate`. Then the file's
    metadata is merged: an unseen dataset's dictionary is added, a seen
    one is updated, the file's values overwriting. */
module Merge {
  import opened Base
  import opened Dicts
  import opened LoadDatafile

  /** The two dictionaries `mms_load_data` builds: datasets and their
      metadata, by dataset name. */
  datatype Merged = Merged(vars: Dict<Dataset>, metas: Dict<Meta>)

  // ---------------------------------------------------------------------
  // What a merge keeps: samples and metadata entries
  // ---------------------------------------------------------------------

  /** The samples of variable ax: the array's elements; none for a scalar
      or a missing variable. */
  function AxisSamples(d: Dataset, ax: string): seq<int>
  {
    if ax in d.items() && d.items()[ax].Elems? then d.items()[ax].xs else []
  }

  /** The samples of variable ax of dataset ds. */
  function Samples(sets: Dict<Dataset>, ds: string, ax: string): seq<int>
  {
    if ds in sets.items() then AxisSamples(sets.items()[ds], ax) else []
  }

  /** The metadata entries of dataset ds; none for a missing dataset. */
  function MetaOf(metas: Dict<Meta>, ds: string): map<string, MetaValue>
  {
    if ds in metas.items() then metas.items()[ds].items() else map[]
  }

  // ---------------------------------------------------------------------
  // One dataset
  // ---------------------------------------------------------------------

  /** `np.concatenate((a, b))`: two one-dimensional arrays are joined; a
      scalar (a zero-dimensional array) cannot be concatenated. */
  function Concat(a: Axis, b: Axis): (r: Result<Axis>)
    ensures r.Ok? <==> a.Elems? && b.Elems?
    ensures r.Err? ==> r.error == ValueError
  {
    if a.Elems? && b.Elems? then Ok(Elems(a.xs + b.xs)) else Err(ValueError)
  }

  /** One round of the axis loop, on variable i of the incoming dataset:
      `stored[axis] = np.concatenate((stored[axis], incoming[axis]))`, a
      KeyError when the stored dataset lacks the variable. */
  function StackAxis(d: Dataset, incoming: Dataset, i: nat): Result<Dataset>
    requires i < |incoming.keys|
  {
    var ax := incoming.keys[i];
    if ax !in d.items() then Err(KeyError)
    else
      var c :- Concat(d.items()[ax], ValueAt(incoming, i));
      Ok(Put(d, ax, c))
  }

  /** The axis loop from variable i of the incoming dataset on; the first
      failure ends it. */
  function StackFrom(acc: Dataset, incoming: Dataset, i: nat): Result<Dataset>
    requires i <= |incoming.keys|
    decreases |incoming.keys| - i
  {
    if i == |incoming.keys| then Ok(acc)
    else
      var next :- StackAxis(acc, incoming, i);
      StackFrom(next, incoming, i + 1)
  }

  /** A seen dataset merged with the file's: the variable counts must
      agree (TypeError), then every variable is appended. */
  function MergeSet(stored: Dataset, incoming: Dataset): Result<Dataset>
  {
    if Len(stored) != Len(incoming) then Err(TypeError)
    else StackFrom(stored, incoming, 0)
  }

  /** Variable ax of the incoming dataset can be appended to the stored one:
      both datasets hold it as an array. */
  predicate Stackable(stored: Dataset, incoming: Dataset, ax: string)
  {
    ax in stored.items() && ax in incoming.items() &&
    stored.items()[ax].Elems? && incoming.items()[ax].Elems?
  }

  /** One round succeeds exactly when its variable is stackable, and then
      every variable stays as stackable as it was. */
  lemma StackAxisOk(d: Dataset, incoming: Dataset, i: nat, ax: string)
    requires i < |incoming.keys|
    ensures var r := StackAxis(d, incoming, i);
      (r.Ok? <==> Stackable(d, incoming, incoming.keys[i])) &&
      (r.Ok? ==> (Stackable(r.value, incoming, ax) <==> Stackable(d, incoming, ax)))
  {
    var v := ValueAt(incoming, i);
  }

  /** One round keeps the stored variables in their order, and appends
      the incoming samples to its own variable only. */
  lemma StackAxisSamples(d: Dataset, incoming: Dataset, i: nat, ax: string)
    requires i < |incoming.keys|
    ensures var r := StackAxis(d, incoming, i);
      r.Ok? ==>
        r.value.keys == d.keys && r.value.items().Keys == d.items().Keys &&
        AxisSamples(r.value, ax) ==
          (if ax == incoming.keys[i] then AxisSamples(d, ax) + AxisSamples(incoming, ax) else AxisSamples(d, ax))
  {
    var v := ValueAt(incoming, i);
  }

  /** The axis loop succeeds exactly when every incoming variable it reaches
      is an array the stored dataset holds as an array too. */
  lemma {:induction false} StackFromOk(acc: Dataset, incoming: Dataset, i: nat)
    requires i <= |incoming.keys|
    ensures StackFrom(acc, incoming, i).Ok? <==>
      forall j :: i <= j < |incoming.keys| ==> Stackable(acc, incoming, incoming.keys[j])
    decreases |incoming.keys| - i
  {
    if i < |incoming.keys| {
      var next := StackAxis(acc, incoming, i);
      StackAxisOk(acc, incoming, i, incoming.keys[i]);
      if next.Ok? {
        assert StackFrom(acc, incoming, i) == StackFrom(next.value, incoming, i + 1);
        StackFromOk(next.value, incoming, i + 1);
        StackAxisKeepsLater(acc, incoming, i);
      }
    }
  }

  /** A successful round leaves every later variable as stackable as it was. */
  lemma StackAxisKeepsLater(acc: Dataset, incoming: Dataset, i: nat)
    requires i < |incoming.keys| && StackAxis(acc, incoming, i).Ok?
    ensures forall j :: i < j < |incoming.keys| ==>
      (Stackable(StackAxis(acc, incoming, i).value, incoming, incoming.keys[j]) <==>
       Stackable(acc, incoming, incoming.keys[j]))
  {
    forall j | i < j < |incoming.keys|
      ensures Stackable(StackAxis(acc, incoming, i).value, incoming, incoming.keys[j]) <==>
              Stackable(acc, incoming, incoming.keys[j])
    {
      StackAxisOk(acc, incoming, i, incoming.keys[j]);
    }
  }

  /** After the axis loop from variable i on, the stored variables are kept
      in their order and variable ax holds the stored samples, followed by
      the incoming ones if the loop reached it. */
  lemma {:induction false} StackFromSamples(acc: Dataset, incoming: Dataset, i: nat, ax: string)
    requires i <= |incoming.keys|
    ensures var r := StackFrom(acc, incoming, i);
      r.Ok? ==>
        r.value.keys == acc.keys && r.value.items().Keys == acc.items().Keys &&
        AxisSamples(r.value, ax) ==
          (if ax in incoming.keys[i..] then AxisSamples(acc, ax) + AxisSamples(incoming, ax) else AxisSamples(acc, ax))
    decreases |incoming.keys| - i
  {
    if i < |incoming.keys| {
      var next := StackAxis(acc, incoming, i);
      if next.Ok? {
        StackAxisSamples(acc, incoming, i, ax);
        StackFromSamples(next.value, incoming, i + 1, ax);
        InFrom(incoming.keys, i);
        DistinctAfter(incoming.keys, i);
      }
    }
  }

  /** A seen dataset merges exactly when the variable counts agree and
      every incoming variable is an array the stored dataset holds as an
      array; the merged dataset keeps the stored variables in their order. */
  lemma MergeSetFacts(stored: Dataset, incoming: Dataset)
    ensures MergeSet(stored, incoming).Ok? <==>
      Len(stored) == Len(incoming) && forall ax :: ax in incoming.items() ==> Stackable(stored, incoming, ax)
    ensures var r := MergeSet(stored, incoming);
      r.Ok? ==> r.value.keys == stored.keys
  {
    StackFromOk(stored, incoming, 0);
    StackFromSamples(stored, incoming, 0, "");
    Listed(incoming);
    if StackFrom(stored, incoming, 0).Ok? {
      forall ax | ax in incoming.items() ensures Stackable(stored, incoming, ax) {
        var j := IndexOf(incoming.keys, ax);
      }
    }
  }

  /** A merged dataset's variable holds the stored samples followed by the
      incoming ones. */
  lemma MergeSetSamples(stored: Dataset, incoming: Dataset, ax: string)
    ensures var r := MergeSet(stored, incoming);
      r.Ok? ==> AxisSamples(r.value, ax) == AxisSamples(stored, ax) + AxisSamples(incoming, ax)
  {
    StackFromSamples(stored, incoming, 0, ax);
    Listed(incoming);
    assert incoming.keys[0..] == incoming.keys;
    if ax !in incoming.keys {
      assert AxisSamples(stored, ax) + AxisSamples(incoming, ax) == AxisSamples(stored, ax);
    }
  }

  // ---------------------------------------------------------------------
  // The datasets of one file
  // ---------------------------------------------------------------------

  /** The dataset loop from dataset i of the file on; the first failure
      ends it. */
  function MergeDataFrom(vars: Dict<Dataset>, data: Dict<Dataset>, i: nat): Result<Dict<Dataset>>
    requires i <= |data.keys|
    decreases |data.keys| - i
  {
    if i == |data.keys| then Ok(vars)
    else
      var next :- MergeDataset(vars, data, i);
      MergeDataFrom(next, data, i + 1)
  }

  /** One round of the dataset loop, on dataset i of the file: stored if
      unseen, merged if seen. */
  function MergeDataset(vars: Dict<Dataset>, data: Dict<Dataset>, i: nat): Result<Dict<Dataset>>
    requires i < |data.keys|
  {
    var ds, incoming := data.keys[i], ValueAt(data, i);
    if ds !in vars.items() then Ok(Put(vars, ds, incoming))
    else
      var m :- MergeSet(vars.items()[ds], incoming);
      Ok(Put(vars, ds, m))
  }

  /** One round adds dataset i to the stored ones and appends its samples
      to those already stored for it; every other dataset is untouched. */
  lemma MergeDatasetSamples(vars: Dict<Dataset>, data: Dict<Dataset>, i: nat, ds: string, ax: string)
    requires i < |data.keys|
    ensures var r := MergeDataset(vars, data, i);
      r.Ok? ==>
        (ds in r.value.items() <==> ds in vars.items() || ds == data.keys[i]) &&
        Samples(r.value, ds, ax) == (if ds == data.keys[i] then Samples(vars, ds, ax) + Samples(data, ds, ax) else Samples(vars, ds, ax))
  {
    var incoming := ValueAt(data, i);
    if data.keys[i] in vars.items() {
      MergeSetSamples(vars.items()[data.keys[i]], incoming, ax);
    }
  }

  /** After the dataset loop from dataset i on, the stored datasets are the
      old ones and the file's remaining ones, and every variable of every
      dataset holds the samples it held before followed by the file's. */
  lemma {:induction false} MergeDataSamples(vars: Dict<Dataset>, data: Dict<Dataset>, i: nat, ds: string, ax: string)
    requires i <= |data.keys|
    ensures var r := MergeDataFrom(vars, data, i);
      r.Ok? ==>
        (ds in r.value.items() <==> ds in vars.items() || ds in data.keys[i..]) &&
        Samples(r.value, ds, ax) == (if ds in data.keys[i..] then Samples(vars, ds, ax) + Samples(data, ds, ax) else Samples(vars, ds, ax))
    decreases |data.keys| - i
  {
    if i < |data.keys| {
      var s := MergeDataset(vars, data, i);
      if s.Ok? {
        MergeDatasetSamples(vars, data, i, ds, ax);
        MergeDataSamples(s.value, data, i + 1, ds, ax);
        InFrom(data.keys, i);
        DistinctAfter(data.keys, i);
      }
    }
  }

  // ---------------------------------------------------------------------
  // The metadata of one file
  // ---------------------------------------------------------------------

  /** The warning for a differing value concatenates both values into a
      string: anything but two strings is a TypeError. */
  predicate Clash(stored: MetaValue, incoming: MetaValue)
  {
    stored != incoming && !(stored.Text? && incoming.Text?)
  }

  /** Some key both dictionaries hold has clashing values. */
  predicate Clashes(stored: Meta, incoming: Meta)
  {
    exists i :: 0 <= i < |incoming.keys| && incoming.keys[i] in stored.items() &&
      Clash(stored.items()[incoming.keys[i]], ValueAt(incoming, i))
  }

  /** A seen dataset's metadata merged with the file's: the values of the
      shared keys are compared, then `stored.update(incoming)`. */
  function MergeMeta(stored: Meta, incoming: Meta): Result<Meta>
  {
    if Clashes(stored, incoming) then Err(TypeError) else Ok(Update(stored, incoming))
  }

  /** A seen dataset's metadata merges exactly when no shared key holds a
      non-string value that differs. */
  lemma MergeMetaOk(stored: Meta, incoming: Meta)
    ensures MergeMeta(stored, incoming).Ok? <==>
      forall k :: k in incoming.items() && k in stored.items() ==> !Clash(stored.items()[k], incoming.items()[k])
  {
    Listed(incoming);
    if !Clashes(stored, incoming) {
      forall k | k in incoming.items() && k in stored.items() ensures !Clash(stored.items()[k], incoming.items()[k]) {
        var i := IndexOf(incoming.keys, k);
      }
    }
  }

  /** A merged dataset's metadata keeps the stored keys in front and maps
      every key to the file's value if the file has it, to the stored value
      otherwise. */
  lemma MergeMetaItems(stored: Meta, incoming: Meta)
    ensures var r := MergeMeta(stored, incoming);
      r.Ok? ==> (r.value.items() == stored.items() + incoming.items() && stored.keys <= r.value.keys)
  {
    UpdateItems(stored, incoming);
  }

  /** The metadata loop from dataset i of the file on; the first failure
      ends it. */
  function MergeMetasFrom(metas: Dict<Meta>, metadata: Dict<Meta>, i: nat): Result<Dict<Meta>>
    requires i <= |metadata.keys|
    decreases |metadata.keys| - i
  {
    if i == |metadata.keys| then Ok(metas)
    else
      var next :- MergeMetas(metas, metadata, i);
      MergeMetasFrom(next, metadata, i + 1)
  }

  /** One round of the metadata loop, on dataset i of the file: stored if
      unseen, compared and updated if seen. */
  function MergeMetas(metas: Dict<Meta>, metadata: Dict<Meta>, i: nat): Result<Dict<Meta>>
    requires i < |metadata.keys|
  {
    var ds, incoming := metadata.keys[i], ValueAt(metadata, i);
    if ds !in metas.items() then Ok(Put(metas, ds, incoming))
    else
      var m :- MergeMeta(metas.items()[ds], incoming);
      Ok(Put(metas, ds, m))
  }

  /** One round puts dataset i's merged entries under its name: the
      stored ones overwritten by the file's. */
  lemma MergeMetasPut(metas: Dict<Meta>, metadata: Dict<Meta>, i: nat)
    requires i < |metadata.keys|
    ensures var r := MergeMetas(metas, metadata, i);
      var key := metadata.keys[i];
      r.Ok? ==>
        key in r.value.items() &&
        r.value.items() == metas.items()[key := r.value.items()[key]] &&
        r.value.items()[key].items() == MetaOf(metas, key) + MetaOf(metadata, key)
  {
    var key, incoming := metadata.keys[i], ValueAt(metadata, i);
    var r := MergeMetas(metas, metadata, i);
    assert MetaOf(metadata, key) == incoming.items();
    if r.Ok? {
      var m: Meta;
      if key in metas.items() {
        var stored := metas.items()[key];
        MergeMetaItems(stored, incoming);
        m := MergeMeta(stored, incoming).value;
      } else {
        m := incoming;
        assert MetaOf(metas, key) == map[];
      }
      assert r.value == Put(metas, key, m);
    }
  }

  /** One round stores dataset i besides the stored ones. */
  lemma MergeMetasKeys(metas: Dict<Meta>, metadata: Dict<Meta>, i: nat, ds: string)
    requires i < |metadata.keys|
    ensures var r := MergeMetas(metas, metadata, i);
      r.Ok? ==> (ds in r.value.items() <==> ds in metas.items() || ds == metadata.keys[i])
  {
    MergeMetasPut(metas, metadata, i);
  }

  /** One round overwrites the entries of dataset i with the file's; every
      other dataset is untouched. */
  lemma MergeMetasEntry(metas: Dict<Meta>, metadata: Dict<Meta>, i: nat, ds: string)
    requires i < |metadata.keys|
    ensures var r := MergeMetas(metas, metadata, i);
      r.Ok? ==>
        MetaOf(r.value, ds) == (if ds == metadata.keys[i] then MetaOf(metas, ds) + MetaOf(metadata, ds) else MetaOf(metas, ds))
  {
    MergeMetasPut(metas, metadata, i);
  }

  /** After the metadata loop from dataset i on, the stored datasets are the
      old ones and the file's remaining ones, and every dataset's entries are
      its stored ones overwritten by the file's. */
  lemma {:induction false} MergeMetasEntries(metas: Dict<Meta>, metadata: Dict<Meta>, i: nat, ds: string)
    requires i <= |metadata.keys|
    ensures var r := MergeMetasFrom(metas, metadata, i);
      r.Ok? ==>
        (ds in r.value.items() <==> ds in metas.items() || ds in metadata.keys[i..]) &&
        MetaOf(r.value, ds) == (if ds in metadata.keys[i..] then MetaOf(metas, ds) + MetaOf(metadata, ds) else MetaOf(metas, ds))
    decreases |metadata.keys| - i
  {
    if i < |metadata.keys| {
      var s := MergeMetas(metas, metadata, i);
      if s.Ok? {
        MergeMetasKeys(metas, metadata, i, ds);
        MergeMetasEntry(metas, metadata, i, ds);
        MergeMetasEntries(s.value, metadata, i + 1, ds);
        InFrom(metadata.keys, i);
        DistinctAfter(metadata.keys, i);
      }
    }
  }

  // ---------------------------------------------------------------------
  // All files
  // ---------------------------------------------------------------------

  /** One CDF file: its datasets, then its metadata. */
  function MergeFile(m: Merged, f: CdfData): Result<Merged>
  {
    var vars :- MergeDataFrom(m.vars, f.data, 0);
    var metas :- MergeMetasFrom(m.metas, f.metadata, 0);
    Ok(Merged(vars, metas))
  }

  /** The merge loop from load i on, with m merged so far, in file order;
      the first failure ends it. */
  function MergeFrom(m: Merged, loads: seq<Result<Loaded>>, i: nat): Result<Merged>
    requires i <= |loads|
    decreases |loads| - i
  {
    if i == |loads| then Ok(m)
    else
      var next :- MergeLoad(m, loads[i]);
      MergeFrom(next, loads, i + 1)
  }

  /** The merge loop over every load, starting from two empty dictionaries. */
  function MergeAll(loads: seq<Result<Loaded>>): Result<Merged>
  {
    MergeFrom(Merged(Empty(), Empty()), loads, 0)
  }

  /** One round of the merge loop. A failed load raises when the loop
      reaches it; an ancillary file goes to the pandas branch, which is not
      part of this model and leaves both dictionaries as they are here. */
  function MergeLoad(m: Merged, load: Result<Loaded>): Result<Merged>
  {
    if load.Err? then Err(load.error)
    else if load.value.Ancillary? then Ok(m)
    else MergeFile(m, load.value.file)
  }

  /** acc followed by the samples of variable ax of dataset ds in every
      load from i on, in file order. */
  function AlongFrom(acc: seq<int>, loads: seq<Result<Loaded>>, i: nat, ds: string, ax: string): seq<int>
    requires i <= |loads|
    decreases |loads| - i
  {
    if i == |loads| then acc
    else
      var load := loads[i];
      if load.Ok? && load.value.Cdf? then AlongFrom(acc + Samples(load.value.file.data, ds, ax), loads, i + 1, ds, ax)
      else AlongFrom(acc, loads, i + 1, ds, ax)
  }

  /** acc overwritten by the metadata entries of dataset ds in every load
      from i on, a later file's value overwriting an earlier one. */
  function MetaFrom(acc: map<string, MetaValue>, loads: seq<Result<Loaded>>, i: nat, ds: string): map<string, MetaValue>
    requires i <= |loads|
    decreases |loads| - i
  {
    if i == |loads| then acc
    else
      var load := loads[i];
      if load.Ok? && load.value.Cdf? then MetaFrom(acc + MetaOf(load.value.file.metadata, ds), loads, i + 1, ds)
      else MetaFrom(acc, loads, i + 1, ds)
  }

  /** A merge that succeeds from load i on found every load from i on
      loaded. */
  lemma {:induction false} MergeFromLoaded(m: Merged, loads: seq<Result<Loaded>>, i: nat)
    requires i <= |loads|
    ensures MergeFrom(m, loads, i).Ok? ==> forall j :: i <= j < |loads| ==> loads[j].Ok?
    decreases |loads| - i
  {
    if i < |loads| {
      var next := MergeLoad(m, loads[i]);
      if next.Ok? {
        MergeFromLoaded(next.value, loads, i + 1);
      }
    }
  }

  /** Merging a CDF file appends its samples. */
  lemma MergeFileSamples(m: Merged, f: CdfData, ds: string, ax: string)
    ensures var r := MergeFile(m, f);
      r.Ok? ==> Samples(r.value.vars, ds, ax) == Samples(m.vars, ds, ax) + Samples(f.data, ds, ax)
  {
    var vars := MergeDataFrom(m.vars, f.data, 0);
    if MergeFile(m, f).Ok? {
      assert MergeFile(m, f).value.vars == vars.value;
      MergeDataSamples(m.vars, f.data, 0, ds, ax);
      assert f.data.keys[0..] == f.data.keys;
      Listed(f.data);
    }
  }

  /** After a successful merge from load i on, every variable of every
      dataset holds the samples it held followed by that variable's samples
      in every file from i on, in file order. */
  lemma {:induction false} MergeFromSamples(m: Merged, loads: seq<Result<Loaded>>, i: nat, ds: string, ax: string)
    requires i <= |loads|
    ensures var r := MergeFrom(m, loads, i);
      r.Ok? ==> Samples(r.value.vars, ds, ax) == AlongFrom(Samples(m.vars, ds, ax), loads, i, ds, ax)
    decreases |loads| - i
  {
    if i < |loads| {
      var next := MergeLoad(m, loads[i]);
      if next.Ok? {
        if loads[i].value.Cdf? {
          MergeFileSamples(m, loads[i].value.file, ds, ax);
        }
        MergeFromSamples(next.value, loads, i + 1, ds, ax);
      }
    }
  }

  /** Merging a CDF file overwrites with its metadata. */
  lemma MergeFileMeta(m: Merged, f: CdfData, ds: string)
    ensures var r := MergeFile(m, f);
      r.Ok? ==> MetaOf(r.value.metas, ds) == MetaOf(m.metas, ds) + MetaOf(f.metadata, ds)
  {
    var metas := MergeMetasFrom(m.metas, f.metadata, 0);
    if MergeFile(m, f).Ok? {
      assert MergeFile(m, f).value.metas == metas.value;
      MergeMetasEntries(m.metas, f.metadata, 0, ds);
      assert f.metadata.keys[0..] == f.metadata.keys;
      Listed(f.metadata);
      if ds !in f.metadata.keys {
        assert MetaOf(m.metas, ds) + MetaOf(f.metadata, ds) == MetaOf(m.metas, ds);
      }
    }
  }

  /** After a successful merge from load i on, every dataset's metadata
      holds, for each key, the value of the last file that has it, or the
      value it held when no file from i on has it. */
  lemma {:induction false} MergeFromMeta(m: Merged, loads: seq<Result<Loaded>>, i: nat, ds: string)
    requires i <= |loads|
    ensures var r := MergeFrom(m, loads, i);
      r.Ok? ==> MetaOf(r.value.metas, ds) == MetaFrom(MetaOf(m.metas, ds), loads, i, ds)
    decreases |loads| - i
  {
    if i < |loads| {
      var next := MergeLoad(m, loads[i]);
      if next.Ok? {
        if loads[i].value.Cdf? {
          MergeFileMeta(m, loads[i].value.file, ds);
        }
        MergeFromMeta(next.value, loads, i + 1, ds);
      }
    }
  }

  // ---------------------------------------------------------------------
  // The loops
  // ---------------------------------------------------------------------

  /** `for data, metadata in pile_o_data: ...`, the CDF branch. */
  method MergeLoads(loads: seq<Result<Loaded>>) returns (r: Result<Merged>)
    ensures r == MergeAll(loads)
  {
    var m := Merged(Empty(), Empty());
    for i := 0 to |loads|
      invariant MergeFrom(m, loads, i) == MergeAll(loads)
    {
      var load := loads[i];
      if load.Err? {
        return Err(load.error);
      }
      if load.value.Cdf? {
        var next := MergeCdf(m, load.value.file);
        if next.Err? {
          return next;
        }
        m := next.value;
      }
    }
    r := Ok(m);
  }

  /** One CDF file: the dataset loop, then the metadata loop. */
  method MergeCdf(m: Merged, f: CdfData) returns (r: Result<Merged>)
    ensures r == MergeFile(m, f)
  {
    var vars := MergeDatasets(m.vars, f.data);
    if vars.Err? {
      return Err(vars.error);
    }
    var metas := MergeMetadata(m.metas, f.metadata);
    if metas.Err? {
      return Err(metas.error);
    }
    r := Ok(Merged(vars.value, metas.value));
  }

  /** `for dataset in data.keys(): ...`: an unseen dataset is stored, a
      seen one merged. */
  method MergeDatasets(vars0: Dict<Dataset>, data: Dict<Dataset>) returns (r: Result<Dict<Dataset>>)
    ensures r == MergeDataFrom(vars0, data, 0)
  {
    var vars := vars0;
    for i := 0 to |data.keys|
      invariant MergeDataFrom(vars, data, i) == MergeDataFrom(vars0, data, 0)
    {
      var next := StoreDataset(vars, data, i);
      if next.Err? {
        return Err(next.error);
      }
      vars := next.value;
    }
    r := Ok(vars);
  }

  /** The body of the dataset loop, on dataset i of the file. */
  method StoreDataset(vars: Dict<Dataset>, data: Dict<Dataset>, i: nat) returns (r: Result<Dict<Dataset>>)
    requires i < |data.keys|
    ensures r == MergeDataset(vars, data, i)
  {
    var ds, incoming := data.keys[i], ValueAt(data, i);
    if ds !in vars.items() {
      return Ok(Put(vars, ds, incoming));
    }
    var m := StackDataset(vars.items()[ds], incoming);
    if m.Err? {
      return Err(m.error);
    }
    r := Ok(Put(vars, ds, m.value));
  }

  /** The count check, then `for axis in data[dataset].keys(): ...`. */
  method StackDataset(stored: Dataset, incoming: Dataset) returns (r: Result<Dataset>)
    ensures r == MergeSet(stored, incoming)
  {
    if Len(stored) != Len(incoming) {
      return Err(TypeError);
    }
    var acc := stored;
    for i := 0 to |incoming.keys|
      invariant StackFrom(acc, incoming, i) == StackFrom(stored, incoming, 0)
    {
      var next := StackVariable(acc, incoming, i);
      if next.Err? {
        return next;
      }
      acc := next.value;
    }
    r := Ok(acc);
  }

  /** The body of the axis loop, on variable i of the incoming dataset. */
  method StackVariable(acc: Dataset, incoming: Dataset, i: nat) returns (r: Result<Dataset>)
    requires i < |incoming.keys|
    ensures r == StackAxis(acc, incoming, i)
  {
    var ax := incoming.keys[i];
    if ax !in acc.items() {
      return Err(KeyError);
    }
    var c := Concat(acc.items()[ax], ValueAt(incoming, i));
    if c.Err? {
      return Err(c.error);
    }
    r := Ok(Put(acc, ax, c.value));
  }

  /** `for dataset in metadata.keys(): ...`: an unseen dataset's
      dictionary is stored, a seen one's compared and updated. */
  method MergeMetadata(metas0: Dict<Meta>, metadata: Dict<Meta>) returns (r: Result<Dict<Meta>>)
    ensures r == MergeMetasFrom(metas0, metadata, 0)
  {
    var metas := metas0;
    for i := 0 to |metadata.keys|
      invariant MergeMetasFrom(metas, metadata, i) == MergeMetasFrom(metas0, metadata, 0)
    {
      var next := StoreMetadata(metas, metadata, i);
      if next.Err? {
        return Err(next.error);
      }
      metas := next.value;
    }
    r := Ok(metas);
  }

  /** The body of the metadata loop, on dataset i of the file. */
  method StoreMetadata(metas: Dict<Meta>, metadata: Dict<Meta>, i: nat) returns (r: Result<Dict<Meta>>)
    requires i < |metadata.keys|
    ensures r == MergeMetas(metas, metadata, i)
  {
    var ds, incoming := metadata.keys[i], ValueAt(metadata, i);
    if ds !in metas.items() {
      return Ok(Put(metas, ds, incoming));
    }
    var ok := CompareMeta(metas.items()[ds], incoming);
    if !ok {
      return Err(TypeError);
    }
    var updated := UpdateInPlace(metas.items()[ds], incoming);
    r := Ok(Put(metas, ds, updated));
  }

  /** The comparison loop over the shared keys, in the file's order: false
      when the warning for a differing value cannot be built. */
  method CompareMeta(stored: Meta, incoming: Meta) returns (ok: bool)
    ensures ok <==> !Clashes(stored, incoming)
  {
    for i := 0 to |incoming.keys|
      invariant forall j :: 0 <= j < i && incoming.keys[j] in stored.items() ==>
        !Clash(stored.items()[incoming.keys[j]], ValueAt(incoming, j))
    {
      var k := incoming.keys[i];
      if k in stored.items() && Clash(stored.items()[k], ValueAt(incoming, i)) {
        return false;
      }
    }
    return true;
  }

  /** `stored.update(incoming)`, one assignment at a time. */
  method UpdateInPlace(stored: Meta, incoming: Meta) returns (r: Meta)
    ensures r == Update(stored, incoming)
  {
    r := stored;
    for i := 0 to |incoming.keys|
      invariant r == UpdateFrom(stored, incoming, i)
    {
      r := Put(r, incoming.keys[i], ValueAt(incoming, i));
    }
  }
}
