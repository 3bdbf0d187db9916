/**
 * The C helpers around the HDF5 library: a global counter of the
 * non-root groups met by a recursive visit, the `%05d` group names, and
 * the open/check/read/close wrappers, which terminate the process on a
 * library failure.
 *
 * The HDF5 library is an oracle: an open file is a `File` value, the
 * objects a visit reports are a sequence, and the status codes the
 * library returns for a read or a close are parameters. `exit(1)` is the
 * outcome `Exit(1)`; a function that reaches its end without a `return`
 * has the outcome `Undefined`.
 */
module HdfUtil {
  import opened Strings
  import opened Hdf5

  /** What a call of one of the C helpers ends in. */
  datatype Outcome<T> =
    | Return(value: T)   // the function returns `value`
    | Exit(code: int)    // the process terminates with `exit(code)`
    | Undefined          // control reaches the closing brace of a non-void function

  /** The object types `H5O_info_t.type` distinguishes. */
  datatype ObjectType = GroupObject | DatasetObject | NamedDatatypeObject

  /** One object reported to the visit callback: its path relative to the start and its type. */
  datatype VisitedObject = VisitedObject(name: string, kind: ObjectType)

  /** The objects `group_counter` counts: groups whose name does not start with '.' (the root is "."). */
  predicate CountsAsGroup(obj: VisitedObject) {
    obj.kind == GroupObject && (obj.name == [] || obj.name[0] != '.')
  }

  /** The number of objects of a visit that `group_counter` counts. */
  function CountGroups(objs: seq<VisitedObject>): (n: nat)
    ensures n <= |objs|
    ensures n == |objs| <==> forall k :: 0 <= k < |objs| ==> CountsAsGroup(objs[k])
    ensures n == 0 <==> forall k :: 0 <= k < |objs| ==> !CountsAsGroup(objs[k])
  {
    if objs == [] then 0
    else CountGroups(objs[..|objs| - 1]) + (if CountsAsGroup(objs[|objs| - 1]) then 1 else 0)
  }

  /** Counting a visit split in two counts each part. */
  lemma {:induction false} CountGroupsAppend(a: seq<VisitedObject>, b: seq<VisitedObject>)
    ensures CountGroups(a + b) == CountGroups(a) + CountGroups(b)
  {
    if b == [] {
      assert a + b == a;
    } else {
      assert (a + b)[..|a + b| - 1] == a + b[..|b| - 1];
      CountGroupsAppend(a, b[..|b| - 1]);
    }
  }

  /** The root group, which a visit reports first as ".", adds nothing to the count. */
  lemma CountSkipsRoot(rest: seq<VisitedObject>)
    ensures CountGroups([VisitedObject(".", GroupObject)] + rest) == CountGroups(rest)
  {
    CountGroupsAppend([VisitedObject(".", GroupObject)], rest);
    assert [VisitedObject(".", GroupObject)][..0] == [];
  }

  /** The global `group_count` and the two functions that update it. */
  class GroupCounter {
    var groupCount: int

    /** `int group_count = 0;` */
    constructor()
      ensures groupCount == 0
    {
      groupCount := 0;
    }

    /** `group_counter`: counts a non-root group and always lets the visit go on. */
    method Callback(obj: VisitedObject) returns (status: int)
      modifies this
      ensures status == 0
      ensures groupCount == old(groupCount) + (if CountsAsGroup(obj) then 1 else 0)
    {
      if obj.kind == GroupObject {
        if obj.name == [] || obj.name[0] != '.' {
          groupCount := groupCount + 1;
        }
      }
      status := 0;
    }

    /**
     * `get_group_count`: resets the counter and visits every object, so
     * the result counts the non-root groups of this visit only, whatever
     * the counter held before.
     */
    method GetGroupCount(visit: seq<VisitedObject>) returns (n: int)
      modifies this
      ensures n == groupCount == CountGroups(visit)
    {
      groupCount := 0;
      var i := 0;
      while i < |visit|
        invariant 0 <= i <= |visit|
        invariant groupCount == CountGroups(visit[..i])
      {
        var status := Callback(visit[i]);
        assert visit[..i + 1][..i] == visit[..i];
        i := i + 1;
      }
      assert visit[..|visit|] == visit;
      n := groupCount;
    }
  }

  /** `sprintf(group_name, "%05d", i)`: at least five characters, zero-padded after any sign. */
  function GroupName(i: int): string
  {
    if i < 0 then "-" + PadZeros(Decimal(-i), 4) else PadZeros(Decimal(i), 5)
  }

  /** From 0 to 99999 the name is exactly five digits and denotes `i`. */
  lemma GroupNameFiveDigits(i: int)
    requires 0 <= i <= 99999
    ensures |GroupName(i)| == 5 && AllDigits(GroupName(i)) && Value(GroupName(i)) == i
  {
    assert Pow10(5) == 100000 by { assert Pow10(3) == 1000; }
    DecimalLength(i, 5);
    PaddedDecimal(i, 5);
  }

  /** Above 99999 the name is the full decimal rendering: nothing is truncated. */
  lemma GroupNameUnpadded(i: int)
    requires i > 99999
    ensures GroupName(i) == Decimal(i)
  {
    assert Pow10(5) == 100000 by { assert Pow10(3) == 1000; }
    DecimalLengthAtLeast(i, 5);
  }

  /** A name starts with '-' exactly for a negative index; the rest is digits denoting |i|. */
  lemma GroupNameParts(i: int)
    ensures |GroupName(i)| >= 5
    ensures GroupName(i)[0] == '-' <==> i < 0
    ensures i >= 0 ==> AllDigits(GroupName(i)) && Value(GroupName(i)) == i
    ensures i < 0 ==> AllDigits(GroupName(i)[1..]) && Value(GroupName(i)[1..]) == -i
  {
    if i >= 0 {
      PaddedDecimal(i, 5);
    } else {
      PaddedDecimal(-i, 4);
      assert GroupName(i)[1..] == PadZeros(Decimal(-i), 4);
    }
  }

  /** Distinct indices give distinct group names. */
  lemma GroupNameInjective(i: int, j: int)
    requires GroupName(i) == GroupName(j)
    ensures i == j
  {
    GroupNameParts(i);
    GroupNameParts(j);
  }

  /** `open_hf`: the file system is a map from path to file; a path it lacks cannot be opened. */
  function OpenHf(fs: map<string, File>, hf: string): (r: Outcome<File>)
    ensures r.Return? <==> hf in fs
    ensures r.Return? ==> r.value == fs[hf]
    ensures !r.Return? ==> r == Exit(1)
  {
    if hf in fs then Return(fs[hf]) else Exit(1)
  }

  /** `open_group`: a group the file lacks terminates the process. */
  function OpenGroup(file: File, groupName: string): (r: Outcome<Group>)
    ensures r.Return? <==> groupName in file.groups
    ensures r.Return? ==> r.value == file.groups[groupName]
    ensures !r.Return? ==> r == Exit(1)
  {
    if groupName in file.groups then Return(file.groups[groupName]) else Exit(1)
  }

  /** `check_group`: 1 when the group opens, 0 when it does not. */
  function CheckGroup(file: File, groupName: string): (r: int)
    ensures r == 1 <==> groupName in file.groups
    ensures r == 0 <==> groupName !in file.groups
    ensures r == 1 <==> OpenGroup(file, groupName).Return?
  {
    if groupName in file.groups then 1 else 0
  }

  /** `check_dataset`: opens the group (terminating when it is missing), then 1 or 0 for the dataset. */
  function CheckDataset(file: File, groupName: string, dsetName: string): (r: Outcome<int>)
    ensures r == Exit(1) <==> groupName !in file.groups
    ensures r == Return(1) <==> groupName in file.groups && dsetName in file.groups[groupName].datasets
    ensures r == Return(0) <==> groupName in file.groups && dsetName !in file.groups[groupName].datasets
  {
    match OpenGroup(file, groupName)
    case Return(g) => Return(if dsetName in g.datasets then 1 else 0)
    case _ => Exit(1)
  }

  /**
   * `get_dataset_dims`: the dimensions of the dataset, written to `dims`;
   * a missing dataset leaves `dims` unwritten (`None`).
   */
  function GetDatasetDims(file: File, groupName: string, dsetName: string): (r: Outcome<Option<seq<nat>>>)
    ensures r == Exit(1) <==> groupName !in file.groups
    ensures r == Return(None) <==> groupName in file.groups && dsetName !in file.groups[groupName].datasets
    ensures r.Return? && r.value.Some? ==>
              groupName in file.groups && dsetName in file.groups[groupName].datasets &&
              r.value.value == file.groups[groupName].datasets[dsetName].dims
  {
    match OpenGroup(file, groupName)
    case Return(g) => Return(if dsetName in g.datasets then Some(g.datasets[dsetName].dims) else None)
    case _ => Exit(1)
  }

  /**
   * The outcome of `read_dataset_float` when the library's read returns
   * `readStatus`: termination for a missing group or a failed read, no
   * return value for a missing dataset, the read status otherwise.
   */
  function ReadOutcome(file: File, groupName: string, dsetName: string, readStatus: int): (r: Outcome<int>)
    ensures r == Exit(1) <==>
              groupName !in file.groups || (dsetName in file.groups[groupName].datasets && readStatus < 0)
    ensures r == Undefined <==> groupName in file.groups && dsetName !in file.groups[groupName].datasets
    ensures r.Return? ==> r.value == readStatus && readStatus >= 0
  {
    match CheckDataset(file, groupName, dsetName)
    case Return(ok) =>
      if ok == 0 then Undefined
      else if readStatus < 0 then Exit(1)
      else Return(readStatus)
    case _ => Exit(1)
  }

  /**
   * `read_dataset_float`: when the read succeeds, the dataset's elements
   * fill the front of `buf` and the rest of `buf` is left alone; in every
   * other outcome `buf` is left alone.
   */
  method ReadDatasetFloat(file: File, groupName: string, dsetName: string, readStatus: int, buf: array<real>)
    returns (r: Outcome<int>)
    requires groupName in file.groups && dsetName in file.groups[groupName].datasets ==>
               |file.groups[groupName].datasets[dsetName].data| <= buf.Length
    modifies buf
    ensures r == ReadOutcome(file, groupName, dsetName, readStatus)
    ensures r.Return? ==>
              var data := file.groups[groupName].datasets[dsetName].data;
              buf[..|data|] == data && buf[|data|..] == old(buf[|data|..])
    ensures !r.Return? ==> buf[..] == old(buf[..])
  {
    var ok := CheckDataset(file, groupName, dsetName);
    if ok == Return(1) {
      var g := OpenGroup(file, groupName);
      if readStatus < 0 {
        return Exit(1);
      }
      var data := g.value.datasets[dsetName].data;
      forall k | 0 <= k < |data| {
        buf[k] := data[k];
      }
      return Return(readStatus);
    } else if ok == Return(0) {
      return Undefined;
    } else {
      return Exit(1);
    }
  }

  /** `close_hf`: a negative status from the library terminates the process. */
  function CloseHf(closeStatus: int): (r: Outcome<int>)
    ensures r.Return? <==> closeStatus >= 0
    ensures r.Return? ==> r.value == closeStatus
    ensures !r.Return? ==> r == Exit(1)
  {
    if closeStatus < 0 then Exit(1) else Return(closeStatus)
  }
}
