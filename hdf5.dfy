/**
 * HDF5 files as values: a file holds root attributes and named top-level
 * groups; a group holds attributes and named datasets; a dataset holds its
 * dimensions and its elements in row-major order. Element values are
 * `real`; no floating-point rounding is modelled.
 */
module Hdf5 {

  datatype AttrValue = IntAttr(i: int) | RealAttr(r: real) | TextAttr(s: string)

  datatype Dataset = Dataset(dims: seq<nat>, data: seq<real>)

  datatype Group = Group(attrs: map<string, AttrValue>, datasets: map<string, Dataset>)

  datatype File = File(attrs: map<string, AttrValue>, groups: map<string, Group>)

  /** A group with the given attributes and no datasets, as `create_group` plus attribute writes leave it. */
  function AttrsOnly(attrs: map<string, AttrValue>): Group
  {
    Group(attrs, map[])
  }
}
