/** Types that several components share. */
module Wrappers {
  datatype Option<T> = None | Some(value: T)

  type byte = x: int | 0 <= x < 0x100

  ghost predicate Distinct<T>(q: seq<T>) { forall i, j :: 0 <= i < j < |q| ==> q[i] != q[j] }
}
