/** Small vocabulary shared by every module. */
module Wrappers {

  /** A nullable column, an absent dictionary key, or Python's None. */
  datatype Option<+T> = None | Some(value: T)

  lemma SubsetSize<T>(a: set<T>, b: set<T>)
    requires a <= b
    ensures |a| <= |b|
  {
    assert b == a + (b - a);
  }
}
