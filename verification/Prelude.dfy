/** Vocabulary shared by every component: optional values, bytes, and the few
    facts about finite sets that the solver does not know by itself. */
module Prelude {

  datatype Option<+T> = None | Some(value: T)

  /** An octet. */
  type Byte = b: int | 0 <= b < 256

  type Bytes = seq<Byte>

  lemma {:induction false} SubsetSize<T>(a: set<T>, b: set<T>)
    requires a <= b
    ensures |a| <= |b|
    ensures |a| == |b| ==> a == b
  {
    assert b == a + (b - a);
  }
}
