/** Small value types shared by every module. */
module Common {

  /** A value that may be absent: the source's nil pointers and missing rows. */
  datatype Option<+T> = None | Some(value: T)

  predicate NoRepeats<T(==)>(s: seq<T>) {
    forall a, b :: 0 <= a < b < |s| ==> s[a] != s[b]
  }

  lemma {:induction false} NoLarger<T>(s: set<T>, t: set<T>)
    requires s <= t
    ensures |s| <= |t|
  {
    if x :| x in s {
      NoLarger(s - {x}, t - {x});
    }
  }
}
