/** Values shared by every module of the model. */
module Types {
  /** A column or header that may be NULL. */
  datatype Option<+T> = None | Some(value: T)

  /** Planning Center ids are decimal strings, ordered by their integer value. */
  type Id = nat

  /** Whole seconds: every ISO timestamp the mirror compares has that resolution. */
  type Time = int

  /** SQL `a > b` over nullable columns: NULL compares as false. */
  predicate Later(a: Option<Time>, b: Option<Time>) {
    a.Some? && b.Some? && a.value > b.value
  }

  function Coalesce<T>(a: Option<T>, b: Option<T>): Option<T> {
    if a.Some? then a else b
  }

  lemma SubsetIsNoLarger<T>(a: set<T>, b: set<T>)
    requires a <= b
    ensures |a| <= |b|
  {
    assert b == a + (b - a);
  }

  lemma ProperSubsetIsSmaller<T>(a: set<T>, b: set<T>, x: T)
    requires a <= b && x in b && x !in a
    ensures |a| < |b|
  {
    assert b == a + (b - a);
    assert x in b - a;
  }
}
