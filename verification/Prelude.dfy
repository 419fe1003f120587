// Small definitions shared by the components of the model.
module Prelude {

  datatype Option<+T> = None | Some(value: T)

  // The elements of `order` that are in `s`.
  function Keep<T(==)>(order: seq<T>, s: set<T>): seq<T> {
    if order == [] then []
    else
      var n := |order| - 1;
      Keep(order[..n], s) + if order[n] in s then [order[n]] else []
  }

  lemma Regroup<T>(x: seq<T>, y: seq<T>, z: seq<T>)
    ensures x + (y + z) == (x + y) + z
  {
  }

  lemma SubsetSize<T>(a: set<T>, b: set<T>)
    requires a <= b
    ensures |a| <= |b|
  {
    assert b == a + (b - a);
  }
}
