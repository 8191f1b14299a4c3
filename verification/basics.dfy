/** Definitions shared by several models. */
module Basics {

  datatype Option<T> = None | Some(value: T)

  // The outcome of an operation that may throw.
  datatype Result<T> = Ok(value: T) | Thrown

  lemma SubsetSize<T>(a: set<T>, b: set<T>)
    requires a <= b
    ensures |a| <= |b|
  {
    assert b == a + (b - a);
  }

  lemma NegativeProduct(q: real, b: real)
    requires q < 0.0 && b > 0.0
    ensures q * b < 0.0
  {
  }
}
