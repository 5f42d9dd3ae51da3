/**
 Sequences without repetition, and their elements as a set.
 */
module Sequences {
  predicate Distinct<T(==)>(q: seq<T>) { forall i, j :: 0 <= i < j < |q| ==> q[i] != q[j] }

  function SetOf<T(==)>(q: seq<T>): set<T> { set x | x in q }
}
