/** Concatenation is associative, for the places where the solver has to be told. */
module Sequences {
  lemma {:induction false} Regroup<T>(a: seq<T>, b: seq<T>, c: seq<T>)
    ensures a + (b + c) == (a + b) + c
  {}
}
