/** Sequence facts that the solver needs to be told. */
module Seqs {

  lemma Assoc<T>(x: seq<T>, y: seq<T>, z: seq<T>)
    ensures x + (y + z) == (x + y) + z
  {
  }

  lemma Unit<T>(x: seq<T>)
    ensures [] + x == x && x + [] == x
  {
  }
}
