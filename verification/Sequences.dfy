/** What joining two runs of events needs. */
module Sequences {
  lemma FirstOfMany<T>(first: T, rest: seq<T>, more: seq<T>)
    ensures ([first] + rest) + more == [first] + (rest + more)
  {
  }
}
