/** A byte stream and the chunks it arrives in. */
module Chunks {
  function Concat<T>(chunks: seq<seq<T>>): seq<T> {
    if chunks == [] then [] else chunks[0] + Concat(chunks[1..])
  }

  lemma ConcatTwo<T>(a: seq<T>, b: seq<T>)
    ensures Concat([a, b]) == a + b
  {
    var none: seq<seq<T>> := [];
    assert [a, b][1..] == [b] && [b][1..] == none;
    assert Concat([b]) == b + Concat(none);
  }
}
