/** Sequences that arrive in chunks. */
module Chunks {
  function Concat<T>(chunks: seq<seq<T>>): (whole: seq<T>) {
    if chunks == [] then [] else chunks[0] + Concat(chunks[1..])
  }

  lemma ConcatStep<T>(before: seq<T>, chunks: seq<seq<T>>)
    requires chunks != []
    ensures before + Concat(chunks) == before + chunks[0] + Concat(chunks[1..])
  {
  }

  lemma {:induction false} ConcatAppend<T>(a: seq<seq<T>>, b: seq<seq<T>>)
    ensures Concat(a + b) == Concat(a) + Concat(b)
    decreases |a|
  {
    if a == [] {
      assert a + b == b;
    } else {
      assert (a + b)[1..] == a[1..] + b;
      ConcatAppend(a[1..], b);
    }
  }

  lemma ConcatOne<T>(chunk: seq<T>)
    ensures Concat([chunk]) == chunk
  {
    assert [chunk][1..] == [];
  }

  lemma ConcatTwo<T>(a: seq<T>, b: seq<T>)
    ensures Concat([a, b]) == a + b
  {
    assert [a, b][1..] == [b];
    ConcatOne(b);
  }

  /** The finest cut. */
  function Singles<T>(s: seq<T>): (chunks: seq<seq<T>>)
    ensures forall i :: 0 <= i < |chunks| ==> |chunks[i]| == 1
  {
    if s == [] then [] else [[s[0]]] + Singles(s[1..])
  }

  lemma {:induction false} ConcatSingles<T>(s: seq<T>)
    ensures Concat(Singles(s)) == s
  {
    if s != [] {
      ConcatSingles(s[1..]);
      assert Singles(s)[1..] == Singles(s[1..]);
      assert [s[0]] + s[1..] == s;
    }
  }
}
