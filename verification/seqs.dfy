/** Concatenation of a sequence of sequences, which is what Python's
    `''.join(...)` does to a list of strings. */
module Seqs {

  function Flatten<T>(ss: seq<seq<T>>): seq<T>
  {
    if |ss| == 0 then [] else ss[0] + Flatten(ss[1..])
  }

  /** Flattening distributes over concatenation. */
  lemma {:induction false} FlattenAppend<T>(a: seq<seq<T>>, b: seq<seq<T>>)
    ensures Flatten(a + b) == Flatten(a) + Flatten(b)
  {
    if |a| == 0 {
      assert a + b == b;
    } else {
      assert (a + b)[1..] == a[1..] + b;
      FlattenAppend(a[1..], b);
    }
  }

  /** Appending one more piece appends its contents. */
  lemma FlattenSnoc<T>(ss: seq<seq<T>>, s: seq<T>)
    ensures Flatten(ss + [s]) == Flatten(ss) + s
  {
    FlattenAppend(ss, [s]);
    assert Flatten([s]) == s + Flatten([s][1..]);
  }

  /** Joining pieces that are each one element long gives one element per piece. */
  lemma {:induction false} FlattenUnitLength<T>(ss: seq<seq<T>>)
    requires forall i :: 0 <= i < |ss| ==> |ss[i]| == 1
    ensures |Flatten(ss)| == |ss|
  {
    if |ss| > 0 {
      FlattenUnitLength(ss[1..]);
    }
  }
}
