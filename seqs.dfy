/** Order-preserving subsequences, the shape of every list the booking code
    filters. */
module Seqs {

  /** `idx` picks the elements of `a` out of `b` at strictly increasing
      positions. */
  ghost predicate Embeds<T>(idx: seq<int>, a: seq<T>, b: seq<T>) {
    |idx| == |a|
    && (forall k :: 0 <= k < |idx| ==> 0 <= idx[k] < |b| && a[k] == b[idx[k]])
    && (forall k, l :: 0 <= k < l < |idx| ==> idx[k] < idx[l])
  }

  ghost predicate IsSubsequence<T>(a: seq<T>, b: seq<T>) {
    exists idx :: Embeds(idx, a, b)
  }

  lemma SubsequenceEmpty<T>(b: seq<T>)
    ensures IsSubsequence([], b)
  {
    assert Embeds([], [], b);
  }

  lemma SubsequenceReflexive<T>(b: seq<T>)
    ensures IsSubsequence(b, b)
  {
    var idx := seq(|b|, k => k);
    assert Embeds(idx, b, b);
  }

  /** A subsequence stays one when the longer sequence grows at the end,
      whether or not the new element is kept. */
  lemma SubsequenceSnoc<T>(a: seq<T>, b: seq<T>, x: T)
    requires IsSubsequence(a, b)
    ensures IsSubsequence(a, b + [x])
    ensures IsSubsequence(a + [x], b + [x])
  {
    var idx :| Embeds(idx, a, b);
    assert Embeds(idx, a, b + [x]);
    var idx' := idx + [|b|];
    assert Embeds(idx', a + [x], b + [x]);
  }

  lemma SubsequenceTransitive<T>(a: seq<T>, b: seq<T>, c: seq<T>)
    requires IsSubsequence(a, b) && IsSubsequence(b, c)
    ensures IsSubsequence(a, c)
  {
    var i1 :| Embeds(i1, a, b);
    var i2 :| Embeds(i2, b, c);
    var i3 := seq(|i1|, k requires 0 <= k < |i1| => i2[i1[k]]);
    assert Embeds(i3, a, c);
  }

  /** Small facts stated over any element type, where they are cheap to
      check. */
  lemma AppendNil<T>(a: seq<T>)
    ensures a + [] == a
  {
  }

  lemma AppendAssoc<T>(a: seq<T>, b: seq<T>, c: seq<T>, d: seq<T>)
    ensures a + (b + (c + d)) == a + b + c + d
  {
  }

  lemma InAppend<T>(x: T, a: seq<T>, b: seq<T>)
    ensures x in a + b <==> x in a || x in b
  {
  }
}
