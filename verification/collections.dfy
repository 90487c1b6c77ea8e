/** Selecting the elements of a sequence that satisfy a condition, by position. */
module Collections {

  /** The positions of the elements of `s` that satisfy `p`, in increasing order. */
  function FilterIndices<T>(s: seq<T>, p: T -> bool): (idx: seq<nat>)
    ensures forall k :: 0 <= k < |idx| ==> idx[k] < |s| && p(s[idx[k]])
  {
    if s == [] then []
    else
      var prev := FilterIndices(s[..|s| - 1], p);
      if p(s[|s| - 1]) then prev + [|s| - 1] else prev
  }

  /** The positions are strictly increasing: each selected element once, in order. */
  lemma {:induction false} FilterIndicesIncreasing<T>(s: seq<T>, p: T -> bool)
    ensures forall k, l :: 0 <= k < l < |FilterIndices(s, p)| ==> FilterIndices(s, p)[k] < FilterIndices(s, p)[l]
  {
    if s != [] {
      var prev := FilterIndices(s[..|s| - 1], p);
      FilterIndicesIncreasing(s[..|s| - 1], p);
      var idx := FilterIndices(s, p);
      assert idx == prev + (if p(s[|s| - 1]) then [|s| - 1] else []);
      forall k, l | 0 <= k < l < |idx| ensures idx[k] < idx[l] {
        assert idx[k] == prev[k] && prev[k] < |s| - 1;
        if l < |prev| {
          assert idx[l] == prev[l] && prev[k] < prev[l];
        }
      }
    }
  }

  /** Every position whose element satisfies `p` is selected. */
  lemma {:induction false} FilterIndicesComplete<T>(s: seq<T>, p: T -> bool, i: nat)
    requires i < |s| && p(s[i])
    ensures i in FilterIndices(s, p)
  {
    if i < |s| - 1 {
      FilterIndicesComplete(s[..|s| - 1], p, i);
    }
  }

  /** Extending the scanned prefix by one element appends its position when it is selected. */
  lemma FilterIndicesStep<T>(s: seq<T>, p: T -> bool, i: nat)
    requires i < |s|
    ensures FilterIndices(s[..i + 1], p) == FilterIndices(s[..i], p) + (if p(s[i]) then [i] else [])
  {
    assert s[..i + 1][..i] == s[..i];
  }

  /** The elements of `s` at the positions `idx`, in that order. */
  function Pick<T>(s: seq<T>, idx: seq<nat>): (r: seq<T>)
    requires forall k :: 0 <= k < |idx| ==> idx[k] < |s|
    ensures |r| == |idx|
  {
    seq(|idx|, k requires 0 <= k < |idx| => s[idx[k]])
  }

  /** Selecting from a prefix is selecting from the whole sequence. */
  lemma PickPrefix<T>(s: seq<T>, idx: seq<nat>, n: nat)
    requires n <= |s| && forall k :: 0 <= k < |idx| ==> idx[k] < n
    ensures Pick(s[..n], idx) == Pick(s, idx)
  {
  }
}
