/** List helpers of the Kotlin standard library that the modelled code relies on. */
module Seqs {

  /** True iff `r` is the lowest index of `s` whose element satisfies `p`. */
  ghost predicate IsFirstIndex<T>(s: seq<T>, p: T -> bool, r: int)
  {
    && 0 <= r < |s|
    && p(s[r])
    && forall i :: 0 <= i < r ==> !p(s[i])
  }

  /** Kotlin's `List.indexOfFirst`: the lowest index whose element satisfies
      `p`, or -1 when no element does. */
  function IndexOfFirst<T>(s: seq<T>, p: T -> bool): (r: int)
    ensures -1 <= r < |s|
    ensures r == -1 <==> forall i :: 0 <= i < |s| ==> !p(s[i])
    ensures r != -1 ==> IsFirstIndex(s, p, r)
  {
    if |s| == 0 then -1
    else if p(s[0]) then 0
    else
      var k := IndexOfFirst(s[1..], p);
      if k == -1 then -1 else k + 1
  }

  /** Concatenation is associative; stated once so that long proofs about
      logs that grow at the end need not rediscover it. */
  lemma AppendAssoc<T>(a: seq<T>, b: seq<T>, c: seq<T>)
    ensures (a + b) + c == a + (b + c)
  {
  }
}
