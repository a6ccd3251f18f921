/** Generic sequence helpers shared by the pipeline. */
module Seqs {
  /** `f` applied to every element, in order. */
  function Map<A, B>(f: A -> B, xs: seq<A>): (ys: seq<B>)
    ensures |ys| == |xs|
    ensures forall k :: 0 <= k < |xs| ==> ys[k] == f(xs[k])
  {
    seq(|xs|, k requires 0 <= k < |xs| => f(xs[k]))
  }

  /** Mapping over one more element appends its image. */
  lemma MapAppend<A, B>(f: A -> B, xs: seq<A>, x: A)
    ensures Map(f, xs + [x]) == Map(f, xs) + [f(x)]
  {
    var ys, zs := Map(f, xs + [x]), Map(f, xs) + [f(x)];
    forall k | 0 <= k < |ys| ensures ys[k] == zs[k] {
      if k < |xs| {
        assert (xs + [x])[k] == xs[k];
      }
    }
  }
}
