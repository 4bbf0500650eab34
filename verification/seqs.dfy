/** Element-wise images of sequences, the shape of every term-list conversion. */
module Seqs {

  /** The sequence of `f` applied to each element, in order. */
  function MapSeq<A, B>(f: A -> B, xs: seq<A>): (r: seq<B>)
    ensures |r| == |xs|
    ensures forall i :: 0 <= i < |xs| ==> r[i] == f(xs[i])
  {
    seq(|xs|, i requires 0 <= i < |xs| => f(xs[i]))
  }

  lemma MapSeqCons<A, B>(f: A -> B, xs: seq<A>)
    requires |xs| > 0
    ensures MapSeq(f, xs) == [f(xs[0])] + MapSeq(f, xs[1..])
  {
    assert MapSeq(f, xs)[1..] == MapSeq(f, xs[1..]);
  }

  lemma MapSeqEmpty<A, B>(f: A -> B, xs: seq<A>)
    requires |xs| == 0
    ensures MapSeq(f, xs) == []
  {
  }

  /** Mapping with `g` after `f` gives the sequence back when `g` undoes `f` on its elements. */
  lemma MapSeqInverse<A, B>(f: A -> B, g: B -> A, xs: seq<A>)
    requires forall i :: 0 <= i < |xs| ==> g(f(xs[i])) == xs[i]
    ensures MapSeq(g, MapSeq(f, xs)) == xs
  {
  }
}
