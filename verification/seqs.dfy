/** Generic sequence helpers shared by the traversals. */
module Seqs {

  /** Applies `f` to every element, keeping the order. */
  function MapSeq<A, B>(f: A -> B, s: seq<A>): seq<B>
  {
    seq(|s|, i requires 0 <= i < |s| => f(s[i]))
  }

  /** Concatenates a sequence of sequences, in order. */
  function Flatten<A>(ss: seq<seq<A>>): seq<A>
  {
    if |ss| == 0 then [] else ss[0] + Flatten(ss[1..])
  }

  /** Mapping distributes over concatenation. */
  lemma MapSeqAppend<A, B>(f: A -> B, a: seq<A>, b: seq<A>)
    ensures MapSeq(f, a + b) == MapSeq(f, a) + MapSeq(f, b)
  {
    assert forall i :: 0 <= i < |a + b| ==> MapSeq(f, a + b)[i] == (MapSeq(f, a) + MapSeq(f, b))[i];
  }

  /** Mapping every inner sequence and then flattening is the same as
      flattening and then mapping. */
  lemma {:induction false} FlattenMapSeq<A, B>(f: A -> B, xs: seq<seq<A>>, ys: seq<seq<B>>)
    requires |ys| == |xs|
    requires forall i :: 0 <= i < |xs| ==> ys[i] == MapSeq(f, xs[i])
    ensures Flatten(ys) == MapSeq(f, Flatten(xs))
    decreases |xs|
  {
    if |xs| > 0 {
      FlattenMapSeq(f, xs[1..], ys[1..]);
      MapSeqAppend(f, xs[0], Flatten(xs[1..]));
    }
  }

  /** Two concatenations split at the same point agree piecewise. */
  lemma AppendSplit<A>(a: seq<A>, b: seq<A>, c: seq<A>, d: seq<A>)
    requires |a| == |c|
    requires a + b == c + d
    ensures a == c && b == d
  {
    assert a == (a + b)[..|a|] && c == (c + d)[..|c|];
    assert b == (a + b)[|a|..] && d == (c + d)[|c|..];
  }

  /** Flattening pieces of matching lengths gives sequences of the same
      length, and equal results only when the pieces were equal. */
  lemma {:induction false} FlattenSplit<A>(xs: seq<seq<A>>, ys: seq<seq<A>>)
    requires |xs| == |ys|
    requires forall i :: 0 <= i < |xs| ==> |xs[i]| == |ys[i]|
    ensures |Flatten(xs)| == |Flatten(ys)|
    ensures Flatten(xs) == Flatten(ys) ==> xs == ys
    decreases |xs|
  {
    if |xs| > 0 {
      FlattenSplit(xs[1..], ys[1..]);
      if Flatten(xs) == Flatten(ys) {
        AppendSplit(xs[0], Flatten(xs[1..]), ys[0], Flatten(ys[1..]));
        assert xs == [xs[0]] + xs[1..] && ys == [ys[0]] + ys[1..];
      }
    }
  }
}
