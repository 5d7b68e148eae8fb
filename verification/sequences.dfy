/** Facts about sequences that the drain-loop proofs use, stated once for
    any element type. */
module Sequences {

  /** Prepending a related pair to two pointwise-related sequences keeps
      them pointwise related. */
  lemma PairedShift<A, B>(ok: (A, B) -> bool, x: A, y: B, xs: seq<A>, ys: seq<B>)
    requires ok(x, y) && |ys| <= |xs|
    requires forall j :: 0 <= j < |ys| ==> ok(xs[j], ys[j])
    ensures forall j :: 0 <= j < |ys| + 1 ==> ok(([x] + xs)[j], ([y] + ys)[j])
  {
    forall j | 0 <= j < |ys| + 1
      ensures ok(([x] + xs)[j], ([y] + ys)[j])
    {
      if j > 0 {
        assert ([x] + xs)[j] == xs[j - 1];
        assert ([y] + ys)[j] == ys[j - 1];
      }
    }
  }

  lemma ConsAppend<T>(x: T, a: seq<T>, b: seq<T>)
    ensures [x] + (a + b) == ([x] + a) + b
  {
  }
}
