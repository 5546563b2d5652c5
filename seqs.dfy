/** Mapping each element of a sequence to a sequence and concatenating the results, as `flat_map`/`extend` do. */
module Seqs {
  function ConcatMap<A, B>(f: A -> seq<B>, xs: seq<A>): seq<B>
    decreases |xs|
  {
    if |xs| == 0 then [] else ConcatMap(f, xs[..|xs| - 1]) + f(xs[|xs| - 1])
  }

  /** The contribution of element `k` is appended after those before it. */
  lemma ConcatMapSnoc<A, B>(f: A -> seq<B>, xs: seq<A>, k: nat)
    requires k < |xs|
    ensures ConcatMap(f, xs[..k + 1]) == ConcatMap(f, xs[..k]) + f(xs[k])
  {
    assert xs[..k + 1][..k] == xs[..k];
  }

  /** Concatenation distributes: the elements are handled one after another, nothing merged. */
  lemma {:induction false} ConcatMapAppend<A, B>(f: A -> seq<B>, xs: seq<A>, ys: seq<A>)
    ensures ConcatMap(f, xs + ys) == ConcatMap(f, xs) + ConcatMap(f, ys)
    decreases |ys|
  {
    if |ys| == 0 {
      assert xs + ys == xs;
    } else {
      var init := ys[..|ys| - 1];
      ConcatMapAppend(f, xs, init);
      assert (xs + ys)[..|xs + ys| - 1] == xs + init;
      assert (xs + ys)[|xs + ys| - 1] == ys[|ys| - 1];
    }
  }

  /** An element of the result comes from the image of some element of the input, and every such element is there. */
  lemma {:induction false} ConcatMapMembers<A, B>(f: A -> seq<B>, xs: seq<A>, y: B)
    ensures y in ConcatMap(f, xs) <==> exists i :: 0 <= i < |xs| && y in f(xs[i])
    decreases |xs|
  {
    if |xs| > 0 {
      var init := xs[..|xs| - 1];
      ConcatMapMembers(f, init, y);
      if exists i :: 0 <= i < |init| && y in f(init[i]) {
        var i :| 0 <= i < |init| && y in f(init[i]);
        assert xs[i] == init[i];
      }
      if exists i :: 0 <= i < |xs| && y in f(xs[i]) {
        var i :| 0 <= i < |xs| && y in f(xs[i]);
        if i < |init| {
          assert init[i] == xs[i];
        }
      }
    }
  }

  /** Removing element `i` removes one occurrence of it. */
  lemma MultisetRemove<A>(xs: seq<A>, i: nat)
    requires i < |xs|
    ensures multiset(xs[..i] + xs[i + 1..]) == multiset(xs) - multiset{xs[i]}
  {
    assert xs == xs[..i] + [xs[i]] + xs[i + 1..];
  }

  lemma ConcatMapSingle<A, B>(f: A -> seq<B>, x: A)
    ensures ConcatMap(f, [x]) == f(x)
  {
    assert [x][..0] == [];
  }

  /** The contribution of element `i` can be taken out of the result, as a multiset. */
  lemma ConcatMapExtract<A, B>(f: A -> seq<B>, xs: seq<A>, i: nat)
    requires i < |xs|
    ensures multiset(ConcatMap(f, xs)) == multiset(ConcatMap(f, xs[..i] + xs[i + 1..])) + multiset(f(xs[i]))
  {
    var pre, x, post := xs[..i], xs[i], xs[i + 1..];
    assert xs == pre + [x] + post;
    ConcatMapAppend(f, pre + [x], post);
    ConcatMapAppend(f, pre, [x]);
    ConcatMapAppend(f, pre, post);
    ConcatMapSingle(f, x);
    var a, b, c := ConcatMap(f, pre), f(x), ConcatMap(f, post);
    assert ConcatMap(f, xs) == a + b + c;
    assert ConcatMap(f, pre + post) == a + c;
    assert multiset(a + b + c) == multiset(a + c) + multiset(b);
  }

  /** Reordering the input reorders the result and nothing more: equal multisets in, equal multisets out. */
  lemma {:induction false} ConcatMapPermutation<A, B>(f: A -> seq<B>, xs: seq<A>, ys: seq<A>)
    requires multiset(xs) == multiset(ys)
    ensures multiset(ConcatMap(f, xs)) == multiset(ConcatMap(f, ys))
    decreases |ys|
  {
    if |ys| > 0 {
      var k := |ys| - 1;
      var last := ys[k];
      assert last in multiset(xs);
      var i :| 0 <= i < |xs| && xs[i] == last;
      MultisetRemove(xs, i);
      MultisetRemove(ys, k);
      assert ys[..k] + ys[k + 1..] == ys[..k];
      ConcatMapPermutation(f, xs[..i] + xs[i + 1..], ys[..k]);
      ConcatMapExtract(f, xs, i);
      ConcatMapExtract(f, ys, k);
    }
  }
}
