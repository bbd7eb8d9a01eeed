/**
 * `list.map(f).filter(Boolean)` where `f` returns an object or `null`: the list of
 * produced objects, in order. `Compact` is the result; `KeptIndices` says which
 * input positions it came from.
 */
module Filtering {
  import opened Wrappers

  /** The values of `xs`, in order, with every `None` removed. */
  function Compact<T(!new)>(xs: seq<Option<T>>): (r: seq<T>)
    ensures |r| <= |xs|
    ensures forall y :: y in r <==> Some(y) in xs
  {
    if xs == [] then []
    else
      var init := Compact(xs[..|xs| - 1]);
      assert xs == xs[..|xs| - 1] + [xs[|xs| - 1]];
      match xs[|xs| - 1]
      case None => init
      case Some(v) => init + [v]
  }

  /**
   * The positions of `xs` that hold a value, in increasing order: the k-th element of
   * `Compact(xs)` comes from position `KeptIndices(xs)[k]` (see the lemmas below).
   */
  function KeptIndices<T(!new)>(xs: seq<Option<T>>): (idx: seq<nat>)
    ensures |idx| == |Compact(xs)|
    ensures forall k :: 0 <= k < |idx| ==> idx[k] < |xs|
  {
    if xs == [] then []
    else
      var n := |xs| - 1;
      var init := KeptIndices(xs[..n]);
      if xs[n].Some? then init + [n] else init
  }

  /** Each kept element is the value found at its recorded position. */
  lemma {:induction false} KeptIndicesLocate<T(!new)>(xs: seq<Option<T>>, k: nat)
    requires k < |Compact(xs)|
    ensures KeptIndices(xs)[k] < |xs| && xs[KeptIndices(xs)[k]] == Some(Compact(xs)[k])
    decreases |xs|
  {
    var n := |xs| - 1;
    var init, kept := Compact(xs[..n]), KeptIndices(xs[..n]);
    if k < |init| {
      KeptIndicesLocate(xs[..n], k);
      assert Compact(xs)[k] == init[k];
      assert KeptIndices(xs)[k] == kept[k];
    } else {
      assert xs[n].Some? && Compact(xs) == init + [xs[n].value];
      assert KeptIndices(xs) == kept + [n];
    }
  }

  /** The recorded positions are strictly increasing: the filter keeps the input order. */
  lemma {:induction false} KeptIndicesIncreasing<T(!new)>(xs: seq<Option<T>>, k: nat, l: nat)
    requires k < l < |KeptIndices(xs)|
    ensures KeptIndices(xs)[k] < KeptIndices(xs)[l]
    decreases |xs|
  {
    var n := |xs| - 1;
    if l < |KeptIndices(xs[..n])| {
      KeptIndicesIncreasing(xs[..n], k, l);
    }
  }

  /** A position is kept exactly when it holds a value. */
  lemma {:induction false} KeptIndicesComplete<T(!new)>(xs: seq<Option<T>>, i: nat)
    ensures i in KeptIndices(xs) <==> i < |xs| && xs[i].Some?
    decreases |xs|
  {
    if xs != [] {
      var n := |xs| - 1;
      KeptIndicesComplete(xs[..n], i);
    }
  }

  /** Filtering distributes over concatenation. */
  lemma {:induction false} CompactAppend<T(!new)>(a: seq<Option<T>>, b: seq<Option<T>>)
    ensures Compact(a + b) == Compact(a) + Compact(b)
    decreases |b|
  {
    if b == [] {
      assert a + b == a;
    } else {
      var n := |b| - 1;
      assert (a + b)[..|a + b| - 1] == a + b[..n];
      CompactAppend(a, b[..n]);
    }
  }

  /** A `None` entry contributes nothing: removing it leaves the filtered list unchanged. */
  lemma CompactSkipsNone<T(!new)>(a: seq<Option<T>>, b: seq<Option<T>>)
    ensures Compact(a + [None] + b) == Compact(a + b)
  {
    CompactAppend(a + [None], b);
    CompactAppend(a, [None]);
    CompactAppend(a, b);
    var none: seq<Option<T>> := [None];
    assert none[..0] == [];
    assert Compact(none) == [];
  }
}
