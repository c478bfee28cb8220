/** The optional-value type the rest of the model uses for Python's `None`. */
module Wrappers {

  /** `None` stands for Python's `None`; `Some(v)` for a present value. */
  datatype Option<+T> = None | Some(value: T) {

    /** Returns the wrapped value, or `default` when there is none. */
    function GetOr(default: T): T {
      match this
      case Some(v) => v
      case None => default
    }
  }

  /** The present results of `f` over `xs`, in order: what a loop that appends `f(x)`
      for each `x`, skipping `None`, builds. */
  function FilterMap<A, B>(f: A -> Option<B>, xs: seq<A>): (r: seq<B>)
    ensures |r| <= |xs|
  {
    if |xs| == 0 then []
    else
      var rest := FilterMap(f, xs[1..]);
      match f(xs[0])
      case Some(y) => [y] + rest
      case None => rest
  }

  /** Each element contributes on its own, in order. */
  lemma {:induction false} FilterMapAppend<A, B>(f: A -> Option<B>, xs: seq<A>, ys: seq<A>)
    ensures FilterMap(f, xs + ys) == FilterMap(f, xs) + FilterMap(f, ys)
  {
    if |xs| > 0 {
      assert (xs + ys)[0] == xs[0];
      assert (xs + ys)[1..] == xs[1..] + ys;
      FilterMapAppend(f, xs[1..], ys);
    } else {
      assert xs + ys == ys;
    }
  }

  lemma FilterMapOne<A, B>(f: A -> Option<B>, x: A)
    ensures FilterMap(f, [x]) == if f(x).Some? then [f(x).value] else []
  {
    assert [x][1..] == [];
  }

  /** When `f` gives a result for every element, the results are exactly `ys`. */
  lemma {:induction false} FilterMapAllPresent<A, B>(f: A -> Option<B>, xs: seq<A>, ys: seq<B>)
    requires |xs| == |ys|
    requires forall i :: 0 <= i < |xs| ==> f(xs[i]) == Some(ys[i])
    ensures FilterMap(f, xs) == ys
  {
    if |xs| > 0 {
      assert f(xs[0]) == Some(ys[0]);
      forall i | 0 <= i < |xs[1..]|
        ensures f(xs[1..][i]) == Some(ys[1..][i])
      {
        assert f(xs[i + 1]) == Some(ys[i + 1]);
      }
      FilterMapAllPresent(f, xs[1..], ys[1..]);
      assert ys == [ys[0]] + ys[1..];
    }
  }

  /** Every result comes from its own element of `xs`, and results keep the order of the
      elements they come from. */
  lemma {:induction false} FilterMapSources<A, B>(f: A -> Option<B>, xs: seq<A>) returns (src: seq<nat>)
    ensures |src| == |FilterMap(f, xs)|
    ensures forall k :: 0 <= k < |src| ==> src[k] < |xs| && f(xs[src[k]]) == Some(FilterMap(f, xs)[k])
    ensures forall j, k :: 0 <= j < k < |src| ==> src[j] < src[k]
  {
    if |xs| == 0 {
      return [];
    }
    var r, rt := FilterMap(f, xs), FilterMap(f, xs[1..]);
    var tail := FilterMapSources(f, xs[1..]);
    var shifted := seq(|tail|, k requires 0 <= k < |tail| => tail[k] + 1);
    if f(xs[0]).Some? {
      assert r == [f(xs[0]).value] + rt;
      src := [0] + shifted;
      forall k | 0 < k < |src|
        ensures src[k] < |xs| && f(xs[src[k]]) == Some(r[k])
      {
        assert src[k] == tail[k - 1] + 1 && r[k] == rt[k - 1];
        assert xs[src[k]] == xs[1..][tail[k - 1]];
      }
    } else {
      src := shifted;
      forall k | 0 <= k < |src|
        ensures src[k] < |xs| && f(xs[src[k]]) == Some(r[k])
      {
        assert xs[src[k]] == xs[1..][tail[k]];
      }
    }
  }
}
