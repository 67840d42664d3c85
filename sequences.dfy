/** Keep-and-transform over a list, the shape of every "build the optimised entry, append it
    when non-empty" loop of the catalogue pruning. */
module Sequences {
  import opened Wrappers

  /** The `Some` results of `f` on `xs`, in order. */
  function FilterMap<A, B>(xs: seq<A>, f: A -> Option<B>): seq<B> {
    if xs == [] then []
    else FilterMap(xs[..|xs| - 1], f) + (match f(xs[|xs| - 1]) case Some(y) => [y] case None => [])
  }

  /** Some result of `f` is kept exactly when some element gives one. */
  lemma FilterMapNonEmpty<A, B>(xs: seq<A>, f: A -> Option<B>)
    ensures FilterMap(xs, f) != [] <==> exists i :: 0 <= i < |xs| && f(xs[i]).Some?
  {
    FilterMapKeeps(xs, f);
    if FilterMap(xs, f) != [] {
      FilterMapMember(xs, f, FilterMap(xs, f)[0]);
    }
  }

  /** `idx` lists, in strictly increasing order, the positions of `xs` whose results make up `out`. */
  ghost predicate Picks<A, B>(out: seq<B>, xs: seq<A>, f: A -> Option<B>, idx: seq<int>) {
    |idx| == |out| &&
    (forall k :: 0 <= k < |idx| ==> 0 <= idx[k] < |xs| && f(xs[idx[k]]) == Some(out[k])) &&
    (forall a, b :: 0 <= a < b < |idx| ==> idx[a] < idx[b])
  }

  /** The result is an order-preserving selection of the inputs' results. */
  lemma {:induction false} FilterMapPicks<A, B>(xs: seq<A>, f: A -> Option<B>)
    ensures exists idx :: Picks(FilterMap(xs, f), xs, f, idx)
  {
    if xs == [] {
      assert Picks(FilterMap(xs, f), xs, f, []);
    } else {
      var n := |xs| - 1;
      var pre := xs[..n];
      FilterMapPicks(pre, f);
      var idx :| Picks(FilterMap(pre, f), pre, f, idx);
      var out := FilterMap(xs, f);
      assert forall k :: 0 <= k < |idx| ==> xs[idx[k]] == pre[idx[k]];
      if f(xs[n]).Some? {
        assert Picks(out, xs, f, idx + [n]);
      } else {
        assert Picks(out, xs, f, idx);
      }
    }
  }

  /** The result holds the result of every input that has one, and is no longer than the input. */
  lemma {:induction false} FilterMapKeeps<A, B>(xs: seq<A>, f: A -> Option<B>)
    ensures forall i :: 0 <= i < |xs| && f(xs[i]).Some? ==> f(xs[i]).value in FilterMap(xs, f)
    ensures |FilterMap(xs, f)| <= |xs|
  {
    if xs != [] {
      var n := |xs| - 1;
      var pre := xs[..n];
      FilterMapKeeps(pre, f);
      forall i | 0 <= i < |xs| && f(xs[i]).Some?
        ensures f(xs[i]).value in FilterMap(xs, f)
      {
        if i < n {
          assert pre[i] == xs[i];
        }
      }
    }
  }

  /** Every element of the result is the result of some input. */
  lemma FilterMapMember<A, B>(xs: seq<A>, f: A -> Option<B>, y: B)
    requires y in FilterMap(xs, f)
    ensures exists i :: 0 <= i < |xs| && f(xs[i]) == Some(y)
  {
    FilterMapPicks(xs, f);
    var idx :| Picks(FilterMap(xs, f), xs, f, idx);
    var k :| 0 <= k < |FilterMap(xs, f)| && FilterMap(xs, f)[k] == y;
    assert f(xs[idx[k]]) == Some(y);
  }

  /** When no element has a result, the result is empty. */
  lemma FilterMapNone<A, B>(xs: seq<A>, f: A -> Option<B>)
    requires forall k :: 0 <= k < |xs| ==> f(xs[k]).None?
    ensures FilterMap(xs, f) == []
  {
    if FilterMap(xs, f) != [] {
      FilterMapMember(xs, f, FilterMap(xs, f)[0]);
    }
  }

  /** One more input appends its result, if any. */
  lemma FilterMapSnoc<A, B>(xs: seq<A>, i: nat, f: A -> Option<B>)
    requires i < |xs|
    ensures FilterMap(xs[..i + 1], f) == FilterMap(xs[..i], f) + (match f(xs[i]) case Some(y) => [y] case None => [])
  {
    assert xs[..i + 1][..i] == xs[..i];
  }

  /** The lists of `xss` one after the other, as `list.extend` builds them. */
  function Concat<T>(xss: seq<seq<T>>): seq<T> {
    if xss == [] then [] else xss[0] + Concat(xss[1..])
  }

  /** An element of the concatenation is an element of one of the lists, and back. */
  lemma {:induction false} ConcatMember<T>(xss: seq<seq<T>>, x: T)
    ensures x in Concat(xss) <==> exists i :: 0 <= i < |xss| && x in xss[i]
  {
    if xss != [] {
      ConcatMember(xss[1..], x);
      if x in Concat(xss[1..]) {
        var i :| 0 <= i < |xss[1..]| && x in xss[1..][i];
        assert x in xss[i + 1];
      }
      if exists i :: 0 <= i < |xss| && x in xss[i] {
        var i :| 0 <= i < |xss| && x in xss[i];
        if i > 0 {
          assert x in xss[1..][i - 1];
        }
      }
    }
  }

  /** `f` on each element in order, stopping at the first failure: the shape of a loop that
      appends one result per element and lets the first exception escape. */
  function MapAll<A, B>(xs: seq<A>, f: A -> Outcome<B>): Outcome<seq<B>> {
    if xs == [] then Ok([])
    else
      var pre :- MapAll(xs[..|xs| - 1], f);
      var y :- f(xs[|xs| - 1]);
      Ok(pre + [y])
  }

  /** The loop succeeds exactly when every element does, and then gives one result per
      element, in order. */
  lemma {:induction false} MapAllSpec<A, B>(xs: seq<A>, f: A -> Outcome<B>)
    ensures MapAll(xs, f).Ok? <==> forall k :: 0 <= k < |xs| ==> f(xs[k]).Ok?
    ensures MapAll(xs, f).Ok? ==>
      |MapAll(xs, f).value| == |xs| && forall k :: 0 <= k < |xs| ==> MapAll(xs, f).value[k] == f(xs[k]).value
  {
    if xs != [] {
      var n := |xs| - 1;
      MapAllSpec(xs[..n], f);
      assert forall k :: 0 <= k < n ==> xs[..n][k] == xs[k];
    }
  }

  /** A failure on a prefix is the failure of the whole loop. */
  lemma {:induction false} MapAllCrash<A, B>(xs: seq<A>, f: A -> Outcome<B>, k: nat)
    requires k <= |xs|
    requires MapAll(xs[..k], f).Crash?
    ensures MapAll(xs, f) == MapAll(xs[..k], f)
    decreases |xs| - k
  {
    if k < |xs| {
      assert xs[..k + 1][..k] == xs[..k];
      MapAllCrash(xs, f, k + 1);
    } else {
      assert xs[..k] == xs;
    }
  }

  /** The lists `f` gives for the elements of `xs`, one after the other: the shape of nested
      loops that append inside the inner one. */
  function FlatMap<A, B>(xs: seq<A>, f: A -> seq<B>): seq<B> {
    if xs == [] then [] else FlatMap(xs[..|xs| - 1], f) + f(xs[|xs| - 1])
  }

  /** An element of the result comes from the list of one element of `xs`, and back. */
  lemma {:induction false} FlatMapMember<A, B>(xs: seq<A>, f: A -> seq<B>, y: B)
    ensures y in FlatMap(xs, f) <==> exists i :: 0 <= i < |xs| && y in f(xs[i])
  {
    if xs != [] {
      var n := |xs| - 1;
      FlatMapMember(xs[..n], f, y);
      if y in FlatMap(xs[..n], f) {
        var i :| 0 <= i < n && y in f(xs[..n][i]);
        assert xs[..n][i] == xs[i];
      }
      if exists i :: 0 <= i < |xs| && y in f(xs[i]) {
        var i :| 0 <= i < |xs| && y in f(xs[i]);
        if i < n {
          assert xs[..n][i] == xs[i];
        }
      }
    }
  }

  /** One element more appends its list. */
  lemma FlatMapSnoc<A, B>(xs: seq<A>, i: nat, f: A -> seq<B>)
    requires i < |xs|
    ensures FlatMap(xs[..i + 1], f) == FlatMap(xs[..i], f) + f(xs[i])
  {
    assert xs[..i + 1][..i] == xs[..i];
  }

  /** The elements of `xs` that satisfy `p`, in order. */
  function Filter<T>(xs: seq<T>, p: T -> bool): seq<T> {
    if xs == [] then [] else Filter(xs[..|xs| - 1], p) + (if p(xs[|xs| - 1]) then [xs[|xs| - 1]] else [])
  }

  /** Filtering a concatenation filters each part. */
  lemma {:induction false} FilterConcat<T>(a: seq<T>, b: seq<T>, p: T -> bool)
    ensures Filter(a + b, p) == Filter(a, p) + Filter(b, p)
  {
    if b == [] {
      assert a + b == a;
    } else {
      var n := |b| - 1;
      FilterConcat(a, b[..n], p);
      assert (a + b)[..|a + b| - 1] == a + b[..n];
    }
  }

  /** The kept elements are exactly the elements that satisfy `p`. */
  lemma {:induction false} FilterMember<T>(xs: seq<T>, p: T -> bool, x: T)
    ensures x in Filter(xs, p) <==> x in xs && p(x)
  {
    if xs != [] {
      var n := |xs| - 1;
      FilterMember(xs[..n], p, x);
      assert xs == xs[..n] + [xs[n]];
    }
  }

  /** One element more is appended when it satisfies `p`. */
  lemma FilterSnoc<T>(xs: seq<T>, i: nat, p: T -> bool)
    requires i < |xs|
    ensures Filter(xs[..i + 1], p) == Filter(xs[..i], p) + (if p(xs[i]) then [xs[i]] else [])
  {
    assert xs[..i + 1][..i] == xs[..i];
  }

  /** Keep-and-transform of a concatenation is that of each part. */
  lemma {:induction false} FilterMapConcat<A, B>(a: seq<A>, b: seq<A>, f: A -> Option<B>)
    ensures FilterMap(a + b, f) == FilterMap(a, f) + FilterMap(b, f)
  {
    if b == [] {
      assert a + b == a;
    } else {
      var n := |b| - 1;
      FilterMapConcat(a, b[..n], f);
      assert (a + b)[..|a + b| - 1] == a + b[..n];
    }
  }

  /** Filtering by `p` first changes nothing when `f` drops every element `p` rejects. */
  lemma {:induction false} FilterMapFilter<A, B>(xs: seq<A>, p: A -> bool, f: A -> Option<B>)
    requires forall x :: !p(x) ==> f(x).None?
    ensures FilterMap(Filter(xs, p), f) == FilterMap(xs, f)
  {
    if xs != [] {
      var n := |xs| - 1;
      var last := if p(xs[n]) then [xs[n]] else [];
      FilterMapFilter(xs[..n], p, f);
      FilterMapConcat(Filter(xs[..n], p), last, f);
      assert FilterMap(last, f) == (match f(xs[n]) case Some(y) => [y] case None => []) by {
        if p(xs[n]) {
          assert last[..0] == [];
        }
      }
    }
  }
}
