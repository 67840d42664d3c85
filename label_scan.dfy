/** The span walk both estimate-metadata extractors perform: the texts are read one by one and
    the previous text is remembered, so the text right after a label is that label's value.
    Stated over any element type; the extractors read strings, with "" before the first span
    and "N/A" as the missing value. */
module LabelScan {

  /** `last_text` when element `i` is read: element `i - 1`, or `first` for element 0. */
  function Prev<T>(ts: seq<T>, i: nat, first: T): T
    requires i <= |ts|
  {
    if i == 0 then first else ts[i - 1]
  }

  /** `r` is the last element that follows the label `w`, or `na` if none does. */
  ghost predicate LastWins<T>(ts: seq<T>, first: T, na: T, w: T, r: T) {
    || (r == na && forall i :: 0 <= i < |ts| ==> Prev(ts, i, first) != w)
    || exists i :: 0 <= i < |ts| && Prev(ts, i, first) == w && ts[i] == r
         && forall j :: i < j < |ts| ==> Prev(ts, j, first) != w
  }

  /** Element `i` gives a first-wins field its value: the previous element, normalised by
      `norm`, is the label and element `i` is not `na` itself. */
  predicate Takes<T(==)>(ts: seq<T>, i: nat, first: T, na: T, w: T, norm: T -> T)
    requires i < |ts|
  {
    norm(Prev(ts, i, first)) == w && ts[i] != na
  }

  /** `r` is the first element that takes the field, or `na` if none does: a value `na`
      leaves the field open. */
  ghost predicate FirstWins<T>(ts: seq<T>, first: T, na: T, w: T, norm: T -> T, r: T) {
    || (r == na && forall i :: 0 <= i < |ts| ==> !Takes(ts, i, first, na, w, norm))
    || exists i :: 0 <= i < |ts| && Takes(ts, i, first, na, w, norm) && ts[i] == r
         && forall j :: 0 <= j < i ==> !Takes(ts, j, first, na, w, norm)
  }

  /** `r` is the element before the last occurrence of `w`, or `na` if `w` does not occur. */
  ghost predicate LastBefore<T>(ts: seq<T>, first: T, na: T, w: T, r: T) {
    || (r == na && forall i :: 0 <= i < |ts| ==> ts[i] != w)
    || exists i :: 0 <= i < |ts| && ts[i] == w && Prev(ts, i, first) == r
         && forall j :: i < j < |ts| ==> ts[j] != w
  }

  /** Reading one more element does not change what came before it. */
  lemma PrevExtend<T>(ts: seq<T>, t: T, first: T)
    ensures forall i :: 0 <= i <= |ts| ==> Prev(ts + [t], i, first) == Prev(ts, i, first)
    ensures (ts + [t])[|ts|] == t
  {
  }

  /** A last-wins field takes the new element exactly when the previous one is its label. */
  lemma LastWinsStep<T>(ts: seq<T>, first: T, na: T, t: T, w: T, r: T)
    requires LastWins(ts, first, na, w, r)
    ensures LastWins(ts + [t], first, na, w, if Prev(ts, |ts|, first) == w then t else r)
  {
    var us := ts + [t];
    PrevExtend(ts, t, first);
    if Prev(ts, |ts|, first) == w {
      assert Prev(us, |ts|, first) == w && us[|ts|] == t;
    } else if r == na && forall i :: 0 <= i < |ts| ==> Prev(ts, i, first) != w {
      assert forall i :: 0 <= i < |us| ==> Prev(us, i, first) != w;
    } else {
      var i :| 0 <= i < |ts| && Prev(ts, i, first) == w && ts[i] == r
        && forall j :: i < j < |ts| ==> Prev(ts, j, first) != w;
      assert us[i] == r && Prev(us, i, first) == w;
      assert forall j :: i < j < |us| ==> Prev(us, j, first) != w;
    }
  }

  /** A first-wins field still open takes the new element when it follows the label. */
  lemma FirstWinsOpen<T>(ts: seq<T>, first: T, na: T, t: T, w: T, norm: T -> T)
    requires FirstWins(ts, first, na, w, norm, na)
    ensures FirstWins(ts + [t], first, na, w, norm, if norm(Prev(ts, |ts|, first)) == w then t else na)
  {
    var us := ts + [t];
    PrevExtend(ts, t, first);
    assert forall i :: 0 <= i < |ts| ==> Takes(us, i, first, na, w, norm) == Takes(ts, i, first, na, w, norm);
    assert forall i :: 0 <= i < |ts| ==> !Takes(ts, i, first, na, w, norm);
    if Takes(us, |ts|, first, na, w, norm) {
      assert us[|ts|] == t;
    } else {
      assert forall i :: 0 <= i < |us| ==> !Takes(us, i, first, na, w, norm);
    }
  }

  /** A first-wins field already set keeps its value. */
  lemma FirstWinsClosed<T>(ts: seq<T>, first: T, na: T, t: T, w: T, norm: T -> T, r: T)
    requires r != na && FirstWins(ts, first, na, w, norm, r)
    ensures FirstWins(ts + [t], first, na, w, norm, r)
  {
    var us := ts + [t];
    PrevExtend(ts, t, first);
    var i :| 0 <= i < |ts| && Takes(ts, i, first, na, w, norm) && ts[i] == r
      && forall j :: 0 <= j < i ==> !Takes(ts, j, first, na, w, norm);
    assert us[i] == r && Takes(us, i, first, na, w, norm);
    assert forall j :: 0 <= j < i ==> Takes(us, j, first, na, w, norm) == Takes(ts, j, first, na, w, norm);
  }

  /** One element more: an open first-wins field takes it when it follows the label. */
  lemma FirstWinsStep<T>(ts: seq<T>, first: T, na: T, t: T, w: T, norm: T -> T, r: T)
    requires FirstWins(ts, first, na, w, norm, r)
    ensures FirstWins(ts + [t], first, na, w, norm, if norm(Prev(ts, |ts|, first)) == w && r == na then t else r)
  {
    if r == na {
      FirstWinsOpen(ts, first, na, t, w, norm);
    } else {
      FirstWinsClosed(ts, first, na, t, w, norm, r);
    }
  }

  /** The element before the label is taken each time the label itself is read. */
  lemma LastBeforeStep<T>(ts: seq<T>, first: T, na: T, t: T, w: T, r: T)
    requires LastBefore(ts, first, na, w, r)
    ensures LastBefore(ts + [t], first, na, w, if t == w then Prev(ts, |ts|, first) else r)
  {
    var us := ts + [t];
    PrevExtend(ts, t, first);
    if t == w {
      assert us[|ts|] == w && Prev(us, |ts|, first) == Prev(ts, |ts|, first);
    } else if r == na && forall i :: 0 <= i < |ts| ==> ts[i] != w {
      assert forall i :: 0 <= i < |us| ==> us[i] != w;
    } else {
      var i :| 0 <= i < |ts| && ts[i] == w && Prev(ts, i, first) == r && forall j :: i < j < |ts| ==> ts[j] != w;
      assert us[i] == w && Prev(us, i, first) == r;
      assert forall j :: i < j < |us| ==> us[j] != w;
    }
  }

  /** The first element of `xs` other than `na`, or `na` when every element is `na`: what a
      field that is taken only while it still holds `na` ends up holding. */
  function FirstOther<T(==)>(xs: seq<T>, na: T): T {
    if xs == [] then na else if xs[0] != na then xs[0] else FirstOther(xs[1..], na)
  }

  /** The result is `na` exactly when every element is; otherwise it is an element preceded
      only by `na`s. */
  lemma {:induction false} FirstOtherSpec<T>(xs: seq<T>, na: T)
    ensures FirstOther(xs, na) == na <==> forall i :: 0 <= i < |xs| ==> xs[i] == na
    ensures FirstOther(xs, na) != na ==>
      exists i :: 0 <= i < |xs| && xs[i] == FirstOther(xs, na) && forall j :: 0 <= j < i ==> xs[j] == na
  {
    if xs != [] && xs[0] == na {
      FirstOtherSpec(xs[1..], na);
      assert forall i :: 1 <= i < |xs| ==> xs[i] == xs[1..][i - 1];
      if FirstOther(xs, na) != na {
        var i :| 0 <= i < |xs[1..]| && xs[1..][i] == FirstOther(xs, na) && forall j :: 0 <= j < i ==> xs[1..][j] == na;
        assert xs[i + 1] == FirstOther(xs, na);
      }
    }
  }

  /** Reading `xs` and then `ys` into a field that starts as `a`: the field after `xs` is the
      start for `ys`. */
  lemma {:induction false} FirstOtherAppend<T>(a: T, xs: seq<T>, ys: seq<T>, na: T)
    ensures FirstOther([a] + xs + ys, na) == FirstOther([FirstOther([a] + xs, na)] + ys, na)
    decreases |xs|
  {
    if a == na && xs != [] {
      assert ([a] + xs + ys)[1..] == [xs[0]] + xs[1..] + ys;
      assert ([a] + xs)[1..] == [xs[0]] + xs[1..];
      FirstOtherAppend(xs[0], xs[1..], ys, na);
    } else if a == na {
      assert [a] + xs + ys == [a] + ys && [a] + xs == [a];
    }
  }
}
