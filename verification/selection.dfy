/**
 * The shape of a Python loop that appends `image(x)` for every `x` of a list
 * passing a test, in list order: which positions it picks, and why the
 * result is exactly the image of those positions.
 */
module Selection {

  /** Each `ys[k]` is the image of the element at position `idx[k]`, which passes `keep`. */
  ghost predicate ImagesAt<T, U>(xs: seq<T>, ys: seq<U>, idx: seq<nat>, keep: T -> bool, image: T --> U) {
    && |idx| == |ys|
    && forall k :: 0 <= k < |idx| ==>
         idx[k] < |xs| && keep(xs[idx[k]]) && image.requires(xs[idx[k]]) && ys[k] == image(xs[idx[k]])
  }

  /** The positions are strictly increasing: the picks keep list order. */
  ghost predicate Increasing(idx: seq<nat>) {
    forall k, l :: 0 <= k < l < |idx| ==> idx[k] < idx[l]
  }

  /** Every position whose element passes `keep` is picked. */
  ghost predicate Covers<T>(xs: seq<T>, idx: seq<nat>, keep: T -> bool) {
    forall i :: 0 <= i < |xs| && keep(xs[i]) ==> i in idx
  }

  /**
   * `ys` is `xs` filtered by `keep` and mapped by `image`, with `idx` the
   * positions picked: increasing, each passing `keep`, and every position of
   * `xs` that passes `keep` among them.
   */
  ghost predicate SelectedInOrder<T, U>(xs: seq<T>, ys: seq<U>, idx: seq<nat>, keep: T -> bool, image: T --> U) {
    ImagesAt(xs, ys, idx, keep, image) && Increasing(idx) && Covers(xs, idx, keep)
  }

  /**
   * One more element: `xs'` is `xs` with `x` appended, and `ys'` grows by the
   * image of `x` exactly when `x` passes the test.
   */
  lemma SelectedSnoc<T, U>(xs: seq<T>, ys: seq<U>, idx: seq<nat>, keep: T -> bool, image: T --> U, x: T,
                           xs': seq<T>, ys': seq<U>)
    requires SelectedInOrder(xs, ys, idx, keep, image)
    requires keep(x) ==> image.requires(x)
    requires xs' == xs + [x]
    requires keep(x) ==> ys' == ys + [image(x)]
    requires !keep(x) ==> ys' == ys
    ensures SelectedInOrder(xs', ys', if keep(x) then idx + [|xs|] else idx, keep, image)
  {
    var idx' := if keep(x) then idx + [|xs|] else idx;
    ImagesSnoc(xs, ys, idx, keep, image, x, xs', ys', idx');
    assert Increasing(idx') by {
      forall k, l | 0 <= k < l < |idx'| ensures idx'[k] < idx'[l] {
        assert idx'[k] == idx[k];
        assert l < |idx| ==> idx'[l] == idx[l];
      }
    }
    assert Covers(xs', idx', keep) by {
      forall i | 0 <= i < |xs'| && keep(xs'[i]) ensures i in idx' {
        if i < |xs| {
          assert xs'[i] == xs[i] && i in idx;
        } else {
          assert idx'[|idx|] == i;
        }
      }
    }
  }

  lemma ImagesSnoc<T, U>(xs: seq<T>, ys: seq<U>, idx: seq<nat>, keep: T -> bool, image: T --> U, x: T,
                         xs': seq<T>, ys': seq<U>, idx': seq<nat>)
    requires ImagesAt(xs, ys, idx, keep, image)
    requires keep(x) ==> image.requires(x)
    requires xs' == xs + [x]
    requires keep(x) ==> ys' == ys + [image(x)] && idx' == idx + [|xs|]
    requires !keep(x) ==> ys' == ys && idx' == idx
    ensures ImagesAt(xs', ys', idx', keep, image)
  {
    forall k | 0 <= k < |idx'|
      ensures idx'[k] < |xs'| && keep(xs'[idx'[k]]) && image.requires(xs'[idx'[k]]) && ys'[k] == image(xs'[idx'[k]])
    {
      if k < |idx| {
        assert idx'[k] == idx[k] && ys'[k] == ys[k] && xs'[idx[k]] == xs[idx[k]];
      } else {
        assert idx'[k] == |xs| && xs'[|xs|] == x;
      }
    }
  }

  /** The loop itself: the images of the elements passing `keep`, in list order. */
  function Select<T, U>(xs: seq<T>, keep: T -> bool, image: T -> U): seq<U> {
    if xs == [] then []
    else Select(xs[..|xs| - 1], keep, image) + (if keep(xs[|xs| - 1]) then [image(xs[|xs| - 1])] else [])
  }

  /** What the loop builds is the in-order selection of the passing elements. */
  lemma {:induction false} SelectInOrder<T, U>(xs: seq<T>, keep: T -> bool, image: T -> U)
    ensures exists idx :: SelectedInOrder(xs, Select(xs, keep, image), idx, keep, image)
  {
    if xs == [] {
      var none: seq<nat> := [];
      assert SelectedInOrder(xs, Select(xs, keep, image), none, keep, image);
    } else {
      var init, last := xs[..|xs| - 1], xs[|xs| - 1];
      SelectInOrder(init, keep, image);
      var idx :| SelectedInOrder(init, Select(init, keep, image), idx, keep, image);
      assert xs == init + [last];
      SelectedSnoc(init, Select(init, keep, image), idx, keep, image, last, xs, Select(xs, keep, image));
    }
  }
}
