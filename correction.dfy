/**
 * The post-layout correction of `FixedCollectionView.layoutSubviews`: after the
 * toolkit's own layout, every direct subview that is a scroll view with at least
 * one child and whose frame does not reach its children's top edge or height is
 * moved to the children's smallest y, grown to their largest height, and given a
 * top content inset that compensates the move. On systems where the toolkit defect
 * is fixed, the pass does nothing.
 */
module Correction {
  import opened Views

  /** The smallest `frame.origin.y` among the children (Swift's `map(\.frame.origin.y).min()`). */
  function MinChildY(children: seq<View>): (m: real)
    requires |children| > 0
    ensures forall c :: c in children ==> m <= c.frame.y
    ensures exists c :: c in children && m == c.frame.y
  {
    if |children| == 1 then children[0].frame.y
    else
      var rest := MinChildY(children[1..]);
      if children[0].frame.y <= rest then children[0].frame.y else rest
  }

  /** The largest `frame.height` among the children (Swift's `map(\.frame.height).max()`). */
  function MaxChildHeight(children: seq<View>): (m: real)
    requires |children| > 0
    ensures forall c :: c in children ==> Height(c.frame) <= m
    ensures exists c :: c in children && m == Height(c.frame)
    ensures 0.0 <= m
  {
    if |children| == 1 then Height(children[0].frame)
    else
      var rest := MaxChildHeight(children[1..]);
      if rest <= Height(children[0].frame) then Height(children[0].frame) else rest
  }

  /**
   * The guard of the pass: the view is a scroll view, it has children (so that both
   * `min()` and `max()` return a value), and either every child starts below the view's
   * top edge or some child is taller than the view.
   */
  function Triggers(v: View): (b: bool)
    ensures b <==>
      && v.ScrollView?
      && |v.subviews| > 0
      && ((forall c :: c in v.subviews ==> c.frame.y > MinY(v.frame))
          || (exists c :: c in v.subviews && Height(c.frame) > Height(v.frame)))
  {
    && v.ScrollView?
    && |v.subviews| > 0
    && (MinChildY(v.subviews) > MinY(v.frame) || MaxChildHeight(v.subviews) > Height(v.frame))
  }

  /** One step of the `forEach`: what becomes of one direct subview. */
  function Correct(v: View): (w: View)
    ensures w == v <==> !Triggers(v)
    ensures !Triggers(w)
    ensures w.ScrollView? == v.ScrollView? && w.subviews == v.subviews
    ensures w.frame.x == v.frame.x && w.frame.width == v.frame.width
  {
    if Triggers(v) then
      var minY := MinChildY(v.subviews);
      var maxHeight := MaxChildHeight(v.subviews);
      v.(contentInsetTop := -minY, frame := v.frame.(y := minY, height := maxHeight))
    else
      v
  }

  /** The `forEach` over the direct subviews: each corrected on its own, in order. */
  function CorrectEach(subviews: seq<View>): (r: seq<View>)
    ensures |r| == |subviews|
    ensures forall i :: 0 <= i < |r| ==> r[i] == Correct(subviews[i])
  {
    if subviews == [] then [] else [Correct(subviews[0])] + CorrectEach(subviews[1..])
  }

  /** The whole pass, with the version gate: `defectFixed` stands for `#available(iOS 14.3, *)`. */
  function LayoutPass(subviews: seq<View>, defectFixed: bool): (r: seq<View>)
    ensures |r| == |subviews|
    ensures defectFixed ==> r == subviews
    ensures forall i :: 0 <= i < |r| ==> r[i].subviews == subviews[i].subviews
  {
    if defectFixed then subviews else CorrectEach(subviews)
  }

  /**
   * When the guard holds, the scroll view is moved to its children's top edge, given their
   * largest height, and its top inset undoes the move; afterwards its frame spans every
   * child's top edge and height.
   */
  lemma CorrectTriggered(v: View)
    requires Triggers(v)
    ensures Correct(v).contentInsetTop == -MinChildY(v.subviews)
    ensures Correct(v).frame.y == MinChildY(v.subviews)
    ensures Correct(v).frame.height == MaxChildHeight(v.subviews)
    ensures forall c :: c in v.subviews ==>
      MinY(Correct(v).frame) <= c.frame.y && Height(c.frame) <= Height(Correct(v).frame)
  {
  }

  /** The order in which the direct subviews are visited: applying `Correct` at the given indices in turn. */
  function CorrectInOrder(subviews: seq<View>, order: seq<nat>): (r: seq<View>)
    requires forall k :: 0 <= k < |order| ==> order[k] < |subviews|
    ensures |r| == |subviews|
    decreases |order|
  {
    if order == [] then subviews
    else
      var i := order[0];
      CorrectInOrder(subviews[i := Correct(subviews[i])], order[1..])
  }

  /** Visiting some indices, in any order and any number of times, corrects exactly the views at those indices. */
  lemma {:induction false} CorrectInOrderAt(subviews: seq<View>, order: seq<nat>, j: nat)
    requires forall k :: 0 <= k < |order| ==> order[k] < |subviews|
    requires j < |subviews|
    ensures CorrectInOrder(subviews, order)[j] == if j in order then Correct(subviews[j]) else subviews[j]
    decreases |order|
  {
    if order != [] {
      var i := order[0];
      var next := subviews[i := Correct(subviews[i])];
      CorrectInOrderAt(next, order[1..], j);
      assert j in order <==> j == i || j in order[1..];
    }
  }

  /**
   * The result of the pass does not depend on the iteration order: any visiting order
   * that reaches every direct subview, even one that visits some twice, gives the pass.
   */
  lemma OrderIrrelevant(subviews: seq<View>, order: seq<nat>)
    requires forall k :: 0 <= k < |order| ==> order[k] < |subviews|
    requires forall j :: 0 <= j < |subviews| ==> j in order
    ensures CorrectInOrder(subviews, order) == LayoutPass(subviews, false)
  {
    forall j | 0 <= j < |subviews|
      ensures CorrectInOrder(subviews, order)[j] == LayoutPass(subviews, false)[j]
    {
      CorrectInOrderAt(subviews, order, j);
    }
  }

  /** Each direct subview is corrected on its own: the pass over a concatenation is the concatenation of the passes. */
  lemma LayoutPassAppend(front: seq<View>, back: seq<View>, defectFixed: bool)
    ensures LayoutPass(front + back, defectFixed) == LayoutPass(front, defectFixed) + LayoutPass(back, defectFixed)
  {
  }

  /** After the pass (with the defect present) no direct subview satisfies the guard any more. */
  lemma LayoutPassSettles(subviews: seq<View>)
    ensures forall i :: 0 <= i < |subviews| ==> !Triggers(LayoutPass(subviews, false)[i])
  {
  }

  /** Running the pass twice gives the same subviews as running it once. */
  lemma LayoutPassIdempotent(subviews: seq<View>, defectFixed: bool)
    ensures LayoutPass(LayoutPass(subviews, defectFixed), defectFixed) == LayoutPass(subviews, defectFixed)
  {
  }

  /**
   * Children at y -40, 0 and 20 with heights 320, 200 and 150, in a carousel scroll view
   * of height 200 at y 0: the scroll view moves to y -40, grows to 320 and gets a top inset of 40.
   */
  lemma TallCarouselExample()
    ensures
      var children := [Plain(Rect(0.0, -40.0, 300.0, 320.0), []),
                       Plain(Rect(310.0, 0.0, 300.0, 200.0), []),
                       Plain(Rect(620.0, 20.0, 300.0, 150.0), [])];
      var carousel := ScrollView(Rect(0.0, 0.0, 400.0, 200.0), 0.0, children);
      LayoutPass([carousel], false) == [ScrollView(Rect(0.0, -40.0, 400.0, 320.0), 40.0, children)]
  {
  }

  /**
   * The pass does not recurse: a scroll view nested inside a plain direct subview keeps its frame
   * even when the guard holds for it.
   */
  lemma NestedScrollViewUntouched()
    ensures
      var nested := ScrollView(Rect(0.0, 0.0, 100.0, 10.0), 0.0, [Plain(Rect(0.0, 0.0, 100.0, 50.0), [])]);
      Triggers(nested) && LayoutPass([Plain(Rect(0.0, 0.0, 100.0, 100.0), [nested])], false)[0].subviews == [nested]
  {
  }

  /** The collection view subclass, holding its direct subviews after the toolkit's own layout. */
  class FixedCollectionView {
    const defectFixed: bool
    var subviews: seq<View>

    constructor (defectFixed: bool, subviews: seq<View>)
      ensures this.defectFixed == defectFixed && this.subviews == subviews
    {
      this.defectFixed := defectFixed;
      this.subviews := subviews;
    }

    /** The override of `layoutSubviews`, run after the toolkit's layout has placed the subviews. */
    method LayoutSubviews()
      modifies this
      ensures subviews == LayoutPass(old(subviews), defectFixed)
    {
      if defectFixed {
        return;
      }
      var i := 0;
      while i < |subviews|
        invariant 0 <= i <= |subviews| == |old(subviews)|
        invariant forall k :: 0 <= k < i ==> subviews[k] == Correct(old(subviews)[k])
        invariant forall k :: i <= k < |subviews| ==> subviews[k] == old(subviews)[k]
      {
        var subview := subviews[i];
        if Triggers(subview) {
          var minY := MinChildY(subview.subviews);
          var maxHeight := MaxChildHeight(subview.subviews);
          subview := subview.(contentInsetTop := -minY);
          subview := subview.(frame := subview.frame.(y := minY));
          subview := subview.(frame := subview.frame.(height := maxHeight));
          subviews := subviews[i := subview];
        }
        i := i + 1;
      }
      assert subviews == CorrectEach(old(subviews));
    }
  }
}
