/**
 * Frames and views as the correction pass of `FixedCollectionView.layoutSubviews`
 * sees them: a rectangle in the superview's coordinates, and a view that is either
 * a plain view or a scroll view (the only distinction the pass draws, through its
 * `as? UIScrollView` cast).
 */
module Views {

  /** A CGRect as stored: origin (x, y) and size (width, height). A stored size may be negative. */
  datatype Rect = Rect(x: real, y: real, width: real, height: real)

  /** CGRect.minY: the smallest y-coordinate of the rectangle, whatever the sign of its stored height. */
  function MinY(r: Rect): (m: real)
    ensures m <= r.y && m <= r.y + r.height
    ensures m == r.y || m == r.y + r.height
  {
    if r.height < 0.0 then r.y + r.height else r.y
  }

  /** CGRect.height: the height of the standardized rectangle, never negative. */
  function Height(r: Rect): (h: real)
    ensures 0.0 <= h
    ensures h == r.height || h == -r.height
  {
    if r.height < 0.0 then -r.height else r.height
  }

  /**
   * A view with its frame and its own subviews. A scroll view also has a top content
   * inset. Subviews are values held by their superview: a view has one superview.
   */
  datatype View =
    | Plain(frame: Rect, subviews: seq<View>)
    | ScrollView(frame: Rect, contentInsetTop: real, subviews: seq<View>)
}
