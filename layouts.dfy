/**
 * The compositional layout the screen is configured with: one section description
 * per layout direction, chosen by the section provider.
 */
module Layouts {
  import opened Model
  import DataSource

  /** How a size is given: a fraction of the container's width, or an estimate the cell self-sizes from. */
  datatype Dimension = FractionalWidth(fraction: real) | Estimated(points: real)

  datatype LayoutSize = LayoutSize(widthDimension: Dimension, heightDimension: Dimension)

  datatype LayoutItem = LayoutItem(layoutSize: LayoutSize)

  /** A group that lays its subitems out horizontally. */
  datatype LayoutGroup = HorizontalGroup(layoutSize: LayoutSize, subitems: seq<LayoutItem>)

  datatype EdgeInsets = EdgeInsets(top: real, leading: real, bottom: real, trailing: real)

  /** The scrolling behaviours this screen uses; `NoOrthogonalScrolling` is the toolkit's default. */
  datatype OrthogonalScrollingBehavior = NoOrthogonalScrolling | Continuous

  /**
   * A section description. `orthogonalScrollingBehavior` and `interGroupSpacing` take the
   * toolkit's defaults (none and 0) where the source does not set them.
   */
  datatype LayoutSection = LayoutSection(
    group: LayoutGroup,
    contentInsets: EdgeInsets,
    orthogonalScrollingBehavior: OrthogonalScrollingBehavior,
    interGroupSpacing: real)

  /** The layout environment the toolkit passes in; the sections here do not read it. */
  datatype Environment = Environment(containerWidth: real)

  datatype ScrollAxis = VerticalAxis | HorizontalAxis

  datatype Configuration = Configuration(interSectionSpacing: real, scrollDirection: ScrollAxis)

  /** `createLayout`: sections stacked vertically, 10 points apart. */
  function LayoutConfiguration(): (c: Configuration)
    ensures c.interSectionSpacing == 10.0 && c.scrollDirection == VerticalAxis
  {
    Configuration(10.0, VerticalAxis)
  }

  const SECTION_INSETS := EdgeInsets(0.0, 20.0, 0.0, 20.0)

  /** `verticalSection`: full-width items stacked in a list, estimated at 50 points high. */
  function VerticalSection(): (r: LayoutSection)
    ensures IsListLayout(r)
  {
    var itemSize := LayoutSize(FractionalWidth(1.0), Estimated(50.0));
    var item := LayoutItem(itemSize);
    var groupSize := LayoutSize(FractionalWidth(1.0), Estimated(50.0));
    var group := HorizontalGroup(groupSize, [item]);
    LayoutSection(group, SECTION_INSETS, NoOrthogonalScrolling, 0.0)
  }

  /** `horizontalSection`: a continuously scrolling carousel of groups 90% of the width wide. */
  function HorizontalSection(environment: Environment): (r: LayoutSection)
    ensures IsCarouselLayout(r)
  {
    var itemSize := LayoutSize(FractionalWidth(1.0), Estimated(200.0));
    var item := LayoutItem(itemSize);
    var groupSize := LayoutSize(FractionalWidth(0.9), Estimated(200.0));
    var group := HorizontalGroup(groupSize, [item]);
    LayoutSection(group, SECTION_INSETS, Continuous, 10.0)
  }

  /** A list section: one full-width item per group, no orthogonal scrolling, no spacing, 20-point side insets. */
  predicate IsListLayout(l: LayoutSection)
  {
    && l.group.subitems == [LayoutItem(LayoutSize(FractionalWidth(1.0), Estimated(50.0)))]
    && l.group.layoutSize == LayoutSize(FractionalWidth(1.0), Estimated(50.0))
    && l.orthogonalScrollingBehavior == NoOrthogonalScrolling
    && l.interGroupSpacing == 0.0
    && l.contentInsets == EdgeInsets(0.0, 20.0, 0.0, 20.0)
  }

  /**
   * A carousel section: groups 90% of the width wide and 200 points high (estimated), each one
   * full-width item, continuous orthogonal scrolling, 10 points between groups, 20-point side insets.
   */
  predicate IsCarouselLayout(l: LayoutSection)
  {
    && l.group.subitems == [LayoutItem(LayoutSize(FractionalWidth(1.0), Estimated(200.0)))]
    && l.group.layoutSize == LayoutSize(FractionalWidth(0.9), Estimated(200.0))
    && l.orthogonalScrollingBehavior == Continuous
    && l.interGroupSpacing == 10.0
    && l.contentInsets == EdgeInsets(0.0, 20.0, 0.0, 20.0)
  }

  /** The direction a section description was made for: only carousels scroll orthogonally. */
  function DirectionOf(l: LayoutSection): LayoutDirection
  {
    if l.orthogonalScrollingBehavior == Continuous then Horizontal else Vertical
  }

  /**
   * `sectionProvider(section:environment:)`: the section description for the section at that
   * index, chosen by its layout direction. The `nil` branch is unreachable because the lookup
   * traps on an out-of-range index before it.
   */
  function SectionProvider(viewData: ViewData, section: int, environment: Environment): (r: Option<LayoutSection>)
    requires 0 <= section < |viewData.sections|
    ensures r.Some?
    ensures DirectionOf(r.value) == viewData.sections[section].layoutDirection
    ensures viewData.sections[section].layoutDirection == Vertical ==> IsListLayout(r.value)
    ensures viewData.sections[section].layoutDirection == Horizontal ==> IsCarouselLayout(r.value)
  {
    match DataSource.GetSection(viewData, section)
    case None => None
    case Some(homeSection) =>
      match homeSection.layoutDirection
      case Horizontal => Some(HorizontalSection(environment))
      case Vertical => Some(VerticalSection())
  }
}
