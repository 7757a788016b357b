/**
 * The screen's data: items, sections with a layout direction, and the fixed
 * two-section sample data the screen is built from.
 */
module Model {

  datatype Option<T> = None | Some(value: T)

  /** No element occurs twice. */
  predicate Distinct<T(==)>(s: seq<T>)
  {
    forall i, j :: 0 <= i < j < |s| ==> s[i] != s[j]
  }

  /** The two halves of a sequence without duplicates share no element. */
  lemma DistinctAppend<T>(front: seq<T>, back: seq<T>)
    requires Distinct(front + back)
    ensures forall x :: x in front ==> x !in back
  {
    forall x | x in front
      ensures x !in back
    {
      var i :| 0 <= i < |front| && front[i] == x;
      forall j | 0 <= j < |back|
        ensures back[j] != x
      {
        assert (front + back)[i] == x && (front + back)[|front| + j] == back[j];
      }
    }
  }

  /** One card: a tall or a squat cell, each carrying its title. Equality is by variant and title. */
  datatype Item = TallCell(string) | SquatCell(string)
  {
    /** The title carried by either variant. */
    function Title(): (t: string)
      ensures this == TallCell(t) || this == SquatCell(t)
    {
      match this
      case TallCell(title) => title
      case SquatCell(title) => title
    }
  }

  datatype LayoutDirection = Vertical | Horizontal

  datatype Section = Section(layoutDirection: LayoutDirection, items: seq<Item>)

  datatype ViewData = ViewData(sections: seq<Section>)

  /**
   * Two items are the same identifier exactly when they have the same variant and the same title.
   */
  lemma ItemIdentity(a: Item, b: Item)
    ensures a == b <==> (a.TallCell? == b.TallCell? && a.Title() == b.Title())
  {
  }

  /**
   * `ViewData.init`: a vertical section of three squat cells followed by a horizontal
   * section of three tall cells, appended in that order.
   */
  method InitViewData() returns (viewData: ViewData)
    ensures |viewData.sections| == 2
    ensures viewData.sections[0].layoutDirection == Vertical
    ensures viewData.sections[1].layoutDirection == Horizontal
    ensures |viewData.sections[0].items| == 3 && |viewData.sections[1].items| == 3
    ensures forall item :: item in viewData.sections[0].items ==> item.SquatCell?
    ensures forall item :: item in viewData.sections[1].items ==> item.TallCell?
    ensures viewData.sections[0].items ==
      [SquatCell("First Section, 1st Item"), SquatCell("First Section, 2nd Item"), SquatCell("First Section, 3nd Item")]
    ensures viewData.sections[1].items ==
      [TallCell("Second Section, 1st Item"), TallCell("Second Section, 2nd Item"), TallCell("Second Section, 3nd Item")]
    ensures Distinct(viewData.sections)
    ensures Distinct(viewData.sections[0].items + viewData.sections[1].items)
  {
    var sections: seq<Section> := [];
    sections := sections + [Section(Vertical, [
      SquatCell("First Section, 1st Item"),
      SquatCell("First Section, 2nd Item"),
      SquatCell("First Section, 3nd Item")])];
    sections := sections + [Section(Horizontal, [
      TallCell("Second Section, 1st Item"),
      TallCell("Second Section, 2nd Item"),
      TallCell("Second Section, 3nd Item")])];
    viewData := ViewData(sections);
  }
}
