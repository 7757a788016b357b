/**
 * The data-source side of the view controller: looking up a section by index and
 * building the diffable snapshot that fixes section and item order.
 */
module DataSource {
  import opened Model

  /**
   * `getSection(at:)`: subscripts the sections directly, so the index must be in range
   * (an out-of-range subscript traps); the result is never `nil`.
   */
  function GetSection(viewData: ViewData, index: int): (r: Option<Section>)
    requires 0 <= index < |viewData.sections|
    ensures r.Some? && r.value in viewData.sections
    ensures r.value.layoutDirection == viewData.sections[index].layoutDirection
    ensures r.value.items == viewData.sections[index].items
  {
    Some(viewData.sections[index])
  }

  /**
   * The part of a diffable data source snapshot this screen uses: the section
   * identifiers in order, and for each section its item identifiers in order.
   */
  datatype Snapshot = Snapshot(sectionIdentifiers: seq<Section>, itemIdentifiersOf: map<Section, seq<Item>>)
  {
    /** Section identifiers are unique and each one has an item list. */
    ghost predicate Valid()
    {
      Distinct(sectionIdentifiers) && itemIdentifiersOf.Keys == set s | s in sectionIdentifiers
    }

    /** `appendSections`: adds new, empty sections after the existing ones; a duplicate identifier traps. */
    function AppendSections(sections: seq<Section>): (r: Snapshot)
      requires Valid() && Distinct(sectionIdentifiers + sections)
      ensures r.Valid()
      ensures r.sectionIdentifiers == sectionIdentifiers + sections
      ensures forall s :: s in sectionIdentifiers ==> r.itemIdentifiersOf[s] == itemIdentifiersOf[s]
      ensures forall s :: s in sections ==> r.itemIdentifiersOf[s] == []
    {
      DistinctAppend(sectionIdentifiers, sections);
      Snapshot(sectionIdentifiers + sections, itemIdentifiersOf + map s | s in sections :: [])
    }

    /** `appendItems(_:toSection:)`: adds items after that section's items; an unknown section traps. */
    function AppendItems(items: seq<Item>, toSection: Section): (r: Snapshot)
      requires Valid() && toSection in sectionIdentifiers
      ensures r.Valid()
      ensures r.sectionIdentifiers == sectionIdentifiers
      ensures r.itemIdentifiersOf[toSection] == itemIdentifiersOf[toSection] + items
      ensures forall s :: s in itemIdentifiersOf && s != toSection ==> r.itemIdentifiersOf[s] == itemIdentifiersOf[s]
    {
      Snapshot(sectionIdentifiers, itemIdentifiersOf[toSection := itemIdentifiersOf[toSection] + items])
    }
  }

  /** A snapshot that holds exactly the given sections, in order, each with exactly its own items, in order. */
  ghost predicate Describes(snapshot: Snapshot, sections: seq<Section>)
  {
    && snapshot.Valid()
    && snapshot.sectionIdentifiers == sections
    && forall k :: 0 <= k < |sections| ==> snapshot.itemIdentifiersOf[sections[k]] == sections[k].items
  }

  /**
   * `snapshot(forSections:)`: appends all sections, then each section's items to it.
   * Section identifiers must be unique, as `appendSections` demands.
   */
  method MakeSnapshot(sections: seq<Section>) returns (snapshot: Snapshot)
    requires Distinct(sections)
    ensures Describes(snapshot, sections)
  {
    snapshot := Snapshot([], map[]);
    snapshot := snapshot.AppendSections(sections);
    for i := 0 to |sections|
      invariant snapshot.Valid() && snapshot.sectionIdentifiers == sections
      invariant FilledUpTo(snapshot, sections, i)
    {
      AppendItemsFills(snapshot, sections, i);
      snapshot := snapshot.AppendItems(sections[i].items, sections[i]);
    }
  }

  /** The first `n` sections hold their own items and the others are still empty. */
  ghost predicate FilledUpTo(snapshot: Snapshot, sections: seq<Section>, n: nat)
  {
    forall k :: 0 <= k < |sections| ==>
      sections[k] in snapshot.itemIdentifiersOf &&
      snapshot.itemIdentifiersOf[sections[k]] == if k < n then sections[k].items else []
  }

  /** Appending the items of section `n` fills one more section. */
  lemma AppendItemsFills(snapshot: Snapshot, sections: seq<Section>, n: nat)
    requires snapshot.Valid() && snapshot.sectionIdentifiers == sections
    requires n < |sections| && FilledUpTo(snapshot, sections, n)
    ensures FilledUpTo(snapshot.AppendItems(sections[n].items, sections[n]), sections, n + 1)
  {
    var next := snapshot.AppendItems(sections[n].items, sections[n]);
    forall k | 0 <= k < |sections|
      ensures next.itemIdentifiersOf[sections[k]] == if k < n + 1 then sections[k].items else []
    {
      if k != n {
        assert sections[k] != sections[n];
      }
    }
  }

  /**
   * Deriving the snapshot twice from unchanged sections gives the same snapshot: the
   * description fixes the whole snapshot.
   */
  lemma DescribesUnique(a: Snapshot, b: Snapshot, sections: seq<Section>)
    requires Describes(a, sections) && Describes(b, sections)
    ensures a == b
  {
    forall s | s in a.itemIdentifiersOf
      ensures a.itemIdentifiersOf[s] == b.itemIdentifiersOf[s]
    {
      var k :| 0 <= k < |sections| && sections[k] == s;
    }
    assert a.itemIdentifiersOf == b.itemIdentifiersOf;
  }

  /** All item identifiers of a snapshot, section by section. */
  function ItemIdentifiers(sectionIdentifiers: seq<Section>, itemIdentifiersOf: map<Section, seq<Item>>): seq<Item>
    requires forall s :: s in sectionIdentifiers ==> s in itemIdentifiersOf
  {
    if sectionIdentifiers == [] then []
    else itemIdentifiersOf[sectionIdentifiers[0]] + ItemIdentifiers(sectionIdentifiers[1..], itemIdentifiersOf)
  }

  /** The items of the given sections, in section order and then item order. */
  function AllItems(sections: seq<Section>): seq<Item>
  {
    if sections == [] then [] else sections[0].items + AllItems(sections[1..])
  }

  /** The snapshot lists the items in declaration order: the first section's items, then the next section's, and so on. */
  lemma {:induction false} SnapshotItemOrder(snapshot: Snapshot, sections: seq<Section>)
    requires Describes(snapshot, sections)
    ensures ItemIdentifiers(snapshot.sectionIdentifiers, snapshot.itemIdentifiersOf) == AllItems(sections)
  {
    ItemsOfSuffix(snapshot.itemIdentifiersOf, sections, 0);
  }

  lemma {:induction false} ItemsOfSuffix(itemIdentifiersOf: map<Section, seq<Item>>, sections: seq<Section>, n: nat)
    requires n <= |sections|
    requires forall k :: 0 <= k < |sections| ==> sections[k] in itemIdentifiersOf && itemIdentifiersOf[sections[k]] == sections[k].items
    ensures ItemIdentifiers(sections[n..], itemIdentifiersOf) == AllItems(sections[n..])
    decreases |sections| - n
  {
    if n < |sections| {
      ItemsOfSuffix(itemIdentifiersOf, sections, n + 1);
      assert sections[n..][1..] == sections[n + 1..];
    }
  }

  /**
   * `applySnapshot` on the screen's own data: the snapshot shows the vertical section of
   * squat cells, then the horizontal section of tall cells, with the items in declared order.
   */
  method InitialSnapshot() returns (viewData: ViewData, snapshot: Snapshot)
    ensures Describes(snapshot, viewData.sections)
    ensures |snapshot.sectionIdentifiers| == 2
    ensures snapshot.sectionIdentifiers[0].layoutDirection == Vertical
    ensures snapshot.sectionIdentifiers[1].layoutDirection == Horizontal
    ensures forall item :: item in snapshot.itemIdentifiersOf[snapshot.sectionIdentifiers[0]] ==> item.SquatCell?
    ensures forall item :: item in snapshot.itemIdentifiersOf[snapshot.sectionIdentifiers[1]] ==> item.TallCell?
    ensures snapshot.itemIdentifiersOf[snapshot.sectionIdentifiers[0]] ==
      [SquatCell("First Section, 1st Item"), SquatCell("First Section, 2nd Item"), SquatCell("First Section, 3nd Item")]
    ensures snapshot.itemIdentifiersOf[snapshot.sectionIdentifiers[1]] ==
      [TallCell("Second Section, 1st Item"), TallCell("Second Section, 2nd Item"), TallCell("Second Section, 3nd Item")]
    ensures ItemIdentifiers(snapshot.sectionIdentifiers, snapshot.itemIdentifiersOf)
      == viewData.sections[0].items + viewData.sections[1].items
  {
    viewData := InitViewData();
    snapshot := MakeSnapshot(viewData.sections);
    SnapshotItemOrder(snapshot, viewData.sections);
    var sections := viewData.sections;
    assert sections[1..][1..] == [];
    assert AllItems(sections[1..]) == sections[1].items + AllItems([]);
    assert AllItems(sections) == sections[0].items + AllItems(sections[1..]);
  }
}
