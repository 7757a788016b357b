# CarouselTester, modelled in Dafny

CarouselTester is a one-screen iOS app. Its screen is a compositional collection view
with two sections: a vertical list of squat cells and a horizontally, continuously
scrolling carousel of tall cells. The file also holds `FixedCollectionView`, a collection
view subclass that corrects the carousel's embedded scroll view after the toolkit's own
layout. As written, the screen builds a plain `UICollectionView`
(`CarouselTester/ViewController.swift:27`); `FixedCollectionView` takes effect only when
the commented-out line 30 replaces line 27.

The correction skips everything when `#available(iOS 14.3, *)` holds (line 261).
Otherwise it looks at every direct subview that is a scroll view with at least one child.
It corrects such a view when the smallest child `origin.y` lies below the view's top edge
(so every child starts below it), or when the largest child height exceeds the view's
height. Correcting moves the view to that smallest y, gives it that largest height, and
sets its top content inset to the negated y. The comment at lines 255-256 cites a question
about a layout bug on iOS 14.3 itself, whereas the gate skips the correction on 14.3 and
later; the code does not say which versions have the defect, and the model keeps the gate
as written.

The project models:

- `views.dfy` (module `Views`): frames (`Rect`, with CGRect's standardized `minY` and
  `height` accessors) and views, each either a plain view or a scroll view with a top
  content inset.
- `correction.dfy` (module `Correction`): the correction pass. `Correct` handles one
  direct subview, `CorrectEach` and `LayoutPass` cover the whole `forEach` with the version
  gate, and the class `FixedCollectionView` has the imperative `LayoutSubviews` loop,
  proved equal to `LayoutPass`. The lemmas give the post-state, idempotence, order
  independence, locality, non-recursion and the worked example of a carousel whose
  children are taller than it.
- `model.dfy` (module `Model`): `Item`, `LayoutDirection`, `Section`, `ViewData` and
  `ViewData.init` with its fixed two sections.
- `datasource.dfy` (module `DataSource`): `getSection`, the part of the diffable snapshot
  the screen uses, and `snapshot(forSections:)`, proved to hold exactly the input sections
  in order, each with exactly its own items in order.
- `layouts.dfy` (module `Layouts`): the layout configuration, the two section
  descriptions and the section provider that chooses between them by direction.

Decisions the code settles:

- The pass visits only the collection view's direct subviews (line 263), picks them with
  `as? UIScrollView` (line 265) and does not recurse; the only recursive walk in the file
  is `colorSubviews` (line 251). `NestedScrollViewUntouched` shows a nested scroll view
  that meets the guard and is left as it is.
- `getSection(at:)` subscripts the array directly (lines 103-105), so an out-of-range index
  traps rather than yielding `nil`. `GetSection` and `SectionProvider` require an in-range
  index, and the `nil` branch of the provider (line 56) cannot be reached.

Modelling choices:

- Coordinates are `real`. The guard compares against `frame.minY` and `frame.height`,
  which CGRect standardizes: the smallest y, and the absolute height. The pass writes the
  stored `origin.y` and `size.height`. `Views.MinY` and `Views.Height` keep that
  distinction, so idempotence holds with no assumption about the sign of heights.
- `#available(iOS 14.3, *)` is the `defectFixed` constant of the `FixedCollectionView`
  object and the `defectFixed` parameter of `LayoutPass`.
- `super.layoutSubviews()` is the toolkit's own layout: the model starts from the
  subviews it left behind.
- Where the source sets no value, the section descriptions carry the toolkit's defaults:
  no orthogonal scrolling and an inter-group spacing of 0.

## Model

| member | source | states |
|---|---|---|
| `Views.MinY` | CarouselTester/ViewController.swift:268 | `frame.minY` is the y of the higher of the top and bottom edges (the smaller y of the two) |
| `Views.Height` | CarouselTester/ViewController.swift:267-268 | `frame.height` is the stored height or its negation, and is never negative |
| `Correction.MinChildY` | CarouselTester/ViewController.swift:266 | the minimum of the children's `origin.y`: at most every child's y, and equal to some child's y |
| `Correction.MaxChildHeight` | CarouselTester/ViewController.swift:267 | the maximum of the children's heights: at least every child's height, equal to some child's height, never negative |
| `Correction.Triggers` | CarouselTester/ViewController.swift:264-268 | the guard holds exactly for a scroll view with children where every child starts below the view's top edge or some child is taller than the view |
| `Correction.Correct` | CarouselTester/ViewController.swift:264-273 | one subview is changed exactly when the guard holds for it (both directions); afterwards the guard no longer holds; its kind, its children, its x and its width are never changed |
| `Correction.CorrectEach` | CarouselTester/ViewController.swift:263-274 | the `forEach` keeps the number of subviews and corrects each one on its own, using only that subview |
| `Correction.LayoutPass` | CarouselTester/ViewController.swift:261-274 | with the defect fixed the pass changes nothing; no subview's children are ever changed |
| `Correction.FixedCollectionView.LayoutSubviews` | CarouselTester/ViewController.swift:258-275 | the in-place loop leaves the subviews equal to `LayoutPass` of the old subviews under the object's version gate |
| `Correction.CorrectTriggered` | CarouselTester/ViewController.swift:268-273 | when triggered: inset top is minus the children's minimum y, origin y is that minimum, height is the children's maximum height; the new frame's top lies at or above every child's y and its height covers every child's height |
| `Correction.CorrectInOrderAt` | CarouselTester/ViewController.swift:263-274 | visiting any indices in any order, repeats allowed, corrects exactly the subviews at those indices |
| `Correction.OrderIrrelevant` | CarouselTester/ViewController.swift:263-274 | every visiting order that reaches every subview gives the same result as the pass |
| `Correction.LayoutPassAppend` | CarouselTester/ViewController.swift:263-274 | the pass over two lists joined together equals the two passes joined together |
| `Correction.LayoutPassSettles` | CarouselTester/ViewController.swift:268-273 | after the pass no direct subview meets the guard |
| `Correction.LayoutPassIdempotent` | CarouselTester/ViewController.swift:261-273 | running the pass twice equals running it once, with the gate open or closed |
| `Correction.TallCarouselExample` | CarouselTester/ViewController.swift:266-273 | children at y -40, 0, 20 with heights 320, 200, 150 in a scroll view of height 200 at y 0: the view ends at y -40, height 320, top inset 40 |
| `Correction.NestedScrollViewUntouched` | CarouselTester/ViewController.swift:263-265 | a scroll view nested below a plain direct subview is left unchanged even though it meets the guard |
| `Model.Item.Title` | CarouselTester/ViewController.swift:144-149 | the title is the payload: the item is the tall or the squat cell of that title |
| `Model.ItemIdentity` | CarouselTester/ViewController.swift:140-142 | two items are equal exactly when they have the same variant and the same title |
| `Model.InitViewData` | CarouselTester/ViewController.swift:164-180 | two sections, vertical then horizontal, of three squat and three tall cells with the six titles; no section and no item occurs twice |
| `DataSource.GetSection` | CarouselTester/ViewController.swift:103-105 | for an in-range index the result is never `nil` and is the section at that index |
| `DataSource.Snapshot.AppendSections` | CarouselTester/ViewController.swift:113 | new sections go after the existing ones and start empty; existing item lists are kept; section identifiers stay unique |
| `DataSource.Snapshot.AppendItems` | CarouselTester/ViewController.swift:115 | the items go after that section's items, and every other section is kept |
| `DataSource.MakeSnapshot` | CarouselTester/ViewController.swift:111-118 | the snapshot's sections are exactly the input sections in order, and each section holds exactly its own items in order |
| `DataSource.DescribesUnique` | CarouselTester/ViewController.swift:111-118 | two snapshots that both describe the same sections are equal, so re-deriving the snapshot gives the same ordering |
| `DataSource.SnapshotItemOrder` | CarouselTester/ViewController.swift:111-118 | the snapshot lists all items in the sections' declaration order, then in item order |
| `DataSource.InitialSnapshot` | CarouselTester/ViewController.swift:107-109 | the snapshot of the screen's own data shows the vertical section, then the horizontal one; the first holds the three squat cells "First Section, 1st/2nd/3nd Item" and the second the three tall cells "Second Section, 1st/2nd/3nd Item", in that order, and the whole item list is the first section's items followed by the second's |
| `Layouts.LayoutConfiguration` | CarouselTester/ViewController.swift:47-52 | sections scroll vertically with 10 points between them |
| `Layouts.VerticalSection` | CarouselTester/ViewController.swift:65-77 | the list description: one full-width item per full-width group, both estimated at 50 high, no orthogonal scrolling, no inter-group spacing, insets 0/20/0/20 |
| `Layouts.HorizontalSection` | CarouselTester/ViewController.swift:79-94 | the carousel description: one full-width item estimated at 200 high per group 0.9 of the width wide and estimated at 200 high, continuous orthogonal scrolling, 10 points between groups, insets 0/20/0/20 |
| `Layouts.SectionProvider` | CarouselTester/ViewController.swift:55-63 | for an in-range index the provider always returns a section description. For a vertical section it is the full-width list (estimated height 50, no orthogonal scrolling, no spacing, insets 0/20/0/20). For a horizontal one it is the carousel (items full-width, groups 0.9 wide and estimated at 200, continuous scrolling, 10-point spacing, insets 0/20/0/20). The description's direction is the section's |

## Left out

- View controller lifecycle, adding the collection view and its constraints (`viewDidLoad`, `configureCollectionView`): toolkit plumbing with no logic.
- Cell classes `TallCell`, `SquatCell`, `ViewCell` and their Auto Layout setup, including the `fatalError` in `init?(coder:)`: user-interface construction, and a path the app never takes.
- `colorSubviews`: cosmetic border and background colouring only.
- How the toolkit turns section descriptions into frames, `apply` of the diffable data source, and cell registration and dequeueing: library code that cannot be seen. Section descriptions are modelled only as the constant records they are configured with.
- `DataSource.Snapshot.AppendItems`: does not model the toolkit's demand that item identifiers be unique across the snapshot. `Model.InitViewData` proves the screen's own items unique anyway.
- Item titles are Dafny strings compared character by character. Swift's `String` equality, which the synthesized `Hashable` of `Item` uses (line 140), treats canonically equivalent Unicode spellings (a precomposed and a decomposed "é") as equal; the model treats them as different items. The screen's own titles are ASCII, where the two agree.
- CGFloat floating-point behaviour (NaN, rounding): coordinates are real numbers, and the pass uses only minimum, maximum, comparison and negation.
- When the toolkit calls `layoutSubviews` (main-thread scheduling, re-entry after a frame is set), and any effect that setting the content inset has on the scroll position: both belong to the toolkit.
- Views as shared, mutable objects: subviews are values held by their superview, so no view can sit in two places at once.
