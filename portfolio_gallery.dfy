/** The public portfolio page: the category filter over the project grid and the
    image carousel of the project dialog. */
module PortfolioGallery {
  import opened Seqs
  import opened JsNumber

  /** A project card of the page's static list. */
  datatype Item = Item(id: int, title: string, category: string, images: seq<string>, year: string, description: string)

  /** The category tab that shows every project. */
  const AllCategories := "All"

  /** The categories offered as tabs. */
  const Categories: seq<string> := [AllCategories, "Office", "Residential", "Commercial"]

  function InCategory(category: string): Item -> bool {
    (item: Item) => item.category == category
  }

  /** `filteredPortfolio`: the whole list under "All", otherwise the projects of the
      selected category. */
  function Filtered(items: seq<Item>, selected: string): seq<Item> {
    if selected == AllCategories then items else Filter(items, InCategory(selected))
  }

  /** "All" shows the list unchanged; any other tab shows exactly the projects of that
      category. */
  lemma FilteredContents(items: seq<Item>, selected: string, x: Item)
    ensures selected == AllCategories ==> Filtered(items, selected) == items
    ensures selected != AllCategories ==>
      (x in Filtered(items, selected) <==> x in items && x.category == selected)
  {
    FilterKeeps(items, InCategory(selected), x);
  }

  /** The filter keeps the list's order: filtering a list split in two filters each part
      and keeps them in sequence. */
  lemma FilteredKeepsOrder(a: seq<Item>, b: seq<Item>, selected: string)
    ensures Filtered(a + b, selected) == Filtered(a, selected) + Filtered(b, selected)
  {
    if selected != AllCategories {
      FilterAppend(a, b, InCategory(selected));
    }
  }

  /** The page shows "No projects found in this category." when the filtered list is
      empty. */
  predicate ShowsEmptyState(items: seq<Item>, selected: string) {
    |Filtered(items, selected)| == 0
  }

  /** The empty state appears exactly when no project falls under the selected tab. */
  lemma EmptyStateExactly(items: seq<Item>, selected: string)
    ensures selected == AllCategories ==> (ShowsEmptyState(items, selected) <==> items == [])
    ensures selected != AllCategories ==>
      (ShowsEmptyState(items, selected) <==> forall x :: x in items ==> x.category != selected)
  {
    if selected != AllCategories {
      var f := Filtered(items, selected);
      if f != [] {
        FilteredContents(items, selected, f[0]);
      }
      forall x | x in items && x.category == selected ensures x in f {
        FilteredContents(items, selected, x);
      }
    }
  }

  /** The dialog opens on the first image. */
  const InitialImageIndex := 0

  /** `nextImage`: `(prev + 1) % images.length`. */
  function NextImage(i: int, n: int): (r: int)
    requires 0 <= i < n
    ensures 0 <= r < n
    ensures r == if i == n - 1 then 0 else i + 1
  {
    Remainder(i + 1, n)
  }

  /** `prevImage`: `(prev - 1 + images.length) % images.length`. */
  function PrevImage(i: int, n: int): (r: int)
    requires 0 <= i < n
    ensures 0 <= r < n
    ensures r == if i == 0 then n - 1 else i - 1
  {
    Remainder(i - 1 + n, n)
  }

  /** Forward and back undo each other. */
  lemma NextPrevInverse(i: int, n: int)
    requires 0 <= i < n
    ensures PrevImage(NextImage(i, n), n) == i
    ensures NextImage(PrevImage(i, n), n) == i
  {
  }

  /** The index after `k` presses of the forward arrow. */
  function NextTimes(i: int, n: int, k: nat): (r: int)
    requires 0 <= i < n
    ensures 0 <= r < n
  {
    if k == 0 then i else NextImage(NextTimes(i, n, k - 1), n)
  }

  /** Until the last image is reached, `k` forward presses advance the index by `k`. */
  lemma {:induction false} NextTimesNoWrap(i: int, n: int, k: nat)
    requires 0 <= i && i + k < n
    ensures NextTimes(i, n, k) == i + k
  {
    if k > 0 {
      NextTimesNoWrap(i, n, k - 1);
    }
  }

  /** Pressing `a` times and then `b` times is pressing `a + b` times. */
  lemma {:induction false} NextTimesCompose(i: int, n: int, a: nat, b: nat)
    requires 0 <= i < n
    ensures NextTimes(NextTimes(i, n, a), n, b) == NextTimes(i, n, a + b)
  {
    if b > 0 {
      NextTimesCompose(i, n, a, b - 1);
    }
  }

  /** As many forward presses as there are images come back to the start: the presses
      up to the last image, one that wraps to the first, and the rest back to `i`. */
  lemma FullCycle(i: int, n: int)
    requires 0 <= i < n
    ensures NextTimes(i, n, n) == i
  {
    NextTimesNoWrap(i, n, n - 1 - i);
    assert NextTimes(i, n, n - i) == 0;
    NextTimesNoWrap(0, n, i);
    NextTimesCompose(i, n, n - i, i);
  }

  /** The arrows and dots are shown when the project has more than one image. */
  predicate ShowsNavigation(n: int) {
    n > 1
  }

  /** Navigation is shown exactly when it can move the index: with one image the
      forward step stays where it is. */
  lemma NavigationWhenItMoves(n: int)
    requires n > 0
    ensures ShowsNavigation(n) <==> NextImage(InitialImageIndex, n) != InitialImageIndex
  {
  }
}
