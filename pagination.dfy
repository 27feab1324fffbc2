/** What the page builders produce, as data: how many pages, which image goes
    on which page and into which slot, and where that slot is. Pixels are not
    modelled: a page is its size and the list of images pasted onto it. */
module Pagination {
  import opened Geometry

  /** One pasted image: its index in the input list, the path it was opened
      from, and the rectangle it was resized to and pasted at. */
  datatype Placement = Placement(image: nat, path: string, area: Rect)

  /** One white page canvas of the given size, with its pastes in order. */
  datatype Page = Page(width: int, height: int, placements: seq<Placement>)

  /** The page count, computed as (n + perPage - 1) / perPage: the least
      number of pages of perPage slots that holds n images. */
  function NumPages(n: nat, perPage: nat): (k: nat)
    requires perPage > 0
    ensures k * perPage >= n
    ensures k > 0 ==> (k - 1) * perPage < n
  {
    var k := (n + perPage - 1) / perPage;
    assert k * perPage + (n + perPage - 1) % perPage == n + perPage - 1;
    assert (k - 1) * perPage == k * perPage - perPage;
    k
  }

  /** Number of images on page i: the slots j < perPage with
      i * perPage + j < n. */
  function Filled(n: nat, perPage: nat, i: nat): nat
  {
    var first := i * perPage;
    if first + perPage <= n then perPage
    else if first <= n then n - first
    else 0
  }

  /** Page i as the builders leave it: slot j holds image i * perPage + j
      when that index is below n, and the remaining slots stay blank. */
  function PageOf(paths: seq<string>, width: int, height: int, perPage: nat, g: Grid, i: nat): Page
  {
    var first := i * perPage;
    Page(width, height,
         seq(Filled(|paths|, perPage, i),
             j requires 0 <= j < Filled(|paths|, perPage, i) =>
               Placement(first + j, paths[first + j], Slot(g, j))))
  }

  /** Every page the builders return, in order. */
  function Pages(paths: seq<string>, width: int, height: int, perPage: nat, g: Grid): seq<Page>
    requires perPage > 0
  {
    seq(NumPages(|paths|, perPage), i requires 0 <= i => PageOf(paths, width, height, perPage, g, i))
  }

  /** The reference order: image k, k < n, pasted into slot k % perPage. */
  function InInputOrder(paths: seq<string>, perPage: nat, g: Grid): seq<Placement>
    requires perPage > 0
  {
    seq(|paths|, k requires 0 <= k < |paths| => Placement(k, paths[k], Slot(g, k % perPage)))
  }

  /** All placements of a list of pages, page after page. */
  function Flatten(pages: seq<Page>): seq<Placement>
  {
    if pages == [] then [] else Flatten(pages[..|pages| - 1]) + pages[|pages| - 1].placements
  }

  /** Slot j of page i is filled exactly when its image index is below n. */
  lemma {:induction false} FilledIff(n: nat, perPage: nat, i: nat, j: nat)
    requires j < perPage
    ensures j < Filled(n, perPage, i) <==> i * perPage + j < n
  {
  }

  /** An image index and the (page, slot) pair determine each other. */
  lemma {:induction false} IndexSplit(i: nat, j: nat, perPage: nat)
    requires j < perPage
    ensures (i * perPage + j) / perPage == i && (i * perPage + j) % perPage == j
  {
    var k := i * perPage + j;
    var q, r := k / perPage, k % perPage;
    assert k == q * perPage + r && 0 <= r < perPage;
    if q < i {
      assert (q + 1) * perPage == q * perPage + perPage;
      MulMonotone(q + 1, i, perPage);
    } else if q > i {
      assert (i + 1) * perPage == i * perPage + perPage;
      MulMonotone(i + 1, q, perPage);
    }
  }

  /** The pages before the page count start inside the input list. */
  lemma {:induction false} PageStartsInside(n: nat, perPage: nat, i: nat)
    requires perPage > 0 && i < NumPages(n, perPage)
    ensures i * perPage < n
  {
    MulMonotone(i, NumPages(n, perPage) - 1, perPage);
  }

  /** n = 0 gives 0 pages, and every n > 0 gives at least one. */
  lemma {:induction false} NoImagesNoPages(n: nat, perPage: nat)
    requires perPage > 0
    ensures NumPages(n, perPage) == 0 <==> n == 0
  {
    if n > 0 {
      assert NumPages(n, perPage) * perPage >= n;
    }
  }

  /** The page count is the least one that holds all images: no smaller
      number of pages of perPage slots has room for n images. */
  lemma {:induction false} NumPagesIsLeast(n: nat, perPage: nat, k: nat)
    requires perPage > 0 && k * perPage >= n
    ensures NumPages(n, perPage) <= k
  {
    var c := NumPages(n, perPage);
    if c > k {
      MulMonotone(k, c - 1, perPage);
    }
  }

  /** Image k goes on page k / perPage, into slot k % perPage, and that slot
      has the grid's slot size. */
  lemma {:induction false} ImagePlacedAt(paths: seq<string>, width: int, height: int, perPage: nat, g: Grid, k: nat)
    requires perPage > 0 && k < |paths|
    ensures var pages := Pages(paths, width, height, perPage, g);
            var i, j := k / perPage, k % perPage;
            && i < |pages|
            && j < |pages[i].placements|
            && pages[i].placements[j] == Placement(k, paths[k], Slot(g, j))
            && pages[i].placements[j].area.w == g.slotWidth
            && pages[i].placements[j].area.h == g.slotHeight
  {
    var i, j := k / perPage, k % perPage;
    assert k == i * perPage + j;
    var c := NumPages(|paths|, perPage);
    if i >= c {
      MulMonotone(c, i, perPage);
    }
    FilledIff(|paths|, perPage, i, j);
  }

  /** What a placement found on a page says: image i * perPage + j, opened
      from its own path, in slot j, on page i of the page count. */
  lemma {:induction false} PlacementAt(paths: seq<string>, width: int, height: int, perPage: nat, g: Grid, i: nat, j: nat)
    requires perPage > 0
    requires i < |Pages(paths, width, height, perPage, g)|
    requires j < |Pages(paths, width, height, perPage, g)[i].placements|
    ensures var p := Pages(paths, width, height, perPage, g)[i].placements[j];
            && p.image < |paths| && p.path == paths[p.image]
            && p.image / perPage == i && p.image % perPage == j
            && p.area == Slot(g, j)
  {
    IndexSplit(i, j, perPage);
  }

  /** Every image is placed exactly once: the placement at (page i, slot j)
      shows image k if and only if i == k / perPage and j == k % perPage. */
  lemma {:induction false} PlacedExactlyOnce(paths: seq<string>, width: int, height: int, perPage: nat, g: Grid, k: nat)
    requires perPage > 0 && k < |paths|
    ensures var pages := Pages(paths, width, height, perPage, g);
            forall i, j | 0 <= i < |pages| && 0 <= j < |pages[i].placements| ::
              pages[i].placements[j].image == k <==> (i == k / perPage && j == k % perPage)
  {
    var pages := Pages(paths, width, height, perPage, g);
    ImagePlacedAt(paths, width, height, perPage, g, k);
    forall i, j | 0 <= i < |pages| && 0 <= j < |pages[i].placements|
      ensures pages[i].placements[j].image == k <==> (i == k / perPage && j == k % perPage)
    {
      PlacementAt(paths, width, height, perPage, g, i, j);
    }
  }

  /** A page before the last one is full. */
  lemma {:induction false} FilledBeforeLast(n: nat, perPage: nat, i: nat)
    requires perPage > 0 && i + 1 < NumPages(n, perPage)
    ensures Filled(n, perPage, i) == perPage
  {
    assert (i + 1) * perPage == i * perPage + perPage;
    MulMonotone(i + 1, NumPages(n, perPage) - 1, perPage);
  }

  /** The last page holds what is left, at least one image. */
  lemma {:induction false} FilledLast(n: nat, perPage: nat)
    requires perPage > 0 && NumPages(n, perPage) > 0
    ensures var c := NumPages(n, perPage);
            && 0 < Filled(n, perPage, c - 1) <= perPage
            && Filled(n, perPage, c - 1) == n - (c - 1) * perPage
  {
    var c := NumPages(n, perPage);
    PageStartsInside(n, perPage, c - 1);
    assert c * perPage == (c - 1) * perPage + perPage;
  }

  /** Every page but the last is full; the last holds between 1 and perPage
      images, so blank slots only ever trail on the last page. */
  lemma {:induction false} OnlyLastPageHasBlanks(paths: seq<string>, width: int, height: int, perPage: nat, g: Grid)
    requires perPage > 0
    ensures var pages := Pages(paths, width, height, perPage, g);
            && (forall i | 0 <= i < |pages| - 1 :: |pages[i].placements| == perPage)
            && (|pages| > 0 ==>
                  var last := |pages[|pages| - 1].placements|;
                  && 0 < last <= perPage
                  && last == |paths| - (|pages| - 1) * perPage)
  {
    var pages := Pages(paths, width, height, perPage, g);
    forall i | 0 <= i < |pages| - 1
      ensures |pages[i].placements| == perPage
    {
      FilledBeforeLast(|paths|, perPage, i);
    }
    if |pages| > 0 {
      FilledLast(|paths|, perPage);
    }
  }

  /** Slot j of page i holds an image exactly when i * perPage + j < n; the
      other slots are left blank. */
  lemma {:induction false} SlotFilledIff(paths: seq<string>, width: int, height: int, perPage: nat, g: Grid, i: nat, j: nat)
    requires perPage > 0 && i < NumPages(|paths|, perPage) && j < perPage
    ensures j < |Pages(paths, width, height, perPage, g)[i].placements| <==> i * perPage + j < |paths|
  {
    FilledIff(|paths|, perPage, i, j);
  }

  /** Placements on one page stay at least a margin apart from each other, and
      so never overlap when the margin is not negative. */
  lemma {:induction false} PlacementsApart(paths: seq<string>, width: int, height: int, perPage: nat, g: Grid, i: nat, j: nat, j': nat)
    requires perPage > 0 && g.slotHeight + g.margin >= 0
    requires i < |Pages(paths, width, height, perPage, g)|
    requires j < |Pages(paths, width, height, perPage, g)[i].placements|
    requires j' < |Pages(paths, width, height, perPage, g)[i].placements|
    requires j != j'
    ensures var ps := Pages(paths, width, height, perPage, g)[i].placements;
            Apart(ps[j].area, ps[j'].area, g.margin)
  {
    DistinctSlotsApart(g, j, j');
  }

  /** With at most six images per page and a non-negative margin that leaves
      slots a non-negative size, every placement of the margin builder stays a
      margin away from each edge of its page. */
  lemma {:induction false} PlacementsInsideMargins(paths: seq<string>, width: int, height: int, perPage: nat, margin: int, i: nat, j: nat)
    requires 0 < perPage <= SlotsPerGrid
    requires 0 <= margin && (Columns + 1) * margin <= width && (Rows + 1) * margin <= height
    requires i < |Pages(paths, width, height, perPage, MarginGrid(width, height, margin))|
    requires j < |Pages(paths, width, height, perPage, MarginGrid(width, height, margin))[i].placements|
    ensures var p := Pages(paths, width, height, perPage, MarginGrid(width, height, margin))[i].placements[j];
            Within(p.area, margin, margin, width - margin, height - margin)
  {
    MarginSlotInsidePage(width, height, margin, j);
  }

  /** With at most six images per page, every placement of the no-margin
      builder lies inside its page. */
  lemma {:induction false} PlacementsInsidePage(paths: seq<string>, width: int, height: int, perPage: nat, i: nat, j: nat)
    requires 0 < perPage <= SlotsPerGrid
    requires 0 <= width && 0 <= height
    requires i < |Pages(paths, width, height, perPage, NoMarginGrid(width, height))|
    requires j < |Pages(paths, width, height, perPage, NoMarginGrid(width, height))[i].placements|
    ensures var p := Pages(paths, width, height, perPage, NoMarginGrid(width, height))[i].placements[j];
            Within(p.area, 0, 0, width, height)
  {
    NoMarginSlotInsidePage(width, height, j);
  }

  /** Page i holds the stretch of the reference order that starts at image
      i * perPage and ends where page i + 1 (or the input) starts. */
  lemma {:induction false} PageIsSlice(paths: seq<string>, width: int, height: int, perPage: nat, g: Grid, i: nat)
    requires perPage > 0 && i < NumPages(|paths|, perPage)
    ensures var upTo := if (i + 1) * perPage <= |paths| then (i + 1) * perPage else |paths|;
            && i * perPage <= upTo <= |paths|
            && Pages(paths, width, height, perPage, g)[i].placements == InInputOrder(paths, perPage, g)[i * perPage..upTo]
  {
    var page := Pages(paths, width, height, perPage, g)[i].placements;
    var ref := InInputOrder(paths, perPage, g);
    var first := i * perPage;
    PageStartsInside(|paths|, perPage, i);
    assert (i + 1) * perPage == first + perPage;
    forall j | 0 <= j < |page|
      ensures page[j] == ref[first + j]
    {
      IndexSplit(i, j, perPage);
    }
  }

  lemma {:induction false} FlattenPrefix(paths: seq<string>, width: int, height: int, perPage: nat, g: Grid, i: nat)
    requires perPage > 0 && i <= NumPages(|paths|, perPage)
    ensures var pages := Pages(paths, width, height, perPage, g);
            var upTo := if i * perPage <= |paths| then i * perPage else |paths|;
            Flatten(pages[..i]) == InInputOrder(paths, perPage, g)[..upTo]
  {
    var pages := Pages(paths, width, height, perPage, g);
    var ref := InInputOrder(paths, perPage, g);
    if i == 0 {
      assert pages[..0] == [];
    } else {
      FlattenPrefix(paths, width, height, perPage, g, i - 1);
      PageIsSlice(paths, width, height, perPage, g, i - 1);
      PageStartsInside(|paths|, perPage, i - 1);
      assert pages[..i][..i - 1] == pages[..i - 1];
      var first := (i - 1) * perPage;
      var upTo := if i * perPage <= |paths| then i * perPage else |paths|;
      assert ref[..upTo] == ref[..first] + ref[first..upTo];
    }
  }

  /** Reading the pages in order gives back every image exactly once, in input
      order: image k at position k, in slot k % perPage. */
  lemma {:induction false} PagesKeepInputOrder(paths: seq<string>, width: int, height: int, perPage: nat, g: Grid)
    requires perPage > 0
    ensures Flatten(Pages(paths, width, height, perPage, g)) == InInputOrder(paths, perPage, g)
  {
    var pages := Pages(paths, width, height, perPage, g);
    FlattenPrefix(paths, width, height, perPage, g, |pages|);
    assert pages[..|pages|] == pages;
  }

  /** Default no-margin layout with six images: one full page whose slots
      are the six 1275 by 1100 tiles of the 2550 by 3300 page. */
  lemma SixImagesOnePage(paths: seq<string>)
    requires |paths| == 6
    ensures var pages := Pages(paths, 2550, 3300, 6, NoMarginGrid(2550, 3300));
            && |pages| == 1
            && |pages[0].placements| == 6
            && forall j | 0 <= j < 6 ::
                 pages[0].placements[j] == Placement(j, paths[j], Slot(Grid(0, 1275, 1100), j))
  {
  }

  /** Default no-margin layout with seven images: two pages, the second with
      only image 6, in the top-left slot. */
  lemma SevenImagesTwoPages(paths: seq<string>)
    requires |paths| == 7
    ensures var pages := Pages(paths, 2550, 3300, 6, NoMarginGrid(2550, 3300));
            && |pages| == 2
            && |pages[0].placements| == 6
            && pages[1].placements == [Placement(6, paths[6], Rect(0, 0, 1275, 1100))]
  {
    var pages := Pages(paths, 2550, 3300, 6, NoMarginGrid(2550, 3300));
    assert NumPages(7, 6) == 2;
    assert Filled(7, 6, 1) == 1;
  }
}
