/** The two page builders, the path-prefixing loop and the step that picks a
    builder, written as the loops they are. Opening, resizing and pasting an
    image is recorded as appending a Placement to the current page. */
module Compositor {
  import opened Geometry
  import opened Pagination

  /** Defaults of both builders. */
  const DefaultPageWidth: int := 2550
  const DefaultPageHeight: int := 3300
  const DefaultImagesPerPage: nat := 6
  const DefaultMargin: int := 30

  /** The no-margin builder: page after page, slot after slot, each image
      resized to half the page width by a third of the page height and pasted
      at its cell of the two-column, three-row grid. */
  method CreatePages(paths: seq<string>, pageWidth: int, pageHeight: int, imagesPerPage: nat)
    returns (pages: seq<Page>)
    requires imagesPerPage > 0
    ensures pages == Pages(paths, pageWidth, pageHeight, imagesPerPage, NoMarginGrid(pageWidth, pageHeight))
  {
    ghost var g := NoMarginGrid(pageWidth, pageHeight);
    pages := [];
    var numPages := (|paths| + imagesPerPage - 1) / imagesPerPage;
    var imagesPerRow, imagesPerCol := Columns, Rows;
    var i := 0;
    while i < numPages
      invariant 0 <= i <= numPages
      invariant |pages| == i
      invariant forall k :: 0 <= k < i ==> pages[k] == PageOf(paths, pageWidth, pageHeight, imagesPerPage, g, k)
    {
      var placements: seq<Placement> := [];
      ghost var filled := Filled(|paths|, imagesPerPage, i);
      var j := 0;
      while j < imagesPerPage
        invariant 0 <= j <= imagesPerPage
        invariant |placements| == if j <= filled then j else filled
        invariant forall q :: 0 <= q < |placements| ==>
                    placements[q] == Placement(i * imagesPerPage + q, paths[i * imagesPerPage + q], Slot(g, q))
      {
        var imageIndex := i * imagesPerPage + j;
        FilledIff(|paths|, imagesPerPage, i, j);
        if imageIndex < |paths| {
          var slotWidth := pageWidth / imagesPerRow;
          var slotHeight := pageHeight / imagesPerCol;
          var x := (j % imagesPerRow) * slotWidth;
          var y := (j / imagesPerRow) * slotHeight;
          placements := placements + [Placement(imageIndex, paths[imageIndex], Rect(x, y, slotWidth, slotHeight))];
        }
        j := j + 1;
      }
      pages := pages + [Page(pageWidth, pageHeight, placements)];
      i := i + 1;
    }
  }

  /** The margin builder: as the no-margin one, but the slot size is computed
      once with Columns + 1 and Rows + 1 margins taken off the page, and each
      slot is shifted by one margin plus one margin per column or row before it. */
  method CreatePagesMargin(paths: seq<string>, pageWidth: int, pageHeight: int, imagesPerPage: nat, margin: int)
    returns (pages: seq<Page>)
    requires imagesPerPage > 0
    ensures pages == Pages(paths, pageWidth, pageHeight, imagesPerPage, MarginGrid(pageWidth, pageHeight, margin))
  {
    ghost var g := MarginGrid(pageWidth, pageHeight, margin);
    pages := [];
    var numPages := (|paths| + imagesPerPage - 1) / imagesPerPage;
    var imagesPerRow, imagesPerCol := Columns, Rows;
    var slotWidth := (pageWidth - margin * (imagesPerRow + 1)) / imagesPerRow;
    var slotHeight := (pageHeight - margin * (imagesPerCol + 1)) / imagesPerCol;
    var i := 0;
    while i < numPages
      invariant 0 <= i <= numPages
      invariant |pages| == i
      invariant forall k :: 0 <= k < i ==> pages[k] == PageOf(paths, pageWidth, pageHeight, imagesPerPage, g, k)
    {
      var placements: seq<Placement> := [];
      ghost var filled := Filled(|paths|, imagesPerPage, i);
      var j := 0;
      while j < imagesPerPage
        invariant 0 <= j <= imagesPerPage
        invariant |placements| == if j <= filled then j else filled
        invariant forall q :: 0 <= q < |placements| ==>
                    placements[q] == Placement(i * imagesPerPage + q, paths[i * imagesPerPage + q], Slot(g, q))
      {
        var imageIndex := i * imagesPerPage + j;
        FilledIff(|paths|, imagesPerPage, i, j);
        if imageIndex < |paths| {
          var x := margin + (j % imagesPerRow) * (slotWidth + margin);
          var y := margin + (j / imagesPerRow) * (slotHeight + margin);
          placements := placements + [Placement(imageIndex, paths[imageIndex], Rect(x, y, slotWidth, slotHeight))];
        }
        j := j + 1;
      }
      pages := pages + [Page(pageWidth, pageHeight, placements)];
      i := i + 1;
    }
  }

  /** The path of a directory entry: the folder, a slash, the entry name. */
  function InFolder(folder: string, entry: string): string
  {
    folder + "/" + entry
  }

  /** Every entry of a listing turned into its path, in listing order. */
  function Prefixed(folder: string, entries: seq<string>): seq<string>
  {
    seq(|entries|, i requires 0 <= i < |entries| => InFolder(folder, entries[i]))
  }

  /** The folder prefix can be taken off again: each path starts with the
      folder and a slash and ends with its own entry. */
  lemma {:induction false} PrefixedRoundTrip(folder: string, entries: seq<string>)
    ensures |Prefixed(folder, entries)| == |entries|
    ensures forall i | 0 <= i < |entries| ::
              && Prefixed(folder, entries)[i][..|folder| + 1] == folder + "/"
              && Prefixed(folder, entries)[i][|folder| + 1..] == entries[i]
  {
    forall i | 0 <= i < |entries|
      ensures Prefixed(folder, entries)[i][..|folder| + 1] == folder + "/"
      ensures Prefixed(folder, entries)[i][|folder| + 1..] == entries[i]
    {
      var p := Prefixed(folder, entries)[i];
      assert p == (folder + "/") + entries[i];
    }
  }

  /** Prefixing loses and merges nothing: distinct listings give distinct
      path lists. */
  lemma {:induction false} PrefixedInjective(folder: string, entries: seq<string>, others: seq<string>)
    requires Prefixed(folder, entries) == Prefixed(folder, others)
    ensures entries == others
  {
    PrefixedRoundTrip(folder, entries);
    PrefixedRoundTrip(folder, others);
    forall i | 0 <= i < |entries|
      ensures entries[i] == others[i]
    {
      assert Prefixed(folder, entries)[i] == Prefixed(folder, others)[i];
    }
  }

  /** Overwrites each entry of the listing, in place, with its path. */
  method PrefixPaths(imagePaths: array<string>, folder: string)
    modifies imagePaths
    ensures imagePaths[..] == Prefixed(folder, old(imagePaths[..]))
  {
    var i := 0;
    while i < imagePaths.Length
      invariant 0 <= i <= imagePaths.Length
      invariant forall k :: 0 <= k < i ==> imagePaths[k] == InFolder(folder, old(imagePaths[k]))
      invariant forall k :: i <= k < imagePaths.Length ==> imagePaths[k] == old(imagePaths[k])
    {
      imagePaths[i] := folder + "/" + imagePaths[i];
      i := i + 1;
    }
  }

  /** From a folder listing to the finished pages: the listing is turned into
      paths, then the margin or the no-margin builder runs with its defaults. */
  method BuildPages(folder: string, listing: seq<string>, useMargin: bool) returns (pages: seq<Page>)
    ensures var g := if useMargin then MarginGrid(DefaultPageWidth, DefaultPageHeight, DefaultMargin)
                     else NoMarginGrid(DefaultPageWidth, DefaultPageHeight);
            pages == Pages(Prefixed(folder, listing), DefaultPageWidth, DefaultPageHeight, DefaultImagesPerPage, g)
  {
    var imagePaths := new string[|listing|](i requires 0 <= i < |listing| => listing[i]);
    assert imagePaths[..] == listing;
    PrefixPaths(imagePaths, folder);
    if useMargin {
      pages := CreatePagesMargin(imagePaths[..], DefaultPageWidth, DefaultPageHeight, DefaultImagesPerPage, DefaultMargin);
    } else {
      pages := CreatePages(imagePaths[..], DefaultPageWidth, DefaultPageHeight, DefaultImagesPerPage);
    }
  }

  /** With the defaults, in either mode, every placement lies inside the page
      (a 30-pixel margin away from each edge in margin mode) and placements
      on one page are a margin apart, so never overlap. */
  lemma {:induction false} DefaultPagesGeometry(paths: seq<string>, useMargin: bool, i: nat, j: nat, j': nat)
    requires var g := if useMargin then MarginGrid(DefaultPageWidth, DefaultPageHeight, DefaultMargin)
                      else NoMarginGrid(DefaultPageWidth, DefaultPageHeight);
             var pages := Pages(paths, DefaultPageWidth, DefaultPageHeight, DefaultImagesPerPage, g);
             i < |pages| && j < |pages[i].placements| && j' < |pages[i].placements| && j != j'
    ensures var g := if useMargin then MarginGrid(DefaultPageWidth, DefaultPageHeight, DefaultMargin)
                     else NoMarginGrid(DefaultPageWidth, DefaultPageHeight);
            var m := g.margin;
            var ps := Pages(paths, DefaultPageWidth, DefaultPageHeight, DefaultImagesPerPage, g)[i].placements;
            && Within(ps[j].area, m, m, DefaultPageWidth - m, DefaultPageHeight - m)
            && Apart(ps[j].area, ps[j'].area, m)
  {
    var g := if useMargin then MarginGrid(DefaultPageWidth, DefaultPageHeight, DefaultMargin)
             else NoMarginGrid(DefaultPageWidth, DefaultPageHeight);
    PlacementAt(paths, DefaultPageWidth, DefaultPageHeight, DefaultImagesPerPage, g, i, j);
    PlacementsApart(paths, DefaultPageWidth, DefaultPageHeight, DefaultImagesPerPage, g, i, j, j');
    if useMargin {
      MarginSlotInsidePage(DefaultPageWidth, DefaultPageHeight, DefaultMargin, j);
    } else {
      NoMarginSlotInsidePage(DefaultPageWidth, DefaultPageHeight, j);
    }
  }
}
