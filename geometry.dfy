/** Slot geometry of the page grid: two columns by three rows of equal slots,
    optionally surrounded and separated by a uniform margin. */
module Geometry {

  /** The grid shape is fixed, whatever the number of images per page. */
  const Columns: nat := 2
  const Rows: nat := 3
  const SlotsPerGrid: nat := Columns * Rows

  /** An axis-aligned rectangle: its top-left corner and its size, in pixels.
      It covers the pixels x <= px < x + w and y <= py < y + h. */
  datatype Rect = Rect(x: int, y: int, w: int, h: int)

  /** The layout parameters a page builder works with: the white border
      around and between slots, and the size every slot (and every resized
      image) gets. */
  datatype Grid = Grid(margin: int, slotWidth: int, slotHeight: int)

  predicate Contains(r: Rect, px: int, py: int)
  {
    r.x <= px < r.x + r.w && r.y <= py < r.y + r.h
  }

  /** The two rectangles are at least d pixels apart, horizontally or
      vertically. With d == 0 this says they do not overlap. */
  predicate Apart(a: Rect, b: Rect, d: int)
  {
    || a.x + a.w + d <= b.x
    || b.x + b.w + d <= a.x
    || a.y + a.h + d <= b.y
    || b.y + b.h + d <= a.y
  }

  /** r lies inside the box left <= x, x + w <= right, top <= y, y + h <= bottom. */
  predicate Within(r: Rect, left: int, top: int, right: int, bottom: int)
  {
    left <= r.x && r.x + r.w <= right && top <= r.y && r.y + r.h <= bottom
  }

  /** The grid of the no-margin builder: the page split in two columns and
      three rows, remainders truncated. */
  function NoMarginGrid(pageWidth: int, pageHeight: int): (g: Grid)
    ensures g.margin == 0
    ensures Columns * g.slotWidth <= pageWidth < Columns * g.slotWidth + Columns
    ensures Rows * g.slotHeight <= pageHeight < Rows * g.slotHeight + Rows
  {
    Grid(0, pageWidth / Columns, pageHeight / Rows)
  }

  /** The grid of the margin builder: Columns + 1 vertical and Rows + 1
      horizontal margins are taken off the page before it is split. */
  function MarginGrid(pageWidth: int, pageHeight: int, margin: int): (g: Grid)
    ensures g.margin == margin
    ensures Columns * g.slotWidth + (Columns + 1) * margin <= pageWidth
    ensures pageWidth < Columns * g.slotWidth + (Columns + 1) * margin + Columns
    ensures Rows * g.slotHeight + (Rows + 1) * margin <= pageHeight
    ensures pageHeight < Rows * g.slotHeight + (Rows + 1) * margin + Rows
  {
    Grid(margin,
         (pageWidth - margin * (Columns + 1)) / Columns,
         (pageHeight - margin * (Rows + 1)) / Rows)
  }

  /** Slot j sits in column j % Columns and row j / Columns. */
  function Slot(g: Grid, j: nat): Rect
  {
    Rect(g.margin + (j % Columns) * (g.slotWidth + g.margin),
         g.margin + (j / Columns) * (g.slotHeight + g.margin),
         g.slotWidth, g.slotHeight)
  }

  lemma MulMonotone(a: int, b: int, p: int)
    requires a <= b && p >= 0
    ensures a * p <= b * p
  {
    assert b * p == a * p + (b - a) * p;
  }

  /** The no-margin layout is the margin layout with a zero margin: the two
      builders agree on every slot. */
  lemma {:induction false} NoMarginIsZeroMargin(pageWidth: int, pageHeight: int)
    ensures NoMarginGrid(pageWidth, pageHeight) == MarginGrid(pageWidth, pageHeight, 0)
  {
  }

  /** Distinct slots of a grid are at least a margin apart; with a zero
      margin they do not overlap. */
  lemma {:induction false} DistinctSlotsApart(g: Grid, j: nat, k: nat)
    requires g.slotHeight + g.margin >= 0
    requires j != k
    ensures Apart(Slot(g, j), Slot(g, k), g.margin)
  {
    var a, b := Slot(g, j), Slot(g, k);
    if j / Columns == k / Columns {
      assert j % Columns != k % Columns;
      if j % Columns == 0 {
        assert a.x + a.w + g.margin == b.x;
      } else {
        assert b.x + b.w + g.margin == a.x;
      }
    } else if j / Columns < k / Columns {
      var d := k / Columns - j / Columns;
      assert b.y - a.y == d * (g.slotHeight + g.margin);
      MulMonotone(1, d, g.slotHeight + g.margin);
    } else {
      var d := j / Columns - k / Columns;
      assert a.y - b.y == d * (g.slotHeight + g.margin);
      MulMonotone(1, d, g.slotHeight + g.margin);
    }
  }

  /** Horizontally adjacent slots (columns 0 and 1 of one row) are exactly one
      margin apart. */
  lemma {:induction false} HorizontalGap(g: Grid, j: nat)
    requires j % Columns == 0
    ensures Slot(g, j + 1).x - (Slot(g, j).x + g.slotWidth) == g.margin
    ensures Slot(g, j + 1).y == Slot(g, j).y
  {
    assert (j + 1) % Columns == 1 && (j + 1) / Columns == j / Columns;
  }

  /** Vertically adjacent slots (rows r and r + 1 of one column) are exactly
      one margin apart. */
  lemma {:induction false} VerticalGap(g: Grid, j: nat)
    ensures Slot(g, j + Columns).y - (Slot(g, j).y + g.slotHeight) == g.margin
    ensures Slot(g, j + Columns).x == Slot(g, j).x
  {
    assert (j + Columns) % Columns == j % Columns && (j + Columns) / Columns == j / Columns + 1;
  }

  /** Each of the six slots of the margin layout stays a margin away from
      every edge of the page, provided the margin is not negative and the
      slots get a non-negative size. */
  lemma {:induction false} MarginSlotInsidePage(pageWidth: int, pageHeight: int, margin: int, j: nat)
    requires 0 <= margin
    requires (Columns + 1) * margin <= pageWidth && (Rows + 1) * margin <= pageHeight
    requires j < SlotsPerGrid
    ensures Within(Slot(MarginGrid(pageWidth, pageHeight, margin), j),
                   margin, margin, pageWidth - margin, pageHeight - margin)
  {
    var g := MarginGrid(pageWidth, pageHeight, margin);
    var r := Slot(g, j);
    assert g.slotWidth >= 0 && g.slotHeight >= 0;
    assert j % Columns <= 1 && j / Columns <= 2;
    if j % Columns == 0 { assert r.x == margin; } else { assert r.x == 2 * margin + g.slotWidth; }
    if j / Columns == 0 {
      assert r.y == margin;
    } else if j / Columns == 1 {
      assert r.y == 2 * margin + g.slotHeight;
    } else {
      assert r.y == 3 * margin + 2 * g.slotHeight;
    }
  }

  /** Each of the six slots of the no-margin layout lies inside the page. */
  lemma {:induction false} NoMarginSlotInsidePage(pageWidth: int, pageHeight: int, j: nat)
    requires 0 <= pageWidth && 0 <= pageHeight
    requires j < SlotsPerGrid
    ensures Within(Slot(NoMarginGrid(pageWidth, pageHeight), j), 0, 0, pageWidth, pageHeight)
  {
    NoMarginIsZeroMargin(pageWidth, pageHeight);
    MarginSlotInsidePage(pageWidth, pageHeight, 0, j);
  }

  /** Without a margin the six slots tile the block of Columns slot widths by
      Rows slot heights at the page's top-left corner: every pixel of it lies
      in exactly one slot. */
  lemma {:induction false} NoMarginSlotsTile(g: Grid, px: int, py: int)
    requires g.margin == 0 && g.slotWidth > 0 && g.slotHeight > 0
    requires 0 <= px < Columns * g.slotWidth && 0 <= py < Rows * g.slotHeight
    ensures exists j: nat :: j < SlotsPerGrid && Contains(Slot(g, j), px, py)
    ensures forall j: nat, k: nat ::
              (j < SlotsPerGrid && k < SlotsPerGrid &&
               Contains(Slot(g, j), px, py) && Contains(Slot(g, k), px, py)) ==> j == k
  {
    var col: nat := if px < g.slotWidth then 0 else 1;
    var row: nat := if py < g.slotHeight then 0 else if py < 2 * g.slotHeight then 1 else 2;
    var j: nat := Columns * row + col;
    assert j % Columns == col && j / Columns == row;
    assert Contains(Slot(g, j), px, py);
    forall j: nat, k: nat | j < SlotsPerGrid && k < SlotsPerGrid &&
        Contains(Slot(g, j), px, py) && Contains(Slot(g, k), px, py)
      ensures j == k
    {
      if j != k {
        DistinctSlotsApart(g, j, k);
      }
    }
  }

  /** The grid has six slots whatever the number of images per page: without
      a margin, a slot past the sixth lies in a fourth row, below the block
      of three slot heights, and so sticks out of any page at least nine
      pixels high. */
  lemma {:induction false} NoMarginSlotPastSixLeavesPage(pageWidth: int, pageHeight: int, j: nat)
    requires j >= SlotsPerGrid && pageHeight >= 9
    ensures Slot(NoMarginGrid(pageWidth, pageHeight), j).y >= Rows * NoMarginGrid(pageWidth, pageHeight).slotHeight
    ensures !Within(Slot(NoMarginGrid(pageWidth, pageHeight), j), 0, 0, pageWidth, pageHeight)
  {
    var g := NoMarginGrid(pageWidth, pageHeight);
    assert g.slotHeight >= 3;
    MulMonotone(Rows, j / Columns, g.slotHeight);
  }

  /** Every pixel of the default 2550 by 3300 page lies in exactly one of the
      six slots of the no-margin layout. */
  lemma {:induction false} DefaultPageTiled(px: int, py: int)
    requires 0 <= px < 2550 && 0 <= py < 3300
    ensures exists j: nat :: j < SlotsPerGrid && Contains(Slot(NoMarginGrid(2550, 3300), j), px, py)
    ensures forall j: nat, k: nat ::
              (j < SlotsPerGrid && k < SlotsPerGrid &&
               Contains(Slot(NoMarginGrid(2550, 3300), j), px, py) &&
               Contains(Slot(NoMarginGrid(2550, 3300), k), px, py)) ==> j == k
  {
    NoMarginSlotsTile(NoMarginGrid(2550, 3300), px, py);
  }

  /** The default page, 2550 by 3300 pixels: 1275 by 1100 slots that tile the
      whole page without a margin, 1230 by 1060 slots with a 30-pixel margin. */
  lemma DefaultSlotSizes()
    ensures NoMarginGrid(2550, 3300) == Grid(0, 1275, 1100)
    ensures Columns * 1275 == 2550 && Rows * 1100 == 3300
    ensures MarginGrid(2550, 3300, 30) == Grid(30, 1230, 1060)
  {
  }
}
