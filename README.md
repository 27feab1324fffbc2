# image_grid: page layout and pagination

`image_grid.py` lays a folder of images out on fixed-size pages, six to a page
in a grid of two columns and three rows, and saves the pages as one PDF. It has
two page builders. `create_pages` splits the page into equal slots with no gap
between them. `create_pages_margin` leaves a uniform white margin around and
between the slots. Both compute the page count by ceiling division, walk page
`i` and slot `j` in nested loops, give slot `j` of page `i` the image with index
`i * images_per_page + j` when there is one, resize that image to the slot size
and paste it at the slot's offset. Before that, the script turns each
directory-listing entry into `folder + "/" + entry`, in place.

This project models that logic in Dafny with pixels abstracted away. A page is
its size plus the ordered list of its pastes. Each paste records the image
index, the path and the rectangle it fills.

- `geometry.dfy` (module `Geometry`): the fixed 2 × 3 grid, slot sizes for
  both modes, slot offsets, and the geometric facts about them: inside the
  page, a margin from the edges, a margin apart from each other, no overlap,
  and tiling without a margin.
- `pagination.dfy` (module `Pagination`): the page and placement records.
  `Pages` is the reference definition of what both builders return, and the
  lemmas about it cover the page count, assignment by input order, exactly-once
  placement and blank trailing slots.
- `compositor.dfy` (module `Compositor`): the two builders as the source's
  nested loops, the in-place path-prefix loop, and the step that picks a
  builder with its defaults. Each method is proved equal to the reference
  definition.

Some choices follow the code where its parameters suggest otherwise:

- The grid is always 2 columns by 3 rows, whatever `images_per_page` is
  (image_grid.py:10-11, 36-37). The row count is never derived from
  `images_per_page`, and the model keeps the code's fixed grid.
  `NoMarginSlotPastSixLeavesPage` shows what the code then does with more than
  six images per page.
- Python's `//` with a positive divisor rounds toward negative infinity. So
  does Dafny's `/`, so every division here matches Python for any sign of the
  dividend, including a negative margin-mode slot size.
- The no-margin builder recomputes the slot size for every image
  (image_grid.py:21-22). The margin builder computes it once before the loops
  (image_grid.py:39-40). The methods do the same.

## Model

| member | source | states |
|---|---|---|
| Geometry.NoMarginGrid | image_grid.py:21-22 | no margin; slot width is the largest w with 2w ≤ page width, slot height the largest h with 3h ≤ page height (floor division by the fixed 2 columns and 3 rows) |
| Geometry.MarginGrid | image_grid.py:39-40 | slot width is the largest w with 2w + 3m ≤ page width, slot height the largest h with 3h + 4m ≤ page height |
| Geometry.NoMarginIsZeroMargin | image_grid.py:39-52 | the margin layout with margin 0 is exactly the no-margin layout (same slot size, same offsets) |
| Geometry.DistinctSlotsApart | image_grid.py:51-52 | any two distinct slots are at least one margin apart horizontally or vertically, so with margin ≥ 0 they never overlap |
| Geometry.HorizontalGap | image_grid.py:51 | the two slots of a row are exactly one margin apart and at the same height |
| Geometry.VerticalGap | image_grid.py:52 | slots j and j + 2 are in the same column and exactly one margin apart vertically |
| Geometry.MarginSlotInsidePage | image_grid.py:39-52 | for m ≥ 0, 3m ≤ W, 4m ≤ H and j < 6: x ≥ m, y ≥ m, x + w ≤ W − m, y + h ≤ H − m |
| Geometry.NoMarginSlotInsidePage | image_grid.py:21-26 | for W, H ≥ 0 and j < 6: 0 ≤ x, 0 ≤ y, x + w ≤ W, y + h ≤ H |
| Geometry.NoMarginSlotsTile | image_grid.py:21-26 | without a margin, every pixel of the 2w × 3h block at the top-left corner lies in exactly one of the six slots |
| Geometry.NoMarginSlotPastSixLeavesPage | image_grid.py:10-11 | with the grid fixed at 2 × 3, a no-margin slot j ≥ 6 starts at or below 3h and is not inside the page (for a page at least 9 pixels high) |
| Geometry.DefaultPageTiled | image_grid.py:7-26 | on the default 2550 × 3300 page, every pixel lies in exactly one no-margin slot |
| Geometry.DefaultSlotSizes | image_grid.py:33-40 | defaults give 1275 × 1100 slots with no margin, which tile 2550 × 3300 exactly, and 1230 × 1060 slots with margin 30 |
| Pagination.NumPages | image_grid.py:9 | (n + P − 1) / P pages hold all n images, and one page fewer would not |
| Pagination.NoImagesNoPages | image_grid.py:35 | the page count is 0 if and only if there are no images |
| Pagination.NumPagesIsLeast | image_grid.py:35 | no number of pages smaller than the count has room for n images |
| Pagination.ImagePlacedAt | image_grid.py:13-23 | image k < n is on page k / P in slot k % P, from path k, at that slot's offset with the grid's slot size |
| Pagination.PlacementAt | image_grid.py:42-52 | the placement at page i, slot j shows image i·P + j < n, opened from its own path, at slot j's rectangle |
| Pagination.PlacedExactlyOnce | image_grid.py:42-48 | page i, slot j shows image k if and only if i = k / P and j = k % P |
| Pagination.OnlyLastPageHasBlanks | image_grid.py:13-18 | every page but the last has P images; the last has n − (pages − 1)·P of them, between 1 and P |
| Pagination.SlotFilledIff | image_grid.py:47 | slot j < P of page i holds an image if and only if i·P + j < n |
| Pagination.PlacementsApart | image_grid.py:45-54 | two placements on one page are at least one margin apart, so never overlap |
| Pagination.PlacementsInsideMargins | image_grid.py:42-54 | with P ≤ 6, m ≥ 0, 3m ≤ W and 4m ≤ H, every margin-mode placement keeps one margin from each edge of the page |
| Pagination.PlacementsInsidePage | image_grid.py:13-28 | with P ≤ 6 and W, H ≥ 0, every no-margin placement lies inside the page |
| Pagination.PageIsSlice | image_grid.py:13-19 | page i holds exactly the stretch of the input-order placements from image i·P up to image (i + 1)·P or the end of the input |
| Pagination.FlattenPrefix | image_grid.py:13-30 | the first i pages, read in order, are the first min(i·P, n) input-order placements |
| Pagination.PagesKeepInputOrder | image_grid.py:13-30 | reading the pages front to back lists image 0, 1, …, n − 1 exactly once, in input order, image k in slot k % P |
| Pagination.SixImagesOnePage | image_grid.py:7-31 | six images with the defaults give one page with images 0..5 in slots 0..5 of 1275 × 1100 |
| Pagination.SevenImagesTwoPages | image_grid.py:7-31 | seven images with the defaults give two pages; the second holds only image 6, at (0, 0), size 1275 × 1100 |
| Compositor.CreatePages | image_grid.py:7-31 | the nested loops return exactly the reference pages `Pages` with the no-margin grid, whose length is NumPages(n, P) |
| Compositor.CreatePagesMargin | image_grid.py:33-57 | the nested loops return exactly the reference pages `Pages` with the margin grid, whose length is NumPages(n, P) |
| Compositor.PrefixPaths | image_grid.py:71-72 | after the in-place loop, entry i is folder + "/" + its old value, and the length is unchanged |
| Compositor.PrefixedRoundTrip | image_grid.py:71-72 | each prefixed path starts with folder + "/" and ends with its own entry, and the list keeps its length and order |
| Compositor.PrefixedInjective | image_grid.py:71-72 | different listings give different path lists, so prefixing loses and merges nothing |
| Compositor.BuildPages | image_grid.py:70-79 | after prefixing, the flag picks the margin or no-margin builder with defaults 2550 × 3300, 6 per page and margin 30 |
| Compositor.DefaultPagesGeometry | image_grid.py:76-79 | in either default mode, every placement is inside the page and a margin from its edges, and placements on one page are a margin apart |

## Left out

- Pixel content. Allocating the white page, opening, resizing and pasting an
  image are foreign image-library calls. Each paste is recorded as one
  Placement.
- Decode errors from opening a file, and rejection of non-positive resize
  sizes. Both belong to the image library. The builders record whatever slot
  size the code computes, even a negative one. The geometric lemmas assume
  non-negative slot sizes (W ≥ 3m and H ≥ 4m in margin mode).
- Compositor.CreatePages, Compositor.CreatePagesMargin: require
  images_per_page > 0. With 0 the page count divides by zero and raises. A
  negative value yields no usable layout.
- Command-line parsing (image_grid.py:60-68). BuildPages takes the folder, the
  listing and the margin flag directly.
- The directory listing (image_grid.py:70) is I/O and its order depends on the
  platform. BuildPages takes the listing as a parameter, in whatever order it
  comes.
- The two messages printed to the console (image_grid.py:74, 83).
- Saving the PDF (image_grid.py:81-82), including its failure on zero pages,
  where `pages[0]` does not exist. NoImagesNoPages shows when that case arises.
- The unused module-level `USE_MARGIN` flag (image_grid.py:5).
- Geometry.NoMarginSlotPastSixLeavesPage covers only the no-margin builder.
  With more than six images per page, margin-mode slots past the sixth also
  fall into a fourth row, but no lemma states this.
