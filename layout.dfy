/**
 * The output specs and the cell size.  Each spec is one sprite-sheet file
 * with its canvas size and its scale; the cell size is the base cell of
 * 80 pixels divided by the scale (C# integer division).
 */
module Layout {
  import Catalog

  /** One requested output canvas. */
  datatype OutputSpec = OutputSpec(fileName: string, width: int, height: int, scale: int)

  /** Width and height of one cell before dividing by the scale. */
  const DefaultWH: int := 80

  /** The shipped specs, in the order they are added to the dictionary. */
  const Sizes: seq<OutputSpec> := [
    OutputSpec("UI.png", 400, 160, 4),
    OutputSpec("UI_2.png", 800, 320, 2),
    OutputSpec("UI_4.png", 1600, 640, 1)
  ]

  function Abs(x: int): nat
  {
    if x < 0 then -x else x
  }

  /**
   * The cell size `DefaultWH / scale`.  C# truncates an integer quotient
   * toward zero (and throws on a zero divisor), so the result is the one
   * integer whose product with the scale lies in (80 - |scale|, 80] and
   * has no sign of its own.
   */
  function CellSize(scale: int): (wh: int)
    requires scale != 0
    ensures 0 <= wh * scale <= DefaultWH < wh * scale + Abs(scale)
    ensures scale > 0 ==> wh >= 0
  {
    if scale > 0 then DefaultWH / scale else -(DefaultWH / -scale)
  }

  /** Number of cell rows in every sheet: the height of each spec over its cell size. */
  const GridRows: nat := 8

  /**
   * The three shipped specs give cells of 20, 40 and 80 pixels, and each
   * canvas is RowWidth cells wide and GridRows cells high.
   */
  lemma SizesCells()
    ensures |Sizes| == 3
    ensures CellSize(Sizes[0].scale) == 20
    ensures CellSize(Sizes[1].scale) == 40
    ensures CellSize(Sizes[2].scale) == 80
    ensures forall spec :: spec in Sizes ==>
      && spec.scale > 0
      && spec.width == Catalog.RowWidth * CellSize(spec.scale)
      && spec.height == GridRows * CellSize(spec.scale)
  {
    assert CellSize(4) == 20 && CellSize(2) == 40 && CellSize(1) == 80;
  }

  /**
   * The grid of the catalog fills every canvas: ImageRows has exactly
   * GridRows rows, none longer than RowWidth.
   */
  lemma SizesMatchGrid()
    ensures |Catalog.ImageRows| == GridRows
    ensures Catalog.FitsGrid(Catalog.ImageRows, GridRows)
  {
    Catalog.ImageRowsFit();
    Catalog.ImageRowsShape();
  }
}
