/**
 * The generator: for every output spec, in order, resolve the catalog at
 * that spec's cell size and composite it into one sheet.  Saving the sheet
 * as a PNG file is not modelled; a sheet is its file name, its canvas size
 * and the layers overlaid on the blank canvas.
 */
module Generator {
  import opened Wrappers
  import Catalog
  import opened Arith
  import opened Layout
  import opened Loader
  import opened Compositor

  /** One finished sprite sheet. */
  datatype Sheet = Sheet(fileName: string, width: int, height: int, layers: seq<Layer>)

  /** The sheet one spec produces from the given rows. */
  function SheetFor(spec: OutputSpec, rows: seq<seq<string>>, existing: set<string>, imagesPath: string,
                    cfg: Option<FilterConfig>): Sheet
    requires spec.scale != 0
  {
    var wh := CellSize(spec.scale);
    Sheet(spec.fileName, spec.width, spec.height,
      GridLayers(ResolveRows(rows, existing, imagesPath, wh), Pass(wh, spec.scale, cfg)))
  }

  /**
   * The loop of Main over the output specs: one sheet per spec, in the
   * order the specs were added, each built from freshly resolved rows at
   * that spec's cell size.  `rows` is the batched catalog, ImageRows.
   */
  method Generate(rows: seq<seq<string>>, existing: set<string>, imagesPath: string, cfg: Option<FilterConfig>)
    returns (sheets: seq<Sheet>)
    ensures |sheets| == |Sizes|
    ensures forall k :: 0 <= k < |Sizes| ==>
      sheets[k] == SheetFor(Sizes[k], rows, existing, imagesPath, cfg)
  {
    sheets := [];
    for k := 0 to |Sizes|
      invariant |sheets| == k
      invariant forall k' :: 0 <= k' < k ==>
        sheets[k'] == SheetFor(Sizes[k'], rows, existing, imagesPath, cfg)
    {
      var info := Sizes[k];
      var wh := CellSize(info.scale);
      var bitmaps := GetRowBitmaps(rows, existing, imagesPath, wh);
      var layers := Composite(bitmaps, wh, info.scale, cfg);
      sheets := sheets + [Sheet(info.fileName, info.width, info.height, layers)];
    }
  }

  /**
   * Every layer of every shipped sheet lies inside its canvas and is one
   * cell (20, 40 or 80 pixels) square, for any rows that fit the grid of
   * eight rows of twenty, as ImageRows does (Layout.SizesMatchGrid).
   */
  lemma SheetsFit(rows: seq<seq<string>>, existing: set<string>, imagesPath: string, cfg: Option<FilterConfig>, k: nat, l: Layer)
    requires Catalog.FitsGrid(rows, GridRows)
    requires k < |Sizes|
    requires l in SheetFor(Sizes[k], rows, existing, imagesPath, cfg).layers
    ensures l.width == l.height == CellSize(Sizes[k].scale)
    ensures 0 <= l.x && l.x + l.width <= Sizes[k].width
    ensures 0 <= l.y && l.y + l.height <= Sizes[k].height
  {
    SizesCells();
    var spec := Sizes[k];
    var wh := CellSize(spec.scale);
    var g := ResolveRows(rows, existing, imagesPath, wh);
    assert spec in Sizes;
    assert forall i :: 0 <= i < |g| ==> |g[i]| <= Catalog.RowWidth;
    GridLayersInBounds(g, Pass(wh, spec.scale, cfg), Catalog.RowWidth, l);
    MulLe(|g|, GridRows, wh);
  }

  /** The layers of every shipped sheet come in row-major order, no two at one origin. */
  lemma SheetsOrdered(rows: seq<seq<string>>, existing: set<string>, imagesPath: string, cfg: Option<FilterConfig>, k: nat)
    requires k < |Sizes|
    ensures var L := SheetFor(Sizes[k], rows, existing, imagesPath, cfg).layers;
      RowMajor(L) && forall a, b :: 0 <= a < b < |L| ==> (L[a].x, L[a].y) != (L[b].x, L[b].y)
  {
    SizesCells();
    var spec := Sizes[k];
    assert spec in Sizes;
    var wh := CellSize(spec.scale);
    GridLayersOrdered(ResolveRows(rows, existing, imagesPath, wh), Pass(wh, spec.scale, cfg));
  }

  lemma {:induction false} LoadedResolved(names: seq<string>, existing: set<string>, imagesPath: string, size: int)
    ensures Loaded(seq(|names|, j requires 0 <= j < |names| => Resolve(names[j], existing, imagesPath, size)))
      == WithSource(names, existing, imagesPath)
    decreases |names|
  {
    if names != [] {
      var cells := seq(|names|, j requires 0 <= j < |names| => Resolve(names[j], existing, imagesPath, size));
      var rest := seq(|names| - 1, j requires 0 <= j < |names| - 1 => Resolve(names[1..][j], existing, imagesPath, size));
      assert cells[1..] == rest;
      LoadedResolved(names[1..], existing, imagesPath, size);
    }
  }

  lemma WithSourceConcat(a: seq<string>, b: seq<string>, existing: set<string>, imagesPath: string)
    ensures WithSource(a + b, existing, imagesPath) == WithSource(a, existing, imagesPath) + WithSource(b, existing, imagesPath)
    decreases |a|
  {
    if a == [] {
      assert a + b == b;
    } else {
      assert (a + b)[0] == a[0];
      assert (a + b)[1..] == a[1..] + b;
      WithSourceConcat(a[1..], b, existing, imagesPath);
    }
  }

  lemma {:induction false} LoadedRows(rows: seq<seq<string>>, existing: set<string>, imagesPath: string, size: int)
    ensures Loaded(Catalog.Flatten(ResolveRows(rows, existing, imagesPath, size)))
      == WithSource(Catalog.Flatten(rows), existing, imagesPath)
    decreases |rows|
  {
    if rows != [] {
      var g := ResolveRows(rows, existing, imagesPath, size);
      assert g[1..] == ResolveRows(rows[1..], existing, imagesPath, size);
      LoadedRows(rows[1..], existing, imagesPath, size);
      LoadedResolved(rows[0], existing, imagesPath, size);
      LoadedConcat(g[0], Catalog.Flatten(g[1..]));
      WithSourceConcat(rows[0], Catalog.Flatten(rows[1..]), existing, imagesPath);
    }
  }

  /**
   * A shipped sheet holds one layer per name of the rows that has an SVG
   * or a PNG source, in row-major order, and none for the others; for
   * ImageRows that is the order of ImageIdx (Catalog.ImageRowsShape).
   */
  lemma SheetNames(rows: seq<seq<string>>, existing: set<string>, imagesPath: string, cfg: Option<FilterConfig>, k: nat)
    requires k < |Sizes|
    ensures Names(SheetFor(Sizes[k], rows, existing, imagesPath, cfg).layers)
      == WithSource(Catalog.Flatten(rows), existing, imagesPath)
  {
    SizesCells();
    var spec := Sizes[k];
    assert spec in Sizes;
    var wh := CellSize(spec.scale);
    var g := ResolveRows(rows, existing, imagesPath, wh);
    GridLayersNames(g, Pass(wh, spec.scale, cfg));
    LoadedRows(rows, existing, imagesPath, wh);
  }

  /**
   * Only the first sheet, UI.png at scale 4, can be sharpened: the other
   * two are the same with or without a filter configuration.
   */
  lemma OnlySmallestSheetSharpened(rows: seq<seq<string>>, existing: set<string>, imagesPath: string, cfg: Option<FilterConfig>, k: nat)
    requires 0 < k < |Sizes|
    ensures SheetFor(Sizes[k], rows, existing, imagesPath, cfg)
      == SheetFor(Sizes[k], rows, existing, imagesPath, None)
  {
    var spec := Sizes[k];
    assert spec.scale != 4;
    var wh := CellSize(spec.scale);
    NoSharpenOffScale4(ResolveRows(rows, existing, imagesPath, wh), wh, spec.scale, cfg);
  }

  /**
   * For rows that batch the catalog into the grid, as ImageRows does
   * (Catalog.ImageRowsShape, Layout.SizesMatchGrid), each of the three
   * sheets holds one layer per ImageIdx name with a source file, in
   * declaration order, each inside its canvas.
   */
  lemma CatalogSheets(rows: seq<seq<string>>, existing: set<string>, imagesPath: string, cfg: Option<FilterConfig>, k: nat)
    requires Catalog.Flatten(rows) == Catalog.ImageIdx && Catalog.FitsGrid(rows, GridRows)
    requires k < |Sizes|
    ensures var sheet := SheetFor(Sizes[k], rows, existing, imagesPath, cfg);
      && Names(sheet.layers) == WithSource(Catalog.ImageIdx, existing, imagesPath)
      && forall l :: l in sheet.layers ==>
           0 <= l.x && l.x + l.width <= sheet.width && 0 <= l.y && l.y + l.height <= sheet.height
  {
    SheetNames(rows, existing, imagesPath, cfg, k);
    var sheet := SheetFor(Sizes[k], rows, existing, imagesPath, cfg);
    forall l | l in sheet.layers
      ensures 0 <= l.x && l.x + l.width <= sheet.width && 0 <= l.y && l.y + l.height <= sheet.height
    {
      SheetsFit(rows, existing, imagesPath, cfg, k, l);
    }
  }
}
