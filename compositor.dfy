/**
 * The grid compositor: the nested loop that walks the rows of loaded cells
 * with two cursors and overlays one layer per loaded cell onto the canvas.
 * The canvas itself is not modelled; the result of a pass is the sequence
 * of layers handed to Overlay, in order.
 */
module Compositor {
  import opened Wrappers
  import opened Loader
  import Catalog
  import opened Arith

  /** The optional filter configuration read at start-up. */
  datatype FilterConfig = FilterConfig(applyFilterOn: seq<string>, sharpeningSize: int, sharpeningSigma: real)

  /** The image of a layer: the loaded bitmap, possibly passed through the Gaussian sharpen. */
  datatype LayerImage =
    | Plain(bitmap: Bitmap)
    | Sharpened(bitmap: Bitmap, kernelSize: int, sigma: real)

  /** One Overlay call: the image, its opacity, its position and its size. */
  datatype Layer = Layer(name: string, image: LayerImage, opacity: int, x: int, y: int, width: int, height: int)

  /** The settings of one output pass: cell size, scale and filter configuration. */
  datatype Pass = Pass(wh: int, scale: int, cfg: Option<FilterConfig>)

  /** The sharpen rule: only at scale 4, only with a configuration, only for listed names. */
  predicate ShouldSharpen(scale: int, cfg: Option<FilterConfig>, name: string)
  {
    scale == 4 && cfg.Some? && name in cfg.value.applyFilterOn
  }

  function ImageFor(b: Bitmap, name: string, p: Pass): LayerImage
  {
    if ShouldSharpen(p.scale, p.cfg, name)
    then Sharpened(b, p.cfg.value.sharpeningSize, p.cfg.value.sharpeningSigma)
    else Plain(b)
  }

  /** The layer of a loaded cell at row i, column j. */
  function Placed(b: Bitmap, name: string, i: int, j: int, p: Pass): Layer
  {
    Layer(name, ImageFor(b, name, p), 100, j * p.wh, i * p.wh, p.wh, p.wh)
  }

  /** What a cell contributes: one layer when loaded, nothing when absent. */
  function CellLayers(cell: Cell, i: int, j: int, p: Pass): seq<Layer>
  {
    match cell.data
    case None => []
    case Some(b) => [Placed(b, cell.name, i, j, p)]
  }

  /** The layers of row i, cell by cell in column order. */
  function RowLayers(cells: seq<Cell>, i: int, p: Pass): seq<Layer>
  {
    if cells == [] then []
    else RowLayers(cells[..|cells| - 1], i, p) + CellLayers(cells[|cells| - 1], i, |cells| - 1, p)
  }

  /** The layers of the whole grid, row by row. */
  function GridLayers(g: seq<seq<Cell>>, p: Pass): seq<Layer>
  {
    if g == [] then []
    else GridLayers(g[..|g| - 1], p) + RowLayers(g[|g| - 1], |g| - 1, p)
  }

  /** Extending a row prefix by one cell appends that cell's layers. */
  lemma RowLayersStep(row: seq<Cell>, i: int, j: nat, p: Pass)
    requires j < |row|
    ensures RowLayers(row[..j + 1], i, p) == RowLayers(row[..j], i, p) + CellLayers(row[j], i, j, p)
  {
    assert row[..j + 1][..j] == row[..j];
  }

  /** Extending a grid prefix by one row appends that row's layers. */
  lemma GridLayersStep(g: seq<seq<Cell>>, i: nat, p: Pass)
    requires i < |g|
    ensures GridLayers(g[..i + 1], p) == GridLayers(g[..i], p) + RowLayers(g[i], i, p)
  {
    assert g[..i + 1][..i] == g[..i];
  }

  /**
   * The compositing loop of one output pass.  originX restarts at 0 on
   * every row and grows by wh after every cell, loaded or not; originY
   * grows by wh after every row; an absent cell gives no layer.
   */
  method Composite(bitmaps: seq<seq<Cell>>, wh: int, scale: int, cfg: Option<FilterConfig>)
    returns (layers: seq<Layer>)
    ensures layers == GridLayers(bitmaps, Pass(wh, scale, cfg))
  {
    ghost var p := Pass(wh, scale, cfg);
    layers := [];
    var originY := 0;
    var i := 0;
    while i < |bitmaps|
      invariant 0 <= i <= |bitmaps|
      invariant originY == i * wh
      invariant layers == GridLayers(bitmaps[..i], p)
    {
      var row := bitmaps[i];
      var originX := 0;
      var j := 0;
      while j < |row|
        invariant 0 <= j <= |row|
        invariant originX == j * wh
        invariant layers == GridLayers(bitmaps[..i], p) + RowLayers(row[..j], i, p)
      {
        var image := row[j];
        RowLayersStep(row, i, j, p);
        MulSucc(j, wh);
        if image.data.None? {
          originX := originX + wh;
          j := j + 1;
          continue;
        }
        var layerImage := Plain(image.data.value);
        if scale == 4 {
          if cfg.Some? {
            if image.name in cfg.value.applyFilterOn {
              layerImage := Sharpened(image.data.value, cfg.value.sharpeningSize, cfg.value.sharpeningSigma);
            }
          }
        }
        var layer := Layer(image.name, layerImage, 100, originX, originY, wh, wh);
        layers := layers + [layer];
        originX := originX + wh;
        j := j + 1;
      }
      assert row[..j] == row;
      GridLayersStep(bitmaps, i, p);
      MulSucc(i, wh);
      originY := originY + wh;
      i := i + 1;
    }
    assert bitmaps[..i] == bitmaps;
  }

  /**
   * A layer belongs to a row exactly when some loaded cell of the row,
   * at column j, produces it: every loaded cell is placed at (j * wh, i * wh)
   * whatever the other cells hold.
   */
  lemma {:induction false} RowLayersMembers(cells: seq<Cell>, i: int, p: Pass, l: Layer)
    ensures l in RowLayers(cells, i, p) <==>
      exists j :: 0 <= j < |cells| && cells[j].data.Some? && l == Placed(cells[j].data.value, cells[j].name, i, j, p)
    decreases |cells|
  {
    if cells != [] {
      var n := |cells|;
      var front := cells[..n - 1];
      RowLayersMembers(front, i, p, l);
      if exists j :: 0 <= j < |front| && front[j].data.Some? && l == Placed(front[j].data.value, front[j].name, i, j, p) {
        var j :| 0 <= j < |front| && front[j].data.Some? && l == Placed(front[j].data.value, front[j].name, i, j, p);
        assert cells[j] == front[j];
      }
      if exists j :: 0 <= j < n && cells[j].data.Some? && l == Placed(cells[j].data.value, cells[j].name, i, j, p) {
        var j :| 0 <= j < n && cells[j].data.Some? && l == Placed(cells[j].data.value, cells[j].name, i, j, p);
        if j < n - 1 {
          assert front[j] == cells[j];
        }
      }
    }
  }

  /**
   * A layer belongs to the grid exactly when some loaded cell, at row i and
   * column j, produces it.
   */
  lemma {:induction false} GridLayersMembers(g: seq<seq<Cell>>, p: Pass, l: Layer)
    ensures l in GridLayers(g, p) <==>
      exists i, j :: 0 <= i < |g| && 0 <= j < |g[i]| && g[i][j].data.Some? &&
        l == Placed(g[i][j].data.value, g[i][j].name, i, j, p)
    decreases |g|
  {
    if g != [] {
      var n := |g|;
      var front := g[..n - 1];
      GridLayersMembers(front, p, l);
      RowLayersMembers(g[n - 1], n - 1, p, l);
      if exists i, j :: 0 <= i < |front| && 0 <= j < |front[i]| && front[i][j].data.Some? &&
          l == Placed(front[i][j].data.value, front[i][j].name, i, j, p) {
        var i, j :| 0 <= i < |front| && 0 <= j < |front[i]| && front[i][j].data.Some? &&
          l == Placed(front[i][j].data.value, front[i][j].name, i, j, p);
        assert g[i] == front[i];
      }
      if exists i, j :: 0 <= i < n && 0 <= j < |g[i]| && g[i][j].data.Some? &&
          l == Placed(g[i][j].data.value, g[i][j].name, i, j, p) {
        var i, j :| 0 <= i < n && 0 <= j < |g[i]| && g[i][j].data.Some? &&
          l == Placed(g[i][j].data.value, g[i][j].name, i, j, p);
        if i < n - 1 {
          assert front[i] == g[i];
        }
      }
    }
  }

  /**
   * With a non-negative cell size every layer of a grid whose rows hold at
   * most `cols` cells lies inside a canvas of cols * wh by |g| * wh pixels,
   * is wh by wh and at full opacity.
   */
  lemma GridLayersInBounds(g: seq<seq<Cell>>, p: Pass, cols: int, l: Layer)
    requires p.wh >= 0
    requires forall i :: 0 <= i < |g| ==> |g[i]| <= cols
    requires l in GridLayers(g, p)
    ensures 0 <= l.x && l.x + l.width <= cols * p.wh
    ensures 0 <= l.y && l.y + l.height <= |g| * p.wh
    ensures l.width == p.wh && l.height == p.wh && l.opacity == 100
  {
    GridLayersMembers(g, p, l);
    var i, j :| 0 <= i < |g| && 0 <= j < |g[i]| && g[i][j].data.Some? &&
      l == Placed(g[i][j].data.value, g[i][j].name, i, j, p);
    MulLe(0, j, p.wh);
    MulLe(j + 1, cols, p.wh);
    MulLe(0, i, p.wh);
    MulLe(i + 1, |g|, p.wh);
    MulSucc(j, p.wh);
    MulSucc(i, p.wh);
  }

  /**
   * A layer of a pass is sharpened exactly when the sharpen rule holds for
   * its name: never without a configuration, never at a scale other than 4.
   */
  lemma GridLayersSharpened(g: seq<seq<Cell>>, p: Pass, l: Layer)
    requires l in GridLayers(g, p)
    ensures l.image.Sharpened? <==> ShouldSharpen(p.scale, p.cfg, l.name)
    ensures l.image.Sharpened? ==>
      l.image.kernelSize == p.cfg.value.sharpeningSize && l.image.sigma == p.cfg.value.sharpeningSigma
  {
    GridLayersMembers(g, p, l);
  }

  /** Layer a comes strictly before layer b in row-major order. */
  predicate Before(a: Layer, b: Layer)
  {
    a.y < b.y || (a.y == b.y && a.x < b.x)
  }

  /** All layers lie at height y, in strictly increasing x. */
  predicate LeftToRight(L: seq<Layer>, y: int)
  {
    forall a, b :: 0 <= a < b < |L| ==> L[a].y == y && L[b].y == y && L[a].x < L[b].x
  }

  /** The layers come in strictly row-major order. */
  predicate RowMajor(L: seq<Layer>)
  {
    forall a, b :: 0 <= a < b < |L| ==> Before(L[a], L[b])
  }

  /** Within a row, layers come in strictly increasing x at the row's y. */
  lemma {:induction false} RowLayersOrdered(cells: seq<Cell>, i: int, p: Pass)
    requires p.wh > 0
    ensures LeftToRight(RowLayers(cells, i, p), i * p.wh)
    decreases |cells|
  {
    if cells != [] {
      var n := |cells|;
      var front := cells[..n - 1];
      RowLayersOrdered(front, i, p);
      var F := RowLayers(front, i, p);
      var C := CellLayers(cells[n - 1], i, n - 1, p);
      assert RowLayers(cells, i, p) == F + C;
      forall a | 0 <= a < |F|
        ensures F[a].x < (n - 1) * p.wh && F[a].y == i * p.wh
      {
        RowLayersMembers(front, i, p, F[a]);
        var j :| 0 <= j < |front| && front[j].data.Some? && F[a] == Placed(front[j].data.value, front[j].name, i, j, p);
        MulLe(j + 1, n - 1, p.wh);
        MulSucc(j, p.wh);
      }
      AppendLeftToRight(F, C, i * p.wh, (n - 1) * p.wh);
    }
  }

  /** Appending at most one layer at (x, y) to the right of a left-to-right run at y. */
  lemma AppendLeftToRight(F: seq<Layer>, C: seq<Layer>, y: int, x: int)
    requires LeftToRight(F, y)
    requires |C| <= 1 && forall c :: c in C ==> c.x == x && c.y == y
    requires forall a :: 0 <= a < |F| ==> F[a].x < x && F[a].y == y
    ensures LeftToRight(F + C, y)
  {
    var L := F + C;
    forall a, b | 0 <= a < b < |L|
      ensures L[a].y == y && L[b].y == y && L[a].x < L[b].x
    {
      if b < |F| {
        assert L[a] == F[a] && L[b] == F[b];
      } else {
        assert L[a] == F[a] && L[b] in C;
      }
    }
  }

  /** Every layer of a grid lies above row |g|. */
  lemma GridLayersAbove(g: seq<seq<Cell>>, p: Pass, l: Layer)
    requires p.wh > 0
    requires l in GridLayers(g, p)
    ensures l.y < |g| * p.wh
  {
    GridLayersMembers(g, p, l);
    var i, j :| 0 <= i < |g| && 0 <= j < |g[i]| && g[i][j].data.Some? &&
      l == Placed(g[i][j].data.value, g[i][j].name, i, j, p);
    MulLe(i + 1, |g|, p.wh);
    MulSucc(i, p.wh);
  }

  /** A row-major run followed by a row strictly below it is row-major. */
  lemma AppendRowMajor(F: seq<Layer>, R: seq<Layer>, y: int)
    requires RowMajor(F) && LeftToRight(R, y)
    requires forall a :: 0 <= a < |F| ==> F[a].y < y
    requires forall r :: r in R ==> r.y == y
    ensures RowMajor(F + R)
  {
    var L := F + R;
    forall a, b | 0 <= a < b < |L|
      ensures Before(L[a], L[b])
    {
      if b < |F| {
        assert L[a] == F[a] && L[b] == F[b];
      } else if a >= |F| {
        assert L[a] == R[a - |F|] && L[b] == R[b - |F|];
      } else {
        assert L[a] == F[a] && L[b] in R;
      }
    }
  }

  /**
   * The layers of a pass come in strictly row-major order of their
   * origins (the order of the cells in the grid), so no two layers share
   * an origin.
   */
  lemma {:induction false} GridLayersOrdered(g: seq<seq<Cell>>, p: Pass)
    requires p.wh > 0
    ensures RowMajor(GridLayers(g, p))
    ensures var L := GridLayers(g, p);
      forall a, b :: 0 <= a < b < |L| ==> (L[a].x, L[a].y) != (L[b].x, L[b].y)
    decreases |g|
  {
    if g != [] {
      var n := |g|;
      var front := g[..n - 1];
      GridLayersOrdered(front, p);
      RowLayersOrdered(g[n - 1], n - 1, p);
      var F := GridLayers(front, p);
      var R := RowLayers(g[n - 1], n - 1, p);
      assert GridLayers(g, p) == F + R;
      forall a | 0 <= a < |F|
        ensures F[a].y < (n - 1) * p.wh
      {
        GridLayersAbove(front, p, F[a]);
      }
      forall r | r in R
        ensures r.y == (n - 1) * p.wh
      {
        RowLayersMembers(g[n - 1], n - 1, p, r);
      }
      AppendRowMajor(F, R, (n - 1) * p.wh);
    }
    var L := GridLayers(g, p);
    assert RowMajor(L);
    forall a, b | 0 <= a < b < |L|
      ensures (L[a].x, L[a].y) != (L[b].x, L[b].y)
    {
      assert Before(L[a], L[b]);
    }
  }

  /** The row with the data of column j taken away, as when its sources are missing. */
  function DropCell(cells: seq<Cell>, j: nat): seq<Cell>
    requires j < |cells|
  {
    cells[j := Cell(None, cells[j].name)]
  }

  /** The grid with the data of row i, column j taken away. */
  function DropData(g: seq<seq<Cell>>, i: nat, j: nat): seq<seq<Cell>>
    requires i < |g| && j < |g[i]|
  {
    g[i := DropCell(g[i], j)]
  }

  /** L' is L with its element k, which is `placed`, taken out. */
  predicate RemovedAt(L: seq<Layer>, L': seq<Layer>, k: int, placed: Layer)
  {
    0 <= k < |L| && L[k] == placed && L' == L[..k] + L[k + 1..]
  }

  /** Removing an element of the left part of a concatenation. */
  lemma RemovedAtLeft(F: seq<Layer>, F': seq<Layer>, C: seq<Layer>, k: int, placed: Layer)
    requires RemovedAt(F, F', k, placed)
    ensures RemovedAt(F + C, F' + C, k, placed)
  {
    var L := F + C;
    assert L[..k] == F[..k];
    assert L[k + 1..] == F[k + 1..] + C;
  }

  /** Removing an element of the right part of a concatenation. */
  lemma RemovedAtRight(F: seq<Layer>, R: seq<Layer>, R': seq<Layer>, r: int, placed: Layer)
    requires RemovedAt(R, R', r, placed)
    ensures RemovedAt(F + R, F + R', |F| + r, placed)
  {
    var L := F + R;
    assert L[..|F| + r] == F + R[..r];
    assert L[|F| + r + 1..] == R[r + 1..];
  }

  /**
   * Removing the data of one loaded cell of a row removes exactly that
   * cell's layer and leaves every other layer, in order.
   */
  lemma {:induction false} RowDropOne(cells: seq<Cell>, i: int, j: nat, p: Pass)
    requires j < |cells| && cells[j].data.Some?
    ensures exists k :: RemovedAt(RowLayers(cells, i, p), RowLayers(DropCell(cells, j), i, p), k,
      Placed(cells[j].data.value, cells[j].name, i, j, p))
    decreases |cells|
  {
    var n := |cells|;
    var cells' := DropCell(cells, j);
    var front := cells[..n - 1];
    var F := RowLayers(front, i, p);
    var placed := Placed(cells[j].data.value, cells[j].name, i, j, p);
    assert RowLayers(cells, i, p) == F + CellLayers(cells[n - 1], i, n - 1, p);
    assert RowLayers(cells', i, p) == RowLayers(cells'[..n - 1], i, p) + CellLayers(cells'[n - 1], i, n - 1, p);
    if j == n - 1 {
      assert cells'[..n - 1] == front;
      RemovedAtRight(F, [placed], [], 0, placed);
      assert F + [] == F;
      assert RemovedAt(RowLayers(cells, i, p), RowLayers(cells', i, p), |F|, placed);
    } else {
      assert cells'[..n - 1] == DropCell(front, j);
      assert cells'[n - 1] == cells[n - 1];
      RowDropOne(front, i, j, p);
      var k :| RemovedAt(F, RowLayers(DropCell(front, j), i, p), k, placed);
      RemovedAtLeft(F, RowLayers(DropCell(front, j), i, p), CellLayers(cells[n - 1], i, n - 1, p), k, placed);
    }
  }

  /**
   * Removing the data of the cell at row i, column j removes exactly the
   * layer that cell produced; every other layer stays, in the same order.
   */
  lemma {:induction false} GridDropOne(g: seq<seq<Cell>>, i: nat, j: nat, p: Pass)
    requires i < |g| && j < |g[i]| && g[i][j].data.Some?
    ensures exists k :: RemovedAt(GridLayers(g, p), GridLayers(DropData(g, i, j), p), k,
      Placed(g[i][j].data.value, g[i][j].name, i, j, p))
    decreases |g|
  {
    var n := |g|;
    var g' := DropData(g, i, j);
    var front := g[..n - 1];
    var F := GridLayers(front, p);
    var R := RowLayers(g[n - 1], n - 1, p);
    var placed := Placed(g[i][j].data.value, g[i][j].name, i, j, p);
    assert GridLayers(g, p) == F + R;
    assert GridLayers(g', p) == GridLayers(g'[..n - 1], p) + RowLayers(g'[n - 1], n - 1, p);
    if i == n - 1 {
      assert g'[..n - 1] == front;
      assert g'[n - 1] == DropCell(g[i], j);
      RowDropOne(g[i], i, j, p);
      var r :| RemovedAt(R, RowLayers(DropCell(g[i], j), i, p), r, placed);
      RemovedAtRight(F, R, RowLayers(DropCell(g[i], j), i, p), r, placed);
    } else {
      assert g'[..n - 1] == DropData(front, i, j);
      assert g'[n - 1] == g[n - 1];
      GridDropOne(front, i, j, p);
      var k :| RemovedAt(F, GridLayers(DropData(front, i, j), p), k, placed);
      RemovedAtLeft(F, GridLayers(DropData(front, i, j), p), R, k, placed);
    }
  }

  /** The names of the loaded cells, in order. */
  function Loaded(cells: seq<Cell>): seq<string>
  {
    if cells == [] then []
    else (if cells[0].data.Some? then [cells[0].name] else []) + Loaded(cells[1..])
  }

  /** The names of a sequence of layers. */
  function Names(L: seq<Layer>): (names: seq<string>)
    ensures |names| == |L| && forall k :: 0 <= k < |L| ==> names[k] == L[k].name
  {
    if L == [] then [] else [L[0].name] + Names(L[1..])
  }

  lemma {:induction false} LoadedConcat(a: seq<Cell>, b: seq<Cell>)
    ensures Loaded(a + b) == Loaded(a) + Loaded(b)
    decreases |a|
  {
    if a == [] {
      assert a + b == b;
    } else {
      assert (a + b)[0] == a[0];
      assert (a + b)[1..] == a[1..] + b;
      LoadedConcat(a[1..], b);
    }
  }

  lemma {:induction false} FlattenSnoc(g: seq<seq<Cell>>, row: seq<Cell>)
    ensures Catalog.Flatten(g + [row]) == Catalog.Flatten(g) + row
    decreases |g|
  {
    if g == [] {
      assert [] + [row] == [row];
      assert [row][1..] == [];
    } else {
      assert (g + [row])[0] == g[0];
      assert (g + [row])[1..] == g[1..] + [row];
      FlattenSnoc(g[1..], row);
    }
  }

  lemma NamesConcat(A: seq<Layer>, B: seq<Layer>)
    ensures Names(A + B) == Names(A) + Names(B)
  {
  }

  /** The layers of a row carry the names of its loaded cells, in column order. */
  lemma {:induction false} RowLayersNames(cells: seq<Cell>, i: int, p: Pass)
    ensures Names(RowLayers(cells, i, p)) == Loaded(cells)
    decreases |cells|
  {
    if cells != [] {
      var n := |cells|;
      var front := cells[..n - 1];
      RowLayersNames(front, i, p);
      assert cells == front + [cells[n - 1]];
      LoadedConcat(front, [cells[n - 1]]);
      NamesConcat(RowLayers(front, i, p), CellLayers(cells[n - 1], i, n - 1, p));
    }
  }

  /**
   * The layers of a pass carry the names of the loaded cells in row-major
   * order: one layer per loaded cell, in the order of the catalog.
   */
  lemma {:induction false} GridLayersNames(g: seq<seq<Cell>>, p: Pass)
    ensures Names(GridLayers(g, p)) == Loaded(Catalog.Flatten(g))
    decreases |g|
  {
    if g != [] {
      var n := |g|;
      var front := g[..n - 1];
      GridLayersNames(front, p);
      RowLayersNames(g[n - 1], n - 1, p);
      assert g == front + [g[n - 1]];
      FlattenSnoc(front, g[n - 1]);
      LoadedConcat(Catalog.Flatten(front), g[n - 1]);
      NamesConcat(GridLayers(front, p), RowLayers(g[n - 1], n - 1, p));
    }
  }

  /** A plain layer as a configuration `c` at `scale` would leave or sharpen it. */
  function Retouch(l: Layer, scale: int, c: FilterConfig): Layer
    requires l.image.Plain?
  {
    if ShouldSharpen(scale, Some(c), l.name)
    then l.(image := Sharpened(l.image.bitmap, c.sharpeningSize, c.sharpeningSigma))
    else l
  }

  /** L is L0, layer by layer, as configuration c at scale retouches it. */
  predicate RetouchedFrom(L: seq<Layer>, L0: seq<Layer>, scale: int, c: FilterConfig)
  {
    |L| == |L0| && forall k :: 0 <= k < |L| ==> L0[k].image.Plain? && L[k] == Retouch(L0[k], scale, c)
  }

  lemma RetouchedConcat(A: seq<Layer>, A0: seq<Layer>, B: seq<Layer>, B0: seq<Layer>, scale: int, c: FilterConfig)
    requires RetouchedFrom(A, A0, scale, c) && RetouchedFrom(B, B0, scale, c)
    ensures RetouchedFrom(A + B, A0 + B0, scale, c)
  {
    forall k | 0 <= k < |A| + |B|
      ensures (A0 + B0)[k].image.Plain? && (A + B)[k] == Retouch((A0 + B0)[k], scale, c)
    {
      if k < |A| {
        assert (A + B)[k] == A[k] && (A0 + B0)[k] == A0[k];
      } else {
        assert (A + B)[k] == B[k - |A|] && (A0 + B0)[k] == B0[k - |A|];
      }
    }
  }

  lemma {:induction false} RowRetouched(cells: seq<Cell>, i: int, wh: int, scale: int, c: FilterConfig)
    ensures RetouchedFrom(RowLayers(cells, i, Pass(wh, scale, Some(c))), RowLayers(cells, i, Pass(wh, scale, None)), scale, c)
    decreases |cells|
  {
    if cells != [] {
      var n := |cells|;
      var front := cells[..n - 1];
      RowRetouched(front, i, wh, scale, c);
      RetouchedConcat(RowLayers(front, i, Pass(wh, scale, Some(c))), RowLayers(front, i, Pass(wh, scale, None)),
        CellLayers(cells[n - 1], i, n - 1, Pass(wh, scale, Some(c))), CellLayers(cells[n - 1], i, n - 1, Pass(wh, scale, None)),
        scale, c);
    }
  }

  /**
   * A configuration changes a pass only by sharpening the layers the
   * sharpen rule selects: the same layers, in the same places, with only
   * the listed names at scale 4 sharpened.
   */
  lemma {:induction false} SharpenScope(g: seq<seq<Cell>>, wh: int, scale: int, c: FilterConfig)
    ensures RetouchedFrom(GridLayers(g, Pass(wh, scale, Some(c))), GridLayers(g, Pass(wh, scale, None)), scale, c)
    decreases |g|
  {
    if g != [] {
      var n := |g|;
      var front := g[..n - 1];
      SharpenScope(front, wh, scale, c);
      RowRetouched(g[n - 1], n - 1, wh, scale, c);
      RetouchedConcat(GridLayers(front, Pass(wh, scale, Some(c))), GridLayers(front, Pass(wh, scale, None)),
        RowLayers(g[n - 1], n - 1, Pass(wh, scale, Some(c))), RowLayers(g[n - 1], n - 1, Pass(wh, scale, None)),
        scale, c);
    }
  }

  /** At scales 1 and 2 (any scale but 4) a configuration changes nothing. */
  lemma NoSharpenOffScale4(g: seq<seq<Cell>>, wh: int, scale: int, cfg: Option<FilterConfig>)
    requires scale != 4
    ensures GridLayers(g, Pass(wh, scale, cfg)) == GridLayers(g, Pass(wh, scale, None))
  {
    if cfg.Some? {
      var L := GridLayers(g, Pass(wh, scale, cfg));
      var L0 := GridLayers(g, Pass(wh, scale, None));
      SharpenScope(g, wh, scale, cfg.value);
      assert forall k :: 0 <= k < |L| ==> L[k] == L0[k];
    }
  }
}
