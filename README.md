# BeefIDEThemeGen sprite-sheet layout, modelled in Dafny

BeefIDEThemeGen builds the sprite sheets of a Beef IDE theme. It takes the
158 icon names of the `ImageIdx` enumeration and packs them, in declaration
order, into rows of 20 cells. For each of three output specs (`UI.png` at
scale 4, `UI_2.png` at scale 2, `UI_4.png` at scale 1) it does three things:

- It loads every icon at the cell size `80 / scale`. An SVG source is
  preferred, then a PNG source; with neither, the cell is left empty.
- It can sharpen an icon. This happens only at scale 4, only when a filter
  configuration is present, and only for the names that configuration lists.
- It overlays every loaded icon onto a blank canvas. The overlay is done by
  a nested loop with two cursors that step by one cell.

This project models that layout logic and proves what it guarantees. Pixels
are not modelled: a loaded icon is a `Bitmap` token that records
- the file it came from,
- its size,
- the rendering path taken.

A sheet is the sequence of overlay layers, in the order `Overlay` receives
them.

Modules, one per component of `Program.cs`:

- `Catalog` (catalog.dfy): the names of `ImageIdx`, MoreLinq's `Batch`, the
  rows `ImageRows`, and the grid position of each index.
- `Layout` (layout.dfy): the output specs `Sizes` and the cell size, using
  C#'s truncating integer division.
- `Loader` (loader.dfy): how each name's source is chosen (`Resolve`), the
  `GetRowBitmaps` loop, and the special SVG path test, which is C#'s ordinal
  `String.Contains`.
- `Compositor` (compositor.dfy): the compositing loop `Composite`, proved
  against the specification function `GridLayers`, plus the lemmas about
  placements, order, skipped cells and sharpening.
- `Generator` (generator.dfy): `Main`'s loop over the output specs, plus the
  lemmas about the finished sheets.
- `Wrappers` (wrappers.dfy): `Option`, which stands for a nullable
  reference.
- `Arith` (arith.dfy): the facts about products that the layout proofs use.

Three behaviours of the code are worth stating plainly:

- **Sharpening scale.** Sharpening happens at scale 4, on the 20-pixel cells
  of `UI.png` (Program.cs:103). The comment there calls this the smallest
  scale.
- **Special-path test.** The test reads the whole file path, directory
  included, and looks for "DropShadow", "GlowDot" or "WhiteCircle"
  (Program.cs:195). `Loader.SpecialPath` relates it to the images directory
  and the asset name.
- **Load failures.** No exception from `SvgDocument.Open` or from the PNG
  loader is caught, so a malformed file ends the run.

## Model

| member | source | states |
|---|---|---|
| `Catalog.Batch` | BeefIDEThemeGen/Program.cs:50-52 | concatenating the rows gives back the input; every row is non-empty and holds at most `size` elements; every row but the last holds exactly `size` |
| `Catalog.BatchCount` | BeefIDEThemeGen/Program.cs:50-52 | the input is empty exactly when there are no rows; otherwise its length is (rows - 1) full rows plus the last row |
| `Catalog.BatchLocate` | BeefIDEThemeGen/Program.cs:50-52 | the element at row r, column c is input element `r * size + c` |
| `Catalog.BatchIndex` | BeefIDEThemeGen/Program.cs:50-52 | input index k lands at row `k / size`, column `k % size` |
| `Catalog.Batch158` | BeefIDEThemeGen/Program.cs:50-52 | 158 names batched by 20 give 8 rows, the last holding 18 |
| `Catalog.ImageRowsShape` | BeefIDEThemeGen/Program.cs:214-388 | `ImageRows` has 8 rows, the first 7 holding 20 names and the last 18, and the rows read in order give `ImageIdx` |
| `Catalog.ImageRowsPosition` | BeefIDEThemeGen/Program.cs:50-52 | catalog index k is at row `k / 20`, column `k % 20` of `ImageRows`; distinct indices have distinct cells |
| `Catalog.ImageRowsFit` | BeefIDEThemeGen/Program.cs:50-52 | `ImageRows` fits a grid of 8 rows of 20 names |
| `Layout.CellSize` | BeefIDEThemeGen/Program.cs:74 | `80 / scale` with C# truncation: the one integer whose product with the scale lies in `(80 - abs(scale), 80]` and is non-negative |
| `Layout.SizesCells` | BeefIDEThemeGen/Program.cs:46-48 | the three specs give cells of 20, 40 and 80 pixels; each width is 20 cells and each height 8 cells |
| `Layout.SizesMatchGrid` | BeefIDEThemeGen/Program.cs:46-52 | `ImageRows` has exactly as many rows as each canvas has cell rows, and no row is wider than a canvas |
| `Loader.ContainsAt` | BeefIDEThemeGen/Program.cs:195 | the recursive substring search is true exactly when the substring occurs at some index |
| `Loader.Resolve` | BeefIDEThemeGen/Program.cs:146-165 | an entry keeps its name; its data is absent exactly when neither source file exists; loaded data has the requested size and comes from an existing file |
| `Loader.ResolveByPriority` | BeefIDEThemeGen/Program.cs:151-163 | resolution equals "first existing format of the list [svg, png]"; an SVG wins even when a PNG exists; a PNG is used only without an SVG |
| `Loader.SpecialPath` | BeefIDEThemeGen/Program.cs:190-195 | for any images directory (Program.cs:54-55 builds it), the SVG path holds one of "DropShadow", "GlowDot" or "WhiteCircle" exactly when the directory or the asset name holds one |
| `Loader.SpecialPathByName` | BeefIDEThemeGen/Program.cs:195 | for an images directory without a marker, the special SVG path is taken exactly when the asset name holds a marker |
| `Loader.SpecialPathByDirectory` | BeefIDEThemeGen/Program.cs:151-155 | for an images directory with a marker, every name with an SVG source is loaded on the special sized path |
| `Loader.GetRowBitmaps` | BeefIDEThemeGen/Program.cs:138-172 | the result has the shape of the rows, and entry (i, j) is the resolution of name (i, j) |
| `Compositor.Composite` | BeefIDEThemeGen/Program.cs:84-126 | the cursor loop emits exactly the layers of `GridLayers`: its invariants keep `originX == j * wh` and `originY == i * wh`, whether or not the cell was loaded |
| `Compositor.RowLayersMembers` | BeefIDEThemeGen/Program.cs:88-122 | a layer belongs to row i exactly when a loaded cell at column j produces it at `(j * wh, i * wh)` |
| `Compositor.GridLayersMembers` | BeefIDEThemeGen/Program.cs:84-125 | a layer belongs to a pass exactly when a loaded cell at row i, column j produces it at `(j * wh, i * wh)`, wh by wh |
| `Compositor.GridLayersInBounds` | BeefIDEThemeGen/Program.cs:108-114 | with rows of at most `cols` cells, every layer lies within `cols * wh` by `rows * wh`, is wh by wh and has opacity 100 |
| `Compositor.GridLayersSharpened` | BeefIDEThemeGen/Program.cs:103-106 | a layer is sharpened, with the configured kernel size and sigma, exactly when the scale is 4, a configuration is present and it lists the layer's name |
| `Compositor.RowLayersOrdered` | BeefIDEThemeGen/Program.cs:88-122 | within a row, layers share the row's y and have strictly increasing x |
| `Compositor.GridLayersOrdered` | BeefIDEThemeGen/Program.cs:85-125 | the layers of a pass are in strict row-major order, so no two share an origin |
| `Compositor.RowDropOne` | BeefIDEThemeGen/Program.cs:90-96 | removing the data of one loaded cell of a row removes that cell's layer and keeps every other layer, in order |
| `Compositor.GridDropOne` | BeefIDEThemeGen/Program.cs:90-96 | removing the data of one loaded cell removes exactly that cell's layer from the pass and keeps every other layer, in order |
| `Compositor.RowLayersNames` | BeefIDEThemeGen/Program.cs:88-122 | the layers of a row carry the names of its loaded cells, in column order |
| `Compositor.GridLayersNames` | BeefIDEThemeGen/Program.cs:85-125 | the layers of a pass carry the names of the loaded cells in row-major order, one layer per loaded cell |
| `Compositor.SharpenScope` | BeefIDEThemeGen/Program.cs:103-106 | compared with no configuration, a configuration keeps the same layers in the same places, sharpening exactly the listed names at scale 4 |
| `Compositor.NoSharpenOffScale4` | BeefIDEThemeGen/Program.cs:103 | at any scale other than 4, a pass is the same with or without a configuration |
| `Generator.Generate` | BeefIDEThemeGen/Program.cs:70-126 | one sheet per output spec, in insertion order, each the compositing of freshly resolved rows at that spec's cell size |
| `Generator.SheetsFit` | BeefIDEThemeGen/Program.cs:74-113 | on rows fitting 8 by 20 cells, every layer of every sheet is one cell square and lies inside that sheet's canvas |
| `Generator.SheetsOrdered` | BeefIDEThemeGen/Program.cs:84-125 | the layers of every sheet are in strict row-major order, with distinct origins |
| `Generator.SheetNames` | BeefIDEThemeGen/Program.cs:77-118 | a sheet has one layer per name with an SVG or PNG source, in row-major order, and none for the other names |
| `Generator.OnlySmallestSheetSharpened` | BeefIDEThemeGen/Program.cs:103-106 | `UI_2.png` and `UI_4.png` are the same with or without a filter configuration |
| `Generator.CatalogSheets` | BeefIDEThemeGen/Program.cs:70-126 | for rows that batch `ImageIdx` into the grid, every sheet has one layer per catalog name with a source, in declaration order, each inside the canvas |

## Left out

- The pixel work is not modelled: resizing, overlaying, Gaussian sharpening, SVG rasterisation and `Bitmap` construction are all foreign library calls. A loaded icon is a `Bitmap(path, size, route)` token, and sharpening is the `Sharpened` wrapper of `LayerImage`. Alpha blending and the transparent canvas are therefore not modelled.
- Loading `FilterConfig.yaml` with YamlDotNet is not modelled. The C# `FilterConfig` class is not among the modelled source files. The model's optional `FilterConfig` record holds the three fields `Main` reads: `ApplyFilterOn`, `SharpeningSize` and `SharpeningSigma`. A configuration whose `ApplyFilterOn` is null would raise an exception; that case is not modelled.
- File I/O is left out. `File.Exists` becomes membership in a set of existing full paths, and the images directory path is a parameter. Building paths from `Environment.CurrentDirectory` and saving the PNG output are not modelled.
- Exceptions from `SvgDocument.Open` or from the image loader are not modelled: the model has no notion of a malformed file. In the source such an exception is not caught, so it ends the run.
- Logging with Serilog and the closing `Console.ReadLine` are I/O only.
- The `Sizes` dictionary is modelled as a sequence in insertion order. This is the order in which C# enumerates a dictionary that has never had an entry removed.
- `originX` and `originY` are 32-bit in the source. They never exceed 1600 here, so overflow is not modelled.
- Which of the 158 catalog names take the special SVG path (`GlowDot`, `WhiteCircle` and `DropShadow`) is not proved name by name. Evaluating the substring search over all the literal names is too costly to verify. `Loader.SpecialPath` reduces the question to the directory and the name.
- Generator.Generate: takes the catalog rows as a parameter instead of reading the global `ImageRows`, because lemmas stated on the literal 158-name constant are too costly to verify. The call in `Main` corresponds to passing `Catalog.ImageRows`.
- Generator.CatalogSheets: stated for any rows that flatten to `ImageIdx` and fit 8 rows of 20, not for the literal constant `ImageRows` directly, for the same reason. `Catalog.ImageRowsShape` and `Layout.SizesMatchGrid` prove that `ImageRows` meets both premises.
- Running the generator twice gives the same sheets, because every member is a deterministic function of its inputs. No lemma states this separately.
