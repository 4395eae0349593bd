/**
 * The asset loader: for every catalog name it probes the images directory
 * for an SVG source, then for a PNG source, and rasterizes the first one
 * found to the requested square size; with neither, the cell's data is
 * absent.  Pixels are not modelled: a loaded bitmap is a token recording
 * which file was read, at which size and along which rendering path.
 */
module Loader {
  import opened Wrappers

  /** The rendering path that produced a bitmap. */
  datatype Route =
    | SvgSized    // SVG document resized, rendered onto a transparent background
    | SvgDraw     // SVG document drawn whole at size x size
    | PngResize   // PNG decoded and resized to size x size

  /** Stand-in for the pixels of a loaded asset. */
  datatype Bitmap = Bitmap(path: string, size: int, route: Route)

  /** One entry of a row: the loaded data, when a source was found, and the asset name. */
  datatype Cell = Cell(data: Option<Bitmap>, name: string)

  /** Whether `s` starts with `sub`. */
  predicate StartsWith(s: string, sub: string)
  {
    |sub| <= |s| && s[..|sub|] == sub
  }

  /** C#'s ordinal String.Contains: `sub` occurs somewhere in `s`. */
  predicate Contains(s: string, sub: string)
    decreases |s|
  {
    StartsWith(s, sub) || (|s| > 0 && Contains(s[1..], sub))
  }

  /** `sub` occurs in `s` starting at index i. */
  predicate OccursAt(s: string, sub: string, i: int)
  {
    0 <= i && i + |sub| <= |s| && s[i..i + |sub|] == sub
  }

  /** Contains agrees with the definition by position. */
  lemma {:induction false} ContainsAt(s: string, sub: string)
    ensures Contains(s, sub) <==> exists i :: OccursAt(s, sub, i)
    decreases |s|
  {
    if StartsWith(s, sub) {
      assert OccursAt(s, sub, 0);
    }
    if |s| > 0 {
      ContainsAt(s[1..], sub);
      if Contains(s[1..], sub) {
        var i :| OccursAt(s[1..], sub, i);
        assert s[i + 1..i + 1 + |sub|] == s[1..][i..i + |sub|];
        assert OccursAt(s, sub, i + 1);
      }
      if exists i :: OccursAt(s, sub, i) {
        var i :| OccursAt(s, sub, i);
        if i > 0 {
          assert s[1..][i - 1..i - 1 + |sub|] == s[i..i + |sub|];
          assert OccursAt(s[1..], sub, i - 1);
        } else {
          assert s[..|sub|] == s[0..|sub|];
        }
      }
    }
  }

  /** Asset names whose vector sources need the sized rendering path. */
  const SpecialMarkers: seq<string> := ["DropShadow", "GlowDot", "WhiteCircle"]

  /**
   * Whether a string contains one of the special markers. GetImageDataFromSVG
   * applies this test to the whole file path.
   */
  predicate HasSpecialMarker(s: string)
  {
    exists m :: m in SpecialMarkers && Contains(s, m)
  }

  function SvgPath(imagesPath: string, name: string): string
  {
    imagesPath + "\\" + name + ".svg"
  }

  function PngPath(imagesPath: string, name: string): string
  {
    imagesPath + "\\" + name + ".png"
  }

  /** GetImageDataFromSVG: the sized path for the special shapes, the whole-document draw otherwise. */
  function FromSvg(path: string, size: int): Bitmap
  {
    if HasSpecialMarker(path) then Bitmap(path, size, SvgSized) else Bitmap(path, size, SvgDraw)
  }

  /** GetImageDataFromPNG: decode and resize. */
  function FromPng(path: string, size: int): Bitmap
  {
    Bitmap(path, size, PngResize)
  }

  /**
   * The entry GetRowBitmaps builds for one name, given the set of file
   * paths that exist.
   */
  function Resolve(name: string, existing: set<string>, imagesPath: string, size: int): (c: Cell)
    ensures c.name == name
    ensures c.data.None? <==> SvgPath(imagesPath, name) !in existing && PngPath(imagesPath, name) !in existing
    ensures c.data.Some? ==> c.data.value.size == size && c.data.value.path in existing
  {
    var svg := SvgPath(imagesPath, name);
    var png := PngPath(imagesPath, name);
    if svg in existing then Cell(Some(FromSvg(svg, size)), name)
    else if png in existing then Cell(Some(FromPng(png, size)), name)
    else Cell(None, name)
  }

  /** A source format: the file extension probed and how such a file is loaded. */
  datatype Format = Svg | Png

  function Extension(f: Format): string
  {
    match f
    case Svg => ".svg"
    case Png => ".png"
  }

  function Load(f: Format, path: string, size: int): Bitmap
  {
    match f
    case Svg => FromSvg(path, size)
    case Png => FromPng(path, size)
  }

  /** The source formats in the order they are probed. */
  const Probes: seq<Format> := [Svg, Png]

  /**
   * Reference resolution by priority list: the first format of `formats`
   * whose file exists is loaded; none existing means no data.
   */
  function FirstExisting(formats: seq<Format>, name: string, existing: set<string>, imagesPath: string, size: int): Option<Bitmap>
  {
    if formats == [] then None
    else
      var path := imagesPath + "\\" + name + Extension(formats[0]);
      if path in existing then Some(Load(formats[0], path, size))
      else FirstExisting(formats[1..], name, existing, imagesPath, size)
  }

  /**
   * Resolve is exactly "first existing file of the list svg, png": an SVG
   * source wins even when a PNG of the same name exists, a PNG is used
   * only without an SVG, and with neither the data is absent.
   */
  lemma ResolveByPriority(name: string, existing: set<string>, imagesPath: string, size: int)
    ensures Resolve(name, existing, imagesPath, size).data == FirstExisting(Probes, name, existing, imagesPath, size)
    ensures SvgPath(imagesPath, name) in existing ==>
      Resolve(name, existing, imagesPath, size).data == Some(FromSvg(SvgPath(imagesPath, name), size))
    ensures SvgPath(imagesPath, name) !in existing && PngPath(imagesPath, name) in existing ==>
      Resolve(name, existing, imagesPath, size).data == Some(FromPng(PngPath(imagesPath, name), size))
  {
    assert Probes[0] == Svg && Probes[1..] == [Png];
    assert Probes[1..][1..] == [];
    assert FirstExisting([], name, existing, imagesPath, size) == None;
    assert SvgPath(imagesPath, name) == imagesPath + "\\" + name + Extension(Svg);
    assert PngPath(imagesPath, name) == imagesPath + "\\" + name + Extension(Png);
  }

  /** A separator that does not occur in `sub` splits every occurrence to one side. */
  lemma {:induction false} ContainsAcross(a: string, c: char, b: string, sub: string)
    requires sub != [] && c !in sub
    ensures Contains(a + [c] + b, sub) <==> Contains(a, sub) || Contains(b, sub)
    decreases |a|
  {
    var s := a + [c] + b;
    assert s[|a|] == c;
    assert |a| < |sub| <= |s| ==> s[..|sub|][|a|] == c;
    assert |sub| <= |a| ==> s[..|sub|] == a[..|sub|];
    if a == [] {
      assert s[1..] == b;
    } else {
      ContainsAcross(a[1..], c, b, sub);
      assert s[1..] == a[1..] + [c] + b;
    }
  }

  /** A string shorter than `sub` does not contain it. */
  lemma {:induction false} ContainsShort(s: string, sub: string)
    requires |s| < |sub|
    ensures !Contains(s, sub)
    decreases |s|
  {
    if |s| > 0 {
      ContainsShort(s[1..], sub);
    }
  }

  /**
   * The special-path test reads the whole path: it succeeds exactly when the
   * images directory or the asset name holds a marker, since the separator
   * and the extension cannot be part of a match.
   */
  lemma SpecialPath(imagesPath: string, name: string)
    ensures HasSpecialMarker(SvgPath(imagesPath, name)) <==>
      HasSpecialMarker(imagesPath) || HasSpecialMarker(name)
  {
    forall m | m in SpecialMarkers
      ensures Contains(SvgPath(imagesPath, name), m) <==> Contains(imagesPath, m) || Contains(name, m)
    {
      assert SvgPath(imagesPath, name) == imagesPath + ['\\'] + (name + ['.'] + "svg");
      ContainsAcross(imagesPath, '\\', name + ['.'] + "svg", m);
      ContainsAcross(name, '.', "svg", m);
      ContainsShort("svg", m);
    }
  }

  /**
   * When the images directory holds no marker, the special path depends on
   * the asset name alone.
   */
  lemma SpecialPathByName(imagesPath: string, name: string)
    requires !HasSpecialMarker(imagesPath)
    ensures HasSpecialMarker(SvgPath(imagesPath, name)) <==> HasSpecialMarker(name)
  {
    SpecialPath(imagesPath, name);
  }

  /**
   * When the images directory holds a marker, every name with a vector
   * source is rendered on the special sized path, whatever the name.
   */
  lemma SpecialPathByDirectory(imagesPath: string, name: string, existing: set<string>, size: int)
    requires HasSpecialMarker(imagesPath)
    requires SvgPath(imagesPath, name) in existing
    ensures Resolve(name, existing, imagesPath, size).data == Some(Bitmap(SvgPath(imagesPath, name), size, SvgSized))
  {
    SpecialPath(imagesPath, name);
  }

  /** The rows GetRowBitmaps returns, as a value: every name resolved, shape kept. */
  function ResolveRows(rows: seq<seq<string>>, existing: set<string>, imagesPath: string, size: int): seq<seq<Cell>>
  {
    seq(|rows|, i requires 0 <= i < |rows| =>
      seq(|rows[i]|, j requires 0 <= j < |rows[i]| => Resolve(rows[i][j], existing, imagesPath, size)))
  }

  /** The names that have an SVG or a PNG source, in order. */
  function WithSource(names: seq<string>, existing: set<string>, imagesPath: string): seq<string>
  {
    if names == [] then []
    else
      var has := SvgPath(imagesPath, names[0]) in existing || PngPath(imagesPath, names[0]) in existing;
      (if has then [names[0]] else []) + WithSource(names[1..], existing, imagesPath)
  }

  /**
   * GetRowBitmaps: walks the rows and their names in order and builds a
   * list of rows of the same shape, each name paired with the data its
   * sources give.
   */
  method GetRowBitmaps(rows: seq<seq<string>>, existing: set<string>, imagesPath: string, size: int)
    returns (result: seq<seq<Cell>>)
    ensures |result| == |rows|
    ensures forall i :: 0 <= i < |rows| ==> |result[i]| == |rows[i]|
    ensures forall i, j :: 0 <= i < |rows| && 0 <= j < |rows[i]| ==>
      result[i][j] == Resolve(rows[i][j], existing, imagesPath, size)
    ensures result == ResolveRows(rows, existing, imagesPath, size)
  {
    result := [];
    var i := 0;
    while i < |rows|
      invariant 0 <= i <= |rows|
      invariant |result| == i
      invariant forall i' :: 0 <= i' < i ==> |result[i']| == |rows[i']|
      invariant forall i', j :: 0 <= i' < i && 0 <= j < |rows[i']| ==>
        result[i'][j] == Resolve(rows[i'][j], existing, imagesPath, size)
    {
      var row := rows[i];
      var list: seq<Cell> := [];
      var j := 0;
      while j < |row|
        invariant 0 <= j <= |row|
        invariant |list| == j
        invariant forall j' :: 0 <= j' < j ==> list[j'] == Resolve(row[j'], existing, imagesPath, size)
      {
        var image := row[j];
        var res := Cell(None, image);
        var svg := SvgPath(imagesPath, image);
        var png := PngPath(imagesPath, image);
        if svg in existing {
          res := res.(data := Some(FromSvg(svg, size)));
        } else if png in existing {
          res := res.(data := Some(FromPng(png, size)));
        }
        list := list + [res];
        j := j + 1;
      }
      result := result + [list];
      i := i + 1;
    }
    ghost var spec := ResolveRows(rows, existing, imagesPath, size);
    assert forall i :: 0 <= i < |rows| ==> result[i] == spec[i];
  }
}
