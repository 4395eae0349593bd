/**
 * The asset catalog: the names of the ImageIdx enumeration in declaration
 * order, packed into rows of twenty cells.  The order of the names is the
 * single source of truth for the sprite-sheet layout.
 */
module Catalog {
  import opened Arith

  /** Number of cells in one row of every sprite sheet. */
  const RowWidth: nat := 20

  /** The names of ImageIdx, in declaration order (158 names). */
  const ImageIdx: seq<string> := [
    "Bkg", "Window", "Dots", "RadioOn", "RadioOff",
    "MainBtnUp", "MainBtnDown", "BtnUp", "BtnOver", "BtnDown",
    "Separator", "TabActive", "TabActiveOver", "TabInactive", "TabInactiveOver",
    "EditBox", "Checkbox", "CheckboxOver", "CheckboxDown", "Check",
    "Close", "CloseOver", "DownArrow", "GlowDot", "ArrowRight",
    "WhiteCircle", "DropMenuButton", "ListViewHeader", "ListViewSortArrow", "Outline",
    "Scrollbar", "ScrollbarThumbOver", "ScrollbarThumb", "ScrollbarArrow", "ShortButton",
    "ShortButtonDown", "VertScrollbar", "VertScrollbarThumbOver", "VertScrollbarThumb", "VertScrollbarArrow",
    "VertShortButton", "VertShortButtonDown", "Grabber", "DropShadow", "Menu",
    "MenuSepVert", "MenuSepHorz", "MenuSelect", "TreeArrow", "UIPointer",
    "UIImage", "UIComposition", "UILabel", "UIButton", "UIEdit",
    "UICombobox", "UICheckbox", "UIRadioButton", "UIListView", "UITabView",
    "EditCorners", "EditCircle", "EditPathNode", "EditPathNodeSelected", "EditAnchor",
    "UIBone", "UIBoneJoint", "VisibleIcon", "LockIcon", "LeftArrow",
    "KeyframeMakeOff", "RightArrow", "LeftArrowDisabled", "KeyframeMakeOn", "RightArrowDisabled",
    "TimelineSelector", "TimelineBracket", "KeyframeOff", "KeyframeOn", "LinkedIcon",
    "CheckboxLarge", "ComboBox", "ComboEnd", "ComboSelectedIcon", "LinePointer",
    "RedDot", "Document", "ReturnPointer", "RefreshArrows", "MoveDownArrow",
    "IconObject", "IconObjectDeleted", "IconObjectAppend", "IconObjectStack", "IconValue",
    "IconPointer", "IconType", "IconError", "IconBookmark", "ProjectFolder",
    "Project", "ArrowMoveDown", "Workspace", "MemoryArrowSingle", "MemoryArrowDoubleTop",
    "MemoryArrowDoubleBottom", "MemoryArrowTripleTop", "MemoryArrowTripleMiddle", "MemoryArrowTripleBottom", "MemoryArrowRainbow",
    "Namespace", "ResizeGrabber", "AsmArrow", "AsmArrowRev", "AsmArrowShadow",
    "MenuNonFocusSelect", "StepFilter", "WaitSegment", "FindCaseSensitive", "FindWholeWord",
    "RedDotUnbound", "MoreInfo", "Interface", "Property", "Field",
    "Method", "Variable", "Constant", "Type_ValueType", "Type_Class",
    "LinePointer_Prev", "LinePointer_Opt", "RedDotEx", "RedDotExUnbound", "RedDotDisabled",
    "RedDotExDisabled", "RedDotRunToCursor", "GotoButton", "YesJmp", "NoJmp",
    "WhiteBox", "UpDownArrows", "EventInfo", "WaitBar", "HiliteOutline",
    "HiliteOutlineThin", "IconPayloadEnum", "StepFilteredDefault", "ThreadBreakpointMatch", "ThreadBreakpointNoMatch",
    "ThreadBreakpointUnbound", "Search", "CheckIndeterminate", "CodeError", "CodeWarning",
    "ComboBoxFrameless", "PanelHeader", "ExtMethod"
  ]

  /** Concatenation of a sequence of rows. */
  function Flatten<T>(rows: seq<seq<T>>): seq<T>
  {
    if rows == [] then [] else rows[0] + Flatten(rows[1..])
  }

  /**
   * MoreLinq's Batch: consecutive buckets of `size` elements taken in
   * order, the last bucket holding what is left over.  Batch refuses a
   * size below one, hence the precondition.
   */
  function Batch<T>(s: seq<T>, size: nat): (rows: seq<seq<T>>)
    requires size > 0
    ensures Flatten(rows) == s
    ensures forall r :: 0 <= r < |rows| ==> 0 < |rows[r]| <= size
    ensures forall r :: 0 <= r < |rows| - 1 ==> |rows[r]| == size
    decreases |s|
  {
    if s == [] then []
    else if |s| <= size then [s]
    else
      var rest := Batch(s[size..], size);
      assert ([s[..size]] + rest)[1..] == rest;
      [s[..size]] + rest
  }

  /** The catalog as the rows of the sheet. */
  const ImageRows: seq<seq<string>> := Batch(ImageIdx, RowWidth)

  /**
   * How many names Batch puts in its rows: all rows but the last are full,
   * so the input length is that many full rows plus the last row.
   */
  lemma {:induction false} BatchCount<T>(s: seq<T>, size: nat)
    requires size > 0
    ensures s == [] <==> Batch(s, size) == []
    ensures s != [] ==>
      var rows := Batch(s, size);
      |s| == (|rows| - 1) * size + |rows[|rows| - 1]|
    decreases |s|
  {
    if |s| > size {
      var rest := Batch(s[size..], size);
      BatchCount(s[size..], size);
      var rows := Batch(s, size);
      assert rows == [s[..size]] + rest;
      assert rows[|rows| - 1] == rest[|rest| - 1];
      MulSucc(|rest| - 1, size);
    }
  }

  /**
   * The element at row r, column c of the batched rows is element
   * r * size + c of the input: the grid position of an asset depends on
   * its index alone.
   */
  lemma {:induction false} BatchLocate<T>(s: seq<T>, size: nat, r: nat, c: nat)
    requires size > 0
    requires c < size && r * size + c < |s|
    ensures var rows := Batch(s, size);
      r < |rows| && c < |rows[r]| && rows[r][c] == s[r * size + c]
    decreases r
  {
    if r > 0 {
      MulSucc(r - 1, size);
      MulNonNeg(r - 1, size);
      assert |s| > size;
      var rest := Batch(s[size..], size);
      BatchLocate(s[size..], size, r - 1, c);
      assert Batch(s, size) == [s[..size]] + rest;
      assert Batch(s, size)[r] == rest[r - 1];
      assert s[size..][(r - 1) * size + c] == s[r * size + c];
    }
  }

  /** Index k of the input lands at row k / size, column k % size. */
  lemma BatchIndex<T>(s: seq<T>, size: nat, k: nat)
    requires size > 0 && k < |s|
    ensures var rows := Batch(s, size);
      && k / size < |rows| && k % size < |rows[k / size]|
      && rows[k / size][k % size] == s[k]
  {
    assert k == (k / size) * size + k % size;
    BatchLocate(s, size, k / size, k % size);
  }

  /** A batch of 158 names by 20 is eight rows, the last one of eighteen. */
  lemma Batch158<T>(s: seq<T>)
    requires |s| == 158
    ensures |Batch(s, 20)| == 8
    ensures |Batch(s, 20)[7]| == 18
  {
    BatchCount(s, 20);
    var n := |Batch(s, 20)|;
    assert 0 < |Batch(s, 20)[n - 1]| <= 20;
    assert 158 == (n - 1) * 20 + |Batch(s, 20)[n - 1]|;
  }

  /**
   * The shipped catalog gives eight rows, seven of twenty names and a last
   * row of eighteen, and reading the rows in order gives back ImageIdx.
   */
  lemma ImageRowsShape()
    ensures |ImageRows| == 8
    ensures forall r :: 0 <= r < 7 ==> |ImageRows[r]| == RowWidth
    ensures |ImageRows[7]| == 18
    ensures Flatten(ImageRows) == ImageIdx
  {
    Batch158(ImageIdx);
  }

  /** The rows of a sheet: at most `height` rows of at most RowWidth names. */
  predicate FitsGrid(rows: seq<seq<string>>, height: nat)
  {
    |rows| <= height && forall i :: 0 <= i < |rows| ==> |rows[i]| <= RowWidth
  }

  /** ImageRows fits a grid of eight rows of twenty cells. */
  lemma ImageRowsFit()
    ensures FitsGrid(ImageRows, 8)
  {
    ImageRowsShape();
  }

  /**
   * Every catalog index k sits at row k / 20, column k % 20 of ImageRows,
   * and two different indices never share a cell.
   */
  lemma ImageRowsPosition(k: nat, k': nat)
    requires k < |ImageIdx| && k' < |ImageIdx|
    ensures k / RowWidth < |ImageRows| && k % RowWidth < |ImageRows[k / RowWidth]|
    ensures ImageRows[k / RowWidth][k % RowWidth] == ImageIdx[k]
    ensures k != k' ==> (k / RowWidth, k % RowWidth) != (k' / RowWidth, k' % RowWidth)
  {
    BatchIndex(ImageIdx, RowWidth, k);
  }
}
