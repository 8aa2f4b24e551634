/**
 * The `Box` end component. Its `present` picks the box's size and position
 * on the canvas it is given (explicit props, else callbacks, else the whole
 * canvas), draws up to four one-cell borders on the slice it occupies,
 * writes its text centred inside the borders, and returns the slice inside
 * the borders for its children.
 *
 * Positions in the predicates below are root positions; `Local(box, c)` is
 * the same position relative to the box's slice.
 */
module Box {
  import opened ImmutableStruct
  import opened Canvas

  /** `TERMREACT_FULL_WIDTH` and `TERMREACT_FULL_HEIGHT`. */
  const Full: int := -1
  /** `TERMREACT_NO_BORDER`. */
  const NoBorder: nat := 0

  /** A `std::function<int(int, int)>` prop, called with the canvas's width
    * and height; `None` is the empty function. */
  type Measure = Option<(int, int) -> int>

  datatype Props = Props(
    left: int, top: int, height: int, width: int,
    getLeft: Measure, getTop: Measure, getHeight: Measure, getWidth: Measure,
    border: nat, borderTop: nat, borderBottom: nat, borderLeft: nat, borderRight: nat,
    text: string, foreground: int, background: int)

  /**
   * The box's width (or height): the explicit prop unless it is `Full`;
   * then the callback's answer when one is set; otherwise the canvas's.
   */
  function Size(explicit: int, measure: Measure, cw: int, ch: int, canvasSize: int): (n: int)
    ensures explicit != Full ==> n == explicit
    ensures explicit == Full && measure.Some? ==> n == measure.value(cw, ch)
    ensures explicit == Full && measure.None? ==> n == canvasSize
  {
    if explicit != Full then explicit
    else if measure.Some? then measure.value(cw, ch)
    else canvasSize
  }

  /** The box's left (or top): the callback's answer when set, else the prop. */
  function Offset(given: int, measure: Measure, cw: int, ch: int): (n: int)
    ensures measure.Some? ==> n == measure.value(cw, ch)
    ensures measure.None? ==> n == given
  {
    if measure.Some? then measure.value(cw, ch) else given
  }

  /** A side's border character: its own prop, falling back to `border` when that is `NoBorder`. */
  function SideBorder(own: nat, border: nat): (b: nat)
    ensures own != NoBorder ==> b == own
    ensures own == NoBorder ==> b == border
    ensures b == NoBorder <==> own == NoBorder && border == NoBorder
  {
    if own == NoBorder then border else own
  }

  /** How many cells a border takes on its axis: one when drawn, else none. */
  function Thickness(b: nat): (t: nat)
    ensures t <= 1 && (t == 1 <==> b != NoBorder)
  {
    if b == NoBorder then 0 else 1
  }

  /** What `present` settles on before drawing. */
  datatype Frame = Frame(left: int, top: int, width: int, height: int,
                         borderLeft: nat, borderTop: nat, borderRight: nat, borderBottom: nat)

  function FrameOf(p: Props, cw: int, ch: int): (f: Frame)
    ensures f.width == Size(p.width, p.getWidth, cw, ch, cw)
    ensures f.height == Size(p.height, p.getHeight, cw, ch, ch)
    ensures f.left == Offset(p.left, p.getLeft, cw, ch) && f.top == Offset(p.top, p.getTop, cw, ch)
    ensures f.borderLeft == SideBorder(p.borderLeft, p.border)
    ensures f.borderTop == SideBorder(p.borderTop, p.border)
    ensures f.borderRight == SideBorder(p.borderRight, p.border)
    ensures f.borderBottom == SideBorder(p.borderBottom, p.border)
  {
    Frame(Offset(p.left, p.getLeft, cw, ch), Offset(p.top, p.getTop, cw, ch),
          Size(p.width, p.getWidth, cw, ch, cw), Size(p.height, p.getHeight, cw, ch, ch),
          SideBorder(p.borderLeft, p.border), SideBorder(p.borderTop, p.border),
          SideBorder(p.borderRight, p.border), SideBorder(p.borderBottom, p.border))
  }

  /** Width left for the content: the box's, less one per drawn side border. */
  function ContentWidth(f: Frame): int {
    f.width - Thickness(f.borderLeft) - Thickness(f.borderRight)
  }

  /** Height left for the content: the box's, less one per drawn top or bottom border. */
  function ContentHeight(f: Frame): int {
    f.height - Thickness(f.borderTop) - Thickness(f.borderBottom)
  }

  /** Whether local cell `q` lies in the content area inside the borders. */
  predicate InContent(f: Frame, q: Pos) {
    Thickness(f.borderLeft) <= q.0 < Thickness(f.borderLeft) + ContentWidth(f) &&
    Thickness(f.borderTop) <= q.1 < Thickness(f.borderTop) + ContentHeight(f)
  }

  /** The text is empty, or it fits the content width and there is a content row. */
  predicate TextFits(f: Frame, text: string) {
    text == [] || (|text| <= ContentWidth(f) && ContentHeight(f) >= 1)
  }

  /**
   * Column of the text's first character on the box's slice. The source
   * computes it in `size_t`; a text wider than the content wraps, and
   * narrowing the halved value back to `int` gives half the signed
   * difference rounded down, which is Dafny's `/`. The row likewise.
   */
  function TextColumn(f: Frame, len: nat): int {
    Thickness(f.borderLeft) + (ContentWidth(f) - len) / 2
  }

  /** Row of the text on the box's slice. */
  function TextRow(f: Frame): int {
    Thickness(f.borderTop) + (ContentHeight(f) - 1) / 2
  }

  /** `c` relative to the origin of `box`. */
  function Local(box: Surface, c: Pos): (q: Pos)
    ensures (Origin(box).0 + q.0, Origin(box).1 + q.1) == c
  {
    (c.0 - Origin(box).0, c.1 - Origin(box).1)
  }

  /** The cells of column `x`, rows `0..n-1`, of `box`, drawn with `cell`. */
  function ColumnCells(box: Surface, x: int, n: int, cell: Cell, c: Pos): Option<Cell> {
    if Local(box, c).0 == x && 0 <= Local(box, c).1 < n then Some(cell) else None
  }

  /** The cells of row `y`, columns `0..n-1`, of `box`, drawn with `cell`. */
  function RowCells(box: Surface, y: int, n: int, cell: Cell, c: Pos): Option<Cell> {
    if Local(box, c).1 == y && 0 <= Local(box, c).0 < n then Some(cell) else None
  }

  function LeftBorder(box: Surface, f: Frame, c: Pos): Option<Cell> {
    if f.borderLeft == NoBorder then None
    else ColumnCells(box, 0, f.height, Cell(f.borderLeft, 0, 0), c)
  }

  function TopBorder(box: Surface, f: Frame, c: Pos): Option<Cell> {
    if f.borderTop == NoBorder then None
    else RowCells(box, 0, f.width, Cell(f.borderTop, 0, 0), c)
  }

  function RightBorder(box: Surface, f: Frame, c: Pos): Option<Cell> {
    if f.borderRight == NoBorder then None
    else ColumnCells(box, f.width - 1, f.height, Cell(f.borderRight, 0, 0), c)
  }

  function BottomBorder(box: Surface, f: Frame, c: Pos): Option<Cell> {
    if f.borderBottom == NoBorder then None
    else RowCells(box, f.height - 1, f.width, Cell(f.borderBottom, 0, 0), c)
  }

  /** The borders, drawn left, top, right, bottom: a later border wins a shared corner. */
  function BorderCell(box: Surface, f: Frame, c: Pos): Option<Cell> {
    Over(Over(Over(LeftBorder(box, f, c), TopBorder(box, f, c)), RightBorder(box, f, c)),
         BottomBorder(box, f, c))
  }

  /** The text, written when non-empty. */
  function TextLayer(box: Surface, f: Frame, p: Props, c: Pos): Option<Cell> {
    if p.text == [] then None
    else TextCell(box, TextColumn(f, |p.text|), TextRow(f), p.text, p.foreground, p.background, c)
  }

  /** Everything `present` draws: the text over the borders. */
  function Painted(box: Surface, f: Frame, p: Props, c: Pos): Option<Cell> {
    Over(BorderCell(box, f, c), TextLayer(box, f, p, c))
  }

  /** The borders stay outside the content area. */
  lemma BordersOutsideContent(box: Surface, f: Frame, c: Pos)
    requires InContent(f, Local(box, c))
    ensures BorderCell(box, f, c).None?
  {
  }

  /** A text that fits lies inside the content area, centred to within a cell. */
  lemma TextInsideContent(box: Surface, f: Frame, p: Props, c: Pos)
    requires TextFits(f, p.text) && TextLayer(box, f, p, c).Some?
    ensures InContent(f, Local(box, c))
    ensures var gap := TextColumn(f, |p.text|) - Thickness(f.borderLeft);
      0 <= gap && 2 * gap + |p.text| <= ContentWidth(f) <= 2 * gap + |p.text| + 1
  {
  }

  /**
   * Draws `Cell(0, 0)` and `Cell(width - 1, height - 1)` of a box with all
   * four borders set and no text: the top-left corner shows the top border,
   * the bottom-right corner the bottom border.
   */
  lemma CornersShowLaterBorder(box: Surface, f: Frame, p: Props)
    requires f.width >= 1 && f.height >= 1 && p.text == []
    requires f.borderLeft != NoBorder && f.borderTop != NoBorder
    requires f.borderRight != NoBorder && f.borderBottom != NoBorder
    ensures Painted(box, f, p, Origin(box)) ==
      Some(Cell(if f.height == 1 then f.borderBottom
                else if f.width == 1 then f.borderRight else f.borderTop, 0, 0))
    ensures Painted(box, f, p, (Origin(box).0 + f.width - 1, Origin(box).1 + f.height - 1)) ==
      Some(Cell(f.borderBottom, 0, 0))
  {
  }

  /** `for (y = 0; y < n; y++) setCell(x, y, cell)` on `box`. */
  method FillColumn(screen: Screen, box: Surface, x: int, n: int, cell: Cell)
    modifies screen
    ensures forall c :: Shows(old(screen.cells), screen.cells, c, ColumnCells(box, x, n, cell, c))
    ensures screen.background == old(screen.background) && screen.frames == old(screen.frames)
  {
    var y := 0;
    while y < n
      invariant 0 <= y && (n >= 0 ==> y <= n) && (n < 0 ==> y == 0)
      invariant forall c :: Shows(old(screen.cells), screen.cells, c, ColumnCells(box, x, y, cell, c))
      invariant screen.background == old(screen.background) && screen.frames == old(screen.frames)
    {
      ghost var before := screen.cells;
      ghost var next := y + 1;
      SetCell(screen, box, x, y, cell);
      forall c ensures Shows(old(screen.cells), screen.cells, c, ColumnCells(box, x, next, cell, c)) {
        assert Shows(old(screen.cells), before, c, ColumnCells(box, x, y, cell, c));
      }
      y := y + 1;
    }
    forall c ensures Shows(old(screen.cells), screen.cells, c, ColumnCells(box, x, n, cell, c)) {
      assert Shows(old(screen.cells), screen.cells, c, ColumnCells(box, x, y, cell, c));
    }
  }

  /** `for (x = 0; x < n; x++) setCell(x, y, cell)` on `box`. */
  method FillRow(screen: Screen, box: Surface, y: int, n: int, cell: Cell)
    modifies screen
    ensures forall c :: Shows(old(screen.cells), screen.cells, c, RowCells(box, y, n, cell, c))
    ensures screen.background == old(screen.background) && screen.frames == old(screen.frames)
  {
    var x := 0;
    while x < n
      invariant 0 <= x && (n >= 0 ==> x <= n) && (n < 0 ==> x == 0)
      invariant forall c :: Shows(old(screen.cells), screen.cells, c, RowCells(box, y, x, cell, c))
      invariant screen.background == old(screen.background) && screen.frames == old(screen.frames)
    {
      ghost var before := screen.cells;
      ghost var next := x + 1;
      SetCell(screen, box, x, y, cell);
      forall c ensures Shows(old(screen.cells), screen.cells, c, RowCells(box, y, next, cell, c)) {
        assert Shows(old(screen.cells), before, c, RowCells(box, y, x, cell, c));
      }
      x := x + 1;
    }
    forall c ensures Shows(old(screen.cells), screen.cells, c, RowCells(box, y, n, cell, c)) {
      assert Shows(old(screen.cells), screen.cells, c, RowCells(box, y, x, cell, c));
    }
  }

  /**
   * The four border loops of `present`, on the box's slice: left, top,
   * right, bottom, each only when its character is not `NoBorder`.
   */
  method DrawBorders(screen: Screen, box: Surface, f: Frame)
    modifies screen
    ensures forall c :: Shows(old(screen.cells), screen.cells, c, BorderCell(box, f, c))
    ensures screen.background == old(screen.background) && screen.frames == old(screen.frames)
  {
    ghost var c0 := screen.cells;
    if f.borderLeft != NoBorder {
      FillColumn(screen, box, 0, f.height, Cell(f.borderLeft, 0, 0));
    }
    ghost var c1 := screen.cells;
    if f.borderTop != NoBorder {
      FillRow(screen, box, 0, f.width, Cell(f.borderTop, 0, 0));
    }
    ghost var c2 := screen.cells;
    if f.borderRight != NoBorder {
      FillColumn(screen, box, f.width - 1, f.height, Cell(f.borderRight, 0, 0));
    }
    ghost var c3 := screen.cells;
    if f.borderBottom != NoBorder {
      FillRow(screen, box, f.height - 1, f.width, Cell(f.borderBottom, 0, 0));
    }
    forall c ensures Shows(c0, screen.cells, c, BorderCell(box, f, c)) {
      var left, top, right := LeftBorder(box, f, c), TopBorder(box, f, c), RightBorder(box, f, c);
      assert Shows(c0, c1, c, left);
      assert Shows(c1, c2, c, top);
      assert Shows(c2, c3, c, right);
      assert Shows(c3, screen.cells, c, BottomBorder(box, f, c));
      ShowsThen(c0, c1, c2, c, left, top);
      ShowsThen(c0, c2, c3, c, Over(left, top), right);
      ShowsThen(c0, c3, screen.cells, c, Over(Over(left, top), right), BottomBorder(box, f, c));
    }
  }

  /**
   * `present(canvas)`: draws the borders and the text of the box on the
   * slice of `s` it occupies, changing no other cell, and returns the
   * content slice: offset by the left and top border thicknesses, with the
   * content size.
   */
  method Present(screen: Screen, s: Surface, p: Props) returns (r: Surface)
    modifies screen
    ensures var f := FrameOf(p, Width(screen, s), Height(screen, s));
      var box := SliceOf(s, f.left, f.top, f.width, f.height);
      (forall c :: Shows(old(screen.cells), screen.cells, c, Painted(box, f, p, c))) &&
      r.Slice? && Width(screen, r) == ContentWidth(f) && Height(screen, r) == ContentHeight(f) &&
      Origin(r) == (Origin(box).0 + Thickness(f.borderLeft), Origin(box).1 + Thickness(f.borderTop))
    ensures screen.background == old(screen.background) && screen.frames == old(screen.frames)
  {
    var cw, ch := Width(screen, s), Height(screen, s);
    var f := Frame(Offset(p.left, p.getLeft, cw, ch), Offset(p.top, p.getTop, cw, ch),
                   Size(p.width, p.getWidth, cw, ch, cw), Size(p.height, p.getHeight, cw, ch, ch),
                   SideBorder(p.borderLeft, p.border), SideBorder(p.borderTop, p.border),
                   SideBorder(p.borderRight, p.border), SideBorder(p.borderBottom, p.border));
    var box := SliceOf(s, f.left, f.top, f.width, f.height);
    ghost var before := screen.cells;
    DrawBorders(screen, box, f);
    ghost var borders := screen.cells;
    var leftSize, topSize := Thickness(f.borderLeft), Thickness(f.borderTop);
    var contentWidth := f.width - leftSize - Thickness(f.borderRight);
    var contentHeight := f.height - topSize - Thickness(f.borderBottom);
    if |p.text| != 0 {
      WriteString(screen, box, leftSize + (contentWidth - |p.text|) / 2,
                  topSize + (contentHeight - 1) / 2, p.text, p.foreground, p.background);
    }
    forall c ensures Shows(before, screen.cells, c, Painted(box, f, p, c)) {
      assert Shows(before, borders, c, BorderCell(box, f, c));
      assert Shows(borders, screen.cells, c, TextLayer(box, f, p, c));
      ShowsThen(before, borders, screen.cells, c, BorderCell(box, f, c), TextLayer(box, f, p, c));
    }
    r := SliceOf(box, leftSize, topSize, contentWidth, contentHeight);
  }
}
