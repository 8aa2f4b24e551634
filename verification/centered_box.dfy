/**
 * The `CenteredBox` end component: its props `x`, `y` are mapped from the
 * store's window size so that a `width` by `height` box sits in the middle of
 * the window, and its `present` draws a one-cell wall around that box.
 */
module CenteredBox {
  import opened ImmutableStruct
  import opened Canvas
  import opened CppInt

  /** The wall character, a full block, in the default colours. */
  const Wall: Cell := Cell(0x2588, 0, 0)

  datatype Props = Props(x: int, y: int, width: int, height: int)

  /**
   * The props mapped from the store: `x = (window_width - width) / 2` and
   * `y = (window_height - height) / 2`, in C++ division. The box is centred
   * to within one cell; when it is larger than the window it overhangs both
   * sides by the same amount, to within one cell.
   */
  function MapState(windowWidth: int, windowHeight: int, p: Props): (q: Props)
    ensures q.width == p.width && q.height == p.height
    ensures windowWidth >= p.width ==>
      0 <= q.x && 2 * q.x + p.width <= windowWidth <= 2 * q.x + p.width + 1
    ensures windowWidth < p.width ==>
      q.x <= 0 && windowWidth <= 2 * q.x + p.width <= windowWidth + 1
    ensures windowHeight >= p.height ==>
      0 <= q.y && 2 * q.y + p.height <= windowHeight <= 2 * q.y + p.height + 1
    ensures windowHeight < p.height ==>
      q.y <= 0 && windowHeight <= 2 * q.y + p.height <= windowHeight + 1
  {
    p.(x := Half(windowWidth - p.width), y := Half(windowHeight - p.height))
  }

  /**
   * Whether slice cell `q` is on the wall around a `w` by `h` interior:
   * rows -1 and `h` over columns -1..w, and columns -1 and `w` over rows -1..h.
   */
  predicate OnWall(w: int, h: int, q: Pos) {
    ((q.1 == -1 || q.1 == h) && -1 <= q.0 <= w) ||
    ((q.0 == -1 || q.0 == w) && -1 <= q.1 <= h)
  }

  /** The cell the wall leaves at root position `p`, for a box sliced out as `box`. */
  function WallCell(box: Surface, w: int, h: int, p: Pos): (o: Option<Cell>)
    ensures o.Some? <==> OnWall(w, h, (p.0 - Origin(box).0, p.1 - Origin(box).1))
    ensures o.Some? ==> o.value == Wall
  {
    if OnWall(w, h, (p.0 - Origin(box).0, p.1 - Origin(box).1)) then Some(Wall) else None
  }

  /** No cell of the interior is on the wall. */
  lemma InteriorIsNotWall(w: int, h: int, q: Pos)
    requires 0 <= q.0 < w && 0 <= q.1 < h
    ensures !OnWall(w, h, q)
  {
  }

  /** Every cell at distance one outside the interior's rectangle is on the wall. */
  lemma RingIsWall(w: int, h: int, q: Pos)
    requires -1 <= w && -1 <= h
    requires -1 <= q.0 <= w && -1 <= q.1 <= h
    requires !(0 <= q.0 < w && 0 <= q.1 < h)
    ensures OnWall(w, h, q)
  {
  }

  /** The walls the first loop has drawn once its counter reached `n`. */
  function RowWalls(box: Surface, w: int, h: int, n: int, c: Pos): Option<Cell> {
    var q := (c.0 - Origin(box).0, c.1 - Origin(box).1);
    if (q.1 == -1 || q.1 == h) && -1 <= q.0 < n then Some(Wall) else None
  }

  /** The walls the second loop has drawn once its counter reached `n`. */
  function SideWalls(box: Surface, w: int, h: int, n: int, c: Pos): Option<Cell> {
    var q := (c.0 - Origin(box).0, c.1 - Origin(box).1);
    if (q.0 == -1 || q.0 == w) && -1 <= q.1 < n then Some(Wall) else None
  }

  /**
   * `present(canvas)`: on the slice `(x, y, width, height)` of the canvas,
   * draws the top and bottom walls and then the side walls; nothing else
   * changes, and the canvas given, not the slice, is returned.
   */
  method Present(screen: Screen, s: Surface, p: Props) returns (r: Surface)
    modifies screen
    ensures r == s
    ensures forall c :: Shows(old(screen.cells), screen.cells, c,
      WallCell(SliceOf(s, p.x, p.y, p.width, p.height), p.width, p.height, c))
    ensures screen.background == old(screen.background) && screen.frames == old(screen.frames)
  {
    var slice := SliceOf(s, p.x, p.y, p.width, p.height);
    var w := p.width;
    var h := p.height;
    var i := -1;
    while i <= w
      invariant -1 <= i && (w >= -1 ==> i <= w + 1) && (w < -1 ==> i == -1)
      invariant forall c :: Shows(old(screen.cells), screen.cells, c, RowWalls(slice, w, h, i, c))
      invariant screen.background == old(screen.background) && screen.frames == old(screen.frames)
    {
      ghost var before := screen.cells;
      ghost var next := i + 1;
      SetCell(screen, slice, i, -1, Wall);
      SetCell(screen, slice, i, h, Wall);
      forall c ensures Shows(old(screen.cells), screen.cells, c, RowWalls(slice, w, h, next, c)) {
        assert Shows(old(screen.cells), before, c, RowWalls(slice, w, h, i, c));
      }
      i := i + 1;
    }
    ghost var rows := screen.cells;
    ghost var rowsDone := i;
    i := -1;
    while i <= h
      invariant -1 <= i && (h >= -1 ==> i <= h + 1) && (h < -1 ==> i == -1)
      invariant forall c :: Shows(rows, screen.cells, c, SideWalls(slice, w, h, i, c))
      invariant screen.background == old(screen.background) && screen.frames == old(screen.frames)
    {
      ghost var before := screen.cells;
      ghost var next := i + 1;
      SetCell(screen, slice, -1, i, Wall);
      SetCell(screen, slice, w, i, Wall);
      forall c ensures Shows(rows, screen.cells, c, SideWalls(slice, w, h, next, c)) {
        assert Shows(rows, before, c, SideWalls(slice, w, h, i, c));
      }
      i := i + 1;
    }
    forall c ensures Shows(old(screen.cells), screen.cells, c, WallCell(slice, w, h, c)) {
      ShowsThen(old(screen.cells), rows, screen.cells, c,
        RowWalls(slice, w, h, rowsDone, c), SideWalls(slice, w, h, i, c));
    }
    r := s;
  }
}
