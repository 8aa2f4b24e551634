/**
 * Canvases. The root canvas is the terminal's back buffer: a map from
 * (column, row) to a cell, a background that `clear` resets, and a count of
 * frames handed to the terminal. A slice is a window onto another canvas: it
 * reports its own width and height and forwards every drawing call to its
 * target, with its offset added to the coordinates and no clipping.
 */
module Canvas {
  import opened ImmutableStruct

  /** A character with its foreground and background attributes. */
  datatype Cell = Cell(ch: int, fg: int, bg: int)

  type Pos = (int, int)

  /** The root canvas. */
  class Screen {
    const width: int
    const height: int
    /** Cells written since the last clear. */
    var cells: map<Pos, Cell>
    /** What every other cell shows: a blank in the colours of the last clear. */
    var background: Cell
    /** Number of frames presented. */
    var frames: nat

    constructor (width: int, height: int)
      ensures this.width == width && this.height == height
      ensures cells == map[] && background == Cell(' ' as int, 0, 0) && frames == 0
    {
      this.width := width;
      this.height := height;
      cells := map[];
      background := Cell(' ' as int, 0, 0);
      frames := 0;
    }

    /** What the terminal shows at `p`. */
    function At(p: Pos): (c: Cell)
      reads this
      ensures p in cells ==> c == cells[p]
      ensures p !in cells ==> c == background
    {
      if p in cells then cells[p] else background
    }
  }

  /** A canvas: the root, or a slice `(x, y, w, h)` of another canvas. */
  datatype Surface = Root | Slice(target: Surface, x: int, y: int, w: int, h: int)

  /** Where a surface's cell (0, 0) lies on the root. */
  function Origin(s: Surface): Pos {
    match s
    case Root => (0, 0)
    case Slice(t, x, y, _, _) => (Origin(t).0 + x, Origin(t).1 + y)
  }

  /** `getWidth()`: the root's width, or the width a slice was built with. */
  function Width(screen: Screen, s: Surface): int {
    if s.Root? then screen.width else s.w
  }

  /** `getHeight()`. */
  function Height(screen: Screen, s: Surface): int {
    if s.Root? then screen.height else s.h
  }

  /**
   * `Canvas::slice(x, y, w, h)`: a canvas of exactly the given size whose
   * cell (0, 0) is the parent's cell (x, y).
   */
  function SliceOf(s: Surface, x: int, y: int, w: int, h: int): (r: Surface)
    ensures r.Slice? && r.w == w && r.h == h
    ensures Origin(r) == (Origin(s).0 + x, Origin(s).1 + y)
  {
    Slice(s, x, y, w, h)
  }

  /** A slice reports the size it was built with, whatever the root's size. */
  lemma SliceReportsItsSize(screen: Screen, s: Surface, x: int, y: int, w: int, h: int)
    ensures Width(screen, SliceOf(s, x, y, w, h)) == w
    ensures Height(screen, SliceOf(s, x, y, w, h)) == h
  {
  }

  /** The total offset of a surface is the sum of the offsets of its slices. */
  function OffsetSum(s: Surface): (d: Pos) {
    match s
    case Root => (0, 0)
    case Slice(t, x, y, _, _) => (x + OffsetSum(t).0, y + OffsetSum(t).1)
  }

  lemma {:induction false} OriginIsOffsetSum(s: Surface)
    ensures Origin(s) == OffsetSum(s)
  {
    match s
    case Root =>
    case Slice(t, _, _, _, _) => OriginIsOffsetSum(t);
  }

  /** Cells `p` is unchanged at: present in both maps with the same content, or in neither. */
  predicate Agree(before: map<Pos, Cell>, after: map<Pos, Cell>, p: Pos) {
    (p in before <==> p in after) && (p in before ==> before[p] == after[p])
  }

  /**
   * What drawing did to cell `p`: with `Some(c)` the cell now holds `c`,
   * with `None` it is as it was.
   */
  predicate Shows(before: map<Pos, Cell>, after: map<Pos, Cell>, p: Pos, o: Option<Cell>) {
    if o.Some? then Holds(after, p, o.value) else Agree(before, after, p)
  }

  /** Cell `p` holds `c`. */
  predicate Holds(m: map<Pos, Cell>, p: Pos, c: Cell) {
    p in m && m[p] == c
  }

  /** Drawing `top` after `bottom`: the later write wins. */
  function Over(bottom: Option<Cell>, top: Option<Cell>): (r: Option<Cell>)
    ensures r.None? <==> bottom.None? && top.None?
    ensures top.Some? ==> r == top
  {
    if top.Some? then top else bottom
  }

  /** Two drawing steps in a row show the later write over the earlier one. */
  lemma ShowsThen(a: map<Pos, Cell>, b: map<Pos, Cell>, c: map<Pos, Cell>, p: Pos,
                  first: Option<Cell>, second: Option<Cell>)
    requires Shows(a, b, p, first) && Shows(b, c, p, second)
    ensures Shows(a, c, p, Over(first, second))
  {
  }

  /**
   * `setCell(x, y, ch, fg, bg)`: on the root, writes the cell; on a slice,
   * forwards to the target with the slice's offset added.
   */
  method SetCell(screen: Screen, s: Surface, x: int, y: int, c: Cell)
    modifies screen
    ensures screen.cells == old(screen.cells)[(Origin(s).0 + x, Origin(s).1 + y) := c]
    ensures screen.background == old(screen.background) && screen.frames == old(screen.frames)
    // the terminal shows `c` at the shifted cell
    ensures screen.At((Origin(s).0 + x, Origin(s).1 + y)) == c
    decreases s
  {
    match s
    case Root =>
      screen.cells := screen.cells[(x, y) := c];
    case Slice(t, ox, oy, _, _) =>
      SetCell(screen, t, x + ox, y + oy, c);
  }

  /** `clear(fg, bg)`: forwarded down to the root, which blanks every cell. */
  method Clear(screen: Screen, s: Surface, fg: int, bg: int)
    modifies screen
    ensures screen.cells == map[] && screen.background == Cell(' ' as int, fg, bg)
    ensures screen.frames == old(screen.frames)
    // every cell of the terminal shows a blank in the new colours
    ensures forall p :: screen.At(p) == Cell(' ' as int, fg, bg)
    decreases s
  {
    match s
    case Root =>
      screen.cells := map[];
      screen.background := Cell(' ' as int, fg, bg);
    case Slice(t, _, _, _, _) =>
      Clear(screen, t, fg, bg);
  }

  /** `present()`: forwarded down to the root, which hands one frame to the terminal. */
  method Present(screen: Screen, s: Surface)
    modifies screen
    ensures screen.frames == old(screen.frames) + 1
    ensures screen.cells == old(screen.cells) && screen.background == old(screen.background)
    decreases s
  {
    match s
    case Root =>
      screen.frames := screen.frames + 1;
    case Slice(t, _, _, _, _) =>
      Present(screen, t);
  }

  /** Whether `p` is one of the cells `writeString(x, y, str)` on `s` writes. */
  predicate InText(s: Surface, x: int, y: int, n: int, p: Pos) {
    p.1 == Origin(s).1 + y && Origin(s).0 + x <= p.0 < Origin(s).0 + x + n
  }

  /** The cell `writeString(x, y, str, fg, bg)` on `s` leaves at root position `p`. */
  function TextCell(s: Surface, x: int, y: int, str: string, fg: int, bg: int, p: Pos): (o: Option<Cell>)
    ensures o.Some? <==> InText(s, x, y, |str|, p)
    ensures o.Some? ==>
      o.value == Cell(str[p.0 - Origin(s).0 - x] as int, fg, bg)
  {
    if InText(s, x, y, |str|, p) then Some(Cell(str[p.0 - Origin(s).0 - x] as int, fg, bg)) else None
  }

  /**
   * `writeString(x, y, str, fg, bg)`: character `i` goes to cell (x + i, y),
   * in order; nothing else changes.
   */
  method WriteString(screen: Screen, s: Surface, x: int, y: int, str: string, fg: int, bg: int)
    modifies screen
    ensures forall i :: 0 <= i < |str| ==>
      Holds(screen.cells, (Origin(s).0 + x + i, Origin(s).1 + y), Cell(str[i] as int, fg, bg))
    ensures forall p :: !InText(s, x, y, |str|, p) ==> Agree(old(screen.cells), screen.cells, p)
    ensures forall p :: Shows(old(screen.cells), screen.cells, p, TextCell(s, x, y, str, fg, bg, p))
    ensures screen.background == old(screen.background) && screen.frames == old(screen.frames)
  {
    var i := 0;
    while i < |str|
      invariant 0 <= i <= |str|
      invariant forall p :: Shows(old(screen.cells), screen.cells, p, TextCell(s, x, y, str[..i], fg, bg, p))
      invariant screen.background == old(screen.background) && screen.frames == old(screen.frames)
    {
      ghost var before := screen.cells;
      ghost var done := str[..i + 1];
      SetCell(screen, s, x + i, y, Cell(str[i] as int, fg, bg));
      forall p ensures Shows(old(screen.cells), screen.cells, p, TextCell(s, x, y, done, fg, bg, p)) {
        assert Shows(old(screen.cells), before, p, TextCell(s, x, y, str[..i], fg, bg, p));
      }
      i := i + 1;
    }
    assert str[..i] == str;
    ghost var o := Origin(s);
    forall k | 0 <= k < |str|
      ensures Holds(screen.cells, (o.0 + x + k, o.1 + y), Cell(str[k] as int, fg, bg))
    {
      assert InText(s, x, y, |str|, (o.0 + x + k, o.1 + y));
      assert Shows(old(screen.cells), screen.cells, (o.0 + x + k, o.1 + y),
                   TextCell(s, x, y, str, fg, bg, (o.0 + x + k, o.1 + y)));
    }
    forall p | !InText(s, x, y, |str|, p) ensures Agree(old(screen.cells), screen.cells, p) {
      assert Shows(old(screen.cells), screen.cells, p, TextCell(s, x, y, str, fg, bg, p));
    }
  }
}
