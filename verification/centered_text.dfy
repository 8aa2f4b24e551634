/**
 * The `CenteredText` end component: its `present` writes the `msg` prop
 * centred on the canvas it is given and returns that same canvas.
 */
module CenteredText {
  import opened ImmutableStruct
  import opened Canvas
  import opened CppInt

  /**
   * Column of the first character: `(getWidth() - msg.size()) / 2`. The
   * difference is taken in `size_t`, so a message wider than the canvas
   * wraps; halving the wrapped value and narrowing it back to `int` gives
   * half the signed difference rounded down, which is Dafny's `/`. The
   * message is centred to within one cell either way, and starts inside the
   * canvas when it fits.
   */
  function Column(width: int, len: nat): (x: int)
    ensures 2 * x + len <= width <= 2 * x + len + 1
    ensures len <= width ==> 0 <= x
  {
    (width - len) / 2
  }

  /** Row of the message: `(getHeight() - 1) / 2`, rounded toward zero. */
  function Row(height: int): (y: int)
    ensures height >= 1 ==> 0 <= y < height && 2 * y + 1 <= height <= 2 * y + 2
    ensures height <= 0 ==> y == Half(height - 1)
  {
    Half(height - 1)
  }

  /**
   * `present(canvas)`: the message, and nothing else, is written on row
   * `Row(height)` starting at column `Column(width, |msg|)`, with the
   * default colours; the canvas itself is returned.
   */
  method Present(screen: Screen, s: Surface, msg: string) returns (r: Surface)
    modifies screen
    ensures r == s
    ensures forall i :: 0 <= i < |msg| ==>
      Holds(screen.cells,
            (Origin(s).0 + Column(Width(screen, s), |msg|) + i, Origin(s).1 + Row(Height(screen, s))),
            Cell(msg[i] as int, 0, 0))
    ensures forall p :: Shows(old(screen.cells), screen.cells, p,
      TextCell(s, Column(Width(screen, s), |msg|), Row(Height(screen, s)), msg, 0, 0, p))
    ensures screen.background == old(screen.background) && screen.frames == old(screen.frames)
  {
    WriteString(screen, s, (Width(screen, s) - |msg|) / 2, Half(Height(screen, s) - 1), msg, 0, 0);
    r := s;
  }
}
