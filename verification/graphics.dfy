/**
 * The two-plane frame buffer of src/graphics.rs. A pixel is one bit in the
 * black plane and the same bit in the red plane, found by the rotation
 * mapping; Black is (0, 1), White is (1, 1) and Red is (1, 0).
 */
module Graphics {
  import opened Base
  import opened Colors
  import opened Panel
  import opened Display

  /** A display promoted with the two caller-supplied plane buffers. */
  datatype GraphicDisplay = GraphicDisplay(display: Display, black: seq<Byte>, red: seq<Byte>)

  /** Byte index into a plane and the mask of the pixel's bit in that byte. */
  datatype Loc = Loc(index: nat, mask: Byte)

  datatype Size = Size(width: nat, height: nat)

  /** A byte with exactly one bit set. */
  predicate SingleBit(m: Byte) {
    m == 0x01 || m == 0x02 || m == 0x04 || m == 0x08 || m == 0x10 || m == 0x20 || m == 0x40 || m == 0x80
  }

  /** `0x80 >> k`, tabulated: bit k counted from the most significant end. */
  function MsbMask(k: nat): (m: Byte)
    requires k < 8
    ensures SingleBit(m)
  {
    match k
    case 0 => 0x80 case 1 => 0x40 case 2 => 0x20 case 3 => 0x10
    case 4 => 0x08 case 5 => 0x04 case 6 => 0x02 case _ => 0x01
  }

  /** `0x01 << k`, tabulated: bit k counted from the least significant end. */
  function LsbMask(k: nat): (m: Byte)
    requires k < 8
    ensures SingleBit(m)
  {
    match k
    case 0 => 0x01 case 1 => 0x02 case 2 => 0x04 case 3 => 0x08
    case 4 => 0x10 case 5 => 0x20 case 6 => 0x40 case _ => 0x80
  }

  /** The tables are the shifts the driver writes. */
  lemma MasksAreShifts(k: nat)
    requires k < 8
    ensures MsbMask(k) == (0x80 as Byte) >> k
    ensures LsbMask(k) == (0x01 as Byte) << k
  {
    if k == 0 {} else if k == 1 {} else if k == 2 {} else if k == 3 {}
    else if k == 4 {} else if k == 5 {} else if k == 6 {} else {}
  }

  lemma MasksInjective(k1: nat, k2: nat)
    requires k1 < 8 && k2 < 8
    ensures MsbMask(k1) == MsbMask(k2) ==> k1 == k2
    ensures LsbMask(k1) == LsbMask(k2) ==> k1 == k2
  {
  }

  /** `size()`: the drawable area after rotation. */
  function SizeFor(r: Rotation, cols: nat, rows: nat): Size {
    match r
    case Rotate0 => Size(cols, rows)
    case Rotate180 => Size(cols, rows)
    case Rotate90 => Size(rows, cols)
    case Rotate270 => Size(rows, cols)
  }

  predicate InBounds(x: nat, y: nat, width: nat, height: nat, r: Rotation) {
    x < SizeFor(r, width, height).width && y < SizeFor(r, width, height).height
  }

  /** Bytes in one plane: `width / 8` bytes per native row. */
  function PlaneBytes(width: nat, height: nat): nat {
    (width / 8) * height
  }

  // ----- arithmetic facts behind the mapping -----

  lemma MulMono(w: nat, a: nat, b: nat)
    requires a <= b
    ensures w * a <= w * b
  {
  }

  /** Row-major offsets stay inside the plane. */
  lemma RowMajorBound(w: nat, h: nat, a: nat, b: nat)
    requires a < w && b < h
    ensures a + w * b < w * h
  {
    MulMono(w, b + 1, h);
  }

  /** A row-major offset determines its row and column. */
  lemma RowMajorUnique(w: nat, a1: nat, b1: nat, a2: nat, b2: nat)
    requires a1 < w && a2 < w
    requires a1 + w * b1 == a2 + w * b2
    ensures a1 == a2 && b1 == b2
  {
    if b1 < b2 {
      MulMono(w, b1 + 1, b2);
    } else if b2 < b1 {
      MulMono(w, b2 + 1, b1);
    }
  }

  /** Counting columns from the right edge of a panel a multiple of 8 wide. */
  lemma Mirror8(w: nat, y: nat)
    requires y < 8 * w
    ensures (8 * w - 1 - y) / 8 == w - 1 - y / 8
  {
    var q := y / 8;
    var r := y % 8;
    assert 8 * w - 1 - y == 8 * (w - 1 - q) + (7 - r);
  }

  /** Unrotated: row-major, most significant bit leftmost. */
  function Rotate0Loc(x: nat, y: nat, width: nat, height: nat): (l: Loc)
    requires width % 8 == 0 && x < width && y < height
    ensures l.index < PlaneBytes(width, height) && SingleBit(l.mask)
  {
    var w := width / 8;
    RowMajorBound(w, height, x / 8, y);
    Loc(x / 8 + w * y, MsbMask(x % 8))
  }

  /** Logical x walks native rows; logical y walks native columns from the right. */
  function Rotate90Loc(x: nat, y: nat, width: nat, height: nat): (l: Loc)
    requires width % 8 == 0 && x < height && y < width
    ensures l.index < PlaneBytes(width, height) && SingleBit(l.mask)
  {
    var w := width / 8;
    Mirror8(w, y);
    RowMajorBound(w, height, (width - 1 - y) / 8, x);
    Loc((width - 1 - y) / 8 + w * x, LsbMask(y % 8))
  }

  /** The unrotated offset counted from the end of the plane. */
  function Rotate180Loc(x: nat, y: nat, width: nat, height: nat): (l: Loc)
    requires width % 8 == 0 && x < width && y < height
    ensures l.index < PlaneBytes(width, height) && SingleBit(l.mask)
  {
    var w := width / 8;
    RowMajorBound(w, height, x / 8, y);
    Loc((w * height - 1) - (x / 8 + w * y), LsbMask(x % 8))
  }

  /** Logical y walks native columns; logical x walks native rows from the bottom. */
  function Rotate270Loc(x: nat, y: nat, width: nat, height: nat): (l: Loc)
    requires width % 8 == 0 && x < height && y < width
    ensures l.index < PlaneBytes(width, height) && SingleBit(l.mask)
  {
    var w := width / 8;
    RowMajorBound(w, height, y / 8, height - 1 - x);
    Loc(y / 8 + (height - 1 - x) * w, MsbMask(y % 8))
  }

  /**
   * `rotation`: native byte index and bit mask of logical pixel (x, y). With a
   * width that is a multiple of 8 and an in-bounds pixel the index lies in the
   * plane and the mask has exactly one bit set.
   */
  function Rotate(x: nat, y: nat, width: nat, height: nat, r: Rotation): (l: Loc)
    requires width % 8 == 0 && InBounds(x, y, width, height, r)
    ensures l.index < PlaneBytes(width, height)
    ensures SingleBit(l.mask)
  {
    match r
    case Rotate0 => Rotate0Loc(x, y, width, height)
    case Rotate90 => Rotate90Loc(x, y, width, height)
    case Rotate180 => Rotate180Loc(x, y, width, height)
    case Rotate270 => Rotate270Loc(x, y, width, height)
  }

  lemma Rotate0Injective(x1: nat, y1: nat, x2: nat, y2: nat, width: nat, height: nat)
    requires width % 8 == 0
    requires InBounds(x1, y1, width, height, Rotate0) && InBounds(x2, y2, width, height, Rotate0)
    requires Rotate0Loc(x1, y1, width, height) == Rotate0Loc(x2, y2, width, height)
    ensures x1 == x2 && y1 == y2
  {
    RowMajorUnique(width / 8, x1 / 8, y1, x2 / 8, y2);
    MasksInjective(x1 % 8, x2 % 8);
  }

  lemma Rotate90Injective(x1: nat, y1: nat, x2: nat, y2: nat, width: nat, height: nat)
    requires width % 8 == 0
    requires InBounds(x1, y1, width, height, Rotate90) && InBounds(x2, y2, width, height, Rotate90)
    requires Rotate90Loc(x1, y1, width, height) == Rotate90Loc(x2, y2, width, height)
    ensures x1 == x2 && y1 == y2
  {
    var w := width / 8;
    Mirror8(w, y1);
    Mirror8(w, y2);
    RowMajorUnique(w, (width - 1 - y1) / 8, x1, (width - 1 - y2) / 8, x2);
    MasksInjective(y1 % 8, y2 % 8);
  }

  lemma Rotate180Injective(x1: nat, y1: nat, x2: nat, y2: nat, width: nat, height: nat)
    requires width % 8 == 0
    requires InBounds(x1, y1, width, height, Rotate180) && InBounds(x2, y2, width, height, Rotate180)
    requires Rotate180Loc(x1, y1, width, height) == Rotate180Loc(x2, y2, width, height)
    ensures x1 == x2 && y1 == y2
  {
    RowMajorUnique(width / 8, x1 / 8, y1, x2 / 8, y2);
    MasksInjective(x1 % 8, x2 % 8);
  }

  lemma Rotate270Injective(x1: nat, y1: nat, x2: nat, y2: nat, width: nat, height: nat)
    requires width % 8 == 0
    requires InBounds(x1, y1, width, height, Rotate270) && InBounds(x2, y2, width, height, Rotate270)
    requires Rotate270Loc(x1, y1, width, height) == Rotate270Loc(x2, y2, width, height)
    ensures x1 == x2 && y1 == y2
  {
    var w := width / 8;
    var b1, b2 := height - 1 - x1, height - 1 - x2;
    assert y1 / 8 + b1 * w == y2 / 8 + b2 * w;
    assert b1 * w == w * b1 && b2 * w == w * b2;
    RowMajorUnique(w, y1 / 8, b1, y2 / 8, b2);
    MasksInjective(y1 % 8, y2 % 8);
    assert y1 == 8 * (y1 / 8) + y1 % 8 && y2 == 8 * (y2 / 8) + y2 % 8;
  }

  /** Distinct in-bounds pixels never share a bit of the plane. */
  lemma RotateInjective(x1: nat, y1: nat, x2: nat, y2: nat, width: nat, height: nat, r: Rotation)
    requires width % 8 == 0
    requires InBounds(x1, y1, width, height, r) && InBounds(x2, y2, width, height, r)
    requires Rotate(x1, y1, width, height, r) == Rotate(x2, y2, width, height, r)
    ensures x1 == x2 && y1 == y2
  {
    match r
    case Rotate0 => Rotate0Injective(x1, y1, x2, y2, width, height);
    case Rotate90 => Rotate90Injective(x1, y1, x2, y2, width, height);
    case Rotate180 => Rotate180Injective(x1, y1, x2, y2, width, height);
    case Rotate270 => Rotate270Injective(x1, y1, x2, y2, width, height);
  }

  // The literal vectors for the corners of a 104 x 212 panel, unrotated and
  // rotated by 270 degrees, one lemma per corner.

  lemma Corner0TopLeft()
    ensures Rotate(0, 0, 104, 212, Rotate0) == Loc(0, 0x80)
  {
  }

  lemma Corner0TopRight()
    ensures Rotate(103, 0, 104, 212, Rotate0) == Loc(12, 0x01)
  {
  }

  lemma Corner0BottomRight()
    ensures Rotate(103, 211, 104, 212, Rotate0) == Loc(2755, 0x01)
  {
  }

  lemma Corner0BottomLeft()
    ensures Rotate(0, 211, 104, 212, Rotate0) == Loc(2743, 0x80)
  {
  }

  lemma Corner270TopLeft()
    ensures Rotate(0, 0, 104, 212, Rotate270) == Loc(2743, 0x80)
  {
  }

  lemma Corner270TopRight()
    ensures Rotate(211, 0, 104, 212, Rotate270) == Loc(0, 0x80)
  {
  }

  lemma Corner270BottomRight()
    ensures Rotate(211, 103, 104, 212, Rotate270) == Loc(12, 0x01)
  {
  }

  lemma Corner270BottomLeft()
    ensures Rotate(0, 103, 104, 212, Rotate270) == Loc(2755, 0x01)
  {
  }

  // ----- the graphic display -----

  function Width(g: GraphicDisplay): nat {
    Cols(g.display) as nat
  }

  function Height(g: GraphicDisplay): nat {
    Rows(g.display) as nat
  }

  /** `size()`. */
  function SizeOf(g: GraphicDisplay): (s: Size)
    ensures RotationOf(g.display) in {Rotate0, Rotate180} ==> s == Size(Width(g), Height(g))
    ensures RotationOf(g.display) in {Rotate90, Rotate270} ==> s == Size(Height(g), Width(g))
  {
    SizeFor(RotationOf(g.display), Width(g), Height(g))
  }

  /** Columns a multiple of 8 (guaranteed by the builder) and both planes long enough to index. */
  predicate Fits(g: GraphicDisplay) {
    && Width(g) % 8 == 0
    && |g.black| >= PlaneBytes(Width(g), Height(g))
    && |g.red| >= PlaneBytes(Width(g), Height(g))
  }

  predicate OnPanel(g: GraphicDisplay, x: nat, y: nat) {
    InBounds(x, y, Width(g), Height(g), RotationOf(g.display))
  }

  function Locate(g: GraphicDisplay, x: nat, y: nat): (l: Loc)
    requires Fits(g) && OnPanel(g, x, y)
    ensures l.index < |g.black| && l.index < |g.red|
    ensures SingleBit(l.mask)
  {
    Rotate(x, y, Width(g), Height(g), RotationOf(g.display))
  }

  /** The colour a (black, red) bit pair stands for; (0, 0) is never written. */
  function ColorOfBits(blackBit: bool, redBit: bool): Option<Color> {
    if !blackBit && redBit then Some(Black)
    else if blackBit && redBit then Some(White)
    else if blackBit && !redBit then Some(Red)
    else None
  }

  /** The colour stored at a pixel. */
  function PixelAt(g: GraphicDisplay, x: nat, y: nat): Option<Color>
    requires Fits(g) && OnPanel(g, x, y)
  {
    var l := Locate(g, x, y);
    ColorOfBits(g.black[l.index] & l.mask != 0, g.red[l.index] & l.mask != 0)
  }

  /** Set (`on`) or clear the bits of `m` in `b`. */
  function Paint(b: Byte, m: Byte, on: bool): (r: Byte)
    ensures on ==> r & m == m
    ensures !on ==> r & m == 0
    ensures r & !m == b & !m
  {
    if on then b | m else b & !m
  }

  /** The new (black, red) bytes `set_pixel` writes per colour, for the bit `bit`. */
  function PaintBytes(b: Byte, r: Byte, bit: Byte, c: Color): (p: (Byte, Byte))
  {
    match c
    case Black => (b & !bit, r | bit)
    case White => (b | bit, r | bit)
    case Red => (b | bit, r & !bit)
  }

  /** Per colour, the black bit is set unless the colour is Black and the red bit unless it is Red. */
  lemma PaintBytesPaints(b: Byte, r: Byte, bit: Byte, c: Color)
    ensures PaintBytes(b, r, bit, c) == (Paint(b, bit, c != Black), Paint(r, bit, c != Red))
  {
    if c == Black {
      assert PaintBytes(b, r, bit, c) == (b & !bit, r | bit);
    } else if c == White {
      assert PaintBytes(b, r, bit, c) == (b | bit, r | bit);
    } else {
      assert PaintBytes(b, r, bit, c) == (b | bit, r & !bit);
    }
  }

  /** `set_pixel`. */
  function SetPixel(g: GraphicDisplay, x: nat, y: nat, c: Color): (r: GraphicDisplay)
    requires Fits(g) && OnPanel(g, x, y)
    ensures r.display == g.display
    ensures |r.black| == |g.black| && |r.red| == |g.red|
  {
    var l := Locate(g, x, y);
    var p := PaintBytes(g.black[l.index], g.red[l.index], l.mask, c);
    g.(black := g.black[l.index := p.0], red := g.red[l.index := p.1])
  }

  /**
   * `set_pixel` touches one byte of each plane and in it only the pixel's
   * bit: the black bit ends up set unless the colour is Black, the red bit
   * unless it is Red.
   */
  lemma SetPixelPaints(g: GraphicDisplay, x: nat, y: nat, c: Color)
    requires Fits(g) && OnPanel(g, x, y)
    ensures var l := Locate(g, x, y);
      SetPixel(g, x, y, c).black == g.black[l.index := Paint(g.black[l.index], l.mask, c != Black)]
    ensures var l := Locate(g, x, y);
      SetPixel(g, x, y, c).red == g.red[l.index := Paint(g.red[l.index], l.mask, c != Red)]
  {
    var l := Locate(g, x, y);
    PaintBytesPaints(g.black[l.index], g.red[l.index], l.mask, c);
  }

  /** Reading a pixel back after `set_pixel` gives the colour written. */
  lemma SetPixelReadsBack(g: GraphicDisplay, x: nat, y: nat, c: Color)
    requires Fits(g) && OnPanel(g, x, y)
    ensures Fits(SetPixel(g, x, y, c))
    ensures PixelAt(SetPixel(g, x, y, c), x, y) == Some(c)
  {
    SetPixelPaints(g, x, y, c);
    var l := Locate(g, x, y);
    assert Locate(SetPixel(g, x, y, c), x, y) == l;
  }

  /** Two distinct single-bit masks share no bit. */
  lemma DistinctBits(m1: Byte, m2: Byte)
    requires SingleBit(m1) && SingleBit(m2) && m1 != m2
    ensures m2 & !m1 == m2
  {
  }

  /** `set_pixel` changes no other pixel. */
  lemma SetPixelKeepsOthers(g: GraphicDisplay, x: nat, y: nat, c: Color, x': nat, y': nat)
    requires Fits(g) && OnPanel(g, x, y) && OnPanel(g, x', y')
    requires x != x' || y != y'
    ensures Fits(SetPixel(g, x, y, c))
    ensures PixelAt(SetPixel(g, x, y, c), x', y') == PixelAt(g, x', y')
  {
    SetPixelPaints(g, x, y, c);
    var r := SetPixel(g, x, y, c);
    var l := Locate(g, x, y);
    var l' := Locate(g, x', y');
    assert Locate(r, x', y') == l';
    if l == l' {
      RotateInjective(x, y, x', y', Width(g), Height(g), RotationOf(g.display));
    } else if l.index == l'.index {
      DistinctBits(l.mask, l'.mask);
      KeepMasked(g.black[l.index], l.mask, l'.mask, c != Black);
      KeepMasked(g.red[l.index], l.mask, l'.mask, c != Red);
    }
  }

  /** Painting one bit leaves a disjoint bit as it was. */
  lemma KeepMasked(b: Byte, m: Byte, m': Byte, on: bool)
    requires m' & !m == m'
    ensures Paint(b, m, on) & m' == b & m'
  {
    assert Paint(b, m, on) & !m == b & !m;
    assert Paint(b, m, on) & m' == (Paint(b, m, on) & !m) & m';
  }

  /** Writing a pixel twice leaves what the second write chose; writing the same colour twice is writing it once. */
  lemma SetPixelLastWins(g: GraphicDisplay, x: nat, y: nat, c1: Color, c2: Color)
    requires Fits(g) && OnPanel(g, x, y)
    ensures Fits(SetPixel(g, x, y, c1))
    ensures SetPixel(SetPixel(g, x, y, c1), x, y, c2) == SetPixel(g, x, y, c2)
    ensures SetPixel(SetPixel(g, x, y, c1), x, y, c1) == SetPixel(g, x, y, c1)
  {
    var g1 := SetPixel(g, x, y, c1);
    var l := Locate(g, x, y);
    SetPixelPaints(g, x, y, c1);
    assert Locate(g1, x, y) == l;
    SetPixelPaints(g1, x, y, c2);
    SetPixelPaints(g1, x, y, c1);
    SetPixelPaints(g, x, y, c2);
    RepaintBit(g.black[l.index], l.mask, c1 != Black, c2 != Black);
    RepaintBit(g.red[l.index], l.mask, c1 != Red, c2 != Red);
    RepaintBit(g.black[l.index], l.mask, c1 != Black, c1 != Black);
    RepaintBit(g.red[l.index], l.mask, c1 != Red, c1 != Red);
  }

  lemma RepaintBit(b: Byte, m: Byte, on1: bool, on2: bool)
    ensures Paint(Paint(b, m, on1), m, on2) == Paint(b, m, on2)
  {
  }

  /** The (black, red) byte pair `clear` fills the planes with. */
  function ClearBytes(c: Color): (Byte, Byte) {
    match c
    case White => (0xFF, 0xFF)
    case Black => (0x00, 0xFF)
    case Red => (0xFF, 0x00)
  }

  /** `clear`: every byte of both planes, whatever their lengths. */
  function Clear(g: GraphicDisplay, c: Color): (r: GraphicDisplay)
    ensures r.display == g.display
    ensures |r.black| == |g.black| && |r.red| == |g.red|
    ensures forall i :: 0 <= i < |r.black| ==> r.black[i] == ClearBytes(c).0
    ensures forall i :: 0 <= i < |r.red| ==> r.red[i] == ClearBytes(c).1
  {
    var (b, rd) := ClearBytes(c);
    g.(black := seq(|g.black|, _ => b), red := seq(|g.red|, _ => rd))
  }

  /** After `clear(c)` every pixel reads `c`: the fill uses the same bit pairs as `set_pixel`. */
  lemma ClearReadsBack(g: GraphicDisplay, c: Color, x: nat, y: nat)
    requires Fits(g) && OnPanel(g, x, y)
    ensures Fits(Clear(g, c))
    ensures PixelAt(Clear(g, c), x, y) == Some(c)
  {
    var r := Clear(g, c);
    var l := Locate(g, x, y);
    assert Locate(r, x, y) == l;
  }

  /** A later `clear` overrides an earlier one, so clearing twice is clearing once. */
  lemma ClearLastWins(g: GraphicDisplay, c1: Color, c2: Color)
    ensures Clear(Clear(g, c1), c2) == Clear(g, c2)
    ensures Clear(Clear(g, c1), c1) == Clear(g, c1)
  {
  }

  /** The 3-byte planes of a 3-row, 8-column panel after each `clear`. */
  lemma ClearVectors(d: Display)
    ensures Clear(GraphicDisplay(d, [0, 0, 0], [0, 0, 0]), White) == GraphicDisplay(d, [0xFF, 0xFF, 0xFF], [0xFF, 0xFF, 0xFF])
    ensures Clear(GraphicDisplay(d, [0, 0, 0], [0, 0, 0]), Black) == GraphicDisplay(d, [0x00, 0x00, 0x00], [0xFF, 0xFF, 0xFF])
    ensures Clear(GraphicDisplay(d, [0, 0, 0], [0, 0, 0]), Red) == GraphicDisplay(d, [0xFF, 0xFF, 0xFF], [0x00, 0x00, 0x00])
  {
  }

  // ----- the drawing target -----

  predicate IsI32(v: int) {
    -0x8000_0000 <= v < 0x8000_0000
  }

  /** `v as u32` for an `i32`: negative values wrap to the top of the range. */
  function AsU32(v: int): (u: nat)
    requires IsI32(v)
    ensures u < 0x1_0000_0000
    ensures v < 0 ==> u >= 0x8000_0000
    ensures v >= 0 ==> u == v
  {
    if v < 0 then v + 0x1_0000_0000 else v
  }

  /**
   * `draw_pixel`: pixels outside `size()`, negative coordinates included,
   * are dropped without error; the others are set. It never fails.
   */
  function DrawPixel(g: GraphicDisplay, x: int, y: int, c: Color): (r: GraphicDisplay)
    requires Fits(g) && IsI32(x) && IsI32(y)
    ensures Fits(r) && r.display == g.display
    ensures !(0 <= x < SizeOf(g).width && 0 <= y < SizeOf(g).height) ==> r == g
    ensures 0 <= x < SizeOf(g).width && 0 <= y < SizeOf(g).height ==>
      OnPanel(g, x, y) && r == SetPixel(g, x, y, c)
  {
    var sz := SizeOf(g);
    var ux := AsU32(x);
    var uy := AsU32(y);
    if ux < sz.width && uy < sz.height then
      SetPixel(g, ux, uy, c)
    else g
  }

  predicate AllI32(pts: seq<(int, int)>) {
    forall i :: 0 <= i < |pts| ==> IsI32(pts[i].0) && IsI32(pts[i].1)
  }

  /** What a shape renderer does with this target: one `draw_pixel` per point, in order. */
  function DrawPixels(g: GraphicDisplay, pts: seq<(int, int)>, c: Color): (r: GraphicDisplay)
    requires Fits(g) && AllI32(pts)
    ensures Fits(r) && r.display == g.display
    decreases |pts|
  {
    if pts == [] then g
    else DrawPixels(DrawPixel(g, pts[0].0, pts[0].1, c), pts[1..], c)
  }

  /** The one-pixel outline of the square with corners (0, 0) and (2, 2). */
  const Outline: seq<(int, int)> := [(0, 0), (1, 0), (2, 0), (2, 1), (2, 2), (1, 2), (0, 2), (0, 1)]

  /** A 3-row, 8-column panel rotated by 270 degrees. */
  function SmallDisplay(io: Transport.Iface): Display {
    var b := Config.NewBuilder();
    Display(io, Config.Config(b.powerSetting, b.boosterSoftStart, b.panelSetting, b.pll,
                              Dimensions(3, 8), Rotate270), Uninitialized)
  }

  /**
   * Stroking the outline in white on zeroed planes gives the black plane
   * 0b11100000, 0b10100000, 0b11100000; white sets the red bits too.
   */
  lemma OutlineVector(io: Transport.Iface)
    ensures var g := GraphicDisplay(SmallDisplay(io), [0, 0, 0], [0, 0, 0]);
      && Fits(g) && AllI32(Outline)
      && DrawPixels(g, Outline, White).black == [0xE0, 0xA0, 0xE0]
      && DrawPixels(g, Outline, White).red == [0xE0, 0xA0, 0xE0]
  {
    var g := GraphicDisplay(SmallDisplay(io), [0, 0, 0], [0, 0, 0]);
    var g1 := DrawPixel(g, 0, 0, White);
    assert g1.black == [0x00, 0x00, 0x80];
    var g2 := DrawPixel(g1, 1, 0, White);
    assert g2.black == [0x00, 0x80, 0x80];
    var g3 := DrawPixel(g2, 2, 0, White);
    assert g3.black == [0x80, 0x80, 0x80];
    var g4 := DrawPixel(g3, 2, 1, White);
    assert g4.black == [0xC0, 0x80, 0x80];
    var g5 := DrawPixel(g4, 2, 2, White);
    assert g5.black == [0xE0, 0x80, 0x80];
    var g6 := DrawPixel(g5, 1, 2, White);
    assert g6.black == [0xE0, 0xA0, 0x80];
    var g7 := DrawPixel(g6, 0, 2, White);
    assert g7.black == [0xE0, 0xA0, 0xA0];
    var g8 := DrawPixel(g7, 0, 1, White);
    assert g8.black == [0xE0, 0xA0, 0xE0];
    assert g8.red == g8.black;
    assert DrawPixels(g, Outline, White) == g8;
  }
}
