/** The boot splash: a BMP file drawn into the middle of the framebuffer. */
module Bmp {
  import opened CText

  type Byte = x: int | 0 <= x < 256

  const BUFFER_SIZE: nat := 1024 * 1024
  const TWO_31 := 0x8000_0000
  const TWO_32 := 0x1_0000_0000
  const HEADER_SIZE: nat := 62
  const PALETTE: nat := 54

  // ---- Little-endian fields

  function U16(b: seq<Byte>, i: nat): (v: int)
    requires i + 2 <= |b|
    ensures 0 <= v < 0x1_0000
  {
    b[i] as int + 0x100 * (b[i + 1] as int)
  }

  function U32(b: seq<Byte>, i: nat): (v: int)
    requires i + 4 <= |b|
    ensures 0 <= v < TWO_32
  {
    b[i] as int + 0x100 * (b[i + 1] as int) + 0x1_0000 * (b[i + 2] as int) + 0x100_0000 * (b[i + 3] as int)
  }

  /** The value of 32 bits read as a signed number. */
  function S32(v: int): (r: int)
    requires 0 <= v < TWO_32
    ensures -TWO_31 <= r < TWO_31
  {
    if v < TWO_31 then v else v - TWO_32
  }

  function Abs(v: int): int { if v < 0 then -v else v }

  /** Division as C does it, towards zero. */
  function Half(v: int): int { if v < 0 then -((-v) / 2) else v / 2 }

  // ---- The header

  function Offset(b: seq<Byte>): int
    requires HEADER_SIZE <= |b|
  {
    U32(b, 10)
  }

  function Width(b: seq<Byte>): int
    requires HEADER_SIZE <= |b|
  {
    S32(U32(b, 18))
  }

  function RawHeight(b: seq<Byte>): int
    requires HEADER_SIZE <= |b|
  {
    S32(U32(b, 22))
  }

  function Height(b: seq<Byte>): int
    requires HEADER_SIZE <= |b|
  {
    Abs(RawHeight(b))
  }

  function Bpp(b: seq<Byte>): int
    requires HEADER_SIZE <= |b|
  {
    U16(b, 28)
  }

  predicate Supported(bpp: int, compression: int) { compression == 0 && (bpp == 1 || bpp == 24 || bpp == 32) }

  /** The bytes of a row of so many bits, padded to a multiple of four, in 32-bit arithmetic. */
  function Padded(bits: nat): nat { (bits % TWO_32 + 31) % TWO_32 / 32 * 4 }

  function RowStride(width: int, bpp: int): nat
    requires 0 <= width && 0 <= bpp
  {
    Padded(width * bpp)
  }

  lemma PaddedHolds(bits: nat)
    ensures bits + 31 < TWO_32 ==> bits <= 8 * Padded(bits) && Padded(bits) == (bits + 31) / 32 * 4
    ensures bits + 31 >= TWO_32 ==> bits > 8 * Padded(bits)
  {
    var r := bits % TWO_32;
    assert bits == bits / TWO_32 * TWO_32 + r;
    if r + 31 < TWO_32 {
      SmallRemainder(r + 31);
    } else {
      assert (r + 31) % TWO_32 == r + 31 - TWO_32;
    }
    if bits + 31 < TWO_32 {
      SmallRemainder(bits);
    }
  }

  lemma SmallRemainder(n: nat)
    requires n < TWO_32
    ensures n % TWO_32 == n
  {
  }

  /** The stride has room for a row exactly when the 32-bit product did not wrap. */
  lemma StrideHoldsRowExactly(width: int, bpp: int)
    requires 0 <= width && 0 <= bpp
    ensures width * bpp <= 8 * RowStride(width, bpp) <==> width * bpp + 31 < TWO_32
    ensures width * bpp + 31 < TWO_32 ==> RowStride(width, bpp) == (width * bpp + 31) / 32 * 4
  {
    hide Padded;
    PaddedHolds(width * bpp);
  }

  predicate HeaderOk(b: seq<Byte>) {
    && HEADER_SIZE <= |b| && b[0] == 'B' as int && b[1] == 'M' as int
    && Width(b) > 0 && RawHeight(b) != 0 && Supported(Bpp(b), U32(b, 30))
  }

  predicate Drawn(b: seq<Byte>) {
    HeaderOk(b) && Offset(b) < |b| && Offset(b) + Height(b) * RowStride(Width(b), Bpp(b)) <= |b|
  }

  /** The smallest file of a depth: one pixel, one row of four bytes, behind a header with its palette. */
  function Smallest(bpp: Byte): seq<Byte> {
    ['B' as int, 'M' as int, 0, 0, 0, 0, 0, 0, 0, 0, 62, 0, 0, 0, 0, 0, 0, 0]
    + [1, 0, 0, 0, 1, 0, 0, 0, 0, 0, bpp, 0, 0, 0, 0, 0] + seq(32, i => 0)
  }

  /** The three depths the decoder is for, and no others. */
  lemma DepthsExactly(bpp: Byte)
    ensures Drawn(Smallest(bpp)) && Sane(Smallest(bpp)) <==> bpp == 1 || bpp == 24 || bpp == 32
  {
    hide U16, U32, S32, Smallest, Padded;
    SmallestHeader(bpp);
    if bpp == 1 || bpp == 24 || bpp == 32 { SmallStride(bpp as int); }
  }

  lemma SmallestHeader(bpp: Byte)
    ensures var b := Smallest(bpp);
            |b| == 66 && b[0] == 'B' as int && b[1] == 'M' as int && Width(b) == 1 && RawHeight(b) == 1
            && Bpp(b) == bpp as int && Offset(b) == 62 && U32(b, 30) == 0
  {
  }

  lemma SmallStride(bits: nat)
    requires bits == 1 || bits == 24 || bits == 32
    ensures Padded(bits) == 4
  {
    hide Padded;
    PaddedHolds(bits);
  }

  /** The widths and heights 32-bit arithmetic can cope with. */
  predicate Sane(b: seq<Byte>) {
    HeaderOk(b) ==> Width(b) * Bpp(b) + 31 < TWO_32 && RawHeight(b) != -TWO_31
  }

  // ---- The picture

  /** The resolution, the distance between two lines, the pixel format, and whether there is a framebuffer. */
  datatype Mode = Mode(width: nat, height: nat, scanLine: nat, format: nat, mapped: bool)

  predicate ModeOk(m: Mode, size: nat) {
    m.width <= m.scanLine && m.height * m.scanLine <= size <= TWO_32 && m.width < TWO_31 && m.height < TWO_31
  }

  function MakePixel(m: Mode, r: int, g: int, b: int): int {
    if m.format == 0 then r + 0x100 * g + 0x1_0000 * b else b + 0x100 * g + 0x1_0000 * r
  }

  const BIT_VALUE := [128, 64, 32, 16, 8, 4, 2, 1]

  function Bit(byte: Byte, x: nat): (r: int)
    ensures r == 0 || r == 1
  {
    byte as int / BIT_VALUE[x % 8] % 2
  }

  /** Where the file keeps row `y`, counted from the top. */
  function RowStart(b: seq<Byte>, y: int): int
    requires HEADER_SIZE <= |b| && Width(b) > 0
  {
    Offset(b) + (if RawHeight(b) < 0 then y else Height(b) - 1 - y) * RowStride(Width(b), Bpp(b))
  }

  lemma RowsFit(offset: int, stride: nat, rows: int, k: int, size: int)
    requires offset >= 0 && offset + rows * stride <= size && 0 <= k < rows
    ensures 0 <= k * stride && offset + k * stride + stride <= size
  {
    Ordered(0, k, stride);
    Ordered(k + 1, rows, stride);
    OneMore(k, stride);
  }

  /** Every byte of every row of a drawn file lies inside the file. */
  lemma RowInside(b: seq<Byte>, y: int)
    requires Drawn(b) && 0 <= y < Height(b)
    ensures 0 <= RowStart(b, y) && RowStart(b, y) + RowStride(Width(b), Bpp(b)) <= |b|
  {
    hide U32, U16, S32, RowStride, Height, RawHeight, Supported;
    var k := if RawHeight(b) < 0 then y else Height(b) - 1 - y;
    RowsFit(Offset(b), RowStride(Width(b), Bpp(b)), Height(b), k, |b|);
  }

  /** The rows follow each other in the file, the top one first when the height is negative and last otherwise. */
  lemma RowsInFileOrder(b: seq<Byte>, y: int)
    requires HEADER_SIZE <= |b| && Width(b) > 0 && 0 <= y < Height(b) - 1
    ensures var stride := RowStride(Width(b), Bpp(b));
            if RawHeight(b) < 0 then RowStart(b, 0) == Offset(b) && RowStart(b, y + 1) == RowStart(b, y) + stride
            else RowStart(b, Height(b) - 1) == Offset(b) && RowStart(b, y) == RowStart(b, y + 1) + stride
  {
    hide U32, U16, S32, RowStride;
    OneMore(y, RowStride(Width(b), Bpp(b)));
    OneMore(Height(b) - 2 - y, RowStride(Width(b), Bpp(b)));
  }

  predicate InPicture(b: seq<Byte>, x: int, y: int)
    requires HEADER_SIZE <= |b|
  {
    0 <= x < Width(b) && 0 <= y < Height(b)
  }

  lemma PixelFits(width: int, x: int, bpp: int, stride: int)
    requires 0 <= x < width && Supported(bpp, 0) && width * bpp <= 8 * stride
    ensures x / 8 < stride && (bpp > 1 ==> 0 <= x * (bpp / 8) && x * (bpp / 8) + 2 < stride)
    ensures width * bpp < TWO_32 ==> x * (bpp / 8) < TWO_32
  {
    if bpp == 1 {
      assert x * (bpp / 8) == 0;
    } else if bpp == 24 {
      assert x * (bpp / 8) == x * 3;
    } else {
      assert x * (bpp / 8) == x * 4;
    }
  }

  /** Each pixel's bytes lie inside its row. */
  lemma PixelInside(b: seq<Byte>, x: int, y: int)
    requires Drawn(b) && Sane(b) && InPicture(b, x, y)
    ensures var row := RowStart(b, y); var at := row + x * (Bpp(b) / 8);
            0 <= row && row + x / 8 < |b| && (Bpp(b) > 1 ==> 0 <= at && at + 2 < |b|)
  {
    hide U32, U16, S32, RowStart, RowStride;
    RowInside(b, y);
    StrideHoldsRowExactly(Width(b), Bpp(b));
    PixelFits(Width(b), x, Bpp(b), RowStride(Width(b), Bpp(b)));
  }

  /** The bytes read for a pixel lie inside the file; the distance from the start of its row is a 32-bit product. */
  predicate ReadInside(b: seq<Byte>, x: int, y: int)
    requires HEADER_SIZE <= |b| && Width(b) > 0
  {
    var row, step := RowStart(b, y), x * (Bpp(b) / 8) % TWO_32;
    if Bpp(b) == 1 then 0 <= row + x / 8 < |b| else 0 <= row + step && row + step + 2 < |b|
  }

  ghost predicate ReadsInside(b: seq<Byte>)
    requires HEADER_SIZE <= |b| && Width(b) > 0
  {
    forall x, y :: InPicture(b, x, y) ==> ReadInside(b, x, y)
  }

  const FAR: int := 0x10_0000 // the size of the buffer, taken as a column

  /** Where the row product wraps, the picture is wider than the file has bytes. */
  lemma WrappedReadsPast(b: seq<Byte>)
    requires Drawn(b) && |b| <= BUFFER_SIZE && Width(b) * Bpp(b) + 31 >= TWO_32
    ensures InPicture(b, FAR, 0) && !ReadInside(b, FAR, 0)
  {
    hide U32, U16, S32, RowStart, RowStride;
    RowInside(b, 0);
    WrappedIsWide(Width(b), Bpp(b));
  }

  lemma WrappedIsWide(width: int, bpp: int)
    requires 0 < width < TWO_31 && Supported(bpp, 0) && width * bpp + 31 >= TWO_32
    ensures bpp > 1 && width > FAR && 3 * FAR <= FAR * (bpp / 8) < TWO_32
  {
    assert bpp == 1 ==> width * bpp == width;
    assert bpp == 24 ==> width * bpp == 24 * width && FAR * (bpp / 8) == 3 * FAR;
    assert bpp == 32 ==> width * bpp == 32 * width && FAR * (bpp / 8) == 4 * FAR;
  }

  /** Of a file that is drawn, every byte read for a pixel lies inside the file exactly when the number of bits in
      a row does not wrap 32 bits; and then the height can be negated. */
  lemma ReadsInsideExactly(b: seq<Byte>)
    requires Drawn(b) && |b| <= BUFFER_SIZE
    ensures ReadsInside(b) <==> Width(b) * Bpp(b) + 31 < TWO_32
    ensures ReadsInside(b) <==> Sane(b)
  {
    hide U32, U16, S32, RowStart, RowStride, ReadInside;
    if Width(b) * Bpp(b) + 31 < TWO_32 {
      NarrowIsSane(b);
      forall x, y | InPicture(b, x, y)
        ensures ReadInside(b, x, y)
      {
        ReadIsInside(b, x, y);
      }
    } else {
      WrappedReadsPast(b);
    }
  }

  lemma NarrowIsSane(b: seq<Byte>)
    requires Drawn(b) && |b| <= BUFFER_SIZE && Width(b) * Bpp(b) + 31 < TWO_32
    ensures Sane(b)
  {
    hide U32, U16, S32, RowStride;
    var bits := Width(b) * Bpp(b);
    StrideHoldsRowExactly(Width(b), Bpp(b));
    assert bits > 0 by { Ordered(1, Width(b), Bpp(b)); }
    Ordered(1, RowStride(Width(b), Bpp(b)), Height(b));
  }

  lemma ReadIsInside(b: seq<Byte>, x: int, y: int)
    requires Drawn(b) && Sane(b) && InPicture(b, x, y)
    ensures ReadInside(b, x, y)
  {
    hide U32, U16, S32, RowStart, RowStride;
    PixelInside(b, x, y);
    StrideHoldsRowExactly(Width(b), Bpp(b));
    PixelFits(Width(b), x, Bpp(b), RowStride(Width(b), Bpp(b)));
  }

  /** A header whose row of 2^27 pixels of 32 bits wraps to no bytes at all, and one byte behind it. */
  const WRAPPING: seq<Byte> :=
    ['B' as int, 'M' as int, 0, 0, 0, 0, 0, 0, 0, 0, 62, 0, 0, 0, 0, 0, 0, 0]
    + [0, 0, 0, 8, 1, 0, 0, 0, 0, 0, 32, 0, 0, 0, 0, 0]
    + seq(29, i => 0)

  /** There is such a file: it passes every test of the code. */
  lemma SomeFileWraps()
    ensures Drawn(WRAPPING) && |WRAPPING| <= BUFFER_SIZE && !ReadsInside(WRAPPING)
  {
    var b := WRAPPING;
    assert Width(b) == 0x800_0000 && RawHeight(b) == 1 && Bpp(b) == 32 && Offset(b) == 62;
    assert Width(b) * Bpp(b) == TWO_32;
    ReadsInsideExactly(b);
  }

  function Pixel(b: seq<Byte>, m: Mode, x: int, y: int): int
    requires Drawn(b) && Sane(b) && InPicture(b, x, y)
  {
    PixelInside(b, x, y);
    var row := RowStart(b, y);
    if Bpp(b) == 1 then
      var entry := PALETTE + 4 * Bit(b[row + x / 8], x);
      MakePixel(m, b[entry + 2], b[entry + 1], b[entry])
    else
      var at := row + x * (Bpp(b) / 8);
      MakePixel(m, b[at + 2], b[at + 1], b[at])
  }

  /** A pixel's channels sit where the mode wants them: red lowest in format 0, blue lowest otherwise; the
      file keeps blue first. */
  lemma PixelChannels(b: seq<Byte>, m: Mode, x: int, y: int)
    requires Drawn(b) && Sane(b) && InPicture(b, x, y) && Bpp(b) > 1
    ensures var at := RowStart(b, y) + x * (Bpp(b) / 8); 0 <= at && at + 2 < |b|
    ensures var p, at := Pixel(b, m, x, y), RowStart(b, y) + x * (Bpp(b) / 8);
            var low, mid, high := p % 0x100, p / 0x100 % 0x100, p / 0x1_0000;
            mid == b[at + 1] as int
            && (if m.format == 0 then low == b[at + 2] as int && high == b[at] as int
                else low == b[at] as int && high == b[at + 2] as int)
  {
    hide U32, U16, S32, RowStart, Drawn, Sane, Width, Height;
    SaneDrawn(b);
    PixelInside(b, x, y);
    var at := RowStart(b, y) + x * (Bpp(b) / 8);
    Channels(m, b[at + 2] as int, b[at + 1] as int, b[at] as int);
  }

  /** The bits of a byte, the highest first, make up the byte. */
  lemma BitsMakeTheByte(byte: Byte)
    ensures byte as int == 128 * Bit(byte, 0) + 64 * Bit(byte, 1) + 32 * Bit(byte, 2) + 16 * Bit(byte, 3)
                           + 8 * Bit(byte, 4) + 4 * Bit(byte, 5) + 2 * Bit(byte, 6) + Bit(byte, 7)
  {
    hide Bit;
    var v := byte as int;
    HighBits(byte);
    LowBits(byte);
    Halved(v);
    Halved(v / 2);
    Halved(v / 4);
    Halved(v / 8);
    Halved(v / 16);
    Halved(v / 32);
    Halved(v / 64);
    HalvedAgain(v);
  }

  lemma HighBits(byte: Byte)
    ensures Bit(byte, 0) == byte as int / 128 % 2 && Bit(byte, 1) == byte as int / 64 % 2
    ensures Bit(byte, 2) == byte as int / 32 % 2 && Bit(byte, 3) == byte as int / 16 % 2
  {
  }

  lemma LowBits(byte: Byte)
    ensures Bit(byte, 4) == byte as int / 8 % 2 && Bit(byte, 5) == byte as int / 4 % 2
    ensures Bit(byte, 6) == byte as int / 2 % 2 && Bit(byte, 7) == byte as int % 2
  {
  }

  lemma Halved(v: int)
    ensures v == 2 * (v / 2) + v % 2
  {
  }

  lemma HalvedAgain(v: int)
    requires 0 <= v < 256
    ensures v / 2 / 2 == v / 4 && v / 4 / 2 == v / 8 && v / 8 / 2 == v / 16 && v / 16 / 2 == v / 32
    ensures v / 32 / 2 == v / 64 && v / 64 / 2 == v / 128 && v / 128 % 2 == v / 128
  {
  }

  lemma BitRepeats(byte: Byte, x: nat)
    ensures Bit(byte, x) == Bit(byte, x % 8)
  {
    assert x % 8 % 8 == x % 8;
  }

  /** In a 1-bit file the bit that stands for a pixel, counted from the highest of its byte, chooses one of the two
      palette entries behind the header, and the entry's channels sit where the mode wants them. */
  lemma PaletteChannels(b: seq<Byte>, m: Mode, x: int, y: int)
    requires Drawn(b) && Sane(b) && InPicture(b, x, y) && Bpp(b) == 1
    ensures var at := RowStart(b, y) + x / 8; 0 <= at < |b|
    ensures var p, entry := Pixel(b, m, x, y), 54 + 4 * Bit(b[RowStart(b, y) + x / 8], x % 8);
            var low, mid, high := p % 0x100, p / 0x100 % 0x100, p / 0x1_0000;
            mid == b[entry + 1] as int
            && (if m.format == 0 then low == b[entry + 2] as int && high == b[entry] as int
                else low == b[entry] as int && high == b[entry + 2] as int)
  {
    hide U32, U16, S32, RowStart, Drawn, Sane, Width, Height, Bit;
    SaneDrawn(b);
    PixelInside(b, x, y);
    var byte := b[RowStart(b, y) + x / 8];
    BitRepeats(byte, x);
    var entry := PALETTE + 4 * Bit(byte, x);
    Channels(m, b[entry + 2] as int, b[entry + 1] as int, b[entry] as int);
  }

  lemma Channels(m: Mode, r: int, g: int, b: int)
    requires 0 <= r < 0x100 && 0 <= g < 0x100 && 0 <= b < 0x100
    ensures var p := MakePixel(m, r, g, b);
            p / 0x100 % 0x100 == g && p % 0x100 == (if m.format == 0 then r else b)
            && p / 0x1_0000 == (if m.format == 0 then b else r)
  {
    if m.format == 0 { ThreeBytes(r, g, b); } else { ThreeBytes(b, g, r); }
  }

  lemma ThreeBytes(x: int, y: int, z: int)
    requires 0 <= x < 0x100 && 0 <= y < 0x100 && 0 <= z < 0x100
    ensures var p := x + 0x100 * y + 0x1_0000 * z; p % 0x100 == x && p / 0x100 % 0x100 == y && p / 0x1_0000 == z
  {
    var q := y + 0x100 * z;
    assert x + 0x100 * y + 0x1_0000 * z == x + 0x100 * q;
    assert (x + 0x100 * q) / 0x100 == q;
  }

  // ---- The frame

  function Left(b: seq<Byte>, m: Mode): int
    requires HEADER_SIZE <= |b|
  {
    Half(m.width - Width(b))
  }

  function Top(b: seq<Byte>, m: Mode): int
    requires HEADER_SIZE <= |b|
  {
    Half(m.height - Height(b))
  }

  predicate OnScreen(m: Mode, x: int, y: int) { m.mapped && 0 <= x < m.width && 0 <= y < m.height }

  /** Whether entry `i` of the framebuffer shows a pixel of the rows above `rows` or of the first `cols` of that row. */
  predicate Reached(b: seq<Byte>, m: Mode, i: nat, rows: int, cols: int)
    requires HEADER_SIZE <= |b| && m.scanLine > 0
  {
    var x, y := i % m.scanLine - Left(b, m), i / m.scanLine - Top(b, m);
    OnScreen(m, i % m.scanLine, i / m.scanLine) && InPicture(b, x, y) && (y < rows || (y == rows && x < cols))
  }

  function Shown(b: seq<Byte>, m: Mode, frame: seq<int>, i: nat, rows: int, cols: int): int
    requires Drawn(b) && Sane(b) && i < |frame|
  {
    if m.scanLine > 0 && Reached(b, m, i, rows, cols) then
      Pixel(b, m, i % m.scanLine - Left(b, m), i / m.scanLine - Top(b, m))
    else frame[i]
  }

  /** The old frame with the centred picture laid over it, cut at the edges of the screen. */
  function Overlaid(b: seq<Byte>, m: Mode, frame: seq<int>): (r: seq<int>)
    requires Sane(b)
    ensures |r| == |frame|
  {
    if Drawn(b) then seq(|frame|, i requires 0 <= i < |frame| => Shown(b, m, frame, i, Height(b), 0)) else frame
  }

  lemma Spot(i: nat, d: nat, x: int, y: int)
    requires 0 <= x < d
    ensures i == y * d + x <==> i / d == y && i % d == x
  {
    var q, r := i / d, i % d;
    assert i == q * d + r;
    if i == y * d + x {
      if q > y {
        Ordered(y + 1, q, d);
        OneMore(y, d);
      } else if q < y {
        Ordered(q + 1, y, d);
        OneMore(q, d);
      }
    }
  }

  lemma ShownStep(b: seq<Byte>, m: Mode, frame: seq<int>, i: nat, x: int, y: int)
    requires Drawn(b) && Sane(b) && i < |frame| && InPicture(b, x, y) && m.width <= m.scanLine
    ensures Shown(b, m, frame, i, y, x + 1)
         == if OnScreen(m, Left(b, m) + x, Top(b, m) + y) && i == (Top(b, m) + y) * m.scanLine + Left(b, m) + x
            then Pixel(b, m, x, y) else Shown(b, m, frame, i, y, x)
  {
    hide Pixel, U32, U16, S32, Supported, RowStride, Half, Abs;
    if m.scanLine > 0 && OnScreen(m, Left(b, m) + x, Top(b, m) + y) {
      Spot(i, m.scanLine, Left(b, m) + x, Top(b, m) + y);
    }
  }

  lemma ShownRowEnds(b: seq<Byte>, m: Mode, frame: seq<int>, i: nat, y: int)
    requires Drawn(b) && Sane(b) && i < |frame|
    ensures Shown(b, m, frame, i, y, Width(b)) == Shown(b, m, frame, i, y + 1, 0)
  {
    hide Pixel, U32, U16, S32, Supported, RowStride, Half, Abs;
  }

  /** Entry `i` of the framebuffer is the place of pixel (x, y) of the picture. */
  predicate PlaceOf(b: seq<Byte>, m: Mode, i: nat, x: int, y: int)
    requires HEADER_SIZE <= |b|
  {
    && InPicture(b, x, y) && OnScreen(m, Left(b, m) + x, Top(b, m) + y)
    && i == (Top(b, m) + y) * m.scanLine + (Left(b, m) + x)
  }

  lemma PlaceIsReached(b: seq<Byte>, m: Mode, i: nat, x: int, y: int)
    requires HEADER_SIZE <= |b| && m.width <= m.scanLine && m.scanLine > 0
    ensures PlaceOf(b, m, i, x, y)
        <==> Reached(b, m, i, Height(b), 0) && x == i % m.scanLine - Left(b, m) && y == i / m.scanLine - Top(b, m)
  {
    hide U32, U16, S32, Half, Abs, Width, Height;
    var u, v := Left(b, m) + x, Top(b, m) + y;
    if 0 <= u < m.scanLine { Spot(i, m.scanLine, u, v); }
    Remainder(i, m.scanLine);
  }

  lemma Remainder(i: nat, d: nat)
    requires d > 0
    ensures 0 <= i % d < d && i == i / d * d + i % d
  {
  }

  /** On the screen the picture appears pixel by pixel at its centred place; every other entry is what it was. */
  lemma OverlaidExactly(b: seq<Byte>, m: Mode, frame: seq<int>, i: nat)
    requires Sane(b) && Drawn(b) && ModeOk(m, |frame|) && i < |frame|
    ensures forall x, y :: PlaceOf(b, m, i, x, y) ==> Overlaid(b, m, frame)[i] == Pixel(b, m, x, y)
    ensures (forall x, y :: !PlaceOf(b, m, i, x, y)) ==> Overlaid(b, m, frame)[i] == frame[i]
  {
    hide Pixel, U32, U16, S32, Half, Abs, RowStride, Supported, Reached, PlaceOf;
    if m.scanLine > 0 {
      var x, y := i % m.scanLine - Left(b, m), i / m.scanLine - Top(b, m);
      PlaceIsReached(b, m, i, x, y);
      forall u, v | PlaceOf(b, m, i, u, v)
        ensures u == x && v == y && Reached(b, m, i, Height(b), 0)
      {
        PlaceIsReached(b, m, i, u, v);
      }
    } else {
      NoPlace(b, m, i);
    }
  }

  lemma NoPlace(b: seq<Byte>, m: Mode, i: nat)
    requires HEADER_SIZE <= |b| && m.width == 0
    ensures forall x, y :: !PlaceOf(b, m, i, x, y)
  {
  }

  /** The picture is in the middle: what is free, or cut off, on the right and at the bottom is what is free, or
      cut off, on the left and at the top, or one line more; and the whole of it shows exactly when it fits. */
  lemma Centred(b: seq<Byte>, m: Mode)
    requires Drawn(b) && Sane(b) && m.mapped
    ensures var right := m.width - Width(b) - Left(b, m);
            if Width(b) <= m.width then 0 <= right - Left(b, m) <= 1 else -1 <= right - Left(b, m) <= 0
    ensures var bottom := m.height - Height(b) - Top(b, m);
            if Height(b) <= m.height then 0 <= bottom - Top(b, m) <= 1 else -1 <= bottom - Top(b, m) <= 0
    ensures (forall x, y :: InPicture(b, x, y) ==> OnScreen(m, Left(b, m) + x, Top(b, m) + y))
            <==> Width(b) <= m.width && Height(b) <= m.height
  {
    hide U32, U16, S32, Width;
    var l, t := Left(b, m), Top(b, m);
    var w, h := Width(b), Height(b);
    assert InPicture(b, 0, 0) && InPicture(b, w - 1, h - 1);
  }

  // ---- Top-down and bottom-up

  function Le32(v: int): (r: seq<Byte>)
    requires 0 <= v < TWO_32
    ensures |r| == 4
  {
    [v % 0x100, v / 0x100 % 0x100, v / 0x1_0000 % 0x100, v / 0x100_0000]
  }

  lemma Le32Reads(v: int)
    requires 0 <= v < TWO_32
    ensures U32(Le32(v), 0) == v
  {
    var a := v / 0x100;
    var c := a / 0x100;
    assert v / 0x1_0000 == c && v / 0x100_0000 == c / 0x100;
  }

  function Negated(v: int): int
    requires 0 <= v < TWO_32
  {
    if v == 0 then 0 else TWO_32 - v
  }

  lemma NegatedIsNegative(v: int)
    requires 0 <= v < TWO_32 && v != TWO_31
    ensures 0 <= Negated(v) < TWO_32 && S32(Negated(v)) == -S32(v)
  {
  }

  predicate Flippable(b: seq<Byte>) { Drawn(b) && Sane(b) && HEADER_SIZE <= Offset(b) }

  /** The byte of the flipped file at `i`: the height changes its sign and the rows stand in reverse. */
  function FlippedAt(b: seq<Byte>, i: nat): Byte
    requires Flippable(b) && i < |b|
  {
    var stride, at := RowStride(Width(b), Bpp(b)), i - Offset(b);
    if 22 <= i < 26 then Le32(Negated(U32(b, 22)))[i - 22]
    else if stride > 0 && 0 <= at && at / stride < Height(b) then
      MirroredInside(b, at);
      b[Offset(b) + (Height(b) - 1 - at / stride) * stride + at % stride]
    else b[i]
  }

  lemma MirroredInside(b: seq<Byte>, at: int)
    requires Drawn(b) && 0 <= at && RowStride(Width(b), Bpp(b)) > 0 && at / RowStride(Width(b), Bpp(b)) < Height(b)
    ensures var stride := RowStride(Width(b), Bpp(b));
            0 <= Offset(b) + (Height(b) - 1 - at / stride) * stride + at % stride < |b|
  {
    hide U32, U16, S32, RowStride, Supported, Abs;
    var stride := RowStride(Width(b), Bpp(b));
    RowsFit(Offset(b), stride, Height(b), Height(b) - 1 - at / stride, |b|);
  }

  /** The same picture written the other way round. */
  function Flipped(b: seq<Byte>): (f: seq<Byte>)
    requires Flippable(b)
    ensures |f| == |b|
  {
    seq(|b|, i requires 0 <= i < |b| => FlippedAt(b, i))
  }

  lemma SameField(a: seq<Byte>, b: seq<Byte>, i: nat)
    requires i + 4 <= |a| && i + 4 <= |b|
    ensures a[i..i + 4] == b[i..i + 4] ==> U32(a, i) == U32(b, i)
    ensures a[i..i + 2] == b[i..i + 2] ==> U16(a, i) == U16(b, i)
  {
    if a[i..i + 4] == b[i..i + 4] {
      SameFieldAcross(a, i, b, i);
    }
    if a[i..i + 2] == b[i..i + 2] {
      assert a[i] == a[i..i + 2][0] && a[i + 1] == a[i..i + 2][1];
    }
  }

  lemma KeptBelowOffset(b: seq<Byte>, i: nat)
    requires Flippable(b) && i < Offset(b) && !(22 <= i < 26)
    ensures Flipped(b)[i] == b[i]
  {
  }

  lemma FlippedHeader(b: seq<Byte>)
    requires Flippable(b)
    ensures var f := Flipped(b);
            f[0] == b[0] && f[1] == b[1] && Offset(f) == Offset(b) && Width(f) == Width(b) && Bpp(f) == Bpp(b)
            && U32(f, 30) == U32(b, 30) && RawHeight(f) == -RawHeight(b)
  {
    hide U32, U16, S32, FlippedAt, Negated, RowStride, Supported, Le32, Flipped, Abs;
    var f := Flipped(b);
    forall i: nat | i < HEADER_SIZE && !(22 <= i < 26)
      ensures f[i] == b[i]
    {
      KeptBelowOffset(b, i);
    }
    assert f[10..14] == b[10..14] && f[18..22] == b[18..22] && f[28..30] == b[28..30] && f[30..34] == b[30..34];
    SameField(f, b, 10);
    SameField(f, b, 18);
    SameField(f, b, 28);
    SameField(f, b, 30);
    FlippedHeight(b);
  }

  lemma FlippedHeight(b: seq<Byte>)
    requires Flippable(b)
    ensures RawHeight(Flipped(b)) == -RawHeight(b)
  {
    hide U32, U16, RowStride, Le32, Negated, Supported;
    var v := U32(b, 22);
    assert v != TWO_31;
    NegatedIsNegative(v);
    var le := Le32(Negated(v));
    Le32Reads(Negated(v));
    assert Flipped(b)[22..26] == le[0..4];
    SameFieldAcross(Flipped(b), 22, le, 0);
  }

  lemma SameFieldAcross(a: seq<Byte>, i: nat, b: seq<Byte>, k: nat)
    requires i + 4 <= |a| && k + 4 <= |b| && a[i..i + 4] == b[k..k + 4]
    ensures U32(a, i) == U32(b, k)
  {
    assert a[i] == a[i..i + 4][0] && a[i + 1] == a[i..i + 4][1]
      && a[i + 2] == a[i..i + 4][2] && a[i + 3] == a[i..i + 4][3];
  }

  lemma FlippedStaysDrawn(b: seq<Byte>)
    requires Flippable(b)
    ensures Flippable(Flipped(b)) && Height(Flipped(b)) == Height(b)
  {
    hide U32, U16, S32, FlippedAt, RowStride, Flipped;
    FlippedHeader(b);
  }

  lemma FlippedIs(b: seq<Byte>, i: nat)
    requires Flippable(b) && i < |b|
    ensures Flipped(b)[i] == FlippedAt(b, i)
  {
  }

  lemma FlippedRowByte(b: seq<Byte>, k: int, stride: nat, col: nat, at: int, from: int)
    requires Flippable(b) && 0 <= k < Height(b) && stride == RowStride(Width(b), Bpp(b)) && col < stride
    requires at == Offset(b) + k * stride + col && from == Offset(b) + (Height(b) - 1 - k) * stride + col
    ensures 0 <= at < |b| && 0 <= from < |b| && Flipped(b)[at] == b[from]
  {
    hide U32, U16, S32, RowStride, Flipped, Supported, Abs, Le32, Negated;
    RowsFit(Offset(b), stride, Height(b), k, |b|);
    RowsFit(Offset(b), stride, Height(b), Height(b) - 1 - k, |b|);
    Spot(at - Offset(b), stride, col, k);
    FlippedIs(b, at);
  }

  lemma FlippedStart(b: seq<Byte>, y: int) returns (k: int)
    requires Flippable(b) && 0 <= y < Height(b)
    ensures 0 <= k < Height(b) && HEADER_SIZE <= |b| && Width(Flipped(b)) == Width(b) > 0
    ensures RowStart(Flipped(b), y) == Offset(b) + k * RowStride(Width(b), Bpp(b))
    ensures RowStart(b, y) == Offset(b) + (Height(b) - 1 - k) * RowStride(Width(b), Bpp(b))
  {
    hide U32, U16, S32, RowStride, Flipped, FlippedAt, Drawn, Sane, Bpp, Offset;
    SaneDrawn(b);
    FlippedHeader(b);
    FlippedStaysDrawn(b);
    if RawHeight(b) < 0 {
      k := Height(b) - 1 - y;
      assert Height(b) - 1 - k == y;
    } else {
      k := y;
    }
  }

  lemma Starts(b: seq<Byte>, y: int)
    requires Flippable(b) && 0 <= y < Height(b)
    ensures Width(Flipped(b)) > 0 && 0 <= RowStart(b, y) && 0 <= RowStart(Flipped(b), y)
  {
    hide U32, U16, S32, RowStride, Flipped, FlippedAt, RowStart, Bpp, Offset;
    FlippedHeader(b);
    FlippedStaysDrawn(b);
    RowInside(b, y);
    RowInside(Flipped(b), y);
  }

  lemma FlippedRow(b: seq<Byte>, y: int, col: nat)
    requires Flippable(b) && 0 <= y < Height(b) && col < RowStride(Width(b), Bpp(b))
    ensures Width(Flipped(b)) == Width(b)
    ensures 0 <= RowStart(b, y) && RowStart(b, y) + col < |b|
    ensures 0 <= RowStart(Flipped(b), y) && RowStart(Flipped(b), y) + col < |b|
    ensures Flipped(b)[RowStart(Flipped(b), y) + col] == b[RowStart(b, y) + col]
  {
    hide U32, U16, S32, RowStride, Flipped, FlippedAt, Drawn, Sane, RowStart, Height, RawHeight, Width, Bpp, Offset;
    SaneDrawn(b);
    FlippedHeader(b);
    var k := FlippedStart(b, y);
    FlippedRowByte(b, k, RowStride(Width(b), Bpp(b)), col, RowStart(Flipped(b), y) + col, RowStart(b, y) + col);
    Starts(b, y);
  }

  lemma FlippedPixel(b: seq<Byte>, m: Mode, x: int, y: int)
    requires Flippable(b) && InPicture(b, x, y)
    ensures Flippable(Flipped(b)) && InPicture(Flipped(b), x, y)
    ensures Pixel(Flipped(b), m, x, y) == Pixel(b, m, x, y)
  {
    hide U32, U16, S32, RowStride, Flipped, FlippedAt, RowStart, Drawn, Sane, MakePixel, Bit;
    var f := Flipped(b);
    FlippedHeader(b);
    FlippedStaysDrawn(b);
    SaneDrawn(b);
    StrideHoldsRowExactly(Width(b), Bpp(b));
    PixelFits(Width(b), x, Bpp(b), RowStride(Width(b), Bpp(b)));
    if Bpp(b) == 1 {
      FlippedRow(b, y, x / 8);
      forall i: nat | PALETTE <= i < HEADER_SIZE
        ensures f[i] == b[i]
      {
        KeptBelowOffset(b, i);
      }
    } else {
      var at := x * (Bpp(b) / 8);
      FlippedRow(b, y, at);
      FlippedRow(b, y, at + 1);
      FlippedRow(b, y, at + 2);
    }
  }

  lemma SaneDrawn(b: seq<Byte>)
    requires Drawn(b) && Sane(b)
    ensures HEADER_SIZE <= |b| && Width(b) > 0 && Width(b) * Bpp(b) + 31 < TWO_32 && Supported(Bpp(b), 0)
    ensures RawHeight(b) != 0
  {
  }

  lemma FlippedShown(b: seq<Byte>, m: Mode, frame: seq<int>, i: nat)
    requires Flippable(b) && i < |frame|
    ensures Flippable(Flipped(b))
    ensures Shown(Flipped(b), m, frame, i, Height(b), 0) == Shown(b, m, frame, i, Height(b), 0)
  {
    hide U32, U16, S32, RowStride, Flipped, FlippedAt, RowStart, Drawn, Sane, Pixel;
    SaneDrawn(b);
    FlippedHeader(b);
    FlippedStaysDrawn(b);
    if m.scanLine > 0 && Reached(b, m, i, Height(b), 0) {
      FlippedPixel(b, m, i % m.scanLine - Left(b, m), i / m.scanLine - Top(b, m));
    }
  }

  /** A file and its mirrored form, one top-down and one bottom-up, draw the same frame. */
  lemma BothOrdersDrawTheSame(b: seq<Byte>, m: Mode, frame: seq<int>)
    requires Flippable(b)
    ensures Flippable(Flipped(b)) && (RawHeight(Flipped(b)) < 0 <==> RawHeight(b) > 0)
    ensures Overlaid(Flipped(b), m, frame) == Overlaid(b, m, frame)
  {
    hide U32, U16, S32, RowStride, Flipped, FlippedAt, RowStart, Pixel, Shown;
    FlippedHeader(b);
    FlippedStaysDrawn(b);
    forall i: nat | i < |frame|
      ensures Overlaid(Flipped(b), m, frame)[i] == Overlaid(b, m, frame)[i]
    {
      FlippedShown(b, m, frame, i);
    }
  }

  // ---- The code

  lemma InsideFrame(m: Mode, x: int, y: int, size: nat)
    requires ModeOk(m, size) && 0 <= x < m.width && 0 <= y < m.height
    ensures 0 <= y * m.scanLine && y * m.scanLine + x < size
  {
    Ordered(0, y, m.scanLine);
    Ordered(y + 1, m.height, m.scanLine);
    OneMore(y, m.scanLine);
  }

  method PutPixel(fb: array<int>, m: Mode, x: int, y: int, pixel: int)
    requires ModeOk(m, fb.Length)
    modifies fb
    ensures OnScreen(m, x, y) ==>
              0 <= y * m.scanLine + x < fb.Length && fb[..] == old(fb[..])[y * m.scanLine + x := pixel]
    ensures !OnScreen(m, x, y) ==> fb[..] == old(fb[..])
  {
    if !m.mapped || x < 0 || y < 0 {
      return;
    }
    if x >= m.width || y >= m.height {
      return;
    }
    InsideFrame(m, x, y, fb.Length);
    fb[((y * m.scanLine) % TWO_32 + x) % TWO_32] := pixel;
  }

  /** The frame while rows above `y` and the first `x` pixels of row `y` are drawn. */
  predicate DrawnSoFar(b: seq<Byte>, m: Mode, before: seq<int>, now: seq<int>, y: int, x: int)
    requires Drawn(b) && Sane(b)
  {
    |now| == |before| && forall i: nat {:trigger now[i]} :: i < |before| ==> now[i] == Shown(b, m, before, i, y, x)
  }

  lemma PixelDrawn(b: seq<Byte>, m: Mode, before: seq<int>, was: seq<int>, now: seq<int>, y: int, x: int)
    requires Drawn(b) && Sane(b) && InPicture(b, x, y) && ModeOk(m, |before|)
    requires DrawnSoFar(b, m, before, was, y, x)
    requires var u, v := Left(b, m) + x, Top(b, m) + y;
             if OnScreen(m, u, v)
             then 0 <= v * m.scanLine + u < |was| && now == was[v * m.scanLine + u := Pixel(b, m, x, y)]
             else now == was
    ensures DrawnSoFar(b, m, before, now, y, x + 1)
  {
    hide Pixel, Shown, U32, U16, S32, RowStride, Supported, Half, Abs;
    forall i: nat | i < |before|
      ensures now[i] == Shown(b, m, before, i, y, x + 1)
    {
      ShownStep(b, m, before, i, x, y);
    }
  }

  lemma RowDrawn(b: seq<Byte>, m: Mode, before: seq<int>, now: seq<int>, y: int)
    requires Drawn(b) && Sane(b) && DrawnSoFar(b, m, before, now, y, Width(b))
    ensures DrawnSoFar(b, m, before, now, y + 1, 0)
  {
    hide Pixel, Shown, U32, U16, S32, RowStride, Supported, Half, Abs;
    forall i: nat | i < |before|
      ensures now[i] == Shown(b, m, before, i, y + 1, 0)
    {
      ShownRowEnds(b, m, before, i, y);
    }
  }

  lemma NothingDrawn(b: seq<Byte>, m: Mode, before: seq<int>)
    requires Drawn(b) && Sane(b)
    ensures DrawnSoFar(b, m, before, before, 0, 0)
  {
    hide Pixel;
  }

  lemma AllDrawn(b: seq<Byte>, m: Mode, before: seq<int>, now: seq<int>)
    requires Drawn(b) && Sane(b) && DrawnSoFar(b, m, before, now, Height(b), 0)
    ensures now == Overlaid(b, m, before)
  {
    hide Shown;
  }

  lemma StepFits(b: seq<Byte>, x: int, y: int)
    requires Drawn(b) && Sane(b) && InPicture(b, x, y)
    ensures 0 <= x * (Bpp(b) / 8) && (x * (Bpp(b) / 8)) % TWO_32 == x * (Bpp(b) / 8)
    ensures Bpp(b) == 1 || Bpp(b) > 1
  {
    hide U32, U16, S32, RowStride, Width, Height, Drawn, Sane;
    SaneDrawn(b);
    StrideHoldsRowExactly(Width(b), Bpp(b));
    PixelFits(Width(b), x, Bpp(b), RowStride(Width(b), Bpp(b)));
  }

  /** Reads one pixel of the row that begins at `row`. */
  method ReadPixel(b: seq<Byte>, m: Mode, row: nat, bpp: int, x: nat, ghost y: int) returns (pixel: int)
    requires Drawn(b) && Sane(b) && InPicture(b, x, y) && row == RowStart(b, y) && bpp == Bpp(b)
    ensures pixel == Pixel(b, m, x, y)
  {
    hide U32, U16, S32, RowStart, RowStride, MakePixel, Bit, Drawn, Sane, Supported, Width, Height;
    SaneDrawn(b);
    PixelInside(b, x, y);
    StepFits(b, x, y);
    if bpp == 1 {
      var entry := PALETTE + 4 * Bit(b[row + x / 8], x);
      pixel := MakePixel(m, b[entry + 2], b[entry + 1], b[entry]);
    } else {
      var at := row + (x * (bpp / 8)) % TWO_32;
      pixel := MakePixel(m, b[at + 2], b[at + 1], b[at]);
    }
  }

  /** Draws the file; whatever it holds, every read stays inside it and every write inside the frame. */
  method DrawCentered(fb: array<int>, m: Mode, b: seq<Byte>)
    requires ModeOk(m, fb.Length) && |b| <= BUFFER_SIZE && Sane(b)
    modifies fb
    ensures fb[..] == Overlaid(b, m, old(fb[..]))
  {
    if |b| < HEADER_SIZE {
      return;
    }
    if b[0] != 'B' as int || b[1] != 'M' as int {
      return;
    }
    var offset, width, rawHeight := U32(b, 10), S32(U32(b, 18)), S32(U32(b, 22));
    var bpp, compression := U16(b, 28), U32(b, 30);
    if width <= 0 || rawHeight == 0 {
      return;
    }
    if !Supported(bpp, compression) {
      return;
    }
    var height, topDown := Abs(rawHeight), rawHeight < 0;
    if offset >= |b| {
      return;
    }
    var stride := RowStride(width, bpp);
    if offset + height * stride > |b| {
      return;
    }
    DrawRows(fb, m, b, offset, width, height, bpp, topDown, stride);
  }

  method DrawRows(fb: array<int>, m: Mode, b: seq<Byte>, offset: nat, width: nat, height: nat, bpp: int,
                  topDown: bool, stride: nat)
    requires ModeOk(m, fb.Length) && |b| <= BUFFER_SIZE && Drawn(b) && Sane(b)
    requires offset == Offset(b) && width == Width(b) && height == Height(b) && bpp == Bpp(b)
    requires topDown == (RawHeight(b) < 0) && stride == RowStride(width, bpp)
    modifies fb
    ensures fb[..] == Overlaid(b, m, old(fb[..]))
  {
    hide U32, U16, S32, Pixel, Supported, RowStride, Half, Drawn, Sane, DrawnSoFar, Overlaid, OnScreen, Abs;
    SaneDrawn(b);
    var left, top := Half(m.width - width), Half(m.height - height);
    ghost var before := fb[..];
    NothingDrawn(b, m, before);
    var y := 0;
    while y < height
      invariant 0 <= y <= height && DrawnSoFar(b, m, before, fb[..], y, 0)
    {
      var srcY := if topDown then y else height - 1 - y;
      RowIsThere(b, y);
      var row := offset + (srcY * stride) % TWO_32;
      var x := 0;
      while x < width
        invariant 0 <= x <= width && DrawnSoFar(b, m, before, fb[..], y, x)
      {
        var pixel := ReadPixel(b, m, row, bpp, x, y);
        ghost var was := fb[..];
        PutPixel(fb, m, left + x, top + y, pixel);
        PixelDrawn(b, m, before, was, fb[..], y, x);
        x := x + 1;
      }
      RowDrawn(b, m, before, fb[..], y);
      y := y + 1;
    }
    AllDrawn(b, m, before, fb[..]);
  }

  lemma RowIsThere(b: seq<Byte>, y: int)
    requires Drawn(b) && 0 <= y < Height(b) && |b| <= BUFFER_SIZE
    ensures 0 <= RowStart(b, y)
         && RowStart(b, y)
            == Offset(b) + ((if RawHeight(b) < 0 then y else Height(b) - 1 - y) * RowStride(Width(b), Bpp(b))) % TWO_32
  {
    hide U32, U16, S32, RowStride, Supported, Abs;
    RowInside(b, y);
    RowsFit(0, RowStride(Width(b), Bpp(b)), Height(b), if RawHeight(b) < 0 then y else Height(b) - 1 - y,
            Height(b) * RowStride(Width(b), Bpp(b)));
  }
}
