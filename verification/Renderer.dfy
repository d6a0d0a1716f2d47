/** RenderFrame, drawString, drawGlyph and setPixel of internal/calendar/display.go: loops that write an
    RGB888 buffer in place, against the picture they should leave. */
module Renderer {
  import opened Basics
  import opened Font

  const WIDTH := 72
  const HEIGHT := 16
  const BYTES_PER_PIXEL := 3
  const SIZE := 3456
  const MAX_CHARS: nat := 14

  datatype Color = Color(r: byte, g: byte, b: byte)

  const BLACK := Color(0, 0, 0)
  const BUSY_TITLE := Color(255, 180, 0)
  const BUSY_COUNTDOWN := Color(255, 60, 60)
  const IDLE_DATE := Color(255, 255, 255)
  const IDLE_TIME := Color(100, 220, 255)

  datatype Mode = Idle | Busy

  datatype DisplayState = DisplayState(mode: Mode, topLine: string, bottomLine: string, updatedAt: int)

  // ---- The picture ----

  /** The glyph of `r` lights column dx, row dy. */
  predicate Lit(r: char, dx: int, dy: int) {
    0 <= dx < GLYPH_WIDTH && 0 <= dy < GLYPH_HEIGHT && BitSet(Glyph(r)[dy], dx)
  }

  /** A line of text does, one rune every five columns. */
  predicate TextLit(text: string, dx: int, dy: int) {
    0 <= dx && dx / GLYPH_PITCH < |text| && Lit(text[dx / GLYPH_PITCH], dx % GLYPH_PITCH, dy)
  }

  function TopColor(mode: Mode): Color { if mode == Busy then BUSY_TITLE else IDLE_DATE }
  function BottomColor(mode: Mode): Color { if mode == Busy then BUSY_COUNTDOWN else IDLE_TIME }

  /** The colour of a pixel: that of the line whose text lights it, or else black. */
  function Picture(s: DisplayState, x: int, y: int): Color {
    if TextLit(s.bottomLine, x - 1, y - 9) then BottomColor(s.mode)
    else if TextLit(s.topLine, x - 1, y - 1) then TopColor(s.mode)
    else BLACK
  }

  predicate OnScreen(x: int, y: int) {
    0 <= x < WIDTH && 0 <= y < HEIGHT
  }

  function Offset(x: int, y: int): int {
    (y * WIDTH + x) * BYTES_PER_PIXEL
  }

  function PixelAt(buf: array<byte>, x: int, y: int): Color
    requires buf.Length == SIZE && OnScreen(x, y)
    reads buf
  {
    Color(buf[Offset(x, y)], buf[Offset(x, y) + 1], buf[Offset(x, y) + 2])
  }

  // ---- The loops ----

  method SetPixel(buf: array<byte>, x: int, y: int, c: Color)
    modifies buf
    ensures forall i :: 0 <= i < buf.Length ==>
      buf[i] == if OnScreen(x, y) && Offset(x, y) + 2 < buf.Length && Offset(x, y) <= i <= Offset(x, y) + 2
                then (if i == Offset(x, y) then c.r else if i == Offset(x, y) + 1 then c.g else c.b)
                else old(buf[i])
  {
    if x < 0 || x >= WIDTH || y < 0 || y >= HEIGHT {
      return;
    }
    var idx := (y * WIDTH + x) * BYTES_PER_PIXEL;
    if idx < 0 || idx + 2 >= buf.Length {
      return;
    }
    buf[idx] := c.r;
    buf[idx + 1] := c.g;
    buf[idx + 2] := c.b;
  }

  /** On a full-size buffer that is one pixel and no other. */
  method SetFramePixel(buf: array<byte>, x: int, y: int, c: Color)
    requires buf.Length == SIZE && OnScreen(x, y)
    modifies buf
    ensures forall u, v :: OnScreen(u, v) ==>
      PixelAt(buf, u, v) == if u == x && v == y then c else old(PixelAt(buf, u, v))
  {
    SetPixel(buf, x, y, c);
  }

  method DrawGlyph(buf: array<byte>, r: char, startX: int, startY: int, c: Color)
    requires buf.Length == SIZE
    modifies buf
    ensures forall u, v :: OnScreen(u, v) ==>
      PixelAt(buf, u, v) == if Lit(r, u - startX, v - startY) then c else old(PixelAt(buf, u, v))
  {
    hide Glyph, BitSet, PixelAt;
    var rows := Glyph(r);
    var row := 0;
    while row < GLYPH_HEIGHT
      invariant 0 <= row <= GLYPH_HEIGHT
      invariant forall u, v :: OnScreen(u, v) ==>
        PixelAt(buf, u, v) == if v - startY < row && Lit(r, u - startX, v - startY) then c else old(PixelAt(buf, u, v))
    {
      var y := startY + row;
      row := row + 1;
      if y < 0 || y >= HEIGHT {
        continue;
      }
      var rowBits := rows[row - 1];
      var col := 0;
      while col < GLYPH_WIDTH
        invariant 0 <= col <= GLYPH_WIDTH
        invariant forall u, v :: OnScreen(u, v) ==>
          PixelAt(buf, u, v) == if (v < y || (v == y && u - startX < col)) && Lit(r, u - startX, v - startY) then c
                                else old(PixelAt(buf, u, v))
      {
        var x := startX + col;
        col := col + 1;
        if x < 0 || x >= WIDTH {
          continue;
        }
        if BitSet(rowBits, col - 1) {
          SetFramePixel(buf, x, y, c);
        }
      }
    }
  }

  method DrawString(buf: array<byte>, text: string, startX: int, startY: int, c: Color)
    requires buf.Length == SIZE
    modifies buf
    ensures forall u, v :: OnScreen(u, v) ==>
      PixelAt(buf, u, v) == if TextLit(text, u - startX, v - startY) then c else old(PixelAt(buf, u, v))
  {
    hide Lit, PixelAt;
    var x := startX;
    var i := 0;
    while i < |text|
      invariant 0 <= i <= |text| && x == startX + i * GLYPH_PITCH
      invariant forall u, v :: OnScreen(u, v) ==>
        PixelAt(buf, u, v) == if u < x && TextLit(text, u - startX, v - startY) then c else old(PixelAt(buf, u, v))
    {
      if x >= WIDTH {
        break;
      }
      label before:
      DrawGlyph(buf, text[i], x, startY, c);
      forall u, v | OnScreen(u, v)
        ensures PixelAt(buf, u, v) ==
          if u < x + GLYPH_PITCH && TextLit(text, u - startX, v - startY) then c else old(PixelAt(buf, u, v))
      {
        OneGlyphFurther(text, i, u - startX, v - startY);
      }
      x := x + GLYPH_PITCH;
      i := i + 1;
    }
  }

  /** Drawing rune `i` is what separates the first i + 1 pitches of the text from the first i. */
  lemma OneGlyphFurther(text: string, i: nat, dx: int, dy: int)
    requires i < |text|
    ensures Lit(text[i], dx - i * GLYPH_PITCH, dy) ==>
              i * GLYPH_PITCH <= dx < (i + 1) * GLYPH_PITCH && TextLit(text, dx, dy)
    ensures i * GLYPH_PITCH <= dx < (i + 1) * GLYPH_PITCH ==>
              (TextLit(text, dx, dy) <==> Lit(text[i], dx - i * GLYPH_PITCH, dy))
  {
    hide Glyph, BitSet;
    if i * GLYPH_PITCH <= dx < (i + 1) * GLYPH_PITCH {
      assert dx / GLYPH_PITCH == i;
    }
  }

  /** The rendered buffer shows the picture, pixel for pixel, for every mode and every two lines of text. */
  method RenderFrame(s: DisplayState) returns (buf: array<byte>)
    ensures fresh(buf) && buf.Length == SIZE
    ensures forall x, y :: OnScreen(x, y) ==> PixelAt(buf, x, y) == Picture(s, x, y)
    ensures buf[..] == FrameBytes(s)
  {
    hide TextLit;
    buf := new byte[SIZE](i => 0);
    var topColor := IDLE_DATE;
    var bottomColor := IDLE_TIME;
    if s.mode == Busy {
      topColor := BUSY_TITLE;
      bottomColor := BUSY_COUNTDOWN;
    }
    DrawString(buf, s.topLine, 1, 1, topColor);
    DrawString(buf, s.bottomLine, 1, 9, bottomColor);
    BytesFromPixels(buf, s);
  }

  // ---- Bytes and pixels ----

  function Channel(c: Color, k: int): byte {
    if k == 0 then c.r else if k == 1 then c.g else c.b
  }

  function XOf(i: int): int { (i / BYTES_PER_PIXEL) % WIDTH }
  function YOf(i: int): int { i / BYTES_PER_PIXEL / WIDTH }

  /** The payload of the frame, row by row from the top left. */
  function FrameBytes(s: DisplayState): (bytes: seq<byte>)
    ensures |bytes| == SIZE
  {
    seq(SIZE, i requires 0 <= i < SIZE => Channel(Picture(s, XOf(i), YOf(i)), i % BYTES_PER_PIXEL))
  }

  lemma OffsetsCoverTheBuffer(i: int)
    requires 0 <= i < SIZE
    ensures OnScreen(XOf(i), YOf(i)) && Offset(XOf(i), YOf(i)) + i % BYTES_PER_PIXEL == i
  {
  }

  lemma BytesFromPixels(buf: array<byte>, s: DisplayState)
    requires buf.Length == SIZE
    requires forall x, y :: OnScreen(x, y) ==> PixelAt(buf, x, y) == Picture(s, x, y)
    ensures buf[..] == FrameBytes(s)
  {
    hide Picture;
    forall i | 0 <= i < SIZE
      ensures buf[i] == FrameBytes(s)[i]
    {
      OffsetsCoverTheBuffer(i);
      assert PixelAt(buf, XOf(i), YOf(i)) == Picture(s, XOf(i), YOf(i));
    }
  }

  // ---- What the picture shows ----

  /** Rows 0, 6 to 8 and 14 and 15, and every fifth column, are black whatever the text. */
  lemma MarginsAreBlack(s: DisplayState, x: int, y: int)
    requires OnScreen(x, y)
    ensures y == 0 || 6 <= y <= 8 || y >= 14 || x % GLYPH_PITCH == 0 ==> Picture(s, x, y) == BLACK
    ensures Picture(s, x, y) != BLACK ==> Picture(s, x, y) == if y < 8 then TopColor(s.mode) else BottomColor(s.mode)
  {
    hide Lit, TopColor, BottomColor;
    LitIsInside();
  }

  lemma LitIsInside()
    ensures forall r, dx, dy :: Lit(r, dx, dy) ==> 0 <= dx < GLYPH_WIDTH && 0 <= dy < GLYPH_HEIGHT - 1
  {
    forall r: char, dx, dy
      ensures Lit(r, dx, dy) ==> 0 <= dx < GLYPH_WIDTH && 0 <= dy < GLYPH_HEIGHT - 1
    {
      LastRowIsDark(r, dx);
    }
  }

  lemma LastRowIsDark(r: char, dx: int)
    ensures !Lit(r, dx, GLYPH_HEIGHT - 1)
  {
    hide Font4x6;
    var rows := Glyph(r);
    if 0 <= dx < GLYPH_WIDTH {
      assert !BitSet(0, dx);
    }
  }

  /** Every bit of the glyph of every rune among the first fourteen of a line is shown in its line's colour,
      and no rune from the sixteenth on shows at all: the lines never run into each other. */
  lemma FirstFourteenRunesAreShown(s: DisplayState, i: nat, dx: int, dy: int)
    requires 0 <= dx < GLYPH_WIDTH && 0 <= dy < GLYPH_HEIGHT
    ensures i < MAX_CHARS && i < |s.topLine| ==>
              OnScreen(1 + i * GLYPH_PITCH + dx, 1 + dy) &&
              (Picture(s, 1 + i * GLYPH_PITCH + dx, 1 + dy) ==
                 if Lit(s.topLine[i], dx, dy) then TopColor(s.mode) else BLACK)
    ensures i < MAX_CHARS && i < |s.bottomLine| ==>
              OnScreen(1 + i * GLYPH_PITCH + dx, 9 + dy) &&
              (Picture(s, 1 + i * GLYPH_PITCH + dx, 9 + dy) ==
                 if Lit(s.bottomLine[i], dx, dy) then BottomColor(s.mode) else BLACK)
    ensures i > MAX_CHARS ==> !OnScreen(1 + i * GLYPH_PITCH + dx, 1 + dy)
  {
    hide Glyph, BitSet;
    assert (i * GLYPH_PITCH + dx) / GLYPH_PITCH == i && (i * GLYPH_PITCH + dx) % GLYPH_PITCH == dx;
  }

  /** A frame depends on the mode and the two lines only. */
  lemma UpdateTimeIsNotRendered(s: DisplayState, t: DisplayState)
    requires s.mode == t.mode && s.topLine == t.topLine && s.bottomLine == t.bottomLine
    ensures FrameBytes(s) == FrameBytes(t)
  {
    hide TextLit;
    assert forall x, y :: Picture(s, x, y) == Picture(t, x, y);
  }

  // ---- The same in the bytes of the payload ----

  /** The three bytes of a pixel: rows of 72 pixels from the top, each pixel red, green and blue. */
  ghost function PixelIn(payload: seq<byte>, x: nat, y: nat): Color
    requires |payload| == 3456 && x < 72 && y < 16
  {
    Color(payload[3 * (72 * y + x)], payload[3 * (72 * y + x) + 1], payload[3 * (72 * y + x) + 2])
  }

  lemma PayloadShowsPicture(s: DisplayState, x: nat, y: nat)
    requires x < 72 && y < 16
    ensures PixelIn(FrameBytes(s), x, y) == Picture(s, x, y)
  {
    hide Picture;
    ByteOfPixel(x, y, 0);
    ByteOfPixel(x, y, 1);
    ByteOfPixel(x, y, 2);
  }

  lemma ByteOfPixel(x: nat, y: nat, k: nat)
    requires x < 72 && y < 16 && k < 3
    ensures var i := 3 * (72 * y + x) + k;
            0 <= i < SIZE && XOf(i) == x && YOf(i) == y && i % BYTES_PER_PIXEL == k
  {
  }

  /** The glyph row that four neighbouring pixels spell, in binary from left to right, a black one being 0. */
  ghost function RowSpelled(payload: seq<byte>, x: nat, y: nat): nat
    requires |payload| == 3456 && x + 3 < 72 && y < 16
  {
    Weight(PixelIn(payload, x, y) != Color(0, 0, 0), 8) + Weight(PixelIn(payload, x + 1, y) != Color(0, 0, 0), 4)
    + Weight(PixelIn(payload, x + 2, y) != Color(0, 0, 0), 2) + Weight(PixelIn(payload, x + 3, y) != Color(0, 0, 0), 1)
  }

  lemma PixelOfGlyph(s: DisplayState, i: nat, dx: nat, dy: nat)
    requires i < 14 && dx < 4 && dy < 6
    ensures 5 * i + 1 + dx < 72
    ensures i < |s.topLine| ==>
              PixelIn(FrameBytes(s), 5 * i + 1 + dx, 1 + dy)
              == if BitSet(Glyph(s.topLine[i])[dy], dx) then
                   (if s.mode == Busy then Color(255, 180, 0) else Color(255, 255, 255))
                 else Color(0, 0, 0)
    ensures i < |s.bottomLine| ==>
              PixelIn(FrameBytes(s), 5 * i + 1 + dx, 9 + dy)
              == if BitSet(Glyph(s.bottomLine[i])[dy], dx) then
                   (if s.mode == Busy then Color(255, 60, 60) else Color(100, 220, 255))
                 else Color(0, 0, 0)
  {
    hide Picture, FrameBytes, PixelIn, Glyph, BitSet, OnScreen;
    FirstFourteenRunesAreShown(s, i, dx, dy);
    PayloadShowsPicture(s, 5 * i + 1 + dx, 1 + dy);
    PayloadShowsPicture(s, 5 * i + 1 + dx, 9 + dy);
  }

  /** In the payload of every frame, at every row of every one of the first fourteen runes of a line, the four pixels
      starting five columns further for each rune spell the row of the rune's glyph from left to right: the title
      from row 1 in amber or white, the line below from row 9 in red or blue. */
  lemma PixelsSpellTheGlyphs(s: DisplayState, i: nat, dy: nat)
    requires i < 14 && dy < 6
    ensures i < |s.topLine| ==> RowSpelled(FrameBytes(s), 5 * i + 1, 1 + dy) == Glyph(s.topLine[i])[dy] as int
    ensures i < |s.bottomLine| ==> RowSpelled(FrameBytes(s), 5 * i + 1, 9 + dy) == Glyph(s.bottomLine[i])[dy] as int
  {
    hide FrameBytes, PixelIn, BitSet, Glyph;
    PixelOfGlyph(s, i, 0, dy);
    PixelOfGlyph(s, i, 1, dy);
    PixelOfGlyph(s, i, 2, dy);
    PixelOfGlyph(s, i, 3, dy);
    if i < |s.topLine| {
      ColumnsSpellTheRow(Glyph(s.topLine[i])[dy]);
    }
    if i < |s.bottomLine| {
      ColumnsSpellTheRow(Glyph(s.bottomLine[i])[dy]);
    }
  }
}
