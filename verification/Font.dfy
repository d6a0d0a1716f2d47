/** The 4x6 bitmap font of internal/calendar/display.go: six rows of four bits, bit 3 leftmost. */
module Font {
  import opened Basics

  const GLYPH_WIDTH := 4
  const GLYPH_HEIGHT := 6
  const GLYPH_PITCH := 5

  /** A byte of which the font uses the low four bits. */
  type Row = b: bv8 | b < 16

  /** font4x6, with nothing for a rune it does not define.  No glyph uses its last row. */
  function Font4x6(r: char): (glyph: Option<seq<Row>>)
    ensures glyph.Some? ==> |glyph.value| == GLYPH_HEIGHT && glyph.value[GLYPH_HEIGHT - 1] == 0
  {
    match r
    case ' ' => Some([0x0, 0x0, 0x0, 0x0, 0x0, 0x0])
    case '!' => Some([0x4, 0x4, 0x4, 0x0, 0x4, 0x0])
    case '\"' => Some([0xA, 0xA, 0x0, 0x0, 0x0, 0x0])
    case '#' => Some([0xA, 0xF, 0xA, 0xF, 0xA, 0x0])
    case '$' => Some([0x7, 0xC, 0x6, 0x3, 0xE, 0x0])
    case '%' => Some([0x9, 0x2, 0x4, 0x9, 0x0, 0x0])
    case '&' => Some([0x4, 0xA, 0x4, 0xA, 0x5, 0x0])
    case '\'' => Some([0x4, 0x4, 0x0, 0x0, 0x0, 0x0])
    case '(' => Some([0x2, 0x4, 0x4, 0x4, 0x2, 0x0])
    case ')' => Some([0x4, 0x2, 0x2, 0x2, 0x4, 0x0])
    case '*' => Some([0x0, 0xA, 0x4, 0xA, 0x0, 0x0])
    case '+' => Some([0x0, 0x4, 0xE, 0x4, 0x0, 0x0])
    case ',' => Some([0x0, 0x0, 0x0, 0x4, 0x8, 0x0])
    case '-' => Some([0x0, 0x0, 0xE, 0x0, 0x0, 0x0])
    case '.' => Some([0x0, 0x0, 0x0, 0x0, 0x4, 0x0])
    case '/' => Some([0x1, 0x2, 0x4, 0x8, 0x0, 0x0])
    case '0' => Some([0x6, 0x9, 0x9, 0x9, 0x6, 0x0])
    case '1' => Some([0x4, 0xC, 0x4, 0x4, 0xE, 0x0])
    case '2' => Some([0xE, 0x1, 0x6, 0x8, 0xF, 0x0])
    case '3' => Some([0xE, 0x1, 0x6, 0x1, 0xE, 0x0])
    case '4' => Some([0x9, 0x9, 0xF, 0x1, 0x1, 0x0])
    case '5' => Some([0xF, 0x8, 0xE, 0x1, 0xE, 0x0])
    case '6' => Some([0x6, 0x8, 0xE, 0x9, 0x6, 0x0])
    case '7' => Some([0xF, 0x1, 0x2, 0x4, 0x4, 0x0])
    case '8' => Some([0x6, 0x9, 0x6, 0x9, 0x6, 0x0])
    case '9' => Some([0x6, 0x9, 0x7, 0x1, 0x6, 0x0])
    case ':' => Some([0x0, 0x4, 0x0, 0x4, 0x0, 0x0])
    case ';' => Some([0x0, 0x4, 0x0, 0x4, 0x8, 0x0])
    case '<' => Some([0x2, 0x4, 0x8, 0x4, 0x2, 0x0])
    case '=' => Some([0x0, 0xE, 0x0, 0xE, 0x0, 0x0])
    case '>' => Some([0x8, 0x4, 0x2, 0x4, 0x8, 0x0])
    case '?' => Some([0xE, 0x1, 0x6, 0x0, 0x4, 0x0])
    case '@' => Some([0x6, 0x9, 0xB, 0x8, 0x6, 0x0])
    case 'A' => Some([0x6, 0x9, 0xF, 0x9, 0x9, 0x0])
    case 'B' => Some([0xE, 0x9, 0xE, 0x9, 0xE, 0x0])
    case 'C' => Some([0x6, 0x9, 0x8, 0x9, 0x6, 0x0])
    case 'D' => Some([0xE, 0x9, 0x9, 0x9, 0xE, 0x0])
    case 'E' => Some([0xF, 0x8, 0xE, 0x8, 0xF, 0x0])
    case 'F' => Some([0xF, 0x8, 0xE, 0x8, 0x8, 0x0])
    case 'G' => Some([0x6, 0x8, 0xB, 0x9, 0x6, 0x0])
    case 'H' => Some([0x9, 0x9, 0xF, 0x9, 0x9, 0x0])
    case 'I' => Some([0xE, 0x4, 0x4, 0x4, 0xE, 0x0])
    case 'J' => Some([0x7, 0x2, 0x2, 0xA, 0x4, 0x0])
    case 'K' => Some([0x9, 0xA, 0xC, 0xA, 0x9, 0x0])
    case 'L' => Some([0x8, 0x8, 0x8, 0x8, 0xF, 0x0])
    case 'M' => Some([0x9, 0xF, 0xF, 0x9, 0x9, 0x0])
    case 'N' => Some([0x9, 0xD, 0xB, 0x9, 0x9, 0x0])
    case 'O' => Some([0x6, 0x9, 0x9, 0x9, 0x6, 0x0])
    case 'P' => Some([0xE, 0x9, 0xE, 0x8, 0x8, 0x0])
    case 'Q' => Some([0x6, 0x9, 0x9, 0xB, 0x7, 0x0])
    case 'R' => Some([0xE, 0x9, 0xE, 0xA, 0x9, 0x0])
    case 'S' => Some([0x7, 0x8, 0x6, 0x1, 0xE, 0x0])
    case 'T' => Some([0xE, 0x4, 0x4, 0x4, 0x4, 0x0])
    case 'U' => Some([0x9, 0x9, 0x9, 0x9, 0x6, 0x0])
    case 'V' => Some([0x9, 0x9, 0x9, 0x6, 0x6, 0x0])
    case 'W' => Some([0x9, 0x9, 0xF, 0xF, 0x9, 0x0])
    case 'X' => Some([0x9, 0x9, 0x6, 0x9, 0x9, 0x0])
    case 'Y' => Some([0x9, 0x9, 0x6, 0x4, 0x4, 0x0])
    case 'Z' => Some([0xF, 0x2, 0x4, 0x8, 0xF, 0x0])
    case '[' => Some([0x6, 0x4, 0x4, 0x4, 0x6, 0x0])
    case '\\' => Some([0x8, 0x4, 0x2, 0x1, 0x0, 0x0])
    case ']' => Some([0x6, 0x2, 0x2, 0x2, 0x6, 0x0])
    case '^' => Some([0x4, 0xA, 0x0, 0x0, 0x0, 0x0])
    case '_' => Some([0x0, 0x0, 0x0, 0x0, 0xF, 0x0])
    case '`' => Some([0x8, 0x4, 0x0, 0x0, 0x0, 0x0])
    case '{' => Some([0x2, 0x4, 0x8, 0x4, 0x2, 0x0])
    case '|' => Some([0x4, 0x4, 0x4, 0x4, 0x4, 0x0])
    case '}' => Some([0x8, 0x4, 0x2, 0x4, 0x8, 0x0])
    case '~' => Some([0x0, 0x5, 0xA, 0x0, 0x0, 0x0])
    case _ => None
  }

  predicate BitSet(row: Row, col: nat)
    requires col < GLYPH_WIDTH
  {
    row & ((1 as bv8) << (GLYPH_WIDTH - 1 - col)) != 0
  }

  /** An undefined lower-case letter takes its capital, and any other undefined rune the question mark. */
  function Glyph(r: char): (rows: seq<Row>)
    ensures |rows| == GLYPH_HEIGHT && rows[GLYPH_HEIGHT - 1] == 0
  {
    var upper := if 'a' <= r <= 'z' then ((r as int) - 32) as char else r;
    if Font4x6(r).Some? then Font4x6(r).value
    else if Font4x6(upper).Some? then Font4x6(upper).value
    else Font4x6('?').value
  }

  /** A defined rune has its own glyph, an undefined lower-case letter its capital's, and any other the question
      mark's. */
  lemma GlyphOf(r: char)
    ensures Font4x6(r).Some? ==> Glyph(r) == Font4x6(r).value
    ensures Font4x6(r).None? && 'a' <= r <= 'z' ==>
              Font4x6(('A' as int + (r as int - 'a' as int)) as char) == Some(Glyph(r))
    ensures Font4x6(r).None? && !('a' <= r <= 'z') ==> Font4x6('?') == Some(Glyph(r))
  {
  }

  function Weight(lit: bool, w: nat): nat {
    if lit then w else 0
  }

  /** The four columns of a row, read from left to right, spell its number in binary. */
  lemma ColumnsSpellTheRow(row: Row)
    ensures row as int == Weight(BitSet(row, 0), 8) + Weight(BitSet(row, 1), 4) + Weight(BitSet(row, 2), 2)
                          + Weight(BitSet(row, 3), 1)
  {
    assert row in [0, 1, 2, 3, 4, 5, 6, 7, 8, 9, 10, 11, 12, 13, 14, 15];
  }
}
