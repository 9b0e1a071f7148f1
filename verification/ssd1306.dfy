/** The SSD1306 text driver: a cursor `(col, row)` over a 128x64 display in page
    addressing mode (eight pages of eight pixel rows), and the bus frames each
    operation issues. Every operation is a pure function from the cursor to the
    new cursor and the emitted transactions. */
module Ssd1306 {
  import opened Ints
  import opened Ssd1306Bus
  import opened Font

  const DISPLAY_WIDTH: u8 := 128
  const DISPLAY_HEIGHT: u8 := 64
  /** Pages of display RAM: eight pixel rows each. */
  const PAGES: u8 := DISPLAY_HEIGHT / 8

  /** Set the lower column start address (low nibble in the command's low bits). */
  const SETLOWCOLUMN: u8 := 0x00
  /** Set the higher column start address (high nibble in the command's low bits). */
  const SETHIGHCOLUMN: u8 := 0x10
  /** Set the page start address (page in the command's low three bits). */
  const SETSTARTPAGE: u8 := 0xB0

  const MEMORYMODE: u8 := 0x20
  const SETSTARTLINE: u8 := 0x40
  const SETCONTRAST: u8 := 0x81
  const CHARGEPUMP: u8 := 0x8D
  const SEGREMAP: u8 := 0xA0
  const DISPLAYALLON_RESUME: u8 := 0xA4
  const NORMALDISPLAY: u8 := 0xA6
  const SETMULTIPLEX: u8 := 0xA8
  const DISPLAYOFF: u8 := 0xAE
  const DISPLAYON: u8 := 0xAF
  const COMSCANDEC: u8 := 0xC8
  const SETDISPLAYOFFSET: u8 := 0xD3
  const SETDISPLAYCLOCKDIV: u8 := 0xD5
  const SETPRECHARGE: u8 := 0xD9
  const SETCOMPINS: u8 := 0xDA
  const SETVCOMDETECT: u8 := 0xDB

  /** The driver's cursor: the column in pixels and the page. */
  datatype Display = Display(col: u8, row: u8)

  /** A new cursor and the transactions issued to get there. */
  datatype Step = Step(display: Display, frames: seq<Transaction>)

  /** A new cursor, the number of characters accepted, and the transactions issued. */
  datatype Written = Written(display: Display, count: nat, frames: seq<Transaction>)

  // ---------------------------------------------------------------------------
  // How the controller follows the addressing commands

  /** The controller's RAM pointer after one command: a page command selects the
      page, a low-column command replaces the low nibble of the column and a
      high-column command its high nibble; other commands leave the pointer. */
  function ApplyCommand(p: Display, cmd: u8): Display {
    if SETSTARTPAGE <= cmd < SETSTARTPAGE + PAGES then p.(row := cmd - SETSTARTPAGE)
    else if SETLOWCOLUMN <= cmd < SETLOWCOLUMN + 16 then p.(col := p.col / 16 * 16 + (cmd - SETLOWCOLUMN))
    else if SETHIGHCOLUMN <= cmd < SETHIGHCOLUMN + 8 then p.(col := (cmd - SETHIGHCOLUMN) * 16 + p.col % 16)
    else p
  }

  /** The commands that move the RAM pointer in page addressing mode: the
      page command and the low- and high-column commands. */
  predicate AddressingCommand(cmd: u8) {
    || SETSTARTPAGE <= cmd < SETSTARTPAGE + PAGES
    || SETLOWCOLUMN <= cmd < SETLOWCOLUMN + 16
    || SETHIGHCOLUMN <= cmd < SETHIGHCOLUMN + 8
  }

  /** A command frame whose command is an addressing command. */
  predicate AddressingFrame(t: Transaction) {
    IsCommandFrame(t) && AddressingCommand(t.writes[1][0])
  }

  /** Every frame of the trace is an addressing command frame. */
  predicate AddressingFrames(frames: seq<Transaction>) {
    forall i :: 0 <= i < |frames| ==> AddressingFrame(frames[i])
  }

  lemma AddressingFramesAppend(a: seq<Transaction>, b: seq<Transaction>)
    requires AddressingFrames(a) && AddressingFrames(b)
    ensures AddressingFrames(a + b)
  {
    forall i | 0 <= i < |a + b|
      ensures AddressingFrame((a + b)[i])
    {
      if i >= |a| {
        assert (a + b)[i] == b[i - |a|];
      }
    }
  }

  function ApplyCommands(p: Display, cmds: seq<u8>): Display
    decreases |cmds|
  {
    if |cmds| == 0 then p else ApplyCommands(ApplyCommand(p, cmds[0]), cmds[1..])
  }

  /** Where the controller's RAM pointer ends up after a trace, from `p`,
      judging by its addressing commands. */
  function Addressed(p: Display, frames: seq<Transaction>): Display {
    ApplyCommands(p, Commands(frames))
  }

  lemma {:induction false} ApplyCommandsAppend(p: Display, a: seq<u8>, b: seq<u8>)
    ensures ApplyCommands(p, a + b) == ApplyCommands(ApplyCommands(p, a), b)
    decreases |a|
  {
    if |a| == 0 {
      assert a + b == b;
    } else {
      assert (a + b)[1..] == a[1..] + b;
      ApplyCommandsAppend(ApplyCommand(p, a[0]), a[1..], b);
    }
  }

  lemma AddressedAppend(p: Display, a: seq<Transaction>, b: seq<Transaction>)
    ensures Addressed(p, a + b) == Addressed(Addressed(p, a), b)
  {
    CommandsAppend(a, b);
    ApplyCommandsAppend(p, Commands(a), Commands(b));
  }

  // ---------------------------------------------------------------------------
  // set_cursor

  /** The page command for `row`, `SETSTARTPAGE | row`: the page sits in
      the low three bits, which `SETSTARTPAGE` leaves clear. */
  function PageCommand(row: u8): (c: u8)
    requires row < PAGES
    ensures c == SETSTARTPAGE + row
  {
    LowBitsClear(SETSTARTPAGE, row);
    OrOfDisjointIsSum(SETSTARTPAGE, row);
    BitOr(SETSTARTPAGE, row)
  }

  /** The two column commands for `col`, `SETLOWCOLUMN | (col & 0xF)` and
      `SETHIGHCOLUMN | (col >> 4)`: the low nibble of `col`, and the
      high-column command with the high nibble in its low bits. */
  function ColumnCommands(col: u8): (cs: seq<u8>)
    requires col < DISPLAY_WIDTH
    ensures cs == [col % 16, SETHIGHCOLUMN + col / 16]
  {
    MaskLowNibble(col);
    HighNibbleShift(col);
    LowBitsClear(SETHIGHCOLUMN, col / 16);
    OrOfDisjointIsSum(SETHIGHCOLUMN, col / 16);
    [BitOr(SETLOWCOLUMN, BitAnd(col, 0xF)), BitOr(SETHIGHCOLUMN, ShiftRight(col, 4))]
  }

  /** The command bases with a three-bit argument or-ed in leave those
      three bits clear. */
  lemma LowBitsClear(base: nat, arg: nat)
    requires (base == SETSTARTPAGE || base == SETHIGHCOLUMN) && arg < 8
    ensures BitAnd(base, arg) == 0
  {
    assert BitAnd(base / 8, arg / 8) == 0;
    assert BitAnd(base / 4, arg / 4) == 2 * BitAnd(base / 8, arg / 8);
    assert BitAnd(base / 2, arg / 2) == 2 * BitAnd(base / 4, arg / 4);
  }

  /** The page command selects exactly that page and keeps the column. */
  lemma PageCommandRoundTrip(p: Display, row: u8)
    requires row < PAGES
    ensures ApplyCommands(p, [PageCommand(row)]) == p.(row := row)
  {
    assert [PageCommand(row)][1..] == [];
  }

  /** Two commands in a row, one after the other. */
  lemma ApplyTwoCommands(p: Display, a: u8, b: u8)
    ensures ApplyCommands(p, [a, b]) == ApplyCommand(ApplyCommand(p, a), b)
  {
    var q := ApplyCommand(p, a);
    assert [a, b][1..] == [b];
    assert [b][1..] == [];
    assert ApplyCommands(q, [b]) == ApplyCommands(ApplyCommand(q, b), []);
  }

  /** Replacing the low nibble of a column by `lo`, then the high nibble by
      `hi`, gives `hi * 16 + lo`. */
  lemma NibbleSplice(c: int, lo: int, hi: int)
    requires 0 <= lo < 16
    ensures (c / 16 * 16 + lo) % 16 == lo
    ensures hi * 16 + (c / 16 * 16 + lo) % 16 == hi * 16 + lo
  {}

  /** The column nibbles round-trip: low nibble then high nibble put the
      controller at exactly `col`, whatever column it was at, in its page. */
  lemma ColumnCommandsRoundTrip(p: Display, col: u8)
    requires col < DISPLAY_WIDTH
    ensures ApplyCommands(p, ColumnCommands(col)) == p.(col := col)
  {
    var lo, hi := col % 16, SETHIGHCOLUMN + col / 16;
    NibbleSplice(p.col, lo, col / 16);
    var p1 := p.(col := p.col / 16 * 16 + lo);
    assert ApplyCommand(p, lo) == p1;
    assert ApplyCommand(p1, hi) == p.(col := col);
    ApplyTwoCommands(p, lo, hi);
  }

  /** The row half of `set_cursor`. */
  function SetRow(d: Display, row: u8): (r: Step)
    ensures AddressingFrames(r.frames)
    ensures Commands(r.frames) == (if row < PAGES then [SETSTARTPAGE + row] else [])
    ensures DataBytes(r.frames) == [] && DataFrameCount(r.frames) == 0
    ensures Addressed(d, r.frames) == r.display
  {
    if row < PAGES then
      PageCommandRoundTrip(d, row);
      Step(d.(row := row), WriteCmd(PageCommand(row)))
    else
      Step(d, [])
  }

  /** The column half of `set_cursor`. */
  function SetColumn(d: Display, col: u8): (r: Step)
    ensures AddressingFrames(r.frames)
    ensures Commands(r.frames) == (if col < DISPLAY_WIDTH then [col % 16, SETHIGHCOLUMN + col / 16] else [])
    ensures DataBytes(r.frames) == [] && DataFrameCount(r.frames) == 0
    ensures Addressed(d, r.frames) == r.display
  {
    if col < DISPLAY_WIDTH then
      var cmds := ColumnCommands(col);
      var frames := WriteCmd(cmds[0]) + WriteCmd(cmds[1]);
      CommandsAppend(WriteCmd(cmds[0]), WriteCmd(cmds[1]));
      DataBytesAppend(WriteCmd(cmds[0]), WriteCmd(cmds[1]));
      AddressingFramesAppend(WriteCmd(cmds[0]), WriteCmd(cmds[1]));
      ColumnCommandsRoundTrip(d, col);
      Step(d.(col := col), frames)
    else
      Step(d, [])
  }

  /** `set_cursor`: a row below 8 becomes the page and is sent as the page
      command `0xB0 + row`; a column below 128 becomes the column and is sent
      as its low nibble `col % 16` and then `0x10` plus its high nibble. An
      argument out of range leaves its field alone and sends nothing. Only
      addressing commands are sent, and the controller, following them from
      the old cursor, lands on the new cursor. */
  function SetCursor(d: Display, col: u8, row: u8): (r: Step)
    ensures r.display.row == (if row < PAGES then row else d.row)
    ensures r.display.col == (if col < DISPLAY_WIDTH then col else d.col)
    ensures AddressingFrames(r.frames)
    ensures |r.frames| == (if row < PAGES then 1 else 0) + (if col < DISPLAY_WIDTH then 2 else 0)
    ensures Commands(r.frames) ==
      (if row < PAGES then [SETSTARTPAGE + row] else []) +
      (if col < DISPLAY_WIDTH then [col % 16, SETHIGHCOLUMN + col / 16] else [])
    ensures DataBytes(r.frames) == [] && DataFrameCount(r.frames) == 0
    ensures Addressed(d, r.frames) == r.display
  {
    var byRow := SetRow(d, row);
    var byCol := SetColumn(byRow.display, col);
    DataBytesAppend(byRow.frames, byCol.frames);
    CommandsAppend(byRow.frames, byCol.frames);
    AddressedAppend(d, byRow.frames, byCol.frames);
    AddressingFramesAppend(byRow.frames, byCol.frames);
    Step(byCol.display, byRow.frames + byCol.frames)
  }

  // ---------------------------------------------------------------------------
  // write and write_str

  /** `ch as u8`: the low byte of the character's code point. */
  function LowByte(ch: char): (b: u8)
    ensures ch as nat < U8_LIMIT ==> b == ch as nat
    ensures (ch as nat - b) % U8_LIMIT == 0
  {
    TruncateU8(ch as nat)
  }

  /** Characters drawn from the font: low byte strictly above 0x20 and below
      0x80. Such a character is none of the three handled before it, its table
      index lies in the table past the unused space slot, and its glyph lights
      at least one pixel. */
  predicate HasGlyph(ch: char)
    ensures HasGlyph(ch) ==>
      && ch != '\r' && ch != '\n' && ch != ' '
      && 1 <= LowByte(ch) - FIRST_CHAR < |FONT_DATA|
      && !FONT_DATA[LowByte(ch) - FIRST_CHAR].Blank()
  {
    FontShape();
    FIRST_CHAR < LowByte(ch) < FIRST_CHAR + GLYPH_COUNT
  }

  /** The characters `write` accepts; every other one is ignored. */
  predicate Accepted(ch: char) {
    ch == '\r' || ch == '\n' || ch == ' ' || HasGlyph(ch)
  }

  /** Width in pixels of the blank drawn for a space. */
  const SPACE_WIDTH: nat := 2

  /** `write` on `ch` does not overflow the 8-bit cursor fields. */
  predicate CanWrite(d: Display, ch: char) {
    if ch == '\n' then d.row + 1 < U8_LIMIT
    else if ch == ' ' then d.col + SPACE_WIDTH < U8_LIMIT
    else if HasGlyph(ch) then d.col + GLYPH_WIDTH < U8_LIMIT
    else true
  }

  /** `write`: a carriage return moves to column 0 of the same page; a line feed
      moves to column 0 of the next page; both send nothing. A space sends a
      two-column blank and a character with a glyph sends its five columns, each
      as one data frame, and the column advances by exactly the bytes sent.
      Those characters count 1; any other character counts 0 and changes
      nothing. No addressing command is ever sent. */
  function Write(d: Display, ch: char): (r: Written)
    requires CanWrite(d, ch)
    ensures r.count == (if Accepted(ch) then 1 else 0)
    ensures !Accepted(ch) ==> r == Written(d, 0, [])
    ensures Commands(r.frames) == []
    ensures ch == '\r' ==> r.display == d.(col := 0) && r.frames == []
    ensures ch == '\n' ==> r.display == Display(0, d.row + 1) && r.frames == []
    ensures ch == ' ' ==> |r.frames| == 1 && DataBytes(r.frames) == [0, 0]
    ensures HasGlyph(ch) ==>
      && 1 <= LowByte(ch) - FIRST_CHAR < GLYPH_COUNT
      && |r.frames| == 1
      && DataBytes(r.frames) == FONT_DATA[LowByte(ch) - FIRST_CHAR].Columns()
    ensures ch != '\r' && ch != '\n' ==>
      r.display.row == d.row && r.display.col == d.col + |DataBytes(r.frames)|
  {
    if ch == '\r' then Written(d.(col := 0), 1, [])
    else if ch == '\n' then Written(Display(0, d.row + 1), 1, [])
    else if ch == ' ' then Written(d.(col := d.col + SPACE_WIDTH), 1, WriteRamBuf([0x00, 0x00]))
    else if HasGlyph(ch) then
      var glyph := FONT_DATA[LowByte(ch) - FIRST_CHAR];
      Written(d.(col := d.col + GLYPH_WIDTH), 1, WriteRamBuf(glyph.Columns()))
    else Written(d, 0, [])
  }

  /** As written, a carriage return or a line feed moves the cursor but sends
      nothing, so the controller's pointer stays where it was: the text that
      follows is drawn at the old position, not at the cursor's. For a carriage
      return this shows whenever the column was not already 0. */
  lemma LineBreakNotSentToController(d: Display)
    ensures Write(d, '\r').frames == [] && Addressed(d, Write(d, '\r').frames) == d
    ensures d.col != 0 ==> Addressed(d, Write(d, '\r').frames) != Write(d, '\r').display
    ensures CanWrite(d, '\n') ==>
      && Write(d, '\n').frames == []
      && Addressed(d, Write(d, '\n').frames) == d
      && Addressed(d, Write(d, '\n').frames) != Write(d, '\n').display
  {}

  /** Corrected `write`: a carriage return or line feed places the cursor with
      `set_cursor`, so the controller is told. Cursor, count and the frames of
      every other character are those of `write`; after a carriage return, or
      a line feed to a page that exists, the controller's pointer is the new
      cursor. */
  function WriteSynced(d: Display, ch: char): (r: Written)
    requires CanWrite(d, ch)
    ensures r.display == Write(d, ch).display && r.count == Write(d, ch).count
    ensures ch != '\r' && ch != '\n' ==> r.frames == Write(d, ch).frames
    ensures ch == '\r' || (ch == '\n' && d.row + 1 < PAGES) ==> Addressed(d, r.frames) == r.display
    ensures DataBytes(r.frames) == DataBytes(Write(d, ch).frames)
  {
    if ch == '\r' then
      Written(d.(col := 0), 1, SetCursor(d, 0, d.row).frames)
    else if ch == '\n' then
      Written(Display(0, d.row + 1), 1, SetCursor(d, 0, d.row + 1).frames)
    else
      Write(d, ch)
  }

  /** The number of characters of `s` that `write` accepts. */
  function AcceptedCount(s: string): (n: nat)
    ensures n <= |s|
    decreases |s|
  {
    if |s| == 0 then 0 else (if Accepted(s[0]) then 1 else 0) + AcceptedCount(s[1..])
  }

  /** The number of line feeds in `s`. */
  function NewlineCount(s: string): nat
    decreases |s|
  {
    if |s| == 0 then 0 else (if s[0] == '\n' then 1 else 0) + NewlineCount(s[1..])
  }

  /** Writing `s` character by character never overflows the cursor. */
  predicate CanWriteStr(d: Display, s: string)
    decreases |s|
  {
    |s| == 0 || (CanWrite(d, s[0]) && CanWriteStr(Write(d, s[0]).display, s[1..]))
  }

  /** `write_str`: `write` on each character in turn, summing the counts. The
      count is the number of accepted characters, hence at most the length;
      the page moves down once per line feed; no addressing command is sent;
      and on a line with no carriage return or line feed the column advances
      by exactly the RAM bytes sent. */
  function WriteStr(d: Display, s: string): (r: Written)
    requires CanWriteStr(d, s)
    ensures r.count == AcceptedCount(s) && r.count <= |s|
    ensures Commands(r.frames) == []
    ensures r.display.row == d.row + NewlineCount(s)
    ensures (forall i :: 0 <= i < |s| ==> s[i] != '\r' && s[i] != '\n') ==>
      r.display.col == d.col + |DataBytes(r.frames)|
    decreases |s|
  {
    if |s| == 0 then Written(d, 0, [])
    else
      var first := Write(d, s[0]);
      var rest := WriteStr(first.display, s[1..]);
      CommandsAppend(first.frames, rest.frames);
      DataBytesAppend(first.frames, rest.frames);
      Written(rest.display, first.count + rest.count, first.frames + rest.frames)
  }

  /** Result `b` written after result `a`: the cursor where `b` left it, the
      counts added, the frames concatenated. */
  function Then(a: Written, b: Written): Written {
    Written(b.display, a.count + b.count, a.frames + b.frames)
  }

  lemma ThenAssociative(a: Written, b: Written, c: Written)
    ensures Then(a, Then(b, c)) == Then(Then(a, b), c)
  {}

  /** One step of `write_str`: the first character, then the rest. */
  lemma WriteStrUnfold(d: Display, s: string)
    requires |s| > 0 && CanWriteStr(d, s)
    ensures CanWrite(d, s[0]) && CanWriteStr(Write(d, s[0]).display, s[1..])
    ensures WriteStr(d, s) == Then(Write(d, s[0]), WriteStr(Write(d, s[0]).display, s[1..]))
  {}

  /** The head and tail of `s + t` for a non-empty `s`. */
  lemma ConsAppend(s: string, t: string)
    requires |s| > 0
    ensures (s + t)[0] == s[0] && (s + t)[1..] == s[1..] + t
  {}

  /** `s + t` can be written exactly when `s` can, and then `t` can from where
      `s` left the cursor. */
  lemma {:induction false} CanWriteStrAppend(d: Display, s: string, t: string)
    ensures CanWriteStr(d, s + t) <==> CanWriteStr(d, s) && CanWriteStr(WriteStr(d, s).display, t)
    decreases |s|
  {
    if |s| == 0 {
      assert s + t == t;
    } else {
      ConsAppend(s, t);
      if CanWrite(d, s[0]) {
        CanWriteStrAppend(Write(d, s[0]).display, s[1..], t);
      }
    }
  }

  /** Writing a non-empty `s + t` starts with `s[0]` and goes on with `s[1..] + t`. */
  lemma WriteStrAppendHead(d: Display, s: string, t: string)
    requires |s| > 0 && CanWriteStr(d, s + t)
    ensures CanWrite(d, s[0]) && CanWriteStr(Write(d, s[0]).display, s[1..] + t)
  {
    ConsAppend(s, t);
    WriteStrUnfold(d, s + t);
  }

  /** The inductive step of `WriteStrAppend`: if the fold law holds after the
      first character of a non-empty `s`, it holds for `s`. */
  lemma WriteStrAppendStep(d: Display, s: string, t: string)
    requires |s| > 0 && CanWriteStr(d, s + t)
    requires var first := Write(d, s[0]);
      && CanWriteStr(first.display, s[1..] + t)
      && CanWriteStr(first.display, s[1..]) && CanWriteStr(WriteStr(first.display, s[1..]).display, t)
      && WriteStr(first.display, s[1..] + t)
         == Then(WriteStr(first.display, s[1..]), WriteStr(WriteStr(first.display, s[1..]).display, t))
    ensures CanWriteStr(d, s) && CanWriteStr(WriteStr(d, s).display, t)
    ensures WriteStr(d, s + t) == Then(WriteStr(d, s), WriteStr(WriteStr(d, s).display, t))
  {
    ConsAppend(s, t);
    var first := Write(d, s[0]);
    WriteStrUnfold(d, s + t);
    assert CanWriteStr(d, s);
    WriteStrUnfold(d, s);
    var tail := WriteStr(first.display, s[1..]);
    ThenAssociative(first, tail, WriteStr(tail.display, t));
  }

  /** `write_str` is the left fold of `write`: writing `s + t` is writing `s`
      and then `t` from where `s` left the cursor, with the counts added and the
      frames concatenated. */
  lemma {:induction false} WriteStrAppend(d: Display, s: string, t: string)
    requires CanWriteStr(d, s + t)
    ensures CanWriteStr(d, s) && CanWriteStr(WriteStr(d, s).display, t)
    ensures WriteStr(d, s + t) == Then(WriteStr(d, s), WriteStr(WriteStr(d, s).display, t))
    decreases |s|
  {
    if |s| == 0 {
      assert s + t == t;
    } else {
      WriteStrAppendHead(d, s, t);
      WriteStrAppend(Write(d, s[0]).display, s[1..], t);
      WriteStrAppendStep(d, s, t);
    }
  }

  // ---------------------------------------------------------------------------
  // clear

  /** A run of `n` zero bytes. */
  function Zeros(n: nat): (z: seq<u8>)
    ensures |z| == n && forall i :: 0 <= i < n ==> z[i] == 0
  {
    seq(n, _ => 0)
  }

  lemma ZerosAppend(a: nat, b: nat)
    ensures Zeros(a) + Zeros(b) == Zeros(a + b)
  {}

  /** The inner loop of `clear`: `n` times a 16-byte zero buffer, one frame each. */
  function ZeroChunks(n: nat): (r: seq<Transaction>)
    ensures |r| == n
    ensures forall i :: 0 <= i < |r| ==> IsDataFrame(r[i]) && r[i].writes[1] == Zeros(CHUNK)
    ensures ClearFrames(r)
    ensures DataBytes(r) == Zeros(n * CHUNK) && DataFrameCount(r) == n
    ensures Commands(r) == []
  {
    if n == 0 then []
    else
      var chunk := WriteRamBuf(Zeros(CHUNK));
      var rest := ZeroChunks(n - 1);
      assert chunk[0].writes[1] == Zeros(CHUNK) by {
        assert DataBytes(chunk) == chunk[0].writes[1] + DataBytes(chunk[1..]);
      }
      DataBytesAppend(chunk, rest);
      CommandsAppend(chunk, rest);
      ZerosAppend(CHUNK, (n - 1) * CHUNK);
      chunk + rest
  }

  /** A frame of `clear`: an addressing command, or 16 zero bytes of RAM. */
  predicate ZeroOrAddressingFrame(t: Transaction) {
    AddressingFrame(t) || (IsDataFrame(t) && t.writes[1] == Zeros(CHUNK))
  }

  /** Every frame of the trace is a frame of `clear`. */
  predicate ClearFrames(frames: seq<Transaction>) {
    forall i :: 0 <= i < |frames| ==> ZeroOrAddressingFrame(frames[i])
  }

  /** Addressing commands alone are frames of `clear`. */
  lemma AddressingFramesAreClearFrames(frames: seq<Transaction>)
    requires AddressingFrames(frames)
    ensures ClearFrames(frames)
  {
    forall i | 0 <= i < |frames|
      ensures ZeroOrAddressingFrame(frames[i])
    {
      assert AddressingFrame(frames[i]);
    }
  }

  lemma ClearFramesAppend(a: seq<Transaction>, b: seq<Transaction>)
    requires ClearFrames(a) && ClearFrames(b)
    ensures ClearFrames(a + b)
  {
    forall i | 0 <= i < |a + b|
      ensures ZeroOrAddressingFrame((a + b)[i])
    {
      if i >= |a| {
        assert (a + b)[i] == b[i - |a|];
      }
    }
  }

  /** One iteration of the outer loop of `clear`: `set_cursor(0, row)`, then
      one display width of zeros. The cursor goes to column 0, and to page `row`
      when that page exists; the RAM traffic is 128 zero bytes in 8 frames. */
  function ClearRow(d: Display, row: u8): (r: Step)
    ensures r.display == Display(0, if row < PAGES then row else d.row)
    ensures ClearFrames(r.frames)
    ensures DataBytes(r.frames) == Zeros(DISPLAY_WIDTH)
    ensures DataFrameCount(r.frames) == DISPLAY_WIDTH / CHUNK
  {
    var placed := SetCursor(d, 0, row);
    var zeros := ZeroChunks(DISPLAY_WIDTH / CHUNK);
    PlaceThenZeros(placed.frames, zeros);
    Step(placed.display, placed.frames + zeros)
  }

  /** One row of `clear` is the frames of `set_cursor(0, row)` followed by one
      display width of zero frames, and those `set_cursor` frames put the
      controller at column 0 of page `row` (for a row of 8 or more, at column 0
      of the page it was on), whatever its pointer was. */
  lemma ClearRowPlacesThenZeroes(d: Display, row: u8)
    ensures var placed := SetCursor(d, 0, row).frames;
      && ClearRow(d, row).frames == placed + ZeroChunks(DISPLAY_WIDTH / CHUNK)
      && forall p :: Addressed(p, placed) == (if row < PAGES then Display(0, row) else p.(col := 0))
  {
    var placed := SetCursor(d, 0, row).frames;
    forall p
      ensures Addressed(p, placed) == (if row < PAGES then Display(0, row) else p.(col := 0))
    {
      assert SetCursor(p, 0, row).frames == placed;
    }
  }

  /** Addressing commands followed by one display width of zero frames. */
  lemma PlaceThenZeros(placed: seq<Transaction>, zeros: seq<Transaction>)
    requires AddressingFrames(placed)
    requires DataBytes(placed) == [] && DataFrameCount(placed) == 0
    requires ClearFrames(zeros)
    requires DataBytes(zeros) == Zeros(DISPLAY_WIDTH / CHUNK * CHUNK)
    requires DataFrameCount(zeros) == DISPLAY_WIDTH / CHUNK
    ensures ClearFrames(placed + zeros)
    ensures DataBytes(placed + zeros) == Zeros(DISPLAY_WIDTH)
    ensures DataFrameCount(placed + zeros) == DISPLAY_WIDTH / CHUNK
  {
    AddressingFramesAreClearFrames(placed);
    ClearFramesAppend(placed, zeros);
    DataBytesAppend(placed, zeros);
  }

  /** One row of `clear` followed by the rest: the frame shapes, the zeros and
      the frame counts add up. */
  lemma RowThenRest(first: seq<Transaction>, rest: seq<Transaction>, rows: nat)
    requires ClearFrames(first) && ClearFrames(rest)
    requires DataBytes(first) == Zeros(DISPLAY_WIDTH)
    requires DataFrameCount(first) == DISPLAY_WIDTH / CHUNK
    requires DataBytes(rest) == Zeros(rows * DISPLAY_WIDTH)
    requires DataFrameCount(rest) == rows * (DISPLAY_WIDTH / CHUNK)
    ensures ClearFrames(first + rest)
    ensures DataBytes(first + rest) == Zeros((rows + 1) * DISPLAY_WIDTH)
    ensures DataFrameCount(first + rest) == (rows + 1) * (DISPLAY_WIDTH / CHUNK)
  {
    ClearFramesAppend(first, rest);
    DataBytesAppend(first, rest);
    ZerosAppend(DISPLAY_WIDTH, rows * DISPLAY_WIDTH);
  }

  /** The outer loop of `clear` from `row` on: for each row below the display
      height (64, counted in pixel rows, not pages), call `set_cursor(0, row)`
      and send one display width of zeros. `set_cursor` ignores a row of 8 or
      more, so from row 8 on only the column is reset and page 7 is written
      over again, 57 times in all. Every frame is an addressing command or a
      data frame of 16 zero bytes. */
  function ClearRows(d: Display, row: nat): (r: Step)
    requires row <= DISPLAY_HEIGHT
    ensures ClearFrames(r.frames)
    ensures DataBytes(r.frames) == Zeros((DISPLAY_HEIGHT - row) * DISPLAY_WIDTH)
    ensures DataFrameCount(r.frames) == (DISPLAY_HEIGHT - row) * (DISPLAY_WIDTH / CHUNK)
    decreases DISPLAY_HEIGHT - row
  {
    if row == DISPLAY_HEIGHT then Step(d, [])
    else
      var first := ClearRow(d, row);
      var rest := ClearRows(first.display, row + 1);
      RowThenRest(first.frames, rest.frames, DISPLAY_HEIGHT - row - 1);
      Step(rest.display, first.frames + rest.frames)
  }

  /** After any earlier traffic, homing the cursor puts the controller at
      (0, 0) from wherever it was. */
  lemma HomeFromAnyPointer(before: seq<Transaction>, d: Display)
    ensures forall p :: Addressed(p, before + SetCursor(d, 0, 0).frames) == Display(0, 0)
  {
    var home := SetCursor(d, 0, 0).frames;
    forall p
      ensures Addressed(p, before + home) == Display(0, 0)
    {
      AddressedAppend(p, before, home);
      var q := Addressed(p, before);
      assert SetCursor(q, 0, 0).frames == home;
    }
  }

  /** Homing the cursor puts the controller at (0, 0) from wherever it was,
      after any earlier traffic, adds no RAM data, and sends only addressing
      commands. */
  lemma HomeAddressesOrigin(before: seq<Transaction>, d: Display)
    ensures forall p :: Addressed(p, before + SetCursor(d, 0, 0).frames) == Display(0, 0)
    ensures DataBytes(before + SetCursor(d, 0, 0).frames) == DataBytes(before)
    ensures DataFrameCount(before + SetCursor(d, 0, 0).frames) == DataFrameCount(before)
    ensures AddressingFrames(SetCursor(d, 0, 0).frames)
    ensures ClearFrames(before) ==> ClearFrames(before + SetCursor(d, 0, 0).frames)
  {
    var home := SetCursor(d, 0, 0).frames;
    DataBytesAppend(before, home);
    AddressingFramesAreClearFrames(home);
    if ClearFrames(before) {
      ClearFramesAppend(before, home);
    }
    HomeFromAnyPointer(before, d);
  }

  /** `clear`: zero the display RAM row by row, then home the cursor. The
      cursor ends at (0, 0); the controller, whatever its pointer was, ends at
      (0, 0) too; and the RAM traffic is 64 rows of 128 zero bytes, in 512
      frames. */
  function Clear(d: Display): (r: Step)
    ensures r.display == Display(0, 0)
    ensures ClearFrames(r.frames)
    ensures forall p :: Addressed(p, r.frames) == Display(0, 0)
    ensures DataBytes(r.frames) == Zeros(DISPLAY_HEIGHT * DISPLAY_WIDTH)
    ensures DataFrameCount(r.frames) == DISPLAY_HEIGHT * (DISPLAY_WIDTH / CHUNK)
  {
    var rows := ClearRows(d, 0);
    var home := SetCursor(rows.display, 0, 0);
    ClearTraffic(rows);
    Step(home.display, rows.frames + home.frames)
  }

  /** Homing the cursor after traffic that clears 64 rows with zero bytes
      keeps it clear traffic of 64 rows of zeros and leaves the controller at
      (0, 0), whatever its pointer was. */
  lemma ClearTraffic(rows: Step)
    requires ClearFrames(rows.frames)
    requires DataBytes(rows.frames) == Zeros(DISPLAY_HEIGHT * DISPLAY_WIDTH)
    requires DataFrameCount(rows.frames) == DISPLAY_HEIGHT * (DISPLAY_WIDTH / CHUNK)
    ensures var home := SetCursor(rows.display, 0, 0);
      && home.display == Display(0, 0)
      && ClearFrames(rows.frames + home.frames)
      && (forall p :: Addressed(p, rows.frames + home.frames) == Display(0, 0))
      && DataBytes(rows.frames + home.frames) == Zeros(DISPLAY_HEIGHT * DISPLAY_WIDTH)
      && DataFrameCount(rows.frames + home.frames) == DISPLAY_HEIGHT * (DISPLAY_WIDTH / CHUNK)
  {
    HomeAddressesOrigin(rows.frames, rows.display);
  }

  // ---------------------------------------------------------------------------
  // new

  /** The initialisation commands and their arguments, in the order sent. */
  const INIT_COMMANDS: seq<u8> := [
    DISPLAYOFF,
    SETDISPLAYCLOCKDIV, 0x80,
    SETMULTIPLEX, 0x3F,
    SETDISPLAYOFFSET, 0x00,
    SETSTARTLINE,
    CHARGEPUMP, 0x14,
    MEMORYMODE, 0x02,
    SEGREMAP + 0x1,
    COMSCANDEC,
    SETCOMPINS, 0x12,
    SETCONTRAST, 0x7F,
    SETPRECHARGE, 0xF1,
    SETVCOMDETECT, 0x40,
    DISPLAYALLON_RESUME,
    NORMALDISPLAY,
    DISPLAYON
  ]

  /** The write operations of the initialisation transaction: every byte is
      preceded by its own command control byte. */
  function InitWrites(cmds: seq<u8>): (r: seq<seq<u8>>)
    ensures |r| == 2 * |cmds|
    ensures forall i :: 0 <= i < |r| ==> |r[i]| == 1
    decreases |cmds|
  {
    if |cmds| == 0 then [] else [[CONTROL_COMMAND], [cmds[0]]] + InitWrites(cmds[1..])
  }

  /** The commands a sequence of write operations carries, read two writes at
      a time as a command control byte and one command byte. */
  function CommandStream(writes: seq<seq<u8>>): seq<u8>
    decreases |writes|
  {
    if |writes| < 2 then []
    else
      var cmd := if writes[0] == [CONTROL_COMMAND] && |writes[1]| == 1 then writes[1] else [];
      cmd + CommandStream(writes[2..])
  }

  lemma {:induction false} InitWritesRoundTrip(cmds: seq<u8>)
    ensures CommandStream(InitWrites(cmds)) == cmds
    decreases |cmds|
  {
    if |cmds| > 0 {
      var w := InitWrites(cmds);
      assert w[2..] == InitWrites(cmds[1..]);
      InitWritesRoundTrip(cmds[1..]);
      assert cmds == [cmds[0]] + cmds[1..];
    }
  }

  /** An I2C failure reported by the bus; its kinds are not distinguished here. */
  datatype BusError = BusError(code: nat)

  /** How the bus answered a transaction. */
  datatype BusStatus = Acknowledged | Failed(error: BusError)

  datatype Result<T> = Ok(value: T) | Err(error: BusError)

  datatype Initialized = Initialized(result: Result<Display>, frames: seq<Transaction>)

  /** `new`: one transaction of 50 single-byte writes that carries the
      initialisation commands, from display-off to display-on. If the bus
      acknowledges it, the driver starts with its cursor at (0, 0); otherwise
      the bus error is returned. */
  function New(status: BusStatus): (r: Initialized)
    ensures |r.frames| == 1 && r.frames[0].address == I2C_ADDR
    ensures |r.frames[0].writes| == 50
    ensures forall i :: 0 <= i < |r.frames[0].writes| ==> |r.frames[0].writes[i]| == 1
    ensures CommandStream(r.frames[0].writes) == INIT_COMMANDS
    ensures r.result.Ok? <==> status.Acknowledged?
    ensures status.Acknowledged? ==> r.result.value == Display(0, 0)
    ensures status.Failed? ==> r.result == Err(status.error)
  {
    InitWritesRoundTrip(INIT_COMMANDS);
    var frames := [Transaction(I2C_ADDR, InitWrites(INIT_COMMANDS))];
    match status
    case Acknowledged => Initialized(Ok(Display(0, 0)), frames)
    case Failed(e) => Initialized(Err(e), frames)
  }
}
