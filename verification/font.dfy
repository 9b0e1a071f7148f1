/** The 5x8 glyph table of the text driver: one five-column glyph for each of
    the 96 characters from 0x20 (space) to 0x7F. Column bytes are bit-mapped
    pixel columns, least significant bit at the top. */
module Font {
  import opened Ints

  /** The first character the table covers. */
  const FIRST_CHAR: nat := 0x20
  const GLYPH_COUNT: nat := 96
  const GLYPH_WIDTH: nat := 5

  /** One glyph: five pixel columns, left to right. */
  datatype Glyph = Glyph(c0: u8, c1: u8, c2: u8, c3: u8, c4: u8) {
    /** The column bytes in the order they are sent to display RAM. */
    function Columns(): (r: seq<u8>)
      ensures |r| == GLYPH_WIDTH
    {
      [c0, c1, c2, c3, c4]
    }

    /** No column lights the bottom pixel row (bit 7). */
    predicate SevenRowsHigh() {
      c0 < 0x80 && c1 < 0x80 && c2 < 0x80 && c3 < 0x80 && c4 < 0x80
    }

    /** No column lights any pixel. */
    predicate Blank() {
      c0 == 0 && c1 == 0 && c2 == 0 && c3 == 0 && c4 == 0
    }
  }

  /** Characters 0x20-0x27: (space) ! " # $ % & ' */
  const BLOCK_0: seq<Glyph> := [
    Glyph(0x00, 0x00, 0x00, 0x00, 0x00),
    Glyph(0x00, 0x00, 0x5F, 0x00, 0x00),
    Glyph(0x00, 0x07, 0x00, 0x07, 0x00),
    Glyph(0x14, 0x7F, 0x14, 0x7F, 0x14),
    Glyph(0x24, 0x2A, 0x7F, 0x2A, 0x12),
    Glyph(0x23, 0x13, 0x08, 0x64, 0x62),
    Glyph(0x36, 0x49, 0x55, 0x22, 0x50),
    Glyph(0x00, 0x05, 0x03, 0x00, 0x00)
  ]

  /** Characters 0x28-0x2F: ( ) * + , - . / */
  const BLOCK_1: seq<Glyph> := [
    Glyph(0x00, 0x1C, 0x22, 0x41, 0x00),
    Glyph(0x00, 0x41, 0x22, 0x1C, 0x00),
    Glyph(0x08, 0x2A, 0x1C, 0x2A, 0x08),
    Glyph(0x08, 0x08, 0x3E, 0x08, 0x08),
    Glyph(0x00, 0x50, 0x30, 0x00, 0x00),
    Glyph(0x08, 0x08, 0x08, 0x08, 0x08),
    Glyph(0x00, 0x60, 0x60, 0x00, 0x00),
    Glyph(0x20, 0x10, 0x08, 0x04, 0x02)
  ]

  /** Characters 0x30-0x37: 0 1 2 3 4 5 6 7 */
  const BLOCK_2: seq<Glyph> := [
    Glyph(0x3E, 0x51, 0x49, 0x45, 0x3E),
    Glyph(0x00, 0x42, 0x7F, 0x40, 0x00),
    Glyph(0x42, 0x61, 0x51, 0x49, 0x46),
    Glyph(0x21, 0x41, 0x45, 0x4B, 0x31),
    Glyph(0x18, 0x14, 0x12, 0x7F, 0x10),
    Glyph(0x27, 0x45, 0x45, 0x45, 0x39),
    Glyph(0x3C, 0x4A, 0x49, 0x49, 0x30),
    Glyph(0x01, 0x71, 0x09, 0x05, 0x03)
  ]

  /** Characters 0x38-0x3F: 8 9 : ; < = > ? */
  const BLOCK_3: seq<Glyph> := [
    Glyph(0x36, 0x49, 0x49, 0x49, 0x36),
    Glyph(0x06, 0x49, 0x49, 0x29, 0x1E),
    Glyph(0x00, 0x36, 0x36, 0x00, 0x00),
    Glyph(0x00, 0x56, 0x36, 0x00, 0x00),
    Glyph(0x00, 0x08, 0x14, 0x22, 0x41),
    Glyph(0x14, 0x14, 0x14, 0x14, 0x14),
    Glyph(0x41, 0x22, 0x14, 0x08, 0x00),
    Glyph(0x02, 0x01, 0x51, 0x09, 0x06)
  ]

  /** Characters 0x40-0x47: @ A B C D E F G */
  const BLOCK_4: seq<Glyph> := [
    Glyph(0x32, 0x49, 0x79, 0x41, 0x3E),
    Glyph(0x7E, 0x11, 0x11, 0x11, 0x7E),
    Glyph(0x7F, 0x49, 0x49, 0x49, 0x36),
    Glyph(0x3E, 0x41, 0x41, 0x41, 0x22),
    Glyph(0x7F, 0x41, 0x41, 0x22, 0x1C),
    Glyph(0x7F, 0x49, 0x49, 0x49, 0x41),
    Glyph(0x7F, 0x09, 0x09, 0x01, 0x01),
    Glyph(0x3E, 0x41, 0x41, 0x51, 0x32)
  ]

  /** Characters 0x48-0x4F: H I J K L M N O */
  const BLOCK_5: seq<Glyph> := [
    Glyph(0x7F, 0x08, 0x08, 0x08, 0x7F),
    Glyph(0x00, 0x41, 0x7F, 0x41, 0x00),
    Glyph(0x20, 0x40, 0x41, 0x3F, 0x01),
    Glyph(0x7F, 0x08, 0x14, 0x22, 0x41),
    Glyph(0x7F, 0x40, 0x40, 0x40, 0x40),
    Glyph(0x7F, 0x02, 0x04, 0x02, 0x7F),
    Glyph(0x7F, 0x04, 0x08, 0x10, 0x7F),
    Glyph(0x3E, 0x41, 0x41, 0x41, 0x3E)
  ]

  /** Characters 0x50-0x57: P Q R S T U V W */
  const BLOCK_6: seq<Glyph> := [
    Glyph(0x7F, 0x09, 0x09, 0x09, 0x06),
    Glyph(0x3E, 0x41, 0x51, 0x21, 0x5E),
    Glyph(0x7F, 0x09, 0x19, 0x29, 0x46),
    Glyph(0x46, 0x49, 0x49, 0x49, 0x31),
    Glyph(0x01, 0x01, 0x7F, 0x01, 0x01),
    Glyph(0x3F, 0x40, 0x40, 0x40, 0x3F),
    Glyph(0x1F, 0x20, 0x40, 0x20, 0x1F),
    Glyph(0x7F, 0x20, 0x18, 0x20, 0x7F)
  ]

  /** Characters 0x58-0x5F: X Y Z [ \ ] ^ _ */
  const BLOCK_7: seq<Glyph> := [
    Glyph(0x63, 0x14, 0x08, 0x14, 0x63),
    Glyph(0x03, 0x04, 0x78, 0x04, 0x03),
    Glyph(0x61, 0x51, 0x49, 0x45, 0x43),
    Glyph(0x00, 0x00, 0x7F, 0x41, 0x41),
    Glyph(0x02, 0x04, 0x08, 0x10, 0x20),
    Glyph(0x41, 0x41, 0x7F, 0x00, 0x00),
    Glyph(0x04, 0x02, 0x01, 0x02, 0x04),
    Glyph(0x40, 0x40, 0x40, 0x40, 0x40)
  ]

  /** Characters 0x60-0x67: ` a b c d e f g */
  const BLOCK_8: seq<Glyph> := [
    Glyph(0x00, 0x01, 0x02, 0x04, 0x00),
    Glyph(0x20, 0x54, 0x54, 0x54, 0x78),
    Glyph(0x7F, 0x48, 0x44, 0x44, 0x38),
    Glyph(0x38, 0x44, 0x44, 0x44, 0x20),
    Glyph(0x38, 0x44, 0x44, 0x48, 0x7F),
    Glyph(0x38, 0x54, 0x54, 0x54, 0x18),
    Glyph(0x08, 0x7E, 0x09, 0x01, 0x02),
    Glyph(0x08, 0x14, 0x54, 0x54, 0x3C)
  ]

  /** Characters 0x68-0x6F: h i j k l m n o */
  const BLOCK_9: seq<Glyph> := [
    Glyph(0x7F, 0x08, 0x04, 0x04, 0x78),
    Glyph(0x00, 0x44, 0x7D, 0x40, 0x00),
    Glyph(0x20, 0x40, 0x44, 0x3D, 0x00),
    Glyph(0x00, 0x7F, 0x10, 0x28, 0x44),
    Glyph(0x00, 0x41, 0x7F, 0x40, 0x00),
    Glyph(0x7C, 0x04, 0x18, 0x04, 0x78),
    Glyph(0x7C, 0x08, 0x04, 0x04, 0x78),
    Glyph(0x38, 0x44, 0x44, 0x44, 0x38)
  ]

  /** Characters 0x70-0x77: p q r s t u v w */
  const BLOCK_10: seq<Glyph> := [
    Glyph(0x7C, 0x14, 0x14, 0x14, 0x08),
    Glyph(0x08, 0x14, 0x14, 0x18, 0x7C),
    Glyph(0x7C, 0x08, 0x04, 0x04, 0x08),
    Glyph(0x48, 0x54, 0x54, 0x54, 0x20),
    Glyph(0x04, 0x3F, 0x44, 0x40, 0x20),
    Glyph(0x3C, 0x40, 0x40, 0x20, 0x7C),
    Glyph(0x1C, 0x20, 0x40, 0x20, 0x1C),
    Glyph(0x3C, 0x40, 0x30, 0x40, 0x3C)
  ]

  /** Characters 0x78-0x7F: x y z { | } -> <- */
  const BLOCK_11: seq<Glyph> := [
    Glyph(0x44, 0x28, 0x10, 0x28, 0x44),
    Glyph(0x0C, 0x50, 0x50, 0x50, 0x3C),
    Glyph(0x44, 0x64, 0x54, 0x4C, 0x44),
    Glyph(0x00, 0x08, 0x36, 0x41, 0x00),
    Glyph(0x00, 0x00, 0x7F, 0x00, 0x00),
    Glyph(0x00, 0x41, 0x36, 0x08, 0x00),
    Glyph(0x08, 0x08, 0x2A, 0x1C, 0x08),
    Glyph(0x08, 0x1C, 0x2A, 0x08, 0x08)
  ]

  /** The font table, indexed by character code minus 0x20, assembled from
      blocks of eight glyphs. */
  const FONT_DATA: seq<Glyph> :=
    BLOCK_0 + BLOCK_1 + BLOCK_2 + BLOCK_3 + BLOCK_4 + BLOCK_5 +
    BLOCK_6 + BLOCK_7 + BLOCK_8 + BLOCK_9 + BLOCK_10 + BLOCK_11

  /** Every glyph of `t` is at most seven pixels tall and lights some pixel. */
  ghost predicate Drawn(t: seq<Glyph>) {
    forall j :: 0 <= j < |t| ==> t[j].SevenRowsHigh() && !t[j].Blank()
  }

  /** `t` starts with the blank space slot and every later glyph is drawn. */
  ghost predicate SpaceThenDrawn(t: seq<Glyph>) {
    && |t| >= 1
    && t[0].Blank() && t[0].SevenRowsHigh()
    && Drawn(t[1..])
  }

  lemma ExtendDrawn(t: seq<Glyph>, b: seq<Glyph>)
    requires SpaceThenDrawn(t) && Drawn(b)
    ensures SpaceThenDrawn(t + b)
  {
    assert (t + b)[1..] == t[1..] + b;
  }

  /** Blocks 1 to 4 hold only drawn glyphs. */
  lemma LowBlocksDrawn()
    ensures Drawn(BLOCK_1) && Drawn(BLOCK_2) && Drawn(BLOCK_3) && Drawn(BLOCK_4)
  {}

  /** Blocks 5 to 8 hold only drawn glyphs. */
  lemma MiddleBlocksDrawn()
    ensures Drawn(BLOCK_5) && Drawn(BLOCK_6) && Drawn(BLOCK_7) && Drawn(BLOCK_8)
  {}

  /** Blocks 9 to 11 hold only drawn glyphs. */
  lemma HighBlocksDrawn()
    ensures Drawn(BLOCK_9) && Drawn(BLOCK_10) && Drawn(BLOCK_11)
  {}

  /** The shape of the table: 96 glyphs, none taller than seven pixels, so a
      blank pixel row separates consecutive text pages; and the only blank
      glyph is the space slot at index 0, which `write` never sends, so every
      character drawn from the font lights at least one pixel. */
  lemma FontShape()
    ensures |FONT_DATA| == GLYPH_COUNT
    ensures forall i :: 0 <= i < |FONT_DATA| ==> FONT_DATA[i].SevenRowsHigh()
    ensures FONT_DATA[0].Blank()
    ensures forall i :: 1 <= i < |FONT_DATA| ==> !FONT_DATA[i].Blank()
  {
    LowBlocksDrawn();
    MiddleBlocksDrawn();
    HighBlocksDrawn();
    var t := BLOCK_0;
    assert SpaceThenDrawn(t);
    ExtendDrawn(t, BLOCK_1); t := t + BLOCK_1;
    ExtendDrawn(t, BLOCK_2); t := t + BLOCK_2;
    ExtendDrawn(t, BLOCK_3); t := t + BLOCK_3;
    ExtendDrawn(t, BLOCK_4); t := t + BLOCK_4;
    ExtendDrawn(t, BLOCK_5); t := t + BLOCK_5;
    ExtendDrawn(t, BLOCK_6); t := t + BLOCK_6;
    ExtendDrawn(t, BLOCK_7); t := t + BLOCK_7;
    ExtendDrawn(t, BLOCK_8); t := t + BLOCK_8;
    ExtendDrawn(t, BLOCK_9); t := t + BLOCK_9;
    ExtendDrawn(t, BLOCK_10); t := t + BLOCK_10;
    ExtendDrawn(t, BLOCK_11); t := t + BLOCK_11;
    assert t == FONT_DATA;
    assert forall i :: 1 <= i < |t| ==> t[i] == t[1..][i - 1];
  }
}
