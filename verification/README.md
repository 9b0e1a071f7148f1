# Buzzer tone timer and SSD1306 text driver, modelled in Dafny

This project models two pieces of sequential logic from the `shut-up-device`
firmware (an ATmega328P board with a buzzer and an SSD1306 OLED display):

- **`tone`** (`src/buzzer.rs`). It turns a 16-bit frequency into a timer-2
  program: prescaler bits and an 8-bit compare value. The search starts from
  the half-period `F_CPU / f / 2 - 1` with `F_CPU` = 1 MHz. While the value is
  above 255 and the bits are below `0b111`, it halves the value with the
  rounding rule `(x + 1) / 2 - 1` and doubles the bits. `tone` also computes a
  toggle budget `2 * f * duration / 1000`. It writes the timer registers in a
  fixed order: mode, direct clock, prescaler, compare, interrupt enable. The
  model records those writes as a trace of abstract events (`Buzzer.RegisterWrite`).
- **`SSD1306Display`** (`src/display.rs`). This is a cursor `(col, row)` over a
  128x64 display in page addressing mode. Each operation is a pure function. It
  returns the new cursor and the I2C transactions the driver would issue:
  - a command frame is control byte `0x00` followed by one command byte;
  - a data frame is control byte `0x40` followed by at most 16 display-RAM bytes.

  The bus is an opaque sink. The driver ignores bus errors, so the frames are
  the same whatever the bus answers. The only exception is `new`, which
  reports the error.

Modules:
- `Ints` (`ints.dfy`): `u8`/`u16`/`u32` as subset types, truncation, byte bit
  operations, and two facts about integer division.
- `Buzzer` (`buzzer.dfy`): the prescaler search, a closed-form reference for
  it, the toggle budget, and `tone`.
- `Font` (`font.dfy`): the 96-glyph, 5-column font table.
- `Ssd1306Bus` (`ssd1306_bus.dfy`): frames, `write_cmd`, `write_ram_buf`, and
  the decoders `Commands` and `DataBytes`. The decoders read the command bytes
  and the RAM bytes back out of a trace.
- `Ssd1306` (`ssd1306.dfy`): the cursor state machine (`write`, `write_str`,
  `set_cursor`, `clear`, `new`). It also has `Addressed`, an interpreter of the
  page and column addressing commands. `Addressed` says where the controller's
  RAM pointer ends up after a trace. It is the specification that `set_cursor`
  and `clear` are proved against.

Some decisions about arithmetic and panics:
- **Build profile.** Rust's `u32` overflow behaviour depends on the build.
  `Buzzer.Profile` names the two cases: `Checked` panics and `Wrapping` keeps
  the low 32 bits.
- **Division by zero.** This always panics in Rust. So `tone(0, _)` is
  modelled as a panic after the two writes at `src/buzzer.rs:28-29`, which
  happen before the division.
- **Cursor overflow.** In the display driver, `u8` cursor overflow is excluded
  by preconditions (`CanWrite`, `CanWriteStr`) instead of being modelled as a
  panic.

The code's own behaviour in four places worth stating up front:
- **Frequency 0.** Nothing rejects it before the hardware is touched:
  `src/buzzer.rs:28-29` write TCCR2A and TCCR2B, and line 37 then divides by
  zero.
- **Prescaler choice.** The code does not pick from the timer's divider set.
  It doubles `bits` (1, 2, 4, 8) and halves the value once per step, at most
  three times (`src/buzzer.rs:41-44`).
- **Write order.** The prescaler is written (`src/buzzer.rs:48-51`) before the
  compare register (`src/buzzer.rs:54`).
- **Frequencies too low to fit.** No error is reported: the compare value is
  truncated to 8 bits (`src/buzzer.rs:45`). This is recorded under Findings.

## Model

| member | source | states |
|---|---|---|
| Buzzer.HalfPeriodBounds | src/buzzer.rs:18-37 | with `F_CPU` = 1 MHz, every 16-bit frequency ≥ 1 has half-period `F_CPU/f/2` between 7 and 500000, so the initial `- 1` never underflows |
| Buzzer.SearchPrescaler | src/buzzer.rs:38-44 | the search loop stops exactly where the loop-free reference says: with h = `ocr_base + 1`, the first of `h-1`, `h/2-1`, `h/4-1` that fits in 255, with bits 1, 2 or 4, and otherwise `h/8-1` with bits 8; each rounding step `(x+1)/2-1` is an exact floor division of the half-period |
| Buzzer.ClosedFormIsFirstFit | src/buzzer.rs:41-44 | the bits are 1, 2, 4 or 8; the value fits in 255 unless the bits reached 8; the divider before the last one did not fit; and the value is `h` divided by the bits, rounded down, minus one |
| Buzzer.ProgramAccuracy | src/buzzer.rs:41-45 | when the value fits, the half-period the code's arithmetic assumes, `(compare+1)*bits` taking `bits` as the divider, is at most `h` and short of it by less than `bits` cycles |
| Buzzer.ReferenceProgram | src/buzzer.rs:36-45 | the program `tone` computes for a frequency: bits 1, 2, 4 or 8; when the compare value fits, `(compare+1)*bits ≤ h < (compare+2)*bits` for the half-period `h`; otherwise the bits are 8 and the compare value is `h/8-1` modulo 256; and the bits are the smallest that work: with any bits above 1, the value for half those bits did not fit in 255 |
| Buzzer.CompareWrapsExactlyFrom2056 | src/buzzer.rs:41-45 | the value left by the search is above 255, and is therefore cut by `as u8`, exactly when the half-period is at least 2056 cycles |
| Buzzer.CompareWrapsExactlyBelow244 | src/buzzer.rs:37-45 | the silent `as u8` truncation happens if and only if the frequency is at most 243 Hz |
| Buzzer.Program440 | src/buzzer.rs:36-46 | 440 Hz (the start-up beep) starts at 1135 and ends at bits 8, compare 141, with no wrap |
| Buzzer.Program243And244 | src/buzzer.rs:45 | 244 Hz ends at compare 255; 243 Hz leaves 256, which is written as compare 0 |
| Buzzer.CheckedProgramFor | src/buzzer.rs:36-46 | corrected search on a half-period: it rejects exactly the half-periods of 2056 cycles or more; an accepted program keeps the search's bits and its untruncated compare value, so `(compare+1)*bits ≤ h < (compare+2)*bits` |
| Buzzer.CheckedProgram | src/buzzer.rs:36-46 | corrected search on a frequency: it rejects exactly the frequencies ≤ 243 Hz, and an accepted program equals the one `tone` computes |
| Buzzer.MulU32 | src/buzzer.rs:53 | a `u32` product panics only in a checked build when it reaches 2^32; otherwise it is congruent to the true product modulo 2^32, and equal to it when it fits |
| Buzzer.ToggleCount | src/buzzer.rs:53 | without overflow the budget is the number of whole half-periods in `duration` ms: `r*1000 ≤ 2*f*d < (r+1)*1000`; it fails only in a checked build when `2*f*d ≥ 2^32`; in a wrapping build it is always `(2*f*d mod 2^32) / 1000` |
| Buzzer.ToggleCountProfileIndependent | src/buzzer.rs:53 | when `2*f*d < 2^32` the budget is the same in checked and wrapping builds |
| Buzzer.Toggles440For2000 | src/buzzer.rs:53 | 440 Hz for 2000 ms gives 1760 toggles |
| Buzzer.Tone | src/buzzer.rs:21-56 | the mode register is written first and the direct clock second; every prescaler write precedes the compare write; the interrupt enable is the last write, comes after a compare write, and happens exactly when `tone` returns; frequency 0 panics after exactly the two initial writes; a checked overflow panics after exactly the mode, direct-clock and prescaler writes, so before the compare write; a completed run writes the reference program and returns the toggle budget |
| Ints.TruncateU8 | src/buzzer.rs:45 | `as u8` keeps a value below 256 and otherwise differs from it by a multiple of 256 |
| Ssd1306Bus.WriteCmd | src/display.rs:147-155 | one command frame to address 0x3C whose decoded command stream is exactly the given byte and which carries no RAM data |
| Ssd1306Bus.WriteRamBuf | src/display.rs:177-188 | ⌈n/16⌉ data frames, each with a chunk of 1 to 16 bytes, all but the last full; the chunks concatenate back to the input; no command is sent |
| Ints.OrOfDisjointIsSum | src/display.rs:205-211 | or-ing two values that share no set bit adds them, which is how the page command and the high-column command place their argument in the low bits of `0xB0` and `0x10` |
| Ints.MaskLowNibble | src/display.rs:210 | `col & 0xF` is `col % 16` |
| Ints.HighNibbleShift | src/display.rs:211 | `col >> 4` is `col / 16` |
| Ssd1306.PageCommand | src/display.rs:203-205 | for a row below 8, `SETSTARTPAGE` or-ed with `row` is `0xB0 + row` |
| Ssd1306.ColumnCommands | src/display.rs:208-211 | for a column below 128, the two column commands are `col % 16` and `0x10 + col / 16`, that is the low nibble and then `0x10` plus the high nibble |
| Ssd1306.PageCommandRoundTrip | src/display.rs:203-205 | the page command for a row below 8 makes the controller select exactly that page and keep its column |
| Ssd1306.ColumnCommandsRoundTrip | src/display.rs:208-212 | the low-nibble then high-nibble commands put the controller at exactly `col`, whatever column it was at |
| Ssd1306.SetRow | src/display.rs:203-206 | only addressing command frames are sent, no RAM data; the command stream is `[0xB0 + row]` for a row below 8 and empty otherwise; the controller, following the frames, lands on the row half's cursor |
| Ssd1306.SetColumn | src/display.rs:208-212 | only addressing command frames are sent, no RAM data; the command stream is `[col % 16, 0x10 + col / 16]` for a column below 128 and empty otherwise; the controller, following the frames, lands on the column half's cursor |
| Ssd1306.SetCursor | src/display.rs:201-213 | the row changes only if below 8 and the column only if below 128; an out-of-range argument keeps its field and sends nothing; only addressing command frames (page, low-column or high-column command) are sent, and their bytes in order are `0xB0 + row` (row below 8), then `col % 16` and `0x10 + col / 16` (column below 128); the controller, decoding them from the old cursor, arrives at the new cursor |
| Ssd1306.Write | src/display.rs:108-137 | `'\r'` gives column 0 on the same page and `'\n'` gives column 0 on the next page, both sending nothing; `' '` sends one data frame of two zero bytes; a character whose low byte is in 0x21..0x7F sends one data frame holding its glyph's five columns (table index 1..95); in both of these cases the column advances by exactly the bytes sent; the count is 1 for these characters, and any other character counts 0 and changes nothing |
| Ssd1306.LowByte | src/display.rs:127-128 | `ch as u8` is the code point itself below 256, and otherwise differs from it by a multiple of 256 |
| Ssd1306.HasGlyph | src/display.rs:127-129 | a character drawn from the font is none of `'\r'`, `'\n'` and `' '`, its index `ch as u8 - 0x20` lies in 1..95 inside the table, and its glyph lights at least one pixel |
| Font.FontShape | src/display.rs:217-314 | `FONT_DATA` has 96 glyphs; every column fits in the 7 low bits; entry 0 (space) is blank and every other entry lights at least one pixel |
| Ssd1306.LineBreakNotSentToController | src/display.rs:110-119 | as written, `'\r'` and `'\n'` send no frame, so the controller's pointer is still the old cursor; it differs from the driver's new cursor after `'\n'`, and after `'\r'` whenever the column was not 0 |
| Ssd1306.WriteSynced | src/display.rs:108-137 | corrected `write`: the same cursor, count and RAM bytes as `write`; after `'\r'`, or after `'\n'` to an existing page, the controller's pointer equals the new cursor |
| Ssd1306.WriteStr | src/display.rs:139-145 | the count is the number of accepted characters, so at most the length; the page advances once per line feed; no addressing command is sent; on a line without `'\r'`/`'\n'` the column advances by exactly the RAM bytes sent |
| Ssd1306.CanWriteStrAppend | src/display.rs:139-145 | `s + t` can be written without cursor overflow exactly when `s` can, and then `t` can from where `s` left the cursor |
| Ssd1306.WriteStrAppend | src/display.rs:139-145 | `write_str` is the left fold of `write`: writing `s + t` is writing `s` and then `t`, with the counts added and the frames concatenated |
| Ssd1306.ZeroChunks | src/display.rs:193-195 | `n` iterations of the inner loop send `n` data frames, each carrying exactly 16 zero bytes, and no command |
| Ssd1306.ClearRow | src/display.rs:192-195 | the traffic of one row of `clear`: the cursor moves to column 0 (and to page `row` when it is below 8); the frames are addressing command frames (page, low-column or high-column command) or 16-zero data frames, 8 of the latter, 128 zero bytes in all |
| Ssd1306.ClearRowPlacesThenZeroes | src/display.rs:192-195 | one row of `clear` is exactly the frames of `set_cursor(0, row)` followed by 8 zero frames, and those `set_cursor` frames put the controller, from any pointer, at column 0 of page `row` (at column 0 of its current page when `row` is 8 or more) |
| Ssd1306.ClearRows | src/display.rs:191-196 | the traffic of the row loop from `row` to 64: only addressing command frames (page, low-column or high-column command) and 16-zero data frames, `(64-row)*128` zero bytes in `(64-row)*8` data frames; which page each row's zeros reach is not part of this contract |
| Ssd1306.HomeAddressesOrigin | src/display.rs:198 | after any earlier traffic, the final `set_cursor(0, 0)` puts the controller at (0, 0) whatever its pointer was, adds no RAM data, and sends only addressing command frames (page, low-column or high-column command) |
| Ssd1306.Clear | src/display.rs:190-199 | the traffic of `clear`: the cursor ends at (0,0); the controller ends at (0,0) from any starting pointer; every frame is an addressing command frame (page, low-column or high-column command) or a data frame of exactly 16 zero bytes, 512 of them, 8192 zero bytes in all; which page each row's zeros reach is not part of this contract |
| Ssd1306.InitWritesRoundTrip | src/display.rs:84-101 | the initialisation writes decode, two at a time, back to exactly the command list |
| Ssd1306.New | src/display.rs:77-106 | one transaction to 0x3C of 50 single-byte writes whose commands are the 25 initialisation bytes, from display-off to display-on; the result is a cursor at (0,0) exactly when the bus acknowledges, and otherwise the bus error |

## Left out

- `src/main.rs`: this is peripheral bring-up, the ADC sampling loop, serial printing and a floating-point voltage conversion. The call shapes used there for `tone`, `clear` and `set_cursor` do not match the definitions, so the functions are modelled as defined.
- The interrupt side of the buzzer is left out. `TIMER2_COMPA` is empty. `TIMER_TOGGLE_COUNT` and `TIMER_PIN_MASK` are never written. The `TIMER_PORT` raw-pointer store at `src/buzzer.rs:33` is not a timer-register write and is not in the trace.
- The toggle budget at `src/buzzer.rs:53` is never stored anywhere in the source. The model returns it in `Buzzer.ToneOutcome`.
- The hardware meaning of register fields is left out, for example what `cs2().bits(8)` selects. Register writes are opaque trace events.
- `write_cmd_buf` (`src/display.rs:157-165`) does not compile, because it uses an undefined `byte`. Commented-out code is also left out.
- The I2C `transaction` implementation and its error kinds are left out. The bus error is an opaque `BusError` code.
- `Buzzer.SearchPrescaler`: requires `ocr_base + 1` to fit in `u32`. `tone` starts the search from at most 499999, so that overflow cannot happen there and is not modelled.
- `Buzzer.ProgramAccuracy`: takes `bits` as a clock divider, as the code's arithmetic does. On the ATmega328P, `bits` is a clock-select code: 010 selects clk/8 and 100 selects clk/64, and 8 does not fit the 3-bit field. The half-period the timer produces is therefore not what this lemma states; only the code's own arithmetic is modelled.
- `Ssd1306.Write`: requires `CanWrite`, so `col += 2`, `col += 5` and `row += 1` cannot overflow `u8`. The source panics there in a checked build and wraps in a release build. Neither is modelled.
- `Ssd1306.WriteStr`: requires `CanWriteStr`, that is, no `write` in the fold overflows the cursor. The reason is the same as for `Write`.
- `Ssd1306.Addressed` interprets only the page, low-column and high-column addressing commands of page addressing mode. Data writes advancing the controller's column pointer are not modelled.
- `Ssd1306.Clear`: the contracts of `Clear` and `ClearRows` describe the traffic of `clear`: frame kinds, zero bytes and the final pointer. They do not state that each of the 8 pages is zeroed. For a single row, `ClearRowPlacesThenZeroes` states that the row's 128 zero bytes follow a placement at column 0 of page `row`. That this placement holds row by row through the whole 64-row loop, so that every page is reached, is not proved. Those 128 bytes filling the page's 128 columns would also rely on the column auto-increment, which is not modelled (see the previous line).
- A Rust `&str` is UTF-8. The model takes the decoded characters (`string`, Unicode scalar values) and does not model the decoding.

## Findings

| source | as written | input that shows it | evidently intended | confidence | as-written member | corrected member |
|---|---|---|---|---|---|---|
| src/buzzer.rs:45 | after three halvings `ocr_base` can still exceed 255, and `ocr_base as u8` silently truncates it | frequency 243: half-period 2057, 2057/8 - 1 = 256, written as compare value 0 | reject frequencies whose compare value does not fit, reporting that the frequency is too low, rather than programming a compare value unrelated to the requested one | medium, not executed | Buzzer.CompareWrapsExactlyBelow244 | Buzzer.CheckedProgram |
| src/display.rs:110-119 | `'\r'` and `'\n'` update the driver's cursor but send no addressing command | `write_str("A\nB")` from (0,0): the glyph of `B` is sent right after that of `A`, with no page command, so it lands on page 0 next to `A` | place the controller at column 0 of the current (`'\r'`) or next (`'\n'`) page, as `set_cursor` would | high, not executed | Ssd1306.LineBreakNotSentToController | Ssd1306.WriteSynced |

The `write_str` model folds the as-written `Write`, because that is what
`src/display.rs:139-145` calls. `WriteSynced` is the corrected single-character
step.
