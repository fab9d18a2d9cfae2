# LKM1638 board driver, modelled in Dafny

The LKM1638 driver is a MicroPython class. It drives a JY-LKM1638 board, which
has 8 seven-segment digits, 8 two-colour LEDs and 8 buttons behind a TM1638
controller. It talks to the chip over three pins:

- a strobe (STB);
- a clock (CLK);
- a bidirectional data line (DIO).

Its operations are:

- `__init__`/`_init`: configure the pins and clear the display.
- `setup`: display on/off and brightness.
- `set_digit`: one digit glyph with optional dot.
- `print_number`: a number right-justified in any base up to 16.
- `set_led`: one LED colour.
- `get_buttons`: read the 8 buttons.

The transport primitives `_send_byte`, `_send_cmd`, `_send_ram_data` and
`_recv_byte` build all of these.

## How the model works

**Pins.** Every pin call becomes an event in the driver object's `log`: a
level driven, a mode selected, or a level sampled (module `Bus`). Reading the
data line returns the next element of a stream `levels` given to the
constructor; the counter `sampled` says how many were used.

**Methods.** Class `Driver.LKM1638` has one method per Python method, with
the same loops (`for _ in range(8)`, the `while number:` digit loop, the two
`for pos` loops, the four-byte receive loop). Each method is proved to append
exactly the event sequence that module `Protocol` defines for it.

**Meaning of the events.** A reference model of the TM1638 serial interface
(module `TM1638`) replays the log. It follows sections 7.1 (data command),
7.2 (address command) and 7.3 (display control) of the TM1638 datasheet,
which the source cites.

**Contracts.** Starting from the unknown chip state at construction
(`powerOn`), the replay gives:

- `Ram()`: the 16 display cells;
- `Control()`: display on and brightness.

The method contracts say which cells each operation changes, to what, and
that nothing else changes. They also say that the bus is idle again after
every operation: strobe and clock high, data pin open-drain.

Module `Encoding` holds the byte-level facts:

- the command bytes and cell addresses;
- the font;
- the right-justified layout of a number: it reads back to the number and has
  no leading zero;
- which received bit is which button.

Module `Bits` proves the least-significant-bit-first conversions used by
`_send_byte` and `_recv_byte`. They are inverse to each other.

**Differences from a plain reading of the source.**

- The display state (on/off, brightness) is not a field of the driver. The
  source keeps no such field; the model reads it from the chip model
  (`Control()`).
- Python's `|` appears only on operands whose bits do not overlap, so the
  model writes it as `+`:
  - `0xC0 | addr`;
  - `0x80 | active << 3 | intensity`;
  - `NUMBER_FONT[d] | dot << 7`.
- `print_number` shows 0 as eight blank cells (`JustifyZero`). The digit loop
  produces no digit for 0, and the code does exactly that.

## Model

| member | source | states |
|---|---|---|
| Driver.LKM1638.constructor | LKM1638.py:73-77 | After construction the log is exactly `_init`'s events; the bus is idle; all 16 cells are 0; the display is on at intensity 7. |
| Driver.LKM1638.SendByte | LKM1638.py:79-85 | Appends 8 clock periods carrying the low 8 bits of `bdata`, least significant first (`ByteEvs`). |
| Driver.LKM1638.SendCmd | LKM1638.py:87-91 | Appends one strobe-low/strobe-high bracket around the byte. |
| Driver.LKM1638.SendRamData | LKM1638.py:93-101 | Cell `addr` now holds `data mod 256`. Every other cell and the display control are unchanged, and the bus is idle again. |
| Driver.LKM1638.Init | LKM1638.py:103-124 | From any earlier bus state: all 16 cells are 0, the display is on at intensity 7, and the bus is idle. |
| Driver.LKM1638.Setup | LKM1638.py:126-135 | The display control becomes `(active, intensity)`; no cell changes; the bus is idle. |
| Driver.LKM1638.SetDigit | LKM1638.py:137-146 | Only cell `2*pos` changes; it now holds the glyph of `digit` (or nothing), with bit 7 set exactly when `dot`. |
| Driver.LKM1638.PrintNumber | LKM1638.py:148-161 | Digit position `p` shows cell `p` of `Justify(number, base)`. The LED cells and the display control are unchanged. |
| Driver.LKM1638.CollectDigits | LKM1638.py:153-156 | Returns the base-`base` digits of `number`, least significant first (`Digits`). |
| Driver.LKM1638.ClearLeft | LKM1638.py:157-159 | Appends `set_digit(p, None)` for each position left of the number, in order. |
| Driver.LKM1638.PlaceDigits | LKM1638.py:160-161 | Popping the digits into the remaining positions completes the 8 `set_digit` calls of the layout. |
| Driver.LKM1638.PopDigit | LKM1638.py:160-161 | One pass: the popped digit goes to position `pos`, the list keeps the digits for the positions to its right, and the calls so far are those of the layout up to `pos + 1`. |
| Driver.LKM1638.RecvByte | LKM1638.py:163-178 | Uses 8 samples. The result is below 256, and its bit `i` is sample `i`. The samples are bracketed by input mode and open-drain mode. |
| Driver.LKM1638.RecvKeys | LKM1638.py:191-196 | `key_low + key_high` is bit 0 and then bit 4 of each of the 4 received bytes. |
| Driver.LKM1638.GetButtons | LKM1638.py:180-200 | Button `i < 4` is the first sample of byte `i`; button `i + 4` is the fifth. No cell and not the display control changes; the bus is idle. |
| Driver.LKM1638.SetLed | LKM1638.py:202-207 | Only cell `2*pos + 1` changes; it now holds `colour mod 256`. |
| Driver.SendBitStep | LKM1638.py:81-85 | One pass of `_send_byte`'s loop sends the next bit of the byte and shifts it out of `bdata`. |
| Driver.PopLast | LKM1638.py:160-161 | `digits.pop()` at position `pos` yields digit `7 - pos` and leaves the digits for the positions to its right. |
| Driver.KeyByteAt | LKM1638.py:193-194 | The `b`-th `_recv_byte` call assembles byte `b` of the 32 samples. |
| Driver.RecvsLog | LKM1638.py:193-194 | Each pass of the receive loop extends the log by one more `_recv_byte`. |
| Encoding.AddressCommand | LKM1638.py:98-99 | `0xC0 or addr` is a byte whose top bits select the address command and whose low nibble is `addr`. |
| Encoding.DisplayControl | LKM1638.py:128-129 | The command byte lies in 0x80..0x8F, and its fields give back `active` and `intensity`. |
| Encoding.DigitAddr | LKM1638.py:144 | Digit `pos` uses the even cell `2*pos`. |
| Encoding.LedAddr | LKM1638.py:207 | LED `pos` uses the odd cell `2*pos + 1`. |
| Encoding.DigitCell | LKM1638.py:143-146 | The cell is a byte: bit 7 is the dot, and the low 7 bits are the glyph (0 for a blank). |
| Encoding.DigitCellInjective | LKM1638.py:65-68 | Distinct digit/dot pairs give distinct cells. |
| Encoding.FontDistinct | LKM1638.py:65-68 | The 16 glyphs are non-zero, leave the dot segment dark and are pairwise different. |
| Encoding.Digits | LKM1638.py:153-156 | Every digit is below `base`; there are digits exactly when the number is positive; the most significant digit is not 0. |
| Encoding.DigitsStep | LKM1638.py:154-156 | One pass of the `while` loop: the next digit is `n % base`, and `n // base` is smaller and holds the rest. |
| Encoding.DigitsFit | LKM1638.py:153-156 | A number below `base^m` has at most `m` digits. |
| Encoding.ShownDigits | LKM1638.py:153-156 | Reading the digits back most significant first gives the number (round trip). |
| Encoding.Layout | LKM1638.py:157-161 | The two `for` loops produce 8 cells, and hex digits give hex cells. |
| Encoding.LayoutAt | LKM1638.py:157-161 | Positions left of the digits are blank; position `p` otherwise holds digit `7 - p`. |
| Encoding.LayoutBelow | LKM1638.py:157-161 | Every cell of the layout is one of the digits, so it is below their bound. |
| Encoding.Justify | LKM1638.py:148-161 | The 8 cells `print_number` writes; every shown digit is below `base`. |
| Encoding.JustifyLayout | LKM1638.py:148-161 | With `k` digits: positions below `8-k` are blank, and position `p >= 8-k` holds digit `7-p`. |
| Encoding.JustifyReadBack | LKM1638.py:148-161 | The 8 cells read in base `base`, a blank counting as 0, give back `number`. |
| Encoding.JustifyLeadingDigit | LKM1638.py:148-161 | For a positive number, the leftmost non-blank cell is not 0. |
| Encoding.JustifyZero | LKM1638.py:153-159 | 0 shows as 8 blank cells. |
| Encoding.Buttons | LKM1638.py:191-200 | Buttons 0..3 are bit 0 of bytes 0..3; buttons 4..7 are bit 4 of the same bytes. |
| Encoding.LowKeys | LKM1638.py:195 | `key_low[i]` is bit 0 of byte `i`. |
| Encoding.HighKeys | LKM1638.py:196 | `key_high[i]` is bit 4 of byte `i`. |
| Encoding.KeysSnoc | LKM1638.py:193-196 | One more received byte appends one entry to each list. |
| Encoding.BitFour | LKM1638.py:196 | `key_data & 0x10` tests bit 4. |
| Encoding.ButtonsFromSamples | LKM1638.py:163-200 | Button `i < 4` is sample `8i` and button `i + 4` is sample `8i + 4` of the scan. |
| Bits.BitsOfAt | LKM1638.py:81-85 | Bit `i` sent is bit `i` of the value. |
| Bits.LsbValueOfBits | LKM1638.py:79-85 | Reassembling the `n` bits sent gives the value modulo `2^n`. |
| Bits.BitsOfLsbValue | LKM1638.py:163-178 | The bits of an assembled value are the samples (the other round trip). |
| Bits.ByteRoundTrip | LKM1638.py:79-85 | For a byte, sending and reassembling gives the value back. |
| Bits.BitOfLsbValue | LKM1638.py:169-174 | Bit `i` of the assembled value is sample `i`. |
| Bits.LsbValueBound | LKM1638.py:167-178 | A value assembled from `k` bits is below `2^k`. |
| Bits.ShiftIn | LKM1638.py:170-173 | `temp >>= 1` leaves bit 7 clear, so setting bit 7 with `0x80` adds 0x80. |
| Bits.ShiftRegValue | LKM1638.py:169-174 | After `i` samples the register holds them in its top `i` bits. |
| Bits.ShiftRegByte | LKM1638.py:167-178 | After 8 samples the register is the byte whose bit `i` is sample `i`. |
| Bus.BitEvsAt | LKM1638.py:81-85 | Event `k` of clock period `i` carries bit `i`. |
| Bus.ByteEvsShape | LKM1638.py:79-85 | 8 clock periods of 3 events; period `i` drives bit `i` of `v`; the strobe is never touched. |
| Bus.SampleEvsAt | LKM1638.py:169-174 | Event `k` of clock period `i` samples level `i`. |
| Bus.RecvEvsShape | LKM1638.py:163-178 | Input mode comes first and open-drain last; one sample per clock period; the strobe is never touched. |
| Bus.DataBitsOfBitEvs | LKM1638.py:81-85 | The levels driven on DIO are exactly the bits sent, in order. |
| Bus.SendThenAssemble | LKM1638.py:79-85 | Assembling `_send_byte(v)`'s data levels the way `_recv_byte` assembles samples gives `v mod 256`. |
| Bus.BytesEvsLast | LKM1638.py:79-85 | After a byte the clock is high and the data pin's mode is unchanged. |
| TM1638.RunByte | LKM1638.py:79-85 | The chip receives exactly `v mod 256` from `_send_byte(v)`. |
| TM1638.RunFrame | LKM1638.py:87-91 | A strobe bracket delivers its bytes as one transaction and leaves strobe and clock high. |
| TM1638.RunQuiet | LKM1638.py:191-196 | Receiving bytes does not change the chip's registers while it is sending key data. |
| TM1638.ReceiveBurst | LKM1638.py:116-122 | After an address command in auto-increment mode, consecutive bytes land in consecutive cells. |
| Protocol.CommandFrame | LKM1638.py:87-91 | `_send_cmd(cmd)` makes the chip act on `cmd` as a command. |
| Protocol.DataCommandFrame | LKM1638.py:95-96 | A data-write command selects fixed addressing exactly when its bit 2 is set, and changes nothing else. |
| Protocol.CellFrame | LKM1638.py:97-101 | In fixed mode, the address command and one data byte write exactly that cell. |
| Protocol.RamDataEffect | LKM1638.py:93-101 | `_send_ram_data` writes cell `addr` and leaves every other cell and the display control alone. |
| Protocol.RamDataSettles | LKM1638.py:93-101 | `_send_ram_data` ends with strobe and clock high and selects no data-pin mode. |
| Protocol.SetupEffect | LKM1638.py:126-135 | `setup` sets the display control and leaves the cells alone. |
| Protocol.PulseEffect | LKM1638.py:131-135 | The empty strobe bracket after the control command changes no register. |
| Protocol.SetupSettles | LKM1638.py:126-135 | `setup` ends with strobe and clock high. |
| Protocol.PinSetupEffect | LKM1638.py:106-111 | The pin set-up leaves the chip idle with an empty shift register. |
| Protocol.ClearFrame | LKM1638.py:116-124 | Address 0 followed by 16 zeros in auto-increment mode clears all 16 cells. |
| Protocol.InitEffect | LKM1638.py:103-124 | `_init` from any chip state: all cells 0, display on, intensity 7. |
| Protocol.InitAtRest | LKM1638.py:103-124 | `_init` leaves the bus idle whatever state it found. |
| Protocol.InitFrom | LKM1638.py:103-124 | Re-initialising after any history gives a blank display at intensity 7 and an idle bus. |
| Protocol.InitDone | LKM1638.py:103-124 | `_init`'s pieces, in order, make up its event sequence and its effect. |
| Protocol.InitPrefixAtRest | LKM1638.py:106-113 | The bus is already idle before `_init` calls `setup`. |
| Protocol.OpenDataCommand | LKM1638.py:187-189 | The read-keys command stops the chip from taking data while the bracket stays open. |
| Protocol.RecvsEvsShape | LKM1638.py:193-196 | The receive loop never touches the strobe and ends with the clock high and DIO open-drain. |
| Protocol.ScanSettles | LKM1638.py:187-198 | `get_buttons` ends with strobe and clock high and DIO open-drain. |
| Protocol.ScanEffect | LKM1638.py:180-200 | `get_buttons` changes no cell and not the display control. |
| Protocol.PaintedAt | LKM1638.py:157-161 | After the `set_digit` calls, painted digit cells hold their glyphs; LED cells and unpainted digits keep their contents. |
| Protocol.CellsEffect | LKM1638.py:157-161 | `set_digit` for each position in turn paints the digit cells and nothing else. |
| Protocol.CellsStep | LKM1638.py:157-161 | One more `set_digit` call extends the painted prefix by one position. |
| Protocol.LayoutEvsStep | LKM1638.py:157-161 | Each loop pass appends the `set_digit` call for the next position of the layout. |
| Protocol.LayoutEvsAll | LKM1638.py:157-161 | After all 8 positions the calls are exactly the `set_digit` calls for the 8 cells of the layout. |
| Protocol.DataCommands | LKM1638.py:95-113 | 0x40 and 0x44 are data commands and only 0x44 selects fixed addressing; the read-keys command 0x42 is a data command too. |

## Left out

- Timing, voltage levels, the level shifter and pull resistors are not
  modelled. The pin mode and pull arguments appear only as the modes `Out`,
  `OpenDrain` and `In`.
- The chip's key-scan output is not modelled. The levels the data line shows
  while being read come from the stream `levels` passed to the constructor.
- The pin objects themselves, and `machine.Pin`, are not part of this model.
  A pin call is an event in the log.
- Driver.LKM1638.SetDigit: requires `pos < 8` and `digit < 16`. With a
  larger `pos`, Python sends an address outside the 16 cells; with a larger
  digit, the font lookup raises an exception.
- Driver.LKM1638.SetLed: requires `pos < 8`, for the same reason.
- Driver.LKM1638.Setup: requires `intensity < 8`. A larger value would set
  other bits of the command byte.
- Driver.LKM1638.PrintNumber: requires `2 <= base <= 16` and
  `number < base^8`. Python loops forever for base 1, divides by zero for
  base 0, and runs out of font or positions otherwise. Negative numbers are
  not modelled (`number` is a `nat`); the source documents a positive number.
- Driver.LKM1638.PrintNumber: the per-position effect is stated through
  `Painted` and proved in Protocol.PaintedAt rather than repeated in the
  method's own `ensures`.
- The `print_number` loops are separate methods: CollectDigits, ClearLeft
  and PlaceDigits.
- The receive loop of `get_buttons` is a separate method, RecvKeys.
- Python's `|` is written as `+`, which agrees only because the operands do
  not overlap. Out-of-range arguments are excluded by the `requires` clauses
  above.
- The display state (`active`, `intensity`) is not a driver field. The
  source has no such field; it is observed through the chip model's
  `Control()`.
