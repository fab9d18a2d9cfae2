/**
 * The byte values the LKM1638 driver sends and the values it decodes: command
 * bytes, display-cell addresses, digit glyphs, the right-justified layout of a
 * number over the 8 digit positions, and the order of the 8 buttons.
 *
 * Python's `|` is used in the source only on operands whose set bits do not
 * overlap (`0xC0 | addr` with `addr < 16`, `0x80 | active << 3 | intensity`
 * with `intensity < 8`, a glyph below 0x80 with `dot << 7`); there it is `+`.
 */
module Encoding {
  import opened Wrappers
  import opened Bits

  /** Seven-segment glyphs of the hex digits 0..F; bit 7 is left for the dot. */
  const NUMBER_FONT: seq<nat> := [0x3f, 0x06, 0x5b, 0x4f,
                                  0x66, 0x6d, 0x7d, 0x07,
                                  0x7f, 0x6f, 0x77, 0x7c,
                                  0x39, 0x5e, 0x79, 0x71]

  /** LED colour codes. */
  const LED_NONE: nat := 0
  const LED_GREEN: nat := 1
  const LED_RED: nat := 2

  /** Data command (section 7.1): write display data, automatic address increment. */
  const DATA_WRITE_AUTO: nat := 0x40
  /** Data command (section 7.1): write display data, fixed address. */
  const DATA_WRITE_FIXED: nat := 0x44
  /** Data command (section 7.1): read key-scan data. */
  const READ_KEYS: nat := 0x42

  /** Address command (section 7.2): `0xC0 | addr`, the top two bits `11`, the address in the low four. */
  function AddressCommand(addr: nat): (cmd: nat)
    requires addr < 16
    ensures cmd < 256 && cmd / 64 == 3 && cmd % 16 == addr
  {
    0xC0 + addr
  }

  /**
   * Display control (section 7.3): `0x80 | active << 3 | intensity`.  The
   * byte is `1000 aiii`: it lies in 0x80..0x8F and its fields give back the
   * arguments.
   */
  function DisplayControl(active: bool, intensity: nat): (cmd: nat)
    requires intensity < 8
    ensures 0x80 <= cmd <= 0x8F
    ensures cmd / 64 == 2 && ((cmd / 8) % 2 == 1) == active && cmd % 8 == intensity
  {
    0x80 + (if active then 8 else 0) + intensity
  }

  /** RAM cell of the digit at position `pos` (0 is leftmost): `pos << 1`. */
  function DigitAddr(pos: nat): (addr: nat)
    requires pos < 8
    ensures addr < 16 && addr % 2 == 0 && addr / 2 == pos
  {
    2 * pos
  }

  /** RAM cell of the LED at position `pos`: `(pos << 1) + 1`. */
  function LedAddr(pos: nat): (addr: nat)
    requires pos < 8
    ensures addr < 16 && addr % 2 == 1 && addr / 2 == pos
  {
    2 * pos + 1
  }

  /**
   * The cell written by `set_digit`: the digit's glyph, or nothing for `None`,
   * with bit 7 set exactly when the dot is on.
   */
  function DigitCell(digit: Option<nat>, dot: bool): (cell: nat)
    requires digit.Some? ==> digit.value < 16
    ensures cell < 256
    ensures cell / 0x80 == (if dot then 1 else 0)
    ensures cell % 0x80 == if digit.Some? then NUMBER_FONT[digit.value] else 0
  {
    (if digit.Some? then NUMBER_FONT[digit.value] else 0) + (if dot then 0x80 else 0)
  }

  /** Different digit/dot choices light different segments, so a cell tells which was written. */
  lemma DigitCellInjective(d1: Option<nat>, dot1: bool, d2: Option<nat>, dot2: bool)
    requires d1.Some? ==> d1.value < 16
    requires d2.Some? ==> d2.value < 16
    requires DigitCell(d1, dot1) == DigitCell(d2, dot2)
    ensures d1 == d2 && dot1 == dot2
  {
    var c := DigitCell(d1, dot1);
    assert dot1 == dot2 by { assert c / 0x80 == (if dot1 then 1 else 0) == (if dot2 then 1 else 0); }
    FontDistinct();
    assert c % 0x80 == (if d1.Some? then NUMBER_FONT[d1.value] else 0) == (if d2.Some? then NUMBER_FONT[d2.value] else 0);
  }

  /** Every font entry lights some segment but not the dot, and no two entries are alike. */
  lemma FontDistinct()
    ensures forall i | 0 <= i < 16 :: 0 < NUMBER_FONT[i] < 0x80
    ensures forall i, j | 0 <= i < j < 16 :: NUMBER_FONT[i] != NUMBER_FONT[j]
  {
  }

  /** The digits of `n` in base `base`, least significant first, as the `while number:` loop appends them. */
  function Digits(n: nat, base: nat): (ds: seq<nat>)
    requires base >= 2
    ensures forall i | 0 <= i < |ds| :: ds[i] < base
    ensures n > 0 <==> ds != []
    ensures ds != [] ==> ds[|ds| - 1] != 0
    decreases n
  {
    if n == 0 then [] else [n % base] + Digits(n / base, base)
  }

  /** One pass of the `while number:` loop: the next digit is `n % base` and the rest are the digits of `n / base`. */
  lemma DigitsStep(n: nat, base: nat)
    requires n > 0 && base >= 2
    ensures 0 <= n % base < base && n / base < n
    ensures Digits(n, base) == [n % base] + Digits(n / base, base)
  {
    ModBound(n, base);
    DivShrinks(n, base);
  }

  /** A number below `base^m` has at most `m` digits. */
  lemma {:induction false} DigitsFit(n: nat, base: nat, m: nat)
    requires base >= 2 && n < Pow(base, m)
    ensures |Digits(n, base)| <= m
    decreases n
  {
    if n > 0 {
      var p := Pow(base, m - 1);
      DivShrinks(n, base);
      DivBelow(n, base, p);
      DigitsFit(n / base, base, m - 1);
    }
  }

  /** Digits least significant first, turned into cells most significant first. */
  function MsbFirst(ds: seq<nat>): (cells: seq<Option<nat>>)
    ensures |cells| == |ds|
  {
    if ds == [] then [] else MsbFirst(ds[1..]) + [Some(ds[0])]
  }

  lemma {:induction false} MsbFirstAt(ds: seq<nat>, p: nat)
    requires p < |ds|
    ensures MsbFirst(ds)[p] == Some(ds[|ds| - 1 - p])
  {
    if p < |ds| - 1 {
      MsbFirstAt(ds[1..], p);
    }
  }

  lemma MsbFirstBelow(ds: seq<nat>, base: nat)
    requires forall i | 0 <= i < |ds| :: ds[i] < base
    ensures forall p | 0 <= p < |ds| :: MsbFirst(ds)[p].Some? && MsbFirst(ds)[p].value < base
  {
    forall p | 0 <= p < |ds|
      ensures MsbFirst(ds)[p].Some? && MsbFirst(ds)[p].value < base
    {
      MsbFirstAt(ds, p);
    }
  }

  /** `n` blank cells. */
  function Blanks(n: nat): (cells: seq<Option<nat>>)
    ensures |cells| == n && forall i | 0 <= i < n :: cells[i] == None
  {
    seq(n, _ => None)
  }

  /** Every digit is a hex digit. */
  predicate HexDigits(ds: seq<nat>)
  {
    forall i | 0 <= i < |ds| :: ds[i] < 16
  }

  /** Every non-blank cell holds a hex digit. */
  predicate HexCells(cells: seq<Option<nat>>)
  {
    forall i | 0 <= i < |cells| :: cells[i].Some? ==> cells[i].value < 16
  }

  /**
   * The 8 digit cells for at most 8 digits `ds`, least significant first:
   * blanks on the left, then the digits most significant first.
   */
  function Layout(ds: seq<nat>): (cells: seq<Option<nat>>)
    requires |ds| <= 8
    ensures |cells| == 8
    ensures HexDigits(ds) ==> HexCells(cells)
  {
    var cells := Blanks(8 - |ds|) + MsbFirst(ds);
    assert HexDigits(ds) ==> HexCells(cells) by {
      if HexDigits(ds) {
        MsbFirstBelow(ds, 16);
      }
    }
    cells
  }

  /** Position `p` of the layout is blank left of the digits and holds digit `7 - p` otherwise. */
  lemma LayoutAt(ds: seq<nat>, p: nat)
    requires |ds| <= 8 && p < 8
    ensures Layout(ds)[p] == if p < 8 - |ds| then None else Some(ds[7 - p])
  {
    if p >= 8 - |ds| {
      MsbFirstAt(ds, p - (8 - |ds|));
    }
  }

  /** Every digit the layout shows is one of `ds`, so a bound on `ds` bounds the cells. */
  lemma LayoutBelow(ds: seq<nat>, base: nat)
    requires |ds| <= 8 && forall i | 0 <= i < |ds| :: ds[i] < base
    ensures forall p | 0 <= p < 8 && Layout(ds)[p].Some? :: Layout(ds)[p].value < base
  {
    forall p | 0 <= p < 8 && Layout(ds)[p].Some?
      ensures Layout(ds)[p].value < base
    {
      LayoutAt(ds, p);
    }
  }

  /**
   * The 8 cells `print_number` writes: `8 - k` blanks followed by the `k`
   * digits of `number`, most significant first.
   */
  function Justify(number: nat, base: nat): (cells: seq<Option<nat>>)
    requires base >= 2 && number < Pow(base, 8)
    ensures |cells| == 8
    ensures forall p | 0 <= p < 8 && cells[p].Some? :: cells[p].value < base
  {
    DigitsFit(number, base, 8);
    LayoutBelow(Digits(number, base), base);
    Layout(Digits(number, base))
  }

  /** The number that cells show when read in base `base`, a blank reading as 0. */
  function Shown(cells: seq<Option<nat>>, base: nat): nat
  {
    if cells == [] then 0
    else
      var last := cells[|cells| - 1];
      Shown(cells[..|cells| - 1], base) * base + (if last.Some? then last.value else 0)
  }

  lemma {:induction false} ShownDigits(n: nat, base: nat)
    requires base >= 2
    ensures Shown(MsbFirst(Digits(n, base)), base) == n
    decreases n
  {
    if n > 0 {
      var q, r := n / base, n % base;
      DivShrinks(n, base);
      var ds := Digits(n, base);
      assert ds[1..] == Digits(q, base);
      var front := MsbFirst(Digits(q, base));
      assert MsbFirst(ds) == front + [Some(r)];
      ShownSnoc(front, r, base);
      ShownDigits(q, base);
      DivMod(n, base);
    }
  }

  lemma ShownSnoc(cells: seq<Option<nat>>, d: nat, base: nat)
    ensures Shown(cells + [Some(d)], base) == Shown(cells, base) * base + d
  {
    assert (cells + [Some(d)])[..|cells|] == cells;
  }

  lemma {:induction false} ShownBlanks(m: nat, cells: seq<Option<nat>>, base: nat)
    ensures Shown(Blanks(m) + cells, base) == Shown(cells, base)
  {
    if cells == [] {
      assert Blanks(m) + cells == Blanks(m);
      if m > 0 {
        assert Blanks(m)[..m - 1] == Blanks(m - 1);
        ShownBlanks(m - 1, [], base);
        assert Blanks(m - 1) + [] == Blanks(m - 1);
      }
    } else {
      var init := cells[..|cells| - 1];
      assert (Blanks(m) + cells)[..|Blanks(m) + cells| - 1] == Blanks(m) + init;
      ShownBlanks(m, init, base);
    }
  }

  /**
   * `print_number` layout: with `k` the number of base-`base` digits of
   * `number`, positions `0 .. 7-k` are blank and position `p >= 8-k` holds
   * digit `7-p` (counting from the least significant), a digit below `base`.
   */
  lemma JustifyLayout(number: nat, base: nat)
    requires base >= 2 && number < Pow(base, 8)
    ensures var ds := Digits(number, base);
      |ds| <= 8
      && (forall p | 0 <= p < 8 :: Justify(number, base)[p].None? <==> p < 8 - |ds|)
      && (forall p | 8 - |ds| <= p < 8 :: Justify(number, base)[p] == Some(ds[7 - p]))
      && (forall p | 0 <= p < 8 && Justify(number, base)[p].Some? :: Justify(number, base)[p].value < base)
  {
    DigitsFit(number, base, 8);
    forall p | 0 <= p < 8 {
      LayoutAt(Digits(number, base), p);
    }
  }

  /** Reading the 8 cells back in base `base` gives `number`. */
  lemma JustifyReadBack(number: nat, base: nat)
    requires base >= 2 && number < Pow(base, 8)
    ensures Shown(Justify(number, base), base) == number
  {
    var ds := Digits(number, base);
    DigitsFit(number, base, 8);
    ShownBlanks(8 - |ds|, MsbFirst(ds), base);
    ShownDigits(number, base);
  }

  /** No leading zero: the leftmost non-blank cell of a positive number is not 0. */
  lemma JustifyLeadingDigit(number: nat, base: nat)
    requires base >= 2 && 0 < number < Pow(base, 8)
    ensures var k := |Digits(number, base)|;
      1 <= k <= 8 && Justify(number, base)[8 - k].Some? && Justify(number, base)[8 - k].value != 0
  {
    JustifyLayout(number, base);
  }

  /** Zero has no digits in this decomposition, so it shows as 8 blank cells. */
  lemma JustifyZero(base: nat)
    requires base >= 2
    ensures Justify(0, base) == Blanks(8)
  {
    assert MsbFirst(Digits(0, base)) == [];
  }

  /**
   * `get_buttons`'s result from the 4 key-scan bytes: bit 0 of each byte in
   * scan order, then bit 4 of each byte in scan order (`key_low + key_high`).
   */
  function Buttons(keys: seq<nat>): (pressed: seq<bool>)
    requires |keys| == 4
    ensures |pressed| == 8
    ensures forall i | 0 <= i < 4 :: pressed[i] == Bit(keys[i], 0) && pressed[i + 4] == Bit(keys[i], 4)
  {
    LowKeys(keys) + HighKeys(keys)
  }

  /** `key_low`: `bool(key_data & 0x01)` for each received byte, in order. */
  function LowKeys(keys: seq<nat>): (low: seq<bool>)
    ensures |low| == |keys| && forall i | 0 <= i < |keys| :: low[i] == Bit(keys[i], 0)
  {
    if keys == [] then [] else LowKeys(keys[..|keys| - 1]) + [keys[|keys| - 1] % 2 == 1]
  }

  /** `key_high`: `bool(key_data & 0x10)` for each received byte, in order. */
  function HighKeys(keys: seq<nat>): (high: seq<bool>)
    ensures |high| == |keys| && forall i | 0 <= i < |keys| :: high[i] == Bit(keys[i], 4)
  {
    if keys == [] then []
    else
      BitFour(keys[|keys| - 1]);
      HighKeys(keys[..|keys| - 1]) + [(keys[|keys| - 1] / 16) % 2 == 1]
  }

  /** One more received byte extends both key lists. */
  lemma KeysSnoc(keys: seq<nat>, k: nat)
    ensures LowKeys(keys + [k]) == LowKeys(keys) + [k % 2 == 1]
    ensures HighKeys(keys + [k]) == HighKeys(keys) + [(k / 16) % 2 == 1]
  {
    assert (keys + [k])[..|keys|] == keys;
  }

  /** `bool(v & 0x10)`. */
  lemma BitFour(v: nat)
    ensures Bit(v, 4) == ((v / 16) % 2 == 1)
  {
    assert Bit(v, 4) == Bit(v / 2, 3) == Bit(v / 2 / 2, 2) == Bit(v / 2 / 2 / 2, 1) == Bit(v / 2 / 2 / 2 / 2, 0);
    assert v / 2 / 2 / 2 / 2 == v / 16;
  }

  /** The 4 bytes assembled from 32 samples of the data line, 8 per byte. */
  function KeyBytes(samples: seq<bool>): (keys: seq<nat>)
    requires |samples| == 32
    ensures |keys| == 4
  {
    seq(4, j requires 0 <= j < 4 => LsbValue(samples[8 * j .. 8 * j + 8]))
  }

  /**
   * Which sample decides which button: button `i < 4` is the first sample of
   * byte `i`, button `i + 4` the fifth sample of byte `i`.
   */
  lemma ButtonsFromSamples(samples: seq<bool>)
    requires |samples| == 32
    ensures forall i | 0 <= i < 4 ::
      Buttons(KeyBytes(samples))[i] == samples[8 * i]
      && Buttons(KeyBytes(samples))[i + 4] == samples[8 * i + 4]
  {
    forall i | 0 <= i < 4
      ensures Buttons(KeyBytes(samples))[i] == samples[8 * i]
      ensures Buttons(KeyBytes(samples))[i + 4] == samples[8 * i + 4]
    {
      var bits := samples[8 * i .. 8 * i + 8];
      BitOfLsbValue(bits, 0);
      BitOfLsbValue(bits, 4);
    }
  }
}
