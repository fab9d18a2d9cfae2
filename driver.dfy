/**
 * The LKM1638 driver object.
 *
 * The Python class holds three pin objects and drives them directly.  Here
 * the pins are the bus log `log`: every pin call of every method appends its
 * event, and each method is proved to append exactly the sequence given in
 * module Protocol.  Reading the data pin returns the next level of the
 * environment's stream `levels`; `sampled` counts the levels consumed.
 *
 * The board's state is not stored by the driver.  For the proofs it is the
 * TM1638 model fed with the whole log, starting from `powerOn`, the unknown
 * chip state at construction: `Ram()` and `Control()` are what the board
 * shows.
 */
module Driver {
  import opened Wrappers
  import opened Bits
  import opened Bus
  import opened TM1638
  import opened Encoding
  import opened Protocol

  /** The `n` data-line levels from position `start` of the stream on. */
  function Window(levels: nat -> bool, start: nat, n: nat): (w: seq<bool>)
    ensures |w| == n && forall i | 0 <= i < n :: w[i] == levels(start + i)
  {
    seq(n, i requires 0 <= i < n => levels(start + i))
  }

  /** A slice of a window is the window starting at the slice's start. */
  lemma WindowSlice(levels: nat -> bool, start: nat, n: nat, lo: nat, hi: nat)
    requires lo <= hi <= n
    ensures Window(levels, start, n)[lo..hi] == Window(levels, start + lo, hi - lo)
  {
    var w, u := Window(levels, start, n), Window(levels, start + lo, hi - lo);
    forall i | 0 <= i < hi - lo
      ensures w[lo..hi][i] == u[i]
    {
      assert w[lo + i] == levels(start + (lo + i));
    }
  }

  /** The events of `get_buttons`'s receive loop, one `_recv_byte` call more, the call starting at sample `at`. */
  lemma RecvsLog(log: seq<Ev>, levels: nat -> bool, start: nat, b: nat, at: nat)
    requires b < 4 && at == start + 8 * b
    ensures log + RecvsEvs(Window(levels, start, 32), b) + RecvEvs(Window(levels, at, 8))
         == log + RecvsEvs(Window(levels, start, 32), b + 1)
  {
    WindowSlice(levels, start, 32, 8 * b, 8 * b + 8);
  }

  /** Byte `j` of 32 samples from `start` on is the one assembled from the window at `at`, that is `start + 8 * j`. */
  lemma KeyByteAt(levels: nat -> bool, start: nat, j: nat, at: nat)
    requires j < 4 && at == start + 8 * j
    ensures KeyBytes(Window(levels, start, 32))[j] == LsbValue(Window(levels, at, 8))
  {
    WindowSlice(levels, start, 32, 8 * j, 8 * j + 8);
  }

  /** Appending one digit to the collected ones and dropping it from the rest keeps their concatenation. */
  lemma Regroup(digits: seq<nat>, d: nat, rest: seq<nat>)
    ensures (digits + [d]) + rest == digits + ([d] + rest)
  {
  }

  /** One pass of `_send_byte`'s loop sends the next bit of `bits` and shifts it out of `b`. */
  lemma SendBitStep(log0: seq<Ev>, log1: seq<Ev>, log2: seq<Ev>, bits: seq<bool>, b: nat, i: nat)
    requires i < 8 && |bits| == 8 && log1 == log0 + BitEvs(bits[..i]) && bits[i..] == BitsOf(b, 8 - i)
    requires log2 == log1 + [Write(Clk, false)] + [Write(Dio, b % 2 == 1)] + [Write(Clk, true)]
    ensures log2 == log0 + BitEvs(bits[..i + 1]) && bits[i + 1..] == BitsOf(b / 2, 8 - (i + 1))
  {
    assert bits[i] == (b % 2 == 1) by { assert bits[i] == bits[i..][0]; }
    assert bits[..i + 1][..i] == bits[..i];
    assert bits[i + 1..] == bits[i..][1..];
  }

  /** `digits.pop()` at position `pos`: the digit for that position comes off the remaining `stack`. */
  lemma PopLast(digits: seq<nat>, stack: seq<nat>, pos: nat)
    requires |digits| <= 8 && 8 - |digits| <= pos < 8 && stack == digits[..8 - pos]
    ensures |stack| == 8 - pos && stack[|stack| - 1] == digits[7 - pos]
    ensures stack[..|stack| - 1] == digits[..8 - (pos + 1)]
  {
  }

  class LKM1638 {
    /** Every pin event so far, oldest first. */
    var log: seq<Ev>
    /** How many data-line levels have been read. */
    var sampled: nat
    /** The levels the data line shows when read, in order. */
    const levels: nat -> bool
    /** The chip's state before the constructor ran. */
    ghost const powerOn: Chip

    /** Between calls the bus is idle and the chip has its 16 RAM cells. */
    ghost predicate Valid()
      reads this
    {
      AtRest(log) && |powerOn.regs.ram| == 16
    }

    /** The chip after every event so far. */
    ghost function Device(): Chip
      reads this
    {
      Run(powerOn, log)
    }

    /** The 16 display cells: even addresses are digits, odd ones LEDs. */
    ghost function Ram(): seq<nat>
      reads this
    {
      Device().regs.ram
    }

    /** Display on/off and intensity. */
    ghost function Control(): (bool, nat)
      reads this
    {
      (Device().regs.active, Device().regs.intensity)
    }

    /** `__init__`: take the pins and initialise the board. */
    constructor (dioLevels: nat -> bool, ghost chip: Chip)
      requires |chip.regs.ram| == 16
      ensures levels == dioLevels && powerOn == chip && sampled == 0
      ensures log == InitEvs()
      ensures Valid() && Ram() == Zeros(16) && Control() == (true, 7)
    {
      levels := dioLevels;
      powerOn := chip;
      log := [];
      sampled := 0;
      new;
      Init();
      assert log == InitEvs();
    }

    /** `_send_byte`: the 8 low bits of `bdata`, least significant first, one clock period each. */
    method SendByte(bdata: nat)
      modifies this`log
      ensures log == old(log) + ByteEvs(bdata)
    {
      ghost var bits := BitsOf(bdata, 8);
      var b := bdata;
      for i := 0 to 8
        invariant log == old(log) + BitEvs(bits[..i])
        invariant bits[i..] == BitsOf(b, 8 - i)
      {
        ghost var log1 := log;
        log := log + [Write(Clk, false)];
        log := log + [Write(Dio, b % 2 == 1)];
        log := log + [Write(Clk, true)];
        SendBitStep(old(log), log1, log, bits, b, i);
        b := b / 2;
      }
      assert bits[..8] == bits;
    }

    /** `_send_cmd`: one byte in a strobe bracket of its own. */
    method SendCmd(cmd: nat)
      modifies this`log
      ensures log == old(log) + Frame([cmd])
    {
      log := log + [Write(Stb, false)];
      SendByte(cmd);
      log := log + [Write(Stb, true)];
      BytesEvsOne(cmd);
      Bracket(old(log), Write(Stb, false), ByteEvs(cmd), Write(Stb, true));
    }

    /**
     * `_send_ram_data`: the fixed-address data command, then the address
     * command and the data byte; cell `addr` takes the low byte of `data`
     * and no other cell, nor the display control, changes.
     */
    method SendRamData(addr: nat, data: nat)
      requires addr < 16 && Valid()
      modifies this`log
      ensures log == old(log) + RamDataEvs(addr, data)
      ensures Valid() && Ram() == old(Ram())[addr := data % 256] && Control() == old(Control())
    {
      ghost var log0 := log;
      SendCmd(DATA_WRITE_FIXED);
      ghost var log1 := log;
      log := log + [Write(Stb, false)];
      SendByte(0xC0 + addr);
      SendByte(data);
      log := log + [Write(Stb, true)];
      Assoc(log1 + [Write(Stb, false)], ByteEvs(AddressCommand(addr)), ByteEvs(data));
      BytesEvsTwo(AddressCommand(addr), data);
      Bracket(log1, Write(Stb, false), BytesEvs([AddressCommand(addr), data]), Write(Stb, true));
      Assoc(log0, Frame([DATA_WRITE_FIXED]), Frame([AddressCommand(addr), data]));
      RamDataSettles(addr, data);
      RestAfter(log0, RamDataEvs(addr, data));
      Extend(powerOn, log0, RamDataEvs(addr, data));
      RamDataEffect(Run(powerOn, log0), addr, data);
    }

    /**
     * `_init`: configure the pins, select automatic addressing, switch the
     * display on at intensity 7 and write zero to all 16 cells.  It may be
     * called in any bus state and leaves a blank display.
     */
    method Init()
      requires |powerOn.regs.ram| == 16
      modifies this`log
      ensures log == old(log) + InitEvs()
      ensures Valid() && Ram() == Zeros(16) && Control() == (true, 7)
    {
      ghost var log0 := log;
      log := log + [Config(Dio, OpenDrain)];
      log := log + [Config(Stb, Out)];
      log := log + [Config(Clk, Out)];
      log := log + [Write(Clk, true)];
      log := log + [Write(Stb, true)];
      assert log == log0 + PIN_SETUP by { PinSetupLog(log0); }
      SendCmd(DATA_WRITE_AUTO);
      assert Valid() by { InitPrefixAtRest(log0); }
      Setup(true, 7);
      ghost var log1 := log;
      log := log + [Write(Stb, false)];
      SendByte(0xC0);
      assert log == log1 + [Write(Stb, false)] + BytesEvs(ClearBytes(0)) by {
        assert AddressCommand(0) == 0xC0;
        ClearBytesFirst();
      }
      for k := 0 to 16
        invariant log == log1 + [Write(Stb, false)] + BytesEvs(ClearBytes(k))
      {
        SendByte(0x00);
        ClearBytesNext(log1 + [Write(Stb, false)], k);
      }
      log := log + [Write(Stb, true)];
      InitDone(powerOn, log0, log1, log);
    }

    /** `setup`: the display-control command, then an empty strobe bracket with one clock period. */
    method Setup(active: bool, intensity: nat)
      requires intensity < 8 && Valid()
      modifies this`log
      ensures log == old(log) + SetupEvs(active, intensity)
      ensures Valid() && Ram() == old(Ram()) && Control() == (active, intensity)
    {
      ghost var log0 := log;
      SendCmd(0x80 + (if active then 8 else 0) + intensity);
      ghost var log1 := log;
      log := log + [Write(Stb, false)];
      log := log + [Write(Clk, false)];
      log := log + [Write(Clk, true)];
      log := log + [Write(Stb, true)];
      PulseLog(log1);
      Assoc(log0, Frame([DisplayControl(active, intensity)]), PULSE);
      SetupSettles(active, intensity);
      RestAfter(log0, SetupEvs(active, intensity));
      Extend(powerOn, log0, SetupEvs(active, intensity));
      SetupEffect(Run(powerOn, log0), active, intensity);
    }

    /**
     * `set_digit`: the digit cell at position `pos` (0 is leftmost) shows the
     * glyph of `digit`, or nothing for `None`, with its dot on exactly when
     * `dot` is set; every other cell keeps its contents.
     */
    method SetDigit(pos: nat, digit: Option<nat>, dot: bool)
      requires pos < 8 && (digit.Some? ==> digit.value < 16) && Valid()
      modifies this`log
      ensures log == old(log) + DigitEvs(pos, digit, dot)
      ensures Valid() && Ram() == old(Ram())[DigitAddr(pos) := DigitCell(digit, dot)]
      ensures Control() == old(Control())
    {
      var data := if digit.None? then (if dot then 0x80 else 0)
                  else NUMBER_FONT[digit.value] + (if dot then 0x80 else 0);
      assert data == DigitCell(digit, dot) && data % 256 == data by { ModSmall(data, 256); }
      SendRamData(2 * pos, data);
    }

    /**
     * `print_number`: `number` in `base`, right-justified over the 8 digit
     * positions, the positions left of its most significant digit blank.  The
     * digit cells afterwards are `Painted` with `Justify(number, base)`; the
     * LED cells and the display control keep their values.
     */
    method PrintNumber(number: nat, base: nat)
      requires 2 <= base <= 16 && number < Pow(base, 8) && Valid()
      modifies this`log
      ensures log == old(log) + CellsEvs(Justify(number, base))
      ensures Valid() && Ram() == Painted(old(Ram()), Justify(number, base)) && Control() == old(Control())
    {
      var digits := CollectDigits(number, base);
      ghost var cells := Justify(number, base);
      assert |digits| <= 8 && cells == Layout(digits) by {
        DigitsFit(number, base, 8);
      }
      ClearLeft(digits);
      PlaceDigits(digits, old(log));
      LayoutEvsAll(digits);
      assert Ram() == Painted(old(Ram()), cells) && Control() == old(Control()) by {
        Extend(powerOn, old(log), CellsEvs(cells));
        CellsEffect(Run(powerOn, old(log)), cells);
      }
    }

    /** The `while number:` loop of `print_number`: the digits of `number`, least significant first. */
    method CollectDigits(number: nat, base: nat) returns (digits: seq<nat>)
      requires 2 <= base
      ensures digits == Digits(number, base)
    {
      digits := [];
      var n: nat := number;
      while n != 0
        invariant digits + Digits(n, base) == Digits(number, base)
        decreases n
      {
        DigitsStep(n, base);
        var d: nat := n % base;
        Regroup(digits, d, Digits(n / base, base));
        digits := digits + [d];
        n := n / base;
      }
    }

    /** The first `for` loop of `print_number`: blank the `8 - |digits|` positions left of the number. */
    method ClearLeft(digits: seq<nat>)
      requires |digits| <= 8 && HexDigits(digits) && Valid()
      modifies this`log
      ensures log == old(log) + LayoutEvs(digits, 8 - |digits|) && Valid()
    {
      for pos := 0 to 8 - |digits|
        invariant log == old(log) + LayoutEvs(digits, pos) && Valid()
      {
        ghost var log1 := log;
        SetDigit(pos, None, false);
        LayoutEvsStep(old(log), log1, log, digits, pos);
      }
    }

    /** State of `print_number`'s second loop before position `pos`: `stack` is what `digits` has left, and positions before `pos` are set. */
    ghost predicate Placing(digits: seq<nat>, stack: seq<nat>, pos: nat, log0: seq<Ev>)
      reads this
    {
      |digits| <= 8 && HexDigits(digits) && 8 - |digits| <= pos <= 8 && Valid()
      && stack == digits[..8 - pos] && log == log0 + LayoutEvs(digits, pos)
    }

    /**
     * The second `for` loop of `print_number`: pop the digits (least
     * significant first in `digits`) into positions `8 - |digits|` to 7, so
     * the most significant lands leftmost.  `log0` is the log before the
     * first loop.
     */
    method PlaceDigits(digits: seq<nat>, ghost log0: seq<Ev>)
      requires |digits| <= 8 && HexDigits(digits) && Valid()
      requires log == log0 + LayoutEvs(digits, 8 - |digits|)
      modifies this`log
      ensures log == log0 + LayoutEvs(digits, 8) && Valid()
    {
      var stack := digits;
      for pos := 8 - |stack| to 8
        invariant Placing(digits, stack, pos, log0)
      {
        stack := PopDigit(digits, stack, pos, log0);
      }
    }

    /** One pass of that loop: `set_digit(pos, digits.pop())`, returning what is left of the list. */
    method PopDigit(digits: seq<nat>, stack: seq<nat>, pos: nat, ghost log0: seq<Ev>) returns (rest: seq<nat>)
      requires pos < 8 && Placing(digits, stack, pos, log0)
      modifies this`log
      ensures Placing(digits, rest, pos + 1, log0)
    {
      PopLast(digits, stack, pos);
      var d := stack[|stack| - 1];
      rest := stack[..|stack| - 1];
      ghost var log1 := log;
      SetDigit(pos, Some(d), false);
      LayoutEvsStep(log0, log1, log, digits, pos);
    }

    /**
     * `_recv_byte`: switch the data pin to input, sample it once in each of 8
     * clock periods, switch it back to open-drain.  The first sample is bit 0
     * of the result.
     */
    method RecvByte() returns (b: nat)
      modifies this`log, this`sampled
      ensures sampled == old(sampled) + 8
      ensures log == old(log) + RecvEvs(Window(levels, old(sampled), 8))
      ensures b == LsbValue(Window(levels, old(sampled), 8)) && b < 256
      ensures forall i | 0 <= i < 8 :: Bit(b, i) == Window(levels, old(sampled), 8)[i]
    {
      ghost var w := Window(levels, sampled, 8);
      log := log + [Config(Dio, In)];
      var temp: nat := 0;
      for i := 0 to 8
        invariant sampled == old(sampled) + i
        invariant log == old(log) + [Config(Dio, In)] + SampleEvs(w[..i])
        invariant temp == ShiftReg(w, i)
      {
        SampleLog(old(log) + [Config(Dio, In)], w, i);
        temp := temp / 2;
        log := log + [Write(Clk, false)];
        var level := levels(sampled);
        log := log + [Read(Dio, level)];
        sampled := sampled + 1;
        if level {
          // bit 7 of `temp` is clear, so setting it adds 0x80
          temp := temp + 0x80;
        }
        log := log + [Write(Clk, true)];
        assert level == w[i];
      }
      log := log + [Config(Dio, OpenDrain)];
      assert w[..8] == w;
      assert log == old(log) + RecvEvs(w) by {
        Bracket(old(log), Config(Dio, In), SampleEvs(w), Config(Dio, OpenDrain));
      }
      b := temp;
      ShiftRegByte(w);
      forall i | 0 <= i < 8
        ensures Bit(b, i) == w[i]
      {
        BitOfLsbValue(w, i);
      }
    }

    /**
     * The receive loop of `get_buttons`: four `_recv_byte` calls; bit 0 of
     * each byte goes to `keyLow`, bit 4 to `keyHigh`.
     */
    method RecvKeys() returns (keyLow: seq<bool>, keyHigh: seq<bool>)
      modifies this`log, this`sampled
      ensures sampled == old(sampled) + 32
      ensures log == old(log) + RecvsEvs(Window(levels, old(sampled), 32), 4)
      ensures keyLow + keyHigh == Buttons(KeyBytes(Window(levels, old(sampled), 32)))
    {
      ghost var w := Window(levels, sampled, 32);
      keyLow, keyHigh := [], [];
      ghost var keys: seq<nat> := [];
      for b := 0 to 4
        invariant sampled == old(sampled) + 8 * b
        invariant log == old(log) + RecvsEvs(w, b)
        invariant keys == KeyBytes(w)[..b]
        invariant keyLow == LowKeys(keys) && keyHigh == HighKeys(keys)
      {
        RecvsLog(old(log), levels, old(sampled), b, sampled);
        KeyByteAt(levels, old(sampled), b, sampled);
        var keyData := RecvByte();
        keyLow := keyLow + [keyData % 2 == 1];
        keyHigh := keyHigh + [(keyData / 16) % 2 == 1];
        KeysSnoc(keys, keyData);
        assert KeyBytes(w)[..b + 1] == keys + [keyData];
        keys := keys + [keyData];
      }
      assert KeyBytes(w)[..4] == KeyBytes(w);
    }

    /**
     * `get_buttons`: inside one strobe bracket, the read-keys command and four
     * received bytes; button `i` (0..3) is bit 0 and button `i + 4` bit 4 of
     * byte `i`.  No display cell and not the display control changes.
     */
    method GetButtons() returns (pressed: seq<bool>)
      requires Valid()
      modifies this`log, this`sampled
      ensures sampled == old(sampled) + 32
      ensures log == old(log) + ScanEvs(Window(levels, old(sampled), 32))
      ensures pressed == Buttons(KeyBytes(Window(levels, old(sampled), 32)))
      ensures forall i | 0 <= i < 4 :: pressed[i] == Window(levels, old(sampled), 32)[8 * i]
                                     && pressed[i + 4] == Window(levels, old(sampled), 32)[8 * i + 4]
      ensures Valid() && Ram() == old(Ram()) && Control() == old(Control())
    {
      ghost var log0 := log;
      ghost var w := Window(levels, sampled, 32);
      log := log + [Write(Stb, false)];
      SendByte(READ_KEYS);
      var keyLow, keyHigh := RecvKeys();
      log := log + [Write(Stb, true)];
      pressed := keyLow + keyHigh;
      assert log == log0 + ScanEvs(w) by {
        Assoc4(log0, [Write(Stb, false)], ByteEvs(READ_KEYS), RecvsEvs(w, 4), [Write(Stb, true)]);
      }
      ButtonsFromSamples(w);
      assert Valid() && Ram() == old(Ram()) && Control() == old(Control()) by {
        ScanSettles(w);
        RestAfter(log0, ScanEvs(w));
        Extend(powerOn, log0, ScanEvs(w));
        ScanEffect(Run(powerOn, log0), w);
      }
    }

    /**
     * `set_led`: the LED cell at position `pos` takes the low byte of
     * `colour` (`LED_NONE`, `LED_GREEN` or `LED_RED`); every other cell keeps
     * its contents.
     */
    method SetLed(pos: nat, colour: nat)
      requires pos < 8 && Valid()
      modifies this`log
      ensures log == old(log) + LedEvs(pos, colour)
      ensures Valid() && Ram() == old(Ram())[LedAddr(pos) := colour % 256] && Control() == old(Control())
    {
      SendRamData(2 * pos + 1, colour);
    }
  }
}
