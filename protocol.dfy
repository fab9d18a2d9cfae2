/**
 * The pin events of each LKM1638 operation, and what they do.
 *
 * For every driver operation this module gives the exact event sequence it
 * appends to the bus log, proves that the sequence leaves an idle bus idle
 * (strobe and clock high, data pin open-drain), and proves what the TM1638
 * model makes of it: which RAM cell changes, what the display control
 * becomes, or that nothing changes.
 */
module Protocol {
  import opened Wrappers
  import opened Bits
  import opened Bus
  import opened TM1638
  import opened Encoding

  /**
   * `_send_ram_data(addr, data)`: the fixed-address data command in a bracket
   * of its own, then the address command and the data byte in a second one.
   */
  function RamDataEvs(addr: nat, data: nat): seq<Ev>
    requires addr < 16
  {
    Frame([DATA_WRITE_FIXED]) + Frame([AddressCommand(addr), data])
  }

  /** Strobe low, one clock period, strobe high: what `setup` sends after the display-control command. */
  const PULSE: seq<Ev> := [Write(Stb, false), Write(Clk, false), Write(Clk, true), Write(Stb, true)]

  /** `setup(active, intensity)`. */
  function SetupEvs(active: bool, intensity: nat): seq<Ev>
    requires intensity < 8
  {
    Frame([DisplayControl(active, intensity)]) + PULSE
  }

  /** The pin configuration and idle levels at the start of `_init`. */
  const PIN_SETUP: seq<Ev> :=
    [Config(Dio, OpenDrain), Config(Stb, Out), Config(Clk, Out), Write(Clk, true), Write(Stb, true)]

  function Zeros(n: nat): (zs: seq<nat>)
    ensures |zs| == n && forall i | 0 <= i < n :: zs[i] == 0
  {
    if n == 0 then [] else Zeros(n - 1) + [0]
  }

  /** The bytes of `_init`'s last bracket: start address 0, then `k` zeros. */
  function ClearBytes(k: nat): (bytes: seq<nat>)
    ensures |bytes| == k + 1
  {
    [AddressCommand(0)] + Zeros(k)
  }

  lemma ClearBytesFirst()
    ensures BytesEvs(ClearBytes(0)) == ByteEvs(AddressCommand(0))
  {
    assert ClearBytes(0) == [AddressCommand(0)];
    BytesEvsOne(AddressCommand(0));
  }

  /** One more zero byte. */
  lemma ClearBytesNext(log: seq<Ev>, k: nat)
    ensures log + BytesEvs(ClearBytes(k)) + ByteEvs(0) == log + BytesEvs(ClearBytes(k + 1))
  {
    assert ClearBytes(k + 1) == ClearBytes(k) + [0];
    assert ClearBytes(k + 1)[..k + 1] == ClearBytes(k);
  }

  /**
   * `_init`: configure the pins, idle the bus, select auto-increment writes,
   * `setup(True, 7)`, then one bracket with address 0 and sixteen zero bytes.
   */
  function InitEvs(): seq<Ev>
  {
    PIN_SETUP + Frame([DATA_WRITE_AUTO]) + SetupEvs(true, 7) + Frame(ClearBytes(16))
  }

  /** The pin set-up of `_init`, one call at a time. */
  lemma PinSetupLog(log: seq<Ev>)
    ensures log + [Config(Dio, OpenDrain)] + [Config(Stb, Out)] + [Config(Clk, Out)] + [Write(Clk, true)]
              + [Write(Stb, true)] == log + PIN_SETUP
  {
  }

  /** The pieces of `_init`, in order, make up `InitEvs()`. */
  lemma InitLog(log0: seq<Ev>, log: seq<Ev>)
    requires log == log0 + PIN_SETUP + Frame([DATA_WRITE_AUTO]) + SetupEvs(true, 7)
                   + Frame(ClearBytes(16))
    ensures log == log0 + InitEvs()
  {
    Assoc4(log0, PIN_SETUP, Frame([DATA_WRITE_AUTO]), SetupEvs(true, 7), Frame(ClearBytes(16)));
  }

  /** The empty bracket of `setup`, one call at a time. */
  lemma PulseLog(log: seq<Ev>)
    ensures log + [Write(Stb, false)] + [Write(Clk, false)] + [Write(Clk, true)] + [Write(Stb, true)] == log + PULSE
  {
  }

  /** `set_digit(pos, digit, dot)`. */
  function DigitEvs(pos: nat, digit: Option<nat>, dot: bool): seq<Ev>
    requires pos < 8 && (digit.Some? ==> digit.value < 16)
  {
    RamDataEvs(DigitAddr(pos), DigitCell(digit, dot))
  }

  /** `set_led(pos, colour)`. */
  function LedEvs(pos: nat, colour: nat): seq<Ev>
    requires pos < 8
  {
    RamDataEvs(LedAddr(pos), colour)
  }

  /** `set_digit(p, cells[p])` (no dot) for the positions `p` of `cells` in increasing order. */
  function CellsEvs(cells: seq<Option<nat>>): seq<Ev>
    requires |cells| <= 8 && HexCells(cells)
  {
    if cells == [] then []
    else CellsEvs(cells[..|cells| - 1]) + DigitEvs(|cells| - 1, cells[|cells| - 1], false)
  }

  /** Display RAM `ram` after digit position `p` has been given cell `cells[p]` (no dot), for every `p`. */
  function Painted(ram: seq<nat>, cells: seq<Option<nat>>): (ram': seq<nat>)
    requires |ram| == 16 && |cells| <= 8 && HexCells(cells)
    ensures |ram'| == 16
  {
    if cells == [] then ram
    else Painted(ram, cells[..|cells| - 1])[DigitAddr(|cells| - 1) := DigitCell(cells[|cells| - 1], false)]
  }

  /** The painted digit cells hold their glyphs; the LED cells and the digits not painted keep their contents. */
  lemma {:induction false} PaintedAt(ram: seq<nat>, cells: seq<Option<nat>>)
    requires |ram| == 16 && |cells| <= 8 && HexCells(cells)
    ensures forall p | 0 <= p < |cells| :: Painted(ram, cells)[DigitAddr(p)] == DigitCell(cells[p], false)
    ensures forall i | 0 <= i < 16 && (i % 2 == 1 || i / 2 >= |cells|) :: Painted(ram, cells)[i] == ram[i]
  {
    if cells != [] {
      var init := cells[..|cells| - 1];
      PaintedAt(ram, init);
      forall p | 0 <= p < |cells|
        ensures Painted(ram, cells)[DigitAddr(p)] == DigitCell(cells[p], false)
      {
        if p < |init| {
          assert cells[p] == init[p];
        }
      }
    }
  }

  /** One more `set_digit` call, at position `pos`, extends the events by that position. */
  lemma CellsStep(log: seq<Ev>, cells: seq<Option<nat>>, pos: nat)
    requires |cells| <= 8 && HexCells(cells) && pos < |cells|
    ensures log + CellsEvs(cells[..pos]) + DigitEvs(pos, cells[pos], false) == log + CellsEvs(cells[..pos + 1])
  {
    var pre := cells[..pos + 1];
    assert pre[..pos] == cells[..pos] && pre[pos] == cells[pos];
    assert CellsEvs(pre) == CellsEvs(cells[..pos]) + DigitEvs(pos, cells[pos], false);
    Assoc(log, CellsEvs(cells[..pos]), DigitEvs(pos, cells[pos], false));
  }

  /** The events of the first `pos` `set_digit` calls of the loops that show the digits `ds`. */
  function LayoutEvs(ds: seq<nat>, pos: nat): seq<Ev>
    requires |ds| <= 8 && HexDigits(ds) && pos <= 8
  {
    CellsEvs(Layout(ds)[..pos])
  }

  /** The `set_digit` call at position `pos`: a blank left of the digits, digit `7 - pos` otherwise. */
  lemma LayoutEvsStep(log0: seq<Ev>, log1: seq<Ev>, log2: seq<Ev>, ds: seq<nat>, pos: nat)
    requires |ds| <= 8 && HexDigits(ds) && pos < 8
    requires log1 == log0 + LayoutEvs(ds, pos)
    requires log2 == log1 + DigitEvs(pos, if pos < 8 - |ds| then None else Some(ds[7 - pos]), false)
    ensures log2 == log0 + LayoutEvs(ds, pos + 1)
  {
    LayoutAt(ds, pos);
    CellsStep(log0, Layout(ds), pos);
  }

  /** All 8 positions of the layout give the `set_digit` calls for its 8 cells. */
  lemma LayoutEvsAll(ds: seq<nat>)
    requires |ds| <= 8 && HexDigits(ds)
    ensures LayoutEvs(ds, 8) == CellsEvs(Layout(ds))
  {
    assert Layout(ds)[..8] == Layout(ds);
  }

  /** `n` successive `_recv_byte` calls, 8 samples each. */
  function RecvsEvs(samples: seq<bool>, n: nat): (evs: seq<Ev>)
    requires 8 * n <= |samples|
    ensures |evs| == 26 * n
  {
    if n == 0 then [] else RecvsEvs(samples, n - 1) + RecvEvs(samples[8 * (n - 1) .. 8 * n])
  }

  /** `get_buttons`: one bracket holding the read-keys command and four received bytes. */
  function ScanEvs(samples: seq<bool>): seq<Ev>
    requires |samples| == 32
  {
    [Write(Stb, false)] + ByteEvs(READ_KEYS) + RecvsEvs(samples, 4) + [Write(Stb, true)]
  }

  // ----- The host's view: the bus returns to rest -----

  /** `evs` ends with strobe and clock high and leaves the data pin open-drain if it changes its mode. */
  predicate Settles(evs: seq<Ev>)
  {
    LastWrite(evs, Stb) == Some(true) && LastWrite(evs, Clk) == Some(true)
    && (LastMode(evs, Dio) == None || LastMode(evs, Dio) == Some(OpenDrain))
  }

  lemma RestAfter(log: seq<Ev>, evs: seq<Ev>)
    requires AtRest(log) && Settles(evs)
    ensures AtRest(log + evs)
  {
    LastWriteAppend(log, evs, Stb);
    LastWriteAppend(log, evs, Clk);
    LastModeAppend(log, evs, Dio);
  }

  lemma SettlesAppend(a: seq<Ev>, b: seq<Ev>)
    requires Settles(b) && (LastMode(b, Dio) == None ==> LastMode(a, Dio) != Some(In) && LastMode(a, Dio) != Some(Out))
    ensures Settles(a + b)
  {
    LastWriteAppend(a, b, Stb);
    LastWriteAppend(a, b, Clk);
    LastModeAppend(a, b, Dio);
    if LastMode(b, Dio) == None {
      match LastMode(a, Dio)
      case None =>
      case Some(m) => assert m == OpenDrain;
    }
  }

  lemma FrameSettles(bytes: seq<nat>)
    requires bytes != []
    ensures Settles(Frame(bytes))
    ensures LastMode(Frame(bytes), Dio) == None
  {
    var f := Frame(bytes);
    assert f[..|f| - 1] == [Write(Stb, false)] + BytesEvs(bytes);
    BytesEvsLast(bytes);
    LastWriteAppend([Write(Stb, false)], BytesEvs(bytes), Clk);
    LastModeAppend([Write(Stb, false)], BytesEvs(bytes), Dio);
  }

  lemma RamDataSettles(addr: nat, data: nat)
    requires addr < 16
    ensures Settles(RamDataEvs(addr, data)) && LastMode(RamDataEvs(addr, data), Dio) == None
  {
    FrameSettles([DATA_WRITE_FIXED]);
    FrameSettles([AddressCommand(addr), data]);
    LastModeAppend(Frame([DATA_WRITE_FIXED]), Frame([AddressCommand(addr), data]), Dio);
    SettlesAppend(Frame([DATA_WRITE_FIXED]), Frame([AddressCommand(addr), data]));
  }

  lemma PulseLast()
    ensures Settles(PULSE) && LastMode(PULSE, Dio) == None
  {
    assert PULSE[..3] == [Write(Stb, false), Write(Clk, false), Write(Clk, true)];
    WritesOnlyLast(PULSE, Dio);
  }

  lemma SetupSettles(active: bool, intensity: nat)
    requires intensity < 8
    ensures Settles(SetupEvs(active, intensity)) && LastMode(SetupEvs(active, intensity), Dio) == None
  {
    var f := Frame([DisplayControl(active, intensity)]);
    FrameSettles([DisplayControl(active, intensity)]);
    PulseLast();
    LastModeAppend(f, PULSE, Dio);
    SettlesAppend(f, PULSE);
  }

  lemma PinSetupMode()
    ensures LastMode(PIN_SETUP, Dio) == Some(OpenDrain)
  {
    var rest := PIN_SETUP[1..];
    assert PIN_SETUP == [Config(Dio, OpenDrain)] + rest;
    assert Untouched(rest, Dio);
    UntouchedLast(rest, Dio);
    LastModeAppend([Config(Dio, OpenDrain)], rest, Dio);
  }

  /** Part way through `_init`, before `setup(True, 7)`, the bus is already at rest. */
  lemma InitPrefixAtRest(log: seq<Ev>)
    ensures AtRest(log + PIN_SETUP + Frame([DATA_WRITE_AUTO]))
  {
    PinSetupMode();
    FrameSettles([DATA_WRITE_AUTO]);
    LastModeAppend(PIN_SETUP, Frame([DATA_WRITE_AUTO]), Dio);
    SettlesAppend(PIN_SETUP, Frame([DATA_WRITE_AUTO]));
    assert Settles(PIN_SETUP + Frame([DATA_WRITE_AUTO]));
    LastWriteAppend(log, PIN_SETUP + Frame([DATA_WRITE_AUTO]), Stb);
    LastWriteAppend(log, PIN_SETUP + Frame([DATA_WRITE_AUTO]), Clk);
    LastModeAppend(log, PIN_SETUP + Frame([DATA_WRITE_AUTO]), Dio);
    assert log + PIN_SETUP + Frame([DATA_WRITE_AUTO]) == log + (PIN_SETUP + Frame([DATA_WRITE_AUTO]));
  }

  /** `_init` leaves the bus at rest, whatever state it found it in. */
  lemma InitAtRest(log: seq<Ev>)
    ensures AtRest(log + InitEvs())
  {
    var a := PIN_SETUP + Frame([DATA_WRITE_AUTO]) + SetupEvs(true, 7);
    var z := Frame(ClearBytes(16));
    PinSetupMode();
    FrameSettles([DATA_WRITE_AUTO]);
    LastModeAppend(PIN_SETUP, Frame([DATA_WRITE_AUTO]), Dio);
    SetupSettles(true, 7);
    LastModeAppend(PIN_SETUP + Frame([DATA_WRITE_AUTO]), SetupEvs(true, 7), Dio);
    FrameSettles(ClearBytes(16));
    LastModeAppend(a, z, Dio);
    LastWriteAppend(a, z, Stb);
    LastWriteAppend(a, z, Clk);
    assert a + z == InitEvs();
    LastWriteAppend(log, InitEvs(), Stb);
    LastWriteAppend(log, InitEvs(), Clk);
    LastModeAppend(log, InitEvs(), Dio);
  }

  lemma {:induction false} CellsSettles(cells: seq<Option<nat>>)
    requires 0 < |cells| <= 8 && HexCells(cells)
    ensures Settles(CellsEvs(cells)) && LastMode(CellsEvs(cells), Dio) == None
  {
    var init, last := cells[..|cells| - 1], cells[|cells| - 1];
    var d := DigitEvs(|cells| - 1, last, false);
    RamDataSettles(DigitAddr(|cells| - 1), DigitCell(last, false));
    LastModeAppend(CellsEvs(init), d, Dio);
    if init != [] {
      CellsSettles(init);
    } else {
      assert CellsEvs(init) == [];
    }
    SettlesAppend(CellsEvs(init), d);
  }

  lemma {:induction false} RecvsEvsShape(samples: seq<bool>, n: nat)
    requires 8 * n <= |samples|
    ensures Untouched(RecvsEvs(samples, n), Stb)
    ensures n > 0 ==> LastWrite(RecvsEvs(samples, n), Clk) == Some(true)
    ensures n > 0 ==> LastMode(RecvsEvs(samples, n), Dio) == Some(OpenDrain)
  {
    if n > 0 {
      var last := samples[8 * (n - 1) .. 8 * n];
      RecvsEvsShape(samples, n - 1);
      RecvEvsShape(last);
      var r := RecvEvs(last);
      assert r[..|r| - 1] == [Config(Dio, In)] + SampleEvs(last);
      assert SampleEvs(last)[|SampleEvs(last)| - 1] == Write(Clk, true);
      LastWriteAppend([Config(Dio, In)], SampleEvs(last), Clk);
      LastWriteAppend(RecvsEvs(samples, n - 1), r, Clk);
      LastModeAppend(RecvsEvs(samples, n - 1), r, Dio);
    }
  }

  lemma ScanSettles(samples: seq<bool>)
    requires |samples| == 32
    ensures Settles(ScanEvs(samples)) && LastMode(ScanEvs(samples), Dio) == Some(OpenDrain)
  {
    var s := ScanEvs(samples);
    var body := [Write(Stb, false)] + ByteEvs(READ_KEYS) + RecvsEvs(samples, 4);
    assert s == body + [Write(Stb, true)];
    RecvsEvsShape(samples, 4);
    LastWriteAppend([Write(Stb, false)] + ByteEvs(READ_KEYS), RecvsEvs(samples, 4), Clk);
    LastModeAppend([Write(Stb, false)] + ByteEvs(READ_KEYS), RecvsEvs(samples, 4), Dio);
    LastWriteAppend(body, [Write(Stb, true)], Clk);
    LastModeAppend(body, [Write(Stb, true)], Dio);
  }

  // ----- The chip's view -----

  /** From an idle bus, the chip sees the log and then `evs`, with strobe and clock high in between. */
  lemma Extend(c: Chip, log: seq<Ev>, evs: seq<Ev>)
    requires AtRest(log)
    ensures Run(c, log + evs) == Run(Run(c, log), evs)
    ensures Run(c, log).stb && Run(c, log).clk
  {
    RunAppend(c, log, evs);
    RunLines(c, log);
  }

  lemma ReceiveOne(r: Regs, b: nat)
    ensures Receive(r, [b]) == Accept(r, b % 256)
  {
    assert [b][..0] == [];
  }

  lemma ReceiveTwo(r: Regs, a: nat, b: nat)
    ensures Receive(r, [a, b]) == Accept(Accept(r, a % 256), b % 256)
  {
    assert [a, b][..1] == [a];
    ReceiveOne(r, a);
  }

  /** `set_digit(p, cells[p])` for each position in turn paints the digit cells and nothing else. */
  lemma {:induction false} CellsEffect(c: Chip, cells: seq<Option<nat>>)
    requires c.stb && c.clk && |c.regs.ram| == 16 && |cells| <= 8 && HexCells(cells)
    ensures var c' := Run(c, CellsEvs(cells));
      c'.stb && c'.clk && c'.regs.ram == Painted(c.regs.ram, cells)
      && c'.regs.active == c.regs.active && c'.regs.intensity == c.regs.intensity
  {
    if cells != [] {
      var init, last := cells[..|cells| - 1], cells[|cells| - 1];
      assert HexCells(init);
      CellsEffect(c, init);
      var c1 := Run(c, CellsEvs(init));
      var addr, cell := DigitAddr(|cells| - 1), DigitCell(last, false);
      RunAppend(c, CellsEvs(init), RamDataEvs(addr, cell));
      RamDataEffect(c1, addr, cell);
      ModSmall(cell, 256);
      assert Painted(c.regs.ram, cells) == Painted(c.regs.ram, init)[addr := cell];
    }
  }

  /** A bracket holding one command byte `cmd`, sent from an idle bus. */
  lemma CommandFrame(c: Chip, cmd: nat)
    requires c.stb && c.clk
    ensures var c' := Run(c, Frame([cmd]));
      c'.stb && c'.clk && c'.regs == Accept(c.regs.(phase := Command, bits := []), cmd % 256).(phase := Idle, bits := [])
  {
    RunFrame(c, [cmd]);
    ReceiveOne(c.regs.(phase := Command, bits := []), cmd);
  }

  /** The three data commands the driver sends are data commands; of the two writes only the fixed one has bit 2 set. */
  lemma DataCommands()
    ensures DATA_WRITE_AUTO < 256 && DATA_WRITE_AUTO / 64 == 1 && (DATA_WRITE_AUTO / 4) % 2 == 0
    ensures DATA_WRITE_FIXED < 256 && DATA_WRITE_FIXED / 64 == 1 && (DATA_WRITE_FIXED / 4) % 2 == 1
    ensures READ_KEYS < 256 && READ_KEYS / 64 == 1
  {
  }

  /**
   * A data command (section 7.1: top bits 01) in a bracket of its own sets
   * fixed-address mode exactly when its bit 2 is set, and changes nothing else.
   */
  lemma DataCommandFrame(c: Chip, cmd: nat)
    requires c.stb && c.clk && cmd < 256 && cmd / 64 == 1
    ensures var c' := Run(c, Frame([cmd]));
      c'.stb && c'.clk && c'.regs == c.regs.(fixed := (cmd / 4) % 2 == 1, phase := Idle, bits := [])
  {
    var r := c.regs.(phase := Command, bits := []);
    CommandFrame(c, cmd);
    assert cmd % 256 == cmd;
    assert Accept(r, cmd) == r.(fixed := (cmd / 4) % 2 == 1, phase := Ignore);
  }

  /** In fixed-address mode, an address command and one data byte write that one cell. */
  lemma CellFrame(c: Chip, addr: nat, data: nat)
    requires c.stb && c.clk && c.regs.fixed && addr < 16 && |c.regs.ram| == 16
    ensures var c' := Run(c, Frame([AddressCommand(addr), data]));
      c'.stb && c'.clk
      && c'.regs == c.regs.(ram := c.regs.ram[addr := data % 256], addr := addr, phase := Idle, bits := [])
  {
    var r := c.regs.(phase := Command, bits := []);
    RunFrame(c, [AddressCommand(addr), data]);
    ReceiveTwo(r, AddressCommand(addr), data);
    var r1 := Accept(r, AddressCommand(addr) % 256);
    assert r1 == r.(addr := addr, phase := Data);
  }

  /**
   * `_send_ram_data(addr, data)` stores `data` (its low byte) in cell `addr`
   * and changes no other cell; the chip is left in fixed-address mode.
   */
  lemma RamDataEffect(c: Chip, addr: nat, data: nat)
    requires c.stb && c.clk && addr < 16 && |c.regs.ram| == 16
    ensures var c' := Run(c, RamDataEvs(addr, data));
      c'.stb && c'.clk
      && c'.regs == c.regs.(ram := c.regs.ram[addr := data % 256], fixed := true, addr := addr,
                            phase := Idle, bits := [])
  {
    RunAppend(c, Frame([DATA_WRITE_FIXED]), Frame([AddressCommand(addr), data]));
    DataCommands();
    DataCommandFrame(c, DATA_WRITE_FIXED);
    CellFrame(Run(c, Frame([DATA_WRITE_FIXED])), addr, data);
  }

  lemma PulseEffect(c: Chip)
    requires c.stb && c.clk
    ensures var c' := Run(c, PULSE);
      c'.stb && c'.clk && c'.regs == c.regs.(phase := Idle, bits := [])
  {
    var c1 := Step(c, PULSE[0]);
    var c2 := Step(c1, PULSE[1]);
    var c3 := Step(c2, PULSE[2]);
    assert PULSE[1..] == [PULSE[1], PULSE[2], PULSE[3]];
    assert [PULSE[1], PULSE[2], PULSE[3]][1..] == [PULSE[2], PULSE[3]];
    assert [PULSE[2], PULSE[3]][1..] == [PULSE[3]];
    RunOne(c3, PULSE[3]);
    assert Run(c, PULSE) == Run(c3, [PULSE[3]]);
  }

  /** `setup(active, intensity)` sets the display control and leaves the RAM alone. */
  lemma SetupEffect(c: Chip, active: bool, intensity: nat)
    requires c.stb && c.clk && intensity < 8
    ensures var c' := Run(c, SetupEvs(active, intensity));
      c'.stb && c'.clk
      && c'.regs == c.regs.(active := active, intensity := intensity, phase := Idle, bits := [])
  {
    var cmd := DisplayControl(active, intensity);
    var r := c.regs.(phase := Command, bits := []);
    var c1 := Run(c, Frame([cmd]));
    assert c1.stb && c1.clk && c1.regs == r.(active := active, intensity := intensity, phase := Idle) by {
      CommandFrame(c, cmd);
      ModSmall(cmd, 256);
      assert Accept(r, cmd) == r.(active := active, intensity := intensity, phase := Ignore);
    }
    RunAppend(c, Frame([cmd]), PULSE);
    PulseEffect(c1);
  }

  lemma PinSetupEffect(c: Chip)
    ensures var c' := Run(c, PIN_SETUP);
      c'.stb && c'.clk && c'.regs.phase == Idle && c'.regs.bits == [] && |c'.regs.ram| == |c.regs.ram|
  {
    assert PIN_SETUP[..4][..3] == [Config(Dio, OpenDrain), Config(Stb, Out), Config(Clk, Out)];
    RunLines(c, PIN_SETUP);
    var front := PIN_SETUP[..4];
    assert PIN_SETUP == front + [Write(Stb, true)];
    RunAppend(c, front, [Write(Stb, true)]);
    RunOne(Run(c, front), Write(Stb, true));
  }

  /** In auto-increment mode, address 0 followed by sixteen zeros clears the whole RAM. */
  lemma ClearFrame(c: Chip)
    requires c.stb && c.clk && !c.regs.fixed && |c.regs.ram| == 16
    ensures var c' := Run(c, Frame(ClearBytes(16)));
      c'.stb && c'.clk && c'.regs.ram == Zeros(16)
      && c'.regs.active == c.regs.active && c'.regs.intensity == c.regs.intensity
  {
    var r := c.regs.(phase := Command, bits := []);
    var a := AddressCommand(0);
    RunFrame(c, ClearBytes(16));
    ReceiveAppend(r, [a], Zeros(16));
    var r1 := r.(addr := 0, phase := Data);
    assert Receive(r, [a]) == r1 by {
      ReceiveOne(r, a);
      ModSmall(a, 256);
    }
    ReceiveBurst(r1, Zeros(16));
    var r2 := Receive(r1, Zeros(16));
    assert r2.ram == Zeros(16);
  }

  /**
   * `_init` clears all 16 RAM cells and turns the display on at full
   * brightness, from any chip state whatsoever: calling it again after any
   * sequence of writes leaves a blank display.
   */
  lemma InitEffect(c: Chip)
    requires |c.regs.ram| == 16
    ensures var c' := Run(c, InitEvs());
      c'.stb && c'.clk && c'.regs.ram == Zeros(16) && c'.regs.active && c'.regs.intensity == 7
  {
    var a := PIN_SETUP + Frame([DATA_WRITE_AUTO]);
    var b := a + SetupEvs(true, 7);
    var z := Frame(ClearBytes(16));
    assert InitEvs() == b + z;
    RunAppend(c, b, z);
    RunAppend(c, a, SetupEvs(true, 7));
    RunAppend(c, PIN_SETUP, Frame([DATA_WRITE_AUTO]));
    PinSetupEffect(c);
    DataCommands();
    DataCommandFrame(Run(c, PIN_SETUP), DATA_WRITE_AUTO);
    SetupEffect(Run(c, a), true, 7);
    ClearFrame(Run(c, b));
  }

  /**
   * A data command opening a bracket that stays open (the read-keys command
   * of `get_buttons`): the chip stops listening and only its address mode
   * follows bit 2 of the command.
   */
  lemma OpenDataCommand(c: Chip, cmd: nat)
    requires c.stb && c.clk && cmd < 256 && cmd / 64 == 1
    ensures var c' := Run(c, [Write(Stb, false)] + ByteEvs(cmd));
      !c'.stb && c'.regs == c.regs.(fixed := (cmd / 4) % 2 == 1, phase := Ignore, bits := [])
  {
    var c1 := c.(stb := false, regs := c.regs.(phase := Command, bits := []));
    assert Run(c, [Write(Stb, false)]) == c1 by {
      RunOne(c, Write(Stb, false));
    }
    RunAppend(c, [Write(Stb, false)], ByteEvs(cmd));
    RunByte(c1, cmd);
    ModSmall(cmd, 256);
    assert Accept(c1.regs, cmd) == c1.regs.(fixed := (cmd / 4) % 2 == 1, phase := Ignore);
  }

  /** `_init` after any history: the bus is at rest, the RAM blank, the display on at intensity 7. */
  lemma InitFrom(c: Chip, log: seq<Ev>)
    requires |c.regs.ram| == 16
    ensures AtRest(log + InitEvs())
    ensures var c' := Run(c, log + InitEvs());
      c'.regs.ram == Zeros(16) && c'.regs.active && c'.regs.intensity == 7
  {
    InitAtRest(log);
    RunAppend(c, log, InitEvs());
    InitEffect(Run(c, log));
  }

  /**
   * `_init` put together from its pieces: the pin set-up, the automatic
   * addressing command and the display set-up (`log1`), then the bracket
   * clearing the RAM.
   */
  lemma InitDone(c: Chip, log0: seq<Ev>, log1: seq<Ev>, log: seq<Ev>)
    requires |c.regs.ram| == 16
    requires log1 == log0 + PIN_SETUP + Frame([DATA_WRITE_AUTO]) + SetupEvs(true, 7)
    requires log == log1 + [Write(Stb, false)] + BytesEvs(ClearBytes(16)) + [Write(Stb, true)]
    ensures log == log0 + InitEvs() && AtRest(log)
    ensures var c' := Run(c, log);
      c'.regs.ram == Zeros(16) && c'.regs.active && c'.regs.intensity == 7
  {
    Bracket(log1, Write(Stb, false), BytesEvs(ClearBytes(16)), Write(Stb, true));
    InitLog(log0, log);
    InitFrom(c, log0);
  }

  /** `get_buttons` changes no RAM cell and not the display control. */
  lemma ScanEffect(c: Chip, samples: seq<bool>)
    requires c.stb && c.clk && |samples| == 32
    ensures var c' := Run(c, ScanEvs(samples));
      c'.stb && c'.clk && c'.regs.ram == c.regs.ram
      && c'.regs.active == c.regs.active && c'.regs.intensity == c.regs.intensity
  {
    var cmd, recv := [Write(Stb, false)] + ByteEvs(READ_KEYS), RecvsEvs(samples, 4);
    var body := cmd + recv;
    var c1, c2 := Run(c, cmd), Run(c, body);
    assert !c1.stb && !Listening(c1.regs.phase) && c1.regs.ram == c.regs.ram
      && c1.regs.active == c.regs.active && c1.regs.intensity == c.regs.intensity by {
      DataCommands();
      OpenDataCommand(c, READ_KEYS);
    }
    assert c2.regs == c1.regs by {
      RunAppend(c, cmd, recv);
      RecvsEvsShape(samples, 4);
      RunQuiet(c1, recv);
    }
    assert Run(c, ScanEvs(samples)).regs == Step(c2, Write(Stb, true)).regs by {
      assert ScanEvs(samples) == body + [Write(Stb, true)];
      RunAppend(c, body, [Write(Stb, true)]);
      RunOne(c2, Write(Stb, true));
    }
    ScanSettles(samples);
    RunLines(c, ScanEvs(samples));
  }
}
