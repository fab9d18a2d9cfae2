/**
 * A reference model of the TM1638 controller's serial interface, used to give
 * the driver's pin events a meaning.
 *
 * It follows the command set the driver's comments refer to (TM1638 datasheet
 * sections 7.1 data command, 7.2 address command, 7.3 display control): a
 * falling strobe starts a transaction, the chip latches the data line on every
 * rising clock edge while the strobe is low, bits arrive least significant
 * first, the first byte of a transaction is a command and, after an address
 * command, every further byte is written to display RAM.  A rising strobe ends
 * the transaction and discards a partial byte.
 */
module TM1638 {
  import opened Bits
  import opened Bus

  /** Where the chip is within a transaction. */
  datatype Phase =
    | Idle     // strobe high
    | Command  // waiting for the command byte
    | Data     // after an address command: bytes go to RAM
    | Ignore   // after a data or display-control command, or while the keys are read

  /** The chip's registers. */
  datatype Regs = Regs(
    bits: seq<bool>,   // bits of the byte being clocked in, in arrival order
    phase: Phase,
    addr: nat,         // next RAM address
    fixed: bool,       // fixed address (no increment after a write)
    active: bool,      // display on
    intensity: nat,    // brightness 0..7
    ram: seq<nat>)     // 16 display cells

  /** The chip: the line levels it last saw, and its registers. */
  datatype Chip = Chip(stb: bool, clk: bool, dio: bool, regs: Regs)

  predicate Listening(phase: Phase)
  {
    phase == Command || phase == Data
  }

  /** The chip's reaction to a complete byte `b`. */
  function Accept(r: Regs, b: nat): (r': Regs)
    ensures r'.bits == r.bits && |r'.ram| == |r.ram|
  {
    match r.phase
    case Command =>
      if b / 64 == 1 then r.(fixed := (b / 4) % 2 == 1, phase := Ignore)                     // 7.1
      else if b / 64 == 2 then r.(active := (b / 8) % 2 == 1, intensity := b % 8, phase := Ignore)  // 7.3
      else if b / 64 == 3 then r.(addr := b % 16, phase := Data)                              // 7.2
      else r.(phase := Ignore)
    case Data =>
      r.(ram := if r.addr < |r.ram| then r.ram[r.addr := b] else r.ram,
         addr := if r.fixed then r.addr else r.addr + 1)
    case _ => r
  }

  /** A bit clocked in; the eighth completes a byte. */
  function Latch(r: Regs, x: bool): (r': Regs)
    ensures |r'.ram| == |r.ram|
  {
    if |r.bits + [x]| < 8 then r.(bits := r.bits + [x])
    else Accept(r.(bits := []), LsbValue(r.bits + [x]))
  }

  function Step(c: Chip, e: Ev): (c': Chip)
    ensures |c'.regs.ram| == |c.regs.ram|
  {
    match e
    case Write(Stb, high) =>
      if high then c.(stb := true, regs := c.regs.(phase := Idle, bits := []))
      else if c.stb then c.(stb := false, regs := c.regs.(phase := Command, bits := []))
      else c
    case Write(Clk, high) =>
      if high && !c.clk && !c.stb && Listening(c.regs.phase)
      then c.(clk := true, regs := Latch(c.regs, c.dio))
      else c.(clk := high)
    case Write(Dio, high) => c.(dio := high)
    case Config(_, _) => c
    case Read(_, _) => c
  }

  /** The chip after it has seen `evs`. */
  function Run(c: Chip, evs: seq<Ev>): (c': Chip)
    ensures |c'.regs.ram| == |c.regs.ram|
    decreases |evs|
  {
    if evs == [] then c else Run(Step(c, evs[0]), evs[1..])
  }

  /** The bytes of one transaction, from its command on. */
  function Receive(r: Regs, bytes: seq<nat>): (r': Regs)
    ensures r'.bits == r.bits && |r'.ram| == |r.ram|
  {
    if bytes == [] then r
    else Accept(Receive(r, bytes[..|bytes| - 1]), bytes[|bytes| - 1] % 256)
  }

  /** A whole strobe bracket carrying `bytes`. */
  function Transact(r: Regs, bytes: seq<nat>): Regs
  {
    Receive(r.(phase := Command, bits := []), bytes).(phase := Idle, bits := [])
  }

  lemma {:induction false} RunAppend(c: Chip, a: seq<Ev>, b: seq<Ev>)
    ensures Run(c, a + b) == Run(Run(c, a), b)
    decreases |a|
  {
    if a == [] {
      assert a + b == b;
    } else {
      assert (a + b)[1..] == a[1..] + b;
      RunAppend(Step(c, a[0]), a[1..], b);
    }
  }

  lemma RunOne(c: Chip, e: Ev)
    ensures Run(c, [e]) == Step(c, e)
  {
    assert [e][1..] == [];
  }

  /** The line levels the chip sees are the last ones driven. */
  lemma {:induction false} RunLines(c: Chip, log: seq<Ev>)
    ensures Run(c, log).stb == (if LastWrite(log, Stb).Some? then LastWrite(log, Stb).value else c.stb)
    ensures Run(c, log).clk == (if LastWrite(log, Clk).Some? then LastWrite(log, Clk).value else c.clk)
  {
    if log != [] {
      var init := log[..|log| - 1];
      assert log == init + [log[|log| - 1]];
      RunAppend(c, init, [log[|log| - 1]]);
      RunOne(Run(c, init), log[|log| - 1]);
      RunLines(c, init);
    }
  }

  /** One clock period sending `x` while the strobe is low. */
  lemma SendPeriod(c: Chip, x: bool)
    requires !c.stb
    ensures var c' := Run(c, [Write(Clk, false), Write(Dio, x), Write(Clk, true)]);
      !c'.stb && c'.clk && c'.regs == if Listening(c.regs.phase) then Latch(c.regs, x) else c.regs
  {
    var evs := [Write(Clk, false), Write(Dio, x), Write(Clk, true)];
    assert evs == [evs[0]] + [evs[1]] + [evs[2]];
    RunAppend(c, [evs[0]] + [evs[1]], [evs[2]]);
    RunAppend(c, [evs[0]], [evs[1]]);
    RunOne(c, evs[0]);
    RunOne(Step(c, evs[0]), evs[1]);
    RunOne(Step(Step(c, evs[0]), evs[1]), evs[2]);
  }

  /** Fewer than 8 bits only fill the shift register. */
  lemma {:induction false} RunPartialBits(c: Chip, bits: seq<bool>)
    requires !c.stb && c.clk && Listening(c.regs.phase) && |c.regs.bits| + |bits| < 8
    ensures var c' := Run(c, BitEvs(bits));
      !c'.stb && c'.clk && c'.regs == c.regs.(bits := c.regs.bits + bits)
  {
    if bits == [] {
      assert c.regs.bits + bits == c.regs.bits;
    } else {
      var init, x := bits[..|bits| - 1], bits[|bits| - 1];
      var period := [Write(Clk, false), Write(Dio, x), Write(Clk, true)];
      RunAppend(c, BitEvs(init), period);
      RunPartialBits(c, init);
      SendPeriod(Run(c, BitEvs(init)), x);
      assert c.regs.bits + init + [x] == c.regs.bits + bits;
    }
  }

  /** Clock periods outside a listening phase leave the registers alone. */
  lemma {:induction false} RunDeafBits(c: Chip, bits: seq<bool>)
    requires !c.stb && !Listening(c.regs.phase)
    ensures var c' := Run(c, BitEvs(bits));
      !c'.stb && c'.regs == c.regs && (bits != [] ==> c'.clk) && (bits == [] ==> c'.clk == c.clk)
  {
    if bits != [] {
      var init, x := bits[..|bits| - 1], bits[|bits| - 1];
      RunAppend(c, BitEvs(init), [Write(Clk, false), Write(Dio, x), Write(Clk, true)]);
      RunDeafBits(c, init);
      SendPeriod(Run(c, BitEvs(init)), x);
    }
  }

  /** Events that leave the strobe alone change no register while the chip is not listening. */
  lemma {:induction false} RunQuiet(c: Chip, evs: seq<Ev>)
    requires !c.stb && !Listening(c.regs.phase) && Untouched(evs, Stb)
    ensures !Run(c, evs).stb && Run(c, evs).regs == c.regs
    decreases |evs|
  {
    if evs != [] {
      assert evs[0].pin != Stb;
      RunQuiet(Step(c, evs[0]), evs[1..]);
    }
  }

  /** The chip receives exactly the byte `_send_byte(v)` sends: `v` modulo 256. */
  lemma RunByte(c: Chip, v: nat)
    requires !c.stb && c.clk && c.regs.bits == []
    ensures var c' := Run(c, ByteEvs(v));
      !c'.stb && c'.clk && c'.regs == Accept(c.regs, v % 256)
  {
    var bits := BitsOf(v, 8);
    assert LsbValue(bits) == v % 256 by {
      LsbValueOfBits(v, 8);
      assert Pow2(8) == 256;
    }
    if Listening(c.regs.phase) {
      RunEightBits(c, bits);
    } else {
      RunDeafBits(c, bits);
    }
  }

  /** Eight clock periods while listening complete one byte. */
  lemma RunEightBits(c: Chip, bits: seq<bool>)
    requires !c.stb && c.clk && c.regs.bits == [] && Listening(c.regs.phase) && |bits| == 8
    ensures var c' := Run(c, BitEvs(bits));
      !c'.stb && c'.clk && c'.regs == Accept(c.regs, LsbValue(bits))
  {
    var init := bits[..7];
    assert bits == init + [bits[7]];
    RunAppend(c, BitEvs(init), [Write(Clk, false), Write(Dio, bits[7]), Write(Clk, true)]);
    RunPartialBits(c, init);
    SendPeriod(Run(c, BitEvs(init)), bits[7]);
    assert c.regs.bits + init + [bits[7]] == bits;
    assert c.regs.(bits := init).(bits := []) == c.regs;
  }

  /** Bytes sent back to back inside a bracket are received in order. */
  lemma {:induction false} RunBytes(c: Chip, bytes: seq<nat>)
    requires !c.stb && c.clk && c.regs.bits == []
    ensures var c' := Run(c, BytesEvs(bytes));
      !c'.stb && c'.clk && c'.regs == Receive(c.regs, bytes)
  {
    if bytes != [] {
      var init := bytes[..|bytes| - 1];
      RunAppend(c, BytesEvs(init), ByteEvs(bytes[|bytes| - 1]));
      RunBytes(c, init);
      RunByte(Run(c, BytesEvs(init)), bytes[|bytes| - 1]);
    }
  }

  /** A strobe bracket carrying `bytes`, sent from an idle bus. */
  lemma RunFrame(c: Chip, bytes: seq<nat>)
    requires c.stb && c.clk
    ensures var c' := Run(c, Frame(bytes));
      c'.stb && c'.clk && c'.regs == Transact(c.regs, bytes)
  {
    var c1 := Step(c, Write(Stb, false));
    RunOne(c, Write(Stb, false));
    RunAppend(c, [Write(Stb, false)], BytesEvs(bytes));
    RunAppend(c, [Write(Stb, false)] + BytesEvs(bytes), [Write(Stb, true)]);
    RunBytes(c1, bytes);
    RunOne(Run(c1, BytesEvs(bytes)), Write(Stb, true));
  }

  lemma {:induction false} ReceiveAppend(r: Regs, a: seq<nat>, b: seq<nat>)
    ensures Receive(r, a + b) == Receive(Receive(r, a), b)
  {
    if b == [] {
      assert a + b == a;
    } else {
      assert (a + b)[..|a + b| - 1] == a + b[..|b| - 1];
      ReceiveAppend(r, a, b[..|b| - 1]);
    }
  }

  /**
   * After an address command in auto-increment mode, consecutive bytes land
   * in consecutive cells (section 7.2).
   */
  lemma {:induction false} ReceiveBurst(r: Regs, bytes: seq<nat>)
    requires r.phase == Data && !r.fixed
    ensures var r' := Receive(r, bytes);
      r'.phase == Data && !r'.fixed && r'.addr == r.addr + |bytes|
      && r'.active == r.active && r'.intensity == r.intensity
      && forall i | 0 <= i < |r.ram| ::
           r'.ram[i] == if r.addr <= i < r.addr + |bytes| then bytes[i - r.addr] % 256 else r.ram[i]
  {
    if bytes != [] {
      var init := bytes[..|bytes| - 1];
      ReceiveBurst(r, init);
    }
  }
}
