/**
 * The three-wire bus as a log of pin events.
 *
 * The driver owns a strobe pin (STB), a clock pin (CLK) and a bidirectional
 * data pin (DIO).  Every call it makes on a pin becomes one event: driving a
 * level, changing a pin's mode, or sampling the data line.  The functions here
 * give the event sequence of each transport primitive; the driver's methods
 * are proved to append exactly these.
 */
module Bus {
  import opened Wrappers
  import opened Bits

  datatype Pin = Stb | Clk | Dio

  /** Pin modes the driver selects: push-pull output, open-drain output, input. */
  datatype Mode = Out | OpenDrain | In

  datatype Ev =
    | Write(pin: Pin, high: bool)   // `pin(level)`
    | Config(pin: Pin, mode: Mode)  // `pin.init(mode=..., pull=None)`
    | Read(pin: Pin, high: bool)    // `pin()`, returning `high`

  /** Event `k` (0, 1 or 2) of the clock period that sends bit `b`. */
  function SendStep(k: nat, b: bool): Ev
  {
    if k == 0 then Write(Clk, false) else if k == 1 then Write(Dio, b) else Write(Clk, true)
  }

  /** Event `k` of the clock period in which the data line is sampled as `b`. */
  function SampleStep(k: nat, b: bool): Ev
  {
    if k == 0 then Write(Clk, false) else if k == 1 then Read(Dio, b) else Write(Clk, true)
  }

  /** One clock period per bit: clock low, data level, clock high. */
  function BitEvs(bits: seq<bool>): (evs: seq<Ev>)
    ensures |evs| == 3 * |bits|
  {
    if bits == [] then []
    else BitEvs(bits[..|bits| - 1]) + [Write(Clk, false), Write(Dio, bits[|bits| - 1]), Write(Clk, true)]
  }

  /** What `_send_byte(v)` puts on the bus: the 8 low bits of `v`, least significant first. */
  function ByteEvs(v: nat): (evs: seq<Ev>)
    ensures |evs| == 24
  {
    BitEvs(BitsOf(v, 8))
  }

  /** Several `_send_byte` calls in a row. */
  function BytesEvs(bytes: seq<nat>): (evs: seq<Ev>)
    ensures |evs| == 24 * |bytes|
  {
    if bytes == [] then []
    else BytesEvs(bytes[..|bytes| - 1]) + ByteEvs(bytes[|bytes| - 1])
  }

  /** Bytes sent inside one strobe-low / strobe-high bracket. */
  function Frame(bytes: seq<nat>): (evs: seq<Ev>)
    ensures |evs| == 24 * |bytes| + 2
  {
    [Write(Stb, false)] + BytesEvs(bytes) + [Write(Stb, true)]
  }

  /** One clock period per sample: clock low, read the data line, clock high. */
  function SampleEvs(samples: seq<bool>): (evs: seq<Ev>)
    ensures |evs| == 3 * |samples|
  {
    if samples == [] then []
    else SampleEvs(samples[..|samples| - 1]) + [Write(Clk, false), Read(Dio, samples[|samples| - 1]), Write(Clk, true)]
  }

  /** What `_recv_byte` does when the data line reads `samples`. */
  function RecvEvs(samples: seq<bool>): (evs: seq<Ev>)
    ensures |evs| == 3 * |samples| + 2
  {
    [Config(Dio, In)] + SampleEvs(samples) + [Config(Dio, OpenDrain)]
  }

  /** The clock period sampling `samples[i]`, appended one event at a time. */
  lemma SampleLog(log: seq<Ev>, samples: seq<bool>, i: nat)
    requires i < |samples|
    ensures log + SampleEvs(samples[..i]) + [Write(Clk, false)] + [Read(Dio, samples[i])] + [Write(Clk, true)]
         == log + SampleEvs(samples[..i + 1])
  {
    assert samples[..i + 1][..i] == samples[..i];
  }

  /** Regrouping a log extended piece by piece. */
  lemma Assoc<T>(a: seq<T>, b: seq<T>, c: seq<T>)
    ensures a + b + c == a + (b + c)
  {
  }

  lemma Assoc4<T>(log: seq<T>, a: seq<T>, b: seq<T>, c: seq<T>, d: seq<T>)
    ensures log + a + b + c + d == log + (a + b + c + d)
  {
  }

  /** A bracket appended to a log is the log followed by the whole bracket. */
  lemma Bracket<T>(log: seq<T>, open: T, body: seq<T>, close: T)
    ensures log + [open] + body + [close] == log + ([open] + body + [close])
  {
  }

  /** The last level driven on `p`, if any. */
  function LastWrite(log: seq<Ev>, p: Pin): Option<bool>
  {
    if log == [] then None
    else if log[|log| - 1].Write? && log[|log| - 1].pin == p then Some(log[|log| - 1].high)
    else LastWrite(log[..|log| - 1], p)
  }

  /** The last mode selected for `p`, if any. */
  function LastMode(log: seq<Ev>, p: Pin): Option<Mode>
  {
    if log == [] then None
    else if log[|log| - 1].Config? && log[|log| - 1].pin == p then Some(log[|log| - 1].mode)
    else LastMode(log[..|log| - 1], p)
  }

  /** No event of `evs` concerns pin `p`. */
  predicate Untouched(evs: seq<Ev>, p: Pin)
  {
    forall i | 0 <= i < |evs| :: evs[i].pin != p
  }

  /** The idle bus between operations: strobe and clock high, data pin open-drain. */
  predicate AtRest(log: seq<Ev>)
  {
    LastWrite(log, Stb) == Some(true) && LastWrite(log, Clk) == Some(true)
    && LastMode(log, Dio) == Some(OpenDrain)
  }

  /** Event `k` of clock period `i` carries bit `i`. */
  lemma {:induction false} BitEvsAt(bits: seq<bool>, i: nat, k: nat)
    requires i < |bits| && k < 3
    ensures BitEvs(bits)[3 * i + k] == SendStep(k, bits[i])
  {
    var init := bits[..|bits| - 1];
    if i < |init| {
      BitEvsAt(init, i, k);
      assert bits[i] == init[i];
    }
  }

  /**
   * `_send_byte(v)` is 8 clock periods (clock low, data bit, clock high); the
   * data bit of period `i` is bit `i` of `v`; the strobe is never touched.
   */
  lemma ByteEvsShape(v: nat)
    ensures |ByteEvs(v)| == 24
    ensures forall j | 0 <= j < 24 :: ByteEvs(v)[j] == SendStep(j % 3, Bit(v, j / 3))
    ensures Untouched(ByteEvs(v), Stb)
  {
    forall j | 0 <= j < 24
      ensures ByteEvs(v)[j] == SendStep(j % 3, Bit(v, j / 3))
    {
      BitEvsAt(BitsOf(v, 8), j / 3, j % 3);
      BitsOfAt(v, 8, j / 3);
    }
  }

  /** Event `k` of clock period `i` samples `samples[i]`. */
  lemma {:induction false} SampleEvsAt(samples: seq<bool>, i: nat, k: nat)
    requires i < |samples| && k < 3
    ensures SampleEvs(samples)[3 * i + k] == SampleStep(k, samples[i])
  {
    var init := samples[..|samples| - 1];
    if i < |init| {
      SampleEvsAt(init, i, k);
      assert samples[i] == init[i];
    }
  }

  /**
   * `_recv_byte` selects input mode before its first sample, samples once per
   * clock period, restores open-drain mode as its last action, and never
   * touches the strobe.
   */
  lemma RecvEvsShape(samples: seq<bool>)
    ensures |RecvEvs(samples)| == 3 * |samples| + 2
    ensures RecvEvs(samples)[0] == Config(Dio, In)
    ensures RecvEvs(samples)[|RecvEvs(samples)| - 1] == Config(Dio, OpenDrain)
    ensures forall j | 0 <= j < 3 * |samples| :: RecvEvs(samples)[j + 1] == SampleStep(j % 3, samples[j / 3])
    ensures Untouched(RecvEvs(samples), Stb)
  {
    var r := RecvEvs(samples);
    forall j | 0 <= j < 3 * |samples|
      ensures r[j + 1] == SampleStep(j % 3, samples[j / 3])
    {
      assert r[j + 1] == SampleEvs(samples)[j];
      SampleEvsAt(samples, j / 3, j % 3);
    }
    forall j | 0 <= j < |r|
      ensures r[j].pin != Stb
    {
      if 0 < j < |r| - 1 {
        assert r[j] == SampleStep((j - 1) % 3, samples[(j - 1) / 3]);
      }
    }
  }

  lemma BytesEvsOne(v: nat)
    ensures BytesEvs([v]) == ByteEvs(v)
  {
    assert [v][..0] == [];
  }

  lemma BytesEvsTwo(a: nat, b: nat)
    ensures BytesEvs([a, b]) == ByteEvs(a) + ByteEvs(b)
  {
    assert [a, b][..1] == [a];
    BytesEvsOne(a);
  }

  lemma {:induction false} BytesEvsUntouched(bytes: seq<nat>)
    ensures Untouched(BytesEvs(bytes), Stb)
  {
    if bytes != [] {
      BytesEvsUntouched(bytes[..|bytes| - 1]);
      ByteEvsShape(bytes[|bytes| - 1]);
    }
  }

  lemma {:induction false} LastWriteAppend(a: seq<Ev>, b: seq<Ev>, p: Pin)
    ensures LastWrite(a + b, p) == if LastWrite(b, p).Some? then LastWrite(b, p) else LastWrite(a, p)
  {
    if b != [] {
      assert (a + b)[..|a + b| - 1] == a + b[..|b| - 1];
      LastWriteAppend(a, b[..|b| - 1], p);
    } else {
      assert a + b == a;
    }
  }

  lemma {:induction false} LastModeAppend(a: seq<Ev>, b: seq<Ev>, p: Pin)
    ensures LastMode(a + b, p) == if LastMode(b, p).Some? then LastMode(b, p) else LastMode(a, p)
  {
    if b != [] {
      assert (a + b)[..|a + b| - 1] == a + b[..|b| - 1];
      LastModeAppend(a, b[..|b| - 1], p);
    } else {
      assert a + b == a;
    }
  }

  lemma {:induction false} UntouchedLast(evs: seq<Ev>, p: Pin)
    requires Untouched(evs, p)
    ensures LastWrite(evs, p) == None && LastMode(evs, p) == None
  {
    if evs != [] {
      UntouchedLast(evs[..|evs| - 1], p);
    }
  }

  /** A sequence of pin writes selects no mode. */
  lemma {:induction false} WritesOnlyLast(evs: seq<Ev>, p: Pin)
    requires forall i | 0 <= i < |evs| :: evs[i].Write?
    ensures LastMode(evs, p) == None
  {
    if evs != [] {
      WritesOnlyLast(evs[..|evs| - 1], p);
    }
  }

  /** After a non-empty run of bytes, the clock is high and the data pin's mode unchanged. */
  lemma BytesEvsLast(bytes: seq<nat>)
    requires bytes != []
    ensures LastWrite(BytesEvs(bytes), Clk) == Some(true)
    ensures LastMode(BytesEvs(bytes), Dio) == None
  {
    var last := BitsOf(bytes[|bytes| - 1], 8);
    assert BitEvs(last)[|BitEvs(last)| - 1] == Write(Clk, true);
    LastWriteAppend(BytesEvs(bytes[..|bytes| - 1]), ByteEvs(bytes[|bytes| - 1]), Clk);
    BytesEvsModes(bytes);
  }

  lemma {:induction false} BytesEvsModes(bytes: seq<nat>)
    ensures LastMode(BytesEvs(bytes), Dio) == None
  {
    if bytes != [] {
      var init, v := bytes[..|bytes| - 1], bytes[|bytes| - 1];
      BytesEvsModes(init);
      ByteEvsShape(v);
      LastModeAppend(BytesEvs(init), ByteEvs(v), Dio);
      WritesOnlyLast(ByteEvs(v), Dio);
    }
  }

  /** The levels driven on the data line, in order. */
  function DataBits(evs: seq<Ev>): seq<bool>
  {
    if evs == [] then []
    else
      var last := evs[|evs| - 1];
      DataBits(evs[..|evs| - 1]) + (if last.Write? && last.pin == Dio then [last.high] else [])
  }

  lemma {:induction false} DataBitsAppend(a: seq<Ev>, b: seq<Ev>)
    ensures DataBits(a + b) == DataBits(a) + DataBits(b)
  {
    if b == [] {
      assert a + b == a;
    } else {
      assert (a + b)[..|a + b| - 1] == a + b[..|b| - 1];
      DataBitsAppend(a, b[..|b| - 1]);
    }
  }

  lemma {:induction false} DataBitsOfBitEvs(bits: seq<bool>)
    ensures DataBits(BitEvs(bits)) == bits
  {
    if bits != [] {
      var init, x := bits[..|bits| - 1], bits[|bits| - 1];
      var period := [Write(Clk, false), Write(Dio, x), Write(Clk, true)];
      DataBitsOfBitEvs(init);
      DataBitsAppend(BitEvs(init), period);
      var p1, p2 := [Write(Clk, false)], [Write(Clk, false), Write(Dio, x)];
      assert p1[..0] == [] && p2[..1] == p1 && period[..2] == p2;
      assert DataBits(p1) == [];
      assert DataBits(p2) == [x];
      assert DataBits(period) == [x];
    }
  }

  /**
   * Round trip: assembling the data bits `_send_byte(v)` drives, in order, the
   * way `_recv_byte` assembles its samples gives back `v` (mod 256).
   */
  lemma SendThenAssemble(v: nat)
    ensures DataBits(ByteEvs(v)) == BitsOf(v, 8)
    ensures LsbValue(DataBits(ByteEvs(v))) == v % 256
    ensures v < 256 ==> LsbValue(DataBits(ByteEvs(v))) == v
  {
    DataBitsOfBitEvs(BitsOf(v, 8));
    assert Pow2(8) == 256;
    LsbValueOfBits(v, 8);
    if v < 256 {
      ModSmall(v, 256);
    }
  }
}
