/** Optional values: `None` stands for Python's `None` digit in `set_digit`. */
module Wrappers {
  datatype Option<+T> = None | Some(value: T)
}

/**
 * Bits of non-negative integers, least significant first.
 *
 * The driver moves bytes over a one-bit data line: `_send_byte` emits the bits
 * of a value from bit 0 upwards and `_recv_byte` reassembles a value from the
 * bits it samples.  `BitsOf` and `LsbValue` are the two directions of that
 * conversion; the lemmas below say they are inverse to each other.
 */
module Bits {

  function Pow2(n: nat): (p: nat)
    ensures p >= 1
  {
    if n == 0 then 1 else 2 * Pow2(n - 1)
  }

  function Pow(base: nat, n: nat): (p: nat)
    ensures base >= 1 ==> p >= 1
  {
    if n == 0 then 1 else base * Pow(base, n - 1)
  }

  /** Bit `i` of `v`, i.e. `(v >> i) & 1 == 1` for a non-negative Python int. */
  function Bit(v: nat, i: nat): bool
  {
    if i == 0 then v % 2 == 1 else Bit(v / 2, i - 1)
  }

  /** The `n` low bits of `v`, least significant first. */
  function BitsOf(v: nat, n: nat): (bits: seq<bool>)
    ensures |bits| == n
  {
    if n == 0 then [] else [v % 2 == 1] + BitsOf(v / 2, n - 1)
  }

  /** The number whose bit `i` is `bits[i]`. */
  function LsbValue(bits: seq<bool>): nat
  {
    if bits == [] then 0 else (if bits[0] then 1 else 0) + 2 * LsbValue(bits[1..])
  }

  /** `n` bits that are all clear. */
  function Clear(n: nat): (bits: seq<bool>)
    ensures |bits| == n && forall i | 0 <= i < n :: !bits[i]
  {
    if n == 0 then [] else [false] + Clear(n - 1)
  }

  lemma {:induction false} LsbValueClear(n: nat)
    ensures LsbValue(Clear(n)) == 0
  {
    if n > 0 {
      assert Clear(n)[1..] == Clear(n - 1);
      LsbValueClear(n - 1);
    }
  }

  lemma {:induction false} BitsOfAt(v: nat, n: nat, i: nat)
    requires i < n
    ensures BitsOf(v, n)[i] == Bit(v, i)
  {
    if i > 0 {
      BitsOfAt(v / 2, n - 1, i - 1);
    }
  }

  /** A value assembled from `k` bits fits in `k` bits. */
  lemma {:induction false} LsbValueBound(bits: seq<bool>)
    ensures LsbValue(bits) < Pow2(|bits|)
  {
    if bits != [] {
      LsbValueBound(bits[1..]);
    }
  }

  /** Bit `i` of the assembled value is the `i`-th bit of the input. */
  lemma {:induction false} BitOfLsbValue(bits: seq<bool>, i: nat)
    requires i < |bits|
    ensures Bit(LsbValue(bits), i) == bits[i]
  {
    if i > 0 {
      assert LsbValue(bits) / 2 == LsbValue(bits[1..]);
      BitOfLsbValue(bits[1..], i - 1);
    }
  }

  /** Appending a bit on the most significant side adds its weight. */
  lemma {:induction false} LsbValueSnoc(bits: seq<bool>, b: bool)
    ensures LsbValue(bits + [b]) == LsbValue(bits) + (if b then Pow2(|bits|) else 0)
  {
    if bits == [] {
      assert [b][1..] == [];
    } else {
      assert (bits + [b])[1..] == bits[1..] + [b];
      LsbValueSnoc(bits[1..], b);
    }
  }

  /**
   * One step of assembling the byte `bits` most significant side first:
   * after `i` steps the value holds `bits[..i]` in its top `i` bits; halving
   * it leaves bit 7 clear, and putting `bits[i]` there takes one step more.
   */
  lemma ShiftIn(bits: seq<bool>, i: nat)
    requires |bits| == 8 && i < 8
    ensures LsbValue(Clear(8 - i) + bits[..i]) / 2 < 0x80
    ensures LsbValue(Clear(7 - i) + bits[..i + 1])
         == LsbValue(Clear(8 - i) + bits[..i]) / 2 + (if bits[i] then 0x80 else 0)
  {
    var low := Clear(8 - i) + bits[..i];
    LsbValueDropClear(low);
    assert low[1..] == Clear(7 - i) + bits[..i];
    assert Clear(7 - i) + bits[..i + 1] == low[1..] + [bits[i]];
    LsbValueSnoc(low[1..], bits[i]);
    LsbValueBound(low[1..]);
    assert Pow2(7) == 0x80;
  }

  /**
   * The shift register of `_recv_byte` after `i` samples of `bits`: each
   * sample shifts it right by one and lands in bit 7.
   */
  function ShiftReg(bits: seq<bool>, i: nat): (v: nat)
    requires i <= |bits|
    ensures v < 0x100
  {
    if i == 0 then 0 else ShiftReg(bits, i - 1) / 2 + (if bits[i - 1] then 0x80 else 0)
  }

  /** After `i` of 8 samples the register holds them in its top `i` bits. */
  lemma {:induction false} ShiftRegValue(bits: seq<bool>, i: nat)
    requires |bits| == 8 && i <= 8
    ensures ShiftReg(bits, i) == LsbValue(Clear(8 - i) + bits[..i])
  {
    if i == 0 {
      assert Clear(8) + bits[..0] == Clear(8);
      LsbValueClear(8);
    } else {
      ShiftRegValue(bits, i - 1);
      ShiftIn(bits, i - 1);
    }
  }

  /** Eight samples shifted in, first sample last to move, give the byte whose bit `i` is sample `i`. */
  lemma ShiftRegByte(bits: seq<bool>)
    requires |bits| == 8
    ensures ShiftReg(bits, 8) == LsbValue(bits)
  {
    ShiftRegValue(bits, 8);
    assert Clear(0) + bits[..8] == bits;
  }

  /** Clear bits on the least significant side double the value once each. */
  lemma {:induction false} LsbValueDropClear(bits: seq<bool>)
    requires bits != [] && !bits[0]
    ensures LsbValue(bits[1..]) == LsbValue(bits) / 2
  {
  }

  /** Reading back `n` bits of `v` gives `v` modulo `2^n`. */
  lemma {:induction false} LsbValueOfBits(v: nat, n: nat)
    ensures LsbValue(BitsOf(v, n)) == v % Pow2(n)
  {
    if n > 0 {
      LsbValueOfBits(v / 2, n - 1);
      ModDouble(v, Pow2(n - 1));
    }
  }

  /** The other round trip: the bits of an assembled value are the input bits. */
  lemma {:induction false} BitsOfLsbValue(bits: seq<bool>)
    ensures BitsOf(LsbValue(bits), |bits|) == bits
  {
    if bits != [] {
      BitsOfLsbValue(bits[1..]);
    }
  }

  /** For a byte value, the bits go and come back unchanged. */
  lemma ByteRoundTrip(v: nat)
    requires v < 256
    ensures LsbValue(BitsOf(v, 8)) == v
  {
    LsbValueOfBits(v, 8);
  }

  lemma ModDouble(v: nat, p: nat)
    requires p >= 1
    ensures v % (2 * p) == v % 2 + 2 * ((v / 2) % p)
  {
    var q, r := (v / 2) / p, (v / 2) % p;
    assert v / 2 == p * q + r;
    assert v == (2 * p) * q + (2 * r + v % 2);
    ModUnique(v, 2 * p, q, 2 * r + v % 2);
  }

  lemma ModUnique(v: int, m: int, q: int, r: int)
    requires m > 0 && 0 <= r < m && v == m * q + r
    ensures v % m == r
  {
    var d := q - v / m;
    assert m * d == v % m - r;
    MulAwayFromZero(m, d);
  }

  lemma ModSmall(v: nat, m: nat)
    requires v < m
    ensures v % m == v
  {
  }

  lemma DivMod(n: nat, b: nat)
    requires b > 0
    ensures n == (n / b) * b + n % b
  {
  }

  lemma ModBound(n: nat, b: nat)
    requires b > 0
    ensures 0 <= n % b < b
  {
  }

  lemma DivShrinks(n: nat, b: nat)
    requires n > 0 && b >= 2
    ensures n / b < n
  {
  }

  /** `n < b * p` leaves a quotient below `p`. */
  lemma DivBelow(n: nat, b: nat, p: nat)
    requires b > 0 && n < b * p
    ensures n / b < p
  {
    var q := n / b;
    assert b * q <= n;
    MulMonotone(b, p, q);
  }

  lemma MulMonotone(b: nat, x: int, y: int)
    ensures x <= y ==> b * x <= b * y
  {
  }

  lemma MulAwayFromZero(m: int, d: int)
    requires m > 0
    ensures d >= 1 ==> m * d >= m
    ensures d <= -1 ==> m * d <= -m
  {
  }
}
