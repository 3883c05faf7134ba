/** Bit-level vocabulary shared by both implementations of the bus.

    C's `uint8_t`, `uint16_t` and `uint32_t` are modelled as `bv8`, `bv16`
    and `bv32`, so that shifts truncate and increments wrap exactly as they do
    in the C code. Properties are stated over single bits and lists of bits,
    most significant bit first, which is the order in which every part of the
    protocol puts bits on the wire. */
module Bits {

  /** A `uint8_t` used as a counter or an index, kept as an integer so that it
      can serve as a shift amount or a subscript; an increment that can wrap
      is written out as `(x + 1) % 256`. */
  type Uint8 = x: int | 0 <= x < 256

  /** The C value `0` or `1` of a received or transmitted bit, as a `uint8_t`. */
  function BitValue(b: bool): (r: bv8) {
    if b then 1 else 0
  }

  /** The same value as a `uint16_t`. */
  function BitValue16(b: bool): (r: bv16) {
    if b then 1 else 0
  }

  /** The mask `1 << (7 - k)` of bit `k` of a byte, counting from the most
      significant bit, as a table. */
  function BitMask8(k: int): (r: bv8)
    requires 0 <= k < 8
  {
    if k == 0 then 0x80 else if k == 1 then 0x40 else if k == 2 then 0x20 else if k == 3 then 0x10
    else if k == 4 then 0x08 else if k == 5 then 0x04 else if k == 6 then 0x02 else 0x01
  }

  /** Bit `i` of a byte, counting from the most significant bit. */
  predicate Bit8(x: bv8, i: int)
    requires 0 <= i < 8
  {
    x & BitMask8(i) != 0
  }

  /** The eight bits of a byte, most significant first. */
  function Bits8(x: bv8): (r: seq<bool>)
    ensures |r| == 8 && forall i | 0 <= i < 8 :: r[i] == Bit8(x, i)
  {
    seq(8, i requires 0 <= i < 8 => Bit8(x, i))
  }

  /** The mask `1 << (9 - k)` of bit `k` of a ten-bit address, counting from
      the most significant bit, as a table. */
  function BitMask10(k: int): (r: bv16)
    requires 0 <= k < 10
  {
    if k == 0 then 0x200 else if k == 1 then 0x100 else if k == 2 then 0x80 else if k == 3 then 0x40
    else if k == 4 then 0x20 else if k == 5 then 0x10 else if k == 6 then 0x08 else if k == 7 then 0x04
    else if k == 8 then 0x02 else 0x01
  }

  /** Bit `i` of the ten low bits of a `uint16_t`, counting from bit 9. */
  predicate Bit10(a: bv16, i: int)
    requires 0 <= i < 10
  {
    a & BitMask10(i) != 0
  }

  /** The low ten bits of a `uint16_t` (a bus address), most significant first. */
  function Low10(a: bv16): (r: seq<bool>)
    ensures |r| == 10 && forall i | 0 <= i < 10 :: r[i] == Bit10(a, i)
  {
    seq(10, i requires 0 <= i < 10 => Bit10(a, i))
  }

  /** The start pattern `0b11001`, most significant bit first. */
  const StartPattern: seq<bool> := [true, true, false, false, true]

  /** A byte is determined by its eight bits. */
  lemma Bits8Injective(x: bv8, y: bv8)
    requires Bits8(x) == Bits8(y)
    ensures x == y
  {
    assert Bits8(x)[0] == Bits8(y)[0] && Bits8(x)[1] == Bits8(y)[1];
    assert Bits8(x)[2] == Bits8(y)[2] && Bits8(x)[3] == Bits8(y)[3];
    assert Bits8(x)[4] == Bits8(y)[4] && Bits8(x)[5] == Bits8(y)[5];
    assert Bits8(x)[6] == Bits8(y)[6] && Bits8(x)[7] == Bits8(y)[7];
    assert x == (x & 0x80) | (x & 0x40) | (x & 0x20) | (x & 0x10) | (x & 0x08) | (x & 0x04) | (x & 0x02) | (x & 0x01);
  }

  /** The table agrees with the C expression `1 << (7 - k)`. */
  lemma MaskShift8(k: int)
    requires 0 <= k < 8
    ensures (1 as bv8) << (7 - k) == BitMask8(k)
  {
    if k == 0 {} else if k == 1 {} else if k == 2 {} else if k == 3 {}
    else if k == 4 {} else if k == 5 {} else if k == 6 {} else {}
  }

  /** The table agrees with the C expression `1 << (9 - k)`. */
  lemma MaskShift10(k: int)
    requires 0 <= k < 10
    ensures (1 as bv16) << (9 - k) == BitMask10(k)
  {
    if k == 0 {} else if k == 1 {} else if k == 2 {} else if k == 3 {} else if k == 4 {}
    else if k == 5 {} else if k == 6 {} else if k == 7 {} else if k == 8 {} else {}
  }

  /** Only bit `k` of the mask of bit `k` is set. */
  lemma MaskBit8(k: int, i: int)
    requires 0 <= k < 8 && 0 <= i < 8
    ensures Bit8(BitMask8(k), i) == (i == k)
  {
    if k == 0 {} else if k == 1 {} else if k == 2 {} else if k == 3 {}
    else if k == 4 {} else if k == 5 {} else if k == 6 {} else {}
  }

  /** `(x >> (7 - k)) & 1`, the C idiom for bit `k` counted from the most
      significant bit, is 1 exactly when that bit is set. */
  lemma ExtractBit8(x: bv8, k: int)
    requires 0 <= k < 8
    ensures (x >> (7 - k)) & 1 == BitValue(Bit8(x, k))
  {
    if k == 0 {} else if k == 1 {} else if k == 2 {} else if k == 3 {}
    else if k == 4 {} else if k == 5 {} else if k == 6 {} else {}
  }

  /** `b << (7 - k)`, the C idiom for placing a received bit, is the mask of
      bit `k` when the bit is set and zero otherwise. */
  lemma PlaceBit8(b: bool, k: int)
    requires 0 <= k < 8
    ensures BitValue(b) << (7 - k) == if b then BitMask8(k) else 0
  {
    MaskShift8(k);
  }

  /** OR-ing in the mask of bit `k` when `b` holds changes bit `i` only if
      `i` is `k`. */
  lemma OrMaskBit8(x: bv8, b: bool, k: int, i: int)
    requires 0 <= k < 8 && 0 <= i < 8
    ensures Bit8(x | (if b then BitMask8(k) else 0), i) == if i == k then Bit8(x, i) || b else Bit8(x, i)
  {
    if b {
      var m, n := BitMask8(k), BitMask8(i);
      assert (x | m) & n == (x & n) | (m & n);
      MaskBit8(k, i);
    } else {
      assert x | 0 == x;
    }
  }

  /** `x` with the first `k` bits of `bits` OR-ed in at bit positions 0, 1, ...
      counted from the most significant bit: how the data phase accumulates a
      received byte, one edge at a time. */
  function OrInBits(x: bv8, bits: seq<bool>, k: nat): (r: bv8)
    requires k <= |bits| && k <= 8
  {
    if k == 0 then x
    else OrInBits(x, bits, k - 1) | (if bits[k - 1] then BitMask8(k - 1) else 0)
  }

  /** Accumulated into a cleared byte, the first `k` bits land in the first `k`
      positions, most significant first, and the other positions stay clear. */
  lemma {:induction false} OrInBitsFromZero(bits: seq<bool>, k: nat)
    requires k <= |bits| && k <= 8
    ensures forall i | 0 <= i < 8 :: Bit8(OrInBits(0, bits, k), i) == (i < k && bits[i])
  {
    if k > 0 {
      var x := OrInBits(0, bits, k - 1);
      OrInBitsFromZero(bits, k - 1);
      forall i | 0 <= i < 8 ensures Bit8(OrInBits(0, bits, k), i) == (i < k && bits[i]) {
        OrMaskBit8(x, bits[k - 1], k - 1, i);
      }
    }
  }

  /** One bit of a byte shifted left by one with a new bit OR-ed in. */
  lemma ShiftBit8(s: bv8, b: bool, i: int)
    requires 0 <= i < 8
    ensures Bit8((s << 1) | BitValue(b), i) == if i < 7 then Bit8(s, i + 1) else b
  {
    if i == 0 {} else if i == 1 {} else if i == 2 {} else if i == 3 {}
    else if i == 4 {} else if i == 5 {} else if i == 6 {} else {}
  }

  /** Shifting a byte left by one and OR-ing in a bit drops the oldest bit and
      appends the new one. */
  lemma ShiftIn8(s: bv8, b: bool)
    ensures Bits8((s << 1) | BitValue(b)) == Bits8(s)[1..] + [b]
  {
    var r := (s << 1) | BitValue(b);
    forall i | 0 <= i < 8 ensures Bits8(r)[i] == (Bits8(s)[1..] + [b])[i] {
      ShiftBit8(s, b, i);
    }
  }

  /** One of the ten low bits of a `uint16_t` shifted left by one with a new
      bit OR-ed in. */
  lemma ShiftBit10(s: bv16, b: bool, i: int)
    requires 0 <= i < 10
    ensures Bit10((s << 1) | BitValue16(b), i) == if i < 9 then Bit10(s, i + 1) else b
  {
    if i == 0 {} else if i == 1 {} else if i == 2 {} else if i == 3 {} else if i == 4 {}
    else if i == 5 {} else if i == 6 {} else if i == 7 {} else if i == 8 {} else {}
  }

  /** The same for the low ten bits of a 16-bit register. */
  lemma ShiftIn10(s: bv16, b: bool)
    ensures Low10((s << 1) | BitValue16(b)) == Low10(s)[1..] + [b]
  {
    var r := (s << 1) | BitValue16(b);
    forall i | 0 <= i < 10 ensures Low10(r)[i] == (Low10(s)[1..] + [b])[i] {
      ShiftBit10(s, b, i);
    }
  }

  /** `a & (1 << (9 - k))` tests bit `k` of a ten-bit address, counting from the
      most significant bit. */
  lemma TestAddressBit(a: bv16, k: int)
    requires 0 <= k < 10
    ensures (a & (1 << (9 - k)) != 0) == Bit10(a, k)
  {
    MaskShift10(k);
  }

  /** Bit `k` of `0b11001`, taken either way the code takes it, is entry `k` of
      the start pattern. */
  lemma StartPatternBit(k: int)
    requires 0 <= k < 5
    ensures (((0x19 as bv8) >> (4 - k)) & 1 != 0) == StartPattern[k]
    ensures ((0x19 as bv8) & (1 << (4 - k)) != 0) == StartPattern[k]
  {
  }
}
