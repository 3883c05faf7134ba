/** The interrupt-driven receiver of `protocol_minion.c`: on each rising clock
    edge the EXTI2 handler decodes the receive pair and shifts the bit into
    `rx_buffer[rx_index / 8]`, counting bits in the 8-bit `rx_index`. */
module ProtocolMinion {
  import opened Bits
  import opened LibC
  import opened ProtocolMaster

  /** `MINION_ADDRESS` (protocol_config.h:18). */
  const MINION_ADDRESS: bv8 := 0x34

  /** The bit decoded from GPIOB's input register: `rx_high` keeps the RX_H
      mask (0 or 1) and `rx_low` the RX_L mask (0 or 2), and the bit is
      `rx_high > rx_low`. So it is 1 only for RX_H high with RX_L low; both
      lines high and both lines low decode to 0. */
  function Decode(idr: bv32): (bit: bool)
    ensures bit == (idr & 1 != 0 && idr & 2 == 0)
  {
    var rxHigh := (idr & 1) as bv8;
    var rxLow := (idr & 2) as bv8;
    rxHigh > rxLow
  }

  /** The receiver's globals and the EXTI2 pending flag, as values. */
  datatype RxVars = RxVars(buffer: seq<bv8>, index: Uint8, pending: bool)
  {
    predicate WellFormed() {
      |buffer| == BUFFER_SIZE
    }
  }

  /** One handled edge: shift `bit` into slot `index / 8`, then increment the
      8-bit index. The reset at `BUFFER_SIZE * 8` compares a `uint8_t` with
      2048 and never fires, so the index simply wraps at 256 and only the
      first 32 slots are ever written. */
  function Receive(v: RxVars, bit: bool): (r: RxVars)
    requires v.WellFormed()
    ensures r.WellFormed() && r.pending == v.pending
    ensures v.index / 8 < 32
    ensures r.index == (v.index + 1) % 256
  {
    var slot := v.index / 8;
    var buffer := v.buffer[slot := (v.buffer[slot] << 1) | BitValue(bit)];
    var next: int := (v.index + 1) % 256;
    var index: int := if next >= BUFFER_SIZE * 8 then 0 else next;
    RxVars(buffer, index, v.pending)
  }

  /** One handled edge drops the oldest bit of slot `index / 8` and appends
      the received one; every other slot keeps its contents. */
  lemma ReceiveSlot(v: RxVars, bit: bool)
    requires v.WellFormed()
    ensures var r := Receive(v, bit);
      Bits8(r.buffer[v.index / 8]) == Bits8(v.buffer[v.index / 8])[1..] + [bit] &&
      forall j | 0 <= j < BUFFER_SIZE && j != v.index / 8 :: r.buffer[j] == v.buffer[j]
  {
    ShiftIn8(v.buffer[v.index / 8], bit);
  }

  /** `EXTI2_IRQHandler` with GPIOB's input register reading `idr`: when the
      EXTI2 flag is pending, clear it and receive the decoded bit; otherwise
      change nothing. */
  function OnEdge(v: RxVars, idr: bv32): (r: RxVars)
    requires v.WellFormed()
    ensures r.WellFormed() && !r.pending
    ensures !v.pending ==> r == v
    ensures v.pending ==> r == Receive(v.(pending := false), Decode(idr))
  {
    if v.pending then Receive(v.(pending := false), Decode(idr)) else v
  }

  /** The state after handling edges that carry `bits`, in order. */
  function Run(v: RxVars, bits: seq<bool>): (r: RxVars)
    requires v.WellFormed()
    ensures r.WellFormed()
  {
    if bits == [] then v
    else Receive(Run(v, bits[..|bits| - 1]), bits[|bits| - 1])
  }

  /** A run advances the index by the number of bits, modulo 256. */
  lemma {:induction false} RunIndex(v: RxVars, bits: seq<bool>)
    requires v.WellFormed()
    ensures Run(v, bits).index == (v.index + |bits|) % 256
  {
    if bits != [] {
      RunIndex(v, bits[..|bits| - 1]);
      WrapStep(v.index + |bits| - 1);
    }
  }

  /** Incrementing a counter already reduced modulo 256 and reducing again is
      reducing the incremented value. */
  lemma WrapStep(a: int)
    ensures (a % 256 + 1) % 256 == (a + 1) % 256
  {
  }

  /** However many edges are handled, slots 32 to 255 keep their contents. */
  lemma {:induction false} RunKeepsHighSlots(v: RxVars, bits: seq<bool>)
    requires v.WellFormed()
    ensures forall j | 32 <= j < BUFFER_SIZE :: Run(v, bits).buffer[j] == v.buffer[j]
  {
    if bits != [] {
      RunKeepsHighSlots(v, bits[..|bits| - 1]);
      ReceiveSlot(Run(v, bits[..|bits| - 1]), bits[|bits| - 1]);
    }
  }

  /** After the first `k` bits of a byte received from an index at a slot
      boundary, the slot's last `k` bits are those bits and no other slot has
      changed. */
  lemma {:induction false} ReceivePrefix(v: RxVars, bits: seq<bool>, k: nat)
    requires v.WellFormed() && v.index % 8 == 0 && k <= |bits| == 8
    ensures Bits8(Run(v, bits[..k]).buffer[v.index / 8])[8 - k..] == bits[..k]
    ensures forall j | 0 <= j < BUFFER_SIZE && j != v.index / 8 :: Run(v, bits[..k]).buffer[j] == v.buffer[j]
  {
    if k > 0 {
      assert bits[..k][..k - 1] == bits[..k - 1];
      assert bits[..k] == bits[..k - 1] + [bits[k - 1]];
      ReceivePrefix(v, bits, k - 1);
      var u := Run(v, bits[..k - 1]);
      RunIndex(v, bits[..k - 1]);
      SameSlot(v.index, k - 1, u.index);
      ReceiveSlot(u, bits[k - 1]);
      ShiftSuffix(Bits8(u.buffer[v.index / 8]), Bits8(Run(v, bits[..k]).buffer[v.index / 8]), bits[k - 1], k);
    }
  }

  /** Shifting `b` into eight bits whose last `k - 1` are a given suffix makes
      their last `k` that suffix followed by `b`. */
  lemma ShiftSuffix(s: seq<bool>, t: seq<bool>, b: bool, k: int)
    requires |s| == 8 && t == s[1..] + [b] && 1 <= k <= 8
    ensures t[8 - k..] == s[8 - k + 1..] + [b]
  {
  }

  /** The `k`-th bit after a slot boundary still goes to that slot, and the
      index does not wrap before the slot is full. */
  lemma SameSlot(i: Uint8, k: int, j: int)
    requires i % 8 == 0 && 0 <= k < 8 && j == (i + k) % 256
    ensures j / 8 == i / 8
  {
    assert i + k < 256;
  }

  /** Eight handled edges from an index at a slot boundary leave exactly those
      eight bits, most significant first, in that slot, whatever it held
      before, and move the index on by eight. */
  lemma ReceiveByte(v: RxVars, bits: seq<bool>)
    requires v.WellFormed() && v.index % 8 == 0 && |bits| == 8
    ensures Bits8(Run(v, bits).buffer[v.index / 8]) == bits
    ensures Run(v, bits).index == (v.index + 8) % 256
    ensures forall j | 0 <= j < BUFFER_SIZE && j != v.index / 8 :: Run(v, bits).buffer[j] == v.buffer[j]
  {
    ReceivePrefix(v, bits, 8);
    assert bits[..8] == bits;
    RunIndex(v, bits);
  }

  /** `Protocol_Minion_ReadByte` as written reads `rx_buffer[rx_index - 1]`,
      but `rx_index` counts bits: after the first byte has arrived in slot 0 it
      reads slot 7, which no edge has written. */
  lemma ReadByteAfterFirstByte()
    ensures var v := Run(RxVars(Zeros(BUFFER_SIZE), 0, false), [true, true, true, true, true, true, true, true]);
      v.buffer[0] == 0xFF && v.index == 8 && ReadByte(v.buffer, v.index) == 0
  {
    var bits := [true, true, true, true, true, true, true, true];
    var z := RxVars(Zeros(BUFFER_SIZE), 0, false);
    ReceiveByte(z, bits);
    var v := Run(z, bits);
    assert Bits8(v.buffer[0]) == Bits8(0xFF);
    Bits8Injective(v.buffer[0], 0xFF);
    assert v.buffer[7] == z.buffer[7];
  }

  /** The slot that holds the most recently received bit: slot
      `(rx_index - 1) / 8`, with `rx_index - 1` taken modulo 256 as the
      8-bit counter wraps. */
  function ReadLastByte(rxBuffer: seq<bv8>, rxIndex: Uint8): (r: bv8)
    requires |rxBuffer| == BUFFER_SIZE
  {
    rxBuffer[((rxIndex + 255) % 256) / 8]
  }

  /** After a whole byte has arrived from a slot boundary, reading the slot of
      the last received bit returns that byte. */
  lemma ReadLastByteAfterByte(v: RxVars, bits: seq<bool>)
    requires v.WellFormed() && v.index % 8 == 0 && |bits| == 8
    ensures var w := Run(v, bits); Bits8(ReadLastByte(w.buffer, w.index)) == bits
  {
    ReceiveByte(v, bits);
    LastSlot(v.index);
  }

  /** Eight bits after a slot boundary, the bit before the index is in the
      slot that started at the boundary, also when the index has wrapped to 0. */
  lemma LastSlot(i: Uint8)
    requires i % 8 == 0
    ensures (((i + 8) % 256 + 255) % 256) / 8 == i / 8
  {
    if i == 248 {
    } else {
      assert i + 8 < 256;
      assert ((i + 8) % 256 + 255) % 256 == i + 7;
    }
  }

  /** Between 33 and 255 handled edges from a cleared index, the read as
      written returns slot `rx_index - 1`, which is 32 or above and so was
      never written by an edge: it returns what that slot held before. */
  lemma ReadByteUnwritten(v: RxVars, bits: seq<bool>)
    requires v.WellFormed() && v.index == 0 && 33 <= |bits| < 256
    ensures var w := Run(v, bits);
      w.index == |bits| && ReadByte(w.buffer, w.index) == v.buffer[|bits| - 1]
  {
    RunIndex(v, bits);
    RunKeepsHighSlots(v, bits);
  }

  /** `rx_index` counts handled edges modulo 256, so 256 edges from a cleared
      index bring it back to 0, where the read as written subscripts
      `rx_buffer[-1]`. */
  lemma IndexWrapsToZero(v: RxVars, bits: seq<bool>)
    requires v.WellFormed() && v.index == 0 && |bits| == BUFFER_SIZE
    ensures Run(v, bits).index == 0
  {
    RunIndex(v, bits);
  }

  /** At that wrap, the corrected read returns the byte that has just filled
      slot 31. */
  lemma ReadLastByteAtWrap(v: RxVars, bits: seq<bool>)
    requires v.WellFormed() && v.index == 248 && |bits| == 8
    ensures var w := Run(v, bits); w.index == 0 && Bits8(ReadLastByte(w.buffer, w.index)) == bits
  {
    ReadLastByteAfterByte(v, bits);
    RunIndex(v, bits);
  }

  /** The receiver: the globals of `protocol_minion.c` and the EXTI2 pending
      flag that the clock edge raises. */
  class Receiver {
    var rxBuffer: array<bv8>
    var rxIndex: Uint8
    var minionAddress: bv8
    /** Bit 2 of `EXTI->PR`. */
    var exti2Pending: bool

    ghost predicate Valid()
      reads this
    {
      rxBuffer.Length == BUFFER_SIZE
    }

    function Vars(): (v: RxVars)
      reads this, rxBuffer
      requires Valid()
      ensures v.WellFormed()
    {
      RxVars(rxBuffer[..], rxIndex, exti2Pending)
    }

    /** Program start: zero-initialised globals, `minion_address` set to
        `MINION_ADDRESS`, no edge pending. */
    constructor ()
      ensures Valid() && fresh(rxBuffer)
      ensures Vars() == RxVars(Zeros(BUFFER_SIZE), 0, false) && minionAddress == MINION_ADDRESS
    {
      rxBuffer := new bv8[BUFFER_SIZE](_ => 0);
      rxIndex := 0;
      minionAddress := MINION_ADDRESS;
      exti2Pending := false;
    }

    /** `Protocol_Minion_Init`: store the address (the peripheral set-up it
        also does is not part of this model). */
    method Init(address: bv8)
      modifies this`minionAddress
      ensures minionAddress == address
    {
      minionAddress := address;
    }

    /** `EXTI2_IRQHandler`, with GPIOB's input register reading `idr`. */
    method HandleEdge(idr: bv32)
      requires Valid()
      modifies this, rxBuffer
      ensures Valid() && rxBuffer == old(rxBuffer) && minionAddress == old(minionAddress)
      ensures Vars() == OnEdge(old(Vars()), idr)
    {
      if exti2Pending {
        exti2Pending := false;  // write one to clear
        var receivedBit := Decode(idr);
        var slot := rxIndex / 8;
        rxBuffer[slot] := rxBuffer[slot] << 1;
        rxBuffer[slot] := rxBuffer[slot] | BitValue(receivedBit);
        var next: int := (rxIndex + 1) % 256;  // uint8_t increment
        if next >= BUFFER_SIZE * 8 {
          next := 0;
        }
        rxIndex := next;
      }
    }

    /** `Protocol_Minion_ReadByte`. */
    method ReadByte() returns (data: bv8)
      requires Valid() && 1 <= rxIndex
      ensures data == ProtocolMaster.ReadByte(rxBuffer[..], rxIndex)
    {
      data := rxBuffer[rxIndex - 1];
    }
  }
}
