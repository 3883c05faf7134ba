/** The blocking controller of `protocol_master.c`: the byte serialiser, the
    address sender and the arbitration loop. Each writes the transmit pair and
    pulses the clock; those port writes are recorded, in order, as a trace of
    pin events, and the bus reads of the arbitration loop are an input list. */
module ProtocolMaster {
  import opened Bits

  /** `BUFFER_SIZE` (protocol_config.h:14). */
  const BUFFER_SIZE: nat := 256

  /** `MASTER_ADDRESS` (protocol_config.h:17). */
  const MASTER_ADDRESS: bv8 := 0x12

  /** One observable action on the port: the two BSRR writes that set TX_H and
      TX_L, or one `clock_pulse()` (clock pin high, delay, low, delay). */
  datatype PinEvent = Drive(txH: bool, txL: bool) | Pulse

  /** The events of sending `bits` in order: for each bit, the pair driven
      differentially (a 1 drives TX_H high and TX_L low, a 0 the reverse), then
      one clock pulse. */
  function BitsTrace(bits: seq<bool>): (t: seq<PinEvent>)
    ensures |t| == 2 * |bits|
    ensures forall i | 0 <= i < |bits| :: t[2 * i] == Drive(bits[i], !bits[i]) && t[2 * i + 1] == Pulse
  {
    if bits == [] then []
    else
      var b := bits[|bits| - 1];
      BitsTrace(bits[..|bits| - 1]) + [Drive(b, !b), Pulse]
  }

  /** The number of clock pulses in a trace. */
  function Pulses(t: seq<PinEvent>): (n: nat) {
    if t == [] then 0 else Pulses(t[..|t| - 1]) + (if t[|t| - 1] == Pulse then 1 else 0)
  }

  /** Sending `n` bits pulses the clock exactly `n` times. */
  lemma {:induction false} PulsesPerBit(bits: seq<bool>)
    ensures Pulses(BitsTrace(bits)) == |bits|
  {
    if bits != [] {
      var b := bits[|bits| - 1];
      var t := BitsTrace(bits[..|bits| - 1]);
      PulsesPerBit(bits[..|bits| - 1]);
      assert BitsTrace(bits) == (t + [Drive(b, !b)]) + [Pulse];
      assert (t + [Drive(b, !b)])[..|t|] == t;
    }
  }

  /** Every pair driven while sending is complementary. */
  lemma Complementary(bits: seq<bool>, e: PinEvent)
    requires e in BitsTrace(bits) && e.Drive?
    ensures e.txH != e.txL
  {
    var t := BitsTrace(bits);
    var j :| 0 <= j < |t| && t[j] == e;
    if j % 2 == 0 {
      assert t[2 * (j / 2)] == Drive(bits[j / 2], !bits[j / 2]);
    } else {
      assert t[2 * (j / 2) + 1] == Pulse;
    }
  }

  /** `Protocol_Master_SendByte`: eight bit periods, most significant bit
      first, each followed by one clock pulse. */
  method SendByte(data: bv8) returns (trace: seq<PinEvent>)
    ensures trace == BitsTrace(Bits8(data))
  {
    var d := data;
    trace := [];
    for i := 0 to 8
      invariant trace == BitsTrace(Bits8(data)[..i])
      invariant Remaining(d, data, i)
    {
      ShiftStep(data, d, d << 1, i);
      TraceStep(Bits8(data), i);
      if d & 0x80 != 0 {
        trace := trace + [Drive(true, false)];   // TX_H high, TX_L low
      } else {
        trace := trace + [Drive(false, true)];   // TX_H low, TX_L high
      }
      d := d << 1;
      trace := trace + [Pulse];
    }
    assert Bits8(data)[..8] == Bits8(data);
  }

  /** After `i` shifts of the loop, the first `8 - i` bits of `d` are the bits
      of `data` still to send. */
  predicate Remaining(d: bv8, data: bv8, i: int)
    requires 0 <= i <= 8
  {
    forall j | 0 <= j < 8 - i :: Bit8(d, j) == Bit8(data, j + i)
  }

  /** One turn of the loop: the top bit of `d`, tested either way the C code
      tests it, is bit `i` of `data`, and `d << 1` holds the bits after it. */
  lemma ShiftStep(data: bv8, d: bv8, e: bv8, i: int)
    requires 0 <= i < 8 && Remaining(d, data, i) && e == d << 1
    ensures (d & 0x80 != 0) == Bits8(data)[i]
    ensures (d & 0x80) >> 7 == BitValue(Bits8(data)[i])
    ensures Remaining(e, data, i + 1)
  {
    assert Bit8(d, 0) == Bit8(data, i);
    assert (d << 1) | BitValue(false) == e;
    forall j | 0 <= j < 8 - (i + 1) ensures Bit8(e, j) == Bit8(data, j + i + 1) {
      ShiftBit8(d, false, j);
    }
  }

  /** The trace of the first `i + 1` bits extends that of the first `i` by one
      bit period. */
  lemma TraceStep(bits: seq<bool>, i: int)
    requires 0 <= i < |bits|
    ensures BitsTrace(bits[..i + 1]) == BitsTrace(bits[..i]) + [Drive(bits[i], !bits[i])] + [Pulse]
  {
    assert bits[..i + 1][..i] == bits[..i];
  }

  /** `Protocol_Master_SendAddress`: exactly the trace of sending the address
      as a byte. */
  method SendAddress(address: bv8) returns (trace: seq<PinEvent>)
    ensures trace == BitsTrace(Bits8(address))
  {
    trace := SendByte(address);
  }

  /** The first `k` bits driven and sensed agree. */
  predicate Agree(bits: seq<bool>, sensed: seq<bool>, k: nat)
    requires k <= |bits| && k <= |sensed|
  {
    k == 0 || (Agree(bits, sensed, k - 1) && bits[k - 1] == sensed[k - 1])
  }

  /** How many bits the arbitration loop drives: bits are driven while the
      bus echoes them, and the first one it does not echo is the last. */
  function DrivenCount(bits: seq<bool>, sensed: seq<bool>): (n: nat)
    requires |bits| == |sensed|
    ensures n <= |bits|
  {
    if bits == [] then 0
    else if bits[0] != sensed[0] then 1
    else 1 + DrivenCount(bits[1..], sensed[1..])
  }

  /** Agreement on a prefix is agreement bit by bit. */
  lemma {:induction false} AgreeAll(bits: seq<bool>, sensed: seq<bool>, k: nat)
    requires k <= |bits| && k <= |sensed|
    ensures Agree(bits, sensed, k) <==> forall j | 0 <= j < k :: bits[j] == sensed[j]
  {
    if k > 0 {
      AgreeAll(bits, sensed, k - 1);
    }
  }

  /** When the bus echoes every bit, all of them are driven. */
  lemma {:induction false} DrivenAll(bits: seq<bool>, sensed: seq<bool>)
    requires |bits| == |sensed| && Agree(bits, sensed, |bits|)
    ensures DrivenCount(bits, sensed) == |bits|
  {
    AgreeAll(bits, sensed, |bits|);
    if bits != [] {
      AgreeAll(bits[1..], sensed[1..], |bits| - 1);
      assert Agree(bits[1..], sensed[1..], |bits| - 1) by {
        forall j | 0 <= j < |bits| - 1 ensures bits[1..][j] == sensed[1..][j] {
          assert bits[j + 1] == sensed[j + 1];
        }
      }
      DrivenAll(bits[1..], sensed[1..]);
    }
  }

  /** The first bit the bus does not echo, bit `i`, is the last driven: the
      loop drives `i + 1` bits. */
  lemma {:induction false} Disagreement(bits: seq<bool>, sensed: seq<bool>, i: nat)
    requires |bits| == |sensed| && i < |bits| && Agree(bits, sensed, i) && bits[i] != sensed[i]
    ensures DrivenCount(bits, sensed) == i + 1
  {
    AgreeAll(bits, sensed, i);
    if i > 0 {
      assert bits[0] == sensed[0];
      AgreeAll(bits[1..], sensed[1..], i - 1);
      assert Agree(bits[1..], sensed[1..], i - 1) by {
        forall j | 0 <= j < i - 1 ensures bits[1..][j] == sensed[1..][j] {
          assert bits[j + 1] == sensed[j + 1];
        }
      }
      Disagreement(bits[1..], sensed[1..], i - 1);
    }
  }

  /** `handle_bus_arbitration(address)`, with `sensed[i]` the value of RX_H
      read after the `i`-th clock pulse: it drives the address bits most
      significant first and stops right after the first bit the bus does not
      echo. */
  method HandleBusArbitration(address: bv8, sensed: seq<bool>) returns (trace: seq<PinEvent>)
    requires |sensed| == 8
    ensures trace == BitsTrace(Bits8(address)[..DrivenCount(Bits8(address), sensed)])
  {
    var a := address;
    trace := [];
    var i := 0;
    while i < 8
      invariant 0 <= i <= 8
      invariant trace == BitsTrace(Bits8(address)[..i])
      invariant Remaining(a, address, i)
      invariant Agree(Bits8(address), sensed, i)
    {
      var lost;
      trace, lost := ArbitrationPeriod(address, a, i, sensed, sensed[i], trace);
      if lost {
        // another controller holds the bus: give up
        return;
      }
      a := a << 1;
      i := i + 1;
    }
    assert Bits8(address)[..8] == Bits8(address);
    DrivenAll(Bits8(address), sensed);
  }

  /** One turn of the arbitration loop on the shifted address `a`, after `i`
      bits have been driven and echoed: drive the top bit of `a` on the pair,
      pulse the clock, and compare the bit with `rxHigh`, the value of RX_H
      read after the pulse. The bus disagrees when a 0 was driven and RX_H is
      high, or a 1 was driven and RX_H is low; that bit is then the last one
      driven. */
  method ArbitrationPeriod(ghost address: bv8, a: bv8, ghost i: int, ghost sensed: seq<bool>, rxHigh: bool,
                           before: seq<PinEvent>)
    returns (events: seq<PinEvent>, lost: bool)
    requires 0 <= i < 8 && |sensed| == 8 && rxHigh == sensed[i]
    requires Remaining(a, address, i) && Agree(Bits8(address), sensed, i)
    requires before == BitsTrace(Bits8(address)[..i])
    ensures events == BitsTrace(Bits8(address)[..i + 1])
    ensures lost == (Bits8(address)[i] != rxHigh)
    ensures lost ==> DrivenCount(Bits8(address), sensed) == i + 1
    ensures !lost ==> Agree(Bits8(address), sensed, i + 1)
    ensures Remaining(a << 1, address, i + 1)
  {
    var bit: bv8 := (a & 0x80) >> 7;
    ShiftStep(address, a, a << 1, i);
    TraceStep(Bits8(address), i);
    if bit != 0 {
      events := before + [Drive(true, false)];   // TX_H high, TX_L low
    } else {
      events := before + [Drive(false, true)];   // TX_H low, TX_L high
    }
    events := events + [Pulse];
    lost := (bit == 0 && rxHigh) || (bit == 1 && !rxHigh);
    if lost {
      Disagreement(Bits8(address), sensed, i);
    }
  }

  /** `Protocol_Master_Arbitrate`: the arbitration loop on `MASTER_ADDRESS`. */
  method Arbitrate(sensed: seq<bool>) returns (trace: seq<PinEvent>)
    requires |sensed| == 8
    ensures trace == BitsTrace(Bits8(MASTER_ADDRESS)[..DrivenCount(Bits8(MASTER_ADDRESS), sensed)])
  {
    trace := HandleBusArbitration(MASTER_ADDRESS, sensed);
  }

  /** `rx_buffer[rx_index - 1]`, the read both `Protocol_Master_ReadByte` and
      `Protocol_Minion_ReadByte` perform; `rx_index` must be at least 1 for the
      subscript to be in the buffer. */
  function ReadByte(rxBuffer: seq<bv8>, rxIndex: Uint8): (r: bv8)
    requires |rxBuffer| == BUFFER_SIZE && 1 <= rxIndex
  {
    rxBuffer[rxIndex - 1]
  }
}
