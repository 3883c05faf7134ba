/** The responder of `minion.c`: the clock-edge state machine, the differential
    transmitter and the load/read helpers, over the file's static variables. */
module Minion {
  import opened Bits
  import opened Gpio
  import opened LibC
  import opened OverflowLog

  /** `MinionState` (minion.h:7-13). */
  datatype MinionState = Idle | ListenStart | ListenAddress | Selected | SendReceiveData

  /** `static const uint8_t startSequence = 0b11001;` */
  const START_SEQUENCE: bv8 := 0x19

  /** The file's statics and the GPIOB output register, as values. */
  datatype MinionVars = MinionVars(
    state: MinionState,
    txData: seq<bv8>,
    rxData: seq<bv8>,
    log: Log,
    bitIndex: Uint8,
    minionAddress: bv16,
    odr: bv32)
  {
    /** The buffers have their declared sizes. */
    predicate WellFormed() {
      |txData| == 8 && |rxData| == 8 && |log.buffer| == OLD_DATA_SIZE
    }
  }

  /** The `MINION_SEND_RECEIVE_DATA` case: below eight bits, send bit
      `bitIndex` of `txData[0]` and OR the received bit into `rxData[0]`;
      at eight, capture `rxData[0]`, clear the receive buffer and restart the
      count without leaving the state. */
  function DataEdge(v: MinionVars, receivedBit: bool): (r: MinionVars)
    requires v.WellFormed()
    ensures r.WellFormed()
  {
    if v.bitIndex < 8 then
      var bitToSend := (v.txData[0] >> (7 - v.bitIndex)) & 1;
      v.(odr := DriveDifferential(v.odr, bitToSend),
         rxData := v.rxData[0 := v.rxData[0] | (BitValue(receivedBit) << (7 - v.bitIndex))],
         bitIndex := v.bitIndex + 1)
    else
      v.(log := Capture(v.log, v.rxData[0]), rxData := Zeros(8), bitIndex := 0)
  }

  /** The `MINION_LISTEN_START` case: below five bits, count a bit that
      matches bit `4 - bitIndex` of the start sequence and restart on any
      other; at five, move to `MINION_LISTEN_ADDRESS`. */
  function StartEdge(v: MinionVars, receivedBit: bool): (r: MinionVars)
    requires v.WellFormed()
    ensures r.WellFormed()
  {
    if v.bitIndex < 5 then
      var expectedBit := (START_SEQUENCE >> (4 - v.bitIndex)) & 1;
      if BitValue(receivedBit) == expectedBit then v.(bitIndex := v.bitIndex + 1)
      else v.(bitIndex := 0)
    else
      v.(bitIndex := 0, state := ListenAddress)
  }

  /** The `MINION_LISTEN_ADDRESS` case: below ten bits, shift the received
      bit into `minionAddress`; at ten, compare the address (with itself, as
      minion.c:115 does) and restart the count. */
  function AddressEdge(v: MinionVars, receivedBit: bool): (r: MinionVars)
    requires v.WellFormed()
    ensures r.WellFormed()
  {
    if v.bitIndex < 10 then
      v.(minionAddress := (v.minionAddress << 1) | BitValue16(receivedBit),
         bitIndex := v.bitIndex + 1)
    else
      v.(state := if v.minionAddress == v.minionAddress then Selected else Idle, bitIndex := 0)
  }

  /** One rising clock edge with the receive pair sampled as (`pos`, `neg`):
      the specification of `Minion_Clock_Handle`. */
  function OnClock(v: MinionVars, pos: bool, neg: bool): (r: MinionVars)
    requires v.WellFormed()
    ensures r.WellFormed()
  {
    // equal lines are the stop condition, checked before the switch
    var w := if pos == neg then v.(state := Idle) else v;
    var receivedBit := pos;
    match w.state
    case Idle => w
    case ListenStart => StartEdge(w, receivedBit)
    case ListenAddress => AddressEdge(w, receivedBit)
    case Selected =>
      // no break: SELECTED falls through into SEND_RECEIVE_DATA on the same edge
      DataEdge(w.(state := SendReceiveData), receivedBit)
    case SendReceiveData => DataEdge(w, receivedBit)
  }

  /** The state after the given edges, in order. */
  function Run(v: MinionVars, edges: seq<Lines>): (r: MinionVars)
    requires v.WellFormed()
    ensures r.WellFormed()
  {
    if edges == [] then v
    else
      var last := edges[|edges| - 1];
      OnClock(Run(v, edges[..|edges| - 1]), last.pos, last.neg)
  }

  /** The responder node: the statics of `minion.c`. */
  class Node {
    var minionState: MinionState
    var txData: array<bv8>
    var rxData: array<bv8>
    var oldDataBuffer: array<bv8>
    var oldDataIndex: Uint8
    var bitIndex: Uint8
    var minionAddress: bv16
    /** GPIOB_ODR, whose pins 6 and 7 are the transmit pair. */
    var odr: bv32

    ghost predicate Valid()
      reads this
    {
      txData.Length == 8 && rxData.Length == 8 && oldDataBuffer.Length == OLD_DATA_SIZE &&
      txData != rxData && txData != oldDataBuffer && rxData != oldDataBuffer
    }

    function Vars(): (v: MinionVars)
      reads this, txData, rxData, oldDataBuffer
      requires Valid()
      ensures v.WellFormed()
    {
      MinionVars(minionState, txData[..], rxData[..], Log(oldDataBuffer[..], oldDataIndex),
                 bitIndex, minionAddress, odr)
    }

    /** Program start (zero-initialised statics) followed by
        `Minion_Init(address)`; `odr` is the output register as found. */
    constructor (address: bv16, odr: bv32)
      ensures Valid() && fresh(txData) && fresh(rxData) && fresh(oldDataBuffer)
      ensures Vars() == MinionVars(Idle, Zeros(8), Zeros(8), Log(Zeros(OLD_DATA_SIZE), 0), 0, address, odr)
    {
      txData := new bv8[8](_ => 0);
      rxData := new bv8[8](_ => 0);
      oldDataBuffer := new bv8[OLD_DATA_SIZE](_ => 0);
      oldDataIndex := 0;
      this.odr := odr;
      minionAddress := address;
      minionState := Idle;
      bitIndex := 0;
    }

    /** `Minion_Init(address)`, state part: store the address and go IDLE with
        the count restarted, from any state. */
    method Init(address: bv16)
      requires Valid()
      modifies this`minionAddress, this`minionState, this`bitIndex
      ensures Vars() == old(Vars()).(minionAddress := address, state := Idle, bitIndex := 0)
    {
      minionAddress := address;
      minionState := Idle;
      bitIndex := 0;
    }

    /** `Minion_SendBit`: drive the transmit pair for one bit. */
    method SendBit(bit: bv8)
      modifies this`odr
      ensures odr == DriveDifferential(old(odr), bit)
    {
      if bit != 0 {
        odr := odr | (1 << TX_POS_PIN);
        odr := odr & !(1 << TX_NEG_PIN);
      } else {
        odr := odr & !(1 << TX_POS_PIN);
        odr := odr | (1 << TX_NEG_PIN);
      }
    }

    /** `Minion_Clock_Handle`, with the receive pair sampled as (`pos`, `neg`). */
    method ClockHandle(pos: bool, neg: bool)
      requires Valid()
      modifies this, rxData, oldDataBuffer
      ensures Valid() && txData == old(txData) && rxData == old(rxData) && oldDataBuffer == old(oldDataBuffer)
      ensures Vars() == OnClock(old(Vars()), pos, neg)
    {
      var receivedBitPositive, receivedBitNegative := pos, neg;
      if receivedBitPositive == receivedBitNegative {
        minionState := Idle;  // stop condition
      }
      var receivedBit := receivedBitPositive;

      match minionState
      case Idle =>
      case ListenStart =>
        ListenStartCase(receivedBit);
      case ListenAddress =>
        ListenAddressCase(receivedBit);
      case Selected =>
        minionState := SendReceiveData;  // no break: falls through
        DataPhase(receivedBit);
      case SendReceiveData =>
        DataPhase(receivedBit);
    }

    /** The body of the `MINION_LISTEN_START` case. */
    method ListenStartCase(receivedBit: bool)
      requires Valid()
      modifies this`bitIndex, this`minionState
      ensures Vars() == StartEdge(old(Vars()), receivedBit)
    {
      if bitIndex < 5 {
        var expectedBit := (START_SEQUENCE >> (4 - bitIndex)) & 1;
        if BitValue(receivedBit) == expectedBit {
          bitIndex := bitIndex + 1;
        } else {
          bitIndex := 0;  // mismatch
        }
      } else {
        bitIndex := 0;
        minionState := ListenAddress;
      }
    }

    /** The body of the `MINION_LISTEN_ADDRESS` case. */
    method ListenAddressCase(receivedBit: bool)
      requires Valid()
      modifies this`bitIndex, this`minionState, this`minionAddress
      ensures Vars() == AddressEdge(old(Vars()), receivedBit)
    {
      if bitIndex < 10 {
        minionAddress := (minionAddress << 1) | BitValue16(receivedBit);
        bitIndex := bitIndex + 1;
      } else {
        // the address is compared with itself, so this always selects
        minionState := if minionAddress == minionAddress then Selected else Idle;
        bitIndex := 0;
      }
    }

    /** The body of the `MINION_SEND_RECEIVE_DATA` case. */
    method DataPhase(receivedBit: bool)
      requires Valid()
      modifies this, rxData, oldDataBuffer
      ensures Valid() && txData == old(txData) && rxData == old(rxData) && oldDataBuffer == old(oldDataBuffer)
      ensures Vars() == DataEdge(old(Vars()), receivedBit)
    {
      if bitIndex < 8 {
        ExchangeBit(receivedBit);
      } else {
        CompleteByte();
      }
    }

    /** One data bit: send bit `bitIndex` of `txData[0]`, receive into `rxData[0]`. */
    method ExchangeBit(receivedBit: bool)
      requires Valid() && bitIndex < 8
      modifies this, rxData
      ensures Valid() && txData == old(txData) && rxData == old(rxData) && oldDataBuffer == old(oldDataBuffer)
      ensures Vars() == DataEdge(old(Vars()), receivedBit)
    {
      var bitToSend := (txData[0] >> (7 - bitIndex)) & 1;
      SendBit(bitToSend);
      ReceiveBit(receivedBit);
      bitIndex := bitIndex + 1;
    }

    /** `rxData[0] |= (receivedBit << (7 - bitIndex));` */
    method ReceiveBit(receivedBit: bool)
      requires Valid() && bitIndex < 8
      modifies rxData
      ensures rxData[..] == old(rxData[..])[0 := old(rxData[0]) | (BitValue(receivedBit) << (7 - bitIndex))]
    {
      rxData[0] := rxData[0] | (BitValue(receivedBit) << (7 - bitIndex));
    }

    /** The completion edge: capture `rxData[0]`, clear `rxData`, restart the count. */
    method CompleteByte()
      requires Valid() && bitIndex >= 8
      modifies this, rxData, oldDataBuffer
      ensures Valid() && txData == old(txData) && rxData == old(rxData) && oldDataBuffer == old(oldDataBuffer)
      ensures Vars() == DataEdge(old(Vars()), false)
    {
      StoreOldData();
      MemsetZero(rxData);
      bitIndex := 0;
    }

    /** `if (oldDataIndex < 1024) oldDataBuffer[oldDataIndex++] = rxData[0];` */
    method StoreOldData()
      requires Valid()
      modifies this`oldDataIndex, oldDataBuffer
      ensures Log(oldDataBuffer[..], oldDataIndex) ==
        Capture(old(Log(oldDataBuffer[..], oldDataIndex)), rxData[0])
    {
      if oldDataIndex < OLD_DATA_SIZE {
        oldDataBuffer[oldDataIndex] := rxData[0];
        oldDataIndex := (oldDataIndex + 1) % 256;
      }
    }

    /** `Minion_LoadData`: copy `min(length, 8)` bytes of `data` into `txData`;
        the caller's `data` must hold that many bytes. */
    method LoadData(data: seq<bv8>, length: Uint8)
      requires Valid()
      requires |data| >= if length > 8 then 8 else length
      modifies txData
      ensures Valid()
      ensures var n := if length > 8 then 8 else length;
        txData[..] == data[..n] + old(txData[..])[n..]
    {
      var n := length;
      if n > 8 {
        n := 8;  // limit to the buffer
      }
      MemCpy(txData, data, n);
    }

    /** `Minion_ReadOldData`: `strncpy` of `min(length, oldDataIndex)` bytes of
        the overflow buffer into the caller's `buffer`. */
    method ReadOldData(buffer: array<bv8>, length: Uint8)
      requires Valid() && buffer != txData && buffer != rxData && buffer != oldDataBuffer
      requires buffer.Length >= if length > oldDataIndex then oldDataIndex else length
      modifies buffer
      ensures var n := if length > oldDataIndex then oldDataIndex else length;
        buffer[..] == StrNCopy(oldDataBuffer[..], n) + old(buffer[..])[n..]
    {
      var n := length;
      if n > oldDataIndex {
        n := oldDataIndex;  // limit to what was stored
      }
      StrNCpy(buffer, oldDataBuffer[..], n);
    }
  }
}
