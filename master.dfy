/** The controller of `master.c`: the clock-edge state machine that sends the
    start pattern, the address and the data byte, the arbitration check and the
    load/read helpers, over the file's static variables.

    `master.c` as written names a few identifiers of `minion.c` in its data
    case (lines 108-120); here `bitIndex` is `bitPosition`, `txData` and
    `rxData` are `txDataBuffer` and `rxDataBuffer`, and `Minion_SendBit` is
    the same differential encoder `Master_SendBit` is taken to be. */
module Master {
  import opened Bits
  import opened Gpio
  import opened LibC
  import opened OverflowLog

  /** `MasterState` (master.h:16-24). */
  datatype MasterState =
    Idle | StartSequence | SendAddress | SendReceiveData | StopSequence | ArbLost | ArbWon

  /** `#define START_SEQUENCE 0x19`, the pattern `0b11001`. */
  const START_SEQUENCE: bv8 := 0x19

  /** What one clock edge samples: the receive pair and the arbitration pin
      (`MASTER_ARB_PIN`, low meaning another controller holds the bus). */
  datatype Sample = Sample(pos: bool, neg: bool, arbSense: bool)

  /** The file's statics and the GPIOB output register, as values. */
  datatype MasterVars = MasterVars(
    state: MasterState,
    txData: seq<bv8>,
    rxData: seq<bv8>,
    bitPosition: Uint8,
    address: bv16,
    dataLength: Uint8,
    arbitrationLost: bool,
    log: Log,
    odr: bv32)
  {
    /** The buffers have their declared sizes. */
    predicate WellFormed() {
      |txData| == 8 && |rxData| == 8 && |log.buffer| == OLD_DATA_SIZE
    }
  }

  /** `Master_StartTransmission` with at most 8 bytes to copy: `strncpy` the
      data into the transmit buffer, clear the receive buffer, set the address,
      restart the count, clear the arbitration flag and enter START_SEQUENCE.
      The final `dataLength = dataLength;` assigns the parameter to itself, so
      the static `dataLength` keeps its value. */
  function Start(v: MasterVars, data: seq<bv8>, address: bv16, dataLength: Uint8): (r: MasterVars)
    requires v.WellFormed() && dataLength <= 8 && (dataLength <= |data| || 0 in data)
    ensures r.WellFormed()
  {
    v.(txData := StrNCopy(data, dataLength) + v.txData[dataLength..],
       rxData := Zeros(8),
       address := address,
       bitPosition := 0,
       arbitrationLost := false,
       state := StartSequence)
  }

  /** `Master_Arbitration`: a low arbitration pin means the bus was lost. */
  function Arbitrate(v: MasterVars, arbSense: bool): (r: MasterVars)
    requires v.WellFormed()
    ensures r.WellFormed()
  {
    if !arbSense then v.(arbitrationLost := true, state := ArbLost) else v
  }

  /** The `MASTER_START_SEQUENCE` case: below five bits, send bit
      `4 - bitPosition` of the start sequence; at five, move to
      `MASTER_SEND_ADDRESS` without sending. */
  function StartEdge(v: MasterVars): (r: MasterVars)
    requires v.WellFormed()
    ensures r.WellFormed()
  {
    if v.bitPosition < 5 then
      var bit: bv8 := if START_SEQUENCE & (1 << (4 - v.bitPosition)) != 0 then 1 else 0;
      v.(odr := DriveDifferential(v.odr, bit), bitPosition := v.bitPosition + 1)
    else
      v.(bitPosition := 0, state := SendAddress)
  }

  /** `masterAddress & (1 << (9 - bitPosition))`: whether the address bit sent
      at position `k` is 1. */
  predicate AddressBitSet(address: bv16, k: Uint8)
    requires k < 10
  {
    address & (1 << (9 - k)) != 0
  }

  /** The `MASTER_SEND_ADDRESS` case: below ten bits, send bit `9 - bitPosition`
      of the address and, only when that bit is 1, consult the arbitration pin;
      the count advances either way. At ten, move to `MASTER_SEND_RECEIVE_DATA`. */
  function AddressEdge(v: MasterVars, arbSense: bool): (r: MasterVars)
    requires v.WellFormed()
    ensures r.WellFormed()
  {
    if v.bitPosition < 10 then
      var w :=
        if AddressBitSet(v.address, v.bitPosition) then
          Arbitrate(v.(odr := DriveDifferential(v.odr, 1)), arbSense)
        else
          v.(odr := DriveDifferential(v.odr, 0));
      w.(bitPosition := v.bitPosition + 1)
    else
      v.(bitPosition := 0, state := SendReceiveData)
  }

  /** The `MASTER_SEND_RECEIVE_DATA` case: below eight bits, send bit
      `bitPosition` of `txData[0]` and OR the received bit into `rxData[0]`;
      at eight, capture `rxData[0]` and enter STOP_SEQUENCE (both under the
      always-true guard `oldDataIndex < 1024`), then clear the receive buffer and
      restart the count. */
  function DataEdge(v: MasterVars, receivedBit: bool): (r: MasterVars)
    requires v.WellFormed()
    ensures r.WellFormed()
  {
    if v.bitPosition < 8 then
      var bitToSend := (v.txData[0] >> (7 - v.bitPosition)) & 1;
      v.(odr := DriveDifferential(v.odr, bitToSend),
         rxData := v.rxData[0 := v.rxData[0] | (BitValue(receivedBit) << (7 - v.bitPosition))],
         bitPosition := v.bitPosition + 1)
    else
      v.(log := Capture(v.log, v.rxData[0]),
         state := if v.log.index < OLD_DATA_SIZE then StopSequence else v.state,
         rxData := Zeros(8),
         bitPosition := 0)
  }

  /** The `MASTER_STOP_SEQUENCE` case: set pins 4 and 5 of the output register. */
  function StopEdge(v: MasterVars): (r: MasterVars)
    requires v.WellFormed()
    ensures r.WellFormed()
  {
    v.(odr := (v.odr | (1 << RX_POS_PIN)) | (1 << RX_NEG_PIN))
  }

  /** One rising clock edge: the specification of `Master_Clock_Handle`. The
      stop-condition test at master.c:72-74 assigns the responder's state and
      so has no effect here; the negative line is sampled and otherwise unused. */
  function OnClock(v: MasterVars, s: Sample): (r: MasterVars)
    requires v.WellFormed()
    ensures r.WellFormed()
  {
    var receivedBit := s.pos;
    match v.state
    case Idle => v
    case StartSequence => StartEdge(v)
    case SendAddress => AddressEdge(v, s.arbSense)
    case SendReceiveData => DataEdge(v, receivedBit)
    case StopSequence => StopEdge(v)
    case ArbLost => v.(state := Idle)
    case ArbWon => v
  }

  /** The state after the given edges, in order. */
  function Run(v: MasterVars, samples: seq<Sample>): (r: MasterVars)
    requires v.WellFormed()
    ensures r.WellFormed()
  {
    if samples == [] then v
    else OnClock(Run(v, samples[..|samples| - 1]), samples[|samples| - 1])
  }

  /** The controller node: the statics of `master.c`. */
  class Controller {
    var masterState: MasterState
    var txDataBuffer: array<bv8>
    var rxDataBuffer: array<bv8>
    var bitPosition: Uint8
    var masterAddress: bv16
    var dataLength: Uint8
    var arbitrationLost: bool
    var oldDataBuffer: array<bv8>
    var oldDataIndex: Uint8
    /** GPIOB_ODR, whose pins 6 and 7 are the transmit pair. */
    var odr: bv32

    ghost predicate Valid()
      reads this
    {
      txDataBuffer.Length == 8 && rxDataBuffer.Length == 8 && oldDataBuffer.Length == OLD_DATA_SIZE &&
      txDataBuffer != rxDataBuffer && txDataBuffer != oldDataBuffer && rxDataBuffer != oldDataBuffer
    }

    function Vars(): (v: MasterVars)
      reads this, txDataBuffer, rxDataBuffer, oldDataBuffer
      requires Valid()
      ensures v.WellFormed()
    {
      MasterVars(masterState, txDataBuffer[..], rxDataBuffer[..], bitPosition, masterAddress,
                 dataLength, arbitrationLost, Log(oldDataBuffer[..], oldDataIndex), odr)
    }

    /** Program start: the zero-initialised statics of master.c:7-16; `odr` is
        the output register as found. */
    constructor (odr: bv32)
      ensures Valid() && fresh(txDataBuffer) && fresh(rxDataBuffer) && fresh(oldDataBuffer)
      ensures Vars() == MasterVars(Idle, Zeros(8), Zeros(8), 0, 0, 0, false,
                                   Log(Zeros(OLD_DATA_SIZE), 0), odr)
    {
      masterState := Idle;
      txDataBuffer := new bv8[8](_ => 0);
      rxDataBuffer := new bv8[8](_ => 0);
      bitPosition := 0;
      masterAddress := 0;
      dataLength := 0;
      arbitrationLost := false;
      oldDataBuffer := new bv8[OLD_DATA_SIZE](_ => 0);
      oldDataIndex := 0;
      this.odr := odr;
    }

    /** `Master_StartTransmission(txData, rxData, address, dataLength)`; the
        `rxData` argument is never used by the C function and is not a
        parameter here. */
    method StartTransmission(txData: seq<bv8>, address: bv16, dataLength: Uint8)
      requires Valid() && dataLength <= 8 && (dataLength <= |txData| || 0 in txData)
      modifies this, txDataBuffer, rxDataBuffer
      ensures Valid() && txDataBuffer == old(txDataBuffer) && rxDataBuffer == old(rxDataBuffer)
      ensures oldDataBuffer == old(oldDataBuffer)
      ensures Vars() == Start(old(Vars()), txData, address, dataLength)
    {
      ghost var v := Vars();
      StrNCpy(txDataBuffer, txData, dataLength);
      MemsetZero(rxDataBuffer);
      assert Vars() == v.(txData := StrNCopy(txData, dataLength) + v.txData[dataLength..], rxData := Zeros(8));
      masterAddress := address;
      bitPosition := 0;
      arbitrationLost := false;
      masterState := StartSequence;
      // `dataLength = dataLength;` assigns the parameter to itself
    }

    /** `Master_SendBit`: the differential encoder on the transmit pair. */
    method SendBit(bit: bv8)
      modifies this`odr
      ensures odr == DriveDifferential(old(odr), bit)
    {
      odr := DriveDifferential(odr, bit);
    }

    /** `Master_Clock_Handle`, with the receive pair and the arbitration pin
        sampled as `s`. */
    method ClockHandle(s: Sample)
      requires Valid()
      modifies this, rxDataBuffer, oldDataBuffer
      ensures Valid() && txDataBuffer == old(txDataBuffer) && rxDataBuffer == old(rxDataBuffer)
      ensures oldDataBuffer == old(oldDataBuffer)
      ensures Vars() == OnClock(old(Vars()), s)
    {
      var receivedBitPositive, receivedBitNegative := s.pos, s.neg;
      if receivedBitPositive == receivedBitNegative {
        // the stop condition assigns the responder's state, not this one
      }
      var receivedBit := receivedBitPositive;

      match masterState
      case StartSequence =>
        StartSequenceCase();
      case SendAddress =>
        SendAddressCase(s.arbSense);
      case SendReceiveData =>
        DataPhase(receivedBit);
      case StopSequence =>
        odr := odr | (1 << RX_POS_PIN);
        odr := odr | (1 << RX_NEG_PIN);
      case ArbLost =>
        masterState := Idle;
      case Idle =>
      case ArbWon =>
    }

    /** The body of the `MASTER_START_SEQUENCE` case. */
    method StartSequenceCase()
      requires Valid()
      modifies this`odr, this`bitPosition, this`masterState
      ensures Vars() == StartEdge(old(Vars()))
    {
      if bitPosition < 5 {
        if START_SEQUENCE & (1 << (4 - bitPosition)) != 0 {
          SendBit(1);
        } else {
          SendBit(0);
        }
        bitPosition := bitPosition + 1;
      } else {
        bitPosition := 0;
        masterState := SendAddress;
      }
    }

    /** The body of the `MASTER_SEND_ADDRESS` case. */
    method SendAddressCase(arbSense: bool)
      requires Valid()
      modifies this`odr, this`bitPosition, this`masterState, this`arbitrationLost
      ensures Vars() == AddressEdge(old(Vars()), arbSense)
    {
      if bitPosition < 10 {
        SendAddressBit(arbSense);
      } else {
        bitPosition := 0;
        masterState := SendReceiveData;
      }
    }

    /** One address bit: send bit `9 - bitPosition` of the address, consulting
        the arbitration pin only for a 1, and count it. */
    method SendAddressBit(arbSense: bool)
      requires Valid() && bitPosition < 10
      modifies this`odr, this`bitPosition, this`masterState, this`arbitrationLost
      ensures Vars() == AddressEdge(old(Vars()), arbSense)
    {
      if AddressBitSet(masterAddress, bitPosition) {
        SendBit(1);
        Arbitration(arbSense);  // arbitration is checked only for a 1
      } else {
        SendBit(0);
      }
      bitPosition := bitPosition + 1;
    }

    /** `Master_Arbitration`, with the arbitration pin sampled as `arbSense`. */
    method Arbitration(arbSense: bool)
      requires Valid()
      modifies this`arbitrationLost, this`masterState
      ensures Vars() == Arbitrate(old(Vars()), arbSense)
    {
      if !arbSense {
        arbitrationLost := true;
        masterState := ArbLost;
      }
    }

    /** The body of the `MASTER_SEND_RECEIVE_DATA` case. */
    method DataPhase(receivedBit: bool)
      requires Valid()
      modifies this, rxDataBuffer, oldDataBuffer
      ensures Valid() && txDataBuffer == old(txDataBuffer) && rxDataBuffer == old(rxDataBuffer)
      ensures oldDataBuffer == old(oldDataBuffer)
      ensures Vars() == DataEdge(old(Vars()), receivedBit)
    {
      if bitPosition < 8 {
        ExchangeBit(receivedBit);
      } else {
        CompleteByte();
      }
    }

    /** One data bit: send bit `bitPosition` of `txDataBuffer[0]`, receive into
        `rxDataBuffer[0]`. */
    method ExchangeBit(receivedBit: bool)
      requires Valid() && bitPosition < 8
      modifies this, rxDataBuffer
      ensures Valid() && txDataBuffer == old(txDataBuffer) && rxDataBuffer == old(rxDataBuffer)
      ensures oldDataBuffer == old(oldDataBuffer)
      ensures Vars() == DataEdge(old(Vars()), receivedBit)
    {
      var bitToSend := (txDataBuffer[0] >> (7 - bitPosition)) & 1;
      SendBit(bitToSend);
      ReceiveBit(receivedBit);
      bitPosition := bitPosition + 1;
    }

    /** `rxData[0] |= (receivedBit << (7 - bitIndex));` */
    method ReceiveBit(receivedBit: bool)
      requires Valid() && bitPosition < 8
      modifies rxDataBuffer
      ensures rxDataBuffer[..] ==
        old(rxDataBuffer[..])[0 := old(rxDataBuffer[0]) | (BitValue(receivedBit) << (7 - bitPosition))]
    {
      rxDataBuffer[0] := rxDataBuffer[0] | (BitValue(receivedBit) << (7 - bitPosition));
    }

    /** The completion edge: capture the received byte and enter STOP_SEQUENCE,
        clear the receive buffer, restart the count. */
    method CompleteByte()
      requires Valid() && bitPosition >= 8
      modifies this, rxDataBuffer, oldDataBuffer
      ensures Valid() && txDataBuffer == old(txDataBuffer) && rxDataBuffer == old(rxDataBuffer)
      ensures oldDataBuffer == old(oldDataBuffer)
      ensures Vars() == DataEdge(old(Vars()), false)
    {
      StoreOldData();
      MemsetZero(rxDataBuffer);
      bitPosition := 0;
    }

    /** `if (oldDataIndex < 1024) { oldDataBuffer[oldDataIndex++] = rxData[0];
        masterState = MASTER_STOP_SEQUENCE; }` */
    method StoreOldData()
      requires Valid()
      modifies this`oldDataIndex, this`masterState, oldDataBuffer
      ensures Log(oldDataBuffer[..], oldDataIndex) ==
        Capture(old(Log(oldDataBuffer[..], oldDataIndex)), rxDataBuffer[0])
      ensures masterState == if old(oldDataIndex) < OLD_DATA_SIZE then StopSequence else old(masterState)
    {
      if oldDataIndex < OLD_DATA_SIZE {
        oldDataBuffer[oldDataIndex] := rxDataBuffer[0];
        oldDataIndex := (oldDataIndex + 1) % 256;
        masterState := StopSequence;
      }
    }

    /** `Master_LoadData`: copy `min(length, 8)` bytes of `data` into
        `txDataBuffer`; the caller's `data` must hold that many bytes. */
    method LoadData(data: seq<bv8>, length: Uint8)
      requires Valid()
      requires |data| >= if length > 8 then 8 else length
      modifies txDataBuffer
      ensures Valid()
      ensures var n := if length > 8 then 8 else length;
        txDataBuffer[..] == data[..n] + old(txDataBuffer[..])[n..]
    {
      var n := length;
      if n > 8 {
        n := 8;  // limit to the buffer
      }
      MemCpy(txDataBuffer, data, n);
    }

    /** `Master_ReadOldData`: `memcpy` of `min(length, oldDataIndex)` bytes of
        the overflow buffer into the caller's `buffer`. */
    method ReadOldData(buffer: array<bv8>, length: Uint8)
      requires Valid() && buffer != txDataBuffer && buffer != rxDataBuffer && buffer != oldDataBuffer
      requires buffer.Length >= if length > oldDataIndex then oldDataIndex else length
      modifies buffer
      ensures var n := if length > oldDataIndex then oldDataIndex else length;
        buffer[..] == oldDataBuffer[..n] + old(buffer[..])[n..]
    {
      var n := length;
      if n > oldDataIndex {
        n := oldDataIndex;  // limit to what was stored
      }
      MemCpy(buffer, oldDataBuffer[..], n);
    }
  }
}
