# Differential-pair bus protocol, modelled in Dafny

The repository holds two implementations of one bit-serial bus protocol. Each
bit travels on a complementary pair of lines: the positive line carries the
bit and the negative line its inverse. Equal lines mean the bus is idle or the
sender has stopped.

- **`minion.c` and `master.c`**: two state machines, each driven one bit per
  rising clock edge.
  - The controller (`master.c`) sends the start pattern `11001`, then a 10-bit
    address most significant bit first, then exchanges one data byte.
  - While sending the address, the controller checks an arbitration pin on
    every 1 bit.
  - The responder (`minion.c`) recognises the start pattern, accumulates the
    address, and exchanges the data byte.
  - Both keep an overflow store of completed bytes, written through an 8-bit
    index.
- **`protocol_master.c` and `protocol_minion.c`**: a blocking byte serialiser
  with a bus-arbitration loop, and an interrupt-driven bit accumulator. They
  define the same globals, so they are two alternative builds and are
  modelled separately.

How the model is built:

- Each C file with static state becomes a Dafny class whose fields are those
  statics:
  - `Minion.Node` for `minion.c`;
  - `Master.Controller` for `master.c`;
  - `ProtocolMinion.Receiver` for `protocol_minion.c`.
- Each class's methods are proved equal to pure step functions over a value
  snapshot, `Vars()`:
  - `Minion.OnClock` and `Master.OnClock` for one clock edge;
  - `ProtocolMinion.OnEdge` for one EXTI2 interrupt.
- Runs of edges (`Run`) carry the multi-edge properties, in
  `MinionProperties` and `MasterProperties`.
- The GPIOB output data register is a `bv32` field.
- The loops of `protocol_master.c` are methods:
  - pin writes and clock pulses are appended to a trace of `PinEvent`s;
  - bus reads are an input sequence.
- `Bus` wires the controller's transmit pair to the responder's receive pair.
  It proves that the responder recognises the controller's start pattern and
  accumulates exactly its ten address bits.

`master.c` as written uses some identifiers that belong to `minion.c`. The
model maps them as follows:

- Lines 108-120 use `bitIndex`, `txData`, `rxData` and `Minion_SendBit`. They
  are read as `bitPosition`, `txDataBuffer`, `rxDataBuffer` and the same
  differential encoder.
- `Master_SendBit` is not defined in the files shown. It is taken to be that
  same encoder.
- Line 73 assigns the responder's `minionState`, so it has no effect on the
  controller.
- `MASTER_ARB_PIN` is an input bit, `Sample.arbSense`.

Where the prose description of the protocol and the code disagree, the model
follows the code:

- `Master_StartTransmission` is accepted from any state.
- STOP_SEQUENCE sets pins 4 and 5 of the output register on every edge and
  never leaves that state.
- The responder's address comparison is a tautology, so it always selects.
- The responder stays in SEND_RECEIVE_DATA after a byte.
- Nothing moves the responder from IDLE to LISTEN_START.
- The overflow store never drops a byte. Its 8-bit index wraps instead.

## Model

| member | source | states |
|---|---|---|
| Gpio.DriveDifferential | minion.c:152-160 | A nonzero bit drives pin 6 high and pin 7 low, a zero bit the reverse; every other pin of the output register keeps its level |
| Minion.Node.SendBit | minion.c:152-160 | The two read-modify-write steps of `Minion_SendBit` leave the output register equal to `DriveDifferential` of the old one |
| Minion.Node.constructor | minion.c:6-12 | Zero-initialised statics (all buffers zero, index 0, IDLE) with the given address stored |
| Minion.Node.Init | minion.c:29-32 | From any state: the address is stored, the state is IDLE, `bitIndex` is 0, and no other static changes |
| Minion.Node.ClockHandle | minion.c:77-149 | One edge of the handler changes the statics exactly as `Minion.OnClock` does on the sampled pair |
| Minion.Node.ListenStartCase | minion.c:93-106 | The LISTEN_START case body equals `StartEdge` |
| Minion.Node.ListenAddressCase | minion.c:108-122 | The LISTEN_ADDRESS case body equals `AddressEdge`, including the tautological comparison |
| Minion.Node.DataPhase | minion.c:128-147 | The SEND_RECEIVE_DATA case body equals `DataEdge` |
| Minion.Node.ExchangeBit | minion.c:129-136 | Below eight bits: send bit `bitIndex` of `txData[0]`, OR the received bit into `rxData[0]`, count it |
| Minion.Node.ReceiveBit | minion.c:135 | `rxData[0]` gains the received bit shifted to position `7 - bitIndex`; the other bytes are unchanged |
| Minion.Node.CompleteByte | minion.c:137-146 | The completion edge: capture `rxData[0]`, zero all of `rxData`, restart the count |
| Minion.Node.StoreOldData | minion.c:140-143 | The store through the 8-bit `oldDataIndex` equals `OverflowLog.Capture`: the guard always admits the byte and the index wraps |
| Minion.Node.LoadData | minion.c:163-166 | The length is clamped to 8; `txData[0..n)` becomes `data[0..n)` and the later bytes are unchanged |
| Minion.Node.ReadOldData | minion.c:169-172 | The length is clamped to `oldDataIndex`; the caller's buffer gets `strncpy` of the overflow store: copying stops at the first zero byte and the rest of the prefix is zero-filled |
| LibC.StrNCopy | minion.c:171 | Each of the `n` bytes written is the source byte while no zero byte has been met, and 0 from the first zero byte on |
| LibC.StrNCopyWithoutZero | minion.c:171 | With no zero byte among the first `n`, `strncpy` copies them unchanged, as `memcpy` does |
| LibC.MemsetZero | minion.c:144 | Every byte of the array becomes 0 |
| LibC.MemCpy | minion.c:165 | The first `n` bytes become those of the source; the rest are unchanged |
| LibC.StrNCpy | minion.c:171 | The first `n` bytes become `StrNCopy` of the source; the rest are unchanged |
| OverflowLog.Capture | minion.c:140-143 | The guard `oldDataIndex < 1024` always admits the byte: it is written at the index, and the index advances modulo 256 |
| OverflowLog.CaptureAllInOrder | minion.c:140-143 | Up to 256 captures from index 0 land in slots 0, 1, 2, … in order, the index counts them modulo 256, and later slots are untouched |
| OverflowLog.FirstByteLostAfter256 | minion.c:140-143 | The 257th capture overwrites slot 0 while slot 256 has never been written |
| OverflowLog.CaptureBoundedKeepsFirst | minion.c:140-143 | With an index wide enough to reach 1024: the store holds the first 1024 bytes in order and drops every later byte |
| MinionProperties.StopCondition | minion.c:83-91 | Equal lines on an edge: the state becomes IDLE and nothing else changes (`bitIndex`, `rxData` and the overflow store are untouched) |
| MinionProperties.IdleStep | minion.c:88-91 | In IDLE, no edge changes anything |
| MinionProperties.IdleAbsorbing | minion.c:88-91 | Once IDLE, every run leaves every variable unchanged: no path leaves IDLE |
| MinionProperties.OnClockKeepsBounds | minion.c:95-105 | One edge keeps each state's bound on `bitIndex` (≤ 5 in LISTEN_START, ≤ 10 in LISTEN_ADDRESS, 0 in SELECTED, ≤ 8 in SEND_RECEIVE_DATA) |
| MinionProperties.RunKeepsBounds | minion.c:95-146 | Every run keeps those bounds; in particular `bitIndex` never exceeds 5 while listening for the start pattern |
| MinionProperties.ListenStartStep | minion.c:95-101 | A bit equal to bit `4 - bitIndex` of `0b11001` increments `bitIndex`, and a mismatch resets it to 0; nothing else changes |
| MinionProperties.ListenStartDone | minion.c:102-105 | At five counted bits, the edge moves to LISTEN_ADDRESS with `bitIndex` 0 and ignores its bit |
| MinionProperties.StartPrefix | minion.c:95-101 | The first `k` edges of the start pattern, from a count of 0, count `k` bits |
| MinionProperties.RecognizeStart | minion.c:93-106 | The five pattern edges and one more valid edge take a listening responder to LISTEN_ADDRESS with the count restarted and nothing else changed |
| MinionProperties.AddressStep | minion.c:110-113 | Below ten bits, the received bit is shifted into `minionAddress` and counted; nothing else changes |
| MinionProperties.AddressPrefix | minion.c:110-113 | After `k` address edges, the last `k` of the ten low address bits are the bits received, most significant first |
| MinionProperties.ReceiveAddress | minion.c:110-113 | After ten address edges, the low 10 bits of `minionAddress` equal the received bits, most significant first; only the address and the count change |
| MinionProperties.AddressAlwaysSelected | minion.c:114-120 | The edge after the address always yields SELECTED with `bitIndex` 0, whatever address was received |
| MinionProperties.DataEdgeSends | minion.c:129-132 | A data edge below eight bits drives bit `bitIndex` of `txData[0]`, most significant first, on the transmit pair |
| MinionProperties.DataEdgeReceives | minion.c:135-136 | A data edge below eight bits ORs the mask of bit `bitIndex` into `rxData[0]` when the received bit is 1 and counts the bit |
| MinionProperties.SelectedFallsThrough | minion.c:124-136 | SELECTED falls through: the same edge enters SEND_RECEIVE_DATA, sends bit 7 of `txData[0]` and ORs the received bit into bit 7 of `rxData[0]` |
| MinionProperties.DataBit | minion.c:128-136 | One data edge in SEND_RECEIVE_DATA: the exchange above, staying in that state |
| MinionProperties.ExchangePrefix | minion.c:129-136 | After `k` data edges, `rxData[0]` has the first `k` received bits OR-ed into its top `k` positions; only the output register and the count otherwise change |
| MinionProperties.ExchangeByte | minion.c:128-136 | Eight data edges from a cleared receive byte: `rxData[0]` holds the eight bits received, most significant first, and edge `i` drove bit `i` of `txData[0]` |
| MinionProperties.CompletionEdge | minion.c:137-146 | At `bitIndex == 8`: `rxData[0]` is stored at `oldDataBuffer[oldDataIndex]`, the index advances modulo 256, `rxData` is zeroed, `bitIndex` is 0, and the state stays SEND_RECEIVE_DATA |
| Master.Controller.constructor | master.c:7-16 | Zero-initialised statics, IDLE, no arbitration loss |
| Master.Controller.StartTransmission | master.c:58-66 | From any state: the transmit buffer gets `strncpy` of the data, the receive buffer is all zero, the address is stored, `bitPosition` is 0, the flag is cleared, START_SEQUENCE is entered, and the static `dataLength` keeps its value |
| Master.Controller.SendBit | master.c:81-83 | `Master_SendBit` is the differential encoder on the transmit pair |
| Master.Controller.ClockHandle | master.c:68-137 | One edge of the handler changes the statics exactly as `Master.OnClock` does on the sample |
| Master.Controller.StartSequenceCase | master.c:78-90 | The START_SEQUENCE case body equals `StartEdge` |
| Master.Controller.SendAddressCase | master.c:92-105 | The SEND_ADDRESS case body equals `AddressEdge` |
| Master.Controller.SendAddressBit | master.c:93-100 | Below ten bits: send bit `9 - bitPosition` of the address, consult arbitration only for a 1, and count the bit either way |
| Master.Controller.Arbitration | master.c:139-144 | A low arbitration pin sets the flag and ARB_LOST; a high one changes nothing |
| Master.Controller.DataPhase | master.c:107-122 | The SEND_RECEIVE_DATA case body equals `DataEdge` |
| Master.Controller.ExchangeBit | master.c:108-113 | Below eight bits: send bit `bitPosition` of the transmit byte, OR the received bit into the receive byte, count it |
| Master.Controller.ReceiveBit | master.c:112 | The receive byte gains the received bit at position `7 - bitPosition`; the other bytes are unchanged |
| Master.Controller.CompleteByte | master.c:114-121 | The completion edge: capture the receive byte and enter STOP_SEQUENCE, zero the receive buffer, restart the count |
| Master.Controller.StoreOldData | master.c:115-118 | The capture through the 8-bit index equals `Capture`, and the state becomes STOP_SEQUENCE because the guard always holds |
| Master.Controller.LoadData | master.c:147-152 | The length is clamped to 8; `txDataBuffer[0..n)` becomes `data[0..n)` and the later bytes are unchanged |
| Master.Controller.ReadOldData | master.c:155-160 | The length is clamped to `oldDataIndex`; exactly that prefix of the overflow store is copied with `memcpy` |
| MasterProperties.NegativeLineIgnored | master.c:68-75 | The negative receive line never changes the controller's edge: the stop-condition test assigns the responder's state |
| MasterProperties.PassiveStates | master.c:129-135 | IDLE and the never-assigned ARB_WON change nothing, and ARB_LOST goes to IDLE changing nothing else |
| MasterProperties.IdleAbsorbing | master.c:133-135 | Once IDLE, every run leaves every variable unchanged until the next `Master_StartTransmission` |
| MasterProperties.StartConsistent | master.c:58-66 | `Master_StartTransmission` clears the arbitration flag and establishes the invariant: in ARB_LOST the flag is set, and with the flag set the state is ARB_LOST or IDLE |
| MasterProperties.OnClockConsistent | master.c:129-144 | One edge keeps those two implications (ARB_LOST ⇒ flag set; flag set ⇒ ARB_LOST or IDLE) |
| MasterProperties.RunConsistent | master.c:129-144 | Every run keeps those two implications |
| MasterProperties.OnClockKeepsBounds | master.c:78-127 | One edge keeps each state's bound on `bitPosition` |
| MasterProperties.RunKeepsBounds | master.c:78-127 | Every run keeps those bounds |
| MasterProperties.StartStep | master.c:79-85 | A start edge below five bits drives one pattern bit on the transmit pair, leaves the other pins alone, and counts the bit |
| MasterProperties.StartPrefix | master.c:79-85 | The first `k` start edges count `k` bits, the last driving entry `k - 1` of `1, 1, 0, 0, 1` |
| MasterProperties.SendStartPattern | master.c:78-90 | The first five edges drive 1, 1, 0, 0, 1 (bits 4..0 of 0x19); the sixth drives nothing, sets `bitPosition` to 0 and moves to SEND_ADDRESS |
| MasterProperties.AddressEdgeShape | master.c:93-100 | An address edge below ten bits drives the bit selected by `masterAddress & (1 << (9 - bitPosition))`, consults arbitration only when it is 1, and counts the bit |
| MasterProperties.AddressStep | master.c:93-100 | Edge `i` drives bit `9 - i` of the address; only a 1 bit consults the pin, and a low pin then gives ARB_LOST with the flag set, with `bitPosition` still incremented |
| MasterProperties.AddressPrefix | master.c:93-100 | The first `k` uncontended address edges count `k` bits, the last driving address bit `k - 1` |
| MasterProperties.SendAddressBits | master.c:92-105 | Uncontended, edge `i < 10` drives bit `9 - i` of the address, and the eleventh moves to SEND_RECEIVE_DATA with `bitPosition` 0 |
| MasterProperties.LoseArbitration | master.c:94-100 | A low arbitration pin on address bit `k`, a 1, enters ARB_LOST with the flag set and the count at `k + 1`; only the output register otherwise changes |
| MasterProperties.IdleAfterLoss | master.c:129-135 | After a lost arbitration, the next edge returns the controller to IDLE and no later edge changes anything |
| MasterProperties.DataEdgeSends | master.c:108-110 | A data edge below eight bits drives bit `bitPosition` of the transmit byte, most significant first |
| MasterProperties.DataEdgeReceives | master.c:112-113 | A data edge below eight bits ORs the received bit into the receive byte at its position and counts it |
| MasterProperties.DataBit | master.c:107-113 | One data edge: the exchange above, staying in SEND_RECEIVE_DATA |
| MasterProperties.ExchangePrefix | master.c:108-113 | After `k` data edges, the receive byte has the first `k` received bits OR-ed into its top `k` positions |
| MasterProperties.ExchangeByte | master.c:107-113 | Eight data edges from a cleared receive byte: it holds the eight received bits, most significant first, and edge `i` drove bit `i` of the transmit byte |
| MasterProperties.CompletionEdge | master.c:114-121 | At eight bits: the received byte is stored at the 8-bit `oldDataIndex`, which then advances modulo 256; the receive buffer is cleared; the state becomes STOP_SEQUENCE |
| MasterProperties.StopStep | master.c:124-127 | A STOP_SEQUENCE edge sets pins 4 and 5 of the output register, keeps every other pin, and changes nothing else |
| MasterProperties.StopAbsorbing | master.c:124-127 | STOP_SEQUENCE has no way out under the handler; after at least one edge, pins 4 and 5 are high |
| Bus.StartReachesResponder | master.c:78-90 | The five pattern bits the controller drives, followed by one more valid edge, take a listening responder to LISTEN_ADDRESS |
| Bus.AddressReachesResponder | master.c:92-105 | The ten address bits the controller drives uncontended are the responder's ten accumulated address bits, most significant first |
| ProtocolMaster.BitsTrace | protocol_master.c:31-43 | Bit period `i` is the pair `(bit, ¬bit)` followed by one clock pulse |
| ProtocolMaster.SendByte | protocol_master.c:30-44 | The loop's trace is exactly eight bit periods carrying the bits of `data`, most significant first |
| ProtocolMaster.PulsesPerBit | protocol_master.c:31-43 | Sending `n` bits pulses the clock exactly `n` times, so both loops pulse once per bit driven |
| ProtocolMaster.Complementary | protocol_master.c:32-40 | Every pair driven is complementary |
| ProtocolMaster.SendAddress | protocol_master.c:51-53 | Sending an address produces exactly the trace of sending it as a byte |
| ProtocolMaster.HandleBusArbitration | protocol_master.c:149-177 | The loop drives the address bits most significant first, and only the first `DrivenCount` of them |
| ProtocolMaster.ArbitrationPeriod | protocol_master.c:152-175 | One iteration: drive the top bit, pulse, compare with `rx_high`; the bus disagrees exactly when the bit driven differs from `rx_high`, and that bit is then the last |
| ProtocolMaster.DrivenAll | protocol_master.c:151-175 | When every sensed value agrees with the bit driven, all eight bits are driven |
| ProtocolMaster.Disagreement | protocol_master.c:170-175 | When the first disagreement is at bit `i`, exactly `i + 1` bits are driven |
| ProtocolMaster.AgreeAll | protocol_master.c:170 | Agreement on a prefix is agreement bit by bit |
| ProtocolMaster.Arbitrate | protocol_master.c:58-61 | Arbitration runs the loop on `MASTER_ADDRESS` |
| ProtocolMinion.Decode | protocol_minion.c:112-114 | The decoded bit is 1 exactly when RX_H is set and RX_L is clear; both high and both low decode to 0 |
| ProtocolMinion.Receive | protocol_minion.c:117-126 | One handled edge writes slot `rx_index / 8`, always below 32, and advances `rx_index` by one modulo 256: the reset at 2048 never fires |
| ProtocolMinion.ReceiveSlot | protocol_minion.c:117-118 | The slot becomes `(slot << 1) \| bit`: its oldest bit is dropped and the new one appended; every other slot is unchanged |
| ProtocolMinion.OnEdge | protocol_minion.c:107-130 | With the pending flag clear, the handler changes nothing; otherwise it clears the flag and receives the decoded bit |
| ProtocolMinion.RunIndex | protocol_minion.c:121 | After `n` handled edges, `rx_index` has advanced by `n` modulo 256 |
| ProtocolMinion.RunKeepsHighSlots | protocol_minion.c:117-126 | However many edges are handled, slots 32 to 255 are never written |
| ProtocolMinion.ReceivePrefix | protocol_minion.c:117-121 | After `k` bits from a slot boundary, the slot's last `k` bits are those bits, and no other slot has changed |
| ProtocolMinion.ReceiveByte | protocol_minion.c:117-121 | Eight edges from an `rx_index` that is a multiple of 8 leave exactly those eight bits, most significant first, in that slot, whatever it held, and move `rx_index` on by 8 |
| ProtocolMinion.ReadByteAfterFirstByte | protocol_minion.c:24-26 | After a first byte of all ones has arrived in slot 0, `rx_index` is 8 and the read returns slot 7, which holds 0 |
| ProtocolMinion.ReadLastByteAfterByte | protocol_minion.c:24-26 | Reading the slot of the last received bit returns the byte that has just arrived |
| ProtocolMinion.ReadByteUnwritten | protocol_master.c:68-70 | The read `rx_buffer[rx_index - 1]` (the same expression in both builds), after 33 to 255 edges from a cleared index, returns a slot no edge has written: its content before the edges |
| ProtocolMinion.IndexWrapsToZero | protocol_minion.c:24-26 | 256 handled edges from a cleared index bring `rx_index` back to 0, where the read subscripts `rx_buffer[-1]` |
| ProtocolMinion.ReadLastByteAtWrap | protocol_minion.c:24-26 | When the index wraps to 0 after filling slot 31, the corrected read returns the byte just received |
| ProtocolMinion.Receiver.constructor | protocol_minion.c:4-6 | Zeroed buffer and index, `minion_address` set to `MINION_ADDRESS`, nothing pending |
| ProtocolMinion.Receiver.Init | protocol_minion.c:13-14 | The given address is stored in `minion_address` |
| ProtocolMinion.Receiver.HandleEdge | protocol_minion.c:107-130 | The handler changes the buffer, index and flag exactly as `OnEdge` does |
| ProtocolMinion.Receiver.ReadByte | protocol_minion.c:24-26 | Returns `rx_buffer[rx_index - 1]`, for `rx_index` at least 1 |

## Left out

- Peripheral setup is not modelled: clocks, GPIO modes, NVIC and the timer. This is `Master_Init`, `Master_SetClockSpeed`, `GPIO_Init`, `Timer_Init`, `Interrupt_Init`, and lines 34-65 of `Minion_Init`. It is register plumbing and foreign HAL calls.
- The `isClockMaster` flag is not modelled. Only `Master_Init` uses it.
- Each `clock_pulse` is one `Pulse` event. Its busy-wait delays are timing only.
- The interrupt trampolines `EXTI3_IRQHandler` and `Protocol_IRQHandler` are not modelled. One handler invocation is one atomic step: `ClockHandle` or `HandleEdge`.
- Preemption, `volatile` and concurrency between handlers and callers are out of scope.
- The input data register is a parameter of each edge.
- The output register is a field whose initial value is a constructor parameter, because its value at reset is not known.
- The EXTI2 pending flag is raised by hardware on each clock edge. The model takes it as the `exti2Pending` field.
- `Protocol_Minion_ProcessData` is not modelled: its body is empty.
- `Protocol_Minion_SendByte` is not modelled separately. It only calls the serialiser, `ProtocolMaster.SendByte`.
- The pins of `protocol_master.c` are PA0/PA1 for transmit and PB0/PB1 for receive. The traces record them as `(TX_H, TX_L)` pairs and sensed `rx_high` values, not as register images.
- Master.Controller.StartTransmission: requires `dataLength <= 8`. With a larger length, `strncpy` writes past the 8-byte buffer, which is undefined behaviour. The unused `rxData` argument is not a parameter.
- Master.Controller.StartTransmission: requires the source to hold `dataLength` readable bytes or a zero byte, because `strncpy` reads no further than that.
- Minion.Node.LoadData and Master.Controller.LoadData: require the caller's `data` to hold the clamped number of bytes that `memcpy` reads. The same goes for the destination of both `ReadOldData` methods.
- ProtocolMaster.ReadByte: requires `rx_index >= 1`. With 0, `rx_index - 1` indexes before the buffer. The function states no property beyond the subscript itself.
- No function in `protocol_master.c` writes `rx_index`. The `EXTI2_IRQHandler` it calls at line 77 is defined elsewhere, so the values `rx_index` takes in that build are not part of this model.
- ProtocolMinion.Receiver.ReadByte: requires `rx_index >= 1`, because with 0 the C read subscripts `rx_buffer[-1]`, which is undefined behaviour. This case is reachable: `rx_index` returns to 0 after every 256 handled edges (`ProtocolMinion.IndexWrapsToZero`, listed under Findings).
- `handle_bus_arbitration` in `protocol_master.c` arbitrates on an 8-bit address, `MASTER_ADDRESS`. `protocol_minion.c` keeps an 8-bit `minion_address` that it never uses.
- `master.c` uses a 10-bit address on the clock edges. These are separate builds, and the model does not relate them.
- The composition in `Bus` feeds the responder the pairs the controller drives, one per edge, in order. It does not model on which edge each side samples what the other drove. It does not cover the data exchange.

## Findings

| source | as written | input that shows it | evidently intended | confidence | as-written member | corrected member |
|---|---|---|---|---|---|---|
| minion.c:10,140-142 (also master.c:16,115-116) | `oldDataIndex` is `uint8_t`, so `oldDataIndex < 1024` always holds and the index wraps from 255 to 0 | 257 completed bytes from index 0: the 257th overwrites slot 0 while slots 256-1023 were never used | an index that reaches 1024, so the store keeps the first 1024 bytes and drops the rest | high (not executed) | OverflowLog.FirstByteLostAfter256 | OverflowLog.CaptureBoundedKeepsFirst |
| protocol_minion.c:24-26 (also protocol_master.c:68-70) | `rx_buffer[rx_index - 1]` with `rx_index` counting bits | eight 1 bits from a zeroed buffer and `rx_index` 0: slot 0 is 0xFF, `rx_index` is 8, and the read returns slot 7, which is 0 | read slot `(rx_index - 1) / 8`, the slot of the last received bit | high (not executed) | ProtocolMinion.ReadByteAfterFirstByte | ProtocolMinion.ReadLastByteAfterByte |
| protocol_minion.c:24-26 | `rx_buffer[rx_index - 1]` with the 8-bit `rx_index`, which wraps to 0 | 256 handled edges from `rx_index` 0: `rx_index` is 0 again and the read subscripts `rx_buffer[-1]` | read slot `(rx_index - 1) / 8` with the subtraction taken modulo 256, that is slot 31 at the wrap | high (not executed) | ProtocolMinion.IndexWrapsToZero | ProtocolMinion.ReadLastByteAtWrap |
