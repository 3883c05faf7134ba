/** What `Master_Clock_Handle` does over one edge and over runs of edges,
    stated on its specification `Master.OnClock`. */
module MasterProperties {
  import opened Bits
  import opened Gpio
  import opened LibC
  import opened OverflowLog
  import opened Master

  /** A run followed by one more edge. */
  lemma RunSnoc(v: MasterVars, samples: seq<Sample>, s: Sample)
    requires v.WellFormed()
    ensures Run(v, samples + [s]) == OnClock(Run(v, samples), s)
  {
    assert (samples + [s])[..|samples|] == samples;
  }

  /** The negative receive line never affects the controller: the stop
      condition at master.c:72-74 assigns the responder's state. */
  lemma NegativeLineIgnored(v: MasterVars, s: Sample)
    requires v.WellFormed()
    ensures OnClock(v, s) == OnClock(v, s.(neg := !s.neg))
  {
  }

  /** IDLE and ARB_WON change nothing, and ARB_LOST goes to IDLE changing
      nothing else. */
  lemma PassiveStates(v: MasterVars, s: Sample)
    requires v.WellFormed()
    ensures v.state == Idle || v.state == ArbWon ==> OnClock(v, s) == v
    ensures v.state == ArbLost ==> OnClock(v, s) == v.(state := Idle)
  {
  }

  /** Once IDLE, the controller stays IDLE with every variable unchanged until
      the next `Master_StartTransmission`. */
  lemma {:induction false} IdleAbsorbing(v: MasterVars, samples: seq<Sample>)
    requires v.WellFormed() && v.state == Idle
    ensures Run(v, samples) == v
  {
    if samples != [] {
      IdleAbsorbing(v, samples[..|samples| - 1]);
    }
  }

  /** The arbitration flag and the ARB_LOST state go together: ARB_LOST is only
      entered with the flag set, and while the flag is set the controller is in
      ARB_LOST or IDLE. */
  predicate ArbitrationConsistent(v: MasterVars) {
    (v.state == ArbLost ==> v.arbitrationLost) &&
    (v.arbitrationLost ==> v.state == ArbLost || v.state == Idle)
  }

  /** `Master_StartTransmission` establishes the arbitration invariant, from any
      state. */
  lemma StartConsistent(v: MasterVars, data: seq<bv8>, address: bv16, dataLength: Uint8)
    requires v.WellFormed() && dataLength <= 8 && (dataLength <= |data| || 0 in data)
    ensures ArbitrationConsistent(Start(v, data, address, dataLength))
    ensures !Start(v, data, address, dataLength).arbitrationLost
  {
  }

  /** One edge keeps the arbitration invariant. */
  lemma OnClockConsistent(v: MasterVars, s: Sample)
    requires v.WellFormed() && ArbitrationConsistent(v)
    ensures ArbitrationConsistent(OnClock(v, s))
  {
  }

  /** Every run keeps the arbitration invariant. */
  lemma {:induction false} RunConsistent(v: MasterVars, samples: seq<Sample>)
    requires v.WellFormed() && ArbitrationConsistent(v)
    ensures ArbitrationConsistent(Run(v, samples))
  {
    if samples != [] {
      RunConsistent(v, samples[..|samples| - 1]);
      OnClockConsistent(Run(v, samples[..|samples| - 1]), samples[|samples| - 1]);
    }
  }

  /** The bound each state keeps on `bitPosition`: at most 5 pattern bits, at
      most 10 address bits, at most 8 data bits, none in STOP_SEQUENCE, and
      ARB_LOST entered after counting at least one address bit. */
  predicate PhaseBounds(v: MasterVars) {
    match v.state
    case Idle => true
    case StartSequence => v.bitPosition <= 5
    case SendAddress => v.bitPosition <= 10
    case SendReceiveData => v.bitPosition <= 8
    case StopSequence => v.bitPosition == 0
    case ArbLost => 1 <= v.bitPosition <= 10
    case ArbWon => true
  }

  /** One edge keeps the phase bounds. */
  lemma OnClockKeepsBounds(v: MasterVars, s: Sample)
    requires v.WellFormed() && PhaseBounds(v)
    ensures PhaseBounds(OnClock(v, s))
  {
    if v.state == SendAddress && v.bitPosition < 10 {
      AddressEdgeShape(v, s);
    }
  }

  /** Every run from a started transmission keeps the phase bounds. */
  lemma {:induction false} RunKeepsBounds(v: MasterVars, samples: seq<Sample>)
    requires v.WellFormed() && PhaseBounds(v)
    ensures PhaseBounds(Run(v, samples))
  {
    if samples != [] {
      RunKeepsBounds(v, samples[..|samples| - 1]);
      OnClockKeepsBounds(Run(v, samples[..|samples| - 1]), samples[|samples| - 1]);
    }
  }

  /** START_SEQUENCE below five bits drives entry `bitPosition` of the start
      pattern on the transmit pair, leaves the other output pins alone, and
      counts the bit. */
  lemma StartStep(v: MasterVars, s: Sample)
    requires v.WellFormed() && v.state == StartSequence && v.bitPosition < 5
    ensures var r := OnClock(v, s);
      r == v.(odr := r.odr, bitPosition := v.bitPosition + 1) &&
      TxPos(r.odr) == StartPattern[v.bitPosition] && TxNeg(r.odr) == !StartPattern[v.bitPosition] &&
      r.odr & !TX_PAIR_MASK == v.odr & !TX_PAIR_MASK
  {
    StartPatternBit(v.bitPosition);
  }

  /** The first `k` pattern edges from a count of zero count `k` bits, the
      last of them driving entry `k - 1` of the pattern. */
  lemma {:induction false} StartPrefix(v: MasterVars, samples: seq<Sample>, k: nat)
    requires v.WellFormed() && v.state == StartSequence && v.bitPosition == 0
    requires k <= 5 && k <= |samples|
    ensures var r := Run(v, samples[..k]);
      r == v.(odr := r.odr, bitPosition := k) && (k > 0 ==> TxPos(r.odr) == StartPattern[k - 1])
  {
    if k > 0 {
      assert samples[..k] == samples[..k - 1] + [samples[k - 1]];
      RunSnoc(v, samples[..k - 1], samples[k - 1]);
      StartPrefix(v, samples, k - 1);
      StartStep(Run(v, samples[..k - 1]), samples[k - 1]);
    }
  }

  /** Six edges from a started transmission: the first five drive the start
      pattern `1, 1, 0, 0, 1`, and the sixth drives nothing and moves to
      SEND_ADDRESS with the count restarted. */
  lemma SendStartPattern(v: MasterVars, samples: seq<Sample>)
    requires v.WellFormed() && v.state == StartSequence && v.bitPosition == 0 && |samples| == 6
    ensures forall i | 0 <= i < 5 :: TxPos(Run(v, samples[..i + 1]).odr) == StartPattern[i]
    ensures Run(v, samples) == v.(odr := Run(v, samples[..5]).odr, state := SendAddress, bitPosition := 0)
  {
    assert samples == samples[..5] + [samples[5]];
    RunSnoc(v, samples[..5], samples[5]);
    StartPrefix(v, samples, 5);
    forall i | 0 <= i < 5 ensures TxPos(Run(v, samples[..i + 1]).odr) == StartPattern[i] {
      StartPrefix(v, samples, i + 1);
    }
  }

  /** SEND_ADDRESS below ten bits, in the terms of the C test
      `masterAddress & (1 << (9 - bitPosition))`. */
  lemma AddressEdgeShape(v: MasterVars, s: Sample)
    requires v.WellFormed() && v.state == SendAddress && v.bitPosition < 10
    ensures var r := OnClock(v, s); var one := AddressBitSet(v.address, v.bitPosition);
      r == v.(odr := DriveDifferential(v.odr, if one then 1 else 0), bitPosition := v.bitPosition + 1,
              state := r.state, arbitrationLost := r.arbitrationLost) &&
      if one && !s.arbSense then r.state == ArbLost && r.arbitrationLost
      else r.state == SendAddress && r.arbitrationLost == v.arbitrationLost
  {
  }

  /** SEND_ADDRESS below ten bits: the edge drives bit `bitPosition` of the ten
      address bits, most significant first, and counts it; only a 1 bit
      consults the arbitration pin, and a low pin then means ARB_LOST with the
      flag set. Nothing else changes. */
  lemma AddressStep(v: MasterVars, s: Sample)
    requires v.WellFormed() && v.state == SendAddress && v.bitPosition < 10
    ensures var r := OnClock(v, s); var bit := Bit10(v.address, v.bitPosition);
      r == v.(odr := r.odr, bitPosition := v.bitPosition + 1, state := r.state,
              arbitrationLost := r.arbitrationLost) &&
      TxPos(r.odr) == bit && TxNeg(r.odr) == !bit && r.odr & !TX_PAIR_MASK == v.odr & !TX_PAIR_MASK &&
      if bit && !s.arbSense then r.state == ArbLost && r.arbitrationLost
      else r.state == SendAddress && r.arbitrationLost == v.arbitrationLost
  {
    AddressEdgeShape(v, s);
    TestAddressBit(v.address, v.bitPosition);
    assert AddressBitSet(v.address, v.bitPosition) == Bit10(v.address, v.bitPosition);
  }

  /** No other controller pulls the arbitration pin low while one of the first
      `k` address bits, a 1, is being sent. */
  predicate Uncontended(address: bv16, samples: seq<Sample>, k: nat)
    requires k <= 10 && k <= |samples|
  {
    forall i | 0 <= i < k :: Bit10(address, i) ==> samples[i].arbSense
  }

  /** The first `k` address edges, uncontended, count `k` bits, the last of
      them driving address bit `k - 1`. */
  lemma {:induction false} AddressPrefix(v: MasterVars, samples: seq<Sample>, k: nat)
    requires v.WellFormed() && v.state == SendAddress && v.bitPosition == 0
    requires k <= 10 && k <= |samples| && Uncontended(v.address, samples, k)
    ensures var r := Run(v, samples[..k]);
      r == v.(odr := r.odr, bitPosition := k) && (k > 0 ==> TxPos(r.odr) == Bit10(v.address, k - 1))
  {
    if k > 0 {
      assert samples[..k] == samples[..k - 1] + [samples[k - 1]];
      RunSnoc(v, samples[..k - 1], samples[k - 1]);
      AddressPrefix(v, samples, k - 1);
      AddressStep(Run(v, samples[..k - 1]), samples[k - 1]);
    }
  }

  /** Eleven edges in SEND_ADDRESS with no contention on a 1 bit: the first ten
      drive the ten address bits, most significant first, and the eleventh
      moves to SEND_RECEIVE_DATA with the count restarted. */
  lemma SendAddressBits(v: MasterVars, samples: seq<Sample>)
    requires v.WellFormed() && v.state == SendAddress && v.bitPosition == 0 && |samples| == 11
    requires Uncontended(v.address, samples, 10)
    ensures forall i | 0 <= i < 10 :: TxPos(Run(v, samples[..i + 1]).odr) == Low10(v.address)[i]
    ensures Run(v, samples) == v.(odr := Run(v, samples[..10]).odr, state := SendReceiveData, bitPosition := 0)
  {
    assert samples == samples[..10] + [samples[10]];
    RunSnoc(v, samples[..10], samples[10]);
    AddressPrefix(v, samples, 10);
    forall i | 0 <= i < 10 ensures TxPos(Run(v, samples[..i + 1]).odr) == Low10(v.address)[i] {
      AddressPrefix(v, samples, i + 1);
    }
  }

  /** A low arbitration pin while address bit `k`, a 1, is sent (the first
      contention): that edge enters ARB_LOST with the flag set and the count at
      `k + 1`, and nothing else but the output register changes. */
  lemma LoseArbitration(v: MasterVars, samples: seq<Sample>, k: nat)
    requires v.WellFormed() && v.state == SendAddress && v.bitPosition == 0
    requires k < 10 && k < |samples| && Uncontended(v.address, samples, k)
    requires Bit10(v.address, k) && !samples[k].arbSense
    ensures var r := Run(v, samples[..k + 1]);
      r == v.(odr := r.odr, state := ArbLost, arbitrationLost := true, bitPosition := k + 1)
  {
    assert samples[..k + 1] == samples[..k] + [samples[k]];
    AddressPrefix(v, samples, k);
    RunSnoc(v, samples[..k], samples[k]);
    AddressStep(Run(v, samples[..k]), samples[k]);
  }

  /** After a lost arbitration the next edge returns the controller to IDLE,
      and no later edge changes anything. */
  lemma IdleAfterLoss(v: MasterVars, first: seq<Sample>, rest: seq<Sample>)
    requires v.WellFormed() && Run(v, first).state == ArbLost && rest != []
    ensures Run(v, first + rest) == Run(v, first).(state := Idle)
  {
    var w := Run(v, first);
    RunFrom(v, first, rest);
    RunFrom(w, [rest[0]], rest[1..]);
    assert [rest[0]] + rest[1..] == rest;
    assert Run(w, [rest[0]]) == OnClock(Run(w, []), rest[0]);
    IdleAbsorbing(w.(state := Idle), rest[1..]);
  }

  /** Running two stretches of edges one after the other. */
  lemma {:induction false} RunFrom(v: MasterVars, first: seq<Sample>, rest: seq<Sample>)
    requires v.WellFormed()
    ensures Run(v, first + rest) == Run(Run(v, first), rest)
  {
    if rest != [] {
      var n := |rest|;
      assert (first + rest)[..|first| + n - 1] == first + rest[..n - 1];
      RunFrom(v, first, rest[..n - 1]);
    } else {
      assert first + rest == first;
    }
  }

  /** A data edge below eight bits drives bit `bitPosition` of `txData[0]`,
      most significant first, on the transmit pair. */
  lemma DataEdgeSends(v: MasterVars, b: bool)
    requires v.WellFormed() && v.bitPosition < 8
    ensures var bit := Bit8(v.txData[0], v.bitPosition);
      TxPos(DataEdge(v, b).odr) == bit && TxNeg(DataEdge(v, b).odr) == !bit
  {
    ExtractBit8(v.txData[0], v.bitPosition);
  }

  /** A data edge below eight bits ORs the mask of bit `bitPosition` into
      `rxData[0]` when the received bit is set, counts the bit, and changes
      nothing else but the output register. */
  lemma DataEdgeReceives(v: MasterVars, b: bool)
    requires v.WellFormed() && v.bitPosition < 8
    ensures var r := DataEdge(v, b);
      r == v.(odr := r.odr,
              rxData := v.rxData[0 := v.rxData[0] | (if b then BitMask8(v.bitPosition) else 0)],
              bitPosition := v.bitPosition + 1)
  {
    PlaceBit8(b, v.bitPosition);
  }

  /** One data edge below eight bits: the exchange above, staying in
      SEND_RECEIVE_DATA. */
  lemma DataBit(v: MasterVars, s: Sample)
    requires v.WellFormed() && v.state == SendReceiveData && v.bitPosition < 8
    ensures var r := OnClock(v, s);
      r == v.(odr := r.odr,
              rxData := v.rxData[0 := v.rxData[0] | (if s.pos then BitMask8(v.bitPosition) else 0)],
              bitPosition := v.bitPosition + 1) &&
      TxPos(r.odr) == Bit8(v.txData[0], v.bitPosition) && TxNeg(r.odr) == !Bit8(v.txData[0], v.bitPosition)
  {
    assert OnClock(v, s) == DataEdge(v, s.pos);
    DataEdgeSends(v, s.pos);
    DataEdgeReceives(v, s.pos);
  }

  /** Accumulating received bit `k - 1` after the first `k - 1` gives the
      state after the first `k`. */
  lemma ExchangeStep(v: MasterVars, w: MasterVars, r: MasterVars, bits: seq<bool>, k: nat)
    requires |v.rxData| == 8 && |bits| == 8 && 0 < k <= 8
    requires w == v.(odr := w.odr, rxData := v.rxData[0 := OrInBits(v.rxData[0], bits, k - 1)],
                     bitPosition := k - 1)
    requires r == w.(odr := r.odr, rxData := w.rxData[0 := w.rxData[0] | (if bits[k - 1] then BitMask8(k - 1) else 0)],
                     bitPosition := k)
    ensures r == v.(odr := r.odr, rxData := v.rxData[0 := OrInBits(v.rxData[0], bits, k)], bitPosition := k)
  {
    var x := OrInBits(v.rxData[0], bits, k);
    assert w.rxData[0] | (if bits[k - 1] then BitMask8(k - 1) else 0) == x;
    assert w.rxData[0 := x] == v.rxData[0 := x];
  }

  /** The bits the receive line carries on the given edges. */
  function Received(samples: seq<Sample>): (r: seq<bool>)
    ensures |r| == |samples| && forall i | 0 <= i < |samples| :: r[i] == samples[i].pos
  {
    seq(|samples|, i requires 0 <= i < |samples| => samples[i].pos)
  }

  /** After `k` data edges, `rxData[0]` has the first `k` received bits OR-ed
      into its first `k` positions, and only the output register and the count
      have otherwise changed. */
  lemma {:induction false} ExchangePrefix(v: MasterVars, samples: seq<Sample>, k: nat)
    requires v.WellFormed() && v.state == SendReceiveData && v.bitPosition == 0
    requires |samples| == 8 && k <= 8
    ensures var r := Run(v, samples[..k]);
      r == v.(odr := r.odr, rxData := v.rxData[0 := OrInBits(v.rxData[0], Received(samples), k)],
              bitPosition := k)
  {
    if k > 0 {
      assert samples[..k] == samples[..k - 1] + [samples[k - 1]];
      ExchangePrefix(v, samples, k - 1);
      DataSnoc(v, samples[..k - 1], samples[k - 1]);
      ExchangeStep(v, Run(v, samples[..k - 1]), Run(v, samples[..k]), Received(samples), k);
    }
  }

  /** A data edge appended to a run, in terms of the run before it. */
  lemma DataSnoc(v: MasterVars, samples: seq<Sample>, s: Sample)
    requires v.WellFormed() && Run(v, samples).state == SendReceiveData && Run(v, samples).bitPosition < 8
    ensures var w, r := Run(v, samples), Run(v, samples + [s]);
      r == w.(odr := r.odr,
              rxData := w.rxData[0 := w.rxData[0] | (if s.pos then BitMask8(w.bitPosition) else 0)],
              bitPosition := w.bitPosition + 1)
  {
    RunSnoc(v, samples, s);
    DataBit(Run(v, samples), s);
  }

  /** Eight data edges from the cleared receive buffer exchange a whole byte:
      `rxData[0]` holds the eight received bits, most significant first, and
      the `i`-th edge drove bit `i` of `txData[0]` on the transmit pair. */
  lemma ExchangeByte(v: MasterVars, samples: seq<Sample>)
    requires v.WellFormed() && v.state == SendReceiveData && v.bitPosition == 0 && v.rxData[0] == 0
    requires |samples| == 8
    ensures var r := Run(v, samples);
      r.state == SendReceiveData && r.bitPosition == 8 && Bits8(r.rxData[0]) == Received(samples) &&
      r.txData == v.txData && r.log == v.log && r.address == v.address
    ensures forall i | 0 <= i < 8 :: TxPos(Run(v, samples[..i + 1]).odr) == Bit8(v.txData[0], i)
  {
    ExchangePrefix(v, samples, 8);
    assert samples[..8] == samples;
    OrInBitsFromZero(Received(samples), 8);
    forall i | 0 <= i < 8 ensures TxPos(Run(v, samples[..i + 1]).odr) == Bit8(v.txData[0], i) {
      ExchangePrefix(v, samples, i);
      assert samples[..i + 1] == samples[..i] + [samples[i]];
      RunSnoc(v, samples[..i], samples[i]);
      DataBit(Run(v, samples[..i]), samples[i]);
    }
  }

  /** The completion edge stores `rxData[0]` at `oldDataIndex`, which then
      advances modulo 256, enters STOP_SEQUENCE, clears the receive buffer and
      restarts the count. */
  lemma CompletionEdge(v: MasterVars, s: Sample)
    requires v.WellFormed() && v.state == SendReceiveData && v.bitPosition >= 8
    ensures var r := OnClock(v, s);
      r == v.(log := r.log, state := StopSequence, rxData := Zeros(8), bitPosition := 0) &&
      r.log.buffer == v.log.buffer[v.log.index := v.rxData[0]] &&
      r.log.index == (v.log.index + 1) % 256
  {
  }

  /** The output pins STOP_SEQUENCE sets. */
  const STOP_MASK: bv32 := 0x30

  /** A STOP_SEQUENCE edge sets pins 4 and 5 of the output register, keeps every
      other pin, and changes nothing else. */
  lemma StopStep(v: MasterVars, s: Sample)
    requires v.WellFormed() && v.state == StopSequence
    ensures var r := OnClock(v, s);
      r == v.(odr := r.odr) && PinHigh(r.odr, RX_POS_PIN) && PinHigh(r.odr, RX_NEG_PIN) &&
      r.odr & !STOP_MASK == v.odr & !STOP_MASK
  {
  }

  /** STOP_SEQUENCE has no way out under the clock handler: any run keeps the
      state and every variable but the output register, and after at least one
      edge pins 4 and 5 are high. */
  lemma {:induction false} StopAbsorbing(v: MasterVars, samples: seq<Sample>)
    requires v.WellFormed() && v.state == StopSequence
    ensures var r := Run(v, samples);
      r == v.(odr := r.odr) && (samples != [] ==> PinHigh(r.odr, RX_POS_PIN) && PinHigh(r.odr, RX_NEG_PIN))
  {
    if samples != [] {
      StopAbsorbing(v, samples[..|samples| - 1]);
      StopStep(Run(v, samples[..|samples| - 1]), samples[|samples| - 1]);
    }
  }
}
