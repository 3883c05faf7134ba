/** What `Minion_Clock_Handle` does over one edge and over runs of edges,
    stated on its specification `Minion.OnClock`. */
module MinionProperties {
  import opened Bits
  import opened Gpio
  import opened LibC
  import opened OverflowLog
  import opened Minion

  /** The edges that carry `bits` on a differential pair, one bit per edge. */
  function Carries(bits: seq<bool>): (r: seq<Lines>)
    ensures |r| == |bits| && forall i | 0 <= i < |bits| :: r[i] == Carry(bits[i])
  {
    seq(|bits|, i requires 0 <= i < |bits| => Carry(bits[i]))
  }

  /** The edges carrying the first `k` bits are those carrying the first
      `k - 1` followed by the edge carrying bit `k - 1`. */
  lemma CarriesPrefix(bits: seq<bool>, k: nat)
    requires 0 < k <= |bits|
    ensures Carries(bits[..k]) == Carries(bits[..k - 1]) + [Carry(bits[k - 1])]
  {
  }

  /** A run followed by one more edge. */
  lemma RunSnoc(v: MinionVars, edges: seq<Lines>, e: Lines)
    requires v.WellFormed()
    ensures Run(v, edges + [e]) == OnClock(Run(v, edges), e.pos, e.neg)
  {
    assert (edges + [e])[..|edges|] == edges;
  }

  /** Equal receive lines are the stop condition: the state becomes IDLE and
      nothing else changes on that edge. */
  lemma StopCondition(v: MinionVars, line: bool)
    requires v.WellFormed()
    ensures OnClock(v, line, line) == v.(state := Idle)
  {
  }

  /** No edge leaves IDLE or changes anything in it, whatever the lines carry. */
  lemma IdleStep(v: MinionVars, pos: bool, neg: bool)
    requires v.WellFormed() && v.state == Idle
    ensures OnClock(v, pos, neg) == v
  {
  }

  /** Once IDLE, a responder stays IDLE with every variable unchanged. */
  lemma {:induction false} IdleAbsorbing(v: MinionVars, edges: seq<Lines>)
    requires v.WellFormed() && v.state == Idle
    ensures Run(v, edges) == v
  {
    if edges != [] {
      IdleAbsorbing(v, edges[..|edges| - 1]);
    }
  }

  /** The bound each state keeps on `bitIndex`: at most 5 start bits, at most 10
      address bits, at most 8 data bits, and none yet when SELECTED. */
  predicate PhaseBounds(v: MinionVars) {
    match v.state
    case Idle => true
    case ListenStart => v.bitIndex <= 5
    case ListenAddress => v.bitIndex <= 10
    case Selected => v.bitIndex == 0
    case SendReceiveData => v.bitIndex <= 8
  }

  /** One edge keeps the phase bounds. */
  lemma OnClockKeepsBounds(v: MinionVars, pos: bool, neg: bool)
    requires v.WellFormed() && PhaseBounds(v)
    ensures PhaseBounds(OnClock(v, pos, neg))
  {
  }

  /** Every run keeps the phase bounds; in particular `bitIndex` never
      exceeds 5 while listening for the start pattern. */
  lemma {:induction false} RunKeepsBounds(v: MinionVars, edges: seq<Lines>)
    requires v.WellFormed() && PhaseBounds(v)
    ensures PhaseBounds(Run(v, edges))
  {
    if edges != [] {
      var w := Run(v, edges[..|edges| - 1]);
      RunKeepsBounds(v, edges[..|edges| - 1]);
      OnClockKeepsBounds(w, edges[|edges| - 1].pos, edges[|edges| - 1].neg);
    }
  }

  /** LISTEN_START below five bits: a bit equal to entry `bitIndex` of the
      start pattern advances the count, any other bit restarts it, and
      nothing else changes. */
  lemma ListenStartStep(v: MinionVars, pos: bool, neg: bool)
    requires v.WellFormed() && v.state == ListenStart && v.bitIndex < 5 && pos != neg
    ensures OnClock(v, pos, neg) ==
      v.(bitIndex := if pos == StartPattern[v.bitIndex] then v.bitIndex + 1 else 0)
  {
    StartPatternBit(v.bitIndex);
  }

  /** LISTEN_START at five bits: the edge moves to LISTEN_ADDRESS with the
      count restarted, and its bit is ignored. */
  lemma ListenStartDone(v: MinionVars, pos: bool, neg: bool)
    requires v.WellFormed() && v.state == ListenStart && v.bitIndex >= 5 && pos != neg
    ensures OnClock(v, pos, neg) == v.(state := ListenAddress, bitIndex := 0)
  {
  }

  /** The first `k` edges of the start pattern, from a count of zero, count
      `k` bits. */
  lemma {:induction false} StartPrefix(v: MinionVars, k: nat)
    requires v.WellFormed() && v.state == ListenStart && v.bitIndex == 0 && k <= 5
    ensures Run(v, Carries(StartPattern[..k])) == v.(bitIndex := k)
  {
    if k > 0 {
      CarriesPrefix(StartPattern, k);
      RunSnoc(v, Carries(StartPattern[..k - 1]), Carry(StartPattern[k - 1]));
      StartPrefix(v, k - 1);
      ListenStartStep(v.(bitIndex := k - 1), StartPattern[k - 1], !StartPattern[k - 1]);
    }
  }

  /** The five pattern edges followed by one more valid edge bring a listening
      responder, from a count of zero, to LISTEN_ADDRESS with the count
      restarted and every other variable unchanged. */
  lemma RecognizeStart(v: MinionVars, last: Lines)
    requires v.WellFormed() && v.state == ListenStart && v.bitIndex == 0 && last.pos != last.neg
    ensures Run(v, Carries(StartPattern) + [last]) == v.(state := ListenAddress, bitIndex := 0)
  {
    assert StartPattern[..5] == StartPattern;
    StartPrefix(v, 5);
    RunSnoc(v, Carries(StartPattern), last);
    ListenStartDone(v.(bitIndex := 5), last.pos, last.neg);
  }

  /** LISTEN_ADDRESS below ten bits: the received bit is shifted into
      `minionAddress` and counted, and nothing else changes. */
  lemma AddressStep(v: MinionVars, pos: bool, neg: bool)
    requires v.WellFormed() && v.state == ListenAddress && v.bitIndex < 10 && pos != neg
    ensures OnClock(v, pos, neg) ==
      v.(minionAddress := (v.minionAddress << 1) | BitValue16(pos), bitIndex := v.bitIndex + 1)
  {
  }

  /** Shifting a bit into an address appends it to every tail of the ten low
      bits that the shift keeps. */
  lemma ShiftSuffix10(a: bv16, b: bool, k: nat)
    requires 0 < k <= 10
    ensures Low10((a << 1) | BitValue16(b))[10 - k..] == Low10(a)[10 - (k - 1)..] + [b]
  {
    ShiftIn10(a, b);
    assert (Low10(a)[1..] + [b])[10 - k..] == Low10(a)[1..][10 - k..] + [b];
  }

  /** After `k` address edges the last `k` of the ten low address bits are the
      bits received, most significant first. */
  lemma {:induction false} AddressPrefix(v: MinionVars, bits: seq<bool>, k: nat)
    requires v.WellFormed() && v.state == ListenAddress && v.bitIndex == 0
    requires |bits| == 10 && k <= 10
    ensures var r := Run(v, Carries(bits[..k]));
      r == v.(minionAddress := r.minionAddress, bitIndex := k) &&
      Low10(r.minionAddress)[10 - k..] == bits[..k]
  {
    if k > 0 {
      CarriesPrefix(bits, k);
      RunSnoc(v, Carries(bits[..k - 1]), Carry(bits[k - 1]));
      AddressPrefix(v, bits, k - 1);
      var w := Run(v, Carries(bits[..k - 1]));
      AddressStep(w, bits[k - 1], !bits[k - 1]);
      ShiftSuffix10(w.minionAddress, bits[k - 1], k);
      assert bits[..k] == bits[..k - 1] + [bits[k - 1]];
    }
  }

  /** Ten address edges leave the low ten bits of `minionAddress` equal to the
      ten bits received, most significant first, with nothing else changed
      but the count. */
  lemma ReceiveAddress(v: MinionVars, bits: seq<bool>)
    requires v.WellFormed() && v.state == ListenAddress && v.bitIndex == 0 && |bits| == 10
    ensures var r := Run(v, Carries(bits));
      r == v.(minionAddress := r.minionAddress, bitIndex := 10) && Low10(r.minionAddress) == bits
  {
    AddressPrefix(v, bits, 10);
    assert bits[..10] == bits;
  }

  /** The edge after the address always selects the responder, whatever
      address was received, because the comparison at minion.c:115 is a
      tautology. */
  lemma AddressAlwaysSelected(v: MinionVars, pos: bool, neg: bool)
    requires v.WellFormed() && v.state == ListenAddress && v.bitIndex >= 10 && pos != neg
    ensures OnClock(v, pos, neg) == v.(state := Selected, bitIndex := 0)
  {
  }

  /** A data edge below eight bits drives bit `bitIndex` of `txData[0]`,
      most significant first, on the transmit pair. */
  lemma DataEdgeSends(v: MinionVars, b: bool)
    requires v.WellFormed() && v.bitIndex < 8
    ensures var bit := Bit8(v.txData[0], v.bitIndex);
      TxPos(DataEdge(v, b).odr) == bit && TxNeg(DataEdge(v, b).odr) == !bit
  {
    ExtractBit8(v.txData[0], v.bitIndex);
  }

  /** A data edge below eight bits ORs the mask of bit `bitIndex` into
      `rxData[0]` when the received bit is set, advances the count, and
      changes nothing else but the output register. */
  lemma DataEdgeReceives(v: MinionVars, b: bool)
    requires v.WellFormed() && v.bitIndex < 8
    ensures var r := DataEdge(v, b);
      r == v.(odr := r.odr,
              rxData := v.rxData[0 := v.rxData[0] | (if b then BitMask8(v.bitIndex) else 0)],
              bitIndex := v.bitIndex + 1)
  {
    PlaceBit8(b, v.bitIndex);
  }

  /** SELECTED falls through: the same edge enters SEND_RECEIVE_DATA, drives
      bit 7 of `txData[0]` on the transmit pair and ORs the received bit into
      bit 7 of `rxData[0]`. */
  lemma SelectedFallsThrough(v: MinionVars, pos: bool, neg: bool)
    requires v.WellFormed() && v.state == Selected && v.bitIndex == 0 && pos != neg
    ensures var r := OnClock(v, pos, neg);
      r == v.(state := SendReceiveData, odr := r.odr,
              rxData := v.rxData[0 := v.rxData[0] | (if pos then 0x80 else 0)], bitIndex := 1) &&
      TxPos(r.odr) == Bit8(v.txData[0], 0) && TxNeg(r.odr) == !Bit8(v.txData[0], 0)
  {
    var w := v.(state := SendReceiveData);
    assert OnClock(v, pos, neg) == DataEdge(w, pos);
    DataEdgeSends(w, pos);
    DataEdgeReceives(w, pos);
  }

  /** One data edge below eight bits in SEND_RECEIVE_DATA: the exchange above,
      staying in that state. */
  lemma DataBit(v: MinionVars, pos: bool, neg: bool)
    requires v.WellFormed() && v.state == SendReceiveData && v.bitIndex < 8 && pos != neg
    ensures var r := OnClock(v, pos, neg);
      r == v.(odr := r.odr,
              rxData := v.rxData[0 := v.rxData[0] | (if pos then BitMask8(v.bitIndex) else 0)],
              bitIndex := v.bitIndex + 1) &&
      TxPos(r.odr) == Bit8(v.txData[0], v.bitIndex) && TxNeg(r.odr) == !Bit8(v.txData[0], v.bitIndex)
  {
    assert OnClock(v, pos, neg) == DataEdge(v, pos);
    DataEdgeSends(v, pos);
    DataEdgeReceives(v, pos);
  }

  /** Accumulating bit `k - 1` of `bits` after the first `k - 1` gives the
      state after the first `k`. */
  lemma ExchangeStep(v: MinionVars, w: MinionVars, r: MinionVars, bits: seq<bool>, k: nat)
    requires |v.rxData| == 8 && |bits| == 8 && 0 < k <= 8
    requires w == v.(odr := w.odr, rxData := v.rxData[0 := OrInBits(v.rxData[0], bits, k - 1)], bitIndex := k - 1)
    requires r == w.(odr := r.odr, rxData := w.rxData[0 := w.rxData[0] | (if bits[k - 1] then BitMask8(k - 1) else 0)],
                     bitIndex := k)
    ensures r == v.(odr := r.odr, rxData := v.rxData[0 := OrInBits(v.rxData[0], bits, k)], bitIndex := k)
  {
    var x := OrInBits(v.rxData[0], bits, k);
    assert w.rxData[0] | (if bits[k - 1] then BitMask8(k - 1) else 0) == x;
    assert w.rxData[0 := x] == v.rxData[0 := x];
  }

  /** After `k` data edges carrying `bits`, `rxData[0]` has the first `k` of
      them OR-ed into its first `k` positions, and only the output register and
      the count have otherwise changed. */
  lemma {:induction false} ExchangePrefix(v: MinionVars, bits: seq<bool>, k: nat)
    requires v.WellFormed() && v.state == SendReceiveData && v.bitIndex == 0
    requires |bits| == 8 && k <= 8
    ensures var r := Run(v, Carries(bits[..k]));
      r == v.(odr := r.odr, rxData := v.rxData[0 := OrInBits(v.rxData[0], bits, k)], bitIndex := k)
  {
    if k == 0 {
      assert Carries(bits[..0]) == [];
    } else {
      var e := Carry(bits[k - 1]);
      assert e.pos == bits[k - 1] && e.neg == !bits[k - 1];
      CarriesPrefix(bits, k);
      RunSnoc(v, Carries(bits[..k - 1]), e);
      ExchangePrefix(v, bits, k - 1);
      var w := Run(v, Carries(bits[..k - 1]));
      DataBit(w, e.pos, e.neg);
      ExchangeStep(v, w, OnClock(w, e.pos, e.neg), bits, k);
    }
  }

  /** Eight data edges from a cleared receive byte exchange a whole byte: the
      receive byte holds the eight bits received, most significant first, and
      the `i`-th edge drove bit `i` of `txData[0]` on the transmit pair. */
  lemma ExchangeByte(v: MinionVars, bits: seq<bool>)
    requires v.WellFormed() && v.state == SendReceiveData && v.bitIndex == 0 && v.rxData[0] == 0
    requires |bits| == 8
    ensures var r := Run(v, Carries(bits));
      r.state == SendReceiveData && r.bitIndex == 8 && Bits8(r.rxData[0]) == bits &&
      r.txData == v.txData && r.log == v.log && r.minionAddress == v.minionAddress
    ensures forall i | 0 <= i < 8 :: TxPos(Run(v, Carries(bits[..i + 1])).odr) == Bit8(v.txData[0], i)
  {
    ExchangePrefix(v, bits, 8);
    assert bits[..8] == bits;
    OrInBitsFromZero(bits, 8);
    forall i | 0 <= i < 8 ensures TxPos(Run(v, Carries(bits[..i + 1])).odr) == Bit8(v.txData[0], i) {
      ExchangePrefix(v, bits, i);
      CarriesPrefix(bits, i + 1);
      RunSnoc(v, Carries(bits[..i]), Carry(bits[i]));
      DataBit(Run(v, Carries(bits[..i])), bits[i], !bits[i]);
    }
  }

  /** The completion edge stores `rxData[0]` at `oldDataIndex`, which then
      advances modulo 256, clears the receive buffer and restarts the count,
      staying in SEND_RECEIVE_DATA. */
  lemma CompletionEdge(v: MinionVars, pos: bool, neg: bool)
    requires v.WellFormed() && v.state == SendReceiveData && v.bitIndex >= 8 && pos != neg
    ensures var r := OnClock(v, pos, neg);
      r == v.(log := r.log, rxData := Zeros(8), bitIndex := 0) &&
      r.log.buffer == v.log.buffer[v.log.index := v.rxData[0]] &&
      r.log.index == (v.log.index + 1) % 256
  {
  }
}
