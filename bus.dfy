/** The two state machines wired together: the controller's transmit pair
    (pins 6 and 7 of its output register) feeds the responder's receive pair,
    one bit per clock edge. */
module Bus {
  import opened Bits
  import opened Gpio
  import Master
  import MasterProperties
  import Minion
  import MinionProperties

  /** The lines the controller drives on the first `n` edges of a run. */
  function Driven(m: Master.MasterVars, samples: seq<Master.Sample>, n: nat): (bits: seq<bool>)
    requires m.WellFormed() && n <= |samples|
    ensures |bits| == n
    ensures forall i | 0 <= i < n :: bits[i] == TxPos(Master.Run(m, samples[..i + 1]).odr)
  {
    seq(n, i requires 0 <= i < n => TxPos(Master.Run(m, samples[..i + 1]).odr))
  }

  /** The start pattern the controller drives after `Master_StartTransmission`
      is the one the responder listens for: fed the five pattern edges and the
      controller's sixth edge, a listening responder reaches LISTEN_ADDRESS. */
  lemma StartReachesResponder(m: Master.MasterVars, samples: seq<Master.Sample>,
                              n: Minion.MinionVars, last: Lines)
    requires m.WellFormed() && m.state == Master.StartSequence && m.bitPosition == 0 && |samples| == 6
    requires n.WellFormed() && n.state == Minion.ListenStart && n.bitIndex == 0 && last.pos != last.neg
    ensures Minion.Run(n, MinionProperties.Carries(Driven(m, samples, 5)) + [last]) ==
      n.(state := Minion.ListenAddress, bitIndex := 0)
  {
    MasterProperties.SendStartPattern(m, samples);
    assert Driven(m, samples, 5) == StartPattern;
    MinionProperties.RecognizeStart(n, last);
  }

  /** The ten address bits the controller drives, uncontended, are the ten
      bits the responder accumulates: its `minionAddress` ends with the low ten
      bits of `masterAddress`. */
  lemma AddressReachesResponder(m: Master.MasterVars, samples: seq<Master.Sample>, n: Minion.MinionVars)
    requires m.WellFormed() && m.state == Master.SendAddress && m.bitPosition == 0 && |samples| == 11
    requires MasterProperties.Uncontended(m.address, samples, 10)
    requires n.WellFormed() && n.state == Minion.ListenAddress && n.bitIndex == 0
    ensures Low10(Minion.Run(n, MinionProperties.Carries(Driven(m, samples, 10))).minionAddress) ==
      Low10(m.address)
  {
    MasterProperties.SendAddressBits(m, samples);
    assert Driven(m, samples, 10) == Low10(m.address);
    MinionProperties.ReceiveAddress(n, Low10(m.address));
  }
}
