/** The GPIOB output data register as both state machines see it, and the
    differential encoder that drives the transmit pair. Pin numbers are those of
    `minion.c` and `master.c`, which agree. */
module Gpio {

  const TX_POS_PIN: nat := 6
  const TX_NEG_PIN: nat := 7
  const RX_POS_PIN: nat := 4
  const RX_NEG_PIN: nat := 5

  /** One sample of a receive pair: the positive and the negative line. */
  datatype Lines = Lines(pos: bool, neg: bool)

  /** The pair that carries bit `b` on a differential link. */
  function Carry(b: bool): (r: Lines) {
    Lines(b, !b)
  }

  /** Whether pin `pin` of the output register is high. */
  predicate PinHigh(odr: bv32, pin: nat)
    requires pin < 32
  {
    odr & (1 << pin) != 0
  }

  /** The transmit pair's bits in the output register. */
  const TX_PAIR_MASK: bv32 := 0xC0

  /** Read-modify-write of `Minion_SendBit`: a nonzero bit drives TX+ high and
      TX- low, a zero bit drives TX+ low and TX- high. */
  function DriveDifferential(odr: bv32, bit: bv8): (r: bv32)
    ensures PinHigh(r, TX_POS_PIN) == (bit != 0)
    ensures PinHigh(r, TX_NEG_PIN) == (bit == 0)
    // every pin outside the transmit pair keeps its level
    ensures r & !TX_PAIR_MASK == odr & !TX_PAIR_MASK
  {
    if bit != 0 then
      (odr | (1 << TX_POS_PIN)) & !(1 << TX_NEG_PIN)
    else
      (odr & !(1 << TX_POS_PIN)) | (1 << TX_NEG_PIN)
  }

  /** The pair a peer samples on its receive lines when wired to this register's
      transmit pins. */
  function TxPos(odr: bv32): (high: bool) {
    PinHigh(odr, TX_POS_PIN)
  }

  /** The negative line of that pair. */
  function TxNeg(odr: bv32): (high: bool) {
    PinHigh(odr, TX_NEG_PIN)
  }
}
