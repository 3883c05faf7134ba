/** The overflow store both state machines keep for completed bytes:
    `oldDataBuffer[1024]` written through the 8-bit `oldDataIndex`
    (minion.c:9-10, master.c:15-16). */
module OverflowLog {
  import opened Bits

  const OLD_DATA_SIZE: nat := 1024

  /** The buffer and the `uint8_t` index that says where the next byte goes. */
  datatype Log = Log(buffer: seq<bv8>, index: Uint8)

  /** `if (oldDataIndex < 1024) oldDataBuffer[oldDataIndex++] = b;`, as written.
      An 8-bit index is always below 1024, so the guard never refuses and the
      index wraps from 255 to 0. */
  function Capture(log: Log, b: bv8): (r: Log)
    requires |log.buffer| == OLD_DATA_SIZE
    ensures |r.buffer| == OLD_DATA_SIZE
    // the guard always admits the byte, and the 8-bit index wraps
    ensures r.buffer == log.buffer[log.index := b]
    ensures r.index == (log.index + 1) % 256
  {
    if log.index < OLD_DATA_SIZE then
      Log(log.buffer[log.index := b], (log.index + 1) % 256)
    else
      log
  }

  /** The log after capturing `bs` in order. */
  function CaptureAll(log: Log, bs: seq<bv8>): (r: Log)
    requires |log.buffer| == OLD_DATA_SIZE
    ensures |r.buffer| == OLD_DATA_SIZE
  {
    if bs == [] then log else Capture(CaptureAll(log, bs[..|bs| - 1]), bs[|bs| - 1])
  }

  /** Up to 256 captures from an empty index land in slots 0, 1, 2, ... in
      order, and the index counts them modulo 256. */
  lemma {:induction false} CaptureAllInOrder(log: Log, bs: seq<bv8>)
    requires |log.buffer| == OLD_DATA_SIZE && log.index == 0 && |bs| <= 256
    ensures CaptureAll(log, bs).index == |bs| % 256
    ensures forall j | 0 <= j < |bs| :: CaptureAll(log, bs).buffer[j] == bs[j]
    ensures forall j | |bs| <= j < OLD_DATA_SIZE :: CaptureAll(log, bs).buffer[j] == log.buffer[j]
  {
    if bs != [] {
      var n := |bs|;
      var prev := CaptureAll(log, bs[..n - 1]);
      CaptureAllInOrder(log, bs[..n - 1]);
      assert prev.index == n - 1;
      var r := Capture(prev, bs[n - 1]);
      assert r == CaptureAll(log, bs);
      forall j | 0 <= j < n ensures r.buffer[j] == bs[j] {
        if j < n - 1 {
          assert prev.buffer[j] == bs[..n - 1][j];
        }
      }
    }
  }

  /** As written, the 257th captured byte overwrites the first although 767
      slots of the buffer were never used. */
  lemma FirstByteLostAfter256(log: Log, bs: seq<bv8>)
    requires |log.buffer| == OLD_DATA_SIZE && log.index == 0 && |bs| == 257
    ensures CaptureAll(log, bs).buffer[0] == bs[256]
    ensures CaptureAll(log, bs).buffer[256] == log.buffer[256]
  {
    CaptureAllInOrder(log, bs[..256]);
  }

  /** The capture the guard evidently intends: an index wide enough to reach
      1024, so that the buffer fills once and later bytes are dropped. */
  datatype WideLog = WideLog(buffer: seq<bv8>, index: nat)

  function CaptureBounded(log: WideLog, b: bv8): (r: WideLog)
    requires |log.buffer| == OLD_DATA_SIZE && log.index <= OLD_DATA_SIZE
    ensures |r.buffer| == OLD_DATA_SIZE && r.index <= OLD_DATA_SIZE
  {
    if log.index < OLD_DATA_SIZE then WideLog(log.buffer[log.index := b], log.index + 1) else log
  }

  function CaptureAllBounded(log: WideLog, bs: seq<bv8>): (r: WideLog)
    requires |log.buffer| == OLD_DATA_SIZE && log.index <= OLD_DATA_SIZE
    ensures |r.buffer| == OLD_DATA_SIZE && r.index <= OLD_DATA_SIZE
  {
    if bs == [] then log else CaptureBounded(CaptureAllBounded(log, bs[..|bs| - 1]), bs[|bs| - 1])
  }

  /** With the wide index, starting empty, the buffer holds the first 1024
      captured bytes in order, no stored byte is ever overwritten, and every
      byte beyond the capacity is dropped. */
  lemma {:induction false} CaptureBoundedKeepsFirst(log: WideLog, bs: seq<bv8>)
    requires |log.buffer| == OLD_DATA_SIZE && log.index == 0
    ensures CaptureAllBounded(log, bs).index == if |bs| < OLD_DATA_SIZE then |bs| else OLD_DATA_SIZE
    ensures forall j | 0 <= j < |bs| && j < OLD_DATA_SIZE :: CaptureAllBounded(log, bs).buffer[j] == bs[j]
  {
    if bs != [] {
      CaptureBoundedKeepsFirst(log, bs[..|bs| - 1]);
    }
  }
}
