/** How long an RTU packet is, judged from the bytes received so far (packet_reader.go). */
module RtuSize {
  import opened Bytes
  import opened Modbus
  import Crc

  const SMALLEST_RTU_SIZE := 5

  /** The size of the packet that `header` starts, in one direction, or the shortest it can be. */
  function OneWaySize(limits: Limits, header: seq<Byte>, isClient: bool): nat {
    if |header| < 3 then 3
    else PduSize(limits, header[1..], isClient && header[0] != 0) + 3
  }

  /** Either direction; the checksum decides where the two disagree. */
  function EitherWaySize(limits: Limits, header: seq<Byte>): nat {
    var a, b := OneWaySize(limits, header, false), OneWaySize(limits, header, true);
    var s, l := Min(a, b), if a < b then b else a;
    if s == l || s > |header| then s
    else if l <= |header| && Crc.Valid(header[..l]) then l
    else if Crc.Valid(header[..s]) then s
    else l
  }

  /** Either direction, one of them preferred. */
  function PreferredSize(limits: Limits, header: seq<Byte>, isClient: bool): nat {
    var size := OneWaySize(limits, header, isClient);
    if size > |header| || Crc.Valid(header[..size]) then size
    else
      var size2 := OneWaySize(limits, header, !isClient);
      if size2 > |header| || Crc.Valid(header[..size2]) then size2
      else Min(size, size2)
  }

  /** Either direction; after a packet that reads as a request, a reply is not preferred and vice versa. */
  function EitherWaySize2(limits: Limits, header: seq<Byte>, last: seq<Byte>): nat {
    PreferredSize(limits, header, |last| != 0 && |last| != OneWaySize(limits, last, false))
  }

  /** On a shared two-wire bus. */
  function TwoWireSize(limits: Limits, header: seq<Byte>, isClient: bool, slaveId: Byte, last: seq<Byte>): nat {
    if |header| < 3 then 3
    else if isClient || header[0] == slaveId then OneWaySize(limits, header, isClient)
    else EitherWaySize2(limits, header, last)
  }

  lemma PduSizeStable(limits: Limits, h: seq<Byte>, h': seq<Byte>, isClient: bool)
    requires h <= h'
    ensures PduSize(limits, h, isClient) <= PduSize(limits, h', isClient)
    ensures PduSize(limits, h, isClient) <= |h| ==> PduSize(limits, h', isClient) == PduSize(limits, h, isClient)
  {}

  /**
   Reading on never shortens the inferred size, and once enough bytes are there it is settled:
   in both directions, with and without oversize packets.
   */
  lemma SizeStable(limits: Limits, h: seq<Byte>, h': seq<Byte>, isClient: bool)
    requires h <= h'
    ensures OneWaySize(limits, h, isClient) <= OneWaySize(limits, h', isClient)
    ensures OneWaySize(limits, h, isClient) <= |h| ==> OneWaySize(limits, h', isClient) == OneWaySize(limits, h, isClient)
  {
    if |h| >= 3 {
      PduSizeStable(limits, h[1..], h'[1..], isClient && h[0] != 0);
    }
  }

  lemma SizeAtLeast(limits: Limits, h: seq<Byte>, isClient: bool)
    requires |h| >= 3
    ensures OneWaySize(limits, h, isClient) >= SMALLEST_RTU_SIZE
  {}
}
