/** What the size of the caller's buffer does to the packet reader: packets it does not test, and bytes it loses. */
module ReaderBuffer {
  import opened Bytes
  import opened Modbus
  import opened RtuSize
  import opened ReaderModel
  import opened ReaderSafety
  import opened ReaderFraming
  import Crc

  // ----- a read that fills the buffer

  /**
   What a call of Read returned without an error passed the checksum test if it is shorter than the buffer, and was not
   tested if it fills it; so a caller can tell by the length. This holds of every call after any run, in every mode.
   */
  lemma TestedIffShorter(cfg: Config, c: Call)
    requires c.Returned? && Good(cfg, c) && !c.failed
    ensures var fate := c.r.log[|c.r.log| - 1].fate;
            && (fate == Packet <==> |c.bytes| < cfg.size) && (fate == Full <==> |c.bytes| == cfg.size)
            && (|c.bytes| < cfg.size ==> cfg.valid(c.bytes))
  {
    assert SegmentOk(cfg, c.r.log[|c.r.log| - 1]);
  }

  /** Bytes that fill the buffer at once are returned, whatever they are. */
  lemma FilledIsReturned(cfg: Config, at: int, e: PortRead)
    requires |e.data| == cfg.size && !e.failed
    ensures Resume(cfg, Fresh(cfg, at), e).Returned?
    ensures var c := Resume(cfg, Fresh(cfg, at), e);
            !c.failed && c.bytes == e.data && c.r.log == [Segment(Full, e.data)]
  {}

  /** A packet with a bad checksum that Read returns, in every mode: it has the size of the buffer. */
  lemma UntestedPacket(mode: Mode, limits: Limits, cutoff: nat -> int, at: int) returns (e: PortRead)
    ensures !Crc.Valid(e.data) && |e.data| == 5
    ensures var cfg := RtuReader(mode, limits, cutoff, 5);
            var c := Resume(cfg, Fresh(cfg, at), e);
            c.Returned? && !c.failed && c.bytes == e.data
  {
    var f := Crc.Sum([1, 3, 0]);
    Crc.SumIsValid([1, 3, 0]);
    var g := f[4 := (f[4] + 1) % 256];
    Crc.AdjacentBytesDetected(f, g, 3);
    e := PortRead(g, false, at, at);
    FilledIsReturned(RtuReader(mode, limits, cutoff, 5), at, e);
  }

  // ----- a buffer smaller than what was carried over

  lemma LogTakes(log: seq<Segment>, fate: Fate, bytes: seq<Byte>)
    ensures BytesOf(log + [Segment(fate, bytes)]) == BytesOf(log) + bytes
  {
    assert (log + [Segment(fate, bytes)])[..|log|] == log;
  }

  lemma CloseTakes(cfg: Config, r: Reader, held: seq<Byte>, expected: nat)
    requires SMALLEST_RTU_SIZE <= expected <= |held| <= cfg.size && r.last == []
    ensures Taken(Close(cfg, r, held, expected)) == BytesOf(r.log) + held
  {
    if |held| > expected && cfg.valid(held[..expected]) {
      LogTakes(r.log, Packet, held[..expected]);
      assert BytesOf(r.log) + held[..expected] + held[expected..] == BytesOf(r.log) + held;
    } else if cfg.valid(held) {
      LogTakes(r.log, Packet, held);
    } else {
      LogTakes(r.log, BadCrc, held);
      BeginEmpty(cfg, r.(stats := r.stats.(crcErrors := r.stats.crcErrors + 1)).Note(BadCrc, held));
    }
  }

  /** A call of Read takes up of the bytes carried over what its buffer has room for. */
  lemma BeginTakes(cfg: Config, r: Reader)
    ensures Taken(Begin(cfg, r)) == BytesOf(r.log) + r.last[..Min(|r.last|, cfg.size)]
  {
    if r.last == [] {
      BeginEmpty(cfg, r);
    } else {
      var r1 := r.(stats := r.stats.(readPackets := r.stats.readPackets + 1));
      var held := r.last[..Min(|r.last|, cfg.size)];
      var e := if |held| < SMALLEST_RTU_SIZE then SMALLEST_RTU_SIZE else cfg.sizeOf(held, r.lastRtu);
      CarriedTaken(cfg, r1, SMALLEST_RTU_SIZE);
      if |held| >= e { CloseTakes(cfg, r1.(last := []), held, e); }
    }
  }

  /** So no byte is lost exactly if all that was carried over fits the buffer of the call. */
  lemma BeginConservesIff(cfg: Config, r: Reader)
    ensures Taken(Begin(cfg, r)) == BytesOf(r.log) + r.last <==> |r.last| <= cfg.size
  {
    BeginTakes(cfg, r);
    if |r.last| <= cfg.size { assert r.last[..Min(|r.last|, cfg.size)] == r.last; }
  }

  /** A packet and the bytes t behind it arrive together: t is carried over. */
  lemma CarriedOver(cfg: Config, f: seq<Byte>, t: seq<Byte>, at: int)
    requires Framed(cfg, f) && |f + t| < cfg.size
    ensures var c := Resume(cfg, Fresh(cfg, at), PortRead(f + t, false, at, at));
            c.Returned? && c.bytes == f && c.r.last == t && c.r.log == [Segment(Packet, f)]
  {
    var r := Fresh(cfg, at).r.(lastReadAt := at);
    assert [] + (f + t) == f + t && (f + t)[|f|..] == t;
    FirstFrame(cfg, r, f + t, SMALLEST_RTU_SIZE, f);
  }

  /** If Read is then called with a buffer for less than t, the rest of t is lost. */
  lemma LongReadLoses(cfg: Config, smaller: Config, f: seq<Byte>, t: seq<Byte>, at: int)
    requires Framed(cfg, f) && |f + t| < cfg.size && smaller.size < |t|
    ensures var c := Resume(cfg, Fresh(cfg, at), PortRead(f + t, false, at, at));
            && c.Returned? && c.r.last == t && Taken(c) == f + t
            && |Taken(Begin(smaller, c.r))| == |f| + smaller.size
  {
    CarriedOver(cfg, f, t, at);
    var c := Resume(cfg, Fresh(cfg, at), PortRead(f + t, false, at, at));
    LogTakes([], Packet, f);
    assert BytesOf(c.r.log) == f;
    BeginTakes(smaller, c.r);
  }

  /** A run of the library's reader that loses a byte: a packet and six more arrive in a buffer of 256, the next has five. */
  lemma SmallerBufferLoses(limits: Limits, cutoff: nat -> int, at: int) returns (e: PortRead)
    ensures |e.data| == 11
    ensures var cfg, smaller := RtuReader(OneWay(true), limits, cutoff, 256), RtuReader(OneWay(true), limits, cutoff, 5);
            var c := Resume(cfg, Fresh(cfg, at), e);
            c.Returned? && |c.r.last| == 6 && Taken(c) == e.data && |Taken(Begin(smaller, c.r))| == 10
  {
    var f, t := Crc.Sum([1, 0x81, 2]), [0, 0, 0, 0, 0, 0];
    Crc.SumIsValid([1, 0x81, 2]);
    e := PortRead(f + t, false, at, at);
    ExceptionIsFrame(limits, f);
    FramesAreFramed(OneWay(true), limits, cutoff, 256, f);
    LongReadLoses(RtuReader(OneWay(true), limits, cutoff, 256), RtuReader(OneWay(true), limits, cutoff, 5), f, t, at);
  }

  lemma ExceptionIsFrame(limits: Limits, f: seq<Byte>)
    requires |f| == 5 && f[..3] == [1, 0x81, 2] && Crc.Valid(f)
    ensures IsFrame(limits, true, f)
  {
    assert f[0] == f[..3][0] && f[1] == f[..3][1];
  }
}
