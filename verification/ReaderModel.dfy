/**
 What rtuPacketReader.Read does with the bytes of a port, as functions on values. A call either waits for the port,
 at the one place where the code reads it, or has returned; everything between two port reads is deterministic.
 */
module ReaderModel {
  import opened Bytes
  import opened Modbus
  import opened RtuSize
  import Crc

  datatype Mode = OneWay(isClient: bool) | TwoWire(isClient: bool, slaveId: Byte) | EitherWay

  /**
   What a reader is set up with: the size it infers from a header and the last packet, the checksum test,
   the silence `cutoff(n)` after which a read of n bytes starts a new packet, and the caller's buffer size.
   */
  datatype Setup = Setup(
    sizeOf: (seq<Byte>, seq<Byte>) -> nat, valid: seq<Byte> -> bool, cutoff: nat -> int, size: nat)

  ghost predicate SizesPackets(s: Setup) {
    forall h, last {:trigger s.sizeOf(h, last)} :: |h| >= SMALLEST_RTU_SIZE ==> s.sizeOf(h, last) >= SMALLEST_RTU_SIZE
  }

  type Config = s: Setup | SizesPackets(s)
    witness Setup((h, last) => SMALLEST_RTU_SIZE, h => false, n => 0, 0)

  function ExpectedSize(mode: Mode, limits: Limits, header: seq<Byte>, lastRtu: seq<Byte>): nat {
    match mode
    case EitherWay => EitherWaySize(limits, header)
    case TwoWire(isClient, slaveId) => TwoWireSize(limits, header, isClient, slaveId, lastRtu)
    case OneWay(isClient) => OneWaySize(limits, header, isClient)
  }

  /** The reader of the library. */
  function RtuReader(mode: Mode, limits: Limits, cutoff: nat -> int, size: nat): (c: Config)
  {
    RtuReaderSizes(mode, limits, cutoff, size);
    Setup((h, last) => ExpectedSize(mode, limits, h, last), h => Crc.Valid(h), cutoff, size)
  }

  lemma RtuReaderSizes(mode: Mode, limits: Limits, cutoff: nat -> int, size: nat)
    ensures SizesPackets(Setup((h, last) => ExpectedSize(mode, limits, h, last), h => Crc.Valid(h), cutoff, size))
  {
    forall h, last | |h| >= SMALLEST_RTU_SIZE
      ensures ExpectedSize(mode, limits, h, last) >= SMALLEST_RTU_SIZE
    {
      SizeAtLeast(limits, h, false);
      SizeAtLeast(limits, h, true);
    }
  }

  /** One return of the port: what it delivered, whether with an error, and the two clock readings that may follow. */
  datatype PortRead = PortRead(data: seq<Byte>, failed: bool, now: int, later: int)

  /** What became of the bytes of one packet-sized stretch of the input. */
  datatype Fate = Packet | Full | PortError | Stale | BadCrc

  datatype Segment = Segment(fate: Fate, bytes: seq<Byte>)

  datatype Stats = Stats(
    readPackets: nat, crcErrors: nat, longReadWarnings: nat, formateWarnings: nat, otherDrops: nat)

  /** The fields of the reader; `log` is a history of the fates of all bytes taken, which the code does not keep. */
  datatype Reader = Reader(
    last: seq<Byte>, lastRtu: seq<Byte>, lastReadAt: int, stats: Stats, log: seq<Segment>)
  {
    function Note(fate: Fate, bytes: seq<Byte>): Reader { this.(log := log + [Segment(fate, bytes)]) }
  }

  datatype Call =
    | Waiting(r: Reader, held: seq<Byte>, expected: nat)
    | Returned(r: Reader, bytes: seq<Byte>, failed: bool)

  /** Waiting for the port, with nothing carried over. */
  predicate Idle(cfg: Config, c: Call) {
    c.Waiting? && c.r.last == [] && c.expected >= SMALLEST_RTU_SIZE && |c.held| <= cfg.size
  }

  /** The top of the outer loop. */
  function Begin(cfg: Config, r: Reader): (c: Call)
    ensures c.Waiting? ==> Idle(cfg, c)
    decreases |r.last|, 0, 3
  {
    Head(cfg, r.(stats := r.stats.(readPackets := r.stats.readPackets + 1)), [], SMALLEST_RTU_SIZE)
  }

  /** The head of the inner loop, with `held` at the start of the buffer. Bytes carried over are only taken first. */
  function Head(cfg: Config, r: Reader, held: seq<Byte>, expected: nat): (c: Call)
    requires expected >= SMALLEST_RTU_SIZE && |held| <= cfg.size
    requires r.last != [] ==> held == []
    ensures c.Waiting? ==> Idle(cfg, c)
    decreases |r.last|, |held|, 2
  {
    if |held| >= expected then Close(cfg, r, held, expected)
    else if r.last != [] then After(cfg, r.(last := []), r.last[..Min(|r.last|, cfg.size)], expected)
    else Waiting(r, held, expected)
  }

  /** New bytes are in the buffer: is there more to read? */
  function After(cfg: Config, r: Reader, held: seq<Byte>, expected: nat): (c: Call)
    requires expected >= SMALLEST_RTU_SIZE && r.last == [] && |held| <= cfg.size
    ensures c.Waiting? ==> Idle(cfg, c)
    decreases |r.last|, |held|, 3
  {
    Head(cfg, r, held, if |held| < expected then expected else cfg.sizeOf(held, r.lastRtu))
  }

  /** Enough bytes are in the buffer: return the packet, or drop everything and start over. */
  function Close(cfg: Config, r: Reader, held: seq<Byte>, expected: nat): (c: Call)
    requires SMALLEST_RTU_SIZE <= expected <= |held| <= cfg.size && r.last == []
    ensures c.Waiting? ==> Idle(cfg, c)
    decreases |r.last|, |held|, 1
  {
    var s := r.stats;
    if |held| > expected && cfg.valid(held[..expected]) then
      Returned(
        r.(last := held[expected..], lastRtu := held[..expected],
           stats := s.(longReadWarnings := s.longReadWarnings + 1)).Note(Packet, held[..expected]),
        held[..expected], false)
    else if cfg.valid(held) then
      Returned(
        r.(lastRtu := held,
           stats := s.(formateWarnings := s.formateWarnings + if |held| != expected then 1 else 0)).Note(Packet, held),
        held, false)
    else Begin(cfg, r.(stats := s.(crcErrors := s.crcErrors + 1)).Note(BadCrc, held))
  }

  /** The port returned. */
  function Resume(cfg: Config, c: Call, e: PortRead): (c': Call)
    requires Idle(cfg, c) && |c.held| + |e.data| <= cfg.size
    ensures c'.Waiting? ==> Idle(cfg, c')
  {
    var r := c.r;
    if c.held != [] && e.now - r.lastReadAt > cfg.cutoff(|e.data|) then
      var s := r.stats;
      Head(cfg,
        r.(last := e.data, lastReadAt := e.later, stats := s.(otherDrops := s.otherDrops + 1)).Note(Stale, c.held),
        [], SMALLEST_RTU_SIZE)
    else
      var r' := if e.data == [] then r else r.(lastReadAt := e.now);
      Take(cfg, r', c.held + e.data, c.expected, e.failed)
  }

  /** The buffer now starts with `held`: a full buffer, like an error, is returned without a checksum test. */
  function Take(cfg: Config, r: Reader, held: seq<Byte>, expected: nat, failed: bool): (c: Call)
    requires r.last == [] && expected >= SMALLEST_RTU_SIZE && |held| <= cfg.size
    ensures c.Waiting? ==> Idle(cfg, c)
  {
    if failed then Returned(r.Note(PortError, held), held, true)
    else if |held| == cfg.size then Returned(r.Note(Full, held), held, false)
    else After(cfg, r, held, expected)
  }

  // ----- a caller that keeps calling Read with the same buffer

  /** Nothing carried over: the call waits with an empty buffer. */
  lemma BeginEmpty(cfg: Config, r: Reader)
    requires r.last == []
    ensures Begin(cfg, r) ==
      Waiting(r.(stats := r.stats.(readPackets := r.stats.readPackets + 1)), [], SMALLEST_RTU_SIZE)
  {}

  /** Bytes carried over are taken up as if they had just been read. */
  lemma CarriedTaken(cfg: Config, r: Reader, expected: nat)
    requires r.last != [] && expected >= SMALLEST_RTU_SIZE
    ensures var held := r.last[..Min(|r.last|, cfg.size)];
            Head(cfg, r, [], expected) ==
              Head(cfg, r.(last := []), held, if |held| < expected then expected else cfg.sizeOf(held, r.lastRtu))
  {
    var held := r.last[..Min(|r.last|, cfg.size)];
    assert Head(cfg, r, [], expected) == After(cfg, r.(last := []), held, expected);
  }

  lemma BeginShortens(cfg: Config, r: Reader)
    ensures Begin(cfg, r).Returned? ==> |Begin(cfg, r).r.last| < |r.last|
  {
    if r.last == [] {
      BeginEmpty(cfg, r);
    } else {
      var r1 := r.(stats := r.stats.(readPackets := r.stats.readPackets + 1));
      var held := r.last[..Min(|r.last|, cfg.size)];
      CarriedTaken(cfg, r1, SMALLEST_RTU_SIZE);
      HeadShortens(cfg, r1.(last := []), held, if |held| < SMALLEST_RTU_SIZE then SMALLEST_RTU_SIZE else cfg.sizeOf(held, r.lastRtu));
    }
  }

  lemma HeadShortens(cfg: Config, r: Reader, held: seq<Byte>, expected: nat)
    requires expected >= SMALLEST_RTU_SIZE && r.last == [] && |held| <= cfg.size
    ensures var c := Head(cfg, r, held, expected);
            c.Returned? ==> held != [] && |c.r.last| < |held|
  {
    if |held| >= expected {
      BeginEmpty(cfg, r.(stats := r.stats.(crcErrors := r.stats.crcErrors + 1)).Note(BadCrc, held));
    }
  }

  /** Calls Read again until it waits for the port. */
  function Settle(cfg: Config, c: Call): (w: Call)
    requires c.Waiting? ==> Idle(cfg, c)
    ensures Idle(cfg, w)
    decreases c.Returned?, |c.r.last|
  {
    if c.Waiting? then c else BeginShortens(cfg, c.r); Settle(cfg, Begin(cfg, c.r))
  }

  function Feed(cfg: Config, c: Call, e: PortRead): (w: Call)
    requires Idle(cfg, c) && |c.held| + |e.data| <= cfg.size
    ensures Idle(cfg, w)
  {
    Settle(cfg, Resume(cfg, c, e))
  }

  /** The port returns no more than the buffer has room for. */
  predicate Fits(cfg: Config, c: Call, events: seq<PortRead>)
    requires Idle(cfg, c)
    decreases |events|
  {
    events == [] || (|c.held| + |events[0].data| <= cfg.size && Fits(cfg, Feed(cfg, c, events[0]), events[1..]))
  }

  /** All port reads in turn. */
  function Run(cfg: Config, c: Call, events: seq<PortRead>): (w: Call)
    requires Idle(cfg, c) && Fits(cfg, c, events)
    ensures Idle(cfg, w)
    decreases |events|
  {
    if events == [] then c else Run(cfg, Feed(cfg, c, events[0]), events[1..])
  }

  function Data(events: seq<PortRead>): seq<Byte> {
    if events == [] then [] else events[0].data + Data(events[1..])
  }

  const NO_STATS := Stats(0, 0, 0, 0, 0)

  function NewReader(at: int): Reader { Reader([], [], at, NO_STATS, []) }

  /** A freshly made reader, in its first call. */
  function Fresh(cfg: Config, at: int): (c: Call)
    ensures Idle(cfg, c) && c.held == [] && c.expected == SMALLEST_RTU_SIZE && c.r.log == []
    ensures c.r.stats.otherDrops == c.r.stats.crcErrors == c.r.stats.formateWarnings == 0
  {
    BeginEmpty(cfg, NewReader(at));
    Begin(cfg, NewReader(at))
  }
}
