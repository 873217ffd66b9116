/** What every run of the packet reader keeps, in every mode: no byte lost or reordered, and only sound packets returned. */
module ReaderSafety {
  import opened Bytes
  import opened Modbus
  import opened RtuSize
  import opened ReaderModel
  import Crc

  // ----- the history

  function BytesOf(log: seq<Segment>): seq<Byte> {
    if log == [] then [] else BytesOf(log[..|log| - 1]) + log[|log| - 1].bytes
  }

  function Count(log: seq<Segment>, fate: Fate): nat {
    if log == [] then 0
    else Count(log[..|log| - 1], fate) + if log[|log| - 1].fate == fate then 1 else 0
  }

  /** The packet returned last with a verified checksum. */
  function LatestPacket(log: seq<Segment>): seq<Byte> {
    if log == [] then []
    else if log[|log| - 1].fate == Packet then log[|log| - 1].bytes
    else LatestPacket(log[..|log| - 1])
  }

  /** All bytes taken from the port so far, in order of their fate, then those still in hand. */
  function Taken(c: Call): seq<Byte> {
    BytesOf(c.r.log) + (if c.Waiting? then c.held else []) + c.r.last
  }

  // ----- the invariant

  ghost predicate SegmentOk(cfg: Config, s: Segment) {
    match s.fate
    case Packet => SMALLEST_RTU_SIZE <= |s.bytes| < cfg.size && cfg.valid(s.bytes)
    case Full => |s.bytes| == cfg.size
    case PortError => |s.bytes| <= cfg.size
    case Stale => 0 < |s.bytes| < cfg.size
    case BadCrc => SMALLEST_RTU_SIZE <= |s.bytes| < cfg.size && !cfg.valid(s.bytes)
  }

  /** Bytes that do not fill the buffer. */
  predicate Below(cfg: Config, bytes: seq<Byte>) { bytes == [] || |bytes| < cfg.size }

  function Warnings(s: Stats): nat { s.longReadWarnings + s.formateWarnings }

  ghost predicate Sound(cfg: Config, r: Reader) {
    && (forall i :: 0 <= i < |r.log| ==> SegmentOk(cfg, r.log[i]))
    && r.lastRtu == LatestPacket(r.log)
    && r.stats.otherDrops == Count(r.log, Stale)
    && r.stats.crcErrors == Count(r.log, BadCrc)
    && Warnings(r.stats) <= Count(r.log, Packet)
  }

  /** Every entry of the outer loop but the one still open ended in a return or in a checksum error. */
  ghost predicate Good(cfg: Config, c: Call) {
    && Sound(cfg, c.r)
    && c.r.stats.readPackets == |c.r.log| - Count(c.r.log, Stale) + (if c.Waiting? then 1 else 0)
    && match c
       case Waiting(r, held, expected) => r.last == [] && SMALLEST_RTU_SIZE <= expected && |held| < expected && Below(cfg, held)
         && (|held| < SMALLEST_RTU_SIZE ==> expected == SMALLEST_RTU_SIZE)
       case Returned(r, bytes, failed) =>
         && Below(cfg, r.last)
         && r.log != []
         && r.log[|r.log| - 1].bytes == bytes
         && match r.log[|r.log| - 1].fate
            case Packet | Full => !failed
            case PortError => failed
            case _ => false
  }

  lemma NoteKeeps(cfg: Config, r: Reader, fate: Fate, bytes: seq<Byte>)
    ensures var log := r.log + [Segment(fate, bytes)];
            && r.Note(fate, bytes).log == log
            && BytesOf(log) == BytesOf(r.log) + bytes
            && LatestPacket(log) == (if fate == Packet then bytes else LatestPacket(r.log))
            && (forall f :: Count(log, f) == Count(r.log, f) + if f == fate then 1 else 0)
  {
    assert (r.log + [Segment(fate, bytes)])[..|r.log|] == r.log;
  }

  lemma SoundAfter(cfg: Config, r: Reader, fate: Fate, bytes: seq<Byte>, r': Reader)
    requires Sound(cfg, r) && SegmentOk(cfg, Segment(fate, bytes))
    requires r'.log == r.log + [Segment(fate, bytes)]
    requires r'.lastRtu == if fate == Packet then bytes else r.lastRtu
    requires r'.stats.otherDrops == r.stats.otherDrops + if fate == Stale then 1 else 0
    requires r'.stats.crcErrors == r.stats.crcErrors + if fate == BadCrc then 1 else 0
    requires Warnings(r'.stats) <= Warnings(r.stats) + if fate == Packet then 1 else 0
    ensures Sound(cfg, r')
    ensures BytesOf(r'.log) == BytesOf(r.log) + bytes
    ensures Count(r'.log, Stale) == Count(r.log, Stale) + if fate == Stale then 1 else 0
  {
    NoteKeeps(cfg, r, fate, bytes);
  }

  lemma ReturnGood(cfg: Config, r: Reader, fate: Fate, bytes: seq<Byte>, c: Call)
    requires Sound(cfg, r) && SegmentOk(cfg, Segment(fate, bytes)) && fate in {Packet, Full, PortError}
    requires r.stats.readPackets == |r.log| - Count(r.log, Stale) + 1
    requires c.Returned? && c.bytes == bytes && c.failed == fate.PortError? && Below(cfg, c.r.last)
    requires c.r.log == r.log + [Segment(fate, bytes)]
    requires c.r.lastRtu == if fate == Packet then bytes else r.lastRtu
    requires c.r.stats.(longReadWarnings := 0, formateWarnings := 0) == r.stats.(longReadWarnings := 0, formateWarnings := 0)
    requires Warnings(c.r.stats) <= Warnings(r.stats) + if fate == Packet then 1 else 0
    ensures Good(cfg, c) && Taken(c) == BytesOf(r.log) + bytes + c.r.last
  {
    SoundAfter(cfg, r, fate, bytes, c.r);
  }

  lemma CloseGood(cfg: Config, r: Reader, held: seq<Byte>, expected: nat)
    requires SMALLEST_RTU_SIZE <= expected <= |held| < cfg.size && r.last == []
    requires Sound(cfg, r) && r.stats.readPackets == |r.log| - Count(r.log, Stale) + 1
    ensures Good(cfg, Close(cfg, r, held, expected))
    ensures Taken(Close(cfg, r, held, expected)) == BytesOf(r.log) + held
  {
    var c := Close(cfg, r, held, expected);
    if |held| > expected && cfg.valid(held[..expected]) {
      ReturnGood(cfg, r, Packet, held[..expected], c);
      assert BytesOf(r.log) + held[..expected] + held[expected..] == BytesOf(r.log) + held;
    } else if cfg.valid(held) {
      ReturnGood(cfg, r, Packet, held, c);
    } else {
      var r' := r.(stats := r.stats.(crcErrors := r.stats.crcErrors + 1)).Note(BadCrc, held);
      DropGood(cfg, r, held, r');
    }
  }

  lemma DropGood(cfg: Config, r: Reader, held: seq<Byte>, r': Reader)
    requires Sound(cfg, r) && SegmentOk(cfg, Segment(BadCrc, held)) && r.last == []
    requires r' == r.(stats := r.stats.(crcErrors := r.stats.crcErrors + 1)).Note(BadCrc, held)
    requires r.stats.readPackets == |r.log| - Count(r.log, Stale) + 1
    ensures Good(cfg, Begin(cfg, r')) && Taken(Begin(cfg, r')) == BytesOf(r.log) + held
  {
    SoundAfter(cfg, r, BadCrc, held, r');
    BeginEmpty(cfg, r');
  }

  lemma HeadGood(cfg: Config, r: Reader, held: seq<Byte>, expected: nat)
    requires expected >= SMALLEST_RTU_SIZE && (r.last != [] ==> held == [])
    requires |held| < SMALLEST_RTU_SIZE ==> expected == SMALLEST_RTU_SIZE
    requires Below(cfg, r.last) && Below(cfg, held)
    requires Sound(cfg, r) && r.stats.readPackets == |r.log| - Count(r.log, Stale) + 1
    ensures Good(cfg, Head(cfg, r, held, expected))
    ensures Taken(Head(cfg, r, held, expected)) == BytesOf(r.log) + held + r.last
    decreases |r.last|
  {
    if |held| >= expected {
      CloseGood(cfg, r, held, expected);
    } else if r.last != [] {
      AfterGood(cfg, r.(last := []), r.last, expected);
      assert r.last[..Min(|r.last|, cfg.size)] == r.last;
    }
  }

  lemma AfterGood(cfg: Config, r: Reader, held: seq<Byte>, expected: nat)
    requires expected >= SMALLEST_RTU_SIZE && r.last == [] && Below(cfg, held)
    requires |held| < SMALLEST_RTU_SIZE ==> expected == SMALLEST_RTU_SIZE
    requires Sound(cfg, r) && r.stats.readPackets == |r.log| - Count(r.log, Stale) + 1
    ensures Good(cfg, After(cfg, r, held, expected))
    ensures Taken(After(cfg, r, held, expected)) == BytesOf(r.log) + held
  {
    var e := if |held| < expected then expected else cfg.sizeOf(held, r.lastRtu);
    if |held| >= e {
      CloseGood(cfg, r, held, e);
    }
  }

  lemma BeginGood(cfg: Config, r: Reader)
    requires Below(cfg, r.last)
    requires Sound(cfg, r) && r.stats.readPackets == |r.log| - Count(r.log, Stale)
    ensures Good(cfg, Begin(cfg, r))
    ensures Taken(Begin(cfg, r)) == BytesOf(r.log) + r.last
  {
    HeadGood(cfg, r.(stats := r.stats.(readPackets := r.stats.readPackets + 1)), [], SMALLEST_RTU_SIZE);
  }

  lemma StaleGood(cfg: Config, r: Reader, held: seq<Byte>, e: PortRead, r': Reader)
    requires Sound(cfg, r) && SegmentOk(cfg, Segment(Stale, held)) && Below(cfg, e.data)
    requires r' == r.(last := e.data, lastReadAt := e.later,
                      stats := r.stats.(otherDrops := r.stats.otherDrops + 1)).Note(Stale, held)
    requires r.stats.readPackets == |r.log| - Count(r.log, Stale) + 1
    ensures Good(cfg, Head(cfg, r', [], SMALLEST_RTU_SIZE))
    ensures Taken(Head(cfg, r', [], SMALLEST_RTU_SIZE)) == BytesOf(r.log) + held + e.data
  {
    SoundAfter(cfg, r, Stale, held, r');
    HeadGood(cfg, r', [], SMALLEST_RTU_SIZE);
  }

  lemma TakeGood(cfg: Config, r: Reader, held: seq<Byte>, expected: nat, failed: bool)
    requires Sound(cfg, r) && r.last == [] && |held| <= cfg.size && expected >= SMALLEST_RTU_SIZE
    requires |held| < SMALLEST_RTU_SIZE ==> expected == SMALLEST_RTU_SIZE
    requires r.stats.readPackets == |r.log| - Count(r.log, Stale) + 1
    ensures Good(cfg, Take(cfg, r, held, expected, failed))
    ensures Taken(Take(cfg, r, held, expected, failed)) == BytesOf(r.log) + held
  {
    var c := Take(cfg, r, held, expected, failed);
    if failed {
      ReturnGood(cfg, r, PortError, held, c);
    } else if |held| == cfg.size {
      ReturnGood(cfg, r, Full, held, c);
    } else {
      AfterGood(cfg, r, held, expected);
    }
  }

  predicate IsStale(cfg: Config, c: Call, e: PortRead)
    requires c.Waiting?
  {
    c.held != [] && e.now - c.r.lastReadAt > cfg.cutoff(|e.data|)
  }

  lemma ResumeStaleGood(cfg: Config, c: Call, e: PortRead)
    requires c.Waiting? && Good(cfg, c) && |c.held| + |e.data| <= cfg.size && IsStale(cfg, c, e)
    ensures Good(cfg, Resume(cfg, c, e))
    ensures Taken(Resume(cfg, c, e)) == BytesOf(c.r.log) + c.held + e.data
  {
    var s := c.r.stats;
    var r' := c.r.(last := e.data, lastReadAt := e.later, stats := s.(otherDrops := s.otherDrops + 1)).Note(Stale, c.held);
    StaleGood(cfg, c.r, c.held, e, r');
  }

  lemma ResumeTakeGood(cfg: Config, c: Call, e: PortRead)
    requires c.Waiting? && Good(cfg, c) && |c.held| + |e.data| <= cfg.size && !IsStale(cfg, c, e)
    ensures Good(cfg, Resume(cfg, c, e))
    ensures Taken(Resume(cfg, c, e)) == BytesOf(c.r.log) + (c.held + e.data)
  {
    TakeGood(cfg, if e.data == [] then c.r else c.r.(lastReadAt := e.now), c.held + e.data, c.expected, e.failed);
  }

  lemma ResumeGood(cfg: Config, c: Call, e: PortRead)
    requires c.Waiting? && Good(cfg, c) && |c.held| + |e.data| <= cfg.size
    ensures Good(cfg, Resume(cfg, c, e))
    ensures Taken(Resume(cfg, c, e)) == Taken(c) + e.data
  {
    if IsStale(cfg, c, e) { ResumeStaleGood(cfg, c, e); } else { ResumeTakeGood(cfg, c, e); }
    assert BytesOf(c.r.log) + (c.held + e.data) == BytesOf(c.r.log) + c.held + e.data;
  }

  lemma SettleGood(cfg: Config, c: Call)
    requires Good(cfg, c)
    ensures Good(cfg, Settle(cfg, c)) && Taken(Settle(cfg, c)) == Taken(c)
    decreases c.Returned?, |c.r.last|
  {
    if c.Returned? {
      BeginGood(cfg, c.r);
      BeginShortens(cfg, c.r);
      SettleGood(cfg, Begin(cfg, c.r));
    }
  }

  /** In every mode and over every run, the invariant holds and no byte is lost, repeated or reordered. */
  lemma {:induction false} RunGood(cfg: Config, c: Call, events: seq<PortRead>)
    requires c.Waiting? && Good(cfg, c) && Fits(cfg, c, events)
    ensures Good(cfg, Run(cfg, c, events))
    ensures Taken(Run(cfg, c, events)) == Taken(c) + Data(events)
    decreases |events|
  {
    if events != [] {
      ResumeGood(cfg, c, events[0]);
      SettleGood(cfg, Resume(cfg, c, events[0]));
      RunGood(cfg, Feed(cfg, c, events[0]), events[1..]);
      assert Taken(c) + (events[0].data + Data(events[1..])) == Taken(c) + events[0].data + Data(events[1..]);
    }
  }

  // ----- the history only grows

  lemma CloseGrows(cfg: Config, r: Reader, held: seq<Byte>, expected: nat)
    requires SMALLEST_RTU_SIZE <= expected <= |held| <= cfg.size && r.last == []
    ensures r.log <= Close(cfg, r, held, expected).r.log
  {
    BeginEmpty(cfg, r.(stats := r.stats.(crcErrors := r.stats.crcErrors + 1)).Note(BadCrc, held));
  }

  lemma HeadGrows(cfg: Config, r: Reader, held: seq<Byte>, expected: nat)
    requires expected >= SMALLEST_RTU_SIZE && |held| <= cfg.size && (r.last != [] ==> held == [])
    ensures r.log <= Head(cfg, r, held, expected).r.log
    decreases |r.last|
  {
    if r.last != [] {
      CarriedTaken(cfg, r, expected);
      var carried := r.last[..Min(|r.last|, cfg.size)];
      HeadGrows(cfg, r.(last := []), carried, if |carried| < expected then expected else cfg.sizeOf(carried, r.lastRtu));
    } else if |held| >= expected {
      CloseGrows(cfg, r, held, expected);
    }
  }

  lemma SettleGrows(cfg: Config, c: Call)
    requires c.Waiting? ==> Idle(cfg, c)
    ensures c.r.log <= Settle(cfg, c).r.log
    decreases c.Returned?, |c.r.last|
  {
    if c.Returned? {
      HeadGrows(cfg, c.r.(stats := c.r.stats.(readPackets := c.r.stats.readPackets + 1)), [], SMALLEST_RTU_SIZE);
      BeginShortens(cfg, c.r);
      SettleGrows(cfg, Begin(cfg, c.r));
    }
  }

  lemma TakeGrows(cfg: Config, r: Reader, held: seq<Byte>, expected: nat, failed: bool)
    requires r.last == [] && expected >= SMALLEST_RTU_SIZE && |held| <= cfg.size
    ensures r.log <= Take(cfg, r, held, expected, failed).r.log
  {
    if !failed && |held| < cfg.size { HeadGrows(cfg, r, held, if |held| < expected then expected else cfg.sizeOf(held, r.lastRtu)); }
  }

  lemma FeedGrows(cfg: Config, c: Call, e: PortRead)
    requires Idle(cfg, c) && |c.held| + |e.data| <= cfg.size
    ensures c.r.log <= Feed(cfg, c, e).r.log
  {
    if IsStale(cfg, c, e) {
      var s := c.r.stats;
      var r := c.r.(last := e.data, lastReadAt := e.later, stats := s.(otherDrops := s.otherDrops + 1)).Note(Stale, c.held);
      HeadGrows(cfg, r, [], SMALLEST_RTU_SIZE);
    } else {
      TakeGrows(cfg, if e.data == [] then c.r else c.r.(lastReadAt := e.now), c.held + e.data, c.expected, e.failed);
    }
    SettleGrows(cfg, Resume(cfg, c, e));
  }

  lemma {:induction false} RunGrows(cfg: Config, c: Call, events: seq<PortRead>)
    requires Idle(cfg, c) && Fits(cfg, c, events)
    ensures c.r.log <= Run(cfg, c, events).r.log
    decreases |events|
  {
    if events != [] {
      FeedGrows(cfg, c, events[0]);
      RunGrows(cfg, Feed(cfg, c, events[0]), events[1..]);
    }
  }

  /**
   The library's reader, in each of its modes, from its making on: every packet returned has a length of at least five, less
   than the buffer, and a valid checksum, or it fills the buffer; and the bytes read from the port are exactly the segments returned,
   dropped for silence and dropped for a bad checksum, in order, and then those in hand.
   */
  lemma EveryRunIsSafe(mode: Mode, limits: Limits, cutoff: nat -> int, size: nat, at: int, events: seq<PortRead>)
    requires Fits(RtuReader(mode, limits, cutoff, size), Fresh(RtuReader(mode, limits, cutoff, size), at), events)
    ensures var cfg := RtuReader(mode, limits, cutoff, size);
            var w := Run(cfg, Fresh(cfg, at), events);
            && Good(cfg, w)
            && BytesOf(w.r.log) + w.held == Data(events)
            && (forall i :: 0 <= i < |w.r.log| && w.r.log[i].fate == Packet ==>
                  Crc.Valid(w.r.log[i].bytes) && SMALLEST_RTU_SIZE <= |w.r.log[i].bytes| < size)
            && (forall i :: 0 <= i < |w.r.log| && w.r.log[i].fate == Full ==> |w.r.log[i].bytes| == size)
  {
    var cfg := RtuReader(mode, limits, cutoff, size);
    BeginGood(cfg, NewReader(at));
    BeginEmpty(cfg, NewReader(at));
    RunGood(cfg, Fresh(cfg, at), events);
    var w := Run(cfg, Fresh(cfg, at), events);
    assert Taken(w) == BytesOf(w.r.log) + w.held;
    assert [] + Data(events) == Data(events);
    forall i | 0 <= i < |w.r.log|
      ensures w.r.log[i].fate == Packet ==>
        Crc.Valid(w.r.log[i].bytes) && SMALLEST_RTU_SIZE <= |w.r.log[i].bytes| < size
      ensures w.r.log[i].fate == Full ==> |w.r.log[i].bytes| == size
    {
      assert SegmentOk(cfg, w.r.log[i]);
    }
  }
}
