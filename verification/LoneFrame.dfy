/** What becomes of one frame that comes to a packet reader between packets, however its bytes are cut up. */
module LoneFrame {
  import opened Bytes
  import opened Rtu
  import opened RtuSize
  import opened ReaderModel
  import opened ReaderSafety
  import opened ReaderFraming

  /** The port reads that bring bytes after `part`: none fails, and no silence within the bytes is over the cutoff. */
  ghost predicate Timely(cfg: Config, part: seq<Byte>, at: int, events: seq<PortRead>)
    decreases |events|
  {
    events == [] ||
    (var e := events[0];
     && !e.failed && (part != [] ==> e.now - at <= cfg.cutoff(|e.data|))
     && Timely(cfg, part + e.data, if e.data == [] then at else e.now, events[1..]))
  }

  /** The port reads bring exactly the bytes of f, in any pieces, the last of them not empty. */
  ghost predicate Brings(cfg: Config, f: Packet, events: seq<PortRead>) {
    Data(events) == f && events != [] && events[|events| - 1].data != [] && Timely(cfg, [], 0, events)
  }

  /** A reader between packets. */
  ghost predicate Ready(cfg: Config, c: Call) { c.Waiting? && Good(cfg, c) && c.held == [] }

  lemma FreshIsReady(cfg: Config, at: int)
    ensures Ready(cfg, Fresh(cfg, at))
  {
    BeginGood(cfg, NewReader(at));
    BeginEmpty(cfg, NewReader(at));
  }

  /**
   What a reader whose last packet was `last` infers of f: before its end never a size that is there already, and none past
   its end unless it does so at the end.
   */
  ghost predicate Patient(cfg: Config, f: Packet, last: Packet) {
    && |f| >= SMALLEST_RTU_SIZE && cfg.valid(f) && cfg.sizeOf(f, last) >= |f|
    && forall h {:trigger cfg.sizeOf(h, last)} :: h < f && |h| >= SMALLEST_RTU_SIZE ==>
         |h| < cfg.sizeOf(h, last) && (cfg.sizeOf(f, last) == |f| ==> cfg.sizeOf(h, last) <= |f|)
  }

  lemma FramedIsPatient(cfg: Config, f: Packet, last: Packet)
    requires Framed(cfg, f)
    ensures Patient(cfg, f, last) && cfg.sizeOf(f, last) == |f|
  {}

  /** The reader holds exactly `part`, the beginning of f. */
  ghost predicate Holding(cfg: Config, f: Packet, part: Packet, at: int, c: Call) {
    && Idle(cfg, c) && c.held == part && part < f
    && (part != [] ==> c.r.lastReadAt == at)
    && (cfg.sizeOf(f, c.r.lastRtu) == |f| ==> c.expected <= |f|)
  }

  /** New bytes of f that come in time. */
  ghost predicate InTime(cfg: Config, part: Packet, at: int, e: PortRead) {
    !e.failed && (part != [] ==> e.now - at <= cfg.cutoff(|e.data|))
  }

  /** Bytes that are not enough wait for more. */
  lemma NotEnough(cfg: Config, r: Reader, held: Packet, expected: nat)
    requires r.last == [] && expected >= SMALLEST_RTU_SIZE && |held| < cfg.size
    requires |held| >= SMALLEST_RTU_SIZE ==> |held| < cfg.sizeOf(held, r.lastRtu)
    ensures Take(cfg, r, held, expected, false) ==
            Waiting(r, held, if |held| < expected then expected else cfg.sizeOf(held, r.lastRtu))
  {
    var e := if |held| < expected then expected else cfg.sizeOf(held, r.lastRtu);
    assert Take(cfg, r, held, expected, false) == After(cfg, r, held, expected);
    assert After(cfg, r, held, expected) == Head(cfg, r, held, e);
    assert |held| < e;
  }

  lemma InTimeTakes(cfg: Config, c: Call, e: PortRead, part: Packet, at: int)
    requires Idle(cfg, c) && c.held == part && (part != [] ==> c.r.lastReadAt == at) && InTime(cfg, part, at, e)
    requires |c.held| + |e.data| <= cfg.size
    ensures var r := if e.data == [] then c.r else c.r.(lastReadAt := e.now);
            Resume(cfg, c, e) == Take(cfg, r, part + e.data, c.expected, false)
  {}

  lemma PartArrives(cfg: Config, c: Call, e: PortRead, f: Packet, part: Packet, at: int)
    requires Patient(cfg, f, c.r.lastRtu) && Holding(cfg, f, part, at, c) && InTime(cfg, part, at, e)
    requires part + e.data < f && |f| <= cfg.size
    ensures var w := Feed(cfg, c, e);
            && Holding(cfg, f, part + e.data, if e.data == [] then at else e.now, w)
            && w.r.log == c.r.log && w.r.lastRtu == c.r.lastRtu
  {
    InTimeTakes(cfg, c, e, part, at);
    NotEnough(cfg, if e.data == [] then c.r else c.r.(lastReadAt := e.now), part + e.data, c.expected);
  }

  /** Whether f, when it is there, is returned: it fills the buffer, or is inferred to be complete. */
  predicate Recognised(cfg: Config, f: Packet, last: Packet) { |f| == cfg.size || cfg.sizeOf(f, last) == |f| }

  function Arrived(cfg: Config, f: Packet): Segment { Segment(if |f| == cfg.size then Full else Packet, f) }

  /** What is left of c when f has been returned, or is still waited for. */
  ghost predicate Came(cfg: Config, c: Call, f: Packet, w: Call) {
    w.Waiting? &&
    if Recognised(cfg, f, c.r.lastRtu)
      then w.held == [] && w.r.log == c.r.log + [Arrived(cfg, f)] && w.r.lastRtu == if |f| == cfg.size then c.r.lastRtu else f
      else w.held == f && w.r.log == c.r.log && w.r.lastRtu == c.r.lastRtu && w.expected > |f|
  }

  lemma NextCall(cfg: Config, c: Call)
    requires c.Returned? && c.r.last == []
    ensures Settle(cfg, c) == Waiting(c.r.(stats := c.r.stats.(readPackets := c.r.stats.readPackets + 1)), [], SMALLEST_RTU_SIZE)
  {
    BeginEmpty(cfg, c.r);
  }

  lemma LastByte(cfg: Config, c: Call, e: PortRead, f: Packet, part: Packet, at: int)
    requires Patient(cfg, f, c.r.lastRtu) && Holding(cfg, f, part, at, c) && InTime(cfg, part, at, e)
    requires part + e.data == f && |f| <= cfg.size
    ensures Came(cfg, c, f, Feed(cfg, c, e))
  {
    var r := if e.data == [] then c.r else c.r.(lastReadAt := e.now);
    InTimeTakes(cfg, c, e, part, at);
    if |f| == cfg.size {
      NextCall(cfg, Returned(r.Note(Full, f), f, false));
    } else if cfg.sizeOf(f, c.r.lastRtu) == |f| {
      assert Take(cfg, r, f, c.expected, false) == After(cfg, r, f, c.expected) == Close(cfg, r, f, |f|);
      NextCall(cfg, Close(cfg, r, f, |f|));
    } else {
      NotEnough(cfg, r, f, c.expected);
    }
  }

  lemma {:induction false} LastIsThere(events: seq<PortRead>)
    requires events != [] && events[|events| - 1].data != []
    ensures Data(events) != []
    decreases |events|
  {
    if |events| > 1 { LastIsThere(events[1..]); }
  }

  lemma OneEvent(cfg: Config, c: Call, e: PortRead)
    requires Idle(cfg, c) && |c.held| + |e.data| <= cfg.size
    ensures Data([e]) == e.data && Fits(cfg, c, [e]) && Run(cfg, c, [e]) == Feed(cfg, c, e)
  {
    assert [e][1..] == [];
    var w := Feed(cfg, c, e);
    assert Fits(cfg, w, []) && Run(cfg, w, []) == w;
  }

  /** The first of several port reads that bring the rest of f. */
  lemma SomeArrives(cfg: Config, c: Call, f: Packet, part: Packet, at: int, events: seq<PortRead>)
    requires Patient(cfg, f, c.r.lastRtu) && Holding(cfg, f, part, at, c) && |f| <= cfg.size
    requires part + Data(events) == f && Timely(cfg, part, at, events)
    requires |events| > 1 && events[|events| - 1].data != []
    ensures var e := events[0];
            var w := Feed(cfg, c, e);
            && Holding(cfg, f, part + e.data, if e.data == [] then at else e.now, w)
            && w.r.log == c.r.log && w.r.lastRtu == c.r.lastRtu && |c.held| + |e.data| <= cfg.size
            && part + e.data + Data(events[1..]) == f
  {
    var e, tail := events[0], Data(events[1..]);
    assert part + (e.data + tail) == (part + e.data) + tail;
    LastIsThere(events[1..]);
    PartArrives(cfg, c, e, f, part, at);
  }

  lemma {:induction false} RestArrives(cfg: Config, c: Call, f: Packet, part: Packet, at: int, events: seq<PortRead>)
    requires Patient(cfg, f, c.r.lastRtu) && Holding(cfg, f, part, at, c) && |f| <= cfg.size
    requires part + Data(events) == f && Timely(cfg, part, at, events)
    requires events != [] && events[|events| - 1].data != []
    ensures Fits(cfg, c, events) && Came(cfg, c, f, Run(cfg, c, events))
    decreases |events|
  {
    var e := events[0];
    if |events| == 1 {
      assert events == [e];
      assert |c.held| + |e.data| <= cfg.size by { assert Data(events[1..]) == []; }
      OneEvent(cfg, c, e);
      LastByte(cfg, c, e, f, part, at);
    } else {
      SomeArrives(cfg, c, f, part, at, events);
      RestArrives(cfg, Feed(cfg, c, e), f, part + e.data, if e.data == [] then at else e.now, events[1..]);
      RunStep(cfg, c, Feed(cfg, c, e), events);
    }
  }

  /**
   A valid frame no longer than the buffer that comes to a reader between packets, and of which the reader infers no part to
   be a packet: however it is cut up, it is returned, whole and once, exactly if it fills the buffer or is inferred to be
   complete. Otherwise all of it is held, and waits for more.
   */
  lemma LoneFrameComes(cfg: Config, c: Call, f: Packet, events: seq<PortRead>)
    requires Ready(cfg, c) && Patient(cfg, f, c.r.lastRtu) && |f| <= cfg.size && Brings(cfg, f, events)
    ensures Fits(cfg, c, events)
    ensures var w := Run(cfg, c, events);
            Good(cfg, w) && Came(cfg, c, f, w)
  {
    assert [] + Data(events) == f;
    RestArrives(cfg, c, f, [], 0, events);
    RunGood(cfg, c, events);
  }

  /** So a well-formed frame is returned, and the reader is between packets again. */
  lemma OneFrameArrives(cfg: Config, c: Call, f: Packet, events: seq<PortRead>)
    requires Ready(cfg, c) && Framed(cfg, f) && |f| <= cfg.size && Brings(cfg, f, events)
    ensures Fits(cfg, c, events)
    ensures var w := Run(cfg, c, events);
            Ready(cfg, w) && w.r.log == c.r.log + [Arrived(cfg, f)]
  {
    FramedIsPatient(cfg, f, c.r.lastRtu);
    LoneFrameComes(cfg, c, f, events);
  }

  /** A frame longer than the buffer is never returned, in any run. */
  lemma LongFrameNeverArrives(cfg: Config, c: Call, events: seq<PortRead>, f: Packet, i: nat)
    requires c.Waiting? && Good(cfg, c) && Fits(cfg, c, events) && |f| > cfg.size
    requires i < |Run(cfg, c, events).r.log|
    ensures Run(cfg, c, events).r.log[i].bytes != f
  {
    RunGood(cfg, c, events);
    assert SegmentOk(cfg, Run(cfg, c, events).r.log[i]);
  }
}
