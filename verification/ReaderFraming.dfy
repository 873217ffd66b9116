/** When the packet reader recovers exactly the frames that were sent. */
module ReaderFraming {
  import opened Bytes
  import opened Modbus
  import opened RtuSize
  import opened ReaderModel
  import opened Seqs
  import opened ReaderSafety
  import Crc

  // ----- frames

  /** A well-formed frame of one direction: its header announces its length and its checksum holds. */
  ghost predicate IsFrame(limits: Limits, isClient: bool, f: seq<Byte>) {
    OneWaySize(limits, f, isClient) == |f| && Crc.Valid(f)
  }

  /** What framing needs of a frame: sizes inferred before its end point past what is there, but not past its end. */
  ghost predicate Framed(cfg: Config, f: seq<Byte>) {
    && |f| >= SMALLEST_RTU_SIZE
    && cfg.valid(f)
    && (forall h, last {:trigger cfg.sizeOf(h, last)} :: f <= h ==> cfg.sizeOf(h, last) == |f|)
    && (forall h, last {:trigger cfg.sizeOf(h, last)} :: h <= f && SMALLEST_RTU_SIZE <= |h| < |f| ==> |h| < cfg.sizeOf(h, last) <= |f|)
  }

  /** The direction that a reader expects. */
  function Direction(mode: Mode): bool { if mode.EitherWay? then false else mode.isClient }

  /**
   A frame that a reader of this mode takes to be of one direction: on a shared two-wire bus any frame for a client, and
   for a server broadcasts and those with its own id; broadcasts where the direction is guessed.
   */
  ghost predicate FrameIn(mode: Mode, limits: Limits, f: seq<Byte>) {
    IsFrame(limits, Direction(mode), f) &&
    match mode
    case OneWay(_) => true
    case TwoWire(isClient, slaveId) => isClient || f[0] == slaveId || f[0] == 0
    case EitherWay => f[0] == 0
  }

  /** A broadcast has the same size in both directions, which is not guessed then. */
  lemma BroadcastSize(limits: Limits, h: seq<Byte>, slaveId: Byte, last: seq<Byte>)
    requires |h| >= 3 && h[0] == 0
    ensures OneWaySize(limits, h, true) == OneWaySize(limits, h, false)
    ensures EitherWaySize(limits, h) == TwoWireSize(limits, h, false, slaveId, last) == OneWaySize(limits, h, false)
  {}

  lemma SizeInDirection(mode: Mode, limits: Limits, f: seq<Byte>, h: seq<Byte>, last: seq<Byte>)
    requires FrameIn(mode, limits, f) && |h| >= SMALLEST_RTU_SIZE && (f <= h || h <= f)
    ensures ExpectedSize(mode, limits, h, last) == OneWaySize(limits, h, Direction(mode))
  {
    SizeAtLeast(limits, f, Direction(mode));
    if h[0] == 0 { BroadcastSize(limits, h, if mode.TwoWire? then mode.slaveId else 0, last); }
  }

  lemma FramesAreFramed(mode: Mode, limits: Limits, cutoff: nat -> int, size: nat, f: seq<Byte>)
    requires FrameIn(mode, limits, f)
    ensures Framed(RtuReader(mode, limits, cutoff, size), f)
  {
    var cfg := RtuReader(mode, limits, cutoff, size);
    SizeAtLeast(limits, f, Direction(mode));
    forall h, last | f <= h
      ensures cfg.sizeOf(h, last) == |f|
    {
      SizeInDirection(mode, limits, f, h, last);
      SizeStable(limits, f, h, Direction(mode));
    }
    forall h, last | h <= f && SMALLEST_RTU_SIZE <= |h| < |f|
      ensures |h| < cfg.sizeOf(h, last) <= |f|
    {
      SizeInDirection(mode, limits, f, h, last);
      SizeStable(limits, h, f, Direction(mode));
    }
  }

  function Flatten(fs: seq<seq<Byte>>): seq<Byte> {
    if fs == [] then [] else fs[0] + Flatten(fs[1..])
  }

  function Packets(fs: seq<seq<Byte>>): seq<Segment> {
    seq(|fs|, i requires 0 <= i < |fs| => Segment(Packet, fs[i]))
  }

  /** How many whole frames n bytes contain. */
  function Whole(fs: seq<seq<Byte>>, n: nat): (k: nat)
    ensures k <= |fs|
  {
    if fs == [] || n < |fs[0]| then 0 else 1 + Whole(fs[1..], n - |fs[0]|)
  }

  /** The bytes after those whole frames. */
  function Rest(fs: seq<seq<Byte>>, h: seq<Byte>): seq<Byte>
    decreases |fs|
  {
    if fs == [] || |h| < |fs[0]| then h else Rest(fs[1..], h[|fs[0]|..])
  }

  // ----- one batch of bytes

  /** The outcome of a batch: the whole frames were returned in order, the rest waits, nothing was dropped. */
  ghost predicate Delivered(cfg: Config, r: Reader, fs: seq<seq<Byte>>, held: seq<Byte>, w: Call) {
    var k := Whole(fs, |held|);
    && Idle(cfg, w)
    && w.held == Rest(fs, held)
    && w.r.log == r.log + Packets(fs[..k])
    && w.r.lastReadAt == r.lastReadAt
    && w.r.stats.otherDrops == r.stats.otherDrops
    && w.r.stats.crcErrors == r.stats.crcErrors
    && w.r.stats.formateWarnings == r.stats.formateWarnings
    && (k < |fs| ==> w.expected <= |fs[k]|)
  }

  /** A whole frame at the start of the buffer is returned and the bytes behind it are kept. */
  lemma FirstFrame(cfg: Config, r: Reader, held: seq<Byte>, expected: nat, f: seq<Byte>)
    requires r.last == [] && SMALLEST_RTU_SIZE <= expected <= |f|
    requires Framed(cfg, f) && f <= held && |held| <= cfg.size
    ensures var c := After(cfg, r, held, expected);
            && c.Returned? && c.bytes == f && c.r.last == held[|f|..]
            && c.r.log == r.log + [Segment(Packet, f)]
            && c.r.lastReadAt == r.lastReadAt
            && c.r.stats.otherDrops == r.stats.otherDrops && c.r.stats.crcErrors == r.stats.crcErrors
            && c.r.stats.formateWarnings == r.stats.formateWarnings
  {
    assert cfg.sizeOf(held, r.lastRtu) == |f| && held[..|f|] == f;
    assert After(cfg, r, held, expected) == Close(cfg, r, held, |f|);
    if |held| == |f| { assert held == f; }
  }

  /** Part of a frame waits for more. */
  lemma PartialFrame(cfg: Config, r: Reader, held: seq<Byte>, expected: nat, f: seq<Byte>)
    requires r.last == [] && SMALLEST_RTU_SIZE <= expected <= |f|
    requires Framed(cfg, f) && held < f && |held| <= cfg.size
    ensures var c := After(cfg, r, held, expected);
            c.Waiting? && c.r == r && c.held == held && c.expected <= |f|
  {
    assert |held| >= expected ==> |held| < cfg.sizeOf(held, r.lastRtu) <= |f|;
  }

  ghost predicate AllFramed(cfg: Config, fs: seq<seq<Byte>>) {
    forall i :: 0 <= i < |fs| ==> Framed(cfg, fs[i])
  }

  lemma {:induction false} AfterDelivers(cfg: Config, r: Reader, held: seq<Byte>, expected: nat, fs: seq<seq<Byte>>)
    requires r.last == [] && expected >= SMALLEST_RTU_SIZE && |held| < cfg.size
    requires AllFramed(cfg, fs) && held <= Flatten(fs) && (fs != [] ==> expected <= |fs[0]|)
    ensures Delivered(cfg, r, fs, held, Settle(cfg, After(cfg, r, held, expected)))
    decreases |fs|
  {
    if fs == [] {
      assert r.log + Packets(fs[..0]) == r.log;
    } else if |held| < |fs[0]| {
      assert held < fs[0];
      PartialFrame(cfg, r, held, expected, fs[0]);
      assert r.log + Packets(fs[..0]) == r.log;
    } else {
      var f, rest := fs[0], held[|fs[0]|..];
      assert held + [] == held && rest + [] == rest;
      PrefixSplit(f, Flatten(fs[1..]), held, []);
      FirstFrame(cfg, r, held, expected, f);
      var c := After(cfg, r, held, expected);
      SettleReturned(cfg, c);
      var r' := c.r.(stats := c.r.stats.(readPackets := c.r.stats.readPackets + 1), last := []);
      AfterDelivers(cfg, r', rest, SMALLEST_RTU_SIZE, fs[1..]);
      DeliveredFirst(cfg, r, r', fs, held, Settle(cfg, c));
    }
  }

  lemma DeliveredFirst(cfg: Config, r: Reader, r': Reader, fs: seq<seq<Byte>>, held: seq<Byte>, w: Call)
    requires fs != [] && |fs[0]| <= |held| && Delivered(cfg, r', fs[1..], held[|fs[0]|..], w)
    requires r'.log == r.log + [Segment(Packet, fs[0])] && r'.lastReadAt == r.lastReadAt
    requires r'.stats.otherDrops == r.stats.otherDrops && r'.stats.crcErrors == r.stats.crcErrors
    requires r'.stats.formateWarnings == r.stats.formateWarnings
    ensures Delivered(cfg, r, fs, held, w)
  {
    var k := Whole(fs[1..], |held[|fs[0]|..]|);
    assert [Segment(Packet, fs[0])] + Packets(fs[1..][..k]) == Packets(fs[..k + 1]);
  }

  lemma PrefixSplit(f: seq<Byte>, g: seq<Byte>, h: seq<Byte>, t: seq<Byte>)
    requires h + t <= f + g && |f| <= |h|
    ensures h == f + h[|f|..] && f <= h && h[|f|..] + t <= g
  {
    assert h == (f + g)[..|h|];
    assert f == (f + g)[..|f|];
    assert h[|f|..] + t == (h + t)[|f|..];
    assert g == (f + g)[|f|..];
  }

  /** The next call takes up what the last one carried over. */
  lemma SettleReturned(cfg: Config, c: Call)
    requires c.Returned? && |c.r.last| < cfg.size
    ensures var r' := c.r.(stats := c.r.stats.(readPackets := c.r.stats.readPackets + 1), last := []);
            Settle(cfg, c) == Settle(cfg, After(cfg, r', c.r.last, SMALLEST_RTU_SIZE))
  {
    var r1 := c.r.(stats := c.r.stats.(readPackets := c.r.stats.readPackets + 1));
    var r' := r1.(last := []);
    assert Settle(cfg, c) == Settle(cfg, Begin(cfg, c.r));
    assert Begin(cfg, c.r) == Head(cfg, r1, [], SMALLEST_RTU_SIZE);
    if c.r.last == [] {
      assert r1 == r';
      assert After(cfg, r', [], SMALLEST_RTU_SIZE) == Head(cfg, r', [], SMALLEST_RTU_SIZE);
    } else {
      assert c.r.last[..Min(|c.r.last|, cfg.size)] == c.r.last;
    }
  }

  // ----- a whole run

  /**
   The timing that framing asks for, in terms of the frames sent and the port reads only: no error, no read that fills
   the buffer, and no silence over the cutoff inside a frame. Between frames any silence will do.
   */
  ghost predicate Gentle(cfg: Config, fs: seq<seq<Byte>>, part: seq<Byte>, at: int, events: seq<PortRead>)
    decreases |events|
  {
    events == [] ||
    (var e, h := events[0], part + events[0].data;
     && !e.failed
     && |h| < cfg.size
     && (part != [] ==> e.now - at <= cfg.cutoff(|e.data|))
     && Gentle(cfg, fs[Whole(fs, |h|)..], Rest(fs, h), if e.data == [] then at else e.now, events[1..]))
  }

  /** The reader holds exactly `part`, the received start of the first of the frames `fs`. */
  ghost predicate Within(cfg: Config, fs: seq<seq<Byte>>, part: seq<Byte>, at: int, c: Call) {
    && Idle(cfg, c) && c.held == part
    && AllFramed(cfg, fs)
    && (fs != [] ==> c.expected <= |fs[0]| && |part| < |fs[0]|)
    && (part != [] ==> c.r.lastReadAt == at)
  }

  lemma FlattenFirst(fs: seq<seq<Byte>>, k: nat)
    requires fs != [] && k <= |fs[1..]|
    ensures Flatten(fs[..k + 1]) == fs[0] + Flatten(fs[1..][..k]) && fs[k + 1..] == fs[1..][k..]
  {
    assert fs[..k + 1][1..] == fs[1..][..k];
  }

  lemma {:induction false} RestShort(fs: seq<seq<Byte>>, h: seq<Byte>)
    ensures var k := Whole(fs, |h|);
            k < |fs| ==> |Rest(fs, h)| < |fs[k]|
    decreases |fs|
  {
    if fs != [] && |fs[0]| <= |h| { RestShort(fs[1..], h[|fs[0]|..]); }
  }

  lemma {:induction false} RestBehind(fs: seq<seq<Byte>>, h: seq<Byte>)
    requires h <= Flatten(fs)
    ensures h == Flatten(fs[..Whole(fs, |h|)]) + Rest(fs, h)
    decreases |fs|
  {
    if fs == [] || |h| < |fs[0]| {
      assert Flatten(fs[..0]) == [];
    } else {
      var f, rest := fs[0], h[|fs[0]|..];
      assert h + [] == h && rest + [] == rest;
      PrefixSplit(f, Flatten(fs[1..]), h, []);
      RestBehind(fs[1..], rest);
      var k := Whole(fs[1..], |rest|);
      FlattenFirst(fs, k);
      Regroup(f, Flatten(fs[1..][..k]), Rest(fs[1..], rest));
    }
  }

  lemma {:induction false} RestAhead(fs: seq<seq<Byte>>, h: seq<Byte>, t: seq<Byte>)
    requires h + t <= Flatten(fs)
    ensures Rest(fs, h) + t <= Flatten(fs[Whole(fs, |h|)..])
    decreases |fs|
  {
    if fs == [] || |h| < |fs[0]| {
      assert fs[0..] == fs;
    } else {
      PrefixSplit(fs[0], Flatten(fs[1..]), h, t);
      RestAhead(fs[1..], h[|fs[0]|..], t);
      FlattenFirst(fs, Whole(fs[1..], |h[|fs[0]|..]|));
    }
  }

  lemma RestOfStream(fs: seq<seq<Byte>>, h: seq<Byte>, t: seq<Byte>)
    requires h + t <= Flatten(fs)
    ensures var k := Whole(fs, |h|);
            && h == Flatten(fs[..k]) + Rest(fs, h)
            && Rest(fs, h) + t <= Flatten(fs[k..])
            && (k < |fs| ==> |Rest(fs, h)| < |fs[k]|)
  {
    assert h == (h + t)[..|h|] == Flatten(fs)[..|h|];
    RestBehind(fs, h);
    RestAhead(fs, h, t);
    RestShort(fs, h);
  }

  lemma {:induction false} RestAgain(fs: seq<seq<Byte>>, h: seq<Byte>, t: seq<Byte>)
    ensures var k := Whole(fs, |h|);
            && Whole(fs, |h + t|) == k + Whole(fs[k..], |Rest(fs, h) + t|)
            && Rest(fs, h + t) == Rest(fs[k..], Rest(fs, h) + t)
    decreases |fs|
  {
    if fs == [] || |h| < |fs[0]| {
      assert fs[0..] == fs;
    } else {
      var n := |fs[0]|;
      assert (h + t)[n..] == h[n..] + t;
      RestAgain(fs[1..], h[n..], t);
      var k := Whole(fs[1..], |h[n..]|);
      assert fs[k + 1..] == fs[1..][k..];
    }
  }

  lemma PacketsConcat(fs: seq<seq<Byte>>, k: nat, m: nat)
    requires k + m <= |fs|
    ensures Packets(fs[..k]) + Packets(fs[k..][..m]) == Packets(fs[..k + m])
  {}

  /** Between c and w the whole frames of `stream` were returned in order; the rest of it is in hand; nothing was dropped. */
  ghost predicate Came(c: Call, w: Call, fs: seq<seq<Byte>>, stream: seq<Byte>) {
    && w.Waiting?
    && w.r.log == c.r.log + Packets(fs[..Whole(fs, |stream|)])
    && w.held == Rest(fs, stream)
    && w.r.stats.otherDrops == c.r.stats.otherDrops
    && w.r.stats.crcErrors == c.r.stats.crcErrors
    && w.r.stats.formateWarnings == c.r.stats.formateWarnings
  }

  lemma CameTwice(c: Call, w: Call, w': Call, fs: seq<seq<Byte>>, h: seq<Byte>, t: seq<Byte>)
    requires Came(c, w, fs, h)
    requires Came(w, w', fs[Whole(fs, |h|)..], Rest(fs, h) + t)
    ensures Came(c, w', fs, h + t)
  {
    RestAgain(fs, h, t);
    LogTwice(c.r.log, fs, h, t);
  }

  lemma FeedDelivers(cfg: Config, c: Call, e: PortRead, fs: seq<seq<Byte>>, part: seq<Byte>, at: int)
    requires Within(cfg, fs, part, at, c) && part + e.data <= Flatten(fs)
    requires !e.failed && |part + e.data| < cfg.size && (part != [] ==> e.now - at <= cfg.cutoff(|e.data|))
    ensures var h := part + e.data;
            var w := Feed(cfg, c, e);
            && Came(c, w, fs, h)
            && Within(cfg, fs[Whole(fs, |h|)..], Rest(fs, h), if e.data == [] then at else e.now, w)
  {
    var r := if e.data == [] then c.r else c.r.(lastReadAt := e.now);
    var h := part + e.data;
    assert Resume(cfg, c, e) == After(cfg, r, h, c.expected);
    AfterDelivers(cfg, r, h, c.expected, fs);
    assert h + [] == h;
    RestOfStream(fs, h, []);
  }

  /** The situation after the first port read is again one that framing starts from. */
  lemma StepReady(cfg: Config, c: Call, events: seq<PortRead>, fs: seq<seq<Byte>>, part: seq<Byte>, at: int)
    requires events != [] && Within(cfg, fs, part, at, c)
    requires part + Data(events) <= Flatten(fs) && Gentle(cfg, fs, part, at, events)
    ensures var e := events[0];
            var h, w := part + e.data, Feed(cfg, c, e);
            var k := Whole(fs, |h|);
            && |c.held| + |e.data| <= cfg.size
            && part + Data(events) == h + Data(events[1..])
            && Came(c, w, fs, h)
            && Within(cfg, fs[k..], Rest(fs, h), if e.data == [] then at else e.now, w)
            && Rest(fs, h) + Data(events[1..]) <= Flatten(fs[k..])
  {
    var h, tail := part + events[0].data, Data(events[1..]);
    StreamStep(events[0].data, tail, part, Flatten(fs));
    FeedDelivers(cfg, c, events[0], fs, part, at);
    RestOfStream(fs, h, tail);
  }

  lemma StreamStep(data: seq<Byte>, tail: seq<Byte>, part: seq<Byte>, stream: seq<Byte>)
    requires part + (data + tail) <= stream
    ensures part + (data + tail) == (part + data) + tail && part + data <= stream
  {
    assert part + (data + tail) == (part + data) + tail;
  }

  lemma RunStep(cfg: Config, c: Call, w: Call, events: seq<PortRead>)
    requires Idle(cfg, c) && events != [] && |c.held| + |events[0].data| <= cfg.size
    requires w == Feed(cfg, c, events[0]) && Fits(cfg, w, events[1..])
    ensures Fits(cfg, c, events) && Run(cfg, c, events) == Run(cfg, w, events[1..])
  {}

  /**
   Framing: the frames sent are returned, whole and in order, each as soon as its last byte is delivered, however the
   port cuts up the stream; nothing is dropped and what remains in hand is the start of the next frame.
   */
  lemma {:induction false} RunDelivers(cfg: Config, c: Call, events: seq<PortRead>, fs: seq<seq<Byte>>, part: seq<Byte>, at: int)
    requires Within(cfg, fs, part, at, c) && part + Data(events) <= Flatten(fs)
    requires Gentle(cfg, fs, part, at, events)
    ensures Fits(cfg, c, events) && Came(c, Run(cfg, c, events), fs, part + Data(events))
    decreases |events|
  {
    if events == [] {
      assert part + [] == part;
      assert c.r.log + Packets(fs[..0]) == c.r.log;
    } else {
      var e := events[0];
      var h, w := part + e.data, Feed(cfg, c, e);
      StepReady(cfg, c, events, fs, part, at);
      RunDelivers(cfg, w, events[1..], fs[Whole(fs, |h|)..], Rest(fs, h), if e.data == [] then at else e.now);
      RunStep(cfg, c, w, events);
      CameTwice(c, w, Run(cfg, c, events), fs, h, Data(events[1..]));
    }
  }

  /** The framing theorem for the library's reader, in one direction or on a shared two-wire bus. */
  lemma Framing(
    mode: Mode, limits: Limits, cutoff: nat -> int, size: nat, at: int, fs: seq<seq<Byte>>, events: seq<PortRead>)
    requires forall i :: 0 <= i < |fs| ==> FrameIn(mode, limits, fs[i])
    requires Data(events) <= Flatten(fs)
    requires Gentle(RtuReader(mode, limits, cutoff, size), fs, [], at, events)
    ensures var cfg := RtuReader(mode, limits, cutoff, size);
            var k := Whole(fs, |Data(events)|);
            && Fits(cfg, Fresh(cfg, at), events)
            && var w := Run(cfg, Fresh(cfg, at), events);
               && w.r.log == Packets(fs[..k])
               && Flatten(fs[..k]) + w.held == Data(events)
               && (k < |fs| ==> |w.held| < |fs[k]|)
               && w.r.stats.otherDrops == w.r.stats.crcErrors == w.r.stats.formateWarnings == 0
  {
    var cfg := RtuReader(mode, limits, cutoff, size);
    forall i | 0 <= i < |fs| ensures Framed(cfg, fs[i]) {
      FramesAreFramed(mode, limits, cutoff, size, fs[i]);
    }
    assert [] + Data(events) == Data(events) == Data(events) + [];
    RunDelivers(cfg, Fresh(cfg, at), events, fs, [], at);
    RestOfStream(fs, Data(events), []);
  }

  /** The fields after a silence: what was in hand is dropped and counted. */
  function AfterGap(c: Call, e: PortRead): Reader
    requires c.Waiting?
  {
    if c.held == [] then c.r.(lastReadAt := e.now)
    else c.r.(lastReadAt := e.later, stats := c.r.stats.(otherDrops := c.r.stats.otherDrops + 1)).Note(Stale, c.held)
  }

  lemma SilenceDrops(cfg: Config, c: Call, e: PortRead)
    requires c.Waiting? && Good(cfg, c) && |c.held| + |e.data| <= cfg.size
    requires !e.failed && 0 < |e.data| < cfg.size
    requires c.held != [] ==> e.now - c.r.lastReadAt > cfg.cutoff(|e.data|)
    ensures Resume(cfg, c, e) == After(cfg, AfterGap(c, e), e.data, SMALLEST_RTU_SIZE)
  {
    assert [] + e.data == e.data && e.data[..Min(|e.data|, cfg.size)] == e.data;
  }

  /** The first port read of a frame that comes after a silence, whatever the buffer holds. */
  lemma AfterSilence(cfg: Config, c: Call, e: PortRead, fs: seq<seq<Byte>>)
    requires c.Waiting? && Good(cfg, c) && |c.held| + |e.data| <= cfg.size
    requires !e.failed && 0 < |e.data| < cfg.size
    requires c.held != [] ==> e.now - c.r.lastReadAt > cfg.cutoff(|e.data|)
    requires AllFramed(cfg, fs) && e.data <= Flatten(fs) && fs != []
    ensures var w := Feed(cfg, c, e);
            && w.r.log == c.r.log + Dropped(c) + Packets(fs[..Whole(fs, |e.data|)])
            && Within(cfg, fs[Whole(fs, |e.data|)..], Rest(fs, e.data), if c.held == [] then e.now else e.later, w)
  {
    SilenceDrops(cfg, c, e);
    AfterDelivers(cfg, AfterGap(c, e), e.data, SMALLEST_RTU_SIZE, fs);
    assert e.data + [] == e.data;
    RestOfStream(fs, e.data, []);
  }

  lemma ResumeFraming(cfg: Config, c: Call, events: seq<PortRead>, fs: seq<seq<Byte>>)
    requires c.Waiting? && Good(cfg, c) && events != [] && fs != []
    requires AllFramed(cfg, fs) && Data(events) <= Flatten(fs)
    requires SilenceThenGentle(cfg, c, events, fs)
    ensures Fits(cfg, c, events)
    ensures Run(cfg, c, events).r.log == c.r.log + Dropped(c) + Packets(fs[..Whole(fs, |Data(events)|)])
  {
    var e, tail := events[0], Data(events[1..]);
    var k, at, w := Whole(fs, |e.data|), if c.held == [] then e.now else e.later, Feed(cfg, c, e);
    assert e.data <= Data(events);
    AfterSilence(cfg, c, e, fs);
    RestOfStream(fs, e.data, tail);
    RunDelivers(cfg, w, events[1..], fs[k..], Rest(fs, e.data), at);
    RunStep(cfg, c, w, events);
    LogTwice(c.r.log + Dropped(c), fs, e.data, tail);
  }

  lemma LogTwice(log: seq<Segment>, fs: seq<seq<Byte>>, h: seq<Byte>, t: seq<Byte>)
    ensures var k := Whole(fs, |h|);
            log + Packets(fs[..k]) + Packets(fs[k..][..Whole(fs[k..], |Rest(fs, h) + t|)]) == log + Packets(fs[..Whole(fs, |h + t|)])
  {
    var k := Whole(fs, |h|);
    RestAgain(fs, h, t);
    PacketsConcat(fs, k, Whole(fs[k..], |Rest(fs, h) + t|));
  }

  /** What a silence makes the reader drop. */
  function Dropped(c: Call): seq<Segment>
    requires c.Waiting?
  {
    if c.held == [] then [] else [Segment(Stale, c.held)]
  }

  /** The first port read comes after a silence, if any bytes are in hand; the rest arrive in time. */
  ghost predicate SilenceThenGentle(cfg: Config, c: Call, events: seq<PortRead>, fs: seq<seq<Byte>>)
    requires c.Waiting? && events != []
  {
    var e := events[0];
    && !e.failed && 0 < |e.data| < cfg.size && |c.held| + |e.data| <= cfg.size
    && (c.held != [] ==> e.now - c.r.lastReadAt > cfg.cutoff(|e.data|))
    && Gentle(cfg, fs[Whole(fs, |e.data|)..], Rest(fs, e.data), if c.held == [] then e.now else e.later, events[1..])
  }

  /**
   Resynchronisation: from every reachable state of the reader, whatever garbage came before, one silence
   longer than the cutoff drops exactly what was in hand, and the frames after it are the next packets returned.
   */
  lemma Resynchronisation(
    mode: Mode, limits: Limits, cutoff: nat -> int, size: nat, c: Call, fs: seq<seq<Byte>>, events: seq<PortRead>)
    requires forall i :: 0 <= i < |fs| ==> FrameIn(mode, limits, fs[i])
    requires c.Waiting? && Good(RtuReader(mode, limits, cutoff, size), c)
    requires events != [] && fs != [] && Data(events) <= Flatten(fs)
    requires SilenceThenGentle(RtuReader(mode, limits, cutoff, size), c, events, fs)
    ensures var cfg := RtuReader(mode, limits, cutoff, size);
            && Fits(cfg, c, events)
            && Run(cfg, c, events).r.log == c.r.log + Dropped(c) + Packets(fs[..Whole(fs, |Data(events)|)])
  {
    var cfg := RtuReader(mode, limits, cutoff, size);
    forall i | 0 <= i < |fs| ensures Framed(cfg, fs[i]) {
      FramesAreFramed(mode, limits, cutoff, size, fs[i]);
    }
    ResumeFraming(cfg, c, events, fs);
  }
}
