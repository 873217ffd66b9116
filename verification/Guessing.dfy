/**
 Frames whose direction the reader has to guess: those of other slaves on a shared two-wire bus, and all that a failover
 connection reads.
 */
module Guessing {
  import opened Bytes
  import opened Modbus
  import opened Rtu
  import opened RtuSize
  import opened ReaderModel
  import opened ReaderSafety
  import opened ReaderFraming
  import opened LoneFrame
  import opened Seqs
  import Wire
  import Crc

  // ----- sizes

  /** The size that the header of a frame of direction d has in the other one. */
  function OtherSize(limits: Limits, d: bool, f: Packet): nat { OneWaySize(limits, f, !d) }

  /** A frame that begins with what passes for a packet of the other direction. */
  predicate Hides(limits: Limits, d: bool, f: Packet) {
    var s := OtherSize(limits, d, f);
    s < |f| && Crc.Valid(f[..s])
  }

  /** What a beginning of a frame says about its size in either direction. */
  lemma PartSizes(limits: Limits, d: bool, f: Packet, h: Packet)
    requires IsFrame(limits, d, f) && h <= f && |h| >= SMALLEST_RTU_SIZE
    ensures var a, b, s := OneWaySize(limits, h, d), OneWaySize(limits, h, !d), OtherSize(limits, d, f);
            && a <= |f| && (h < f ==> |h| < a) && b <= s && (b <= |h| <==> s <= |h|) && (b <= |h| ==> b == s && h[..b] == f[..s])
            && SMALLEST_RTU_SIZE <= b
  {
    SizeStable(limits, h, f, d);
    SizeStable(limits, h, f, !d);
    SizeAtLeast(limits, h, !d);
  }

  /** The direction preferred after `last`: that of a request, except after a packet that does not read as one. */
  predicate PrefersReply(limits: Limits, last: Packet) { |last| != 0 && |last| != OneWaySize(limits, last, false) }

  /**
   With one direction preferred, a frame is inferred at its own length exactly if that is its direction, or its size in the
   other is the same, or is shorter without a packet of that size there. So with the preference documented, that of a
   reply after a request, every frame would be.
   */
  lemma GuessedSizeIff(limits: Limits, d: bool, f: Packet, preferred: bool)
    requires IsFrame(limits, d, f)
    ensures var s := OtherSize(limits, d, f);
            && (PreferredSize(limits, f, preferred) == |f| <==>
                  preferred == d || s == |f| || (s < |f| && !Crc.Valid(f[..s])))
            && (PreferredSize(limits, f, preferred) == |f| || PreferredSize(limits, f, preferred) == s)
  {
    assert f[..|f|] == f;
  }

  /** No part of a frame that hides nothing is inferred to be a packet. */
  lemma GuessIsPatient(limits: Limits, d: bool, f: Packet, preferred: bool, h: Packet)
    requires IsFrame(limits, d, f) && h < f && |h| >= SMALLEST_RTU_SIZE
    requires preferred == d || !Hides(limits, d, f)
    ensures |h| < PreferredSize(limits, h, preferred)
    ensures PreferredSize(limits, f, preferred) == |f| ==> PreferredSize(limits, h, preferred) <= |f|
  {
    PartSizes(limits, d, f, h);
    GuessedSizeIff(limits, d, f, preferred);
  }

  /** If it hides something, that is inferred as soon as it is there. */
  lemma GuessIsCut(limits: Limits, d: bool, f: Packet, h: Packet)
    requires IsFrame(limits, d, f) && h <= f && |h| >= SMALLEST_RTU_SIZE && Hides(limits, d, f)
    ensures var n, s := PreferredSize(limits, h, !d), OtherSize(limits, d, f);
            if |h| < s then |h| < n <= s else n == s
  {
    PartSizes(limits, d, f, h);
  }

  /** Without a preference a frame that is there as a whole is inferred at its own length, whatever it hides. */
  lemma EitherWayWhole(limits: Limits, d: bool, f: Packet)
    requires IsFrame(limits, d, f)
    ensures EitherWaySize(limits, f) == |f|
  {
    assert f[..|f|] == f;
  }

  lemma EitherWayPart(limits: Limits, d: bool, f: Packet, h: Packet)
    requires IsFrame(limits, d, f) && h < f && |h| >= SMALLEST_RTU_SIZE
    ensures !Hides(limits, d, f) ==> |h| < EitherWaySize(limits, h) <= |f|
    ensures Hides(limits, d, f) && |h| <= OtherSize(limits, d, f) ==> |h| <= EitherWaySize(limits, h) <= OtherSize(limits, d, f)
    ensures Hides(limits, d, f) && |h| < OtherSize(limits, d, f) ==> |h| < EitherWaySize(limits, h)
  {
    PartSizes(limits, d, f, h);
  }

  // ----- a shared two-wire bus

  /** The reader of the server with this id. */
  function BusReader(limits: Limits, cutoff: nat -> int, size: nat, id: Byte): Config {
    RtuReader(TwoWire(false, id), limits, cutoff, size)
  }

  lemma BusSize(limits: Limits, cutoff: nat -> int, size: nat, id: Byte, h: Packet, last: Packet)
    requires |h| >= SMALLEST_RTU_SIZE && h[0] != id
    ensures BusReader(limits, cutoff, size, id).sizeOf(h, last) == PreferredSize(limits, h, PrefersReply(limits, last))
  {}

  lemma BusIsPatient(limits: Limits, cutoff: nat -> int, size: nat, id: Byte, d: bool, f: Packet, last: Packet)
    requires IsFrame(limits, d, f) && |f| >= SMALLEST_RTU_SIZE && f[0] != id
    requires PrefersReply(limits, last) == d || !Hides(limits, d, f)
    ensures Patient(BusReader(limits, cutoff, size, id), f, last)
  {
    var cfg := BusReader(limits, cutoff, size, id);
    BusSize(limits, cutoff, size, id, f, last);
    GuessedSizeIff(limits, d, f, PrefersReply(limits, last));
    forall h | h < f && |h| >= SMALLEST_RTU_SIZE
      ensures |h| < cfg.sizeOf(h, last) && (cfg.sizeOf(f, last) == |f| ==> cfg.sizeOf(h, last) <= |f|)
    {
      BusSize(limits, cutoff, size, id, h, last);
      GuessIsPatient(limits, d, f, PrefersReply(limits, last), h);
    }
  }

  /** The beginning of f of s bytes is a packet to the reader, as soon as it is there. */
  ghost predicate CutAt(cfg: Config, f: Packet, last: Packet, s: nat) {
    && SMALLEST_RTU_SIZE <= s < |f| && cfg.valid(f[..s])
    && forall h {:trigger cfg.sizeOf(h, last)} :: h <= f && |h| >= SMALLEST_RTU_SIZE ==>
         if |h| < s then |h| < cfg.sizeOf(h, last) <= s else cfg.sizeOf(h, last) == s
  }

  lemma BusCuts(limits: Limits, cutoff: nat -> int, size: nat, id: Byte, d: bool, f: Packet, last: Packet)
    requires IsFrame(limits, d, f) && |f| >= SMALLEST_RTU_SIZE && f[0] != id
    requires PrefersReply(limits, last) != d && Hides(limits, d, f)
    ensures CutAt(BusReader(limits, cutoff, size, id), f, last, OtherSize(limits, d, f))
  {
    var cfg, s := BusReader(limits, cutoff, size, id), OtherSize(limits, d, f);
    PartSizes(limits, d, f, f);
    forall h | h <= f && |h| >= SMALLEST_RTU_SIZE
      ensures if |h| < s then |h| < cfg.sizeOf(h, last) <= s else cfg.sizeOf(h, last) == s
    {
      BusSize(limits, cutoff, size, id, h, last);
      GuessIsCut(limits, d, f, h);
    }
  }

  // ----- a frame that is cut

  lemma CutIsPatient(cfg: Config, f: Packet, last: Packet, s: nat)
    requires CutAt(cfg, f, last, s)
    ensures Patient(cfg, f[..s], last) && cfg.sizeOf(f[..s], last) == s
  {
    assert f[..s] <= f;
    forall h | h < f[..s] && |h| >= SMALLEST_RTU_SIZE
      ensures |h| < cfg.sizeOf(h, last) <= s
    {
      assert h <= f;
    }
  }

  /** The read that brings the last byte of the packet in front, and maybe more. */
  lemma FrontReturned(cfg: Config, c: Call, e: PortRead, f: Packet, s: nat, part: Packet, at: int)
    requires CutAt(cfg, f, c.r.lastRtu, s) && Holding(cfg, f[..s], part, at, c) && InTime(cfg, part, at, e)
    requires part + e.data <= f && s <= |part + e.data| < cfg.size
    requires cfg.sizeOf(f[..s], c.r.lastRtu) == s
    ensures c.r.log + [Segment(ReaderModel.Packet, f[..s])] <= Feed(cfg, c, e).r.log
  {
    var r, h := if e.data == [] then c.r else c.r.(lastReadAt := e.now), part + e.data;
    InTimeTakes(cfg, c, e, part, at);
    assert cfg.sizeOf(h, r.lastRtu) == s;
    assert h[..s] == f[..s];
    assert Take(cfg, r, h, c.expected, false) == After(cfg, r, h, c.expected) == Close(cfg, r, h, s);
    if |h| == s { assert h[..s] == h; }
    SettleGrows(cfg, Close(cfg, r, h, s));
  }

  lemma {:induction false} FrontFirst(cfg: Config, c: Call, f: Packet, s: nat, part: Packet, at: int, events: seq<PortRead>)
    requires CutAt(cfg, f, c.r.lastRtu, s) && Holding(cfg, f[..s], part, at, c) && |f| < cfg.size
    requires part + Data(events) == f && Timely(cfg, part, at, events) && Fits(cfg, c, events)
    ensures c.r.log + [Segment(ReaderModel.Packet, f[..s])] <= Run(cfg, c, events).r.log
    decreases |events|
  {
    CutIsPatient(cfg, f, c.r.lastRtu, s);
    var e, tail := events[0], Data(events[1..]);
    var h, w := part + e.data, Feed(cfg, c, e);
    assert part + (e.data + tail) == h + tail;
    if |h| < s {
      assert h == f[..|h|] == f[..s][..|h|];
      PartArrives(cfg, c, e, f[..s], part, at);
      FrontFirst(cfg, w, f, s, h, if e.data == [] then at else e.now, events[1..]);
    } else {
      FrontReturned(cfg, c, e, f, s, part, at);
      RunGrows(cfg, w, events[1..]);
    }
  }

  lemma ForeignIsCut(limits: Limits, cutoff: nat -> int, size: nat, id: Byte, c: Call, d: bool, f: Packet, events: seq<PortRead>)
    requires IsFrame(limits, d, f) && |f| >= SMALLEST_RTU_SIZE && f[0] != id && |f| < size
    requires PrefersReply(limits, c.r.lastRtu) != d && Hides(limits, d, f)
    requires var cfg := BusReader(limits, cutoff, size, id); Ready(cfg, c) && Brings(cfg, f, events) && Fits(cfg, c, events)
    ensures var w := Run(BusReader(limits, cutoff, size, id), c, events);
            c.r.log + [Segment(ReaderModel.Packet, f[..OtherSize(limits, d, f)])] <= w.r.log
  {
    var cfg, s := BusReader(limits, cutoff, size, id), OtherSize(limits, d, f);
    BusCuts(limits, cutoff, size, id, d, f, c.r.lastRtu);
    CutIsPatient(cfg, f, c.r.lastRtu, s);
    assert [] + Data(events) == f;
    FrontFirst(cfg, c, f, s, [], 0, events);
  }

  lemma ForeignComes(limits: Limits, cutoff: nat -> int, size: nat, id: Byte, c: Call, d: bool, f: Packet, events: seq<PortRead>)
    requires IsFrame(limits, d, f) && |f| >= SMALLEST_RTU_SIZE && f[0] != id && |f| < size
    requires PrefersReply(limits, c.r.lastRtu) == d || !Hides(limits, d, f)
    requires var cfg := BusReader(limits, cutoff, size, id); Ready(cfg, c) && Brings(cfg, f, events) && Fits(cfg, c, events)
    ensures var w, s := Run(BusReader(limits, cutoff, size, id), c, events), OtherSize(limits, d, f);
            if PrefersReply(limits, c.r.lastRtu) == d || s <= |f| then w.r.log == c.r.log + [Segment(ReaderModel.Packet, f)]
            else w.Waiting? && w.held == f && w.r.log == c.r.log
  {
    var cfg, last := BusReader(limits, cutoff, size, id), c.r.lastRtu;
    BusSize(limits, cutoff, size, id, f, last);
    GuessedSizeIff(limits, d, f, PrefersReply(limits, last));
    BusIsPatient(limits, cutoff, size, id, d, f, last);
    LoneFrameComes(cfg, c, f, events);
  }

  /**
   A frame of another slave, a request or a reply, comes to the reader of a server on a two-wire bus that is between packets.
   However it is cut up, it is returned, whole and once, exactly if it has the direction preferred, or has the same size in
   both, or is longer in its own and hides nothing. Otherwise, if its size in the direction preferred is longer, all of it is
   held for more to come; and if it hides a packet of the direction preferred, that is returned.
   */
  lemma ForeignFrameIff(limits: Limits, cutoff: nat -> int, size: nat, id: Byte, c: Call, d: bool, f: Packet, events: seq<PortRead>)
    requires IsFrame(limits, d, f) && f[0] != id && |f| < size
    requires Ready(BusReader(limits, cutoff, size, id), c) && Brings(BusReader(limits, cutoff, size, id), f, events)
    requires Fits(BusReader(limits, cutoff, size, id), c, events)
    ensures var w, s, right :=
              Run(BusReader(limits, cutoff, size, id), c, events), OtherSize(limits, d, f), PrefersReply(limits, c.r.lastRtu) == d;
            && (w.r.log == c.r.log + [Segment(ReaderModel.Packet, f)] <==> right || s == |f| || (s < |f| && !Crc.Valid(f[..s])))
            && (!right && s > |f| ==> w.Waiting? && w.held == f && w.r.log == c.r.log)
            && (!right && Hides(limits, d, f) ==> c.r.log + [Segment(ReaderModel.Packet, f[..s])] <= w.r.log)
  {
    var s := OtherSize(limits, d, f);
    SizeAtLeast(limits, f, d);
    if PrefersReply(limits, c.r.lastRtu) != d && Hides(limits, d, f) {
      ForeignIsCut(limits, cutoff, size, id, c, d, f, events);
      OtherFirst(c.r.log, Run(BusReader(limits, cutoff, size, id), c, events).r.log, f[..s], f);
    } else {
      ForeignComes(limits, cutoff, size, id, c, d, f, events);
    }
  }

  lemma OtherFirst(before: seq<Segment>, log: seq<Segment>, g: Packet, f: Packet)
    requires before + [Segment(ReaderModel.Packet, g)] <= log && |g| < |f|
    ensures log != before + [Segment(ReaderModel.Packet, f)] && log != before + [Segment(Full, f)]
  {
    assert log[|before|] == Segment(ReaderModel.Packet, g);
  }

  /** A request for one coil of slave 2 and its reply. */
  const ASKED: Packet := MakeRtu(2, [1, 0, 0, 0, 1])
  const REPLIED: Packet := MakeRtu(2, [1, 1, 1])

  lemma AskedAndReplied(limits: Limits)
    ensures IsFrame(limits, false, ASKED) && IsFrame(limits, true, REPLIED)
    ensures |ASKED| == 8 && |REPLIED| == 6 && ASKED[0] == REPLIED[0] == 2
    ensures OtherSize(limits, true, REPLIED) == 8 && !PrefersReply(limits, ASKED)
  {
    Wire.FrameWhen(limits, false, 2, [1, 0, 0, 0, 1]);
    Wire.FrameWhen(limits, true, 2, [1, 1, 1]);
    GetPduOfMakeRtu(2, [1, 0, 0, 0, 1]);
    GetPduOfMakeRtu(2, [1, 1, 1]);
    assert FastPdu(REPLIED)[0] == REPLIED[1] == 1;
  }

  /** A valid reply that the reader of server 1 does not return: it waits for the two bytes more that a request would have. */
  lemma ReplyIsHeld(limits: Limits, cutoff: nat -> int, at: int)
    ensures var cfg, events := BusReader(limits, cutoff, 256, 1), [PortRead(ASKED, false, at, at), PortRead(REPLIED, false, at, at)];
            && Fits(cfg, Fresh(cfg, at), events)
            && var w := Run(cfg, Fresh(cfg, at), events);
               w.r.log == [Segment(ReaderModel.Packet, ASKED)] && w.Waiting? && w.held == REPLIED && Crc.Valid(REPLIED)
  {
    var cfg, c := BusReader(limits, cutoff, 256, 1), Fresh(BusReader(limits, cutoff, 256, 1), at);
    var e, e' := PortRead(ASKED, false, at, at), PortRead(REPLIED, false, at, at);
    FreshIsReady(cfg, at);
    AskedAndReplied(limits);
    OneEvent(cfg, c, e);
    assert !PrefersReply(limits, c.r.lastRtu);
    BusIsPatient(limits, cutoff, 256, 1, false, ASKED, c.r.lastRtu);
    BusSize(limits, cutoff, 256, 1, ASKED, c.r.lastRtu);
    GuessedSizeIff(limits, false, ASKED, false);
    LoneFrameComes(cfg, c, ASKED, [e]);
    var w := Feed(cfg, c, e);
    OneEvent(cfg, w, e');
    ForeignFrameIff(limits, cutoff, 256, 1, w, true, REPLIED, [e']);
    assert [e, e'][1..] == [e'];
    RunStep(cfg, c, w, [e, e']);
  }

  // ----- either direction

  function EitherWayReader(limits: Limits, cutoff: nat -> int, size: nat): Config { RtuReader(EitherWay, limits, cutoff, size) }

  lemma EitherWayIsPatient(limits: Limits, cutoff: nat -> int, size: nat, d: bool, f: Packet, last: Packet)
    requires IsFrame(limits, d, f) && |f| >= SMALLEST_RTU_SIZE && !Hides(limits, d, f)
    ensures Patient(EitherWayReader(limits, cutoff, size), f, last)
    ensures EitherWayReader(limits, cutoff, size).sizeOf(f, last) == |f|
  {
    var cfg := EitherWayReader(limits, cutoff, size);
    EitherWayWhole(limits, d, f);
    forall h | h < f && |h| >= SMALLEST_RTU_SIZE
      ensures |h| < cfg.sizeOf(h, last) <= |f|
    {
      EitherWayPart(limits, d, f, h);
    }
  }

  /** What a frame hides is taken for a packet if the reader has no more than that. */
  lemma HiddenIsPatient(limits: Limits, cutoff: nat -> int, size: nat, d: bool, f: Packet, last: Packet)
    requires IsFrame(limits, d, f) && |f| >= SMALLEST_RTU_SIZE && Hides(limits, d, f)
    ensures var cfg, g := EitherWayReader(limits, cutoff, size), f[..OtherSize(limits, d, f)];
            Patient(cfg, g, last) && cfg.sizeOf(g, last) == |g|
  {
    var cfg, s := EitherWayReader(limits, cutoff, size), OtherSize(limits, d, f);
    PartSizes(limits, d, f, f);
    assert f[..s] < f;
    EitherWayPart(limits, d, f, f[..s]);
    forall h | h < f[..s] && |h| >= SMALLEST_RTU_SIZE
      ensures |h| < cfg.sizeOf(h, last) <= s
    {
      assert h == f[..|h|];
      EitherWayPart(limits, d, f, h);
    }
  }

  /** The two reads that end where the packet hidden in f ends. */
  function InTwo(cfg: Config, f: Packet, s: nat): seq<PortRead>
    requires s < |f|
  {
    [PortRead(f[..s], false, 0, 0), PortRead(f[s..], false, cfg.cutoff(|f| - s), 0)]
  }

  lemma HiddenIsReturned(limits: Limits, cutoff: nat -> int, size: nat, c: Call, d: bool, f: Packet)
    requires IsFrame(limits, d, f) && SMALLEST_RTU_SIZE <= |f| <= size && Hides(limits, d, f)
    requires Ready(EitherWayReader(limits, cutoff, size), c)
    ensures var cfg, s := EitherWayReader(limits, cutoff, size), OtherSize(limits, d, f);
            var events := InTwo(cfg, f, s);
            && Brings(cfg, f, events) && Fits(cfg, c, events)
            && c.r.log + [Segment(ReaderModel.Packet, f[..s])] <= Run(cfg, c, events).r.log
  {
    var cfg, s := EitherWayReader(limits, cutoff, size), OtherSize(limits, d, f);
    var events, g := InTwo(cfg, f, s), f[..s];
    TwoReads(cfg, f, s);
    HiddenIsPatient(limits, cutoff, size, d, f, c.r.lastRtu);
    OneEvent(cfg, c, events[0]);
    LoneFrameComes(cfg, c, g, [events[0]]);
    var w := Feed(cfg, c, events[0]);
    OneEvent(cfg, w, events[1]);
    assert events[1..] == [events[1]];
    RunStep(cfg, c, w, events);
    FeedGrows(cfg, w, events[1]);
  }

  lemma TwoReads(cfg: Config, f: Packet, s: nat)
    requires 0 < s < |f|
    ensures Brings(cfg, f, InTwo(cfg, f, s)) && Brings(cfg, f[..s], [InTwo(cfg, f, s)[0]])
  {
    var events := InTwo(cfg, f, s);
    assert events[1..] == [events[1]] && [events[1]][1..] == [] && [events[0]][1..] == [];
    assert Data([events[1]]) == f[s..] + Data([]) == f[s..];
    assert Data(events) == f[..s] + Data([events[1]]) == f;
    assert Data([events[0]]) == f[..s] + Data([]) == f[..s];
    assert [] + f[..s] == f[..s];
    assert Timely(cfg, f[..s] + f[s..], cfg.cutoff(|f| - s), []);
    assert Timely(cfg, f[..s], 0, [events[1]]);
  }

  /** f is returned, whole and once, in whatever pieces it comes. */
  ghost predicate AlwaysReturned(cfg: Config, c: Call, f: Packet)
    requires Idle(cfg, c)
  {
    forall events {:trigger Brings(cfg, f, events)} ::
      Brings(cfg, f, events) && Fits(cfg, c, events) ==> Run(cfg, c, events).r.log == c.r.log + [Arrived(cfg, f)]
  }

  /**
   A frame of either direction comes to the reader of a failover connection that is between packets. It is returned, whole and
   once, however it is cut up, exactly if it hides no packet of the other direction. If it does, that is returned instead when
   a read ends there.
   */
  lemma EitherWayFrameIff(limits: Limits, cutoff: nat -> int, size: nat, c: Call, d: bool, f: Packet)
    requires IsFrame(limits, d, f) && |f| <= size
    requires Ready(EitherWayReader(limits, cutoff, size), c)
    ensures AlwaysReturned(EitherWayReader(limits, cutoff, size), c, f) <==> !Hides(limits, d, f)
  {
    var cfg := EitherWayReader(limits, cutoff, size);
    SizeAtLeast(limits, f, d);
    if Hides(limits, d, f) {
      HiddenIsReturned(limits, cutoff, size, c, d, f);
      var s := OtherSize(limits, d, f);
      assert Brings(cfg, f, InTwo(cfg, f, s));
      OtherFirst(c.r.log, Run(cfg, c, InTwo(cfg, f, s)).r.log, f[..s], f);
    } else {
      EitherWayIsPatient(limits, cutoff, size, d, f, c.r.lastRtu);
      forall events | Brings(cfg, f, events) && Fits(cfg, c, events)
        ensures Run(cfg, c, events).r.log == c.r.log + [Arrived(cfg, f)]
      {
        LoneFrameComes(cfg, c, f, events);
      }
    }
  }

  datatype Delivery = Delivery(toClient: bool, frame: Packet, events: seq<PortRead>)

  /** A frame that hides nothing, delivered in any pieces. */
  ghost predicate Plain(cfg: Config, limits: Limits, x: Delivery) {
    && IsFrame(limits, x.toClient, x.frame) && !Hides(limits, x.toClient, x.frame) && |x.frame| <= cfg.size
    && Brings(cfg, x.frame, x.events)
  }

  ghost predicate All(plain: Delivery -> bool, xs: seq<Delivery>) { xs == [] || (plain(xs[0]) && All(plain, xs[1..])) }

  function Events(xs: seq<Delivery>): seq<PortRead> { if xs == [] then [] else xs[0].events + Events(xs[1..]) }

  function Arrivals(cfg: Config, xs: seq<Delivery>): seq<Segment> {
    if xs == [] then [] else [Arrived(cfg, xs[0].frame)] + Arrivals(cfg, xs[1..])
  }

  lemma PlainReturned(limits: Limits, cutoff: nat -> int, size: nat, c: Call, x: Delivery)
    requires Ready(EitherWayReader(limits, cutoff, size), c) && Plain(EitherWayReader(limits, cutoff, size), limits, x)
    ensures var cfg := EitherWayReader(limits, cutoff, size);
            && Fits(cfg, c, x.events) && Ready(cfg, Run(cfg, c, x.events))
            && Run(cfg, c, x.events).r.log == c.r.log + [Arrived(cfg, x.frame)]
  {
    SizeAtLeast(limits, x.frame, x.toClient);
    EitherWayIsPatient(limits, cutoff, size, x.toClient, x.frame, c.r.lastRtu);
    LoneFrameComes(EitherWayReader(limits, cutoff, size), c, x.frame, x.events);
  }

  /** A reader between packets, which `ready` says of it, returns a plain frame and is between packets again. */
  ghost predicate Returns(cfg: Config, ready: Call -> bool, plain: Delivery -> bool) {
    forall c: Call, x: Delivery {:trigger ready(c), plain(x)} :: ready(c) && plain(x) ==>
      && Idle(cfg, c) && Fits(cfg, c, x.events) && ready(Run(cfg, c, x.events))
      && Run(cfg, c, x.events).r.log == c.r.log + [Arrived(cfg, x.frame)]
  }

  lemma {:induction false} AllReturned(cfg: Config, ready: Call -> bool, plain: Delivery -> bool, c: Call, xs: seq<Delivery>)
    requires Returns(cfg, ready, plain) && Idle(cfg, c) && ready(c) && All(plain, xs)
    ensures Fits(cfg, c, Events(xs)) && ready(Run(cfg, c, Events(xs)))
    ensures Run(cfg, c, Events(xs)).r.log == c.r.log + Arrivals(cfg, xs)
    decreases |xs|
  {
    if xs != [] {
      var w, more := Run(cfg, c, xs[0].events), Events(xs[1..]);
      AllReturned(cfg, ready, plain, w, xs[1..]);
      RunJoined(cfg, c, xs[0].events, more);
      Regroup(c.r.log, [Arrived(cfg, xs[0].frame)], Arrivals(cfg, xs[1..]));
    }
  }

  /**
   So the reader of a failover connection returns a whole conversation, requests and replies in any order and with any silence
   in between, frame by frame, if no frame hides another.
   */
  lemma TalkReturned(limits: Limits, cutoff: nat -> int, size: nat, c: Call, xs: seq<Delivery>)
    requires Ready(EitherWayReader(limits, cutoff, size), c)
    requires All(x => Plain(EitherWayReader(limits, cutoff, size), limits, x), xs)
    ensures var cfg := EitherWayReader(limits, cutoff, size);
            && Fits(cfg, c, Events(xs)) && Ready(cfg, Run(cfg, c, Events(xs)))
            && Run(cfg, c, Events(xs)).r.log == c.r.log + Arrivals(cfg, xs)
  {
    var cfg := EitherWayReader(limits, cutoff, size);
    var ready, plain := (c: Call) => Ready(cfg, c), (x: Delivery) => Plain(cfg, limits, x);
    forall c: Call, x: Delivery | Ready(cfg, c) && Plain(cfg, limits, x)
      ensures Fits(cfg, c, x.events) && Ready(cfg, Run(cfg, c, x.events))
      ensures Run(cfg, c, x.events).r.log == c.r.log + [Arrived(cfg, x.frame)]
    {
      PlainReturned(limits, cutoff, size, c, x);
    }
    AllReturned(cfg, ready, plain, c, xs);
  }

  lemma {:induction false} RunJoined(cfg: Config, c: Call, a: seq<PortRead>, b: seq<PortRead>)
    requires Idle(cfg, c) && Fits(cfg, c, a) && Fits(cfg, Run(cfg, c, a), b)
    ensures Fits(cfg, c, a + b) && Run(cfg, c, a + b) == Run(cfg, Run(cfg, c, a), b)
    decreases |a|
  {
    if a == [] {
      assert a + b == b;
    } else {
      assert (a + b)[1..] == a[1..] + b;
      RunJoined(cfg, Feed(cfg, c, a[0]), a[1..], b);
    }
  }

  /** A reply of three registers that begins with a whole request. */
  lemma HiddenRequest(limits: Limits) returns (f: Packet)
    ensures IsFrame(limits, true, f) && |f| == 11 && Hides(limits, true, f)
  {
    var g := MakeRtu(1, [3, 6, 0, 0, 1]);
    f := Crc.Sum(g + [0]);
    GetPduOfMakeRtu(1, [3, 6, 0, 0, 1]);
    Crc.SumIsValid([1] + [3, 6, 0, 0, 1]);
    Crc.SumIsValid(g + [0]);
    assert f[..8] == g;
    assert f[0] == g[0] == 1 && f[1] == FastPdu(g)[0] == 3 && f[2] == FastPdu(g)[1] == 6;
  }
}
