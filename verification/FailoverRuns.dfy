/** What a failover node does next to a healthy active node, and next to one that has gone silent. */
module FailoverRuns {
  import opened Modbus
  import opened Rtu
  import opened Failover
  import opened Seqs

  /** A request on the bus and the reply of the active server. */
  datatype Exchange = Exchange(request: Packet, at: int, reply: Packet, replyAt: int)

  predicate Valid(r: Packet) { GetPdu(r).Ok? && r[0] != 0 }

  /** Valid packets of one transaction, the reply within the delay allowed. */
  predicate Prompt(s: Settings, x: Exchange) {
    && Valid(x.request) && Valid(x.reply)
    && IsRequestReply(s.limits, GetPdu(x.request).value, GetPdu(x.reply).value)
    && x.replyAt - x.at <= s.missDelay + s.bytesDelay(|x.reply|)
  }

  predicate AllPrompt(s: Settings, xs: seq<Exchange>) { xs == [] || (Prompt(s, xs[0]) && AllPrompt(s, xs[1..])) }

  /** The packets of the exchanges; with `asked` set, the first request has been read already. */
  function Traffic(xs: seq<Exchange>, asked: bool): seq<Event> {
    if xs == [] then []
    else
      (if asked then [] else [PacketRead(xs[0].request, xs[0].at)])
      + [PacketRead(xs[0].reply, xs[0].replyAt)] + Traffic(xs[1..], false)
  }

  /** The packets among the events. */
  function Packets(events: seq<Event>): seq<Event> {
    if events == [] then []
    else if events[0].PacketRead? then [events[0]] + Packets(events[1..])
    else Packets(events[1..])
  }

  /** Passive, without a miss, and waiting for a request, or for the reply to that of x. */
  predicate Watching(c: Conn, xs: seq<Exchange>, asked: bool) {
    && !c.isActive && c.misses == 0
    && if asked then xs != [] && GetPdu(xs[0].request).Ok? && c.requestTime == Some(xs[0].at) && c.reqPacket == GetPdu(xs[0].request).value
       else c.requestTime.None?
  }

  /** Nothing was sent and nothing activated the connection since `before`. */
  ghost predicate Calm(before: seq<Note>, after: seq<Note>) {
    before <= after && forall i :: |before| <= i < |after| ==> after[i] == Reset || after[i] == Suppressed
  }

  lemma CalmCons(a: seq<Note>, b: seq<Note>, c: seq<Note>)
    requires (b == a || b == a + [Reset] || b == a + [Suppressed]) && Calm(b, c)
    ensures Calm(a, c)
  {}

  lemma RequestSeen(s: Settings, c: Conn, xs: seq<Exchange>)
    requires !s.isClient && s.isFailover && xs != [] && Prompt(s, xs[0]) && Watching(c, xs, false)
    ensures var c' := Step(s, c, PacketRead(xs[0].request, xs[0].at));
            Watching(c', xs, true) && c'.trace == c.trace
  {}

  lemma ReplySeen(s: Settings, c: Conn, xs: seq<Exchange>)
    requires !s.isClient && s.isFailover && xs != [] && Prompt(s, xs[0]) && Watching(c, xs, true)
    ensures var c' := Step(s, c, PacketRead(xs[0].reply, xs[0].replyAt));
            Watching(c', xs[1..], false) && c'.trace == c.trace + [Reset]
  {}

  lemma TrafficHead(xs: seq<Exchange>, asked: bool)
    requires xs != []
    ensures Traffic(xs, asked)[0] == if asked then PacketRead(xs[0].reply, xs[0].replyAt) else PacketRead(xs[0].request, xs[0].at)
    ensures Traffic(xs, asked)[1..] == if asked then Traffic(xs[1..], false) else Traffic(xs, true)
  {
    var rest := Traffic(xs[1..], false);
    var reply := [PacketRead(xs[0].reply, xs[0].replyAt)];
    assert Traffic(xs, true) == [] + reply + rest == reply + rest;
    if !asked {
      var request := [PacketRead(xs[0].request, xs[0].at)];
      assert Traffic(xs, false) == request + reply + rest;
      Regroup(request, reply, rest);
    }
  }

  /** The next packet of the traffic, and what is watched for after it. */
  lemma TrafficSeen(s: Settings, c: Conn, xs: seq<Exchange>, asked: bool, e: Event) returns (rest: seq<Exchange>, asked': bool)
    requires !s.isClient && s.isFailover && Watching(c, xs, asked) && AllPrompt(s, xs)
    requires Traffic(xs, asked) != [] && e == Traffic(xs, asked)[0]
    ensures e.PacketRead? && AllPrompt(s, rest) && Traffic(rest, asked') == Traffic(xs, asked)[1..]
    ensures var c' := Step(s, c, e);
            Watching(c', rest, asked') && (c'.trace == c.trace || c'.trace == c.trace + [Reset])
  {
    TrafficHead(xs, asked);
    if asked {
      ReplySeen(s, c, xs);
      rest, asked' := xs[1..], false;
    } else {
      RequestSeen(s, c, xs);
      rest, asked' := xs, true;
    }
  }

  lemma OtherSeen(s: Settings, c: Conn, xs: seq<Exchange>, asked: bool, e: Event)
    requires !s.isClient && s.isFailover && Watching(c, xs, asked) && !e.PacketRead? && Enabled(s, c, e)
    ensures var c' := Step(s, c, e);
            Watching(c', xs, asked) && (c'.trace == c.trace || c'.trace == c.trace + [Suppressed])
  {}

  /**
   Next to a server that answers every request in time, a passive failover server never counts a miss, never sends and
   never becomes active, whatever is written to it meanwhile.
   */
  lemma {:induction false} HealthyServerIsLeftAlone(s: Settings, c: Conn, events: seq<Event>, xs: seq<Exchange>, asked: bool)
    requires !s.isClient && s.isFailover && Watching(c, xs, asked) && AllPrompt(s, xs)
    requires AllEnabled(s, c, events) && Packets(events) == Traffic(xs, asked)
    ensures var c' := Run(s, c, events);
            !c'.isActive && c'.misses == 0 && c'.requestTime.None? && Calm(c.trace, c'.trace)
    decreases |events|
  {
    if events != [] {
      var e := events[0];
      var c1 := Step(s, c, e);
      var rest, asked' := xs, asked;
      if e.PacketRead? {
        rest, asked' := TrafficSeen(s, c, xs, asked, e);
      } else {
        OtherSeen(s, c, xs, asked, e);
      }
      HealthyServerIsLeftAlone(s, c1, events[1..], rest, asked');
      CalmCons(c.trace, c1.trace, Run(s, c1, events[1..]).trace);
    }
  }

  // ----- a server that has gone silent

  datatype Request = Request(packet: Packet, at: int)

  /** Valid requests that stay without a reply: each comes too late to be one to the request before it. */
  predicate Unanswered(s: Settings, before: Option<int>, rs: seq<Request>)
    decreases |rs|
  {
    rs == [] ||
    (&& Valid(rs[0].packet)
     && (before.Some? ==> rs[0].at - before.value > s.missDelay + s.bytesDelay(|rs[0].packet|))
     && Unanswered(s, Some(rs[0].at), rs[1..]))
  }

  function Requests(rs: seq<Request>): seq<Event> {
    if rs == [] then [] else [PacketRead(rs[0].packet, rs[0].at)] + Requests(rs[1..])
  }

  /** After k requests, the last at the time given. */
  predicate Waited(s: Settings, c: Conn, k: nat, last: Option<int>) {
    && c.misses == (if k == 0 then 0 else k - 1) && c.isActive == (c.misses > s.missesMax)
    && (k == 0 ==> last.None?) && (!c.isActive ==> c.requestTime == last)
  }

  lemma MissSeen(s: Settings, c: Conn, k: nat, last: Option<int>, r: Request)
    requires !s.isClient && s.isFailover && Waited(s, c, k, last) && k < s.missesMax + 2 && (last.None? ==> k == 0)
    requires Unanswered(s, last, [r])
    ensures Waited(s, Step(s, c, PacketRead(r.packet, r.at)), k + 1, Some(r.at))
  {}

  lemma WaitingOn(s: Settings, c: Conn, k: nat, last: Option<int>, e: Event)
    requires !s.isClient && s.isFailover && Waited(s, c, k, last) && !e.PacketRead? && Enabled(s, c, e)
    ensures Waited(s, Step(s, c, e), k, last)
  {}

  /** Nothing was sent since `before`, and nothing happened but misses and suppressed writes. */
  ghost predicate Quiet(before: seq<Note>, after: seq<Note>) {
    before <= after && forall i :: |before| <= i < |after| ==> after[i] == Miss || after[i] == Suppressed
  }

  lemma QuietStep(s: Settings, c: Conn, e: Event, after: seq<Note>)
    requires !s.isClient && s.isFailover && !c.isActive && Enabled(s, c, e) && !Step(s, c, e).isActive
    requires e.PacketRead? ==> Valid(e.rtu) && (c.requestTime.Some? ==> e.at - c.requestTime.value > s.missDelay + s.bytesDelay(|e.rtu|))
    requires Quiet(Step(s, c, e).trace, after)
    ensures Quiet(c.trace, after)
  {
    var t := Step(s, c, e).trace;
    assert t == c.trace || t == c.trace + [Miss] || t == c.trace + [Suppressed];
  }

  /**
   Next to a server that answers nothing, a failover server counts every request after the first as a miss, and becomes
   active with request MissesMax + 2, not earlier, whatever is written to it meanwhile. Until then it sends nothing.
   */
  lemma {:induction false} SilentServerIsReplaced(
      s: Settings, c: Conn, events: seq<Event>, k: nat, last: Option<int>, rs: seq<Request>)
    requires !s.isClient && s.isFailover && Waited(s, c, k, last) && (last.None? ==> k == 0)
    requires Unanswered(s, last, rs) && k + |rs| <= s.missesMax + 2
    requires AllEnabled(s, c, events) && Packets(events) == Requests(rs)
    ensures var c', n := Run(s, c, events), k + |rs|;
            && c'.misses == (if n == 0 then 0 else n - 1) && (c'.isActive <==> n == s.missesMax + 2)
            && (n < s.missesMax + 2 ==> Quiet(c.trace, c'.trace))
    decreases |events|
  {
    if events != [] {
      var e := events[0];
      if e.PacketRead? {
        assert Packets(events)[1..] == Packets(events[1..]) && Requests(rs)[1..] == Requests(rs[1..]);
        assert e == Requests(rs)[0] == PacketRead(rs[0].packet, rs[0].at);
        MissSeen(s, c, k, last, rs[0]);
        SilentServerIsReplaced(s, Step(s, c, e), events[1..], k + 1, Some(rs[0].at), rs[1..]);
      } else {
        WaitingOn(s, c, k, last, e);
        SilentServerIsReplaced(s, Step(s, c, e), events[1..], k, last, rs);
      }
      if k + |rs| < s.missesMax + 2 { QuietStep(s, c, e, Run(s, c, events).trace); }
    }
  }

  // ----- a server that serves

  /** A request read, and the reply that the handler writes to it. */
  datatype Served = Served(request: Request, reply: Packet, writtenAt: int)

  predicate Proper(x: Served) { Valid(x.request.packet) && |x.reply| >= 3 }

  predicate AllProper(xs: seq<Served>) { xs == [] || (Proper(xs[0]) && AllProper(xs[1..])) }

  /** What happens at any server for x. */
  function ReadAndWritten(x: Served): seq<Event> {
    [PacketRead(x.request.packet, x.request.at), ReadDone(x.request.at), WriteCalled(x.reply, x.writtenAt)]
  }

  /** At a failover server the reply goes out after a delay, here before the next packet. */
  function Serves(x: Served): seq<Event> { ReadAndWritten(x) + [DelayOver(x.reply)] }

  function Serving(xs: seq<Served>): seq<Event> { if xs == [] then [] else Serves(xs[0]) + Serving(xs[1..]) }

  function ReplyNotes(xs: seq<Served>): seq<Note> { if xs == [] then [] else [Sent(xs[0].reply)] + ReplyNotes(xs[1..]) }

  lemma ThreeSteps(s: Settings, c: Conn, a: Event, b: Event, d: Event)
    requires Enabled(s, c, a) && Enabled(s, Step(s, c, a), b) && Enabled(s, Step(s, Step(s, c, a), b), d)
    ensures AllEnabled(s, c, [a, b, d]) && Run(s, c, [a, b, d]) == Step(s, Step(s, Step(s, c, a), b), d)
  {
    var c1, c2 := Step(s, c, a), Step(s, Step(s, c, a), b);
    assert [a, b, d][1..] == [b, d] && [b, d][1..] == [d] && [d][1..] == [];
    RunOne(s, c2, [d]);
    RunOne(s, c1, [b, d]);
    RunOne(s, c, [a, b, d]);
  }

  /** If the request leaves it active, the reply is sent. */
  lemma ReplyGoesOut(s: Settings, c: Conn, x: Served)
    requires !s.isClient && s.isFailover && |x.reply| >= 3
    requires Step(s, c, PacketRead(x.request.packet, x.request.at)).isActive
    ensures AllEnabled(s, c, Serves(x))
    ensures var c', c1 := Run(s, c, Serves(x)), Step(s, c, PacketRead(x.request.packet, x.request.at));
            c'.isActive && c'.requestTime.None? && c'.trace == c1.trace + [Sent(x.reply)]
  {
    ThreeSteps(s, c, PacketRead(x.request.packet, x.request.at), ReadDone(x.request.at), WriteCalled(x.reply, x.writtenAt));
    var c3 := Run(s, c, ReadAndWritten(x));
    assert [DelayOver(x.reply)][1..] == [];
    RunOne(s, c3, [DelayOver(x.reply)]);
    RunAppend(s, c, ReadAndWritten(x), [DelayOver(x.reply)]);
  }

  /** An active failover server that hears only requests stays active and sends every reply, in order. */
  lemma {:induction false} ActiveServerKeepsServing(s: Settings, c: Conn, xs: seq<Served>)
    requires !s.isClient && s.isFailover && c.isActive && c.requestTime.None? && AllProper(xs)
    ensures AllEnabled(s, c, Serving(xs))
    ensures var c' := Run(s, c, Serving(xs));
            c'.isActive && c'.requestTime.None? && c'.trace == c.trace + ReplyNotes(xs)
    decreases |xs|
  {
    if xs != [] {
      ReplyGoesOut(s, c, xs[0]);
      var c1 := Run(s, c, Serves(xs[0]));
      ActiveServerKeepsServing(s, c1, xs[1..]);
      RunAppend(s, c, Serves(xs[0]), Serving(xs[1..]));
      Regroup(c.trace, [Sent(xs[0].reply)], ReplyNotes(xs[1..]));
    }
  }

  /**
   So next to a server that has gone silent: a failover server sends nothing during MissesMax + 1 requests, whatever is written
   to it meanwhile, becomes active with the next one, and from that one on sends the reply to every request, in order.
   */
  lemma SilentServerIsTakenOver(
      s: Settings, c: Conn, before: seq<Event>, rs: seq<Request>, x: Served, xs: seq<Served>)
    requires !s.isClient && s.isFailover && Waited(s, c, 0, None) && Unanswered(s, None, rs) && |rs| == s.missesMax + 1
    requires AllEnabled(s, c, before) && Packets(before) == Requests(rs)
    requires Unanswered(s, Some(rs[|rs| - 1].at), [x.request]) && AllProper([x] + xs)
    ensures AllEnabled(s, c, before + Serving([x] + xs))
    ensures var c1, c' := Run(s, c, before), Run(s, c, before + Serving([x] + xs));
            && !c1.isActive && Quiet(c.trace, c1.trace)
            && c'.isActive && c'.trace == c1.trace + [Miss] + [Activated(false)] + ReplyNotes([x] + xs)
  {
    var c1 := Run(s, c, before);
    SilentServerIsReplaced(s, c, before, 0, None, rs);
    LastRequestAt(s, c, before, 0, None, rs);
    var c2 := Step(s, c1, PacketRead(x.request.packet, x.request.at));
    assert c2.isActive && c2.trace == c1.trace + [Miss] + [Activated(false)];
    assert ([x] + xs)[1..] == xs;
    ReplyGoesOut(s, c1, x);
    var c3 := Run(s, c1, Serves(x));
    ActiveServerKeepsServing(s, c3, xs);
    RunAppend(s, c1, Serves(x), Serving(xs));
    assert Serving([x] + xs) == Serves(x) + Serving(xs);
    RunAppend(s, c, before, Serving([x] + xs));
    Regroup(c2.trace, [Sent(x.reply)], ReplyNotes(xs));
  }

  /** While passive it remembers when the last request came. */
  lemma {:induction false} LastRequestAt(s: Settings, c: Conn, events: seq<Event>, k: nat, last: Option<int>, rs: seq<Request>)
    requires !s.isClient && s.isFailover && Waited(s, c, k, last) && (last.None? ==> k == 0)
    requires Unanswered(s, last, rs) && k + |rs| < s.missesMax + 2
    requires AllEnabled(s, c, events) && Packets(events) == Requests(rs)
    ensures Run(s, c, events).requestTime == if rs == [] then last else Some(rs[|rs| - 1].at)
    decreases |events|
  {
    if events != [] {
      var e := events[0];
      if e.PacketRead? {
        assert Packets(events)[1..] == Packets(events[1..]) && Requests(rs)[1..] == Requests(rs[1..]);
        assert e == Requests(rs)[0] == PacketRead(rs[0].packet, rs[0].at);
        MissSeen(s, c, k, last, rs[0]);
        LastRequestAt(s, Step(s, c, e), events[1..], k + 1, Some(rs[0].at), rs[1..]);
      } else {
        WaitingOn(s, c, k, last, e);
        LastRequestAt(s, Step(s, c, e), events[1..], k, last, rs);
      }
    }
  }

  // ----- two active servers

  function PrimaryServing(xs: seq<Served>): seq<Event> {
    if xs == [] then [] else ReadAndWritten(xs[0]) + PrimaryServing(xs[1..])
  }

  /** No request comes later than PrimaryDisconnectDelay after the one before. */
  predicate Steady(s: Settings, last: int, xs: seq<Served>)
    decreases |xs|
  {
    xs == [] || (xs[0].request.at <= last + s.primaryDisconnectDelay && |xs[0].reply| >= 3 && Steady(s, xs[0].request.at, xs[1..]))
  }

  lemma {:induction false} PrimaryKeepsServing(s: Settings, c: Conn, last: int, xs: seq<Served>)
    requires !s.isClient && !s.isFailover && c.isActive && c.lastRead == Some(last) && Steady(s, last, xs)
    ensures AllEnabled(s, c, PrimaryServing(xs))
    ensures var c' := Run(s, c, PrimaryServing(xs));
            c'.isActive && c'.trace == c.trace + ReplyNotes(xs)
    decreases |xs|
  {
    if xs != [] {
      var x := xs[0];
      ThreeSteps(s, c, PacketRead(x.request.packet, x.request.at), ReadDone(x.request.at), WriteCalled(x.reply, x.writtenAt));
      var c1 := Run(s, c, ReadAndWritten(x));
      assert c1.isActive && c1.lastRead == Some(x.request.at) && c1.trace == c.trace + [Sent(x.reply)];
      PrimaryKeepsServing(s, c1, x.request.at, xs[1..]);
      RunAppend(s, c, ReadAndWritten(x), PrimaryServing(xs[1..]));
      Regroup(c.trace, [Sent(x.reply)], ReplyNotes(xs[1..]));
    }
  }

  function RequestsOf(xs: seq<Served>): seq<Request> { if xs == [] then [] else [xs[0].request] + RequestsOf(xs[1..]) }

  lemma {:induction false} RequestsArePackets(rs: seq<Request>)
    ensures Packets(Requests(rs)) == Requests(rs) && |Requests(rs)| == |rs|
    decreases |rs|
  {
    if rs != [] {
      RequestsArePackets(rs[1..]);
      assert Requests(rs)[1..] == Requests(rs[1..]);
    }
  }

  lemma {:induction false} PacketsEnabled(s: Settings, c: Conn, rs: seq<Request>)
    ensures AllEnabled(s, c, Requests(rs))
    decreases |rs|
  {
    if rs != [] {
      assert Requests(rs)[1..] == Requests(rs[1..]);
      PacketsEnabled(s, Step(s, c, Requests(rs)[0]), rs[1..]);
    }
  }

  /**
   Two nodes may be active at once: a primary server that serves MissesMax + 2 requests, and a failover server that reads the
   same requests but none of the replies.
   */
  lemma BothActive(primary: Settings, p: Conn, last: int, failover: Settings, c: Conn, xs: seq<Served>)
    requires !primary.isClient && !primary.isFailover && p.isActive && p.lastRead == Some(last) && Steady(primary, last, xs)
    requires !failover.isClient && failover.isFailover && Waited(failover, c, 0, None)
    requires Unanswered(failover, None, RequestsOf(xs)) && |RequestsOf(xs)| == failover.missesMax + 2
    ensures AllEnabled(primary, p, PrimaryServing(xs)) && AllEnabled(failover, c, Requests(RequestsOf(xs)))
    ensures Run(primary, p, PrimaryServing(xs)).isActive && Run(failover, c, Requests(RequestsOf(xs))).isActive
    ensures Run(primary, p, PrimaryServing(xs)).trace == p.trace + ReplyNotes(xs)
  {
    var rs := RequestsOf(xs);
    PrimaryKeepsServing(primary, p, last, xs);
    RequestsArePackets(rs);
    PacketsEnabled(failover, c, rs);
    SilentServerIsReplaced(failover, c, Requests(rs), 0, None, rs);
  }

  // ----- a client next to a silent one

  /** Writes of a client, each at its own time. */
  function Writes(ws: seq<Request>): seq<Event> {
    if ws == [] then [] else [WriteCalled(ws[0].packet, ws[0].at)] + Writes(ws[1..])
  }

  predicate AllFrames(ws: seq<Request>) { ws == [] || (|ws[0].packet| >= 3 && AllFrames(ws[1..])) }

  function SentNotes(ws: seq<Request>): seq<Note> {
    if ws == [] then [] else [Sent(ws[0].packet)] + SentNotes(ws[1..])
  }

  /** The history of writes by a passive client that may still miss `left` times. */
  function QuietNotes(ws: seq<Request>, left: nat): seq<Note> {
    if ws == [] then []
    else if left > 0 then [Miss, Suppressed] + QuietNotes(ws[1..], left - 1)
    else [Activated(false)] + SentNotes(ws)
  }

  lemma WriteCons(s: Settings, c: Conn, ws: seq<Request>)
    requires ws != [] && |ws[0].packet| >= 3
    ensures AllEnabled(s, c, Writes(ws)) == AllEnabled(s, Step(s, c, WriteCalled(ws[0].packet, ws[0].at)), Writes(ws[1..]))
    ensures AllEnabled(s, c, Writes(ws)) ==>
              Run(s, c, Writes(ws)) == Run(s, Step(s, c, WriteCalled(ws[0].packet, ws[0].at)), Writes(ws[1..]))
  {
    assert Writes(ws)[0] == WriteCalled(ws[0].packet, ws[0].at) && Writes(ws)[1..] == Writes(ws[1..]);
  }

  lemma WriteStep(s: Settings, c: Conn, frame: Packet, at: int)
    requires s.isClient && s.isFailover && |frame| >= 3
    ensures var c' := Step(s, c, WriteCalled(frame, at));
            if c.isActive then c'.isActive && c'.trace == c.trace + [Sent(frame)]
            else if c.misses >= s.missesMax then c'.isActive && c'.trace == c.trace + [Activated(false)] + [Sent(frame)]
            else !c'.isActive && c'.misses == c.misses + 1 && c'.trace == c.trace + [Miss] + [Suppressed]
  {}

  lemma ThreeParts(a: seq<Note>, b: seq<Note>, c: seq<Note>, d: seq<Note>)
    ensures a + b + c + d == a + (b + (c + d))
  {}

  /**
   A passive failover client that reads nothing suppresses exactly the writes it may still miss, then becomes active with
   the next one, and sends that and every one after it, in order.
   */
  lemma {:induction false} SilentClientIsReplaced(s: Settings, c: Conn, ws: seq<Request>)
    requires s.isClient && s.isFailover && !c.isActive && c.misses <= s.missesMax && AllFrames(ws)
    ensures AllEnabled(s, c, Writes(ws))
    ensures var c', left := Run(s, c, Writes(ws)), s.missesMax - c.misses;
            c'.trace == c.trace + QuietNotes(ws, left) && (c'.isActive <==> |ws| > left)
    decreases |ws|
  {
    if ws != [] {
      var frame := ws[0].packet;
      var c1, left := Step(s, c, WriteCalled(frame, ws[0].at)), s.missesMax - c.misses;
      WriteCons(s, c, ws);
      WriteStep(s, c, frame, ws[0].at);
      if left == 0 {
        ActiveKeepsSending(s, c1, ws[1..]);
        ThreeParts(c.trace, [Activated(false)], [Sent(frame)], SentNotes(ws[1..]));
      } else {
        SilentClientIsReplaced(s, c1, ws[1..]);
        ThreeParts(c.trace, [Miss], [Suppressed], QuietNotes(ws[1..], left - 1));
        assert [Miss] + ([Suppressed] + QuietNotes(ws[1..], left - 1)) == QuietNotes(ws, left);
      }
    }
  }

  /** An active failover client sends every write, in order. */
  lemma {:induction false} ActiveKeepsSending(s: Settings, c: Conn, ws: seq<Request>)
    requires s.isClient && s.isFailover && c.isActive && AllFrames(ws)
    ensures AllEnabled(s, c, Writes(ws))
    ensures Run(s, c, Writes(ws)).isActive && Run(s, c, Writes(ws)).trace == c.trace + SentNotes(ws)
    decreases |ws|
  {
    if ws != [] {
      WriteCons(s, c, ws);
      WriteStep(s, c, ws[0].packet, ws[0].at);
      ActiveKeepsSending(s, Step(s, c, WriteCalled(ws[0].packet, ws[0].at)), ws[1..]);
      Regroup(c.trace, [Sent(ws[0].packet)], SentNotes(ws[1..]));
    }
  }

  // ----- the other node comes back

  /**
   An active failover server that hears a packet between a request and its own reply goes passive, and the reply it had
   under way is not sent.
   */
  lemma ReturningServerWins(s: Settings, c: Conn, frame: Packet, other: Packet, at: int)
    requires !s.isClient && s.isFailover && c.isActive && c.requestTime.Some? && Valid(other) && frame in c.sleeping
    ensures AllEnabled(s, c, [PacketRead(other, at), DelayOver(frame)])
    ensures var c' := Run(s, c, [PacketRead(other, at), DelayOver(frame)]);
            && !c'.isActive && c'.misses == 0 && c'.requestTime.None?
            && c'.trace == c.trace + [Deactivated, Reset, Suppressed]
  {
    var c1 := Step(s, c, PacketRead(other, at));
    var rest := [DelayOver(frame)];
    assert [PacketRead(other, at), DelayOver(frame)][1..] == rest && rest[1..] == [];
    assert c1.trace == c.trace + [Deactivated] + [Reset];
    var c2 := Step(s, c1, DelayOver(frame));
    assert AllEnabled(s, c2, []) && Run(s, c2, []) == c2;
    assert AllEnabled(s, c1, rest) && Run(s, c1, rest) == c2;
  }

  /** An active failover client stays active exactly if the packet it reads next is the reply to what it sent, in time. */
  lemma ReturningClientWins(s: Settings, c: Conn, frame: Packet, at: int, r: Packet, readAt: int)
    requires s.isClient && s.isFailover && c.isActive && |frame| >= 3 && GetPdu(r).Ok?
    ensures AllEnabled(s, c, [WriteCalled(frame, at), PacketRead(r, readAt)])
    ensures Run(s, c, [WriteCalled(frame, at), PacketRead(r, readAt)]).isActive <==>
            readAt - at < s.missDelay + s.bytesDelay(|r|) && IsRequestReply(s.limits, FastPdu(frame), GetPdu(r).value)
  {
    var c1 := Step(s, c, WriteCalled(frame, at));
    var rest := [PacketRead(r, readAt)];
    assert [WriteCalled(frame, at), PacketRead(r, readAt)][1..] == rest && rest[1..] == [];
    var c2 := Step(s, c1, PacketRead(r, readAt));
    assert AllEnabled(s, c2, []) && Run(s, c2, []) == c2;
    assert AllEnabled(s, c1, rest) && Run(s, c1, rest) == c2;
  }
}
