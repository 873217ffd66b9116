/** What a passive failover client hears: exactly what the active client reads, as long as it stays passive. */
module MirrorRuns {
  import opened Bytes
  import opened Modbus
  import opened Seqs
  import opened Rtu
  import opened Transactions
  import opened Mirror
  import opened Serial
  import Failover
  import RtuClient
  import Network

  // ----- staying passive

  /** Idle, next to a passive connection. */
  predicate Passive(s: State) { s.phase.Idle? && !s.conn.isActive }

  predicate StaysPassive(settings: Failover.Settings, s: State, events: seq<Event>)
    decreases |events|
  {
    Passive(s) && (events == [] || StaysPassive(settings, Step(settings, s, events[0]), events[1..]))
  }

  predicate Writes(e: Event) { e.Start? && RtuClient.MakeFrame(e.slaveId, e.request, e.fetched).Ok? }

  /** At most MissesMax writes come between two packets, `misses` of them already; all packets are valid, and no read fails. */
  predicate Sparse(settings: Failover.Settings, misses: nat, events: seq<Event>)
    decreases |events|
  {
    if events == [] then true
    else
      var e, rest := events[0], events[1..];
      if e.Heard? then GetPdu(e.packet).Ok? && Sparse(settings, 0, rest)
      else if Writes(e) then misses < settings.missesMax && Sparse(settings, misses + 1, rest)
      else !e.ReadFailed? && Sparse(settings, misses, rest)
  }

  ghost predicate IsFailoverClient(settings: Failover.Settings) { settings.isClient && settings.isFailover }

  lemma HeardStep(settings: Failover.Settings, s: State, e: Event)
    requires IsFailoverClient(settings) && Passive(s) && e.Heard?
    ensures var s' := Step(settings, s, e);
            if GetPdu(e.packet).Ok? then Passive(s') && s'.conn.misses == 0 && s'.answers == s.answers else s'.phase.Stopped?
  {}

  lemma WriteStep(settings: Failover.Settings, s: State, e: Event)
    requires IsFailoverClient(settings) && Passive(s) && s.conn.misses <= settings.missesMax && e.Start?
    ensures var s' := Step(settings, s, e);
            && s'.last == s.last && s'.handed == s.handed
            && if !Writes(e) then s' == s.Reply(e.channel, Err(RtuClient.MakeFrame(e.slaveId, e.request, e.fetched).error))
               else if s.conn.misses < settings.missesMax
               then Passive(s') && s'.conn.misses == s.conn.misses + 1 && s'.answers == s.answers + [Answer(e.channel, Ok(()))]
               else s'.conn.isActive
  {}

  /**
   A failover client stays passive throughout a run exactly if never more than MissesMax of its writes fall between two
   packets, no packet is bad and no read fails: each suppressed write counts a miss, each packet clears them.
   */
  lemma {:induction false} StaysPassiveIff(settings: Failover.Settings, s: State, events: seq<Event>)
    requires IsFailoverClient(settings) && Passive(s) && s.conn.misses <= settings.missesMax
    ensures StaysPassive(settings, s, events) <==> Sparse(settings, s.conn.misses, events)
    decreases |events|
  {
    if events != [] {
      var e := events[0];
      var s' := Step(settings, s, e);
      if e.Heard? {
        HeardStep(settings, s, e);
      } else if e.Start? {
        WriteStep(settings, s, e);
      }
      if Passive(s') && s'.conn.misses <= settings.missesMax { StaysPassiveIff(settings, s', events[1..]); }
    }
  }

  // ----- what it hears

  /** The part of the client that listens. */
  datatype Ear = Ear(last: Pdu, handed: seq<(Pdu, seq<Byte>)>)

  function Hear(limits: Limits, ear: Ear, p: Pdu): Ear {
    if !IsRequestReply(limits, ear.last, p) then ear.(last := p)
    else if IsWriteToServer(FunctionCode(p)) || ReplyValues(p).Err? then ear.(last := [])
    else Ear([], ear.handed + [(ear.last, ReplyValues(p).value)])
  }

  function HearAll(limits: Limits, ear: Ear, ps: seq<Pdu>): Ear
    decreases |ps|
  {
    if ps == [] then ear else HearAll(limits, Hear(limits, ear, ps[0]), ps[1..])
  }

  /** The packets read in a run. */
  function Overheard(events: seq<Event>): seq<Pdu> {
    if events == [] then []
    else if events[0].Heard? && GetPdu(events[0].packet).Ok? then [GetPdu(events[0].packet).value] + Overheard(events[1..])
    else Overheard(events[1..])
  }

  function EarOf(s: State): Ear { Ear(s.last, s.handed) }

  lemma StepHears(settings: Failover.Settings, s: State, e: Event)
    requires IsFailoverClient(settings) && Passive(s) && e.Heard? && GetPdu(e.packet).Ok?
    ensures EarOf(Step(settings, s, e)) == Hear(settings.limits, EarOf(s), GetPdu(e.packet).value)
  {}

  /** While it stays passive, its own transactions, started at any time, change nothing about what is mirrored. */
  lemma {:induction false} OnlyPacketsAreHeard(settings: Failover.Settings, s: State, events: seq<Event>)
    requires IsFailoverClient(settings) && s.conn.misses <= settings.missesMax && StaysPassive(settings, s, events)
    ensures EarOf(Run(settings, s, events)) == HearAll(settings.limits, EarOf(s), Overheard(events))
    decreases |events|
  {
    if events != [] {
      var e := events[0];
      var s' := Step(settings, s, e);
      if e.Heard? {
        HeardStep(settings, s, e);
        StepHears(settings, s, e);
        HearCons(settings.limits, EarOf(s), GetPdu(e.packet).value, Overheard(events[1..]));
      } else if e.Start? {
        WriteStep(settings, s, e);
      }
      OnlyPacketsAreHeard(settings, s', events[1..]);
    }
  }

  lemma HearCons(limits: Limits, ear: Ear, p: Pdu, ps: seq<Pdu>)
    ensures HearAll(limits, ear, [p] + ps) == HearAll(limits, Hear(limits, ear, p), ps)
  {
    assert ([p] + ps)[1..] == ps;
  }

  /** The answers to its own transactions: one each, an error only if its handler has no data. */
  function OwnAnswers(events: seq<Event>): seq<Answer> {
    if events == [] then []
    else if events[0].Start? then
      var frame := RtuClient.MakeFrame(events[0].slaveId, events[0].request, events[0].fetched);
      [Answer(events[0].channel, if frame.Ok? then Ok(()) else Err(frame.error))] + OwnAnswers(events[1..])
    else OwnAnswers(events[1..])
  }

  /** A suppressed transaction succeeds, once, in order. */
  lemma {:induction false} EveryStartAnswered(settings: Failover.Settings, s: State, events: seq<Event>)
    requires IsFailoverClient(settings) && s.conn.misses <= settings.missesMax && StaysPassive(settings, s, events)
    ensures Passive(Run(settings, s, events)) && Run(settings, s, events).answers == s.answers + OwnAnswers(events)
    decreases |events|
  {
    if events != [] {
      var e := events[0];
      var s' := Step(settings, s, e);
      if e.Heard? {
        HeardStep(settings, s, e);
      } else if e.Start? {
        WriteStep(settings, s, e);
        Regroup(s.answers, OwnAnswers([e]), OwnAnswers(events[1..]));
        assert OwnAnswers(events) == OwnAnswers([e]) + OwnAnswers(events[1..]);
      }
      EveryStartAnswered(settings, s', events[1..]);
    }
  }

  // ----- one exchange of the active client

  /** A request and its reply, or the exception it got. */
  datatype Exchange = Exchange(request: Pdu, reply: Pdu)

  predicate InRange(p: Pdu) {
    IsReadToServer(FunctionCode(p)) ==> RequestCount(p).Ok? && 1 <= RequestCount(p).value <= MaxPerPacket(FunctionCode(p))
  }

  predicate Normal(limits: Limits, x: Exchange) { InRange(x.request) && IsRequestReply(limits, x.request, x.reply) }

  predicate Excepted(x: Exchange) {
    x.request != [] && x.reply != [] && !IsError(FunctionCode(x.request)) && IsError(FunctionCode(x.reply))
  }

  /** What the active client's handler is given for it, as BothHandlersGetTheSame shows. */
  function ReadOf(limits: Limits, x: Exchange): seq<(Pdu, seq<Byte>)> {
    if Normal(limits, x) && IsReadToServer(FunctionCode(x.request)) then [(x.request, x.reply[2..])] else []
  }

  function HearBoth(limits: Limits, ear: Ear, x: Exchange): Ear { Hear(limits, Hear(limits, ear, x.request), x.reply) }

  /** A reply to a read in range carries values. */
  lemma ReadAnswer(limits: Limits, p: Pdu, q: Pdu)
    requires InRange(p) && IsReadToServer(FunctionCode(p)) && IsRequestReply(limits, p, q)
    ensures ReplyValues(q) == Ok(q[2..]) && FunctionCode(q) == FunctionCode(p) && !IsWriteToServer(FunctionCode(q))
  {
    assert IsReadRequest(p, FunctionCode(p), RequestCount(p).value);
    AcceptedLength(limits, p, FunctionCode(p), RequestCount(p).value, q);
  }

  /** Nothing overheard next can be taken for a reply to what was overheard last. */
  predicate Harmless(last: Pdu) { last == [] || IsError(FunctionCode(last)) }

  lemma HarmlessMeans(limits: Limits, last: Pdu, p: Pdu)
    requires Harmless(last)
    ensures !IsRequestReply(limits, last, p)
  {}

  lemma ExchangeHeard(limits: Limits, ear: Ear, x: Exchange)
    requires Normal(limits, x) && !IsRequestReply(limits, ear.last, x.request)
    ensures HearBoth(limits, ear, x) == Ear([], ear.handed + ReadOf(limits, x))
  {
    if IsReadToServer(FunctionCode(x.request)) { ReadAnswer(limits, x.request, x.reply); }
  }

  /**
   A request that passes for a reply to what was heard last is taken for one: if it is a read, the handler gets the old
   request with bytes of the new one as its data. The real data is lost, and the reply is taken for the next request.
   */
  lemma ExchangeMistaken(limits: Limits, ear: Ear, x: Exchange)
    requires Normal(limits, x) && IsRequestReply(limits, ear.last, x.request)
    ensures HearBoth(limits, ear, x) ==
            Ear(x.reply, ear.handed + if IsReadToServer(FunctionCode(x.request)) then [(ear.last, x.request[2..])] else [])
  {
    RequestAsReply(limits, x.request);
    HarmlessMeans(limits, [], x.reply);
  }

  /** The values of a request that has the size of a reply. */
  lemma RequestAsReply(limits: Limits, p: Pdu)
    requires PduSize(limits, p, true) == |p| && PduSize(limits, p, false) == |p| && FunctionCode(p) in {1, 2, 3, 4, 5, 6, 15, 16}
    ensures IsReadToServer(FunctionCode(p)) ==> !IsWriteToServer(FunctionCode(p)) && ReplyValues(p) == Ok(p[2..])
    ensures !IsReadToServer(FunctionCode(p)) ==> IsWriteToServer(FunctionCode(p))
  {}

  /** So an exchange is mirrored exactly if its request does not pass for a reply to what was heard last. */
  lemma ExchangeMirroredIff(limits: Limits, ear: Ear, x: Exchange)
    requires Normal(limits, x)
    ensures HearBoth(limits, ear, x) == Ear([], ear.handed + ReadOf(limits, x)) <==> !IsRequestReply(limits, ear.last, x.request)
  {
    if IsRequestReply(limits, ear.last, x.request) {
      ExchangeMistaken(limits, ear, x);
    } else {
      ExchangeHeard(limits, ear, x);
    }
  }

  /** A request for 17 coils whose reply is lost, then a request for the coil at 0x300. */
  lemma MistakenPdus(limits: Limits)
    ensures var x := Exchange([1, 3, 0, 0, 1], [1, 1, 1]);
            && Normal(limits, x)
            && HearAll(limits, Ear([], []), [[1, 0, 0, 0, 17], x.request, x.reply]) ==
                 Ear([1, 1, 1], [([1, 0, 0, 0, 17], [0, 0, 1])])
  {
    var first, x: Exchange := [1, 0, 0, 0, 17], Exchange([1, 3, 0, 0, 1], [1, 1, 1]);
    HarmlessMeans(limits, [], first);
    var ear := Hear(limits, Ear([], []), first);
    assert ear == Ear(first, []);
    assert IsRequestReply(limits, first, x.request);
    ExchangeMistaken(limits, ear, x);
    assert x.request[2..] == [0, 0, 1];
    HearCons(limits, Ear([], []), first, [x.request, x.reply]);
    HearCons(limits, ear, x.request, [x.reply]);
    HearCons(limits, Hear(limits, ear, x.request), x.reply, []);
    assert [first] + [x.request, x.reply] == [first, x.request, x.reply] && [x.request] + [x.reply] == [x.request, x.reply];
    assert [x.reply] + [] == [x.reply];
  }

  /** The packets of slave 1 that hold these PDUs. */
  function HeardAll(ps: seq<Pdu>, at: int): seq<Event> {
    if ps == [] then [] else [Heard(MakeRtu(1, ps[0]), Ok(()), at)] + HeardAll(ps[1..], at)
  }

  lemma {:induction false} HeardAllIs(settings: Failover.Settings, ps: seq<Pdu>, at: int, misses: nat)
    requires forall p :: p in ps ==> |p| >= 2
    ensures Overheard(HeardAll(ps, at)) == ps && Sparse(settings, misses, HeardAll(ps, at))
    decreases |ps|
  {
    if ps != [] {
      GetPduOfMakeRtu(1, ps[0]);
      assert HeardAll(ps, at)[1..] == HeardAll(ps[1..], at);
      HeardAllIs(settings, ps[1..], at, 0);
    }
  }

  /**
   A run of a new failover client that hears these packets: its handler is given two bytes of the address and one of the
   quantity as the values of 17 coils, and never the coil that was read.
   */
  lemma MistakenCoil(settings: Failover.Settings, stats: Drops, at: int)
    requires IsFailoverClient(settings)
    ensures var s := State(Failover.NewConn(at), RtuClient.Idle, [], stats, [], []);
            var s' := Run(settings, s, HeardAll([[1, 0, 0, 0, 17], [1, 3, 0, 0, 1], [1, 1, 1]], at));
            Passive(s') && s'.handed == [([1, 0, 0, 0, 17], [0, 0, 1])] && s'.last == [1, 1, 1]
  {
    var s := State(Failover.NewConn(at), RtuClient.Idle, [], stats, [], []);
    var ps: seq<Pdu> := [[1, 0, 0, 0, 17], [1, 3, 0, 0, 1], [1, 1, 1]];
    HeardAllIs(settings, ps, at, 0);
    StaysPassiveIff(settings, s, HeardAll(ps, at));
    EveryStartAnswered(settings, s, HeardAll(ps, at));
    OnlyPacketsAreHeard(settings, s, HeardAll(ps, at));
    MistakenPdus(settings.limits);
  }

  lemma ExchangeRefused(limits: Limits, ear: Ear, x: Exchange)
    requires Excepted(x) && Harmless(ear.last)
    ensures HearBoth(limits, ear, x) == Ear(x.reply, ear.handed)
  {
    HarmlessMeans(limits, ear.last, x.request);
  }

  // ----- whole runs

  predicate Exchanges(limits: Limits, xs: seq<Exchange>) {
    xs == [] || ((Normal(limits, xs[0]) || Excepted(xs[0])) && Exchanges(limits, xs[1..]))
  }

  function Pdus(xs: seq<Exchange>): seq<Pdu> { if xs == [] then [] else [xs[0].request, xs[0].reply] + Pdus(xs[1..]) }

  function Reads(limits: Limits, xs: seq<Exchange>): seq<(Pdu, seq<Byte>)> {
    if xs == [] then [] else ReadOf(limits, xs[0]) + Reads(limits, xs[1..])
  }

  /** The last exchange is answered normally. */
  predicate Answered(limits: Limits, xs: seq<Exchange>) {
    xs != [] && if |xs| == 1 then Normal(limits, xs[0]) else Answered(limits, xs[1..])
  }

  lemma ExchangeStep(limits: Limits, ear: Ear, x: Exchange)
    requires Harmless(ear.last) && (Normal(limits, x) || Excepted(x))
    ensures var ear' := HearBoth(limits, ear, x);
            && Harmless(ear'.last) && ear'.handed == ear.handed + ReadOf(limits, x)
            && (Normal(limits, x) ==> ear'.last == [])
  {
    if Normal(limits, x) {
      HarmlessMeans(limits, ear.last, x.request);
      ExchangeHeard(limits, ear, x);
    } else {
      ExchangeRefused(limits, ear, x);
      ErrorIsNotNormal(limits, x);
    }
  }

  lemma ErrorIsNotNormal(limits: Limits, x: Exchange)
    requires Excepted(x)
    ensures !Normal(limits, x)
  {}

  lemma HearExchange(limits: Limits, ear: Ear, x: Exchange, xs: seq<Exchange>)
    ensures HearAll(limits, ear, Pdus([x] + xs)) == HearAll(limits, HearBoth(limits, ear, x), Pdus(xs))
  {
    assert ([x] + xs)[1..] == xs;
    HearCons(limits, ear, x.request, [x.reply] + Pdus(xs));
    HearCons(limits, Hear(limits, ear, x.request), x.reply, Pdus(xs));
    assert [x.request] + ([x.reply] + Pdus(xs)) == [x.request, x.reply] + Pdus(xs);
  }

  lemma {:induction false} ExchangesHeard(limits: Limits, ear: Ear, xs: seq<Exchange>)
    requires Harmless(ear.last) && Exchanges(limits, xs)
    ensures HearAll(limits, ear, Pdus(xs)).handed == ear.handed + Reads(limits, xs)
    ensures Answered(limits, xs) ==> HearAll(limits, ear, Pdus(xs)).last == []
    decreases |xs|
  {
    if xs != [] {
      ExchangeStep(limits, ear, xs[0]);
      HearExchange(limits, ear, xs[0], xs[1..]);
      assert xs == [xs[0]] + xs[1..];
      ExchangesHeard(limits, HearBoth(limits, ear, xs[0]), xs[1..]);
      Regroup(ear.handed, ReadOf(limits, xs[0]), Reads(limits, xs[1..]));
    }
  }

  /**
   A passive failover client with no more than MissesMax writes of its own between two packets stays passive, and its
   handler gets exactly what the active client's handler gets from the reads it overhears: one call for each, in order, with
   the same request and data; none for writes or refused requests. Nothing is left pending after an answered exchange, and
   each transaction of its own is answered once.
   */
  lemma ReadsAreMirrored(settings: Failover.Settings, s: State, events: seq<Event>, xs: seq<Exchange>)
    requires IsFailoverClient(settings) && Passive(s) && s.conn.misses <= settings.missesMax
    requires Sparse(settings, s.conn.misses, events)
    requires Harmless(s.last) && Exchanges(settings.limits, xs) && Overheard(events) == Pdus(xs)
    ensures var s' := Run(settings, s, events);
            && Passive(s') && s'.answers == s.answers + OwnAnswers(events)
            && s'.handed == s.handed + Reads(settings.limits, xs)
            && (Answered(settings.limits, xs) ==> s'.last == [])
  {
    StaysPassiveIff(settings, s, events);
    EveryStartAnswered(settings, s, events);
    OnlyPacketsAreHeard(settings, s, events);
    ExchangesHeard(settings.limits, EarOf(s), xs);
  }

  // ----- the same exchanges at the active client

  /** An exchange, and the two actions of the client that brings it about. */
  datatype Turn = Turn(x: Exchange, start: RtuClient.Event, reply: RtuClient.Event)

  /** It starts a transaction whose frame holds the request, and reads the packet that holds the reply. */
  predicate Carries(id: Byte, t: Turn) {
    && t.start.Start? && t.start.slaveId == id != 0 && t.start.sent.Ok? && t.reply.PacketRead?
    && FunctionCode(t.start.request) == FunctionCode(t.x.request)
    && RtuClient.MakeFrame(id, t.start.request, t.start.fetched) == Ok(MakeRtu(id, t.x.request))
    && t.reply.packet == MakeRtu(id, t.x.reply)
  }

  predicate AllCarry(limits: Limits, id: Byte, ts: seq<Turn>) {
    ts == [] || (Carries(id, ts[0]) && (Normal(limits, ts[0].x) || Excepted(ts[0].x)) && AllCarry(limits, id, ts[1..]))
  }

  function Actions(ts: seq<Turn>): seq<RtuClient.Event> { if ts == [] then [] else [ts[0].start, ts[0].reply] + Actions(ts[1..]) }

  function ExchangesOf(ts: seq<Turn>): seq<Exchange> { if ts == [] then [] else [ts[0].x] + ExchangesOf(ts[1..]) }

  /** What the active client's handler is called with when the reply of x comes. */
  function CallFor(limits: Limits, id: Byte, x: Exchange): seq<RtuClient.Note> {
    if Normal(limits, x) && IsReadToServer(FunctionCode(x.request))
      then [RtuClient.Delivered(id, x.request, x.reply[2..])] else []
  }

  lemma NormalJudged(limits: Limits, act: RtuClient.Pending, x: Exchange, taken: Result<()>)
    requires Normal(limits, x) && FastPdu(act.frame) == x.request && act.code == FunctionCode(x.request)
    ensures |x.reply| >= 2
    ensures RtuClient.CallOf(RtuClient.Judge(limits, act, x.reply, taken)) == CallFor(limits, act.frame[0], x)
  {
    if IsReadToServer(FunctionCode(x.request)) { ReadAnswer(limits, x.request, x.reply); }
  }

  lemma ExceptedJudged(limits: Limits, act: RtuClient.Pending, x: Exchange, taken: Result<()>)
    requires Excepted(x) && |x.reply| >= 2 && FastPdu(act.frame) == x.request && act.code == FunctionCode(x.request)
    ensures Network.CallsIn(RtuClient.CallOf(RtuClient.Judge(limits, act, x.reply, taken))) == []
  {
    var calls := RtuClient.CallOf(RtuClient.Judge(limits, act, x.reply, taken));
    assert forall c :: c in calls ==> !c.Delivered?;
    NoCalls(calls);
  }

  lemma {:induction false} NoCalls(log: seq<RtuClient.Note>)
    requires forall note :: note in log ==> !note.Delivered?
    ensures Network.CallsIn(log) == []
    decreases |log|
  {
    if log != [] { NoCalls(log[1..]); }
  }

  /** The reply comes while its transaction is pending. */
  lemma ReplyComes(limits: Limits, s: RtuClient.State, act: RtuClient.Pending, t: Turn)
    requires Carries(act.frame[0], t) && (Normal(limits, t.x) || Excepted(t.x))
    requires s.phase == RtuClient.Waiting(act) && FastPdu(act.frame) == t.x.request && act.code == FunctionCode(t.x.request)
    ensures var s' := RtuClient.Step(limits, s, t.reply);
            s'.phase.Idle? && Network.CallsIn(s'.log) == Network.CallsIn(s.log) + ReadOf(limits, t.x)
  {
    var reply := t.x.reply;
    GetPduOfMakeRtu(act.frame[0], reply);
    if |reply| >= 2 {
      var v := RtuClient.Judge(limits, act, reply, t.reply.taken);
      var answer := [RtuClient.Answered(act.channel, v.result)];
      RtuClient.ConcludeLog(s, act, v);
      Network.CallsInAppend(s.log + RtuClient.CallOf(v), answer);
      Network.CallsInAppend(s.log, RtuClient.CallOf(v));
      NoCalls(answer);
      if Normal(limits, t.x) {
        NormalJudged(limits, act, t.x, t.reply.taken);
        OneCall(limits, act.frame[0], t.x);
      } else {
        ExceptedJudged(limits, act, t.x, t.reply.taken);
      }
    } else {
      var answer := [RtuClient.Answered(act.channel, Err(Other))];
      Network.CallsInAppend(s.log, answer);
      NoCalls(answer);
      ErrorIsNotNormal(limits, t.x);
    }
  }

  lemma OneCall(limits: Limits, id: Byte, x: Exchange)
    ensures Network.CallsIn(CallFor(limits, id, x)) == ReadOf(limits, x)
  {
    var calls := CallFor(limits, id, x);
    if calls != [] { assert calls[1..] == []; }
  }

  lemma TurnReads(limits: Limits, id: Byte, s: RtuClient.State, t: Turn)
    requires s.phase.Idle? && Carries(id, t) && (Normal(limits, t.x) || Excepted(t.x))
    ensures var s' := RtuClient.Step(limits, RtuClient.Step(limits, s, t.start), t.reply);
            s'.phase.Idle? && Network.CallsIn(s'.log) == Network.CallsIn(s.log) + ReadOf(limits, t.x)
  {
    GetPduOfMakeRtu(id, t.x.request);
    var s1 := RtuClient.Step(limits, s, t.start);
    var wrote := [RtuClient.Wrote(MakeRtu(id, t.x.request))];
    assert s1.log == s.log + wrote && s1.phase.Waiting?;
    Network.CallsInAppend(s.log, wrote);
    NoCalls(wrote);
    ReplyComes(limits, s1, s1.phase.act, t);
  }

  /** The handler of the active client gets exactly the reads among the exchanges. */
  lemma {:induction false} ActiveClientReads(limits: Limits, id: Byte, s: RtuClient.State, ts: seq<Turn>)
    requires s.phase.Idle? && AllCarry(limits, id, ts)
    ensures var s' := RtuClient.Run(limits, s, Actions(ts));
            s'.phase.Idle? && Network.CallsIn(s'.log) == Network.CallsIn(s.log) + Reads(limits, ExchangesOf(ts))
    decreases |ts|
  {
    if ts != [] {
      var s1 := RtuClient.Step(limits, s, ts[0].start);
      var s2 := RtuClient.Step(limits, s1, ts[0].reply);
      TurnReads(limits, id, s, ts[0]);
      TwoSteps(limits, s, ts[0].start, ts[0].reply, Actions(ts[1..]));
      ActiveClientReads(limits, id, s2, ts[1..]);
      Regroup(Network.CallsIn(s.log), ReadOf(limits, ts[0].x), Reads(limits, ExchangesOf(ts[1..])));
      assert ExchangesOf(ts)[1..] == ExchangesOf(ts[1..]);
    }
  }

  lemma TwoSteps(limits: Limits, s: RtuClient.State, e: RtuClient.Event, e': RtuClient.Event, more: seq<RtuClient.Event>)
    ensures RtuClient.Run(limits, s, [e, e'] + more) ==
            RtuClient.Run(limits, RtuClient.Step(limits, RtuClient.Step(limits, s, e), e'), more)
  {
    assert ([e, e'] + more)[1..] == [e'] + more && ([e'] + more)[1..] == more;
  }

  lemma {:induction false} CarriedAreExchanges(limits: Limits, id: Byte, ts: seq<Turn>)
    requires AllCarry(limits, id, ts)
    ensures Exchanges(limits, ExchangesOf(ts))
    decreases |ts|
  {
    if ts != [] {
      CarriedAreExchanges(limits, id, ts[1..]);
      assert ExchangesOf(ts)[1..] == ExchangesOf(ts[1..]);
    }
  }

  /**
   The two clients side by side: the active one carries out any exchanges with a slave, the passive one hears their packets,
   with sparse transactions of its own in between. Both handlers get the same calls of OnWrite, with the same requests and
   data, in the same order.
   */
  lemma BothHandlersGetTheSame(settings: Failover.Settings, s: State, events: seq<Event>, id: Byte, ts: seq<Turn>)
    requires IsFailoverClient(settings) && Passive(s) && s.conn.misses <= settings.missesMax && s.handed == []
    requires Sparse(settings, s.conn.misses, events)
    requires Harmless(s.last) && AllCarry(settings.limits, id, ts) && Overheard(events) == Pdus(ExchangesOf(ts))
    ensures Run(settings, s, events).handed ==
            Network.CallsIn(RtuClient.Run(settings.limits, RtuClient.START, Actions(ts)).log)
  {
    CarriedAreExchanges(settings.limits, id, ts);
    ReadsAreMirrored(settings, s, events, ExchangesOf(ts));
    ActiveClientReads(settings.limits, id, RtuClient.START, ts);
  }

  // ----- when a read request is mistaken

  /** The sizes of a five-byte read request, read as a request and as a reply. */
  lemma ReadRequestSizes(limits: Limits, p: Pdu)
    requires |p| == 5 && 1 <= FunctionCode(p) <= 4
    ensures PduSize(limits, p, false) == 5 && (PduSize(limits, p, true) == 5 <==> p[1] == 3)
  {}

  lemma ReadRequestIsFive(limits: Limits, last: Pdu)
    requires 1 <= FunctionCode(last) <= 4 && PduSize(limits, last, false) == |last|
    ensures |last| == 5 && RequestCount(last) == Ok(Join(last[3], last[4]))
  {}

  /** Registers come in two bytes each, which never makes three. */
  lemma ThreeBytes(count: Word)
    ensures (count * 2 % 0x1_0000) % 256 != 3
  {}

  /**
   When a read request is taken for a reply to an earlier one, whatever was overheard before: only for coils and inputs,
   with an address from 0x300 to 0x3FF, after a request for three bytes of them. A request for registers never is.
   */
  lemma ReadRequestMistaken(limits: Limits, last: Pdu, p: Pdu)
    requires |p| == 5 && 1 <= FunctionCode(p) <= 4
    ensures IsRequestReply(limits, last, p) <==>
            && FunctionCode(p) <= 2 && FunctionCode(last) == FunctionCode(p) && |last| == 5
            && p[1] == 3 && ((Join(last[3], last[4]) + 7) % 0x1_0000 / 8) % 256 == 3
  {
    ReadRequestSizes(limits, p);
    if FunctionCode(last) == FunctionCode(p) {
      if PduSize(limits, last, false) == |last| {
        ReadRequestIsFive(limits, last);
        ThreeBytes(Join(last[3], last[4]));
      } else if |last| == 5 {
        ReadRequestSizes(limits, last);
      }
    }
  }
}
