/**
 The client's transaction loop (rtu_client.go), over the actions that reach it. What the handler and the wire do with an
 action is part of the action.
 */
module RtuClient {
  import opened Bytes
  import opened Modbus
  import opened Rtu
  import opened Serial
  import Crc

  /** The channel a transaction is answered on. */
  type Channel = nat

  datatype Action =
    // StartTransactionToServer; what OnRead returns and whether the write succeeds
    | Start(channel: Channel, slaveId: Byte, request: Pdu, fetched: Result<seq<Byte>>, sent: Result<()>)
    // a packet was read; what OnWrite returns for it
    | PacketRead(packet: Packet, taken: Result<()>)
    | ReadFailed(error: Failure)
    | TimeOut

  type Event = e: Action | e.PacketRead? ==> e.packet != [] witness TimeOut

  type Frame = r: Packet | |r| >= 3 witness [0, 0, 0]

  /** A transaction waiting for its reply: where to answer, the frame sent, the function code asked for. */
  datatype Pending = Pending(channel: Channel, frame: Frame, code: Byte)

  datatype Phase = Idle | Waiting(act: Pending) | Stopped(error: Failure)

  /** What the loop does to the world: frames written, OnWrite and OnError called, transactions answered. */
  datatype Note =
    | Wrote(frame: Frame)
    | Delivered(slaveId: Byte, request: Pdu, values: seq<Byte>)
    | Refused(request: Pdu, reply: Pdu)
    | Answered(channel: Channel, result: Result<()>)

  datatype State = State(phase: Phase, stats: Drops, log: seq<Note>) {
    function Add(note: Note): State { this.(log := log + [note]) }

    /** Answers the pending transaction and goes back to idle. */
    function Done(act: Pending, result: Result<()>): State { Add(Answered(act.channel, result)).(phase := Idle) }

    function Error(): State { this.(stats := stats.Error()) }
  }

  const START := State(Idle, NO_DROPS, [])

  // ----- idle

  /** How many bytes of a request that writes are its header. */
  function HeaderLength(f: Byte): nat { if IsSingle(f) then 3 else if f in {15, 16} then 6 else 0 }

  /** Behind a packet its array is cleared; the smallest array has room for eight bytes. */
  const SPARE: seq<Byte> := [0, 0, 0, 0]

  /** What lies behind a request in the array of its packet. */
  function Tail(slaveId: Byte, request: Pdu): (t: seq<Byte>)
    ensures |t| == 6
  {
    var c := Crc.Run(Crc.INITIAL, [slaveId] + request);
    [Crc.LowByte(c), Crc.HighByte(c)] + SPARE
  }

  /**
   The request as the slicing in MakeWriteRequest finds it. It lies in the array of its packet, so that a header that is too
   short is continued by the checksum of the packet and what is behind it.
   */
  function Resliced(slaveId: Byte, request: Pdu): (p: Pdu)
    ensures FunctionCode(p) == FunctionCode(request) && |p| >= HeaderLength(FunctionCode(request))
    ensures |request| >= HeaderLength(FunctionCode(request)) ==> p == request
  {
    var n := HeaderLength(FunctionCode(request));
    if |request| >= n then request
    else
      request + Tail(slaveId, request)[..n - |request|]
  }

  /** The frame for a request; one that writes is completed with the data of the handler. */
  function MakeFrame(slaveId: Byte, request: Pdu, fetched: Result<seq<Byte>>): Result<Frame> {
    if IsWriteToServer(FunctionCode(request)) then
      var data :- fetched;
      Wrap(slaveId, MakeWriteRequest(Resliced(slaveId, request), data))
    else Wrap(slaveId, request)
  }

  /**
   A header of code 15 or 16 without its byte count does not fail: the low byte of its own checksum is sent as the byte
   count.
   */
  lemma ChecksumAsByteCount(slaveId: Byte, request: Pdu, data: seq<Byte>)
    requires |request| == 5 && FunctionCode(request) in {15, 16}
    ensures var count := Crc.LowByte(Crc.Run(Crc.INITIAL, [slaveId] + request));
            MakeFrame(slaveId, request, Ok(data)) == Ok(MakeRtu(slaveId, request + [count] + data))
  {
    var r := MakeRtu(slaveId, request);
    GetPduOfMakeRtu(slaveId, request);
    assert |[slaveId] + request| == 6 && r[6] == Crc.LowByte(Crc.Run(Crc.INITIAL, [slaveId] + request));
    assert r[1..6] == request;
    assert Resliced(slaveId, request) == (r + SPARE)[1..7] == request + [r[6]];
    assert (request + [r[6]])[..6] == request + [r[6]];
  }

  /** So a server takes it exactly if that byte happens to be the number of bytes, or, with oversize support, regardless. */
  lemma ChecksumTakenIff(oversize: bool, request: Pdu, count: Byte, data: seq<Byte>)
    requires |request| == 5 && FunctionCode(request) in {15, 16}
    ensures var n := Join(request[3], request[4]);
            RequestValues(oversize, request + [count] + data).Ok? <==>
              && data != [] && (|data| == count || oversize) && n + Address(request) <= MAX_RANGE
              && |data| == if IsUint16(FunctionCode(request)) then n * 2 else (n + 7) / 8
  {
    var p := request + [count] + data;
    assert p[5] == count && |p| - 6 == |data| && Address(p) == Address(request) && RequestCount(p) == RequestCount(request);
  }

  function Wrap(slaveId: Byte, p: Pdu): (r: Result<Frame>)
    ensures r.Ok? && r.value[0] == slaveId && FastPdu(r.value) == p
  {
    GetPduOfMakeRtu(slaveId, p);
    Ok(MakeRtu(slaveId, p))
  }

  function Begin(s: State, e: Event): State
    requires e.Start?
  {
    var frame := MakeFrame(e.slaveId, e.request, e.fetched);
    if frame.Err? then s.Add(Answered(e.channel, Err(frame.error)))
    else if e.sent.Err? then s.Add(Answered(e.channel, e.sent)).(phase := Stopped(e.sent.error))
    else if e.slaveId == 0 then s.Add(Wrote(frame.value)).Add(Answered(e.channel, Ok(())))
    else s.Add(Wrote(frame.value)).(phase := Waiting(Pending(e.channel, frame.value, FunctionCode(e.request))))
  }

  // ----- waiting

  /** What becomes of a transaction: the answer, whether an error is counted, and the call of the handler, if any. */
  datatype Verdict = Verdict(result: Result<()>, counted: bool, call: Option<Note>)

  /** A valid packet from the slave asked. */
  function Judge(limits: Limits, act: Pending, reply: Pdu, taken: Result<()>): (v: Verdict)
    requires |reply| >= 2
    ensures v.call.Some? ==> !v.call.value.Answered?
  {
    var request, f := FastPdu(act.frame), FunctionCode(reply);
    if IsError(f) && WithoutError(f) == act.code then Verdict(Err(Exception(reply[1])), true, Some(Refused(request, reply)))
    else if !IsRequestReply(limits, request, reply) then Verdict(Err(Other), true, None)
    else if IsReadToServer(act.code) then
      var values := ReplyValues(reply);
      if values.Err? then Verdict(Err(values.error), true, None)
      else Verdict(taken, taken.Err?, Some(Delivered(act.frame[0], request, values.value)))
    else Verdict(Ok(()), false, None)
  }

  function Conclude(s: State, act: Pending, v: Verdict): State {
    var s1 := if v.counted then s.Error() else s;
    (if v.call.Some? then s1.Add(v.call.value) else s1).Done(act, v.result)
  }

  function React(limits: Limits, s: State, act: Pending, r: Packet, taken: Result<()>): State
    requires r != []
  {
    if r[0] != act.frame[0] then s.(stats := s.stats.Id())
    else
      var p := GetPdu(r);
      if p.Err? then
        s.(stats := if p.error == CrcError then s.stats.Crc() else s.stats.Error()).Done(act, Err(p.error))
      else Conclude(s, act, Judge(limits, act, p.value, taken))
  }

  // ----- runs

  /** A time-out is that of the pending transaction; there is no timer while idle. */
  function Step(limits: Limits, s: State, e: Event): State {
    match s.phase
    case Idle =>
      if e.Start? then Begin(s, e)
      else if e.PacketRead? then s.(stats := s.stats.Drop())
      else if e.ReadFailed? then s.(phase := Stopped(e.error))
      else s
    case Waiting(act) =>
      if e.PacketRead? then React(limits, s, act, e.packet, e.taken)
      else if e.TimeOut? then s.Done(act, Err(Other))
      else if e.ReadFailed? then s.(phase := Stopped(e.error))
      else s.Done(act, Err(Other)).(phase := Stopped(Other))
    case Stopped(_) => s
  }

  function Run(limits: Limits, s: State, events: seq<Event>): State
    decreases |events|
  {
    if events == [] then s else Run(limits, Step(limits, s, events[0]), events[1..])
  }

  lemma {:induction false} RunSnoc(limits: Limits, s: State, events: seq<Event>, e: Event)
    ensures Run(limits, s, events + [e]) == Step(limits, Run(limits, s, events), e)
    decreases |events|
  {
    if events == [] {
      assert (events + [e])[1..] == [];
    } else {
      assert (events + [e])[1..] == events[1..] + [e];
      RunSnoc(limits, Step(limits, s, events[0]), events[1..], e);
    }
  }

  lemma RunLast(limits: Limits, s: State, events: seq<Event>)
    requires events != []
    ensures Run(limits, s, events) == Step(limits, Run(limits, s, events[..|events| - 1]), events[|events| - 1])
  {
    assert events == events[..|events| - 1] + [events[|events| - 1]];
    RunSnoc(limits, s, events[..|events| - 1], events[|events| - 1]);
  }

  // ----- each transaction is answered once

  /** The channels of the transactions started, in order. */
  function Starts(events: seq<Event>): seq<Channel> {
    if events == [] then []
    else Starts(events[..|events| - 1]) + if events[|events| - 1].Start? then [events[|events| - 1].channel] else []
  }

  /** The channels answered, in order. */
  function Answers(log: seq<Note>): seq<Channel> {
    if log == [] then []
    else Answers(log[..|log| - 1]) + if log[|log| - 1].Answered? then [log[|log| - 1].channel] else []
  }

  lemma AnswersAdd(log: seq<Note>, note: Note)
    ensures Answers(log + [note]) == Answers(log) + if note.Answered? then [note.channel] else []
  {
    assert (log + [note])[..|log|] == log;
  }

  lemma BeginAnswers(s: State, e: Event)
    requires e.Start? && s.phase.Idle?
    ensures var s' := Begin(s, e);
            if s'.phase.Waiting? then Answers(s'.log) == Answers(s.log) && s'.phase.act.channel == e.channel
            else Answers(s'.log) == Answers(s.log) + [e.channel]
  {
    var s' := Begin(s, e);
    var frame := MakeFrame(e.slaveId, e.request, e.fetched);
    if frame.Ok? && e.sent.Ok? {
      AnswersAdd(s.log, Wrote(frame.value));
      AnswersAdd(s.log + [Wrote(frame.value)], Answered(e.channel, Ok(())));
    } else {
      AnswersAdd(s.log, s'.log[|s.log|]);
    }
  }

  lemma DoneAnswers(s: State, act: Pending, result: Result<()>)
    ensures Answers(s.Done(act, result).log) == Answers(s.log) + [act.channel]
  {
    AnswersAdd(s.log, Answered(act.channel, result));
  }

  lemma ConcludeAnswers(s: State, act: Pending, v: Verdict)
    requires v.call.Some? ==> !v.call.value.Answered?
    ensures var s' := Conclude(s, act, v);
            s'.phase.Idle? && Answers(s'.log) == Answers(s.log) + [act.channel]
  {
    if v.call.Some? {
      AnswersAdd(s.log, v.call.value);
      AnswersAdd(s.log + [v.call.value], Answered(act.channel, v.result));
    } else {
      AnswersAdd(s.log, Answered(act.channel, v.result));
    }
  }

  /** What one action adds to the answers: those for the transaction under way before or after it. */
  lemma StepAnswers(limits: Limits, s: State, e: Event)
    ensures var s' := Step(limits, s, e);
            match s.phase
            case Idle => Settled(s.log, s', if e.Start? then [e.channel] else [])
            case Waiting(act) =>
              if e.ReadFailed? then s'.phase.Stopped? && Answers(s'.log) == Answers(s.log)
              else if e.Start? then s'.phase.Stopped? && Answers(s'.log) == Answers(s.log) + [act.channel]
              else !s'.phase.Stopped? && Settled(s.log, s', [act.channel])
            case Stopped(_) => s' == s
  {
    if s.phase.Idle? && e.Start? {
      BeginAnswers(s, e);
    } else if s.phase.Waiting? && !e.ReadFailed? {
      var act := s.phase.act;
      if e.PacketRead? {
        ReactAnswers(limits, s, act, e.packet, e.taken);
      } else {
        DoneAnswers(s, act, Err(Other));
      }
    }
  }

  lemma ReactAnswers(limits: Limits, s: State, act: Pending, r: Packet, taken: Result<()>)
    requires r != [] && s.phase == Waiting(act)
    ensures var s' := React(limits, s, act, r, taken);
            !s'.phase.Stopped? && Settled(s.log, s', [act.channel])
  {
    if r[0] == act.frame[0] {
      var p := GetPdu(r);
      if p.Ok? { ConcludeAnswers(s, act, Judge(limits, act, p.value, taken)); } else { DoneAnswers(s, act, Err(p.error)); }
    }
  }

  /** The transactions `begun` are answered now, or the one begun is under way. */
  predicate Settled(before: seq<Note>, s: State, begun: seq<Channel>) {
    if s.phase.Waiting? then Answers(s.log) == Answers(before) && begun == [s.phase.act.channel]
    else Answers(s.log) == Answers(before) + begun
  }

  /**
   On every sequence of actions: whenever the loop is idle, each transaction started has been answered exactly once, in the
   order they were started; while it waits, exactly the last one has not; and after it ended, what was answered is still
   the beginning of what was started, nothing twice.
   */
  lemma {:induction false} AnsweredInOrder(limits: Limits, events: seq<Event>)
    ensures var s := Run(limits, START, events);
            && (s.phase.Idle? ==> Answers(s.log) == Starts(events))
            && (s.phase.Waiting? ==> Answers(s.log) + [s.phase.act.channel] == Starts(events))
            && (s.phase.Stopped? ==> Answers(s.log) <= Starts(events))
    decreases |events|
  {
    if events != [] {
      var before, e := events[..|events| - 1], events[|events| - 1];
      AnsweredInOrder(limits, before);
      RunLast(limits, START, events);
      StepAnswers(limits, Run(limits, START, before), e);
    }
  }

  /**
   When the loop ends: every transaction started has been answered exactly if it was idle. Otherwise one has not and never
   will be: the pending one after a read error, the new one if it was started while another was pending.
   */
  lemma EndsUnanswered(limits: Limits, events: seq<Event>, e: Event)
    requires !Run(limits, START, events).phase.Stopped? && Run(limits, START, events + [e]).phase.Stopped?
    ensures var s, s' := Run(limits, START, events), Run(limits, START, events + [e]);
            && (Answers(s'.log) == Starts(events + [e]) <==> s.phase.Idle?)
            && (s.phase.Waiting? ==> Starts(events + [e]) == Answers(s'.log) + [if e.Start? then e.channel else s.phase.act.channel])
  {
    AnsweredInOrder(limits, events);
    RunSnoc(limits, START, events, e);
    StepAnswers(limits, Run(limits, START, events), e);
    assert (events + [e])[..|events|] == events;
  }

  /** A read error while a transaction is pending ends the loop, and the transaction is never answered. */
  lemma {:induction false} ReadFailureLeavesUnanswered(limits: Limits, s: State, error: Failure, after: seq<Event>)
    requires s.phase.Waiting?
    ensures Run(limits, s, [ReadFailed(error)] + after) == s.(phase := Stopped(error))
    ensures Run(limits, s, [ReadFailed(error)] + after).log == s.log
  {
    assert ([ReadFailed(error)] + after)[1..] == after;
    StoppedStays(limits, s.(phase := Stopped(error)), after);
  }

  lemma {:induction false} StoppedStays(limits: Limits, s: State, events: seq<Event>)
    requires s.phase.Stopped?
    ensures Run(limits, s, events) == s
    decreases |events|
  {
    if events != [] { StoppedStays(limits, s, events[1..]); }
  }

  // ----- a transaction answered without error

  /** The action that started the transaction act. */
  ghost predicate Began(e: Event, act: Pending) {
    && e.Start? && e.channel == act.channel && act.code == FunctionCode(e.request)
    && MakeFrame(e.slaveId, e.request, e.fetched) == Ok(act.frame) && act.frame[0] == e.slaveId && e.sent.Ok?
  }

  /** A packet that does not concern the transaction act. */
  predicate Foreign(e: Event, act: Pending) { e.PacketRead? && e.packet[0] != act.frame[0] }

  ghost predicate EndsWith<T>(s: seq<T>, end: seq<T>) { |end| <= |s| && s[|s| - |end|..] == end }

  lemma StillWaiting(limits: Limits, s: State, e: Event)
    requires Step(limits, s, e).phase.Waiting?
    ensures var s' := Step(limits, s, e);
            && (s.phase.Idle? ==> Began(e, s'.phase.act) && e.slaveId != 0 && EndsWith(s'.log, [Wrote(s'.phase.act.frame)]))
            && (!s.phase.Idle? ==> s'.phase == s.phase && Foreign(e, s.phase.act) && s'.log == s.log)
  {}

  lemma WaitingLast(limits: Limits, events: seq<Event>)
    requires Run(limits, START, events).phase.Waiting?
    ensures events != []
    ensures var n := |events| - 1;
            var s, s', e := Run(limits, START, events[..n]), Run(limits, START, events), events[n];
            && (s.phase.Idle? ==> Began(e, s'.phase.act) && e.slaveId != 0 && EndsWith(s'.log, [Wrote(s'.phase.act.frame)]))
            && (!s.phase.Idle? ==> s'.phase == s.phase && Foreign(e, s.phase.act) && s'.log == s.log)
  {
    RunLast(limits, START, events);
    StillWaiting(limits, Run(limits, START, events[..|events| - 1]), events[|events| - 1]);
  }

  /** The j-th action started the transaction act, and only packets of other slaves came after it. */
  ghost predicate Since(events: seq<Event>, act: Pending, j: nat) {
    && j < |events| && Began(events[j], act) && events[j].slaveId != 0
    && forall m :: j < m < |events| ==> Foreign(events[m], act)
  }

  lemma SinceThen(events: seq<Event>, act: Pending, j: nat)
    requires events != [] && Since(events[..|events| - 1], act, j) && Foreign(events[|events| - 1], act)
    ensures Since(events, act, j)
  {
    forall m | j < m < |events|
      ensures Foreign(events[m], act)
    {
      if m < |events| - 1 { assert events[..|events| - 1][m] == events[m]; }
    }
  }

  /** While the loop waits, only packets of other slaves came after the start of the transaction. */
  lemma {:induction false} WaitingSince(limits: Limits, events: seq<Event>) returns (j: nat)
    requires Run(limits, START, events).phase.Waiting?
    ensures var s := Run(limits, START, events);
            Since(events, s.phase.act, j) && EndsWith(s.log, [Wrote(s.phase.act.frame)])
    decreases |events|
  {
    WaitingLast(limits, events);
    var n := |events| - 1;
    if Run(limits, START, events[..n]).phase.Idle? {
      j := n;
    } else {
      j := WaitingSince(limits, events[..n]);
      SinceThen(events, Run(limits, START, events).phase.act, j);
    }
  }

  lemma LogGrows(limits: Limits, s: State, e: Event)
    ensures s.log <= Step(limits, s, e).log
  {}

  /** The packet e answers the transaction act, and the handler took its values if it is a read. */
  ghost predicate Confirms(limits: Limits, act: Pending, e: Event) {
    && e.PacketRead? && e.packet[0] == act.frame[0] && GetPdu(e.packet).Ok?
    && var reply := GetPdu(e.packet).value;
       IsRequestReply(limits, FastPdu(act.frame), reply) && (IsReadToServer(act.code) ==> ReplyValues(reply).Ok? && e.taken.Ok?)
  }

  /** The calls of the handler that belong to the answer e to the transaction act. */
  ghost function Calls(limits: Limits, act: Pending, e: Event): seq<Note>
    requires Confirms(limits, act, e)
  {
    if IsReadToServer(act.code)
      then [Delivered(act.frame[0], FastPdu(act.frame), ReplyValues(GetPdu(e.packet).value).value)] else []
  }

  lemma EndsWithMore<T>(s: seq<T>, end: seq<T>, more: seq<T>)
    requires EndsWith(s, end)
    ensures EndsWith(s + more, end + more)
  {
    assert (s + more)[|s| - |end|..] == s[|s| - |end|..] + more;
  }

  function CallOf(v: Verdict): seq<Note> { if v.call.Some? then [v.call.value] else [] }

  lemma ConcludeLog(s: State, act: Pending, v: Verdict)
    ensures Conclude(s, act, v).log == s.log + CallOf(v) + [Answered(act.channel, v.result)]
  {}

  lemma JudgeConfirms(limits: Limits, act: Pending, e: Event)
    requires e.PacketRead? && e.packet[0] == act.frame[0] && GetPdu(e.packet).Ok?
    ensures var v := Judge(limits, act, GetPdu(e.packet).value, e.taken);
            v.result.Ok? ==> Confirms(limits, act, e) && CallOf(v) == Calls(limits, act, e)
  {}

  lemma AnswerIsLast(log: seq<Note>, before: seq<Note>, call: seq<Note>, answer: Note, i: nat)
    requires log == before + call + [answer] && |before| <= i < |log| && log[i].Answered?
    requires forall c :: c in call ==> !c.Answered?
    ensures log[i] == answer && log[..i] == before + call
  {
    forall j | |before| <= j < |before| + |call|
      ensures !log[j].Answered?
    {
      assert log[j] == call[j - |before|];
    }
  }

  lemma ReactConfirms(limits: Limits, s: State, act: Pending, e: Event, i: nat)
    requires e.PacketRead? && EndsWith(s.log, [Wrote(act.frame)])
    requires var log := React(limits, s, act, e.packet, e.taken).log;
             |s.log| <= i < |log| && log[i].Answered?
    ensures var log := React(limits, s, act, e.packet, e.taken).log;
            && log[i].channel == act.channel
            && (log[i].result.Ok? ==>
                 Confirms(limits, act, e) && EndsWith(log[..i], [Wrote(act.frame)] + Calls(limits, act, e)))
  {
    if e.packet[0] == act.frame[0] && GetPdu(e.packet).Ok? {
      var v := Judge(limits, act, GetPdu(e.packet).value, e.taken);
      JudgeConfirms(limits, act, e);
      ConcludeLog(s, act, v);
      AnswerIsLast(Conclude(s, act, v).log, s.log, CallOf(v), Answered(act.channel, v.result), i);
      EndsWithMore(s.log, [Wrote(act.frame)], CallOf(v));
    }
  }

  /** How the transaction act, started by the j-th action, came to be answered by the k-th without error. */
  ghost predicate Done(limits: Limits, events: seq<Event>, act: Pending, j: nat, k: nat, log: seq<Note>)
    requires j <= k < |events|
  {
    && Began(events[j], act)
    && if events[j].slaveId == 0 then j == k && EndsWith(log, [Wrote(act.frame)])
       else && j < k && Confirms(limits, act, events[k]) && EndsWith(log, [Wrote(act.frame)] + Calls(limits, act, events[k]))
            && forall m :: j < m < k ==> Foreign(events[m], act)
  }

  lemma IdleDone(limits: Limits, s: State, e: Event, i: nat) returns (act: Pending)
    requires s.phase.Idle?
    requires var log := Step(limits, s, e).log; |s.log| <= i < |log| && log[i].Answered? && log[i].result.Ok?
    ensures Began(e, act) && e.slaveId == 0 && Step(limits, s, e).log[i].channel == act.channel
    ensures EndsWith(Step(limits, s, e).log[..i], [Wrote(act.frame)])
  {
    var frame := MakeFrame(e.slaveId, e.request, e.fetched).value;
    act := Pending(e.channel, frame, FunctionCode(e.request));
    AnswerIsLast(Begin(s, e).log, s.log, [Wrote(frame)], Answered(e.channel, Ok(())), i);
  }

  lemma DoneBefore(limits: Limits, events: seq<Event>, n: nat, act: Pending, j: nat, k: nat, log: seq<Note>)
    requires n <= |events| && j <= k < n && Done(limits, events[..n], act, j, k, log)
    ensures Done(limits, events, act, j, k, log)
  {
    forall m | j < m < k
      ensures Foreign(events[m], act)
    {
      assert events[..n][m] == events[m];
    }
  }

  /**
   A transaction answered without error at log position i is either a broadcast, or the first packet that came from its
   slave after the request went out is a valid one that answers the request; and if it is a read, the handler took the
   values of that packet, which is all that happened between sending the request and the answer.
   */
  lemma {:induction false} NilMeansDone(limits: Limits, events: seq<Event>, i: nat) returns (act: Pending, j: nat, k: nat)
    requires var log := Run(limits, START, events).log; i < |log| && log[i].Answered? && log[i].result.Ok?
    ensures var log := Run(limits, START, events).log;
            j <= k < |events| && log[i].channel == act.channel && Done(limits, events, act, j, k, log[..i])
    decreases |events|
  {
    var n := |events| - 1;
    RunLast(limits, START, events);
    var s := Run(limits, START, events[..n]);
    LogGrows(limits, s, events[n]);
    if i < |s.log| {
      act, j, k := NilMeansDone(limits, events[..n], i);
      DoneBefore(limits, events, n, act, j, k, s.log[..i]);
      assert Step(limits, s, events[n]).log[..i] == s.log[..i];
    } else {
      act, j, k := LastDone(limits, events, s, i);
    }
  }

  lemma WaitingDone(limits: Limits, s: State, act: Pending, e: Event, i: nat)
    requires s.phase == Waiting(act) && EndsWith(s.log, [Wrote(act.frame)])
    requires var log := Step(limits, s, e).log; |s.log| <= i < |log| && log[i].Answered? && log[i].result.Ok?
    ensures var log := Step(limits, s, e).log;
            && log[i].channel == act.channel
            && Confirms(limits, act, e) && EndsWith(log[..i], [Wrote(act.frame)] + Calls(limits, act, e))
  {
    if e.PacketRead? { ReactConfirms(limits, s, act, e, i); }
  }

  lemma DoneSince(limits: Limits, events: seq<Event>, act: Pending, j: nat, log: seq<Note>)
    requires events != [] && Since(events[..|events| - 1], act, j) && Confirms(limits, act, events[|events| - 1])
    requires EndsWith(log, [Wrote(act.frame)] + Calls(limits, act, events[|events| - 1]))
    ensures Done(limits, events, act, j, |events| - 1, log)
  {
    forall m | j < m < |events| - 1
      ensures Foreign(events[m], act)
    {
      assert events[..|events| - 1][m] == events[m];
    }
  }

  lemma LastDone(limits: Limits, events: seq<Event>, s: State, i: nat) returns (act: Pending, j: nat, k: nat)
    requires events != [] && s == Run(limits, START, events[..|events| - 1])
    requires var log := Step(limits, s, events[|events| - 1]).log;
             |s.log| <= i < |log| && log[i].Answered? && log[i].result.Ok?
    ensures var log := Step(limits, s, events[|events| - 1]).log;
            j <= k < |events| && log[i].channel == act.channel && Done(limits, events, act, j, k, log[..i])
  {
    var n := |events| - 1;
    if s.phase.Idle? {
      act := IdleDone(limits, s, events[n], i);
      j, k := n, n;
    } else {
      j := WaitingSince(limits, events[..n]);
      k, act := n, s.phase.act;
      WaitingDone(limits, s, act, events[n], i);
      DoneSince(limits, events, act, j, Step(limits, s, events[n]).log[..i]);
    }
  }

  /** A confirmed transaction is answered without error, whatever packets of other slaves come first. */
  lemma {:induction false} ConfirmedIsDone(limits: Limits, s: State, act: Pending, others: seq<Event>, e: Event)
    requires s.phase == Waiting(act) && Confirms(limits, act, e)
    requires forall m :: 0 <= m < |others| ==> Foreign(others[m], act)
    ensures var s' := Run(limits, s, others + [e]);
            && s'.phase.Idle? && s'.log == s.log + Calls(limits, act, e) + [Answered(act.channel, Ok(()))]
            && s'.stats == s.stats.(idDrops := s.stats.idDrops + |others|)
    decreases |others|
  {
    if others == [] {
      assert ([] + [e])[1..] == [];
      JudgeAccepts(limits, act, e);
      ConcludeLog(s, act, Judge(limits, act, GetPdu(e.packet).value, e.taken));
    } else {
      assert (others + [e])[1..] == others[1..] + [e];
      ConfirmedIsDone(limits, s.(stats := s.stats.Id()), act, others[1..], e);
    }
  }

  lemma JudgeAccepts(limits: Limits, act: Pending, e: Event)
    requires Confirms(limits, act, e)
    ensures var v := Judge(limits, act, GetPdu(e.packet).value, e.taken);
            v.result == Ok(()) && !v.counted && CallOf(v) == Calls(limits, act, e)
  {
    if IsReadToServer(act.code) { assert e.taken.value == (); }
  }

  // ----- the loop itself

  class RtuClient {
    const limits: Limits
    var stats: Drops
    var log: seq<Note>

    constructor (limits: Limits)
      ensures this.limits == limits && Model(Idle) == START
    {
      this.limits := limits;
      stats, log := NO_DROPS, [];
    }

    ghost function Model(phase: Phase): State
      reads this
    {
      State(phase, stats, log)
    }

    method StartTransaction(e: Event) returns (phase: Phase)
      requires e.Start?
      modifies this
      ensures Model(phase) == Begin(old(Model(Idle)), e)
    {
      var frame := MakeFrame(e.slaveId, e.request, e.fetched);
      if frame.Err? {
        log := log + [Answered(e.channel, Err(frame.error))];
        return Idle;
      }
      if e.sent.Err? {
        log := log + [Answered(e.channel, e.sent)];
        return Stopped(e.sent.error);
      }
      log := log + [Wrote(frame.value)];
      if e.slaveId == 0 {
        log := log + [Answered(e.channel, Ok(()))];
        return Idle;
      }
      return Waiting(Pending(e.channel, frame.value, FunctionCode(e.request)));
    }

    /** A packet arrived while the transaction act is pending. */
    method ReadPacket(act: Pending, r: Packet, taken: Result<()>) returns (phase: Phase)
      requires r != []
      modifies this
      ensures Model(phase) == React(limits, old(Model(Waiting(act))), act, r, taken)
    {
      if r[0] != act.frame[0] {
        stats := stats.Id();
        return Waiting(act);
      }
      var p := GetPdu(r);
      if p.Err? {
        if p.error == CrcError { stats := stats.Crc(); } else { stats := stats.Error(); }
        log := log + [Answered(act.channel, Err(p.error))];
        return Idle;
      }
      ReadReply(act, p.value, taken);
      return Idle;
    }

    method ReadReply(act: Pending, reply: Pdu, taken: Result<()>)
      requires |reply| >= 2
      modifies this
      ensures Model(Idle) == Conclude(old(Model(Waiting(act))), act, Judge(limits, act, reply, taken))
    {
      var f := FunctionCode(reply);
      if IsError(f) && WithoutError(f) == act.code {
        stats := stats.Error();
        log := log + [Refused(FastPdu(act.frame), reply)];
        log := log + [Answered(act.channel, Err(Exception(reply[1])))];
        return;
      }
      if !IsRequestReply(limits, FastPdu(act.frame), reply) {
        stats := stats.Error();
        log := log + [Answered(act.channel, Err(Other))];
        return;
      }
      if IsReadToServer(act.code) {
        var values := ReplyValues(reply);
        if values.Err? {
          stats := stats.Error();
          log := log + [Answered(act.channel, Err(values.error))];
          return;
        }
        log := log + [Delivered(act.frame[0], FastPdu(act.frame), values.value)];
        if taken.Err? { stats := stats.Error(); }
        log := log + [Answered(act.channel, taken)];
        return;
      }
      log := log + [Answered(act.channel, Ok(()))];
    }

    /** Runs until an error ends it, or no more actions come. */
    method ServeRtu(actions: seq<Event>) returns (phase: Phase)
      modifies this
      ensures Model(phase) == Run(limits, old(Model(Idle)), actions)
    {
      ghost var end := Run(limits, Model(Idle), actions);
      phase := Idle;
      var i := 0;
      while i < |actions|
        invariant i <= |actions| && Run(limits, Model(phase), actions[i..]) == end
        invariant phase.Idle? || i == |actions|
      {
        assert actions[i..][1..] == actions[i + 1..];
        phase := Take(actions[i]);
        i := i + 1;
        ghost var first := i;
        while phase.Waiting? && i < |actions|
          invariant first <= i <= |actions| && Run(limits, Model(phase), actions[i..]) == end
        {
          assert actions[i..][1..] == actions[i + 1..];
          phase := Respond(phase.act, actions[i]);
          i := i + 1;
        }
        if phase.Stopped? {
          StoppedStays(limits, Model(phase), actions[i..]);
          return;
        }
      }
    }

    /** An action that comes while no transaction is pending. */
    method Take(e: Event) returns (phase: Phase)
      modifies this
      ensures Model(phase) == Step(limits, old(Model(Idle)), e)
    {
      phase := Idle;
      if e.Start? {
        phase := StartTransaction(e);
      } else if e.PacketRead? {
        stats := stats.Drop();
      } else if e.ReadFailed? {
        phase := Stopped(e.error);
      }
    }

    /** One turn of the inner loop. */
    method Respond(act: Pending, r: Event) returns (phase: Phase)
      modifies this
      ensures Model(phase) == Step(limits, old(Model(Waiting(act))), r)
    {
      if r.PacketRead? {
        phase := ReadPacket(act, r.packet, r.taken);
      } else if r.TimeOut? {
        log := log + [Answered(act.channel, Err(Other))];
        return Idle;
      } else if r.ReadFailed? {
        return Stopped(r.error);
      } else {
        log := log + [Answered(act.channel, Err(Other))];
        return Stopped(Other);
      }
    }
  }
}
