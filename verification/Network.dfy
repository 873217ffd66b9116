/**
 A client and a server together (rtu_client.go, rtu_server.go): what whole transfers, split into requests, bring about
 when the wire between the two loops delivers every frame.
 */
module Network {
  import opened Bytes
  import opened Modbus
  import opened Rtu
  import opened Handler
  import opened Transactions
  import opened Requests
  import RtuClient
  import RtuServer

  datatype Net = Net(client: RtuClient.State, server: RtuServer.State)

  const START := Net(RtuClient.START, RtuServer.START)

  /** Who is on the wire: the slave id of the server, the handlers, and the oversize setting. */
  datatype Parties = Parties(id: Byte, client: SimpleHandler, server: SimpleHandler, limits: Limits)

  function Fetched(h: SimpleHandler, p: Pdu): Result<seq<Byte>> { if |p| >= 3 then OnRead(h, p) else Err(Other) }

  /** The client starts the transaction for p; the server gets the frame, the client its reply. Callbacks take what they get. */
  function Transact(w: Parties, net: Net, channel: nat, p: Pdu): Net {
    var c := RtuClient.Step(w.limits, net.client, RtuClient.Start(channel, w.id, p, Fetched(w.client, p), Ok(())));
    if !c.phase.Waiting? then Net(c, net.server)
    else
      var frame := c.phase.act.frame;
      var s := RtuServer.Step(w.id, w.limits.oversize, net.server,
        RtuServer.PacketRead(frame, Fetched(w.server, FastPdu(frame)), Ok(()), Ok(())));
      if |s.out| <= |net.server.out| || s.out[|net.server.out|] == [] then Net(c, s)
      else Net(RtuClient.Step(w.limits, c, RtuClient.PacketRead(s.out[|net.server.out|], Ok(()))), s)
  }

  predicate Succeeded(net: Net) {
    var log := net.client.log;
    net.client.phase.Idle? && log != [] && log[|log| - 1].Answered? && log[|log| - 1].result.Ok?
  }

  type Transaction = (Net, Pdu) -> Net

  function Between(w: Parties): Transaction { (net, p) => Transact(w, net, 0, p) }

  /** DoTransactions: in order, up to the first that fails. */
  function TransactAll(transact: Transaction, net: Net, requests: seq<Pdu>): (r: (nat, Net))
    decreases |requests|
  {
    if requests == [] then (0, net)
    else
      var net1 := transact(net, requests[0]);
      if !Succeeded(net1) then (0, net1)
      else var r := TransactAll(transact, net1, requests[1..]); (1 + r.0, r.1)
  }

  method DoTransactions(transact: Transaction, start: Net, requests: seq<Pdu>) returns (n: nat, net: Net)
    ensures (n, net) == TransactAll(transact, start, requests)
  {
    net := start;
    for i := 0 to |requests|
      invariant TransactAll(transact, start, requests) ==
                var r := TransactAll(transact, net, requests[i..]); (i + r.0, r.1)
    {
      assert requests[i..][0] == requests[i] && requests[i..][1..] == requests[i + 1..];
      net := transact(net, requests[i]);
      if !Succeeded(net) { return i, net; }
    }
    n := |requests|;
  }

  // ----- one transaction

  /** What is sent for p, and what comes back: a transaction in which nobody fails. */
  ghost predicate Agreed(w: Parties, p: Pdu, sent: Pdu, reply: Pdu) {
    && RtuClient.MakeFrame(w.id, p, Fetched(w.client, p)) == Ok(MakeRtu(w.id, sent))
    && GetPdu(MakeRtu(w.id, sent)) == Ok(sent) && GetPdu(MakeRtu(w.id, reply)) == Ok(reply)
    && RtuServer.Outcome(w.limits.oversize, sent, Fetched(w.server, sent), Ok(())) == Ok(reply)
    && IsRequestReply(w.limits, sent, reply) && (IsReadToServer(FunctionCode(p)) ==> ReplyValues(reply).Ok?)
  }

  /** The calls of OnWrite at the client. */
  ghost function ClientCalls(w: Parties, p: Pdu, sent: Pdu, reply: Pdu): seq<RtuClient.Note>
    requires Agreed(w, p, sent, reply)
  {
    if IsReadToServer(FunctionCode(p)) then [RtuClient.Delivered(w.id, sent, ReplyValues(reply).value)] else []
  }

  lemma ServerTurn(w: Parties, s: RtuServer.State, p: Pdu, sent: Pdu, reply: Pdu)
    requires w.id != 0 && Agreed(w, p, sent, reply)
    ensures RtuServer.Step(w.id, w.limits.oversize, s,
              RtuServer.PacketRead(MakeRtu(w.id, sent), Fetched(w.server, sent), Ok(()), Ok(()))) ==
            s.(out := s.out + [MakeRtu(w.id, reply)], writes := s.writes + RtuServer.WriteCall(w.limits.oversize, sent))
  {
    GetPduOfMakeRtu(w.id, sent);
  }

  lemma ClientTurn(w: Parties, c: RtuClient.State, channel: nat, p: Pdu, sent: Pdu, reply: Pdu)
    requires w.id != 0 && Agreed(w, p, sent, reply) && |MakeRtu(w.id, sent)| >= 3
    requires c.phase == RtuClient.Waiting(RtuClient.Pending(channel, MakeRtu(w.id, sent), FunctionCode(p)))
    ensures MakeRtu(w.id, reply) != []
    ensures RtuClient.Step(w.limits, c, RtuClient.PacketRead(MakeRtu(w.id, reply), Ok(()))) ==
            c.(phase := RtuClient.Idle, log := c.log + ClientCalls(w, p, sent, reply) + [RtuClient.Answered(channel, Ok(()))])
  {
    GetPduOfMakeRtu(w.id, sent);
    GetPduOfMakeRtu(w.id, reply);
    var act, e := c.phase.act, RtuClient.PacketRead(MakeRtu(w.id, reply), Ok(()));
    RtuClient.JudgeAccepts(w.limits, act, e);
    RtuClient.ConcludeLog(c, act, RtuClient.Judge(w.limits, act, reply, Ok(())));
  }

  /** The transaction runs: the reply reaches the client, which calls its handler for a read; the server calls its own for a write. */
  lemma Transacted(w: Parties, net: Net, channel: nat, p: Pdu, sent: Pdu, reply: Pdu)
    requires w.id != 0 && Agreed(w, p, sent, reply) && net.client.phase.Idle?
    ensures |MakeRtu(w.id, sent)| >= 3
    ensures Transact(w, net, channel, p).client == net.client.(log :=
              net.client.log + [RtuClient.Wrote(MakeRtu(w.id, sent))] + ClientCalls(w, p, sent, reply)
              + [RtuClient.Answered(channel, Ok(()))])
    ensures Transact(w, net, channel, p).server == net.server.(
              out := net.server.out + [MakeRtu(w.id, reply)],
              writes := net.server.writes + RtuServer.WriteCall(w.limits.oversize, sent))
  {
    GetPduOfMakeRtu(w.id, sent);
    ServerTurn(w, net.server, p, sent, reply);
    var c := RtuClient.Step(w.limits, net.client, RtuClient.Start(channel, w.id, p, Fetched(w.client, p), Ok(())));
    ClientTurn(w, c, channel, p, sent, reply);
  }

  /** A server that cannot serve a request: the client's caller gets exactly the exception code of the failure. */
  lemma FailureReported(w: Parties, net: Net, channel: nat, p: Pdu, sent: Pdu, error: Failure)
    requires w.id != 0 && net.client.phase.Idle? && |sent| >= 2
    requires RtuClient.MakeFrame(w.id, p, Fetched(w.client, p)) == Ok(MakeRtu(w.id, sent))
    requires FunctionCode(sent) == FunctionCode(p) && !IsError(FunctionCode(p))
    requires RtuServer.Outcome(w.limits.oversize, sent, Fetched(w.server, sent), Ok(())) == Err(error)
    ensures var code, net' := ToExceptionCode(error), Transact(w, net, channel, p);
            && |MakeRtu(w.id, sent)| >= 3 && net'.client.phase.Idle?
            && net'.client.log == net.client.log + [RtuClient.Wrote(MakeRtu(w.id, sent))]
                 + [RtuClient.Refused(sent, ExceptionReply(sent, code))]
                 + [RtuClient.Answered(channel, Err(Exception(code)))]
            && net'.server.out == net.server.out + [MakeRtu(w.id, ExceptionReply(sent, code))]
  {
    GetPduOfMakeRtu(w.id, sent);
    GetPduOfMakeRtu(w.id, ExceptionReply(sent, ToExceptionCode(error)));
    ServerFails(w, net.server, sent, error);
    var c := RtuClient.Step(w.limits, net.client, RtuClient.Start(channel, w.id, p, Fetched(w.client, p), Ok(())));
    ClientRefused(w, c, channel, sent, FunctionCode(p), ToExceptionCode(error));
  }

  lemma ServerFails(w: Parties, s: RtuServer.State, sent: Pdu, error: Failure)
    requires w.id != 0 && |sent| >= 2
    requires RtuServer.Outcome(w.limits.oversize, sent, Fetched(w.server, sent), Ok(())) == Err(error)
    ensures RtuServer.Step(w.id, w.limits.oversize, s,
              RtuServer.PacketRead(MakeRtu(w.id, sent), Fetched(w.server, sent), Ok(()), Ok(()))).out ==
            s.out + [MakeRtu(w.id, ExceptionReply(sent, ToExceptionCode(error)))]
  {
    GetPduOfMakeRtu(w.id, sent);
  }

  lemma ClientRefused(w: Parties, c: RtuClient.State, channel: nat, sent: Pdu, f: Byte, code: Byte)
    requires w.id != 0 && FunctionCode(sent) == f && !IsError(f) && |MakeRtu(w.id, sent)| >= 3
    requires c.phase == RtuClient.Waiting(RtuClient.Pending(channel, MakeRtu(w.id, sent), f))
    ensures MakeRtu(w.id, ExceptionReply(sent, code)) != []
    ensures var c' := RtuClient.Step(w.limits, c, RtuClient.PacketRead(MakeRtu(w.id, ExceptionReply(sent, code)), Ok(())));
            && c'.phase.Idle?
            && c'.log == c.log + [RtuClient.Refused(sent, ExceptionReply(sent, code))]
                 + [RtuClient.Answered(channel, Err(Exception(code)))]
  {
    GetPduOfMakeRtu(w.id, sent);
    GetPduOfMakeRtu(w.id, ExceptionReply(sent, code));
  }

  // ----- a range of values

  function Slice(memory: Values, from: nat, n: nat): Values
    requires from + n <= memory.Length()
  {
    match memory
    case Coils(b) => Coils(b[from..from + n])
    case Registers(r) => Registers(r[from..from + n])
  }

  /** For reads of code f that lie between the addresses `low` and `high`, the handler has the values of `memory`. */
  ghost predicate Holds(h: SimpleHandler, f: Byte, memory: Values, low: nat, high: nat) {
    && high <= memory.Length() && memory.Registers? == IsUint16(f)
    && forall a: Word, n: Word {:trigger Fetch(h, f, a, n)} ::
         low <= a && 0 < n <= MaxPerPacket(f) && a + n <= high ==> Fetch(h, f, a, n) == Ok(Slice(memory, a, n))
  }

  /** What a call of OnWrite hands to the callback of the handler. */
  function Decoded(h: SimpleHandler, call: (Pdu, seq<Byte>)): Result<(Word, Values)> {
    if |call.0| >= 3 && call.1 != [] then Delivery(h, call.0, call.1) else Err(Other)
  }

  /**
   How far the calls since `earlier` carry the memory: the address they reach if they hand over exactly its values from
   `address` on, in consecutive pieces.
   */
  function Carried(h: SimpleHandler, earlier: seq<(Pdu, seq<Byte>)>, calls: seq<(Pdu, seq<Byte>)>, memory: Values, address: nat)
    : Option<nat>
    decreases |calls|
  {
    if calls == earlier then Some(address)
    else if calls == [] then None
    else
      var n := |calls| - 1;
      var reached := Carried(h, earlier, calls[..n], memory, address);
      var d := Decoded(h, calls[n]);
      if reached.Some? && d.Ok? && d.value.0 == reached.value && 0 < d.value.1.Length() <= memory.Length() - reached.value
         && d.value.1 == Slice(memory, reached.value, d.value.1.Length())
        then Some(reached.value + d.value.1.Length())
        else None
  }

  lemma CarriedOn(h: SimpleHandler, earlier: seq<(Pdu, seq<Byte>)>, calls: seq<(Pdu, seq<Byte>)>, call: (Pdu, seq<Byte>),
      memory: Values, address: nat, a: nat, q: nat)
    requires Carried(h, earlier, calls, memory, address) == Some(a) && 0 < q && a + q <= memory.Length()
    requires Decoded(h, call).Ok? && Decoded(h, call).value.0 == a && Decoded(h, call).value.1 == Slice(memory, a, q)
    ensures Carried(h, earlier, calls + [call], memory, address) == Some(a + q)
  {
    CarriedLength(h, earlier, calls, memory, address);
    assert (calls + [call])[..|calls|] == calls;
    assert Slice(memory, a, q).Length() == q;
  }

  lemma {:induction false} CarriedLength(
      h: SimpleHandler, earlier: seq<(Pdu, seq<Byte>)>, calls: seq<(Pdu, seq<Byte>)>, memory: Values, address: nat)
    requires Carried(h, earlier, calls, memory, address).Some?
    ensures |earlier| <= |calls|
    decreases |calls|
  {
    if calls != earlier { CarriedLength(h, earlier, calls[..|calls| - 1], memory, address); }
  }

  /** The calls of OnWrite in a client's log. */
  function CallsIn(log: seq<RtuClient.Note>): seq<(Pdu, seq<Byte>)> {
    if log == [] then []
    else if log[0].Delivered? then [(log[0].request, log[0].values)] + CallsIn(log[1..])
    else CallsIn(log[1..])
  }

  lemma ReadAgrees(w: Parties, f: Byte, address: Word, quantity: Word)
    requires 1 <= f <= 4 && MakeRequestHeader(f, address, quantity).Ok?
    requires Fetch(w.server, f, address, quantity).Ok? && Takes(w.client, f)
    ensures var p := MakeRequestHeader(f, address, quantity).value;
            && |p| >= 3 && OnRead(w.server, p).Ok?
            && var data := OnRead(w.server, p).value;
               var reply := MakeReadReply(p, data);
               && Agreed(w, p, p, reply) && ReplyValues(reply) == Ok(data) && |p| == 5 && |reply| <= MAX_PDU_SIZE
               && RtuServer.WriteCall(w.limits.oversize, p) == []
               && Decoded(w.client, (p, data)) == Ok((address, Fetch(w.server, f, address, quantity).value))
  {
    ReadEndToEnd(w.limits, w.id, f, address, quantity, w.server, w.client);
    HeaderFields(f, address, quantity);
    ReadLength(f, quantity);
    OnReadLength(w.server, MakeRequestHeader(f, address, quantity).value, quantity);
  }

  lemma WriteAgrees(w: Parties, f: Byte, address: Word, quantity: Word)
    requires f in {5, 6, 15, 16} && MakeRequestHeader(f, address, quantity).Ok?
    requires Fetch(w.client, f, address, quantity).Ok? && Takes(w.server, f)
    ensures var p := MakeRequestHeader(f, address, quantity).value;
            var v := Fetch(w.client, f, address, quantity).value;
            && WriteRequest(f, address, v).Ok? && Encode(f, v).Ok?
            && var sent, data := WriteRequest(f, address, v).value, Encode(f, v).value;
               && Agreed(w, p, sent, MakeWriteReply(sent)) && |MakeWriteReply(sent)| <= |sent| <= MAX_PDU_SIZE
               && RtuServer.WriteCall(w.limits.oversize, sent) == [(sent, data)]
               && Decoded(w.server, (sent, data)) == Ok((address, v))
  {
    ClientWrites(w.client, f, address, quantity);
    WriteEndToEnd(w.limits, w.id, f, address, Fetch(w.client, f, address, quantity).value, w.server);
    WriteRequestSize(w.limits, f, address, Fetch(w.client, f, address, quantity).value);
    HeaderFields(f, address, quantity);
  }

  lemma {:induction false} CallsInAppend(a: seq<RtuClient.Note>, b: seq<RtuClient.Note>)
    ensures CallsIn(a + b) == CallsIn(a) + CallsIn(b)
    decreases |a|
  {
    if a == [] {
      assert a + b == b;
    } else {
      assert (a + b)[1..] == a[1..] + b;
      CallsInAppend(a[1..], b);
    }
  }

  // ----- whole transfers

  function Source(w: Parties, f: Byte): SimpleHandler { if IsReadToServer(f) then w.server else w.client }

  function Sink(w: Parties, f: Byte): SimpleHandler { if IsReadToServer(f) then w.client else w.server }

  /** The calls of OnWrite on the side that code f moves values to. */
  function Calls(net: Net, f: Byte): seq<(Pdu, seq<Byte>)> {
    if IsReadToServer(f) then CallsIn(net.client.log) else net.server.writes
  }

  /** The calls of OnWrite on the other side. */
  function OtherCalls(net: Net, f: Byte): seq<(Pdu, seq<Byte>)> {
    if IsReadToServer(f) then net.server.writes else CallsIn(net.client.log)
  }

  /** Both loops are ready, and have counted no new errors since `before`. */
  predicate Ready(net: Net, before: Net) {
    && net.client.phase.Idle? && net.server.stopped.None?
    && net.client.stats == before.client.stats && net.server.stats == before.server.stats
  }

  /** The parties can move the values of code f from `low` to `high`: one side has them and the other takes them. */
  ghost predicate Able(w: Parties, f: Byte, memory: Values, low: nat, high: nat) {
    Supported(f) && w.id != 0 && low <= high <= MAX_RANGE && Holds(Source(w, f), f, memory, low, high) && Takes(Sink(w, f), f)
  }

  /** What the log of a successful transaction says. */
  lemma LogSays(net: Net, net': Net, frame: RtuClient.Frame, calls: seq<RtuClient.Note>)
    requires Ready(net, net) && |calls| <= 1 && (calls != [] ==> calls[0].Delivered?)
    requires net'.client == net.client.(log := net.client.log + [RtuClient.Wrote(frame)] + calls + [RtuClient.Answered(0, Ok(()))])
    requires net'.server.stats == net.server.stats && net'.server.stopped == net.server.stopped
    ensures Succeeded(net') && Ready(net', net)
    ensures CallsIn(net'.client.log) ==
            CallsIn(net.client.log) + if calls == [] then [] else [(calls[0].request, calls[0].values)]
  {
    var log, answer := net.client.log, [RtuClient.Answered(0, Ok(()))];
    CallsInAppend(log + [RtuClient.Wrote(frame)] + calls, answer);
    CallsInAppend(log + [RtuClient.Wrote(frame)], calls);
    CallsInAppend(log, [RtuClient.Wrote(frame)]);
  }

  lemma ReadPiece(w: Parties, net: Net, f: Byte, p: Pdu, data: seq<Byte>)
    requires w.id != 0 && Ready(net, net) && 1 <= f <= 4 && FunctionCode(p) == f
    requires Agreed(w, p, p, MakeReadReply(p, data)) && ReplyValues(MakeReadReply(p, data)) == Ok(data)
    requires RtuServer.WriteCall(w.limits.oversize, p) == []
    ensures var net' := Transact(w, net, 0, p);
            && Succeeded(net') && Ready(net', net)
            && Calls(net', f) == Calls(net, f) + [(p, data)] && OtherCalls(net', f) == OtherCalls(net, f)
  {
    Transacted(w, net, 0, p, p, MakeReadReply(p, data));
    LogSays(net, Transact(w, net, 0, p), MakeRtu(w.id, p), [RtuClient.Delivered(w.id, p, data)]);
  }

  lemma WritePiece(w: Parties, net: Net, f: Byte, p: Pdu, sent: Pdu, data: seq<Byte>)
    requires w.id != 0 && Ready(net, net) && f in {5, 6, 15, 16} && FunctionCode(p) == f
    requires Agreed(w, p, sent, MakeWriteReply(sent)) && RtuServer.WriteCall(w.limits.oversize, sent) == [(sent, data)]
    ensures var net' := Transact(w, net, 0, p);
            && Succeeded(net') && Ready(net', net)
            && Calls(net', f) == Calls(net, f) + [(sent, data)] && OtherCalls(net', f) == OtherCalls(net, f)
  {
    Transacted(w, net, 0, p, sent, MakeWriteReply(sent));
    LogSays(net, Transact(w, net, 0, p), MakeRtu(w.id, sent), []);
  }

  /** One request moves its piece of the memory. */
  lemma PieceTransferred(w: Parties, net: Net, f: Byte, address: Word, q: Word, memory: Values, low: nat, high: nat)
    returns (call: (Pdu, seq<Byte>))
    requires Able(w, f, memory, low, high) && Ready(net, net) && 0 < q <= MaxPerPacket(f) && low <= address && address + q <= high
    ensures MakeRequestHeader(f, address, q).Ok?
    ensures var p := MakeRequestHeader(f, address, q).value;
            var net' := Transact(w, net, 0, p);
            && Succeeded(net') && Ready(net', net)
            && Calls(net', f) == Calls(net, f) + [call] && OtherCalls(net', f) == OtherCalls(net, f)
    ensures Decoded(Sink(w, f), call) == Ok((address, Slice(memory, address, q)))
  {
    HeaderMade(f, address, q);
    var p := MakeRequestHeader(f, address, q).value;
    assert Fetch(Source(w, f), f, address, q) == Ok(Slice(memory, address, q));
    HeaderFields(f, address, q);
    if 1 <= f <= 4 {
      ReadAgrees(w, f, address, q);
      call := (p, OnRead(w.server, p).value);
      ReadPiece(w, net, f, p, call.1);
    } else {
      WriteAgrees(w, f, address, q);
      var v := Fetch(w.client, f, address, q).value;
      call := (WriteRequest(f, address, v).value, Encode(f, v).value);
      WritePiece(w, net, f, p, call.0, call.1);
    }
  }

  /**
   How far a transfer of code f from `address` on has come since `before`: the address the calls to the receiving side have
   reached, if the other side had none.
   */
  function Progress(w: Parties, f: Byte, memory: Values, address: nat, before: Net, net: Net): Option<nat> {
    if OtherCalls(net, f) == OtherCalls(before, f)
      then Carried(Sink(w, f), Calls(before, f), Calls(net, f), memory, address) else None
  }

  function ProgressSince(w: Parties, f: Byte, memory: Values, address: nat, before: Net): Net -> Option<nat> {
    net => Progress(w, f, memory, address, before, net)
  }

  lemma NoProgressYet(w: Parties, f: Byte, memory: Values, address: nat, net: Net)
    ensures Progress(w, f, memory, address, net, net) == Some(address)
  {}

  /** Every request that `make` makes in the range succeeds without an error, and takes the transfer as far as its piece reaches. */
  ghost predicate Moves(transact: Transaction, make: HeaderMaker, reached: Net -> Option<nat>, max: nat, low: nat, high: nat) {
    forall net: Net, a: nat, q: nat {:trigger transact(net, make(a, q))} ::
      Ready(net, net) && reached(net) == Some(a) && 0 < q <= max && low <= a && a + q <= high ==>
        var net1 := transact(net, make(a, q));
        Succeeded(net1) && Ready(net1, net) && reached(net1) == Some(a + q)
  }

  lemma PieceProgresses(w: Parties, net: Net, f: Byte, a: Word, q: Word, memory: Values, low: nat, high: nat, before: Net)
    requires Able(w, f, memory, low, high) && Ready(net, net) && 0 < q <= MaxPerPacket(f) && low <= a && a + q <= high
    requires Progress(w, f, memory, low, before, net) == Some(a)
    ensures MakeRequestHeader(f, a, q).Ok?
    ensures var p := MakeRequestHeader(f, a, q).value;
            var net1 := Transact(w, net, 0, p);
            Succeeded(net1) && Ready(net1, net) && Progress(w, f, memory, low, before, net1) == Some(a + q)
  {
    var call := PieceTransferred(w, net, f, a, q, memory, low, high);
    CarriedOn(Sink(w, f), Calls(before, f), Calls(net, f), call, memory, low, a, q);
  }

  /** `transact` carries out transactions between the parties. */
  ghost predicate Runs(w: Parties, transact: Transaction) {
    forall net: Net, p: Pdu {:trigger Transact(w, net, 0, p)} :: transact(net, p) == Transact(w, net, 0, p)
  }

  lemma BetweenRuns(w: Parties)
    ensures Runs(w, Between(w))
  {}

  /** `reached` tells the progress of a transfer. */
  ghost predicate Tracks(w: Parties, f: Byte, memory: Values, address: nat, before: Net, reached: Net -> Option<nat>) {
    forall net: Net {:trigger Progress(w, f, memory, address, before, net)} ::
      reached(net) == Progress(w, f, memory, address, before, net)
  }

  lemma ProgressTracks(w: Parties, f: Byte, memory: Values, address: nat, before: Net)
    ensures Tracks(w, f, memory, address, before, ProgressSince(w, f, memory, address, before))
  {}

  lemma RequestMoves(w: Parties, net: Net, f: Byte, a: nat, q: nat, memory: Values, low: nat, high: nat, before: Net,
      transact: Transaction, make: HeaderMaker, reached: Net -> Option<nat>)
    requires Able(w, f, memory, low, high) && Ready(net, net) && 0 < q <= MaxPerPacket(f) && low <= a && a + q <= high
    requires Runs(w, transact) && Makes(f, make) && Tracks(w, f, memory, low, before, reached)
    requires reached(net) == Some(a)
    ensures var net1 := transact(net, make(a, q));
            Succeeded(net1) && Ready(net1, net) && reached(net1) == Some(a + q)
  {
    assert reached(net) == Progress(w, f, memory, low, before, net);
    PieceProgresses(w, net, f, a, q, memory, low, high, before);
  }

  lemma PartiesMove(w: Parties, f: Byte, memory: Values, low: nat, high: nat, before: Net,
      transact: Transaction, make: HeaderMaker, reached: Net -> Option<nat>, max: nat)
    requires Able(w, f, memory, low, high) && max <= MaxPerPacket(f)
    requires Runs(w, transact) && Makes(f, make) && Tracks(w, f, memory, low, before, reached)
    ensures Moves(transact, make, reached, max, low, high)
  {
    forall net: Net, a: nat, q: nat | Ready(net, net) && reached(net) == Some(a) && 0 < q <= max && low <= a && a + q <= high
      ensures var net1 := transact(net, make(a, q));
              Succeeded(net1) && Ready(net1, net) && reached(net1) == Some(a + q)
    {
      RequestMoves(w, net, f, a, q, memory, low, high, before, transact, make, reached);
    }
  }

  lemma HeadersMakes(f: Byte)
    ensures Makes(f, HeadersOf(f))
  {}

  lemma {:induction false} SplitReaches(transact: Transaction, make: HeaderMaker, reached: Net -> Option<nat>,
      net: Net, address: nat, quantity: nat, max: nat, low: nat, high: nat)
    requires Ready(net, net) && reached(net) == Some(address) && Moves(transact, make, reached, max, low, high)
    requires 0 < max && low <= address && address + quantity <= high
    ensures var requests := Split(make, address, quantity, max);
            var r := TransactAll(transact, net, requests);
            r.0 == |requests| && Ready(r.1, net) && reached(r.1) == Some(address + quantity)
    decreases quantity
  {
    if quantity > 0 {
      var q := Min(quantity, max);
      var p, rest := make(address, q), Split(make, address + q, quantity - q, max);
      var net1 := transact(net, p);
      assert ([p] + rest)[1..] == rest;
      SplitReaches(transact, make, reached, net1, address + q, quantity - q, max, low, high);
    }
  }

  /**
   A whole transfer. For every function code, every range of the address space and every size of request: when one side
   holds the values of the range and the other takes them, all transactions succeed, no error is counted on either side, and
   the callbacks of the side that takes them are handed exactly these values, in consecutive pieces. Reads go from the server
   to the client, writes from the client to the server; the other side's callbacks get nothing.
   */
  lemma RangeTransferred(w: Parties, net: Net, f: Byte, address: nat, quantity: nat, max: nat, memory: Values)
    requires Able(w, f, memory, address, address + quantity) && Ready(net, net) && 0 < max <= MaxPerPacket(f)
    ensures var requests := Split(HeadersOf(f), address, quantity, max);
            var r := TransactAll(Between(w), net, requests);
            r.0 == |requests| && Ready(r.1, net) && Progress(w, f, memory, address, net, r.1) == Some(address + quantity)
  {
    var reached := ProgressSince(w, f, memory, address, net);
    BetweenRuns(w);
    ProgressTracks(w, f, memory, address, net);
    HeadersMakes(f);
    PartiesMove(w, f, memory, address, address + quantity, net, Between(w), HeadersOf(f), reached, max);
    NoProgressYet(w, f, memory, address, net);
    SplitReaches(Between(w), HeadersOf(f), reached, net, address, quantity, max, address, address + quantity);
  }
}
