/**
 Client and server loops with the two packet readers in between: whole transfers over byte streams that the ports cut up in
 any way.
 */
module Transfers {
  import opened Bytes
  import opened Modbus
  import opened Rtu
  import opened ReaderModel
  import opened ReaderFraming
  import opened LoneFrame
  import opened Wire
  import Handler
  import Requests
  import Transactions
  import Network
  import RtuClient
  import RtuServer

  /** Both loops, and the readers in front of them. */
  datatype Line = Line(net: Network.Net, serverReader: Call, clientReader: Call)

  /** How the port of one side delivers the bytes sent to it in the k-th transaction. */
  type Port = (nat, seq<Byte>) -> seq<PortRead>

  /** The parties, the cutoff of their readers, and the ports of the two sides. */
  datatype Wiring = Wiring(parties: Network.Parties, cutoff: nat -> int, serverPort: Port, clientPort: Port)

  /** Both read into 256 bytes, each for its own direction. */
  function ReaderOf(x: Wiring, isClient: bool): Config { RtuReader(OneWay(isClient), x.parties.limits, x.cutoff, MAX_RTU_SIZE) }

  /** What Read returned without an error. */
  function PacketsIn(log: seq<Segment>): seq<Packet> {
    if log == [] then []
    else (if log[0].fate == ReaderModel.Packet || log[0].fate == Full then [log[0].bytes] else []) + PacketsIn(log[1..])
  }

  /** The packets returned between c and w. */
  function Returned(c: Call, w: Call): seq<Packet> {
    if |c.r.log| <= |w.r.log| then PacketsIn(w.r.log[|c.r.log|..]) else []
  }

  function Receive(cfg: Config, c: Call, events: seq<PortRead>): Call {
    if Idle(cfg, c) && Fits(cfg, c, events) then Run(cfg, c, events) else c
  }

  function ServerActions(x: Wiring, packets: seq<Packet>): seq<RtuServer.Event> {
    seq(|packets|, i requires 0 <= i < |packets| =>
      RtuServer.PacketRead(packets[i],
        if |packets[i]| >= 3 then Network.Fetched(x.parties.server, FastPdu(packets[i])) else Err(Other), Ok(()), Ok(())))
  }

  function ClientActions(packets: seq<Packet>): seq<RtuClient.Event> {
    seq(|packets|, i requires 0 <= i < |packets| =>
      if packets[i] == [] then RtuClient.ReadFailed(Other) else RtuClient.PacketRead(packets[i], Ok(())))
  }

  function Concat(frames: seq<Packet>): seq<Byte> { if frames == [] then [] else frames[0] + Concat(frames[1..]) }

  /** The k-th transaction: the bytes the client writes go through the server's port and reader, and its answers come back. */
  function Transact(x: Wiring, line: Line, k: nat, p: Pdu): Line {
    var w, net := x.parties, line.net;
    var c := RtuClient.Step(w.limits, net.client, RtuClient.Start(0, w.id, p, Network.Fetched(w.client, p), Ok(())));
    if !c.phase.Waiting? then line.(net := Network.Net(c, net.server))
    else
      var sr := Receive(ReaderOf(x, false), line.serverReader, x.serverPort(k, c.phase.act.frame));
      var s := RtuServer.Run(w.id, w.limits.oversize, net.server, ServerActions(x, Returned(line.serverReader, sr)));
      var out := if |net.server.out| <= |s.out| then Concat(s.out[|net.server.out|..]) else [];
      var cr := Receive(ReaderOf(x, true), line.clientReader, x.clientPort(k, out));
      Line(Network.Net(RtuClient.Run(w.limits, c, ClientActions(Returned(line.clientReader, cr))), s), sr, cr)
  }

  /** A port delivers what is sent to it, in whatever pieces, without an error or a silence over the cutoff within it. */
  ghost predicate Delivers(cfg: Config, port: Port) {
    forall k: nat, f: seq<Byte> {:trigger port(k, f)} :: f != [] ==> Brings(cfg, f, port(k, f))
  }

  ghost predicate Wired(x: Wiring) {
    x.parties.id != 0 && Delivers(ReaderOf(x, false), x.serverPort) && Delivers(ReaderOf(x, true), x.clientPort)
  }

  /** Both readers are between packets. */
  ghost predicate Open(x: Wiring, line: Line) {
    Ready(ReaderOf(x, false), line.serverReader) && Ready(ReaderOf(x, true), line.clientReader)
  }

  /** One frame through a port and a reader. */
  lemma FrameReceived(cfg: Config, port: Port, c: Call, k: nat, f: Packet)
    requires Ready(cfg, c) && Delivers(cfg, port) && Framed(cfg, f) && |f| <= cfg.size
    ensures var w := Receive(cfg, c, port(k, f));
            Ready(cfg, w) && Returned(c, w) == [f]
  {
    OneFrameArrives(cfg, c, f, port(k, f));
    var w := Run(cfg, c, port(k, f));
    assert w.r.log[|c.r.log|..] == [Arrived(cfg, f)];
    OnePacket(Arrived(cfg, f));
  }

  lemma OnePacket(s: Segment)
    requires s.fate == ReaderModel.Packet || s.fate == Full
    ensures PacketsIn([s]) == [s.bytes]
  {
    assert [s][1..] == [] && PacketsIn([]) == [];
  }

  /** A transaction the parties agree on, with PDUs of regular size. */
  ghost predicate Regular(w: Network.Parties, p: Pdu, sent: Pdu, reply: Pdu) {
    Network.Agreed(w, p, sent, reply) && |sent| <= MAX_PDU_SIZE && |reply| <= MAX_PDU_SIZE
  }

  lemma FramesOf(x: Wiring, p: Pdu, sent: Pdu, reply: Pdu)
    requires Wired(x) && Regular(x.parties, p, sent, reply)
    ensures Framed(ReaderOf(x, false), MakeRtu(x.parties.id, sent)) && 3 <= |MakeRtu(x.parties.id, sent)| <= MAX_RTU_SIZE
    ensures Framed(ReaderOf(x, true), MakeRtu(x.parties.id, reply)) && 3 <= |MakeRtu(x.parties.id, reply)| <= MAX_RTU_SIZE
  {
    var w := x.parties;
    GetPduOfMakeRtu(w.id, sent);
    GetPduOfMakeRtu(w.id, reply);
    ExchangeFramed(w.limits, w.id, sent, reply);
    FramesAreFramed(OneWay(false), w.limits, x.cutoff, MAX_RTU_SIZE, MakeRtu(w.id, sent));
    FramesAreFramed(OneWay(true), w.limits, x.cutoff, MAX_RTU_SIZE, MakeRtu(w.id, reply));
  }

  lemma ServerRunsOne(id: Byte, oversize: bool, s: RtuServer.State, e: RtuServer.Event)
    requires s.stopped.None?
    ensures RtuServer.Run(id, oversize, s, [e]) == RtuServer.Step(id, oversize, s, e)
  {
    assert [e][1..] == [];
    var s' := RtuServer.Step(id, oversize, s, e);
    assert RtuServer.Run(id, oversize, s', []) == s';
  }

  lemma ClientRunsOne(limits: Limits, c: RtuClient.State, e: RtuClient.Event)
    ensures RtuClient.Run(limits, c, [e]) == RtuClient.Step(limits, c, e)
  {
    assert [e][1..] == [];
    var c' := RtuClient.Step(limits, c, e);
    assert RtuClient.Run(limits, c', []) == c';
  }

  /** The server's side of a transaction. */
  lemma ServerSide(x: Wiring, s: RtuServer.State, sr: Call, k: nat, p: Pdu, sent: Pdu, reply: Pdu)
    requires Wired(x) && Regular(x.parties, p, sent, reply) && Ready(ReaderOf(x, false), sr) && s.stopped.None?
    ensures var w, frame := x.parties, MakeRtu(x.parties.id, sent);
            var sr' := Receive(ReaderOf(x, false), sr, x.serverPort(k, frame));
            && Ready(ReaderOf(x, false), sr') && |frame| >= 3
            && RtuServer.Run(w.id, w.limits.oversize, s, ServerActions(x, Returned(sr, sr'))) ==
                 RtuServer.Step(w.id, w.limits.oversize, s,
                   RtuServer.PacketRead(frame, Network.Fetched(w.server, FastPdu(frame)), Ok(()), Ok(())))
  {
    var w, frame := x.parties, MakeRtu(x.parties.id, sent);
    FramesOf(x, p, sent, reply);
    FrameReceived(ReaderOf(x, false), x.serverPort, sr, k, frame);
    var e := RtuServer.PacketRead(frame, Network.Fetched(w.server, FastPdu(frame)), Ok(()), Ok(()));
    assert ServerActions(x, [frame]) == [e];
    ServerRunsOne(w.id, w.limits.oversize, s, e);
  }

  /** The way back. */
  lemma ClientSide(x: Wiring, c: RtuClient.State, cr: Call, k: nat, p: Pdu, sent: Pdu, reply: Pdu)
    requires Wired(x) && Regular(x.parties, p, sent, reply) && Ready(ReaderOf(x, true), cr)
    ensures var r := MakeRtu(x.parties.id, reply);
            var cr' := Receive(ReaderOf(x, true), cr, x.clientPort(k, r));
            && Ready(ReaderOf(x, true), cr') && r != []
            && RtuClient.Run(x.parties.limits, c, ClientActions(Returned(cr, cr'))) ==
                 RtuClient.Step(x.parties.limits, c, RtuClient.PacketRead(r, Ok(())))
  {
    var r := MakeRtu(x.parties.id, reply);
    FramesOf(x, p, sent, reply);
    FrameReceived(ReaderOf(x, true), x.clientPort, cr, k, r);
    assert ClientActions([r]) == [RtuClient.PacketRead(r, Ok(()))];
    ClientRunsOne(x.parties.limits, c, RtuClient.PacketRead(r, Ok(())));
  }

  /** A transaction over the wire is the transaction between the loops, and leaves both readers between packets. */
  lemma WireIsTransparent(x: Wiring, line: Line, k: nat, p: Pdu, sent: Pdu, reply: Pdu)
    requires Wired(x) && Open(x, line) && Regular(x.parties, p, sent, reply)
    requires line.net.client.phase.Idle? && line.net.server.stopped.None?
    ensures var line' := Transact(x, line, k, p);
            Open(x, line') && line'.net == Network.Transact(x.parties, line.net, 0, p)
  {
    var w, net := x.parties, line.net;
    var frame, r := MakeRtu(w.id, sent), MakeRtu(w.id, reply);
    FramesOf(x, p, sent, reply);
    var c := RtuClient.Step(w.limits, net.client, RtuClient.Start(0, w.id, p, Network.Fetched(w.client, p), Ok(())));
    assert c.phase.Waiting? && c.phase.act.frame == frame;
    ServerSide(x, net.server, line.serverReader, k, p, sent, reply);
    Network.ServerTurn(w, net.server, p, sent, reply);
    var s := RtuServer.Step(w.id, w.limits.oversize, net.server,
      RtuServer.PacketRead(frame, Network.Fetched(w.server, FastPdu(frame)), Ok(()), Ok(())));
    assert s.out[|net.server.out|..] == [r];
    OneFrame(r);
    ClientSide(x, c, line.clientReader, k, p, sent, reply);
  }

  lemma OneFrame(r: Packet)
    ensures Concat([r]) == r
  {
    assert [r][1..] == [];
  }

  // ----- whole transfers

  type Exchange = (Line, nat, Pdu) -> Line

  function Over(x: Wiring): Exchange { (line: Line, k: nat, p: Pdu) => Transact(x, line, k, p) }

  /** DoTransactions over the wire, from the k-th transaction on. */
  function TransactAll(exchange: Exchange, line: Line, k: nat, requests: seq<Pdu>): (nat, Line)
    decreases |requests|
  {
    if requests == [] then (0, line)
    else
      var line1 := exchange(line, k, requests[0]);
      if !Network.Succeeded(line1.net) then (0, line1)
      else var r := TransactAll(exchange, line1, k + 1, requests[1..]); (1 + r.0, r.1)
  }

  /** The parties can carry out the transaction for p. */
  ghost predicate Possible(w: Network.Parties, p: Pdu) {
    exists sent: Pdu, reply: Pdu :: Regular(w, p, sent, reply)
  }

  ghost predicate All(possible: Pdu -> bool, requests: seq<Pdu>) {
    requests == [] || (possible(requests[0]) && All(possible, requests[1..]))
  }

  lemma PossibleSucceeds(x: Wiring, line: Line, k: nat, p: Pdu)
    requires Wired(x) && Open(x, line) && Possible(x.parties, p) && Network.Ready(line.net, line.net)
    ensures var line' := Over(x)(line, k, p);
            && Open(x, line') && line'.net == Network.Between(x.parties)(line.net, p)
            && Network.Succeeded(line'.net) && Network.Ready(line'.net, line'.net)
  {
    var sent: Pdu, reply: Pdu :| Regular(x.parties, p, sent, reply);
    WireIsTransparent(x, line, k, p, sent, reply);
    Network.Transacted(x.parties, line.net, 0, p, sent, reply);
  }

  /** What the possible exchanges over an open line do is what transactions between the loops do, and the line stays open. */
  ghost predicate Transparent(exchange: Exchange, transact: Network.Transaction, open: Line -> bool, possible: Pdu -> bool) {
    forall line: Line, k: nat, p: Pdu {:trigger exchange(line, k, p)} ::
      open(line) && possible(p) && Network.Ready(line.net, line.net) ==>
        var line' := exchange(line, k, p);
        && open(line') && line'.net == transact(line.net, p)
        && Network.Succeeded(line'.net) && Network.Ready(line'.net, line'.net)
  }

  lemma LinesAreTransparent(x: Wiring)
    requires Wired(x)
    ensures Transparent(Over(x), Network.Between(x.parties), line => Open(x, line), p => Possible(x.parties, p))
  {
    forall line: Line, k: nat, p: Pdu | Open(x, line) && Possible(x.parties, p) && Network.Ready(line.net, line.net)
      ensures var line' := Over(x)(line, k, p);
              && Open(x, line') && line'.net == Network.Between(x.parties)(line.net, p)
              && Network.Succeeded(line'.net) && Network.Ready(line'.net, line'.net)
    {
      PossibleSucceeds(x, line, k, p);
    }
  }

  /** Transactions over the wire are those between the loops, one after the other. */
  lemma {:induction false} AllTransparent(exchange: Exchange, transact: Network.Transaction, open: Line -> bool, possible: Pdu -> bool,
      line: Line, k: nat, requests: seq<Pdu>)
    requires Transparent(exchange, transact, open, possible)
    requires open(line) && All(possible, requests) && Network.Ready(line.net, line.net)
    ensures var r, direct := TransactAll(exchange, line, k, requests), Network.TransactAll(transact, line.net, requests);
            r.0 == direct.0 && r.1.net == direct.1 && open(r.1)
    decreases |requests|
  {
    if requests != [] {
      AllTransparent(exchange, transact, open, possible, exchange(line, k, requests[0]), k + 1, requests[1..]);
    }
  }

  lemma HeaderIsPossible(w: Network.Parties, f: Byte, address: Word, q: Word, memory: Handler.Values, low: nat, high: nat)
    requires Network.Able(w, f, memory, low, high) && 0 < q <= MaxPerPacket(f) && low <= address && address + q <= high
    ensures MakeRequestHeader(f, address, q).Ok? && Possible(w, MakeRequestHeader(f, address, q).value)
  {
    Transactions.HeaderMade(f, address, q);
    var p := MakeRequestHeader(f, address, q).value;
    assert Handler.Fetch(Network.Source(w, f), f, address, q) == Ok(Network.Slice(memory, address, q));
    if 1 <= f <= 4 {
      Network.ReadAgrees(w, f, address, q);
      var reply := MakeReadReply(p, Handler.OnRead(w.server, p).value);
      assert Regular(w, p, p, reply);
    } else {
      Network.WriteAgrees(w, f, address, q);
      var v := Handler.Fetch(w.client, f, address, q).value;
      var sent := Transactions.WriteRequest(f, address, v).value;
      assert Regular(w, p, sent, MakeWriteReply(sent));
    }
  }

  /** All headers that `make` makes in the range are possible. */
  ghost predicate Serves(possible: Pdu -> bool, make: Requests.HeaderMaker, max: nat, low: nat, high: nat) {
    forall a: nat, q: nat {:trigger make(a, q)} :: low <= a && 0 < q <= max && a + q <= high ==> possible(make(a, q))
  }

  lemma HeadersArePossible(w: Network.Parties, f: Byte, memory: Handler.Values, low: nat, high: nat, make: Requests.HeaderMaker)
    requires Network.Able(w, f, memory, low, high) && Requests.Makes(f, make)
    ensures Serves(p => Possible(w, p), make, MaxPerPacket(f), low, high)
  {
    forall a: nat, q: nat | low <= a && 0 < q <= MaxPerPacket(f) && a + q <= high
      ensures Possible(w, make(a, q))
    {
      HeaderIsPossible(w, f, a, q, memory, low, high);
    }
  }

  lemma {:induction false} SplitIsServed(possible: Pdu -> bool, make: Requests.HeaderMaker, served: nat, low: nat, high: nat,
      address: nat, quantity: nat, max: nat)
    requires Serves(possible, make, served, low, high) && 0 < max <= served && low <= address && address + quantity <= high
    ensures All(possible, Requests.Split(make, address, quantity, max))
    decreases quantity
  {
    if quantity > 0 {
      var q := Min(quantity, max);
      var rest := Requests.Split(make, address + q, quantity - q, max);
      SplitIsServed(possible, make, served, low, high, address + q, quantity - q, max);
      assert ([make(address, q)] + rest)[1..] == rest;
    }
  }

  /**
   A whole transfer over the wire. For every function code, range and size of request, and however the ports on both sides
   cut up the bytes of each frame: all transactions succeed, no error is counted, the side that takes the values is handed
   exactly those of the range, and both readers end between packets.
   */
  lemma RangeTransferredOverTheWire(
      x: Wiring, line: Line, f: Byte, address: nat, quantity: nat, max: nat, memory: Handler.Values)
    requires Wired(x) && Open(x, line) && Network.Ready(line.net, line.net)
    requires Network.Able(x.parties, f, memory, address, address + quantity) && 0 < max <= MaxPerPacket(f)
    ensures var requests := Requests.Split(Requests.HeadersOf(f), address, quantity, max);
            var r := TransactAll(Over(x), line, 0, requests);
            && r.0 == |requests| && Network.Ready(r.1.net, line.net) && Open(x, r.1)
            && Network.Progress(x.parties, f, memory, address, line.net, r.1.net) == Some(address + quantity)
  {
    var open, possible := (line: Line) => Open(x, line), (p: Pdu) => Possible(x.parties, p);
    var make := Requests.HeadersOf(f);
    Network.HeadersMakes(f);
    HeadersArePossible(x.parties, f, memory, address, address + quantity, make);
    SplitIsServed(possible, make, MaxPerPacket(f), address, address + quantity, address, quantity, max);
    Network.RangeTransferred(x.parties, line.net, f, address, quantity, max, memory);
    LinesAreTransparent(x);
    AllTransparent(Over(x), Network.Between(x.parties), open, possible, line, 0, Requests.Split(make, address, quantity, max));
  }
}
