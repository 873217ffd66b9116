/** Modbus over TCP (tcp_server.go): framing in a buffer that requests and replies share, and one connection of the server. */
module Tcp {
  import opened Bytes
  import opened Modbus
  import opened Seqs
  import opened Handler
  import RtuServer

  const TCP_HEADER := 6
  const MBAP_HEADER := 7

  /** A connection: the bytes that still arrive before it ends, and those written to it. */
  class Connection {
    var input: seq<Byte>
    var output: seq<Byte>

    constructor (input: seq<Byte>)
      ensures this.input == input && output == []
    {
      this.input, output := input, [];
    }

    /** io.ReadFull into bs[low..high]: everything, or what there is and an error. */
    method ReadFull(bs: array<Byte>, low: nat, high: nat) returns (n: nat, failed: bool)
      requires low <= high <= bs.Length
      modifies this`input, bs
      ensures n == Min(|old(input)|, high - low) && failed == (n < high - low)
      ensures input == old(input)[n..]
      ensures bs[..] == old(bs[..low]) + old(input)[..n] + old(bs[low + n..])
    {
      n := Min(|input|, high - low);
      failed := n < high - low;
      forall k | 0 <= k < n { bs[low + k] := input[k]; }
      input := input[n..];
    }

    method Write(data: seq<Byte>)
      modifies this`output
      ensures output == old(output) + data
    {
      output := output + data;
    }
  }

  // ----- framing

  /** How many bytes readTCP takes from the connection, and whether it fails. */
  function ReadOutcome(input: seq<Byte>, size: nat): (r: (nat, bool))
    ensures r.0 <= |input|
    ensures !r.1 ==> MBAP_HEADER + 2 <= r.0 <= size
  {
    if |input| < TCP_HEADER then (|input|, true)
    else if input[2] != 0 || input[3] != 0 then (TCP_HEADER, true)
    else
      var l: nat := Join(input[4], input[5]);
      if l <= 2 || size < l + TCP_HEADER then (TCP_HEADER, true)
      else if |input| < l + TCP_HEADER then (|input|, true)
      else (l + TCP_HEADER, false)
  }

  /** Reading the header and then n more bytes is reading them at once. */
  lemma TwoReads(input: seq<Byte>, buffer: seq<Byte>, n: nat)
    requires TCP_HEADER + n <= |input| && TCP_HEADER + n <= |buffer|
    ensures var first := input[..TCP_HEADER] + buffer[TCP_HEADER..];
            first[..TCP_HEADER] + input[TCP_HEADER..][..n] + first[TCP_HEADER + n..]
              == input[..TCP_HEADER + n] + buffer[TCP_HEADER + n..]
    ensures input[TCP_HEADER..][n..] == input[TCP_HEADER + n..]
  {}

  method ReadTcp(conn: Connection, bs: array<Byte>) returns (n: nat, failed: bool)
    requires bs.Length >= TCP_HEADER
    modifies conn`input, bs
    ensures (n, failed) == ReadOutcome(old(conn.input), bs.Length)
    ensures conn.input == old(conn.input)[n..]
    ensures bs[..] == old(conn.input)[..n] + old(bs[n..])
  {
    ghost var input, buffer := conn.input, bs[..];
    n, failed := conn.ReadFull(bs, 0, TCP_HEADER);
    assert bs[..] == input[..n] + buffer[n..];
    if !failed {
      n, failed := ReadBody(conn, bs, input, buffer);
    }
  }

  /** The rest of readTCP, once the six bytes of the TCP header are in the buffer. */
  method ReadBody(conn: Connection, bs: array<Byte>, ghost input: seq<Byte>, ghost buffer: seq<Byte>) returns (n: nat, failed: bool)
    requires |input| >= TCP_HEADER && |buffer| == bs.Length >= TCP_HEADER
    requires conn.input == input[TCP_HEADER..] && bs[..] == input[..TCP_HEADER] + buffer[TCP_HEADER..]
    modifies conn`input, bs
    ensures (n, failed) == ReadOutcome(input, bs.Length)
    ensures conn.input == input[n..] && bs[..] == input[..n] + buffer[n..]
  {
    assert forall i :: 0 <= i < TCP_HEADER ==> bs[i] == bs[..][i] == input[i];
    var l: nat := Join(bs[4], bs[5]);
    if bs[2] != 0 || bs[3] != 0 || l <= 2 || bs.Length < l + TCP_HEADER { return TCP_HEADER, true; }
    n, failed := conn.ReadFull(bs, TCP_HEADER, l + TCP_HEADER);
    TwoReads(input, buffer, n);
    n := n + TCP_HEADER;
  }

  /** The frame for a PDU, with the transaction, protocol and unit ids of the header in front of the buffer. */
  function Framed(header: seq<Byte>, p: Pdu): seq<Byte>
    requires |header| >= MBAP_HEADER
  {
    header[..4] + [(|p| + 1) / 256 % 256, (|p| + 1) % 256] + [header[6]] + p
  }

  /** Copies what fits, and panics if that is not all: nothing is written then. */
  method WriteTcp(conn: Connection, bs: array<Byte>, p: Pdu) returns (panicked: bool)
    requires bs.Length >= MBAP_HEADER
    modifies conn`output, bs
    ensures panicked == (|p| + MBAP_HEADER > bs.Length)
    ensures conn.output == old(conn.output) + if panicked then [] else Framed(old(bs[..]), p)
    ensures var n := Min(|p| + MBAP_HEADER, bs.Length);
            bs[..] == Framed(old(bs[..]), p)[..n] + old(bs[n..])
  {
    ghost var frame := Framed(bs[..], p);
    var l := |p| + 1;
    bs[4] := l / 256 % 256;
    bs[5] := l % 256;
    var n := Min(|p|, bs.Length - MBAP_HEADER);
    forall i | 0 <= i < n { bs[MBAP_HEADER + i] := p[i]; }
    assert bs[..n + MBAP_HEADER] == frame[..n + MBAP_HEADER];
    if |p| + MBAP_HEADER > bs.Length { return true; }
    assert frame[..n + MBAP_HEADER] == frame;
    conn.Write(bs[..|p| + MBAP_HEADER]);
    return false;
  }

  /** What a frame carries. */
  datatype Message = Message(transaction: (Byte, Byte), unit: Byte, pdu: Pdu)

  function EncodeMessage(m: Message): seq<Byte> {
    Framed([m.transaction.0, m.transaction.1, 0, 0, 0, 0, m.unit], m.pdu)
  }

  function EncodeAll(ms: seq<Message>): seq<Byte> {
    if ms == [] then [] else EncodeMessage(ms[0]) + EncodeAll(ms[1..])
  }

  function Unframe(frame: seq<Byte>): Message
    requires |frame| >= MBAP_HEADER
  {
    Message((frame[0], frame[1]), frame[6], frame[MBAP_HEADER..])
  }

  /** Reading frames with readTCP until it fails. */
  function DecodeAll(input: seq<Byte>, size: nat): seq<Message>
    decreases |input|
  {
    var (n, failed) := ReadOutcome(input, size);
    if failed then [] else [Unframe(input[..n])] + DecodeAll(input[n..], size)
  }

  predicate Fits(m: Message, size: nat) { 2 <= |m.pdu| && |m.pdu| + MBAP_HEADER <= size && |m.pdu| < 0xFFFF }

  lemma LengthField(n: nat)
    requires n < 0x1_0000
    ensures Join(n / 256 % 256, n % 256) == n
  {}

  /** A frame written under protocol 0 is read back exactly if its PDU has two bytes or more and fits the reader's buffer. */
  lemma FrameRead(m: Message, more: seq<Byte>, size: nat)
    requires |m.pdu| < 0xFFFF
    ensures var input := EncodeMessage(m) + more;
            && (ReadOutcome(input, size) == (|m.pdu| + MBAP_HEADER, false) <==> Fits(m, size))
            && (!Fits(m, size) ==> ReadOutcome(input, size).1)
            && input[..|m.pdu| + MBAP_HEADER] == EncodeMessage(m) && input[|m.pdu| + MBAP_HEADER..] == more
            && Unframe(EncodeMessage(m)) == m
  {
    LengthField(|m.pdu| + 1);
    var f := EncodeMessage(m);
    assert |f| == |m.pdu| + MBAP_HEADER && f[MBAP_HEADER..] == m.pdu;
    assert (f + more)[..|f|] == f && (f + more)[|f|..] == more;
    assert forall i :: 0 <= i < MBAP_HEADER ==> (f + more)[i] == f[i];
  }

  /** Any sequence of messages comes out of the stream as it went in, up to the first that does not fit. */
  lemma {:induction false} StreamRoundTrip(ms: seq<Message>, size: nat)
    requires forall m :: m in ms ==> Fits(m, size)
    ensures DecodeAll(EncodeAll(ms), size) == ms
  {
    if ms != [] {
      assert Fits(ms[0], size);
      FrameRead(ms[0], EncodeAll(ms[1..]), size);
      StreamRoundTrip(ms[1..], size);
    }
  }

  // ----- one connection of the server

  /** What the handler's OnRead and OnWrite return for the i-th request, if they are called. */
  datatype Handling = Handling(fetched: nat -> Result<seq<Byte>>, taken: nat -> Result<()>)

  /** The reply to the i-th request. */
  type Responder = (nat, Pdu) -> Pdu

  function ReplyTo(oversize: bool, h: Handling): Responder {
    (i: nat, p: Pdu) => RtuServer.Reply(oversize, p, h.fetched(i), h.taken(i))
  }

  /**
   Everything written to a connection on which `input` arrives, and whether the server then panics. It stops at the first
   frame or request that it cannot take, or at the first reply that does not fit the buffer.
   */
  function Served(reply: Responder, i: nat, input: seq<Byte>, size: nat): (seq<Byte>, bool)
    decreases |input|
  {
    var (n, failed) := ReadOutcome(input, size);
    if failed || ValidateRequest(input[MBAP_HEADER..n]).Err? then ([], false)
    else
      var q := reply(i, input[MBAP_HEADER..n]);
      if |q| + MBAP_HEADER > size then ([], true)
      else var rest := Served(reply, i + 1, input[n..], size); (Framed(input, q) + rest.0, rest.1)
  }

  /** One turn of the loop that serves a connection. */
  method ServeRequest(conn: Connection, rb: array<Byte>, oversize: bool, h: Handling, i: nat)
    returns (closed: bool, panicked: bool)
    requires rb.Length >= MBAP_HEADER
    modifies conn, rb
    ensures panicked ==> closed
    ensures var before := Served(ReplyTo(oversize, h), i, old(conn.input), rb.Length);
            var after := if closed then ([], panicked) else Served(ReplyTo(oversize, h), i + 1, conn.input, rb.Length);
            old(conn.output) + before.0 == conn.output + after.0 && before.1 == after.1
    ensures !closed ==> |conn.input| < |old(conn.input)|
  {
    ghost var input, output := conn.input, conn.output;
    var n, failed := ReadTcp(conn, rb);
    if failed { return true, false; }
    var p := rb[MBAP_HEADER..n];
    assert p == input[MBAP_HEADER..n];
    if ValidateRequest(p).Err? { return true, false; }
    var reply := Answer(oversize, p, h.fetched(i), h.taken(i));
    SameHeader(rb[..], input, n, reply);
    panicked := WriteTcp(conn, rb, reply);
    Regroup(output, Framed(input, reply), Served(ReplyTo(oversize, h), i + 1, conn.input, rb.Length).0);
    closed := panicked;
  }

  lemma SameHeader(buffer: seq<Byte>, input: seq<Byte>, n: nat, reply: Pdu)
    requires MBAP_HEADER <= n <= |input| && n <= |buffer| && buffer[..n] == input[..n]
    ensures Framed(buffer, reply) == Framed(input, reply)
  {
    assert forall i :: 0 <= i < MBAP_HEADER ==> buffer[i] == buffer[..n][i] == input[..n][i] == input[i];
    assert buffer[..4] == input[..4];
  }

  method ServeConnection(conn: Connection, rb: array<Byte>, oversize: bool, h: Handling) returns (panicked: bool)
    requires rb.Length >= MBAP_HEADER
    modifies conn, rb
    ensures var served := Served(ReplyTo(oversize, h), 0, old(conn.input), rb.Length);
            conn.output == old(conn.output) + served.0 && panicked == served.1
  {
    ghost var served := Served(ReplyTo(oversize, h), 0, conn.input, rb.Length);
    var i := 0;
    var closed := false;
    panicked := false;
    while !closed
      invariant panicked ==> closed
      invariant var left := if closed then ([], panicked) else Served(ReplyTo(oversize, h), i, conn.input, rb.Length);
                conn.output + left.0 == old(conn.output) + served.0 && left.1 == served.1
      decreases !closed, |conn.input|
    {
      closed, panicked := ServeRequest(conn, rb, oversize, h, i);
      i := i + 1;
    }
  }

  /** The handler is called and its result made a reply. */
  method Answer(oversize: bool, p: Pdu, fetched: Result<seq<Byte>>, taken: Result<()>) returns (reply: Pdu)
    requires ValidateRequest(p).Ok?
    ensures reply == RtuServer.Reply(oversize, p, fetched, taken)
  {
    if IsReadToServer(FunctionCode(p)) {
      if fetched.Err? { return ExceptionReply(p, ToExceptionCode(fetched.error)); }
      return MakeReadReply(p, fetched.value);
    }
    var data := RequestValues(oversize, p);
    if data.Err? { return ExceptionReply(p, ToExceptionCode(data.error)); }
    if taken.Err? { return ExceptionReply(p, ToExceptionCode(taken.error)); }
    return MakeWriteReply(p);
  }

  // ----- requests in, replies out

  /** The replies due for requests, from the i-th on: each under the transaction and unit of its request. */
  function Replies(reply: Responder, i: nat, requests: seq<Message>): seq<Message>
    decreases |requests|
  {
    if requests == [] then []
    else [requests[0].(pdu := reply(i, requests[0].pdu))] + Replies(reply, i + 1, requests[1..])
  }

  /** How many of the requests, from the i-th on, come before the first whose reply does not fit the buffer. */
  function Answered(reply: Responder, i: nat, requests: seq<Message>, size: nat): (k: nat)
    ensures k <= |requests|
    decreases |requests|
  {
    if requests == [] || |reply(i, requests[0].pdu)| + MBAP_HEADER > size then 0
    else 1 + Answered(reply, i + 1, requests[1..], size)
  }

  predicate AllServable(requests: seq<Message>, size: nat) {
    requests == [] || (Fits(requests[0], size) && ValidateRequest(requests[0].pdu).Ok? && AllServable(requests[1..], size))
  }

  /** A reply is framed under the ids of its request. */
  lemma SameIds(m: Message, more: seq<Byte>, reply: Pdu)
    ensures Framed(EncodeMessage(m) + more, reply) == EncodeMessage(m.(pdu := reply))
  {}

  /** The first request on a connection, and what comes after it. */
  lemma ServedCons(reply: Responder, i: nat, m: Message, more: seq<Byte>, size: nat)
    requires Fits(m, size) && ValidateRequest(m.pdu).Ok?
    ensures Served(reply, i, EncodeMessage(m) + more, size) ==
              if |reply(i, m.pdu)| + MBAP_HEADER > size then ([], true)
              else
                var rest := Served(reply, i + 1, more, size);
                (EncodeMessage(m.(pdu := reply(i, m.pdu))) + rest.0, rest.1)
  {
    FrameRead(m, more, size);
    SameIds(m, more, reply(i, m.pdu));
  }

  lemma RepliesFirst(reply: Responder, i: nat, requests: seq<Message>, k: nat)
    requires requests != [] && k <= |requests[1..]|
    ensures var replies := Replies(reply, i, requests[..k + 1]);
            && replies == [requests[0].(pdu := reply(i, requests[0].pdu))] + Replies(reply, i + 1, requests[1..][..k])
            && EncodeAll(replies) == EncodeMessage(requests[0].(pdu := reply(i, requests[0].pdu)))
                 + EncodeAll(Replies(reply, i + 1, requests[1..][..k]))
  {
    assert requests[..k + 1][1..] == requests[1..][..k];
  }

  lemma {:induction false} ServedReplies(reply: Responder, i: nat, requests: seq<Message>, size: nat)
    requires AllServable(requests, size)
    ensures var k := Answered(reply, i, requests, size);
            var served := Served(reply, i, EncodeAll(requests), size);
            served.0 == EncodeAll(Replies(reply, i, requests[..k])) && (served.1 <==> k < |requests|)
    decreases |requests|
  {
    if requests != [] {
      ServedCons(reply, i, requests[0], EncodeAll(requests[1..]), size);
      if |reply(i, requests[0].pdu)| + MBAP_HEADER <= size {
        ServedReplies(reply, i + 1, requests[1..], size);
        RepliesFirst(reply, i, requests, Answered(reply, i + 1, requests[1..], size));
      }
    }
  }

  /** Every reply has two bytes or more. */
  ghost predicate Sensible(reply: Responder) {
    forall i: nat, p: Pdu {:trigger reply(i, p)} :: ValidateRequest(p).Ok? ==> |reply(i, p)| >= 2
  }

  /** The replies that are written fit the buffer. */
  lemma {:induction false} RepliesFit(reply: Responder, i: nat, requests: seq<Message>, size: nat)
    requires size < 0xFFFF && Sensible(reply) && AllServable(requests, size)
    ensures forall m :: m in Replies(reply, i, requests[..Answered(reply, i, requests, size)]) ==> Fits(m, size)
    decreases |requests|
  {
    if requests != [] && |reply(i, requests[0].pdu)| + MBAP_HEADER <= size {
      RepliesFit(reply, i + 1, requests[1..], size);
      RepliesFirst(reply, i, requests, Answered(reply, i + 1, requests[1..], size));
    }
  }

  /** The first reply that does not fit, if there is one, is where the answers end. */
  lemma {:induction false} AnsweredBefore(reply: Responder, i: nat, requests: seq<Message>, size: nat, j: nat)
    requires j < |requests|
    ensures j < Answered(reply, i, requests, size) ==> |reply(i + j, requests[j].pdu)| + MBAP_HEADER <= size
    ensures j == Answered(reply, i, requests, size) ==> |reply(i + j, requests[j].pdu)| + MBAP_HEADER > size
    decreases |requests|
  {
    if j > 0 && |reply(i, requests[0].pdu)| + MBAP_HEADER <= size {
      AnsweredBefore(reply, i + 1, requests[1..], size, j - 1);
      assert i + 1 + (j - 1) == i + j;
    }
  }

  /** A read for which the handler has more data than the buffer has room for behind the headers. */
  predicate TooLong(p: Pdu, fetched: Result<seq<Byte>>, size: nat) {
    IsReadToServer(FunctionCode(p)) && fetched.Ok? && |fetched.value| + MBAP_HEADER + 2 > size
  }

  lemma ReplySize(oversize: bool, p: Pdu, fetched: Result<seq<Byte>>, taken: Result<()>, size: nat)
    requires |p| + MBAP_HEADER <= size && ValidateRequest(p).Ok?
    ensures var n := |RtuServer.Reply(oversize, p, fetched, taken)|;
            n >= 2 && (n + MBAP_HEADER > size <==> TooLong(p, fetched, size))
  {}

  /** The reply to a request that fitted the buffer does not fit it exactly if it carries too much data. */
  lemma ReplyFitsIff(oversize: bool, h: Handling, i: nat, p: Pdu, size: nat)
    requires |p| + MBAP_HEADER <= size && ValidateRequest(p).Ok?
    ensures |ReplyTo(oversize, h)(i, p)| + MBAP_HEADER > size <==> TooLong(p, h.fetched(i), size)
  {
    ReplySize(oversize, p, h.fetched(i), h.taken(i), size);
    assert ReplyTo(oversize, h)(i, p) == RtuServer.Reply(oversize, p, h.fetched(i), h.taken(i));
  }

  lemma RepliesAreSensible(oversize: bool, h: Handling)
    ensures Sensible(ReplyTo(oversize, h))
  {
    forall i: nat, p: Pdu | ValidateRequest(p).Ok?
      ensures |ReplyTo(oversize, h)(i, p)| >= 2
    {
      ReplySize(oversize, p, h.fetched(i), h.taken(i), |p| + MBAP_HEADER);
      assert ReplyTo(oversize, h)(i, p) == RtuServer.Reply(oversize, p, h.fetched(i), h.taken(i));
    }
  }

  lemma {:induction false} Servable(requests: seq<Message>, size: nat, j: nat)
    requires AllServable(requests, size) && j < |requests|
    ensures Fits(requests[j], size) && ValidateRequest(requests[j].pdu).Ok?
    decreases |requests|
  {
    if j > 0 { Servable(requests[1..], size, j - 1); }
  }

  lemma AnsweredInOrder(reply: Responder, requests: seq<Message>, size: nat)
    requires size < 0xFFFF && AllServable(requests, size) && Sensible(reply)
    ensures var served, k := Served(reply, 0, EncodeAll(requests), size), Answered(reply, 0, requests, size);
            DecodeAll(served.0, size) == Replies(reply, 0, requests[..k]) && (served.1 <==> k < |requests|)
  {
    ServedReplies(reply, 0, requests, size);
    RepliesFit(reply, 0, requests, size);
    StreamRoundTrip(Replies(reply, 0, requests[..Answered(reply, 0, requests, size)]), size);
  }

  lemma FirstTooLong(oversize: bool, h: Handling, requests: seq<Message>, size: nat, j: nat)
    requires AllServable(requests, size) && j < |requests| && j <= Answered(ReplyTo(oversize, h), 0, requests, size)
    ensures TooLong(requests[j].pdu, h.fetched(j), size) <==> j == Answered(ReplyTo(oversize, h), 0, requests, size)
  {
    AnsweredBefore(ReplyTo(oversize, h), 0, requests, size, j);
    Servable(requests, size, j);
    ReplyFitsIff(oversize, h, j, requests[j].pdu, size);
  }

  /**
   Whatever well-formed requests a client writes to a connection, one after the other, what it reads back is one reply for
   each, in order, under the transaction and unit ids of its request, up to the first whose reply is too long for the
   buffer; and the server panics exactly if there is such a request.
   */
  lemma RepliesInOrder(oversize: bool, h: Handling, requests: seq<Message>, size: nat) returns (k: nat)
    requires size < 0xFFFF && AllServable(requests, size)
    ensures k <= |requests|
    ensures forall j :: 0 <= j < k ==> !TooLong(requests[j].pdu, h.fetched(j), size)
    ensures k < |requests| ==> TooLong(requests[k].pdu, h.fetched(k), size)
    ensures var served := Served(ReplyTo(oversize, h), 0, EncodeAll(requests), size);
            DecodeAll(served.0, size) == Replies(ReplyTo(oversize, h), 0, requests[..k]) && (served.1 <==> k < |requests|)
  {
    k := Answered(ReplyTo(oversize, h), 0, requests, size);
    RepliesAreSensible(oversize, h);
    AnsweredInOrder(ReplyTo(oversize, h), requests, size);
    forall j | 0 <= j < |requests| && j <= k
      ensures TooLong(requests[j].pdu, h.fetched(j), size) <==> j == k
    {
      FirstTooLong(oversize, h, requests, size, j);
    }
  }

  // ----- which requests make the server panic

  /** The buffer of the server without oversize support. */
  const SERVER_BUFFER := MBAP_HEADER + MAX_PDU_SIZE

  /** With a handler that has enough values, exactly the reads of more than 125 registers or 2008 bools. */
  lemma TooLongCount(server: SimpleHandler, p: Pdu, count: Word)
    requires |p| >= 3 && 1 <= FunctionCode(p) <= 4 && RequestCount(p) == Ok(count) && OnRead(server, p).Ok?
    ensures TooLong(p, OnRead(server, p), SERVER_BUFFER) <==> count > if IsUint16(FunctionCode(p)) then 125 else 2008
  {
    OnReadLength(server, p, count);
  }

  /** A handler whose registers are all zero. */
  function ZeroRegisters(): SimpleHandler {
    SimpleHandler(None, None, None, None, None, None, Some((a: Word, n: Word) => Ok(seq(n, i => 0))), None)
  }

  lemma ZerosAreRead(p: Pdu, count: Word)
    requires |p| >= 5 && FunctionCode(p) == READ_HOLDING_REGISTERS && RequestCount(p) == Ok(count)
    ensures OnRead(ZeroRegisters(), p).Ok?
  {
    var source := ZeroRegisters().readHoldingRegisters;
    assert source.value(Address(p), count) == Ok(seq(count, i => 0));
    assert Call(source, Address(p), count).Ok?;
  }

  /** One request of twelve bytes is enough: it asks for 126 registers. */
  lemma OneRequestPanics(h: Handling) returns (input: seq<Byte>)
    requires forall i :: h.fetched(i) == OnRead(ZeroRegisters(), [3, 0, 0, 0, 126])
    ensures |input| == 12 && Served(ReplyTo(false, h), 0, input, SERVER_BUFFER) == ([], true)
  {
    var p: Pdu := [3, 0, 0, 0, 126];
    var m := Message((0, 1), 1, p);
    input := EncodeMessage(m);
    ZerosAreRead(p, 126);
    TooLongCount(ZeroRegisters(), p, 126);
    ReplyFitsIff(false, h, 0, p, SERVER_BUFFER);
    ServedCons(ReplyTo(false, h), 0, m, [], SERVER_BUFFER);
    assert input + [] == input;
  }
}
