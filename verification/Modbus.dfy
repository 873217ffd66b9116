/** Function codes and protocol data units (modbus.go). */
module Modbus {
  import opened Bytes

  type Pdu = seq<Byte>

  /** The errors of the library: a MODBUS exception code, the local "not supported", a bad checksum, or any other. */
  datatype Failure = Exception(code: Byte) | NotSupported | CrcError | Other

  datatype Result<+T> = Ok(value: T) | Err(error: Failure) {
    predicate IsFailure() { Err? }

    function PropagateFailure<U>(): Result<U>
      requires Err?
    {
      Err(error)
    }

    function Extract(): T
      requires Ok?
    {
      value
    }
  }

  datatype Option<+T> = None | Some(value: T)

  const ILLEGAL_FUNCTION: Byte := 1
  const ILLEGAL_DATA_ADDRESS: Byte := 2
  const ILLEGAL_DATA_VALUE: Byte := 3
  const SERVER_DEVICE_FAILURE: Byte := 4

  const READ_COILS: Byte := 1
  const READ_HOLDING_REGISTERS: Byte := 3
  const READ_INPUT_REGISTERS: Byte := 4
  const WRITE_SINGLE_COIL: Byte := 5
  const WRITE_SINGLE_REGISTER: Byte := 6
  const WRITE_MULTIPLE_COILS: Byte := 15
  const WRITE_MULTIPLE_REGISTERS: Byte := 16
  const MASK_WRITE_REGISTER: Byte := 22
  const READ_WRITE_MULTIPLE_REGISTERS: Byte := 23

  const MAX_RANGE: Word := 0xFFFF
  const MAX_RTU_SIZE := 256
  const MAX_PDU_SIZE := 253

  // ----- function codes

  predicate Supported(f: Byte) { 0 < f < 7 || 14 < f < 17 }

  function MaxPerPacket(f: Byte): Word {
    match f
    case 1 | 2 => 2000
    case 3 | 4 => 125
    case 5 | 6 => 1
    case 15 => 0x07B0
    case 16 => 0x007B
    case _ => 0
  }

  predicate IsUint16(f: Byte) {
    f == READ_HOLDING_REGISTERS || f == READ_INPUT_REGISTERS || f == WRITE_SINGLE_REGISTER || f == WRITE_MULTIPLE_REGISTERS
  }

  predicate IsSingle(f: Byte) { f == WRITE_SINGLE_COIL || f == WRITE_SINGLE_REGISTER }

  predicate IsWriteToServer(f: Byte) {
    || f == WRITE_SINGLE_COIL || f == WRITE_SINGLE_REGISTER || f == WRITE_MULTIPLE_COILS || f == WRITE_MULTIPLE_REGISTERS
    || f == MASK_WRITE_REGISTER || f == READ_WRITE_MULTIPLE_REGISTERS
  }

  predicate IsReadToServer(f: Byte) { READ_COILS <= f <= READ_INPUT_REGISTERS || f == READ_WRITE_MULTIPLE_REGISTERS }

  predicate IsError(f: Byte) { f > 0x7F }

  /** The code without its error flag. */
  function WithoutError(f: Byte): Byte { f % 128 }

  function WithError(f: Byte): Byte { if IsError(f) then f else f + 128 }

  /** How many values fit in a PDU of `size` bytes; the arithmetic is that of uint16. */
  function MaxPerPacketSized(f: Byte, size: int): Word {
    var s := (if size > MAX_PDU_SIZE then MAX_PDU_SIZE else size) % 0x1_0000;
    match f
    case 1 | 2 =>
      if s < 4 then 8 else ((if s == MAX_PDU_SIZE then s - 1 else s) - 2) * 8 % 0x1_0000
    case 3 | 4 => if s < 6 then 1 else (s - 2) / 2
    case 5 | 6 => 1
    case 15 =>
      if s < 8 then 8 else ((if s == MAX_PDU_SIZE then s - 1 else s) - 6) * 8 % 0x1_0000
    case 16 => if s < 10 then 1 else (s - 6) / 2
    case _ => 0
  }

  // ----- fields

  function High(w: Word): Byte { w / 256 }

  function Low(w: Word): Byte { w % 256 }

  function Join(high: Byte, low: Byte): Word { high * 256 + low }

  function FunctionCode(p: Pdu): Byte { if p == [] then 0 else p[0] }

  function Address(p: Pdu): Word
    requires |p| >= 3
  {
    Join(p[1], p[2])
  }

  function RequestCount(p: Pdu): Result<Word> {
    if IsSingle(FunctionCode(p)) then Ok(1)
    else if |p| < 5 then Err(Exception(ILLEGAL_DATA_VALUE))
    else Ok(Join(p[3], p[4]))
  }

  // ----- requests

  /** A request without its data. */
  function MakeRequestHeader(f: Byte, address: Word, quantity: Word): Result<Pdu> {
    if MaxPerPacket(f) == 0 then Err(Exception(ILLEGAL_FUNCTION))
    else if quantity == 0 then Err(Exception(ILLEGAL_DATA_ADDRESS))
    else if quantity > MaxPerPacket(f) then Err(Exception(ILLEGAL_DATA_ADDRESS))
    else if address + quantity > MAX_RANGE then Err(Exception(ILLEGAL_DATA_ADDRESS))
    else
      var start := [f, High(address), Low(address)];
      if IsSingle(f) then Ok(start)
      else
        var header := start + [High(quantity), Low(quantity)];
        match f
        case 15 => Ok(header + [((quantity + 7) / 8) % 256])
        case 16 => Ok(header + [(quantity * 2) % 256])
        case _ => Ok(header)
  }

  function ValidateRequest(p: Pdu): Result<()> {
    if !Supported(FunctionCode(p)) then Err(Exception(ILLEGAL_FUNCTION))
    else if |p| < 3 then Err(Exception(ILLEGAL_DATA_ADDRESS))
    else Ok(())
  }

  /** The data of a write request. */
  function RequestValues(oversize: bool, p: Pdu): Result<seq<Byte>> {
    var f := FunctionCode(p);
    var data := |p| - 6;
    if f == 0 then Err(Exception(ILLEGAL_FUNCTION))
    else if IsSingle(f) then
      if |p| != 5 then Err(Exception(ILLEGAL_DATA_VALUE)) else Ok(p[3..])
    else if data < 1 then Err(Exception(ILLEGAL_DATA_VALUE))
    else if data != p[5] && !oversize then Err(Exception(ILLEGAL_DATA_VALUE))
    else
      var count :- RequestCount(p);
      if count + Address(p) > MAX_RANGE then Err(Exception(ILLEGAL_DATA_ADDRESS))
      else if data != (if IsUint16(f) then count * 2 else (count + 7) / 8) then Err(Exception(ILLEGAL_DATA_VALUE))
      else Ok(p[6..])
  }

  /** A request header completed with the data to write; nothing for a code that writes nothing. */
  function MakeWriteRequest(header: Pdu, data: seq<Byte>): Pdu
    requires FunctionCode(header) in {5, 6} ==> |header| >= 3
    requires FunctionCode(header) in {15, 16} ==> |header| >= 6
  {
    match FunctionCode(header)
    case 5 | 6 => header[..3] + data
    case 15 | 16 => header[..6] + data
    case _ => []
  }

  // ----- replies

  function MakeReadReply(p: Pdu, data: seq<Byte>): Pdu { [FunctionCode(p), |data| % 256] + data }

  function MakeWriteReply(p: Pdu): Pdu { if |p| > 5 then p[..5] else p }

  function ReplyValues(p: Pdu): Result<seq<Byte>> {
    var l := |p| - 2;
    if l < 1 || l != p[1] then Err(Other) else Ok(p[2..])
  }

  function ToExceptionCode(e: Failure): Byte {
    match e
    case Exception(code) => code
    case NotSupported => ILLEGAL_FUNCTION
    case CrcError | Other => SERVER_DEVICE_FAILURE
  }

  function ExceptionReply(p: Pdu, code: Byte): Pdu { [WithError(FunctionCode(p)), code] }

  /** Whether `answer` answers `ask`, normally or with an exception. */
  predicate MatchPdu(ask: Pdu, answer: Pdu) { FunctionCode(ask) == FunctionCode(answer) % 128 }

  // ----- sizes inferred from a header (packet_reader.go)

  /** The oversize setting: whether it is on, and the RTU size allowed then. */
  datatype Limits = Limits(oversize: bool, maxRtu: int)

  function MaxPduSize(limits: Limits): nat {
    if limits.oversize && limits.maxRtu - 3 > MAX_PDU_SIZE then limits.maxRtu - 3 else MAX_PDU_SIZE
  }

  function Min(a: int, b: int): int { if b < a then b else a }

  /** Division as Go has it, towards zero. */
  function Quotient(a: int, b: int): int
    requires b > 0
  {
    if a >= 0 then a / b else -(-a / b)
  }

  /** The size of the PDU that `header` starts, or the shortest it can be. */
  function PduSize(limits: Limits, header: seq<Byte>, isClient: bool): nat {
    if |header| < 2 then 2
    else
      var f := WithoutError(header[0]);
      if IsError(header[0]) || !Supported(f) then 2
      else if isClient == IsWriteToServer(f) then 5
      else if isClient then (2 as nat) + header[1]
      else if IsSingle(f) then 5
      else if |header| < 6 then 6
      else if limits.oversize then
        var n: nat := Join(header[3], header[4]);
        Min(MaxPduSize(limits), if IsUint16(f) then 6 + n * 2 else 6 + Quotient(n - 1, 8) + 1)
      else (6 as nat) + header[5]
  }

  /** Whether r and a are a request and its reply (failover.go). */
  predicate IsRequestReply(limits: Limits, r: Pdu, a: Pdu) {
    && FunctionCode(r) == FunctionCode(a)
    && PduSize(limits, r, false) == |r|
    && PduSize(limits, a, true) == |a|
    && RequestCount(r).Ok?
    && var c := RequestCount(r).value;
       match FunctionCode(r)
       case 1 | 2 => ((c + 7) % 0x1_0000 / 8) % 256 == a[1]
       case 3 | 4 => (c * 2 % 0x1_0000) % 256 == a[1]
       case 5 | 6 | 15 | 16 => r[..5] == a[..5]
       case _ => false
  }
}
