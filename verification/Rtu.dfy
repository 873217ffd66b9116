/** RTU packets: slave id, PDU, checksum (serial_rtu.go). */
module Rtu {
  import opened Bytes
  import opened Modbus
  import opened RtuSize
  import Crc

  type Packet = seq<Byte>

  function MakeRtu(slaveId: Byte, p: Pdu): Packet { Crc.Sum([slaveId] + p) }

  /** The PDU inside, without any test. */
  function FastPdu(r: Packet): Pdu
    requires |r| >= 3
  {
    r[1..|r| - 2]
  }

  function GetPdu(r: Packet): Result<Pdu> {
    if |r| < SMALLEST_RTU_SIZE then Err(Other)
    else if !Crc.Valid(r) then Err(CrcError)
    else Ok(FastPdu(r))
  }

  /** What is put into a packet comes out of it, for every PDU long enough to be one. */
  lemma GetPduOfMakeRtu(slaveId: Byte, p: Pdu)
    ensures var r := MakeRtu(slaveId, p);
            && |r| == |p| + 3 && r[0] == slaveId && FastPdu(r) == p
            && GetPdu(r) == if |p| >= 2 then Ok(p) else Err(Other)
  {
    Crc.SumIsValid([slaveId] + p);
  }

  /** Every packet accepted is the packet that would have been made. */
  lemma MakeRtuOfGetPdu(r: Packet)
    requires GetPdu(r).Ok?
    ensures r == MakeRtu(r[0], GetPdu(r).value) && |GetPdu(r).value| >= 2
  {
    Crc.ValidIsSum(r);
    assert r[..|r| - 2] == [r[0]] + r[1..|r| - 2];
  }
}
