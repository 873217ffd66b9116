/** The table-driven CRC implementation, proved to be the shift register of module Crc. */
module CrcTable {
  import opened Bytes
  import opened Crc

  type Row = s: seq<bv8> | |s| == 16 witness [0, 0, 0, 0, 0, 0, 0, 0, 0, 0, 0, 0, 0, 0, 0, 0]

  // What each index adds to the low byte, sixteen entries a row.
  const HIGH_BYTES_0: Row := [0x00, 0xC1, 0x81, 0x40, 0x01, 0xC0, 0x80, 0x41, 0x01, 0xC0, 0x80, 0x41, 0x00, 0xC1, 0x81, 0x40]
  const HIGH_BYTES_1: Row := [0x01, 0xC0, 0x80, 0x41, 0x00, 0xC1, 0x81, 0x40, 0x00, 0xC1, 0x81, 0x40, 0x01, 0xC0, 0x80, 0x41]
  const HIGH_BYTES_2: Row := [0x01, 0xC0, 0x80, 0x41, 0x00, 0xC1, 0x81, 0x40, 0x00, 0xC1, 0x81, 0x40, 0x01, 0xC0, 0x80, 0x41]
  const HIGH_BYTES_3: Row := [0x00, 0xC1, 0x81, 0x40, 0x01, 0xC0, 0x80, 0x41, 0x01, 0xC0, 0x80, 0x41, 0x00, 0xC1, 0x81, 0x40]
  const HIGH_BYTES_4: Row := [0x01, 0xC0, 0x80, 0x41, 0x00, 0xC1, 0x81, 0x40, 0x00, 0xC1, 0x81, 0x40, 0x01, 0xC0, 0x80, 0x41]
  const HIGH_BYTES_5: Row := [0x00, 0xC1, 0x81, 0x40, 0x01, 0xC0, 0x80, 0x41, 0x01, 0xC0, 0x80, 0x41, 0x00, 0xC1, 0x81, 0x40]
  const HIGH_BYTES_6: Row := [0x00, 0xC1, 0x81, 0x40, 0x01, 0xC0, 0x80, 0x41, 0x01, 0xC0, 0x80, 0x41, 0x00, 0xC1, 0x81, 0x40]
  const HIGH_BYTES_7: Row := [0x01, 0xC0, 0x80, 0x41, 0x00, 0xC1, 0x81, 0x40, 0x00, 0xC1, 0x81, 0x40, 0x01, 0xC0, 0x80, 0x41]
  const HIGH_BYTES_8: Row := [0x01, 0xC0, 0x80, 0x41, 0x00, 0xC1, 0x81, 0x40, 0x00, 0xC1, 0x81, 0x40, 0x01, 0xC0, 0x80, 0x41]
  const HIGH_BYTES_9: Row := [0x00, 0xC1, 0x81, 0x40, 0x01, 0xC0, 0x80, 0x41, 0x01, 0xC0, 0x80, 0x41, 0x00, 0xC1, 0x81, 0x40]
  const HIGH_BYTES_A: Row := [0x00, 0xC1, 0x81, 0x40, 0x01, 0xC0, 0x80, 0x41, 0x01, 0xC0, 0x80, 0x41, 0x00, 0xC1, 0x81, 0x40]
  const HIGH_BYTES_B: Row := [0x01, 0xC0, 0x80, 0x41, 0x00, 0xC1, 0x81, 0x40, 0x00, 0xC1, 0x81, 0x40, 0x01, 0xC0, 0x80, 0x41]
  const HIGH_BYTES_C: Row := [0x00, 0xC1, 0x81, 0x40, 0x01, 0xC0, 0x80, 0x41, 0x01, 0xC0, 0x80, 0x41, 0x00, 0xC1, 0x81, 0x40]
  const HIGH_BYTES_D: Row := [0x01, 0xC0, 0x80, 0x41, 0x00, 0xC1, 0x81, 0x40, 0x00, 0xC1, 0x81, 0x40, 0x01, 0xC0, 0x80, 0x41]
  const HIGH_BYTES_E: Row := [0x01, 0xC0, 0x80, 0x41, 0x00, 0xC1, 0x81, 0x40, 0x00, 0xC1, 0x81, 0x40, 0x01, 0xC0, 0x80, 0x41]
  const HIGH_BYTES_F: Row := [0x00, 0xC1, 0x81, 0x40, 0x01, 0xC0, 0x80, 0x41, 0x01, 0xC0, 0x80, 0x41, 0x00, 0xC1, 0x81, 0x40]

  // What each index leaves in the high byte, sixteen entries a row.
  const LOW_BYTES_0: Row := [0x00, 0xC0, 0xC1, 0x01, 0xC3, 0x03, 0x02, 0xC2, 0xC6, 0x06, 0x07, 0xC7, 0x05, 0xC5, 0xC4, 0x04]
  const LOW_BYTES_1: Row := [0xCC, 0x0C, 0x0D, 0xCD, 0x0F, 0xCF, 0xCE, 0x0E, 0x0A, 0xCA, 0xCB, 0x0B, 0xC9, 0x09, 0x08, 0xC8]
  const LOW_BYTES_2: Row := [0xD8, 0x18, 0x19, 0xD9, 0x1B, 0xDB, 0xDA, 0x1A, 0x1E, 0xDE, 0xDF, 0x1F, 0xDD, 0x1D, 0x1C, 0xDC]
  const LOW_BYTES_3: Row := [0x14, 0xD4, 0xD5, 0x15, 0xD7, 0x17, 0x16, 0xD6, 0xD2, 0x12, 0x13, 0xD3, 0x11, 0xD1, 0xD0, 0x10]
  const LOW_BYTES_4: Row := [0xF0, 0x30, 0x31, 0xF1, 0x33, 0xF3, 0xF2, 0x32, 0x36, 0xF6, 0xF7, 0x37, 0xF5, 0x35, 0x34, 0xF4]
  const LOW_BYTES_5: Row := [0x3C, 0xFC, 0xFD, 0x3D, 0xFF, 0x3F, 0x3E, 0xFE, 0xFA, 0x3A, 0x3B, 0xFB, 0x39, 0xF9, 0xF8, 0x38]
  const LOW_BYTES_6: Row := [0x28, 0xE8, 0xE9, 0x29, 0xEB, 0x2B, 0x2A, 0xEA, 0xEE, 0x2E, 0x2F, 0xEF, 0x2D, 0xED, 0xEC, 0x2C]
  const LOW_BYTES_7: Row := [0xE4, 0x24, 0x25, 0xE5, 0x27, 0xE7, 0xE6, 0x26, 0x22, 0xE2, 0xE3, 0x23, 0xE1, 0x21, 0x20, 0xE0]
  const LOW_BYTES_8: Row := [0xA0, 0x60, 0x61, 0xA1, 0x63, 0xA3, 0xA2, 0x62, 0x66, 0xA6, 0xA7, 0x67, 0xA5, 0x65, 0x64, 0xA4]
  const LOW_BYTES_9: Row := [0x6C, 0xAC, 0xAD, 0x6D, 0xAF, 0x6F, 0x6E, 0xAE, 0xAA, 0x6A, 0x6B, 0xAB, 0x69, 0xA9, 0xA8, 0x68]
  const LOW_BYTES_A: Row := [0x78, 0xB8, 0xB9, 0x79, 0xBB, 0x7B, 0x7A, 0xBA, 0xBE, 0x7E, 0x7F, 0xBF, 0x7D, 0xBD, 0xBC, 0x7C]
  const LOW_BYTES_B: Row := [0xB4, 0x74, 0x75, 0xB5, 0x77, 0xB7, 0xB6, 0x76, 0x72, 0xB2, 0xB3, 0x73, 0xB1, 0x71, 0x70, 0xB0]
  const LOW_BYTES_C: Row := [0x50, 0x90, 0x91, 0x51, 0x93, 0x53, 0x52, 0x92, 0x96, 0x56, 0x57, 0x97, 0x55, 0x95, 0x94, 0x54]
  const LOW_BYTES_D: Row := [0x9C, 0x5C, 0x5D, 0x9D, 0x5F, 0x9F, 0x9E, 0x5E, 0x5A, 0x9A, 0x9B, 0x5B, 0x99, 0x59, 0x58, 0x98]
  const LOW_BYTES_E: Row := [0x88, 0x48, 0x49, 0x89, 0x4B, 0x8B, 0x8A, 0x4A, 0x4E, 0x8E, 0x8F, 0x4F, 0x8D, 0x4D, 0x4C, 0x8C]
  const LOW_BYTES_F: Row := [0x44, 0x84, 0x85, 0x45, 0x87, 0x47, 0x46, 0x86, 0x82, 0x42, 0x43, 0x83, 0x41, 0x81, 0x80, 0x40]

  const CRC_HIGH_BYTES: seq<Row> := [
    HIGH_BYTES_0, HIGH_BYTES_1, HIGH_BYTES_2, HIGH_BYTES_3,
    HIGH_BYTES_4, HIGH_BYTES_5, HIGH_BYTES_6, HIGH_BYTES_7,
    HIGH_BYTES_8, HIGH_BYTES_9, HIGH_BYTES_A, HIGH_BYTES_B,
    HIGH_BYTES_C, HIGH_BYTES_D, HIGH_BYTES_E, HIGH_BYTES_F]

  const CRC_LOW_BYTES: seq<Row> := [
    LOW_BYTES_0, LOW_BYTES_1, LOW_BYTES_2, LOW_BYTES_3,
    LOW_BYTES_4, LOW_BYTES_5, LOW_BYTES_6, LOW_BYTES_7,
    LOW_BYTES_8, LOW_BYTES_9, LOW_BYTES_A, LOW_BYTES_B,
    LOW_BYTES_C, LOW_BYTES_D, LOW_BYTES_E, LOW_BYTES_F]

  // ----- what the tables hold

  function Entry(high: Row, low: Row, j: nat): Register
    requires j < 16
  {
    Register(high[j], low[j])
  }

  /** Every entry is what eight clocks leave of the register holding its index. */
  ghost predicate EntryOk(high: Row, low: Row, base: bv8, j: bv8)
    requires j < 16
  {
    Entry(high, low, j as int) == ShiftN(8, Register(base | j, 0))
  }

  ghost predicate RowOk(high: Row, low: Row, base: bv8) {
    forall j: bv8 :: j < 16 ==> EntryOk(high, low, base, j)
  }

  ghost predicate TablesOk(high: seq<Row>, low: seq<Row>) {
    && |high| == |low| == 16
    && RowOk(high[0], low[0], 0x00) && RowOk(high[1], low[1], 0x10) && RowOk(high[2], low[2], 0x20) && RowOk(high[3], low[3], 0x30)
    && RowOk(high[4], low[4], 0x40) && RowOk(high[5], low[5], 0x50) && RowOk(high[6], low[6], 0x60) && RowOk(high[7], low[7], 0x70)
    && RowOk(high[8], low[8], 0x80) && RowOk(high[9], low[9], 0x90) && RowOk(high[10], low[10], 0xA0) && RowOk(high[11], low[11], 0xB0)
    && RowOk(high[12], low[12], 0xC0) && RowOk(high[13], low[13], 0xD0) && RowOk(high[14], low[14], 0xE0) && RowOk(high[15], low[15], 0xF0)
  }

  lemma RowOfTables(high: seq<Row>, low: seq<Row>, r: bv8)
    requires TablesOk(high, low) && r < 16
    ensures RowOk(high[r as int], low[r as int], r << 4)
  {
    assert (r as int) as bv8 == r;
    if r == 0 { assert RowOk(high[0], low[0], 0x00); }
    if r == 1 { assert RowOk(high[1], low[1], 0x10); }
    if r == 2 { assert RowOk(high[2], low[2], 0x20); }
    if r == 3 { assert RowOk(high[3], low[3], 0x30); }
    if r == 4 { assert RowOk(high[4], low[4], 0x40); }
    if r == 5 { assert RowOk(high[5], low[5], 0x50); }
    if r == 6 { assert RowOk(high[6], low[6], 0x60); }
    if r == 7 { assert RowOk(high[7], low[7], 0x70); }
    if r == 8 { assert RowOk(high[8], low[8], 0x80); }
    if r == 9 { assert RowOk(high[9], low[9], 0x90); }
    if r == 10 { assert RowOk(high[10], low[10], 0xA0); }
    if r == 11 { assert RowOk(high[11], low[11], 0xB0); }
    if r == 12 { assert RowOk(high[12], low[12], 0xC0); }
    if r == 13 { assert RowOk(high[13], low[13], 0xD0); }
    if r == 14 { assert RowOk(high[14], low[14], 0xE0); }
    if r == 15 { assert RowOk(high[15], low[15], 0xF0); }
  }

  /** Row 0 entry by entry. */
  lemma Row0(j: bv8)
    requires j < 16
    ensures Entry(HIGH_BYTES_0, LOW_BYTES_0, j as int) == ShiftN(8, Register(j, 0))
  {
    ShiftN8(Register(j, 0));
    assert (j as int) as bv8 == j;
    if j == 0 { assert Entry(HIGH_BYTES_0, LOW_BYTES_0, 0) == ShiftN(8, Register(0, 0)); }
    if j == 1 { assert Entry(HIGH_BYTES_0, LOW_BYTES_0, 1) == ShiftN(8, Register(1, 0)); }
    if j == 2 { assert Entry(HIGH_BYTES_0, LOW_BYTES_0, 2) == ShiftN(8, Register(2, 0)); }
    if j == 3 { assert Entry(HIGH_BYTES_0, LOW_BYTES_0, 3) == ShiftN(8, Register(3, 0)); }
    if j == 4 { assert Entry(HIGH_BYTES_0, LOW_BYTES_0, 4) == ShiftN(8, Register(4, 0)); }
    if j == 5 { assert Entry(HIGH_BYTES_0, LOW_BYTES_0, 5) == ShiftN(8, Register(5, 0)); }
    if j == 6 { assert Entry(HIGH_BYTES_0, LOW_BYTES_0, 6) == ShiftN(8, Register(6, 0)); }
    if j == 7 { assert Entry(HIGH_BYTES_0, LOW_BYTES_0, 7) == ShiftN(8, Register(7, 0)); }
    if j == 8 { assert Entry(HIGH_BYTES_0, LOW_BYTES_0, 8) == ShiftN(8, Register(8, 0)); }
    if j == 9 { assert Entry(HIGH_BYTES_0, LOW_BYTES_0, 9) == ShiftN(8, Register(9, 0)); }
    if j == 10 { assert Entry(HIGH_BYTES_0, LOW_BYTES_0, 10) == ShiftN(8, Register(10, 0)); }
    if j == 11 { assert Entry(HIGH_BYTES_0, LOW_BYTES_0, 11) == ShiftN(8, Register(11, 0)); }
    if j == 12 { assert Entry(HIGH_BYTES_0, LOW_BYTES_0, 12) == ShiftN(8, Register(12, 0)); }
    if j == 13 { assert Entry(HIGH_BYTES_0, LOW_BYTES_0, 13) == ShiftN(8, Register(13, 0)); }
    if j == 14 { assert Entry(HIGH_BYTES_0, LOW_BYTES_0, 14) == ShiftN(8, Register(14, 0)); }
    if j == 15 { assert Entry(HIGH_BYTES_0, LOW_BYTES_0, 15) == ShiftN(8, Register(15, 0)); }
  }

  /** The other rows are row 0 offset by their own first entry. */
  ghost predicate Offset(high: Row, low: Row, j: nat)
    requires j < 16
  {
    Entry(high, low, j) == Xor(Entry(high, low, 0), Entry(HIGH_BYTES_0, LOW_BYTES_0, j))
  }

  ghost predicate AllOffset(high: Row, low: Row)
  {
    && Offset(high, low, 1) && Offset(high, low, 2) && Offset(high, low, 3) && Offset(high, low, 4)
    && Offset(high, low, 5) && Offset(high, low, 6) && Offset(high, low, 7) && Offset(high, low, 8)
    && Offset(high, low, 9) && Offset(high, low, 10) && Offset(high, low, 11) && Offset(high, low, 12)
    && Offset(high, low, 13) && Offset(high, low, 14) && Offset(high, low, 15)
  }

  lemma OffsetAt(high: Row, low: Row, j: nat)
    requires AllOffset(high, low) && 0 < j < 16
    ensures Offset(high, low, j)
  {}

  lemma RowFromOffsets(high: Row, low: Row, base: bv8)
    requires AllOffset(high, low) && base & 15 == 0
    requires Entry(high, low, 0) == ShiftN(8, Register(base, 0))
    ensures RowOk(high, low, base)
  {
    forall j: bv8 | j < 16
      ensures EntryOk(high, low, base, j)
    {
      if j == 0 {
        assert base | j == base;
      } else {
        assert 0 < j as int < 16;
        OffsetAt(high, low, j as int);
        Row0(j);
        ShiftNLinear(8, Register(base, 0), Register(j, 0));
        assert base ^ j == base | j;
      }
    }
  }

  lemma Row0Ok()
    ensures RowOk(HIGH_BYTES_0, LOW_BYTES_0, 0)
  {
    forall j: bv8 | j < 16
      ensures EntryOk(HIGH_BYTES_0, LOW_BYTES_0, 0, j)
    {
      Row0(j);
      assert 0 | j == j;
    }
  }

  lemma FirstEntries()
    ensures Entry(HIGH_BYTES_1, LOW_BYTES_1, 0) == ShiftN(8, Register(0x10, 0))
    ensures Entry(HIGH_BYTES_2, LOW_BYTES_2, 0) == ShiftN(8, Register(0x20, 0))
    ensures Entry(HIGH_BYTES_3, LOW_BYTES_3, 0) == ShiftN(8, Register(0x30, 0))
    ensures Entry(HIGH_BYTES_4, LOW_BYTES_4, 0) == ShiftN(8, Register(0x40, 0))
    ensures Entry(HIGH_BYTES_5, LOW_BYTES_5, 0) == ShiftN(8, Register(0x50, 0))
    ensures Entry(HIGH_BYTES_6, LOW_BYTES_6, 0) == ShiftN(8, Register(0x60, 0))
    ensures Entry(HIGH_BYTES_7, LOW_BYTES_7, 0) == ShiftN(8, Register(0x70, 0))
    ensures Entry(HIGH_BYTES_8, LOW_BYTES_8, 0) == ShiftN(8, Register(0x80, 0))
    ensures Entry(HIGH_BYTES_9, LOW_BYTES_9, 0) == ShiftN(8, Register(0x90, 0))
    ensures Entry(HIGH_BYTES_A, LOW_BYTES_A, 0) == ShiftN(8, Register(0xA0, 0))
    ensures Entry(HIGH_BYTES_B, LOW_BYTES_B, 0) == ShiftN(8, Register(0xB0, 0))
    ensures Entry(HIGH_BYTES_C, LOW_BYTES_C, 0) == ShiftN(8, Register(0xC0, 0))
    ensures Entry(HIGH_BYTES_D, LOW_BYTES_D, 0) == ShiftN(8, Register(0xD0, 0))
    ensures Entry(HIGH_BYTES_E, LOW_BYTES_E, 0) == ShiftN(8, Register(0xE0, 0))
    ensures Entry(HIGH_BYTES_F, LOW_BYTES_F, 0) == ShiftN(8, Register(0xF0, 0))
  {
    ShiftN8(Register(0x10, 0)); ShiftN8(Register(0x20, 0)); ShiftN8(Register(0x30, 0)); ShiftN8(Register(0x40, 0)); ShiftN8(Register(0x50, 0));
    ShiftN8(Register(0x60, 0)); ShiftN8(Register(0x70, 0)); ShiftN8(Register(0x80, 0)); ShiftN8(Register(0x90, 0)); ShiftN8(Register(0xA0, 0));
    ShiftN8(Register(0xB0, 0)); ShiftN8(Register(0xC0, 0)); ShiftN8(Register(0xD0, 0)); ShiftN8(Register(0xE0, 0)); ShiftN8(Register(0xF0, 0));
  }

  lemma Row1() ensures AllOffset(HIGH_BYTES_1, LOW_BYTES_1) {}
  lemma Row2() ensures AllOffset(HIGH_BYTES_2, LOW_BYTES_2) {}
  lemma Row3() ensures AllOffset(HIGH_BYTES_3, LOW_BYTES_3) {}
  lemma Row4() ensures AllOffset(HIGH_BYTES_4, LOW_BYTES_4) {}
  lemma Row5() ensures AllOffset(HIGH_BYTES_5, LOW_BYTES_5) {}
  lemma Row6() ensures AllOffset(HIGH_BYTES_6, LOW_BYTES_6) {}
  lemma Row7() ensures AllOffset(HIGH_BYTES_7, LOW_BYTES_7) {}
  lemma Row8() ensures AllOffset(HIGH_BYTES_8, LOW_BYTES_8) {}
  lemma Row9() ensures AllOffset(HIGH_BYTES_9, LOW_BYTES_9) {}
  lemma RowA() ensures AllOffset(HIGH_BYTES_A, LOW_BYTES_A) {}
  lemma RowB() ensures AllOffset(HIGH_BYTES_B, LOW_BYTES_B) {}
  lemma RowC() ensures AllOffset(HIGH_BYTES_C, LOW_BYTES_C) {}
  lemma RowD() ensures AllOffset(HIGH_BYTES_D, LOW_BYTES_D) {}
  lemma RowE() ensures AllOffset(HIGH_BYTES_E, LOW_BYTES_E) {}
  lemma RowF() ensures AllOffset(HIGH_BYTES_F, LOW_BYTES_F) {}

  lemma Row1Ok() ensures RowOk(HIGH_BYTES_1, LOW_BYTES_1, 0x10)
  { FirstEntries(); Row1(); RowFromOffsets(HIGH_BYTES_1, LOW_BYTES_1, 0x10); }

  lemma Row2Ok() ensures RowOk(HIGH_BYTES_2, LOW_BYTES_2, 0x20)
  { FirstEntries(); Row2(); RowFromOffsets(HIGH_BYTES_2, LOW_BYTES_2, 0x20); }

  lemma Row3Ok() ensures RowOk(HIGH_BYTES_3, LOW_BYTES_3, 0x30)
  { FirstEntries(); Row3(); RowFromOffsets(HIGH_BYTES_3, LOW_BYTES_3, 0x30); }

  lemma Row4Ok() ensures RowOk(HIGH_BYTES_4, LOW_BYTES_4, 0x40)
  { FirstEntries(); Row4(); RowFromOffsets(HIGH_BYTES_4, LOW_BYTES_4, 0x40); }

  lemma Row5Ok() ensures RowOk(HIGH_BYTES_5, LOW_BYTES_5, 0x50)
  { FirstEntries(); Row5(); RowFromOffsets(HIGH_BYTES_5, LOW_BYTES_5, 0x50); }

  lemma Row6Ok() ensures RowOk(HIGH_BYTES_6, LOW_BYTES_6, 0x60)
  { FirstEntries(); Row6(); RowFromOffsets(HIGH_BYTES_6, LOW_BYTES_6, 0x60); }

  lemma Row7Ok() ensures RowOk(HIGH_BYTES_7, LOW_BYTES_7, 0x70)
  { FirstEntries(); Row7(); RowFromOffsets(HIGH_BYTES_7, LOW_BYTES_7, 0x70); }

  lemma Row8Ok() ensures RowOk(HIGH_BYTES_8, LOW_BYTES_8, 0x80)
  { FirstEntries(); Row8(); RowFromOffsets(HIGH_BYTES_8, LOW_BYTES_8, 0x80); }

  lemma Row9Ok() ensures RowOk(HIGH_BYTES_9, LOW_BYTES_9, 0x90)
  { FirstEntries(); Row9(); RowFromOffsets(HIGH_BYTES_9, LOW_BYTES_9, 0x90); }

  lemma RowAOk() ensures RowOk(HIGH_BYTES_A, LOW_BYTES_A, 0xA0)
  { FirstEntries(); RowA(); RowFromOffsets(HIGH_BYTES_A, LOW_BYTES_A, 0xA0); }

  lemma RowBOk() ensures RowOk(HIGH_BYTES_B, LOW_BYTES_B, 0xB0)
  { FirstEntries(); RowB(); RowFromOffsets(HIGH_BYTES_B, LOW_BYTES_B, 0xB0); }

  lemma RowCOk() ensures RowOk(HIGH_BYTES_C, LOW_BYTES_C, 0xC0)
  { FirstEntries(); RowC(); RowFromOffsets(HIGH_BYTES_C, LOW_BYTES_C, 0xC0); }

  lemma RowDOk() ensures RowOk(HIGH_BYTES_D, LOW_BYTES_D, 0xD0)
  { FirstEntries(); RowD(); RowFromOffsets(HIGH_BYTES_D, LOW_BYTES_D, 0xD0); }

  lemma RowEOk() ensures RowOk(HIGH_BYTES_E, LOW_BYTES_E, 0xE0)
  { FirstEntries(); RowE(); RowFromOffsets(HIGH_BYTES_E, LOW_BYTES_E, 0xE0); }

  lemma RowFOk() ensures RowOk(HIGH_BYTES_F, LOW_BYTES_F, 0xF0)
  { FirstEntries(); RowF(); RowFromOffsets(HIGH_BYTES_F, LOW_BYTES_F, 0xF0); }

  lemma TablesAreOk()
    ensures TablesOk(CRC_HIGH_BYTES, CRC_LOW_BYTES)
  {
    Row0Ok(); Row1Ok(); Row2Ok(); Row3Ok(); Row4Ok(); Row5Ok(); Row6Ok(); Row7Ok();
    Row8Ok(); Row9Ok(); RowAOk(); RowBOk(); RowCOk(); RowDOk(); RowEOk(); RowFOk();
  }

  method Tables() returns (high: seq<Row>, low: seq<Row>)
    ensures TablesOk(high, low)
  {
    TablesAreOk();
    high, low := CRC_HIGH_BYTES, CRC_LOW_BYTES;
  }

  // ----- lookup

  function At(table: seq<Row>, idx: bv8): bv8
    requires |table| == 16
  {
    assert idx >> 4 < 16 && idx & 15 < 16;
    table[(idx >> 4) as int][(idx & 15) as int]
  }

  /** The table word of an index. */
  function TableWord(high: seq<Row>, low: seq<Row>, idx: bv8): Register
    requires |high| == |low| == 16
  {
    Register(At(high, idx), At(low, idx))
  }

  lemma TableEntry(high: seq<Row>, low: seq<Row>, idx: bv8)
    requires TablesOk(high, low)
    ensures TableWord(high, low, idx) == ShiftN(8, Register(idx, 0))
  {
    var r, j := idx >> 4, idx & 15;
    assert r < 16 && j < 16 && (r << 4) | j == idx;
    RowOfTables(high, low, r);
    assert EntryOk(high[r as int], low[r as int], r << 4, j);
  }

  /** Folding the old high byte into the word found under the index is eight clocks of the shift register. */
  lemma FoldHigh(c: Register, v: bv8, e: Register, folded: bv8)
    requires e == ShiftN(8, Register(c.low ^ v, 0)) && folded == c.high ^ e.low
    ensures Register(folded, e.high) == ShiftN(8, Xor(c, Register(v, 0)))
  {
    ShiftParts(c, v);
    XorHigh(c.high, e);
  }

  lemma XorHigh(h: bv8, c: Register)
    ensures Xor(c, Register(h, 0)) == Register(h ^ c.low, c.high)
  {
    assert c.high ^ 0 == c.high;
    assert c.low ^ h == h ^ c.low;
  }

  /** The index byte and the old high byte go through the register independently. */
  lemma ShiftParts(c: Register, v: bv8)
    ensures ShiftN(8, Xor(c, Register(v, 0))) == Xor(ShiftN(8, Register(c.low ^ v, 0)), Register(c.high, 0))
  {
    SplitInput(c, v);
    ShiftNLinear(8, Register(c.low ^ v, 0), Register(0, c.high));
    Shift8High(c.high);
  }

  lemma SplitInput(c: Register, v: bv8)
    ensures Xor(c, Register(v, 0)) == Xor(Register(c.low ^ v, 0), Register(0, c.high))
  {
    assert c.high ^ 0 == c.high && 0 ^ c.high == c.high;
  }

  lemma RunStep(c: Register, bs: seq<Byte>, i: nat, next: Register)
    requires i < |bs| && next == ShiftN(8, Xor(c, Register(bs[i] as bv8, 0)))
    ensures Run(c, bs[i..]) == Run(next, bs[i + 1..])
  {
    assert bs[i..][1..] == bs[i + 1..];
  }

  /** The running checksum of the crc package. */
  class Hash {
    var high: bv8
    var low: bv8

    function State(): Register
      reads this
    {
      Register(low, high)
    }

    constructor ()
      ensures State() == INITIAL
    {
      high, low := 0xFF, 0xFF;
    }

    method Reset()
      modifies this
      ensures State() == INITIAL
    {
      high, low := 0xFF, 0xFF;
    }

    method Write(bs: seq<Byte>) returns (n: nat)
      modifies this
      ensures n == |bs|
      ensures State() == Run(old(State()), bs)
    {
      var highTable, lowTable := Tables();
      for i := 0 to |bs|
        invariant Run(State(), bs[i..]) == Run(old(State()), bs)
      {
        var idx := low ^ (bs[i] as bv8);
        var x, y := At(highTable, idx), At(lowTable, idx);
        TableEntry(highTable, lowTable, idx);
        var folded := high ^ x;
        FoldHigh(State(), bs[i] as bv8, Register(x, y), folded);
        RunStep(State(), bs, i, Register(folded, y));
        low, high := folded, y;
      }
      n := |bs|;
    }

    /** Appends the checksum of what was written so far and `bs`; the hash itself does not advance. */
    method Sum(bs: seq<Byte>) returns (r: seq<Byte>)
      ensures var c := Run(State(), bs);
              r == bs + [LowByte(c), HighByte(c)]
    {
      var copy := new Hash();
      copy.high, copy.low := high, low;
      var _ := copy.Write(bs);
      r := bs + [copy.low as int, copy.high as int];
    }
  }

  method Sum(bs: seq<Byte>) returns (r: seq<Byte>)
    ensures r == Crc.Sum(bs)
  {
    var hash := new Hash();
    r := hash.Sum(bs);
  }

  method Validate(bs: seq<Byte>) returns (ok: bool)
    ensures ok == Valid(bs)
  {
    if |bs| <= 2 {
      return false;
    }
    var length := |bs|;
    var c := new Hash();
    c.Reset();
    var _ := c.Write(bs[..length - 2]);
    ok := bs[length - 2] == c.low as int && bs[length - 1] == c.high as int;
  }
}
