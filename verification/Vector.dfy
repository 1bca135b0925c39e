/** The binary form of one column of one block: what the writer produces and what
    the reader recovers from it. */
module Vectors {
  import opened Bytes
  import opened ZoneMaps
  import opened Types

  datatype MOType = MOType(oid: Byte, charset: Byte, notNull: Byte, dummy: Byte, size: int, width: int, scale: int)

  datatype DecodedColumn = DecodedColumn(
    mtype: MOType, rowCount: nat, data: seq<Byte>, area: seq<Byte>,
    nullBitmap: seq<nat>, nullCount: nat, isSorted: bool, vecClass: Byte)

  // ----- reading rows of a decoded column -----

  predicate NullBitAt(words: seq<nat>, row: nat)
  {
    row / 64 < |words| && BitSet(words[row / 64], row % 64)
  }

  predicate SlotInline(slot: seq<Byte>) requires |slot| == 24 { slot[0] as nat <= 23 }
  function SlotMarker(slot: seq<Byte>): nat requires |slot| == 24 { Field(slot, 0, 4) }
  function SlotOffset(slot: seq<Byte>): nat requires |slot| == 24 { Field(slot, 4, 4) }
  function SlotLength(slot: seq<Byte>): nat requires |slot| == 24 { Field(slot, 8, 4) }

  function SlotAt(data: seq<Byte>, row: nat): (slot: seq<Byte>)
    requires (row + 1) * 24 <= |data|
    ensures |slot| == 24
  {
    data[row * 24..(row + 1) * 24]
  }

  /** A slot the writer could have produced over this area. */
  predicate SlotOk(slot: seq<Byte>, area: seq<Byte>)
    requires |slot| == 24
  {
    SlotInline(slot) ||
    (SlotMarker(slot) == VARLENA_BIG_MARKER && SlotOffset(slot) + SlotLength(slot) <= |area| < U32)
  }

  function SlotString(slot: seq<Byte>, area: seq<Byte>): seq<Byte>
    requires |slot| == 24 && SlotOk(slot, area)
  {
    if SlotInline(slot) then slot[1..1 + slot[0] as nat]
    else area[SlotOffset(slot)..SlotOffset(slot) + SlotLength(slot)]
  }

  function RowBytes(data: seq<Byte>, size: nat, row: nat): (r: seq<Byte>)
    requires row * size + size <= |data|
    ensures |r| == size
  {
    data[row * size..row * size + size]
  }

  /** The column holds readable data for `row`. */
  predicate RowOk(col: DecodedColumn, row: nat)
  {
    row < col.rowCount &&
    if IsStringType(col.mtype.oid) then
      (row + 1) * 24 <= |col.data| && SlotOk(SlotAt(col.data, row), col.area)
    else
      var size := FixedSize(col.mtype.oid);
      size > 0 && row * size + size <= |col.data|
  }

  /** The non-null value at a row, dates and timestamps shifted to the Unix epoch. */
  function DatumAt(col: DecodedColumn, row: nat): Value
    requires RowOk(col, row)
  {
    var oid := col.mtype.oid;
    if IsStringType(oid) then StrV(SlotString(SlotAt(col.data, row), col.area))
    else
      var bytes := RowBytes(col.data, FixedSize(oid), row);
      if IsIntegerType(oid) then IntV(ReadNum(NumTypeOf(oid), bytes) - Epoch(oid)) else RawV(bytes)
  }

  /** What a query sees at a row of a FLAT column. */
  function CellAt(col: DecodedColumn, row: nat): Value
    requires RowOk(col, row)
  {
    if NullBitAt(col.nullBitmap, row) then NullV else DatumAt(col, row)
  }

  /** A CONSTANT column stores one value for all its rows. */
  predicate IsConstant(col: DecodedColumn) { col.vecClass == 1 }

  /** It is null when it stores no data or its first bit is set. */
  predicate ConstantIsNull(col: DecodedColumn)
  {
    col.data == [] || (col.nullCount > 0 && |col.nullBitmap| > 0 && BitSet(col.nullBitmap[0], 0))
  }

  /** A query can be answered from the column at this row. */
  predicate SeenOk(col: DecodedColumn, row: nat)
  {
    row < col.rowCount && if IsConstant(col) then ConstantIsNull(col) || RowOk(col, 0) else RowOk(col, row)
  }

  /** What a query sees at a row, FLAT or CONSTANT. */
  function SeenAt(col: DecodedColumn, row: nat): Value
    requires SeenOk(col, row)
  {
    if !IsConstant(col) then CellAt(col, row)
    else if ConstantIsNull(col) then NullV
    else DatumAt(col, 0)
  }

  // ----- DecodeVector -----

  function ParseType(s: seq<Byte>): MOType
    requires |s| == 16
  {
    MOType(s[0], s[1], s[2], s[3],
           AsSigned(Field(s, 4, 4), 4), AsSigned(Field(s, 8, 4), 4), AsSigned(Field(s, 12, 4), 4))
  }

  /** A section is a 4-byte length followed by that many bytes. */
  function Section(buf: seq<Byte>, p: nat): (r: Result<(seq<Byte>, nat)>)
    ensures r.Ok? ==> p <= r.value.1 <= |buf|
  {
    if p + 4 > |buf| then Err(TooSmall)
    else
      var n := Field(buf, p, 4);
      if p + 4 + n > |buf| then Err(OutOfRange) else Ok((buf[p + 4..p + 4 + n], p + 4 + n))
  }

  function Words(s: seq<Byte>, n: nat): (w: seq<nat>)
    requires 8 * n <= |s|
    ensures |w| == n
  {
    seq(n, i requires 0 <= i < n => Field(s, 8 * i, 8))
  }

  /** Null section: count, length and size fields of 8 bytes, then the bitmap words.
      A section shorter than its header is read as "no nulls". */
  function ParseNulls(nsp: seq<Byte>): Result<(nat, seq<nat>)>
  {
    if |nsp| < 24 then Ok((0, []))
    else
      var words := (Field(nsp, 16, 8) / 8) % 0x1_0000_0000;
      if 24 + words * 8 > |nsp| then Err(OutOfRange)
      else Ok((Field(nsp, 0, 8), Words(nsp[24..], words)))
  }

  function DecodedFrom(buf: seq<Byte>): Result<DecodedColumn>
  {
    if |buf| < 21 then Err(TooSmall)
    else
      var (data, p1) :- Section(buf, 21);
      var (area, p2) :- Section(buf, p1);
      var (nsp, p3) :- Section(buf, p2);
      var (nullCount, words) :- ParseNulls(nsp);
      Ok(DecodedColumn(ParseType(buf[1..17]), Field(buf, 17, 4), data, area, words, nullCount,
                       p3 < |buf| && buf[p3] != 0, buf[0]))
  }

  /** The reader's cursor walk. It computes `DecodedFrom`, about which the round trip
      below is proved. */
  method DecodeVector(buf: seq<Byte>) returns (r: Result<DecodedColumn>)
    ensures r.Ok? == DecodedFrom(buf).Ok?
    ensures r.Ok? ==> r == DecodedFrom(buf)
  {
    var p, end := 0, |buf|;
    if p + 1 > end { return Err(TooSmall); }
    var vecClass := buf[p];
    p := p + 1;
    if p + 16 > end { return Err(TooSmall); }
    var mtype := ParseType(buf[p..p + 16]);
    p := p + 16;
    if p + 4 > end { return Err(TooSmall); }
    var rowCount := Field(buf, p, 4);
    p := p + 4;

    var data, area, nsp: Result<seq<Byte>>;
    data, p := ReadSection(buf, p);
    if data.Err? { return Err(data.failure); }
    area, p := ReadSection(buf, p);
    if area.Err? { return Err(area.failure); }
    nsp, p := ReadSection(buf, p);
    if nsp.Err? { return Err(nsp.failure); }
    var nulls := ReadNulls(nsp.value);
    if nulls.Err? { return Err(nulls.failure); }
    var isSorted := false;
    if p + 1 <= end { isSorted := buf[p] != 0; }
    r := Ok(DecodedColumn(mtype, rowCount, data.value, area.value, nulls.value.1, nulls.value.0, isSorted, vecClass));
  }

  method ReadSection(buf: seq<Byte>, start: nat) returns (r: Result<seq<Byte>>, p: nat)
    ensures Section(buf, start) == if r.Ok? then Ok((r.value, p)) else Err(r.failure)
  {
    p := start;
    if p + 4 > |buf| { return Err(TooSmall), p; }
    var len := Field(buf, p, 4);
    p := p + 4;
    if p + len > |buf| { return Err(OutOfRange), p; }
    r := Ok(buf[p..p + len]);
    p := p + len;
  }

  method ReadNulls(nsp: seq<Byte>) returns (r: Result<(nat, seq<nat>)>)
    ensures r == ParseNulls(nsp)
  {
    var nullCount, nullBitmap: seq<nat> := 0, [];
    if |nsp| > 0 && |nsp| >= 24 {
      nullCount := Field(nsp, 0, 8);
      var dataSize := Field(nsp, 16, 8);
      var words := (dataSize / 8) % 0x1_0000_0000;
      if 24 + words * 8 > |nsp| { return Err(OutOfRange); }
      for w := 0 to words
        invariant nullBitmap == Words(nsp[24..], w)
      {
        nullBitmap := nullBitmap + [Field(nsp[24..], 8 * w, 8)];
      }
    }
    r := Ok((nullCount, nullBitmap));
  }
}
