/** Type identifiers of stored columns, their widths, and the values a query sees. */
module Types {
  import opened Bytes
  import opened ZoneMaps

  const T_BOOL: Byte := 10
  const T_BIT: Byte := 11
  const T_INT8: Byte := 20
  const T_INT16: Byte := 21
  const T_INT32: Byte := 22
  const T_INT64: Byte := 23
  const T_UINT8: Byte := 25
  const T_UINT16: Byte := 26
  const T_UINT32: Byte := 27
  const T_UINT64: Byte := 28
  const T_FLOAT32: Byte := 30
  const T_FLOAT64: Byte := 31
  const T_DECIMAL64: Byte := 32
  const T_DECIMAL128: Byte := 33
  const T_DECIMAL256: Byte := 34
  const T_DATE: Byte := 50
  const T_TIME: Byte := 51
  const T_DATETIME: Byte := 52
  const T_TIMESTAMP: Byte := 53
  const T_YEAR: Byte := 55
  const T_CHAR: Byte := 60
  const T_VARCHAR: Byte := 61
  const T_JSON: Byte := 62
  const T_UUID: Byte := 63
  const T_BINARY: Byte := 64
  const T_VARBINARY: Byte := 65
  const T_ENUM: Byte := 66
  const T_BLOB: Byte := 70
  const T_TEXT: Byte := 71
  const T_DATALINK: Byte := 72

  const UNIX_EPOCH_DAYS: int := 719162
  const UNIX_EPOCH_USEC: int := 62135596800000000

  /** Strings live in 24-byte slots: up to 23 bytes inline, else marker, offset and length. */
  const VARLENA_BIG_MARKER: nat := 0xFFFF_FFFF

  predicate IsStringType(oid: Byte)
  {
    oid == T_CHAR || oid == T_VARCHAR || oid == T_TEXT || oid == T_JSON || oid == T_DATALINK ||
    oid == T_BLOB || oid == T_BINARY || oid == T_VARBINARY
  }

  /** Bytes per row; 0 where the original answers -1 (no fixed size). */
  function FixedSize(oid: Byte): nat
  {
    if oid == T_BOOL || oid == T_INT8 || oid == T_UINT8 then 1
    else if oid == T_INT16 || oid == T_UINT16 || oid == T_YEAR || oid == T_ENUM then 2
    else if oid == T_INT32 || oid == T_UINT32 || oid == T_DATE || oid == T_FLOAT32 then 4
    else if oid == T_INT64 || oid == T_UINT64 || oid == T_FLOAT64 || oid == T_DATETIME || oid == T_TIMESTAMP ||
            oid == T_TIME || oid == T_DECIMAL64 || oid == T_BIT then 8
    else if oid == T_DECIMAL128 || oid == T_UUID then 16
    else if oid == T_DECIMAL256 then 32
    else 0
  }

  /** The types whose comparisons are integer comparisons. */
  predicate IsIntegerType(oid: Byte)
  {
    oid == T_BOOL || oid == T_INT8 || oid == T_INT16 || oid == T_INT32 || oid == T_INT64 ||
    oid == T_UINT8 || oid == T_UINT16 || oid == T_UINT32 || oid == T_UINT64 ||
    oid == T_DECIMAL64 || oid == T_DATE || oid == T_TIME || oid == T_DATETIME || oid == T_TIMESTAMP
  }

  /** The C++ type the comparisons read; `bool` is its one byte. */
  function NumTypeOf(oid: Byte): (t: NumType)
    requires IsIntegerType(oid)
    ensures t.width == FixedSize(oid) && 1 <= t.width <= 8
  {
    NumType(FixedSize(oid), oid != T_BOOL && oid != T_UINT8 && oid != T_UINT16 && oid != T_UINT32 && oid != T_UINT64)
  }

  /** Stored dates and timestamps count from year 1; query values from 1970. */
  function Epoch(oid: Byte): int
  {
    if oid == T_DATE then UNIX_EPOCH_DAYS
    else if oid == T_DATETIME || oid == T_TIMESTAMP then UNIX_EPOCH_USEC
    else 0
  }

  /** A value as a query sees it. `RawV` stands for the types whose bytes are copied
      without being interpreted. */
  datatype Value = NullV | IntV(i: int) | StrV(s: seq<Byte>) | RawV(raw: seq<Byte>)

  predicate FitsType(t: NumType, v: int)
    requires t.width > 0
  {
    if t.signed then FitsSigned(v, t.width) else 0 <= v < Pow256(t.width)
  }

  function PackNum(t: NumType, v: int): (s: seq<Byte>)
    requires t.width > 0 && FitsType(t, v)
    ensures |s| == t.width
  {
    ToLE(if t.signed then AsUnsigned(v, t.width) else v, t.width)
  }

  lemma ReadOfPack(t: NumType, v: int, s: seq<Byte>)
    requires t.width > 0 && FitsType(t, v) && PackNum(t, v) <= s
    ensures ReadNum(t, s) == v
  {
    assert s[..t.width] == PackNum(t, v);
    FromToLE(if t.signed then AsUnsigned(v, t.width) else v, t.width);
  }
}
