/** The writer of zone maps, and exactly when what it writes bounds the column. */
module ZoneMapWriter {
  import opened Bytes
  import opened Types
  import opened ZoneMaps
  import opened Vectors
  import opened VectorWriter
  import opened Filters

  /** A bound: a number, or bytes, among them a float's. */
  datatype Bound = Num(v: int) | Raw(bytes: seq<Byte>)

  /** Widths at which the writer packs numbers of every type but the 64-bit float. */
  predicate Packs(width: nat) { width == 1 || width == 4 || width == 8 }

  /** Little-endian two's complement, as `struct.pack` writes it. */
  function PackSigned(v: int, width: nat): (s: seq<Byte>)
    requires width > 0 && FitsSigned(v, width)
    ensures |s| == width
  {
    ToLE(AsUnsigned(v, width), width)
  }

  /** Two signed halves, each of which must be non-negative and below the sign bit. */
  function PackHalves(v: int): (s: Option<seq<Byte>>)
    ensures s.Some? ==> |s.value| == 16
  {
    var lo, hi := v % 0x1_0000_0000_0000_0000, v / 0x1_0000_0000_0000_0000 % 0x1_0000_0000_0000_0000;
    if lo < 0x8000_0000_0000_0000 && hi < 0x8000_0000_0000_0000 then Some(ToLE(lo, 8) + ToLE(hi, 8)) else None
  }

  /** The bytes stored for a bound, none for a width that is not packed; or failure. */
  function PackBound(oid: Byte, b: Bound, width: nat): (s: Option<seq<Byte>>)
    ensures s.Some? ==> |s.value| <= Min(width, 30)
  {
    if width == 16 then
      match b
      case Num(v) => PackHalves(v)
      case Raw(bytes) => if |bytes| == 16 then Some(bytes) else None
    else if (width == 4 || width == 8) && oid == T_FLOAT64 then
      if b.Raw? && |b.bytes| == width then Some(b.bytes) else None
    else if Packs(width) then
      if b.Num? && FitsSigned(b.v, width) then Some(PackSigned(b.v, width)) else None
    else Some([])
  }

  /** The bound's bytes, then zeros, then the length. */
  predicate StoresBound(z: ZoneMap, at: nat, oid: Byte, b: Bound, width: nat)
    requires at == 0 || at == 31
  {
    var s := PackBound(oid, b, width);
    && s.Some? && z[at..at + 30] == s.value + Zeros(30 - |s.value|)
    && z[at + 30] == Min(width, 30) as Byte
  }

  predicate StoresBounds(z: ZoneMap, oid: Byte, width: nat, min: Bound, max: Bound)
  {
    StoresBound(z, 0, oid, min, width) && StoresBound(z, 31, oid, max, width) && IsInited(z) && z[63] == oid
  }

  method BuildZoneMapNumeric(oid: Byte, min: Bound, max: Bound, width: nat) returns (z: Option<ZoneMap>)
    ensures z.Some? <==> PackBound(oid, min, width).Some? && PackBound(oid, max, width).Some?
    ensures z.Some? ==> StoresBounds(z.value, oid, width, min, max)
  {
    var zm := new Byte[64](_ => 0);
    var lo := PackBound(oid, min, width);
    if lo.None? { return None; }
    PutBound(zm, 0, 30, lo.value, Min(width, 30) as Byte);
    var hi := PackBound(oid, max, width);
    if hi.None? { return None; }
    PutBound(zm, 31, 61, hi.value, Min(width, 30) as Byte);
    zm[62] := 0x80;
    zm[63] := oid;
    z := Some(zm[..]);
    assert zm[..][0..30] == lo.value + Zeros(30 - |lo.value|);
    assert zm[..][31..61] == hi.value + Zeros(30 - |hi.value|);
  }

  /** What the string writer stores: both bounds cut to 30 bytes, the cut never flagged. */
  predicate StoresStrings(z: ZoneMap, oid: Byte, lo: seq<Byte>, hi: seq<Byte>)
  {
    && MinString(z) == lo[..Min(30, |lo|)] && MaxString(z) == hi[..Min(30, |hi|)]
    && !MaxTruncated(z) && IsInited(z) && z[63] == oid
  }

  method BuildZoneMapString(oid: Byte, minStr: seq<Byte>, maxStr: seq<Byte>) returns (z: ZoneMap)
    ensures StoresStrings(z, oid, minStr, maxStr)
  {
    var zm := new Byte[64](_ => 0);
    PutBound(zm, 0, 30, minStr[..Min(30, |minStr|)], Min(30, |minStr|) as Byte);
    PutBound(zm, 31, 61, maxStr[..Min(30, |maxStr|)], Min(30, |maxStr|) as Byte);
    zm[62] := 0x80;
    zm[63] := oid;
    z := zm[..];
    assert z[..Min(30, |minStr|)] == minStr[..Min(30, |minStr|)];
    assert z[31..31 + Min(30, |maxStr|)] == maxStr[..Min(30, |maxStr|)];
  }

  /** One bound and its length byte; nothing else changes. */
  method PutBound(zm: array<Byte>, at: nat, lenAt: nat, bytes: seq<Byte>, length: Byte)
    requires zm.Length == 64 && |bytes| <= 30 && at + 30 == lenAt < 64
    modifies zm
    ensures zm[lenAt] == length && forall j :: 0 <= j < |bytes| ==> zm[at + j] == bytes[j]
    ensures forall j :: 0 <= j < 64 && j != lenAt && !(at <= j < at + |bytes|) ==> zm[j] == old(zm[j])
  {
    for k := 0 to |bytes|
      invariant forall j :: 0 <= j < k ==> zm[at + j] == bytes[j]
      invariant forall j :: 0 <= j < 64 && !(at <= j < at + k) ==> zm[j] == old(zm[j])
    {
      zm[at + k] := bytes[k];
    }
    zm[lenAt] := length;
  }

  // ----- do the written bounds bound? -----

  /** Numbers of one, four and eight bytes are read back. */
  lemma NumericRead(z: ZoneMap, oid: Byte, width: nat, min: int, max: int, t: NumType)
    requires t.width == width && Packs(width) && oid != T_FLOAT64 && StoresBounds(z, oid, width, Num(min), Num(max))
    requires t.signed || (min >= 0 && max >= 0)
    ensures GetMin(z, t) == min && GetMax(z, t) == max
  {
    StoredRead(z, 0, PackSigned(min, width));
    StoredRead(z, 31, PackSigned(max, width));
    FromToLE(AsUnsigned(min, width), width);
    FromToLE(AsUnsigned(max, width), width);
  }

  lemma StoredRead(z: ZoneMap, at: nat, s: seq<Byte>)
    requires at <= 34 && |s| <= 30 && z[at..at + 30] == s + Zeros(30 - |s|)
    ensures z[at..][..|s|] == s
  {
    assert z[at..][..|s|] == z[at..at + 30][..|s|];
  }

  /** A two-byte type gets the bounds 0 and 0, so its zone map bounds only zeros. */
  lemma TwoByteBounds(z: ZoneMap, oid: Byte, min: Bound, max: Bound, t: NumType, v: int)
    requires t.width == 2 && StoresBounds(z, oid, 2, min, max)
    ensures InRange(z, t, v) <==> v == 0
  {
    ZeroLE(2);
    Pow256Values();
    FromToLE(0, 2);
    assert z[..2] == z[0..30][..2] == ToLE(0, 2) && z[31..][..2] == z[31..61][..2] == ToLE(0, 2);
  }

  /** Bounds of a 128-bit type stored at the width 8 are read back exactly when they are
      not negative: the upper half stays zero. */
  lemma NarrowBoundIff(z: ZoneMap, oid: Byte, min: int, max: Bound)
    requires oid != T_FLOAT64 && StoresBounds(z, oid, 8, Num(min), max)
    ensures GetMin(z, NumType(16, true)) == min <==> min >= 0
  {
    Pow256Values();
    var s := PackSigned(min, 8);
    StoredRead(z, 0, s);
    ZeroLE(8);
    assert z[..16] == s + ToLE(0, 8) by {
      assert z[..16] == z[0..30][..16] == s + Zeros(8);
    }
    HalvesRead(AsUnsigned(min, 8), 0);
    WideIsSquare();
  }

  /** Bounds of a 128-bit type stored at its own width are read back. */
  lemma WideRead(z: ZoneMap, oid: Byte, min: int, max: int)
    requires StoresBounds(z, oid, 16, Num(min), Num(max)) && 0 <= min < Pow256(16) && 0 <= max < Pow256(16)
    ensures GetMin(z, NumType(16, true)) == min && GetMax(z, NumType(16, true)) == max
  {
    WideStored(z, 0, min);
    WideStored(z, 31, max);
  }

  lemma WideStored(z: ZoneMap, at: nat, v: nat)
    requires at <= 34 && PackHalves(v).Some? && z[at..at + 30] == PackHalves(v).value + Zeros(14) && v < Pow256(16)
    ensures ReadNum(NumType(16, true), z[at..]) == v
  {
    Pow256Values();
    WideIsSquare();
    StoredRead(z, at, PackHalves(v).value);
    HalvesRead(v % 0x1_0000_0000_0000_0000, v / 0x1_0000_0000_0000_0000 % 0x1_0000_0000_0000_0000);
  }

  lemma WideIsSquare()
    ensures Pow256(16) == 0x1_0000_0000_0000_0000 * 0x1_0000_0000_0000_0000
  {
    Pow256Values();
    assert Pow256(10) == 256 * Pow256(9);
    assert Pow256(12) == 256 * Pow256(11);
    assert Pow256(14) == 256 * Pow256(13);
    assert Pow256(16) == 256 * Pow256(15);
  }

  lemma HalvesRead(lo: nat, hi: nat)
    requires lo < Pow256(8) && hi < Pow256(8)
    ensures FromLE(ToLE(lo, 8) + ToLE(hi, 8)) == lo + Pow256(8) * hi
  {
    FromToLE(lo, 8);
    FromToLE(hi, 8);
    FromBoth(ToLE(lo, 8), ToLE(hi, 8));
  }

  lemma {:induction false} FromBoth(a: seq<Byte>, b: seq<Byte>)
    ensures FromLE(a + b) == FromLE(a) + Pow256(|a|) * FromLE(b)
  {
    if a == [] {
      assert a + b == b;
    } else {
      FromBoth(a[1..], b);
      assert (a + b)[1..] == a[1..] + b;
      assert 256 * (Pow256(|a| - 1) * FromLE(b)) == Pow256(|a|) * FromLE(b);
    }
  }

  /** String zone maps bound every value between the given bounds exactly when the upper
      bound fits 30 bytes: a longer one is cut without being flagged. */
  lemma StringZoneBoundsIff(z: ZoneMap, oid: Byte, lo: seq<Byte>, hi: seq<Byte>)
    requires StoresStrings(z, oid, lo, hi) && Lex(lo, hi) <= 0
    ensures (forall v :: Between(lo, v, hi) ==> Admits(z, v)) <==> |hi| <= 30
  {
    if |hi| <= 30 {
      forall v | Between(lo, v, hi) ensures Admits(z, v) { assert Bounds(z, lo, hi); }
    } else {
      var cut := MaxString(z);
      LexAntisymmetric(hi, hi);
      assert Between(lo, hi, hi);
      if Admits(z, hi) {
        AdmittedIsWithin(z, hi, hi);
        PrefixIsSmaller(cut, hi);
        LexAntisymmetric(cut, hi);
        assert false;
      }
    }
  }

  /** A column read back, under the zone map written from bounds of its values: strings
      whose upper bound fits 30 bytes. */
  lemma WrittenStringsDescribed(z: ZoneMap, oid: Byte, lo: seq<Byte>, hi: seq<Byte>, col: DecodedColumn, p: Payload,
                                nulls: seq<bool>, row: nat)
    requires StoresStrings(z, oid, lo, hi) && |hi| <= 30 && Lex(lo, hi) <= 0
    requires p.Strings? && IsStringType(oid) && Recovers(col, oid, p, nulls) && row < |nulls|
    requires !nulls[row] ==> Between(lo, OrEmpty(p.strings[row]), hi)
    ensures Describes(z, col, row)
  {
    StringZoneBoundsIff(z, oid, lo, hi);
    if !NullBitAt(col.nullBitmap, row) {
      assert CellAt(col, row) == DatumAt(col, row);
    }
  }

  /** Likewise for numbers of one, four or eight bytes. */
  lemma WrittenNumbersDescribed(z: ZoneMap, oid: Byte, min: int, max: int, col: DecodedColumn, p: Payload,
                                nulls: seq<bool>, row: nat)
    requires IsIntegerType(oid) && Packs(FixedSize(oid)) && StoresBounds(z, oid, FixedSize(oid), Num(min), Num(max))
    requires NumTypeOf(oid).signed || (min >= 0 && max >= 0)
    requires p.Numbers? && Recovers(col, oid, p, nulls) && row < |nulls|
    requires !nulls[row] ==> min <= OrZero(p.numbers[row]) <= max
    ensures Describes(z, col, row)
  {
    NumericRead(z, oid, FixedSize(oid), min, max, NumTypeOf(oid));
    if !NullBitAt(col.nullBitmap, row) {
      assert CellAt(col, row) == DatumAt(col, row);
    }
  }
}
