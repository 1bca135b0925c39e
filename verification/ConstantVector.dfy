/** Constant vectors: one stored value that every row shows. */
module ConstantVector {
  import opened Bytes
  import opened Types
  import opened ZoneMaps
  import opened Vectors
  import opened VectorWriter
  import opened Filters
  import opened ColumnFill

  /** What the constant writer accepts: null, short strings, 32-bit integers, booleans,
      and 64-bit floats as their bytes. */
  predicate Supported(oid: Byte, v: Value)
  {
    match v
    case NullV => true
    case StrV(s) => IsStringType(oid) && |s| <= 23
    case IntV(i) => (oid == T_INT32 && FitsSigned(i, 4)) || (oid == T_BOOL && 0 <= i <= 1)
    case RawV(raw) => oid == T_FLOAT64 && |raw| == 8
  }

  function ConstantData(oid: Byte, v: Value): seq<Byte>
    requires Supported(oid, v)
  {
    match v
    case NullV => []
    case StrV(s) => [|s| as Byte] + s + Zeros(23 - |s|)
    case IntV(i) => if oid == T_INT32 then ToLE(AsUnsigned(i, 4), 4) else [i as Byte]
    case RawV(raw) => raw
  }

  function AllRows(isNull: bool, rows: nat): seq<bool> { seq(rows, _ => isNull) }

  ghost predicate IsConstantVector(bytes: seq<Byte>, oid: Byte, v: Value, rows: nat)
  {
    && Supported(oid, v)
    && exists nsp :: IsNullSection(nsp, AllRows(v.NullV?, rows)) &&
         bytes == Assembled([1] + PackType(oid, ElemSize(oid)), rows, ConstantData(oid, v), [], nsp)
  }

  method BuildConstantVector(oid: Byte, v: Value, rows: nat) returns (r: Option<seq<Byte>>)
    ensures r.Some? <==> Supported(oid, v)
    ensures r.Some? ==> IsConstantVector(r.value, oid, v, rows)
  {
    if !Supported(oid, v) { return None; }
    assert FitsSigned(ElemSize(oid), 4) by { Pow256Values(); }
    var nsp := BuildNullBitmap(AllRows(v.NullV?, rows));
    var bytes := AssembleVector([1] + PackType(oid, ElemSize(oid)), rows, ConstantData(oid, v), [], nsp);
    r := Some(bytes);
  }

  /** Decoding gives back the value, shared by all rows. */
  lemma ConstantDecoded(bytes: seq<Byte>, oid: Byte, v: Value, rows: nat)
    requires IsConstantVector(bytes, oid, v, rows) && rows < U32
    ensures DecodedFrom(bytes).Ok? && HoldsConstant(DecodedFrom(bytes).value, oid, v, rows)
  {
    Pow256Values();
    var nulls := AllRows(v.NullV?, rows);
    var nsp :| IsNullSection(nsp, nulls) &&
      bytes == Assembled([1] + PackType(oid, ElemSize(oid)), rows, ConstantData(oid, v), [], nsp);
    NullSectionRoundTrip(nsp, nulls);
    NullSectionSize(nsp, nulls);
    var head := [1] + PackType(oid, ElemSize(oid));
    AssembledRoundTrip(head, rows, ConstantData(oid, v), [], nsp);
    assert head[1..] == PackType(oid, ElemSize(oid));
    TypeRoundTrip(oid, ElemSize(oid));
    if !v.NullV? { assert NullCount(nulls) == 0; }
  }

  /** A decoded CONSTANT column of `rows` rows of `v`. */
  predicate HoldsConstant(col: DecodedColumn, oid: Byte, v: Value, rows: nat)
  {
    && Supported(oid, v) && IsConstant(col) && col.mtype.oid == oid && col.rowCount == rows
    && col.data == ConstantData(oid, v) && (!v.NullV? ==> col.nullCount == 0)
    && forall row :: 0 <= row < rows ==> (NullBitAt(col.nullBitmap, row) <==> v.NullV?)
  }

  /** The stored value is read back at row 0. */
  lemma ConstantDatum(col: DecodedColumn, oid: Byte, v: Value, rows: nat)
    requires HoldsConstant(col, oid, v, rows) && !v.NullV?
    ensures !ConstantIsNull(col) && Copyable(col, 0) && CopiedDatum(col, 0) == v
    ensures rows > 0 ==> RowOk(col, 0) && DatumAt(col, 0) == v
  {
    match v
    case StrV(s) =>
      assert SlotAt(col.data, 0) == col.data;
      assert col.data[1..1 + |s|] == s;
    case IntV(i) =>
      Pow256Values();
      assert RowBytes(col.data, FixedSize(oid), 0) == col.data;
      if oid == T_INT32 {
        assert col.data[..4] == col.data;
        FromToLE(AsUnsigned(i, 4), 4);
      } else {
        assert col.data[..1] == [i as Byte];
        assert FromLE([i as Byte]) == i;
      }
    case RawV(raw) =>
      assert RowBytes(col.data, 8, 0) == raw;
  }

  /** Every row of it shows the value. */
  lemma ConstantIsSeen(col: DecodedColumn, oid: Byte, v: Value, rows: nat, row: nat)
    requires HoldsConstant(col, oid, v, rows) && row < rows
    ensures SeenOk(col, row) && SeenAt(col, row) == v
  {
    if !v.NullV? { ConstantDatum(col, oid, v, rows); }
  }

  /** A constant vector, decoded and filled into a fresh output vector, shows its value at
      every position, whatever chunk is filled; a null constant shows NULL. */
  lemma ConstantRoundTrip(bytes: seq<Byte>, oid: Byte, v: Value, rows: nat, out: VecState, count: nat, offset: nat, i: nat)
    requires IsConstantVector(bytes, oid, v, rows) && rows < U32
    requires IsFresh(out) && count <= |out.data| && i < |out.data|
    ensures DecodedFrom(bytes).Ok? && Fillable(DecodedFrom(bytes).value, count, offset)
    ensures DecodedFrom(bytes).value.rowCount == rows
    ensures Shown(AfterFill(out, DecodedFrom(bytes).value, count, offset), i) == v
  {
    ConstantDecoded(bytes, oid, v, rows);
    if !v.NullV? { ConstantDatum(DecodedFrom(bytes).value, oid, v, rows); }
  }

  // ----- filters on CONSTANT columns -----

  /** Any other tree has a filter that reads its row's data. */
  lemma {:induction false} SomeFilterReads(e: Expr, colIdx: nat, seqnum: nat, oid: Byte) returns (f: PushedFilter)
    requires Supports(e) && Encodable(e, oid) && !TestsOnlyNull(e)
    ensures f in FiltersOf(e, colIdx, seqnum, oid) && !f.op.IsNull? && !f.op.IsNotNull? && f.oid == oid
    ensures IsStringType(oid) || IsIntegerType(oid)
    decreases e, 0
  {
    match e
    case And(children) =>
      var i :| 0 <= i < |children| && !TestsOnlyNull(children[i]);
      f := SomeFilterReads(children[i], colIdx, seqnum, oid);
      AmongAll(children, i, |children|, colIdx, seqnum, oid, f);
    case Compare(op, c) =>
      f := FiltersOf(e, colIdx, seqnum, oid)[0];
    case InList(_, vs) =>
      assert EncodableValue(vs[0], oid);
      f := FiltersOf(e, colIdx, seqnum, oid)[0];
  }

  lemma {:induction false} AmongAll(es: seq<Expr>, i: nat, n: nat, colIdx: nat, seqnum: nat, oid: Byte, f: PushedFilter)
    requires i < n <= |es| && forall j :: 0 <= j < |es| ==> Supports(es[j]) && Encodable(es[j], oid)
    requires f in FiltersOf(es[i], colIdx, seqnum, oid)
    ensures f in FiltersOfAll(es, n, colIdx, seqnum, oid)
    decreases n
  {
    hide FiltersOf;
    if i < n - 1 { AmongAll(es, i, n - 1, colIdx, seqnum, oid, f); }
  }

  /** A tree can be tested on a CONSTANT column at a row exactly when nulls decide it or the
      row is the first. */
  lemma ConstantReads(col: DecodedColumn, oid: Byte, v: Value, rows: nat, e: Expr, row: nat)
    requires HoldsConstant(col, oid, v, rows) && row < rows
    ensures TreeReads(e, col, row) <==> TestsOnlyNull(e) || v.NullV? || row == 0
  {
    ConstantIsSeen(col, oid, v, rows, row);
    if !v.NullV? {
      ConstantDatum(col, oid, v, rows);
      if row > 0 { NothingStored(col, oid, v, rows, row); }
    }
  }

  lemma NothingStored(col: DecodedColumn, oid: Byte, v: Value, rows: nat, row: nat)
    requires HoldsConstant(col, oid, v, rows) && !v.NullV? && 0 < row < rows
    ensures !RowOk(col, row)
  {
    if !IsStringType(oid) {
      var w := FixedSize(oid);
      assert |col.data| == w > 0;
      assert row * w >= w;
    }
  }

  /** Past row 0 there is no data to test. */
  lemma NothingToRead(col: DecodedColumn, oid: Byte, v: Value, rows: nat, f: PushedFilter, row: nat)
    requires HoldsConstant(col, oid, v, rows) && !v.NullV? && 0 < row < rows
    requires !f.op.IsNull? && !f.op.IsNotNull? && f.oid == oid && (IsStringType(oid) || IsIntegerType(oid))
    ensures !Readable(f, col, row)
  {
    if IsIntegerType(oid) {
      var w := FixedSize(oid);
      assert |col.data| == w > 0;
      assert row * w >= w;
    }
  }

  /** The filters of a tree read inside a CONSTANT column's data at a row, and then pass
      exactly when the tree is TRUE of the constant, if and only if they test nulls only,
      or the constant is NULL, or the row is the first. */
  lemma ConstantFilterExact(col: DecodedColumn, oid: Byte, v: Value, rows: nat, e: Expr, colIdx: nat, seqnum: nat, row: nat)
    requires HoldsConstant(col, oid, v, rows) && row < rows && Supports(e) && Encodable(e, oid)
    ensures var fs := FiltersOf(e, colIdx, seqnum, oid);
      && (AllReadable(fs, col, row) <==> TestsOnlyNull(e) || v.NullV? || row == 0)
      && (AllReadable(fs, col, row) ==> (AllPass(fs, col, row) <==> Eval(e, v) == True))
  {
    assert NullBitAt(col.nullBitmap, row) <==> v.NullV?;
    if TestsOnlyNull(e) || v.NullV? {
      NullsDecide(e, colIdx, seqnum, oid, col, row, v);
    } else if row == 0 {
      ConstantDatum(col, oid, v, rows);
      ExtractionPreservesMeaning(e, colIdx, seqnum, oid, col, 0);
    } else {
      var f := SomeFilterReads(e, colIdx, seqnum, oid);
      NothingToRead(col, oid, v, rows, f, row);
    }
  }

  /** Two rows of the constant 42 under the filter `= 42`: both rows match, and the
      second has no data for the filter to test. */
  lemma ConstantFilterFails() returns (bytes: seq<Byte>, e: Expr)
    ensures IsConstantVector(bytes, T_INT32, IntV(42), 2) && DecodedFrom(bytes).Ok?
    ensures Supports(e) && Encodable(e, T_INT32) && Eval(e, IntV(42)) == True
    ensures SeenOk(DecodedFrom(bytes).value, 1) && SeenAt(DecodedFrom(bytes).value, 1) == IntV(42)
    ensures !AllReadable(FiltersOf(e, 0, 0, T_INT32), DecodedFrom(bytes).value, 1)
  {
    Pow256Values();
    var v := IntV(42);
    e := Compare(Some(Equal), Some(v));
    NoNullSection(2);
    bytes := Assembled([1] + PackType(T_INT32, ElemSize(T_INT32)), 2, ConstantData(T_INT32, v), [], []);
    assert IsConstantVector(bytes, T_INT32, v, 2);
    ConstantDecoded(bytes, T_INT32, v, 2);
    hide DecodedFrom;
    hide FiltersOf;
    ConstantIsSeen(DecodedFrom(bytes).value, T_INT32, v, 2, 1);
    ConstantFilterExact(DecodedFrom(bytes).value, T_INT32, v, 2, e, 0, 0, 1);
  }

  /** Without nulls the null section is absent. */
  lemma NoNullSection(rows: nat)
    ensures IsNullSection([], AllRows(false, rows))
  {
    var nsp := SomeNullSection(AllRows(false, rows));
  }
}
