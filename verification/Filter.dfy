/** Pushed-down filters: extraction from expression trees, the per-row test and the
    zone-map test. */
module Filters {
  import opened Bytes
  import opened ZoneMaps
  import opened Types
  import opened Vectors
  import opened Chunks

  datatype PushedFilter = PushedFilter(
    colIdx: nat, seqnum: nat, oid: Byte, op: FilterOp, constant: seq<Byte>, inValues: seq<seq<Byte>>)

  predicate EncodedFor(oid: Byte, bytes: seq<Byte>)
  {
    IsStringType(oid) || (IsIntegerType(oid) && |bytes| == FixedSize(oid))
  }

  /** Every filter that extraction produces. */
  predicate WellFormed(pf: PushedFilter)
  {
    match pf.op
    case IsNull => true
    case IsNotNull => true
    case InSet => forall v :: v in pf.inValues ==> EncodedFor(pf.oid, v)
    case _ => EncodedFor(pf.oid, pf.constant)
  }

  // ----- zone-map test -----

  predicate CheckScalar(z: ZoneMap, op: FilterOp, oid: Byte, bytes: seq<Byte>)
    requires EncodedFor(oid, bytes)
  {
    if IsStringType(oid) then CheckString(z, op, bytes)
    else CheckFixed(z, op, NumTypeOf(oid), ReadNum(NumTypeOf(oid), bytes))
  }

  predicate EvalOnZoneMap(pf: PushedFilter, zm: Option<ZoneMap>)
    requires WellFormed(pf)
  {
    if zm.None? || !IsInited(zm.value) then true
    else if pf.op.IsNull? || pf.op.IsNotNull? then true
    else if pf.op.InSet? then exists v :: v in pf.inValues && CheckScalar(zm.value, Equal, pf.oid, v)
    else CheckScalar(zm.value, pf.op, pf.oid, pf.constant)
  }

  function GetZoneMap(zms: seq<ZoneMap>, seqnum: nat): Option<ZoneMap>
  {
    if seqnum < |zms| then Some(zms[seqnum]) else None
  }

  predicate AllWellFormed(filters: seq<PushedFilter>) { forall f :: f in filters ==> WellFormed(f) }

  predicate BlockPassesFilters(filters: seq<PushedFilter>, zms: seq<ZoneMap>)
    requires AllWellFormed(filters)
  {
    forall f :: f in filters ==> EvalOnZoneMap(f, GetZoneMap(zms, f.seqnum))
  }

  /** The object-level test against a manifest zone map of one column. */
  predicate ZoneMapPassesFilters(filters: seq<PushedFilter>, zm: ZoneMap, seqnum: nat)
    requires AllWellFormed(filters)
  {
    forall f :: f in filters && f.seqnum == seqnum ==> EvalOnZoneMap(f, Some(zm))
  }

  // ----- per-row test -----

  /** The test's own null lookup, which also checks the row count. */
  predicate FilterSeesNull(col: DecodedColumn, row: nat)
  {
    |col.nullBitmap| > 0 && row < col.rowCount && NullBitAt(col.nullBitmap, row)
  }

  /** The test's own string lookup; out-of-area references pass every comparison. */
  function FilterString(col: DecodedColumn, row: nat): Option<seq<Byte>>
    requires (row + 1) * 24 <= |col.data|
  {
    var slot := SlotAt(col.data, row);
    if SlotInline(slot) then Some(slot[1..1 + slot[0] as nat])
    else
      var off, len := SlotOffset(slot), SlotLength(slot);
      if (off + len) % 0x1_0000_0000 > |col.area| || off + len > |col.area| then None else Some(col.area[off..off + len])
  }

  /** `memcmp` over the shorter length, then the lengths. */
  function CompareStrings(a: seq<Byte>, b: seq<Byte>): int
  {
    var cmp := MemCmp(a, b, Min(|a|, |b|));
    if cmp == 0 && |a| != |b| then (if |a| < |b| then -1 else 1) else cmp
  }

  /** What the test reads at a row lies inside the column's data: nothing for a null test
      or a null row, else the row's own slot or number. */
  predicate Readable(pf: PushedFilter, col: DecodedColumn, row: nat)
  {
    || pf.op.IsNull? || pf.op.IsNotNull? || FilterSeesNull(col, row)
    || (if IsStringType(pf.oid) then (row + 1) * 24 <= |col.data|
        else IsIntegerType(pf.oid) ==> row * FixedSize(pf.oid) + FixedSize(pf.oid) <= |col.data|)
  }

  predicate RowPassesFilter(pf: PushedFilter, col: DecodedColumn, row: nat)
    requires WellFormed(pf) && Readable(pf, col, row)
  {
    if pf.op.IsNull? then FilterSeesNull(col, row)
    else if pf.op.IsNotNull? then !FilterSeesNull(col, row)
    else if FilterSeesNull(col, row) then false
    else if IsStringType(pf.oid) then
      var s := FilterString(col, row);
      if s.None? then true
      else if pf.op.InSet? then exists v :: v in pf.inValues && |v| == |s.value| && MemCmp(s.value, v, |v|) == 0
      else Holds(pf.op, CompareStrings(s.value, pf.constant))
    else if !IsIntegerType(pf.oid) then !pf.op.InSet?
    else
      var t := NumTypeOf(pf.oid);
      var v := ReadNum(t, RowBytes(col.data, t.width, row));
      if pf.op.InSet? then exists c :: c in pf.inValues && v == ReadNum(t, c)
      else Holds(pf.op, v - ReadNum(t, pf.constant))
  }

  lemma CompareStringsIsLex(op: FilterOp, a: seq<Byte>, b: seq<Byte>)
    ensures Holds(op, CompareStrings(a, b)) == Holds(op, Lex(a, b))
    ensures |a| == |b| ==> (MemCmp(a, b, |a|) == 0 <==> a == b)
  {
    MemCmpDecidesLex(a, b);
  }

  // ----- expression trees and their three-valued meaning -----

  datatype Expr =
    | Optional(child: Expr)
    | And(children: seq<Expr>)
    | Compare(op: Option<FilterOp>, constant: Option<Value>)
    | IsNullTest(onColumn: bool)
    | IsNotNullTest(onColumn: bool)
    | InList(onColumn: bool, values: seq<Option<Value>>)
    | OtherExpr

  predicate NonNullConstant(v: Option<Value>) { v.Some? && !v.value.NullV? }

  predicate Supports(e: Expr)
  {
    match e
    case Optional(_) => true
    case And(children) => forall i :: 0 <= i < |children| ==> Supports(children[i])
    case Compare(op, c) => NonNullConstant(c) && op.Some? && IsComparison(op.value)
    case IsNullTest(onColumn) => onColumn
    case IsNotNullTest(onColumn) => onColumn
    case InList(onColumn, vs) => onColumn && |vs| > 0 && forall i :: 0 <= i < |vs| ==> NonNullConstant(vs[i])
    case OtherExpr => false
  }

  datatype Truth = True | False | Unknown

  function Known(b: bool): Truth { if b then True else False }

  /** Sign of the comparison of two non-null values of one type. */
  function ValueOrder(a: Value, b: Value): Option<int>
  {
    match (a, b)
    case (IntV(i), IntV(j)) => Some(i - j)
    case (StrV(s), StrV(t)) => Some(Lex(s, t))
    case _ => None
  }

  function EvalCompare(op: FilterOp, cell: Value, c: Value): Truth
  {
    if cell.NullV? || ValueOrder(cell, c).None? then Unknown
    else Known(Holds(op, ValueOrder(cell, c).value))
  }

  /** SQL three-valued truth of a tree on a cell; optional subtrees may be dropped,
      so they are read as TRUE. */
  function Eval(e: Expr, cell: Value): Truth
  {
    match e
    case Optional(_) => True
    case And(children) =>
      if exists i :: 0 <= i < |children| && Eval(children[i], cell) == False then False
      else if exists i :: 0 <= i < |children| && Eval(children[i], cell) == Unknown then Unknown
      else True
    case Compare(op, c) => if op.Some? && c.Some? then EvalCompare(op.value, cell, c.value) else Unknown
    case IsNullTest(_) => Known(cell.NullV?)
    case IsNotNullTest(_) => Known(!cell.NullV?)
    case InList(_, vs) =>
      if exists v :: v in vs && v.Some? && EvalCompare(Equal, cell, v.value) == True then True
      else if exists v :: v in vs && (v.None? || EvalCompare(Equal, cell, v.value) == Unknown) then Unknown
      else False
    case OtherExpr => Unknown
  }

  // ----- extraction -----

  /** A constant in zone-map encoding. Values outside the type, and types other than
      strings and integers, are not encoded here. */
  function EncodeConstant(v: Value, oid: Byte): (r: Option<seq<Byte>>)
    ensures r.Some? ==> EncodedFor(oid, r.value)
  {
    if IsStringType(oid) then (if v.StrV? then Some(v.s) else None)
    else if IsIntegerType(oid) && v.IntV? && FitsType(NumTypeOf(oid), v.i + Epoch(oid)) then
      Some(PackNum(NumTypeOf(oid), v.i + Epoch(oid)))
    else None
  }

  /** Exactly the constants of the column's type are encoded, and the tests read back
      the value: the string itself, or the number counted from the type's epoch. */
  lemma EncodedReadsBack(v: Value, oid: Byte)
    ensures IsStringType(oid) ==> (EncodeConstant(v, oid).Some? <==> v.StrV?)
    ensures IsStringType(oid) && v.StrV? ==> EncodeConstant(v, oid) == Some(v.s)
    ensures IsIntegerType(oid) ==>
      (EncodeConstant(v, oid).Some? <==> v.IntV? && FitsType(NumTypeOf(oid), v.i + Epoch(oid)))
    ensures IsIntegerType(oid) && EncodeConstant(v, oid).Some? ==>
      ReadNum(NumTypeOf(oid), EncodeConstant(v, oid).value) == v.i + Epoch(oid)
  {
    if IsIntegerType(oid) && EncodeConstant(v, oid).Some? {
      ReadOfPack(NumTypeOf(oid), v.i + Epoch(oid), EncodeConstant(v, oid).value);
    }
  }

  predicate EncodableValue(v: Option<Value>, oid: Byte)
  {
    v.Some? && EncodeConstant(v.value, oid).Some?
  }

  function EncodeAll(vs: seq<Option<Value>>, oid: Byte): (r: seq<seq<Byte>>)
    requires forall i :: 0 <= i < |vs| ==> EncodableValue(vs[i], oid)
    ensures |r| == |vs|
    ensures forall i :: 0 <= i < |r| ==> EncodableValue(vs[i], oid) && r[i] == EncodeConstant(vs[i].value, oid).value
  {
    if vs == [] then [] else assert EncodableValue(vs[0], oid); [EncodeConstant(vs[0].value, oid).value] + EncodeAll(vs[1..], oid)
  }

  /** No constant of the tree defeats encoding. */
  predicate Encodable(e: Expr, oid: Byte)
  {
    match e
    case And(children) => forall i :: 0 <= i < |children| ==> Encodable(children[i], oid)
    case Compare(_, c) => EncodableValue(c, oid)
    case InList(_, vs) => forall i :: 0 <= i < |vs| ==> EncodableValue(vs[i], oid)
    case _ => true
  }

  /** The filters a supported, encodable tree stands for, in tree order. */
  function FiltersOf(e: Expr, colIdx: nat, seqnum: nat, oid: Byte): (fs: seq<PushedFilter>)
    requires Supports(e) && Encodable(e, oid)
    ensures AllWellFormed(fs)
    ensures forall f :: f in fs ==> f.colIdx == colIdx && f.seqnum == seqnum && f.oid == oid
    decreases e, 0
  {
    match e
    case Optional(_) => []
    case And(children) => FiltersOfAll(children, |children|, colIdx, seqnum, oid)
    case Compare(op, c) =>
      [PushedFilter(colIdx, seqnum, oid, op.value, EncodeConstant(c.value, oid).value, [])]
    case IsNullTest(_) => [PushedFilter(colIdx, seqnum, oid, IsNull, [], [])]
    case IsNotNullTest(_) => [PushedFilter(colIdx, seqnum, oid, IsNotNull, [], [])]
    case InList(_, vs) => [PushedFilter(colIdx, seqnum, oid, InSet, [], EncodeAll(vs, oid))]
  }

  /** The filters of the first `n` conjuncts. */
  function FiltersOfAll(es: seq<Expr>, n: nat, colIdx: nat, seqnum: nat, oid: Byte): (fs: seq<PushedFilter>)
    requires n <= |es| && forall i :: 0 <= i < |es| ==> Supports(es[i]) && Encodable(es[i], oid)
    ensures AllWellFormed(fs)
    ensures forall f :: f in fs ==> f.colIdx == colIdx && f.seqnum == seqnum && f.oid == oid
    decreases es, n
  {
    if n == 0 then []
    else FiltersOfAll(es, n - 1, colIdx, seqnum, oid) + FiltersOf(es[n - 1], colIdx, seqnum, oid)
  }

  class FilterList {
    var items: seq<PushedFilter>

    constructor ()
      ensures items == []
    {
      items := [];
    }

    method PushBack(pf: PushedFilter)
      modifies this
      ensures items == old(items) + [pf]
    {
      items := items + [pf];
    }

    /** Appends the filters of a tree, or reports the exception the original throws. */
    method ExtractExpression(e: Expr, colIdx: nat, seqnum: nat, oid: Byte) returns (ok: bool)
      requires Supports(e)
      modifies this
      ensures ok <==> Encodable(e, oid)
      ensures ok ==> items == old(items) + FiltersOf(e, colIdx, seqnum, oid)
      decreases e
    {
      match e {
        case Optional(_) => return true;
        case And(children) =>
          ok := ExtractChildren(children, colIdx, seqnum, oid);
        case Compare(op, c) =>
          var bytes := EncodeConstant(c.value, oid);
          if bytes.None? { return false; }
          PushBack(PushedFilter(colIdx, seqnum, oid, op.value, bytes.value, []));
          return true;
        case IsNullTest(_) =>
          PushBack(PushedFilter(colIdx, seqnum, oid, IsNull, [], []));
          return true;
        case IsNotNullTest(_) =>
          PushBack(PushedFilter(colIdx, seqnum, oid, IsNotNull, [], []));
          return true;
        case InList(_, vs) =>
          var inValues := EncodeList(vs, oid);
          if inValues.None? { return false; }
          PushBack(PushedFilter(colIdx, seqnum, oid, InSet, [], inValues.value));
          return true;
      }
    }

    method ExtractChildren(es: seq<Expr>, colIdx: nat, seqnum: nat, oid: Byte) returns (ok: bool)
      requires forall i :: 0 <= i < |es| ==> Supports(es[i])
      modifies this
      ensures ok <==> forall i :: 0 <= i < |es| ==> Encodable(es[i], oid)
      ensures ok ==> items == old(items) + FiltersOfAll(es, |es|, colIdx, seqnum, oid)
      decreases es
    {
      var i := 0;
      ghost var before := items;
      ghost var done: seq<PushedFilter> := [];
      while i < |es|
        invariant 0 <= i <= |es|
        invariant forall j :: 0 <= j < i ==> Encodable(es[j], oid)
        invariant items == before + done
        invariant (forall j :: 0 <= j < |es| ==> Encodable(es[j], oid)) ==> done == FiltersOfAll(es, i, colIdx, seqnum, oid)
      {
        ok := ExtractExpression(es[i], colIdx, seqnum, oid);
        if !ok { return false; }
        ghost var mine := FiltersOf(es[i], colIdx, seqnum, oid);
        Assoc(before, done, mine);
        done := done + mine;
        i := i + 1;
      }
      return true;
    }

    method EncodeList(vs: seq<Option<Value>>, oid: Byte) returns (r: Option<seq<seq<Byte>>>)
      requires forall i :: 0 <= i < |vs| ==> NonNullConstant(vs[i])
      ensures r.Some? <==> forall i :: 0 <= i < |vs| ==> EncodableValue(vs[i], oid)
      ensures r.Some? ==> r.value == EncodeAll(vs, oid)
    {
      var inValues: seq<seq<Byte>> := [];
      for i := 0 to |vs|
        invariant |inValues| == i
        invariant forall j :: 0 <= j < i ==> EncodableValue(vs[j], oid) && inValues[j] == EncodeConstant(vs[j].value, oid).value
      {
        assert NonNullConstant(vs[i]);
        var bytes := EncodeConstant(vs[i].value, oid);
        if bytes.None? { assert !EncodableValue(vs[i], oid); return None; }
        inValues := inValues + [bytes.value];
      }
      assert inValues == EncodeAll(vs, oid);
      r := Some(inValues);
    }
  }

  // ----- extraction preserves meaning -----

  predicate AllPass(fs: seq<PushedFilter>, col: DecodedColumn, row: nat)
    requires AllWellFormed(fs) && forall f :: f in fs ==> Readable(f, col, row)
  {
    forall f :: f in fs ==> RowPassesFilter(f, col, row)
  }

  /** On readable rows the test sees the null and the string the query sees. */
  lemma FilterAgreesWithCell(col: DecodedColumn, row: nat)
    requires RowOk(col, row)
    ensures FilterSeesNull(col, row) <==> CellAt(col, row).NullV?
    ensures IsStringType(col.mtype.oid) ==> FilterString(col, row) == Some(SlotString(SlotAt(col.data, row), col.area))
  {
  }

  lemma ComparePreserved(pf: PushedFilter, c: Value, col: DecodedColumn, row: nat)
    requires IsComparison(pf.op) && RowOk(col, row) && col.mtype.oid == pf.oid
    requires EncodeConstant(c, pf.oid) == Some(pf.constant)
    ensures Readable(pf, col, row) && WellFormed(pf)
    ensures RowPassesFilter(pf, col, row) <==> EvalCompare(pf.op, CellAt(col, row), c) == True
  {
    FilterAgreesWithCell(col, row);
    if IsStringType(pf.oid) {
      CompareStringsIsLex(pf.op, FilterString(col, row).value, pf.constant);
    } else {
      ReadOfPack(NumTypeOf(pf.oid), c.i + Epoch(pf.oid), pf.constant);
    }
  }

  lemma InListPreserved(pf: PushedFilter, vs: seq<Option<Value>>, col: DecodedColumn, row: nat)
    requires pf.op == InSet && RowOk(col, row) && col.mtype.oid == pf.oid
    requires |vs| > 0 && (forall i :: 0 <= i < |vs| ==> EncodableValue(vs[i], pf.oid)) && pf.inValues == EncodeAll(vs, pf.oid)
    ensures Readable(pf, col, row) && WellFormed(pf)
    ensures RowPassesFilter(pf, col, row) <==>
            exists i :: 0 <= i < |vs| && EvalCompare(Equal, CellAt(col, row), vs[i].value) == True
  {
    FilterAgreesWithCell(col, row);
    forall i | 0 <= i < |vs|
      ensures var one := pf.(op := Equal, constant := pf.inValues[i]);
        WellFormed(one) && Readable(one, col, row) &&
        (RowPassesFilter(one, col, row) <==> EvalCompare(Equal, CellAt(col, row), vs[i].value) == True)
    {
      ComparePreserved(pf.(op := Equal, constant := pf.inValues[i]), vs[i].value, col, row);
    }
    InIsSomeEqual(pf, col, row);
  }

  /** An IN test passes exactly when the EQUAL test of some element does. */
  lemma InIsSomeEqual(pf: PushedFilter, col: DecodedColumn, row: nat)
    requires pf.op == InSet && WellFormed(pf) && RowOk(col, row) && col.mtype.oid == pf.oid && Readable(pf, col, row)
    requires |pf.inValues| > 0
    ensures RowPassesFilter(pf, col, row) <==>
      exists i :: 0 <= i < |pf.inValues| && EncodedFor(pf.oid, pf.inValues[i]) &&
                  RowPassesFilter(pf.(op := Equal, constant := pf.inValues[i]), col, row)
  {
    FilterAgreesWithCell(col, row);
    assert pf.inValues[0] in pf.inValues;
    if IsStringType(pf.oid) && !FilterSeesNull(col, row) {
      var s := FilterString(col, row).value;
      forall v | v in pf.inValues
        ensures (|v| == |s| && MemCmp(s, v, |v|) == 0) <==> Holds(Equal, CompareStrings(s, v))
      {
        CompareStringsIsLex(Equal, s, v);
      }
    }
  }

  /** A row passes all extracted filters exactly when the tree is TRUE for its cell. */
  lemma {:induction false} ExtractionPreservesMeaning(
      e: Expr, colIdx: nat, seqnum: nat, oid: Byte, col: DecodedColumn, row: nat)
    requires Supports(e) && Encodable(e, oid) && RowOk(col, row) && col.mtype.oid == oid
    ensures var fs := FiltersOf(e, colIdx, seqnum, oid);
      && (forall f :: f in fs ==> Readable(f, col, row))
      && (AllPass(fs, col, row) <==> Eval(e, CellAt(col, row)) == True)
    decreases e, 0
  {
    FilterAgreesWithCell(col, row);
    var fs := FiltersOf(e, colIdx, seqnum, oid);
    assert |fs| == 1 ==> fs[0] in fs;
    match e
    case Optional(_) =>
    case And(children) =>
      AndPreservesMeaning(children, |children|, colIdx, seqnum, oid, col, row);
    case Compare(op, c) =>
      ComparePreserved(FiltersOf(e, colIdx, seqnum, oid)[0], c.value, col, row);
    case IsNullTest(_) =>
    case IsNotNullTest(_) =>
    case InList(_, vs) =>
      InListPreserved(FiltersOf(e, colIdx, seqnum, oid)[0], vs, col, row);
  }

  lemma {:induction false} AndPreservesMeaning(
      es: seq<Expr>, n: nat, colIdx: nat, seqnum: nat, oid: Byte, col: DecodedColumn, row: nat)
    requires n <= |es| && forall i :: 0 <= i < |es| ==> Supports(es[i]) && Encodable(es[i], oid)
    requires RowOk(col, row) && col.mtype.oid == oid
    ensures var fs := FiltersOfAll(es, n, colIdx, seqnum, oid);
      && (forall f :: f in fs ==> Readable(f, col, row))
      && (AllPass(fs, col, row) <==> forall i :: 0 <= i < n ==> Eval(es[i], CellAt(col, row)) == True)
    decreases es, n
  {
    hide Eval;
    hide Readable;
    hide AllPass;
    hide CellAt;
    hide FiltersOf;
    if n == 0 {
      AllPassNone(col, row);
    } else {
      AndPreservesMeaning(es, n - 1, colIdx, seqnum, oid, col, row);
      ExtractionPreservesMeaning(es[n - 1], colIdx, seqnum, oid, col, row);
      AllPassOfBoth(FiltersOfAll(es, n - 1, colIdx, seqnum, oid), FiltersOf(es[n - 1], colIdx, seqnum, oid), col, row);
    }
  }

  lemma AllPassNone(col: DecodedColumn, row: nat)
    ensures AllPass([], col, row)
  {
  }

  lemma AllPassOfBoth(a: seq<PushedFilter>, b: seq<PushedFilter>, col: DecodedColumn, row: nat)
    requires AllWellFormed(a) && AllWellFormed(b)
    requires (forall f :: f in a ==> Readable(f, col, row)) && forall f :: f in b ==> Readable(f, col, row)
    ensures AllPass(a + b, col, row) <==> AllPass(a, col, row) && AllPass(b, col, row)
  {
    assert forall f :: f in a ==> f in a + b;
    assert forall f :: f in b ==> f in a + b;
  }

  // ----- trees that nulls decide -----

  /** The tree compares nothing but nulls; its other parts are optional. */
  predicate TestsOnlyNull(e: Expr)
  {
    match e
    case Optional(_) => true
    case And(children) => forall i :: 0 <= i < |children| ==> TestsOnlyNull(children[i])
    case IsNullTest(_) => true
    case IsNotNullTest(_) => true
    case _ => false
  }

  predicate AllReadable(fs: seq<PushedFilter>, col: DecodedColumn, row: nat)
  {
    forall f :: f in fs ==> Readable(f, col, row)
  }

  /** Filters that read no data, because they test nulls only or the row is null. */
  lemma {:induction false} NullsDecide(e: Expr, colIdx: nat, seqnum: nat, oid: Byte, col: DecodedColumn, row: nat, cell: Value)
    requires Supports(e) && Encodable(e, oid) && (cell.NullV? || TestsOnlyNull(e))
    requires cell.NullV? <==> FilterSeesNull(col, row)
    ensures var fs := FiltersOf(e, colIdx, seqnum, oid);
      AllReadable(fs, col, row) && (AllPass(fs, col, row) <==> Eval(e, cell) == True)
    decreases e, 0
  {
    var fs := FiltersOf(e, colIdx, seqnum, oid);
    assert |fs| == 1 ==> fs[0] in fs;
    match e
    case Optional(_) =>
    case And(children) =>
      NullsDecideAll(children, |children|, colIdx, seqnum, oid, col, row, cell);
    case Compare(op, c) =>
    case IsNullTest(_) =>
    case IsNotNullTest(_) =>
    case InList(_, vs) =>
      assert vs[0] in vs;
  }

  lemma {:induction false} NullsDecideAll(
      es: seq<Expr>, n: nat, colIdx: nat, seqnum: nat, oid: Byte, col: DecodedColumn, row: nat, cell: Value)
    requires n <= |es| && forall i :: 0 <= i < |es| ==> Supports(es[i]) && Encodable(es[i], oid)
    requires cell.NullV? || forall i :: 0 <= i < |es| ==> TestsOnlyNull(es[i])
    requires cell.NullV? <==> FilterSeesNull(col, row)
    ensures var fs := FiltersOfAll(es, n, colIdx, seqnum, oid);
      && AllReadable(fs, col, row)
      && (AllPass(fs, col, row) <==> forall i :: 0 <= i < n ==> Eval(es[i], cell) == True)
    decreases es, n
  {
    hide Eval;
    hide Readable;
    hide AllPass;
    hide FiltersOf;
    if n == 0 {
      AllPassNone(col, row);
    } else {
      NullsDecideAll(es, n - 1, colIdx, seqnum, oid, col, row, cell);
      NullsDecide(es[n - 1], colIdx, seqnum, oid, col, row, cell);
      AllPassOfBoth(FiltersOfAll(es, n - 1, colIdx, seqnum, oid), FiltersOf(es[n - 1], colIdx, seqnum, oid), col, row);
    }
  }

  predicate TestsNulls(op: FilterOp) { op.IsNull? || op.IsNotNull? }

  /** Such trees push null tests only. */
  lemma {:induction false} OnlyNullTests(e: Expr, colIdx: nat, seqnum: nat, oid: Byte)
    requires Supports(e) && Encodable(e, oid) && TestsOnlyNull(e)
    ensures forall f :: f in FiltersOf(e, colIdx, seqnum, oid) ==> TestsNulls(f.op)
    decreases e, 0
  {
    match e
    case And(children) => OnlyNullTestsIn(children, |children|, colIdx, seqnum, oid);
    case _ =>
  }

  lemma {:induction false} OnlyNullTestsIn(es: seq<Expr>, n: nat, colIdx: nat, seqnum: nat, oid: Byte)
    requires n <= |es| && forall i :: 0 <= i < |es| ==> Supports(es[i]) && Encodable(es[i], oid) && TestsOnlyNull(es[i])
    ensures forall f :: f in FiltersOfAll(es, n, colIdx, seqnum, oid) ==> TestsNulls(f.op)
    decreases es, n
  {
    hide FiltersOf;
    if n > 0 {
      OnlyNullTestsIn(es, n - 1, colIdx, seqnum, oid);
      OnlyNullTests(es[n - 1], colIdx, seqnum, oid);
    }
  }

  /** The tree's filters can be tested at a row, on data or because nulls decide them: the
      test sees the null that a query sees, and, unless the cell is null or the tree tests
      nulls only, the value too. Every readable row of a FLAT column qualifies. */
  predicate TreeReads(e: Expr, col: DecodedColumn, row: nat)
  {
    && SeenOk(col, row) && (FilterSeesNull(col, row) <==> SeenAt(col, row).NullV?)
    && (SeenAt(col, row).NullV? || TestsOnlyNull(e) || (RowOk(col, row) && DatumAt(col, row) == SeenAt(col, row)))
  }

  lemma FlatReads(e: Expr, col: DecodedColumn, row: nat)
    requires RowOk(col, row) && !IsConstant(col)
    ensures TreeReads(e, col, row)
  {
    FilterAgreesWithCell(col, row);
  }

  /** Then they pass exactly when the tree is TRUE of what a query sees. */
  lemma TreeDecides(e: Expr, colIdx: nat, seqnum: nat, oid: Byte, col: DecodedColumn, row: nat)
    requires Supports(e) && Encodable(e, oid) && col.mtype.oid == oid && TreeReads(e, col, row)
    ensures var fs := FiltersOf(e, colIdx, seqnum, oid);
      AllReadable(fs, col, row) && (AllPass(fs, col, row) <==> Eval(e, SeenAt(col, row)) == True)
  {
    if SeenAt(col, row).NullV? || TestsOnlyNull(e) {
      NullsDecide(e, colIdx, seqnum, oid, col, row, SeenAt(col, row));
    } else {
      FilterAgreesWithCell(col, row);
      ExtractionPreservesMeaning(e, colIdx, seqnum, oid, col, row);
    }
  }

  // ----- pruning is sound -----

  /** The zone map speaks for the row: its value lies within the recorded bounds. */
  ghost predicate Describes(z: ZoneMap, col: DecodedColumn, row: nat)
    requires RowOk(col, row)
  {
    IsInited(z) && !NullBitAt(col.nullBitmap, row) ==>
      var oid := col.mtype.oid;
      if IsStringType(oid) then Admits(z, SlotString(SlotAt(col.data, row), col.area))
      else IsIntegerType(oid) ==>
        InRange(z, NumTypeOf(oid), ReadNum(NumTypeOf(oid), RowBytes(col.data, FixedSize(oid), row)))
  }

  /** The one case in which skipping is unsound (see `StringPruneSound`). */
  predicate TruncationHazard(pf: PushedFilter, z: ZoneMap)
  {
    IsStringType(pf.oid) && pf.op == NotEqual && IsInited(z) && MaxTruncated(z) && BothBoundsAre(z, pf.constant)
  }

  /** A zone map never rejects a filter that one of its rows passes. */
  lemma FilterPruneSound(pf: PushedFilter, z: ZoneMap, col: DecodedColumn, row: nat)
    requires WellFormed(pf) && RowOk(col, row) && col.mtype.oid == pf.oid && Readable(pf, col, row)
    requires Describes(z, col, row) && !TruncationHazard(pf, z)
    requires RowPassesFilter(pf, col, row)
    ensures EvalOnZoneMap(pf, Some(z))
  {
    FilterAgreesWithCell(col, row);
    if !IsInited(z) || pf.op.IsNull? || pf.op.IsNotNull? {
    } else if pf.op.InSet? {
      InPruneSound(pf, z, col, row);
    } else if IsStringType(pf.oid) {
      var s := FilterString(col, row).value;
      CompareStringsIsLex(pf.op, s, pf.constant);
      StringKept(z, pf.op, pf.constant, s);
    } else {
      var t := NumTypeOf(pf.oid);
      CheckFixedExact(z, pf.op, t, ReadNum(t, pf.constant));
    }
  }

  lemma InPruneSound(pf: PushedFilter, z: ZoneMap, col: DecodedColumn, row: nat)
    requires WellFormed(pf) && RowOk(col, row) && col.mtype.oid == pf.oid && Readable(pf, col, row)
    requires Describes(z, col, row) && IsInited(z) && pf.op.InSet?
    requires RowPassesFilter(pf, col, row)
    ensures EvalOnZoneMap(pf, Some(z))
  {
    FilterAgreesWithCell(col, row);
    if IsStringType(pf.oid) {
      var s := FilterString(col, row).value;
      var v :| v in pf.inValues && |v| == |s| && MemCmp(s, v, |v|) == 0;
      CompareStringsIsLex(Equal, s, v);
      StringKept(z, Equal, v, s);
    } else if IsIntegerType(pf.oid) {
      var t := NumTypeOf(pf.oid);
      var c :| c in pf.inValues && ReadNum(t, RowBytes(col.data, t.width, row)) == ReadNum(t, c);
      CheckFixedExact(z, Equal, t, ReadNum(t, c));
    }
  }

  // ----- chunk filtering -----

  predicate FilterPasses(f: PushedFilter, cols: seq<DecodedColumn>, row: nat)
  {
    f.colIdx < |cols| ==>
      WellFormed(f) && Readable(f, cols[f.colIdx], row) && RowPassesFilter(f, cols[f.colIdx], row)
  }

  predicate RowPasses(filters: seq<PushedFilter>, cols: seq<DecodedColumn>, row: nat)
  {
    forall f :: f in filters ==> FilterPasses(f, cols, row)
  }

  function Passer(filters: seq<PushedFilter>, cols: seq<DecodedColumn>): nat -> bool
  {
    (row: nat) => RowPasses(filters, cols, row)
  }

  predicate RowReadable(filters: seq<PushedFilter>, cols: seq<DecodedColumn>, row: nat)
  {
    forall f :: f in filters && f.colIdx < |cols| ==> WellFormed(f) && Readable(f, cols[f.colIdx], row)
  }

  lemma OneColumnPasses(fs: seq<PushedFilter>, pos: nat, decoded: seq<DecodedColumn>, row: nat)
    requires pos < |decoded| && AllWellFormed(fs)
    requires forall f :: f in fs ==> f.colIdx == pos && Readable(f, decoded[pos], row)
    ensures RowPasses(fs, decoded, row) <==> AllPass(fs, decoded[pos], row)
    ensures RowReadable(fs, decoded, row)
  {
    if RowPasses(fs, decoded, row) {
      forall f | f in fs ensures RowPassesFilter(f, decoded[pos], row) {
        assert FilterPasses(f, decoded, row);
      }
    }
  }

  /** Filters on the first column select a row exactly when their tree is TRUE of it. */
  lemma TreeSelects(e: Expr, oid: Byte, col: DecodedColumn, row: nat)
    requires Supports(e) && Encodable(e, oid) && col.mtype.oid == oid && TreeReads(e, col, row)
    ensures Passer(FiltersOf(e, 0, 0, oid), [col])(row) <==> Eval(e, SeenAt(col, row)) == True
  {
    TreeDecides(e, 0, 0, oid, col, row);
    OneColumnPasses(FiltersOf(e, 0, 0, oid), 0, [col], row);
  }

  /** The selection vector of a chunk, as positions within it. The caller keeps the
      whole chunk when every row passes. */
  method ApplyRowFilters(filters: seq<PushedFilter>, cols: seq<DecodedColumn>, rowCount: nat, srcOffset: nat)
    returns (sel: seq<nat>)
    requires forall row :: srcOffset <= row < srcOffset + rowCount ==> RowReadable(filters, cols, row)
    ensures IsSelection(sel, srcOffset, Selected(Passer(filters, cols), srcOffset, srcOffset + rowCount))
  {
    hide RowPasses;
    hide RowReadable;
    hide IsSelection;
    hide Selected;
    hide Passer;
    sel := [];
    ghost var p := Passer(filters, cols);
    EmptySelection(p, srcOffset);
    for row := 0 to rowCount
      invariant IsSelection(sel, srcOffset, Selected(p, srcOffset, srcOffset + row))
    {
      SelectionStep(sel, p, srcOffset, row);
      var pass := TestRow(filters, cols, srcOffset + row);
      if pass { sel := sel + [row]; }
    }
  }

  lemma EmptySelection(p: nat -> bool, offset: nat)
    ensures IsSelection([], offset, Selected(p, offset, offset))
  {
  }

  lemma SelectionStep(sel: seq<nat>, p: nat -> bool, offset: nat, n: nat)
    requires IsSelection(sel, offset, Selected(p, offset, offset + n))
    ensures IsSelection(if p(offset + n) then sel + [n] else sel, offset, Selected(p, offset, offset + n + 1))
  {
  }

  method TestRow(filters: seq<PushedFilter>, cols: seq<DecodedColumn>, row: nat) returns (pass: bool)
    requires RowReadable(filters, cols, row)
    ensures pass <==> Passer(filters, cols)(row)
  {
    pass := true;
    for k := 0 to |filters|
      invariant pass && forall j :: 0 <= j < k ==> FilterPasses(filters[j], cols, row)
    {
      var pf := filters[k];
      if pf.colIdx < |cols| && !RowPassesFilter(pf, cols[pf.colIdx], row) {
        assert !FilterPasses(pf, cols, row);
        return false;
      }
    }
  }
}
