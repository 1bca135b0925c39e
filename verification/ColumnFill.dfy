/** Filling a query engine's output vector from a decoded column. */
module ColumnFill {
  import opened Bytes
  import opened ZoneMaps
  import opened Types
  import opened Vectors
  import opened Filters
  import opened Chunks

  /** The state of an output vector: values, validity mask and vector type. */
  datatype VecState = VecState(data: seq<Value>, valid: seq<bool>, isConstant: bool)

  predicate Sized(v: VecState) { |v.data| == |v.valid| > 0 }

  predicate IsFresh(v: VecState)
  {
    Sized(v) && !v.isConstant && forall i :: 0 <= i < |v.valid| ==> v.valid[i]
  }

  /** What a query reads at position `i`. */
  function Shown(v: VecState, i: nat): Value
    requires Sized(v) && i < |v.data|
  {
    var k := if v.isConstant then 0 else i;
    if v.valid[k] then v.data[k] else NullV
  }

  // ----- what the fill reads from a column -----

  /** The string the fill copies: a slot without the big marker is copied as "". */
  predicate SlotCopyable(slot: seq<Byte>, area: seq<Byte>)
    requires |slot| == 24
  {
    SlotInline(slot) || SlotMarker(slot) != VARLENA_BIG_MARKER || SlotOffset(slot) + SlotLength(slot) <= |area|
  }

  function CopiedString(slot: seq<Byte>, area: seq<Byte>): seq<Byte>
    requires |slot| == 24 && SlotCopyable(slot, area)
  {
    if SlotInline(slot) then slot[1..1 + slot[0] as nat]
    else if SlotMarker(slot) != VARLENA_BIG_MARKER then []
    else area[SlotOffset(slot)..SlotOffset(slot) + SlotLength(slot)]
  }

  predicate Copyable(col: DecodedColumn, row: nat)
  {
    if IsStringType(col.mtype.oid) then
      (row + 1) * 24 <= |col.data| && SlotCopyable(SlotAt(col.data, row), col.area)
    else
      var size := FixedSize(col.mtype.oid);
      size > 0 && row * size + size <= |col.data|
  }

  function CopiedDatum(col: DecodedColumn, row: nat): Value
    requires Copyable(col, row)
  {
    var oid := col.mtype.oid;
    if IsStringType(oid) then StrV(CopiedString(SlotAt(col.data, row), col.area))
    else
      var bytes := RowBytes(col.data, FixedSize(oid), row);
      if IsIntegerType(oid) then IntV(ReadNum(NumTypeOf(oid), bytes) - Epoch(oid)) else RawV(bytes)
  }

  /** The fill trusts the null count before it looks at the bitmap. */
  predicate FillSeesNull(col: DecodedColumn, row: nat)
  {
    col.nullCount != 0 && NullBitAt(col.nullBitmap, row)
  }

  /** Types of no fixed size that are not strings are left uncopied. */
  predicate Copies(oid: Byte) { IsStringType(oid) || FixedSize(oid) > 0 }

  /** What the fill reads lies inside the column. */
  predicate Fillable(col: DecodedColumn, count: nat, offset: nat)
  {
    Copies(col.mtype.oid) ==>
      if IsConstant(col) then ConstantIsNull(col) || Copyable(col, 0)
      else forall row :: offset <= row < offset + count ==> Copyable(col, row)
  }

  /** The vector after one fill. Validity bits are only ever cleared, and the vector
      type is only ever changed to constant. */
  function AfterFill(v: VecState, col: DecodedColumn, count: nat, offset: nat): (r: VecState)
    requires Sized(v) && count <= |v.data| && Fillable(col, count, offset)
    ensures Sized(r) && |r.data| == |v.data|
  {
    if IsConstant(col) then
      if ConstantIsNull(col) then VecState(v.data, v.valid[0 := false], true)
      else if !Copies(col.mtype.oid) then VecState(v.data, v.valid, true)
      else VecState(v.data[0 := CopiedDatum(col, 0)], v.valid, true)
    else
      VecState(
        seq(|v.data|, i requires 0 <= i < |v.data| =>
          if i < count && Copies(col.mtype.oid) then CopiedDatum(col, offset + i) else v.data[i]),
        seq(|v.data|, i requires 0 <= i < |v.data| =>
          v.valid[i] && !(i < count && FillSeesNull(col, offset + i))),
        v.isConstant)
  }

  /** The vector after its first positions have been given one value; nothing else changes. */
  function AfterRepeat(v: VecState, value: Value, count: nat): (r: VecState)
    requires Sized(v) && count <= |v.data|
    ensures Sized(r) && |r.data| == |v.data|
  {
    v.(data := seq(|v.data|, i requires 0 <= i < |v.data| => if i < count then value else v.data[i]))
  }

  class OutVector {
    const data: array<Value>
    const valid: array<bool>
    var isConstant: bool

    ghost predicate Valid() reads this { data.Length == valid.Length > 0 }

    ghost function View(): VecState
      reads this, data, valid
    {
      VecState(data[..], valid[..], isConstant)
    }

    constructor (capacity: nat)
      requires capacity > 0
      ensures Valid() && fresh(data) && fresh(valid) && data.Length == capacity && IsFresh(View())
    {
      data := new Value[capacity](_ => NullV);
      valid := new bool[capacity](_ => true);
      isConstant := false;
    }

    method CopyNumbers(col: DecodedColumn, count: nat, srcOffset: nat, epoch: int)
      requires Valid() && count <= data.Length && IsIntegerType(col.mtype.oid) && epoch == Epoch(col.mtype.oid)
      requires forall row :: srcOffset <= row < srcOffset + count ==> Copyable(col, row)
      modifies data
      ensures forall i :: 0 <= i < data.Length ==>
                data[i] == if i < count then CopiedDatum(col, srcOffset + i) else old(data[i])
    {
      var t := NumTypeOf(col.mtype.oid);
      for i := 0 to count
        invariant forall j :: 0 <= j < data.Length ==>
                    data[j] == if j < i then CopiedDatum(col, srcOffset + j) else old(data[j])
      {
        assert Copyable(col, srcOffset + i);
        data[i] := IntV(ReadNum(t, RowBytes(col.data, t.width, srcOffset + i)) - epoch);
      }
    }

    method CopyRaw(col: DecodedColumn, count: nat, srcOffset: nat)
      requires Valid() && count <= data.Length && !IsIntegerType(col.mtype.oid) && !IsStringType(col.mtype.oid)
      requires Copies(col.mtype.oid) ==> forall row :: srcOffset <= row < srcOffset + count ==> Copyable(col, row)
      modifies data
      ensures forall i :: 0 <= i < data.Length ==>
                data[i] == if i < count && Copies(col.mtype.oid) then CopiedDatum(col, srcOffset + i) else old(data[i])
    {
      var size := FixedSize(col.mtype.oid);
      if size == 0 { return; }
      for i := 0 to count
        invariant forall j :: 0 <= j < data.Length ==>
                    data[j] == if j < i then CopiedDatum(col, srcOffset + j) else old(data[j])
      {
        assert Copyable(col, srcOffset + i);
        data[i] := RawV(RowBytes(col.data, size, srcOffset + i));
      }
    }

    method CopyVarlen(col: DecodedColumn, count: nat, srcOffset: nat)
      requires Valid() && count <= data.Length && IsStringType(col.mtype.oid)
      requires forall row :: srcOffset <= row < srcOffset + count ==> Copyable(col, row)
      modifies data
      ensures forall i :: 0 <= i < data.Length ==>
                data[i] == if i < count then CopiedDatum(col, srcOffset + i) else old(data[i])
    {
      for i := 0 to count
        invariant forall j :: 0 <= j < data.Length ==>
                    data[j] == if j < i then CopiedDatum(col, srcOffset + j) else old(data[j])
      {
        assert Copyable(col, srcOffset + i);
        var slot := SlotAt(col.data, srcOffset + i);
        var str: seq<Byte>;
        if SlotInline(slot) {
          str := slot[1..1 + slot[0] as nat];
        } else if SlotMarker(slot) != VARLENA_BIG_MARKER {
          str := [];
        } else {
          str := col.area[SlotOffset(slot)..SlotOffset(slot) + SlotLength(slot)];
        }
        data[i] := StrV(str);
      }
    }

    method SetNullMask(col: DecodedColumn, count: nat, srcOffset: nat)
      requires Valid() && count <= valid.Length
      modifies valid
      ensures forall i :: 0 <= i < valid.Length ==>
                valid[i] == (old(valid[i]) && !(i < count && FillSeesNull(col, srcOffset + i)))
    {
      if col.nullCount == 0 { return; }
      for i := 0 to count
        invariant forall j :: 0 <= j < valid.Length ==>
                    valid[j] == (old(valid[j]) && !(j < i && FillSeesNull(col, srcOffset + j)))
      {
        var srcRow := srcOffset + i;
        if srcRow / 64 < |col.nullBitmap| && BitSet(col.nullBitmap[srcRow / 64], srcRow % 64) {
          valid[i] := false;
        }
      }
    }

    method FillConstant(col: DecodedColumn)
      requires Valid() && (Copies(col.mtype.oid) ==> ConstantIsNull(col) || Copyable(col, 0))
      modifies this, data, valid
      ensures isConstant
      ensures data[..] == if ConstantIsNull(col) || !Copies(col.mtype.oid) then old(data[..])
                          else old(data[..])[0 := CopiedDatum(col, 0)]
      ensures valid[..] == if ConstantIsNull(col) then old(valid[..])[0 := false] else old(valid[..])
    {
      isConstant := true;
      if col.data == [] {
        valid[0] := false;
        return;
      }
      var isNull := false;
      if col.nullCount > 0 && |col.nullBitmap| > 0 {
        isNull := BitSet(col.nullBitmap[0], 0);
      }
      if isNull {
        valid[0] := false;
        return;
      }
      if Copies(col.mtype.oid) {
        data[0] := CopiedDatum(col, 0);
      }
    }

    /** `std::fill_n` over the vector's data. */
    method Repeat(value: Value, count: nat)
      requires Valid() && count <= data.Length
      modifies data
      ensures View() == AfterRepeat(old(View()), value, count)
    {
      for i := 0 to count
        invariant forall j :: 0 <= j < data.Length ==> data[j] == if j < i then value else old(data[j])
      {
        data[i] := value;
      }
    }

    method FillColumn(col: DecodedColumn, count: nat, srcOffset: nat)
      requires Valid() && count <= data.Length && Fillable(col, count, srcOffset)
      modifies this, data, valid
      ensures View() == AfterFill(old(View()), col, count, srcOffset)
    {
      if IsConstant(col) {
        FillConstant(col);
        return;
      }
      if IsStringType(col.mtype.oid) {
        CopyVarlen(col, count, srcOffset);
      } else if IsIntegerType(col.mtype.oid) {
        CopyNumbers(col, count, srcOffset, Epoch(col.mtype.oid));
      } else {
        CopyRaw(col, count, srcOffset);
      }
      SetNullMask(col, count, srcOffset);
    }
  }

  // ----- agreement with the filter side -----

  /** Filter and fill agree on which rows are null exactly when a zero null count
      means that no bit of the bitmap is set. */
  lemma NullsAgree(col: DecodedColumn)
    ensures (forall row :: 0 <= row < col.rowCount ==> (FilterSeesNull(col, row) <==> FillSeesNull(col, row)))
       <==> (col.nullCount == 0 ==> forall row :: 0 <= row < col.rowCount ==> !NullBitAt(col.nullBitmap, row))
  {
    if forall row :: 0 <= row < col.rowCount ==> (FilterSeesNull(col, row) <==> FillSeesNull(col, row)) {
      forall row | 0 <= row < col.rowCount && col.nullCount == 0 ensures !NullBitAt(col.nullBitmap, row) {
        assert FilterSeesNull(col, row) <==> FillSeesNull(col, row);
      }
    }
  }

  /** Filter and fill agree on a string exactly when its slot is inline, carries the
      big marker, or refers to no bytes inside the area; a marked slot that refers outside
      the area, which the fill cannot copy, passes every comparison. */
  lemma StringsAgree(col: DecodedColumn, row: nat)
    requires (row + 1) * 24 <= |col.data| && |col.area| < U32
    ensures !SlotCopyable(SlotAt(col.data, row), col.area) ==> FilterString(col, row) == None
    ensures SlotCopyable(SlotAt(col.data, row), col.area) ==>
      (FilterString(col, row) == Some(CopiedString(SlotAt(col.data, row), col.area)) <==>
       var slot := SlotAt(col.data, row);
       (SlotInline(slot) || SlotMarker(slot) == VARLENA_BIG_MARKER || (SlotLength(slot) == 0 && SlotOffset(slot) <= |col.area|)))
  {
    var slot := SlotAt(col.data, row);
    if !SlotInline(slot) {
      var off, len := SlotOffset(slot), SlotLength(slot);
      if off + len <= |col.area| {
        assert (off + len) % 0x1_0000_0000 == off + len;
        assert FilterString(col, row) == Some(col.area[off..off + len]);
        assert |col.area[off..off + len]| == len;
      } else {
        assert FilterString(col, row) == None;
      }
    }
  }

  predicate NullCountTrue(col: DecodedColumn)
  {
    col.nullCount == 0 ==> forall row :: 0 <= row < col.rowCount ==> !NullBitAt(col.nullBitmap, row)
  }

  /** On rows the writer could have produced, the fill copies the cell that the filter tests. */
  lemma FillCopiesCell(col: DecodedColumn, row: nat)
    requires RowOk(col, row) && NullCountTrue(col)
    ensures Copyable(col, row)
    ensures (if FillSeesNull(col, row) then NullV else CopiedDatum(col, row)) == CellAt(col, row)
  {
  }

  /** Every row of a range can be shown: its null count is trusted only in FLAT columns. */
  predicate Showable(col: DecodedColumn, from: nat, until: nat)
  {
    (IsConstant(col) || NullCountTrue(col)) && forall row :: from <= row < until ==> SeenOk(col, row)
  }

  lemma ShowableIsFillable(col: DecodedColumn, count: nat, offset: nat)
    requires Showable(col, offset, offset + count) && count > 0
    ensures Fillable(col, count, offset)
  {
    assert SeenOk(col, offset);
    forall row | offset <= row < offset + count ensures IsConstant(col) || Copyable(col, row) {
      assert SeenOk(col, row);
    }
  }

  /** A fresh vector shows exactly the chunk it was filled with, FLAT or CONSTANT. */
  lemma FreshFillShowsChunk(v: VecState, col: DecodedColumn, count: nat, offset: nat, i: nat)
    requires IsFresh(v) && i < count <= |v.data| && Showable(col, offset, offset + count)
    ensures Fillable(col, count, offset)
    ensures Shown(AfterFill(v, col, count, offset), i) == SeenAt(col, offset + i)
  {
    ShowableIsFillable(col, count, offset);
    assert SeenOk(col, offset + i);
    if !IsConstant(col) { FillCopiesCell(col, offset + i); }
  }

  // ----- refilling without a reset -----

  /** A column that can be filled in whole can be filled in part. */
  lemma FillablePart(col: DecodedColumn, total: nat, count: nat, offset: nat)
    requires Fillable(col, total, 0) && offset + count <= total
    ensures Fillable(col, count, offset)
  {
  }

  /** One pass of the emit loop: a fill of the output vector. */
  datatype Pass = Pass(col: DecodedColumn, count: nat, offset: nat) {
    predicate Fits(capacity: nat) { count <= capacity && Fillable(col, count, offset) }

    /** The cell the pass is meant to show. */
    function Cell(i: nat): Value
      requires i < count && Fillable(col, count, offset) && Copies(col.mtype.oid)
    {
      if IsConstant(col) then (if ConstantIsNull(col) then NullV else CopiedDatum(col, 0))
      else if FillSeesNull(col, offset + i) then NullV
      else CopiedDatum(col, offset + i)
    }

    /** Positions whose validity bit the pass clears; a CONSTANT one touches only the first. */
    predicate MarksNull(i: nat)
    {
      if IsConstant(col) then i == 0 && ConstantIsNull(col) else i < count && FillSeesNull(col, offset + i)
    }
  }

  /** Over a chunk that can be shown, that is what a query sees there. */
  lemma CellIsSeen(p: Pass, i: nat)
    requires Showable(p.col, p.offset, p.offset + p.count) && i < p.count && Copies(p.col.mtype.oid)
    ensures Fillable(p.col, p.count, p.offset) && p.Cell(i) == SeenAt(p.col, p.offset + i)
  {
    ShowableIsFillable(p.col, p.count, p.offset);
    assert SeenOk(p.col, p.offset + i);
    if !IsConstant(p.col) { FillCopiesCell(p.col, p.offset + i); }
  }

  predicate AllFit(passes: seq<Pass>, capacity: nat)
  {
    forall k :: 0 <= k < |passes| ==> passes[k].Fits(capacity)
  }

  /** The vector after the first `n` passes of the emit loop within one call. */
  function AfterPasses(v: VecState, passes: seq<Pass>, n: nat): (r: VecState)
    requires Sized(v) && AllFit(passes, |v.data|) && n <= |passes|
    ensures Sized(r) && |r.data| == |v.data|
  {
    if n == 0 then v
    else
      var p := passes[n - 1];
      AfterFill(AfterPasses(v, passes, n - 1), p.col, p.count, p.offset)
  }

  /** One of the first `n` passes marked position `i` null. */
  predicate MarkedNull(passes: seq<Pass>, n: nat, i: nat)
    requires n <= |passes|
  {
    exists k :: 0 <= k < n && passes[k].MarksNull(i)
  }

  /** One of the first `n` passes was CONSTANT. */
  predicate MadeConstant(passes: seq<Pass>, n: nat)
    requires n <= |passes|
  {
    exists k :: 0 <= k < n && IsConstant(passes[k].col)
  }

  /** Nothing is reset: a position is valid only if no pass marked it null, and the vector
      is constant as soon as one pass was. */
  lemma {:induction false} StateAfterPasses(v: VecState, passes: seq<Pass>, n: nat, i: nat)
    requires Sized(v) && AllFit(passes, |v.data|) && n <= |passes| && i < |v.data|
    ensures AfterPasses(v, passes, n).valid[i] <==> v.valid[i] && !MarkedNull(passes, n, i)
    ensures AfterPasses(v, passes, n).isConstant <==> v.isConstant || MadeConstant(passes, n)
  {
    if n > 0 {
      StateAfterPasses(v, passes, n - 1, i);
    }
  }

  /** What the last pass shows at `i` when an earlier one, or it itself, is CONSTANT: its
      first cell, or NULL when an earlier pass left a null at position 0. */
  function ShownByConstant(passes: seq<Pass>): Value
    requires passes != [] && var last := passes[|passes| - 1];
      last.count > 0 && Fillable(last.col, last.count, last.offset) && Copies(last.col.mtype.oid)
  {
    if MarkedNull(passes, |passes| - 1, 0) then NullV else passes[|passes| - 1].Cell(0)
  }

  /** At these positions of the last chunk: with no CONSTANT pass, no earlier pass left a
      null where the last has a value; with one, the cell equals the chunk's first, and no
      earlier pass left a null at position 0 unless that cell is null too. */
  predicate RetryHarmless(passes: seq<Pass>, sel: seq<nat>)
    requires passes != [] && var last := passes[|passes| - 1];
      Fillable(last.col, last.count, last.offset) && Copies(last.col.mtype.oid) && forall j :: 0 <= j < |sel| ==> sel[j] < last.count
  {
    var n := |passes| - 1;
    forall j :: 0 <= j < |sel| ==>
      if MadeConstant(passes, n + 1) then passes[n].Cell(sel[j]) == ShownByConstant(passes)
      else MarkedNull(passes, n, sel[j]) ==> passes[n].Cell(sel[j]) == NullV
  }

  /** Retrying into the same vector shows the selected positions of the last chunk correctly
      exactly when it is harmless there. */
  lemma RetryExact(v: VecState, passes: seq<Pass>, sel: seq<nat>)
    requires IsFresh(v) && AllFit(passes, |v.data|) && passes != []
    requires passes[|passes| - 1].Fits(|v.data|) && Copies(passes[|passes| - 1].col.mtype.oid)
    requires forall j :: 0 <= j < |sel| ==> sel[j] < passes[|passes| - 1].count
    ensures var last := passes[|passes| - 1];
      (forall j :: 0 <= j < |sel| ==> Shown(AfterPasses(v, passes, |passes|), sel[j]) == last.Cell(sel[j])) <==>
      RetryHarmless(passes, sel)
  {
    var n := |passes| - 1;
    var last := passes[n];
    forall j | 0 <= j < |sel|
      ensures Shown(AfterPasses(v, passes, n + 1), sel[j]) ==
        if MadeConstant(passes, n + 1) then ShownByConstant(passes)
        else if MarkedNull(passes, n, sel[j]) then NullV else last.Cell(sel[j])
    {
      LastPassShows(v, passes, sel[j]);
    }
  }

  /** One fill of a vector in any state. */
  lemma FillShows(v: VecState, p: Pass, i: nat)
    requires Sized(v) && p.Fits(|v.data|) && i < p.count && Copies(p.col.mtype.oid)
    ensures Shown(AfterFill(v, p.col, p.count, p.offset), i) ==
      if v.isConstant || IsConstant(p.col) then (if v.valid[0] then p.Cell(0) else NullV)
      else if v.valid[i] then p.Cell(i) else NullV
  {
    hide CopiedDatum;
    hide FillSeesNull;
    hide ConstantIsNull;
    hide Copyable;
  }

  lemma LastPassShows(v: VecState, passes: seq<Pass>, i: nat)
    requires IsFresh(v) && AllFit(passes, |v.data|) && passes != []
    requires passes[|passes| - 1].Fits(|v.data|)
    requires i < passes[|passes| - 1].count && Copies(passes[|passes| - 1].col.mtype.oid)
    ensures var n := |passes| - 1;
      Shown(AfterPasses(v, passes, n + 1), i) ==
        if MadeConstant(passes, n + 1) then ShownByConstant(passes)
        else if MarkedNull(passes, n, i) then NullV else passes[n].Cell(i)
  {
    var n := |passes| - 1;
    StateAfterPasses(v, passes, n, 0);
    StateAfterPasses(v, passes, n, i);
    FillShows(AfterPasses(v, passes, n), passes[n], i);
    hide AfterFill;
    hide Fillable;
    hide MarkedNull;
  }

  function SmallColumn(bytes: seq<Byte>, nullBitmap: seq<nat>, vecClass: Byte): DecodedColumn
  {
    DecodedColumn(MOType(T_UINT8, 0, 0, 0, 1, 0, 0), |bytes|, bytes, [], nullBitmap, |nullBitmap|, false, vecClass)
  }

  lemma SmallColumnRow(bytes: seq<Byte>, nullBitmap: seq<nat>, vecClass: Byte, row: nat)
    requires row < |bytes|
    ensures var col := SmallColumn(bytes, nullBitmap, vecClass);
      RowOk(col, row) && DatumAt(col, row) == CopiedDatum(col, row) == IntV(bytes[row] as int)
  {
    var one := RowBytes(bytes, 1, row);
    assert one == [bytes[row]] && one[..1] == one;
    assert FromLE(one) == bytes[row] as nat + 256 * FromLE(one[1..]);
  }

  /** Without nulls every row shows its own byte, or the first one if CONSTANT. */
  lemma SmallColumnShows(bytes: seq<Byte>, vecClass: Byte, row: nat)
    requires row < |bytes|
    ensures var col := SmallColumn(bytes, [], vecClass);
      && Showable(col, 0, |bytes|) && Fillable(col, |bytes|, 0)
      && SeenAt(col, row) == IntV(bytes[if IsConstant(col) then 0 else row] as int)
      && Copies(col.mtype.oid) && Pass(col, |bytes|, 0).Cell(row) == SeenAt(col, row)
  {
    var col := SmallColumn(bytes, [], vecClass);
    SmallColumnRow(bytes, [], vecClass, 0);
    SmallColumnRow(bytes, [], vecClass, row);
    forall r | 0 <= r < |bytes| ensures SeenOk(col, r) { SmallColumnRow(bytes, [], vecClass, r); }
    hide RowOk;
    hide DatumAt;
    hide CopiedDatum;
    ShowableIsFillable(col, |bytes|, 0);
  }

  /** A FLAT column of one null row. */
  lemma OneNullShows(bytes: seq<Byte>, nullBitmap: seq<nat>)
    requires |bytes| == |nullBitmap| == 1 && NullBitAt(nullBitmap, 0)
    ensures var col := SmallColumn(bytes, nullBitmap, 0);
      Showable(col, 0, 1) && Fillable(col, 1, 0) && SeenAt(col, 0) == NullV && FillSeesNull(col, 0)
  {
    SmallColumnRow(bytes, nullBitmap, 0, 0);
    hide DatumAt;
    hide NullBitAt;
    hide RowOk;
    ShowableIsFillable(SmallColumn(bytes, nullBitmap, 0), 1, 0);
  }

  lemma FirstBitSet()
    ensures NullBitAt([1], 0)
  {
    hide BitSet;
    OneIsOdd();
  }

  lemma OneIsOdd()
    ensures BitSet(1, 0)
  {
  }

  /** What `column op value` selects of the rows of a column. */
  function RowsWhere(op: FilterOp, value: int, col: DecodedColumn): seq<nat>
    requires IsComparison(op) && 0 <= value < 256 && col.mtype.oid == T_UINT8
  {
    assert Encodable(Compare(Some(op), Some(IntV(value))), T_UINT8) by { Pow256Values(); }
    Selected(Passer(FiltersOf(Compare(Some(op), Some(IntV(value))), 0, 0, T_UINT8), [col]), 0, col.rowCount)
  }

  lemma SelectsRow(op: FilterOp, value: int, col: DecodedColumn, row: nat)
    requires IsComparison(op) && 0 <= value < 256 && col.mtype.oid == T_UINT8 && row < col.rowCount
    requires TreeReads(Compare(Some(op), Some(IntV(value))), col, row)
    ensures row in RowsWhere(op, value, col) <==> SeenAt(col, row).IntV? && Holds(op, SeenAt(col, row).i - value)
  {
    var e := Compare(Some(op), Some(IntV(value)));
    assert Encodable(e, T_UINT8) by { Pow256Values(); }
    hide TreeReads;
    hide FiltersOf;
    hide Passer;
    TreeSelects(e, T_UINT8, col, row);
    assert Eval(e, SeenAt(col, row)) == EvalCompare(op, SeenAt(col, row), IntV(value));
  }

  lemma SmallColumnReads(e: Expr, bytes: seq<Byte>, vecClass: Byte, row: nat)
    requires row < |bytes| && (vecClass == 1 ==> row == 0)
    ensures TreeReads(e, SmallColumn(bytes, [], vecClass), row)
  {
    SmallColumnRow(bytes, [], vecClass, row);
    hide RowOk;
    hide DatumAt;
  }

  lemma NullColumnReads(e: Expr, bytes: seq<Byte>, nullBitmap: seq<nat>)
    requires |bytes| == |nullBitmap| == 1 && NullBitAt(nullBitmap, 0)
    ensures TreeReads(e, SmallColumn(bytes, nullBitmap, 0), 0)
  {
    SmallColumnRow(bytes, nullBitmap, 0, 0);
    FlatReads(e, SmallColumn(bytes, nullBitmap, 0), 0);
  }

  /** The condition filters out one column's only row, and selects a row of the other. */
  lemma SelectsSecond(op: FilterOp, value: int, first: DecodedColumn, second: DecodedColumn, row: nat)
    requires IsComparison(op) && 0 <= value < 256 && first.mtype.oid == second.mtype.oid == T_UINT8
    requires first.rowCount == 1 && TreeReads(Compare(Some(op), Some(IntV(value))), first, 0)
    requires row < second.rowCount && TreeReads(Compare(Some(op), Some(IntV(value))), second, row)
    requires !(SeenAt(first, 0).IntV? && Holds(op, SeenAt(first, 0).i - value))
    requires SeenAt(second, row).IntV? && Holds(op, SeenAt(second, row).i - value)
    ensures RowsWhere(op, value, first) == [] && row in RowsWhere(op, value, second)
  {
    hide *;
    SelectsRow(op, value, first, 0);
    SelectsRow(op, value, second, row);
    NoneSelected(op, value, first);
  }

  /** A block of one null row that `= 5` filters out, then a block of one row with value
      5, which it selects: the value is shown as NULL. */
  lemma RetryCanHideValue() returns (v: VecState, first: DecodedColumn, second: DecodedColumn)
    ensures IsFresh(v) && |v.data| == 1 && !IsConstant(first) && !IsConstant(second)
    ensures Showable(first, 0, 1) && Showable(second, 0, 1) && Fillable(first, 1, 0) && Fillable(second, 1, 0)
    ensures SeenAt(first, 0) == NullV && SeenAt(second, 0) == IntV(5)
    ensures first.mtype.oid == second.mtype.oid == T_UINT8 && first.rowCount == second.rowCount == 1
    ensures RowsWhere(Equal, 5, first) == [] && 0 in RowsWhere(Equal, 5, second)
    ensures Shown(AfterFill(AfterFill(v, first, 1, 0), second, 1, 0), 0) == NullV
  {
    v := VecState([NullV], [true], false);
    first, second := SmallColumn([0], [1], 0), SmallColumn([5], [], 0);
    var e := Compare(Some(Equal), Some(IntV(5)));
    FirstBitSet();
    OneNullShows([0], [1]);
    SmallColumnShows([5], 0, 0);
    NullColumnReads(e, [0], [1]);
    SmallColumnReads(e, [5], 0, 0);
    hide TreeReads;
    hide Showable;
    hide Fillable;
    hide SeenAt;
    hide FillSeesNull;
    hide RowsWhere;
    SelectsSecond(Equal, 5, first, second, 0);
    FillShows(AfterFill(v, first, 1, 0), Pass(second, 1, 0), 0);
  }

  lemma NoneSelected(op: FilterOp, value: int, col: DecodedColumn)
    requires IsComparison(op) && 0 <= value < 256 && col.mtype.oid == T_UINT8 && col.rowCount == 1
    requires 0 !in RowsWhere(op, value, col)
    ensures RowsWhere(op, value, col) == []
  {
    FirstIsMember(RowsWhere(op, value, col));
  }

  /** A CONSTANT block of value 7 that `< 3` filters out, then a FLAT block of the values 1
      and 2, which it selects, no null anywhere: the second row is shown as 1. */
  lemma RetryKeepsConstant() returns (v: VecState, first: DecodedColumn, second: DecodedColumn)
    ensures IsFresh(v) && |v.data| == 2 && IsConstant(first) && !IsConstant(second)
    ensures first.nullCount == second.nullCount == 0
    ensures Showable(first, 0, 1) && Showable(second, 0, 2) && Fillable(first, 1, 0) && Fillable(second, 2, 0)
    ensures SeenAt(first, 0) == IntV(7) && SeenAt(second, 1) == IntV(2)
    ensures first.mtype.oid == second.mtype.oid == T_UINT8 && first.rowCount == 1 && second.rowCount == 2
    ensures RowsWhere(LessThan, 3, first) == [] && 1 in RowsWhere(LessThan, 3, second)
    ensures Shown(AfterFill(AfterFill(v, first, 1, 0), second, 2, 0), 1) == IntV(1)
  {
    hide *;
    v := VecState([NullV, NullV], [true, true], false);
    first, second := SmallColumn([7], [], 1), SmallColumn([1, 2], [], 0);
    FreshPair(v);
    SmallColumnIs([7], 1);
    SmallColumnIs([1, 2], 0);
    SmallColumnShows([7], 1, 0);
    SmallColumnShows([1, 2], 0, 0);
    SmallColumnShows([1, 2], 0, 1);
    SmallColumnReads(Compare(Some(LessThan), Some(IntV(3))), [7], 1, 0);
    SmallColumnReads(Compare(Some(LessThan), Some(IntV(3))), [1, 2], 0, 1);
    LessIsNegative(7 - 3);
    LessIsNegative(2 - 3);
    SelectsSecond(LessThan, 3, first, second, 1);
    KeepsConstant(v, first, 1, second);
  }

  lemma FreshPair(v: VecState)
    requires v == VecState([NullV, NullV], [true, true], false)
    ensures IsFresh(v)
  {
  }

  lemma LessIsNegative(c: int)
    ensures Holds(LessThan, c) <==> c < 0
  {
  }

  lemma SmallColumnIs(bytes: seq<Byte>, vecClass: Byte)
    requires bytes != []
    ensures var col := SmallColumn(bytes, [], vecClass);
      && col.mtype.oid == T_UINT8 && col.rowCount == |bytes| && col.nullCount == 0 && !ConstantIsNull(col)
      && IsComparison(LessThan) && (IsConstant(col) <==> vecClass == 1)
  {
  }

  /** After a CONSTANT value of any number of rows, even none, a FLAT chunk of two rows shows
      its first cell twice. */
  lemma KeepsConstant(v: VecState, first: DecodedColumn, rows: nat, second: DecodedColumn)
    requires IsFresh(v) && |v.data| >= 2 && rows <= |v.data| && IsConstant(first) && !ConstantIsNull(first)
    requires Fillable(first, rows, 0) && Fillable(second, 2, 0) && Copies(second.mtype.oid)
    ensures Shown(AfterFill(AfterFill(v, first, rows, 0), second, 2, 0), 1) == Pass(second, 2, 0).Cell(0)
  {
    hide CopiedDatum;
    hide Copyable;
    FillShows(AfterFill(v, first, rows, 0), Pass(second, 2, 0), 1);
  }
}
