/** Mapping a query's columns: which physical columns are read, what each output slot
    shows, and which decoded column each filter tests. */
module ColumnMap {
  import opened Bytes
  import opened Vectors
  import opened Filters

  const VIRTUAL_START: nat := 0x8000_0000_0000_0000
  const VCOL_FILENAME: nat := 0x8000_0000_0000_0000
  const VCOL_BLOCK_ID: nat := 0x8000_0000_0000_0001

  predicate IsVirtual(id: nat) { id >= VIRTUAL_START }

  /** The table's columns: type and physical sequence number of each. */
  datatype Schema = Schema(oids: seq<Byte>, seqnums: seq<nat>) {
    predicate Valid() { |oids| == |seqnums| }
  }

  datatype OutputColumn = TaeColumn(tableCol: nat, decodedPos: nat) | FileName | BlockId

  /** A pushed filter: the position in `columnIds` it applies to, and its tree. */
  datatype FilterEntry = FilterEntry(pos: nat, expr: Expr)

  /** Stored columns among the first `n` ids: the decoded position of the next one. */
  function RealBefore(columnIds: seq<nat>, n: nat): (k: nat)
    requires n <= |columnIds|
    ensures k <= n
  {
    if n == 0 then 0 else RealBefore(columnIds, n - 1) + if IsVirtual(columnIds[n - 1]) then 0 else 1
  }

  /** Where the stored columns among the first `n` ids will be decoded. */
  function Positions(columnIds: seq<nat>, n: nat): (r: seq<Option<nat>>)
    requires n <= |columnIds|
    ensures |r| == |columnIds|
  {
    seq(|columnIds|, k requires 0 <= k < |columnIds| =>
      if k < n && !IsVirtual(columnIds[k]) then Some(RealBefore(columnIds, k)) else None)
  }

  predicate IdsKnown(schema: Schema, columnIds: seq<nat>)
  {
    forall i :: 0 <= i < |columnIds| && !IsVirtual(columnIds[i]) ==> columnIds[i] < |schema.seqnums|
  }

  function ReadSeqnums(schema: Schema, columnIds: seq<nat>, n: nat): (r: seq<nat>)
    requires n <= |columnIds| && IdsKnown(schema, columnIds)
    ensures |r| == RealBefore(columnIds, n)
  {
    if n == 0 then []
    else
      ReadSeqnums(schema, columnIds, n - 1) +
      if IsVirtual(columnIds[n - 1]) then [] else [schema.seqnums[columnIds[n - 1]]]
  }

  /** The decoded column at a stored id's position is that id's physical column. */
  lemma {:induction false} DecodedPosition(schema: Schema, columnIds: seq<nat>, ci: nat, n: nat)
    requires ci < n <= |columnIds| && IdsKnown(schema, columnIds) && !IsVirtual(columnIds[ci])
    ensures RealBefore(columnIds, ci) < RealBefore(columnIds, n)
    ensures ReadSeqnums(schema, columnIds, n)[RealBefore(columnIds, ci)] == schema.seqnums[columnIds[ci]]
    decreases n
  {
    if ci < n - 1 { DecodedPosition(schema, columnIds, ci, n - 1); }
  }

  function OutputFor(columnIds: seq<nat>, ci: nat): OutputColumn
    requires ci < |columnIds|
  {
    var id := columnIds[ci];
    if id == VCOL_FILENAME then FileName
    else if id == VCOL_BLOCK_ID then BlockId
    else if IsVirtual(id) then FileName
    else TaeColumn(id, RealBefore(columnIds, ci))
  }

  predicate HasProjection(columnIds: seq<nat>, projIds: seq<nat>) { 0 < |projIds| < |columnIds| }

  /** The position in `columnIds` that output slot `oi` is filled from. */
  function SlotSource(columnIds: seq<nat>, projIds: seq<nat>, oi: nat): nat
    requires HasProjection(columnIds, projIds) ==> oi < |projIds|
  {
    if HasProjection(columnIds, projIds) then projIds[oi] else oi
  }

  function SlotCount(columnIds: seq<nat>, projIds: seq<nat>): nat
  {
    if HasProjection(columnIds, projIds) then |projIds| else |columnIds|
  }

  predicate ProjectionInRange(columnIds: seq<nat>, projIds: seq<nat>)
  {
    forall i :: 0 <= i < |projIds| ==> projIds[i] < |columnIds|
  }

  /** Filter entries that Init does not skip. */
  predicate Applies(schema: Schema, columnIds: seq<nat>, e: FilterEntry)
  {
    e.pos < |columnIds| && !IsVirtual(columnIds[e.pos]) && columnIds[e.pos] < |schema.oids|
  }

  predicate EntryOk(schema: Schema, columnIds: seq<nat>, e: FilterEntry)
  {
    Applies(schema, columnIds, e) ==> Supports(e.expr) && Encodable(e.expr, schema.oids[columnIds[e.pos]])
  }

  predicate EntriesOk(schema: Schema, columnIds: seq<nat>, entries: seq<FilterEntry>)
  {
    schema.Valid() && forall i :: 0 <= i < |entries| ==> EntryOk(schema, columnIds, entries[i])
  }

  function EntryFilters(schema: Schema, columnIds: seq<nat>, e: FilterEntry): (fs: seq<PushedFilter>)
    requires schema.Valid() && EntryOk(schema, columnIds, e)
    ensures AllWellFormed(fs)
  {
    if !Applies(schema, columnIds, e) then []
    else
      var id := columnIds[e.pos];
      FiltersOf(e.expr, RealBefore(columnIds, e.pos), schema.seqnums[id], schema.oids[id])
  }

  /** The filters pushed by the first `n` entries. */
  function FiltersFrom(schema: Schema, columnIds: seq<nat>, entries: seq<FilterEntry>, n: nat): (fs: seq<PushedFilter>)
    requires n <= |entries| && EntriesOk(schema, columnIds, entries)
    ensures AllWellFormed(fs)
  {
    if n == 0 then []
    else FiltersFrom(schema, columnIds, entries, n - 1) + EntryFilters(schema, columnIds, entries[n - 1])
  }

  class ColumnState {
    var readSeqnums: seq<nat>
    var colIdsToDecoded: seq<Option<nat>>
    var outputMap: seq<OutputColumn>
    const filters: FilterList

    constructor ()
      ensures readSeqnums == [] && outputMap == [] && filters.items == [] && fresh(filters)
    {
      readSeqnums, colIdsToDecoded, outputMap := [], [], [];
      filters := new FilterList();
    }

    /** What the position map holds once all column ids have been seen. */
    ghost predicate Mapped(columnIds: seq<nat>)
      reads this
    {
      colIdsToDecoded == Positions(columnIds, |columnIds|)
    }

    /** Phase 1: collect stored columns and remember where each will be decoded. */
    method CollectColumns(schema: Schema, columnIds: seq<nat>) returns (ok: bool)
      requires schema.Valid()
      modifies this`readSeqnums, this`colIdsToDecoded
      ensures ok <==> IdsKnown(schema, columnIds)
      ensures ok ==> Mapped(columnIds) && readSeqnums == ReadSeqnums(schema, columnIds, |columnIds|)
    {
      readSeqnums := [];
      colIdsToDecoded := seq(|columnIds|, _ => None);
      assert colIdsToDecoded == Positions(columnIds, 0);
      ghost var known := IdsKnown(schema, columnIds);
      for ci := 0 to |columnIds|
        invariant colIdsToDecoded == Positions(columnIds, ci)
        invariant forall k :: 0 <= k < ci && !IsVirtual(columnIds[k]) ==> columnIds[k] < |schema.seqnums|
        invariant |readSeqnums| == RealBefore(columnIds, ci)
        invariant known ==> readSeqnums == ReadSeqnums(schema, columnIds, ci)
      {
        var id := columnIds[ci];
        if !IsVirtual(id) {
          colIdsToDecoded := colIdsToDecoded[ci := Some(|readSeqnums|)];
          if id >= |schema.seqnums| { return false; }
          readSeqnums := readSeqnums + [schema.seqnums[id]];
        }
        assert colIdsToDecoded == Positions(columnIds, ci + 1);
      }
      return true;
    }

    /** Phase 2: what each output slot holds. */
    method MapOutputs(columnIds: seq<nat>, projIds: seq<nat>)
      requires Mapped(columnIds) && ProjectionInRange(columnIds, projIds)
      modifies this`outputMap
      ensures |outputMap| == SlotCount(columnIds, projIds)
      ensures forall oi :: 0 <= oi < |outputMap| ==>
                outputMap[oi] == OutputFor(columnIds, SlotSource(columnIds, projIds, oi))
    {
      outputMap := [];
      var hasProj := 0 < |projIds| && |projIds| < |columnIds|;
      var nOut := if hasProj then |projIds| else |columnIds|;
      for oi := 0 to nOut
        invariant |outputMap| == oi
        invariant forall k :: 0 <= k < oi ==> outputMap[k] == OutputFor(columnIds, SlotSource(columnIds, projIds, k))
      {
        var ci := if hasProj then projIds[oi] else oi;
        var id := columnIds[ci];
        var slot: OutputColumn;
        if id == VCOL_FILENAME {
          slot := FileName;
        } else if id == VCOL_BLOCK_ID {
          slot := BlockId;
        } else if IsVirtual(id) {
          slot := FileName;
        } else {
          slot := TaeColumn(id, colIdsToDecoded[ci].value);
        }
        outputMap := outputMap + [slot];
      }
    }

    /** Phase 3: extract the filters. */
    method PushFilters(schema: Schema, columnIds: seq<nat>, entries: seq<FilterEntry>) returns (ok: bool)
      requires Mapped(columnIds) && schema.Valid() && filters.items == []
      modifies filters
      ensures ok <==> EntriesOk(schema, columnIds, entries)
      ensures ok ==> filters.items == FiltersFrom(schema, columnIds, entries, |entries|)
    {
      ghost var good := EntriesOk(schema, columnIds, entries);
      for i := 0 to |entries|
        invariant forall k :: 0 <= k < i ==> EntryOk(schema, columnIds, entries[k])
        invariant good ==> filters.items == FiltersFrom(schema, columnIds, entries, i)
      {
        ok := PushEntry(schema, columnIds, entries[i]);
        if !ok { return false; }
      }
      return true;
    }

    method PushEntry(schema: Schema, columnIds: seq<nat>, entry: FilterEntry) returns (ok: bool)
      requires Mapped(columnIds) && schema.Valid()
      modifies filters
      ensures ok <==> EntryOk(schema, columnIds, entry)
      ensures ok ==> filters.items == old(filters.items) + EntryFilters(schema, columnIds, entry)
    {
      if entry.pos >= |columnIds| { return true; }
      var id := columnIds[entry.pos];
      if IsVirtual(id) { return true; }
      if id >= |schema.oids| { return true; }
      var decodedPos := colIdsToDecoded[entry.pos];
      if decodedPos.None? { return true; }
      if !Supports(entry.expr) { return false; }
      ok := filters.ExtractExpression(entry.expr, decodedPos.value, schema.seqnums[id], schema.oids[id]);
    }
  }

  // ----- slots show their own columns -----

  /** The slot shows the column `id`: its file name or block id when virtual, else the
      decoded column that holds the id's physical column. */
  predicate Shows(schema: Schema, readSeqnums: seq<nat>, slot: OutputColumn, id: nat)
  {
    match slot
    case FileName => IsVirtual(id) && id != VCOL_BLOCK_ID
    case BlockId => id == VCOL_BLOCK_ID
    case TaeColumn(tableCol, pos) =>
      !IsVirtual(id) && tableCol == id && id < |schema.seqnums| && pos < |readSeqnums| &&
      readSeqnums[pos] == schema.seqnums[id]
  }

  /** Every slot shows the column of the position it is filled from. */
  lemma SlotShowsItsColumn(schema: Schema, columnIds: seq<nat>, ci: nat)
    requires IdsKnown(schema, columnIds) && ci < |columnIds|
    ensures Shows(schema, ReadSeqnums(schema, columnIds, |columnIds|), OutputFor(columnIds, ci), columnIds[ci])
  {
    if !IsVirtual(columnIds[ci]) { DecodedPosition(schema, columnIds, ci, |columnIds|); }
  }

  /** Two ids that an output slot cannot tell apart. */
  predicate SameColumn(a: nat, b: nat)
  {
    if IsVirtual(a) then IsVirtual(b) && (a == VCOL_BLOCK_ID <==> b == VCOL_BLOCK_ID) else a == b
  }

  /** The output a query asks for: one slot per projected position, or per column id
      when there is no projection. */
  predicate ShowsRequested(schema: Schema, columnIds: seq<nat>, projIds: seq<nat>)
    requires IdsKnown(schema, columnIds) && ProjectionInRange(columnIds, projIds)
  {
    var wanted := if projIds == [] then |columnIds| else |projIds|;
    SlotCount(columnIds, projIds) == wanted &&
    forall oi :: 0 <= oi < wanted ==>
      Shows(schema, ReadSeqnums(schema, columnIds, |columnIds|),
            OutputFor(columnIds, SlotSource(columnIds, projIds, oi)),
            columnIds[if projIds == [] then oi else projIds[oi]])
  }

  /** The output is as requested exactly when there is no projection, or it is shorter
      than the column list, or it has the same length and permutes nothing visible: a
      projection at least as long as the column list is ignored. */
  lemma OutputMapExact(schema: Schema, columnIds: seq<nat>, projIds: seq<nat>)
    requires IdsKnown(schema, columnIds) && ProjectionInRange(columnIds, projIds)
    ensures ShowsRequested(schema, columnIds, projIds) <==>
      projIds == [] || |projIds| < |columnIds| ||
      (|projIds| == |columnIds| && forall oi :: 0 <= oi < |projIds| ==> SameColumn(columnIds[projIds[oi]], columnIds[oi]))
  {
    forall ci | 0 <= ci < |columnIds|
      ensures Shows(schema, ReadSeqnums(schema, columnIds, |columnIds|), OutputFor(columnIds, ci), columnIds[ci])
    {
      SlotShowsItsColumn(schema, columnIds, ci);
    }
  }

  /** Columns 0 and 1 projected as 1 and 0: the first slot shows column 0. */
  lemma SwapIsIgnored(schema: Schema)
    requires |schema.seqnums| == 2
    ensures IdsKnown(schema, [0, 1]) && ProjectionInRange([0, 1], [1, 0]) && !ShowsRequested(schema, [0, 1], [1, 0])
    ensures OutputFor([0, 1], SlotSource([0, 1], [1, 0], 0)) == TaeColumn(0, 0)
  {
    OutputMapExact(schema, [0, 1], [1, 0]);
    assert !SameColumn([0, 1][[1, 0][0]], [0, 1][0]);
  }

  // ----- filters test their own columns -----

  /** The decoded columns of a block, in read order, given its columns by sequence number. */
  predicate DecodedFor(schema: Schema, columnIds: seq<nat>, bySeqnum: seq<DecodedColumn>, decoded: seq<DecodedColumn>)
    requires IdsKnown(schema, columnIds)
  {
    var rs := ReadSeqnums(schema, columnIds, |columnIds|);
    |decoded| == |rs| && forall p :: 0 <= p < |rs| ==> rs[p] < |bySeqnum| && decoded[p] == bySeqnum[rs[p]]
  }

  /** The truth of one filter entry on what a query sees at the row of its own logical column.
      Entries on virtual columns or on ids outside the schema say nothing here: Init skips
      them, and pushdown is never offered for such ids. */
  predicate EntryTrue(schema: Schema, columnIds: seq<nat>, e: FilterEntry, bySeqnum: seq<DecodedColumn>, row: nat)
    requires schema.Valid()
  {
    Applies(schema, columnIds, e) ==>
      var s := schema.seqnums[columnIds[e.pos]];
      s < |bySeqnum| && SeenOk(bySeqnum[s], row) && Eval(e.expr, SeenAt(bySeqnum[s], row)) == True
  }

  /** The entry's own column is of the manifest's type, and its filters can be tested at
      the row. Nothing is asked of columns that no entry tests. */
  predicate EntryReads(schema: Schema, columnIds: seq<nat>, e: FilterEntry, bySeqnum: seq<DecodedColumn>, row: nat)
    requires schema.Valid()
  {
    Applies(schema, columnIds, e) ==>
      var id := columnIds[e.pos]; var s := schema.seqnums[id];
      s < |bySeqnum| && bySeqnum[s].mtype.oid == schema.oids[id] && TreeReads(e.expr, bySeqnum[s], row)
  }

  lemma EntryMeaning(schema: Schema, columnIds: seq<nat>, e: FilterEntry,
                     bySeqnum: seq<DecodedColumn>, decoded: seq<DecodedColumn>, row: nat)
    requires schema.Valid() && IdsKnown(schema, columnIds) && EntryOk(schema, columnIds, e)
    requires DecodedFor(schema, columnIds, bySeqnum, decoded) && EntryReads(schema, columnIds, e, bySeqnum, row)
    ensures RowPasses(EntryFilters(schema, columnIds, e), decoded, row) <==>
            EntryTrue(schema, columnIds, e, bySeqnum, row)
    ensures RowReadable(EntryFilters(schema, columnIds, e), decoded, row)
  {
    if Applies(schema, columnIds, e) {
      var id := columnIds[e.pos];
      var pos := RealBefore(columnIds, e.pos);
      DecodedPosition(schema, columnIds, e.pos, |columnIds|);
      assert decoded[pos] == bySeqnum[schema.seqnums[id]];
      TreeDecides(e.expr, pos, schema.seqnums[id], schema.oids[id], decoded[pos], row);
      OneColumnPasses(FiltersOf(e.expr, pos, schema.seqnums[id], schema.oids[id]), pos, decoded, row);
    }
  }

  lemma RowPassesBoth(a: seq<PushedFilter>, b: seq<PushedFilter>, decoded: seq<DecodedColumn>, row: nat)
    ensures RowPasses(a + b, decoded, row) <==> RowPasses(a, decoded, row) && RowPasses(b, decoded, row)
    ensures RowReadable(a + b, decoded, row) <==> RowReadable(a, decoded, row) && RowReadable(b, decoded, row)
  {
    hide FilterPasses;
    assert forall f :: f in a + b <==> f in a || f in b;
  }

  /** A row passes all pushed filters exactly when every filter entry is TRUE on the cell
      of its own logical column. */
  lemma {:induction false} FiltersMeanEntries(schema: Schema, columnIds: seq<nat>, entries: seq<FilterEntry>, n: nat,
                                              bySeqnum: seq<DecodedColumn>, decoded: seq<DecodedColumn>, row: nat)
    requires n <= |entries| && EntriesOk(schema, columnIds, entries) && IdsKnown(schema, columnIds)
    requires DecodedFor(schema, columnIds, bySeqnum, decoded)
    requires forall i :: 0 <= i < n ==> EntryReads(schema, columnIds, entries[i], bySeqnum, row)
    ensures RowPasses(FiltersFrom(schema, columnIds, entries, n), decoded, row) <==>
            forall i :: 0 <= i < n ==> EntryTrue(schema, columnIds, entries[i], bySeqnum, row)
    ensures RowReadable(FiltersFrom(schema, columnIds, entries, n), decoded, row)
  {
    hide EntryTrue;
    hide EntryReads;
    hide EntryFilters;
    hide RowPasses;
    hide RowReadable;
    if n == 0 {
      NoFiltersPass(decoded, row);
    } else {
      FiltersMeanEntries(schema, columnIds, entries, n - 1, bySeqnum, decoded, row);
      EntryMeaning(schema, columnIds, entries[n - 1], bySeqnum, decoded, row);
      RowPassesBoth(FiltersFrom(schema, columnIds, entries, n - 1),
                    EntryFilters(schema, columnIds, entries[n - 1]), decoded, row);
    }
  }

  lemma NoFiltersPass(decoded: seq<DecodedColumn>, row: nat)
    ensures RowPasses([], decoded, row) && RowReadable([], decoded, row)
  {
  }
}
