/** What a call of `Execute` shows in a stored slot of the output chunk. */
module CallAnswer {
  import opened Bytes
  import opened Types
  import opened Vectors
  import opened Chunks
  import opened ColumnFill
  import opened ColumnMap
  import opened OutputSlots
  import opened ScanMachine
  import opened Scanner
  import opened EmitLoop
  import opened WorkQueue
  import opened ScanAnswer

  /** The scan state reads files, and they deliver the stored blocks of the queue. */
  ghost predicate ScansStored(g: TAEScanState, q: Query, objs: seq<StoredObject>)
    requires q.Valid()
  {
    && TableSound(q, objs) && InTable(DeliveredTable(q, objs), g.workUnits) && g.Valid() && !g.MetadataOnly()
    && g.Plans() == QueryPlans(q, objs, g.workUnits)
    && forall i :: 0 <= i < |g.workUnits| ==> g.UnitAt(i) == UnitsFor(DeliveredTable(q, objs), g.workUnits)[i]
  }

  /** Slot `oi` shows the stored column at position `ci` of the query's columns. */
  predicate SlotIsOf(g: TAEScanState, q: Query, oi: nat, ci: nat)
  {
    oi < |g.outputMap| && ci < |q.columnIds| && !IsVirtual(q.columnIds[ci]) && g.outputMap[oi] == OutputFor(q.columnIds, ci)
  }

  /** A chunk fills the slot from the column of its own block. */
  lemma ChunkPass(g: TAEScanState, q: Query, objs: seq<StoredObject>, ci: nat, f: Fill)
    requires q.Valid() && ScansStored(g, q, objs) && ci < |q.columnIds| && !IsVirtual(q.columnIds[ci])
    requires FillShowable(objs, g.workUnits, SeqnumOf(q, ci), f)
    ensures var c, pos := g.ChunkOf(f), RealBefore(q.columnIds, ci);
      pos < |c.cols| && c.PassAt(pos) == PassOf(objs, g.workUnits, SeqnumOf(q, ci), f)
  {
    hide FileUnit;
    hide Scannable;
    hide Shippable;
    hide Showable;
    hide Fillable;
    UnitColumns(q, objs, g.workUnits, f.unit);
    DecodedPosition(q.schema, q.columnIds, ci, |q.columnIds|);
  }

  lemma UnitColumns(q: Query, objs: seq<StoredObject>, order: seq<WorkUnit>, i: nat)
    requires q.Valid() && TableSound(q, objs) && InTable(DeliveredTable(q, objs), order) && i < |order|
    ensures InObjects(objs, order[i]) && BlockReadable(q, BlockOf(objs, order[i]))
    ensures UnitsFor(DeliveredTable(q, objs), order)[i].cols == DecodedColumns(q, BlockOf(objs, order[i]))
  {
    assert ObjectSound(q, objs[order[i].obj]);
  }

  /** The slot's vector goes through the column's passes. */
  lemma SlotPasses(g: TAEScanState, q: Query, objs: seq<StoredObject>, oi: nat, ci: nat, fills: seq<Fill>, v: VecState)
    requires q.Valid() && ScansStored(g, q, objs) && SlotIsOf(g, q, oi, ci) && AllFillsOk(g.Plans(), fills)
    requires FillsShowable(objs, g.workUnits, SeqnumOf(q, ci), fills) && Sized(v) && |v.data| == 2048
    ensures var passes := PassesOf(objs, g.workUnits, SeqnumOf(q, ci), fills);
      AllFit(passes, 2048) && SlotState(g, v, oi, fills) == AfterPasses(v, passes, |passes|)
  {
    var slot, chunks := g.outputMap[oi], g.ChunksOf(fills);
    hide *;
    ChunksFit(g, fills, oi);
    SlotPosition(g, q, oi, ci);
    PassesAreChunks(g, q, objs, ci, fills);
    StoredSlotAfter(v, slot, chunks, |chunks|);
    SlotStateIs(g, v, oi, fills);
  }

  lemma SlotPosition(g: TAEScanState, q: Query, oi: nat, ci: nat)
    requires SlotIsOf(g, q, oi, ci)
    ensures oi < |g.outputMap| && ci < |q.columnIds| && !IsVirtual(q.columnIds[ci])
    ensures g.outputMap[oi].TaeColumn? && g.outputMap[oi].decodedPos == RealBefore(q.columnIds, ci)
  {
  }

  lemma PassesAreChunks(g: TAEScanState, q: Query, objs: seq<StoredObject>, ci: nat, fills: seq<Fill>)
    requires q.Valid() && ScansStored(g, q, objs) && ci < |q.columnIds| && !IsVirtual(q.columnIds[ci])
    requires FillsShowable(objs, g.workUnits, SeqnumOf(q, ci), fills) && AllFillsOk(g.Plans(), fills)
    ensures forall k :: 0 <= k < |fills| ==> RealBefore(q.columnIds, ci) < |g.ChunksOf(fills)[k].cols|
    ensures PassesAt(g.ChunksOf(fills), RealBefore(q.columnIds, ci)) == PassesOf(objs, g.workUnits, SeqnumOf(q, ci), fills)
  {
    hide FileUnit;
    hide Scannable;
    hide Shippable;
    hide FillOk;
    hide Showable;
    hide Fillable;
    hide g.ChunkOf;
    hide UnitsFor;
    var pos, chunks := RealBefore(q.columnIds, ci), g.ChunksOf(fills);
    forall k | 0 <= k < |fills|
      ensures pos < |chunks[k].cols| && FillShowable(objs, g.workUnits, SeqnumOf(q, ci), fills[k])
      ensures chunks[k].PassAt(pos) == PassOf(objs, g.workUnits, SeqnumOf(q, ci), fills[k])
    {
      ChunkPass(g, q, objs, ci, fills[k]);
    }
  }

  lemma SlotStateIs(g: TAEScanState, v: VecState, i: nat, fills: seq<Fill>)
    requires g.Valid() && AllFillsOk(g.Plans(), fills) && i < |g.outputMap| && Sized(v) && |v.data| == 2048
    ensures AllFitSlot(g.outputMap[i], g.ChunksOf(fills), 2048)
    ensures SlotState(g, v, i, fills) == SlotAfter(v, g.outputMap[i], g.ChunksOf(fills), |fills|)
  {
    ChunksFit(g, fills, i);
  }

  /** After one call of `Execute`, which has filled the slot's fresh vector chunk after chunk,
      the selected positions show exactly what a query sees in the slot's column at the rows
      returned, if and only if the retries were harmless there. */
  lemma ExecuteShowsRows(g: TAEScanState, q: Query, objs: seq<StoredObject>, next: nat, l: Local, oi: nat, ci: nat,
                         v: VecState, rows: seq<RowId>, sel: seq<nat>, fills: seq<Fill>, passes: seq<Pass>)
    requires q.Valid() && ScansStored(g, q, objs) && SlotIsOf(g, q, oi, ci) && LocalOk(g.Plans(), l)
    requires rows == Call(g.Plans(), next, l).rows && rows != [] && fills == Fills(g.Plans(), next, l) && fills != []
    requires FillsShowable(objs, g.workUnits, SeqnumOf(q, ci), fills)
    requires passes == PassesOf(objs, g.workUnits, SeqnumOf(q, ci), fills) && Copies(passes[|passes| - 1].col.mtype.oid)
    requires IsFresh(v) && |v.data| == 2048 && Compacts(g.Plans(), LastFill(fills), sel)
    ensures AllFillsOk(g.Plans(), fills)
    ensures var last := passes[|passes| - 1];
      Fillable(last.col, last.count, last.offset) && forall j :: 0 <= j < |sel| ==> sel[j] < last.count
    ensures ShowsRows(SlotState(g, v, oi, fills), sel, objs, SeqnumOf(q, ci), rows) <==> RetryHarmless(passes, sel)
  {
    var plans := g.Plans();
    FillsOfCall(plans, next, l);
    assert ReturnsLast(plans, fills, rows);
    SlotPosition(g, q, oi, ci);
    hide *;
    ReturnsMeans(plans, fills, rows);
    StoredMeans(g, q, objs);
    SlotPasses(g, q, objs, oi, ci, fills, v);
    CallShowsRows(q, objs, g.workUnits, plans, next, l, fills, ci, passes, v, sel);
  }

  lemma ReturnsMeans(plans: seq<UnitPlan>, fills: seq<Fill>, rows: seq<RowId>)
    requires ReturnsLast(plans, fills, rows)
    ensures AllFillsOk(plans, fills)
  {
  }

  lemma StoredMeans(g: TAEScanState, q: Query, objs: seq<StoredObject>)
    requires q.Valid() && ScansStored(g, q, objs)
    ensures g.Valid() && TableSound(q, objs) && InTable(DeliveredTable(q, objs), g.workUnits)
    ensures g.Plans() == QueryPlans(q, objs, g.workUnits)
  {
  }

  // ----- an input -----

  /** One object: a block of no rows whose column is the CONSTANT 7, then a FLAT block of the
      values 1 and 2. */
  function EmptyBlockTable(): seq<StoredObject>
  {
    [StoredObject(2, None, [StoredBlock(0, [], [SmallColumn([7], [], 1).(rowCount := 0)]),
                            StoredBlock(2, [], [SmallColumn([1, 2], [], 0)])])]
  }

  lemma OneColumnQuery() returns (q: Query)
    ensures q == Query(Schema([T_UINT8], [0]), [0], [], NO_SORT_COLUMN) && q.Valid() && q.ReadsFiles()
    ensures q.ReadOrder() == [0] && q.Filters() == []
  {
    q := Query(Schema([T_UINT8], [0]), [0], [], NO_SORT_COLUMN);
    assert ReadSeqnums(q.schema, q.columnIds, 0) == [];
    assert ReadSeqnums(q.schema, q.columnIds, 1) == [0];
  }

  lemma EmptyBlockSound(q: Query)
    requires q.Valid() && q.ReadOrder() == [0] && q.Filters() == [] && q.entries == []
    ensures TableSound(q, EmptyBlockTable()) && IsQueueOrder(q, EmptyBlockTable(), [WorkUnit(0, 0), WorkUnit(0, 1)])
    ensures InTable(DeliveredTable(q, EmptyBlockTable()), [WorkUnit(0, 0), WorkUnit(0, 1)])
  {
    var objs := EmptyBlockTable();
    assert BlockReadable(q, objs[0].blocks[0]) && BlockReadable(q, objs[0].blocks[1]);
    assert ObjectSound(q, objs[0]);
    hide SmallColumn;
    hide BlockReadable;
    TwoBlockQueue(DeliveredTable(q, objs), q.sortSeqnum);
  }

  lemma EmptyBlockPlans(q: Query, order: seq<WorkUnit>, plans: seq<UnitPlan>)
    requires q.Valid() && q.ReadOrder() == [0] && q.Filters() == [] && TableSound(q, EmptyBlockTable())
    requires order == [WorkUnit(0, 0), WorkUnit(0, 1)] && InTable(DeliveredTable(q, EmptyBlockTable()), order)
    requires plans == QueryPlans(q, EmptyBlockTable(), order)
    ensures |plans| == 2 && plans[0].keep && plans[1].keep && plans[0].total == 0 && plans[1].total == 2
    ensures plans[1].obj == 0 && plans[1].blk == 1 && forall row: nat :: plans[1].passes(row)
  {
    UnitColumns(q, EmptyBlockTable(), order, 0);
    UnitColumns(q, EmptyBlockTable(), order, 1);
  }

  /** A thread's first call claims both blocks, fills nothing of the first and all of the second. */
  lemma {:induction false} EmptyThenFull(plans: seq<UnitPlan>)
    requires |plans| == 2 && plans[0].keep && plans[1].keep && plans[0].total == 0 && plans[1].total == 2
    requires forall row: nat :: plans[1].passes(row)
    ensures LocalOk(plans, IDLE) && Fills(plans, 0, IDLE) == [Fill(0, 0, 0), Fill(1, 0, 2)]
    ensures Call(plans, 0, IDLE).rows == [RowId(plans[1].obj, plans[1].blk, 0), RowId(plans[1].obj, plans[1].blk, 1)]
  {
    var second := Claim(plans, 0, IDLE);
    var third := Claim(plans, 1, second.local);
    ClaimContinues(plans, 0, IDLE);
    ClaimContinues(plans, 1, second.local);
    assert third.local == Local(None, 1, 0, 2, false);
    FirstTwo(plans, third.local);
    hide StepLocal;
    hide RowsOf;
    hide Fills;
    hide Call;
    EmitContinues(plans, 2, third.local);
  }

  lemma FirstTwo(plans: seq<UnitPlan>, l: Local)
    requires |plans| == 2 && plans[1].keep && plans[1].total == 2 && forall row: nat :: plans[1].passes(row)
    requires l == Local(None, 1, 0, 2, false)
    ensures StepLocal(plans, 2, l).rows == [RowId(plans[1].obj, plans[1].blk, 0), RowId(plans[1].obj, plans[1].blk, 1)]
    ensures ChunkEnd(l) == 2 && Compacts(plans, Fill(1, 0, 2), [0, 1])
  {
    assert Selected(plans[1].passes, 0, 1) == [0];
    assert Selected(plans[1].passes, 0, 2) == [0, 1];
  }

  /** No filter, no null: the block of no rows leaves the vector CONSTANT, and the second row
      of the next block is shown as 1 instead of 2. */
  lemma EmptyBlockKeepsConstant(v: VecState) returns (q: Query, order: seq<WorkUnit>, plans: seq<UnitPlan>, passes: seq<Pass>)
    requires IsFresh(v) && |v.data| == 2048
    ensures q.Valid() && q.ReadsFiles() && q.columnIds == [0] && q.entries == [] && TableSound(q, EmptyBlockTable())
    ensures IsQueueOrder(q, EmptyBlockTable(), order) && InTable(DeliveredTable(q, EmptyBlockTable()), order)
    ensures plans == QueryPlans(q, EmptyBlockTable(), order) && Fills(plans, 0, IDLE) == [Fill(0, 0, 0), Fill(1, 0, 2)]
    ensures Call(plans, 0, IDLE).rows == [RowId(0, 1, 0), RowId(0, 1, 1)]
    ensures FillsShowable(EmptyBlockTable(), order, 0, Fills(plans, 0, IDLE)) && Compacts(plans, Fill(1, 0, 2), [0, 1])
    ensures passes == PassesOf(EmptyBlockTable(), order, 0, Fills(plans, 0, IDLE)) && AllFit(passes, 2048)
    ensures Shown(AfterPasses(v, passes, 2), 1) == IntV(1) && CellOf(EmptyBlockTable(), 0, RowId(0, 1, 1)) == IntV(2)
  {
    hide *;
    q := OneColumnQuery();
    order := [WorkUnit(0, 0), WorkUnit(0, 1)];
    EmptyBlockSound(q);
    plans := QueryPlans(q, EmptyBlockTable(), order);
    EmptyBlockPlans(q, order, plans);
    EmptyThenFull(plans);
    FirstTwo(plans, Local(None, 1, 0, 2, false));
    EmptyBlockCells(order);
    passes := PassesOf(EmptyBlockTable(), order, 0, Fills(plans, 0, IDLE));
    EmptyBlockShows(v, order, passes);
  }

  /** Neither column has a null; the first is filled although it has no row. */
  lemma EmptyBlockColumns(first: DecodedColumn, second: DecodedColumn)
    requires first == SmallColumn([7], [], 1).(rowCount := 0) && second == SmallColumn([1, 2], [], 0)
    ensures IsConstant(first) && !ConstantIsNull(first) && Fillable(first, 0, 0)
    ensures Showable(second, 0, 2) && Fillable(second, 2, 0) && Copies(second.mtype.oid) && SeenOk(second, 1)
    ensures SeenAt(second, 1) == IntV(2) && Pass(second, 2, 0).Cell(0) == IntV(1)
  {
    hide *;
    SmallColumnIs([7], 1);
    SmallColumnIs([1, 2], 0);
    SmallColumnShows([7], 1, 0);
    SmallColumnShows([1, 2], 0, 0);
    SmallColumnShows([1, 2], 0, 1);
    FilledWithoutRows(SmallColumn([7], [], 1), 1);
    SeenInRange(second, 2, 1);
  }

  /** A CONSTANT column is filled from its one value, whatever its number of rows. */
  lemma FilledWithoutRows(col: DecodedColumn, count: nat)
    requires Fillable(col, count, 0) && IsConstant(col) && !ConstantIsNull(col)
    ensures IsConstant(col.(rowCount := 0)) && !ConstantIsNull(col.(rowCount := 0)) && Fillable(col.(rowCount := 0), 0, 0)
  {
    hide SlotCopyable;
  }

  lemma SeenInRange(col: DecodedColumn, until: nat, row: nat)
    requires Showable(col, 0, until) && row < until
    ensures SeenOk(col, row)
  {
  }

  lemma EmptyBlockCells(order: seq<WorkUnit>)
    requires order == [WorkUnit(0, 0), WorkUnit(0, 1)]
    ensures FillsShowable(EmptyBlockTable(), order, 0, [Fill(0, 0, 0), Fill(1, 0, 2)])
    ensures CellOf(EmptyBlockTable(), 0, RowId(0, 1, 1)) == IntV(2)
  {
    hide Showable;
    hide Fillable;
    hide SeenAt;
    hide SeenOk;
    hide SmallColumn;
    EmptyBlockColumns(SmallColumn([7], [], 1).(rowCount := 0), SmallColumn([1, 2], [], 0));
  }

  lemma EmptyBlockShows(v: VecState, order: seq<WorkUnit>, passes: seq<Pass>)
    requires IsFresh(v) && |v.data| == 2048 && order == [WorkUnit(0, 0), WorkUnit(0, 1)]
    requires FillsShowable(EmptyBlockTable(), order, 0, [Fill(0, 0, 0), Fill(1, 0, 2)])
    requires passes == PassesOf(EmptyBlockTable(), order, 0, [Fill(0, 0, 0), Fill(1, 0, 2)])
    ensures AllFit(passes, 2048) && Shown(AfterPasses(v, passes, 2), 1) == IntV(1)
  {
    hide Fillable;
    hide Showable;
    hide SeenAt;
    hide SeenOk;
    hide SmallColumn;
    var first, second := SmallColumn([7], [], 1).(rowCount := 0), SmallColumn([1, 2], [], 0);
    PassesFit(EmptyBlockTable(), order, 0, [Fill(0, 0, 0), Fill(1, 0, 2)], 2048);
    EmptyBlockColumns(first, second);
    assert passes == [Pass(first, 0, 0), Pass(second, 2, 0)];
    hide AfterFill;
    hide Copies;
    TwoPasses(v, passes);
    KeepsConstant(v, first, 0, second);
  }

  lemma TwoPasses(v: VecState, passes: seq<Pass>)
    requires |passes| == 2 && Sized(v) && AllFit(passes, |v.data|)
    ensures passes[0].Fits(|v.data|) && passes[1].Fits(|v.data|)
    ensures AfterPasses(v, passes, 2) ==
      AfterFill(AfterFill(v, passes[0].col, passes[0].count, passes[0].offset), passes[1].col, passes[1].count, passes[1].offset)
  {
    hide AfterFill;
    hide Fillable;
    assert AfterPasses(v, passes, 1) == AfterFill(v, passes[0].col, passes[0].count, passes[0].offset);
  }
}
