/** Further queries over tables whose files the builder wrote, on the values written: what a
    call shows, ORDER BY ... LIMIT, and queries that read no file. */
module BuiltScans {
  import opened Bytes
  import opened Types
  import opened Vectors
  import opened ObjectWriter
  import opened FileRoundTrip
  import opened VectorWriter
  import opened ColumnFill
  import opened ColumnMap
  import opened ScanMachine
  import opened MetadataScan
  import opened Scanner
  import opened EmitLoop
  import opened WorkQueue
  import opened ScanOrder
  import opened LimitCut
  import opened ScanAnswer
  import opened CallAnswer
  import opened LimitScan
  import opened MetadataAnswer
  import opened BuiltTable

  predicate InWritten(objs: seq<WrittenObject>, w: WorkUnit)
  {
    w.obj < |objs| && w.blk < |objs[w.obj].blocks|
  }

  function WrittenBlockOf(objs: seq<WrittenObject>, w: WorkUnit): WrittenBlock
    requires InWritten(objs, w)
  {
    objs[w.obj].blocks[w.blk]
  }

  /** The value written at a row, in the column with this sequence number. */
  function WrittenAt(objs: seq<WrittenObject>, seqnum: nat, r: RowId): Value
  {
    if InWritten(objs, WorkUnit(r.obj, r.blk)) && seqnum < |objs[r.obj].blocks[r.blk].columns| then
      var c := objs[r.obj].blocks[r.blk].columns[seqnum];
      if c.given.Valid() && r.row < c.given.Rows() then c.given.At(c.oid, r.row) else NullV
    else NullV
  }

  /** That is what a query sees there in the stored table. */
  lemma CellIsWritten(objs: seq<WrittenObject>, seqnum: nat, r: RowId)
    requires AllObjectsWritten(objs)
    ensures CellOf(StoredTable(objs), seqnum, r) == WrittenAt(objs, seqnum, r)
  {
    var w := WorkUnit(r.obj, r.blk);
    if InWritten(objs, w) {
      StoredUnit(objs, w);
      var b := WrittenBlockOf(objs, w);
      if seqnum < |b.columns| {
        SeenIsGiven(StoredColumns(b)[seqnum], b.columns[seqnum].oid, b.columns[seqnum].given, r.row);
      }
    }
    hide StoredColumns;
    hide DecodedFrom;
    hide Returns;
    hide SeenAt;
    hide SeenOk;
  }

  lemma SeenIsGiven(col: DecodedColumn, oid: Byte, g: Given, row: nat)
    requires Returns(col, oid, g)
    ensures SeenOk(col, row) <==> row < g.Rows()
    ensures g.Valid() && (row < g.Rows() ==> SeenAt(col, row) == g.At(oid, row))
  {
    hide RowOk;
    hide CellAt;
  }

  // ----- what a call shows -----

  /** The null count of a column written is true. */
  lemma GivenIsShowable(col: DecodedColumn, oid: Byte, g: Given, until: nat)
    requires Returns(col, oid, g) && until <= g.Rows()
    ensures forall from: nat :: from <= until ==> Showable(col, from, until)
  {
    if g.Flat? { FlatCountTrue(col, oid, g); }
    hide NullCountTrue;
    hide SeenAt;
  }

  lemma FlatCountTrue(col: DecodedColumn, oid: Byte, g: Given)
    requires Returns(col, oid, g) && g.Flat?
    ensures NullCountTrue(col)
  {
    if col.nullCount == 0 {
      forall row | 0 <= row < col.rowCount ensures !NullBitAt(col.nullBitmap, row) {
        assert !g.nulls[row] && CellAt(col, row) == GivenAt(oid, g.p, row);
      }
    }
  }

  /** What the files deliver is the stored table. */
  lemma BuiltIsStored(q: Query, layout: Layout, objs: seq<WrittenObject>, fs: FileSet, g: TAEScanState)
    requires AllObjectsWritten(objs) && q.Valid() && q.ReadsFiles() && TableBuilt(layout, objs, fs) && TableFitsQuery(q, objs) && Configured(g, q, objs, fs)
    requires TableSound(q, StoredTable(objs)) && InTable(DeliveredTable(q, StoredTable(objs)), g.workUnits)
    ensures ScansStored(g, q, StoredTable(objs))
  {
    hide *;
    PlansAre(q, layout, objs, fs, g);
    StoredWhen(g, q, StoredTable(objs));
  }

  /** A chunk of a queued block can be shown in any column that the query reads. */
  lemma ChunkIsShowable(q: Query, objs: seq<WrittenObject>, g: TAEScanState, ci: nat, f: Fill)
    requires q.Valid() && AllObjectsWritten(objs) && TableFitsQuery(q, objs) && ScansStored(g, q, StoredTable(objs))
    requires ci < |q.columnIds| && !IsVirtual(q.columnIds[ci]) && FillOk(g.Plans(), f)
    ensures FillShowable(StoredTable(objs), g.workUnits, SeqnumOf(q, ci), f)
  {
    hide *;
    var t := StoredTable(objs);
    StoredMeans(g, q, t);
    ChunkWithin(g.Plans(), f);
    UnitRows(q, t, g.workUnits, f.unit);
    var w := g.workUnits[f.unit];
    QueuedBlock(q, objs, w);
    var b := WrittenBlockOf(objs, w);
    SlotColumnShowable(q, b, ci);
    FillablePart(StoredColumns(b)[SeqnumOf(q, ci)], b.rows, 0, f.from);
    ShowableWhen(t, g.workUnits, SeqnumOf(q, ci), f, StoredColumns(b)[SeqnumOf(q, ci)]);
  }

  lemma ChunkWithin(plans: seq<UnitPlan>, f: Fill)
    requires FillOk(plans, f)
    ensures f.unit < |plans| && f.from <= f.until <= plans[f.unit].total && f.until - f.from <= 2048
  {
  }

  lemma QueuedBlock(q: Query, objs: seq<WrittenObject>, w: WorkUnit)
    requires q.Valid() && AllObjectsWritten(objs) && TableFitsQuery(q, objs) && InObjects(StoredTable(objs), w)
    ensures InWritten(objs, w)
    ensures var b := WrittenBlockOf(objs, w);
      && BlockWritten(b) && BlockFitsQuery(q, b) && BlockOf(StoredTable(objs), w).rows == b.rows
      && BlockOf(StoredTable(objs), w).columns == StoredColumns(b) && |StoredColumns(b)| == |b.columns|
  {
    StoredUnit(objs, w);
    assert ObjectFitsQuery(q, objs[w.obj]);
  }

  lemma ShowableWhen(objs: seq<StoredObject>, order: seq<WorkUnit>, seqnum: nat, f: Fill, col: DecodedColumn)
    requires f.unit < |order| && InObjects(objs, order[f.unit]) && f.from <= f.until && f.until - f.from <= 2048
    requires seqnum < |BlockOf(objs, order[f.unit]).columns| && BlockOf(objs, order[f.unit]).columns[seqnum] == col
    requires Showable(col, f.from, f.until) && Fillable(col, 0, f.from)
    ensures FillShowable(objs, order, seqnum, f)
  {
  }

  lemma UnitRows(q: Query, objs: seq<StoredObject>, order: seq<WorkUnit>, i: nat)
    requires q.Valid() && TableSound(q, objs) && InTable(DeliveredTable(q, objs), order) && i < |order|
    ensures InObjects(objs, order[i]) && QueryPlans(q, objs, order)[i].total == BlockOf(objs, order[i]).rows
  {
    assert ObjectSound(q, objs[order[i].obj]);
    DeliveredTotal(q, order[i].obj, order[i].blk, BlockOf(objs, order[i]));
  }

  /** The column that a stored slot shows has the block's rows, and all can be shown. */
  lemma SlotColumnShowable(q: Query, b: WrittenBlock, ci: nat)
    requires q.Valid() && BlockWritten(b) && BlockFitsQuery(q, b) && ci < |q.columnIds| && !IsVirtual(q.columnIds[ci])
    ensures SeqnumOf(q, ci) < |b.columns|
    ensures var col := StoredColumns(b)[SeqnumOf(q, ci)];
      Fillable(col, b.rows, 0) && forall from: nat, until: nat :: from <= until <= b.rows ==> Showable(col, from, until)
  {
    DecodedPosition(q.schema, q.columnIds, ci, |q.columnIds|);
    assert q.ReadOrder()[RealBefore(q.columnIds, ci)] < |b.columns|;
    var c, col := b.columns[SeqnumOf(q, ci)], StoredColumns(b)[SeqnumOf(q, ci)];
    assert Returns(col, c.oid, c.given) && c.given.Rows() == b.rows;
    hide *;
    GivenIsFillable(col, c.oid, c.given);
    forall from: nat, until: nat | from <= until <= b.rows ensures Showable(col, from, until) {
      GivenIsShowable(col, c.oid, c.given, until);
    }
  }

  lemma StoredWhen(g: TAEScanState, q: Query, t: seq<StoredObject>)
    requires q.Valid() && TableSound(q, t) && InTable(DeliveredTable(q, t), g.workUnits) && g.Valid() && !g.MetadataOnly()
    requires g.Plans() == QueryPlans(q, t, g.workUnits)
    requires forall i :: 0 <= i < |g.workUnits| ==> g.UnitAt(i) == UnitsFor(DeliveredTable(q, t), g.workUnits)[i]
    ensures ScansStored(g, q, t)
  {
  }

  /** At the selected positions the vector shows, in order, the values written at the rows. */
  predicate ShowsWritten(v: VecState, sel: seq<nat>, objs: seq<WrittenObject>, seqnum: nat, rows: seq<RowId>)
    requires Sized(v)
  {
    |sel| == |rows| && forall j :: 0 <= j < |sel| ==> sel[j] < |v.data| && Shown(v, sel[j]) == WrittenAt(objs, seqnum, rows[j])
  }

  lemma ShownIsWritten(v: VecState, sel: seq<nat>, objs: seq<WrittenObject>, seqnum: nat, rows: seq<RowId>)
    requires Sized(v) && AllObjectsWritten(objs)
    ensures ShowsRows(v, sel, StoredTable(objs), seqnum, rows) <==> ShowsWritten(v, sel, objs, seqnum, rows)
  {
    hide CellOf;
    hide WrittenAt;
    hide Shown;
    hide StoredTable;
    forall r ensures CellOf(StoredTable(objs), seqnum, r) == WrittenAt(objs, seqnum, r) { CellIsWritten(objs, seqnum, r); }
  }

  lemma AllShowable(q: Query, objs: seq<WrittenObject>, g: TAEScanState, ci: nat, fills: seq<Fill>)
    requires q.Valid() && AllObjectsWritten(objs) && TableFitsQuery(q, objs) && ScansStored(g, q, StoredTable(objs))
    requires ci < |q.columnIds| && !IsVirtual(q.columnIds[ci]) && AllFillsOk(g.Plans(), fills)
    ensures FillsShowable(StoredTable(objs), g.workUnits, SeqnumOf(q, ci), fills)
  {
    hide ScansStored;
    hide TableFitsQuery;
    hide FillOk;
    hide FillShowable;
    hide StoredTable;
    forall k | 0 <= k < |fills| ensures FillShowable(StoredTable(objs), g.workUnits, SeqnumOf(q, ci), fills[k]) {
      ChunkIsShowable(q, objs, g, ci, fills[k]);
    }
  }

  /** One call of `Execute` on a scan of built files, from any state of the thread and the
      counter: the selected positions of a stored slot's vector, fresh before the call, show
      the values written at the rows returned, if and only if the retries were harmless. */
  lemma BuiltCallShows(q: Query, layout: Layout, objs: seq<WrittenObject>, fs: FileSet, g: TAEScanState, next: nat, l: Local,
                       oi: nat, ci: nat, v: VecState, rows: seq<RowId>, sel: seq<nat>, fills: seq<Fill>) returns (passes: seq<Pass>)
    requires q.Valid() && q.ReadsFiles() && TableBuilt(layout, objs, fs) && TableFitsQuery(q, objs) && AllObjectsWritten(objs)
    requires ScansTable(g, q, objs, fs) && g.Valid() && SlotIsOf(g, q, oi, ci) && LocalOk(g.Plans(), l)
    requires rows == Call(g.Plans(), next, l).rows && rows != [] && fills == Fills(g.Plans(), next, l) && fills != []
    requires IsFresh(v) && |v.data| == 2048 && Compacts(g.Plans(), LastFill(fills), sel)
    ensures ci < |q.columnIds| && !IsVirtual(q.columnIds[ci]) && AllFillsOk(g.Plans(), fills)
    ensures FillsShowable(StoredTable(objs), g.workUnits, SeqnumOf(q, ci), fills)
    ensures passes == PassesOf(StoredTable(objs), g.workUnits, SeqnumOf(q, ci), fills)
    ensures var last := passes[|passes| - 1]; Copies(last.col.mtype.oid) ==>
      && Fillable(last.col, last.count, last.offset) && (forall j :: 0 <= j < |sel| ==> sel[j] < last.count)
      && (ShowsWritten(SlotState(g, v, oi, fills), sel, objs, SeqnumOf(q, ci), rows) <==> RetryHarmless(passes, sel))
  {
    hide *;
    var t := StoredTable(objs);
    TableIsSound(q, objs);
    ScansMeans(g, q, objs, fs);
    BuiltIsStored(q, layout, objs, fs, g);
    SlotPosition(g, q, oi, ci);
    FreshIsSized(v);
    FillsOfCall(g.Plans(), next, l);
    ReturnsMeans(g.Plans(), fills, rows);
    AllShowable(q, objs, g, ci, fills);
    passes := PassesOf(t, g.workUnits, SeqnumOf(q, ci), fills);
    if Copies(passes[|passes| - 1].col.mtype.oid) {
      ExecuteShowsRows(g, q, t, next, l, oi, ci, v, rows, sel, fills, passes);
      ShownIsWritten(SlotState(g, v, oi, fills), sel, objs, SeqnumOf(q, ci), rows);
    }
  }

  lemma ScansMeans(g: TAEScanState, q: Query, objs: seq<WrittenObject>, fs: FileSet)
    requires q.Valid() && TableFitsQuery(q, objs) && AllObjectsWritten(objs) && ScansTable(g, q, objs, fs)
    ensures Configured(g, q, objs, fs)
    ensures TableSound(q, StoredTable(objs)) && IsQueueOrder(q, StoredTable(objs), g.workUnits)
    ensures InTable(DeliveredTable(q, StoredTable(objs)), g.workUnits)
  {
    TableIsSound(q, objs);
    QueueInTable(q, StoredTable(objs), g.workUnits);
    hide TableSound;
    hide DeliveredTable;
    hide Queue;
  }

  lemma FreshIsSized(v: VecState)
    requires IsFresh(v)
    ensures Sized(v)
  {
  }

  // ----- ORDER BY ... LIMIT -----

  /** The block has the order column, with the block's rows, and every value written in it
      that is not null lies between the sort keys of its zone map. */
  predicate KeysCover(order: OrderInfo, b: WrittenBlock)
  {
    order.seqnum < |b.columns| &&
    var c := b.columns[order.seqnum];
    && c.given.Valid() && c.given.Rows() == b.rows
    && forall row :: 0 <= row < b.rows && !c.given.At(c.oid, row).NullV? ==>
         Within(RangeOf(c.spec.zoneMap, order.oid, order.isString), c.given.At(c.oid, row))
  }

  predicate AllKeysCover(order: OrderInfo, objs: seq<WrittenObject>)
  {
    forall k, b :: 0 <= k < |objs| && 0 <= b < |objs[k].blocks| ==> KeysCover(order, objs[k].blocks[b])
  }

  lemma KeysAreBounded(order: OrderInfo, b: WrittenBlock)
    requires BlockWritten(b) && KeysCover(order, b)
    ensures KeysBounded(order, StoredBlockOf(b))
  {
    var c, s := b.columns[order.seqnum], StoredBlockOf(b);
    var col := s.columns[order.seqnum];
    assert Returns(col, c.oid, c.given);
    hide Returns;
    hide DecodedFrom;
    hide SeenAt;
    hide SeenOk;
    hide Within;
    forall row | 0 <= row < b.rows ensures SeenOk(col, row) && SeenAt(col, row) == c.given.At(c.oid, row) {
      SeenIsGiven(col, c.oid, c.given, row);
    }
    BoundedAtRows(order, s);
  }

  lemma OrderIsSound(order: OrderInfo, objs: seq<WrittenObject>)
    requires AllObjectsWritten(objs) && AllKeysCover(order, objs)
    ensures OrderSound(order, StoredTable(objs))
  {
    hide KeysCover;
    hide KeysBounded;
    var t := StoredTable(objs);
    forall k, b | 0 <= k < |t| && 0 <= b < |t[k].blocks| ensures KeysBounded(order, t[k].blocks[b]) {
      StoredUnit(objs, WorkUnit(k, b));
      KeysAreBounded(order, objs[k].blocks[b]);
    }
  }

  /** The values written at these rows. */
  function WrittenKeys(objs: seq<WrittenObject>, seqnum: nat, rows: seq<RowId>): multiset<Value>
  {
    multiset(seq(|rows|, i requires 0 <= i < |rows| => WrittenAt(objs, seqnum, rows[i])))
  }

  lemma KeysAreWritten(objs: seq<WrittenObject>, seqnum: nat, rows: seq<RowId>)
    requires AllObjectsWritten(objs)
    ensures Keys(StoredTable(objs), seqnum, rows) == WrittenKeys(objs, seqnum, rows)
  {
    hide StoredTable;
    hide CellOf;
    hide WrittenAt;
    forall i | 0 <= i < |rows| ensures CellOf(StoredTable(objs), seqnum, rows[i]) == WrittenAt(objs, seqnum, rows[i]) {
      CellIsWritten(objs, seqnum, rows[i]);
    }
    assert KeySeq(StoredTable(objs), seqnum, rows) == seq(|rows|, i requires 0 <= i < |rows| => WrittenAt(objs, seqnum, rows[i]));
  }

  /** Nulls among the first `n` values written. */
  function NullsAmong(c: WrittenColumn, n: nat): nat
    requires c.given.Valid() && n <= c.given.Rows()
  {
    if n == 0 then 0 else NullsAmong(c, n - 1) + Once(c.given.At(c.oid, n - 1).NullV?)
  }

  lemma {:induction false} NullsAreWritten(b: StoredBlock, seqnum: nat, c: WrittenColumn, n: nat)
    requires seqnum < |b.columns| && Returns(b.columns[seqnum], c.oid, c.given) && n <= c.given.Rows()
    ensures forall row :: 0 <= row < n ==> SeenOk(b.columns[seqnum], row)
    ensures KeyRows(b, seqnum, n).nulls == NullsAmong(c, n)
  {
    hide RowOk;
    hide CellAt;
    if n > 0 { NullsAreWritten(b, seqnum, c, n - 1); }
  }

  /** `sorted` and `kept` are what ordering makes of the queue. */
  ghost predicate OrdersTable(q: Query, order: OrderInfo, objs: seq<WrittenObject>, sorted: seq<OrderedUnit>, kept: seq<WorkUnit>)
    requires q.Valid() && TableFitsQuery(q, objs) && AllObjectsWritten(objs)
  {
    TableIsSound(q, objs);
    IsOrdered(q, order, StoredTable(objs), sorted, kept)
  }

  /** The order column of a block was written with so many nulls. */
  predicate HasNulls(order: OrderInfo, objs: seq<WrittenObject>, w: WorkUnit, nulls: nat)
  {
    InWritten(objs, w) && KeysCover(order, WrittenBlockOf(objs, w)) &&
    nulls == NullsAmong(WrittenBlockOf(objs, w).columns[order.seqnum], WrittenBlockOf(objs, w).rows)
  }

  /** Nulls written in the order column of each ordered block. */
  ghost function UnitNulls(q: Query, order: OrderInfo, objs: seq<WrittenObject>, sorted: seq<OrderedUnit>, kept: seq<WorkUnit>): (nulls: seq<nat>)
    requires q.Valid() && TableFitsQuery(q, objs) && AllObjectsWritten(objs) && AllKeysCover(order, objs)
    requires OrdersTable(q, order, objs, sorted, kept)
    ensures |nulls| == |sorted| && Ranged(sorted, nulls)
    ensures forall i :: 0 <= i < |sorted| ==> HasNulls(order, objs, sorted[i].unit, nulls[i])
  {
    TableIsSound(q, objs);
    OrderIsSound(order, objs);
    NullsOfUnits(q, order, objs, sorted, kept);
    NullsOf(OrderedContents(q, order, StoredTable(objs), sorted, kept))
  }

  lemma NullsOfUnits(q: Query, order: OrderInfo, objs: seq<WrittenObject>, sorted: seq<OrderedUnit>, kept: seq<WorkUnit>)
    requires q.Valid() && TableFitsQuery(q, objs) && AllObjectsWritten(objs) && AllKeysCover(order, objs)
    requires TableSound(q, StoredTable(objs)) && OrderSound(order, StoredTable(objs))
    requires IsOrdered(q, order, StoredTable(objs), sorted, kept)
    ensures forall i :: 0 <= i < |sorted| ==>
      HasNulls(order, objs, sorted[i].unit, NullsOf(OrderedContents(q, order, StoredTable(objs), sorted, kept))[i])
  {
    var t := StoredTable(objs);
    OrderedUnits(q, order, t, sorted, kept);
    var contents := OrderedContents(q, order, t, sorted, kept);
    assert contents == ContentsOf(order, t, sorted);
    hide TableSound;
    hide TableFitsQuery;
    hide OrderSound;
    hide IsOrdered;
    hide StoredTable;
    hide DeliveredTable;
    hide HasNulls;
    hide OrderedContents;
    hide AllKeysCover;
    forall i | 0 <= i < |sorted| ensures HasNulls(order, objs, sorted[i].unit, contents[i].nulls) {
      UnitHasNulls(order, objs, sorted, i);
    }
  }

  lemma UnitHasNulls(order: OrderInfo, objs: seq<WrittenObject>, units: seq<OrderedUnit>, i: nat)
    requires AllObjectsWritten(objs) && AllKeysCover(order, objs) && OrderSound(order, StoredTable(objs)) && i < |units|
    requires forall k :: 0 <= k < |units| ==> InObjects(StoredTable(objs), units[k].unit)
    ensures HasNulls(order, objs, units[i].unit, ContentsOf(order, StoredTable(objs), units)[i].nulls)
  {
    var w, t := units[i].unit, StoredTable(objs);
    assert InObjects(t, w);
    StoredUnit(objs, w);
    var b := WrittenBlockOf(objs, w);
    assert KeysCover(order, b) && KeysBounded(order, BlockOf(t, w));
    var c := b.columns[order.seqnum];
    assert Returns(StoredColumns(b)[order.seqnum], c.oid, c.given);
    hide Returns;
    hide DecodedFrom;
    hide Within;
    NullsAreWritten(BlockOf(t, w), order.seqnum, c, b.rows);
  }

  /** Some sequence lists every row that matches once and no other row. */
  ghost predicate ListsMatches(q: Query, objs: seq<WrittenObject>, rows: seq<RowId>)
    requires q.Valid()
  {
    forall r :: multiset(rows)[r] == Once(WrittenMatches(q, objs, r))
  }

  lemma ListedKeys(q: Query, objs: seq<WrittenObject>, seqnum: nat, rows: seq<RowId>)
    requires q.Valid() && TableFitsQuery(q, objs) && AllObjectsWritten(objs) && ListsMatches(q, objs, rows)
    ensures Keys(StoredTable(objs), seqnum, Answer(q, StoredTable(objs), |objs|)) == WrittenKeys(objs, seqnum, rows)
  {
    hide *;
    var t := StoredTable(objs);
    AnswerListed(q, objs, rows);
    KeysPermuted(t, seqnum, Answer(q, t, |objs|), rows);
    KeysAreWritten(objs, seqnum, rows);
  }

  lemma AnswerListed(q: Query, objs: seq<WrittenObject>, rows: seq<RowId>)
    requires q.Valid() && TableFitsQuery(q, objs) && AllObjectsWritten(objs) && ListsMatches(q, objs, rows)
    ensures multiset(Answer(q, StoredTable(objs), |objs|)) == multiset(rows)
  {
    hide StoredTable;
    hide WrittenMatches;
    hide InAnswer;
    hide Answer;
    hide TableFitsQuery;
    var t := StoredTable(objs);
    forall r ensures multiset(Answer(q, t, |objs|))[r] == multiset(rows)[r] {
      AnswerCounts(q, t, |objs|, r);
      AnswerIsMatches(q, objs, r);
      InAnswerIsInside(q, t, r);
    }
  }

  lemma InAnswerIsInside(q: Query, objs: seq<StoredObject>, r: RowId)
    requires q.Valid()
    ensures InAnswer(q, objs, r) ==> r.obj < |objs|
  {
  }

  /** A scan of the cut queue over built files, by any threads in any interleaving: when the
      sort keys cover the values written and the nulls written allow the cut, the first N
      values emitted in the order column are those of all rows written. */
  lemma BuiltLimitedScan(q: Query, order: OrderInfo, layout: Layout, objs: seq<WrittenObject>, fs: FileSet, g: TAEScanState,
                         sorted: seq<OrderedUnit>, rows: seq<RowId>, wanted: Wanted, limit: nat, threads: nat, schedule: seq<nat>)
    requires q.Valid() && q.entries == [] && q.ReadsFiles() && TableBuilt(layout, objs, fs) && AllObjectsWritten(objs)
    requires TableFitsQuery(q, objs) && Configured(g, q, objs, fs) && AllKeysCover(order, objs)
    requires OrdersTable(q, order, objs, sorted, g.workUnits) && |g.workUnits| <= |sorted|
    requires ZonesAllowCut(sorted, UnitNulls(q, order, objs, sorted, g.workUnits), |g.workUnits|, limit, wanted)
    requires ListsMatches(q, objs, rows) && threads > 0 && IsSchedule(schedule, threads)
    ensures g.Valid()
    ensures var s := Run(g.Plans(), threads, schedule, |schedule|);
      AllTold(s) ==>
        SameFirstKeys(WrittenKeys(objs, order.seqnum, s.emitted), WrittenKeys(objs, order.seqnum, rows), limit, wanted)
  {
    hide *;
    var t := StoredTable(objs);
    TableIsSound(q, objs);
    OrderIsSound(order, objs);
    OrdersMeans(q, order, objs, sorted, g.workUnits);
    LimitedScan(q, order, t, sorted, g.workUnits, wanted, limit, threads, schedule);
    PlansAre(q, layout, objs, fs, g);
    ListedKeys(q, objs, order.seqnum, rows);
    KeysAreWritten(objs, order.seqnum, Run(g.Plans(), threads, schedule, |schedule|).emitted);
  }

  lemma OrdersMeans(q: Query, order: OrderInfo, objs: seq<WrittenObject>, sorted: seq<OrderedUnit>, kept: seq<WorkUnit>)
    requires q.Valid() && TableFitsQuery(q, objs) && AllObjectsWritten(objs) && AllKeysCover(order, objs)
    requires OrdersTable(q, order, objs, sorted, kept)
    requires TableSound(q, StoredTable(objs)) && OrderSound(order, StoredTable(objs))
    ensures IsOrdered(q, order, StoredTable(objs), sorted, kept)
    ensures UnitNulls(q, order, objs, sorted, kept) == NullsOf(OrderedContents(q, order, StoredTable(objs), sorted, kept))
  {
    hide IsOrdered;
    hide OrderedContents;
    hide TableSound;
    hide OrderSound;
    hide StoredTable;
    hide TableFitsQuery;
    hide AllKeysCover;
    TableIsSound(q, objs);
  }

  // ----- queries that read no file -----

  predicate ManifestNames(manifest: seq<ManifestObject>, objs: seq<WrittenObject>)
  {
    AllValid(manifest) && |manifest| == |objs| && forall k :: 0 <= k < |objs| ==> manifest[k].blocks == objs[k].manifestBlocks
  }

  /** Every block before position `n` was written with the manifest's count of rows, every
      later one with none. */
  predicate CountsWritten(objs: seq<WrittenObject>, order: seq<WorkUnit>, plans: seq<UnitPlan>, n: nat)
    requires |plans| == |order| && forall i :: 0 <= i < |order| ==> InWritten(objs, order[i])
  {
    forall i :: 0 <= i < |order| ==> WrittenBlockOf(objs, order[i]).rows == if i < n then plans[i].total else 0
  }

  /** A query that reads no file, over the manifest of a built table: once every thread has been
      told "0 rows", the rows emitted are all rows written, each once, exactly when every block
      before the `threads`-th empty count was written with the manifest's count of rows, and
      every other block with none. Without an empty count, that is every block. */
  lemma BuiltMetadataAnswer(q: Query, layout: Layout, objs: seq<WrittenObject>, fs: FileSet, g: TAEScanState, threads: nat, calls: seq<nat>)
    requires q.Valid() && !q.ReadsFiles() && TableBuilt(layout, objs, fs) && AllObjectsWritten(objs) && TableFitsQuery(q, objs)
    requires ScansTable(g, q, objs, fs) && ManifestNames(g.manifest, objs) && threads > 0 && IsSchedule(calls, threads)
    ensures g.Valid() && g.MetadataOnly() && forall i :: 0 <= i < |g.workUnits| ==> InWritten(objs, g.workUnits[i])
    ensures AllTold(FastRun(g.Plans(), threads, calls, |calls|)) ==>
      (ListsMatches(q, objs, FastRun(g.Plans(), threads, calls, |calls|).emitted) <==>
       CountsWritten(objs, g.workUnits, g.Plans(), Reached(g.Plans(), threads, 0)))
    ensures AllPositive(g.Plans()) ==>
      (CountsWritten(objs, g.workUnits, g.Plans(), Reached(g.Plans(), threads, 0)) <==>
       CountsWritten(objs, g.workUnits, g.Plans(), |g.workUnits|))
  {
    hide *;
    var t, order := StoredTable(objs), g.workUnits;
    TableIsSound(q, objs);
    ScansMeans(g, q, objs, fs);
    ManifestIsStored(g.manifest, objs);
    ReadsNothing(g, q, objs, fs);
    CountsAreKnown(q, t, g.manifest, order);
    CountedSetUp(g, q, objs, fs);
    var plans := g.Plans();
    MetadataAnswerExact(q, t, g.manifest, order, plans, threads, calls);
    CountsAreWritten(objs, order, plans, Reached(plans, threads, 0));
    CountsAreWritten(objs, order, plans, |order|);
    EmitsMatches(q, objs, FastRun(plans, threads, calls, |calls|).emitted);
  }

  lemma ManifestIsStored(manifest: seq<ManifestObject>, objs: seq<WrittenObject>)
    requires AllObjectsWritten(objs) && ManifestNames(manifest, objs)
    ensures ManifestFits(manifest, StoredTable(objs))
  {
    hide AllValid;
  }

  lemma ReadsNothing(g: TAEScanState, q: Query, objs: seq<WrittenObject>, fs: FileSet)
    requires q.Valid() && !q.ReadsFiles() && Configured(g, q, objs, fs)
    ensures g.MetadataOnly() && q.Filters() == []
  {
  }

  lemma CountedSetUp(g: TAEScanState, q: Query, objs: seq<WrittenObject>, fs: FileSet)
    requires q.Valid() && AllObjectsWritten(objs) && Configured(g, q, objs, fs) && g.MetadataOnly() && CountsKnown(g.manifest, g.workUnits)
    requires TableSound(q, StoredTable(objs)) && InTable(DeliveredTable(q, StoredTable(objs)), g.workUnits)
    ensures g.Valid() && g.Plans() == CountedPlans(g.manifest, g.workUnits)
  {
    hide CountsKnown;
    hide TableSound;
  }

  lemma CountsAreWritten(objs: seq<WrittenObject>, order: seq<WorkUnit>, plans: seq<UnitPlan>, n: nat)
    requires AllObjectsWritten(objs) && |plans| == |order| && forall i :: 0 <= i < |order| ==> InObjects(StoredTable(objs), order[i])
    ensures forall i :: 0 <= i < |order| ==> InWritten(objs, order[i])
    ensures CountsMatch(StoredTable(objs), order, plans, n) <==> CountsWritten(objs, order, plans, n)
    ensures n == |order| ==>
      (CountsWritten(objs, order, plans, n) <==> forall i :: 0 <= i < |order| ==> FileRows(StoredTable(objs), order[i]) == plans[i].total)
  {
    forall i | 0 <= i < |order|
      ensures InWritten(objs, order[i]) && FileRows(StoredTable(objs), order[i]) == WrittenBlockOf(objs, order[i]).rows
    {
      StoredUnit(objs, order[i]);
    }
    hide StoredTable;
    hide InWritten;
    hide InObjects;
  }

  lemma EmitsMatches(q: Query, objs: seq<WrittenObject>, rows: seq<RowId>)
    requires q.Valid() && TableFitsQuery(q, objs) && AllObjectsWritten(objs)
    ensures EmitsAnswer(q, StoredTable(objs), rows) <==> ListsMatches(q, objs, rows)
  {
    forall r ensures InAnswer(q, StoredTable(objs), r) <==> WrittenMatches(q, objs, r) { AnswerIsMatches(q, objs, r); }
    hide InAnswer;
    hide WrittenMatches;
    hide StoredTable;
  }
}
