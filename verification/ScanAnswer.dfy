/** The whole scan: from a table and a query's filters, through pruning, ordering, any
    number of threads and any interleaving, to the rows of the answer. */
module ScanAnswer {
  import opened Bytes
  import opened Types
  import opened ZoneMaps
  import opened Vectors
  import opened Filters
  import opened Chunks
  import opened ScanMachine
  import opened Scanner
  import opened WorkQueue
  import opened ColumnMap
  import opened ColumnFill

  /** A block as its file stores it, columns by sequence number. */
  datatype StoredBlock = StoredBlock(rows: nat, zms: seq<ZoneMap>, columns: seq<DecodedColumn>)

  datatype StoredObject = StoredObject(manifestBlocks: nat, sortKeyZm: Option<ZoneMap>, blocks: seq<StoredBlock>)

  datatype Query = Query(schema: Schema, columnIds: seq<nat>, entries: seq<FilterEntry>, sortSeqnum: nat) {
    predicate Valid()
    {
      IdsKnown(schema, columnIds) && EntriesOk(schema, columnIds, entries)
    }

    function ReadOrder(): seq<nat>
      requires Valid()
    {
      ReadSeqnums(schema, columnIds, |columnIds|)
    }

    function Filters(): (fs: seq<PushedFilter>)
      requires Valid()
      ensures AllWellFormed(fs)
    {
      FiltersFrom(schema, columnIds, entries, |entries|)
    }

    /** The scan reads files; otherwise it takes the metadata-only path. */
    predicate ReadsFiles()
      requires Valid()
    {
      ReadOrder() != [] || Filters() != []
    }
  }

  // ----- the answer -----

  /** SQL's own condition: every filter entry is TRUE on the cell of its column. Entries
      on virtual columns or on ids outside the schema are not part of it: they are never
      pushed to the scan. */
  predicate RowMatches(q: Query, b: StoredBlock, row: nat)
    requires q.Valid()
  {
    forall i :: 0 <= i < |q.entries| ==> EntryTrue(q.schema, q.columnIds, q.entries[i], b.columns, row)
  }

  function BlockAnswer(q: Query, obj: nat, blk: nat, b: StoredBlock): seq<RowId>
    requires q.Valid()
  {
    RowsOf(UnitPlan(obj, blk, b.rows, true, (row: nat) => RowMatches(q, b, row)), 0, b.rows)
  }

  function ObjectAnswer(q: Query, obj: nat, o: StoredObject, n: nat): seq<RowId>
    requires q.Valid() && n <= |o.blocks|
  {
    if n == 0 then [] else ObjectAnswer(q, obj, o, n - 1) + BlockAnswer(q, obj, n - 1, o.blocks[n - 1])
  }

  /** The matching rows of the first `n` objects. */
  function Answer(q: Query, objs: seq<StoredObject>, n: nat): seq<RowId>
    requires q.Valid() && n <= |objs|
  {
    if n == 0 then [] else Answer(q, objs, n - 1) + ObjectAnswer(q, n - 1, objs[n - 1], |objs[n - 1].blocks|)
  }

  function Once(b: bool): nat { if b then 1 else 0 }

  /** The row exists and matches. */
  predicate InAnswer(q: Query, objs: seq<StoredObject>, r: RowId)
    requires q.Valid()
  {
    && r.obj < |objs| && r.blk < |objs[r.obj].blocks| && r.row < objs[r.obj].blocks[r.blk].rows
    && RowMatches(q, objs[r.obj].blocks[r.blk], r.row)
  }

  lemma {:induction false} RowsCounted(u: UnitPlan, n: nat, r: RowId)
    ensures multiset(RowsOf(u, 0, n))[r] == Once(r.obj == u.obj && r.blk == u.blk && r.row < n && u.passes(r.row))
  {
    if n > 0 {
      RowsCounted(u, n - 1, r);
      RowAppended(u, n);
      hide RowsOf;
      MultisetOfBoth(RowsOf(u, 0, n - 1), if u.passes(n - 1) then [RowId(u.obj, u.blk, n - 1)] else []);
    }
  }

  lemma RowAppended(u: UnitPlan, n: nat)
    requires n > 0
    ensures RowsOf(u, 0, n) == RowsOf(u, 0, n - 1) + if u.passes(n - 1) then [RowId(u.obj, u.blk, n - 1)] else []
  {
  }

  lemma {:induction false} ObjectCounts(q: Query, obj: nat, o: StoredObject, n: nat, r: RowId)
    requires q.Valid() && n <= |o.blocks|
    ensures multiset(ObjectAnswer(q, obj, o, n))[r] ==
            Once(r.obj == obj && r.blk < n && r.row < o.blocks[r.blk].rows && RowMatches(q, o.blocks[r.blk], r.row))
  {
    hide RowMatches;
    hide RowsOf;
    if n > 0 {
      ObjectCounts(q, obj, o, n - 1, r);
      var b := o.blocks[n - 1];
      RowsCounted(UnitPlan(obj, n - 1, b.rows, true, (row: nat) => RowMatches(q, b, row)), b.rows, r);
      MultisetOfBoth(ObjectAnswer(q, obj, o, n - 1), BlockAnswer(q, obj, n - 1, b));
    }
  }

  /** The answer lists every matching row once and nothing else. */
  lemma {:induction false} AnswerCounts(q: Query, objs: seq<StoredObject>, n: nat, r: RowId)
    requires q.Valid() && n <= |objs|
    ensures multiset(Answer(q, objs, n))[r] == Once(r.obj < n && InAnswer(q, objs, r))
  {
    hide RowMatches;
    hide ObjectAnswer;
    if n > 0 {
      AnswerCounts(q, objs, n - 1, r);
      var o := objs[n - 1];
      ObjectCounts(q, n - 1, o, |o.blocks|, r);
      MultisetOfBoth(Answer(q, objs, n - 1), ObjectAnswer(q, n - 1, o, |o.blocks|));
    }
  }

  // ----- what the code relies on -----

  /** The block has the columns the query reads, all with the block's number of rows, and
      those its filters test are of the manifest's types and can be tested at every row. */
  predicate BlockReadable(q: Query, b: StoredBlock)
    requires q.Valid()
  {
    && (forall p :: 0 <= p < |q.ReadOrder()| ==>
          q.ReadOrder()[p] < |b.columns| && b.columns[q.ReadOrder()[p]].rowCount == b.rows)
    && forall row :: 0 <= row < b.rows ==> EntriesRead(q, b, row)
  }

  predicate EntriesRead(q: Query, b: StoredBlock, row: nat)
    requires q.Valid()
  {
    forall i :: 0 <= i < |q.entries| ==> EntryReads(q.schema, q.columnIds, q.entries[i], b.columns, row)
  }

  /** The zone map bounds the column at every row that is not null. */
  ghost predicate BoundsColumn(z: ZoneMap, col: DecodedColumn, rows: nat)
  {
    forall row :: 0 <= row < rows ==> DescribesOrNull(z, col, row)
  }

  /** A zone map that a filter is tested against bounds the filter's column, and does not
      meet the truncated NOT_EQUAL case. */
  ghost predicate Trusted(f: PushedFilter, z: ZoneMap, b: StoredBlock)
  {
    f.seqnum < |b.columns| &&
    (TestsNulls(f.op) || (BoundsColumn(z, b.columns[f.seqnum], b.rows) && !TruncationHazard(f, z)))
  }

  ghost predicate BlockBounded(q: Query, b: StoredBlock)
    requires q.Valid()
  {
    forall f :: f in q.Filters() && f.seqnum < |b.zms| ==> Trusted(f, b.zms[f.seqnum], b)
  }

  /** So does the manifest's zone map, for filters on the sort column. */
  ghost predicate SortKeyBounded(q: Query, o: StoredObject)
    requires q.Valid()
  {
    o.sortKeyZm.Some? ==>
      forall f, k :: f in q.Filters() && f.seqnum == q.sortSeqnum && 0 <= k < |o.blocks| ==>
        Trusted(f, o.sortKeyZm.value, o.blocks[k])
  }

  ghost predicate ObjectSound(q: Query, o: StoredObject)
    requires q.Valid()
  {
    && o.manifestBlocks == |o.blocks|
    && (forall k :: 0 <= k < |o.blocks| ==> BlockReadable(q, o.blocks[k]))
    && (forall k :: 0 <= k < |o.blocks| ==> BlockBounded(q, o.blocks[k]))
    && SortKeyBounded(q, o)
  }

  ghost predicate TableSound(q: Query, objs: seq<StoredObject>)
    requires q.Valid()
  {
    forall k :: 0 <= k < |objs| ==> ObjectSound(q, objs[k])
  }

  // ----- what the scan is given -----

  /** The decoded columns of a block, in read order. */
  function DecodedColumns(q: Query, b: StoredBlock): (cols: seq<DecodedColumn>)
    requires q.Valid() && BlockReadable(q, b)
    ensures DecodedFor(q.schema, q.columnIds, b.columns, cols)
  {
    var order := q.ReadOrder();
    seq(|order|, p requires 0 <= p < |order| => b.columns[order[p]])
  }

  function Delivered(q: Query, obj: nat, blk: nat, b: StoredBlock): ScanUnit
    requires q.Valid() && BlockReadable(q, b)
  {
    ScanUnit(obj, blk, b.rows, b.zms, DecodedColumns(q, b))
  }

  /** The rows emitted are the block's: its columns agree with the metadata on their number. */
  lemma DeliveredTotal(q: Query, obj: nat, blk: nat, b: StoredBlock)
    requires q.Valid() && BlockReadable(q, b)
    ensures Delivered(q, obj, blk, b).Total() == b.rows
  {
    if q.ReadOrder() != [] { assert b.columns[q.ReadOrder()[0]].rowCount == b.rows; }
  }

  ghost function DeliveredObject(q: Query, obj: nat, o: StoredObject): TableObject
    requires q.Valid() && ObjectSound(q, o)
  {
    TableObject(o.manifestBlocks, o.sortKeyZm,
                seq(|o.blocks|, k requires 0 <= k < |o.blocks| => Delivered(q, obj, k, o.blocks[k])))
  }

  ghost function DeliveredTable(q: Query, objs: seq<StoredObject>): (t: seq<TableObject>)
    requires q.Valid() && TableSound(q, objs)
    ensures |t| == |objs|
  {
    seq(|objs|, k requires 0 <= k < |objs| => DeliveredObject(q, k, objs[k]))
  }

  // ----- filters test the columns their zone maps describe -----

  /** A pushed filter comes from an entry, and names its column by position, sequence
      number and type. */
  predicate ComesFrom(schema: Schema, columnIds: seq<nat>, e: FilterEntry, f: PushedFilter)
    requires schema.Valid() && IdsKnown(schema, columnIds)
  {
    && Applies(schema, columnIds, e) && WellFormed(f) && f.colIdx == RealBefore(columnIds, e.pos)
    && f.seqnum == schema.seqnums[columnIds[e.pos]] && f.oid == schema.oids[columnIds[e.pos]]
  }

  lemma {:induction false} FilterOrigin(schema: Schema, columnIds: seq<nat>, entries: seq<FilterEntry>, n: nat, f: PushedFilter)
    returns (i: nat)
    requires n <= |entries| && EntriesOk(schema, columnIds, entries) && IdsKnown(schema, columnIds)
    requires f in FiltersFrom(schema, columnIds, entries, n)
    ensures i < n && ComesFrom(schema, columnIds, entries[i], f)
    ensures EntryOk(schema, columnIds, entries[i]) && f in EntryFilters(schema, columnIds, entries[i])
  {
    if f in FiltersFrom(schema, columnIds, entries, n - 1) {
      i := FilterOrigin(schema, columnIds, entries, n - 1, f);
    } else {
      i := n - 1;
      assert f in EntryFilters(schema, columnIds, entries[i]);
    }
  }

  lemma FilterFitsUnit(q: Query, obj: nat, blk: nat, b: StoredBlock, f: PushedFilter)
    requires q.Valid() && BlockReadable(q, b) && f in q.Filters()
    ensures f.seqnum < |b.columns| && FilterFits(f, Delivered(q, obj, blk, b))
    ensures Delivered(q, obj, blk, b).cols[f.colIdx] == b.columns[f.seqnum]
  {
    var i := FilterOrigin(q.schema, q.columnIds, q.entries, |q.entries|, f);
    DecodedPosition(q.schema, q.columnIds, q.entries[i].pos, |q.columnIds|);
    DeliveredTotal(q, obj, blk, b);
    assert q.ReadOrder()[f.colIdx] < |b.columns|;
    var u := Delivered(q, obj, blk, b);
    assert u.cols[f.colIdx] == b.columns[f.seqnum];
    forall row | 0 <= row < u.Total() ensures EntryReads(q.schema, q.columnIds, q.entries[i], b.columns, row) {
      assert EntriesRead(q, b, row);
    }
    EntryColumnFits(q.schema, q.columnIds, q.entries[i], b.columns, f, u);
  }

  lemma EntryColumnFits(schema: Schema, columnIds: seq<nat>, e: FilterEntry, columns: seq<DecodedColumn>, f: PushedFilter, u: ScanUnit)
    requires schema.Valid() && IdsKnown(schema, columnIds) && ComesFrom(schema, columnIds, e, f)
    requires f.seqnum < |columns| && f.colIdx < |u.cols| && u.cols[f.colIdx] == columns[f.seqnum]
    requires forall row :: 0 <= row < u.Total() ==> EntryReads(schema, columnIds, e, columns, row)
    ensures FilterFits(f, u)
  {
    if u.Total() > 0 { assert EntryReads(schema, columnIds, e, columns, 0); }
  }

  lemma TrustedSpeaks(q: Query, obj: nat, blk: nat, b: StoredBlock, f: PushedFilter, z: ZoneMap)
    requires q.Valid() && BlockReadable(q, b) && f in q.Filters() && Trusted(f, z, b)
    ensures FilterFits(f, Delivered(q, obj, blk, b)) && SpeaksFor(z, f, Delivered(q, obj, blk, b))
  {
    FilterFitsUnit(q, obj, blk, b, f);
    DeliveredTotal(q, obj, blk, b);
  }

  lemma BlockIsDescribed(q: Query, obj: nat, blk: nat, b: StoredBlock)
    requires q.Valid() && BlockReadable(q, b) && BlockBounded(q, b)
    ensures Described(q.Filters(), Delivered(q, obj, blk, b))
  {
    var u := Delivered(q, obj, blk, b);
    forall f | f in q.Filters()
      ensures FilterFits(f, u) && (f.seqnum < |u.zms| ==> SpeaksFor(u.zms[f.seqnum], f, u))
    {
      FilterFitsUnit(q, obj, blk, b, f);
      if f.seqnum < |b.zms| { TrustedSpeaks(q, obj, blk, b, f, b.zms[f.seqnum]); }
    }
  }

  lemma ObjectIsDescribed(q: Query, obj: nat, o: StoredObject)
    requires q.Valid() && ObjectSound(q, o)
    ensures ObjectDescribed(q.Filters(), DeliveredObject(q, obj, o), q.sortSeqnum)
  {
    hide Trusted;
    hide BlockReadable;
    hide Described;
    hide SpeaksFor;
    var d := DeliveredObject(q, obj, o);
    forall k | 0 <= k < |d.blocks| ensures Described(q.Filters(), d.blocks[k]) {
      BlockIsDescribed(q, obj, k, o.blocks[k]);
    }
    if o.sortKeyZm.Some? {
      forall f, k | f in q.Filters() && f.seqnum == q.sortSeqnum && 0 <= k < |d.blocks|
        ensures FilterFits(f, d.blocks[k]) && SpeaksFor(o.sortKeyZm.value, f, d.blocks[k])
      {
        TrustedSpeaks(q, obj, k, o.blocks[k], f, o.sortKeyZm.value);
      }
    }
  }

  // ----- reading everything and filtering gives the answer -----

  lemma {:induction false} SelectedSame(p: nat -> bool, r: nat -> bool, from: nat, until: nat)
    requires from <= until && forall row :: from <= row < until ==> p(row) == r(row)
    ensures Selected(p, from, until) == Selected(r, from, until)
    decreases until
  {
    if from < until { SelectedSame(p, r, from, until - 1); }
  }

  lemma BlockRowsAreAnswer(q: Query, obj: nat, blk: nat, b: StoredBlock)
    requires q.Valid() && BlockReadable(q, b)
    ensures BlockRows(q.Filters(), Delivered(q, obj, blk, b)) == BlockAnswer(q, obj, blk, b)
  {
    var u := Delivered(q, obj, blk, b);
    DeliveredTotal(q, obj, blk, b);
    forall row | 0 <= row < b.rows ensures RowPasses(q.Filters(), u.cols, row) == RowMatches(q, b, row) {
      RowMeaning(q, b, row);
    }
    SelectedSame(Passer(q.Filters(), u.cols), (row: nat) => RowMatches(q, b, row), 0, b.rows);
  }

  /** A row passes the pushed filters exactly when it matches the query. */
  lemma RowMeaning(q: Query, b: StoredBlock, row: nat)
    requires q.Valid() && BlockReadable(q, b) && row < b.rows
    ensures RowPasses(q.Filters(), DecodedColumns(q, b), row) <==> RowMatches(q, b, row)
    ensures RowReadable(q.Filters(), DecodedColumns(q, b), row)
  {
    var cols := DecodedColumns(q, b);
    assert EntriesRead(q, b, row);
    FiltersMeanEntries(q.schema, q.columnIds, q.entries, |q.entries|, b.columns, cols, row);
  }

  lemma {:induction false} ObjectRowsAreAnswer(q: Query, obj: nat, o: StoredObject, n: nat)
    requires q.Valid() && ObjectSound(q, o) && n <= |o.blocks|
    ensures ObjectRows(q.Filters(), DeliveredObject(q, obj, o), n) == ObjectAnswer(q, obj, o, n)
  {
    hide BlockRows;
    hide BlockAnswer;
    hide BlockReadable;
    hide BlockBounded;
    hide SortKeyBounded;
    if n > 0 {
      ObjectRowsAreAnswer(q, obj, o, n - 1);
      BlockRowsAreAnswer(q, obj, n - 1, o.blocks[n - 1]);
    }
  }

  lemma {:induction false} TableRowsAreAnswer(q: Query, objs: seq<StoredObject>, n: nat)
    requires q.Valid() && TableSound(q, objs) && n <= |objs|
    ensures TableRows(q.Filters(), DeliveredTable(q, objs), n) == Answer(q, objs, n)
  {
    hide ObjectRows;
    hide ObjectAnswer;
    hide ObjectSound;
    if n > 0 {
      TableRowsAreAnswer(q, objs, n - 1);
      ObjectRowsAreAnswer(q, n - 1, objs[n - 1], |objs[n - 1].blocks|);
      DeliveredCount(q, n - 1, objs[n - 1]);
    }
  }

  lemma DeliveredCount(q: Query, obj: nat, o: StoredObject)
    requires q.Valid() && ObjectSound(q, o)
    ensures |DeliveredObject(q, obj, o).blocks| == |o.blocks|
  {
  }

  // ----- order does not matter -----

  lemma {:induction false} YieldPermuted(filters: seq<PushedFilter>, objs: seq<TableObject>, a: seq<WorkUnit>, b: seq<WorkUnit>)
    requires AllWellFormed(filters) && InTable(objs, a) && multiset(a) == multiset(b)
    ensures InTable(objs, b)
    ensures multiset(Yield(filters, UnitsFor(objs, a))) == multiset(Yield(filters, UnitsFor(objs, b)))
    decreases |a|
  {
    hide Yield;
    hide UnitsFor;
    hide InTable;
    PermutedInTable(objs, a, b);
    if a == [] {
      assert |multiset(b)| == 0;
    } else {
      var i := FindHead(a, b);
      var pre, post := b[..i], b[i + 1..];
      PermutedInTable(objs, b, [a[0]] + (pre + post));
      YieldSplit(filters, objs, [], a[0], a[1..]);
      YieldPermuted(filters, objs, a[1..], pre + post);
      YieldSplit(filters, objs, pre, a[0], post);
    }
  }

  lemma PermutedInTable(objs: seq<TableObject>, a: seq<WorkUnit>, b: seq<WorkUnit>)
    requires InTable(objs, a) && multiset(a) == multiset(b)
    ensures InTable(objs, b)
  {
    forall i | 0 <= i < |b| ensures b[i].obj < |objs| && b[i].blk < |objs[b[i].obj].blocks| {
      assert b[i] in multiset(b);
      assert b[i] in multiset(a);
    }
  }

  lemma YieldSplit(filters: seq<PushedFilter>, objs: seq<TableObject>, pre: seq<WorkUnit>, w: WorkUnit, post: seq<WorkUnit>)
    requires AllWellFormed(filters) && InTable(objs, pre + [w] + post)
    ensures InTable(objs, pre + post) && InTable(objs, [w])
    ensures multiset(Yield(filters, UnitsFor(objs, pre + [w] + post))) ==
            multiset(Yield(filters, UnitsFor(objs, [w]))) + multiset(Yield(filters, UnitsFor(objs, pre + post)))
  {
    hide Yield;
    SplitInTable(objs, pre, w, post);
    var p, u, s := UnitsFor(objs, pre), UnitsFor(objs, [w]), UnitsFor(objs, post);
    hide UnitsFor;
    YieldOfBoth(filters, p + u, s);
    YieldOfBoth(filters, p, u);
    YieldOfBoth(filters, p, s);
    MultisetOfBoth(Yield(filters, p) + Yield(filters, u), Yield(filters, s));
    MultisetOfBoth(Yield(filters, p), Yield(filters, u));
    MultisetOfBoth(Yield(filters, p), Yield(filters, s));
  }

  lemma SplitInTable(objs: seq<TableObject>, pre: seq<WorkUnit>, w: WorkUnit, post: seq<WorkUnit>)
    requires InTable(objs, pre + [w] + post)
    ensures InTable(objs, pre) && InTable(objs, [w]) && InTable(objs, post) && InTable(objs, pre + post)
    ensures UnitsFor(objs, pre + [w] + post) == UnitsFor(objs, pre) + UnitsFor(objs, [w]) + UnitsFor(objs, post)
    ensures UnitsFor(objs, pre + post) == UnitsFor(objs, pre) + UnitsFor(objs, post)
  {
    var all := pre + [w] + post;
    assert forall i :: 0 <= i < |pre| ==> all[i] == pre[i];
    assert forall i :: 0 <= i < |post| ==> all[|pre| + 1 + i] == post[i];
    assert all[|pre|] == w;
  }

  // ----- main results -----

  /** The plans of the queue, in the order scan ordering has put it. */
  ghost function QueryPlans(q: Query, objs: seq<StoredObject>, order: seq<WorkUnit>): seq<UnitPlan>
    requires q.Valid() && TableSound(q, objs) && InTable(DeliveredTable(q, objs), order)
  {
    PlansOf(q.Filters(), UnitsFor(DeliveredTable(q, objs), order))
  }

  /** `order` arranges the queue that Init builds for the query. */
  ghost predicate IsQueueOrder(q: Query, objs: seq<StoredObject>, order: seq<WorkUnit>)
    requires q.Valid() && TableSound(q, objs)
  {
    multiset(order) == multiset(Queue(q.Filters(), DeliveredTable(q, objs), q.sortSeqnum, |objs|))
  }

  lemma QueueInTable(q: Query, objs: seq<StoredObject>, order: seq<WorkUnit>)
    requires q.Valid() && TableSound(q, objs) && IsQueueOrder(q, objs, order)
    ensures InTable(DeliveredTable(q, objs), order)
    ensures multiset(Unclaimed(QueryPlans(q, objs, order), 0)) == multiset(Answer(q, objs, |objs|))
  {
    hide ObjectSound;
    var t, fs := DeliveredTable(q, objs), q.Filters();
    forall k | 0 <= k < |objs| ensures ObjectDescribed(fs, t[k], q.sortSeqnum) { ObjectIsDescribed(q, k, objs[k]); }
    QueueYieldsTable(fs, t, q.sortSeqnum, |objs|);
    YieldPermuted(fs, t, Queue(fs, t, q.sortSeqnum, |objs|), order);
    TableRowsAreAnswer(q, objs, |objs|);
  }

  /** `Execute` can run on the queue: every row of every queued block can be tested. */
  lemma QueueIsReadable(q: Query, objs: seq<StoredObject>, order: seq<WorkUnit>, i: nat)
    requires q.Valid() && TableSound(q, objs) && InTable(DeliveredTable(q, objs), order) && i < |order|
    ensures UnitReadable(q.Filters(), UnitsFor(DeliveredTable(q, objs), order)[i])
  {
    var b := objs[order[i].obj].blocks[order[i].blk];
    assert ObjectSound(q, objs[order[i].obj]);
    DeliveredTotal(q, order[i].obj, order[i].blk, b);
    forall row | 0 <= row < b.rows ensures RowReadable(q.Filters(), DecodedColumns(q, b), row) {
      RowMeaning(q, b, row);
    }
  }

  /** For any query that reads files, any objects and filters, any order of the queue, any
      number of threads and any interleaving: once every thread has been told "0 rows", the rows emitted are those
      on which every filter is TRUE, each exactly once. */
  lemma ScanAnswersQuery(q: Query, objs: seq<StoredObject>, order: seq<WorkUnit>, threads: nat, schedule: seq<nat>)
    requires q.Valid() && q.ReadsFiles() && TableSound(q, objs) && IsQueueOrder(q, objs, order)
    requires threads > 0 && IsSchedule(schedule, threads)
    ensures InTable(DeliveredTable(q, objs), order)
    ensures var s := Run(QueryPlans(q, objs, order), threads, schedule, |schedule|);
      AllTold(s) ==> forall r :: multiset(s.emitted)[r] == Once(InAnswer(q, objs, r))
  {
    QueueInTable(q, objs, order);
    hide QueryPlans;
    hide Answer;
    hide InAnswer;
    hide Run;
    hide Unclaimed;
    var plans := QueryPlans(q, objs, order);
    if AllTold(Run(plans, threads, schedule, |schedule|)) {
      AllToldAllEmitted(plans, threads, schedule);
      forall r ensures multiset(Answer(q, objs, |objs|))[r] == Once(InAnswer(q, objs, r)) {
        AnswerCounts(q, objs, |objs|, r);
      }
    }
  }

  /** Blocks of the manifest = blocks queued + blocks pruned at Init, so progress never
      falls, never exceeds 100, and is 100 at the end. */
  lemma TableProgress(q: Query, objs: seq<StoredObject>, order: seq<WorkUnit>, skippedAtInit: nat,
                      threads: nat, schedule: seq<nat>, n: nat)
    requires q.Valid() && q.ReadsFiles() && TableSound(q, objs) && IsQueueOrder(q, objs, order)
    requires |order| + skippedAtInit == BlocksSeen(q.Filters(), DeliveredTable(q, objs), q.sortSeqnum, |objs|)
    requires n < |schedule| && IsSchedule(schedule, threads)
    ensures InTable(DeliveredTable(q, objs), order)
    ensures var plans := QueryPlans(q, objs, order);
      && |plans| + skippedAtInit == ManifestBlocks(DeliveredTable(q, objs), |objs|)
      && ProgressAfter(plans, threads, schedule, n, skippedAtInit) <=
         ProgressAfter(plans, threads, schedule, n + 1, skippedAtInit) <= 100.0
      && (n + 1 == |schedule| && AllTold(Run(plans, threads, schedule, n + 1)) ==>
            ProgressAfter(plans, threads, schedule, n + 1, skippedAtInit) == 100.0)
  {
    hide ProgressAfter;
    hide Advance;
    hide Queue;
    hide BlocksSeen;
    hide DeliveredTable;
    hide ObjectSound;
    QueueInTable(q, objs, order);
    SameBlockCounts(q, objs);
    SeenIsManifest(q.Filters(), DeliveredTable(q, objs), q.sortSeqnum, |objs|);
    ProgressOverRun(QueryPlans(q, objs, order), threads, schedule, n, skippedAtInit);
  }

  lemma SameBlockCounts(q: Query, objs: seq<StoredObject>)
    requires q.Valid() && TableSound(q, objs)
    ensures forall k :: 0 <= k < |objs| ==>
              DeliveredTable(q, objs)[k].manifestBlocks == |DeliveredTable(q, objs)[k].blocks|
  {
    forall k | 0 <= k < |objs|
      ensures DeliveredTable(q, objs)[k].manifestBlocks == |DeliveredTable(q, objs)[k].blocks|
    {
      assert ObjectSound(q, objs[k]);
    }
  }

  /** Enough turns for every thread, in any interleaving, and the answer is out. */
  lemma FairScanAnswers(q: Query, objs: seq<StoredObject>, order: seq<WorkUnit>, threads: nat, schedule: seq<nat>)
    requires q.Valid() && q.ReadsFiles() && TableSound(q, objs) && IsQueueOrder(q, objs, order)
    requires InTable(DeliveredTable(q, objs), order) && threads > 0 && IsSchedule(schedule, threads)
    requires forall t :: 0 <= t < threads ==>
               TurnsOf(schedule, t, |schedule|) > Budget(QueryPlans(q, objs, order), 0) + 1
    ensures forall r :: multiset(Run(QueryPlans(q, objs, order), threads, schedule, |schedule|).emitted)[r] == Once(InAnswer(q, objs, r))
  {
    hide *;
    FairRunEnds(QueryPlans(q, objs, order), threads, schedule);
    ScanAnswersQuery(q, objs, order, threads, schedule);
  }

  // ----- what a chunk shows -----

  /** The matching rows of a range of the block, in order. */
  function Matches(q: Query, b: StoredBlock, from: nat, until: nat): seq<nat>
    requires q.Valid() && from <= until
  {
    Selected((row: nat) => RowMatches(q, b, row), from, until)
  }

  /** At the selected positions the vector shows what a query sees in the column at the rows. */
  predicate ShowsCells(v: VecState, sel: seq<nat>, col: DecodedColumn, rows: seq<nat>)
    requires Sized(v)
  {
    |sel| == |rows| && forall j :: 0 <= j < |sel| ==>
      sel[j] < |v.data| && SeenOk(col, rows[j]) && Shown(v, sel[j]) == SeenAt(col, rows[j])
  }

  /** The decoded column that the output slot of a column id is filled from. */
  predicate FillsSlot(q: Query, b: StoredBlock, ci: nat, filled: DecodedColumn)
    requires q.Valid() && BlockReadable(q, b) && ci < |q.columnIds|
  {
    var s := OutputFor(q.columnIds, ci);
    s.TaeColumn? && s.decodedPos < |DecodedColumns(q, b)| && filled == DecodedColumns(q, b)[s.decodedPos]
  }

  /** It is the logical column's own. */
  lemma SlotColumn(q: Query, b: StoredBlock, ci: nat, filled: DecodedColumn)
    requires q.Valid() && BlockReadable(q, b) && ci < |q.columnIds| && FillsSlot(q, b, ci, filled)
    ensures !IsVirtual(q.columnIds[ci])
    ensures q.schema.seqnums[q.columnIds[ci]] < |b.columns| && filled == b.columns[q.schema.seqnums[q.columnIds[ci]]]
  {
    DecodedPosition(q.schema, q.columnIds, ci, |q.columnIds|);
    assert q.ReadOrder()[RealBefore(q.columnIds, ci)] < |b.columns|;
  }

  /** A chunk, filled into a fresh vector from the slot's decoded column and compacted by
      the row filters, shows the slot's own column at the chunk's matching rows, in order. */
  lemma ChunkShowsMatches(q: Query, b: StoredBlock, ci: nat, filled: DecodedColumn,
                          v: VecState, count: nat, offset: nat, sel: seq<nat>)
    requires q.Valid() && BlockReadable(q, b) && ci < |q.columnIds| && FillsSlot(q, b, ci, filled)
    requires IsFresh(v) && 0 < count <= |v.data| && offset + count <= b.rows
    requires IsSelection(sel, offset, Selected(Passer(q.Filters(), DecodedColumns(q, b)), offset, offset + count))
    requires Showable(filled, offset, offset + count)
    ensures q.schema.seqnums[q.columnIds[ci]] < |b.columns| && Fillable(filled, count, offset)
    ensures ShowsCells(AfterFill(v, filled, count, offset), sel,
                       b.columns[q.schema.seqnums[q.columnIds[ci]]], Matches(q, b, offset, offset + count))
  {
    SlotColumn(q, b, ci, filled);
    hide FillsSlot;
    hide AfterFill;
    hide Fillable;
    hide ShowsCells;
    ChunkMatches(q, b, offset, count);
    SelectedInChunk(filled, v, count, offset, sel, Matches(q, b, offset, offset + count));
  }

  lemma ChunkMatches(q: Query, b: StoredBlock, offset: nat, count: nat)
    requires q.Valid() && BlockReadable(q, b) && offset + count <= b.rows
    ensures Selected(Passer(q.Filters(), DecodedColumns(q, b)), offset, offset + count) ==
            Matches(q, b, offset, offset + count)
  {
    hide RowPasses;
    hide RowMatches;
    hide BlockReadable;
    hide DecodedColumns;
    forall row | offset <= row < offset + count
      ensures RowPasses(q.Filters(), DecodedColumns(q, b), row) == RowMatches(q, b, row)
    {
      RowMeaning(q, b, row);
    }
    SelectedSame(Passer(q.Filters(), DecodedColumns(q, b)), (row: nat) => RowMatches(q, b, row), offset, offset + count);
  }

  lemma SelectedInChunk(col: DecodedColumn, v: VecState, count: nat, offset: nat, sel: seq<nat>, matches: seq<nat>)
    requires IsFresh(v) && 0 < count <= |v.data| && Showable(col, offset, offset + count)
    requires IsSelection(sel, offset, matches) && forall r :: r in matches ==> offset <= r < offset + count
    ensures Fillable(col, count, offset) && ShowsCells(AfterFill(v, col, count, offset), sel, col, matches)
  {
    ShowableIsFillable(col, count, offset);
    forall j | 0 <= j < |sel|
      ensures sel[j] < |v.data| && SeenOk(col, matches[j]) &&
              Shown(AfterFill(v, col, count, offset), sel[j]) == SeenAt(col, matches[j])
    {
      assert matches[j] in matches;
      FreshFillShowsChunk(v, col, count, offset, sel[j]);
    }
  }

  // ----- what a call shows -----

  /** What a query sees in a column, by sequence number, at a row of the table. */
  function CellOf(objs: seq<StoredObject>, seqnum: nat, r: RowId): Value
  {
    if r.obj < |objs| && r.blk < |objs[r.obj].blocks| && seqnum < |objs[r.obj].blocks[r.blk].columns| &&
       SeenOk(objs[r.obj].blocks[r.blk].columns[seqnum], r.row)
    then SeenAt(objs[r.obj].blocks[r.blk].columns[seqnum], r.row)
    else NullV
  }

  predicate InObjects(objs: seq<StoredObject>, w: WorkUnit)
  {
    w.obj < |objs| && w.blk < |objs[w.obj].blocks|
  }

  function BlockOf(objs: seq<StoredObject>, w: WorkUnit): StoredBlock
    requires InObjects(objs, w)
  {
    objs[w.obj].blocks[w.blk]
  }

  /** The fill of the output vector of the column with this sequence number. */
  function PassOf(objs: seq<StoredObject>, order: seq<WorkUnit>, seqnum: nat, f: Fill): Pass
    requires f.unit < |order| && InObjects(objs, order[f.unit])
    requires f.from <= f.until && seqnum < |BlockOf(objs, order[f.unit]).columns|
  {
    Pass(BlockOf(objs, order[f.unit]).columns[seqnum], f.until - f.from, f.from)
  }

  /** The chunks are of queued blocks that have the column, which can be shown there. */
  predicate FillsShowable(objs: seq<StoredObject>, order: seq<WorkUnit>, seqnum: nat, fills: seq<Fill>)
  {
    forall k :: 0 <= k < |fills| ==> FillShowable(objs, order, seqnum, fills[k])
  }

  predicate FillShowable(objs: seq<StoredObject>, order: seq<WorkUnit>, seqnum: nat, f: Fill)
  {
    && f.unit < |order| && InObjects(objs, order[f.unit])
    && f.from <= f.until && f.until - f.from <= 2048
    && var b := BlockOf(objs, order[f.unit]);
       && seqnum < |b.columns|
       && if f.from < f.until then Showable(b.columns[seqnum], f.from, f.until) else Fillable(b.columns[seqnum], 0, f.from)
  }

  lemma ShowableFits(objs: seq<StoredObject>, order: seq<WorkUnit>, seqnum: nat, f: Fill)
    requires FillShowable(objs, order, seqnum, f)
    ensures PassOf(objs, order, seqnum, f).Fits(2048)
  {
    hide Fillable;
    hide Showable;
    var p := PassOf(objs, order, seqnum, f);
    if p.count > 0 { ShowableIsFillable(p.col, p.count, p.offset); }
  }

  function PassesOf(objs: seq<StoredObject>, order: seq<WorkUnit>, seqnum: nat, fills: seq<Fill>): (passes: seq<Pass>)
    requires FillsShowable(objs, order, seqnum, fills)
    ensures |passes| == |fills|
    ensures forall k :: 0 <= k < |passes| ==> FillShowable(objs, order, seqnum, fills[k]) && passes[k] == PassOf(objs, order, seqnum, fills[k])
  {
    seq(|fills|, k requires 0 <= k < |fills| =>
      assert FillShowable(objs, order, seqnum, fills[k]);
      PassOf(objs, order, seqnum, fills[k]))
  }

  lemma PassesFit(objs: seq<StoredObject>, order: seq<WorkUnit>, seqnum: nat, fills: seq<Fill>, capacity: nat)
    requires FillsShowable(objs, order, seqnum, fills) && capacity >= 2048
    ensures AllFit(PassesOf(objs, order, seqnum, fills), capacity)
  {
    hide Fillable;
    hide FillShowable;
    forall k | 0 <= k < |fills| ensures PassesOf(objs, order, seqnum, fills)[k].Fits(capacity) {
      assert FillShowable(objs, order, seqnum, fills[k]);
      ShowableFits(objs, order, seqnum, fills[k]);
    }
  }

  /** At the selected positions the vector shows, in order, what a query sees at the rows. */
  predicate ShowsRows(v: VecState, sel: seq<nat>, objs: seq<StoredObject>, seqnum: nat, rows: seq<RowId>)
    requires Sized(v)
  {
    |sel| == |rows| && forall j :: 0 <= j < |sel| ==> sel[j] < |v.data| && Shown(v, sel[j]) == CellOf(objs, seqnum, rows[j])
  }

  /** The pass fills the slot with its own chunk. */
  predicate PassFillsSlot(q: Query, objs: seq<StoredObject>, order: seq<WorkUnit>, ci: nat, f: Fill, p: Pass)
    requires q.Valid() && ci < |q.columnIds|
  {
    && f.unit < |order| && InObjects(objs, order[f.unit])
    && p.offset == f.from && p.offset + p.count == f.until
    && BlockReadable(q, BlockOf(objs, order[f.unit])) && FillsSlot(q, BlockOf(objs, order[f.unit]), ci, p.col)
  }

  /** The last chunk's cells are those of its rows. */
  lemma LastCells(objs: seq<StoredObject>, order: seq<WorkUnit>, seqnum: nat, u: UnitPlan, f: Fill, sel: seq<nat>)
    requires FillShowable(objs, order, seqnum, f) && u.obj == order[f.unit].obj && u.blk == order[f.unit].blk
    requires IsSelection(sel, f.from, Selected(u.passes, f.from, f.until))
    requires Copies(BlockOf(objs, order[f.unit]).columns[seqnum].mtype.oid)
    ensures var p := PassOf(objs, order, seqnum, f); var rows := RowsOf(u, f.from, f.until);
      && Fillable(p.col, p.count, p.offset) && |sel| == |rows|
      && forall j :: 0 <= j < |sel| ==> sel[j] < p.count && p.Cell(sel[j]) == CellOf(objs, seqnum, rows[j])
  {
    var p, rows := PassOf(objs, order, seqnum, f), RowsOf(u, f.from, f.until);
    ShowableFits(objs, order, seqnum, f);
    hide Fillable;
    forall j | 0 <= j < |sel| ensures sel[j] < p.count && p.Cell(sel[j]) == CellOf(objs, seqnum, rows[j]) {
      var row := Selected(u.passes, f.from, f.until)[j];
      assert row in Selected(u.passes, f.from, f.until);
      LastCell(objs, order, seqnum, u, f, row);
    }
  }

  lemma LastCell(objs: seq<StoredObject>, order: seq<WorkUnit>, seqnum: nat, u: UnitPlan, f: Fill, row: nat)
    requires FillShowable(objs, order, seqnum, f) && u.obj == order[f.unit].obj && u.blk == order[f.unit].blk
    requires f.from <= row < f.until && Copies(BlockOf(objs, order[f.unit]).columns[seqnum].mtype.oid)
    ensures var p := PassOf(objs, order, seqnum, f);
      Fillable(p.col, p.count, p.offset) && p.Cell(row - f.from) == CellOf(objs, seqnum, RowId(u.obj, u.blk, row))
  {
    var p := PassOf(objs, order, seqnum, f);
    hide SeenAt;
    CellIsSeen(p, row - f.from);
    assert SeenOk(p.col, row);
  }

  lemma LastPass(objs: seq<StoredObject>, order: seq<WorkUnit>, seqnum: nat, u: UnitPlan, f: Fill, sel: seq<nat>, p: Pass, capacity: nat)
    requires FillShowable(objs, order, seqnum, f) && u.obj == order[f.unit].obj && u.blk == order[f.unit].blk
    requires IsSelection(sel, f.from, Selected(u.passes, f.from, f.until)) && capacity >= 2048
    requires Copies(BlockOf(objs, order[f.unit]).columns[seqnum].mtype.oid) && p == PassOf(objs, order, seqnum, f)
    ensures var rows := RowsOf(u, f.from, f.until);
      && p.Fits(capacity) && Copies(p.col.mtype.oid) && |sel| == |rows|
      && forall j :: 0 <= j < |sel| ==> sel[j] < p.count && p.Cell(sel[j]) == CellOf(objs, seqnum, rows[j])
  {
    LastCells(objs, order, seqnum, u, f, sel);
    hide Fillable;
    hide CellOf;
    hide RowsOf;
  }

  lemma PassIsOfSlot(q: Query, objs: seq<StoredObject>, order: seq<WorkUnit>, ci: nat, f: Fill, p: Pass)
    requires q.Valid() && TableSound(q, objs) && InTable(DeliveredTable(q, objs), order)
    requires ci < |q.columnIds| && !IsVirtual(q.columnIds[ci])
    requires FillShowable(objs, order, q.schema.seqnums[q.columnIds[ci]], f) && p == PassOf(objs, order, q.schema.seqnums[q.columnIds[ci]], f)
    ensures PassFillsSlot(q, objs, order, ci, f, p)
  {
    PlanIsOfUnit(q, objs, order, f.unit);
    SlotHoldsColumn(q, BlockOf(objs, order[f.unit]), ci);
    hide FillsSlot;
    hide BlockReadable;
  }

  /** The retries decide what the last chunk's positions show. */
  lemma RetryShowsRows(v: VecState, passes: seq<Pass>, sel: seq<nat>, objs: seq<StoredObject>, seqnum: nat, rows: seq<RowId>)
    requires IsFresh(v) && AllFit(passes, |v.data|) && passes != [] && |sel| == |rows|
    requires var last := passes[|passes| - 1];
      && last.Fits(|v.data|) && Copies(last.col.mtype.oid)
      && forall j :: 0 <= j < |sel| ==> sel[j] < last.count && last.Cell(sel[j]) == CellOf(objs, seqnum, rows[j])
    ensures ShowsRows(AfterPasses(v, passes, |passes|), sel, objs, seqnum, rows) <==> RetryHarmless(passes, sel)
  {
    hide RetryHarmless;
    hide AfterPasses;
    hide AllFit;
    hide Fillable;
    RetryExact(v, passes, sel);
  }

  /** The unit's plan is named after it. */
  lemma PlanIsOfUnit(q: Query, objs: seq<StoredObject>, order: seq<WorkUnit>, i: nat)
    requires q.Valid() && TableSound(q, objs) && InTable(DeliveredTable(q, objs), order) && i < |order|
    ensures var u := QueryPlans(q, objs, order)[i];
      u.obj == order[i].obj && u.blk == order[i].blk && InObjects(objs, order[i])
    ensures BlockReadable(q, BlockOf(objs, order[i]))
  {
    assert ObjectSound(q, objs[order[i].obj]);
  }

  /** What a stored slot is filled from is the logical column's own decoded column. */
  lemma SlotHoldsColumn(q: Query, b: StoredBlock, ci: nat)
    requires q.Valid() && BlockReadable(q, b) && ci < |q.columnIds| && !IsVirtual(q.columnIds[ci])
    ensures q.columnIds[ci] < |q.schema.seqnums| && q.schema.seqnums[q.columnIds[ci]] < |b.columns|
    ensures FillsSlot(q, b, ci, b.columns[q.schema.seqnums[q.columnIds[ci]]])
  {
    DecodedPosition(q.schema, q.columnIds, ci, |q.columnIds|);
    assert q.ReadOrder()[RealBefore(q.columnIds, ci)] < |b.columns|;
  }

  /** The physical column of a stored slot. */
  function SeqnumOf(q: Query, ci: nat): nat
    requires q.Valid() && ci < |q.columnIds| && !IsVirtual(q.columnIds[ci])
  {
    q.schema.seqnums[q.columnIds[ci]]
  }

  /** One call of the emit loop fills the same output vector with chunk after chunk, each
      from the slot's decoded column, until one has matching rows. The vector then shows
      exactly the cells of the rows returned, if and only if the retries were harmless at
      their positions. */
  lemma CallShowsRows(q: Query, objs: seq<StoredObject>, order: seq<WorkUnit>, plans: seq<UnitPlan>, next: nat, l: Local,
                      fills: seq<Fill>, ci: nat, passes: seq<Pass>, v: VecState, sel: seq<nat>)
    requires q.Valid() && TableSound(q, objs) && InTable(DeliveredTable(q, objs), order) && plans == QueryPlans(q, objs, order)
    requires LocalOk(plans, l) && fills == Fills(plans, next, l) && fills != []
    requires ci < |q.columnIds| && !IsVirtual(q.columnIds[ci]) && FillsShowable(objs, order, SeqnumOf(q, ci), fills)
    requires passes == PassesOf(objs, order, SeqnumOf(q, ci), fills) && Copies(passes[|passes| - 1].col.mtype.oid)
    requires IsFresh(v) && |v.data| >= 2048 && Compacts(plans, LastFill(fills), sel)
    ensures AllFit(passes, |v.data|) && forall k :: 0 <= k < |passes| ==> PassFillsSlot(q, objs, order, ci, fills[k], passes[k])
    ensures var last := passes[|passes| - 1];
      Fillable(last.col, last.count, last.offset) && forall j :: 0 <= j < |sel| ==> sel[j] < last.count
    ensures ShowsRows(AfterPasses(v, passes, |passes|), sel, objs, SeqnumOf(q, ci), Call(plans, next, l).rows) <==>
            RetryHarmless(passes, sel)
  {
    var last, seqnum := LastFill(fills), SeqnumOf(q, ci);
    assert FillShowable(objs, order, seqnum, last);
    assert seqnum == q.schema.seqnums[q.columnIds[ci]];
    FillsOfCall(plans, next, l);
    FillsAreShown(q, objs, order, ci, fills, passes, |v.data|);
    LastRows(plans, last, sel);
    hide *;
    PlanIsOfUnit(q, objs, order, last.unit);
    LastPass(objs, order, seqnum, plans[last.unit], last, sel, passes[|passes| - 1], |v.data|);
    PassFitsMeans(passes[|passes| - 1], |v.data|);
    RetryShowsRows(v, passes, sel, objs, seqnum, FillRows(plans, last));
  }

  lemma LastRows(plans: seq<UnitPlan>, f: Fill, sel: seq<nat>)
    requires Compacts(plans, f, sel)
    ensures FillOk(plans, f) && f.unit < |plans| && f.from <= f.until
    ensures FillRows(plans, f) == RowsOf(plans[f.unit], f.from, f.until)
    ensures IsSelection(sel, f.from, Selected(plans[f.unit].passes, f.from, f.until))
  {
  }

  lemma PassFitsMeans(p: Pass, capacity: nat)
    requires p.Fits(capacity)
    ensures Fillable(p.col, p.count, p.offset)
  {
  }

  lemma FillsAreShown(q: Query, objs: seq<StoredObject>, order: seq<WorkUnit>, ci: nat, fills: seq<Fill>, passes: seq<Pass>, capacity: nat)
    requires q.Valid() && TableSound(q, objs) && InTable(DeliveredTable(q, objs), order) && capacity >= 2048
    requires ci < |q.columnIds| && !IsVirtual(q.columnIds[ci]) && FillsShowable(objs, order, SeqnumOf(q, ci), fills)
    requires passes == PassesOf(objs, order, SeqnumOf(q, ci), fills)
    ensures AllFit(passes, capacity) && forall k :: 0 <= k < |passes| ==> PassFillsSlot(q, objs, order, ci, fills[k], passes[k])
  {
    var seqnum := SeqnumOf(q, ci);
    assert seqnum == q.schema.seqnums[q.columnIds[ci]];
    hide *;
    PassesFit(objs, order, seqnum, fills, capacity);
    forall k | 0 <= k < |passes| ensures PassFillsSlot(q, objs, order, ci, fills[k], passes[k]) {
      PassIsOfSlot(q, objs, order, ci, fills[k], passes[k]);
    }
  }
}
