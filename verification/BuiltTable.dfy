/** Tables whose files the builder wrote: from the values written, through the stored
    files, the reader, pruning and any number of threads, to the rows of the answer. */
module BuiltTable {
  import opened Bytes
  import opened Types
  import opened ZoneMaps
  import opened Vectors
  import opened Metadata
  import opened MetadataWriter
  import opened CrcBlocks
  import opened ObjectReader
  import opened VectorWriter
  import opened ObjectWriter
  import opened FileRoundTrip
  import opened ConstantVector
  import opened Filters
  import opened ScanMachine
  import opened Scanner
  import opened WorkQueue
  import opened ColumnMap
  import opened ColumnFill
  import opened ScanAnswer
  import opened ZoneMapWriter

  // ----- what is written -----

  datatype WrittenColumn = WrittenColumn(spec: ColumnSpec, oid: Byte, given: Given)

  datatype WrittenBlock = WrittenBlock(rows: nat, columns: seq<WrittenColumn>)

  datatype WrittenObject = WrittenObject(manifestBlocks: nat, sortKeyZm: Option<ZoneMap>, blocks: seq<WrittenBlock>, storage: Storage)

  function SpecsOf(o: WrittenObject): (specs: seq<BlockSpec>)
    ensures |specs| == |o.blocks|
  {
    seq(|o.blocks|, b requires 0 <= b < |o.blocks| => BlockSpec(o.blocks[b].rows, ColumnSpecs(o.blocks[b])))
  }

  function ColumnSpecs(b: WrittenBlock): (specs: seq<ColumnSpec>)
    ensures |specs| == |b.columns|
  {
    seq(|b.columns|, c requires 0 <= c < |b.columns| => b.columns[c].spec)
  }

  ghost predicate BlockWritten(b: WrittenBlock)
  {
    forall c :: 0 <= c < |b.columns| ==> WrittenFrom(b.columns[c].spec, b.columns[c].oid, b.columns[c].given)
  }

  /** The builder's output for the object, in either stored form. */
  ghost predicate ObjectBuilt(layout: Layout, o: WrittenObject, file: seq<Byte>)
  {
    && layout.Fits(SpecsOf(o)) && o.storage.Fits(layout.FileOf(SpecsOf(o)))
    && file == o.storage.Bytes(layout.FileOf(SpecsOf(o)))
  }

  ghost predicate TableBuilt(layout: Layout, objs: seq<WrittenObject>, fs: FileSet)
  {
    && layout.Inverts() && fs.codec == layout.codec && |fs.files| == |objs|
    && forall k :: 0 <= k < |objs| ==> AllWritten(objs[k]) && ObjectBuilt(layout, objs[k], fs.files[k])
  }

  // ----- the answer, on the values written -----

  /** The entry's tree is TRUE of the value written in its own logical column. */
  predicate EntryHolds(q: Query, e: FilterEntry, b: WrittenBlock, row: nat)
    requires q.Valid()
  {
    Applies(q.schema, q.columnIds, e) ==>
      var s := q.schema.seqnums[q.columnIds[e.pos]];
      && s < |b.columns| && b.columns[s].given.Valid() && row < b.columns[s].given.Rows()
      && Eval(e.expr, b.columns[s].given.At(b.columns[s].oid, row)) == True
  }

  predicate WrittenMatches(q: Query, objs: seq<WrittenObject>, r: RowId)
    requires q.Valid()
  {
    && r.obj < |objs| && r.blk < |objs[r.obj].blocks| && r.row < objs[r.obj].blocks[r.blk].rows
    && forall i :: 0 <= i < |q.entries| ==> EntryHolds(q, q.entries[i], objs[r.obj].blocks[r.blk], r.row)
  }

  // ----- what the scan relies on -----

  /** The entry tests a column of the manifest's type, FLAT, or one that nulls decide. */
  predicate EntryFits(q: Query, e: FilterEntry, b: WrittenBlock)
    requires q.Valid()
  {
    Applies(q.schema, q.columnIds, e) ==>
      var id := q.columnIds[e.pos]; var s := q.schema.seqnums[id];
      s < |b.columns| && b.columns[s].oid == q.schema.oids[id] && Decides(b.columns[s].given, e.expr)
  }

  /** Filters cannot be tested past the first row of a CONSTANT column, unless they test
      nulls only or the constant is NULL (see `ConstantFilterExact`). */
  predicate Decides(g: Given, e: Expr)
  {
    g.Flat? || TestsOnlyNull(e) || g.v.NullV? || g.rows <= 1
  }

  /** The block has the columns the query reads, all with the block's number of rows. */
  predicate BlockFitsQuery(q: Query, b: WrittenBlock)
    requires q.Valid()
  {
    && (forall p :: 0 <= p < |q.ReadOrder()| ==>
          q.ReadOrder()[p] < |b.columns| && b.columns[q.ReadOrder()[p]].given.Rows() == b.rows)
    && (b.rows > 0 ==> forall i :: 0 <= i < |q.entries| ==> EntryFits(q, q.entries[i], b))
  }

  /** The zone map, unless it is uninitialised, admits the value. */
  ghost predicate CoversValue(z: ZoneMap, oid: Byte, v: Value)
  {
    IsInited(z) ==>
      match v
      case NullV => true
      case StrV(s) => Admits(z, s)
      case IntV(i) => IsIntegerType(oid) ==> InRange(z, NumTypeOf(oid), i + Epoch(oid))
      case RawV(_) => true
  }

  /** It covers every value written in the column that the filter tests. */
  ghost predicate CoversColumn(z: ZoneMap, f: PushedFilter, b: WrittenBlock)
  {
    f.seqnum < |b.columns| &&
    (TestsNulls(f.op) ||
     (!TruncationHazard(f, z) &&
      var c := b.columns[f.seqnum];
      c.given.Valid() ==> forall row :: 0 <= row < c.given.Rows() ==> CoversValue(z, c.oid, c.given.At(c.oid, row))))
  }

  ghost predicate ObjectFitsQuery(q: Query, o: WrittenObject)
    requires q.Valid()
  {
    && o.manifestBlocks == |o.blocks|
    && (forall b :: 0 <= b < |o.blocks| ==> BlockFitsQuery(q, o.blocks[b]))
    && (forall f, b :: f in q.Filters() && 0 <= b < |o.blocks| && f.seqnum < |o.blocks[b].columns| ==>
          CoversColumn(o.blocks[b].columns[f.seqnum].spec.zoneMap, f, o.blocks[b]))
    && (o.sortKeyZm.Some? ==>
          forall f, b :: f in q.Filters() && f.seqnum == q.sortSeqnum && 0 <= b < |o.blocks| ==>
            CoversColumn(o.sortKeyZm.value, f, o.blocks[b]))
  }

  ghost predicate TableFitsQuery(q: Query, objs: seq<WrittenObject>)
    requires q.Valid()
  {
    forall k :: 0 <= k < |objs| ==> ObjectFitsQuery(q, objs[k])
  }

  // ----- what the files store -----

  ghost function StoredColumns(b: WrittenBlock): (cols: seq<DecodedColumn>)
    requires BlockWritten(b)
    ensures |cols| == |b.columns|
    ensures forall c :: 0 <= c < |cols| ==>
              DecodedFrom(b.columns[c].spec.vector) == Ok(cols[c]) && Returns(cols[c], b.columns[c].oid, b.columns[c].given)
  {
    AllDecode(b);
    seq(|b.columns|, c requires 0 <= c < |b.columns| => DecodedFrom(b.columns[c].spec.vector).value)
  }

  lemma AllDecode(b: WrittenBlock)
    requires BlockWritten(b)
    ensures forall c :: 0 <= c < |b.columns| ==>
      var d := DecodedFrom(b.columns[c].spec.vector); d.Ok? && Returns(d.value, b.columns[c].oid, b.columns[c].given)
  {
    hide DecodedFrom;
    hide Returns;
    forall c | 0 <= c < |b.columns|
      ensures var d := DecodedFrom(b.columns[c].spec.vector); d.Ok? && Returns(d.value, b.columns[c].oid, b.columns[c].given)
    {
      WrittenDecodes(b.columns[c].spec, b.columns[c].oid, b.columns[c].given);
    }
  }

  function ZonesOf(b: WrittenBlock): (zms: seq<ZoneMap>)
    ensures |zms| == |b.columns|
  {
    seq(|b.columns|, c requires 0 <= c < |b.columns| => b.columns[c].spec.zoneMap)
  }

  ghost function StoredBlockOf(b: WrittenBlock): StoredBlock
    requires BlockWritten(b)
  {
    StoredBlock(b.rows, ZonesOf(b), StoredColumns(b))
  }

  ghost predicate AllWritten(o: WrittenObject)
  {
    forall b :: 0 <= b < |o.blocks| ==> BlockWritten(o.blocks[b])
  }

  ghost function StoredObjectOf(o: WrittenObject): (s: StoredObject)
    requires AllWritten(o)
    ensures |s.blocks| == |o.blocks|
  {
    StoredObject(o.manifestBlocks, o.sortKeyZm,
                 seq(|o.blocks|, b requires 0 <= b < |o.blocks| => StoredBlockOf(o.blocks[b])))
  }

  ghost predicate AllObjectsWritten(objs: seq<WrittenObject>)
  {
    forall k :: 0 <= k < |objs| ==> AllWritten(objs[k])
  }

  ghost function StoredTable(objs: seq<WrittenObject>): (t: seq<StoredObject>)
    requires AllObjectsWritten(objs)
    ensures |t| == |objs|
  {
    seq(|objs|, k requires 0 <= k < |objs| => StoredObjectOf(objs[k]))
  }

  // ----- the stored table meets the demands of the scan -----

  lemma EntryIsRead(q: Query, e: FilterEntry, b: WrittenBlock, row: nat)
    requires q.Valid() && BlockWritten(b) && EntryFits(q, e, b)
    requires Applies(q.schema, q.columnIds, e) ==>
      var s := q.schema.seqnums[q.columnIds[e.pos]]; s < |b.columns| && row < b.columns[s].given.Rows()
    ensures EntryReads(q.schema, q.columnIds, e, StoredColumns(b), row)
    ensures EntryTrue(q.schema, q.columnIds, e, StoredColumns(b), row) <==> EntryHolds(q, e, b, row)
  {
    if Applies(q.schema, q.columnIds, e) {
      var s := q.schema.seqnums[q.columnIds[e.pos]];
      GivenReads(StoredColumns(b)[s], b.columns[s].oid, b.columns[s].given, e.expr, row);
    }
    hide StoredColumns;
    hide Eval;
    hide DecodedFrom;
    hide SeenAt;
    hide TreeReads;
    hide RowOk;
  }

  lemma GivenReads(col: DecodedColumn, oid: Byte, g: Given, e: Expr, row: nat)
    requires Returns(col, oid, g) && row < g.Rows() && Decides(g, e)
    ensures TreeReads(e, col, row)
  {
    hide TreeReads;
    hide RowOk;
    if g.Flat? {
      FlatReads(e, col, row);
    } else {
      ConstantReads(col, oid, g.v, g.rows, e, row);
    }
  }

  lemma EntryIsOfBlock(q: Query, e: FilterEntry, b: WrittenBlock)
    requires q.Valid() && BlockFitsQuery(q, b)
    ensures Applies(q.schema, q.columnIds, e) ==>
      var s := q.schema.seqnums[q.columnIds[e.pos]]; s < |b.columns| && b.columns[s].given.Rows() == b.rows
  {
    if Applies(q.schema, q.columnIds, e) {
      DecodedPosition(q.schema, q.columnIds, e.pos, |q.columnIds|);
      assert q.ReadOrder()[RealBefore(q.columnIds, e.pos)] < |b.columns|;
    }
  }

  lemma BlockIsReadable(q: Query, b: WrittenBlock)
    requires q.Valid() && BlockWritten(b) && BlockFitsQuery(q, b)
    ensures BlockReadable(q, StoredBlockOf(b))
    ensures forall row :: 0 <= row < b.rows ==>
      (RowMatches(q, StoredBlockOf(b), row) <==> forall i :: 0 <= i < |q.entries| ==> EntryHolds(q, q.entries[i], b, row))
  {
    hide EntryReads;
    hide EntryTrue;
    hide EntryHolds;
    hide EntryFits;
    forall row, i | 0 <= row < b.rows && 0 <= i < |q.entries|
      ensures EntryReads(q.schema, q.columnIds, q.entries[i], StoredColumns(b), row)
      ensures EntryTrue(q.schema, q.columnIds, q.entries[i], StoredColumns(b), row) <==> EntryHolds(q, q.entries[i], b, row)
    {
      EntryIsOfBlock(q, q.entries[i], b);
      EntryIsRead(q, q.entries[i], b, row);
    }
  }

  /** A zone map that covers the values written bounds the column read back. */
  lemma CoversIsTrusted(q: Query, z: ZoneMap, f: PushedFilter, b: WrittenBlock)
    requires q.Valid() && BlockWritten(b) && BlockFitsQuery(q, b) && f in q.Filters() && CoversColumn(z, f, b)
    ensures Trusted(f, z, StoredBlockOf(b))
  {
    var i := FilterOrigin(q.schema, q.columnIds, q.entries, |q.entries|, f);
    EntryIsOfBlock(q, q.entries[i], b);
    var c, col := b.columns[f.seqnum], StoredColumns(b)[f.seqnum];
    assert Returns(col, c.oid, c.given);
    if !TestsNulls(f.op) {
      NotOnlyNulls(q, q.entries[i], f);
      forall row | 0 <= row < b.rows ensures DescribesOrNull(z, col, row) {
        assert EntryFits(q, q.entries[i], b);
        assert CoversValue(z, c.oid, c.given.At(c.oid, row));
        CoveredIsDescribed(z, col, c.oid, c.given, row);
      }
    }
  }

  lemma NotOnlyNulls(q: Query, e: FilterEntry, f: PushedFilter)
    requires q.Valid() && Applies(q.schema, q.columnIds, e) && EntryOk(q.schema, q.columnIds, e)
    requires f in EntryFilters(q.schema, q.columnIds, e) && !TestsNulls(f.op)
    ensures !TestsOnlyNull(e.expr)
  {
    if TestsOnlyNull(e.expr) {
      var id := q.columnIds[e.pos];
      OnlyNullTests(e.expr, RealBefore(q.columnIds, e.pos), q.schema.seqnums[id], q.schema.oids[id]);
    }
  }

  lemma CoveredIsDescribed(z: ZoneMap, col: DecodedColumn, oid: Byte, g: Given, row: nat)
    requires Returns(col, oid, g) && row < g.Rows() && CoversValue(z, oid, g.At(oid, row))
    requires g.Flat? || g.v.NullV? || g.rows <= 1
    ensures DescribesOrNull(z, col, row)
  {
    hide Admits;
    hide RowOk;
    hide DatumAt;
    hide ConstantData;
    if g.Flat? {
      assert CellAt(col, row) == g.At(oid, row);
      FilterAgreesWithCell(col, row);
      if !g.nulls[row] { CoveredDatum(z, col, row); }
    } else if g.v.NullV? {
      assert NullBitAt(col.nullBitmap, row);
    } else {
      ConstantDatum(col, oid, g.v, g.rows);
      CoveredDatum(z, col, row);
    }
  }

  lemma CoveredDatum(z: ZoneMap, col: DecodedColumn, row: nat)
    requires RowOk(col, row) && CoversValue(z, col.mtype.oid, DatumAt(col, row))
    ensures Describes(z, col, row)
  {
    hide Admits;
    hide SlotString;
    hide SlotOk;
  }

  lemma ObjectIsSound(q: Query, o: WrittenObject)
    requires q.Valid() && ObjectFitsQuery(q, o) && AllWritten(o)
    ensures ObjectSound(q, StoredObjectOf(o))
  {
    hide Trusted;
    hide CoversColumn;
    hide BlockReadable;
    hide BlockFitsQuery;
    hide BlockWritten;
    var s := StoredObjectOf(o);
    forall b | 0 <= b < |o.blocks| ensures BlockReadable(q, s.blocks[b]) && BlockBounded(q, s.blocks[b]) {
      BlockIsReadable(q, o.blocks[b]);
      forall f | f in q.Filters() && f.seqnum < |s.blocks[b].zms| ensures Trusted(f, s.blocks[b].zms[f.seqnum], s.blocks[b]) {
        CoversIsTrusted(q, o.blocks[b].columns[f.seqnum].spec.zoneMap, f, o.blocks[b]);
      }
    }
    if o.sortKeyZm.Some? {
      forall f, b | f in q.Filters() && f.seqnum == q.sortSeqnum && 0 <= b < |o.blocks|
        ensures Trusted(f, o.sortKeyZm.value, s.blocks[b])
      {
        CoversIsTrusted(q, o.sortKeyZm.value, f, o.blocks[b]);
      }
    }
  }

  lemma TableIsSound(q: Query, objs: seq<WrittenObject>)
    requires q.Valid() && TableFitsQuery(q, objs) && AllObjectsWritten(objs)
    ensures TableSound(q, StoredTable(objs))
  {
    hide ObjectSound;
    hide ObjectFitsQuery;
    hide AllWritten;
    forall k | 0 <= k < |objs| ensures ObjectSound(q, StoredTable(objs)[k]) {
      ObjectIsSound(q, objs[k]);
    }
  }

  // ----- the reader delivers the stored blocks -----

  /** A built file opens, and its metadata and columns are those written. */
  lemma BuiltFileOpens(layout: Layout, o: WrittenObject, fs: FileSet, wu: WorkUnit)
    requires layout.Inverts() && fs.codec == layout.codec && wu.obj < |fs.files| && wu.blk < |o.blocks|
    requires ObjectBuilt(layout, o, fs.files[wu.obj])
    ensures LogicalContent(fs.files[wu.obj]) == layout.FileOf(SpecsOf(o))
    ensures fs.Opens(wu) && fs.Block(wu) == InfoOf(o.blocks[wu.blk].rows, layout.MetaColumns(SpecsOf(o), wu.blk))
  {
    assert SpecsOf(o)[wu.blk].rows == o.blocks[wu.blk].rows;
    hide *;
    BuiltForm(layout, o, fs.files[wu.obj]);
    BuiltMeta(layout, o, fs.files[wu.obj]);
    ExpectedInfo(layout, SpecsOf(o), wu.blk);
    OpensWhen(fs, wu, layout.ExpectedMeta(SpecsOf(o)));
  }

  lemma BuiltMeta(layout: Layout, o: WrittenObject, file: seq<Byte>)
    requires layout.Inverts() && layout.Fits(SpecsOf(o)) && LogicalContent(file) == layout.FileOf(SpecsOf(o))
    ensures MetaFromContent(layout.codec, LogicalContent(file)) == Ok(layout.ExpectedMeta(SpecsOf(o)))
  {
    layout.FileMeta(SpecsOf(o));
  }

  lemma BuiltForm(layout: Layout, o: WrittenObject, file: seq<Byte>)
    requires ObjectBuilt(layout, o, file)
    ensures layout.Fits(SpecsOf(o)) && LogicalContent(file) == layout.FileOf(SpecsOf(o))
    ensures DetectsRaw(file) || DetectsCrc(file)
  {
    FormIsRecognised(layout, SpecsOf(o), o.storage);
  }

  lemma OpensWhen(fs: FileSet, wu: WorkUnit, meta: ObjectMeta)
    requires wu.obj < |fs.files| && (DetectsRaw(fs.files[wu.obj]) || DetectsCrc(fs.files[wu.obj]))
    requires MetaFromContent(fs.codec, LogicalContent(fs.files[wu.obj])) == Ok(meta) && wu.blk < |meta.blocks|
    ensures fs.Opens(wu) && fs.Block(wu) == meta.blocks[wu.blk]
  {
  }

  lemma ExpectedInfo(layout: Layout, specs: seq<BlockSpec>, b: nat)
    requires layout.Fits(specs) && b < |specs|
    ensures |layout.ExpectedMeta(specs).blocks| == |specs|
    ensures layout.ExpectedMeta(specs).blocks[b] == InfoOf(specs[b].rows, layout.MetaColumns(specs, b))
  {
  }

  lemma ColumnIsStored(layout: Layout, o: WrittenObject, fs: FileSet, wu: WorkUnit, s: nat)
    requires layout.Inverts() && layout.Fits(SpecsOf(o)) && fs.codec == layout.codec && fs.Opens(wu) && wu.blk < |o.blocks|
    requires LogicalContent(fs.files[wu.obj]) == layout.FileOf(SpecsOf(o))
    requires fs.Block(wu).columns == layout.MetaColumns(SpecsOf(o), wu.blk) && s < |o.blocks[wu.blk].columns|
    ensures fs.Column(wu, s) == DecodedFrom(o.blocks[wu.blk].columns[s].spec.vector)
  {
    var specs := SpecsOf(o);
    assert specs[wu.blk].columns[s] == o.blocks[wu.blk].columns[s].spec;
    hide SpecsOf;
    hide LogicalContent;
    hide layout.FileOf;
    hide layout.Fits;
    hide layout.Inverts;
    hide ColumnOf;
    hide layout.MetaColumns;
    hide layout.ColumnExtent;
    hide DecodedFrom;
    hide MetaFromContent;
    layout.FileColumn(specs, wu.blk, s);
    ColumnLocation(layout, specs, wu.blk, s);
  }

  lemma ZonesAreStored(layout: Layout, o: WrittenObject, info: BlockInfo, b: nat)
    requires b < |o.blocks| && info.columns == layout.MetaColumns(SpecsOf(o), b)
    ensures ZoneMapsOf(info) == ZonesOf(o.blocks[b])
  {
  }

  /** What a work unit's file delivers is the stored block. */
  lemma UnitIsDelivered(q: Query, layout: Layout, o: WrittenObject, fs: FileSet, wu: WorkUnit)
    requires q.Valid() && ObjectFitsQuery(q, o) && AllWritten(o) && wu.obj < |fs.files| && wu.blk < |o.blocks|
    requires layout.Inverts() && fs.codec == layout.codec && ObjectBuilt(layout, o, fs.files[wu.obj])
    ensures BlockReadable(q, StoredBlockOf(o.blocks[wu.blk])) && fs.Opens(wu) && fs.Reads(wu, q.ReadOrder())
    ensures FileUnit(fs, q.ReadOrder(), wu) == Delivered(q, wu.obj, wu.blk, StoredBlockOf(o.blocks[wu.blk]))
  {
    var b, order := o.blocks[wu.blk], q.ReadOrder();
    BlockOfObject(q, o, wu.blk);
    BuiltForm(layout, o, fs.files[wu.obj]);
    hide *;
    BuiltFileOpens(layout, o, fs, wu);
    InfoFields(b.rows, layout.MetaColumns(SpecsOf(o), wu.blk));
    BlockIsReadable(q, b);
    ZonesAreStored(layout, o, fs.Block(wu), wu.blk);
    StoredFields(b);
    var s := StoredBlockOf(b);
    forall p | 0 <= p < |order| ensures order[p] < |s.columns| && fs.Column(wu, order[p]) == Ok(s.columns[order[p]]) {
      RequestIsStored(q, layout, o, fs, wu, p);
    }
    BuiltExtentsAreNear(layout, SpecsOf(o), wu.blk, order);
    DeliveredWhen(q, fs, wu, s);
  }

  lemma BlockOfObject(q: Query, o: WrittenObject, b: nat)
    requires q.Valid() && ObjectFitsQuery(q, o) && AllWritten(o) && b < |o.blocks|
    ensures BlockWritten(o.blocks[b]) && BlockFitsQuery(q, o.blocks[b]) && SpecsOf(o)[b].rows == o.blocks[b].rows
    ensures |SpecsOf(o)[b].columns| == |o.blocks[b].columns|
  {
  }

  lemma InfoFields(rows: nat, cols: seq<ColumnMeta>)
    requires cols != []
    ensures InfoOf(rows, cols).rows == rows && InfoOf(rows, cols).columns == cols
  {
  }

  lemma StoredFields(b: WrittenBlock)
    requires BlockWritten(b)
    ensures StoredBlockOf(b) == StoredBlock(b.rows, ZonesOf(b), StoredColumns(b))
  {
  }

  lemma RequestIsStored(q: Query, layout: Layout, o: WrittenObject, fs: FileSet, wu: WorkUnit, p: nat)
    requires q.Valid() && layout.Inverts() && layout.Fits(SpecsOf(o)) && fs.codec == layout.codec && fs.Opens(wu)
    requires LogicalContent(fs.files[wu.obj]) == layout.FileOf(SpecsOf(o)) && wu.blk < |o.blocks|
    requires fs.Block(wu).columns == layout.MetaColumns(SpecsOf(o), wu.blk)
    requires p < |q.ReadOrder()| && BlockWritten(o.blocks[wu.blk]) && BlockFitsQuery(q, o.blocks[wu.blk])
    ensures q.ReadOrder()[p] < |o.blocks[wu.blk].columns|
    ensures fs.Column(wu, q.ReadOrder()[p]) == Ok(StoredColumns(o.blocks[wu.blk])[q.ReadOrder()[p]])
  {
    assert q.ReadOrder()[p] < |o.blocks[wu.blk].columns|;
    var cols := StoredColumns(o.blocks[wu.blk]);
    assert DecodedFrom(o.blocks[wu.blk].columns[q.ReadOrder()[p]].spec.vector) == Ok(cols[q.ReadOrder()[p]]);
    hide *;
    ColumnIsStored(layout, o, fs, wu, q.ReadOrder()[p]);
  }

  lemma DeliveredWhen(q: Query, fs: FileSet, wu: WorkUnit, b: StoredBlock)
    requires q.Valid() && BlockReadable(q, b) && fs.Opens(wu) && !SpansFar(fs.Block(wu).columns, q.ReadOrder())
    requires fs.Block(wu).rows == b.rows && ZoneMapsOf(fs.Block(wu)) == b.zms
    requires forall p :: 0 <= p < |q.ReadOrder()| ==> fs.Column(wu, q.ReadOrder()[p]) == Ok(b.columns[q.ReadOrder()[p]])
    ensures fs.Reads(wu, q.ReadOrder()) && FileUnit(fs, q.ReadOrder(), wu) == Delivered(q, wu.obj, wu.blk, b)
  {
    hide fs.Opens;
    hide fs.Block;
    hide fs.Column;
    hide SpansFar;
    hide ZoneMapsOf;
    assert FileUnit(fs, q.ReadOrder(), wu).cols == DecodedColumns(q, b);
  }

  // ----- main result -----

  /** The scan state has the query's filters and columns, and the table's files and paths. */
  ghost predicate Configured(g: TAEScanState, q: Query, objs: seq<WrittenObject>, fs: FileSet)
    requires q.Valid()
  {
    g.filters == q.Filters() && g.readSeqnums == q.ReadOrder() && g.fileSet == fs && |g.paths| == |objs|
  }

  /** The scan state that `Execute` works on, for a table of files and an order of its queue. */
  ghost predicate ScansTable(g: TAEScanState, q: Query, objs: seq<WrittenObject>, fs: FileSet)
    requires q.Valid() && TableFitsQuery(q, objs) && AllObjectsWritten(objs)
  {
    TableIsSound(q, objs);
    Configured(g, q, objs, fs) && IsQueueOrder(q, StoredTable(objs), g.workUnits)
  }

  lemma StoredUnit(objs: seq<WrittenObject>, wu: WorkUnit)
    requires AllObjectsWritten(objs) && wu.obj < |objs| && wu.blk < |objs[wu.obj].blocks|
    ensures BlockWritten(objs[wu.obj].blocks[wu.blk])
    ensures StoredTable(objs)[wu.obj].blocks[wu.blk] == StoredBlockOf(objs[wu.obj].blocks[wu.blk])
  {
    assert AllWritten(objs[wu.obj]);
  }

  /** The rows that match in the stored blocks are those that match in the values written. */
  lemma AnswerIsMatches(q: Query, objs: seq<WrittenObject>, r: RowId)
    requires q.Valid() && TableFitsQuery(q, objs) && AllObjectsWritten(objs)
    ensures InAnswer(q, StoredTable(objs), r) <==> WrittenMatches(q, objs, r)
  {
    if r.obj < |objs| && r.blk < |objs[r.obj].blocks| {
      var wu := WorkUnit(r.obj, r.blk);
      StoredUnit(objs, wu);
      assert ObjectFitsQuery(q, objs[r.obj]);
      hide StoredColumns;
      hide RowMatches;
      hide EntryHolds;
      hide CoversColumn;
      BlockIsReadable(q, objs[r.obj].blocks[r.blk]);
    }
  }

  /** The work unit can be scanned, and its file delivers `u`, which can be output. */
  ghost predicate ScansAs(fs: FileSet, filters: seq<PushedFilter>, seqnums: seq<nat>, slots: seq<OutputColumn>, wu: WorkUnit, u: ScanUnit)
    requires AllWellFormed(filters)
  {
    Scannable(fs, filters, seqnums, wu) && FileUnit(fs, seqnums, wu) == u && SlotsFillable(slots, u)
  }

  lemma GivenIsFillable(col: DecodedColumn, oid: Byte, g: Given)
    requires Returns(col, oid, g)
    ensures Fillable(col, g.Rows(), 0)
  {
    hide SeenAt;
    hide SlotOk;
    if g.Flat? {
      forall row | 0 <= row < g.Rows() ensures Copyable(col, row) { RowIsCopyable(col, row); }
    } else if !g.v.NullV? {
      ConstantDatum(col, oid, g.v, g.rows);
    }
  }

  lemma RowIsCopyable(col: DecodedColumn, row: nat)
    requires RowOk(col, row)
    ensures Copyable(col, row)
  {
  }

  /** Every column read of a stored block can be output in whole. */
  lemma UnitIsFillable(q: Query, obj: nat, blk: nat, b: WrittenBlock, slots: seq<OutputColumn>)
    requires q.Valid() && BlockWritten(b) && BlockFitsQuery(q, b) && BlockReadable(q, StoredBlockOf(b))
    ensures SlotsFillable(slots, Delivered(q, obj, blk, StoredBlockOf(b)))
  {
    var order, u := q.ReadOrder(), Delivered(q, obj, blk, StoredBlockOf(b));
    DeliveredTotal(q, obj, blk, StoredBlockOf(b));
    hide Fillable;
    hide Returns;
    hide DecodedFrom;
    hide BlockReadable;
    forall p | 0 <= p < |u.cols| ensures Fillable(u.cols[p], u.Total(), 0) {
      assert b.columns[order[p]].given.Rows() == b.rows;
      GivenIsFillable(u.cols[p], b.columns[order[p]].oid, b.columns[order[p]].given);
    }
  }

  /** Each unit of the queue can be scanned, and its file delivers the stored block. */
  lemma UnitIsPlanned(q: Query, layout: Layout, objs: seq<WrittenObject>, fs: FileSet, slots: seq<OutputColumn>, order: seq<WorkUnit>, i: nat)
    requires q.Valid() && TableBuilt(layout, objs, fs) && TableFitsQuery(q, objs) && TableSound(q, StoredTable(objs))
    requires InTable(DeliveredTable(q, StoredTable(objs)), order) && i < |order|
    ensures ScansAs(fs, q.Filters(), q.ReadOrder(), slots, order[i], UnitsFor(DeliveredTable(q, StoredTable(objs)), order)[i])
  {
    assert AllObjectsWritten(objs);
    hide *;
    var wu := order[i];
    DeliveredAt(q, StoredTable(objs), order, i);
    UnitInTable(q, objs, wu);
    QueueIsReadable(q, StoredTable(objs), order, i);
    FileIsBuilt(layout, objs, fs, wu.obj);
    UnitIsDelivered(q, layout, objs[wu.obj], fs, wu);
    BlockOfObject(q, objs[wu.obj], wu.blk);
    UnitIsFillable(q, wu.obj, wu.blk, objs[wu.obj].blocks[wu.blk], slots);
    ScannableWhen(q, fs, slots, wu);
  }

  lemma DeliveredAt(q: Query, t: seq<StoredObject>, order: seq<WorkUnit>, i: nat)
    requires q.Valid() && TableSound(q, t) && InTable(DeliveredTable(q, t), order) && i < |order|
    ensures InTable(DeliveredTable(q, t), [order[i]])
    ensures UnitsFor(DeliveredTable(q, t), order)[i] == DeliveredTable(q, t)[order[i].obj].blocks[order[i].blk]
  {
  }

  lemma FileIsBuilt(layout: Layout, objs: seq<WrittenObject>, fs: FileSet, k: nat)
    requires TableBuilt(layout, objs, fs) && k < |objs|
    ensures layout.Inverts() && fs.codec == layout.codec && k < |fs.files|
    ensures AllWritten(objs[k]) && ObjectBuilt(layout, objs[k], fs.files[k])
  {
  }

  lemma UnitInTable(q: Query, objs: seq<WrittenObject>, wu: WorkUnit)
    requires q.Valid() && TableFitsQuery(q, objs) && AllObjectsWritten(objs)
    requires TableSound(q, StoredTable(objs)) && InTable(DeliveredTable(q, StoredTable(objs)), [wu])
    ensures wu.obj < |objs| && wu.blk < |objs[wu.obj].blocks| && ObjectFitsQuery(q, objs[wu.obj])
    ensures var s := StoredBlockOf(objs[wu.obj].blocks[wu.blk]);
      BlockReadable(q, s) && DeliveredTable(q, StoredTable(objs))[wu.obj].blocks[wu.blk] == Delivered(q, wu.obj, wu.blk, s)
  {
    assert [wu][0] == wu;
    assert ObjectSound(q, StoredTable(objs)[wu.obj]);
    StoredUnit(objs, wu);
  }

  lemma ScannableWhen(q: Query, fs: FileSet, slots: seq<OutputColumn>, wu: WorkUnit)
    requires q.Valid() && fs.Opens(wu) && fs.Reads(wu, q.ReadOrder())
    requires UnitReadable(q.Filters(), FileUnit(fs, q.ReadOrder(), wu)) && SlotsFillable(slots, FileUnit(fs, q.ReadOrder(), wu))
    ensures ScansAs(fs, q.Filters(), q.ReadOrder(), slots, wu, FileUnit(fs, q.ReadOrder(), wu))
  {
  }

  /** Write a table with the file builder, store each file raw or wrapped, and scan it with
      any filters, queue order, coalescing gap, number of threads and interleaving: every
      call of `Execute` can be made, and once every thread has been told "0 rows" the rows
      emitted are those whose written values match, each exactly once. */
  lemma BuiltTableAnswersQuery(q: Query, layout: Layout, objs: seq<WrittenObject>, fs: FileSet, g: TAEScanState,
                               threads: nat, schedule: seq<nat>)
    requires q.Valid() && q.ReadsFiles() && TableBuilt(layout, objs, fs) && TableFitsQuery(q, objs) && ScansTable(g, q, objs, fs)
    requires threads > 0 && IsSchedule(schedule, threads)
    ensures g.Valid()
    ensures var s := Run(g.Plans(), threads, schedule, |schedule|);
      AllTold(s) ==> forall r :: multiset(s.emitted)[r] == Once(WrittenMatches(q, objs, r))
  {
    TableIsSound(q, objs);
    var t := StoredTable(objs);
    QueueInTable(q, t, g.workUnits);
    PlansAre(q, layout, objs, fs, g);
    hide *;
    ScanAnswersQuery(q, t, g.workUnits, threads, schedule);
    forall r ensures InAnswer(q, t, r) <==> WrittenMatches(q, objs, r) { AnswerIsMatches(q, objs, r); }
  }

  lemma PlansAre(q: Query, layout: Layout, objs: seq<WrittenObject>, fs: FileSet, g: TAEScanState)
    requires q.Valid() && TableBuilt(layout, objs, fs) && TableFitsQuery(q, objs) && TableSound(q, StoredTable(objs))
    requires Configured(g, q, objs, fs) && q.ReadsFiles()
    requires InTable(DeliveredTable(q, StoredTable(objs)), g.workUnits)
    ensures g.Valid() && g.Plans() == QueryPlans(q, StoredTable(objs), g.workUnits)
    ensures !g.MetadataOnly() && forall i :: 0 <= i < |g.workUnits| ==>
      g.UnitAt(i) == UnitsFor(DeliveredTable(q, StoredTable(objs)), g.workUnits)[i]
  {
    assert AllObjectsWritten(objs);
    WithinObjects(DeliveredTable(q, StoredTable(objs)), g.workUnits);
    assert !g.MetadataOnly();
    hide *;
    var units := UnitsFor(DeliveredTable(q, StoredTable(objs)), g.workUnits);
    forall i | 0 <= i < |g.workUnits| ensures ScansAs(fs, q.Filters(), q.ReadOrder(), g.outputMap, g.workUnits[i], units[i]) {
      UnitIsPlanned(q, layout, objs, fs, g.outputMap, g.workUnits, i);
    }
    PlansWhen(g, units);
    QueryPlansAre(q, StoredTable(objs), g.workUnits);
  }

  lemma WithinObjects(t: seq<TableObject>, order: seq<WorkUnit>)
    requires InTable(t, order)
    ensures forall i :: 0 <= i < |order| ==> order[i].obj < |t|
  {
  }

  lemma QueryPlansAre(q: Query, t: seq<StoredObject>, order: seq<WorkUnit>)
    requires q.Valid() && TableSound(q, t) && InTable(DeliveredTable(q, t), order)
    ensures QueryPlans(q, t, order) == PlansOf(q.Filters(), UnitsFor(DeliveredTable(q, t), order))
  {
  }

  lemma PlansWhen(g: TAEScanState, units: seq<ScanUnit>)
    requires AllWellFormed(g.filters) && !g.MetadataOnly() && |units| == |g.workUnits|
    requires forall i :: 0 <= i < |units| ==> g.workUnits[i].obj < |g.paths|
    requires forall i :: 0 <= i < |units| ==> ScansAs(g.fileSet, g.filters, g.readSeqnums, g.outputMap, g.workUnits[i], units[i])
    ensures g.Valid() && g.Plans() == PlansOf(g.filters, units) && forall i :: 0 <= i < |units| ==> g.UnitAt(i) == units[i]
  {
    hide Scannable;
    hide FileUnit;
    hide PlanOf;
    hide SlotsFillable;
    forall i | 0 <= i < |units|
      ensures g.UnitOk(g.workUnits[i]) && g.fileSet.Opens(g.workUnits[i])
      ensures FileUnit(g.fileSet, g.readSeqnums, g.workUnits[i]) == units[i]
    {
      assert ScansAs(g.fileSet, g.filters, g.readSeqnums, g.outputMap, g.workUnits[i], units[i]);
      UnitIsOk(g, g.workUnits[i], units[i]);
    }
    assert g.Valid();
    assert g.Plans() == PlansOf(g.filters, units);
  }

  lemma UnitIsOk(g: TAEScanState, wu: WorkUnit, u: ScanUnit)
    requires AllWellFormed(g.filters) && ScansAs(g.fileSet, g.filters, g.readSeqnums, g.outputMap, wu, u)
    ensures g.UnitOk(wu) && g.fileSet.Opens(wu) && FileUnit(g.fileSet, g.readSeqnums, wu) == u
  {
  }

  // ----- the demands can be met -----

  /** The zone maps that the writer makes cover the values between their bounds: strings
      when the upper bound fits 30 bytes. */
  lemma StringZoneCovers(z: ZoneMap, oid: Byte, lo: seq<Byte>, hi: seq<Byte>, s: seq<Byte>, f: PushedFilter)
    requires StoresStrings(z, oid, lo, hi) && |hi| <= 30 && Between(lo, s, hi)
    ensures CoversValue(z, oid, StrV(s)) && !TruncationHazard(f, z)
  {
    LexTransitive(lo, s, hi);
    StringZoneBoundsIff(z, oid, lo, hi);
  }

  /** And numbers of one, four and eight bytes. */
  lemma NumericZoneCovers(z: ZoneMap, oid: Byte, min: int, max: int, v: int, f: PushedFilter)
    requires IsIntegerType(oid) && Packs(FixedSize(oid)) && StoresBounds(z, oid, FixedSize(oid), Num(min), Num(max))
    requires NumTypeOf(oid).signed || (min >= 0 && max >= 0)
    requires min <= v + Epoch(oid) <= max && f.oid == oid
    ensures CoversValue(z, oid, IntV(v)) && !TruncationHazard(f, z)
  {
    NumericRead(z, oid, FixedSize(oid), min, max, NumTypeOf(oid));
  }

  /** A table of one raw file with a block of two rows, a FLAT column of 5 and NULL and the
      constant 42, under the filter `= 5` on the first: row 0 is the answer. */
  lemma BuiltDemandsCanBeMet() returns (q: Query, layout: Layout, objs: seq<WrittenObject>, fs: FileSet)
    ensures q.Valid() && |q.entries| == 1 && TableBuilt(layout, objs, fs) && TableFitsQuery(q, objs)
    ensures forall r :: WrittenMatches(q, objs, r) <==> r == RowId(0, 0, 0)
  {
    hide *;
    var blocks: seq<BlockSpec>;
    layout, blocks := DemandsCanBeMet();
    var b := SmallBlock(blocks);
    var o := WrittenObject(1, None, [b], Storage.Raw);
    objs := [o];
    fs := FileSet([layout.FileOf(SpecsOf(o))], layout.codec, 0, 0);
    q := SmallQuery();
    SmallTableBuilt(layout, o, fs);
    SmallTableFits(q, b);
    SmallAnswer(q, b);
  }

  lemma SmallBlock(blocks: seq<BlockSpec>) returns (b: WrittenBlock)
    requires |blocks| == 1 && blocks[0].rows == |blocks[0].columns| == 2
    requires WrittenFrom(blocks[0].columns[0], T_INT32, Flat(Numbers([Some(5), None]), [false, true]))
    requires WrittenFrom(blocks[0].columns[1], T_INT32, Constant(IntV(42), 2))
    requires !IsInited(blocks[0].columns[0].zoneMap) && !IsInited(blocks[0].columns[1].zoneMap)
    ensures Small(b) && SpecsOf(WrittenObject(1, None, [b], Storage.Raw)) == blocks
    ensures AllWritten(WrittenObject(1, None, [b], Storage.Raw))
  {
    hide WrittenFrom;
    b := WrittenBlock(2, [WrittenColumn(blocks[0].columns[0], T_INT32, Flat(Numbers([Some(5), None]), [false, true])),
                          WrittenColumn(blocks[0].columns[1], T_INT32, Constant(IntV(42), 2))]);
    assert ColumnSpecs(b) == blocks[0].columns;
  }

  lemma SmallQuery() returns (q: Query)
    ensures q.schema == Schema([T_INT32, T_INT32], [0, 1]) && q.columnIds == [0, 1]
    ensures q.entries == [FilterEntry(0, Compare(Some(Equal), Some(IntV(5))))]
    ensures q.Valid() && q.ReadOrder() == [0, 1]
  {
    var schema, ids := Schema([T_INT32, T_INT32], [0, 1]), [0, 1];
    q := Query(schema, ids, [FilterEntry(0, Compare(Some(Equal), Some(IntV(5))))], NO_SORT_COLUMN);
    SmallIds(schema, ids);
    FiveEncodes(IntV(5));
    hide EncodableValue;
    hide ReadSeqnums;
    hide RealBefore;
  }

  lemma SmallIds(schema: Schema, ids: seq<nat>)
    requires schema.seqnums == [0, 1] && ids == [0, 1]
    ensures IdsKnown(schema, ids) && ReadSeqnums(schema, ids, 2) == [0, 1]
  {
    assert RealBefore(ids, 1) == 1;
    assert ReadSeqnums(schema, ids, 1) == [0];
  }

  lemma FiveEncodes(v: Value)
    requires v == IntV(5)
    ensures EncodableValue(Some(v), T_INT32)
  {
    Pow256Values();
  }

  /** The block of the table below. */
  ghost predicate Small(b: WrittenBlock)
  {
    && b.rows == |b.columns| == 2 && BlockWritten(b)
    && b.columns[0].oid == b.columns[1].oid == T_INT32
    && b.columns[0].given == Flat(Numbers([Some(5), None]), [false, true]) && b.columns[1].given == Constant(IntV(42), 2)
    && !IsInited(b.columns[0].spec.zoneMap) && !IsInited(b.columns[1].spec.zoneMap)
  }

  lemma SmallTableBuilt(layout: Layout, o: WrittenObject, fs: FileSet)
    requires layout.Inverts() && AllWritten(o) && layout.Fits(SpecsOf(o)) && o.storage == Storage.Raw
    requires fs.files == [layout.FileOf(SpecsOf(o))] && fs.codec == layout.codec
    ensures TableBuilt(layout, [o], fs)
  {
    RawBuilt(layout, o);
    hide *;
    OneBuilt(layout, o, fs);
  }

  lemma RawBuilt(layout: Layout, o: WrittenObject)
    requires layout.Fits(SpecsOf(o)) && o.storage == Storage.Raw
    ensures ObjectBuilt(layout, o, layout.FileOf(SpecsOf(o)))
  {
  }

  lemma OneBuilt(layout: Layout, o: WrittenObject, fs: FileSet)
    requires layout.Inverts() && AllWritten(o) && fs.codec == layout.codec
    requires |fs.files| == 1 && ObjectBuilt(layout, o, fs.files[0])
    ensures TableBuilt(layout, [o], fs)
  {
    hide AllWritten;
    hide ObjectBuilt;
  }

  lemma SmallTableFits(q: Query, b: WrittenBlock)
    requires Small(b) && q.schema == Schema([T_INT32, T_INT32], [0, 1]) && q.columnIds == [0, 1]
    requires q.entries == [FilterEntry(0, Compare(Some(Equal), Some(IntV(5))))] && q.Valid() && q.ReadOrder() == [0, 1]
    ensures TableFitsQuery(q, [WrittenObject(1, None, [b], Storage.Raw)])
  {
    hide WrittenFrom;
    hide FiltersFrom;
    assert BlockFitsQuery(q, b);
  }

  lemma SmallAnswer(q: Query, b: WrittenBlock)
    requires Small(b) && q.schema == Schema([T_INT32, T_INT32], [0, 1]) && q.columnIds == [0, 1]
    requires q.entries == [FilterEntry(0, Compare(Some(Equal), Some(IntV(5))))] && q.Valid()
    ensures forall r :: WrittenMatches(q, [WrittenObject(1, None, [b], Storage.Raw)], r) <==> r == RowId(0, 0, 0)
  {
    assert EntryHolds(q, q.entries[0], b, 0);
    assert !EntryHolds(q, q.entries[0], b, 1);
  }
}
