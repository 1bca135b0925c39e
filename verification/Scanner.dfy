/** The table function's `Execute`: one call on the shared and the thread's state. */
module Scanner {
  import opened Bytes
  import opened ZoneMaps
  import opened Vectors
  import opened Metadata
  import opened CrcBlocks
  import opened ObjectReader
  import opened Filters
  import opened ColumnFill
  import opened ColumnMap
  import opened OutputSlots
  import opened ScanMachine
  import opened MetadataScan

  datatype WorkUnit = WorkUnit(obj: nat, blk: nat)

  /** The table's object files and how they are read. */
  datatype FileSet = FileSet(files: seq<seq<Byte>>, codec: Codec, coalesceGap: nat, prefetchThreshold: nat) {
    /** The unit's file opens: its format is recognised and its metadata has the block. */
    predicate Opens(wu: WorkUnit)
    {
      wu.obj < |files| &&
      var content := LogicalContent(files[wu.obj]);
      && (DetectsRaw(files[wu.obj]) || DetectsCrc(files[wu.obj]))
      && MetaFromContent(codec, content).Ok? && wu.blk < |MetaFromContent(codec, content).value.blocks|
    }

    function Block(wu: WorkUnit): BlockInfo
      requires Opens(wu)
    {
      MetaFromContent(codec, LogicalContent(files[wu.obj])).value.blocks[wu.blk]
    }

    function Column(wu: WorkUnit, seqnum: nat): Result<DecodedColumn>
      requires Opens(wu)
    {
      if seqnum >= |Block(wu).columns| then Err(OutOfRange)
      else ColumnOf(codec, LogicalContent(files[wu.obj]), Block(wu).columns[seqnum].location)
    }

    /** The columns of the unit can be read, and do not span 4 GiB. */
    predicate Reads(wu: WorkUnit, seqnums: seq<nat>)
      requires Opens(wu)
    {
      && !SpansFar(Block(wu).columns, seqnums)
      && forall p :: 0 <= p < |seqnums| ==> Column(wu, seqnums[p]).Ok?
    }
  }

  function ZoneMapsOf(b: BlockInfo): (zms: seq<ZoneMap>)
    ensures |zms| == |b.columns|
  {
    seq(|b.columns|, c requires 0 <= c < |b.columns| => b.columns[c].zoneMap)
  }

  /** A queued block with what its file holds: the metadata's row count, zone maps, and
      the requested columns. */
  datatype ScanUnit = ScanUnit(obj: nat, blk: nat, rows: nat, zms: seq<ZoneMap>, cols: seq<DecodedColumn>) {
    /** Rows to emit: those of the first decoded column, if there is one. */
    function Total(): nat { if cols != [] then cols[0].rowCount else rows }
  }

  /** The unit as its file has it. */
  function FileUnit(fs: FileSet, seqnums: seq<nat>, wu: WorkUnit): ScanUnit
    requires fs.Opens(wu)
  {
    ScanUnit(wu.obj, wu.blk, fs.Block(wu).rows, ZoneMapsOf(fs.Block(wu)),
             if !fs.Reads(wu, seqnums) then []
             else seq(|seqnums|, p requires 0 <= p < |seqnums| => fs.Column(wu, seqnums[p]).value))
  }

  function PlanOf(filters: seq<PushedFilter>, u: ScanUnit): UnitPlan
    requires AllWellFormed(filters)
  {
    UnitPlan(u.obj, u.blk, u.Total(), BlockPassesFilters(filters, u.zms), Passer(filters, u.cols))
  }

  function PlansOf(filters: seq<PushedFilter>, units: seq<ScanUnit>): (plans: seq<UnitPlan>)
    requires AllWellFormed(filters)
    ensures |plans| == |units|
  {
    seq(|units|, i requires 0 <= i < |units| => PlanOf(filters, units[i]))
  }

  predicate UnitReadable(filters: seq<PushedFilter>, u: ScanUnit)
  {
    forall row :: 0 <= row < u.Total() ==> RowReadable(filters, u.cols, row)
  }

  /** What a scan needs of a unit: its file opens and, unless its zone maps skip it, its
      columns can be read and its filters tested. */
  predicate Scannable(fs: FileSet, filters: seq<PushedFilter>, seqnums: seq<nat>, wu: WorkUnit)
    requires AllWellFormed(filters)
  {
    fs.Opens(wu) &&
    (BlockPassesFilters(filters, ZoneMapsOf(fs.Block(wu))) ==>
       fs.Reads(wu, seqnums) && UnitReadable(filters, FileUnit(fs, seqnums, wu)))
  }

  /** The manifest has every queued block's object. */
  predicate CountsKnown(manifest: seq<ManifestObject>, queue: seq<WorkUnit>)
  {
    AllValid(manifest) && forall i :: 0 <= i < |queue| ==> queue[i].obj < |manifest|
  }

  /** The queue as the metadata-only path sees it: row counts computed from the manifest. */
  function CountedPlans(manifest: seq<ManifestObject>, queue: seq<WorkUnit>): (plans: seq<UnitPlan>)
    requires CountsKnown(manifest, queue)
    ensures |plans| == |queue| && AllCounted(plans)
  {
    seq(|queue|, i requires 0 <= i < |queue| =>
      CountedUnit(queue[i].obj, queue[i].blk, manifest[queue[i].obj].Count(queue[i].blk)))
  }

  /** Every slot's column can be filled, in whole. */
  predicate SlotsFillable(slots: seq<OutputColumn>, u: ScanUnit)
  {
    forall i :: 0 <= i < |slots| && slots[i].TaeColumn? && slots[i].decodedPos < |u.cols| ==>
      Fillable(u.cols[slots[i].decodedPos], u.Total(), 0)
  }

  /** What the output needs of a unit that its zone maps do not skip. */
  predicate Shippable(fs: FileSet, filters: seq<PushedFilter>, seqnums: seq<nat>, slots: seq<OutputColumn>, wu: WorkUnit)
    requires AllWellFormed(filters) && fs.Opens(wu)
  {
    BlockPassesFilters(filters, ZoneMapsOf(fs.Block(wu))) ==> SlotsFillable(slots, FileUnit(fs, seqnums, wu))
  }

  class TAEScanState {
    const filters: seq<PushedFilter>
    const readSeqnums: seq<nat>
    const outputMap: seq<OutputColumn>
    const manifest: seq<ManifestObject>
    const paths: seq<seq<Byte>>
    const fileSet: FileSet
    const workUnits: seq<WorkUnit>
    var nextWorkUnit: nat
    var blocksScanned: nat
    var blocksSkipped: nat
    var rowsEmitted: nat

    /** No stored column to read and no row to filter: files are not opened. */
    predicate MetadataOnly() { readSeqnums == [] && filters == [] }

    ghost predicate Valid()
    {
      AllWellFormed(filters) && (forall i :: 0 <= i < |workUnits| ==> workUnits[i].obj < |paths|) &&
      if MetadataOnly() then CountsKnown(manifest, workUnits)
      else forall i :: 0 <= i < |workUnits| ==> UnitOk(workUnits[i])
    }

    ghost predicate UnitOk(wu: WorkUnit)
      requires AllWellFormed(filters)
    {
      Scannable(fileSet, filters, readSeqnums, wu) && Shippable(fileSet, filters, readSeqnums, outputMap, wu)
    }

    ghost function UnitAt(i: nat): ScanUnit
      requires Valid() && !MetadataOnly() && i < |workUnits|
    {
      FileUnit(fileSet, readSeqnums, workUnits[i])
    }

    /** The queue as units of work. */
    ghost function Plans(): (plans: seq<UnitPlan>)
      requires Valid()
      ensures |plans| == |workUnits|
      ensures MetadataOnly() ==> AllCounted(plans)
      ensures !MetadataOnly() ==> forall i :: 0 <= i < |plans| ==> plans[i] == PlanOf(filters, UnitAt(i))
    {
      if MetadataOnly() then CountedPlans(manifest, workUnits)
      else PlansOf(filters, seq(|workUnits|, i requires 0 <= i < |workUnits| => UnitAt(i)))
    }

    /** What the slots are filled from for a chunk: nothing is decoded without files. */
    ghost function ChunkOf(f: Fill): ChunkFill
      requires Valid() && f.unit < |workUnits| && f.from <= f.until
    {
      var wu := workUnits[f.unit];
      ChunkFill(paths[wu.obj], wu.blk, if MetadataOnly() then [] else UnitAt(f.unit).cols, f.until - f.from, f.from)
    }

    ghost function ChunksOf(fills: seq<Fill>): (chunks: seq<ChunkFill>)
      requires Valid() && forall k :: 0 <= k < |fills| ==> FillOk(Plans(), fills[k])
      ensures |chunks| == |fills| && forall k :: 0 <= k < |chunks| ==> FillOk(Plans(), fills[k]) && chunks[k] == ChunkOf(fills[k])
    {
      seq(|fills|, k requires 0 <= k < |fills| => assert FillOk(Plans(), fills[k]); ChunkOf(fills[k]))
    }

    constructor (filters: seq<PushedFilter>, readSeqnums: seq<nat>, outputMap: seq<OutputColumn>, manifest: seq<ManifestObject>,
                 paths: seq<seq<Byte>>, fileSet: FileSet, workUnits: seq<WorkUnit>, skippedAtInit: nat)
      ensures this.filters == filters && this.readSeqnums == readSeqnums && this.outputMap == outputMap
      ensures this.manifest == manifest && this.paths == paths && this.fileSet == fileSet && this.workUnits == workUnits
      ensures nextWorkUnit == blocksScanned == rowsEmitted == 0 && blocksSkipped == skippedAtInit
    {
      this.filters, this.readSeqnums, this.outputMap := filters, readSeqnums, outputMap;
      this.manifest, this.paths, this.fileSet, this.workUnits := manifest, paths, fileSet, workUnits;
      nextWorkUnit, blocksScanned, blocksSkipped, rowsEmitted := 0, 0, skippedAtInit, 0;
    }
  }

  class TAEScanLocalState {
    var reader: TAEObjectReader?
    var readerObjectIdx: nat
    var pendingCols: seq<DecodedColumn>
    var pendingTotalRows: nat
    var pendingOffset: nat
    var pendingObjectIdx: nat
    var pendingBlockIdx: nat
    ghost var pendingUnit: nat
    ghost var told: bool

    ghost function Repr(): set<object>
      reads this
    {
      if reader == null then {} else {reader}
    }

    ghost function View(): Local
      reads this
    {
      Local(None, pendingUnit, pendingOffset, pendingTotalRows, told)
    }

    /** A kept reader is open on its object. */
    ghost predicate ReaderOk(g: TAEScanState)
      reads this, Repr()
    {
      reader != null ==> readerObjectIdx < |g.fileSet.files| && IsOpen(reader, g.fileSet, readerObjectIdx)
    }

    /** A pending block is one of the queue's, kept by its zone maps. */
    ghost predicate PendingOk(g: TAEScanState)
      requires g.Valid()
      reads this
    {
      LocalOk(g.Plans(), View()) && (pendingOffset < pendingTotalRows ==> HoldsUnit(g))
    }

    /** The pending fields are those of a kept unit, its next rows at the offset. */
    ghost predicate HoldsUnit(g: TAEScanState)
      requires g.Valid()
      reads this
    {
      && pendingUnit < |g.workUnits| && g.Plans()[pendingUnit].keep && pendingTotalRows == g.Plans()[pendingUnit].total
      && (pendingOffset < pendingTotalRows || pendingOffset == pendingTotalRows == 0)
      && pendingObjectIdx == g.workUnits[pendingUnit].obj && pendingBlockIdx == g.workUnits[pendingUnit].blk
      && (!g.MetadataOnly() ==> pendingCols == g.UnitAt(pendingUnit).cols)
    }

    ghost predicate Valid(g: TAEScanState)
      requires g.Valid()
      reads this, Repr()
    {
      ReaderOk(g) && PendingOk(g)
    }

    constructor ()
      ensures View() == IDLE && reader == null
    {
      reader, readerObjectIdx := null, 0;
      pendingCols, pendingTotalRows, pendingOffset := [], 0, 0;
      pendingObjectIdx, pendingBlockIdx := 0, 0;
      pendingUnit, told := 0, false;
    }
  }

  /** The reader holds the metadata of the object's file. */
  ghost predicate IsOpen(reader: TAEObjectReader, fs: FileSet, obj: nat)
    requires obj < |fs.files|
    reads reader
  {
    && reader.Valid() && reader.formatDetected && reader.file == fs.files[obj] && reader.codec == fs.codec
    && MetaFromContent(fs.codec, LogicalContent(fs.files[obj])) == Ok(reader.meta)
  }

  /** Counters after a call, relative to before. */
  twostate predicate Counts(g: TAEScanState, r: Outcome)
    reads g
  {
    && g.nextWorkUnit == r.next
    && g.blocksScanned == old(g.blocksScanned) + r.scanned
    && g.blocksSkipped == old(g.blocksSkipped) + r.skipped
    && g.rowsEmitted == old(g.rowsEmitted) + |r.rows|
  }

  /** The thread's reader if it is open on the object, else a new one. */
  method OpenReader(g: TAEScanState, l: TAEScanLocalState, wu: WorkUnit) returns (reader: TAEObjectReader)
    requires g.fileSet.Opens(wu) && l.ReaderOk(g)
    modifies l`reader, l`readerObjectIdx
    ensures l.reader == reader && l.readerObjectIdx == wu.obj && IsOpen(reader, g.fileSet, wu.obj)
    ensures fresh(l.Repr() - old(l.Repr()))
  {
    if l.reader != null && l.readerObjectIdx == wu.obj {
      return l.reader;
    }
    var fs := g.fileSet;
    reader := new TAEObjectReader(fs.files[wu.obj], fs.codec, fs.coalesceGap, fs.prefetchThreshold);
    var ok := reader.ReadMeta();
    l.reader := reader;
    l.readerObjectIdx := wu.obj;
  }

  /** The unit's columns, through the reader. */
  method ReadUnit(reader: TAEObjectReader, fs: FileSet, wu: WorkUnit, seqnums: seq<nat>) returns (cols: seq<DecodedColumn>)
    requires fs.Opens(wu) && IsOpen(reader, fs, wu.obj) && fs.Reads(wu, seqnums)
    modifies reader
    ensures IsOpen(reader, fs, wu.obj) && cols == FileUnit(fs, seqnums, wu).cols
  {
    ghost var columns := fs.Block(wu).columns;
    forall p | 0 <= p < |seqnums|
      ensures reader.Requested(columns, seqnums, p) == fs.Column(wu, seqnums[p])
    {
    }
    hide ColumnOf;
    hide MetaFromContent;
    var decoded := reader.ReadBlock(wu.blk, seqnums);
    assert decoded.Ok?;
    cols := decoded.value;
    assert cols == FileUnit(fs, seqnums, wu).cols;
  }

  /** next_block: claim a unit, and skip it or make it the pending block. */
  method ClaimUnit(g: TAEScanState, l: TAEScanLocalState) returns (ok: bool, kept: bool)
    requires g.Valid() && !g.MetadataOnly() && l.Valid(g) && l.pendingOffset >= l.pendingTotalRows
    modifies g`nextWorkUnit, g`blocksScanned, g`blocksSkipped, l, l.Repr()
    ensures l.Valid(g) && fresh(l.Repr() - old(l.Repr()))
    ensures var s := old(Claim(g.Plans(), g.nextWorkUnit, l.View()));
      && g.nextWorkUnit == s.next && l.View() == s.local
      && g.blocksScanned == old(g.blocksScanned) + s.scanned && g.blocksSkipped == old(g.blocksSkipped) + s.skipped
      && (ok <==> old(g.nextWorkUnit) < |g.workUnits|)
      && (kept <==> ok && g.Plans()[old(g.nextWorkUnit)].keep)
    ensures kept ==> l.HoldsUnit(g) && l.pendingUnit == old(g.nextWorkUnit) && l.pendingOffset == 0
  {
    hide FileUnit;
    hide Scannable;
    hide Shippable;
    hide IsOpen;
    hide Passer;
    hide BlockPassesFilters;
    hide RowsOf;
    var wuIdx := g.nextWorkUnit;
    g.nextWorkUnit := g.nextWorkUnit + 1;
    if wuIdx >= |g.workUnits| {
      l.told := true;
      return false, false;
    }
    UnitOpens(g, wuIdx);
    kept := LoadUnit(g, l, wuIdx);
    assert g.Plans()[wuIdx] == PlanOf(g.filters, g.UnitAt(wuIdx));
    ok := true;
  }

  /** Opens the unit's file, and skips the unit or reads it into the pending block. */
  method LoadUnit(g: TAEScanState, l: TAEScanLocalState, wuIdx: nat) returns (kept: bool)
    requires g.Valid() && !g.MetadataOnly() && l.ReaderOk(g) && wuIdx < |g.workUnits|
    modifies g`blocksScanned, g`blocksSkipped, l, l.Repr()
    ensures l.ReaderOk(g) && fresh(l.Repr() - old(l.Repr()))
    ensures kept <==> BlockPassesFilters(g.filters, g.UnitAt(wuIdx).zms)
    ensures g.blocksScanned == old(g.blocksScanned) + if kept then 1 else 0
    ensures g.blocksSkipped == old(g.blocksSkipped) + if kept then 0 else 1
    ensures !kept ==> l.View() == old(l.View()) && l.pendingCols == old(l.pendingCols) &&
                      l.pendingObjectIdx == old(l.pendingObjectIdx) && l.pendingBlockIdx == old(l.pendingBlockIdx)
    ensures kept ==> var u := g.UnitAt(wuIdx);
      && l.View() == Local(None, wuIdx, 0, u.Total(), old(l.told))
      && l.pendingCols == u.cols && l.pendingObjectIdx == u.obj && l.pendingBlockIdx == u.blk
  {
    var wu := g.workUnits[wuIdx];
    UnitOpens(g, wuIdx);
    hide IsOpen;
    hide BlockPassesFilters;
    hide Scannable;
    hide FileUnit;
    hide UnitReadable;
    hide g.fileSet.Opens;
    hide g.fileSet.Reads;
    var reader := OpenReader(g, l, wu);
    var info := BlockInfoOf(reader, g.fileSet, wu);
    if g.filters != [] && !BlockPassesFilters(g.filters, ZoneMapsOf(info)) {
      g.blocksSkipped := g.blocksSkipped + 1;
      return false;
    }
    g.blocksScanned := g.blocksScanned + 1;
    ReadPending(g, l, reader, info, wuIdx);
    return true;
  }

  /** Reads the unit's columns and makes it the pending block. */
  method ReadPending(g: TAEScanState, l: TAEScanLocalState, reader: TAEObjectReader, info: BlockInfo, wuIdx: nat)
    requires g.Valid() && !g.MetadataOnly() && wuIdx < |g.workUnits| && l.reader == reader && l.readerObjectIdx == g.workUnits[wuIdx].obj
    requires g.fileSet.Opens(g.workUnits[wuIdx]) && g.fileSet.Reads(g.workUnits[wuIdx], g.readSeqnums)
    requires IsOpen(reader, g.fileSet, g.workUnits[wuIdx].obj) && info == g.fileSet.Block(g.workUnits[wuIdx])
    modifies l, reader
    ensures l.reader == reader && l.ReaderOk(g)
    ensures var u := g.UnitAt(wuIdx);
      && l.View() == Local(None, wuIdx, 0, u.Total(), old(l.told))
      && l.pendingCols == u.cols && l.pendingObjectIdx == u.obj && l.pendingBlockIdx == u.blk
  {
    hide IsOpen;
    hide FileUnit;
    hide Scannable;
    hide g.fileSet.Opens;
    hide g.fileSet.Reads;
    UnitOpens(g, wuIdx);
    var wu := g.workUnits[wuIdx];
    var decodedCols := ReadUnit(reader, g.fileSet, wu, g.readSeqnums);
    var totalRows: nat;
    if decodedCols != [] {
      totalRows := decodedCols[0].rowCount;
    } else {
      totalRows := info.rows;
    }
    l.pendingCols := decodedCols;
    l.pendingTotalRows := totalRows;
    l.pendingOffset := 0;
    l.pendingObjectIdx := wu.obj;
    l.pendingBlockIdx := wu.blk;
    l.pendingUnit := wuIdx;
  }

  lemma UnitOpens(g: TAEScanState, wuIdx: nat)
    requires g.Valid() && !g.MetadataOnly() && wuIdx < |g.workUnits|
    ensures var wu := g.workUnits[wuIdx]; var u := g.UnitAt(wuIdx);
      && g.fileSet.Opens(wu) && u.obj == wu.obj && u.blk == wu.blk
      && u.rows == g.fileSet.Block(wu).rows && u.zms == ZoneMapsOf(g.fileSet.Block(wu))
      && (BlockPassesFilters(g.filters, u.zms) ==> g.fileSet.Reads(wu, g.readSeqnums))
      && (g.filters == [] ==> BlockPassesFilters(g.filters, u.zms))
  {
    assert g.UnitOk(g.workUnits[wuIdx]);
  }

  method BlockInfoOf(reader: TAEObjectReader, fs: FileSet, wu: WorkUnit) returns (info: BlockInfo)
    requires fs.Opens(wu) && IsOpen(reader, fs, wu.obj)
    ensures info == fs.Block(wu)
  {
    info := reader.meta.blocks[wu.blk];
  }

  // ----- progress -----

  /** Percentage of blocks scanned or skipped. */
  function Progress(scanned: nat, skipped: nat, totalBlocks: nat): real
  {
    if totalBlocks == 0 then 100.0
    else (scanned + skipped) as real / totalBlocks as real * 100.0
  }

  function ProgressAfter(units: seq<UnitPlan>, threads: nat, schedule: seq<nat>, n: nat, skippedAtInit: nat): real
    requires n <= |schedule| && IsSchedule(schedule, threads)
  {
    var s := Run(units, threads, schedule, n);
    Progress(s.scanned, s.skipped + skippedAtInit, |units| + skippedAtInit)
  }

  lemma ProgressMonotone(s: nat, k: nat, s': nat, k': nat, total: nat)
    requires s + k <= s' + k' <= total
    ensures Progress(s, k, total) <= Progress(s', k', total) <= 100.0
    ensures s' + k' == total ==> Progress(s', k', total) == 100.0
  {
    if total > 0 {
      var t := total as real;
      DivMonotone((s + k) as real, (s' + k') as real, t);
      DivMonotone((s' + k') as real, t, t);
      assert t / t == 1.0;
    }
  }

  lemma DivMonotone(a: real, b: real, t: real)
    requires a <= b && t > 0.0
    ensures a / t <= b / t
  {
  }

  /** When the queue and the blocks pruned at Init make up the table, progress never
      falls, never exceeds 100, and is 100 once every thread has been told "0 rows". */
  lemma ProgressOverRun(units: seq<UnitPlan>, threads: nat, schedule: seq<nat>, n: nat, skippedAtInit: nat)
    requires n < |schedule| && IsSchedule(schedule, threads)
    ensures ProgressAfter(units, threads, schedule, n, skippedAtInit) <=
            ProgressAfter(units, threads, schedule, n + 1, skippedAtInit) <= 100.0
    ensures n + 1 == |schedule| && AllTold(Run(units, threads, schedule, n + 1)) ==>
              ProgressAfter(units, threads, schedule, n + 1, skippedAtInit) == 100.0
  {
    hide Advance;
    var s, r := Run(units, threads, schedule, n), Run(units, threads, schedule, n + 1);
    CountsGrow(units, threads, schedule, n);
    if n + 1 == |schedule| && AllTold(r) { AllToldAllEmitted(units, threads, schedule); }
    hide Progress;
    ProgressMonotone(s.scanned, s.skipped + skippedAtInit, r.scanned, r.skipped + skippedAtInit, |units| + skippedAtInit);
  }

  /** When every thread has been told "0 rows", progress is 100 exactly when the queue and
      the blocks pruned at Init make up the table: a queue cut by a LIMIT ends below. */
  lemma FinalProgress(units: seq<UnitPlan>, threads: nat, schedule: seq<nat>, skippedAtInit: nat, totalBlocks: nat)
    requires threads > 0 && IsSchedule(schedule, threads) && AllTold(Run(units, threads, schedule, |schedule|))
    requires |units| + skippedAtInit <= totalBlocks
    ensures var s := Run(units, threads, schedule, |schedule|);
      Progress(s.scanned, s.skipped + skippedAtInit, totalBlocks) == 100.0 <==> |units| + skippedAtInit == totalBlocks
  {
    hide *;
    var s := Run(units, threads, schedule, |schedule|);
    EveryUnitCounted(units, threads, schedule);
    WholeIsAll(s.scanned, s.skipped + skippedAtInit, totalBlocks);
  }

  lemma EveryUnitCounted(units: seq<UnitPlan>, threads: nat, schedule: seq<nat>)
    requires threads > 0 && IsSchedule(schedule, threads) && AllTold(Run(units, threads, schedule, |schedule|))
    ensures var s := Run(units, threads, schedule, |schedule|); s.scanned + s.skipped == |units|
  {
    hide *;
    AllToldAllEmitted(units, threads, schedule);
  }

  lemma WholeIsAll(scanned: nat, skipped: nat, total: nat)
    requires scanned + skipped <= total
    ensures Progress(scanned, skipped, total) == 100.0 <==> scanned + skipped == total
  {
    if total > 0 { PercentIsWhole((scanned + skipped) as real, total as real); }
  }

  lemma PercentIsWhole(a: real, t: real)
    requires t > 0.0
    ensures a / t * 100.0 == 100.0 <==> a == t
  {
    var p := a / t;
    assert p * t == a;
    OneOf(p, t);
  }

  lemma OneOf(p: real, t: real)
    requires t > 0.0
    ensures p * t == t <==> p == 1.0
  {
    assert (p - 1.0) * t == p * t - t;
  }
}
