/** The work queue that Init builds: objects and blocks pruned by their zone maps, and
    the proof that pruning loses no row of the answer. */
module WorkQueue {
  import opened Bytes
  import opened ZoneMaps
  import opened Vectors
  import opened Filters
  import opened Chunks
  import opened ScanMachine
  import opened Scanner

  /** The sort column's sequence number when the manifest names none. */
  const NO_SORT_COLUMN: nat := 0xFFFF

  /** An object: the manifest's block count and sort-key zone map, and what its file
      delivers block by block. */
  datatype TableObject = TableObject(manifestBlocks: nat, sortKeyZm: Option<ZoneMap>, blocks: seq<ScanUnit>)

  // ----- what is queued -----

  function AllBlocks(obj: nat, n: nat): (r: seq<WorkUnit>)
    ensures |r| == n
  {
    seq(n, b requires b >= 0 => WorkUnit(obj, b))
  }

  /** Those of an object's first `n` blocks that its zone maps keep. */
  function KeptBlocks(filters: seq<PushedFilter>, obj: nat, o: TableObject, n: nat): (r: seq<WorkUnit>)
    requires AllWellFormed(filters) && n <= |o.blocks|
    ensures |r| <= n && forall i :: 0 <= i < |r| ==> r[i].obj == obj && r[i].blk < n
  {
    if n == 0 then []
    else
      KeptBlocks(filters, obj, o, n - 1) +
      if BlockPassesFilters(filters, o.blocks[n - 1].zms) then [WorkUnit(obj, n - 1)] else []
  }

  /** The manifest's sort-key zone map rules the whole object out. */
  predicate RuledOut(filters: seq<PushedFilter>, o: TableObject, sortSeqnum: nat)
    requires AllWellFormed(filters)
  {
    o.sortKeyZm.Some? && sortSeqnum != NO_SORT_COLUMN && !ZoneMapPassesFilters(filters, o.sortKeyZm.value, sortSeqnum)
  }

  function ObjectQueue(filters: seq<PushedFilter>, obj: nat, o: TableObject, sortSeqnum: nat): seq<WorkUnit>
    requires AllWellFormed(filters)
  {
    if filters == [] then AllBlocks(obj, o.manifestBlocks)
    else if RuledOut(filters, o, sortSeqnum) then []
    else KeptBlocks(filters, obj, o, |o.blocks|)
  }

  /** The queue after the first `n` objects. */
  function Queue(filters: seq<PushedFilter>, objs: seq<TableObject>, sortSeqnum: nat, n: nat): seq<WorkUnit>
    requires AllWellFormed(filters) && n <= |objs|
  {
    if n == 0 then []
    else Queue(filters, objs, sortSeqnum, n - 1) + ObjectQueue(filters, n - 1, objs[n - 1], sortSeqnum)
  }

  /** One object of two blocks. */
  lemma TwoBlockQueue(t: seq<TableObject>, sortSeqnum: nat)
    requires |t| == 1 && t[0].manifestBlocks == 2
    ensures Queue([], t, sortSeqnum, 1) == [WorkUnit(0, 0), WorkUnit(0, 1)]
  {
    assert Queue([], t, sortSeqnum, 0) == [];
    assert AllBlocks(0, 2) == [WorkUnit(0, 0), WorkUnit(0, 1)];
  }

  /** Blocks of the first `n` objects, each object counted by what was consulted: the
      file when its metadata was read, else the manifest. */
  function BlocksSeen(filters: seq<PushedFilter>, objs: seq<TableObject>, sortSeqnum: nat, n: nat): nat
    requires AllWellFormed(filters) && n <= |objs|
  {
    if n == 0 then 0
    else
      var o := objs[n - 1];
      BlocksSeen(filters, objs, sortSeqnum, n - 1) +
      if filters == [] || RuledOut(filters, o, sortSeqnum) then o.manifestBlocks else |o.blocks|
  }

  /** Objects among the first `n` that contribute nothing to the queue. */
  function WithoutWork(filters: seq<PushedFilter>, objs: seq<TableObject>, sortSeqnum: nat, n: nat): nat
    requires AllWellFormed(filters) && n <= |objs|
  {
    if n == 0 then 0
    else
      WithoutWork(filters, objs, sortSeqnum, n - 1) +
      if filters != [] && ObjectQueue(filters, n - 1, objs[n - 1], sortSeqnum) == [] then 1 else 0
  }

  class QueueBuilder {
    var workUnits: seq<WorkUnit>
    var blocksSkipped: nat
    var objectsSkipped: nat

    constructor ()
      ensures workUnits == [] && blocksSkipped == objectsSkipped == 0
    {
      workUnits, blocksSkipped, objectsSkipped := [], 0, 0;
    }

    /** Every block seen is either queued or counted as skipped. */
    method Build(filters: seq<PushedFilter>, objs: seq<TableObject>, sortSeqnum: nat)
      requires AllWellFormed(filters) && workUnits == [] && blocksSkipped == objectsSkipped == 0
      modifies this
      ensures workUnits == Queue(filters, objs, sortSeqnum, |objs|)
      ensures |workUnits| + blocksSkipped == BlocksSeen(filters, objs, sortSeqnum, |objs|)
      ensures objectsSkipped == WithoutWork(filters, objs, sortSeqnum, |objs|)
    {
      for obj := 0 to |objs|
        invariant workUnits == Queue(filters, objs, sortSeqnum, obj)
        invariant |workUnits| + blocksSkipped == BlocksSeen(filters, objs, sortSeqnum, obj)
        invariant objectsSkipped == WithoutWork(filters, objs, sortSeqnum, obj)
      {
        if filters != [] {
          AddFiltered(filters, obj, objs[obj], sortSeqnum);
        } else {
          AddAll(obj, objs[obj]);
        }
      }
    }

    method AddAll(obj: nat, o: TableObject)
      modifies this`workUnits
      ensures workUnits == old(workUnits) + AllBlocks(obj, o.manifestBlocks)
    {
      ghost var before := workUnits;
      assert before + [] == before;
      for blk := 0 to o.manifestBlocks
        invariant workUnits == before + AllBlocks(obj, blk)
      {
        workUnits := workUnits + [WorkUnit(obj, blk)];
        assert AllBlocks(obj, blk + 1) == AllBlocks(obj, blk) + [WorkUnit(obj, blk)];
      }
    }

    method AddFiltered(filters: seq<PushedFilter>, obj: nat, o: TableObject, sortSeqnum: nat)
      requires AllWellFormed(filters) && filters != []
      modifies this
      ensures workUnits == old(workUnits) + ObjectQueue(filters, obj, o, sortSeqnum)
      ensures |workUnits| + blocksSkipped == old(|workUnits| + blocksSkipped) +
              if RuledOut(filters, o, sortSeqnum) then o.manifestBlocks else |o.blocks|
      ensures objectsSkipped == old(objectsSkipped) + if ObjectQueue(filters, obj, o, sortSeqnum) == [] then 1 else 0
    {
      hide BlockPassesFilters;
      hide ZoneMapPassesFilters;
      if o.sortKeyZm.Some? && sortSeqnum != NO_SORT_COLUMN {
        if !ZoneMapPassesFilters(filters, o.sortKeyZm.value, sortSeqnum) {
          blocksSkipped := blocksSkipped + o.manifestBlocks;
          objectsSkipped := objectsSkipped + 1;
          return;
        }
      }
      var anyBlockPasses := false;
      ghost var before := workUnits;
      assert before + [] == before;
      for blk := 0 to |o.blocks|
        invariant workUnits == before + KeptBlocks(filters, obj, o, blk)
        invariant |workUnits| + blocksSkipped == old(|workUnits| + blocksSkipped) + blk
        invariant objectsSkipped == old(objectsSkipped)
        invariant anyBlockPasses <==> KeptBlocks(filters, obj, o, blk) != []
      {
        if BlockPassesFilters(filters, o.blocks[blk].zms) {
          Assoc(before, KeptBlocks(filters, obj, o, blk), [WorkUnit(obj, blk)]);
          workUnits := workUnits + [WorkUnit(obj, blk)];
          anyBlockPasses := true;
        } else {
          blocksSkipped := blocksSkipped + 1;
        }
      }
      if !anyBlockPasses {
        objectsSkipped := objectsSkipped + 1;
      }
    }
  }

  // ----- pruning loses nothing -----

  /** The filter tests one of the unit's columns, of its own type. */
  predicate FilterFits(f: PushedFilter, u: ScanUnit)
  {
    WellFormed(f) && f.colIdx < |u.cols| && (u.Total() > 0 ==> u.cols[f.colIdx].mtype.oid == f.oid)
  }

  /** A zone map that speaks for every row of the column a filter tests, unless the row is
      null or the filter tests nulls. */
  ghost predicate SpeaksFor(z: ZoneMap, f: PushedFilter, u: ScanUnit)
    requires FilterFits(f, u)
  {
    TestsNulls(f.op) ||
    (!TruncationHazard(f, z) && forall row :: 0 <= row < u.Total() ==> DescribesOrNull(z, u.cols[f.colIdx], row))
  }

  ghost predicate DescribesOrNull(z: ZoneMap, col: DecodedColumn, row: nat)
  {
    FilterSeesNull(col, row) || (RowOk(col, row) && Describes(z, col, row))
  }

  /** The block's own zone maps speak for its columns. */
  ghost predicate Described(filters: seq<PushedFilter>, u: ScanUnit)
  {
    forall f :: f in filters ==> FilterFits(f, u) && (f.seqnum < |u.zms| ==> SpeaksFor(u.zms[f.seqnum], f, u))
  }

  /** The manifest's zone map speaks for the sort column of every block. */
  ghost predicate ManifestDescribed(filters: seq<PushedFilter>, o: TableObject, sortSeqnum: nat)
  {
    o.sortKeyZm.Some? ==>
      forall f, b :: f in filters && f.seqnum == sortSeqnum && 0 <= b < |o.blocks| ==>
        FilterFits(f, o.blocks[b]) && SpeaksFor(o.sortKeyZm.value, f, o.blocks[b])
  }

  ghost predicate ObjectDescribed(filters: seq<PushedFilter>, o: TableObject, sortSeqnum: nat)
  {
    && o.manifestBlocks == |o.blocks|
    && (forall b :: 0 <= b < |o.blocks| ==> Described(filters, o.blocks[b]))
    && ManifestDescribed(filters, o, sortSeqnum)
  }

  lemma FilterKeeps(f: PushedFilter, z: ZoneMap, u: ScanUnit, row: nat)
    requires FilterFits(f, u) && SpeaksFor(z, f, u) && row < u.Total() && FilterPasses(f, u.cols, row)
    ensures EvalOnZoneMap(f, Some(z))
  {
    if !TestsNulls(f.op) {
      assert DescribesOrNull(z, u.cols[f.colIdx], row);
      FilterPruneSound(f, z, u.cols[f.colIdx], row);
    }
  }

  /** A block with a passing row is kept. */
  lemma BlockPruneSound(filters: seq<PushedFilter>, u: ScanUnit, row: nat)
    requires AllWellFormed(filters) && Described(filters, u)
    requires row < u.Total() && RowPasses(filters, u.cols, row)
    ensures BlockPassesFilters(filters, u.zms)
  {
    forall f | f in filters ensures EvalOnZoneMap(f, GetZoneMap(u.zms, f.seqnum)) {
      assert FilterPasses(f, u.cols, row);
      if f.seqnum < |u.zms| { FilterKeeps(f, u.zms[f.seqnum], u, row); }
    }
  }

  /** An object with a passing row is not ruled out by the manifest's zone map. */
  lemma ObjectPruneSound(filters: seq<PushedFilter>, o: TableObject, sortSeqnum: nat, b: nat, row: nat)
    requires AllWellFormed(filters) && ManifestDescribed(filters, o, sortSeqnum) && b < |o.blocks|
    requires row < o.blocks[b].Total() && RowPasses(filters, o.blocks[b].cols, row)
    ensures !RuledOut(filters, o, sortSeqnum)
  {
    if o.sortKeyZm.Some? {
      forall f | f in filters && f.seqnum == sortSeqnum ensures EvalOnZoneMap(f, o.sortKeyZm) {
        assert FilterPasses(f, o.blocks[b].cols, row);
        FilterKeeps(f, o.sortKeyZm.value, o.blocks[b], row);
      }
    }
  }

  // ----- the queue yields the table's rows -----

  /** The passing rows of a block, its zone maps not consulted. */
  function BlockRows(filters: seq<PushedFilter>, u: ScanUnit): seq<RowId>
    requires AllWellFormed(filters)
  {
    RowsOf(PlanOf(filters, u), 0, u.Total())
  }

  function ObjectRows(filters: seq<PushedFilter>, o: TableObject, n: nat): seq<RowId>
    requires AllWellFormed(filters) && n <= |o.blocks|
  {
    if n == 0 then [] else ObjectRows(filters, o, n - 1) + BlockRows(filters, o.blocks[n - 1])
  }

  /** The simple answer: read every row of every block of the first `n` objects, then filter. */
  function TableRows(filters: seq<PushedFilter>, objs: seq<TableObject>, n: nat): seq<RowId>
    requires AllWellFormed(filters) && n <= |objs|
  {
    if n == 0 then [] else TableRows(filters, objs, n - 1) + ObjectRows(filters, objs[n - 1], |objs[n - 1].blocks|)
  }

  predicate InTable(objs: seq<TableObject>, queue: seq<WorkUnit>)
  {
    forall i :: 0 <= i < |queue| ==> queue[i].obj < |objs| && queue[i].blk < |objs[queue[i].obj].blocks|
  }

  function UnitsFor(objs: seq<TableObject>, queue: seq<WorkUnit>): (units: seq<ScanUnit>)
    requires InTable(objs, queue)
    ensures |units| == |queue|
  {
    seq(|queue|, i requires 0 <= i < |queue| => objs[queue[i].obj].blocks[queue[i].blk])
  }

  /** What a scan of these units produces, in queue order. */
  function Yield(filters: seq<PushedFilter>, units: seq<ScanUnit>): seq<RowId>
    requires AllWellFormed(filters)
  {
    Unclaimed(PlansOf(filters, units), 0)
  }

  lemma {:induction false} UnclaimedOfBoth(a: seq<UnitPlan>, b: seq<UnitPlan>, k: nat)
    requires k <= |a|
    ensures Unclaimed(a + b, k) == Unclaimed(a, k) + Unclaimed(b, 0)
    decreases |a| - k
  {
    if k < |a| {
      UnclaimedOfBoth(a, b, k + 1);
      Assoc(Work(a[k]), Unclaimed(a, k + 1), Unclaimed(b, 0));
    } else {
      UnclaimedShift(a, b, 0);
    }
  }

  lemma {:induction false} UnclaimedShift(a: seq<UnitPlan>, b: seq<UnitPlan>, k: nat)
    requires k <= |b|
    ensures Unclaimed(a + b, |a| + k) == Unclaimed(b, k)
    decreases |b| - k
  {
    hide Work;
    if k < |b| {
      UnclaimedShift(a, b, k + 1);
      assert (a + b)[|a| + k] == b[k];
    }
  }

  lemma YieldOfBoth(filters: seq<PushedFilter>, a: seq<ScanUnit>, b: seq<ScanUnit>)
    requires AllWellFormed(filters)
    ensures Yield(filters, a + b) == Yield(filters, a) + Yield(filters, b)
  {
    hide PlanOf;
    assert PlansOf(filters, a + b) == PlansOf(filters, a) + PlansOf(filters, b);
    UnclaimedOfBoth(PlansOf(filters, a), PlansOf(filters, b), 0);
  }

  lemma YieldOfOne(filters: seq<PushedFilter>, u: ScanUnit)
    requires AllWellFormed(filters)
    ensures Yield(filters, [u]) == Work(PlanOf(filters, u))
  {
    hide PlanOf;
    hide Work;
    var plans := PlansOf(filters, [u]);
    assert plans == [PlanOf(filters, u)];
    assert Unclaimed(plans, 0) == Work(plans[0]) + Unclaimed(plans, 1);
  }

  lemma NothingSelected(filters: seq<PushedFilter>, u: ScanUnit)
    requires AllWellFormed(filters)
    requires forall row :: 0 <= row < u.Total() ==> !RowPasses(filters, u.cols, row)
    ensures BlockRows(filters, u) == []
  {
    FirstIsMember(Selected(Passer(filters, u.cols), 0, u.Total()));
  }

  /** A skipped block has no passing row, so scanning or skipping it is the same. */
  lemma WorkIsRows(filters: seq<PushedFilter>, u: ScanUnit)
    requires AllWellFormed(filters) && Described(filters, u)
    ensures Work(PlanOf(filters, u)) == BlockRows(filters, u)
  {
    if !BlockPassesFilters(filters, u.zms) {
      forall row | 0 <= row < u.Total() ensures !RowPasses(filters, u.cols, row) {
        if RowPasses(filters, u.cols, row) { BlockPruneSound(filters, u, row); }
      }
      NothingSelected(filters, u);
    }
  }

  lemma {:induction false} KeptYield(filters: seq<PushedFilter>, objs: seq<TableObject>, obj: nat, n: nat)
    requires AllWellFormed(filters) && obj < |objs| && n <= |objs[obj].blocks|
    requires forall b :: 0 <= b < n ==> Described(filters, objs[obj].blocks[b])
    ensures var q := KeptBlocks(filters, obj, objs[obj], n);
      InTable(objs, q) && Yield(filters, UnitsFor(objs, q)) == ObjectRows(filters, objs[obj], n)
  {
    hide Described;
    hide BlockRows;
    hide Yield;
    hide PlanOf;
    hide BlockPassesFilters;
    if n == 0 {
      YieldOfNone(filters);
    } else {
      KeptYield(filters, objs, obj, n - 1);
      var q, u := KeptBlocks(filters, obj, objs[obj], n - 1), objs[obj].blocks[n - 1];
      WorkIsRows(filters, u);
      if BlockPassesFilters(filters, u.zms) {
        assert UnitsFor(objs, q + [WorkUnit(obj, n - 1)]) == UnitsFor(objs, q) + [u];
        YieldOfBoth(filters, UnitsFor(objs, q), [u]);
        YieldOfOne(filters, u);
      } else {
        SkippedWork(filters, u);
        assert q + [] == q;
        assert ObjectRows(filters, objs[obj], n - 1) + [] == ObjectRows(filters, objs[obj], n - 1);
      }
    }
  }

  lemma YieldOfNone(filters: seq<PushedFilter>)
    requires AllWellFormed(filters)
    ensures Yield(filters, []) == []
  {
  }

  lemma SkippedWork(filters: seq<PushedFilter>, u: ScanUnit)
    requires AllWellFormed(filters) && !BlockPassesFilters(filters, u.zms)
    ensures Work(PlanOf(filters, u)) == []
  {
  }

  lemma {:induction false} RuledOutYieldsNothing(filters: seq<PushedFilter>, o: TableObject, sortSeqnum: nat, n: nat)
    requires AllWellFormed(filters) && ManifestDescribed(filters, o, sortSeqnum) && n <= |o.blocks|
    requires RuledOut(filters, o, sortSeqnum)
    ensures ObjectRows(filters, o, n) == []
  {
    hide RuledOut;
    hide ManifestDescribed;
    hide RowPasses;
    hide BlockRows;
    if n > 0 {
      RuledOutYieldsNothing(filters, o, sortSeqnum, n - 1);
      var u := o.blocks[n - 1];
      forall row | 0 <= row < u.Total() ensures !RowPasses(filters, u.cols, row) {
        if RowPasses(filters, u.cols, row) { ObjectPruneSound(filters, o, sortSeqnum, n - 1, row); }
      }
      NothingSelected(filters, u);
    }
  }

  lemma {:induction false} NoFiltersKeepAll(obj: nat, o: TableObject, n: nat)
    requires n <= |o.blocks|
    ensures KeptBlocks([], obj, o, n) == AllBlocks(obj, n)
  {
    if n > 0 { NoFiltersKeepAll(obj, o, n - 1); }
  }

  lemma ObjectYield(filters: seq<PushedFilter>, objs: seq<TableObject>, sortSeqnum: nat, obj: nat)
    requires AllWellFormed(filters) && obj < |objs| && ObjectDescribed(filters, objs[obj], sortSeqnum)
    ensures var q := ObjectQueue(filters, obj, objs[obj], sortSeqnum);
      InTable(objs, q) && Yield(filters, UnitsFor(objs, q)) == ObjectRows(filters, objs[obj], |objs[obj].blocks|)
  {
    hide Described;
    hide Yield;
    hide ManifestDescribed;
    hide ObjectRows;
    hide RuledOut;
    var o := objs[obj];
    KeptYield(filters, objs, obj, |o.blocks|);
    if filters == [] {
      NoFiltersKeepAll(obj, o, |o.blocks|);
    } else if RuledOut(filters, o, sortSeqnum) {
      RuledOutYieldsNothing(filters, o, sortSeqnum, |o.blocks|);
      YieldOfNone(filters);
    }
  }

  /** Scanning the queue yields, in order, exactly the rows that reading and filtering
      every block yields: object and block pruning change nothing. */
  lemma {:induction false} QueueYieldsTable(filters: seq<PushedFilter>, objs: seq<TableObject>, sortSeqnum: nat, n: nat)
    requires AllWellFormed(filters) && n <= |objs|
    requires forall k :: 0 <= k < n ==> ObjectDescribed(filters, objs[k], sortSeqnum)
    ensures var q := Queue(filters, objs, sortSeqnum, n);
      InTable(objs, q) && Yield(filters, UnitsFor(objs, q)) == TableRows(filters, objs, n)
  {
    hide ObjectDescribed;
    hide ObjectQueue;
    hide ObjectRows;
    hide Yield;
    if n == 0 {
      YieldOfNone(filters);
    } else {
      QueueYieldsTable(filters, objs, sortSeqnum, n - 1);
      ObjectYield(filters, objs, sortSeqnum, n - 1);
      var a, b := Queue(filters, objs, sortSeqnum, n - 1), ObjectQueue(filters, n - 1, objs[n - 1], sortSeqnum);
      assert UnitsFor(objs, a + b) == UnitsFor(objs, a) + UnitsFor(objs, b);
      YieldOfBoth(filters, UnitsFor(objs, a), UnitsFor(objs, b));
    }
  }

  // ----- block accounting -----

  /** The manifest's block total. */
  function ManifestBlocks(objs: seq<TableObject>, n: nat): nat
    requires n <= |objs|
  {
    if n == 0 then 0 else ManifestBlocks(objs, n - 1) + objs[n - 1].manifestBlocks
  }

  /** When manifest and files agree on block counts, queued and skipped blocks together
      are the table's. */
  lemma {:induction false} SeenIsManifest(filters: seq<PushedFilter>, objs: seq<TableObject>, sortSeqnum: nat, n: nat)
    requires AllWellFormed(filters) && n <= |objs|
    requires forall k :: 0 <= k < n ==> objs[k].manifestBlocks == |objs[k].blocks|
    ensures BlocksSeen(filters, objs, sortSeqnum, n) == ManifestBlocks(objs, n)
  {
    if n > 0 { SeenIsManifest(filters, objs, sortSeqnum, n - 1); }
  }
}
