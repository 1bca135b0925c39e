/** Queries that read no stored column and have no filter: exactly when the metadata-only
    path, which opens no file, emits their rows, and what it reports as progress. */
module MetadataAnswer {
  import opened Bytes
  import opened ScanMachine
  import opened MetadataScan
  import opened Scanner
  import opened WorkQueue
  import opened ColumnMap
  import opened ScanAnswer

  /** The manifest's entries for the table's objects. */
  predicate ManifestFits(manifest: seq<ManifestObject>, objs: seq<StoredObject>)
  {
    AllValid(manifest) && |manifest| == |objs| && forall k :: 0 <= k < |objs| ==> manifest[k].blocks == objs[k].manifestBlocks
  }

  /** The block's rows by its own file. */
  function FileRows(objs: seq<StoredObject>, w: WorkUnit): nat
    requires InObjects(objs, w)
  {
    objs[w.obj].blocks[w.blk].rows
  }

  // ----- the queue names every block once -----

  lemma {:induction false} BlocksOnce(obj: nat, n: nat, w: WorkUnit)
    ensures multiset(AllBlocks(obj, n))[w] == Once(w.obj == obj && w.blk < n)
  {
    if n > 0 {
      BlocksOnce(obj, n - 1, w);
      assert AllBlocks(obj, n) == AllBlocks(obj, n - 1) + [WorkUnit(obj, n - 1)];
    }
  }

  lemma {:induction false} QueueOnce(objs: seq<TableObject>, sortSeqnum: nat, n: nat, w: WorkUnit)
    requires n <= |objs|
    ensures multiset(Queue([], objs, sortSeqnum, n))[w] == Once(w.obj < n && w.blk < objs[w.obj].manifestBlocks)
  {
    hide AllBlocks;
    if n > 0 {
      QueueOnce(objs, sortSeqnum, n - 1, w);
      BlocksOnce(n - 1, objs[n - 1].manifestBlocks, w);
      OneMoreObject(objs, sortSeqnum, n);
      hide Queue;
      MultisetOfBoth(Queue([], objs, sortSeqnum, n - 1), AllBlocks(n - 1, objs[n - 1].manifestBlocks));
    }
  }

  lemma OneMoreObject(objs: seq<TableObject>, sortSeqnum: nat, n: nat)
    requires 0 < n <= |objs|
    ensures Queue([], objs, sortSeqnum, n) == Queue([], objs, sortSeqnum, n - 1) + AllBlocks(n - 1, objs[n - 1].manifestBlocks)
  {
    hide AllBlocks;
  }

  predicate Distinct(order: seq<WorkUnit>) { forall i, j :: 0 <= i < j < |order| ==> order[i] != order[j] }

  lemma OnceIsDistinct(s: seq<WorkUnit>)
    requires forall w :: multiset(s)[w] <= 1
    ensures Distinct(s)
  {
    forall i, j | 0 <= i < j < |s| ensures s[i] != s[j] {
      assert s == s[..j] + s[j..];
      assert multiset(s) == multiset(s[..j]) + multiset(s[j..]);
      assert s[..j][i] == s[i] && s[j..][0] == s[j];
      assert s[i] in multiset(s[..j]) && s[j] in multiset(s[j..]);
      assert multiset(s)[s[i]] <= 1;
    }
  }

  /** Any order of the queue of an unfiltered query names every block of the table once. */
  lemma OrderIsTable(q: Query, objs: seq<StoredObject>, order: seq<WorkUnit>)
    requires q.Valid() && q.Filters() == [] && TableSound(q, objs) && IsQueueOrder(q, objs, order)
    ensures Distinct(order) && forall w :: w in order <==> InObjects(objs, w)
  {
    forall w ensures multiset(order)[w] == Once(InObjects(objs, w)) {
      QueueOnce(DeliveredTable(q, objs), q.sortSeqnum, |objs|, w);
      if w.obj < |objs| { assert ObjectSound(q, objs[w.obj]); }
    }
    OnceIsDistinct(order);
    forall w ensures w in order <==> InObjects(objs, w) {
      assert w in order <==> w in multiset(order);
    }
  }

  lemma CountsAreKnown(q: Query, objs: seq<StoredObject>, manifest: seq<ManifestObject>, order: seq<WorkUnit>)
    requires q.Valid() && q.Filters() == [] && TableSound(q, objs) && IsQueueOrder(q, objs, order) && ManifestFits(manifest, objs)
    ensures CountsKnown(manifest, order)
  {
    OrderIsTable(q, objs, order);
    forall i | 0 <= i < |order| ensures order[i].obj < |manifest| { assert order[i] in order; }
  }

  // ----- rows of counted units -----

  predicate HasRow(u: UnitPlan, r: RowId) { r.obj == u.obj && r.blk == u.blk && r.row < u.total }

  predicate DistinctUnits(units: seq<UnitPlan>)
  {
    forall i, j :: 0 <= i < j < |units| ==> units[i].obj != units[j].obj || units[i].blk != units[j].blk
  }

  predicate SomeHasRow(units: seq<UnitPlan>, k: nat, r: RowId)
  {
    exists i :: k <= i < |units| && HasRow(units[i], r)
  }

  lemma {:induction false} RowOnce(units: seq<UnitPlan>, k: nat, r: RowId)
    requires AllCounted(units) && DistinctUnits(units) && k <= |units|
    ensures multiset(Unclaimed(units, k))[r] == Once(SomeHasRow(units, k, r))
    decreases |units| - k
  {
    hide RowsOf;
    if k < |units| {
      RowOnce(units, k + 1, r);
      RowsCounted(units[k], units[k].total, r);
      assert units[k].passes(r.row);
      MultisetOfBoth(Work(units[k]), Unclaimed(units, k + 1));
      assert SomeHasRow(units, k, r) <==> HasRow(units[k], r) || SomeHasRow(units, k + 1, r);
    }
  }

  /** The row is emitted: its block's unit is among the first `n`, and counts it. */
  predicate CountsRow(plans: seq<UnitPlan>, n: nat, r: RowId)
    requires n <= |plans|
  {
    exists i :: 0 <= i < n && HasRow(plans[i], r)
  }

  lemma EmittedOnce(plans: seq<UnitPlan>, threads: nat, calls: seq<nat>, r: RowId)
    requires AllCounted(plans) && DistinctUnits(plans) && IsSchedule(calls, threads)
    requires AllTold(FastRun(plans, threads, calls, |calls|))
    ensures multiset(FastRun(plans, threads, calls, |calls|).emitted)[r] == Once(CountsRow(plans, Reached(plans, threads, 0), r))
  {
    hide *;
    var n := Reached(plans, threads, 0);
    FastRunEnds(plans, threads, calls);
    PrefixCounts(plans, n, r);
    RowOnce(plans[..n], 0, r);
  }

  lemma PrefixCounts(plans: seq<UnitPlan>, n: nat, r: RowId)
    requires AllCounted(plans) && DistinctUnits(plans) && n <= |plans|
    ensures AllCounted(plans[..n]) && DistinctUnits(plans[..n])
    ensures SomeHasRow(plans[..n], 0, r) <==> CountsRow(plans, n, r)
  {
    hide HasRow;
    if CountsRow(plans, n, r) {
      var i :| 0 <= i < n && HasRow(plans[i], r);
      assert HasRow(plans[..n][i], r);
    }
  }

  // ----- the answer of such a query -----

  /** Every row of the table matches. */
  lemma EveryRowMatches(q: Query, objs: seq<StoredObject>, r: RowId)
    requires q.Valid() && !q.ReadsFiles()
    ensures InAnswer(q, objs, r) <==> InObjects(objs, WorkUnit(r.obj, r.blk)) && r.row < FileRows(objs, WorkUnit(r.obj, r.blk))
  {
    if InObjects(objs, WorkUnit(r.obj, r.blk)) {
      var b := objs[r.obj].blocks[r.blk];
      forall i | 0 <= i < |q.entries| ensures EntryTrue(q.schema, q.columnIds, q.entries[i], b.columns, r.row) {
        NoneApplies(q, q.entries[i]);
      }
    }
  }

  lemma NoneApplies(q: Query, e: FilterEntry)
    requires q.Valid() && q.ReadOrder() == []
    ensures !Applies(q.schema, q.columnIds, e)
  {
    if Applies(q.schema, q.columnIds, e) {
      DecodedPosition(q.schema, q.columnIds, e.pos, |q.columnIds|);
      assert false;
    }
  }

  /** Every block before position `n` has the manifest's count of rows, every later one none. */
  predicate CountsMatch(objs: seq<StoredObject>, order: seq<WorkUnit>, plans: seq<UnitPlan>, n: nat)
    requires |plans| == |order| && forall i :: 0 <= i < |order| ==> InObjects(objs, order[i])
  {
    forall i :: 0 <= i < |order| ==> FileRows(objs, order[i]) == if i < n then plans[i].total else 0
  }

  /** Unit `i` stands for work unit `i`. */
  predicate NamesUnits(order: seq<WorkUnit>, plans: seq<UnitPlan>)
  {
    |plans| == |order| && forall i :: 0 <= i < |plans| ==> plans[i].obj == order[i].obj && plans[i].blk == order[i].blk
  }

  lemma CountsAnswer(objs: seq<StoredObject>, order: seq<WorkUnit>, plans: seq<UnitPlan>, n: nat)
    requires NamesUnits(order, plans) && Distinct(order) && (forall w :: w in order <==> InObjects(objs, w)) && n <= |plans|
    ensures forall i :: 0 <= i < |order| ==> InObjects(objs, order[i])
    ensures (forall r: RowId :: CountsRow(plans, n, r) <==>
               InObjects(objs, WorkUnit(r.obj, r.blk)) && r.row < FileRows(objs, WorkUnit(r.obj, r.blk))) <==>
            CountsMatch(objs, order, plans, n)
  {
    forall i | 0 <= i < |order| ensures InObjects(objs, order[i]) { assert order[i] in order; }
    if CountsMatch(objs, order, plans, n) {
      forall r: RowId ensures CountsRow(plans, n, r) <==>
        InObjects(objs, WorkUnit(r.obj, r.blk)) && r.row < FileRows(objs, WorkUnit(r.obj, r.blk))
      {
        CountedIsNamed(order, plans, n, r);
        if WorkUnit(r.obj, r.blk) in order {
          var i :| 0 <= i < |order| && order[i] == WorkUnit(r.obj, r.blk);
          CountedAt(order, plans, n, i, r);
        }
      }
    } else {
      var i :| 0 <= i < |order| && FileRows(objs, order[i]) != if i < n then plans[i].total else 0;
      var rows, counted := FileRows(objs, order[i]), if i < n then plans[i].total else 0;
      var r := RowId(order[i].obj, order[i].blk, Min(rows, counted));
      CountedAt(order, plans, n, i, r);
      SameUnit(order[i], r);
    }
  }

  lemma CountedIsNamed(order: seq<WorkUnit>, plans: seq<UnitPlan>, n: nat, r: RowId)
    requires NamesUnits(order, plans) && n <= |plans|
    ensures CountsRow(plans, n, r) ==> WorkUnit(r.obj, r.blk) in order
  {
    if CountsRow(plans, n, r) {
      var i :| 0 <= i < n && HasRow(plans[i], r);
      assert order[i] == WorkUnit(r.obj, r.blk);
    }
  }

  lemma SameUnit(w: WorkUnit, r: RowId)
    requires w.obj == r.obj && w.blk == r.blk
    ensures WorkUnit(r.obj, r.blk) == w
  {
  }

  lemma CountedAt(order: seq<WorkUnit>, plans: seq<UnitPlan>, n: nat, i: nat, r: RowId)
    requires NamesUnits(order, plans) && Distinct(order) && n <= |plans| && i < |order| && order[i] == WorkUnit(r.obj, r.blk)
    ensures CountsRow(plans, n, r) <==> r.row < if i < n then plans[i].total else 0
  {
    if i < n && r.row < plans[i].total { assert HasRow(plans[i], r); }
    if CountsRow(plans, n, r) {
      var j :| 0 <= j < n && HasRow(plans[j], r);
      assert order[j] == order[i];
    }
  }

  /** The rows emitted are the query's. */
  ghost predicate EmitsAnswer(q: Query, objs: seq<StoredObject>, emitted: seq<RowId>)
    requires q.Valid()
  {
    forall r :: multiset(emitted)[r] == Once(InAnswer(q, objs, r))
  }

  /** A query that reads no file, over any order of the queue, any threads and any
      interleaving of calls: once every thread has been told "0 rows", its answer has been
      emitted exactly when every block before the `threads`-th empty count has the
      manifest's count of rows, and every other block none. When no count is zero, that is
      when every block has the manifest's count of rows. */
  lemma MetadataAnswerExact(q: Query, objs: seq<StoredObject>, manifest: seq<ManifestObject>, order: seq<WorkUnit>,
                            plans: seq<UnitPlan>, threads: nat, calls: seq<nat>)
    requires q.Valid() && !q.ReadsFiles() && TableSound(q, objs) && IsQueueOrder(q, objs, order) && ManifestFits(manifest, objs)
    requires CountsKnown(manifest, order) && plans == CountedPlans(manifest, order) && threads > 0 && IsSchedule(calls, threads)
    ensures forall i :: 0 <= i < |order| ==> InObjects(objs, order[i])
    ensures AllTold(FastRun(plans, threads, calls, |calls|)) ==>
      (EmitsAnswer(q, objs, FastRun(plans, threads, calls, |calls|).emitted) <==>
       CountsMatch(objs, order, plans, Reached(plans, threads, 0)))
    ensures AllPositive(plans) ==>
      (CountsMatch(objs, order, plans, Reached(plans, threads, 0)) <==>
       forall i :: 0 <= i < |order| ==> FileRows(objs, order[i]) == plans[i].total)
  {
    var n := Reached(plans, threads, 0);
    OrderIsTable(q, objs, order);
    PlansAreNamed(manifest, order);
    CountsAnswer(objs, order, plans, n);
    if AllPositive(plans) { PositiveIsReached(plans, threads, 0); }
    hide *;
    if AllTold(FastRun(plans, threads, calls, |calls|)) {
      RowsEmitted(q, objs, order, plans, threads, calls);
    }
  }

  lemma PlansAreNamed(manifest: seq<ManifestObject>, order: seq<WorkUnit>)
    requires CountsKnown(manifest, order)
    ensures NamesUnits(order, CountedPlans(manifest, order))
    ensures Distinct(order) ==> DistinctUnits(CountedPlans(manifest, order))
  {
  }

  lemma RowsEmitted(q: Query, objs: seq<StoredObject>, order: seq<WorkUnit>, plans: seq<UnitPlan>, threads: nat, calls: seq<nat>)
    requires q.Valid() && !q.ReadsFiles() && AllCounted(plans) && DistinctUnits(plans) && IsSchedule(calls, threads)
    requires AllTold(FastRun(plans, threads, calls, |calls|))
    ensures EmitsAnswer(q, objs, FastRun(plans, threads, calls, |calls|).emitted) <==>
            forall r: RowId :: CountsRow(plans, Reached(plans, threads, 0), r) <==>
              InObjects(objs, WorkUnit(r.obj, r.blk)) && r.row < FileRows(objs, WorkUnit(r.obj, r.blk))
  {
    var n, emitted := Reached(plans, threads, 0), FastRun(plans, threads, calls, |calls|).emitted;
    forall r: RowId
      ensures multiset(emitted)[r] == Once(CountsRow(plans, n, r))
      ensures InAnswer(q, objs, r) <==> InObjects(objs, WorkUnit(r.obj, r.blk)) && r.row < FileRows(objs, WorkUnit(r.obj, r.blk))
    {
      EmittedOnce(plans, threads, calls, r);
      EveryRowMatches(q, objs, r);
    }
    hide CountsRow;
    hide InAnswer;
    hide FastRun;
    hide Reached;
    hide InObjects;
    if EmitsAnswer(q, objs, emitted) {
      forall r: RowId ensures CountsRow(plans, n, r) <==> InAnswer(q, objs, r) {
        assert multiset(emitted)[r] == Once(InAnswer(q, objs, r));
      }
    }
  }

  // ----- progress -----

  /** On this path progress stays 0 to the end, unless there are no blocks: it is 100 if and
      only if the table has none. */
  lemma MetadataProgress(q: Query, objs: seq<StoredObject>, manifest: seq<ManifestObject>, order: seq<WorkUnit>,
                         plans: seq<UnitPlan>, skippedAtInit: nat, threads: nat, calls: seq<nat>, n: nat)
    requires q.Valid() && !q.ReadsFiles() && TableSound(q, objs) && IsQueueOrder(q, objs, order)
    requires CountsKnown(manifest, order) && plans == CountedPlans(manifest, order)
    requires |order| + skippedAtInit == BlocksSeen(q.Filters(), DeliveredTable(q, objs), q.sortSeqnum, |objs|)
    requires IsSchedule(calls, threads) && n <= |calls|
    ensures var s := FastRun(plans, threads, calls, n); var blocks := ManifestBlocks(DeliveredTable(q, objs), |objs|);
      && |order| + skippedAtInit == blocks && skippedAtInit == 0
      && Progress(s.scanned, s.skipped + skippedAtInit, blocks) == if blocks == 0 then 100.0 else 0.0
  {
    SameBlockCounts(q, objs);
    SeenIsManifest(q.Filters(), DeliveredTable(q, objs), q.sortSeqnum, |objs|);
    QueueLength(DeliveredTable(q, objs), q.sortSeqnum, |objs|);
    assert |order| == |multiset(order)| == |multiset(Queue([], DeliveredTable(q, objs), q.sortSeqnum, |objs|))|;
    hide FastRun;
    NothingCounted(plans, threads, calls, n);
  }

  lemma {:induction false} QueueLength(objs: seq<TableObject>, sortSeqnum: nat, n: nat)
    requires n <= |objs|
    ensures |Queue([], objs, sortSeqnum, n)| == ManifestBlocks(objs, n)
  {
    hide AllBlocks;
    if n > 0 { QueueLength(objs, sortSeqnum, n - 1); }
  }

  // ----- an input -----

  /** An object of 4 rows in blocks of 3 and 1, queried for the block id alone. */
  function UnevenTable(): seq<StoredObject>
  {
    [StoredObject(2, None, [StoredBlock(3, [], []), StoredBlock(1, [], [])])]
  }

  lemma BlockIdQuery() returns (q: Query)
    ensures q.Valid() && !q.ReadsFiles() && q.columnIds == [VCOL_BLOCK_ID] && q.Filters() == []
    ensures TableSound(q, UnevenTable())
    ensures IsQueueOrder(q, UnevenTable(), [WorkUnit(0, 0), WorkUnit(0, 1)])
  {
    q := Query(Schema([], []), [VCOL_BLOCK_ID], [], NO_SORT_COLUMN);
    assert ReadSeqnums(q.schema, q.columnIds, 0) == [];
    assert q.ReadOrder() == [] && q.Filters() == [];
    var objs := UnevenTable();
    assert BlockReadable(q, objs[0].blocks[0]) && BlockReadable(q, objs[0].blocks[1]);
    assert ObjectSound(q, objs[0]);
    TwoBlockQueue(DeliveredTable(q, objs), q.sortSeqnum);
  }

  /** The manifest splits the 4 rows as 2 and 2, so the block ids come out as 0, 0, 1, 1
      instead of 0, 0, 0, 1, and progress is 0 at the end. */
  lemma BlockIdsShift(threads: nat, calls: seq<nat>) returns (q: Query, plans: seq<UnitPlan>)
    requires threads > 0 && IsSchedule(calls, threads)
    ensures q.Valid() && !q.ReadsFiles() && q.columnIds == [VCOL_BLOCK_ID] && TableSound(q, UnevenTable())
    ensures InAnswer(q, UnevenTable(), RowId(0, 0, 2)) && !InAnswer(q, UnevenTable(), RowId(0, 1, 1))
    ensures ManifestFits([ManifestObject(4, 2)], UnevenTable())
    ensures CountsKnown([ManifestObject(4, 2)], [WorkUnit(0, 0), WorkUnit(0, 1)])
    ensures plans == CountedPlans([ManifestObject(4, 2)], [WorkUnit(0, 0), WorkUnit(0, 1)])
    ensures var s := FastRun(plans, threads, calls, |calls|);
      && (AllTold(s) ==> multiset(s.emitted)[RowId(0, 0, 2)] == 0 && multiset(s.emitted)[RowId(0, 1, 1)] == 1)
      && Progress(s.scanned, s.skipped, 2) == 0.0
  {
    q := BlockIdQuery();
    var manifest, order := [ManifestObject(4, 2)], [WorkUnit(0, 0), WorkUnit(0, 1)];
    plans := CountedPlans(manifest, order);
    EveryRowMatches(q, UnevenTable(), RowId(0, 0, 2));
    EveryRowMatches(q, UnevenTable(), RowId(0, 1, 1));
    EvenPlans(plans);
    PositiveIsReached(plans, threads, 0);
    NothingCounted(plans, threads, calls, |calls|);
    hide FastRun;
    hide Reached;
    hide TableSound;
    if AllTold(FastRun(plans, threads, calls, |calls|)) {
      EmittedOnce(plans, threads, calls, RowId(0, 0, 2));
      EmittedOnce(plans, threads, calls, RowId(0, 1, 1));
    }
  }

  lemma EvenPlans(plans: seq<UnitPlan>)
    requires CountsKnown([ManifestObject(4, 2)], [WorkUnit(0, 0), WorkUnit(0, 1)])
    requires plans == CountedPlans([ManifestObject(4, 2)], [WorkUnit(0, 0), WorkUnit(0, 1)])
    ensures AllCounted(plans) && AllPositive(plans) && DistinctUnits(plans) && |plans| == 2
    ensures !CountsRow(plans, 2, RowId(0, 0, 2)) && CountsRow(plans, 2, RowId(0, 1, 1))
  {
    assert plans[0].total == 2 && plans[1].total == 2;
    assert HasRow(plans[1], RowId(0, 1, 1));
  }
}
