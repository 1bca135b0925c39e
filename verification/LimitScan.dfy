/** ORDER BY ... LIMIT over a whole scan: the keys that a scan of the cut queue emits have
    the same first rows as the table. */
module LimitScan {
  import opened Bytes
  import opened Types
  import opened ZoneMaps
  import opened Vectors
  import opened VectorWriter
  import opened Filters
  import opened ScanMachine
  import opened MetadataScan
  import opened Scanner
  import opened WorkQueue
  import opened ScanOrder
  import opened LimitCut
  import opened ScanAnswer

  // ----- the order column -----

  /** The first `n` keys of a block, values apart from nulls. */
  function KeyRows(b: StoredBlock, seqnum: nat, n: nat): (rows: BlockKeys)
    requires seqnum < |b.columns| && forall row :: 0 <= row < n ==> SeenOk(b.columns[seqnum], row)
    ensures |rows.values| + rows.nulls == n
  {
    if n == 0 then BlockKeys([], 0)
    else
      var before := KeyRows(b, seqnum, n - 1);
      var v := SeenAt(b.columns[seqnum], n - 1);
      if v.NullV? then BlockKeys(before.values, before.nulls + 1) else BlockKeys(before.values + [v], before.nulls)
  }

  lemma {:induction false} KeyRowsSeen(b: StoredBlock, seqnum: nat, n: nat, v: Value) returns (row: nat)
    requires seqnum < |b.columns| && forall row :: 0 <= row < n ==> SeenOk(b.columns[seqnum], row)
    requires v in KeyRows(b, seqnum, n).values
    ensures row < n && SeenAt(b.columns[seqnum], row) == v && !v.NullV?
  {
    hide SeenAt;
    hide SeenOk;
    if v in KeyRows(b, seqnum, n - 1).values {
      row := KeyRowsSeen(b, seqnum, n - 1, v);
    } else {
      row := n - 1;
    }
  }

  lemma {:induction false} KeysNotNull(b: StoredBlock, seqnum: nat, n: nat)
    requires seqnum < |b.columns| && forall row :: 0 <= row < n ==> SeenOk(b.columns[seqnum], row)
    ensures forall v :: v in KeyRows(b, seqnum, n).values ==> !v.NullV?
  {
    hide SeenAt;
    hide SeenOk;
    if n > 0 { KeysNotNull(b, seqnum, n - 1); }
  }

  /** The block has the order column, with the block's rows, and a zone map whose sort keys
      bound every value in it, whether or not it is initialised or truncated. */
  predicate KeysBounded(order: OrderInfo, b: StoredBlock)
  {
    && order.seqnum < |b.columns| && order.seqnum < |b.zms|
    && (forall row :: 0 <= row < b.rows ==> SeenOk(b.columns[order.seqnum], row))
    && AllWithin(RangeOf(b.zms[order.seqnum], order.oid, order.isString), KeyRows(b, order.seqnum, b.rows).values)
  }

  predicate AllWithin(r: KeyRange, values: seq<Value>)
  {
    forall v :: v in values ==> Within(r, v)
  }

  /** That is, at every row that is not null. */
  lemma BoundedAtRows(order: OrderInfo, b: StoredBlock)
    requires order.seqnum < |b.columns| && order.seqnum < |b.zms|
    requires forall row :: 0 <= row < b.rows ==> SeenOk(b.columns[order.seqnum], row)
    ensures KeysBounded(order, b) <==>
      forall row :: 0 <= row < b.rows && !SeenAt(b.columns[order.seqnum], row).NullV? ==>
        Within(RangeOf(b.zms[order.seqnum], order.oid, order.isString), SeenAt(b.columns[order.seqnum], row))
  {
    hide Within;
    hide SeenAt;
    hide SeenOk;
    var col, values := b.columns[order.seqnum], KeyRows(b, order.seqnum, b.rows).values;
    forall row | 0 <= row < b.rows && !SeenAt(col, row).NullV? ensures SeenAt(col, row) in values {
      RowIsKey(b, order.seqnum, b.rows, row);
    }
    forall v | v in values ensures exists row :: 0 <= row < b.rows && SeenAt(col, row) == v && !v.NullV? {
      var row := KeyRowsSeen(b, order.seqnum, b.rows, v);
    }
  }

  lemma {:induction false} RowIsKey(b: StoredBlock, seqnum: nat, n: nat, row: nat)
    requires seqnum < |b.columns| && row < n && forall r :: 0 <= r < n ==> SeenOk(b.columns[seqnum], r)
    requires !SeenAt(b.columns[seqnum], row).NullV?
    ensures SeenAt(b.columns[seqnum], row) in KeyRows(b, seqnum, n).values
  {
    hide SeenAt;
    hide SeenOk;
    if row < n - 1 { RowIsKey(b, seqnum, n - 1, row); }
  }

  predicate OrderSound(order: OrderInfo, objs: seq<StoredObject>)
  {
    forall k, b :: 0 <= k < |objs| && 0 <= b < |objs[k].blocks| ==> KeysBounded(order, objs[k].blocks[b])
  }

  /** A FLAT column that its initialised zone map bounds, as pruning demands, has its value
      between the sort keys exactly when a boolean is stored as 0 or 1, and a string does
      not exceed the stored maximum. */
  lemma DescribedIsWithin(z: ZoneMap, col: DecodedColumn, row: nat)
    requires RowOk(col, row) && Describes(z, col, row) && IsInited(z) && !IsConstant(col)
    requires IsIntegerType(col.mtype.oid) || IsStringType(col.mtype.oid)
    ensures SeenOk(col, row)
    ensures var oid, v := col.mtype.oid, SeenAt(col, row);
      v.NullV? || (Within(RangeOf(z, oid, IsStringType(oid)), v) <==>
                   (oid == T_BOOL ==> v.IntV? && v.i <= 1) && (v.StrV? ==> Lex(v.s, MaxString(z)) <= 0))
  {
    var oid, v := col.mtype.oid, SeenAt(col, row);
    match v
    case NullV =>
    case IntV(i) => NumberKeysBound(z, oid, i + Epoch(oid));
    case StrV(s) => StringKeysBound(z, oid, s);
    case RawV(_) =>
  }

  lemma WithinIsNotNull(z: ZoneMap, oid: Byte, isString: bool, v: Value)
    requires Within(RangeOf(z, oid, isString), v) && !v.NullV?
    ensures var r := RangeOf(z, oid, isString); !r.lo.NullV? && !r.hi.NullV? && Cmp(r.lo, r.hi) <= 0
  {
    var r := RangeOf(z, oid, isString);
    CmpIsOrder(r.lo, v, r.hi);
  }

  /** The zone map of a written column that was given none: 64 zeros. */
  lemma NoZoneSortsAsZero(z: ZoneMap)
    requires z == Zeros(64)
    ensures !IsInited(z) && RangeOf(z, T_INT32, false) == KeyRange(IntV(0), IntV(0))
  {
    Pow256Values();
    ZeroLE(4);
    FromToLE(0, 4);
    assert z[..4] == ToLE(0, 4) && z[31..][..4] == ToLE(0, 4);
  }

  /** Ordering does not ask whether a zone map is initialised. A block of a 5 without a zone
      map sorts as 0..0, before a block of a 1 with the zone map 1..1: LIMIT 1 drops the
      first row. */
  lemma UninitialisedLosesRows() returns (units: seq<OrderedUnit>, contents: seq<BlockKeys>)
    ensures |units| == 2 && units[0].total == units[1].total == 1
    ensures units[0].range == Some(RangeOf(Zeros(64), T_INT32, false)) && units[1].range == Some(KeyRange(IntV(1), IntV(1)))
    ensures contents == [BlockKeys([IntV(5)], 0), BlockKeys([IntV(1)], 0)]
    ensures Sorted(units, true, true) && CutAt(units, 1, 1) && !SameFirst(contents, 1, 1, Wanted(true, true))
  {
    NoZoneSortsAsZero(Zeros(64));
    units := TwoBlocks(1, 0, 0, 1, 1);
    contents := [BlockKeys([IntV(5)], 0), BlockKeys([IntV(1)], 0)];
    SmallerComesFirst(units, contents, 5, 1);
  }

  lemma SmallerComesFirst(units: seq<OrderedUnit>, contents: seq<BlockKeys>, kept: int, dropped: int)
    requires units == TwoBlocks(1, 0, 0, 1, 1) && dropped < kept
    requires contents == [BlockKeys([IntV(kept)], 0), BlockKeys([IntV(dropped)], 0)]
    ensures Sorted(units, true, true) && CutAt(units, 1, 1) && !SameFirst(contents, 1, 1, Wanted(true, true))
  {
    assert RowsIn(units, 0) == 0 && RowsIn(units, 1) == 1;
    assert Collect(contents, 0) == multiset{};
    assert AllOf(contents[0]) == multiset{IntV(kept)} && AllOf(contents[1]) == multiset{IntV(dropped)};
    assert Collect(contents, 1) == multiset{IntV(kept)};
    assert Collect(contents, 2) == multiset{IntV(kept), IntV(dropped)};
    var ms := multiset{IntV(kept)};
    assert IsFirst(ms, Collect(contents, 1), 1, Wanted(true, true));
    assert IntV(dropped) in Collect(contents, 2) - ms;
    assert !IsFirst(ms, Collect(contents, 2), 1, Wanted(true, true));
  }

  // ----- keys of rows -----

  function KeySeq(objs: seq<StoredObject>, seqnum: nat, rows: seq<RowId>): (keys: seq<Value>)
    ensures |keys| == |rows|
  {
    seq(|rows|, i requires 0 <= i < |rows| => CellOf(objs, seqnum, rows[i]))
  }

  function Keys(objs: seq<StoredObject>, seqnum: nat, rows: seq<RowId>): multiset<Value>
  {
    multiset(KeySeq(objs, seqnum, rows))
  }

  lemma KeysOfBoth(objs: seq<StoredObject>, seqnum: nat, a: seq<RowId>, b: seq<RowId>)
    ensures Keys(objs, seqnum, a + b) == Keys(objs, seqnum, a) + Keys(objs, seqnum, b)
  {
    hide CellOf;
    assert KeySeq(objs, seqnum, a + b) == KeySeq(objs, seqnum, a) + KeySeq(objs, seqnum, b);
  }

  lemma KeysOfOne(objs: seq<StoredObject>, seqnum: nat, r: RowId)
    ensures Keys(objs, seqnum, [r]) == multiset{CellOf(objs, seqnum, r)}
  {
    hide CellOf;
    assert KeySeq(objs, seqnum, [r]) == [CellOf(objs, seqnum, r)];
  }

  lemma {:induction false} KeysPermuted(objs: seq<StoredObject>, seqnum: nat, a: seq<RowId>, b: seq<RowId>)
    requires multiset(a) == multiset(b)
    ensures Keys(objs, seqnum, a) == Keys(objs, seqnum, b)
    decreases |a|
  {
    if a == [] {
      assert |multiset(b)| == 0;
    } else {
      var i := FindHead(a, b);
      var pre, post := b[..i], b[i + 1..];
      KeysPermuted(objs, seqnum, a[1..], pre + post);
      KeysOfBoth(objs, seqnum, [a[0]], a[1..]);
      KeysOfBoth(objs, seqnum, pre, post);
      KeysOfBoth(objs, seqnum, pre + [a[0]], post);
      KeysOfBoth(objs, seqnum, pre, [a[0]]);
      hide Keys;
      assert a == [a[0]] + a[1..];
    }
  }

  /** All rows of a range, by name. */
  function AllRowsOf(obj: nat, blk: nat, n: nat): (rows: seq<RowId>)
    ensures |rows| == n
  {
    seq(n, i requires i >= 0 => RowId(obj, blk, i))
  }

  lemma {:induction false} KeysOfBlock(objs: seq<StoredObject>, seqnum: nat, obj: nat, blk: nat, n: nat)
    requires obj < |objs| && blk < |objs[obj].blocks| && seqnum < |objs[obj].blocks[blk].columns|
    requires forall row :: 0 <= row < n ==> SeenOk(objs[obj].blocks[blk].columns[seqnum], row)
    ensures Keys(objs, seqnum, AllRowsOf(obj, blk, n)) == AllOf(KeyRows(objs[obj].blocks[blk], seqnum, n))
  {
    hide SeenOk;
    hide SeenAt;
    hide Keys;
    hide AllOf;
    hide CellOf;
    if n == 0 {
      NoKeys(objs, seqnum, obj, blk);
    } else {
      KeysOfBlock(objs, seqnum, obj, blk, n - 1);
      var r := RowId(obj, blk, n - 1);
      assert AllRowsOf(obj, blk, n) == AllRowsOf(obj, blk, n - 1) + [r];
      KeysOfBoth(objs, seqnum, AllRowsOf(obj, blk, n - 1), [r]);
      KeysOfOne(objs, seqnum, r);
      KeyAtRow(objs, seqnum, r);
      OneMoreRow(KeyRows(objs[obj].blocks[blk], seqnum, n - 1), SeenAt(objs[obj].blocks[blk].columns[seqnum], n - 1));
    }
  }

  lemma NoKeys(objs: seq<StoredObject>, seqnum: nat, obj: nat, blk: nat)
    ensures Keys(objs, seqnum, AllRowsOf(obj, blk, 0)) == AllOf(BlockKeys([], 0))
  {
    assert AllOf(BlockKeys([], 0)) == multiset{};
  }

  lemma KeyAtRow(objs: seq<StoredObject>, seqnum: nat, r: RowId)
    requires r.obj < |objs| && r.blk < |objs[r.obj].blocks| && seqnum < |objs[r.obj].blocks[r.blk].columns|
    requires SeenOk(objs[r.obj].blocks[r.blk].columns[seqnum], r.row)
    ensures CellOf(objs, seqnum, r) == SeenAt(objs[r.obj].blocks[r.blk].columns[seqnum], r.row)
  {
  }

  lemma OneMoreRow(rows: BlockKeys, v: Value)
    ensures AllOf(if v.NullV? then BlockKeys(rows.values, rows.nulls + 1) else BlockKeys(rows.values + [v], rows.nulls)) ==
            AllOf(rows) + multiset{v}
  {
  }

  // ----- an unfiltered queue -----

  /** What the units' blocks hold in the order column. */
  ghost function ContentsOf(order: OrderInfo, objs: seq<StoredObject>, units: seq<OrderedUnit>): (contents: seq<BlockKeys>)
    requires OrderSound(order, objs) && forall i :: 0 <= i < |units| ==> InObjects(objs, units[i].unit)
    ensures |contents| == |units|
  {
    seq(|units|, i requires 0 <= i < |units| =>
      assert InObjects(objs, units[i].unit);
      var b := objs[units[i].unit.obj].blocks[units[i].unit.blk];
      assert KeysBounded(order, b);
      KeyRows(b, order.seqnum, b.rows))
  }

  ghost function NullsOf(contents: seq<BlockKeys>): (nulls: seq<nat>)
    ensures |nulls| == |contents|
  {
    seq(|contents|, i requires 0 <= i < |contents| => contents[i].nulls)
  }

  /** The units are those of a queue of the table, in any order. */
  ghost predicate UnitsOfTable(q: Query, order: OrderInfo, objs: seq<StoredObject>, units: seq<OrderedUnit>)
    requires q.Valid() && TableSound(q, objs)
  {
    forall i :: 0 <= i < |units| ==>
      InObjects(objs, units[i].unit) && InTable(DeliveredTable(q, objs), [units[i].unit]) &&
      units[i] == OrderedOf(DeliveredTable(q, objs), units[i].unit, order.seqnum, order.oid, order.isString)
  }

  lemma DeliveredBlock(q: Query, objs: seq<StoredObject>, w: WorkUnit)
    requires q.Valid() && TableSound(q, objs) && InObjects(objs, w)
    ensures InTable(DeliveredTable(q, objs), [w]) && BlockReadable(q, objs[w.obj].blocks[w.blk])
    ensures DeliveredTable(q, objs)[w.obj].blocks[w.blk] == Delivered(q, w.obj, w.blk, objs[w.obj].blocks[w.blk])
  {
    assert ObjectSound(q, objs[w.obj]);
  }

  /** Zone maps and contents of the table's blocks fit together. */
  lemma ContentsPossible(q: Query, order: OrderInfo, objs: seq<StoredObject>, units: seq<OrderedUnit>)
    requires q.Valid() && TableSound(q, objs) && OrderSound(order, objs) && UnitsOfTable(q, order, objs, units)
    ensures var contents := ContentsOf(order, objs, units);
      Ranged(units, NullsOf(contents)) && Possible(units, NullsOf(contents), contents, false)
  {
    var contents := ContentsOf(order, objs, units);
    forall i | 0 <= i < |units|
      ensures contents[i].nulls <= units[i].total
      ensures contents[i].nulls < units[i].total ==> units[i].range.Some? && RangeOk(units[i].range.value)
      ensures MayHold(units[i], contents[i].nulls, contents[i], false)
    {
      UnitHolds(q, order, objs, units[i]);
    }
  }

  lemma UnitHolds(q: Query, order: OrderInfo, objs: seq<StoredObject>, u: OrderedUnit)
    requires q.Valid() && TableSound(q, objs) && OrderSound(order, objs) && UnitsOfTable(q, order, objs, [u])
    ensures var rows := ContentsOf(order, objs, [u])[0];
      && rows.nulls <= u.total && (rows.nulls < u.total ==> u.range.Some? && RangeOk(u.range.value))
      && MayHold(u, rows.nulls, rows, false)
  {
    assert [u][0] == u;
    var b := objs[u.unit.obj].blocks[u.unit.blk];
    DeliveredBlock(q, objs, u.unit);
    assert KeysBounded(order, b);
    var rows := KeyRows(b, order.seqnum, b.rows);
    var z := b.zms[order.seqnum];
    KeysNotNull(b, order.seqnum, b.rows);
    if rows.values != [] {
      assert rows.values[0] in rows.values;
      WithinIsNotNull(z, order.oid, order.isString, rows.values[0]);
    }
  }

  // ----- scanning an unfiltered queue -----

  /** Without filters a block yields all its rows. */
  lemma UnfilteredWork(u: ScanUnit)
    ensures Work(PlanOf([], u)) == AllRowsOf(u.obj, u.blk, u.Total())
  {
    var p := PlanOf([], u);
    forall row: nat ensures p.passes(row) { assert RowPasses([], u.cols, row); }
    AllRowsOfUnit(p, 0, u.Total());
    hide RowsOf;
    assert RowsOf(p, 0, u.Total()) == AllRowsOf(u.obj, u.blk, u.Total());
  }

  /** The keys that scanning the first `n` units yields are their blocks' contents. */
  lemma {:induction false} KeysOfUnits(q: Query, order: OrderInfo, objs: seq<StoredObject>, units: seq<OrderedUnit>, n: nat)
    requires q.Valid() && TableSound(q, objs) && OrderSound(order, objs) && UnitsOfTable(q, order, objs, units)
    requires n <= |units|
    ensures InTable(DeliveredTable(q, objs), QueueOf(units)[..n])
    ensures Keys(objs, order.seqnum, Yield([], UnitsFor(DeliveredTable(q, objs), QueueOf(units)[..n]))) ==
            Collect(ContentsOf(order, objs, units), n)
  {
    hide Keys;
    hide Yield;
    hide AllOf;
    hide TableSound;
    hide OrderSound;
    var t, queue := DeliveredTable(q, objs), QueueOf(units);
    if n == 0 {
      assert UnitsFor(t, queue[..0]) == [];
      YieldOfNone([]);
      KeysOfNone(objs, order.seqnum);
    } else {
      KeysOfUnits(q, order, objs, units, n - 1);
      KeysOfUnit(q, order, objs, units[n - 1]);
      OneMoreUnit(t, queue, n);
      hide UnitsFor;
      var a, b := UnitsFor(t, queue[..n - 1]), UnitsFor(t, [units[n - 1].unit]);
      YieldOfBoth([], a, b);
      KeysOfBoth(objs, order.seqnum, Yield([], a), Yield([], b));
      assert ContentsOf(order, objs, units)[n - 1] == ContentsOf(order, objs, [units[n - 1]])[0];
    }
  }

  lemma OneMoreUnit(t: seq<TableObject>, queue: seq<WorkUnit>, n: nat)
    requires 0 < n <= |queue| && InTable(t, queue[..n - 1]) && InTable(t, [queue[n - 1]])
    ensures InTable(t, queue[..n]) && UnitsFor(t, queue[..n]) == UnitsFor(t, queue[..n - 1]) + UnitsFor(t, [queue[n - 1]])
  {
    assert queue[..n] == queue[..n - 1] + [queue[n - 1]];
    assert [queue[n - 1]][0] == queue[n - 1];
  }

  lemma KeysOfNone(objs: seq<StoredObject>, seqnum: nat)
    ensures Keys(objs, seqnum, []) == multiset{}
  {
  }

  lemma KeysOfUnit(q: Query, order: OrderInfo, objs: seq<StoredObject>, u: OrderedUnit)
    requires q.Valid() && TableSound(q, objs) && OrderSound(order, objs) && InObjects(objs, u.unit)
    ensures InTable(DeliveredTable(q, objs), [u.unit])
    ensures Keys(objs, order.seqnum, Yield([], UnitsFor(DeliveredTable(q, objs), [u.unit]))) ==
            AllOf(ContentsOf(order, objs, [u])[0])
  {
    var w, t := u.unit, DeliveredTable(q, objs);
    var b := objs[w.obj].blocks[w.blk];
    DeliveredBlock(q, objs, w);
    assert KeysBounded(order, b);
    var d := Delivered(q, w.obj, w.blk, b);
    assert UnitsFor(t, [w]) == [d];
    YieldOfOne([], d);
    UnfilteredWork(d);
    DeliveredTotal(q, w.obj, w.blk, b);
    KeysOfBlock(objs, order.seqnum, w.obj, w.blk, b.rows);
    assert [u][0] == u;
  }

  /** What ordering makes of the query's queue consists of units of the table. */
  lemma SortedUnits(q: Query, order: OrderInfo, objs: seq<StoredObject>, queue: seq<WorkUnit>, sorted: seq<OrderedUnit>)
    requires q.Valid() && TableSound(q, objs) && InTable(DeliveredTable(q, objs), queue)
    requires multiset(sorted) == multiset(UnitsOf(DeliveredTable(q, objs), queue, order.seqnum, order.oid, order.isString))
    ensures UnitsOfTable(q, order, objs, sorted) && multiset(QueueOf(sorted)) == multiset(queue)
  {
    var t := DeliveredTable(q, objs);
    var units := UnitsOf(t, queue, order.seqnum, order.oid, order.isString);
    forall i | 0 <= i < |sorted|
      ensures InObjects(objs, sorted[i].unit) && InTable(t, [sorted[i].unit]) &&
              sorted[i] == OrderedOf(t, sorted[i].unit, order.seqnum, order.oid, order.isString)
    {
      assert sorted[i] in multiset(sorted);
      assert sorted[i] in multiset(units);
      var j :| 0 <= j < |units| && units[j] == sorted[i];
      assert units[j].unit == queue[j];
      assert ObjectSound(q, objs[queue[j].obj]);
    }
    QueuePermuted(sorted, units);
    assert QueueOf(units) == queue;
  }

  lemma {:induction false} QueuePermuted(a: seq<OrderedUnit>, b: seq<OrderedUnit>)
    requires multiset(a) == multiset(b)
    ensures multiset(QueueOf(a)) == multiset(QueueOf(b))
    decreases |a|
  {
    if a == [] {
      assert |multiset(b)| == 0;
    } else {
      var i := FindHead(a, b);
      var pre, post := b[..i], b[i + 1..];
      QueuePermuted(a[1..], pre + post);
      assert QueueOf(a) == [a[0].unit] + QueueOf(a[1..]);
      assert QueueOf(b) == QueueOf(pre) + [a[0].unit] + QueueOf(post);
      assert QueueOf(pre + post) == QueueOf(pre) + QueueOf(post);
    }
  }

  // ----- main results -----

  /** The queue that Init builds for the query. */
  ghost function QueueFor(q: Query, objs: seq<StoredObject>): (queue: seq<WorkUnit>)
    requires q.Valid() && TableSound(q, objs)
    ensures InTable(DeliveredTable(q, objs), queue)
  {
    var queue := Queue(q.Filters(), DeliveredTable(q, objs), q.sortSeqnum, |objs|);
    QueueInTable(q, objs, queue);
    queue
  }

  /** `sorted` and `kept` are what `OrderWorkUnits` makes of the query's queue. */
  ghost predicate IsOrdered(q: Query, order: OrderInfo, objs: seq<StoredObject>, sorted: seq<OrderedUnit>, kept: seq<WorkUnit>)
    requires q.Valid() && TableSound(q, objs)
  {
    var t := DeliveredTable(q, objs);
    && Sorted(sorted, order.ascending, order.useMinStat)
    && multiset(sorted) == multiset(UnitsOf(t, QueueFor(q, objs), order.seqnum, order.oid, order.isString))
    && kept <= QueueOf(sorted) && CutAt(sorted, |kept|, order.rowLimit)
  }

  /** What the ordered units' blocks hold in the order column. */
  ghost function OrderedContents(q: Query, order: OrderInfo, objs: seq<StoredObject>, sorted: seq<OrderedUnit>, kept: seq<WorkUnit>): (contents: seq<BlockKeys>)
    requires q.Valid() && TableSound(q, objs) && OrderSound(order, objs) && IsOrdered(q, order, objs, sorted, kept)
    ensures |contents| == |sorted|
    ensures Ranged(sorted, NullsOf(contents)) && Possible(sorted, NullsOf(contents), contents, false)
  {
    SortedUnits(q, order, objs, QueueFor(q, objs), sorted);
    ContentsPossible(q, order, objs, sorted);
    ContentsOf(order, objs, sorted)
  }

  /** The keys of the first `limit` rows, in the wanted order, are the same in both. */
  ghost predicate SameFirstKeys(a: multiset<Value>, b: multiset<Value>, limit: nat, wanted: Wanted)
  {
    forall ms :: IsFirst(ms, a, limit, wanted) <==> IsFirst(ms, b, limit, wanted)
  }

  /** A scan of the kept queue, by any threads in any interleaving, emits rows whose first
      keys are the table's, whenever the zone maps and null counts allow the cut. */
  lemma LimitedScan(q: Query, order: OrderInfo, objs: seq<StoredObject>, sorted: seq<OrderedUnit>, kept: seq<WorkUnit>,
                    wanted: Wanted, limit: nat, threads: nat, schedule: seq<nat>)
    requires q.Valid() && q.entries == [] && q.ReadsFiles() && TableSound(q, objs) && OrderSound(order, objs)
    requires IsOrdered(q, order, objs, sorted, kept)
    requires ZonesAllowCut(sorted, NullsOf(OrderedContents(q, order, objs, sorted, kept)), |kept|, limit, wanted)
    requires threads > 0 && IsSchedule(schedule, threads)
    ensures InTable(DeliveredTable(q, objs), kept)
    ensures var s := Run(QueryPlans(q, objs, kept), threads, schedule, |schedule|);
      AllTold(s) ==>
        SameFirstKeys(Keys(objs, order.seqnum, s.emitted), Keys(objs, order.seqnum, Answer(q, objs, |objs|)), limit, wanted)
  {
    hide *;
    KeptYields(q, order, objs, sorted, kept);
    var contents := OrderedContents(q, order, objs, sorted, kept);
    AllowedCutKeepsFirst(sorted, NullsOf(contents), |kept|, limit, wanted, contents);
    SameFirstIsSameKeys(contents, |kept|, limit, wanted);
    var plans := QueryPlans(q, objs, kept);
    if AllTold(Run(plans, threads, schedule, |schedule|)) {
      AllToldAllEmitted(plans, threads, schedule);
      KeysPermuted(objs, order.seqnum, Run(plans, threads, schedule, |schedule|).emitted, Unclaimed(plans, 0));
    }
  }

  lemma SameFirstIsSameKeys(contents: seq<BlockKeys>, k: nat, limit: nat, wanted: Wanted)
    requires k <= |contents| && SameFirst(contents, k, limit, wanted)
    ensures SameFirstKeys(Collect(contents, k), Collect(contents, |contents|), limit, wanted)
  {
  }

  /** The kept queue's keys are the contents of its blocks, and the table's keys those of all. */
  lemma KeptYields(q: Query, order: OrderInfo, objs: seq<StoredObject>, sorted: seq<OrderedUnit>, kept: seq<WorkUnit>)
    requires q.Valid() && q.entries == [] && TableSound(q, objs) && OrderSound(order, objs)
    requires IsOrdered(q, order, objs, sorted, kept)
    ensures InTable(DeliveredTable(q, objs), kept) && |kept| <= |sorted|
    ensures Keys(objs, order.seqnum, Unclaimed(QueryPlans(q, objs, kept), 0)) ==
            Collect(OrderedContents(q, order, objs, sorted, kept), |kept|)
    ensures Keys(objs, order.seqnum, Answer(q, objs, |objs|)) ==
            Collect(OrderedContents(q, order, objs, sorted, kept), |sorted|)
  {
    OrderedUnits(q, order, objs, sorted, kept);
    var contents := OrderedContents(q, order, objs, sorted, kept);
    assert contents == ContentsOf(order, objs, sorted);
    hide *;
    KeysOfUnits(q, order, objs, sorted, |kept|);
    KeysOfUnits(q, order, objs, sorted, |sorted|);
    UnfilteredYield(q, objs, kept);
    UnfilteredYield(q, objs, QueueOf(sorted));
    QueueInTable(q, objs, QueueOf(sorted));
    KeysPermuted(objs, order.seqnum, Unclaimed(QueryPlans(q, objs, QueueOf(sorted)), 0), Answer(q, objs, |objs|));
  }

  lemma OrderedUnits(q: Query, order: OrderInfo, objs: seq<StoredObject>, sorted: seq<OrderedUnit>, kept: seq<WorkUnit>)
    requires q.Valid() && TableSound(q, objs) && OrderSound(order, objs) && IsOrdered(q, order, objs, sorted, kept)
    ensures UnitsOfTable(q, order, objs, sorted) && IsQueueOrder(q, objs, QueueOf(sorted)) && |kept| <= |sorted|
    ensures QueueOf(sorted)[..|kept|] == kept && QueueOf(sorted)[..|sorted|] == QueueOf(sorted)
  {
    SortedUnits(q, order, objs, QueueFor(q, objs), sorted);
  }

  lemma UnfilteredYield(q: Query, objs: seq<StoredObject>, order: seq<WorkUnit>)
    requires q.Valid() && q.entries == [] && TableSound(q, objs) && InTable(DeliveredTable(q, objs), order)
    ensures Unclaimed(QueryPlans(q, objs, order), 0) == Yield([], UnitsFor(DeliveredTable(q, objs), order))
  {
    assert q.Filters() == [];
    hide DeliveredTable;
    hide Unclaimed;
  }

  /** In particular when the order column has no nulls and no two blocks' ranges overlap or
      touch: the first N rows of the kept queue are the table's, in either direction. */
  lemma DisjointLimitedScan(q: Query, order: OrderInfo, objs: seq<StoredObject>, sorted: seq<OrderedUnit>, kept: seq<WorkUnit>,
                            nullsLast: bool, threads: nat, schedule: seq<nat>)
    requires q.Valid() && q.entries == [] && q.ReadsFiles() && TableSound(q, objs) && OrderSound(order, objs)
    requires IsOrdered(q, order, objs, sorted, kept)
    requires var nulls := NullsOf(OrderedContents(q, order, objs, sorted, kept)); NoNulls(nulls) && Disjoint(sorted, nulls)
    requires threads > 0 && IsSchedule(schedule, threads)
    ensures InTable(DeliveredTable(q, objs), kept)
    ensures var s := Run(QueryPlans(q, objs, kept), threads, schedule, |schedule|);
      AllTold(s) ==>
        SameFirstKeys(Keys(objs, order.seqnum, s.emitted), Keys(objs, order.seqnum, Answer(q, objs, |objs|)),
                      order.rowLimit, Wanted(order.ascending, nullsLast))
  {
    var o := Wanted(order.ascending, nullsLast);
    var nulls := NullsOf(OrderedContents(q, order, objs, sorted, kept));
    DisjointCutIsSafe(sorted, nulls, |kept|, order.rowLimit, o, order.useMinStat);
    CutSafeIff(sorted, nulls, |kept|, order.rowLimit, o);
    hide OrderedContents;
    hide CutIsSafe;
    hide ZonesAllowCut;
    LimitedScan(q, order, objs, sorted, kept, o, order.rowLimit, threads, schedule);
  }
}
