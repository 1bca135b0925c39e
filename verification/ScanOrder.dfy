/** ORDER BY ... LIMIT pushdown: queued blocks sorted by zone-map key and cut off once
    their rows reach the limit. */
module ScanOrder {
  import opened Bytes
  import opened Types
  import opened ZoneMaps
  import opened Filters
  import opened Scanner
  import opened WorkQueue

  // ----- keys and their order -----

  function Kind(v: Value): nat
  {
    match v
    case NullV => 0
    case IntV(_) => 1
    case StrV(_) => 2
    case RawV(_) => 3
  }

  /** A total order on values; within one kind it is the order comparisons use. */
  function Cmp(a: Value, b: Value): (c: int)
    ensures c == 0 <==> a == b
  {
    match (a, b)
    case (IntV(i), IntV(j)) => i - j
    case (StrV(s), StrV(t)) => Lex(s, t)
    case (RawV(s), RawV(t)) => Lex(s, t)
    case _ => Kind(a) - Kind(b)
  }

  lemma CmpIsOrder(a: Value, b: Value, c: Value)
    ensures Cmp(a, b) <= 0 || Cmp(b, a) <= 0
    ensures Cmp(a, b) <= 0 && Cmp(b, a) <= 0 ==> a == b
    ensures Cmp(a, b) <= 0 && Cmp(b, c) <= 0 ==> Cmp(a, c) <= 0
  {
    match (a, b, c)
    case (StrV(s), StrV(t), _) =>
      LexAntisymmetric(s, t);
      if c.StrV? && Cmp(a, b) <= 0 && Cmp(b, c) <= 0 { LexTransitive(s, t, c.s); }
    case (RawV(s), RawV(t), _) =>
      LexAntisymmetric(s, t);
      if c.RawV? && Cmp(a, b) <= 0 && Cmp(b, c) <= 0 { LexTransitive(s, t, c.raw); }
    case _ =>
  }

  /** One end of a zone map as a sort key; types not modelled here have none. */
  function KeyOf(z: ZoneMap, oid: Byte, isString: bool, useMin: bool): Value
  {
    if isString then StrV(if useMin then MinString(z) else MaxString(z))
    else if !IsIntegerType(oid) then NullV
    else
      var n := if useMin then GetMin(z, NumTypeOf(oid)) else GetMax(z, NumTypeOf(oid));
      if oid == T_BOOL then IntV(if n != 0 then 1 else 0) else IntV(n - Epoch(oid))
  }

  // ----- units and their order -----

  datatype KeyRange = KeyRange(lo: Value, hi: Value)

  function RangeOf(z: ZoneMap, oid: Byte, isString: bool): KeyRange
  {
    KeyRange(KeyOf(z, oid, isString, true), KeyOf(z, oid, isString, false))
  }

  /** A queued block: its rows by the file's metadata, and its zone map's range if it has one. */
  datatype OrderedUnit = OrderedUnit(unit: WorkUnit, total: nat, range: Option<KeyRange>)

  function SortKey(u: OrderedUnit, useMin: bool): Option<Value>
  {
    if u.range.None? then None
    else
      var key := if useMin then u.range.value.lo else u.range.value.hi;
      if key.NullV? then None else Some(key)
  }

  /** The comparator: null keys come last in either direction. */
  predicate Precedes(asc: bool, a: Option<Value>, b: Option<Value>)
  {
    if a.None? then false
    else if b.None? then true
    else if asc then Cmp(a.value, b.value) < 0 else Cmp(b.value, a.value) < 0
  }

  predicate Sorted(units: seq<OrderedUnit>, asc: bool, useMin: bool)
  {
    forall i, j :: 0 <= i < j < |units| ==> !Precedes(asc, SortKey(units[j], useMin), SortKey(units[i], useMin))
  }

  /** Rows of the first `n` units. */
  function RowsIn(units: seq<OrderedUnit>, n: nat): nat
    requires n <= |units|
  {
    if n == 0 then 0 else RowsIn(units, n - 1) + units[n - 1].total
  }

  /** The first `k` units are the shortest run that reaches the limit, or all of them. */
  predicate CutAt(units: seq<OrderedUnit>, k: nat, limit: nat)
  {
    && k <= |units|
    && (k < |units| ==> limit > 0 && k > 0 && RowsIn(units, k) >= limit)
    && (limit > 0 && k > 0 ==> RowsIn(units, k - 1) < limit)
  }

  /** Any sort by the comparator; blocks with equal keys may come in any order, and
      nothing below depends on which. */
  method SortUnits(units: seq<OrderedUnit>, asc: bool, useMin: bool) returns (sorted: seq<OrderedUnit>)
    ensures Sorted(sorted, asc, useMin) && multiset(sorted) == multiset(units)
  {
    sorted := [];
    for i := 0 to |units|
      invariant Sorted(sorted, asc, useMin) && multiset(sorted) == multiset(units[..i])
    {
      sorted := InsertUnit(sorted, units[i], asc, useMin);
      assert units[..i + 1] == units[..i] + [units[i]];
    }
    assert units[..|units|] == units;
  }

  method InsertUnit(s: seq<OrderedUnit>, u: OrderedUnit, asc: bool, useMin: bool) returns (r: seq<OrderedUnit>)
    requires Sorted(s, asc, useMin)
    ensures Sorted(r, asc, useMin) && multiset(r) == multiset(s) + multiset([u])
  {
    var k := |s|;
    while k > 0 && Precedes(asc, SortKey(u, useMin), SortKey(s[k - 1], useMin))
      invariant 0 <= k <= |s|
      invariant forall j :: k <= j < |s| ==> Precedes(asc, SortKey(u, useMin), SortKey(s[j], useMin))
    {
      k := k - 1;
    }
    r := s[..k] + [u] + s[k..];
    assert s == s[..k] + s[k..];
    InsertKeepsOrder(s, k, u, asc, useMin);
  }

  lemma InsertKeepsOrder(s: seq<OrderedUnit>, k: nat, u: OrderedUnit, asc: bool, useMin: bool)
    requires k <= |s| && Sorted(s, asc, useMin)
    requires k > 0 ==> !Precedes(asc, SortKey(u, useMin), SortKey(s[k - 1], useMin))
    requires forall j :: k <= j < |s| ==> Precedes(asc, SortKey(u, useMin), SortKey(s[j], useMin))
    ensures Sorted(s[..k] + [u] + s[k..], asc, useMin)
  {
    var r := s[..k] + [u] + s[k..];
    forall i, j | 0 <= i < j < |r| ensures !Precedes(asc, SortKey(r[j], useMin), SortKey(r[i], useMin)) {
      if j == k {
        PrecedesWeakly(asc, SortKey(u, useMin), SortKey(s[k - 1], useMin), SortKey(s[i], useMin));
      } else if i == k {
        PrecedesWeakly(asc, SortKey(s[j - 1], useMin), SortKey(u, useMin), SortKey(u, useMin));
      }
    }
  }

  /** The comparator is a strict weak order. */
  lemma PrecedesWeakly(asc: bool, a: Option<Value>, b: Option<Value>, c: Option<Value>)
    ensures Precedes(asc, a, b) ==> !Precedes(asc, b, a)
    ensures !Precedes(asc, a, b) && !Precedes(asc, b, c) ==> !Precedes(asc, a, c)
  {
    if a.Some? && b.Some? {
      CmpIsOrder(a.value, b.value, if c.Some? then c.value else a.value);
      CmpIsOrder(b.value, a.value, if c.Some? then c.value else a.value);
      if c.Some? {
        CmpIsOrder(c.value, b.value, a.value);
        CmpIsOrder(b.value, c.value, a.value);
      }
    }
  }

  method Truncate(units: seq<OrderedUnit>, limit: nat) returns (kept: seq<OrderedUnit>)
    ensures kept <= units && CutAt(units, |kept|, limit)
  {
    if limit > 0 {
      var rowsAvailable := 0;
      for i := 0 to |units|
        invariant rowsAvailable == RowsIn(units, i)
        invariant i > 0 ==> rowsAvailable < limit
      {
        rowsAvailable := rowsAvailable + units[i].total;
        if rowsAvailable >= limit {
          RowsGrow(units, i);
          return units[..i + 1];
        }
      }
      if |units| > 0 { RowsGrow(units, |units| - 1); }
    }
    return units;
  }

  lemma RowsGrow(units: seq<OrderedUnit>, i: nat)
    requires i < |units|
    ensures RowsIn(units, i) <= RowsIn(units, i + 1)
  {
  }

  // ----- reading keys and ordering the queue -----

  /** The unit's row count and zone-map range in the order column. */
  function OrderedOf(objs: seq<TableObject>, w: WorkUnit, seqnum: nat, oid: Byte, isString: bool): OrderedUnit
    requires w.obj < |objs| && w.blk < |objs[w.obj].blocks|
  {
    var b := objs[w.obj].blocks[w.blk];
    OrderedUnit(w, b.rows, if seqnum < |b.zms| then Some(RangeOf(b.zms[seqnum], oid, isString)) else None)
  }

  function UnitsOf(objs: seq<TableObject>, queue: seq<WorkUnit>, seqnum: nat, oid: Byte, isString: bool): (units: seq<OrderedUnit>)
    requires InTable(objs, queue)
    ensures |units| == |queue|
  {
    seq(|queue|, i requires 0 <= i < |queue| => OrderedOf(objs, queue[i], seqnum, oid, isString))
  }

  method ReadKeys(objs: seq<TableObject>, queue: seq<WorkUnit>, seqnum: nat, oid: Byte, isString: bool)
    returns (sortable: seq<OrderedUnit>)
    requires InTable(objs, queue)
    ensures sortable == UnitsOf(objs, queue, seqnum, oid, isString)
  {
    sortable := [];
    for i := 0 to |queue|
      invariant |sortable| == i
      invariant forall k :: 0 <= k < i ==> sortable[k] == OrderedOf(objs, queue[k], seqnum, oid, isString)
    {
      var wu := queue[i];
      var zm := GetZoneMap(objs[wu.obj].blocks[wu.blk].zms, seqnum);
      var range := None;
      if zm.Some? {
        range := Some(KeyRange(KeyOf(zm.value, oid, isString, true), KeyOf(zm.value, oid, isString, false)));
      }
      sortable := sortable + [OrderedUnit(wu, objs[wu.obj].blocks[wu.blk].rows, range)];
    }
  }

  function QueueOf(units: seq<OrderedUnit>): (queue: seq<WorkUnit>)
    ensures |queue| == |units|
  {
    seq(|units|, i requires 0 <= i < |units| => units[i].unit)
  }

  /** An ORDER BY pushed down to the scan: the column's sequence number and type, the
      direction, the zone-map end to sort by, and the limit (0 for none). */
  datatype OrderInfo = OrderInfo(seqnum: nat, oid: Byte, isString: bool, ascending: bool, useMinStat: bool, rowLimit: nat)

  /** The queue is replaced by the shortest prefix, of a permutation of it sorted by key,
      whose rows reach the limit, or by the whole permutation. */
  method OrderWorkUnits(objs: seq<TableObject>, queue: seq<WorkUnit>, order: OrderInfo)
    returns (sorted: seq<OrderedUnit>, kept: seq<WorkUnit>)
    requires InTable(objs, queue)
    ensures Sorted(sorted, order.ascending, order.useMinStat)
    ensures multiset(sorted) == multiset(UnitsOf(objs, queue, order.seqnum, order.oid, order.isString))
    ensures kept <= QueueOf(sorted) && CutAt(sorted, |kept|, order.rowLimit)
  {
    var sortable := ReadKeys(objs, queue, order.seqnum, order.oid, order.isString);
    sorted := SortUnits(sortable, order.ascending, order.useMinStat);
    var keptUnits := Truncate(sorted, order.rowLimit);
    kept := QueueOf(keptUnits);
  }

  // ----- zone maps as ranges -----

  predicate Within(r: KeyRange, v: Value) { Cmp(r.lo, v) <= 0 && Cmp(v, r.hi) <= 0 }

  /** A number that the zone map's bounds admit lies between the sort keys, both counted
      from the column type's epoch, exactly when a boolean is stored as 0 or 1. */
  lemma NumberKeysBound(z: ZoneMap, oid: Byte, n: int)
    requires IsIntegerType(oid) && InRange(z, NumTypeOf(oid), n)
    ensures var r := RangeOf(z, oid, false);
      r.lo.IntV? && r.hi.IntV? && (r.lo.i <= n - Epoch(oid) <= r.hi.i <==> (oid == T_BOOL ==> n <= 1))
    ensures oid == T_BOOL ==> n >= 0
  {
  }

  /** So does a string the zone map admits, exactly when it does not exceed the stored
      maximum; an untruncated maximum guarantees that. */
  lemma StringKeysBound(z: ZoneMap, oid: Byte, v: seq<Byte>)
    requires IsStringType(oid) && Admits(z, v)
    ensures !MaxTruncated(z) ==> Within(RangeOf(z, oid, IsStringType(oid)), StrV(v))
    ensures Within(RangeOf(z, oid, IsStringType(oid)), StrV(v)) <==> Lex(v, MaxString(z)) <= 0
  {
    AdmittedIsWithin(z, v, v);
  }
}
