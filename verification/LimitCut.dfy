/** What a LIMIT keeps: exactly when cutting off a queue of ordered blocks is safe,
    whatever the blocks hold within their zone maps, nulls included. */
module LimitCut {
  import opened Bytes
  import opened Types
  import opened Scanner
  import opened ScanOrder

  /** The order rows are wanted in: direction, and where nulls go. */
  datatype Wanted = Wanted(asc: bool, nullsLast: bool)

  predicate Before(o: Wanted, a: Value, b: Value)
  {
    if a.NullV? then b.NullV? || !o.nullsLast
    else if b.NullV? then o.nullsLast
    else if o.asc then Cmp(a, b) <= 0
    else Cmp(b, a) <= 0
  }

  lemma BeforeIsOrder(o: Wanted, a: Value, b: Value, c: Value)
    ensures Before(o, a, a)
    ensures Before(o, a, b) || Before(o, b, a)
    ensures Before(o, a, b) && Before(o, b, a) ==> a == b
    ensures Before(o, a, b) && Before(o, b, c) ==> Before(o, a, c)
  {
    CmpIsOrder(a, b, c);
    CmpIsOrder(c, b, a);
  }

  // ----- the rows that a LIMIT keeps -----

  /** `ms` are the first `n` rows of `all`, or all of them if there are fewer. */
  predicate IsFirst(ms: multiset<Value>, all: multiset<Value>, n: nat, o: Wanted)
  {
    && ms <= all && |ms| == Min(n, |all|)
    && forall a, b :: a in ms && b in all - ms ==> Before(o, a, b)
  }

  lemma SameSizeSubset(a: multiset<Value>, b: multiset<Value>)
    requires a <= b && |a| == |b|
    ensures a == b
  {
    assert b == a + (b - a);
    assert |b - a| == 0;
  }

  lemma SubsetSize(a: multiset<Value>, b: multiset<Value>)
    ensures a <= b ==> |a| <= |b|
  {
    if a <= b { assert b == a + (b - a); }
  }

  lemma ProperSubsetSize(a: multiset<Value>, b: multiset<Value>, x: Value)
    requires a <= b && x in b && x !in a
    ensures |a| < |b|
  {
    assert b == (a + multiset{x}) + (b - (a + multiset{x}));
  }

  /** The first `n` rows are unique: ties are between equal values. */
  lemma FirstIsUnique(a: multiset<Value>, b: multiset<Value>, all: multiset<Value>, n: nat, o: Wanted)
    requires IsFirst(a, all, n, o) && IsFirst(b, all, n, o)
    ensures a == b
  {
    if a <= b {
      SameSizeSubset(a, b);
    } else if b <= a {
      SameSizeSubset(b, a);
    } else {
      var x :| a[x] > b[x];
      var y :| b[y] > a[y];
      assert x in all - b && y in all - a;
      BeforeIsOrder(o, x, y, x);
    }
  }

  lemma {:induction false} FirstOf(s: multiset<Value>, o: Wanted) returns (m: Value)
    requires |s| > 0
    ensures m in s && forall x :: x in s ==> Before(o, m, x)
    decreases |s|
  {
    var e :| e in s;
    var rest := s - multiset{e};
    var f := e;
    if |rest| > 0 { f := FirstOf(rest, o); }
    BeforeIsOrder(o, e, f, e);
    m := if Before(o, e, f) then e else f;
    forall x | x in s ensures Before(o, m, x) {
      if x != e { assert x in rest; }
      BeforeIsOrder(o, m, f, x);
      BeforeIsOrder(o, m, e, x);
    }
  }

  /** Every collection has its first `n` rows. */
  lemma {:induction false} FirstExists(all: multiset<Value>, n: nat, o: Wanted) returns (ms: multiset<Value>)
    ensures IsFirst(ms, all, n, o)
    decreases n
  {
    ms := multiset{};
    if n > 0 && |all| > 0 {
      var m := FirstOf(all, o);
      var rest := all - multiset{m};
      var more := FirstExists(rest, n - 1, o);
      ms := more + multiset{m};
      assert all == rest + multiset{m};
      assert all - ms == rest - more;
    }
  }

  // ----- contents of the blocks -----

  /** What a block's order column holds: its values and its number of nulls. */
  datatype BlockKeys = BlockKeys(values: seq<Value>, nulls: nat)

  function AllOf(rows: BlockKeys): multiset<Value> { multiset(rows.values) + Nulls(rows.nulls) }

  function Nulls(n: nat): (m: multiset<Value>)
    ensures |m| == n && forall v :: v in m ==> v.NullV? && n > 0
    ensures n > 0 ==> NullV in m
  {
    if n == 0 then multiset{} else Nulls(n - 1) + multiset{NullV}
  }

  predicate RangeOk(r: KeyRange) { !r.lo.NullV? && !r.hi.NullV? && Cmp(r.lo, r.hi) <= 0 }

  /** Every unit with values has a zone map with a non-empty range; `nulls` are the units'
      null counts. */
  predicate Ranged(units: seq<OrderedUnit>, nulls: seq<nat>)
  {
    |nulls| == |units| &&
    forall i :: 0 <= i < |units| ==>
      nulls[i] <= units[i].total && (nulls[i] < units[i].total ==> units[i].range.Some? && RangeOk(units[i].range.value))
  }

  /** The block may hold these rows: as many values and nulls as the metadata says, or any
      part of them when filters drop some; all values within the zone map's range. */
  predicate MayHold(u: OrderedUnit, nulls: nat, rows: BlockKeys, filtered: bool)
    requires nulls <= u.total
  {
    && (if filtered then rows.nulls <= nulls && |rows.values| <= u.total - nulls
        else rows.nulls == nulls && |rows.values| == u.total - nulls)
    && forall v :: v in rows.values ==> !v.NullV? && u.range.Some? && Within(u.range.value, v)
  }

  predicate Possible(units: seq<OrderedUnit>, nulls: seq<nat>, contents: seq<BlockKeys>, filtered: bool)
    requires Ranged(units, nulls)
  {
    |contents| == |units| && forall i :: 0 <= i < |units| ==> MayHold(units[i], nulls[i], contents[i], filtered)
  }

  /** All rows of the first `n` blocks. */
  function Collect(contents: seq<BlockKeys>, n: nat): multiset<Value>
    requires n <= |contents|
  {
    if n == 0 then multiset{} else Collect(contents, n - 1) + AllOf(contents[n - 1])
  }

  /** Keeping the first `k` blocks changes no answer: whatever the blocks hold, the first
      `limit` rows of the kept blocks are the first `limit` rows of all. */
  ghost predicate CutIsSafe(units: seq<OrderedUnit>, nulls: seq<nat>, k: nat, limit: nat, o: Wanted, filtered: bool)
    requires Ranged(units, nulls) && k <= |units|
  {
    forall contents | Possible(units, nulls, contents, filtered) :: SameFirst(contents, k, limit, o)
  }

  ghost predicate SameFirst(contents: seq<BlockKeys>, k: nat, limit: nat, o: Wanted)
    requires k <= |contents|
  {
    forall ms :: IsFirst(ms, Collect(contents, k), limit, o) <==> IsFirst(ms, Collect(contents, |contents|), limit, o)
  }

  function StartOf(asc: bool, r: KeyRange): Value { if asc then r.lo else r.hi }
  function EndOf(asc: bool, r: KeyRange): Value { if asc then r.hi else r.lo }

  /** The values of the unit are sure to come no later than `x`. */
  predicate EndsBefore(u: OrderedUnit, x: Value, o: Wanted)
  {
    u.range.Some? && Before(o, EndOf(o.asc, u.range.value), x)
  }

  /** Rows of the first `n` blocks that are sure to come no later than `x`: values of blocks
      whose whole range does, and nulls if a null does. */
  function SureBefore(units: seq<OrderedUnit>, nulls: seq<nat>, n: nat, x: Value, o: Wanted): nat
    requires Ranged(units, nulls) && n <= |units|
  {
    if n == 0 then 0
    else
      SureBefore(units, nulls, n - 1, x, o) +
      (if EndsBefore(units[n - 1], x, o) then units[n - 1].total - nulls[n - 1] else 0) +
      if Before(o, NullV, x) then nulls[n - 1] else 0
  }

  /** Wherever a dropped block may have its earliest value, and its nulls, `limit` kept rows
      are sure to have come. */
  predicate Covered(units: seq<OrderedUnit>, nulls: seq<nat>, k: nat, limit: nat, o: Wanted, d: nat)
    requires Ranged(units, nulls) && k <= d < |units|
  {
    && (nulls[d] < units[d].total ==> SureBefore(units, nulls, k, StartOf(o.asc, units[d].range.value), o) >= limit)
    && (nulls[d] > 0 ==> SureBefore(units, nulls, k, NullV, o) >= limit)
  }

  predicate ZonesAllowCut(units: seq<OrderedUnit>, nulls: seq<nat>, k: nat, limit: nat, o: Wanted)
    requires Ranged(units, nulls) && k <= |units|
  {
    forall d :: k <= d < |units| ==> Covered(units, nulls, k, limit, o, d)
  }

  lemma {:induction false} CollectPrefix(contents: seq<BlockKeys>, k: nat, n: nat)
    requires k <= n <= |contents|
    ensures Collect(contents, k) <= Collect(contents, n)
    decreases n
  {
    hide AllOf;
    if k < n { CollectPrefix(contents, k, n - 1); }
  }

  /** A dropped row is a row of a dropped block. */
  lemma {:induction false} DroppedFrom(contents: seq<BlockKeys>, k: nat, n: nat, b: Value) returns (d: nat)
    requires k <= n <= |contents| && b in Collect(contents, n) - Collect(contents, k)
    ensures k <= d < n && b in AllOf(contents[d])
    decreases n
  {
    hide AllOf;
    if n > k {
      if b in AllOf(contents[n - 1]) {
        d := n - 1;
      } else {
        d := DroppedFrom(contents, k, n - 1, b);
      }
    } else {
      assert false;
    }
  }

  lemma {:induction false} DroppedRow(contents: seq<BlockKeys>, k: nat, n: nat, d: nat, b: Value)
    requires k <= d < n <= |contents| && b in AllOf(contents[d])
    ensures b in Collect(contents, n) - Collect(contents, k)
    decreases n
  {
    hide AllOf;
    if d < n - 1 {
      DroppedRow(contents, k, n - 1, d, b);
    } else {
      CollectPrefix(contents, k, d);
    }
  }

  /** The rows of a block counted by `SureBefore`. */
  function SureOf(u: OrderedUnit, rows: BlockKeys, x: Value, o: Wanted): multiset<Value>
  {
    (if EndsBefore(u, x, o) then multiset(rows.values) else multiset{}) +
    if Before(o, NullV, x) then Nulls(rows.nulls) else multiset{}
  }

  function SureRows(units: seq<OrderedUnit>, contents: seq<BlockKeys>, n: nat, x: Value, o: Wanted): multiset<Value>
    requires n <= |units| == |contents|
  {
    if n == 0 then multiset{}
    else SureRows(units, contents, n - 1, x, o) + SureOf(units[n - 1], contents[n - 1], x, o)
  }

  lemma WithinIsBetween(o: Wanted, r: KeyRange, v: Value)
    requires Within(r, v) && RangeOk(r) && !v.NullV?
    ensures Before(o, StartOf(o.asc, r), v) && Before(o, v, EndOf(o.asc, r))
  {
  }

  lemma SureOfIsSure(u: OrderedUnit, nulls: nat, rows: BlockKeys, x: Value, o: Wanted)
    requires nulls <= u.total && (nulls < u.total ==> u.range.Some? && RangeOk(u.range.value)) && MayHold(u, nulls, rows, false)
    ensures SureOf(u, rows, x, o) <= AllOf(rows)
    ensures |SureOf(u, rows, x, o)| ==
      (if EndsBefore(u, x, o) then u.total - nulls else 0) + if Before(o, NullV, x) then nulls else 0
    ensures forall c :: c in SureOf(u, rows, x, o) ==> Before(o, c, x)
  {
    forall c | c in rows.values && EndsBefore(u, x, o) ensures Before(o, c, x) {
      WithinIsBetween(o, u.range.value, c);
      BeforeIsOrder(o, c, EndOf(o.asc, u.range.value), x);
    }
  }

  lemma {:induction false} SureRowsAreSure(units: seq<OrderedUnit>, nulls: seq<nat>, contents: seq<BlockKeys>, n: nat, x: Value, o: Wanted)
    requires Ranged(units, nulls) && Possible(units, nulls, contents, false) && n <= |units|
    ensures SureRows(units, contents, n, x, o) <= Collect(contents, n)
    ensures |SureRows(units, contents, n, x, o)| == SureBefore(units, nulls, n, x, o)
    ensures forall c :: c in SureRows(units, contents, n, x, o) ==> Before(o, c, x)
  {
    hide SureOf;
    hide EndsBefore;
    hide Before;
    hide MayHold;
    hide AllOf;
    hide RangeOk;
    if n > 0 {
      SureRowsAreSure(units, nulls, contents, n - 1, x, o);
      assert MayHold(units[n - 1], nulls[n - 1], contents[n - 1], false);
      SureOfIsSure(units[n - 1], nulls[n - 1], contents[n - 1], x, o);
    }
  }

  /** With `limit` rows known to come no later than `x`, none of the first `limit` comes
      after it. */
  lemma FirstComesBefore(ms: multiset<Value>, all: multiset<Value>, sure: multiset<Value>, limit: nat, o: Wanted, a: Value, x: Value)
    requires IsFirst(ms, all, limit, o) && sure <= all && |sure| >= limit && a in ms
    requires forall c :: c in sure ==> Before(o, c, x)
    ensures Before(o, a, x)
  {
    if !Before(o, a, x) {
      if sure <= ms {
        ProperSubsetSize(sure, ms, a);
      } else {
        var c :| sure[c] > ms[c];
        assert c in all - ms;
        BeforeIsOrder(o, a, c, x);
      }
    }
  }

  lemma KeptFirstIsFirst(units: seq<OrderedUnit>, nulls: seq<nat>, k: nat, limit: nat, o: Wanted, contents: seq<BlockKeys>, ms: multiset<Value>)
    requires Ranged(units, nulls) && k <= |units| && ZonesAllowCut(units, nulls, k, limit, o)
    requires Possible(units, nulls, contents, false) && IsFirst(ms, Collect(contents, k), limit, o)
    ensures IsFirst(ms, Collect(contents, |units|), limit, o)
  {
    hide Before;
    hide ZonesAllowCut;
    hide MayHold;
    var kept, all := Collect(contents, k), Collect(contents, |units|);
    CollectPrefix(contents, k, |units|);
    if |kept| == |all| {
      SameSizeSubset(kept, all);
    } else {
      EnoughKept(units, nulls, k, limit, o, contents);
      forall a, b | a in ms && b in all - ms ensures Before(o, a, b) {
        if b !in kept - ms {
          assert b in all - kept;
          var sure := DroppedBound(units, nulls, k, limit, o, contents, b);
          FirstComesBefore(ms, kept, sure, limit, o, a, b);
        }
      }
    }
  }

  lemma EnoughKept(units: seq<OrderedUnit>, nulls: seq<nat>, k: nat, limit: nat, o: Wanted, contents: seq<BlockKeys>)
    requires Ranged(units, nulls) && k <= |units| && ZonesAllowCut(units, nulls, k, limit, o) && Possible(units, nulls, contents, false)
    requires |Collect(contents, k)| != |Collect(contents, |units|)|
    ensures limit <= |Collect(contents, k)| < |Collect(contents, |units|)|
  {
    hide ZonesAllowCut;
    hide Before;
    hide MayHold;
    var kept, all := Collect(contents, k), Collect(contents, |units|);
    CollectPrefix(contents, k, |units|);
    assert all == kept + (all - kept);
    var b :| b in all - kept;
    var sure := DroppedBound(units, nulls, k, limit, o, contents, b);
    assert kept == sure + (kept - sure);
  }

  /** At least `limit` kept rows come no later than any dropped row. */
  lemma DroppedBound(units: seq<OrderedUnit>, nulls: seq<nat>, k: nat, limit: nat, o: Wanted, contents: seq<BlockKeys>, b: Value)
    returns (sure: multiset<Value>)
    requires Ranged(units, nulls) && k <= |units| && ZonesAllowCut(units, nulls, k, limit, o) && Possible(units, nulls, contents, false)
    requires b in Collect(contents, |units|) - Collect(contents, k)
    ensures sure <= Collect(contents, k) && |sure| >= limit && forall c :: c in sure ==> Before(o, c, b)
  {
    hide Before;
    hide SureBefore;
    var d := DroppedFrom(contents, k, |units|, b);
    assert MayHold(units[d], nulls[d], contents[d], false);
    assert Covered(units, nulls, k, limit, o, d);
    var x := EarliestOf(units[d], nulls[d], contents[d], o, b);
    sure := SureRows(units, contents, k, x, o);
    SureRowsAreSure(units, nulls, contents, k, x, o);
    forall c | c in sure ensures Before(o, c, b) { BeforeIsOrder(o, c, x, b); }
  }

  /** A row comes no earlier than the start of its block's range, or is a null. */
  lemma EarliestOf(u: OrderedUnit, nulls: nat, rows: BlockKeys, o: Wanted, b: Value) returns (x: Value)
    requires nulls <= u.total && (nulls < u.total ==> u.range.Some? && RangeOk(u.range.value)) && MayHold(u, nulls, rows, false)
    requires b in AllOf(rows)
    ensures Before(o, x, b)
    ensures (nulls < u.total && x == StartOf(o.asc, u.range.value)) || (nulls > 0 && x == NullV)
  {
    if b in rows.values {
      x := StartOf(o.asc, u.range.value);
      WithinIsBetween(o, u.range.value, b);
    } else {
      x := NullV;
    }
  }

  lemma SameFirstFrom(contents: seq<BlockKeys>, k: nat, limit: nat, o: Wanted)
    requires k <= |contents|
    requires forall ms :: IsFirst(ms, Collect(contents, k), limit, o) ==> IsFirst(ms, Collect(contents, |contents|), limit, o)
    ensures SameFirst(contents, k, limit, o)
  {
    var ms0 := FirstExists(Collect(contents, k), limit, o);
    forall ms | IsFirst(ms, Collect(contents, |contents|), limit, o) ensures IsFirst(ms, Collect(contents, k), limit, o) {
      FirstIsUnique(ms, ms0, Collect(contents, |contents|), limit, o);
    }
  }

  // ----- the converse: worst-case contents -----

  /** The values of kept blocks are all their last, those of dropped blocks their first. */
  function WorstRows(u: OrderedUnit, nulls: nat, kept: bool, o: Wanted): BlockKeys
    requires nulls <= u.total
  {
    BlockKeys(if u.range.None? || nulls == u.total then []
              else seq(u.total - nulls, _ => if kept then EndOf(o.asc, u.range.value) else StartOf(o.asc, u.range.value)),
              nulls)
  }

  function WorstCase(units: seq<OrderedUnit>, nulls: seq<nat>, k: nat, o: Wanted): (contents: seq<BlockKeys>)
    requires Ranged(units, nulls) && k <= |units|
    ensures |contents| == |units|
  {
    seq(|units|, i requires 0 <= i < |units| => WorstRows(units[i], nulls[i], i < k, o))
  }

  lemma WorstRowsPossible(u: OrderedUnit, nulls: nat, kept: bool, o: Wanted)
    requires nulls <= u.total && (nulls < u.total ==> u.range.Some? && RangeOk(u.range.value))
    ensures MayHold(u, nulls, WorstRows(u, nulls, kept, o), false)
  {
    if nulls < u.total {
      var r := u.range.value;
      CmpIsOrder(r.lo, r.lo, r.hi);
      CmpIsOrder(r.hi, r.hi, r.lo);
    }
  }

  lemma WorstCaseIsPossible(units: seq<OrderedUnit>, nulls: seq<nat>, k: nat, o: Wanted)
    requires Ranged(units, nulls) && k <= |units|
    ensures Possible(units, nulls, WorstCase(units, nulls, k, o), false)
  {
    hide WorstRows;
    hide MayHold;
    forall i | 0 <= i < |units| ensures MayHold(units[i], nulls[i], WorstCase(units, nulls, k, o)[i], false) {
      WorstRowsPossible(units[i], nulls[i], i < k, o);
    }
  }

  /** In the worst case no kept row comes before `x` but those sure to. */
  lemma WorstRowsAreSure(u: OrderedUnit, nulls: nat, x: Value, o: Wanted, c: Value)
    requires nulls <= u.total && (nulls < u.total ==> u.range.Some? && RangeOk(u.range.value)) && Before(o, c, x)
    ensures AllOf(WorstRows(u, nulls, true, o))[c] == SureOf(u, WorstRows(u, nulls, true, o), x, o)[c]
  {
    var rows := WorstRows(u, nulls, true, o);
    if c in rows.values { assert c == EndOf(o.asc, u.range.value); }
    hide Before;
    hide EndOf;
    hide WorstRows;
  }

  lemma {:induction false} OtherRowsComeLater(units: seq<OrderedUnit>, nulls: seq<nat>, k: nat, n: nat, x: Value, o: Wanted, c: Value)
    requires Ranged(units, nulls) && n <= k <= |units| && Before(o, c, x)
    ensures Collect(WorstCase(units, nulls, k, o), n)[c] == SureRows(units, WorstCase(units, nulls, k, o), n, x, o)[c]
  {
    hide WorstRows;
    hide SureOf;
    hide Before;
    hide RangeOk;
    hide AllOf;
    if n > 0 {
      OtherRowsComeLater(units, nulls, k, n - 1, x, o, c);
      WorstRowsAreSure(units[n - 1], nulls[n - 1], x, o, c);
    }
  }

  /** So the first `limit` rows of the worst case reach past `x`. */
  lemma SomeRowIsLater(units: seq<OrderedUnit>, nulls: seq<nat>, k: nat, x: Value, limit: nat, o: Wanted, ms: multiset<Value>)
    returns (a: Value)
    requires Ranged(units, nulls) && k <= |units| && SureBefore(units, nulls, k, x, o) < limit
    requires ms <= Collect(WorstCase(units, nulls, k, o), k) && |ms| == limit
    ensures a in ms && !Before(o, a, x)
  {
    hide Before;
    hide WorstCase;
    hide Ranged;
    var w := WorstCase(units, nulls, k, o);
    var sure := SureRows(units, w, k, x, o);
    WorstCaseIsPossible(units, nulls, k, o);
    SureRowsAreSure(units, nulls, w, k, x, o);
    SubsetSize(ms, sure);
    a :| ms[a] > sure[a];
    if Before(o, a, x) { OtherRowsComeLater(units, nulls, k, k, x, o, a); }
  }

  /** A dropped row of the worst case that too few kept rows are sure to precede is lost. */
  lemma CutLosesRow(units: seq<OrderedUnit>, nulls: seq<nat>, k: nat, limit: nat, o: Wanted, d: nat, x: Value)
    requires Ranged(units, nulls) && k <= d < |units|
    requires x in AllOf(WorstRows(units[d], nulls[d], false, o)) && SureBefore(units, nulls, k, x, o) < limit
    ensures !SameFirst(WorstCase(units, nulls, k, o), k, limit, o)
  {
    var w := WorstCase(units, nulls, k, o);
    assert w[d] == WorstRows(units[d], nulls[d], false, o);
    hide Before;
    hide WorstCase;
    hide WorstRows;
    hide SureBefore;
    hide Ranged;
    var kept, all := Collect(w, k), Collect(w, |units|);
    var ms := FirstExists(kept, limit, o);
    DroppedRow(w, k, |units|, d, x);
    CollectPrefix(w, k, |units|);
    assert all == kept + (all - kept);
    if IsFirst(ms, all, limit, o) {
      assert x in all - ms;
      var a := SomeRowIsLater(units, nulls, k, x, limit, o, ms);
    }
  }

  lemma UncoveredRow(units: seq<OrderedUnit>, nulls: seq<nat>, k: nat, limit: nat, o: Wanted, d: nat) returns (x: Value)
    requires Ranged(units, nulls) && k <= d < |units| && !Covered(units, nulls, k, limit, o, d)
    ensures x in AllOf(WorstRows(units[d], nulls[d], false, o)) && SureBefore(units, nulls, k, x, o) < limit
  {
    hide SureBefore;
    if nulls[d] > 0 && SureBefore(units, nulls, k, NullV, o) < limit {
      x := NullV;
    } else {
      x := StartOf(o.asc, units[d].range.value);
      assert WorstRows(units[d], nulls[d], false, o).values[0] == x;
    }
  }

  /** Exactly when cutting off after `k` blocks is safe for whatever the blocks hold
      within their zone maps, with these null counts. */
  lemma CutSafeIff(units: seq<OrderedUnit>, nulls: seq<nat>, k: nat, limit: nat, o: Wanted)
    requires Ranged(units, nulls) && k <= |units|
    ensures CutIsSafe(units, nulls, k, limit, o, false) <==> ZonesAllowCut(units, nulls, k, limit, o)
  {
    hide Ranged;
    hide Covered;
    hide MayHold;
    hide IsFirst;
    if ZonesAllowCut(units, nulls, k, limit, o) {
      forall contents | Possible(units, nulls, contents, false) ensures SameFirst(contents, k, limit, o) {
        AllowedCutKeepsFirst(units, nulls, k, limit, o, contents);
      }
    } else {
      var d :| k <= d < |units| && !Covered(units, nulls, k, limit, o, d);
      var x := UncoveredRow(units, nulls, k, limit, o, d);
      CutLosesRow(units, nulls, k, limit, o, d, x);
      WorstCaseIsPossible(units, nulls, k, o);
    }
  }

  lemma AllowedCutKeepsFirst(units: seq<OrderedUnit>, nulls: seq<nat>, k: nat, limit: nat, o: Wanted, contents: seq<BlockKeys>)
    requires Ranged(units, nulls) && k <= |units| && ZonesAllowCut(units, nulls, k, limit, o)
    requires Possible(units, nulls, contents, false)
    ensures SameFirst(contents, k, limit, o)
  {
    hide Ranged;
    hide ZonesAllowCut;
    hide MayHold;
    hide IsFirst;
    forall ms | IsFirst(ms, Collect(contents, k), limit, o) ensures IsFirst(ms, Collect(contents, |contents|), limit, o) {
      KeptFirstIsFirst(units, nulls, k, limit, o, contents, ms);
    }
    SameFirstFrom(contents, k, limit, o);
  }

  /** Under filters the row counts that decide the cut are not counts of passing rows, so
      the cut is safe only when everything dropped is empty. */
  lemma FilteredCutSafeIff(units: seq<OrderedUnit>, nulls: seq<nat>, k: nat, limit: nat, o: Wanted)
    requires Ranged(units, nulls) && k <= |units| && limit > 0
    ensures CutIsSafe(units, nulls, k, limit, o, true) <==> forall d :: k <= d < |units| ==> units[d].total == 0
  {
    if d :| k <= d < |units| && units[d].total > 0 {
      OnlyDroppedRow(units, nulls, k, limit, o, d);
    } else {
      forall contents | Possible(units, nulls, contents, true) ensures SameFirst(contents, k, limit, o) {
        assert forall d :: k <= d < |units| ==> MayHold(units[d], nulls[d], contents[d], true);
        EmptyBlocks(contents, k, |units|);
      }
    }
  }

  /** One row that the block may hold. */
  function OneRow(u: OrderedUnit, nulls: nat): BlockKeys
  {
    if nulls > 0 || u.range.None? then BlockKeys([], 1) else BlockKeys([u.range.value.lo], 0)
  }

  lemma OneRowMayPass(u: OrderedUnit, nulls: nat)
    requires 0 < u.total && nulls <= u.total && (nulls < u.total ==> u.range.Some? && RangeOk(u.range.value))
    ensures MayHold(u, nulls, OneRow(u, nulls), true) && |AllOf(OneRow(u, nulls))| == 1
  {
    if nulls < u.total { CmpIsOrder(u.range.value.lo, u.range.value.lo, u.range.value.lo); }
  }

  /** When the only passing row is in a dropped block, it is lost. */
  lemma OnlyDroppedRow(units: seq<OrderedUnit>, nulls: seq<nat>, k: nat, limit: nat, o: Wanted, d: nat)
    requires Ranged(units, nulls) && k <= d < |units| && limit > 0 && units[d].total > 0
    ensures !CutIsSafe(units, nulls, k, limit, o, true)
  {
    var contents := OnlyAt(|units|, d, OneRow(units[d], nulls[d]));
    OneRowMayPass(units[d], nulls[d]);
    hide OneRow;
    OthersPossible(units, nulls, contents, d);
    hide Ranged;
    hide Possible;
    EmptyBlocks(contents, 0, k);
    hide AllOf;
    hide SameFirst;
    var x :| x in AllOf(contents[d]);
    DroppedRow(contents, k, |units|, d, x);
    NoneKept(contents, k, limit, o, x);
  }

  function OnlyAt(n: nat, d: nat, rows: BlockKeys): (contents: seq<BlockKeys>)
    ensures |contents| == n
  {
    seq(n, i => if i == d then rows else BlockKeys([], 0))
  }

  lemma NoneKept(contents: seq<BlockKeys>, k: nat, limit: nat, o: Wanted, x: Value)
    requires k <= |contents| && limit > 0 && Collect(contents, k) == multiset{}
    requires x in Collect(contents, |contents|) - Collect(contents, k)
    ensures !SameFirst(contents, k, limit, o)
  {
    hide Collect;
    hide Before;
    assert IsFirst(multiset{}, Collect(contents, k), limit, o);
    assert !IsFirst(multiset{}, Collect(contents, |contents|), limit, o);
  }

  lemma {:induction false} EmptyBlocks(contents: seq<BlockKeys>, k: nat, n: nat)
    requires k <= n <= |contents| && forall i :: k <= i < n ==> contents[i] == BlockKeys([], 0)
    ensures Collect(contents, n) == Collect(contents, k)
    decreases n
  {
    hide AllOf;
    if k < n {
      EmptyBlocks(contents, k, n - 1);
      NothingIn();
    }
  }

  lemma NothingIn()
    ensures AllOf(BlockKeys([], 0)) == multiset{}
  {
  }

  lemma OthersPossible(units: seq<OrderedUnit>, nulls: seq<nat>, contents: seq<BlockKeys>, d: nat)
    requires Ranged(units, nulls) && |contents| == |units| && d < |units| && MayHold(units[d], nulls[d], contents[d], true)
    requires forall i :: 0 <= i < |units| && i != d ==> contents[i] == BlockKeys([], 0)
    ensures Possible(units, nulls, contents, true)
  {
    hide RangeOk;
  }

  // ----- disjoint ranges -----

  /** No two blocks with rows overlap or touch. */
  predicate Disjoint(units: seq<OrderedUnit>, nulls: seq<nat>)
    requires Ranged(units, nulls)
  {
    forall i, j :: 0 <= i < j < |units| && nulls[i] < units[i].total && nulls[j] < units[j].total ==>
      Apart(units[i].range.value, units[j].range.value)
  }

  predicate Apart(a: KeyRange, b: KeyRange) { Cmp(a.hi, b.lo) < 0 || Cmp(b.hi, a.lo) < 0 }

  /** Sorted disjoint ranges follow one another, whichever end they are sorted by. */
  lemma SortedAreSuccessive(a: OrderedUnit, b: OrderedUnit, o: Wanted, useMin: bool)
    requires a.range.Some? && b.range.Some? && RangeOk(a.range.value) && RangeOk(b.range.value)
    requires Apart(a.range.value, b.range.value) && !Precedes(o.asc, SortKey(b, useMin), SortKey(a, useMin))
    ensures Before(o, EndOf(o.asc, a.range.value), StartOf(o.asc, b.range.value))
  {
    var r, s := a.range.value, b.range.value;
    CmpIsOrder(r.lo, r.hi, s.lo);
    CmpIsOrder(r.lo, s.lo, s.hi);
    CmpIsOrder(s.lo, s.hi, r.lo);
    CmpIsOrder(s.lo, r.lo, r.hi);
    CmpIsOrder(r.hi, s.hi, r.lo);
    CmpIsOrder(s.hi, r.lo, r.hi);
    CmpIsOrder(r.hi, s.lo, s.hi);
  }

  lemma {:induction false} AllSureBefore(units: seq<OrderedUnit>, nulls: seq<nat>, n: nat, x: Value, o: Wanted)
    requires Ranged(units, nulls) && n <= |units|
    requires forall i :: 0 <= i < n ==> nulls[i] == 0 && (units[i].total > 0 ==> EndsBefore(units[i], x, o))
    ensures SureBefore(units, nulls, n, x, o) == RowsIn(units, n)
  {
    if n > 0 { AllSureBefore(units, nulls, n - 1, x, o); }
  }

  predicate NoNulls(nulls: seq<nat>) { forall i :: 0 <= i < |nulls| ==> nulls[i] == 0 }

  /** Without filters or nulls, and when no two ranges overlap or touch, the truncated queue
      has the same first `limit` rows as the whole one, in either direction. */
  lemma DisjointCutIsSafe(units: seq<OrderedUnit>, nulls: seq<nat>, k: nat, limit: nat, o: Wanted, useMin: bool)
    requires Ranged(units, nulls) && NoNulls(nulls) && Sorted(units, o.asc, useMin) && CutAt(units, k, limit)
    requires Disjoint(units, nulls)
    ensures CutIsSafe(units, nulls, k, limit, o, false)
  {
    forall d | k <= d < |units| ensures Covered(units, nulls, k, limit, o, d) {
      if units[d].total > 0 {
        var x := StartOf(o.asc, units[d].range.value);
        forall i | 0 <= i < k && units[i].total > 0 ensures EndsBefore(units[i], x, o) {
          assert !Precedes(o.asc, SortKey(units[d], useMin), SortKey(units[i], useMin));
          SortedAreSuccessive(units[i], units[d], o, useMin);
        }
        AllSureBefore(units, nulls, k, x, o);
      }
    }
    CutSafeIff(units, nulls, k, limit, o);
  }

  /** Two blocks of integers, the first with nulls. */
  function TwoBlocks(total: nat, lo: int, hi: int, nextLo: int, nextHi: int): seq<OrderedUnit>
  {
    [OrderedUnit(WorkUnit(0, 0), total, Some(KeyRange(IntV(lo), IntV(hi)))),
     OrderedUnit(WorkUnit(0, 1), 1, Some(KeyRange(IntV(nextLo), IntV(nextHi))))]
  }

  lemma SecondUncovered(units: seq<OrderedUnit>, nulls: seq<nat>, limit: nat, o: Wanted)
    requires Ranged(units, nulls) && |units| == 2 && o.nullsLast && nulls[1] < units[1].total
    requires limit > if EndsBefore(units[0], StartOf(o.asc, units[1].range.value), o) then units[0].total - nulls[0] else 0
    ensures !Covered(units, nulls, 1, limit, o, 1)
  {
    var x := StartOf(o.asc, units[1].range.value);
    assert RangeOk(units[1].range.value);
    hide EndsBefore;
    hide StartOf;
    assert SureBefore(units, nulls, 0, x, o) == 0;
  }

  lemma UncoveredIsUnsafe(units: seq<OrderedUnit>, nulls: seq<nat>, k: nat, limit: nat, o: Wanted, d: nat)
    requires Ranged(units, nulls) && k <= d < |units| && !Covered(units, nulls, k, limit, o, d)
    ensures !CutIsSafe(units, nulls, k, limit, o, false)
  {
    hide Ranged;
    hide Covered;
    hide CutIsSafe;
    CutSafeIff(units, nulls, k, limit, o);
  }

  /** Dropping the second block is unsafe when it starts before the first ends, or when the
      first reaches the limit only with its nulls. */
  lemma SecondLost(total: nat, nulls: nat, lo: int, hi: int, nextLo: int, nextHi: int, limit: nat)
    requires lo <= hi && nextLo <= nextHi && lo <= nextLo && nulls < total && 0 < limit <= total
    requires nextLo < hi || total - nulls < limit
    ensures LosesRows(TwoBlocks(total, lo, hi, nextLo, nextHi), [nulls, 0], limit)
  {
    var units := TwoBlocks(total, lo, hi, nextLo, nextHi);
    assert RowsIn(units, 0) == 0 && RowsIn(units, 1) == total;
    assert Ranged(units, [nulls, 0]);
    SecondUncovered(units, [nulls, 0], limit, Wanted(true, true));
    hide Covered;
    UncoveredIsUnsafe(units, [nulls, 0], 1, limit, Wanted(true, true), 1);
    hide CutIsSafe;
  }

  /** A cut after the first of these units that loses a row. */
  ghost predicate LosesRows(units: seq<OrderedUnit>, nulls: seq<nat>, limit: nat)
  {
    && Ranged(units, nulls) && Sorted(units, true, true) && |units| > 1 && CutAt(units, 1, limit)
    && !CutIsSafe(units, nulls, 1, limit, Wanted(true, true), false)
  }

  /** Overlapping ranges: a block of 0 to 10 is kept and a block of 1 to 2 dropped, which
      may hold the smallest row. */
  lemma OverlapLosesRows()
    ensures LosesRows(TwoBlocks(1, 0, 10, 1, 2), [0, 0], 1)
  {
    SecondLost(1, 0, 0, 10, 1, 2, 1);
    hide *;
  }

  /** Nulls count towards the limit: of two null rows and a 0, all in one block, and a block
      of a 1, LIMIT 2 keeps only the first block. */
  lemma NullsLoseRows() returns (units: seq<OrderedUnit>, nulls: seq<nat>, limit: nat)
    ensures units == TwoBlocks(3, 0, 0, 1, 1) && nulls == [2, 0] && limit == 2
    ensures LosesRows(units, nulls, limit)
  {
    hide *;
    SecondLost(3, 2, 0, 0, 1, 1, 2);
    units, nulls, limit := TwoBlocks(3, 0, 0, 1, 1), [2, 0], 2;
  }
}
