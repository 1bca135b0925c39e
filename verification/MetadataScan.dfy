/** The metadata-only path: row counts from the manifest, emitted without file reads. */
module MetadataScan {
  import opened Bytes
  import opened Chunks
  import opened ScanMachine

  /** Subtraction of 64-bit unsigned numbers. */
  function SubU64(a: nat, b: nat): nat
    requires a < 0x1_0000_0000_0000_0000 && b < 0x1_0000_0000_0000_0000
  {
    if a >= b then a - b else a + 0x1_0000_0000_0000_0000 - b
  }

  function EvenShare(rows: nat, blocks: nat): (each: nat)
    requires blocks >= 1
    ensures blocks * each <= rows && (each == 0 <==> rows < blocks)
  {
    rows / blocks
  }

  function LastShare(rows: nat, blocks: nat): (last: nat)
    requires blocks >= 1
    ensures last == rows - (blocks - 1) * EvenShare(rows, blocks)
    ensures last >= EvenShare(rows, blocks)
  {
    var each := EvenShare(rows, blocks);
    assert (blocks - 1) * each == blocks * each - each;
    rows - (blocks - 1) * each
  }

  /** Rows of block `idx` of an object with `rows` rows in `blocks` blocks, from the
      manifest's 32-bit counts. */
  function ManifestBlockRowCount(rows: nat, blocks: nat, idx: nat): nat
    requires rows < 0x1_0000_0000 && blocks < 0x1_0000_0000
  {
    if blocks <= 1 then rows
    else if rows <= 8192 then
      if idx + 1 < blocks then EvenShare(rows, blocks) else LastShare(rows, blocks)
    else if idx + 1 < blocks then 8192
    else SubU64(rows, (blocks - 1) * 8192)
  }

  function SumOfCounts(rows: nat, blocks: nat, n: nat): nat
    requires rows < 0x1_0000_0000 && blocks < 0x1_0000_0000
  {
    if n == 0 then 0 else SumOfCounts(rows, blocks, n - 1) + ManifestBlockRowCount(rows, blocks, n - 1)
  }

  lemma {:induction false} SumBeforeLast(rows: nat, blocks: nat, n: nat, each: nat)
    requires rows < 0x1_0000_0000 && 1 < blocks < 0x1_0000_0000 && n < blocks
    requires each == if rows <= 8192 then EvenShare(rows, blocks) else 8192
    ensures SumOfCounts(rows, blocks, n) == n * each
  {
    if n > 0 {
      SumBeforeLast(rows, blocks, n - 1, each);
      assert n * each == (n - 1) * each + each;
    }
  }

  /** The per-block counts add up to the object's rows exactly when the object is small
      or large enough for its number of blocks; otherwise the last count wraps around. */
  lemma CountsSumToRows(rows: nat, blocks: nat)
    requires rows < 0x1_0000_0000 && 1 <= blocks < 0x1_0000_0000
    ensures SumOfCounts(rows, blocks, blocks) == rows <==> rows <= 8192 || rows >= 8192 * (blocks - 1)
  {
    if blocks == 1 {
      assert SumOfCounts(rows, 1, 0) == 0;
    } else {
      var each := if rows <= 8192 then EvenShare(rows, blocks) else 8192;
      SumBeforeLast(rows, blocks, blocks - 1, each);
    }
  }

  /** No block's count is zero exactly when there are enough rows to go round. */
  lemma CountsPositive(rows: nat, blocks: nat)
    requires rows < 0x1_0000_0000 && 1 <= blocks < 0x1_0000_0000
    requires rows <= 8192 || rows >= 8192 * (blocks - 1)
    ensures (forall idx :: 0 <= idx < blocks ==> ManifestBlockRowCount(rows, blocks, idx) > 0) <==>
            if rows <= 8192 then rows >= blocks else rows > 8192 * (blocks - 1)
  {
    assert ManifestBlockRowCount(rows, blocks, 0) >= 0 && ManifestBlockRowCount(rows, blocks, blocks - 1) >= 0;
  }

  /** 8193 rows in 3 blocks: after two blocks of 8192 the last count wraps around. */
  lemma LastCountWraps()
    ensures ManifestBlockRowCount(8193, 3, 2) == 0x1_0000_0000_0000_0000 - 8191
    ensures SumOfCounts(8193, 3, 3) != 8193
  {
    CountsSumToRows(8193, 3);
  }

  // ----- the emit loop of this path -----

  /** All rows of `total`, none filtered. */
  function CountedUnit(obj: nat, blk: nat, total: nat): UnitPlan
  {
    UnitPlan(obj, blk, total, true, (_: nat) => true)
  }

  ghost predicate AllCounted(units: seq<UnitPlan>)
  {
    forall i :: 0 <= i < |units| ==> units[i].keep && forall row: nat :: units[i].passes(row)
  }

  /** The unit as the thread's pending block. */
  function Loaded(units: seq<UnitPlan>, i: nat, l: Local): Local
    requires i < |units|
  {
    l.(claim := None, unit := i, offset := 0, total := units[i].total)
  }

  /** One call of this path: drain the pending block, or claim one unit and emit its
      first chunk even if it is empty, which tells the thread "0 rows". */
  ghost function FastCall(units: seq<UnitPlan>, next: nat, l: Local): (r: (nat, Local, seq<RowId>))
    requires AllCounted(units) && LocalOk(units, l) && l.claim.None?
  {
    if HasPending(l) then
      var s := StepLocal(units, next, l);
      (next, s.local, s.rows)
    else if next >= |units| then (next + 1, l.(told := true), [])
    else
      var loaded := Loaded(units, next, l);
      if !HasPending(loaded) then (next + 1, loaded.(total := 0, told := true), [])
      else
        var s := StepLocal(units, next + 1, loaded);
        (next + 1, s.local, s.rows)
  }

  lemma {:induction false} AllSelected(p: nat -> bool, from: nat, until: nat)
    requires from <= until && forall row: nat :: p(row)
    ensures |Selected(p, from, until)| == until - from
    decreases until
  {
    if from < until {
      AllSelected(p, from, until - 1);
      assert p(until - 1);
      assert Selected(p, from, until) == Selected(p, from, until - 1) + [until - 1];
    }
  }

  /** Its rows are all rows of the range. */
  lemma {:induction false} AllRowsOfUnit(u: UnitPlan, from: nat, until: nat)
    requires from <= until && forall row: nat :: u.passes(row)
    ensures RowsOf(u, from, until) == seq(until - from, i requires 0 <= i < until - from => RowId(u.obj, u.blk, from + i))
    decreases until
  {
    if from < until {
      AllRowsOfUnit(u, from, until - 1);
      assert u.passes(until - 1);
      assert RowsOf(u, from, until) == RowsOf(u, from, until - 1) + [RowId(u.obj, u.blk, until - 1)];
    }
  }

  /** With positive counts the path behaves exactly like the general scan of unfiltered
      blocks, so everything proved of that scan holds of it. */
  lemma FastCallIsCall(units: seq<UnitPlan>, next: nat, l: Local)
    requires AllCounted(units) && (forall i :: 0 <= i < |units| ==> units[i].total > 0)
    requires LocalOk(units, l) && l.claim.None?
    ensures var f, c := FastCall(units, next, l), Call(units, next, l);
      f.0 == c.next && f.1 == c.local && f.2 == c.rows
  {
    if HasPending(l) {
      AllSelected(units[l.unit].passes, l.offset, ChunkEnd(l));
    } else if next < |units| {
      var claimed := StepLocal(units, next, l);
      var loaded := StepLocal(units, claimed.next, claimed.local);
      AllSelected(units[next].passes, 0, ChunkEnd(loaded.local));
      assert StepLocal(units, loaded.next, loaded.local).rows != [];
      assert Call(units, loaded.next, loaded.local).rows == StepLocal(units, loaded.next, loaded.local).rows;
      assert !EndsCall(units, l, claimed) && !EndsCall(units, claimed.local, loaded);
      assert Call(units, next, l).local == Call(units, claimed.next, claimed.local).local;
    } else {
      var claimed := StepLocal(units, next, l);
      assert Call(units, claimed.next, claimed.local).rows == [];
    }
  }

  /** A call answers "0 rows" only at the end of the queue, for every thread state,
      exactly when no block's count is zero. */
  lemma NoEarlyStopIff(units: seq<UnitPlan>)
    requires AllCounted(units)
    ensures (forall next: nat, l: Local :: LocalOk(units, l) && l.claim.None? && FastCall(units, next, l).2 == [] ==>
               next >= |units|)
       <==> (forall i :: 0 <= i < |units| ==> units[i].total > 0)
  {
    if forall i :: 0 <= i < |units| ==> units[i].total > 0 {
      forall next: nat, l: Local | LocalOk(units, l) && l.claim.None? && FastCall(units, next, l).2 == []
        ensures next >= |units|
      {
        FastCallIsCall(units, next, l);
        CallContract(units, next, l);
        if next < |units| { UnclaimedNotEmpty(units, next); }
      }
    } else {
      var i :| 0 <= i < |units| && units[i].total == 0;
      assert LocalOk(units, IDLE) && FastCall(units, i, IDLE).2 == [];
    }
  }

  lemma UnclaimedNotEmpty(units: seq<UnitPlan>, next: nat)
    requires AllCounted(units) && next < |units| && units[next].total > 0
    ensures Unclaimed(units, next) != []
  {
    AllSelected(units[next].passes, 0, units[next].total);
  }

  /** The chunk that a call of this path fills the output with, empty or not. */
  function FastFills(units: seq<UnitPlan>, next: nat, l: Local): seq<Fill>
  {
    if HasPending(l) then [Fill(l.unit, l.offset, ChunkEnd(l))]
    else if next >= |units| then []
    else [Fill(next, 0, Min(units[next].total, 2048))]
  }

  lemma FastCallCases(units: seq<UnitPlan>, next: nat, l: Local)
    requires AllCounted(units) && LocalOk(units, l) && l.claim.None?
    ensures HasPending(l) ==> var s := StepLocal(units, next, l); FastCall(units, next, l) == (next, s.local, s.rows)
    ensures !HasPending(l) && next >= |units| ==> FastCall(units, next, l) == (next + 1, l.(told := true), [])
    ensures !HasPending(l) && next < |units| ==>
      var loaded := Loaded(units, next, l);
      && LocalOk(units, loaded)
      && FastCall(units, next, l) ==
         if HasPending(loaded) then (next + 1, StepLocal(units, next + 1, loaded).local, StepLocal(units, next + 1, loaded).rows)
         else (next + 1, loaded.(told := true), [])
  {
    hide StepLocal;
  }

  lemma FastCallOk(units: seq<UnitPlan>, next: nat, l: Local)
    requires AllCounted(units) && LocalOk(units, l) && l.claim.None?
    ensures var r := FastCall(units, next, l); LocalOk(units, r.1) && r.1.claim.None?
  {
  }

  // ----- many threads -----

  predicate AllPositive(units: seq<UnitPlan>) { forall i :: 0 <= i < |units| ==> units[i].total > 0 }

  predicate NoClaims(threads: seq<Local>) { forall t :: 0 <= t < |threads| ==> threads[t].claim.None? }

  /** Thread `t` makes one call, unless it has been told "0 rows": then it is not called
      again. A call touches the shared state once, in its `fetch_add`, so whole calls
      interleave as the threads' actions do. No block is counted as scanned or skipped. */
  ghost function FastAdvance(units: seq<UnitPlan>, s: State, t: nat): (r: State)
    requires AllCounted(units) && t < |s.threads| && ThreadsOk(units, s.threads) && NoClaims(s.threads)
    ensures ThreadsOk(units, r.threads) && NoClaims(r.threads) && |r.threads| == |s.threads|
  {
    if s.threads[t].told then s
    else
      FastCallOk(units, s.next, s.threads[t]);
      var (next, local, rows) := FastCall(units, s.next, s.threads[t]);
      s.(next := next, threads := s.threads[t := local], emitted := s.emitted + rows)
  }

  ghost function FastRun(units: seq<UnitPlan>, threads: nat, calls: seq<nat>, n: nat): (s: State)
    requires AllCounted(units) && n <= |calls| && IsSchedule(calls, threads)
    ensures ThreadsOk(units, s.threads) && NoClaims(s.threads) && |s.threads| == threads
  {
    if n == 0 then Start(threads) else FastAdvance(units, FastRun(units, threads, calls, n - 1), calls[n - 1])
  }

  /** No block is ever counted. */
  lemma {:induction false} NothingCounted(units: seq<UnitPlan>, threads: nat, calls: seq<nat>, n: nat)
    requires AllCounted(units) && n <= |calls| && IsSchedule(calls, threads)
    ensures var s := FastRun(units, threads, calls, n); s.scanned == 0 && s.skipped == 0
  {
    hide FastCall;
    if n > 0 { NothingCounted(units, threads, calls, n - 1); }
  }

  /** Threads among the first `n` that have been told "0 rows". */
  function ToldCount(threads: seq<Local>, n: nat): (k: nat)
    requires n <= |threads|
    ensures k <= n
    ensures k == n <==> forall t :: 0 <= t < n ==> threads[t].told
  {
    if n == 0 then 0 else ToldCount(threads, n - 1) + if threads[n - 1].told then 1 else 0
  }

  lemma {:induction false} ToldCountUpdate(threads: seq<Local>, t: nat, l: Local, n: nat)
    requires t < |threads| && n <= |threads| && !threads[t].told
    ensures ToldCount(threads[t := l], n) == ToldCount(threads, n) + if t < n && l.told then 1 else 0
  {
    if n > 0 { ToldCountUpdate(threads, t, l, n - 1); }
  }

  /** Empty units among the first `n`. */
  function ZerosIn(units: seq<UnitPlan>, n: nat): (k: nat)
    requires n <= |units|
    ensures k <= n
  {
    if n == 0 then 0 else ZerosIn(units, n - 1) + if units[n - 1].total == 0 then 1 else 0
  }

  /** How many of the first `next` claims were answered with "0 rows": empty units, and
      claims past the end of the queue. */
  function Stops(units: seq<UnitPlan>, next: nat): nat
  {
    if next <= |units| then ZerosIn(units, next) else ZerosIn(units, |units|) + next - |units|
  }

  /** Nothing is lost; a told thread holds nothing; each stop has told one thread; and the
      last claim was made while some thread had not been told. */
  ghost predicate FastInv(units: seq<UnitPlan>, s: State)
    requires ThreadsOk(units, s.threads)
  {
    && Conserved(units, s)
    && (forall t :: 0 <= t < |s.threads| && s.threads[t].told ==> !HasPending(s.threads[t]))
    && ToldCount(s.threads, |s.threads|) == Stops(units, s.next)
    && (s.next > 0 ==> Stops(units, s.next - 1) < |s.threads|)
  }

  /** As multisets: what leaves the thread and the queue is what is emitted. */
  lemma FastCallMoves(units: seq<UnitPlan>, next: nat, l: Local)
    requires AllCounted(units) && LocalOk(units, l) && l.claim.None?
    ensures var r := FastCall(units, next, l);
      multiset(r.2) + multiset(Held(units, r.1)) + multiset(Unclaimed(units, r.0)) ==
      multiset(Held(units, l)) + multiset(Unclaimed(units, next))
  {
    hide AllCounted;
    hide Work;
    hide RowsOf;
    hide Held;
    if HasPending(l) {
      StepMoves(units, next, l);
      hide StepLocal;
    } else if next < |units| {
      var loaded := l.(unit := next, offset := 0, total := units[next].total);
      WorkOfUnit(units, next, l, loaded);
      if HasPending(loaded) {
        StepMoves(units, next + 1, loaded);
        hide StepLocal;
        UnclaimedMoves(units, next);
      } else {
        UnclaimedMoves(units, next);
      }
    } else {
      NothingToMove(units, next, l, l.(told := true));
    }
  }

  lemma UnclaimedMoves(units: seq<UnitPlan>, next: nat)
    requires next < |units|
    ensures multiset(Unclaimed(units, next)) == multiset(Work(units[next])) + multiset(Unclaimed(units, next + 1))
  {
    hide Work;
    assert Unclaimed(units, next) == Work(units[next]) + Unclaimed(units, next + 1);
  }

  lemma NothingToMove(units: seq<UnitPlan>, next: nat, l: Local, r: Local)
    requires LocalOk(units, l) && l.claim.None? && !HasPending(l) && r == l.(told := true) && next >= |units|
    ensures LocalOk(units, r) && Held(units, l) == Held(units, r) == Unclaimed(units, next) == Unclaimed(units, next + 1) == []
  {
  }

  lemma WorkOfUnit(units: seq<UnitPlan>, next: nat, l: Local, loaded: Local)
    requires AllCounted(units) && next < |units| && LocalOk(units, l) && l.claim.None? && !HasPending(l)
    requires loaded == l.(unit := next, offset := 0, total := units[next].total)
    ensures LocalOk(units, loaded) && Held(units, loaded) == Work(units[next]) && Held(units, l) == []
    ensures !HasPending(loaded) ==> Work(units[next]) == [] && Held(units, loaded.(total := 0, told := true)) == []
  {
  }

  lemma FastCallStops(units: seq<UnitPlan>, next: nat, l: Local)
    requires AllCounted(units) && LocalOk(units, l) && l.claim.None? && !l.told
    ensures var r := FastCall(units, next, l);
      && (r.0 == next || r.0 == next + 1) && (r.1.told ==> !HasPending(r.1))
      && Stops(units, r.0) == Stops(units, next) + if r.1.told then 1 else 0
  {
    hide RowsOf;
  }

  lemma FastAdvanceKeeps(units: seq<UnitPlan>, s: State, t: nat)
    requires AllCounted(units) && t < |s.threads| && ThreadsOk(units, s.threads) && NoClaims(s.threads) && FastInv(units, s)
    ensures FastInv(units, FastAdvance(units, s, t))
  {
    hide FastCall;
    hide Held;
    hide Unclaimed;
    hide Stops;
    hide AllCounted;
    var l := s.threads[t];
    if !l.told {
      var (next, local, rows) := FastCall(units, s.next, l);
      FastCallMoves(units, s.next, l);
      FastCallStops(units, s.next, l);
      FastCallOk(units, s.next, l);
      HeldByUpdate(units, s.threads, t, local, |s.threads|);
      ToldCountUpdate(s.threads, t, local, |s.threads|);
      Exchange(multiset(s.emitted), multiset(rows),
               HeldBy(units, s.threads, |s.threads|), HeldBy(units, s.threads[t := local], |s.threads|),
               multiset(Held(units, l)), multiset(Held(units, local)),
               multiset(Unclaimed(units, s.next)), multiset(Unclaimed(units, next)));
    }
  }

  /** Any interleaving of calls keeps this. */
  lemma {:induction false} FastRunKeeps(units: seq<UnitPlan>, threads: nat, calls: seq<nat>, n: nat)
    requires AllCounted(units) && n <= |calls| && IsSchedule(calls, threads)
    ensures FastInv(units, FastRun(units, threads, calls, n))
  {
    if n == 0 {
      StartIsInv(units, threads);
      NoneTold(threads, threads);
    } else {
      hide FastInv;
      hide FastAdvance;
      FastRunKeeps(units, threads, calls, n - 1);
      FastAdvanceKeeps(units, FastRun(units, threads, calls, n - 1), calls[n - 1]);
    }
  }

  lemma {:induction false} NoneTold(threads: nat, n: nat)
    requires n <= threads
    ensures ToldCount(Start(threads).threads, n) == 0
  {
    if n > 0 { NoneTold(threads, n - 1); }
  }

  // ----- what is emitted in the end -----

  /** The first position from `k` on with as many empty units before it as there are
      threads, or the end of the queue. */
  function Reached(units: seq<UnitPlan>, threads: nat, k: nat): (n: nat)
    requires k <= |units|
    ensures k <= n <= |units|
    decreases |units| - k
  {
    if k == |units| || ZerosIn(units, k) >= threads then k else Reached(units, threads, k + 1)
  }

  lemma {:induction false} ZerosGrow(units: seq<UnitPlan>, a: nat, b: nat)
    requires a <= b <= |units|
    ensures ZerosIn(units, a) <= ZerosIn(units, b)
    decreases b
  {
    if a < b { ZerosGrow(units, a, b - 1); }
  }

  lemma {:induction false} ReachedIs(units: seq<UnitPlan>, threads: nat, k: nat, n: nat)
    requires k <= n <= |units| && (n < |units| ==> ZerosIn(units, n) >= threads)
    requires n > k ==> ZerosIn(units, n - 1) < threads
    ensures Reached(units, threads, k) == n
    decreases n - k
  {
    if k < n {
      ZerosGrow(units, k, n - 1);
      ReachedIs(units, threads, k + 1, n);
    }
  }

  /** Without empty units that is the whole queue. */
  lemma {:induction false} PositiveIsReached(units: seq<UnitPlan>, threads: nat, k: nat)
    requires AllPositive(units) && threads > 0 && k <= |units|
    ensures ZerosIn(units, k) == 0 && Reached(units, threads, k) == |units|
    decreases |units| - k
  {
    NoZeros(units, k);
    if k < |units| { PositiveIsReached(units, threads, k + 1); }
  }

  lemma {:induction false} NoZeros(units: seq<UnitPlan>, k: nat)
    requires AllPositive(units) && k <= |units|
    ensures ZerosIn(units, k) == 0
  {
    if k > 0 { NoZeros(units, k - 1); }
  }

  lemma {:induction false} UnclaimedSplits(units: seq<UnitPlan>, k: nat, n: nat)
    requires k <= n <= |units|
    ensures Unclaimed(units, k) == Unclaimed(units[..n], k) + Unclaimed(units, n)
    decreases n - k
  {
    hide Work;
    if k < n {
      UnclaimedSplits(units, k + 1, n);
      Assoc(Work(units[k]), Unclaimed(units[..n], k + 1), Unclaimed(units, n));
    } else {
      assert Unclaimed(units[..n], k) == [];
    }
  }

  /** Over any interleaving of calls, once every thread has been told "0 rows", exactly the
      rows of the units before the `threads`-th empty one have been emitted: every empty
      unit stops the thread that claims it. */
  lemma FastRunEnds(units: seq<UnitPlan>, threads: nat, calls: seq<nat>)
    requires AllCounted(units) && IsSchedule(calls, threads)
    requires AllTold(FastRun(units, threads, calls, |calls|))
    ensures multiset(FastRun(units, threads, calls, |calls|).emitted) ==
            multiset(Unclaimed(units[..Reached(units, threads, 0)], 0))
  {
    hide Held;
    hide RowsOf;
    var s := FastRun(units, threads, calls, |calls|);
    FastRunKeeps(units, threads, calls, |calls|);
    hide FastRun;
    hide LocalOk;
    hide AllCounted;
    var n := Min(s.next, |units|);
    ReachedByStops(units, s);
    ToldHoldNothing(units, s);
    hide Reached;
    UnclaimedSplits(units, 0, n);
    assert Unclaimed(units, s.next) == Unclaimed(units, n);
    hide Unclaimed;
    CancelRest(s.emitted, Unclaimed(units[..n], 0), Unclaimed(units, n), Unclaimed(units, 0));
  }

  lemma ToldHoldNothing(units: seq<UnitPlan>, s: State)
    requires ThreadsOk(units, s.threads) && NoClaims(s.threads) && FastInv(units, s) && AllTold(s)
    ensures HeldBy(units, s.threads, |s.threads|) == multiset{}
  {
    NothingHeld(units, s.threads, |s.threads|);
  }

  lemma ReachedByStops(units: seq<UnitPlan>, s: State)
    requires ThreadsOk(units, s.threads) && FastInv(units, s) && AllTold(s)
    ensures Reached(units, |s.threads|, 0) == Min(s.next, |units|)
  {
    hide Conserved;
    if s.next > |units| > 0 { ZerosGrow(units, |units| - 1, |units|); }
    ReachedIs(units, |s.threads|, 0, Min(s.next, |units|));
  }

  lemma CancelRest(a: seq<RowId>, b: seq<RowId>, rest: seq<RowId>, all: seq<RowId>)
    requires multiset(a) + multiset(rest) == multiset(all) && all == b + rest
    ensures multiset(a) == multiset(b)
  {
    assert multiset(b + rest) == multiset(b) + multiset(rest);
    assert multiset(a) == (multiset(a) + multiset(rest)) - multiset(rest);
  }

  /** Calls that use up a thread's turns tell it "0 rows". */
  lemma {:induction false} CallsUseBudget(units: seq<UnitPlan>, threads: nat, calls: seq<nat>, t: nat, n: nat)
    requires AllCounted(units) && IsSchedule(calls, threads) && t < threads && n <= |calls|
    ensures var s := FastRun(units, threads, calls, n);
      s.threads[t].told || TurnsOf(calls, t, n) + Ahead(units, s.next, s.threads[t]) <= Budget(units, 0) + 1
  {
    if n > 0 {
      CallsUseBudget(units, threads, calls, t, n - 1);
      var s := FastRun(units, threads, calls, n - 1);
      var l := s.threads[calls[n - 1]];
      var r := FastCall(units, s.next, l);
      FastCallUsesBudget(units, s.next, l);
      BudgetFalls(units, s.next, r.0);
      hide FastCall;
      hide Rank;
      hide Budget;
    }
  }

  lemma FastCallUsesBudget(units: seq<UnitPlan>, next: nat, l: Local)
    requires AllCounted(units) && LocalOk(units, l) && l.claim.None?
    ensures var r := FastCall(units, next, l);
      next <= r.0 && (r.1.told || Ahead(units, r.0, r.1) < Ahead(units, next, l))
  {
    hide RowsOf;
    hide AllCounted;
  }

  /** Whatever the interleaving, enough calls of every thread tell each "0 rows". */
  lemma FairCallsEnd(units: seq<UnitPlan>, threads: nat, calls: seq<nat>)
    requires AllCounted(units) && IsSchedule(calls, threads)
    requires forall t :: 0 <= t < threads ==> TurnsOf(calls, t, |calls|) > Budget(units, 0) + 1
    ensures AllTold(FastRun(units, threads, calls, |calls|))
  {
    forall t | 0 <= t < threads ensures FastRun(units, threads, calls, |calls|).threads[t].told {
      CallsUseBudget(units, threads, calls, t, |calls|);
    }
  }

  // ----- count(*) -----

  datatype ManifestObject = ManifestObject(rows: nat, blocks: nat) {
    /** The manifest's counts are 32-bit. */
    predicate Valid() { rows < 0x1_0000_0000 && blocks < 0x1_0000_0000 }

    function Count(idx: nat): nat
      requires Valid()
    {
      ManifestBlockRowCount(rows, blocks, idx)
    }

    /** Its per-block counts add up to its rows. */
    predicate AddsUp() { blocks >= 1 && (rows <= 8192 || rows >= 8192 * (blocks - 1)) }

    /** And none is zero. */
    predicate GoesRound() { if rows <= 8192 then rows >= blocks else rows > 8192 * (blocks - 1) }
  }

  predicate AllValid(objs: seq<ManifestObject>) { forall i :: 0 <= i < |objs| ==> objs[i].Valid() }

  /** The first `n` blocks of an object, as unfiltered units. */
  function ObjectUnits(obj: nat, o: ManifestObject, n: nat): (units: seq<UnitPlan>)
    requires o.Valid() && n <= o.blocks
    ensures |units| == n
  {
    if n == 0 then [] else ObjectUnits(obj, o, n - 1) + [CountedUnit(obj, n - 1, o.Count(n - 1))]
  }

  /** The queue built without filters from the first `n` objects. */
  function CountQueue(objs: seq<ManifestObject>, n: nat): seq<UnitPlan>
    requires n <= |objs| && AllValid(objs)
  {
    if n == 0 then [] else CountQueue(objs, n - 1) + ObjectUnits(n - 1, objs[n - 1], objs[n - 1].blocks)
  }

  function TotalOf(units: seq<UnitPlan>): nat
  {
    if units == [] then 0 else units[0].total + TotalOf(units[1..])
  }

  function SumOfRows(objs: seq<ManifestObject>, n: nat): nat
    requires n <= |objs|
  {
    if n == 0 then 0 else SumOfRows(objs, n - 1) + objs[n - 1].rows
  }

  lemma {:induction false} TotalOfBoth(a: seq<UnitPlan>, b: seq<UnitPlan>)
    ensures TotalOf(a + b) == TotalOf(a) + TotalOf(b)
  {
    if a == [] {
      assert a + b == b;
    } else {
      TotalOfBoth(a[1..], b);
      assert (a + b)[1..] == a[1..] + b;
    }
  }

  lemma {:induction false} ObjectTotal(obj: nat, o: ManifestObject, n: nat)
    requires o.Valid() && n <= o.blocks
    ensures TotalOf(ObjectUnits(obj, o, n)) == SumOfCounts(o.rows, o.blocks, n)
    ensures AllCounted(ObjectUnits(obj, o, n))
    ensures o.AddsUp() && o.GoesRound() ==> AllPositive(ObjectUnits(obj, o, n))
  {
    if n > 0 {
      ObjectTotal(obj, o, n - 1);
      if o.AddsUp() { CountsPositive(o.rows, o.blocks); }
      var last := CountedUnit(obj, n - 1, o.Count(n - 1));
      TotalOfBoth(ObjectUnits(obj, o, n - 1), [last]);
    }
  }

  lemma {:induction false} QueueCounted(objs: seq<ManifestObject>, n: nat)
    requires n <= |objs| && AllValid(objs)
    ensures AllCounted(CountQueue(objs, n))
  {
    if n > 0 {
      QueueCounted(objs, n - 1);
      ObjectTotal(n - 1, objs[n - 1], objs[n - 1].blocks);
    }
  }

  lemma {:induction false} QueueTotal(objs: seq<ManifestObject>, n: nat)
    requires n <= |objs| && AllValid(objs) && forall i :: 0 <= i < n ==> objs[i].AddsUp()
    ensures TotalOf(CountQueue(objs, n)) == SumOfRows(objs, n)
    ensures (forall i :: 0 <= i < n ==> objs[i].GoesRound()) ==> AllPositive(CountQueue(objs, n))
  {
    if n > 0 {
      var o := objs[n - 1];
      QueueTotal(objs, n - 1);
      ObjectTotal(n - 1, o, o.blocks);
      CountsSumToRows(o.rows, o.blocks);
      TotalOfBoth(CountQueue(objs, n - 1), ObjectUnits(n - 1, o, o.blocks));
    }
  }

  lemma {:induction false} UnclaimedLength(units: seq<UnitPlan>, k: nat)
    requires AllCounted(units) && k <= |units|
    ensures |Unclaimed(units, k)| == TotalOf(units[k..])
    decreases |units| - k
  {
    if k < |units| {
      UnclaimedLength(units, k + 1);
      AllSelected(units[k].passes, 0, units[k].total);
      assert units[k..][1..] == units[k + 1..];
    }
  }

  /** The rows emitted number the counts of the units before the `threads`-th empty one. */
  lemma EmittedCount(units: seq<UnitPlan>, threads: nat, calls: seq<nat>)
    requires AllCounted(units) && IsSchedule(calls, threads)
    requires AllTold(FastRun(units, threads, calls, |calls|))
    ensures |FastRun(units, threads, calls, |calls|).emitted| == TotalOf(units[..Reached(units, threads, 0)])
  {
    FastRunEnds(units, threads, calls);
    var s, reached := FastRun(units, threads, calls, |calls|), units[..Reached(units, threads, 0)];
    UnclaimedLength(reached, 0);
    assert reached[0..] == reached;
    hide FastRun;
    hide Unclaimed;
    assert |s.emitted| == |multiset(s.emitted)| == |multiset(Unclaimed(reached, 0))|;
  }

  /** `count(*)` without file reads, over any threads and interleaving of calls, once every
      thread has been told "0 rows": where each object's counts add up, it is the
      manifest's number of rows exactly when no rows lie past the `threads`-th empty block;
      where moreover no count is zero, it always is. */
  lemma CountStar(objs: seq<ManifestObject>, threads: nat, calls: seq<nat>)
    requires AllValid(objs) && (forall i :: 0 <= i < |objs| ==> objs[i].AddsUp()) && threads > 0 && IsSchedule(calls, threads)
    ensures AllCounted(CountQueue(objs, |objs|))
    ensures var units := CountQueue(objs, |objs|); var s := FastRun(units, threads, calls, |calls|);
      AllTold(s) ==>
        && (|s.emitted| == SumOfRows(objs, |objs|) <==> TotalOf(units[Reached(units, threads, 0)..]) == 0)
        && ((forall i :: 0 <= i < |objs| ==> objs[i].GoesRound()) ==> |s.emitted| == SumOfRows(objs, |objs|))
  {
    var units := CountQueue(objs, |objs|);
    QueueCounted(objs, |objs|);
    QueueTotal(objs, |objs|);
    var n := Reached(units, threads, 0);
    TotalOfBoth(units[..n], units[n..]);
    assert units == units[..n] + units[n..];
    if AllPositive(units) { PositiveIsReached(units, threads, 0); }
    hide FastRun;
    hide CountQueue;
    hide Reached;
    if AllTold(FastRun(units, threads, calls, |calls|)) { EmittedCount(units, threads, calls); }
  }

  /** An object of 1 row in 2 blocks, scanned by one thread: the first count is zero, so the
      thread stops and no row is counted. */
  lemma EarlyStopLosesRows(calls: seq<nat>)
    requires IsSchedule(calls, 1)
    ensures var objs := [ManifestObject(1, 2)]; var units := CountQueue(objs, 1);
      && AllCounted(units) && SumOfRows(objs, 1) == 1
      && (AllTold(FastRun(units, 1, calls, |calls|)) ==> FastRun(units, 1, calls, |calls|).emitted == [])
  {
    var o := ManifestObject(1, 2);
    var units := CountQueue([o], 1);
    QueueCounted([o], 1);
    TwoUnits(o, units);
    assert SumOfRows([o], 0) == 0;
    hide CountQueue;
    hide FastRun;
    if AllTold(FastRun(units, 1, calls, |calls|)) {
      EmittedCount(units, 1, calls);
      ReachedIs(units, 1, 0, 1);
      assert units[..1][1..] == [];
    }
  }

  lemma TwoUnits(o: ManifestObject, units: seq<UnitPlan>)
    requires o == ManifestObject(1, 2) && units == CountQueue([o], 1)
    ensures |units| == 2 && units[0].total == 0 && ZerosIn(units, 0) == 0 && ZerosIn(units, 1) == 1
  {
    assert CountQueue([o], 0) == [];
    assert ObjectUnits(0, o, 0) == [];
    assert ObjectUnits(0, o, 1) == [CountedUnit(0, 0, 0)];
    assert ZerosIn(units, 0) == 0;
  }
}
