/** The parallel scan: threads claim blocks from a shared counter and emit each block
    in chunks, any number of threads, any interleaving. */
module ScanMachine {
  import opened Bytes
  import opened Chunks

  datatype RowId = RowId(obj: nat, blk: nat, row: nat)

  /** A unit of work: whether its zone maps keep it, its rows, and which of them pass. */
  datatype UnitPlan = UnitPlan(obj: nat, blk: nat, total: nat, keep: bool, passes: nat -> bool)

  /** The passing rows of a range of one block, in order. */
  function RowsOf(u: UnitPlan, from: nat, until: nat): (rows: seq<RowId>)
    requires from <= until
    ensures |rows| <= until - from
  {
    Named(u, Selected(u.passes, from, until))
  }

  function Named(u: UnitPlan, sel: seq<nat>): (rows: seq<RowId>)
    ensures |rows| == |sel|
  {
    seq(|sel|, i requires 0 <= i < |sel| => RowId(u.obj, u.blk, sel[i]))
  }

  lemma RowsConcatenate(u: UnitPlan, from: nat, mid: nat, until: nat)
    requires from <= mid <= until
    ensures RowsOf(u, from, mid) + RowsOf(u, mid, until) == RowsOf(u, from, until)
  {
    SelectedConcatenates(u.passes, from, mid, until);
  }

  /** What a unit contributes to the answer. */
  function Work(u: UnitPlan): seq<RowId> { if u.keep then RowsOf(u, 0, u.total) else [] }

  /** What the units from `k` on contribute, in queue order. */
  function Unclaimed(units: seq<UnitPlan>, k: nat): seq<RowId>
    decreases |units| - k
  {
    if k >= |units| then [] else Work(units[k]) + Unclaimed(units, k + 1)
  }

  // ----- one thread -----

  /** A thread's state: a unit claimed but not yet examined, or a pending block with the
      rows before `offset` already emitted; and whether it has been told "0 rows". */
  datatype Local = Local(claim: Option<nat>, unit: nat, offset: nat, total: nat, told: bool)

  const IDLE := Local(None, 0, 0, 0, false)

  predicate HasPending(l: Local) { l.offset < l.total }

  predicate LocalOk(units: seq<UnitPlan>, l: Local)
  {
    HasPending(l) ==> l.claim.None? && l.unit < |units| && units[l.unit].keep && l.total == units[l.unit].total
  }

  /** What a thread holds: the passing rows it has claimed and not yet emitted. */
  function Held(units: seq<UnitPlan>, l: Local): seq<RowId>
    requires LocalOk(units, l)
  {
    if HasPending(l) then RowsOf(units[l.unit], l.offset, l.total)
    else if l.claim.Some? && l.claim.value < |units| then Work(units[l.claim.value])
    else []
  }

  datatype Step = Step(next: nat, local: Local, rows: seq<RowId>, scanned: nat, skipped: nat)

  function ChunkEnd(l: Local): (end: nat)
    requires HasPending(l)
    ensures l.offset < end <= l.total && end <= l.offset + 2048
  {
    l.offset + Min(l.total - l.offset, 2048)
  }

  /** One atomic action of a thread. */
  function StepLocal(units: seq<UnitPlan>, next: nat, l: Local): (s: Step)
    requires LocalOk(units, l)
    ensures LocalOk(units, s.local)
  {
    if HasPending(l) then
      // emit_chunk: the next rows of the pending block, then advance or clear
      var end := ChunkEnd(l);
      var local := if end < l.total then l.(offset := end) else l.(offset := 0, total := 0);
      Step(next, local, RowsOf(units[l.unit], l.offset, end), 0, 0)
    else if l.claim.None? then
      // fetch_add on the shared counter
      Step(next + 1, l.(claim := Some(next)), [], 0, 0)
    else if l.claim.value >= |units| then
      Step(next, l.(claim := None, told := true), [], 0, 0)
    else if !units[l.claim.value].keep then
      Step(next, l.(claim := None), [], 0, 1)
    else
      var u := units[l.claim.value];
      Step(next, l.(claim := None, unit := l.claim.value, offset := 0, total := u.total), [], 1, 0)
  }

  /** A step hands rows over without losing, repeating or reordering any. */
  lemma StepConserves(units: seq<UnitPlan>, next: nat, l: Local)
    requires LocalOk(units, l)
    ensures var s := StepLocal(units, next, l);
      if s.next == next then s.rows + Held(units, s.local) == Held(units, l)
      else s.next == next + 1 && s.rows == [] && Held(units, l) == [] &&
           Held(units, s.local) == (if next < |units| then Work(units[next]) else [])
  {
    if HasPending(l) {
      RowsConcatenate(units[l.unit], l.offset, ChunkEnd(l), l.total);
    }
  }

  // ----- one Execute call, undisturbed -----

  /** Rank of the thread's place within a call; with the unclaimed units it bounds the
      steps the call can still take. */
  function Rank(units: seq<UnitPlan>, l: Local): nat
  {
    if HasPending(l) then 1 + l.total - l.offset
    else if l.claim.None? then 1
    else if l.claim.value < |units| then 2 + units[l.claim.value].total
    else 0
  }

  function UnclaimedCount(units: seq<UnitPlan>, next: nat): nat
  {
    if next < |units| then |units| - next else 0
  }

  /** The lexicographic measure (unclaimed units, rank). */
  predicate Smaller(a: (nat, nat), b: (nat, nat)) { a.0 < b.0 || (a.0 == b.0 && a.1 < b.1) }

  function Measure(units: seq<UnitPlan>, next: nat, l: Local): (nat, nat)
  {
    (UnclaimedCount(units, next), Rank(units, l))
  }

  predicate EndsCall(units: seq<UnitPlan>, l: Local, s: Step)
  {
    s.rows != [] || (l.claim.Some? && !HasPending(l) && l.claim.value >= |units|)
  }

  /** Every step that does not end the call decreases the measure, and steps of other
      threads, which can only raise the counter, never increase it. */
  lemma StepDecreases(units: seq<UnitPlan>, next: nat, l: Local, later: nat)
    requires LocalOk(units, l) && next <= later
    ensures var s := StepLocal(units, next, l);
      !EndsCall(units, l, s) ==> Smaller(Measure(units, s.next, s.local), Measure(units, next, l))
    ensures Measure(units, later, l) == Measure(units, next, l) ||
            Smaller(Measure(units, later, l), Measure(units, next, l))
  {
  }

  /** The outcome of a call: the state left behind, the rows returned, and how many
      blocks were counted as scanned and skipped. */
  datatype Outcome = Outcome(next: nat, local: Local, rows: seq<RowId>, scanned: nat, skipped: nat)

  /** One `Execute` call: steps until rows are produced or the queue is exhausted. */
  function Call(units: seq<UnitPlan>, next: nat, l: Local): (r: Outcome)
    requires LocalOk(units, l)
    ensures LocalOk(units, r.local)
    decreases UnclaimedCount(units, next), Rank(units, l)
  {
    var s := StepLocal(units, next, l);
    if EndsCall(units, l, s) then Outcome(s.next, s.local, s.rows, s.scanned, s.skipped)
    else
      var rest := Call(units, s.next, s.local);
      rest.(scanned := s.scanned + rest.scanned, skipped := s.skipped + rest.skipped)
  }

  /** A step that does not end the call leaves the rest of it to the next call. */
  lemma CallUnfolds(units: seq<UnitPlan>, next: nat, l: Local)
    requires LocalOk(units, l) && !EndsCall(units, l, StepLocal(units, next, l))
    ensures var s := StepLocal(units, next, l); var rest := Call(units, s.next, s.local);
      s.rows == [] &&
      Call(units, next, l) == rest.(scanned := s.scanned + rest.scanned, skipped := s.skipped + rest.skipped)
  {
    hide StepLocal;
  }

  // ----- what a call fills its output with -----

  /** A chunk of a unit that the emit loop fills the output vectors with. */
  datatype Fill = Fill(unit: nat, from: nat, until: nat)

  /** The chunk that a step fills the vectors with: the next rows of a pending block; or
      nothing of a kept block without rows, whose columns are filled all the same. */
  function StepFills(units: seq<UnitPlan>, l: Local): seq<Fill>
  {
    if HasPending(l) then [Fill(l.unit, l.offset, ChunkEnd(l))]
    else if l.claim.Some? then EmptyFills(units, l.claim.value)
    else []
  }

  function EmptyFills(units: seq<UnitPlan>, i: nat): seq<Fill>
  {
    if i < |units| && units[i].keep && units[i].total == 0 then [Fill(i, 0, 0)] else []
  }

  /** The chunks that one call fills the same output vectors with, one after another. */
  function Fills(units: seq<UnitPlan>, next: nat, l: Local): seq<Fill>
    requires LocalOk(units, l)
    decreases UnclaimedCount(units, next), Rank(units, l)
  {
    var s := StepLocal(units, next, l);
    StepFills(units, l) + if EndsCall(units, l, s) then [] else Fills(units, s.next, s.local)
  }

  /** A chunk of a unit kept by its zone maps. */
  predicate FillOk(units: seq<UnitPlan>, f: Fill)
  {
    f.unit < |units| && units[f.unit].keep && f.from <= f.until <= units[f.unit].total && f.until - f.from <= 2048
  }

  function FillRows(units: seq<UnitPlan>, f: Fill): seq<RowId>
    requires FillOk(units, f)
  {
    RowsOf(units[f.unit], f.from, f.until)
  }

  /** Positions of a chunk that hold its passing rows, in order. */
  predicate Compacts(units: seq<UnitPlan>, f: Fill, sel: seq<nat>)
  {
    FillOk(units, f) && IsSelection(sel, f.from, Selected(units[f.unit].passes, f.from, f.until))
  }

  predicate AllFillsOk(units: seq<UnitPlan>, fills: seq<Fill>)
  {
    forall k :: 0 <= k < |fills| ==> FillOk(units, fills[k])
  }

  function LastFill(fills: seq<Fill>): Fill
    requires fills != []
  {
    fills[|fills| - 1]
  }

  /** The rows are those of the last chunk filled; all earlier chunks, those of blocks without
      rows included, have no passing row. When no row is returned, no chunk has one. */
  predicate ReturnsLast(units: seq<UnitPlan>, fills: seq<Fill>, rows: seq<RowId>)
  {
    && AllFillsOk(units, fills)
    && (forall k :: 0 <= k < |fills| - 1 ==> FillRows(units, fills[k]) == [])
    && (rows != [] ==> fills != []) && (fills != [] ==> rows == FillRows(units, LastFill(fills)))
  }

  /** What a call returns is the last chunk it filled. */
  lemma {:induction false} FillsOfCall(units: seq<UnitPlan>, next: nat, l: Local)
    requires LocalOk(units, l)
    ensures ReturnsLast(units, Fills(units, next, l), Call(units, next, l).rows)
    decreases UnclaimedCount(units, next), Rank(units, l)
  {
    hide RowsOf;
    var s := StepLocal(units, next, l);
    StepDecreases(units, next, l, next);
    StepReturns(units, next, l);
    hide *;
    FillsUnfold(units, next, l);
    if !EndsCall(units, l, s) {
      FillsOfCall(units, s.next, s.local);
      EmptyBefore(units, StepFills(units, l), Fills(units, s.next, s.local), Call(units, s.next, s.local).rows);
    }
  }

  lemma FillsUnfold(units: seq<UnitPlan>, next: nat, l: Local)
    requires LocalOk(units, l)
    ensures var s := StepLocal(units, next, l);
      if EndsCall(units, l, s) then Fills(units, next, l) == StepFills(units, l) && Call(units, next, l).rows == s.rows
      else Fills(units, next, l) == StepFills(units, l) + Fills(units, s.next, s.local) &&
           Call(units, next, l).rows == Call(units, s.next, s.local).rows
  {
    hide StepLocal;
    hide StepFills;
  }

  lemma StepReturns(units: seq<UnitPlan>, next: nat, l: Local)
    requires LocalOk(units, l)
    ensures |StepFills(units, l)| <= 1 && ReturnsLast(units, StepFills(units, l), StepLocal(units, next, l).rows)
    ensures !EndsCall(units, l, StepLocal(units, next, l)) ==> StepLocal(units, next, l).rows == []
  {
    hide Selected;
  }

  lemma EmptyBefore(units: seq<UnitPlan>, pre: seq<Fill>, fills: seq<Fill>, rows: seq<RowId>)
    requires |pre| <= 1 && ReturnsLast(units, pre, []) && ReturnsLast(units, fills, rows)
    ensures ReturnsLast(units, pre + fills, rows)
  {
    hide FillRows;
    hide FillOk;
  }

  /** The emit step hands over the next rows, and moves on or clears. */
  lemma PendingStep(units: seq<UnitPlan>, next: nat, l: Local)
    requires LocalOk(units, l) && HasPending(l)
    ensures var s := StepLocal(units, next, l); var end := ChunkEnd(l);
      s.local == (if end < l.total then l.(offset := end) else l.(offset := 0, total := 0)) &&
      s.rows == RowsOf(units[l.unit], l.offset, end)
  {
  }

  /** The rows at the selected positions of a chunk are its passing rows. */
  lemma NamedRows(u: UnitPlan, from: nat, until: nat, rows: seq<RowId>)
    requires from <= until && |rows| == |Selected(u.passes, from, until)|
    requires forall i :: 0 <= i < |rows| ==> rows[i] == RowId(u.obj, u.blk, Selected(u.passes, from, until)[i])
    ensures rows == RowsOf(u, from, until)
  {
  }

  /** The emit step of a pending block ends the call, or the call continues behind it. */
  lemma EmitContinues(units: seq<UnitPlan>, next: nat, l: Local)
    requires LocalOk(units, l) && HasPending(l)
    ensures var s := StepLocal(units, next, l);
      && s.next == next && s.scanned == s.skipped == 0
      && (if s.rows != [] then Call(units, next, l) == Outcome(next, s.local, s.rows, 0, 0)
          else Call(units, next, l) == Call(units, next, s.local) && Rank(units, s.local) < Rank(units, l))
      && Fills(units, next, l) ==
         [Fill(l.unit, l.offset, ChunkEnd(l))] + if s.rows != [] then [] else Fills(units, next, s.local)
  {
    hide RowsOf;
    var s := StepLocal(units, next, l);
    if s.rows == [] { CallUnfolds(units, next, l); }
  }

  /** Claiming a unit and examining it. */
  function Claim(units: seq<UnitPlan>, next: nat, l: Local): Step
    requires LocalOk(units, l)
  {
    var claimed := StepLocal(units, next, l);
    StepLocal(units, claimed.next, claimed.local)
  }

  /** Both steps: the call ends at the end of the queue, or continues behind them. */
  lemma ClaimContinues(units: seq<UnitPlan>, next: nat, l: Local)
    requires LocalOk(units, l) && !HasPending(l) && l.claim.None?
    ensures var s := Claim(units, next, l);
      && s.next == next + 1 && LocalOk(units, s.local)
      && (if next >= |units| then
            Call(units, next, l) == Outcome(next + 1, s.local, [], 0, 0) && s.scanned == s.skipped == 0 && Fills(units, next, l) == []
          else
            var rest := Call(units, next + 1, s.local);
            && Call(units, next, l) == rest.(scanned := s.scanned + rest.scanned, skipped := s.skipped + rest.skipped)
            && UnclaimedCount(units, next + 1) < UnclaimedCount(units, next)
            && Fills(units, next, l) == EmptyFills(units, next) + Fills(units, next + 1, s.local))
  {
    hide RowsOf;
    var claimed := StepLocal(units, next, l);
    CallUnfolds(units, next, l);
    assert Fills(units, next, l) == [] + Fills(units, claimed.next, claimed.local);
    if next < |units| { CallUnfolds(units, claimed.next, claimed.local); }
  }

  /** 1 for a claimed unit that has not been counted as scanned or skipped. */
  function Uncounted(units: seq<UnitPlan>, l: Local): nat
  {
    if l.claim.Some? && l.claim.value < |units| then 1 else 0
  }

  /** A claimed value was taken from the counter. */
  predicate ClaimOk(next: nat, l: Local) { l.claim.Some? ==> l.claim.value < next }

  /** What one call does: it returns a non-empty run of the next rows this thread would
      produce, at most 2048 of them; or it returns no row, and then nothing is pending
      and the queue is exhausted. Every unit it claimed has been counted. */
  lemma CallContract(units: seq<UnitPlan>, next: nat, l: Local)
    requires LocalOk(units, l) && ClaimOk(next, l)
    ensures var r := Call(units, next, l);
      && next <= r.next && |r.rows| <= 2048 && r.local.claim.None?
      && r.rows + (Held(units, r.local) + Unclaimed(units, r.next)) == Held(units, l) + Unclaimed(units, next)
      && (r.rows == [] ==> !HasPending(r.local) && r.next >= |units| && r.local.told)
      && r.scanned + r.skipped + UnclaimedCount(units, r.next) == Uncounted(units, l) + UnclaimedCount(units, next)
  {
    CallKeepsOrder(units, next, l);
    CallCounts(units, next, l);
  }

  lemma {:induction false} CallKeepsOrder(units: seq<UnitPlan>, next: nat, l: Local)
    requires LocalOk(units, l) && ClaimOk(next, l)
    ensures var r := Call(units, next, l);
      && |r.rows| <= 2048
      && r.rows + (Held(units, r.local) + Unclaimed(units, r.next)) == Held(units, l) + Unclaimed(units, next)
    decreases UnclaimedCount(units, next), Rank(units, l)
  {
    var s := StepLocal(units, next, l);
    StepKeepsOrder(units, next, l);
    StepDecreases(units, next, l, next);
    hide StepLocal;
    hide Held;
    hide Unclaimed;
    if !EndsCall(units, l, s) { CallKeepsOrder(units, s.next, s.local); }
  }

  lemma {:induction false} CallCounts(units: seq<UnitPlan>, next: nat, l: Local)
    requires LocalOk(units, l) && ClaimOk(next, l)
    ensures var r := Call(units, next, l);
      && next <= r.next && r.local.claim.None?
      && (r.rows == [] ==> !HasPending(r.local) && r.next >= |units| && r.local.told)
      && r.scanned + r.skipped + UnclaimedCount(units, r.next) == Uncounted(units, l) + UnclaimedCount(units, next)
    decreases UnclaimedCount(units, next), Rank(units, l)
  {
    hide RowsOf;
    var s := StepLocal(units, next, l);
    if !EndsCall(units, l, s) { CallCounts(units, s.next, s.local); }
  }

  /** A step hands over the front of what the thread would still produce. */
  lemma StepKeepsOrder(units: seq<UnitPlan>, next: nat, l: Local)
    requires LocalOk(units, l) && ClaimOk(next, l)
    ensures var s := StepLocal(units, next, l);
      && |s.rows| <= 2048 && ClaimOk(s.next, s.local)
      && s.rows + (Held(units, s.local) + Unclaimed(units, s.next)) == Held(units, l) + Unclaimed(units, next)
      && (s.rows == [] ==> [] + (Held(units, s.local) + Unclaimed(units, s.next)) == Held(units, s.local) + Unclaimed(units, s.next))
  {
    var s := StepLocal(units, next, l);
    StepConserves(units, next, l);
    if s.next == next {
      Assoc(s.rows, Held(units, s.local), Unclaimed(units, next));
    } else {
      assert [] + Unclaimed(units, next) == Unclaimed(units, next);
    }
  }

  /** A call returns no row exactly when this thread and the queue have none left. */
  lemma CallEmptyIff(units: seq<UnitPlan>, next: nat, l: Local)
    requires LocalOk(units, l) && ClaimOk(next, l)
    ensures Call(units, next, l).rows == [] <==> Held(units, l) + Unclaimed(units, next) == []
  {
    CallContract(units, next, l);
  }

  // ----- many threads -----

  datatype State = State(next: nat, threads: seq<Local>, emitted: seq<RowId>, scanned: nat, skipped: nat, claims: seq<nat>)

  function Start(threads: nat): State { State(0, seq(threads, _ => IDLE), [], 0, 0, []) }

  predicate ThreadsOk(units: seq<UnitPlan>, threads: seq<Local>)
  {
    forall t :: 0 <= t < |threads| ==> LocalOk(units, threads[t])
  }

  /** Thread `t` takes its next action. The log records every counter value claimed. */
  function Advance(units: seq<UnitPlan>, s: State, t: nat): (r: State)
    requires ThreadsOk(units, s.threads) && t < |s.threads|
    ensures ThreadsOk(units, r.threads) && |r.threads| == |s.threads|
  {
    var step := StepLocal(units, s.next, s.threads[t]);
    State(step.next, s.threads[t := step.local], s.emitted + step.rows,
          s.scanned + step.scanned, s.skipped + step.skipped,
          if step.next != s.next then s.claims + [s.next] else s.claims)
  }

  /** A schedule names the thread that takes each action. */
  predicate IsSchedule(schedule: seq<nat>, threads: nat)
  {
    forall i :: 0 <= i < |schedule| ==> schedule[i] < threads
  }

  /** The state after the first `n` actions of a schedule. */
  function Run(units: seq<UnitPlan>, threads: nat, schedule: seq<nat>, n: nat): (s: State)
    requires n <= |schedule| && IsSchedule(schedule, threads)
    ensures ThreadsOk(units, s.threads) && |s.threads| == threads
  {
    if n == 0 then Start(threads) else Advance(units, Run(units, threads, schedule, n - 1), schedule[n - 1])
  }

  /** Rows held by the first `n` threads. */
  function HeldBy(units: seq<UnitPlan>, threads: seq<Local>, n: nat): multiset<RowId>
    requires ThreadsOk(units, threads) && n <= |threads|
  {
    if n == 0 then multiset{} else HeldBy(units, threads, n - 1) + multiset(Held(units, threads[n - 1]))
  }

  function UncountedBy(units: seq<UnitPlan>, threads: seq<Local>, n: nat): nat
    requires n <= |threads|
  {
    if n == 0 then 0 else UncountedBy(units, threads, n - 1) + Uncounted(units, threads[n - 1])
  }

  /** The unit a thread is working on. */
  function Holding(l: Local): Option<nat>
  {
    if HasPending(l) then Some(l.unit) else l.claim
  }

  /** Rows emitted, held and unclaimed together are the whole queue's. */
  predicate Conserved(units: seq<UnitPlan>, s: State)
    requires ThreadsOk(units, s.threads)
  {
    multiset(s.emitted) + HeldBy(units, s.threads, |s.threads|) + multiset(Unclaimed(units, s.next)) ==
    multiset(Unclaimed(units, 0))
  }

  /** Every unit is counted, claimed by one thread, or unclaimed. */
  predicate Counted(units: seq<UnitPlan>, s: State)
  {
    s.scanned + s.skipped + UncountedBy(units, s.threads, |s.threads|) + UnclaimedCount(units, s.next) == |units|
  }

  /** No counter value is claimed twice, and no two threads work on the same unit. */
  predicate Exclusive(s: State)
  {
    && |s.claims| == s.next && (forall i :: 0 <= i < |s.claims| ==> s.claims[i] == i)
    && (forall t :: 0 <= t < |s.threads| && Holding(s.threads[t]).Some? ==> Holding(s.threads[t]).value < s.next)
    && (forall t, u :: 0 <= t < u < |s.threads| && Holding(s.threads[t]).Some? ==>
          Holding(s.threads[t]) != Holding(s.threads[u]))
  }

  /** A thread that has been told "0 rows" is done: nothing pending, queue exhausted. */
  predicate ToldIsDone(units: seq<UnitPlan>, s: State)
    requires ThreadsOk(units, s.threads)
  {
    forall t :: 0 <= t < |s.threads| && s.threads[t].told ==>
      s.next >= |units| && !HasPending(s.threads[t]) &&
      (s.threads[t].claim.Some? ==> s.threads[t].claim.value >= |units|)
  }

  predicate Inv(units: seq<UnitPlan>, s: State)
  {
    ThreadsOk(units, s.threads) && Conserved(units, s) && Counted(units, s) && Exclusive(s) && ToldIsDone(units, s)
  }

  lemma {:induction false} HeldByUpdate(units: seq<UnitPlan>, threads: seq<Local>, t: nat, l: Local, n: nat)
    requires ThreadsOk(units, threads) && LocalOk(units, l) && t < |threads| && n <= |threads|
    ensures ThreadsOk(units, threads[t := l])
    ensures t < n ==> HeldBy(units, threads[t := l], n) + multiset(Held(units, threads[t])) ==
                      HeldBy(units, threads, n) + multiset(Held(units, l))
    ensures t >= n ==> HeldBy(units, threads[t := l], n) == HeldBy(units, threads, n)
  {
    hide Held;
    if n > 0 {
      HeldByUpdate(units, threads, t, l, n - 1);
      var a, b := HeldBy(units, threads[t := l], n - 1), HeldBy(units, threads, n - 1);
      var old_, new_ := multiset(Held(units, threads[t])), multiset(Held(units, l));
      if t == n - 1 {
        assert a == b;
        assert HeldBy(units, threads[t := l], n) == b + new_;
        assert HeldBy(units, threads, n) == b + old_;
      } else if t < n {
        var last := multiset(Held(units, threads[n - 1]));
        assert HeldBy(units, threads[t := l], n) == a + last;
        assert a + last + old_ == (a + old_) + last;
      }
    }
  }

  lemma {:induction false} UncountedByUpdate(units: seq<UnitPlan>, threads: seq<Local>, t: nat, l: Local, n: nat)
    requires t < |threads| && n <= |threads|
    ensures UncountedBy(units, threads[t := l], n) ==
      UncountedBy(units, threads, n) + if t < n then Uncounted(units, l) - Uncounted(units, threads[t]) else 0
  {
    if n > 0 { UncountedByUpdate(units, threads, t, l, n - 1); }
  }

  lemma AdvanceConserves(units: seq<UnitPlan>, s: State, t: nat)
    requires ThreadsOk(units, s.threads) && t < |s.threads| && Conserved(units, s)
    ensures Conserved(units, Advance(units, s, t))
  {
    var l := s.threads[t];
    var step := StepLocal(units, s.next, l);
    StepMoves(units, s.next, l);
    HeldByUpdate(units, s.threads, t, step.local, |s.threads|);
    Exchange(multiset(s.emitted), multiset(step.rows),
             HeldBy(units, s.threads, |s.threads|), HeldBy(units, s.threads[t := step.local], |s.threads|),
             multiset(Held(units, l)), multiset(Held(units, step.local)),
             multiset(Unclaimed(units, s.next)), multiset(Unclaimed(units, step.next)));
  }

  lemma Exchange(e: multiset<RowId>, r: multiset<RowId>, all: multiset<RowId>, all': multiset<RowId>,
                 h: multiset<RowId>, h': multiset<RowId>, u: multiset<RowId>, u': multiset<RowId>)
    requires all' + h == all + h' && r + h' + u' == h + u
    ensures (e + r) + all' + u' == e + all + u
  {
    forall x: RowId ensures ((e + r) + all' + u')[x] == (e + all + u)[x] {
      assert (all' + h)[x] == (all + h')[x];
      assert (r + h' + u')[x] == (h + u)[x];
    }
  }

  /** As multisets: what leaves the thread and the queue is what is emitted. */
  lemma StepMoves(units: seq<UnitPlan>, next: nat, l: Local)
    requires LocalOk(units, l)
    ensures var s := StepLocal(units, next, l);
      multiset(s.rows) + multiset(Held(units, s.local)) + multiset(Unclaimed(units, s.next)) ==
      multiset(Held(units, l)) + multiset(Unclaimed(units, next))
  {
    var s := StepLocal(units, next, l);
    StepConserves(units, next, l);
    if s.next == next {
      assert multiset(s.rows + Held(units, s.local)) == multiset(s.rows) + multiset(Held(units, s.local));
    } else if next < |units| {
      assert Unclaimed(units, next) == Work(units[next]) + Unclaimed(units, next + 1);
    }
  }

  lemma AdvanceCounts(units: seq<UnitPlan>, s: State, t: nat)
    requires ThreadsOk(units, s.threads) && t < |s.threads| && Counted(units, s)
    ensures Counted(units, Advance(units, s, t))
  {
    UncountedByUpdate(units, s.threads, t, StepLocal(units, s.next, s.threads[t]).local, |s.threads|);
  }

  lemma AdvanceExclusive(units: seq<UnitPlan>, s: State, t: nat)
    requires ThreadsOk(units, s.threads) && t < |s.threads| && Exclusive(s)
    ensures Exclusive(Advance(units, s, t))
  {
    var r := Advance(units, s, t);
    forall u, v | 0 <= u < v < |r.threads| && Holding(r.threads[u]).Some?
      ensures Holding(r.threads[u]) != Holding(r.threads[v])
    {
      assert u != t ==> r.threads[u] == s.threads[u];
      assert v != t ==> r.threads[v] == s.threads[v];
    }
  }

  lemma AdvanceTold(units: seq<UnitPlan>, s: State, t: nat)
    requires ThreadsOk(units, s.threads) && t < |s.threads| && ToldIsDone(units, s)
    requires s.threads[t].claim.Some? ==> s.threads[t].claim.value < s.next
    ensures ToldIsDone(units, Advance(units, s, t))
  {
    var r := Advance(units, s, t);
    forall u | 0 <= u < |r.threads| && r.threads[u].told
      ensures r.next >= |units| && !HasPending(r.threads[u]) &&
              (r.threads[u].claim.Some? ==> r.threads[u].claim.value >= |units|)
    {
      assert u != t ==> r.threads[u] == s.threads[u];
    }
  }

  /** Every claim or emit step of any thread keeps the invariant. */
  lemma AdvanceKeepsInv(units: seq<UnitPlan>, s: State, t: nat)
    requires Inv(units, s) && t < |s.threads|
    ensures Inv(units, Advance(units, s, t))
  {
    AdvanceConserves(units, s, t);
    AdvanceCounts(units, s, t);
    AdvanceExclusive(units, s, t);
    assert s.threads[t].claim.Some? ==> s.threads[t].claim.value < s.next by {
      if s.threads[t].claim.Some? { assert Holding(s.threads[t]) == s.threads[t].claim; }
    }
    AdvanceTold(units, s, t);
  }

  lemma {:induction false} StartInv(units: seq<UnitPlan>, threads: nat, n: nat)
    requires n <= threads
    ensures ThreadsOk(units, Start(threads).threads)
    ensures HeldBy(units, Start(threads).threads, n) == multiset{} && UncountedBy(units, Start(threads).threads, n) == 0
  {
    if n > 0 { StartInv(units, threads, n - 1); }
  }

  lemma StartIsInv(units: seq<UnitPlan>, threads: nat)
    ensures Inv(units, Start(threads))
  {
    StartInv(units, threads, threads);
  }

  /** The invariant holds after any number of actions of any schedule. */
  lemma {:induction false} RunKeepsInv(units: seq<UnitPlan>, threads: nat, schedule: seq<nat>, n: nat)
    requires n <= |schedule| && IsSchedule(schedule, threads)
    ensures Inv(units, Run(units, threads, schedule, n))
  {
    hide Inv;
    hide Advance;
    hide ThreadsOk;
    hide Conserved;
    hide Counted;
    hide Exclusive;
    hide ToldIsDone;
    if n == 0 {
      StartIsInv(units, threads);
    } else {
      RunKeepsInv(units, threads, schedule, n - 1);
      AdvanceKeepsInv(units, Run(units, threads, schedule, n - 1), schedule[n - 1]);
    }
  }

  lemma {:induction false} NothingHeld(units: seq<UnitPlan>, threads: seq<Local>, n: nat)
    requires ThreadsOk(units, threads) && n <= |threads|
    requires forall t :: 0 <= t < |threads| ==> Held(units, threads[t]) == [] && Uncounted(units, threads[t]) == 0
    ensures HeldBy(units, threads, n) == multiset{} && UncountedBy(units, threads, n) == 0
  {
    hide Held;
    if n > 0 { NothingHeld(units, threads, n - 1); }
  }

  predicate AllTold(s: State) { forall t :: 0 <= t < |s.threads| ==> s.threads[t].told }

  /** Units counted as scanned or skipped only ever increase, up to all of them. */
  lemma CountsGrow(units: seq<UnitPlan>, threads: nat, schedule: seq<nat>, n: nat)
    requires n < |schedule| && IsSchedule(schedule, threads)
    ensures var s, r := Run(units, threads, schedule, n), Run(units, threads, schedule, n + 1);
      s.scanned + s.skipped <= r.scanned + r.skipped <= |units|
  {
    RunKeepsInv(units, threads, schedule, n + 1);
    hide Conserved;
    hide Exclusive;
    hide ToldIsDone;
    hide StepLocal;
    assert Counted(units, Run(units, threads, schedule, n + 1));
  }

  /** Once every thread has been told "0 rows", the rows emitted are exactly the queue's
      passing rows, each once, and every unit has been counted. */
  lemma AllToldAllEmitted(units: seq<UnitPlan>, threads: nat, schedule: seq<nat>)
    requires threads > 0 && IsSchedule(schedule, threads)
    requires AllTold(Run(units, threads, schedule, |schedule|))
    ensures var s := Run(units, threads, schedule, |schedule|);
      multiset(s.emitted) == multiset(Unclaimed(units, 0)) && s.scanned + s.skipped == |units|
  {
    var s := Run(units, threads, schedule, |schedule|);
    RunKeepsInv(units, threads, schedule, |schedule|);
    assert s.threads[0].told;
    NothingHeld(units, s.threads, |s.threads|);
  }

  // ----- calls are runs -----

  /** `k` actions of thread `t` in a row. */
  function Turns(units: seq<UnitPlan>, s: State, t: nat, k: nat): (r: State)
    requires ThreadsOk(units, s.threads) && t < |s.threads|
    ensures ThreadsOk(units, r.threads) && |r.threads| == |s.threads|
  {
    if k == 0 then s else Advance(units, Turns(units, s, t, k - 1), t)
  }

  lemma {:induction false} TurnsFirst(units: seq<UnitPlan>, s: State, t: nat, k: nat)
    requires ThreadsOk(units, s.threads) && t < |s.threads|
    ensures Turns(units, Advance(units, s, t), t, k) == Turns(units, s, t, k + 1)
  {
    hide Advance;
    if k > 0 { TurnsFirst(units, s, t, k - 1); }
  }

  /** The shared and the thread's state after an undisturbed call of thread `t`. */
  predicate AfterCall(units: seq<UnitPlan>, s: State, t: nat, e: State)
    requires ThreadsOk(units, s.threads) && t < |s.threads|
  {
    var r := Call(units, s.next, s.threads[t]);
    && e.next == r.next && e.threads == s.threads[t := r.local] && e.emitted == s.emitted + r.rows
    && e.scanned == s.scanned + r.scanned && e.skipped == s.skipped + r.skipped
  }

  /** A call of a thread is a number of its actions in a row. */
  lemma {:induction false} CallIsTurns(units: seq<UnitPlan>, s: State, t: nat) returns (k: nat)
    requires ThreadsOk(units, s.threads) && t < |s.threads|
    ensures AfterCall(units, s, t, Turns(units, s, t, k))
    decreases UnclaimedCount(units, s.next), Rank(units, s.threads[t])
  {
    hide StepLocal;
    hide Rank;
    hide UnclaimedCount;
    hide LocalOk;
    var step := StepLocal(units, s.next, s.threads[t]);
    var e := Advance(units, s, t);
    StepDecreases(units, s.next, s.threads[t], s.next);
    assert Turns(units, s, t, 0) == s;
    if EndsCall(units, s.threads[t], step) {
      k := 1;
    } else {
      assert step.rows == [] && e.emitted + [] == e.emitted;
      var more := CallIsTurns(units, e, t);
      TurnsFirst(units, s, t, more);
      CallContinues(units, s, t, Turns(units, e, t, more));
      k := more + 1;
    }
  }

  lemma CallContinues(units: seq<UnitPlan>, s: State, t: nat, end: State)
    requires ThreadsOk(units, s.threads) && t < |s.threads|
    requires !EndsCall(units, s.threads[t], StepLocal(units, s.next, s.threads[t]))
    requires AfterCall(units, Advance(units, s, t), t, end)
    ensures AfterCall(units, s, t, end)
  {
    hide StepLocal;
    hide Call;
    var step := StepLocal(units, s.next, s.threads[t]);
    assert Advance(units, s, t).emitted == s.emitted;
    CallUnfolds(units, s.next, s.threads[t]);
  }

  /** So a call made at any point of a run is a run with a longer schedule: theorems about
      runs hold of any sequence of calls. */
  lemma CallExtendsRun(units: seq<UnitPlan>, threads: nat, schedule: seq<nat>, t: nat) returns (longer: seq<nat>)
    requires IsSchedule(schedule, threads) && t < threads
    ensures schedule <= longer && IsSchedule(longer, threads) && (forall i :: |schedule| <= i < |longer| ==> longer[i] == t)
    ensures AfterCall(units, Run(units, threads, schedule, |schedule|), t, Run(units, threads, longer, |longer|))
  {
    var s := Run(units, threads, schedule, |schedule|);
    hide Advance;
    var k := CallIsTurns(units, s, t);
    longer := schedule + seq(k, _ => t);
    TurnsExtendRun(units, threads, schedule, t, k);
  }

  lemma {:induction false} TurnsExtendRun(units: seq<UnitPlan>, threads: nat, schedule: seq<nat>, t: nat, k: nat)
    requires IsSchedule(schedule, threads) && t < threads
    ensures IsSchedule(schedule + seq(k, _ => t), threads)
    ensures Run(units, threads, schedule + seq(k, _ => t), |schedule| + k) ==
            Turns(units, Run(units, threads, schedule, |schedule|), t, k)
  {
    hide Advance;
    var longer := schedule + seq(k, _ => t);
    if k == 0 {
      assert longer == schedule;
    } else {
      TurnsExtendRun(units, threads, schedule, t, k - 1);
      assert longer == (schedule + seq(k - 1, _ => t)) + [t];
      RunPrefix(units, threads, schedule + seq(k - 1, _ => t), longer, |schedule| + k - 1);
    }
  }

  lemma {:induction false} RunPrefix(units: seq<UnitPlan>, threads: nat, a: seq<nat>, b: seq<nat>, n: nat)
    requires IsSchedule(a, threads) && IsSchedule(b, threads) && n <= |a| && a <= b
    ensures Run(units, threads, a, n) == Run(units, threads, b, n)
  {
    hide Advance;
    if n > 0 { RunPrefix(units, threads, a, b, n - 1); }
  }

  // ----- every thread is told in the end -----

  /** Actions that the unclaimed units can still take. */
  function Budget(units: seq<UnitPlan>, next: nat): nat
    decreases |units| - next
  {
    if next >= |units| then 0 else units[next].total + 3 + Budget(units, next + 1)
  }

  lemma {:induction false} BudgetFalls(units: seq<UnitPlan>, next: nat, later: nat)
    requires next <= later
    ensures Budget(units, later) <= Budget(units, next)
    decreases later
  {
    if next < later { BudgetFalls(units, next, later - 1); }
  }

  /** Actions that the thread can still take before it is told "0 rows". */
  function Ahead(units: seq<UnitPlan>, next: nat, l: Local): nat { Budget(units, next) + Rank(units, l) }

  lemma StepUsesBudget(units: seq<UnitPlan>, next: nat, l: Local)
    requires LocalOk(units, l)
    ensures var s := StepLocal(units, next, l);
      (s.local.told || Ahead(units, s.next, s.local) < Ahead(units, next, l)) && (l.told ==> s.local.told)
  {
  }

  /** Actions of thread `t` among the first `n` of a schedule. */
  function TurnsOf(schedule: seq<nat>, t: nat, n: nat): (k: nat)
    requires n <= |schedule|
    ensures k <= n
  {
    if n == 0 then 0 else TurnsOf(schedule, t, n - 1) + if schedule[n - 1] == t then 1 else 0
  }

  lemma {:induction false} TurnsUseBudget(units: seq<UnitPlan>, threads: nat, schedule: seq<nat>, t: nat, n: nat)
    requires IsSchedule(schedule, threads) && t < threads && n <= |schedule|
    ensures var s := Run(units, threads, schedule, n);
      s.threads[t].told || TurnsOf(schedule, t, n) + Ahead(units, s.next, s.threads[t]) <= Budget(units, 0) + 1
  {
    if n > 0 {
      TurnsUseBudget(units, threads, schedule, t, n - 1);
      var s := Run(units, threads, schedule, n - 1);
      var r := Run(units, threads, schedule, n);
      StepUsesBudget(units, s.next, s.threads[schedule[n - 1]]);
      StepKeepsCounter(units, s.next, s.threads[schedule[n - 1]]);
      BudgetFalls(units, s.next, r.next);
      hide StepLocal;
      hide Rank;
      hide Budget;
    }
  }

  lemma StepKeepsCounter(units: seq<UnitPlan>, next: nat, l: Local)
    requires LocalOk(units, l)
    ensures next <= StepLocal(units, next, l).next
  {
  }

  /** Whatever the interleaving, once every thread has had enough turns, each has been told
      "0 rows". */
  lemma FairRunEnds(units: seq<UnitPlan>, threads: nat, schedule: seq<nat>)
    requires IsSchedule(schedule, threads)
    requires forall t :: 0 <= t < threads ==> TurnsOf(schedule, t, |schedule|) > Budget(units, 0) + 1
    ensures AllTold(Run(units, threads, schedule, |schedule|))
  {
    forall t | 0 <= t < threads ensures Run(units, threads, schedule, |schedule|).threads[t].told {
      TurnsUseBudget(units, threads, schedule, t, |schedule|);
    }
  }
}
