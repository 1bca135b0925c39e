/** The table function's `Execute`: one call on the shared and the thread's state, which
    fills the output chunk and says which of its positions are returned. */
module EmitLoop {
  import opened Bytes
  import opened Types
  import opened Filters
  import opened Chunks
  import opened ColumnFill
  import opened ColumnMap
  import opened OutputSlots
  import opened ScanMachine
  import opened MetadataScan
  import opened Scanner

  // ----- what a call leaves in the output chunk -----

  ghost function Views(outs: seq<OutVector>): (views: seq<VecState>)
    reads Memory(outs)
    ensures |views| == |outs|
  {
    seq(|outs|, i requires 0 <= i < |outs| reads Memory(outs) => outs[i].View())
  }

  /** Chunks of the state's units fit its slots. */
  lemma ChunkFits(g: TAEScanState, f: Fill, i: nat)
    requires g.Valid() && FillOk(g.Plans(), f) && i < |g.outputMap|
    ensures SlotFits(g.outputMap[i], g.ChunkOf(f), 2048)
  {
    var slot := g.outputMap[i];
    if !g.MetadataOnly() && slot.TaeColumn? && slot.decodedPos < |g.UnitAt(f.unit).cols| {
      assert g.UnitOk(g.workUnits[f.unit]);
      var u := g.UnitAt(f.unit);
      assert g.Plans()[f.unit] == PlanOf(g.filters, u);
      hide Fillable;
      hide FileUnit;
      assert SlotsFillable(g.outputMap, u);
      FillablePart(u.cols[slot.decodedPos], u.Total(), f.until - f.from, f.from);
    }
  }

  lemma ChunksFit(g: TAEScanState, fills: seq<Fill>, i: nat)
    requires g.Valid() && AllFillsOk(g.Plans(), fills) && i < |g.outputMap|
    ensures AllFitSlot(g.outputMap[i], g.ChunksOf(fills), 2048)
  {
    hide SlotFits;
    hide FillOk;
    forall k | 0 <= k < |fills| ensures SlotFits(g.outputMap[i], g.ChunksOf(fills)[k], 2048) {
      assert FillOk(g.Plans(), fills[k]);
      ChunkFits(g, fills[k], i);
    }
  }

  /** The vector of slot `i` after these fills. */
  ghost function SlotState(g: TAEScanState, v: VecState, i: nat, fills: seq<Fill>): (r: VecState)
    requires g.Valid() && AllFillsOk(g.Plans(), fills) && i < |g.outputMap| && Sized(v) && |v.data| == 2048
    ensures Sized(r) && |r.data| == 2048
  {
    ChunksFit(g, fills, i);
    SlotAfter(v, g.outputMap[i], g.ChunksOf(fills), |fills|)
  }

  lemma SlotStateStep(g: TAEScanState, v: VecState, i: nat, fills: seq<Fill>, f: Fill)
    requires g.Valid() && AllFillsOk(g.Plans(), fills) && FillOk(g.Plans(), f) && i < |g.outputMap| && Sized(v) && |v.data| == 2048
    ensures AllFillsOk(g.Plans(), fills + [f]) && SlotFits(g.outputMap[i], g.ChunkOf(f), 2048)
    ensures SlotState(g, v, i, fills + [f]) == SlotFilled(SlotState(g, v, i, fills), g.outputMap[i], g.ChunkOf(f))
  {
    hide FileUnit;
    hide Scannable;
    hide Shippable;
    hide SlotFits;
    hide SlotFilled;
    hide g.ChunkOf;
    ChunkFits(g, f, i);
    ChunksFit(g, fills, i);
    ChunksFit(g, fills + [f], i);
    assert g.ChunksOf(fills + [f]) == g.ChunksOf(fills) + [g.ChunkOf(f)];
    SlotAfterAppend(v, g.outputMap[i], g.ChunksOf(fills), g.ChunkOf(f), |fills|);
  }

  lemma {:induction false} SlotAfterAppend(v: VecState, slot: OutputColumn, chunks: seq<ChunkFill>, c: ChunkFill, n: nat)
    requires Sized(v) && AllFitSlot(slot, chunks, |v.data|) && AllFitSlot(slot, chunks + [c], |v.data|) && n <= |chunks|
    ensures SlotAfter(v, slot, chunks + [c], n) == SlotAfter(v, slot, chunks, n)
  {
    hide SlotFilled;
    if n > 0 { SlotAfterAppend(v, slot, chunks, c, n - 1); }
  }

  /** Every slot's vector has gone through one fill. */
  ghost predicate OnceFilled(g: TAEScanState, before: seq<VecState>, after: seq<VecState>, f: Fill)
    requires g.Valid() && FillOk(g.Plans(), f)
  {
    && |before| == |after| == |g.outputMap|
    && forall i :: 0 <= i < |before| ==>
         && Sized(before[i]) && |before[i].data| == 2048 && SlotFits(g.outputMap[i], g.ChunkOf(f), 2048)
         && after[i] == SlotFilled(before[i], g.outputMap[i], g.ChunkOf(f))
  }

  /** Every slot's vector has gone through these fills. */
  ghost predicate Filled(g: TAEScanState, before: seq<VecState>, after: seq<VecState>, fills: seq<Fill>)
    requires g.Valid()
  {
    && AllFillsOk(g.Plans(), fills) && |before| == |after| == |g.outputMap|
    && forall i :: 0 <= i < |before| ==>
         Sized(before[i]) && |before[i].data| == 2048 && after[i] == SlotState(g, before[i], i, fills)
  }

  // ----- the call -----

  /** One call. Without columns to read or filters it computes `FastCall`, and no block is
      counted; else the machine's `Call`, whose contract says which rows come out, in
      which order, and when none do. The output chunk has gone through the call's fills,
      and the rows returned are at the selected positions of the last one. */
  method Execute(g: TAEScanState, l: TAEScanLocalState, outs: seq<OutVector>) returns (out: seq<RowId>, sel: seq<nat>)
    requires g.Valid() && l.Valid(g) && Ready(outs, g.outputMap, 2048)
    modifies g, l, l.Repr(), Memory(outs)
    ensures l.Valid(g) && fresh(l.Repr() - old(l.Repr())) && Ready(outs, g.outputMap, 2048)
    ensures if g.MetadataOnly() then
        var r := old(FastCall(g.Plans(), g.nextWorkUnit, l.View()));
        Counts(g, Outcome(r.0, r.1, r.2, 0, 0)) && l.View() == r.1 && out == r.2
      else
        var r := old(Call(g.Plans(), g.nextWorkUnit, l.View())); Counts(g, r) && l.View() == r.local && out == r.rows
    ensures var fills := old(CallFills(g, l));
      && Filled(g, old(Views(outs)), Views(outs), fills)
      && (out != [] ==> fills != [] && out == FillRows(g.Plans(), LastFill(fills)) && Compacts(g.Plans(), LastFill(fills), sel))
  {
    if g.readSeqnums == [] && g.filters == [] {
      out, sel := EmitCounted(g, l, outs);
    } else {
      out, sel := EmitFiltered(g, l, outs);
    }
  }

  /** The chunks that a call fills the output with. */
  ghost function CallFills(g: TAEScanState, l: TAEScanLocalState): seq<Fill>
    requires g.Valid() && l.PendingOk(g)
    reads g, l
  {
    if g.MetadataOnly() then FastFills(g.Plans(), g.nextWorkUnit, l.View()) else Fills(g.Plans(), g.nextWorkUnit, l.View())
  }

  // ----- the emit loop on files -----

  /** The chunk that the thread would emit next. */
  ghost function NextFill(l: TAEScanLocalState): Fill
    requires l.pendingOffset <= l.pendingTotalRows
    reads l
  {
    Fill(l.pendingUnit, l.pendingOffset, l.pendingOffset + Min(l.pendingTotalRows - l.pendingOffset, 2048))
  }

  /** next_block and emit_chunk: chunks of pending blocks until one has passing rows. */
  method EmitFiltered(g: TAEScanState, l: TAEScanLocalState, outs: seq<OutVector>) returns (out: seq<RowId>, sel: seq<nat>)
    requires g.Valid() && !g.MetadataOnly() && l.Valid(g) && Ready(outs, g.outputMap, 2048)
    modifies g, l, l.Repr(), Memory(outs)
    ensures l.Valid(g) && fresh(l.Repr() - old(l.Repr())) && Ready(outs, g.outputMap, 2048)
    ensures var r := old(Call(g.Plans(), g.nextWorkUnit, l.View())); Counts(g, r) && l.View() == r.local && out == r.rows
    ensures var fills := old(Fills(g.Plans(), g.nextWorkUnit, l.View()));
      && Filled(g, old(Views(outs)), Views(outs), fills)
      && (out != [] ==> fills != [] && out == FillRows(g.Plans(), LastFill(fills)) && Compacts(g.Plans(), LastFill(fills), sel))
  {
    hide FileUnit;
    hide Scannable;
    hide Shippable;
    hide Call;
    hide Fills;
    hide IsOpen;
    hide LocalOk;
    hide Rank;
    hide UnclaimedCount;
    hide Filled;
    hide Compacts;
    hide OnTrack;
    hide EmptyFills;
    hide FillRows;
    hide FillOk;
    hide Ready;
    hide Memory;
    ghost var goal, made: seq<Fill> := GoalOf(g, g.nextWorkUnit, l.View(), Views(outs)), [];
    TrackStarts(g, g.nextWorkUnit, l.View(), outs);
    while true
      invariant l.Valid(g) && fresh(l.Repr() - old(l.Repr())) && Ready(outs, g.outputMap, 2048)
      invariant Tracked(g, l, outs, goal, made, [], old(g.blocksScanned), old(g.blocksSkipped))
      invariant g.rowsEmitted == old(g.rowsEmitted)
      decreases UnclaimedCount(g.Plans(), g.nextWorkUnit), Rank(g.Plans(), l.View())
    {
      ghost var owed: seq<Fill> := [];
      if l.pendingOffset >= l.pendingTotalRows {
        owed := EmptyFills(g.Plans(), g.nextWorkUnit);
        var claimed, kept := ClaimNext(g, l, outs, goal, made, old(g.blocksScanned), old(g.blocksSkipped));
        if !claimed { return [], []; }
        if !kept { continue; }
      }
      ghost var f := NextFill(l);
      out, sel := EmitNext(g, l, outs, goal, made, owed, old(g.blocksScanned), old(g.blocksSkipped));
      made := made + [f];
      if |out| > 0 { return; }
    }
  }

  /** What a call is to do: its outcome and its fills, and the vectors before it. */
  datatype Goal = Goal(want: Outcome, fills: seq<Fill>, before: seq<VecState>)

  ghost function GoalOf(g: TAEScanState, next: nat, l: Local, views: seq<VecState>): Goal
    requires g.Valid() && LocalOk(g.Plans(), l)
  {
    Goal(Call(g.Plans(), next, l), Fills(g.Plans(), next, l), views)
  }

  /** Some blocks have been counted and some chunks filled; what is owed is filled next, and
      then whatever a call from here would do. */
  ghost predicate OnTrack(g: TAEScanState, goal: Goal, made: seq<Fill>, owed: seq<Fill>, next: nat, l: Local,
                          views: seq<VecState>, scanned: int, skipped: int)
    requires g.Valid()
  {
    && LocalOk(g.Plans(), l) && Filled(g, goal.before, views, made)
    && goal.fills == made + owed + Fills(g.Plans(), next, l)
    && Leaves(goal.want, Call(g.Plans(), next, l), scanned, skipped)
  }

  /** The call is over. */
  ghost predicate CallOver(g: TAEScanState, goal: Goal, made: seq<Fill>, next: nat, l: Local, rows: seq<RowId>,
                           views: seq<VecState>, scanned: int, skipped: int)
    requires g.Valid()
  {
    && goal.want.next == next && goal.want.local == l && goal.want.rows == rows
    && goal.want.scanned == scanned && goal.want.skipped == skipped
    && goal.fills == made && Filled(g, goal.before, views, made)
  }

  /** What is left of a call after some of its blocks have been counted. */
  predicate Leaves(want: Outcome, rest: Outcome, scanned: int, skipped: int)
  {
    && want.next == rest.next && want.local == rest.local && want.rows == rest.rows
    && want.scanned == scanned + rest.scanned && want.skipped == skipped + rest.skipped
  }

  lemma TrackStarts(g: TAEScanState, next: nat, l: Local, outs: seq<OutVector>)
    requires g.Valid() && LocalOk(g.Plans(), l) && Ready(outs, g.outputMap, 2048)
    ensures OnTrack(g, GoalOf(g, next, l, Views(outs)), [], [], next, l, Views(outs), 0, 0)
  {
    hide Call;
    hide Fills;
    hide Filled;
    hide LocalOk;
    UnfilledYet(g, Views(outs));
  }

  /** A claim ends the call, or leaves the fill of a block without rows to be done. */
  lemma TrackClaims(g: TAEScanState, goal: Goal, made: seq<Fill>, next: nat, l: Local, views: seq<VecState>, scanned: int, skipped: int)
    requires g.Valid() && OnTrack(g, goal, made, [], next, l, views, scanned, skipped) && !HasPending(l) && l.claim.None?
    ensures LocalOk(g.Plans(), l)
    ensures var s := Claim(g.Plans(), next, l);
      && s.next == next + 1
      && if next >= |g.workUnits| then CallOver(g, goal, made, s.next, s.local, [], views, scanned + s.scanned, skipped + s.skipped)
         else OnTrack(g, goal, made, EmptyFills(g.Plans(), next), s.next, s.local, views, scanned + s.scanned, skipped + s.skipped) &&
              UnclaimedCount(g.Plans(), s.next) < UnclaimedCount(g.Plans(), next)
  {
    hide FileUnit;
    hide Scannable;
    hide Shippable;
    hide Call;
    hide Claim;
    hide Fills;
    hide Filled;
    hide LocalOk;
    hide EmptyFills;
    hide UnclaimedCount;
    ClaimContinues(g.Plans(), next, l);
  }

  /** A chunk with passing rows ends the call. */
  lemma TrackEmits(g: TAEScanState, goal: Goal, made: seq<Fill>, owed: seq<Fill>, next: nat, l: Local, views: seq<VecState>,
                   scanned: int, skipped: int, f: Fill, l': Local, rows: seq<RowId>, after: seq<VecState>)
    requires g.Valid() && OnTrack(g, goal, made, owed, next, l, views, scanned, skipped)
    requires FillOk(g.Plans(), f) && OnceFilled(g, views, after, f) && rows == FillRows(g.Plans(), f)
    requires if HasPending(l) then owed == [] && Emits(g.Plans(), next, l, f, l', rows)
             else owed == [f] && f.from == f.until && l' == l
    ensures if rows != [] then CallOver(g, goal, made + [f], next, l', rows, after, scanned, skipped)
            else OnTrack(g, goal, made + [f], [], next, l', after, scanned, skipped) &&
                 (HasPending(l) ==> Rank(g.Plans(), l') < Rank(g.Plans(), l))
  {
    hide FileUnit;
    hide Scannable;
    hide Shippable;
    hide Call;
    hide Fills;
    hide Filled;
    hide FillOk;
    hide OnceFilled;
    hide StepLocal;
    hide Rank;
    hide FillRows;
    OneMoreFill(g, goal.before, views, after, made, f);
    if HasPending(l) {
      EmitContinues(g.Plans(), next, l);
    } else {
      NoRowsNone(g.Plans(), f);
    }
  }

  /** The emit step of a pending block, and the chunk it fills. */
  predicate Emits(plans: seq<UnitPlan>, next: nat, l: Local, f: Fill, l': Local, rows: seq<RowId>)
    requires LocalOk(plans, l) && HasPending(l)
  {
    f == Fill(l.unit, l.offset, ChunkEnd(l)) && l' == StepLocal(plans, next, l).local && rows == StepLocal(plans, next, l).rows
  }

  lemma NoRowsNone(plans: seq<UnitPlan>, f: Fill)
    requires FillOk(plans, f)
    ensures f.from == f.until ==> FillRows(plans, f) == []
  {
  }

  ghost predicate Tracked(g: TAEScanState, l: TAEScanLocalState, outs: seq<OutVector>, goal: Goal, made: seq<Fill>, owed: seq<Fill>,
                          scanned: nat, skipped: nat)
    requires g.Valid()
    reads g, l, Memory(outs)
  {
    OnTrack(g, goal, made, owed, g.nextWorkUnit, l.View(), Views(outs), g.blocksScanned - scanned, g.blocksSkipped - skipped)
  }

  ghost predicate Over(g: TAEScanState, l: TAEScanLocalState, outs: seq<OutVector>, goal: Goal, made: seq<Fill>, rows: seq<RowId>,
                       scanned: nat, skipped: nat)
    requires g.Valid()
    reads g, l, Memory(outs)
  {
    CallOver(g, goal, made, g.nextWorkUnit, l.View(), rows, Views(outs), g.blocksScanned - scanned, g.blocksSkipped - skipped)
  }

  /** Claims a unit, which may leave a block without rows to be filled. */
  method ClaimNext(g: TAEScanState, l: TAEScanLocalState, outs: seq<OutVector>, ghost goal: Goal, ghost made: seq<Fill>,
                   ghost scanned: nat, ghost skipped: nat) returns (ok: bool, kept: bool)
    requires g.Valid() && !g.MetadataOnly() && l.Valid(g) && l.pendingOffset >= l.pendingTotalRows && Ready(outs, g.outputMap, 2048)
    requires Tracked(g, l, outs, goal, made, [], scanned, skipped)
    modifies g`nextWorkUnit, g`blocksScanned, g`blocksSkipped, l, l.Repr()
    ensures l.Valid(g) && fresh(l.Repr() - old(l.Repr())) && Ready(outs, g.outputMap, 2048)
    ensures !ok ==> Over(g, l, outs, goal, made, [], scanned, skipped)
    ensures ok ==> UnclaimedCount(g.Plans(), g.nextWorkUnit) < old(UnclaimedCount(g.Plans(), g.nextWorkUnit))
    ensures ok && !kept ==> Tracked(g, l, outs, goal, made, [], scanned, skipped)
    ensures kept ==> l.HoldsUnit(g) && var owed := old(EmptyFills(g.Plans(), g.nextWorkUnit));
      && Tracked(g, l, outs, goal, made, owed, scanned, skipped) && owed == if HasPending(l.View()) then [] else [NextFill(l)]
  {
    hide FileUnit;
    hide Scannable;
    hide Shippable;
    hide Claim;
    hide IsOpen;
    hide LocalOk;
    hide OnTrack;
    hide CallOver;
    hide UnclaimedCount;
    TrackClaims(g, goal, made, g.nextWorkUnit, l.View(), Views(outs), g.blocksScanned - scanned, g.blocksSkipped - skipped);
    ghost var views := Views(outs);
    ok, kept := ClaimUnit(g, l);
    assert Views(outs) == views;
  }

  /** Fills, filters and moves on; the call is over when the chunk has passing rows. */
  method EmitNext(g: TAEScanState, l: TAEScanLocalState, outs: seq<OutVector>, ghost goal: Goal, ghost made: seq<Fill>,
                  ghost owed: seq<Fill>, ghost scanned: nat, ghost skipped: nat) returns (rows: seq<RowId>, sel: seq<nat>)
    requires g.Valid() && !g.MetadataOnly() && l.Valid(g) && l.HoldsUnit(g) && Ready(outs, g.outputMap, 2048)
    requires Tracked(g, l, outs, goal, made, owed, scanned, skipped) && owed == if HasPending(l.View()) then [] else [NextFill(l)]
    modifies g`rowsEmitted, l, Memory(outs)
    ensures l.Valid(g) && l.Repr() == old(l.Repr()) && Ready(outs, g.outputMap, 2048)
    ensures g.nextWorkUnit == old(g.nextWorkUnit) && g.rowsEmitted == old(g.rowsEmitted) + |rows|
    ensures var f := old(NextFill(l));
      && FillOk(g.Plans(), f) && rows == FillRows(g.Plans(), f) && Compacts(g.Plans(), f, sel)
      && if rows != [] then Over(g, l, outs, goal, made + [f], rows, scanned, skipped)
         else Tracked(g, l, outs, goal, made + [f], [], scanned, skipped) &&
              (old(HasPending(l.View())) ==> Rank(g.Plans(), l.View()) < old(Rank(g.Plans(), l.View())))
  {
    hide FileUnit;
    hide Scannable;
    hide Shippable;
    hide IsOpen;
    hide StepLocal;
    hide LocalOk;
    hide Rank;
    hide OnceFilled;
    hide FillOk;
    hide FillRows;
    hide Compacts;
    hide OnTrack;
    hide CallOver;
    ghost var f, view, views := NextFill(l), l.View(), Views(outs);
    rows, sel := EmitChunk(g, l, outs);
    TrackEmits(g, goal, made, owed, g.nextWorkUnit, view, views, g.blocksScanned - scanned, g.blocksSkipped - skipped,
               f, l.View(), rows, Views(outs));
  }

  lemma UnfilledYet(g: TAEScanState, views: seq<VecState>)
    requires g.Valid() && |views| == |g.outputMap|
    requires forall i :: 0 <= i < |views| ==> Sized(views[i]) && |views[i].data| == 2048
    ensures Filled(g, views, views, [])
  {
  }

  lemma OneMoreFill(g: TAEScanState, before: seq<VecState>, views: seq<VecState>, after: seq<VecState>, made: seq<Fill>, f: Fill)
    requires g.Valid() && Filled(g, before, views, made) && FillOk(g.Plans(), f) && OnceFilled(g, views, after, f)
    ensures Filled(g, before, after, made + [f])
  {
    hide SlotFilled;
    hide SlotFits;
    forall i | 0 <= i < |before| ensures AllFillsOk(g.Plans(), made + [f]) && after[i] == SlotState(g, before[i], i, made + [f]) {
      SlotStateStep(g, before[i], i, made, f);
    }
  }

  /** emit_chunk: fills the slots with the next rows of the pending block, filters them, then
      advances or clears. A block without rows is filled and filtered too. */
  method EmitChunk(g: TAEScanState, l: TAEScanLocalState, outs: seq<OutVector>) returns (rows: seq<RowId>, sel: seq<nat>)
    requires g.Valid() && !g.MetadataOnly() && l.ReaderOk(g) && LocalOk(g.Plans(), l.View()) && l.HoldsUnit(g)
    requires Ready(outs, g.outputMap, 2048)
    modifies g`rowsEmitted, l, Memory(outs)
    ensures l.Valid(g) && l.Repr() == old(l.Repr()) && Ready(outs, g.outputMap, 2048)
    ensures var f := old(NextFill(l));
      && FillOk(g.Plans(), f) && rows == FillRows(g.Plans(), f) && Compacts(g.Plans(), f, sel)
      && OnceFilled(g, old(Views(outs)), Views(outs), f)
    ensures l.View() == if old(HasPending(l.View())) then old(StepLocal(g.Plans(), g.nextWorkUnit, l.View())).local else old(l.View())
    ensures old(HasPending(l.View())) ==> rows == old(StepLocal(g.Plans(), g.nextWorkUnit, l.View())).rows
    ensures g.rowsEmitted == old(g.rowsEmitted) + |rows|
  {
    hide FileUnit;
    hide Scannable;
    hide Shippable;
    hide IsOpen;
    hide OnceFilled;
    hide Compacts;
    hide FillOk;
    hide StepLocal;
    hide FillRows;
    FillPending(g, l, outs);
    rows, sel := FilterPending(g, l);
  }

  /** Fills every slot with the next rows of the pending block. */
  method FillPending(g: TAEScanState, l: TAEScanLocalState, outs: seq<OutVector>)
    requires g.Valid() && l.HoldsUnit(g) && Ready(outs, g.outputMap, 2048)
    modifies Memory(outs)
    ensures Ready(outs, g.outputMap, 2048) && FillOk(g.Plans(), NextFill(l))
    ensures OnceFilled(g, old(Views(outs)), Views(outs), NextFill(l))
  {
    hide FileUnit;
    hide Scannable;
    hide Shippable;
    hide FillOk;
    hide OnceFilled;
    var srcOffset := l.pendingOffset;
    var chunkRows := Min(l.pendingTotalRows - srcOffset, 2048);
    var cols := if g.readSeqnums == [] && g.filters == [] then [] else l.pendingCols;
    PendingChunk(g, l);
    FillChunk(g, outs, ChunkFill(g.paths[l.pendingObjectIdx], l.pendingBlockIdx, cols, chunkRows, srcOffset), NextFill(l));
  }

  method FillChunk(g: TAEScanState, outs: seq<OutVector>, chunk: ChunkFill, ghost f: Fill)
    requires g.Valid() && FillOk(g.Plans(), f) && chunk == g.ChunkOf(f) && Ready(outs, g.outputMap, 2048)
    modifies Memory(outs)
    ensures Ready(outs, g.outputMap, 2048) && OnceFilled(g, old(Views(outs)), Views(outs), f)
  {
    hide FileUnit;
    hide Scannable;
    hide Shippable;
    hide FillOk;
    hide SlotFits;
    hide SlotFilled;
    hide g.ChunkOf;
    forall i | 0 <= i < |g.outputMap| ensures SlotFits(g.outputMap[i], chunk, 2048) { ChunkFits(g, f, i); }
    FillSlots(g.outputMap, outs, chunk, 2048);
  }

  lemma PendingChunk(g: TAEScanState, l: TAEScanLocalState)
    requires g.Valid() && l.HoldsUnit(g)
    ensures FillOk(g.Plans(), NextFill(l)) && l.pendingObjectIdx < |g.paths|
    ensures g.ChunkOf(NextFill(l)) ==
      ChunkFill(g.paths[l.pendingObjectIdx], l.pendingBlockIdx, if g.MetadataOnly() then [] else l.pendingCols,
                Min(l.pendingTotalRows - l.pendingOffset, 2048), l.pendingOffset)
  {
    hide FileUnit;
    hide Scannable;
    hide Shippable;
  }

  /** Filters the next rows of the pending block, and moves on. */
  method FilterPending(g: TAEScanState, l: TAEScanLocalState) returns (rows: seq<RowId>, sel: seq<nat>)
    requires g.Valid() && !g.MetadataOnly() && l.ReaderOk(g) && LocalOk(g.Plans(), l.View()) && l.HoldsUnit(g)
    modifies g`rowsEmitted, l
    ensures l.Valid(g) && l.Repr() == old(l.Repr())
    ensures var f := old(NextFill(l)); FillOk(g.Plans(), f) && rows == FillRows(g.Plans(), f) && Compacts(g.Plans(), f, sel)
    ensures l.View() == if old(HasPending(l.View())) then old(StepLocal(g.Plans(), g.nextWorkUnit, l.View())).local else old(l.View())
    ensures old(HasPending(l.View())) ==> rows == old(StepLocal(g.Plans(), g.nextWorkUnit, l.View())).rows
    ensures g.rowsEmitted == old(g.rowsEmitted) + |rows|
  {
    hide FileUnit;
    hide Scannable;
    hide Shippable;
    hide IsOpen;
    hide RowsOf;
    hide Compacts;
    hide RowReadable;
    hide Passer;
    hide Selected;
    hide StepLocal;
    hide IsSelection;
    if HasPending(l.View()) { PendingStep(g.Plans(), g.nextWorkUnit, l.View()); }
    var srcOffset := l.pendingOffset;
    var remaining := l.pendingTotalRows - srcOffset;
    var chunkRows := Min(remaining, 2048);
    var obj, blk := l.pendingObjectIdx, l.pendingBlockIdx;
    PendingReadable(g, l);
    sel := ApplyRowFilters(g.filters, l.pendingCols, chunkRows, srcOffset);
    rows := seq(|sel|, i requires 0 <= i < |sel| => RowId(obj, blk, srcOffset + sel[i]));
    SelectedRows(g, l, sel, rows);
    AdvancePending(l, chunkRows);
    g.rowsEmitted := g.rowsEmitted + |rows|;
  }

  /** Moves past the chunk, or clears the pending block. */
  method AdvancePending(l: TAEScanLocalState, chunkRows: nat)
    modifies l`pendingCols, l`pendingTotalRows, l`pendingOffset
    ensures l.pendingCols == if old(l.pendingOffset) + chunkRows < old(l.pendingTotalRows) then old(l.pendingCols) else []
    ensures l.pendingTotalRows == if old(l.pendingOffset) + chunkRows < old(l.pendingTotalRows) then old(l.pendingTotalRows) else 0
    ensures l.pendingOffset == if old(l.pendingOffset) + chunkRows < old(l.pendingTotalRows) then old(l.pendingOffset) + chunkRows else 0
  {
    l.pendingOffset := l.pendingOffset + chunkRows;
    if l.pendingOffset >= l.pendingTotalRows {
      l.pendingCols := [];
      l.pendingTotalRows := 0;
      l.pendingOffset := 0;
    }
  }

  lemma PendingReadable(g: TAEScanState, l: TAEScanLocalState)
    requires g.Valid() && !g.MetadataOnly() && l.HoldsUnit(g)
    ensures forall row :: 0 <= row < l.pendingTotalRows ==> RowReadable(g.filters, l.pendingCols, row)
  {
    assert g.UnitOk(g.workUnits[l.pendingUnit]);
    assert g.Plans()[l.pendingUnit] == PlanOf(g.filters, g.UnitAt(l.pendingUnit));
  }

  /** The selected positions are those of the chunk's passing rows. */
  lemma SelectedRows(g: TAEScanState, l: TAEScanLocalState, sel: seq<nat>, rows: seq<RowId>)
    requires g.Valid() && !g.MetadataOnly() && l.HoldsUnit(g)
    requires var f := NextFill(l);
      IsSelection(sel, f.from, Selected(Passer(g.filters, l.pendingCols), f.from, f.until))
    requires |rows| == |sel| &&
      forall i :: 0 <= i < |sel| ==> rows[i] == RowId(l.pendingObjectIdx, l.pendingBlockIdx, l.pendingOffset + sel[i])
    ensures var f := NextFill(l);
      FillOk(g.Plans(), f) && rows == FillRows(g.Plans(), f) && Compacts(g.Plans(), f, sel)
  {
    PlanOfUnit(g, l.pendingUnit);
    var f, u := NextFill(l), g.Plans()[l.pendingUnit];
    hide Passer;
    hide Selected;
    hide RowsOf;
    NamedRows(u, f.from, f.until, rows);
  }

  lemma PlanOfUnit(g: TAEScanState, i: nat)
    requires g.Valid() && !g.MetadataOnly() && i < |g.workUnits|
    ensures var u := g.Plans()[i];
      u.obj == g.workUnits[i].obj && u.blk == g.workUnits[i].blk && u.passes == Passer(g.filters, g.UnitAt(i).cols)
  {
    UnitOpens(g, i);
    assert g.Plans()[i] == PlanOf(g.filters, g.UnitAt(i));
  }

  // ----- the metadata-only path -----

  /** Claims a unit when none is pending, and emits its next chunk, empty or not. */
  method EmitCounted(g: TAEScanState, l: TAEScanLocalState, outs: seq<OutVector>) returns (out: seq<RowId>, sel: seq<nat>)
    requires g.Valid() && g.MetadataOnly() && l.Valid(g) && Ready(outs, g.outputMap, 2048)
    modifies g`nextWorkUnit, g`rowsEmitted, l, Memory(outs)
    ensures l.Valid(g) && l.Repr() == old(l.Repr()) && Ready(outs, g.outputMap, 2048)
    ensures var r := old(FastCall(g.Plans(), g.nextWorkUnit, l.View()));
      Counts(g, Outcome(r.0, r.1, r.2, 0, 0)) && l.View() == r.1 && out == r.2
    ensures var fills := old(FastFills(g.Plans(), g.nextWorkUnit, l.View()));
      && Filled(g, old(Views(outs)), Views(outs), fills)
      && (out != [] ==> fills != [] && out == FillRows(g.Plans(), LastFill(fills)) && Compacts(g.Plans(), LastFill(fills), sel))
  {
    hide FileUnit;
    hide Scannable;
    hide Shippable;
    hide IsOpen;
    hide StepLocal;
    hide FastCall;
    hide Filled;
    hide Compacts;
    hide FillOk;
    hide FillRows;
    hide FastFills;
    hide OnceFilled;
    ghost var before := Views(outs);
    UnfilledYet(g, before);
    FastCallCases(g.Plans(), g.nextWorkUnit, l.View());
    NextCounted(g, l);
    if l.pendingOffset >= l.pendingTotalRows {
      var claimed := ClaimCounted(g, l);
      assert Views(outs) == before;
      if !claimed { return [], []; }
    }
    ghost var f := NextFill(l);
    out, sel := DrainCounted(g, l, outs);
    OneMoreFill(g, before, before, Views(outs), [], f);
    assert [] + [f] == [f];
  }

  lemma NextCounted(g: TAEScanState, l: TAEScanLocalState)
    requires g.Valid() && l.Valid(g)
    ensures HasPending(l.View()) ==> l.HoldsUnit(g) && FastFills(g.Plans(), g.nextWorkUnit, l.View()) == [NextFill(l)]
  {
    hide *;
    if HasPending(l.View()) {
      PendingHolds(g, l);
      PendingFills(g.Plans(), g.nextWorkUnit, l);
    }
  }

  lemma PendingHolds(g: TAEScanState, l: TAEScanLocalState)
    requires g.Valid() && l.Valid(g) && HasPending(l.View())
    ensures l.HoldsUnit(g)
  {
    hide g.Valid;
    hide IsOpen;
    hide LocalOk;
    hide l.HoldsUnit;
    hide l.ReaderOk;
  }

  lemma PendingFills(plans: seq<UnitPlan>, next: nat, l: TAEScanLocalState)
    requires HasPending(l.View())
    ensures l.pendingOffset <= l.pendingTotalRows && FastFills(plans, next, l.View()) == [NextFill(l)]
  {
  }

  /** Claims a unit and makes it the pending block, with the manifest's row count. */
  method ClaimCounted(g: TAEScanState, l: TAEScanLocalState) returns (ok: bool)
    requires g.Valid() && g.MetadataOnly() && l.Valid(g) && l.pendingOffset >= l.pendingTotalRows
    modifies g`nextWorkUnit, l
    ensures l.Valid(g) && l.Repr() == old(l.Repr()) && g.nextWorkUnit == old(g.nextWorkUnit) + 1
    ensures ok <==> old(g.nextWorkUnit) < |g.workUnits|
    ensures var fills := old(FastFills(g.Plans(), g.nextWorkUnit, l.View()));
      if ok then l.HoldsUnit(g) && l.View() == old(Loaded(g.Plans(), g.nextWorkUnit, l.View())) && fills == [NextFill(l)]
      else l.View() == old(l.View()).(told := true) && fills == []
  {
    hide FileUnit;
    hide Scannable;
    hide Shippable;
    hide IsOpen;
    var wuIdx := g.nextWorkUnit;
    g.nextWorkUnit := g.nextWorkUnit + 1;
    ok := wuIdx < |g.workUnits|;
    if !ok {
      l.told := true;
      return;
    }
    var wu := g.workUnits[wuIdx];
    l.pendingTotalRows := g.manifest[wu.obj].Count(wu.blk);
    l.pendingOffset := 0;
    l.pendingObjectIdx := wu.obj;
    l.pendingBlockIdx := wu.blk;
    l.pendingUnit := wuIdx;
  }

  /** emit_chunk_fast: the next rows of the pending block, then advance or clear. */
  method DrainCounted(g: TAEScanState, l: TAEScanLocalState, outs: seq<OutVector>) returns (out: seq<RowId>, sel: seq<nat>)
    requires g.Valid() && g.MetadataOnly() && l.ReaderOk(g) && LocalOk(g.Plans(), l.View()) && l.HoldsUnit(g)
    requires Ready(outs, g.outputMap, 2048)
    modifies g`rowsEmitted, l, Memory(outs)
    ensures l.Valid(g) && l.Repr() == old(l.Repr()) && g.rowsEmitted == old(g.rowsEmitted) + |out| && Ready(outs, g.outputMap, 2048)
    ensures if old(HasPending(l.View()))
            then var s := old(StepLocal(g.Plans(), g.nextWorkUnit, l.View())); l.View() == s.local && out == s.rows
            else l.View() == old(l.View()).(told := true) && out == []
    ensures var f := old(NextFill(l));
      && FillOk(g.Plans(), f) && out == FillRows(g.Plans(), f) && Compacts(g.Plans(), f, sel)
      && OnceFilled(g, old(Views(outs)), Views(outs), f)
  {
    hide FileUnit;
    hide Scannable;
    hide Shippable;
    hide IsOpen;
    hide OnceFilled;
    hide Compacts;
    hide FillOk;
    hide StepLocal;
    hide FillRows;
    FillPending(g, l, outs);
    out, sel := CountPending(g, l);
  }

  method CountPending(g: TAEScanState, l: TAEScanLocalState) returns (out: seq<RowId>, sel: seq<nat>)
    requires g.Valid() && g.MetadataOnly() && l.ReaderOk(g) && LocalOk(g.Plans(), l.View()) && l.HoldsUnit(g)
    modifies g`rowsEmitted, l
    ensures l.Valid(g) && l.Repr() == old(l.Repr()) && g.rowsEmitted == old(g.rowsEmitted) + |out|
    ensures if old(HasPending(l.View()))
            then var s := old(StepLocal(g.Plans(), g.nextWorkUnit, l.View())); l.View() == s.local && out == s.rows
            else l.View() == old(l.View()).(told := true) && out == []
    ensures var f := old(NextFill(l)); FillOk(g.Plans(), f) && out == FillRows(g.Plans(), f) && Compacts(g.Plans(), f, sel)
  {
    hide FileUnit;
    hide Scannable;
    hide Shippable;
    hide IsOpen;
    hide RowsOf;
    hide Compacts;
    hide StepLocal;
    if HasPending(l.View()) { PendingStep(g.Plans(), g.nextWorkUnit, l.View()); }
    var srcOffset := l.pendingOffset;
    var remaining := l.pendingTotalRows - srcOffset;
    var chunkRows := Min(remaining, 2048);
    var obj, blk := l.pendingObjectIdx, l.pendingBlockIdx;
    sel := seq(chunkRows, i requires 0 <= i < chunkRows => i);
    out := seq(chunkRows, i requires 0 <= i < chunkRows => RowId(obj, blk, srcOffset + i));
    CountedRows(g, l, sel, out);
    AdvancePending(l, chunkRows);
    if chunkRows == 0 { l.told := true; }
    g.rowsEmitted := g.rowsEmitted + chunkRows;
  }

  /** Every row of the chunk is returned, at its own position. */
  lemma CountedRows(g: TAEScanState, l: TAEScanLocalState, sel: seq<nat>, rows: seq<RowId>)
    requires g.Valid() && g.MetadataOnly() && l.HoldsUnit(g)
    requires var f := NextFill(l);
      && |sel| == |rows| == f.until - f.from
      && forall i :: 0 <= i < |sel| ==> sel[i] == i && rows[i] == RowId(l.pendingObjectIdx, l.pendingBlockIdx, f.from + i)
    ensures var f := NextFill(l);
      FillOk(g.Plans(), f) && rows == FillRows(g.Plans(), f) && Compacts(g.Plans(), f, sel)
  {
    hide FileUnit;
    hide Scannable;
    hide Shippable;
    hide Compacts;
    hide FillRows;
    CountedFill(g.Plans(), NextFill(l), sel, rows);
  }

  lemma CountedFill(plans: seq<UnitPlan>, f: Fill, sel: seq<nat>, rows: seq<RowId>)
    requires AllCounted(plans) && FillOk(plans, f) && |sel| == |rows| == f.until - f.from
    requires var u := plans[f.unit]; forall i :: 0 <= i < |sel| ==> sel[i] == i && rows[i] == RowId(u.obj, u.blk, f.from + i)
    ensures rows == FillRows(plans, f) && Compacts(plans, f, sel)
  {
    hide RowsOf;
    hide Compacts;
    hide FillRows;
    var u := plans[f.unit];
    AllRowsOfUnit(u, f.from, f.until);
    AllSelectedAt(u, f.from, f.until);
    CompactsAll(plans, f, sel, rows);
  }

  lemma AllSelectedAt(u: UnitPlan, from: nat, until: nat)
    requires from <= until && RowsOf(u, from, until) == seq(until - from, i requires 0 <= i < until - from => RowId(u.obj, u.blk, from + i))
    ensures |Selected(u.passes, from, until)| == until - from
    ensures forall i :: 0 <= i < until - from ==> Selected(u.passes, from, until)[i] == from + i
  {
    hide Selected;
    forall i | 0 <= i < until - from ensures Selected(u.passes, from, until)[i] == from + i {
      assert RowsOf(u, from, until)[i].row == Selected(u.passes, from, until)[i];
    }
  }

  lemma CompactsAll(plans: seq<UnitPlan>, f: Fill, sel: seq<nat>, rows: seq<RowId>)
    requires FillOk(plans, f) && |sel| == |rows| == f.until - f.from == |Selected(plans[f.unit].passes, f.from, f.until)|
    requires forall i :: 0 <= i < |sel| ==> sel[i] == i && Selected(plans[f.unit].passes, f.from, f.until)[i] == f.from + i
    requires forall i :: 0 <= i < |rows| ==> rows[i] == RowId(plans[f.unit].obj, plans[f.unit].blk, f.from + i)
    ensures rows == FillRows(plans, f) && Compacts(plans, f, sel)
  {
    hide Selected;
    NamedRows(plans[f.unit], f.from, f.until, rows);
  }

  // ----- virtual slots -----

  /** Every row returned shows its own object's path and its own block's index, in any
      virtual slot and after any retries. */
  lemma VirtualSlotsShow(g: TAEScanState, v: VecState, i: nat, fills: seq<Fill>, rows: seq<RowId>, sel: seq<nat>)
    requires g.Valid() && AllFillsOk(g.Plans(), fills) && fills != [] && i < |g.outputMap| && !g.outputMap[i].TaeColumn?
    requires IsFresh(v) && |v.data| == 2048
    requires rows == FillRows(g.Plans(), LastFill(fills)) && Compacts(g.Plans(), LastFill(fills), sel)
    ensures |sel| == |rows| && forall j :: 0 <= j < |rows| ==>
      && sel[j] < 2048 && rows[j].obj < |g.paths|
      && Shown(SlotState(g, v, i, fills), sel[j]) ==
         if g.outputMap[i].FileName? then StrV(g.paths[rows[j].obj]) else BlockIdValue(rows[j].blk)
  {
    var slot, f := g.outputMap[i], LastFill(fills);
    var chunks := g.ChunksOf(fills);
    ChunksFit(g, fills, i);
    RowsOfFill(g, f, rows, sel);
    assert chunks[|chunks| - 1] == g.ChunkOf(f);
    hide AllFitSlot;
    hide SlotAfter;
    hide Compacts;
    forall j | 0 <= j < |rows| ensures Shown(SlotAfter(v, slot, chunks, |chunks|), sel[j]) == VirtualValue(slot, g.ChunkOf(f)) {
      VirtualSlotShows(v, slot, chunks, sel[j]);
    }
  }

  lemma RowsOfFill(g: TAEScanState, f: Fill, rows: seq<RowId>, sel: seq<nat>)
    requires g.Valid() && FillOk(g.Plans(), f) && rows == FillRows(g.Plans(), f) && Compacts(g.Plans(), f, sel)
    ensures |sel| == |rows| && forall j :: 0 <= j < |rows| ==>
      sel[j] < f.until - f.from && rows[j].obj == g.workUnits[f.unit].obj && rows[j].blk == g.workUnits[f.unit].blk
  {
    var u := g.Plans()[f.unit];
    if !g.MetadataOnly() { PlanOfUnit(g, f.unit); }
    forall j | 0 <= j < |rows| ensures sel[j] < f.until - f.from {
      assert Selected(u.passes, f.from, f.until)[j] in Selected(u.passes, f.from, f.until);
    }
  }
}
