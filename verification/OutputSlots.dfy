/** The output chunk of one call: every slot's vector is filled, chunk after chunk, from a
    decoded column or with the file path or block index of the chunk's block. */
module OutputSlots {
  import opened Bytes
  import opened Types
  import opened Vectors
  import opened ColumnFill
  import opened ColumnMap

  /** What the emit loop fills the slots from: a block's path, index and decoded columns,
      and the rows of the chunk. */
  datatype ChunkFill = ChunkFill(path: seq<Byte>, blk: nat, cols: seq<DecodedColumn>, count: nat, offset: nat) {
    /** The column's pass over a slot. */
    function PassAt(pos: nat): Pass
      requires pos < |cols|
    {
      Pass(cols[pos], count, offset)
    }
  }

  /** The block index as the 32-bit signed number that the vector holds. */
  function BlockIdValue(blk: nat): Value { IntV(AsSigned(blk % 0x1_0000_0000, 4)) }

  predicate SlotFits(slot: OutputColumn, c: ChunkFill, capacity: nat)
  {
    c.count <= capacity && (slot.TaeColumn? && slot.decodedPos < |c.cols| ==> c.PassAt(slot.decodedPos).Fits(capacity))
  }

  predicate AllFitSlot(slot: OutputColumn, chunks: seq<ChunkFill>, capacity: nat)
  {
    forall k :: 0 <= k < |chunks| ==> SlotFits(slot, chunks[k], capacity)
  }

  /** The slot's vector after one chunk. */
  function SlotFilled(v: VecState, slot: OutputColumn, c: ChunkFill): (r: VecState)
    requires Sized(v) && SlotFits(slot, c, |v.data|)
    ensures Sized(r) && |r.data| == |v.data|
  {
    match slot
    case TaeColumn(_, pos) => if pos < |c.cols| then AfterFill(v, c.cols[pos], c.count, c.offset) else v
    case FileName => AfterRepeat(v, StrV(c.path), c.count)
    case BlockId => AfterRepeat(v, BlockIdValue(c.blk), c.count)
  }

  /** The slot's vector after the first `n` chunks of a call. */
  function SlotAfter(v: VecState, slot: OutputColumn, chunks: seq<ChunkFill>, n: nat): (r: VecState)
    requires Sized(v) && AllFitSlot(slot, chunks, |v.data|) && n <= |chunks|
    ensures Sized(r) && |r.data| == |v.data|
  {
    if n == 0 then v else SlotFilled(SlotAfter(v, slot, chunks, n - 1), slot, chunks[n - 1])
  }

  // ----- filling the slots -----

  /** The vectors of an output chunk: none shares memory with another. */
  ghost predicate Separate(outs: seq<OutVector>)
  {
    forall i, j :: 0 <= i < j < |outs| ==>
      outs[i] != outs[j] && outs[i].data != outs[j].data && outs[i].valid != outs[j].valid
  }

  ghost predicate Ready(outs: seq<OutVector>, slots: seq<OutputColumn>, capacity: nat)
    reads outs
  {
    |outs| == |slots| && Separate(outs) && forall i :: 0 <= i < |outs| ==> outs[i].Valid() && outs[i].data.Length == capacity
  }

  ghost function Memory(outs: seq<OutVector>): set<object>
  {
    (set i | 0 <= i < |outs| :: outs[i] as object) + (set i | 0 <= i < |outs| :: outs[i].data as object) +
    (set i | 0 <= i < |outs| :: outs[i].valid as object)
  }

  /** Fills every slot of the output chunk. */
  method FillSlots(slots: seq<OutputColumn>, outs: seq<OutVector>, c: ChunkFill, capacity: nat)
    requires Ready(outs, slots, capacity) && forall i :: 0 <= i < |slots| ==> SlotFits(slots[i], c, capacity)
    modifies Memory(outs)
    ensures Ready(outs, slots, capacity)
    ensures forall i :: 0 <= i < |outs| ==> outs[i].View() == SlotFilled(old(outs[i].View()), slots[i], c)
  {
    for i := 0 to |slots|
      invariant Ready(outs, slots, capacity)
      invariant forall j :: 0 <= j < |outs| ==>
        outs[j].View() == if j < i then SlotFilled(old(outs[j].View()), slots[j], c) else old(outs[j].View())
    {
      FillSlot(slots[i], outs[i], c);
    }
  }

  method FillSlot(slot: OutputColumn, out: OutVector, c: ChunkFill)
    requires out.Valid() && SlotFits(slot, c, out.data.Length)
    modifies out, out.data, out.valid
    ensures out.Valid() && out.View() == SlotFilled(old(out.View()), slot, c)
  {
    match slot
    case TaeColumn(_, pos) =>
      if pos < |c.cols| { out.FillColumn(c.cols[pos], c.count, c.offset); }
    case FileName =>
      out.Repeat(StrV(c.path), c.count);
    case BlockId =>
      out.Repeat(BlockIdValue(c.blk), c.count);
  }

  // ----- what a slot shows after a call -----

  function PassesAt(chunks: seq<ChunkFill>, pos: nat): (passes: seq<Pass>)
    requires forall k :: 0 <= k < |chunks| ==> pos < |chunks[k].cols|
    ensures |passes| == |chunks|
  {
    seq(|chunks|, k requires 0 <= k < |chunks| => chunks[k].PassAt(pos))
  }

  /** A stored slot has gone through its column's passes. */
  lemma {:induction false} StoredSlotAfter(v: VecState, slot: OutputColumn, chunks: seq<ChunkFill>, n: nat)
    requires Sized(v) && AllFitSlot(slot, chunks, |v.data|) && n <= |chunks|
    requires slot.TaeColumn? && forall k :: 0 <= k < |chunks| ==> slot.decodedPos < |chunks[k].cols|
    ensures AllFit(PassesAt(chunks, slot.decodedPos), |v.data|)
    ensures SlotAfter(v, slot, chunks, n) == AfterPasses(v, PassesAt(chunks, slot.decodedPos), n)
  {
    hide AfterFill;
    hide Fillable;
    if n > 0 { StoredSlotAfter(v, slot, chunks, n - 1); }
  }

  /** What a virtual slot shows of a chunk. */
  function VirtualValue(slot: OutputColumn, c: ChunkFill): Value
    requires !slot.TaeColumn?
  {
    if slot.FileName? then StrV(c.path) else BlockIdValue(c.blk)
  }

  lemma {:induction false} VirtualStaysFresh(v: VecState, slot: OutputColumn, chunks: seq<ChunkFill>, n: nat)
    requires IsFresh(v) && AllFitSlot(slot, chunks, |v.data|) && n <= |chunks| && !slot.TaeColumn?
    ensures IsFresh(SlotAfter(v, slot, chunks, n))
  {
    if n > 0 { VirtualStaysFresh(v, slot, chunks, n - 1); }
  }

  /** Retries or not, a virtual slot shows the last chunk's own path or block index. */
  lemma VirtualSlotShows(v: VecState, slot: OutputColumn, chunks: seq<ChunkFill>, i: nat)
    requires IsFresh(v) && AllFitSlot(slot, chunks, |v.data|) && chunks != [] && !slot.TaeColumn?
    requires i < chunks[|chunks| - 1].count && i < |v.data|
    ensures Shown(SlotAfter(v, slot, chunks, |chunks|), i) == VirtualValue(slot, chunks[|chunks| - 1])
  {
    hide *;
    LastChunk(v, slot, chunks);
    VirtualStaysFresh(v, slot, chunks, |chunks| - 1);
    VirtualFillShows(SlotAfter(v, slot, chunks, |chunks| - 1), slot, chunks[|chunks| - 1], i);
  }

  lemma LastChunk(v: VecState, slot: OutputColumn, chunks: seq<ChunkFill>)
    requires IsFresh(v) && AllFitSlot(slot, chunks, |v.data|) && chunks != []
    ensures Sized(v)
    ensures var last := chunks[|chunks| - 1]; var before := SlotAfter(v, slot, chunks, |chunks| - 1);
      SlotFits(slot, last, |before.data|) && SlotAfter(v, slot, chunks, |chunks|) == SlotFilled(before, slot, last)
  {
    hide SlotFilled;
  }

  lemma VirtualFillShows(v: VecState, slot: OutputColumn, c: ChunkFill, i: nat)
    requires IsFresh(v) && SlotFits(slot, c, |v.data|) && !slot.TaeColumn? && i < c.count
    ensures Shown(SlotFilled(v, slot, c), i) == VirtualValue(slot, c)
  {
  }
}
