/** Order-preserving selection of the rows of a range. */
module Chunks {
  import opened Bytes

  /** The rows in `from..until` that satisfy `p`, in order. */
  function Selected(p: nat -> bool, from: nat, until: nat): (rows: seq<nat>)
    requires from <= until
    ensures |rows| <= until - from
    ensures forall r :: r in rows <==> from <= r < until && p(r)
    ensures forall i, j :: 0 <= i < j < |rows| ==> rows[i] < rows[j]
    decreases until
  {
    if from == until then []
    else
      var init := Selected(p, from, until - 1);
      MembersOf(init);
      assert forall i :: 0 <= i < |init| ==> init[i] < until - 1;
      init + if p(until - 1) then [until - 1] else []
  }

  lemma MembersOf(s: seq<nat>)
    ensures forall i :: 0 <= i < |s| ==> s[i] in s
  {
  }

  /** `sel` holds the positions of `rows` relative to `offset`. */
  predicate IsSelection(sel: seq<nat>, offset: nat, rows: seq<nat>)
  {
    |sel| == |rows| && forall i :: 0 <= i < |sel| ==> offset + sel[i] == rows[i]
  }

  lemma FirstIsMember(s: seq<nat>)
    ensures s != [] ==> s[0] in s
  {
  }

  /** Adjacent ranges select what their union selects, in the same order. */
  lemma {:induction false} SelectedConcatenates(p: nat -> bool, from: nat, mid: nat, until: nat)
    requires from <= mid <= until
    ensures Selected(p, from, mid) + Selected(p, mid, until) == Selected(p, from, until)
    decreases until
  {
    if mid < until {
      SelectedConcatenates(p, from, mid, until - 1);
    }
  }

  /** The chunks of `size` rows that a block of `total` rows is emitted in. */
  function InChunks(p: nat -> bool, from: nat, total: nat, size: nat): seq<nat>
    requires from <= total && size > 0
    decreases total - from
  {
    if from == total then []
    else
      var next := from + Min(total - from, size);
      Selected(p, from, next) + InChunks(p, next, total, size)
  }

  /** Whatever the chunk size, the chunks concatenate to the filter of the block. */
  lemma {:induction false} ChunksAreTheBlock(p: nat -> bool, from: nat, total: nat, size: nat)
    requires from <= total && size > 0
    ensures InChunks(p, from, total, size) == Selected(p, from, total)
    decreases total - from
  {
    if from < total {
      var next := from + Min(total - from, size);
      ChunksAreTheBlock(p, next, total, size);
      SelectedConcatenates(p, from, next, total);
    }
  }
}
