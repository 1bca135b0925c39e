/** Merging nearby reads: requests sorted by offset become fewer, larger ranges. */
module Coalescing {
  import opened Bytes

  datatype ReadReq = ReadReq(seqnum: nat, resultIdx: nat, offset: nat, length: nat) {
    function End(): nat { offset + length }
  }

  datatype Range = Range(offset: nat, length: nat) {
    function End(): nat { offset + length }
  }

  predicate SortedByOffset(reqs: seq<ReadReq>)
  {
    forall i, j :: 0 <= i < j < |reqs| ==> reqs[i].offset <= reqs[j].offset
  }

  /** Any sort by offset; requests with equal offsets may come in any order, and
      nothing below depends on which. */
  method SortByOffset(reqs: seq<ReadReq>) returns (sorted: seq<ReadReq>)
    ensures SortedByOffset(sorted) && multiset(sorted) == multiset(reqs)
  {
    sorted := [];
    for i := 0 to |reqs|
      invariant SortedByOffset(sorted) && multiset(sorted) == multiset(reqs[..i])
    {
      var k := |sorted|;
      while k > 0 && reqs[i].offset < sorted[k - 1].offset
        invariant 0 <= k <= |sorted|
        invariant forall j :: k <= j < |sorted| ==> reqs[i].offset < sorted[j].offset
      {
        k := k - 1;
      }
      InsertKeepsSorted(sorted, k, reqs[i]);
      InsertKeepsAll(sorted, k, reqs[i]);
      assert reqs[..i + 1] == reqs[..i] + [reqs[i]];
      sorted := sorted[..k] + [reqs[i]] + sorted[k..];
    }
    assert reqs[..|reqs|] == reqs;
  }

  lemma InsertKeepsSorted(s: seq<ReadReq>, k: nat, q: ReadReq)
    requires k <= |s| && SortedByOffset(s)
    requires k > 0 ==> s[k - 1].offset <= q.offset
    requires forall j :: k <= j < |s| ==> q.offset < s[j].offset
    ensures SortedByOffset(s[..k] + [q] + s[k..])
  {
  }

  lemma InsertKeepsAll(s: seq<ReadReq>, k: nat, q: ReadReq)
    requires k <= |s|
    ensures multiset(s[..k] + [q] + s[k..]) == multiset(s) + multiset([q])
  {
    assert s == s[..k] + s[k..];
  }

  function SumOfRequests(reqs: seq<ReadReq>): nat
  {
    if reqs == [] then 0 else SumOfRequests(reqs[..|reqs| - 1]) + reqs[|reqs| - 1].length
  }

  function SumOfRanges(ranges: seq<Range>): nat
  {
    if ranges == [] then 0 else SumOfRanges(ranges[..|ranges| - 1]) + ranges[|ranges| - 1].length
  }

  predicate Covers(r: Range, q: ReadReq)
  {
    r.offset <= q.offset && q.End() <= r.End()
  }

  predicate FarApart(ranges: seq<Range>, gap: nat)
  {
    forall j, k :: 0 <= j < k < |ranges| ==> ranges[j].End() + gap < ranges[k].offset
  }

  predicate Assigned(reqs: seq<ReadReq>, ranges: seq<Range>, owner: seq<nat>)
  {
    |owner| == |reqs| && forall i :: 0 <= i < |reqs| ==> owner[i] < |ranges| && Covers(ranges[owner[i]], reqs[i])
  }

  /** Some request assigned to range `k` ends where the range ends. */
  predicate EndsAtRequest(reqs: seq<ReadReq>, ranges: seq<Range>, owner: seq<nat>, k: nat)
    requires k < |ranges| && |owner| == |reqs|
  {
    exists i :: 0 <= i < |reqs| && owner[i] == k && reqs[i].End() == ranges[k].End()
  }

  predicate AllEndAtRequests(reqs: seq<ReadReq>, ranges: seq<Range>, owner: seq<nat>)
  {
    |owner| == |reqs| && forall k :: 0 <= k < |ranges| ==> EndsAtRequest(reqs, ranges, owner, k)
  }

  /** The bytes read in excess of what was asked for. */
  predicate WasteBounded(reqs: seq<ReadReq>, ranges: seq<Range>, gap: nat)
  {
    |ranges| <= |reqs| && SumOfRanges(ranges) <= SumOfRequests(reqs) + gap * (|reqs| - |ranges|)
  }

  predicate ShortRequests(reqs: seq<ReadReq>)
  {
    forall i :: 0 <= i < |reqs| ==> reqs[i].length < U32
  }

  /** The request ends 4 GiB or more behind the start of its range, whose 32-bit length
      cannot reach it. */
  predicate WideAt(reqs: seq<ReadReq>, ranges: seq<Range>, owner: seq<nat>, i: nat)
    requires i < |reqs| == |owner| && owner[i] < |ranges|
  {
    reqs[i].End() - ranges[owner[i]].offset >= U32
  }

  predicate TooWide(reqs: seq<ReadReq>, ranges: seq<Range>, owner: seq<nat>)
  {
    |owner| == |reqs| && exists i :: 0 <= i < |reqs| && owner[i] < |ranges| && WideAt(reqs, ranges, owner, i)
  }

  /** Whatever the lengths, a request's range starts no later than the request, and every
      range starts where some request does. */
  predicate Anchored(reqs: seq<ReadReq>, ranges: seq<Range>, owner: seq<nat>)
  {
    && |owner| == |reqs|
    && (forall i :: 0 <= i < |reqs| ==> owner[i] < |ranges| && ranges[owner[i]].offset <= reqs[i].offset)
    && forall k :: 0 <= k < |ranges| ==> ranges[k].length < U32 && StartsAtRequest(reqs, ranges[k])
  }

  predicate StartsAtRequest(reqs: seq<ReadReq>, r: Range)
  {
    exists i :: 0 <= i < |reqs| && reqs[i].offset == r.offset
  }

  method Coalesce(reqs: seq<ReadReq>, gap: nat) returns (ranges: seq<Range>, reqToRange: seq<nat>)
    requires SortedByOffset(reqs) && ShortRequests(reqs)
    ensures Anchored(reqs, ranges, reqToRange)
    ensures TooWide(reqs, ranges, reqToRange) || Coalesced(reqs, ranges, reqToRange, gap)
  {
    ranges, reqToRange := [], [];
    NothingPlaced(reqs, gap);
    hide Placing;
    hide Coalesced;
    for i := 0 to |reqs|
      invariant Placing(reqs, i, ranges, reqToRange, gap)
    {
      ranges, reqToRange := Merge(reqs, i, ranges, reqToRange, gap);
    }
    EveryPlaced(reqs, ranges, reqToRange, gap);
  }

  /** The first `i` requests have been placed, and the last range starts before the next. */
  predicate Placing(reqs: seq<ReadReq>, i: nat, ranges: seq<Range>, owner: seq<nat>, gap: nat)
  {
    && i <= |reqs| && Anchored(reqs[..i], ranges, owner)
    && (TooWide(reqs[..i], ranges, owner) || Coalesced(reqs[..i], ranges, owner, gap))
    && (ranges != [] && i < |reqs| ==> ranges[|ranges| - 1].offset <= reqs[i].offset)
  }

  lemma NothingPlaced(reqs: seq<ReadReq>, gap: nat)
    ensures Placing(reqs, 0, [], [], gap)
  {
  }

  lemma EveryPlaced(reqs: seq<ReadReq>, ranges: seq<Range>, owner: seq<nat>, gap: nat)
    requires Placing(reqs, |reqs|, ranges, owner, gap)
    ensures Anchored(reqs, ranges, owner) && (TooWide(reqs, ranges, owner) || Coalesced(reqs, ranges, owner, gap))
  {
    assert reqs[..|reqs|] == reqs;
  }

  /** One iteration: place request `i` and note its range. */
  method Merge(reqs: seq<ReadReq>, i: nat, before: seq<Range>, owner: seq<nat>, gap: nat)
    returns (ranges: seq<Range>, reqToRange: seq<nat>)
    requires SortedByOffset(reqs) && i < |reqs| && reqs[i].length < U32 && Placing(reqs, i, before, owner, gap)
    ensures Placing(reqs, i + 1, ranges, reqToRange, gap)
  {
    hide Coalesced;
    hide Anchored;
    hide TooWide;
    hide Extends;
    hide StartsNew;
    LastIsShort(reqs[..i], before, owner);
    ranges := AddRequest(reqs[i], before, gap);
    reqToRange := owner + [|ranges| - 1];
    AnchoredStep(reqs, i, before, ranges, owner);
    if reqs[i].End() - ranges[|ranges| - 1].offset >= U32 {
      WideNow(reqs, i, before, ranges, owner);
    } else if TooWide(reqs[..i], before, owner) {
      WideStays(reqs, i, before, ranges, owner);
    } else {
      CoalescedStep(reqs, i, before, ranges, owner, gap);
    }
  }

  lemma LastIsShort(reqs: seq<ReadReq>, ranges: seq<Range>, owner: seq<nat>)
    requires Anchored(reqs, ranges, owner)
    ensures forall k :: 0 <= k < |ranges| ==> ranges[k].length < U32
  {
  }

  lemma WideNow(reqs: seq<ReadReq>, i: nat, before: seq<Range>, after: seq<Range>, owner: seq<nat>)
    requires i < |reqs| && Anchored(reqs[..i], before, owner) && after != []
    requires reqs[i].End() - after[|after| - 1].offset >= U32
    ensures TooWide(reqs[..i + 1], after, owner + [|after| - 1])
  {
    assert WideAt(reqs[..i + 1], after, owner + [|after| - 1], i);
  }

  lemma WideStays(reqs: seq<ReadReq>, i: nat, before: seq<Range>, after: seq<Range>, owner: seq<nat>)
    requires i < |reqs| && TooWide(reqs[..i], before, owner) && KeepsOffsets(before, after, reqs[i])
    ensures TooWide(reqs[..i + 1], after, owner + [|after| - 1])
  {
    var j :| 0 <= j < i && owner[j] < |before| && WideAt(reqs[..i], before, owner, j);
    assert WideAt(reqs[..i + 1], after, owner + [|after| - 1], j);
  }

  lemma CoalescedStep(reqs: seq<ReadReq>, i: nat, before: seq<Range>, after: seq<Range>, owner: seq<nat>, gap: nat)
    requires i < |reqs| && Coalesced(reqs[..i], before, owner, gap)
    requires Extends(before, after, reqs[i], gap) || StartsNew(before, after, reqs[i], gap)
    ensures Coalesced(reqs[..i + 1], after, owner + [|after| - 1], gap)
  {
    hide Coalesced;
    if |after| == |before| {
      ExtendStep(reqs, i, before, after, owner, gap);
    } else {
      NewStep(reqs, i, before, after, owner, gap);
    }
  }

  lemma AnchoredStep(reqs: seq<ReadReq>, i: nat, before: seq<Range>, after: seq<Range>, owner: seq<nat>)
    requires i < |reqs| && Anchored(reqs[..i], before, owner) && KeepsOffsets(before, after, reqs[i])
    ensures Anchored(reqs[..i + 1], after, owner + [|after| - 1])
  {
    hide StartsAtRequest;
    forall k | 0 <= k < |after| ensures StartsAtRequest(reqs[..i + 1], after[k]) {
      if k < |before| { StartStays(reqs, i, before[k], after[k]); } else { NewStart(reqs, i, after[k]); }
    }
  }

  lemma StartStays(reqs: seq<ReadReq>, i: nat, was: Range, now: Range)
    requires i < |reqs| && StartsAtRequest(reqs[..i], was) && now.offset == was.offset
    ensures StartsAtRequest(reqs[..i + 1], now)
  {
    var j :| 0 <= j < i && reqs[..i][j].offset == was.offset;
    assert reqs[..i + 1][j].offset == now.offset;
  }

  lemma NewStart(reqs: seq<ReadReq>, i: nat, r: Range)
    requires i < |reqs| && reqs[i].offset == r.offset
    ensures StartsAtRequest(reqs[..i + 1], r)
  {
    assert reqs[..i + 1][i].offset == r.offset;
  }

  /** The request goes to the last range, at most one range is new, and it starts there. */
  predicate KeepsOffsets(before: seq<Range>, after: seq<Range>, q: ReadReq)
  {
    && after != [] && |before| <= |after| <= |before| + 1 && after[|after| - 1].offset <= q.offset
    && (forall k :: 0 <= k < |before| ==> after[k].offset == before[k].offset)
    && (forall k :: 0 <= k < |after| ==> after[k].length < U32)
    && (|after| > |before| ==> after[|before|].offset == q.offset)
  }

  /** The ranges after one more request. */
  function Added(before: seq<Range>, q: ReadReq, gap: nat): seq<Range>
    requires before != [] ==> before[|before| - 1].offset <= q.offset
  {
    if before == [] || before[|before| - 1].End() + gap < q.offset then before + [Range(q.offset, q.length)]
    else
      var n := |before| - 1; var last := before[n];
      if q.End() > last.End() then before[..n] + [Range(last.offset, (q.End() - last.offset) % 0x1_0000_0000)] else before
  }

  /** One step: extend the last range when the request starts within the gap of its
      end, else start a new range. Lengths are 32-bit. */
  method AddRequest(q: ReadReq, before: seq<Range>, gap: nat) returns (ranges: seq<Range>)
    requires q.length < U32 && forall k :: 0 <= k < |before| ==> before[k].length < U32
    requires before != [] ==> before[|before| - 1].offset <= q.offset
    ensures ranges == Added(before, q, gap) && KeepsOffsets(before, ranges, q)
    ensures q.End() - ranges[|ranges| - 1].offset < U32 ==> Extends(before, ranges, q, gap) || StartsNew(before, ranges, q, gap)
  {
    if before != [] {
      var n := |before| - 1;
      var last := before[n];
      var lastEnd := last.offset + last.length;
      var distance := if q.offset > lastEnd then q.offset - lastEnd else 0;
      if distance <= gap {
        if q.End() > last.offset + last.length {
          return before[..n] + [last.(length := (q.End() - last.offset) % 0x1_0000_0000)];
        }
        assert before == before[..n] + [last];
        return before;
      }
    }
    return before + [Range(q.offset, q.length)];
  }

  /** A request of 2^32 - 1 bytes and one of 10 bytes behind it become a range of 9 bytes. */
  lemma WideRangeIsCutOff(gap: nat)
    ensures var first, second := ReadReq(0, 0, 0, 0xFFFF_FFFF), ReadReq(1, 1, 0xFFFF_FFFF, 10);
      var ranges := Added(Added([], first, gap), second, gap);
      ranges == [Range(0, 9)] && TooWide([first, second], ranges, [0, 0])
  {
    var first, second := ReadReq(0, 0, 0, 0xFFFF_FFFF), ReadReq(1, 1, 0xFFFF_FFFF, 10);
    var ranges := Added(Added([], first, gap), second, gap);
    assert Added([], first, gap) == [Range(0, 0xFFFF_FFFF)];
    assert ranges == [Range(0, 9)];
    assert WideAt([first, second], ranges, [0, 0], 1);
  }

  /** The outcome of coalescing: every request lies in its range, ranges are sorted,
      disjoint and more than the gap apart, none is longer than needed, and the waste
      is at most one gap per merge. */
  predicate Coalesced(reqs: seq<ReadReq>, ranges: seq<Range>, owner: seq<nat>, gap: nat)
  {
    && Assigned(reqs, ranges, owner)
    && FarApart(ranges, gap)
    && AllEndAtRequests(reqs, ranges, owner)
    && WasteBounded(reqs, ranges, gap)
  }

  /** `after` is `before` with its last range extended to cover `q`. */
  predicate Extends(before: seq<Range>, after: seq<Range>, q: ReadReq, gap: nat)
  {
    before != [] &&
    var n := |before| - 1; var last := before[n];
    && last.offset <= q.offset <= last.End() + gap
    && after == before[..n] + [Range(last.offset, if q.End() > last.End() then q.End() - last.offset else last.length)]
  }

  lemma ExtendStep(reqs: seq<ReadReq>, i: nat, before: seq<Range>, after: seq<Range>, owner: seq<nat>, gap: nat)
    requires i < |reqs| && Coalesced(reqs[..i], before, owner, gap)
    requires Extends(before, after, reqs[i], gap)
    ensures Coalesced(reqs[..i + 1], after, owner + [|before| - 1], gap)
  {
    assert reqs[..i + 1] == reqs[..i] + [reqs[i]];
    ExtendEnds(reqs[..i], reqs[i], before, after, owner, gap);
    ExtendWaste(reqs[..i], reqs[i], before, after, gap);
  }

  lemma ExtendEnds(was: seq<ReadReq>, q: ReadReq, before: seq<Range>, after: seq<Range>, owner: seq<nat>, gap: nat)
    requires Extends(before, after, q, gap) && |owner| == |was|
    requires AllEndAtRequests(was, before, owner)
    ensures AllEndAtRequests(was + [q], after, owner + [|before| - 1])
  {
    var n := |before| - 1;
    var now, next := was + [q], owner + [n];
    forall k | 0 <= k < |after| ensures EndsAtRequest(now, after, next, k) {
      assert EndsAtRequest(was, before, owner, k);
      var j :| 0 <= j < |was| && owner[j] == k && was[j].End() == before[k].End();
      if k == n && q.End() > before[n].End() {
        assert now[|was|] == q && next[|was|] == k;
      } else {
        assert now[j] == was[j] && next[j] == k;
      }
    }
  }

  lemma ExtendWaste(was: seq<ReadReq>, q: ReadReq, before: seq<Range>, after: seq<Range>, gap: nat)
    requires Extends(before, after, q, gap) && WasteBounded(was, before, gap)
    ensures WasteBounded(was + [q], after, gap)
  {
    var n := |before| - 1;
    assert (was + [q])[..|was|] == was && after[..n] == before[..n];
    assert gap * (|was| + 1 - |after|) == gap * (|was| - |before|) + gap;
  }

  /** `after` is `before` with a new range that is just `q`. */
  predicate StartsNew(before: seq<Range>, after: seq<Range>, q: ReadReq, gap: nat)
  {
    && (before != [] ==> before[|before| - 1].End() + gap < q.offset)
    && after == before + [Range(q.offset, q.length)]
  }

  lemma NewStep(reqs: seq<ReadReq>, i: nat, before: seq<Range>, after: seq<Range>, owner: seq<nat>, gap: nat)
    requires i < |reqs| && Coalesced(reqs[..i], before, owner, gap)
    requires StartsNew(before, after, reqs[i], gap)
    ensures Coalesced(reqs[..i + 1], after, owner + [|before|], gap)
  {
    var now, was, next := reqs[..i + 1], reqs[..i], owner + [|before|];
    assert now == was + [reqs[i]];
    forall k | 0 <= k < |after| ensures EndsAtRequest(now, after, next, k) {
      if k < |before| {
        assert EndsAtRequest(was, before, owner, k);
        var j :| 0 <= j < i && owner[j] == k && was[j].End() == before[k].End();
        assert now[j] == was[j] && next[j] == k;
      } else {
        assert now[i].End() == after[k].End();
      }
    }
    assert WasteBounded(now, after, gap) by {
      assert now[..i] == was && after[..|before|] == before;
    }
  }

  // ----- what the ranges mean for the data -----

  /** A request's bytes are found inside its range's bytes. */
  lemma RequestInsideRange(content: seq<Byte>, r: Range, q: ReadReq)
    requires Covers(r, q) && r.End() <= |content|
    ensures content[r.offset..r.End()][q.offset - r.offset..q.offset - r.offset + q.length] == content[q.offset..q.End()]
  {
    SliceInside(content, r.offset, r.End(), q.offset - r.offset, q.length);
  }

  /** All ranges lie within a content exactly when all requests do. */
  lemma RangesFitIffRequestsFit(reqs: seq<ReadReq>, ranges: seq<Range>, owner: seq<nat>, gap: nat, size: nat)
    requires Coalesced(reqs, ranges, owner, gap)
    ensures (forall k :: 0 <= k < |ranges| ==> ranges[k].End() <= size) <==>
            (forall i :: 0 <= i < |reqs| ==> reqs[i].End() <= size)
  {
    if forall i :: 0 <= i < |reqs| ==> reqs[i].End() <= size {
      forall k | 0 <= k < |ranges| ensures ranges[k].End() <= size {
        assert EndsAtRequest(reqs, ranges, owner, k);
      }
    }
    if forall k :: 0 <= k < |ranges| ==> ranges[k].End() <= size {
      forall i | 0 <= i < |reqs| ensures reqs[i].End() <= size {
        assert Covers(ranges[owner[i]], reqs[i]);
      }
    }
  }
}
