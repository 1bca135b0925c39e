/** Reading one object file: cached and targeted byte reads, metadata, and columns
    through coalesced reads. */
module ObjectReader {
  import opened Bytes
  import opened Vectors
  import opened Metadata
  import opened CrcBlocks
  import opened Coalescing

  /** The compression library, as a parameter. */
  datatype Codec = Codec(compress: seq<Byte> -> seq<Byte>, decompress: (seq<Byte>, nat) -> Option<seq<Byte>>)

  const OBJ_META: nat := 1
  const COL_DATA: nat := 2

  /** Same success, and the same value on success; which failure is reported may differ. */
  predicate SameOutcome<T(==)>(a: Result<T>, b: Result<T>)
  {
    a.Ok? == b.Ok? && (a.Ok? ==> a == b)
  }

  // ----- what reads of a content mean -----

  function ReadAt(content: seq<Byte>, offset: nat, length: nat): (r: Result<seq<Byte>>)
  {
    if offset + length <= |content| then Ok(content[offset..offset + length]) else Err(ShortRead)
  }

  function Unpacked(codec: Codec, e: Extent, raw: seq<Byte>): Result<seq<Byte>>
  {
    if !e.IsCompressed() then Ok(raw)
    else
      var d := codec.decompress(raw, e.originSize);
      if d.Some? && |d.value| == e.originSize then Ok(d.value) else Err(Malformed)
  }

  /** The body of an entry of the given type. */
  function EntryBody(data: seq<Byte>, entryType: nat): Result<seq<Byte>>
  {
    if |data| < 4 then Err(TooSmall)
    else if Field(data, 0, 2) != entryType then Err(BadEntryType)
    else Ok(data[4..])
  }

  function ColumnFromRaw(codec: Codec, e: Extent, raw: seq<Byte>): Result<DecodedColumn>
  {
    var data :- Unpacked(codec, e, raw);
    var body :- EntryBody(data, COL_DATA);
    DecodedFrom(body)
  }

  /** One column read and decoded on its own. */
  function ColumnOf(codec: Codec, content: seq<Byte>, e: Extent): Result<DecodedColumn>
  {
    var raw :- ReadAt(content, e.offset, e.length);
    ColumnFromRaw(codec, e, raw)
  }

  function MetaExtent(content: seq<Byte>): Extent
    requires |content| >= 64
  {
    ParseExtent(content[10..23])
  }

  function MetaFromContent(codec: Codec, content: seq<Byte>): Result<ObjectMeta>
  {
    if |content| < 64 then Err(ShortRead)
    else if Field(content, 0, 8) != OBJECT_MAGIC then Err(BadMagic)
    else
      var e := MetaExtent(content);
      var raw :- ReadAt(content, e.offset, e.length);
      var data :- Unpacked(codec, e, raw);
      var body :- EntryBody(data, OBJ_META);
      MetaOf(body)
  }

  class TAEObjectReader {
    const file: seq<Byte>
    const codec: Codec
    const coalesceGap: nat
    const prefetchThreshold: nat
    var prefetchAttempted: bool
    var prefetchBuf: seq<Byte>
    var formatDetected: bool
    var crcBlockFormat: bool
    var meta: ObjectMeta

    /** Whatever has been read before, the cache is absent or the whole file. */
    ghost predicate CacheOk()
      reads this
    {
      (prefetchBuf == [] || prefetchBuf == file) && (!prefetchAttempted ==> prefetchBuf == [])
    }

    /** And a detected format is the file's. */
    ghost predicate Valid()
      reads this
    {
      && CacheOk()
      && crcBlockFormat == (formatDetected && DetectsCrc(file))
      && meta.blockCount == |meta.blocks|
      && forall b :: 0 <= b < |meta.blocks| ==> ShortExtents(meta.blocks[b].columns)
    }

    constructor (file: seq<Byte>, codec: Codec, coalesceGap: nat, prefetchThreshold: nat)
      ensures Valid() && !formatDetected && this.file == file && this.codec == codec
      ensures this.coalesceGap == coalesceGap && this.prefetchThreshold == prefetchThreshold
    {
      this.file, this.codec := file, codec;
      this.coalesceGap, this.prefetchThreshold := coalesceGap, prefetchThreshold;
      prefetchAttempted, prefetchBuf := false, [];
      formatDetected, crcBlockFormat := false, false;
      meta := ObjectMeta(0, []);
    }

    /** Served from the cache or from the file, the bytes are the file's. */
    method ReadRawBytes(offset: nat, length: nat) returns (r: Result<seq<Byte>>)
      requires CacheOk()
      modifies this`prefetchAttempted, this`prefetchBuf
      ensures CacheOk() && r == ReadAt(file, offset, length)
    {
      if !prefetchAttempted {
        prefetchAttempted := true;
        if |file| <= prefetchThreshold {
          prefetchBuf := file;
        }
      }
      if prefetchBuf != [] && offset + length <= |prefetchBuf| {
        return Ok(prefetchBuf[offset..offset + length]);
      }
      r := ReadAt(file, offset, length);
    }

    /** Failing once marks the format as detected and raw. */
    method DetectCrcFormat() returns (ok: bool)
      requires Valid()
      modifies this`prefetchAttempted, this`prefetchBuf, this`formatDetected, this`crcBlockFormat
      ensures Valid() && formatDetected
      ensures ok <==> old(formatDetected) || DetectsRaw(file) || DetectsCrc(file)
    {
      if formatDetected { return true; }
      formatDetected := true;
      if |file| < 12 { return false; }
      var probe := ReadRawBytes(0, 12);
      assert probe.value[0..8] == file[0..8];
      assert probe.value[4..12] == file[4..12];
      var magicAt0, magicAt4 := Field(probe.value, 0, 8), Field(probe.value, 4, 8);
      if magicAt0 == OBJECT_MAGIC {
        crcBlockFormat := false;
        return true;
      } else if magicAt4 == OBJECT_MAGIC {
        crcBlockFormat := true;
        return true;
      }
      return false;
    }

    /** Logical reads: the slice of the content, in either format and after any
        history of reads; failing exactly when the range does not fit. */
    method ReadBytes(offset: nat, length: nat) returns (r: Result<seq<Byte>>)
      requires Valid()
      modifies this`prefetchAttempted, this`prefetchBuf, this`formatDetected, this`crcBlockFormat
      ensures Valid() && formatDetected
      ensures if old(formatDetected) || DetectsRaw(file) || DetectsCrc(file)
              then SameOutcome(r, ReadAt(LogicalContent(file), offset, length)) else r.Err?
    {
      var known := DetectCrcFormat();
      if !known { return Err(BadMagic); }
      if !crcBlockFormat {
        r := ReadRawBytes(offset, length);
        return;
      }
      r := ReadCrcBytes(offset, length);
    }

    /** Reads and strips only the blocks around the range. A range whose first block starts
        past the end of the file has a negative length, which as an unsigned number is too
        large for any buffer: the read fails. */
    method ReadCrcBytes(offset: nat, length: nat) returns (r: Result<seq<Byte>>)
      requires Valid()
      modifies this`prefetchAttempted, this`prefetchBuf
      ensures Valid() && SameOutcome(r, ReadAt(Strip(file), offset, length))
    {
      var firstBlock := offset / 2044;
      var physStart := firstBlock * 2048;
      var physEnd := Min(BlockEnd(offset, length), |file|);
      assert physStart == PhysStart(offset) && physEnd == PhysEnd(offset, length, |file|);
      hide BlockEnd;
      hide PhysStart;
      hide PhysEnd;
      hide Strip;
      if physEnd < physStart {
        BeyondFile(file, offset, length);
        return Err(OutOfRange);
      }
      TargetedStrip(file, offset, length);
      var raw := ReadRawBytes(physStart, physEnd - physStart);
      assert raw.value == file[physStart..physEnd];
      var stripped := StripCrc32Blocks(raw.value);
      var contentStart := firstBlock * 2044;
      var localOffset := offset - contentStart;
      if localOffset + length > |stripped| { return Err(OutOfRange); }
      r := Ok(stripped[localOffset..localOffset + length]);
    }

    method ReadMeta() returns (ok: bool)
      requires Valid()
      modifies this
      ensures Valid() && formatDetected
      ensures ok <==> MetaFromContent(codec, LogicalContent(file)).Ok?
      ensures ok ==> Ok(meta) == MetaFromContent(codec, LogicalContent(file))
    {
      ghost var content := LogicalContent(file);
      var header := ReadBytes(0, 64);
      if header.Err? { return false; }
      var hdrBuf := header.value;
      assert hdrBuf[0..8] == content[0..8];
      assert hdrBuf[10..23] == content[10..23];
      if Field(hdrBuf, 0, 8) != OBJECT_MAGIC { return false; }
      var extent := ParseExtent(hdrBuf[10..23]);
      var metaRaw := ReadBytes(extent.offset, extent.length);
      if metaRaw.Err? { return false; }
      var metaBuf := Unpacked(codec, extent, metaRaw.value);
      if metaBuf.Err? { return false; }
      var body := EntryBody(metaBuf.value, OBJ_META);
      if body.Err? { return false; }
      var parsed := ParseMetadata(body.value);
      if parsed.Err? { return false; }
      MetaCountsBlocks(body.value);
      ParsedExtentsAreShort(body.value);
      meta := parsed.value;
      return true;
    }

    /** The requests of a block, in request order. */
    method GatherRequests(columns: seq<ColumnMeta>, seqnums: seq<nat>) returns (reqs: Result<seq<ReadReq>>)
      ensures reqs.Ok? <==> forall i :: 0 <= i < |seqnums| ==> seqnums[i] < |columns|
      ensures reqs.Ok? ==> |reqs.value| == |seqnums| && forall i :: 0 <= i < |seqnums| ==>
                reqs.value[i] == RequestFor(columns, seqnums, i)
    {
      var out := [];
      for i := 0 to |seqnums|
        invariant |out| == i
        invariant forall j :: 0 <= j < i ==> seqnums[j] < |columns| && out[j] == RequestFor(columns, seqnums, j)
      {
        if seqnums[i] >= |columns| { return Err(OutOfRange); }
        var ext := columns[seqnums[i]].location;
        out := out + [ReadReq(seqnums[i], i, ext.offset, ext.length)];
      }
      reqs := Ok(out);
    }

    method ReadRanges(ranges: seq<Range>) returns (data: Result<seq<seq<Byte>>>)
      requires Valid() && formatDetected
      modifies this`prefetchAttempted, this`prefetchBuf, this`formatDetected, this`crcBlockFormat
      ensures Valid() && formatDetected
      ensures data.Ok? <==> forall k :: 0 <= k < |ranges| ==> ranges[k].End() <= |LogicalContent(file)|
      ensures data.Ok? ==> AreRangeData(LogicalContent(file), ranges, data.value)
    {
      var out := [];
      for k := 0 to |ranges|
        invariant Valid() && formatDetected && |out| == k
        invariant forall j :: 0 <= j < k ==> IsRangeData(LogicalContent(file), ranges[j], out[j])
      {
        var bytes := ReadBytes(ranges[k].offset, ranges[k].length);
        if bytes.Err? { return Err(bytes.failure); }
        out := out + [bytes.value];
      }
      data := Ok(out);
    }

    method DecodeColumn(ext: Extent, raw: seq<Byte>) returns (r: Result<DecodedColumn>)
      ensures SameOutcome(r, ColumnFromRaw(codec, ext, raw))
    {
      var colData := Unpacked(codec, ext, raw);
      if colData.Err? { return Err(colData.failure); }
      var body := EntryBody(colData.value, COL_DATA);
      if body.Err? { return Err(body.failure); }
      r := DecodeVector(body.value);
    }

    /** The `i`-th requested column, read and decoded on its own. */
    function Requested(columns: seq<ColumnMeta>, seqnums: seq<nat>, i: nat): Result<DecodedColumn>
      requires i < |seqnums|
    {
      if seqnums[i] >= |columns| then Err(OutOfRange)
      else ColumnOf(codec, LogicalContent(file), columns[seqnums[i]].location)
    }

    /** `r` is what reading each requested column on its own would give. */
    ghost predicate ColumnsAre(columns: seq<ColumnMeta>, seqnums: seq<nat>, r: Result<seq<DecodedColumn>>)
    {
      && (r.Ok? <==> forall i :: 0 <= i < |seqnums| ==> Requested(columns, seqnums, i).Ok?)
      && (r.Ok? ==> |r.value| == |seqnums| &&
                    forall i :: 0 <= i < |seqnums| ==> Ok(r.value[i]) == Requested(columns, seqnums, i))
    }

    /** Any coalescing gap, any request order, duplicates and overlaps included: the
        result is that of separate reads, in request order; except that requests which
        span 4 GiB or more may fail together. */
    method ReadBlock(blockIdx: nat, seqnums: seq<nat>) returns (r: Result<seq<DecodedColumn>>)
      requires Valid() && formatDetected
      modifies this`prefetchAttempted, this`prefetchBuf, this`formatDetected, this`crcBlockFormat
      ensures Valid() && formatDetected
      ensures if blockIdx < |meta.blocks|
              then ColumnsAre(meta.blocks[blockIdx].columns, seqnums, r) || (r.Err? && SpansFar(meta.blocks[blockIdx].columns, seqnums))
              else r.Err?
    {
      if blockIdx >= meta.blockCount { return Err(OutOfRange); }
      r := ReadColumns(meta.blocks[blockIdx].columns, seqnums);
    }

    method ReadColumns(columns: seq<ColumnMeta>, seqnums: seq<nat>) returns (r: Result<seq<DecodedColumn>>)
      requires Valid() && formatDetected && ShortExtents(columns)
      modifies this`prefetchAttempted, this`prefetchBuf, this`formatDetected, this`crcBlockFormat
      ensures Valid() && formatDetected
      ensures ColumnsAre(columns, seqnums, r) || (r.Err? && SpansFar(columns, seqnums))
    {
      hide ColumnsAre;
      hide SpansFar;
      hide IsArrangement;
      hide Coalesced;
      hide Anchored;
      hide TooWide;
      hide LogicalContent;
      var gathered := GatherRequests(columns, seqnums);
      if gathered.Err? {
        NotGathered(columns, seqnums, OutOfRange);
        return Err(OutOfRange);
      }
      var reqs := SortByOffset(gathered.value);
      SortedRequests(columns, seqnums, gathered.value, reqs);
      RequestsAreShort(columns, seqnums, reqs);
      var ranges, reqToRange := Coalesce(reqs, coalesceGap);
      if TooWide(reqs, ranges, reqToRange) {
        ghost var i, j := WideRequests(reqs, ranges, reqToRange);
        ArrangedRequest(columns, seqnums, reqs, i);
        ArrangedRequest(columns, seqnums, reqs, j);
        RequestsSpanFar(columns, seqnums, reqs[i], reqs[j]);
      }
      var data := ReadRanges(ranges);
      if data.Err? {
        if !TooWide(reqs, ranges, reqToRange) { NotAllFit(columns, seqnums, reqs, ranges, reqToRange, data.failure); }
        return Err(data.failure);
      }
      if !TooWide(reqs, ranges, reqToRange) { CoalescedAssigns(reqs, ranges, reqToRange, coalesceGap); }
      r := SliceAndDecode(columns, seqnums, reqs, ranges, reqToRange, data.value);
    }

    lemma NotGathered(columns: seq<ColumnMeta>, seqnums: seq<nat>, failure: Failure)
      requires exists i :: 0 <= i < |seqnums| && seqnums[i] >= |columns|
      ensures ColumnsAre(columns, seqnums, Err(failure))
    {
      var i :| 0 <= i < |seqnums| && seqnums[i] >= |columns|;
      assert Requested(columns, seqnums, i).Err?;
    }

    /** A range that does not fit means that some request does not. */
    lemma NotAllFit(columns: seq<ColumnMeta>, seqnums: seq<nat>, reqs: seq<ReadReq>, ranges: seq<Range>,
                    owner: seq<nat>, failure: Failure)
      requires IsArrangement(columns, seqnums, reqs) && Coalesced(reqs, ranges, owner, coalesceGap)
      requires exists k :: 0 <= k < |ranges| && ranges[k].End() > |LogicalContent(file)|
      ensures ColumnsAre(columns, seqnums, Err(failure))
    {
      hide Coalesced;
      hide LogicalContent;
      RangesFitIffRequestsFit(reqs, ranges, owner, coalesceGap, |LogicalContent(file)|);
      TooLongFails(columns, seqnums, reqs, failure);
    }

    /** Reassembles the columns in request order. */
    method SliceAndDecode(columns: seq<ColumnMeta>, seqnums: seq<nat>, reqs: seq<ReadReq>,
                          ranges: seq<Range>, reqToRange: seq<nat>, data: seq<seq<Byte>>)
      returns (r: Result<seq<DecodedColumn>>)
      requires IsArrangement(columns, seqnums, reqs) && Anchored(reqs, ranges, reqToRange)
      requires TooWide(reqs, ranges, reqToRange) || Assigned(reqs, ranges, reqToRange)
      requires AreRangeData(LogicalContent(file), ranges, data)
      ensures if TooWide(reqs, ranges, reqToRange) then r.Err? else ColumnsAre(columns, seqnums, r)
    {
      hide *;
      ghost var want := WantedColumns(columns, seqnums);
      var result: seq<Option<DecodedColumn>> := seq(|seqnums|, _ => None);
      NothingFilled(result, want, reqs);
      NoneWideYet(reqs, ranges, reqToRange);
      for i := 0 to |reqs|
        invariant |result| == |seqnums| && FilledFrom(result, want)
        invariant Placed(reqs, i, result) && NoneWide(reqs, ranges, reqToRange, i)
      {
        var req := reqs[i];
        ArrangedRequest(columns, seqnums, reqs, i);
        RangeOfRequest(LogicalContent(file), reqs, ranges, reqToRange, data, i);
        var col := SliceOne(columns, seqnums, req, ranges[reqToRange[i]], data[reqToRange[i]]);
        if col.Err? {
          if !TooWide(reqs, ranges, reqToRange) { SliceFailed(columns, seqnums, reqs, ranges, reqToRange, i, col); }
          return Err(col.failure);
        }
        NotWideAt(reqs, ranges, reqToRange, i);
        ResultFits(columns, seqnums, req);
        FillOne(columns, seqnums, result, want, reqs, i, col);
        result := result[req.resultIdx := Some(col.value)];
      }
      NotTooWide(reqs, ranges, reqToRange);
      AllPlaced(columns, seqnums, reqs, result);
      r := Ok(seq(|seqnums|, k requires 0 <= k < |seqnums| => result[k].value));
      AllWanted(columns, seqnums, result, r.value);
    }

    ghost function WantedColumns(columns: seq<ColumnMeta>, seqnums: seq<nat>): (want: seq<Result<DecodedColumn>>)
      ensures |want| == |seqnums|
    {
      seq(|seqnums|, k requires 0 <= k < |seqnums| => Requested(columns, seqnums, k))
    }

    lemma FillOne(columns: seq<ColumnMeta>, seqnums: seq<nat>, result: seq<Option<DecodedColumn>>,
                  want: seq<Result<DecodedColumn>>, reqs: seq<ReadReq>, i: nat, col: Result<DecodedColumn>)
      requires want == WantedColumns(columns, seqnums) && |result| == |seqnums| && FilledFrom(result, want)
      requires i < |reqs| && IsRequest(columns, seqnums, reqs[i]) && Placed(reqs, i, result)
      requires col.Ok? && SameOutcome(col, Requested(columns, seqnums, reqs[i].resultIdx))
      ensures var next := result[reqs[i].resultIdx := Some(col.value)];
        FilledFrom(next, want) && Placed(reqs, i + 1, next)
    {
      hide Requested;
    }

    lemma AllWanted(columns: seq<ColumnMeta>, seqnums: seq<nat>, result: seq<Option<DecodedColumn>>, cols: seq<DecodedColumn>)
      requires |result| == |cols| == |seqnums| && FilledFrom(result, WantedColumns(columns, seqnums))
      requires forall k :: 0 <= k < |result| ==> result[k].Some? && cols[k] == result[k].value
      ensures ColumnsAre(columns, seqnums, Ok(cols))
    {
      hide Requested;
      forall k | 0 <= k < |seqnums| ensures Ok(cols[k]) == Requested(columns, seqnums, k) {
        assert Ok(result[k].value) == WantedColumns(columns, seqnums)[k];
      }
    }

    /** A request that cannot be cut out of its range, or does not decode, means that some
        column cannot be read on its own. */
    lemma SliceFailed(columns: seq<ColumnMeta>, seqnums: seq<nat>, reqs: seq<ReadReq>, ranges: seq<Range>,
                      owner: seq<nat>, i: nat, col: Result<DecodedColumn>)
      requires IsArrangement(columns, seqnums, reqs) && Assigned(reqs, ranges, owner)
      requires col.Err? && i < |reqs| && IsRequest(columns, seqnums, reqs[i])
      requires Covers(ranges[owner[i]], reqs[i]) ==> SameOutcome(col, Requested(columns, seqnums, reqs[i].resultIdx))
      ensures ColumnsAre(columns, seqnums, Err(col.failure))
    {
      hide LogicalContent;
      hide Requested;
      hide ColumnsAre;
      hide IsArrangement;
      assert Covers(ranges[owner[i]], reqs[i]);
      RequestedFails(columns, seqnums, reqs[i].resultIdx, col.failure);
    }

    lemma RequestedFails(columns: seq<ColumnMeta>, seqnums: seq<nat>, k: nat, failure: Failure)
      requires k < |seqnums| && Requested(columns, seqnums, k).Err?
      ensures ColumnsAre(columns, seqnums, Err(failure))
    {
    }

    lemma TooLongFails(columns: seq<ColumnMeta>, seqnums: seq<nat>, reqs: seq<ReadReq>, failure: Failure)
      requires IsArrangement(columns, seqnums, reqs)
      requires exists j :: 0 <= j < |reqs| && reqs[j].End() > |LogicalContent(file)|
      ensures ColumnsAre(columns, seqnums, Err(failure))
    {
      var k := SomeRequestTooLong(codec, LogicalContent(file), columns, seqnums, reqs);
      hide ColumnOf;
      hide ColumnsAre;
      hide LogicalContent;
      RequestedFails(columns, seqnums, k, failure);
    }

    /** One request's bytes are cut out of its range and decoded, unless its length was
        cut off at 32 bits. */
    method SliceOne(columns: seq<ColumnMeta>, seqnums: seq<nat>, req: ReadReq, cr: Range, bytes: seq<Byte>)
      returns (col: Result<DecodedColumn>)
      requires IsRequest(columns, seqnums, req) && cr.offset <= req.offset
      requires IsRangeData(LogicalContent(file), cr, bytes)
      ensures if Covers(cr, req) then SameOutcome(col, Requested(columns, seqnums, req.resultIdx)) else col.Err?
    {
      hide ColumnFromRaw;
      var ext := columns[req.seqnum].location;
      var localOff := req.offset - cr.offset;
      if localOff + ext.length > |bytes| { return Err(OutOfRange); }
      RequestInsideRange(LogicalContent(file), cr, req);
      col := DecodeColumn(ext, bytes[localOff..localOff + ext.length]);
    }
  }

  predicate Placed(reqs: seq<ReadReq>, n: nat, result: seq<Option<DecodedColumn>>)
    requires n <= |reqs|
  {
    forall j :: 0 <= j < n ==> reqs[j].resultIdx < |result| && result[reqs[j].resultIdx].Some?
  }

  /** What has been filled in is what is wanted there. */
  predicate FilledFrom(result: seq<Option<DecodedColumn>>, want: seq<Result<DecodedColumn>>)
  {
    |result| == |want| && forall k :: 0 <= k < |result| && result[k].Some? ==> Ok(result[k].value) == want[k]
  }

  lemma ArrangedRequest(columns: seq<ColumnMeta>, seqnums: seq<nat>, reqs: seq<ReadReq>, i: nat)
    requires IsArrangement(columns, seqnums, reqs) && i < |reqs|
    ensures IsRequest(columns, seqnums, reqs[i])
  {
  }

  lemma ResultFits(columns: seq<ColumnMeta>, seqnums: seq<nat>, q: ReadReq)
    requires IsRequest(columns, seqnums, q)
    ensures q.resultIdx < |seqnums|
  {
  }

  lemma NothingFilled(result: seq<Option<DecodedColumn>>, want: seq<Result<DecodedColumn>>, reqs: seq<ReadReq>)
    requires |result| == |want| && forall k :: 0 <= k < |result| ==> result[k] == None
    ensures FilledFrom(result, want) && Placed(reqs, 0, result)
  {
  }

  lemma RangeOfRequest(content: seq<Byte>, reqs: seq<ReadReq>, ranges: seq<Range>, owner: seq<nat>, data: seq<seq<Byte>>, i: nat)
    requires Anchored(reqs, ranges, owner) && AreRangeData(content, ranges, data) && i < |reqs|
    ensures |owner| == |reqs| && owner[i] < |ranges| == |data| && ranges[owner[i]].offset <= reqs[i].offset
    ensures IsRangeData(content, ranges[owner[i]], data[owner[i]])
  {
  }

  lemma AllPlaced(columns: seq<ColumnMeta>, seqnums: seq<nat>, reqs: seq<ReadReq>, result: seq<Option<DecodedColumn>>)
    requires IsArrangement(columns, seqnums, reqs) && |result| == |seqnums|
    requires Placed(reqs, |reqs|, result)
    ensures forall k :: 0 <= k < |result| ==> result[k].Some?
  {
    forall k | 0 <= k < |result| ensures result[k].Some? {
      var j :| 0 <= j < |reqs| && reqs[j] == RequestFor(columns, seqnums, k);
    }
  }

  predicate IsRangeData(content: seq<Byte>, r: Range, bytes: seq<Byte>)
  {
    r.End() <= |content| && bytes == content[r.offset..r.End()]
  }

  predicate AreRangeData(content: seq<Byte>, ranges: seq<Range>, data: seq<seq<Byte>>)
  {
    |data| == |ranges| && forall k :: 0 <= k < |ranges| ==> IsRangeData(content, ranges[k], data[k])
  }

  lemma MetaCountsBlocks(buf: seq<Byte>)
    requires MetaOf(buf).Ok?
    ensures MetaOf(buf).value.blockCount == |MetaOf(buf).value.blocks|
  {
  }

  function RequestFor(columns: seq<ColumnMeta>, seqnums: seq<nat>, i: nat): ReadReq
    requires i < |seqnums| && seqnums[i] < |columns|
  {
    ReadReq(seqnums[i], i, columns[seqnums[i]].location.offset, columns[seqnums[i]].location.length)
  }

  /** Some requested extent ends 4 GiB or more behind the start of another. */
  predicate SpansFar(columns: seq<ColumnMeta>, seqnums: seq<nat>)
  {
    exists i, j :: 0 <= i < |seqnums| && 0 <= j < |seqnums| && FarApartAt(columns, seqnums, i, j)
  }

  predicate FarApartAt(columns: seq<ColumnMeta>, seqnums: seq<nat>, i: nat, j: nat)
    requires i < |seqnums| && j < |seqnums|
  {
    && seqnums[i] < |columns| && seqnums[j] < |columns|
    && RequestFor(columns, seqnums, j).End() - RequestFor(columns, seqnums, i).offset >= U32
  }

  /** Which needs a content of 4 GiB if each extent is within it. */
  lemma SmallIsNotFar(columns: seq<ColumnMeta>, seqnums: seq<nat>, size: nat)
    requires size < U32
    requires forall i :: 0 <= i < |seqnums| && seqnums[i] < |columns| ==> RequestFor(columns, seqnums, i).End() <= size
    ensures !SpansFar(columns, seqnums)
  {
  }

  predicate IsRequest(columns: seq<ColumnMeta>, seqnums: seq<nat>, q: ReadReq)
  {
    q.resultIdx < |seqnums| && seqnums[q.resultIdx] < |columns| && q == RequestFor(columns, seqnums, q.resultIdx)
  }

  /** `reqs` are the requests of `seqnums` in some order. */
  predicate IsArrangement(columns: seq<ColumnMeta>, seqnums: seq<nat>, reqs: seq<ReadReq>)
  {
    && (forall i :: 0 <= i < |seqnums| ==> seqnums[i] < |columns| && RequestFor(columns, seqnums, i) in reqs)
    && (forall j :: 0 <= j < |reqs| ==> IsRequest(columns, seqnums, reqs[j]))
  }

  lemma SortedRequests(columns: seq<ColumnMeta>, seqnums: seq<nat>, gathered: seq<ReadReq>, reqs: seq<ReadReq>)
    requires |gathered| == |seqnums| && forall i :: 0 <= i < |seqnums| ==>
               seqnums[i] < |columns| && gathered[i] == RequestFor(columns, seqnums, i)
    requires multiset(reqs) == multiset(gathered)
    ensures IsArrangement(columns, seqnums, reqs)
  {
    forall i | 0 <= i < |seqnums| ensures RequestFor(columns, seqnums, i) in reqs {
      assert gathered[i] in multiset(gathered);
      assert gathered[i] in multiset(reqs);
    }
    forall j | 0 <= j < |reqs| ensures IsRequest(columns, seqnums, reqs[j]) {
      assert reqs[j] in multiset(reqs);
      assert reqs[j] in multiset(gathered);
    }
  }

  lemma RequestsAreShort(columns: seq<ColumnMeta>, seqnums: seq<nat>, reqs: seq<ReadReq>)
    requires IsArrangement(columns, seqnums, reqs) && ShortExtents(columns)
    ensures ShortRequests(reqs)
  {
    forall i | 0 <= i < |reqs| ensures reqs[i].length < U32 { assert IsRequest(columns, seqnums, reqs[i]); }
  }

  /** A request too wide for its range ends far behind the request that starts the range. */
  lemma WideRequests(reqs: seq<ReadReq>, ranges: seq<Range>, owner: seq<nat>) returns (i: nat, j: nat)
    requires Anchored(reqs, ranges, owner) && TooWide(reqs, ranges, owner)
    ensures i < |reqs| && j < |reqs| && reqs[j].End() - reqs[i].offset >= U32
  {
    j :| 0 <= j < |reqs| && owner[j] < |ranges| && WideAt(reqs, ranges, owner, j);
    assert StartsAtRequest(reqs, ranges[owner[j]]);
    i :| 0 <= i < |reqs| && reqs[i].offset == ranges[owner[j]].offset;
  }

  lemma RequestsSpanFar(columns: seq<ColumnMeta>, seqnums: seq<nat>, a: ReadReq, b: ReadReq)
    requires IsRequest(columns, seqnums, a) && IsRequest(columns, seqnums, b) && b.End() - a.offset >= U32
    ensures SpansFar(columns, seqnums)
  {
    assert FarApartAt(columns, seqnums, a.resultIdx, b.resultIdx);
  }

  /** None of the first `n` requests is too wide for its range. */
  predicate NoneWide(reqs: seq<ReadReq>, ranges: seq<Range>, owner: seq<nat>, n: nat)
  {
    n <= |reqs| == |owner| && forall i :: 0 <= i < n ==> owner[i] < |ranges| && !WideAt(reqs, ranges, owner, i)
  }

  lemma NoneWideYet(reqs: seq<ReadReq>, ranges: seq<Range>, owner: seq<nat>)
    requires Anchored(reqs, ranges, owner)
    ensures NoneWide(reqs, ranges, owner, 0)
  {
  }

  /** A request that its range covers is not too wide. */
  lemma NotWideAt(reqs: seq<ReadReq>, ranges: seq<Range>, owner: seq<nat>, i: nat)
    requires Anchored(reqs, ranges, owner) && i < |reqs| && owner[i] < |ranges| && Covers(ranges[owner[i]], reqs[i])
    requires NoneWide(reqs, ranges, owner, i)
    ensures NoneWide(reqs, ranges, owner, i + 1)
  {
    assert ranges[owner[i]].length < U32;
  }

  lemma NotTooWide(reqs: seq<ReadReq>, ranges: seq<Range>, owner: seq<nat>)
    requires NoneWide(reqs, ranges, owner, |reqs|)
    ensures !TooWide(reqs, ranges, owner)
  {
  }

  lemma CoalescedAssigns(reqs: seq<ReadReq>, ranges: seq<Range>, owner: seq<nat>, gap: nat)
    requires Coalesced(reqs, ranges, owner, gap)
    ensures Assigned(reqs, ranges, owner)
  {
  }

  /** A range that starts past the end of a wrapped file does not lie within the content. */
  lemma BeyondFile(file: seq<Byte>, offset: nat, length: nat)
    requires PhysEnd(offset, length, |file|) < PhysStart(offset) || PhysStart(offset) > |file|
    ensures ReadAt(Strip(file), offset, length).Err? && PhysEnd(offset, length, |file|) < PhysStart(offset)
  {
    if offset <= |Strip(file)| {
      ContentStartsInside(file, offset);
      TargetedStrip(file, offset, length);
    }
  }

  lemma SomeRequestTooLong(codec: Codec, content: seq<Byte>, columns: seq<ColumnMeta>, seqnums: seq<nat>, reqs: seq<ReadReq>)
    returns (i: nat)
    requires IsArrangement(columns, seqnums, reqs)
    requires exists j :: 0 <= j < |reqs| && reqs[j].End() > |content|
    ensures i < |seqnums| && seqnums[i] < |columns| && ColumnOf(codec, content, columns[seqnums[i]].location).Err?
  {
    var j :| 0 <= j < |reqs| && reqs[j].End() > |content|;
    assert IsRequest(columns, seqnums, reqs[j]);
    i := reqs[j].resultIdx;
  }
}
