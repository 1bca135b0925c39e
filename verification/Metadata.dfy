/** Object metadata: header, block index, block headers and column entries. */
module Metadata {
  import opened Bytes
  import opened ZoneMaps

  datatype Extent = Extent(alg: Byte, offset: nat, length: nat, originSize: nat) {
    predicate IsCompressed() { alg == 1 }
  }

  datatype ColumnMeta = ColumnMeta(
    dataType: Byte, idx: nat, ndv: nat, nullCnt: nat, location: Extent, checksum: nat, zoneMap: ZoneMap)

  datatype BlockInfo = BlockInfo(rows: nat, colCount: nat, metaColCount: nat, maxSeqnum: nat, columns: seq<ColumnMeta>)

  datatype ObjectMeta = ObjectMeta(blockCount: nat, blocks: seq<BlockInfo>)

  // Fixed sizes: 32-byte metadata header, 179-byte block header, 124-byte column entry.

  function ParseExtent(s: seq<Byte>): Extent
    requires |s| == 13
  {
    Extent(s[0], Field(s, 1, 4), Field(s, 5, 4), Field(s, 9, 4))
  }

  function ParseColumnMeta(s: seq<Byte>): ColumnMeta
    requires |s| == 124
  {
    ColumnMeta(s[0], Field(s, 1, 2), Field(s, 3, 4), Field(s, 7, 4),
               ParseExtent(s[11..24]), Field(s, 24, 4), s[28..92])
  }

  function ParseColumns(s: seq<Byte>, n: nat): (cols: seq<ColumnMeta>)
    requires n * 124 <= |s|
    ensures |cols| == n
    ensures forall c :: 0 <= c < n ==> cols[c] == ParseColumnMeta(s[c * 124..(c + 1) * 124])
  {
    seq(n, c requires 0 <= c < n => ParseColumnMeta(s[c * 124..(c + 1) * 124]))
  }

  /** One block's entry: header, then as many column entries as are declared and fit. */
  function ParseBlock(blk: seq<Byte>): Result<BlockInfo>
  {
    if |blk| < 179 then Err(TooSmall)
    else
      var declared := Field(blk, 140, 2);
      var n := if 179 + declared * 124 > |blk| then (|blk| - 179) / 124 else declared;
      Ok(BlockInfo(Field(blk, 36, 4), Field(blk, 40, 2), declared, Field(blk, 142, 2),
                   ParseColumns(blk[179..], n)))
  }

  function ParseIndexed(dm: seq<Byte>, bi: seq<Byte>, b: nat): Result<BlockInfo>
    requires 4 + 8 * (b + 1) <= |bi|
  {
    var offset, length := Field(bi, 4 + 8 * b, 4), Field(bi, 8 + 8 * b, 4);
    if offset + length > |dm| then Err(OutOfRange) else ParseBlock(dm[offset..offset + length])
  }

  function ParseBlocks(dm: seq<Byte>, bi: seq<Byte>, n: nat): (r: Result<seq<BlockInfo>>)
    requires 4 + 8 * n <= |bi|
    ensures r.Ok? ==> |r.value| == n && forall b :: 0 <= b < n ==> ParseIndexed(dm, bi, b) == Ok(r.value[b])
    ensures r.Err? ==> exists b :: 0 <= b < n && ParseIndexed(dm, bi, b).Err?
  {
    if n == 0 then Ok([])
    else
      var init :- ParseBlocks(dm, bi, n - 1);
      var last :- ParseIndexed(dm, bi, n - 1);
      Ok(init + [last])
  }

  function MetaOf(buf: seq<Byte>): Result<ObjectMeta>
  {
    if |buf| < 32 then Err(TooSmall)
    else if Field(buf, 0, 2) == 0 then Ok(ObjectMeta(0, []))
    else if Field(buf, 2, 4) >= |buf| then Err(OutOfRange)
    else
      var dm := buf[Field(buf, 2, 4)..];
      if |dm| < 179 then Err(TooSmall)
      else
        var objLen := 179 + Field(dm, 140, 2) * 124;
        if objLen > |dm| then Err(OutOfRange)
        else
          var bi := dm[objLen..];
          if |bi| < 4 then Err(TooSmall)
          else if 4 + Field(bi, 0, 4) * 8 > |bi| then Err(OutOfRange)
          else
            var blocks :- ParseBlocks(dm, bi, Field(bi, 0, 4));
            Ok(ObjectMeta(Field(bi, 0, 4), blocks))
  }

  /** Lengths of extents are 32-bit fields. */
  predicate ShortExtents(cols: seq<ColumnMeta>)
  {
    forall c :: 0 <= c < |cols| ==> cols[c].location.length < U32
  }

  lemma ParsedExtentsAreShort(buf: seq<Byte>)
    requires MetaOf(buf).Ok?
    ensures forall b :: 0 <= b < |MetaOf(buf).value.blocks| ==> ShortExtents(MetaOf(buf).value.blocks[b].columns)
  {
    forall b | 0 <= b < |MetaOf(buf).value.blocks| ensures ShortExtents(MetaOf(buf).value.blocks[b].columns) {
      hide Field;
      hide ParseIndexed;
      hide ShortExtents;
      var dm := buf[Field(buf, 2, 4)..];
      var bi := dm[179 + Field(dm, 140, 2) * 124..];
      assert ParseIndexed(dm, bi, b) == Ok(MetaOf(buf).value.blocks[b]);
      IndexedIsShort(dm, bi, b);
    }
  }

  lemma IndexedIsShort(dm: seq<Byte>, bi: seq<Byte>, b: nat)
    requires 4 + 8 * (b + 1) <= |bi| && ParseIndexed(dm, bi, b).Ok?
    ensures ShortExtents(ParseIndexed(dm, bi, b).value.columns)
  {
    hide Field;
    hide ParseBlock;
    hide ShortExtents;
    var offset, length := Field(bi, 4 + 8 * b, 4), Field(bi, 8 + 8 * b, 4);
    ParsedBlockIsShort(dm[offset..offset + length]);
  }

  lemma ParsedBlockIsShort(blk: seq<Byte>)
    requires ParseBlock(blk).Ok?
    ensures ShortExtents(ParseBlock(blk).value.columns)
  {
    var cols := ParseBlock(blk).value.columns;
    var s := blk[179..];
    forall c | 0 <= c < |cols| ensures cols[c].location.length < U32 {
      var e := s[c * 124..(c + 1) * 124];
      assert cols[c] == ParseColumnMeta(e);
      ParsedExtentIsShort(e[11..24]);
    }
  }

  lemma ParsedExtentIsShort(s: seq<Byte>)
    requires |s| == 13
    ensures ParseExtent(s).length < U32
  {
    Pow256Values();
    ToFromLE(s[5..9]);
  }

  method ParseMetadata(buf: seq<Byte>) returns (r: Result<ObjectMeta>)
    ensures r.Ok? == MetaOf(buf).Ok?
    ensures r.Ok? ==> r == MetaOf(buf)
  {
    if |buf| < 32 { return Err(TooSmall); }
    var dataMetaCount, dataMetaOffset := Field(buf, 0, 2), Field(buf, 2, 4);
    if dataMetaCount == 0 { return Ok(ObjectMeta(0, [])); }
    if dataMetaOffset >= |buf| { return Err(OutOfRange); }
    var dm := buf[dataMetaOffset..];
    if |dm| < 179 { return Err(TooSmall); }
    var objDataLen := 179 + Field(dm, 140, 2) * 124;
    if objDataLen > |dm| { return Err(OutOfRange); }
    var bi := dm[objDataLen..];
    if |bi| < 4 { return Err(TooSmall); }
    var blockCount := Field(bi, 0, 4);
    if 4 + blockCount * 8 > |bi| { return Err(OutOfRange); }
    var blocks := ReadIndex(dm, bi, blockCount);
    if blocks.Err? { return Err(OutOfRange); }
    r := Ok(ObjectMeta(blockCount, blocks.value));
  }

  method ReadIndex(dm: seq<Byte>, bi: seq<Byte>, blockCount: nat) returns (r: Result<seq<BlockInfo>>)
    requires 4 + 8 * blockCount <= |bi|
    ensures r.Ok? == ParseBlocks(dm, bi, blockCount).Ok?
    ensures r.Ok? ==> r == ParseBlocks(dm, bi, blockCount)
  {
    var blocks := [];
    for b := 0 to blockCount
      invariant |blocks| == b
      invariant forall k :: 0 <= k < b ==> ParseIndexed(dm, bi, k) == Ok(blocks[k])
    {
      var blkOffset, blkLength := Field(bi, 4 + 8 * b, 4), Field(bi, 8 + 8 * b, 4);
      if blkOffset + blkLength > |dm| || blkLength < 179 {
        assert ParseIndexed(dm, bi, b).Err?;
        return Err(OutOfRange);
      }
      var info := ParseBlockInfo(dm[blkOffset..blkOffset + blkLength]);
      blocks := blocks + [info];
    }
    var expected := ParseBlocks(dm, bi, blockCount);
    assert expected.Ok? && blocks == expected.value;
    r := Ok(blocks);
  }

  method ParseBlockInfo(blk: seq<Byte>) returns (info: BlockInfo)
    requires |blk| >= 179
    ensures ParseBlock(blk) == Ok(info)
  {
    var metaColCount := Field(blk, 140, 2);
    var numCols := metaColCount;
    var expected := 179 + numCols * 124;
    if expected > |blk| {
      numCols := (|blk| - 179) / 124;
    }
    var area := blk[179..];
    var columns := [];
    for c := 0 to numCols
      invariant |columns| == c
      invariant forall k :: 0 <= k < c ==> columns[k] == ParseColumnMeta(area[k * 124..(k + 1) * 124])
    {
      columns := columns + [ParseColumnMeta(area[c * 124..(c + 1) * 124])];
    }
    assert columns == ParseColumns(area, numCols);
    info := BlockInfo(Field(blk, 36, 4), Field(blk, 40, 2), metaColCount, Field(blk, 142, 2), columns);
  }
}
