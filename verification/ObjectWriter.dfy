/** The writer of whole object files, and the proof that the reader recovers every
    block's metadata and columns. */
module ObjectWriter {
  import opened Bytes
  import opened ZoneMaps
  import opened Vectors
  import opened VectorWriter
  import opened Metadata
  import opened MetadataWriter
  import opened CrcBlocks
  import opened ObjectReader

  datatype ColumnSpec = ColumnSpec(moType: Byte, vector: seq<Byte>, zoneMap: ZoneMap, ndv: nat, nulls: seq<bool>)

  datatype BlockSpec = BlockSpec(rows: nat, columns: seq<ColumnSpec>)

  function Entry(entryType: nat, body: seq<Byte>): (s: seq<Byte>)
    ensures |s| == |body| + 4
  {
    ToLE(entryType, 2) + ToLE(0, 2) + body
  }

  lemma EntryRead(entryType: nat, body: seq<Byte>)
    requires entryType < U16
    ensures EntryBody(Entry(entryType, body), entryType) == Ok(body)
  {
    Pow256Values();
    var s := Entry(entryType, body);
    assert s[0..2] == ToLE(entryType, 2);
    FieldOfWritten(entryType, 2, s, 0);
  }

  /** How one entry is stored: as is, or compressed. */
  datatype Layout = Layout(codec: Codec, compress: bool) {
    function Stored(data: seq<Byte>): seq<Byte> { if compress then codec.compress(data) else data }

    function ExtentAt(data: seq<Byte>, offset: nat): Extent
    {
      Extent(if compress then 1 else 0, offset, |Stored(data)|, |data|)
    }

    /** The library decompresses what it compressed, and never compresses to nothing. */
    ghost predicate Inverts()
    {
      forall x: seq<Byte> ::
        codec.decompress(codec.compress(x), |x|) == Some(x) && codec.compress(x) != []
    }

    lemma StoredUnpacks(data: seq<Byte>, offset: nat)
      requires Inverts() && data != []
      ensures Unpacked(codec, ExtentAt(data, offset), Stored(data)) == Ok(data) && Stored(data) != []
    {
    }

    // ----- column data -----

    function StoredColumn(col: ColumnSpec): seq<Byte> { Stored(Entry(COL_DATA, col.vector)) }

    /** The first `n` columns, back to back. */
    function ColumnBytes(cols: seq<ColumnSpec>, n: nat): seq<Byte>
      requires n <= |cols|
    {
      if n == 0 then [] else ColumnBytes(cols, n - 1) + StoredColumn(cols[n - 1])
    }

    /** The columns of the first `n` blocks. */
    function BlockBytes(blocks: seq<BlockSpec>, n: nat): seq<Byte>
      requires n <= |blocks|
    {
      if n == 0 then []
      else BlockBytes(blocks, n - 1) + ColumnBytes(blocks[n - 1].columns, |blocks[n - 1].columns|)
    }

    function AllColumns(blocks: seq<BlockSpec>): seq<Byte> { BlockBytes(blocks, |blocks|) }

    lemma {:induction false} ColumnBytesPrefix(cols: seq<ColumnSpec>, c: nat, n: nat)
      requires c <= n <= |cols|
      ensures ColumnBytes(cols, c) <= ColumnBytes(cols, n)
      decreases n
    {
      if c < n { ColumnBytesPrefix(cols, c, n - 1); }
    }

    lemma {:induction false} BlockBytesPrefix(blocks: seq<BlockSpec>, b: nat, n: nat)
      requires b <= n <= |blocks|
      ensures BlockBytes(blocks, b) <= BlockBytes(blocks, n)
      decreases n
    {
      if b < n { BlockBytesPrefix(blocks, b, n - 1); }
    }

    /** Bytes before column `c` of block `b`, the header not counted. */
    function BytesBefore(blocks: seq<BlockSpec>, b: nat, c: nat): nat
      requires b < |blocks| && c < |blocks[b].columns|
    {
      |BlockBytes(blocks, b)| + |ColumnBytes(blocks[b].columns, c)|
    }

    /** Where column `c` of block `b` goes: after the header and everything before it. */
    function ColumnExtent(blocks: seq<BlockSpec>, b: nat, c: nat): Extent
      requires b < |blocks| && c < |blocks[b].columns|
    {
      ExtentAt(Entry(COL_DATA, blocks[b].columns[c].vector), 64 + BytesBefore(blocks, b, c))
    }

    lemma ColumnStoredAt(cols: seq<ColumnSpec>, c: nat)
      requires c < |cols|
      ensures IsAt(ColumnBytes(cols, |cols|), |ColumnBytes(cols, c)|, StoredColumn(cols[c]))
    {
      ColumnBytesPrefix(cols, c + 1, |cols|);
      PrefixSlice(ColumnBytes(cols, c), StoredColumn(cols[c]), ColumnBytes(cols, |cols|));
    }

    lemma BlockStoredAt(blocks: seq<BlockSpec>, b: nat)
      requires b < |blocks|
      ensures IsAt(AllColumns(blocks), |BlockBytes(blocks, b)|, ColumnBytes(blocks[b].columns, |blocks[b].columns|))
    {
      BlockBytesPrefix(blocks, b + 1, |blocks|);
      PrefixSlice(BlockBytes(blocks, b), ColumnBytes(blocks[b].columns, |blocks[b].columns|), AllColumns(blocks));
    }

    lemma ColumnAt(blocks: seq<BlockSpec>, b: nat, c: nat)
      requires b < |blocks| && c < |blocks[b].columns|
      ensures IsAt(AllColumns(blocks), BytesBefore(blocks, b, c), StoredColumn(blocks[b].columns[c]))
    {
      var cols := blocks[b].columns;
      ColumnStoredAt(cols, c);
      BlockStoredAt(blocks, b);
      AtNested(AllColumns(blocks), |BlockBytes(blocks, b)|, ColumnBytes(cols, |cols|),
               |ColumnBytes(cols, c)|, StoredColumn(cols[c]));
    }

    /** The bytes at a column's extent are that column's stored entry. */
    lemma ExtentHoldsColumn(header: seq<Byte>, blocks: seq<BlockSpec>, post: seq<Byte>, b: nat, c: nat)
      requires |header| == 64 && b < |blocks| && c < |blocks[b].columns|
      ensures var e := ColumnExtent(blocks, b, c);
        ReadAt(header + AllColumns(blocks) + post, e.offset, e.length) == Ok(StoredColumn(blocks[b].columns[c]))
    {
      ColumnAt(blocks, b, c);
      AtBehind(header, AllColumns(blocks), post, BytesBefore(blocks, b, c), StoredColumn(blocks[b].columns[c]));
      ReadAtHolds(header + AllColumns(blocks) + post, ColumnExtent(blocks, b, c).offset, StoredColumn(blocks[b].columns[c]));
    }

    function ExtentsOf(blocks: seq<BlockSpec>, b: nat): (es: seq<Extent>)
      requires b < |blocks|
      ensures |es| == |blocks[b].columns|
    {
      seq(|blocks[b].columns|, c requires 0 <= c < |blocks[b].columns| => ColumnExtent(blocks, b, c))
    }

    // ----- metadata -----

    function MetaColumns(blocks: seq<BlockSpec>, b: nat): (cols: seq<ColumnMeta>)
      requires b < |blocks|
      ensures |cols| == |blocks[b].columns|
    {
      seq(|blocks[b].columns|, c requires 0 <= c < |blocks[b].columns| =>
        var col := blocks[b].columns[c];
        ColumnMeta(col.moType, c, col.ndv, NullCount(col.nulls), ColumnExtent(blocks, b, c), 0, col.zoneMap))
    }

    function Blobs(blocks: seq<BlockSpec>): (s: seq<seq<Byte>>)
      requires forall b :: 0 <= b < |blocks| ==> blocks[b].columns != []
      ensures |s| == |blocks|
    {
      seq(|blocks|, b requires 0 <= b < |blocks| => BlockEntry(blocks[b].rows, MetaColumns(blocks, b)))
    }

    function MetaBytes(blocks: seq<BlockSpec>): seq<Byte>
      requires blocks != [] && forall b :: 0 <= b < |blocks| ==> blocks[b].columns != []
    {
      Entry(OBJ_META, Meta(ObjectEntry(blocks), Blobs(blocks)))
    }

    // ----- the whole file -----

    function Header(metaExtent: Extent): (s: seq<Byte>)
      ensures |s| == 64
    {
      ToLE(OBJECT_MAGIC, 8) + ToLE(1, 2) + PackExtent(metaExtent) + Zeros(41)
    }

    function FileOf(blocks: seq<BlockSpec>): seq<Byte>
      requires blocks != [] && forall b :: 0 <= b < |blocks| ==> blocks[b].columns != []
    {
      var body := AllColumns(blocks);
      Header(ExtentAt(MetaBytes(blocks), 64 + |body|)) + body + Stored(MetaBytes(blocks))
    }

    /** Every field of the file fits its width. */
    predicate Fits(blocks: seq<BlockSpec>)
    {
      && blocks != [] && (forall b :: 0 <= b < |blocks| ==> blocks[b].columns != [])
      && (forall b :: 0 <= b < |blocks| ==> BlockFits(blocks[b].rows, MetaColumns(blocks, b)))
      && TotalRows(blocks) < U32
      && |MetaBytes(blocks)| < U32 && |FileOf(blocks)| < U32
    }

    /** Reading the built file's metadata gives back each block's rows, and each
        column's type, counts, extent and zone map. */
    lemma FileMeta(blocks: seq<BlockSpec>)
      requires Inverts() && Fits(blocks)
      ensures MetaFromContent(codec, FileOf(blocks)) == Ok(ExpectedMeta(blocks))
    {
      MetaBodyRead(blocks);
      ParsedBack(blocks);
    }

    lemma MetaBodyRead(blocks: seq<BlockSpec>)
      requires Inverts() && Fits(blocks)
      ensures MetaFromContent(codec, FileOf(blocks)) == MetaOf(Meta(ObjectEntry(blocks), Blobs(blocks)))
    {
      var m, body := MetaBytes(blocks), Meta(ObjectEntry(blocks), Blobs(blocks));
      var e := ExtentAt(m, 64 + |AllColumns(blocks)|);
      HeaderReadBack(blocks);
      MetaUnpacks(e, m, body);
      MetaFromParts(codec, FileOf(blocks), e, Stored(m), m, body);
    }

    lemma MetaUnpacks(e: Extent, m: seq<Byte>, body: seq<Byte>)
      requires Inverts() && m == Entry(OBJ_META, body) && e == ExtentAt(m, e.offset)
      ensures Unpacked(codec, e, Stored(m)) == Ok(m) && EntryBody(m, OBJ_META) == Ok(body)
    {
      StoredUnpacks(m, e.offset);
      EntryRead(OBJ_META, body);
    }

    function ExpectedMeta(blocks: seq<BlockSpec>): ObjectMeta
      requires forall b :: 0 <= b < |blocks| ==> blocks[b].columns != []
    {
      ObjectMeta(|blocks|, seq(|blocks|, b requires 0 <= b < |blocks| => InfoOf(blocks[b].rows, MetaColumns(blocks, b))))
    }

    lemma HeaderReadBack(blocks: seq<BlockSpec>)
      requires Fits(blocks)
      ensures var f := FileOf(blocks); var m := MetaBytes(blocks); var e := ExtentAt(m, 64 + |AllColumns(blocks)|);
        |f| >= 64 && Field(f, 0, 8) == OBJECT_MAGIC && MetaExtent(f) == e &&
        ReadAt(f, e.offset, e.length) == Ok(Stored(m))
    {
      var m, body := MetaBytes(blocks), AllColumns(blocks);
      var e := ExtentAt(m, 64 + |body|);
      HeaderFieldsRead(e, body + Stored(m));
      Assoc(Header(e), body, Stored(m));
      PrefixSlice(Header(e) + body, Stored(m), FileOf(blocks));
      ReadAtHolds(FileOf(blocks), e.offset, Stored(m));
    }

    lemma HeaderFieldsRead(e: Extent, rest: seq<Byte>)
      requires ExtentFits(e)
      ensures var f := Header(e) + rest; |f| >= 64 && Field(f, 0, 8) == OBJECT_MAGIC && MetaExtent(f) == e
    {
      Pow256Values();
      var f, h := Header(e) + rest, Header(e);
      assert f[0..8] == ToLE(OBJECT_MAGIC, 8);
      FieldOfWritten(OBJECT_MAGIC, 8, f, 0);
      assert h[10..23] == PackExtent(e);
      assert f[10..23] == h[10..23];
      ExtentRoundTrip(e);
    }

    lemma ParsedBack(blocks: seq<BlockSpec>)
      requires Fits(blocks)
      ensures MetaOf(Meta(ObjectEntry(blocks), Blobs(blocks))) == Ok(ExpectedMeta(blocks))
    {
      var obj, blobs := ObjectEntry(blocks), Blobs(blocks);
      var cols := |blocks[0].columns|;
      assert BlockFits(blocks[0].rows, MetaColumns(blocks, 0));
      ObjectEntryCount(blocks);
      forall b | 0 <= b < |blocks| ensures ParseBlock(blobs[b]) == Ok(ExpectedMeta(blocks).blocks[b]) {
        BlockRoundTrip(blocks[b].rows, MetaColumns(blocks, b));
      }
      assert |DataMeta(obj, blobs)| < U32 by { assert |MetaBytes(blocks)| >= |DataMeta(obj, blobs)|; }
      MetaRoundTrip(obj, cols, blobs, ExpectedMeta(blocks).blocks);
    }

    /** Reading a column at its recorded extent decodes the vector it was built from. */
    lemma FileColumn(blocks: seq<BlockSpec>, b: nat, c: nat)
      requires Inverts() && Fits(blocks) && b < |blocks| && c < |blocks[b].columns|
      ensures ColumnOf(codec, FileOf(blocks), ColumnExtent(blocks, b, c)) == DecodedFrom(blocks[b].columns[c].vector)
    {
      var entry, e := Entry(COL_DATA, blocks[b].columns[c].vector), ColumnExtent(blocks, b, c);
      var header := Header(ExtentAt(MetaBytes(blocks), 64 + |AllColumns(blocks)|));
      ExtentHoldsColumn(header, blocks, Stored(MetaBytes(blocks)), b, c);
      StoredUnpacks(entry, e.offset);
      EntryRead(COL_DATA, blocks[b].columns[c].vector);
      ColumnFromParts(codec, FileOf(blocks), e, Stored(entry), entry, blocks[b].columns[c].vector);
    }
  }

  lemma ColumnFromParts(codec: Codec, content: seq<Byte>, e: Extent, raw: seq<Byte>, data: seq<Byte>, body: seq<Byte>)
    requires ReadAt(content, e.offset, e.length) == Ok(raw)
    requires Unpacked(codec, e, raw) == Ok(data) && EntryBody(data, COL_DATA) == Ok(body)
    ensures ColumnOf(codec, content, e) == DecodedFrom(body)
  {
  }

  lemma ReadAtHolds(content: seq<Byte>, offset: nat, s: seq<Byte>)
    requires IsAt(content, offset, s)
    ensures ReadAt(content, offset, |s|) == Ok(s)
  {
  }

  lemma MetaFromParts(codec: Codec, content: seq<Byte>, e: Extent, raw: seq<Byte>, data: seq<Byte>, body: seq<Byte>)
    requires |content| >= 64 && Field(content, 0, 8) == OBJECT_MAGIC && MetaExtent(content) == e
    requires ReadAt(content, e.offset, e.length) == Ok(raw)
    requires Unpacked(codec, e, raw) == Ok(data) && EntryBody(data, OBJ_META) == Ok(body)
    ensures MetaFromContent(codec, content) == MetaOf(body)
  {
  }

  /** Rows of the first `n` blocks. */
  function RowsBefore(blocks: seq<BlockSpec>, n: nat): nat
    requires n <= |blocks|
  {
    if n == 0 then 0 else RowsBefore(blocks, n - 1) + blocks[n - 1].rows
  }

  function TotalRows(blocks: seq<BlockSpec>): nat { RowsBefore(blocks, |blocks|) }

  /** The object-level summary, with empty extents and counts. */
  function SummaryColumns(cols: seq<ColumnSpec>): (r: seq<ColumnMeta>)
    ensures |r| == |cols|
  {
    seq(|cols|, c requires 0 <= c < |cols| =>
      ColumnMeta(cols[c].moType, c, 0, 0, Extent(0, 0, 0, 0), 0, cols[c].zoneMap))
  }

  function ObjectEntry(blocks: seq<BlockSpec>): seq<Byte>
    requires blocks != [] && blocks[0].columns != []
  {
    BlockEntry(TotalRows(blocks), SummaryColumns(blocks[0].columns))
  }

  lemma ObjectEntryCount(blocks: seq<BlockSpec>)
    requires blocks != [] && 0 < |blocks[0].columns| < U16 && TotalRows(blocks) < U32
    ensures Field(ObjectEntry(blocks), 140, 2) == |blocks[0].columns|
  {
    HeaderRead(TotalRows(blocks), SummaryColumns(blocks[0].columns));
  }

  class TAEFileBuilder {
    const layout: Layout
    var blocks: seq<BlockSpec>
    var buf: seq<Byte>
    var extents: seq<seq<Extent>>

    constructor (layout: Layout)
      ensures blocks == [] && this.layout == layout
    {
      this.layout := layout;
      blocks, buf, extents := [], [], [];
    }

    method AddBlock(spec: BlockSpec)
      modifies this`blocks
      ensures blocks == old(blocks) + [spec]
    {
      blocks := blocks + [spec];
    }

    /** The extents recorded while writing are those of the finished file. */
    ghost predicate ExtentsRecorded(n: nat)
      reads this
      requires n <= |blocks|
    {
      |extents| == n && forall b :: 0 <= b < n ==> extents[b] == layout.ExtentsOf(blocks, b)
    }

    method Build() returns (bytes: seq<Byte>)
      requires layout.Fits(blocks)
      modifies this`buf, this`extents
      ensures bytes == layout.FileOf(blocks)
    {
      WriteBlocks();
      var metaBytes := BuildMetadata();
      var metaOffset := |buf|;
      var metaExtent := layout.ExtentAt(metaBytes, metaOffset);
      Assoc(Zeros(64), layout.AllColumns(blocks), layout.Stored(metaBytes));
      Assoc(layout.Header(metaExtent), layout.AllColumns(blocks), layout.Stored(metaBytes));
      buf := buf + layout.Stored(metaBytes);
      PatchHeader(metaExtent, layout.AllColumns(blocks) + layout.Stored(metaBytes));
      return buf;
    }

    /** Overwrites the placeholder header. */
    method PatchHeader(metaExtent: Extent, ghost rest: seq<Byte>)
      requires buf == Zeros(64) + rest
      modifies this`buf
      ensures buf == layout.Header(metaExtent) + rest
    {
      var magic, version, extent := ToLE(OBJECT_MAGIC, 8), ToLE(1, 2), PackExtent(metaExtent);
      buf := magic + buf[8..];
      assert buf == magic + (Zeros(56) + rest);
      buf := buf[..8] + version + buf[10..];
      assert buf == magic + version + (Zeros(54) + rest);
      buf := buf[..10] + extent + buf[23..];
      assert buf == magic + version + extent + Zeros(41) + rest;
    }

    method WriteBlocks()
      modifies this`buf, this`extents
      ensures buf == Zeros(64) + layout.AllColumns(blocks) && ExtentsRecorded(|blocks|)
    {
      buf, extents := Zeros(64), [];
      assert Zeros(64) + [] == Zeros(64);
      for b := 0 to |blocks|
        invariant buf == Zeros(64) + layout.BlockBytes(blocks, b)
        invariant ExtentsRecorded(b)
      {
        var cols := blocks[b].columns;
        Assoc(Zeros(64), layout.BlockBytes(blocks, b), layout.ColumnBytes(cols, |cols|));
        WriteColumns(b);
      }
    }

    /** Appends one block's columns and records where they went. */
    method WriteColumns(b: nat)
      requires b < |blocks| && ExtentsRecorded(b) && buf == Zeros(64) + layout.BlockBytes(blocks, b)
      modifies this`buf, this`extents
      ensures ExtentsRecorded(b + 1)
      ensures buf == old(buf) + layout.ColumnBytes(blocks[b].columns, |blocks[b].columns|)
    {
      var cols := blocks[b].columns;
      var mine: seq<Extent> := [];
      ghost var before := buf;
      assert before + [] == before;
      for c := 0 to |cols|
        invariant buf == before + layout.ColumnBytes(cols, c) && extents == old(extents)
        invariant |mine| == c && forall k :: 0 <= k < c ==> mine[k] == layout.ColumnExtent(blocks, b, k)
      {
        var colData := Entry(COL_DATA, cols[c].vector);
        var offset := |buf|;
        mine := mine + [layout.ExtentAt(colData, offset)];
        Assoc(before, layout.ColumnBytes(cols, c), layout.StoredColumn(cols[c]));
        buf := buf + layout.Stored(colData);
      }
      assert mine == layout.ExtentsOf(blocks, b);
      extents := extents + [mine];
    }

    method BuildMetadata() returns (meta: seq<Byte>)
      requires layout.Fits(blocks) && ExtentsRecorded(|blocks|)
      ensures meta == layout.MetaBytes(blocks)
    {
      var totalRows := SumRows();
      var objHeader := BuildBlockHeader(totalRows, |blocks[0].columns|);
      var objEntry := objHeader + Entries(SummaryColumns(blocks[0].columns));
      var perBlock := BuildBlobs();
      meta := Entry(OBJ_META, Meta(objEntry, perBlock));
    }

    method SumRows() returns (totalRows: nat)
      ensures totalRows == TotalRows(blocks)
    {
      totalRows := 0;
      for b := 0 to |blocks|
        invariant totalRows == RowsBefore(blocks, b)
      {
        totalRows := totalRows + blocks[b].rows;
      }
    }

    method BuildBlobs() returns (perBlock: seq<seq<Byte>>)
      requires (forall b :: 0 <= b < |blocks| ==> blocks[b].columns != []) && ExtentsRecorded(|blocks|)
      ensures perBlock == layout.Blobs(blocks)
    {
      hide BlockEntry;
      hide layout.MetaColumns;
      perBlock := [];
      for b := 0 to |blocks|
        invariant |perBlock| == b && forall k :: 0 <= k < b ==>
                    perBlock[k] == BlockEntry(blocks[k].rows, layout.MetaColumns(blocks, k))
      {
        var blob := BuildBlockEntry(b);
        perBlock := perBlock + [blob];
      }
      assert perBlock == layout.Blobs(blocks);
    }

    method BuildBlockEntry(b: nat) returns (blob: seq<Byte>)
      requires b < |blocks| && blocks[b].columns != [] && ExtentsRecorded(|blocks|)
      ensures blob == BlockEntry(blocks[b].rows, layout.MetaColumns(blocks, b))
    {
      var cols := blocks[b].columns;
      var metas: seq<ColumnMeta> := [];
      for c := 0 to |cols|
        invariant |metas| == c && forall k :: 0 <= k < c ==> metas[k] == layout.MetaColumns(blocks, b)[k]
      {
        var col := cols[c];
        metas := metas + [ColumnMeta(col.moType, c, col.ndv, NullCount(col.nulls), extents[b][c], 0, col.zoneMap)];
      }
      assert metas == layout.MetaColumns(blocks, b);
      var header := BuildBlockHeader(blocks[b].rows, |cols|);
      blob := header + Entries(metas);
    }
  }
}
