/** The writer of object metadata, and the proof that parsing recovers it. */
module MetadataWriter {
  import opened Bytes
  import opened Metadata
  import opened VectorWriter

  function PackExtent(e: Extent): (s: seq<Byte>)
    ensures |s| == 13
  {
    [e.alg] + ToLE(e.offset, 4) + ToLE(e.length, 4) + ToLE(e.originSize, 4)
  }

  predicate ExtentFits(e: Extent) { e.offset < U32 && e.length < U32 && e.originSize < U32 }

  lemma ExtentRoundTrip(e: Extent)
    requires ExtentFits(e)
    ensures ParseExtent(PackExtent(e)) == e
  {
    Pow256Values();
    var s := PackExtent(e);
    FieldOfWritten(e.offset, 4, s, 1);
    FieldOfWritten(e.length, 4, s, 5);
    FieldOfWritten(e.originSize, 4, s, 9);
  }

  function BlockHeader(rows: nat, colCount: nat, maxSeq: nat): (s: seq<Byte>)
    ensures |s| == 179
  {
    Zeros(36) + ToLE(rows, 4) + ToLE(colCount, 2) + Zeros(98) + ToLE(colCount, 2) + ToLE(maxSeq, 2) + Zeros(35)
  }

  lemma ZerosSplit(a: nat, b: nat)
    ensures Zeros(a + b) == Zeros(a) + Zeros(b)
  {
  }

  /** Writing over the zeros behind `pre`. */
  lemma OverZeros(pre: seq<Byte>, n: nat, s: seq<Byte>)
    requires |s| <= n
    ensures var all := pre + Zeros(n);
      all[..|pre|] + s + all[|pre| + |s|..] == pre + s + Zeros(n - |s|)
  {
    var all := pre + Zeros(n);
    assert all[..|pre|] == pre && all[|pre| + |s|..] == Zeros(n - |s|);
  }

  method BuildBlockHeader(rows: nat, colCount: nat) returns (s: seq<Byte>)
    requires colCount > 0
    ensures s == BlockHeader(rows, colCount, colCount - 1)
  {
    var hdr := new Byte[179](_ => 0);
    assert hdr[..] == Zeros(179);
    var r, c, m := ToLE(rows, 4), ToLE(colCount, 2), ToLE(colCount - 1, 2);
    ZerosSplit(36, 143);
    PackInto(hdr, 36, r);
    OverZeros(Zeros(36), 143, r);
    PackInto(hdr, 40, c);
    OverZeros(Zeros(36) + r, 139, c);
    var front := Zeros(36) + r + c;
    ZerosSplit(98, 39);
    Assoc(front, Zeros(98), Zeros(39));
    PackInto(hdr, 140, c);
    OverZeros(front + Zeros(98), 39, c);
    PackInto(hdr, 142, m);
    OverZeros(front + Zeros(98) + c, 37, m);
    s := hdr[..];
  }

  function ColumnEntry(m: ColumnMeta): (s: seq<Byte>)
    ensures |s| == 124
  {
    [m.dataType] + ToLE(m.idx, 2) + ToLE(m.ndv, 4) + ToLE(m.nullCnt, 4) + PackExtent(m.location) +
    ToLE(m.checksum, 4) + m.zoneMap + Zeros(32)
  }

  predicate ColumnFits(m: ColumnMeta)
  {
    m.idx < U16 && m.ndv < U32 && m.nullCnt < U32 && m.checksum < U32 && ExtentFits(m.location)
  }

  lemma ColumnRoundTrip(m: ColumnMeta)
    requires ColumnFits(m)
    ensures ParseColumnMeta(ColumnEntry(m)) == m
  {
    Pow256Values();
    var s := ColumnEntry(m);
    FieldOfWritten(m.idx, 2, s, 1);
    FieldOfWritten(m.ndv, 4, s, 3);
    FieldOfWritten(m.nullCnt, 4, s, 7);
    assert s[11..24] == PackExtent(m.location);
    ExtentRoundTrip(m.location);
    FieldOfWritten(m.checksum, 4, s, 24);
    assert s[28..92] == m.zoneMap;
  }

  /** The first `n` entries, back to back. */
  function EntriesOfFirst(cols: seq<ColumnMeta>, n: nat): (s: seq<Byte>)
    requires n <= |cols|
    ensures |s| == n * 124
  {
    if n == 0 then [] else EntriesOfFirst(cols, n - 1) + ColumnEntry(cols[n - 1])
  }

  function Entries(cols: seq<ColumnMeta>): (s: seq<Byte>)
    ensures |s| == |cols| * 124
  {
    EntriesOfFirst(cols, |cols|)
  }

  lemma {:induction false} EntriesPrefix(cols: seq<ColumnMeta>, k: nat, n: nat)
    requires k <= n <= |cols|
    ensures EntriesOfFirst(cols, k) <= EntriesOfFirst(cols, n)
    decreases n
  {
    if k < n { EntriesPrefix(cols, k, n - 1); }
  }

  lemma EntryAt(cols: seq<ColumnMeta>, c: nat)
    requires c < |cols|
    ensures Entries(cols)[c * 124..(c + 1) * 124] == ColumnEntry(cols[c])
  {
    EntriesPrefix(cols, c + 1, |cols|);
    PrefixSlice(EntriesOfFirst(cols, c), ColumnEntry(cols[c]), Entries(cols));
  }

  function BlockEntry(rows: nat, cols: seq<ColumnMeta>): (s: seq<Byte>)
    requires cols != []
    ensures |s| == 179 + |cols| * 124
  {
    BlockHeader(rows, |cols|, |cols| - 1) + Entries(cols)
  }

  predicate BlockFits(rows: nat, cols: seq<ColumnMeta>)
  {
    rows < U32 && 0 < |cols| < U16 && forall c :: 0 <= c < |cols| ==> ColumnFits(cols[c])
  }

  function InfoOf(rows: nat, cols: seq<ColumnMeta>): BlockInfo
    requires cols != []
  {
    BlockInfo(rows, |cols|, |cols|, |cols| - 1, cols)
  }

  lemma HeaderRead(rows: nat, cols: seq<ColumnMeta>)
    requires BlockFits(rows, cols)
    ensures var s := BlockEntry(rows, cols);
      Field(s, 36, 4) == rows && Field(s, 40, 2) == |cols| && Field(s, 140, 2) == |cols| && Field(s, 142, 2) == |cols| - 1
  {
    Pow256Values();
    var h, s := BlockHeader(rows, |cols|, |cols| - 1), BlockEntry(rows, cols);
    assert h[36..40] == ToLE(rows, 4) && h[40..42] == ToLE(|cols|, 2);
    assert h[140..142] == ToLE(|cols|, 2) && h[142..144] == ToLE(|cols| - 1, 2);
    assert s[36..40] == h[36..40] && s[40..42] == h[40..42];
    assert s[140..142] == h[140..142] && s[142..144] == h[142..144];
    FieldOfWritten(rows, 4, s, 36);
    FieldOfWritten(|cols|, 2, s, 40);
    FieldOfWritten(|cols|, 2, s, 140);
    FieldOfWritten(|cols| - 1, 2, s, 142);
  }

  lemma BlockRoundTrip(rows: nat, cols: seq<ColumnMeta>)
    requires BlockFits(rows, cols)
    ensures ParseBlock(BlockEntry(rows, cols)) == Ok(InfoOf(rows, cols))
  {
    var s := BlockEntry(rows, cols);
    HeaderRead(rows, cols);
    assert s[179..] == Entries(cols);
    var parsed := ParseColumns(s[179..], |cols|);
    forall c | 0 <= c < |cols| ensures parsed[c] == cols[c] {
      EntryAt(cols, c);
      ColumnRoundTrip(cols[c]);
    }
    assert parsed == cols;
  }

  // ----- block index and whole metadata -----

  function IndexEntry(offset: nat, length: nat): (s: seq<Byte>)
    ensures |s| == 8
  {
    ToLE(offset, 4) + ToLE(length, 4)
  }

  /** Offset and length of each of the first `n` blobs, the first blob at `base`. */
  function IndexOfFirst(blobs: seq<seq<Byte>>, base: nat, n: nat): (s: seq<Byte>)
    requires n <= |blobs|
    ensures |s| == 8 * n
  {
    if n == 0 then []
    else IndexOfFirst(blobs, base, n - 1) + IndexEntry(base + |Joined(blobs, n - 1)|, |blobs[n - 1]|)
  }

  function Index(blobs: seq<seq<Byte>>, base: nat): (s: seq<Byte>)
    ensures |s| == 8 * |blobs|
  {
    IndexOfFirst(blobs, base, |blobs|)
  }

  lemma {:induction false} IndexPrefix(blobs: seq<seq<Byte>>, base: nat, k: nat, n: nat)
    requires k <= n <= |blobs|
    ensures IndexOfFirst(blobs, base, k) <= IndexOfFirst(blobs, base, n)
    decreases n
  {
    if k < n { IndexPrefix(blobs, base, k, n - 1); }
  }

  function DataMeta(objEntry: seq<Byte>, blobs: seq<seq<Byte>>): seq<Byte>
  {
    objEntry + ToLE(|blobs|, 4) + Index(blobs, IndexBase(objEntry, blobs)) + Concat(blobs)
  }

  /** The metadata after its entry header. */
  function Meta(objEntry: seq<Byte>, blobs: seq<seq<Byte>>): seq<Byte>
  {
    ToLE(1, 2) + ToLE(32, 4) + Zeros(26) + DataMeta(objEntry, blobs)
  }

  lemma IndexEntryAt(blobs: seq<seq<Byte>>, base: nat, b: nat)
    requires b < |blobs|
    ensures IsAt(Index(blobs, base), 8 * b, IndexEntry(base + |Joined(blobs, b)|, |blobs[b]|))
  {
    IndexPrefix(blobs, base, b + 1, |blobs|);
    PrefixSlice(IndexOfFirst(blobs, base, b), IndexEntry(base + |Joined(blobs, b)|, |blobs[b]|), Index(blobs, base));
  }

  lemma IndexEntryRead(all: seq<Byte>, at: nat, offset: nat, length: nat)
    requires IsAt(all, at, IndexEntry(offset, length)) && offset < U32 && length < U32
    ensures Field(all, at, 4) == offset && Field(all, at + 4, 4) == length
  {
    Pow256Values();
    var entry := IndexEntry(offset, length);
    PairParts(ToLE(offset, 4), ToLE(length, 4));
    AtNested(all, at, entry, 0, ToLE(offset, 4));
    AtNested(all, at, entry, 4, ToLE(length, 4));
    FieldFound(all, at, offset, 4);
    FieldFound(all, at + 4, length, 4);
  }

  lemma MetaHeaderRead(objEntry: seq<Byte>, blobs: seq<seq<Byte>>)
    ensures var buf := Meta(objEntry, blobs);
      |buf| == 32 + |DataMeta(objEntry, blobs)| && Field(buf, 0, 2) == 1 && Field(buf, 2, 4) == 32 &&
      buf[32..] == DataMeta(objEntry, blobs)
  {
    Pow256Values();
    var buf := Meta(objEntry, blobs);
    assert buf[0..2] == ToLE(1, 2) && buf[2..6] == ToLE(32, 4);
    FieldOfWritten(1, 2, buf, 0);
    FieldOfWritten(32, 4, buf, 2);
  }

  function IndexBase(objEntry: seq<Byte>, blobs: seq<seq<Byte>>): nat { |objEntry| + 4 + 8 * |blobs| }

  /** The index entry of blob `b` points at that blob. */
  lemma IndexedBlob(objEntry: seq<Byte>, blobs: seq<seq<Byte>>, b: nat)
    requires b < |blobs| && |DataMeta(objEntry, blobs)| < U32
    ensures IndexBase(objEntry, blobs) <= |DataMeta(objEntry, blobs)|
    ensures ParseIndexed(DataMeta(objEntry, blobs), DataMeta(objEntry, blobs)[|objEntry|..], b) == ParseBlock(blobs[b])
  {
    var base := IndexBase(objEntry, blobs);
    var offset := base + |Joined(blobs, b)|;
    BlobAt(objEntry, blobs, b);
    BlockIndexTail(objEntry, blobs);
    var bi := DataMeta(objEntry, blobs)[|objEntry|..];
    IndexEntryAt(blobs, base, b);
    AtBehind(ToLE(|blobs|, 4), Index(blobs, base), Concat(blobs), 8 * b, IndexEntry(offset, |blobs[b]|));
    IndexEntryRead(bi, 4 + 8 * b, offset, |blobs[b]|);
  }

  lemma BlockIndexTail(objEntry: seq<Byte>, blobs: seq<seq<Byte>>)
    ensures |DataMeta(objEntry, blobs)| == IndexBase(objEntry, blobs) + |Concat(blobs)|
    ensures DataMeta(objEntry, blobs)[|objEntry|..] ==
            ToLE(|blobs|, 4) + Index(blobs, IndexBase(objEntry, blobs)) + Concat(blobs)
  {
  }

  lemma BlobAt(objEntry: seq<Byte>, blobs: seq<seq<Byte>>, b: nat)
    requires b < |blobs|
    ensures IsAt(DataMeta(objEntry, blobs), IndexBase(objEntry, blobs) + |Joined(blobs, b)|, blobs[b])
  {
    var pre := objEntry + ToLE(|blobs|, 4) + Index(blobs, IndexBase(objEntry, blobs));
    PartAt(blobs, b);
    AtBehind(pre, Concat(blobs), [], |Joined(blobs, b)|, blobs[b]);
    assert pre + Concat(blobs) + [] == DataMeta(objEntry, blobs);
  }

  /** Parsing built metadata gives, block by block, what each block's entry parses to. */
  lemma MetaRoundTrip(objEntry: seq<Byte>, cols: nat, blobs: seq<seq<Byte>>, infos: seq<BlockInfo>)
    requires |objEntry| == 179 + cols * 124 && Field(objEntry, 140, 2) == cols
    requires |DataMeta(objEntry, blobs)| < U32
    requires |infos| == |blobs| && forall b :: 0 <= b < |blobs| ==> ParseBlock(blobs[b]) == Ok(infos[b])
    ensures MetaOf(Meta(objEntry, blobs)) == Ok(ObjectMeta(|blobs|, infos))
  {
    hide DataMeta;
    hide Meta;
    hide ParseIndexed;
    MetaHeaderRead(objEntry, blobs);
    BlockIndexTail(objEntry, blobs);
    var dm := DataMeta(objEntry, blobs);
    CountsRead(objEntry, cols, blobs);
    forall b | 0 <= b < |blobs| ensures ParseIndexed(dm, dm[|objEntry|..], b) == Ok(infos[b]) {
      IndexedBlob(objEntry, blobs, b);
    }
    AllIndexed(dm, dm[|objEntry|..], infos);
  }

  lemma CountsRead(objEntry: seq<Byte>, cols: nat, blobs: seq<seq<Byte>>)
    requires |objEntry| == 179 + cols * 124 && Field(objEntry, 140, 2) == cols && |blobs| < U32
    ensures var dm := DataMeta(objEntry, blobs);
      Field(dm, 140, 2) == cols && |dm[|objEntry|..]| >= 4 + 8 * |blobs| && Field(dm[|objEntry|..], 0, 4) == |blobs|
  {
    Pow256Values();
    var dm := DataMeta(objEntry, blobs);
    BlockIndexTail(objEntry, blobs);
    assert dm[140..142] == objEntry[140..142];
    assert dm[|objEntry|..][0..4] == ToLE(|blobs|, 4);
    FromToLE(|blobs|, 4);
  }

  lemma AllIndexed(dm: seq<Byte>, bi: seq<Byte>, infos: seq<BlockInfo>)
    requires 4 + 8 * |infos| <= |bi|
    requires forall b :: 0 <= b < |infos| ==> ParseIndexed(dm, bi, b) == Ok(infos[b])
    ensures ParseBlocks(dm, bi, |infos|) == Ok(infos)
  {
    var r := ParseBlocks(dm, bi, |infos|);
    assert r.Ok? && r.value == infos;
  }
}
