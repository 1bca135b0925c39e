/** Writing an object file and reading it back, raw or wrapped in checksummed blocks. */
module FileRoundTrip {
  import opened Bytes
  import opened Types
  import opened ZoneMaps
  import opened Vectors
  import opened VectorWriter
  import opened Metadata
  import opened MetadataWriter
  import opened CrcBlocks
  import opened ObjectReader
  import opened ObjectWriter
  import opened ConstantVector

  datatype Storage = Raw | Checksummed(crcs: seq<seq<Byte>>) {
    predicate Fits(content: seq<Byte>)
    {
      Checksummed? ==> |crcs| == BlockCount(content) && forall i :: 0 <= i < |crcs| ==> |crcs[i]| == 4
    }

    function Bytes(content: seq<Byte>): seq<Byte>
      requires Fits(content)
    {
      if Raw? then content else Wrap(content, crcs)
    }
  }

  /** Either form of a built file is recognised and stands for the built bytes. */
  lemma FormIsRecognised(layout: Layout, blocks: seq<BlockSpec>, storage: Storage)
    requires layout.Fits(blocks) && storage.Fits(layout.FileOf(blocks))
    ensures var file := storage.Bytes(layout.FileOf(blocks));
      LogicalContent(file) == layout.FileOf(blocks) && (DetectsRaw(file) || DetectsCrc(file))
  {
    var content := layout.FileOf(blocks);
    layout.HeaderReadBack(blocks);
    hide layout.FileOf;
    MagicBytes(content[0..8]);
    assert content[..8] == content[0..8];
    if storage.Checksummed? { FormsNeverConfused(content, storage.crcs); }
    else { assert DetectsRaw(content); }
  }

  /** A built file has its header. */
  lemma HeaderIsThere(layout: Layout, blocks: seq<BlockSpec>, file: seq<Byte>)
    requires layout.Fits(blocks) && LogicalContent(file) == layout.FileOf(blocks)
    ensures |LogicalContent(file)| >= 64
  {
    layout.HeaderReadBack(blocks);
  }

  lemma ColumnIsInside(layout: Layout, blocks: seq<BlockSpec>, b: nat, c: nat)
    requires layout.Fits(blocks) && b < |blocks| && c < |blocks[b].columns|
    ensures var e := layout.ColumnExtent(blocks, b, c); e.offset + e.length <= |layout.FileOf(blocks)|
  {
    var header := layout.Header(layout.ExtentAt(layout.MetaBytes(blocks), 64 + |layout.AllColumns(blocks)|));
    layout.ExtentHoldsColumn(header, blocks, layout.Stored(layout.MetaBytes(blocks)), b, c);
  }

  /** The extents that the builder records lie within less than 4 GiB. */
  lemma BuiltExtentsAreNear(layout: Layout, blocks: seq<BlockSpec>, b: nat, seqnums: seq<nat>)
    requires layout.Fits(blocks) && b < |blocks|
    ensures !SpansFar(layout.MetaColumns(blocks, b), seqnums)
  {
    var columns, size := layout.MetaColumns(blocks, b), |layout.FileOf(blocks)|;
    ContentIsSmall(layout, blocks);
    hide *;
    forall i | 0 <= i < |seqnums| && seqnums[i] < |columns| ensures RequestFor(columns, seqnums, i).End() <= size {
      ColumnIsInside(layout, blocks, b, seqnums[i]);
      ColumnLocation(layout, blocks, b, seqnums[i]);
      RequestEnds(columns, seqnums, i);
    }
    SmallIsNotFar(columns, seqnums, size);
  }

  lemma RequestEnds(columns: seq<ColumnMeta>, seqnums: seq<nat>, i: nat)
    requires i < |seqnums| && seqnums[i] < |columns|
    ensures var e := columns[seqnums[i]].location; RequestFor(columns, seqnums, i).End() == e.offset + e.length
  {
  }

  lemma ContentIsSmall(layout: Layout, blocks: seq<BlockSpec>)
    requires layout.Fits(blocks)
    ensures |layout.FileOf(blocks)| < U32
  {
  }

  lemma ColumnLocation(layout: Layout, blocks: seq<BlockSpec>, b: nat, c: nat)
    requires b < |blocks| && c < |blocks[b].columns|
    ensures layout.MetaColumns(blocks, b)[c].location == layout.ColumnExtent(blocks, b, c)
  {
  }

  // ----- what columns are written from -----

  /** Values and nulls row by row, or one value for a number of rows. */
  datatype Given = Flat(p: Payload, nulls: seq<bool>) | Constant(v: Value, rows: nat) {
    function Rows(): nat { if Flat? then |nulls| else rows }

    predicate Valid() { Flat? ==> |nulls| == p.Count() }

    /** What a query should see at a row. */
    function At(oid: Byte, row: nat): Value
      requires Valid() && row < Rows()
    {
      match this
      case Flat(p, nulls) => if nulls[row] then NullV else GivenAt(oid, p, row)
      case Constant(v, _) => v
    }
  }

  ghost predicate WrittenFrom(col: ColumnSpec, oid: Byte, g: Given)
  {
    match g
    case Flat(p, nulls) => IsVector(col.vector, oid, p, nulls) && |nulls| == p.Count() && SizesFit(oid, p)
    case Constant(v, rows) => IsConstantVector(col.vector, oid, v, rows) && rows < U32
  }

  ghost predicate Written(col: ColumnSpec)
  {
    exists oid: Byte, g: Given :: WrittenFrom(col, oid, g)
  }

  /** The column is of the type, FLAT or CONSTANT as given, and a query sees the given
      values at its rows. */
  ghost predicate Returns(col: DecodedColumn, oid: Byte, g: Given)
  {
    && g.Valid() && col.mtype.oid == oid && col.rowCount == g.Rows()
    && (if g.Flat? then Recovers(col, oid, g.p, g.nulls) else HoldsConstant(col, oid, g.v, g.rows))
    && forall row :: 0 <= row < g.Rows() ==> SeenOk(col, row) && SeenAt(col, row) == g.At(oid, row)
  }

  lemma WrittenDecodes(col: ColumnSpec, oid: Byte, g: Given)
    requires WrittenFrom(col, oid, g)
    ensures DecodedFrom(col.vector).Ok? && Returns(DecodedFrom(col.vector).value, oid, g)
  {
    match g
    case Flat(p, nulls) =>
      VectorRoundTrip(col.vector, oid, p, nulls);
    case Constant(v, rows) =>
      ConstantDecoded(col.vector, oid, v, rows);
      forall row | 0 <= row < rows
        ensures SeenOk(DecodedFrom(col.vector).value, row) && SeenAt(DecodedFrom(col.vector).value, row) == v
      {
        ConstantIsSeen(DecodedFrom(col.vector).value, oid, v, rows, row);
      }
  }

  /** The column gives back whatever its vector was written from. */
  ghost predicate GivesBack(col: DecodedColumn, spec: ColumnSpec)
  {
    forall oid: Byte, g: Given :: WrittenFrom(spec, oid, g) ==> Returns(col, oid, g)
  }

  // ----- the demands can be met -----

  /** A file of one block of two rows: a FLAT column of 5 and NULL, and the constant 42. */
  lemma DemandsCanBeMet() returns (layout: Layout, blocks: seq<BlockSpec>)
    ensures layout.Inverts() && layout.Fits(blocks)
    ensures |blocks| == 1 && blocks[0].rows == |blocks[0].columns| == 2
    ensures WrittenFrom(blocks[0].columns[0], T_INT32, Flat(Numbers([Some(5), None]), [false, true]))
    ensures WrittenFrom(blocks[0].columns[1], T_INT32, Constant(IntV(42), 2))
    ensures !IsInited(blocks[0].columns[0].zoneMap) && !IsInited(blocks[0].columns[1].zoneMap)
  {
    var codec := Codec((x: seq<Byte>) => [0] + x, (s: seq<Byte>, n: nat) => if s == [] then None else Some(s[1..]));
    layout := Layout(codec, false);
    var flat := FlatColumn();
    var constant := ConstantColumn();
    blocks := [BlockSpec(2, [flat, constant])];
    SmallFileFits(layout, flat, constant);
  }

  lemma FlatColumn() returns (column: ColumnSpec)
    ensures WrittenFrom(column, T_INT32, Flat(Numbers([Some(5), None]), [false, true]))
    ensures |column.vector| < 100 && column.ndv < U32 && NullCount(column.nulls) < U32 && !IsInited(column.zoneMap)
  {
    Pow256Values();
    var p, nulls := Numbers([Some(5), None]), [false, true];
    var nsp := SomeNullSection(nulls);
    var data := DataOf(T_INT32, p);
    JoinedLength(Packed(p.numbers, NumTypeOf(T_INT32)), 4, 2);
    var vector := Assembled([0] + PackType(T_INT32, ElemSize(T_INT32)), 2, data, [], nsp);
    assert AreaOf(p) == [];
    assert IsVector(vector, T_INT32, p, nulls);
    column := ColumnSpec(T_INT32, vector, Zeros(64), 1, nulls);
  }

  lemma ConstantColumn() returns (column: ColumnSpec)
    ensures WrittenFrom(column, T_INT32, Constant(IntV(42), 2))
    ensures |column.vector| < 100 && column.ndv < U32 && NullCount(column.nulls) < U32 && !IsInited(column.zoneMap)
  {
    Pow256Values();
    NoNullSection(2);
    var vector := Assembled([1] + PackType(T_INT32, ElemSize(T_INT32)), 2, ConstantData(T_INT32, IntV(42)), [], []);
    assert IsConstantVector(vector, T_INT32, IntV(42), 2);
    column := ColumnSpec(T_INT32, vector, Zeros(64), 1, []);
  }

  lemma SmallFileFits(layout: Layout, a: ColumnSpec, b: ColumnSpec)
    requires !layout.compress && |a.vector| < 100 && |b.vector| < 100
    requires a.ndv < U32 && b.ndv < U32 && NullCount(a.nulls) < U32 && NullCount(b.nulls) < U32
    ensures layout.Fits([BlockSpec(2, [a, b])])
  {
    var cols := [a, b];
    var blocks := [BlockSpec(2, cols)];
    assert layout.ColumnBytes(cols, 0) == [] && layout.BlockBytes(blocks, 0) == [];
    assert |layout.ColumnBytes(cols, 1)| == |a.vector| + 4;
    assert |layout.AllColumns(blocks)| == |layout.ColumnBytes(cols, 2)| == |a.vector| + |b.vector| + 8;
    assert layout.BytesBefore(blocks, 0, 0) == 0 && layout.BytesBefore(blocks, 0, 1) == |a.vector| + 4;
    assert BlockFits(2, layout.MetaColumns(blocks, 0));
    var blobs := layout.Blobs(blocks);
    assert |blobs| == 1 && |Joined(blobs, 0)| == 0 && |Joined(blobs, 1)| == |blobs[0]| == 427;
    assert TotalRows(blocks) == RowsBefore(blocks, 0) + 2 == 2;
    assert |ObjectEntry(blocks)| == 427;
    BlockIndexTail(ObjectEntry(blocks), blobs);
    assert |DataMeta(ObjectEntry(blocks), blobs)| == 427 + 4 + 8 + 427;
  }

  // ----- the round trip -----

  /** Build a file, store it in either form, open it with any coalescing gap and
      prefetch threshold, and read any columns of any block in any order: the metadata
      is that of the blocks written, and every column gives back its values. */
  method WriteThenRead(layout: Layout, blocks: seq<BlockSpec>, storage: Storage, gap: nat, threshold: nat,
                       b: nat, seqnums: seq<nat>)
    returns (meta: ObjectMeta, cols: seq<DecodedColumn>)
    requires layout.Inverts() && layout.Fits(blocks) && storage.Fits(layout.FileOf(blocks))
    requires b < |blocks| && forall i :: 0 <= i < |seqnums| ==>
               seqnums[i] < |blocks[b].columns| && Written(blocks[b].columns[seqnums[i]])
    ensures meta == layout.ExpectedMeta(blocks)
    ensures |cols| == |seqnums|
    ensures forall i :: 0 <= i < |seqnums| ==> GivesBack(cols[i], blocks[b].columns[seqnums[i]])
  {
    hide *;
    var bytes := WriteFile(layout, blocks);
    var reader := OpenFile(layout, blocks, storage.Bytes(bytes), storage, gap, threshold);
    meta := reader.meta;
    cols := ReadBack(layout, blocks, reader, b, seqnums);
  }

  method WriteFile(layout: Layout, blocks: seq<BlockSpec>) returns (bytes: seq<Byte>)
    requires layout.Fits(blocks)
    ensures bytes == layout.FileOf(blocks)
  {
    hide layout.Fits;
    hide layout.FileOf;
    var builder := new TAEFileBuilder(layout);
    for i := 0 to |blocks|
      invariant builder.blocks == blocks[..i]
    {
      builder.AddBlock(blocks[i]);
      assert blocks[..i + 1] == blocks[..i] + [blocks[i]];
    }
    assert blocks[..|blocks|] == blocks;
    bytes := builder.Build();
  }

  method OpenFile(layout: Layout, blocks: seq<BlockSpec>, file: seq<Byte>, ghost storage: Storage, gap: nat, threshold: nat)
    returns (reader: TAEObjectReader)
    requires layout.Inverts() && layout.Fits(blocks) && storage.Fits(layout.FileOf(blocks))
    requires file == storage.Bytes(layout.FileOf(blocks))
    ensures fresh(reader) && reader.Valid() && reader.formatDetected && reader.codec == layout.codec
    ensures LogicalContent(reader.file) == layout.FileOf(blocks) && reader.meta == layout.ExpectedMeta(blocks)
  {
    hide layout.FileOf;
    hide layout.Fits;
    hide layout.ExpectedMeta;
    hide MetaFromContent;
    FormIsRecognised(layout, blocks, storage);
    HeaderIsThere(layout, blocks, file);
    layout.FileMeta(blocks);
    reader := new TAEObjectReader(file, layout.codec, gap, threshold);
    var ok := reader.ReadMeta();
  }

  method ReadBack(layout: Layout, blocks: seq<BlockSpec>, reader: TAEObjectReader, b: nat, seqnums: seq<nat>)
    returns (cols: seq<DecodedColumn>)
    requires layout.Inverts() && layout.Fits(blocks) && reader.Valid() && reader.formatDetected && reader.codec == layout.codec
    requires LogicalContent(reader.file) == layout.FileOf(blocks) && reader.meta == layout.ExpectedMeta(blocks)
    requires b < |blocks| && forall i :: 0 <= i < |seqnums| ==>
               seqnums[i] < |blocks[b].columns| && Written(blocks[b].columns[seqnums[i]])
    modifies reader
    ensures |cols| == |seqnums|
    ensures forall i :: 0 <= i < |seqnums| ==> GivesBack(cols[i], blocks[b].columns[seqnums[i]])
  {
    hide *;
    BuiltExtentsAreNear(layout, blocks, b, seqnums);
    ExpectedColumns(layout, blocks, b);
    var columns := reader.meta.blocks[b].columns;
    forall i | 0 <= i < |seqnums| ensures GivenBack(reader.Requested(columns, seqnums, i), blocks[b].columns[seqnums[i]]) {
      RequestedGivenBack(layout, blocks, reader, b, seqnums, i);
    }
    var r := reader.ReadBlock(b, seqnums);
    AllGivenBack(reader, columns, seqnums, blocks[b].columns, r);
    cols := r.value;
  }

  lemma ExpectedColumns(layout: Layout, blocks: seq<BlockSpec>, b: nat)
    requires layout.Fits(blocks) && b < |blocks|
    ensures var meta := layout.ExpectedMeta(blocks);
      |meta.blocks| == |blocks| && meta.blocks[b].columns == layout.MetaColumns(blocks, b)
  {
  }

  ghost predicate GivenBack(r: Result<DecodedColumn>, spec: ColumnSpec) { r.Ok? && GivesBack(r.value, spec) }

  lemma RequestedGivenBack(layout: Layout, blocks: seq<BlockSpec>, reader: TAEObjectReader, b: nat, seqnums: seq<nat>, i: nat)
    requires layout.Inverts() && layout.Fits(blocks) && reader.codec == layout.codec
    requires LogicalContent(reader.file) == layout.FileOf(blocks) && b < |blocks|
    requires i < |seqnums| && seqnums[i] < |blocks[b].columns| && Written(blocks[b].columns[seqnums[i]])
    ensures GivenBack(reader.Requested(layout.MetaColumns(blocks, b), seqnums, i), blocks[b].columns[seqnums[i]])
  {
    layout.FileColumn(blocks, b, seqnums[i]);
    ColumnLocation(layout, blocks, b, seqnums[i]);
    DecodesBack(blocks[b].columns[seqnums[i]]);
    hide layout.FileOf;
    hide ColumnOf;
    hide layout.MetaColumns;
    hide GivesBack;
  }

  lemma AllGivenBack(reader: TAEObjectReader, columns: seq<ColumnMeta>, seqnums: seq<nat>, specs: seq<ColumnSpec>,
                     r: Result<seq<DecodedColumn>>)
    requires reader.ColumnsAre(columns, seqnums, r) && forall i :: 0 <= i < |seqnums| ==> seqnums[i] < |specs|
    requires forall i :: 0 <= i < |seqnums| ==> GivenBack(reader.Requested(columns, seqnums, i), specs[seqnums[i]])
    ensures r.Ok? && |r.value| == |seqnums|
    ensures forall i :: 0 <= i < |seqnums| ==> GivesBack(r.value[i], specs[seqnums[i]])
  {
    forall i | 0 <= i < |seqnums| ensures reader.Requested(columns, seqnums, i).Ok? {
      assert GivenBack(reader.Requested(columns, seqnums, i), specs[seqnums[i]]);
    }
  }

  lemma DecodesBack(spec: ColumnSpec)
    requires Written(spec)
    ensures GivenBack(DecodedFrom(spec.vector), spec)
  {
    var oid: Byte, g: Given :| WrittenFrom(spec, oid, g);
    WrittenDecodes(spec, oid, g);
    forall oid: Byte, g: Given | WrittenFrom(spec, oid, g)
      ensures Returns(DecodedFrom(spec.vector).value, oid, g)
    {
      WrittenDecodes(spec, oid, g);
    }
  }
}
