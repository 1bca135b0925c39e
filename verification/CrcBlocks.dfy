/** Files wrapped in 2048-byte blocks, each a 4-byte checksum and up to 2044 bytes of
    content; and the translation of content offsets to file offsets. */
module CrcBlocks {
  import opened Bytes

  /** The content of a wrapped file, checksums removed. */
  function Strip(raw: seq<Byte>): (content: seq<Byte>)
    ensures |content| <= |raw|
  {
    if |raw| <= 4 then []
    else raw[4..Min(2048, |raw|)] + Strip(raw[Min(2048, |raw|)..])
  }

  method StripCrc32Blocks(raw: seq<Byte>) returns (content: seq<Byte>)
    ensures content == Strip(raw)
  {
    content := [];
    var off := 0;
    while off < |raw|
      invariant content + Strip(raw[Min(off, |raw|)..]) == Strip(raw)
    {
      var remaining := |raw| - off;
      if remaining <= 4 { break; }
      var contentLen := Min(2044, remaining - 4);
      var tail := raw[off..];
      assert tail[4..Min(2048, |tail|)] == raw[off + 4..off + 4 + contentLen];
      assert tail[Min(2048, |tail|)..] == raw[Min(off + 2048, |raw|)..];
      Assoc(content, raw[off + 4..off + 4 + contentLen], Strip(raw[Min(off + 2048, |raw|)..]));
      content := content + raw[off + 4..off + 4 + contentLen];
      off := off + 2048;
    }
    assert Strip(raw[Min(off, |raw|)..]) == [];
  }

  /** Stripping splits at every block boundary. */
  lemma {:induction false} StripSplits(raw: seq<Byte>, k: nat)
    requires 2048 * k <= |raw|
    ensures Strip(raw) == Strip(raw[..2048 * k]) + Strip(raw[2048 * k..])
    ensures |Strip(raw[..2048 * k])| == 2044 * k
  {
    if k > 0 {
      var rest := raw[2048..];
      StripSplits(rest, k - 1);
      assert raw[..2048 * k][2048..] == rest[..2048 * (k - 1)];
      assert raw[..2048 * k][4..2048] == raw[4..2048];
      assert raw[2048 * k..] == rest[2048 * (k - 1)..];
      Assoc(raw[4..2048], Strip(rest[..2048 * (k - 1)]), Strip(raw[2048 * k..]));
    } else {
      assert raw[0..] == raw;
    }
  }

  /** The file range that holds the content range. */
  function PhysStart(offset: nat): nat { offset / 2044 * 2048 }

  /** The block after the range's last byte, in 64-bit arithmetic: an empty range at
      offset 0 wraps around. */
  function BlockEnd(offset: nat, length: nat): nat
  {
    if offset + length == 0 then ((0xFFFF_FFFF_FFFF_FFFF / 2044 + 1) * 2048) % 0x1_0000_0000_0000_0000
    else (LastBlock(offset, length) + 1) * 2048
  }

  function PhysEnd(offset: nat, length: nat, fileSize: nat): nat { Min(BlockEnd(offset, length), fileSize) }

  /** Whole blocks of the file are a slice of the content. */
  lemma BlocksAreSlice(file: seq<Byte>, first: nat, end: nat)
    requires first <= end && 2048 * end <= |file|
    ensures 2044 * end <= |Strip(file)|
    ensures Strip(file[2048 * first..2048 * end]) == Strip(file)[2044 * first..2044 * end]
  {
    StripSplits(file, end);
    StripSplits(file[..2048 * end], first);
    assert file[..2048 * end][2048 * first..] == file[2048 * first..2048 * end];
  }

  /** So are the blocks from a boundary to the end of the file. */
  lemma TailIsSlice(file: seq<Byte>, first: nat)
    requires 2048 * first <= |file|
    ensures 2044 * first <= |Strip(file)|
    ensures Strip(file[2048 * first..|file|]) == Strip(file)[2044 * first..]
  {
    StripSplits(file, first);
    assert file[2048 * first..|file|] == file[2048 * first..];
  }

  /** Every content offset's block starts within the file. */
  lemma ContentStartsInside(file: seq<Byte>, offset: nat)
    requires offset <= |Strip(file)|
    ensures PhysStart(offset) <= |file|
  {
    var m := |file| / 2048;
    StripSplits(file, m);
    var tail := file[2048 * m..];
    assert |Strip(tail)| < 2044 by {
      if |tail| > 4 { assert tail[Min(2048, |tail|)..] == []; }
    }
  }

  /** Stripping just the blocks around a range decides whether the range lies within
      the content, and gives the same bytes as stripping the whole file. */
  lemma TargetedStrip(file: seq<Byte>, offset: nat, length: nat)
    requires PhysStart(offset) <= |file|
    ensures PhysStart(offset) <= PhysEnd(offset, length, |file|) <= |file|
    ensures var part := Strip(file[PhysStart(offset)..PhysEnd(offset, length, |file|)]);
      var local := offset - offset / 2044 * 2044;
      && (local + length <= |part| <==> offset + length <= |Strip(file)|)
      && (local + length <= |part| ==> part[local..local + length] == Strip(file)[offset..offset + length])
  {
    var first := offset / 2044;
    assert PhysStart(offset) == 2048 * first && offset / 2044 * 2044 == 2044 * first;
    if length == 0 && offset == 2044 * first {
      EmptyRange(file, first);
    } else {
      var end := LastBlock(offset, length) + 1;
      assert PhysEnd(offset, length, |file|) == Min(2048 * end, |file|);
      LastBlockHolds(offset, length);
      hide *;
      TargetedBlocks(file, first, end, offset, length);
    }
  }

  /** The block that holds the last byte of a range that is not empty at a boundary. */
  function LastBlock(offset: nat, length: nat): nat
    requires offset + length > 0
  {
    (offset + length - 1) / 2044
  }

  lemma LastBlockHolds(offset: nat, length: nat)
    requires length > 0 || offset > offset / 2044 * 2044
    ensures 2044 * (offset / 2044) <= offset && offset / 2044 < LastBlock(offset, length) + 1
    ensures offset + length <= 2044 * (LastBlock(offset, length) + 1)
  {
  }

  /** An empty range at a block boundary reads nothing, or anything when it wraps around. */
  lemma EmptyRange(file: seq<Byte>, first: nat)
    requires 2048 * first <= |file|
    ensures 2048 * first <= PhysEnd(2044 * first, 0, |file|) && 2044 * first <= |Strip(file)|
  {
    StripSplits(file, first);
    if first > 0 {
      assert (2044 * first - 1) / 2044 == first - 1;
    }
  }

  lemma TargetedBlocks(file: seq<Byte>, first: nat, end: nat, offset: nat, length: nat)
    requires first < end && 2048 * first <= |file|
    requires 2044 * first <= offset && offset + length <= 2044 * end
    ensures var part := Strip(file[2048 * first..Min(2048 * end, |file|)]);
      var local := offset - 2044 * first;
      && (local + length <= |part| <==> offset + length <= |Strip(file)|)
      && (local + length <= |part| ==> part[local..local + length] == Strip(file)[offset..offset + length])
  {
    if 2048 * end <= |file| {
      BlocksAreSlice(file, first, end);
      SliceDecides(Strip(file), 2044 * first, 2044 * end, offset, length);
    } else {
      TailIsSlice(file, first);
      SliceDecides(Strip(file), 2044 * first, |Strip(file)|, offset, length);
    }
  }

  lemma SliceDecides(s: seq<Byte>, from: nat, until: nat, offset: nat, length: nat)
    requires from <= until <= |s| && from <= offset
    requires offset + length <= until || until == |s|
    ensures var part := s[from..until]; var local := offset - from;
      && (local + length <= |part| <==> offset + length <= |s|)
      && (local + length <= |part| ==> part[local..local + length] == s[offset..offset + length])
  {
    if offset + length <= until { SliceInside(s, from, until, offset - from, length); }
  }

  // ----- wrapping -----

  function BlockCount(content: seq<Byte>): nat { (|content| + 2044 - 1) / 2044 }

  /** Content wrapped with the given checksum bytes, one group per block. */
  function Wrap(content: seq<Byte>, crcs: seq<seq<Byte>>): seq<Byte>
    requires |crcs| == BlockCount(content) && forall i :: 0 <= i < |crcs| ==> |crcs[i]| == 4
    decreases |content|
  {
    if content == [] then []
    else
      var n := Min(2044, |content|);
      crcs[0] + content[..n] + Wrap(content[n..], crcs[1..])
  }

  /** Stripping undoes wrapping, whatever the checksum bytes are. */
  lemma {:induction false} StripUndoesWrap(content: seq<Byte>, crcs: seq<seq<Byte>>)
    requires |crcs| == BlockCount(content) && forall i :: 0 <= i < |crcs| ==> |crcs[i]| == 4
    ensures Strip(Wrap(content, crcs)) == content
    decreases |content|
  {
    if content != [] {
      var n := Min(2044, |content|);
      var raw, rest := Wrap(content, crcs), Wrap(content[n..], crcs[1..]);
      StripUndoesWrap(content[n..], crcs[1..]);
      assert raw == crcs[0] + content[..n] + rest;
      assert Min(2048, |raw|) == 4 + n;
      assert raw[4..4 + n] == content[..n];
      assert raw[4 + n..] == rest;
    }
  }

  // ----- format detection -----

  const OBJECT_MAGIC: nat := 0xFFFF_FFFF

  predicate DetectsRaw(file: seq<Byte>)
  {
    |file| >= 12 && Field(file, 0, 8) == OBJECT_MAGIC
  }

  predicate DetectsCrc(file: seq<Byte>)
  {
    |file| >= 12 && Field(file, 0, 8) != OBJECT_MAGIC && Field(file, 4, 8) == OBJECT_MAGIC
  }

  /** The bytes a file stands for once its format is known. */
  function LogicalContent(file: seq<Byte>): seq<Byte>
  {
    if DetectsCrc(file) then Strip(file) else file
  }

  predicate StartsWithMagic(content: seq<Byte>)
  {
    |content| >= 12 && content[..8] == [0xFF, 0xFF, 0xFF, 0xFF, 0, 0, 0, 0]
  }

  lemma MagicBytes(s: seq<Byte>)
    requires |s| == 8
    ensures FromLE(s) == OBJECT_MAGIC <==> s == [0xFF, 0xFF, 0xFF, 0xFF, 0, 0, 0, 0]
  {
    Pow256Values();
    var magic: seq<Byte> := [0xFF, 0xFF, 0xFF, 0xFF, 0, 0, 0, 0];
    ToFromLE(s);
    ToFromLE(magic);
    assert FromLE(magic) == OBJECT_MAGIC by {
      assert FromLE(magic[4..]) == 0 by {
        assert FromLE(magic[6..]) == 0 by { assert magic[6..] == [0, 0]; assert FromLE([0]) == 0; }
        assert FromLE(magic[5..]) == 0 by { assert magic[5..][1..] == magic[6..]; }
        assert magic[4..][1..] == magic[5..];
      }
      assert magic[3..][1..] == magic[4..] && magic[2..][1..] == magic[3..];
      assert magic[1..][1..] == magic[2..] && magic[0..][1..] == magic[1..];
      assert FromLE(magic[3..]) == 0xFF;
      assert FromLE(magic[2..]) == 0xFFFF;
      assert FromLE(magic[1..]) == 0xFF_FFFF;
    }
  }

  /** The two forms of one object are told apart whatever the first checksum is, and
      both stand for the same content. */
  lemma FormsNeverConfused(content: seq<Byte>, crcs: seq<seq<Byte>>)
    requires StartsWithMagic(content)
    requires |crcs| == BlockCount(content) && forall i :: 0 <= i < |crcs| ==> |crcs[i]| == 4
    ensures DetectsRaw(content) && !DetectsCrc(content)
    ensures DetectsCrc(Wrap(content, crcs)) && !DetectsRaw(Wrap(content, crcs))
    ensures LogicalContent(content) == LogicalContent(Wrap(content, crcs)) == content
  {
    StripUndoesWrap(content, crcs);
    MagicBytes(content[0..8]);
    var raw := Wrap(content, crcs);
    var n := Min(2044, |content|);
    assert raw == crcs[0] + content[..n] + Wrap(content[n..], crcs[1..]);
    assert raw[4..12] == content[..8];
    MagicBytes(raw[4..12]);
    assert raw[4] == 0xFF;
    MagicBytes(raw[0..8]);
  }
}
