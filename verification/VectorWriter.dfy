/** The writer of column vectors, and the proof that the reader undoes it. */
module VectorWriter {
  import opened Bytes
  import opened ZoneMaps
  import opened Types
  import opened Vectors

  // ----- null bitmap -----

  /** Nulls among the first `n` rows. */
  function CountTrue(nulls: seq<bool>, n: nat): (count: nat)
    requires n <= |nulls|
    ensures count <= n
    ensures count == 0 <==> forall i :: 0 <= i < n ==> !nulls[i]
  {
    if n == 0 then 0 else CountTrue(nulls, n - 1) + if nulls[n - 1] then 1 else 0
  }

  function NullCount(nulls: seq<bool>): nat { CountTrue(nulls, |nulls|) }

  /** Word `w` of the bitmap once the first `n` rows have been entered. */
  function Mark(nulls: seq<bool>, w: nat, n: nat): (word: nat)
    requires n <= |nulls|
  {
    if n == 0 then 0
    else
      var before := Mark(nulls, w, n - 1);
      if nulls[n - 1] && (n - 1) / 64 == w then SetBit(before, (n - 1) % 64) else before
  }

  lemma {:induction false} MarkBound(nulls: seq<bool>, w: nat, n: nat)
    requires n <= |nulls|
    ensures Mark(nulls, w, n) < Pow2(64)
  {
    if n == 0 {
      Pow2Of64();
    } else {
      MarkBound(nulls, w, n - 1);
      if nulls[n - 1] && (n - 1) / 64 == w { SetBitBound(Mark(nulls, w, n - 1), (n - 1) % 64, 64); }
    }
  }

  lemma MarkIsWord(nulls: seq<bool>, w: nat, n: nat)
    requires n <= |nulls|
    ensures Mark(nulls, w, n) < Pow256(8)
  {
    MarkBound(nulls, w, n);
    Pow2Of64();
  }

  /** Bit `k` of word `w` is set exactly when row `64 w + k` has been entered as null. */
  lemma {:induction false} MarkedBits(nulls: seq<bool>, w: nat, n: nat, k: nat)
    requires n <= |nulls| && k < 64
    ensures BitSet(Mark(nulls, w, n), k) <==> 64 * w + k < n && nulls[64 * w + k]
  {
    if n == 0 {
      NoBitOfZero(k);
    } else {
      MarkedBits(nulls, w, n - 1, k);
      SetBitSets(Mark(nulls, w, n - 1), (n - 1) % 64, k);
    }
  }

  function WordCount(rows: nat): nat { (rows + 63) / 64 }

  function MarkedWords(nulls: seq<bool>, n: nat): (ws: seq<nat>)
    requires n <= |nulls|
  {
    seq(WordCount(|nulls|), w requires w >= 0 => Mark(nulls, w, n))
  }

  predicate HoldsWords(b: seq<Byte>, ws: seq<nat>)
  {
    |b| == 8 * |ws| && forall w :: 0 <= w < |ws| ==> b[8 * w..8 * w + 8] == ToLE(ws[w], 8)
  }

  function NullSection(nulls: seq<bool>, bitmap: seq<Byte>): seq<Byte>
  {
    if NullCount(nulls) == 0 then []
    else ToLE(NullCount(nulls), 8) + ToLE(WordCount(|nulls|), 8) + ToLE(8 * WordCount(|nulls|), 8) + bitmap
  }

  /** The null section of these rows: absent without nulls, else header and bitmap. */
  ghost predicate IsNullSection(nsp: seq<Byte>, nulls: seq<bool>)
  {
    exists bitmap :: HoldsWords(bitmap, MarkedWords(nulls, |nulls|)) && nsp == NullSection(nulls, bitmap)
  }

  method BuildNullBitmap(nulls: seq<bool>) returns (nsp: seq<Byte>)
    ensures IsNullSection(nsp, nulls)
  {
    var nullCount := 0;
    for i := 0 to |nulls|
      invariant nullCount == CountTrue(nulls, i)
    {
      if nulls[i] { nullCount := nullCount + 1; }
    }
    var numWords := WordCount(|nulls|);
    var bitmap := new Byte[8 * numWords](_ => 0);
    EnterNulls(nulls, bitmap);
    nsp := [];
    if nullCount > 0 {
      nsp := ToLE(nullCount, 8) + ToLE(numWords, 8) + ToLE(8 * numWords, 8) + bitmap[..];
    }
    assert nsp == NullSection(nulls, bitmap[..]);
  }

  method EnterNulls(nulls: seq<bool>, bitmap: array<Byte>)
    requires bitmap.Length == 8 * WordCount(|nulls|) && forall i :: 0 <= i < bitmap.Length ==> bitmap[i] == 0
    modifies bitmap
    ensures HoldsWords(bitmap[..], MarkedWords(nulls, |nulls|))
  {
    ZeroHolding(bitmap[..], nulls);
    for i := 0 to |nulls|
      invariant HoldsWords(bitmap[..], MarkedWords(nulls, i))
    {
      if nulls[i] {
        EnterNull(nulls, bitmap, i);
      } else {
        assert MarkedWords(nulls, i + 1) == MarkedWords(nulls, i);
      }
    }
  }

  method EnterNull(ghost nulls: seq<bool>, bitmap: array<Byte>, i: nat)
    requires i < |nulls| && nulls[i] && HoldsWords(bitmap[..], MarkedWords(nulls, i))
    modifies bitmap
    ensures HoldsWords(bitmap[..], MarkedWords(nulls, i + 1))
  {
    var off := 8 * (i / 64);
    assert i / 64 < WordCount(|nulls|);
    ghost var before := bitmap[..];
    var existing := Field(bitmap[..], off, 8);
    assert existing == Mark(nulls, i / 64, i) by {
      MarkIsWord(nulls, i / 64, i);
      assert before[off..off + 8] == ToLE(MarkedWords(nulls, i)[i / 64], 8);
      FieldOfWritten(Mark(nulls, i / 64, i), 8, before, off);
    }
    PackInto(bitmap, off, ToLE(SetBit(existing, i % 64), 8));
    WordReplaced(before, bitmap[..], nulls, i);
  }

  /** `struct.pack_into`: overwrite bytes in place. */
  method PackInto(a: array<Byte>, off: nat, s: seq<Byte>)
    requires off + |s| <= a.Length
    modifies a
    ensures a[..] == old(a[..])[..off] + s + old(a[..])[off + |s|..]
  {
    for k := 0 to |s|
      invariant forall j :: 0 <= j < a.Length ==> a[j] == if off <= j < off + k then s[j - off] else old(a[j])
    {
      a[off + k] := s[k];
    }
  }

  lemma ZeroHolding(b: seq<Byte>, nulls: seq<bool>)
    requires |b| == 8 * WordCount(|nulls|) && forall i :: 0 <= i < |b| ==> b[i] == 0
    ensures HoldsWords(b, MarkedWords(nulls, 0))
  {
    forall w | 0 <= w < WordCount(|nulls|) ensures b[8 * w..8 * w + 8] == ToLE(0, 8) {
      ZeroLE(8);
    }
  }

  lemma {:induction false} ZeroLE(k: nat)
    ensures ToLE(0, k) == seq(k, _ => 0)
  {
    if k > 0 {
      ZeroLE(k - 1);
      assert forall i :: 1 <= i < k ==> Digit(0, i) == ToLE(0, k - 1)[i - 1];
    }
  }

  lemma WordReplaced(before: seq<Byte>, after: seq<Byte>, nulls: seq<bool>, i: nat)
    requires i < |nulls| && nulls[i] && HoldsWords(before, MarkedWords(nulls, i))
    requires 8 * (i / 64) + 8 <= |before|
    requires after == before[..8 * (i / 64)] + ToLE(SetBit(Mark(nulls, i / 64, i), i % 64), 8) + before[8 * (i / 64) + 8..]
    ensures HoldsWords(after, MarkedWords(nulls, i + 1))
  {
    var off := 8 * (i / 64);
    forall w | 0 <= w < WordCount(|nulls|)
      ensures after[8 * w..8 * w + 8] == ToLE(Mark(nulls, w, i + 1), 8)
    {
      if w != i / 64 {
        assert 8 * w + 8 <= off || off + 8 <= 8 * w;
        assert after[8 * w..8 * w + 8] == before[8 * w..8 * w + 8];
        assert before[8 * w..8 * w + 8] == ToLE(MarkedWords(nulls, i)[w], 8);
      }
    }
  }

  lemma SomeNullSection(nulls: seq<bool>) returns (nsp: seq<Byte>)
    ensures IsNullSection(nsp, nulls) && |nsp| <= 24 + 8 * WordCount(|nulls|)
    ensures NullCount(nulls) == 0 ==> nsp == []
  {
    var parts := seq(WordCount(|nulls|), w requires 0 <= w => ToLE(Mark(nulls, w, |nulls|), 8));
    var bitmap := Concat(parts);
    forall w | 0 <= w < |parts| ensures 8 * w + 8 <= |bitmap| && bitmap[8 * w..8 * w + 8] == parts[w] {
      PartAt(parts, w);
      JoinedLength(parts, 8, w);
    }
    JoinedLength(parts, 8, |parts|);
    assert HoldsWords(bitmap, MarkedWords(nulls, |nulls|));
    nsp := NullSection(nulls, bitmap);
  }

  /** Reading a null section back: the count, and bit `r % 64` of word `r / 64`. */
  lemma NullSectionRoundTrip(nsp: seq<Byte>, nulls: seq<bool>)
    requires IsNullSection(nsp, nulls) && |nulls| < U32
    ensures ParseNulls(nsp).Ok? && ParseNulls(nsp).value.0 == NullCount(nulls)
    ensures forall row :: 0 <= row < |nulls| ==> (NullBitAt(ParseNulls(nsp).value.1, row) <==> nulls[row])
  {
    var bitmap :| HoldsWords(bitmap, MarkedWords(nulls, |nulls|)) && nsp == NullSection(nulls, bitmap);
    if NullCount(nulls) > 0 {
      NullHeaderRead(nulls, bitmap);
      NullHeaderParsed(nsp, WordCount(|nulls|));
      forall row | 0 <= row < |nulls| ensures NullBitAt(ParseNulls(nsp).value.1, row) <==> nulls[row] {
        WordRead(nulls, bitmap, row);
      }
    }
  }

  lemma NullSectionSize(nsp: seq<Byte>, nulls: seq<bool>)
    requires IsNullSection(nsp, nulls) && |nulls| < U32
    ensures |nsp| < U32
  {
    var bitmap :| HoldsWords(bitmap, MarkedWords(nulls, |nulls|)) && nsp == NullSection(nulls, bitmap);
  }

  lemma NullHeaderParsed(nsp: seq<Byte>, nw: nat)
    requires nw < U32 && |nsp| == 24 + 8 * nw && Field(nsp, 16, 8) == 8 * nw
    ensures ParseNulls(nsp) == Ok((Field(nsp, 0, 8), Words(nsp[24..], nw)))
  {
  }

  lemma NullHeaderRead(nulls: seq<bool>, bitmap: seq<Byte>)
    requires NullCount(nulls) > 0 && |nulls| < U32 && |bitmap| == 8 * WordCount(|nulls|)
    ensures var nsp := NullSection(nulls, bitmap);
      && |nsp| == 24 + |bitmap| && nsp[24..] == bitmap
      && Field(nsp, 0, 8) == NullCount(nulls) && Field(nsp, 16, 8) == |bitmap|
  {
    Pow256Values();
    var nw := WordCount(|nulls|);
    var a, b, c := ToLE(NullCount(nulls), 8), ToLE(nw, 8), ToLE(8 * nw, 8);
    var nsp := NullSection(nulls, bitmap);
    assert nsp == [] + a + (b + c + bitmap);
    FieldAt([], NullCount(nulls), 8, b + c + bitmap);
    assert nsp == (a + b) + c + bitmap;
    FieldAt(a + b, 8 * nw, 8, bitmap);
  }

  lemma WordRead(nulls: seq<bool>, bitmap: seq<Byte>, row: nat)
    requires HoldsWords(bitmap, MarkedWords(nulls, |nulls|)) && row < |nulls|
    ensures NullBitAt(Words(bitmap, WordCount(|nulls|)), row) <==> nulls[row]
  {
    var w := row / 64;
    assert bitmap[8 * w..8 * w + 8] == ToLE(MarkedWords(nulls, |nulls|)[w], 8);
    MarkIsWord(nulls, w, |nulls|);
    FieldOfWritten(Mark(nulls, w, |nulls|), 8, bitmap, 8 * w);
    MarkedBits(nulls, w, |nulls|, row % 64);
  }

  // ----- variable-length values -----

  function Zeros(n: nat): (s: seq<Byte>)
    ensures |s| == n
  {
    seq(n, _ => 0)
  }

  predicate IsBig(v: seq<Byte>) { |v| > 23 }

  function SlotFor(v: seq<Byte>, areaLen: nat): (slot: seq<Byte>)
    ensures |slot| == 24
  {
    if IsBig(v) then ToLE(VARLENA_BIG_MARKER, 4) + ToLE(areaLen, 4) + ToLE(|v|, 4) + Zeros(12)
    else [|v| as Byte] + v + Zeros(23 - |v|)
  }

  function Spill(v: seq<Byte>): seq<Byte> { if IsBig(v) then v else [] }

  /** The area after the first `n` values. */
  function AreaOfFirst(vs: seq<seq<Byte>>, n: nat): seq<Byte>
    requires n <= |vs|
  {
    if n == 0 then [] else AreaOfFirst(vs, n - 1) + Spill(vs[n - 1])
  }

  /** The slots of the first `n` values, each referring to the area as it was then. */
  function SlotsOfFirst(vs: seq<seq<Byte>>, n: nat): (s: seq<Byte>)
    requires n <= |vs|
    ensures |s| == 24 * n
  {
    if n == 0 then [] else SlotsOfFirst(vs, n - 1) + SlotFor(vs[n - 1], |AreaOfFirst(vs, n - 1)|)
  }

  lemma {:induction false} SlotsPrefix(vs: seq<seq<Byte>>, k: nat, n: nat)
    requires k <= n <= |vs|
    ensures SlotsOfFirst(vs, k) <= SlotsOfFirst(vs, n)
    decreases n
  {
    if k < n { SlotsPrefix(vs, k, n - 1); }
  }

  lemma {:induction false} AreaPrefix(vs: seq<seq<Byte>>, k: nat, n: nat)
    requires k <= n <= |vs|
    ensures AreaOfFirst(vs, k) <= AreaOfFirst(vs, n)
    decreases n
  {
    if k < n { AreaPrefix(vs, k, n - 1); }
  }

  /** A slot gives its value back over any area that extends the one it was made for. */
  lemma SlotRoundTrip(v: seq<Byte>, before: seq<Byte>, area: seq<Byte>)
    requires before + Spill(v) <= area && |area| < U32
    ensures SlotOk(SlotFor(v, |before|), area) && SlotString(SlotFor(v, |before|), area) == v
  {
    Pow256Values();
    var slot := SlotFor(v, |before|);
    if IsBig(v) {
      FieldOfWritten(VARLENA_BIG_MARKER, 4, slot, 0);
      FieldOfWritten(|before|, 4, slot, 4);
      FieldOfWritten(|v|, 4, slot, 8);
      assert ToLE(VARLENA_BIG_MARKER, 4)[0] == 255;
      PrefixSlice(before, v, area);
    }
  }

  lemma SlotFound(vs: seq<seq<Byte>>, row: nat)
    requires row < |vs|
    ensures SlotAt(SlotsOfFirst(vs, |vs|), row) == SlotFor(vs[row], |AreaOfFirst(vs, row)|)
  {
    SlotsPrefix(vs, row + 1, |vs|);
    PrefixSlice(SlotsOfFirst(vs, row), SlotFor(vs[row], |AreaOfFirst(vs, row)|), SlotsOfFirst(vs, |vs|));
  }

  lemma SlotsRoundTrip(vs: seq<seq<Byte>>, row: nat)
    requires row < |vs| && |AreaOfFirst(vs, |vs|)| < U32
    ensures var slot := SlotAt(SlotsOfFirst(vs, |vs|), row); var area := AreaOfFirst(vs, |vs|);
      SlotOk(slot, area) && SlotString(slot, area) == vs[row]
  {
    SlotFound(vs, row);
    AreaPrefix(vs, row + 1, |vs|);
    SlotRoundTrip(vs[row], AreaOfFirst(vs, row), AreaOfFirst(vs, |vs|));
  }

  // ----- fixed-width values -----

  lemma ConcatRow(rows: seq<seq<Byte>>, size: nat, row: nat)
    requires row < |rows| && forall i :: 0 <= i < |rows| ==> |rows[i]| == size
    ensures row * size + size <= |Concat(rows)|
    ensures RowBytes(Concat(rows), size, row) == rows[row]
  {
    PartAt(rows, row);
    JoinedLength(rows, size, row);
  }

  // ----- whole vectors -----

  /** The values given to the writer; an absent value is written as "" or 0. */
  datatype Payload =
    | Strings(strings: seq<Option<seq<Byte>>>)
    | Numbers(numbers: seq<Option<int>>)
    | RawRows(rows: seq<seq<Byte>>)
  {
    function Count(): nat
    {
      match this
      case Strings(vs) => |vs|
      case Numbers(vs) => |vs|
      case RawRows(rs) => |rs|
    }
  }

  function OrEmpty(v: Option<seq<Byte>>): seq<Byte> { if v.Some? then v.value else [] }
  function OrZero(v: Option<int>): int { if v.Some? then v.value else 0 }

  function Encoded(vs: seq<Option<seq<Byte>>>): (r: seq<seq<Byte>>)
    ensures |r| == |vs|
  {
    seq(|vs|, i requires 0 <= i < |vs| => OrEmpty(vs[i]))
  }

  function Packed(vs: seq<Option<int>>, t: NumType): (r: seq<seq<Byte>>)
    requires t.width > 0 && forall v :: v in vs ==> FitsType(t, OrZero(v))
    ensures |r| == |vs| && forall i :: 0 <= i < |r| ==> |r[i]| == t.width
  {
    seq(|vs|, i requires 0 <= i < |vs| => PackNum(t, OrZero(vs[i])))
  }

  /** What the writer accepts for a column type. */
  predicate Writable(oid: Byte, p: Payload)
  {
    match p
    case Strings(vs) => IsStringType(oid)
    case Numbers(vs) => IsIntegerType(oid) && forall v :: v in vs ==> FitsType(NumTypeOf(oid), OrZero(v))
    case RawRows(rows) => !IsStringType(oid) && !IsIntegerType(oid) && FixedSize(oid) > 0 &&
                          forall r :: r in rows ==> |r| == FixedSize(oid)
  }

  function DataOf(oid: Byte, p: Payload): seq<Byte>
    requires Writable(oid, p)
  {
    match p
    case Strings(vs) => SlotsOfFirst(Encoded(vs), |vs|)
    case Numbers(vs) => Concat(Packed(vs, NumTypeOf(oid)))
    case RawRows(rows) => Concat(rows)
  }

  function AreaOf(p: Payload): seq<Byte>
  {
    if p.Strings? then AreaOfFirst(Encoded(p.strings), |p.strings|) else []
  }

  /** The value the writer was given at a row, as a query should see it. */
  function GivenAt(oid: Byte, p: Payload, row: nat): Value
    requires row < p.Count()
  {
    match p
    case Strings(vs) => StrV(OrEmpty(vs[row]))
    case Numbers(vs) => IntV(OrZero(vs[row]) - Epoch(oid))
    case RawRows(rows) => RawV(rows[row])
  }

  function PackType(oid: Byte, size: int): (s: seq<Byte>)
    requires FitsSigned(size, 4)
    ensures |s| == 16
  {
    [oid, 0, 0, 0] + ToLE(AsUnsigned(size, 4), 4) + Zeros(8)
  }

  lemma TypeRoundTrip(oid: Byte, size: int)
    requires FitsSigned(size, 4)
    ensures ParseType(PackType(oid, size)) == MOType(oid, 0, 0, 0, size, 0, 0)
  {
    Pow256Values();
    var s := PackType(oid, size);
    ZeroLE(4);
    FieldOfWritten(AsUnsigned(size, 4), 4, s, 4);
    assert s[8..12] == ToLE(0, 4) && s[12..16] == ToLE(0, 4);
    FieldOfWritten(0, 4, s, 8);
    FieldOfWritten(0, 4, s, 12);
  }

  function ElemSize(oid: Byte): int
  {
    if IsStringType(oid) then -24 else FixedSize(oid)
  }

  /** A length-prefixed section. */
  function Prefixed(s: seq<Byte>): seq<Byte> { ToLE(|s|, 4) + s }

  function Assembled(head: seq<Byte>, rows: nat, data: seq<Byte>, area: seq<Byte>, nsp: seq<Byte>): seq<Byte>
  {
    head + ToLE(rows, 4) + Prefixed(data) + Prefixed(area) + Prefixed(nsp) + [0]
  }

  ghost predicate IsVector(bytes: seq<Byte>, oid: Byte, p: Payload, nulls: seq<bool>)
  {
    && Writable(oid, p)
    && exists nsp :: IsNullSection(nsp, nulls) &&
         bytes == Assembled([0] + PackType(oid, ElemSize(oid)), p.Count(), DataOf(oid, p), AreaOf(p), nsp)
  }

  method BuildVector(oid: Byte, p: Payload, nulls: seq<bool>) returns (bytes: seq<Byte>)
    requires Writable(oid, p) && |nulls| == p.Count()
    ensures IsVector(bytes, oid, p, nulls)
  {
    assert FitsSigned(ElemSize(oid), 4) by { Pow256Values(); }
    var dataBytes: seq<Byte>, areaBytes: seq<Byte> := [], [];
    match p {
      case Strings(vs) => dataBytes, areaBytes := JoinStrings(vs);
      case Numbers(vs) => dataBytes := JoinNumbers(vs, NumTypeOf(oid));
      case RawRows(rows) => dataBytes := JoinRows(rows);
    }
    var nspBytes := BuildNullBitmap(nulls);
    bytes := AssembleVector([0] + PackType(oid, ElemSize(oid)), p.Count(), dataBytes, areaBytes, nspBytes);
  }

  method AssembleVector(head: seq<Byte>, rows: nat, data: seq<Byte>, area: seq<Byte>, nsp: seq<Byte>)
    returns (buf: seq<Byte>)
    ensures buf == Assembled(head, rows, data, area, nsp)
  {
    buf := head;
    buf := buf + ToLE(rows, 4);
    buf := AppendSection(buf, data);
    buf := AppendSection(buf, area);
    buf := AppendSection(buf, nsp);
    buf := buf + [0];
  }

  method AppendSection(buf: seq<Byte>, s: seq<Byte>) returns (r: seq<Byte>)
    ensures r == buf + Prefixed(s)
  {
    r := buf + ToLE(|s|, 4);
    r := r + s;
  }

  method JoinStrings(vs: seq<Option<seq<Byte>>>) returns (data: seq<Byte>, area: seq<Byte>)
    ensures data == SlotsOfFirst(Encoded(vs), |vs|) && area == AreaOfFirst(Encoded(vs), |vs|)
  {
    data, area := [], [];
    ghost var all := Encoded(vs);
    for i := 0 to |vs|
      invariant data == SlotsOfFirst(all, i) && area == AreaOfFirst(all, i)
    {
      var encoded := OrEmpty(vs[i]);
      var slot := BuildSlot(encoded, |area|);
      data := data + slot;
      if |encoded| > 23 {
        area := area + encoded;
      }
    }
  }

  method BuildSlot(encoded: seq<Byte>, areaLen: nat) returns (slot: seq<Byte>)
    ensures slot == SlotFor(encoded, areaLen)
  {
    if |encoded| <= 23 {
      slot := [|encoded| as Byte] + encoded + Zeros(23 - |encoded|);
    } else {
      slot := ToLE(VARLENA_BIG_MARKER, 4) + ToLE(areaLen, 4) + ToLE(|encoded|, 4) + Zeros(12);
    }
  }

  method JoinNumbers(vs: seq<Option<int>>, t: NumType) returns (data: seq<Byte>)
    requires t.width > 0 && forall v :: v in vs ==> FitsType(t, OrZero(v))
    ensures data == Concat(Packed(vs, t))
  {
    var rows: seq<seq<Byte>> := Packed(vs, t);
    data := JoinRows(rows);
  }

  method JoinRows(rows: seq<seq<Byte>>) returns (data: seq<Byte>)
    ensures data == Concat(rows)
  {
    data := [];
    for i := 0 to |rows|
      invariant data == Joined(rows, i)
    {
      data := data + rows[i];
    }
  }

  lemma SectionRead(pre: seq<Byte>, body: seq<Byte>, post: seq<Byte>)
    requires |body| < U32
    ensures Section(pre + Prefixed(body) + post, |pre|) == Ok((body, |pre| + 4 + |body|))
  {
    Pow256Values();
    FromToLE(|body|, 4);
    var len := ToLE(|body|, 4);
    var buf := pre + (len + body) + post;
    assert buf[|pre|..|pre| + 4] == len;
    assert buf[|pre| + 4..|pre| + 4 + |body|] == body;
  }

  /** The header and the three sections of an assembled vector are read back. */
  lemma AssembledRoundTrip(head: seq<Byte>, rows: nat, data: seq<Byte>, area: seq<Byte>, nsp: seq<Byte>)
    requires |head| == 17 && rows < U32 && |data| < U32 && |area| < U32 && |nsp| < U32
    requires ParseNulls(nsp).Ok?
    ensures DecodedFrom(Assembled(head, rows, data, area, nsp)) ==
      Ok(DecodedColumn(ParseType(head[1..]), rows, data, area,
                       ParseNulls(nsp).value.1, ParseNulls(nsp).value.0, false, head[0]))
  {
    var buf := Assembled(head, rows, data, area, nsp);
    HeadRead(head, rows, data, area, nsp);
    SectionsRead(head, rows, data, area, nsp);
    var p1 := 25 + |data|;
    var p2 := p1 + 4 + |area|;
    var p3 := p2 + 4 + |nsp|;
    assert Section(buf, 21) == Ok((data, p1));
    assert Section(buf, p1) == Ok((area, p2));
    assert Section(buf, p2) == Ok((nsp, p3));
  }

  lemma HeadRead(head: seq<Byte>, rows: nat, data: seq<Byte>, area: seq<Byte>, nsp: seq<Byte>)
    requires |head| == 17 && rows < U32
    ensures var buf := Assembled(head, rows, data, area, nsp);
      && |buf| == 34 + |data| + |area| + |nsp|
      && Field(buf, 17, 4) == rows && buf[1..17] == head[1..] && buf[0] == head[0] && buf[|buf| - 1] == 0
  {
    Pow256Values();
    var rest := Prefixed(data) + Prefixed(area) + Prefixed(nsp) + [0];
    assert Assembled(head, rows, data, area, nsp) == head + ToLE(rows, 4) + rest;
    FieldAt(head, rows, 4, rest);
  }

  lemma SectionsRead(head: seq<Byte>, rows: nat, data: seq<Byte>, area: seq<Byte>, nsp: seq<Byte>)
    requires |head| == 17 && |data| < U32 && |area| < U32 && |nsp| < U32
    ensures var buf := Assembled(head, rows, data, area, nsp);
      && Section(buf, 21) == Ok((data, 25 + |data|))
      && Section(buf, 25 + |data|) == Ok((area, 29 + |data| + |area|))
      && Section(buf, 29 + |data| + |area|) == Ok((nsp, 33 + |data| + |area| + |nsp|))
  {
    var h, d, a, n := head + ToLE(rows, 4), Prefixed(data), Prefixed(area), Prefixed(nsp);
    SectionRead(h + d + a, nsp, [0]);
    Assoc(h + d + a, n, [0]);
    SectionRead(h + d, area, n + [0]);
    Assoc(h + d, a, n + [0]);
    SectionRead(h, data, a + (n + [0]));
  }

  /** The column the reader should recover. */
  ghost predicate Recovers(col: DecodedColumn, oid: Byte, p: Payload, nulls: seq<bool>)
  {
    && col.mtype == MOType(oid, 0, 0, 0, ElemSize(oid), 0, 0)
    && col.vecClass == 0
    && col.rowCount == p.Count() == |nulls|
    && col.nullCount == NullCount(nulls)
    && forall row :: 0 <= row < |nulls| ==>
         RowOk(col, row) && CellAt(col, row) == if nulls[row] then NullV else GivenAt(oid, p, row)
  }

  predicate SizesFit(oid: Byte, p: Payload)
    requires Writable(oid, p)
  {
    p.Count() < U32 && |DataOf(oid, p)| < U32 && |AreaOf(p)| < U32
  }

  lemma DataRoundTrip(oid: Byte, p: Payload, col: DecodedColumn, row: nat)
    requires Writable(oid, p) && SizesFit(oid, p) && row < p.Count() == col.rowCount
    requires col.mtype.oid == oid && col.data == DataOf(oid, p) && col.area == AreaOf(p)
    ensures RowOk(col, row) && DatumAt(col, row) == GivenAt(oid, p, row)
  {
    match p
    case Strings(vs) =>
      SlotsRoundTrip(Encoded(vs), row);
    case Numbers(vs) =>
      var t := NumTypeOf(oid);
      ConcatRow(Packed(vs, t), t.width, row);
      assert vs[row] in vs;
      ReadOfPack(t, OrZero(vs[row]), PackNum(t, OrZero(vs[row])));
    case RawRows(rows) =>
      ConcatRow(rows, FixedSize(oid), row);
  }

  /** Decoding undoes writing: every row decodes to the value it was given, and is
      null exactly when it was written as null. */
  lemma VectorRoundTrip(bytes: seq<Byte>, oid: Byte, p: Payload, nulls: seq<bool>)
    requires IsVector(bytes, oid, p, nulls) && |nulls| == p.Count() && SizesFit(oid, p)
    ensures DecodedFrom(bytes).Ok? && Recovers(DecodedFrom(bytes).value, oid, p, nulls)
  {
    Pow256Values();
    var nsp :| IsNullSection(nsp, nulls) &&
      bytes == Assembled([0] + PackType(oid, ElemSize(oid)), p.Count(), DataOf(oid, p), AreaOf(p), nsp);
    NullSectionRoundTrip(nsp, nulls);
    NullSectionSize(nsp, nulls);
    var head := [0] + PackType(oid, ElemSize(oid));
    AssembledRoundTrip(head, p.Count(), DataOf(oid, p), AreaOf(p), nsp);
    assert head[1..] == PackType(oid, ElemSize(oid));
    TypeRoundTrip(oid, ElemSize(oid));
    var col := DecodedFrom(bytes).value;
    forall row | 0 <= row < |nulls|
      ensures RowOk(col, row) && CellAt(col, row) == if nulls[row] then NullV else GivenAt(oid, p, row)
    {
      DataRoundTrip(oid, p, col, row);
    }
  }
}
