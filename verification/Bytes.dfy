/** Byte strings: little-endian fields, two's complement, single-bit access and
    the byte-wise order that `memcmp` induces. */
module Bytes {

  newtype Byte = b: int | 0 <= b < 256

  datatype Option<+T> = None | Some(value: T)

  datatype Failure = TooSmall | BadMagic | ShortRead | OutOfRange | BadEntryType | Malformed

  datatype Result<+T> = Ok(value: T) | Err(failure: Failure) {
    predicate IsFailure() { Err? }
    function PropagateFailure<U>(): Result<U> requires Err? { Err(failure) }
    function Extract(): T requires Ok? { value }
  }

  const U16: nat := 0x1_0000
  const U32: nat := 0x1_0000_0000

  function Min(a: nat, b: nat): nat { if a < b then a else b }

  // ----- little-endian integers -----

  function Pow256(k: nat): (p: nat)
    ensures p >= 1
  {
    if k == 0 then 1 else 256 * Pow256(k - 1)
  }

  lemma Pow256Values()
    ensures Pow256(1) == 256 && Pow256(2) == U16 && Pow256(4) == U32 && Pow256(8) == 0x1_0000_0000_0000_0000
  {
    assert Pow256(3) == 256 * Pow256(2);
    assert Pow256(5) == 256 * Pow256(4);
    assert Pow256(6) == 256 * Pow256(5);
    assert Pow256(7) == 256 * Pow256(6);
  }

  function Digit(n: nat, i: nat): Byte
  {
    if i == 0 then (n % 256) as Byte else Digit(n / 256, i - 1)
  }

  function ToLE(n: nat, k: nat): (s: seq<Byte>)
    ensures |s| == k
  {
    seq(k, i requires i >= 0 => Digit(n, i))
  }

  function FromLE(s: seq<Byte>): nat
  {
    if s == [] then 0 else s[0] as nat + 256 * FromLE(s[1..])
  }

  /** A field that fits its width is read back unchanged. */
  lemma {:induction false} FromToLE(n: nat, k: nat)
    requires n < Pow256(k)
    ensures FromLE(ToLE(n, k)) == n
  {
    if k > 0 {
      FromToLE(n / 256, k - 1);
      assert ToLE(n, k)[1..] == ToLE(n / 256, k - 1);
    }
  }

  /** Every byte string is the encoding of the number it denotes. */
  lemma {:induction false} ToFromLE(s: seq<Byte>)
    ensures FromLE(s) < Pow256(|s|) && ToLE(FromLE(s), |s|) == s
  {
    if s != [] {
      var n, rest := FromLE(s), s[1..];
      ToFromLE(rest);
      assert n / 256 == FromLE(rest);
      forall i | 0 <= i < |s| ensures Digit(n, i) == s[i] {
        if i > 0 { assert Digit(n, i) == ToLE(FromLE(rest), |rest|)[i - 1]; }
      }
    }
  }

  /** The field of `k` bytes at `off`. */
  function Field(s: seq<Byte>, off: nat, k: nat): nat
    requires off + k <= |s|
  {
    FromLE(s[off..off + k])
  }

  lemma FieldOfWritten(n: nat, k: nat, s: seq<Byte>, off: nat)
    requires n < Pow256(k) && off + k <= |s| && s[off..off + k] == ToLE(n, k)
    ensures Field(s, off, k) == n
  {
    FromToLE(n, k);
  }

  lemma SliceMiddle<T>(a: seq<T>, b: seq<T>, c: seq<T>)
    ensures (a + b + c)[|a|..|a| + |b|] == b
  {
  }

  lemma SliceInside<T>(s: seq<T>, from: nat, until: nat, local: nat, length: nat)
    requires from <= until <= |s| && local + length <= until - from
    ensures s[from..until][local..local + length] == s[from + local..from + local + length]
  {
    var a, b := s[from..until][local..local + length], s[from + local..from + local + length];
    forall i | 0 <= i < length ensures a[i] == b[i] {
      assert a[i] == s[from..until][local + i] == s[from + (local + i)];
    }
  }

  lemma SliceBehind<T>(a: seq<T>, b: seq<T>, c: seq<T>, i: nat, j: nat)
    requires i <= j <= |b|
    ensures (a + b + c)[|a| + i..|a| + j] == b[i..j]
  {
    var s := a + b + c;
    forall k | i <= k < j ensures s[|a| + i..|a| + j][k - i] == b[k] {
      assert s[|a| + i..|a| + j][k - i] == s[|a| + k];
    }
  }

  /** `s` occurs in `all` at `start`. */
  predicate IsAt<T(==)>(all: seq<T>, start: nat, s: seq<T>)
  {
    start + |s| <= |all| && all[start..start + |s|] == s
  }

  lemma PrefixSlice<T>(a: seq<T>, s: seq<T>, all: seq<T>)
    requires a + s <= all
    ensures IsAt(all, |a|, s)
  {
  }

  lemma AtNested<T>(all: seq<T>, start: nat, mine: seq<T>, from: nat, s: seq<T>)
    requires IsAt(all, start, mine) && IsAt(mine, from, s)
    ensures IsAt(all, start + from, s)
  {
    SliceInside(all, start, start + |mine|, from, |s|);
  }

  lemma AtBehind<T>(pre: seq<T>, all: seq<T>, post: seq<T>, start: nat, s: seq<T>)
    requires IsAt(all, start, s)
    ensures IsAt(pre + all + post, |pre| + start, s)
  {
    SliceBehind(pre, all, post, start, start + |s|);
  }

  lemma PairParts<T>(a: seq<T>, b: seq<T>)
    ensures IsAt(a + b, 0, a) && IsAt(a + b, |a|, b)
  {
  }

  /** A number found at an offset is the field there. */
  lemma FieldFound(all: seq<Byte>, start: nat, n: nat, k: nat)
    requires IsAt(all, start, ToLE(n, k)) && n < Pow256(k)
    ensures start + k <= |all| && Field(all, start, k) == n
  {
    FromToLE(n, k);
  }

  /** The first `n` strings of a list, back to back. */
  function Joined<T>(parts: seq<seq<T>>, n: nat): seq<T>
    requires n <= |parts|
  {
    if n == 0 then [] else Joined(parts, n - 1) + parts[n - 1]
  }

  function Concat<T>(parts: seq<seq<T>>): seq<T> { Joined(parts, |parts|) }

  lemma {:induction false} JoinedPrefix<T>(parts: seq<seq<T>>, k: nat, n: nat)
    requires k <= n <= |parts|
    ensures Joined(parts, k) <= Joined(parts, n)
    decreases n
  {
    if k < n { JoinedPrefix(parts, k, n - 1); }
  }

  /** Part `k` is found after the parts before it. */
  lemma PartAt<T>(parts: seq<seq<T>>, k: nat)
    requires k < |parts|
    ensures IsAt(Concat(parts), |Joined(parts, k)|, parts[k])
  {
    JoinedPrefix(parts, k + 1, |parts|);
    PrefixSlice(Joined(parts, k), parts[k], Concat(parts));
  }

  /** Parts of equal size are found at multiples of it. */
  lemma {:induction false} JoinedLength<T>(parts: seq<seq<T>>, size: nat, n: nat)
    requires n <= |parts| && forall i :: 0 <= i < |parts| ==> |parts[i]| == size
    ensures |Joined(parts, n)| == n * size
  {
    if n > 0 {
      JoinedLength(parts, size, n - 1);
      assert n * size == (n - 1) * size + size;
    }
  }

  lemma Assoc<T>(a: seq<T>, b: seq<T>, c: seq<T>)
    ensures (a + b) + c == a + (b + c)
  {
  }

  lemma MultisetOfBoth<T>(a: seq<T>, b: seq<T>)
    ensures multiset(a + b) == multiset(a) + multiset(b)
  {
  }

  /** The head of one arrangement, found in the other. */
  lemma FindHead<T>(a: seq<T>, b: seq<T>) returns (i: nat)
    requires a != [] && multiset(a) == multiset(b)
    ensures i < |b| && b == b[..i] + [a[0]] + b[i + 1..]
    ensures multiset(a[1..]) == multiset(b[..i] + b[i + 1..])
    ensures multiset([a[0]] + (b[..i] + b[i + 1..])) == multiset(b)
    ensures [] + [a[0]] + a[1..] == a && [] + a[1..] == a[1..]
  {
    assert a[0] in multiset(b);
    i :| 0 <= i < |b| && b[i] == a[0];
    assert a == [a[0]] + a[1..];
    assert b == b[..i] + [a[0]] + b[i + 1..];
    RestPermuted(a[0], a[1..], b[..i], b[i + 1..]);
    assert multiset([a[0]] + (b[..i] + b[i + 1..])) == multiset([a[0]]) + multiset(b[..i] + b[i + 1..]);
    assert multiset([a[0]] + a[1..]) == multiset([a[0]]) + multiset(a[1..]);
  }

  lemma RestPermuted<T>(x: T, rest: seq<T>, pre: seq<T>, post: seq<T>)
    requires multiset([x] + rest) == multiset(pre + [x] + post)
    ensures multiset(rest) == multiset(pre + post)
  {
    assert multiset([x] + rest) == multiset([x]) + multiset(rest);
    assert multiset(pre + [x] + post) == multiset(pre) + multiset([x]) + multiset(post);
    assert multiset(pre + post) == multiset(pre) + multiset(post);
    assert multiset(rest) == multiset([x] + rest) - multiset([x]);
  }

  /** A field is read back from wherever it was written. */
  lemma FieldAt(pre: seq<Byte>, n: nat, k: nat, post: seq<Byte>)
    requires n < Pow256(k)
    ensures Field(pre + ToLE(n, k) + post, |pre|, k) == n
  {
    SliceMiddle(pre, ToLE(n, k), post);
    FromToLE(n, k);
  }

  /** Two's complement reading of an unsigned `k`-byte number. */
  function AsSigned(n: nat, k: nat): int
    requires k > 0
  {
    if n < Pow256(k) / 2 then n else n - Pow256(k)
  }

  predicate FitsSigned(v: int, k: nat)
    requires k > 0
  {
    -(Pow256(k) / 2) <= v < Pow256(k) / 2
  }

  /** The unsigned number with the same `k` bytes as `v`. */
  function AsUnsigned(v: int, k: nat): (n: nat)
    requires k > 0 && FitsSigned(v, k)
    ensures n < Pow256(k) && AsSigned(n, k) == v
  {
    assert Pow256(k) == 256 * Pow256(k - 1);
    if v >= 0 then v else v + Pow256(k)
  }

  // ----- single bits of a word -----

  predicate BitSet(w: nat, k: nat)
  {
    if k == 0 then w % 2 == 1 else BitSet(w / 2, k - 1)
  }

  /** `w | (1 << k)` */
  function SetBit(w: nat, k: nat): nat
  {
    if k == 0 then 2 * (w / 2) + 1 else w % 2 + 2 * SetBit(w / 2, k - 1)
  }

  function Pow2(n: nat): nat { if n == 0 then 1 else 2 * Pow2(n - 1) }

  lemma {:induction false} SetBitSets(w: nat, k: nat, j: nat)
    ensures BitSet(SetBit(w, k), j) <==> j == k || BitSet(w, j)
  {
    if k > 0 && j > 0 {
      SetBitSets(w / 2, k - 1, j - 1);
      assert SetBit(w, k) / 2 == SetBit(w / 2, k - 1);
    } else if k == 0 && j > 0 {
      assert SetBit(w, 0) / 2 == w / 2;
    }
  }

  lemma {:induction false} SetBitBound(w: nat, k: nat, n: nat)
    requires w < Pow2(n) && k < n
    ensures SetBit(w, k) < Pow2(n)
  {
    var half := Pow2(n - 1);
    assert Pow2(n) == 2 * half;
    Halved(w, half, w % 2);
    if k > 0 {
      SetBitBound(w / 2, k - 1, n - 1);
      Halved(2 * SetBit(w / 2, k - 1), half, w % 2);
      assert SetBit(w, k) == w % 2 + 2 * SetBit(w / 2, k - 1);
    }
    hide *;
  }

  lemma Halved(w: nat, half: nat, bit: nat)
    requires w < 2 * half && bit < 2
    ensures w / 2 < half && 2 * (w / 2) + 1 < 2 * half && 2 * (w / 2) + bit < 2 * half
  {
  }

  lemma Pow2Of64()
    ensures Pow2(64) == Pow256(8)
  {
    Pow2IsPow256(8);
  }

  lemma {:induction false} Pow2IsPow256(k: nat)
    ensures Pow2(8 * k) == Pow256(k)
  {
    if k > 0 {
      Pow2IsPow256(k - 1);
      Pow2Add(8 * (k - 1));
    }
  }

  lemma Pow2Add(n: nat)
    ensures Pow2(n + 8) == 256 * Pow2(n)
  {
    assert Pow2(n + 4) == 2 * Pow2(n + 3) == 4 * Pow2(n + 2) == 8 * Pow2(n + 1) == 16 * Pow2(n);
    assert Pow2(n + 8) == 2 * Pow2(n + 7) == 4 * Pow2(n + 6) == 8 * Pow2(n + 5) == 16 * Pow2(n + 4);
  }

  lemma {:induction false} NoBitOfZero(k: nat)
    ensures !BitSet(0, k)
  {
    if k > 0 { NoBitOfZero(k - 1); }
  }

  // ----- memcmp and the order it induces -----

  /** `memcmp(a, b, n)`: the sign says how the first differing byte compares. */
  function MemCmp(a: seq<Byte>, b: seq<Byte>, n: nat): int
    requires n <= |a| && n <= |b|
    decreases n
  {
    if n == 0 then 0
    else if a[0] != b[0] then a[0] as int - b[0] as int
    else MemCmp(a[1..], b[1..], n - 1)
  }

  /** Lexicographic order on byte strings: -1, 0 or 1. */
  function Lex(a: seq<Byte>, b: seq<Byte>): (c: int)
    ensures -1 <= c <= 1
    ensures c == 0 <==> a == b
  {
    if a == [] then (if b == [] then 0 else -1)
    else if b == [] then 1
    else if a[0] != b[0] then (if a[0] < b[0] then -1 else 1)
    else
      assert a == [a[0]] + a[1..] && b == [b[0]] + b[1..];
      Lex(a[1..], b[1..])
  }

  lemma {:induction false} LexAntisymmetric(a: seq<Byte>, b: seq<Byte>)
    ensures Lex(a, b) == -Lex(b, a)
  {
    if a != [] && b != [] && a[0] == b[0] { LexAntisymmetric(a[1..], b[1..]); }
  }

  lemma {:induction false} LexTransitive(a: seq<Byte>, b: seq<Byte>, c: seq<Byte>)
    requires Lex(a, b) <= 0 && Lex(b, c) <= 0
    ensures Lex(a, c) <= 0
    ensures Lex(a, b) < 0 || Lex(b, c) < 0 ==> Lex(a, c) < 0
  {
    if a != [] && b != [] && c != [] && a[0] == b[0] == c[0] {
      LexTransitive(a[1..], b[1..], c[1..]);
    }
  }

  lemma {:induction false} PrefixIsSmaller(a: seq<Byte>, b: seq<Byte>)
    requires a <= b
    ensures Lex(a, b) <= 0
  {
    if a != [] { PrefixIsSmaller(a[1..], b[1..]); }
  }

  /** How `memcmp` over the shorter length and the lengths decide the order. */
  lemma {:induction false} MemCmpDecidesLex(a: seq<Byte>, b: seq<Byte>)
    ensures var c := MemCmp(a, b, Min(|a|, |b|));
      && (c == 0 <==> a <= b || b <= a)
      && (Lex(a, b) < 0 <==> c < 0 || (c == 0 && |a| < |b|))
      && (Lex(a, b) > 0 <==> c > 0 || (c == 0 && |a| > |b|))
  {
    if a != [] && b != [] && a[0] == b[0] {
      MemCmpDecidesLex(a[1..], b[1..]);
      assert a == [a[0]] + a[1..] && b == [b[0]] + b[1..];
    }
  }

  /** `memcmp` reads only the first `n` bytes. */
  lemma {:induction false} MemCmpReadsPrefix(a: seq<Byte>, b: seq<Byte>, n: nat, m: nat)
    requires n <= m <= |a| && n <= |b|
    ensures MemCmp(a, b, n) == MemCmp(a[..m], b, n)
  {
    if n > 0 {
      assert a[..m][1..] == a[1..][..m - 1];
      if a[0] == b[0] { MemCmpReadsPrefix(a[1..], b[1..], n - 1, m - 1); }
    }
  }

  /** A string that already differs from `key` keeps its side however it is extended. */
  lemma {:induction false} ExtensionKeepsSide(a: seq<Byte>, longer: seq<Byte>, key: seq<Byte>)
    requires a <= longer && !(a <= key) && !(key <= a)
    ensures Lex(longer, key) == Lex(a, key) != 0
  {
    if a[0] == key[0] {
      assert a == [a[0]] + a[1..] && key == [key[0]] + key[1..];
      ExtensionKeepsSide(a[1..], longer[1..], key[1..]);
    }
  }
}
