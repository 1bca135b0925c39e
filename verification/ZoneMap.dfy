/** The 64-byte zone map of one column in one block, and the tests that decide
    from it whether a block may be skipped. */
module ZoneMaps {
  import opened Bytes

  type ZoneMap = z: seq<Byte> | |z| == 64 witness seq(64, _ => 0)

  datatype FilterOp =
    | Equal | NotEqual | GreaterThan | GreaterOrEqual | LessThan | LessOrEqual
    | IsNull | IsNotNull | InSet

  predicate IsComparison(op: FilterOp) { !op.IsNull? && !op.IsNotNull? && !op.InSet? }

  /** Does `a op b` hold, where the sign of `c` says how `a` compares with `b`? */
  predicate Holds(op: FilterOp, c: int)
  {
    match op
    case Equal => c == 0
    case NotEqual => c != 0
    case GreaterThan => c > 0
    case GreaterOrEqual => c >= 0
    case LessThan => c < 0
    case LessOrEqual => c <= 0
    case _ => true
  }

  /** A fixed-width numeric C++ type. */
  datatype NumType = NumType(width: nat, signed: bool)

  function ReadNum(t: NumType, s: seq<Byte>): int
    requires 0 < t.width <= |s|
  {
    var n := FromLE(s[..t.width]);
    if t.signed then AsSigned(n, t.width) else n
  }

  // ----- accessors -----

  predicate IsInited(z: ZoneMap) { z[62] >= 0x80 }
  function MinLen(z: ZoneMap): nat { (z[30] % 32) as nat }
  function MaxLen(z: ZoneMap): nat { (z[61] % 32) as nat }
  predicate MaxTruncated(z: ZoneMap) { z[61] >= 0x80 }

  function MinString(z: ZoneMap): seq<Byte> { z[..MinLen(z)] }
  function MaxString(z: ZoneMap): seq<Byte> { z[31..31 + MaxLen(z)] }

  function GetMin(z: ZoneMap, t: NumType): int
    requires 0 < t.width <= 30
  {
    ReadNum(t, z)
  }

  function GetMax(z: ZoneMap, t: NumType): int
    requires 0 < t.width <= 30
  {
    ReadNum(t, z[31..])
  }

  // ----- fixed-width types -----

  predicate CheckFixed(z: ZoneMap, op: FilterOp, t: NumType, key: int)
    requires 0 < t.width <= 30
  {
    if !IsInited(z) then true
    else
      match op
      case Equal => GetMin(z, t) <= key <= GetMax(z, t)
      case NotEqual => !(GetMin(z, t) == key && GetMax(z, t) == key)
      case GreaterThan => GetMax(z, t) > key
      case GreaterOrEqual => GetMax(z, t) >= key
      case LessThan => GetMin(z, t) < key
      case LessOrEqual => GetMin(z, t) <= key
      case _ => true
  }

  predicate InRange(z: ZoneMap, t: NumType, v: int)
    requires 0 < t.width <= 30
  {
    GetMin(z, t) <= v <= GetMax(z, t)
  }

  /** The test keeps a block exactly when its range admits a matching value: it
      never skips a matching block, and no sound test skips more. */
  lemma CheckFixedExact(z: ZoneMap, op: FilterOp, t: NumType, key: int)
    requires IsInited(z) && IsComparison(op) && 0 < t.width <= 30
    requires GetMin(z, t) <= GetMax(z, t)
    ensures CheckFixed(z, op, t, key) <==> exists v :: InRange(z, t, v) && Holds(op, v - key)
  {
    var lo, hi := GetMin(z, t), GetMax(z, t);
    assert InRange(z, t, lo) && InRange(z, t, hi);
    if lo <= key <= hi { assert InRange(z, t, key); }
  }

  // ----- strings -----

  predicate AnyGE(z: ZoneMap, key: seq<Byte>)
  {
    var cmp := MemCmp(z[31..], key, Min(MaxLen(z), |key|));
    if cmp != 0 then cmp > 0 else MaxTruncated(z) || MaxLen(z) >= |key|
  }

  predicate AnyGT(z: ZoneMap, key: seq<Byte>)
  {
    var cmp := MemCmp(z[31..], key, Min(MaxLen(z), |key|));
    if cmp != 0 then cmp > 0 else MaxTruncated(z) || MaxLen(z) > |key|
  }

  predicate AnyLE(z: ZoneMap, key: seq<Byte>)
  {
    var cmp := MemCmp(z, key, Min(MinLen(z), |key|));
    if cmp != 0 then cmp < 0 else MinLen(z) <= |key|
  }

  predicate AnyLT(z: ZoneMap, key: seq<Byte>)
  {
    var cmp := MemCmp(z, key, Min(MinLen(z), |key|));
    if cmp != 0 then cmp < 0 else MinLen(z) < |key|
  }

  predicate CheckString(z: ZoneMap, op: FilterOp, key: seq<Byte>)
  {
    if !IsInited(z) then true
    else
      match op
      case Equal => AnyGE(z, key) && AnyLE(z, key)
      case NotEqual =>
        if MinLen(z) != MaxLen(z) || MinLen(z) != |key| then true
        else MemCmp(z, key, |key|) != 0 || MemCmp(z[31..], key, |key|) != 0
      case GreaterThan => AnyGT(z, key)
      case GreaterOrEqual => AnyGE(z, key)
      case LessThan => AnyLT(z, key)
      case LessOrEqual => AnyLE(z, key)
      case _ => true
  }

  /** `lo` and `hi` may be a block's true bounds: the stored minimum is a prefix of
      `lo`; the stored maximum is `hi`, or a prefix of it when flagged truncated. */
  predicate Bounds(z: ZoneMap, lo: seq<Byte>, hi: seq<Byte>)
  {
    MinString(z) <= lo && (MaxString(z) == hi || (MaxTruncated(z) && MaxString(z) <= hi))
  }

  predicate Between(lo: seq<Byte>, v: seq<Byte>, hi: seq<Byte>)
  {
    Lex(lo, v) <= 0 && Lex(v, hi) <= 0
  }

  /** A block described by `z` may contain `v`. */
  ghost predicate Admits(z: ZoneMap, v: seq<Byte>)
  {
    exists lo, hi :: Bounds(z, lo, hi) && Between(lo, v, hi)
  }

  lemma AnyLEIsOrder(z: ZoneMap, key: seq<Byte>)
    ensures AnyLE(z, key) <==> Lex(MinString(z), key) <= 0
    ensures AnyLT(z, key) <==> Lex(MinString(z), key) < 0
  {
    MemCmpReadsPrefix(z, key, Min(MinLen(z), |key|), MinLen(z));
    MemCmpDecidesLex(MinString(z), key);
  }

  /** With an exact maximum the tests compare it; with a truncated one they also
      keep every key that extends it. */
  lemma AnyGEIsOrder(z: ZoneMap, key: seq<Byte>)
    ensures AnyGE(z, key) <==> Lex(MaxString(z), key) >= 0 || (MaxTruncated(z) && MaxString(z) <= key)
    ensures AnyGT(z, key) <==> Lex(MaxString(z), key) > 0 || (MaxTruncated(z) && MaxString(z) <= key)
  {
    assert z[31..][..MaxLen(z)] == MaxString(z);
    MemCmpReadsPrefix(z[31..], key, Min(MaxLen(z), |key|), MaxLen(z));
    MemCmpDecidesLex(MaxString(z), key);
  }

  /** The guard under which a NOT_EQUAL test skips: both stored bounds are the key. */
  predicate BothBoundsAre(z: ZoneMap, key: seq<Byte>)
  {
    MinString(z) == key && MaxString(z) == key
  }

  lemma NotEqualSkipsOnGuard(z: ZoneMap, key: seq<Byte>)
    requires IsInited(z)
    ensures !CheckString(z, NotEqual, key) <==> BothBoundsAre(z, key)
  {
    if MinLen(z) == MaxLen(z) == |key| {
      MemCmpReadsPrefix(z, key, |key|, |key|);
      assert z[31..][..|key|] == MaxString(z);
      MemCmpReadsPrefix(z[31..], key, |key|, |key|);
      MemCmpDecidesLex(MinString(z), key);
      MemCmpDecidesLex(MaxString(z), key);
    }
  }

  /** An admitted string is no smaller than the stored minimum and no greater than
      the stored maximum, a truncated maximum also covering its own extensions. */
  lemma AdmittedIsWithin(z: ZoneMap, v: seq<Byte>, key: seq<Byte>)
    requires Admits(z, v)
    ensures Lex(MinString(z), v) <= 0
    ensures !MaxTruncated(z) ==> Lex(v, MaxString(z)) <= 0
    ensures Lex(v, key) >= 0 ==> Lex(MaxString(z), key) >= 0 || (MaxTruncated(z) && MaxString(z) <= key)
    ensures Lex(v, key) > 0 ==> Lex(MaxString(z), key) > 0 || (MaxTruncated(z) && MaxString(z) <= key)
  {
    var lo, hi :| Bounds(z, lo, hi) && Between(lo, v, hi);
    PrefixIsSmaller(MinString(z), lo);
    LexTransitive(MinString(z), lo, v);
    var max := MaxString(z);
    LexAntisymmetric(v, key);
    if Lex(v, key) >= 0 {
      LexTransitive(key, v, hi);
      LexAntisymmetric(key, hi);
      LexAntisymmetric(key, max);
      if max != hi && !(max <= key) {
        if key <= max {
          PrefixIsSmaller(key, max);
          assert Lex(key, max) != 0;
        } else {
          ExtensionKeepsSide(max, hi, key);
        }
      }
    }
  }

  /** Soundness of string pruning, with its exact limit: every admitted string that
      passes the row comparison keeps the block, except when a NOT_EQUAL test meets
      its skip guard under a truncated maximum. */
  lemma StringPruneSound(z: ZoneMap, op: FilterOp, key: seq<Byte>)
    ensures (forall v | Admits(z, v) && Holds(op, Lex(v, key)) :: CheckString(z, op, key))
       <==> !(IsInited(z) && op == NotEqual && MaxTruncated(z) && BothBoundsAre(z, key))
  {
    if IsInited(z) && op == NotEqual && MaxTruncated(z) && BothBoundsAre(z, key) {
      TruncatedNotEqualUnsound(z, key);
    } else {
      forall v | Admits(z, v) && Holds(op, Lex(v, key)) ensures CheckString(z, op, key) {
        StringKept(z, op, key, v);
      }
    }
  }

  /** The family that fails: the key with one byte appended is admitted and differs
      from the key, yet the block is skipped. */
  lemma TruncatedNotEqualUnsound(z: ZoneMap, key: seq<Byte>)
    requires IsInited(z) && MaxTruncated(z) && BothBoundsAre(z, key)
    ensures Admits(z, key + [0]) && Holds(NotEqual, Lex(key + [0], key)) && !CheckString(z, NotEqual, key)
  {
    var v := key + [0];
    PrefixIsSmaller(key, v);
    assert Bounds(z, key, v) && Between(key, v, v);
    NotEqualSkipsOnGuard(z, key);
  }

  /** A zone map of minimum "a" and a maximum truncated to "a". */
  function TruncatedToA(): ZoneMap
  {
    [97] + seq(29, _ => 0) + [1, 97] + seq(29, _ => 0) + [0x81, 0x80, 61]
  }

  /** Under it `<> 'a'` skips a block that may hold "a" followed by a zero byte. */
  lemma NotEqualSkipsLonger()
    ensures Admits(TruncatedToA(), [97, 0]) && Holds(NotEqual, Lex([97, 0], [97])) && !CheckString(TruncatedToA(), NotEqual, [97])
  {
    var z := TruncatedToA();
    assert MinString(z) == [97] && MaxString(z) == [97];
    assert [97] + [0] == [97, 0];
    TruncatedNotEqualUnsound(z, [97]);
  }

  lemma StringKept(z: ZoneMap, op: FilterOp, key: seq<Byte>, v: seq<Byte>)
    requires Admits(z, v) && Holds(op, Lex(v, key))
    requires !(IsInited(z) && op == NotEqual && MaxTruncated(z) && BothBoundsAre(z, key))
    ensures CheckString(z, op, key)
  {
    AdmittedIsWithin(z, v, key);
    AnyGEIsOrder(z, key);
    AnyLEIsOrder(z, key);
    if Lex(v, key) <= 0 { LexTransitive(MinString(z), v, key); }
    if IsInited(z) && op == NotEqual {
      NotEqualSkipsOnGuard(z, key);
      if BothBoundsAre(z, key) { LexAntisymmetric(key, v); }
    }
  }

  /** The converse: a kept block's zone map always admits some matching string, so
      the test skips every block it soundly can. */
  lemma StringPruneTight(z: ZoneMap, op: FilterOp, key: seq<Byte>, v0: seq<Byte>)
    requires IsInited(z) && IsComparison(op) && Admits(z, v0) && CheckString(z, op, key)
    ensures exists v :: Admits(z, v) && Holds(op, Lex(v, key))
  {
    var lo0, hi :| Bounds(z, lo0, hi) && Between(lo0, v0, hi);
    var lo := MinString(z);
    AdmittedIsWithin(z, v0, key);
    AnyGEIsOrder(z, key);
    AnyLEIsOrder(z, key);
    AdmitsEnds(z, v0, hi);
    if op.Equal? {
      KeyAdmitted(z, key);
    } else if op.LessThan? || op.LessOrEqual? {
      assert Admits(z, lo);
    } else if op.NotEqual? {
      NotEqualSkipsOnGuard(z, key);
      if lo == key {
        if MaxTruncated(z) { LargeAdmitted(z, key, v0); }
        else { assert Admits(z, hi); }
      } else {
        assert Admits(z, lo);
      }
    } else {
      LargeAdmitted(z, key, v0);
    }
  }

  lemma AdmitsEnds(z: ZoneMap, v0: seq<Byte>, hi: seq<Byte>)
    requires Bounds(z, MinString(z), hi) && Lex(MinString(z), v0) <= 0 && Lex(v0, hi) <= 0
    ensures Admits(z, MinString(z)) && Admits(z, hi)
  {
    LexTransitive(MinString(z), v0, hi);
    assert Bounds(z, MinString(z), hi) && Between(MinString(z), MinString(z), hi);
    assert Between(MinString(z), hi, hi);
  }

  lemma KeyAdmitted(z: ZoneMap, key: seq<Byte>)
    requires AnyGE(z, key) && AnyLE(z, key)
    ensures Admits(z, key)
  {
    AnyGEIsOrder(z, key);
    AnyLEIsOrder(z, key);
    var max := MaxString(z);
    LexAntisymmetric(max, key);
    var hi := if Lex(max, key) >= 0 then max else key;
    assert Bounds(z, MinString(z), hi) && Between(MinString(z), key, hi);
  }

  /** Whenever the upper tests keep a block it admits a string that satisfies them. */
  lemma LargeAdmitted(z: ZoneMap, key: seq<Byte>, v0: seq<Byte>)
    requires Admits(z, v0)
    ensures AnyGT(z, key) ==> exists v :: Admits(z, v) && Lex(v, key) > 0
    ensures AnyGE(z, key) ==> exists v :: Admits(z, v) && Lex(v, key) >= 0
  {
    var lo, hi :| Bounds(z, lo, hi) && Between(lo, v0, hi);
    var min, max, v := MinString(z), MaxString(z), key + [0];
    AnyGEIsOrder(z, key);
    AdmittedIsWithin(z, v0, key);
    AdmitsEnds(z, v0, hi);
    PrefixIsSmaller(max, hi);
    LexAntisymmetric(hi, key);
    if Lex(hi, key) <= 0 {
      LexTransitive(max, hi, key);
      if MaxTruncated(z) && max <= key {
        PrefixIsSmaller(key, v);
        LexTransitive(min, v0, hi);
        LexTransitive(min, hi, key);
        LexTransitive(min, key, v);
        LexAntisymmetric(v, key);
        assert Bounds(z, min, v) && Between(min, v, v);
      }
    }
  }
}
