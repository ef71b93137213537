/**
 * The data model of a db721 table: column types, typed values, per-block
 * statistics and column descriptors, and how one value is stored in the file.
 */
module Db721Types {
  import opened Bytes

  /** Width in bytes of a string slot in the file and the bound on a string value. */
  const StrMaxLen: nat := 32

  /** Width in bytes of a float or int value in the file. */
  const NumericWidth: nat := 4

  datatype DB721Type = Float | Int | String

  /**
   * One value, interpreted as its column's type selects: a float as its IEEE-754
   * bit pattern, an int, or a string's bytes. NullString is the value-initialised
   * union read as a string: a null pointer.
   */
  datatype DB721Data = FloatVal(bits: u32) | IntVal(i: i32) | StrVal(s: seq<u8>) | NullString

  /** The value carries the interpretation that the column type selects. */
  predicate HasType(d: DB721Data, t: DB721Type) {
    match t
    case Float => d.FloatVal?
    case Int => d.IntVal?
    case String => d.StrVal? || d.NullString?
  }

  /** A string value as stored: at most StrMaxLen bytes, none of them NUL. */
  predicate IsStringValue(s: seq<u8>) {
    |s| <= StrMaxLen && forall i :: 0 <= i < |s| ==> s[i] != 0
  }

  /** Bytes one value occupies in the file. */
  function Width(t: DB721Type): (w: nat)
    ensures w == if t == String then StrMaxLen else NumericWidth
    ensures 0 < w
  {
    match t
    case Float => NumericWidth
    case Int => NumericWidth
    case String => StrMaxLen
  }

  /** The all-zero union as the column type reads it. */
  function ZeroData(t: DB721Type): (d: DB721Data)
    ensures HasType(d, t)
    ensures d == FloatVal(0) || d == IntVal(0) || d == NullString
  {
    match t
    case Float => FloatVal(0)
    case Int => IntVal(0)
    case String => NullString
  }

  datatype DB721BlockStat = DB721BlockStat(
    numVals: u16,        // number of values in the block
    minVal: DB721Data,   // smallest value in the block
    maxVal: DB721Data,   // largest value in the block
    minStrLen: u8,       // string columns only
    maxStrLen: u8)

  /** A value-initialised block statistic, as `resize` creates it. */
  function ZeroStat(t: DB721Type): (s: DB721BlockStat)
    ensures s.numVals == 0 && HasType(s.minVal, t) && HasType(s.maxVal, t)
  {
    DB721BlockStat(0, ZeroData(t), ZeroData(t), 0, 0)
  }

  datatype DB721Column = DB721Column(
    name: seq<u8>,
    typ: DB721Type,
    startOffset: u32,    // file offset of the column's first block
    blockStat: seq<DB721BlockStat>)

  /** Number of values in a sequence of blocks. */
  function SumNumVals(stats: seq<DB721BlockStat>): nat {
    if stats == [] then 0 else SumNumVals(stats[..|stats| - 1]) + stats[|stats| - 1].numVals
  }

  /** Every block counts at most 65535 values, so a run of blocks counts at most 65535 per block. */
  lemma {:induction false} SumNumValsBound(stats: seq<DB721BlockStat>)
    ensures SumNumVals(stats) <= 0xFFFF * |stats|
  {
    if stats != [] {
      SumNumValsBound(stats[..|stats| - 1]);
    }
  }

  lemma {:induction false} SumNumValsAppend(a: seq<DB721BlockStat>, b: seq<DB721BlockStat>)
    ensures SumNumVals(a + b) == SumNumVals(a) + SumNumVals(b)
  {
    if b != [] {
      assert (a + b)[..|a + b| - 1] == a + b[..|b| - 1];
      SumNumValsAppend(a, b[..|b| - 1]);
    } else {
      assert a + b == a;
    }
  }

  lemma SumNumValsPrefixStep(stats: seq<DB721BlockStat>, k: nat)
    requires k < |stats|
    ensures SumNumVals(stats[..k + 1]) == SumNumVals(stats[..k]) + stats[k].numVals
  {
    assert stats[..k + 1][..k] == stats[..k];
  }

  lemma {:induction false} SumNumValsPrefixMono(stats: seq<DB721BlockStat>, j: nat, k: nat)
    requires j <= k <= |stats|
    ensures SumNumVals(stats[..j]) <= SumNumVals(stats[..k])
    decreases k - j
  {
    if j < k {
      SumNumValsPrefixStep(stats, k - 1);
      SumNumValsPrefixMono(stats, j, k - 1);
    }
  }

  /** The value one slot of the file holds: the bytes are copied as the column type selects. */
  function DecodeValue(slot: seq<u8>, t: DB721Type): (d: DB721Data)
    requires |slot| == Width(t)
    ensures HasType(d, t)
    ensures t == String ==> d.StrVal? && IsStringValue(d.s)
  {
    match t
    case Float => FloatVal(LeU32(slot))
    case Int => IntVal(LeI32(slot))
    case String => StrVal(CStr(slot))
  }

  /** The slot a writer stores a string value in: the bytes, then NUL padding. */
  function StringSlot(s: seq<u8>): (slot: seq<u8>)
    requires |s| <= StrMaxLen
    ensures |slot| == StrMaxLen && slot[..|s|] == s
  {
    s + seq(StrMaxLen - |s|, _ => 0)
  }

  /** A string value survives storage in its slot, including one of exactly 32 bytes. */
  lemma StringSlotRoundTrip(s: seq<u8>)
    requires IsStringValue(s)
    ensures DecodeValue(StringSlot(s), String) == StrVal(s)
  {
    if |s| < StrMaxLen {
      var pad := seq(StrMaxLen - |s|, _ => 0);
      assert StringSlot(s) == s + [0] + pad[1..];
      CStrOfTerminated(s, pad[1..]);
    } else {
      CStrAppendNul(s);
      CStrOfTerminated(s, []);
      assert s + [0] + [] == s + [0];
      assert StringSlot(s) == s;
    }
  }

  /** An int value survives storage in its four bytes. */
  lemma IntSlotRoundTrip(x: i32)
    ensures DecodeValue(EncodeLeI32(x), Int) == IntVal(x)
  {
    LeI32RoundTrip(x);
  }

  /** A float's bit pattern survives storage in its four bytes. */
  lemma FloatSlotRoundTrip(bits: u32)
    ensures DecodeValue(EncodeLeU32(bits), Float) == FloatVal(bits)
  {
    LeU32RoundTrip(bits);
  }

  /** Bytes `n` values of type `t` occupy in the file: `n` times the width. */
  function Span(t: DB721Type, n: nat): nat {
    if t == String then StrMaxLen * n else NumericWidth * n
  }

  /** The bytes of slot `i` of a run of type `t` starting at file offset `off`. */
  function Slot(file: seq<u8>, t: DB721Type, off: nat, i: nat): (slot: seq<u8>)
    requires off + Span(t, i + 1) <= |file|
    ensures |slot| == Width(t)
  {
    file[off + Span(t, i) .. off + Span(t, i + 1)]
  }

  /**
   * The values of `n` consecutive slots of type `t` starting at file offset `off`.
   */
  function DecodeRun(file: seq<u8>, t: DB721Type, off: nat, n: nat): (r: seq<DB721Data>)
    requires off + Span(t, n) <= |file|
  {
    seq(n, i requires 0 <= i < n => DecodeValue(Slot(file, t, off, i), t))
  }

  /** Every value of a run carries the interpretation its column type selects. */
  lemma DecodeRunTyped(file: seq<u8>, t: DB721Type, off: nat, n: nat)
    requires off + Span(t, n) <= |file|
    ensures var r := DecodeRun(file, t, off, n);
      |r| == n && forall i :: 0 <= i < n ==> HasType(r[i], t) && (t == String ==> r[i].StrVal? && IsStringValue(r[i].s))
  {
  }

  lemma SpanStep(t: DB721Type, a: nat, i: nat)
    ensures Span(t, i + 1) == Span(t, i) + Width(t)
    ensures Span(t, a + i) == Span(t, a) + Span(t, i)
  {
  }

  /** Value `a + i` of a run is value `i` of the run that starts `a` values later. */
  lemma SlotShift(file: seq<u8>, t: DB721Type, off: nat, a: nat, i: nat)
    requires off + Span(t, a + i + 1) <= |file|
    ensures off + Span(t, a) + Span(t, i + 1) <= |file|
    ensures Slot(file, t, off, a + i) == Slot(file, t, off + Span(t, a), i)
  {
    SpanStep(t, a, i);
    SpanStep(t, a, i + 1);
  }

  /** Two adjacent runs decode as one: block boundaries do not change the values. */
  lemma DecodeRunSplit(file: seq<u8>, t: DB721Type, off: nat, a: nat, b: nat)
    requires off + Span(t, a + b) <= |file|
    ensures Span(t, a) + Span(t, b) == Span(t, a + b)
    ensures DecodeRun(file, t, off, a + b) == DecodeRun(file, t, off, a) + DecodeRun(file, t, off + Span(t, a), b)
  {
    SpanStep(t, a, b);
    var whole := DecodeRun(file, t, off, a + b);
    var left := DecodeRun(file, t, off, a);
    var right := DecodeRun(file, t, off + Span(t, a), b);
    forall i | 0 <= i < a
      ensures whole[i] == left[i]
    {
    }
    forall i | 0 <= i < b
      ensures whole[a + i] == right[i]
    {
      SlotShift(file, t, off, a, i);
    }
    assert whole == left + right;
  }

  /** Reading one more slot extends a run by that slot's value. */
  lemma DecodeRunStep(file: seq<u8>, t: DB721Type, off: nat, i: nat)
    requires off + Span(t, i + 1) <= |file|
    ensures off + Span(t, i) + Width(t) == off + Span(t, i + 1)
    ensures DecodeRun(file, t, off, i + 1) == DecodeRun(file, t, off, i) + [DecodeValue(Slot(file, t, off, i), t)]
  {
    SpanStep(t, 0, i);
    var longer := DecodeRun(file, t, off, i + 1);
    var shorter := DecodeRun(file, t, off, i);
    forall j | 0 <= j < i
      ensures longer[j] == shorter[j]
    {
    }
    assert longer == shorter + [longer[i]];
  }
}
