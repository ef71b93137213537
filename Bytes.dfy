/**
 * Fixed-width integers, little-endian words and NUL-terminated strings:
 * the machine-level vocabulary the db721 reader works in.
 */
module Bytes {
  type u8 = x: int | 0 <= x < 0x100
  type u16 = x: int | 0 <= x < 0x1_0000
  type u32 = x: int | 0 <= x < 0x1_0000_0000
  type i32 = x: int | -0x8000_0000 <= x < 0x8000_0000

  const U32Range: int := 0x1_0000_0000

  /** A `static_cast` of an integer to `uint8_t`: reduction modulo 2^8. */
  function Wrap8(n: int): (r: u8)
    ensures n == r + 0x100 * (n / 0x100)
    ensures 0 <= n < 0x100 ==> r == n
  {
    n % 0x100
  }

  /** A `static_cast` of an integer to `uint16_t`: reduction modulo 2^16. */
  function Wrap16(n: int): (r: u16)
    ensures n == r + 0x1_0000 * (n / 0x1_0000)
    ensures 0 <= n < 0x1_0000 ==> r == n
  {
    n % 0x1_0000
  }

  /** A `static_cast` of an integer to `uint32_t`: reduction modulo 2^32. */
  function Wrap32(n: int): (r: u32)
    ensures n == r + U32Range * (n / U32Range)
    ensures 0 <= n < U32Range ==> r == n
  {
    n % U32Range
  }

  /** The unsigned value of four bytes stored least significant first. */
  function LeU32(b: seq<u8>): (r: u32)
    requires |b| == 4
    ensures EncodeLeU32(r) == b
  {
    var q2 := b[2] as int + 0x100 * b[3] as int;
    var q1 := b[1] as int + 0x100 * q2;
    var x := b[0] as int + 0x100 * q1;
    assert x / 0x100 == q1 && x % 0x100 == b[0];
    assert q1 / 0x100 == q2 && q1 % 0x100 == b[1];
    assert q2 / 0x100 == b[3] && q2 % 0x100 == b[2];
    x
  }

  /** The two's-complement value of four bytes stored least significant first. */
  function LeI32(b: seq<u8>): (r: i32)
    requires |b| == 4
    ensures EncodeLeI32(r) == b
    ensures r < 0 <==> b[3] >= 0x80
  {
    var u := LeU32(b);
    if u < 0x8000_0000 then u else u - U32Range
  }

  /** The four bytes, least significant first, that store an unsigned word. */
  function EncodeLeU32(x: u32): (b: seq<u8>)
    ensures |b| == 4
  {
    var q1 := x / 0x100;
    var q2 := q1 / 0x100;
    [x % 0x100, q1 % 0x100, q2 % 0x100, q2 / 0x100]
  }

  /** The four bytes that store a signed word in two's complement. */
  function EncodeLeI32(x: i32): (b: seq<u8>)
    ensures |b| == 4
  {
    EncodeLeU32(if x < 0 then x + U32Range else x)
  }

  lemma LeU32RoundTrip(x: u32)
    ensures LeU32(EncodeLeU32(x)) == x
  {
    var q1 := x / 0x100;
    var q2 := q1 / 0x100;
    assert x == x % 0x100 + 0x100 * q1;
    assert q1 == q1 % 0x100 + 0x100 * q2;
    assert q2 == q2 % 0x100 + 0x100 * (q2 / 0x100);
  }

  lemma EncodeLeU32RoundTrip(b: seq<u8>)
    requires |b| == 4
    ensures EncodeLeU32(LeU32(b)) == b
  {
    var x := LeU32(b);
    var q1 := b[1] as int + 0x100 * b[2] as int + 0x1_0000 * b[3] as int;
    var q2 := b[2] as int + 0x100 * b[3] as int;
    assert x == b[0] + 0x100 * q1;
    assert x / 0x100 == q1 && x % 0x100 == b[0];
    assert q1 == b[1] + 0x100 * q2;
    assert q1 / 0x100 == q2 && q1 % 0x100 == b[1];
    assert q2 / 0x100 == b[3] && q2 % 0x100 == b[2];
  }

  /** An int read back from the bytes that store it is the same int. */
  lemma LeI32RoundTrip(x: i32)
    ensures LeI32(EncodeLeI32(x)) == x
  {
    LeU32RoundTrip(if x < 0 then x + U32Range else x);
  }

  /**
   * What C sees of a byte buffer read as a string: the bytes before the first NUL,
   * or the whole buffer when it holds none.
   */
  function CStr(s: seq<u8>): (r: seq<u8>)
    ensures |r| <= |s| && r == s[..|r|]
    ensures forall i :: 0 <= i < |r| ==> r[i] != 0
    ensures |r| < |s| ==> s[|r|] == 0
  {
    if s == [] then []
    else if s[0] == 0 then []
    else [s[0]] + CStr(s[1..])
  }

  /** Appending anything after a NUL-free prefix and its terminator does not change the C string. */
  lemma {:induction false} CStrOfTerminated(s: seq<u8>, rest: seq<u8>)
    requires forall i :: 0 <= i < |s| ==> s[i] != 0
    ensures CStr(s + [0] + rest) == s
  {
    if s != [] {
      assert (s + [0] + rest)[1..] == s[1..] + [0] + rest;
      CStrOfTerminated(s[1..], rest);
    }
  }

  /** A terminator placed after a buffer does not change what C reads from it. */
  lemma {:induction false} CStrAppendNul(s: seq<u8>)
    ensures CStr(s + [0]) == CStr(s)
  {
    if s != [] && s[0] != 0 {
      assert (s + [0])[1..] == s[1..] + [0];
      CStrAppendNul(s[1..]);
    }
  }
}
