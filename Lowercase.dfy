/**
 * `tolowercase`: copies a NUL-terminated name into a caller's buffer, folding
 * ASCII upper-case letters to lower case and copying the terminating NUL too.
 */
module Lowercase {
  import opened Bytes

  /** PostgreSQL's `NAMEDATALEN`: an identifier holds at most 63 bytes before its NUL. */
  const NameDataLen: nat := 64

  /** `tolower` on one byte, with ASCII letter folding only. */
  function LowerByte(b: u8): (r: u8)
    ensures 'A' as u8 <= b <= 'Z' as u8 ==> r == b + 32
    ensures !('A' as u8 <= b <= 'Z' as u8) ==> r == b
  {
    if 'A' as u8 <= b <= 'Z' as u8 then b + 32 else b
  }

  /** `tolower` on every byte of `s`. */
  function Lower(s: seq<u8>): (r: seq<u8>)
    ensures |r| == |s|
  {
    seq(|s|, i requires 0 <= i < |s| => LowerByte(s[i]))
  }

  /** Folding keeps every byte but a capital letter, never introduces or removes a NUL, and leaves no capital letter. */
  lemma LowerBytes(s: seq<u8>)
    ensures forall i :: 0 <= i < |s| && !('A' as u8 <= s[i] <= 'Z' as u8) ==> Lower(s)[i] == s[i]
    ensures forall i :: 0 <= i < |s| ==> (Lower(s)[i] == 0 <==> s[i] == 0)
    ensures forall i :: 0 <= i < |s| ==> !('A' as u8 <= Lower(s)[i] <= 'Z' as u8)
  {
  }

  /** Folding commutes with cutting at the first NUL. */
  lemma {:induction false} LowerCStr(s: seq<u8>)
    ensures CStr(Lower(s)) == Lower(CStr(s))
  {
    LowerBytes(s);
    var n := |CStr(s)|;
    if n < |s| {
      assert s == CStr(s) + [0] + s[n + 1..];
      assert Lower(s) == Lower(CStr(s)) + [0] + Lower(s)[n + 1..];
      LowerBytes(CStr(s));
      CStrOfTerminated(Lower(CStr(s)), Lower(s)[n + 1..]);
    } else {
      assert CStr(s) == s;
      assert forall i :: 0 <= i < |s| ==> Lower(s)[i] != 0;
      NulFreeCStr(Lower(s));
    }
  }

  /** A byte string without a NUL is its own C string. */
  lemma NulFreeCStr(s: seq<u8>)
    requires forall i :: 0 <= i < |s| ==> s[i] != 0
    ensures CStr(s) == s
  {
  }

  /**
   * Folds the C string `input` into `output`, NUL included. The caller's
   * name must be shorter than `NAMEDATALEN - 1` bytes (the source asserts it)
   * and must fit `output`.
   */
  method ToLowerCase(input: seq<u8>, output: array<u8>) returns (r: array<u8>)
    requires |CStr(input)| < |input|
    requires |CStr(input)| < NameDataLen - 1
    requires |CStr(input)| < output.Length
    modifies output
    ensures r == output
    ensures output[..|CStr(input)| + 1] == Lower(CStr(input)) + [0]
    ensures output[|CStr(input)| + 1..] == old(output[|CStr(input)| + 1..])
    ensures CStr(output[..]) == Lower(CStr(input))
  {
    ghost var n := |CStr(input)|;
    var i := 0;
    while true
      invariant i <= n
      invariant output[..i] == Lower(input[..i])
      invariant output[i..] == old(output[i..])
      decreases n - i
    {
      output[i] := LowerByte(input[i]);
      var more := input[i] != 0;
      i := i + 1;
      if !more {
        break;
      }
    }
    assert input[..n + 1] == CStr(input) + [0];
    assert output[..n + 1] == Lower(CStr(input)) + [0];
    LowerBytes(CStr(input));
    assert output[..] == Lower(CStr(input)) + [0] + output[n + 1..];
    CStrOfTerminated(Lower(CStr(input)), output[n + 1..]);
    r := output;
  }
}
