/** Bytes and C strings. */
module Bytes {
  type byte = x: int | 0 <= x < 256

  const NUL: byte := 0
  const NL: byte := 10

  /** What `strlen` and "%s" see of a sequence of bytes. */
  function CString(s: seq<byte>): seq<byte> {
    if s == [] || s[0] == NUL then [] else [s[0]] + CString(s[1..])
  }

  lemma {:induction false} CStringIs(s: seq<byte>)
    ensures CString(s) <= s && NUL !in CString(s)
    ensures |CString(s)| < |s| ==> s[|CString(s)|] == NUL
    ensures CString(s) == s <==> NUL !in s
  {
    if s != [] && s[0] != NUL {
      CStringIs(s[1..]);
      assert s == [s[0]] + s[1..];
    }
  }

  /** Bytes after the terminator do not matter. */
  lemma {:induction false} CStringStops(s: seq<byte>, rest: seq<byte>)
    ensures CString(s + [NUL] + rest) == CString(s)
  {
    var t := s + [NUL] + rest;
    if s != [] && s[0] != NUL {
      CStringStops(s[1..], rest);
      assert t[1..] == s[1..] + [NUL] + rest;
    }
  }
}
