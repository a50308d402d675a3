/** Repeated `readLine` calls on one stream, and when they give the stream back. */
module LineStream {
  import opened Bytes
  import opened LineReader

  // ---- a byte stream as lines ----

  function LineLength(s: seq<byte>): nat {
    if s == [] then 0 else if s[0] == NL then 1 else 1 + LineLength(s[1..])
  }

  lemma {:induction false} LineLengthIs(s: seq<byte>)
    ensures LineLength(s) <= |s|
    ensures s != [] ==> 0 < LineLength(s)
    ensures forall k :: 0 <= k < LineLength(s) - 1 ==> s[k] != NL
    ensures s != [] ==> s[LineLength(s) - 1] == NL || LineLength(s) == |s|
  {
    if s != [] {
      LineLengthIs(s[1..]);
      assert forall k :: 0 < k < |s| ==> s[k] == s[1..][k - 1];
    }
  }

  function Lines(s: seq<byte>): seq<seq<byte>>
    decreases |s|
  {
    LineLengthIs(s);
    if s == [] then [] else [s[..LineLength(s)]] + Lines(s[LineLength(s)..])
  }

  function Concat(parts: seq<seq<byte>>): seq<byte> {
    if parts == [] then [] else parts[0] + Concat(parts[1..])
  }

  /** A newline can only be the last byte of a line, and only the last line can lack one. */
  ghost predicate IsSplit(parts: seq<seq<byte>>) {
    && (forall i, k :: 0 <= i < |parts| && 0 <= k < |parts[i]| - 1 ==> parts[i][k] != NL)
    && (forall i :: 0 <= i < |parts| ==> parts[i] != [] && (i < |parts| - 1 ==> parts[i][|parts[i]| - 1] == NL))
  }

  lemma SplitCons(part: seq<byte>, rest: seq<seq<byte>>)
    requires IsSplit(rest) && part != []
    requires forall k :: 0 <= k < |part| - 1 ==> part[k] != NL
    requires rest != [] ==> part[|part| - 1] == NL
    ensures IsSplit([part] + rest) && Concat([part] + rest) == part + Concat(rest)
  {
    var parts := [part] + rest;
    assert parts[1..] == rest;
    assert forall i :: 0 < i < |parts| ==> parts[i] == rest[i - 1];
  }

  lemma {:induction false} LinesSplit(s: seq<byte>)
    ensures IsSplit(Lines(s)) && Concat(Lines(s)) == s
    decreases |s|
  {
    if s != [] {
      LineLengthIs(s);
      var n := LineLength(s);
      var rest := Lines(s[n..]);
      LinesSplit(s[n..]);
      assert rest != [] ==> s[..n][n - 1] == NL;
      SplitCons(s[..n], rest);
      assert Lines(s) == [s[..n]] + rest;
      assert s == s[..n] + s[n..];
    }
  }

  // ---- what repeated calls return ----

  /** Only bytes and interruptions: the stream of a peer that writes and then closes. */
  predicate Clean(ev: seq<Event>) {
    forall k :: 0 <= k < |ev| ==> ev[k].Byte? || ev[k].Intr?
  }

  /** The texts of repeated calls, up to the first that returns 0 or -1. */
  function Texts(ev: seq<Event>, n: nat): seq<seq<byte>>
    requires 1 <= n
    decreases |ev|
  {
    FirstLineUsed(ev);
    var r := FirstLine(ev);
    if Result(n, r) <= 0 then [] else [Kept(n, r.bytes)] + Texts(ev[r.used..], n)
  }

  function Cut(n: nat, parts: seq<seq<byte>>): seq<seq<byte>>
    requires 1 <= n
  {
    seq(|parts|, i requires 0 <= i < |parts| => Kept(n, parts[i]))
  }

  lemma CleanTail(ev: seq<Event>, k: nat)
    requires Clean(ev) && k <= |ev|
    ensures Clean(ev[k..])
  {
    assert forall j :: 0 <= j < |ev[k..]| ==> ev[k..][j] == ev[k + j];
  }

  lemma {:induction false} CleanFirstLine(ev: seq<Event>)
    requires Clean(ev)
    ensures var r, s := FirstLine(ev), BytesOf(ev);
            && r.used <= |ev| && r.stop != AtError
            && LineLength(s) <= |s| && r.bytes == s[..LineLength(s)]
            && Clean(ev[r.used..]) && BytesOf(ev[r.used..]) == s[LineLength(s)..]
  {
    FirstLineUsed(ev);
    CleanTail(ev, FirstLine(ev).used);
    if ev != [] {
      CleanTail(ev, 1);
      CleanFirstLine(ev[1..]);
      FirstLineStep(ev);
      var r, s, t := FirstLine(ev), BytesOf(ev), BytesOf(ev[1..]);
      assert ev[r.used..] == ev[1..][r.used - 1..];
      if ev[0].Byte? {
        LineOfMore(ev[0].b, t);
        assert s == [ev[0].b] + t;
      } else {
        assert s == t;
      }
    }
  }

  lemma LineOfMore(b: byte, t: seq<byte>)
    ensures var s, n := [b] + t, LineLength([b] + t);
            && n == (if b == NL then 1 else 1 + LineLength(t))
            && n <= |s| && LineLength(t) <= |t|
            && s[..n] == (if b == NL then [b] else [b] + t[..LineLength(t)])
            && s[n..] == (if b == NL then t else t[LineLength(t)..])
  {
    assert ([b] + t)[1..] == t;
    LineLengthIs(t);
  }

  lemma CutCons(n: nat, part: seq<byte>, rest: seq<seq<byte>>)
    requires 1 <= n
    ensures Cut(n, [part] + rest) == [Kept(n, part)] + Cut(n, rest)
  {
  }

  /** With room for at least one byte, call i returns the i-th line of the stream, cut to n - 1 bytes. */
  lemma {:induction false} TextsAreLines(ev: seq<Event>, n: nat)
    requires Clean(ev) && 2 <= n
    ensures Texts(ev, n) == Cut(n, Lines(BytesOf(ev)))
    decreases |ev|
  {
    CleanFirstLine(ev);
    FirstLineUsed(ev);
    var r, s := FirstLine(ev), BytesOf(ev);
    LineLengthIs(s);
    if s == [] {
      assert Texts(ev, n) == [];
    } else {
      TextsAreLines(ev[r.used..], n);
      var rest := Lines(s[LineLength(s)..]);
      assert Lines(s) == [r.bytes] + rest;
      CutCons(n, r.bytes, rest);
    }
  }

  lemma {:induction false} CutShortens(n: nat, parts: seq<seq<byte>>)
    requires 1 <= n
    ensures |Concat(Cut(n, parts))| <= |Concat(parts)|
    ensures (forall i :: 0 <= i < |parts| ==> |parts[i]| < n) ==> Cut(n, parts) == parts
    ensures (exists i :: 0 <= i < |parts| && n <= |parts[i]|) ==> |Concat(Cut(n, parts))| < |Concat(parts)|
  {
    if parts != [] {
      CutShortens(n, parts[1..]);
      assert Cut(n, parts)[1..] == Cut(n, parts[1..]);
      assert forall i :: 0 < i < |parts| ==> parts[i] == parts[1..][i - 1];
      if exists i :: 0 <= i < |parts| && n <= |parts[i]| {
        var i :| 0 <= i < |parts| && n <= |parts[i]|;
        assert i > 0 ==> n <= |parts[1..][i - 1]|;
      }
    }
  }

  /** Repeated calls give the stream back by concatenation if and only if every line fits in n - 1 bytes. */
  lemma ReassemblyIff(ev: seq<Event>, n: nat)
    requires Clean(ev) && 1 <= n
    ensures Concat(Texts(ev, n)) == BytesOf(ev) <==>
            forall i :: 0 <= i < |Lines(BytesOf(ev))| ==> |Lines(BytesOf(ev))[i]| < n
  {
    var s := BytesOf(ev);
    LinesSplit(s);
    if n == 1 {
      assert s != [] ==> |Lines(s)[0]| >= 1 by { LineLengthIs(s); }
    } else {
      TextsAreLines(ev, n);
      CutShortens(n, Lines(s));
    }
  }

  /** The reading loop of a client that wants every line. */
  method ReadAll(fd: Descriptor, buffer: array<byte>, n: nat) returns (texts: seq<seq<byte>>)
    requires 1 <= n <= buffer.Length
    modifies fd, buffer
    ensures texts == Texts(old(fd.pending), n)
  {
    texts := [];
    while true
      invariant Texts(old(fd.pending), n) == texts + Texts(fd.pending, n)
      decreases |fd.pending|
    {
      FirstLineUsed(fd.pending);
      ghost var before := fd.pending;
      var ret, error := ReadLine(fd, buffer, n);
      if ret <= 0 {
        assert texts + [] == texts;
        return;
      }
      var text := buffer[..ret];
      assert text == buffer[..][..ret] == Kept(n, FirstLine(before).bytes);
      assert texts + ([text] + Texts(fd.pending, n)) == texts + [text] + Texts(fd.pending, n);
      texts := texts + [text];
    }
  }
}
