/**
  The line-echo exchange of socket/internet_tcp: the server reads one line per connection into one
  buffer that it reuses and writes back what it holds as a C string; the client sends its message
  and a newline and reads one line. Writes are complete.
 */
module Echo {
  import opened Bytes
  import opened Options
  import opened LineReader
  import opened LineStream

  /** g_buffSize of both programs. */
  const BUFF_SIZE: nat := 64

  method StrLen(buffer: array<byte>) returns (n: nat)
    requires NUL in buffer[..]
    ensures n < buffer.Length && buffer[..n] == CString(buffer[..])
  {
    n := 0;
    ghost var all := buffer[..];
    CStringIs(all);
    while buffer[n] != NUL
      invariant n < buffer.Length && n <= |CString(all)|
      decreases buffer.Length - n
    {
      assert all[n] != NUL;
      n := n + 1;
    }
  }

  // ---- the server ----

  /** What a connection gets back, and what the client shows; nothing if reading fails or no line comes. */
  function Reply(ev: seq<Event>): Option<seq<byte>> {
    var r := FirstLine(ev);
    if Result(BUFF_SIZE, r) <= 0 then None else Some(CString(Kept(BUFF_SIZE, r.bytes)))
  }

  /** The buffer after a successful read is a C string: what was kept, cut at its first NUL. */
  lemma BufferIsString(was: seq<byte>, r: Line)
    requires |was| == BUFF_SIZE && 0 < Result(BUFF_SIZE, r)
    ensures NUL in BufferAfter(was, BUFF_SIZE, r)
    ensures CString(BufferAfter(was, BUFF_SIZE, r)) == CString(Kept(BUFF_SIZE, r.bytes))
  {
    var kept := Kept(BUFF_SIZE, r.bytes);
    var now := BufferAfter(was, BUFF_SIZE, r);
    assert now == kept + [NUL] + was[|kept| + 1..];
    assert now[|kept|] == NUL;
    CStringStops(kept, was[|kept| + 1..]);
  }

  /** The first 63 bytes at most. */
  function First63(s: seq<byte>): seq<byte> {
    if |s| <= 63 then s else s[..63]
  }

  /** `text` is s up to its first NUL. */
  ghost predicate IsCString(text: seq<byte>, s: seq<byte>) {
    text <= s && 0 !in text && (text == s || s[|text|] == 0)
  }

  /**
    When there is a reply and which bytes it holds, for every event stream whose line takes k events: no read
    has failed before the line ended, at least one byte came, and the reply is the first 63 bytes of
    these events at most, up to the first NUL. A line that ends at end of file is answered as well.
   */
  lemma ReplyIs(ev: seq<Event>, k: nat)
    requires Takes(ev, k)
    ensures Reply(ev).Some? <==> !Fails(ev, k) && BytesOf(ev[..k]) != []
    ensures Reply(ev).Some? ==> IsCString(Reply(ev).value, First63(BytesOf(ev[..k])))
  {
    ResultIs(ev, BUFF_SIZE, k);
    assert Kept(BUFF_SIZE, FirstLine(ev).bytes) == First63(BytesOf(ev[..k]));
    CStringIs(First63(BytesOf(ev[..k])));
  }

  /** Read one line and look at the buffer as a C string; `size` is what `readLine` returns. */
  method ReadText(fd: Descriptor, buffer: array<byte>) returns (text: Option<seq<byte>>, size: int)
    requires buffer.Length == BUFF_SIZE
    modifies fd, buffer
    ensures text == Reply(old(fd.pending)) && size == Result(BUFF_SIZE, FirstLine(old(fd.pending)))
  {
    ghost var r, was := FirstLine(fd.pending), buffer[..];
    var readSize, error := ReadLine(fd, buffer, BUFF_SIZE);
    if readSize <= 0 {
      return None, readSize;
    }
    BufferIsString(was, r);
    var n := StrLen(buffer);
    text, size := Some(buffer[..n]), readSize;
  }

  /** One turn of the accept loop; `short` is the "Error on write" message. */
  method ServeOne(fd: Descriptor, buffer: array<byte>) returns (reply: Option<seq<byte>>, short: bool)
    requires buffer.Length == BUFF_SIZE
    modifies fd, buffer
    ensures reply == Reply(old(fd.pending))
    ensures forall k: nat :: Takes(old(fd.pending), k) ==>
              var bytes := BytesOf(old(fd.pending)[..k]);
              && (reply.Some? <==> !Fails(old(fd.pending), k) && bytes != [])
              && (reply.Some? ==> IsCString(reply.value, First63(bytes)))
              && (short <==> reply.Some? && 0 in First63(bytes))
  {
    ghost var ev := fd.pending;
    var size: int;
    reply, size := ReadText(fd, buffer);
    short := reply.Some? && |reply.value| != size;
    forall k: nat | Takes(ev, k)
      ensures reply.Some? <==> !Fails(ev, k) && BytesOf(ev[..k]) != []
      ensures reply.Some? ==> IsCString(reply.value, First63(BytesOf(ev[..k])))
      ensures reply.Some? ==> size == |First63(BytesOf(ev[..k]))|
    {
      ReplyIs(ev, k);
      ResultIs(ev, BUFF_SIZE, k);
    }
  }

  /** The accept loop: the reused buffer carries nothing over from one connection to the next. */
  method ServeAll(conns: seq<Descriptor>, buffer: array<byte>) returns (replies: seq<Option<seq<byte>>>)
    requires buffer.Length == BUFF_SIZE
    requires forall i, j :: 0 <= i < j < |conns| ==> conns[i] != conns[j]
    modifies conns, buffer
    ensures |replies| == |conns|
    ensures forall i :: 0 <= i < |conns| ==> replies[i] == Reply(old(conns[i].pending))
  {
    replies := [];
    for k := 0 to |conns|
      invariant |replies| == k
      invariant forall i :: 0 <= i < k ==> replies[i] == Reply(old(conns[i].pending))
      invariant forall i :: k <= i < |conns| ==> conns[i].pending == old(conns[i].pending)
    {
      var reply, short := ServeOne(conns[k], buffer);
      replies := replies + [reply];
    }
  }

  /** The client reads one line into a buffer of its own and shows it as a C string. */
  method ClientReads(fd: Descriptor) returns (shown: Option<seq<byte>>)
    modifies fd
    ensures shown == Reply(old(fd.pending))
  {
    var buffer := new byte[BUFF_SIZE];
    var size: int;
    shown, size := ReadText(fd, buffer);
  }

  // ---- the exchange ----

  function AsEvents(s: seq<byte>): seq<Event> {
    seq(|s|, i requires 0 <= i < |s| => Byte(s[i]))
  }

  /** Reading a stream that starts with the text s. */
  lemma {:induction false} FirstLineOfText(s: seq<byte>, rest: seq<Event>)
    ensures var r, n := FirstLine(AsEvents(s) + rest), LineLength(s);
            && (NL in s ==> n <= |s| && r == Line(s[..n], AtNewline, n))
            && (NL !in s ==> r.bytes == s + FirstLine(rest).bytes && r.stop == FirstLine(rest).stop)
  {
    var ev := AsEvents(s) + rest;
    if s == [] {
      assert ev == rest;
    } else {
      FirstLineOfText(s[1..], rest);
      assert ev[1..] == AsEvents(s[1..]) + rest;
      assert s == [s[0]] + s[1..];
      LineLengthIs(s);
      if s[0] != NL && NL in s {
        assert s[..LineLength(s)] == [s[0]] + s[1..][..LineLength(s) - 1];
      }
    }
  }

  /** What the message amounts to for the other side: its first line, newline included, cut to fit. */
  function Expected(msg: seq<byte>): seq<byte> {
    var sent := msg + [NL];
    LineLengthIs(sent);
    Kept(BUFF_SIZE, sent[..LineLength(sent)])
  }

  lemma ServerAnswers(msg: seq<byte>, toServer: seq<Event>, later: seq<Event>)
    requires NUL !in msg
    requires Strip(toServer) == AsEvents(msg + [NL]) + later
    ensures Reply(toServer) == Some(Expected(msg)) && Expected(msg) != [] && NUL !in Expected(msg)
  {
    var sent := msg + [NL];
    LineLengthIs(sent);
    IntrInvisible(toServer);
    assert sent[|msg|] == NL;
    FirstLineOfText(sent, later);
    CStringIs(Expected(msg));
  }

  /** A kept line read again is kept as it is, whether its newline survived the cut or not. */
  lemma KeptIsStable(msg: seq<byte>, toClient: seq<Event>, later: seq<Event>)
    requires Strip(toClient) == AsEvents(Expected(msg)) + later
    requires later == [] || later[0] == Eof
    ensures Kept(BUFF_SIZE, FirstLine(toClient).bytes) == Expected(msg)
    ensures Result(BUFF_SIZE, FirstLine(toClient)) == |Expected(msg)|
  {
    var sent, text := msg + [NL], Expected(msg);
    LineLengthIs(sent);
    IntrInvisible(toClient);
    FirstLineOfText(text, later);
    if NL in text {
      var k :| 0 <= k < |text| && text[k] == NL;
      LineLengthIs(text);
      assert text == sent[..|text|];
      assert text[..LineLength(text)] == text;
    } else {
      assert FirstLine(later).bytes == [] && text + [] == text;
    }
  }

  lemma ClientShows(msg: seq<byte>, toClient: seq<Event>, later: seq<Event>)
    requires Expected(msg) != [] && NUL !in Expected(msg)
    requires Strip(toClient) == AsEvents(Expected(msg)) + later
    requires later == [] || later[0] == Eof
    ensures Reply(toClient) == Some(Expected(msg))
  {
    KeptIsStable(msg, toClient, later);
    CStringIs(Expected(msg));
  }

  /** The first newline of s is at j. */
  predicate FirstNewline(s: seq<byte>, j: nat) {
    j < |s| && s[j] == 10 && 10 !in s[..j]
  }

  lemma ExpectedIs(msg: seq<byte>, j: nat)
    requires FirstNewline(msg + [10], j)
    ensures Expected(msg) == (msg + [10])[..Min(63, j + 1)]
  {
    var sent := msg + [10];
    LineLengthIs(sent);
    var n := LineLength(sent);
    assert forall i :: 0 <= i < j ==> sent[..j][i] == sent[i] && sent[i] != 10;
    assert n == j + 1;
  }

  /**
    End to end, with interruptions anywhere on both sides: every message without NUL comes back as the
    first 63 bytes of its first line, and of message plus newline if it has no newline of its own. A message
    with a newline of its own leaves bytes unread when the server closes; that its reply still arrives
    is part of the hypothesis on `toClient`.
   */
  lemma EchoRoundTrip(msg: seq<byte>, toServer: seq<Event>, later: seq<Event>, toClient: seq<Event>, closed: seq<Event>)
    requires 0 !in msg
    requires Strip(toServer) == AsEvents(msg + [10]) + later
    requires Reply(toServer).Some? ==> Strip(toClient) == AsEvents(Reply(toServer).value) + closed
    requires closed == [] || closed[0] == Eof
    ensures Reply(toServer).Some? && Reply(toClient) == Reply(toServer)
    ensures forall j: nat :: FirstNewline(msg + [10], j) ==> Reply(toClient) == Some((msg + [10])[..Min(63, j + 1)])
    ensures 10 !in msg ==> Reply(toClient) == Some((msg + [10])[..Min(63, |msg| + 1)])
  {
    ServerAnswers(msg, toServer, later);
    ClientShows(msg, toClient, closed);
    forall j: nat | FirstNewline(msg + [10], j)
      ensures Expected(msg) == (msg + [10])[..Min(63, j + 1)]
    {
      ExpectedIs(msg, j);
    }
    if 10 !in msg {
      assert (msg + [10])[..|msg|] == msg;
      assert FirstNewline(msg + [10], |msg|);
    }
  }
}
