/**
  `readLine` of socket/internet_tcp/common.c: read one byte at a time up to a newline, keep at most
  n - 1 bytes, discard the rest, restart after EINTR.
 */
module LineReader {
  import opened Bytes

  /** What one `read(fd, &ch, 1)` can do. */
  datatype Event = Byte(b: byte) | Intr | Fail | Eof

  // ---- the first line of an event stream ----

  datatype Stop = AtNewline | AtEof | AtError

  /** The bytes of a line, why it ended, and how many events it took. */
  datatype Line = Line(bytes: seq<byte>, stop: Stop, used: nat)

  function FirstLine(ev: seq<Event>): Line {
    if ev == [] then Line([], AtEof, 0)
    else match ev[0]
      case Fail => Line([], AtError, 1)
      case Eof => Line([], AtEof, 1)
      case Intr => var r := FirstLine(ev[1..]); r.(used := r.used + 1)
      case Byte(b) =>
        if b == NL then Line([b], AtNewline, 1)
        else var r := FirstLine(ev[1..]); Line([b] + r.bytes, r.stop, r.used + 1)
  }

  function BytesOf(ev: seq<Event>): seq<byte> {
    if ev == [] then [] else (if ev[0].Byte? then [ev[0].b] else []) + BytesOf(ev[1..])
  }

  /** 10 is the newline. */
  predicate Ends(e: Event) {
    e == Byte(10) || e == Fail || e == Eof
  }

  /** A line takes exactly the first k events: the last of them is the first that ends a line, or none is left. */
  ghost predicate Takes(ev: seq<Event>, k: nat) {
    && k <= |ev|
    && (forall i :: 0 <= i < k - 1 ==> !Ends(ev[i]))
    && (k < |ev| ==> 0 < k && Ends(ev[k - 1]))
  }

  /** Reading fails before the line is complete. */
  predicate Fails(ev: seq<Event>, k: nat) {
    0 < k <= |ev| && ev[k - 1] == Fail
  }

  /**
    The same line said without recursion: its bytes are those of the events it takes, and the last of
    these events is the first one that ends a line.
   */
  ghost predicate IsFirstLine(ev: seq<Event>, r: Line) {
    && r.used <= |ev|
    && r.bytes == BytesOf(ev[..r.used])
    && (forall k :: 0 <= k < r.used - 1 ==> !Ends(ev[k]))
    && match r.stop
       case AtNewline => 0 < r.used && ev[r.used - 1] == Byte(NL)
       case AtError => 0 < r.used && ev[r.used - 1] == Fail
       case AtEof =>
         || (0 < r.used && ev[r.used - 1] == Eof)
         || (r.used == |ev| && (0 < r.used ==> !Ends(ev[r.used - 1])))
  }

  /** One event of the line. */
  lemma FirstLineStep(ev: seq<Event>)
    requires ev != []
    ensures var r := FirstLine(ev[1..]);
            FirstLine(ev) ==
              match ev[0]
              case Fail => Line([], AtError, 1)
              case Eof => Line([], AtEof, 1)
              case Intr => r.(used := r.used + 1)
              case Byte(b) => if b == NL then Line([b], AtNewline, 1) else Line([b] + r.bytes, r.stop, r.used + 1)
  {
  }

  lemma {:induction false} FirstLineIs(ev: seq<Event>)
    ensures IsFirstLine(ev, FirstLine(ev))
  {
    var r := FirstLine(ev);
    if ev != [] {
      assert ev[..r.used] == [ev[0]] + ev[1..][..r.used - 1] by { FirstLineUsed(ev); }
      if !Ends(ev[0]) {
        var rest := FirstLine(ev[1..]);
        FirstLineIs(ev[1..]);
        assert forall k :: 0 < k < |ev| ==> ev[k] == ev[1..][k - 1];
      } else {
        assert ev[1..][..0] == [];
      }
    }
  }

  lemma {:induction false} FirstLineUsed(ev: seq<Event>)
    ensures FirstLine(ev).used <= |ev|
    ensures ev != [] ==> 0 < FirstLine(ev).used
    ensures FirstLine(ev).bytes != [] ==> 0 < FirstLine(ev).used
  {
    if ev != [] {
      FirstLineUsed(ev[1..]);
    }
  }

  /** `FirstLine` is the only line the declarative form allows. */
  lemma FirstLineIff(ev: seq<Event>, r: Line)
    ensures IsFirstLine(ev, r) <==> r == FirstLine(ev)
  {
    var f := FirstLine(ev);
    FirstLineIs(ev);
    if IsFirstLine(ev, r) {
      assert !(r.used < f.used) && !(f.used < r.used);
    }
  }

  /** There is exactly one such k, and what it says of the line needs no recursion over the events. */
  lemma TakesIff(ev: seq<Event>, k: nat)
    ensures Takes(ev, k) <==> k == FirstLine(ev).used
    ensures Takes(ev, k) ==> FirstLine(ev).bytes == BytesOf(ev[..k])
    ensures Takes(ev, k) ==> (FirstLine(ev).stop == AtError <==> Fails(ev, k))
  {
    FirstLineIs(ev);
    FirstLineUsed(ev);
    var f := FirstLine(ev);
    assert Takes(ev, f.used);
    if Takes(ev, k) {
      assert !(k < f.used) && !(f.used < k);
    }
  }

  // ---- EINTR is invisible ----

  function Strip(ev: seq<Event>): seq<Event> {
    if ev == [] then [] else (if ev[0] == Intr then [] else [ev[0]]) + Strip(ev[1..])
  }

  lemma StripStep(ev: seq<Event>)
    requires ev != []
    ensures ev[0] == Intr ==> Strip(ev) == Strip(ev[1..])
    ensures ev[0] != Intr ==> Strip(ev) != [] && Strip(ev)[0] == ev[0] && Strip(ev)[1..] == Strip(ev[1..])
  {
  }

  /** Interruptions change neither the line nor what is left for the next call. */
  lemma {:induction false} IntrInvisible(ev: seq<Event>)
    ensures var r, q := FirstLine(ev), FirstLine(Strip(ev));
            && r.used <= |ev| && q.used <= |Strip(ev)|
            && q.bytes == r.bytes && q.stop == r.stop
            && Strip(ev[r.used..]) == Strip(ev)[q.used..]
  {
    FirstLineUsed(ev);
    FirstLineUsed(Strip(ev));
    if ev != [] {
      IntrInvisible(ev[1..]);
      StripStep(ev);
      FirstLineStep(ev);
      var r, q := FirstLine(ev), FirstLine(Strip(ev));
      assert ev[r.used..] == ev[1..][r.used - 1..];
      if ev[0] != Intr {
        FirstLineStep(Strip(ev));
        assert Strip(ev)[q.used..] == Strip(ev[1..])[q.used - 1..];
      }
    }
  }

  // ---- what `readLine` leaves behind ----

  /** The bytes that fit beside the terminator; the rest of the line is discarded. */
  function Kept(n: nat, bytes: seq<byte>): seq<byte>
    requires 1 <= n
  {
    if |bytes| < n then bytes else bytes[..n - 1]
  }

  /** End of file with nothing in the buffer returns before the terminator is written, and so does an error. */
  predicate Terminated(n: nat, r: Line)
    requires 1 <= n
  {
    r.stop != AtError && !(r.stop == AtEof && Kept(n, r.bytes) == [])
  }

  function Result(n: nat, r: Line): int
    requires 1 <= n
  {
    if r.stop == AtError then -1 else |Kept(n, r.bytes)|
  }

  function BufferAfter(buffer: seq<byte>, n: nat, r: Line): seq<byte>
    requires 1 <= n <= |buffer|
  {
    var text := Kept(n, r.bytes) + if Terminated(n, r) then [NUL] else [];
    text + buffer[|text|..]
  }

  /** The buffer starts with a prefix of the line and is untouched after the terminator and from n on. */
  lemma BufferShape(buffer: seq<byte>, n: nat, r: Line)
    requires 1 <= n <= |buffer|
    ensures var now, k := BufferAfter(buffer, n, r), |Kept(n, r.bytes)|;
            && |now| == |buffer|
            && k == (if |r.bytes| < n - 1 then |r.bytes| else n - 1)
            && now[..k] == r.bytes[..k]
            && now[k + 1..] == buffer[k + 1..]
            && now[n..] == buffer[n..]
            && now[k] == (if Terminated(n, r) then 0 else buffer[k])
  {
    var now, k := BufferAfter(buffer, n, r), |Kept(n, r.bytes)|;
    assert now[k + 1..] == buffer[k + 1..];
    assert now[n..] == now[k + 1..][n - k - 1..] && buffer[n..] == buffer[k + 1..][n - k - 1..];
  }

  /**
    The comment promises a null-terminated string. That holds, whatever the buffer held before, unless reading
    failed or the file ended with nothing stored: no byte at all, or n == 1.
   */
  lemma TerminatedIff(ev: seq<Event>, n: nat)
    requires 1 <= n && FirstLine(ev).stop != AtError
    ensures var r := FirstLine(ev);
            && Result(n, r) < n
            && ((forall buffer: seq<byte> :: |buffer| == n ==> BufferAfter(buffer, n, r)[Result(n, r)] == 0)
                <==> (r.stop == AtEof ==> r.bytes != [] && n != 1))
  {
    var r := FirstLine(ev);
    if r.stop == AtEof && (r.bytes == [] || n == 1) {
      var buffer: seq<byte> := seq(n, i => 1);
      assert BufferAfter(buffer, n, r)[0] == 1;
    }
  }

  /** The return value 0 means end of file, except that n == 1 makes every line look like it. */
  lemma ZeroIff(ev: seq<Event>, n: nat)
    requires 1 <= n
    ensures Result(n, FirstLine(ev)) == 0 <==>
            FirstLine(ev).stop != AtError && (n == 1 || FirstLine(ev).bytes == [])
  {
  }

  function Min(a: int, b: int): int {
    if a < b then a else b
  }

  /** The return value: -1 if the first event that ends a line is an error, else the bytes that fit of those read. */
  lemma ResultIs(ev: seq<Event>, n: nat, k: nat)
    requires 1 <= n && Takes(ev, k)
    ensures Result(n, FirstLine(ev)) == if Fails(ev, k) then -1 else Min(n - 1, |BytesOf(ev[..k])|)
    ensures Kept(n, FirstLine(ev).bytes) == BytesOf(ev[..k])[..Min(n - 1, |BytesOf(ev[..k])|)]
  {
    TakesIff(ev, k);
  }

  /** What a failed call leaves in errno: its own EINVAL, or what `read` put there. */
  datatype Error = NoError | Einval | FromRead

  /** A file descriptor: the outcomes of the reads still to come, then end of file for ever. */
  class Descriptor {
    var pending: seq<Event>

    constructor (events: seq<Event>)
      ensures pending == events
    {
      pending := events;
    }

    method Read() returns (e: Event)
      modifies this
      ensures old(pending) == [] ==> e == Eof && pending == []
      ensures old(pending) != [] ==> e == old(pending)[0] && pending == old(pending)[1..]
    {
      if pending == [] {
        return Eof;
      }
      e, pending := pending[0], pending[1..];
    }
  }

  /** Part of the line has been read: `seen` so far, from the first `taken` events. */
  ghost predicate Reading(events: seq<Event>, taken: nat, seen: seq<byte>) {
    && taken <= |events|
    && var r := FirstLine(events[taken..]);
    FirstLine(events) == Line(seen + r.bytes, r.stop, taken + r.used)
  }

  /** The next event continues the line. */
  lemma ReadingGoesOn(events: seq<Event>, taken: nat, seen: seq<byte>)
    requires Reading(events, taken, seen) && taken < |events| && !Ends(events[taken])
    ensures Reading(events, taken + 1, seen + if events[taken].Byte? then [events[taken].b] else [])
  {
    var rest, tail := events[taken..], events[taken + 1..];
    assert rest[0] == events[taken] && rest[1..] == tail;
    FirstLineStep(rest);
    if events[taken].Byte? {
      var b, r := events[taken].b, FirstLine(tail);
      assert seen + ([b] + r.bytes) == seen + [b] + r.bytes;
    } else {
      assert seen + [] == seen;
    }
  }

  /** The next event ends the line. */
  lemma ReadingStops(events: seq<Event>, taken: nat, seen: seq<byte>)
    requires Reading(events, taken, seen) && taken < |events| && Ends(events[taken])
    ensures FirstLine(events) ==
            match events[taken]
            case Byte(_) => Line(seen + [NL], AtNewline, taken + 1)
            case Eof => Line(seen, AtEof, taken + 1)
            case _ => Line(seen, AtError, taken + 1)
  {
    var rest := events[taken..];
    assert rest[0] == events[taken];
    FirstLineStep(rest);
    assert seen + [] == seen;
  }

  lemma ReadingEnds(events: seq<Event>, taken: nat, seen: seq<byte>)
    requires Reading(events, taken, seen) && taken == |events|
    ensures FirstLine(events) == Line(seen, AtEof, taken)
  {
    assert events[taken..] == [] && seen + [] == seen;
  }

  /** The buffer while `seen` has been read: what fits of it, then the old contents. */
  ghost predicate Filled(now: seq<byte>, was: seq<byte>, n: nat, seen: seq<byte>) {
    1 <= n <= |was| && now == Kept(n, seen) + was[|Kept(n, seen)|..]
  }

  lemma FilledStep(now: seq<byte>, was: seq<byte>, n: nat, seen: seq<byte>, ch: byte)
    requires Filled(now, was, n, seen)
    ensures |Kept(n, seen)| < n - 1 ==>
              Kept(n, seen + [ch]) == Kept(n, seen) + [ch] && Filled(now[|Kept(n, seen)| := ch], was, n, seen + [ch])
    ensures |Kept(n, seen)| >= n - 1 ==> Kept(n, seen + [ch]) == Kept(n, seen) && Filled(now, was, n, seen + [ch])
  {
  }

  lemma FilledAfter(now: seq<byte>, was: seq<byte>, n: nat, r: Line)
    requires Filled(now, was, n, r.bytes)
    ensures |Kept(n, r.bytes)| < |now|
    ensures BufferAfter(was, n, r) == if Terminated(n, r) then now[|Kept(n, r.bytes)| := NUL] else now
  {
  }

  /** Store one byte if there is room for it and the terminator. */
  method Store(buffer: array<byte>, n: nat, total: nat, ch: byte, ghost was: seq<byte>, ghost seen: seq<byte>)
    returns (total': nat)
    requires Filled(buffer[..], was, n, seen) && total == |Kept(n, seen)|
    modifies buffer
    ensures Filled(buffer[..], was, n, seen + [ch]) && total' == |Kept(n, seen + [ch])|
  {
    FilledStep(buffer[..], was, n, seen, ch);
    ghost var now := buffer[..];
    total' := total;
    if total < n - 1 {
      buffer[total] := ch;
      assert buffer[..] == now[total := ch];
      total' := total + 1;
    }
  }

  /** The loop of `readLine`, lines 38-73: up to the newline, the end of file or the error. */
  method ReadLoop(fd: Descriptor, buffer: array<byte>, n: nat) returns (total: nat, stop: Stop)
    requires 1 <= n <= buffer.Length
    modifies fd, buffer
    ensures var r := FirstLine(old(fd.pending));
            && r.used <= |old(fd.pending)|
            && fd.pending == old(fd.pending)[r.used..]
            && stop == r.stop
            && Filled(buffer[..], old(buffer[..]), n, r.bytes) && total == |Kept(n, r.bytes)|
  {
    total := 0;
    ghost var events, was := fd.pending, buffer[..];
    ghost var seen: seq<byte>, taken: nat := [], 0;
    assert events[0..] == events && seen + FirstLine(events).bytes == FirstLine(events).bytes;
    while true
      invariant Reading(events, taken, seen) && fd.pending == events[taken..]
      invariant Filled(buffer[..], was, n, seen) && total == |Kept(n, seen)|
      decreases |fd.pending|
    {
      if taken == |events| {
        ReadingEnds(events, taken, seen);
      } else if Ends(events[taken]) {
        ReadingStops(events, taken, seen);
      } else {
        ReadingGoesOn(events, taken, seen);
        assert events[taken] == Intr ==> seen + [] == seen;
      }
      var e := fd.Read();
      match e {
        case Intr =>
        case Fail => return total, AtError;
        case Eof => return total, AtEof;
        case Byte(ch) =>
          total := Store(buffer, n, total, ch, was, seen);
          seen := seen + [ch];
          if ch == NL {
            return total, AtNewline;
          }
      }
      taken := taken + 1;
    }
  }

  /**
    For every stream of bytes, interruptions, errors and end of file: the first line is consumed exactly,
    what fits of it is stored and counted, nothing past index n - 1 is touched.
   */
  method ReadLine(fd: Descriptor, buffer: array?<byte>, n: nat) returns (ret: int, error: Error)
    requires buffer != null ==> n <= buffer.Length
    modifies fd, buffer
    ensures n == 0 || buffer == null ==>
              ret == -1 && error == Einval && fd.pending == old(fd.pending)
              && (buffer != null ==> buffer[..] == old(buffer[..]))
    ensures 1 <= n && buffer != null ==>
              var r := FirstLine(old(fd.pending));
              && r.used <= |old(fd.pending)|
              && fd.pending == old(fd.pending)[r.used..]
              && ret == Result(n, r)
              && error == (if r.stop == AtError then FromRead else NoError)
              && buffer[..] == BufferAfter(old(buffer[..]), n, r)
    ensures forall k: nat :: Takes(old(fd.pending), k) ==>
              && (ret == -1 <==> n == 0 || buffer == null || Fails(old(fd.pending), k))
              && (ret != -1 ==> ret == Min(n - 1, |BytesOf(old(fd.pending)[..k])|))
              && (ret != -1 ==> fd.pending == old(fd.pending)[k..])
  {
    if n == 0 || buffer == null {
      return -1, Einval;
    }
    ghost var line, was := FirstLine(fd.pending), buffer[..];
    forall k: nat | Takes(fd.pending, k)
      ensures Result(n, line) == if Fails(fd.pending, k) then -1 else Min(n - 1, |BytesOf(fd.pending[..k])|)
      ensures k == line.used
    {
      ResultIs(fd.pending, n, k);
      TakesIff(fd.pending, k);
    }
    var total, stop := ReadLoop(fd, buffer, n);
    ghost var now := buffer[..];
    FilledAfter(now, was, n, line);
    if stop == AtError {
      return -1, FromRead;
    }
    if stop == AtEof && total == 0 {
      return 0, NoError;
    }
    buffer[total] := NUL;
    assert buffer[..] == now[total := NUL];
    ret, error := total, NoError;
  }
}
