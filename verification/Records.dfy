/**
  A walk over records of varying length laid back to back in a buffer, for any way `read` of decoding the
  record a pointer sees and any way `size` of telling how far to step.
 */
module Records {
  import opened Bytes
  import opened Options

  /** Every record from the front of s on, or None if the walk would leave s. */
  function Walked<T>(read: seq<byte> -> Option<T>, size: T -> nat, s: seq<byte>): Option<seq<T>>
    decreases |s|
  {
    if s == [] then Some([]) else
      var e := read(s);
      if e.None? || !(1 <= size(e.value) <= |s|) then None else
        var rest := Walked(read, size, s[size(e.value)..]);
        if rest.None? then None else Some([e.value] + rest.value)
  }

  function Joined<T>(write: T -> seq<byte>, es: seq<T>): seq<byte> {
    if es == [] then [] else write(es[0]) + Joined(write, es[1..])
  }

  /** What is written reads back, whatever follows it. */
  ghost predicate ReadsBackOne<T>(
    read: seq<byte> -> Option<T>, size: T -> nat, write: T -> seq<byte>, ok: T -> bool, e: T, tail: seq<byte>)
  {
    ok(e) ==> 1 <= size(e) == |write(e)| && read(write(e) + tail) == Some(e)
  }

  ghost predicate ReadsBack<T(!new)>(
    read: seq<byte> -> Option<T>, size: T -> nat, write: T -> seq<byte>, ok: T -> bool)
  {
    forall e: T, tail: seq<byte> :: ReadsBackOne(read, size, write, ok, e, tail)
  }

  /** What is read is the writing of something, followed by the rest. */
  ghost predicate WritesBackOne<T>(
    read: seq<byte> -> Option<T>, size: T -> nat, write: T -> seq<byte>, ok: T -> bool, s: seq<byte>)
  {
    read(s).Some? ==>
      var e := read(s).value;
      ok(e) && 1 <= size(e) <= |s| && s == write(e) + s[size(e)..]
  }

  ghost predicate WritesBack<T>(
    read: seq<byte> -> Option<T>, size: T -> nat, write: T -> seq<byte>, ok: T -> bool)
  {
    forall s: seq<byte> :: WritesBackOne(read, size, write, ok, s)
  }

  ghost predicate All<T>(ok: T -> bool, es: seq<T>) {
    forall i :: 0 <= i < |es| ==> ok(es[i])
  }

  lemma {:induction false} WalkOfJoined<T(!new)>(
    read: seq<byte> -> Option<T>, size: T -> nat, write: T -> seq<byte>, ok: T -> bool, es: seq<T>)
    requires ReadsBack(read, size, write, ok) && All(ok, es)
    ensures Walked(read, size, Joined(write, es)) == Some(es)
    decreases |es|
  {
    if es != [] {
      var record, tail := write(es[0]), Joined(write, es[1..]);
      assert ok(es[0]) && ReadsBackOne(read, size, write, ok, es[0], tail);
      assert (record + tail)[size(es[0])..] == tail;
      WalkOfJoined(read, size, write, ok, es[1..]);
      assert [es[0]] + es[1..] == es;
    }
  }

  lemma {:induction false} JoinedOfWalk<T>(
    read: seq<byte> -> Option<T>, size: T -> nat, write: T -> seq<byte>, ok: T -> bool, s: seq<byte>)
    requires WritesBack(read, size, write, ok) && Walked(read, size, s).Some?
    ensures var es := Walked(read, size, s).value; All(ok, es) && Joined(write, es) == s
    decreases |s|
  {
    if s != [] {
      assert WritesBackOne(read, size, write, ok, s);
      var e := read(s).value;
      var tail := s[size(e)..];
      JoinedOfWalk(read, size, write, ok, tail);
      var rest := Walked(read, size, tail).value;
      assert ([e] + rest)[1..] == rest;
    }
  }

  /** Events visited so far, followed by the outcome of the rest of the walk. */
  function After<T>(events: seq<T>, rest: Option<seq<T>>): Option<seq<T>> {
    if rest.None? then None else Some(events + rest.value)
  }

  lemma WalkAdvances<T>(read: seq<byte> -> Option<T>, size: T -> nat, s: seq<byte>, p: nat, events: seq<T>)
    requires p < |s|
    ensures var e := read(s[p..]);
            After(events, Walked(read, size, s[p..])) ==
              if e.None? || !(1 <= size(e.value) <= |s| - p) then None
              else After(events + [e.value], Walked(read, size, s[p + size(e.value)..]))
  {
    var e := read(s[p..]);
    if e.Some? && 1 <= size(e.value) <= |s| - p {
      assert s[p..][size(e.value)..] == s[p + size(e.value)..];
      var rest := Walked(read, size, s[p + size(e.value)..]);
      if rest.Some? {
        assert events + ([e.value] + rest.value) == events + [e.value] + rest.value;
      }
    }
  }

  /** The loop: p moves from record to record until it reaches `number`, or a record would reach past it. */
  method Walk<T>(read: seq<byte> -> Option<T>, size: T -> nat, buffer: array<byte>, number: nat)
    returns (inside: bool, events: seq<T>)
    requires number <= buffer.Length
    ensures Walked(read, size, buffer[..number]) == if inside then Some(events) else None
  {
    var s := buffer[..number];
    var p: nat := 0;
    events := [];
    assert s[0..] == s;
    assert Walked(read, size, s).Some? ==> events + Walked(read, size, s).value == Walked(read, size, s).value;
    while p < number
      invariant p <= number
      invariant After(events, Walked(read, size, s[p..])) == Walked(read, size, s)
      decreases number - p
    {
      WalkAdvances(read, size, s, p, events);
      var e := read(s[p..]);
      if e.None? || !(1 <= size(e.value) <= number - p) {
        return false, [];
      }
      events := events + [e.value];
      p := p + size(e.value);
    }
    inside := true;
    assert s[p..] == [] && events + [] == events;
  }
}
