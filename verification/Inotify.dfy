/**
  The record walk of io/inotify/main.c: `read` fills a buffer with records of a 16-byte header and a name
  field of `len` bytes, and the loop steps from one record to the next. Byte order is little-endian.
 */
module Inotify {
  import opened Bytes
  import opened Options
  import Records

  const WORD: int := 0x1_0000_0000
  const HALF: int := 0x8000_0000

  /** sizeof(struct inotify_event) */
  const HEADER: nat := 16

  /** `name` is the whole name field, padding included; its length is the `len` of the record. */
  datatype Event = Event(wd: int, mask: int, cookie: int, name: seq<byte>)

  predicate Representable(e: Event) {
    && -HALF <= e.wd < HALF
    && 0 <= e.mask < WORD
    && 0 <= e.cookie < WORD
    && |e.name| < WORD
  }

  // ---- 32-bit fields ----

  function Base(n: nat): int {
    if n == 0 then 1 else 256 * Base(n - 1)
  }

  /** The n lowest base-256 digits of v, lowest first. */
  function Digits(v: int, n: nat): (s: seq<byte>)
    ensures |s| == n
    decreases n
  {
    if n == 0 then [] else [v % 256] + Digits(v / 256, n - 1)
  }

  function Number(s: seq<byte>): int {
    if s == [] then 0 else s[0] + 256 * Number(s[1..])
  }

  lemma {:induction false} NumberOfDigits(v: int, n: nat)
    requires 0 <= v < Base(n)
    ensures Number(Digits(v, n)) == v
    decreases n
  {
    if n != 0 {
      assert 0 <= v / 256 < Base(n - 1);
      NumberOfDigits(v / 256, n - 1);
      assert Digits(v, n)[1..] == Digits(v / 256, n - 1);
    }
  }

  lemma {:induction false} DigitsOfNumber(s: seq<byte>)
    ensures 0 <= Number(s) < Base(|s|)
    ensures Digits(Number(s), |s|) == s
  {
    if s != [] {
      DigitsOfNumber(s[1..]);
      assert Number(s) % 256 == s[0] && Number(s) / 256 == Number(s[1..]);
    }
  }

  lemma BaseOfWord()
    ensures Base(4) == WORD
  {
    assert Base(2) == 65536;
  }

  function Unsigned(w: int): int {
    if w < 0 then w + WORD else w
  }

  function Signed(u: int): int {
    if u < HALF then u else u - WORD
  }

  // ---- records ----

  function Header(e: Event): (s: seq<byte>)
    ensures |s| == HEADER
  {
    Digits(Unsigned(e.wd), 4) + Digits(e.mask, 4) + Digits(e.cookie, 4) + Digits(|e.name|, 4)
  }

  function Encode(e: Event): (s: seq<byte>)
    ensures |s| == Size(e)
  {
    Header(e) + e.name
  }

  /** How far line 88 steps. */
  function Size(e: Event): nat {
    HEADER + |e.name|
  }

  /** The record a pointer to s sees, if header and name lie inside s. */
  function First(s: seq<byte>): Option<Event> {
    if |s| < HEADER then None else
      var len := Number(s[12..16]);
      if len < 0 || HEADER + len > |s| then None
      else Some(Event(Signed(Number(s[0..4])), Number(s[4..8]), Number(s[8..12]), s[HEADER..HEADER + len]))
  }

  /** The little-endian word at byte k. */
  function Word(s: seq<byte>, k: nat): int
    requires k + 4 <= |s|
  {
    var a: int, b: int, c: int, d: int := s[k], s[k + 1], s[k + 2], s[k + 3];
    a + 0x100 * b + 0x1_0000 * c + 0x100_0000 * d
  }

  lemma FourBytes(s: seq<byte>, k: nat)
    requires k + 4 <= |s|
    ensures Number(s[k..k + 4]) == Word(s, k)
  {
    var w := s[k..k + 4];
    assert w[0] == s[k] && w[1] == s[k + 1] && w[2] == s[k + 2] && w[3] == s[k + 3];
    assert w[3..][1..] == [] && w[2..][1..] == w[3..] && w[1..][1..] == w[2..];
    assert Number(w[3..]) == w[3];
    assert Number(w[2..]) == w[2] + 0x100 * Number(w[3..]);
    assert Number(w[1..]) == w[1] + 0x100 * Number(w[2..]);
    assert Number(w) == w[0] + 0x100 * Number(w[1..]);
  }

  /** Where the fields lie: wd, mask, cookie and len are the words at 0, 4, 8 and 12, and the name follows. */
  lemma FirstIs(s: seq<byte>)
    ensures First(s).Some? <==> 16 <= |s| && 16 + Word(s, 12) <= |s|
    ensures First(s).Some? ==>
              var e := First(s).value;
              && e.wd == (if Word(s, 0) < 0x8000_0000 then Word(s, 0) else Word(s, 0) - 0x1_0000_0000)
              && e.mask == Word(s, 4) && e.cookie == Word(s, 8)
              && |e.name| == Word(s, 12) && e.name == s[16..16 + Word(s, 12)]
              && Size(e) == 16 + Word(s, 12)
  {
    if 16 <= |s| {
      FourBytes(s, 0);
      FourBytes(s, 4);
      FourBytes(s, 8);
      FourBytes(s, 12);
    }
  }

  /** An encoded record reads back, whatever follows it. */
  lemma FirstOfEncoding(e: Event, tail: seq<byte>)
    requires Representable(e)
    ensures First(Encode(e) + tail) == Some(e)
  {
    var s := Encode(e) + tail;
    FieldsOfHeader(e, s);
    assert s[HEADER..HEADER + |e.name|] == e.name;
  }

  lemma FourFields(s: seq<byte>, a: seq<byte>, b: seq<byte>, c: seq<byte>, d: seq<byte>)
    requires |a| == |b| == |c| == |d| == 4 && a + b + c + d <= s
    ensures |s| >= HEADER && s[0..4] == a && s[4..8] == b && s[8..12] == c && s[12..16] == d
  {
    assert s[..HEADER] == a + b + c + d;
  }

  lemma FieldsOfHeader(e: Event, s: seq<byte>)
    requires Representable(e) && Header(e) <= s
    ensures Number(s[0..4]) == Unsigned(e.wd) && Number(s[4..8]) == e.mask
    ensures Number(s[8..12]) == e.cookie && Number(s[12..16]) == |e.name|
  {
    FourFields(s, Digits(Unsigned(e.wd), 4), Digits(e.mask, 4), Digits(e.cookie, 4), Digits(|e.name|, 4));
    BaseOfWord();
    NumberOfDigits(Unsigned(e.wd), 4);
    NumberOfDigits(e.mask, 4);
    NumberOfDigits(e.cookie, 4);
    NumberOfDigits(|e.name|, 4);
  }

  /** Four bytes are the digits of their number. */
  lemma FieldIs(s: seq<byte>, k: nat)
    requires k + 4 <= |s|
    ensures 0 <= Number(s[k..k + 4]) < WORD
    ensures Digits(Number(s[k..k + 4]), 4) == s[k..k + 4]
  {
    BaseOfWord();
    DigitsOfNumber(s[k..k + 4]);
  }

  lemma HeaderOfFields(s: seq<byte>, e: Event)
    requires HEADER <= |s|
    requires Unsigned(e.wd) == Number(s[0..4]) && e.mask == Number(s[4..8])
    requires e.cookie == Number(s[8..12]) && |e.name| == Number(s[12..16])
    ensures Header(e) == s[..HEADER]
  {
    assert Digits(Unsigned(e.wd), 4) == s[0..4] by { FieldIs(s, 0); }
    assert Digits(e.mask, 4) == s[4..8] by { FieldIs(s, 4); }
    assert Digits(e.cookie, 4) == s[8..12] by { FieldIs(s, 8); }
    assert Digits(|e.name|, 4) == s[12..16] by { FieldIs(s, 12); }
    assert s[..HEADER] == s[0..4] + s[4..8] + s[8..12] + s[12..16];
  }

  lemma FirstIsRepresentable(s: seq<byte>)
    requires First(s).Some?
    ensures var e := First(s).value;
            Representable(e) && Size(e) <= |s| && e.name == s[HEADER..Size(e)] && Unsigned(e.wd) == Number(s[0..4])
  {
    FieldIs(s, 0);
    FieldIs(s, 4);
    FieldIs(s, 8);
    FieldIs(s, 12);
  }

  lemma RecordSplits(s: seq<byte>, header: seq<byte>, name: seq<byte>)
    requires HEADER + |name| <= |s| && header == s[..HEADER] && name == s[HEADER..HEADER + |name|]
    ensures s == header + name + s[HEADER + |name|..]
  {
  }

  /** Any record the walk accepts is the encoding of what it decodes. */
  lemma EncodingOfFirst(s: seq<byte>)
    requires First(s).Some?
    ensures var e := First(s).value;
            Representable(e) && Size(e) <= |s| && s == Encode(e) + s[Size(e)..]
  {
    FirstIsRepresentable(s);
    HeaderOfFields(s, First(s).value);
    RecordSplits(s, Header(First(s).value), First(s).value.name);
  }

  lemma CodecReadsBack()
    ensures Records.ReadsBack(First, Size, Encode, Representable)
  {
    forall e: Event, tail: seq<byte>
      ensures Records.ReadsBackOne(First, Size, Encode, Representable, e, tail)
    {
      if Representable(e) {
        FirstOfEncoding(e, tail);
      }
    }
  }

  lemma CodecWritesBack()
    ensures Records.WritesBack(First, Size, Encode, Representable)
  {
    forall s: seq<byte>
      ensures Records.WritesBackOne(First, Size, Encode, Representable, s)
    {
      if First(s).Some? {
        EncodingOfFirst(s);
      }
    }
  }

  /** The walk of the program: every record it visits, or None if it would leave the bytes that were read. */
  function Walked(s: seq<byte>): Option<seq<Event>> {
    Records.Walked(First, Size, s)
  }

  /** What the kernel leaves in the buffer: the records back to back. */
  function EncodeAll(es: seq<Event>): seq<byte> {
    Records.Joined(Encode, es)
  }

  /** Every list of events, encoded back to back, is visited exactly, in order and to the end. */
  lemma WalkOfEncoding(es: seq<Event>)
    requires Records.All(Representable, es)
    ensures Walked(EncodeAll(es)) == Some(es)
  {
    CodecReadsBack();
    Records.WalkOfJoined(First, Size, Encode, Representable, es);
  }

  /** A walk that stays inside has decoded the whole buffer: encoding its events gives the buffer back. */
  lemma EncodingOfWalk(s: seq<byte>)
    requires Walked(s).Some?
    ensures Records.All(Representable, Walked(s).value) && EncodeAll(Walked(s).value) == s
  {
    CodecWritesBack();
    Records.JoinedOfWalk(First, Size, Encode, Representable, s);
  }

  /** The walk stays inside the buffer if and only if the buffer is a sequence of whole records. */
  lemma WalkStaysInsideIff(s: seq<byte>)
    ensures Walked(s).Some? <==> exists es :: Records.All(Representable, es) && EncodeAll(es) == s
  {
    if Walked(s).Some? {
      EncodingOfWalk(s);
    }
    forall es | Records.All(Representable, es) && EncodeAll(es) == s
      ensures Walked(s).Some?
    {
      WalkOfEncoding(es);
    }
  }

  /** The name that `displayEvent` prints is the one that was padded with NULs, if it has none itself. */
  lemma ShownName(name: seq<byte>, padding: nat)
    requires NUL !in name && 1 <= padding
    ensures CString(name + seq(padding, i => NUL)) == name
  {
    var zeros: seq<byte> := seq(padding, i => NUL);
    assert name + zeros == name + [NUL] + zeros[1..];
    CStringStops(name, zeros[1..]);
    CStringIs(name);
  }

  /** Lines 83-89 on a buffer holding `number` bytes; `inside` records that no record reached past them. */
  method Walk(buffer: array<byte>, number: nat) returns (inside: bool, events: seq<Event>)
    requires number <= buffer.Length
    ensures inside <==> exists es :: Records.All(Representable, es) && EncodeAll(es) == buffer[..number]
    ensures inside ==> Records.All(Representable, events) && EncodeAll(events) == buffer[..number]
  {
    inside, events := Records.Walk(First, Size, buffer, number);
    WalkStaysInsideIff(buffer[..number]);
    if inside {
      EncodingOfWalk(buffer[..number]);
    }
  }
}
