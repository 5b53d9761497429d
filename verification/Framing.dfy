/** Cutting the byte stream of a connection into OpenFlow messages. */
module Framing {

  type Byte = b: int | 0 <= b < 256

  const HEADER_LEN := 8
  const MAX_PAYLOAD := 65536
  const MAX_TYPE := 255

  function Length(s: seq<Byte>): nat
    requires |s| >= HEADER_LEN
  {
    s[2] as int * 256 + s[3] as int
  }

  predicate HeaderOk(s: seq<Byte>)
    requires |s| >= HEADER_LEN
  {
    Length(s) <= MAX_PAYLOAD && s[0] in {1, 4, 5} && s[1] < MAX_TYPE
  }

  /** How a scan ends: short of a whole message, at a header it rejects, or at one of length zero, which it never passes. */
  datatype End = Rest(bytes: seq<Byte>) | Corrupt | Stuck

  /** The messages a stream holds, by the lengths in their headers. */
  function Split(s: seq<Byte>): (seq<seq<Byte>>, End)
    decreases |s|
  {
    if |s| < HEADER_LEN then ([], Rest(s))
    else if !HeaderOk(s) then ([], Corrupt)
    else if |s| < Length(s) then ([], Rest(s))
    else if Length(s) == 0 then ([], Stuck)
    else
      var (ms, end) := Split(s[Length(s)..]);
      ([s[..Length(s)]] + ms, end)
  }

  lemma SplitFirst(s: seq<Byte>)
    requires |s| >= HEADER_LEN && HeaderOk(s) && 0 < Length(s) <= |s|
    ensures Split(s) == ([s[..Length(s)]] + Split(s[Length(s)..]).0, Split(s[Length(s)..]).1)
  {
  }

  lemma SameHeader(a: seq<Byte>, b: seq<Byte>)
    requires |a| >= HEADER_LEN
    ensures HeaderOk(a + b) == HeaderOk(a) && Length(a + b) == Length(a)
  {
  }

  ghost predicate Joins(a: seq<Byte>, b: seq<Byte>) {
    var (ms, end) := Split(a);
    match end
    case Rest(r) => Split(a + b) == (ms + Split(r + b).0, Split(r + b).1)
    case _ => Split(a + b) == (ms, end)
  }

  lemma JoinsAtEnd(a: seq<Byte>, b: seq<Byte>)
    requires |a| < HEADER_LEN || !HeaderOk(a) || Length(a) == 0 || Length(a) > |a|
    ensures Joins(a, b)
  {
    assert Split(a).0 == [];
    assert Split(a).1.Rest? ==> Split(a).1.bytes == a;
    if |a| >= HEADER_LEN {
      SameHeader(a, b);
      if !HeaderOk(a) || Length(a) == 0 {
        assert |a + b| >= Length(a + b) || !HeaderOk(a + b);
        assert Split(a + b).0 == [] && Split(a + b).1 == Split(a).1;
      }
    }
    hide Split, HeaderOk, Length;
    assert [] + Split(a + b).0 == Split(a + b).0;
  }

  lemma SplitFirstOf(a: seq<Byte>, b: seq<Byte>, n: nat)
    requires |a| >= HEADER_LEN && HeaderOk(a) && 0 < Length(a) == n <= |a|
    ensures Split(a + b) == ([a[..n]] + Split(a[n..] + b).0, Split(a[n..] + b).1)
  {
    SameHeader(a, b);
    SplitFirst(a + b);
    hide HeaderOk, Length, Split;
    assert (a + b)[n..] == a[n..] + b && (a + b)[..n] == a[..n];
  }

  lemma JoinsAfter(a: seq<Byte>, b: seq<Byte>, n: nat)
    requires |a| >= HEADER_LEN && HeaderOk(a) && 0 < Length(a) == n <= |a| && Joins(a[n..], b)
    ensures Joins(a, b)
  {
    SplitFirst(a);
    SplitFirstOf(a, b, n);
    hide HeaderOk, Length, Split;
    if Split(a[n..]).1.Rest? {
      Glue(a[..n], Split(a[n..]).0, Split(Split(a[n..]).1.bytes + b).0);
    }
  }

  lemma Glue(m: seq<Byte>, x: seq<seq<Byte>>, y: seq<seq<Byte>>)
    ensures [m] + (x + y) == [m] + x + y
  {
  }

  /** A stream arriving in two pieces: the rest of the first is read again in front of the second. */
  lemma {:induction false} SplitJoin(a: seq<Byte>, b: seq<Byte>)
    ensures Joins(a, b)
    decreases |a|
  {
    hide Joins, Split;
    if |a| < HEADER_LEN || !HeaderOk(a) || Length(a) == 0 || Length(a) > |a| {
      JoinsAtEnd(a, b);
    } else {
      SplitJoin(a[Length(a)..], b);
      JoinsAfter(a, b, Length(a));
    }
  }

  // ---------- Messages on the wire ----------

  /** A well-formed message: its length, in the third and fourth byte, the larger one first; its version and its type. */
  predicate OnWire(m: seq<Byte>) {
    8 <= |m| < 0x10000 && m[2] == |m| / 256 && m[3] == |m| % 256 && m[0] in {1, 4, 5} && m[1] < 255
  }

  function Concat(ms: seq<seq<Byte>>): seq<Byte> {
    if ms == [] then [] else ms[0] + Concat(ms[1..])
  }

  /** A message at the head of a stream is cut off as it is, whatever follows. */
  lemma WireFirst(m: seq<Byte>, b: seq<Byte>)
    requires OnWire(m)
    ensures Split(m + b) == ([m] + Split(b).0, Split(b).1)
  {
    assert HeaderOk(m) && Length(m) == |m|;
    SplitFirstOf(m, b, |m|);
    hide Split, HeaderOk, Length;
    assert m[..|m|] == m && m[|m|..] + b == b;
  }

  /** Messages in front of anything else are split off, each as it is and in order. */
  lemma {:induction false} WireSplitsThen(ms: seq<seq<Byte>>, b: seq<Byte>)
    requires forall i :: 0 <= i < |ms| ==> OnWire(ms[i])
    ensures Split(Concat(ms) + b) == (ms + Split(b).0, Split(b).1)
    decreases |ms|
  {
    hide Split, OnWire;
    if ms == [] {
      assert Concat(ms) + b == b && ms + Split(b).0 == Split(b).0;
    } else {
      WireSplitsThen(ms[1..], b);
      WireFirst(ms[0], Concat(ms[1..]) + b);
      assert Concat(ms) + b == ms[0] + (Concat(ms[1..]) + b);
      assert [ms[0]] + (ms[1..] + Split(b).0) == ms + Split(b).0;
    }
  }

  /** `s` is made up of well-formed messages and the beginning of a header. */
  ghost predicate Carries(s: seq<Byte>, ms: seq<seq<Byte>>, rest: seq<Byte>) {
    (forall i :: 0 <= i < |ms| ==> OnWire(ms[i])) && s == Concat(ms) + rest && |rest| < 8
  }

  /** A stream of messages is split into exactly those messages, and what is left is left. */
  lemma WireSplits(s: seq<Byte>, ms: seq<seq<Byte>>, rest: seq<Byte>)
    requires Carries(s, ms, rest)
    ensures Split(s) == (ms, Rest(rest))
  {
    WireEnds(rest);
    WireSplitsThen(ms, rest);
    hide Split, OnWire;
    assert ms + [] == ms;
  }

  /** What stands where a message should begin and is none: a bad version or type, no length, or too few bytes. */
  lemma WireEnds(s: seq<Byte>)
    ensures |s| < 8 ==> Split(s) == ([], Rest(s))
    ensures |s| >= 8 && (s[0] !in {1, 4, 5} || s[1] == 255) ==> Split(s) == ([], Corrupt)
    ensures |s| >= 8 && s[0] in {1, 4, 5} && s[1] < 255 && s[2] == s[3] == 0 ==> Split(s) == ([], Stuck)
    ensures |s| >= 8 && s[0] in {1, 4, 5} && s[1] < 255 && |s| < s[2] as int * 256 + s[3] as int ==> Split(s) == ([], Rest(s))
  {
  }

  lemma ConcatFirst(m: seq<Byte>, ms: seq<seq<Byte>>)
    ensures Concat([m] + ms) == m + Concat(ms)
  {
    assert ([m] + ms)[1..] == ms;
  }

  /** What is split off and what is left make up the stream. */
  ghost predicate Conserved(s: seq<Byte>) {
    Split(s).1.Rest? ==> s == Concat(Split(s).0) + Split(s).1.bytes
  }

  lemma ConservedAtEnd(s: seq<Byte>)
    requires |s| < HEADER_LEN || !HeaderOk(s) || Length(s) == 0 || Length(s) > |s|
    ensures Conserved(s)
  {
    assert Split(s).0 == [] && (Split(s).1.Rest? ==> Split(s).1.bytes == s);
    hide Split, HeaderOk, Length;
    assert Concat([]) + s == s;
  }

  lemma ConservedAfter(s: seq<Byte>, n: nat)
    requires |s| >= HEADER_LEN && HeaderOk(s) && 0 < Length(s) == n <= |s| && Conserved(s[n..])
    ensures Conserved(s)
  {
    SplitFirst(s);
    hide Split, HeaderOk, Length, Concat;
    var more, end := Split(s[n..]).0, Split(s[n..]).1;
    if end.Rest? {
      ConcatFirst(s[..n], more);
      Joined(s, n, Concat(more), end.bytes);
    }
  }

  lemma Joined(s: seq<Byte>, n: nat, c: seq<Byte>, d: seq<Byte>)
    requires n <= |s| && s[n..] == c + d
    ensures s == s[..n] + c + d
  {
    assert s == s[..n] + s[n..];
  }

  /** No byte is lost, doubled or moved: the messages and what is left make up the stream. */
  lemma SplitConserves(s: seq<Byte>)
    ensures Split(s).1.Rest? ==> s == Concat(Split(s).0) + Split(s).1.bytes
  {
    ConservedAll(s);
    hide Split, Concat;
  }

  lemma {:induction false} ConservedAll(s: seq<Byte>)
    ensures Conserved(s)
    decreases |s|
  {
    hide Conserved, Split;
    if |s| < HEADER_LEN || !HeaderOk(s) || Length(s) == 0 || Length(s) > |s| {
      ConservedAtEnd(s);
    } else {
      ConservedAll(s[Length(s)..]);
      ConservedAfter(s, Length(s));
    }
  }

  // ---------- Reads ----------

  /**
   What a read leaves in the buffer. When the messages taken out are exactly as long as what was read, the
   buffer is wound back to where it was before the read, and shows what it showed then.
   */
  function Carried(carry: seq<Byte>, rest: seq<Byte>): seq<Byte> {
    if |rest| == |carry| then carry else rest
  }

  /** The wind-back shows the wrong bytes. */
  predicate Stale(carry: seq<Byte>, rest: seq<Byte>) {
    |rest| == |carry| && rest != carry
  }

  datatype Conn = Conn(carry: seq<Byte>, got: seq<seq<Byte>>, end: End)

  const OPEN := Conn([], [], Rest([]))

  function Read(c: Conn, chunk: seq<Byte>): Conn {
    if !c.end.Rest? then c
    else
      var (ms, end) := Split(c.carry + chunk);
      Conn(if end.Rest? then Carried(c.carry, end.bytes) else [], c.got + ms, end)
  }

  function Reads(chunks: seq<seq<Byte>>): Conn {
    if chunks == [] then OPEN else Read(Reads(chunks[..|chunks| - 1]), chunks[|chunks| - 1])
  }

  function Stream(chunks: seq<seq<Byte>>): seq<Byte> {
    if chunks == [] then [] else Stream(chunks[..|chunks| - 1]) + chunks[|chunks| - 1]
  }

  /** The connection has delivered the messages of the stream so far, and holds the bytes of the next one. */
  predicate InStep(chunks: seq<seq<Byte>>) {
    var (ms, end) := Split(Stream(chunks));
    Reads(chunks).got == ms && Reads(chunks).end == end && (end.Rest? ==> Reads(chunks).carry == end.bytes)
  }

  /** The stream before the last of these reads, and after it, ends in unfinished messages of the same length but not the same bytes. */
  predicate WindsBack(chunks: seq<seq<Byte>>)
    requires chunks != []
  {
    var before, after := Split(Stream(chunks[..|chunks| - 1])).1, Split(Stream(chunks)).1;
    before.Rest? && after.Rest? && Stale(before.bytes, after.bytes)
  }

  /** A read keeps the connection in step exactly when it does not wind back onto stale bytes. */
  lemma ReadInStep(chunks: seq<seq<Byte>>)
    requires chunks != [] && InStep(chunks[..|chunks| - 1])
    ensures InStep(chunks) <==> !WindsBack(chunks)
  {
    var before, chunk := chunks[..|chunks| - 1], chunks[|chunks| - 1];
    SplitJoin(Stream(before), chunk);
    hide Split;
  }

  /** However the stream is cut into reads, the messages are those of the whole stream, if no read winds back onto stale bytes. */
  lemma {:induction false} AnyCutDelivers(chunks: seq<seq<Byte>>)
    requires forall k :: 0 < k <= |chunks| ==> !WindsBack(chunks[..k])
    ensures InStep(chunks)
    decreases |chunks|
  {
    if chunks != [] {
      var n := |chunks| - 1;
      forall k | 0 < k <= n ensures !WindsBack(chunks[..n][..k]) {
        assert chunks[..n][..k] == chunks[..k];
      }
      assert chunks[..|chunks|] == chunks;
      hide WindsBack, InStep;
      AnyCutDelivers(chunks[..n]);
      ReadInStep(chunks);
    } else {
      assert Split([]) == ([], Rest([]));
    }
  }

  /** Messages on the wire arrive as they were sent, however the reads cut them, if none winds back onto stale bytes. */
  lemma WireDelivered(ms: seq<seq<Byte>>, chunks: seq<seq<Byte>>)
    requires forall i :: 0 <= i < |ms| ==> OnWire(ms[i])
    requires Stream(chunks) == Concat(ms) && forall k :: 0 < k <= |chunks| ==> !WindsBack(chunks[..k])
    ensures Reads(chunks) == Conn([], ms, Rest([]))
  {
    hide Split, OnWire, WindsBack;
    assert Concat(ms) + [] == Concat(ms);
    WireSplits(Concat(ms), ms, []);
    AnyCutDelivers(chunks);
  }

  /** And if one does, the connection is out of step after the first that does: the condition is exact. */
  lemma InStepIffNoWindBack(chunks: seq<seq<Byte>>)
    ensures (forall k :: 0 <= k <= |chunks| ==> InStep(chunks[..k]))
            <==> (forall k :: 0 < k <= |chunks| ==> !WindsBack(chunks[..k]))
  {
    if forall k :: 0 < k <= |chunks| ==> !WindsBack(chunks[..k]) {
      forall k | 0 <= k <= |chunks| ensures InStep(chunks[..k]) {
        forall j | 0 < j <= k ensures !WindsBack(chunks[..k][..j]) {
          assert chunks[..k][..j] == chunks[..j];
        }
        hide WindsBack, InStep;
        AnyCutDelivers(chunks[..k]);
      }
    }
    if forall k :: 0 <= k <= |chunks| ==> InStep(chunks[..k]) {
      forall k | 0 < k <= |chunks| ensures !WindsBack(chunks[..k]) {
        assert InStep(chunks[..k]) && InStep(chunks[..k - 1]);
        assert chunks[..k][..k - 1] == chunks[..k - 1];
        hide WindsBack, InStep;
        ReadInStep(chunks[..k]);
      }
    }
  }

  /** An eight-byte message, header and no body. */
  predicate Bare(m: seq<Byte>) {
    |m| == 8 && m[0] in {1, 4, 5} && m[1] < 255 && m[2] == 0 && m[3] == 8
  }

  lemma OneMessage(m: seq<Byte>)
    requires Bare(m)
    ensures Split(m) == ([m], Rest([]))
  {
    SplitFirst(m);
    assert m[..8] == m && m[8..] == [];
    assert Split([]) == ([], Rest([]));
    assert [m] + [] == [m];
  }

  lemma MessageAndMore(m: seq<Byte>, b: seq<Byte>)
    requires Bare(m)
    ensures Split(m + b) == ([m] + Split(b).0, Split(b).1)
  {
    OneMessage(m);
    SplitJoin(m, b);
    assert [] + b == b;
    hide Split;
  }

  /** Two bare messages, the reads cutting each in half. */
  function Halves(m: seq<Byte>, k: seq<Byte>): seq<seq<Byte>>
    requires |m| == 8 && |k| == 8
  {
    [m[..4], m[4..] + k[..4], k[4..]]
  }

  lemma HalvesStream(m: seq<Byte>, k: seq<Byte>)
    requires Bare(m) && Bare(k)
    ensures Stream(Halves(m, k)) == m + k && Split(m + k).0 == [m, k]
  {
    var c := Halves(m, k);
    assert c[..2][..1] == c[..1];
    assert Stream(c[..1]) == [] + c[0];
    assert Stream(c[..2]) == m[..4] + (m[4..] + k[..4]);
    MessageAndMore(m, k);
    OneMessage(k);
    hide Split;
    assert [m] + [k] == [m, k];
  }

  lemma HalvesRead(m: seq<Byte>, k: seq<Byte>)
    requires Bare(m) && Bare(k)
    ensures Reads(Halves(m, k)).got == [m, m[..4] + k[4..]]
  {
    var c, half, mixed := Halves(m, k), k[..4], m[..4] + k[4..];
    MessageAndMore(m, half);
    OneMessage(mixed);
    assert Split(c[0]) == ([], Rest(c[0])) && Split(half) == ([], Rest(half));
    assert c[0] + c[1] == m + half;
    hide Split, HeaderOk, Length, Bare;
    ReadFirst(c[0]);
    assert c[..2][..1] == c[..1] == [c[0]];
    assert [m] + [] == [m] == [] + [m] && [m] + [mixed] == [m, mixed];
    assert Reads(c[..2]) == Conn(c[0], [m], Rest(half));
  }

  lemma ReadFirst(c: seq<Byte>)
    requires Split(c) == ([], Rest(c))
    ensures Reads([c]) == Conn(c, [], Rest(c))
  {
    assert [] + c == c;
    assert [c][..0] == [];
    hide Split;
    assert Reads([]) == OPEN;
  }

  /** The second message is delivered with the first one's version, type and length: right only if they are the same. */
  lemma HalvesGarble(m: seq<Byte>, k: seq<Byte>)
    requires Bare(m) && Bare(k)
    ensures Reads(Halves(m, k)).got == [m, m[..4] + k[4..]]
    ensures Reads(Halves(m, k)).got == Split(Stream(Halves(m, k))).0 <==> m[..4] == k[..4]
  {
    HalvesStream(m, k);
    HalvesRead(m, k);
    hide Split, Stream, Reads, Halves, Bare;
    var mixed := m[..4] + k[4..];
    assert k == k[..4] + k[4..];
    assert mixed[..4] == m[..4];
    assert [m, mixed][1] == mixed && [m, k][1] == k;
  }
}
