/** The receive buffer of a connection, read into and cut up in place. */
module FramingConn {
  import opened Framing

  const RCV_BUF_SZ := 4096

  /** `got` has been taken off `all`, and `rest` is left to scan. */
  ghost predicate SplitsTo(all: seq<Byte>, got: seq<seq<Byte>>, rest: seq<Byte>) {
    Split(all) == (got + Split(rest).0, Split(rest).1)
  }

  lemma Begun(all: seq<Byte>)
    ensures SplitsTo(all, [], all)
  {
    assert [] + Split(all).0 == Split(all).0;
  }

  lemma Taken(all: seq<Byte>, got: seq<seq<Byte>>, s: seq<Byte>)
    requires SplitsTo(all, got, s) && |s| >= HEADER_LEN && HeaderOk(s) && 0 < Length(s) <= |s|
    ensures SplitsTo(all, got + [s[..Length(s)]], s[Length(s)..])
  {
    var n := Length(s);
    SplitFirst(s);
    hide Split, HeaderOk, Length;
    assert got + ([s[..n]] + Split(s[n..]).0) == got + [s[..n]] + Split(s[n..]).0;
  }

  lemma Halted(all: seq<Byte>, got: seq<seq<Byte>>, s: seq<Byte>)
    requires SplitsTo(all, got, s)
    ensures |s| < HEADER_LEN ==> Split(all) == (got, Rest(s))
    ensures |s| >= HEADER_LEN && !HeaderOk(s) ==> Split(all) == (got, Corrupt)
    ensures |s| >= HEADER_LEN && HeaderOk(s) && |s| < Length(s) ==> Split(all) == (got, Rest(s))
    ensures |s| >= HEADER_LEN && HeaderOk(s) && Length(s) == 0 ==> Split(all) == (got, Stuck)
  {
    assert got + [] == got;
  }

  class Receiver {
    var buf: array<Byte>
    var data: nat
    var tail: nat

    ghost predicate Valid()
      reads this
    {
      data <= tail <= buf.Length
    }

    ghost function Contents(): seq<Byte>
      reads this, buf
      requires Valid()
    {
      buf[data..tail]
    }

    constructor ()
      ensures Valid() && fresh(buf) && Contents() == []
    {
      buf, data, tail := new Byte[RCV_BUF_SZ], 0, 0;
    }

    /** There is room for at least a header behind the contents, in a new buffer if need be. */
    method EnsureRoom()
      requires Valid()
      modifies this
      ensures Valid() && Contents() == old(Contents()) && buf.Length - tail >= HEADER_LEN
      ensures buf == old(buf) || fresh(buf)
    {
      if buf.Length - tail < HEADER_LEN {
        var len := tail - data;
        var b := new Byte[len + RCV_BUF_SZ];
        forall i | 0 <= i < len {
          b[i] := buf[data + i];
        }
        assert b[..len] == buf[data..tail];
        buf, data, tail := b, 0, len;
      }
    }

    /** Takes whole messages off the front until the rest is too short, unacceptable or does not move. */
    method TakeMessages() returns (got: seq<seq<Byte>>, end: End, taken: nat)
      requires Valid()
      modifies this`data
      ensures Valid() && (got, end) == Split(old(Contents()))
      ensures data == old(data) + taken && (end.Rest? ==> end.bytes == Contents())
      ensures end.Rest? ==> old(Contents()) == Concat(got) + Contents()
      ensures forall ms, rest :: Carries(old(Contents()), ms, rest) ==> got == ms && end == Rest(rest)
    {
      ghost var all := Contents();
      forall ms, rest | Carries(all, ms, rest) ensures Split(all) == (ms, Rest(rest)) {
        WireSplits(all, ms, rest);
      }
      SplitConserves(all);
      hide Carries;
      Begun(all);
      got, taken := [], 0;
      hide SplitsTo, Split;
      while true
        invariant Valid() && data == old(data) + taken && SplitsTo(all, got, Contents())
        decreases tail - data
      {
        var s := buf[data..tail];
        Halted(all, got, s);
        if |s| < HEADER_LEN {
          return got, Rest(s), taken;
        }
        var n := Length(s);
        if !HeaderOk(s) {
          return got, Corrupt, taken;
        }
        if |s| < n {
          return got, Rest(s), taken;
        }
        if n == 0 {
          return got, Stuck, taken;
        }
        Taken(all, got, s);
        taken := taken + n;
        data := data + n;
        assert Contents() == s[n..];
        got := got + [s[..n]];
      }
    }

    /** One read: the bytes land behind the contents, whole messages are taken, and the buffer may be wound back. */
    method ReadChunk(chunk: seq<Byte>) returns (got: seq<seq<Byte>>, end: End)
      requires Valid() && |chunk| <= buf.Length - tail
      modifies this, buf
      ensures Valid() && buf == old(buf)
      ensures (got, end) == Split(old(Contents()) + chunk)
      ensures Contents() == if end.Rest? then Carried(old(Contents()), end.bytes) else []
    {
      hide Carries, Concat, Split;
      ghost var carry := Contents();
      forall i | 0 <= i < |chunk| {
        buf[tail + i] := chunk[i];
      }
      tail := tail + |chunk|;
      ghost var from := data;
      assert Contents() == carry + chunk;
      var taken;
      got, end, taken := TakeMessages();
      if !end.Rest? {
        data, tail := 0, 0;
        return;
      }
      if taken == |chunk| {
        data, tail := data - |chunk|, tail - |chunk|;
        assert Contents() == carry;
      }
    }
  }
}
