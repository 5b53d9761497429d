/** The builders and parsers as they run: loops over offsets into a message body. */
module CodecLoops {
  import opened Options
  import opened Framing
  import opened Codec

  function After<T>(done: seq<T>, rest: Option<seq<T>>): Option<seq<T>> {
    match rest
    case None => None
    case Some(x) => Some(done + x)
  }

  lemma BucketStep(s: seq<Byte>, dist: nat, n: nat, done: seq<Bucket>, accepts: seq<Byte> -> bool)
    requires dist + BKT_LEN <= |s| && n < MAX_VECTORS
    ensures var t := s[dist..];
            var now := After(done, ParseBuckets(t, n, accepts));
            && (At16(t, 2) > |t| - BKT_LEN ==> now == None)
            && (At16(t, 2) <= |t| - BKT_LEN ==>
                  var b := ReadBucket(t);
                  if accepts(b.actions) then now == After(done + [b], ParseBuckets(s[dist + BKT_LEN + |b.actions|..], n + 1, accepts))
                  else now == None)
  {
    var t := s[dist..];
    if At16(t, 2) <= |t| - BKT_LEN {
      var b := ReadBucket(t);
      var k := BKT_LEN + |b.actions|;
      assert t[k..] == s[dist + k..];
      var r := ParseBuckets(t[k..], n + 1, accepts);
      if r.Some? {
        assert done + ([b] + r.value) == done + [b] + r.value;
      }
      hide ReadBucket, At16;
    }
  }

  /** `done` buckets are read off the first `dist` bytes, and the parser goes on from there. */
  ghost predicate BucketsSoFar(s: seq<Byte>, dist: nat, n: nat, done: seq<Bucket>, accepts: seq<Byte> -> bool) {
    dist <= |s| && After(done, ParseBuckets(s[dist..], n, accepts)) == ParseBuckets(s, 0, accepts)
  }

  lemma BucketsBegin(s: seq<Byte>, accepts: seq<Byte> -> bool)
    ensures BucketsSoFar(s, 0, 0, [], accepts)
  {
    var r := ParseBuckets(s, 0, accepts);
    hide ParseBuckets;
    assert s[0..] == s;
    assert r.Some? ==> [] + r.value == r.value;
  }

  lemma BucketsMore(s: seq<Byte>, dist: nat, n: nat, done: seq<Bucket>, accepts: seq<Byte> -> bool)
    requires BucketsSoFar(s, dist, n, done, accepts) && dist + BKT_LEN <= |s| && n < MAX_VECTORS
    ensures var t := s[dist..];
            && (At16(t, 2) > |t| - BKT_LEN ==> ParseBuckets(s, 0, accepts) == None)
            && (At16(t, 2) <= |t| - BKT_LEN ==>
                  var b := ReadBucket(t);
                  && |b.actions| == At16(t, 2)
                  && if accepts(b.actions) then BucketsSoFar(s, dist + BKT_LEN + |b.actions|, n + 1, done + [b], accepts)
                     else ParseBuckets(s, 0, accepts) == None)
  {
    var t := s[dist..];
    BucketStep(s, dist, n, done, accepts);
    if At16(t, 2) <= |t| - BKT_LEN {
      BucketLen(t);
    }
    hide ParseBuckets, ReadBucket, At16;
  }

  method ParseGroup(s: seq<Byte>, accepts: seq<Byte> -> bool) returns (r: Option<seq<Bucket>>)
    ensures r == ParseBuckets(s, 0, accepts)
  {
    hide ParseBuckets, ReadBucket, At16, BucketsSoFar;
    var dist, left, n := 0, |s|, 0;
    var done: seq<Bucket> := [];
    BucketsBegin(s, accepts);
    while left >= BKT_LEN && n < MAX_VECTORS
      invariant 0 <= dist <= |s| && dist + left == |s| && BucketsSoFar(s, dist, n, done, accepts)
      decreases left
    {
      BucketsMore(s, dist, n, done, accepts);
      var t := s[dist..];
      var len := At16(t, 2);
      if len > left - BKT_LEN {
        return None;
      }
      var b := ReadBucket(t);
      if !accepts(b.actions) {
        return None;
      }
      done := done + [b];
      dist, left, n := dist + BKT_LEN + len, left - BKT_LEN - len, n + 1;
    }
    BucketsEnd(s, dist, n, done, accepts);
    r := Some(done);
  }

  lemma BucketsEnd(s: seq<Byte>, dist: nat, n: nat, done: seq<Bucket>, accepts: seq<Byte> -> bool)
    requires BucketsSoFar(s, dist, n, done, accepts) && (|s| - dist < BKT_LEN || n >= MAX_VECTORS)
    ensures ParseBuckets(s, 0, accepts) == Some(done)
  {
    ParseEnds(s[dist..], n, accepts);
    hide ParseBuckets;
    assert done + [] == done;
  }

  lemma BucketLen(t: seq<Byte>)
    requires |t| >= BKT_LEN && At16(t, 2) <= |t| - BKT_LEN
    ensures |ReadBucket(t).actions| == At16(t, 2)
  {
  }

  lemma ParseEnds(t: seq<Byte>, n: nat, accepts: seq<Byte> -> bool)
    requires |t| < BKT_LEN || n >= MAX_VECTORS
    ensures ParseBuckets(t, n, accepts) == Some([])
  {
  }

  lemma {:induction false} PrintMore(bs: seq<Bucket>, i: nat)
    requires AllFit(bs) && i < |bs|
    ensures PrintBuckets(bs[..i + 1]) == PrintBuckets(bs[..i]) + PrintBucket(bs[i])
    decreases i
  {
    hide PrintBucket;
    if i == 0 {
      assert bs[..1][1..] == [] && bs[..0] == [];
      assert PrintBucket(bs[0]) + [] == PrintBucket(bs[0]) && [] + PrintBucket(bs[0]) == PrintBucket(bs[0]);
    } else {
      assert bs[..i + 1][1..] == bs[1..][..i] && bs[..i][1..] == bs[1..][..i - 1];
      PrintMore(bs[1..], i - 1);
      assert bs[1..][..i - 1 + 1] == bs[1..][..i] && bs[1..][i - 1] == bs[i];
      Assoc(PrintBucket(bs[0]), PrintBuckets(bs[1..][..i - 1]), PrintBucket(bs[i]));
    }
  }

  lemma Assoc(a: seq<Byte>, b: seq<Byte>, c: seq<Byte>)
    ensures a + (b + c) == a + b + c
  {
  }

  /** Sizes the message first, then fills it bucket by bucket. */
  method PrintGroup(bs: seq<Bucket>) returns (body: seq<Byte>)
    requires AllFit(bs)
    ensures body == PrintBuckets(bs)
  {
    hide PrintBuckets, PrintBucket, Fits;
    var total := 0;
    PrintedNone(bs);
    for i := 0 to |bs|
      invariant total == |PrintBuckets(bs[..i])|
    {
      PrintMore(bs, i);
      total := total + BKT_LEN + |bs[i].actions|;
      BucketSize(bs[i]);
    }
    var buf := new Byte[total];
    var off := 0;
    for i := 0 to |bs|
      invariant off == |PrintBuckets(bs[..i])| <= total == |PrintBuckets(bs[..|bs|])| == buf.Length
      invariant buf[..off] == PrintBuckets(bs[..i])
    {
      PrintMore(bs, i);
      PrintedGrows(bs, i + 1);
      var one := PrintBucket(bs[i]);
      ghost var was := buf[..off];
      forall k | 0 <= k < |one| {
        buf[off + k] := one[k];
      }
      off := off + |one|;
      assert buf[..off] == was + one;
    }
    assert bs[..|bs|] == bs;
    body := buf[..];
  }

  lemma PrintedNone(bs: seq<Bucket>)
    ensures AllFit(bs[..0]) && PrintBuckets(bs[..0]) == []
  {
  }

  lemma BucketSize(b: Bucket)
    requires Fits(b)
    ensures |PrintBucket(b)| == BKT_LEN + |b.actions|
  {
  }

  lemma {:induction false} PrintedGrows(bs: seq<Bucket>, i: nat)
    requires AllFit(bs) && i <= |bs|
    ensures |PrintBuckets(bs[..i])| <= |PrintBuckets(bs[..|bs|])|
    decreases |bs| - i
  {
    if i < |bs| {
      PrintMore(bs, i);
      PrintedGrows(bs, i + 1);
    }
  }

  // ---------- Meters ----------

  lemma BandStep(s: seq<Byte>, dist: nat, n: nat, done: seq<seq<Byte>>)
    requires dist + BAND_LEN <= |s| && n < MAX_VECTORS
    ensures var t := s[dist..];
            var now := After(done, ParseBands(t, n));
            var k := At16(t, 2);
            if k > |t| then now == None else now == After(done + [t[..k]], ParseBands(s[dist + k..], n + 1))
  {
    var t := s[dist..];
    var k := At16(t, 2);
    if k <= |t| {
      assert t[k..] == s[dist + k..];
      var r := ParseBands(t[k..], n + 1);
      if r.Some? {
        assert done + ([t[..k]] + r.value) == done + [t[..k]] + r.value;
      }
      hide At16;
    }
  }

  /** `done` bands are read off the first `dist` bytes, and the parser goes on from there. */
  ghost predicate BandsSoFar(s: seq<Byte>, dist: nat, n: nat, done: seq<seq<Byte>>) {
    dist <= |s| && After(done, ParseBands(s[dist..], n)) == ParseBands(s, 0)
  }

  lemma BandsBegin(s: seq<Byte>)
    ensures BandsSoFar(s, 0, 0, [])
  {
    var r := ParseBands(s, 0);
    hide ParseBands;
    assert s[0..] == s;
    assert r.Some? ==> [] + r.value == r.value;
  }

  lemma BandsMore(s: seq<Byte>, dist: nat, n: nat, done: seq<seq<Byte>>)
    requires BandsSoFar(s, dist, n, done) && dist + BAND_LEN <= |s| && n < MAX_VECTORS
    ensures var t := s[dist..];
            var k := At16(t, 2);
            if k > |t| then ParseBands(s, 0) == None else BandsSoFar(s, dist + k, n + 1, done + [t[..k]])
  {
    BandStep(s, dist, n, done);
    hide ParseBands, At16;
  }

  method ParseMeter(s: seq<Byte>) returns (r: Option<seq<seq<Byte>>>)
    ensures r == ParseBands(s, 0)
  {
    var dist, left, n := 0, |s|, 0;
    var done: seq<seq<Byte>> := [];
    BandsBegin(s);
    hide ParseBands, At16, BandsSoFar;
    while left >= BAND_LEN && n < MAX_VECTORS
      invariant 0 <= dist <= |s| && dist + left == |s| && BandsSoFar(s, dist, n, done)
      decreases MAX_VECTORS - n
    {
      BandsMore(s, dist, n, done);
      var t := s[dist..];
      var len := At16(t, 2);
      if len > left {
        return None;
      }
      done := done + [t[..len]];
      dist, left, n := dist + len, left - len, n + 1;
    }
    BandsEnd(s, dist, n, done);
    r := Some(done);
  }

  lemma BandsEnd(s: seq<Byte>, dist: nat, n: nat, done: seq<seq<Byte>>)
    requires BandsSoFar(s, dist, n, done) && (|s| - dist < BAND_LEN || n >= MAX_VECTORS)
    ensures ParseBands(s, 0) == Some(done)
  {
    assert ParseBands(s[dist..], n) == Some([]);
    hide ParseBands;
    assert done + [] == done;
  }
}
