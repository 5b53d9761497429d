/** Group buckets and meter bands on the wire: parsing undoes printing. */
module Codec {
  import opened Options
  import opened Framing

  const MAX_VECTORS := 128
  const BKT_LEN := 16
  const BAND_LEN := 12
  const GROUP_MOD_LEN := 48
  const METER_MOD_LEN := 56
  const TWO_16 := 0x1_0000
  const TWO_32 := 0x1_0000_0000

  // ---------- Numbers ----------

  function U16(v: nat): (s: seq<Byte>)
    requires v < TWO_16
    ensures |s| == 2
  {
    [v / 256, v % 256]
  }

  function At16(s: seq<Byte>, i: nat): (v: nat)
    requires i + 2 <= |s|
    ensures v < TWO_16
  {
    s[i] as int * 256 + s[i + 1] as int
  }

  function U32(v: nat): (s: seq<Byte>)
    requires v < TWO_32
    ensures |s| == 4
  {
    U16(v / TWO_16) + U16(v % TWO_16)
  }

  function At32(s: seq<Byte>, i: nat): (v: nat)
    requires i + 4 <= |s|
    ensures v < TWO_32
  {
    At16(s, i) * TWO_16 + At16(s, i + 2)
  }

  lemma Read16(a: seq<Byte>, v: nat, b: seq<Byte>)
    requires v < TWO_16
    ensures At16(a + U16(v) + b, |a|) == v
  {
  }

  lemma Read32(a: seq<Byte>, v: nat, b: seq<Byte>)
    requires v < TWO_32
    ensures At32(a + U32(v) + b, |a|) == v
  {
    var s := a + U32(v) + b;
    var h, l := U16(v / TWO_16), U16(v % TWO_16);
    assert s == a + h + (l + b) && s == (a + h) + l + b;
    Read16(a, v / TWO_16, l + b);
    Read16(a + h, v % TWO_16, b);
    hide U16, At16;
  }

  // ---------- Buckets ----------

  datatype Bucket = Bucket(weight: nat, ffPort: nat, ffGroup: nat, actions: seq<Byte>)

  /** The fields fit the widths of their types. */
  predicate Fits(b: Bucket) {
    b.weight < TWO_16 && b.ffPort < TWO_32 && b.ffGroup < TWO_32 && |b.actions| < TWO_16
  }

  function PrintBucket(b: Bucket): (s: seq<Byte>)
    requires Fits(b)
    ensures |s| == BKT_LEN + |b.actions|
  {
    U16(b.weight) + U16(|b.actions|) + U32(b.ffPort) + U32(b.ffGroup) + [0, 0, 0, 0] + b.actions
  }

  predicate AllFit(bs: seq<Bucket>) {
    forall i :: 0 <= i < |bs| ==> Fits(bs[i])
  }

  predicate AllAccepted(bs: seq<Bucket>, accepts: seq<Byte> -> bool) {
    forall i :: 0 <= i < |bs| ==> accepts(bs[i].actions)
  }

  function PrintBuckets(bs: seq<Bucket>): seq<Byte>
    requires AllFit(bs)
  {
    if bs == [] then [] else PrintBucket(bs[0]) + PrintBuckets(bs[1..])
  }

  function ReadBucket(s: seq<Byte>): (b: Bucket)
    requires |s| >= BKT_LEN && At16(s, 2) <= |s| - BKT_LEN
    ensures |b.actions| == At16(s, 2)
  {
    Bucket(At16(s, 0), At32(s, 4), At32(s, 8), s[BKT_LEN..BKT_LEN + At16(s, 2)])
  }

  /** The command parser's walk, after `n` buckets. Bytes too few for a bucket, or past the limit, are ignored. */
  function ParseBuckets(s: seq<Byte>, n: nat, accepts: seq<Byte> -> bool): (r: Option<seq<Bucket>>)
    ensures r.Some? ==> n + |r.value| <= MAX_VECTORS || r.value == []
    decreases |s|
  {
    if |s| < BKT_LEN || n >= MAX_VECTORS then Some([])
    else if At16(s, 2) > |s| - BKT_LEN then None
    else
      var b := ReadBucket(s);
      if !accepts(b.actions) then None
      else
        match ParseBuckets(s[BKT_LEN + |b.actions|..], n + 1, accepts)
        case None => None
        case Some(bs) => Some([b] + bs)
  }

  /** Each field of a printed bucket is read back at its own offset. */
  lemma PrintedShorts(b: Bucket, rest: seq<Byte>)
    requires Fits(b)
    ensures var s := PrintBucket(b) + rest; At16(s, 0) == b.weight && At16(s, 2) == |b.actions|
  {
    var w, l := U16(b.weight), U16(|b.actions|);
    var more := U32(b.ffPort) + U32(b.ffGroup) + [0, 0, 0, 0] + b.actions + rest;
    var s := PrintBucket(b) + rest;
    hide U16, U32, At16;
    Read16([], b.weight, l + more);
    Read16(w, |b.actions|, more);
    assert s == [] + w + (l + more) && s == w + l + more;
  }

  lemma PrintedWords(b: Bucket, rest: seq<Byte>)
    requires Fits(b)
    ensures var s := PrintBucket(b) + rest; At32(s, 4) == b.ffPort && At32(s, 8) == b.ffGroup
  {
    var wl, p, g := U16(b.weight) + U16(|b.actions|), U32(b.ffPort), U32(b.ffGroup);
    var more := [0, 0, 0, 0] + b.actions + rest;
    var s := PrintBucket(b) + rest;
    hide U16, U32, At32;
    Read32(wl, b.ffPort, g + more);
    Read32(wl + p, b.ffGroup, more);
    assert s == wl + p + (g + more) && s == (wl + p) + g + more;
  }

  /** A bucket byte by byte: weight, length of the actions, port and group to watch, four bytes of nothing, the actions. */
  lemma BucketLayout(b: Bucket)
    requires Fits(b)
    ensures var (w, n, p, g) := (b.weight, |b.actions|, b.ffPort, b.ffGroup);
            PrintBucket(b) ==
            [w / 0x100, w % 0x100, n / 0x100, n % 0x100]
            + [p / 0x100_0000, p / 0x1_0000 % 0x100, p % 0x1_0000 / 0x100, p % 0x1_0000 % 0x100]
            + [g / 0x100_0000, g / 0x1_0000 % 0x100, g % 0x1_0000 / 0x100, g % 0x1_0000 % 0x100]
            + [0, 0, 0, 0] + b.actions
  {
    WordLayout(b.ffPort);
    WordLayout(b.ffGroup);
    hide U32;
  }

  lemma WordLayout(v: nat)
    requires v < TWO_32
    ensures U32(v) == [v / 0x100_0000, v / 0x1_0000 % 0x100, v % 0x1_0000 / 0x100, v % 0x1_0000 % 0x100]
  {
    assert v / 0x1_0000 / 0x100 == v / 0x100_0000;
  }

  lemma ReadPrinted(b: Bucket, rest: seq<Byte>)
    requires Fits(b)
    ensures var s := PrintBucket(b) + rest;
            At16(s, 2) == |b.actions| && ReadBucket(s) == b && s[BKT_LEN + |b.actions|..] == rest
  {
    PrintedShorts(b, rest);
    PrintedWords(b, rest);
    var s := PrintBucket(b) + rest;
    hide U16, U32, At16, At32;
    assert s[BKT_LEN..BKT_LEN + |b.actions|] == b.actions;
  }

  /** One printed bucket in front of anything else is read, or refused for its actions. */
  lemma ParseOne(b: Bucket, rest: seq<Byte>, n: nat, accepts: seq<Byte> -> bool)
    requires Fits(b) && n < MAX_VECTORS
    ensures var more := ParseBuckets(rest, n + 1, accepts);
            ParseBuckets(PrintBucket(b) + rest, n, accepts) ==
            if accepts(b.actions) && more.Some? then Some([b] + more.value) else None
  {
    ReadPrinted(b, rest);
    var s := PrintBucket(b) + rest;
    assert |s| >= BKT_LEN && At16(s, 2) <= |s| - BKT_LEN;
    hide ReadBucket, PrintBucket, At16, Fits;
  }

  lemma FirstAndRest(bs: seq<Bucket>, accepts: seq<Byte> -> bool)
    requires bs != [] && AllFit(bs) && AllAccepted(bs, accepts)
    ensures Fits(bs[0]) && accepts(bs[0].actions) && AllFit(bs[1..]) && AllAccepted(bs[1..], accepts)
    ensures PrintBuckets(bs) == PrintBucket(bs[0]) + PrintBuckets(bs[1..]) && [bs[0]] + bs[1..] == bs
  {
  }

  /** Within the limit on their number, printed buckets are read back as they were. */
  lemma {:induction false} ParsePrinted(bs: seq<Bucket>, n: nat, accepts: seq<Byte> -> bool)
    requires AllFit(bs) && AllAccepted(bs, accepts)
    requires n + |bs| <= MAX_VECTORS
    ensures ParseBuckets(PrintBuckets(bs), n, accepts) == Some(bs)
    decreases |bs|
  {
    if bs != [] {
      FirstAndRest(bs, accepts);
      hide AllFit, AllAccepted, ParseBuckets, Fits, PrintBucket, PrintBuckets;
      ParsePrinted(bs[1..], n + 1, accepts);
      ParseOne(bs[0], PrintBuckets(bs[1..]), n, accepts);
    }
  }

  /** Where the parser ends: too few bytes for a bucket, or enough buckets; and what it refuses. */
  lemma ParseEnds(s: seq<Byte>, n: nat, accepts: seq<Byte> -> bool)
    ensures |s| < 16 || n >= 128 ==> ParseBuckets(s, n, accepts) == Some([])
    ensures |s| >= 16 && n < 128 && s[2] as int * 256 + s[3] as int > |s| - 16 ==> ParseBuckets(s, n, accepts) == None
  {
  }

  function BucketsLen(bs: seq<Bucket>): nat {
    if bs == [] then 0 else BKT_LEN + |bs[0].actions| + BucketsLen(bs[1..])
  }

  lemma {:induction false} PrintedLen(bs: seq<Bucket>)
    requires AllFit(bs)
    ensures |PrintBuckets(bs)| == BucketsLen(bs)
    decreases |bs|
  {
    if bs != [] {
      PrintedLen(bs[1..]);
    }
  }

  /** What is parsed fits in what was received. */
  lemma {:induction false} ParsedLen(s: seq<Byte>, n: nat, accepts: seq<Byte> -> bool)
    ensures var r := ParseBuckets(s, n, accepts); r.Some? ==> BucketsLen(r.value) <= |s| && |r.value| <= MAX_VECTORS
    decreases |s|
  {
    if |s| >= BKT_LEN && n < MAX_VECTORS && At16(s, 2) <= |s| - BKT_LEN {
      var b := ReadBucket(s);
      var rest := s[BKT_LEN + |b.actions|..];
      ParsedLen(rest, n + 1, accepts);
      var r := ParseBuckets(rest, n + 1, accepts);
      if r.Some? {
        assert ([b] + r.value)[1..] == r.value;
      }
      hide ReadBucket, At16;
    }
  }

  // ---------- Whole messages ----------

  /** A message's body and the 16-bit length in its header. */
  datatype Wire = Wire(length: nat, body: seq<Byte>)

  function Send(header: nat, body: seq<Byte>): Wire {
    Wire((header + |body|) % TWO_16, body)
  }

  /** The part of the body the length covers, unless it does not even cover the header. */
  function Received(w: Wire, header: nat): Option<seq<Byte>> {
    if w.length < header || w.length - header > |w.body| then None else Some(w.body[..w.length - header])
  }

  function ReceiveGroup(w: Wire, accepts: seq<Byte> -> bool): Option<seq<Bucket>> {
    match Received(w, GROUP_MOD_LEN)
    case None => None
    case Some(s) => ParseBuckets(s, 0, accepts)
  }

  /**
   The command parser rebuilds exactly the buckets that were printed if and only if they are no more than
   it takes and the message length fits in sixteen bits.
   */
  lemma GroupRoundTrip(bs: seq<Bucket>, accepts: seq<Byte> -> bool)
    requires AllFit(bs) && AllAccepted(bs, accepts)
    ensures ReceiveGroup(Send(GROUP_MOD_LEN, PrintBuckets(bs)), accepts) == Some(bs)
            <==> |bs| <= 128 && 48 + BucketsLen(bs) < 0x1_0000
  {
    hide ParseBuckets, PrintBuckets, AllFit, AllAccepted;
    var body := PrintBuckets(bs);
    PrintedLen(bs);
    Delivered(GROUP_MOD_LEN, body);
    var got := Received(Send(GROUP_MOD_LEN, body), GROUP_MOD_LEN);
    if got.Some? {
      ParsedLen(got.value, 0, accepts);
    }
    if |bs| <= MAX_VECTORS {
      ParsePrinted(bs, 0, accepts);
    }
    hide Received, Send;
  }

  /** A body arrives whole if the length fits, and otherwise shortened or not at all. */
  lemma Delivered(header: nat, body: seq<Byte>)
    requires header < TWO_16
    ensures var got := Received(Send(header, body), header);
            if header + |body| < TWO_16 then got == Some(body) else got.Some? ==> |got.value| < |body|
  {
    if header + |body| < TWO_16 {
      assert body[..|body|] == body;
    }
  }

  // ---------- Bands ----------

  /** A band is carried as it is; its length field says how long it is. */
  predicate Consistent(b: seq<Byte>)
    requires |b| >= BAND_LEN
  {
    At16(b, 2) == |b|
  }

  function PrintBands(bs: seq<seq<Byte>>): seq<Byte> {
    if bs == [] then [] else bs[0] + PrintBands(bs[1..])
  }

  function ParseBands(s: seq<Byte>, n: nat): Option<seq<seq<Byte>>>
    decreases MAX_VECTORS - n
  {
    if |s| < BAND_LEN || n >= MAX_VECTORS then Some([])
    else if At16(s, 2) > |s| then None
    else
      match ParseBands(s[At16(s, 2)..], n + 1)
      case None => None
      case Some(bs) => Some([s[..At16(s, 2)]] + bs)
  }

  lemma ParseBandsEnds(s: seq<Byte>, n: nat)
    ensures |s| < 12 || n >= 128 ==> ParseBands(s, n) == Some([])
    ensures |s| >= 12 && n < 128 && s[2] as int * 256 + s[3] as int > |s| ==> ParseBands(s, n) == None
  {
  }

  /** One band read back: right exactly if its length field is. */
  lemma ReadBand(b: seq<Byte>, rest: seq<Byte>)
    requires |b| >= BAND_LEN
    ensures At16(b + rest, 2) == At16(b, 2)
    ensures Consistent(b) ==> (b + rest)[At16(b, 2)..] == rest
    ensures At16(b, 2) <= |b + rest| ==> ((b + rest)[..At16(b, 2)] == b <==> Consistent(b))
  {
    assert (b + rest)[..|b|] == b;
  }

  lemma {:induction false} ParsePrintedBands(bs: seq<seq<Byte>>, n: nat)
    requires forall i :: 0 <= i < |bs| ==> |bs[i]| >= BAND_LEN
    requires n <= MAX_VECTORS
    ensures ParseBands(PrintBands(bs), n) == Some(bs)
            <==> n + |bs| <= MAX_VECTORS && forall i :: 0 <= i < |bs| ==> Consistent(bs[i])
    decreases |bs|
  {
    if bs != [] && n < MAX_VECTORS {
      var b, rest := bs[0], PrintBands(bs[1..]);
      ReadBand(b, rest);
      var s := b + rest;
      assert bs == [b] + bs[1..];
      if Consistent(b) {
        ParsePrintedBands(bs[1..], n + 1);
        var r := ParseBands(rest, n + 1);
        assert r.Some? ==> ([b] + r.value == bs <==> r.value == bs[1..]) by {
          assert r.Some? ==> ([b] + r.value)[1..] == r.value;
        }
        hide At16;
      } else if At16(s, 2) <= |s| {
        var r := ParseBands(s[At16(s, 2)..], n + 1);
        assert r.Some? ==> ([s[..At16(s, 2)]] + r.value)[0] == s[..At16(s, 2)] != bs[0];
      }
    }
  }

  function ReceiveMeter(w: Wire): Option<seq<seq<Byte>>> {
    match Received(w, METER_MOD_LEN)
    case None => None
    case Some(s) => ParseBands(s, 0)
  }

  lemma {:induction false} ParsedBandsLen(s: seq<Byte>, n: nat)
    ensures var r := ParseBands(s, n); r.Some? ==> |PrintBands(r.value)| <= |s|
    decreases MAX_VECTORS - n
  {
    if |s| >= BAND_LEN && n < MAX_VECTORS && At16(s, 2) <= |s| {
      var k := At16(s, 2);
      ParsedBandsLen(s[k..], n + 1);
      var r := ParseBands(s[k..], n + 1);
      if r.Some? {
        assert ([s[..k]] + r.value)[1..] == r.value && ([s[..k]] + r.value)[0] == s[..k];
      }
      hide At16;
    }
  }

  /** The same for bands: besides, each band's own length field must be right. */
  lemma MeterRoundTrip(bs: seq<seq<Byte>>)
    requires forall i :: 0 <= i < |bs| ==> |bs[i]| >= BAND_LEN
    ensures ReceiveMeter(Send(METER_MOD_LEN, PrintBands(bs))) == Some(bs)
            <==> |bs| <= 128 && 56 + |PrintBands(bs)| < 0x1_0000
                 && forall i :: 0 <= i < |bs| ==> Consistent(bs[i])
  {
    hide ParseBands, PrintBands;
    var body := PrintBands(bs);
    Delivered(METER_MOD_LEN, body);
    var got := Received(Send(METER_MOD_LEN, body), METER_MOD_LEN);
    if got.Some? {
      ParsedBandsLen(got.value, 0);
    }
    ParsePrintedBands(bs, 0);
    hide Received, Send, Consistent;
  }
}
