/** Learning, lookup and flushing on one hash chain of the forwarding database. */
module FdbLearn {
  import opened FdbSpec
  import opened FdbChain

  ghost function PtrTo(c: seq<Bucket>, p: nat): SlotPtr
    requires p < 2 * |c|
  {
    Slot(c[p / 2], p % 2)
  }

  /** A chain that holds `s` has room exactly when its last bucket, or its only one, is not full. */
  lemma RoomIffNotFull(c: seq<Bucket>, t: seq<Entry>, s: seq<Entry>)
    requires Holds(c, t, s)
    ensures |s| < 2 * |c| <==> !Full(s)
  {
  }

  /** What a walk that has seen the first `p` slots knows when it has not met `mac`. */
  ghost predicate Seen(c: seq<Bucket>, s: seq<Entry>, mac: Mac, now: int, p: nat, free: SlotPtr, aged: SlotPtr) {
    && p <= 2 * |c| && |s| <= 2 * |c|
    && (IndexOf(s, mac) < |s| ==> p <= IndexOf(s, mac))
    && free == (if p > |s| then PtrTo(c, |s|) else NoSlot)
    && aged == (if EvictIndex(s, now) < |s| && EvictIndex(s, now) < p then PtrTo(c, EvictIndex(s, now)) else NoSlot)
  }

  lemma SeenStep(c: seq<Bucket>, t: seq<Entry>, s: seq<Entry>, mac: Mac, now: int, n: nat, i: nat,
                 free: SlotPtr, aged: SlotPtr)
    requires Holds(c, t, s) && n < |c| && i < 2 && Seen(c, s, mac, now, 2 * n + i, free, aged)
    ensures |c[n].ents| == 2
    ensures var ent, here := c[n].ents[i], Slot(c[n], i);
            if !ent.valid then Seen(c, s, mac, now, 2 * n + i + 1, if free == NoSlot then here else free, aged)
            else if ent.mac == mac then IndexOf(s, mac) < |s| && PtrTo(c, IndexOf(s, mac)) == here
            else Seen(c, s, mac, now, 2 * n + i + 1, free, if aged == NoSlot && Evictable(ent, now) then here else aged)
  {
    hide Chain;
    SlotAt(c, t, n, i);
  }

  method ScanBucket(bkt: Bucket, mac: Mac, now: int, free: SlotPtr, aged: SlotPtr,
                    ghost c: seq<Bucket>, ghost t: seq<Entry>, ghost s: seq<Entry>, ghost n: nat)
    returns (hit: SlotPtr, free': SlotPtr, aged': SlotPtr)
    requires Holds(c, t, s) && n < |c| && c[n] == bkt && Seen(c, s, mac, now, 2 * n, free, aged)
    ensures hit.Slot? ==> IndexOf(s, mac) < |s| && hit == PtrTo(c, IndexOf(s, mac))
    ensures hit.NoSlot? ==> Seen(c, s, mac, now, 2 * n + 2, free', aged')
  {
    hide *;
    hit, free', aged' := NoSlot, free, aged;
    var i := 0;
    while i < 2
      invariant 0 <= i <= 2 && hit == NoSlot && Seen(c, s, mac, now, 2 * n + i, free', aged')
    {
      SeenStep(c, t, s, mac, now, n, i, free', aged');
      var ent := bkt.ents[i];
      if !ent.valid {
        if free' == NoSlot {
          free' := Slot(bkt, i);
        }
      } else if ent.mac == mac {
        return Slot(bkt, i), free', aged';
      } else if aged' == NoSlot && Evictable(ent, now) {
        aged' := Slot(bkt, i);
      }
      i := i + 1;
    }
  }

  /**
   One walk over a chain: stops at `mac` if it is there, and otherwise reports the first free slot,
   the first entry old enough to evict, and the last bucket.
   */
  method ScanChain(head: Bucket, mac: Mac, now: int, ghost c: seq<Bucket>, ghost t: seq<Entry>, ghost s: seq<Entry>)
    returns (hit: SlotPtr, free: SlotPtr, aged: SlotPtr, last: Bucket)
    requires Holds(c, t, s) && c[0] == head
    ensures hit.Slot? ==> IndexOf(s, mac) < |s| && hit == PtrTo(c, IndexOf(s, mac))
    ensures hit.NoSlot? ==> Seen(c, s, mac, now, 2 * |c|, free, aged) && last == c[|c| - 1]
  {
    hit, free, aged, last := NoSlot, NoSlot, NoSlot, head;
    var bkt: Bucket? := head;
    ghost var n := 0;
    while bkt != null
      invariant n <= |c| && bkt == (if n < |c| then c[n] else null) && last == (if n == 0 then head else c[n - 1])
      invariant hit == NoSlot && Seen(c, s, mac, now, 2 * n, free, aged)
      decreases |c| - n
    {
      hit, free, aged := ScanBucket(bkt, mac, now, free, aged, c, t, s, n);
      if hit.Slot? {
        return;
      }
      NextAt(c, t, n);
      last := bkt;
      bkt, n := bkt.next, n + 1;
    }
  }

  lemma HoldsSet(c: seq<Bucket>, t: seq<Entry>, s: seq<Entry>, k: nat, e: Entry)
    requires Prefix(t, s) && |t| == 2 * |c| && (|c| > 1 ==> |s| >= 2 * |c| - 1)
    requires k <= |s| && k < |t| && e.valid && Chain(c, t[k := e])
    ensures Holds(c, t[k := e], if k < |s| then s[k := e] else s + [e])
  {
  }

  /** Writes `e` over entry `k` of the chain, or appends it when `k` is the first free slot. */
  method Put(ptr: SlotPtr, e: Entry, ghost c: seq<Bucket>, ghost t: seq<Entry>, ghost s: seq<Entry>, ghost k: nat)
    returns (ghost t': seq<Entry>)
    requires Holds(c, t, s) && k <= |s| && k < 2 * |c| && ptr == PtrTo(c, k) && e.valid
    modifies ptr.bkt`ents
    ensures Holds(c, t', if k < |s| then s[k := e] else s + [e])
  {
    SetSlot(ptr.bkt, ptr.idx, e, c, t, k / 2);
    HoldsSet(c, t, s, k, e);
    t' := t[k := e];
  }

  /** Appends a bucket holding `e` to a chain without a free slot. */
  method PutInNewBucket(last: Bucket, e: Entry, ghost c: seq<Bucket>, ghost t: seq<Entry>, ghost s: seq<Entry>)
    returns (ghost c': seq<Bucket>, ghost t': seq<Entry>)
    requires Holds(c, t, s) && |s| == 2 * |c| && last == c[|c| - 1] && e.valid
    modifies last`next
    ensures |c'| == |c| + 1 && c <= c' && fresh(c'[|c|]) && Holds(c', t', s + [e])
  {
    var nb := new Bucket();
    last.next := nb;
    nb.ents := nb.ents[0 := e];
    c', t' := c + [nb], t + [e, BLANK];
  }

  /** Learns `mac` on `port` at time `now`. */
  method LearnChain(head: Bucket, mac: Mac, port: nat, now: int,
                    ghost c: seq<Bucket>, ghost t: seq<Entry>, ghost s: seq<Entry>)
    returns (sent: seq<Msg>, ghost c': seq<Bucket>, ghost t': seq<Entry>, ghost stale: bool)
    requires Holds(c, t, s) && c[0] == head
    modifies c
    ensures Holds(c', t', Learn(s, mac, port, now, stale).chain) && sent == Learn(s, mac, port, now, stale).sent
    ensures |c'| > 0 && c'[0] == head && (c' == c || (|c'| == |c| + 1 && c <= c' && fresh(c'[|c|])))
  {
    RoomIffNotFull(c, t, s);
    var hit, free, aged, last := ScanChain(head, mac, now, c, t, s);
    sent, c', t', stale := [], c, t, false;
    if hit.Slot? {
      var ent := ReadSlot(hit, c, t, s, IndexOf(s, mac));
      if ent.port != port {
        sent := [Del(mac), Add(mac, port)];
        t' := Put(hit, ent.(port := port, ts := now, installed := true), c, t, s, IndexOf(s, mac));
      } else {
        t' := Put(hit, ent.(ts := now), c, t, s, IndexOf(s, mac));
      }
    } else if free.Slot? {
      var mark := free.bkt.ents[free.idx].installed;
      stale := mark;
      t' := Put(free, NewEntry(mac, port, now, mark), c, t, s, |s|);
    } else if aged.NoSlot? {
      c', t' := PutInNewBucket(last, NewEntry(mac, port, now, false), c, t, s);
    } else {
      var victim := ReadSlot(aged, c, t, s, EvictIndex(s, now));
      if victim.installed {
        sent := [Del(victim.mac)];
      }
      t' := Put(aged, NewEntry(mac, port, now, false), c, t, s, EvictIndex(s, now));
    }
  }

  method ReadSlot(ptr: SlotPtr, ghost c: seq<Bucket>, ghost t: seq<Entry>, ghost s: seq<Entry>, ghost k: nat)
    returns (e: Entry)
    requires Holds(c, t, s) && k < |s| && ptr == PtrTo(c, k)
    ensures e == s[k] && e.valid
  {
    e := ptr.bkt.ents[ptr.idx];
  }

  /** Looks `mac` up to forward a packet at time `now`; a hit is refreshed and its flow is pushed. */
  method ForwardChain(head: Bucket, mac: Mac, now: int, ghost c: seq<Bucket>, ghost t: seq<Entry>, ghost s: seq<Entry>)
    returns (sent: seq<Msg>, ghost t': seq<Entry>)
    requires Holds(c, t, s) && c[0] == head
    modifies c`ents
    ensures Holds(c, t', Forward(s, mac, now).chain) && sent == Forward(s, mac, now).sent
  {
    var hit, free, aged, last := ScanChain(head, mac, now, c, t, s);
    sent, t' := [], t;
    if hit.Slot? {
      var ent := ReadSlot(hit, c, t, s, IndexOf(s, mac));
      sent := [Add(mac, ent.port)];
      t' := Put(hit, ent.(ts := now, installed := true), c, t, s, IndexOf(s, mac));
    }
  }

  /** A flush that has passed the first `p` slots: they are invalid, and their entries' flows withdrawn. */
  ghost predicate Flushing(t: seq<Entry>, s: seq<Entry>, p: nat, sent: seq<Msg>) {
    && (forall q :: 0 <= q < p && q < |t| ==> !t[q].valid)
    && (forall q :: p <= q < |t| ==> if q < |s| then t[q] == s[q] && s[q].valid else !t[q].valid)
    && sent == Flushed(s)[..if p < |s| then p else |s|]
  }

  method FlushBucket(bkt: Bucket, sent: seq<Msg>, ghost c: seq<Bucket>, ghost t: seq<Entry>, ghost s: seq<Entry>, ghost n: nat)
    returns (sent': seq<Msg>, ghost t': seq<Entry>)
    requires Chain(c, t) && n < |c| && c[n] == bkt && Flushing(t, s, 2 * n, sent)
    modifies bkt`ents
    ensures Chain(c, t') && Flushing(t', s, 2 * n + 2, sent')
  {
    hide Chain;
    var i := 0;
    sent', t' := sent, t;
    while i < 2
      invariant 0 <= i <= 2 && Chain(c, t') && Flushing(t', s, 2 * n + i, sent')
    {
      SlotAt(c, t', n, i);
      var ent := bkt.ents[i];
      if ent.valid {
        sent' := sent' + [Del(ent.mac)];
        SetSlot(bkt, i, ent.(valid := false, installed := false), c, t', n);
        t' := t'[2 * n + i := ent.(valid := false, installed := false)];
      }
      i := i + 1;
    }
  }

  lemma FlushStart(c: seq<Bucket>, t: seq<Entry>, s: seq<Entry>)
    requires Holds(c, t, s)
    ensures Chain(c, t) && Flushing(t, s, 0, []) && 0 < |c| && |s| <= 2 * |c|
  {
  }

  lemma FlushEnd(c: seq<Bucket>, t: seq<Entry>, s: seq<Entry>, sent: seq<Msg>)
    requires Chain(c, t) && Flushing(t, s, 2 * |c|, sent) && |s| <= 2 * |c|
    ensures sent == Flushed(s) && |c| > 0 && |c[0].ents| == 2 && !c[0].ents[0].valid && !c[0].ents[1].valid
  {
    SlotAt(c, t, 0, 0);
    SlotAt(c, t, 0, 1);
    assert Flushed(s)[..|s|] == Flushed(s);
  }

  lemma EmptyHead(head: Bucket, t: seq<Entry>)
    requires head.next == null && t == head.ents && |t| == 2 && !t[0].valid && !t[1].valid
    ensures Holds([head], t, [])
  {
  }

  /** Withdraws and invalidates every entry; all buckets but the first are freed. */
  method FlushChain(head: Bucket, ghost c: seq<Bucket>, ghost t: seq<Entry>, ghost s: seq<Entry>)
    returns (sent: seq<Msg>, ghost t': seq<Entry>)
    requires Holds(c, t, s) && c[0] == head
    modifies c
    ensures Holds([head], t', []) && sent == Flushed(s)
  {
    hide Flushing, Chain, Holds, Flushed;
    sent, t' := [], t;
    var bkt: Bucket? := head;
    ghost var n := 0;
    FlushStart(c, t, s);
    while bkt != null
      invariant n <= |c| && bkt == if n < |c| then c[n] else null
      invariant Chain(c, t') && Flushing(t', s, 2 * n, sent)
      decreases |c| - n
    {
      sent, t' := FlushBucket(bkt, sent, c, t', s, n);
      NextAt(c, t', n);
      bkt, n := bkt.next, n + 1;
    }
    FlushEnd(c, t', s, sent);
    head.next := null;
    t' := head.ents;
    EmptyHead(head, t');
  }
}
