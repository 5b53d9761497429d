/**
 One hash chain of the forwarding database on the heap: two-slot buckets linked
 through `next`, the first of them embedded in the table and never freed.
 */
module FdbChain {
  import opened FdbSpec

  class Bucket {
    var ents: seq<Entry>
    var next: Bucket?

    constructor ()
      ensures ents == [BLANK, BLANK] && next == null
    {
      ents := [BLANK, BLANK];
      next := null;
    }
  }

  /** `c` lists, without repetition, the buckets reached from `c[0]` through `next`. */
  ghost predicate Links(c: seq<Bucket>)
    reads c`next
  {
    && |c| > 0
    && (forall i, j :: 0 <= i < j < |c| ==> c[i] != c[j])
    && (forall i :: 0 <= i < |c| - 1 ==> c[i].next == c[i + 1])
    && c[|c| - 1].next == null
  }

  /** `t` lists the slots of the buckets `c` in order. */
  ghost predicate Slots(c: seq<Bucket>, t: seq<Entry>)
    reads c`ents
  {
    && |t| == 2 * |c|
    && (forall i :: 0 <= i < |c| ==> c[i].ents == [t[2 * i], t[2 * i + 1]])
  }

  ghost predicate Chain(c: seq<Bucket>, t: seq<Entry>)
    reads c
  {
    Links(c) && Slots(c, t)
  }

  ghost predicate Within(c: seq<Bucket>, repr: set<Bucket>) {
    forall i :: 0 <= i < |c| ==> c[i] in repr
  }

  lemma SlotAt(c: seq<Bucket>, t: seq<Entry>, n: nat, j: nat)
    requires Chain(c, t) && n < |c| && j < 2
    ensures |c[n].ents| == 2 && 2 * n + j < |t| && c[n].ents[j] == t[2 * n + j]
  {
  }

  lemma BucketAt(c: seq<Bucket>, t: seq<Entry>, p: nat, n: nat)
    requires Chain(c, t) && p < |t| && n < |c| && p / 2 <= n
    ensures c[p / 2] != c[n] <==> p < 2 * n
  {
  }

  lemma NextAt(c: seq<Bucket>, t: seq<Entry>, n: nat)
    requires Chain(c, t) && n < |c|
    ensures c[n].next == if n + 1 < |c| then c[n + 1] else null
  {
  }

  /** The slots `t` hold exactly the entries `s`: they come first, in order, and all later slots are invalid. */
  ghost predicate Prefix(t: seq<Entry>, s: seq<Entry>) {
    && |s| <= |t|
    && (forall q :: 0 <= q < |s| ==> t[q] == s[q] && t[q].valid)
    && (forall q :: |s| <= q < |t| ==> !t[q].valid)
  }

  /** The chain `c` stores the entries `s`, and no bucket but the first is empty. */
  ghost predicate Holds(c: seq<Bucket>, t: seq<Entry>, s: seq<Entry>)
    reads c
  {
    Chain(c, t) && Prefix(t, s) && (|c| > 1 ==> |s| >= 2 * |c| - 1)
  }

  /** The first invalid slot at or after slot `idx` of bucket `start`, following `next`. */
  method NextFree(start: Bucket, idx: nat, ghost c: seq<Bucket>, ghost t: seq<Entry>, ghost k: nat)
    returns (found: bool, bkt: Bucket, i: nat, ghost n: nat)
    requires Chain(c, t) && k < |c| && c[k] == start && idx <= 2
    ensures found ==> k <= n < |c| && bkt == c[n] && i < 2 && 2 * k + idx <= 2 * n + i && !t[2 * n + i].valid
    ensures found ==> forall p :: 2 * k + idx <= p < 2 * n + i ==> t[p].valid
    ensures !found ==> forall p :: 2 * k + idx <= p < |t| ==> t[p].valid
  {
    bkt, i, found, n := start, idx, false, k;
    while true
      invariant !found && k <= n < |c| && bkt == c[n] && i <= 2 && 2 * k + idx <= 2 * n + i
      invariant forall p :: 2 * k + idx <= p < 2 * n + i ==> t[p].valid
      decreases |c| - n
    {
      while i < 2
        invariant !found && i <= 2 && 2 * k + idx <= 2 * n + i
        invariant forall p :: 2 * k + idx <= p < 2 * n + i ==> t[p].valid
      {
        assert bkt.ents[i] == t[2 * n + i];
        if !bkt.ents[i].valid {
          return true, bkt, i, n;
        }
        i := i + 1;
      }
      assert n + 1 < |c| ==> bkt.next == c[n + 1];
      if bkt.next == null {
        return;
      }
      bkt, i, n := bkt.next, 0, n + 1;
    }
  }

  /** Overwrites one slot; the bucket's link and every other slot of the chain stay as they were. */
  method SetSlot(bkt: Bucket, i: nat, e: Entry, ghost c: seq<Bucket>, ghost t: seq<Entry>, ghost n: nat)
    requires Chain(c, t) && n < |c| && c[n] == bkt && i < 2
    modifies bkt`ents
    ensures Chain(c, t[2 * n + i := e])
  {
    bkt.ents := bkt.ents[i := e];
  }

  /** Where the next survivor goes: nowhere (it stays) when there is no gap, else the gap's first slot. */
  datatype SlotPtr = NoSlot | Slot(bkt: Bucket, idx: nat)

  ghost predicate DstOk(c: seq<Bucket>, at: nat, gap: nat, d: SlotPtr) {
    && at + gap <= 2 * |c|
    && d == if gap == 0 then NoSlot else Slot(c[at / 2], at % 2)
  }

  /**
   The slots in the middle of an ageing pass whose cursor is at `pos`: the survivors `f` so far,
   then slots freed by the pass, then the entries `s[k..]` it has not reached, then slots that
   were invalid all along.
   */
  ghost predicate Layout(t: seq<Entry>, f: seq<Entry>, pos: nat, s: seq<Entry>, k: nat) {
    && |f| <= pos && k <= |s| && pos + |s| - k <= |t|
    && (forall q :: 0 <= q < |f| ==> t[q] == f[q] && t[q].valid)
    && (forall q :: |f| <= q < pos ==> !t[q].valid)
    && (forall q :: k <= q < |s| ==> t[pos - k + q] == s[q] && s[q].valid)
    && (forall q :: pos - k + |s| <= q < |t| ==> !t[q].valid)
  }

  /** Copies the survivor in slot `j` of `bkt` down to `dst` and finds the next free slot. */
  method MoveSlot(bkt: Bucket, j: nat, dst: SlotPtr, ent: Entry,
                  ghost c: seq<Bucket>, ghost t: seq<Entry>, ghost n: nat, ghost at: nat)
    returns (dst': SlotPtr)
    requires Chain(c, t) && n < |c| && c[n] == bkt && j < 2 && at < 2 * n + j
    requires dst == Slot(c[at / 2], at % 2)
    requires forall q :: at <= q < 2 * n + j ==> !t[q].valid
    modifies bkt`ents, dst.bkt`ents
    ensures Chain(c, t[at := ent][2 * n + j := ent.(valid := false)])
    ensures dst' == Slot(c[(at + 1) / 2], (at + 1) % 2)
  {
    SetSlot(dst.bkt, dst.idx, ent, c, t, at / 2);
    ghost var t1 := t[at := ent];
    SetSlot(bkt, j, ent.(valid := false), c, t1, n);
    ghost var t2 := t1[2 * n + j := ent.(valid := false)];
    assert !t2[at + 1].valid;
    var found, b, i, m := NextFree(dst.bkt, dst.idx + 1, c, t2, at / 2);
    assert found && 2 * m + i == at + 1;
    dst' := if found then Slot(b, i) else NoSlot;
  }

  /**
   An ageing pass that has dealt with the entries `s[..k]`, its cursor now at slot `pos`:
   the survivors among them sit at the front, and `dst` is where the next one belongs.
   */
  ghost predicate Stage(c: seq<Bucket>, t: seq<Entry>, pos: nat, s: seq<Entry>, k: nat,
                        env: AgeEnv, dst: SlotPtr, sent: seq<Msg>)
  {
    && k <= |s| && pos <= |t| == 2 * |c|
    && var f := SurvivorsUpTo(s, k, env);
    && Layout(t, f, pos, s, k)
    && (k < |s| ==> DstOk(c, |f|, pos - |f|, dst))
    && (dst.Slot? ==> |f| < 2 * |c| && dst == Slot(c[|f| / 2], |f| % 2))
    && sent == WithdrawnUpTo(s, k, env)
  }

  /** What the next slot and the next free place are. */
  lemma StageHead(c: seq<Bucket>, t: seq<Entry>, pos: nat, s: seq<Entry>, k: nat, env: AgeEnv, dst: SlotPtr, sent: seq<Msg>)
    requires Stage(c, t, pos, s, k, env, dst, sent)
    ensures k <= |s| && pos + |s| - k <= |t| == 2 * |c|
    ensures var f := SurvivorsUpTo(s, k, env);
            && |f| <= pos && (forall q :: |f| <= q < pos ==> !t[q].valid)
            && (k < |s| ==> pos < |t| && t[pos] == s[k] && s[k].valid && DstOk(c, |f|, pos - |f|, dst))
            && (k == |s| && pos < |t| ==> !t[pos].valid)
  {
  }

  lemma StageEnd(c: seq<Bucket>, t: seq<Entry>, pos: nat, s: seq<Entry>, env: AgeEnv, dst: SlotPtr, sent: seq<Msg>, pos': nat)
    requires Stage(c, t, pos, s, |s|, env, dst, sent) && pos <= pos' <= |t|
    ensures Stage(c, t, pos', s, |s|, env, dst, sent)
  {
  }

  lemma StageDrop(c: seq<Bucket>, t: seq<Entry>, n: nat, j: nat, s: seq<Entry>, k: nat, env: AgeEnv,
                  dst: SlotPtr, sent: seq<Msg>, e: Entry)
    requires Stage(c, t, 2 * n + j, s, k, env, dst, sent) && k < |s| && !Keep(s[k], env)
    requires n < |c| && j < 2 && !e.valid
    ensures Stage(c, t[2 * n + j := e], 2 * n + j + 1, s, k + 1, env, if dst.NoSlot? then Slot(c[n], j) else dst,
                  if PortGone(s[k], env) then sent + [Del(s[k].mac)] else sent)
  {
  }

  lemma StageMove(c: seq<Bucket>, t: seq<Entry>, n: nat, j: nat, s: seq<Entry>, k: nat, env: AgeEnv,
                  dst: SlotPtr, sent: seq<Msg>, e: Entry)
    requires Stage(c, t, 2 * n + j, s, k, env, dst, sent) && k < |s| && Keep(s[k], env) && dst.Slot?
    requires n < |c| && j < 2 && !e.valid
    ensures var at := |SurvivorsUpTo(s, k, env)|;
            Stage(c, t[at := s[k]][2 * n + j := e], 2 * n + j + 1, s, k + 1, env, Slot(c[(at + 1) / 2], (at + 1) % 2), sent)
  {
  }

  lemma StageStay(c: seq<Bucket>, t: seq<Entry>, n: nat, j: nat, s: seq<Entry>, k: nat, env: AgeEnv,
                  dst: SlotPtr, sent: seq<Msg>)
    requires Stage(c, t, 2 * n + j, s, k, env, dst, sent) && k < |s| && Keep(s[k], env) && dst.NoSlot?
    requires n < |c| && j < 2
    ensures Stage(c, t, 2 * n + j + 1, s, k + 1, env, dst, sent)
  {
  }

  /** An ageing pass over the valid slot `j` of bucket `bkt`. */
  method AgeSlot(bkt: Bucket, j: nat, env: AgeEnv, dst: SlotPtr, sent: seq<Msg>, empty: bool,
                 ghost c: seq<Bucket>, ghost t: seq<Entry>, ghost n: nat, ghost s: seq<Entry>, ghost k: nat)
    returns (dst': SlotPtr, sent': seq<Msg>, empty': bool, ghost t': seq<Entry>)
    requires Chain(c, t) && n < |c| && c[n] == bkt && j < 2
    requires Stage(c, t, 2 * n + j, s, k, env, dst, sent) && k < |s|
    requires empty <==> |SurvivorsUpTo(s, k, env)| <= 2 * n
    modifies c`ents
    ensures Chain(c, t') && Stage(c, t', 2 * n + j + 1, s, k + 1, env, dst', sent')
    ensures empty' <==> |SurvivorsUpTo(s, k + 1, env)| <= 2 * n
    ensures |SurvivorsUpTo(s, k + 1, env)| >= |SurvivorsUpTo(s, k, env)|
  {
    hide Stage, Chain, Survivors;
    StageHead(c, t, 2 * n + j, s, k, env, dst, sent);
    SlotAt(c, t, n, j);
    var ent := bkt.ents[j];
    dst', sent', empty' := dst, sent, empty;
    if !Keep(ent, env) {
      var gone := ent.(valid := false);
      SetSlot(bkt, j, gone, c, t, n);
      if PortGone(ent, env) {
        var off := gone.(installed := false);
        SetSlot(bkt, j, off, c, t[2 * n + j := gone], n);
        assert t[2 * n + j := gone][2 * n + j := off] == t[2 * n + j := off];
        gone := off;
        sent' := sent + [Del(ent.mac)];
      }
      t' := t[2 * n + j := gone];
      StageDrop(c, t, n, j, s, k, env, dst, sent, gone);
      if dst.NoSlot? {
        dst' := Slot(bkt, j);
      }
    } else if dst.Slot? {
      BucketAt(c, t, |SurvivorsUpTo(s, k, env)|, n);
      empty' := dst.bkt != bkt;
      dst' := MoveSlot(bkt, j, dst, ent, c, t, n, |SurvivorsUpTo(s, k, env)|);
      t' := t[|SurvivorsUpTo(s, k, env)| := ent][2 * n + j := ent.(valid := false)];
      StageMove(c, t, n, j, s, k, env, dst, sent, ent.(valid := false));
    } else {
      empty', t' := false, t;
      StageStay(c, t, n, j, s, k, env, dst, sent);
    }
  }

  /** An ageing pass over the slots of one bucket, stopping at the first that was invalid before. */
  method AgeBucket(bkt: Bucket, env: AgeEnv, dst: SlotPtr, sent: seq<Msg>,
                   ghost c: seq<Bucket>, ghost t: seq<Entry>, ghost n: nat, ghost s: seq<Entry>, ghost k: nat)
    returns (dst': SlotPtr, sent': seq<Msg>, empty: bool, ghost t': seq<Entry>, ghost k': nat)
    requires Chain(c, t) && n < |c| && c[n] == bkt
    requires Stage(c, t, 2 * n, s, k, env, dst, sent)
    modifies c`ents
    ensures k' == if k + 2 <= |s| then k + 2 else |s|
    ensures Chain(c, t') && Stage(c, t', 2 * n + 2, s, k', env, dst', sent')
    ensures empty <==> |SurvivorsUpTo(s, k', env)| <= 2 * n
    ensures |SurvivorsUpTo(s, k', env)| >= |SurvivorsUpTo(s, k, env)|
  {
    hide *;
    StageHead(c, t, 2 * n, s, k, env, dst, sent);
    dst', sent', empty, t', k' := dst, sent, true, t, k;
    var j := 0;
    while j < 2
      invariant j <= 2 && k' == k + j <= |s|
      invariant Chain(c, t') && Stage(c, t', 2 * n + j, s, k', env, dst', sent')
      invariant empty <==> |SurvivorsUpTo(s, k', env)| <= 2 * n
      invariant |SurvivorsUpTo(s, k', env)| >= |SurvivorsUpTo(s, k, env)|
    {
      StageHead(c, t', 2 * n + j, s, k', env, dst', sent');
      SlotAt(c, t', n, j);
      if !bkt.ents[j].valid {
        StageEnd(c, t', 2 * n + j, s, env, dst', sent', 2 * n + 2);
        break;
      }
      dst', sent', empty, t' := AgeSlot(bkt, j, env, dst', sent', empty, c, t', n, s, k');
      k', j := k' + 1, j + 1;
    }
  }

  ghost function Cut<T>(c: seq<T>, lo: nat, hi: nat): (d: seq<T>)
    requires lo <= hi <= |c|
    ensures |d| == |c| - (hi - lo)
    ensures forall i :: 0 <= i < |d| ==> d[i] == if i < lo then c[i] else c[i + hi - lo]
  {
    c[..lo] + c[hi..]
  }

  lemma StageCut(c: seq<Bucket>, t: seq<Entry>, n: nat, s: seq<Entry>, k: nat, env: AgeEnv, dst: SlotPtr, sent: seq<Msg>)
    requires Chain(c, t) && n < |c| && Stage(c, t, 2 * n + 2, s, k, env, dst, sent)
    requires |SurvivorsUpTo(s, k, env)| <= 2 * n
    ensures Stage(Cut(c, n, n + 1), Cut(t, 2 * n, 2 * n + 2), 2 * n, s, k, env,
                  if dst.Slot? && dst.idx == 0 && dst.bkt == c[n] then NoSlot else dst, sent)
  {
    hide SurvivorsUpTo, WithdrawnUpTo, Layout, Chain;
    var f := SurvivorsUpTo(s, k, env);
    LayoutFits(t, f, 2 * n + 2, s, k);
    LayoutCut(t, f, n, s, k);
    CutKeepsDst(c, t, n, |f|, dst);
    hide Cut;
  }

  lemma LayoutFits(t: seq<Entry>, f: seq<Entry>, pos: nat, s: seq<Entry>, k: nat)
    requires Layout(t, f, pos, s, k)
    ensures |f| <= pos
  {
  }

  lemma LayoutCut(t: seq<Entry>, f: seq<Entry>, n: nat, s: seq<Entry>, k: nat)
    requires Layout(t, f, 2 * n + 2, s, k) && 2 * n + 2 <= |t| && |f| <= 2 * n
    ensures Layout(Cut(t, 2 * n, 2 * n + 2), f, 2 * n, s, k) && |Cut(t, 2 * n, 2 * n + 2)| == |t| - 2
  {
  }

  /** A destination in a bucket with no survivor is its first slot. */
  lemma CutKeepsDst(c: seq<Bucket>, t: seq<Entry>, n: nat, f: nat, dst: SlotPtr)
    requires Chain(c, t) && n < |c| && f <= 2 * n
    requires dst.Slot? ==> f < 2 * |c| && dst == Slot(c[f / 2], f % 2)
    ensures var d := if dst.Slot? && dst.idx == 0 && dst.bkt == c[n] then NoSlot else dst;
            && |Cut(c, n, n + 1)| == |c| - 1
            && (d.Slot? ==> f < 2 * n && d == Slot(Cut(c, n, n + 1)[f / 2], f % 2))
            && (DstOk(c, f, 2 * n + 2 - f, dst) ==> DstOk(Cut(c, n, n + 1), f, 2 * n - f, d))
  {
    if f == 2 * n {
      assert f / 2 == n && f % 2 == 0;
    } else {
      assert f / 2 < n;
    }
  }

  lemma SlotsCut(c: seq<Bucket>, t: seq<Entry>, n: nat)
    requires Slots(c, t) && n < |c|
    ensures Slots(Cut(c, n, n + 1), Cut(t, 2 * n, 2 * n + 2))
  {
  }

  /** Unlinks bucket `n`, which comes after `prev`. */
  method Unlink(prev: Bucket, bkt: Bucket, ghost c: seq<Bucket>, ghost t: seq<Entry>, ghost n: nat)
    requires Chain(c, t) && 0 < n < |c| && c[n - 1] == prev && c[n] == bkt
    modifies prev`next
    ensures Chain(Cut(c, n, n + 1), Cut(t, 2 * n, 2 * n + 2))
    ensures prev.next == bkt.next == if n + 1 < |c| then c[n + 1] else null
  {
    SlotsCut(c, t, n);
    prev.next := bkt.next;
  }

  lemma StageStart(c: seq<Bucket>, t: seq<Entry>, s: seq<Entry>, env: AgeEnv)
    requires Holds(c, t, s)
    ensures Chain(c, t) && Stage(c, t, 0, s, 0, env, NoSlot, []) && |c| > 0 && (|c| > 1 ==> |s| >= 2 * |c| - 1)
  {
  }

  lemma StageFinish(c: seq<Bucket>, t: seq<Entry>, s: seq<Entry>, env: AgeEnv, dst: SlotPtr, sent: seq<Msg>)
    requires Chain(c, t) && Stage(c, t, 2 * |c|, s, |s|, env, dst, sent)
    requires |c| > 1 ==> |SurvivorsUpTo(s, |s|, env)| >= 2 * |c| - 1
    ensures Holds(c, t, Survivors(s, env)) && sent == Withdrawn(s, env)
  {
  }

  /** Each bucket of the chain is kept in it or freed, and none is both. */
  ghost predicate Parted(c: seq<Bucket>, kept: seq<Bucket>, freed: set<Bucket>) {
    && (forall b :: b in c ==> b in kept || b in freed)
    && (forall b :: b in kept ==> b in c && b !in freed)
    && (forall b :: b in freed ==> b in c)
  }

  lemma NothingFreed(c: seq<Bucket>)
    ensures Parted(c, c, {})
  {
  }

  lemma DstKept(c: seq<Bucket>, kept: seq<Bucket>, freed: set<Bucket>, t: seq<Entry>, pos: nat, s: seq<Entry>, k: nat,
                env: AgeEnv, dst: SlotPtr, sent: seq<Msg>)
    requires Parted(c, kept, freed) && Stage(kept, t, pos, s, k, env, dst, sent)
    ensures dst.Slot? ==> dst.bkt in kept && dst.bkt !in freed
  {
    hide SurvivorsUpTo, WithdrawnUpTo, Layout;
  }

  lemma FreeOne(c: seq<Bucket>, kept: seq<Bucket>, t: seq<Entry>, freed: set<Bucket>, n: nat)
    requires Parted(c, kept, freed) && Chain(kept, t) && n < |kept|
    ensures Parted(c, Cut(kept, n, n + 1), freed + {kept[n]})
  {
    var d := Cut(kept, n, n + 1);
    assert kept == kept[..n] + [kept[n]] + kept[n + 1..];
    assert forall b :: b in kept <==> b in d || b == kept[n];
    assert kept[n] !in d;
    hide Slots, Cut;
  }

  /**
   An ageing pass over one chain. Survivors move down into slots freed earlier in the pass,
   and a bucket left empty is unlinked (and freed) as soon as the pass is through with it.
   `kept` is the chain afterwards; every other bucket of `c` has been freed.
   */
  method AgeChain(head: Bucket, env: AgeEnv, ghost c: seq<Bucket>, ghost t: seq<Entry>, ghost s: seq<Entry>,
                  ghost repr: set<Bucket>)
    returns (sent: seq<Msg>, ghost kept: seq<Bucket>, ghost t': seq<Entry>, ghost freed: set<Bucket>)
    requires Holds(c, t, s) && c[0] == head && Within(c, repr)
    modifies repr
    ensures Holds(kept, t', Survivors(s, env)) && kept[0] == head && Within(kept, repr)
    ensures Parted(c, kept, freed)
    ensures sent == Withdrawn(s, env)
  {
    hide Stage, Chain, Holds, SurvivorsUpTo, Survivors, WithdrawnUpTo, Withdrawn, Parted;
    StageStart(c, t, s, env);
    sent, kept, t', freed := [], c, t, {};
    NothingFreed(c);
    var bkt: Bucket?, prev: Bucket? := head, null;
    var dst := NoSlot;
    ghost var n: nat, k: nat := 0, 0;
    while bkt != null
      invariant Chain(kept, t') && Stage(kept, t', 2 * n, s, k, env, dst, sent)
      invariant n <= |kept| && k <= |s|
      invariant bkt == (if n == |kept| then null else kept[n]) && prev == (if n == 0 then null else kept[n - 1])
      invariant n == |kept| ==> k == |s|
      invariant 0 < n < |kept| ==> |s| - k >= 2 * (|kept| - n) - 1
      invariant n > 1 ==> |SurvivorsUpTo(s, k, env)| >= 2 * n - 1
      invariant |kept| > 0 && kept[0] == head && (n == 0 ==> kept == c && k == 0)
      invariant Within(kept, repr) && Parted(c, kept, freed)
      invariant dst.Slot? ==> dst.bkt in kept && dst.bkt !in freed
      decreases |kept| - n
    {
      var empty;
      dst, sent, empty, t', k := AgeBucket(bkt, env, dst, sent, kept, t', n, s, k);
      StageHead(kept, t', 2 * n + 2, s, k, env, dst, sent);
      if prev != null && empty {
        StageCut(kept, t', n, s, k, env, dst, sent);
        FreeOne(c, kept, t', freed, n);
        if dst.Slot? && dst.idx == 0 && dst.bkt == bkt {
          dst := NoSlot;
        }
        Unlink(prev, bkt, kept, t', n);
        freed := freed + {bkt};
        kept, t' := Cut(kept, n, n + 1), Cut(t', 2 * n, 2 * n + 2);
        bkt := prev;
      } else {
        NextAt(kept, t', n);
        prev := bkt;
        n := n + 1;
      }
      bkt := bkt.next;
      DstKept(c, kept, freed, t', 2 * n, s, k, env, dst, sent);
    }
    StageFinish(kept, t', s, env, dst, sent);
  }
}
