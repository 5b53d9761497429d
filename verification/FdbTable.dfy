/** The whole forwarding database: an array of hash chains that share no bucket. */
module FdbTable {
  import opened FdbSpec
  import opened FdbChain
  import opened FdbLearn
  import FdbMap
  import FdbPacket

  ghost predicate Owned(c: seq<Bucket>, owner: map<Bucket, nat>, i: nat) {
    forall k :: 0 <= k < |c| ==> c[k] in owner && owner[c[k]] == i
  }

  lemma OwnedApart(c: seq<Bucket>, d: seq<Bucket>, owner: map<Bucket, nat>, i: nat, j: nat)
    requires Owned(c, owner, i) && Owned(d, owner, j) && i != j
    ensures forall b :: b in c ==> b !in d
  {
  }

  lemma NewHolds(b: Bucket)
    requires b.ents == [BLANK, BLANK] && b.next == null
    ensures Holds([b], [BLANK, BLANK], [])
  {
  }

  class L2Fdb {
    /** The embedded first bucket of every chain. */
    const heads: seq<Bucket>

    ghost var view: Table
    ghost var chains: seq<seq<Bucket>>
    ghost var slots: seq<seq<Entry>>
    /** Which chain a bucket belongs to. */
    ghost var owner: map<Bucket, nat>

    /** Every chain but chain `x` is in order. */
    ghost predicate ValidExcept(x: int)
      reads this, owner.Keys
    {
      && |heads| == |view| == |chains| == |slots| == TABLE_SIZE
      && (forall i :: 0 <= i < TABLE_SIZE ==> Owned(chains[i], owner, i))
      && (forall i :: 0 <= i < TABLE_SIZE && i != x ==> Holds(chains[i], slots[i], view[i]) && chains[i][0] == heads[i])
    }

    ghost predicate Valid()
      reads this, owner.Keys
    {
      ValidExcept(-1)
    }

    /** No bucket of chain `i` lies in another chain. */
    lemma ChainsApart(i: nat)
      requires Valid() && i < TABLE_SIZE
      ensures forall j, b :: 0 <= j < TABLE_SIZE && j != i && b in chains[j] ==> b !in chains[i]
    {
      forall j | 0 <= j < TABLE_SIZE && j != i ensures forall b :: b in chains[j] ==> b !in chains[i] {
        OwnedApart(chains[j], chains[i], owner, j, i);
      }
    }

    lemma HeadOwned(i: nat)
      requires Valid() && i < TABLE_SIZE
      ensures heads[i] in owner && owner[heads[i]] == i
    {
      assert Holds(chains[i], slots[i], view[i]);
    }

    /** Records what chain `i` has become. */
    ghost method Settle(i: nat, c: seq<Bucket>, t: seq<Entry>, s: seq<Entry>)
      requires i < TABLE_SIZE && ValidExcept(i) && Holds(c, t, s) && c[0] == heads[i]
      requires forall k :: 0 <= k < |c| && c[k] in owner ==> owner[c[k]] == i
      modifies this
      ensures Valid() && view == old(view)[i := s]
      ensures owner.Keys == old(owner.Keys) + set b | b in c
    {
      hide Holds;
      owner := owner + map b | b in c :: i;
      chains, slots, view := chains[i := c], slots[i := t], view[i := s];
    }

    /** An empty table. */
    constructor ()
      ensures Valid() && fresh(owner.Keys) && view == seq(TABLE_SIZE, i => [])
    {
      var bs: seq<Bucket> := [];
      ghost var o: map<Bucket, nat> := map[];
      while |bs| < TABLE_SIZE
        invariant |bs| <= TABLE_SIZE && fresh(bs)
        invariant o.Keys == set b | b in bs
        invariant forall i :: 0 <= i < |bs| ==> o[bs[i]] == i
        invariant forall i :: 0 <= i < |bs| ==> bs[i].ents == [BLANK, BLANK] && bs[i].next == null
      {
        var b := new Bucket();
        o := o[b := |bs|];
        bs := bs + [b];
      }
      heads, owner := bs, o;
      view := seq(TABLE_SIZE, i => []);
      chains := seq(TABLE_SIZE, i requires 0 <= i < |bs| => [bs[i]]);
      slots := seq(TABLE_SIZE, i => [BLANK, BLANK]);
      new;
      hide Holds;
      forall i | 0 <= i < TABLE_SIZE ensures Holds(chains[i], slots[i], view[i]) {
        NewHolds(bs[i]);
      }
    }

    method Learn(mac: Mac, port: nat, now: int) returns (sent: seq<Msg>, ghost stale: bool)
      requires Valid()
      modifies this, owner.Keys
      ensures Valid() && fresh(owner.Keys - old(owner.Keys))
      ensures TableOutcome(view, sent) == LearnTable(old(view), mac, port, now, stale)
    {
      hide Key, Holds, FdbSpec.Learn;
      var i := Key(mac);
      ghost var c, t;
      ChainsApart(i);
      sent, c, t, stale := LearnChain(heads[i], mac, port, now, chains[i], slots[i], view[i]);
      Settle(i, c, t, FdbSpec.Learn(view[i], mac, port, now, stale).chain);
    }

    method Forward(mac: Mac, now: int) returns (sent: seq<Msg>)
      requires Valid()
      modifies this, owner.Keys
      ensures Valid() && owner.Keys == old(owner.Keys)
      ensures TableOutcome(view, sent) == ForwardTable(old(view), mac, now)
    {
      hide Key, Holds, FdbSpec.Forward;
      var i := Key(mac);
      ghost var t;
      ChainsApart(i);
      sent, t := ForwardChain(heads[i], mac, now, chains[i], slots[i], view[i]);
      Settle(i, chains[i], t, FdbSpec.Forward(view[i], mac, now).chain);
    }

    /** The fast path for a packet from `src` to `dst` that came in on `port`: it learns one and looks up the other. */
    method PacketIn(src: Mac, dst: Mac, kind: Kind, port: nat, now: int) returns (sent: seq<Msg>, ghost stale: bool)
      requires Valid()
      modifies this, owner.Keys
      ensures Valid() && fresh(owner.Keys - old(owner.Keys))
      ensures TableOutcome(view, sent) == PacketInTable(old(view), src, dst, kind, port, now, stale)
      ensures old(FdbMap.Keyed(view)) ==>
                FdbMap.Keyed(view) && FdbPacket.Handled(old(view), view, sent, src, dst, kind, port, now)
    {
      sent, stale := LearnAndForward(src, dst, kind, port, now);
      hide FdbMap.Keyed, PacketInTable, FdbPacket.Handled;
      if old(FdbMap.Keyed(view)) {
        FdbPacket.PacketInRefines(old(view), src, dst, kind, port, now, stale);
      }
    }

    method LearnAndForward(src: Mac, dst: Mac, kind: Kind, port: nat, now: int) returns (sent: seq<Msg>, ghost stale: bool)
      requires Valid()
      modifies this, owner.Keys
      ensures Valid() && fresh(owner.Keys - old(owner.Keys))
      ensures TableOutcome(view, sent) == PacketInTable(old(view), src, dst, kind, port, now, stale)
    {
      if kind.watched && !kind.settled {
        return [], false;
      }
      if kind.lldp {
        return [], false;
      }
      if kind.watched && !kind.portOpen {
        return [], false;
      }
      sent, stale := Learn(src, port, now);
      if !kind.multicast {
        var more := Forward(dst, now);
        sent := sent + more;
      }
    }

    /** An ageing pass over every chain. */
    method Age(env: AgeEnv) returns (sent: seq<Msg>)
      requires Valid()
      modifies this, owner.Keys
      ensures Valid() && owner.Keys == old(owner.Keys)
      ensures view == AgeTable(old(view), env) && sent == AgeSent(old(view), |old(view)|, env)
    {
      hide Holds, Survivors, Withdrawn;
      sent := [];
      var i := 0;
      while i < TABLE_SIZE
        invariant 0 <= i <= TABLE_SIZE && Valid() && owner.Keys == old(owner.Keys)
        invariant sent == AgeSent(old(view), i, env)
        invariant forall j :: 0 <= j < i ==> view[j] == Survivors(old(view)[j], env)
        invariant forall j :: i <= j < TABLE_SIZE ==> view[j] == old(view)[j]
      {
        ghost var c, t, freed;
        var more;
        ChainsApart(i);
        more, c, t, freed := AgeChain(heads[i], env, chains[i], slots[i], view[i], set b | b in chains[i]);
        Settle(i, c, t, Survivors(view[i], env));
        sent := sent + more;
        i := i + 1;
      }
    }

    /** Withdraws every entry, as a topology change does. */
    method Flush() returns (sent: seq<Msg>)
      requires Valid()
      modifies this, owner.Keys
      ensures Valid() && owner.Keys == old(owner.Keys)
      ensures view == FlushTable(old(view)) && sent == FlushSent(old(view), |old(view)|)
    {
      hide Holds, Flushed;
      sent := [];
      var i := 0;
      while i < TABLE_SIZE
        invariant 0 <= i <= TABLE_SIZE && Valid() && owner.Keys == old(owner.Keys)
        invariant sent == FlushSent(old(view), i)
        invariant forall j :: 0 <= j < i ==> view[j] == []
        invariant forall j :: i <= j < TABLE_SIZE ==> view[j] == old(view)[j]
      {
        ghost var t;
        var more;
        ChainsApart(i);
        HeadOwned(i);
        more, t := FlushChain(heads[i], chains[i], slots[i], view[i]);
        Settle(i, [heads[i]], t, []);
        sent := sent + more;
        i := i + 1;
      }
    }
  }
}
