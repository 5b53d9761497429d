/** What learning tells the switch, whom it evicts, and what a packet-in does, all on the map from MAC to binding. */
module FdbPacket {
  import opened FdbSpec
  import opened FdbMap

  // ---------- Chains ----------

  /** How the bytes of a MAC are mixed; the first does not matter. */
  lemma KeyExample()
    ensures Key(Mac(9, 1, 2, 3, 4, 5)) == 0x60201
  {
    var x: bv8 := 3 ^ 5;
    assert x == 6;
    assert x as int == 6;
  }

  // ---------- Eviction ----------

  /** The first entry of a chain that has outlived its flow by ten seconds. */
  predicate FirstStale(s: seq<Entry>, now: int, q: nat) {
    q < |s| && now > s[q].ts + 310 && forall j :: 0 <= j < q ==> now <= s[j].ts + 310
  }

  /**
   A MAC is evicted if and only if the learned one is new, its chain is not empty and has no free slot, and
   the MAC is that of the chain's first stale entry.
   */
  lemma EvictedIff(t: Table, mac: Mac, now: int, m: Mac)
    requires Keyed(t)
    ensures var s := t[Key(mac)];
            m in Evicted(t, mac, now) <==>
              mac !in View(t) && |s| > 0 && |s| % 2 == 0 && exists q: nat :: FirstStale(s, now, q) && s[q].mac == m
  {
    hide Key;
    var s := t[Key(mac)];
    var v := EvictIndex(s, now);
    if v < |s| {
      assert FirstStale(s, now, v);
    }
    forall q: nat | FirstStale(s, now, q) ensures q == v {
      EvictIs(s, now, q);
    }
  }

  lemma EvictIs(s: seq<Entry>, now: int, q: nat)
    requires FirstStale(s, now, q)
    ensures EvictIndex(s, now) == q
  {
    assert Evictable(s[q], now);
  }

  // ---------- Messages of learning ----------

  /** Learning tells the switch of a port that changed, and withdraws the flow of an evicted entry if it has one. */
  ghost predicate LearnTold(t: Table, mac: Mac, port: nat, now: int, sent: seq<Msg>)
    requires |t| == TABLE_SIZE
  {
    && (Present(t, mac) ==> sent == if EntryOf(t, mac).port == port then [] else [Del(mac), Add(mac, port)])
    && (!Present(t, mac) && Evicted(t, mac, now) == {} ==> sent == [])
    && (forall m :: m in Evicted(t, mac, now) ==> Present(t, m) && sent == if EntryOf(t, m).installed then [Del(m)] else [])
  }

  lemma LearnTells(t: Table, mac: Mac, port: nat, now: int, stale: bool)
    requires Keyed(t)
    ensures LearnTold(t, mac, port, now, LearnTable(t, mac, port, now, stale).sent)
  {
    var s := t[Key(mac)];
    KeyedAt(t, Key(mac));
    forall m | m in Evicted(t, mac, now) ensures Present(t, m) && EntryOf(t, m) == s[EvictIndex(s, now)] {
      VictimIs(t, mac, now, m);
    }
    hide Key, Keyed, ChainKeyed, Evictable;
  }

  lemma VictimIs(t: Table, mac: Mac, now: int, m: Mac)
    requires Keyed(t) && m in Evicted(t, mac, now)
    ensures var s := t[Key(mac)];
            EvictIndex(s, now) < |s| && !Present(t, mac) && Present(t, m) && EntryOf(t, m) == s[EvictIndex(s, now)]
  {
    hide Key;
    var s := t[Key(mac)];
    KeyedAt(t, Key(mac));
    EntIs(s, m, EvictIndex(s, now));
  }

  lemma NewInChain(s: seq<Entry>, mac: Mac, port: nat, now: int, stale: bool)
    requires Unique(s) && !Has(s, mac)
    ensures var c := Learn(s, mac, port, now, stale).chain;
            Has(c, mac) && Ent(c, mac) == Entry(mac, port % 0x10000, now, true, stale && (s == [] || |s| % 2 == 1))
  {
    hide Unique, Has, Ent, IndexOf, Evictable;
    var v := EvictIndex(s, now);
    NotIndexed(s, mac);
    if Full(s) && v < |s| {
      SetEntry(s, v, NewEntry(mac, port, now, false), mac);
    } else {
      PushEntry(s, NewEntry(mac, port, now, stale && !Full(s)), mac);
    }
  }

  lemma NotIndexed(s: seq<Entry>, mac: Mac)
    requires !Has(s, mac)
    ensures IndexOf(s, mac) >= |s|
  {
  }

  /** A new MAC is not marked installed, unless it is put in a slot whose last entry left that mark. */
  lemma NewEntryIs(t: Table, mac: Mac, port: nat, now: int, stale: bool)
    requires Keyed(t) && !Present(t, mac)
    ensures var (s, t') := (t[Key(mac)], LearnTable(t, mac, port, now, stale).table);
            && Present(t', mac)
            && EntryOf(t', mac) == Entry(mac, port % 0x10000, now, true, stale && (s == [] || |s| % 2 == 1))
  {
    hide Key, FdbSpec.Learn, Has, Ent;
    KeyedAt(t, Key(mac));
    NewInChain(t[Key(mac)], mac, port, now, stale);
  }

  // ---------- A packet ----------

  /** A packet nothing is learned from: LLDP, or loops are watched for and that has not settled or the port is closed. */
  predicate Ignored(k: Kind) {
    k.lldp || (k.watched && (!k.settled || !k.portOpen))
  }

  /** The map with the source bound to its port. */
  ghost function Heard(t: Table, src: Mac, port: nat, now: int): imap<Mac, Binding>
    requires |t| == TABLE_SIZE
  {
    Rebound(View(t), Evicted(t, src, now), src, port, now)
  }

  /**
   What a packet from `src` to `dst` leaves and sends: the source is learned on the port it came in on; unless
   it goes to a group, the destination is refreshed and, if the map then binds it, its flow is added with that port.
   */
  ghost predicate Handled(t: Table, t': Table, sent: seq<Msg>, src: Mac, dst: Mac, kind: Kind, port: nat, now: int)
    requires |t| == |t'| == TABLE_SIZE
  {
    if Ignored(kind) then View(t') == View(t) && sent == []
    else
      var v := Heard(t, src, port, now);
      var forward := if kind.multicast || dst !in v then [] else [Add(dst, v[dst].port)];
      && View(t') == (if kind.multicast then v else Refreshed(v, dst, now))
      && exists told :: LearnTold(t, src, port, now, told) && sent == told + forward
  }

  lemma HandledIf(t: Table, a: TableOutcome, b: TableOutcome, src: Mac, dst: Mac, kind: Kind, port: nat, now: int)
    requires |t| == |a.table| == |b.table| == TABLE_SIZE && !Ignored(kind)
    requires View(a.table) == Heard(t, src, port, now) && LearnTold(t, src, port, now, a.sent)
    requires View(b.table) == Refreshed(View(a.table), dst, now)
    requires b.sent == if dst in View(a.table) then [Add(dst, View(a.table)[dst].port)] else []
    ensures kind.multicast ==> Handled(t, a.table, a.sent, src, dst, kind, port, now)
    ensures !kind.multicast ==> Handled(t, b.table, a.sent + b.sent, src, dst, kind, port, now)
  {
    hide View, LearnTold, Heard, Refreshed;
    assert a.sent + [] == a.sent;
  }

  lemma PacketInRefines(t: Table, src: Mac, dst: Mac, kind: Kind, port: nat, now: int, stale: bool)
    requires Keyed(t)
    ensures var o := PacketInTable(t, src, dst, kind, port, now, stale);
            |o.table| == TABLE_SIZE && Keyed(o.table) && Handled(t, o.table, o.sent, src, dst, kind, port, now)
  {
    assert |t| == TABLE_SIZE;
    var a := LearnTable(t, src, port, now, stale);
    SizeKept(t, src, dst, port, now, stale);
    var b := ForwardTable(a.table, dst, now);
    assert Heard(t, src, port, now) == Rebound(View(t), Evicted(t, src, now), src, port, now);
    hide Keyed, View, LearnTold, Rebound, Refreshed, Evicted, LearnTable, ForwardTable, Heard;
    LearnRefines(t, src, port, now, stale);
    LearnTells(t, src, port, now, stale);
    ForwardRefines(a.table, dst, now);
    if !Ignored(kind) {
      HandledIf(t, a, b, src, dst, kind, port, now);
      hide Handled;
    }
  }

  lemma SizeKept(t: Table, src: Mac, dst: Mac, port: nat, now: int, stale: bool)
    requires |t| == TABLE_SIZE
    ensures var a := LearnTable(t, src, port, now, stale);
            |a.table| == TABLE_SIZE && |ForwardTable(a.table, dst, now).table| == TABLE_SIZE
  {
    hide FdbSpec.Learn, FdbSpec.Forward;
  }
}
