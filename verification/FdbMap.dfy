/** The chains of the forwarding database, taken together, behave as one map from MAC to (port, time). */
module FdbMap {
  import opened FdbSpec

  datatype Binding = Binding(port: nat, ts: int)

  predicate Unique(s: seq<Entry>) {
    forall p, q :: 0 <= p < q < |s| ==> s[p].mac != s[q].mac
  }

  /** Every entry is valid and in the chain its MAC hashes to, and no MAC occurs twice. */
  ghost predicate Keyed(t: Table) {
    && |t| == TABLE_SIZE
    && (forall i :: 0 <= i < |t| ==> ChainKeyed(t[i], i))
  }

  ghost predicate ChainKeyed(s: seq<Entry>, i: nat) {
    Unique(s) && forall q :: 0 <= q < |s| ==> s[q].valid && Key(s[q].mac) == i
  }

  predicate Has(s: seq<Entry>, m: Mac) {
    IndexOf(s, m) < |s|
  }

  function Ent(s: seq<Entry>, m: Mac): Entry
    requires Has(s, m)
  {
    s[IndexOf(s, m)]
  }

  predicate Present(t: Table, m: Mac)
    requires |t| == TABLE_SIZE
  {
    Has(t[Key(m)], m)
  }

  function EntryOf(t: Table, m: Mac): Entry
    requires |t| == TABLE_SIZE && Present(t, m)
  {
    Ent(t[Key(m)], m)
  }

  ghost function View(t: Table): imap<Mac, Binding>
    requires |t| == TABLE_SIZE
  {
    imap m: Mac | Present(t, m) :: Binding(EntryOf(t, m).port, EntryOf(t, m).ts)
  }

  /** The entry of a MAC is the one that carries it, wherever it sits in the chain. */
  lemma EntIs(s: seq<Entry>, m: Mac, q: nat)
    requires Unique(s) && q < |s| && s[q].mac == m
    ensures Has(s, m) && IndexOf(s, m) == q
  {
  }

  // ---------- Chain by chain ----------

  /** Overwriting entry `k` keeps all others. */
  lemma SetEntry(s: seq<Entry>, k: nat, e: Entry, m: Mac)
    requires Unique(s) && k < |s| && (e.mac == s[k].mac || !Has(s, e.mac))
    ensures Unique(s[k := e])
    ensures m == e.mac ==> Has(s[k := e], m) && Ent(s[k := e], m) == e
    ensures m != e.mac && m == s[k].mac ==> !Has(s[k := e], m)
    ensures m != e.mac && m != s[k].mac ==> Has(s[k := e], m) == Has(s, m) && (Has(s, m) ==> Ent(s[k := e], m) == Ent(s, m))
  {
    var s' := s[k := e];
    assert forall q :: 0 <= q < |s| && q != k ==> s'[q] == s[q];
    if m == e.mac {
      EntIs(s', m, k);
    } else if Has(s, m) && m != s[k].mac {
      EntIs(s', m, IndexOf(s, m));
    }
  }

  lemma PushEntry(s: seq<Entry>, e: Entry, m: Mac)
    requires Unique(s) && !Has(s, e.mac)
    ensures Unique(s + [e])
    ensures m == e.mac ==> Has(s + [e], m) && Ent(s + [e], m) == e
    ensures m != e.mac ==> Has(s + [e], m) == Has(s, m) && (Has(s, m) ==> Ent(s + [e], m) == Ent(s, m))
  {
    var s' := s + [e];
    if m == e.mac {
      EntIs(s', m, |s|);
    } else if Has(s, m) {
      EntIs(s', m, IndexOf(s, m));
    }
  }

  /** The MAC that learning `mac` on the chain `s` evicts, if any. */
  function Victim(s: seq<Entry>, mac: Mac, now: int): set<Mac> {
    if !Has(s, mac) && Full(s) && EvictIndex(s, now) < |s| then {s[EvictIndex(s, now)].mac} else {}
  }

  lemma LearnChainKeyed(s: seq<Entry>, i: nat, mac: Mac, port: nat, now: int, stale: bool)
    requires ChainKeyed(s, i) && Key(mac) == i
    ensures ChainKeyed(Learn(s, mac, port, now, stale).chain, i)
  {
    hide Key;
  }

  ghost predicate Learned(s: seq<Entry>, s': seq<Entry>, mac: Mac, port: nat, now: int, m: Mac) {
    && (Has(s', m) <==> m == mac || (Has(s, m) && m !in Victim(s, mac, now)))
    && (m == mac ==> Ent(s', m).port == (if Has(s, m) then port else port % 0x10000) && Ent(s', m).ts == now)
    && (m != mac && Has(s', m) ==> Ent(s', m) == Ent(s, m))
    && (m in Victim(s, mac, now) ==> Has(s, m) && Evictable(Ent(s, m), now) && m != mac)
  }

  lemma LearnKnown(s: seq<Entry>, mac: Mac, port: nat, now: int, stale: bool, m: Mac)
    requires Unique(s) && IndexOf(s, mac) < |s|
    ensures Learned(s, Learn(s, mac, port, now, stale).chain, mac, port, now, m)
  {
    hide Evictable, EvictFrom, IndexFrom, Unique;
    SetEntry(s, IndexOf(s, mac), Learn(s, mac, port, now, stale).chain[IndexOf(s, mac)], m);
  }

  lemma LearnEvicting(s: seq<Entry>, mac: Mac, port: nat, now: int, stale: bool, m: Mac)
    requires Unique(s) && IndexOf(s, mac) == |s| && Full(s) && EvictIndex(s, now) < |s|
    ensures Learned(s, Learn(s, mac, port, now, stale).chain, mac, port, now, m)
  {
    hide Evictable, EvictFrom, IndexFrom, Unique;
    var v := EvictIndex(s, now);
    SetEntry(s, v, NewEntry(mac, port, now, false), m);
    EntIs(s, s[v].mac, v);
  }

  lemma LearnPushing(s: seq<Entry>, mac: Mac, port: nat, now: int, stale: bool, m: Mac)
    requires Unique(s) && IndexOf(s, mac) == |s| && !(Full(s) && EvictIndex(s, now) < |s|)
    ensures Learned(s, Learn(s, mac, port, now, stale).chain, mac, port, now, m)
  {
    hide Evictable, EvictFrom, IndexFrom, Unique;
    PushEntry(s, NewEntry(mac, port, now, if Full(s) then false else stale), m);
  }

  lemma LearnChainRefines(s: seq<Entry>, mac: Mac, port: nat, now: int, stale: bool, m: Mac)
    requires Unique(s)
    ensures Learned(s, Learn(s, mac, port, now, stale).chain, mac, port, now, m)
  {
    hide Evictable, EvictFrom, IndexFrom, Unique, Learned, Learn;
    var k, v := IndexOf(s, mac), EvictIndex(s, now);
    if k < |s| {
      LearnKnown(s, mac, port, now, stale, m);
    } else if Full(s) && v < |s| {
      LearnEvicting(s, mac, port, now, stale, m);
    } else {
      LearnPushing(s, mac, port, now, stale, m);
    }
  }

  /** The flow messages learning sends, and the entry they are about. */
  lemma LearnChainSent(s: seq<Entry>, mac: Mac, port: nat, now: int, stale: bool, m: Mac)
    requires Unique(s)
    ensures var o := Learn(s, mac, port, now, stale);
            && (Has(s, mac) && Ent(s, mac).port != port ==>
                  o.sent == [Del(mac), Add(mac, port)] && Has(o.chain, mac)
                  && Ent(o.chain, mac) == Ent(s, mac).(port := port, ts := now, installed := true))
            && (Has(s, mac) && Ent(s, mac).port == port ==>
                  o.sent == [] && Has(o.chain, mac) && Ent(o.chain, mac) == Ent(s, mac).(ts := now))
            && (!Has(s, mac) ==> forall x :: x in o.sent ==> x.Del? && x.mac in Victim(s, mac, now))
  {
    hide Evictable, EvictFrom, IndexFrom, Unique;
    if Has(s, mac) {
      SetEntry(s, IndexOf(s, mac), Learn(s, mac, port, now, stale).chain[IndexOf(s, mac)], mac);
    }
  }

  lemma ForwardChainRefines(s: seq<Entry>, i: nat, mac: Mac, now: int, m: Mac)
    requires ChainKeyed(s, i)
    ensures var s' := Forward(s, mac, now).chain;
            && ChainKeyed(s', i)
            && (Has(s', m) <==> Has(s, m))
            && (Has(s, m) && m == mac ==> Ent(s', m) == Ent(s, m).(ts := now, installed := true))
            && (Has(s, m) && m != mac ==> Ent(s', m) == Ent(s, m))
  {
    hide Key;
    if Has(s, mac) {
      SetEntry(s, IndexOf(s, mac), Ent(s, mac).(ts := now, installed := true), m);
    }
  }

  /** Survivors are exactly the entries to keep, each still in its place in the order. */
  lemma {:induction false} SurvivorsAre(s: seq<Entry>, k: nat, env: AgeEnv)
    requires k <= |s| && Unique(s)
    ensures var r := SurvivorsUpTo(s, k, env);
            && Unique(r)
            && (forall p :: 0 <= p < |r| ==> Has(s, r[p].mac) && IndexOf(s, r[p].mac) < k && Ent(s, r[p].mac) == r[p] && Keep(r[p], env))
            && (forall q :: 0 <= q < k && Keep(s[q], env) ==> s[q] in r)
  {
    if k > 0 {
      SurvivorsAre(s, k - 1, env);
      EntIs(s, s[k - 1].mac, k - 1);
    }
  }

  lemma AgeChainRefines(s: seq<Entry>, i: nat, env: AgeEnv, m: Mac)
    requires ChainKeyed(s, i)
    ensures var s' := Survivors(s, env);
            && ChainKeyed(s', i)
            && (Has(s', m) <==> Has(s, m) && Keep(Ent(s, m), env))
            && (Has(s', m) ==> Ent(s', m) == Ent(s, m))
  {
    hide Key;
    var r := Survivors(s, env);
    SurvivorsAre(s, |s|, env);
    if Has(s, m) && Keep(Ent(s, m), env) {
      var p :| 0 <= p < |r| && r[p] == Ent(s, m);
      EntIs(r, m, p);
    }
  }

  // ---------- The whole table ----------

  lemma LearnAt(t: Table, mac: Mac, port: nat, now: int, stale: bool, m: Mac)
    requires Keyed(t)
    ensures var t', gone := LearnTable(t, mac, port, now, stale).table, Victim(t[Key(mac)], mac, now);
            && (Present(t', m) <==> m == mac || (Present(t, m) && m !in gone))
            && (m == mac ==> EntryOf(t', m).port == (if Present(t, m) then port else port % 0x10000) && EntryOf(t', m).ts == now)
            && (m != mac && Present(t', m) ==> EntryOf(t', m) == EntryOf(t, m))
            && (m in gone ==> Present(t, m) && Evictable(EntryOf(t, m), now) && m != mac && !Present(t, mac))
  {
    hide Key, FdbSpec.Learn, Victim;
    var s := t[Key(mac)];
    assert ChainKeyed(s, Key(mac));
    LearnChainRefines(s, mac, port, now, stale, m);
    VictimOnlyWhenNew(s, mac, now);
  }

  function Evicted(t: Table, mac: Mac, now: int): set<Mac>
    requires |t| == TABLE_SIZE
  {
    Victim(t[Key(mac)], mac, now)
  }

  /** The map after `mac` was learned on `port`. */
  ghost function Rebound(v: imap<Mac, Binding>, gone: set<Mac>, mac: Mac, port: nat, now: int): imap<Mac, Binding> {
    (v - gone)[mac := Binding(if mac in v then port else port % 0x10000, now)]
  }

  lemma LearnViewAt(t: Table, mac: Mac, port: nat, now: int, stale: bool, m: Mac)
    requires Keyed(t)
    ensures var a, b := View(LearnTable(t, mac, port, now, stale).table), Rebound(View(t), Evicted(t, mac, now), mac, port, now);
            (m in a <==> m in b) && (m in a ==> a[m] == b[m])
  {
    LearnAt(t, mac, port, now, stale, m);
    hide FdbSpec.Learn, Victim, Has, Ent, Key, Keyed;
  }

  /**
   Learning refines the map: the source is bound to its port at this time, evicted bindings go,
   and nothing else changes. A MAC that was not known yet gets only the low 16 bits of the port.
   */
  lemma LearnRefines(t: Table, mac: Mac, port: nat, now: int, stale: bool)
    requires Keyed(t)
    ensures Keyed(LearnTable(t, mac, port, now, stale).table)
    ensures View(LearnTable(t, mac, port, now, stale).table) == Rebound(View(t), Evicted(t, mac, now), mac, port, now)
  {
    LearnKeyed(t, mac, port, now, stale);
    hide View, Rebound, FdbSpec.Learn, Evicted, Key, Keyed;
    forall m: Mac { LearnViewAt(t, mac, port, now, stale, m); }
  }

  /** Only a new MAC evicts, and only a binding whose flow timed out at least ten seconds ago. */
  lemma EvictedAreStale(t: Table, mac: Mac, now: int, m: Mac)
    requires Keyed(t) && m in Evicted(t, mac, now)
    ensures mac !in View(t) && m in View(t) && now > View(t)[m].ts + 310
  {
    LearnAt(t, mac, 0, now, false, m);
  }

  lemma LearnKeyed(t: Table, mac: Mac, port: nat, now: int, stale: bool)
    requires Keyed(t)
    ensures Keyed(LearnTable(t, mac, port, now, stale).table)
  {
    LearnChainKeyed(t[Key(mac)], Key(mac), mac, port, now, stale);
    hide Key, FdbSpec.Learn, ChainKeyed;
  }

  lemma VictimOnlyWhenNew(s: seq<Entry>, mac: Mac, now: int)
    ensures Victim(s, mac, now) != {} ==> !Has(s, mac)
  {
  }

  /** A lookup right after learning returns the learned port if and only if the MAC was known or the port fits 16 bits. */
  lemma LearnThenLookup(t: Table, mac: Mac, port: nat, now: int, stale: bool)
    requires Keyed(t)
    ensures var t' := LearnTable(t, mac, port, now, stale).table;
            Present(t', mac) && (EntryOf(t', mac).port == port <==> Present(t, mac) || port < 0x10000)
  {
    LearnChainRefines(t[Key(mac)], mac, port, now, stale, mac);
  }

  /** On an empty table port 0x10000 is learned as port 0. */
  lemma WidePortIsCut(mac: Mac, now: int, stale: bool)
    ensures var t' := LearnTable(seq(TABLE_SIZE, i => []), mac, 0x10000, now, stale).table;
            Present(t', mac) && EntryOf(t', mac).port == 0
  {
    hide Key;
    LearnChainRefines([], mac, 0x10000, now, stale, mac);
    hide FdbSpec.Learn;
  }

  lemma ForwardAt(t: Table, mac: Mac, now: int, m: Mac)
    requires Keyed(t)
    ensures var t' := ForwardTable(t, mac, now).table;
            && Keyed(t')
            && (Present(t', m) <==> Present(t, m))
            && (Present(t, m) ==> EntryOf(t', m) == if m == mac then EntryOf(t, m).(ts := now, installed := true) else EntryOf(t, m))
            && ForwardTable(t, mac, now).sent == if Present(t, mac) then [Add(mac, EntryOf(t, mac).port)] else []
  {
    ForwardChainRefines(t[Key(mac)], Key(mac), mac, now, m);
    hide Key, ChainKeyed;
  }

  ghost function Refreshed(v: imap<Mac, Binding>, mac: Mac, now: int): imap<Mac, Binding> {
    if mac in v then v[mac := v[mac].(ts := now)] else v
  }

  lemma ForwardViewAt(t: Table, mac: Mac, now: int, m: Mac)
    requires Keyed(t)
    ensures var a, b := View(ForwardTable(t, mac, now).table), Refreshed(View(t), mac, now);
            (m in a <==> m in b) && (m in a ==> a[m] == b[m])
  {
    ForwardAt(t, mac, now, m);
    hide Keyed, Has, Ent, Key, FdbSpec.Forward;
  }

  /** Forwarding refines the map: a hit is refreshed and its port reported, and nothing else changes. */
  lemma ForwardRefines(t: Table, mac: Mac, now: int)
    requires Keyed(t)
    ensures Keyed(ForwardTable(t, mac, now).table)
    ensures View(ForwardTable(t, mac, now).table) == Refreshed(View(t), mac, now)
    ensures ForwardTable(t, mac, now).sent == if mac in View(t) then [Add(mac, View(t)[mac].port)] else []
  {
    hide Refreshed, FdbSpec.Forward, Key, Keyed, Has, Ent;
    ForwardAt(t, mac, now, mac);
    forall m: Mac { ForwardViewAt(t, mac, now, m); }
  }

  lemma AgeAt(t: Table, env: AgeEnv, m: Mac)
    requires Keyed(t)
    ensures var t' := AgeTable(t, env);
            && Keyed(t')
            && (Present(t', m) <==> Present(t, m) && Keep(EntryOf(t, m), env))
            && (Present(t', m) ==> EntryOf(t', m) == EntryOf(t, m))
  {
    forall i | 0 <= i < TABLE_SIZE ensures ChainKeyed(AgeTable(t, env)[i], i) {
      AgeChainRefines(t[i], i, env, m);
    }
    AgeChainRefines(t[Key(m)], Key(m), env, m);
    hide Key, Survivors, ChainKeyed;
  }

  /** Ageing refines the map: it drops exactly the bindings that timed out or whose port is gone. */
  lemma AgeRefines(t: Table, env: AgeEnv)
    requires Keyed(t)
    ensures Keyed(AgeTable(t, env))
    ensures forall m: Mac :: m in View(AgeTable(t, env)) <==>
              m in View(t) && View(t)[m].port !in env.down && !(env.checkPort && View(t)[m].port == env.port)
              && env.now <= View(t)[m].ts + 302
    ensures forall m: Mac :: m in View(AgeTable(t, env)) ==> View(AgeTable(t, env))[m] == View(t)[m]
  {
    AgeAt(t, env, BLANK.mac);
    forall m: Mac { AgeAt(t, env, m); }
    hide Key, AgeTable;
  }

  lemma {:induction false} WithdrawnAre(s: seq<Entry>, k: nat, env: AgeEnv)
    requires k <= |s|
    ensures forall q :: 0 <= q < k && PortGone(s[q], env) ==> Del(s[q].mac) in WithdrawnUpTo(s, k, env)
    ensures forall x :: x in WithdrawnUpTo(s, k, env) ==> x.Del? && exists q :: 0 <= q < k && PortGone(s[q], env) && s[q].mac == x.mac
  {
    if k > 0 {
      WithdrawnAre(s, k - 1, env);
    }
  }

  lemma HasKey(s: seq<Entry>, i: nat, m: Mac)
    requires ChainKeyed(s, i)
    ensures Has(s, m) ==> Key(m) == i
  {
    hide Key;
  }

  lemma KeyedAt(t: Table, i: nat)
    requires Keyed(t) && i < |t|
    ensures |t| == TABLE_SIZE && ChainKeyed(t[i], i)
  {
  }

  lemma WithdrawnIs(s: seq<Entry>, i: nat, env: AgeEnv, m: Mac)
    requires ChainKeyed(s, i)
    ensures Del(m) in Withdrawn(s, env) <==> Has(s, m) && PortGone(Ent(s, m), env)
    ensures forall x :: x in Withdrawn(s, env) ==> x.Del?
  {
    WithdrawnAre(s, |s|, env);
    hide Key, PortGone, WithdrawnUpTo;
    if Del(m) in Withdrawn(s, env) {
      var q :| 0 <= q < |s| && PortGone(s[q], env) && s[q].mac == m;
      EntIs(s, m, q);
    }
  }

  /** An ageing pass withdraws exactly the flows of the entries whose port is gone. */
  lemma {:induction false} AgeSentAre(t: Table, n: nat, env: AgeEnv, m: Mac)
    requires Keyed(t) && n <= |t|
    ensures Del(m) in AgeSent(t, n, env) <==> Key(m) < n && Present(t, m) && PortGone(EntryOf(t, m), env)
    ensures forall x :: x in AgeSent(t, n, env) ==> x.Del?
  {
    hide Key, Withdrawn, Has, Ent, PortGone, ChainKeyed, Keyed;
    if n > 0 {
      AgeSentAre(t, n - 1, env, m);
      KeyedAt(t, n - 1);
      WithdrawnIs(t[n - 1], n - 1, env, m);
      HasKey(t[n - 1], n - 1, m);
    }
  }

  lemma FlushedAre(s: seq<Entry>, m: Mac)
    ensures Del(m) in Flushed(s) <==> Has(s, m)
    ensures forall x :: x in Flushed(s) ==> x.Del?
  {
    if Has(s, m) {
      assert Flushed(s)[IndexOf(s, m)] == Del(m);
    }
  }

  /** A flush withdraws the flow of every entry. */
  lemma {:induction false} FlushSentAre(t: Table, n: nat, m: Mac)
    requires Keyed(t) && n <= |t|
    ensures Del(m) in FlushSent(t, n) <==> Key(m) < n && Present(t, m)
    ensures forall x :: x in FlushSent(t, n) ==> x.Del?
  {
    hide Key, Flushed, Has, ChainKeyed, Keyed;
    if n > 0 {
      FlushSentAre(t, n - 1, m);
      KeyedAt(t, n - 1);
      FlushedAre(t[n - 1], m);
      HasKey(t[n - 1], n - 1, m);
    }
  }

  lemma FlushRefines(t: Table)
    requires Keyed(t)
    ensures Keyed(FlushTable(t)) && View(FlushTable(t)) == imap[]
  {
    hide Key;
  }
}
