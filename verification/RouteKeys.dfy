/** The flows of a fabric route: what installing it adds and uninstalling it deletes, hop by hop. */
module RouteKeys {

  const ETH_IP := 0x0800
  const ETH_ARP := 0x0806

  /** The fields of the route's template flow and mask that a hop changes; `rest` stands for the others. */
  datatype Match = Match(inPort: int, vlan: int, dlType: int, masksInPort: bool, masksVlan: bool, rest: int)

  /** What identifies a flow on a switch. */
  datatype Key = Key(alias: int, m: Match, prio: int)

  datatype PathElem = PathElem(alias: int, first: bool, last: bool, inPort: int, outPort: int)

  /** A route's ends and settings: host ports, the 16-bit tenant id, priority, and whether ARP flows go along. */
  datatype Ends = Ends(srcPort: int, dstPort: int, tenant: nat, prio: int, arp: bool)

  /** The template as it is made, between uses. */
  predicate Clean(t: Match) {
    t.inPort == 0 && t.vlan == 0 && t.dlType == ETH_IP && !t.masksInPort && !t.masksVlan
  }

  /** The hop with its ports filled in; they are 16 bits wide. */
  function Filled(h: PathElem, r: Ends): PathElem {
    h.(inPort := (if h.first then r.srcPort else h.inPort) % 0x10000,
       outPort := (if h.last then r.dstPort else h.outPort) % 0x10000)
  }

  /** The flows of one hop, tagged with `vlan` unless that is zero or the hop is the first. */
  function HopKeys(t: Match, h: PathElem, r: Ends, vlan: int): (ks: seq<Key>)
    ensures |ks| == if r.arp then 2 else 1
  {
    var t1 := if vlan != 0 && !h.first then t.(vlan := vlan, masksVlan := true) else t;
    var t2 := t1.(inPort := h.inPort, masksInPort := true);
    [Key(h.alias, t2, r.prio)] + if r.arp then [Key(h.alias, t2.(dlType := ETH_ARP), r.prio)] else []
  }

  /** Installing puts the tenant id into twelve bits. */
  function AddKeys(t: Match, h: PathElem, r: Ends, known: int -> bool): seq<Key> {
    if known(h.alias) then HopKeys(t, Filled(h, r), r, r.tenant % 0x1000) else []
  }

  /** Uninstalling does not. */
  function DelKeys(t: Match, h: PathElem, r: Ends, known: int -> bool): seq<Key> {
    if known(h.alias) then HopKeys(t, h, r, r.tenant) else []
  }

  /** The path after installing: hops on known switches have their ports filled in. */
  function Installed(path: seq<PathElem>, r: Ends, known: int -> bool): (p: seq<PathElem>)
    ensures |p| == |path|
    ensures forall i :: 0 <= i < |path| ==> p[i] == if known(path[i].alias) then Filled(path[i], r) else path[i]
  {
    if path == [] then []
    else
      var n := |path| - 1;
      Installed(path[..n], r, known) + [if known(path[n].alias) then Filled(path[n], r) else path[n]]
  }

  function AllAdded(t: Match, path: seq<PathElem>, r: Ends, known: int -> bool): seq<Key> {
    if path == [] then [] else AllAdded(t, path[..|path| - 1], r, known) + AddKeys(t, path[|path| - 1], r, known)
  }

  function AllDeleted(t: Match, path: seq<PathElem>, r: Ends, known: int -> bool): seq<Key> {
    if path == [] then [] else AllDeleted(t, path[..|path| - 1], r, known) + DelKeys(t, path[|path| - 1], r, known)
  }

  /** One hop's flows come off again exactly if the tenant id fits in twelve bits or does not matter. */
  lemma HopMirrors(t: Match, h: PathElem, r: Ends, known: int -> bool)
    requires r.tenant < 0x10000 && Clean(t)
    ensures known(h.alias) ==>
              (DelKeys(t, Filled(h, r), r, known) == AddKeys(t, h, r, known) <==> r.tenant < 0x1000 || h.first)
  {
    if known(h.alias) {
      var f := Filled(h, r);
      var a, b := HopKeys(t, f, r, r.tenant % 0x1000), HopKeys(t, f, r, r.tenant);
      assert AddKeys(t, h, r, known) == a && DelKeys(t, f, r, known) == b;
      if r.tenant >= 0x1000 && !h.first {
        assert a[0].m.vlan == r.tenant % 0x1000 && b[0].m.vlan == r.tenant;
        assert a[0] != b[0];
      }
    }
  }

  /** The hops that matter: on a known switch, not the first. */
  ghost predicate Tagged(path: seq<PathElem>, known: int -> bool) {
    exists i :: 0 <= i < |path| && known(path[i].alias) && !path[i].first
  }

  lemma {:induction false} SameLength(t: Match, path: seq<PathElem>, r: Ends, known: int -> bool)
    ensures |AllAdded(t, path, r, known)| == |AllDeleted(t, Installed(path, r, known), r, known)|
  {
    if path != [] {
      var n := |path| - 1;
      SameLength(t, path[..n], r, known);
      assert Installed(path, r, known)[..n] == Installed(path[..n], r, known);
    }
  }

  /**
   Uninstalling a route over any path deletes exactly the flows its install added, ARP twins included, in
   the same order, if and only if the tenant id fits in twelve bits or no flow carries it.
   */
  lemma {:induction false} UninstallMirrorsInstall(t: Match, path: seq<PathElem>, r: Ends, known: int -> bool)
    requires r.tenant < 0x10000 && Clean(t)
    ensures AllDeleted(t, Installed(path, r, known), r, known) == AllAdded(t, path, r, known)
            <==> r.tenant < 0x1000 || !Tagged(path, known)
  {
    if path != [] {
      var n := |path| - 1;
      var before, h := path[..n], path[n];
      var p := Installed(path, r, known);
      assert p[..n] == Installed(before, r, known);
      UninstallMirrorsInstall(t, before, r, known);
      HopMirrors(t, h, r, known);
      SameLength(t, before, r, known);
      var a1, a2 := AllAdded(t, before, r, known), AddKeys(t, h, r, known);
      var d1, d2 := AllDeleted(t, p[..n], r, known), DelKeys(t, p[n], r, known);
      assert AllAdded(t, path, r, known) == a1 + a2 && AllDeleted(t, p, r, known) == d1 + d2;
      assert Tagged(path, known) <==> Tagged(before, known) || (known(h.alias) && !h.first) by {
        assert forall i :: 0 <= i < n ==> before[i] == path[i];
      }
      assert a2 == d2 <==> r.tenant < 0x1000 || !(known(h.alias) && !h.first);
      hide AllAdded, AllDeleted, AddKeys, DelKeys, Installed, Tagged, Clean;
      JoinEqual(d1, d2, a1, a2);
    }
  }

  lemma JoinEqual(a: seq<Key>, b: seq<Key>, c: seq<Key>, d: seq<Key>)
    requires |a| == |c|
    ensures a + b == c + d <==> a == c && b == d
  {
    if a + b == c + d {
      assert a == (a + b)[..|a|] && c == (c + d)[..|a|];
      assert b == (a + b)[|a|..] && d == (c + d)[|a|..];
    }
  }

  // ---------- What the flows of a route are ----------

  /** The flow of a hop: packets of this type that come in on this port, tagged unless `vlan` is zero. */
  function Flow(h: PathElem, inPort: int, vlan: int, dlType: int, prio: int, rest: int): Key {
    Key(h.alias, Match(inPort, vlan, dlType, true, vlan != 0, rest), prio)
  }

  /** The port a hop receives on: that of the source host at the first hop. */
  function PortIn(h: PathElem, r: Ends): int {
    (if h.first then r.srcPort else h.inPort) % 0x10000
  }

  /** A hop on a known switch gets the host's port at either end of the path, and keeps its own in between. */
  predicate PortsIn(h: PathElem, f: PathElem, r: Ends, known: int -> bool) {
    f == if !known(h.alias) then h
         else h.(inPort := PortIn(h, r), outPort := (if h.last then r.dstPort else h.outPort) % 0x10000)
  }

  lemma InstalledPorts(path: seq<PathElem>, r: Ends, known: int -> bool)
    ensures forall i :: 0 <= i < |path| ==> PortsIn(path[i], Installed(path, r, known)[i], r, known)
  {
  }

  /** The flow is one of this hop: of an IP packet, or of an ARP packet if those go along. */
  predicate OfHop(k: Key, h: PathElem, inPort: int, vlan: int, r: Ends, rest: int) {
    || k == Flow(h, inPort, vlan, 0x0800, r.prio, rest)
    || (r.arp && k == Flow(h, inPort, vlan, 0x0806, r.prio, rest))
  }

  lemma HopKeysAre(t: Match, h: PathElem, r: Ends, vlan: int, k: Key)
    requires Clean(t)
    ensures k in HopKeys(t, h, r, vlan) <==> OfHop(k, h, h.inPort, if h.first then 0 else vlan, r, t.rest)
  {
    var ks := HopKeys(t, h, r, vlan);
    assert k in ks <==> k == ks[0] || (|ks| == 2 && k == ks[1]);
  }

  /**
   A flow is added if and only if it is that of a hop on a known switch: it takes packets from the port the hop
   receives on, those of the source host's port at the first hop, tagged with the low twelve bits of the tenant
   id except at the first hop; with an ARP twin if those go along.
   */
  lemma {:induction false} AddedIff(t: Match, path: seq<PathElem>, r: Ends, known: int -> bool, k: Key)
    requires Clean(t)
    ensures k in AllAdded(t, path, r, known) <==>
              exists i :: 0 <= i < |path| && known(path[i].alias)
                          && OfHop(k, path[i], PortIn(path[i], r), if path[i].first then 0 else r.tenant % 0x1000, r, t.rest)
  {
    if path != [] {
      var n := |path| - 1;
      AddedIff(t, path[..n], r, known, k);
      HopKeysAre(t, Filled(path[n], r), r, r.tenant % 0x1000, k);
      assert forall i :: 0 <= i < n ==> path[..n][i] == path[i];
      hide HopKeys, OfHop, Clean;
    }
  }

  /** And deleted if and only if it is that of a hop as installed, tagged with all of the tenant id. */
  lemma {:induction false} DeletedIff(t: Match, path: seq<PathElem>, r: Ends, known: int -> bool, k: Key)
    requires Clean(t)
    ensures k in AllDeleted(t, path, r, known) <==>
              exists i :: 0 <= i < |path| && known(path[i].alias)
                          && OfHop(k, path[i], path[i].inPort, if path[i].first then 0 else r.tenant, r, t.rest)
  {
    if path != [] {
      var n := |path| - 1;
      DeletedIff(t, path[..n], r, known, k);
      HopKeysAre(t, path[n], r, r.tenant, k);
      assert forall i :: 0 <= i < n ==> path[..n][i] == path[i];
      hide HopKeys, OfHop, Clean;
    }
  }

  // ---------- When switches come and go, or the learning mode changes, in between ----------

  /** The switch of some hop is known. */
  ghost predicate SomeKnown(path: seq<PathElem>, known: int -> bool) {
    exists i :: 0 <= i < |path| && known(path[i].alias)
  }

  /** The same switches of the path are known both times. */
  ghost predicate Agree(path: seq<PathElem>, known: int -> bool, later: int -> bool) {
    forall i :: 0 <= i < |path| ==> known(path[i].alias) == later(path[i].alias)
  }

  /** Every flow is of a hop on a known switch, and an ARP flow only if ARP flows go along. */
  lemma {:induction false} AddedAre(t: Match, path: seq<PathElem>, r: Ends, known: int -> bool, k: Key)
    requires Clean(t) && k in AllAdded(t, path, r, known)
    ensures known(k.alias) && (k.m.dlType == ETH_ARP ==> r.arp)
  {
    var n := |path| - 1;
    if k in AllAdded(t, path[..n], r, known) {
      AddedAre(t, path[..n], r, known, k);
    }
  }

  lemma {:induction false} DeletedAre(t: Match, path: seq<PathElem>, r: Ends, known: int -> bool, k: Key)
    requires Clean(t) && k in AllDeleted(t, path, r, known)
    ensures known(k.alias) && (k.m.dlType == ETH_ARP ==> r.arp)
  {
    var n := |path| - 1;
    if k in AllDeleted(t, path[..n], r, known) {
      DeletedAre(t, path[..n], r, known, k);
    }
  }

  /** And every hop on a known switch has its flow, with its ARP twin if they go along. */
  lemma {:induction false} HopAdded(t: Match, path: seq<PathElem>, r: Ends, known: int -> bool, i: nat) returns (k: Key)
    requires Clean(t) && i < |path| && known(path[i].alias)
    ensures k in AllAdded(t, path, r, known) && k.alias == path[i].alias && (r.arp ==> k.m.dlType == ETH_ARP)
    decreases |path|
  {
    var n := |path| - 1;
    if i < n {
      k := HopAdded(t, path[..n], r, known, i);
    } else {
      var ks := AddKeys(t, path[n], r, known);
      k := ks[|ks| - 1];
      assert k in ks;
    }
  }

  lemma {:induction false} HopDeleted(t: Match, path: seq<PathElem>, r: Ends, known: int -> bool, i: nat) returns (k: Key)
    requires Clean(t) && i < |path| && known(path[i].alias)
    ensures k in AllDeleted(t, path, r, known) && k.alias == path[i].alias && (r.arp ==> k.m.dlType == ETH_ARP)
    decreases |path|
  {
    var n := |path| - 1;
    if i < n {
      k := HopDeleted(t, path[..n], r, known, i);
    } else {
      var ks := DelKeys(t, path[n], r, known);
      k := ks[|ks| - 1];
      assert k in ks;
    }
  }

  lemma {:induction false} DeletedSame(t: Match, path: seq<PathElem>, r: Ends, known: int -> bool, later: int -> bool)
    requires Agree(path, known, later)
    ensures AllDeleted(t, path, r, known) == AllDeleted(t, path, r, later)
  {
    if path != [] {
      DeletedSame(t, path[..|path| - 1], r, known, later);
    }
  }

  lemma {:induction false} NoneKnown(t: Match, path: seq<PathElem>, r: Ends, known: int -> bool)
    requires !SomeKnown(path, known)
    ensures AllAdded(t, path, r, known) == [] && AllDeleted(t, path, r, known) == []
  {
    if path != [] {
      var n := |path| - 1;
      assert !known(path[n].alias);
      NoneBefore(path, known);
      assert AllAdded(t, path, r, known) == AllAdded(t, path[..n], r, known) + [];
      assert AllDeleted(t, path, r, known) == AllDeleted(t, path[..n], r, known) + [];
      hide AllAdded, AllDeleted, SomeKnown;
      NoneKnown(t, path[..n], r, known);
    }
  }

  lemma NoneBefore(path: seq<PathElem>, known: int -> bool)
    requires path != [] && !SomeKnown(path, known)
    ensures !SomeKnown(path[..|path| - 1], known)
  {
    assert forall i :: 0 <= i < |path| - 1 ==> path[..|path| - 1][i] == path[i];
  }

  /** Equal adds and deletes mean the same switches, and the same mode if there is any switch. */
  lemma EqualMeansSame(t: Match, path: seq<PathElem>, r: Ends, known: int -> bool, later: int -> bool, arp: bool)
    requires Clean(t) && AllDeleted(t, Installed(path, r, known), r.(arp := arp), later) == AllAdded(t, path, r, known)
    ensures Agree(path, known, later) && (SomeKnown(path, known) ==> arp == r.arp)
  {
    var p, q := Installed(path, r, known), r.(arp := arp);
    hide AllAdded, AllDeleted;
    forall i | 0 <= i < |path| ensures known(path[i].alias) == later(path[i].alias) {
      assert p[i].alias == path[i].alias;
      if known(path[i].alias) {
        var k := HopAdded(t, path, r, known, i);
        DeletedAre(t, p, q, later, k);
      }
      if later(p[i].alias) {
        var k := HopDeleted(t, p, q, later, i);
        AddedAre(t, path, r, known, k);
      }
    }
    if i :| 0 <= i < |path| && known(path[i].alias) {
      assert p[i].alias == path[i].alias;
      var k := HopAdded(t, path, r, known, i);
      DeletedAre(t, p, q, later, k);
      var d := HopDeleted(t, p, q, later, i);
      AddedAre(t, path, r, known, d);
    }
  }

  /**
   With other switches known and another learning mode at the time of the uninstall, the deletes are exactly
   the adds if and only if the same switches of the path are known, the mode is the same unless none is, and
   the tenant id fits in twelve bits or no flow carries it.
   */
  lemma LaterUninstallMirrorsInstall(t: Match, path: seq<PathElem>, r: Ends, known: int -> bool, later: int -> bool, arp: bool)
    requires r.tenant < 0x10000 && Clean(t)
    ensures AllDeleted(t, Installed(path, r, known), r.(arp := arp), later) == AllAdded(t, path, r, known)
            <==> Agree(path, known, later) && (SomeKnown(path, known) ==> arp == r.arp)
                 && (r.tenant < 0x1000 || !Tagged(path, known))
  {
    var p := Installed(path, r, known);
    assert forall i :: 0 <= i < |path| ==> p[i].alias == path[i].alias;
    if AllDeleted(t, p, r.(arp := arp), later) == AllAdded(t, path, r, known) {
      EqualMeansSame(t, path, r, known, later, arp);
    }
    if Agree(path, known, later) {
      assert Agree(p, known, later);
      DeletedSame(t, p, r.(arp := arp), known, later);
      if SomeKnown(path, known) {
        if arp == r.arp {
          assert r.(arp := arp) == r;
          UninstallMirrorsInstall(t, path, r, known);
        }
      } else {
        assert !SomeKnown(p, known);
        NoneKnown(t, path, r, known);
        NoneKnown(t, p, r.(arp := arp), known);
      }
    }
    hide AllAdded, AllDeleted, Installed, Clean;
  }

  const TWO_HOPS := [PathElem(1, true, false, 0, 2), PathElem(2, false, true, 3, 0)]
  const WIDE := Ends(5, 6, 0x1000, 10, false)

  /** Tenant 0x1000 over two hops: the second hop's flow is added untagged, and its delete carries the tag. */
  lemma WideTenantStays(t: Match, known: int -> bool)
    requires Clean(t) && known(1) && known(2)
    ensures AllDeleted(t, Installed(TWO_HOPS, WIDE, known), WIDE, known) != AllAdded(t, TWO_HOPS, WIDE, known)
    ensures AddKeys(t, TWO_HOPS[1], WIDE, known)[0].m.vlan == 0
            && DelKeys(t, Filled(TWO_HOPS[1], WIDE), WIDE, known)[0].m.vlan == 0x1000
  {
    assert !TWO_HOPS[1].first && known(TWO_HOPS[1].alias);
    assert Tagged(TWO_HOPS, known);
    UninstallMirrorsInstall(t, TWO_HOPS, WIDE, known);
  }

  lemma NothingAdded(t: Match, path: seq<PathElem>, r: Ends, known: int -> bool)
    ensures AllAdded(t, path[..0], r, known) == [] && AllDeleted(t, path[..0], r, known) == []
  {
  }

  lemma AddedStep(t: Match, path: seq<PathElem>, r: Ends, known: int -> bool, i: nat)
    requires i < |path|
    ensures AllAdded(t, path[..i + 1], r, known) == AllAdded(t, path[..i], r, known) + AddKeys(t, path[i], r, known)
    ensures AllDeleted(t, path[..i + 1], r, known) == AllDeleted(t, path[..i], r, known) + DelKeys(t, path[i], r, known)
  {
    assert path[..i + 1][..i] == path[..i];
    hide AddKeys, DelKeys;
  }

  /** A fabric route, whose template and path the two walks change and restore. */
  class FabRoute {
    var t: Match
    var path: seq<PathElem>
    var ends: Ends
    var sent: seq<Key>

    method InstallHop(i: nat, known: int -> bool)
      requires i < |path| && Clean(t)
      modifies this`t, this`path, this`sent
      ensures t == old(t) && ends == old(ends)
      ensures path == old(path)[i := if known(old(path)[i].alias) then Filled(old(path)[i], ends) else old(path)[i]]
      ensures sent == old(sent) + AddKeys(t, old(path)[i], ends, known)
    {
      var h := path[i];
      if !known(h.alias) {
        return;
      }
      var tenant := ends.tenant % 0x1000;
      h := h.(inPort := (if h.first then ends.srcPort else h.inPort) % 0x10000,
              outPort := (if h.last then ends.dstPort else h.outPort) % 0x10000);
      path := path[i := h];
      if tenant != 0 && !h.first {
        t := t.(vlan := tenant, masksVlan := true);
      }
      t := t.(inPort := h.inPort, masksInPort := true);
      sent := sent + [Key(h.alias, t, ends.prio)];
      if ends.arp {
        t := t.(dlType := ETH_ARP);
        sent := sent + [Key(h.alias, t, ends.prio)];
      }
      t := t.(dlType := ETH_IP);
      if tenant != 0 {
        t := t.(vlan := 0, masksVlan := false);
      }
      t := t.(inPort := 0, masksInPort := false);
    }

    method UninstallHop(i: nat, known: int -> bool)
      requires i < |path| && Clean(t)
      modifies this`t, this`sent
      ensures t == old(t)
      ensures sent == old(sent) + DelKeys(t, path[i], ends, known)
    {
      var h := path[i];
      if !known(h.alias) {
        return;
      }
      if ends.tenant != 0 && !h.first {
        t := t.(vlan := ends.tenant, masksVlan := true);
      }
      t := t.(inPort := h.inPort, masksInPort := true);
      sent := sent + [Key(h.alias, t, ends.prio)];
      if ends.arp {
        t := t.(dlType := ETH_ARP);
        sent := sent + [Key(h.alias, t, ends.prio)];
      }
      t := t.(dlType := ETH_IP);
      if ends.tenant != 0 && !h.first {
        t := t.(vlan := 0, masksVlan := false);
      }
      t := t.(inPort := 0, masksInPort := false);
    }

    method Install(known: int -> bool)
      requires Clean(t)
      modifies this`t, this`path, this`sent
      ensures t == old(t) && path == Installed(old(path), ends, known)
      ensures sent == old(sent) + AllAdded(t, old(path), ends, known)
      ensures |path| == |old(path)| && forall i :: 0 <= i < |path| ==> PortsIn(old(path)[i], path[i], ends, known)
    {
      ghost var p := path;
      hide AddKeys, Filled, AllAdded, Clean, PortsIn;
      NothingAdded(t, p, ends, known);
      for i := 0 to |path|
        invariant t == old(t) && |path| == |p|
        invariant forall j :: 0 <= j < |p| ==> path[j] == if j < i && known(p[j].alias) then Filled(p[j], ends) else p[j]
        invariant sent == old(sent) + AllAdded(t, p[..i], ends, known)
      {
        AddedStep(t, p, ends, known, i);
        InstallHop(i, known);
      }
      assert p[..|p|] == p && path == Installed(p, ends, known);
      InstalledPorts(p, ends, known);
    }

    method Uninstall(known: int -> bool)
      requires Clean(t)
      modifies this`t, this`sent
      ensures t == old(t)
      ensures sent == old(sent) + AllDeleted(t, path, ends, known)
    {
      hide DelKeys, AllDeleted, Clean;
      NothingAdded(t, path, ends, known);
      for i := 0 to |path|
        invariant t == old(t) && sent == old(sent) + AllDeleted(t, path[..i], ends, known)
      {
        AddedStep(t, path, ends, known, i);
        UninstallHop(i, known);
      }
      assert path[..|path|] == path;
    }
  }
}
