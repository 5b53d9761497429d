/** A host record is freed exactly when nothing refers to it any more. */
module FabricRefs {
  import opened Sequences
  import opened Fabric
  import opened FabricCover

  function One(b: bool): nat { if b then 1 else 0 }

  /** How often the routes of a list name `g`. */
  function Count(l: seq<Route>, g: Id): nat {
    if l == [] then 0 else Count(l[..|l| - 1], g) + One(l[|l| - 1].src == g) + One(l[|l| - 1].dst == g)
  }

  lemma {:induction false} CountJoin(a: seq<Route>, b: seq<Route>, g: Id)
    ensures Count(a + b, g) == Count(a, g) + Count(b, g)
  {
    if b == [] {
      assert a + b == a;
    } else {
      assert (a + b)[..|a + b| - 1] == a + b[..|b| - 1];
      CountJoin(a, b[..|b| - 1], g);
    }
  }

  lemma CountAppend(l: seq<Route>, r: Route, g: Id)
    ensures Count(l + [r], g) == Count(l, g) + One(r.src == g) + One(r.dst == g)
  {
    assert (l + [r])[..|l|] == l;
  }

  lemma CountRemove(l: seq<Route>, i: nat, g: Id)
    requires i < |l|
    ensures Count(l, g) == Count(Remove(l, i), g) + One(l[i].src == g) + One(l[i].dst == g)
  {
    CountAppend(l[..i], l[i], g);
    CountJoin(l[..i] + [l[i]], l[i + 1..], g);
    CountJoin(l[..i], l[i + 1..], g);
    assert l[..i] + [l[i]] + l[i + 1..] == l;
  }

  lemma CountSet(l: seq<Route>, i: nat, r: Route, g: Id)
    requires i < |l| && r.src == l[i].src && r.dst == l[i].dst
    ensures Count(l[i := r], g) == Count(l, g)
  {
    CountRemove(l, i, g);
    CountRemove(l[i := r], i, g);
    assert Remove(l[i := r], i) == Remove(l, i);
  }

  // ---------- The invariant ----------

  predicate PortHolds(s: Fab, g: Id) {
    g in s.info && s.info[g].port in s.ports && s.ports[s.info[g].port] == g
  }

  /** Who refers to `g`: the host table, its port, and both ends of every route, installed or pending. */
  function Holders(s: Fab, g: Id): nat {
    One(g in s.members) + One(PortHolds(s, g)) + Count(s.installed, g) + Count(s.pending, g)
  }

  /** The counter of `g` is right, with `d` references still to be given back. */
  ghost predicate RefAt(s: Fab, g: Id, d: nat) {
    if g !in s.info then Holders(s, g) == 0 && s.kept[g] == 0 && d == 0 && g !in s.freed
    else if g in s.freed then Holders(s, g) == 0 && s.kept[g] == 0 && d == 0
    else 0 <= Ref(s, g) && Ref(s, g) + 1 == Holders(s, g) + s.kept[g] + d
  }

  lemma PutRef(s: Fab, h: Id, g: Id, d: nat)
    requires RefAt(s, g, d + One(g == h))
    ensures RefAt(Put(s, h), g, d)
  {
    hide Count;
  }

  lemma AddRouteRef(s: Fab, svc: Service, src: Id, dst: Id, now: int, g: Id, d: nat)
    requires Table(s) && RefAt(s, g, d)
    ensures RefAt(AddRoute(s, svc, src, dst, now), g, d)
  {
    match svc(s.queries)
    case Path(hops) =>
      CountAppend(s.installed, Route(src, dst, hops, 0), g);
      hide Count;
    case NoPath =>
      CountAppend(s.pending, Route(src, dst, [], now + RETRY_INIT_TS), g);
      hide Count;
  }

  lemma ZapRef(s: Fab, r: Route, g: Id, d: nat)
    requires RefAt(s, g, d + One(g == r.src) + One(g == r.dst))
    ensures RefAt(Zap(s, r), g, d)
  {
    PutRef(s, r.src, g, d + One(g == r.dst));
    PutRef(Put(s, r.src), r.dst, g, d);
    hide RefAt, Put;
  }

  /** Routes moved or taken off the lists, with `e` references to give back. */
  lemma MovedRef(s: Fab, r: Fab, g: Id, d: nat, e: nat)
    requires SameHosts(s, r) && s.refs == r.refs && s.freed == r.freed && s.kept == r.kept
    requires Count(r.installed, g) + Count(r.pending, g) + e == Count(s.installed, g) + Count(s.pending, g)
    requires RefAt(s, g, d)
    ensures RefAt(r, g, d + e)
  {
    hide Count;
  }

  lemma UninstallRef(s: Fab, i: nat, g: Id, d: nat)
    requires i < |s.installed| && RefAt(s, g, d)
    ensures RefAt(Uninstall(s, i), g, d)
  {
    hide RefAt, Zap, Remove, Count;
    var r := s.installed[i];
    CountRemove(s.installed, i, g);
    var s1 := s.(installed := Remove(s.installed, i));
    MovedRef(s, s1, g, d, One(g == r.src) + One(g == r.dst));
    ZapRef(s1, r, g, d);
  }

  /** A pending route that leaves the list, to be freed. */
  lemma UnpendRef(s: Fab, i: nat, q: nat, g: Id, d: nat)
    requires i < |s.pending| && RefAt(s, g, d)
    ensures RefAt(Zap(s.(pending := Remove(s.pending, i), queries := q), s.pending[i]), g, d)
  {
    hide RefAt, Zap, Remove, Count;
    var r := s.pending[i];
    CountRemove(s.pending, i, g);
    var s1 := s.(pending := Remove(s.pending, i), queries := q);
    MovedRef(s, s1, g, d, One(g == r.src) + One(g == r.dst));
    ZapRef(s1, r, g, d);
  }

  lemma ForgetRef(s: Fab, k: nat, g: Id, d: nat)
    requires k <= |s.pending| && RefAt(s, g, d)
    ensures RefAt(Forget(s, k), g, d)
  {
    if k < |s.pending| {
      CountRemove(s.pending, k, g);
      hide Count, Remove;
    }
  }

  lemma ForgetPendingRef(s: Fab, h: Id, g: Id, d: nat)
    requires RefAt(s, g, d)
    ensures RefAt(ForgetPending(s, h), g, d)
  {
    var k := Find(s.pending, (r: Route) => r.src == h, 0);
    ForgetRef(s, k, g, d);
    var s1 := Forget(s, k);
    ForgetRef(s1, Find(s1.pending, (r: Route) => r.dst == h, 0), g, d);
    hide RefAt, Forget;
  }

  lemma {:induction false} DropToRef(s: Fab, h: Id, i: nat, g: Id, d: nat)
    requires i <= |s.installed| && RefAt(s, g, d)
    ensures RefAt(DropTo(s, h, i), g, d)
    decreases |s.installed| - i
  {
    hide RefAt;
    if i < |s.installed| {
      if s.installed[i].dst == h {
        UninstallRef(s, i, g, d);
        var s1 := Uninstall(s, i);
        assert |s1.installed| == |s.installed| - 1;
        hide Uninstall;
        DropToRef(s1, h, i, g, d);
      } else {
        DropToRef(s, h, i + 1, g, d);
      }
    }
  }

  lemma {:induction false} DropFromRef(s: Fab, h: Id, i: nat, g: Id, d: nat)
    requires i <= |s.members| && RefAt(s, g, d)
    ensures RefAt(DropFrom(s, h, i), g, d)
    decreases |s.members| - i
  {
    hide RefAt;
    if i < |s.members| {
      var x := s.members[i];
      var k := Find(s.installed, (r: Route) => r.src == h && r.dst == x, 0);
      if k < |s.installed| {
        UninstallRef(s, k, g, d);
      }
      var s1 := if x == h || Net(s, x) != Net(s, h) then s else DropPair(s, h, x);
      assert SameHosts(s, s1) && RefAt(s1, g, d) by { hide Uninstall; }
      hide DropPair;
      DropFromRef(s1, h, i + 1, g, d);
    }
  }

  lemma DropRoutesRef(s: Fab, h: Id, g: Id, d: nat)
    requires RefAt(s, g, d)
    ensures RefAt(DropRoutes(s, h), g, d)
  {
    hide RefAt;
    DropToRef(s, h, 0, g, d);
    DropFromRef(DropTo(s, h, 0), h, 0, g, d);
  }

  lemma {:induction false} DropAllRef(s: Fab, order: seq<Id>, i: nat, g: Id, d: nat)
    requires i <= |order| && RefAt(s, g, d)
    ensures RefAt(DropAll(s, order, i), g, d)
    decreases |order| - i
  {
    hide RefAt;
    if i < |order| {
      DropRoutesRef(s, order[i], g, d);
      hide DropRoutes;
      DropAllRef(DropRoutes(s, order[i]), order, i + 1, g, d);
    }
  }

  lemma SameTable(s: Fab, r: Fab)
    requires Table(s) && SameHosts(s, r)
    ensures Table(r)
  {
  }

  lemma AddPairRef(s: Fab, svc: Service, x: Id, h: Id, pair: bool, now: int, g: Id, d: nat)
    requires Table(s) && RefAt(s, g, d)
    ensures RefAt(AddPair(s, svc, x, h, pair, now), g, d) && Table(AddPair(s, svc, x, h, pair, now))
  {
    var s1 := AddRoute(s, svc, x, h, now);
    var s2 := AddRoute(s1, svc, h, x, now);
    assert SameHosts(s, s1) && SameHosts(s1, s2);
    hide AddRoute, RefAt, Table;
    SameTable(s, s1);
    SameTable(s1, s2);
    AddRouteRef(s, svc, x, h, now, g, d);
    AddRouteRef(s1, svc, h, x, now, g, d);
  }

  lemma {:induction false} AddFromRef(s: Fab, svc: Service, h: Id, pair: bool, now: int, i: nat, g: Id, d: nat)
    requires i <= |s.members| && Table(s) && RefAt(s, g, d)
    ensures RefAt(AddFrom(s, svc, h, pair, now, i), g, d)
    decreases |s.members| - i
  {
    if i < |s.members| {
      var x := s.members[i];
      AddPairRef(s, svc, x, h, pair, now, g, d);
      var s1 := if Net(s, x) != Net(s, h) then s else AddPair(s, svc, x, h, pair, now);
      assert SameHosts(s, s1);
      hide RefAt, AddPair, Table;
      AddFromRef(s1, svc, h, pair, now, i + 1, g, d);
    }
  }

  lemma {:induction false} AddAllRef(s: Fab, svc: Service, order: seq<Id>, now: int, i: nat, g: Id, d: nat)
    requires i <= |order| && Table(s) && RefAt(s, g, d)
    ensures RefAt(AddAll(s, svc, order, now, i), g, d)
    decreases |order| - i
  {
    if i < |order| {
      AddFromRef(s, svc, order[i], false, now, 0, g, d);
      var s1 := AddFrom(s, svc, order[i], false, now, 0);
      assert SameHosts(s, s1);
      hide AddFrom, RefAt;
      AddAllRef(s1, svc, order, now, i + 1, g, d);
    }
  }

  lemma RerouteRef(s: Fab, svc: Service, e: Id, alias: int, port: int, now: int, g: Id, d: nat)
    requires Table(s) && RefAt(s, g, d)
    ensures RefAt(Reroute(s, svc, e, alias, port, now), g, d)
  {
    hide RefAt, AddRoute, Zap, Remove, Uses, Count;
    var k := Find(s.installed, (r: Route) => r.dst == e && Uses(r, alias, port), 0);
    if k < |s.installed| {
      var r := s.installed[k];
      var s1 := s.(installed := Remove(s.installed, k));
      CountRemove(s.installed, k, g);
      var r1 := Route(r.src, r.dst, [], now + RETRY_INIT_TS);
      CountAppend(s.pending, r1, g);
      MovedRef(s, s1.(pending := s1.pending + [r1]), g, d, 0);
      var d1 := One(g == r.src) + One(g == r.dst);
      MovedRef(s, s1, g, d, d1);
      AddRouteRef(s1, svc, r.src, r.dst, now, g, d + d1);
      ZapRef(AddRoute(s1, svc, r.src, r.dst, now), r, g, d);
      hide Find;
    }
  }

  lemma RetryOneRef(s: Fab, svc: Service, i: nat, now: int, g: Id, d: nat)
    requires i < |s.pending| && RefAt(s, g, d)
    ensures RefAt(RetryOne(s, svc, i, now).0, g, d)
  {
    hide RefAt, Zap, Remove, Count;
    var r := s.pending[i];
    var s1 := s.(queries := s.queries + 1);
    if r.src !in s.members || r.dst !in s.members {
      UnpendRef(s, i, s.queries + 1, g, d);
    } else {
      match svc(s.queries)
      case Path(hops) =>
        CountRemove(s.pending, i, g);
        CountAppend(s.installed, r.(path := hops), g);
        MovedRef(s, s1.(pending := Remove(s1.pending, i), installed := s1.installed + [r.(path := hops)]), g, d, 0);
      case NoPath =>
        CountSet(s.pending, i, r.(expiry := now + RETRY_TS), g);
        MovedRef(s, s1.(pending := s1.pending[i := r.(expiry := now + RETRY_TS)]), g, d, 0);
    }
  }

  lemma {:induction false} RetryRef(s: Fab, svc: Service, all: bool, now: int, i: nat, g: Id, d: nat)
    requires i <= |s.pending| && RefAt(s, g, d)
    ensures RefAt(Retry(s, svc, all, now, i), g, d)
    decreases |s.pending|, |s.pending| - i
  {
    hide RefAt;
    if i < |s.pending| {
      if !(all || now > s.pending[i].expiry) {
        RetryRef(s, svc, all, now, i + 1, g, d);
      } else {
        RetryOneRef(s, svc, i, now, g, d);
        var (s1, left) := RetryOne(s, svc, i, now);
        assert SameHosts(s, s1) && |s1.pending| == |s.pending| - if left then 1 else 0;
        hide RetryOne;
        RetryRef(s1, svc, all, now, if left then 0 else i + 1, g, d);
      }
    }
  }

  // ---------- Hosts ----------

  /** A port points to a known host that was added on it. */
  ghost predicate PortsOk(s: Fab) {
    forall p :: p in s.ports ==> s.ports[p] in s.info && s.info[s.ports[p]].port == p
  }

  lemma UnplugRef(s: Fab, h: Id, g: Id, d: nat)
    requires RefAt(s, g, d)
    ensures RefAt(Unplug(s, h), g, d)
  {
    if PortHolds(s, h) {
      var s1 := s.(ports := s.ports - {s.info[h].port});
      assert RefAt(s1, g, d + One(g == h)) by { hide Count; }
      PutRef(s1, h, g, d);
      hide RefAt, Put;
    }
  }

  lemma LeaveRef(s: Fab, k: nat, unplug: bool, g: Id, d: nat)
    requires Table(s) && k < |s.members| && RefAt(s, g, d)
    ensures RefAt(Leave(s, k, unplug), g, d)
  {
    var h := s.members[k];
    var s1 := s.(members := Remove(s.members, k));
    RemoveMember(s.members, k);
    assert RefAt(s1, g, d + One(g == h)) by { hide Count, Remove; }
    UnplugRef(s1, h, g, d + One(g == h));
    hide RefAt, Remove, Put, Unplug;
    PutRef(if unplug then Unplug(s1, h) else s1, h, g, d);
  }

  lemma DeleteRef(s: Fab, key: int, deactivate: bool, knownSwitch: bool, g: Id, d: nat)
    requires Table(s) && RefAt(s, g, d)
    ensures RefAt(DeleteHost(s, key, deactivate, knownSwitch), g, d)
  {
    var k := FindKey(s, key, 0);
    if k < |s.members| {
      var h := s.members[k];
      var s0 := DropRoutes(s, h);
      var s1 := ForgetPending(s0, h);
      assert SameHosts(s, s0) && SameHosts(s0, s1);
      hide RefAt, DropRoutes, ForgetPending, Leave, FindKey, Table;
      SameTable(s, s0);
      SameTable(s0, s1);
      DropRoutesRef(s, h, g, d);
      ForgetPendingRef(s0, h, g, d);
      LeaveRef(s1, k, !deactivate && knownSwitch, g, d);
    }
  }

  /** The state right after a new host took its port. */
  lemma TakePortRef(s: Fab, h: Id, host: Host, g: Id)
    requires PortsOk(s) && h !in s.info && RefAt(s, g, 0)
    ensures var s1 := TakePort(s, h, host);
            RefAt(s1, g, One(host.port in s.ports && s.ports[host.port] == g))
  {
    hide Count;
  }

  lemma TakePortTable(s: Fab, h: Id, host: Host)
    requires Table(s) && h !in s.info
    ensures Table(TakePort(s, h, host))
  {
  }

  lemma ArriveRef(s: Fab, svc: Service, h: Id, host: Host, now: int, g: Id)
    requires Table(s) && PortsOk(s) && h !in s.info && RefAt(s, g, 0)
    ensures RefAt(Arrive(s, svc, h, host, now), g, One(host.port in s.ports && s.ports[host.port] == g))
    ensures Table(Arrive(s, svc, h, host, now))
  {
    var s1 := TakePort(s, h, host);
    assert s1.recalc == s.recalc;
    assert SameHosts(s1, Arrive(s, svc, h, host, now));
    hide RefAt, Table, AddFrom, TakePort, SameHosts;
    TakePortRef(s, h, host, g);
    TakePortTable(s, h, host);
    SameTable(s1, Arrive(s, svc, h, host, now));
    AddFromRef(s1, svc, h, true, now, 0, g, One(host.port in s.ports && s.ports[host.port] == g));
  }

  lemma AddHostRef(s: Fab, svc: Service, h: Id, host: Host, validPort: bool, now: int, g: Id)
    requires Table(s) && PortsOk(s) && h !in s.info && RefAt(s, g, 0)
    ensures RefAt(AddHost(s, svc, h, host, validPort, now), g, 0)
  {
    hide RefAt, Table, Arrive, DeleteHost, Put, FindKey;
    ArriveRef(s, svc, h, host, now, g);
    if host.port in s.ports {
      var e := s.ports[host.port];
      var s1 := Arrive(s, svc, h, host, now);
      DeleteRef(s1, KeyOf(s, e), false, true, g, One(g == e));
      PutRef(DeleteHost(s1, KeyOf(s, e), false, true), e, g, 0);
    }
  }

  lemma LeavePorts(s: Fab, k: nat, unplug: bool)
    requires k < |s.members| && PortsOk(s)
    ensures PortsOk(Leave(s, k, unplug)) && (!unplug ==> Leave(s, k, unplug).ports == s.ports)
  {
    hide Remove;
  }

  lemma DeletePorts(s: Fab, key: int, deactivate: bool, knownSwitch: bool)
    requires PortsOk(s)
    ensures var r := DeleteHost(s, key, deactivate, knownSwitch);
            PortsOk(r) && r.info == s.info && (deactivate ==> r.ports == s.ports)
  {
    var k := FindKey(s, key, 0);
    if k < |s.members| {
      var h := s.members[k];
      var s1 := ForgetPending(DropRoutes(s, h), h);
      assert SameHosts(s, s1);
      assert PortsOk(s1);
      assert Leave(s1, k, !deactivate && knownSwitch).info == s1.info;
      LeavePorts(s1, k, !deactivate && knownSwitch);
      hide DropRoutes, ForgetPending, FindKey, Remove, PortsOk, Leave;
    }
  }

  lemma AddHostPorts(s: Fab, svc: Service, h: Id, host: Host, validPort: bool, now: int)
    requires PortsOk(s) && h !in s.info
    ensures PortsOk(AddHost(s, svc, h, host, validPort, now))
  {
    var s1 := Arrive(s, svc, h, host, now);
    assert SameHosts(TakePort(s, h, host), s1);
    assert PortsOk(s1);
    hide Arrive, DeleteHost, FindKey, TakePort;
    if host.port in s.ports {
      DeletePorts(s1, KeyOf(s, s.ports[host.port]), false, true);
    }
  }

  lemma UnplugPort(s: Fab, port: Port, g: Id)
    requires PortsOk(s) && port in s.ports && RefAt(s, g, 0)
    ensures PortsOk(s.(ports := s.ports - {port})) && RefAt(s.(ports := s.ports - {port}), g, One(g == s.ports[port]))
  {
    hide Count;
  }

  lemma PortDownRef(s: Fab, port: Port, g: Id)
    requires Table(s) && PortsOk(s) && RefAt(s, g, 0)
    ensures RefAt(PortDown(s, port), g, 0) && PortsOk(PortDown(s, port))
  {
    if port in s.ports {
      hide DeleteHost, RefAt, Put;
      var e := s.ports[port];
      var s1 := DeleteHost(s, KeyOf(s, e), true, true);
      DeleteRef(s, KeyOf(s, e), true, true, g, 0);
      DeletePorts(s, KeyOf(s, e), true, true);
      UnplugPort(s1, port, g);
      PutRef(s1.(ports := s1.ports - {port}), e, g, 0);
      PutPorts(s1.(ports := s1.ports - {port}), e);
      hide PortsOk;
    }
  }

  lemma PutPorts(s: Fab, h: Id)
    requires PortsOk(s)
    ensures PortsOk(Put(s, h))
  {
  }

  // ---------- Runs ----------

  ghost predicate RefInv(s: Fab) {
    Sound(s) && PortsOk(s) && forall g :: RefAt(s, g, 0)
  }

  lemma StepRef(s: Fab, svc: Service, e: Event, g: Id)
    requires Table(s) && PortsOk(s) && RefAt(s, g, 0) && Enabled(s, e)
    ensures RefAt(Step(s, svc, e), g, 0)
  {
    match e
    case Add(h, host, validPort, now) => AddHostRef(s, svc, h, host, validPort, now, g);
    case Delete(key, knownSwitch) => DeleteRef(s, key, false, knownSwitch, g, 0);
    case PortGone(port) => PortDownRef(s, port, g);
    case RerouteOne(d, alias, lost, now) => RerouteRef(s, svc, d, alias, lost, now, g, 0);
    case ResetAll(order) =>
      SameButRecalc(s, true, g);
      DropAllRef(s.(recalc := true), order, 0, g, 0);
    case RecalcAll(order, now) =>
      SameButRecalc(s, false, g);
      AddAllRef(s.(recalc := false), svc, order, now, 0, g, 0);
    case RetryPass(all, now) => RetryRef(s, svc, all, now, 0, g, 0);
  }

  lemma SameButRecalc(s: Fab, recalc: bool, g: Id)
    requires Table(s) && RefAt(s, g, 0)
    ensures Table(s.(recalc := recalc)) && RefAt(s.(recalc := recalc), g, 0)
  {
  }

  lemma StepPorts(s: Fab, svc: Service, e: Event)
    requires PortsOk(s) && Table(s) && RefAt(s, 0, 0) && Enabled(s, e)
    ensures PortsOk(Step(s, svc, e))
  {
    match e
    case Add(h, host, validPort, now) => AddHostPorts(s, svc, h, host, validPort, now);
    case Delete(key, knownSwitch) => DeletePorts(s, key, false, knownSwitch);
    case PortGone(port) => PortDownRef(s, port, 0);
    case ResetAll(order) => assert SameHosts(s.(recalc := true), Step(s, svc, e));
    case RecalcAll(order, now) =>
      var s1 := s.(recalc := false);
      assert SameHosts(s1, AddAll(s1, svc, order, now, 0));
    case _ => assert SameHosts(s, Step(s, svc, e));
  }

  lemma StepKeepsRefInv(s: Fab, svc: Service, e: Event)
    requires RefInv(s) && Enabled(s, e)
    ensures RefInv(Step(s, svc, e))
  {
    StepSound(s, svc, e);
    assert Table(s);
    assert RefAt(s, 0, 0);
    StepPorts(s, svc, e);
    var r := Step(s, svc, e);
    hide Step, Sound, Table, PortsOk, RefAt, Enabled;
    forall g ensures RefAt(r, g, 0) {
      assert RefAt(s, g, 0);
      StepRef(s, svc, e, g);
    }
  }

  lemma {:induction false} RunKeepsRefInv(s: Fab, svc: Service, evs: seq<Event>, r: Fab)
    requires RefInv(s) && Run(s, svc, evs, r)
    ensures RefInv(r)
    decreases |evs|
  {
    if evs != [] {
      StepKeepsRefInv(s, svc, evs[0]);
      RunKeepsRefInv(Step(s, svc, evs[0]), svc, evs[1..], r);
    }
  }

  lemma {:induction false} Named(l: seq<Route>, g: Id, i: nat)
    requires i < |l| && (l[i].src == g || l[i].dst == g)
    ensures Count(l, g) > 0
  {
    CountRemove(l, i, g);
  }

  /**
   In every reachable state a host record has been freed exactly when nothing refers to it: neither the
   host table, nor a port, nor a route, installed or pending, nor a pending route that was forgotten.
   Until then its counter is one less than the number of these references.
   */
  lemma FreedIffUnheld(svc: Service, evs: seq<Event>, r: Fab, g: Id)
    requires Run(EMPTY, svc, evs, r) && g in r.info
    ensures g in r.freed <==> Holders(r, g) == 0 && r.kept[g] == 0
    ensures g !in r.freed ==> Ref(r, g) + 1 == Holders(r, g) + r.kept[g]
  {
    assert RefInv(EMPTY);
    RunKeepsRefInv(EMPTY, svc, evs, r);
    assert RefAt(r, g, 0);
    hide Count;
  }

  /** So nothing names a freed record any more. */
  lemma NothingPointsToFreed(svc: Service, evs: seq<Event>, r: Fab, i: nat)
    requires Run(EMPTY, svc, evs, r)
    ensures forall h :: h in r.members ==> h !in r.freed
    ensures forall p :: p in r.ports ==> r.ports[p] !in r.freed
    ensures i < |r.installed| ==> r.installed[i].src !in r.freed && r.installed[i].dst !in r.freed
    ensures i < |r.pending| ==> r.pending[i].src !in r.freed && r.pending[i].dst !in r.freed
  {
    assert RefInv(EMPTY);
    RunKeepsRefInv(EMPTY, svc, evs, r);
    forall g | g in r.freed
      ensures g !in r.members && !PortHolds(r, g) && Count(r.installed, g) == 0 && Count(r.pending, g) == 0
    {
      assert RefAt(r, g, 0);
    }
    if i < |r.installed| {
      Named(r.installed, r.installed[i].src, i);
      Named(r.installed, r.installed[i].dst, i);
    }
    if i < |r.pending| {
      Named(r.pending, r.pending[i].src, i);
      Named(r.pending, r.pending[i].dst, i);
    }
    hide Count, RefAt, Run;
  }

  // ---------- Leaks ----------

  /** The route at `k` has `g` for an end. */
  predicate Names(l: seq<Route>, k: nat, g: Id) {
    k < |l| && (l[k].src == g || l[k].dst == g)
  }

  /**
   `g` is an end of a route that deleting `h` takes off the pending list: the first from `h`, or the first
   to `h` of those then left.
   */
  predicate Forgotten(l: seq<Route>, h: Id, g: Id) {
    var k := Find(l, (r: Route) => r.src == h, 0);
    var rest := if k < |l| then Remove(l, k) else l;
    Names(l, k, g) || Names(rest, Find(rest, (r: Route) => r.dst == h, 0), g)
  }

  lemma ForgetKept(s: Fab, k: nat, g: Id)
    requires k <= |s.pending|
    ensures var r := Forget(s, k);
            && s.kept[g] <= r.kept[g] && (s.kept[g] < r.kept[g] <==> Names(s.pending, k, g))
            && r.pending == if k < |s.pending| then Remove(s.pending, k) else s.pending
  {
    hide Remove;
  }

  lemma ForgetPendingKept(s: Fab, h: Id, g: Id)
    ensures var r := ForgetPending(s, h); s.kept[g] <= r.kept[g] && (s.kept[g] < r.kept[g] <==> Forgotten(s.pending, h, g))
  {
    var k := Find(s.pending, (r: Route) => r.src == h, 0);
    ForgetKept(s, k, g);
    var s1 := Forget(s, k);
    ForgetKept(s1, Find(s1.pending, (r: Route) => r.dst == h, 0), g);
    hide Forget, Remove, Names;
  }

  /** There is a host with this key, and deleting it forgets a reference to `g`. */
  predicate DeletionForgets(s: Fab, key: int, g: Id) {
    var k := FindKey(s, key, 0);
    k < |s.members| && Forgotten(s.pending, s.members[k], g)
  }

  /** Deleting a host leaks a reference to any record, itself or another, exactly by that guard. */
  lemma DeleteLeaksIff(s: Fab, key: int, deactivate: bool, knownSwitch: bool, g: Id)
    ensures var r := DeleteHost(s, key, deactivate, knownSwitch);
            s.kept[g] <= r.kept[g] && (s.kept[g] < r.kept[g] <==> DeletionForgets(s, key, g))
  {
    var k := FindKey(s, key, 0);
    if k < |s.members| {
      var s0 := DropRoutes(s, s.members[k]);
      assert s0.pending == s.pending && s0.kept == s.kept && s0.members == s.members;
      var s1 := ForgetPending(s0, s.members[k]);
      assert s1.members == s.members;
      ForgetPendingKept(s0, s.members[k], g);
      assert SameRoutes(s1, Leave(s1, k, !deactivate && knownSwitch));
      hide DropRoutes, ForgetPending, Leave, FindKey, Forgotten;
    }
  }

  /** The event deletes a host, and that deletion forgets a reference to `g`. */
  ghost predicate Leaks(s: Fab, svc: Service, e: Event, g: Id) {
    match e
    case Delete(key, _) => DeletionForgets(s, key, g)
    case PortGone(port) => port in s.ports && DeletionForgets(s, KeyOf(s, s.ports[port]), g)
    case Add(h, host, validPort, now) =>
      && validPort && FindKey(s, host.key, 0) == |s.members| && host.port in s.ports
      && DeletionForgets(Arrive(s, svc, h, host, now), KeyOf(s, s.ports[host.port]), g)
    case _ => false
  }

  lemma StepLeaksIff(s: Fab, svc: Service, e: Event, g: Id)
    ensures var r := Step(s, svc, e); s.kept[g] <= r.kept[g] && (s.kept[g] < r.kept[g] <==> Leaks(s, svc, e, g))
  {
    match e
    case Add(h, host, validPort, now) =>
      var s1 := Arrive(s, svc, h, host, now);
      assert s1.kept == s.kept;
      if host.port in s.ports {
        DeleteLeaksIff(s1, KeyOf(s, s.ports[host.port]), false, true, g);
      }
      hide Arrive, DeleteHost, FindKey, DeletionForgets;
    case Delete(key, knownSwitch) =>
      DeleteLeaksIff(s, key, false, knownSwitch, g);
    case PortGone(port) =>
      if port in s.ports {
        DeleteLeaksIff(s, KeyOf(s, s.ports[port]), true, true, g);
      }
      hide DeleteHost, DeletionForgets;
    case RecalcAll(order, now) =>
      assert s.recalc ==> AddAll(s.(recalc := false), svc, order, now, 0).kept == s.kept;
    case _ =>
  }

  /** Some event of the run leaks a reference to `g`. */
  ghost predicate LeakedIn(s: Fab, svc: Service, evs: seq<Event>, g: Id)
    decreases |evs|
  {
    evs != [] && (Leaks(s, svc, evs[0], g) || LeakedIn(Step(s, svc, evs[0]), svc, evs[1..], g))
  }

  lemma {:induction false} RunLeaksIff(s: Fab, svc: Service, evs: seq<Event>, r: Fab, g: Id)
    requires Run(s, svc, evs, r)
    ensures s.kept[g] <= r.kept[g] && (s.kept[g] < r.kept[g] <==> LeakedIn(s, svc, evs, g))
    decreases |evs|
  {
    if evs != [] {
      StepLeaksIff(s, svc, evs[0], g);
      hide Step, Enabled, Leaks;
      RunLeaksIff(Step(s, svc, evs[0]), svc, evs[1..], r, g);
    }
  }

  /**
   In every run, a record that table, port and routes have let go of stays unfreed if and only if some
   deletion in the run forgot a reference to it.
   */
  lemma UnfreedIffLeaked(svc: Service, evs: seq<Event>, r: Fab, g: Id)
    requires Run(EMPTY, svc, evs, r) && g in r.info && Holders(r, g) == 0
    ensures g !in r.freed <==> LeakedIn(EMPTY, svc, evs, g)
  {
    FreedIffUnheld(svc, evs, r, g);
    RunLeaksIff(EMPTY, svc, evs, r, g);
    hide Run, LeakedIn, Holders;
  }

  /** And then it is never freed, however long the run goes on. */
  lemma ForgottenNeverFreed(s: Fab, svc: Service, evs: seq<Event>, r: Fab, g: Id)
    requires RefInv(s) && Run(s, svc, evs, r) && s.kept[g] > 0
    ensures g in r.info && g !in r.freed
  {
    RunLeaksIff(s, svc, evs, r, g);
    RunKeepsRefInv(s, svc, evs, r);
    assert RefAt(r, g, 0);
    hide Run, Count, LeakedIn;
  }
}
