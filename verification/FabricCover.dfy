/** Every two live hosts of a tenant network have a route, or one that is pending. */
module FabricCover {
  import opened Sequences
  import opened Fabric

  ghost predicate Has(l: seq<Route>, a: Id, b: Id) {
    exists r :: r in l && r.src == a && r.dst == b
  }

  ghost predicate Covers(s: Fab, a: Id, b: Id) {
    Has(s.installed, a, b) || Has(s.pending, a, b)
  }

  /** Unless a recalculation is due, each ordered pair of distinct hosts in the table and in one network is covered. */
  ghost predicate Coverage(s: Fab) {
    !s.recalc ==>
      forall a, b :: a in s.members && b in s.members && a != b && Net(s, a) == Net(s, b) ==> Covers(s, a, b)
  }

  lemma HasAppend(l: seq<Route>, r: Route, a: Id, b: Id)
    ensures Has(l + [r], a, b) <==> Has(l, a, b) || (r.src == a && r.dst == b)
  {
    if r.src == a && r.dst == b {
      assert r in l + [r];
    }
    if Has(l, a, b) {
      var x :| x in l && x.src == a && x.dst == b;
      assert x in l + [r];
    }
  }

  lemma HasRemove(l: seq<Route>, i: nat, a: Id, b: Id)
    requires i < |l|
    ensures Has(l, a, b) <==> Has(Remove(l, i), a, b) || (l[i].src == a && l[i].dst == b)
  {
    var m := Remove(l, i);
    assert l == l[..i] + [l[i]] + l[i + 1..];
    assert forall r :: r in l <==> r in m || r == l[i];
    if Has(m, a, b) {
      var x :| x in m && x.src == a && x.dst == b;
      assert x in l;
    }
    if l[i].src == a && l[i].dst == b {
      assert l[i] in l;
    }
  }

  // ---------- Making routes ----------

  lemma AddRouteCovers(s: Fab, svc: Service, src: Id, dst: Id, now: int, a: Id, b: Id)
    ensures var r := AddRoute(s, svc, src, dst, now);
            && (Covers(s, a, b) ==> Covers(r, a, b))
            && (src != dst && src in s.members && dst in s.members ==> Covers(r, src, dst))
  {
    match svc(s.queries)
    case Path(hops) =>
      HasAppend(s.installed, Route(src, dst, hops, 0), a, b);
      HasAppend(s.installed, Route(src, dst, hops, 0), src, dst);
      hide Has;
    case NoPath =>
      HasAppend(s.pending, Route(src, dst, [], now + RETRY_INIT_TS), a, b);
      HasAppend(s.pending, Route(src, dst, [], now + RETRY_INIT_TS), src, dst);
      hide Has;
  }

  lemma AddPairCovers(s: Fab, svc: Service, x: Id, h: Id, pair: bool, now: int, a: Id, b: Id)
    ensures var r := AddPair(s, svc, x, h, pair, now);
            && (Covers(s, a, b) ==> Covers(r, a, b))
            && (x != h && x in s.members && h in s.members ==> Covers(r, x, h) && (pair ==> Covers(r, h, x)))
  {
    var s1 := AddRoute(s, svc, x, h, now);
    AddRouteCovers(s, svc, x, h, now, a, b);
    AddRouteCovers(s1, svc, h, x, now, a, b);
    AddRouteCovers(s1, svc, h, x, now, x, h);
    assert SameHosts(s, s1);
    hide AddRoute, Covers;
  }

  /** The pair is one that `AddFrom` is yet to make. */
  ghost predicate Due(s: Fab, h: Id, pair: bool, i: nat, a: Id, b: Id)
    requires i <= |s.members|
  {
    && a != b
    && ((b == h && a in s.members[i..] && Net(s, a) == Net(s, h)) || (pair && a == h && b in s.members[i..] && Net(s, b) == Net(s, h)))
  }

  lemma DueStep(s: Fab, s1: Fab, svc: Service, h: Id, pair: bool, now: int, i: nat, a: Id, b: Id)
    requires i < |s.members| && h in s.members
    requires s1 == if Net(s, s.members[i]) != Net(s, h) then s else AddPair(s, svc, s.members[i], h, pair, now)
    ensures SameHosts(s, s1) && (Covers(s, a, b) ==> Covers(s1, a, b))
    ensures Due(s, h, pair, i, a, b) ==> Due(s1, h, pair, i + 1, a, b) || Covers(s1, a, b)
  {
    var x := s.members[i];
    assert s.members[i..] == [x] + s.members[i + 1..];
    AddPairCovers(s, svc, x, h, pair, now, a, b);
    assert SameHosts(s, s1);
    hide AddPair, Covers;
  }

  lemma {:induction false} AddFromCovers(s: Fab, svc: Service, h: Id, pair: bool, now: int, i: nat, a: Id, b: Id)
    requires i <= |s.members| && h in s.members
    ensures Covers(s, a, b) || Due(s, h, pair, i, a, b) ==> Covers(AddFrom(s, svc, h, pair, now, i), a, b)
    decreases |s.members| - i
  {
    if i < |s.members| {
      hide AddPair, Covers, Due, Net;
      var s1 := if Net(s, s.members[i]) != Net(s, h) then s else AddPair(s, svc, s.members[i], h, pair, now);
      DueStep(s, s1, svc, h, pair, now, i, a, b);
      AddFromCovers(s1, svc, h, pair, now, i + 1, a, b);
    }
  }

  lemma {:induction false} AddAllCovers(s: Fab, svc: Service, order: seq<Id>, now: int, i: nat, a: Id, b: Id)
    requires i <= |order| && forall h :: h in order ==> h in s.members
    ensures var r := AddAll(s, svc, order, now, i);
            && (Covers(s, a, b) ==> Covers(r, a, b))
            && (a in s.members && b in order[i..] && a != b && Net(s, a) == Net(s, b) ==> Covers(r, a, b))
    decreases |order| - i
  {
    if i < |order| {
      assert order[i..] == [order[i]] + order[i + 1..];
      AddFromCovers(s, svc, order[i], false, now, 0, a, b);
      var s1 := AddFrom(s, svc, order[i], false, now, 0);
      assert SameHosts(s, s1) && s.members[0..] == s.members;
      hide AddFrom, Covers;
      AddAllCovers(s1, svc, order, now, i + 1, a, b);
    }
  }

  // ---------- Taking routes away ----------

  lemma UninstallCovers(s: Fab, i: nat, a: Id, b: Id)
    requires i < |s.installed| && (s.installed[i].src != a || s.installed[i].dst != b)
    ensures Covers(s, a, b) ==> Covers(Uninstall(s, i), a, b)
  {
    HasRemove(s.installed, i, a, b);
    hide Has;
  }

  lemma {:induction false} DropToCovers(s: Fab, h: Id, i: nat, a: Id, b: Id)
    requires i <= |s.installed| && b != h
    ensures Covers(s, a, b) ==> Covers(DropTo(s, h, i), a, b)
    decreases |s.installed| - i
  {
    if i < |s.installed| {
      if s.installed[i].dst == h {
        UninstallCovers(s, i, a, b);
        var s1 := Uninstall(s, i);
        assert |s1.installed| == |s.installed| - 1;
        hide Covers, Uninstall;
        DropToCovers(s1, h, i, a, b);
      } else {
        DropToCovers(s, h, i + 1, a, b);
      }
    }
  }

  lemma {:induction false} DropFromCovers(s: Fab, h: Id, i: nat, a: Id, b: Id)
    requires i <= |s.members| && a != h
    ensures Covers(s, a, b) ==> Covers(DropFrom(s, h, i), a, b)
    decreases |s.members| - i
  {
    if i < |s.members| {
      var x := s.members[i];
      var k := Find(s.installed, (r: Route) => r.src == h && r.dst == x, 0);
      if k < |s.installed| {
        UninstallCovers(s, k, a, b);
      }
      var s1 := if x == h || Net(s, x) != Net(s, h) then s else DropPair(s, h, x);
      assert SameHosts(s, s1) && (Covers(s, a, b) ==> Covers(s1, a, b)) by { hide Uninstall, Covers; }
      hide Covers, DropPair;
      DropFromCovers(s1, h, i + 1, a, b);
    }
  }

  lemma DropRoutesCovers(s: Fab, h: Id, a: Id, b: Id)
    requires a != h && b != h
    ensures Covers(s, a, b) ==> Covers(DropRoutes(s, h), a, b)
  {
    DropToCovers(s, h, 0, a, b);
    DropFromCovers(DropTo(s, h, 0), h, 0, a, b);
  }

  lemma ForgetPendingCovers(s: Fab, h: Id, a: Id, b: Id)
    requires a != h && b != h
    ensures Covers(s, a, b) ==> Covers(ForgetPending(s, h), a, b)
  {
    var k := Find(s.pending, (r: Route) => r.src == h, 0);
    var s1 := Forget(s, k);
    if k < |s.pending| {
      HasRemove(s.pending, k, a, b);
    }
    var j := Find(s1.pending, (r: Route) => r.dst == h, 0);
    if j < |s1.pending| {
      HasRemove(s1.pending, j, a, b);
    }
    hide Has, Remove;
  }

  // ---------- Events ----------

  /** Each record is in the host table at most once, and known. */
  ghost predicate Table(s: Fab) {
    && (forall i, j :: 0 <= i < j < |s.members| ==> s.members[i] != s.members[j])
    && (forall i :: 0 <= i < |s.members| ==> s.members[i] in s.info)
  }

  ghost predicate Sound(s: Fab) {
    Table(s) && Coverage(s)
  }

  lemma RemoveMember(l: seq<Id>, k: nat)
    requires k < |l| && forall i, j :: 0 <= i < j < |l| ==> l[i] != l[j]
    ensures var m := Remove(l, k);
            (forall i, j :: 0 <= i < j < |m| ==> m[i] != m[j]) && forall a :: a in m <==> a in l && a != l[k]
  {
    var m := Remove(l, k);
    assert forall i :: 0 <= i < |m| ==> m[i] == if i < k then l[i] else l[i + 1];
    assert l == l[..k] + [l[k]] + l[k + 1..];
  }

  lemma DeleteIs(s: Fab, key: int, deactivate: bool, knownSwitch: bool, k: nat)
    requires k == FindKey(s, key, 0) < |s.members|
    ensures var r := DeleteHost(s, key, deactivate, knownSwitch);
            var s1 := ForgetPending(DropRoutes(s, s.members[k]), s.members[k]);
            && r.installed == s1.installed && r.pending == s1.pending
            && r.members == Remove(s.members, k) && r.info == s.info && r.recalc == s.recalc
  {
    var s0 := DropRoutes(s, s.members[k]);
    var s1 := ForgetPending(s0, s.members[k]);
    assert SameHosts(s, s0) && SameHosts(s0, s1);
    hide DropRoutes, ForgetPending, FindKey, Remove;
  }

  /** Deleting a host costs no other pair its route. */
  lemma DeleteSound(s: Fab, key: int, deactivate: bool, knownSwitch: bool)
    requires Sound(s)
    ensures Sound(DeleteHost(s, key, deactivate, knownSwitch))
  {
    var k := FindKey(s, key, 0);
    if k < |s.members| {
      DeleteIs(s, key, deactivate, knownSwitch, k);
      hide DeleteHost, FindKey, DropRoutes, ForgetPending;
      var h := s.members[k];
      var r := DeleteHost(s, key, deactivate, knownSwitch);
      RemoveMember(s.members, k);
      hide Remove;
      forall a, b | !r.recalc && a in r.members && b in r.members && a != b && Net(r, a) == Net(r, b)
        ensures Covers(r, a, b)
      {
        assert Covers(s, a, b);
        DropRoutesCovers(s, h, a, b);
        ForgetPendingCovers(DropRoutes(s, h), h, a, b);
        hide Has;
      }
      hide Covers;
    }
  }

  lemma ArriveSound(s: Fab, svc: Service, h: Id, host: Host, now: int)
    requires Sound(s) && h !in s.info
    ensures Sound(Arrive(s, svc, h, host, now))
  {
    var s1 := TakePort(s, h, host);
    var s2 := Arrive(s, svc, h, host, now);
    assert SameHosts(s1, s2);
    assert Table(s2) by { hide Arrive; }
    NewHostCovered(s, s1, svc, h, now);
    hide AddFrom, Table, Covers;
  }

  lemma AddHostSound(s: Fab, svc: Service, h: Id, host: Host, validPort: bool, now: int)
    requires Sound(s) && h !in s.info
    ensures Sound(AddHost(s, svc, h, host, validPort, now))
  {
    hide DeleteHost, Arrive, Sound, Put, FindKey;
    var s1 := Arrive(s, svc, h, host, now);
    ArriveSound(s, svc, h, host, now);
    if host.port in s.ports {
      var e := s.ports[host.port];
      DeleteSound(s1, KeyOf(s, e), false, true);
      PutSound(DeleteHost(s1, KeyOf(s, e), false, true), e);
    }
  }

  lemma PutSound(s: Fab, h: Id)
    requires Sound(s)
    ensures Sound(Put(s, h))
  {
    assert SameHosts(s, Put(s, h));
  }

  lemma NewHostCovered(s: Fab, s1: Fab, svc: Service, h: Id, now: int)
    requires Sound(s) && h !in s.info && s1.members == s.members + [h] && h in s1.info && s1.info - {h} == s.info
    requires s1.installed == s.installed && s1.pending == s.pending && s1.recalc == s.recalc
    ensures !s1.recalc ==> Coverage(AddFrom(s1, svc, h, true, now, 0))
  {
    if !s1.recalc {
      var s2 := AddFrom(s1, svc, h, true, now, 0);
      assert SameHosts(s1, s2) && s1.members[0..] == s1.members;
      hide AddFrom;
      forall a, b | a in s2.members && b in s2.members && a != b && Net(s2, a) == Net(s2, b) ensures Covers(s2, a, b) {
        AddFromCovers(s1, svc, h, true, now, 0, a, b);
        if a != h && b != h {
          assert a in s.members && b in s.members && Net(s, a) == Net(s1, a) && Net(s, b) == Net(s1, b);
          assert Covers(s, a, b);
        }
        hide Has;
      }
    }
  }

  lemma PortsSound(s: Fab, ports: map<Port, Id>)
    requires Sound(s)
    ensures Sound(s.(ports := ports))
  {
    var r := s.(ports := ports);
    assert forall a, b :: Covers(s, a, b) ==> Covers(r, a, b);
    assert forall a :: Net(r, a) == Net(s, a);
    hide Covers, Net;
  }

  lemma PortDownSound(s: Fab, port: Port)
    requires Sound(s)
    ensures Sound(PortDown(s, port))
  {
    if port in s.ports {
      var e := s.ports[port];
      hide DeleteHost;
      var s1 := DeleteHost(s, KeyOf(s, e), true, true);
      DeleteSound(s, KeyOf(s, e), true, true);
      PortsSound(s1, s1.ports - {port});
      hide Sound, Put;
      PutSound(s1.(ports := s1.ports - {port}), e);
    }
  }

  /** A route over a lost port is replaced by another, installed or pending, if both hosts are still there. */
  lemma RerouteCovers(s: Fab, svc: Service, d: Id, alias: int, port: int, now: int, a: Id, b: Id)
    requires Covers(s, a, b) && a in s.members && b in s.members && a != b
    ensures Covers(Reroute(s, svc, d, alias, port, now), a, b)
  {
    var k := Find(s.installed, (r: Route) => r.dst == d && Uses(r, alias, port), 0);
    if k < |s.installed| {
      var r := s.installed[k];
      var s1 := s.(installed := Remove(s.installed, k));
      HasRemove(s.installed, k, a, b);
      HasAppend(s1.pending, Route(r.src, r.dst, [], now + RETRY_INIT_TS), a, b);
      AddRouteCovers(s1, svc, r.src, r.dst, now, a, b);
      hide Has, Remove, AddRoute, Uses, Find;
    }
  }

  lemma RetryOneCovers(s: Fab, svc: Service, i: nat, now: int, a: Id, b: Id)
    requires i < |s.pending| && Covers(s, a, b) && a in s.members && b in s.members
    ensures Covers(RetryOne(s, svc, i, now).0, a, b)
  {
    var r := s.pending[i];
    HasRemove(s.pending, i, a, b);
    match svc(s.queries)
    case Path(hops) =>
      HasAppend(s.installed, r.(path := hops), a, b);
      hide Has, Remove;
    case NoPath =>
      HasSet(s.pending, i, r.(expiry := now + RETRY_TS), a, b);
      hide Has, Remove;
  }

  lemma HasSet(l: seq<Route>, i: nat, r: Route, a: Id, b: Id)
    requires i < |l| && r.src == l[i].src && r.dst == l[i].dst
    ensures Has(l, a, b) ==> Has(l[i := r], a, b)
  {
    if Has(l, a, b) {
      var x :| x in l && x.src == a && x.dst == b;
      var j :| 0 <= j < |l| && l[j] == x;
      assert l[i := r][j] in l[i := r];
    }
  }

  lemma {:induction false} RetryCovers(s: Fab, svc: Service, all: bool, now: int, i: nat, a: Id, b: Id)
    requires i <= |s.pending| && Covers(s, a, b) && a in s.members && b in s.members
    ensures Covers(Retry(s, svc, all, now, i), a, b)
    decreases |s.pending|, |s.pending| - i
  {
    if i < |s.pending| {
      hide Covers;
      if !(all || now > s.pending[i].expiry) {
        RetryCovers(s, svc, all, now, i + 1, a, b);
      } else {
        RetryOneCovers(s, svc, i, now, a, b);
        var (s1, left) := RetryOne(s, svc, i, now);
        assert SameHosts(s, s1) && |s1.pending| == |s.pending| - if left then 1 else 0;
        hide RetryOne;
        RetryCovers(s1, svc, all, now, if left then 0 else i + 1, a, b);
      }
    }
  }

  /** A change of routes that keeps hosts and covered pairs. */
  lemma KeepsSound(s: Fab, r: Fab)
    requires Sound(s) && SameHosts(s, r)
    requires forall a, b :: a in s.members && b in s.members && a != b && Covers(s, a, b) ==> Covers(r, a, b)
    ensures Sound(r)
  {
    hide Covers;
  }

  lemma RecalcSound(s: Fab, svc: Service, order: seq<Id>, now: int)
    requires Sound(s) && forall h :: h in s.members <==> h in order
    ensures Sound(Recalc(s, svc, order, now))
  {
    if s.recalc {
      var s1 := s.(recalc := false);
      var r := AddAll(s1, svc, order, now, 0);
      assert SameHosts(s1, r) && order[0..] == order;
      hide AddAll;
      forall a, b | a in r.members && b in r.members && a != b && Net(r, a) == Net(r, b) ensures Covers(r, a, b) {
        AddAllCovers(s1, svc, order, now, 0, a, b);
        hide Covers;
      }
    }
  }

  /** Whatever happens, and whatever the route service answers, coverage is kept. */
  lemma StepSound(s: Fab, svc: Service, e: Event)
    requires Sound(s) && Enabled(s, e)
    ensures Sound(Step(s, svc, e))
  {
    match e
    case Add(h, host, validPort, now) => AddHostSound(s, svc, h, host, validPort, now);
    case Delete(key, knownSwitch) => DeleteSound(s, key, false, knownSwitch);
    case PortGone(port) => PortDownSound(s, port);
    case RerouteOne(d, alias, lost, now) =>
      forall a, b | a in s.members && b in s.members && a != b && Covers(s, a, b)
        ensures Covers(Reroute(s, svc, d, alias, lost, now), a, b)
      {
        RerouteCovers(s, svc, d, alias, lost, now, a, b);
      }
      KeepsSound(s, Reroute(s, svc, d, alias, lost, now));
    case ResetAll(order) =>
      assert SameHosts(s.(recalc := true), Reset(s, order));
    case RecalcAll(order, now) => RecalcSound(s, svc, order, now);
    case RetryPass(all, now) =>
      forall a, b | a in s.members && b in s.members && a != b && Covers(s, a, b)
        ensures Covers(Retry(s, svc, all, now, 0), a, b)
      {
        RetryCovers(s, svc, all, now, 0, a, b);
      }
      KeepsSound(s, Retry(s, svc, all, now, 0));
  }

  lemma {:induction false} RunSound(s: Fab, svc: Service, evs: seq<Event>, r: Fab)
    requires Sound(s) && Run(s, svc, evs, r)
    ensures Sound(r)
    decreases |evs|
  {
    if evs != [] {
      StepSound(s, svc, evs[0]);
      RunSound(Step(s, svc, evs[0]), svc, evs[1..], r);
    }
  }

  /** In every reachable state. */
  lemma AlwaysCovered(svc: Service, evs: seq<Event>, r: Fab, a: Id, b: Id)
    requires Run(EMPTY, svc, evs, r) && !r.recalc
    requires a in r.members && b in r.members && a != b && Net(r, a) == Net(r, b)
    ensures Covers(r, a, b)
  {
    RunSound(EMPTY, svc, evs, r);
  }
}
