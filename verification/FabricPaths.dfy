/** Where routes come from: in every run an installed route has a path the route service gave for it. */
module FabricPaths {
  import opened Sequences
  import opened Fabric
  import opened FabricCover
  import opened FabricRoutes

  /** One of the first `n` answers of the service was this path. */
  ghost predicate Given(svc: Service, n: nat, path: seq<Hop>) {
    exists q: nat :: q < n && svc(q) == Path(path)
  }

  /** A route leads from one host to another of the same network. */
  predicate Within(s: Fab, r: Route) {
    r.src != r.dst && r.src in s.info && r.dst in s.info && s.info[r.src].net == s.info[r.dst].net
  }

  ghost predicate Placed(s: Fab, svc: Service, r: Route) {
    Within(s, r) && Given(svc, s.queries, r.path)
  }

  /** Installed routes stay within a network and have a path that was given; pending ones have none. */
  ghost predicate Legit(s: Fab, svc: Service) {
    && (forall r :: r in s.installed ==> Placed(s, svc, r))
    && (forall r :: r in s.pending ==> Within(s, r) && r.path == [])
  }

  /** No route is new, and hosts and answers are only added. */
  ghost predicate Fewer(s: Fab, r: Fab) {
    && s.queries <= r.queries && (forall h :: h in s.info ==> h in r.info && r.info[h] == s.info[h])
    && (forall x :: x in r.installed ==> x in s.installed) && (forall x :: x in r.pending ==> x in s.pending)
  }

  lemma GivenLater(svc: Service, n: nat, m: nat, path: seq<Hop>)
    requires n <= m && Given(svc, n, path)
    ensures Given(svc, m, path)
  {
    var q: nat :| q < n && svc(q) == Path(path);
  }

  lemma PlacedLater(s: Fab, r: Fab, svc: Service, x: Route)
    requires Placed(s, svc, x) && s.queries <= r.queries && s.info == r.info
    ensures Placed(r, svc, x)
  {
    GivenLater(svc, s.queries, r.queries, x.path);
  }

  lemma FewerLegit(s: Fab, r: Fab, svc: Service)
    requires Legit(s, svc) && Fewer(s, r)
    ensures Legit(r, svc)
  {
    hide Given;
    forall x | x in r.installed ensures Placed(r, svc, x) {
      assert Placed(s, svc, x);
      GivenLater(svc, s.queries, r.queries, x.path);
    }
  }

  /** One route is installed with the answer to the last question, or made pending. */
  lemma OneMore(s: Fab, r: Fab, svc: Service, x: Route)
    requires Legit(s, svc) && Within(s, x) && s.info == r.info && s.queries <= r.queries
    requires forall y :: y in r.installed ==> y in s.installed || (y == x && Given(svc, r.queries, x.path))
    requires forall y :: y in r.pending ==> y in s.pending || (y == x && x.path == [])
    ensures Legit(r, svc)
  {
    hide Given;
    forall y | y in r.installed ensures Placed(r, svc, y) {
      if y in s.installed {
        PlacedLater(s, r, svc, y);
      }
    }
  }

  lemma AddRouteLegit(s: Fab, svc: Service, src: Id, dst: Id, now: int)
    requires Legit(s, svc)
    requires src != dst && src in s.members && dst in s.members ==> Within(s, Route(src, dst, [], 0))
    ensures Legit(AddRoute(s, svc, src, dst, now), svc)
  {
    hide Legit;
    if src != dst && src in s.members && dst in s.members {
      var r := AddRoute(s, svc, src, dst, now);
      match svc(s.queries)
      case Path(hops) => OneMore(s, r, svc, Route(src, dst, hops, 0));
      case NoPath => OneMore(s, r, svc, Route(src, dst, [], now + RETRY_INIT_TS));
    }
  }

  lemma {:induction false} AddFromLegit(s: Fab, svc: Service, h: Id, pair: bool, now: int, i: nat)
    requires Legit(s, svc) && Table(s) && i <= |s.members|
    ensures Legit(AddFrom(s, svc, h, pair, now, i), svc)
    decreases |s.members| - i
  {
    if i < |s.members| {
      var x := s.members[i];
      var s1 := if Net(s, x) != Net(s, h) then s else AddPair(s, svc, x, h, pair, now);
      if Net(s, x) == Net(s, h) {
        AddPairLegit(s, svc, x, h, pair, now);
      }
      assert SameHosts(s, s1);
      assert Table(s1);
      hide Legit, AddPair, Table, Net;
      AddFromLegit(s1, svc, h, pair, now, i + 1);
    }
  }

  lemma AddPairLegit(s: Fab, svc: Service, x: Id, h: Id, pair: bool, now: int)
    requires Legit(s, svc) && Table(s) && Net(s, x) == Net(s, h)
    ensures Legit(AddPair(s, svc, x, h, pair, now), svc)
  {
    var s1 := AddRoute(s, svc, x, h, now);
    assert SameHosts(s, s1);
    hide Legit, AddRoute;
    AddRouteLegit(s, svc, x, h, now);
    AddRouteLegit(s1, svc, h, x, now);
  }

  lemma {:induction false} AddAllLegit(s: Fab, svc: Service, order: seq<Id>, now: int, i: nat)
    requires Legit(s, svc) && Table(s) && i <= |order|
    ensures Legit(AddAll(s, svc, order, now, i), svc)
    decreases |order| - i
  {
    if i < |order| {
      var s1 := AddFrom(s, svc, order[i], false, now, 0);
      AddFromLegit(s, svc, order[i], false, now, 0);
      assert SameHosts(s, s1);
      assert Table(s1);
      hide Legit, AddFrom, Table;
      AddAllLegit(s1, svc, order, now, i + 1);
    }
  }

  lemma DropRoutesFewer(s: Fab, h: Id)
    ensures Fewer(s, DropRoutes(s, h))
  {
    DropRoutesIs(s, h);
    var r := DropRoutes(s, h);
    assert SameHosts(s, r) && r.pending == s.pending;
    hide DropRoutes, Spared;
  }

  lemma ForgetFewer(s: Fab, k: nat)
    requires k <= |s.pending|
    ensures Fewer(s, Forget(s, k))
  {
  }

  lemma FewerTwice(s: Fab, r: Fab, t: Fab)
    requires Fewer(s, r) && Fewer(r, t)
    ensures Fewer(s, t)
  {
  }

  lemma ForgetPendingFewer(s: Fab, h: Id)
    ensures Fewer(s, ForgetPending(s, h))
  {
    var k := Find(s.pending, (r: Route) => r.src == h, 0);
    var s1 := Forget(s, k);
    var j := Find(s1.pending, (r: Route) => r.dst == h, 0);
    ForgetFewer(s, k);
    ForgetFewer(s1, j);
    hide Fewer, Forget;
    FewerTwice(s, s1, Forget(s1, j));
  }

  lemma DeleteFewer(s: Fab, key: int, deactivate: bool, knownSwitch: bool)
    ensures Fewer(s, DeleteHost(s, key, deactivate, knownSwitch))
  {
    var k := FindKey(s, key, 0);
    if k < |s.members| {
      var h := s.members[k];
      var s1 := DropRoutes(s, h);
      var s2 := ForgetPending(s1, h);
      DropRoutesFewer(s, h);
      ForgetPendingFewer(s1, h);
      FewerTwice(s, s1, s2);
      var r := Leave(s2, k, !deactivate && knownSwitch);
      assert r.info == s2.info && SameRoutes(s2, r);
      hide DropRoutes, ForgetPending, Leave, FindKey;
      FewerTwice(s, s2, r);
    }
  }

  lemma {:induction false} DropAllFewer(s: Fab, order: seq<Id>, i: nat)
    requires i <= |order|
    ensures Fewer(s, DropAll(s, order, i))
    decreases |order| - i
  {
    if i < |order| {
      var s1 := DropRoutes(s, order[i]);
      DropRoutesFewer(s, order[i]);
      hide Fewer, DropRoutes;
      DropAllFewer(s1, order, i + 1);
      FewerTwice(s, s1, DropAll(s1, order, i + 1));
    }
  }

  lemma ArriveLegit(s: Fab, svc: Service, h: Id, host: Host, now: int)
    requires Legit(s, svc) && Table(s) && h !in s.info
    ensures Legit(Arrive(s, svc, h, host, now), svc)
  {
    var s1 := TakePort(s, h, host);
    assert Fewer(s, s1);
    assert Table(s1);
    FewerLegit(s, s1, svc);
    hide Legit, Table, TakePort, AddFrom;
    AddFromLegit(s1, svc, h, true, now, 0);
  }

  lemma PutLegit(s: Fab, svc: Service, h: Id)
    requires Legit(s, svc)
    ensures Legit(Put(s, h), svc)
  {
    assert SameHosts(s, Put(s, h)) && SameRoutes(s, Put(s, h));
    hide Put, Legit;
    FewerLegit(s, Put(s, h), svc);
  }

  lemma AddHostLegit(s: Fab, svc: Service, h: Id, host: Host, validPort: bool, now: int)
    requires Legit(s, svc) && Table(s) && h !in s.info
    ensures Legit(AddHost(s, svc, h, host, validPort, now), svc)
  {
    hide Legit, Arrive, DeleteHost, Put, FindKey;
    ArriveLegit(s, svc, h, host, now);
    if host.port in s.ports {
      var s1 := Arrive(s, svc, h, host, now);
      var key := KeyOf(s, s.ports[host.port]);
      DeleteFewer(s1, key, false, true);
      FewerLegit(s1, DeleteHost(s1, key, false, true), svc);
      PutLegit(DeleteHost(s1, key, false, true), svc, s.ports[host.port]);
    }
  }

  lemma PortDownLegit(s: Fab, svc: Service, port: Port)
    requires Legit(s, svc)
    ensures Legit(PortDown(s, port), svc)
  {
    if port in s.ports {
      var e := s.ports[port];
      var s1 := DeleteHost(s, KeyOf(s, e), true, true);
      DeleteFewer(s, KeyOf(s, e), true, true);
      FewerLegit(s, s1, svc);
      FewerLegit(s1, s1.(ports := s1.ports - {port}), svc);
      hide Legit, DeleteHost, Put;
      PutLegit(s1.(ports := s1.ports - {port}), svc, e);
    }
  }

  lemma ZapLegit(s: Fab, svc: Service, x: Route)
    requires Legit(s, svc)
    ensures Legit(Zap(s, x), svc)
  {
    hide Legit, Put;
    PutLegit(s, svc, x.src);
    PutLegit(Put(s, x.src), svc, x.dst);
  }

  lemma RerouteLegit(s: Fab, svc: Service, d: Id, alias: int, port: int, now: int)
    requires Legit(s, svc)
    ensures Legit(Reroute(s, svc, d, alias, port, now), svc)
  {
    var k := Find(s.installed, (r: Route) => r.dst == d && Uses(r, alias, port), 0);
    if k < |s.installed| {
      var r := s.installed[k];
      var s1 := s.(installed := Remove(s.installed, k));
      assert Placed(s, svc, r) && Fewer(s, s1);
      FewerLegit(s, s1, svc);
      hide Legit, AddRoute, Zap, Uses, Find, Remove, Given;
      if r.src in s.info && d in s.info && s.info[r.src].port.0 == s.info[d].port.0 {
        var x := Route(r.src, r.dst, [], now + RETRY_INIT_TS);
        OneMore(s1, s1.(pending := s1.pending + [x]), svc, x);
      } else {
        AddRouteLegit(s1, svc, r.src, r.dst, now);
        ZapLegit(AddRoute(s1, svc, r.src, r.dst, now), svc, r);
      }
    }
  }

  lemma RetryOneLegit(s: Fab, svc: Service, i: nat, now: int)
    requires Legit(s, svc) && i < |s.pending|
    ensures Legit(RetryOne(s, svc, i, now).0, svc)
  {
    var r := s.pending[i];
    assert r in s.pending && Within(s, r) && r.path == [];
    hide Legit, Zap, Remove, Given;
    var s1 := s.(queries := s.queries + 1);
    var s2 := s1.(pending := Remove(s1.pending, i));
    FewerPending(s, i);
    FewerLegit(s, s2, svc);
    ZapLegit(s2, svc, r);
    if r.src in s.members && r.dst in s.members {
      match svc(s.queries)
      case Path(hops) =>
        OneMore(s2, RetryOne(s, svc, i, now).0, svc, r.(path := hops));
      case NoPath =>
        OneMore(s, RetryOne(s, svc, i, now).0, svc, r.(expiry := now + RETRY_TS));
    }
  }

  lemma FewerPending(s: Fab, i: nat)
    requires i < |s.pending|
    ensures Fewer(s, s.(queries := s.queries + 1, pending := Remove(s.pending, i)))
  {
  }

  lemma {:induction false} RetryLegit(s: Fab, svc: Service, all: bool, now: int, i: nat)
    requires Legit(s, svc) && i <= |s.pending|
    ensures Legit(Retry(s, svc, all, now, i), svc)
    decreases |s.pending|, |s.pending| - i
  {
    hide Legit, RetryOne;
    if i < |s.pending| {
      if !(all || now > s.pending[i].expiry) {
        RetryLegit(s, svc, all, now, i + 1);
      } else {
        RetryOneLegit(s, svc, i, now);
        RetryShrinks(s, svc, i, now);
        var (s1, left) := RetryOne(s, svc, i, now);
        RetryLegit(s1, svc, all, now, if left then 0 else i + 1);
      }
    }
  }

  lemma RetryShrinks(s: Fab, svc: Service, i: nat, now: int)
    requires i < |s.pending|
    ensures var o := RetryOne(s, svc, i, now);
            |o.0.pending| == |s.pending| - (if o.1 then 1 else 0) && o.0.queries == s.queries + 1
  {
  }

  lemma StepLegit(s: Fab, svc: Service, e: Event)
    requires Legit(s, svc) && Table(s) && Enabled(s, e)
    ensures Legit(Step(s, svc, e), svc)
  {
    match e
    case Add(h, host, validPort, now) => AddHostLegit(s, svc, h, host, validPort, now);
    case Delete(key, knownSwitch) =>
      DeleteFewer(s, key, false, knownSwitch);
      FewerLegit(s, Step(s, svc, e), svc);
    case PortGone(port) => PortDownLegit(s, svc, port);
    case RerouteOne(d, alias, lost, now) => RerouteLegit(s, svc, d, alias, lost, now);
    case ResetAll(order) =>
      DropAllFewer(s.(recalc := true), order, 0);
      FewerLegit(s, s.(recalc := true), svc);
      FewerLegit(s.(recalc := true), Step(s, svc, e), svc);
    case RecalcAll(order, now) =>
      FewerLegit(s, s.(recalc := false), svc);
      AddAllLegit(s.(recalc := false), svc, order, now, 0);
    case RetryPass(all, now) => RetryLegit(s, svc, all, now, 0);
  }

  lemma {:induction false} RunLegit(s: Fab, svc: Service, evs: seq<Event>, r: Fab)
    requires Legit(s, svc) && Sound(s) && Run(s, svc, evs, r)
    ensures Legit(r, svc)
    decreases |evs|
  {
    if evs != [] {
      assert Table(s);
      StepSound(s, svc, evs[0]);
      StepLegit(s, svc, evs[0]);
      hide Legit, Sound, Table, Step, Enabled;
      RunLegit(Step(s, svc, evs[0]), svc, evs[1..], r);
    }
  }

  /**
   In every run every installed route joins two hosts of one network and follows a path the service gave in
   answer to one of the questions asked, first made, retried or rerouted.
   */
  lemma PathsAreGiven(svc: Service, evs: seq<Event>, r: Fab, x: Route)
    requires Run(EMPTY, svc, evs, r) && x in r.installed
    ensures exists q: nat :: q < r.queries && svc(q) == Path(x.path)
    ensures x.src != x.dst && x.src in r.info && x.dst in r.info && r.info[x.src].net == r.info[x.dst].net
  {
    assert Sound(EMPTY) && Legit(EMPTY, svc);
    RunLegit(EMPTY, svc, evs, r);
    hide Run;
    assert Placed(r, svc, x);
  }

  // ---------- Retrying ----------

  /** Some question from `lo` up to `hi` was answered with no path. */
  ghost predicate Refused(svc: Service, lo: nat, hi: nat) {
    exists q: nat :: lo <= q < hi && svc(q) == NoPath
  }

  /** A pending route that was not due, or one of two live hosts that was refused and is due again in four seconds. */
  ghost predicate Settled(s: Fab, svc: Service, lo: nat, all: bool, now: int, r: Route) {
    || (!all && now <= r.expiry)
    || (r.expiry == now + 4 && r.src in s.members && r.dst in s.members && Refused(svc, lo, s.queries))
  }

  ghost predicate AllSettled(s: Fab, svc: Service, lo: nat, all: bool, now: int, n: nat)
    requires n <= |s.pending|
  {
    forall j :: 0 <= j < n ==> Settled(s, svc, lo, all, now, s.pending[j])
  }

  lemma SettledLater(s: Fab, r: Fab, svc: Service, lo: nat, all: bool, now: int, x: Route)
    requires Settled(s, svc, lo, all, now, x) && s.members == r.members && s.queries <= r.queries
    ensures Settled(r, svc, lo, all, now, x)
  {
    if Refused(svc, lo, s.queries) {
      var q: nat :| lo <= q < s.queries && svc(q) == NoPath;
      assert Refused(svc, lo, r.queries);
    }
  }

  lemma RefusedStays(s: Fab, svc: Service, lo: nat, all: bool, now: int, i: nat)
    requires i < |s.pending| && lo <= s.queries && AllSettled(s, svc, lo, all, now, i) && !RetryOne(s, svc, i, now).1
    ensures var r := RetryOne(s, svc, i, now).0;
            r.queries >= s.queries && |r.pending| == |s.pending| && AllSettled(r, svc, lo, all, now, i + 1)
  {
    var r := RetryOne(s, svc, i, now).0;
    assert svc(s.queries) == NoPath && Refused(svc, lo, r.queries);
    hide Settled, Refused;
    forall j | 0 <= j < i + 1 ensures Settled(r, svc, lo, all, now, r.pending[j]) {
      if j < i {
        SettledLater(s, r, svc, lo, all, now, s.pending[j]);
      } else {
        NewlySettled(r, svc, lo, all, now, r.pending[i]);
      }
    }
  }

  lemma NewlySettled(s: Fab, svc: Service, lo: nat, all: bool, now: int, r: Route)
    requires r.expiry == now + 4 && r.src in s.members && r.dst in s.members && Refused(svc, lo, s.queries)
    ensures Settled(s, svc, lo, all, now, r)
  {
  }

  /**
   After a retry pass every route still pending was not due, or joins live hosts, was refused by an answer of
   this pass and is due again in four seconds. So if every answer is a path, no due route is left.
   */
  lemma {:induction false} RetrySettles(s: Fab, svc: Service, lo: nat, all: bool, now: int, i: nat)
    requires i <= |s.pending| && lo <= s.queries && AllSettled(s, svc, lo, all, now, i)
    ensures var r := Retry(s, svc, all, now, i); AllSettled(r, svc, lo, all, now, |r.pending|)
    decreases |s.pending|, |s.pending| - i
  {
    hide RetryOne, Settled;
    if i < |s.pending| {
      if !(all || now > s.pending[i].expiry) {
        NotDue(s, svc, lo, all, now, s.pending[i]);
        RetrySettles(s, svc, lo, all, now, i + 1);
      } else {
        RetryShrinks(s, svc, i, now);
        var (s1, left) := RetryOne(s, svc, i, now);
        if left {
          RetrySettles(s1, svc, lo, all, now, 0);
        } else {
          RefusedStays(s, svc, lo, all, now, i);
          RetrySettles(s1, svc, lo, all, now, i + 1);
        }
      }
    }
  }

  lemma NotDue(s: Fab, svc: Service, lo: nat, all: bool, now: int, r: Route)
    requires !all && now <= r.expiry
    ensures Settled(s, svc, lo, all, now, r)
  {
  }
}
