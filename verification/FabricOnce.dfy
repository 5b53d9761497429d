/** How many routes a pair has: one, installed or pending, in every run without a reset; and when a reset doubles it. */
module FabricOnce {
  import opened Sequences
  import opened Fabric
  import opened FabricCover
  import opened FabricRoutes
  import opened FabricPaths
  import opened FabricHosts

  /** The routes from `a` to `b`, installed or pending. */
  function Total(s: Fab, a: Id, b: Id): nat {
    Pairs(s.installed, a, b) + Pairs(s.pending, a, b)
  }

  function Count(c: bool): nat {
    if c then 1 else 0
  }

  lemma PairsOne(r: Route, a: Id, b: Id)
    ensures Pairs([r], a, b) == Count(r.src == a && r.dst == b)
  {
    assert [r][..0] == [];
  }

  lemma PairsAppend(l: seq<Route>, r: Route, a: Id, b: Id)
    ensures Pairs(l + [r], a, b) == Pairs(l, a, b) + Count(r.src == a && r.dst == b)
  {
    PairsOne(r, a, b);
    PairsJoin(l, [r], a, b);
    hide Pairs;
  }

  lemma PairsTakeOut(l: seq<Route>, i: nat, a: Id, b: Id)
    requires i < |l|
    ensures Pairs(l, a, b) == Pairs(Remove(l, i), a, b) + Count(l[i].src == a && l[i].dst == b)
  {
    PairsRemove(l, i, a, b);
  }

  lemma PairsSet(l: seq<Route>, i: nat, r: Route, a: Id, b: Id)
    requires i < |l| && r.src == l[i].src && r.dst == l[i].dst
    ensures Pairs(l[i := r], a, b) == Pairs(l, a, b)
  {
    PairsTakeOut(l, i, a, b);
    PairsTakeOut(l[i := r], i, a, b);
    assert Remove(l[i := r], i) == Remove(l, i);
    hide Pairs;
  }

  // ---------- Making routes ----------

  lemma AddRouteTotal(s: Fab, svc: Service, src: Id, dst: Id, now: int, a: Id, b: Id)
    requires src in s.members && dst in s.members
    ensures Total(AddRoute(s, svc, src, dst, now), a, b) == Total(s, a, b) + Count(src != dst && src == a && dst == b)
  {
    hide Pairs;
    if src != dst {
      match svc(s.queries)
      case Path(hops) => PairsAppend(s.installed, Route(src, dst, hops, 0), a, b);
      case NoPath => PairsAppend(s.pending, Route(src, dst, [], now + RETRY_INIT_TS), a, b);
    }
  }

  lemma AddPairTotal(s: Fab, svc: Service, x: Id, h: Id, pair: bool, now: int, a: Id, b: Id)
    requires x in s.members && h in s.members
    ensures Total(AddPair(s, svc, x, h, pair, now), a, b) ==
            Total(s, a, b) + Count(x != h && x == a && h == b) + Count(pair && x != h && h == a && x == b)
  {
    var s1 := AddRoute(s, svc, x, h, now);
    assert SameHosts(s, s1);
    AddRouteTotal(s, svc, x, h, now, a, b);
    AddRouteTotal(s1, svc, h, x, now, a, b);
    hide Total, AddRoute;
  }

  /** The pair is the one the walk makes at position `i`. */
  predicate DueHere(s: Fab, h: Id, pair: bool, i: nat, a: Id, b: Id)
    requires i < |s.members|
  {
    var x := s.members[i];
    x != h && Net(s, x) == Net(s, h) && ((x == a && h == b) || (pair && h == a && x == b))
  }

  lemma DueOrLater(s: Fab, s1: Fab, h: Id, pair: bool, i: nat, a: Id, b: Id)
    requires Table(s) && i < |s.members| && SameHosts(s, s1)
    ensures Due(s, h, pair, i, a, b) <==> DueHere(s, h, pair, i, a, b) || Due(s1, h, pair, i + 1, a, b)
    ensures !(DueHere(s, h, pair, i, a, b) && Due(s1, h, pair, i + 1, a, b))
  {
    assert s.members[i..] == [s.members[i]] + s.members[i + 1..];
    assert s.members[i] !in s.members[i + 1..];
  }

  /** The walk makes one route for each pair that is due, and no other. */
  lemma {:induction false} AddFromTotal(s: Fab, svc: Service, h: Id, pair: bool, now: int, i: nat, a: Id, b: Id)
    requires Table(s) && h in s.members && i <= |s.members|
    ensures Total(AddFrom(s, svc, h, pair, now, i), a, b) == Total(s, a, b) + Count(Due(s, h, pair, i, a, b))
    decreases |s.members| - i
  {
    hide Total, AddPair, Net, Due, DueHere, Table;
    if i < |s.members| {
      var x := s.members[i];
      var s1 := if Net(s, x) != Net(s, h) then s else AddPair(s, svc, x, h, pair, now);
      HereTotal(s, s1, svc, h, pair, now, i, a, b);
      DueOrLater(s, s1, h, pair, i, a, b);
      AddFromTotal(s1, svc, h, pair, now, i + 1, a, b);
    } else {
      NoneDue(s, h, pair, i, a, b);
    }
  }

  lemma NoneDue(s: Fab, h: Id, pair: bool, i: nat, a: Id, b: Id)
    requires i == |s.members|
    ensures !Due(s, h, pair, i, a, b)
  {
  }

  lemma HereTotal(s: Fab, s1: Fab, svc: Service, h: Id, pair: bool, now: int, i: nat, a: Id, b: Id)
    requires Table(s) && h in s.members && i < |s.members|
    requires s1 == if Net(s, s.members[i]) != Net(s, h) then s else AddPair(s, svc, s.members[i], h, pair, now)
    ensures SameHosts(s, s1) && Table(s1) && Total(s1, a, b) == Total(s, a, b) + Count(DueHere(s, h, pair, i, a, b))
  {
    var x := s.members[i];
    assert SameHosts(s, AddPair(s, svc, x, h, pair, now));
    AddPairTotal(s, svc, x, h, pair, now, a, b);
    hide Total, AddPair, Net;
  }

  // ---------- Routes that stay ----------

  /** A route that is retried is not doubled, and goes only with one of its hosts. */
  lemma RetryOneTotal(s: Fab, svc: Service, i: nat, now: int, a: Id, b: Id)
    requires i < |s.pending| && a in s.members && b in s.members
    ensures Total(RetryOne(s, svc, i, now).0, a, b) == Total(s, a, b)
  {
    hide Pairs, Remove;
    var r := s.pending[i];
    PairsTakeOut(s.pending, i, a, b);
    if r.src !in s.members || r.dst !in s.members {
      var z := s.(queries := s.queries + 1, pending := Remove(s.pending, i));
      assert SameRoutes(z, Zap(z, r));
      hide Zap;
    } else {
      match svc(s.queries)
      case Path(hops) => PairsAppend(s.installed, r.(path := hops), a, b);
      case NoPath => PairsSet(s.pending, i, r.(expiry := now + RETRY_TS), a, b);
    }
  }

  lemma {:induction false} RetryTotal(s: Fab, svc: Service, all: bool, now: int, i: nat, a: Id, b: Id)
    requires i <= |s.pending| && a in s.members && b in s.members
    ensures Total(Retry(s, svc, all, now, i), a, b) == Total(s, a, b)
    decreases |s.pending|, |s.pending| - i
  {
    if i < |s.pending| {
      if !(all || now > s.pending[i].expiry) {
        hide Total;
        RetryTotal(s, svc, all, now, i + 1, a, b);
      } else {
        RetryOneTotal(s, svc, i, now, a, b);
        var (s1, left) := RetryOne(s, svc, i, now);
        assert SameHosts(s, s1);
        RetryShrinks(s, svc, i, now);
        hide Total, RetryOne;
        RetryTotal(s1, svc, all, now, if left then 0 else i + 1, a, b);
      }
    }
  }

  lemma AskAgainTotal(s: Fab, svc: Service, r: Route, now: int, a: Id, b: Id)
    requires a in s.members && b in s.members && a != b
    ensures Total(Zap(AddRoute(s, svc, r.src, r.dst, now), r), a, b) == Total(s, a, b) + Count(r.src == a && r.dst == b)
  {
    var s2 := AddRoute(s, svc, r.src, r.dst, now);
    assert SameRoutes(s2, Zap(s2, r));
    if r.src in s.members && r.dst in s.members {
      AddRouteTotal(s, svc, r.src, r.dst, now, a, b);
    }
    hide Zap, Pairs;
  }

  lemma RerouteTotal(s: Fab, svc: Service, d: Id, alias: int, port: int, now: int, a: Id, b: Id)
    requires a in s.members && b in s.members && a != b
    ensures Total(Reroute(s, svc, d, alias, port, now), a, b) == Total(s, a, b)
  {
    var k := Find(s.installed, (r: Route) => r.dst == d && Uses(r, alias, port), 0);
    hide Pairs, Remove, Uses;
    if k < |s.installed| {
      var r := s.installed[k];
      var s1 := s.(installed := Remove(s.installed, k));
      PairsTakeOut(s.installed, k, a, b);
      hide Find;
      if r.src in s.info && d in s.info && s.info[r.src].port.0 == s.info[d].port.0 {
        PairsAppend(s.pending, Route(r.src, r.dst, [], now + RETRY_INIT_TS), a, b);
      } else {
        AskAgainTotal(s1, svc, r, now, a, b);
        hide Zap, AddRoute;
      }
    }
  }

  lemma {:induction false} PairsWithout(l: seq<Route>, h: Id, a: Id, b: Id)
    requires a != h && b != h
    ensures Pairs(Without(l, h, true), a, b) == Pairs(l, a, b)
  {
    if l != [] {
      var n := |l| - 1;
      LastOf(l, h, a, b);
      hide Pairs, Without;
      PairsWithout(l[..n], h, a, b);
      PairsAppend(Without(l[..n], h, true), l[n], a, b);
    }
  }

  lemma LastOf(l: seq<Route>, h: Id, a: Id, b: Id)
    requires l != []
    ensures var (r, front) := (l[|l| - 1], l[..|l| - 1]);
            && Pairs(l, a, b) == Pairs(front, a, b) + Count(r.src == a && r.dst == b)
            && Without(l, h, true) == if r.dst == h || r.src == h then Without(front, h, true) else Without(front, h, true) + [r]
  {
    var front := Without(l[..|l| - 1], h, true);
    assert front + [] == front;
  }

  lemma DropRoutesTotal(s: Fab, h: Id, a: Id, b: Id)
    requires a != h && b != h
    ensures Total(DropRoutes(s, h), a, b) == Total(s, a, b)
  {
    var r := DropRoutes(s, h);
    assert r.pending == s.pending;
    DropRoutesIs(s, h);
    PairsWithout(s.installed, h, a, b);
    PairsWithout(r.installed, h, a, b);
    hide DropRoutes, Pairs, Without;
  }

  lemma ForgetTotal(s: Fab, k: nat, a: Id, b: Id)
    requires k <= |s.pending| && (k < |s.pending| ==> !(s.pending[k].src == a && s.pending[k].dst == b))
    ensures Total(Forget(s, k), a, b) == Total(s, a, b)
  {
    if k < |s.pending| {
      PairsTakeOut(s.pending, k, a, b);
    }
    hide Pairs, Remove;
  }

  lemma ForgetPendingTotal(s: Fab, h: Id, a: Id, b: Id)
    requires a != h && b != h
    ensures Total(ForgetPending(s, h), a, b) == Total(s, a, b)
  {
    var k := Find(s.pending, (r: Route) => r.src == h, 0);
    var s1 := Forget(s, k);
    ForgetTotal(s, k, a, b);
    ForgetTotal(s1, Find(s1.pending, (r: Route) => r.dst == h, 0), a, b);
    hide Total, Forget;
  }

  lemma DeleteTotal(s: Fab, key: int, deactivate: bool, knownSwitch: bool, a: Id, b: Id)
    requires Table(s)
    requires var r := DeleteHost(s, key, deactivate, knownSwitch); a in r.members && b in r.members
    ensures a in s.members && b in s.members && Total(DeleteHost(s, key, deactivate, knownSwitch), a, b) == Total(s, a, b)
  {
    var k := FindKey(s, key, 0);
    if k < |s.members| {
      var h := s.members[k];
      DeleteIs(s, key, deactivate, knownSwitch, k);
      RemoveMember(s.members, k);
      hide FindKey, Remove, Leave, Table;
      DropRoutesTotal(s, h, a, b);
      ForgetPendingTotal(DropRoutes(s, h), h, a, b);
      hide DropRoutes, ForgetPending, DeleteHost, Pairs;
    }
  }

  // ---------- Runs ----------

  /** Every ordered pair of distinct hosts in the table and in one network has exactly one route. */
  ghost predicate Once(s: Fab) {
    forall a, b :: a in s.members && b in s.members && a != b && Net(s, a) == Net(s, b) ==> Total(s, a, b) == 1
  }

  /** A run without a reset is always here. */
  ghost predicate Steady(s: Fab, svc: Service) {
    Sound(s) && Legit(s, svc) && !s.recalc && Once(s)
  }

  lemma NewHasNone(s: Fab, svc: Service, h: Id, a: Id)
    requires Legit(s, svc) && h !in s.info
    ensures Total(s, a, h) == 0 && Total(s, h, a) == 0
  {
    PairsNone(s.installed, a, h);
    PairsNone(s.installed, h, a);
    PairsNone(s.pending, a, h);
    PairsNone(s.pending, h, a);
    hide Pairs, Given;
    assert forall i :: 0 <= i < |s.installed| ==> s.installed[i] in s.installed;
    assert forall i :: 0 <= i < |s.pending| ==> s.pending[i] in s.pending;
  }

  lemma NetsKept(s: Fab, r: Fab)
    requires s.info == r.info
    ensures forall h :: Net(r, h) == Net(s, h)
  {
  }

  lemma SameOnce(s: Fab, r: Fab)
    requires Once(s) && s.info == r.info
    requires forall a, b :: a in r.members && b in r.members && a != b ==> a in s.members && b in s.members && Total(r, a, b) == Total(s, a, b)
    ensures Once(r)
  {
    NetsKept(s, r);
    hide Total, Net;
  }

  lemma ArriveTotal(s: Fab, svc: Service, h: Id, host: Host, now: int, a: Id, b: Id)
    requires Steady(s, svc) && h !in s.info
    ensures var r := Arrive(s, svc, h, host, now);
            a in r.members && b in r.members && a != b && Net(r, a) == Net(r, b) ==> Total(r, a, b) == 1
  {
    var s1 := TakePort(s, h, host);
    var r := Arrive(s, svc, h, host, now);
    assert SameHosts(s1, r) && Table(s) && Table(s1) && h in s1.members;
    NetsKept(s1, r);
    if a in s1.members && b in s1.members && a != b && Net(s1, a) == Net(s1, b) {
      AddFromTotal(s1, svc, h, true, now, 0, a, b);
      assert Total(s1, a, b) == Total(s, a, b);
      NewHasNone(s, svc, h, if a == h then b else a);
      hide AddFrom, Total, Legit, Sound;
      assert s1.members[0..] == s1.members;
      assert Due(s1, h, true, 0, a, b) <==> a == h || b == h;
    }
  }

  lemma ArriveOnce(s: Fab, svc: Service, h: Id, host: Host, now: int)
    requires Steady(s, svc) && h !in s.info
    ensures Once(Arrive(s, svc, h, host, now)) && Table(Arrive(s, svc, h, host, now))
  {
    var r := Arrive(s, svc, h, host, now);
    assert SameHosts(TakePort(s, h, host), r);
    assert Table(s) && Table(r);
    hide Arrive, Total, Net, Steady;
    forall a, b | a in r.members && b in r.members && a != b && Net(r, a) == Net(r, b) ensures Total(r, a, b) == 1 {
      ArriveTotal(s, svc, h, host, now, a, b);
    }
  }

  lemma DeleteOnce(s: Fab, key: int, deactivate: bool, knownSwitch: bool)
    requires Table(s) && Once(s)
    ensures Once(DeleteHost(s, key, deactivate, knownSwitch))
  {
    var r := DeleteHost(s, key, deactivate, knownSwitch);
    var k := FindKey(s, key, 0);
    if k < |s.members| {
      DeleteIs(s, key, deactivate, knownSwitch, k);
      hide DeleteHost, Total, Once, Table, FindKey;
      forall a, b | a in r.members && b in r.members && a != b
        ensures a in s.members && b in s.members && Total(r, a, b) == Total(s, a, b)
      {
        DeleteTotal(s, key, deactivate, knownSwitch, a, b);
      }
      SameOnce(s, r);
    }
  }

  lemma PutOnce(s: Fab, h: Id)
    requires Once(s)
    ensures Once(Put(s, h))
  {
    assert SameHosts(s, Put(s, h)) && SameRoutes(s, Put(s, h));
    hide Put;
    SameOnce(s, Put(s, h));
  }

  lemma AddHostOnce(s: Fab, svc: Service, h: Id, host: Host, validPort: bool, now: int)
    requires Steady(s, svc) && h !in s.info
    ensures Once(AddHost(s, svc, h, host, validPort, now))
  {
    assert Once(s);
    hide Once, Arrive, DeleteHost, Put, FindKey, Steady, Table;
    ArriveOnce(s, svc, h, host, now);
    if host.port in s.ports {
      var s1 := Arrive(s, svc, h, host, now);
      var key := KeyOf(s, s.ports[host.port]);
      DeleteOnce(s1, key, false, true);
      PutOnce(DeleteHost(s1, key, false, true), s.ports[host.port]);
    }
  }

  lemma PortDownOnce(s: Fab, port: Port)
    requires Table(s) && Once(s)
    ensures Once(PortDown(s, port))
  {
    hide DeleteHost, Put, Table;
    if port in s.ports {
      var e := s.ports[port];
      var s1 := DeleteHost(s, KeyOf(s, e), true, true);
      var s2 := s1.(ports := s1.ports - {port});
      DeleteOnce(s, KeyOf(s, e), true, true);
      assert forall a, b :: Total(s2, a, b) == Total(s1, a, b);
      SameOnce(s1, s2);
      hide Once;
      PutOnce(s2, e);
    }
  }

  lemma StepOnce(s: Fab, svc: Service, e: Event)
    requires Steady(s, svc) && Enabled(s, e) && !e.ResetAll?
    ensures Once(Step(s, svc, e))
  {
    assert Table(s) && Once(s);
    hide Once, Steady, Table, Total;
    match e
    case Add(h, host, validPort, now) => AddHostOnce(s, svc, h, host, validPort, now);
    case Delete(key, knownSwitch) => DeleteOnce(s, key, false, knownSwitch);
    case PortGone(port) => PortDownOnce(s, port);
    case RerouteOne(d, alias, lost, now) =>
      var r := Reroute(s, svc, d, alias, lost, now);
      assert SameHosts(s, r);
      hide Reroute;
      forall a, b | a in r.members && b in r.members && a != b ensures Total(r, a, b) == Total(s, a, b) {
        RerouteTotal(s, svc, d, alias, lost, now, a, b);
      }
      SameOnce(s, r);
    case RecalcAll(order, now) => assert !s.recalc by { StillSteady(s, svc); }
    case RetryPass(all, now) =>
      var r := Retry(s, svc, all, now, 0);
      assert SameHosts(s, r);
      hide Retry;
      forall a, b | a in r.members && b in r.members && a != b ensures Total(r, a, b) == Total(s, a, b) {
        RetryTotal(s, svc, all, now, 0, a, b);
      }
      SameOnce(s, r);
  }

  lemma StillSteady(s: Fab, svc: Service)
    requires Steady(s, svc)
    ensures !s.recalc && Sound(s) && Legit(s, svc) && Table(s)
  {
  }

  /** Only a reset makes a recalculation due. */
  lemma NoRecalc(s: Fab, svc: Service, e: Event)
    requires !s.recalc && !e.ResetAll?
    ensures !Step(s, svc, e).recalc
  {
    match e
    case Add(h, host, validPort, now) =>
      if validPort && FindKey(s, host.key, 0) == |s.members| {
        var s1 := Arrive(s, svc, h, host, now);
        assert SameHosts(TakePort(s, h, host), s1);
        hide Arrive;
        if host.port in s.ports {
          DeleteRecalc(s1, KeyOf(s, s.ports[host.port]), false, true);
          hide DeleteHost;
        }
      }
    case Delete(key, knownSwitch) => DeleteRecalc(s, key, false, knownSwitch);
    case PortGone(port) =>
      if port in s.ports {
        DeleteRecalc(s, KeyOf(s, s.ports[port]), true, true);
        hide DeleteHost;
      }
    case _ =>
  }

  lemma DeleteRecalc(s: Fab, key: int, deactivate: bool, knownSwitch: bool)
    ensures DeleteHost(s, key, deactivate, knownSwitch).recalc == s.recalc
  {
    var k := FindKey(s, key, 0);
    if k < |s.members| {
      DeleteIs(s, key, deactivate, knownSwitch, k);
    }
    hide DropRoutes, ForgetPending, FindKey, Leave;
  }

  lemma StepSteady(s: Fab, svc: Service, e: Event)
    requires Steady(s, svc) && Enabled(s, e) && !e.ResetAll?
    ensures Steady(Step(s, svc, e), svc)
  {
    StepOnce(s, svc, e);
    StillSteady(s, svc);
    hide Once, Sound, Legit, Step, Enabled, Table;
    StepSound(s, svc, e);
    StepLegit(s, svc, e);
    NoRecalc(s, svc, e);
  }

  lemma {:induction false} RunSteady(s: Fab, svc: Service, evs: seq<Event>, r: Fab)
    requires Steady(s, svc) && Run(s, svc, evs, r) && forall i :: 0 <= i < |evs| ==> !evs[i].ResetAll?
    ensures Steady(r, svc)
    decreases |evs|
  {
    hide Steady, Step, Enabled;
    if evs != [] {
      StepSteady(s, svc, evs[0]);
      RunSteady(Step(s, svc, evs[0]), svc, evs[1..], r);
    }
  }

  /**
   In every run without a reset, whatever the service answers, two hosts of one network have exactly one route
   from the one to the other, installed or pending: none is lost and none is made twice.
   */
  lemma RoutedOnce(svc: Service, evs: seq<Event>, r: Fab, a: Id, b: Id)
    requires Run(EMPTY, svc, evs, r) && forall i :: 0 <= i < |evs| ==> !evs[i].ResetAll?
    requires a in r.members && b in r.members && a != b && Net(r, a) == Net(r, b)
    ensures Total(r, a, b) == 1
  {
    assert Steady(EMPTY, svc);
    RunSteady(EMPTY, svc, evs, r);
    hide Run, Total, Net;
  }

  // ---------- Recalculating ----------

  lemma {:induction false} AddAllTotal(s: Fab, svc: Service, order: seq<Id>, now: int, i: nat, a: Id, b: Id)
    requires Table(s) && i <= |order| && (forall j :: 0 <= j < |order| ==> order[j] in s.members)
    requires forall j, k :: 0 <= j < k < |order| ==> order[j] != order[k]
    requires a in s.members && a != b
    ensures Total(AddAll(s, svc, order, now, i), a, b) == Total(s, a, b) + Count(b in order[i..] && Net(s, a) == Net(s, b))
    decreases |order| - i
  {
    if i < |order| {
      var s1 := AddFrom(s, svc, order[i], false, now, 0);
      AddFromTotal(s, svc, order[i], false, now, 0, a, b);
      assert SameHosts(s, s1) && Table(s1);
      NetsKept(s, s1);
      assert order[i..] == [order[i]] + order[i + 1..] && order[i] !in order[i + 1..];
      assert s.members[0..] == s.members;
      assert Due(s, order[i], false, 0, a, b) <==> b == order[i] && Net(s, a) == Net(s, b);
      hide Total, AddFrom, Table, Net, Due;
      AddAllTotal(s1, svc, order, now, i + 1, a, b);
    }
  }

  /**
   After a recalculation every pair has exactly one route if and only if none had one before, installed or
   pending. A reset takes away the installed ones, so a pending one is what doubles a route. The walk over the
   host table visits each host once.
   */
  lemma RecalcOnceIff(s: Fab, svc: Service, order: seq<Id>, now: int)
    requires Table(s) && s.recalc && (forall h :: h in s.members <==> h in order)
    requires forall j, k :: 0 <= j < k < |order| ==> order[j] != order[k]
    ensures Once(Recalc(s, svc, order, now)) <==>
              forall a, b :: a in s.members && b in s.members && a != b && Net(s, a) == Net(s, b) ==> Total(s, a, b) == 0
  {
    var s1, r := s.(recalc := false), Recalc(s, svc, order, now);
    assert r == AddAll(s1, svc, order, now, 0) && SameHosts(s1, r) && Table(s1) && order[0..] == order;
    NetsKept(s, r);
    forall a, b | a in s.members && b in s.members && a != b && Net(s, a) == Net(s, b)
      ensures Total(r, a, b) == Total(s, a, b) + 1
    {
      AddAllTotal(s1, svc, order, now, 0, a, b);
      assert Total(s1, a, b) == Total(s, a, b);
      hide Total, AddAll, Net;
    }
    hide Total, Recalc, AddAll, Net;
  }
}
