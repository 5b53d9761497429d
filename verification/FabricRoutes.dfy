/** What taking routes away leaves: deleting a host's routes, a reset, and the loop over a lost port. */
module FabricRoutes {
  import opened Sequences
  import opened Fabric
  import opened FabricCover

  // ---------- Lists of routes ----------

  /** The routes of a list that do not go to `h`, nor, if `both`, come from it. */
  function Without(l: seq<Route>, h: Id, both: bool): seq<Route> {
    if l == [] then []
    else
      var r := l[|l| - 1];
      Without(l[..|l| - 1], h, both) + if r.dst == h || (both && r.src == h) then [] else [r]
  }

  lemma {:induction false} WithoutJoin(a: seq<Route>, b: seq<Route>, h: Id, both: bool)
    ensures Without(a + b, h, both) == Without(a, h, both) + Without(b, h, both)
  {
    if b == [] {
      assert a + b == a;
    } else {
      assert (a + b)[..|a + b| - 1] == a + b[..|b| - 1];
      WithoutJoin(a, b[..|b| - 1], h, both);
    }
  }

  lemma WithoutOne(r: Route, h: Id, both: bool)
    ensures Without([r], h, both) == if r.dst == h || (both && r.src == h) then [] else [r]
  {
    assert [r][..0] == [];
  }

  lemma WithoutRemoved(l: seq<Route>, i: nat, h: Id, both: bool)
    requires i < |l| && (l[i].dst == h || (both && l[i].src == h))
    ensures Without(Remove(l, i), h, both) == Without(l, h, both)
  {
    WithoutOne(l[i], h, both);
    WithoutJoin(l[..i], l[i + 1..], h, both);
    WithoutJoin(l[..i] + [l[i]], l[i + 1..], h, both);
    WithoutJoin(l[..i], [l[i]], h, both);
    assert l[..i] + [l[i]] + l[i + 1..] == l;
    hide Without;
  }

  lemma {:induction false} WithoutHas(l: seq<Route>, h: Id, both: bool, r: Route)
    ensures r in Without(l, h, both) <==> r in l && r.dst != h && (both ==> r.src != h)
  {
    if l != [] {
      WithoutHas(l[..|l| - 1], h, both, r);
      assert l == l[..|l| - 1] + [l[|l| - 1]];
    }
  }

  /** Nothing new is installed. */
  ghost predicate NoMore(s: Fab, r: Fab) {
    forall x :: x in r.installed ==> x in s.installed
  }

  /** Routes that do not touch `h` are all still there, in order. */
  ghost predicate Spared(s: Fab, r: Fab, h: Id) {
    Without(r.installed, h, true) == Without(s.installed, h, true)
  }

  // ---------- A host's routes ----------

  lemma UninstallIs(s: Fab, i: nat, h: Id)
    requires i < |s.installed| && (s.installed[i].dst == h || s.installed[i].src == h)
    ensures NoMore(s, Uninstall(s, i)) && Spared(s, Uninstall(s, i), h) && Uninstall(s, i).installed == Remove(s.installed, i)
  {
    WithoutRemoved(s.installed, i, h, true);
    hide Without;
  }

  lemma {:induction false} DropToIs(s: Fab, h: Id, i: nat)
    requires i <= |s.installed| && forall j :: 0 <= j < i ==> s.installed[j].dst != h
    ensures var r := DropTo(s, h, i); NoMore(s, r) && Spared(s, r, h) && forall x :: x in r.installed ==> x.dst != h
    decreases |s.installed| - i
  {
    if i < |s.installed| {
      if s.installed[i].dst == h {
        UninstallIs(s, i, h);
        var s1 := Uninstall(s, i);
        assert forall j :: 0 <= j < i ==> s1.installed[j] == s.installed[j];
        hide Uninstall, Without;
        DropToIs(s1, h, i);
      } else {
        DropToIs(s, h, i + 1);
      }
    }
  }

  lemma {:induction false} DropFromIs(s: Fab, h: Id, i: nat)
    requires i <= |s.members|
    ensures NoMore(s, DropFrom(s, h, i)) && Spared(s, DropFrom(s, h, i), h)
    decreases |s.members| - i
  {
    if i < |s.members| {
      var x := s.members[i];
      var s1 := if x == h || Net(s, x) != Net(s, h) then s else DropPair(s, h, x);
      DropPairIs(s, h, x);
      assert SameHosts(s, s1) && NoMore(s, s1) && Spared(s, s1, h);
      hide DropPair, Without, Spared;
      DropFromIs(s1, h, i + 1);
      SparedTwice(s, s1, DropFrom(s1, h, i + 1), h);
    }
  }

  lemma SparedTwice(s: Fab, r: Fab, q: Fab, h: Id)
    requires Spared(s, r, h) && Spared(r, q, h)
    ensures Spared(s, q, h)
  {
    hide Without;
  }

  lemma DropPairIs(s: Fab, h: Id, x: Id)
    ensures NoMore(s, DropPair(s, h, x)) && Spared(s, DropPair(s, h, x), h)
  {
    var k := Find(s.installed, (r: Route) => r.src == h && r.dst == x, 0);
    if k < |s.installed| {
      UninstallIs(s, k, h);
      hide Uninstall, Without;
    }
  }

  /** No route to `h` is left, every route that does not touch `h` is, in order, and none is new. */
  lemma DropRoutesIs(s: Fab, h: Id)
    ensures var r := DropRoutes(s, h); NoMore(s, r) && Spared(s, r, h) && forall x :: x in r.installed ==> x.dst != h
  {
    var s1 := DropTo(s, h, 0);
    DropToIs(s, h, 0);
    DropFromIs(s1, h, 0);
    hide DropTo, DropFrom, Without, Spared;
    SparedTwice(s, s1, DropFrom(s1, h, 0), h);
  }

  // ---------- Routes from a host that is deleted ----------

  /** How many routes of a list lead from `a` to `b`. */
  function Pairs(l: seq<Route>, a: Id, b: Id): nat {
    if l == [] then 0 else Pairs(l[..|l| - 1], a, b) + if l[|l| - 1].src == a && l[|l| - 1].dst == b then 1 else 0
  }

  lemma {:induction false} PairsJoin(x: seq<Route>, y: seq<Route>, a: Id, b: Id)
    ensures Pairs(x + y, a, b) == Pairs(x, a, b) + Pairs(y, a, b)
  {
    if y == [] {
      assert x + y == x;
    } else {
      assert (x + y)[..|x + y| - 1] == x + y[..|y| - 1];
      PairsJoin(x, y[..|y| - 1], a, b);
    }
  }

  lemma PairsRemove(l: seq<Route>, i: nat, a: Id, b: Id)
    requires i < |l|
    ensures Pairs(l, a, b) == Pairs(Remove(l, i), a, b) + if l[i].src == a && l[i].dst == b then 1 else 0
  {
    PairsJoin(l[..i] + [l[i]], l[i + 1..], a, b);
    PairsJoin(l[..i], l[i + 1..], a, b);
    assert l[..i] + [l[i]] + l[i + 1..] == l && (l[..i] + [l[i]])[..i] == l[..i];
  }

  lemma {:induction false} PairsNone(l: seq<Route>, a: Id, b: Id)
    ensures Pairs(l, a, b) == 0 <==> forall i :: 0 <= i < |l| ==> !(l[i].src == a && l[i].dst == b)
  {
    if l != [] {
      PairsNone(l[..|l| - 1], a, b);
      assert forall i :: 0 <= i < |l| - 1 ==> l[..|l| - 1][i] == l[i];
    }
  }

  lemma {:induction false} DropToPairs(s: Fab, h: Id, i: nat, a: Id, b: Id)
    requires i <= |s.installed|
    ensures b != h ==> Pairs(DropTo(s, h, i).installed, a, b) == Pairs(s.installed, a, b)
    decreases |s.installed| - i
  {
    if i < |s.installed| {
      if s.installed[i].dst == h {
        PairsRemove(s.installed, i, a, b);
        var s1 := Uninstall(s, i);
        assert s1.installed == Remove(s.installed, i);
        assert |s1.installed| == |s.installed| - 1;
        hide Uninstall, Pairs, Remove;
        DropToPairs(s1, h, i, a, b);
      } else {
        DropToPairs(s, h, i + 1, a, b);
      }
    }
  }

  lemma DropPairPairs(s: Fab, h: Id, x: Id, b: Id)
    ensures Pairs(DropPair(s, h, x).installed, h, b) == Pairs(s.installed, h, b) - if b == x && Pairs(s.installed, h, b) > 0 then 1 else 0
  {
    var l := s.installed;
    var k := Find(l, (r: Route) => r.src == h && r.dst == x, 0);
    PairsNone(l, h, x);
    if k < |l| {
      PairsRemove(l, k, h, b);
      assert Uninstall(s, k).installed == Remove(l, k);
      hide Uninstall, Pairs, Remove;
    }
    hide Pairs;
  }

  /** `b` is one of the hosts from whose list a route of `h` is taken. */
  predicate Visited(s: Fab, h: Id, i: nat, b: Id)
    requires i <= |s.members|
  {
    b != h && b in s.members[i..] && Net(s, b) == Net(s, h)
  }

  lemma VisitedStep(s: Fab, s1: Fab, h: Id, i: nat, b: Id)
    requires Table(s) && i < |s.members| && SameHosts(s, s1)
    ensures var x := s.members[i];
            && (Visited(s, h, i, b) <==> Visited(s1, h, i + 1, b) || (b == x && x != h && Net(s, x) == Net(s, h)))
            && (b == x ==> !Visited(s1, h, i + 1, b))
  {
    assert s.members[i..] == [s.members[i]] + s.members[i + 1..];
  }

  lemma {:induction false} DropFromPairs(s: Fab, h: Id, i: nat, b: Id)
    requires Table(s) && i <= |s.members|
    ensures Pairs(DropFrom(s, h, i).installed, h, b) ==
            Pairs(s.installed, h, b) - if Visited(s, h, i, b) && Pairs(s.installed, h, b) > 0 then 1 else 0
    decreases |s.members| - i
  {
    hide DropPair, Pairs, Visited, Table, Net;
    if i < |s.members| {
      var x := s.members[i];
      var s1 := if x == h || Net(s, x) != Net(s, h) then s else DropPair(s, h, x);
      DropTurn(s, s1, h, i, b);
      DropFromPairs(s1, h, i + 1, b);
    } else {
      NoneVisited(s, h, i, b);
    }
  }

  lemma NoneVisited(s: Fab, h: Id, i: nat, b: Id)
    requires i == |s.members|
    ensures !Visited(s, h, i, b)
  {
  }

  /** One turn takes a route to `b` if it is at `b`, and otherwise none. */
  lemma DropTurn(s: Fab, s1: Fab, h: Id, i: nat, b: Id)
    requires Table(s) && i < |s.members|
    requires s1 == if s.members[i] == h || Net(s, s.members[i]) != Net(s, h) then s else DropPair(s, h, s.members[i])
    ensures Table(s1) && s1.members == s.members
    ensures var n := Pairs(s.installed, h, b);
            Pairs(s1.installed, h, b) == n - if Visited(s, h, i, b) && !Visited(s1, h, i + 1, b) && n > 0 then 1 else 0
    ensures Visited(s1, h, i + 1, b) ==> Visited(s, h, i, b)
  {
    hide Pairs, Visited;
    SameTable(s, h, s.members[i]);
    DropPairPairs(s, h, s.members[i], b);
    VisitedStep(s, s1, h, i, b);
    hide DropPair, Table, Net;
  }

  lemma SameTable(s: Fab, h: Id, x: Id)
    requires Table(s)
    ensures SameHosts(s, DropPair(s, h, x)) && Table(DropPair(s, h, x))
  {
    assert SameHosts(s, DropPair(s, h, x));
  }

  /** At most one route leads from `h` to each other host of its network, and none elsewhere but to `h`. */
  ghost predicate OneEach(s: Fab, h: Id) {
    forall b :: b != h ==> Pairs(s.installed, h, b) <= if b in s.members && Net(s, b) == Net(s, h) then 1 else 0
  }

  lemma DropRoutesPairs(s: Fab, h: Id, b: Id)
    requires Table(s)
    ensures var n := Pairs(s.installed, h, b);
            Pairs(DropRoutes(s, h).installed, h, b) ==
            if b == h then 0 else if b in s.members && Net(s, b) == Net(s, h) && n > 0 then n - 1 else n
  {
    var s1 := DropTo(s, h, 0);
    assert SameHosts(s, s1) && s1.members[0..] == s1.members;
    DropToPairs(s, h, 0, h, b);
    assert Table(s1);
    DropFromPairs(s1, h, 0, b);
    DropRoutesIs(s, h);
    PairsNone(DropRoutes(s, h).installed, h, b);
    hide DropTo, DropFrom, Pairs, Table, Spared, NoMore;
  }

  /** Deleting a host's routes leaves none from it if and only if there was at most one to each host it is taken from. */
  lemma NoneFromIff(s: Fab, h: Id)
    requires Table(s)
    ensures (forall i :: 0 <= i < |DropRoutes(s, h).installed| ==> DropRoutes(s, h).installed[i].src != h) <==> OneEach(s, h)
  {
    var l := DropRoutes(s, h).installed;
    hide DropRoutes, Pairs, Table;
    if OneEach(s, h) {
      forall i | 0 <= i < |l| ensures l[i].src != h {
        if l[i].src == h {
          DropRoutesPairs(s, h, l[i].dst);
          PairsNone(l, h, l[i].dst);
        }
      }
    }
    if forall i :: 0 <= i < |l| ==> l[i].src != h {
      forall b | b != h ensures Pairs(s.installed, h, b) <= if b in s.members && Net(s, b) == Net(s, h) then 1 else 0 {
        DropRoutesPairs(s, h, b);
        PairsNone(l, h, b);
      }
    }
  }

  // ---------- Every installed route leads to a host in the table ----------

  ghost predicate Homed(s: Fab) {
    forall r :: r in s.installed ==> r.dst in s.members
  }

  lemma AddRouteHomed(s: Fab, svc: Service, src: Id, dst: Id, now: int)
    requires Homed(s)
    ensures Homed(AddRoute(s, svc, src, dst, now))
  {
  }

  lemma {:induction false} AddFromHomed(s: Fab, svc: Service, h: Id, pair: bool, now: int, i: nat)
    requires i <= |s.members| && Homed(s)
    ensures Homed(AddFrom(s, svc, h, pair, now, i))
    decreases |s.members| - i
  {
    if i < |s.members| {
      var x := s.members[i];
      var s1 := AddRoute(s, svc, x, h, now);
      AddRouteHomed(s, svc, x, h, now);
      AddRouteHomed(s1, svc, h, x, now);
      assert Homed(AddPair(s, svc, x, h, pair, now)) by { hide AddRoute, Homed; }
      hide AddPair, Homed;
      AddFromHomed(if Net(s, x) != Net(s, h) then s else AddPair(s, svc, x, h, pair, now), svc, h, pair, now, i + 1);
    }
  }

  lemma {:induction false} AddAllHomed(s: Fab, svc: Service, order: seq<Id>, now: int, i: nat)
    requires i <= |order| && Homed(s)
    ensures Homed(AddAll(s, svc, order, now, i))
    decreases |order| - i
  {
    if i < |order| {
      AddFromHomed(s, svc, order[i], false, now, 0);
      hide AddFrom, Homed;
      AddAllHomed(AddFrom(s, svc, order[i], false, now, 0), svc, order, now, i + 1);
    }
  }

  lemma DeleteHomed(s: Fab, key: int, deactivate: bool, knownSwitch: bool)
    requires Homed(s)
    ensures Homed(DeleteHost(s, key, deactivate, knownSwitch))
  {
    var k := FindKey(s, key, 0);
    if k < |s.members| {
      var h := s.members[k];
      DeleteIs(s, key, deactivate, knownSwitch, k);
      DropRoutesIs(s, h);
      var s0 := DropRoutes(s, h);
      ForgetInstalled(s0, h);
      var r := DeleteHost(s, key, deactivate, knownSwitch);
      hide DeleteHost, DropRoutes, ForgetPending, FindKey, Spared;
      forall x | x in r.installed ensures x.dst in r.members {
        assert x in s.installed && x.dst != h;
        StillThere(s.members, k, x.dst);
      }
    }
  }

  lemma ForgetInstalled(s: Fab, h: Id)
    ensures ForgetPending(s, h).installed == s.installed
  {
  }

  lemma StillThere(l: seq<Id>, k: nat, a: Id)
    requires k < |l| && a in l && a != l[k]
    ensures a in Remove(l, k)
  {
    assert l == l[..k] + [l[k]] + l[k + 1..];
  }

  lemma RerouteHomed(s: Fab, svc: Service, d: Id, alias: int, port: int, now: int)
    requires Homed(s)
    ensures Homed(Reroute(s, svc, d, alias, port, now))
  {
    var k := Find(s.installed, (r: Route) => r.dst == d && Uses(r, alias, port), 0);
    if k < |s.installed| {
      var s1 := s.(installed := Remove(s.installed, k));
      assert Homed(s1);
      AddRouteHomed(s1, svc, s.installed[k].src, s.installed[k].dst, now);
      hide AddRoute, Remove, Uses, Find;
    }
  }

  lemma RetryOneHomed(s: Fab, svc: Service, i: nat, now: int)
    requires i < |s.pending| && Homed(s)
    ensures Homed(RetryOne(s, svc, i, now).0)
  {
    hide Remove;
  }

  lemma {:induction false} RetryHomed(s: Fab, svc: Service, all: bool, now: int, i: nat)
    requires i <= |s.pending| && Homed(s)
    ensures Homed(Retry(s, svc, all, now, i))
    decreases |s.pending|, |s.pending| - i
  {
    if i < |s.pending| {
      if !(all || now > s.pending[i].expiry) {
        RetryHomed(s, svc, all, now, i + 1);
      } else {
        RetryOneHomed(s, svc, i, now);
        var (s1, left) := RetryOne(s, svc, i, now);
        assert |s1.pending| == |s.pending| - if left then 1 else 0;
        hide RetryOne, Homed;
        RetryHomed(s1, svc, all, now, if left then 0 else i + 1);
      }
    }
  }

  lemma {:induction false} DropAllIs(s: Fab, order: seq<Id>, i: nat)
    requires i <= |order|
    ensures var r := DropAll(s, order, i);
            NoMore(s, r) && forall x, j :: x in r.installed && i <= j < |order| ==> x.dst != order[j]
    decreases |order| - i
  {
    if i < |order| {
      DropRoutesIs(s, order[i]);
      var s1 := DropRoutes(s, order[i]);
      hide DropRoutes, Spared;
      DropAllIs(s1, order, i + 1);
    }
  }

  /** A reset over all hosts of the table leaves no route installed. */
  lemma ResetIs(s: Fab, order: seq<Id>)
    requires Homed(s) && forall h :: h in s.members ==> h in order
    ensures Reset(s, order).installed == []
  {
    DropAllIs(s.(recalc := true), order, 0);
    var r := Reset(s, order);
    hide DropAll;
    assert forall x :: x in r.installed ==> x.dst in order;
    NoneLeft(r.installed, order);
  }

  lemma NoneLeft(l: seq<Route>, order: seq<Id>)
    requires forall x :: x in l ==> x.dst in order
    requires forall x, j :: x in l && 0 <= j < |order| ==> x.dst != order[j]
    ensures l == []
  {
    if l != [] {
      HasFirst(l);
      assert false;
    }
  }

  lemma HasFirst(l: seq<Route>)
    requires l != []
    ensures exists x :: x in l
  {
    assert l[0] in l;
  }

  lemma StepHomed(s: Fab, svc: Service, e: Event)
    requires Homed(s) && Enabled(s, e)
    ensures Homed(Step(s, svc, e))
  {
    match e
    case Add(h, host, validPort, now) =>
      var s0 := TakePort(s, h, host);
      assert Homed(s0);
      AddFromHomed(s0, svc, h, true, now, 0);
      var s1 := Arrive(s, svc, h, host, now);
      assert Homed(s1) by { hide AddFrom, Homed; }
      hide Arrive, DeleteHost, FindKey, TakePort;
      if host.port in s.ports {
        DeleteHomed(s1, KeyOf(s, s.ports[host.port]), false, true);
      }
    case Delete(key, knownSwitch) => DeleteHomed(s, key, false, knownSwitch);
    case PortGone(port) =>
      if port in s.ports {
        DeleteHomed(s, KeyOf(s, s.ports[port]), true, true);
      }
      hide DeleteHost;
    case RerouteOne(d, alias, lost, now) => RerouteHomed(s, svc, d, alias, lost, now);
    case ResetAll(order) => ResetIs(s, order);
    case RecalcAll(order, now) =>
      assert Homed(s.(recalc := false));
      AddAllHomed(s.(recalc := false), svc, order, now, 0);
    case RetryPass(all, now) => RetryHomed(s, svc, all, now, 0);
  }

  /** In every reachable state each installed route leads to a host in the table. */
  lemma {:induction false} RunHomed(s: Fab, svc: Service, evs: seq<Event>, r: Fab)
    requires Homed(s) && Run(s, svc, evs, r)
    ensures Homed(r)
    decreases |evs|
  {
    if evs != [] {
      StepHomed(s, svc, evs[0]);
      hide Step, Enabled, Homed;
      RunHomed(Step(s, svc, evs[0]), svc, evs[1..], r);
    }
  }

  // ---------- A lost port ----------

  /** `n` turns of the loop over the routes to `d` that use the lost port. */
  function Turns(s: Fab, svc: Service, d: Id, alias: int, port: int, now: int, n: nat): (r: Fab)
    ensures SameHosts(s, r)
    decreases n
  {
    if n == 0 then s else Turns(Reroute(s, svc, d, alias, port, now), svc, d, alias, port, now, n - 1)
  }

  /** The loop's test finds no route. */
  predicate Done(s: Fab, d: Id, alias: int, port: int) {
    Find(s.installed, (r: Route) => r.dst == d && Uses(r, alias, port), 0) == |s.installed|
  }

  /** No hop before the last leaves the switch by the port. */
  predicate Avoids(r: Route, alias: int, port: int) {
    forall i :: 0 <= i < |r.path| ==> r.path[i].last || r.path[i].alias != alias || r.path[i].port != port
  }

  ghost predicate Clear(s: Fab, d: Id, alias: int, port: int) {
    forall r :: r in s.installed && r.dst == d ==> Avoids(r, alias, port)
  }

  lemma AvoidsIs(r: Route, alias: int, port: int)
    ensures Avoids(r, alias, port) <==> !Uses(r, alias, port)
  {
  }

  lemma DoneIsClear(s: Fab, d: Id, alias: int, port: int)
    ensures Done(s, d, alias, port) <==> Clear(s, d, alias, port)
  {
    hide Uses, Avoids;
    var k := Find(s.installed, (r: Route) => r.dst == d && Uses(r, alias, port), 0);
    if k < |s.installed| {
      assert s.installed[k] in s.installed;
      AvoidsIs(s.installed[k], alias, port);
    } else {
      forall r | r in s.installed && r.dst == d ensures Avoids(r, alias, port) {
        AvoidsIs(r, alias, port);
      }
    }
  }

  /**
   One turn over a lost port: the first route to `d` that uses it goes. If its ends are on one switch it is made
   pending; otherwise, if they are live, it is asked for again and installed with the answer, or made pending.
   */
  ghost predicate Replaced(s: Fab, r: Fab, svc: Service, d: Id, alias: int, port: int, now: int, k: nat) {
    && k < |s.installed| && s.installed[k].dst == d && !Avoids(s.installed[k], alias, port)
    && (forall j :: 0 <= j < k && s.installed[j].dst == d ==> Avoids(s.installed[j], alias, port))
    && var (x, l, waits) := (s.installed[k], s.installed[..k] + s.installed[k + 1..], s.pending + [Route(s.installed[k].src, d, [], now + 1)]);
    if x.src in s.info && d in s.info && s.info[x.src].port.0 == s.info[d].port.0 then
      r.installed == l && r.pending == waits && r.queries == s.queries
    else if x.src == d || x.src !in s.members || d !in s.members then
      r.installed == l && r.pending == s.pending && r.queries == s.queries
    else if svc(s.queries).Path? then
      r.installed == l + [Route(x.src, d, svc(s.queries).hops, 0)] && r.pending == s.pending && r.queries == s.queries + 1
    else
      r.installed == l && r.pending == waits && r.queries == s.queries + 1
  }

  lemma RerouteReplaces(s: Fab, svc: Service, d: Id, alias: int, port: int, now: int)
    ensures Clear(s, d, alias, port) ==> Reroute(s, svc, d, alias, port, now) == s
    ensures !Clear(s, d, alias, port) ==> exists k: nat :: Replaced(s, Reroute(s, svc, d, alias, port, now), svc, d, alias, port, now, k)
  {
    DoneIsClear(s, d, alias, port);
    var k := Find(s.installed, (r: Route) => r.dst == d && Uses(r, alias, port), 0);
    forall r ensures Avoids(r, alias, port) <==> !Uses(r, alias, port) {
      AvoidsIs(r, alias, port);
    }
    hide Uses, Avoids, Clear, Find;
    if k < |s.installed| {
      var r := s.installed[k];
      var s1 := s.(installed := Remove(s.installed, k));
      AskedAgain(s1, svc, r.src, d, now);
      var s2 := AddRoute(s1, svc, r.src, d, now);
      assert SameRoutes(s2, Zap(s2, r));
      hide AddRoute, Zap;
      assert Replaced(s, Reroute(s, svc, d, alias, port, now), svc, d, alias, port, now, k);
    }
  }

  lemma AskedAgain(s: Fab, svc: Service, src: Id, dst: Id, now: int)
    ensures var r := AddRoute(s, svc, src, dst, now);
            if src == dst || src !in s.members || dst !in s.members then r == s
            else if svc(s.queries).Path? then
              r.installed == s.installed + [Route(src, dst, svc(s.queries).hops, 0)] && r.pending == s.pending && r.queries == s.queries + 1
            else r.installed == s.installed && r.pending == s.pending + [Route(src, dst, [], now + 1)] && r.queries == s.queries + 1
  {
  }

  /** A turn touches no route to another host, keeps coverage and keeps every route's destination in the table. */
  lemma RerouteIs(s: Fab, svc: Service, d: Id, alias: int, port: int, now: int)
    requires Sound(s) && Homed(s)
    ensures var r := Reroute(s, svc, d, alias, port, now);
            Sound(r) && Homed(r) && Without(r.installed, d, false) == Without(s.installed, d, false)
  {
    StepSound(s, svc, RerouteOne(d, alias, port, now));
    RerouteHomed(s, svc, d, alias, port, now);
    var k := Find(s.installed, (r: Route) => r.dst == d && Uses(r, alias, port), 0);
    hide Sound, Homed, Uses, Without;
    if k < |s.installed| {
      WithoutRemoved(s.installed, k, d, false);
      var s1 := s.(installed := Remove(s.installed, k));
      AddRouteElsewhere(s1, svc, s.installed[k].src, d, now);
      hide AddRoute, Find, Remove;
    }
  }

  lemma AddRouteElsewhere(s: Fab, svc: Service, src: Id, d: Id, now: int)
    ensures Without(AddRoute(s, svc, src, d, now).installed, d, false) == Without(s.installed, d, false)
  {
    match svc(s.queries)
    case Path(hops) =>
      var r := Route(src, d, hops, 0);
      WithoutOne(r, d, false);
      WithoutJoin(s.installed, [r], d, false);
      hide Without;
    case NoPath =>
      hide Without;
  }

  lemma {:induction false} TurnsAre(s: Fab, svc: Service, d: Id, alias: int, port: int, now: int, n: nat)
    requires Sound(s) && Homed(s)
    ensures var r := Turns(s, svc, d, alias, port, now, n);
            Sound(r) && Homed(r) && Without(r.installed, d, false) == Without(s.installed, d, false)
    decreases n
  {
    if n > 0 {
      RerouteIs(s, svc, d, alias, port, now);
      hide Reroute, Sound, Homed, Without;
      TurnsAre(Reroute(s, svc, d, alias, port, now), svc, d, alias, port, now, n - 1);
    }
  }

  /**
   If the loop for `d` ends, after however many turns, no route to `d` uses the port, the routes to other
   hosts are as they were, and every pair is still covered.
   */
  lemma PortLoopEnds(s: Fab, svc: Service, d: Id, alias: int, port: int, now: int, n: nat)
    requires Sound(s) && Homed(s) && Done(Turns(s, svc, d, alias, port, now, n), d, alias, port)
    ensures var r := Turns(s, svc, d, alias, port, now, n);
            && Clear(r, d, alias, port) && Sound(r) && Homed(r)
            && Without(r.installed, d, false) == Without(s.installed, d, false)
  {
    TurnsAre(s, svc, d, alias, port, now, n);
    DoneIsClear(Turns(s, svc, d, alias, port, now, n), d, alias, port);
  }

  /** The walk over all hosts, `turns[i]` turns for the `i`-th, from position `i` on. */
  function Walk(s: Fab, svc: Service, order: seq<Id>, turns: seq<nat>, alias: int, port: int, now: int, i: nat): (r: Fab)
    requires i <= |order| == |turns|
    ensures SameHosts(s, r)
    decreases |order| - i
  {
    if i == |order| then s
    else Walk(Turns(s, svc, order[i], alias, port, now, turns[i]), svc, order, turns, alias, port, now, i + 1)
  }

  /** Each host's loop ends after its turns. */
  predicate Ends(s: Fab, svc: Service, order: seq<Id>, turns: seq<nat>, alias: int, port: int, now: int, i: nat)
    requires i <= |order| == |turns|
    decreases |order| - i
  {
    i < |order| ==>
      var s1 := Turns(s, svc, order[i], alias, port, now, turns[i]);
      Done(s1, order[i], alias, port) && Ends(s1, svc, order, turns, alias, port, now, i + 1)
  }

  /** Clearing the routes to one host leaves those to another clear. */
  lemma ClearStays(s: Fab, r: Fab, d: Id, h: Id, alias: int, port: int)
    requires Clear(s, h, alias, port) && Without(r.installed, d, false) == Without(s.installed, d, false) && Clear(r, d, alias, port)
    ensures Clear(r, h, alias, port)
  {
    hide Avoids, Without;
    forall x | x in r.installed && x.dst == h ensures Avoids(x, alias, port) {
      if h != d {
        WithoutHas(r.installed, d, false, x);
        WithoutHas(s.installed, d, false, x);
      }
    }
  }

  lemma {:induction false} WalkIs(s: Fab, svc: Service, order: seq<Id>, turns: seq<nat>, alias: int, port: int, now: int, i: nat)
    requires i <= |order| == |turns| && Sound(s) && Homed(s) && Ends(s, svc, order, turns, alias, port, now, i)
    requires forall j :: 0 <= j < i ==> Clear(s, order[j], alias, port)
    ensures var r := Walk(s, svc, order, turns, alias, port, now, i);
            Sound(r) && Homed(r) && forall j :: 0 <= j < |order| ==> Clear(r, order[j], alias, port)
    decreases |order| - i
  {
    if i < |order| {
      var s1 := Turns(s, svc, order[i], alias, port, now, turns[i]);
      PortLoopEnds(s, svc, order[i], alias, port, now, turns[i]);
      hide Turns, Sound, Homed, Clear, Without, Done;
      forall j | 0 <= j < i + 1 ensures Clear(s1, order[j], alias, port) {
        if j < i {
          ClearStays(s, s1, order[i], order[j], alias, port);
        }
      }
      assert Ends(s1, svc, order, turns, alias, port, now, i + 1);
      assert Walk(s, svc, order, turns, alias, port, now, i) == Walk(s1, svc, order, turns, alias, port, now, i + 1);
      hide Ends, Walk;
      WalkIs(s1, svc, order, turns, alias, port, now, i + 1);
    }
  }

  /** When the walk over all hosts ends, no installed route uses the port, and every pair is still covered. */
  lemma LostPortIsLeft(s: Fab, svc: Service, order: seq<Id>, turns: seq<nat>, alias: int, port: int, now: int)
    requires Sound(s) && Homed(s) && |order| == |turns| && Ends(s, svc, order, turns, alias, port, now, 0)
    requires forall h :: h in s.members ==> h in order
    ensures var r := Walk(s, svc, order, turns, alias, port, now, 0);
            Sound(r) && Homed(r) && SameHosts(s, r) && forall x :: x in r.installed ==> Avoids(x, alias, port)
  {
    WalkIs(s, svc, order, turns, alias, port, now, 0);
    var r := Walk(s, svc, order, turns, alias, port, now, 0);
    assert SameHosts(s, r);
    hide Walk, Avoids, Sound, Ends;
    forall x | x in r.installed ensures Avoids(x, alias, port) {
      assert x.dst in order;
      var j :| 0 <= j < |order| && order[j] == x.dst;
      assert Clear(r, order[j], alias, port);
    }
  }
}
