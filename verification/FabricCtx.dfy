/** The fabric context: its lists and counters changed in place, by the loops the app runs over them. */
module FabricCtx {
  import opened Sequences
  import opened Fabric
  import opened FabricCover
  import opened FabricRefs
  import opened FabricRoutes
  import opened FabricHosts
  import opened FabricPaths
  import opened FabricOnce

  // ---------- What an update leaves alone, or right ----------

  /** No covered pair is lost. */
  ghost predicate KeepsCover(s: Fab, r: Fab) {
    forall a, b :: Covers(s, a, b) ==> Covers(r, a, b)
  }

  /** Counters that were right, up to references still to be given back, are right. */
  ghost predicate KeepsCounts(s: Fab, r: Fab) {
    forall g, d: nat :: RefAt(s, g, d) ==> RefAt(r, g, d)
  }

  /** One reference to `h` that was still to be given back has been. */
  ghost predicate GaveBack(s: Fab, r: Fab, h: Id) {
    forall g, d: nat :: RefAt(s, g, d + One(g == h)) ==> RefAt(r, g, d)
  }

  /** Coverage, exact counters, ports that point to their hosts, routes that lead to hosts in the table, and unique keys. */
  ghost predicate Good(s: Fab) {
    RefInv(s) && Homed(s) && Keyed(s)
  }

  lemma PutGivesBack(s: Fab, h: Id)
    ensures GaveBack(s, Put(s, h), h)
  {
    hide RefAt, Put;
    forall g, d: nat | RefAt(s, g, d + One(g == h)) ensures RefAt(Put(s, h), g, d) {
      PutRef(s, h, g, d);
    }
  }

  lemma MakeRouteIs(s: Fab, svc: Service, src: Id, dst: Id, now: int)
    ensures var r := AddRoute(s, svc, src, dst, now);
            && KeepsCover(s, r) && (Table(s) ==> KeepsCounts(s, r))
            && (src != dst && src in s.members && dst in s.members ==> Covers(r, src, dst))
  {
    hide AddRoute, Covers, RefAt, Table;
    var r := AddRoute(s, svc, src, dst, now);
    AddRouteCovers(s, svc, src, dst, now, src, dst);
    forall a, b | Covers(s, a, b) ensures Covers(r, a, b) {
      AddRouteCovers(s, svc, src, dst, now, a, b);
    }
    if Table(s) {
      forall g, d: nat | RefAt(s, g, d) ensures RefAt(r, g, d) {
        AddRouteRef(s, svc, src, dst, now, g, d);
      }
    }
  }

  /** One route is new for every pair that was due, and none for any other. */
  ghost predicate OneEachDue(s: Fab, r: Fab, h: Id, pair: bool) {
    forall a, b :: Total(r, a, b) == Total(s, a, b) + if Due(s, h, pair, 0, a, b) then 1 else 0
  }

  lemma RoutesToFromOnce(s: Fab, svc: Service, h: Id, pair: bool, now: int)
    ensures Table(s) && h in s.members ==> OneEachDue(s, AddFrom(s, svc, h, pair, now, 0), h, pair)
  {
    hide AddFrom, Total, Table, Due;
    var r := AddFrom(s, svc, h, pair, now, 0);
    if Table(s) && h in s.members {
      forall a, b ensures Total(r, a, b) == Total(s, a, b) + if Due(s, h, pair, 0, a, b) then 1 else 0 {
        AddFromTotal(s, svc, h, pair, now, 0, a, b);
      }
    }
  }

  lemma RoutesToFromIs(s: Fab, svc: Service, h: Id, pair: bool, now: int)
    ensures var r := AddFrom(s, svc, h, pair, now, 0);
            && (Table(s) ==> KeepsCounts(s, r))
            && (h in s.members ==> KeepsCover(s, r) && forall a, b :: Due(s, h, pair, 0, a, b) ==> Covers(r, a, b))
  {
    hide AddFrom, Covers, RefAt, Table, Due;
    var r := AddFrom(s, svc, h, pair, now, 0);
    if h in s.members {
      forall a, b ensures Covers(s, a, b) || Due(s, h, pair, 0, a, b) ==> Covers(r, a, b) {
        AddFromCovers(s, svc, h, pair, now, 0, a, b);
      }
    }
    if Table(s) {
      forall g, d: nat | RefAt(s, g, d) ensures RefAt(r, g, d) {
        AddFromRef(s, svc, h, pair, now, 0, g, d);
      }
    }
  }

  lemma DropRoutesCounts(s: Fab, h: Id)
    ensures KeepsCounts(s, DropRoutes(s, h))
  {
    hide DropRoutes, RefAt;
    forall g, d: nat | RefAt(s, g, d) ensures RefAt(DropRoutes(s, h), g, d) {
      DropRoutesRef(s, h, g, d);
    }
  }

  /** Which references are forgotten with the pending routes of `h`, and which pairs are not touched. */
  ghost predicate ForgotOnly(s: Fab, r: Fab, h: Id) {
    && (forall g :: s.kept[g] <= r.kept[g] && (s.kept[g] < r.kept[g] <==> Forgotten(s.pending, h, g)))
    && (forall a, b :: a != h && b != h && Covers(s, a, b) ==> Covers(r, a, b))
  }

  lemma ForgetPendingIs(s: Fab, h: Id)
    ensures ForgotOnly(s, ForgetPending(s, h), h) && KeepsCounts(s, ForgetPending(s, h))
  {
    hide ForgetPending, RefAt, Covers, Forgotten;
    var r := ForgetPending(s, h);
    forall g ensures s.kept[g] <= r.kept[g] && (s.kept[g] < r.kept[g] <==> Forgotten(s.pending, h, g)) {
      ForgetPendingKept(s, h, g);
    }
    forall a, b | a != h && b != h && Covers(s, a, b) ensures Covers(r, a, b) {
      ForgetPendingCovers(s, h, a, b);
    }
    forall g, d: nat | RefAt(s, g, d) ensures RefAt(r, g, d) {
      ForgetPendingRef(s, h, g, d);
    }
  }

  lemma StepGood(s: Fab, svc: Service, e: Event)
    requires Good(s) && Enabled(s, e)
    ensures Good(Step(s, svc, e))
  {
    StepKeepsRefInv(s, svc, e);
    StepHomed(s, svc, e);
    StepKeyed(s, svc, e);
    hide Step;
  }

  lemma DeleteGood(s: Fab, key: int, deactivate: bool, knownSwitch: bool)
    requires Good(s)
    ensures Good(DeleteHost(s, key, deactivate, knownSwitch))
  {
    DeleteSound(s, key, deactivate, knownSwitch);
    DeletePorts(s, key, deactivate, knownSwitch);
    DeleteHomed(s, key, deactivate, knownSwitch);
    DeleteKeyed(s, key, deactivate, knownSwitch);
    assert Table(s);
    var r := DeleteHost(s, key, deactivate, knownSwitch);
    hide DeleteHost, Sound, PortsOk, RefAt, Table;
    forall g ensures RefAt(r, g, 0) {
      assert RefAt(s, g, 0);
      DeleteRef(s, key, deactivate, knownSwitch, g, 0);
    }
  }

  /** The host with that key, if any, is out of the table, no route leads to it, and every other host is still there. */
  ghost predicate HostGone(s: Fab, r: Fab, key: int) {
    var k := FindKey(s, key, 0);
    if k == |s.members| then r == s
    else
      && (forall h :: h in r.members <==> h in s.members && h != s.members[k])
      && (forall x :: x in r.installed ==> x in s.installed && x.dst != s.members[k])
      && (forall g :: s.kept[g] <= r.kept[g] && (s.kept[g] < r.kept[g] <==> Forgotten(s.pending, s.members[k], g)))
  }

  lemma DeleteHostIs(s: Fab, key: int, deactivate: bool, knownSwitch: bool)
    requires Table(s)
    ensures HostGone(s, DeleteHost(s, key, deactivate, knownSwitch), key)
  {
    var k := FindKey(s, key, 0);
    var r := DeleteHost(s, key, deactivate, knownSwitch);
    if k < |s.members| {
      var h := s.members[k];
      DeleteIs(s, key, deactivate, knownSwitch, k);
      RemoveMember(s.members, k);
      DropRoutesIs(s, h);
      ForgetInstalled(DropRoutes(s, h), h);
      hide DeleteHost, DropRoutes, ForgetPending, Remove, Spared, Forgotten;
      forall g ensures s.kept[g] <= r.kept[g] && (s.kept[g] < r.kept[g] <==> Forgotten(s.pending, h, g)) {
        DeleteLeaksIff(s, key, deactivate, knownSwitch, g);
      }
      hide FindKey;
    }
  }

  lemma NoneSettled(s: Fab, svc: Service, all: bool, now: int)
    ensures AllSettled(s, svc, s.queries, all, now, 0)
  {
  }

  lemma GoodKeys(s: Fab)
    requires Good(s)
    ensures Table(s) && Keyed(s)
  {
  }

  lemma GoodCovers(s: Fab)
    requires Good(s)
    ensures Coverage(s)
  {
  }

  lemma ResetEmpties(s: Fab, order: seq<Id>)
    requires Good(s) && Enabled(s, ResetAll(order))
    ensures Reset(s, order).installed == []
  {
    ResetIs(s, order);
  }

  class Context {
    var info: map<Id, Host>
    var members: seq<Id>
    var installed: seq<Route>
    var pending: seq<Route>
    var recalc: bool
    var ports: map<Port, Id>
    var refs: map<Id, int>
    ghost var freed: set<Id>
    ghost var kept: multiset<Id>
    var queries: nat

    constructor ()
      ensures State() == EMPTY && Good(State())
    {
      info, members, installed, pending, recalc := map[], [], [], [], false;
      ports, refs, freed, kept, queries := map[], map[], {}, multiset{}, 0;
    }

    ghost function State(): Fab
      reads this
    {
      Fab(info, members, installed, pending, recalc, ports, refs, freed, kept, queries)
    }

    method GetHost(h: Id)
      modifies this`refs
      ensures State() == Get(old(State()), h)
    {
      refs := refs[h := (if h in refs then refs[h] else 0) + 1];
    }

    /** Gives one reference back: a counter that was one too high is right, and the record is freed if none is left. */
    method PutHost(h: Id)
      modifies this`refs, this`freed
      ensures State() == Put(old(State()), h)
      ensures GaveBack(old(State()), State(), h)
    {
      PutGivesBack(State(), h);
      hide GaveBack;
      var n := if h in refs then refs[h] else 0;
      if n == 0 {
        freed := freed + {h};
      } else {
        refs := refs[h := n - 1];
      }
    }

    method ZapRoute(r: Route)
      modifies this`refs, this`freed
      ensures State() == Zap(old(State()), r)
    {
      hide Put, GaveBack;
      PutHost(r.src);
      PutHost(r.dst);
    }

    /**
     If both hosts are live the pair is covered afterwards, by a route installed with the path the service
     answers or by a pending one; no other pair and no counter is worse off.
     */
    method MakeRoute(svc: Service, src: Id, dst: Id, now: int)
      modifies this`refs, this`queries, this`installed, this`pending
      ensures State() == AddRoute(old(State()), svc, src, dst, now)
      ensures KeepsCover(old(State()), State()) && (Table(old(State())) ==> KeepsCounts(old(State()), State()))
      ensures if src == dst || src !in members || dst !in members then State() == old(State())
              else
                && Covers(State(), src, dst) && queries == old(queries) + 1
                && match svc(old(queries))
                   case Path(hops) => installed == old(installed) + [Route(src, dst, hops, 0)] && pending == old(pending)
                   case NoPath => installed == old(installed) && pending == old(pending) + [Route(src, dst, [], now + 1)]
    {
      hide KeepsCover, KeepsCounts, Table, Covers;
      MakeRouteIs(State(), svc, src, dst, now);
      if src == dst || src !in members || dst !in members {
        return;
      }
      GetHost(src);
      GetHost(dst);
      var answer := svc(queries);
      queries := queries + 1;
      match answer
      case Path(hops) => installed := installed + [Route(src, dst, hops, 0)];
      case NoPath => pending := pending + [Route(src, dst, [], now + RETRY_INIT_TS)];
    }

    /** Afterwards every pair of `h` with a host of its network is covered, towards `h` and, if `pair`, away from it. */
    method RoutesToFrom(svc: Service, h: Id, pair: bool, now: int)
      modifies this`refs, this`queries, this`installed, this`pending
      ensures State() == AddFrom(old(State()), svc, h, pair, now, 0)
      ensures Table(old(State())) ==> KeepsCounts(old(State()), State())
      ensures h in members ==>
                && KeepsCover(old(State()), State())
                && forall a, b :: Due(old(State()), h, pair, 0, a, b) ==> Covers(State(), a, b)
      ensures Table(old(State())) && h in members ==> OneEachDue(old(State()), State(), h, pair)
    {
      RoutesToFromIs(State(), svc, h, pair, now);
      RoutesToFromOnce(State(), svc, h, pair, now);
      hide OneEachDue;
      WalkRoutes(svc, h, pair, now);
      hide AddFrom, KeepsCover, KeepsCounts, Table, Covers, Due;
    }

    method WalkRoutes(svc: Service, h: Id, pair: bool, now: int)
      modifies this`refs, this`queries, this`installed, this`pending
      ensures State() == AddFrom(old(State()), svc, h, pair, now, 0)
    {
      hide AddRoute, KeepsCover, KeepsCounts, Table, Covers;
      for i := 0 to |members|
        invariant AddFrom(State(), svc, h, pair, now, i) == AddFrom(old(State()), svc, h, pair, now, 0)
      {
        var x := members[i];
        var mine := if h in info then info[h].net else -1;
        var its := if x in info then info[x].net else -1;
        if its == mine {
          MakeRoute(svc, x, h, now);
          if pair {
            MakeRoute(svc, h, x, now);
          }
        }
      }
    }

    /** A due recalculation covers every pair of every network again. */
    method AddAllRoutes(svc: Service, order: seq<Id>, now: int)
      modifies this
      ensures State() == Recalc(old(State()), svc, order, now)
      ensures old(Good(State()) && Enabled(State(), RecalcAll(order, now))) ==> Good(State()) && Coverage(State())
      ensures !recalc
    {
      ghost var e := RecalcAll(order, now);
      hide Good, Enabled, Coverage;
      if Good(State()) && Enabled(State(), e) {
        StepGood(State(), svc, e);
        GoodCovers(Step(State(), svc, e));
      }
      RecalcWalk(svc, order, now);
    }

    method RecalcWalk(svc: Service, order: seq<Id>, now: int)
      modifies this
      ensures State() == Recalc(old(State()), svc, order, now) && !recalc
    {
      if !recalc {
        return;
      }
      recalc := false;
      hide AddFrom;
      for i := 0 to |order|
        invariant !recalc && AddAll(State(), svc, order, now, i) == Recalc(old(State()), svc, order, now)
      {
        RoutesToFrom(svc, order[i], false, now);
      }
    }

    method UninstallAt(i: nat)
      requires i < |installed|
      modifies this`installed, this`refs, this`freed
      ensures State() == Uninstall(old(State()), i)
      ensures installed == Remove(old(installed), i)
    {
      hide Put;
      var r := installed[i];
      installed := Remove(installed, i);
      ZapRoute(r);
    }

    method DeleteRoutesTo(h: Id)
      modifies this`installed, this`refs, this`freed
      ensures State() == DropTo(old(State()), h, 0)
    {
      var i := 0;
      while i < |installed|
        invariant i <= |installed|
        invariant DropTo(State(), h, i) == DropTo(old(State()), h, 0)
        decreases |installed| - i
      {
        if installed[i].dst == h {
          hide Uninstall;
          UninstallAt(i);
        } else {
          i := i + 1;
        }
      }
    }

    method FindRoute(l: seq<Route>, fits: Route -> bool) returns (k: nat)
      ensures k == Find(l, fits, 0)
    {
      k := 0;
      while k < |l| && !fits(l[k])
        invariant k <= |l| && Find(l, fits, k) == Find(l, fits, 0)
      {
        k := k + 1;
      }
    }

    method DeletePair(src: Id, dst: Id)
      modifies this`installed, this`refs, this`freed
      ensures State() == DropPair(old(State()), src, dst)
    {
      hide Uninstall;
      var k := FindRoute(installed, (r: Route) => r.src == src && r.dst == dst);
      if k < |installed| {
        UninstallAt(k);
      }
    }

    method DeleteRoutesFrom(h: Id)
      modifies this`installed, this`refs, this`freed
      ensures State() == DropFrom(old(State()), h, 0)
    {
      hide DropPair;
      for i := 0 to |members|
        invariant DropFrom(State(), h, i) == DropFrom(old(State()), h, 0)
      {
        var x := members[i];
        var mine := if h in info then info[h].net else -1;
        var its := if x in info then info[x].net else -1;
        if x != h && its == mine {
          DeletePair(h, x);
        }
      }
    }

    /** Afterwards no route leads to `h`, every route that does not touch `h` is still there, in order, and none is new. */
    method DeleteRoutes(h: Id)
      modifies this`installed, this`refs, this`freed
      ensures State() == DropRoutes(old(State()), h)
      ensures (forall x :: x in installed ==> x.dst != h) && Spared(old(State()), State(), h) && NoMore(old(State()), State())
      ensures KeepsCounts(old(State()), State())
    {
      hide DropTo, DropFrom, Spared, NoMore, KeepsCounts;
      DropRoutesIs(State(), h);
      DropRoutesCounts(State(), h);
      DeleteRoutesTo(h);
      DeleteRoutesFrom(h);
    }

    /** Afterwards no route is installed, and a recalculation is due. */
    method ResetRoutes(order: seq<Id>)
      modifies this
      ensures State() == Reset(old(State()), order)
      ensures recalc && (old(Good(State()) && Enabled(State(), ResetAll(order))) ==> Good(State()) && installed == [])
    {
      hide Good, Enabled;
      if Good(State()) && Enabled(State(), ResetAll(order)) {
        StepGood(State(), q => NoPath, ResetAll(order));
        ResetEmpties(State(), order);
      }
      ResetWalk(order);
    }

    method ResetWalk(order: seq<Id>)
      modifies this
      ensures State() == Reset(old(State()), order) && recalc
    {
      recalc := true;
      hide DropRoutes;
      for i := 0 to |order|
        invariant recalc && DropAll(State(), order, i) == Reset(old(State()), order)
      {
        DeleteRoutes(order[i]);
      }
    }

    method ForgetAt(k: nat)
      requires k <= |pending|
      modifies this`pending, this`kept
      ensures State() == Forget(old(State()), k)
    {
      if k < |pending| {
        kept := kept + multiset{pending[k].src, pending[k].dst};
        pending := Remove(pending, k);
      }
    }

    /** References are forgotten to exactly the ends of the routes taken off, and pairs without `h` stay covered. */
    method DeletePending(h: Id)
      modifies this`pending, this`kept
      ensures State() == ForgetPending(old(State()), h)
      ensures ForgotOnly(old(State()), State(), h) && KeepsCounts(old(State()), State())
    {
      hide ForgotOnly, KeepsCounts;
      ForgetPendingIs(State(), h);
      hide Forget;
      var k := FindRoute(pending, (r: Route) => r.src == h);
      ForgetAt(k);
      k := FindRoute(pending, (r: Route) => r.dst == h);
      ForgetAt(k);
    }

    method LookupKey(key: int) returns (k: nat)
      ensures k == FindKey(State(), key, 0)
    {
      k := 0;
      while k < |members| && !((if members[k] in info then info[members[k]].key else -1) == key)
        invariant k <= |members| && FindKey(State(), key, k) == FindKey(State(), key, 0)
      {
        k := k + 1;
      }
    }

    method LeaveTable(k: nat, unplug: bool)
      requires k < |members|
      modifies this`members, this`ports, this`refs, this`freed
      ensures State() == Leave(old(State()), k, unplug)
    {
      hide Put;
      var h := members[k];
      members := Remove(members, k);
      if unplug && h in info && info[h].port in ports && ports[info[h].port] == h {
        ports := ports - {info[h].port};
        PutHost(h);
      }
      PutHost(h);
    }

    /** The host is gone, and with it every route to it; all that was right about the others still is. */
    method RemoveHost(key: int, deactivate: bool, knownSwitch: bool)
      modifies this
      ensures State() == DeleteHost(old(State()), key, deactivate, knownSwitch)
      ensures old(Good(State())) ==> Good(State())
      ensures Table(old(State())) ==> HostGone(old(State()), State(), key)
      ensures var k := FindKey(old(State()), key, 0);
              ports == if k < |old(members)| && !deactivate && knownSwitch && Plugged(old(State()), old(members)[k])
                       then old(ports) - {old(info)[old(members)[k]].port} else old(ports)
    {
      hide Good, Table, HostGone, FindKey;
      DeletePortsAre(State(), key, deactivate, knownSwitch);
      if Good(State()) {
        DeleteGood(State(), key, deactivate, knownSwitch);
      }
      if Table(State()) {
        DeleteHostIs(State(), key, deactivate, knownSwitch);
      }
      TakeHostOut(key, deactivate, knownSwitch);
    }

    method TakeHostOut(key: int, deactivate: bool, knownSwitch: bool)
      modifies this
      ensures State() == DeleteHost(old(State()), key, deactivate, knownSwitch)
    {
      hide DropRoutes, ForgetPending, Leave, Spared, NoMore, KeepsCounts, ForgotOnly;
      var k := LookupKey(key);
      if k == |members| {
        return;
      }
      var h := members[k];
      DeleteRoutes(h);
      DeletePending(h);
      LeaveTable(k, !deactivate && knownSwitch);
    }

    method Settle(svc: Service, h: Id, host: Host, now: int)
      modifies this
      ensures State() == Arrive(old(State()), svc, h, host, now)
    {
      hide AddFrom, KeepsCover, KeepsCounts, Covers, Table, Due;
      info, members, ports, refs := info[h := host], members + [h], ports[host.port := h], refs[h := 1];
      if !recalc {
        RoutesToFrom(svc, h, true, now);
      }
    }

    /**
     The new record is in the table afterwards if and only if its port is valid, its key unknown and its port free
     or held under another key; then whoever held the port is not. Coverage and counters stay right.
     */
    method EnterHost(svc: Service, h: Id, host: Host, validPort: bool, now: int)
      modifies this
      ensures State() == AddHost(old(State()), svc, h, host, validPort, now)
      ensures old(Good(State())) && h !in old(info) ==>
                && Good(State())
                && (h in members <==> FabricHosts.Joins(old(State()), host, validPort))
                && (h in members ==> h in info && info[h] == host && Plugged(State(), h))
                && forall x :: x != h ==> (x in members <==> x in old(members) && !(FabricHosts.Joins(old(State()), host, validPort) && Displaced(old(State()), host, x)))
    {
      hide Good, FabricHosts.Joins, Displaced;
      if Good(State()) && h !in info {
        StepGood(State(), svc, Add(h, host, validPort, now));
        GoodKeys(State());
        AddHostIs(State(), svc, h, host, validPort, now);
        if FabricHosts.Joins(State(), host, validPort) {
          AddHostPlugs(State(), svc, h, host, validPort, now);
        }
      }
      TakeHostIn(svc, h, host, validPort, now);
    }

    method TakeHostIn(svc: Service, h: Id, host: Host, validPort: bool, now: int)
      modifies this
      ensures State() == AddHost(old(State()), svc, h, host, validPort, now)
    {
      hide Arrive, DeleteHost, Put, Good, Table, HostGone, GaveBack;
      if !validPort {
        return;
      }
      var k := LookupKey(host.key);
      if k < |members| {
        return;
      }
      var taken := host.port in ports;
      var e := if taken then ports[host.port] else 0;
      var key := if e in info then info[e].key else -1;
      Settle(svc, h, host, now);
      if taken {
        RemoveHost(key, false, true);
        PutHost(e);
      }
    }

    /** The port holds no host any more, and the host it held is out of the table; coverage and counters stay right. */
    method DropPort(port: Port)
      modifies this
      ensures State() == PortDown(old(State()), port)
      ensures old(Good(State())) ==> Good(State())
      ensures port !in ports
      ensures old(Good(State())) ==> forall x :: x in members <==>
                x in old(members) && !(port in old(ports) && KeyOf(old(State()), x) == KeyOf(old(State()), old(ports)[port]))
    {
      hide DeleteHost, Put, Good, Table, HostGone, GaveBack;
      if Good(State()) {
        StepGood(State(), q => NoPath, PortGone(port));
        GoodKeys(State());
        ghost var s := State();
        forall x ensures x in PortDown(s, port).members <==> x in s.members && !(port in s.ports && KeyOf(s, x) == KeyOf(s, s.ports[port])) {
          PortDownIs(s, port, x);
        }
      }
      if port in ports {
        var e := ports[port];
        RemoveHost(if e in info then info[e].key else -1, true, true);
        ports := ports - {port};
        PutHost(e);
      }
    }

    /** One turn of the loop over the routes to `d` that use a lost port; the loop ends when no route is found. */
    method RerouteTurn(svc: Service, d: Id, alias: int, lost: int, now: int) returns (found: bool)
      modifies this
      ensures State() == Reroute(old(State()), svc, d, alias, lost, now)
      ensures found <==> !Clear(old(State()), d, alias, lost)
      ensures if found then exists k: nat :: Replaced(old(State()), State(), svc, d, alias, lost, now, k) else State() == old(State())
      ensures old(Good(State())) ==> Good(State())
    {
      hide Good, Replaced, Clear;
      RerouteReplaces(State(), svc, d, alias, lost, now);
      if Good(State()) {
        StepGood(State(), svc, RerouteOne(d, alias, lost, now));
      }
      DoneIsClear(State(), d, alias, lost);
      found := ReplaceFirst(svc, d, alias, lost, now);
      hide Uses, Find;
    }

    method ReplaceFirst(svc: Service, d: Id, alias: int, lost: int, now: int) returns (found: bool)
      modifies this
      ensures State() == Reroute(old(State()), svc, d, alias, lost, now)
      ensures found <==> !Done(old(State()), d, alias, lost)
    {
      hide AddRoute, Zap, Uses, KeepsCover, KeepsCounts, Table, Covers;
      var k := FindRoute(installed, (r: Route) => r.dst == d && Uses(r, alias, lost));
      found := k < |installed|;
      if found {
        var r := installed[k];
        installed := Remove(installed, k);
        if r.src in info && d in info && info[r.src].port.0 == info[d].port.0 {
          pending := pending + [Route(r.src, r.dst, [], now + RETRY_INIT_TS)];
        } else {
          MakeRoute(svc, r.src, r.dst, now);
          ZapRoute(r);
        }
      }
    }

    method RetryAt(svc: Service, i: nat, now: int) returns (left: bool)
      requires i < |pending|
      modifies this
      ensures (State(), left) == RetryOne(old(State()), svc, i, now)
      ensures |pending| == |old(pending)| - if left then 1 else 0
    {
      hide Zap;
      var r := pending[i];
      var answer := svc(queries);
      queries := queries + 1;
      if r.src !in members || r.dst !in members {
        pending := Remove(pending, i);
        ZapRoute(r);
        return true;
      }
      match answer
      case Path(hops) =>
        pending := Remove(pending, i);
        installed := installed + [r.(path := hops)];
        left := true;
      case NoPath =>
        pending := pending[i := r.(expiry := now + RETRY_TS)];
        left := false;
    }

    /**
     The retry pass, starting over whenever a route has left the list, costs no live pair its route and no counter
     its count. A route still pending was not due, or was refused in this pass and is due again in four seconds.
     */
    method RetryPending(svc: Service, all: bool, now: int)
      modifies this
      ensures State() == Retry(old(State()), svc, all, now, 0)
      ensures old(Good(State())) && !old(recalc) ==> Good(State())
      ensures AllSettled(State(), svc, old(queries), all, now, |pending|)
    {
      hide Good, AllSettled;
      NoneSettled(State(), svc, all, now);
      RetrySettles(State(), svc, queries, all, now, 0);
      if Good(State()) && !recalc {
        StepGood(State(), svc, RetryPass(all, now));
      }
      RetryWalk(svc, all, now);
    }

    method RetryWalk(svc: Service, all: bool, now: int)
      modifies this
      ensures State() == Retry(old(State()), svc, all, now, 0)
    {
      hide RetryOne;
      var i := 0;
      while i < |pending|
        invariant i <= |pending|
        invariant Retry(State(), svc, all, now, i) == Retry(old(State()), svc, all, now, 0)
        decreases |pending|, |pending| - i
      {
        if all || now > pending[i].expiry {
          var left := RetryAt(svc, i, now);
          i := if left then 0 else i + 1;
        } else {
          i := i + 1;
        }
      }
    }
  }
}
