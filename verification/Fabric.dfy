/** The fabric app's hosts and the routes between them, on values: the state and what each event does. */
module Fabric {
  import opened Sequences

  const RETRY_INIT_TS := 1
  const RETRY_TS := 4

  /** A host record; a new one for every time a host is added. */
  type Id = nat
  type Port = (int, int)

  datatype Host = Host(key: int, net: int, port: Port)

  datatype Hop = Hop(alias: int, port: int, last: bool)

  datatype Route = Route(src: Id, dst: Id, path: seq<Hop>, expiry: int)

  /** What the route service says; any answer to any question, at any time. */
  datatype Answer = NoPath | Path(hops: seq<Hop>)
  type Service = nat -> Answer

  /**
   `members` is the host table in the order hosts were added; a tenant network's host list is its part with
   that network. `installed` holds the host_routes lists of all hosts, each route in the list of its
   destination. `refs` is each record's counter, `freed` the records given back, and `kept` the references
   of routes taken off the pending list without being released. `queries` counts questions to the service.
   */
  datatype Fab = Fab(info: map<Id, Host>, members: seq<Id>, installed: seq<Route>, pending: seq<Route>, recalc: bool,
                     ports: map<Port, Id>, refs: map<Id, int>, freed: set<Id>, kept: multiset<Id>, queries: nat)

  /** Nothing but routes, references and questions differs. */
  predicate SameHosts(s: Fab, r: Fab) {
    s.info == r.info && s.members == r.members && s.recalc == r.recalc && s.ports == r.ports
  }

  predicate SameRoutes(s: Fab, r: Fab) {
    s.installed == r.installed && s.pending == r.pending && s.kept == r.kept && s.queries == r.queries
  }

  function Net(s: Fab, h: Id): int {
    if h in s.info then s.info[h].net else -1
  }

  // ---------- References ----------

  function Ref(s: Fab, h: Id): int {
    if h in s.refs then s.refs[h] else 0
  }

  function Get(s: Fab, h: Id): Fab {
    s.(refs := s.refs[h := Ref(s, h) + 1])
  }

  function Put(s: Fab, h: Id): (r: Fab)
    ensures SameHosts(s, r) && SameRoutes(s, r)
  {
    if Ref(s, h) == 0 then s.(freed := s.freed + {h}) else s.(refs := s.refs[h := Ref(s, h) - 1])
  }

  // ---------- Making routes ----------

  /** A route is installed if the service knows a path, and otherwise waits. */
  function AddRoute(s: Fab, svc: Service, src: Id, dst: Id, now: int): (r: Fab)
    ensures SameHosts(s, r) && r.kept == s.kept
  {
    if src == dst || src !in s.members || dst !in s.members then s
    else
      var s1 := Get(Get(s, src), dst);
      var s2 := s1.(queries := s1.queries + 1);
      match svc(s.queries)
      case Path(hops) => s2.(installed := s2.installed + [Route(src, dst, hops, 0)])
      case NoPath => s2.(pending := s2.pending + [Route(src, dst, [], now + RETRY_INIT_TS)])
  }

  function AddPair(s: Fab, svc: Service, x: Id, h: Id, pair: bool, now: int): (r: Fab)
    ensures SameHosts(s, r) && r.kept == s.kept
  {
    var s1 := AddRoute(s, svc, x, h, now);
    if pair then AddRoute(s1, svc, h, x, now) else s1
  }

  /** Routes from every other host of the network to `h`, and back if `pair`. */
  function AddFrom(s: Fab, svc: Service, h: Id, pair: bool, now: int, i: nat): (r: Fab)
    requires i <= |s.members|
    ensures SameHosts(s, r) && r.kept == s.kept
    decreases |s.members| - i
  {
    if i == |s.members| then s
    else
      var s1 := if Net(s, s.members[i]) != Net(s, h) then s else AddPair(s, svc, s.members[i], h, pair, now);
      AddFrom(s1, svc, h, pair, now, i + 1)
  }

  function AddAll(s: Fab, svc: Service, order: seq<Id>, now: int, i: nat): (r: Fab)
    requires i <= |order|
    ensures SameHosts(s, r) && r.kept == s.kept
    decreases |order| - i
  {
    if i == |order| then s else AddAll(AddFrom(s, svc, order[i], false, now, 0), svc, order, now, i + 1)
  }

  // ---------- Taking routes away ----------

  /** Frees a route and lets go of its two hosts. */
  function Zap(s: Fab, r: Route): (z: Fab)
    ensures SameHosts(s, z) && SameRoutes(s, z)
  {
    Put(Put(s, r.src), r.dst)
  }

  function Uninstall(s: Fab, i: nat): (r: Fab)
    requires i < |s.installed|
    ensures SameHosts(s, r) && r.pending == s.pending && r.kept == s.kept && r.queries == s.queries
  {
    Zap(s.(installed := Remove(s.installed, i)), s.installed[i])
  }

  /** All routes to `h` go, from position `i` on. */
  function DropTo(s: Fab, h: Id, i: nat): (r: Fab)
    requires i <= |s.installed|
    ensures SameHosts(s, r) && r.pending == s.pending && r.kept == s.kept && r.queries == s.queries
    decreases |s.installed| - i
  {
    if i == |s.installed| then s
    else if s.installed[i].dst == h then DropTo(Uninstall(s, i), h, i)
    else DropTo(s, h, i + 1)
  }

  function Find(l: seq<Route>, fits: Route -> bool, i: nat): (k: nat)
    requires i <= |l|
    ensures i <= k <= |l| && (k < |l| ==> fits(l[k])) && forall j :: i <= j < k ==> !fits(l[j])
    decreases |l| - i
  {
    if i == |l| || fits(l[i]) then i else Find(l, fits, i + 1)
  }

  function DropPair(s: Fab, src: Id, dst: Id): (r: Fab)
    ensures SameHosts(s, r) && r.pending == s.pending && r.kept == s.kept && r.queries == s.queries
  {
    var k := Find(s.installed, (r: Route) => r.src == src && r.dst == dst, 0);
    if k < |s.installed| then Uninstall(s, k) else s
  }

  /** From every other host of the network, its first route from `h` goes. */
  function DropFrom(s: Fab, h: Id, i: nat): (r: Fab)
    requires i <= |s.members|
    ensures SameHosts(s, r) && r.pending == s.pending && r.kept == s.kept && r.queries == s.queries
    decreases |s.members| - i
  {
    if i == |s.members| then s
    else
      var x := s.members[i];
      var s1 := if x == h || Net(s, x) != Net(s, h) then s else DropPair(s, h, x);
      DropFrom(s1, h, i + 1)
  }

  function DropRoutes(s: Fab, h: Id): (r: Fab)
    ensures SameHosts(s, r) && r.pending == s.pending && r.kept == s.kept && r.queries == s.queries
  {
    DropFrom(DropTo(s, h, 0), h, 0)
  }

  /** Forgets a pending route; its references are not released. */
  function Forget(s: Fab, k: nat): (r: Fab)
    requires k <= |s.pending|
    ensures SameHosts(s, r) && r.installed == s.installed && r.queries == s.queries
  {
    if k == |s.pending| then s
    else s.(pending := Remove(s.pending, k), kept := s.kept + multiset{s.pending[k].src, s.pending[k].dst})
  }

  /** The first pending route from `h` and the first to `h` are forgotten. */
  function ForgetPending(s: Fab, h: Id): (r: Fab)
    ensures SameHosts(s, r) && r.installed == s.installed && r.queries == s.queries
  {
    var s1 := Forget(s, Find(s.pending, (r: Route) => r.src == h, 0));
    Forget(s1, Find(s1.pending, (r: Route) => r.dst == h, 0))
  }

  // ---------- Hosts ----------

  function KeyOf(s: Fab, h: Id): int {
    if h in s.info then s.info[h].key else -1
  }

  function FindKey(s: Fab, key: int, i: nat): (k: nat)
    requires i <= |s.members|
    ensures i <= k <= |s.members| && (k < |s.members| ==> KeyOf(s, s.members[k]) == key)
    decreases |s.members| - i
  {
    if i == |s.members| || KeyOf(s, s.members[i]) == key then i else FindKey(s, key, i + 1)
  }

  /** The port that still points to `h` lets go of it. */
  function Unplug(s: Fab, h: Id): (r: Fab)
    ensures r.info == s.info && r.members == s.members && r.recalc == s.recalc && SameRoutes(s, r)
  {
    if h in s.info && s.info[h].port in s.ports && s.ports[s.info[h].port] == h
    then Put(s.(ports := s.ports - {s.info[h].port}), h)
    else s
  }

  /** A host whose routes are gone leaves the table, and its port if `unplug`. */
  function Leave(s: Fab, k: nat, unplug: bool): (r: Fab)
    requires k < |s.members|
    ensures r.info == s.info && r.members == Remove(s.members, k) && r.recalc == s.recalc && SameRoutes(s, r)
  {
    var h := s.members[k];
    var s1 := s.(members := Remove(s.members, k));
    Put(if unplug then Unplug(s1, h) else s1, h)
  }

  function DeleteHost(s: Fab, key: int, deactivate: bool, knownSwitch: bool): Fab {
    var k := FindKey(s, key, 0);
    if k == |s.members| then s
    else
      var h := s.members[k];
      Leave(ForgetPending(DropRoutes(s, h), h), k, !deactivate && knownSwitch)
  }

  function TakePort(s: Fab, h: Id, host: Host): Fab {
    s.(info := s.info[h := host], members := s.members + [h], ports := s.ports[host.port := h], refs := s.refs[h := 1])
  }

  function Arrive(s: Fab, svc: Service, h: Id, host: Host, now: int): (r: Fab)
    ensures SameHosts(TakePort(s, h, host), r) && r.kept == s.kept
  {
    if s.recalc then TakePort(s, h, host) else AddFrom(TakePort(s, h, host), svc, h, true, now, 0)
  }

  /** A new host takes its port; a host that was there is deleted. */
  function AddHost(s: Fab, svc: Service, h: Id, host: Host, validPort: bool, now: int): Fab {
    if !validPort || FindKey(s, host.key, 0) < |s.members| then s
    else
      var s1 := Arrive(s, svc, h, host, now);
      if host.port !in s.ports then s1
      else Put(DeleteHost(s1, KeyOf(s, s.ports[host.port]), false, true), s.ports[host.port])
  }

  /** A port goes away and deactivates its host. */
  function PortDown(s: Fab, port: Port): Fab {
    if port !in s.ports then s
    else
      var e := s.ports[port];
      var s1 := DeleteHost(s, KeyOf(s, e), true, true);
      Put(s1.(ports := s1.ports - {port}), e)
  }

  // ---------- Routes and the network ----------

  predicate Uses(r: Route, alias: int, port: int) {
    exists i :: 0 <= i < |r.path| && !r.path[i].last && r.path[i].alias == alias && r.path[i].port == port
  }

  /** One turn of the loop that takes away the routes to `d` over a lost port: the first is replaced, or made pending. */
  function Reroute(s: Fab, svc: Service, d: Id, alias: int, port: int, now: int): (r: Fab)
    ensures SameHosts(s, r) && r.kept == s.kept
  {
    var k := Find(s.installed, (r: Route) => r.dst == d && Uses(r, alias, port), 0);
    if k == |s.installed| then s
    else
      var r := s.installed[k];
      var s1 := s.(installed := Remove(s.installed, k));
      if r.src in s.info && d in s.info && s.info[r.src].port.0 == s.info[d].port.0 then
        s1.(pending := s1.pending + [Route(r.src, r.dst, [], now + RETRY_INIT_TS)])
      else Zap(AddRoute(s1, svc, r.src, r.dst, now), r)
  }

  function DropAll(s: Fab, order: seq<Id>, i: nat): (r: Fab)
    requires i <= |order|
    ensures SameHosts(s, r) && r.pending == s.pending && r.kept == s.kept && r.queries == s.queries
    decreases |order| - i
  {
    if i == |order| then s else DropAll(DropRoutes(s, order[i]), order, i + 1)
  }

  function Reset(s: Fab, order: seq<Id>): Fab {
    DropAll(s.(recalc := true), order, 0)
  }

  function Recalc(s: Fab, svc: Service, order: seq<Id>, now: int): Fab {
    if !s.recalc then s else AddAll(s.(recalc := false), svc, order, now, 0)
  }

  /** Asks again for a pending route that is due. One that can be installed, or whose hosts are gone, leaves the list. */
  function RetryOne(s: Fab, svc: Service, i: nat, now: int): (o: (Fab, bool))
    requires i < |s.pending|
    ensures SameHosts(s, o.0) && o.0.kept == s.kept && |o.0.pending| == |s.pending| - if o.1 then 1 else 0
  {
    var r := s.pending[i];
    var s1 := s.(queries := s.queries + 1);
    var dead := r.src !in s.members || r.dst !in s.members;
    if dead then (Zap(s1.(pending := Remove(s1.pending, i)), r), true)
    else match svc(s.queries)
    case Path(hops) => (s1.(pending := Remove(s1.pending, i), installed := s1.installed + [r.(path := hops)]), true)
    case NoPath => (s1.(pending := s1.pending[i := r.(expiry := now + RETRY_TS)]), false)
  }

  /** The retry pass: it starts over whenever a route leaves the list. */
  function Retry(s: Fab, svc: Service, all: bool, now: int, i: nat): (r: Fab)
    requires i <= |s.pending|
    ensures SameHosts(s, r) && r.kept == s.kept
    decreases |s.pending|, |s.pending| - i
  {
    if i == |s.pending| then s
    else if !(all || now > s.pending[i].expiry) then Retry(s, svc, all, now, i + 1)
    else
      var (s1, left) := RetryOne(s, svc, i, now);
      if left then Retry(s1, svc, all, now, 0) else Retry(s1, svc, all, now, i + 1)
  }

  // ---------- Runs ----------

  datatype Event =
    | Add(h: Id, host: Host, validPort: bool, now: int)
    | Delete(key: int, knownSwitch: bool)
    | PortGone(port: Port)
    | RerouteOne(d: Id, alias: int, lost: int, now: int)
    | ResetAll(order: seq<Id>)
    | RecalcAll(order: seq<Id>, now: int)
    | RetryPass(all: bool, now: int)

  /** Host records are new, hash tables are walked completely, and nothing is retried while a recalculation is due. */
  ghost predicate Enabled(s: Fab, e: Event) {
    match e
    case Add(h, _, _, _) => h !in s.info
    case ResetAll(order) => forall h :: h in s.members <==> h in order
    case RecalcAll(order, _) => forall h :: h in s.members <==> h in order
    case RetryPass(_, _) => !s.recalc
    case _ => true
  }

  function Step(s: Fab, svc: Service, e: Event): Fab {
    match e
    case Add(h, host, validPort, now) => AddHost(s, svc, h, host, validPort, now)
    case Delete(key, knownSwitch) => DeleteHost(s, key, false, knownSwitch)
    case PortGone(port) => PortDown(s, port)
    case RerouteOne(d, alias, lost, now) => Reroute(s, svc, d, alias, lost, now)
    case ResetAll(order) => Reset(s, order)
    case RecalcAll(order, now) => Recalc(s, svc, order, now)
    case RetryPass(all, now) => Retry(s, svc, all, now, 0)
  }

  const EMPTY := Fab(map[], [], [], [], false, map[], map[], {}, multiset{}, 0)

  ghost predicate Run(s: Fab, svc: Service, evs: seq<Event>, r: Fab)
    decreases |evs|
  {
    if evs == [] then s == r
    else Enabled(s, evs[0]) && Run(Step(s, svc, evs[0]), svc, evs[1..], r)
  }
}
