/** A run after which two host records are in no table, on no port and in no route, and are never freed. */
module FabricLeak {
  import opened Sequences
  import opened Fabric
  import opened FabricCover
  import opened FabricRefs

  /** A route service that knows no path. */
  const NOWHERE: Service := q => NoPath

  /** The first two questions to the route service find no path. */
  predicate Unreachable(svc: Service) {
    svc(0) == NoPath && svc(1) == NoPath
  }

  const HOST_1 := Host(1, 0, (1, 1))
  const HOST_2 := Host(2, 0, (1, 2))

  function First(): Fab {
    Fab(map[1 := HOST_1], [1], [], [], false, map[(1, 1) := 1], map[1 := 1], {}, multiset{}, 0)
  }

  /** Two hosts without a path between them. */
  function Apart(): Fab {
    Fab(map[1 := HOST_1, 2 := HOST_2], [1, 2], [], [Route(1, 2, [], 1), Route(2, 1, [], 1)], false,
        map[(1, 1) := 1, (1, 2) := 2], map[1 := 3, 2 := 3], {}, multiset{}, 2)
  }

  /** The first is deleted; both routes are forgotten, and with them references to both hosts. */
  function Alone(): Fab {
    Fab(map[1 := HOST_1, 2 := HOST_2], [2], [], [], false,
        map[(1, 2) := 2], map[1 := 1, 2 := 3], {}, multiset{1, 2} + multiset{2, 1}, 2)
  }

  /** The second is deleted, and no pending route names it any more. */
  function Gone(): Fab {
    Alone().(members := [], ports := map[], refs := map[1 := 1, 2 := 1])
  }

  lemma AddFirst(svc: Service)
    ensures AddHost(EMPTY, svc, 1, HOST_1, true, 0) == First()
  {
    var s := TakePort(EMPTY, 1, HOST_1);
    assert s.members == [1];
    assert AddPair(s, svc, 1, 1, true, 0) == s;
    assert AddFrom(s, svc, 1, true, 0, 1) == s;
    assert AddFrom(s, svc, 1, true, 0, 0) == s;
  }

  /** The second host in its place, before any route is made. */
  function Placed(): Fab {
    Apart().(pending := [], refs := map[1 := 1, 2 := 1], queries := 0)
  }

  function Half(): Fab {
    Placed().(pending := [Route(1, 2, [], 1)], refs := map[1 := 2, 2 := 2], queries := 1)
  }

  lemma RouteThere(svc: Service)
    requires Unreachable(svc)
    ensures AddRoute(Placed(), svc, 1, 2, 0) == Half()
  {
    assert Get(Get(Placed(), 1), 2).refs == map[1 := 2, 2 := 2];
  }

  lemma RouteBack(svc: Service)
    requires Unreachable(svc)
    ensures AddRoute(Half(), svc, 2, 1, 0) == Apart()
  {
    assert Get(Get(Half(), 2), 1).refs == map[1 := 3, 2 := 3];
    assert [Route(1, 2, [], 1)] + [Route(2, 1, [], 1)] == [Route(1, 2, [], 1), Route(2, 1, [], 1)];
  }

  lemma PairSecond(svc: Service)
    requires Unreachable(svc)
    ensures AddPair(Placed(), svc, 1, 2, true, 0) == Apart() && AddPair(Apart(), svc, 2, 2, true, 0) == Apart()
  {
    RouteThere(svc);
    RouteBack(svc);
    assert AddRoute(Apart(), svc, 2, 2, 0) == Apart();
    hide AddRoute, Placed, Half, Apart;
  }

  lemma RoutesSecond(svc: Service)
    requires Unreachable(svc)
    ensures AddFrom(Placed(), svc, 2, true, 0, 0) == Apart()
  {
    PairSecond(svc);
    hide AddPair;
    assert AddFrom(Apart(), svc, 2, true, 0, 2) == Apart();
    assert AddFrom(Apart(), svc, 2, true, 0, 1) == Apart();
  }

  lemma AddSecond(svc: Service)
    requires Unreachable(svc)
    ensures AddHost(First(), svc, 2, HOST_2, true, 0) == Apart()
  {
    assert FindKey(First(), 2, 1) == 1;
    assert FindKey(First(), 2, 0) == 1;
    RoutesSecond(svc);
    hide AddFrom, FindKey;
    var s := TakePort(First(), 2, HOST_2);
    assert s.members == [1, 2];
    assert s == Placed();
  }

  lemma NoRoutesToDrop(s: Fab, h: Id)
    requires s.installed == []
    ensures DropRoutes(s, h) == s
  {
    NoneToDrop(s, h, 0);
  }

  lemma {:induction false} NoneToDrop(s: Fab, h: Id, i: nat)
    requires s.installed == [] && i <= |s.members|
    ensures DropFrom(s, h, i) == s
    decreases |s.members| - i
  {
    if i < |s.members| {
      assert DropPair(s, h, s.members[i]) == s;
      NoneToDrop(s, h, i + 1);
    }
  }

  lemma ForgetBoth()
    ensures ForgetPending(Apart(), 1) == Apart().(pending := [], kept := multiset{1, 2} + multiset{2, 1})
  {
    var p := Apart().pending;
    assert Find(p, (r: Route) => r.src == 1, 0) == 0;
    assert Remove(p, 0) == [p[1]];
    var s1 := Forget(Apart(), 0);
    assert s1.pending == [p[1]];
    assert Find(s1.pending, (r: Route) => r.dst == 1, 0) == 0;
    assert Remove(s1.pending, 0) == [];
    assert s1.kept == multiset{1, 2};
    assert Forget(s1, 0).kept == multiset{1, 2} + multiset{2, 1};
  }

  lemma LeaveFirst()
    ensures Leave(Apart().(pending := [], kept := multiset{1, 2} + multiset{2, 1}), 0, true) == Alone()
  {
    var s := Apart().(pending := [], kept := multiset{1, 2} + multiset{2, 1});
    var s1 := s.(members := Remove(s.members, 0));
    assert s1.members == [2];
    var s2 := Unplug(s1, 1);
    assert s2.refs == map[1 := 2, 2 := 3] && s2.ports == map[(1, 2) := 2];
    assert Put(s2, 1).refs == map[1 := 1, 2 := 3];
  }

  lemma DeleteFirst()
    ensures DeleteHost(Apart(), 1, false, true) == Alone()
  {
    assert FindKey(Apart(), 1, 0) == 0;
    NoRoutesToDrop(Apart(), 1);
    ForgetBoth();
    LeaveFirst();
    hide DropRoutes, ForgetPending, FindKey, Leave;
  }

  lemma DeleteSecond()
    ensures DeleteHost(Alone(), 2, false, true) == Gone()
  {
    assert FindKey(Alone(), 2, 0) == 0;
    NoRoutesToDrop(Alone(), 2);
    assert ForgetPending(Alone(), 2) == Alone();
    hide DropRoutes, ForgetPending, FindKey;
    var s1 := Alone().(members := Remove(Alone().members, 0));
    assert s1.members == [];
    var s2 := Unplug(s1, 2);
    assert s2.refs == map[1 := 1, 2 := 2] && s2.ports == map[];
    assert Put(s2, 2).refs == map[1 := 1, 2 := 1];
    assert Leave(Alone(), 0, true) == Gone();
  }

  const ADD_1 := Add(1, HOST_1, true, 0)
  const ADD_2 := Add(2, HOST_2, true, 0)
  const EVENTS := [ADD_1, ADD_2, Delete(1, true), Delete(2, true)]

  lemma Then(s: Fab, svc: Service, e: Event, next: Fab, evs: seq<Event>, r: Fab)
    requires Enabled(s, e) && Step(s, svc, e) == next && Run(next, svc, evs, r)
    ensures Run(s, svc, [e] + evs, r)
  {
    assert ([e] + evs)[1..] == evs;
  }

  lemma NoEvents(s: Fab, svc: Service)
    ensures Run(s, svc, [], s)
  {
  }

  lemma Adds(svc: Service)
    requires Unreachable(svc)
    ensures Enabled(EMPTY, ADD_1) && Step(EMPTY, svc, ADD_1) == First()
    ensures Enabled(First(), ADD_2) && Step(First(), svc, ADD_2) == Apart()
  {
    AddFirst(svc);
    AddSecond(svc);
    hide AddHost;
  }

  lemma Deletes()
    ensures Enabled(Apart(), Delete(1, true)) && Step(Apart(), NOWHERE, Delete(1, true)) == Alone()
    ensures Enabled(Alone(), Delete(2, true)) && Step(Alone(), NOWHERE, Delete(2, true)) == Gone()
  {
    DeleteFirst();
    DeleteSecond();
    hide DeleteHost, Apart, Alone, Gone;
  }

  lemma LeakRun()
    ensures Run(EMPTY, NOWHERE, EVENTS, Gone())
  {
    hide Step, Enabled, Run, First, Apart, Alone, Gone;
    Adds(NOWHERE);
    Deletes();
    NoEvents(Gone(), NOWHERE);
    Then(Alone(), NOWHERE, Delete(2, true), Gone(), [], Gone());
    Then(Apart(), NOWHERE, Delete(1, true), Alone(), [Delete(2, true)] + [], Gone());
    Then(First(), NOWHERE, ADD_2, Apart(), [Delete(1, true)] + ([Delete(2, true)] + []), Gone());
    Then(EMPTY, NOWHERE, ADD_1, First(), [ADD_2] + ([Delete(1, true)] + ([Delete(2, true)] + [])), Gone());
    assert [ADD_1] + ([ADD_2] + ([Delete(1, true)] + ([Delete(2, true)] + []))) == EVENTS;
  }

  lemma EmptyRefs()
    ensures RefInv(EMPTY)
  {
  }

  lemma GoneIs()
    ensures 2 in Gone().info && Holders(Gone(), 2) == 0 && 2 !in Gone().freed && Gone().kept[2] > 0 && Alone().pending == []
  {
  }

  /**
   Nothing holds host 2 and no pending route named it when it was deleted, yet it was not freed, and never
   will be: deleting host 1 had forgotten two references to it.
   */
  lemma OtherEndLeaks(more: seq<Event>, r: Fab)
    requires Run(Gone(), NOWHERE, more, r)
    ensures Run(EMPTY, NOWHERE, EVENTS, Gone()) && EVENTS[3] == Delete(2, true) && Alone().pending == []
    ensures 2 in Gone().info && Holders(Gone(), 2) == 0 && 2 !in Gone().freed && 2 !in r.freed
  {
    hide Run, RefInv, Gone, Alone, Holders;
    EmptyRefs();
    GoneIs();
    LeakRun();
    RunKeepsRefInv(EMPTY, NOWHERE, EVENTS, Gone());
    ForgottenNeverFreed(Gone(), NOWHERE, more, r, 2);
  }
}
