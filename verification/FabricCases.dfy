/** Two runs: a second route between the same hosts outlives its source, and a new host is deleted with the old one. */
module FabricCases {
  import opened Sequences
  import opened Fabric
  import opened FabricCover
  import opened FabricRefs
  import opened FabricRoutes
  import opened FabricHosts
  import opened FabricLeak

  // ---------- A route made twice ----------

  /** A route service that knows every path from its third question on. */
  const LATER: Service := q => if q < 2 then NoPath else Path([])

  const TWO := [1, 2]

  function Waiting(): Fab {
    Apart().(recalc := true)
  }

  /** The routes are made again while the first ones are still pending. */
  function Anew(): Fab {
    Apart().(installed := [Route(2, 1, [], 0), Route(1, 2, [], 0)], refs := map[1 := 5, 2 := 5], queries := 4)
  }

  /** The pending ones are installed as well. */
  function Twice(): Fab {
    Anew().(installed := [Route(2, 1, [], 0), Route(1, 2, [], 0), Route(1, 2, [], 1), Route(2, 1, [], 1)],
            pending := [], queries := 6)
  }

  lemma ResetApart()
    ensures Reset(Apart(), TWO) == Waiting()
  {
    var s := Apart().(recalc := true);
    NoRoutesToDrop(s, 1);
    NoRoutesToDrop(s, 2);
    hide DropRoutes;
    assert DropAll(s, TWO, 2) == s;
    assert DropAll(s, TWO, 1) == s;
  }

  function Back(): Fab {
    Apart().(installed := [Route(2, 1, [], 0)], refs := map[1 := 4, 2 := 4], queries := 3)
  }

  lemma FromSecond()
    ensures AddFrom(Apart(), LATER, 1, false, 0, 0) == Back()
  {
    assert Get(Get(Apart(), 2), 1).refs == map[1 := 4, 2 := 4];
    assert AddPair(Apart(), LATER, 2, 1, false, 0) == Back();
    assert AddPair(Apart(), LATER, 1, 1, false, 0) == Apart();
    hide AddPair;
    assert AddFrom(Back(), LATER, 1, false, 0, 2) == Back();
    assert AddFrom(Apart(), LATER, 1, false, 0, 1) == Back();
  }

  lemma FromFirst()
    ensures AddFrom(Back(), LATER, 2, false, 0, 0) == Anew()
  {
    assert Get(Get(Back(), 1), 2).refs == map[1 := 5, 2 := 5];
    assert AddPair(Back(), LATER, 1, 2, false, 0) == Anew();
    assert AddPair(Anew(), LATER, 2, 2, false, 0) == Anew();
    hide AddPair;
    assert AddFrom(Anew(), LATER, 2, false, 0, 2) == Anew();
    assert AddFrom(Anew(), LATER, 2, false, 0, 1) == Anew();
  }

  lemma RecalcApart()
    ensures Recalc(Waiting(), LATER, TWO, 0) == Anew()
  {
    var s := Apart().(recalc := true);
    assert s.(recalc := false) == Apart();
    FromSecond();
    FromFirst();
    hide AddFrom;
    assert AddAll(Anew(), LATER, TWO, 0, 2) == Anew();
    assert AddAll(Back(), LATER, TWO, 0, 1) == Anew();
    assert AddAll(Apart(), LATER, TWO, 0, 0) == Anew();
  }

  function Almost(): Fab {
    Anew().(installed := [Route(2, 1, [], 0), Route(1, 2, [], 0), Route(1, 2, [], 1)],
            pending := [Route(2, 1, [], 1)], queries := 5)
  }

  lemma RetryFirst()
    ensures RetryOne(Anew(), LATER, 0, 0) == (Almost(), true)
  {
    assert Remove(Anew().pending, 0) == [Route(2, 1, [], 1)];
    assert Anew().installed + [Route(1, 2, [], 1)] == Almost().installed;
  }

  lemma RetrySecond()
    ensures RetryOne(Almost(), LATER, 0, 0) == (Twice(), true)
  {
    assert Remove(Almost().pending, 0) == [];
    assert Almost().installed + [Route(2, 1, [], 1)] == Twice().installed;
  }

  lemma RetryBoth()
    ensures Retry(Anew(), LATER, true, 0, 0) == Twice()
  {
    RetryFirst();
    RetrySecond();
    hide RetryOne;
    assert Retry(Twice(), LATER, true, 0, 0) == Twice();
    assert Retry(Almost(), LATER, true, 0, 0) == Twice();
  }

  lemma Remade()
    ensures Enabled(Apart(), ResetAll(TWO)) && Step(Apart(), LATER, ResetAll(TWO)) == Waiting()
    ensures Enabled(Waiting(), RecalcAll(TWO, 0)) && Step(Waiting(), LATER, RecalcAll(TWO, 0)) == Anew()
    ensures Enabled(Anew(), RetryPass(true, 0)) && Step(Anew(), LATER, RetryPass(true, 0)) == Twice()
  {
    ResetApart();
    RecalcApart();
    RetryBoth();
    hide Reset, Recalc, Retry;
  }

  lemma LaterUnreachable()
    ensures Unreachable(LATER)
  {
  }

  lemma TwiceRun()
    ensures Run(EMPTY, LATER, [ADD_1, ADD_2, ResetAll(TWO), RecalcAll(TWO, 0), RetryPass(true, 0)], Twice())
  {
    hide Step, Enabled, Run, First, Apart, Waiting, Anew, Twice, Unreachable;
    var e3, e4, e5 := ResetAll(TWO), RecalcAll(TWO, 0), RetryPass(true, 0);
    LaterUnreachable();
    Adds(LATER);
    Remade();
    NoEvents(Twice(), LATER);
    Then(Anew(), LATER, e5, Twice(), [], Twice());
    Then(Waiting(), LATER, e4, Anew(), [e5] + [], Twice());
    Then(Apart(), LATER, e3, Waiting(), [e4] + ([e5] + []), Twice());
    Then(First(), LATER, ADD_2, Apart(), [e3] + ([e4] + ([e5] + [])), Twice());
    Then(EMPTY, LATER, ADD_1, First(), [ADD_2] + ([e3] + ([e4] + ([e5] + []))), Twice());
    assert [ADD_1] + ([ADD_2] + ([e3] + ([e4] + ([e5] + [])))) == [ADD_1, ADD_2, e3, e4, e5];
  }

  lemma TwicePairs()
    ensures Table(Twice()) && !OneEach(Twice(), 1)
  {
    var l := Twice().installed;
    assert l[..3] == l[..2] + [l[2]] && l[..2] == [l[0], l[1]];
    assert Pairs(l[..2], 1, 2) == 1;
    PairsJoin(l[..2], [l[2]], 1, 2);
    PairsJoin(l[..3], [l[3]], 1, 2);
    assert l == l[..3] + [l[3]];
    assert Pairs([l[2]], 1, 2) == 1;
  }

  lemma DeleteInstalled(s: Fab, key: int, knownSwitch: bool)
    requires Table(s) && FindKey(s, key, 0) < |s.members|
    ensures var h := s.members[FindKey(s, key, 0)];
            h !in DeleteHost(s, key, false, knownSwitch).members && DeleteHost(s, key, false, knownSwitch).installed == DropRoutes(s, h).installed
  {
    hide DropRoutes, FindKey;
    var k := FindKey(s, key, 0);
    var l := Remove(s.members, k);
    assert forall i :: 0 <= i < |l| ==> l[i] == if i < k then s.members[i] else s.members[i + 1];
  }

  lemma FindFirst()
    ensures |Twice().members| == 2 && FindKey(Twice(), 1, 0) == 0 && Twice().members[0] == 1
  {
  }

  /**
   A reset leaves pending routes alone, so a recalculation and a retry install the same route twice. Deleting
   its source then removes only the first: a route from a host that is gone stays installed.
   */
  lemma SecondRouteStays()
    ensures Run(EMPTY, LATER, [ADD_1, ADD_2, ResetAll(TWO), RecalcAll(TWO, 0), RetryPass(true, 0)], Twice())
    ensures var r := Step(Twice(), LATER, Delete(1, true));
            1 !in r.members && exists i :: 0 <= i < |r.installed| && r.installed[i].src == 1
  {
    TwiceRun();
    TwicePairs();
    FindFirst();
    hide Twice, Run, Table, OneEach, DropRoutes, FindKey, DeleteHost;
    NoneFromIff(Twice(), 1);
    DeleteInstalled(Twice(), 1, true);
  }

  // ---------- A host that is deleted as it arrives ----------

  /** The host is deleted while its switch is unknown, and its port still points to it. */
  function Stale(): Fab {
    First().(members := [], refs := map[1 := 0])
  }

  lemma DeleteStale()
    ensures DeleteHost(First(), 1, false, false) == Stale()
  {
    assert FindKey(First(), 1, 0) == 0;
    NoRoutesToDrop(First(), 1);
    assert ForgetPending(First(), 1) == First();
    hide DropRoutes, ForgetPending, FindKey;
    assert Remove(First().members, 0) == [];
    assert Put(First().(members := []), 1).refs == map[1 := 0];
  }

  lemma StaleStep()
    ensures Enabled(First(), Delete(1, false)) && Step(First(), NOWHERE, Delete(1, false)) == Stale()
  {
    hide First, Stale, DeleteHost;
    DeleteStale();
  }

  lemma StaleRun()
    ensures Run(EMPTY, NOWHERE, [ADD_1, Delete(1, false)], Stale())
  {
    hide Step, Enabled, Run, First, Apart, Stale;
    StaleStep();
    Adds(NOWHERE);
    NoEvents(Stale(), NOWHERE);
    Then(First(), NOWHERE, Delete(1, false), Stale(), [], Stale());
    Then(EMPTY, NOWHERE, ADD_1, First(), [Delete(1, false)] + [], Stale());
    assert [ADD_1] + ([Delete(1, false)] + []) == [ADD_1, Delete(1, false)];
  }

  lemma StaleIs()
    ensures Table(Stale()) && Keyed(Stale()) && 2 !in Stale().info && !FabricHosts.Joins(Stale(), HOST_1, true)
  {
  }

  /** The same host comes back on the same port: it has a valid port and no entry in the table, and gets none. */
  lemma ReturningHostIsLost()
    ensures Run(EMPTY, NOWHERE, [ADD_1, Delete(1, false)], Stale())
    ensures Enabled(Stale(), Add(2, HOST_1, true, 0)) && 2 !in Step(Stale(), NOWHERE, Add(2, HOST_1, true, 0)).members
  {
    hide AddHost, Run, Stale, Table, Keyed, FabricHosts.Joins;
    StaleRun();
    StaleIs();
    AddHostIs(Stale(), NOWHERE, 2, HOST_1, true, 0);
  }
}
