/** Who is in the host table: keys are unique, and when a new host is there in the end. */
module FabricHosts {
  import opened Sequences
  import opened Fabric
  import opened FabricCover

  /** No two hosts of the table have the same key. */
  ghost predicate Keyed(s: Fab) {
    forall i, j :: 0 <= i < j < |s.members| ==> KeyOf(s, s.members[i]) != KeyOf(s, s.members[j])
  }

  lemma SameKeyed(s: Fab, r: Fab)
    requires Keyed(s) && s.info == r.info && s.members == r.members
    ensures Keyed(r)
  {
    assert forall h :: KeyOf(r, h) == KeyOf(s, h);
  }

  /** The host a key finds is the only one with it. */
  lemma FoundIs(s: Fab, h: Id)
    requires Keyed(s) && h in s.members
    ensures var k := FindKey(s, KeyOf(s, h), 0); k < |s.members| && s.members[k] == h
  {
    var i :| 0 <= i < |s.members| && s.members[i] == h;
    FoundBy(s, KeyOf(s, h), 0, i);
  }

  /** A search stops at the first host with the key. */
  lemma {:induction false} FoundBy(s: Fab, key: int, i: nat, j: nat)
    requires i <= j < |s.members| && KeyOf(s, s.members[j]) == key
    ensures FindKey(s, key, i) <= j
    decreases j - i
  {
    if i < j && KeyOf(s, s.members[i]) != key {
      FoundBy(s, key, i + 1, j);
    }
  }

  /** And misses only if no host has it. */
  lemma {:induction false} MissedIs(s: Fab, key: int, i: nat, j: nat)
    requires i <= j < |s.members| && FindKey(s, key, i) == |s.members|
    ensures KeyOf(s, s.members[j]) != key
    decreases j - i
  {
    if i < j {
      MissedIs(s, key, i + 1, j);
    }
  }

  lemma DeleteKeyed(s: Fab, key: int, deactivate: bool, knownSwitch: bool)
    requires Keyed(s)
    ensures Keyed(DeleteHost(s, key, deactivate, knownSwitch))
  {
    var k := FindKey(s, key, 0);
    if k < |s.members| {
      DeleteIs(s, key, deactivate, knownSwitch, k);
      WithoutOneKeyed(s, k);
      hide DeleteHost, FindKey, Keyed;
      var r := DeleteHost(s, key, deactivate, knownSwitch);
      SameKeyed(s.(members := Remove(s.members, k)), r);
    }
  }

  lemma WithoutOneKeyed(s: Fab, k: nat)
    requires Keyed(s) && k < |s.members|
    ensures Keyed(s.(members := Remove(s.members, k)))
  {
    var r := s.(members := Remove(s.members, k));
    assert forall h :: KeyOf(r, h) == KeyOf(s, h);
    assert forall i :: 0 <= i < |r.members| ==> r.members[i] == if i < k then s.members[i] else s.members[i + 1];
    hide KeyOf, Remove;
  }

  lemma TakePortKeyed(s: Fab, h: Id, host: Host)
    requires Table(s) && Keyed(s) && h !in s.info && FindKey(s, host.key, 0) == |s.members|
    ensures Keyed(TakePort(s, h, host))
  {
    var r := TakePort(s, h, host);
    hide FindKey;
    forall i, j | 0 <= i < j < |r.members| ensures KeyOf(r, r.members[i]) != KeyOf(r, r.members[j]) {
      if j == |s.members| {
        MissedIs(s, host.key, 0, i);
      }
    }
  }

  lemma AddHostKeyed(s: Fab, svc: Service, h: Id, host: Host, validPort: bool, now: int)
    requires Table(s) && Keyed(s) && h !in s.info
    ensures Keyed(AddHost(s, svc, h, host, validPort, now))
  {
    if validPort && FindKey(s, host.key, 0) == |s.members| {
      TakePortKeyed(s, h, host);
      var s1 := Arrive(s, svc, h, host, now);
      assert SameHosts(TakePort(s, h, host), s1);
      SameKeyed(TakePort(s, h, host), s1);
      if host.port in s.ports {
        var e := s.ports[host.port];
        DeleteKeyed(s1, KeyOf(s, e), false, true);
        var s2 := DeleteHost(s1, KeyOf(s, e), false, true);
        assert SameHosts(s2, Put(s2, e));
        SameKeyed(s2, Put(s2, e));
        hide Keyed, Arrive, DeleteHost, Put, FindKey, TakePort;
      }
    }
  }

  lemma StepKeyed(s: Fab, svc: Service, e: Event)
    requires Table(s) && Keyed(s) && Enabled(s, e)
    ensures Keyed(Step(s, svc, e))
  {
    match e
    case Add(h, host, validPort, now) => AddHostKeyed(s, svc, h, host, validPort, now);
    case Delete(key, knownSwitch) => DeleteKeyed(s, key, false, knownSwitch);
    case PortGone(port) =>
      if port in s.ports {
        var s1 := DeleteHost(s, KeyOf(s, s.ports[port]), true, true);
        DeleteKeyed(s, KeyOf(s, s.ports[port]), true, true);
        hide DeleteHost;
        SameKeyed(s1, s1.(ports := s1.ports - {port}));
        SameKeyed(s1, Step(s, svc, e));
      }
    case ResetAll(order) =>
      assert SameHosts(s.(recalc := true), Step(s, svc, e));
      SameKeyed(s, Step(s, svc, e));
    case RecalcAll(order, now) =>
      assert SameHosts(s.(recalc := false), AddAll(s.(recalc := false), svc, order, now, 0));
      SameKeyed(s, Step(s, svc, e));
    case _ =>
      assert SameHosts(s, Step(s, svc, e));
      SameKeyed(s, Step(s, svc, e));
  }

  // ---------- Adding a host ----------

  /** The add is taken up, and nobody with the new host's own key holds the port. */
  predicate Joins(s: Fab, host: Host, validPort: bool) {
    validPort && FindKey(s, host.key, 0) == |s.members| && (host.port in s.ports ==> KeyOf(s, s.ports[host.port]) != host.key)
  }

  /** The port the new host takes is held by a host with the key of `x`. */
  predicate Displaced(s: Fab, host: Host, x: Id) {
    host.port in s.ports && KeyOf(s, x) == KeyOf(s, s.ports[host.port])
  }

  lemma {:induction false} SameSearch(s: Fab, r: Fab, key: int, i: nat)
    requires i <= |s.members| && s.members == r.members && s.info == r.info
    ensures FindKey(r, key, i) == FindKey(s, key, i)
    decreases |s.members| - i
  {
    if i < |s.members| {
      SameSearch(s, r, key, i + 1);
    }
  }

  /** In the table with the new host, its key finds it, and another key finds what it found before. */
  lemma {:induction false} SearchWithNew(s: Fab, h: Id, host: Host, key: int, i: nat)
    requires Table(s) && h !in s.info && i <= |s.members|
    ensures var r := TakePort(s, h, host);
            var k := FindKey(s, key, i);
            FindKey(r, key, i) == if k < |s.members| then k else if key == host.key then |s.members| else |s.members| + 1
    decreases |s.members| - i
  {
    var r := TakePort(s, h, host);
    if i < |s.members| {
      assert r.members[i] == s.members[i] && KeyOf(r, r.members[i]) == KeyOf(s, s.members[i]);
      SearchWithNew(s, h, host, key, i + 1);
    } else {
      assert r.members[i] == h && KeyOf(r, h) == host.key;
      assert FindKey(r, key, i + 1) == i + 1;
    }
  }

  /**
   A new record is in the table in the end if and only if its port is valid, its key unknown, and the port
   free or held by a host with another key. Every other host stays, but for the one whose port it was.
   */
  lemma AddHostIs(s: Fab, svc: Service, h: Id, host: Host, validPort: bool, now: int)
    requires Table(s) && Keyed(s) && h !in s.info
    ensures var r := AddHost(s, svc, h, host, validPort, now);
            && (h in r.members <==> Joins(s, host, validPort))
            && (forall x :: x != h ==> (x in r.members <==> x in s.members && !(Joins(s, host, validPort) && Displaced(s, host, x))))
  {
    if validPort && FindKey(s, host.key, 0) == |s.members| {
      var s0, s1 := TakePort(s, h, host), Arrive(s, svc, h, host, now);
      assert SameHosts(s0, s1);
      TakePortTable(s, s0, h, host);
      if host.port in s.ports {
        var e := s.ports[host.port];
        var key := KeyOf(s, e);
        SearchWithNew(s, h, host, key, 0);
        SameSearch(s0, s1, key, 0);
        Evicted(s, s1, h, host, key);
        hide Arrive, DeleteHost, FindKey, TakePort;
      }
    }
  }

  lemma TakePortTable(s: Fab, r: Fab, h: Id, host: Host)
    requires Table(s) && h !in s.info && r == TakePort(s, h, host)
    ensures Table(r) && forall x :: x in r.members <==> x in s.members || x == h
  {
  }

  /** Deleting by the key of the port's holder, right after the new host came. */
  lemma Evicted(s: Fab, s1: Fab, h: Id, host: Host, key: int)
    requires Table(s) && Keyed(s) && h !in s.info && FindKey(s, host.key, 0) == |s.members|
    requires s1.members == s.members + [h] && s1.info == s.info[h := host]
    requires var k := FindKey(s, key, 0);
             FindKey(s1, key, 0) == if k < |s.members| then k else if key == host.key then |s.members| else |s.members| + 1
    ensures var r := DeleteHost(s1, key, false, true);
            && (h in r.members <==> key != host.key)
            && (forall x :: x != h ==> (x in r.members <==> x in s.members && !(key != host.key && KeyOf(s, x) == key)))
  {
    hide DeleteHost, FindKey, Keyed;
    var r := DeleteHost(s1, key, false, true);
    TableWithNew(s, s1, h, host);
    DeletedBy(s1, key, false);
    hide Table;
    forall x | x in s.members ensures x in r.members <==> !(key != host.key && KeyOf(s, x) == key) {
      HolderIs(s, key, x);
    }
  }

  lemma TableWithNew(s: Fab, s1: Fab, h: Id, host: Host)
    requires Table(s) && h !in s.info && s1.members == s.members + [h] && s1.info == s.info[h := host]
    ensures Table(s1) && h !in s.members && s1.members[|s.members|] == h && forall x :: x in s1.members <==> x in s.members || x == h
  {
  }

  /** Deleting by a key takes the host it finds, and no other. */
  lemma DeletedBy(s: Fab, key: int, deactivate: bool)
    requires Table(s)
    ensures var k := FindKey(s, key, 0);
            forall x :: x in DeleteHost(s, key, deactivate, true).members <==> x in s.members && !(k < |s.members| && x == s.members[k])
  {
    hide FindKey;
    var k := FindKey(s, key, 0);
    if k < |s.members| {
      DeleteIs(s, key, deactivate, true, k);
      RemoveMember(s.members, k);
      hide DeleteHost, Remove, Table;
    }
  }

  lemma HolderIs(s: Fab, key: int, x: Id)
    requires Keyed(s) && x in s.members
    ensures var k := FindKey(s, key, 0); KeyOf(s, x) == key <==> k < |s.members| && x == s.members[k]
  {
    hide Keyed;
    if KeyOf(s, x) == key {
      FoundIs(s, x);
    }
  }

  /** A delete takes at most the port that points to the host it finds. */
  lemma DeletePortsAre(s: Fab, key: int, deactivate: bool, knownSwitch: bool)
    ensures var (k, r) := (FindKey(s, key, 0), DeleteHost(s, key, deactivate, knownSwitch));
            r.ports == if k < |s.members| && !deactivate && knownSwitch && Plugged(s, s.members[k])
                       then s.ports - {s.info[s.members[k]].port} else s.ports
  {
    var k := FindKey(s, key, 0);
    if k < |s.members| {
      var h := s.members[k];
      var s1 := ForgetPending(DropRoutes(s, h), h);
      assert SameHosts(s, DropRoutes(s, h)) && SameHosts(DropRoutes(s, h), s1);
      hide DropRoutes, ForgetPending, FindKey, Put;
    }
  }

  /** The host's port points to it. */
  predicate Plugged(s: Fab, h: Id) {
    h in s.info && s.info[h].port in s.ports && s.ports[s.info[h].port] == h
  }

  /** A host that joins is recorded as it came, and its port points to it. */
  lemma AddHostPlugs(s: Fab, svc: Service, h: Id, host: Host, validPort: bool, now: int)
    requires Table(s) && h !in s.info && Joins(s, host, validPort)
    ensures var r := AddHost(s, svc, h, host, validPort, now);
            h in r.info && r.info[h] == host && Plugged(r, h)
  {
    var s0, s1 := TakePort(s, h, host), Arrive(s, svc, h, host, now);
    assert SameHosts(s0, s1);
    if host.port in s.ports {
      var key := KeyOf(s, s.ports[host.port]);
      SearchWithNew(s, h, host, key, 0);
      SameSearch(s0, s1, key, 0);
      DeletePortsAre(s1, key, false, true);
      DeleteInfo(s1, key);
      hide Arrive, DeleteHost, FindKey;
    }
  }

  /** A port that goes away takes the host it points to out of the table, and no other. */
  lemma PortDownIs(s: Fab, port: Port, x: Id)
    requires Table(s) && Keyed(s)
    ensures x in PortDown(s, port).members <==> x in s.members && !(port in s.ports && KeyOf(s, x) == KeyOf(s, s.ports[port]))
  {
    hide DeleteHost, FindKey, Keyed, Table;
    if port in s.ports {
      var key := KeyOf(s, s.ports[port]);
      DeletedBy(s, key, true);
      if x in s.members {
        HolderIs(s, key, x);
      }
    }
  }

  lemma DeleteInfo(s: Fab, key: int)
    ensures DeleteHost(s, key, false, true).info == s.info
  {
    var k := FindKey(s, key, 0);
    if k < |s.members| {
      DeleteIs(s, key, false, true, k);
    }
    hide DropRoutes, ForgetPending, FindKey, Leave;
  }
}
