/** What the switches last heard: the role and id of the last request each controller sent them. */
module HaView {
  import opened Ha
  import opened HaRuns

  /** A master asks for the master role, a slave for the slave role, and any other node for the equal one. */
  predicate Fits(role: Role, state: HaState) {
    && (role == RoleMaster <==> state == Master)
    && (role == RoleSlave <==> state == Slave)
    && (role == RoleEqual <==> state !in {Master, Slave})
  }

  /** The last request of a log. */
  ghost predicate LastClaim(log: seq<Out>, i: int) {
    0 <= i < |log| && log[i].Claim? && forall j :: i < j < |log| ==> !log[j].Claim?
  }

  /** If the log has a request, the last one has the role and the id of the node. */
  ghost predicate Shown(log: seq<Out>, n: Node) {
    forall i :: LastClaim(log, i) ==> Fits(log[i].role, n.state) && log[i].gen == n.gen
  }

  ghost predicate Silent(out: seq<Out>) {
    forall i :: 0 <= i < |out| ==> !out[i].Claim?
  }

  /** An update shows the new role and id, or changes neither and requests nothing. */
  ghost predicate Shows(n: Node, r: (Node, seq<Out>)) {
    Shown(r.1, r.0) && (Silent(r.1) ==> r.0.state == n.state && r.0.gen == n.gen)
  }

  /** The last request of two logs is the second's, if it has one. */
  lemma LastOfBoth(a: seq<Out>, b: seq<Out>, i: int)
    requires LastClaim(a + b, i)
    ensures if i < |a| then LastClaim(a, i) && Silent(b) else LastClaim(b, i - |a|)
  {
    var o := a + b;
    assert forall j :: 0 <= j < |o| ==> o[j] == if j < |a| then a[j] else b[j - |a|];
    if i < |a| {
      forall j | 0 <= j < |b| ensures !b[j].Claim? {
        assert o[|a| + j] == b[j];
      }
    } else {
      forall j | i - |a| < j < |b| ensures !b[j].Claim? {
        assert o[|a| + j] == b[j];
      }
    }
  }

  /** What was shown before and what an update shows are shown together. */
  lemma StillShown(log: seq<Out>, n: Node, r: (Node, seq<Out>))
    requires Shown(log, n) && Shows(n, r)
    ensures Shown(log + r.1, r.0)
  {
    hide Fits;
    forall i | LastClaim(log + r.1, i) ensures Fits((log + r.1)[i].role, r.0.state) && (log + r.1)[i].gen == r.0.gen {
      LastOfBoth(log, r.1, i);
    }
  }

  lemma ShowsTwice(n: Node, r: (Node, seq<Out>), m: Node, r2: (Node, seq<Out>))
    requires Shows(n, r) && m.state == r.0.state && m.gen == r.0.gen && Shows(m, r2)
    ensures Shows(n, (r2.0, r.1 + r2.1))
  {
    assert Shown(r.1, m);
    StillShown(r.1, m, r2);
    if Silent(r.1 + r2.1) {
      assert forall i :: 0 <= i < |r.1| ==> (r.1 + r2.1)[i] == r.1[i];
      assert forall i :: 0 <= i < |r2.1| ==> (r.1 + r2.1)[|r.1| + i] == r2.1[i];
    }
    hide Shown;
  }

  lemma ViewShows(n: Node, m: Node, onTurn: bool)
    ensures Shows(n, (m, View(m, onTurn)))
  {
    assert View(m, onTurn)[0].Claim?;
  }

  lemma StayShows(n: Node, m: Node)
    requires n.state == m.state && n.gen == m.gen
    ensures Shows(n, (m, []))
  {
  }

  lemma SameShows(n: Node, r: (Node, seq<Out>), m: Node)
    requires Shows(n, r) && r.0.state == m.state && r.0.gen == m.gen
    ensures Shows(n, (m, r.1))
  {
  }

  lemma SendShows(n: Node, dead: bool, rnd: nat)
    ensures Shows(n, Drop(n, rnd)) && Shows(n, Send(n, dead, rnd)) && Shows(n, Clash(n)) && Shows(n, Elect(n))
  {
    var tell := (n, [Tell(StateMsg(n))]);
    assert Shows(n, tell);
    hide Shows, View;
    ViewShows(n, Drop(n, rnd).0, false);
    ShowsTwice(n, tell, n, Drop(n, rnd));
    ViewShows(n, Clash(n).0, false);
    BecomeShows(n, Master);
    BecomeShows(n, Slave);
  }

  lemma BecomeShows(n: Node, s: HaState)
    requires s == Master || s == Slave
    ensures Shows(n, Become(n, s))
  {
    hide Shows;
    ViewShows(n, Become(n, s).0, true);
  }

  lemma ConnectShows(n: Node, dead: bool, rnd: nat)
    ensures Shows(n, Connect(n, dead, rnd))
  {
    hide Shows, Send;
    var c := n.(state := Connected);
    var r := Send(c, dead, rnd);
    SendShows(c, dead, rnd);
    ViewShows(r.0, r.0, false);
    ShowsTwice(c, r, r.0, (r.0, View(r.0, false)));
    Asks(n, c, (r.0, r.1 + View(r.0, false)));
  }

  /** An update that ends in a request shows it whatever the node was. */
  lemma Asks(n: Node, c: Node, r: (Node, seq<Out>))
    requires Shows(c, r) && r.1 != [] && r.1[|r.1| - 1].Claim?
    ensures Shows(n, r)
  {
  }

  lemma TurnShows(n: Node, s: HaState, dead: bool, rnd: nat)
    requires s != NoHa
    ensures Shows(n, Turn(n, s, dead, rnd))
  {
    hide Shows, Drop, Connect, Clash, Become;
    SendShows(n, dead, rnd);
    ConnectShows(n, dead, rnd);
    BecomeShows(n, Master);
    BecomeShows(n, Slave);
  }

  lemma TickShows(n: Node, e: Event)
    requires e.Tick?
    ensures Shows(n, OnTick(n, e))
  {
    hide Shows, Send, Elect, Drop, Connect, Become;
    var r := Send(n, e.dead, e.rnd);
    SendShows(n, e.dead, e.rnd);
    StayShows(n, n);
    match n.state
    case None => ConnectShows(n, e.dead, e.rnd);
    case Connected =>
      SendShows(r.0, false, 0);
      ShowsTwice(n, r, r.0, Elect(r.0));
    case Slave =>
      var b := if TakesOver(n, e) then Become(n, Master) else (n, []);
      BecomeShows(n, Master);
      SendShows(b.0, e.dead, e.rnd);
      ShowsTwice(n, b, b.0, Send(b.0, e.dead, e.rnd));
    case Conflict =>
      var n2 := r.0.(retries := r.0.retries + 1);
      SendShows(n2, false, e.rnd);
      ShowsTwice(n, r, n2, Drop(n2, e.rnd));
      SameShows(n, r, n2);
    case _ =>
  }

  lemma AdoptShows(n: Node, m: Node, gen: nat)
    requires n.state == m.state && n.gen == m.gen
    ensures Shows(n, Adopt(m, gen))
  {
    ViewShows(n, m.(gen := gen), false);
    StayShows(n, m);
  }

  lemma RcvShows(n: Node, e: Event)
    requires e.Rcv?
    ensures Shows(n, OnRcv(n, e))
  {
    hide Shows, Adopt;
    StayShows(n, n);
    var n0 := n.(peerSysid := e.m.sysid, peerState := e.m.state);
    var r := Adopt(n0, e.m.gen);
    AdoptShows(n, n0, e.m.gen);
    var r2 := React(r.0, e.m);
    SendShows(r.0, false, 0);
    StayShows(r.0, r.0);
    StayShows(r.0, r.0.(conflict := false));
    ShowsTwice(n, r, r.0, r2);
    SameShows(n, (r2.0, r.1 + r2.1), r2.0.(heartbeat := e.now));
  }

  lemma StepShows(n: Node, e: Event)
    ensures Shows(n, Step(n, e))
  {
    hide Shows, OnTick, OnRcv, Adopt, Drop;
    match e
    case Tick(_, _, _, _) => TickShows(n, e);
    case Rcv(_, _) => RcvShows(n, e);
    case Lost(rnd) => SendShows(n, false, rnd);
    case Joins => ViewShows(n, n, false);
    case RoleReply(gen) =>
      AdoptShows(n, n, gen);
      StayShows(n, n);
  }

  ghost predicate AllShown(w: World) {
    WellFormed(w) && forall i: Side :: Shown(w.logs[i], w.nodes[i])
  }

  lemma ActShows(w: World, i: Side, e: Event)
    requires AllShown(w)
    ensures AllShown(Act(w, i, e))
  {
    hide Shown, Shows, Step;
    StepShows(w.nodes[i], e);
    StillShown(w.logs[i], w.nodes[i], Step(w.nodes[i], e));
  }

  lemma {:induction false} RunShows(s: World, acts: seq<(Side, Event)>, r: World, ok: (Node, Event) -> bool)
    requires AllShown(s) && Run(s, acts, r, ok)
    ensures AllShown(r)
    decreases |acts|
  {
    hide AllShown, Act, Enabled;
    if acts != [] {
      var (i, e) := acts[0];
      ActShows(s, i, e);
      RunShows(Act(s, i, e), acts[1..], r, ok);
    }
  }

  /**
   In every run, wrap-around included, the last role request a controller sent to the switches asks for the
   role of its state, with its id: what the switches were last told is what the controller is.
   */
  lemma SwitchesKnow(s: World, acts: seq<(Side, Event)>, r: World, ok: (Node, Event) -> bool)
    requires Start(s) && Run(s, acts, r, ok)
    ensures WellFormed(r)
    ensures forall c: Side, i :: LastClaim(r.logs[c], i) ==>
              var claim, n := r.logs[c][i], r.nodes[c];
              && (claim.role == RoleMaster <==> n.state == Master) && (claim.role == RoleSlave <==> n.state == Slave)
              && claim.gen == n.gen
  {
    assert AllShown(s);
    RunShows(s, acts, r, ok);
    hide Run, Start;
  }

  // ---------- One tick and one reply ----------

  /** The node's state after a tick, from its state and what it knows of the peer. */
  ghost predicate TickLeads(n: Node, e: Event, n': Node)
    requires e.Tick?
  {
    match n.state
    case None => n'.state == if n.hasPeer && e.connects && !e.dead then Connected else None
    case Connected =>
      n'.state == if n.peerState == None || n.peerSysid == n.sysid then Conflict
                  else if n.peerSysid < n.sysid then Slave else Master
    case Master => n'.state == if e.dead then None else Master
    case Slave => n'.state == if e.dead then None else if e.now > n.heartbeat + 10 then Master else Slave
    case Conflict =>
      var restart := n.retries >= 5 && n.peerState == Conflict;
      && n'.state == (if e.dead || restart then None else Conflict)
      && (!e.dead && !restart ==> n'.retries == n.retries + 1)
      && (!e.dead && restart ==> n'.retries == 0)
      && n'.sysid == if e.dead || restart then e.rnd else n.sysid
    case NoHa => n' == n
  }

  lemma TickIs(n: Node, e: Event)
    requires e.Tick?
    ensures TickLeads(n, e, OnTick(n, e).0)
    ensures n.state == Slave && e.now > n.heartbeat + 10 ==> Claim(RoleMaster, Next(n.gen), true) in OnTick(n, e).1
  {
    if TakesOver(n, e) {
      assert Become(n, Master).1[0] == Claim(RoleMaster, Next(n.gen), true);
    }
  }
}
