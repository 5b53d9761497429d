/** Two controllers and every order in which their messages can arrive. */
module HaRuns {
  import opened Ha

  type Side = i: int | 0 <= i < 2 witness 0

  function Peer(i: Side): Side { 1 - i }

  /** The two nodes and all each has sent, oldest first. A message once sent may arrive late, twice or never. */
  datatype World = World(nodes: seq<Node>, logs: seq<seq<Out>>)

  ghost predicate WellFormed(w: World) {
    |w.nodes| == 2 && |w.logs| == 2
  }

  ghost predicate Enabled(w: World, i: Side, e: Event)
    requires WellFormed(w)
  {
    e.Rcv? ==> Tell(e.m) in w.logs[Peer(i)]
  }

  function Act(w: World, i: Side, e: Event): World
    requires WellFormed(w)
  {
    var (n, out) := Step(w.nodes[i], e);
    World(w.nodes[i := n], w.logs[i := w.logs[i] + out])
  }

  /** `acts` leads from `s` to `r`, and before each of its steps `ok` holds. */
  ghost predicate Run(s: World, acts: seq<(Side, Event)>, r: World, ok: (Node, Event) -> bool)
    decreases |acts|
  {
    WellFormed(s) &&
    if acts == [] then s == r
    else
      var (i, e) := acts[0];
      Enabled(s, i, e) && ok(s.nodes[i], e) && Run(Act(s, i, e), acts[1..], r, ok)
  }

  ghost predicate Fresh(n: Node) {
    n.state == None && n.peerState == None && n.sysid != 0 && !n.conflict && n.hasPeer
  }

  ghost predicate Start(w: World) {
    WellFormed(w) && w.logs == [[], []] && Fresh(w.nodes[0]) && Fresh(w.nodes[1])
  }

  // ---------- Generation ids ----------

  /** The node takes a role on this event. */
  predicate TakesRole(n: Node, e: Event) {
    TakesOver(n, e) || (e.Tick? && n.state == Connected && n.peerState != None && n.peerSysid != n.sysid)
  }

  /** The id goes down exactly when a role is taken at the last id there is. */
  lemma GenFallsIffWraps(n: Node, e: Event)
    requires n.gen <= GEN_MAX
    ensures Step(n, e).0.gen < n.gen <==> TakesRole(n, e) && n.gen == GEN_MAX
  {
  }

  /** No id in `log` is above a later one, and a role is claimed above everything sent before. */
  ghost predicate Climbs(log: seq<Out>) {
    forall i, j :: 0 <= i < j < |log| ==>
      GenOf(log[i]) <= GenOf(log[j]) && (log[j].Claim? && log[j].onTurn ==> GenOf(log[i]) < GenOf(log[j]))
  }

  ghost predicate Below(log: seq<Out>, gen: nat) {
    forall i :: 0 <= i < |log| ==> GenOf(log[i]) <= gen
  }

  /** What an update sends climbs from the old id to the new one, and role claims are above the old one. */
  ghost predicate Rises(n: Node, r: (Node, seq<Out>)) {
    && n.gen <= r.0.gen && Climbs(r.1) && Below(r.1, r.0.gen)
    && forall i :: 0 <= i < |r.1| ==> n.gen <= GenOf(r.1[i]) && (r.1[i].Claim? && r.1[i].onTurn ==> n.gen < GenOf(r.1[i]))
  }

  lemma RisesTwice(n: Node, r1: (Node, seq<Out>), m: Node, r2: (Node, seq<Out>))
    requires Rises(n, r1) && m.gen == r1.0.gen && Rises(m, r2)
    ensures Rises(n, (r2.0, r1.1 + r2.1))
  {
    var o := r1.1 + r2.1;
    assert forall i :: 0 <= i < |o| ==> o[i] == if i < |r1.1| then r1.1[i] else r2.1[i - |r1.1|];
  }

  lemma PartsRise(n: Node, dead: bool, rnd: nat)
    ensures Rises(n, Drop(n, rnd)) && Rises(n, Send(n, dead, rnd)) && Rises(n, Clash(n))
  {
  }

  lemma ConnectRises(n: Node, dead: bool, rnd: nat)
    ensures Rises(n, Connect(n, dead, rnd))
  {
    var n1 := n.(state := Connected);
    PartsRise(n1, dead, rnd);
    var r := Send(n1, dead, rnd);
    assert Rises(r.0, (r.0, View(r.0, false)));
    RisesTwice(n, r, r.0, (r.0, View(r.0, false)));
    hide Rises, Send;
  }

  lemma BecomeRises(n: Node)
    requires n.gen < GEN_MAX
    ensures Rises(n, Become(n, Master)) && Rises(n, Become(n, Slave)) && Rises(n, Elect(n))
  {
    PartsRise(n, false, 0);
  }

  lemma SendKeepsGen(n: Node, dead: bool, rnd: nat)
    ensures Send(n, dead, rnd).0.gen == n.gen
  {
  }

  lemma TickRises(n: Node, e: Event)
    requires n.gen < GEN_MAX && e.Tick?
    ensures Rises(n, OnTick(n, e))
  {
    hide Rises, Send, Elect, Drop, Connect;
    var r := Send(n, e.dead, e.rnd);
    SendKeepsGen(n, e.dead, e.rnd);
    PartsRise(n, e.dead, e.rnd);
    match n.state
    case None =>
      ConnectRises(n, e.dead, e.rnd);
      StayRises(n, n);
    case Connected =>
      BecomeRises(r.0);
      RisesTwice(n, r, r.0, Elect(r.0));
    case Slave =>
      var b := if TakesOver(n, e) then Become(n, Master) else (n, []);
      BecomeRises(n);
      StayRises(n, n);
      PartsRise(b.0, e.dead, e.rnd);
      RisesTwice(n, b, b.0, Send(b.0, e.dead, e.rnd));
    case Conflict =>
      var n2 := r.0.(retries := r.0.retries + 1);
      PartsRise(n2, e.dead, e.rnd);
      RisesTwice(n, r, n2, Drop(n2, e.rnd));
      SameGenRises(n, r, n2);
    case _ =>
      StayRises(n, n);
  }

  lemma StayRises(n: Node, m: Node)
    requires n.gen == m.gen
    ensures Rises(n, (m, []))
  {
  }

  lemma SameGenRises(n: Node, r: (Node, seq<Out>), m: Node)
    requires Rises(n, r) && r.0.gen == m.gen
    ensures Rises(n, (m, r.1))
  {
  }

  lemma RcvRises(n: Node, e: Event)
    requires e.Rcv?
    ensures Rises(n, OnRcv(n, e))
  {
    var n0 := n.(peerSysid := e.m.sysid, peerState := e.m.state);
    AdoptRises(n, n0, e.m.gen);
    StayRises(n, n);
    hide Rises, Adopt, React;
    var r := Adopt(n0, e.m.gen);
    var r2 := React(r.0, e.m);
    ReactRises(r.0, e.m);
    RisesTwice(n, r, r.0, r2);
    SameGenRises(n, (r2.0, r.1 + r2.1), r2.0.(heartbeat := e.now));
  }

  lemma AdoptRises(n: Node, m: Node, gen: nat)
    requires n.gen == m.gen
    ensures Rises(n, Adopt(m, gen))
  {
  }

  lemma ReactRises(n: Node, m: Msg)
    ensures Rises(n, React(n, m))
  {
    PartsRise(n, false, 0);
  }

  lemma StepRises(n: Node, e: Event)
    requires n.gen < GEN_MAX
    ensures Rises(n, Step(n, e))
  {
    match e
    case Tick(_, _, _, _) => TickRises(n, e);
    case Rcv(_, _) => RcvRises(n, e);
    case Lost(rnd) => PartsRise(n, false, rnd);
    case Joins =>
    case RoleReply(gen) =>
      AdoptRises(n, n, gen);
      StayRises(n, n);
  }

  /** Below wrap-around, in every run each controller's log climbs and nothing in it is above its own id. */
  ghost predicate GenInv(w: World) {
    WellFormed(w) && forall i: Side :: Climbs(w.logs[i]) && Below(w.logs[i], w.nodes[i].gen)
  }

  lemma ActKeepsGenInv(w: World, i: Side, e: Event)
    requires GenInv(w) && w.nodes[i].gen < GEN_MAX
    ensures GenInv(Act(w, i, e)) && forall j: Side :: w.nodes[j].gen <= Act(w, i, e).nodes[j].gen
  {
    StepRises(w.nodes[i], e);
    var r := Step(w.nodes[i], e);
    hide Step;
    LogClimbs(w.logs[i], w.nodes[i], r);
  }

  lemma LogClimbs(log: seq<Out>, n: Node, r: (Node, seq<Out>))
    requires Climbs(log) && Below(log, n.gen) && Rises(n, r)
    ensures Climbs(log + r.1) && Below(log + r.1, r.0.gen)
  {
    var o := log + r.1;
    assert forall i :: 0 <= i < |o| ==> o[i] == if i < |log| then log[i] else r.1[i - |log|];
  }

  lemma {:induction false} ClimbRun(s: World, acts: seq<(Side, Event)>, r: World)
    requires GenInv(s) && Run(s, acts, r, (n: Node, e: Event) => n.gen < GEN_MAX)
    ensures GenInv(r) && forall j: Side :: s.nodes[j].gen <= r.nodes[j].gen
    decreases |acts|
  {
    if acts != [] {
      var (i, e) := acts[0];
      ActKeepsGenInv(s, i, e);
      ClimbRun(Act(s, i, e), acts[1..], r);
    }
  }

  /** The ids two controllers start with are whatever they last stored. */
  lemma RunClimbs(s: World, acts: seq<(Side, Event)>, r: World)
    requires Start(s) && Run(s, acts, r, (n: Node, e: Event) => n.gen < GEN_MAX)
    ensures GenInv(r) && forall j: Side :: s.nodes[j].gen <= r.nodes[j].gen
  {
    assert GenInv(s);
    ClimbRun(s, acts, r);
  }
}
