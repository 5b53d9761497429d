/** The two-controller role protocol: one node's steps. */
module Ha {

  const TAKEOVER_TIMEO := 10
  const MAX_RETRIES := 5
  const GEN_MAX := 0xFFFF_FFFF_FFFF_FFFF

  datatype HaState = None | Connected | Master | Slave | Conflict | NoHa

  datatype Role = RoleEqual | RoleMaster | RoleSlave

  /** What a node tells its peer. */
  datatype Msg = Msg(sysid: nat, gen: nat, state: HaState)

  /** What a node sends: its state to the peer, or a role request to every switch. */
  datatype Out =
    | Tell(m: Msg)
    | Claim(role: Role, gen: nat, onTurn: bool) // onTurn: issued on becoming master or slave

  datatype Node = Node(state: HaState, sysid: nat, peerSysid: nat, peerState: HaState, gen: nat, retries: nat,
                       conflict: bool, heartbeat: int, hasPeer: bool)

  /** Timer ticks, messages from the peer, a switch registering or replying about its role, and the connection dying. */
  datatype Event =
    | Tick(now: int, connects: bool, dead: bool, rnd: nat)
    | Rcv(m: Msg, now: int)
    | Joins
    | RoleReply(gen: nat)
    | Lost(rnd: nat)

  function GenOf(o: Out): nat {
    match o
    case Tell(m) => m.gen
    case Claim(_, g, _) => g
  }

  function RoleOf(s: HaState): Role {
    match s
    case Master => RoleMaster
    case Slave => RoleSlave
    case _ => RoleEqual
  }

  function Next(gen: nat): nat {
    (gen + 1) % (GEN_MAX + 1)
  }

  function StateMsg(n: Node): Msg {
    Msg(n.sysid, n.gen, if n.hasPeer then n.state else NoHa)
  }

  function View(n: Node, onTurn: bool): seq<Out> {
    [Claim(RoleOf(n.state), n.gen, onTurn)]
  }

  /** Back to the start: a role is forgotten with its system id, a conflict draws a new one. */
  function Drop(n: Node, rnd: nat): (Node, seq<Out>) {
    var sysid := match n.state
                 case Slave => 0
                 case Master => 0
                 case Conflict => rnd
                 case _ => n.sysid;
    var n' := n.(state := None, sysid := sysid, retries := 0);
    (n', View(n', false))
  }

  function Send(n: Node, dead: bool, rnd: nat): (Node, seq<Out>) {
    if dead then
      var (n', out) := Drop(n, rnd);
      (n', [Tell(StateMsg(n))] + out)
    else (n, [Tell(StateMsg(n))])
  }

  function Become(n: Node, s: HaState): (Node, seq<Out>)
    requires s == Master || s == Slave
  {
    var n' := n.(state := s, gen := Next(n.gen));
    (n', View(n', true))
  }

  function Clash(n: Node): (Node, seq<Out>) {
    var n' := n.(state := Conflict, conflict := true);
    (n', View(n', false))
  }

  function Connect(n: Node, dead: bool, rnd: nat): (Node, seq<Out>) {
    var (n', out) := Send(n.(state := Connected), dead, rnd);
    (n', out + View(n', false))
  }

  function Turn(n: Node, s: HaState, dead: bool, rnd: nat): (Node, seq<Out>)
    requires s != NoHa
  {
    if s == None then Drop(n, rnd)
    else if s == Connected then Connect(n, dead, rnd)
    else if s == Conflict then Clash(n)
    else Become(n, s)
  }

  /** Choosing a role: the smaller system id is master. The choice goes on even if the send just failed. */
  function Elect(n: Node): (Node, seq<Out>) {
    if n.peerState != None && n.peerSysid < n.sysid then Become(n, Slave)
    else if n.peerState != None && n.peerSysid > n.sysid then Become(n, Master)
    else Clash(n)
  }

  predicate TakesOver(n: Node, e: Event) {
    e.Tick? && n.state == Slave && n.heartbeat + TAKEOVER_TIMEO < e.now
  }

  function OnTick(n: Node, e: Event): (Node, seq<Out>)
    requires e.Tick?
  {
    match n.state
    case None => if n.hasPeer && e.connects then Connect(n, e.dead, e.rnd) else (n, [])
    case Connected =>
      var (n1, o1) := Send(n, e.dead, e.rnd);
      var (n2, o2) := Elect(n1);
      (n2, o1 + o2)
    case Master => Send(n, e.dead, e.rnd)
    case Slave =>
      var (n1, o1) := if TakesOver(n, e) then Become(n, Master) else (n, []);
      var (n2, o2) := Send(n1, e.dead, e.rnd);
      (n2, o1 + o2)
    case Conflict =>
      var (n1, o1) := Send(n, e.dead, e.rnd);
      var n2 := n1.(retries := n1.retries + 1);
      if n1.retries >= MAX_RETRIES && n1.peerState == Conflict then
        var (n3, o3) := Drop(n2, e.rnd);
        (n3, o1 + o3)
      else (n2, o1)
    case NoHa => (n, [])
  }

  function Adopt(n: Node, gen: nat): (Node, seq<Out>) {
    if n.gen < gen then
      var n' := n.(gen := gen);
      (n', View(n', false))
    else (n, [])
  }

  predicate Clashes(n: Node, m: Msg) {
    || (m.state == Slave && n.state == Slave)
    || (m.state == Master && n.state == Master)
    || n.sysid == m.sysid
    || m.state == Conflict
  }

  function React(n: Node, m: Msg): (Node, seq<Out>) {
    if !Clashes(n, m) then (n.(conflict := false), [])
    else if !n.conflict then Clash(n)
    else (n, [])
  }

  function OnRcv(n: Node, e: Event): (Node, seq<Out>)
    requires e.Rcv?
  {
    if !n.hasPeer then (n, [])
    else
      var (n1, o1) := Adopt(n.(peerSysid := e.m.sysid, peerState := e.m.state), e.m.gen);
      var (n2, o2) := React(n1, e.m);
      (n2.(heartbeat := e.now), o1 + o2)
  }

  function Step(n: Node, e: Event): (Node, seq<Out>) {
    match e
    case Tick(_, _, _, _) => OnTick(n, e)
    case Rcv(_, _) => OnRcv(n, e)
    case Joins => (n, View(n, false))
    case RoleReply(gen) => if gen != GEN_MAX then Adopt(n, gen) else (n, [])
    case Lost(rnd) => Drop(n, rnd)
  }
}
