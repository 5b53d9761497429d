/** The HA handle as the source keeps it: fields that the handlers assign, tied to the protocol's steps. */
module HaHandle {
  import opened Ha
  import opened HaRuns
  import opened HaRoles
  import opened HaView

  lemma StillClimbs(log: seq<Out>, n: Node, r: (Node, seq<Out>))
    ensures Climbs(log) && Below(log, n.gen) && Rises(n, r) ==> Climbs(log + r.1) && Below(log + r.1, r.0.gen) && n.gen <= r.0.gen
  {
    if Climbs(log) && Below(log, n.gen) && Rises(n, r) {
      LogClimbs(log, n, r);
    }
  }

  lemma StillSeen(log: seq<Out>, n: Node, r: (Node, seq<Out>))
    requires Shows(n, r)
    ensures Shown(log, n) ==> Shown(log + r.1, r.0)
  {
    hide Shown, Shows;
    if Shown(log, n) {
      StillShown(log, n, r);
    }
  }

  lemma TurnRises(n: Node, s: HaState, dead: bool, rnd: nat)
    requires s != NoHa
    ensures n.gen < GEN_MAX ==> Rises(n, Turn(n, s, dead, rnd))
  {
    hide Rises;
    if n.gen < GEN_MAX {
      PartsRise(n, dead, rnd);
      ConnectRises(n, dead, rnd);
      BecomeRises(n);
    }
  }

  /** What is known of a timer step. */
  lemma TimerFacts(log: seq<Out>, n: Node, e: Event)
    requires e.Tick?
    ensures var (n', out) := OnTick(n, e);
            && (Climbs(log) && Below(log, n.gen) && n.gen < GEN_MAX ==> Climbs(log + out) && Below(log + out, n'.gen) && n.gen <= n'.gen)
            && (n'.state == Slave && !Redraws(n, e) ==> n.state == Slave || (n.peerState != None && n.peerSysid < n.sysid))
            && (n'.state == Master && !Returns(n, e) && !TakesOver(n, e) ==>
                  n.state == Master || (n.peerState != None && n.peerSysid > n.sysid))
  {
    assert Step(n, e) == OnTick(n, e);
    hide Rises, OnTick, Climbs, Below, Redraws, Returns;
    if n.gen < GEN_MAX {
      TickRises(n, e);
      StillClimbs(log, n, OnTick(n, e));
    }
    if !Redraws(n, e) {
      SlaveStep(n, e);
    }
    if !Returns(n, e) && !TakesOver(n, e) {
      MasterStep(n, e);
    }
    hide Step;
  }

  /** Both have the same role, or the same system id, or the peer is in conflict. */
  predicate Quarrels(n: Node, m: Msg) {
    (m.state in {Master, Slave} && m.state == n.state) || m.sysid == n.sysid || m.state == Conflict
  }

  /** And of a message from the peer. */
  lemma RcvFacts(log: seq<Out>, n: Node, e: Event)
    requires e.Rcv?
    ensures var (n', out) := OnRcv(n, e);
            && (Climbs(log) && Below(log, n.gen) ==> Climbs(log + out) && Below(log + out, n'.gen))
            && (n'.state != n.state <==> n.hasPeer && Quarrels(n, e.m) && !n.conflict && n.state != Conflict)
            && (n.hasPeer ==> n'.conflict == Quarrels(n, e.m) && n'.peerState == e.m.state)
            && (n'.state == n.state || n'.state == Conflict)
            && n'.hasPeer == n.hasPeer
            && (n.hasPeer ==> n'.gen == (if n.gen < e.m.gen then e.m.gen else n.gen) && n'.peerSysid == e.m.sysid && n'.heartbeat == e.now)
  {
    hide Rises, Climbs, Below;
    RcvRises(n, e);
    StillClimbs(log, n, OnRcv(n, e));
  }

  /** The node as the source keeps it: one handle whose fields the handlers assign. */
  class HaNode {
    var state: HaState
    var sysid: nat
    var peerSysid: nat
    var peerState: HaState
    var gen: nat
    var retries: nat
    var conflict: bool
    var heartbeat: int
    var hasPeer: bool
    var out: seq<Out>

    ghost function State(): Node
      reads this
    {
      Node(state, sysid, peerSysid, peerState, gen, retries, conflict, heartbeat, hasPeer)
    }

    /** All this node ever sent: ids climb, roles are claimed above everything before, and none exceeds its own id. */
    ghost predicate Valid()
      reads this
    {
      Climbs(out) && Below(out, gen)
    }

    /** The switches were last asked for the role the node has, with its id, if they were asked at all. */
    ghost predicate Seen()
      reads this
    {
      Shown(out, State())
    }

    /** What an update did: the new state and what was sent after what had been sent before. */
    twostate predicate Did(r: (Node, seq<Out>))
      reads this
    {
      State() == r.0 && out == old(out) + r.1
    }

    method UpdateView(onTurn: bool)
      modifies this`out
      ensures out == old(out) + View(State(), onTurn)
    {
      out := out + [Claim(RoleOf(state), gen, onTurn)];
    }

    method ToNone(rnd: nat)
      modifies this
      ensures Did(Drop(old(State()), rnd))
      ensures state == None && retries == 0 && gen == old(gen)
      ensures sysid == if old(state) in {Master, Slave} then 0 else if old(state) == Conflict then rnd else old(sysid)
      ensures (old(Valid()) ==> Valid()) && (old(Seen()) ==> Seen())
    {
      hide Shows, Shown;
      ghost var n, log := State(), out;
      SendShows(n, false, rnd);
      StillSeen(log, n, Drop(n, rnd));
      retries := 0;
      if state == Slave || state == Master {
        sysid := 0;
      } else if state == Conflict {
        sysid := rnd;
      }
      state := None;
      UpdateView(false);
      PartsRise(n, false, rnd);
      StillClimbs(log, n, Drop(n, rnd));
    }

    /** Tells the peer; nothing the node ever sent is above its id, and a dead connection costs it its role. */
    method SendState(dead: bool, rnd: nat)
      modifies this
      ensures Did(Send(old(State()), dead, rnd))
      ensures (old(Valid()) ==> Valid()) && (old(Seen()) ==> Seen())
      ensures |out| > |old(out)| && out[|old(out)|] == old(Tell(Msg(sysid, gen, if hasPeer then state else NoHa))) && gen == old(gen)
      ensures if dead then state == None && (old(state) in {Master, Slave} ==> sysid == 0) else State() == old(State())
    {
      hide Climbs, Below, Rises, Shows, Shown;
      ghost var n, log := State(), out;
      SendShows(n, dead, rnd);
      StillSeen(log, n, Send(n, dead, rnd));
      out := out + [Tell(Msg(sysid, gen, if hasPeer then state else NoHa))];
      if dead {
        ToNone(rnd);
      }
      PartsRise(n, dead, rnd);
      StillClimbs(log, n, Send(n, dead, rnd));
    }

    /** Changes state. A role is claimed, by its name, with an id above everything the node has ever sent. */
    method Transition(s: HaState, dead: bool, rnd: nat)
      requires s != NoHa
      modifies this
      ensures Did(Turn(old(State()), s, dead, rnd))
      ensures state == s || (s == Connected && dead && state == None)
      ensures old(Valid() && gen < GEN_MAX) ==> Valid() && old(gen) <= gen
      ensures old(Valid() && gen < GEN_MAX) && s in {Master, Slave} ==>
                forall i :: 0 <= i < |old(out)| ==> GenOf(old(out)[i]) < gen
      ensures s == Master ==> out == old(out) + [Claim(RoleMaster, gen, true)]
      ensures s == Slave ==> out == old(out) + [Claim(RoleSlave, gen, true)]
      ensures s !in {Master, Slave} ==> gen == old(gen)
      ensures s in {Master, Slave} && old(gen) <= GEN_MAX ==> gen == if old(gen) == 0xFFFF_FFFF_FFFF_FFFF then 0 else old(gen) + 1
      ensures old(Seen()) ==> Seen()
    {
      hide Climbs, Rises, Shows, Shown;
      ghost var n, log := State(), out;
      TurnShows(n, s, dead, rnd);
      StillSeen(log, n, Turn(n, s, dead, rnd));
      if s == None {
        ToNone(rnd);
      } else if s == Connected {
        state := s;
        SendState(dead, rnd);
        UpdateView(false);
      } else if s == Conflict {
        state, conflict := s, true;
        UpdateView(false);
      } else {
        state, gen := s, (gen + 1) % (GEN_MAX + 1);
        UpdateView(true);
      }
      TurnRises(n, s, dead, rnd);
      StillClimbs(log, n, Turn(n, s, dead, rnd));
    }

    method ChooseRole(dead: bool, rnd: nat)
      modifies this
      ensures Did(Elect(old(State())))
      ensures old(Valid() && gen < GEN_MAX) ==> Valid() && old(gen) <= gen
      ensures old(Seen()) ==> Seen()
      ensures state == if old(peerState == None || peerSysid == sysid) then Conflict else if old(peerSysid < sysid) then Slave else Master
    {
      hide Climbs, Below, Shown;
      if peerState != None {
        if peerSysid < sysid {
          Transition(Slave, dead, rnd);
        } else if peerSysid > sysid {
          Transition(Master, dead, rnd);
        } else {
          Transition(Conflict, dead, rnd);
        }
      } else {
        Transition(Conflict, dead, rnd);
      }
    }

    /** The timer. A slave has heard of a smaller id, a master of a larger one, but for take-overs and lost connections. */
    method Timer(now: int, connects: bool, dead: bool, rnd: nat)
      modifies this
      ensures Did(OnTick(old(State()), Tick(now, connects, dead, rnd)))
      ensures old(Valid() && gen < GEN_MAX) ==> Valid() && old(gen) <= gen
      ensures var e := Tick(now, connects, dead, rnd);
              && (state == Slave && !Redraws(old(State()), e) ==> old(state == Slave || (peerState != None && peerSysid < sysid)))
              && (state == Master && !Returns(old(State()), e) && !TakesOver(old(State()), e) ==>
                    old(state == Master || (peerState != None && peerSysid > sysid)))
      ensures TickLeads(old(State()), Tick(now, connects, dead, rnd), State())
      ensures old(Seen()) ==> Seen()
    {
      hide OnTick, Climbs, Below, Rises, Redraws, Returns, TakesOver, TickLeads, Shown, Shows;
      TickIs(State(), Tick(now, connects, dead, rnd));
      TickShows(State(), Tick(now, connects, dead, rnd));
      StillSeen(out, State(), OnTick(State(), Tick(now, connects, dead, rnd)));
      TimerFacts(out, State(), Tick(now, connects, dead, rnd));
      StateMachine(now, connects, dead, rnd);
    }

    method StateMachine(now: int, connects: bool, dead: bool, rnd: nat)
      modifies this
      ensures Did(OnTick(old(State()), Tick(now, connects, dead, rnd)))
    {
      hide Drop, Send, Become, Clash, Connect, Elect, Climbs, Below, Rises, Shown;
      match state {
        case None =>
          if hasPeer && connects {
            Transition(Connected, dead, rnd);
          }
        case Connected =>
          SendState(dead, rnd);
          ChooseRole(dead, rnd);
        case Master =>
          SendState(dead, rnd);
        case Slave =>
          if heartbeat + TAKEOVER_TIMEO < now {
            Transition(Master, dead, rnd);
          }
          SendState(dead, rnd);
        case Conflict =>
          SendState(dead, rnd);
          retries := retries + 1;
          if retries - 1 >= MAX_RETRIES && peerState == Conflict {
            Transition(None, dead, rnd);
          }
        case NoHa =>
      }
    }

    /** The id becomes the larger of the two, and the switches are told exactly if it grew. */
    method UpdateGen(g: nat)
      modifies this
      ensures Did(Adopt(old(State()), g))
      ensures gen == (if old(gen) < g then g else old(gen)) && (out != old(out) <==> old(gen) < g)
      ensures (old(Valid()) ==> Valid()) && (old(Seen()) ==> Seen())
    {
      hide Climbs, Below, Rises, Shows, Shown;
      ghost var n, log := State(), out;
      AdoptShows(n, n, g);
      StillSeen(log, n, Adopt(n, g));
      if gen < g {
        gen := g;
        UpdateView(false);
      }
      AdoptRises(n, n, g);
      StillClimbs(log, n, Adopt(n, g));
    }

    /** A switch replies to a role request: its id is caught up with, unless it is the one that stands for none. */
    method RoleReplied(g: nat)
      modifies this
      ensures Did(Step(old(State()), RoleReply(g)))
      ensures gen == if g != 0xFFFF_FFFF_FFFF_FFFF && old(gen) < g then g else old(gen)
      ensures (old(Valid()) ==> Valid()) && (old(Seen()) ==> Seen())
    {
      hide Climbs, Below, Shown;
      if g != GEN_MAX && gen < g {
        UpdateGen(g);
      }
    }

    /** A switch that registers is told the role and id of the moment; the claim takes no role. */
    method SwitchJoins()
      modifies this`out
      ensures Did(Step(old(State()), Joins))
      ensures |out| == |old(out)| + 1 && out[|old(out)|].Claim? && Fits(out[|old(out)|].role, state) && out[|old(out)|].gen == gen
      ensures (old(Valid()) ==> Valid()) && (old(Seen()) ==> Seen())
    {
      ViewShows(State(), State(), false);
      StillSeen(out, State(), (State(), View(State(), false)));
      hide Shown, Shows;
      UpdateView(false);
    }

    method CheckClash(m: Msg)
      requires peerSysid == m.sysid && peerState == m.state
      modifies this
      ensures Did(React(old(State()), m))
    {
      hide Clash, Climbs, Below, Shown;
      if (peerState == Slave && state == Slave) || (peerState == Master && state == Master)
         || sysid == peerSysid || peerState == Conflict {
        if !conflict {
          Transition(Conflict, false, 0);
        }
      } else {
        conflict := false;
      }
    }

    /** A message from the peer: its id is caught up with, and a clash not yet known puts the node in conflict. */
    method Receive(m: Msg, now: int)
      modifies this
      ensures Did(OnRcv(old(State()), Rcv(m, now)))
      ensures (old(Valid()) ==> Valid()) && (old(Seen()) ==> Seen())
      ensures hasPeer ==> gen == (if old(gen) < m.gen then m.gen else old(gen)) && peerSysid == m.sysid && heartbeat == now
      ensures hasPeer ==> (state != old(state) <==> Quarrels(old(State()), m) && !old(conflict) && old(state) != Conflict)
      ensures hasPeer ==> conflict == Quarrels(old(State()), m) && peerState == m.state
      ensures state == old(state) || state == Conflict
    {
      hide Climbs, Below, Rises, Shows, Shown;
      ghost var n, log, e := State(), out, Rcv(m, now);
      RcvShows(n, e);
      StillSeen(log, n, OnRcv(n, e));
      RcvFacts(log, n, e);
      hide React;
      if !hasPeer {
        return;
      }
      peerSysid, peerState := m.sysid, m.state;
      UpdateGen(m.gen);
      CheckClash(m);
      heartbeat := now;
    }
  }
}
