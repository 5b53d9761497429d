/** Which roles two controllers can hold at once. */
module HaRoles {
  import opened Ha
  import opened HaRuns

  ghost predicate Both(w: World, role: HaState)
    requires WellFormed(w)
  {
    w.nodes[0].state == role && w.nodes[1].state == role
  }

  /** A conflict is given up, and with it the system id: the only way to get a random one. */
  predicate Redraws(n: Node, e: Event) {
    n.state == Conflict
    && (e.Lost? || (e.Tick? && (e.dead || (n.retries >= MAX_RETRIES && n.peerState == Conflict))))
  }

  /** The node passes through the state NONE on this event. */
  predicate Returns(n: Node, e: Event) {
    || e.Lost?
    || Redraws(n, e)
    || (e.Tick? && e.dead && n.state in {Connected, Master, Slave})
    || (e.Tick? && e.dead && n.state == None && n.hasPeer && e.connects)
  }

  // ---------- Never two slaves ----------

  /** One step, as far as system ids and slaves go. */
  lemma SlaveStep(n: Node, e: Event)
    requires !Redraws(n, e)
    ensures var (n', out) := Step(n, e);
            && (n'.sysid == n.sysid || n'.sysid == 0)
            && (n'.state == Slave ==> n'.sysid == n.sysid && (n.state == Slave || (n.peerState != None && n.peerSysid < n.sysid)))
  {
  }

  /** What a node tells its peer carries the system id it had before the step, and is about itself. */
  lemma TellStep(n: Node, e: Event, m: Msg)
    ensures Tell(m) in Step(n, e).1 ==> m.sysid == n.sysid
  {
  }

  lemma PeerStep(n: Node, e: Event)
    ensures var n' := Step(n, e).0;
            && n'.hasPeer == n.hasPeer
            && if e.Rcv? && n.hasPeer then n'.peerSysid == e.m.sysid && n'.peerState == e.m.state
               else n'.peerSysid == n.peerSysid && n'.peerState == n.peerState
  {
  }

  /** `id` is the system id node `j` started with, or the zero it has had since it lost a role. */
  ghost predicate Known(w: World, init: seq<nat>, j: Side, id: nat)
    requires WellFormed(w) && |init| == 2
  {
    id == init[j] || (id == 0 && w.nodes[j].sysid == 0)
  }

  ghost predicate Heard(w: World, init: seq<nat>, i: Side)
    requires WellFormed(w) && |init| == 2
  {
    && Known(w, init, i, w.nodes[i].sysid)
    && (forall m :: Tell(m) in w.logs[i] ==> Known(w, init, i, m.sysid))
    && (w.nodes[i].peerState != None ==> Known(w, init, Peer(i), w.nodes[i].peerSysid))
  }

  ghost predicate SlaveOk(w: World, init: seq<nat>, i: Side)
    requires WellFormed(w) && |init| == 2
  {
    w.nodes[i].state == Slave ==> w.nodes[i].sysid != 0 && (init[i] > init[Peer(i)] || w.nodes[Peer(i)].sysid == 0)
  }

  ghost predicate SlaveInv(w: World, init: seq<nat>) {
    && WellFormed(w) && |init| == 2 && init[0] != 0 && init[1] != 0
    && Heard(w, init, 0) && Heard(w, init, 1) && SlaveOk(w, init, 0) && SlaveOk(w, init, 1)
  }

  lemma ActHeard(w: World, init: seq<nat>, i: Side, e: Event)
    requires SlaveInv(w, init) && Enabled(w, i, e) && !Redraws(w.nodes[i], e)
    ensures Heard(Act(w, i, e), init, i) && Heard(Act(w, i, e), init, Peer(i))
  {
    var w' := Act(w, i, e);
    var n := w.nodes[i];
    assert Heard(w, init, i) && Heard(w, init, Peer(i));
    SlaveStep(n, e);
    PeerStep(n, e);
    forall m | Tell(m) in w'.logs[i] ensures Known(w', init, i, m.sysid) {
      TellStep(n, e, m);
      hide Step;
    }
    hide Step;
  }

  lemma ActSlaveOk(w: World, init: seq<nat>, i: Side, e: Event)
    requires SlaveInv(w, init) && Enabled(w, i, e) && !Redraws(w.nodes[i], e)
    ensures SlaveOk(Act(w, i, e), init, i) && SlaveOk(Act(w, i, e), init, Peer(i))
  {
    SlaveStep(w.nodes[i], e);
    assert Heard(w, init, i) && Heard(w, init, Peer(i)) && SlaveOk(w, init, i) && SlaveOk(w, init, Peer(i));
    hide Step;
  }

  lemma {:induction false} SlaveRun(s: World, acts: seq<(Side, Event)>, r: World, init: seq<nat>)
    requires SlaveInv(s, init) && Run(s, acts, r, (n: Node, e: Event) => !Redraws(n, e))
    ensures SlaveInv(r, init)
    decreases |acts|
  {
    if acts != [] {
      var (i, e) := acts[0];
      ActHeard(s, init, i, e);
      ActSlaveOk(s, init, i, e);
      assert i == 0 || i == 1;
      hide Heard, SlaveOk, Act, Redraws, Enabled;
      SlaveRun(Act(s, i, e), acts[1..], r, init);
    }
  }

  /**
   However messages are delayed, lost, repeated or reordered, whatever connections die and whoever takes
   over: the two controllers are never both slave, unless one gave up a conflict and drew a new id.
   */
  lemma NeverBothSlave(s: World, acts: seq<(Side, Event)>, r: World)
    requires Start(s) && Run(s, acts, r, (n: Node, e: Event) => !Redraws(n, e))
    ensures WellFormed(r) && !Both(r, Slave)
  {
    var init := [s.nodes[0].sysid, s.nodes[1].sysid];
    assert SlaveInv(s, init);
    SlaveRun(s, acts, r, init);
  }

  // ---------- Never two masters ----------

  lemma MasterStep(n: Node, e: Event)
    requires !Returns(n, e) && !TakesOver(n, e)
    ensures var n' := Step(n, e).0;
            && n'.sysid == n.sysid
            && (n'.state == Master ==> n.state == Master || (n.peerState != None && n.peerSysid > n.sysid))
  {
  }

  ghost predicate MasterOk(w: World, init: seq<nat>, i: Side)
    requires WellFormed(w) && |init| == 2
  {
    && w.nodes[i].sysid == init[i]
    && (forall m :: Tell(m) in w.logs[i] ==> m.sysid == init[i])
    && (w.nodes[i].peerState != None ==> w.nodes[i].peerSysid == init[Peer(i)])
    && (w.nodes[i].state == Master ==> init[i] < init[Peer(i)])
  }

  ghost predicate MasterInv(w: World, init: seq<nat>) {
    WellFormed(w) && |init| == 2 && MasterOk(w, init, 0) && MasterOk(w, init, 1)
  }

  lemma ActMasterOk(w: World, init: seq<nat>, i: Side, e: Event)
    requires MasterInv(w, init) && Enabled(w, i, e) && !Returns(w.nodes[i], e) && !TakesOver(w.nodes[i], e)
    ensures MasterOk(Act(w, i, e), init, i) && MasterOk(Act(w, i, e), init, Peer(i))
  {
    var w' := Act(w, i, e);
    assert MasterOk(w, init, i) && MasterOk(w, init, Peer(i));
    MasterStep(w.nodes[i], e);
    PeerStep(w.nodes[i], e);
    forall m | Tell(m) in w'.logs[i] ensures m.sysid == init[i] {
      TellStep(w.nodes[i], e, m);
      hide Step;
    }
    hide Step;
  }

  lemma {:induction false} MasterRun(s: World, acts: seq<(Side, Event)>, r: World, init: seq<nat>)
    requires MasterInv(s, init) && Run(s, acts, r, (n: Node, e: Event) => !Returns(n, e) && !TakesOver(n, e))
    ensures MasterInv(r, init)
    decreases |acts|
  {
    if acts != [] {
      var (i, e) := acts[0];
      ActMasterOk(s, init, i, e);
      assert i == 0 || i == 1;
      hide MasterOk, Act, Returns, TakesOver, Enabled;
      MasterRun(Act(s, i, e), acts[1..], r, init);
    }
  }

  /** As long as nobody goes back to NONE and nobody takes over, the two are never both master. */
  lemma NeverBothMaster(s: World, acts: seq<(Side, Event)>, r: World)
    requires Start(s) && Run(s, acts, r, (n: Node, e: Event) => !Returns(n, e) && !TakesOver(n, e))
    ensures WellFormed(r) && !Both(r, Master)
  {
    var init := [s.nodes[0].sysid, s.nodes[1].sysid];
    assert MasterInv(s, init);
    MasterRun(s, acts, r, init);
  }

  // ---------- Exactly when there are two ----------

  /** The node turns master on this event, and stays it: it takes over, or it elects itself. */
  predicate TurnsMaster(n: Node, e: Event) {
    e.Tick? && ((TakesOver(n, e) && !e.dead) || (n.state == Connected && n.peerState != None && n.sysid < n.peerSysid))
  }

  /** The node turns slave on this event. */
  predicate TurnsSlave(n: Node, e: Event) {
    e.Tick? && n.state == Connected && n.peerState != None && n.peerSysid < n.sysid
  }

  /** The step is one with which a node takes a role its peer has. */
  ghost predicate Doubles(w: World, i: Side, e: Event, role: HaState)
    requires WellFormed(w)
  {
    w.nodes[Peer(i)].state == role && if role == Master then TurnsMaster(w.nodes[i], e) else TurnsSlave(w.nodes[i], e)
  }

  lemma RoleStep(n: Node, e: Event)
    ensures n.state != Master ==> (Step(n, e).0.state == Master <==> TurnsMaster(n, e))
    ensures n.state != Slave ==> (Step(n, e).0.state == Slave <==> TurnsSlave(n, e))
  {
  }

  /** One step makes two of a role, where there were not, exactly by that guard. */
  lemma DoublesIff(w: World, i: Side, e: Event, role: HaState)
    requires WellFormed(w) && (role == Master || role == Slave) && !Both(w, role)
    ensures Both(Act(w, i, e), role) <==> Doubles(w, i, e, role)
  {
    RoleStep(w.nodes[i], e);
    var w' := Act(w, i, e);
    assert w'.nodes[Peer(i)] == w.nodes[Peer(i)] && w'.nodes[i] == Step(w.nodes[i], e).0;
    hide Step, TurnsMaster, TurnsSlave;
    assert i == 0 || i == 1;
  }

  /** The world after the first `k` steps; whether each message delivered was ever sent does not matter here. */
  ghost function After(s: World, acts: seq<(Side, Event)>, k: nat): (w: World)
    requires WellFormed(s) && k <= |acts|
    ensures WellFormed(w)
  {
    if k == 0 then s else Act(After(s, acts, k - 1), acts[k - 1].0, acts[k - 1].1)
  }

  lemma {:induction false} SomeStepDoubled(s: World, acts: seq<(Side, Event)>, role: HaState, k: nat) returns (j: nat)
    requires WellFormed(s) && k <= |acts| && (role == Master || role == Slave) && !Both(s, role) && Both(After(s, acts, k), role)
    ensures j < k && Doubles(After(s, acts, j), acts[j].0, acts[j].1, role)
    decreases k
  {
    if k > 0 {
      if Both(After(s, acts, k - 1), role) {
        j := SomeStepDoubled(s, acts, role, k - 1);
      } else {
        j := k - 1;
        DoublesIff(After(s, acts, j), acts[j].0, acts[j].1, role);
      }
    }
  }

  lemma DoubledNext(s: World, acts: seq<(Side, Event)>, k: nat, role: HaState)
    requires WellFormed(s) && k < |acts| && (role == Master || role == Slave) && !Both(After(s, acts, k), role)
    requires Doubles(After(s, acts, k), acts[k].0, acts[k].1, role)
    ensures Both(After(s, acts, k + 1), role)
  {
    hide Doubles, Act, Both;
    DoublesIff(After(s, acts, k), acts[k].0, acts[k].1, role);
  }

  /** At some point of the run both have the role. */
  ghost predicate EverBoth(s: World, acts: seq<(Side, Event)>, role: HaState)
    requires WellFormed(s)
  {
    exists k :: 0 <= k <= |acts| && Both(After(s, acts, k), role)
  }

  /** At some step of the run a node takes a role its peer has. */
  ghost predicate EverDoubles(s: World, acts: seq<(Side, Event)>, role: HaState)
    requires WellFormed(s)
  {
    exists k :: 0 <= k < |acts| && Doubles(After(s, acts, k), acts[k].0, acts[k].1, role)
  }

  lemma BothIfDoubles(s: World, acts: seq<(Side, Event)>, role: HaState)
    requires WellFormed(s) && (role == Master || role == Slave) && EverDoubles(s, acts, role)
    ensures EverBoth(s, acts, role)
  {
    hide Both, Doubles, Act, After;
    var k :| 0 <= k < |acts| && Doubles(After(s, acts, k), acts[k].0, acts[k].1, role);
    if !Both(After(s, acts, k), role) {
      DoubledNext(s, acts, k, role);
    }
  }

  lemma DoublesIfBoth(s: World, acts: seq<(Side, Event)>, role: HaState)
    requires WellFormed(s) && (role == Master || role == Slave) && !Both(s, role) && EverBoth(s, acts, role)
    ensures EverDoubles(s, acts, role)
  {
    hide Both, Doubles, Act, After;
    var k :| 0 <= k <= |acts| && Both(After(s, acts, k), role);
    var j := SomeStepDoubled(s, acts, role, k);
  }

  /**
   Over any run from the start, there are ever two masters (two slaves) if and only if at some step a node
   takes over, or elects itself on what it last heard, while its peer has that role.
   */
  lemma TwoOfARoleIff(s: World, acts: seq<(Side, Event)>, role: HaState)
    requires Start(s) && (role == Master || role == Slave)
    ensures EverBoth(s, acts, role) <==> EverDoubles(s, acts, role)
  {
    assert !Both(s, role);
    hide Both, Start, EverBoth, EverDoubles;
    if EverBoth(s, acts, role) {
      DoublesIfBoth(s, acts, role);
    }
    if EverDoubles(s, acts, role) {
      BothIfDoubles(s, acts, role);
    }
  }

  // ---------- Two masters are found out ----------

  /** The conflict flag is up only in a conflict. */
  ghost predicate Candid(w: World) {
    WellFormed(w) && forall i: Side :: w.nodes[i].hasPeer && (w.nodes[i].conflict ==> w.nodes[i].state == Conflict)
  }

  lemma CandidStep(n: Node, e: Event)
    requires !Returns(n, e) && (n.conflict ==> n.state == Conflict)
    ensures var n' := Step(n, e).0; n'.conflict ==> n'.state == Conflict
  {
  }

  lemma {:induction false} CandidRun(s: World, acts: seq<(Side, Event)>, r: World, i: Side, m: Msg, now: int)
    requires Candid(s) && Run(s, acts, r, (n: Node, e: Event) => !Returns(n, e))
    ensures Candid(r)
    ensures (r.nodes[i].state == Master && m.state == Master) || m.state == Conflict ==>
              Step(r.nodes[i], Rcv(m, now)).0.state == Conflict
    ensures s.nodes[i].state == Conflict ==> r.nodes[i].state == Conflict
    decreases |acts|
  {
    if acts != [] {
      var (j, e) := acts[0];
      CandidStep(s.nodes[j], e);
      PeerStep(s.nodes[j], e);
      assert s.nodes[j].state == Conflict ==> Step(s.nodes[j], e).0.state == Conflict;
      var s' := Act(s, j, e);
      assert Candid(s');
      hide Candid, Step, Act, Returns, Enabled;
      CandidRun(s', acts[1..], r, i, m, now);
    }
  }

  /**
   Without a return to NONE, take-overs or not: if a controller that is master hears that its peer is
   master, or any controller hears of a conflict, it is in conflict, and stays there.
   */
  lemma SplitIsDetected(s: World, acts: seq<(Side, Event)>, q: World, more: seq<(Side, Event)>, r: World, i: Side, m: Msg, now: int)
    requires Start(s) && Run(s, acts, q, (n: Node, e: Event) => !Returns(n, e)) && Run(q, more, r, (n: Node, e: Event) => !Returns(n, e))
    ensures WellFormed(q) && WellFormed(r)
    ensures (q.nodes[i].state == Master && m.state == Master) || m.state == Conflict ==>
              Step(q.nodes[i], Rcv(m, now)).0.state == Conflict
    ensures q.nodes[i].state == Conflict ==> r.nodes[i].state == Conflict
  {
    assert Candid(s);
    CandidRun(s, acts, q, i, m, now);
    CandidRun(q, more, r, i, m, now);
  }
}
