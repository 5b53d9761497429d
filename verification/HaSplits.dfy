/** Runs that show why the role theorems exclude take-overs, returns to NONE and redrawn ids. */
module HaSplits {
  import opened Ha
  import opened HaRuns
  import opened HaRoles

  lemma {:induction false} Extend(s: World, acts: seq<(Side, Event)>, w: World, i: Side, e: Event, ok: (Node, Event) -> bool)
    requires WellFormed(w) && Run(s, acts, w, ok) && Enabled(w, i, e) && ok(w.nodes[i], e)
    ensures Run(s, acts + [(i, e)], Act(w, i, e), ok)
    decreases |acts|
  {
    var more := acts + [(i, e)];
    if acts == [] {
      assert more[1..] == [];
    } else {
      assert more[0] == acts[0] && more[1..] == acts[1..] + [(i, e)];
      Extend(Act(s, acts[0].0, acts[0].1), acts[1..], w, i, e, ok);
    }
  }

  const M0 := Msg(1, 0, Connected)
  const M1 := Msg(2, 0, Connected)

  ghost predicate Told(w: World)
    requires WellFormed(w)
  {
    Tell(M0) in w.logs[0] && Tell(M1) in w.logs[1]
  }

  lemma Do(s: World, acts: seq<(Side, Event)>, w: World, i: Side, e: Event, ok: (Node, Event) -> bool)
    returns (acts': seq<(Side, Event)>, w': World)
    requires WellFormed(w) && Run(s, acts, w, ok) && Enabled(w, i, e) && ok(w.nodes[i], e)
    ensures WellFormed(w') && Run(s, acts', w', ok)
    ensures w'.nodes == w.nodes[i := Step(w.nodes[i], e).0] && (Told(w) ==> Told(w'))
  {
    Extend(s, acts, w, i, e, ok);
    acts', w' := acts + [(i, e)], Act(w, i, e);
  }

  function FreshNode(sysid: nat): Node {
    Node(None, sysid, 0, None, 0, 0, false, 0, true)
  }

  const WORLD := World([FreshNode(1), FreshNode(2)], [[], []])

  function Beat(now: int): Event { Tick(now, true, false, 0) }

  /** Both connect, and have told each other so. */
  lemma Meet(ok: (Node, Event) -> bool) returns (acts: seq<(Side, Event)>, w: World)
    requires forall n, e :: !Returns(n, e) && !TakesOver(n, e) ==> ok(n, e)
    ensures Start(WORLD) && WellFormed(w) && Run(WORLD, acts, w, ok)
    ensures w.nodes == [FreshNode(1).(state := Connected), FreshNode(2).(state := Connected)]
    ensures Told(w)
  {
    RunNothing(ok);
    var w1 := Act(WORLD, 0, Beat(0));
    assert w1.logs[0][0] == Tell(M0);
    Extend(WORLD, [], WORLD, 0, Beat(0), ok);
    acts, w := [(0, Beat(0))] + [(1, Beat(0))], Act(w1, 1, Beat(0));
    assert w.logs[1][0] == Tell(M1);
    assert [] + [(0, Beat(0))] == [(0, Beat(0))];
    hide Run;
    Extend(WORLD, [(0, Beat(0))], w1, 1, Beat(0), ok);
  }

  /** Controller 0 becomes master and controller 1 slave, as the protocol intends. */
  lemma Settle(ok: (Node, Event) -> bool) returns (acts: seq<(Side, Event)>, w: World)
    requires forall n, e :: !Returns(n, e) && !TakesOver(n, e) ==> ok(n, e)
    ensures Start(WORLD) && WellFormed(w) && Run(WORLD, acts, w, ok)
    ensures w.nodes == [Node(Master, 1, 2, Connected, 1, 0, false, 0, true), Node(Slave, 2, 1, Connected, 1, 0, false, 0, true)]
  {
    acts, w := Meet(ok);
    hide Run;
    acts, w := Do(WORLD, acts, w, 0, Rcv(M1, 0), ok);
    assert w.nodes[0] == Node(Connected, 1, 2, Connected, 0, 0, false, 0, true);
    acts, w := Do(WORLD, acts, w, 1, Rcv(M0, 0), ok);
    hide OnRcv, React, Adopt;
    assert w.nodes == [Node(Connected, 1, 2, Connected, 0, 0, false, 0, true), Node(Connected, 2, 1, Connected, 0, 0, false, 0, true)];
    acts, w := Do(WORLD, acts, w, 0, Beat(0), ok);
    acts, w := Do(WORLD, acts, w, 1, Beat(0), ok);
  }

  /** Neither hears the other in time: both are in conflict, and only then do they get to know each other's id. */
  lemma Quarrel(ok: (Node, Event) -> bool) returns (acts: seq<(Side, Event)>, w: World)
    requires forall n, e :: !Returns(n, e) && !TakesOver(n, e) ==> ok(n, e)
    ensures Start(WORLD) && WellFormed(w) && Run(WORLD, acts, w, ok)
    ensures w.nodes == [Node(Conflict, 1, 2, Connected, 0, 0, false, 0, true), Node(Conflict, 2, 1, Connected, 0, 0, false, 0, true)]
  {
    acts, w := Meet(ok);
    hide Run;
    acts, w := Do(WORLD, acts, w, 0, Beat(0), ok);
    acts, w := Do(WORLD, acts, w, 1, Beat(0), ok);
    assert w.nodes == [FreshNode(1).(state := Conflict, conflict := true), FreshNode(2).(state := Conflict, conflict := true)];
    acts, w := Do(WORLD, acts, w, 0, Rcv(M1, 0), ok);
    acts, w := Do(WORLD, acts, w, 1, Rcv(M0, 0), ok);
  }

  lemma RunNothing(ok: (Node, Event) -> bool)
    ensures Run(WORLD, [], WORLD, ok)
  {
  }

  /** A slave that hears nothing for more than ten seconds takes over, and then both are master. */
  lemma TakeoverSplits() returns (acts: seq<(Side, Event)>, w: World)
    ensures Start(WORLD) && WellFormed(w) && Run(WORLD, acts, w, (n: Node, e: Event) => !Returns(n, e))
    ensures w.nodes[0].state == Master && w.nodes[1].state == Master
  {
    var ok := (n: Node, e: Event) => !Returns(n, e);
    acts, w := Settle(ok);
    hide Run;
    acts, w := Do(WORLD, acts, w, 1, Beat(11), ok);
  }

  /** Both connections die, both ids become zero, both reconnect and judge by what they last heard: two masters. */
  lemma ReconnectSplits() returns (acts: seq<(Side, Event)>, w: World)
    ensures Start(WORLD) && WellFormed(w) && Run(WORLD, acts, w, (n: Node, e: Event) => !TakesOver(n, e))
    ensures w.nodes[0].state == Master && w.nodes[1].state == Master
  {
    var ok := (n: Node, e: Event) => !TakesOver(n, e);
    acts, w := Settle(ok);
    hide Run;
    acts, w := Do(WORLD, acts, w, 0, Lost(0), ok);
    acts, w := Do(WORLD, acts, w, 1, Lost(0), ok);
    acts, w := Do(WORLD, acts, w, 0, Beat(0), ok);
    acts, w := Do(WORLD, acts, w, 1, Beat(0), ok);
    acts, w := Do(WORLD, acts, w, 0, Beat(0), ok);
    acts, w := Do(WORLD, acts, w, 1, Beat(0), ok);
  }

  /** Both give up a conflict, both draw larger ids, both compare with the other's old one: two slaves. */
  lemma RedrawSplits() returns (acts: seq<(Side, Event)>, w: World)
    ensures Start(WORLD) && WellFormed(w) && Run(WORLD, acts, w, (n: Node, e: Event) => !TakesOver(n, e))
    ensures w.nodes[0].state == Slave && w.nodes[1].state == Slave
  {
    var ok := (n: Node, e: Event) => !TakesOver(n, e);
    acts, w := Quarrel(ok);
    hide Run;
    acts, w := Do(WORLD, acts, w, 0, Lost(9), ok);
    acts, w := Do(WORLD, acts, w, 1, Lost(9), ok);
    acts, w := Do(WORLD, acts, w, 0, Beat(0), ok);
    acts, w := Do(WORLD, acts, w, 1, Beat(0), ok);
    acts, w := Do(WORLD, acts, w, 0, Beat(0), ok);
    acts, w := Do(WORLD, acts, w, 1, Beat(0), ok);
  }
}
