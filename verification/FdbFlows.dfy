/**
 Runs of the L2 fast path against a switch. The controller's messages travel in order and arrive
 within two seconds; the switch drops a flow when its hard timeout passes, or earlier.
 */
module FdbFlows {
  import opened Options
  import opened FdbSpec
  import opened FdbMap

  const DELAY := AGE_SLACK

  /** A fast-path flow on the switch, with the time it was put there. */
  datatype Flow = Flow(port: nat, at: int)

  datatype Sent = Sent(msg: Msg, at: int)

  datatype State = State(table: Table, wire: seq<Sent>, flows: map<Mac, Flow>, now: int)

  datatype Event =
    | PacketIn(src: Mac, dst: Mac, kind: Kind, port: nat, stale: bool)
    | AgePass(down: set<nat>, port: nat, checkPort: bool)
    | FlushAll
    | Deliver
    | Drop(mac: Mac)
    | Tick(to: int)

  function Stamp(ms: seq<Msg>, at: int): (r: seq<Sent>)
    ensures |r| == |ms| && forall i :: 0 <= i < |ms| ==> r[i] == Sent(ms[i], at)
  {
    seq(|ms|, i requires 0 <= i < |ms| => Sent(ms[i], at))
  }

  /** Time passes no message by: each is delivered at most `DELAY` after it was sent. */
  predicate Enabled(s: State, e: Event) {
    match e
    case Deliver => s.wire != []
    case Tick(to) => s.now <= to && forall i :: 0 <= i < |s.wire| ==> to <= s.wire[i].at + DELAY
    case _ => true
  }

  function Step(s: State, e: Event): State
    requires |s.table| == TABLE_SIZE && Enabled(s, e)
  {
    match e
    case PacketIn(src, dst, kind, port, stale) =>
      var o := PacketInTable(s.table, src, dst, kind, port, s.now, stale);
      s.(table := o.table, wire := s.wire + Stamp(o.sent, s.now))
    case AgePass(down, port, checkPort) =>
      var env := AgeEnv(s.now, down, port, checkPort);
      s.(table := AgeTable(s.table, env), wire := s.wire + Stamp(AgeSent(s.table, TABLE_SIZE, env), s.now))
    case FlushAll =>
      s.(table := FlushTable(s.table), wire := s.wire + Stamp(FlushSent(s.table, TABLE_SIZE), s.now))
    case Deliver =>
      s.(wire := s.wire[1..], flows := Apply(s.flows, s.wire[0].msg, s.now))
    case Drop(mac) => s.(flows := s.flows - {mac})
    case Tick(to) => s.(now := to)
  }

  /** What the switch does with a message: an add replaces the flow for the same MAC. */
  function Apply(flows: map<Mac, Flow>, m: Msg, now: int): map<Mac, Flow> {
    match m
    case Del(mac) => flows - {mac}
    case Add(mac, port) => flows[mac := Flow(port, now)]
  }

  const INIT := State(seq(TABLE_SIZE, i => []), [], map[], 0)

  /** The last message about `mac` still on its way. */
  function LastFor(wire: seq<Sent>, mac: Mac): (r: Option<Sent>) {
    if wire == [] then None
    else if wire[|wire| - 1].msg.mac == mac then Some(wire[|wire| - 1])
    else LastFor(wire[..|wire| - 1], mac)
  }

  predicate InFlight(s: State, mac: Mac) {
    LastFor(s.wire, mac).Some?
  }

  predicate Unexpired(f: Flow, now: int) {
    now <= f.at + HARD_TIMEOUT
  }

  /** The database binds `mac` to `port`, has it marked as installed, and has touched it since `since`. */
  ghost predicate Backed(t: Table, mac: Mac, port: nat, since: int)
    requires |t| == TABLE_SIZE
  {
    Present(t, mac) && var e := EntryOf(t, mac); e.port == port && e.installed && e.ts >= since
  }

  /** What a flow for `mac` asks of the database: its port, and how recently the entry was touched. */
  datatype Demand = Nothing | Demand(port: nat, since: int)

  /** The flow the switch will have for `mac` once every message has arrived, unless it expires. */
  function Wanted(s: State, mac: Mac): Demand {
    match LastFor(s.wire, mac)
    case Some(Sent(Add(_, port), at)) => Demand(port, at)
    case Some(Sent(Del(_), _)) => Nothing
    case None =>
      if mac in s.flows && Unexpired(s.flows[mac], s.now) then Demand(s.flows[mac].port, s.flows[mac].at - DELAY) else Nothing
  }

  ghost predicate Coherent(s: State, mac: Mac)
    requires |s.table| == TABLE_SIZE
  {
    var w := Wanted(s, mac);
    w.Demand? ==> Backed(s.table, mac, w.port, w.since)
  }

  ghost predicate Timely(s: State) {
    && (forall i :: 0 <= i < |s.wire| ==> s.wire[i].at <= s.now <= s.wire[i].at + DELAY)
    && (forall m :: m in s.flows ==> s.flows[m].at <= s.now)
  }

  ghost predicate Inv(s: State) {
    && Keyed(s.table)
    && Timely(s)
    && forall mac: Mac :: Coherent(s, mac)
  }

  lemma LastForIs(wire: seq<Sent>, mac: Mac)
    ensures LastFor(wire, mac).Some? ==> LastFor(wire, mac).value in wire && LastFor(wire, mac).value.msg.mac == mac
    ensures LastFor(wire, mac).None? <==> forall i :: 0 <= i < |wire| ==> wire[i].msg.mac != mac
  {
  }

  lemma {:induction false} LastForAppend(a: seq<Sent>, b: seq<Sent>, mac: Mac)
    ensures LastFor(a + b, mac) == if LastFor(b, mac).Some? then LastFor(b, mac) else LastFor(a, mac)
  {
    if b == [] {
      assert a + b == a;
    } else {
      assert (a + b)[..|a + b| - 1] == a + b[..|b| - 1];
      LastForAppend(a, b[..|b| - 1], mac);
    }
  }

  /** A flow that still counts was asked for recently: this is what makes silent ageing safe. */
  lemma WantedIsRecent(s: State, mac: Mac)
    requires Timely(s) && Wanted(s, mac).Demand?
    ensures s.now - HARD_TIMEOUT - DELAY <= Wanted(s, mac).since <= s.now
  {
    LastForIs(s.wire, mac);
  }

  lemma WantedAfter(s: State, ms: seq<Msg>, mac: Mac)
    ensures var s' := s.(wire := s.wire + Stamp(ms, s.now));
            var last := LastFor(Stamp(ms, s.now), mac);
            Wanted(s', mac) == if last.None? then Wanted(s, mac)
                               else if last.value.msg.Add? then Demand(last.value.msg.port, s.now) else Nothing
  {
    LastForAppend(s.wire, Stamp(ms, s.now), mac);
    LastForIs(Stamp(ms, s.now), mac);
  }

  /** Only deletes were sent, and one of them for `mac`. */
  lemma DeletesOnly(ms: seq<Msg>, now: int, mac: Mac)
    requires forall x :: x in ms ==> x.Del?
    ensures LastFor(Stamp(ms, now), mac).Some? <==> Del(mac) in ms
    ensures LastFor(Stamp(ms, now), mac).Some? ==> LastFor(Stamp(ms, now), mac).value.msg.Del?
  {
    var w := Stamp(ms, now);
    LastForIs(w, mac);
    if Del(mac) in ms {
      var i :| 0 <= i < |ms| && ms[i] == Del(mac);
      assert w[i].msg.mac == mac;
    }
    if LastFor(w, mac).Some? {
      var i :| 0 <= i < |w| && w[i] == LastFor(w, mac).value;
      assert ms[i] in ms && ms[i] == Del(mac);
    }
  }

  // ---------- Each event keeps the flows coherent ----------

  function After(s: State, o: TableOutcome): State {
    s.(table := o.table, wire := s.wire + Stamp(o.sent, s.now))
  }

  lemma LearnCoherent(s: State, mac: Mac, port: nat, stale: bool, m: Mac)
    requires Inv(s)
    ensures var s' := After(s, LearnTable(s.table, mac, port, s.now, stale)); |s'.table| == TABLE_SIZE && Coherent(s', m)
  {
    var t, o := s.table, LearnTable(s.table, mac, port, s.now, stale);
    assert Coherent(s, m);
    LearnAt(t, mac, port, s.now, stale, m);
    LearnChainSent(t[Key(mac)], mac, port, s.now, stale, m);
    WantedAfter(s, o.sent, m);
    if Present(t, mac) && EntryOf(t, mac).port != port {
      var w := Stamp(o.sent, s.now);
      assert w == [Sent(Del(mac), s.now), Sent(Add(mac, port), s.now)];
      assert m != mac ==> LastFor(w, m).None? by { LastForIs(w, m); }
    } else if Present(t, mac) {
      if Wanted(s, m).Demand? {
        WantedIsRecent(s, m);
      }
    } else {
      DeletesOnly(o.sent, s.now, m);
      if Wanted(s, m).Demand? {
        WantedIsRecent(s, m);
      }
    }
  }

  lemma ForwardCoherent(s: State, mac: Mac, m: Mac)
    requires Inv(s)
    ensures var s' := After(s, ForwardTable(s.table, mac, s.now)); |s'.table| == TABLE_SIZE && Coherent(s', m)
  {
    hide FdbSpec.Forward, Key, Has, Ent;
    var t, o := s.table, ForwardTable(s.table, mac, s.now);
    assert Coherent(s, m);
    ForwardAt(t, mac, s.now, m);
    WantedAfter(s, o.sent, m);
    if Present(t, mac) {
      assert Stamp(o.sent, s.now) == [Sent(Add(mac, EntryOf(t, mac).port), s.now)];
      assert m != mac ==> LastFor(Stamp(o.sent, s.now), m).None?;
    } else {
      assert Stamp(o.sent, s.now) == [];
    }
  }

  lemma AgeCoherent(s: State, env: AgeEnv, m: Mac)
    requires Inv(s) && env.now == s.now
    ensures var s' := After(s, TableOutcome(AgeTable(s.table, env), AgeSent(s.table, TABLE_SIZE, env)));
            |s'.table| == TABLE_SIZE && Coherent(s', m)
  {
    hide Key, AgeSent;
    assert Coherent(s, m);
    AgeAt(s.table, env, m);
    AgeSentAre(s.table, TABLE_SIZE, env, m);
    WantedAfter(s, AgeSent(s.table, TABLE_SIZE, env), m);
    DeletesOnly(AgeSent(s.table, TABLE_SIZE, env), s.now, m);
    if Wanted(s, m).Demand? {
      WantedIsRecent(s, m);
    }
    hide AgeTable, Keyed;
  }

  lemma FlushCoherent(s: State, m: Mac)
    requires Inv(s)
    ensures var s' := After(s, TableOutcome(FlushTable(s.table), FlushSent(s.table, TABLE_SIZE)));
            |s'.table| == TABLE_SIZE && Coherent(s', m)
  {
    hide Key, FlushSent;
    assert Coherent(s, m);
    FlushSentAre(s.table, TABLE_SIZE, m);
    WantedAfter(s, FlushSent(s.table, TABLE_SIZE), m);
    DeletesOnly(FlushSent(s.table, TABLE_SIZE), s.now, m);
  }

  lemma DeliverCoherent(s: State, m: Mac)
    requires Inv(s) && s.wire != []
    ensures Coherent(Step(s, Deliver), m)
  {
    assert Coherent(s, m);
    assert s.wire == [s.wire[0]] + s.wire[1..];
    LastForAppend([s.wire[0]], s.wire[1..], m);
  }

  lemma PacketInKeepsInv(s: State, src: Mac, dst: Mac, kind: Kind, port: nat, stale: bool)
    requires Inv(s)
    ensures Inv(Step(s, PacketIn(src, dst, kind, port, stale)))
  {
    hide Key, Has, Ent, FdbSpec.Learn, FdbSpec.Forward;
    var a := After(s, LearnTable(s.table, src, port, s.now, stale));
    LearnKeyed(s.table, src, port, s.now, stale);
    forall m: Mac ensures Coherent(a, m) { LearnCoherent(s, src, port, stale, m); }
    if !Learnable(kind) {
      assert Stamp([], s.now) == [] && s.wire + [] == s.wire;
    } else if !kind.multicast {
      var o := ForwardTable(a.table, dst, s.now);
      var b := After(a, o);
      ForwardAt(a.table, dst, s.now, dst);
      forall m: Mac ensures Coherent(b, m) { ForwardCoherent(a, dst, m); }
      var sent := LearnTable(s.table, src, port, s.now, stale).sent;
      assert Stamp(sent + o.sent, s.now) == Stamp(sent, s.now) + Stamp(o.sent, s.now);
      assert Step(s, PacketIn(src, dst, kind, port, stale)).wire == b.wire;
    }
  }

  /** Every event keeps the invariant. */
  lemma StepKeepsInv(s: State, e: Event)
    requires Inv(s) && Enabled(s, e)
    ensures Inv(Step(s, e))
  {
    hide Key, Has, Ent;
    match e
    case PacketIn(src, dst, kind, port, stale) =>
      PacketInKeepsInv(s, src, dst, kind, port, stale);
    case AgePass(down, port, checkPort) =>
      var env := AgeEnv(s.now, down, port, checkPort);
      AgeAt(s.table, env, BLANK.mac);
      forall m: Mac ensures Coherent(Step(s, e), m) { AgeCoherent(s, env, m); }
    case FlushAll =>
      FlushRefines(s.table);
      forall m: Mac ensures Coherent(Step(s, e), m) { FlushCoherent(s, m); }
    case Deliver =>
      forall m: Mac ensures Coherent(Step(s, e), m) { DeliverCoherent(s, m); }
    case Drop(_) =>
      forall m: Mac ensures Coherent(Step(s, e), m) { assert Coherent(s, m); }
    case Tick(_) =>
      forall m: Mac ensures Coherent(Step(s, e), m) { assert Coherent(s, m); }
  }

  /** `es` is a run from `s` to `r`. */
  ghost predicate Run(s: State, es: seq<Event>, r: State)
    decreases |es|
  {
    if es == [] then s == r
    else |s.table| == TABLE_SIZE && Enabled(s, es[0]) && Run(Step(s, es[0]), es[1..], r)
  }

  lemma {:induction false} RunKeepsInv(s: State, es: seq<Event>, r: State)
    requires Inv(s) && Run(s, es, r)
    ensures Inv(r)
    decreases |es|
  {
    if es != [] {
      StepKeepsInv(s, es[0]);
      RunKeepsInv(Step(s, es[0]), es[1..], r);
    }
  }

  /**
   In every run, an unexpired flow on the switch outputs to the port the database holds for its MAC,
   unless a message about that MAC is still on its way; and then the message is at most two seconds old,
   and if it is an add it carries the port the database holds.
   */
  lemma FlowsAgree(es: seq<Event>, r: State, mac: Mac)
    requires Run(INIT, es, r)
    ensures Keyed(r.table)
    ensures mac in r.flows && Unexpired(r.flows[mac], r.now) && !InFlight(r, mac) ==>
              mac in View(r.table) && View(r.table)[mac].port == r.flows[mac].port
    ensures InFlight(r, mac) ==>
              var w := LastFor(r.wire, mac).value;
              && r.now - DELAY <= w.at <= r.now
              && (w.msg.Add? ==> mac in View(r.table) && View(r.table)[mac].port == w.msg.port)
  {
    assert Inv(INIT) by { hide Key; }
    RunKeepsInv(INIT, es, r);
    assert Coherent(r, mac);
    LastForIs(r.wire, mac);
  }
}
