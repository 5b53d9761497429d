/** Probing a switch for meters, groups and flows, and announcing it to the apps. */
module Probe {

  const REP_TIMEO := 4
  const PASS_TIMEO := 10

  datatype Flag =
    | REGISTERED | PORT_FEAT | TBL_FEAT | GRP_FEAT | PUBLISHED | VTBL_MAP_DONE
    | METER_PROBED | GROUP_PROBED | FLOW_PROBED
    | METER_DONE | GROUP_DONE | FLOW_DONE

  datatype Phase = Meters | Groups | Flows

  /** `requests` lists the probe requests sent so far, `announced` counts the C_DP_REG broadcasts. */
  datatype Sw = Sw(flags: set<Flag>, startProbe: int, lastProbed: int, tables: int, requests: seq<Phase>, announced: nat)

  function Probed(p: Phase): Flag {
    match p case Meters => METER_PROBED case Groups => GROUP_PROBED case Flows => FLOW_PROBED
  }

  function Done(p: Phase): Flag {
    match p case Meters => METER_DONE case Groups => GROUP_DONE case Flows => FLOW_DONE
  }

  const ALL_DONE := {METER_PROBED, GROUP_PROBED, FLOW_PROBED, METER_DONE, GROUP_DONE, FLOW_DONE}

  function Finish(s: Sw, flags: set<Flag>): Sw {
    s.(startProbe := 0, lastProbed := 0, flags := s.flags + flags)
  }

  /** A phase starts, goes on, or is given up after it has lasted too long. */
  function Update(s: Sw, now: int, p: Phase): Sw {
    var s1 := s.(flags := s.flags + {Probed(p)});
    if s1.startProbe == 0 then s1.(startProbe := now)
    else if now - s1.startProbe > PASS_TIMEO then Finish(s1, {Done(p)})
    else s1
  }

  predicate NeedsProbe(s: Sw, p: Phase, now: int) {
    Probed(p) !in s.flags || s.lastProbed == 0 || now - s.lastProbed > REP_TIMEO
  }

  /** One attempt at phase `p`; `now2` is the clock read a second time, `scan` the number of tables asked. */
  function Attempt(s: Sw, p: Phase, now: int, now2: int, scan: int): Sw {
    var s1 := Update(s, now, p);
    if NeedsProbe(s1, p, now2) then
      s1.(requests := s1.requests + [p], lastProbed := now, tables := if p.Flows? then scan else s1.tables)
    else s1
  }

  datatype Env = Env(now: int, now2: int, master: bool, scan: int)

  function TryPublish(s: Sw, e: Env): Sw {
    if REGISTERED !in s.flags || PORT_FEAT !in s.flags then s
    else
      var s1 := s.(flags := s.flags + {TBL_FEAT, VTBL_MAP_DONE});
      var s2 := if e.master then s1 else Finish(s1, ALL_DONE);
      if METER_DONE !in s2.flags then Attempt(s2, Meters, e.now, e.now2, e.scan)
      else if GROUP_DONE !in s2.flags then Attempt(s2, Groups, e.now, e.now2, e.scan)
      else if FLOW_DONE !in s2.flags then Attempt(s2, Flows, e.now, e.now2, e.scan)
      else if PUBLISHED !in s2.flags then s2.(flags := s2.flags + {PUBLISHED}, announced := s2.announced + 1)
      else s2
  }

  /** A features reply registers the switch once; in bench mode it is announced on the spot. */
  function Register(s: Sw, bench: bool): Sw {
    if REGISTERED in s.flags then s
    else if bench then
      s.(flags := s.flags + {REGISTERED, PUBLISHED, PORT_FEAT, TBL_FEAT, GRP_FEAT} + ALL_DONE, announced := s.announced + 1)
    else s.(flags := s.flags + {REGISTERED})
  }

  /** The last part of a reply to a probe ends its phase; for flows, once every table has answered. */
  function Reply(s: Sw, p: Phase): Sw {
    if Done(p) in s.flags || Probed(p) !in s.flags then s
    else if p.Flows? then
      var n := if s.tables != 0 then s.tables - 1 else 0;
      if n <= 0 then Finish(s.(tables := n), {FLOW_DONE}) else s.(tables := n)
    else Finish(s, {Done(p)})
  }

  /** What a multipart reply completes. */
  datatype Part = PortFeatures | TableFeatures | GroupFeatures | LastOf(p: Phase) | Nothing

  function OnPart(s: Sw, part: Part): Sw {
    match part
    case PortFeatures => s.(flags := s.flags + {PORT_FEAT})
    case TableFeatures => s.(flags := s.flags + {TBL_FEAT})
    case GroupFeatures => s.(flags := s.flags + {GRP_FEAT})
    case LastOf(p) => Reply(s, p)
    case Nothing => s
  }

  /** Features replies (OpenFlow 1.0 brings ports and tables along), multipart replies, and the one-second timer. */
  datatype Event =
    | Features10(bench: bool, e: Env)
    | Features
    | Stats(part: Part, e: Env)
    | Tick(e: Env)

  const FEATURES10 := {PORT_FEAT, TBL_FEAT, GRP_FEAT, METER_PROBED, METER_DONE, GROUP_PROBED, GROUP_DONE}

  function Step(s: Sw, ev: Event): Sw {
    match ev
    case Features10(bench, e) =>
      var s1 := Register(s, bench);
      TryPublish(s1.(flags := s1.flags + FEATURES10), e)
    case Features => Register(s, false)
    case Stats(part, e) => TryPublish(OnPart(s, part), e)
    case Tick(e) => if REGISTERED in s.flags && PUBLISHED !in s.flags then TryPublish(s, e) else s
  }

  const START := Sw({}, 0, 0, 0, [], 0)

  function Run(s: Sw, evs: seq<Event>): Sw
    decreases |evs|
  {
    if evs == [] then s else Run(Step(s, evs[0]), evs[1..])
  }

  // ---------- Order ----------

  function Rank(p: Phase): nat {
    match p case Meters => 0 case Groups => 1 case Flows => 2
  }

  /** No request is followed by one of an earlier phase. */
  ghost predicate Ordered(r: seq<Phase>) {
    forall i, j :: 0 <= i < j < |r| ==> Rank(r[i]) <= Rank(r[j])
  }

  ghost predicate Inv(s: Sw) {
    && (GROUP_PROBED in s.flags ==> METER_DONE in s.flags)
    && (FLOW_PROBED in s.flags ==> GROUP_DONE in s.flags)
    && (GROUP_DONE in s.flags ==> METER_DONE in s.flags)
    && (FLOW_DONE in s.flags ==> GROUP_DONE in s.flags)
    && (PUBLISHED in s.flags ==> s.flags >= {REGISTERED, PORT_FEAT, METER_DONE, GROUP_DONE, FLOW_DONE})
    && s.announced == (if PUBLISHED in s.flags then 1 else 0)
    && Ordered(s.requests)
    && (Groups in s.requests ==> METER_DONE in s.flags)
    && (Flows in s.requests ==> GROUP_DONE in s.flags)
  }

  lemma UpdateKeepsInv(s: Sw, p: Phase, now: int)
    requires Inv(s) && Done(p) !in s.flags && (p.Groups? ==> METER_DONE in s.flags) && (p.Flows? ==> GROUP_DONE in s.flags)
    ensures Inv(Update(s, now, p))
  {
    hide Ordered;
  }

  lemma AttemptKeepsInv(s: Sw, p: Phase, e: Env)
    requires Inv(s) && Done(p) !in s.flags && (p.Groups? ==> METER_DONE in s.flags) && (p.Flows? ==> GROUP_DONE in s.flags)
    ensures Inv(Attempt(s, p, e.now, e.now2, e.scan))
  {
    UpdateKeepsInv(s, p, e.now);
    forall q | q in s.requests ensures Rank(q) <= Rank(p) {
      assert q.Groups? || q.Flows? || q.Meters?;
    }
    var s1 := Update(s, e.now, p);
    assert s1.requests == s.requests && s1.flags >= s.flags;
    AskKeepsOrder(s.requests, p);
    hide Update, Ordered;
  }

  lemma AskKeepsOrder(r: seq<Phase>, p: Phase)
    requires Ordered(r) && forall q :: q in r ==> Rank(q) <= Rank(p)
    ensures Ordered(r + [p])
  {
  }

  lemma TryPublishKeepsInv(s: Sw, e: Env)
    requires Inv(s)
    ensures Inv(TryPublish(s, e))
  {
    var s1 := s.(flags := s.flags + {TBL_FEAT, VTBL_MAP_DONE});
    var s2 := if e.master then s1 else Finish(s1, ALL_DONE);
    assert Inv(s2);
    hide Inv, Attempt;
    if METER_DONE !in s2.flags {
      AttemptKeepsInv(s2, Meters, e);
    } else if GROUP_DONE !in s2.flags {
      AttemptKeepsInv(s2, Groups, e);
    } else if FLOW_DONE !in s2.flags {
      AttemptKeepsInv(s2, Flows, e);
    } else {
      PublishKeepsInv(s2);
    }
  }

  lemma PublishKeepsInv(s: Sw)
    requires Inv(s)
    ensures s.flags >= {REGISTERED, PORT_FEAT, METER_DONE, GROUP_DONE, FLOW_DONE} && PUBLISHED !in s.flags ==>
              Inv(s.(flags := s.flags + {PUBLISHED}, announced := s.announced + 1))
  {
    hide Ordered;
  }

  lemma StepKeepsInv(s: Sw, ev: Event)
    requires Inv(s)
    ensures Inv(Step(s, ev))
  {
    match ev
    case Features10(bench, e) =>
      var s1 := Register(s, bench);
      var s2 := s1.(flags := s1.flags + FEATURES10);
      assert Inv(s2) by { hide Ordered; }
      hide Inv;
      TryPublishKeepsInv(s2, e);
    case Stats(part, e) =>
      assert Inv(OnPart(s, part)) by { hide Ordered; }
      hide Inv;
      TryPublishKeepsInv(OnPart(s, part), e);
    case Tick(e) =>
      TryPublishKeepsInv(s, e);
    case Features =>
      hide Ordered;
  }

  lemma {:induction false} RunKeepsInv(s: Sw, evs: seq<Event>)
    requires Inv(s)
    ensures Inv(Run(s, evs))
    decreases |evs|
  {
    if evs != [] {
      StepKeepsInv(s, evs[0]);
      RunKeepsInv(Step(s, evs[0]), evs[1..]);
    }
  }

  /**
   In every reachable state meters are probed before groups and groups before flows, in the flags and in
   the requests sent; a published switch is registered, knows its ports and has been probed for all three;
   and it was announced exactly once, an unpublished one never.
   */
  lemma ProbedInOrder(evs: seq<Event>)
    ensures Inv(Run(START, evs))
  {
    RunKeepsInv(START, evs);
  }

  // ---------- What makes a switch ready ----------

  ghost predicate Registers(evs: seq<Event>) {
    exists i :: 0 <= i < |evs| && (evs[i].Features10? || evs[i].Features?)
  }

  ghost predicate BringsPorts(evs: seq<Event>) {
    exists i :: 0 <= i < |evs| && (evs[i].Features10? || (evs[i].Stats? && evs[i].part.PortFeatures?))
  }

  lemma TryPublishKeeps(s: Sw, e: Env)
    ensures REGISTERED in TryPublish(s, e).flags <==> REGISTERED in s.flags
    ensures PORT_FEAT in TryPublish(s, e).flags <==> PORT_FEAT in s.flags
  {
  }

  lemma StepReady(s: Sw, ev: Event)
    ensures REGISTERED in Step(s, ev).flags <==> REGISTERED in s.flags || ev.Features10? || ev.Features?
    ensures PORT_FEAT in Step(s, ev).flags <==> PORT_FEAT in s.flags || ev.Features10? || (ev.Stats? && ev.part.PortFeatures?)
  {
    hide TryPublish;
    match ev
    case Features10(bench, e) =>
      var s1 := Register(s, bench);
      TryPublishKeeps(s1.(flags := s1.flags + FEATURES10), e);
    case Stats(part, e) => TryPublishKeeps(OnPart(s, part), e);
    case Tick(e) => TryPublishKeeps(s, e);
    case Features =>
  }

  lemma {:induction false} RunReady(s: Sw, evs: seq<Event>)
    ensures REGISTERED in Run(s, evs).flags <==> REGISTERED in s.flags || Registers(evs)
    ensures PORT_FEAT in Run(s, evs).flags <==> PORT_FEAT in s.flags || BringsPorts(evs)
    decreases |evs|
  {
    if evs != [] {
      StepReady(s, evs[0]);
      RunReady(Step(s, evs[0]), evs[1..]);
      hide Step;
      assert forall i :: 0 < i < |evs| ==> evs[1..][i - 1] == evs[i];
      assert forall i :: 0 <= i < |evs| - 1 ==> evs[1..][i] == evs[i + 1];
    }
  }

  /** A switch is registered exactly if a features reply came, and knows its ports exactly if such a reply or their own did. */
  lemma ReadyIff(evs: seq<Event>)
    ensures REGISTERED in Run(START, evs).flags <==> Registers(evs)
    ensures PORT_FEAT in Run(START, evs).flags <==> BringsPorts(evs)
  {
    RunReady(START, evs);
  }
}
