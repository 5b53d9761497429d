/** The switch handle whose probe fields the handlers assign: what each handler keeps, and what it brings nearer. */
module ProbeSwitch {
  import opened Probe
  import opened ProbeProgress

  /** Phase `p` is the one to be probed. */
  predicate Due(flags: set<Flag>, p: Phase) {
    Done(p) !in flags && (p.Groups? ==> METER_DONE in flags) && (p.Flows? ==> GROUP_DONE in flags)
  }

  /** Attempts left and the clock do not get worse from `s` to `r`. */
  ghost predicate NoFurther(s: Sw, r: Sw, last: int, cur: int, now: int) {
    Clock(s, last, cur) && 0 < now && cur <= now ==> Clock(r, last, now) && Left(r, last) <= Left(s, last)
  }

  /** An attempt a second later that finds the switch unpublished brings it nearer. */
  ghost predicate Nearer(s: Sw, r: Sw, last: int, cur: int, now: int) {
    Clock(s, last, cur) && 0 < now && cur <= now && last < now && PUBLISHED !in s.flags && Ready(s) ==>
      Clock(r, now, now) && Left(r, now) < Left(s, last)
  }

  lemma TryFacts(s: Sw, e: Env, last: int, cur: int)
    ensures Inv(s) ==> Inv(TryPublish(s, e))
    ensures NoFurther(s, TryPublish(s, e), last, cur, e.now) && Nearer(s, TryPublish(s, e), last, cur, e.now)
  {
    hide Inv, TryPublish, Left, Clock;
    if Inv(s) {
      TryPublishKeepsInv(s, e);
    }
    if Clock(s, last, cur) && 0 < e.now && cur <= e.now {
      TryProgress(s, e, last, cur);
    }
  }

  lemma AttemptFacts(s: Sw, p: Phase, e: Env, last: int, cur: int)
    ensures Inv(s) && Due(s.flags, p) ==> Inv(Attempt(s, p, e.now, e.now2, e.scan))
    ensures Clock(s, last, cur) && Ready(s) && 0 < e.now && cur <= e.now && Due(s.flags, p) && PUBLISHED !in s.flags ==>
              var r := Attempt(s, p, e.now, e.now2, e.scan);
              && Clock(r, last, e.now)
              && (last < e.now ==> Done(p) in r.flags || (Clock(r, e.now, e.now) && Wait(r, e.now) < Wait(s, last)))
  {
    hide Inv, Attempt;
    if Inv(s) && Due(s.flags, p) {
      AttemptKeepsInv(s, p, e);
    }
    if Clock(s, last, cur) && Ready(s) && 0 < e.now && cur <= e.now && Due(s.flags, p) && PUBLISHED !in s.flags {
      AttemptProgress(s, p, e, last, cur);
    }
  }

  lemma ReplyFacts(s: Sw, p: Phase, last: int, cur: int)
    ensures Inv(s) ==> Inv(Reply(s, p)) && (Clock(s, last, cur) ==> Clock(Reply(s, p), last, cur) && Left(Reply(s, p), last) <= Left(s, last))
  {
    if Inv(s) {
      assert Inv(Reply(s, p)) by { hide Ordered; }
      if Clock(s, last, cur) {
        PartProgress(s, LastOf(p), last, cur);
      }
    }
    hide Inv, Clock, Left, Reply;
  }

  class Switch {
    var flags: set<Flag>
    var startProbe: int
    var lastProbed: int
    var tables: int
    var requests: seq<Phase>
    var announced: nat

    constructor ()
      ensures State() == START && Inv(State())
    {
      flags, startProbe, lastProbed, tables, requests, announced := {}, 0, 0, 0, [], 0;
    }

    ghost function State(): Sw
      reads this
    {
      Sw(flags, startProbe, lastProbed, tables, requests, announced)
    }

    /** The phase that is due starts, goes on, or is over exactly if it has lasted too long; nothing is announced. */
    method UpdateProbe(now: int, p: Phase)
      modifies this`flags, this`startProbe, this`lastProbed
      ensures State() == Update(old(State()), now, p)
      ensures old(Inv(State()) && Due(flags, p)) ==> Inv(State())
      ensures old(Due(flags, p)) ==> (Done(p) in flags <==> old(startProbe) != 0 && now - old(startProbe) > PASS_TIMEO)
    {
      hide Ordered;
      flags := flags + {Probed(p)};
      if startProbe != 0 {
        if now - startProbe > PASS_TIMEO {
          startProbe, lastProbed, flags := 0, 0, flags + {Done(p)};
        }
      } else {
        startProbe := now;
      }
    }

    /**
     One attempt at the phase that is due keeps the order of all requests, and uses up time or ends the phase. It
     asks the switch if and only if nothing was asked yet, the last request is more than four seconds old, or the
     phase was just given up after ten.
     */
    method ProbePhase(p: Phase, e: Env, ghost last: int, ghost cur: int)
      modifies this
      ensures State() == Attempt(old(State()), p, e.now, e.now2, e.scan)
      ensures old(Inv(State()) && Due(flags, p)) ==> Inv(State())
      ensures old(Clock(State(), last, cur) && Ready(State()) && Due(flags, p) && PUBLISHED !in flags) && 0 < e.now && cur <= e.now ==>
                && Clock(State(), last, e.now)
                && (last < e.now ==> Done(p) in flags || (Clock(State(), e.now, e.now) && Wait(State(), e.now) < old(Wait(State(), last))))
      ensures Probed(p) in flags && announced == old(announced)
      ensures var over := old(startProbe) != 0 && e.now - old(startProbe) > 10;
              var asks := over || old(lastProbed) == 0 || e.now2 - old(lastProbed) > 4;
              && requests == old(requests) + (if asks then [p] else [])
              && lastProbed == (if asks then e.now else old(lastProbed))
              && tables == (if asks && p.Flows? then e.scan else old(tables))
              && startProbe == (if over then 0 else if old(startProbe) == 0 then e.now else old(startProbe))
    {
      hide Inv, Clock, Wait, Due;
      AttemptFacts(State(), p, e, last, cur);
      UpdateProbe(e.now, p);
      if Probed(p) !in flags || lastProbed == 0 || e.now2 - lastProbed > REP_TIMEO {
        requests := requests + [p];
        if p.Flows? {
          tables := e.scan;
        }
        lastProbed := e.now;
      }
    }

    /** One call keeps every promise about order and announcement, and never puts the announcement further off. */
    method TryToPublish(e: Env, ghost last: int, ghost cur: int)
      modifies this
      ensures State() == TryPublish(old(State()), e)
      ensures old(Inv(State())) ==> Inv(State())
      ensures NoFurther(old(State()), State(), last, cur, e.now) && Nearer(old(State()), State(), last, cur, e.now)
      ensures old(!Ready(State())) ==> State() == old(State())
      ensures old(Ready(State())) && (!e.master || old(flags) >= {METER_DONE, GROUP_DONE, FLOW_DONE}) ==>
                PUBLISHED in flags && announced == old(announced) + (if old(PUBLISHED in flags) then 0 else 1) && requests == old(requests)
      ensures forall p :: old(Ready(State())) && e.master && old(Due(flags, p) && (p.Meters? || METER_DONE in flags)) ==>
                Probed(p) in flags && announced == old(announced) && (requests == old(requests) || requests == old(requests) + [p])
    {
      hide Attempt, Inv, NoFurther, Nearer;
      TryFacts(State(), e, last, cur);
      if REGISTERED !in flags || PORT_FEAT !in flags {
        return;
      }
      flags := flags + {TBL_FEAT, VTBL_MAP_DONE};
      if !e.master {
        startProbe, lastProbed, flags := 0, 0, flags + ALL_DONE;
      }
      if METER_DONE !in flags {
        ProbePhase(Meters, e, last, cur);
      } else if GROUP_DONE !in flags {
        ProbePhase(Groups, e, last, cur);
      } else if FLOW_DONE !in flags {
        ProbePhase(Flows, e, last, cur);
      } else if PUBLISHED !in flags {
        announced := announced + 1;
        flags := flags + {PUBLISHED};
      }
    }

    /** Afterwards the switch is registered; a second time nothing happens, and nothing is announced twice. */
    method RegisterOnce(bench: bool)
      modifies this
      ensures State() == Register(old(State()), bench)
      ensures REGISTERED in flags && (old(REGISTERED in flags) ==> State() == old(State()))
      ensures old(REGISTERED !in flags) ==>
                && flags == old(flags) + (if bench then {REGISTERED, PUBLISHED, PORT_FEAT, TBL_FEAT, GRP_FEAT} + ALL_DONE else {REGISTERED})
                && announced == old(announced) + if bench then 1 else 0
      ensures old(Inv(State())) ==> Inv(State())
    {
      hide Ordered;
      if REGISTERED !in flags {
        flags := flags + {REGISTERED};
        if bench {
          announced := announced + 1;
          flags := flags + {PUBLISHED, PORT_FEAT, TBL_FEAT, GRP_FEAT} + ALL_DONE;
          assert flags == old(flags) + {REGISTERED, PUBLISHED, PORT_FEAT, TBL_FEAT, GRP_FEAT} + ALL_DONE;
        }
      }
    }

    /**
     The last part of a reply ends the phase being probed, for flows once no other table is to answer, and no other.
     It keeps the promises, and never puts the announcement further off.
     */
    method LastReply(p: Phase, ghost last: int, ghost cur: int)
      modifies this
      ensures State() == Reply(old(State()), p)
      ensures old(Inv(State())) ==> Inv(State()) && (old(Clock(State(), last, cur)) ==> Clock(State(), last, cur) && Left(State(), last) <= old(Left(State(), last)))
      ensures old(Inv(State()) && !Due(flags, p)) ==> State() == old(State())
      ensures old(Done(p) in flags || Probed(p) !in flags) ==> State() == old(State())
      ensures old(Done(p) !in flags && Probed(p) in flags) ==>
                && tables == (if p.Flows? && old(tables) != 0 then old(tables) - 1 else old(tables))
                && (if p.Flows? && tables > 0 then State() == old(State()).(tables := tables)
                    else flags == old(flags) + {Done(p)} && startProbe == 0 && lastProbed == 0)
                && requests == old(requests) && announced == old(announced)
    {
      hide Inv, Clock, Left;
      ReplyFacts(State(), p, last, cur);
      EarlyReply(State(), p);
      if Done(p) !in flags && Probed(p) in flags {
        if p.Flows? {
          if tables != 0 {
            tables := tables - 1;
          }
          if tables > 0 {
            return;
          }
        }
        startProbe, lastProbed, flags := 0, 0, flags + {Done(p)};
      }
    }
  }

  lemma EarlyReply(s: Sw, p: Phase)
    ensures Inv(s) && !Due(s.flags, p) ==> Reply(s, p) == s
  {
    hide Ordered;
  }
}
