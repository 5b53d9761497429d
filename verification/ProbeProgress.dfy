/** A switch is announced within 37 one-second attempts, answer or not. */
module ProbeProgress {
  import opened Probe

  predicate Ready(s: Sw) {
    REGISTERED in s.flags && PORT_FEAT in s.flags
  }

  function PhasesLeft(s: Sw): nat {
    if METER_DONE !in s.flags then 3 else if GROUP_DONE !in s.flags then 2 else if FLOW_DONE !in s.flags then 1 else 0
  }

  /** Attempts the current phase can still take, when the last attempt was at `last`. */
  function Wait(s: Sw, last: int): int {
    if s.startProbe == 0 || s.startProbe > last then 12 else 11 - (last - s.startProbe)
  }

  /** Attempts until the switch is announced, at most. */
  function Left(s: Sw, last: int): int {
    if PUBLISHED in s.flags then 0
    else if PhasesLeft(s) == 0 then 1
    else 12 * (PhasesLeft(s) - 1) + Wait(s, last) + 1
  }

  /** A phase that has not been given up was young enough at the last attempt. */
  ghost predicate Clock(s: Sw, last: int, cur: int) {
    && 0 <= last <= cur
    && 0 <= s.startProbe <= cur
    && (!Ready(s) ==> s.startProbe == 0)
    && (PUBLISHED !in s.flags && PhasesLeft(s) > 0 && 0 < s.startProbe <= last ==> last - s.startProbe <= PASS_TIMEO)
  }

  lemma LeftBound(s: Sw, last: int, cur: int)
    requires Clock(s, last, cur)
    ensures 0 <= Left(s, last) <= 37
  {
  }

  lemma AttemptProgress(s: Sw, p: Phase, e: Env, last: int, cur: int)
    requires Clock(s, last, cur) && Ready(s) && 0 < e.now && cur <= e.now && Done(p) !in s.flags && PUBLISHED !in s.flags
    ensures var s' := Attempt(s, p, e.now, e.now2, e.scan);
            && PUBLISHED !in s'.flags && s.flags <= s'.flags <= s.flags + {Probed(p), Done(p)}
            && Clock(s', last, e.now)
            && (if Done(p) in s'.flags then s'.startProbe == 0 else Wait(s', last) <= Wait(s, last))
            && (last < e.now ==> Clock(s', e.now, e.now)
                                 && (if Done(p) in s'.flags then s'.startProbe == 0 && (e.now == last + 1 && s.startProbe <= last ==> Wait(s, last) == 1)
                                     else if e.now == last + 1 && s.startProbe <= last then Wait(s', e.now) == Wait(s, last) - 1
                                     else Wait(s', e.now) < Wait(s, last)))
  {
  }

  /** One call, whoever makes it, brings the announcement no further away; an attempt of its own brings it nearer. */
  lemma TryProgress(s: Sw, e: Env, last: int, cur: int)
    requires Clock(s, last, cur) && 0 < e.now && cur <= e.now
    ensures var s' := TryPublish(s, e);
            && s.flags <= s'.flags && Clock(s', last, e.now) && Left(s', last) <= Left(s, last)
            && (last < e.now && PUBLISHED !in s.flags ==> Clock(s', e.now, e.now))
            && (last < e.now && PUBLISHED !in s.flags && Ready(s) ==> Left(s', e.now) < Left(s, last))
  {
    if Ready(s) {
      var s1 := s.(flags := s.flags + {TBL_FEAT, VTBL_MAP_DONE});
      var s2 := if e.master then s1 else Finish(s1, ALL_DONE);
      assert PhasesLeft(s2) <= PhasesLeft(s) && (e.master ==> s2.startProbe == s.startProbe);
      if PUBLISHED !in s.flags && PhasesLeft(s2) > 0 {
        var p := if METER_DONE !in s2.flags then Meters else if GROUP_DONE !in s2.flags then Groups else Flows;
        AttemptProgress(s2, p, e, last, cur);
        hide Attempt;
      }
    }
  }

  // ---------- Runs ----------

  function TimeOf(ev: Event, cur: int): int {
    if ev.Features? then cur else ev.e.now
  }

  function LastTick(ev: Event, last: int): int {
    if ev.Tick? then ev.e.now else last
  }

  predicate OnTime(ev: Event, last: int, cur: int) {
    !ev.Features? ==> 0 < ev.e.now && cur <= ev.e.now && (ev.Tick? ==> last < ev.e.now)
  }

  /** Clock readings do not go back, and timer ticks are at least a second apart. */
  predicate Timed(evs: seq<Event>, last: int, cur: int) {
    evs != [] ==> OnTime(evs[0], last, cur) && Timed(evs[1..], LastTick(evs[0], last), TimeOf(evs[0], cur))
  }

  function Ticks(evs: seq<Event>): nat {
    if evs == [] then 0 else Ticks(evs[1..]) + if evs[0].Tick? then 1 else 0
  }

  lemma PartProgress(s: Sw, part: Part, last: int, cur: int)
    requires Inv(s) && Clock(s, last, cur)
    ensures var s' := OnPart(s, part); s.flags <= s'.flags && Clock(s', last, cur) && Left(s', last) <= Left(s, last)
  {
    hide Ordered;
  }

  lemma Features10Progress(s: Sw, bench: bool, last: int, cur: int)
    requires Clock(s, last, cur)
    ensures var s1 := Register(s, bench);
            var s2 := s1.(flags := s1.flags + FEATURES10);
            && s.flags <= s1.flags && Clock(s1, last, cur) && Left(s1, last) <= Left(s, last)
            && s.flags <= s2.flags && Clock(s2, last, cur) && Left(s2, last) <= Left(s, last)
  {
  }

  lemma StepProgress(s: Sw, ev: Event, last: int, cur: int)
    requires Inv(s) && Clock(s, last, cur) && OnTime(ev, last, cur)
    ensures var (s', last') := (Step(s, ev), LastTick(ev, last));
            && s.flags <= s'.flags && Clock(s', last', TimeOf(ev, cur)) && Left(s', last') <= Left(s, last)
            && (ev.Tick? && Ready(s) && PUBLISHED !in s.flags ==> Left(s', last') < Left(s, last))
  {
    match ev
    case Features10(bench, e) =>
      Features10Progress(s, bench, last, cur);
      var s1 := Register(s, bench);
      hide Register, Inv, Left, Clock;
      TryProgress(s1.(flags := s1.flags + FEATURES10), e, last, cur);
      hide TryPublish;
    case Features =>
      Features10Progress(s, false, last, cur);
    case Stats(part, e) =>
      PartProgress(s, part, last, cur);
      hide OnPart, Inv, Left, Clock;
      TryProgress(OnPart(s, part), e, last, cur);
      hide TryPublish;
    case Tick(e) =>
      TryProgress(s, e, last, cur);
      hide Inv, TryPublish;
  }

  lemma {:induction false} Progress(s: Sw, evs: seq<Event>, last: int, cur: int)
    requires Inv(s) && Clock(s, last, cur) && Ready(s) && Timed(evs, last, cur) && Ticks(evs) >= Left(s, last)
    ensures PUBLISHED in Run(s, evs).flags
    decreases |evs|
  {
    LeftBound(s, last, cur);
    if evs == [] {
    } else {
      var ev := evs[0];
      var s' := Step(s, ev);
      StepKeepsInv(s, ev);
      StepProgress(s, ev, last, cur);
      LeftBound(s', LastTick(ev, last), TimeOf(ev, cur));
      assert PUBLISHED in s.flags ==> Left(s', LastTick(ev, last)) == 0;
      hide Step, Inv, Clock, Left;
      Progress(s', evs[1..], LastTick(ev, last), TimeOf(ev, cur));
    }
  }

  lemma {:induction false} Within37(s: Sw, before: seq<Event>, after: seq<Event>, last: int, cur: int)
    requires Inv(s) && Clock(s, last, cur) && Timed(before + after, last, cur)
    requires Ready(Run(s, before)) && Ticks(after) >= 37
    ensures PUBLISHED in Run(s, before + after).flags
    decreases |before|
  {
    if before == [] {
      assert before + after == after;
      LeftBound(s, last, cur);
      Progress(s, after, last, cur);
    } else {
      var ev := before[0];
      assert (before + after)[0] == ev && (before + after)[1..] == before[1..] + after;
      StepKeepsInv(s, ev);
      StepProgress(s, ev, last, cur);
      hide Step, Inv, Clock, Left;
      Within37(Step(s, ev), before[1..], after, LastTick(ev, last), TimeOf(ev, cur));
    }
  }

  /**
   Whatever came before, whatever replies come or do not come in between: 37 timer attempts after a
   registered switch's ports are known, it has been announced.
   */
  lemma PublishedWithin37(before: seq<Event>, after: seq<Event>)
    requires Timed(before + after, 0, 0) && Ready(Run(START, before)) && Ticks(after) >= 37
    ensures PUBLISHED in Run(START, before + after).flags
  {
    Within37(START, before, after, 0, 0);
  }

  // ---------- The bound is met ----------

  /** `k` ticks, one a second from `t` on, by a master, and no replies. */
  function Silence(t: int, k: nat, scan: int): seq<Event> {
    seq(k, i => Tick(Env(t + 1 + i, t + 1 + i, true, scan)))
  }

  lemma SilenceIs(t: int, k: nat, scan: int)
    requires k > 0
    ensures |Silence(t, k, scan)| == k && Silence(t, k, scan)[0] == Tick(Env(t + 1, t + 1, true, scan))
    ensures Silence(t, k, scan)[1..] == Silence(t + 1, k - 1, scan)
  {
  }

  ghost predicate Steady(s: Sw, last: int) {
    Inv(s) && Clock(s, last, last) && Ready(s)
  }

  lemma SilentTick(s: Sw, last: int, scan: int)
    requires Steady(s, last) && PUBLISHED !in s.flags
    ensures var s' := Step(s, Tick(Env(last + 1, last + 1, true, scan)));
            Steady(s', last + 1) && Left(s', last + 1) == Left(s, last) - 1
  {
    var e := Env(last + 1, last + 1, true, scan);
    StepKeepsInv(s, Tick(e));
    StepProgress(s, Tick(e), last, last);
    var s2 := s.(flags := s.flags + {TBL_FEAT, VTBL_MAP_DONE});
    if PhasesLeft(s) > 0 {
      var p := if METER_DONE !in s.flags then Meters else if GROUP_DONE !in s.flags then Groups else Flows;
      AttemptProgress(s2, p, e, last, last);
      var s' := Attempt(s2, p, e.now, e.now2, e.scan);
      assert Step(s, Tick(e)) == s';
      assert PhasesLeft(s') == if Done(p) in s'.flags then PhasesLeft(s) - 1 else PhasesLeft(s) by { hide Ordered, Attempt; }
      hide Attempt, Step, TryPublish, Inv;
    }
  }

  /** A switch that never answers is announced by the last of `Left` ticks and by none before. */
  lemma {:induction false} SilentSwitch(s: Sw, last: int, k: nat, scan: int)
    requires Steady(s, last) && k <= Left(s, last)
    ensures PUBLISHED in Run(s, Silence(last, k, scan)).flags <==> k == Left(s, last)
    decreases k
  {
    LeftBound(s, last, last);
    assert PUBLISHED in s.flags <==> Left(s, last) == 0;
    hide Step, Steady, Left, Inv, Clock;
    if k > 0 {
      var ev := Tick(Env(last + 1, last + 1, true, scan));
      SilentTick(s, last, scan);
      SilenceIs(last, k, scan);
      hide Silence;
      SilentSwitch(Step(s, ev), last + 1, k - 1, scan);
    }
  }

  /** From a fresh switch whose ports are known, that is 37: the bound cannot be lowered. */
  lemma ThirtySevenIsTight(last: int, k: nat, scan: int)
    requires last >= 0
    ensures var s := START.(flags := {REGISTERED, PORT_FEAT});
            PUBLISHED in Run(s, Silence(last, k, scan)).flags ==> k >= 37
  {
    var s := START.(flags := {REGISTERED, PORT_FEAT});
    assert Steady(s, last) && Left(s, last) == 37;
    if k < 37 {
      SilentSwitch(s, last, k, scan);
    }
  }
}
