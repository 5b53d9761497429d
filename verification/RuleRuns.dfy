/** Whole runs of flow, group and meter commands, and what apps can rely on. */
module RuleRuns {
  import opened Sequences
  import opened RuleSpec
  import opened RuleInv

  datatype Cmd =
    | AddFlow(p: Params, supported: bool)
    | DelFlow(p: Params, supported: bool)
    | AddGrp(o: ObjParams, accepted: bool)
    | DelGrp(o: ObjParams, accepted: bool)
    | LookupRule(t: nat, i: nat)
    | PutRule(t: nat, i: nat)
    | PutLimbo(i: nat)
    | PurgeApp(a: App)

  predicate Enabled(sw: Sw, c: Cmd) {
    match c
    case LookupRule(t, i) => t < |sw.tables| && i < |sw.tables[t]|
    case PutRule(t, i) => t < |sw.tables| && i < |sw.tables[t]| && sw.tables[t][i].holds > 0
    case PutLimbo(i) => i < |sw.limbo|
    case _ => true
  }

  function Exec(sw: Sw, c: Cmd, slave: bool): (r: Sw)
    requires |sw.tables| == MAX_TABLES && Enabled(sw, c)
  {
    match c
    case AddFlow(p, supported) => AddRule(sw, p, supported, slave).sw
    case DelFlow(p, supported) => DelRule(sw, p, supported, slave).sw
    case AddGrp(o, accepted) => AddObj(sw, o, accepted, slave).sw
    case DelGrp(o, accepted) => DelObj(sw, o, accepted, slave).sw
    case LookupRule(t, i) => Hold(sw, t, i)
    case PutRule(t, i) => Unhold(sw, t, i)
    case PutLimbo(i) => UnholdLimbo(sw, i)
    case PurgeApp(a) => PurgeTables(sw, 0, a, slave).0
  }

  lemma UnholdLimboKeepsInv(sw: Sw, i: nat)
    requires Inv(sw) && i < |sw.limbo|
    ensures Inv(UnholdLimbo(sw, i))
  {
    hide ListOk, RefOk, Release, Remove;
    forall k, g ensures RefOk(UnholdLimbo(sw, i), k, g) {
      assert RefOk(sw, k, g);
      LimboRef(sw, i, k, g);
    }
  }

  lemma LimboRef(sw: Sw, i: nat, k: Kind, g: Id)
    requires RefOk(sw, k, g) && i < |sw.limbo|
    ensures RefOk(UnholdLimbo(sw, i), k, g)
  {
    UsesRemove(sw.limbo, i, k, g);
    hide Uses, TableUses, Remove, Release;
    ReleasedRef(sw.(limbo := Remove(sw.limbo, i)), sw.limbo[i], k, g);
  }

  lemma {:induction false} PurgeFromKeepsInv(sw: Sw, t: nat, i: nat, a: App, slave: bool)
    requires Inv(sw) && t < MAX_TABLES && i <= |sw.tables[t]|
    ensures Inv(PurgeFrom(sw, t, i, a, slave).0)
    decreases |sw.tables[t]| - i
  {
    var l := sw.tables[t];
    if i < |l| {
      assert OwnersOk(l[i]);
      if a !in l[i].owners {
        PurgeFromKeepsInv(sw, t, i + 1, a, slave);
      } else {
        DropOwnerIs(l[i].owners, a);
        var r := Disowned(l[i], a);
        if r.appRef != 0 {
          SetRuleKeepsInv(sw, t, i, r);
          PurgeFromKeepsInv(SetRule(sw, t, i, r), t, i + 1, a, slave);
        } else {
          ReleaseKeepsInv(sw, t, i, r);
          PurgeFromKeepsInv(Release(sw.(tables := sw.tables[t := Remove(l, i)]), r), t, i, a, slave);
        }
      }
    }
  }

  lemma {:induction false} PurgeKeepsInv(sw: Sw, t: nat, a: App, slave: bool)
    requires Inv(sw) && t <= MAX_TABLES
    ensures Inv(PurgeTables(sw, t, a, slave).0)
    decreases MAX_TABLES - t
  {
    if t < MAX_TABLES {
      PurgeFromKeepsInv(sw, t, 0, a, slave);
      PurgeKeepsInv(PurgeFrom(sw, t, 0, a, slave).0, t + 1, a, slave);
    }
  }

  lemma ExecKeepsInv(sw: Sw, c: Cmd, slave: bool)
    requires Inv(sw) && Enabled(sw, c)
    ensures Inv(Exec(sw, c, slave))
  {
    match c
    case AddFlow(p, supported) => AddKeepsInv(sw, p, supported, slave);
    case DelFlow(p, supported) => DelKeepsInv(sw, p, supported, slave);
    case AddGrp(o, accepted) => ObjKeepsInv(sw, o, accepted, slave);
    case DelGrp(o, accepted) => ObjKeepsInv(sw, o, accepted, slave);
    case LookupRule(t, i) =>
      assert OwnersOk(sw.tables[t][i]);
      SetRuleKeepsInv(sw, t, i, sw.tables[t][i].(holds := sw.tables[t][i].holds + 1));
    case PutRule(t, i) =>
      assert OwnersOk(sw.tables[t][i]);
      SetRuleKeepsInv(sw, t, i, sw.tables[t][i].(holds := sw.tables[t][i].holds - 1));
    case PutLimbo(i) => UnholdLimboKeepsInv(sw, i);
    case PurgeApp(a) => PurgeKeepsInv(sw, 0, a, slave);
  }

  const EMPTY := Sw(seq(MAX_TABLES, i => []), [], map[], map[], multiset{}, multiset{})

  /** `cs`, each with the role it ran under, is a run from `s` to `r`. */
  ghost predicate Run(s: Sw, cs: seq<(Cmd, bool)>, r: Sw)
    decreases |cs|
  {
    if cs == [] then s == r
    else |s.tables| == MAX_TABLES && Enabled(s, cs[0].0) && Run(Exec(s, cs[0].0, cs[0].1), cs[1..], r)
  }

  lemma {:induction false} RunKeepsInv(s: Sw, cs: seq<(Cmd, bool)>, r: Sw)
    requires Inv(s) && Run(s, cs, r)
    ensures Inv(r)
    decreases |cs|
  {
    if cs != [] {
      ExecKeepsInv(s, cs[0].0, cs[0].1);
      RunKeepsInv(Exec(s, cs[0].0, cs[0].1), cs[1..], r);
    }
  }

  lemma {:induction false} NoUses(ts: seq<seq<Rule>>, k: Kind, g: Id)
    requires forall t :: 0 <= t < |ts| ==> ts[t] == []
    ensures TableUses(ts, k, g) == 0
  {
    if ts != [] {
      NoUses(ts[..|ts| - 1], k, g);
    }
  }

  lemma EmptyInv()
    ensures Inv(EMPTY)
  {
    forall k, g ensures RefOk(EMPTY, k, g) {
      NoUses(EMPTY.tables, k, g);
    }
  }
}
