/** What every flow, group and meter command keeps, over whole runs. */
module RuleInv {
  import opened Sequences
  import opened RuleSpec

  // ---------- One table ----------

  predicate Sorted(l: seq<Rule>) {
    forall i, j :: 0 <= i < j < |l| ==> l[i].prio >= l[j].prio
  }

  predicate UniqueKeys(l: seq<Rule>) {
    forall i, j :: 0 <= i < j < |l| ==> !SameKey(l[i], l[j].flow, l[j].mask, l[j].prio)
  }

  predicate NoDup(s: seq<App>) {
    forall i, j :: 0 <= i < j < |s| ==> s[i] != s[j]
  }

  /** A rule has at least one owner, exactly one unless it is local, and counts them right. */
  predicate OwnersOk(r: Rule) {
    |r.owners| > 0 && NoDup(r.owners) && r.appRef == |r.owners| && (LOCAL !in r.flags ==> |r.owners| == 1)
  }

  predicate ListOk(l: seq<Rule>) {
    Sorted(l) && UniqueKeys(l) && forall i :: 0 <= i < |l| ==> OwnersOk(l[i])
  }

  /** Changing a rule in place without touching its key. */
  lemma SetOk(l: seq<Rule>, k: nat, r: Rule)
    requires ListOk(l) && k < |l| && OwnersOk(r) && r.flow == l[k].flow && r.mask == l[k].mask && r.prio == l[k].prio
    ensures ListOk(l[k := r])
  {
  }

  /** Where each rule of a list with `r` inserted at `k` comes from. */
  lemma InsertAt(l: seq<Rule>, k: nat, r: Rule, i: nat)
    requires k <= |l| && i <= |l|
    ensures Insert(l, k, r)[i] == if i < k then l[i] else if i == k then r else l[i - 1]
  {
  }

  /** Inserting a rule with a new key before the first rule it is not outranked by. */
  lemma InsertOk(l: seq<Rule>, r: Rule)
    requires ListOk(l) && OwnersOk(r) && FindFrom(l, r.flow, r.mask, r.prio, 0) == |l|
    ensures ListOk(Insert(l, HintFrom(l, r.prio, 0), r))
  {
    var k := HintFrom(l, r.prio, 0);
    var l' := Insert(l, k, r);
    hide Insert, HintFrom, FindFrom, OwnersOk;
    forall i, j | 0 <= i < j < |l| + 1
      ensures l'[i].prio >= l'[j].prio && !SameKey(l'[i], l'[j].flow, l'[j].mask, l'[j].prio)
    {
      InsertAt(l, k, r, i);
      InsertAt(l, k, r, j);
    }
    forall i | 0 <= i < |l| + 1 ensures OwnersOk(l'[i]) {
      InsertAt(l, k, r, i);
    }
  }

  lemma RemoveOk(l: seq<Rule>, k: nat)
    requires ListOk(l) && k < |l|
    ensures ListOk(Remove(l, k))
  {
    var l' := Remove(l, k);
    assert forall i :: 0 <= i < |l'| ==> l'[i] == if i < k then l[i] else l[i + 1];
  }

  /** The list after one owner left keeps the others, in order. */
  lemma {:induction false} DropOwnerIs(s: seq<App>, a: App)
    requires NoDup(s) && a in s
    ensures var r := DropOwner(s, a);
            |r| == |s| - 1 && NoDup(r) && (forall b :: b in r <==> b in s && b != a)
  {
    if s[0] != a {
      assert forall b :: b in s <==> b == s[0] || b in s[1..];
      DropOwnerIs(s[1..], a);
      var r := DropOwner(s[1..], a);
      assert s[0] !in s[1..];
    } else {
      assert forall b :: b in s <==> b == a || b in s[1..];
    }
  }

  // ---------- References ----------

  function Ids(r: Rule, k: Kind): seq<Id> {
    if k.Group? then r.groups else r.meters
  }

  /** How often the rules of a table list group (or meter) `g`. */
  function Uses(l: seq<Rule>, k: Kind, g: Id): nat {
    if l == [] then 0 else Uses(l[..|l| - 1], k, g) + multiset(Ids(l[|l| - 1], k))[g]
  }

  function TableUses(ts: seq<seq<Rule>>, k: Kind, g: Id): nat {
    if ts == [] then 0 else TableUses(ts[..|ts| - 1], k, g) + Uses(ts[|ts| - 1], k, g)
  }

  function Lost(sw: Sw, k: Kind, g: Id): nat {
    if k.Group? then sw.lostGroups[g] else sw.lostMeters[g]
  }

  function AllUses(sw: Sw, k: Kind, g: Id): nat {
    TableUses(sw.tables, k, g) + Uses(sw.limbo, k, g) + Lost(sw, k, g)
  }

  /** A group that is listed, held or lost exists, and its count says how often. */
  predicate RefOk(sw: Sw, k: Kind, g: Id) {
    if g in Objs(sw, k) then Objs(sw, k)[g].ref == AllUses(sw, k, g) else AllUses(sw, k, g) == 0
  }

  ghost predicate Inv(sw: Sw) {
    && |sw.tables| == MAX_TABLES
    && (forall t :: 0 <= t < MAX_TABLES ==> ListOk(sw.tables[t]))
    && forall k, g :: RefOk(sw, k, g)
  }

  lemma {:induction false} UsesJoin(a: seq<Rule>, b: seq<Rule>, k: Kind, g: Id)
    ensures Uses(a + b, k, g) == Uses(a, k, g) + Uses(b, k, g)
  {
    if b == [] {
      assert a + b == a;
    } else {
      assert (a + b)[..|a + b| - 1] == a + b[..|b| - 1];
      UsesJoin(a, b[..|b| - 1], k, g);
    }
  }

  lemma UsesInsert(l: seq<Rule>, i: nat, r: Rule, k: Kind, g: Id)
    requires i <= |l|
    ensures Uses(Insert(l, i, r), k, g) == Uses(l, k, g) + multiset(Ids(r, k))[g]
  {
    UsesJoin(l[..i] + [r], l[i..], k, g);
    UsesJoin(l[..i], l[i..], k, g);
    assert l[..i] + l[i..] == l;
    assert (l[..i] + [r])[..i] == l[..i];
  }

  lemma UsesRemove(l: seq<Rule>, i: nat, k: Kind, g: Id)
    requires i < |l|
    ensures Uses(l, k, g) == Uses(Remove(l, i), k, g) + multiset(Ids(l[i], k))[g]
  {
    UsesInsert(Remove(l, i), i, l[i], k, g);
    assert Insert(Remove(l, i), i, l[i]) == l;
  }

  lemma UsesSet(l: seq<Rule>, i: nat, r: Rule, k: Kind, g: Id)
    requires i < |l|
    ensures Uses(l[i := r], k, g) + multiset(Ids(l[i], k))[g] == Uses(l, k, g) + multiset(Ids(r, k))[g]
  {
    UsesRemove(l, i, k, g);
    UsesRemove(l[i := r], i, k, g);
    assert Remove(l[i := r], i) == Remove(l, i);
  }

  lemma {:induction false} TableSet(ts: seq<seq<Rule>>, t: nat, l: seq<Rule>, k: Kind, g: Id)
    requires t < |ts|
    ensures TableUses(ts[t := l], k, g) + Uses(ts[t], k, g) == TableUses(ts, k, g) + Uses(l, k, g)
  {
    var n := |ts| - 1;
    if t == n {
      assert ts[t := l][..n] == ts[..n];
    } else {
      assert ts[t := l][..n] == ts[..n][t := l];
      TableSet(ts[..n], t, l, k, g);
    }
  }

  /** A listed group is in the table of groups: a rule never points at a group that is gone. */
  lemma {:induction false} ListedIsUsed(l: seq<Rule>, i: nat, k: Kind, g: Id)
    requires i < |l| && g in Ids(l[i], k)
    ensures Uses(l, k, g) > 0
  {
    UsesRemove(l, i, k, g);
  }

  // ---------- Each command ----------

  lemma SetRuleUses(sw: Sw, t: nat, i: nat, r: Rule, k: Kind, g: Id)
    requires t < |sw.tables| && i < |sw.tables[t]|
    ensures AllUses(SetRule(sw, t, i, r), k, g) + multiset(Ids(sw.tables[t][i], k))[g] == AllUses(sw, k, g) + multiset(Ids(r, k))[g]
  {
    UsesSet(sw.tables[t], i, r, k, g);
    TableSet(sw.tables, t, sw.tables[t][i := r], k, g);
  }

  /** Changing a rule without its key or its references. */
  lemma SetRuleKeepsInv(sw: Sw, t: nat, i: nat, r: Rule)
    requires Inv(sw) && t < MAX_TABLES && i < |sw.tables[t]| && OwnersOk(r)
    requires var o := sw.tables[t][i]; r.flow == o.flow && r.mask == o.mask && r.prio == o.prio && r.groups == o.groups && r.meters == o.meters
    ensures Inv(SetRule(sw, t, i, r))
  {
    SetOk(sw.tables[t], i, r);
    forall k, g ensures RefOk(SetRule(sw, t, i, r), k, g) {
      assert RefOk(sw, k, g);
      SetRuleUses(sw, t, i, r, k, g);
    }
  }

  /** Swapping the references of one rule: counts move with the lists. */
  lemma SwapRefs(sw: Sw, sw': Sw, k: Kind, g: Id, was: seq<Id>, now: seq<Id>)
    requires RefOk(sw, k, g) && AllKnown(Objs(sw, k), now)
    requires AllUses(sw', k, g) + multiset(was)[g] == AllUses(sw, k, g) + multiset(now)[g]
    requires Objs(sw', k) == DropRefs(AddRefs(Objs(sw, k), now), was)
    ensures RefOk(sw', k, g)
  {
    if g !in Objs(sw, k) {
      assert g !in now;
    }
  }

  /** The refused change of a residual rule: its lists are gone, but the counts they explain are remembered as lost. */
  lemma RefusedKeepsInv(sw: Sw, i: nat, p: Params)
    requires Inv(sw) && p.table < MAX_TABLES && i < |sw.tables[p.table]|
    requires RESIDUAL in sw.tables[p.table][i].flags && RESIDUAL in p.flags
    ensures Inv(ModRule(sw, i, p).0)
  {
    var r := sw.tables[p.table][i];
    var r' := r.(groups := [], meters := []);
    assert OwnersOk(r);
    SetOk(sw.tables[p.table], i, r');
    hide ListOk, Uses, TableUses;
    forall k, g ensures RefOk(ModRule(sw, i, p).0, k, g) {
      assert RefOk(sw, k, g);
      SetRuleUses(sw, p.table, i, r', k, g);
    }
  }

  lemma ChangedKeepsInv(sw: Sw, i: nat, p: Params)
    requires Inv(sw) && p.table < MAX_TABLES && i < |sw.tables[p.table]|
    requires RESIDUAL in sw.tables[p.table][i].flags ==> LOCAL !in p.flags && RESIDUAL !in p.flags
    requires AllKnown(sw.groups, p.groups) && AllKnown(sw.meters, p.meters)
    ensures Inv(ModRule(sw, i, p).0)
  {
    var r := sw.tables[p.table][i];
    assert OwnersOk(r);
    var sw' := ModRule(sw, i, p).0;
    var r' := sw'.tables[p.table][i];
    SetOk(sw.tables[p.table], i, r');
    hide ListOk, RefOk;
    forall k, g ensures RefOk(sw', k, g) {
      assert RefOk(sw, k, g);
      ChangedRef(sw, i, p, k, g);
    }
  }

  lemma ChangedRef(sw: Sw, i: nat, p: Params, k: Kind, g: Id)
    requires p.table < |sw.tables| && i < |sw.tables[p.table]| && RefOk(sw, k, g)
    requires RESIDUAL in sw.tables[p.table][i].flags ==> RESIDUAL !in p.flags
    requires AllKnown(sw.groups, p.groups) && AllKnown(sw.meters, p.meters)
    ensures RefOk(ModRule(sw, i, p).0, k, g)
  {
    var sw' := ModRule(sw, i, p).0;
    var r, r' := sw.tables[p.table][i], sw'.tables[p.table][i];
    SetRuleUses(sw, p.table, i, r', k, g);
    hide Uses, TableUses, AddRefs, DropRefs;
    SwapRefs(sw, sw', k, g, Ids(r, k), Ids(r', k));
  }

  lemma ModKeepsInv(sw: Sw, i: nat, p: Params)
    requires Inv(sw) && p.table < MAX_TABLES && i < |sw.tables[p.table]|
    requires RESIDUAL in sw.tables[p.table][i].flags ==> LOCAL !in p.flags
    ensures Inv(ModRule(sw, i, p).0)
  {
    var r := sw.tables[p.table][i];
    assert OwnersOk(r);
    if RESIDUAL in r.flags && RESIDUAL in p.flags {
      RefusedKeepsInv(sw, i, p);
    } else if AllKnown(sw.groups, p.groups) && AllKnown(sw.meters, p.meters) {
      ChangedKeepsInv(sw, i, p);
    } else {
      hide Inv;
      SetRuleKeepsInv(sw, p.table, i, ModRule(sw, i, p).0.tables[p.table][i]);
    }
  }

  lemma AddKeepsInv(sw: Sw, p: Params, supported: bool, slave: bool)
    requires Inv(sw)
    ensures Inv(AddRule(sw, p, supported, slave).sw)
  {
    if ParamsValid(p, supported) {
      var l := sw.tables[p.table];
      var i := FindFrom(l, p.flow, p.mask, p.prio, 0);
      if i < |l| {
        var r := l[i];
        assert OwnersOk(r);
        if LOCAL in p.flags && RESIDUAL in r.flags {
        } else if LOCAL in p.flags && LOCAL in r.flags {
          SetRuleKeepsInv(sw, p.table, i, AddOwner(r, p.owner));
        } else if RESIDUAL !in r.flags && p.owner !in r.owners {
        } else if RESIDUAL !in r.flags && p.actions == r.actions {
          SetRuleKeepsInv(sw, p.table, i, r.(flags := r.flags - {STALE}));
        } else {
          hide Inv;
          ModKeepsInv(sw, i, p);
        }
      } else if AllKnown(sw.groups, p.groups) && AllKnown(sw.meters, p.meters) {
        InsertKeepsInv(sw, p, supported, slave);
      }
    }
  }

  lemma InsertKeepsInv(sw: Sw, p: Params, supported: bool, slave: bool)
    requires Inv(sw) && ParamsValid(p, supported)
    requires FindFrom(sw.tables[p.table], p.flow, p.mask, p.prio, 0) == |sw.tables[p.table]|
    requires AllKnown(sw.groups, p.groups) && AllKnown(sw.meters, p.meters)
    ensures Inv(AddRule(sw, p, supported, slave).sw)
  {
    var l := sw.tables[p.table];
    var at, sw' := HintFrom(l, p.prio, 0), AddRule(sw, p, supported, slave).sw;
    InsertOk(l, NewRule(p));
    hide ListOk, RefOk, Insert;
    forall k, g ensures RefOk(sw', k, g) {
      assert RefOk(sw, k, g);
      InsertRef(sw, p, at, k, g);
    }
  }

  lemma InsertRef(sw: Sw, p: Params, at: nat, k: Kind, g: Id)
    requires p.table < |sw.tables| && at <= |sw.tables[p.table]| && RefOk(sw, k, g)
    requires AllKnown(sw.groups, p.groups) && AllKnown(sw.meters, p.meters)
    ensures RefOk(sw.(tables := sw.tables[p.table := Insert(sw.tables[p.table], at, NewRule(p))],
                      groups := AddRefs(sw.groups, p.groups), meters := AddRefs(sw.meters, p.meters)), k, g)
  {
    var l := sw.tables[p.table];
    UsesInsert(l, at, NewRule(p), k, g);
    TableSet(sw.tables, p.table, Insert(l, at, NewRule(p)), k, g);
    hide Uses, TableUses, AddRefs, Insert;
    var sw' := sw.(tables := sw.tables[p.table := Insert(l, at, NewRule(p))],
                   groups := AddRefs(sw.groups, p.groups), meters := AddRefs(sw.meters, p.meters));
    NewRefs(sw, sw', k, g, Ids(NewRule(p), k));
  }

  lemma NewRefs(sw: Sw, sw': Sw, k: Kind, g: Id, now: seq<Id>)
    requires RefOk(sw, k, g) && AllKnown(Objs(sw, k), now)
    requires AllUses(sw', k, g) == AllUses(sw, k, g) + multiset(now)[g]
    requires Objs(sw', k) == AddRefs(Objs(sw, k), now)
    ensures RefOk(sw', k, g)
  {
    if g !in Objs(sw, k) {
      assert g !in now;
    }
  }

  /** A rule taken out of its table and released. */
  lemma ReleaseKeepsInv(sw: Sw, t: nat, i: nat, r: Rule)
    requires Inv(sw) && t < MAX_TABLES && i < |sw.tables[t]|
    requires r.groups == sw.tables[t][i].groups && r.meters == sw.tables[t][i].meters
    ensures Inv(Release(sw.(tables := sw.tables[t := Remove(sw.tables[t], i)]), r))
  {
    RemoveOk(sw.tables[t], i);
    hide ListOk, RefOk, Release, Remove;
    var sw' := Release(sw.(tables := sw.tables[t := Remove(sw.tables[t], i)]), r);
    forall k, g ensures RefOk(sw', k, g) {
      assert RefOk(sw, k, g);
      ReleaseRef(sw, t, i, r, k, g);
    }
  }

  lemma ReleaseRef(sw: Sw, t: nat, i: nat, r: Rule, k: Kind, g: Id)
    requires t < |sw.tables| && i < |sw.tables[t]| && RefOk(sw, k, g)
    requires r.groups == sw.tables[t][i].groups && r.meters == sw.tables[t][i].meters
    ensures RefOk(Release(sw.(tables := sw.tables[t := Remove(sw.tables[t], i)]), r), k, g)
  {
    UsesRemove(sw.tables[t], i, k, g);
    TableSet(sw.tables, t, Remove(sw.tables[t], i), k, g);
    hide Uses, TableUses, Remove, Release;
    ReleasedRef(sw.(tables := sw.tables[t := Remove(sw.tables[t], i)]), r, k, g);
  }

  /** Releasing a rule whose references were still counted, though it is no longer listed. */
  lemma ReleasedRef(sw: Sw, r: Rule, k: Kind, g: Id)
    requires (if g in Objs(sw, k) then Objs(sw, k)[g].ref else 0) == AllUses(sw, k, g) + multiset(Ids(r, k))[g]
    ensures RefOk(Release(sw, r), k, g)
  {
    if r.holds > 0 {
      LimboPush(sw.limbo, r.(holds := r.holds - 1), k, g);
    }
    hide Uses, TableUses;
  }

  lemma LimboPush(l: seq<Rule>, r: Rule, k: Kind, g: Id)
    ensures Uses(l + [r], k, g) == Uses(l, k, g) + multiset(Ids(r, k))[g]
  {
    assert (l + [r])[..|l|] == l;
  }

  lemma DelKeepsInv(sw: Sw, p: Params, supported: bool, slave: bool)
    requires Inv(sw)
    ensures Inv(DelRule(sw, p, supported, slave).sw)
  {
    if ParamsValid(p, supported) {
      var l := sw.tables[p.table];
      var i := DelFrom(l, p, 0);
      if i < |l| {
        assert OwnersOk(l[i]);
        DropOwnerIs(l[i].owners, p.owner);
        var r := Disowned(l[i], p.owner);
        if r.appRef != 0 {
          SetRuleKeepsInv(sw, p.table, i, r);
        } else {
          ReleaseKeepsInv(sw, p.table, i, r);
        }
      }
    }
  }

  lemma ObjKeepsInv(sw: Sw, p: ObjParams, accepted: bool, slave: bool)
    requires Inv(sw)
    ensures Inv(AddObj(sw, p, accepted, slave).sw) && Inv(DelObj(sw, p, accepted, slave).sw)
  {
    hide ListOk, RefOk;
    forall k, g ensures RefOk(AddObj(sw, p, accepted, slave).sw, k, g) && RefOk(DelObj(sw, p, accepted, slave).sw, k, g) {
      assert RefOk(sw, k, g);
      AddObjRef(sw, p, accepted, slave, k, g);
      DelObjRef(sw, p, accepted, slave, k, g);
    }
  }

  lemma AddObjRef(sw: Sw, p: ObjParams, accepted: bool, slave: bool, k: Kind, g: Id)
    requires RefOk(sw, k, g)
    ensures RefOk(AddObj(sw, p, accepted, slave).sw, k, g)
  {
    hide TableUses, Uses;
  }

  lemma DelObjRef(sw: Sw, p: ObjParams, accepted: bool, slave: bool, k: Kind, g: Id)
    requires RefOk(sw, k, g)
    ensures RefOk(DelObj(sw, p, accepted, slave).sw, k, g)
  {
    hide TableUses, Uses;
  }
}
