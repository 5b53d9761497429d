/** The switch object: its flow commands as loops over the rule lists, tied to RuleSpec. */
module RuleSwitch {
  import opened Sequences
  import opened RuleSpec
  import opened RuleInv
  import opened RuleRuns
  import opened RuleFacts
  import opened RuleAdds

  /** One walk finds the rule with this key and, if there is none, the place for a new one. */
  method FindWithHint(l: seq<Rule>, flow: int, mask: Mask, prio: nat) returns (found: nat, hint: nat)
    ensures found == FindFrom(l, flow, mask, prio, 0)
    ensures found == |l| ==> hint == HintFrom(l, prio, 0)
  {
    var i := 0;
    hint := |l|;
    while i < |l|
      invariant i <= |l| && hint <= |l|
      invariant FindFrom(l, flow, mask, prio, i) == FindFrom(l, flow, mask, prio, 0)
      invariant hint == |l| ==> HintFrom(l, prio, 0) == HintFrom(l, prio, i)
      invariant hint < |l| ==> hint == HintFrom(l, prio, 0)
    {
      if hint == |l| && prio >= l[i].prio {
        hint := i;
      }
      if SameKey(l[i], flow, mask, prio) {
        return i, hint;
      }
      i := i + 1;
    }
    found := |l|;
  }

  lemma AddThenDrop(objs: map<Id, Obj>, ids: seq<Id>)
    ensures DropRefs(AddRefs(objs, ids), ids) == objs
  {
  }

  lemma Count(ids: seq<Id>, i: nat)
    requires i < |ids|
    ensures multiset(ids[..i + 1]) == multiset(ids[..i]) + multiset{ids[i]}
  {
    assert ids[..i + 1] == ids[..i] + [ids[i]];
  }

  lemma DropOne(objs: map<Id, Obj>, ids: seq<Id>, i: nat)
    requires i < |ids|
    ensures var o, g := DropRefs(objs, ids[..i]), ids[i];
            DropRefs(objs, ids[..i + 1]) == if g in o then o[g := o[g].(ref := o[g].ref - 1)] else o
  {
    Count(ids, i);
    var o, g, s := DropRefs(objs, ids[..i]), ids[i], DropRefs(objs, ids[..i + 1]);
    if g in o {
      assert forall h :: h in s ==> s[h] == o[g := o[g].(ref := o[g].ref - 1)][h];
    }
  }

  /** Drops the references of a rule one at a time. */
  method Disassociate(objs: map<Id, Obj>, ids: seq<Id>) returns (o: map<Id, Obj>)
    ensures o == DropRefs(objs, ids)
  {
    o := objs;
    for i := 0 to |ids|
      invariant o == DropRefs(objs, ids[..i])
    {
      DropOne(objs, ids, i);
      hide DropRefs;
      if ids[i] in o {
        o := o[ids[i] := o[ids[i]].(ref := o[ids[i]].ref - 1)];
      }
    }
    assert ids[..|ids|] == ids;
  }

  lemma AddNone(objs: map<Id, Obj>)
    ensures AddRefs(objs, []) == objs
  {
  }

  lemma AddOne(objs: map<Id, Obj>, ids: seq<Id>, i: nat)
    requires i < |ids| && ids[i] in objs
    ensures var o, g := AddRefs(objs, ids[..i]), ids[i];
            g in o && AddRefs(objs, ids[..i + 1]) == o[g := o[g].(ref := o[g].ref + 1)]
  {
    Count(ids, i);
    var o, g, s := AddRefs(objs, ids[..i]), ids[i], AddRefs(objs, ids[..i + 1]);
    assert forall h :: h in s ==> s[h] == o[g := o[g].(ref := o[g].ref + 1)][h];
  }

  /** References every object named, or, when one is missing, none of them. */
  method Associate(objs: map<Id, Obj>, ids: seq<Id>) returns (ok: bool, o: map<Id, Obj>)
    ensures ok == AllKnown(objs, ids)
    ensures o == if ok then AddRefs(objs, ids) else objs
  {
    o := objs;
    var list: seq<Id> := [];
    AddNone(objs);
    hide AddRefs, DropRefs;
    for i := 0 to |ids|
      invariant list == ids[..i] && forall j :: 0 <= j < i ==> ids[j] in objs
      invariant o == AddRefs(objs, list) && o.Keys == objs.Keys
    {
      if ids[i] !in o {
        o := Disassociate(o, list);
        AddThenDrop(objs, list);
        return false, o;
      }
      AddOne(objs, ids, i);
      o := o[ids[i] := o[ids[i]].(ref := o[ids[i]].ref + 1)];
      list := list + [ids[i]];
    }
    assert ids[..|ids|] == ids;
    ok := true;
  }

  // ---------- Steps of the walk that takes an app off a table ----------

  /** `sent` so far, and walking on from `i` gives `goal`. */
  ghost predicate PurgesTo(sw: Sw, t: nat, i: nat, a: App, slave: bool, sent: seq<Hw>, goal: (Sw, seq<Hw>))
    requires t < |sw.tables| && i <= |sw.tables[t]|
  {
    var (s, more) := PurgeFrom(sw, t, i, a, slave);
    (s, sent + more) == goal
  }

  lemma PurgeBegins(sw: Sw, t: nat, a: App, slave: bool)
    requires t < |sw.tables|
    ensures PurgesTo(sw, t, 0, a, slave, [], PurgeFrom(sw, t, 0, a, slave))
  {
    var more := PurgeFrom(sw, t, 0, a, slave).1;
    assert [] + more == more;
  }

  lemma PurgeEnds(sw: Sw, t: nat, i: nat, a: App, slave: bool, sent: seq<Hw>, goal: (Sw, seq<Hw>))
    requires t < |sw.tables| && i == |sw.tables[t]| && PurgesTo(sw, t, i, a, slave, sent, goal)
    ensures (sw, sent) == goal
  {
    assert sent + [] == sent;
  }

  lemma Shorter(l: seq<Rule>, i: nat)
    requires i < |l|
    ensures |Remove(l, i)| == |l| - 1
  {
  }

  lemma PurgeStep(sw: Sw, t: nat, i: nat, a: App, slave: bool, sent: seq<Hw>, goal: (Sw, seq<Hw>))
    requires t < |sw.tables| && i < |sw.tables[t]| && PurgesTo(sw, t, i, a, slave, sent, goal)
    ensures var l := sw.tables[t];
            var r := Disowned(l[i], a);
            if a !in l[i].owners then PurgesTo(sw, t, i + 1, a, slave, sent, goal)
            else if r.appRef != 0 then PurgesTo(SetRule(sw, t, i, r), t, i + 1, a, slave, sent, goal)
            else PurgesTo(Release(sw.(tables := sw.tables[t := Remove(l, i)]), r), t, i, a, slave,
                          sent + (if LOCAL in r.flags || slave then [] else [FlowDel(r.flow, r.mask, r.prio, false)]), goal)
  {
    var l := sw.tables[t];
    var r := Disowned(l[i], a);
    Shorter(l, i);
    assert Release(sw.(tables := sw.tables[t := Remove(l, i)]), r).tables == sw.tables[t := Remove(l, i)];
    hide Disowned, Remove, Release;
    if a in l[i].owners && r.appRef == 0 {
      var hw := if LOCAL in r.flags || slave then [] else [FlowDel(r.flow, r.mask, r.prio, false)];
      var more := PurgeFrom(Release(sw.(tables := sw.tables[t := Remove(l, i)]), r), t, i, a, slave).1;
      assert sent + (hw + more) == sent + hw + more;
    }
  }

  // ---------- What the commands mean for counts and objects ----------

  /** The count of `g` is what its listings and those of `r`, which is listed no more, add up to. */
  ghost predicate Owed(sw: Sw, r: Rule, k: Kind, g: Id) {
    (if g in Objs(sw, k) then Objs(sw, k)[g].ref else 0) == AllUses(sw, k, g) + multiset(Ids(r, k))[g]
  }

  lemma OwedReleased(sw: Sw, r: Rule, k: Kind, g: Id)
    requires Owed(sw, r, k, g)
    ensures RefOk(Release(sw, r), k, g)
  {
    ReleasedRef(sw, r, k, g);
  }

  ghost predicate Listed(sw: Sw, k: Kind, g: Id) {
    exists t, i :: 0 <= t < |sw.tables| && 0 <= i < |sw.tables[t]| && g in Ids(sw.tables[t][i], k)
  }

  lemma ListedExists(sw: Sw, k: Kind, g: Id)
    requires Inv(sw) && Listed(sw, k, g)
    ensures g in Objs(sw, k) && Objs(sw, k)[g].ref > 0
  {
    var t, i :| 0 <= t < |sw.tables| && 0 <= i < |sw.tables[t]| && g in Ids(sw.tables[t][i], k);
    TableListed(sw, t, i, k, g);
    assert RefOk(sw, k, g);
    hide AllUses;
  }

  lemma SizeOf(sw: Sw)
    requires Inv(sw)
    ensures |sw.tables| == MAX_TABLES
  {
  }

  /** Only the object `g` of kind `k` may differ. */
  ghost predicate SameElse(s: Sw, r: Sw, k: Kind, g: Id) {
    && s.tables == r.tables && s.limbo == r.limbo
    && (if k.Group? then s.meters == r.meters else s.groups == r.groups)
    && (forall h :: h != g ==> (h in Objs(s, k) <==> h in Objs(r, k)))
    && (forall h :: h != g && h in Objs(s, k) ==> Objs(s, k)[h] == Objs(r, k)[h])
  }

  /** A successful add leaves what was asked for, with the references the object had; a refused one, what was there. */
  ghost predicate ObjAdded(s: Sw, r: Sw, p: ObjParams, ret: Ret) {
    var a, b := Objs(s, p.kind), Objs(r, p.kind);
    && SameElse(s, r, p.kind, p.id)
    && (ret == Ok ==> p.id in b && b[p.id].body == p.body && b[p.id].attr == p.attr
                      && b[p.id].ref == (if p.id in a then a[p.id].ref else 0)
                      && (p.id !in a || (O_RESIDUAL in a[p.id].flags && O_RESIDUAL !in p.flags) ==> b[p.id].owner == p.owner))
    && (ret == Exists ==> p.id in a && p.id in b && b[p.id].body == a[p.id].body && b[p.id].owner == a[p.id].owner
                          && b[p.id].ref == a[p.id].ref)
    && (ret == Failed ==> r == s)
  }

  /** The object exists, was not read back from the switch, and is another app's. */
  predicate NotOwner(sw: Sw, p: ObjParams) {
    var objs := Objs(sw, p.kind);
    p.id in objs && O_RESIDUAL !in objs[p.id].flags && objs[p.id].owner != p.owner
  }

  /** A group or meter read back from the switch, wanted by an app. */
  predicate ObjTaken(g: Obj, p: ObjParams) {
    O_RESIDUAL in g.flags && O_RESIDUAL !in p.flags
  }

  predicate ObjSame(g: Obj, p: ObjParams) {
    g.body == p.body && O_EXPIRED !in g.flags
  }

  /** When an add is refused because the object exists, what the switch is told, and the flags that are left. */
  ghost predicate ObjAnswered(s: Sw, r: Sw, p: ObjParams, slave: bool, ret: Ret, sent: seq<Hw>) {
    var a, b := Objs(s, p.kind), Objs(r, p.kind);
    if p.id !in a then
      && ret == Ok && p.id in b
      && sent == (if slave || O_RESIDUAL in p.flags then [] else [ObjAdd(p.kind, p.id, false)])
      && b[p.id].flags == p.flags + (if O_RESIDUAL in p.flags && p.id % 0x1_0000_0000 >= 0x8000_0000 then {O_STALE} else {})
    else
      var g := a[p.id];
      && p.id in b
      && (ret == Exists <==> NotOwner(s, p) || (ObjSame(g, p) && !ObjTaken(g, p)))
      && (ret != Exists ==> ret == Ok && b[p.id].flags == p.flags && (!ObjTaken(g, p) ==> b[p.id].owner == g.owner))
      && (ret == Exists && p.kind.Group? ==> b[p.id].flags == g.flags - {O_STALE} && b[p.id].attr == g.attr)
      && (ret == Exists && p.kind.Meter? ==> b[p.id].flags == g.flags && b[p.id].attr == g.attr & 0xFFBF)
      && sent == (if slave || ret == Exists || (ObjTaken(g, p) && ObjSame(g, p)) then [] else [ObjAdd(p.kind, p.id, true)])
  }

  lemma AddObjIs(sw: Sw, p: ObjParams, accepted: bool, slave: bool)
    ensures var o := AddObj(sw, p, accepted, slave);
            && ObjAdded(sw, o.sw, p, o.ret) && (o.ret == Failed <==> !accepted) && (!accepted ==> o.hw == [])
            && (accepted && NotOwner(sw, p) ==> o.ret == Exists)
  {
  }

  lemma AddObjAnswers(sw: Sw, p: ObjParams, slave: bool)
    ensures var o := AddObj(sw, p, true, slave); ObjAnswered(sw, o.sw, p, slave, o.ret, o.hw)
  {
    TopBit(p.id);
  }

  lemma TopBit(id: nat)
    ensures (id / 0x8000_0000) % 2 == 1 <==> id % 0x1_0000_0000 >= 0x8000_0000
  {
    var q, r := id / 0x1_0000_0000, id % 0x1_0000_0000;
    assert id == q * 0x1_0000_0000 + r;
    assert id / 0x8000_0000 == 2 * q + r / 0x8000_0000;
  }

  /** The object goes exactly if its owner asks and nothing refers to it; so never while a rule lists it. */
  lemma DelObjIs(sw: Sw, p: ObjParams, accepted: bool, slave: bool)
    ensures var o := DelObj(sw, p, accepted, slave);
            && SameElse(sw, o.sw, p.kind, p.id)
            && (p.id in Objs(sw, p.kind) && p.id !in Objs(o.sw, p.kind)
                <==> accepted && p.id in Objs(sw, p.kind) && Objs(sw, p.kind)[p.id].ref == 0 && Objs(sw, p.kind)[p.id].owner == p.owner)
            && (p.id in Objs(o.sw, p.kind) ==> o.sw == sw)
            && o.hw == (if !slave && p.id in Objs(sw, p.kind) && p.id !in Objs(o.sw, p.kind) then [ObjDel(p.kind, p.id)] else [])
            && (o.ret == Failed <==> !accepted || p.id !in Objs(sw, p.kind) || Objs(sw, p.kind)[p.id].ref != 0)
            && (o.ret != Failed ==> o.ret == Ok)
            && (Inv(sw) && Listed(sw, p.kind, p.id) ==> o.ret == Failed && o.sw == sw)
  {
    if Inv(sw) && Listed(sw, p.kind, p.id) {
      ListedExists(sw, p.kind, p.id);
    }
    hide Inv, Listed;
  }

  lemma PurgedTable(sw: Sw, t: nat, a: App, slave: bool)
    requires Inv(sw) && t < |sw.tables|
    ensures var (s, sent) := PurgeFrom(sw, t, 0, a, slave);
            && s.tables == sw.tables[t := Remaining(sw.tables[t], a)]
            && s.limbo == sw.limbo + Held(sw.tables[t], a) && sent == if slave then [] else Deletes(sw.tables[t], a)
  {
    var l := sw.tables[t];
    assert ListOk(l) && l[0..] == l;
    hide Inv, PurgeFrom, Remaining, Held, Deletes, OwnersOk;
    PurgeTableIs(sw, t, a, slave);
    PurgeFromHolds(sw, t, 0, a, slave);
  }

  /** Every table is without the app, held rules wait, and the switch is told of every rule that went and is not local. */
  ghost predicate Purged(s: Sw, r: Sw, a: App, slave: bool, sent: seq<Hw>) {
    && |r.tables| == |s.tables| && (forall t :: 0 <= t < |s.tables| ==> r.tables[t] == Remaining(s.tables[t], a))
    && r.limbo == s.limbo + AllHeld(s.tables, 0, a) && sent == if slave then [] else AllDeletes(s.tables, 0, a)
  }

  lemma PurgedAll(sw: Sw, a: App, slave: bool)
    requires Inv(sw)
    ensures var (s, sent) := PurgeTables(sw, 0, a, slave); Purged(sw, s, a, slave, sent)
  {
    assert |sw.tables| == MAX_TABLES && forall v :: 0 <= v < MAX_TABLES ==> ListOk(sw.tables[v]);
    hide Inv, PurgeTables, Remaining, AllHeld, AllDeletes, ListOk;
    PurgeSends(sw, 0, a, slave);
    PurgeHolds(sw, 0, a, slave);
    PurgeTablesAre(sw, 0, a, slave, 0);
    forall t | 0 <= t < |sw.tables| ensures PurgeTables(sw, 0, a, slave).0.tables[t] == Remaining(sw.tables[t], a) {
      PurgeTablesAre(sw, 0, a, slave, t);
    }
  }

  class FlowSwitch {
    var tables: seq<seq<Rule>>
    var limbo: seq<Rule>
    var groups: map<Id, Obj>
    var meters: map<Id, Obj>
    ghost var lostGroups: multiset<Id>
    ghost var lostMeters: multiset<Id>

    constructor ()
      ensures State() == Sw(seq(MAX_TABLES, i => []), [], map[], map[], multiset{}, multiset{})
    {
      tables, limbo, groups, meters := seq(MAX_TABLES, i => []), [], map[], map[];
      lostGroups, lostMeters := multiset{}, multiset{};
    }

    ghost function State(): Sw
      reads this
    {
      Sw(tables, limbo, groups, meters, lostGroups, lostMeters)
    }

    method Replace(t: nat, k: nat, r: Rule)
      requires t < |tables| && k < |tables[t]|
      modifies this`tables
      ensures State() == SetRule(old(State()), t, k, r)
    {
      tables := tables[t := tables[t][k := r]];
    }

    /** Takes a reference on every group and meter a rule names, or on none. */
    method AssociateBoth(p: Params) returns (ok: bool)
      modifies this`groups, this`meters
      ensures ok == (AllKnown(old(groups), p.groups) && AllKnown(old(meters), p.meters))
      ensures groups == if ok then AddRefs(old(groups), p.groups) else old(groups)
      ensures meters == if ok then AddRefs(old(meters), p.meters) else old(meters)
    {
      hide AddRefs, DropRefs, AllKnown;
      ok, groups := Associate(groups, p.groups);
      if ok {
        ok, meters := Associate(meters, p.meters);
        if !ok {
          groups := Disassociate(groups, p.groups);
          AddThenDrop(old(groups), p.groups);
        }
      }
    }

    /** Changes the rule at `k`: its lists are taken off first and put back when the change fails. */
    method Mod(k: nat, p: Params) returns (ok: bool, takeover: bool)
      requires p.table < |tables| && k < |tables[p.table]|
      modifies this
      ensures (State(), ok, takeover) == ModRule(old(State()), k, p)
    {
      hide AddRefs, DropRefs, AllKnown;
      var r := tables[p.table][k];
      var oldGroups, oldMeters := r.groups, r.meters;
      r := r.(groups := [], meters := []);
      takeover := false;
      if RESIDUAL in r.flags {
        if RESIDUAL in p.flags {
          Replace(p.table, k, r);
          lostGroups, lostMeters := lostGroups + multiset(oldGroups), lostMeters + multiset(oldMeters);
          return false, false;
        }
        r := r.(owners := [p.owner], appRef := r.appRef - |r.owners| + 1);
        takeover := true;
      }
      ok := AssociateBoth(p);
      if !ok {
        Replace(p.table, k, r.(groups := oldGroups, meters := oldMeters));
        return false, false;
      }
      groups := Disassociate(groups, oldGroups);
      meters := Disassociate(meters, oldMeters);
      Replace(p.table, k, r.(actions := p.actions, groups := p.groups, meters := p.meters,
                             flags := (if takeover then p.flags else r.flags) - {NO_ACK, STALE}));
    }

    /** Adding a rule whose key is new. */
    method AddNew(hint: nat, p: Params) returns (ret: Ret)
      requires p.table < |tables| && hint <= |tables[p.table]|
      modifies this
      ensures ret == if AllKnown(old(groups), p.groups) && AllKnown(old(meters), p.meters) then Ok else Invalid
      ensures State() == if ret.Ok? then old(State()).(tables := old(tables)[p.table := Insert(old(tables[p.table]), hint, NewRule(p))],
                                                       groups := AddRefs(old(groups), p.groups), meters := AddRefs(old(meters), p.meters))
                         else old(State())
    {
      hide AddRefs, AllKnown, Insert, NewRule;
      var ok := AssociateBoth(p);
      if !ok {
        return Invalid;
      }
      tables := tables[p.table := Insert(tables[p.table], hint, NewRule(p))];
      ret := Ok;
    }

    /** Adds a rule, changes the one with its key, or refuses; the answer is spelt out by what the table held. */
    method Add(p: Params, supported: bool, slave: bool) returns (ret: Ret, sent: seq<Hw>)
      requires |tables| == MAX_TABLES
      modifies this
      ensures Outcome(State(), ret, sent) == AddRule(old(State()), p, supported, slave)
      ensures old(Inv(State())) ==> Inv(State()) && Answered(old(State()), State(), p, supported, slave, ret, sent)
    {
      hide Inv, Answered;
      if Inv(State()) {
        AddKeepsInv(State(), p, supported, slave);
        AddAnswers(State(), p, supported, slave);
      }
      if !ParamsValid(p, supported) {
        return Invalid, [];
      }
      var l := tables[p.table];
      var k, hint := FindWithHint(l, p.flow, p.mask, p.prio);
      if k == |l| {
        ret := AddNew(hint, p);
        sent := if ret.Ok? then AddHw(NewRule(p), false, WantsHw(p, slave)) else [];
        return;
      }
      var r := l[k];
      if LOCAL in p.flags && RESIDUAL in r.flags {
        return Perm, [];
      }
      if LOCAL in p.flags && LOCAL in r.flags {
        Replace(p.table, k, AddOwner(r, p.owner));
        return Ok, [];
      }
      if RESIDUAL !in r.flags {
        if p.owner !in r.owners {
          return Perm, [];
        }
        if p.actions == r.actions {
          Replace(p.table, k, r.(flags := r.flags - {STALE}));
          return Exists, [];
        }
      }
      var ok, takeover := Mod(k, p);
      if !ok {
        return Invalid, [];
      }
      var send := if takeover then p.actions != r.actions else WantsHw(p, slave);
      return Ok, AddHw(tables[p.table][k], true, send && !slave);
    }

    /** A rule has left its table, its references still counted: afterwards every count is right again. */
    method Free(r: Rule)
      modifies this`limbo, this`groups, this`meters
      ensures State() == Release(old(State()), r)
      ensures forall k, g :: old(Owed(State(), r, k, g)) ==> RefOk(State(), k, g)
    {
      hide RefOk, Owed, DropRefs;
      ghost var was := State();
      forall k, g | Owed(was, r, k, g) ensures RefOk(Release(was, r), k, g) {
        OwedReleased(was, r, k, g);
      }
      if r.holds > 0 {
        limbo := limbo + [r.(holds := r.holds - 1)];
      } else {
        groups := Disassociate(groups, r.groups);
        meters := Disassociate(meters, r.meters);
      }
    }

    method Del(p: Params, supported: bool, slave: bool) returns (ret: Ret, sent: seq<Hw>)
      requires |tables| == MAX_TABLES
      modifies this
      ensures Outcome(State(), ret, sent) == DelRule(old(State()), p, supported, slave)
      ensures old(Inv(State())) ==> Inv(State()) && DelAnswered(old(State()), State(), p, supported, slave, ret, sent)
    {
      hide Inv, DelAnswered;
      if Inv(State()) {
        DelKeepsInv(State(), p, supported, slave);
        DelAnswers(State(), p, supported, slave);
      }
      if !ParamsValid(p, supported) {
        return Failed, [];
      }
      var l, k := tables[p.table], 0;
      while k < |l| && !DelMatch(l[k], p)
        invariant k <= |l| && DelFrom(l, p, 0) == DelFrom(l, p, k)
      {
        k := k + 1;
      }
      if k == |l| {
        return Failed, [];
      }
      var r := Disowned(l[k], p.owner);
      sent := if LOCAL in r.flags || slave then [] else [FlowDel(r.flow, r.mask, r.prio, true)];
      ret := Ok;
      if r.appRef != 0 {
        Replace(p.table, k, r);
      } else {
        tables := tables[p.table := Remove(l, k)];
        Free(r);
      }
    }

    method SetObjs(k: Kind, objs: map<Id, Obj>)
      modifies this`groups, this`meters
      ensures State() == WithObjs(old(State()), k, objs)
    {
      if k.Group? {
        groups := objs;
      } else {
        meters := objs;
      }
    }

    /** Adds a group or meter, or changes the one with its id. */
    method AddObject(p: ObjParams, accepted: bool, slave: bool) returns (ret: Ret, sent: seq<Hw>)
      modifies this`groups, this`meters
      ensures Outcome(State(), ret, sent) == AddObj(old(State()), p, accepted, slave)
      ensures old(Inv(State())) ==> Inv(State())
      ensures ObjAdded(old(State()), State(), p, ret) && (ret == Failed <==> !accepted)
      ensures accepted && NotOwner(old(State()), p) ==> ret == Exists
      ensures if accepted then ObjAnswered(old(State()), State(), p, slave, ret, sent) else sent == []
    {
      hide NotOwner, Unstale, WithObjs, Inv, ObjAdded, ObjAnswered;
      AddObjIs(State(), p, accepted, slave);
      AddObjAnswers(State(), p, slave);
      if Inv(State()) {
        ObjKeepsInv(State(), p, accepted, slave);
      }
      if !accepted {
        return Failed, [];
      }
      var objs := if p.kind.Group? then groups else meters;
      if p.id !in objs {
        var flags := p.flags;
        if O_RESIDUAL in flags && (p.id / 0x8000_0000) % 2 == 1 {
          flags := flags + {O_STALE};
        }
        SetObjs(p.kind, objs[p.id := Obj(p.owner, 0, p.attr, flags, p.body)]);
        return Ok, if !slave && O_RESIDUAL !in p.flags then [ObjAdd(p.kind, p.id, false)] else [];
      }
      var g := objs[p.id];
      var takeover := O_RESIDUAL in g.flags && O_RESIDUAL !in p.flags;
      var diff := g.body != p.body || O_EXPIRED in g.flags;
      if (O_RESIDUAL !in g.flags && g.owner != p.owner) || (!diff && !takeover) {
        SetObjs(p.kind, objs[p.id := Unstale(p.kind, g)]);
        return Exists, [];
      }
      SetObjs(p.kind, objs[p.id := Obj(if takeover then p.owner else g.owner, g.ref, p.attr, p.flags, p.body)]);
      return Ok, if !slave && (!takeover || diff) then [ObjAdd(p.kind, p.id, true)] else [];
    }

    /** Deletes a group or meter nothing refers to. */
    method DelObject(p: ObjParams, accepted: bool, slave: bool) returns (ret: Ret, sent: seq<Hw>)
      modifies this`groups, this`meters
      ensures Outcome(State(), ret, sent) == DelObj(old(State()), p, accepted, slave)
      ensures old(Inv(State())) ==> Inv(State())
      ensures SameElse(old(State()), State(), p.kind, p.id)
      ensures var objs := old(Objs(State(), p.kind));
              p.id in objs && p.id !in Objs(State(), p.kind) <==> accepted && p.id in objs && objs[p.id].ref == 0 && objs[p.id].owner == p.owner
      ensures var gone := old(p.id in Objs(State(), p.kind)) && p.id !in Objs(State(), p.kind);
              && sent == (if gone && !slave then [ObjDel(p.kind, p.id)] else [])
              && (!gone ==> State() == old(State()))
      ensures var objs := old(Objs(State(), p.kind));
              ret == if accepted && p.id in objs && objs[p.id].ref == 0 then Ok else Failed
      ensures old(Inv(State()) && Listed(State(), p.kind, p.id)) ==> ret == Failed && State() == old(State())
    {
      hide Inv, SameElse, Listed;
      DelObjIs(State(), p, accepted, slave);
      if Inv(State()) {
        ObjKeepsInv(State(), p, accepted, slave);
      }
      var objs := if p.kind.Group? then groups else meters;
      if !accepted || p.id !in objs || objs[p.id].ref != 0 {
        return Failed, [];
      }
      if objs[p.id].owner != p.owner {
        return Ok, [];
      }
      SetObjs(p.kind, objs - {p.id});
      return Ok, if slave then [] else [ObjDel(p.kind, p.id)];
    }

    /** Takes an app off the rules of one table, splicing out the rules it alone owned. */
    method PurgeTable(t: nat, a: App, slave: bool) returns (sent: seq<Hw>)
      requires t < |tables|
      modifies this
      ensures (State(), sent) == PurgeFrom(old(State()), t, 0, a, slave)
      ensures old(Inv(State())) ==>
                && Inv(State()) && tables == old(tables)[t := Remaining(old(tables)[t], a)]
                && limbo == old(limbo) + Held(old(tables)[t], a) && sent == if slave then [] else Deletes(old(tables)[t], a)
    {
      hide Inv, Remaining, Held, Deletes;
      if Inv(State()) {
        SizeOf(State());
        PurgeFromKeepsInv(State(), t, 0, a, slave);
        PurgedTable(State(), t, a, slave);
      }
      sent := [];
      var i := 0;
      ghost var goal := PurgeFrom(State(), t, 0, a, slave);
      PurgeBegins(State(), t, a, slave);
      hide PurgeFrom, PurgesTo, Disowned, Remove, Release;
      while i < |tables[t]|
        invariant t < |tables| && i <= |tables[t]| && PurgesTo(State(), t, i, a, slave, sent, goal)
        decreases |tables[t]| - i
      {
        PurgeStep(State(), t, i, a, slave, sent, goal);
        var l := tables[t];
        if a in l[i].owners {
          var r := Disowned(l[i], a);
          if r.appRef == 0 {
            sent := sent + if LOCAL in r.flags || slave then [] else [FlowDel(r.flow, r.mask, r.prio, false)];
            tables := tables[t := Remove(l, i)];
            Shorter(l, i);
            Free(r);
            continue;
          }
          Replace(t, i, r);
        }
        i := i + 1;
      }
      PurgeEnds(State(), t, i, a, slave, sent, goal);
    }

    method Purge(a: App, slave: bool) returns (sent: seq<Hw>)
      modifies this
      ensures (State(), sent) == PurgeTables(old(State()), 0, a, slave)
      ensures old(Inv(State())) ==> Inv(State()) && Purged(old(State()), State(), a, slave, sent)
    {
      hide Inv, Purged;
      if Inv(State()) {
        PurgeKeepsInv(State(), 0, a, slave);
        PurgedAll(State(), a, slave);
      }
      hide PurgeFrom;
      sent := [];
      var t := 0;
      assert sent + PurgeTables(State(), 0, a, slave).1 == PurgeTables(State(), 0, a, slave).1;
      while t < |tables|
        invariant t <= |tables| == |old(tables)|
        invariant var rest := PurgeTables(State(), t, a, slave);
                  (rest.0, sent + rest.1) == PurgeTables(old(State()), 0, a, slave)
      {
        ghost var rest := PurgeTables(State(), t, a, slave);
        var more := PurgeTable(t, a, slave);
        assert sent + rest.1 == (sent + more) + PurgeTables(State(), t + 1, a, slave).1;
        sent := sent + more;
        t := t + 1;
      }
      assert sent + [] == sent;
    }
  }
}
