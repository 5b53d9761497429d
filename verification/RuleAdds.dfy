/** What each flow, group and meter command answers: its return code, what it tells the switch, and what it leaves. */
module RuleAdds {
  import opened Sequences
  import opened RuleSpec
  import opened RuleInv

  // ---------- Adding a rule ----------

  predicate Acceptable(p: Params, supported: bool) {
    supported && p.table < 255 && NOCACHE !in p.flags && (CLONE in p.flags ==> LOCAL !in p.flags)
  }

  /** The rule names a group or meter there is none of. */
  predicate Missing(sw: Sw, p: Params) {
    (exists g :: g in p.groups && g !in sw.groups) || (exists g :: g in p.meters && g !in sw.meters)
  }

  /** Only reference counts differ. */
  ghost predicate SameButRefs(a: map<Id, Obj>, b: map<Id, Obj>) {
    a.Keys == b.Keys && forall g :: g in a ==> b[g] == a[g].(ref := b[g].ref)
  }

  /** Rules that left their table, and groups and meters but for their counts, are as they were. */
  ghost predicate OthersKept(s: Sw, r: Sw) {
    r.limbo == s.limbo && SameButRefs(s.groups, r.groups) && SameButRefs(s.meters, r.meters)
  }

  /** One add or change of this key and these actions, if the switch is to be told. */
  function Told(p: Params, mask: Mask, change: bool, tell: bool): seq<Hw> {
    if tell then [FlowAdd(p.flow, mask, p.prio, p.actions, change)] else []
  }

  /** This controller is not a slave, and the rule is meant for the switch and not known to be there. */
  predicate ForSwitch(p: Params, slave: bool) {
    !slave && p.flags !! {NOSYNC, CLONE, RESIDUAL, LOCAL}
  }

  function Fresh(p: Params): Rule {
    Rule(p.flow, p.mask, p.prio, p.flags - {NO_ACK} + (if p.flags >= {RES_STALE, RESIDUAL} then {STALE} else {}),
         [p.owner], 1, p.actions, p.groups, p.meters, 0)
  }

  /** An add of a new key: the rule goes before all it is not outranked by, and the switch is told by its flags. */
  ghost predicate NewAdded(s: Sw, r: Sw, p: Params, slave: bool, ret: Ret, sent: seq<Hw>)
    requires p.table < |s.tables|
  {
    var l := s.tables[p.table];
    if Missing(s, p) then r == s && ret == Invalid && sent == []
    else
      && ret == Ok && sent == Told(p, p.mask, false, ForSwitch(p, slave)) && OthersKept(s, r)
      && exists at: nat :: at <= |l| && r.tables == s.tables[p.table := l[..at] + [Fresh(p)] + l[at..]]
                           && (forall j :: 0 <= j < at ==> l[j].prio > p.prio) && (at < |l| ==> l[at].prio <= p.prio)
  }

  /** Only the rule at `k` differs, and is now `b`. */
  ghost predicate NowIs(s: Sw, r: Sw, t: nat, k: nat, b: Rule)
    requires t < |s.tables| && k < |s.tables[t]|
  {
    r.tables == s.tables[t := s.tables[t][k := b]] && OthersKept(s, r)
  }

  /** An add over a rule read back from the switch: it is taken over, unless this is itself read back or local. */
  ghost predicate TakenOver(s: Sw, r: Sw, p: Params, k: nat, slave: bool, ret: Ret, sent: seq<Hw>)
    requires p.table < |s.tables| && k < |s.tables[p.table]|
  {
    var b := s.tables[p.table][k];
    if LOCAL in p.flags then r == s && ret == Perm && sent == []
    else if RESIDUAL in p.flags then NowIs(s, r, p.table, k, b.(groups := [], meters := [])) && ret == Invalid && sent == []
    else if Missing(s, p) then NowIs(s, r, p.table, k, b.(owners := [p.owner], appRef := 1)) && ret == Invalid && sent == []
    else
      && NowIs(s, r, p.table, k, b.(owners := [p.owner], appRef := 1, actions := p.actions, groups := p.groups,
                                    meters := p.meters, flags := p.flags - {NO_ACK, STALE}))
      && ret == Ok && sent == Told(p, b.mask, true, !slave && p.actions != b.actions)
  }

  /** An add over any other rule: a local one is shared, and only an owner may change what a rule does. */
  ghost predicate Changed(s: Sw, r: Sw, p: Params, k: nat, slave: bool, ret: Ret, sent: seq<Hw>)
    requires p.table < |s.tables| && k < |s.tables[p.table]|
  {
    var b := s.tables[p.table][k];
    if LOCAL in p.flags && LOCAL in b.flags then
      && (p.owner in b.owners ==> r == s)
      && (p.owner !in b.owners ==> NowIs(s, r, p.table, k, b.(owners := b.owners + [p.owner], appRef := b.appRef + 1)))
      && ret == Ok && sent == []
    else if p.owner !in b.owners then r == s && ret == Perm && sent == []
    else if p.actions == b.actions then NowIs(s, r, p.table, k, b.(flags := b.flags - {STALE})) && ret == Exists && sent == []
    else if Missing(s, p) then r == s && ret == Invalid && sent == []
    else
      && NowIs(s, r, p.table, k, b.(actions := p.actions, groups := p.groups, meters := p.meters,
                                    flags := b.flags - {NO_ACK, STALE}))
      && ret == Ok && sent == Told(p, b.mask, true, ForSwitch(p, slave))
  }

  /** The rule has the flow, the priority and, padding apart, the mask. */
  predicate AtKey(r: Rule, p: Params) {
    r.flow == p.flow && r.prio == p.prio && r.mask.bits == p.mask.bits
  }

  /** The answer to an add, by the rule that has its key, if any. */
  ghost predicate Answered(s: Sw, r: Sw, p: Params, supported: bool, slave: bool, ret: Ret, sent: seq<Hw>)
    requires |s.tables| == MAX_TABLES
  {
    if !Acceptable(p, supported) then r == s && ret == Invalid && sent == []
    else
      var l := s.tables[p.table];
      && ((forall i :: 0 <= i < |l| ==> !AtKey(l[i], p)) ==> NewAdded(s, r, p, slave, ret, sent))
      && (forall k :: 0 <= k < |l| && AtKey(l[k], p) ==>
                        if RESIDUAL in l[k].flags then TakenOver(s, r, p, k, slave, ret, sent) else Changed(s, r, p, k, slave, ret, sent))
  }

  lemma MissingIs(sw: Sw, p: Params)
    ensures Missing(sw, p) <==> !AllKnown(sw.groups, p.groups) || !AllKnown(sw.meters, p.meters)
  {
    assert forall i :: 0 <= i < |p.groups| ==> p.groups[i] in p.groups;
    assert forall i :: 0 <= i < |p.meters| ==> p.meters[i] in p.meters;
  }

  lemma RefsOnly(a: map<Id, Obj>, x: seq<Id>, y: seq<Id>)
    ensures SameButRefs(a, AddRefs(a, x)) && SameButRefs(a, DropRefs(a, y)) && SameButRefs(a, DropRefs(AddRefs(a, x), y))
  {
  }

  lemma SetBack(sw: Sw, t: nat, k: nat)
    requires t < |sw.tables| && k < |sw.tables[t]|
    ensures SetRule(sw, t, k, sw.tables[t][k]) == sw
  {
    assert sw.tables[t][k := sw.tables[t][k]] == sw.tables[t];
  }

  lemma NewAnswered(sw: Sw, p: Params, supported: bool, slave: bool)
    requires |sw.tables| == MAX_TABLES && Acceptable(p, supported)
    requires FindFrom(sw.tables[p.table], p.flow, p.mask, p.prio, 0) == |sw.tables[p.table]|
    ensures var o := AddRule(sw, p, supported, slave); NewAdded(sw, o.sw, p, slave, o.ret, o.hw)
  {
    hide FindFrom, AllKnown, AddRefs, Missing;
    MissingIs(sw, p);
    RefsOnly(sw.groups, p.groups, []);
    RefsOnly(sw.meters, p.meters, []);
    assert NewRule(p) == Fresh(p);
    hide NewRule, Fresh, SameButRefs;
  }

  lemma Itself(sw: Sw)
    ensures OthersKept(sw, sw)
  {
  }

  /** What a change leaves of the rule, over one read back from the switch and over any other. */
  lemma ModLeaves(sw: Sw, k: nat, p: Params)
    requires p.table < |sw.tables| && k < |sw.tables[p.table]| && OwnersOk(sw.tables[p.table][k])
    ensures var (b, o) := (sw.tables[p.table][k], ModRule(sw, k, p));
            var residual := RESIDUAL in b.flags;
            && o.1 == !((residual && RESIDUAL in p.flags) || Missing(sw, p)) && o.2 == (o.1 && residual)
            && NowIs(sw, o.0, p.table, k,
                     if residual && RESIDUAL in p.flags then b.(groups := [], meters := [])
                     else
                       var c := if residual then b.(owners := [p.owner], appRef := 1) else b;
                       if !o.1 then c
                       else c.(actions := p.actions, groups := p.groups, meters := p.meters,
                               flags := (if residual then p.flags else b.flags) - {NO_ACK, STALE}))
            && (!o.1 && !residual ==> o.0 == sw)
  {
    hide AllKnown, AddRefs, DropRefs, Missing;
    var b := sw.tables[p.table][k];
    MissingIs(sw, p);
    SetBack(sw, p.table, k);
    RefsOnly(sw.groups, p.groups, b.groups);
    RefsOnly(sw.meters, p.meters, b.meters);
    Itself(sw);
    hide SameButRefs;
  }

  lemma TakenAnswered(sw: Sw, p: Params, supported: bool, slave: bool, k: nat)
    requires |sw.tables| == MAX_TABLES && Acceptable(p, supported)
    requires k == FindFrom(sw.tables[p.table], p.flow, p.mask, p.prio, 0) < |sw.tables[p.table]|
    requires RESIDUAL in sw.tables[p.table][k].flags && OwnersOk(sw.tables[p.table][k])
    ensures var o := AddRule(sw, p, supported, slave); TakenOver(sw, o.sw, p, k, slave, o.ret, o.hw)
  {
    hide FindFrom, HintFrom, AllKnown, AddRefs, Missing, ModRule, OthersKept, NewRule, Insert;
    ModLeaves(sw, k, p);
    ModSize(sw, k, p);
  }

  lemma ModSize(sw: Sw, k: nat, p: Params)
    requires p.table < |sw.tables| && k < |sw.tables[p.table]|
    ensures var s := ModRule(sw, k, p).0; |s.tables| == |sw.tables| && |s.tables[p.table]| == |sw.tables[p.table]|
  {
    hide AllKnown, AddRefs, DropRefs;
  }

  lemma ChangeAnswered(sw: Sw, p: Params, supported: bool, slave: bool, k: nat)
    requires |sw.tables| == MAX_TABLES && Acceptable(p, supported)
    requires k == FindFrom(sw.tables[p.table], p.flow, p.mask, p.prio, 0) < |sw.tables[p.table]|
    requires RESIDUAL !in sw.tables[p.table][k].flags && OwnersOk(sw.tables[p.table][k])
    ensures var o := AddRule(sw, p, supported, slave); Changed(sw, o.sw, p, k, slave, o.ret, o.hw)
  {
    hide FindFrom, HintFrom, AllKnown, AddRefs, Missing, ModRule, NewRule, Insert, SameButRefs;
    Itself(sw);
    SetBack(sw, p.table, k);
    ModLeaves(sw, k, p);
    ModSize(sw, k, p);
    hide OwnersOk;
  }

  /** Every add gets this return code, tells the switch this, and leaves this. */
  lemma AddAnswers(sw: Sw, p: Params, supported: bool, slave: bool)
    requires Inv(sw)
    ensures var o := AddRule(sw, p, supported, slave); |o.sw.tables| == |sw.tables| && Answered(sw, o.sw, p, supported, slave, o.ret, o.hw)
  {
    assert |sw.tables| == MAX_TABLES;
    if Acceptable(p, supported) {
      var l := sw.tables[p.table];
      assert ListOk(l);
      var k := FindFrom(l, p.flow, p.mask, p.prio, 0);
      if k == |l| {
        NoKey(l, p);
        NewAnswered(sw, p, supported, slave);
      } else {
        assert OwnersOk(l[k]);
        if RESIDUAL in l[k].flags {
          TakenAnswered(sw, p, supported, slave, k);
        } else {
          ChangeAnswered(sw, p, supported, slave, k);
        }
        OnlyKey(l, k, p);
      }
      hide Inv, ListOk, FindFrom, Changed, TakenOver, NewAdded, AddRule;
      SameSize(sw, p, supported, slave);
    }
  }

  lemma SameSize(sw: Sw, p: Params, supported: bool, slave: bool)
    requires |sw.tables| == MAX_TABLES
    ensures |AddRule(sw, p, supported, slave).sw.tables| == MAX_TABLES
  {
    hide FindFrom, HintFrom, Insert, NewRule, AddRefs, AllKnown;
  }

  lemma NoKey(l: seq<Rule>, p: Params)
    requires FindFrom(l, p.flow, p.mask, p.prio, 0) == |l|
    ensures forall i :: 0 <= i < |l| ==> !AtKey(l[i], p)
  {
    assert forall i :: 0 <= i < |l| ==> !SameKey(l[i], p.flow, p.mask, p.prio);
  }

  lemma OnlyKey(l: seq<Rule>, k: nat, p: Params)
    requires ListOk(l) && k < |l| && SameKey(l[k], p.flow, p.mask, p.prio)
    ensures AtKey(l[k], p) && forall j :: 0 <= j < |l| && AtKey(l[j], p) ==> j == k
  {
  }

  // ---------- Deleting a rule ----------

  /** The caller owns a rule with exactly this flow, mask and priority, and it is at `k`. */
  predicate Owns(l: seq<Rule>, p: Params, k: nat) {
    k < |l| && l[k].flow == p.flow && l[k].mask == p.mask && l[k].prio == p.prio && p.owner in l[k].owners
  }

  /**
   A rule the caller shares loses that owner. One it alone owns leaves the table, and stays with the lookups
   that hold it, references and all, if there are any.
   */
  ghost predicate Withdrawn(s: Sw, r: Sw, p: Params, k: nat, slave: bool, ret: Ret, sent: seq<Hw>)
    requires p.table < |s.tables| && k < |s.tables[p.table]|
  {
    var l := s.tables[p.table];
    var b := l[k];
    && ret == Ok && sent == (if slave || LOCAL in b.flags then [] else [FlowDel(p.flow, p.mask, p.prio, true)])
    && (if b.owners == [p.owner] then
          && r.tables == s.tables[p.table := l[..k] + l[k + 1..]]
          && (b.holds == 0 ==> r.limbo == s.limbo && r.groups == DropRefs(s.groups, b.groups) && r.meters == DropRefs(s.meters, b.meters))
          && (b.holds > 0 ==> r.limbo == s.limbo + [b.(owners := [], appRef := 0, holds := b.holds - 1)]
                              && r.groups == s.groups && r.meters == s.meters)
        else
          && r.limbo == s.limbo && r.groups == s.groups && r.meters == s.meters
          && exists x: seq<App> :: r.tables == s.tables[p.table := l[k := b.(owners := x, appRef := |x|)]]
                         && multiset(x) == multiset(b.owners) - multiset{p.owner})
  }

  ghost predicate DelAnswered(s: Sw, r: Sw, p: Params, supported: bool, slave: bool, ret: Ret, sent: seq<Hw>)
    requires |s.tables| == MAX_TABLES
  {
    if !Acceptable(p, supported) then r == s && ret == Failed && sent == []
    else
      && ((forall k: nat :: !Owns(s.tables[p.table], p, k)) ==> r == s && ret == Failed && sent == [])
      && (forall k: nat :: Owns(s.tables[p.table], p, k) ==> Withdrawn(s, r, p, k, slave, ret, sent))
  }

  lemma {:induction false} OneOwnerLess(owners: seq<App>, a: App)
    requires a in owners
    ensures multiset(DropOwner(owners, a)) == multiset(owners) - multiset{a} && |DropOwner(owners, a)| == |owners| - 1
  {
    assert owners == [owners[0]] + owners[1..];
    if owners[0] != a {
      OneOwnerLess(owners[1..], a);
    }
  }

  lemma SoleOwner(owners: seq<App>, a: App)
    requires a in owners
    ensures |owners| == 1 <==> owners == [a]
    ensures owners == [a] ==> DropOwner(owners, a) == []
  {
  }

  lemma FoundWithdrawn(sw: Sw, p: Params, supported: bool, slave: bool, k: nat)
    requires |sw.tables| == MAX_TABLES && Acceptable(p, supported)
    requires k == DelFrom(sw.tables[p.table], p, 0) < |sw.tables[p.table]| && OwnersOk(sw.tables[p.table][k])
    ensures var o := DelRule(sw, p, supported, slave); Withdrawn(sw, o.sw, p, k, slave, o.ret, o.hw)
  {
    hide DelFrom, DropRefs, DropOwner, Release;
    var l := sw.tables[p.table];
    var b := l[k];
    OneOwnerLess(b.owners, p.owner);
    SoleOwner(b.owners, p.owner);
    if b.owners == [p.owner] {
      SoleWithdrawn(sw, p, supported, slave, k);
    } else {
      SharedWithdrawn(sw, p, supported, slave, k, DropOwner(b.owners, p.owner));
    }
    hide DelRule, Withdrawn;
  }

  lemma SoleWithdrawn(sw: Sw, p: Params, supported: bool, slave: bool, k: nat)
    requires |sw.tables| == MAX_TABLES && Acceptable(p, supported)
    requires k == DelFrom(sw.tables[p.table], p, 0) < |sw.tables[p.table]| && OwnersOk(sw.tables[p.table][k])
    requires sw.tables[p.table][k].owners == [p.owner]
    ensures var o := DelRule(sw, p, supported, slave); Withdrawn(sw, o.sw, p, k, slave, o.ret, o.hw)
  {
    hide DelFrom, DropRefs, Release;
    var l := sw.tables[p.table];
    var r := Disowned(l[k], p.owner);
    SoleOwner(l[k].owners, p.owner);
    assert r == l[k].(owners := [], appRef := 0);
    hide Disowned, DropOwner, OwnersOk;
    ReleaseIs(sw.(tables := sw.tables[p.table := Remove(l, k)]), r);
  }

  lemma SharedWithdrawn(sw: Sw, p: Params, supported: bool, slave: bool, k: nat, x: seq<App>)
    requires |sw.tables| == MAX_TABLES && Acceptable(p, supported)
    requires k == DelFrom(sw.tables[p.table], p, 0) < |sw.tables[p.table]| && OwnersOk(sw.tables[p.table][k])
    requires var b := sw.tables[p.table][k];
             b.owners != [p.owner] && |b.owners| != 1 && x == DropOwner(b.owners, p.owner)
             && |x| == |b.owners| - 1 && multiset(x) == multiset(b.owners) - multiset{p.owner}
    ensures var o := DelRule(sw, p, supported, slave); Withdrawn(sw, o.sw, p, k, slave, o.ret, o.hw)
  {
    hide DelFrom, DropRefs, DropOwner, Release, Remove;
    var b := sw.tables[p.table][k];
    assert Disowned(b, p.owner) == b.(owners := x, appRef := |x|);
    hide Disowned;
  }

  /** A rule that left its table gives its references back if no lookup holds it, and otherwise waits. */
  lemma ReleaseIs(sw: Sw, r: Rule)
    ensures r.holds == 0 ==> Release(sw, r) == sw.(groups := DropRefs(sw.groups, r.groups), meters := DropRefs(sw.meters, r.meters))
    ensures r.holds > 0 ==> Release(sw, r) == sw.(limbo := sw.limbo + [r.(holds := r.holds - 1)])
  {
    hide DropRefs;
  }

  /** Every delete gets this return code, tells the switch this, and leaves this. */
  lemma DelAnswers(sw: Sw, p: Params, supported: bool, slave: bool)
    requires Inv(sw)
    ensures var o := DelRule(sw, p, supported, slave); DelAnswered(sw, o.sw, p, supported, slave, o.ret, o.hw)
  {
    assert |sw.tables| == MAX_TABLES;
    if Acceptable(p, supported) {
      var l := sw.tables[p.table];
      assert ListOk(l);
      var k := DelFrom(l, p, 0);
      if k < |l| {
        assert OwnersOk(l[k]);
        FoundWithdrawn(sw, p, supported, slave, k);
        assert Owns(l, p, k);
        OnlyOwned(l, p, k);
      } else {
        assert forall j :: 0 <= j < |l| ==> !DelMatch(l[j], p);
      }
      hide Inv, ListOk, DelFrom, Withdrawn;
    }
  }

  lemma OnlyOwned(l: seq<Rule>, p: Params, k: nat)
    requires ListOk(l) && Owns(l, p, k)
    ensures forall j: nat :: Owns(l, p, j) ==> j == k
  {
  }

  // ---------- Lookups ----------

  /** Looking a rule up and letting go of it again leaves everything as it was. */
  lemma HoldThenLetGo(sw: Sw, t: nat, i: nat)
    requires t < |sw.tables| && i < |sw.tables[t]|
    ensures var s := Hold(sw, t, i);
            && |s.tables| == |sw.tables| && |s.tables[t]| == |sw.tables[t]| && s.tables[t][i].holds == sw.tables[t][i].holds + 1
            && Unhold(s, t, i) == sw
  {
    var s := Hold(sw, t, i);
    var b := sw.tables[t][i];
    assert s.tables[t][i := b] == sw.tables[t];
    assert Unhold(s, t, i).tables == sw.tables;
  }

  lemma DelFound(l: seq<Rule>, p: Params, k: nat)
    requires Owns(l, p, k) && forall j :: 0 <= j < k ==> !Owns(l, p, j)
    ensures DelFrom(l, p, 0) == k
  {
    var f := DelFrom(l, p, 0);
    assert f <= k;
    assert Owns(l, p, f);
  }

  /** A rule deleted while a lookup holds it is, once that lets go, deleted just as if it had never been held. */
  lemma DeleteWhileHeld(sw: Sw, p: Params, supported: bool, slave: bool, k: nat)
    requires Inv(sw) && Acceptable(p, supported) && Owns(sw.tables[p.table], p, k) && sw.tables[p.table][k].owners == [p.owner]
    ensures var o := DelRule(Hold(sw, p.table, k), p, supported, slave);
            && |o.sw.limbo| == |sw.limbo| + 1 && o.sw.groups == sw.groups && o.sw.meters == sw.meters
            && UnholdLimbo(o.sw, |sw.limbo|) == DelRule(sw, p, supported, slave).sw
            && o.hw == DelRule(sw, p, supported, slave).hw
  {
    var l := sw.tables[p.table];
    assert ListOk(l);
    var b := l[k];
    assert OwnersOk(b);
    var h := Hold(sw, p.table, k);
    var l' := h.tables[p.table];
    assert l' == l[k := b.(holds := b.holds + 1)];
    OnlyOwned(l, p, k);
    DelFound(l, p, k);
    DelFound(l', p, k);
    assert Remove(l', k) == Remove(l, k);
    var o := DelRule(h, p, supported, slave).sw;
    hide DelFrom, ListOk, Inv, DropRefs, Remove;
    SoleOwner(b.owners, p.owner);
    assert o.tables == sw.tables[p.table := Remove(l, k)];
    LastOut(sw.limbo, Disowned(b, p.owner));
  }

  lemma LastOut(l: seq<Rule>, r: Rule)
    ensures Remove(l + [r], |l|) == l
  {
  }
}
