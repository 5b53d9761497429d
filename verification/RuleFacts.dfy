/** What apps can rely on: lookups, removals, and how long a group or meter lives. */
module RuleFacts {
  import opened Sequences
  import opened RuleSpec
  import opened RuleInv
  import opened RuleRuns

  // ---------- Lookup ----------

  predicate Eligible(r: Rule, residual: bool) {
    if residual then LOCAL !in r.flags else RESIDUAL !in r.flags
  }

  /** The rule a packet hits: the first eligible match, which no other match outranks. */
  method Lookup(l: seq<Rule>, matches: Rule -> bool, residual: bool) returns (k: nat)
    ensures k == |l| <==> forall r :: r in l ==> !(Eligible(r, residual) && matches(r))
    ensures k < |l| ==> Eligible(l[k], residual) && matches(l[k])
    ensures k < |l| && ListOk(l) ==>
              forall i :: 0 <= i < |l| && i != k && Eligible(l[i], residual) && matches(l[i]) ==>
                l[i].prio <= l[k].prio && (l[i].prio == l[k].prio ==> k < i)
  {
    k := 0;
    while k < |l|
      invariant k <= |l|
      invariant forall i :: 0 <= i < k ==> !(Eligible(l[i], residual) && matches(l[i]))
    {
      if Eligible(l[k], residual) && matches(l[k]) {
        return;
      }
      k := k + 1;
    }
  }

  // ---------- Adding a rule ----------

  /**
   The key of `p` has a rule its caller owns, doing what was asked (or, for a shared local rule, what it did
   before), and no other rule of any table has changed.
   */
  ghost predicate Installed(sw: Sw, o: Sw, p: Params, k: nat)
    requires p.table < |sw.tables| == |o.tables|
  {
    var l, l' := sw.tables[p.table], o.tables[p.table];
    && (forall u :: 0 <= u < |sw.tables| && u != p.table ==> o.tables[u] == sw.tables[u])
    && k < |l'| && SameKey(l'[k], p.flow, p.mask, p.prio) && p.owner in l'[k].owners
    && ((l'[k].actions == p.actions && l'[k].groups == p.groups && l'[k].meters == p.meters)
        || (LOCAL in p.flags && LOCAL in l'[k].flags
            && exists b :: b in l && SameKey(b, p.flow, p.mask, p.prio) && l'[k] == AddOwner(b, p.owner)))
    && forall r :: !SameKey(r, p.flow, p.mask, p.prio) ==> (r in l' <==> r in l)
  }

  lemma AddInstalls(sw: Sw, p: Params, supported: bool, slave: bool) returns (k: nat)
    requires Inv(sw) && AddRule(sw, p, supported, slave).ret == Ok
    ensures var o := AddRule(sw, p, supported, slave).sw;
            |o.tables| == MAX_TABLES && Installed(sw, o, p, k)
  {
    var l := sw.tables[p.table];
    assert ListOk(l);
    k := FindFrom(l, p.flow, p.mask, p.prio, 0);
    if k == |l| {
      k := HintFrom(l, p.prio, 0);
      InsertInstalls(l, k, p);
      hide FindFrom, HintFrom, AddRefs, ListOk, Insert, AllKnown;
    } else {
      ChangeInstalls(sw, p, supported, slave, k);
      hide AddRule, Installed;
    }
  }

  lemma ChangeInstalls(sw: Sw, p: Params, supported: bool, slave: bool, k: nat)
    requires Inv(sw) && AddRule(sw, p, supported, slave).ret == Ok
    requires k == FindFrom(sw.tables[p.table], p.flow, p.mask, p.prio, 0) < |sw.tables[p.table]|
    ensures var o := AddRule(sw, p, supported, slave).sw;
            |o.tables| == MAX_TABLES && Installed(sw, o, p, k)
  {
    var l := sw.tables[p.table];
    ChangedRule(sw, p, supported, slave, k);
    var r := AddRule(sw, p, supported, slave).sw.tables[p.table][k];
    assert l[k] in l;
    SetElsewhere(l, k, r, p);
    hide AddRule, FindFrom;
  }

  lemma ChangedRule(sw: Sw, p: Params, supported: bool, slave: bool, k: nat)
    requires Inv(sw) && AddRule(sw, p, supported, slave).ret == Ok
    requires k == FindFrom(sw.tables[p.table], p.flow, p.mask, p.prio, 0) < |sw.tables[p.table]|
    ensures var (o, l) := (AddRule(sw, p, supported, slave).sw, sw.tables[p.table]);
            && |o.tables| == MAX_TABLES && |o.tables[p.table]| == |l|
            && var r := o.tables[p.table][k];
            && o.tables == sw.tables[p.table := l[k := r]]
            && SameKey(r, p.flow, p.mask, p.prio) && p.owner in r.owners
            && ((r.actions == p.actions && r.groups == p.groups && r.meters == p.meters)
                || (LOCAL in p.flags && LOCAL in r.flags && r == AddOwner(l[k], p.owner)))
  {
    hide FindFrom, HintFrom, AddRefs, DropRefs, AllKnown, Insert, NewRule;
    assert ListOk(sw.tables[p.table]);
    assert OwnersOk(sw.tables[p.table][k]);
    hide ListOk, OwnersOk, Inv;
  }

  lemma InsertInstalls(l: seq<Rule>, k: nat, p: Params)
    requires k <= |l|
    ensures |Insert(l, k, NewRule(p))| == |l| + 1 && Insert(l, k, NewRule(p))[k] == NewRule(p)
    ensures forall r :: !SameKey(r, p.flow, p.mask, p.prio) ==> (r in Insert(l, k, NewRule(p)) <==> r in l)
  {
    assert l == l[..k] + l[k..];
  }

  lemma SetElsewhere(l: seq<Rule>, k: nat, r: Rule, p: Params)
    requires k < |l| && SameKey(l[k], p.flow, p.mask, p.prio) && SameKey(r, p.flow, p.mask, p.prio)
    ensures forall b :: !SameKey(b, p.flow, p.mask, p.prio) ==> (b in l[k := r] <==> b in l)
  {
    forall b | !SameKey(b, p.flow, p.mask, p.prio) && b in l ensures b in l[k := r] {
      var i :| 0 <= i < |l| && l[i] == b;
      assert l[k := r][i] == b;
    }
  }

  // ---------- Deleting one rule ----------

  /**
   A delete succeeds exactly when the caller owns a rule with that flow, mask and priority. The rule leaves
   the table exactly when nobody else owns it; a rule that is not local always leaves, and exactly then,
   unless this controller is a slave, the switch is told.
   */
  lemma DeleteIs(sw: Sw, p: Params, supported: bool, slave: bool, k: nat)
    requires Inv(sw) && ParamsValid(p, supported) && k < |sw.tables[p.table]| && DelMatch(sw.tables[p.table][k], p)
    ensures var (o, l) := (DelRule(sw, p, supported, slave), sw.tables[p.table]);
            && o.ret == Ok
            && o.sw.tables == sw.tables[p.table := if l[k].owners == [p.owner] then Remove(l, k) else l[k := Disowned(l[k], p.owner)]]
            && (LOCAL !in l[k].flags ==> l[k].owners == [p.owner])
            && o.hw == if LOCAL !in l[k].flags && !slave then [FlowDel(p.flow, p.mask, p.prio, true)] else []
  {
    var l := sw.tables[p.table];
    assert ListOk(l) && OwnersOk(l[k]);
    var f := DelFrom(l, p, 0);
    assert f == k;
    LastOwner(l[k], p.owner);
    hide Remove, DelFrom, ListOk;
  }

  // ---------- An app's rules are removed ----------

  function Left(r: Rule, a: App): Rule {
    if a in r.owners then Disowned(r, a) else r
  }

  /** A table without the rules `a` alone owned, and without `a` on the others. */
  function Remaining(l: seq<Rule>, a: App): seq<Rule> {
    if l == [] then [] else (if l[0].owners == [a] then [] else [Left(l[0], a)]) + Remaining(l[1..], a)
  }

  /** The deletes the switch must see: one for each rule that goes and is not local. */
  function Deletes(l: seq<Rule>, a: App): seq<Hw> {
    if l == [] then []
    else (if l[0].owners == [a] && LOCAL !in l[0].flags then [FlowDel(l[0].flow, l[0].mask, l[0].prio, false)] else [])
         + Deletes(l[1..], a)
  }

  lemma LastOwner(r: Rule, a: App)
    requires OwnersOk(r) && a in r.owners
    ensures Disowned(r, a).appRef == 0 <==> r.owners == [a]
  {
    if |r.owners| == 1 {
      assert r.owners[0] == a;
    }
  }

  /** The rules of a table `a` alone owned that lookups hold; they keep their references until those let go. */
  function Held(l: seq<Rule>, a: App): seq<Rule> {
    if l == [] then []
    else (if l[0].owners == [a] && l[0].holds > 0 then [l[0].(owners := [], appRef := 0, holds := l[0].holds - 1)] else [])
         + Held(l[1..], a)
  }

  ghost predicate PurgeIs(sw: Sw, t: nat, i: nat, a: App, slave: bool)
    requires t < |sw.tables| && i <= |sw.tables[t]|
  {
    var (s, hw) := PurgeFrom(sw, t, i, a, slave);
    && s.tables == sw.tables[t := sw.tables[t][..i] + Remaining(sw.tables[t][i..], a)]
    && hw == if slave then [] else Deletes(sw.tables[t][i..], a)
  }

  /** Walking a table from position `i` on leaves what `Remaining` says, and deletes what `Deletes` says. */
  lemma {:induction false} PurgeFromIs(sw: Sw, t: nat, i: nat, a: App, slave: bool)
    requires t < |sw.tables| && i <= |sw.tables[t]|
    requires forall j :: i <= j < |sw.tables[t]| ==> OwnersOk(sw.tables[t][j])
    ensures PurgeIs(sw, t, i, a, slave)
    decreases |sw.tables[t]| - i
  {
    var l := sw.tables[t];
    if i == |l| {
      assert l[..i] + Remaining(l[i..], a) == l;
    } else {
      assert OwnersOk(l[i]);
      if a !in l[i].owners {
        PurgeFromIs(sw, t, i + 1, a, slave);
        PurgeSkip(sw, t, i, a, slave);
      } else {
        var r := Disowned(l[i], a);
        LastOwner(l[i], a);
        if l[i].owners != [a] {
          PurgeFromIs(SetRule(sw, t, i, r), t, i + 1, a, slave);
          PurgeKept(sw, t, i, a, slave);
        } else {
          PurgeFromIs(Release(sw.(tables := sw.tables[t := Remove(l, i)]), r), t, i, a, slave);
          PurgeCut(sw, t, i, a, slave);
        }
      }
    }
  }

  lemma PurgeSkip(sw: Sw, t: nat, i: nat, a: App, slave: bool)
    requires t < |sw.tables| && i < |sw.tables[t]| && a !in sw.tables[t][i].owners
    requires PurgeIs(sw, t, i + 1, a, slave)
    ensures PurgeIs(sw, t, i, a, slave)
  {
    var l := sw.tables[t];
    assert l[i + 1..] == l[i..][1..];
    assert l[..i] + Remaining(l[i..], a) == l[..i + 1] + Remaining(l[i + 1..], a);
  }

  lemma PurgeKept(sw: Sw, t: nat, i: nat, a: App, slave: bool)
    requires t < |sw.tables| && i < |sw.tables[t]| && OwnersOk(sw.tables[t][i])
    requires a in sw.tables[t][i].owners && sw.tables[t][i].owners != [a]
    requires PurgeIs(SetRule(sw, t, i, Disowned(sw.tables[t][i], a)), t, i + 1, a, slave)
    ensures PurgeIs(sw, t, i, a, slave)
  {
    var l, r := sw.tables[t], Disowned(sw.tables[t][i], a);
    var l' := l[i := r];
    LastOwner(l[i], a);
    assert l'[i + 1..] == l[i + 1..] == l[i..][1..];
    assert r == Left(l[i..][0], a);
    hide Disowned, DropOwner, OwnersOk, Left;
    assert Remaining(l[i..], a) == [r] + Remaining(l[i + 1..], a);
    var l2 := l[..i] + Remaining(l[i..], a);
    assert l2 == l'[..i + 1] + Remaining(l[i + 1..], a);
    assert sw.tables[t := l'][t := l2] == sw.tables[t := l2];
    assert Deletes(l[i..], a) == Deletes(l[i + 1..], a);
    hide Remaining, Deletes;
  }

  lemma PurgeCut(sw: Sw, t: nat, i: nat, a: App, slave: bool)
    requires t < |sw.tables| && i < |sw.tables[t]| && OwnersOk(sw.tables[t][i]) && sw.tables[t][i].owners == [a]
    requires var r := Disowned(sw.tables[t][i], a);
             PurgeIs(Release(sw.(tables := sw.tables[t := Remove(sw.tables[t], i)]), r), t, i, a, slave)
    ensures PurgeIs(sw, t, i, a, slave)
  {
    var l, r := sw.tables[t], Disowned(sw.tables[t][i], a);
    LastOwner(l[i], a);
    var l' := Remove(l, i);
    assert l'[i..] == l[i + 1..] == l[i..][1..];
    assert l'[..i] == l[..i];
    assert l[i..][0] == l[i];
    assert Remaining(l[i..], a) == Remaining(l[i + 1..], a);
    assert sw.tables[t := l'][t := l[..i] + Remaining(l[i..], a)] == sw.tables[t := l[..i] + Remaining(l[i..], a)];
    hide Release, Remove;
  }

  /** Every rule of the new table is an old one, and what an app without rules sees is untouched. */
  lemma {:induction false} RemainingAre(l: seq<Rule>, a: App, r: Rule)
    ensures r in Remaining(l, a) <==> exists i :: 0 <= i < |l| && l[i].owners != [a] && r == Left(l[i], a)
  {
    if l != [] {
      RemainingAre(l[1..], a, r);
      if r in Remaining(l[1..], a) {
        var i :| 0 <= i < |l[1..]| && l[1..][i].owners != [a] && r == Left(l[1..][i], a);
        assert l[i + 1] == l[1..][i];
      }
      if i :| 0 <= i < |l| && l[i].owners != [a] && r == Left(l[i], a) {
        if i > 0 {
          assert l[i] == l[1..][i - 1];
        }
      }
    }
  }

  lemma PurgeTableIs(sw: Sw, t: nat, a: App, slave: bool)
    requires t < |sw.tables| && ListOk(sw.tables[t])
    ensures PurgeFrom(sw, t, 0, a, slave).0.tables == sw.tables[t := Remaining(sw.tables[t], a)]
    ensures PurgeFrom(sw, t, 0, a, slave).1 == if slave then [] else Deletes(sw.tables[t], a)
  {
    var l := sw.tables[t];
    PurgeFromIs(sw, t, 0, a, slave);
    assert l[0..] == l && l[..0] + Remaining(l, a) == Remaining(l, a);
    hide ListOk, PurgeFrom, Remaining, Deletes;
  }

  /** After an app's rules are removed, every table is what `Remaining` says, whatever order they were walked in. */
  lemma {:induction false} PurgeTablesAre(sw: Sw, t: nat, a: App, slave: bool, u: nat)
    requires |sw.tables| == MAX_TABLES && t <= MAX_TABLES && u < MAX_TABLES
    requires forall v :: 0 <= v < MAX_TABLES ==> ListOk(sw.tables[v])
    ensures var s := PurgeTables(sw, t, a, slave).0;
            |s.tables| == MAX_TABLES && s.tables[u] == if u < t then sw.tables[u] else Remaining(sw.tables[u], a)
    decreases MAX_TABLES - t
  {
    if t < MAX_TABLES {
      var l := sw.tables[t];
      assert ListOk(l);
      PurgeTableIs(sw, t, a, slave);
      RemainingOk(l, a);
      hide ListOk, PurgeFrom, Remaining;
      var s := PurgeFrom(sw, t, 0, a, slave).0;
      PurgeTablesAre(s, t + 1, a, slave, u);
    }
  }

  function AllDeletes(ts: seq<seq<Rule>>, t: nat, a: App): seq<Hw>
    requires t <= |ts|
    decreases |ts| - t
  {
    if t == |ts| then [] else Deletes(ts[t], a) + AllDeletes(ts, t + 1, a)
  }

  lemma {:induction false} AllDeletesFrom(ts: seq<seq<Rule>>, us: seq<seq<Rule>>, t: nat, a: App)
    requires t <= |ts| == |us| && forall u :: t <= u < |ts| ==> ts[u] == us[u]
    ensures AllDeletes(ts, t, a) == AllDeletes(us, t, a)
    decreases |ts| - t
  {
    if t < |ts| {
      AllDeletesFrom(ts, us, t + 1, a);
    }
  }

  lemma PurgeTablesStep(sw: Sw, t: nat, a: App, slave: bool)
    requires t < |sw.tables|
    ensures PurgeTables(sw, t, a, slave).1 ==
            PurgeFrom(sw, t, 0, a, slave).1 + PurgeTables(PurgeFrom(sw, t, 0, a, slave).0, t + 1, a, slave).1
    ensures AllDeletes(sw.tables, t, a) == Deletes(sw.tables[t], a) + AllDeletes(sw.tables, t + 1, a)
  {
    hide PurgeFrom, Deletes;
  }

  /** The switch is told to delete exactly the rules that go and are not local, once each, table by table. */
  lemma {:induction false} PurgeSends(sw: Sw, t: nat, a: App, slave: bool)
    requires |sw.tables| == MAX_TABLES && t <= MAX_TABLES
    requires forall v :: 0 <= v < MAX_TABLES ==> ListOk(sw.tables[v])
    ensures PurgeTables(sw, t, a, slave).1 == if slave then [] else AllDeletes(sw.tables, t, a)
    decreases MAX_TABLES - t
  {
    if t < MAX_TABLES {
      var l := sw.tables[t];
      assert ListOk(l);
      PurgeTableIs(sw, t, a, slave);
      RemainingOk(l, a);
      hide ListOk, PurgeFrom, Remaining, Deletes, AllDeletes, PurgeTables;
      var s := PurgeFrom(sw, t, 0, a, slave).0;
      AllDeletesFrom(sw.tables, s.tables, t + 1, a);
      PurgeSends(s, t + 1, a, slave);
      PurgeTablesStep(sw, t, a, slave);
    } else {
      hide ListOk;
    }
  }

  /** A walk over a table from position `i` on leaves the rules that go and are held waiting for the lookups. */
  lemma {:induction false} PurgeFromHolds(sw: Sw, t: nat, i: nat, a: App, slave: bool)
    requires t < |sw.tables| && i <= |sw.tables[t]|
    requires forall j :: i <= j < |sw.tables[t]| ==> OwnersOk(sw.tables[t][j])
    ensures PurgeFrom(sw, t, i, a, slave).0.limbo == sw.limbo + Held(sw.tables[t][i..], a)
    decreases |sw.tables[t]| - i
  {
    var l := sw.tables[t];
    if i == |l| {
      assert sw.limbo + [] == sw.limbo;
    } else {
      assert OwnersOk(l[i]);
      var r := Disowned(l[i], a);
      HeldFirst(l, i, a);
      PurgeUnfolds(sw, t, i, a, slave);
      hide Held, OwnersOk, Disowned, Release, SetRule, Remove, PurgeFrom;
      if a !in l[i].owners {
        PurgeFromHolds(sw, t, i + 1, a, slave);
        assert [] + Held(l[i + 1..], a) == Held(l[i + 1..], a);
      } else {
        DisownedIs(l[i], a);
        TurnsAre(sw, t, i, r);
        if l[i].owners != [a] {
          PurgeFromHolds(SetRule(sw, t, i, r), t, i + 1, a, slave);
          assert [] + Held(l[i + 1..], a) == Held(l[i + 1..], a);
        } else {
          var waits := if r.holds > 0 then [r.(holds := r.holds - 1)] else [];
          PurgeFromHolds(Release(sw.(tables := sw.tables[t := Remove(l, i)]), r), t, i, a, slave);
          assert sw.limbo + waits + Held(l[i + 1..], a) == sw.limbo + (waits + Held(l[i + 1..], a));
        }
      }
    }
  }

  lemma PurgeUnfolds(sw: Sw, t: nat, i: nat, a: App, slave: bool)
    requires t < |sw.tables| && i < |sw.tables[t]|
    ensures var l := sw.tables[t];
            var (r, cut) := (Disowned(l[i], a), sw.(tables := sw.tables[t := Remove(l, i)]));
            && |SetRule(sw, t, i, r).tables| == |sw.tables| && |SetRule(sw, t, i, r).tables[t]| == |l|
            && |Release(cut, r).tables| == |sw.tables| && |Release(cut, r).tables[t]| == |l| - 1
            && PurgeFrom(sw, t, i, a, slave).0 == if a !in l[i].owners then PurgeFrom(sw, t, i + 1, a, slave).0
                                                  else if r.appRef != 0 then PurgeFrom(SetRule(sw, t, i, r), t, i + 1, a, slave).0
                                                  else PurgeFrom(Release(cut, r), t, i, a, slave).0
  {
    TurnsAre(sw, t, i, Disowned(sw.tables[t][i], a));
    hide Disowned, Release, Remove;
  }

  /** What is left to walk, and what waits, after a rule was changed or spliced out. */
  lemma TurnsAre(sw: Sw, t: nat, i: nat, r: Rule)
    requires t < |sw.tables| && i < |sw.tables[t]|
    ensures var (l, s) := (sw.tables[t], SetRule(sw, t, i, r));
            && s.limbo == sw.limbo && |s.tables| == |sw.tables| && |s.tables[t]| == |l| && s.tables[t][i + 1..] == l[i + 1..]
            && (forall j :: i < j < |l| ==> s.tables[t][j] == l[j])
    ensures var (l, s) := (sw.tables[t], Release(sw.(tables := sw.tables[t := Remove(sw.tables[t], i)]), r));
            && s.limbo == sw.limbo + (if r.holds > 0 then [r.(holds := r.holds - 1)] else [])
            && |s.tables| == |sw.tables| && |s.tables[t]| == |l| - 1 && s.tables[t][i..] == l[i + 1..]
            && (forall j :: i <= j < |l| - 1 ==> s.tables[t][j] == l[j + 1])
  {
    hide DropRefs;
  }

  lemma HeldFirst(l: seq<Rule>, i: nat, a: App)
    requires i < |l|
    ensures Held(l[i..], a) ==
            (if l[i].owners == [a] && l[i].holds > 0 then [l[i].(owners := [], appRef := 0, holds := l[i].holds - 1)] else [])
            + Held(l[i + 1..], a)
  {
    assert l[i..][1..] == l[i + 1..];
  }

  lemma DisownedIs(r: Rule, a: App)
    requires OwnersOk(r) && a in r.owners
    ensures Disowned(r, a).appRef == 0 <==> r.owners == [a]
    ensures r.owners == [a] ==> Disowned(r, a) == r.(owners := [], appRef := 0)
  {
    LastOwner(r, a);
  }

  function AllHeld(ts: seq<seq<Rule>>, t: nat, a: App): seq<Rule>
    requires t <= |ts|
    decreases |ts| - t
  {
    if t == |ts| then [] else Held(ts[t], a) + AllHeld(ts, t + 1, a)
  }

  lemma {:induction false} AllHeldFrom(ts: seq<seq<Rule>>, us: seq<seq<Rule>>, t: nat, a: App)
    requires t <= |ts| == |us| && forall u :: t <= u < |ts| ==> ts[u] == us[u]
    ensures AllHeld(ts, t, a) == AllHeld(us, t, a)
    decreases |ts| - t
  {
    if t < |ts| {
      AllHeldFrom(ts, us, t + 1, a);
    }
  }

  lemma OwnersIn(l: seq<Rule>)
    requires ListOk(l)
    ensures forall j :: 0 <= j < |l| ==> OwnersOk(l[j])
  {
  }

  /** The rules that go while lookups hold them wait for those, table by table; no other rule does. */
  lemma {:induction false} PurgeHolds(sw: Sw, t: nat, a: App, slave: bool)
    requires |sw.tables| == MAX_TABLES && t <= MAX_TABLES
    requires forall v :: 0 <= v < MAX_TABLES ==> ListOk(sw.tables[v])
    ensures PurgeTables(sw, t, a, slave).0.limbo == sw.limbo + AllHeld(sw.tables, t, a)
    decreases MAX_TABLES - t
  {
    if t < MAX_TABLES {
      var l := sw.tables[t];
      assert ListOk(l) && l[0..] == l;
      var s := PurgeFrom(sw, t, 0, a, slave).0;
      assert AllHeld(sw.tables, t, a) == Held(l, a) + AllHeld(sw.tables, t + 1, a);
      assert PurgeTables(sw, t, a, slave).0 == PurgeTables(s, t + 1, a, slave).0 by { hide PurgeFrom; }
      OwnersIn(l);
      hide ListOk, PurgeFrom, Remaining, Held, AllHeld, PurgeTables, OwnersOk;
      PurgeTableIs(sw, t, a, slave);
      PurgeFromHolds(sw, t, 0, a, slave);
      RemainingOk(l, a);
      AllHeldFrom(sw.tables, s.tables, t + 1, a);
      PurgeHolds(s, t + 1, a, slave);
      var later := AllHeld(sw.tables, t + 1, a);
      assert sw.limbo + Held(l, a) + later == sw.limbo + (Held(l, a) + later);
    } else {
      assert sw.limbo + [] == sw.limbo;
    }
  }

  lemma {:induction false} RemainingOk(l: seq<Rule>, a: App)
    requires ListOk(l)
    ensures ListOk(Remaining(l, a))
    ensures forall i :: 0 <= i < |Remaining(l, a)| ==> a !in Remaining(l, a)[i].owners
  {
    if l != [] {
      RestOk(l);
      RemainingOk(l[1..], a);
      if l[0].owners != [a] {
        var m := Remaining(l[1..], a);
        assert Remaining(l, a) == [Left(l[0], a)] + m;
        hide ListOk, OwnersOk, Left, Remaining, SameKey;
        LeftOk(l[0], a);
        forall i | 0 <= i < |m| ensures l[0].prio >= m[i].prio && !SameKey(l[0], m[i].flow, m[i].mask, m[i].prio) {
          RemainingBelow(l, a, m[i]);
        }
        FirstOk(l[0], Left(l[0], a), m);
      } else {
        assert Remaining(l, a) == Remaining(l[1..], a);
        hide ListOk, Remaining;
      }
    }
  }

  lemma RestOk(l: seq<Rule>)
    requires ListOk(l) && l != []
    ensures ListOk(l[1..]) && OwnersOk(l[0])
    ensures forall j :: 0 < j < |l| ==> l[0].prio >= l[j].prio && !SameKey(l[0], l[j].flow, l[j].mask, l[j].prio)
  {
  }

  lemma LeftOk(r: Rule, a: App)
    requires OwnersOk(r) && r.owners != [a]
    ensures var b := Left(r, a);
            OwnersOk(b) && a !in b.owners && b.flow == r.flow && b.mask == r.mask && b.prio == r.prio
  {
    if a in r.owners {
      DropOwnerIs(r.owners, a);
    }
  }

  /** What is left of the rest of a list is still outranked by its first rule, and has other keys. */
  lemma RemainingBelow(l: seq<Rule>, a: App, r: Rule)
    requires l != [] && r in Remaining(l[1..], a)
    requires forall j :: 0 < j < |l| ==> l[0].prio >= l[j].prio && !SameKey(l[0], l[j].flow, l[j].mask, l[j].prio)
    ensures l[0].prio >= r.prio && !SameKey(l[0], r.flow, r.mask, r.prio)
  {
    RemainingAre(l[1..], a, r);
    hide Remaining;
    var i :| 0 <= i < |l[1..]| && l[1..][i].owners != [a] && r == Left(l[1..][i], a);
    assert l[1..][i] == l[i + 1];
  }

  lemma FirstOk(b: Rule, r: Rule, m: seq<Rule>)
    requires ListOk(m) && OwnersOk(r) && r.flow == b.flow && r.mask == b.mask && r.prio == b.prio
    requires forall i :: 0 <= i < |m| ==> b.prio >= m[i].prio && !SameKey(b, m[i].flow, m[i].mask, m[i].prio)
    ensures ListOk([r] + m)
  {
    hide OwnersOk;
    var l := [r] + m;
    assert forall i :: 0 < i < |l| ==> l[i] == m[i - 1];
  }

  // ---------- How long a group or a meter lives ----------

  lemma TableListed(sw: Sw, t: nat, i: nat, k: Kind, g: Id)
    requires t < |sw.tables| && i < |sw.tables[t]| && g in Ids(sw.tables[t][i], k)
    ensures AllUses(sw, k, g) > 0
  {
    ListedIsUsed(sw.tables[t], i, k, g);
    TableSet(sw.tables, t, [], k, g);
  }

  /**
   In every reachable state each table is sorted by priority with one rule per key, every rule has its
   owners counted, and a group or meter some rule lists exists and cannot be deleted.
   */
  lemma ReachableIsSound(cs: seq<(Cmd, bool)>, sw: Sw, t: nat, i: nat, k: Kind, g: Id, p: ObjParams, accepted: bool, slave: bool)
    requires Run(EMPTY, cs, sw)
    requires t < MAX_TABLES
    ensures |sw.tables| == MAX_TABLES && ListOk(sw.tables[t])
    ensures i < |sw.tables[t]| && g in Ids(sw.tables[t][i], k) ==>
              g in Objs(sw, k) && Objs(sw, k)[g].ref > 0
              && (p.kind == k && p.id == g ==> DelObj(sw, p, accepted, slave) == Outcome(sw, Failed, []))
  {
    EmptyInv();
    RunKeepsInv(EMPTY, cs, sw);
    if i < |sw.tables[t]| && g in Ids(sw.tables[t][i], k) {
      TableListed(sw, t, i, k, g);
      assert RefOk(sw, k, g);
      hide AllUses;
    }
  }

  /**
   Asking for a residual change of a residual rule is refused, but the rule forgets its groups and meters
   while their counts stay: this is the only way a reference is lost.
   */
  lemma LostExactlyOnResidualChange(sw: Sw, p: Params, supported: bool, slave: bool, k: Kind, g: Id)
    requires |sw.tables| == MAX_TABLES
    ensures var sw' := AddRule(sw, p, supported, slave).sw;
            var l := if p.table < MAX_TABLES then sw.tables[p.table] else [];
            var f := FindFrom(l, p.flow, p.mask, p.prio, 0);
            Lost(sw', k, g) == Lost(sw, k, g) +
              if ParamsValid(p, supported) && f < |l| && RESIDUAL in l[f].flags && RESIDUAL in p.flags && LOCAL !in p.flags
              then multiset(Ids(l[f], k))[g] else 0
  {
    hide FindFrom, HintFrom, AddRefs, DropRefs, Insert;
  }

  lemma {:induction false} PurgeFromLost(sw: Sw, t: nat, i: nat, a: App, slave: bool)
    requires t < |sw.tables| && i <= |sw.tables[t]|
    ensures var s := PurgeFrom(sw, t, i, a, slave).0; s.lostGroups == sw.lostGroups && s.lostMeters == sw.lostMeters
    decreases |sw.tables[t]| - i
  {
    var l := sw.tables[t];
    if i < |l| {
      var r := Disowned(l[i], a);
      hide Disowned, Remove;
      if a !in l[i].owners {
        PurgeFromLost(sw, t, i + 1, a, slave);
      } else if r.appRef != 0 {
        PurgeFromLost(SetRule(sw, t, i, r), t, i + 1, a, slave);
      } else {
        assert |Remove(l, i)| == |l| - 1;
        PurgeFromLost(Release(sw.(tables := sw.tables[t := Remove(l, i)]), r), t, i, a, slave);
      }
    }
  }

  lemma {:induction false} PurgeLost(sw: Sw, t: nat, a: App, slave: bool)
    requires t <= |sw.tables|
    ensures var s := PurgeTables(sw, t, a, slave).0; s.lostGroups == sw.lostGroups && s.lostMeters == sw.lostMeters
    decreases |sw.tables| - t
  {
    if t < |sw.tables| {
      PurgeFromLost(sw, t, 0, a, slave);
      PurgeLost(PurgeFrom(sw, t, 0, a, slave).0, t + 1, a, slave);
    }
  }

  /** The command is an add that meets the guard above, for a rule that lists `g`. */
  predicate Loses(sw: Sw, c: Cmd, k: Kind, g: Id)
    requires |sw.tables| == MAX_TABLES
  {
    c.AddFlow? && ParamsValid(c.p, c.supported)
    && var l := sw.tables[c.p.table];
       var f := FindFrom(l, c.p.flow, c.p.mask, c.p.prio, 0);
       f < |l| && RESIDUAL in l[f].flags && RESIDUAL in c.p.flags && LOCAL !in c.p.flags && g in Ids(l[f], k)
  }

  /** One command loses references to `g` exactly by that guard, and none is ever found again. */
  lemma LosesIff(sw: Sw, c: Cmd, slave: bool, k: Kind, g: Id)
    requires |sw.tables| == MAX_TABLES && Enabled(sw, c)
    ensures Lost(sw, k, g) <= Lost(Exec(sw, c, slave), k, g)
    ensures Lost(sw, k, g) < Lost(Exec(sw, c, slave), k, g) <==> Loses(sw, c, k, g)
  {
    match c
    case AddFlow(p, supported) =>
      LostExactlyOnResidualChange(sw, p, supported, slave, k, g);
      hide AddRule, FindFrom;
    case PurgeApp(a) => PurgeLost(sw, 0, a, slave);
    case _ =>
      hide FindFrom, HintFrom, AddRefs, DropRefs, Insert, Remove;
  }

  /** Some command of the run loses a reference to `g`. */
  ghost predicate LostIn(s: Sw, cs: seq<(Cmd, bool)>, k: Kind, g: Id)
    decreases |cs|
  {
    cs != [] && |s.tables| == MAX_TABLES && Enabled(s, cs[0].0)
    && (Loses(s, cs[0].0, k, g) || LostIn(Exec(s, cs[0].0, cs[0].1), cs[1..], k, g))
  }

  lemma {:induction false} RunLosesIff(s: Sw, cs: seq<(Cmd, bool)>, r: Sw, k: Kind, g: Id)
    requires Run(s, cs, r)
    ensures Lost(s, k, g) <= Lost(r, k, g) && (Lost(s, k, g) < Lost(r, k, g) <==> LostIn(s, cs, k, g))
    decreases |cs|
  {
    if cs != [] {
      LosesIff(s, cs[0].0, cs[0].1, k, g);
      hide Exec, Lost, Enabled, Loses;
      RunLosesIff(Exec(s, cs[0].0, cs[0].1), cs[1..], r, k, g);
    }
  }

  /**
   In every run, the count of a group or meter is exactly the number of its listings, in the tables and in
   rules that lookups still hold, if and only if no add of the run met the guard for it.
   */
  lemma CountExactIff(cs: seq<(Cmd, bool)>, r: Sw, k: Kind, g: Id)
    requires Run(EMPTY, cs, r) && g in Objs(r, k)
    ensures Objs(r, k)[g].ref == TableUses(r.tables, k, g) + Uses(r.limbo, k, g) <==> !LostIn(EMPTY, cs, k, g)
  {
    EmptyInv();
    RunKeepsInv(EMPTY, cs, r);
    RunLosesIff(EMPTY, cs, r, k, g);
    assert RefOk(r, k, g);
    assert Lost(EMPTY, k, g) == 0;
    hide TableUses, Uses, Run, LostIn, Inv;
  }

  /** A lost reference is never given back: from then on the group or meter exists, and no delete succeeds. */
  lemma {:induction false} LostForever(s: Sw, cs: seq<(Cmd, bool)>, r: Sw, p: ObjParams, accepted: bool, slave: bool)
    requires Inv(s) && Run(s, cs, r) && Lost(s, p.kind, p.id) > 0
    ensures p.id in Objs(r, p.kind) && DelObj(r, p, accepted, slave) == Outcome(r, Failed, [])
    decreases |cs|
  {
    if cs == [] {
      assert RefOk(s, p.kind, p.id);
    } else {
      LosesIff(s, cs[0].0, cs[0].1, p.kind, p.id);
      ExecKeepsInv(s, cs[0].0, cs[0].1);
      hide Inv, Exec, Lost, Enabled;
      LostForever(Exec(s, cs[0].0, cs[0].1), cs[1..], r, p, accepted, slave);
    }
  }

  // ---------- Unregistering an app ----------

  /** Some rule lists a group or meter that is gone. */
  ghost predicate Dangling(sw: Sw, t: nat, i: nat, k: Kind, g: Id) {
    t < |sw.tables| && i < |sw.tables[t]| && g in Ids(sw.tables[t][i], k) && g !in Objs(sw, k)
  }

  /** Some rule that outlives `a` lists a group or meter `a` owns. */
  ghost predicate Borrowed(sw: Sw, a: App, t: nat, i: nat, k: Kind, g: Id) {
    && t < |sw.tables| && i < |sw.tables[t]| && g in Ids(sw.tables[t][i], k)
    && sw.tables[t][i].owners != [a] && g in Objs(sw, k) && Objs(sw, k)[g].owner == a
  }

  ghost predicate SameOwner(s: Sw, r: Sw, k: Kind, g: Id) {
    (g in Objs(s, k) <==> g in Objs(r, k)) && (g in Objs(s, k) ==> Objs(s, k)[g].owner == Objs(r, k)[g].owner)
  }

  lemma {:induction false} PurgeFromOwner(sw: Sw, t: nat, i: nat, a: App, slave: bool, k: Kind, g: Id)
    requires t < |sw.tables| && i <= |sw.tables[t]|
    ensures SameOwner(sw, PurgeFrom(sw, t, i, a, slave).0, k, g)
    decreases |sw.tables[t]| - i
  {
    var l := sw.tables[t];
    if i < |l| {
      var r := Disowned(l[i], a);
      hide Disowned, Remove;
      if a !in l[i].owners {
        PurgeFromOwner(sw, t, i + 1, a, slave, k, g);
      } else if r.appRef != 0 {
        PurgeFromOwner(SetRule(sw, t, i, r), t, i + 1, a, slave, k, g);
      } else {
        assert |Remove(l, i)| == |l| - 1;
        PurgeFromOwner(Release(sw.(tables := sw.tables[t := Remove(l, i)]), r), t, i, a, slave, k, g);
      }
    }
  }

  lemma {:induction false} PurgeOwner(sw: Sw, t: nat, a: App, slave: bool, k: Kind, g: Id)
    requires t <= |sw.tables|
    ensures SameOwner(sw, PurgeTables(sw, t, a, slave).0, k, g)
    decreases |sw.tables| - t
  {
    if t < |sw.tables| {
      PurgeFromOwner(sw, t, 0, a, slave, k, g);
      PurgeOwner(PurgeFrom(sw, t, 0, a, slave).0, t + 1, a, slave, k, g);
    }
  }

  lemma UnregisterObjs(sw: Sw, a: App, slave: bool, k: Kind, g: Id)
    ensures g in Objs(Unregister(sw, a, slave).0, k) <==> g in Objs(sw, k) && Objs(sw, k)[g].owner != a
  {
    PurgeOwner(sw, 0, a, slave, k, g);
    hide PurgeTables;
  }

  lemma DanglingWasBorrowed(sw: Sw, a: App, slave: bool, t: nat, i: nat, k: Kind, g: Id) returns (j: nat)
    requires Inv(sw) && Dangling(Unregister(sw, a, slave).0, t, i, k, g)
    ensures Borrowed(sw, a, t, j, k, g)
  {
    var s := Unregister(sw, a, slave).0;
    PurgeTablesAre(sw, 0, a, slave, if t < MAX_TABLES then t else 0);
    UnregisterObjs(sw, a, slave, k, g);
    assert s.tables == PurgeTables(sw, 0, a, slave).0.tables;
    RemainingAre(sw.tables[t], a, s.tables[t][i]);
    hide PurgeTables, Unregister, Remaining;
    j :| 0 <= j < |sw.tables[t]| && sw.tables[t][j].owners != [a] && s.tables[t][i] == Left(sw.tables[t][j], a);
    TableListed(sw, t, j, k, g);
    assert RefOk(sw, k, g);
  }

  lemma BorrowedDangles(sw: Sw, a: App, slave: bool, t: nat, j: nat, k: Kind, g: Id) returns (i: nat)
    requires Inv(sw) && Borrowed(sw, a, t, j, k, g)
    ensures Dangling(Unregister(sw, a, slave).0, t, i, k, g)
  {
    var s := Unregister(sw, a, slave).0;
    PurgeTablesAre(sw, 0, a, slave, t);
    UnregisterObjs(sw, a, slave, k, g);
    assert s.tables == PurgeTables(sw, 0, a, slave).0.tables;
    var r := Left(sw.tables[t][j], a);
    RemainingAre(sw.tables[t], a, r);
    hide PurgeTables, Unregister, Remaining;
    i :| 0 <= i < |s.tables[t]| && s.tables[t][i] == r;
  }

  /**
   When an app unregisters, every listed group and meter still exists exactly if no rule that outlives the
   app listed one of its own. (A plain delete always keeps this; see ReachableIsSound.)
   */
  lemma UnregisterDanglesIff(sw: Sw, a: App, slave: bool)
    requires Inv(sw)
    ensures (exists t, i, k, g :: Dangling(Unregister(sw, a, slave).0, t, i, k, g))
            <==> (exists t, i, k, g :: Borrowed(sw, a, t, i, k, g))
  {
    var s := Unregister(sw, a, slave).0;
    if t, i, k, g :| Dangling(s, t, i, k, g) {
      var j := DanglingWasBorrowed(sw, a, slave, t, i, k, g);
    }
    if t, i, k, g :| Borrowed(sw, a, t, i, k, g) {
      var j := BorrowedDangles(sw, a, slave, t, i, k, g);
    }
  }

  // ---------- Two runs ----------

  const GROUP_1 := ObjParams(Group, 1, 7, 0, {}, [])

  /** A rule read back from the switch, listing group 1. */
  const READ_BACK := Params(0, 7, 5, Mask(0, 0), 10, {RESIDUAL}, [], [1], [])

  /** Reading the same rule back twice leaves group 1 referenced by nothing, and undeletable. */
  lemma ReadBackTwice() returns (sw: Sw)
    ensures Run(EMPTY, [(AddGrp(GROUP_1, true), true), (AddFlow(READ_BACK, true), true), (AddFlow(READ_BACK, true), true)], sw)
    ensures forall t, i :: 0 <= t < |sw.tables| && 0 <= i < |sw.tables[t]| ==> sw.tables[t][i].groups == []
    ensures Lost(sw, Group, 1) > 0 && DelObj(sw, GROUP_1, true, false).ret == Failed
  {
    var c1, c2 := (AddGrp(GROUP_1, true), true), (AddFlow(READ_BACK, true), true);
    var s1 := Exec(EMPTY, c1.0, true);
    var s2 := Exec(s1, c2.0, true);
    assert s2.tables[0] == [NewRule(READ_BACK)];
    assert s2.groups[1].ref == 1;
    sw := Exec(s2, c2.0, true);
    assert [c1, c2, c2][1..] == [c2, c2] && [c2, c2][1..] == [c2] && [c2][1..] == [];
    assert Run(sw, [], sw);
    assert Run(s2, [c2], sw);
    assert Run(s1, [c2, c2], sw);
  }

  const BORROWER := Params(0, 8, 5, Mask(0, 0), 10, {}, [], [1], [])

  /** App 8 uses a group of app 7; when app 7 unregisters, the rule of app 8 lists a group that is gone. */
  lemma LenderLeaves() returns (sw: Sw)
    ensures Run(EMPTY, [(AddGrp(GROUP_1, true), false), (AddFlow(BORROWER, true), false)], sw)
    ensures Borrowed(sw, 7, 0, 0, Group, 1)
    ensures exists i :: Dangling(Unregister(sw, 7, false).0, 0, i, Group, 1)
  {
    var c1, c2 := (AddGrp(GROUP_1, true), false), (AddFlow(BORROWER, true), false);
    var s1 := Exec(EMPTY, c1.0, false);
    sw := Exec(s1, c2.0, false);
    assert sw.tables[0] == [NewRule(BORROWER)];
    assert [c1, c2][1..] == [c2] && [c2][1..] == [];
    assert Run(sw, [], sw);
    assert Run(s1, [c2], sw);
    EmptyInv();
    RunKeepsInv(EMPTY, [c1, c2], sw);
    var i := BorrowedDangles(sw, 7, false, 0, 0, Group, 1);
  }
}
