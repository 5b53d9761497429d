/**
 A switch's flow tables, groups and meters as the controller keeps them, on values:
 the state, the commands, and what each command does.
 */
module RuleSpec {
  import opened Sequences

  const MAX_TABLES := 255

  type App = nat
  type Id = nat

  datatype Flag = STATIC | CLONE | LOCAL | NOCACHE | NOSYNC | RESIDUAL | STALE | NO_ACK | RES_STALE

  /** A match mask; its padding counts for a delete but not for an add. */
  datatype Mask = Mask(bits: int, pad: int)

  /** A rule. `holds` counts lookups that have not released it; the table's own hold is not counted. */
  datatype Rule = Rule(flow: int, mask: Mask, prio: nat, flags: set<Flag>, owners: seq<App>, appRef: int,
                       actions: seq<int>, groups: seq<Id>, meters: seq<Id>, holds: nat)

  datatype ObjFlag = O_STATIC | O_EXPIRED | O_BARRIER | O_RESIDUAL | O_STALE | O_LOCAL

  /** A group or a meter: `attr` is the group type or the meter flags, `body` the buckets or bands. */
  datatype Obj = Obj(owner: App, ref: int, attr: bv16, flags: set<ObjFlag>, body: seq<int>)

  datatype Kind = Group | Meter

  datatype Hw =
    | FlowAdd(flow: int, mask: Mask, prio: nat, actions: seq<int>, change: bool)
    | FlowDel(flow: int, mask: Mask, prio: nat, strict: bool)
    | ObjAdd(kind: Kind, id: Id, change: bool)
    | ObjDel(kind: Kind, id: Id)

  /**
   The tables, the rules that left them while a lookup still held them, the groups and the meters.
   `lostGroups` and `lostMeters` record the references whose list an aborted change dropped.
   */
  datatype Sw = Sw(tables: seq<seq<Rule>>, limbo: seq<Rule>, groups: map<Id, Obj>, meters: map<Id, Obj>,
                   lostGroups: multiset<Id>, lostMeters: multiset<Id>)

  datatype Params = Params(table: nat, owner: App, flow: int, mask: Mask, prio: nat, flags: set<Flag>,
                           actions: seq<int>, groups: seq<Id>, meters: seq<Id>)

  datatype Ret = Ok | Invalid | Perm | Exists | Failed

  datatype Outcome = Outcome(sw: Sw, ret: Ret, hw: seq<Hw>)

  // ---------- The rule list ----------

  predicate SameKey(r: Rule, flow: int, mask: Mask, prio: nat) {
    r.flow == flow && r.mask.bits == mask.bits && r.prio == prio
  }

  function FindFrom(l: seq<Rule>, flow: int, mask: Mask, prio: nat, i: nat): (k: nat)
    requires i <= |l|
    ensures i <= k <= |l| && (k < |l| ==> SameKey(l[k], flow, mask, prio))
    ensures forall j :: i <= j < k ==> !SameKey(l[j], flow, mask, prio)
    decreases |l| - i
  {
    if i == |l| || SameKey(l[i], flow, mask, prio) then i else FindFrom(l, flow, mask, prio, i + 1)
  }

  /** Where a new rule of this priority goes: before the first rule that does not outrank it. */
  function HintFrom(l: seq<Rule>, prio: nat, i: nat): (k: nat)
    requires i <= |l|
    ensures i <= k <= |l| && (k < |l| ==> prio >= l[k].prio)
    ensures forall j :: i <= j < k ==> prio < l[j].prio
    decreases |l| - i
  {
    if i == |l| || prio >= l[i].prio then i else HintFrom(l, prio, i + 1)
  }

  function Insert(l: seq<Rule>, k: nat, r: Rule): seq<Rule>
    requires k <= |l|
  {
    l[..k] + [r] + l[k..]
  }

  // ---------- References to groups and meters ----------

  predicate AllKnown(objs: map<Id, Obj>, ids: seq<Id>) {
    forall i :: 0 <= i < |ids| ==> ids[i] in objs
  }

  function AddRefs(objs: map<Id, Obj>, ids: seq<Id>): map<Id, Obj> {
    map g | g in objs :: objs[g].(ref := objs[g].ref + multiset(ids)[g])
  }

  function DropRefs(objs: map<Id, Obj>, ids: seq<Id>): map<Id, Obj> {
    map g | g in objs :: objs[g].(ref := objs[g].ref - multiset(ids)[g])
  }

  function Objs(sw: Sw, k: Kind): map<Id, Obj> {
    if k.Group? then sw.groups else sw.meters
  }

  function WithObjs(sw: Sw, k: Kind, objs: map<Id, Obj>): Sw {
    if k.Group? then sw.(groups := objs) else sw.(meters := objs)
  }

  // ---------- Adding and changing a rule ----------

  predicate ParamsValid(p: Params, supported: bool) {
    supported && p.table < MAX_TABLES && !(CLONE in p.flags && LOCAL in p.flags) && NOCACHE !in p.flags
  }

  predicate WantsHw(p: Params, slave: bool) {
    NOSYNC !in p.flags && CLONE !in p.flags && RESIDUAL !in p.flags && LOCAL !in p.flags && !slave
  }

  function SetRule(sw: Sw, t: nat, k: nat, r: Rule): Sw
    requires t < |sw.tables| && k < |sw.tables[t]|
  {
    sw.(tables := sw.tables[t := sw.tables[t][k := r]])
  }

  function AddOwner(r: Rule, a: App): Rule {
    if a in r.owners then r else r.(owners := r.owners + [a], appRef := r.appRef + 1)
  }

  /**
   Changing the rule at position `k` of its table. A residual rule (one read back from the switch) is
   taken over by its new owner; asking for a residual change of a residual rule is refused, but only
   after the rule's group and meter lists were emptied.
   */
  function ModRule(sw: Sw, k: nat, p: Params): (o: (Sw, bool, bool))
    requires p.table < |sw.tables| && k < |sw.tables[p.table]|
    ensures |o.0.tables| == |sw.tables|
  {
    var r := sw.tables[p.table][k];
    var takeover := RESIDUAL in r.flags && RESIDUAL !in p.flags;
    if RESIDUAL in r.flags && RESIDUAL in p.flags then
      (SetRule(sw, p.table, k, r.(groups := [], meters := []))
       .(lostGroups := sw.lostGroups + multiset(r.groups), lostMeters := sw.lostMeters + multiset(r.meters)), false, false)
    else
      var r1 := if takeover then r.(owners := [p.owner], appRef := r.appRef - |r.owners| + 1) else r;
      if !AllKnown(sw.groups, p.groups) || !AllKnown(sw.meters, p.meters) then
        (SetRule(sw, p.table, k, r1), false, false)
      else
        var r2 := r1.(actions := p.actions, groups := p.groups, meters := p.meters,
                      flags := (if takeover then p.flags else r.flags) - {NO_ACK, STALE});
        (SetRule(sw, p.table, k, r2)
         .(groups := DropRefs(AddRefs(sw.groups, p.groups), r.groups),
           meters := DropRefs(AddRefs(sw.meters, p.meters), r.meters)), true, takeover)
  }

  function NewRule(p: Params): Rule {
    var flags := if RES_STALE in p.flags && RESIDUAL in p.flags then p.flags + {STALE} else p.flags;
    Rule(p.flow, p.mask, p.prio, flags - {NO_ACK}, [p.owner], 1, p.actions, p.groups, p.meters, 0)
  }

  function AddHw(r: Rule, change: bool, send: bool): seq<Hw> {
    if send then [FlowAdd(r.flow, r.mask, r.prio, r.actions, change)] else []
  }

  /** Adds a rule, or changes the one that has its flow, mask and priority. */
  function AddRule(sw: Sw, p: Params, supported: bool, slave: bool): (o: Outcome)
    requires |sw.tables| == MAX_TABLES
  {
    if !ParamsValid(p, supported) then Outcome(sw, Invalid, [])
    else
      var l := sw.tables[p.table];
      var k := FindFrom(l, p.flow, p.mask, p.prio, 0);
      if k < |l| then
        var r := l[k];
        if LOCAL in p.flags && RESIDUAL in r.flags then Outcome(sw, Perm, [])
        else if LOCAL in p.flags && LOCAL in r.flags then
          Outcome(SetRule(sw, p.table, k, AddOwner(r, p.owner)), Ok, [])
        else if RESIDUAL !in r.flags && p.owner !in r.owners then Outcome(sw, Perm, [])
        else if RESIDUAL !in r.flags && p.actions == r.actions then
          Outcome(SetRule(sw, p.table, k, r.(flags := r.flags - {STALE})), Exists, [])
        else
          var (sw', ok, takeover) := ModRule(sw, k, p);
          var send := if takeover then p.actions != r.actions else WantsHw(p, slave);
          if !ok then Outcome(sw', Invalid, [])
          else Outcome(sw', Ok, AddHw(sw'.tables[p.table][k], true, send && !slave))
      else if !AllKnown(sw.groups, p.groups) || !AllKnown(sw.meters, p.meters) then Outcome(sw, Invalid, [])
      else
        var at := HintFrom(l, p.prio, 0);
        Outcome(sw.(tables := sw.tables[p.table := Insert(l, at, NewRule(p))],
                    groups := AddRefs(sw.groups, p.groups), meters := AddRefs(sw.meters, p.meters)),
                Ok, AddHw(NewRule(p), false, WantsHw(p, slave)))
  }

  // ---------- Removing rules ----------

  predicate DelMatch(r: Rule, p: Params) {
    r.flow == p.flow && r.mask == p.mask && r.prio == p.prio && p.owner in r.owners
  }

  function DelFrom(l: seq<Rule>, p: Params, i: nat): (k: nat)
    requires i <= |l|
    ensures i <= k <= |l| && (k < |l| ==> DelMatch(l[k], p)) && forall j :: i <= j < k ==> !DelMatch(l[j], p)
    decreases |l| - i
  {
    if i == |l| || DelMatch(l[i], p) then i else DelFrom(l, p, i + 1)
  }

  /** Takes the first occurrence of an owner out. */
  function DropOwner(owners: seq<App>, a: App): (r: seq<App>) {
    if owners == [] then [] else if owners[0] == a then owners[1..] else [owners[0]] + DropOwner(owners[1..], a)
  }

  function Disowned(r: Rule, a: App): Rule {
    r.(owners := DropOwner(r.owners, a), appRef := r.appRef - 1)
  }

  /** A rule that has left its table: its references go too, unless a lookup still holds it. */
  function Release(sw: Sw, r: Rule): (s: Sw)
    ensures s.tables == sw.tables
  {
    if r.holds > 0 then sw.(limbo := sw.limbo + [r.(holds := r.holds - 1)])
    else sw.(groups := DropRefs(sw.groups, r.groups), meters := DropRefs(sw.meters, r.meters))
  }

  function DelRule(sw: Sw, p: Params, supported: bool, slave: bool): (o: Outcome)
    requires |sw.tables| == MAX_TABLES
  {
    if !ParamsValid(p, supported) then Outcome(sw, Failed, [])
    else
      var l := sw.tables[p.table];
      var k := DelFrom(l, p, 0);
      if k == |l| then Outcome(sw, Failed, [])
      else
        var r := Disowned(l[k], p.owner);
        var hw := if LOCAL in r.flags || slave then [] else [FlowDel(r.flow, r.mask, r.prio, true)];
        if r.appRef != 0 then Outcome(SetRule(sw, p.table, k, r), Ok, hw)
        else Outcome(Release(sw.(tables := sw.tables[p.table := Remove(l, k)]), r), Ok, hw)
  }

  // ---------- Groups and meters ----------

  datatype ObjParams = ObjParams(kind: Kind, id: Id, owner: App, attr: bv16, flags: set<ObjFlag>, body: seq<int>)

  /** A refused add still shows that the object is wanted; for a meter the bit is cleared in the wrong field. */
  function Unstale(k: Kind, g: Obj): Obj {
    if k.Group? then g.(flags := g.flags - {O_STALE}) else g.(attr := g.attr & 0xFFBF)
  }

  function AddObj(sw: Sw, p: ObjParams, accepted: bool, slave: bool): Outcome {
    var objs := Objs(sw, p.kind);
    if !accepted then Outcome(sw, Failed, [])
    else if p.id in objs then
      var g := objs[p.id];
      var takeover := O_RESIDUAL in g.flags && O_RESIDUAL !in p.flags;
      var diff := g.body != p.body || O_EXPIRED in g.flags;
      if (O_RESIDUAL !in g.flags && g.owner != p.owner) || (!diff && !takeover) then
        Outcome(WithObjs(sw, p.kind, objs[p.id := Unstale(p.kind, g)]), Exists, [])
      else
        var g' := Obj(if takeover then p.owner else g.owner, g.ref, p.attr, p.flags, p.body);
        Outcome(WithObjs(sw, p.kind, objs[p.id := g']), Ok,
                if !slave && (takeover ==> diff) then [ObjAdd(p.kind, p.id, true)] else [])
    else
      var flags := if O_RESIDUAL in p.flags && (p.id / 0x8000_0000) % 2 == 1 then p.flags + {O_STALE} else p.flags;
      Outcome(WithObjs(sw, p.kind, objs[p.id := Obj(p.owner, 0, p.attr, flags, p.body)]), Ok,
              if !slave && O_RESIDUAL !in p.flags then [ObjAdd(p.kind, p.id, false)] else [])
  }

  function DelObj(sw: Sw, p: ObjParams, accepted: bool, slave: bool): Outcome {
    var objs := Objs(sw, p.kind);
    if !accepted || p.id !in objs || objs[p.id].ref != 0 then Outcome(sw, Failed, [])
    else if objs[p.id].owner == p.owner then
      Outcome(WithObjs(sw, p.kind, objs - {p.id}), Ok, if slave then [] else [ObjDel(p.kind, p.id)])
    else Outcome(sw, Ok, [])
  }

  // ---------- An app leaving the switch ----------

  /**
   Takes `a` off the rules of table `t` from position `i` on. A rule left without an owner is spliced
   out and, unless it is local, deleted on the switch.
   */
  function PurgeFrom(sw: Sw, t: nat, i: nat, a: App, slave: bool): (o: (Sw, seq<Hw>))
    requires t < |sw.tables| && i <= |sw.tables[t]|
    ensures |o.0.tables| == |sw.tables|
    decreases |sw.tables[t]| - i
  {
    var l := sw.tables[t];
    if i == |l| then (sw, [])
    else if a !in l[i].owners then PurgeFrom(sw, t, i + 1, a, slave)
    else
      var r := Disowned(l[i], a);
      if r.appRef != 0 then PurgeFrom(SetRule(sw, t, i, r), t, i + 1, a, slave)
      else
        var hw := if LOCAL in r.flags || slave then [] else [FlowDel(r.flow, r.mask, r.prio, false)];
        var (sw', more) := PurgeFrom(Release(sw.(tables := sw.tables[t := Remove(l, i)]), r), t, i, a, slave);
        (sw', hw + more)
  }

  function PurgeTables(sw: Sw, t: nat, a: App, slave: bool): (o: (Sw, seq<Hw>))
    requires t <= |sw.tables|
    decreases |sw.tables| - t
  {
    if t == |sw.tables| then (sw, [])
    else
      var (s1, h1) := PurgeFrom(sw, t, 0, a, slave);
      var (s2, h2) := PurgeTables(s1, t + 1, a, slave);
      (s2, h1 + h2)
  }

  function NotOwnedBy(objs: map<Id, Obj>, a: App): map<Id, Obj> {
    map g | g in objs && objs[g].owner != a :: objs[g]
  }

  /** An app leaves: its rules go, and its groups and meters are removed whether or not a rule lists them. */
  function Unregister(sw: Sw, a: App, slave: bool): (o: (Sw, seq<Hw>)) {
    var (s, hw) := PurgeTables(sw, 0, a, slave);
    (s.(groups := NotOwnedBy(s.groups, a), meters := NotOwnedBy(s.meters, a)), hw)
  }

  // ---------- Lookups that keep hold of a rule ----------

  function Hold(sw: Sw, t: nat, i: nat): Sw
    requires t < |sw.tables| && i < |sw.tables[t]|
  {
    SetRule(sw, t, i, sw.tables[t][i].(holds := sw.tables[t][i].holds + 1))
  }

  function Unhold(sw: Sw, t: nat, i: nat): Sw
    requires t < |sw.tables| && i < |sw.tables[t]| && sw.tables[t][i].holds > 0
  {
    SetRule(sw, t, i, sw.tables[t][i].(holds := sw.tables[t][i].holds - 1))
  }

  /** A lookup lets go of a rule that has left its table; the last one to do so drops its references. */
  function UnholdLimbo(sw: Sw, i: nat): Sw
    requires i < |sw.limbo|
  {
    Release(sw.(limbo := Remove(sw.limbo, i)), sw.limbo[i])
  }
}
