/**
 The L2 fast-path forwarding database, on values: what one hash chain holds,
 and what learning, ageing, lookup and flushing do to it.
 */
module FdbSpec {

  const ENTRIES_PER_BUCKET := 2
  const TABLE_SIZE: nat := 524288
  const HARD_TIMEOUT := 300
  const AGE_SLACK := 2
  const EVICT_SLACK := 10

  datatype Mac = Mac(b0: bv8, b1: bv8, b2: bv8, b3: bv8, b4: bv8, b5: bv8)

  /** One slot of a bucket. `port` is a 32-bit field, `ts` a time in seconds. */
  datatype Entry = Entry(mac: Mac, port: nat, ts: int, valid: bool, installed: bool)

  const BLANK := Entry(Mac(0, 0, 0, 0, 0, 0), 0, 0, false, false)

  /** Flow messages that the fast path sends to the switch, for one destination MAC. */
  datatype Msg = Del(mac: Mac) | Add(mac: Mac, port: nat)

  /** Which chain a MAC lives in: the low 19 bits of the source's 32-bit mix. */
  function Key(m: Mac): (k: nat)
    ensures k < TABLE_SIZE
  {
    (m.b4 as int * 0x1000000 + (m.b3 ^ m.b5) as int * 0x10000 + m.b2 as int * 0x100 + m.b1 as int) % TABLE_SIZE
  }

  // ---------- Ageing ----------

  /** What an ageing pass looks at: the clock, the ports that are down, and an optional port to purge. */
  datatype AgeEnv = AgeEnv(now: int, down: set<nat>, port: nat, checkPort: bool)

  predicate PortGone(e: Entry, env: AgeEnv) {
    e.port in env.down || (env.checkPort && e.port == env.port)
  }

  predicate Keep(e: Entry, env: AgeEnv) {
    !PortGone(e, env) && env.now <= e.ts + HARD_TIMEOUT + AGE_SLACK
  }

  /** The entries among the first `k` of a chain that outlive an ageing pass, in order. */
  function SurvivorsUpTo(s: seq<Entry>, k: nat, env: AgeEnv): (r: seq<Entry>)
    requires k <= |s|
    ensures |r| <= k
  {
    if k == 0 then []
    else SurvivorsUpTo(s, k - 1, env) + if Keep(s[k - 1], env) then [s[k - 1]] else []
  }

  /** The deletes sent for the first `k` entries: only where the port is gone; a timed-out entry goes silently. */
  function WithdrawnUpTo(s: seq<Entry>, k: nat, env: AgeEnv): seq<Msg>
    requires k <= |s|
  {
    if k == 0 then []
    else WithdrawnUpTo(s, k - 1, env) + if PortGone(s[k - 1], env) then [Del(s[k - 1].mac)] else []
  }

  function Survivors(s: seq<Entry>, env: AgeEnv): seq<Entry> {
    SurvivorsUpTo(s, |s|, env)
  }

  function Withdrawn(s: seq<Entry>, env: AgeEnv): seq<Msg> {
    WithdrawnUpTo(s, |s|, env)
  }

  // ---------- Learning ----------

  /** The first position at or after `i` where `mac` is, or the chain's length. */
  function IndexFrom(s: seq<Entry>, mac: Mac, i: nat): (k: nat)
    requires i <= |s|
    ensures i <= k <= |s| && (k < |s| ==> s[k].mac == mac) && forall q :: i <= q < k ==> s[q].mac != mac
    decreases |s| - i
  {
    if i == |s| || s[i].mac == mac then i else IndexFrom(s, mac, i + 1)
  }

  function IndexOf(s: seq<Entry>, mac: Mac): (k: nat)
    ensures k <= |s| && (k < |s| ==> s[k].mac == mac) && forall q :: 0 <= q < k ==> s[q].mac != mac
  {
    IndexFrom(s, mac, 0)
  }

  predicate Evictable(e: Entry, now: int) {
    now > e.ts + HARD_TIMEOUT + EVICT_SLACK
  }

  /** The first position at or after `i` of an entry old enough to evict, or the chain's length. */
  function EvictFrom(s: seq<Entry>, now: int, i: nat): (k: nat)
    requires i <= |s|
    ensures i <= k <= |s| && (k < |s| ==> Evictable(s[k], now)) && forall q :: i <= q < k ==> !Evictable(s[q], now)
    decreases |s| - i
  {
    if i == |s| || Evictable(s[i], now) then i else EvictFrom(s, now, i + 1)
  }

  function EvictIndex(s: seq<Entry>, now: int): (k: nat)
    ensures k <= |s| && (k < |s| ==> Evictable(s[k], now)) && forall q :: 0 <= q < k ==> !Evictable(s[q], now)
  {
    EvictFrom(s, now, 0)
  }

  /** Every allocated bucket is full: a chain never keeps an empty bucket behind its first one. */
  predicate Full(s: seq<Entry>) {
    |s| > 0 && |s| % ENTRIES_PER_BUCKET == 0
  }

  /** A new entry stores only the low 16 bits of the port. */
  function NewEntry(mac: Mac, port: nat, now: int, installed: bool): Entry {
    Entry(mac, port % 0x10000, now, true, installed)
  }

  datatype Outcome = Outcome(chain: seq<Entry>, sent: seq<Msg>)

  /**
   What learning `mac` on `port` does to its chain. A new entry put in a slot that was used before
   inherits that slot's `installed` mark, given here as `stale`.
   */
  function Learn(s: seq<Entry>, mac: Mac, port: nat, now: int, stale: bool): Outcome {
    var k := IndexOf(s, mac);
    var v := EvictIndex(s, now);
    if k < |s| && s[k].port != port then
      Outcome(s[k := s[k].(port := port, ts := now, installed := true)], [Del(mac), Add(mac, port)])
    else if k < |s| then
      Outcome(s[k := s[k].(ts := now)], [])
    else if !Full(s) then
      Outcome(s + [NewEntry(mac, port, now, stale)], [])
    else if v < |s| then
      Outcome(s[v := NewEntry(mac, port, now, false)], if s[v].installed then [Del(s[v].mac)] else [])
    else
      Outcome(s + [NewEntry(mac, port, now, false)], [])
  }

  /** Looking up `mac` to forward a packet: a hit is refreshed, marked installed, and its flow is pushed. */
  function Forward(s: seq<Entry>, mac: Mac, now: int): Outcome {
    var k := IndexOf(s, mac);
    if k < |s| then Outcome(s[k := s[k].(ts := now, installed := true)], [Add(mac, s[k].port)]) else Outcome(s, [])
  }

  /** Flushing a chain withdraws every entry's flow. */
  function Flushed(s: seq<Entry>): (r: seq<Msg>)
    ensures |r| == |s| && forall q :: 0 <= q < |s| ==> r[q] == Del(s[q].mac)
  {
    seq(|s|, q requires 0 <= q < |s| => Del(s[q].mac))
  }

  // ---------- The whole table ----------

  /** What each chain holds. */
  type Table = seq<seq<Entry>>

  /** The messages of an ageing pass over the first `n` chains. */
  function AgeSent(t: Table, n: nat, env: AgeEnv): seq<Msg>
    requires n <= |t|
  {
    if n == 0 then [] else AgeSent(t, n - 1, env) + Withdrawn(t[n - 1], env)
  }

  function FlushSent(t: Table, n: nat): seq<Msg>
    requires n <= |t|
  {
    if n == 0 then [] else FlushSent(t, n - 1) + Flushed(t[n - 1])
  }

  function AgeTable(t: Table, env: AgeEnv): Table {
    seq(|t|, i requires 0 <= i < |t| => Survivors(t[i], env))
  }

  function FlushTable(t: Table): Table {
    seq(|t|, i => [])
  }

  datatype TableOutcome = TableOutcome(table: Table, sent: seq<Msg>)

  function LearnTable(t: Table, mac: Mac, port: nat, now: int, stale: bool): TableOutcome
    requires |t| == TABLE_SIZE
  {
    var o := Learn(t[Key(mac)], mac, port, now, stale);
    TableOutcome(t[Key(mac) := o.chain], o.sent)
  }

  function ForwardTable(t: Table, mac: Mac, now: int): TableOutcome
    requires |t| == TABLE_SIZE
  {
    var o := Forward(t[Key(mac)], mac, now);
    TableOutcome(t[Key(mac) := o.chain], o.sent)
  }

  /**
   What decides how a packet is handled: whether it is LLDP, whether its destination is a group address
   other than broadcast, and, when loops are watched for, whether that has settled and the port may receive.
   */
  datatype Kind = Kind(lldp: bool, multicast: bool, watched: bool, settled: bool, portOpen: bool)

  predicate Learnable(k: Kind) {
    !k.lldp && (k.watched ==> k.settled && k.portOpen)
  }

  /** A packet-in: unless it is not to be learned from, learn the source, then forward unless it goes to a group. */
  function PacketInTable(t: Table, src: Mac, dst: Mac, kind: Kind, port: nat, now: int, stale: bool): TableOutcome
    requires |t| == TABLE_SIZE
  {
    var a := LearnTable(t, src, port, now, stale);
    if !Learnable(kind) then TableOutcome(t, [])
    else if kind.multicast then a
    else
      var b := ForwardTable(a.table, dst, now);
      TableOutcome(b.table, a.sent + b.sent)
  }
}
