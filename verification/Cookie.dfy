/** The 64-bit cookie of a flow read back from a switch, on its way into the table and to the peer controller. */
module Cookie {

  const STALE_BIT: bv64 := 0x8000_0000_0000_0000
  const LOW: bv64 := 0xFFFF_FFFF
  const APP_MASK: bv64 := 0x7FFF_FFFF

  /** What a flow-add command carries of a cookie: 31 bits, 32 bits, and the stale flag. */
  datatype Parts = Parts(app: bv64, seqNo: bv64, stale: bool)

  /** A table entry's cookie and its stale flag. */
  datatype Entry = Entry(cookie: bv64, stale: bool)

  function AppPart(cookie: bv64): bv64 {
    (cookie >> 32) & APP_MASK
  }

  function LowPart(cookie: bv64): bv64 {
    cookie & LOW
  }

  /** The upper word is empty. */
  predicate IsLow(low: bv64) {
    low & LOW == low
  }

  predicate StaleBit(cookie: bv64) {
    cookie & STALE_BIT != 0
  }

  /** The low word is a sequence cookie. */
  predicate Numbered(cookie: bv64) {
    LowPart(cookie) != 0
  }

  /** A flow the switch reports: bit 63 of its cookie becomes the stale flag. */
  function Learn(cookie: bv64): Parts {
    Parts(AppPart(cookie), LowPart(cookie), StaleBit(cookie))
  }

  /** An entry sent on to the peer: its flag travels with it. */
  function Replay(e: Entry): Parts {
    Parts(AppPart(e.cookie), LowPart(e.cookie), e.stale)
  }

  /** The switch's counter, 32 bits wide, numbers flows that come without a sequence cookie. */
  function Next(idx: bv64): bv64 {
    (idx + 1) & LOW
  }

  function Join(app: bv64, low: bv64, stale: bool): bv64 {
    low | (app << 32) | if stale then STALE_BIT else 0
  }

  function Rebuild(p: Parts, idx: bv64): Entry {
    Entry(Join(p.app, if p.seqNo == 0 then Next(idx) else p.seqNo, p.stale), p.stale)
  }

  // Facts about the bits, without the names above.

  lemma BitsSet(c: bv64)
    requires c & STALE_BIT != 0
    ensures (c & LOW) | (((c >> 32) & APP_MASK) << 32) | STALE_BIT == c
  {
  }

  lemma BitsClear(c: bv64)
    requires c & STALE_BIT == 0
    ensures (c & LOW) | (((c >> 32) & APP_MASK) << 32) | 0 == c
  {
  }

  lemma LowBits(c: bv64, low: bv64, bit: bv64)
    requires low & LOW == low && (bit == 0 || bit == STALE_BIT)
    ensures (low | (((c >> 32) & APP_MASK) << 32) | bit) & LOW == low
  {
  }

  lemma TopBit(c: bv64, low: bv64, bit: bv64)
    requires low & LOW == low && (bit == 0 || bit == STALE_BIT)
    ensures (low | (((c >> 32) & APP_MASK) << 32) | bit) & STALE_BIT == bit
  {
  }

  /** The three parts of a cookie, put together again, are the cookie. */
  lemma JoinParts(cookie: bv64)
    ensures Join(AppPart(cookie), LowPart(cookie), StaleBit(cookie)) == cookie
  {
    if cookie & STALE_BIT != 0 {
      BitsSet(cookie);
    } else {
      BitsClear(cookie);
    }
  }

  /** And none of them disturbs another. */
  lemma PartsOfJoin(cookie: bv64, low: bv64, stale: bool)
    requires IsLow(low)
    ensures var c := Join(AppPart(cookie), low, stale); LowPart(c) == low && StaleBit(c) == stale
  {
    LowBits(cookie, low, if stale then STALE_BIT else 0);
    TopBit(cookie, low, if stale then STALE_BIT else 0);
  }

  /** A cookie rebuilt with another low word is another cookie. */
  lemma LowDecides(cookie: bv64, low: bv64)
    requires IsLow(low)
    ensures Join(AppPart(cookie), low, StaleBit(cookie)) == cookie <==> low == LowPart(cookie)
  {
    hide Join, AppPart, StaleBit, LowPart, IsLow;
    JoinParts(cookie);
    PartsOfJoin(cookie, low, StaleBit(cookie));
  }

  lemma LowIsLow(idx: bv64, cookie: bv64)
    ensures IsLow(Next(idx)) && IsLow(LowPart(cookie))
  {
  }

  /** A learned flow keeps its cookie, stale bit and all, exactly if it has a sequence cookie or would be numbered zero. */
  lemma LearnKeepsCookie(cookie: bv64, idx: bv64)
    ensures Rebuild(Learn(cookie), idx).cookie == cookie <==> Numbered(cookie) || Next(idx) == 0
    ensures StaleBit(Rebuild(Learn(cookie), idx).cookie) == StaleBit(cookie) == Rebuild(Learn(cookie), idx).stale
  {
    hide Join, AppPart, StaleBit, Next, LowPart, IsLow;
    LowIsLow(idx, cookie);
    var low := if LowPart(cookie) == 0 then Next(idx) else LowPart(cookie);
    PartsOfJoin(cookie, low, StaleBit(cookie));
    LowDecides(cookie, low);
  }

  /** So does the peer's copy of it: an entry is rebuilt there unless its low word is zero and is numbered anew. */
  lemma ReplayKeepsCookie(cookie: bv64, idx: bv64, peerIdx: bv64)
    ensures var mine := Rebuild(Learn(cookie), idx);
            Rebuild(Replay(mine), peerIdx) == mine <==> Numbered(mine.cookie) || Next(peerIdx) == 0
    ensures Numbered(cookie) ==> Rebuild(Replay(Rebuild(Learn(cookie), idx)), peerIdx).cookie == cookie
  {
    hide Join, AppPart, StaleBit, Next, Rebuild, Numbered;
    var mine := Rebuild(Learn(cookie), idx);
    LearnKeepsCookie(cookie, idx);
    ReplayIsLearn(mine);
    LearnKeepsCookie(mine.cookie, peerIdx);
    hide Learn, Replay;
  }

  lemma ReplayIsLearn(e: Entry)
    requires e.stale == StaleBit(e.cookie)
    ensures Replay(e) == Learn(e.cookie)
  {
    hide AppPart, StaleBit, LowPart;
  }

  /** Where the bits go: the stale flag on top, then the app's 31 bits, then the number, the next one if there is none. */
  lemma BitsAre()
    ensures Learn(0x8123_4567_89AB_CDEF) == Parts(0x0123_4567, 0x89AB_CDEF, true)
    ensures Learn(0x7FFF_FFFF_0000_0000) == Parts(0x7FFF_FFFF, 0, false)
    ensures Rebuild(Parts(1, 2, false), 9) == Entry(0x1_0000_0002, false)
    ensures Rebuild(Parts(1, 0, true), 7) == Entry(0x8000_0001_0000_0008, true)
    ensures Next(0xFFFF_FFFF) == 0
  {
  }
}
