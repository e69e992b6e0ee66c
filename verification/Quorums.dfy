/**
 The agreement argument itself, on the votes that honest nodes have cast: if every honest
 vote is justified in the way the five steps justify it, then two certification quorums of
 one round are for the same value, across all its periods.
 */
module Quorums {
  import opened Tally
  import opened Node

  /** The voters of a network; at most `faulty` behave arbitrarily, and `q` bounds all thresholds in use from below. */
  datatype Config = Config(honest: set<Id>, faulty: set<Id>, q: nat,
                           users: set<Id>, digest: (int, string, string, string) -> string)
  {
    ghost predicate Valid() { honest !! faulty }
    function Voters(): set<Id> { honest + faulty }
    /** n, the number of actual voters. */
    function N(): nat { |honest + faulty| }
    /** f, the number of arbitrary ones. */
    function F(): nat { |faulty| }
    /** Two quorums share an honest voter. */
    ghost predicate Intersecting() { Valid() && F() + N() < 2 * q }
    /** Strong enough for next votes, where a voter may count twice. */
    ghost predicate Locking() { Valid() && 2 * N() + 2 * F() < 3 * q }
  }

  /** The honest voters that cast `v` in a slot of a period. */
  ghost function Supporters(cfg: Config, hist: set<Vote>, r: int, p: int, slot: Slot, v: Value): set<Id> {
    set u | u in cfg.honest && Vote(u, r, p, slot, v) in hist
  }

  /** The honest part of a quorum of soft (or cert) votes for `v`. */
  ghost predicate QuorumFor(cfg: Config, hist: set<Vote>, r: int, p: int, slot: Slot, v: Value) {
    |Supporters(cfg, hist, r, p, slot, v)| + cfg.F() >= cfg.q
  }

  /** The honest voters that cast a next vote for `v`, in either step. */
  ghost function NextSupporters(cfg: Config, hist: set<Vote>, r: int, p: int, v: Value): set<Id> {
    Supporters(cfg, hist, r, p, Next4Slot, v) + Supporters(cfg, hist, r, p, Next5Slot, v)
  }

  /** The honest part of a quorum of next votes; every voter may have been counted under both steps. */
  ghost predicate NextQuorum(cfg: Config, hist: set<Vote>, r: int, p: int, v: Value) {
    2 * |NextSupporters(cfg, hist, r, p, v)| + 2 * cfg.F() >= cfg.q
  }

  // ------------------------------------------------------------ justification

  ghost predicate JustifiedSoft(cfg: Config, hist: set<Vote>, v: Vote) {
    v.period > 1 ==>
      NextQuorum(cfg, hist, v.round, v.period - 1, BOTTOM) || NextQuorum(cfg, hist, v.round, v.period - 1, v.value)
  }

  ghost predicate JustifiedCert(cfg: Config, hist: set<Vote>, v: Vote) {
    v.value != BOTTOM && v.value != "" && QuorumFor(cfg, hist, v.round, v.period, SoftSlot, v.value)
  }

  ghost predicate JustifiedNext4(cfg: Config, hist: set<Vote>, v: Vote) {
    || Vote(v.voter, v.round, v.period, CertSlot, v.value) in hist
    || (v.period == 1 && v.value == BOTTOM)
    || (v.period > 1 && NextQuorum(cfg, hist, v.round, v.period - 1, v.value))
    || (v.period > 1 && v.value == "" && NextQuorum(cfg, hist, v.round, v.period - 1, BOTTOM))
  }

  ghost predicate JustifiedNext5(cfg: Config, hist: set<Vote>, v: Vote) {
    || (v.value != BOTTOM && QuorumFor(cfg, hist, v.round, v.period, SoftSlot, v.value))
    || (v.value == BOTTOM && v.period > 1 && NextQuorum(cfg, hist, v.round, v.period - 1, BOTTOM))
  }

  ghost predicate Justified(cfg: Config, hist: set<Vote>, v: Vote) {
    match v.slot
    case SoftSlot => JustifiedSoft(cfg, hist, v)
    case CertSlot => JustifiedCert(cfg, hist, v)
    case Next4Slot => JustifiedNext4(cfg, hist, v)
    case Next5Slot => JustifiedNext5(cfg, hist, v)
  }

  /** A node that certified `c` casts step-4 next votes for `c` only, and no empty step-5 vote. */
  ghost predicate Consistent(c: Vote, w: Vote) {
    c.slot == CertSlot && c.voter == w.voter && c.round == w.round && c.period == w.period ==>
      && (w.slot == Next4Slot ==> w.value == c.value)
      && (w.slot == Next5Slot ==> w.value != BOTTOM)
  }

  ghost predicate SameSlot(v: Vote, w: Vote) {
    v.voter == w.voter && v.round == w.round && v.period == w.period && v.slot == w.slot
  }

  /** What all honest votes ever cast satisfy together. */
  ghost predicate Lawful(cfg: Config, hist: set<Vote>) {
    && (forall v :: v in hist ==> v.voter in cfg.honest && v.period >= 1 && Justified(cfg, hist, v))
    && (forall v, w :: v in hist && w in hist && SameSlot(v, w) ==> v == w)
    && (forall c, w :: c in hist && w in hist ==> Consistent(c, w))
  }

  // ----------------------------------------------------------------- counting

  lemma DisjointSize(a: set<Id>, b: set<Id>, c: set<Id>)
    requires a <= c && b <= c && a !! b
    ensures |a| + |b| <= |c|
  {
    assert |a + b| == |a| + |b|;
    SubsetSize(a + b, c);
  }

  lemma VoterCount(cfg: Config)
    requires cfg.Valid()
    ensures cfg.N() == |cfg.honest| + cfg.F()
  {
  }

  lemma OneVotePerSlot(cfg: Config, hist: set<Vote>, u: Id, r: int, p: int, slot: Slot, v: Value, w: Value)
    requires Lawful(cfg, hist) && Vote(u, r, p, slot, v) in hist && Vote(u, r, p, slot, w) in hist
    ensures v == w
  {
    hide Justified, Consistent;
    assert SameSlot(Vote(u, r, p, slot, v), Vote(u, r, p, slot, w));
  }

  /** Two soft quorums of one period are for one value. */
  lemma SoftQuorumsAgree(cfg: Config, hist: set<Vote>, r: int, p: int, v: Value, w: Value)
    requires cfg.Intersecting() && Lawful(cfg, hist)
    requires QuorumFor(cfg, hist, r, p, SoftSlot, v) && QuorumFor(cfg, hist, r, p, SoftSlot, w)
    ensures v == w
  {
    if v != w {
      var a, b := Supporters(cfg, hist, r, p, SoftSlot, v), Supporters(cfg, hist, r, p, SoftSlot, w);
      forall u | u in a
        ensures u !in b
      {
        if u in b { OneVotePerSlot(cfg, hist, u, r, p, SoftSlot, v, w); }
      }
      DisjointSize(a, b, cfg.honest);
      VoterCount(cfg);
    }
  }

  /** Same-period agreement: all honest cert votes of one period carry the same value. */
  lemma CertVotesAgree(cfg: Config, hist: set<Vote>, c: Vote, d: Vote)
    requires cfg.Intersecting() && Lawful(cfg, hist)
    requires c in hist && d in hist && c.slot == CertSlot && d.slot == CertSlot
    requires c.round == d.round && c.period == d.period
    ensures c.value == d.value
  {
    assert Justified(cfg, hist, c) && Justified(cfg, hist, d);
    SoftQuorumsAgree(cfg, hist, c.round, c.period, c.value, d.value);
  }

  /** The thresholds leave room for an honest voter in every quorum. */
  lemma QuorumHasHonest(cfg: Config, hist: set<Vote>, r: int, p: int, slot: Slot, v: Value) returns (u: Id)
    requires cfg.Intersecting() && QuorumFor(cfg, hist, r, p, slot, v)
    ensures u in cfg.honest && Vote(u, r, p, slot, v) in hist
  {
    var a := Supporters(cfg, hist, r, p, slot, v);
    VoterCount(cfg);
    SubsetSize(a, cfg.honest);
    assert |a| > 0;
    u :| u in a;
  }

  lemma LockingIntersects(cfg: Config)
    requires cfg.Locking()
    ensures cfg.Intersecting()
  {
  }

  /** A node behind a certification never next-votes for anything else, in either step. */
  lemma CertifierNextVotes(cfg: Config, hist: set<Vote>, c: Vote, w: Vote)
    requires cfg.Intersecting() && Lawful(cfg, hist)
    requires c in hist && w in hist && c.slot == CertSlot && (w.slot == Next4Slot || w.slot == Next5Slot)
    requires c.voter == w.voter && c.round == w.round && c.period == w.period
    ensures w.value == c.value
  {
    assert Consistent(c, w);
    assert Justified(cfg, hist, c) && Justified(cfg, hist, w);
    if w.slot == Next5Slot {
      SoftQuorumsAgree(cfg, hist, c.round, c.period, c.value, w.value);
    }
  }

  /**
   Cross-period lock: once cert votes for `v` can reach the quorum in a period, no other value
   - the empty one included - can reach it among that period's next votes.
   */
  lemma CrossPeriodLock(cfg: Config, hist: set<Vote>, r: int, p: int, v: Value, w: Value)
    requires cfg.Locking() && Lawful(cfg, hist)
    requires QuorumFor(cfg, hist, r, p, CertSlot, v) && NextQuorum(cfg, hist, r, p, w)
    ensures v == w
  {
    LockingIntersects(cfg);
    if v != w {
      var c := Supporters(cfg, hist, r, p, CertSlot, v);
      var a, b := Supporters(cfg, hist, r, p, Next4Slot, w), Supporters(cfg, hist, r, p, Next5Slot, w);
      forall u | u in c
        ensures u !in a && u !in b
      {
        if u in a { CertifierNextVotes(cfg, hist, Vote(u, r, p, CertSlot, v), Vote(u, r, p, Next4Slot, w)); }
        if u in b { CertifierNextVotes(cfg, hist, Vote(u, r, p, CertSlot, v), Vote(u, r, p, Next5Slot, w)); }
      }
      DisjointSize(a + b, c, cfg.honest);
      VoterCount(cfg);
    }
  }

  // ------------------------------------------------------------ later periods

  /** Every honest vote of the period is for `v`. */
  ghost predicate AllFor(hist: set<Vote>, r: int, p: int, v: Value) {
    forall w :: w in hist && w.round == r && w.period == p ==> w.value == v
  }

  /** Only `v` can have a next quorum in the period. */
  ghost predicate OnlyNext(cfg: Config, hist: set<Vote>, r: int, p: int, v: Value) {
    forall w :: NextQuorum(cfg, hist, r, p, w) ==> w == v
  }

  /** If only `v` can have closed the previous period, the next one votes for `v` alone. */
  lemma PeriodFollows(cfg: Config, hist: set<Vote>, r: int, p: int, v: Value)
    requires cfg.Intersecting() && Lawful(cfg, hist) && p > 1
    requires v != BOTTOM && v != "" && OnlyNext(cfg, hist, r, p - 1, v)
    ensures AllFor(hist, r, p, v)
  {
    forall w | w in hist && w.round == r && w.period == p && w.slot == SoftSlot
      ensures w.value == v
    {
      assert Justified(cfg, hist, w);
    }
    forall x | QuorumFor(cfg, hist, r, p, SoftSlot, x)
      ensures x == v
    {
      var u := QuorumHasHonest(cfg, hist, r, p, SoftSlot, x);
    }
    LaterVotesFollow(cfg, hist, r, p, v);
  }

  lemma LaterVotesFollow(cfg: Config, hist: set<Vote>, r: int, p: int, v: Value)
    requires Lawful(cfg, hist) && p > 1
    requires v != BOTTOM && v != "" && OnlyNext(cfg, hist, r, p - 1, v)
    requires forall x :: QuorumFor(cfg, hist, r, p, SoftSlot, x) ==> x == v
    ensures AllFor(hist, r, p, v)
  {
  }

  /** A period whose honest votes are all for `v` can only be closed by `v`. */
  lemma PeriodCloses(cfg: Config, hist: set<Vote>, r: int, p: int, v: Value)
    requires cfg.Locking() && cfg.q <= cfg.N() && AllFor(hist, r, p, v)
    ensures OnlyNext(cfg, hist, r, p, v)
  {
    forall w | w != v
      ensures NextSupporters(cfg, hist, r, p, w) == {}
    {
    }
  }

  /** A certification quorum is for a real block, and fits among the voters. */
  lemma CertifiedValue(cfg: Config, hist: set<Vote>, r: int, p: int, v: Value)
    requires cfg.Intersecting() && Lawful(cfg, hist) && QuorumFor(cfg, hist, r, p, CertSlot, v)
    ensures v != BOTTOM && v != "" && cfg.q <= cfg.N() && p >= 1
  {
    var u := QuorumHasHonest(cfg, hist, r, p, CertSlot, v);
    assert Justified(cfg, hist, Vote(u, r, p, CertSlot, v));
    SubsetSize(Supporters(cfg, hist, r, p, CertSlot, v), cfg.honest);
    VoterCount(cfg);
  }

  /** Round safety: after a certification quorum for `v`, every later period votes for `v` alone. */
  lemma {:induction false} LaterPeriods(cfg: Config, hist: set<Vote>, r: int, p: int, v: Value, p': int)
    requires cfg.Locking() && Lawful(cfg, hist)
    requires QuorumFor(cfg, hist, r, p, CertSlot, v) && p < p'
    ensures AllFor(hist, r, p', v)
    decreases p' - p
  {
    hide Lawful, QuorumFor, NextQuorum;
    LockingIntersects(cfg);
    CertifiedValue(cfg, hist, r, p, v);
    if p' == p + 1 {
      forall w | NextQuorum(cfg, hist, r, p, w)
        ensures w == v
      {
        CrossPeriodLock(cfg, hist, r, p, v, w);
      }
    } else {
      LaterPeriods(cfg, hist, r, p, v, p' - 1);
      PeriodCloses(cfg, hist, r, p' - 1, v);
    }
    PeriodFollows(cfg, hist, r, p', v);
  }

  /** Two certification quorums of one round, in whatever periods, are for the same value. */
  lemma CertQuorumsAgree(cfg: Config, hist: set<Vote>, r: int, p: int, v: Value, p': int, v': Value)
    requires cfg.Locking() && Lawful(cfg, hist)
    requires QuorumFor(cfg, hist, r, p, CertSlot, v) && QuorumFor(cfg, hist, r, p', CertSlot, v')
    ensures v == v'
  {
    LockingIntersects(cfg);
    var u := QuorumHasHonest(cfg, hist, r, p, CertSlot, v);
    var u' := QuorumHasHonest(cfg, hist, r, p', CertSlot, v');
    if p == p' {
      CertVotesAgree(cfg, hist, Vote(u, r, p, CertSlot, v), Vote(u', r, p', CertSlot, v'));
    } else if p < p' {
      LaterPeriods(cfg, hist, r, p, v, p');
    } else {
      LaterPeriods(cfg, hist, r, p', v', p);
    }
  }

  // ------------------------------------------------------------ exact bounds

  /** The size that the code's threshold gives the quorum for `n` voters. */
  function CodeQuorum(n: nat): nat { 2 * (n / 3) + 1 }

  /** With the code's threshold, quorums intersect in an honest voter for up to n/3 faults unless n mod 3 is 2. */
  lemma IntersectionBound(cfg: Config)
    requires cfg.Valid() && cfg.q == CodeQuorum(cfg.N())
    ensures cfg.N() % 3 == 0 ==> (cfg.Intersecting() <==> cfg.F() <= cfg.N() / 3 + 1)
    ensures cfg.N() % 3 == 1 ==> (cfg.Intersecting() <==> cfg.F() <= cfg.N() / 3)
    ensures cfg.N() % 3 == 2 ==> (cfg.Intersecting() <==> cfg.F() < cfg.N() / 3)
  {
  }

  /** Because next votes count twice, the lock tolerates one fault at best. */
  lemma LockingBound(cfg: Config)
    requires cfg.Valid() && cfg.q == CodeQuorum(cfg.N())
    ensures cfg.Locking() <==> (cfg.N() % 3 == 0 && cfg.F() <= 1) || (cfg.N() % 3 == 1 && cfg.F() == 0)
  {
  }

  lemma {:induction false} PickSubset(s: set<Id>, k: nat) returns (c: set<Id>)
    requires k <= |s|
    ensures c <= s && |c| == k
  {
    if k == 0 {
      c := {};
    } else {
      var x :| x in s;
      var rest := PickSubset(s - {x}, k - 1);
      c := rest + {x};
    }
  }

  /**
   Honest votes of a first period: all soft-vote `v`, those in `c` see the soft quorum in time and certify it, and the
   others, who do not, next-vote for the empty value.
   */
  ghost function SplitHistory(honest: set<Id>, c: set<Id>, v: Value): set<Vote> {
    (set u | u in honest :: Vote(u, 1, 1, SoftSlot, v)) +
    (set u | u in c :: Vote(u, 1, 1, CertSlot, v)) +
    (set u | u in honest - c :: Vote(u, 1, 1, Next4Slot, BOTTOM))
  }

  ghost predicate InSplit(honest: set<Id>, c: set<Id>, v: Value, w: Vote) {
    && w.voter in honest && w.round == 1 && w.period == 1
    && match w.slot
       case SoftSlot => w.value == v
       case CertSlot => w.voter in c && w.value == v
       case Next4Slot => w.voter !in c && w.value == BOTTOM
       case Next5Slot => false
  }

  ghost predicate IsSplit(honest: set<Id>, c: set<Id>, v: Value, hist: set<Vote>) {
    forall w :: w in hist <==> InSplit(honest, c, v, w)
  }

  lemma SplitMembers(honest: set<Id>, c: set<Id>, v: Value)
    requires c <= honest
    ensures IsSplit(honest, c, v, SplitHistory(honest, c, v))
  {
  }

  lemma SplitSupport(cfg: Config, c: set<Id>, v: Value, hist: set<Vote>)
    requires c <= cfg.honest && v != BOTTOM && IsSplit(cfg.honest, c, v, hist)
    ensures Supporters(cfg, hist, 1, 1, SoftSlot, v) == cfg.honest
    ensures Supporters(cfg, hist, 1, 1, CertSlot, v) == c
    ensures NextSupporters(cfg, hist, 1, 1, BOTTOM) == cfg.honest - c
  {
  }

  lemma SplitLawful(cfg: Config, c: set<Id>, v: Value, hist: set<Vote>)
    requires cfg.Valid() && c <= cfg.honest && v != BOTTOM && v != "" && cfg.q <= cfg.N()
    requires IsSplit(cfg.honest, c, v, hist)
    ensures Lawful(cfg, hist)
  {
    SplitSupport(cfg, c, v, hist);
    VoterCount(cfg);
  }

  /** The lock property, for every history the five steps allow. */
  ghost predicate LockHolds(cfg: Config) {
    forall hist, r, p, v, w ::
      Lawful(cfg, hist) && QuorumFor(cfg, hist, r, p, CertSlot, v) && NextQuorum(cfg, hist, r, p, w) ==> v == w
  }

  /** The bound is exact on histories: the lock holds if and only if 2n + 2f < 3q, or no quorum can form at all. */
  lemma LockIffBound(cfg: Config)
    requires cfg.Valid()
    ensures LockHolds(cfg) <==> cfg.Locking() || cfg.q > cfg.N()
  {
    VoterCount(cfg);
    if cfg.q > cfg.N() {
      forall hist, r, p, v
        ensures !QuorumFor(cfg, hist, r, p, CertSlot, v)
      {
        SubsetSize(Supporters(cfg, hist, r, p, CertSlot, v), cfg.honest);
      }
    } else if cfg.Locking() {
      forall hist, r, p, v, w |
        Lawful(cfg, hist) && QuorumFor(cfg, hist, r, p, CertSlot, v) && NextQuorum(cfg, hist, r, p, w)
        ensures v == w
      {
        CrossPeriodLock(cfg, hist, r, p, v, w);
      }
    } else {
      var v := "block";
      var c := PickSubset(cfg.honest, if cfg.q <= cfg.F() then 0 else cfg.q - cfg.F());
      var hist := SplitHistory(cfg.honest, c, v);
      SplitMembers(cfg.honest, c, v);
      SplitLawful(cfg, c, v, hist);
      SplitSupport(cfg, c, v, hist);
      assert |cfg.honest - c| == |cfg.honest| - |c|;
      assert QuorumFor(cfg, hist, 1, 1, CertSlot, v) && NextQuorum(cfg, hist, 1, 1, BOTTOM);
    }
  }
}
