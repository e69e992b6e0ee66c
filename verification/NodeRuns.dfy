/**
 What every step and every run of one node keeps: the position (round, period, step)
 never goes back, tallies are only reset when (round, period) rises, no vote is cast
 twice, and the step-1 panic has exactly one cause.
 */
module NodeRuns {
  import opened Wrappers
  import opened Tally
  import opened Node

  // ----------------------------------------------------------------- positions

  predicate Earlier(r: int, p: int, r': int, p': int) { r < r' || (r == r' && p < p') }

  /** (round, period, step) does not decrease, lexicographically. */
  predicate NotBack(s: NodeState, t: NodeState) {
    || Earlier(s.round, s.period, t.round, t.period)
    || (s.round == t.round && s.period == t.period && s.step <= t.step)
  }

  predicate SamePeriod(s: NodeState, t: NodeState) { s.round == t.round && s.period == t.period }

  /** Facts that tie the counters of a state together; the round never exceeds the chain's length. */
  ghost predicate Shape(s: NodeState) {
    && s.cur.period == s.period && s.last.period == s.period - 1
    && s.period >= 1 && 1 <= s.step <= 5
    && s.round <= |s.chain|
  }

  /** `t` differs from `s` in nothing that voting depends on. */
  ghost predicate SameVoting(s: NodeState, t: NodeState) {
    && t.round == s.round && t.period == s.period && t.step == s.step
    && t.required == s.required && t.last == s.last
    && t.cur.next == s.cur.next && t.cur.soft == s.cur.soft && t.cur.cert == s.cur.cert
    && t.cur.have4 == s.cur.have4 && t.cur.have5 == s.cur.have5
    && t.cur.haveSoft == s.cur.haveSoft && t.cur.haveCert == s.cur.haveCert
    && t.cur.myCert == s.cur.myCert && t.cur.starting == s.cur.starting && t.cur.period == s.cur.period
  }

  lemma AddProposalFrame(s: NodeState, p: Proposal)
    ensures SameVoting(s, AddProposal(s, p))
    ensures AddProposal(s, p).chain == s.chain && AddProposal(s, p).ready == s.ready && AddProposal(s, p).pool == s.pool
    ensures s.committee <= AddProposal(s, p).committee
  {
  }

  lemma ExecuteFrame(env: Env, s: NodeState, p: Proposal)
    requires ExecuteProposal(env, s, p).Some?
    ensures SameVoting(s, ExecuteProposal(env, s, p).value)
    ensures ExecuteProposal(env, s, p).value.chain == s.chain
    ensures ExecuteProposal(env, s, p).value.ready == s.ready && ExecuteProposal(env, s, p).value.pool == s.pool
    ensures s.committee <= ExecuteProposal(env, s, p).value.committee
  {
    AddProposalFrame(s, p);
  }

  lemma {:induction false} ExecuteAllFrame(env: Env, s: NodeState, ps: seq<Proposal>)
    requires ExecuteAll(env, s, ps).Some?
    ensures SameVoting(s, ExecuteAll(env, s, ps).value)
    ensures ExecuteAll(env, s, ps).value.chain == s.chain
    ensures ExecuteAll(env, s, ps).value.ready == s.ready && ExecuteAll(env, s, ps).value.pool == s.pool
    ensures s.committee <= ExecuteAll(env, s, ps).value.committee
    decreases |ps|
  {
    if ps != [] {
      ExecuteFrame(env, s, ps[0]);
      ExecuteAllFrame(env, ExecuteProposal(env, s, ps[0]).value, ps[1..]);
    }
  }

  // --------------------------------------------- the few ways a state can change

  /** The state after casting, before any halt or next-period check. */
  ghost predicate AfterCast(me: Id, s: NodeState, t: NodeState, v: Vote) {
    && v.voter == me && v.round == s.round && v.period == s.period
    && SamePeriod(s, t) && s.step <= t.step && t.last == s.last && t.chain == s.chain
    && match v.slot
       case SoftSlot =>
         && t.step == 2 && me !in s.cur.haveSoft && v.value != ""
         && t.cur == s.cur.(soft := Bump(s.cur.soft, v.value), haveSoft := s.cur.haveSoft[me := v.value], leader := t.cur.leader)
       case CertSlot =>
         && t.step == 3 && s.step < 3 && me !in s.cur.haveCert && v.value != ""
         && t.cur == s.cur.(cert := Bump(s.cur.cert, v.value), haveCert := s.cur.haveCert[me := v.value], myCert := v.value)
       case Next4Slot =>
         && t.step == 4 && me !in s.cur.have4
         && t.cur == s.cur.(next := Bump(s.cur.next, v.value), have4 := s.cur.have4[me := v.value])
       case Next5Slot =>
         && t.step == 5 && me !in s.cur.have5 && v.value != ""
         && t.cur == s.cur.(next := Bump(s.cur.next, v.value), have5 := s.cur.have5[me := v.value])
  }

  // --------------------------------------------------------------- own votes

  /** What the node's state says about the votes it has already cast. */
  ghost predicate Remembers(me: Id, s: NodeState, casts: set<Vote>) {
    && (forall v :: v in casts && v.voter == me ==>
          && !Earlier(s.round, s.period, v.round, v.period)
          && (v.round == s.round && v.period == s.period ==>
                match v.slot
                case SoftSlot => me in s.cur.haveSoft && s.step >= 2
                case CertSlot => me in s.cur.haveCert && s.cur.myCert == v.value && s.step >= 3
                case Next4Slot => me in s.cur.have4 && s.step >= 4
                case Next5Slot => me in s.cur.have5 && s.step >= 5))
    && (s.cur.myCert != "" ==> Vote(me, s.round, s.period, CertSlot, s.cur.myCert) in casts)
  }

  /** No earlier vote of this node has the round, period and slot of `v`. */
  ghost predicate FirstOfItsSlot(casts: set<Vote>, v: Vote) {
    forall w :: w in casts && w.voter == v.voter && w.round == v.round && w.period == v.period ==> w.slot != v.slot
  }

  function With(casts: set<Vote>, c: Option<Vote>): set<Vote> {
    if c.Some? then casts + {c.value} else casts
  }

  // ------------------------------------------------------ readiness (step 1)

  /** A ready node past period 1 has a quorum among the closed period's next votes. */
  ghost predicate QuorumBehind(s: NodeState) {
    s.ready && s.period > 1 ==> exists w :: w in s.last.next && s.last.next[w] >= s.required
  }

  // ------------------------------------------------------------- tally growth

  predicate CounterGrows(t: Counter, t': Counter) { forall v :: v in t ==> v in t' && t[v] <= t'[v] }

  predicate LogGrows(l: map<Id, Value>, l': map<Id, Value>) { l.Keys <= l'.Keys }

  predicate TalliesGrow(s: PeriodState, t: PeriodState) {
    && CounterGrows(s.soft, t.soft) && CounterGrows(s.cert, t.cert) && CounterGrows(s.next, t.next)
    && LogGrows(s.haveSoft, t.haveSoft) && LogGrows(s.haveCert, t.haveCert)
    && LogGrows(s.have4, t.have4) && LogGrows(s.have5, t.have5)
  }

  /** One step: the position does not go back, and in the same period tallies only grow. */
  ghost predicate Advances(s: NodeState, t: NodeState) {
    && NotBack(s, t)
    && (SamePeriod(s, t) ==> TalliesGrow(s.cur, t.cur) && t.last == s.last)
    && (!SamePeriod(s, t) ==> Earlier(s.round, s.period, t.round, t.period))
  }

  // ------------------------------------------------------------------- lemmas

  /** The invariant every step of a node keeps. */
  ghost predicate NodeInv(me: Id, s: NodeState, casts: set<Vote>) {
    Shape(s) && Remembers(me, s, casts) && QuorumBehind(s)
  }

  lemma HaltKeeps(me: Id, s: NodeState, b: Option<Block>, v: Value, casts: set<Vote>)
    requires Shape(s) && Remembers(me, s, casts)
    ensures NodeInv(me, HandleHalt(s, b, v), casts)
    ensures Earlier(s.round, s.period, s.round + 1, 1)
  {
  }

  lemma NextPeriodKeeps(me: Id, s: NodeState, m: Scan, casts: set<Vote>)
    requires Shape(s) && Remembers(me, s, casts)
    requires IsMax(s.cur.next, m) && Decided(m, s.required) != ""
    ensures NodeInv(me, HandleNextPeriod(s, Decided(m, s.required)), casts)
  {
  }

  lemma CastKeeps(me: Id, s: NodeState, t: NodeState, v: Vote, casts: set<Vote>)
    requires Shape(s) && Remembers(me, s, casts) && !t.ready
    requires AfterCast(me, s, t, v) && t.step <= 5
    ensures NodeInv(me, t, casts + {v})
    ensures FirstOfItsSlot(casts, v)
    ensures Advances(s, t)
  {
  }

  lemma CertIsCast(me: Id, s: NodeState, t: NodeState, v: Value)
    requires t == NextStep(s) && t.step == 3 && me !in s.cur.haveCert && v != ""
    ensures AfterCast(me, s, WithCert(me, t, v), Vote(me, s.round, s.period, CertSlot, v))
  {
  }

  lemma Next4IsCast(me: Id, s: NodeState, t: NodeState, v: Value)
    requires t == NextStep(s) && t.step == 4 && me !in s.cur.have4
    ensures AfterCast(me, s, WithNext4(me, t, v), Vote(me, s.round, s.period, Next4Slot, v))
  {
  }

  lemma Next5IsCast(me: Id, s: NodeState, t: NodeState, v: Value)
    requires t == NextStep(s) && t.step == 5 && me !in s.cur.have5 && v != ""
    ensures AfterCast(me, s, WithNext5(me, t, v), Vote(me, s.round, s.period, Next5Slot, v))
  {
  }

  /** A change that leaves voting state alone but may advance the step or set the threshold. */
  lemma StayKeeps(me: Id, s: NodeState, t: NodeState, casts: set<Vote>)
    requires NodeInv(me, s, casts)
    requires SameVoting(s, t.(step := s.step, required := s.required))
    requires s.step <= t.step <= 5 && |t.chain| >= |s.chain|
    requires t.ready ==> s.ready && t.required == s.required
    ensures NodeInv(me, t, casts)
    ensures Advances(s, t)
  {
  }

  /** What handling an event in state `s` has to deliver. */
  ghost predicate Kept(me: Id, s: NodeState, o: Outcome, casts: set<Vote>) {
    o.Done? ==>
      && NodeInv(me, o.s, With(casts, o.cast))
      && (o.cast.Some? ==> FirstOfItsSlot(casts, o.cast.value))
      && Advances(s, o.s)
  }

  lemma HaltCheckKeeps(me: Id, s: NodeState, t: NodeState, c: Option<Vote>, m: Scan, casts: set<Vote>)
    requires Kept(me, s, Done(t, c, None), casts)
    ensures Kept(me, s, HaltCheck(t, c, m), casts)
  {
    var v := Decided(m, t.required);
    if v != "" {
      HaltKeeps(me, t, BlockFor(t, v), v, With(casts, c));
    }
  }

  lemma NextCheckKeeps(me: Id, s: NodeState, t: NodeState, c: Option<Vote>, m: Scan, casts: set<Vote>)
    requires Kept(me, s, Done(t, c, None), casts)
    requires IsMax(t.cur.next, m)
    ensures Kept(me, s, NextCheck(t, c, m), casts)
  {
    if Decided(m, t.required) != "" {
      NextPeriodKeeps(me, t, m, With(casts, c));
    }
  }

  /** `t` is `s` at step 2 with a threshold, before the soft vote is cast. */
  ghost predicate AtStep2(s: NodeState, t: NodeState) {
    && t.round == s.round && t.period == s.period && t.last == s.last && t.cur == s.cur.(leader := t.cur.leader)
    && s.step <= t.step == 2 && t.chain == s.chain && t.ready == s.ready
  }

  lemma CastSoftKeeps(me: Id, s: NodeState, t: NodeState, v: Value, casts: set<Vote>)
    requires NodeInv(me, s, casts) && AtStep2(s, t) && !s.ready && me !in s.cur.haveSoft && v != ""
    ensures Kept(me, s, CastSoft(me, t, v), casts)
  {
    CastKeeps(me, s, CastSoft(me, t, v).s, Vote(me, t.round, t.period, SoftSlot, v), casts);
  }

  lemma Step2Keeps(env: Env, s: NodeState, t: NodeState, last: Scan, leader: Id, casts: set<Vote>)
    requires NodeInv(env.me, s, casts) && t == NextStep(s) && !s.ready
    requires t.step == 2 && env.me !in s.cur.haveSoft
    ensures Kept(env.me, s, Step2(env, t, last, leader), casts)
  {
    var u := t.(required := Threshold(t.committee));
    match RunStep2(u.cur.period, last, u.required)
    case VoteFor(v) =>
      StayKeeps(env.me, s, u, casts);
      if v != "" {
        CastSoftKeeps(env.me, s, u, v, casts);
      }
    case FollowLeader =>
      var w := u.(cur := u.cur.(leader := leader));
      StayKeeps(env.me, s, w, casts);
      if leader in w.cur.idToBlock && w.cur.idToBlock[leader].hash != "" {
        CastSoftKeeps(env.me, s, w, w.cur.idToBlock[leader].hash, casts);
      }
  }

  lemma TimerKeeps(env: Env, s: NodeState, ch: Choices, casts: set<Vote>)
    requires NodeInv(env.me, s, casts) && TimerChoices(env, s, ch)
    ensures Kept(env.me, s, OnAgreementTimer(env, s, ch), casts)
  {
    hide Step2, Remembers, Advances, QuorumBehind;
    var me := env.me;
    if s.ready {
      StayKeeps(me, s, s, casts);
    } else if !s.isCommittee {
      StayKeeps(me, s, s.(cur := s.cur.(leader := ch.leader)), casts);
    } else {
      var t := NextStep(s);
      StayKeeps(me, s, t, casts);
      if t.step == 2 && me !in t.cur.haveSoft {
        Step2Keeps(env, s, t, ch.last, ch.leader, casts);
      } else if t.step == 3 && me !in t.cur.haveCert {
        var v := RunStep3(ch.soft, t.required);
        if v != "" {
          CertIsCast(me, s, t, v);
          CastKeeps(me, s, WithCert(me, t, v), Vote(me, s.round, s.period, CertSlot, v), casts);
        }
        HaltCheckKeeps(me, s, Step3Vote(env, t, ch.soft), CastIf(me, t, CertSlot, v), ch.cert, casts);
      } else if t.step == 4 && me !in t.cur.have4 {
        var v := RunStep4(t.cur, ch.last, t.required);
        Next4IsCast(me, s, t, v);
        CastKeeps(me, s, WithNext4(me, t, v), Vote(me, s.round, s.period, Next4Slot, v), casts);
        NextCheckKeeps(me, s, Step4Vote(env, t, ch.last), Some(Vote(me, t.round, t.period, Next4Slot, v)), ch.next, casts);
      } else if t.step == 5 && me !in t.cur.have5 {
        var v := RunStep5(t.cur, ch.soft, ch.last, t.required);
        if v != "" {
          Next5IsCast(me, s, t, v);
          CastKeeps(me, s, WithNext5(me, t, v), Vote(me, s.round, s.period, Next5Slot, v), casts);
        }
        NextCheckKeeps(me, s, Step5Vote(env, t, ch.soft, ch.last), CastIf(me, t, Next5Slot, v), ch.next, casts);
      }
    }
  }

  /** An accepted vote names the current period, so it never reaches a closed tally. */
  lemma AcceptedVoteIsCurrent(s: NodeState, m: VoteMsg)
    requires Shape(s) && VerifyVote(s, m)
    ensures m.period == s.cur.period
    ensures TakeSoft(s, m).last == s.last && TakeCert(s, m).last == s.last && TakeNext(s, m).last == s.last
  {
  }

  /** A next vote is new to the receiver in the step it names. */
  predicate FirstNext(s: NodeState, m: VoteMsg) {
    if m.step == 4 then m.peer !in s.cur.have4 else m.peer !in s.cur.have5
  }

  /** `t` is `s` with one more vote counted. */
  ghost predicate AfterTake(s: NodeState, t: NodeState) {
    && SamePeriod(s, t) && t.step == s.step && t.required == s.required && t.ready == s.ready
    && t.last == s.last && t.chain == s.chain
    && t.cur.myCert == s.cur.myCert && t.cur.period == s.cur.period
    && TalliesGrow(s.cur, t.cur)
  }

  lemma TakeKeeps(me: Id, s: NodeState, t: NodeState, casts: set<Vote>)
    requires NodeInv(me, s, casts) && AfterTake(s, t)
    ensures Kept(me, s, Done(t, None, None), casts)
  {
  }

  lemma TakeSoftCounts(s: NodeState, m: VoteMsg)
    requires m.period == s.cur.period
    ensures AfterTake(s, TakeSoft(s, m))
  {
  }

  lemma TakeCertCounts(s: NodeState, m: VoteMsg)
    requires m.period == s.cur.period
    ensures AfterTake(s, TakeCert(s, m))
  {
  }

  lemma TakeNextCounts(s: NodeState, m: VoteMsg)
    requires m.period == s.cur.period
    ensures AfterTake(s, TakeNext(s, m))
  {
  }

  lemma VoteKeeps(me: Id, s: NodeState, m: VoteMsg, ch: Choices, casts: set<Vote>)
    requires NodeInv(me, s, casts) && VoteChoices(s, m, ch)
    ensures Kept(me, s, OnVote(s, m, ch), casts)
  {
    hide Remembers, Advances, QuorumBehind;
    StayKeeps(me, s, s, casts);
    if m.round <= s.round && VerifyVote(s, m) {
      match m.kind
      case Soft =>
        TakeSoftCounts(s, m);
        TakeKeeps(me, s, TakeSoft(s, m), casts);
      case Cert =>
        TakeCertCounts(s, m);
        TakeKeeps(me, s, TakeCert(s, m), casts);
        HaltCheckKeeps(me, s, TakeCert(s, m), None, ch.cert, casts);
      case Next =>
        TakeNextCounts(s, m);
        TakeKeeps(me, s, TakeNext(s, m), casts);
        NextCheckKeeps(me, s, TakeNext(s, m), None, ch.next, casts);
      case Other =>
    }
  }

  /** The round timer touches proposals, the pool and readiness, but nothing that voting depends on. */
  lemma RoundTimerFrame(env: Env, s: NodeState, e: Event)
    requires e.RoundTimer? && OnRoundTimer(env, s, e).Done?
    ensures var o := OnRoundTimer(env, s, e);
            && SameVoting(s, o.s) && o.s.chain == s.chain && !o.s.ready
            && s.committee <= o.s.committee && o.cast.None? && o.halt.None?
  {
    if s.ready {
      ExecuteAllFrame(env, s, s.buffer);
    }
  }

  lemma RoundTimerKeeps(env: Env, s: NodeState, e: Event, casts: set<Vote>)
    requires NodeInv(env.me, s, casts) && e.RoundTimer?
    ensures Kept(env.me, s, OnRoundTimer(env, s, e), casts)
  {
    var o := OnRoundTimer(env, s, e);
    if o.Done? {
      RoundTimerFrame(env, s, e);
      StayKeeps(env.me, s, o.s, casts);
    }
  }

  lemma ProposalKeeps(env: Env, s: NodeState, p: Proposal, casts: set<Vote>)
    requires NodeInv(env.me, s, casts)
    ensures Kept(env.me, s, OnProposal(env, s, p), casts)
  {
    StayKeeps(env.me, s, s, casts);
    StayKeeps(env.me, s, s.(buffer := s.buffer + [p]), casts);
    var r := ExecuteProposal(env, s, p);
    if r.Some? {
      ExecuteFrame(env, s, p);
      StayKeeps(env.me, s, r.value, casts);
    }
  }

  lemma NoticeKeeps(me: Id, s: NodeState, v: Value, casts: set<Vote>)
    requires NodeInv(me, s, casts)
    ensures Kept(me, s, Quiet(HandleHalt(s, BlockFor(s, v), v)), casts)
  {
  }

  /** Adopting a longer chain raises the round, because the round never exceeds the chain's length. */
  lemma SyncKeeps(me: Id, s: NodeState, blocks: seq<Option<Block>>, seed: string, casts: set<Vote>)
    requires NodeInv(me, s, casts) && |blocks| > |s.chain|
    ensures Kept(me, s, Quiet(OnChainSync(s, blocks, seed)), casts)
    ensures OnChainSync(s, blocks, seed).round > s.round
  {
  }

  /** Every event keeps the invariant, never casts in a used slot, and never moves back. */
  lemma StepKeeps(env: Env, s: NodeState, e: Event, casts: set<Vote>)
    requires NodeInv(env.me, s, casts) && Enabled(env, s, e)
    ensures Kept(env.me, s, Step(env, s, e), casts)
  {
    hide OnAgreementTimer, OnVote, OnRoundTimer, OnProposal, Remembers, Advances, QuorumBehind;
    match e
    case RoundTimer(_, _, _, _, _, _, _) => RoundTimerKeeps(env, s, e, casts);
    case AgreementTimer(ch) => TimerKeeps(env, s, ch, casts);
    case ReceiveVote(m, ch) => VoteKeeps(env.me, s, m, ch, casts);
    case ReceiveProposal(p) =>
      ProposalKeeps(env, s, p, casts);
    case AppendTransaction(tx) => StayKeeps(env.me, s, s.(pool := s.pool[tx.id := tx]), casts);
    case AppendBlock(blocks) =>
      StayKeeps(env.me, s, if |blocks| > |s.chain| then s.(chain := blocks) else s, casts);
    case NoticeFinal(peer, v) =>
      StayKeeps(env.me, s, s, casts);
      NoticeKeeps(env.me, s, v, casts);
    case ChainSync(blocks, seed) =>
      StayKeeps(env.me, s, s, casts);
      if |blocks| > |s.chain| { SyncKeeps(env.me, s, blocks, seed, casts); }
  }

  // --------------------------------------------------------------------- runs

  /** The states, events and cast votes of a run. */
  datatype Run = Run(ss: seq<NodeState>, es: seq<Event>, cs: seq<Option<Vote>>)

  /** Handling `e` in `s` leads to `t` and casts `c`. */
  ghost predicate Leads(env: Env, s: NodeState, e: Event, t: NodeState, c: Option<Vote>) {
    && Enabled(env, s, e)
    && var o := Step(env, s, e); o.Done? && t == o.s && c == o.cast
  }

  lemma LeadsKeeps(env: Env, s: NodeState, e: Event, t: NodeState, c: Option<Vote>, casts: set<Vote>)
    requires NodeInv(env.me, s, casts) && Leads(env, s, e, t, c)
    ensures NodeInv(env.me, t, With(casts, c)) && Advances(s, t)
    ensures c.Some? ==> c.value.voter == env.me && FirstOfItsSlot(casts, c.value)
  {
    StepKeeps(env, s, e, casts);
    if c.Some? { CastIsOwn(env, s, e); }
  }

  /** A run starts in the initial state, and each event leads to the next state. */
  ghost predicate IsRun(env: Env, seed: string, run: Run) {
    && |run.ss| == |run.es| + 1 && |run.cs| == |run.es|
    && run.ss[0] == Initial(env, seed)
    && forall k {:trigger run.es[k]} :: 0 <= k < |run.es| ==> Leads(env, run.ss[k], run.es[k], run.ss[k + 1], run.cs[k])
  }

  /** The votes among the first `k` entries. */
  ghost function Collected(cs: seq<Option<Vote>>, k: nat): set<Vote>
    requires k <= |cs|
  {
    if k == 0 then {} else With(Collected(cs, k - 1), cs[k - 1])
  }

  lemma {:induction false} CollectedHas(cs: seq<Option<Vote>>, i: nat, k: nat)
    requires i < k <= |cs| && cs[i].Some?
    ensures cs[i].value in Collected(cs, k)
  {
    if i < k - 1 {
      CollectedHas(cs, i, k - 1);
    }
  }

  lemma {:induction false} RunInv(env: Env, seed: string, run: Run, k: nat)
    requires IsRun(env, seed, run) && k <= |run.es|
    ensures NodeInv(env.me, run.ss[k], Collected(run.cs, k))
  {
    hide Leads;
    if k > 0 {
      RunInv(env, seed, run, k - 1);
      LeadsKeeps(env, run.ss[k - 1], run.es[k - 1], run.ss[k], run.cs[k - 1], Collected(run.cs, k - 1));
    }
  }

  /** What the k-th event of a run guarantees. */
  lemma RunStep(env: Env, seed: string, run: Run, k: nat)
    requires IsRun(env, seed, run) && k < |run.es|
    ensures Shape(run.ss[k]) && Advances(run.ss[k], run.ss[k + 1])
    ensures run.cs[k].Some? ==> run.cs[k].value.voter == env.me && FirstOfItsSlot(Collected(run.cs, k), run.cs[k].value)
  {
    hide Leads;
    RunInv(env, seed, run, k);
    LeadsKeeps(env, run.ss[k], run.es[k], run.ss[k + 1], run.cs[k], Collected(run.cs, k));
  }

  /** No equivocation: over a whole run at most one vote is cast per (round, period, slot). */
  lemma NoEquivocation(env: Env, seed: string, run: Run, i: nat, j: nat)
    requires IsRun(env, seed, run) && i < j < |run.es|
    requires run.cs[i].Some? && run.cs[j].Some?
    ensures var v, w := run.cs[i].value, run.cs[j].value;
            !(v.round == w.round && v.period == w.period && v.slot == w.slot)
  {
    CollectedHas(run.cs, i, j);
    RunStep(env, seed, run, i);
    RunStep(env, seed, run, j);
  }

  lemma CastIsOwn(env: Env, s: NodeState, e: Event)
    requires Step(env, s, e).Done? && Step(env, s, e).cast.Some?
    ensures Step(env, s, e).cast.value.voter == env.me
    ensures Step(env, s, e).cast.value.round == s.round && Step(env, s, e).cast.value.period == s.period
  {
  }

  lemma {:induction false} ChainAdvances(ss: seq<NodeState>, i: nat, j: nat)
    requires i <= j < |ss|
    requires forall k, l {:trigger ss[k], ss[l]} :: i <= k && l == k + 1 <= j ==> Advances(ss[k], ss[l])
    ensures Advances(ss[i], ss[j])
    decreases j
  {
    if i < j {
      ChainAdvances(ss, i, j - 1);
      AdvancesTransitive(ss[i], ss[j - 1], ss[j]);
    }
  }

  /** Over a run the position never goes back, and tallies are reset only when (round, period) rises. */
  lemma RunAdvances(env: Env, seed: string, run: Run, i: nat, j: nat)
    requires IsRun(env, seed, run) && i <= j <= |run.es|
    ensures Advances(run.ss[i], run.ss[j])
  {
    hide Leads;
    forall k, l {:trigger run.ss[k], run.ss[l]} | i <= k && l == k + 1 <= j
      ensures Advances(run.ss[k], run.ss[l])
    {
      RunStep(env, seed, run, k);
    }
    ChainAdvances(run.ss, i, j);
  }

  lemma AdvancesTransitive(s: NodeState, t: NodeState, u: NodeState)
    requires Advances(s, t) && Advances(t, u)
    ensures Advances(s, u)
  {
  }

  /**
   The step-1 panic, in every state of every run: when the round timer fires in a ready node,
   `runStep1` reports an error exactly when the leading next-vote value is itself the string "err".
   */
  lemma Step1Error(env: Env, seed: string, run: Run, k: nat, m: Scan)
    requires IsRun(env, seed, run) && k <= |run.es|
    requires run.ss[k].ready && IsMax(run.ss[k].last.next, m)
    ensures run.ss[k].period > 1 ==> m.votes >= run.ss[k].required
    ensures RunStep1(run.ss[k].period, m, run.ss[k].required) == "err" <==> run.ss[k].period > 1 && m.value == "err"
  {
    hide Leads;
    RunInv(env, seed, run, k);
  }
}
