/** Proposals over whole runs of a node: what voting leaves alone, and that the indexes stay consistent under every event. */
module Ledger {
  import opened Wrappers
  import opened Tally
  import opened Node
  import opened NodeRuns

  // ------------------------------------------------- what voting events leave alone

  /** `t` holds the same proposals, committee, transactions and chain as `s`. */
  ghost predicate SameProposals(s: NodeState, t: NodeState) {
    && t.round == s.round && t.period == s.period && t.seed == s.seed && t.pool == s.pool && t.isCommittee == s.isCommittee
    && t.chain == s.chain && t.committee == s.committee && t.buffer == s.buffer
    && t.cur.sigLeaderToId == s.cur.sigLeaderToId && t.cur.idToBlock == s.cur.idToBlock
    && t.cur.valueToSeed == s.cur.valueToSeed && t.cur.valueToBlock == s.cur.valueToBlock
    && t.last.valueToSeed == s.last.valueToSeed && t.last.valueToBlock == s.last.valueToBlock
  }

  /** An event about votes keeps the proposals, or halts, or opens the next period. */
  ghost predicate VotingOutcome(s: NodeState, o: Outcome) {
    o.Done? ==>
      || (SameProposals(s, o.s) && o.halt.None?)
      || (exists u, v :: SameProposals(s, u) && o.halt == Some(v) && o.s == HandleHalt(u, BlockFor(u, v), v))
      || (exists u, v :: SameProposals(s, u) && o.halt.None? && o.s == HandleNextPeriod(u, v))
  }

  lemma HaltCheckOutcome(s: NodeState, t: NodeState, c: Option<Vote>, m: Scan)
    requires SameProposals(s, t)
    ensures VotingOutcome(s, HaltCheck(t, c, m))
  {
  }

  lemma NextCheckOutcome(s: NodeState, t: NodeState, c: Option<Vote>, m: Scan)
    requires SameProposals(s, t)
    ensures VotingOutcome(s, NextCheck(t, c, m))
  {
  }

  lemma TimerOutcome(env: Env, s: NodeState, ch: Choices)
    ensures VotingOutcome(s, OnAgreementTimer(env, s, ch))
  {
    hide RunStep2, RunStep3, RunStep4, RunStep5, Decided, Step2;
    var t := NextStep(s);
    if !s.ready && s.isCommittee {
      if t.step == 3 {
        HaltCheckOutcome(s, Step3Vote(env, t, ch.soft), CastIf(env.me, t, CertSlot, RunStep3(ch.soft, t.required)), ch.cert);
      } else if t.step == 4 {
        NextCheckOutcome(s, Step4Vote(env, t, ch.last),
                         Some(Vote(env.me, t.round, t.period, Next4Slot, RunStep4(t.cur, ch.last, t.required))), ch.next);
      } else if t.step == 5 {
        NextCheckOutcome(s, Step5Vote(env, t, ch.soft, ch.last),
                         CastIf(env.me, t, Next5Slot, RunStep5(t.cur, ch.soft, ch.last, t.required)), ch.next);
      } else if t.step == 2 {
        Step2Outcome(env, s, t, ch.last, ch.leader);
      }
    }
  }

  lemma Step2Outcome(env: Env, s: NodeState, t: NodeState, last: Scan, leader: Id)
    requires SameProposals(s, t)
    ensures VotingOutcome(s, Step2(env, t, last, leader))
  {
    var u := t.(required := Threshold(t.committee));
    match RunStep2(u.cur.period, last, u.required)
    case VoteFor(v) =>
      assert SameProposals(s, CastSoft(env.me, u, v).s);
    case FollowLeader =>
      var w := u.(cur := u.cur.(leader := leader));
      assert SameProposals(s, w);
      if leader in w.cur.idToBlock {
        assert SameProposals(s, CastSoft(env.me, w, w.cur.idToBlock[leader].hash).s);
      }
  }

  lemma TakeSoftOutcome(s: NodeState, m: VoteMsg)
    requires m.period == s.cur.period
    ensures SameProposals(s, TakeSoft(s, m))
  {
  }

  lemma TakeCertOutcome(s: NodeState, m: VoteMsg)
    requires m.period == s.cur.period
    ensures SameProposals(s, TakeCert(s, m))
  {
  }

  lemma TakeNextOutcome(s: NodeState, m: VoteMsg)
    requires m.period == s.cur.period
    ensures SameProposals(s, TakeNext(s, m))
  {
  }

  lemma VoteOutcome(s: NodeState, m: VoteMsg, ch: Choices)
    requires Shape(s)
    ensures VotingOutcome(s, OnVote(s, m, ch))
  {
    if m.round <= s.round && VerifyVote(s, m) {
      match m.kind
      case Soft =>
        TakeSoftOutcome(s, m);
      case Cert =>
        TakeCertOutcome(s, m);
        HaltCheckOutcome(s, TakeCert(s, m), None, ch.cert);
      case Next =>
        TakeNextOutcome(s, m);
        NextCheckOutcome(s, TakeNext(s, m), None, ch.next);
      case Other =>
    }
  }

  // -------------------------------------------------------------- index consistency

  /** The two value indexes have the same keys and every stored block hashes to its key. */
  ghost predicate ValuesIndexed(env: Env, ps: PeriodState) {
    && ps.valueToBlock.Keys == ps.valueToSeed.Keys
    && forall v :: v in ps.valueToBlock ==> HashOf(env, ps.valueToBlock[v]) == v
  }

  /** Every leader candidate has proposed a block, so the elected leader's block can be looked up. */
  ghost predicate CandidatesIndexed(ps: PeriodState) {
    forall k :: k in ps.sigLeaderToId ==> ps.sigLeaderToId[k] in ps.idToBlock
  }

  ghost predicate Indexed(env: Env, s: NodeState) {
    ValuesIndexed(env, s.cur) && CandidatesIndexed(s.cur) && ValuesIndexed(env, s.last)
  }

  lemma VotingKeepsIndex(env: Env, s: NodeState, o: Outcome)
    requires Indexed(env, s) && VotingOutcome(s, o) && o.Done?
    ensures Indexed(env, o.s)
  {
  }

  lemma AddKeepsIndex(env: Env, s: NodeState, p: Proposal)
    requires Indexed(env, s) && HashOf(env, p.block) == p.value
    ensures Indexed(env, AddProposal(s, p))
  {
  }

  lemma AddOwnKeepsIndex(env: Env, s: NodeState, b: Block, sig: string, nextSeed: string)
    requires Indexed(env, s)
    ensures Indexed(env, AddOwnProposal(env, s, b, sig, nextSeed))
  {
  }

  lemma ExecuteKeepsIndex(env: Env, s: NodeState, p: Proposal)
    requires Indexed(env, s) && ExecuteProposal(env, s, p).Some?
    ensures Indexed(env, ExecuteProposal(env, s, p).value)
  {
    if HashOf(env, p.block) == p.value {
      AddKeepsIndex(env, s, p);
    }
  }

  lemma {:induction false} ExecuteAllKeepsIndex(env: Env, s: NodeState, ps: seq<Proposal>)
    requires Indexed(env, s) && ExecuteAll(env, s, ps).Some?
    ensures Indexed(env, ExecuteAll(env, s, ps).value)
    decreases |ps|
  {
    if ps != [] {
      ExecuteKeepsIndex(env, s, ps[0]);
      ExecuteAllKeepsIndex(env, ExecuteProposal(env, s, ps[0]).value, ps[1..]);
    }
  }

  lemma RoundTimerKeepsIndex(env: Env, s: NodeState, e: Event)
    requires Indexed(env, s) && e.RoundTimer? && OnRoundTimer(env, s, e).Done?
    ensures Indexed(env, OnRoundTimer(env, s, e).s)
  {
    if s.ready {
      ExecuteAllKeepsIndex(env, s, s.buffer);
      var t := ExecuteAll(env, s, s.buffer).value.(buffer := [], ready := false);
      var v := RunStep1(t.period, e.ch.last, t.required);
      var b := if v == "" then PreparedBlock(env, Tip(t), e.txs, e.timestamp) else t.last.valueToBlock[v];
      var u := if v == "" then t.(pool := Unspent(t.pool, Tip(t))) else t;
      AddOwnKeepsIndex(env, u, b, e.sig, e.nextSeed);
    }
  }

  /** Every event keeps the proposal indexes consistent. */
  lemma StepKeepsIndex(env: Env, s: NodeState, e: Event, t: NodeState, c: Option<Vote>)
    requires Shape(s) && Indexed(env, s) && Leads(env, s, e, t, c)
    ensures Indexed(env, t)
  {
    match e
    case RoundTimer(_, _, _, _, _, _, _) => RoundTimerKeepsIndex(env, s, e);
    case AgreementTimer(ch) => TimerOutcome(env, s, ch); VotingKeepsIndex(env, s, OnAgreementTimer(env, s, ch));
    case ReceiveVote(m, ch) => VoteOutcome(s, m, ch); VotingKeepsIndex(env, s, OnVote(s, m, ch));
    case ReceiveProposal(p) =>
      if p.round <= s.round && !(p.round == s.round + 1 || p.period == s.period + 1) { ExecuteKeepsIndex(env, s, p); }
    case _ =>
  }

  /** In every state of every run the proposal indexes are consistent. */
  lemma {:induction false} IndexOnRuns(env: Env, seed: string, run: Run, k: nat)
    requires IsRun(env, seed, run) && k <= |run.es|
    ensures Indexed(env, run.ss[k])
  {
    hide Leads;
    if k > 0 {
      IndexOnRuns(env, seed, run, k - 1);
      RunStep(env, seed, run, k - 1);
      StepKeepsIndex(env, run.ss[k - 1], run.es[k - 1], run.ss[k], run.cs[k - 1]);
    }
  }
}
