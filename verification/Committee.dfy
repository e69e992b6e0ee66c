/**
 The committee over whole runs of a node: who is on it, how often, and what that does to the threshold.
 */
module Committee {
  import opened Wrappers
  import opened Tally
  import opened Node
  import opened NodeRuns
  import opened Ledger
  import opened Accounting

  /** The committee lists each proposer other than the node itself, once. */
  ghost predicate OthersExactly(me: Id, s: NodeState) {
    && (forall i, j :: 0 <= i < j < |s.committee| ==> s.committee[i] != s.committee[j])
    && (forall u :: u in s.committee <==> u in s.cur.idToBlock && u != me)
  }

  /** No one else can sign a proposal in the node's own name. */
  predicate NotOwn(me: Id, p: Proposal) { p.proposer == me ==> !p.sigOk }

  ghost predicate CommitteeInv(me: Id, s: NodeState) {
    && (s.period == 1 ==> OthersExactly(me, s))
    && s.period >= 1
    && (forall p :: p in s.buffer ==> NotOwn(me, p))
  }

  lemma ExecuteKeepsCommittee(env: Env, s: NodeState, p: Proposal)
    requires OthersExactly(env.me, s) && NotOwn(env.me, p) && ExecuteProposal(env, s, p).Some?
    ensures OthersExactly(env.me, ExecuteProposal(env, s, p).value)
  {
    var t := ExecuteProposal(env, s, p).value;
    if t != s {
      assert t.committee == s.committee + [p.proposer];
      assert p.proposer !in s.committee;
    }
  }

  lemma {:induction false} ExecuteAllKeepsCommittee(env: Env, s: NodeState, ps: seq<Proposal>)
    requires OthersExactly(env.me, s) && (forall p :: p in ps ==> NotOwn(env.me, p)) && ExecuteAll(env, s, ps).Some?
    ensures OthersExactly(env.me, ExecuteAll(env, s, ps).value)
    decreases |ps|
  {
    if ps != [] {
      ExecuteKeepsCommittee(env, s, ps[0]);
      ExecuteAllKeepsCommittee(env, ExecuteProposal(env, s, ps[0]).value, ps[1..]);
    }
  }

  lemma RoundTimerKeepsCommittee(env: Env, s: NodeState, e: Event)
    requires CommitteeInv(env.me, s) && e.RoundTimer? && OnRoundTimer(env, s, e).Done?
    ensures CommitteeInv(env.me, OnRoundTimer(env, s, e).s)
  {
    RoundTimerFrame(env, s, e);
    if s.ready && s.period == 1 {
      ExecuteAllKeepsCommittee(env, s, s.buffer);
    }
  }

  lemma VotingKeepsCommittee(me: Id, s: NodeState, o: Outcome)
    requires CommitteeInv(me, s) && VotingOutcome(s, o) && o.Done?
    ensures CommitteeInv(me, o.s)
  {
  }

  lemma ProposalKeepsCommittee(env: Env, s: NodeState, p: Proposal)
    requires CommitteeInv(env.me, s) && NotOwn(env.me, p) && OnProposal(env, s, p).Done?
    ensures CommitteeInv(env.me, OnProposal(env, s, p).s)
  {
    var r := ExecuteProposal(env, s, p);
    if r.Some? {
      if s.period == 1 { ExecuteKeepsCommittee(env, s, p); }
    }
  }

  /** Events that leave the round's committee alone: proposals by others, and no adopted chain. */
  ghost predicate OrdinaryEvent(me: Id, s: NodeState, e: Event) {
    && (e.ReceiveProposal? ==> NotOwn(me, e.p))
    && (e.ChainSync? ==> |e.blocks| <= |s.chain|)
  }

  lemma StepKeepsCommittee(env: Env, s: NodeState, e: Event, t: NodeState, c: Option<Vote>)
    requires Shape(s) && CommitteeInv(env.me, s) && OrdinaryEvent(env.me, s, e) && Leads(env, s, e, t, c)
    ensures CommitteeInv(env.me, t)
  {
    match e
    case RoundTimer(_, _, _, _, _, _, _) => RoundTimerKeepsCommittee(env, s, e);
    case AgreementTimer(ch) => TimerOutcome(env, s, ch); VotingKeepsCommittee(env.me, s, OnAgreementTimer(env, s, ch));
    case ReceiveVote(m, ch) => VoteOutcome(s, m, ch); VotingKeepsCommittee(env.me, s, OnVote(s, m, ch));
    case ReceiveProposal(p) => ProposalKeepsCommittee(env, s, p);
    case _ =>
  }

  /** The state at the beginning of a round entered at start or by halting. */
  ghost predicate FreshRound(s: NodeState) { s.period == 1 && s.committee == [] && s.cur.idToBlock == map[] }

  /** Whatever raises the round, except adopting a chain, enters it afresh. */
  lemma RoundEntries(env: Env, seed: string, run: Run, k: nat)
    requires IsRun(env, seed, run) && k < |run.es|
    ensures FreshRound(run.ss[0])
    ensures run.ss[k + 1].round != run.ss[k].round && !run.es[k].ChainSync? ==> FreshRound(run.ss[k + 1])
  {
    var s, e := run.ss[k], run.es[k];
    RunStep(env, seed, run, k);
    match e
    case RoundTimer(_, _, _, _, _, _, _) => RoundTimerFrame(env, s, e);
    case AgreementTimer(ch) => TimerOutcome(env, s, ch);
    case ReceiveVote(m, ch) => VoteOutcome(s, m, ch);
    case ReceiveProposal(p) => if ExecuteProposal(env, s, p).Some? { ExecuteFrame(env, s, p); }
    case _ =>
  }

  /** Buffered proposals were received. */
  lemma BufferReceived(env: Env, s: NodeState, e: Event, t: NodeState, c: Option<Vote>)
    requires Shape(s) && Leads(env, s, e, t, c)
    ensures forall p :: p in t.buffer ==> p in s.buffer || (e.ReceiveProposal? && p == e.p)
  {
    match e
    case RoundTimer(_, _, _, _, _, _, _) =>
    case AgreementTimer(ch) => TimerOutcome(env, s, ch);
    case ReceiveVote(m, ch) => VoteOutcome(s, m, ch);
    case _ =>
  }

  lemma {:induction false} BufferOnRuns(env: Env, seed: string, run: Run, k: nat)
    requires IsRun(env, seed, run) && k <= |run.es|
    requires forall j :: 0 <= j < k && run.es[j].ReceiveProposal? ==> NotOwn(env.me, run.es[j].p)
    ensures forall p :: p in run.ss[k].buffer ==> NotOwn(env.me, p)
  {
    hide Leads;
    if k > 0 {
      BufferOnRuns(env, seed, run, k - 1);
      RunStep(env, seed, run, k - 1);
      BufferReceived(env, run.ss[k - 1], run.es[k - 1], run.ss[k], run.cs[k - 1]);
    }
  }

  /**
   From the beginning of a round entered at start or by halting, and until a chain is adopted or the period changes, the
   committee is the other proposers, without repetition; what happened in earlier rounds does not matter.
   */
  lemma {:induction false} CommitteeOnRuns(env: Env, seed: string, run: Run, e: nat, k: nat)
    requires IsRun(env, seed, run) && e <= k <= |run.es| && FreshRound(run.ss[e])
    requires forall j :: 0 <= j < k && run.es[j].ReceiveProposal? ==> NotOwn(env.me, run.es[j].p)
    requires forall j :: e <= j < k && run.es[j].ChainSync? ==> |run.es[j].blocks| <= |run.ss[j].chain|
    ensures CommitteeInv(env.me, run.ss[k])
    decreases k
  {
    hide Leads;
    if k == e {
      BufferOnRuns(env, seed, run, k);
    } else {
      CommitteeOnRuns(env, seed, run, e, k - 1);
      RunStep(env, seed, run, k - 1);
      StepKeepsCommittee(env, run.ss[k - 1], run.es[k - 1], run.ss[k], run.cs[k - 1]);
    }
  }

  /** A valid proposal of `u` for the first period of a round on top of a block with hash `h`. */
  function FirstProposal(env: Env, u: Id, round: int, seed: string, h: string): Proposal {
    var b := Block(round, "", [], h, "");
    Proposal(u, u, round, 1, 1, seed, h, "", HashOf(env, b), b, true)
  }

  /**
   Why an adopted chain has to be excluded: the committee survives it while the proposals do not, so a proposer of the
   old round who proposes again in the new one is listed twice. The run has three events.
   */
  lemma SyncRepeatsProposer(env: Env, seed: string, u: Id) returns (run: Run)
    requires u in env.users && u != env.me
    ensures IsRun(env, seed, run) && |run.es| == 3 && run.ss[3].period == 1 && run.ss[3].committee == [u, u]
  {
    var s0 := Initial(env, seed);
    var h := Genesis(env).hash;
    var e0 := ReceiveProposal(FirstProposal(env, u, 1, seed, h));
    var s1 := Step(env, s0, e0).s;
    assert s1.committee == [u];
    var e1 := ChainSync([Some(Genesis(env)), Some(Genesis(env))], seed);
    var s2 := Step(env, s1, e1).s;
    var e2 := ReceiveProposal(FirstProposal(env, u, 2, seed, h));
    var s3 := Step(env, s2, e2).s;
    assert s3.committee == [u, u];
    run := Run([s0, s1, s2, s3], [e0, e1, e2], [None, None, None]);
  }

  /**
   A new period keeps the committee too, while the proposals start afresh: a proposer who proposes again is listed again.
   The run has three events and adopts no chain; the threshold is 0 at first, so one next vote closes the period.
   */
  lemma PeriodRepeatsProposer(env: Env, seed: string, u: Id) returns (run: Run)
    requires u in env.users && u != env.me
    ensures IsRun(env, seed, run) && |run.es| == 3 && run.ss[3].round == 1 && run.ss[3].period == 2 && run.ss[3].committee == [u, u]
    ensures forall k :: 0 <= k < 3 ==> !run.es[k].ChainSync?
  {
    hide Leads, AddProposal, HashOf;
    var s0, h := Initial(env, seed), Genesis(env).hash;
    var p := FirstProposal(env, u, 1, seed, h);
    var s1, e1 := AddProposal(s0, p), OneNextVote(u);
    var s2 := HandleNextPeriod(TakeNext(s1, e1.m), BOTTOM);
    var s3 := AddProposal(s2, p.(period := 2));
    TakesProposal(env, s0, u, 1, seed, h);
    ClosesAtOnce(env, s1, u);
    TakesProposal(env, s2, u, 2, seed, h);
    run := Run([s0, s1, s2, s3], [ReceiveProposal(p), e1, ReceiveProposal(p.(period := 2))], [None, None, None]);
  }

  function OneNextVote(u: Id): Event {
    ReceiveVote(VoteMsg(u, BOTTOM, 1, 1, Next, 4, true), Choices(NO_SCAN, NO_SCAN, NO_SCAN, Scan(BOTTOM, 1), ""))
  }

  lemma TakesProposal(env: Env, s: NodeState, u: Id, period: int, seed: string, h: string)
    requires u in env.users && u !in s.cur.idToBlock && HasTip(s) && Tip(s).hash == h && s.round == 1 && s.period == period && s.seed == seed
    ensures var p := FirstProposal(env, u, 1, seed, h).(period := period);
            var t := AddProposal(s, p);
            && Leads(env, s, ReceiveProposal(p), t, None)
            && t.committee == s.committee + [u] && t.cur.next == s.cur.next && t.chain == s.chain && t.seed == s.seed && t.required == s.required
            && t.round == s.round && t.period == s.period && t.cur.period == s.cur.period && t.cur.have4 == s.cur.have4
  {
  }

  lemma ClosesAtOnce(env: Env, s: NodeState, u: Id)
    requires s.round == 1 && s.period == 1 && s.cur.period == 1 && s.required == 0 && s.cur.next == map[] && s.cur.have4 == map[]
    ensures Leads(env, s, OneNextVote(u), HandleNextPeriod(TakeNext(s, OneNextVote(u).m), BOTTOM), None)
  {
    assert TakeNext(s, OneNextVote(u).m).cur.next == map[BOTTOM := 1];
  }

  // ------------------------------------------------------------------ how often somebody is listed

  /** Within a round: in a period each new proposer but the node itself is appended once; a new period starts afresh. */
  ghost predicate Listed(me: Id, s: NodeState, t: NodeState) {
    if t.period == s.period then
      && s.cur.idToBlock.Keys <= t.cur.idToBlock.Keys
      && forall u :: multiset(t.committee)[u] == multiset(s.committee)[u] + (if u != me && u in t.cur.idToBlock && u !in s.cur.idToBlock then 1 else 0)
    else
      t.period == s.period + 1 && t.committee == s.committee && t.cur.idToBlock == map[]
  }

  lemma ListedExecute(env: Env, s: NodeState, p: Proposal)
    requires NotOwn(env.me, p) && ExecuteProposal(env, s, p).Some?
    ensures ExecuteProposal(env, s, p).value.period == s.period && Listed(env.me, s, ExecuteProposal(env, s, p).value)
  {
    var t := ExecuteProposal(env, s, p).value;
    if t != s { assert multiset(t.committee) == multiset(s.committee) + multiset{p.proposer}; }
  }

  lemma ListedTransitive(me: Id, s: NodeState, t: NodeState, u: NodeState)
    requires t.period == s.period && u.period == s.period && Listed(me, s, t) && Listed(me, t, u)
    ensures Listed(me, s, u)
  {
  }

  lemma {:induction false} ListedExecuteAll(env: Env, s: NodeState, ps: seq<Proposal>)
    requires (forall p :: p in ps ==> NotOwn(env.me, p)) && ExecuteAll(env, s, ps).Some?
    ensures ExecuteAll(env, s, ps).value.period == s.period && Listed(env.me, s, ExecuteAll(env, s, ps).value)
    decreases |ps|
  {
    hide ExecuteProposal, Listed;
    if ps == [] {
      ListedSame(env.me, s, s);
    } else {
      var t := ExecuteProposal(env, s, ps[0]).value;
      ListedExecute(env, s, ps[0]);
      ListedExecuteAll(env, t, ps[1..]);
      ListedTransitive(env.me, s, t, ExecuteAll(env, s, ps).value);
    }
  }

  lemma ListedSame(me: Id, s: NodeState, t: NodeState)
    requires t.period == s.period && t.committee == s.committee && s.cur.idToBlock.Keys <= t.cur.idToBlock.Keys <= s.cur.idToBlock.Keys + {me}
    ensures Listed(me, s, t)
  {
  }

  lemma ListedRoundTimer(env: Env, s: NodeState, e: Event)
    requires e.RoundTimer? && OnRoundTimer(env, s, e).Done? && forall p :: p in s.buffer ==> NotOwn(env.me, p)
    ensures Listed(env.me, s, OnRoundTimer(env, s, e).s)
  {
    hide Listed, RunStep1, PreparedBlock, HasTip;
    var t := OnRoundTimer(env, s, e).s;
    if s.ready {
      ListedExecuteAll(env, s, s.buffer);
      var u := ExecuteAll(env, s, s.buffer).value;
      ListedSame(env.me, u, t);
      ListedTransitive(env.me, s, u, t);
    } else {
      ListedSame(env.me, s, t);
    }
  }

  lemma ListedVoting(me: Id, s: NodeState, o: Outcome)
    requires VotingOutcome(s, o) && o.Done? && o.s.round == s.round
    ensures Listed(me, s, o.s)
  {
  }

  lemma ListedStep(env: Env, s: NodeState, e: Event, t: NodeState, c: Option<Vote>)
    requires Shape(s) && Leads(env, s, e, t, c) && t.round == s.round
    requires (forall p :: p in s.buffer ==> NotOwn(env.me, p)) && (e.ReceiveProposal? ==> NotOwn(env.me, e.p))
    ensures Listed(env.me, s, t)
  {
    hide OnAgreementTimer, OnVote, OnRoundTimer, Listed, ExecuteProposal;
    match e
    case RoundTimer(_, _, _, _, _, _, _) => ListedRoundTimer(env, s, e);
    case AgreementTimer(ch) => TimerOutcome(env, s, ch); ListedVoting(env.me, s, OnAgreementTimer(env, s, ch));
    case ReceiveVote(m, ch) => VoteOutcome(s, m, ch); ListedVoting(env.me, s, OnVote(s, m, ch));
    case ReceiveProposal(p) =>
      if ExecuteProposal(env, s, p).Some? { ListedExecute(env, s, p); }
      ListedSame(env.me, s, s);
      ListedSame(env.me, s, s.(buffer := s.buffer + [p]));
    case AppendTransaction(tx) => ListedSame(env.me, s, t);
    case AppendBlock(blocks) => ListedSame(env.me, s, t);
    case NoticeFinal(peer, v) => ListedSame(env.me, s, s);
    case ChainSync(blocks, seed) => ListedSame(env.me, s, s);
  }

  /** The periods in which the node has accepted a proposal of `u`, from state `e` to state `k`. */
  ghost function PeriodsOf(run: Run, e: nat, k: nat, u: Id): set<int>
    requires k < |run.ss|
  {
    set j | e <= j <= k && u in run.ss[j].cur.idToBlock :: run.ss[j].period
  }

  /** The states since the round was entered: no later period, and in this one no proposer that is not still known. */
  ghost predicate Behind(run: Run, e: nat, k: nat)
    requires k < |run.ss|
  {
    forall j :: e <= j <= k ==>
      && run.ss[e].period <= run.ss[j].period <= run.ss[k].period
      && (run.ss[j].period == run.ss[k].period ==> run.ss[j].cur.idToBlock.Keys <= run.ss[k].cur.idToBlock.Keys)
  }

  lemma BehindStep(run: Run, e: nat, k: nat, me: Id)
    requires e < k < |run.ss| && Behind(run, e, k - 1) && Listed(me, run.ss[k - 1], run.ss[k])
    ensures Behind(run, e, k)
  {
    forall j | e <= j <= k
      ensures run.ss[e].period <= run.ss[j].period <= run.ss[k].period
      ensures run.ss[j].period == run.ss[k].period ==> run.ss[j].cur.idToBlock.Keys <= run.ss[k].cur.idToBlock.Keys
    {
      assert run.ss[e].period <= run.ss[k - 1].period;
      if j < k { assert run.ss[j].period <= run.ss[k - 1].period; }
    }
  }

  /** One more period is counted exactly when the proposer is new in the last state. */
  lemma PeriodsStep(run: Run, e: nat, k: nat, u: Id)
    requires e < k < |run.ss| && Behind(run, e, k - 1)
    requires var s, t := run.ss[k - 1], run.ss[k];
             if t.period == s.period then s.cur.idToBlock.Keys <= t.cur.idToBlock.Keys else t.cur.idToBlock == map[]
    ensures var s, t := run.ss[k - 1], run.ss[k];
            |PeriodsOf(run, e, k, u)| == |PeriodsOf(run, e, k - 1, u)|
                                         + if t.period == s.period && u in t.cur.idToBlock && u !in s.cur.idToBlock then 1 else 0
  {
    var before, after := PeriodsOf(run, e, k - 1, u), PeriodsOf(run, e, k, u);
    var s, t := run.ss[k - 1], run.ss[k];
    forall p ensures p in after <==> p in before || (u in t.cur.idToBlock && p == t.period) {
      if u in t.cur.idToBlock && p == t.period { assert u in run.ss[k].cur.idToBlock; }
    }
    if u !in t.cur.idToBlock {
      assert after == before;
    } else if u in s.cur.idToBlock {
      assert s.period in before && t.period == s.period;
      assert after == before;
    } else {
      assert t.period !in before;
      assert after == before + {t.period};
    }
  }

  /** Rounds do not go down along a run. */
  lemma SameRound(env: Env, seed: string, run: Run, e: nat, j: nat, k: nat)
    requires IsRun(env, seed, run) && e <= j <= k <= |run.es| && run.ss[k].round == run.ss[e].round
    ensures run.ss[j].round == run.ss[e].round
  {
    RoundOnRuns(env, seed, run, e, j);
    RoundOnRuns(env, seed, run, j, k);
  }

  lemma {:induction false} ListedOnRuns(env: Env, seed: string, run: Run, e: nat, k: nat, u: Id)
    requires IsRun(env, seed, run) && e <= k <= |run.es| && FreshRound(run.ss[e]) && run.ss[k].round == run.ss[e].round
    requires forall j :: 0 <= j < k && run.es[j].ReceiveProposal? ==> NotOwn(env.me, run.es[j].p)
    ensures Behind(run, e, k)
    ensures multiset(run.ss[k].committee)[u] == if u == env.me then 0 else |PeriodsOf(run, e, k, u)|
    decreases k
  {
    hide Leads, Listed, Behind, PeriodsOf;
    if k == e {
      assert Behind(run, e, e) by { BehindStart(run, e); }
      assert PeriodsOf(run, e, e, u) == {} by { NoPeriods(run, e, u); }
    } else {
      SameRound(env, seed, run, e, k - 1, k);
      ListedOnRuns(env, seed, run, e, k - 1, u);
      BufferOnRuns(env, seed, run, k - 1);
      RunStep(env, seed, run, k - 1);
      ListedStep(env, run.ss[k - 1], run.es[k - 1], run.ss[k], run.cs[k - 1]);
      BehindStep(run, e, k, env.me);
      ListedMeans(env.me, run.ss[k - 1], run.ss[k], u);
      PeriodsStep(run, e, k, u);
    }
  }

  lemma NoPeriods(run: Run, e: nat, u: Id)
    requires e < |run.ss| && FreshRound(run.ss[e])
    ensures PeriodsOf(run, e, e, u) == {}
  {
  }

  lemma BehindStart(run: Run, e: nat)
    requires e < |run.ss|
    ensures Behind(run, e, e)
  {
  }

  lemma ListedMeans(me: Id, s: NodeState, t: NodeState, u: Id)
    requires Listed(me, s, t)
    ensures if t.period == s.period then s.cur.idToBlock.Keys <= t.cur.idToBlock.Keys else t.cur.idToBlock == map[]
    ensures multiset(t.committee)[u] == multiset(s.committee)[u]
                                        + if u != me && t.period == s.period && u in t.cur.idToBlock && u !in s.cur.idToBlock then 1 else 0
  {
  }

  /**
   In every state of a round entered at start or by halting, the committee lists everybody else as many times as there
   are periods of the round in which a proposal of theirs was accepted, and the node itself never.
   */
  lemma CommitteeCounts(env: Env, seed: string, run: Run, e: nat, k: nat, u: Id)
    requires IsRun(env, seed, run) && e <= k <= |run.es| && FreshRound(run.ss[e]) && run.ss[k].round == run.ss[e].round
    requires forall j :: 0 <= j < k && run.es[j].ReceiveProposal? ==> NotOwn(env.me, run.es[j].p)
    ensures multiset(run.ss[k].committee)[u] == if u == env.me then 0 else |PeriodsOf(run, e, k, u)|
  {
    ListedOnRuns(env, seed, run, e, k, u);
  }

  // ------------------------------------------------------------------ how far the threshold rises

  lemma {:induction false} MultisetSize(m: multiset<Id>, us: set<Id>, b: nat)
    requires forall u :: u in m ==> u in us
    ensures (forall u :: u in us ==> m[u] <= b) ==> |m| <= |us| * b
    ensures (forall u :: u in us ==> m[u] == b) ==> |m| == |us| * b
    decreases |us|
  {
    if us == {} {
      assert m == multiset{};
    } else {
      var u :| u in us;
      var rest := m[u := 0];
      MultisetSize(rest, us - {u}, b);
      assert |rest| == |m| - m[u];
      assert |us| * b == |us - {u}| * b + b;
    }
  }

  lemma {:induction false} RangeSize(a: int, b: int, s: set<int>)
    requires a <= b + 1 && forall x :: x in s ==> a <= x <= b
    ensures |s| <= b - a + 1
    decreases b - a
  {
    if a > b {
      assert forall x :: x !in s;
      assert s == {};
    } else {
      RangeSize(a, b - 1, s - {b});
    }
  }

  lemma PeriodsBound(run: Run, e: nat, k: nat, u: Id)
    requires e <= k < |run.ss| && Behind(run, e, k) && run.ss[e].period == 1
    ensures |PeriodsOf(run, e, k, u)| <= run.ss[k].period
  {
    RangeSize(1, run.ss[k].period, PeriodsOf(run, e, k, u));
  }

  /** The committee has at most one entry for each proposer and period, and exactly that many if all propose every time. */
  lemma CommitteeSize(env: Env, seed: string, run: Run, e: nat, k: nat, us: set<Id>)
    requires IsRun(env, seed, run) && e <= k <= |run.es| && FreshRound(run.ss[e]) && run.ss[k].round == run.ss[e].round
    requires forall j :: 0 <= j < k && run.es[j].ReceiveProposal? ==> NotOwn(env.me, run.es[j].p)
    requires env.me !in us && forall u :: u in run.ss[k].committee ==> u in us
    ensures run.ss[k].period >= 1 && |run.ss[k].committee| <= |us| * run.ss[k].period
    ensures (forall u :: u in us ==> |PeriodsOf(run, e, k, u)| == run.ss[k].period) ==> |run.ss[k].committee| == |us| * run.ss[k].period
  {
    hide Leads, PeriodsOf, Behind;
    var c, p := run.ss[k].committee, run.ss[k].period;
    ListedOnRuns(env, seed, run, e, k, env.me);
    assert p >= 1 by { BehindPeriod(run, e, k); }
    forall u | u in us
      ensures multiset(c)[u] == |PeriodsOf(run, e, k, u)| <= p
    {
      ListedOnRuns(env, seed, run, e, k, u);
      PeriodsBound(run, e, k, u);
    }
    MultisetSize(multiset(c), us, p);
  }

  lemma BehindPeriod(run: Run, e: nat, k: nat)
    requires e <= k < |run.ss| && Behind(run, e, k) && run.ss[e].period == 1
    ensures run.ss[k].period >= 1
  {
  }

  /**
   If in each of the first p periods of a round the proposals of all the n - 1 others are accepted, step 2 of period p sets
   the threshold to 2*((p*(n-1)+1)/3)+1. From the second period on that is more than there are voters when n is 4 or more.
   */
  lemma ThresholdRises(env: Env, seed: string, run: Run, e: nat, k: nat, us: set<Id>)
    requires IsRun(env, seed, run) && e <= k <= |run.es| && FreshRound(run.ss[e]) && run.ss[k].round == run.ss[e].round
    requires forall j :: 0 <= j < k && run.es[j].ReceiveProposal? ==> NotOwn(env.me, run.es[j].p)
    requires env.me !in us && forall u :: u in run.ss[k].committee ==> u in us
    requires forall u :: u in us ==> |PeriodsOf(run, e, k, u)| == run.ss[k].period
    ensures Threshold(run.ss[k].committee) == 2 * ((|us| * run.ss[k].period + 1) / 3) + 1
    ensures |us| >= 3 && run.ss[k].period >= 2 ==> Threshold(run.ss[k].committee) > |us| + 1
  {
    hide Leads, PeriodsOf;
    CommitteeSize(env, seed, run, e, k, us);
    if run.ss[k].period >= 2 { assert |us| * run.ss[k].period >= |us| * 2; }
  }

  /** In such a period neither the soft nor the cert votes of all n nodes together reach the threshold: nobody can halt. */
  lemma QuorumOutOfReach(env: Env, seed: string, run: Run, e: nat, k: nat, us: set<Id>, v: Value)
    requires IsRun(env, seed, run) && e <= k <= |run.es| && FreshRound(run.ss[e]) && run.ss[k].round == run.ss[e].round
    requires forall j :: 0 <= j < k && run.es[j].ReceiveProposal? ==> NotOwn(env.me, run.es[j].p)
    requires env.me !in us && forall u :: u in run.ss[k].committee ==> u in us
    requires forall u :: u in us ==> |PeriodsOf(run, e, k, u)| == run.ss[k].period
    requires |us| >= 3 && run.ss[k].period >= 2 && run.ss[k].required == Threshold(run.ss[k].committee)
    requires run.ss[k].cur.haveSoft.Keys <= us + {env.me} && run.ss[k].cur.haveCert.Keys <= us + {env.me}
    ensures Get(run.ss[k].cur.soft, v) < run.ss[k].required && Get(run.ss[k].cur.cert, v) < run.ss[k].required
  {
    hide Leads, PeriodsOf, Threshold, Backers;
    ThresholdRises(env, seed, run, e, k, us);
    VoteAccounting(env, seed, run, k, v);
    BackersAmong(run.ss[k].cur.haveSoft, v, us + {env.me});
    BackersAmong(run.ss[k].cur.haveCert, v, us + {env.me});
  }

  lemma BackersAmong(log: map<Id, Value>, v: Value, us: set<Id>)
    requires log.Keys <= us
    ensures |Backers(log, v)| <= |us|
  {
    SubsetSize(Backers(log, v), us);
  }
}
