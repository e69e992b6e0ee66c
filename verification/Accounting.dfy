/**
 Exact accounting of the tallies over runs of a node, the threshold within a round, and
 two short runs that show where the code's guards end.
 */
module Accounting {
  import opened Wrappers
  import opened Tally
  import opened Node
  import opened NodeRuns

  /** Soft and cert tallies count each recorded voter once, and their totals are the numbers of recorded voters. */
  ghost predicate Counted(ps: PeriodState) {
    && Accounts(ps.soft, ps.haveSoft) && Total(ps.soft) == |ps.haveSoft|
    && Accounts(ps.cert, ps.haveCert) && Total(ps.cert) == |ps.haveCert|
  }

  /** The next tally counts each voter once per step. */
  ghost predicate NextCounted(ps: PeriodState) { NextCounts(ps.next, ps.have4, ps.have5) }

  ghost predicate NextCounts(t: Counter, log4: map<Id, Value>, log5: map<Id, Value>) {
    AccountsTwice(t, log4, log5) && Total(t) == |log4| + |log5|
  }

  /** Recording a new voter keeps the next accounting. */
  lemma NextCountsAdd(t: Counter, log4: map<Id, Value>, log5: map<Id, Value>, u: Id, v: Value)
    requires NextCounts(t, log4, log5)
    ensures u !in log4 ==> NextCounts(Bump(t, v), log4[u := v], log5)
    ensures u !in log5 ==> NextCounts(Bump(t, v), log4, log5[u := v])
  {
    TotalBump(t, v);
    if u !in log4 { AccountsTwiceBump4(t, log4, log5, u, v); }
    if u !in log5 { AccountsTwiceBump5(t, log4, log5, u, v); }
  }

  /** Recording a known voter breaks it. */
  lemma NextCountsRepeat(t: Counter, log4: map<Id, Value>, log5: map<Id, Value>, u: Id, v: Value)
    requires NextCounts(t, log4, log5)
    ensures u in log4 ==> !NextCounts(Bump(t, v), log4[u := v], log5)
    ensures u in log5 ==> !NextCounts(Bump(t, v), log4, log5[u := v])
  {
    TotalBump(t, v);
    if u in log4 { assert log4[u := v].Keys == log4.Keys; }
    if u in log5 { assert log5[u := v].Keys == log5.Keys; }
  }

  /** The accounting a node keeps; for next votes it depends on at-most-once delivery. */
  ghost predicate Tallied(ps: PeriodState, once: bool) { Counted(ps) && (once ==> NextCounted(ps)) }

  lemma FreshTallied(ps: PeriodState, p: int)
    requires ps == InitPeriod(p).(starting := ps.starting)
    ensures Tallied(ps, true)
  {
  }

  lemma CastTallied(me: Id, s: NodeState, t: NodeState, v: Vote, once: bool)
    requires AfterCast(me, s, t, v) && Tallied(s.cur, once)
    ensures Tallied(t.cur, once)
  {
    match v.slot
    case SoftSlot => AccountsBump(s.cur.soft, s.cur.haveSoft, me, v.value); TotalBump(s.cur.soft, v.value);
    case CertSlot => AccountsBump(s.cur.cert, s.cur.haveCert, me, v.value); TotalBump(s.cur.cert, v.value);
    case Next4Slot =>
      if once { NextCountsAdd(s.cur.next, s.cur.have4, s.cur.have5, me, v.value); }
    case Next5Slot =>
      if once { NextCountsAdd(s.cur.next, s.cur.have4, s.cur.have5, me, v.value); }
  }

  lemma TakeSoftTallied(s: NodeState, m: VoteMsg, once: bool)
    requires m.period == s.cur.period && m.peer !in s.cur.haveSoft && Tallied(s.cur, once)
    ensures Tallied(TakeSoft(s, m).cur, once)
  {
    AccountsBump(s.cur.soft, s.cur.haveSoft, m.peer, m.value);
    TotalBump(s.cur.soft, m.value);
  }

  lemma TakeCertTallied(s: NodeState, m: VoteMsg, once: bool)
    requires m.period == s.cur.period && m.peer !in s.cur.haveCert && Tallied(s.cur, once)
    ensures Tallied(TakeCert(s, m).cur, once)
  {
    AccountsBump(s.cur.cert, s.cur.haveCert, m.peer, m.value);
    TotalBump(s.cur.cert, m.value);
  }

  lemma TakeNextTallied(s: NodeState, m: VoteMsg, once: bool)
    requires m.period == s.cur.period && Tallied(s.cur, once) && (once ==> FirstNext(s, m))
    ensures Tallied(TakeNext(s, m).cur, once)
  {
    if once { NextCountsAdd(s.cur.next, s.cur.have4, s.cur.have5, m.peer, m.value); }
  }

  lemma ChecksTallied(t: NodeState, c: Option<Vote>, m: Scan, once: bool)
    requires Tallied(t.cur, once)
    ensures Tallied(HaltCheck(t, c, m).s.cur, once)
    ensures Tallied(NextCheck(t, c, m).s.cur, once)
  {
    var v := Decided(m, t.required);
    if v != "" {
      FreshTallied(HandleHalt(t, BlockFor(t, v), v).cur, 1);
      FreshTallied(HandleNextPeriod(t, v).cur, t.period + 1);
    }
  }

  lemma Step2Tallied(env: Env, s: NodeState, t: NodeState, last: Scan, leader: Id, once: bool)
    requires t == NextStep(s) && t.step == 2 && env.me !in s.cur.haveSoft && Tallied(s.cur, once)
    requires Step2(env, t, last, leader).Done?
    ensures Tallied(Step2(env, t, last, leader).s.cur, once)
  {
    var u := t.(required := Threshold(t.committee));
    match RunStep2(u.cur.period, last, u.required)
    case VoteFor(v) =>
      if v != "" {
        CastTallied(env.me, s, CastSoft(env.me, u, v).s, Vote(env.me, s.round, s.period, SoftSlot, v), once);
      }
    case FollowLeader =>
      var w := u.(cur := u.cur.(leader := leader));
      var h := w.cur.idToBlock[leader].hash;
      if h != "" {
        CastTallied(env.me, s, CastSoft(env.me, w, h).s, Vote(env.me, s.round, s.period, SoftSlot, h), once);
      }
  }

  lemma TimerTallied(env: Env, s: NodeState, ch: Choices, once: bool)
    requires Tallied(s.cur, once) && OnAgreementTimer(env, s, ch).Done?
    ensures Tallied(OnAgreementTimer(env, s, ch).s.cur, once)
  {
    var me, t := env.me, NextStep(s);
    if !s.ready && s.isCommittee {
      if t.step == 2 && me !in t.cur.haveSoft {
        Step2Tallied(env, s, t, ch.last, ch.leader, once);
      } else if t.step == 3 && me !in t.cur.haveCert {
        var v := RunStep3(ch.soft, t.required);
        if v != "" {
          CertIsCast(me, s, t, v);
          CastTallied(me, s, WithCert(me, t, v), Vote(me, s.round, s.period, CertSlot, v), once);
        }
        ChecksTallied(Step3Vote(env, t, ch.soft), CastIf(me, t, CertSlot, v), ch.cert, once);
      } else if t.step == 4 && me !in t.cur.have4 {
        var v := RunStep4(t.cur, ch.last, t.required);
        Next4IsCast(me, s, t, v);
        CastTallied(me, s, WithNext4(me, t, v), Vote(me, s.round, s.period, Next4Slot, v), once);
        ChecksTallied(Step4Vote(env, t, ch.last), Some(Vote(me, t.round, t.period, Next4Slot, v)), ch.next, once);
      } else if t.step == 5 && me !in t.cur.have5 {
        var v := RunStep5(t.cur, ch.soft, ch.last, t.required);
        if v != "" {
          Next5IsCast(me, s, t, v);
          CastTallied(me, s, WithNext5(me, t, v), Vote(me, s.round, s.period, Next5Slot, v), once);
        }
        ChecksTallied(Step5Vote(env, t, ch.soft, ch.last), CastIf(me, t, Next5Slot, v), ch.next, once);
      }
    }
  }

  lemma VoteTallied(s: NodeState, m: VoteMsg, ch: Choices, once: bool)
    requires Shape(s) && Tallied(s.cur, once)
    requires once && VerifyVote(s, m) && m.kind == Next ==> FirstNext(s, m)
    ensures Tallied(OnVote(s, m, ch).s.cur, once)
  {
    if m.round <= s.round && VerifyVote(s, m) {
      match m.kind
      case Soft =>
        if m.peer !in s.cur.haveSoft { TakeSoftTallied(s, m, once); }
      case Cert =>
        if m.peer !in s.cur.haveCert {
          TakeCertTallied(s, m, once);
          ChecksTallied(TakeCert(s, m), None, ch.cert, once);
        }
      case Next =>
        TakeNextTallied(s, m, once);
        ChecksTallied(TakeNext(s, m), None, ch.next, once);
      case Other =>
    }
  }

  lemma RoundTimerTallied(env: Env, s: NodeState, e: Event, once: bool)
    requires e.RoundTimer? && Tallied(s.cur, once) && OnRoundTimer(env, s, e).Done?
    ensures Tallied(OnRoundTimer(env, s, e).s.cur, once)
  {
    RoundTimerFrame(env, s, e);
  }

  lemma ProposalTallied(env: Env, s: NodeState, p: Proposal, once: bool)
    requires Tallied(s.cur, once) && OnProposal(env, s, p).Done?
    ensures Tallied(OnProposal(env, s, p).s.cur, once)
  {
    if ExecuteProposal(env, s, p).Some? { ExecuteFrame(env, s, p); }
  }

  /** An event under which a next vote is counted at most once per voter and step. */
  ghost predicate DeliversOnce(s: NodeState, e: Event) {
    e.ReceiveVote? && VerifyVote(s, e.m) && e.m.kind == Next ==> FirstNext(s, e.m)
  }

  lemma StepTallied(env: Env, s: NodeState, e: Event, t: NodeState, c: Option<Vote>, once: bool)
    requires Shape(s) && Tallied(s.cur, once) && Leads(env, s, e, t, c)
    requires once ==> DeliversOnce(s, e)
    ensures Tallied(t.cur, once)
  {
    hide OnAgreementTimer, OnVote, OnRoundTimer;
    match e
    case RoundTimer(_, _, _, _, _, _, _) => RoundTimerTallied(env, s, e, once);
    case AgreementTimer(ch) => TimerTallied(env, s, ch, once);
    case ReceiveVote(m, ch) => VoteTallied(s, m, ch, once);
    case ReceiveProposal(p) => ProposalTallied(env, s, p, once);
    case AppendTransaction(tx) =>
    case AppendBlock(blocks) =>
    case NoticeFinal(peer, v) => FreshTallied(HandleHalt(s, BlockFor(s, v), v).cur, 1);
    case ChainSync(blocks, seed) =>
      if |blocks| > |s.chain| { FreshTallied(OnChainSync(s, blocks, seed).cur, 1); }
  }

  lemma {:induction false} TalliedOnRuns(env: Env, seed: string, run: Run, k: nat, once: bool)
    requires IsRun(env, seed, run) && k <= |run.es|
    requires once ==> forall j :: 0 <= j < k ==> DeliversOnce(run.ss[j], run.es[j])
    ensures Tallied(run.ss[k].cur, once)
  {
    hide Leads, DeliversOnce, Counted, NextCounted;
    if k == 0 {
      FreshTallied(run.ss[0].cur, 1);
    } else {
      TalliedOnRuns(env, seed, run, k - 1, once);
      RunStep(env, seed, run, k - 1);
      StepTallied(env, run.ss[k - 1], run.es[k - 1], run.ss[k], run.cs[k - 1], once);
    }
  }

  /** Exact accounting of soft and cert votes, in every state of every run, whatever is delivered. */
  lemma VoteAccounting(env: Env, seed: string, run: Run, k: nat, v: Value)
    requires IsRun(env, seed, run) && k <= |run.es|
    ensures Get(run.ss[k].cur.soft, v) == |Backers(run.ss[k].cur.haveSoft, v)|
    ensures Get(run.ss[k].cur.cert, v) == |Backers(run.ss[k].cur.haveCert, v)|
    ensures Total(run.ss[k].cur.soft) == |run.ss[k].cur.haveSoft| && Total(run.ss[k].cur.cert) == |run.ss[k].cur.haveCert|
  {
    TalliedOnRuns(env, seed, run, k, false);
  }

  /** Exact accounting of next votes, when each is delivered at most once per voter and step. */
  lemma NextAccounting(env: Env, seed: string, run: Run, k: nat, v: Value)
    requires IsRun(env, seed, run) && k <= |run.es|
    requires forall j :: 0 <= j < k ==> DeliversOnce(run.ss[j], run.es[j])
    ensures Get(run.ss[k].cur.next, v) == |Backers(run.ss[k].cur.have4, v)| + |Backers(run.ss[k].cur.have5, v)|
    ensures Total(run.ss[k].cur.next) == |run.ss[k].cur.have4| + |run.ss[k].cur.have5|
  {
    TalliedOnRuns(env, seed, run, k, true);
  }

  /**
   The delivery condition is exactly what the accounting needs: an accepted next vote keeps it
   if and only if the voter was not yet recorded for that step.
   */
  lemma NextAccountingIff(s: NodeState, m: VoteMsg)
    requires NextCounted(s.cur) && m.period == s.cur.period
    ensures NextCounted(TakeNext(s, m).cur) <==> FirstNext(s, m)
  {
    NextCountsAdd(s.cur.next, s.cur.have4, s.cur.have5, m.peer, m.value);
    NextCountsRepeat(s.cur.next, s.cur.have4, s.cur.have5, m.peer, m.value);
  }

  // ---------------------------------------------------------- the threshold

  /** Within a round the committee only grows and the threshold follows it, so it never drops once set in the round. */
  ghost predicate ThresholdKept(s: NodeState, t: NodeState) {
    s.round == t.round ==>
      && s.committee <= t.committee
      && (t.required == s.required || t.required == Threshold(t.committee))
  }

  lemma TimerThreshold(env: Env, s: NodeState, ch: Choices)
    requires OnAgreementTimer(env, s, ch).Done?
    ensures ThresholdKept(s, OnAgreementTimer(env, s, ch).s)
  {
  }

  lemma VoteThreshold(s: NodeState, m: VoteMsg, ch: Choices)
    requires Shape(s)
    ensures ThresholdKept(s, OnVote(s, m, ch).s)
  {
  }

  lemma StepThreshold(env: Env, s: NodeState, e: Event, t: NodeState, c: Option<Vote>)
    requires Shape(s) && Leads(env, s, e, t, c)
    ensures ThresholdKept(s, t)
  {
    hide OnAgreementTimer, OnVote, OnRoundTimer;
    match e
    case RoundTimer(_, _, _, _, _, _, _) => RoundTimerFrame(env, s, e);
    case AgreementTimer(ch) => TimerThreshold(env, s, ch);
    case ReceiveVote(m, ch) => VoteThreshold(s, m, ch);
    case ReceiveProposal(p) => if ExecuteProposal(env, s, p).Some? { ExecuteFrame(env, s, p); }
    case _ =>
  }

  lemma LargerCommittee(c: seq<Id>, d: seq<Id>)
    requires |c| <= |d|
    ensures Threshold(c) <= Threshold(d)
  {
  }

  lemma {:induction false} ThresholdChain(ss: seq<NodeState>, i: nat, j: nat)
    requires i <= j < |ss|
    requires forall k, l {:trigger ss[k], ss[l]} :: i <= k && l == k + 1 <= j ==> ThresholdKept(ss[k], ss[l])
    requires forall k :: i <= k <= j ==> ss[k].round == ss[i].round
    requires ss[i].required == Threshold(ss[i].committee)
    ensures ss[i].required <= ss[j].required <= Threshold(ss[j].committee)
    decreases j
  {
    if i < j {
      ThresholdChain(ss, i, j - 1);
      LargerCommittee(ss[j - 1].committee, ss[j].committee);
    }
  }

  lemma RunStepThreshold(env: Env, seed: string, run: Run, k: nat)
    requires IsRun(env, seed, run) && k < |run.es|
    ensures ThresholdKept(run.ss[k], run.ss[k + 1])
  {
    hide Leads;
    RunStep(env, seed, run, k);
    StepThreshold(env, run.ss[k], run.es[k], run.ss[k + 1], run.cs[k]);
  }

  lemma RoundOnRuns(env: Env, seed: string, run: Run, i: nat, k: nat)
    requires IsRun(env, seed, run) && i <= k <= |run.es|
    ensures run.ss[i].round <= run.ss[k].round
  {
    hide Leads;
    RunAdvances(env, seed, run, i, k);
  }

  /**
   Once step 2 has set the threshold in a round, the threshold in use never falls for the rest of
   the round; with the other n-1 voters on the committee it is at least 2*(n/3)+1 from then on.
   */
  lemma ThresholdOnRuns(env: Env, seed: string, run: Run, i: nat, j: nat, n: nat)
    requires IsRun(env, seed, run) && i <= j <= |run.es|
    requires run.ss[i].round == run.ss[j].round && run.ss[i].required == Threshold(run.ss[i].committee)
    ensures run.ss[i].required <= run.ss[j].required <= Threshold(run.ss[j].committee)
    ensures |run.ss[i].committee| + 1 >= n ==> run.ss[j].required >= 2 * (n / 3) + 1
  {
    hide Leads;
    forall k, l {:trigger run.ss[k], run.ss[l]} | i <= k && l == k + 1 <= j
      ensures ThresholdKept(run.ss[k], run.ss[l])
    {
      RunStepThreshold(env, seed, run, k);
    }
    forall k | i <= k <= j
      ensures run.ss[k].round == run.ss[i].round
    {
      RoundOnRuns(env, seed, run, i, k);
      RoundOnRuns(env, seed, run, k, j);
    }
    ThresholdChain(run.ss, i, j);
  }

  // --------------------------------------------------------- where guards end

  /** `n` deliveries of one message in a row lead from `s` to `t`, for some iteration orders. */
  ghost predicate Repeats(s: NodeState, m: VoteMsg, n: nat, t: NodeState)
    decreases n
  {
    if n == 0 then t == s
    else exists u, ch :: VoteChoices(s, m, ch) && OnVote(s, m, ch) == Quiet(u) && Repeats(u, m, n - 1, t)
  }

  /** A next vote of step 4 that verifies, in a state whose next tally is below the threshold. */
  ghost predicate Repeatable(s: NodeState, m: VoteMsg) {
    && Shape(s) && VerifyVote(s, m) && m.kind == Next && m.step == 4 && m.value != "" && m.peer !in s.cur.have5
    && forall w :: w in s.cur.next ==> s.cur.next[w] < s.required
  }

  /** One delivery: counted, with the period closed when the count reaches the threshold, whatever the iteration order. */
  lemma OneDelivery(s: NodeState, m: VoteMsg, ch: Choices)
    requires Repeatable(s, m) && VoteChoices(s, m, ch) && s.required > 0
    ensures var t := TakeNext(s, m);
            OnVote(s, m, ch) == Quiet(if Get(s.cur.next, m.value) + 1 == s.required then HandleNextPeriod(t, m.value) else t)
  {
    var t := TakeNext(s, m);
    assert t.cur.next == Bump(s.cur.next, m.value) && t.cur.next[m.value] == Get(s.cur.next, m.value) + 1;
    if Get(s.cur.next, m.value) + 1 == s.required {
      assert t.cur.next[m.value] <= ch.next.votes;
      assert ch.next.value == m.value;
    }
  }

  lemma StillRepeatable(s: NodeState, m: VoteMsg)
    requires Repeatable(s, m) && Get(s.cur.next, m.value) + 1 < s.required
    ensures var t := TakeNext(s, m);
            && Repeatable(t, m) && t.required == s.required && t.round == s.round && t.period == s.period
            && t.cur.next == Bump(s.cur.next, m.value) && t.cur.have4 == s.cur.have4[m.peer := m.value] && t.cur.have5 == s.cur.have5
  {
  }

  /** The period of `s` has been closed on the message's value, with no new voter recorded but its sender. */
  ghost predicate ClosedAlone(s: NodeState, m: VoteMsg, t: NodeState) {
    && t.round == s.round && t.period == s.period + 1 && t.ready && t.cur.starting == (if m.value == BOTTOM then "" else m.value)
    && t.last.have4 == s.cur.have4[m.peer := m.value] && t.last.have5 == s.cur.have5
    && t.last.next == s.cur.next[m.value := s.required]
  }

  lemma ClosedBy(s: NodeState, m: VoteMsg)
    requires Repeatable(s, m) && Get(s.cur.next, m.value) + 1 == s.required
    ensures ClosedAlone(s, m, HandleNextPeriod(TakeNext(s, m), m.value))
  {
  }

  lemma AloneBefore(s: NodeState, m: VoteMsg, u: NodeState, t: NodeState)
    requires ClosedAlone(u, m, t) && u.required == s.required && u.round == s.round && u.period == s.period
    requires u.cur.next == Bump(s.cur.next, m.value) && u.cur.have4 == s.cur.have4[m.peer := m.value] && u.cur.have5 == s.cur.have5
    ensures ClosedAlone(s, m, t)
  {
    assert s.cur.have4[m.peer := m.value][m.peer := m.value] == s.cur.have4[m.peer := m.value];
    assert Bump(s.cur.next, m.value)[m.value := s.required] == s.cur.next[m.value := s.required];
  }

  /**
   A next vote is refused only when its voter is recorded for both steps, so one voter repeating one step-4 message closes
   the period alone: as many deliveries as the count is short of the threshold, in whatever iteration orders, end with the
   period closed on its value and no voter recorded but that one.
   */
  lemma {:induction false} OneVoterCloses(s: NodeState, m: VoteMsg, t: NodeState)
    requires Repeatable(s, m) && s.required > 0 && Get(s.cur.next, m.value) < s.required
    requires Repeats(s, m, s.required - Get(s.cur.next, m.value), t)
    ensures ClosedAlone(s, m, t)
    decreases s.required - Get(s.cur.next, m.value)
  {
    hide OnVote, VoteChoices, TakeNext, HandleNextPeriod, Repeatable, ClosedAlone;
    var n := s.required - Get(s.cur.next, m.value);
    var u, ch :| VoteChoices(s, m, ch) && OnVote(s, m, ch) == Quiet(u) && Repeats(u, m, n - 1, t);
    OneDelivery(s, m, ch);
    if n > 1 {
      StillRepeatable(s, m);
      OneVoterCloses(u, m, t);
      AloneBefore(s, m, u, t);
    } else {
      ClosedBy(s, m);
    }
  }

  lemma SomeChoices(s: NodeState, m: VoteMsg) returns (ch: Choices)
    requires Repeatable(s, m)
    ensures VoteChoices(s, m, ch)
  {
    var next := TakeNext(s, m).cur.next;
    var order := Enumerate(next.Keys);
    ScanAlongIsMax(next, order);
    ch := Choices(NO_SCAN, NO_SCAN, NO_SCAN, ScanAlong(next, order), "");
  }

  /** And such deliveries are always possible. */
  lemma {:induction false} CanRepeat(s: NodeState, m: VoteMsg) returns (t: NodeState)
    requires Repeatable(s, m) && s.required > 0 && Get(s.cur.next, m.value) < s.required
    ensures Repeats(s, m, s.required - Get(s.cur.next, m.value), t)
    decreases s.required - Get(s.cur.next, m.value)
  {
    hide OnVote, VoteChoices, TakeNext, HandleNextPeriod, Repeatable;
    var n := s.required - Get(s.cur.next, m.value);
    var ch := SomeChoices(s, m);
    OneDelivery(s, m, ch);
    var u := OnVote(s, m, ch).s;
    if n == 1 {
      t := u;
    } else {
      StillRepeatable(s, m);
      t := CanRepeat(u, m);
    }
    assert VoteChoices(s, m, ch) && OnVote(s, m, ch) == Quiet(u) && Repeats(u, m, n - 1, t);
  }

  /** One vote message, and the round timer that follows it panics in step 1: the initial threshold is 0, and "err" is taken for an error. */
  lemma ErrValuePanics(env: Env, seed: string, peer: Id)
    ensures var s := Initial(env, seed);
            var m := VoteMsg(peer, "err", 1, 1, Next, 4, true);
            var ch := Choices(NO_SCAN, NO_SCAN, NO_SCAN, Scan("err", 1), "");
            var o := OnVote(s, m, ch);
            && VoteChoices(s, m, ch) && o.Done? && o.s.ready && o.s.period == 2
            && forall e: Event :: e.RoundTimer? && Enabled(env, o.s, e) ==> Step(env, o.s, e) == Crash
  {
    var s := Initial(env, seed);
    var m := VoteMsg(peer, "err", 1, 1, Next, 4, true);
    assert TakeNext(s, m).cur.next == map["err" := 1];
    var t := OnVote(s, m, Choices(NO_SCAN, NO_SCAN, NO_SCAN, Scan("err", 1), "")).s;
    assert t.last.next == map["err" := 1];
    forall scan | IsMax(t.last.next, scan)
      ensures scan == Scan("err", 1)
    {
      assert t.last.next["err"] <= scan.votes;
    }
  }

  // --------------------------------------------------- when step 1 cannot panic

  /** The string "err" is no value, starting value or block hash of the period. */
  ghost predicate CleanPeriod(ps: PeriodState) {
    && "err" !in ps.soft && "err" !in ps.cert && "err" !in ps.next && ps.starting != "err" && ps.myCert != "err"
    && (forall u :: u in ps.idToBlock ==> ps.idToBlock[u].hash != "err")
    && (forall v :: v in ps.valueToBlock ==> ps.valueToBlock[v].hash != "err")
  }

  ghost predicate Clean(s: NodeState) {
    CleanPeriod(s.cur) && CleanPeriod(s.last) && forall p :: p in s.buffer ==> p.block.hash != "err"
  }

  /** No digest is "err". */
  ghost predicate CleanDigest(env: Env) { forall i, t, c, h :: env.digest(i, t, c, h) != "err" }

  /** No received vote and no received block names "err". */
  predicate CleanInput(e: Event) {
    && (e.ReceiveVote? ==> e.m.value != "err")
    && (e.ReceiveProposal? ==> e.p.block.hash != "err")
  }

  lemma CleanExecute(env: Env, s: NodeState, p: Proposal)
    requires Clean(s) && p.block.hash != "err" && ExecuteProposal(env, s, p).Some?
    ensures Clean(ExecuteProposal(env, s, p).value)
  {
  }

  lemma {:induction false} CleanExecuteAll(env: Env, s: NodeState, ps: seq<Proposal>)
    requires Clean(s) && (forall p :: p in ps ==> p.block.hash != "err") && ExecuteAll(env, s, ps).Some?
    ensures Clean(ExecuteAll(env, s, ps).value)
    decreases |ps|
  {
    if ps != [] {
      CleanExecute(env, s, ps[0]);
      CleanExecuteAll(env, ExecuteProposal(env, s, ps[0]).value, ps[1..]);
    }
  }

  lemma CleanRoundTimer(env: Env, s: NodeState, e: Event)
    requires CleanDigest(env) && Clean(s) && e.RoundTimer? && OnRoundTimer(env, s, e).Done?
    ensures Clean(OnRoundTimer(env, s, e).s)
  {
    if s.ready { CleanExecuteAll(env, s, s.buffer); }
  }

  lemma CleanChecks(s: NodeState, c: Option<Vote>, m: Scan)
    requires Clean(s)
    ensures Clean(HaltCheck(s, c, m).s)
    ensures IsMax(s.cur.next, m) ==> Clean(NextCheck(s, c, m).s)
  {
  }

  lemma CleanSoft(me: Id, s: NodeState, required: nat, leader: Id, v: Value)
    requires Clean(s)
    ensures var t := s.(required := required);
            && Clean(t) && Clean(t.(cur := t.cur.(leader := leader)))
            && (v != "err" ==> Clean(CastSoft(me, t, v).s) && Clean(CastSoft(me, t.(cur := t.cur.(leader := leader)), v).s))
  {
  }

  lemma CleanStep2(env: Env, s: NodeState, last: Scan, leader: Id)
    requires Clean(s) && IsMax(s.last.next, last) && Step2(env, s, last, leader).Done?
    ensures Clean(Step2(env, s, last, leader).s)
  {
    CleanScan(s.last.next, last);
    assert leader in s.cur.idToBlock ==> s.cur.idToBlock[leader].hash != "err";
    hide IsMax, Clean, CastSoft;
    var t := s.(required := Threshold(s.committee));
    match RunStep2(t.cur.period, last, t.required)
    case VoteFor(v) => CleanSoft(env.me, s, t.required, leader, v);
    case FollowLeader => CleanSoft(env.me, s, t.required, leader, s.cur.idToBlock[leader].hash);
  }

  /** What the later steps vote for is not "err" either. */
  lemma CleanStep3(env: Env, s: NodeState, soft: Scan)
    requires Clean(s) && IsMax(s.cur.soft, soft)
    ensures Clean(Step3Vote(env, s, soft))
  {
    hide IsMax;
    assert RunStep3(soft, s.required) != "err" by { CleanScan(s.cur.soft, soft); }
  }

  lemma CleanStep4(env: Env, s: NodeState, last: Scan)
    requires Clean(s)
    ensures Clean(Step4Vote(env, s, last))
  {
    assert RunStep4(s.cur, last, s.required) != "err";
    hide RunStep4;
  }

  lemma CleanStep5(env: Env, s: NodeState, soft: Scan, last: Scan)
    requires Clean(s) && IsMax(s.cur.soft, soft)
    ensures Clean(Step5Vote(env, s, soft, last))
  {
    hide IsMax;
    CleanScan(s.cur.soft, soft);
  }

  lemma CleanScan(t: Counter, m: Scan)
    requires "err" !in t && IsMax(t, m)
    ensures m.value != "err"
  {
  }

  lemma CleanAside(s: NodeState, leader: Id)
    requires Clean(s)
    ensures Clean(NextStep(s)) && Clean(s.(cur := s.cur.(leader := leader)))
  {
  }

  lemma CleanTimer(env: Env, s: NodeState, ch: Choices)
    requires Clean(s) && TimerChoices(env, s, ch) && OnAgreementTimer(env, s, ch).Done?
    ensures Clean(OnAgreementTimer(env, s, ch).s)
  {
    hide HaltCheck, NextCheck, Step2, Step3Vote, Step4Vote, Step5Vote, Clean, IsMax, IsLeader, RunStep2, RunStep3, RunStep4, RunStep5;
    var t := NextStep(s);
    CleanAside(s, ch.leader);
    if !s.ready && s.isCommittee {
      CleanStep3(env, t, ch.soft);
      CleanStep4(env, t, ch.last);
      CleanStep5(env, t, ch.soft, ch.last);
    }
    if !s.ready && s.isCommittee {
      if t.step == 2 && env.me !in t.cur.haveSoft {
        CleanStep2(env, t, ch.last, ch.leader);
      } else if t.step == 3 && env.me !in t.cur.haveCert {
        CleanChecks(Step3Vote(env, t, ch.soft), CastIf(env.me, t, CertSlot, RunStep3(ch.soft, t.required)), ch.cert);
      } else if t.step == 4 && env.me !in t.cur.have4 {
        CleanChecks(Step4Vote(env, t, ch.last),
                    Some(Vote(env.me, t.round, t.period, Next4Slot, RunStep4(t.cur, ch.last, t.required))), ch.next);
      } else if t.step == 5 && env.me !in t.cur.have5 {
        CleanChecks(Step5Vote(env, t, ch.soft, ch.last),
                    CastIf(env.me, t, Next5Slot, RunStep5(t.cur, ch.soft, ch.last, t.required)), ch.next);
      }
    }
  }

  lemma CleanVote(s: NodeState, m: VoteMsg, ch: Choices)
    requires Clean(s) && m.value != "err" && VoteChoices(s, m, ch)
    ensures Clean(OnVote(s, m, ch).s)
  {
    hide HaltCheck, NextCheck;
    if m.kind == Cert { CleanChecks(TakeCert(s, m), None, ch.cert); }
    if m.kind == Next { CleanChecks(TakeNext(s, m), None, ch.next); }
  }

  lemma CleanStep(env: Env, s: NodeState, e: Event, t: NodeState, c: Option<Vote>)
    requires CleanDigest(env) && Clean(s) && CleanInput(e) && Leads(env, s, e, t, c)
    ensures Clean(t)
  {
    hide OnAgreementTimer, OnVote, OnRoundTimer;
    match e
    case RoundTimer(_, _, _, _, _, _, _) => CleanRoundTimer(env, s, e);
    case AgreementTimer(ch) => CleanTimer(env, s, ch);
    case ReceiveVote(m, ch) => CleanVote(s, m, ch);
    case ReceiveProposal(p) => if ExecuteProposal(env, s, p).Some? { CleanExecute(env, s, p); }
    case _ =>
  }

  lemma {:induction false} CleanOnRuns(env: Env, seed: string, run: Run, k: nat)
    requires CleanDigest(env) && IsRun(env, seed, run) && k <= |run.es|
    requires forall j :: 0 <= j < k ==> CleanInput(run.es[j])
    ensures Clean(run.ss[k])
  {
    hide Leads, CleanDigest;
    if k > 0 {
      CleanOnRuns(env, seed, run, k - 1);
      CleanStep(env, run.ss[k - 1], run.es[k - 1], run.ss[k], run.cs[k - 1]);
    }
  }

  /** Unless somebody names "err", the step-1 panic is unreachable: no scan in a ready state of the run leads to it. */
  lemma Step1NeverPanics(env: Env, seed: string, run: Run, k: nat, m: Scan)
    requires CleanDigest(env) && IsRun(env, seed, run) && k <= |run.es|
    requires forall j :: 0 <= j < k ==> CleanInput(run.es[j])
    requires run.ss[k].ready && IsMax(run.ss[k].last.next, m)
    ensures RunStep1(run.ss[k].period, m, run.ss[k].required) != "err"
  {
    hide Leads, CleanDigest;
    CleanOnRuns(env, seed, run, k);
    Step1Error(env, seed, run, k, m);
  }
}
