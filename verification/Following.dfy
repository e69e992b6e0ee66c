/**
 What the lock of a round makes nodes do, not only what it forbids: after a cert quorum for a value, a node of the committee
 that comes to step 2 of a later period soft-votes the value, exactly when the closed tally meets its threshold of the day.
 */
module Following {
  import opened Wrappers
  import opened Tally
  import opened Node
  import opened NodeRuns
  import opened Quorums
  import opened Network
  import opened Thresholds

  // ------------------------------------------------------------------ what stands behind a period

  /** Until step 2 a node past period 1 has behind it the quorum that closed the last one. */
  ghost predicate Opened(cfg: Config, s: NodeState) {
    s.step == 1 && s.period > 1 ==> s.required >= cfg.q && exists w :: w in s.last.next && w != "" && s.last.next[w] >= s.required
  }

  lemma ClosedOpens(cfg: Config, t: NodeState, c: Option<Vote>, m: Scan)
    requires IsMax(t.cur.next, m) && t.required >= cfg.q > 0 && (t.step > 1 || Opened(cfg, t))
    ensures Opened(cfg, NextCheck(t, c, m).s)
  {
    var v := Decided(m, t.required);
    if v != "" { assert v in HandleNextPeriod(t, v).last.next; }
  }

  lemma HaltOpens(cfg: Config, t: NodeState, c: Option<Vote>, m: Scan)
    requires t.step > 1 || Opened(cfg, t)
    ensures Opened(cfg, HaltCheck(t, c, m).s)
  {
  }

  /** The quorum is kept when nothing about it changes. */
  lemma SameOpens(cfg: Config, s: NodeState, t: NodeState)
    requires Opened(cfg, s) && t.step == s.step && t.period == s.period && t.required == s.required && t.last.next == s.last.next
    ensures Opened(cfg, t)
  {
  }

  lemma TimerOpens(cfg: Config, env: Env, s: NodeState, ch: Choices)
    requires Opened(cfg, s) && Shape(s) && TimerChoices(env, s, ch) && ThresholdInUse(cfg, s, AgreementTimer(ch)) && cfg.q > 0
    requires OnAgreementTimer(env, s, ch).Done?
    ensures Opened(cfg, OnAgreementTimer(env, s, ch).s)
  {
    hide RunStep2, RunStep3, RunStep4, RunStep5, Opened, IsMax, IsLeader;
    if !Votes(s) {
      SameOpens(cfg, s, OnAgreementTimer(env, s, ch).s);
    } else {
      var t := NextStep(s);
      assert t.step > 1;
      if t.step == 3 && env.me !in t.cur.haveCert {
        HaltOpens(cfg, Step3Vote(env, t, ch.soft), CastIf(env.me, t, CertSlot, RunStep3(ch.soft, t.required)), ch.cert);
      } else if t.step == 4 && env.me !in t.cur.have4 {
        ClosedOpens(cfg, Step4Vote(env, t, ch.last),
                    Some(Vote(env.me, t.round, t.period, Next4Slot, RunStep4(t.cur, ch.last, t.required))), ch.next);
      } else if t.step == 5 && env.me !in t.cur.have5 {
        ClosedOpens(cfg, Step5Vote(env, t, ch.soft, ch.last),
                    CastIf(env.me, t, Next5Slot, RunStep5(t.cur, ch.soft, ch.last, t.required)), ch.next);
      } else {
        LaterStep(cfg, OnAgreementTimer(env, s, ch).s);
      }
    }
  }

  lemma LaterStep(cfg: Config, t: NodeState)
    requires t.step > 1
    ensures Opened(cfg, t)
  {
  }

  lemma VoteOpens(cfg: Config, s: NodeState, m: VoteMsg, ch: Choices)
    requires Opened(cfg, s) && Shape(s) && VoteChoices(s, m, ch) && ThresholdInUse(cfg, s, ReceiveVote(m, ch)) && cfg.q > 0
    ensures Opened(cfg, OnVote(s, m, ch).s)
  {
    hide Opened, IsMax, HaltCheck, NextCheck;
    if m.round <= s.round && VerifyVote(s, m) {
      match m.kind
      case Soft => SameOpens(cfg, s, TakeSoft(s, m));
      case Cert =>
        SameOpens(cfg, s, TakeCert(s, m));
        HaltOpens(cfg, TakeCert(s, m), None, ch.cert);
      case Next =>
        SameOpens(cfg, s, TakeNext(s, m));
        ClosedOpens(cfg, TakeNext(s, m), None, ch.next);
      case Other =>
    }
  }

  lemma RoundTimerOpens(cfg: Config, env: Env, s: NodeState, e: Event)
    requires Opened(cfg, s) && e.RoundTimer? && OnRoundTimer(env, s, e).Done?
    ensures Opened(cfg, OnRoundTimer(env, s, e).s)
  {
    hide Opened, RunStep1;
    if s.ready { ExecuteAllFrame(env, s, s.buffer); }
    SameOpens(cfg, s, OnRoundTimer(env, s, e).s);
  }

  lemma StepOpens(cfg: Config, env: Env, s: NodeState, e: Event)
    requires Opened(cfg, s) && Shape(s) && Enabled(env, s, e) && ThresholdInUse(cfg, s, e) && Step(env, s, e).Done? && cfg.q > 0
    ensures Opened(cfg, Step(env, s, e).s)
  {
    hide Opened, OnAgreementTimer, OnVote, OnRoundTimer, TimerChoices, VoteChoices, ThresholdInUse, IsMax;
    match e
    case RoundTimer(_, _, _, _, _, _, _) => RoundTimerOpens(cfg, env, s, e);
    case AgreementTimer(ch) => TimerOpens(cfg, env, s, ch);
    case ReceiveVote(m, ch) => VoteOpens(cfg, s, m, ch);
    case ReceiveProposal(p) =>
      if p.round <= s.round && p.period != s.period + 1 { ExecuteFrame(env, s, p); }
      SameOpens(cfg, s, Step(env, s, e).s);
    case AppendTransaction(_) => SameOpens(cfg, s, Step(env, s, e).s);
    case AppendBlock(_) => SameOpens(cfg, s, Step(env, s, e).s);
    case NoticeFinal(peer, _) => if peer == s.cur.leader { FirstPeriod(cfg, Step(env, s, e).s); }
    case ChainSync(blocks, _) => if |blocks| > |s.chain| { FirstPeriod(cfg, Step(env, s, e).s); }
  }

  lemma FirstPeriod(cfg: Config, t: NodeState)
    requires t.period == 1
    ensures Opened(cfg, t)
  {
  }

  lemma NetStepOpens(cfg: Config, net: Net, net': Net, i: Id, e: Event)
    requires NetStep(cfg, net, net', i, e) && NodesInv(net) && cfg.q > 0 && forall o :: o in net.nodes ==> Opened(cfg, net.nodes[o])
    ensures forall o :: o in net'.nodes ==> Opened(cfg, net'.nodes[o])
  {
    hide Opened, Step, Enabled, ThresholdInUse, NodeInv, Delivered;
    ShapeOf(i, net.nodes[i], net.hist);
    if Step(EnvOf(cfg, i), net.nodes[i], e).Done? { StepOpens(cfg, EnvOf(cfg, i), net.nodes[i], e); }
  }

  lemma {:induction false} OpenedOnRuns(cfg: Config, nets: seq<Net>, acts: seq<(Id, Event)>, k: nat)
    requires NetRun(cfg, nets, acts) && k < |nets| && cfg.q > 0
    ensures NodesInv(nets[k]) && forall o :: o in nets[k].nodes ==> Opened(cfg, nets[k].nodes[o])
  {
    hide NetStep, Opened, NodesInv;
    assert FreeRun(cfg, nets, acts) by { IsFree(cfg, nets, acts); }
    FreeRunInv(cfg, nets, acts, k);
    if k == 0 {
      forall o | o in nets[0].nodes
        ensures Opened(cfg, nets[0].nodes[o])
      {
        FirstPeriod(cfg, nets[0].nodes[o]);
      }
    } else {
      OpenedOnRuns(cfg, nets, acts, k - 1);
      NetStepOpens(cfg, nets[k - 1], nets[k], acts[k - 1].0, acts[k - 1].1);
    }
  }

  lemma IsFree(cfg: Config, nets: seq<Net>, acts: seq<(Id, Event)>)
    requires NetRun(cfg, nets, acts)
    ensures FreeRun(cfg, nets, acts)
  {
    hide FreeStep;
  }

  // ------------------------------------------------------------------ the vote that follows

  /** What step 2 casts, by what the scan of the closed tally finds. */
  lemma CastByScan(env: Env, s: NodeState, ch: Choices)
    requires Shape(s) && Votes(s) && s.step == 1 && s.period > 1 && env.me !in s.cur.haveSoft
    ensures var o := OnAgreementTimer(env, s, ch);
            var q := 2 * ((|s.committee| + 1) / 3) + 1;
            && (ch.last.votes >= q && ch.last.value != "" && ch.last.value != BOTTOM ==>
                  o.Done? && o.cast == Some(Vote(env.me, s.round, s.period, SoftSlot, ch.last.value)))
            && (ch.last.votes < q ==> o.Done? && o.cast == None)
  {
  }

  /** In a later period only the locked value can be found by a threshold. */
  lemma OnlyLockedFound(cfg: Config, nets: seq<Net>, acts: seq<(Id, Event)>, j: nat, k: nat, r: int, p: int, v: Value, i: Id, w: Value)
    requires cfg.Locking() && NetRun(cfg, nets, acts) && j < |nets| && k < |nets| && CertEvidence(cfg, nets[j], r, p, v)
    requires i in nets[k].nodes && nets[k].nodes[i].round == r && nets[k].nodes[i].period > p
    ensures v != "" && v != BOTTOM && p >= 1
    ensures Get(nets[k].nodes[i].last.next, w) >= cfg.q > 0 ==> w == v
  {
    hide NetRun, CertEvidence, QuorumFor, NextQuorum, PeriodSound, Lawful;
    var last := if j <= k then k else j;
    var s := nets[k].nodes[i];
    EvidenceStays(cfg, nets, acts, j, last, r, p, v);
    NetRunInv(cfg, nets, acts, k);
    NetRunInv(cfg, nets, acts, last);
    NetGrows(cfg, nets, acts, k, last);
    QuorumsGrow(cfg, nets[k].hist, nets[last].hist);
    OnlyLocked(cfg, nets[last].hist, r, p, v, s.period - 1);
    if Get(s.last.next, w) >= cfg.q > 0 { NextCountIsQuorum(cfg, nets[k].hist, r, s.period - 1, s.last, w); }
  }

  /**
   After evidence of a cert quorum for `v`, at any time, an honest committee node that comes to step 2 of a later period of
   the round without a soft vote casts one for `v` if the closed tally has `v` at the threshold it then computes, and none
   otherwise. It has, unless the committee has grown so much that the threshold is above the one that closed the period.
   */
  lemma SoftFollowsLock(cfg: Config, nets: seq<Net>, acts: seq<(Id, Event)>, j: nat, k: nat, r: int, p: int, v: Value)
    requires cfg.Locking() && NetRun(cfg, nets, acts) && j < |nets| && k < |acts| && CertEvidence(cfg, nets[j], r, p, v)
    requires var (i, e) := acts[k];
             && i in nets[k].nodes && e.AgreementTimer? && i !in nets[k].nodes[i].cur.haveSoft
             && var s := nets[k].nodes[i]; s.round == r && s.period > p && s.step == 1 && !s.ready && s.isCommittee
    ensures var i := acts[k].0;
            var s := nets[k].nodes[i];
            var q := 2 * ((|s.committee| + 1) / 3) + 1;
            && i in nets[k + 1].nodes
            && nets[k + 1].hist == (if Get(s.last.next, v) >= q then nets[k].hist + {Vote(i, r, s.period, SoftSlot, v)} else nets[k].hist)
            && (q <= s.required ==> Get(s.last.next, v) >= q)
  {
    hide NetStep, CertEvidence, Opened, NodesInv, Get;
    var (i, e) := acts[k];
    var s := nets[k].nodes[i];
    assert NetStep(cfg, nets[k], nets[k + 1], i, e);
    OpenedOnRuns(cfg, nets, acts, k);
    assert Shape(s) by { NodeShape(nets[k], i); }
    forall w
      ensures v != "" && v != BOTTOM && p >= 1 && (Get(s.last.next, w) >= cfg.q ==> w == v)
    {
      OnlyLockedFound(cfg, nets, acts, j, k, r, p, v, i, w);
    }
    assert v != "" && v != BOTTOM && p >= 1 by { OnlyLockedFound(cfg, nets, acts, j, k, r, p, v, i, v); }
    FollowsOne(cfg, nets[k], nets[k + 1], i, e, v);
  }

  /** One node whose closed tally can have no other value at a quorum. */
  lemma FollowsOne(cfg: Config, net: Net, net': Net, i: Id, e: Event, v: Value)
    requires i in net.nodes && NetStep(cfg, net, net', i, e) && e.AgreementTimer? && cfg.q > 0 && v != "" && v != BOTTOM
    requires var s := net.nodes[i];
             && i !in s.cur.haveSoft && s.period > 1 && s.step == 1 && !s.ready && s.isCommittee && Shape(s) && Opened(cfg, s)
             && forall w :: Get(s.last.next, w) >= cfg.q ==> w == v
    ensures var s := net.nodes[i];
            var q := 2 * ((|s.committee| + 1) / 3) + 1;
            && i in net'.nodes
            && net'.hist == (if Get(s.last.next, v) >= q then net.hist + {Vote(i, s.round, s.period, SoftSlot, v)} else net.hist)
            && (q <= s.required ==> Get(s.last.next, v) >= q)
  {
    hide NetStep, Opened, OnAgreementTimer, Get, IsMax, Shape;
    var s := net.nodes[i];
    TimerStep(cfg, net, net', i, e);
    CastByScan(EnvOf(cfg, i), s, e.ch);
    ScanFinds(s.last.next, e.ch.last, v);
    var w := Behind(cfg, s);
  }

  lemma TimerStep(cfg: Config, net: Net, net': Net, i: Id, e: Event)
    requires NetStep(cfg, net, net', i, e) && e.AgreementTimer? && net.nodes[i].step == 1 && !net.nodes[i].ready && net.nodes[i].isCommittee
    ensures var s, o := net.nodes[i], OnAgreementTimer(EnvOf(cfg, i), net.nodes[i], e.ch);
            && IsMax(s.last.next, e.ch.last) && 2 * ((|s.committee| + 1) / 3) + 1 >= cfg.q
            && (o.Done? ==> i in net'.nodes && net'.hist == With(net.hist, o.cast))
  {
    hide OnAgreementTimer, IsMax, Delivered;
  }

  lemma NodeShape(net: Net, i: Id)
    requires NodesInv(net) && i in net.nodes
    ensures Shape(net.nodes[i])
  {
    ShapeOf(i, net.nodes[i], net.hist);
  }

  lemma ScanFinds(t: Counter, m: Scan, v: Value)
    requires IsMax(t, m)
    ensures m.votes >= Get(t, v) && m.votes == Get(t, m.value)
  {
  }

  lemma Behind(cfg: Config, s: NodeState) returns (w: Value)
    requires Opened(cfg, s) && s.step == 1 && s.period > 1
    ensures Get(s.last.next, w) >= s.required >= cfg.q
  {
    w :| w in s.last.next && w != "" && s.last.next[w] >= s.required;
  }
}
