/**
 Where the network theorems get their quorum from: if every node that decides has run step 2 of the round with the other
 voters on its committee, the thresholds in use are at least the code's 2*(n/3)+1.
 */
module Thresholds {
  import opened Wrappers
  import opened Tally
  import opened Node
  import opened NodeRuns
  import opened Quorums
  import opened Network
  import opened Accounting

  /** A run of the network with nothing assumed about thresholds. */
  ghost predicate FreeRun(cfg: Config, nets: seq<Net>, acts: seq<(Id, Event)>) {
    && |nets| == |acts| + 1 && NetInit(cfg, nets[0])
    && forall k {:trigger acts[k]} :: 0 <= k < |acts| ==> FreeStep(cfg, nets[k], nets[k + 1], acts[k].0, acts[k].1)
  }

  /** The node handling the k-th event, before it. */
  ghost predicate Acts(nets: seq<Net>, acts: seq<(Id, Event)>, k: nat) {
    k < |acts| < |nets| && acts[k].0 in nets[k].nodes
  }

  /** The event takes a voting node to step 2 of a period. */
  predicate EntersStep2(s: NodeState, e: Event) { e.AgreementTimer? && Votes(s) && NextStep(s).step == 2 }

  /** The event decides something by a threshold set earlier. */
  predicate Decides(s: NodeState, e: Event) {
    || (e.AgreementTimer? && Votes(s) && NextStep(s).step != 2)
    || (e.ReceiveVote? && VerifyVote(s, e.m) && (e.m.kind == Cert || e.m.kind == Next))
  }

  /** At event `j` node `i` sets its threshold, in the round it is in at `k`. */
  ghost predicate SetBefore(nets: seq<Net>, acts: seq<(Id, Event)>, j: nat, k: nat) {
    && j < k && Acts(nets, acts, j) && Acts(nets, acts, k) && acts[j].0 == acts[k].0
    && var i := acts[k].0;
       && EntersStep2(nets[j].nodes[i], acts[j].1) && i !in nets[j].nodes[i].cur.haveSoft
       && nets[j].nodes[i].round == nets[k].nodes[i].round
  }

  /** Step 2 sees the other voters on the committee, and nobody decides in a round before its step 2. */
  ghost predicate WellPrepared(cfg: Config, nets: seq<Net>, acts: seq<(Id, Event)>) {
    forall k: nat {:trigger acts[k]} :: Acts(nets, acts, k) ==>
      var s := nets[k].nodes[acts[k].0];
      && (EntersStep2(s, acts[k].1) ==> |s.committee| + 1 >= cfg.N())
      && (Decides(s, acts[k].1) ==> exists j :: SetBefore(nets, acts, j, k))
  }

  // ------------------------------------------------------------ the invariant of one node

  ghost predicate NodesInv(net: Net) { forall i :: i in net.nodes ==> NodeInv(i, net.nodes[i], net.hist) }

  lemma OthersRemember(j: Id, s: NodeState, hist: set<Vote>, c: Option<Vote>)
    requires NodeInv(j, s, hist) && (c.Some? ==> c.value.voter != j)
    ensures NodeInv(j, s, With(hist, c))
  {
  }

  /** A step keeps every node's invariant, and the node that acts advances and keeps its threshold. */
  lemma FreeStepKeeps(cfg: Config, net: Net, net': Net, i: Id, e: Event)
    requires NodesInv(net) && FreeStep(cfg, net, net', i, e)
    ensures NodesInv(net') && net'.nodes.Keys <= net.nodes.Keys
    ensures forall j :: j in net'.nodes ==> Advances(net.nodes[j], net'.nodes[j]) && ThresholdKept(net.nodes[j], net'.nodes[j])
  {
    hide Step, NodeInv, Advances, ThresholdKept, Enabled, Delivered;
    var env, s := EnvOf(cfg, i), net.nodes[i];
    var o := Step(env, s, e);
    forall j | j in net'.nodes
      ensures NodeInv(j, net'.nodes[j], net'.hist) && Advances(net.nodes[j], net'.nodes[j]) && ThresholdKept(net.nodes[j], net'.nodes[j])
    {
      SameStays(net.nodes[j]);
      if o.Done? {
        StepKeeps(env, s, e, net.hist);
        if o.cast.Some? { CastIsOwn(env, s, e); }
        if j == i {
          assert Shape(s) by { ShapeOf(i, s, net.hist); }
          StepThreshold(env, s, e, o.s, o.cast);
        } else {
          OthersRemember(j, net.nodes[j], net.hist, o.cast);
        }
      }
    }
  }

  lemma ShapeOf(me: Id, s: NodeState, casts: set<Vote>)
    requires NodeInv(me, s, casts)
    ensures Shape(s)
  {
  }

  lemma SameStays(s: NodeState)
    ensures Advances(s, s) && ThresholdKept(s, s)
  {
  }

  lemma {:induction false} FreeRunInv(cfg: Config, nets: seq<Net>, acts: seq<(Id, Event)>, k: nat)
    requires FreeRun(cfg, nets, acts) && k < |nets|
    ensures NodesInv(nets[k])
  {
    hide FreeStep;
    if k > 0 {
      FreeRunInv(cfg, nets, acts, k - 1);
      FreeStepKeeps(cfg, nets[k - 1], nets[k], acts[k - 1].0, acts[k - 1].1);
    }
  }

  /** A node still present at `k` was there before, advanced, and kept a threshold once set in the round. */
  lemma {:induction false} NodeOverTime(cfg: Config, nets: seq<Net>, acts: seq<(Id, Event)>, i: Id, j: nat, k: nat)
    requires FreeRun(cfg, nets, acts) && j <= k < |nets| && i in nets[k].nodes
    ensures i in nets[j].nodes && Advances(nets[j].nodes[i], nets[k].nodes[i])
    ensures var s, t := nets[j].nodes[i], nets[k].nodes[i];
            s.round == t.round && s.required == Threshold(s.committee) ==> s.required <= t.required <= Threshold(t.committee)
    decreases k - j
  {
    hide FreeStep;
    if j == k {
      SameStays(nets[j].nodes[i]);
    } else {
      FreeRunInv(cfg, nets, acts, k - 1);
      FreeStepKeeps(cfg, nets[k - 1], nets[k], acts[k - 1].0, acts[k - 1].1);
      NodeOverTime(cfg, nets, acts, i, j, k - 1);
      AdvancesTransitive(nets[j].nodes[i], nets[k - 1].nodes[i], nets[k].nodes[i]);
      RoundsBetween(nets[j].nodes[i], nets[k - 1].nodes[i], nets[k].nodes[i]);
      var u, t := nets[k - 1].nodes[i], nets[k].nodes[i];
      if u.committee <= t.committee { LargerCommittee(u.committee, t.committee); }
    }
  }

  lemma RoundsBetween(s: NodeState, t: NodeState, u: NodeState)
    requires Advances(s, t) && Advances(t, u)
    ensures s.round <= t.round <= u.round
  {
  }

  lemma Step2Sets(env: Env, s: NodeState, ch: Choices)
    requires Votes(s) && NextStep(s).step == 2 && env.me !in s.cur.haveSoft && OnAgreementTimer(env, s, ch).Done?
    ensures var t := OnAgreementTimer(env, s, ch).s;
            t.round == s.round && t.committee == s.committee && t.required == Threshold(s.committee)
  {
  }

  /** The threshold that a deciding node uses. */
  lemma DecidingThreshold(cfg: Config, nets: seq<Net>, acts: seq<(Id, Event)>, j: nat, k: nat)
    requires FreeRun(cfg, nets, acts) && WellPrepared(cfg, nets, acts) && cfg.q == CodeQuorum(cfg.N())
    requires SetBefore(nets, acts, j, k)
    ensures nets[k].nodes[acts[k].0].required >= cfg.q
  {
    hide FreeStep, Advances;
    var i := acts[k].0;
    var s := nets[j].nodes[i];
    assert Acts(nets, acts, j);
    assert EntersStep2(s, acts[j].1) && |s.committee| + 1 >= cfg.N();
    NodeOverTime(cfg, nets, acts, i, j + 1, k);
    Step2Leaves(cfg, nets[j], nets[j + 1], i, acts[j].1);
  }

  /** What step 2 leaves of a node in the network. */
  lemma Step2Leaves(cfg: Config, net: Net, net': Net, i: Id, e: Event)
    requires FreeStep(cfg, net, net', i, e) && EntersStep2(net.nodes[i], e) && i !in net.nodes[i].cur.haveSoft && i in net'.nodes
    ensures var s, t := net.nodes[i], net'.nodes[i];
            t.round == s.round && t.committee == s.committee && t.required == Threshold(s.committee)
  {
    hide Enabled, Delivered, OnAgreementTimer, Threshold;
    if Step(EnvOf(cfg, i), net.nodes[i], e).Done? { Step2Sets(EnvOf(cfg, i), net.nodes[i], e.ch); }
  }

  /**
   With the code's quorum, a well-prepared run is one to which the network theorems apply: no threshold need be assumed.
   */
  lemma CodeThresholds(cfg: Config, nets: seq<Net>, acts: seq<(Id, Event)>)
    requires FreeRun(cfg, nets, acts) && WellPrepared(cfg, nets, acts) && cfg.q == CodeQuorum(cfg.N())
    ensures NetRun(cfg, nets, acts)
  {
    hide FreeStep, SetBefore, VerifyVote;
    forall k {:trigger acts[k]} | 0 <= k < |acts|
      ensures NetStep(cfg, nets[k], nets[k + 1], acts[k].0, acts[k].1)
    {
      assert FreeStep(cfg, nets[k], nets[k + 1], acts[k].0, acts[k].1);
      assert acts[k].0 in nets[k].nodes by { ActsThere(cfg, nets[k], nets[k + 1], acts[k].0, acts[k].1); }
      assert Acts(nets, acts, k);
      if Decides(nets[k].nodes[acts[k].0], acts[k].1) {
        var j :| SetBefore(nets, acts, j, k);
        DecidingThreshold(cfg, nets, acts, j, k);
      }
    }
  }

  lemma ActsThere(cfg: Config, net: Net, net': Net, i: Id, e: Event)
    requires FreeStep(cfg, net, net', i, e)
    ensures i in net.nodes
  {
  }
}
