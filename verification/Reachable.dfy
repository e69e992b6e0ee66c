/**
 Networks that a well-prepared run can reach, built up one event at a time.
 */
module Reachable {
  import opened Tally
  import opened Node
  import opened NodeRuns
  import opened Quorums
  import opened Network
  import opened Thresholds

  /** A node of the first round that has been through step 2. */
  predicate Started(s: NodeState) { s.round == 1 && (s.step >= 2 || s.period >= 2) }

  /** At event `j` of the run node `i` set its threshold, in the first round. */
  ghost predicate SetAt(nets: seq<Net>, acts: seq<(Id, Event)>, j: nat, i: Id) {
    && Acts(nets, acts, j) && acts[j].0 == i && EntersStep2(nets[j].nodes[i], acts[j].1)
    && i !in nets[j].nodes[i].cur.haveSoft && nets[j].nodes[i].round == 1
  }

  /** The run leads to the network, well prepared throughout. */
  ghost predicate LeadsTo(cfg: Config, nets: seq<Net>, acts: seq<(Id, Event)>, net: Net) {
    && FreeRun(cfg, nets, acts) && WellPrepared(cfg, nets, acts) && |nets| > 0 && nets[|nets| - 1] == net
    && forall i :: i in net.nodes && Started(net.nodes[i]) ==> exists j :: SetAt(nets, acts, j, i)
  }

  ghost predicate Reached(cfg: Config, net: Net) { exists nets, acts :: LeadsTo(cfg, nets, acts, net) }

  /** The event fits a well-prepared run: step 2 sees all others, and decisions come after it. */
  ghost predicate Prepared(cfg: Config, me: Id, s: NodeState, e: Event, t: NodeState) {
    && (EntersStep2(s, e) ==> |s.committee| + 1 >= cfg.N() && me !in s.cur.haveSoft && s.round == 1)
    && (Decides(s, e) ==> Started(s))
    && (Started(t) ==> Started(s) || EntersStep2(s, e))
  }

  lemma FreeRunMore(cfg: Config, nets: seq<Net>, acts: seq<(Id, Event)>, net': Net, i: Id, e: Event)
    requires FreeRun(cfg, nets, acts) && FreeStep(cfg, nets[|nets| - 1], net', i, e)
    ensures FreeRun(cfg, nets + [net'], acts + [(i, e)])
  {
    hide FreeStep;
    var more, done := nets + [net'], acts + [(i, e)];
    forall k {:trigger done[k]} | 0 <= k < |done|
      ensures FreeStep(cfg, more[k], more[k + 1], done[k].0, done[k].1)
    {
      if k < |acts| { assert acts[k] == done[k]; }
    }
  }

  /** An earlier decision is still prepared. */
  lemma SetBeforeMore(nets: seq<Net>, acts: seq<(Id, Event)>, net': Net, i: Id, e: Event, j: nat, k: nat)
    requires SetBefore(nets, acts, j, k)
    ensures SetBefore(nets + [net'], acts + [(i, e)], j, k)
  {
    hide EntersStep2;
    var more, done := nets + [net'], acts + [(i, e)];
    assert more[j] == nets[j] && more[k] == nets[k] && done[j] == acts[j] && done[k] == acts[k];
  }

  /** So is one of a node that has been through step 2. */
  lemma SetBeforeLast(cfg: Config, nets: seq<Net>, acts: seq<(Id, Event)>, net: Net, net': Net, i: Id, e: Event)
    requires LeadsTo(cfg, nets, acts, net) && i in net.nodes && Started(net.nodes[i])
    ensures exists j :: SetBefore(nets + [net'], acts + [(i, e)], j, |acts|)
  {
    hide EntersStep2, FreeStep, WellPrepared;
    var j: nat :| SetAt(nets, acts, j, i);
    var more, done := nets + [net'], acts + [(i, e)];
    assert more[j] == nets[j] && more[|acts|] == net && done[j] == acts[j];
    assert SetBefore(more, done, j, |acts|);
  }

  lemma PreparedMore(cfg: Config, nets: seq<Net>, acts: seq<(Id, Event)>, net: Net, net': Net, i: Id, e: Event)
    requires LeadsTo(cfg, nets, acts, net) && i in net.nodes && i in net'.nodes && Prepared(cfg, i, net.nodes[i], e, net'.nodes[i])
    ensures WellPrepared(cfg, nets + [net'], acts + [(i, e)])
  {
    hide EntersStep2, Decides, Started, SetAt, SetBefore, FreeStep;
    var more, done := nets + [net'], acts + [(i, e)];
    forall k: nat {:trigger done[k]} | Acts(more, done, k)
      ensures var s := more[k].nodes[done[k].0];
              && (EntersStep2(s, done[k].1) ==> |s.committee| + 1 >= cfg.N())
              && (Decides(s, done[k].1) ==> exists j :: SetBefore(more, done, j, k))
    {
      if k < |acts| {
        assert acts[k] == done[k] && more[k] == nets[k] && Acts(nets, acts, k);
        if Decides(nets[k].nodes[acts[k].0], acts[k].1) {
          var j :| SetBefore(nets, acts, j, k);
          SetBeforeMore(nets, acts, net', i, e, j, k);
        }
      } else {
        assert more[k] == net && done[k] == (i, e);
        if Decides(net.nodes[i], e) { SetBeforeLast(cfg, nets, acts, net, net', i, e); }
      }
    }
  }

  lemma SetMore(cfg: Config, nets: seq<Net>, acts: seq<(Id, Event)>, net: Net, net': Net, i: Id, e: Event)
    requires LeadsTo(cfg, nets, acts, net) && i in net.nodes && Only(net, net', i) && Prepared(cfg, i, net.nodes[i], e, net'.nodes[i])
    ensures forall o :: o in net'.nodes && Started(net'.nodes[o]) ==> exists j :: SetAt(nets + [net'], acts + [(i, e)], j, o)
  {
    hide EntersStep2, Decides, Started, WellPrepared;
    var more, done := nets + [net'], acts + [(i, e)];
    forall o | o in net'.nodes && Started(net'.nodes[o])
      ensures exists j :: SetAt(more, done, j, o)
    {
      if o != i || Started(net.nodes[i]) {
        var j :| SetAt(nets, acts, j, o);
        assert SetAt(more, done, j, o);
      } else {
        assert SetAt(more, done, |acts|, i);
      }
    }
  }

  /** The event is possible and has the outcome `o`. */
  ghost predicate Yields(cfg: Config, hist: set<Vote>, me: Id, s: NodeState, e: Event, o: Outcome) {
    && Enabled(EnvOf(cfg, me), s, e)
    && (e.ReceiveVote? ==> Delivered(cfg, hist, s, e.m))
    && o.Done? && Step(EnvOf(cfg, me), s, e) == o && Prepared(cfg, me, s, e, o.s)
  }

  /** Only node `i` has changed, and votes and halts have not gone. */
  ghost predicate Only(net: Net, net': Net, i: Id) {
    && i in net.nodes && i in net'.nodes && net'.nodes == net.nodes[i := net'.nodes[i]]
    && net.hist <= net'.hist && net.halts <= net'.halts
  }

  /** The network after the outcome. */
  function After(net: Net, i: Id, o: Outcome): Net
    requires i in net.nodes && o.Done?
  {
    Net(net.nodes[i := o.s], With(net.hist, o.cast), AddHalt(net.halts, i, net.nodes[i], o))
  }

  lemma AfterIs(net: Net, i: Id, o: Outcome)
    requires i in net.nodes && o.Done?
    ensures var net' := After(net, i, o);
            && Only(net, net', i) && i in net'.nodes && net'.nodes[i] == o.s && (o.cast.Some? ==> o.cast.value in net'.hist)
            && (o.halt.Some? ==> Halt(i, net.nodes[i].round, net.nodes[i].period, o.halt.value) in net'.halts)
  {
  }

  lemma MoveReaches(cfg: Config, net: Net, net': Net, i: Id, e: Event)
    requires Reached(cfg, net) && FreeStep(cfg, net, net', i, e) && Only(net, net', i) && Prepared(cfg, i, net.nodes[i], e, net'.nodes[i])
    ensures Reached(cfg, net')
  {
    hide FreeStep, Prepared, LeadsTo;
    var nets, acts :| LeadsTo(cfg, nets, acts, net);
    OneMore(cfg, nets, acts, net, net', i, e);
  }

  lemma YieldsFree(cfg: Config, net: Net, i: Id, e: Event, o: Outcome)
    requires i in net.nodes && o.Done? && Yields(cfg, net.hist, i, net.nodes[i], e, o)
    ensures FreeStep(cfg, net, After(net, i, o), i, e) && Prepared(cfg, i, net.nodes[i], e, o.s)
  {
    hide Step, Enabled, Delivered, Prepared;
  }

  lemma OneMore(cfg: Config, nets: seq<Net>, acts: seq<(Id, Event)>, net: Net, net': Net, i: Id, e: Event)
    requires LeadsTo(cfg, nets, acts, net) && FreeStep(cfg, net, net', i, e) && Only(net, net', i)
    requires Prepared(cfg, i, net.nodes[i], e, net'.nodes[i])
    ensures LeadsTo(cfg, nets + [net'], acts + [(i, e)], net')
  {
    hide FreeStep, Prepared, SetAt, Started, WellPrepared, FreeRun, Only;
    FreeRunMore(cfg, nets, acts, net', i, e);
    assert i in net.nodes && i in net'.nodes by { Has(net, net', i); }
    PreparedMore(cfg, nets, acts, net, net', i, e);
    SetMore(cfg, nets, acts, net, net', i, e);
  }

  lemma Has(net: Net, net': Net, i: Id)
    requires Only(net, net', i)
    ensures i in net.nodes && i in net'.nodes
  {
  }

  lemma Move(cfg: Config, net: Net, i: Id, e: Event, o: Outcome) returns (net': Net)
    requires Reached(cfg, net) && i in net.nodes && Yields(cfg, net.hist, i, net.nodes[i], e, o) && o.Done?
    ensures Reached(cfg, net') && Only(net, net', i) && net'.nodes[i] == o.s
    ensures o.cast.Some? ==> o.cast.value in net'.hist
    ensures o.halt.Some? ==> Halt(i, net.nodes[i].round, net.nodes[i].period, o.halt.value) in net'.halts
  {
    hide *;
    net' := After(net, i, o);
    AfterIs(net, i, o);
    YieldsFree(cfg, net, i, e, o);
    MoveReaches(cfg, net, net', i, e);
  }

  /** The initial network, all seeds empty. */
  lemma Start(cfg: Config) returns (net: Net)
    ensures Reached(cfg, net) && net.nodes.Keys == cfg.honest
    ensures forall i :: i in net.nodes ==> net.nodes[i] == Initial(EnvOf(cfg, i), "")
  {
    net := Net(map i | i in cfg.honest :: Initial(EnvOf(cfg, i), ""), {}, {});
    assert NetInit(cfg, net);
    assert LeadsTo(cfg, [net], [], net);
  }
}
