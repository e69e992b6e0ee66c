/**
 A network of agreement nodes. Honest nodes run the state machine of module Node; the other
 voters send whatever they like under their own names. Signatures are ideal: a vote that
 verifies under an honest node's key was cast by that node, a next vote in either of its two steps.
 */
module Network {
  import opened Wrappers
  import opened Tally
  import opened Node
  import opened NodeRuns
  import opened Quorums

  /** A node halted on a value by a certification quorum. */
  datatype Halt = Halt(node: Id, round: int, period: int, value: Value)

  /** The honest nodes that have not crashed, all honest votes cast so far, and all quorum halts so far. */
  datatype Net = Net(nodes: map<Id, NodeState>, hist: set<Vote>, halts: set<Halt>)

  function EnvOf(cfg: Config, i: Id): Env { Env(i, cfg.users, cfg.digest) }

  /** An honest node cast the vote that a message carries; the step of a next vote is not signed and may be either. */
  ghost predicate WasCast(hist: set<Vote>, m: VoteMsg) {
    match m.kind
    case Soft => Vote(m.peer, m.round, m.period, SoftSlot, m.value) in hist
    case Cert => Vote(m.peer, m.round, m.period, CertSlot, m.value) in hist
    case Next => CastNext(hist, m.peer, m.round, m.period, m.value)
    case Other => true
  }

  ghost predicate CastNext(hist: set<Vote>, u: Id, r: int, p: int, v: Value) {
    Vote(u, r, p, Next4Slot, v) in hist || Vote(u, r, p, Next5Slot, v) in hist
  }

  /**
   What the network guarantees of a vote that verifies: it comes from one of the voters, an honest
   voter did cast it, and next votes are delivered at most once per voter and named step.
   */
  ghost predicate Delivered(cfg: Config, hist: set<Vote>, s: NodeState, m: VoteMsg) {
    VerifyVote(s, m) ==>
      && m.peer in cfg.Voters()
      && (m.peer in cfg.honest ==> WasCast(hist, m))
      && (m.kind == Next ==> FirstNext(s, m))
  }

  /** Every threshold that decides something in this event is at least `q`. */
  ghost predicate ThresholdInUse(cfg: Config, s: NodeState, e: Event) {
    match e
    case AgreementTimer(_) =>
      !s.ready && s.isCommittee ==>
        if NextStep(s).step == 2 then Threshold(s.committee) >= cfg.q else s.required >= cfg.q
    case ReceiveVote(m, _) => VerifyVote(s, m) && (m.kind == Cert || m.kind == Next) ==> s.required >= cfg.q
    case _ => true
  }

  function AddHalt(halts: set<Halt>, i: Id, s: NodeState, o: Outcome): set<Halt>
    requires o.Done?
  {
    if o.halt.Some? then halts + {Halt(i, s.round, s.period, o.halt.value)} else halts
  }

  /** One honest node handles one event; every event of the service loop is allowed. */
  ghost predicate FreeStep(cfg: Config, net: Net, net': Net, i: Id, e: Event) {
    && i in net.nodes
    && Enabled(EnvOf(cfg, i), net.nodes[i], e)
    && (e.ReceiveVote? ==> Delivered(cfg, net.hist, net.nodes[i], e.m))
    && var o := Step(EnvOf(cfg, i), net.nodes[i], e);
       match o
       case Crash => net' == net.(nodes := net.nodes - {i})
       case Done(s, cast, _) =>
         net' == Net(net.nodes[i := s], With(net.hist, cast), AddHalt(net.halts, i, net.nodes[i], o))
  }

  /** A step in which every deciding threshold is large enough. */
  ghost predicate NetStep(cfg: Config, net: Net, net': Net, i: Id, e: Event) {
    FreeStep(cfg, net, net', i, e) && ThresholdInUse(cfg, net.nodes[i], e)
  }

  ghost predicate NetInit(cfg: Config, net: Net) {
    && net.nodes.Keys == cfg.honest && net.hist == {} && net.halts == {}
    && forall i :: i in net.nodes ==> exists seed :: net.nodes[i] == Initial(EnvOf(cfg, i), seed)
  }

  // --------------------------------------------------- what tallies testify to

  /** Every recorded honest voter did cast the recorded vote. */
  ghost predicate LogSound(cfg: Config, hist: set<Vote>, r: int, p: int, slot: Slot, log: map<Id, Value>) {
    forall u :: u in log ==>
      u in cfg.Voters() && (u in cfg.honest ==> Vote(u, r, p, slot, log[u]) in hist)
  }

  /** The same for next votes, of which a log may name the other step. */
  ghost predicate NextLogSound(cfg: Config, hist: set<Vote>, r: int, p: int, log: map<Id, Value>) {
    forall u :: u in log ==> u in cfg.Voters() && (u in cfg.honest ==> CastNext(hist, u, r, p, log[u]))
  }

  ghost predicate PeriodSound(cfg: Config, hist: set<Vote>, r: int, p: int, ps: PeriodState) {
    && Accounts(ps.soft, ps.haveSoft) && LogSound(cfg, hist, r, p, SoftSlot, ps.haveSoft)
    && Accounts(ps.cert, ps.haveCert) && LogSound(cfg, hist, r, p, CertSlot, ps.haveCert)
    && AccountsTwice(ps.next, ps.have4, ps.have5)
    && NextLogSound(cfg, hist, r, p, ps.have4) && NextLogSound(cfg, hist, r, p, ps.have5)
  }

  /** The starting value of a period comes from the quorum that closed the previous one. */
  ghost predicate StartSound(cfg: Config, hist: set<Vote>, s: NodeState) {
    && (s.period == 1 ==> s.cur.starting == BOTTOM)
    && (s.period > 1 ==>
          || NextQuorum(cfg, hist, s.round, s.period - 1, s.cur.starting)
          || (s.cur.starting == "" && NextQuorum(cfg, hist, s.round, s.period - 1, BOTTOM)))
  }

  ghost predicate NodeSound(cfg: Config, hist: set<Vote>, s: NodeState) {
    && PeriodSound(cfg, hist, s.round, s.period, s.cur)
    && (s.period > 1 ==> PeriodSound(cfg, hist, s.round, s.period - 1, s.last))
    && StartSound(cfg, hist, s)
  }

  /** Backers recorded in a sound log are honest supporters or faulty. */
  lemma BackersSupport(cfg: Config, hist: set<Vote>, r: int, p: int, slot: Slot, log: map<Id, Value>, v: Value)
    requires cfg.Valid() && LogSound(cfg, hist, r, p, slot, log)
    ensures |Backers(log, v)| <= |Supporters(cfg, hist, r, p, slot, v)| + cfg.F()
  {
    var a := Supporters(cfg, hist, r, p, slot, v);
    assert Backers(log, v) <= a + cfg.faulty;
    SubsetSize(Backers(log, v), a + cfg.faulty);
  }

  lemma CountIsQuorum(cfg: Config, hist: set<Vote>, r: int, p: int, slot: Slot, t: Counter, log: map<Id, Value>, v: Value)
    requires cfg.Valid() && Accounts(t, log) && LogSound(cfg, hist, r, p, slot, log) && Get(t, v) >= cfg.q
    ensures QuorumFor(cfg, hist, r, p, slot, v)
  {
    BackersSupport(cfg, hist, r, p, slot, log, v);
  }

  lemma NextBackersSupport(cfg: Config, hist: set<Vote>, r: int, p: int, log: map<Id, Value>, v: Value)
    requires cfg.Valid() && NextLogSound(cfg, hist, r, p, log)
    ensures |Backers(log, v)| <= |NextSupporters(cfg, hist, r, p, v)| + cfg.F()
  {
    var a := NextSupporters(cfg, hist, r, p, v);
    assert Backers(log, v) <= a + cfg.faulty;
    SubsetSize(Backers(log, v), a + cfg.faulty);
  }

  lemma NextCountIsQuorum(cfg: Config, hist: set<Vote>, r: int, p: int, ps: PeriodState, v: Value)
    requires cfg.Valid() && PeriodSound(cfg, hist, r, p, ps) && Get(ps.next, v) >= cfg.q
    ensures NextQuorum(cfg, hist, r, p, v)
  {
    NextBackersSupport(cfg, hist, r, p, ps.have4, v);
    NextBackersSupport(cfg, hist, r, p, ps.have5, v);
  }

  // ------------------------------------------------------------- history grows

  lemma SupportersGrow(cfg: Config, hist: set<Vote>, hist': set<Vote>, r: int, p: int, slot: Slot, v: Value)
    requires hist <= hist'
    ensures |Supporters(cfg, hist, r, p, slot, v)| <= |Supporters(cfg, hist', r, p, slot, v)|
  {
    SubsetSize(Supporters(cfg, hist, r, p, slot, v), Supporters(cfg, hist', r, p, slot, v));
  }

  lemma QuorumsGrow(cfg: Config, hist: set<Vote>, hist': set<Vote>)
    requires hist <= hist'
    ensures forall r, p, slot, v :: QuorumFor(cfg, hist, r, p, slot, v) ==> QuorumFor(cfg, hist', r, p, slot, v)
    ensures forall r, p, v :: NextQuorum(cfg, hist, r, p, v) ==> NextQuorum(cfg, hist', r, p, v)
  {
    forall r, p, slot, v
      ensures |Supporters(cfg, hist, r, p, slot, v)| <= |Supporters(cfg, hist', r, p, slot, v)|
    {
      SupportersGrow(cfg, hist, hist', r, p, slot, v);
    }
    forall r, p, v
      ensures |NextSupporters(cfg, hist, r, p, v)| <= |NextSupporters(cfg, hist', r, p, v)|
    {
      SubsetSize(NextSupporters(cfg, hist, r, p, v), NextSupporters(cfg, hist', r, p, v));
    }
  }

  lemma JustifiedGrows(cfg: Config, hist: set<Vote>, hist': set<Vote>, v: Vote)
    requires hist <= hist' && Justified(cfg, hist, v)
    ensures Justified(cfg, hist', v)
  {
    QuorumsGrow(cfg, hist, hist');
  }

  lemma SoundGrows(cfg: Config, hist: set<Vote>, hist': set<Vote>, s: NodeState)
    requires hist <= hist' && NodeSound(cfg, hist, s)
    ensures NodeSound(cfg, hist', s)
  {
    QuorumsGrow(cfg, hist, hist');
  }

  /** A justified vote in an unused slot, consistent with its caster's other votes, keeps the history lawful. */
  lemma AddVote(cfg: Config, hist: set<Vote>, v: Vote)
    requires Lawful(cfg, hist) && v.voter in cfg.honest && v.period >= 1
    requires Justified(cfg, hist, v) && FirstOfItsSlot(hist, v)
    requires forall w :: w in hist ==> Consistent(w, v) && Consistent(v, w)
    ensures Lawful(cfg, hist + {v})
  {
    var hist' := hist + {v};
    forall w | w in hist'
      ensures w.voter in cfg.honest && w.period >= 1 && Justified(cfg, hist', w)
    {
      JustifiedGrows(cfg, hist, hist', w);
    }
    assert Consistent(v, v);
  }

  // ------------------------------------------------------ one event at one node

  /** What one event at an honest node owes the rest of the network. */
  ghost predicate Owes(cfg: Config, hist: set<Vote>, s: NodeState, o: Outcome) {
    o.Done? ==>
      && NodeSound(cfg, With(hist, o.cast), o.s)
      && (o.cast.Some? ==>
            Justified(cfg, hist, o.cast.value) && forall w :: w in hist ==> Consistent(w, o.cast.value) && Consistent(o.cast.value, w))
      && (o.halt.Some? ==> QuorumFor(cfg, With(hist, o.cast), s.round, s.period, CertSlot, o.halt.value))
  }

  lemma FreshPeriodSound(cfg: Config, hist: set<Vote>, r: int, p: int, ps: PeriodState, q: int)
    requires ps == InitPeriod(q).(starting := ps.starting)
    ensures PeriodSound(cfg, hist, r, p, ps)
  {
  }

  lemma HaltCheckOwes(cfg: Config, hist: set<Vote>, s: NodeState, t: NodeState, c: Option<Vote>, m: Scan)
    requires cfg.Valid() && Owes(cfg, hist, s, Done(t, c, None))
    requires SamePeriod(s, t) && IsMax(t.cur.cert, m) && t.required >= cfg.q
    ensures Owes(cfg, hist, s, HaltCheck(t, c, m))
  {
    hide Justified, Consistent, NextQuorum, QuorumFor, With;
    var v := Decided(m, t.required);
    if v != "" {
      CountIsQuorum(cfg, With(hist, c), t.round, t.period, CertSlot, t.cur.cert, t.cur.haveCert, v);
      var u := HandleHalt(t, BlockFor(t, v), v);
      FreshPeriodSound(cfg, With(hist, c), u.round, 1, u.cur, 1);
    }
  }

  lemma NextCheckOwes(cfg: Config, hist: set<Vote>, s: NodeState, t: NodeState, c: Option<Vote>, m: Scan)
    requires cfg.Valid() && Owes(cfg, hist, s, Done(t, c, None)) && t.period >= 1
    requires IsMax(t.cur.next, m) && t.required >= cfg.q
    ensures Owes(cfg, hist, s, NextCheck(t, c, m))
  {
    hide Justified, Consistent, NextQuorum, QuorumFor, PeriodSound, With;
    var v := Decided(m, t.required);
    if v != "" {
      NextCountIsQuorum(cfg, With(hist, c), t.round, t.period, t.cur, v);
      var u := HandleNextPeriod(t, v);
      FreshPeriodSound(cfg, With(hist, c), u.round, u.period, u.cur, u.period);
    }
  }

  /** Casting adds one own backer to the tally and the matching vote to the history. */
  lemma CastSound(cfg: Config, hist: set<Vote>, me: Id, s: NodeState, t: NodeState, v: Vote)
    requires NodeSound(cfg, hist, s) && AfterCast(me, s, t, v) && me in cfg.honest
    ensures NodeSound(cfg, hist + {v}, t)
  {
    hide NextQuorum, Accounts, AccountsTwice;
    var hist' := hist + {v};
    SoundGrows(cfg, hist, hist', s);
    match v.slot
    case SoftSlot => AccountsBump(s.cur.soft, s.cur.haveSoft, me, v.value);
    case CertSlot => AccountsBump(s.cur.cert, s.cur.haveCert, me, v.value);
    case Next4Slot => AccountsTwiceBump4(s.cur.next, s.cur.have4, s.cur.have5, me, v.value);
    case Next5Slot => AccountsTwiceBump5(s.cur.next, s.cur.have4, s.cur.have5, me, v.value);
  }

  /** Votes that are neither cert nor next, and next votes of a node that has not certified, are consistent. */
  lemma ConsistentCast(cfg: Config, hist: set<Vote>, me: Id, s: NodeState, t: NodeState, v: Vote)
    requires Lawful(cfg, hist) && Remembers(me, s, hist) && AfterCast(me, s, t, v)
    requires v.slot == Next4Slot && s.cur.myCert != "" ==> v.value == s.cur.myCert
    requires v.slot == Next5Slot && s.cur.myCert != "" ==> v.value != BOTTOM
    ensures forall w :: w in hist ==> Consistent(w, v) && Consistent(v, w)
  {
  }

  /** What the scan of the closed period's next votes proves, if it meets a threshold of at least `q`. */
  lemma LastScanQuorum(cfg: Config, hist: set<Vote>, s: NodeState, m: Scan, required: nat)
    requires cfg.Valid() && NodeSound(cfg, hist, s) && s.period > 1 && IsMax(s.last.next, m)
    requires m.votes >= required >= cfg.q && m.value != ""
    ensures NextQuorum(cfg, hist, s.round, s.period - 1, m.value)
  {
    NextCountIsQuorum(cfg, hist, s.round, s.period - 1, s.last, m.value);
  }

  lemma SoftScanQuorum(cfg: Config, hist: set<Vote>, s: NodeState, m: Scan)
    requires cfg.Valid() && NodeSound(cfg, hist, s) && IsMax(s.cur.soft, m)
    requires m.votes >= s.required >= cfg.q && m.value != ""
    ensures QuorumFor(cfg, hist, s.round, s.period, SoftSlot, m.value)
  {
    CountIsQuorum(cfg, hist, s.round, s.period, SoftSlot, s.cur.soft, s.cur.haveSoft, m.value);
  }

  /** The facts available about an honest node when it handles an event. */
  ghost predicate Honest(cfg: Config, hist: set<Vote>, i: Id, s: NodeState) {
    && cfg.Valid() && i in cfg.honest && Lawful(cfg, hist)
    && NodeInv(i, s, hist) && NodeSound(cfg, hist, s)
  }

  lemma Stays(cfg: Config, hist: set<Vote>, s: NodeState, t: NodeState)
    requires NodeSound(cfg, hist, s) && SameVoting(s, t.(step := s.step, required := s.required))
    ensures Owes(cfg, hist, s, Quiet(t))
  {
  }

  lemma CastOwes(cfg: Config, hist: set<Vote>, me: Id, s: NodeState, t: NodeState, v: Vote)
    requires Honest(cfg, hist, me, s) && AfterCast(me, s, t, v) && Justified(cfg, hist, v)
    requires v.slot == Next4Slot && s.cur.myCert != "" ==> v.value == s.cur.myCert
    requires v.slot == Next5Slot && s.cur.myCert != "" ==> v.value != BOTTOM
    ensures Owes(cfg, hist, s, Done(t, Some(v), None))
  {
    CastSound(cfg, hist, me, s, t, v);
    ConsistentCast(cfg, hist, me, s, t, v);
  }

  lemma CastSoftOwes(cfg: Config, hist: set<Vote>, me: Id, s: NodeState, t: NodeState, v: Value)
    requires Honest(cfg, hist, me, s) && AtStep2(s, t) && me !in s.cur.haveSoft && v != ""
    requires JustifiedSoft(cfg, hist, Vote(me, s.round, s.period, SoftSlot, v))
    ensures Owes(cfg, hist, s, CastSoft(me, t, v))
  {
    CastOwes(cfg, hist, me, s, CastSoft(me, t, v).s, Vote(me, t.round, t.period, SoftSlot, v));
  }

  /** Step 2 follows the previous period's quorum, or the leader when that quorum was for the empty value. */
  lemma Step2Justified(cfg: Config, hist: set<Vote>, me: Id, s: NodeState, last: Scan, required: nat, v: Value)
    requires Honest(cfg, hist, me, s) && IsMax(s.last.next, last) && required >= cfg.q && v != ""
    requires RunStep2(s.period, last, required) == VoteFor(v) || RunStep2(s.period, last, required) == FollowLeader
    ensures JustifiedSoft(cfg, hist, Vote(me, s.round, s.period, SoftSlot, v))
  {
    hide NextQuorum, PeriodSound, Lawful;
    if s.period > 1 {
      LastScanQuorum(cfg, hist, s, last, required);
    }
  }

  lemma Step2Owes(cfg: Config, hist: set<Vote>, env: Env, s: NodeState, t: NodeState, last: Scan, leader: Id)
    requires Honest(cfg, hist, env.me, s) && t == NextStep(s)
    requires t.step == 2 && env.me !in s.cur.haveSoft
    requires IsMax(s.last.next, last) && Threshold(s.committee) >= cfg.q
    ensures Owes(cfg, hist, s, Step2(env, t, last, leader))
  {
    var u := t.(required := Threshold(t.committee));
    match RunStep2(u.cur.period, last, u.required)
    case VoteFor(v) =>
      Stays(cfg, hist, s, u);
      if v != "" {
        Step2Justified(cfg, hist, env.me, s, last, u.required, v);
        CastSoftOwes(cfg, hist, env.me, s, u, v);
      }
    case FollowLeader =>
      Step2LeadOwes(cfg, hist, env, s, u, last, leader);
  }

  lemma Step2LeadOwes(cfg: Config, hist: set<Vote>, env: Env, s: NodeState, u: NodeState, last: Scan, leader: Id)
    requires Honest(cfg, hist, env.me, s) && AtStep2(s, u) && env.me !in s.cur.haveSoft
    requires IsMax(s.last.next, last) && u.required >= cfg.q
    requires RunStep2(s.period, last, u.required) == FollowLeader
    ensures var w := u.(cur := u.cur.(leader := leader));
            && Owes(cfg, hist, s, Quiet(w))
            && (leader in w.cur.idToBlock && w.cur.idToBlock[leader].hash != "" ==>
                  Owes(cfg, hist, s, CastSoft(env.me, w, w.cur.idToBlock[leader].hash)))
  {
    var w := u.(cur := u.cur.(leader := leader));
    Stays(cfg, hist, s, w);
    if leader in w.cur.idToBlock && w.cur.idToBlock[leader].hash != "" {
      Step2Justified(cfg, hist, env.me, s, last, u.required, w.cur.idToBlock[leader].hash);
      CastSoftOwes(cfg, hist, env.me, s, w, w.cur.idToBlock[leader].hash);
    }
  }

  lemma Step3CastOwes(cfg: Config, hist: set<Vote>, env: Env, s: NodeState, t: NodeState, soft: Scan)
    requires Honest(cfg, hist, env.me, s) && t == NextStep(s) && s.required >= cfg.q
    requires t.step == 3 && env.me !in s.cur.haveCert && IsMax(s.cur.soft, soft)
    ensures Owes(cfg, hist, s, Done(Step3Vote(env, t, soft), CastIf(env.me, t, CertSlot, RunStep3(soft, t.required)), None))
  {
    var v := RunStep3(soft, t.required);
    if v == "" {
      Stays(cfg, hist, s, t);
    } else {
      SoftScanQuorum(cfg, hist, s, soft);
      CertIsCast(env.me, s, t, v);
      CastOwes(cfg, hist, env.me, s, WithCert(env.me, t, v), Vote(env.me, s.round, s.period, CertSlot, v));
    }
  }

  lemma Step3Owes(cfg: Config, hist: set<Vote>, env: Env, s: NodeState, t: NodeState, ch: Choices)
    requires Honest(cfg, hist, env.me, s) && t == NextStep(s) && s.required >= cfg.q
    requires t.step == 3 && env.me !in s.cur.haveCert
    requires IsMax(s.cur.soft, ch.soft) && IsMax(Step3Vote(env, t, ch.soft).cur.cert, ch.cert)
    ensures Owes(cfg, hist, s, HaltCheck(Step3Vote(env, t, ch.soft),
                                         CastIf(env.me, t, CertSlot, RunStep3(ch.soft, t.required)), ch.cert))
  {
    hide Lawful, Remembers;
    Step3CastOwes(cfg, hist, env, s, t, ch.soft);
    HaltCheckOwes(cfg, hist, s, Step3Vote(env, t, ch.soft),
                  CastIf(env.me, t, CertSlot, RunStep3(ch.soft, t.required)), ch.cert);
  }

  lemma Step4Justified(cfg: Config, hist: set<Vote>, me: Id, s: NodeState, last: Scan)
    requires Honest(cfg, hist, me, s) && s.required >= cfg.q && IsMax(s.last.next, last)
    ensures JustifiedNext4(cfg, hist, Vote(me, s.round, s.period, Next4Slot, RunStep4(s.cur, last, s.required)))
  {
    hide NextQuorum, PeriodSound, Lawful;
    if s.cur.myCert == "" && s.period >= 2 && last.value == BOTTOM && last.votes >= s.required {
      LastScanQuorum(cfg, hist, s, last, s.required);
    }
  }

  lemma Step4Owes(cfg: Config, hist: set<Vote>, env: Env, s: NodeState, t: NodeState, ch: Choices)
    requires Honest(cfg, hist, env.me, s) && t == NextStep(s) && s.required >= cfg.q
    requires t.step == 4 && env.me !in s.cur.have4
    requires IsMax(s.last.next, ch.last) && IsMax(Step4Vote(env, t, ch.last).cur.next, ch.next)
    ensures Owes(cfg, hist, s, NextCheck(Step4Vote(env, t, ch.last),
                                         Some(Vote(env.me, t.round, t.period, Next4Slot, RunStep4(t.cur, ch.last, t.required))),
                                         ch.next))
  {
    hide Lawful, Remembers;
    var v := RunStep4(t.cur, ch.last, t.required);
    Step4Justified(cfg, hist, env.me, s, ch.last);
    Next4IsCast(env.me, s, t, v);
    CastOwes(cfg, hist, env.me, s, WithNext4(env.me, t, v), Vote(env.me, s.round, s.period, Next4Slot, v));
    NextCheckOwes(cfg, hist, s, Step4Vote(env, t, ch.last), Some(Vote(env.me, t.round, t.period, Next4Slot, v)), ch.next);
  }

  lemma Step5Justified(cfg: Config, hist: set<Vote>, me: Id, s: NodeState, soft: Scan, last: Scan)
    requires Honest(cfg, hist, me, s) && s.required >= cfg.q
    requires IsMax(s.cur.soft, soft) && IsMax(s.last.next, last)
    requires RunStep5(s.cur, soft, last, s.required) != ""
    ensures JustifiedNext5(cfg, hist, Vote(me, s.round, s.period, Next5Slot, RunStep5(s.cur, soft, last, s.required)))
    ensures s.cur.myCert != "" ==> RunStep5(s.cur, soft, last, s.required) != BOTTOM
  {
    hide NextQuorum, QuorumFor, PeriodSound, Lawful;
    if soft.value != BOTTOM && soft.votes >= s.required {
      SoftScanQuorum(cfg, hist, s, soft);
    } else {
      LastScanQuorum(cfg, hist, s, last, s.required);
    }
  }

  lemma Step5CastOwes(cfg: Config, hist: set<Vote>, env: Env, s: NodeState, t: NodeState, soft: Scan, last: Scan)
    requires Honest(cfg, hist, env.me, s) && t == NextStep(s) && s.required >= cfg.q
    requires t.step == 5 && env.me !in s.cur.have5
    requires IsMax(s.cur.soft, soft) && IsMax(s.last.next, last)
    ensures Owes(cfg, hist, s, Done(Step5Vote(env, t, soft, last),
                                    CastIf(env.me, t, Next5Slot, RunStep5(t.cur, soft, last, t.required)), None))
  {
    assert t.cur == s.cur && t.required == s.required && t.round == s.round && t.period == s.period;
    var v := RunStep5(s.cur, soft, last, s.required);
    if v == "" {
      Stays(cfg, hist, s, t);
    } else {
      Step5Justified(cfg, hist, env.me, s, soft, last);
      Next5CastOwes(cfg, hist, env.me, s, t, v);
    }
  }

  lemma Next5CastOwes(cfg: Config, hist: set<Vote>, me: Id, s: NodeState, t: NodeState, v: Value)
    requires Honest(cfg, hist, me, s) && t == NextStep(s) && t.step == 5 && me !in s.cur.have5 && v != ""
    requires JustifiedNext5(cfg, hist, Vote(me, s.round, s.period, Next5Slot, v))
    requires s.cur.myCert != "" ==> v != BOTTOM
    ensures Owes(cfg, hist, s, Done(WithNext5(me, t, v), Some(Vote(me, s.round, s.period, Next5Slot, v)), None))
  {
    Next5IsCast(me, s, t, v);
    CastOwes(cfg, hist, me, s, WithNext5(me, t, v), Vote(me, s.round, s.period, Next5Slot, v));
  }

  lemma Step5Owes(cfg: Config, hist: set<Vote>, env: Env, s: NodeState, t: NodeState, ch: Choices)
    requires Honest(cfg, hist, env.me, s) && t == NextStep(s) && s.required >= cfg.q
    requires t.step == 5 && env.me !in s.cur.have5
    requires IsMax(s.cur.soft, ch.soft) && IsMax(s.last.next, ch.last)
    requires IsMax(Step5Vote(env, t, ch.soft, ch.last).cur.next, ch.next)
    ensures Owes(cfg, hist, s, NextCheck(Step5Vote(env, t, ch.soft, ch.last),
                                         CastIf(env.me, t, Next5Slot, RunStep5(t.cur, ch.soft, ch.last, t.required)),
                                         ch.next))
  {
    hide Lawful, Remembers;
    Step5CastOwes(cfg, hist, env, s, t, ch.soft, ch.last);
    NextCheckOwes(cfg, hist, s, Step5Vote(env, t, ch.soft, ch.last),
                  CastIf(env.me, t, Next5Slot, RunStep5(t.cur, ch.soft, ch.last, t.required)), ch.next);
  }

  lemma TimerOwes(cfg: Config, hist: set<Vote>, env: Env, s: NodeState, ch: Choices)
    requires Honest(cfg, hist, env.me, s) && TimerChoices(env, s, ch)
    requires ThresholdInUse(cfg, s, AgreementTimer(ch))
    ensures Owes(cfg, hist, s, OnAgreementTimer(env, s, ch))
  {
    hide Lawful, Remembers, PeriodSound, Step2;
    var t := NextStep(s);
    Stays(cfg, hist, s, s);
    Stays(cfg, hist, s, t);
    Stays(cfg, hist, s, s.(cur := s.cur.(leader := ch.leader)));
    if !s.ready && s.isCommittee {
      if t.step == 2 && env.me !in t.cur.haveSoft {
        Step2Owes(cfg, hist, env, s, t, ch.last, ch.leader);
      } else if t.step == 3 && env.me !in t.cur.haveCert {
        Step3Owes(cfg, hist, env, s, t, ch);
      } else if t.step == 4 && env.me !in t.cur.have4 {
        Step4Owes(cfg, hist, env, s, t, ch);
      } else if t.step == 5 && env.me !in t.cur.have5 {
        Step5Owes(cfg, hist, env, s, t, ch);
      }
    }
  }

  // ------------------------------------------------------------ received votes

  lemma TakeSoftOwes(cfg: Config, hist: set<Vote>, s: NodeState, m: VoteMsg)
    requires NodeSound(cfg, hist, s) && Shape(s) && VerifyVote(s, m) && Delivered(cfg, hist, s, m)
    requires m.kind == Soft && m.peer !in s.cur.haveSoft
    ensures Owes(cfg, hist, s, Quiet(TakeSoft(s, m)))
  {
    AccountsBump(s.cur.soft, s.cur.haveSoft, m.peer, m.value);
  }

  lemma TakeCertOwes(cfg: Config, hist: set<Vote>, s: NodeState, m: VoteMsg)
    requires NodeSound(cfg, hist, s) && Shape(s) && VerifyVote(s, m) && Delivered(cfg, hist, s, m)
    requires m.kind == Cert && m.peer !in s.cur.haveCert
    ensures Owes(cfg, hist, s, Quiet(TakeCert(s, m)))
  {
    AccountsBump(s.cur.cert, s.cur.haveCert, m.peer, m.value);
  }

  lemma NextLogAdd(cfg: Config, hist: set<Vote>, r: int, p: int, log: map<Id, Value>, u: Id, v: Value)
    requires NextLogSound(cfg, hist, r, p, log) && u in cfg.Voters() && (u in cfg.honest ==> CastNext(hist, u, r, p, v))
    ensures NextLogSound(cfg, hist, r, p, log[u := v])
  {
  }

  lemma TakeNextOwes(cfg: Config, hist: set<Vote>, s: NodeState, m: VoteMsg)
    requires NodeSound(cfg, hist, s) && Shape(s) && VerifyVote(s, m) && Delivered(cfg, hist, s, m)
    requires m.kind == Next
    ensures Owes(cfg, hist, s, Quiet(TakeNext(s, m)))
  {
    hide AccountsTwice, Accounts, NextQuorum, NextLogSound, LogSound;
    var t := TakeNext(s, m);
    assert t.last == s.last && t.cur.starting == s.cur.starting;
    NextLogAdd(cfg, hist, m.round, m.period, s.cur.have4, m.peer, m.value);
    NextLogAdd(cfg, hist, m.round, m.period, s.cur.have5, m.peer, m.value);
    assert AccountsTwice(t.cur.next, t.cur.have4, t.cur.have5) by {
      if m.step == 4 {
        AccountsTwiceBump4(s.cur.next, s.cur.have4, s.cur.have5, m.peer, m.value);
      } else {
        AccountsTwiceBump5(s.cur.next, s.cur.have4, s.cur.have5, m.peer, m.value);
      }
    }
    assert PeriodSound(cfg, hist, t.round, t.period, t.cur);
    hide PeriodSound;
    assert StartSound(cfg, hist, t);
  }

  lemma CertOwes(cfg: Config, hist: set<Vote>, s: NodeState, m: VoteMsg, scan: Scan)
    requires cfg.Valid() && NodeSound(cfg, hist, s) && Shape(s) && VerifyVote(s, m) && Delivered(cfg, hist, s, m)
    requires m.kind == Cert && m.peer !in s.cur.haveCert && s.required >= cfg.q
    requires IsMax(TakeCert(s, m).cur.cert, scan)
    ensures Owes(cfg, hist, s, HaltCheck(TakeCert(s, m), None, scan))
  {
    TakeCertOwes(cfg, hist, s, m);
    HaltCheckOwes(cfg, hist, s, TakeCert(s, m), None, scan);
  }

  lemma NextOwes(cfg: Config, hist: set<Vote>, s: NodeState, m: VoteMsg, scan: Scan)
    requires cfg.Valid() && NodeSound(cfg, hist, s) && Shape(s) && VerifyVote(s, m) && Delivered(cfg, hist, s, m)
    requires m.kind == Next && s.required >= cfg.q
    requires IsMax(TakeNext(s, m).cur.next, scan)
    ensures Owes(cfg, hist, s, NextCheck(TakeNext(s, m), None, scan))
  {
    TakeNextOwes(cfg, hist, s, m);
    NextCheckOwes(cfg, hist, s, TakeNext(s, m), None, scan);
  }

  lemma VoteOwes(cfg: Config, hist: set<Vote>, i: Id, s: NodeState, m: VoteMsg, ch: Choices)
    requires Honest(cfg, hist, i, s) && VoteChoices(s, m, ch)
    requires ThresholdInUse(cfg, s, ReceiveVote(m, ch)) && Delivered(cfg, hist, s, m)
    ensures Owes(cfg, hist, s, OnVote(s, m, ch))
  {
    Stays(cfg, hist, s, s);
    if VerifyVote(s, m) {
      match m.kind
      case Soft =>
        if m.peer !in s.cur.haveSoft { TakeSoftOwes(cfg, hist, s, m); }
      case Cert =>
        if m.peer !in s.cur.haveCert { CertOwes(cfg, hist, s, m, ch.cert); }
      case Next =>
        NextOwes(cfg, hist, s, m, ch.next);
      case Other =>
    }
  }

  // ------------------------------------------------------------- other events

  lemma ProposalOwes(cfg: Config, hist: set<Vote>, env: Env, s: NodeState, p: Proposal)
    requires NodeSound(cfg, hist, s)
    ensures Owes(cfg, hist, s, OnProposal(env, s, p))
  {
    Stays(cfg, hist, s, s);
    Stays(cfg, hist, s, s.(buffer := s.buffer + [p]));
    var r := ExecuteProposal(env, s, p);
    if r.Some? {
      ExecuteFrame(env, s, p);
      Stays(cfg, hist, s, r.value);
    }
  }

  lemma RoundTimerOwes(cfg: Config, hist: set<Vote>, env: Env, s: NodeState, e: Event)
    requires NodeSound(cfg, hist, s) && e.RoundTimer?
    ensures Owes(cfg, hist, s, OnRoundTimer(env, s, e))
  {
    var o := OnRoundTimer(env, s, e);
    if o.Done? {
      RoundTimerFrame(env, s, e);
      Stays(cfg, hist, s, o.s);
    }
  }

  /** A node that starts a new round, for whatever reason, starts with sound empty tallies. */
  lemma NewRoundOwes(cfg: Config, hist: set<Vote>, s: NodeState, t: NodeState)
    requires t.period == 1 && t.cur == InitPeriod(1).(starting := BOTTOM)
    ensures Owes(cfg, hist, s, Quiet(t))
  {
  }

  lemma StepOwes(cfg: Config, hist: set<Vote>, i: Id, s: NodeState, e: Event)
    requires Honest(cfg, hist, i, s) && Enabled(EnvOf(cfg, i), s, e) && ThresholdInUse(cfg, s, e)
    requires e.ReceiveVote? ==> Delivered(cfg, hist, s, e.m)
    ensures Owes(cfg, hist, s, Step(EnvOf(cfg, i), s, e))
  {
    hide Lawful, Remembers, PeriodSound, OnAgreementTimer, OnRoundTimer, OnVote, OnProposal, TimerChoices;
    var env := EnvOf(cfg, i);
    match e
    case RoundTimer(_, _, _, _, _, _, _) => RoundTimerOwes(cfg, hist, env, s, e);
    case AgreementTimer(ch) => TimerOwes(cfg, hist, env, s, ch);
    case ReceiveVote(m, ch) => VoteOwes(cfg, hist, i, s, m, ch);
    case ReceiveProposal(p) => ProposalOwes(cfg, hist, env, s, p);
    case AppendTransaction(tx) => Stays(cfg, hist, s, s.(pool := s.pool[tx.id := tx]));
    case AppendBlock(blocks) => Stays(cfg, hist, s, if |blocks| > |s.chain| then s.(chain := blocks) else s);
    case NoticeFinal(peer, v) =>
      Stays(cfg, hist, s, s);
      NewRoundOwes(cfg, hist, s, HandleHalt(s, BlockFor(s, v), v));
    case ChainSync(blocks, seed) =>
      Stays(cfg, hist, s, s);
      if |blocks| > |s.chain| { NewRoundOwes(cfg, hist, s, OnChainSync(s, blocks, seed)); }
  }

  // ------------------------------------------------------------------ all runs

  /** The invariant of the whole network. */
  ghost predicate NetInv(cfg: Config, net: Net) {
    && cfg.Valid() && Lawful(cfg, net.hist)
    && net.nodes.Keys <= cfg.honest
    && (forall i :: i in net.nodes ==> NodeInv(i, net.nodes[i], net.hist) && NodeSound(cfg, net.hist, net.nodes[i]))
    && (forall h :: h in net.halts ==> QuorumFor(cfg, net.hist, h.round, h.period, CertSlot, h.value))
  }

  lemma InitialInv(cfg: Config, net: Net)
    requires cfg.Valid() && NetInit(cfg, net)
    ensures NetInv(cfg, net)
  {
    forall i | i in net.nodes
      ensures NodeInv(i, net.nodes[i], net.hist) && NodeSound(cfg, net.hist, net.nodes[i])
    {
      FreshPeriodSound(cfg, net.hist, 1, 1, net.nodes[i].cur, 1);
    }
  }

  /** Another node's vote changes nothing that a node remembers about its own. */
  lemma OtherNodesKeep(cfg: Config, hist: set<Vote>, c: Option<Vote>, j: Id, s: NodeState)
    requires NodeInv(j, s, hist) && NodeSound(cfg, hist, s)
    requires c.Some? ==> c.value.voter != j
    ensures NodeInv(j, s, With(hist, c)) && NodeSound(cfg, With(hist, c), s)
  {
    SoundGrows(cfg, hist, With(hist, c), s);
  }

  lemma DoneKeepsInv(cfg: Config, net: Net, i: Id, o: Outcome)
    requires NetInv(cfg, net) && i in net.nodes && o.Done?
    requires Kept(i, net.nodes[i], o, net.hist) && Owes(cfg, net.hist, net.nodes[i], o)
    requires o.cast.Some? ==> o.cast.value.voter == i && o.cast.value.period >= 1
    ensures NetInv(cfg, Net(net.nodes[i := o.s], With(net.hist, o.cast), AddHalt(net.halts, i, net.nodes[i], o)))
  {
    hide PeriodSound, StartSound, Shape, QuorumBehind, Advances;
    var net' := Net(net.nodes[i := o.s], With(net.hist, o.cast), AddHalt(net.halts, i, net.nodes[i], o));
    if o.cast.Some? {
      AddVote(cfg, net.hist, o.cast.value);
    }
    forall j | j in net'.nodes
      ensures NodeInv(j, net'.nodes[j], net'.hist) && NodeSound(cfg, net'.hist, net'.nodes[j])
    {
      if j != i { OtherNodesKeep(cfg, net.hist, o.cast, j, net.nodes[j]); }
    }
    QuorumsGrow(cfg, net.hist, net'.hist);
  }

  /** Every network step keeps the invariant. */
  lemma NetStepKeeps(cfg: Config, net: Net, net': Net, i: Id, e: Event)
    requires NetInv(cfg, net) && NetStep(cfg, net, net', i, e)
    ensures NetInv(cfg, net')
  {
    hide Step, Kept, Owes, Delivered, ThresholdInUse, Enabled, Lawful, NodeSound, Remembers, QuorumFor;
    var s := net.nodes[i];
    var o := Step(EnvOf(cfg, i), s, e);
    if o.Done? {
      StepKeeps(EnvOf(cfg, i), s, e, net.hist);
      StepOwes(cfg, net.hist, i, s, e);
      if o.cast.Some? { CastIsOwn(EnvOf(cfg, i), s, e); }
      DoneKeepsInv(cfg, net, i, o);
    }
  }

  /** A run of the network: any interleaving of events at honest nodes. */
  ghost predicate NetRun(cfg: Config, nets: seq<Net>, acts: seq<(Id, Event)>) {
    && |nets| == |acts| + 1 && NetInit(cfg, nets[0])
    && forall k {:trigger acts[k]} :: 0 <= k < |acts| ==> NetStep(cfg, nets[k], nets[k + 1], acts[k].0, acts[k].1)
  }

  lemma {:induction false} NetRunInv(cfg: Config, nets: seq<Net>, acts: seq<(Id, Event)>, k: nat)
    requires cfg.Valid() && NetRun(cfg, nets, acts) && k < |nets|
    ensures NetInv(cfg, nets[k])
  {
    hide NetStep;
    if k == 0 {
      InitialInv(cfg, nets[0]);
    } else {
      NetRunInv(cfg, nets, acts, k - 1);
      NetStepKeeps(cfg, nets[k - 1], nets[k], acts[k - 1].0, acts[k - 1].1);
    }
  }

  /** Agreement in a period: with intersecting quorums, nodes that halt in one period halt on one value. */
  lemma SamePeriodAgreement(cfg: Config, nets: seq<Net>, acts: seq<(Id, Event)>, k: nat, g: Halt, h: Halt)
    requires cfg.Intersecting() && NetRun(cfg, nets, acts) && k < |nets|
    requires g in nets[k].halts && h in nets[k].halts && g.round == h.round && g.period == h.period
    ensures g.value == h.value
  {
    NetRunInv(cfg, nets, acts, k);
    var hist := nets[k].hist;
    var u := QuorumHasHonest(cfg, hist, g.round, g.period, CertSlot, g.value);
    var u' := QuorumHasHonest(cfg, hist, h.round, h.period, CertSlot, h.value);
    CertVotesAgree(cfg, hist, Vote(u, g.round, g.period, CertSlot, g.value), Vote(u', h.round, h.period, CertSlot, h.value));
  }

  /** Agreement in a round: across all periods, every certification halt of a round is on one value. */
  lemma RoundAgreement(cfg: Config, nets: seq<Net>, acts: seq<(Id, Event)>, k: nat, g: Halt, h: Halt)
    requires cfg.Locking() && NetRun(cfg, nets, acts) && k < |nets|
    requires g in nets[k].halts && h in nets[k].halts && g.round == h.round
    ensures g.value == h.value
  {
    NetRunInv(cfg, nets, acts, k);
    CertQuorumsAgree(cfg, nets[k].hist, g.round, g.period, g.value, h.period, h.value);
  }

  // ------------------------------------------------------------ over time

  /** The history and the halts only grow. */
  lemma {:induction false} NetGrows(cfg: Config, nets: seq<Net>, acts: seq<(Id, Event)>, j: nat, k: nat)
    requires NetRun(cfg, nets, acts) && j <= k < |nets|
    ensures nets[j].hist <= nets[k].hist && nets[j].halts <= nets[k].halts
    decreases k - j
  {
    if j < k {
      NetGrows(cfg, nets, acts, j, k - 1);
      assert NetStep(cfg, nets[k - 1], nets[k], acts[k - 1].0, acts[k - 1].1);
      hide Step, Enabled, ThresholdInUse, Delivered;
    }
  }

  /**
   Evidence of a cert quorum for `v` in a period: a node halted on it, or a node's cert tally of that period, current or
   closed, has reached `q`.
   */
  ghost predicate CertEvidence(cfg: Config, net: Net, r: int, p: int, v: Value) {
    || (exists h :: h in net.halts && h.round == r && h.period == p && h.value == v)
    || (exists i :: i in net.nodes && net.nodes[i].round == r && CertTally(net.nodes[i], p, v) >= cfg.q)
  }

  /** Evidence of a next quorum for `w` in a period: a node's next tally of that period, current or closed, has reached `q`. */
  ghost predicate NextEvidence(cfg: Config, net: Net, r: int, p: int, w: Value) {
    exists i :: i in net.nodes && net.nodes[i].round == r && NextTally(net.nodes[i], p, w) >= cfg.q
  }

  /** A node's count in a period that it is in, or has just closed. */
  function CertTally(s: NodeState, p: int, v: Value): nat {
    if s.period == p then Get(s.cur.cert, v) else if s.period == p + 1 && s.period > 1 then Get(s.last.cert, v) else 0
  }

  function NextTally(s: NodeState, p: int, v: Value): nat {
    if s.period == p then Get(s.cur.next, v) else if s.period == p + 1 && s.period > 1 then Get(s.last.next, v) else 0
  }

  /** Evidence rests on votes that were cast. */
  lemma CertEvidenceQuorum(cfg: Config, net: Net, r: int, p: int, v: Value)
    requires NetInv(cfg, net) && CertEvidence(cfg, net, r, p, v) && cfg.q > 0
    ensures QuorumFor(cfg, net.hist, r, p, CertSlot, v)
  {
    hide QuorumFor, Lawful, LogSound, NextLogSound, Accounts;
    if i :| i in net.nodes && net.nodes[i].round == r && CertTally(net.nodes[i], p, v) >= cfg.q {
      var s := net.nodes[i];
      var ps := if s.period == p then s.cur else s.last;
      CountIsQuorum(cfg, net.hist, r, p, CertSlot, ps.cert, ps.haveCert, v);
    }
  }

  lemma NextEvidenceQuorum(cfg: Config, net: Net, r: int, p: int, w: Value)
    requires NetInv(cfg, net) && NextEvidence(cfg, net, r, p, w) && cfg.q > 0
    ensures NextQuorum(cfg, net.hist, r, p, w)
  {
    hide NextQuorum, Lawful, LogSound, NextLogSound, Accounts;
    var i :| i in net.nodes && net.nodes[i].round == r && NextTally(net.nodes[i], p, w) >= cfg.q;
    var s := net.nodes[i];
    NextCountIsQuorum(cfg, net.hist, r, p, if s.period == p then s.cur else s.last, w);
  }

  /** A cert quorum seen at any time is a quorum of the history at every later time. */
  lemma EvidenceStays(cfg: Config, nets: seq<Net>, acts: seq<(Id, Event)>, j: nat, k: nat, r: int, p: int, v: Value)
    requires cfg.Locking() && NetRun(cfg, nets, acts) && j <= k < |nets|
    ensures CertEvidence(cfg, nets[j], r, p, v) ==> QuorumFor(cfg, nets[k].hist, r, p, CertSlot, v)
    ensures NextEvidence(cfg, nets[j], r, p, v) ==> NextQuorum(cfg, nets[k].hist, r, p, v)
  {
    hide NetRun, NetInv, CertEvidence, NextEvidence, QuorumFor, NextQuorum;
    NetRunInv(cfg, nets, acts, j);
    NetGrows(cfg, nets, acts, j, k);
    QuorumsGrow(cfg, nets[j].hist, nets[k].hist);
    if CertEvidence(cfg, nets[j], r, p, v) { CertEvidenceQuorum(cfg, nets[j], r, p, v); }
    if NextEvidence(cfg, nets[j], r, p, v) { NextEvidenceQuorum(cfg, nets[j], r, p, v); }
  }

  /**
   Cross-period lock over a run: whenever there is evidence of a cert quorum for `v` in a period, at that time, earlier or
   later, no node's next tally of that period reaches `q` for another value, though a voter may count in both steps.
   */
  lemma TallyLock(cfg: Config, nets: seq<Net>, acts: seq<(Id, Event)>, j: nat, k: nat, r: int, p: int, v: Value, w: Value)
    requires cfg.Locking() && NetRun(cfg, nets, acts) && j < |nets| && k < |nets|
    requires CertEvidence(cfg, nets[j], r, p, v) && NextEvidence(cfg, nets[k], r, p, w)
    ensures v == w
  {
    hide NetRun, NetInv, CertEvidence, NextEvidence;
    var last := if j <= k then k else j;
    EvidenceStays(cfg, nets, acts, j, last, r, p, v);
    EvidenceStays(cfg, nets, acts, k, last, r, p, w);
    NetRunInv(cfg, nets, acts, last);
    assert Lawful(cfg, nets[last].hist) by { InvLawful(cfg, nets[last]); }
    CrossPeriodLock(cfg, nets[last].hist, r, p, v, w);
  }

  lemma InvLawful(cfg: Config, net: Net)
    requires NetInv(cfg, net)
    ensures Lawful(cfg, net.hist)
  {
  }

  /**
   Round safety over a run: when there is ever evidence of a cert quorum for `v` in a period, every honest soft, cert and
   next vote of every later period of the round, cast before or after, is for `v`.
   */
  lemma RoundSafety(cfg: Config, nets: seq<Net>, acts: seq<(Id, Event)>, j: nat, k: nat, r: int, p: int, v: Value, w: Vote)
    requires cfg.Locking() && NetRun(cfg, nets, acts) && j < |nets| && k < |nets|
    requires CertEvidence(cfg, nets[j], r, p, v)
    requires w in nets[k].hist && w.round == r && w.period > p
    ensures w.value == v
  {
    hide NetRun, NetInv, CertEvidence, QuorumFor;
    var last := if j <= k then k else j;
    EvidenceStays(cfg, nets, acts, j, last, r, p, v);
    NetGrows(cfg, nets, acts, k, last);
    NetRunInv(cfg, nets, acts, last);
    InvLawful(cfg, nets[last]);
    LaterPeriods(cfg, nets[last].hist, r, p, v, w.period);
  }

  /** And every node in a later period of the round, at any time, started it from `v`. */
  lemma StartsFromLocked(cfg: Config, nets: seq<Net>, acts: seq<(Id, Event)>, j: nat, k: nat, r: int, p: int, v: Value, i: Id)
    requires cfg.Locking() && NetRun(cfg, nets, acts) && j < |nets| && k < |nets|
    requires CertEvidence(cfg, nets[j], r, p, v)
    requires i in nets[k].nodes && nets[k].nodes[i].round == r && nets[k].nodes[i].period > p
    ensures nets[k].nodes[i].cur.starting == v
  {
    hide NetRun, CertEvidence, QuorumFor, NextQuorum, PeriodSound, Lawful;
    var last := if j <= k then k else j;
    EvidenceStays(cfg, nets, acts, j, last, r, p, v);
    NetRunInv(cfg, nets, acts, k);
    NetRunInv(cfg, nets, acts, last);
    NetGrows(cfg, nets, acts, k, last);
    QuorumsGrow(cfg, nets[k].hist, nets[last].hist);
    OnlyLocked(cfg, nets[last].hist, r, p, v, nets[k].nodes[i].period - 1);
  }

  /** After a cert quorum only its value can close the period or a later one. */
  lemma OnlyLocked(cfg: Config, hist: set<Vote>, r: int, p: int, v: Value, p': int)
    requires cfg.Locking() && Lawful(cfg, hist) && QuorumFor(cfg, hist, r, p, CertSlot, v) && p <= p'
    ensures OnlyNext(cfg, hist, r, p', v) && v != BOTTOM && v != "" && p >= 1
  {
    hide Lawful, QuorumFor, NextQuorum;
    LockingIntersects(cfg);
    CertifiedValue(cfg, hist, r, p, v);
    if p == p' {
      forall w | NextQuorum(cfg, hist, r, p, w)
        ensures w == v
      {
        CrossPeriodLock(cfg, hist, r, p, v, w);
      }
    } else {
      LaterPeriods(cfg, hist, r, p, v, p');
      PeriodCloses(cfg, hist, r, p', v);
    }
  }
}
