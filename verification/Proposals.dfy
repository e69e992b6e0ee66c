/**
 Proposals over whole runs of a node, told from the events alone: which ones are entered, what a halt takes from them, whose
 transactions they carry, and who may vote.
 */
module Proposals {
  import opened Wrappers
  import opened Tally
  import opened Node
  import opened NodeRuns
  import opened Ledger
  import opened Duties

  // ------------------------------------------------------------------ what is entered

  /** A proposal as it is entered: the value it is for, the next seed it brings, and its block. */
  datatype Entry = Entry(value: Value, nextSeed: string, block: Block)

  /** The proposal is the first of its proposer in the period, signed, and about the node's round, period, seed, tip and pool. */
  predicate Acceptable(env: Env, s: NodeState, seen: set<Id>, p: Proposal) {
    && p.proposer !in seen && p.sigOk && p.round == s.round && p.period == s.period && p.seed == s.seed
    && p.credence == (if p.proposer in env.users then 1 else 0)
    && HasTip(s) && p.hashOfLast == Tip(s).hash
    && p.value == env.digest(p.block.id, p.block.timestamp, Contents(p.block.txs), p.block.prevHash)
    && forall i :: 0 <= i < |p.block.txs| ==> p.block.txs[i].id in s.pool
  }

  /** The entries of the acceptable ones among buffered proposals, in order. */
  function Admitted(env: Env, s: NodeState, seen: set<Id>, ps: seq<Proposal>): seq<Entry>
    decreases |ps|
  {
    if ps == [] then []
    else if Acceptable(env, s, seen, ps[0]) then
      [Entry(ps[0].value, ps[0].nextSeed, ps[0].block)] + Admitted(env, s, seen + {ps[0].proposer}, ps[1..])
    else Admitted(env, s, seen, ps[1..])
  }

  /** What an event that leads from `s` to `t` enters: a received proposal, or the buffered ones and then the node's own. */
  function Entered(env: Env, s: NodeState, e: Event, t: NodeState): seq<Entry> {
    match e
    case ReceiveProposal(p) =>
      if Acceptable(env, s, s.cur.idToBlock.Keys, p) then [Entry(p.value, p.nextSeed, p.block)] else []
    case RoundTimer(_, _, _, _, potentialLeader, _, nextSeed) =>
      if !s.ready then []
      else
        Admitted(env, s, s.cur.idToBlock.Keys, s.buffer)
        + if potentialLeader && env.me in t.cur.idToBlock then
            (var b := t.cur.idToBlock[env.me]; [Entry(env.digest(b.id, b.timestamp, Contents(b.txs), b.prevHash), nextSeed, b)])
          else []
    case _ => []
  }

  /** All that was entered in the period that the run is in after `k` events. */
  function EnteredBy(env: Env, run: Run, k: nat): seq<Entry>
    requires k < |run.ss| && |run.ss| == |run.es| + 1
  {
    if k == 0 || !SamePeriod(run.ss[k - 1], run.ss[k]) then []
    else EnteredBy(env, run, k - 1) + Entered(env, run.ss[k - 1], run.es[k - 1], run.ss[k])
  }

  /** The last entry for a value. */
  function LastFor(es: seq<Entry>, v: Value): Option<Entry> {
    if es == [] then None else if es[|es| - 1].value == v then Some(es[|es| - 1]) else LastFor(es[..|es| - 1], v)
  }

  lemma {:induction false} LastForAppend(a: seq<Entry>, b: seq<Entry>, v: Value)
    ensures LastFor(a + b, v) == if LastFor(b, v).Some? then LastFor(b, v) else LastFor(a, v)
    decreases |b|
  {
    if b == [] {
      assert a + b == a;
    } else {
      assert (a + b)[..|a + b| - 1] == a + b[..|b| - 1];
      LastForAppend(a, b[..|b| - 1], v);
    }
  }

  /** The indexes hold, for the value, the last of the entries. */
  predicate Holds(cur: PeriodState, es: seq<Entry>, v: Value) {
    match LastFor(es, v)
    case None => v !in cur.valueToSeed && v !in cur.valueToBlock
    case Some(e) => v in cur.valueToSeed && v in cur.valueToBlock && cur.valueToSeed[v] == e.nextSeed && cur.valueToBlock[v] == e.block
  }

  ghost predicate HoldsAll(cur: PeriodState, es: seq<Entry>) { forall v :: Holds(cur, es, v) }

  // ------------------------------------------------------------------ the indexes hold the entries

  lemma EnterOne(cur: PeriodState, t: PeriodState, es: seq<Entry>, e: Entry)
    requires HoldsAll(cur, es)
    requires t.valueToSeed == cur.valueToSeed[e.value := e.nextSeed] && t.valueToBlock == cur.valueToBlock[e.value := e.block]
    ensures HoldsAll(t, es + [e])
  {
    forall v
      ensures Holds(t, es + [e], v)
    {
      assert Holds(cur, es, v);
      assert (es + [e])[..|es|] == es;
    }
  }

  /** Executing a proposal enters it exactly when it is acceptable. */
  lemma ExecutedIff(env: Env, s: NodeState, p: Proposal)
    requires ExecuteProposal(env, s, p).Some?
    ensures ExecuteProposal(env, s, p).value == if Acceptable(env, s, s.cur.idToBlock.Keys, p) then AddProposal(s, p) else s
  {
  }

  /** The pool, the tip and the position, which acceptance depends on. */
  predicate SameBasis(s: NodeState, t: NodeState) {
    t.round == s.round && t.period == s.period && t.seed == s.seed && t.chain == s.chain && t.pool == s.pool
  }

  lemma {:induction false} AdmittedSame(env: Env, s: NodeState, t: NodeState, seen: set<Id>, ps: seq<Proposal>)
    requires SameBasis(s, t)
    ensures Admitted(env, s, seen, ps) == Admitted(env, t, seen, ps)
    decreases |ps|
  {
    if ps != [] {
      assert Acceptable(env, s, seen, ps[0]) == Acceptable(env, t, seen, ps[0]);
      AdmittedSame(env, s, t, seen, ps[1..]);
      AdmittedSame(env, s, t, seen + {ps[0].proposer}, ps[1..]);
    }
  }

  lemma {:induction false} ExecuteAllEnters(env: Env, s: NodeState, ps: seq<Proposal>, es: seq<Entry>)
    requires ExecuteAll(env, s, ps).Some? && HoldsAll(s.cur, es)
    ensures var t := ExecuteAll(env, s, ps).value;
            SameBasis(s, t) && HoldsAll(t.cur, es + Admitted(env, s, s.cur.idToBlock.Keys, ps)) && t.isCommittee == s.isCommittee
    decreases |ps|
  {
    hide HoldsAll, Acceptable, ExecuteProposal;
    if ps == [] {
      assert es + [] == es;
    } else {
      var p := ps[0];
      var t := ExecuteProposal(env, s, p).value;
      ExecutedIff(env, s, p);
      if Acceptable(env, s, s.cur.idToBlock.Keys, p) {
        var e := Entry(p.value, p.nextSeed, p.block);
        EnterOne(s.cur, t.cur, es, e);
        ExecuteAllEnters(env, t, ps[1..], es + [e]);
        AdmittedSame(env, s, t, t.cur.idToBlock.Keys, ps[1..]);
        assert t.cur.idToBlock.Keys == s.cur.idToBlock.Keys + {p.proposer};
        assert es + [e] + Admitted(env, s, t.cur.idToBlock.Keys, ps[1..]) == es + ([e] + Admitted(env, s, t.cur.idToBlock.Keys, ps[1..]));
      } else {
        ExecuteAllEnters(env, s, ps[1..], es);
      }
    }
  }

  lemma OwnEnters(env: Env, s: NodeState, b: Block, sig: string, nextSeed: string, es: seq<Entry>)
    requires HoldsAll(s.cur, es)
    ensures HoldsAll(AddOwnProposal(env, s, b, sig, nextSeed).cur, es + [Entry(HashOf(env, b), nextSeed, b)])
  {
    hide HoldsAll;
    EnterOne(s.cur, AddOwnProposal(env, s, b, sig, nextSeed).cur, es, Entry(HashOf(env, b), nextSeed, b));
  }

  lemma TimerEnters(env: Env, s: NodeState, e: Event, es: seq<Entry>)
    requires e.RoundTimer? && OnRoundTimer(env, s, e).Done? && HoldsAll(s.cur, es)
    ensures var t := OnRoundTimer(env, s, e).s;
            SamePeriod(s, t) && HoldsAll(t.cur, es + Entered(env, s, e, t)) && t.seed == s.seed && t.chain == s.chain
    ensures OnRoundTimer(env, s, e).halt == None
  {
    hide HoldsAll, Admitted, RunStep1;
    if s.ready {
      ExecuteAllEnters(env, s, s.buffer, es);
      var admitted := Admitted(env, s, s.cur.idToBlock.Keys, s.buffer);
      var r := ExecuteAll(env, s, s.buffer).value.(buffer := [], ready := false);
      var v := RunStep1(r.period, e.ch.last, r.required);
      var b := if v == "" then PreparedBlock(env, Tip(r), e.txs, e.timestamp) else r.last.valueToBlock[v];
      var u := if v == "" then r.(pool := Unspent(r.pool, Tip(r))) else r;
      hide ExecuteAll;
      if e.potentialLeader {
        OwnEnters(env, u, b, e.sig, e.nextSeed, es + admitted);
        assert es + admitted + [Entry(HashOf(env, b), e.nextSeed, b)] == es + (admitted + [Entry(HashOf(env, b), e.nextSeed, b)]);
      } else {
        assert es + (admitted + []) == es + admitted;
      }
    } else {
      assert es + [] == es;
    }
  }

  lemma FreshHolds(cur: PeriodState)
    requires cur.valueToSeed == map[] && cur.valueToBlock == map[]
    ensures HoldsAll(cur, [])
  {
  }

  lemma SameHolds(cur: PeriodState, t: PeriodState, es: seq<Entry>)
    requires HoldsAll(cur, es) && t.valueToSeed == cur.valueToSeed && t.valueToBlock == cur.valueToBlock
    ensures HoldsAll(t, es)
  {
    forall v
      ensures Holds(t, es, v)
    {
      assert Holds(cur, es, v);
    }
  }

  lemma VotingHolds(s: NodeState, o: Outcome, es: seq<Entry>)
    requires VotingOutcome(s, o) && o.Done? && HoldsAll(s.cur, es)
    ensures HoldsAll(o.s.cur, if SamePeriod(s, o.s) then es else [])
  {
    hide HoldsAll;
    if SamePeriod(s, o.s) { SameHolds(s.cur, o.s.cur, es); } else { FreshHolds(o.s.cur); }
  }

  /** Every event enters what it should and nothing else; a new round or period starts with nothing. */
  lemma StepHolds(env: Env, s: NodeState, e: Event, t: NodeState, c: Option<Vote>, es: seq<Entry>)
    requires Shape(s) && Leads(env, s, e, t, c) && HoldsAll(s.cur, es)
    ensures HoldsAll(t.cur, if SamePeriod(s, t) then es + Entered(env, s, e, t) else [])
  {
    hide HoldsAll, Acceptable, Admitted, OnAgreementTimer, OnVote, OnRoundTimer, VotingOutcome, Enabled;
    assert es + [] == es;
    match e
    case RoundTimer(_, _, _, _, _, _, _) => TimerEnters(env, s, e, es);
    case AgreementTimer(ch) => TimerOutcome(env, s, ch); VotingHolds(s, OnAgreementTimer(env, s, ch), es);
    case ReceiveVote(m, ch) => VoteOutcome(s, m, ch); VotingHolds(s, OnVote(s, m, ch), es);
    case ReceiveProposal(p) => ReceivedHolds(env, s, p, es);
    case NoticeFinal(peer, v) => if peer == s.cur.leader { FreshHolds(t.cur); }
    case ChainSync(blocks, seed) => if |blocks| > |s.chain| { FreshHolds(t.cur); }
    case _ =>
  }

  lemma ReceivedHolds(env: Env, s: NodeState, p: Proposal, es: seq<Entry>)
    requires OnProposal(env, s, p).Done? && HoldsAll(s.cur, es)
    ensures var t := OnProposal(env, s, p).s;
            SamePeriod(s, t) && HoldsAll(t.cur, es + Entered(env, s, ReceiveProposal(p), t))
  {
    hide HoldsAll, ExecuteProposal;
    assert es + [] == es;
    if p.round <= s.round && p.period != s.period + 1 {
      ExecutedIff(env, s, p);
      if Acceptable(env, s, s.cur.idToBlock.Keys, p) {
        EnterOne(s.cur, AddProposal(s, p).cur, es, Entry(p.value, p.nextSeed, p.block));
      }
    }
  }

  /** In every state of every run the indexes hold exactly what was entered in the period. */
  lemma {:induction false} HeldOnRuns(env: Env, seed: string, run: Run, k: nat)
    requires IsRun(env, seed, run) && k <= |run.es|
    ensures HoldsAll(run.ss[k].cur, EnteredBy(env, run, k))
  {
    hide Leads, HoldsAll, Entered;
    if k == 0 {
      FreshHolds(run.ss[0].cur);
    } else {
      HeldOnRuns(env, seed, run, k - 1);
      RunStep(env, seed, run, k - 1);
      StepHolds(env, run.ss[k - 1], run.es[k - 1], run.ss[k], run.cs[k - 1], EnteredBy(env, run, k - 1));
    }
  }

  // ------------------------------------------------------------------ what a halt takes from them

  /** The event halts the node: by a cert quorum or by the leader's notice. */
  predicate Halts(env: Env, s: NodeState, e: Event, v: Value) {
    Step(env, s, e).Done? && (Step(env, s, e).halt == Some(v) || (e.NoticeFinal? && e.peer == s.cur.leader && e.value == v))
  }

  /** The seed and the block that a halt leaves. */
  lemma HaltLeaves(env: Env, s: NodeState, e: Event, v: Value)
    requires Shape(s) && Halts(env, s, e, v)
    ensures var t := Step(env, s, e).s;
            && t.seed == (if v in s.cur.valueToSeed then s.cur.valueToSeed[v] else "")
            && t.chain == s.chain + [if v in s.cur.valueToBlock then Some(s.cur.valueToBlock[v]) else None]
  {
    hide OnAgreementTimer, OnVote, OnRoundTimer;
    match e
    case RoundTimer(_, _, _, _, _, _, _) => NoHaltHere(env, s, e);
    case AgreementTimer(ch) => TimerOutcome(env, s, ch);
    case ReceiveVote(m, ch) => VoteOutcome(s, m, ch);
    case _ =>
  }

  lemma NoHaltHere(env: Env, s: NodeState, e: Event)
    requires e.RoundTimer? && OnRoundTimer(env, s, e).Done?
    ensures OnRoundTimer(env, s, e).halt == None
  {
  }

  /**
   A halt on a value takes the seed and the block of the last proposal for it that was entered in the period, received or
   own: the next round's seed is that proposal's next seed. Without such a proposal the seed is empty and the block nil.
   */
  lemma HaltTakesProposal(env: Env, seed: string, run: Run, k: nat, v: Value)
    requires IsRun(env, seed, run) && k < |run.es| && Halts(env, run.ss[k], run.es[k], v)
    ensures run.ss[k + 1].round == run.ss[k].round + 1
    ensures var last := LastFor(EnteredBy(env, run, k), v);
            && run.ss[k + 1].seed == (if last.Some? then last.value.nextSeed else "")
            && run.ss[k + 1].chain == run.ss[k].chain + [if last.Some? then Some(last.value.block) else None]
  {
    hide Step, Shape, EnteredBy;
    HeldOnRuns(env, seed, run, k);
    RunStep(env, seed, run, k);
    assert Holds(run.ss[k].cur, EnteredBy(env, run, k), v);
    HaltLeaves(env, run.ss[k], run.es[k], v);
    HaltRound(env, run.ss[k], run.es[k], v);
  }

  lemma HaltRound(env: Env, s: NodeState, e: Event, v: Value)
    requires Halts(env, s, e, v)
    ensures Step(env, s, e).s.round == s.round + 1
  {
  }

  /** The event ends the round. */
  predicate Ends(env: Env, s: NodeState, e: Event) {
    Step(env, s, e).Done? && (Step(env, s, e).halt.Some? || (e.NoticeFinal? && e.peer == s.cur.leader))
  }

  /** Nothing else changes the seed but an adopted chain, which brings its own. */
  lemma SeedStays(env: Env, s: NodeState, e: Event)
    requires Shape(s) && Step(env, s, e).Done? && !Ends(env, s, e)
    ensures Step(env, s, e).s.seed == if e.ChainSync? && |e.blocks| > |s.chain| then e.seed else s.seed
  {
    hide OnAgreementTimer, OnVote, OnRoundTimer;
    match e
    case RoundTimer(_, _, _, _, _, _, _) => TimerSeed(env, s, e);
    case AgreementTimer(ch) => TimerOutcome(env, s, ch);
    case ReceiveVote(m, ch) => VoteOutcome(s, m, ch);
    case _ =>
  }

  lemma TimerSeed(env: Env, s: NodeState, e: Event)
    requires e.RoundTimer? && OnRoundTimer(env, s, e).Done?
    ensures OnRoundTimer(env, s, e).s.seed == s.seed
  {
    if s.ready { ExecuteAllSeed(env, s, s.buffer); }
  }

  lemma {:induction false} ExecuteAllSeed(env: Env, s: NodeState, ps: seq<Proposal>)
    requires ExecuteAll(env, s, ps).Some?
    ensures ExecuteAll(env, s, ps).value.seed == s.seed
    decreases |ps|
  {
    if ps != [] { ExecuteAllSeed(env, ExecuteProposal(env, s, ps[0]).value, ps[1..]); }
  }

  // ------------------------------------------------------------------ the node's own proposal

  /** The state that the round timer leaves, by parts. */
  lemma TimerParts(env: Env, s: NodeState, e: Event)
    requires e.RoundTimer? && s.ready && OnRoundTimer(env, s, e).Done?
    ensures var t := OnRoundTimer(env, s, e).s;
            && HasTip(s) && !t.ready && t.buffer == [] && t.last == s.last && t.chain == s.chain
            && t.isCommittee == (s.isCommittee || e.potentialLeader) && (e.potentialLeader ==> env.me in t.cur.idToBlock)
    ensures var t := OnRoundTimer(env, s, e).s;
            var v := RunStep1(s.period, e.ch.last, s.required);
            && v != "err" && (v != "" ==> v in s.last.valueToBlock)
            && t.pool == (if v == "" then Unspent(s.pool, Tip(s)) else s.pool)
            && (e.potentialLeader ==>
                  t.cur.idToBlock[env.me] == if v == "" then PreparedBlock(env, Tip(s), e.txs, e.timestamp) else s.last.valueToBlock[v])
  {
    hide RunStep1, PreparedBlock, Unspent;
    ExecuteAllFrame(env, s, s.buffer);
    ExecuteAllSeat(env, s, s.buffer);
  }

  lemma {:induction false} ExecuteAllSeat(env: Env, s: NodeState, ps: seq<Proposal>)
    requires ExecuteAll(env, s, ps).Some?
    ensures ExecuteAll(env, s, ps).value.isCommittee == s.isCommittee
    decreases |ps|
  {
    if ps != [] { ExecuteAllSeat(env, ExecuteProposal(env, s, ps[0]).value, ps[1..]); }
  }

  /**
   Step 1: the block that closed the last period is proposed again; in the first period, or when that was closed with the
   empty value, a new block on the tip is, with the chosen transactions. A value without its block, or the string "err",
   is a panic.
   */
  lemma ProposalDue(env: Env, s: NodeState, e: Event, v: Value)
    requires Shape(s) && e.RoundTimer? && s.ready && Enabled(env, s, e)
    ensures var o := Step(env, s, e);
            && (s.period > 1 && Wins(s.last.next, s.required, v) && v != "" && v != "_|_" ==>
                  && (v == "err" || v !in s.last.valueToBlock ==> o.Crash?)
                  && (o.Done? && e.potentialLeader ==>
                        env.me in o.s.cur.idToBlock && v in s.last.valueToBlock && o.s.cur.idToBlock[env.me] == s.last.valueToBlock[v]))
            && (o.Done? && e.potentialLeader && (s.period == 1 || Wins(s.last.next, s.required, "_|_")) ==>
                  && HasTip(s) && env.me in o.s.cur.idToBlock
                  && var b := o.s.cur.idToBlock[env.me];
                     && b.id == Tip(s).id + 1 && b.prevHash == Tip(s).hash && b.timestamp == e.timestamp && b.txs == e.txs
                     && b.hash == env.digest(b.id, b.timestamp, Contents(b.txs), b.prevHash))
            && (o.Done? ==> o.s.isCommittee == (s.isCommittee || e.potentialLeader))
  {
    hide Total, OnRoundTimer, IsMax, Shape;
    if Wins(s.last.next, s.required, v) { WinnerScanned(s.last.next, s.required, v, e.ch.last); }
    if Wins(s.last.next, s.required, "_|_") { WinnerScanned(s.last.next, s.required, "_|_", e.ch.last); }
    if OnRoundTimer(env, s, e).Done? { TimerParts(env, s, e); }
  }

  /**
   The transactions chosen are from the pool without those of the last block, all of these if they are fewer than 10000, and
   else 1000 of them.
   */
  lemma AllChosen(env: Env, s: NodeState, e: Event, id: int)
    requires e.RoundTimer? && s.ready && Enabled(env, s, e) && Step(env, s, e).Done?
    requires s.period == 1 || Wins(s.last.next, s.required, "_|_")
    ensures HasTip(s) && Step(env, s, e).s.pool == s.pool - Ids(Tip(s).txs)
    ensures forall i :: 0 <= i < |e.txs| ==> e.txs[i] in s.pool.Values
    ensures var left := s.pool.Keys - Ids(Tip(s).txs);
            (|left| < 10000 && id in left ==> s.pool[id] in e.txs) && |e.txs| == if |left| < 10000 then |left| else 1000
  {
    hide Total, OnRoundTimer, IsMax;
    if Wins(s.last.next, s.required, "_|_") { WinnerScanned(s.last.next, s.required, "_|_", e.ch.last); }
    TimerParts(env, s, e);
    var left := Unspent(s.pool, Tip(s));
    assert PreparesBlock(env, s, e.ch.last) by { Ran(env, s, e); }
    assert left.Keys == s.pool.Keys - Ids(Tip(s).txs) && |left| == |left.Keys|;
    if |left.Keys| < 10000 && id in left {
      KeysCover(left, e.keys);
      var i :| 0 <= i < |e.keys| && e.keys[i] == id;
      assert e.txs[i] == s.pool[id];
    }
  }

  lemma Ran(env: Env, s: NodeState, e: Event)
    requires e.RoundTimer? && s.ready && OnRoundTimer(env, s, e).Done?
    ensures ExecuteAll(env, s, s.buffer).Some?
  {
  }

  /** As many different keys as a map has are all its keys. */
  lemma KeysCover(pool: map<int, Tx>, keys: seq<int>)
    requires |keys| == |pool| && (forall i :: 0 <= i < |keys| ==> keys[i] in pool) && forall i, j :: 0 <= i < j < |keys| ==> keys[i] != keys[j]
    ensures forall id :: id in pool ==> id in keys
  {
    var ks := set k | k in keys;
    Distinct(keys);
    assert ks <= pool.Keys && |ks| == |pool.Keys|;
    forall id | id in pool
      ensures id in keys
    {
      if id !in ks { SubsetSize(ks + {id}, pool.Keys); }
    }
  }

  lemma {:induction false} Distinct(keys: seq<int>)
    requires forall i, j :: 0 <= i < j < |keys| ==> keys[i] != keys[j]
    ensures |set k | k in keys| == |keys|
  {
    if keys != [] {
      var front, last := keys[..|keys| - 1], keys[|keys| - 1];
      Distinct(front);
      assert (set k | k in keys) == (set k | k in front) + {last};
      assert last !in front;
    }
  }

  // ------------------------------------------------------------------ transactions

  /** The ids of all transactions received so far. */
  function Received(es: seq<Event>, k: nat): set<int>
    requires k <= |es|
  {
    if k == 0 then {} else Received(es, k - 1) + if es[k - 1].AppendTransaction? then {es[k - 1].tx.id} else {}
  }

  /** The ids in the blocks that were the tip when the node prepared a block. */
  function InTips(run: Run, k: nat): set<int>
    requires k <= |run.es| <= |run.ss|
  {
    if k == 0 then {}
    else InTips(run, k - 1)
         + if run.es[k - 1].RoundTimer? && run.ss[k - 1].ready && HasTip(run.ss[k - 1]) then Ids(Tip(run.ss[k - 1]).txs) else {}
  }

  predicate BlocksFrom(blocks: map<Value, Block>, ids: set<int>) { forall v :: v in blocks ==> Ids(blocks[v].txs) <= ids }

  /** The pool is keyed by id; it and all candidate blocks are made of received transactions. */
  predicate FromReceived(s: NodeState, ids: set<int>) {
    && (forall id :: id in s.pool ==> s.pool[id].id == id && id in ids)
    && BlocksFrom(s.cur.valueToBlock, ids) && BlocksFrom(s.last.valueToBlock, ids)
  }

  lemma {:induction false} ExecuteAllFrom(env: Env, s: NodeState, ps: seq<Proposal>, ids: set<int>)
    requires ExecuteAll(env, s, ps).Some? && FromReceived(s, ids)
    ensures FromReceived(ExecuteAll(env, s, ps).value, ids)
    decreases |ps|
  {
    hide ExecuteProposal, FromReceived;
    if ps != [] {
      ExecuteFrom(env, s, ps[0], ids);
      ExecuteAllFrom(env, ExecuteProposal(env, s, ps[0]).value, ps[1..], ids);
    }
  }

  lemma ExecuteFrom(env: Env, s: NodeState, p: Proposal, ids: set<int>)
    requires ExecuteProposal(env, s, p).Some? && FromReceived(s, ids)
    ensures FromReceived(ExecuteProposal(env, s, p).value, ids)
  {
    ExecutedIff(env, s, p);
    if Acceptable(env, s, s.cur.idToBlock.Keys, p) { assert Ids(p.block.txs) <= s.pool.Keys; }
  }

  lemma OwnFrom(env: Env, s: NodeState, b: Block, sig: string, nextSeed: string, ids: set<int>)
    requires FromReceived(s, ids) && Ids(b.txs) <= ids
    ensures FromReceived(AddOwnProposal(env, s, b, sig, nextSeed), ids)
  {
    hide HashOf;
  }

  lemma TimerFrom(env: Env, s: NodeState, e: Event, ids: set<int>)
    requires e.RoundTimer? && Enabled(env, s, e) && OnRoundTimer(env, s, e).Done? && FromReceived(s, ids)
    ensures FromReceived(OnRoundTimer(env, s, e).s, ids)
  {
    hide FromReceived, RunStep1, IsMax;
    if s.ready {
      ExecuteAllFrom(env, s, s.buffer, ids);
      ExecuteAllFrame(env, s, s.buffer);
      var r := ExecuteAll(env, s, s.buffer).value.(buffer := [], ready := false);
      hide ExecuteAll;
      var v := RunStep1(r.period, e.ch.last, r.required);
      var u := if v == "" then r.(pool := Unspent(r.pool, Tip(r))) else r;
      FewerFrom(ExecuteAll(env, s, s.buffer).value, r, u, ids);
      if e.potentialLeader {
        if v == "" {
          ChosenFrom(s, Tip(s), e.keys, e.txs, ids);
          OwnFrom(env, u, PreparedBlock(env, Tip(r), e.txs, e.timestamp), e.sig, e.nextSeed, ids);
        } else {
          AgainFrom(r, v, ids);
          OwnFrom(env, u, r.last.valueToBlock[v], e.sig, e.nextSeed, ids);
        }
      }
    }
  }

  lemma FewerFrom(q: NodeState, r: NodeState, u: NodeState, ids: set<int>)
    requires FromReceived(q, ids) && r.pool == q.pool && r.cur == q.cur && r.last == q.last
    requires u.cur == r.cur && u.last == r.last && (u.pool == r.pool || (HasTip(r) && u.pool == Unspent(r.pool, Tip(r))))
    ensures FromReceived(r, ids) && FromReceived(u, ids)
  {
  }

  lemma ChosenFrom(s: NodeState, tip: Block, keys: seq<int>, txs: seq<Tx>, ids: set<int>)
    requires FromReceived(s, ids) && ValidSelection(Unspent(s.pool, tip), keys, txs)
    ensures Ids(txs) <= ids
  {
    forall i | 0 <= i < |txs|
      ensures txs[i].id in ids
    {
      var id := keys[i];
      assert id in Unspent(s.pool, tip) && Unspent(s.pool, tip)[id] == txs[i];
      assert id in s.pool && s.pool[id].id == id;
    }
  }

  lemma AgainFrom(r: NodeState, v: Value, ids: set<int>)
    requires FromReceived(r, ids) && v in r.last.valueToBlock
    ensures Ids(r.last.valueToBlock[v].txs) <= ids
  {
  }

  lemma VotingFrom(s: NodeState, o: Outcome, ids: set<int>)
    requires VotingOutcome(s, o) && o.Done? && FromReceived(s, ids)
    ensures FromReceived(o.s, ids) && o.s.pool == s.pool
  {
  }

  lemma StepFrom(env: Env, s: NodeState, e: Event, t: NodeState, c: Option<Vote>, ids: set<int>)
    requires Shape(s) && Leads(env, s, e, t, c) && FromReceived(s, ids)
    ensures FromReceived(t, ids + if e.AppendTransaction? then {e.tx.id} else {})
  {
    hide OnAgreementTimer, OnVote, OnRoundTimer, VotingOutcome, IsMax, FromReceived;
    var more := ids + if e.AppendTransaction? then {e.tx.id} else {};
    assert !e.AppendTransaction? ==> more == ids;
    match e
    case RoundTimer(_, _, _, _, _, _, _) => TimerFrom(env, s, e, ids);
    case AgreementTimer(ch) => TimerOutcome(env, s, ch); VotingFrom(s, OnAgreementTimer(env, s, ch), ids);
    case ReceiveVote(m, ch) => VoteOutcome(s, m, ch); VotingFrom(s, OnVote(s, m, ch), ids);
    case ReceiveProposal(p) =>
      if p.round <= s.round && p.period != s.period + 1 { ExecuteFrom(env, s, p, ids); } else { BlocksStay(s, t, ids, more); }
    case NoticeFinal(_, _) => BlocksStay(s, t, ids, more);
    case ChainSync(_, _) => BlocksStay(s, t, ids, more);
    case AppendBlock(_) => BlocksStay(s, t, ids, more);
    case AppendTransaction(tx) => PoolGrows(s, tx, ids);
  }

  lemma BlocksStay(s: NodeState, t: NodeState, ids: set<int>, more: set<int>)
    requires FromReceived(s, ids) && ids <= more && t.pool == s.pool
    requires t.cur.valueToBlock == s.cur.valueToBlock || t.cur.valueToBlock == map[]
    requires t.last.valueToBlock == s.last.valueToBlock || t.last.valueToBlock == map[]
    ensures FromReceived(t, more)
  {
  }

  lemma PoolGrows(s: NodeState, tx: Tx, ids: set<int>)
    requires FromReceived(s, ids)
    ensures FromReceived(s.(pool := s.pool[tx.id := tx]), ids + {tx.id})
  {
  }

  /**
   In every state of every run all candidate blocks, received or own, consist of transactions whose ids the node has
   received.
   */
  lemma {:induction false} TransactionsReceived(env: Env, seed: string, run: Run, k: nat)
    requires IsRun(env, seed, run) && k <= |run.es|
    ensures FromReceived(run.ss[k], Received(run.es, k))
  {
    hide Leads, FromReceived;
    if k == 0 {
      assert FromReceived(Initial(env, seed), {}) by { NothingYet(env, seed); }
    } else {
      TransactionsReceived(env, seed, run, k - 1);
      RunStep(env, seed, run, k - 1);
      StepFrom(env, run.ss[k - 1], run.es[k - 1], run.ss[k], run.cs[k - 1], Received(run.es, k - 1));
    }
  }

  lemma NothingYet(env: Env, seed: string)
    ensures FromReceived(Initial(env, seed), {})
  {
  }

  /** No event drops a transaction but the preparation of a block on a tip that has it. */
  lemma StepKeepsPool(env: Env, s: NodeState, e: Event, t: NodeState, c: Option<Vote>)
    requires Shape(s) && Leads(env, s, e, t, c)
    ensures s.pool.Keys <= t.pool.Keys + if e.RoundTimer? && s.ready && HasTip(s) then Ids(Tip(s).txs) else {}
    ensures e.AppendTransaction? ==> e.tx.id in t.pool && t.pool[e.tx.id] == e.tx
  {
    hide OnAgreementTimer, OnVote, OnRoundTimer, IsMax, RunStep1;
    match e
    case RoundTimer(_, _, _, _, _, _, _) => if s.ready { TimerParts(env, s, e); } else { TimerIdle(env, s, e); }
    case AgreementTimer(ch) => TimerOutcome(env, s, ch);
    case ReceiveVote(m, ch) => VoteOutcome(s, m, ch);
    case _ =>
  }

  lemma TimerIdle(env: Env, s: NodeState, e: Event)
    requires e.RoundTimer? && !s.ready
    ensures OnRoundTimer(env, s, e) == Done(s, None, None)
  {
  }

  /** Every transaction received is still in the pool, or was in a block that was the tip when the node prepared a block. */
  lemma {:induction false} TransactionsKept(env: Env, seed: string, run: Run, k: nat)
    requires IsRun(env, seed, run) && k <= |run.es|
    ensures Received(run.es, k) <= run.ss[k].pool.Keys + InTips(run, k)
  {
    hide Leads, HasTip, Ids;
    if k > 0 {
      TransactionsKept(env, seed, run, k - 1);
      RunStep(env, seed, run, k - 1);
      StepKeepsPool(env, run.ss[k - 1], run.es[k - 1], run.ss[k], run.cs[k - 1]);
    }
  }

  // ------------------------------------------------------------------ who may vote

  /** The node has made a proposal since it was started or last ended a round. */
  function HasProposed(env: Env, run: Run, k: nat): bool
    requires k <= |run.es| <= |run.ss|
  {
    if k == 0 then false
    else
      var s, e := run.ss[k - 1], run.es[k - 1];
      if e.RoundTimer? && s.ready && e.potentialLeader then true
      else if Ends(env, s, e) then false
      else HasProposed(env, run, k - 1)
  }

  lemma StepSeats(env: Env, s: NodeState, e: Event, t: NodeState, c: Option<Vote>)
    requires Shape(s) && Leads(env, s, e, t, c)
    ensures t.isCommittee == ((e.RoundTimer? && s.ready && e.potentialLeader) || (s.isCommittee && !Ends(env, s, e)))
    ensures c.Some? ==> s.isCommittee && !s.ready
  {
    hide OnVote, OnRoundTimer, IsMax, RunStep1, RunStep2, RunStep3, RunStep4, RunStep5, OnAgreementTimer;
    match e
    case RoundTimer(_, _, _, _, _, _, _) =>
      NoHaltHere(env, s, e);
      TimerCastsNothing(env, s, e);
      if s.ready { TimerParts(env, s, e); } else { TimerIdle(env, s, e); }
    case AgreementTimer(ch) => TimerOutcome(env, s, ch); if c.Some? { TimerVotes(env, s, ch); }
    case ReceiveVote(m, ch) => VoteOutcome(s, m, ch); VoteCastsNothing(s, m, ch);
    case ReceiveProposal(p) =>
    case _ =>
  }

  lemma TimerCastsNothing(env: Env, s: NodeState, e: Event)
    requires e.RoundTimer? && OnRoundTimer(env, s, e).Done?
    ensures OnRoundTimer(env, s, e).cast == None
  {
  }

  lemma VoteCastsNothing(s: NodeState, m: VoteMsg, ch: Choices)
    ensures OnVote(s, m, ch).Done? && OnVote(s, m, ch).cast == None
  {
  }

  lemma TimerVotes(env: Env, s: NodeState, ch: Choices)
    requires OnAgreementTimer(env, s, ch).Done? && OnAgreementTimer(env, s, ch).cast.Some?
    ensures s.isCommittee && !s.ready
  {
  }

  /** A node is on the committee exactly when it has proposed in the round, and only then it votes. */
  lemma {:induction false} SeatedOnRuns(env: Env, seed: string, run: Run, k: nat)
    requires IsRun(env, seed, run) && k <= |run.es|
    ensures run.ss[k].isCommittee == HasProposed(env, run, k)
    ensures k < |run.es| && run.cs[k].Some? ==> HasProposed(env, run, k)
  {
    hide Leads, Ends;
    if k > 0 {
      SeatedOnRuns(env, seed, run, k - 1);
      RunStep(env, seed, run, k - 1);
      StepSeats(env, run.ss[k - 1], run.es[k - 1], run.ss[k], run.cs[k - 1]);
    }
    if k < |run.es| {
      RunStep(env, seed, run, k);
      StepSeats(env, run.ss[k], run.es[k], run.ss[k + 1], run.cs[k]);
    }
  }
}
