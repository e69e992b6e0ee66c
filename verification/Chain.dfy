/**
 The shape of the chain over whole runs of a node: exactly when a halt or a proposal keeps it, and what can break it.
 */
module Chain {
  import opened Wrappers
  import opened Tally
  import opened Node
  import opened NodeRuns
  import opened Ledger

  /** Blocks are present, numbered from zero, and each names the hash of the one before. */
  ghost predicate Linked(chain: seq<Option<Block>>) {
    && |chain| >= 1
    && (forall i :: 0 <= i < |chain| ==> chain[i].Some? && chain[i].value.id == i)
    && (forall i, j {:trigger chain[i], chain[j]} :: 0 <= i && j == i + 1 < |chain| ==> chain[j].value.prevHash == chain[i].value.hash)
  }

  /** `b` can extend a chain of length `n` whose tip has hash `h`. */
  predicate Fits(n: int, h: string, b: Block) { b.id == n && b.prevHash == h }

  ghost predicate AllFit(n: int, h: string, m: map<Value, Block>) { forall v :: v in m ==> Fits(n, h, m[v]) }

  /** An honest proposer numbers its block by the round and links it to the block it names as last. */
  predicate HonestProposal(p: Proposal) { p.block.id == p.round && p.block.prevHash == p.hashOfLast }

  ghost predicate ChainInv(s: NodeState) {
    && Linked(s.chain) && s.round == |s.chain|
    && AllFit(s.round, Tip(s).hash, s.cur.valueToBlock)
    && AllFit(s.round, Tip(s).hash, s.last.valueToBlock)
    && (forall p :: p in s.buffer ==> HonestProposal(p))
  }

  // ------------------------------------------------------------------ exactly when

  /** Halting on a value keeps the chain linked if and only if the node holds a block for it that fits. */
  lemma HaltLinkedIff(s: NodeState, v: Value)
    requires Linked(s.chain)
    ensures Linked(HandleHalt(s, BlockFor(s, v), v).chain)
        <==> v in s.cur.valueToBlock && Fits(|s.chain|, Tip(s).hash, s.cur.valueToBlock[v])
  {
    var chain := HandleHalt(s, BlockFor(s, v), v).chain;
    var n := |s.chain|;
    assert chain[n] == BlockFor(s, v) && chain[n - 1] == s.chain[n - 1];
    if v in s.cur.valueToBlock && Fits(n, Tip(s).hash, s.cur.valueToBlock[v]) { AppendLinks(s.chain, s.cur.valueToBlock[v]); }
  }

  /** An accepted proposal keeps all candidate blocks fitting if and only if its own block is numbered and linked honestly. */
  lemma AcceptFitsIff(env: Env, s: NodeState, p: Proposal)
    requires HasTip(s) && AllFit(s.round, Tip(s).hash, s.cur.valueToBlock) && VerifyProposal(env, s, Tip(s).hash, p)
    ensures AllFit(s.round, Tip(s).hash, AddProposal(s, p).cur.valueToBlock) <==> HonestProposal(p)
  {
    assert AddProposal(s, p).cur.valueToBlock[p.value] == p.block;
  }

  /** Every value that a scan of the tally can decide on is one whose block the node holds. */
  ghost predicate HoldsWinners(s: NodeState, tally: Counter) {
    forall v :: v in tally && v != "" && tally[v] >= s.required && IsMax(tally, Scan(v, tally[v])) ==> v in s.cur.valueToBlock
  }

  /** The event leaves a linked chain, if it does not panic. */
  ghost predicate LeavesLinked(o: Outcome) { o.Done? ==> Linked(o.s.chain) }

  /** A halting check keeps the chain, in every iteration order, if and only if the node holds the possible winners. */
  lemma CheckLinkedIff(s: NodeState, c: Option<Vote>)
    requires ChainInv(s)
    ensures (forall m :: IsMax(s.cur.cert, m) ==> LeavesLinked(HaltCheck(s, c, m))) <==> HoldsWinners(s, s.cur.cert)
  {
    hide Linked, HandleHalt;
    forall m | IsMax(s.cur.cert, m)
      ensures LeavesLinked(HaltCheck(s, c, m)) <==> Decided(m, s.required) == "" || Decided(m, s.required) in s.cur.valueToBlock
    {
      var v := Decided(m, s.required);
      if v != "" { HaltLinkedIff(s, v); }
    }
    if forall m :: IsMax(s.cur.cert, m) ==> LeavesLinked(HaltCheck(s, c, m)) {
      forall v | v in s.cur.cert && v != "" && s.cur.cert[v] >= s.required && IsMax(s.cur.cert, Scan(v, s.cur.cert[v]))
        ensures v in s.cur.valueToBlock
      {
        assert Decided(Scan(v, s.cur.cert[v]), s.required) == v;
      }
    }
  }

  /** A new cert vote keeps the chain in every iteration order if and only if the winners with it counted are held. */
  lemma CertVoteLinkedIff(s: NodeState, m: VoteMsg)
    requires Shape(s) && ChainInv(s) && VerifyVote(s, m) && m.kind == Cert && m.peer !in s.cur.haveCert
    ensures (forall ch :: VoteChoices(s, m, ch) ==> LeavesLinked(OnVote(s, m, ch))) <==> HoldsWinners(s, Bump(s.cur.cert, m.value))
  {
    var t := TakeCert(s, m);
    assert t.cur.cert == Bump(s.cur.cert, m.value) && ChainInv(t);
    CheckLinkedIff(t, None);
    hide Linked, ChainInv, HaltCheck, TakeCert;
    if forall ch :: VoteChoices(s, m, ch) ==> LeavesLinked(OnVote(s, m, ch)) {
      forall scan | IsMax(t.cur.cert, scan)
        ensures LeavesLinked(HaltCheck(t, None, scan))
      {
        var ch := Choices(NO_SCAN, NO_SCAN, scan, NO_SCAN, "");
        assert VoteChoices(s, m, ch) && OnVote(s, m, ch) == HaltCheck(t, None, scan);
      }
    }
  }

  /** At step 3 a node that has not certified casts its vote and checks for a halt. */
  ghost predicate AtStep3(env: Env, s: NodeState) { Votes(s) && NextStep(s).step == 3 && env.me !in s.cur.haveCert }

  lemma Step3Is(env: Env, s: NodeState, ch: Choices)
    requires AtStep3(env, s)
    ensures OnAgreementTimer(env, s, ch) == HaltCheck(Step3Vote(env, NextStep(s), ch.soft),
                                                      CastIf(env.me, NextStep(s), CertSlot, RunStep3(ch.soft, s.required)), ch.cert)
    ensures TimerChoices(env, s, ch) <==> IsMax(s.last.next, ch.last) && IsMax(s.cur.soft, ch.soft) && IsMax(Step3Vote(env, NextStep(s), ch.soft).cur.cert, ch.cert)
  {
    hide HaltCheck, IsMax, Step3Vote, Step4Vote, Step5Vote, RunStep3;
  }

  lemma Step3Keeps(env: Env, s: NodeState, soft: Scan)
    requires ChainInv(s)
    ensures var t := Step3Vote(env, NextStep(s), soft);
            ChainInv(t) && t.required == s.required && t.cur.valueToBlock == s.cur.valueToBlock
  {
    hide Linked, RunStep3;
  }

  /** So does step 3, with the vote that the node casts itself. */
  lemma CertStepLinkedIff(env: Env, s: NodeState, soft: Scan)
    requires ChainInv(s) && AtStep3(env, s) && IsMax(s.cur.soft, soft)
    ensures (forall ch :: TimerChoices(env, s, ch) && ch.soft == soft ==> LeavesLinked(OnAgreementTimer(env, s, ch)))
        <==> HoldsWinners(s, Step3Vote(env, NextStep(s), soft).cur.cert)
  {
    hide Linked, ChainInv, HaltCheck, Step3Vote, HoldsWinners, AtStep3, TimerChoices, OnAgreementTimer, IsMax, NextStep, CastIf;
    var t := Step3Vote(env, NextStep(s), soft);
    var c := CastIf(env.me, NextStep(s), CertSlot, RunStep3(soft, s.required));
    Step3Keeps(env, s, soft);
    CheckLinkedIff(t, c);
    SameWinners(s, t, t.cur.cert);
    var order := Enumerate(s.last.next.Keys);
    ScanAlongIsMax(s.last.next, order);
    forall scan | IsMax(t.cur.cert, scan)
      ensures (forall ch :: TimerChoices(env, s, ch) && ch.soft == soft ==> LeavesLinked(OnAgreementTimer(env, s, ch)))
          ==> LeavesLinked(HaltCheck(t, c, scan))
    {
      Step3Is(env, s, Choices(ScanAlong(s.last.next, order), soft, scan, NO_SCAN, ""));
    }
    forall ch | TimerChoices(env, s, ch) && ch.soft == soft
      ensures IsMax(t.cur.cert, ch.cert) && OnAgreementTimer(env, s, ch) == HaltCheck(t, c, ch.cert)
    {
      Step3Is(env, s, ch);
    }
  }

  lemma SameWinners(s: NodeState, t: NodeState, tally: Counter)
    requires t.required == s.required && t.cur.valueToBlock == s.cur.valueToBlock
    ensures HoldsWinners(t, tally) <==> HoldsWinners(s, tally)
  {
  }

  /** What the event scans for a halt, if it does: the cert tally with a received or an own vote counted. */
  function Scanned(env: Env, s: NodeState, e: Event): Option<Counter> {
    match e
    case ReceiveVote(m, _) =>
      if VerifyVote(s, m) && m.kind == Cert && m.peer !in s.cur.haveCert then Some(Bump(s.cur.cert, m.value)) else None
    case AgreementTimer(ch) =>
      if Votes(s) && NextStep(s).step == 3 && env.me !in s.cur.haveCert then Some(Step3Vote(env, NextStep(s), ch.soft).cur.cert) else None
    case _ => None
  }

  /** Input under which the chain keeps its shape; every clause is about the state and the input before the event. */
  ghost predicate HonestInput(env: Env, s: NodeState, e: Event) {
    && (e.ReceiveProposal? ==> HonestProposal(e.p))
    && (e.AppendBlock? ==> |e.blocks| <= |s.chain|)
    && (e.ChainSync? && |e.blocks| > |s.chain| ==> Linked(e.blocks))
    && (e.NoticeFinal? && e.peer == s.cur.leader ==> e.value in s.cur.valueToBlock)
    && (Scanned(env, s, e).Some? ==> HoldsWinners(s, Scanned(env, s, e).value))
  }

  /** A halt is on a winner of what was scanned. */
  lemma HaltWins(env: Env, s: NodeState, e: Event)
    requires Shape(s) && Enabled(env, s, e) && Step(env, s, e).Done? && Step(env, s, e).halt.Some? && HonestInput(env, s, e)
    ensures Step(env, s, e).halt.value in s.cur.valueToBlock
  {
    hide Linked, HandleHalt, HandleNextPeriod, RunStep2, RunStep3, RunStep4, RunStep5;
    var v := Step(env, s, e).halt.value;
    assert Scanned(env, s, e).Some?;
    var tally := Scanned(env, s, e).value;
    assert v in tally && v != "" && tally[v] >= s.required && IsMax(tally, Scan(v, tally[v]));
  }

  lemma AppendLinks(chain: seq<Option<Block>>, b: Block)
    requires Linked(chain) && Fits(|chain|, chain[|chain| - 1].value.hash, b)
    ensures Linked(chain + [Some(b)])
  {
  }

  lemma HaltKeepsChain(s: NodeState, v: Value)
    requires ChainInv(s) && v in s.cur.valueToBlock
    ensures ChainInv(HandleHalt(s, BlockFor(s, v), v))
  {
    AppendLinks(s.chain, s.cur.valueToBlock[v]);
  }

  lemma VotingKeepsChain(s: NodeState, o: Outcome)
    requires ChainInv(s) && VotingOutcome(s, o) && o.Done?
    requires o.halt.Some? ==> o.halt.value in s.cur.valueToBlock
    ensures ChainInv(o.s)
  {
    if o.halt.Some? {
      var u, v :| SameProposals(s, u) && o.halt == Some(v) && o.s == HandleHalt(u, BlockFor(u, v), v);
      HaltKeepsChain(u, v);
    }
  }

  lemma ExecuteKeepsChain(env: Env, s: NodeState, p: Proposal)
    requires ChainInv(s) && HonestProposal(p) && ExecuteProposal(env, s, p).Some?
    ensures ChainInv(ExecuteProposal(env, s, p).value)
    ensures ExecuteProposal(env, s, p).value.buffer == s.buffer
  {
  }

  lemma {:induction false} ExecuteAllKeepsChain(env: Env, s: NodeState, ps: seq<Proposal>)
    requires ChainInv(s) && (forall p :: p in ps ==> HonestProposal(p)) && ExecuteAll(env, s, ps).Some?
    ensures ChainInv(ExecuteAll(env, s, ps).value)
    decreases |ps|
  {
    if ps != [] {
      ExecuteKeepsChain(env, s, ps[0]);
      ExecuteAllKeepsChain(env, ExecuteProposal(env, s, ps[0]).value, ps[1..]);
    }
  }

  lemma AddOwnKeepsChain(env: Env, s: NodeState, b: Block, sig: string, nextSeed: string)
    requires ChainInv(s) && Fits(s.round, Tip(s).hash, b)
    ensures ChainInv(AddOwnProposal(env, s, b, sig, nextSeed))
  {
  }

  lemma RoundTimerKeepsChain(env: Env, s: NodeState, e: Event)
    requires ChainInv(s) && e.RoundTimer? && OnRoundTimer(env, s, e).Done?
    ensures ChainInv(OnRoundTimer(env, s, e).s)
  {
    if s.ready {
      ExecuteAllKeepsChain(env, s, s.buffer);
      var t := ExecuteAll(env, s, s.buffer).value.(buffer := [], ready := false);
      var v := RunStep1(t.period, e.ch.last, t.required);
      var b := if v == "" then PreparedBlock(env, Tip(t), e.txs, e.timestamp) else t.last.valueToBlock[v];
      var u := if v == "" then t.(pool := Unspent(t.pool, Tip(t))) else t;
      AddOwnKeepsChain(env, u, b, e.sig, e.nextSeed);
    }
  }

  lemma StepKeepsChain(env: Env, s: NodeState, e: Event, t: NodeState, c: Option<Vote>)
    requires Shape(s) && ChainInv(s) && HonestInput(env, s, e) && Leads(env, s, e, t, c)
    ensures ChainInv(t)
  {
    hide OnAgreementTimer, OnVote, OnRoundTimer;
    if Step(env, s, e).halt.Some? { HaltWins(env, s, e); }
    match e
    case RoundTimer(_, _, _, _, _, _, _) => RoundTimerKeepsChain(env, s, e);
    case AgreementTimer(ch) => TimerOutcome(env, s, ch); VotingKeepsChain(s, OnAgreementTimer(env, s, ch));
    case ReceiveVote(m, ch) => VoteOutcome(s, m, ch); VotingKeepsChain(s, OnVote(s, m, ch));
    case ReceiveProposal(p) =>
      if ExecuteProposal(env, s, p).Some? { ExecuteKeepsChain(env, s, p); }
    case NoticeFinal(peer, v) => if peer == s.cur.leader { HaltKeepsChain(s, v); }
    case _ =>
  }

  /** With honest input the chain is linked and numbered, and the round is its length, in every state of every run. */
  lemma {:induction false} ChainOnRuns(env: Env, seed: string, run: Run, k: nat)
    requires IsRun(env, seed, run) && k <= |run.es|
    requires forall j :: 0 <= j < k ==> HonestInput(env, run.ss[j], run.es[j])
    ensures Linked(run.ss[k].chain) && run.ss[k].round == |run.ss[k].chain|
    ensures ChainInv(run.ss[k])
  {
    hide Leads, HonestInput;
    if k > 0 {
      ChainOnRuns(env, seed, run, k - 1);
      RunStep(env, seed, run, k - 1);
      StepKeepsChain(env, run.ss[k - 1], run.es[k - 1], run.ss[k], run.cs[k - 1]);
    }
  }

  // ------------------------------------------------------------------ a block that lies about its hash

  /** A string that is none of two others, nor empty, nor the empty value. */
  function Foreign(a: string, b: string): string { a + b + "x" }

  lemma ForeignIs(a: string, b: string)
    ensures Foreign(a, b) != a && Foreign(a, b) != b && Foreign(a, b) != "" && Foreign(a, b) != BOTTOM
  {
    var x := Foreign(a, b);
    assert x[|x| - 1] == 'x' && BOTTOM[2] == '_';
  }

  /** The proposal of a block that is numbered and linked honestly but carries another hash than its own. */
  function LyingProposal(env: Env, u: Id, seed: string, h: string, x: string): Proposal {
    var b := Block(1, "", [], h, x);
    Proposal(u, "a", 1, 1, 1, seed, h, "", HashOf(env, b), b, true)
  }

  /**
   Step 2 votes for the hash that the leader's block carries, which nobody checks, while blocks are kept under the hash
   that they have. So a block that lies about its hash is voted for under a value that nobody holds: in four events, one of
   them an honestly numbered and linked proposal, a node halts on it and appends a nil block, and then every round timer
   panics.
   */
  lemma LyingHashBreaksChain(env: Env, seed: string, u: Id) returns (run: Run)
    requires u in env.users && u != env.me
    ensures IsRun(env, seed, run) && |run.es| == 4 && run.ss[4].chain == [Some(Genesis(env)), None]
    ensures run.es[1].ReceiveProposal? && HonestProposal(run.es[1].p)
    ensures forall k :: 0 <= k < 4 && k != 1 ==> run.es[k].RoundTimer? || run.es[k].AgreementTimer?
    ensures forall e: Event :: e.RoundTimer? ==> Step(env, run.ss[4], e) == Crash
  {
    hide Leads, Step, AddProposal, AddOwnProposal, PreparedBlock, Foreign, HashOf, Genesis, Initial;
    var h := Genesis(env).hash;
    var own := PreparedBlock(env, Genesis(env), [], "");
    var x := Foreign(HashOf(env, own), HashOf(env, Block(1, "", [], h, "")));
    ForeignIs(HashOf(env, own), HashOf(env, Block(1, "", [], h, "")));
    SameHash(env, h, "", x);
    var p := LyingProposal(env, u, seed, h, x);
    var s1, e1 := Proposing(env, seed);
    var s2 := AddProposal(s1, p);
    TakesLie(env, seed, u, x, s1);
    MisledIs(env, seed, u, x, s2);
    var s3, e3 := VotesLie(env, u, x, s2);
    var s4, e4 := HaltsOnLie(env, x, s3);
    run := Run([Initial(env, seed), s1, s2, s3, s4], [e1, ReceiveProposal(p), e3, e4],
               [None, None, Some(Vote(env.me, 1, 1, SoftSlot, x)), Some(Vote(env.me, 1, 1, CertSlot, x))]);
    forall k {:trigger run.es[k]} | 0 <= k < |run.es|
      ensures Leads(env, run.ss[k], run.es[k], run.ss[k + 1], run.cs[k])
    {
      assert k == 0 || k == 1 || k == 2 || k == 3;
    }
  }

  lemma SameHash(env: Env, h: string, x: string, y: string)
    ensures HashOf(env, Block(1, "", [], h, x)) == HashOf(env, Block(1, "", [], h, y))
  {
  }

  /** The node proposes a block of its own. */
  lemma Proposing(env: Env, seed: string) returns (s: NodeState, e: Event)
    ensures e.RoundTimer? && Leads(env, Initial(env, seed), e, s, None)
    ensures s == AddOwnProposal(env, Initial(env, seed).(ready := false), PreparedBlock(env, Genesis(env), [], ""), "b", "")
  {
    e := RoundTimer(Choices(NO_SCAN, NO_SCAN, NO_SCAN, NO_SCAN, ""), [], [], "", true, "b", "");
    assert Unspent(map[], Genesis(env)) == map[];
    s := Step(env, Initial(env, seed), e).s;
  }

  lemma TakesLie(env: Env, seed: string, u: Id, x: string, s: NodeState)
    requires u in env.users && u != env.me
    requires s == AddOwnProposal(env, Initial(env, seed).(ready := false), PreparedBlock(env, Genesis(env), [], ""), "b", "")
    ensures var p := LyingProposal(env, u, seed, Genesis(env).hash, x);
            Leads(env, s, ReceiveProposal(p), AddProposal(s, p), None)
  {
  }

  /** A node about to vote with the liar's block as its leader's. */
  ghost predicate Misled(env: Env, u: Id, x: string, s: NodeState) {
    && s.round == 1 && s.period == 1 && s.step == 1 && !s.ready && s.isCommittee && s.committee == [u] && s.buffer == []
    && s.chain == [Some(Genesis(env))] && s.last.next == map[] && s.cur == s.cur.(period := 1, soft := map[], haveSoft := map[], cert := map[], haveCert := map[])
    && s.cur.sigLeaderToId == map["b" := env.me]["a" := u] && u in s.cur.idToBlock && s.cur.idToBlock[u].hash == x
  }

  lemma MisledIs(env: Env, seed: string, u: Id, x: string, s: NodeState)
    requires u != env.me
    requires s == AddProposal(AddOwnProposal(env, Initial(env, seed).(ready := false), PreparedBlock(env, Genesis(env), [], ""), "b", ""),
                              LyingProposal(env, u, seed, Genesis(env).hash, x))
    ensures Misled(env, u, x, s)
    ensures s.cur.valueToBlock.Keys == {HashOf(env, PreparedBlock(env, Genesis(env), [], "")), HashOf(env, Block(1, "", [], Genesis(env).hash, x))}
  {
  }

  /** The liar leads, and the node votes for the hash its block carries. */
  lemma VotesLie(env: Env, u: Id, x: string, s: NodeState) returns (t: NodeState, e: Event)
    requires Misled(env, u, x, s) && x != ""
    ensures e.AgreementTimer? && Leads(env, s, e, t, Some(Vote(env.me, 1, 1, SoftSlot, x)))
    ensures && t.round == 1 && t.period == 1 && t.step == 2 && !t.ready && t.isCommittee && t.required == 1 && t.buffer == []
            && t.chain == [Some(Genesis(env))] && t.last.next == map[] && t.cur.period == 1
            && t.cur.soft == map[x := 1] && t.cur.cert == map[] && t.cur.haveCert == map[] && t.cur.valueToBlock == s.cur.valueToBlock
  {
    hide IsLeader, HashOf, Genesis;
    LiarLeads(env.me, u);
    e := AgreementTimer(Choices(NO_SCAN, NO_SCAN, NO_SCAN, NO_SCAN, u));
    t := Step2(env, NextStep(s), NO_SCAN, u).s;
  }

  lemma LiarLeads(me: Id, u: Id)
    ensures IsLeader(map["b" := me]["a" := u], u)
  {
    assert Less("a", "b");
    assert IsLeast(map["b" := me]["a" := u], "a");
  }

  /** One vote is the quorum of a committee of one other, and the value has no block. */
  lemma HaltsOnLie(env: Env, x: string, s: NodeState) returns (t: NodeState, e: Event)
    requires s.round == 1 && s.period == 1 && s.step == 2 && !s.ready && s.isCommittee && s.required == 1 && s.buffer == []
    requires s.chain == [Some(Genesis(env))] && s.last.next == map[] && s.cur.period == 1
    requires s.cur.soft == map[x := 1] && s.cur.cert == map[] && s.cur.haveCert == map[] && x != "" && x != BOTTOM
    requires x !in s.cur.valueToBlock
    ensures e.AgreementTimer? && Leads(env, s, e, t, Some(Vote(env.me, 1, 1, CertSlot, x)))
    ensures t.chain == [Some(Genesis(env)), None]
    ensures forall r: Event :: r.RoundTimer? ==> Step(env, t, r) == Crash
  {
    e := AgreementTimer(Choices(NO_SCAN, Scan(x, 1), Scan(x, 1), NO_SCAN, ""));
    var voted := Step3Vote(env, NextStep(s), Scan(x, 1));
    assert voted.cur.cert == map[x := 1];
    t := Step(env, s, e).s;
    assert t == HandleHalt(voted, None, x);
    assert t.chain == [Some(Genesis(env)), None] && t.buffer == [] && t.ready;
  }

  // ------------------------------------------------------------------ blocks that do not

  /** The block of a proposal carries the hash that it has. */
  predicate TrueHash(env: Env, b: Block) { b.hash == HashOf(env, b) }

  /** All blocks the node works with carry their own hashes, and each candidate's block is kept under it. */
  ghost predicate Truthful(env: Env, s: NodeState) {
    && (forall v :: v in s.cur.valueToBlock ==> TrueHash(env, s.cur.valueToBlock[v]))
    && (forall v :: v in s.last.valueToBlock ==> TrueHash(env, s.last.valueToBlock[v]))
    && (forall u :: u in s.cur.idToBlock ==> TrueHash(env, s.cur.idToBlock[u]) && s.cur.idToBlock[u].hash in s.cur.valueToBlock)
    && (forall p :: p in s.buffer ==> TrueHash(env, p.block))
  }

  lemma TruthfulExecute(env: Env, s: NodeState, p: Proposal)
    requires Truthful(env, s) && TrueHash(env, p.block) && ExecuteProposal(env, s, p).Some?
    ensures Truthful(env, ExecuteProposal(env, s, p).value)
  {
  }

  lemma {:induction false} TruthfulExecuteAll(env: Env, s: NodeState, ps: seq<Proposal>)
    requires Truthful(env, s) && (forall p :: p in ps ==> TrueHash(env, p.block)) && ExecuteAll(env, s, ps).Some?
    ensures Truthful(env, ExecuteAll(env, s, ps).value)
    decreases |ps|
  {
    if ps != [] {
      TruthfulExecute(env, s, ps[0]);
      TruthfulExecuteAll(env, ExecuteProposal(env, s, ps[0]).value, ps[1..]);
    }
  }

  lemma TruthfulRoundTimer(env: Env, s: NodeState, e: Event)
    requires Truthful(env, s) && e.RoundTimer? && OnRoundTimer(env, s, e).Done?
    ensures Truthful(env, OnRoundTimer(env, s, e).s)
  {
    if s.ready { TruthfulExecuteAll(env, s, s.buffer); }
  }

  lemma TruthfulVoting(env: Env, s: NodeState, o: Outcome)
    requires Truthful(env, s) && VotingOutcome(s, o) && o.Done?
    ensures Truthful(env, o.s)
  {
  }

  lemma TruthfulStep(env: Env, s: NodeState, e: Event, t: NodeState, c: Option<Vote>)
    requires Shape(s) && Truthful(env, s) && Leads(env, s, e, t, c) && (e.ReceiveProposal? ==> TrueHash(env, e.p.block))
    ensures Truthful(env, t)
  {
    hide OnAgreementTimer, OnVote, OnRoundTimer;
    match e
    case RoundTimer(_, _, _, _, _, _, _) => TruthfulRoundTimer(env, s, e);
    case AgreementTimer(ch) => TimerOutcome(env, s, ch); TruthfulVoting(env, s, OnAgreementTimer(env, s, ch));
    case ReceiveVote(m, ch) => VoteOutcome(s, m, ch); TruthfulVoting(env, s, OnVote(s, m, ch));
    case ReceiveProposal(p) => if ExecuteProposal(env, s, p).Some? { TruthfulExecute(env, s, p); }
    case _ =>
  }

  lemma {:induction false} TruthfulOnRuns(env: Env, seed: string, run: Run, k: nat)
    requires IsRun(env, seed, run) && k <= |run.es|
    requires forall j :: 0 <= j < k && run.es[j].ReceiveProposal? ==> TrueHash(env, run.es[j].p.block)
    ensures Truthful(env, run.ss[k])
  {
    hide Leads;
    if k > 0 {
      TruthfulOnRuns(env, seed, run, k - 1);
      RunStep(env, seed, run, k - 1);
      TruthfulStep(env, run.ss[k - 1], run.es[k - 1], run.ss[k], run.cs[k - 1]);
    }
  }

  lemma LeadersBlock(env: Env, s: NodeState, ch: Choices)
    requires Shape(s) && Truthful(env, s) && Indexed(env, s) && RunStep2(s.period, ch.last, Threshold(s.committee)) == FollowLeader
    requires var o := OnAgreementTimer(env, s, ch);
             o.Done? && o.cast.Some? && o.cast.value.slot == SoftSlot
    ensures var v := OnAgreementTimer(env, s, ch).cast.value.value;
            v in s.cur.valueToBlock && HashOf(env, s.cur.valueToBlock[v]) == v
  {
    hide HandleHalt, HandleNextPeriod, RunStep2, RunStep3, RunStep4, RunStep5, Step3Vote, Step4Vote, Step5Vote, HashOf;
  }

  /** When blocks carry their own hashes, a node that follows the leader votes for a block that it holds. */
  lemma LeaderVoteHeld(env: Env, seed: string, run: Run, k: nat)
    requires IsRun(env, seed, run) && k < |run.es| && run.es[k].AgreementTimer? && run.cs[k].Some? && run.cs[k].value.slot == SoftSlot
    requires forall j :: 0 <= j < k && run.es[j].ReceiveProposal? ==> TrueHash(env, run.es[j].p.block)
    requires RunStep2(run.ss[k].period, run.es[k].ch.last, Threshold(run.ss[k].committee)) == FollowLeader
    ensures var v := run.cs[k].value.value;
            v in run.ss[k].cur.valueToBlock && HashOf(env, run.ss[k].cur.valueToBlock[v]) == v
  {
    hide OnAgreementTimer, RunStep2, HashOf, Truthful, Indexed, Enabled, Threshold, Shape;
    TruthfulOnRuns(env, seed, run, k);
    IndexOnRuns(env, seed, run, k);
    RunStep(env, seed, run, k);
    assert Leads(env, run.ss[k], run.es[k], run.ss[k + 1], run.cs[k]);
    LeadersBlock(env, run.ss[k], run.es[k].ch);
  }
}
