/**
 One agreement node (server/serve.go, server/agreement.go, server/util.go) as a state
 machine on values: a function per `select` case of the service loop. Whatever the code
 takes from outside - map iteration orders, signatures, the leader lottery, the clock -
 arrives as part of the event, constrained by `Enabled`.
 */
module Node {
  import opened Wrappers
  import opened Tally

  // ------------------------------------------------------------------ records

  datatype Tx = Tx(id: int, v: string)

  datatype Block = Block(id: int, timestamp: string, txs: seq<Tx>, prevHash: string, hash: string)

  /** A block proposal; `sigOk` is the outcome of verifying its signature under the proposer's key. */
  datatype Proposal = Proposal(
    proposer: Id, sig: string, round: int, period: int, credence: int, seed: string,
    hashOfLast: string, nextSeed: string, value: Value, block: Block, sigOk: bool)

  datatype VoteType = Soft | Cert | Next | Other

  /** A vote on the wire; the step is not covered by the signature. */
  datatype VoteMsg = VoteMsg(peer: Id, value: Value, round: int, period: int, kind: VoteType, step: int, sigOk: bool)

  /** The four votes a node can cast in a period. */
  datatype Slot = SoftSlot | CertSlot | Next4Slot | Next5Slot

  datatype Vote = Vote(voter: Id, round: int, period: int, slot: Slot, value: Value)

  /** State of one period. The have-voted maps hold the recorded value where the code stores `true`. */
  datatype PeriodState = PeriodState(
    sigLeaderToId: map<string, Id>,
    idToBlock: map<Id, Block>,
    valueToSeed: map<Value, string>,
    valueToBlock: map<Value, Block>,
    next: Counter, soft: Counter, cert: Counter,
    have4: map<Id, Value>, have5: map<Id, Value>,
    haveSoft: map<Id, Value>, haveCert: map<Id, Value>,
    myCert: Value, leader: Id, starting: Value, period: int)

  /** The node's state; a chain entry is `None` where the code would hold a nil block. */
  datatype NodeState = NodeState(
    round: int, period: int, step: int,
    ready: bool, committee: seq<Id>, isCommittee: bool, required: nat,
    seed: string, cur: PeriodState, last: PeriodState,
    chain: seq<Option<Block>>, pool: map<int, Tx>, buffer: seq<Proposal>)

  /** What is fixed for a node: its id, the known users, and the hash of a block's record. */
  datatype Env = Env(me: Id, users: set<Id>, digest: (int, string, string, string) -> string)

  /** The result of handling an event: a Go panic, or a new state with the vote cast and the value halted on. */
  datatype Outcome = Crash | Done(s: NodeState, cast: Option<Vote>, halt: Option<Value>)

  function Quiet(s: NodeState): Outcome { Done(s, None, None) }

  // ------------------------------------------------------------- util.go

  function Contents(txs: seq<Tx>): string {
    if txs == [] then "" else txs[0].v + Contents(txs[1..])
  }

  /** `calculateHash`: the record leaves the block's own `Hash` field out. */
  function HashOf(env: Env, b: Block): string {
    env.digest(b.id, b.timestamp, Contents(b.txs), b.prevHash)
  }

  function Credence(env: Env, u: Id): int { if u in env.users then 1 else 0 }

  predicate VerifyProposal(env: Env, s: NodeState, lastHash: string, p: Proposal) {
    && s.round == p.round && s.period == p.period
    && Credence(env, p.proposer) == p.credence
    && s.seed == p.seed && lastHash == p.hashOfLast
    && HashOf(env, p.block) == p.value
    && p.sigOk
  }

  predicate VerifyTransactions(pool: map<int, Tx>, txs: seq<Tx>) {
    forall i :: 0 <= i < |txs| ==> txs[i].id in pool
  }

  predicate VerifyVote(s: NodeState, m: VoteMsg) {
    s.round == m.round && s.period == m.period && m.sigOk
  }

  predicate HasTip(s: NodeState) { |s.chain| > 0 && s.chain[|s.chain| - 1].Some? }

  function Tip(s: NodeState): Block
    requires HasTip(s)
  {
    s.chain[|s.chain| - 1].value
  }

  function AddProposal(s: NodeState, p: Proposal): NodeState {
    s.(committee := s.committee + [p.proposer],
       cur := s.cur.(
         sigLeaderToId := s.cur.sigLeaderToId[p.sig := p.proposer],
         idToBlock := s.cur.idToBlock[p.proposer := p.block],
         valueToSeed := s.cur.valueToSeed[p.value := p.nextSeed],
         valueToBlock := s.cur.valueToBlock[p.value := p.block]))
  }

  /** `executeProposal`; a nil chain tip is dereferenced unless the proposer was already seen. */
  function ExecuteProposal(env: Env, s: NodeState, p: Proposal): Option<NodeState> {
    if p.proposer in s.cur.idToBlock then Some(s)
    else if !HasTip(s) then None
    else if VerifyProposal(env, s, Tip(s).hash, p) && VerifyTransactions(s.pool, p.block.txs) then Some(AddProposal(s, p))
    else Some(s)
  }

  function ExecuteAll(env: Env, s: NodeState, ps: seq<Proposal>): Option<NodeState>
    decreases |ps|
  {
    if ps == [] then Some(s)
    else
      var r := ExecuteProposal(env, s, ps[0]);
      if r.None? then None else ExecuteAll(env, r.value, ps[1..])
  }

  const BLOCK_SIZE := 10000

  function Ids(txs: seq<Tx>): set<int> { set i | 0 <= i < |txs| :: txs[i].id }

  /** The pool after `prepareBlock` has dropped the last block's transactions. */
  function Unspent(pool: map<int, Tx>, tip: Block): map<int, Tx> { pool - Ids(tip.txs) }

  /** `txs` is a possible selection from the pool, in map order: everything, or a thousand of a full pool. */
  predicate ValidSelection(pool: map<int, Tx>, keys: seq<int>, txs: seq<Tx>) {
    && |keys| == |txs|
    && (forall i :: 0 <= i < |keys| ==> keys[i] in pool && pool[keys[i]] == txs[i])
    && (forall i, j :: 0 <= i < j < |keys| ==> keys[i] != keys[j])
    && |keys| == if |pool| < BLOCK_SIZE then |pool| else 1000
  }

  function PreparedBlock(env: Env, tip: Block, txs: seq<Tx>, timestamp: string): Block {
    var b := Block(tip.id + 1, timestamp, txs, tip.hash, "");
    b.(hash := HashOf(env, b))
  }

  // -------------------------------------------------------------- agreement.go

  /** What a step sees of the previous period's next votes: nothing in period 1. */
  function LastScan(period: int, m: Scan): Scan { if period > 1 then m else NO_SCAN }

  function RunStep1(period: int, m: Scan, required: nat): Value {
    var m := LastScan(period, m);
    if period == 1 || (m.value == BOTTOM && m.votes >= required) then ""
    else if m.value != BOTTOM && m.votes >= required then m.value
    else "err"
  }

  datatype SoftChoice = FollowLeader | VoteFor(v: Value)

  function RunStep2(period: int, m: Scan, required: nat): SoftChoice {
    var m := LastScan(period, m);
    if period == 1 || (m.value == BOTTOM && m.votes >= required) then FollowLeader
    else if m.value != BOTTOM && m.votes >= required then VoteFor(m.value)
    else VoteFor("")
  }

  function RunStep3(m: Scan, required: nat): Value {
    if m.value != BOTTOM && m.votes >= required then m.value else ""
  }

  function RunStep4(cur: PeriodState, m: Scan, required: nat): Value {
    var m := LastScan(cur.period, m);
    if cur.myCert != "" then cur.myCert
    else if cur.period >= 2 && m.value == BOTTOM && m.votes >= required then BOTTOM
    else cur.starting
  }

  function RunStep5(cur: PeriodState, soft: Scan, last: Scan, required: nat): Value {
    if soft.value != BOTTOM && soft.votes >= required then soft.value
    else if cur.period > 1 && last.value == BOTTOM && last.votes >= required && cur.myCert == "" then BOTTOM
    else ""
  }

  /** `checkHaltingCondition` and `checkNextPeridCondition`. */
  function Decided(m: Scan, required: nat): Value { if m.votes >= required then m.value else "" }

  // ------------------------------------------------------------------ serve.go

  function InitPeriod(p: int): PeriodState {
    PeriodState(map[], map[], map[], map[], map[], map[], map[], map[], map[], map[], map[], "", "", "", p)
  }

  function HandleHalt(s: NodeState, b: Option<Block>, v: Value): NodeState {
    s.(chain := s.chain + [b],
       seed := if v in s.cur.valueToSeed then s.cur.valueToSeed[v] else "",
       ready := true, round := s.round + 1, last := InitPeriod(0), period := 1, step := 1,
       cur := InitPeriod(1).(starting := BOTTOM), committee := [], isCommittee := false)
  }

  function BlockFor(s: NodeState, v: Value): Option<Block> {
    if v in s.cur.valueToBlock then Some(s.cur.valueToBlock[v]) else None
  }

  function HandleNextPeriod(s: NodeState, v: Value): NodeState {
    s.(period := s.period + 1, step := 1, last := s.cur,
       cur := InitPeriod(s.period + 1).(starting := if v != BOTTOM then v else ""),
       ready := true)
  }

  /** The threshold recomputed in step 2. */
  function Threshold(committee: seq<Id>): nat { 2 * ((|committee| + 1) / 3) + 1 }

  /** Halt when the scanned cert tally has a value at the threshold. */
  function HaltCheck(s: NodeState, cast: Option<Vote>, m: Scan): Outcome {
    var v := Decided(m, s.required);
    if v != "" then Done(HandleHalt(s, BlockFor(s, v), v), cast, Some(v)) else Done(s, cast, None)
  }

  function NextCheck(s: NodeState, cast: Option<Vote>, m: Scan): Outcome {
    var v := Decided(m, s.required);
    if v != "" then Done(HandleNextPeriod(s, v), cast, None) else Done(s, cast, None)
  }

  function CastSoft(me: Id, s: NodeState, v: Value): Outcome {
    Done(s.(cur := s.cur.(soft := Bump(s.cur.soft, v), haveSoft := s.cur.haveSoft[me := v])),
         Some(Vote(me, s.round, s.period, SoftSlot, v)), None)
  }

  function WithCert(me: Id, s: NodeState, v: Value): NodeState {
    if v == "" then s
    else s.(cur := s.cur.(cert := Bump(s.cur.cert, v), haveCert := s.cur.haveCert[me := v], myCert := v))
  }

  function WithNext4(me: Id, s: NodeState, v: Value): NodeState {
    s.(cur := s.cur.(next := Bump(s.cur.next, v), have4 := s.cur.have4[me := v]))
  }

  function WithNext5(me: Id, s: NodeState, v: Value): NodeState {
    if v == "" then s
    else s.(cur := s.cur.(next := Bump(s.cur.next, v), have5 := s.cur.have5[me := v]))
  }

  function CastIf(me: Id, s: NodeState, slot: Slot, v: Value): Option<Vote> {
    if v == "" then None else Some(Vote(me, s.round, s.period, slot, v))
  }

  function Step2(env: Env, s: NodeState, last: Scan, leader: Id): Outcome {
    var s := s.(required := Threshold(s.committee));
    match RunStep2(s.cur.period, last, s.required)
    case VoteFor(v) => if v == "" then Quiet(s) else CastSoft(env.me, s, v)
    case FollowLeader =>
      var s := s.(cur := s.cur.(leader := leader));
      if leader !in s.cur.idToBlock then Crash
      else if s.cur.idToBlock[leader].hash == "" then Quiet(s)
      else CastSoft(env.me, s, s.cur.idToBlock[leader].hash)
  }

  function Step3Vote(env: Env, s: NodeState, soft: Scan): NodeState {
    WithCert(env.me, s, RunStep3(soft, s.required))
  }

  function Step4Vote(env: Env, s: NodeState, last: Scan): NodeState {
    WithNext4(env.me, s, RunStep4(s.cur, last, s.required))
  }

  function Step5Vote(env: Env, s: NodeState, soft: Scan, last: Scan): NodeState {
    WithNext5(env.me, s, RunStep5(s.cur, soft, last, s.required))
  }

  /** The results of the map iterations made while handling one event. */
  datatype Choices = Choices(last: Scan, soft: Scan, cert: Scan, next: Scan, leader: Id)

  datatype Event =
    | RoundTimer(ch: Choices, keys: seq<int>, txs: seq<Tx>, timestamp: string,
                 potentialLeader: bool, sig: string, nextSeed: string)
    | AgreementTimer(ch: Choices)
    | ReceiveVote(m: VoteMsg, ch: Choices)
    | ReceiveProposal(p: Proposal)
    | AppendTransaction(tx: Tx)
    | AppendBlock(blocks: seq<Option<Block>>)
    | NoticeFinal(peer: Id, value: Value)
    | ChainSync(blocks: seq<Option<Block>>, seed: string)

  /** The round timer: execute buffered proposals, run step 1, propose if the lottery says so. */
  function OnRoundTimer(env: Env, s: NodeState, e: Event): Outcome
    requires e.RoundTimer?
  {
    if !s.ready then Quiet(s)
    else
      var r := ExecuteAll(env, s, s.buffer);
      if r.None? then Crash
      else
        var s := r.value.(buffer := [], ready := false);
        var v := RunStep1(s.period, e.ch.last, s.required);
        if v == "err" || !HasTip(s) then Crash
        else if v != "" && v !in s.last.valueToBlock then Crash
        else
          var b := if v == "" then PreparedBlock(env, Tip(s), e.txs, e.timestamp) else s.last.valueToBlock[v];
          var s := if v == "" then s.(pool := Unspent(s.pool, Tip(s))) else s;
          if e.potentialLeader then Quiet(AddOwnProposal(env, s, b, e.sig, e.nextSeed)) else Quiet(s)
  }

  function AddOwnProposal(env: Env, s: NodeState, b: Block, sig: string, nextSeed: string): NodeState {
    s.(isCommittee := true,
       cur := s.cur.(
         sigLeaderToId := s.cur.sigLeaderToId[sig := env.me],
         idToBlock := s.cur.idToBlock[env.me := b],
         valueToSeed := s.cur.valueToSeed[HashOf(env, b) := nextSeed],
         valueToBlock := s.cur.valueToBlock[HashOf(env, b) := b]))
  }

  function NextStep(s: NodeState): NodeState { if s.step < 5 then s.(step := s.step + 1) else s }

  /** The agreement timer: advance the step and vote. */
  function OnAgreementTimer(env: Env, s: NodeState, ch: Choices): Outcome {
    if s.ready then Quiet(s)
    else if !s.isCommittee then Quiet(s.(cur := s.cur.(leader := ch.leader)))
    else
      var s := NextStep(s);
      if s.step == 2 && env.me !in s.cur.haveSoft then
        Step2(env, s, ch.last, ch.leader)
      else if s.step == 3 && env.me !in s.cur.haveCert then
        HaltCheck(Step3Vote(env, s, ch.soft),
                  CastIf(env.me, s, CertSlot, RunStep3(ch.soft, s.required)), ch.cert)
      else if s.step == 4 && env.me !in s.cur.have4 then
        NextCheck(Step4Vote(env, s, ch.last),
                  Some(Vote(env.me, s.round, s.period, Next4Slot, RunStep4(s.cur, ch.last, s.required))), ch.next)
      else if s.step == 5 && env.me !in s.cur.have5 then
        NextCheck(Step5Vote(env, s, ch.soft, ch.last),
                  CastIf(env.me, s, Next5Slot, RunStep5(s.cur, ch.soft, ch.last, s.required)), ch.next)
      else Quiet(s)
  }

  /** A counter gains the vote if the vote names the counter's period. */
  function CountIf(named: bool, t: Counter, v: Value): Counter { if named then Bump(t, v) else t }

  /** A vote counts in the period it names; the have-voted map that records it is always the current one. */
  function TakeSoft(s: NodeState, m: VoteMsg): NodeState {
    s.(cur := s.cur.(soft := CountIf(m.period == s.cur.period, s.cur.soft, m.value),
                     haveSoft := s.cur.haveSoft[m.peer := m.value]),
       last := s.last.(soft := CountIf(m.period != s.cur.period && m.period == s.last.period, s.last.soft, m.value)))
  }

  function TakeCert(s: NodeState, m: VoteMsg): NodeState {
    s.(cur := s.cur.(cert := CountIf(m.period == s.cur.period, s.cur.cert, m.value),
                     haveCert := s.cur.haveCert[m.peer := m.value]),
       last := s.last.(cert := CountIf(m.period != s.cur.period && m.period == s.last.period, s.last.cert, m.value)))
  }

  function TakeNext(s: NodeState, m: VoteMsg): NodeState {
    s.(cur := s.cur.(next := CountIf(m.period == s.cur.period, s.cur.next, m.value),
                     have4 := if m.step == 4 then s.cur.have4[m.peer := m.value] else s.cur.have4,
                     have5 := if m.step == 4 then s.cur.have5 else s.cur.have5[m.peer := m.value]),
       last := s.last.(next := CountIf(m.period != s.cur.period && m.period == s.last.period, s.last.next, m.value)))
  }

  function OnVote(s: NodeState, m: VoteMsg, ch: Choices): Outcome {
    if m.round > s.round || !VerifyVote(s, m) then Quiet(s)
    else
      match m.kind
      case Soft => if m.peer in s.cur.haveSoft then Quiet(s) else Quiet(TakeSoft(s, m))
      case Cert => if m.peer in s.cur.haveCert then Quiet(s) else HaltCheck(TakeCert(s, m), None, ch.cert)
      case Next => if m.peer in s.cur.have4 && m.peer in s.cur.have5 then Quiet(s)
                   else NextCheck(TakeNext(s, m), None, ch.next)
      case Other => Quiet(s)
  }

  function OnProposal(env: Env, s: NodeState, p: Proposal): Outcome {
    if p.round > s.round + 1 then Quiet(s)
    else if p.round == s.round + 1 || p.period == s.period + 1 then Quiet(s.(buffer := s.buffer + [p]))
    else
      var r := ExecuteProposal(env, s, p);
      if r.None? then Crash else Quiet(r.value)
  }

  /** A longer chain from a peer restarts agreement in the round that its length names. */
  function OnChainSync(s: NodeState, blocks: seq<Option<Block>>, seed: string): NodeState {
    if |blocks| <= |s.chain| then s
    else s.(chain := blocks, ready := true, round := |blocks|, last := InitPeriod(0), period := 1, step := 1,
            seed := seed, cur := InitPeriod(1).(starting := BOTTOM))
  }

  function Step(env: Env, s: NodeState, e: Event): Outcome {
    match e
    case RoundTimer(_, _, _, _, _, _, _) => OnRoundTimer(env, s, e)
    case AgreementTimer(ch) => OnAgreementTimer(env, s, ch)
    case ReceiveVote(m, ch) => OnVote(s, m, ch)
    case ReceiveProposal(p) => OnProposal(env, s, p)
    case AppendTransaction(tx) => Quiet(s.(pool := s.pool[tx.id := tx]))
    case AppendBlock(blocks) => Quiet(if |blocks| > |s.chain| then s.(chain := blocks) else s)
    case NoticeFinal(peer, v) => if peer != s.cur.leader then Quiet(s) else Quiet(HandleHalt(s, BlockFor(s, v), v))
    case ChainSync(blocks, seed) => Quiet(OnChainSync(s, blocks, seed))
  }

  /** The node takes part in voting. */
  predicate Votes(s: NodeState) { !s.ready && s.isCommittee }

  /** The agreement timer elects a leader: outside the committee, or to cast a soft vote without a quorum to follow. */
  predicate LooksForLeader(env: Env, s: NodeState, last: Scan) {
    && !s.ready
    && (s.isCommittee ==>
          && NextStep(s).step == 2 && env.me !in s.cur.haveSoft
          && RunStep2(s.cur.period, last, Threshold(s.committee)).FollowLeader?)
  }

  /** The choices in the agreement timer's event are results the map iterations can produce. */
  ghost predicate TimerChoices(env: Env, s: NodeState, ch: Choices) {
    && IsMax(s.last.next, ch.last)
    && IsMax(s.cur.soft, ch.soft)
    && (LooksForLeader(env, s, ch.last) ==> IsLeader(s.cur.sigLeaderToId, ch.leader))
    && (Votes(s) ==>
          var t := NextStep(s);
          && (t.step == 3 && env.me !in t.cur.haveCert ==> IsMax(Step3Vote(env, t, ch.soft).cur.cert, ch.cert))
          && (t.step == 4 && env.me !in t.cur.have4 ==> IsMax(Step4Vote(env, t, ch.last).cur.next, ch.next))
          && (t.step == 5 && env.me !in t.cur.have5 ==> IsMax(Step5Vote(env, t, ch.soft, ch.last).cur.next, ch.next)))
  }

  ghost predicate VoteChoices(s: NodeState, m: VoteMsg, ch: Choices) {
    && (m.kind == Cert ==> IsMax(TakeCert(s, m).cur.cert, ch.cert))
    && (m.kind == Next ==> IsMax(TakeNext(s, m).cur.next, ch.next))
  }

  /** The round timer prepares a block of its own. */
  predicate PreparesBlock(env: Env, s: NodeState, last: Scan) {
    && s.ready && HasTip(s) && RunStep1(s.period, last, s.required) == ""
    && ExecuteAll(env, s, s.buffer).Some?
  }

  ghost predicate Enabled(env: Env, s: NodeState, e: Event) {
    match e
    case RoundTimer(ch, keys, txs, _, _, _, _) =>
      && IsMax(s.last.next, ch.last)
      && (PreparesBlock(env, s, ch.last) ==> ValidSelection(Unspent(s.pool, Tip(s)), keys, txs))
    case AgreementTimer(ch) => TimerChoices(env, s, ch)
    case ReceiveVote(m, ch) => VoteChoices(s, m, ch)
    case _ => true
  }

  function Genesis(env: Env): Block {
    var b := Block(0, "The first year of creation", [], "", "");
    b.(hash := HashOf(env, b))
  }

  function Initial(env: Env, seed: string): NodeState {
    NodeState(1, 1, 1, true, [], false, 0, seed, InitPeriod(1).(starting := BOTTOM), InitPeriod(0),
              [Some(Genesis(env))], map[], [])
  }
}
