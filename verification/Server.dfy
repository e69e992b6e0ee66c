/**
 The service loop in the form the code has: an object whose methods, one per `select` case,
 update its fields in place and scan maps with loops. Each method is proved to do what the
 matching function of module Node does, for the iteration orders that its loops happened to take.
 */
module Server {
  import opened Wrappers
  import opened Tally
  import opened Node
  import opened NodeRuns

  /** Some iteration order always gives a result. */
  lemma MaxExists(t: Counter) returns (m: Scan)
    ensures IsMax(t, m)
  {
    var order := Enumerate(t.Keys);
    ScanAlongIsMax(t, order);
    m := ScanAlong(t, order);
  }

  // ------------------------------------------------------- server/agreement.go

  method DecideStep1(period: int, lastNext: Counter, required: nat) returns (v: Value)
    ensures exists m :: IsMax(lastNext, m) && v == RunStep1(period, m, required)
  {
    var scan := NO_SCAN;
    ghost var m := MaxExists(lastNext);
    if period > 1 {
      scan := MaxScan(lastNext);
      m := scan;
    }
    if period == 1 || (scan.value == BOTTOM && scan.votes >= required) {
      v := "";
    } else if scan.value != BOTTOM && scan.votes >= required {
      v := scan.value;
    } else {
      v := "err";
    }
    assert v == RunStep1(period, m, required);
  }

  /** Step 2 up to the leader lookup: whether to follow the leader, and otherwise the value. */
  method DecideStep2(period: int, lastNext: Counter, required: nat) returns (follow: bool, v: Value)
    ensures exists m :: IsMax(lastNext, m) && RunStep2(period, m, required) == if follow then FollowLeader else VoteFor(v)
  {
    var scan := NO_SCAN;
    ghost var m := MaxExists(lastNext);
    if period > 1 {
      scan := MaxScan(lastNext);
      m := scan;
    }
    follow, v := false, "";
    if period == 1 || (scan.value == BOTTOM && scan.votes >= required) {
      follow := true;
    } else if scan.value != BOTTOM && scan.votes >= required {
      v := scan.value;
    }
    assert RunStep2(period, m, required) == if follow then FollowLeader else VoteFor(v);
  }

  method DecideStep3(soft: Counter, required: nat) returns (v: Value)
    ensures exists m :: IsMax(soft, m) && v == RunStep3(m, required)
  {
    var scan := MaxScan(soft);
    v := if scan.value != BOTTOM && scan.votes >= required then scan.value else "";
  }

  method DecideStep4(cur: PeriodState, lastNext: Counter, required: nat) returns (v: Value)
    ensures exists m :: IsMax(lastNext, m) && v == RunStep4(cur, m, required)
  {
    var scan := NO_SCAN;
    ghost var m := MaxExists(lastNext);
    if cur.period > 1 {
      scan := MaxScan(lastNext);
      m := scan;
    }
    if cur.myCert != "" {
      v := cur.myCert;
    } else if cur.period >= 2 && scan.value == BOTTOM && scan.votes >= required {
      v := BOTTOM;
    } else {
      v := cur.starting;
    }
    assert v == RunStep4(cur, m, required);
  }

  method DecideStep5(cur: PeriodState, lastNext: Counter, required: nat) returns (v: Value)
    ensures exists soft, last :: IsMax(cur.soft, soft) && IsMax(lastNext, last) && v == RunStep5(cur, soft, last, required)
  {
    var scan := MaxScan(cur.soft);
    ghost var soft := scan;
    ghost var last := MaxExists(lastNext);
    v := "";
    if scan.value != BOTTOM && scan.votes >= required {
      v := scan.value;
    } else if cur.period > 1 {
      scan := MaxScan(lastNext);
      last := scan;
      if scan.value == BOTTOM && scan.votes >= required && cur.myCert == "" {
        v := BOTTOM;
      }
    }
    assert IsMax(cur.soft, soft) && IsMax(lastNext, last) && v == RunStep5(cur, soft, last, required);
  }

  /** The halting and next-period conditions. */
  method CheckCondition(t: Counter, required: nat) returns (v: Value)
    ensures exists m :: IsMax(t, m) && v == Decided(m, required)
  {
    var scan := MaxScan(t);
    v := if scan.votes >= required then scan.value else "";
  }

  // ------------------------------------------------------------ server/util.go

  /** The next key of an iteration. */
  method PickKey<T(==)>(keys: set<T>) returns (k: T)
    requires keys != {}
    ensures k in keys
  {
    k :| k in keys;
  }

  /** Transactions are drawn in map order: all of them, or the first thousand of a full pool. */
  method SelectTransactions(pool: map<int, Tx>) returns (txs: seq<Tx>)
    ensures exists keys :: ValidSelection(pool, keys, txs)
  {
    txs := [];
    ghost var keys := [];
    var limit := if |pool| < BLOCK_SIZE then |pool| else 1000;
    var remaining := pool.Keys;
    while |txs| < limit
      invariant remaining <= pool.Keys && |keys| == |txs| <= limit <= |pool|
      invariant |remaining| == |pool.Keys| - |txs| && |pool.Keys| == |pool|
      invariant forall i :: 0 <= i < |keys| ==> keys[i] in pool && keys[i] !in remaining && pool[keys[i]] == txs[i]
      invariant forall i, j :: 0 <= i < j < |keys| ==> keys[i] != keys[j]
    {
      var k := PickKey(remaining);
      txs, keys := txs + [pool[k]], keys + [k];
      remaining := remaining - {k};
    }
    assert ValidSelection(pool, keys, txs);
  }

  /** Delete the transactions of the last block from the pool. */
  method DropIds(pool: map<int, Tx>, txs: seq<Tx>) returns (rest: map<int, Tx>)
    ensures rest == pool - Ids(txs)
  {
    rest := pool;
    var i := 0;
    while i < |txs|
      invariant 0 <= i <= |txs|
      invariant rest == pool - Ids(txs[..i])
    {
      assert Ids(txs[..i + 1]) == Ids(txs[..i]) + {txs[i].id} by {
        assert forall j :: 0 <= j < i ==> txs[..i + 1][j] == txs[..i][j];
        assert txs[..i + 1][i] == txs[i];
      }
      rest := rest - {txs[i].id};
      i := i + 1;
    }
    assert txs[..i] == txs;
  }

  /** What reaches the service loop from outside: timers, messages, replies. */
  datatype Input =
    | RoundTick(timestamp: string, potentialLeader: bool, sig: string, nextSeed: string)
    | AgreementTick
    | VoteIn(m: VoteMsg)
    | ProposalIn(p: Proposal)
    | TransactionIn(tx: Tx)
    | BlocksIn(blocks: seq<Option<Block>>)
    | NoticeIn(peer: Id, value: Value)
    | ChainIn(blocks: seq<Option<Block>>, seed: string)

  /** What handling one input does to a valid peer: it never goes back, and a vote it sends is the first in its slot. */
  ghost predicate Progress(me: Id, s: NodeState, t: NodeState, before: set<Vote>, after: set<Vote>, cast: Option<Vote>) {
    && NodeInv(me, t, after) && Advances(s, t) && after == With(before, cast)
    && (cast.Some? ==> cast.value.voter == me && FirstOfItsSlot(before, cast.value))
  }

  /** A peer: the struct that the service loop works on, updated field by field; `casts` are the votes it has sent. */
  class Peer {
    const env: Env
    var state: NodeState
    ghost var casts: set<Vote>

    /** The counters fit together, every vote sent is remembered, and a ready peer has a quorum behind it. */
    ghost predicate Valid()
      reads this
    {
      NodeInv(env.me, state, casts)
    }

    constructor (env: Env, seed: string)
      ensures this.env == env && state == Initial(env, seed) && casts == {} && Valid()
    {
      this.env := env;
      casts := {};
      state := NodeState(1, 1, 1, true, [], false, 0, seed, InitPeriod(1), InitPeriod(0), [Some(Genesis(env))], map[], []);
      new;
      state := state.(cur := state.cur.(starting := BOTTOM));
    }

    method HandleHaltOn(b: Option<Block>, v: Value)
      modifies this`state
      ensures state == HandleHalt(old(state), b, v)
    {
      state := state.(chain := state.chain + [b]);
      state := state.(seed := if v in state.cur.valueToSeed then state.cur.valueToSeed[v] else "");
      state := state.(ready := true, round := state.round + 1);
      state := state.(last := InitPeriod(0), period := 1, step := 1);
      state := state.(cur := InitPeriod(state.period));
      state := state.(cur := state.cur.(starting := BOTTOM));
      state := state.(committee := [], isCommittee := false);
    }

    method HandleNextPeriodWith(v: Value)
      modifies this`state
      ensures state == HandleNextPeriod(old(state), v)
    {
      state := state.(period := state.period + 1, step := 1);
      state := state.(last := state.cur);
      state := state.(cur := InitPeriod(state.period));
      if v != BOTTOM {
        state := state.(cur := state.cur.(starting := v));
      }
      state := state.(ready := true);
    }

    method CheckHalt() returns (halt: Option<Value>, ghost m: Scan)
      modifies this`state
      ensures IsMax(old(state).cur.cert, m)
      ensures forall c :: HaltCheck(old(state), c, m) == Done(state, c, halt)
    {
      var v := CheckCondition(state.cur.cert, state.required);
      m :| IsMax(state.cur.cert, m) && v == Decided(m, state.required);
      halt := None;
      if v != "" {
        HandleHaltOn(if v in state.cur.valueToBlock then Some(state.cur.valueToBlock[v]) else None, v);
        halt := Some(v);
      }
    }

    method CheckNext() returns (ghost m: Scan)
      modifies this`state
      ensures IsMax(old(state).cur.next, m)
      ensures forall c :: NextCheck(old(state), c, m) == Done(state, c, None)
    {
      var v := CheckCondition(state.cur.next, state.required);
      m :| IsMax(state.cur.next, m) && v == Decided(m, state.required);
      if v != "" {
        HandleNextPeriodWith(v);
      }
    }

    method Execute(p: Proposal) returns (crashed: bool)
      modifies this`state
      ensures ExecuteProposal(env, old(state), p) == if crashed then None else Some(state)
    {
      crashed := false;
      if p.proposer in state.cur.idToBlock {
        return;
      }
      if !HasTip(state) {
        crashed := true;
        return;
      }
      if VerifyProposal(env, state, Tip(state).hash, p) && VerifyTransactions(state.pool, p.block.txs) {
        state := state.(committee := state.committee + [p.proposer]);
        state := state.(cur := state.cur.(sigLeaderToId := state.cur.sigLeaderToId[p.sig := p.proposer]));
        state := state.(cur := state.cur.(idToBlock := state.cur.idToBlock[p.proposer := p.block]));
        state := state.(cur := state.cur.(valueToSeed := state.cur.valueToSeed[p.value := p.nextSeed]));
        state := state.(cur := state.cur.(valueToBlock := state.cur.valueToBlock[p.value := p.block]));
      }
    }

    /** Execute the buffered proposals in order. */
    method ExecuteBuffered() returns (crashed: bool)
      modifies this`state
      ensures ExecuteAll(env, old(state), old(state).buffer) == if crashed then None else Some(state)
    {
      hide ExecuteProposal;
      var ps := state.buffer;
      var i := 0;
      crashed := false;
      assert ps[0..] == ps;
      while i < |ps|
        invariant 0 <= i <= |ps|
        invariant ExecuteAll(env, old(state), ps) == ExecuteAll(env, state, ps[i..])
      {
        assert ps[i..][0] == ps[i] && ps[i..][1..] == ps[i + 1..];
        crashed := Execute(ps[i]);
        if crashed {
          return;
        }
        i := i + 1;
      }
      crashed := false;
    }

    method PrepareOwnBlock(timestamp: string) returns (b: Block, ghost keys: seq<int>, ghost txs: seq<Tx>)
      requires HasTip(state)
      modifies this`state
      ensures state == old(state).(pool := Unspent(old(state).pool, Tip(old(state)))) && ValidSelection(state.pool, keys, txs)
      ensures b == PreparedBlock(env, Tip(old(state)), txs, timestamp)
    {
      var tip := Tip(state);
      var pool := DropIds(state.pool, tip.txs);
      state := state.(pool := pool);
      var selected := SelectTransactions(pool);
      keys :| ValidSelection(pool, keys, selected);
      txs := selected;
      b := Block(tip.id + 1, timestamp, selected, tip.hash, "");
      b := b.(hash := HashOf(env, b));
    }

    /** The round timer. */
    method FireRoundTimer(timestamp: string, potentialLeader: bool, sig: string, nextSeed: string)
      returns (crashed: bool, ghost e: Event)
      requires Valid()
      modifies this`state
      ensures !crashed ==> Kept(env.me, old(state), Quiet(state), casts)
      ensures e.RoundTimer? && Enabled(env, old(state), e)
      ensures OnRoundTimer(env, old(state), e) == if crashed then Crash else Quiet(state)
    {
      hide ValidSelection, ExecuteAll, RunStep1, AddOwnProposal, PreparedBlock, Unspent, NodeInv, Kept;
      forall e: Event | e.RoundTimer? ensures Kept(env.me, state, OnRoundTimer(env, state, e), casts) {
        RoundTimerKeeps(env, state, e, casts);
      }
      ghost var m := MaxExists(state.last.next);
      ghost var before := state;
      ghost var ch := Choices(m, NO_SCAN, NO_SCAN, NO_SCAN, "");
      e := RoundTimer(ch, [], [], timestamp, potentialLeader, sig, nextSeed);
      crashed := false;
      if !state.ready {
        assert OnRoundTimer(env, old(state), e) == Quiet(state);
        return;
      }
      crashed := ExecuteBuffered();
      if crashed {
        return;
      }
      ExecuteAllFrame(env, before, before.buffer);
      state := state.(buffer := [], ready := false);
      var v := DecideStep1(state.period, state.last.next, state.required);
      m :| IsMax(state.last.next, m) && v == RunStep1(state.period, m, state.required);
      ch := ch.(last := m);
      e := RoundTimer(ch, [], [], timestamp, potentialLeader, sig, nextSeed);
      if v == "err" || !HasTip(state) || (v != "" && v !in state.last.valueToBlock) {
        crashed := true;
        return;
      }
      var b;
      if v == "" {
        ghost var keys, txs;
        b, keys, txs := PrepareOwnBlock(timestamp);
        e := RoundTimer(ch, keys, txs, timestamp, potentialLeader, sig, nextSeed);
      } else {
        b := state.last.valueToBlock[v];
      }
      if potentialLeader {
        Propose(b, sig, nextSeed);
      }
      assert OnRoundTimer(env, old(state), e) == Quiet(state);
    }

    /** Enter the node's own proposal in the indexes. */
    method Propose(b: Block, sig: string, nextSeed: string)
      modifies this`state
      ensures state == AddOwnProposal(env, old(state), b, sig, nextSeed)
    {
      var h := HashOf(env, b);
      state := state.(isCommittee := true);
      state := state.(cur := state.cur.(sigLeaderToId := state.cur.sigLeaderToId[sig := env.me]));
      state := state.(cur := state.cur.(idToBlock := state.cur.idToBlock[env.me := b]));
      state := state.(cur := state.cur.(valueToSeed := state.cur.valueToSeed[h := nextSeed]));
      state := state.(cur := state.cur.(valueToBlock := state.cur.valueToBlock[h := b]));
    }

    /** Step 2: set the threshold and cast a soft vote. */
    method VoteSoft() returns (crashed: bool, cast: Option<Vote>, ghost m: Scan, ghost leader: Id)
      modifies this`state
      ensures IsMax(old(state).last.next, m)
      ensures RunStep2(old(state).cur.period, m, Threshold(old(state).committee)).FollowLeader? ==>
                IsLeader(old(state).cur.sigLeaderToId, leader)
      ensures Step2(env, old(state), m, leader) == if crashed then Crash else Done(state, cast, None)
      ensures cast.Some? ==> cast.value.voter == env.me
    {
      hide IsMax, IsLeader;
      crashed, cast, leader := false, None, "";
      var t := (|state.committee| + 1) / 3;
      state := state.(required := 2 * t + 1);
      var follow, v := DecideStep2(state.cur.period, state.last.next, state.required);
      m :| IsMax(state.last.next, m) && RunStep2(state.cur.period, m, state.required) == if follow then FollowLeader else VoteFor(v);
      if follow {
        var elected := SelectLeader(state.cur.sigLeaderToId);
        leader := elected;
        state := state.(cur := state.cur.(leader := elected));
        if elected !in state.cur.idToBlock {
          crashed := true;
          return;
        }
        v := state.cur.idToBlock[elected].hash;
      }
      if v != "" {
        state := state.(cur := state.cur.(soft := Bump(state.cur.soft, v)));
        state := state.(cur := state.cur.(haveSoft := state.cur.haveSoft[env.me := v]));
        cast := Some(Vote(env.me, state.round, state.period, SoftSlot, v));
      }
    }

    /** Step 3: cast a cert vote. */
    method VoteCert() returns (cast: Option<Vote>, ghost m: Scan)
      modifies this`state
      ensures IsMax(old(state).cur.soft, m) && state == Step3Vote(env, old(state), m)
      ensures cast == CastIf(env.me, old(state), CertSlot, RunStep3(m, old(state).required))
    {
      var v := DecideStep3(state.cur.soft, state.required);
      m :| IsMax(state.cur.soft, m) && v == RunStep3(m, state.required);
      cast := None;
      if v != "" {
        state := state.(cur := state.cur.(cert := Bump(state.cur.cert, v)));
        state := state.(cur := state.cur.(haveCert := state.cur.haveCert[env.me := v], myCert := v));
        cast := Some(Vote(env.me, state.round, state.period, CertSlot, v));
      }
    }

    /** Step 4: cast a next vote, possibly an empty one. */
    method VoteNext4() returns (cast: Option<Vote>, ghost m: Scan)
      modifies this`state
      ensures IsMax(old(state).last.next, m) && state == Step4Vote(env, old(state), m)
      ensures cast == Some(Vote(env.me, old(state).round, old(state).period, Next4Slot,
                                RunStep4(old(state).cur, m, old(state).required)))
    {
      var v := DecideStep4(state.cur, state.last.next, state.required);
      m :| IsMax(state.last.next, m) && v == RunStep4(state.cur, m, state.required);
      state := state.(cur := state.cur.(next := Bump(state.cur.next, v)));
      state := state.(cur := state.cur.(have4 := state.cur.have4[env.me := v]));
      cast := Some(Vote(env.me, state.round, state.period, Next4Slot, v));
    }

    /** Step 5: cast a next vote if there is something to vote for. */
    method VoteNext5() returns (cast: Option<Vote>, ghost soft: Scan, ghost m: Scan)
      modifies this`state
      ensures IsMax(old(state).cur.soft, soft) && IsMax(old(state).last.next, m)
      ensures state == Step5Vote(env, old(state), soft, m)
      ensures cast == CastIf(env.me, old(state), Next5Slot, RunStep5(old(state).cur, soft, m, old(state).required))
    {
      var v := DecideStep5(state.cur, state.last.next, state.required);
      soft, m :| IsMax(state.cur.soft, soft) && IsMax(state.last.next, m) && v == RunStep5(state.cur, soft, m, state.required);
      cast := None;
      if v != "" {
        state := state.(cur := state.cur.(next := Bump(state.cur.next, v)));
        state := state.(cur := state.cur.(have5 := state.cur.have5[env.me := v]));
        cast := Some(Vote(env.me, state.round, state.period, Next5Slot, v));
      }
    }

    /** The agreement timer. */
    method FireAgreementTimer() returns (crashed: bool, cast: Option<Vote>, halt: Option<Value>, ghost ch: Choices)
      requires Valid()
      modifies this`state
      ensures !crashed ==> Kept(env.me, old(state), Done(state, cast, halt), casts)
      ensures cast.Some? ==> cast.value.voter == env.me
      ensures TimerChoices(env, old(state), ch)
      ensures OnAgreementTimer(env, old(state), ch) == if crashed then Crash else Done(state, cast, halt)
    {
      hide Step2, Step3Vote, Step4Vote, Step5Vote, HaltCheck, NextCheck, RunStep2, RunStep3, RunStep4, RunStep5, IsMax, IsLeader, NodeInv, Kept;
      forall c: Choices | TimerChoices(env, state, c) ensures Kept(env.me, state, OnAgreementTimer(env, state, c), casts) {
        TimerKeeps(env, state, c, casts);
      }
      ghost var m := MaxExists(state.last.next);
      ghost var soft := MaxExists(state.cur.soft);
      ghost var check: Scan;
      ghost var elected: Id := "";
      ch := Choices(m, soft, NO_SCAN, NO_SCAN, "");
      crashed, cast, halt := false, None, None;
      if state.ready {
        assert OnAgreementTimer(env, old(state), ch) == Quiet(state);
        return;
      }
      if !state.isCommittee {
        var leader := SelectLeader(state.cur.sigLeaderToId);
        ch := ch.(leader := leader);
        state := state.(cur := state.cur.(leader := leader));
        assert OnAgreementTimer(env, old(state), ch) == Quiet(state);
        return;
      }
      if state.step < 5 {
        state := state.(step := state.step + 1);
      }
      if state.step == 2 && env.me !in state.cur.haveSoft {
        crashed, cast, m, elected := VoteSoft();
        ch := ch.(last := m, leader := elected);
      } else if state.step == 3 && env.me !in state.cur.haveCert {
        cast, soft := VoteCert();
        halt, check := CheckHalt();
        ch := ch.(soft := soft, cert := check);
      } else if state.step == 4 && env.me !in state.cur.have4 {
        cast, m := VoteNext4();
        check := CheckNext();
        ch := ch.(last := m, next := check);
      } else if state.step == 5 && env.me !in state.cur.have5 {
        cast, soft, m := VoteNext5();
        check := CheckNext();
        ch := ch.(soft := soft, last := m, next := check);
      }
      assert TimerChoices(env, old(state), ch);
      assert OnAgreementTimer(env, old(state), ch) == if crashed then Crash else Done(state, cast, halt);
    }

    /** A vote from a peer. */
    method ReceiveVoteFrom(m: VoteMsg) returns (halt: Option<Value>, ghost ch: Choices)
      requires Valid()
      modifies this`state
      ensures Kept(env.me, old(state), Done(state, None, halt), casts)
      ensures VoteChoices(old(state), m, ch)
      ensures OnVote(old(state), m, ch) == Done(state, None, halt)
    {
      hide HaltCheck, NextCheck, NodeInv, Kept;
      forall c: Choices | VoteChoices(state, m, c) ensures Kept(env.me, state, OnVote(state, m, c), casts) {
        VoteKeeps(env.me, state, m, c, casts);
      }
      halt := None;
      ch := Choices(NO_SCAN, NO_SCAN, NO_SCAN, NO_SCAN, "");
      ghost var check := MaxExists(TakeCert(state, m).cur.cert);
      ch := ch.(cert := check);
      check := MaxExists(TakeNext(state, m).cur.next);
      ch := ch.(next := check);
      if m.round > state.round || !VerifyVote(state, m) {
        assert OnVote(old(state), m, ch) == Quiet(state);
        return;
      }
      match m.kind {
      case Soft =>
        if m.peer !in state.cur.haveSoft {
          CountVote(m);
        }
      case Cert =>
        if m.peer !in state.cur.haveCert {
          CountVote(m);
          halt, check := CheckHalt();
          ch := ch.(cert := check);
        }
      case Next =>
        if m.peer !in state.cur.have4 || m.peer !in state.cur.have5 {
          CountVote(m);
          check := CheckNext();
          ch := ch.(next := check);
        }
      case Other =>
      }
      assert OnVote(old(state), m, ch) == Done(state, None, halt);
    }

    /** Count a vote in the period it names and record its voter. */
    method CountVote(m: VoteMsg)
      requires m.kind != Other
      modifies this`state
      ensures state == match m.kind
                       case Soft => TakeSoft(old(state), m)
                       case Cert => TakeCert(old(state), m)
                       case _ => TakeNext(old(state), m)
    {
      if m.kind == Soft {
        if m.period == state.cur.period {
          state := state.(cur := state.cur.(soft := Bump(state.cur.soft, m.value)));
        } else if m.period == state.last.period {
          state := state.(last := state.last.(soft := Bump(state.last.soft, m.value)));
        }
        state := state.(cur := state.cur.(haveSoft := state.cur.haveSoft[m.peer := m.value]));
      } else if m.kind == Cert {
        if m.period == state.cur.period {
          state := state.(cur := state.cur.(cert := Bump(state.cur.cert, m.value)));
        } else if m.period == state.last.period {
          state := state.(last := state.last.(cert := Bump(state.last.cert, m.value)));
        }
        state := state.(cur := state.cur.(haveCert := state.cur.haveCert[m.peer := m.value]));
      } else {
        if m.period == state.cur.period {
          state := state.(cur := state.cur.(next := Bump(state.cur.next, m.value)));
        } else if m.period == state.last.period {
          state := state.(last := state.last.(next := Bump(state.last.next, m.value)));
        }
        if m.step == 4 {
          state := state.(cur := state.cur.(have4 := state.cur.have4[m.peer := m.value]));
        } else {
          state := state.(cur := state.cur.(have5 := state.cur.have5[m.peer := m.value]));
        }
      }
    }

    /** A proposal from a peer: too far ahead, buffered, or executed. */
    method ReceiveProposalFrom(p: Proposal) returns (crashed: bool)
      requires Valid()
      modifies this`state
      ensures !crashed ==> Kept(env.me, old(state), Quiet(state), casts)
      ensures OnProposal(env, old(state), p) == if crashed then Crash else Quiet(state)
    {
      hide NodeInv, Kept;
      ProposalKeeps(env, state, p, casts);
      crashed := false;
      if p.round > state.round + 1 {
        return;
      } else if p.round == state.round + 1 || p.period == state.period + 1 {
        state := state.(buffer := state.buffer + [p]);
        return;
      }
      crashed := Execute(p);
    }

    /** A chain from a peer replaces a shorter one and restarts agreement, in a later round. */
    method SyncChain(blocks: seq<Option<Block>>, seed: string)
      requires Valid()
      modifies this`state
      ensures Kept(env.me, old(state), Quiet(state), casts)
      ensures |blocks| > |old(state).chain| ==> state.round > old(state).round
      ensures state == OnChainSync(old(state), blocks, seed)
    {
      hide Remembers, Advances;
      StayKeeps(env.me, state, state, casts);
      if |blocks| > |state.chain| {
        SyncKeeps(env.me, state, blocks, seed, casts);
        state := state.(chain := blocks);
        state := state.(ready := true, round := |state.chain|);
        state := state.(last := InitPeriod(0), period := 1, step := 1, seed := seed);
        state := state.(cur := InitPeriod(state.period));
        state := state.(cur := state.cur.(starting := BOTTOM));
      }
    }

    /** The leader's notice of the decided value is followed, whatever the tallies say. */
    method FollowNotice(peer: Id, v: Value)
      requires Valid()
      modifies this`state
      ensures Kept(env.me, old(state), Quiet(state), casts)
      ensures Step(env, old(state), NoticeFinal(peer, v)) == Quiet(state)
    {
      hide Remembers, Advances;
      StayKeeps(env.me, state, state, casts);
      NoticeKeeps(env.me, state, v, casts);
      if peer == state.cur.leader {
        HandleHaltOn(if v in state.cur.valueToBlock then Some(state.cur.valueToBlock[v]) else None, v);
      }
    }

    /** A pushed chain replaces a shorter one; the round does not change. */
    method ReplaceChain(blocks: seq<Option<Block>>)
      requires Valid()
      modifies this`state
      ensures Kept(env.me, old(state), Quiet(state), casts)
      ensures Step(env, old(state), AppendBlock(blocks)) == Quiet(state)
    {
      hide Remembers, Advances;
      if |blocks| > |state.chain| {
        state := state.(chain := blocks);
      }
      StayKeeps(env.me, old(state), state, casts);
    }

    method PoolTransaction(tx: Tx)
      requires Valid()
      modifies this`state
      ensures Kept(env.me, old(state), Quiet(state), casts)
      ensures Step(env, old(state), AppendTransaction(tx)) == Quiet(state)
    {
      hide Remembers, Advances;
      state := state.(pool := state.pool[tx.id := tx]);
      StayKeeps(env.me, old(state), state, casts);
    }

    /** One iteration of the service loop. */
    method Handle(input: Input) returns (crashed: bool, cast: Option<Vote>, halt: Option<Value>)
      requires Valid()
      modifies this
      ensures !crashed ==> Progress(env.me, old(state), state, old(casts), casts, cast)
    {
      hide NodeInv, Advances;
      crashed, cast, halt := false, None, None;
      ghost var e, ch;
      match input {
      case RoundTick(timestamp, potentialLeader, sig, nextSeed) => crashed, e := FireRoundTimer(timestamp, potentialLeader, sig, nextSeed);
      case AgreementTick => crashed, cast, halt, ch := FireAgreementTimer();
      case VoteIn(m) => halt, ch := ReceiveVoteFrom(m);
      case ProposalIn(p) => crashed := ReceiveProposalFrom(p);
      case TransactionIn(tx) => PoolTransaction(tx);
      case BlocksIn(blocks) => ReplaceChain(blocks);
      case NoticeIn(peer, value) => FollowNotice(peer, value);
      case ChainIn(blocks, seed) => SyncChain(blocks, seed);
      }
      casts := With(casts, cast);
    }

    /** The service loop on any inputs, up to a crash: of the votes it sends no two are for one slot of one period. */
    method Serve(inputs: seq<Input>) returns (votes: seq<Vote>)
      requires Valid()
      modifies this
      ensures forall i :: 0 <= i < |votes| ==> votes[i].voter == env.me && FirstOfItsSlot(old(casts), votes[i])
      ensures forall i, j :: 0 <= i < j < |votes| ==>
                !(votes[i].round == votes[j].round && votes[i].period == votes[j].period && votes[i].slot == votes[j].slot)
    {
      hide NodeInv, Advances;
      votes := [];
      for k := 0 to |inputs|
        invariant Valid() && casts == old(casts) + set i | 0 <= i < |votes| :: votes[i]
        invariant forall i :: 0 <= i < |votes| ==> votes[i].voter == env.me && FirstOfItsSlot(old(casts), votes[i])
        invariant forall i, j :: 0 <= i < j < |votes| ==>
                    !(votes[i].round == votes[j].round && votes[i].period == votes[j].period && votes[i].slot == votes[j].slot)
      {
        ghost var before := casts;
        var crashed, cast, halt := Handle(inputs[k]);
        if crashed { return; }
        if cast.Some? {
          assert forall i :: 0 <= i < |votes| ==> votes[i] in before;
          ghost var earlier := votes;
          votes := votes + [cast.value];
          assert forall v :: v in casts <==> v in old(casts) || exists i :: 0 <= i < |votes| && votes[i] == v by {
            assert forall i :: 0 <= i < |earlier| ==> votes[i] == earlier[i];
            assert votes[|earlier|] == cast.value;
          }
        }
      }
    }
  }
}
