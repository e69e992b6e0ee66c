/**
 What a node owes when a quorum is in front of it: the votes it must cast, the halts and new periods that must follow, and
 what a message may change. The laws speak of tallies and thresholds and of the outcome of the event alone.
 */
module Duties {
  import opened Wrappers
  import opened Tally
  import opened Node
  import opened NodeRuns

  /** The value has the quorum, and no other can have it too. */
  ghost predicate Wins(t: Counter, q: nat, v: Value) { v in t && t[v] >= q && 2 * q > Total(t) }

  /** No value has the quorum. */
  predicate NobodyWins(t: Counter, q: nat) { forall w :: w in t ==> t[w] < q }

  lemma WinnerScanned(t: Counter, q: nat, v: Value, m: Scan)
    requires Wins(t, q, v) && IsMax(t, m)
    ensures m == Scan(v, t[v])
  {
    QuorumScanUnique(t, q, v, m);
  }

  lemma LoserScanned(t: Counter, q: nat, m: Scan)
    requires NobodyWins(t, q) && IsMax(t, m)
    ensures m == NO_SCAN || m.votes < q
  {
  }

  // ------------------------------------------------------------------ step 2

  /**
   Step 2 past the first period: the block that closed the last period gets the soft vote, and nothing does when the closed
   tally no longer meets the threshold.
   */
  lemma SoftDue(env: Env, s: NodeState, ch: Choices, v: Value)
    requires Shape(s) && Votes(s) && s.step == 1 && env.me !in s.cur.haveSoft && Enabled(env, s, AgreementTimer(ch)) && s.period > 1
    ensures var o := Step(env, s, AgreementTimer(ch));
            var q := 2 * ((|s.committee| + 1) / 3) + 1;
            && (Wins(s.last.next, q, v) && v != "" && v != "_|_" ==> o.Done? && o.cast == Some(Vote(env.me, s.round, s.period, SoftSlot, v)))
            && (NobodyWins(s.last.next, q) ==> o.Done? && o.cast == None)
  {
    hide Total, IsLeader;
    var q := 2 * ((|s.committee| + 1) / 3) + 1;
    if Wins(s.last.next, q, v) { WinnerScanned(s.last.next, q, v, ch.last); }
    if NobodyWins(s.last.next, q) { LoserScanned(s.last.next, q, ch.last); }
  }

  /** In the first period, and when the last was closed with the empty value, the leader's block gets the soft vote. */
  lemma LeaderDue(env: Env, s: NodeState, ch: Choices)
    requires Shape(s) && Votes(s) && s.step == 1 && env.me !in s.cur.haveSoft && Enabled(env, s, AgreementTimer(ch))
    requires s.period == 1 || Wins(s.last.next, 2 * ((|s.committee| + 1) / 3) + 1, "_|_")
    ensures var o := Step(env, s, AgreementTimer(ch));
            && IsLeader(s.cur.sigLeaderToId, ch.leader)
            && if ch.leader !in s.cur.idToBlock then o.Crash?
               else var x := s.cur.idToBlock[ch.leader].hash;
                    && o.Done? && o.cast == (if x == "" then None else Some(Vote(env.me, s.round, s.period, SoftSlot, x)))
                    && o.s.cur.leader == ch.leader
  {
    hide Total, IsLeader, OnAgreementTimer, Enabled, IsMax;
    var q := 2 * ((|s.committee| + 1) / 3) + 1;
    TimerScan(env, s, ch);
    if Wins(s.last.next, q, "_|_") { WinnerScanned(s.last.next, q, "_|_", ch.last); }
    FollowsLeader(env, s, ch);
  }

  lemma TimerScan(env: Env, s: NodeState, ch: Choices)
    requires Enabled(env, s, AgreementTimer(ch))
    ensures IsMax(s.last.next, ch.last)
  {
  }

  lemma FollowsLeader(env: Env, s: NodeState, ch: Choices)
    requires Shape(s) && Votes(s) && s.step == 1 && env.me !in s.cur.haveSoft && Enabled(env, s, AgreementTimer(ch))
    requires RunStep2(s.cur.period, ch.last, Threshold(s.committee)) == FollowLeader
    ensures var o := OnAgreementTimer(env, s, ch);
            && IsLeader(s.cur.sigLeaderToId, ch.leader)
            && if ch.leader !in s.cur.idToBlock then o.Crash?
               else var x := s.cur.idToBlock[ch.leader].hash;
                    && o.Done? && o.cast == (if x == "" then None else Some(Vote(env.me, s.round, s.period, SoftSlot, x)))
                    && o.s.cur.leader == ch.leader
  {
    hide RunStep2, Threshold, IsLeader, IsMax;
  }

  // ------------------------------------------------------------------ step 3

  /** Step 3: a block with a soft quorum gets the cert vote; without a quorum there is none. */
  lemma CertDue(env: Env, s: NodeState, ch: Choices, v: Value)
    requires Shape(s) && Votes(s) && s.step == 2 && env.me !in s.cur.haveCert && Enabled(env, s, AgreementTimer(ch))
    ensures var o := Step(env, s, AgreementTimer(ch));
            && (Wins(s.cur.soft, s.required, v) && v != "" && v != "_|_" ==>
                  o.Done? && o.cast == Some(Vote(env.me, s.round, s.period, CertSlot, v)))
            && (NobodyWins(s.cur.soft, s.required) || Wins(s.cur.soft, s.required, "_|_") ==> o.Done? && o.cast == None)
  {
    hide Total, HandleHalt, HandleNextPeriod;
    if Wins(s.cur.soft, s.required, v) { WinnerScanned(s.cur.soft, s.required, v, ch.soft); }
    if Wins(s.cur.soft, s.required, "_|_") { WinnerScanned(s.cur.soft, s.required, "_|_", ch.soft); }
    if NobodyWins(s.cur.soft, s.required) { LoserScanned(s.cur.soft, s.required, ch.soft); }
  }

  // ------------------------------------------------------------------ steps 4 and 5

  /**
   Step 4 always casts a next vote: for the value of the cert vote; without one for the empty value if that closed the last
   period, and else for the value that this period started from.
   */
  lemma NextDue4(env: Env, s: NodeState, ch: Choices)
    requires Shape(s) && Votes(s) && s.step == 3 && env.me !in s.cur.have4 && Enabled(env, s, AgreementTimer(ch))
    ensures var o := Step(env, s, AgreementTimer(ch));
            && (s.cur.myCert != "" ==> o.Done? && o.cast == Some(Vote(env.me, s.round, s.period, Next4Slot, s.cur.myCert)))
            && (s.cur.myCert == "" && s.period > 1 && Wins(s.last.next, s.required, "_|_") ==>
                  o.Done? && o.cast == Some(Vote(env.me, s.round, s.period, Next4Slot, "_|_")))
            && (s.cur.myCert == "" && (s.period == 1 || Get(s.last.next, "_|_") < s.required) ==>
                  o.Done? && o.cast == Some(Vote(env.me, s.round, s.period, Next4Slot, s.cur.starting)))
  {
    hide Total, HandleHalt, HandleNextPeriod;
    if Wins(s.last.next, s.required, "_|_") { WinnerScanned(s.last.next, s.required, "_|_", ch.last); }
  }

  /**
   Step 5 casts a next vote for a block with a soft quorum; without one for the empty value if that closed the last period
   and no cert vote was cast; and else none.
   */
  lemma NextDue5(env: Env, s: NodeState, ch: Choices, v: Value)
    requires Shape(s) && Votes(s) && s.step == 4 && env.me !in s.cur.have5 && Enabled(env, s, AgreementTimer(ch))
    ensures var o := Step(env, s, AgreementTimer(ch));
            var soft := Wins(s.cur.soft, s.required, v) && v != "" && v != "_|_";
            var none := NobodyWins(s.cur.soft, s.required) && s.required > 0;
            && (soft ==> o.Done? && o.cast == Some(Vote(env.me, s.round, s.period, Next5Slot, v)))
            && (none && s.period > 1 && s.cur.myCert == "" && Wins(s.last.next, s.required, "_|_") ==>
                  o.Done? && o.cast == Some(Vote(env.me, s.round, s.period, Next5Slot, "_|_")))
            && (none && (s.period == 1 || s.cur.myCert != "" || Get(s.last.next, "_|_") < s.required) ==> o.Done? && o.cast == None)
  {
    hide Total, HandleHalt, HandleNextPeriod;
    if Wins(s.cur.soft, s.required, v) { WinnerScanned(s.cur.soft, s.required, v, ch.soft); }
    if Wins(s.last.next, s.required, "_|_") { WinnerScanned(s.last.next, s.required, "_|_", ch.last); }
    if NobodyWins(s.cur.soft, s.required) { LoserScanned(s.cur.soft, s.required, ch.soft); }
  }

  // ------------------------------------------------------------------ halting and closing

  /** Where a halt on `v` leaves a node: on the next round with the chain one longer and everything of the round forgotten. */
  ghost predicate HaltedOn(s: NodeState, t: NodeState, v: Value) {
    && t.round == s.round + 1 && t.period == 1 && t.step == 1 && t.ready && !t.isCommittee && t.committee == []
    && t.chain == s.chain + [if v in s.cur.valueToBlock then Some(s.cur.valueToBlock[v]) else None]
    && t.cur == InitPeriod(1).(starting := "_|_") && t.last.next == map[] && t.pool == s.pool && t.buffer == s.buffer
  }

  /** Where closing a period on `v` leaves a node: the tallies of the period kept as the last ones, and `v` to start from. */
  ghost predicate ClosedOn(s: NodeState, t: NodeState, next: Counter, v: Value) {
    && t.round == s.round && t.period == s.period + 1 && t.step == 1 && t.ready && t.isCommittee == s.isCommittee
    && t.committee == s.committee && t.chain == s.chain && t.seed == s.seed && t.required == s.required
    && t.cur == InitPeriod(s.period + 1).(starting := if v == "_|_" then "" else v)
    && t.last.next == next && t.last.valueToBlock == s.cur.valueToBlock
  }

  /** The vote is signed, for the node's round and period, and the first of its voter of its kind; next votes have two kinds. */
  predicate Countable(s: NodeState, m: VoteMsg) {
    && m.sigOk && m.round == s.round && m.period == s.period
    && match m.kind
       case Soft => m.peer !in s.cur.haveSoft
       case Cert => m.peer !in s.cur.haveCert
       case Next => m.peer !in s.cur.have4 || m.peer !in s.cur.have5
       case Other => false
  }

  /** Any other vote changes nothing. */
  lemma Ignored(env: Env, s: NodeState, m: VoteMsg, ch: Choices)
    requires !Countable(s, m)
    ensures Step(env, s, ReceiveVote(m, ch)) == Done(s, None, None)
  {
  }

  /** A soft vote that counts adds one to its value and nothing else. */
  lemma SoftCounted(env: Env, s: NodeState, m: VoteMsg, ch: Choices, w: Value)
    requires Shape(s) && Countable(s, m) && m.kind == Soft
    ensures var o := Step(env, s, ReceiveVote(m, ch));
            && o == Done(o.s, None, None) && o.s == s.(cur := s.cur.(soft := o.s.cur.soft, haveSoft := o.s.cur.haveSoft))
            && Get(o.s.cur.soft, w) == Get(s.cur.soft, w) + (if w == m.value then 1 else 0)
            && o.s.cur.haveSoft.Keys == s.cur.haveSoft.Keys + {m.peer}
  {
    assert s.last.(soft := s.last.soft) == s.last;
  }

  /** The check after a new cert vote. */
  lemma HaltChecked(t: NodeState, c: Option<Vote>, m: Scan, v: Value)
    requires IsMax(t.cur.cert, m) && t.required > 0
    ensures var o := HaltCheck(t, c, m);
            && o.Done? && o.cast == c
            && (NobodyWins(t.cur.cert, t.required) ==> o == Done(t, c, None))
            && (Wins(t.cur.cert, t.required, v) && v != "" ==> o.halt == Some(v) && HaltedOn(t, o.s, v))
  {
    hide Total;
    if Wins(t.cur.cert, t.required, v) { WinnerScanned(t.cur.cert, t.required, v, m); }
    if NobodyWins(t.cur.cert, t.required) { LoserScanned(t.cur.cert, t.required, m); }
  }

  /** The check after a new next vote. */
  lemma CloseChecked(t: NodeState, c: Option<Vote>, m: Scan, v: Value)
    requires IsMax(t.cur.next, m) && t.required > 0
    ensures var o := NextCheck(t, c, m);
            && o.Done? && o.cast == c && o.halt == None
            && (NobodyWins(t.cur.next, t.required) ==> o == Done(t, c, None))
            && (Wins(t.cur.next, t.required, v) && v != "" ==> ClosedOn(t, o.s, t.cur.next, v))
  {
    hide Total;
    if Wins(t.cur.next, t.required, v) { WinnerScanned(t.cur.next, t.required, v, m); }
    if NobodyWins(t.cur.next, t.required) { LoserScanned(t.cur.next, t.required, m); }
  }

  /** The state when a cert vote has been counted. */
  ghost predicate CertTaken(s: NodeState, m: VoteMsg, t: NodeState) {
    && t == s.(cur := s.cur.(cert := t.cur.cert, haveCert := t.cur.haveCert))
    && t.cur.cert == s.cur.cert[m.value := Get(s.cur.cert, m.value) + 1] && t.cur.haveCert.Keys == s.cur.haveCert.Keys + {m.peer}
  }

  /** The state when a next vote has been counted. */
  ghost predicate NextTaken(s: NodeState, m: VoteMsg, t: NodeState) {
    && t == s.(cur := s.cur.(next := t.cur.next, have4 := t.cur.have4, have5 := t.cur.have5))
    && t.cur.next == s.cur.next[m.value := Get(s.cur.next, m.value) + 1]
    && t.cur.have4.Keys == s.cur.have4.Keys + (if m.step == 4 then {m.peer} else {})
    && t.cur.have5.Keys == s.cur.have5.Keys + (if m.step == 4 then {} else {m.peer})
  }

  /** A cert vote that counts adds one to its value; then the node halts on the value that has the threshold, if any. */
  lemma CertCounted(env: Env, s: NodeState, m: VoteMsg, ch: Choices, v: Value) returns (t: NodeState)
    requires Shape(s) && Countable(s, m) && m.kind == Cert && Enabled(env, s, ReceiveVote(m, ch)) && s.required > 0
    ensures CertTaken(s, m, t)
    ensures var o := Step(env, s, ReceiveVote(m, ch));
            && o.Done? && o.cast == None
            && (NobodyWins(t.cur.cert, s.required) ==> o == Done(t, None, None))
            && (Wins(t.cur.cert, s.required, v) && v != "" ==> o.halt == Some(v) && HaltedOn(t, o.s, v))
  {
    hide Wins, NobodyWins, HaltedOn, HaltCheck, IsMax;
    t := TakeCert(s, m);
    assert s.last.(cert := s.last.cert) == s.last;
    HaltChecked(t, None, ch.cert, v);
  }

  /** A next vote that counts adds one to its value; then the period is closed on the value that has the threshold, if any. */
  lemma NextCounted(env: Env, s: NodeState, m: VoteMsg, ch: Choices, v: Value) returns (t: NodeState)
    requires Shape(s) && Countable(s, m) && m.kind == Next && Enabled(env, s, ReceiveVote(m, ch)) && s.required > 0
    ensures NextTaken(s, m, t)
    ensures var o := Step(env, s, ReceiveVote(m, ch));
            && o.Done? && o.cast == None && o.halt == None
            && (NobodyWins(t.cur.next, s.required) ==> o == Done(t, None, None))
            && (Wins(t.cur.next, s.required, v) && v != "" ==> ClosedOn(t, o.s, t.cur.next, v))
  {
    hide Wins, NobodyWins, ClosedOn, NextCheck, IsMax;
    t := TakeNext(s, m);
    assert s.last.(next := s.last.next) == s.last;
    CloseChecked(t, None, ch.next, v);
  }

  /** The node's own cert vote counts at once: it halts on a value that then has the threshold. */
  lemma OwnCertCounted(env: Env, s: NodeState, ch: Choices, x: Value, v: Value)
    requires Shape(s) && Votes(s) && s.step == 2 && env.me !in s.cur.haveCert && Enabled(env, s, AgreementTimer(ch)) && s.required > 0
    requires Step(env, s, AgreementTimer(ch)).Done? && Step(env, s, AgreementTimer(ch)).cast == Some(Vote(env.me, s.round, s.period, CertSlot, x))
    ensures var o := Step(env, s, AgreementTimer(ch));
            var cert := s.cur.cert[x := Get(s.cur.cert, x) + 1];
            && (Wins(cert, s.required, v) && v != "" ==> o.halt == Some(v) && HaltedOn(s, o.s, v))
            && (NobodyWins(cert, s.required) ==>
                  o.halt == None && o.s.step == 3 && o.s.cur.cert == cert && o.s.cur.myCert == x && env.me in o.s.cur.haveCert)
  {
    hide Wins, NobodyWins, HaltCheck, IsMax, RunStep3, HandleHalt;
    var t := Step3Vote(env, NextStep(s), ch.soft);
    HaltChecked(t, CastIf(env.me, NextStep(s), CertSlot, RunStep3(ch.soft, s.required)), ch.cert, v);
    CastOfHalt(t, CastIf(env.me, NextStep(s), CertSlot, RunStep3(ch.soft, s.required)), ch.cert);
  }

  lemma CastOfHalt(t: NodeState, c: Option<Vote>, m: Scan)
    ensures HaltCheck(t, c, m).Done? && HaltCheck(t, c, m).cast == c
  {
  }

  lemma CastOfClose(t: NodeState, c: Option<Vote>, m: Scan)
    ensures NextCheck(t, c, m).Done? && NextCheck(t, c, m).cast == c
  {
  }

  /** And its next votes: the period is closed on a value that then has the threshold. */
  lemma OwnNextCounted(env: Env, s: NodeState, ch: Choices, slot: Slot, x: Value, v: Value)
    requires Shape(s) && Votes(s) && Enabled(env, s, AgreementTimer(ch)) && s.required > 0
    requires (s.step == 3 && slot == Next4Slot && env.me !in s.cur.have4) || (s.step == 4 && slot == Next5Slot && env.me !in s.cur.have5)
    requires Step(env, s, AgreementTimer(ch)).Done? && Step(env, s, AgreementTimer(ch)).cast == Some(Vote(env.me, s.round, s.period, slot, x))
    ensures var o := Step(env, s, AgreementTimer(ch));
            var next := s.cur.next[x := Get(s.cur.next, x) + 1];
            && (Wins(next, s.required, v) && v != "" ==> ClosedOn(s, o.s, next, v))
            && (NobodyWins(next, s.required) ==>
                  && o.s.period == s.period && o.s.step == s.step + 1 && o.s.cur.next == next
                  && env.me in (if slot == Next4Slot then o.s.cur.have4 else o.s.cur.have5))
  {
    hide Wins, NobodyWins, NextCheck, IsMax, RunStep4, RunStep5, HandleNextPeriod;
    if s.step == 3 {
      var t := Step4Vote(env, NextStep(s), ch.last);
      var c := Some(Vote(env.me, s.round, s.period, Next4Slot, RunStep4(NextStep(s).cur, ch.last, s.required)));
      CloseChecked(t, c, ch.next, v);
      CastOfClose(t, c, ch.next);
    } else {
      var t := Step5Vote(env, NextStep(s), ch.soft, ch.last);
      var c := CastIf(env.me, NextStep(s), Next5Slot, RunStep5(NextStep(s).cur, ch.soft, ch.last, s.required));
      CloseChecked(t, c, ch.next, v);
      CastOfClose(t, c, ch.next);
    }
  }

  /** Only the leader's notice halts a node, on any value, and other notices change nothing. */
  lemma NoticeHalts(env: Env, s: NodeState, peer: Id, v: Value)
    ensures var o := Step(env, s, NoticeFinal(peer, v));
            if peer == s.cur.leader then o.Done? && o.cast == None && HaltedOn(s, o.s, v) else o == Done(s, None, None)
  {
  }

  // ------------------------------------------------------------------ the other events

  /** The agreement timer of a node that does not vote: a ready one stays as it is, another one only looks for the leader. */
  lemma IdleTimer(env: Env, s: NodeState, ch: Choices)
    requires !Votes(s) && Enabled(env, s, AgreementTimer(ch))
    ensures var o := Step(env, s, AgreementTimer(ch));
            if s.ready then o == Done(s, None, None)
            else IsLeader(s.cur.sigLeaderToId, ch.leader) && o == Done(s.(cur := s.cur.(leader := ch.leader)), None, None)
  {
  }

  /** A step whose vote is already recorded is passed over, and the last one again and again. */
  lemma PassedOver(env: Env, s: NodeState, ch: Choices)
    requires Shape(s) && Votes(s)
    requires match s.step
             case 1 => env.me in s.cur.haveSoft
             case 2 => env.me in s.cur.haveCert
             case 3 => env.me in s.cur.have4
             case _ => env.me in s.cur.have5
    ensures Step(env, s, AgreementTimer(ch)) == Done(s.(step := if s.step == 5 then 5 else s.step + 1), None, None)
  {
  }

  /** A longer chain of a peer is adopted with its seed, and its length is the round, which starts afresh; others are ignored. */
  lemma SyncAdopts(env: Env, s: NodeState, blocks: seq<Option<Block>>, seed: string)
    ensures var o := Step(env, s, ChainSync(blocks, seed));
            && o.Done? && o.cast == None && o.halt == None
            && if |blocks| <= |s.chain| then o.s == s
               else && o.s.chain == blocks && o.s.seed == seed && o.s.round == |blocks| && o.s.period == 1 && o.s.step == 1 && o.s.ready
                    && o.s.cur == InitPeriod(1).(starting := "_|_") && o.s.last == InitPeriod(0)
                    && o.s.committee == s.committee && o.s.isCommittee == s.isCommittee && o.s.required == s.required
                    && o.s.pool == s.pool && o.s.buffer == s.buffer
  {
  }

  /** A chain that is pushed replaces a shorter one, and nothing else changes. */
  lemma PushReplaces(env: Env, s: NodeState, blocks: seq<Option<Block>>)
    ensures var o := Step(env, s, AppendBlock(blocks));
            o == Done(s.(chain := o.s.chain), None, None) && o.s.chain == if |blocks| > |s.chain| then blocks else s.chain
  {
  }

  /** Early proposals, for the next round or period, are kept for later in the order of their arrival; later ones are dropped. */
  lemma EarlyKept(env: Env, s: NodeState, p: Proposal)
    requires p.round > s.round || p.period == s.period + 1
    ensures var o := Step(env, s, ReceiveProposal(p));
            && o == Done(s.(buffer := o.s.buffer), None, None)
            && o.s.buffer == if p.round > s.round + 1 then s.buffer else s.buffer + [p]
  {
  }

  /** What is hashed of a block's transactions is all their values, in order. */
  lemma {:induction false} ContentsAppend(a: seq<Tx>, b: seq<Tx>, t: Tx)
    ensures Contents(a + b) == Contents(a) + Contents(b) && Contents([t]) == t.v
  {
    assert [t][1..] == [] && t.v + [] == t.v;
    if a == [] {
      assert a + b == b;
    } else {
      assert (a + b)[1..] == a[1..] + b;
      ContentsAppend(a[1..], b, t);
    }
  }
}
