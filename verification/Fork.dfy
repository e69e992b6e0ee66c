/**
 Why the agreement theorems need their bound, on runs of the network: with the code's own quorum and two or more honest
 voters, every well-prepared run agrees if and only if the bound of `Config.Locking` holds. Outside the bound
 the run that forks is built here, for any number of nodes. In the first period all nodes soft-vote one block; as many of
 them as a quorum needs certify it, and one of these halts. The others next-vote for the empty value, and their votes and
 the faulty nodes' are delivered under both steps' names, which closes the period for everybody else. In the second
 period those who are left certify another block.
 */
module Fork {
  import opened Wrappers
  import opened Tally
  import opened Node
  import opened Quorums
  import opened Network
  import opened Thresholds
  import opened Reachable

  const GENESIS: string := "The first year of creation"

  // ------------------------------------------------------------------ the script

  /** Who halts first, who second, who certifies in the first period, and the timestamps of the two blocks. */
  datatype Script = Script(cfg: Config, a: Id, b: Id, certifiers: set<Id>, t1: string, t2: string) {
    ghost predicate Set() {
      && Coded(cfg) && cfg.N() >= 2 && a in certifiers && certifiers <= cfg.honest && b in cfg.honest && a != b
      && Usable(cfg, t1) && Usable(cfg, t2)
    }

    /** The certifiers are enough for a quorum, and so few that the others, counted twice, are one too. */
    ghost predicate Playable() {
      Set() && cfg.N() >= 4 && |certifiers| + cfg.F() >= cfg.q && 2 * (|cfg.honest - certifiers| + cfg.F()) >= cfg.q
    }

    /** The block of a period, and its value. */
    function Time(p: int): string { if p == 1 then t1 else t2 }
    function Value(p: int): Value { HashAt(cfg, Time(p)) }

    /** Where a further proposal would raise the threshold, each node leads itself in period 2, at the same time. */
    function Leader(p: int, me: Id): Id { if p == 1 then a else if cfg.N() % 3 == 2 then me else b }

    /** What the last period left, and what a scan of it finds. */
    function LastNext(p: int): Counter { if p == 1 then map[] else map[BOTTOM := cfg.q] }
    function Last(p: int): Scan { if p == 1 then NO_SCAN else Scan(BOTTOM, cfg.q) }

    ghost predicate Seated(p: int, committee: seq<Id>) {
      |committee| == cfg.N() - 1 || (p == 2 && |committee| == cfg.N() && cfg.N() % 3 != 2)
    }
  }

  /** The thresholds are the code's, and all voters are known users. */
  ghost predicate Coded(cfg: Config) { cfg.Valid() && cfg.q == CodeQuorum(cfg.N()) && cfg.Voters() <= cfg.users }

  function HashAt(cfg: Config, timestamp: string): Value { cfg.digest(1, timestamp, "", cfg.digest(0, GENESIS, "", "")) }

  /** A block without transactions on the genesis block. */
  function BlockAt(cfg: Config, timestamp: string): Block {
    Block(1, timestamp, [], cfg.digest(0, GENESIS, "", ""), HashAt(cfg, timestamp))
  }

  function GenesisOf(cfg: Config): Block { Block(0, GENESIS, [], "", cfg.digest(0, GENESIS, "", "")) }

  /** The block's hash is a value that can be voted for. */
  predicate Usable(cfg: Config, timestamp: string) { HashAt(cfg, timestamp) != "" && HashAt(cfg, timestamp) != BOTTOM }

  lemma SeatedThreshold(k: Script, p: int, committee: seq<Id>)
    requires k.Set() && k.Seated(p, committee)
    ensures Threshold(committee) == k.cfg.q && |committee| + 1 >= k.cfg.N() && (k.cfg.N() >= 4 ==> 2 < k.cfg.q < k.cfg.N())
  {
  }

  // ------------------------------------------------------------------ what matters of a node

  /** The chain and the inputs are still those of the start. */
  ghost predicate Untouched(k: Script, s: NodeState) {
    s.chain == [Some(GenesisOf(k.cfg))] && s.seed == "" && s.buffer == [] && s.pool == map[]
  }

  /** A node in a period of the first round. */
  ghost predicate InPeriod(k: Script, s: NodeState, p: int, step: int) {
    && s.round == 1 && s.period == p && s.step == step && s.cur.period == p && (p == 1 ==> s.cur.starting == BOTTOM)
    && s.last.next == k.LastNext(p) && Untouched(k, s)
  }

  /** On the committee, with its threshold set. */
  ghost predicate Voting(k: Script, s: NodeState, p: int, step: int) {
    InPeriod(k, s, p, step) && !s.ready && s.isCommittee && s.required == k.cfg.q && k.Seated(p, s.committee)
  }

  /** Its tallies of the period. */
  datatype Tallies = Tallies(soft: Counter, haveSoft: map<Id, Value>, cert: Counter, haveCert: map<Id, Value>,
                             next: Counter, have4: map<Id, Value>, have5: map<Id, Value>, myCert: Value)

  ghost function TalliesOf(s: NodeState): Tallies {
    Tallies(s.cur.soft, s.cur.haveSoft, s.cur.cert, s.cur.haveCert, s.cur.next, s.cur.have4, s.cur.have5, s.cur.myCert)
  }

  const NO_TALLIES := Tallies(map[], map[], map[], map[], map[], map[], map[], "")

  const NO_CHOICE := Choices(NO_SCAN, NO_SCAN, NO_SCAN, NO_SCAN, "")

  /** A voter may be heard with a vote: a faulty one always, an honest one if it cast the vote. */
  ghost predicate Heard(k: Script, hist: set<Vote>, u: Id, p: int, slot: Slot, x: Value) {
    u in k.cfg.Voters() && (u in k.cfg.honest ==> Vote(u, 1, p, slot, x) in hist)
  }

  // ------------------------------------------------------------------ opening a period

  /** A node about to start a period. */
  ghost predicate Ready(k: Script, s: NodeState, p: int) {
    && InPeriod(k, s, p, 1) && s.ready && TalliesOf(s) == NO_TALLIES && s.cur.sigLeaderToId == map[] && s.cur.idToBlock == map[]
    && if p == 1 then s.committee == [] else s.required == k.cfg.q && |s.committee| == k.cfg.N() - 1
  }

  /** The leader's credential is the least. */
  function Sig(leader: Id, u: Id): string { if u == leader then "A" else "B" + u }

  function TimeOf(k: Script, p: int, leader: Id, u: Id): string { if u == leader then k.Time(p) else u }

  /** A node that collects proposals. */
  ghost predicate Opening(k: Script, me: Id, s: NodeState, p: int) {
    && InPeriod(k, s, p, 1) && !s.ready && s.isCommittee && TalliesOf(s) == NO_TALLIES
    && var leader := k.Leader(p, me);
       && (forall sig :: sig in s.cur.sigLeaderToId ==> if sig == "A" then s.cur.sigLeaderToId[sig] == leader else sig != "" && Less("A", sig))
       && (leader in s.cur.idToBlock ==> "A" in s.cur.sigLeaderToId && s.cur.idToBlock[leader] == BlockAt(k.cfg, k.Time(p)))
  }

  function ProposeEvent(k: Script, p: int, me: Id): Event {
    var leader := k.Leader(p, me);
    RoundTimer(NO_CHOICE.(last := k.Last(p)), [], [], TimeOf(k, p, leader, me), true, Sig(leader, me), "")
  }

  /** The state after the node's own proposal. */
  function Proposed(k: Script, me: Id, s: NodeState, p: int): NodeState {
    var leader := k.Leader(p, me);
    AddOwnProposal(EnvOf(k.cfg, me), s.(ready := false), BlockAt(k.cfg, TimeOf(k, p, leader, me)), Sig(leader, me), "")
  }

  lemma ProposedOpens(k: Script, me: Id, s: NodeState, p: int)
    requires Ready(k, s, p)
    ensures var t := Proposed(k, me, s, p); Opening(k, me, t, p) && t.cur.idToBlock.Keys == {me} && t.committee == s.committee
  {
  }

  lemma ProposesOwn(k: Script, me: Id, s: NodeState, p: int)
    requires k.Set() && Ready(k, s, p) && 1 <= p <= 2
    ensures var e := ProposeEvent(k, p, me);
            Enabled(EnvOf(k.cfg, me), s, e) && Step(EnvOf(k.cfg, me), s, e) == Quiet(Proposed(k, me, s, p))
  {
    hide Sig, TimeOf, AddOwnProposal;
    assert HasTip(s) && Tip(s) == GenesisOf(k.cfg) && RunStep1(p, k.Last(p), s.required) == "";
    assert Unspent(s.pool, GenesisOf(k.cfg)) == map[];
    var time := TimeOf(k, p, k.Leader(p, me), me);
    assert PreparedBlock(EnvOf(k.cfg, me), GenesisOf(k.cfg), [], time) == BlockAt(k.cfg, time);
    assert s.(buffer := [], ready := false, pool := map[]) == s.(ready := false);
  }

  /** A ready node proposes a block of its own. */
  lemma Proposes(k: Script, hist: set<Vote>, me: Id, s: NodeState, p: int) returns (t: NodeState)
    requires k.Set() && Ready(k, s, p) && 1 <= p <= 2
    ensures Yields(k.cfg, hist, me, s, ProposeEvent(k, p, me), Quiet(t))
    ensures Opening(k, me, t, p) && t.cur.idToBlock.Keys == {me} && t.committee == s.committee
  {
    hide Step, Enabled, Sig, TimeOf;
    t := Proposed(k, me, s, p);
    ProposedOpens(k, me, s, p);
    ProposesOwn(k, me, s, p);
  }

  function ProposalOf(k: Script, p: int, leader: Id, u: Id): Proposal {
    var time := TimeOf(k, p, leader, u);
    Proposal(u, Sig(leader, u), 1, p, 1, "", k.cfg.digest(0, GENESIS, "", ""), "", HashAt(k.cfg, time), BlockAt(k.cfg, time), true)
  }

  /** It accepts the proposal of a new proposer. */
  lemma Accepts(k: Script, hist: set<Vote>, me: Id, s: NodeState, p: int, u: Id) returns (t: NodeState)
    requires k.Set() && Opening(k, me, s, p) && u in k.cfg.Voters() && u !in s.cur.idToBlock
    ensures Yields(k.cfg, hist, me, s, ReceiveProposal(ProposalOf(k, p, k.Leader(p, me), u)), Quiet(t))
    ensures Opening(k, me, t, p) && t.cur.idToBlock.Keys == s.cur.idToBlock.Keys + {u} && |t.committee| == |s.committee| + 1
  {
    t := AddProposal(s, ProposalOf(k, p, k.Leader(p, me), u));
  }

  lemma AcceptsOne(k: Script, net: Net, me: Id, p: int, u: Id) returns (net': Net)
    requires k.Set() && Reached(k.cfg, net) && me in net.nodes && Opening(k, me, net.nodes[me], p)
    requires u in k.cfg.Voters() && u !in net.nodes[me].cur.idToBlock
    ensures Reached(k.cfg, net') && Only(net, net', me) && Opening(k, me, net'.nodes[me], p)
    ensures var s, t := net.nodes[me], net'.nodes[me];
            t.cur.idToBlock.Keys == s.cur.idToBlock.Keys + {u} && |t.committee| == |s.committee| + 1
  {
    hide Reached, Yields, Opening;
    var t := Accepts(k, net.hist, me, net.nodes[me], p, u);
    net' := Move(k.cfg, net, me, ReceiveProposal(ProposalOf(k, p, k.Leader(p, me), u)), Quiet(t));
  }

  /** All proposals but those of `rest` have been accepted. */
  ghost predicate Gathered(k: Script, me: Id, s: NodeState, rest: set<Id>) {
    Opening(k, me, s, 1) && s.cur.idToBlock.Keys == k.cfg.Voters() - rest && rest <= k.cfg.Voters() && |s.committee| + |rest| == k.cfg.N() - 1
  }

  lemma GathersOne(k: Script, net: Net, me: Id, rest: set<Id>, u: Id) returns (net': Net)
    requires k.Set() && Reached(k.cfg, net) && me in net.nodes && Gathered(k, me, net.nodes[me], rest) && u in rest
    ensures Reached(k.cfg, net') && Only(net, net', me) && Gathered(k, me, net'.nodes[me], rest - {u})
  {
    hide Reached, Opening;
    net' := AcceptsOne(k, net, me, 1, u);
    assert k.cfg.Voters() - (rest - {u}) == k.cfg.Voters() - rest + {u};
  }

  /** It accepts the proposals of all the others. */
  lemma {:induction false} GathersAll(k: Script, net: Net, me: Id, rest: set<Id>) returns (net': Net)
    requires k.Set() && Reached(k.cfg, net) && me in net.nodes && Gathered(k, me, net.nodes[me], rest)
    ensures Reached(k.cfg, net') && Only(net, net', me) && Gathered(k, me, net'.nodes[me], {})
    decreases rest
  {
    hide Reached, Gathered;
    if rest == {} {
      net' := net;
    } else {
      var u := Pick(rest);
      var mid := GathersOne(k, net, me, rest, u);
      net' := GathersAll(k, mid, me, rest - {u});
    }
  }

  /** The first vote of a period has been cast. */
  ghost predicate SoftVoted(k: Script, me: Id, s: NodeState, p: int) {
    && Voting(k, s, p, 2)
    && TalliesOf(s) == NO_TALLIES.(soft := map[k.Value(p) := 1], haveSoft := map[me := k.Value(p)])
  }

  lemma LeaderIs(k: Script, me: Id, s: NodeState, p: int)
    requires Opening(k, me, s, p) && k.Leader(p, me) in s.cur.idToBlock
    ensures IsLeader(s.cur.sigLeaderToId, k.Leader(p, me))
  {
    assert IsLeast(s.cur.sigLeaderToId, "A");
  }

  /** Step 2: the leader's block gets the soft vote. */
  lemma SoftVotes(k: Script, hist: set<Vote>, me: Id, s: NodeState, p: int) returns (t: NodeState)
    requires k.Set() && Opening(k, me, s, p) && k.Leader(p, me) in s.cur.idToBlock && k.Seated(p, s.committee) && 1 <= p <= 2
    ensures Yields(k.cfg, hist, me, s, AgreementTimer(NO_CHOICE.(last := k.Last(p), leader := k.Leader(p, me))),
                   Done(t, Some(Vote(me, 1, p, SoftSlot, k.Value(p))), None))
    ensures SoftVoted(k, me, t, p)
  {
    hide IsLeader, Threshold, Less;
    LeaderIs(k, me, s, p);
    SeatedThreshold(k, p, s.committee);
    t := Step2(EnvOf(k.cfg, me), NextStep(s), k.Last(p), k.Leader(p, me)).s;
  }

  lemma CastsSoft(k: Script, net: Net, me: Id, p: int) returns (net': Net)
    requires k.Set() && Reached(k.cfg, net) && me in net.nodes && 1 <= p <= 2
    requires Opening(k, me, net.nodes[me], p) && k.Leader(p, me) in net.nodes[me].cur.idToBlock && k.Seated(p, net.nodes[me].committee)
    ensures Reached(k.cfg, net') && Only(net, net', me) && SoftVoted(k, me, net'.nodes[me], p) && Vote(me, 1, p, SoftSlot, k.Value(p)) in net'.hist
  {
    hide Reached, Yields, Opening, SoftVoted;
    var t := SoftVotes(k, net.hist, me, net.nodes[me], p);
    net' := Move(k.cfg, net, me, AgreementTimer(NO_CHOICE.(last := k.Last(p), leader := k.Leader(p, me))),
                 Done(t, Some(Vote(me, 1, p, SoftSlot, k.Value(p))), None));
  }

  lemma OpensWith(k: Script, net: Net, me: Id, p: int) returns (net': Net)
    requires k.Set() && Reached(k.cfg, net) && me in net.nodes && 1 <= p <= 2 && Ready(k, net.nodes[me], p)
    ensures Reached(k.cfg, net') && Only(net, net', me) && Opening(k, me, net'.nodes[me], p)
    ensures net'.nodes[me].cur.idToBlock.Keys == {me} && net'.nodes[me].committee == net.nodes[me].committee
  {
    hide Reached, Yields, Opening, Ready;
    var t := Proposes(k, net.hist, me, net.nodes[me], p);
    net' := Move(k.cfg, net, me, ProposeEvent(k, p, me), Quiet(t));
  }

  /** The first period up to the soft vote. */
  lemma Opens(k: Script, net: Net, me: Id) returns (net': Net)
    requires k.Set() && Reached(k.cfg, net) && me in net.nodes && me in k.cfg.honest && Ready(k, net.nodes[me], 1)
    ensures Reached(k.cfg, net') && Only(net, net', me) && SoftVoted(k, me, net'.nodes[me], 1) && Vote(me, 1, 1, SoftSlot, k.Value(1)) in net'.hist
  {
    hide Reached, Opening, SoftVoted;
    var n1 := OpensWith(k, net, me, 1);
    var rest := k.cfg.Voters() - {me};
    assert k.cfg.Voters() - rest == {me} && |rest| == k.cfg.N() - 1;
    var n2 := GathersAll(k, n1, me, rest);
    assert k.cfg.Voters() - {} == k.cfg.Voters();
    net' := CastsSoft(k, n2, me, 1);
  }

  /** The second period up to the soft vote: at most the leader's proposal is accepted. */
  lemma Reopens(k: Script, net: Net, me: Id) returns (net': Net)
    requires k.Set() && Reached(k.cfg, net) && me in net.nodes && me in k.cfg.honest && Ready(k, net.nodes[me], 2)
    ensures Reached(k.cfg, net') && Only(net, net', me) && SoftVoted(k, me, net'.nodes[me], 2) && Vote(me, 1, 2, SoftSlot, k.Value(2)) in net'.hist
  {
    hide Reached, Opening, SoftVoted;
    var n1 := OpensWith(k, net, me, 2);
    var leader := k.Leader(2, me);
    if leader != me {
      n1 := AcceptsOne(k, n1, me, 2, leader);
    }
    net' := CastsSoft(k, n1, me, 2);
  }

  // ------------------------------------------------------------------ the soft quorum

  /** A soft vote is counted. */
  lemma SoftArrives(k: Script, hist: set<Vote>, me: Id, s: NodeState, p: int, u: Id, x: Value) returns (t: NodeState)
    requires Voting(k, s, p, 2) && u !in s.cur.haveSoft && Heard(k, hist, u, p, SoftSlot, x)
    ensures Yields(k.cfg, hist, me, s, ReceiveVote(VoteMsg(u, x, 1, p, Soft, 2, true), NO_CHOICE), Quiet(t))
    ensures Voting(k, t, p, 2)
    ensures TalliesOf(t) == TalliesOf(s).(soft := Bump(s.cur.soft, x), haveSoft := s.cur.haveSoft[u := x])
  {
    t := TakeSoft(s, VoteMsg(u, x, 1, p, Soft, 2, true));
  }

  /** So many soft votes for the period's value have been counted, and nothing else. */
  ghost predicate Softs(k: Script, s: NodeState, p: int, n: nat) {
    Voting(k, s, p, 2) && TalliesOf(s) == NO_TALLIES.(soft := map[k.Value(p) := n], haveSoft := s.cur.haveSoft)
  }

  lemma {:induction false} SoftsArrive(k: Script, net: Net, me: Id, p: int, n: nat, rest: set<Id>) returns (net': Net)
    requires Reached(k.cfg, net) && me in net.nodes && Softs(k, net.nodes[me], p, n)
    requires forall u :: u in rest ==> u !in net.nodes[me].cur.haveSoft && Heard(k, net.hist, u, p, SoftSlot, k.Value(p))
    ensures Reached(k.cfg, net') && Only(net, net', me) && Softs(k, net'.nodes[me], p, n + |rest|)
    decreases rest
  {
    hide Reached, Yields, Voting;
    if rest == {} {
      net' := net;
    } else {
      var u := Pick(rest);
      var x := k.Value(p);
      var t := SoftArrives(k, net.hist, me, net.nodes[me], p, u, x);
      assert Bump(map[x := n], x) == map[x := n + 1];
      var mid := Move(k.cfg, net, me, ReceiveVote(VoteMsg(u, x, 1, p, Soft, 2, true), NO_CHOICE), Quiet(t));
      net' := SoftsArrive(k, mid, me, p, n + 1, rest - {u});
    }
  }

  // ------------------------------------------------------------------ certifying

  /** The cert vote has been cast, and no next vote counted. */
  ghost predicate Certified(k: Script, me: Id, s: NodeState, p: int) {
    && Voting(k, s, p, 3) && s.cur.cert == map[k.Value(p) := 1] && s.cur.haveCert == map[me := k.Value(p)]
    && s.cur.next == map[] && s.cur.have4 == map[] && s.cur.have5 == map[]
  }

  /** Step 3 with a soft quorum: a cert vote. */
  lemma CertVotes(k: Script, hist: set<Vote>, me: Id, s: NodeState, p: int, n: nat) returns (t: NodeState)
    requires k.Playable() && Softs(k, s, p, n) && n >= k.cfg.q && 1 <= p <= 2
    ensures var x := k.Value(p);
            Yields(k.cfg, hist, me, s, AgreementTimer(Choices(k.Last(p), Scan(x, n), Scan(x, 1), NO_SCAN, "")),
                   Done(t, Some(Vote(me, 1, p, CertSlot, x)), None))
    ensures Certified(k, me, t, p)
  {
    SeatedThreshold(k, p, s.committee);
    t := Step3Vote(EnvOf(k.cfg, me), NextStep(s), Scan(k.Value(p), n));
    assert t.cur.cert == map[k.Value(p) := 1];
  }

  /** A node hears a soft quorum and certifies. */
  lemma Certifies(k: Script, net: Net, me: Id, p: int, others: set<Id>) returns (net': Net)
    requires k.Playable() && Reached(k.cfg, net) && me in net.nodes && SoftVoted(k, me, net.nodes[me], p) && 1 <= p <= 2
    requires me !in others && |others| + 1 >= k.cfg.q && forall u :: u in others ==> Heard(k, net.hist, u, p, SoftSlot, k.Value(p))
    ensures Reached(k.cfg, net') && Only(net, net', me) && Certified(k, me, net'.nodes[me], p) && Vote(me, 1, p, CertSlot, k.Value(p)) in net'.hist
  {
    hide Reached, Yields, Voting, Certified, Heard;
    var mid := SoftsArrive(k, net, me, p, 1, others);
    var x, n := k.Value(p), 1 + |others|;
    var t := CertVotes(k, mid.hist, me, mid.nodes[me], p, n);
    net' := Move(k.cfg, mid, me, AgreementTimer(Choices(k.Last(p), Scan(x, n), Scan(x, 1), NO_SCAN, "")),
                 Done(t, Some(Vote(me, 1, p, CertSlot, x)), None));
  }

  // ------------------------------------------------------------------ halting

  /** A cert vote is counted, and halts the node when it completes the quorum. */
  lemma CertArrives(k: Script, hist: set<Vote>, me: Id, s: NodeState, p: int, u: Id, x: Value, n: nat) returns (t: NodeState)
    requires Voting(k, s, p, 3) && s.cur.cert == map[x := n] && u !in s.cur.haveCert && n < k.cfg.q && x != "" && Heard(k, hist, u, p, CertSlot, x)
    ensures Yields(k.cfg, hist, me, s, ReceiveVote(VoteMsg(u, x, 1, p, Cert, 3, true), NO_CHOICE.(cert := Scan(x, n + 1))),
                   Done(t, None, if n + 1 == k.cfg.q then Some(x) else None))
    ensures n + 1 < k.cfg.q ==> Voting(k, t, p, 3) && t.cur.cert == map[x := n + 1] && t.cur.haveCert == s.cur.haveCert[u := x]
  {
    var m := VoteMsg(u, x, 1, p, Cert, 3, true);
    assert TakeCert(s, m).cur.cert == map[x := n + 1];
    t := OnVote(s, m, NO_CHOICE.(cert := Scan(x, n + 1))).s;
  }

  lemma VotingIn(k: Script, s: NodeState, p: int, step: int)
    requires Voting(k, s, p, step)
    ensures s.round == 1 && s.period == p
  {
  }

  lemma {:induction false} HaltsOn(k: Script, net: Net, me: Id, p: int, n: nat, rest: set<Id>) returns (net': Net)
    requires k.Playable() && Reached(k.cfg, net) && me in net.nodes && Voting(k, net.nodes[me], p, 3) && 1 <= p <= 2
    requires net.nodes[me].cur.cert == map[k.Value(p) := n] && n < k.cfg.q <= n + |rest|
    requires forall u :: u in rest ==> u !in net.nodes[me].cur.haveCert && Heard(k, net.hist, u, p, CertSlot, k.Value(p))
    ensures Reached(k.cfg, net') && Only(net, net', me) && Halt(me, 1, p, k.Value(p)) in net'.halts
    decreases rest
  {
    hide Reached, Yields, Voting;
    assert net.nodes[me].round == 1 && net.nodes[me].period == p by { VotingIn(k, net.nodes[me], p, 3); }
    var u := Pick(rest);
    var x := k.Value(p);
    var t := CertArrives(k, net.hist, me, net.nodes[me], p, u, x, n);
    net' := Move(k.cfg, net, me, ReceiveVote(VoteMsg(u, x, 1, p, Cert, 3, true), NO_CHOICE.(cert := Scan(x, n + 1))),
                 Done(t, None, if n + 1 == k.cfg.q then Some(x) else None));
    if n + 1 < k.cfg.q { net' := HaltsOn(k, net', me, p, n + 1, rest - {u}); }
  }

  // ------------------------------------------------------------------ closing the first period

  /** Step 3 without a soft quorum. */
  lemma NoCert(k: Script, hist: set<Vote>, me: Id, s: NodeState) returns (t: NodeState)
    requires k.Playable() && SoftVoted(k, me, s, 1)
    ensures Yields(k.cfg, hist, me, s, AgreementTimer(NO_CHOICE.(soft := Scan(k.Value(1), 1))), Quiet(t))
    ensures Voting(k, t, 1, 3) && TalliesOf(t) == TalliesOf(s)
  {
    SeatedThreshold(k, 1, s.committee);
    t := NextStep(s);
  }

  /** So many empty next votes have been counted. */
  ghost predicate Empties(k: Script, s: NodeState, step: int, n: nat) {
    Voting(k, s, 1, step) && s.cur.next == (if n == 0 then map[] else map[BOTTOM := n])
  }

  /** Step 4 without a cert vote: a next vote for the empty value. */
  lemma EmptyVotes(k: Script, hist: set<Vote>, me: Id, s: NodeState) returns (t: NodeState)
    requires k.Playable() && Voting(k, s, 1, 3) && TalliesOf(s) == NO_TALLIES.(soft := map[k.Value(1) := 1], haveSoft := map[me := k.Value(1)])
    ensures Yields(k.cfg, hist, me, s, AgreementTimer(NO_CHOICE.(soft := Scan(k.Value(1), 1), next := Scan(BOTTOM, 1))),
                   Done(t, Some(Vote(me, 1, 1, Next4Slot, BOTTOM)), None))
    ensures Empties(k, t, 4, 1) && t.cur.have4 == map[me := BOTTOM] && t.cur.have5 == map[]
  {
    SeatedThreshold(k, 1, s.committee);
    t := Step4Vote(EnvOf(k.cfg, me), NextStep(s), NO_SCAN);
    assert t.cur.next == map[BOTTOM := 1];
  }

  /** A node that hears no soft quorum next-votes for the empty value. */
  lemma Declines(k: Script, net: Net, me: Id) returns (net': Net)
    requires k.Playable() && Reached(k.cfg, net) && me in net.nodes && SoftVoted(k, me, net.nodes[me], 1)
    ensures Reached(k.cfg, net') && Only(net, net', me) && Vote(me, 1, 1, Next4Slot, BOTTOM) in net'.hist
    ensures var s := net'.nodes[me]; Empties(k, s, 4, 1) && s.cur.have4 == map[me := BOTTOM] && s.cur.have5 == map[]
  {
    hide Reached, Yields, Voting;
    var t := NoCert(k, net.hist, me, net.nodes[me]);
    var mid := Move(k.cfg, net, me, AgreementTimer(NO_CHOICE.(soft := Scan(k.Value(1), 1))), Quiet(t));
    var t2 := EmptyVotes(k, mid.hist, me, t);
    net' := Move(k.cfg, mid, me, AgreementTimer(NO_CHOICE.(soft := Scan(k.Value(1), 1), next := Scan(BOTTOM, 1))),
                 Done(t2, Some(Vote(me, 1, 1, Next4Slot, BOTTOM)), None));
  }

  /** An empty next vote is counted under either step's name, and closes the period when it completes the quorum. */
  lemma EmptyArrives(k: Script, hist: set<Vote>, me: Id, s: NodeState, at: int, u: Id, step: int, n: nat) returns (t: NodeState)
    requires Empties(k, s, at, n) && at >= 3 && n < k.cfg.q && Heard(k, hist, u, 1, Next4Slot, BOTTOM)
    requires if step == 4 then u !in s.cur.have4 else u !in s.cur.have5
    ensures Yields(k.cfg, hist, me, s, ReceiveVote(VoteMsg(u, BOTTOM, 1, 1, Next, step, true), NO_CHOICE.(next := Scan(BOTTOM, n + 1))), Quiet(t))
    ensures n + 1 == k.cfg.q ==> Ready(k, t, 2)
    ensures n + 1 < k.cfg.q ==>
              && Empties(k, t, at, n + 1)
              && t.cur.have4 == (if step == 4 then s.cur.have4[u := BOTTOM] else s.cur.have4)
              && t.cur.have5 == (if step == 4 then s.cur.have5 else s.cur.have5[u := BOTTOM])
  {
    var m := VoteMsg(u, BOTTOM, 1, 1, Next, step, true);
    assert TakeNext(s, m).cur.next == map[BOTTOM := n + 1];
    t := OnVote(s, m, NO_CHOICE.(next := Scan(BOTTOM, n + 1))).s;
  }

  lemma {:induction false} EmptiesArrive(k: Script, net: Net, me: Id, at: int, n: nat, rest: set<(Id, int)>) returns (net': Net)
    requires k.Playable() && Reached(k.cfg, net) && me in net.nodes && Empties(k, net.nodes[me], at, n) && at >= 3 && n < k.cfg.q <= n + |rest|
    requires forall r :: r in rest ==>
               && Heard(k, net.hist, r.0, 1, Next4Slot, BOTTOM)
               && (if r.1 == 4 then r.0 !in net.nodes[me].cur.have4 else r.1 == 5 && r.0 !in net.nodes[me].cur.have5)
    ensures Reached(k.cfg, net') && Only(net, net', me) && Ready(k, net'.nodes[me], 2)
    decreases rest
  {
    hide Reached, Yields, Empties, Ready;
    var r := Pick(rest);
    var t := EmptyArrives(k, net.hist, me, net.nodes[me], at, r.0, r.1, n);
    net' := Move(k.cfg, net, me, ReceiveVote(VoteMsg(r.0, BOTTOM, 1, 1, Next, r.1, true), NO_CHOICE.(next := Scan(BOTTOM, n + 1))), Quiet(t));
    if n + 1 < k.cfg.q { net' := EmptiesArrive(k, net', me, at, n + 1, rest - {r}); }
  }

  lemma Pick<T>(s: set<T>) returns (x: T)
    requires s != {}
    ensures x in s
  {
    x :| x in s;
  }

  /** Every voter under a step's name, and under both. */
  ghost function Named(voters: set<Id>, step: int): set<(Id, int)> { set u | u in voters :: (u, step) }

  ghost function Twice(voters: set<Id>): set<(Id, int)> { Named(voters, 4) + Named(voters, 5) }

  lemma {:induction false} NamedSize(voters: set<Id>, step: int)
    ensures |Named(voters, step)| == |voters|
  {
    if voters != {} {
      var u := Pick(voters);
      NamedSize(voters - {u}, step);
      assert Named(voters, step) == Named(voters - {u}, step) + {(u, step)};
    }
  }

  lemma TwiceSize(voters: set<Id>)
    ensures |Twice(voters)| == 2 * |voters|
  {
    NamedSize(voters, 4);
    NamedSize(voters, 5);
    assert Named(voters, 4) !! Named(voters, 5);
  }

  // ------------------------------------------------------------------ the stages of the run

  /** Those who do not certify in the first period. */
  ghost function Decliners(k: Script): set<Id> { k.cfg.honest - k.certifiers }

  /** Node `i` after a stage. */
  ghost predicate At(k: Script, stage: nat, i: Id, s: NodeState) {
    match stage
    case 0 => Ready(k, s, 1)
    case 1 => SoftVoted(k, i, s, 1)
    case 2 => if i in k.certifiers then Certified(k, i, s, 1) else Empties(k, s, 4, 1) && s.cur.have4 == map[i := BOTTOM] && s.cur.have5 == map[]
    case 3 => i == k.a || Ready(k, s, 2)
    case 4 => i == k.a || SoftVoted(k, i, s, 2)
    case _ => i == k.a || Certified(k, i, s, 2)
  }

  /** What node `i` has done in a stage. */
  ghost predicate Did(k: Script, stage: nat, i: Id, net: Net) {
    match stage
    case 0 => true
    case 1 => Vote(i, 1, 1, SoftSlot, k.Value(1)) in net.hist
    case 2 => if i in k.certifiers then Vote(i, 1, 1, CertSlot, k.Value(1)) in net.hist else Vote(i, 1, 1, Next4Slot, BOTTOM) in net.hist
    case 3 => i == k.a ==> Halt(k.a, 1, 1, k.Value(1)) in net.halts
    case 4 => i != k.a ==> Vote(i, 1, 2, SoftSlot, k.Value(2)) in net.hist
    case _ => i != k.a ==> Vote(i, 1, 2, CertSlot, k.Value(2)) in net.hist
  }

  ghost predicate AllDid(k: Script, stage: nat, net: Net) { forall j :: j in k.cfg.honest ==> Did(k, stage, j, net) }

  /** The first halt. */
  lemma FirstHalt(k: Script, net: Net) returns (net': Net)
    requires k.Playable() && Reached(k.cfg, net) && k.a in net.nodes && Certified(k, k.a, net.nodes[k.a], 1) && AllDid(k, 2, net)
    ensures Reached(k.cfg, net') && Only(net, net', k.a) && Halt(k.a, 1, 1, k.Value(1)) in net'.halts
  {
    hide Reached;
    var rest := k.certifiers + k.cfg.faulty - {k.a};
    assert |k.certifiers + k.cfg.faulty| == |k.certifiers| + k.cfg.F();
    SeatedThreshold(k, 1, net.nodes[k.a].committee);
    assert forall u :: u in rest && u in k.cfg.honest ==> Did(k, 2, u, net);
    net' := HaltsOn(k, net, k.a, 1, 1, rest);
  }

  /** The empty votes that can be heard make a quorum. */
  lemma EmptiesHeard(k: Script, net: Net)
    requires k.Playable() && AllDid(k, 2, net)
    ensures |Twice(Decliners(k) + k.cfg.faulty)| >= k.cfg.q
    ensures forall r :: r in Twice(Decliners(k) + k.cfg.faulty) ==> (r.1 == 4 || r.1 == 5) && Heard(k, net.hist, r.0, 1, Next4Slot, BOTTOM)
  {
    var voters := Decliners(k) + k.cfg.faulty;
    assert |voters| == |Decliners(k)| + k.cfg.F();
    TwiceSize(voters);
    forall r | r in Twice(voters)
      ensures (r.1 == 4 || r.1 == 5) && Heard(k, net.hist, r.0, 1, Next4Slot, BOTTOM)
    {
      assert r.0 in voters;
      if r.0 in k.cfg.honest { assert Did(k, 2, r.0, net); }
    }
  }

  /** A node that has not halted is led on to the second period. */
  lemma LedOn(k: Script, net: Net, me: Id) returns (net': Net)
    requires k.Playable() && Reached(k.cfg, net) && me in net.nodes && me in k.cfg.honest && At(k, 2, me, net.nodes[me]) && AllDid(k, 2, net)
    ensures Reached(k.cfg, net') && Only(net, net', me) && Ready(k, net'.nodes[me], 2)
  {
    hide Reached, Ready, AllDid, Heard, Twice;
    var rest := Twice(Decliners(k) + k.cfg.faulty);
    EmptiesHeard(k, net);
    SeatedThreshold(k, 1, net.nodes[me].committee);
    if me in k.certifiers {
      net' := EmptiesArrive(k, net, me, 3, 0, rest);
    } else {
      assert |rest - {(me, 4)}| >= |rest| - 1;
      net' := EmptiesArrive(k, net, me, 4, 1, rest - {(me, 4)});
    }
  }

  /** A node hears the soft votes of a period from everybody who took part, and certifies. */
  lemma CertifiesIn(k: Script, net: Net, me: Id, p: int) returns (net': Net)
    requires k.Playable() && Reached(k.cfg, net) && me in net.nodes && me in k.cfg.honest && 1 <= p <= 2
    requires SoftVoted(k, me, net.nodes[me], p) && AllDid(k, if p == 1 then 1 else 4, net) && (p == 2 ==> me != k.a)
    ensures Reached(k.cfg, net') && Only(net, net', me) && Certified(k, me, net'.nodes[me], p) && Vote(me, 1, p, CertSlot, k.Value(p)) in net'.hist
  {
    hide Reached, Certified;
    var others := if p == 1 then k.cfg.Voters() - {me} else k.cfg.Voters() - {me} - {k.a};
    SeatedThreshold(k, p, net.nodes[me].committee);
    assert |others| + 1 >= k.cfg.q by { Fewer(k.cfg.Voters(), me, k.a); }
    assert forall u :: u in others && u in k.cfg.honest ==> Did(k, if p == 1 then 1 else 4, u, net);
    net' := Certifies(k, net, me, p, others);
  }

  lemma Fewer(s: set<Id>, x: Id, y: Id)
    ensures |s - {x}| >= |s| - 1 && |s - {x} - {y}| >= |s| - 2
  {
  }

  /** One node's part in the next stage. */
  lemma PlayOne(k: Script, stage: nat, net: Net, i: Id) returns (net': Net)
    requires k.Playable() && stage < 5 && Reached(k.cfg, net) && i in net.nodes && i in k.cfg.honest
    requires At(k, stage, i, net.nodes[i]) && AllDid(k, stage, net)
    ensures Reached(k.cfg, net') && Only(net, net', i) && At(k, stage + 1, i, net'.nodes[i]) && Did(k, stage + 1, i, net')
  {
    hide Reached, SoftVoted, Certified, Ready, AllDid, Empties;
    if stage == 0 {
      net' := Opens(k, net, i);
    } else if stage == 1 && i in k.certifiers {
      net' := CertifiesIn(k, net, i, 1);
    } else if stage == 1 {
      net' := Declines(k, net, i);
    } else if stage == 2 && i == k.a {
      net' := FirstHalt(k, net);
    } else if stage == 2 {
      net' := LedOn(k, net, i);
    } else if i == k.a {
      net' := net;
    } else if stage == 3 {
      net' := Reopens(k, net, i);
    } else {
      net' := CertifiesIn(k, net, i, 2);
    }
  }

  /** The next stage, for those who have yet to play it. */
  lemma {:induction false} PlayAll(k: Script, stage: nat, net: Net, todo: set<Id>) returns (net': Net)
    requires k.Playable() && stage < 5 && Reached(k.cfg, net) && net.nodes.Keys == k.cfg.honest && todo <= k.cfg.honest && AllDid(k, stage, net)
    requires forall i :: i in todo ==> At(k, stage, i, net.nodes[i])
    requires forall i :: i in k.cfg.honest - todo ==> At(k, stage + 1, i, net.nodes[i]) && Did(k, stage + 1, i, net)
    ensures Reached(k.cfg, net') && net'.nodes.Keys == k.cfg.honest && AllDid(k, stage + 1, net') && net.halts <= net'.halts
    ensures forall i :: i in k.cfg.honest ==> At(k, stage + 1, i, net'.nodes[i])
    decreases todo
  {
    hide Reached, At, Did;
    if todo == {} {
      net' := net;
    } else {
      var i := Pick(todo);
      var mid := PlayOne(k, stage, net, i);
      forall j, g | j in k.cfg.honest && Did(k, g, j, net)
        ensures Did(k, g, j, mid)
      {
        DidStays(k, g, j, net, mid, i);
      }
      net' := PlayAll(k, stage, mid, todo - {i});
    }
  }

  lemma DidStays(k: Script, stage: nat, j: Id, net: Net, net': Net, i: Id)
    requires Did(k, stage, j, net) && Only(net, net', i)
    ensures Did(k, stage, j, net')
  {
  }

  /** All the stages. */
  lemma {:induction false} Played(k: Script, stage: nat) returns (net: Net)
    requires k.Playable() && stage <= 5
    ensures Reached(k.cfg, net) && net.nodes.Keys == k.cfg.honest && AllDid(k, stage, net)
    ensures forall i :: i in k.cfg.honest ==> At(k, stage, i, net.nodes[i])
    ensures stage >= 3 ==> Halt(k.a, 1, 1, k.Value(1)) in net.halts
  {
    hide Reached;
    if stage == 0 {
      net := Start(k.cfg);
    } else {
      var before := Played(k, stage - 1);
      net := PlayAll(k, stage - 1, before, k.cfg.honest);
      assert Did(k, stage, k.a, net);
    }
  }

  /** Two honest nodes halt on the two blocks. */
  lemma TwoHalts(k: Script) returns (net: Net)
    requires k.Playable()
    ensures Reached(k.cfg, net) && Halt(k.a, 1, 1, k.Value(1)) in net.halts && Halt(k.b, 1, 2, k.Value(2)) in net.halts
  {
    hide Reached;
    var before := Played(k, 5);
    var rest := k.cfg.Voters() - {k.b} - {k.a};
    Fewer(k.cfg.Voters(), k.b, k.a);
    assert At(k, 5, k.b, before.nodes[k.b]);
    SeatedThreshold(k, 2, before.nodes[k.b].committee);
    assert forall u :: u in rest && u in k.cfg.honest ==> Did(k, 5, u, before);
    net := HaltsOn(k, before, k.b, 2, 1, rest);
  }

  // ------------------------------------------------------------------ two nodes

  /** With a quorum of one a node halts on its own votes. */
  lemma HaltsAlone(k: Script, hist: set<Vote>, me: Id, s: NodeState) returns (t: NodeState)
    requires k.Set() && k.cfg.q == 1 && SoftVoted(k, me, s, 1)
    ensures var x := k.Value(1);
            Yields(k.cfg, hist, me, s, AgreementTimer(Choices(NO_SCAN, Scan(x, 1), Scan(x, 1), NO_SCAN, "")),
                   Done(t, Some(Vote(me, 1, 1, CertSlot, x)), Some(x)))
  {
    var x := k.Value(1);
    var certified := Step3Vote(EnvOf(k.cfg, me), NextStep(s), Scan(x, 1));
    assert certified.cur.cert == map[x := 1];
    t := HandleHalt(certified, BlockFor(certified, x), x);
  }

  /** A node that leads itself and halts on its own block. */
  lemma PlaysAlone(k: Script, net: Net) returns (net': Net)
    requires k.Set() && k.cfg.q == 1 && Reached(k.cfg, net) && k.a in net.nodes && Ready(k, net.nodes[k.a], 1)
    ensures Reached(k.cfg, net') && Only(net, net', k.a) && Halt(k.a, 1, 1, k.Value(1)) in net'.halts
  {
    hide Reached, Yields, Ready;
    var mid := Opens(k, net, k.a);
    var x := k.Value(1);
    var t := HaltsAlone(k, mid.hist, k.a, mid.nodes[k.a]);
    net' := Move(k.cfg, mid, k.a, AgreementTimer(Choices(NO_SCAN, Scan(x, 1), Scan(x, 1), NO_SCAN, "")),
                 Done(t, Some(Vote(k.a, 1, 1, CertSlot, x)), Some(x)));
  }

  /** Two nodes with a quorum of one each halt on their own block. */
  lemma TwoAlone(k: Script, l: Script) returns (net: Net)
    requires k.Set() && k.cfg.q == 1 && l == Script(k.cfg, k.b, k.a, {k.b}, k.t2, k.t1)
    ensures Reached(k.cfg, net) && Halt(k.a, 1, 1, k.Value(1)) in net.halts && Halt(k.b, 1, 1, k.Value(2)) in net.halts
  {
    hide Reached;
    var start := Start(k.cfg);
    var mid := PlaysAlone(k, start);
    net := PlaysAlone(l, mid);
  }

  // ------------------------------------------------------------------ one halt per round

  lemma HaltRaises(env: Env, s: NodeState, e: Event)
    requires Step(env, s, e).Done? && Step(env, s, e).halt.Some?
    ensures Step(env, s, e).s.round == s.round + 1
  {
  }

  /** A node has left the rounds it halted in, and halted once in each. */
  ghost predicate HaltedOnce(net: Net) {
    && (forall g :: g in net.halts && g.node in net.nodes ==> g.round < net.nodes[g.node].round)
    && (forall g, h :: g in net.halts && h in net.halts && g.node == h.node && g.round == h.round ==> g == h)
  }

  lemma HaltedOnceStep(cfg: Config, net: Net, net': Net, i: Id, e: Event)
    requires NodesInv(net) && FreeStep(cfg, net, net', i, e) && HaltedOnce(net)
    ensures HaltedOnce(net')
  {
    hide Step, NodesInv, Enabled, Delivered;
    FreeStepKeeps(cfg, net, net', i, e);
    var o := Step(EnvOf(cfg, i), net.nodes[i], e);
    if o.Done? && o.halt.Some? { HaltRaises(EnvOf(cfg, i), net.nodes[i], e); }
  }

  /** Only honest nodes are recorded to halt, each at most once in a round. */
  lemma {:induction false} HaltedOnceOnRuns(cfg: Config, nets: seq<Net>, acts: seq<(Id, Event)>, n: nat)
    requires FreeRun(cfg, nets, acts) && n < |nets|
    ensures HaltedOnce(nets[n]) && nets[n].nodes.Keys <= cfg.honest && forall g :: g in nets[n].halts ==> g.node in cfg.honest
  {
    hide FreeStep, HaltedOnce, NodesInv;
    if n == 0 {
      assert HaltedOnce(nets[0]) by { NoHalts(nets[0]); }
    } else {
      HaltedOnceOnRuns(cfg, nets, acts, n - 1);
      FreeRunInv(cfg, nets, acts, n - 1);
      HaltedOnceStep(cfg, nets[n - 1], nets[n], acts[n - 1].0, acts[n - 1].1);
      HaltsByNodes(cfg, nets[n - 1], nets[n], acts[n - 1].0, acts[n - 1].1);
    }
  }

  lemma NoHalts(net: Net)
    requires net.halts == {}
    ensures HaltedOnce(net)
  {
  }

  lemma HaltsByNodes(cfg: Config, net: Net, net': Net, i: Id, e: Event)
    requires FreeStep(cfg, net, net', i, e)
    ensures net'.nodes.Keys <= net.nodes.Keys && forall g :: g in net'.halts ==> g in net.halts || g.node in net.nodes
  {
    hide Step, Enabled, Delivered;
  }

  // ------------------------------------------------------------------ the theorem

  /** Outside the bound there is a script. */
  lemma Cast(cfg: Config, t1: string, t2: string) returns (k: Script)
    requires Coded(cfg) && |cfg.honest| >= 2 && !cfg.Locking() && Usable(cfg, t1) && Usable(cfg, t2)
    ensures k.Set() && k.cfg == cfg && k.t1 == t1 && k.t2 == t2 && (cfg.N() > 2 ==> k.Playable()) && (cfg.N() == 2 ==> cfg.q == 1)
  {
    VoterCount(cfg);
    var certifiers := PickSubset(cfg.honest, if cfg.q <= cfg.F() then 1 else cfg.q - cfg.F());
    var a := Pick(certifiers);
    var b := Pick(cfg.honest - {a});
    assert |cfg.honest - certifiers| == |cfg.honest| - |certifiers|;
    k := Script(cfg, a, b, certifiers, t1, t2);
  }

  /**
   The fork: for every number of voters and faults outside the bound, a network run with the code's thresholds in which
   two honest nodes halt on different blocks in one round.
   */
  lemma ForkedRun(cfg: Config, t1: string, t2: string) returns (nets: seq<Net>, acts: seq<(Id, Event)>, g: Halt, h: Halt)
    requires Coded(cfg) && |cfg.honest| >= 2 && !cfg.Locking() && Usable(cfg, t1) && Usable(cfg, t2)
    ensures FreeRun(cfg, nets, acts) && WellPrepared(cfg, nets, acts) && NetRun(cfg, nets, acts) && |nets| > 0
    ensures g in nets[|nets| - 1].halts && h in nets[|nets| - 1].halts && g.node != h.node && g.node in cfg.honest && h.node in cfg.honest
    ensures g.round == h.round == 1 && g.value == HashAt(cfg, t1) && h.value == HashAt(cfg, t2)
  {
    hide FreeRun, WellPrepared, NetRun;
    var k := Cast(cfg, t1, t2);
    var net;
    if cfg.N() == 2 {
      net := TwoAlone(k, Script(k.cfg, k.b, k.a, {k.b}, k.t2, k.t1));
      h := Halt(k.b, 1, 1, k.Value(2));
    } else {
      net := TwoHalts(k);
      h := Halt(k.b, 1, 2, k.Value(2));
    }
    g := Halt(k.a, 1, 1, k.Value(1));
    nets, acts :| LeadsTo(cfg, nets, acts, net);
    CodeThresholds(cfg, nets, acts);
  }

  /** Halts of one round are for one value. */
  ghost predicate Agrees(net: Net) { forall g, h :: g in net.halts && h in net.halts && g.round == h.round ==> g.value == h.value }

  /** A network of a well-prepared run. */
  ghost predicate OnPreparedRun(cfg: Config, net: Net, nets: seq<Net>, acts: seq<(Id, Event)>) {
    FreeRun(cfg, nets, acts) && WellPrepared(cfg, nets, acts) && net in nets
  }

  ghost predicate PreparedRunsAgree(cfg: Config) { forall net, nets, acts :: OnPreparedRun(cfg, net, nets, acts) ==> Agrees(net) }

  /** Within the bound, or with one honest node, a run agrees. */
  lemma RunAgrees(cfg: Config, net: Net, nets: seq<Net>, acts: seq<(Id, Event)>)
    requires Coded(cfg) && OnPreparedRun(cfg, net, nets, acts) && (cfg.Locking() || |cfg.honest| <= 1)
    ensures Agrees(net)
  {
    hide FreeRun, WellPrepared, NetRun;
    var n :| 0 <= n < |nets| && nets[n] == net;
    CodeThresholds(cfg, nets, acts);
    HaltedOnceOnRuns(cfg, nets, acts, n);
    forall g, h | g in net.halts && h in net.halts && g.round == h.round
      ensures g.value == h.value
    {
      if cfg.Locking() {
        RoundAgreement(cfg, nets, acts, n, g, h);
      } else {
        SubsetSize({g.node, h.node}, cfg.honest);
      }
    }
  }

  /**
   The exact bound of agreement with the code's quorum: all well-prepared runs agree if and only if three quorums outnumber
   twice the voters and the faults together, or there are no two honest nodes to disagree. Of the hash it need only be known that it
   tells two blocks apart.
   */
  lemma AgreementIffBound(cfg: Config, t1: string, t2: string)
    requires Coded(cfg) && Usable(cfg, t1) && Usable(cfg, t2) && HashAt(cfg, t1) != HashAt(cfg, t2)
    ensures PreparedRunsAgree(cfg) <==> cfg.Locking() || |cfg.honest| <= 1
  {
    hide FreeRun, WellPrepared, NetRun, Agrees;
    if cfg.Locking() || |cfg.honest| <= 1 {
      forall net, nets, acts | OnPreparedRun(cfg, net, nets, acts)
        ensures Agrees(net)
      {
        RunAgrees(cfg, net, nets, acts);
      }
    } else {
      var nets, acts, g, h := ForkedRun(cfg, t1, t2);
      assert OnPreparedRun(cfg, nets[|nets| - 1], nets, acts);
      assert !Agrees(nets[|nets| - 1]) by { Disagrees(nets[|nets| - 1], g, h); }
    }
  }

  lemma Disagrees(net: Net, g: Halt, h: Halt)
    requires g in net.halts && h in net.halts && g.round == h.round && g.value != h.value
    ensures !Agrees(net)
  {
  }

  /** The code's quorum for given voters, with a hash that tells blocks of different times apart. */
  function Nodes(honest: set<Id>, faulty: set<Id>): Config {
    Config(honest, faulty, CodeQuorum(|honest + faulty|), honest + faulty, (id, timestamp, contents, prev) => timestamp)
  }

  /**
   In numbers: unless there is at most one honest node, all well-prepared runs of n nodes agree if and only if n is a
   multiple of 3 and at most one is faulty, or n is one more than such a multiple and none is.
   */
  lemma NodesAgreeIff(honest: set<Id>, faulty: set<Id>)
    requires honest !! faulty
    ensures PreparedRunsAgree(Nodes(honest, faulty)) <==>
              var n := |honest| + |faulty|;
              |honest| <= 1 || (n % 3 == 0 && |faulty| <= 1) || (n % 3 == 1 && faulty == {})
  {
    hide PreparedRunsAgree;
    var cfg := Nodes(honest, faulty);
    VoterCount(cfg);
    LockingBound(cfg);
    AgreementIffBound(cfg, "v", "w");
  }
}
