# Agreement node and vendored algorithms, modelled in Dafny

The repository is an Algorand-style block chain node with its vendored cryptographic libraries. This project models
its Byzantine agreement state machine and six of the library algorithms, and proves what they are for.

`dafny verify dfyconfig.toml` checks everything.

## The agreement node

A round decides one block. Rounds contain periods and periods contain five steps; votes are soft, cert or next, and
decisions are scans over Go maps for a largest count that meets a threshold.

- `Tally.dfy`: tallies, the scan in an arbitrary iteration order, have-voted maps, the leader choice.
- `Node.dfy`: one node as a state machine, one event per case of the service loop, for every iteration order.
- `Server.dfy`: the same cases as methods on an object, with the source's loops, each proved to be its event and to keep
  the object valid, and the service loop over any inputs.
- `NodeRuns.dfy`: what every event keeps, and its consequences over whole runs of one node.
- `Quorums.dfy`: lawful vote histories and the agreement argument on them, with exact fault bounds.
- `Network.dfy`: honest nodes and arbitrary other voters; tallies testify to the history, hence safety over all runs.
- `Thresholds.dfy`: when the code's own thresholds are large enough for these theorems.
- `Reachable.dfy`, `Fork.dfy`: outside the theorems' bound, for any number of nodes, a run in which two honest nodes halt
  on different blocks; so the bound is exact.
- `Duties.dfy`, `Following.dfy`: what a node must do with a quorum in front of it, alone and in the network.
- `Proposals.dfy`: which proposals are entered over a run, what a halt takes from them, transactions, and who may vote.
- `Accounting.dfy`, `Ledger.dfy`, `Committee.dfy`, `Chain.dfy`: tally accounting and thresholds, proposal indexes, the
  committee and the shape of the chain over runs of one node.

A run is any sequence of enabled events. In the network, `n` voters of which `f` are arbitrary share a quorum `q`, and
every threshold that decides something is at least `q`; a verified vote of an honest voter was cast by it (a next vote in
either step, since the step is not signed), and next votes reach a node at most once per voter and step.

What the code does and its design does not promise:

- A voter's next votes of steps 4 and 5 are added up, so a value is locked between periods exactly when `2n + 2f < 3q`,
  for vote histories (`Quorums.LockIffBound`) and, with the code's own quorum, for runs: outside the bound two honest
  nodes can halt on different blocks in one round (`Fork.AgreementIffBound`). With the code's threshold the bound allows
  one fault when n mod 3 is 0, none when it is 1, and never holds when it is 2 (`Quorums.LockingBound`). The run that
  forks delivers next votes under both steps' names, which is possible because the step is not signed; when n mod 3 is 2
  and n is 5 or more, a further accepted proposal would raise the threshold, and the run takes equal clock readings in the
  second period instead.
- A next vote is refused only when its voter is recorded for both steps, so one voter repeating a step-4 vote closes a
  period alone (`Accounting.OneVoterCloses`).
- `runStep1` signals an error with the string "err", which can also be a voted value; the threshold is 0 until the first
  step 2, so one vote message leads to the panic (`Accounting.ErrValuePanics`). Unless somebody names that string the
  panic is unreachable (`Accounting.Step1NeverPanics`).
- An adopted chain and a new period keep the committee while proposals start afresh, so a proposer can be listed more than
  once (`Committee.SyncRepeatsProposer`, `Committee.PeriodRepeatsProposer`). In a round entered at start or by halting
  everybody is listed once for each period in which a proposal of theirs was accepted (`Committee.CommitteeCounts`), and
  if all propose each time the threshold exceeds the number of nodes from the second period on (`Committee.ThresholdRises`).
- Step 2 computes the threshold anew, so a node that has accepted more proposals in the new period may find the quorum
  that closed the last one too small, and then casts no soft vote although the value is locked (`Following.SoftFollowsLock`).
- A block's transactions are checked against the pool by id only (`Proposals.TransactionsReceived`).
- Step 2 votes for the hash that the leader's block carries, which nobody checks, while blocks are kept under the hash they
  have. A block with a wrong `Hash` therefore ends in a nil block on the chain (`Chain.LyingHashBreaksChain`).
  `Chain.HaltLinkedIff`, `Chain.AcceptFitsIff` and `Chain.CertVoteLinkedIff` say exactly when the chain stays linked.

## The algorithms

- `Poly1305.dfy`: 26-bit limbs with lazy carries against the polynomial modulo 2^130 - 5 of RFC 7539.
- `Argon2.dfy`, `Lanes.dfy`: the reference set of RFC 9106, and lanes filling memory in parallel against one after the other.
- `Ssh.dfy`, `SshRuns.dfy`, `SshLive.dfy`, `SshPeer.dfy`, `Channel.dfy`, `Buffer.dfy`: channel flow control as a two-party
  protocol with methods cut at their locks, what whole writes and streams come to, which writes can be completed, the
  receiver against any peer, the channel's methods on their own, and the linked-list buffer.
- `Der.dfy`, `Cryptobyte.dfy`, `Integer.dfy`: encodings as functions, builder and reader as objects, signed integers.
- `Sponge.dfy`: SHA-3 buffering against the sponge of FIPS 202.
- `Blake2b.dfy`: streaming and the 128-bit counter against RFC 7693.
- `Arithmetic.dfy`, `Wrappers.dfy`: words, powers and options.

Words are naturals; where a Go word can wrap, the model says so (`Wrap32`, `Wrap64`), and where it cannot, the variable
has a bounded type, so that the proof shows it.

Disagreements found between writer and reader, or code and documentation:

- The DER builder writes contents of up to 2^32 - 2 bytes, the reader refuses those of 2^32 - 6 and more
  (`Der.ElementRoundTrip`).
- An SSH receiver drops data of streams above 1 without giving the window back, so every byte written there is lost for
  good (`SshRuns.QuietRestores`). A write there completes only if it fits what is left of 2^21 bytes, and when these are
  used up nothing more goes out on streams 0 and 1 either. On streams 0 and 1 a write of 2^32 bytes or more never
  completes: once its length modulo 2^32 has gone out, it sends empty packets for ever. All other writes can be completed,
  from every reachable state (`SshLive.RunningCompletesIff`, `SshLive.CompletesOnIff`).
- Copying a squeezing SHA-3 hash rewinds it by 168 bytes less the rate (`Sponge.Hash.Sum`).

## Model

| member | source | states |
|---|---|---|
| Tally.ScanAlongIsMax | server/agreement.go:12-18 | every iteration order of a tally gives a largest entry, or nothing when all are zero |
| Tally.EveryMaxIsScanned | server/agreement.go:12-18 | conversely every such result is what some iteration order gives: the model's free choice of a maximum is exactly the freedom the map order has |
| Tally.MaxScan | server/agreement.go:33-39 | the scanning loop returns a largest entry of the tally, whatever order the keys come in |
| Tally.QuorumScanUnique | server/agreement.go:144-150 | a value at quorum is the result of every scan when twice the quorum exceeds the tally total |
| Tally.ScanOrderIndependent | server/agreement.go:163-169 | a scan is independent of the order if and only if its positive maximum is attained once |
| Tally.SelectLeader | server/util.go:184-199 | the loop returns the owner of the lexicographically least credential when none is empty, of some credential otherwise, and nobody when there is none |
| Tally.LeaderUnique | server/util.go:184-199 | with non-empty credentials the leader is the same in every iteration order |
| NodeRuns.StepKeeps | server/serve.go:426-1085 | every case of the service loop keeps the node invariant, never votes in a used slot and never moves (round, period, step) back |
| NodeRuns.RunAdvances | server/serve.go:235-275 | over any run the position never decreases, and tallies are reset only when (round, period) strictly rises |
| NodeRuns.NoEquivocation | server/serve.go:535-727 | over a whole run a node casts at most one soft, one cert, one step-4 and one step-5 vote per round and period, chain replacement and sync included |
| NodeRuns.AcceptedVoteIsCurrent | server/util.go:60-63 | a vote that verifies names the current period, so closed tallies are frozen |
| NodeRuns.HaltKeeps | server/serve.go:235-259 | a halt keeps the invariant, remembers every vote sent, and moves to a strictly later round |
| NodeRuns.NextPeriodKeeps | server/serve.go:261-275 | closing a period on a decided value keeps the invariant; the next tally that decided is the quorum behind the ready node |
| NodeRuns.SyncKeeps | server/serve.go:1052-1077 | adopting a longer chain strictly raises the round and keeps the invariant |
| NodeRuns.Step1Error | server/agreement.go:7-27 | in every reachable ready state past period 1 the closed next tally meets the threshold in use; runStep1 reports its error if and only if the winning value is the string "err" |
| Quorums.SoftQuorumsAgree | server/agreement.go:56-74 | two soft quorums of a period are for one value when f + n < 2q |
| Quorums.CertVotesAgree | server/agreement.go:56-74 | all honest cert votes of one round and period carry one value when f + n < 2q |
| Quorums.CertifierNextVotes | server/agreement.go:76-137 | a node that cert-voted next-votes only for its cert value, in both steps |
| Quorums.CrossPeriodLock | server/agreement.go:76-137 | if cert votes for v can reach q in a period, no other value, the empty one included, can reach q among its next votes, when 2n + 2f < 3q |
| Quorums.LaterPeriods | server/agreement.go:29-137 | after a cert quorum for v every honest vote of every later period of the round is for v |
| Quorums.CertQuorumsAgree | server/agreement.go:140-156 | two cert quorums of one round, in any periods, are for one value |
| Quorums.LockIffBound | server/serve.go:988-1001 | for every configuration, the lock holds for all lawful vote histories if and only if 2n + 2f < 3q or no quorum can form (q > n); otherwise a history is built in which the lock breaks |
| Fork.ForkedRun | server/serve.go:988-1001 | for every number of voters and faults outside the bound with two honest nodes, a run with the code's thresholds, all n-1 others on every committee, in which two honest nodes halt on different blocks in one round |
| Fork.AgreementIffBound | server/serve.go:535-541 | the exact bound over runs: with the code's quorum all well-prepared runs agree on every round if and only if 2n + 2f < 3q or there are not two honest nodes; of the hash it is only required that it tells two blocks apart |
| Fork.NodesAgreeIff | server/serve.go:540-541 | the same in numbers, for any honest and faulty nodes: with two or more honest ones all well-prepared runs agree if and only if n mod 3 is 0 and at most one is faulty, or n mod 3 is 1 and none is |
| Fork.HaltedOnceOnRuns | server/serve.go:235-259 | in every run a node halts at most once in a round |
| Quorums.IntersectionBound | server/serve.go:540-541 | with q = 2*floor(n/3)+1, exactly which numbers of faults leave an honest voter in the intersection of two quorums, by n mod 3 |
| Quorums.LockingBound | server/serve.go:540-541 | with that q, double counting of next votes leaves the lock at most one fault, and none unless n mod 3 is 0 |
| Network.NetStepKeeps | server/serve.go:426-1085 | every step of an honest node, with arbitrary votes of the others and next votes under either step, keeps tallies sound and the history lawful |
| Network.SamePeriodAgreement | server/agreement.go:140-156 | in every network run, nodes that halt by cert quorum in one period halt on one value, when f + n < 2q |
| Network.RoundAgreement | server/serve.go:235-275 | in every network run, all cert-quorum halts of a round, across periods, are on one value, when 2n + 2f < 3q |
| Network.RoundSafety | server/agreement.go:29-137 | when at any time of a run a node has halted on v by cert quorum, or a cert tally, current or closed, has reached q for v, every honest soft, cert and next vote of later periods of the round, cast before or after, is for v |
| Network.StartsFromLocked | server/serve.go:261-275 | and every node in a later period of the round, at any time, has v as its starting value |
| Network.TallyLock | server/agreement.go:159-175 | with such evidence of a cert quorum for v at one time, no node's next tally of that period, current or closed, at that or any other time reaches q for another value |
| Thresholds.CodeThresholds | server/serve.go:535-541 | no threshold need be assumed: if every node that decides ran step 2 of the round with the n-1 other voters on its committee, the network theorems apply with q = 2*floor(n/3)+1 |
| Ledger.IndexOnRuns | server/util.go:343-364 | in every reachable state the value indexes have the same keys, stored blocks hash to their keys and every leader candidate has a block |
| Ledger.AddOwnKeepsIndex | server/serve.go:482-488 | the node's own proposal keeps the indexes consistent |
| Committee.RoundEntries | server/serve.go:235-259 | a run starts, and every event but an adopted chain that raises the round leaves, with an empty committee and no proposals in period 1 |
| Committee.CommitteeOnRuns | server/util.go:343-364 | from such an entry until a chain is adopted or the period changes, the committee lists each proposer other than the node exactly once, whatever happened in earlier rounds |
| Committee.SyncRepeatsProposer | server/serve.go:1065-1077 | a run of three events after which a proposer is listed twice, because an adopted chain keeps the committee |
| Committee.PeriodRepeatsProposer | server/serve.go:261-275 | a run of three events without an adopted chain after which a proposer is listed twice, because a new period keeps the committee and forgets the proposals |
| Committee.CommitteeCounts | server/util.go:343-364 | in every state of a round entered at start or by halting, the committee lists everybody else exactly as often as there are periods of the round in which a proposal of theirs was accepted, and the node itself never |
| Committee.CommitteeSize | server/util.go:343-364 | it has at most one entry per proposer and period, and exactly that many if all propose in every period |
| Committee.ThresholdRises | server/serve.go:535-541 | then step 2 of period p sets the threshold to 2*((p*(n-1)+1)/3)+1, which from the second period on is more than n voters when n is 4 or more |
| Committee.QuorumOutOfReach | server/serve.go:535-541 | in such a period the soft and the cert votes of all n nodes together do not reach the threshold |
| Chain.HaltLinkedIff | server/serve.go:235-259 | halting on a value keeps a linked chain linked if and only if the node holds a block for the value that has the next number and the tip's hash |
| Chain.AcceptFitsIff | server/util.go:343-364 | a verified proposal keeps all candidate blocks fitting if and only if its block is numbered with the round and linked to the tip |
| Chain.CertVoteLinkedIff | server/serve.go:952-985 | a new cert vote keeps the chain linked in every iteration order if and only if every value that can then win the cert tally is one whose block the node holds |
| Chain.CertStepLinkedIff | server/serve.go:591-659 | the same for step 3 with the vote that the node casts itself |
| Chain.ChainOnRuns | server/serve.go:235-259 | if every event meets conditions on its input and the state before it, the round is the chain length, block i has id i and each PrevHash is the previous Hash, in every state of every run |
| Chain.LyingHashBreaksChain | server/agreement.go:29-54 | a run of four events, one of them a proposal that is numbered and linked honestly but carries a hash that is not its own, after which the chain ends in a nil block and every round timer panics |
| Chain.LeaderVoteHeld | server/agreement.go:29-54 | in every run whose received blocks carry their own hashes, a soft vote that follows the leader is for a block that the node holds under that value |
| Duties.SoftDue | server/agreement.go:29-54 | step 2 past period 1: a block value that alone has the threshold in the closed next tally gets the soft vote, in every iteration order; nothing does when no value has it |
| Duties.LeaderDue | server/agreement.go:29-54 | in period 1, or when the closed tally is won by the empty value, the elected leader's block gets the soft vote; a leader without a block is a panic |
| Duties.CertDue | server/agreement.go:56-74 | step 3: a block value that alone has the soft threshold gets the cert vote, otherwise none is cast |
| Duties.NextDue4 | server/agreement.go:76-100 | step 4 always casts: the cert vote's value, else the empty value if it won the closed tally, else the starting value |
| Duties.NextDue5 | server/agreement.go:102-137 | step 5 casts for a block with a soft quorum, else the empty value if it won the closed tally and no cert vote was cast, else nothing |
| Duties.OwnCertCounted | server/serve.go:591-659 | the node's own cert vote counts at once, and the node halts on a value that then has the threshold |
| Duties.OwnNextCounted | server/serve.go:660-759 | so do its own next votes, and the period is closed on a value that then has the threshold |
| Duties.Ignored | server/serve.go:904-936 | a vote that is not signed, not for the round and period, or not new changes nothing |
| Duties.SoftCounted | server/serve.go:938-951 | any other soft vote adds one to its value and nothing else |
| Duties.CertCounted | server/serve.go:952-985 | any other cert vote adds one to its value; then the node halts on the value that has the threshold, and otherwise nothing else changes |
| Duties.NextCounted | server/serve.go:988-1011 | any other next vote adds one to its value; then the period is closed on the value that has the threshold, the empty one leaving nothing to start from |
| Duties.NoticeHalts | server/serve.go:1042-1050 | the leader's notice halts the node on its value without a quorum; other notices change nothing |
| Duties.IdleTimer | server/serve.go:521-532 | the agreement timer of a node off the committee only elects the leader |
| Duties.PassedOver | server/serve.go:533-776 | a step whose vote is already recorded is passed over |
| Duties.SyncAdopts | server/serve.go:1052-1077 | a longer chain is adopted with its seed and its length as the round; the committee, the seat on it and the threshold stay |
| Duties.PushReplaces | server/serve.go:817-829 | a pushed chain replaces a shorter one and nothing else changes |
| Duties.EarlyKept | server/serve.go:850-876 | proposals for the next round or period are kept in order for later; those further ahead are dropped |
| Duties.ContentsAppend | server/util.go:84-94 | what is hashed of the transactions is all their values in order |
| Following.SoftFollowsLock | server/agreement.go:29-54 | in every network run, when at any time there is evidence of a cert quorum for v, a committee node that comes to step 2 of a later period of the round soft-votes v if v has, in its closed tally, the threshold it then computes, and otherwise casts nothing; it has unless that threshold is above the one that closed the period |
| Proposals.HeldOnRuns | server/util.go:343-364 | in every state of every run the indexes hold, for each value, the last proposal for it that was entered in the period, received, buffered or own; a proposal is entered exactly when it is signed, the first of its proposer, and about the node's round, period, seed, tip and pool |
| Proposals.HaltTakesProposal | server/serve.go:235-259 | over every run, a halt on v, by quorum or notice, leaves as seed the next seed of the last proposal for v entered in the period, and its block on the chain; without one the seed is empty and the block nil |
| Proposals.SeedStays | server/serve.go:1052-1077 | nothing but a halt or an adopted chain changes the seed |
| Proposals.ProposalDue | server/serve.go:452-491 | step 1: the block that won the closed next tally is proposed again, and otherwise a new block on the tip with the chosen transactions; a winning value without a block, or "err", is a panic |
| Proposals.AllChosen | server/util.go:106-149 | the transactions of a new block are from the pool without those of the last block: all of them if fewer than 10000, else 1000 |
| Proposals.TransactionsReceived | server/util.go:49-58 | in every state of every run the candidate blocks, received or own, consist of transactions whose ids the node has received |
| Proposals.TransactionsKept | server/util.go:106-149 | over every run each received transaction is still in the pool or was in a block that was the tip when the node prepared a block |
| Proposals.SeatedOnRuns | server/serve.go:480-483 | in every state of every run a node is on the committee exactly when it has proposed since it last ended a round, and only then it votes |
| Accounting.VoteAccounting | server/serve.go:938-963 | in every reachable state each soft and cert count is the number of distinct recorded voters for the value, and totals are the sizes of the have-voted maps |
| Accounting.NextAccounting | server/serve.go:988-1003 | with at-most-once delivery each next count is step-4 plus step-5 voters for the value, and so is the total |
| Accounting.NextAccountingIff | server/serve.go:988-1003 | an accepted next vote keeps that accounting if and only if its voter was not yet recorded for its step |
| Accounting.OneVoterCloses | server/serve.go:988-1011 | at any positive threshold one voter repeating one step-4 message closes the period alone: the deliveries that the count is short of, in any iteration orders, end with the period closed on its value and no new voter recorded but that one |
| Accounting.CanRepeat | server/serve.go:988-1011 | such deliveries are always possible |
| Accounting.Step1NeverPanics | server/agreement.go:7-27 | over any run in which no received vote, no received block hash and no digest is the string "err", the step-1 panic is unreachable |
| Accounting.ThresholdOnRuns | server/serve.go:535-541 | once step 2 has set it in a round, the threshold never falls for the rest of the round, and is at least 2*floor(n/3)+1 when the n-1 other voters were on the committee |
| Accounting.ErrValuePanics | server/serve.go:452-453 | a run of one vote message after which every enabled round-timer event panics: the initial threshold is 0 and "err" is a possible value |
| Server.DecideStep1 | server/agreement.go:7-27 | step 1's value for the order its scan took, with the scan a maximum |
| Server.DecideStep2 | server/agreement.go:29-54 | whether step 2 follows the leader, or the value it votes for |
| Server.DecideStep3 | server/agreement.go:56-74 | step 3's value: a non-empty soft maximum at the threshold |
| Server.DecideStep4 | server/agreement.go:76-100 | step 4's value from the cert vote, the closed next tally and the starting value |
| Server.DecideStep5 | server/agreement.go:102-137 | step 5's value from the soft tally or the closed next tally |
| Server.CheckCondition | server/agreement.go:140-175 | the halting and next-period conditions return a maximum at the threshold |
| Server.SelectTransactions | server/util.go:106-149 | distinct pool entries are drawn, all of a small pool or a thousand of a full one |
| Server.DropIds | server/util.go:106-149 | exactly the transactions with the block's ids leave the pool |
| Server.Peer.constructor | server/serve.go:395-405 | the initial state of the loop |
| Server.Peer.CheckHalt | server/serve.go:640-659 | halts on some maximum of the cert tally at the threshold, else changes nothing |
| Server.Peer.CheckNext | server/serve.go:705-712 | closes the period on some maximum of the next tally at the threshold, else changes nothing |
| Server.Peer.Execute | server/util.go:343-364 | a verified proposal of a new proposer is indexed under its value and its proposer joins the committee; a nil block crashes |
| Server.Peer.ExecuteBuffered | server/serve.go:431-435 | all buffered proposals in order |
| Server.Peer.PrepareOwnBlock | server/util.go:106-149 | the pool without the last block's transactions and a block over it |
| Server.Peer.FireRoundTimer | server/serve.go:426-519 | is the round-timer event of the state machine, enabled for the choices made; the peer stays valid and never moves back |
| Server.Peer.VoteSoft | server/serve.go:538-590 | equals step 2 of the state machine, threshold included |
| Server.Peer.VoteCert | server/serve.go:591-639 | equals the cert vote of step 3 |
| Server.Peer.VoteNext4 | server/serve.go:660-704 | equals the next vote of step 4 |
| Server.Peer.VoteNext5 | server/serve.go:714-759 | equals the next vote of step 5 |
| Server.Peer.FireAgreementTimer | server/serve.go:521-776 | is the agreement-timer event for the iteration orders its scans took; the peer stays valid, never moves back, and the vote sent is the first in its slot |
| Server.Peer.ReceiveVoteFrom | server/serve.go:904-1019 | is the vote event, verification, counting and the check that follows; tallies only grow within a period |
| Server.Peer.ReceiveProposalFrom | server/serve.go:850-876 | is the proposal event: ignored, buffered or executed; nothing that voting depends on changes |
| Server.Peer.SyncChain | server/serve.go:1052-1077 | a longer chain strictly raises the round, a shorter one changes nothing, and every vote sent stays remembered |
| Server.Peer.FollowNotice | server/serve.go:1042-1050 | the leader's notice moves a valid peer to a later round and it stays valid; other notices change nothing |
| Server.Peer.ReplaceChain | server/serve.go:817-829 | a pushed chain replaces a shorter one without moving the position, and the peer stays valid |
| Server.Peer.PoolTransaction | server/serve.go:838-845 | a transaction changes nothing that the invariant depends on |
| Server.Peer.Handle | server/serve.go:409-1085 | whatever the input, a peer that does not crash stays valid, never moves back, and sends at most one vote, the first in its slot |
| Server.Peer.Serve | server/serve.go:409-1085 | over any sequence of inputs no two votes that the loop sends are for one round, period and slot, and none is for a slot used before |
| Poly1305.KeyLimbsDenote | golang.org/x/crypto/poly1305/sum_ref.go:18-22 | the five masks give limbs of 26 bits that denote the key clamped as in section 2.5 of RFC 7539 |
| Poly1305.AddBlock | golang.org/x/crypto/poly1305/sum_ref.go:28-32 | adding a block's limbs adds its number, and 2^128 for a whole block, without 32-bit overflow |
| Poly1305.Multiply | golang.org/x/crypto/poly1305/sum_ref.go:35-39 | the five 64-bit sums do not overflow and are the product's columns with the excess over 2^130 folded back five-fold |
| Poly1305.Fold | golang.org/x/crypto/poly1305/sum_ref.go:42-50 | the partial reduction does not overflow 32 bits and leaves limbs of 26 bits except for at most 64 over in the second |
| Poly1305.MulReduce | golang.org/x/crypto/poly1305/sum_ref.go:35-50 | one iteration multiplies the accumulator by the key modulo 2^130 - 5 |
| Poly1305.Accumulate | golang.org/x/crypto/poly1305/sum_ref.go:26-83 | the loop and the padded last block compute the polynomial of the standard for every message |
| Poly1305.FinalCarry | golang.org/x/crypto/poly1305/sum_ref.go:86-96 | the single shortened carry pass already reaches limbs of 26 bits, for every accumulator the loop can leave |
| Poly1305.SubtractPrime | golang.org/x/crypto/poly1305/sum_ref.go:98-116 | the branch-free selection yields the remainder modulo 2^130 - 5 |
| Poly1305.Pack | golang.org/x/crypto/poly1305/sum_ref.go:119-122 | the four words are the number modulo 2^128 |
| Poly1305.AddWords | golang.org/x/crypto/poly1305/sum_ref.go:126-133 | the chained 64-bit additions are addition of s modulo 2^128 |
| Poly1305.SumGeneric | golang.org/x/crypto/poly1305/sum_ref.go:12-139 | for every message and key the output is the tag of section 2.5 of RFC 7539 |
| Argon2.RoundMemoryShape | golang.org/x/crypto/argon2/argon2.go:111-114 | the memory is a whole number of lanes of four segments of at least two blocks, fits 32 bits, and is the largest such amount within the request |
| Argon2.WindowIsAvailable | golang.org/x/crypto/argon2/argon2.go:259-278 | the window that indexAlpha computes is exactly the reference set of section 3.4.2 of RFC 9106: a column is in it if and only if it is available |
| Argon2.ReferenceAvailable | golang.org/x/crypto/argon2/argon2.go:259-285 | for every pass, slice, lane, index and random word the reference is inside memory and to an available column of the lane chosen |
| Argon2.Mapping | golang.org/x/crypto/argon2/argon2.go:254-286 | the mapping of section 3.4.2 of RFC 9106 for every random word: the lane is J2 modulo the lanes (the own one in the first slice), and the block is the one of the reference set with exactly floor(|W| * floor(J1^2 / 2^32) / 2^32) blocks computed after it |
| Lanes.AccessPrivate | golang.org/x/crypto/argon2/argon2.go:207-224 | what a lane reads is in memory and either its own or outside the slice, and never the block being written |
| Lanes.RaceFree | golang.org/x/crypto/argon2/argon2.go:207-240 | what one lane writes in a slice no other lane reads or writes in it |
| Lanes.SliceDeterministic | golang.org/x/crypto/argon2/argon2.go:229-240 | every interleaving of the lanes' reads and writes that reaches the barrier leaves the same memory |
| Lanes.ParallelIsSequential | golang.org/x/crypto/argon2/argon2.go:229-240 | that memory is the one from running the lanes one after the other |
| Lanes.FillDeterministic | golang.org/x/crypto/argon2/argon2.go:229-240 | over all passes the memory does not depend on the scheduling in any slice |
| Lanes.BarrierReachable | golang.org/x/crypto/argon2/argon2.go:229-240 | from every state of a slice some schedule brings all lanes to the barrier |
| Lanes.ProcessSegment | golang.org/x/crypto/argon2/argon2.go:184-227 | the loop of a goroutine, with the wrapping previous index and the address counter, computes the lane's run |
| Lanes.ProcessBlocks | golang.org/x/crypto/argon2/argon2.go:180-240 | all passes with the lanes in order leave the memory that every parallel run leaves |
| Ssh.WindowAddExact | golang.org/x/crypto/ssh/common.go:324-341 | the wrap test refuses an addition if and only if the sum exceeds 32 bits |
| Ssh.Window.constructor | golang.org/x/crypto/ssh/common.go:313-320 | an empty open window |
| Ssh.Window.Add | golang.org/x/crypto/ssh/common.go:324-341 | the window grows by the amount, or is unchanged and the addition refused |
| Ssh.Window.Reserve | golang.org/x/crypto/ssh/common.go:355-373 | what is taken is the request or all there is, and leaves the window |
| Ssh.StepKeeps | golang.org/x/crypto/ssh/channel.go:232-441 | no step of any goroutine of either endpoint fails a check, and each keeps conservation, byte order and the handshake |
| Ssh.RunInv | golang.org/x/crypto/ssh/channel.go:232-508 | every interleaving from the opening of a channel is free of receiver errors ("remote side wrote too much", invalid window update) and keeps the invariant |
| Ssh.WindowConserved | golang.org/x/crypto/ssh/channel.go:286-368 | in every reachable state sender window, data and credit under way, unread and uncredited bytes and discarded bytes add up to 2^21 |
| Ssh.NothingLost | golang.org/x/crypto/ssh/channel.go:325-331 | when only streams 0 and 1 are used nothing is ever discarded |
| Ssh.ReadIsPrefix | golang.org/x/crypto/ssh/channel.go:232-368 | what is read on streams 0 and 1 is always a prefix of what was written on them |
| SshRuns.RunDropped | golang.org/x/crypto/ssh/channel.go:325-331 | in every reachable state the bytes written to streams above 1 are those dropped, in the handler, on the wire and left to send |
| SshRuns.QuietRestores | golang.org/x/crypto/ssh/channel.go:335-368 | when all is read and credited, streams 0 and 1 have been read completely and the sender has the whole window back, less every byte it ever wrote to another stream |
| SshRuns.OneByteLost | golang.org/x/crypto/ssh/channel.go:325-331 | a run of eight events with one byte on stream 2, after which nothing is in transit and the window is one byte short |
| SshRuns.LongWriteNeverEnds | golang.org/x/crypto/ssh/channel.go:134-139 | a write with 2^32 bytes or more left has as many times 2^32 bytes left in every continuation of the run |
| SshRuns.ShortWriteGetsOn | golang.org/x/crypto/ssh/channel.go:253-256 | in every reachable state a shorter write reserves a non-empty chunk on an open window |
| SshLive.Completes | golang.org/x/crypto/ssh/channel.go:232-368 | no deadlock: from every sound state some continuation completes a running write of less than 2^32 bytes that the window suffices for |
| SshLive.RunningCompletesIff | golang.org/x/crypto/ssh/channel.go:232-368 | from every reachable state a running write can be completed by some continuation if and only if less than 2^32 bytes are left and, on streams 0 and 1, less than 2^21 bytes have been committed to the other streams, or, on another stream, these and what is left make at most 2^21 |
| SshLive.WriteCompletesIff | golang.org/x/crypto/ssh/channel.go:232-284 | the same for a write about to begin in any reachable state |
| SshLive.CompletesOnIff | golang.org/x/crypto/ssh/channel.go:232-284 | some run completes a write if and only if it is shorter than 2^32 bytes on streams 0 and 1, and at most 2^21 bytes long on any other stream |
| SshLive.SpentForGood | golang.org/x/crypto/ssh/channel.go:325-331 | once 2^21 bytes have been committed to streams above 1, no byte on streams 0 and 1 goes out in any continuation |
| SshLive.StreamTwo | golang.org/x/crypto/ssh/channel.go:325-331 | right after the handshake a write on stream 2 can be completed if and only if it is at most 2^21 bytes long |
| SshRuns.OneByteOver | golang.org/x/crypto/ssh/channel.go:134-139 | of 2^32 + 1 bytes the first chunk is one byte, and every chunk after it is empty |
| SshRuns.ChunkIsLeast | golang.org/x/crypto/ssh/channel.go:253-256 | a chunk is the least of packet limit, length left modulo 2^32 and window |
| SshPeer.AnyPeer | golang.org/x/crypto/ssh/channel.go:286-368 | against any peer, in every order of packets, reads and credits in which nothing is refused, at most 2^21 bytes are taken in and not credited, and what is read of a stream is the beginning of what arrived on it |
| SshPeer.RefusedIff | golang.org/x/crypto/ssh/channel.go:286-323 | in every such state a data packet is refused if and only if it is not empty and is above the payload limit, not as long as it says, or more than 2^21 outstanding bytes leave room for |
| SshPeer.ControlRefusedIff | golang.org/x/crypto/ssh/channel.go:419-441 | credit is refused exactly when it does not fit 32 bits, an opening or confirmation when it is a second one or its packet size is below 9 or above 2^31 |
| Channel.ChannelEnd.constructor | golang.org/x/crypto/ssh/channel.go:457-473 | a new channel: full own window, empty buffers, no window of the peer |
| Channel.ChannelEnd.HandleData | golang.org/x/crypto/ssh/channel.go:286-333 | the packet is refused exactly as the protocol step says, or its bytes are in their stream's buffer and the window is lowered |
| Channel.ChannelEnd.ReadExtended | golang.org/x/crypto/ssh/channel.go:346-368 | the bytes read leave the buffer in order and are credited to the peer |
| Channel.ChannelEnd.CloseWrite | golang.org/x/crypto/ssh/channel.go:538-545 | refused before the channel is open; then the end of data is announced and remembered |
| Channel.ChannelEnd.WriteExtended | golang.org/x/crypto/ssh/channel.go:232-284 | refused after CloseWrite with nothing sent; otherwise the data goes out in order in packets within the peer's limit, as the protocol's reserve and send steps do; with window enough, all of it if shorter than 2^32 bytes, else exactly its length modulo 2^32, and then the loop is stuck |
| Buffer.FifoBuffer.constructor | golang.org/x/crypto/ssh/buffer.go:32-40 | an empty open buffer |
| Buffer.FifoBuffer.Write | golang.org/x/crypto/ssh/buffer.go:44-51 | the bytes are appended to the unread ones |
| Buffer.FifoBuffer.Eof | golang.org/x/crypto/ssh/buffer.go:55-60 | the buffer is closed and keeps its bytes |
| Buffer.FifoBuffer.Read | golang.org/x/crypto/ssh/buffer.go:64-97 | as many bytes as fit and are there, in order; end of file or waiting if and only if there are none |
| Der.ElementRoundTrip | golang.org/x/crypto/cryptobyte/asn1.go:681-751 | what is written for an element is read back, if and only if the five tag number bits are not all ones and its content is shorter than 2^32 - 6 bytes |
| Der.WrittenTags | golang.org/x/crypto/cryptobyte/asn1.go:217-229 | the builder writes an element if and only if those bits are not all ones |
| Der.HighTagRefused | golang.org/x/crypto/cryptobyte/asn1.go:687-692 | no string that starts with such a tag is read |
| Der.LengthIsDefinite | golang.org/x/crypto/cryptobyte/builder.go:219-259 | the length octets written are the only ones of the definite form of section 8.1.3 of X.690 in the fewest octets (section 10.1) |
| Der.ElementCanonical | golang.org/x/crypto/cryptobyte/asn1.go:681-751 | every string that readASN1 accepts starts with the one encoding of what it returns (sections 8.1.3 and 10.1 of X.690) |
| Der.RoundTrip | golang.org/x/crypto/cryptobyte/asn1.go:217-229 | any nesting of elements, length-prefixed values and bytes that the builder accepts reads back as itself if and only if no element exceeds the reader's limit |
| Der.Canonical | golang.org/x/crypto/cryptobyte/string.go:98-119 | whatever nesting is read re-encodes to the bytes it was read from |
| Cryptobyte.Builder.constructor | golang.org/x/crypto/cryptobyte/builder.go:184-191 | a builder, or a child with its pending length |
| Cryptobyte.Builder.Add | golang.org/x/crypto/cryptobyte/builder.go:276-291 | the bytes are appended unless an error is recorded |
| Cryptobyte.Builder.WidenASN1 | golang.org/x/crypto/cryptobyte/builder.go:219-259 | the first length octet is set and the content moved up unchanged by the number of further octets |
| Cryptobyte.Builder.FillLength | golang.org/x/crypto/cryptobyte/builder.go:261-269 | the length's octets are written big-endian, and it is reported whether they suffice |
| Cryptobyte.Builder.FlushChild | golang.org/x/crypto/cryptobyte/builder.go:200-274 | the result is the parent's bytes, the shortest (or the fixed-size) length and the content, or an error exactly when the length does not fit; on error at most the reserved octets have changed |
| Cryptobyte.Builder.AddASN1 | golang.org/x/crypto/cryptobyte/asn1.go:217-229 | an element is appended, or an error recorded for a high tag number or too long a content |
| Cryptobyte.Builder.AddLengthPrefixed | golang.org/x/crypto/cryptobyte/builder.go:171-198 | the content built by the child is appended behind its length |
| Cryptobyte.Builder.AddItem | golang.org/x/crypto/cryptobyte/builder.go:171-198 | building any nested item appends exactly its encoding, or records an error exactly when it has none |
| Cryptobyte.Reader.constructor | golang.org/x/crypto/cryptobyte/string.go:22-24 | a string to read |
| Cryptobyte.Reader.Read | golang.org/x/crypto/cryptobyte/string.go:26-33 | the first bytes are taken off, or nothing when there are too few |
| Cryptobyte.Reader.ReadUnsigned | golang.org/x/crypto/cryptobyte/string.go:84-96 | up to four octets are read as a big-endian number without overflow |
| Cryptobyte.Reader.ReadASN1 | golang.org/x/crypto/cryptobyte/asn1.go:681-751 | an element, with or without its header, is taken off exactly when there is a well-formed one, else nothing is; the tag variable is overwritten whenever there is a low tag |
| Integer.IntBytesValue | golang.org/x/crypto/cryptobyte/asn1.go:37-49 | the shortest two's complement of every integer passes the reader's check and denotes it |
| Integer.CheckedIsShortest | golang.org/x/crypto/cryptobyte/asn1.go:286-299 | octets that pass checkASN1Integer are the shortest encoding of their value, so the only one (section 8.3 of X.690) |
| Integer.EightOctets | golang.org/x/crypto/cryptobyte/asn1.go:331-336 | checked octets number at most eight if and only if they denote a 64-bit integer |
| Integer.SignedBytes | golang.org/x/crypto/cryptobyte/asn1.go:37-49 | the counting and emitting loops produce the shortest encoding |
| Integer.Asn1Signed | golang.org/x/crypto/cryptobyte/asn1.go:331-344 | for up to eight octets the shifts sign-extend to their value, whatever the variable held before; more are refused |
| Integer.Int64RoundTrip | golang.org/x/crypto/cryptobyte/asn1.go:323-329 | every 64-bit integer is read back from its element |
| Integer.Int64Canonical | golang.org/x/crypto/cryptobyte/asn1.go:323-329 | an integer is read from no other encoding |
| Integer.AddASN1Signed | golang.org/x/crypto/cryptobyte/asn1.go:37-49 | the builder grows by the element of the shortest encoding, or records an error for a high tag number |
| Integer.ReadASN1Int64 | golang.org/x/crypto/cryptobyte/asn1.go:323-329 | succeeds exactly on such an element, with its value |
| Sponge.PadIsPad101 | golang.org/x/crypto/sha3/sha3.go:98-115 | the separation byte and the flipped last bit append the suffix and 1 0...0 1 of section 5.1 of FIPS 202, filling the last block |
| Sponge.PaddedIsAbsorbed | golang.org/x/crypto/sha3/sha3.go:98-121 | the state before squeezing is that of absorbing the padded message in whole blocks |
| Sponge.AbsorbAppend | golang.org/x/crypto/sha3/sha3.go:125-157 | absorbing may be divided anywhere, the rest of the first part going in front of the second |
| Sponge.Hash.constructor | golang.org/x/crypto/sha3/sha3.go:22-47 | an absorbing sponge without input |
| Sponge.Hash.Reset | golang.org/x/crypto/sha3/sha3.go:57-64 | back to an absorbing sponge without input |
| Sponge.Hash.PadAndPermute | golang.org/x/crypto/sha3/sha3.go:98-121 | from then on all output is that of the sponge for the input so far |
| Sponge.Hash.Write | golang.org/x/crypto/sha3/sha3.go:125-157 | for every division of the input the whole blocks are absorbed and the rest, never a full block, is buffered; refused once output has begun |
| Sponge.Hash.Read | golang.org/x/crypto/sha3/sha3.go:160-181 | for every division of the output the bytes given so far are the beginning of the one-shot output, and the buffer is never left empty |
| Sponge.Hash.Sum | golang.org/x/crypto/sha3/sha3.go:185-192 | the digest of the input so far, with the hash left as it was; of a squeezing hash the copy starts 168 - rate bytes too early: it panics or repeats bytes already given, and is right only at the largest rate |
| Blake2b.RaiseAdds | golang.org/x/crypto/blake2b/blake2b_generic.go:31-35 | the counter in two words grows by a block modulo 2^128, carry included |
| Blake2b.LowerSubtracts | golang.org/x/crypto/blake2b/blake2b.go:253-259 | lowering the counter subtracts modulo 2^128, borrow included |
| Blake2b.LastCounter | golang.org/x/crypto/blake2b/blake2b.go:129-137 | lowered before and raised in the last block, the counter is the number of bytes hashed |
| Blake2b.HashBlocks | golang.org/x/crypto/blake2b/blake2b_generic.go:27-178 | every block is compressed with the number of bytes up to its end |
| Blake2b.LastBlock | golang.org/x/crypto/blake2b/blake2b.go:127-137 | the zero-padded last block is compressed with the total number of bytes and the final flag |
| Blake2b.LastPadded | golang.org/x/crypto/blake2b/blake2b.go:127-137 | the last block is 128 bytes, the data and then zeros, and counts the bytes of the data only |
| Blake2b.KeyPadded | golang.org/x/crypto/blake2b/blake2b.go:99-113 | a key is a first block of 128 bytes, the key and then zeros |
| Blake2b.CheckSum | golang.org/x/crypto/blake2b/blake2b.go:115-137 | the one-shot digest is that of section 3.3 of RFC 7693 |
| Blake2b.Digest.constructor | golang.org/x/crypto/blake2b/blake2b.go:99-113 | no input, or the key as a first block |
| Blake2b.Digest.Reset | golang.org/x/crypto/blake2b/blake2b.go:203-211 | the same state again |
| Blake2b.Digest.Write | golang.org/x/crypto/blake2b/blake2b.go:213-242 | the input grows by the bytes; all but its last 1 to 128 bytes are compressed |
| Blake2b.Digest.Compress | golang.org/x/crypto/blake2b/blake2b.go:223-235 | whole blocks are compressed after what was compressed before |
| Blake2b.Digest.Keep | golang.org/x/crypto/blake2b/blake2b.go:237-239 | what is left, at most a block, is kept for later |
| Blake2b.Digest.Finalize | golang.org/x/crypto/blake2b/blake2b.go:250-262 | the digest of all the input, from a state that can still be written to |
| Blake2b.HashParts | golang.org/x/crypto/blake2b/blake2b.go:203-262 | for every division of the data over writes, and with or without a key, the digest is that of the whole |

## Left out

- gRPC servers and clients, response channels and resending, timers as clocks, logging, the probe and the command-line tools: input and output. Timers are events that may happen at any time.
- RSA signatures, SHA-256 and the floating-point leader lottery: their outcomes are inputs of events. Signatures are ideal; that signed fields are joined without delimiters is not modelled.
- Counters of the agreement node are unbounded integers, and absent Go slices and seeds are empty strings.
- The have-voted maps of the model store the value voted for, where the code stores `true`; only membership is used by the steps.
- Agreement on the seed across nodes: several proposers may write different seeds under one value in later periods, so the code does not decide it.
- Network theorems speak of halts by certification quorum; a node that adopts a peer's chain or a leader's notice does so without a quorum check.
- Network.NetStepKeeps: takes next votes to be delivered at most once per voter and named step; without that one voter closes a period alone (`Accounting.OneVoterCloses`).
- Quorums.LockIffBound: the only-if half is about lawful vote histories and any quorum; `Fork.AgreementIffBound` is the statement about runs, for the code's quorum.
- Fork.AgreementIffBound: runs in which step 2 sees fewer than the n - 1 others, or a node decides before its step 2, have smaller thresholds and are not covered.
- NodeRuns.NoEquivocation: counts votes per slot, where a slot is soft, cert, next in step 4 or next in step 5.
- Argon2's block mixing, initial blocks and key extraction: the mixing function, the first word of a block and the address blocks are parameters.
- Lanes.ProcessBlocks: runs the goroutines of a slice in order; that any other order gives the same memory is `Lanes.FillDeterministic`.
- SSH packets are records of their fields rather than bytes; closing a channel, requests, rejection, key exchange and ciphers are not modelled. Waiting on a condition variable is an event that cannot happen yet.
- Ssh.ReadIsPrefix: takes at most one write at a time on each stream, as the code's comment on its packet pool demands.
- Channel.ChannelEnd.WriteExtended: runs without interruption; returns where the program would wait for credit or send empty packets for ever.
- Cryptobyte.Reader.Read: takes a string that is not nil; reading zero bytes of a nil string fails in the code.
- Buffer.FifoBuffer.Read: returns the bytes instead of filling the caller's slice, and reports waiting instead of blocking.
- Cryptobyte builders of fixed size: their flush does not hand the child's bytes to the parent. Whether a child's array has been reallocated is left open. Panics of continuations, writes to a parent while a child is pending, and overflow of a 64-bit length are not modelled either.
- Cryptobyte booleans, big integers, object identifiers, times and bit strings: thin layers, of which booleans use different tags when written and read.
- SHA-3's permutation, BLAKE2b's compression and the conversion of states to digest bytes: parameters.
- Poly1305.SumGeneric: returns the tag instead of writing into the caller's array.
- Assembly variants, ACME, OCSP, OpenPGP, PKCS#12, SSH authentication and the remaining libraries.
