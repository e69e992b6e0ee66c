/**
 Which writes on an SSH channel can be completed, from every reachable state: the channel never deadlocks on the streams
 that are read, and what goes to the others uses up the window for good.
 */
module SshLive {

  import opened Wrappers
  import opened Arithmetic
  import opened Ssh
  import opened SshRuns

  // ------------------------------------------------------------------ what is in transit

  /**
   The work still to be done on what is in transit: everything moves from a reserved chunk to a packet, the handler, the
   buffer, a read, a credit and back to the window, and gets lighter on the way.
   */
  function Weight(st: State): nat
    requires Wf(st)
  {
    EndWeight(st.ends[0]) + EndWeight(st.ends[1]) + QueueWeight(st.queues[0]) + QueueWeight(st.queues[1])
  }

  function EndWeight(e: Endpoint): nat {
    WritersWeight(e.writers) + 7 * |e.handling| + 6 * (|e.pending| + |e.extPending|) + 5 * |e.taken| + 4 * |e.owed|
  }

  function WritersWeight(ws: seq<Writer>): nat { if ws == [] then 0 else ChunkWeight(ws[0]) + WritersWeight(ws[1..]) }

  function ChunkWeight(w: Writer): nat { match w.chunk case None => 0 case Some(n) => 9 * n + 4 }

  function QueueWeight(q: seq<Msg>): nat { if q == [] then 0 else MsgWeight(q[0]) + QueueWeight(q[1..]) }

  function MsgWeight(m: Msg): nat { if m.Data? then 8 * |m.payload| + 3 else 3 }

  lemma {:induction false} WritersUpdate(ws: seq<Writer>, s: nat, w: Writer)
    requires s < |ws|
    ensures WritersWeight(ws[s := w]) + ChunkWeight(ws[s]) == WritersWeight(ws) + ChunkWeight(w)
  {
    if s > 0 {
      assert ws[s := w][1..] == ws[1..][s - 1 := w];
      WritersUpdate(ws[1..], s - 1, w);
    } else {
      assert ws[0 := w][1..] == ws[1..];
    }
  }

  lemma {:induction false} QueueHeavier(q: seq<Msg>, m: Msg)
    ensures QueueWeight(q + [m]) == QueueWeight(q) + MsgWeight(m)
  {
    if q == [] {
      assert q + [m] == [m];
      assert [m][1..] == [];
    } else {
      assert (q + [m])[1..] == q[1..] + [m];
      QueueHeavier(q[1..], m);
    }
  }

  lemma {:induction false} HeldChunk(ws: seq<Writer>) returns (s: nat)
    requires WritersWeight(ws) > 0
    ensures s < |ws| && ws[s].chunk.Some?
  {
    if ws[0].chunk.Some? {
      s := 0;
    } else {
      var t := HeldChunk(ws[1..]);
      s := t + 1;
    }
  }

  lemma {:induction false} NoChunks(ws: seq<Writer>)
    requires WritersWeight(ws) == 0
    ensures Reserved(ws) == 0 && forall s :: 0 <= s < |ws| ==> ws[s].chunk.None?
  {
    if ws != [] { NoChunks(ws[1..]); }
  }

  // ------------------------------------------------------------------ draining

  /** What a writer has left beyond the chunk that it has reserved. */
  function Rest(w: Writer): int { |w.todo| - Held(w) }

  /** The same has been written; some of the reserved chunks may have been sent. */
  predicate OnlySent(ws: seq<Writer>, ws': seq<Writer>) {
    && |ws'| == |ws|
    && forall k :: 0 <= k < |ws| ==> ws'[k].written == ws[k].written && Rest(ws'[k]) == Rest(ws[k]) && |ws'[k].todo| <= |ws[k].todo|
  }

  predicate OnlySentBoth(st: State, st': State) {
    && Wf(st) && Wf(st')
    && OnlySent(st.ends[0].writers, st'.ends[0].writers) && OnlySent(st.ends[1].writers, st'.ends[1].writers)
  }

  /** One event makes what is in transit lighter. */
  ghost predicate Lightens(st: State, ev: Event) {
    Wf(st) && Step(st, ev).Ok? && Weight(Step(st, ev).state) < Weight(st) && OnlySentBoth(st, Step(st, ev).state)
  }

  lemma LocalLightens(st: State, i: nat) returns (ev: Event)
    requires Inv(st) && i < 2
    requires var e := st.ends[i];
             e.handling != [] || e.pending != [] || e.extPending != [] || e.taken != []
    ensures Lightens(st, ev)
  {
    hide EndWeight, Inv, Lightens, Deposited, TakenFrom, Credited;
    InvWf(st);
    var e := st.ends[i];
    if e.handling != [] {
      ev := Deposit(i);
      DepositedWeight(e);
      PutLightens(st, i, Deposited(e), ev);
    } else if e.pending != [] {
      ev := ReadBuffer(i, 0, |e.pending|);
      TakenWeight(e, 0);
      PutLightens(st, i, TakenFrom(e, 0, |e.pending|), ev);
    } else if e.extPending != [] {
      ev := ReadBuffer(i, 1, |e.extPending|);
      TakenWeight(e, 1);
      PutLightens(st, i, TakenFrom(e, 1, |e.extPending|), ev);
    } else {
      ev := Credit(i, 0);
      CreditedWeight(e);
      PutLightens(st, i, Credited(e, 0), ev);
    }
  }

  lemma PutLightens(st: State, i: nat, f: Endpoint, ev: Event)
    requires Wf(st) && i < 2 && Step(st, ev) == Ok(Put(st, i, f)) && f.writers == st.ends[i].writers && EndWeight(f) < EndWeight(st.ends[i])
    ensures Lightens(st, ev)
  {
    hide Step, EndWeight;
  }

  lemma DepositedWeight(e: Endpoint)
    requires e.handling != []
    ensures Deposited(e).writers == e.writers && EndWeight(Deposited(e)) < EndWeight(e)
  {
    hide WritersWeight;
  }

  lemma TakenWeight(e: Endpoint, s: nat)
    requires s < 2 && (if s == 0 then e.pending else e.extPending) != []
    ensures var f := TakenFrom(e, s, if s == 0 then |e.pending| else |e.extPending|);
            f.writers == e.writers && EndWeight(f) < EndWeight(e)
  {
    hide WritersWeight;
  }

  lemma CreditedWeight(e: Endpoint)
    requires e.taken != []
    ensures Credited(e, 0).writers == e.writers && EndWeight(Credited(e, 0)) < EndWeight(e)
  {
    hide WritersWeight;
  }

  lemma SendLightens(st: State, i: nat) returns (ev: Event)
    requires Inv(st) && i < 2
    requires st.ends[i].owed != [] || WritersWeight(st.ends[i].writers) > 0
    ensures Lightens(st, ev)
  {
    hide WritersWeight, QueueWeight, Balance, Order, Handshake;
    var e := st.ends[i];
    if e.owed != [] {
      ev := Announce(i, 0);
      QueueHeavier(st.queues[i], Adjust(e.owed[0]));
    } else {
      var s := HeldChunk(e.writers);
      var w := e.writers[s];
      ev := Send(i, s);
      assert Held(w) <= |w.todo|;
      QueueHeavier(st.queues[i], Data(s, w.chunk.value, w.todo[..w.chunk.value]));
      WritersUpdate(e.writers, s, Writer(w.written, w.todo[w.chunk.value..], None));
    }
  }

  lemma ReceiveLightens(st: State, i: nat)
    requires Inv(st) && i < 2 && st.ends[i].handling == [] && st.queues[1 - i] != []
    ensures Lightens(st, Receive(i))
  {
    hide WritersWeight, Inv, Handle;
    StepKeeps(st, Receive(i));
    InvWf(st);
    HandleWeight(st.ends[i], st.queues[1 - i][0]);
  }

  lemma HandleWeight(e: Endpoint, m: Msg)
    requires e.handling == [] && Handle(e, m).Some?
    ensures var f := Handle(e, m).value;
            f.writers == e.writers && EndWeight(f) <= EndWeight(e) + 7 * PayloadOf(m)
  {
    hide WritersWeight, WindowAdd, Wrap32;
  }

  /** As long as anything is in transit, some event makes it lighter. */
  lemma SomethingLightens(st: State) returns (ev: Event)
    requires Inv(st) && Wf(st) && Weight(st) > 0
    ensures Lightens(st, ev)
  {
    hide Inv, Lightens, WritersWeight, QueueWeight;
    var a, b := st.ends[0], st.ends[1];
    if a.handling != [] || a.pending != [] || a.extPending != [] || a.taken != [] {
      ev := LocalLightens(st, 0);
    } else if b.handling != [] || b.pending != [] || b.extPending != [] || b.taken != [] {
      ev := LocalLightens(st, 1);
    } else if st.queues[1] != [] {
      ReceiveLightens(st, 0);
      ev := Receive(0);
    } else if st.queues[0] != [] {
      ReceiveLightens(st, 1);
      ev := Receive(1);
    } else {
      assert QueueWeight([]) == 0 by { EmptyQueue(); }
      if a.owed != [] || WritersWeight(a.writers) > 0 { ev := SendLightens(st, 0); } else { ev := SendLightens(st, 1); }
    }
  }

  lemma EmptyQueue()
    ensures QueueWeight([]) == 0
  {
  }

  /** What every event keeps. */
  predicate Sound(st: State) { Inv(st) && DroppedBoth(st) }

  lemma SoundStep(st: State, ev: Event)
    requires Sound(st)
    ensures Wf(st) && Step(st, ev).Ok? && Sound(Step(st, ev).state)
  {
    hide Step, Inv, DroppedBoth;
    InvWf(st);
    StepKeeps(st, ev);
    StepKeepsDropped(st, ev);
  }

  /** Everything in transit can be brought to rest. */
  lemma {:induction false} Drain(st: State) returns (evs: seq<Event>, st': State)
    requires Sound(st) && Wf(st)
    ensures Steps(st, evs) == Ok(st') && Sound(st') && Wf(st') && Weight(st') == 0 && OnlySentBoth(st, st')
    decreases Weight(st)
  {
    hide Step, Sound, Weight, OnlySentBoth;
    if Weight(st) == 0 {
      SentNothing(st);
      evs, st' := [], st;
    } else {
      assert Inv(st) by { SoundIs(st); }
      var ev := SomethingLightens(st);
      SoundStep(st, ev);
      var mid := Step(st, ev).state;
      InvWfOf(mid);
      var rest;
      rest, st' := Drain(mid);
      SentTwice(st, mid, st');
      OneStep(st, ev);
      StepsSteps(st, [ev], rest);
      evs := [ev] + rest;
    }
  }

  lemma OneStep(st: State, ev: Event)
    requires Wf(st) && Step(st, ev).Ok?
    ensures Steps(st, [ev]) == Step(st, ev)
  {
    hide Step;
    assert [ev][..0] == [];
  }

  lemma SentNothing(st: State)
    requires Wf(st)
    ensures OnlySentBoth(st, st)
  {
  }

  lemma SentTwice(st: State, mid: State, st': State)
    requires OnlySentBoth(st, mid) && OnlySentBoth(mid, st')
    ensures OnlySentBoth(st, st')
  {
  }

  lemma SoundIs(st: State)
    requires Sound(st)
    ensures Inv(st) && DroppedBoth(st)
  {
  }

  lemma InvWfOf(st: State)
    requires Sound(st)
    ensures Wf(st)
  {
  }

  // ------------------------------------------------------------------ completing a write

  /** Bytes that have gone to the streams that are dropped, or for which window is reserved. */
  function Committed(ws: seq<Writer>): int { CommittedBy(Others(ws)) }

  function CommittedBy(ws: seq<Writer>): int { Written(ws) - Left(ws) + Reserved(ws) }

  lemma {:induction false} SameSums(ws: seq<Writer>, ws': seq<Writer>)
    requires OnlySent(ws, ws')
    ensures CommittedBy(ws') == CommittedBy(ws)
  {
    if ws != [] { SameSums(ws[1..], ws'[1..]); }
  }

  lemma CommittedUpdate(ws: seq<Writer>, s: nat, w: Writer)
    requires s < |ws|
    ensures s <= 1 ==> Committed(ws[s := w]) == Committed(ws)
    ensures s >= 2 ==> Committed(ws[s := w]) == Committed(ws) + |w.written| - Rest(w) - |ws[s].written| + Rest(ws[s])
  {
    hide Written, Left, Reserved, Others;
    OthersUpdate(ws, s, w);
    if s >= 2 {
      assert Others(ws[s := w]) == Others(ws)[s - 2 := w] && Others(ws)[s - 2] == ws[s] by { OthersAt(ws, s, w); }
      ReservedUpdate(Others(ws), s - 2, w);
    }
  }

  lemma OthersAt(ws: seq<Writer>, s: nat, w: Writer)
    requires 2 <= s < |ws|
    ensures |Others(ws)| == |ws| - 2 && Others(ws[s := w]) == Others(ws)[s - 2 := w] && Others(ws)[s - 2] == ws[s]
  {
  }

  /** The chunks of streams 0 and 1 are apart from those of the others. */
  lemma ReservedParts(ws: seq<Writer>, s: nat)
    ensures Reserved(Others(ws)) <= Reserved(ws)
    ensures s < 2 && s < |ws| ==> Reserved(Others(ws)) + Held(ws[s]) <= Reserved(ws)
  {
    if |ws| >= 2 { assert ws[1..][1..] == ws[2..]; }
  }

  /** With nothing in transit the sender has the window but for what it has sent to the other streams. */
  lemma DrainedWindow(st: State, who: nat)
    requires Sound(st) && Wf(st) && who < 2 && Weight(st) == 0 && st.ends[1 - who].announced
    ensures var ws := st.ends[who].writers;
            st.ends[who].remoteWin + Committed(ws) == WINDOW
    ensures forall s :: 0 <= s < |st.ends[who].writers| ==> st.ends[who].writers[s].chunk.None?
  {
    hide Order, Sizes, Handshake, Others, Written, Left;
    var s, r := st.ends[who], st.ends[1 - who];
    NoChunks(s.writers);
    ReservedParts(s.writers, 0);
    WeighsNothing(st.queues[0]);
    WeighsNothing(st.queues[1]);
    assert Sum([]) == 0 && InFlight([]) == 0 && CreditInFlight([]) == 0 && OthersInFlight([]) == 0;
    assert Balance(s, [], r, []) && Dropped(s, [], r);
  }

  lemma WeighsNothing(q: seq<Msg>)
    requires QueueWeight(q) == 0
    ensures q == []
  {
  }

  /** The window suffices for a write on stream `s`. */
  predicate Affordable(ws: seq<Writer>, s: nat) {
    s < |ws| && if s <= 1 then Committed(ws) < WINDOW else Committed(ws) + Rest(ws[s]) <= WINDOW
  }

  /** A write of less than 2^32 bytes that the window suffices for is running on stream `s`. */
  ghost predicate Running(st: State, who: nat, s: nat) {
    && Sound(st) && Wf(st) && who < 2 && s < |st.ends[who].writers| && |st.ends[who].writers[s].todo| < TWO32
    && Affordable(st.ends[who].writers, s)
  }

  lemma StillRunning(st: State, st': State, who: nat, s: nat)
    requires Running(st, who, s) && Sound(st') && OnlySentBoth(st, st')
    ensures Running(st', who, s) && |st'.ends[who].writers[s].todo| <= |st.ends[who].writers[s].todo|
  {
    hide Sound, CommittedBy;
    SameSums(Others(st.ends[who].writers), Others(st'.ends[who].writers));
  }

  /** Drain what is in transit; then the window is open for another chunk, and so on until the write is done. */
  lemma {:induction false} Completes(st: State, who: nat, s: nat) returns (evs: seq<Event>)
    requires Running(st, who, s)
    ensures Steps(st, evs).Ok? && Todo(Steps(st, evs).state, who, s) == 0
    decreases |st.ends[who].writers[s].todo|
  {
    hide Step, Sound, Weight, Affordable;
    var st1;
    evs, st1 := Drain(st);
    StillRunning(st, st1, who, s);
    if st1.ends[who].writers[s].todo != [] {
      var st2 := ChunkGoesOut(st1, who, s);
      var more := [Reserve(who, s), Send(who, s)];
      var rest := Completes(st2, who, s);
      StepsSteps(st1, more, rest);
      StepsSteps(st, evs, more + rest);
      evs := evs + (more + rest);
    }
  }

  lemma OpenWindow(st: State, who: nat, s: nat)
    requires Running(st, who, s) && Weight(st) == 0 && st.ends[who].writers[s].todo != []
    ensures var e := st.ends[who];
            e.remoteWin > 0 && e.writers[s].chunk.None? && e.maxRemote == MAX_PACKET
    ensures ChunkSize(MAX_PACKET, |st.ends[who].writers[s].todo|, st.ends[who].remoteWin) > 0
  {
    hide Step, Sound, Weight, Committed;
    SoundIs(st);
    WriterReady(st, who, s);
    DrainedWindow(st, who);
    NoWrap32(|st.ends[who].writers[s].todo|);
  }

  lemma ChunkGoesOut(st: State, who: nat, s: nat) returns (st': State)
    requires Running(st, who, s) && Weight(st) == 0 && st.ends[who].writers[s].todo != []
    ensures Steps(st, [Reserve(who, s), Send(who, s)]) == Ok(st') && Running(st', who, s)
    ensures |st'.ends[who].writers[s].todo| < |st.ends[who].writers[s].todo|
  {
    hide Step, Steps, Sound, Weight, ChunkSize, Committed;
    OpenWindow(st, who, s);
    ReserveSend(st, who, s);
    TwoSound(st, Reserve(who, s), Send(who, s));
    st' := Steps(st, [Reserve(who, s), Send(who, s)]).state;
    CommittedUpdate(st.ends[who].writers, s, st'.ends[who].writers[s]);
  }

  lemma TwoSound(st: State, a: Event, b: Event)
    requires Sound(st) && Wf(st)
    ensures Steps(st, [a, b]).Ok? && Sound(Steps(st, [a, b]).state)
  {
    hide Step, Sound;
    SoundStep(st, a);
    SoundStep(Step(st, a).state, b);
    Two(st, a, b);
  }

  // ------------------------------------------------------------------ writes that cannot be completed

  /** Every writer has sent or reserved at least as much, and written at least as much. */
  predicate Grows(ws: seq<Writer>, ws': seq<Writer>) {
    && |ws'| == |ws|
    && forall k :: 0 <= k < |ws| ==> |ws[k].written| - Rest(ws[k]) <= |ws'[k].written| - Rest(ws'[k]) && |ws[k].written| <= |ws'[k].written|
  }

  predicate GrowsBoth(st: State, st': State) {
    Wf(st) && Wf(st') && Grows(st.ends[0].writers, st'.ends[0].writers) && Grows(st.ends[1].writers, st'.ends[1].writers)
  }

  lemma StepGrows(st: State, ev: Event)
    requires Wf(st) && Step(st, ev).Ok?
    ensures GrowsBoth(st, Step(st, ev).state)
  {
    hide Handle, ChunkSize;
    if !ev.BeginWrite? && !ev.Reserve? && !ev.Send? { WritersStay(st, ev); }
  }

  lemma {:induction false} StepsGrow(st: State, evs: seq<Event>)
    requires Wf(st) && Sound(st)
    ensures Steps(st, evs).Ok? && Sound(Steps(st, evs).state) && GrowsBoth(st, Steps(st, evs).state)
    decreases |evs|
  {
    hide Step, Sound;
    if evs != [] {
      var front := evs[..|evs| - 1];
      StepsGrow(st, front);
      var mid := Steps(st, front).state;
      SoundStep(mid, evs[|evs| - 1]);
      StepGrows(mid, evs[|evs| - 1]);
    }
  }

  /** Together the writers have committed at least as much more as the one that has finished. */
  lemma {:induction false} SumGrows(ws: seq<Writer>, ws': seq<Writer>, s: nat)
    requires Grows(ws, ws')
    ensures CommittedBy(ws) <= CommittedBy(ws')
    ensures s < |ws| && ws'[s].todo == [] ==> CommittedBy(ws) + Rest(ws[s]) <= CommittedBy(ws')
  {
    if ws != [] { SumGrows(ws[1..], ws'[1..], if s == 0 then |ws| else s - 1); }
  }

  lemma OthersGrow(ws: seq<Writer>, ws': seq<Writer>)
    requires Grows(ws, ws')
    ensures Grows(Others(ws), Others(ws'))
  {
  }

  lemma {:induction false} OthersAreInFlight(q: seq<Msg>)
    ensures OthersInFlight(q) <= InFlight(q)
  {
    if q != [] { OthersAreInFlight(q[1..]); }
  }

  /** Never more than the window is committed to the other streams; when all of it is, nothing is left for streams 0 and 1. */
  lemma SpentBound(st: State, who: nat, s: nat)
    requires Sound(st) && Wf(st) && who < 2
    ensures var ws := st.ends[who].writers;
            && Committed(ws) <= WINDOW
            && (Committed(ws) == WINDOW && s <= 1 && s < |ws| ==> st.ends[who].remoteWin == 0 && Held(ws[s]) == 0)
  {
    hide Order, Sizes, Handshake, Others, Written, Left, InFlight, OthersInFlight, Reserved, Sum, CreditInFlight;
    var e, r, q := st.ends[who], st.ends[1 - who], st.queues[who];
    OthersAreInFlight(q);
    ReservedParts(e.writers, s);
    assert Balance(e, q, r, st.queues[1 - who]) && Dropped(e, q, r);
  }

  /** With the window spent, a write on streams 0 and 1 makes no step. */
  lemma SpentStep(st: State, ev: Event, who: nat, s: nat)
    requires Sound(st) && Wf(st) && who < 2 && s <= 1 && Todo(st, who, s) > 0 && Step(st, ev).Ok?
    requires Committed(st.ends[who].writers) == WINDOW
    ensures Todo(Step(st, ev).state, who, s) == Todo(st, who, s)
  {
    hide Sound, Committed, Handle, ChunkSize;
    SpentBound(st, who, s);
    if !ev.BeginWrite? && !ev.Reserve? && !ev.Send? { WritersStay(st, ev); }
  }

  lemma {:induction false} SpentForGood(st: State, evs: seq<Event>, who: nat, s: nat)
    requires Sound(st) && Wf(st) && who < 2 && s <= 1 && Todo(st, who, s) > 0 && Committed(st.ends[who].writers) == WINDOW
    ensures Steps(st, evs).Ok? && Todo(Steps(st, evs).state, who, s) == Todo(st, who, s)
    decreases |evs|
  {
    hide Step, Sound, CommittedBy, Others, Todo;
    if evs != [] {
      var front, ev := evs[..|evs| - 1], evs[|evs| - 1];
      SpentForGood(st, front, who, s);
      StepsGrow(st, front);
      var mid := Steps(st, front).state;
      var ws, ws' := st.ends[who].writers, mid.ends[who].writers;
      OthersGrow(ws, ws');
      SumGrows(Others(ws), Others(ws'), 0);
      SpentBound(mid, who, s);
      SoundStep(mid, ev);
      SpentStep(mid, ev, who, s);
    }
  }

  // ------------------------------------------------------------------ exactly which

  /** Some continuation of the run sends the whole write. */
  ghost predicate CompletesFrom(streams: nat, evs: seq<Event>, who: nat, s: nat, data: seq<Byte>) {
    exists more :: Finishes(streams, evs + [BeginWrite(who, s, data)], more, who, s)
  }

  predicate Finishes(streams: nat, evs: seq<Event>, more: seq<Event>, who: nat, s: nat) {
    who < 2 && Run(streams, evs + more).Ok? && Todo(Run(streams, evs + more).state, who, s) == 0
  }

  lemma RunSound(streams: nat, evs: seq<Event>)
    ensures Run(streams, evs).Ok? && Sound(Run(streams, evs).state) && Wf(Run(streams, evs).state)
  {
    hide Run, Inv, DroppedBoth;
    RunInv(streams, evs);
    RunDropped(streams, evs);
    InvWf(Run(streams, evs).state);
  }

  /** The writers just after a write has begun. */
  lemma Begun(streams: nat, evs: seq<Event>, who: nat, s: nat, data: seq<Byte>)
    requires CanBegin(streams, evs, who, s)
    ensures var o := Run(streams, evs + [BeginWrite(who, s, data)]);
            var ws := Run(streams, evs).state.ends[who].writers;
            o.Ok? && o.state.ends[who].writers == ws[s := Writer(ws[s].written + data, data, None)]
  {
    assert (evs + [BeginWrite(who, s, data)])[..|evs|] == evs;
  }

  /**
   A running write can be completed, from any reachable state, if and only if less than 2^32 bytes of it are left and the
   window suffices: on streams 0 and 1 something must remain of it beyond all that has ever gone, or is about to go, to
   the other streams; on another stream it must hold that and what the write has left.
   */
  lemma RunningCompletesIff(streams: nat, evs: seq<Event>, who: nat, s: nat)
    requires Run(streams, evs).Ok? && who < 2 && s < |Run(streams, evs).state.ends[who].writers|
    ensures var ws := Run(streams, evs).state.ends[who].writers;
            (exists more :: Finishes(streams, evs, more, who, s))
            <==> ws[s].todo == [] || (|ws[s].todo| < TWO32 && if s <= 1 then Committed(ws) < WINDOW else Committed(ws) + Rest(ws[s]) <= WINDOW)
  {
    hide Run, Sound, Committed;
    var st := Run(streams, evs).state;
    var ws := st.ends[who].writers;
    RunSound(streams, evs);
    SpentBound(st, who, s);
    if ws[s].todo == [] {
      assert evs + [] == evs;
      assert Finishes(streams, evs, [], who, s);
    } else if |ws[s].todo| < TWO32 && Affordable(ws, s) {
      var more := Completes(st, who, s);
      RunSteps(streams, evs, more);
      assert Finishes(streams, evs, more, who, s);
    } else if more :| Finishes(streams, evs, more, who, s) {
      CannotFinish(streams, evs, more, who, s);
    }
  }

  /** So a write can be completed, from any reachable state in which it can begin, exactly under these conditions. */
  lemma WriteCompletesIff(streams: nat, evs: seq<Event>, who: nat, s: nat, data: seq<Byte>)
    requires CanBegin(streams, evs, who, s)
    ensures var spent := Committed(Run(streams, evs).state.ends[who].writers);
            CompletesFrom(streams, evs, who, s, data)
            <==> data == [] || (|data| < TWO32 && if s <= 1 then spent < WINDOW else spent + |data| <= WINDOW)
  {
    hide Run, Committed, Finishes;
    var ws := Run(streams, evs).state.ends[who].writers;
    Begun(streams, evs, who, s, data);
    CommittedUpdate(ws, s, Writer(ws[s].written + data, data, None));
    RunningCompletesIff(streams, evs + [BeginWrite(who, s, data)], who, s);
  }

  /** The three ways in which a running write never ends. */
  lemma CannotFinish(streams: nat, evs: seq<Event>, more: seq<Event>, who: nat, s: nat)
    requires Run(streams, evs).Ok? && who < 2 && s < |Run(streams, evs).state.ends[who].writers|
    requires var ws := Run(streams, evs).state.ends[who].writers;
             && ws[s].todo != []
             && (|ws[s].todo| >= TWO32 || (s <= 1 && Committed(ws) == WINDOW) || (s >= 2 && Committed(ws) + Rest(ws[s]) > WINDOW))
    ensures !Finishes(streams, evs, more, who, s)
  {
    hide Run, Sound, CommittedBy;
    var st := Run(streams, evs).state;
    var ws := st.ends[who].writers;
    RunSound(streams, evs);
    RunSteps(streams, evs, more);
    if |ws[s].todo| >= TWO32 {
      LongWriteNeverEnds(streams, evs, more, who, s);
    } else if s <= 1 {
      SpentForGood(st, more, who, s);
    } else {
      StepsGrow(st, more);
      var st' := Steps(st, more).state;
      var ws' := st'.ends[who].writers;
      OthersGrow(ws, ws');
      SumGrows(Others(ws), Others(ws'), s - 2);
      SpentBound(st', who, s);
      assert Others(ws)[s - 2] == ws[s] && Others(ws')[s - 2] == ws'[s];
    }
  }

  /** Some run completes a write of the data on the stream. */
  ghost predicate CanCompleteOn(data: seq<Byte>, s: nat) {
    exists streams, evs, who :: CanBegin(streams, evs, who, s) && CompletesFrom(streams, evs, who, s, data)
  }

  /** Stream by stream: on those that are read every write shorter than 2^32 bytes, on the others one that fits the window. */
  lemma CompletesOnIff(data: seq<Byte>, s: nat)
    ensures CanCompleteOn(data, s) <==> if s <= 1 then |data| < TWO32 else |data| <= WINDOW
  {
    hide Run, CanBegin, CompletesFrom, Committed;
    if if s <= 1 then |data| < TWO32 else |data| <= WINDOW {
      FreshBegin(s);
      WriteCompletesIff(s + 1, HANDSHAKE, 0, s, data);
      assert CanBegin(s + 1, HANDSHAKE, 0, s) && CompletesFrom(s + 1, HANDSHAKE, 0, s, data);
    } else if CanCompleteOn(data, s) {
      var streams, evs, who :| CanBegin(streams, evs, who, s) && CompletesFrom(streams, evs, who, s, data);
      TooLong(streams, evs, who, s, data);
    }
  }

  lemma FreshBegin(s: nat)
    ensures CanBegin(s + 1, HANDSHAKE, 0, s)
    ensures Committed(Run(s + 1, HANDSHAKE).state.ends[0].writers) == 0
  {
    hide Written, Left, Reserved;
    Handshakes(s + 1);
    var ws := AfterHandshake(s + 1).ends[0].writers;
    if s >= 2 {
      assert Others(ws) == seq(s - 1, _ => Writer([], [], None));
      FreshSums(s - 1);
      FreshReserved(s - 1);
    } else {
      assert Others(ws) == seq(0, _ => Writer([], [], None));
      FreshSums(0);
      FreshReserved(0);
    }
  }

  lemma TooLong(streams: nat, evs: seq<Event>, who: nat, s: nat, data: seq<Byte>)
    requires CanBegin(streams, evs, who, s) && (if s <= 1 then |data| >= TWO32 else |data| > WINDOW)
    ensures !CompletesFrom(streams, evs, who, s, data)
  {
    hide Run, Sound, Committed, Reserved;
    var evs1 := evs + [BeginWrite(who, s, data)];
    Begun(streams, evs, who, s, data);
    NothingNegative(streams, evs1, who);
    if more :| Finishes(streams, evs1, more, who, s) {
      CannotFinish(streams, evs1, more, who, s);
    }
  }

  /** Nothing has been sent that was not written. */
  lemma NothingNegative(streams: nat, evs: seq<Event>, who: nat)
    requires who < 2 && Run(streams, evs).Ok?
    ensures var ws := Run(streams, evs).state.ends[who].writers;
            Committed(ws) >= Reserved(Others(ws))
  {
    RunDropped(streams, evs);
    hide Run, Others, Written, Left, OthersInFlight;
  }

  /** One byte more than the window on stream 2, right after the handshake, is never sent; a window's worth is. */
  lemma StreamTwo(data: seq<Byte>)
    requires |data| > 0
    ensures CompletesFrom(3, HANDSHAKE, 0, 2, data) <==> |data| <= WINDOW
  {
    FreshBegin(2);
    WriteCompletesIff(3, HANDSHAKE, 0, 2, data);
  }
}
