/**
 What whole writes and whole streams of an SSH channel come to: which writes can ever be sent completely, and what
 happens to the window spent on streams that the receiver drops.
 */
module SshRuns {

  import opened Wrappers
  import opened Arithmetic
  import opened Ssh

  // ------------------------------------------------------------------ runs in two parts

  /** The events one after the other. */
  function Steps(st: State, evs: seq<Event>): (o: Outcome)
    requires Wf(st)
    ensures o.Ok? ==> Wf(o.state)
  {
    if evs == [] then Ok(st)
    else
      match Steps(st, evs[..|evs| - 1])
      case Failed => Failed
      case Ok(mid) => Step(mid, evs[|evs| - 1])
  }

  lemma {:induction false} RunSteps(streams: nat, evs: seq<Event>, more: seq<Event>)
    requires Run(streams, evs).Ok?
    ensures Run(streams, evs + more) == Steps(Run(streams, evs).state, more)
    decreases |more|
  {
    hide Step;
    if more == [] {
      assert evs + more == evs;
    } else {
      var last := |more| - 1;
      assert (evs + more)[..|evs + more| - 1] == evs + more[..last];
      RunSteps(streams, evs, more[..last]);
    }
  }

  lemma {:induction false} StepsSteps(st: State, a: seq<Event>, b: seq<Event>)
    requires Wf(st) && Steps(st, a).Ok?
    ensures Steps(st, a + b) == Steps(Steps(st, a).state, b)
    decreases |b|
  {
    hide Step;
    if b == [] {
      assert a + b == a;
    } else {
      var last := |b| - 1;
      assert (a + b)[..|a + b| - 1] == a + b[..last];
      StepsSteps(st, a, b[..last]);
    }
  }

  lemma Two(st: State, a: Event, b: Event)
    requires Wf(st) && Step(st, a).Ok?
    ensures Steps(st, [a, b]) == Step(Step(st, a).state, b)
  {
    assert [a, b][..1] == [a] && [a][..0] == [];
    assert Steps(st, [a]) == Step(st, a);
  }

  // ------------------------------------------------------------------ long writes

  /** What a running write still has to send. */
  function Todo(st: State, who: nat, s: nat): nat
    requires Wf(st) && who < 2
  {
    |WriterOf(st.ends[who], s).todo|
  }

  /** A chunk is taken from the part of the length that 32 bits can hold. */
  lemma ChunkWithin(maxRemote: nat, todo: nat, win: nat)
    ensures ChunkSize(maxRemote, todo, win) <= todo % TWO32
    ensures var n := ChunkSize(maxRemote, todo, win);
            n <= todo && (todo - n) / TWO32 == todo / TWO32
  {
    var n := ChunkSize(maxRemote, todo, win);
    DivModUnique(todo - n, TWO32, todo / TWO32, todo % TWO32 - n);
  }

  /** Reserved chunks are such parts. */
  predicate ChunksWithin(st: State) {
    && Wf(st)
    && forall i, k :: 0 <= i < 2 && 0 <= k < |st.ends[i].writers| ==> Held(st.ends[i].writers[k]) <= |st.ends[i].writers[k].todo| % TWO32
  }

  lemma TakeLow(todo: nat, n: nat)
    requires n <= todo % TWO32
    ensures n <= todo && (todo - n) / TWO32 == todo / TWO32
  {
    DivModUnique(todo - n, TWO32, todo / TWO32, todo % TWO32 - n);
  }

  /** Other steps leave the writers alone. */
  lemma WritersStay(st: State, ev: Event)
    requires Wf(st) && Step(st, ev).Ok? && !ev.BeginWrite? && !ev.Reserve? && !ev.Send?
    ensures forall i :: 0 <= i < 2 ==> Step(st, ev).state.ends[i].writers == st.ends[i].writers
  {
    hide WindowAdd, Wrap32;
  }

  /** No step changes how many times 2^32 bytes a running write has left. */
  lemma StepKeepsQuotient(st: State, ev: Event, who: nat, s: nat)
    requires ChunksWithin(st) && Step(st, ev).Ok? && who < 2 && Todo(st, who, s) > 0
    ensures Todo(Step(st, ev).state, who, s) / TWO32 == Todo(st, who, s) / TWO32
  {
    hide Handle, ChunkSize;
    if !ev.BeginWrite? && !ev.Reserve? && !ev.Send? {
      WritersStay(st, ev);
    } else if ev.Send? && ev.who == who && ev.stream == s {
      var w := st.ends[who].writers[s];
      if w.chunk.Some? { TakeLow(|w.todo|, w.chunk.value); }
    }
  }

  lemma StepKeepsWithin(st: State, ev: Event)
    requires ChunksWithin(st) && Step(st, ev).Ok?
    ensures ChunksWithin(Step(st, ev).state)
  {
    hide Handle, ChunkSize;
    if !ev.BeginWrite? && !ev.Reserve? && !ev.Send? {
      WritersStay(st, ev);
    } else if ev.Reserve? && ev.who < 2 {
      var e := st.ends[ev.who];
      if ev.stream < |e.writers| { ChunkWithin(e.maxRemote, |e.writers[ev.stream].todo|, e.remoteWin); }
    }
  }

  lemma {:induction false} RunWithin(streams: nat, evs: seq<Event>)
    requires Run(streams, evs).Ok?
    ensures ChunksWithin(Run(streams, evs).state)
    decreases |evs|
  {
    hide Step;
    if evs != [] {
      RunWithin(streams, evs[..|evs| - 1]);
      StepKeepsWithin(Run(streams, evs[..|evs| - 1]).state, evs[|evs| - 1]);
    }
  }

  /**
   A write with 2^32 bytes or more to send never ends: whatever follows in the run, as many times 2^32 bytes are left.
   */
  lemma {:induction false} LongWriteNeverEnds(streams: nat, evs: seq<Event>, more: seq<Event>, who: nat, s: nat)
    requires Run(streams, evs).Ok? && who < 2 && Todo(Run(streams, evs).state, who, s) >= TWO32
    ensures var o := Run(streams, evs + more);
            o.Ok? && Todo(o.state, who, s) / TWO32 == Todo(Run(streams, evs).state, who, s) / TWO32 && Todo(o.state, who, s) >= TWO32
    decreases |more|
  {
    hide Step, Todo, Inv, ChunksWithin;
    if more == [] {
      assert evs + more == evs;
    } else {
      var front, ev := more[..|more| - 1], more[|more| - 1];
      assert (evs + more)[..|evs + more| - 1] == evs + front && (evs + more)[|evs + more| - 1] == ev;
      LongWriteNeverEnds(streams, evs, front, who, s);
      RunWithin(streams, evs + front);
      RunInv(streams, evs + more);
      StepKeepsQuotient(Run(streams, evs + front).state, ev, who, s);
    }
  }

  /** An endpoint with something to send knows its peer's packet size. */
  lemma WriterReady(st: State, who: nat, s: nat)
    requires Inv(st) && who < 2 && s < |st.ends[who].writers| && st.ends[who].writers[s].todo != []
    ensures st.ends[who].decided && st.ends[who].maxRemote == MAX_PACKET && st.ends[1 - who].announced
  {
    hide Balance, Order, Openings;
  }

  /** A shorter write gets on: in every reachable state, on an open window, its next chunk is not empty. */
  lemma ShortWriteGetsOn(streams: nat, evs: seq<Event>, who: nat, s: nat)
    requires Run(streams, evs).Ok? && who < 2 && s < |Run(streams, evs).state.ends[who].writers|
    requires var e := Run(streams, evs).state.ends[who];
             0 < |e.writers[s].todo| < TWO32 && e.writers[s].chunk.None? && e.remoteWin > 0
    ensures var e := Run(streams, evs + [Reserve(who, s)]).state.ends[who];
            Run(streams, evs + [Reserve(who, s)]).Ok? && e.writers[s].chunk.Some? && e.writers[s].chunk.value > 0
  {
    hide Inv, Handle;
    var st := Run(streams, evs).state;
    RunInv(streams, evs);
    WriterReady(st, who, s);
    RunInv(streams, evs + [Reserve(who, s)]);
    assert (evs + [Reserve(who, s)])[..|evs|] == evs;
    NoWrap32(|st.ends[who].writers[s].todo|);
  }

  // ------------------------------------------------------------------ one write by itself

  /** The steps of a write that nobody interrupts: `k` chunks. */
  function Writes(who: nat, s: nat, k: nat): seq<Event> {
    if k == 0 then [] else Writes(who, s, k - 1) + [Reserve(who, s), Send(who, s)]
  }

  /** Reserving and sending a chunk. */
  lemma ReserveSend(st: State, who: nat, s: nat)
    requires Wf(st) && who < 2 && s < |st.ends[who].writers|
    requires var e := st.ends[who]; e.writers[s].todo != [] && e.writers[s].chunk.None? && e.remoteWin > 0
    ensures var e := st.ends[who];
            var w := e.writers[s];
            var n := ChunkSize(e.maxRemote, |w.todo|, e.remoteWin);
            && n <= |w.todo| && n <= e.remoteWin
            && Steps(st, [Reserve(who, s), Send(who, s)])
            == Ok(State(st.ends[who := e.(remoteWin := e.remoteWin - n, writers := e.writers[s := Writer(w.written, w.todo[n..], None)])],
                        st.queues[who := st.queues[who] + [Data(s, n, w.todo[..n])]]))
  {
    hide ChunkSize;
    var e := st.ends[who];
    var w := e.writers[s];
    var n := ChunkSize(e.maxRemote, |w.todo|, e.remoteWin);
    ChunkBounds(e.maxRemote, |w.todo|, e.remoteWin);
    var e1 := e.(remoteWin := e.remoteWin - n, writers := e.writers[s := w.(chunk := Some(n))]);
    assert Step(st, Reserve(who, s)) == Ok(Put(st, who, e1));
    assert e1.writers[s := Writer(w.written, w.todo[n..], None)] == e.writers[s := Writer(w.written, w.todo[n..], None)];
    assert st.ends[who := e1][who := e1.(writers := e.writers[s := Writer(w.written, w.todo[n..], None)])]
        == st.ends[who := e1.(writers := e.writers[s := Writer(w.written, w.todo[n..], None)])];
    Two(st, Reserve(who, s), Send(who, s));
  }

  // ------------------------------------------------------------------ beginning a write

  /** Both endpoints after the handshake. */
  function AfterHandshake(streams: nat): State {
    State([Newborn(true, streams).(decided := true, remoteWin := WINDOW, maxRemote := MAX_PACKET),
           Newborn(false, streams).(created := true, decided := true, remoteWin := WINDOW, maxRemote := MAX_PACKET,
                                    maxIncoming := MAX_PACKET, announced := true)], [[], []])
  }

  const HANDSHAKE: seq<Event> := [Receive(1), Accept, Receive(0)]

  lemma Handshakes(streams: nat)
    ensures Run(streams, HANDSHAKE) == Ok(AfterHandshake(streams))
  {
    WindowAddExact(0, WINDOW);
    var open, confirm := Open(WINDOW, MAX_PACKET), Confirm(WINDOW, MAX_PACKET);
    var a, b := Newborn(true, streams), Newborn(false, streams);
    var b1 := b.(created := true, remoteWin := WINDOW, maxRemote := MAX_PACKET);
    assert HANDSHAKE[..2] == [Receive(1), Accept] && [Receive(1), Accept][..1] == [Receive(1)] && [Receive(1)][..0] == [];
    assert Run(streams, []) == Ok(Initial(streams));
    assert [open][1..] == [] && [confirm][1..] == [] && [] + [confirm] == [confirm];
    assert Run(streams, [Receive(1)]) == Ok(State([a, b1], [[], []]));
    var b2 := b1.(decided := true, maxIncoming := MAX_PACKET, announced := true);
    assert Run(streams, [Receive(1), Accept]) == Ok(State([a, b2], [[], [confirm]]));
  }

  /** A write can begin on the stream at the end of `evs`. */
  predicate CanBegin(streams: nat, evs: seq<Event>, who: nat, s: nat) {
    && Run(streams, evs).Ok? && who < 2
    && var e := Run(streams, evs).state.ends[who];
       s < |e.writers| && e.decided && !e.sentEOF && e.writers[s].todo == [] && e.writers[s].chunk.None?
  }

  /** A chunk is as large as it can be: within the packet limit, what is left modulo 2^32, and the window, and equal to one of them. */
  lemma ChunkIsLeast(maxRemote: nat, todo: nat, win: nat)
    ensures var k := ChunkSize(maxRemote, todo, win);
            && k <= maxRemote && k <= todo % 0x1_0000_0000 && k <= win
            && (k == maxRemote || k == todo % 0x1_0000_0000 || k == win)
  {
  }

  /** One byte over 4 GiB: the first chunk is that byte, and what is left is stuck. */
  lemma OneByteOver(maxRemote: nat, win: nat)
    requires maxRemote > 0 && win > 0
    ensures ChunkSize(maxRemote, TWO32 + 1, win) == 1 && ChunkSize(maxRemote, TWO32, win) == 0
  {
    DivModUnique(TWO32 + 1, TWO32, 1, 1);
    DivModUnique(TWO32, TWO32, 1, 0);
  }

  // ------------------------------------------------------------------ streams that are dropped

  /** The writers of the streams that the receiver drops. */
  function Others(ws: seq<Writer>): seq<Writer> { if |ws| <= 2 then [] else ws[2..] }

  /** Bytes written by, and left to send for, some writers. */
  function Written(ws: seq<Writer>): nat { if ws == [] then 0 else |ws[0].written| + Written(ws[1..]) }
  function Left(ws: seq<Writer>): nat { if ws == [] then 0 else |ws[0].todo| + Left(ws[1..]) }

  /** Bytes of those streams under way. */
  function OthersInFlight(q: seq<Msg>): nat {
    if q == [] then 0 else (if q[0].Data? && q[0].stream > 1 then |q[0].payload| else 0) + OthersInFlight(q[1..])
  }

  function OthersHandled(e: Endpoint): nat { if e.handlingStream > 1 then |e.handling| else 0 }

  /** What was written to those streams is dropped, in the handler, on the wire, or left to send. */
  predicate Dropped(s: Endpoint, q: seq<Msg>, r: Endpoint) {
    Written(Others(s.writers)) == r.discarded + OthersHandled(r) + OthersInFlight(q) + Left(Others(s.writers))
  }

  predicate DroppedBoth(st: State) {
    Wf(st) && Dropped(st.ends[0], st.queues[0], st.ends[1]) && Dropped(st.ends[1], st.queues[1], st.ends[0])
  }

  lemma {:induction false} SumsUpdate(ws: seq<Writer>, s: nat, w: Writer)
    requires s < |ws|
    ensures Written(ws[s := w]) + |ws[s].written| == Written(ws) + |w.written|
    ensures Left(ws[s := w]) + |ws[s].todo| == Left(ws) + |w.todo|
  {
    if s > 0 {
      assert ws[s := w][1..] == ws[1..][s - 1 := w];
      SumsUpdate(ws[1..], s - 1, w);
    } else {
      assert ws[0 := w][1..] == ws[1..];
    }
  }

  lemma OthersUpdate(ws: seq<Writer>, s: nat, w: Writer)
    requires s < |ws|
    ensures s < 2 ==> Others(ws[s := w]) == Others(ws)
    ensures s >= 2 ==> Written(Others(ws[s := w])) + |ws[s].written| == Written(Others(ws)) + |w.written|
    ensures s >= 2 ==> Left(Others(ws[s := w])) + |ws[s].todo| == Left(Others(ws)) + |w.todo|
  {
    if s >= 2 {
      assert Others(ws[s := w]) == Others(ws)[s - 2 := w];
      SumsUpdate(Others(ws), s - 2, w);
    }
  }

  lemma {:induction false} OthersAppend(q: seq<Msg>, m: Msg)
    ensures OthersInFlight(q + [m]) == OthersInFlight(q) + if m.Data? && m.stream > 1 then |m.payload| else 0
  {
    if q == [] {
      assert q + [m] == [m];
      assert [m][1..] == [];
    } else {
      assert (q + [m])[1..] == q[1..] + [m];
      OthersAppend(q[1..], m);
    }
  }

  lemma WriteKeepsDropped(st: State, ev: Event)
    requires Inv(st) && DroppedBoth(st) && (ev.BeginWrite? || ev.Reserve? || ev.Send?) && Step(st, ev).Ok?
    ensures DroppedBoth(Step(st, ev).state)
  {
    hide Inv, Others, Written, Left, OthersInFlight, ChunkSize;
    var r := Step(st, ev).state;
    if ev.who < 2 && ev.stream < |st.ends[ev.who].writers| && r != st {
      OthersUpdate(st.ends[ev.who].writers, ev.stream, r.ends[ev.who].writers[ev.stream]);
      if ev.Send? {
        var w := st.ends[ev.who].writers[ev.stream];
        OthersAppend(st.queues[ev.who], Data(ev.stream, w.chunk.value, w.todo[..w.chunk.value]));
      }
    }
  }

  lemma SendKeepsDropped(st: State, ev: Event)
    requires DroppedBoth(st) && (ev.Accept? || ev.CloseWrite? || ev.Announce?) && Step(st, ev).Ok?
    ensures DroppedBoth(Step(st, ev).state)
  {
    hide Others, Written, Left, OthersInFlight;
    if ev.Accept? {
      OthersAppend(st.queues[1], Confirm(st.ends[1].myWindow, MAX_PACKET));
    } else if ev.who < 2 {
      OthersAppend(st.queues[ev.who], Eof);
      if ev.Announce? && ev.k < |st.ends[ev.who].owed| { OthersAppend(st.queues[ev.who], Adjust(st.ends[ev.who].owed[ev.k])); }
    }
  }

  lemma LocalKeepsDropped(st: State, ev: Event)
    requires DroppedBoth(st) && (ev.Deposit? || ev.ReadBuffer? || ev.Credit?) && Step(st, ev).Ok?
    ensures DroppedBoth(Step(st, ev).state)
  {
    hide Others, Written, Left, OthersInFlight, Wrap32;
  }

  lemma ReceiveKeepsDropped(st: State, who: nat)
    requires Inv(st) && DroppedBoth(st) && Step(st, Receive(who)).Ok?
    ensures DroppedBoth(Step(st, Receive(who)).state)
  {
    hide Others, Written, Left, Handle, Sum, Reserved, InFlight, CreditInFlight, StreamBytes, Openings, Balance, Order, Handshake;
    if who < 2 && st.ends[who].handling == [] && st.queues[1 - who] != [] {
      var q := st.queues[1 - who];
      assert Sizes(st.ends[1 - who], q, st.ends[who]);
      assert q[0].Data? ==> q[0].length == |q[0].payload|;
      HandleDropped(st.ends[who], q[0]);
    }
  }

  lemma HandleDropped(e: Endpoint, m: Msg)
    requires Handle(e, m).Some? && e.handling == [] && (m.Data? ==> m.length == |m.payload|)
    ensures var f := Handle(e, m).value;
            && f.writers == e.writers && f.discarded == e.discarded
            && OthersHandled(f) == if m.Data? && m.stream > 1 then |m.payload| else 0
  {
    hide WindowAdd, Wrap32;
  }

  lemma StepKeepsDropped(st: State, ev: Event)
    requires Inv(st) && DroppedBoth(st) && Step(st, ev).Ok?
    ensures DroppedBoth(Step(st, ev).state)
  {
    hide Inv, DroppedBoth, Step;
    match ev
    case BeginWrite(_, _, _) => WriteKeepsDropped(st, ev);
    case Reserve(_, _) => WriteKeepsDropped(st, ev);
    case Send(_, _) => WriteKeepsDropped(st, ev);
    case Receive(who) => ReceiveKeepsDropped(st, who);
    case Deposit(_) => LocalKeepsDropped(st, ev);
    case ReadBuffer(_, _, _) => LocalKeepsDropped(st, ev);
    case Credit(_, _) => LocalKeepsDropped(st, ev);
    case Announce(_, _) => SendKeepsDropped(st, ev);
    case Accept => SendKeepsDropped(st, ev);
    case CloseWrite(_) => SendKeepsDropped(st, ev);
  }

  lemma {:induction false} FreshSums(n: nat)
    ensures Written(seq(n, _ => Writer([], [], None))) == 0 && Left(seq(n, _ => Writer([], [], None))) == 0
  {
    if n > 0 {
      assert seq(n, _ => Writer([], [], None))[1..] == seq(n - 1, _ => Writer([], [], None));
      FreshSums(n - 1);
    }
  }

  lemma InitialDropped(streams: nat)
    ensures DroppedBoth(Initial(streams))
  {
    var ws := seq(streams, _ => Writer([], [], None));
    if streams > 2 {
      assert Others(ws) == seq(streams - 2, _ => Writer([], [], None));
      FreshSums(streams - 2);
    }
    assert [Open(WINDOW, MAX_PACKET)][1..] == [];
  }

  /** In every reachable state, what was written to the other streams is dropped or on its way to be. */
  lemma {:induction false} RunDropped(streams: nat, evs: seq<Event>)
    ensures Run(streams, evs).Ok? && DroppedBoth(Run(streams, evs).state)
    decreases |evs|
  {
    hide Step, Inv, DroppedBoth, Initial;
    RunInv(streams, evs);
    if evs == [] {
      InitialDropped(streams);
    } else {
      var front := evs[..|evs| - 1];
      RunDropped(streams, front);
      RunInv(streams, front);
      StepKeepsDropped(Run(streams, front).state, evs[|evs| - 1]);
    }
  }

  /**
   When all is read and credited, streams 0 and 1 have been delivered completely and the sender has the whole window back
   except for every byte it ever wrote to another stream: that part is lost for good.
   */
  lemma QuietRestores(streams: nat, evs: seq<Event>, i: nat)
    requires i < 2 && Run(streams, evs).Ok? && Quiet(Run(streams, evs).state, i)
    ensures var st := Run(streams, evs).state;
            && st.ends[i].remoteWin == WINDOW - Written(Others(st.ends[i].writers))
            && st.ends[1 - i].read == WriterOf(st.ends[i], 0).written && st.ends[1 - i].extRead == WriterOf(st.ends[i], 1).written
  {
    hide Run, Inv;
    var st := Run(streams, evs).state;
    QuietDelivers(streams, evs, i);
    RunDropped(streams, evs);
    NothingLeft(Others(st.ends[i].writers));
    assert OthersInFlight([]) == 0;
  }

  lemma {:induction false} NothingLeft(ws: seq<Writer>)
    requires forall k :: 0 <= k < |ws| ==> ws[k].todo == []
    ensures Left(ws) == 0
  {
    if ws != [] { NothingLeft(ws[1..]); }
  }

  /** The loss happens: one byte on stream 2, and with nothing in transit the window is one byte short. */
  lemma OneByteLost() returns (evs: seq<Event>)
    ensures Run(3, evs).Ok? && Quiet(Run(3, evs).state, 0)
    ensures var st := Run(3, evs).state; st.ends[1].discarded == 1 && st.ends[0].remoteWin == WINDOW - 1
  {
    var w0, w1, w2, w3 := Writer([], [], None), Writer([7], [7], None), Writer([7], [7], Some(1)), Writer([7], [], None);
    Handshakes(3);
    var st := AfterHandshake(3);
    assert seq(3, _ => w0) == [w0, w0, w0];
    var a, b := st.ends[0], st.ends[1];
    var a1 := a.(writers := [w0, w0, w1]);
    assert Step(st, BeginWrite(0, 2, [7])) == Ok(State([a1, b], [[], []])) by {
      assert [] + [7] == [7] && [w0, w0, w0][2 := w1] == [w0, w0, w1];
    }
    NoWrap32(1);
    var a2 := a.(writers := [w0, w0, w2], remoteWin := WINDOW - 1);
    assert Step(State([a1, b], [[], []]), Reserve(0, 2)) == Ok(State([a2, b], [[], []])) by {
      assert [w0, w0, w1][2 := w2] == [w0, w0, w2];
    }
    Two(st, BeginWrite(0, 2, [7]), Reserve(0, 2));
    var c := LastSteps(a2, b);
    evs := HANDSHAKE + [BeginWrite(0, 2, [7]), Reserve(0, 2)] + c;
    RunSteps(3, HANDSHAKE, [BeginWrite(0, 2, [7]), Reserve(0, 2)]);
    RunSteps(3, HANDSHAKE + [BeginWrite(0, 2, [7]), Reserve(0, 2)], c);
  }

  lemma LastSteps(a: Endpoint, b: Endpoint) returns (evs: seq<Event>)
    requires a == AfterHandshake(3).ends[0].(writers := [Writer([], [], None), Writer([], [], None), Writer([7], [7], Some(1))], remoteWin := WINDOW - 1)
    requires b == AfterHandshake(3).ends[1]
    ensures var o := Steps(State([a, b], [[], []]), evs);
            o.Ok? && Quiet(o.state, 0) && o.state.ends[1].discarded == 1 && o.state.ends[0].remoteWin == WINDOW - 1
  {
    var w0, w3 := Writer([], [], None), Writer([7], [], None);
    var m := Data(2, 1, [7]);
    var a1 := a.(writers := [w0, w0, w3]);
    var st := State([a, b], [[], []]);
    assert Step(st, Send(0, 2)) == Ok(State([a1, b], [[m], []])) by {
      assert [7][..1] == [7] && [7][1..] == [] && [] + [m] == [m];
      assert a.writers[2 := w3] == [w0, w0, w3];
    }
    NoWrap32(1);
    var b1 := b.(myWindow := WINDOW - 1, handling := [7], handlingStream := 2);
    assert Step(State([a1, b], [[m], []]), Receive(1)) == Ok(State([a1, b1], [[], []])) by { assert [m][1..] == []; }
    Two(st, Send(0, 2), Receive(1));
    evs := [Send(0, 2), Receive(1)] + [Deposit(1)];
    StepsSteps(st, [Send(0, 2), Receive(1)], [Deposit(1)]);
    var st2 := State([a1, b1], [[], []]);
    assert [Deposit(1)][..0] == [];
    assert Steps(st2, [Deposit(1)]) == Step(st2, Deposit(1));
  }
}
