/**
 Flow control of an SSH channel (golang.org/x/crypto/ssh/channel.go, common.go, mux.go) between two endpoints
 that both run this code. Methods are cut where they release a lock or touch the connection, so that the steps of
 different goroutines interleave as they can in the program. Endpoint 0 opened the channel, endpoint 1 accepts it.
 */
module Ssh {

  import opened Wrappers
  import opened Arithmetic

  const MAX_PACKET: nat := 0x8000
  const WINDOW: nat := 64 * MAX_PACKET

  // ------------------------------------------------------------------ the window

  /** `window.add`: refused when the 32-bit sum wraps. */
  function WindowAdd(win: nat, n: nat): (r: Option<nat>) {
    if n == 0 then Some(win) else if Wrap32(win + n) < n then None else Some(Wrap32(win + n))
  }

  /** The wrap test is exact: an addition is refused exactly when the sum does not fit. */
  lemma WindowAddExact(win: nat, n: nat)
    requires win < TWO32 && n < TWO32
    ensures WindowAdd(win, n) == if win + n < TWO32 then Some(win + n) else None
  {
  }

  /** `window` of common.go; the condition variable is left to the caller, who asks again while the window is empty. */
  class Window {
    var win: nat
    var closed: bool

    ghost predicate Valid() reads this { win < TWO32 }

    constructor ()
      ensures Valid() && win == 0 && !closed
    {
      win, closed := 0, false;
    }

    method Add(n: nat) returns (ok: bool)
      requires Valid() && n < TWO32
      modifies this
      ensures Valid() && closed == old(closed)
      ensures ok <==> old(win) + n < TWO32
      ensures win == if ok then old(win) + n else old(win)
    {
      WindowAddExact(win, n);
      if n == 0 { return true; }
      if Wrap32(win + n) < n { return false; }
      win := Wrap32(win + n);
      ok := true;
    }

    /** What `reserve` does once it is woken with a non-empty or closed window. */
    method Reserve(want: nat) returns (got: nat, eof: bool)
      requires Valid() && (win > 0 || closed)
      modifies this
      ensures Valid() && closed == old(closed) && eof == closed
      ensures got == ReserveAmount(old(win), want) && win + got == old(win) && got <= want && (got == want || win == 0)
    {
      got := want;
      if win < got { got := win; }
      win := win - got;
      eof := closed;
    }
  }

  function ReserveAmount(win: nat, want: nat): nat { if win < want then win else want }

  // ------------------------------------------------------------------ state

  datatype Msg =
    | Open(window: nat, maxPacket: nat)
    | Confirm(window: nat, maxPacket: nat)
    | Data(stream: nat, length: nat, payload: seq<Byte>)
    | Adjust(bytes: nat)
    | Eof

  /** A running write on one stream: what it still has to send, of which a chunk may be reserved but not sent. */
  datatype Writer = Writer(written: seq<Byte>, todo: seq<Byte>, chunk: Option<nat>)

  /** Both directions of one endpoint: `written`, `read` and `discarded` only record the past. */
  datatype Endpoint = Endpoint(
    created: bool, decided: bool, sentEOF: bool,
    remoteWin: nat, maxRemote: nat, writers: seq<Writer>,
    myWindow: nat, maxIncoming: nat, announced: bool,
    handling: seq<Byte>, handlingStream: nat,
    pending: seq<Byte>, extPending: seq<Byte>, read: seq<Byte>, extRead: seq<Byte>,
    taken: seq<nat>, owed: seq<nat>, discarded: nat)

  /** `queues[i]` holds the messages under way from endpoint `i`. */
  datatype State = State(ends: seq<Endpoint>, queues: seq<seq<Msg>>)

  datatype Outcome = Failed | Ok(state: State)

  datatype Event =
    | BeginWrite(who: nat, stream: nat, data: seq<Byte>)
    | Reserve(who: nat, stream: nat)
    | Send(who: nat, stream: nat)
    | Receive(who: nat)
    | Deposit(who: nat)
    | ReadBuffer(who: nat, stream: nat, room: nat)
    | Credit(who: nat, k: nat)
    | Announce(who: nat, k: nat)
    | Accept
    | CloseWrite(who: nat)

  function Newborn(opener: bool, streams: nat): Endpoint {
    Endpoint(opener, false, false, 0, 0, seq(streams, _ => Writer([], [], None)),
             WINDOW, if opener then MAX_PACKET else 0, opener,
             [], 0, [], [], [], [], [], [], 0)
  }

  /** `openChannel` has sent its message; nothing else has happened. Streams are numbered below `streams`. */
  function Initial(streams: nat): State {
    State([Newborn(true, streams), Newborn(false, streams)], [[Open(WINDOW, MAX_PACKET)], []])
  }

  predicate Wf(st: State) {
    |st.ends| == 2 && |st.queues| == 2
  }

  // ------------------------------------------------------------------ steps

  function Put(st: State, who: nat, e: Endpoint): State
    requires Wf(st) && who < 2
  {
    st.(ends := st.ends[who := e])
  }

  function PutSend(st: State, who: nat, e: Endpoint, m: Msg): State
    requires Wf(st) && who < 2
  {
    State(st.ends[who := e], st.queues[who := st.queues[who] + [m]])
  }

  /** The size of the next chunk: the payload limit or what is left, whose length is truncated to 32 bits, and at most the window. */
  function ChunkSize(maxRemote: nat, todo: nat, win: nat): nat {
    var left := Wrap32(todo);
    ReserveAmount(win, if maxRemote < left then maxRemote else left)
  }

  /** `handleData` up to the release of the window lock, `windowAdjustMsg` and `channelOpenConfirmMsg` handling, and `handleChannelOpen`. */
  function Handle(e: Endpoint, m: Msg): Option<Endpoint> {
    match m
    case Data(stream, length, payload) =>
      if length == 0 then Some(e)
      else if length > e.maxIncoming then None
      else if length != Wrap32(|payload|) then None
      else if e.myWindow < length then None
      else Some(e.(myWindow := e.myWindow - length, handling := payload, handlingStream := stream))
    case Adjust(n) =>
      (match WindowAdd(e.remoteWin, n)
       case None => None
       case Some(w) => Some(e.(remoteWin := w)))
    case Confirm(w, maxPacket) =>
      if e.decided || maxPacket < 9 || maxPacket > 0x8000_0000 then None
      else Some(e.(decided := true, maxRemote := maxPacket, remoteWin := match WindowAdd(e.remoteWin, w) case None => e.remoteWin case Some(x) => x))
    case Open(w, maxPacket) =>
      if e.created || maxPacket < 9 || maxPacket > 0x8000_0000 then None
      else Some(e.(created := true, maxRemote := maxPacket, remoteWin := match WindowAdd(e.remoteWin, w) case None => e.remoteWin case Some(x) => x))
    case Eof => Some(e)
  }

  /** The end of `handleData`: a stream that nobody reads is dropped, though its bytes have used up window. */
  function Deposited(e: Endpoint): Endpoint {
    e.(handling := [],
       pending := if e.handlingStream == 0 then e.pending + e.handling else e.pending,
       extPending := if e.handlingStream == 1 then e.extPending + e.handling else e.extPending,
       discarded := if e.handlingStream > 1 then e.discarded + |e.handling| else e.discarded)
  }

  /** How much a read of a stream takes. */
  function ReadSize(e: Endpoint, s: nat, room: nat): nat {
    if s == 0 then ReserveAmount(|e.pending|, room) else if s == 1 then ReserveAmount(|e.extPending|, room) else 0
  }

  /** `ReadExtended` up to the return of the buffer's `Read`. */
  function TakenFrom(e: Endpoint, s: nat, n: nat): Endpoint
    requires n <= if s == 0 then |e.pending| else if s == 1 then |e.extPending| else 0
  {
    e.(taken := e.taken + [n],
       pending := if s == 0 then e.pending[n..] else e.pending, read := if s == 0 then e.read + e.pending[..n] else e.read,
       extPending := if s == 1 then e.extPending[n..] else e.extPending, extRead := if s == 1 then e.extRead + e.extPending[..n] else e.extRead)
  }

  /** `adjustWindow` up to the release of the lock. */
  function Credited(e: Endpoint, k: nat): Endpoint
    requires k < |e.taken|
  {
    e.(myWindow := Wrap32(e.myWindow + e.taken[k]), owed := e.owed + [e.taken[k]], taken := e.taken[..k] + e.taken[k + 1..])
  }

  /** One step of one goroutine; an event that its goroutine cannot take now changes nothing. */
  function Step(st: State, ev: Event): Outcome
    requires Wf(st)
  {
    if ev.Accept? then
      var e := st.ends[1];
      if e.created && !e.decided then
        Ok(PutSend(st, 1, e.(decided := true, maxIncoming := MAX_PACKET, announced := true), Confirm(e.myWindow, MAX_PACKET)))
      else Ok(st)
    else if ev.who >= 2 then Ok(st)
    else
      var e := st.ends[ev.who];
      match ev
      case BeginWrite(who, s, data) =>
        if e.decided && !e.sentEOF && s < |e.writers| && e.writers[s].todo == [] && e.writers[s].chunk.None? then
          Ok(Put(st, who, e.(writers := e.writers[s := Writer(e.writers[s].written + data, data, None)])))
        else Ok(st)
      case Reserve(who, s) =>
        if s < |e.writers| && e.writers[s].todo != [] && e.writers[s].chunk.None? && e.remoteWin > 0 then
          var n := ChunkSize(e.maxRemote, |e.writers[s].todo|, e.remoteWin);
          Ok(Put(st, who, e.(remoteWin := e.remoteWin - n, writers := e.writers[s := e.writers[s].(chunk := Some(n))])))
        else Ok(st)
      case Send(who, s) =>
        if s < |e.writers| && e.writers[s].chunk.Some? && e.writers[s].chunk.value <= |e.writers[s].todo| then
          var w := e.writers[s];
          var n := w.chunk.value;
          Ok(PutSend(st, who, e.(writers := e.writers[s := Writer(w.written, w.todo[n..], None)]), Data(s, n, w.todo[..n])))
        else Ok(st)
      case Receive(who) =>
        if e.handling == [] && st.queues[1 - who] != [] then
          (match Handle(e, st.queues[1 - who][0])
           case None => Failed
           case Some(r) => Ok(State(st.ends[who := r], st.queues[1 - who := st.queues[1 - who][1..]])))
        else Ok(st)
      case Deposit(who) =>
        if e.handling != [] then
          Ok(Put(st, who, Deposited(e)))
        else Ok(st)
      case ReadBuffer(who, s, room) =>
        var n := ReadSize(e, s, room);
        if n > 0 then
          Ok(Put(st, who, TakenFrom(e, s, n)))
        else Ok(st)
      case Credit(who, k) =>
        if k < |e.taken| then
          Ok(Put(st, who, Credited(e, k)))
        else Ok(st)
      case Announce(who, k) =>
        if k < |e.owed| then Ok(PutSend(st, who, e.(owed := e.owed[..k] + e.owed[k + 1..]), Adjust(e.owed[k])))
        else Ok(st)
      case CloseWrite(who) =>
        if e.decided then Ok(PutSend(st, who, e.(sentEOF := true), Eof)) else Ok(st)
  }

  /** A run from the start: any events in any order. */
  function Run(streams: nat, evs: seq<Event>): (o: Outcome)
    ensures o.Ok? ==> Wf(o.state)
  {
    if evs == [] then Ok(Initial(streams))
    else
      match Run(streams, evs[..|evs| - 1])
      case Failed => Failed
      case Ok(st) => Step(st, evs[|evs| - 1])
  }

  // ------------------------------------------------------------------ accounting

  function Sum(s: seq<nat>): nat { if s == [] then 0 else s[0] + Sum(s[1..]) }

  /** Bytes reserved by running writes and not yet sent. */
  function Reserved(ws: seq<Writer>): nat {
    if ws == [] then 0 else Held(ws[0]) + Reserved(ws[1..])
  }

  function Held(w: Writer): nat { match w.chunk case None => 0 case Some(n) => n }

  function PayloadOf(m: Msg): nat { if m.Data? then |m.payload| else 0 }

  function CreditOf(m: Msg): nat {
    match m
    case Open(w, _) => w
    case Confirm(w, _) => w
    case Adjust(n) => n
    case Data(_, _, _) => 0
    case Eof => 0
  }

  /** Data under way in a queue, and window credit under way in it. */
  function InFlight(q: seq<Msg>): nat { if q == [] then 0 else PayloadOf(q[0]) + InFlight(q[1..]) }
  function CreditInFlight(q: seq<Msg>): nat { if q == [] then 0 else CreditOf(q[0]) + CreditInFlight(q[1..]) }

  /** The bytes of one stream under way, oldest first. */
  function StreamBytes(q: seq<Msg>, s: nat): seq<Byte> {
    if q == [] then [] else (if q[0].Data? && q[0].stream == s then q[0].payload else []) + StreamBytes(q[1..], s)
  }

  lemma {:induction false} SumAppend(a: seq<nat>, b: seq<nat>)
    ensures Sum(a + b) == Sum(a) + Sum(b)
  {
    if a == [] { assert a + b == b; } else { assert (a + b)[1..] == a[1..] + b; SumAppend(a[1..], b); }
  }

  lemma SumRemove(a: seq<nat>, k: nat)
    requires k < |a|
    ensures Sum(a[..k] + a[k + 1..]) + a[k] == Sum(a)
  {
    assert a == a[..k] + a[k..];
    SumAppend(a[..k], a[k..]);
    SumAppend(a[..k], a[k + 1..]);
  }

  lemma {:induction false} ReservedUpdate(ws: seq<Writer>, s: nat, w: Writer)
    requires s < |ws|
    ensures Reserved(ws[s := w]) + Held(ws[s]) == Reserved(ws) + Held(w)
  {
    if s > 0 {
      assert ws[s := w][1..] == ws[1..][s - 1 := w];
      ReservedUpdate(ws[1..], s - 1, w);
    } else {
      assert ws[0 := w][1..] == ws[1..];
    }
  }

  lemma {:induction false} QueueAppend(q: seq<Msg>, m: Msg)
    ensures InFlight(q + [m]) == InFlight(q) + PayloadOf(m) && CreditInFlight(q + [m]) == CreditInFlight(q) + CreditOf(m)
    ensures forall s :: StreamBytes(q + [m], s) == StreamBytes(q, s) + if m.Data? && m.stream == s then m.payload else []
  {
    if q == [] {
      assert q + [m] == [m];
      assert [m][1..] == [];
    } else {
      assert (q + [m])[1..] == q[1..] + [m];
      QueueAppend(q[1..], m);
    }
  }

  lemma {:induction false} FreshReserved(n: nat)
    ensures Reserved(seq(n, _ => Writer([], [], None))) == 0
  {
    if n > 0 {
      assert seq(n, _ => Writer([], [], None))[1..] == seq(n - 1, _ => Writer([], [], None));
      FreshReserved(n - 1);
    }
  }

  // ------------------------------------------------------------------ the invariant

  /**
   Conservation in one direction. Every byte of the window is at the receiver (still free, or received and not yet
   credited, or discarded), and the free part is divided between the sender, the wire and the credit under way.
   */
  predicate Balance(s: Endpoint, q: seq<Msg>, r: Endpoint, back: seq<Msg>) {
    && r.myWindow + |r.handling| + |r.pending| + |r.extPending| + Sum(r.taken) + r.discarded == WINDOW
    && r.myWindow == s.remoteWin + Reserved(s.writers) + InFlight(q) + Sum(r.owed) + CreditInFlight(back) + if r.announced then 0 else WINDOW
  }

  function WriterOf(e: Endpoint, s: nat): Writer { if s < |e.writers| then e.writers[s] else Writer([], [], None) }

  function HandlingOf(e: Endpoint, s: nat): seq<Byte> { if e.handlingStream == s then e.handling else [] }

  /** What was written is what was read, then what waits in the buffer, the handler, the wire and the writer, in that order. */
  predicate Order(s: Endpoint, q: seq<Msg>, r: Endpoint) {
    && WriterOf(s, 0).written == r.read + r.pending + HandlingOf(r, 0) + StreamBytes(q, 0) + WriterOf(s, 0).todo
    && WriterOf(s, 1).written == r.extRead + r.extPending + HandlingOf(r, 1) + StreamBytes(q, 1) + WriterOf(s, 1).todo
  }

  /** Packets on the wire are well formed and wanted; chunks are within what is left to send. */
  predicate Sizes(s: Endpoint, q: seq<Msg>, r: Endpoint) {
    && (s.maxRemote == 0 || s.maxRemote == MAX_PACKET)
    && (forall k :: 0 <= k < |q| && q[k].Data? ==> q[k].length == |q[k].payload| <= r.maxIncoming)
    && r.maxIncoming <= MAX_PACKET
    && (forall k :: 0 <= k < |s.writers| ==> Held(s.writers[k]) <= |s.writers[k].todo| && Held(s.writers[k]) <= s.maxRemote)
    && (s.decided ==> r.maxIncoming == MAX_PACKET && s.maxRemote == MAX_PACKET)
    && (!s.decided ==> forall k :: 0 <= k < |s.writers| ==> s.writers[k].todo == [])
  }

  /** The handshake: who has been told what, and the one message of it that may be under way in a queue. */
  predicate Handshake(st: State)
    requires Wf(st)
  {
    var a, b := st.ends[0], st.ends[1];
    && a.created && a.announced && a.maxIncoming == MAX_PACKET
    && (b.announced <==> b.decided) && (b.decided ==> b.created) && (a.decided ==> b.decided)
    && b.maxIncoming == (if b.decided then MAX_PACKET else 0)
    && (b.created ==> b.maxRemote == MAX_PACKET)
    && (b.created ==> Openings(st.queues[0]) == 0) && (!b.created ==> Openings(st.queues[0]) == 1)
    && Openings(st.queues[1]) == (if b.decided && !a.decided then 1 else 0)
    && (forall k :: 0 <= k < |st.queues[0]| ==> !st.queues[0][k].Confirm?)
    && (forall k :: 0 <= k < |st.queues[1]| ==> !st.queues[1][k].Open?)
    && (forall i, k :: 0 <= i < 2 && 0 <= k < |st.queues[i]| && IsOpening(st.queues[i][k]) ==> st.queues[i][k].maxPacket == MAX_PACKET)
  }

  predicate IsOpening(m: Msg) { m.Open? || m.Confirm? }

  function Openings(q: seq<Msg>): nat { if q == [] then 0 else (if IsOpening(q[0]) then 1 else 0) + Openings(q[1..]) }

  predicate Direction(s: Endpoint, q: seq<Msg>, r: Endpoint, back: seq<Msg>) {
    Balance(s, q, r, back) && Order(s, q, r) && Sizes(s, q, r)
  }

  predicate Inv(st: State) {
    && Wf(st) && Handshake(st)
    && Direction(st.ends[0], st.queues[0], st.ends[1], st.queues[1])
    && Direction(st.ends[1], st.queues[1], st.ends[0], st.queues[0])
  }

  // ------------------------------------------------------------------ every step keeps it

  /** What an endpoint needs as sender (receiver) has not changed. */
  predicate SameSender(e: Endpoint, f: Endpoint) {
    && f.writers == e.writers && f.remoteWin == e.remoteWin && f.maxRemote == e.maxRemote && f.decided == e.decided
  }

  predicate SameReceiver(e: Endpoint, f: Endpoint) {
    && f.myWindow == e.myWindow && f.maxIncoming == e.maxIncoming && f.announced == e.announced
    && f.handling == e.handling && f.handlingStream == e.handlingStream && f.pending == e.pending && f.extPending == e.extPending
    && f.read == e.read && f.extRead == e.extRead && f.taken == e.taken && f.owed == e.owed && f.discarded == e.discarded
  }

  lemma SenderSame(e: Endpoint, f: Endpoint, q: seq<Msg>, r: Endpoint, back: seq<Msg>)
    requires Direction(e, q, r, back) && SameSender(e, f)
    ensures Direction(f, q, r, back)
  {
    hide Sum, Reserved, InFlight, CreditInFlight, StreamBytes;
  }

  lemma ReceiverSame(s: Endpoint, q: seq<Msg>, e: Endpoint, f: Endpoint, back: seq<Msg>)
    requires Direction(s, q, e, back) && SameReceiver(e, f)
    ensures Direction(s, q, f, back)
  {
  }

  /** A message without payload does not concern the direction of its sender, one without credit not the other. */
  lemma QuietAppend(s: Endpoint, q: seq<Msg>, r: Endpoint, back: seq<Msg>, m: Msg)
    requires Direction(s, q, r, back)
    ensures !m.Data? ==> Direction(s, q + [m], r, back)
    ensures CreditOf(m) == 0 ==> Direction(s, q, r, back + [m])
  {
    hide Sum, Reserved, InFlight, CreditInFlight, StreamBytes, WriterOf;
    QueueAppend(q, m);
    QueueAppend(back, m);
  }

  lemma QuietPop(s: Endpoint, q: seq<Msg>, r: Endpoint, back: seq<Msg>)
    requires Direction(s, q, r, back)
    ensures q != [] && PayloadOf(q[0]) == 0 ==> Direction(s, q[1..], r, back)
    ensures back != [] && CreditOf(back[0]) == 0 ==> Direction(s, q, r, back[1..])
  {
    hide Sum, Reserved, WriterOf;
  }

  lemma BeginWriteKeeps(e: Endpoint, f: Endpoint, q: seq<Msg>, r: Endpoint, back: seq<Msg>, s: nat, data: seq<Byte>)
    requires Direction(e, q, r, back) && s < |e.writers| && e.writers[s].todo == [] && e.writers[s].chunk == None && e.decided
    requires f == e.(writers := e.writers[s := Writer(e.writers[s].written + data, data, None)])
    ensures Direction(f, q, r, back)
  {
    hide Sum, Reserved, InFlight, CreditInFlight, StreamBytes;
    ReservedUpdate(e.writers, s, Writer(e.writers[s].written + data, data, None));
  }

  lemma ReserveKeeps(e: Endpoint, f: Endpoint, q: seq<Msg>, r: Endpoint, back: seq<Msg>, s: nat, n: nat)
    requires Direction(e, q, r, back) && s < |e.writers| && e.writers[s].chunk == None && e.writers[s].todo != []
    requires n <= e.remoteWin && n <= |e.writers[s].todo| && n <= e.maxRemote
    requires f == e.(remoteWin := e.remoteWin - n, writers := e.writers[s := e.writers[s].(chunk := Some(n))])
    ensures Direction(f, q, r, back)
  {
    hide Sum, Reserved, InFlight, CreditInFlight, StreamBytes;
    ReservedUpdate(e.writers, s, e.writers[s].(chunk := Some(n)));
  }

  lemma SendKeeps(e: Endpoint, f: Endpoint, q: seq<Msg>, r: Endpoint, back: seq<Msg>, s: nat, n: nat)
    requires Direction(e, q, r, back) && s < |e.writers| && e.writers[s].chunk == Some(n) && n <= |e.writers[s].todo|
    requires f == e.(writers := e.writers[s := Writer(e.writers[s].written, e.writers[s].todo[n..], None)])
    ensures Direction(f, q + [Data(s, n, e.writers[s].todo[..n])], r, back)
  {
    hide Sum, Reserved, InFlight, CreditInFlight, StreamBytes;
    var w := e.writers[s];
    ReservedUpdate(e.writers, s, Writer(w.written, w.todo[n..], None));
    QueueAppend(q, Data(s, n, w.todo[..n]));
    assert Held(e.writers[s]) == n;
    var f0 := q + [Data(s, n, w.todo[..n])];
    assert Sizes(f, f0, r);
    if s == 0 { Shift(r.read + r.pending + HandlingOf(r, 0), StreamBytes(q, 0), w.todo, n); }
    if s == 1 { Shift(r.extRead + r.extPending + HandlingOf(r, 1), StreamBytes(q, 1), w.todo, n); }
    assert Order(f, f0, r);
  }

  /** Moving the first bytes of one part to the end of the part before it. */
  lemma Shift(x: seq<Byte>, y: seq<Byte>, t: seq<Byte>, n: nat)
    requires n <= |t|
    ensures x + (y + t[..n]) + t[n..] == x + y + t
  {
  }

  lemma Rejoin(y: seq<Byte>, t: seq<Byte>, n: nat)
    requires n <= |t|
    ensures (y + t[..n]) + t[n..] == y + t
  {
  }

  lemma HandlingSame(e: Endpoint, f: Endpoint)
    requires f.handling == e.handling && f.handlingStream == e.handlingStream
    ensures HandlingOf(f, 0) == HandlingOf(e, 0) && HandlingOf(f, 1) == HandlingOf(e, 1)
  {
  }

  lemma StreamHead(q: seq<Msg>, s: nat)
    requires q != [] && q[0].Data?
    ensures StreamBytes(q, s) == (if q[0].stream == s then q[0].payload else []) + StreamBytes(q[1..], s)
  {
  }

  /** Accepting a data packet: the check on the window cannot fail, and the packet moves to the handler. */
  lemma DataKeeps(s: Endpoint, q: seq<Msg>, e: Endpoint, back: seq<Msg>)
    requires Direction(s, q, e, back) && q != [] && q[0].Data? && e.handling == []
    ensures Handle(e, q[0]).Some? && Direction(s, q[1..], Handle(e, q[0]).value, back)
    ensures SameSender(e, Handle(e, q[0]).value)
  {
    hide Sum, Reserved, CreditInFlight, WriterOf, StreamBytes, Wrap32;
    NoWrap32(|q[0].payload|);
    assert q[0].length == |q[0].payload| <= e.myWindow;
    var f := Handle(e, q[0]).value;
    assert Sizes(s, q[1..], f);
    assert Order(s, q[1..], f) by {
      StreamHead(q, 0);
      StreamHead(q, 1);
    }
  }

  lemma DepositKeeps(s: Endpoint, q: seq<Msg>, e: Endpoint, f: Endpoint, back: seq<Msg>)
    requires Direction(s, q, e, back) && e.handling != []
    requires f == Deposited(e)
    ensures Direction(s, q, f, back)
  {
    hide Sum, Reserved, InFlight, CreditInFlight, StreamBytes, WriterOf;
  }

  lemma ReadKeeps(s: Endpoint, q: seq<Msg>, e: Endpoint, f: Endpoint, back: seq<Msg>, stream: nat, n: nat)
    requires Direction(s, q, e, back) && stream < 2 && n <= if stream == 0 then |e.pending| else |e.extPending|
    requires f == TakenFrom(e, stream, n)
    ensures Direction(s, q, f, back)
  {
    hide Reserved, InFlight, CreditInFlight, StreamBytes, WriterOf;
    SumAppend(e.taken, [n]);
    assert Sum([n]) == n;
    hide HandlingOf;
    assert Balance(s, q, f, back);
    hide Sum, Balance;
    assert HandlingOf(f, 0) == HandlingOf(e, 0) && HandlingOf(f, 1) == HandlingOf(e, 1) by { HandlingSame(e, f); }
    if stream == 0 {
      assert f.read + f.pending == e.read + e.pending by { Rejoin(e.read, e.pending, n); }
    } else {
      assert f.extRead + f.extPending == e.extRead + e.extPending by { Rejoin(e.extRead, e.extPending, n); }
    }
  }

  lemma CreditKeeps(s: Endpoint, q: seq<Msg>, e: Endpoint, f: Endpoint, back: seq<Msg>, k: nat)
    requires Direction(s, q, e, back) && k < |e.taken|
    requires f == Credited(e, k)
    ensures Direction(s, q, f, back)
  {
    hide Reserved, InFlight, CreditInFlight, StreamBytes, WriterOf;
    SumRemove(e.taken, k);
    SumAppend(e.owed, [e.taken[k]]);
    NoWrap32(e.myWindow + e.taken[k]);
  }

  lemma AnnounceKeeps(s: Endpoint, q: seq<Msg>, e: Endpoint, f: Endpoint, back: seq<Msg>, k: nat)
    requires Direction(s, q, e, back) && k < |e.owed|
    requires f == e.(owed := e.owed[..k] + e.owed[k + 1..])
    ensures Direction(s, q, f, back + [Adjust(e.owed[k])])
  {
    hide Reserved, InFlight, CreditInFlight, StreamBytes, WriterOf;
    SumRemove(e.owed, k);
    QueueAppend(back, Adjust(e.owed[k]));
  }

  /** Credit that arrives fits in the sender's window. */
  lemma CreditArrives(e: Endpoint, q: seq<Msg>, r: Endpoint, back: seq<Msg>)
    requires Direction(e, q, r, back) && back != []
    ensures WindowAdd(e.remoteWin, CreditOf(back[0])) == Some(e.remoteWin + CreditOf(back[0]))
    ensures e.remoteWin + CreditOf(back[0]) <= WINDOW
    ensures Direction(e.(remoteWin := e.remoteWin + CreditOf(back[0])), q, r, back[1..])
  {
    hide Sum, Reserved, InFlight, StreamBytes;
    WindowAddExact(e.remoteWin, CreditOf(back[0]));
  }

  predicate SameHandshake(e: Endpoint, f: Endpoint) {
    f.created == e.created && f.decided == e.decided && f.announced == e.announced && f.maxIncoming == e.maxIncoming && f.maxRemote == e.maxRemote
  }

  lemma {:induction false} OpeningsAppend(q: seq<Msg>, m: Msg)
    ensures Openings(q + [m]) == Openings(q) + if IsOpening(m) then 1 else 0
  {
    if q == [] {
      assert q + [m] == [m];
      assert [m][1..] == [];
    } else {
      assert (q + [m])[1..] == q[1..] + [m];
      OpeningsAppend(q[1..], m);
    }
  }

  lemma HandshakePut(st: State, who: nat, f: Endpoint)
    requires Wf(st) && Handshake(st) && who < 2 && SameHandshake(st.ends[who], f)
    ensures Handshake(Put(st, who, f))
  {
  }

  lemma HandshakeSend(st: State, who: nat, f: Endpoint, m: Msg)
    requires Wf(st) && Handshake(st) && who < 2 && SameHandshake(st.ends[who], f) && !IsOpening(m)
    ensures Handshake(PutSend(st, who, f, m))
  {
    hide Openings;
    OpeningsAppend(st.queues[who], m);
  }

  lemma HandshakePop(st: State, who: nat, f: Endpoint)
    requires Wf(st) && Handshake(st) && who < 2 && SameHandshake(st.ends[who], f)
    requires st.queues[1 - who] != [] && !IsOpening(st.queues[1 - who][0])
    ensures Handshake(State(st.ends[who := f], st.queues[1 - who := st.queues[1 - who][1..]]))
  {
  }

  /** Both directions of an endpoint, from its own point of view. */
  predicate Around(e: Endpoint, out: seq<Msg>, peer: Endpoint, inc: seq<Msg>) {
    Direction(e, out, peer, inc) && Direction(peer, inc, e, out)
  }

  lemma InvAround(st: State, who: nat)
    requires Wf(st) && who < 2
    ensures Inv(st) <==> Handshake(st) && Around(st.ends[who], st.queues[who], st.ends[1 - who], st.queues[1 - who])
  {
    hide Direction, Handshake;
  }

  lemma WriteStepKeeps(st: State, ev: Event)
    requires Inv(st) && (ev.BeginWrite? || ev.Reserve?)
    ensures Step(st, ev).Ok? && Inv(Step(st, ev).state)
  {
    hide Handshake, Direction, ChunkSize;
    var r := Step(st, ev).state;
    if ev.who < 2 && r != st {
      var who, e, f := ev.who, st.ends[ev.who], r.ends[ev.who];
      var out, peer, inc := st.queues[who], st.ends[1 - who], st.queues[1 - who];
      InvAround(st, who);
      if ev.BeginWrite? {
        BeginWriteKeeps(e, f, out, peer, inc, ev.stream, ev.data);
      } else {
        var n := ChunkSize(e.maxRemote, |e.writers[ev.stream].todo|, e.remoteWin);
        ChunkBounds(e.maxRemote, |e.writers[ev.stream].todo|, e.remoteWin);
        ReserveKeeps(e, f, out, peer, inc, ev.stream, n);
      }
      ReceiverSame(peer, inc, e, f, out);
      HandshakePut(st, who, f);
      InvAround(r, who);
    }
  }

  lemma ChunkBounds(maxRemote: nat, todo: nat, win: nat)
    ensures var n := ChunkSize(maxRemote, todo, win); n <= maxRemote && n <= todo && n <= win
  {
  }

  lemma SendStepKeeps(st: State, ev: Event)
    requires Inv(st) && (ev.Send? || ev.CloseWrite?)
    ensures Step(st, ev).Ok? && Inv(Step(st, ev).state)
  {
    hide Handshake, Direction;
    var r := Step(st, ev).state;
    if ev.who < 2 && r != st {
      var who, e, f := ev.who, st.ends[ev.who], r.ends[ev.who];
      var out, peer, inc := st.queues[who], st.ends[1 - who], st.queues[1 - who];
      InvAround(st, who);
      if ev.Send? {
        var w := e.writers[ev.stream];
        var m := Data(ev.stream, w.chunk.value, w.todo[..w.chunk.value]);
        SendKeeps(e, f, out, peer, inc, ev.stream, w.chunk.value);
        ReceiverSame(peer, inc, e, f, out);
        QuietAppend(peer, inc, f, out, m);
        HandshakeSend(st, who, f, m);
      } else {
        SenderSame(e, f, out, peer, inc);
        ReceiverSame(peer, inc, e, f, out);
        QuietAppend(f, out, peer, inc, Eof);
        QuietAppend(peer, inc, f, out, Eof);
        HandshakeSend(st, who, f, Eof);
      }
      InvAround(r, who);
    }
  }

  lemma BufferStepKeeps(st: State, ev: Event)
    requires Inv(st) && (ev.Deposit? || ev.ReadBuffer? || ev.Credit?)
    ensures Step(st, ev).Ok? && Inv(Step(st, ev).state)
  {
    hide Handshake, Direction, Wrap32;
    var r := Step(st, ev).state;
    if ev.who < 2 && r != st {
      var who, e, f := ev.who, st.ends[ev.who], r.ends[ev.who];
      var out, peer, inc := st.queues[who], st.ends[1 - who], st.queues[1 - who];
      InvAround(st, who);
      if ev.Deposit? {
        DepositKeeps(peer, inc, e, f, out);
      } else if ev.ReadBuffer? {
        var n := ReadSize(e, ev.stream, ev.room);
        ReadKeeps(peer, inc, e, f, out, ev.stream, n);
      } else {
        CreditKeeps(peer, inc, e, f, out, ev.k);
      }
      SenderSame(e, f, out, peer, inc);
      HandshakePut(st, who, f);
      InvAround(r, who);
    }
  }

  lemma AnnounceStepKeeps(st: State, ev: Event)
    requires Inv(st) && ev.Announce?
    ensures Step(st, ev).Ok? && Inv(Step(st, ev).state)
  {
    hide Handshake, Direction;
    var r := Step(st, ev).state;
    if ev.who < 2 && ev.k < |st.ends[ev.who].owed| {
      var who, e, f := ev.who, st.ends[ev.who], r.ends[ev.who];
      var out, peer, inc := st.queues[who], st.ends[1 - who], st.queues[1 - who];
      var m := Adjust(e.owed[ev.k]);
      InvAround(st, who);
      AnnounceKeeps(peer, inc, e, f, out, ev.k);
      SenderSame(e, f, out, peer, inc);
      QuietAppend(f, out, peer, inc, m);
      HandshakeSend(st, who, f, m);
      InvAround(r, who);
    }
  }

  /** Accepting tells the peer the whole window. */
  lemma AcceptKeeps(st: State)
    requires Inv(st)
    ensures Step(st, Accept).Ok? && Inv(Step(st, Accept).state)
  {
    hide Sum, Reserved, InFlight, StreamBytes, CreditInFlight, Openings;
    var e := st.ends[1];
    if e.created && !e.decided {
      var m := Confirm(e.myWindow, MAX_PACKET);
      QueueAppend(st.queues[1], m);
      OpeningsAppend(st.queues[1], m);
    }
  }

  lemma DataReceived(st: State, who: nat)
    requires Inv(st) && who < 2 && st.ends[who].handling == [] && st.queues[1 - who] != [] && st.queues[1 - who][0].Data?
    ensures Step(st, Receive(who)).Ok? && Inv(Step(st, Receive(who)).state)
  {
    hide Handshake, Direction;
    var e, out, peer, inc := st.ends[who], st.queues[who], st.ends[1 - who], st.queues[1 - who];
    InvAround(st, who);
    DataKeeps(peer, inc, e, out);
    var f := Handle(e, inc[0]).value;
    SenderSame(e, f, out, peer, inc);
    QuietPop(f, out, peer, inc);
    HandshakePop(st, who, f);
    InvAround(Step(st, Receive(who)).state, who);
  }

  lemma CreditReceived(st: State, who: nat)
    requires Inv(st) && who < 2 && st.ends[who].handling == []
    requires st.queues[1 - who] != [] && (st.queues[1 - who][0].Adjust? || st.queues[1 - who][0].Eof?)
    ensures Step(st, Receive(who)).Ok? && Inv(Step(st, Receive(who)).state)
  {
    hide Handshake, Direction, WindowAdd;
    var e, out, peer, inc := st.ends[who], st.queues[who], st.ends[1 - who], st.queues[1 - who];
    InvAround(st, who);
    CreditArrives(e, out, peer, inc);
    var f := e.(remoteWin := e.remoteWin + CreditOf(inc[0]));
    ReceiverSame(peer, inc, e, f, out);
    QuietPop(peer, inc, f, out);
    HandshakePop(st, who, f);
    assert Handle(e, inc[0]) == Some(f);
    InvAround(Step(st, Receive(who)).state, who);
  }

  /** The two messages of the handshake: the window announced is the peer's whole window. */
  lemma OpeningReceived(st: State, who: nat)
    requires Inv(st) && who < 2 && st.ends[who].handling == []
    requires st.queues[1 - who] != [] && IsOpening(st.queues[1 - who][0])
    ensures Step(st, Receive(who)).Ok? && Inv(Step(st, Receive(who)).state)
  {
    hide Direction, WindowAdd;
    var e, out, peer, inc := st.ends[who], st.queues[who], st.ends[1 - who], st.queues[1 - who];
    InvAround(st, who);
    assert Openings(inc) == 1 + Openings(inc[1..]);
    CreditArrives(e, out, peer, inc);
    var g := e.(remoteWin := e.remoteWin + CreditOf(inc[0]));
    var f := if inc[0].Confirm? then g.(decided := true, maxRemote := MAX_PACKET) else g.(created := true, maxRemote := MAX_PACKET);
    assert inc[0].maxPacket == MAX_PACKET;
    assert Handle(e, inc[0]) == Some(f);
    Opened(g, f, out, peer, inc[1..]);
    ReceiverSame(peer, inc, e, f, out);
    QuietPop(peer, inc, f, out);
    var r := Step(st, Receive(who)).state;
    assert Handshake(r);
    InvAround(r, who);
  }

  lemma Opened(g: Endpoint, f: Endpoint, q: seq<Msg>, r: Endpoint, back: seq<Msg>)
    requires Direction(g, q, r, back) && r.maxIncoming == MAX_PACKET
    requires f == g.(decided := true, maxRemote := MAX_PACKET) || f == g.(created := true, maxRemote := MAX_PACKET)
    ensures Direction(f, q, r, back)
  {
    hide Sum, Reserved, InFlight, CreditInFlight, StreamBytes;
  }

  /** No step fails, and every step keeps the invariant. */
  lemma StepKeeps(st: State, ev: Event)
    requires Inv(st)
    ensures Step(st, ev).Ok? && Inv(Step(st, ev).state)
  {
    hide Inv;
    match ev
    case BeginWrite(_, _, _) => WriteStepKeeps(st, ev);
    case Reserve(_, _) => WriteStepKeeps(st, ev);
    case Send(_, _) => SendStepKeeps(st, ev);
    case CloseWrite(_) => SendStepKeeps(st, ev);
    case Deposit(_) => BufferStepKeeps(st, ev);
    case ReadBuffer(_, _, _) => BufferStepKeeps(st, ev);
    case Credit(_, _) => BufferStepKeeps(st, ev);
    case Announce(_, _) => AnnounceStepKeeps(st, ev);
    case Accept => AcceptKeeps(st);
    case Receive(who) =>
      InvWf(st);
      if who < 2 && st.ends[who].handling == [] && st.queues[1 - who] != [] {
        var m := st.queues[1 - who][0];
        if m.Data? { DataReceived(st, who); }
        else if IsOpening(m) { OpeningReceived(st, who); }
        else { CreditReceived(st, who); }
      }
  }

  lemma InvWf(st: State)
    requires Inv(st)
    ensures Wf(st)
  {
  }

  lemma InitialInv(streams: nat)
    ensures Inv(Initial(streams))
  {
    hide Direction, Handshake, Initial;
    InitialHandshake(streams);
    InitialDirections(streams);
  }

  lemma InitialHandshake(streams: nat)
    ensures Wf(Initial(streams)) && Handshake(Initial(streams))
  {
    assert [Open(WINDOW, MAX_PACKET)][1..] == [];
  }

  lemma InitialDirections(streams: nat)
    ensures var st := Initial(streams);
            Direction(st.ends[0], st.queues[0], st.ends[1], st.queues[1]) && Direction(st.ends[1], st.queues[1], st.ends[0], st.queues[0])
  {
    FreshReserved(streams);
    var q := [Open(WINDOW, MAX_PACKET)];
    assert q[1..] == [];
    assert Sum([]) == 0 && InFlight([]) == 0 && CreditInFlight([]) == 0 && StreamBytes([], 0) == [] && StreamBytes([], 1) == [];
    assert InFlight(q) == 0 && CreditInFlight(q) == WINDOW && StreamBytes(q, 0) == [] && StreamBytes(q, 1) == [];
  }

  /** Every interleaving of every behaviour of the two endpoints keeps the invariant; no check of the receiver ever fails. */
  lemma {:induction false} RunInv(streams: nat, evs: seq<Event>)
    ensures Run(streams, evs).Ok? && Inv(Run(streams, evs).state)
    decreases |evs|
  {
    hide Inv, Step, Initial;
    if evs == [] {
      InitialInv(streams);
    } else {
      RunInv(streams, evs[..|evs| - 1]);
      StepKeeps(Run(streams, evs[..|evs| - 1]).state, evs[|evs| - 1]);
    }
  }

  // ------------------------------------------------------------------ what follows

  /** All the places where part of a window can be, for data sent by endpoint `i`. */
  function Accounted(st: State, i: nat): nat
    requires Wf(st) && i < 2
  {
    var s, r := st.ends[i], st.ends[1 - i];
    s.remoteWin + Reserved(s.writers) + InFlight(st.queues[i])
    + |r.handling| + |r.pending| + |r.extPending| + Sum(r.taken)
    + Sum(r.owed) + CreditInFlight(st.queues[1 - i]) + r.discarded
  }

  /**
   Window conservation (section 5.2 of RFC 4254): once the window has been announced, its 2^21 bytes are accounted
   for in every reachable state; before, nothing can be sent.
   */
  lemma WindowConserved(streams: nat, evs: seq<Event>, i: nat)
    requires i < 2
    ensures var o := Run(streams, evs);
            o.Ok? && Accounted(o.state, i) == if o.state.ends[1 - i].announced then WINDOW else 0
  {
    RunInv(streams, evs);
    hide Run, Sum, Reserved, InFlight, CreditInFlight, Handshake, Order, Sizes;
  }

  /** Bytes come out of a stream in the order they went in, with nothing lost, added or changed. */
  lemma ReadIsPrefix(streams: nat, evs: seq<Event>, i: nat)
    requires i < 2
    ensures var o := Run(streams, evs);
            o.Ok? && o.state.ends[1 - i].read <= WriterOf(o.state.ends[i], 0).written && o.state.ends[1 - i].extRead <= WriterOf(o.state.ends[i], 1).written
  {
    RunInv(streams, evs);
    hide Run, Sum, Reserved, InFlight, CreditInFlight, Handshake, Balance, Sizes, StreamBytes, WriterOf;
  }

  /** Nothing in transit in the direction of endpoint `i`. */
  predicate Quiet(st: State, i: nat)
    requires Wf(st) && i < 2
  {
    var s, r := st.ends[i], st.ends[1 - i];
    && r.announced && st.queues[i] == [] && st.queues[1 - i] == [] && r.handling == [] && r.pending == [] && r.extPending == []
    && r.taken == [] && r.owed == [] && (forall k :: 0 <= k < |s.writers| ==> s.writers[k].todo == [])
  }

  /** When all is read and credited, both streams have been delivered and the window is back, but for what was discarded. */
  lemma QuietDelivers(streams: nat, evs: seq<Event>, i: nat)
    requires i < 2 && Run(streams, evs).Ok? && Quiet(Run(streams, evs).state, i)
    ensures var st := Run(streams, evs).state;
            && st.ends[i].remoteWin == WINDOW - st.ends[1 - i].discarded
            && st.ends[1 - i].read == WriterOf(st.ends[i], 0).written && st.ends[1 - i].extRead == WriterOf(st.ends[i], 1).written
  {
    RunInv(streams, evs);
    var st := Run(streams, evs).state;
    hide Run, Handshake, Direction;
    InvAround(st, i);
    QuietDirection(st.ends[i], st.ends[1 - i]);
  }

  lemma QuietDirection(s: Endpoint, r: Endpoint)
    requires Direction(s, [], r, []) && r.announced && r.handling == [] && r.pending == [] && r.extPending == []
    requires r.taken == [] && r.owed == [] && forall k :: 0 <= k < |s.writers| ==> s.writers[k].todo == []
    ensures s.remoteWin == WINDOW - r.discarded && r.read == WriterOf(s, 0).written && r.extRead == WriterOf(s, 1).written
  {
    NothingReserved(s.writers);
    assert Sum([]) == 0 && InFlight([]) == 0 && CreditInFlight([]) == 0;
    hide Reserved;
  }

  lemma {:induction false} NothingReserved(ws: seq<Writer>)
    requires forall k :: 0 <= k < |ws| ==> Held(ws[k]) <= |ws[k].todo| && ws[k].todo == []
    ensures Reserved(ws) == 0
  {
    if ws != [] { NothingReserved(ws[1..]); }
  }

  /** Only the two streams that a receiver reads are in use. */
  predicate TwoStreams(st: State) {
    && Wf(st)
    && (forall i :: 0 <= i < 2 ==> |st.ends[i].writers| == 2 && st.ends[i].handlingStream < 2 && st.ends[i].discarded == 0)
    && (forall i, k :: 0 <= i < 2 && 0 <= k < |st.queues[i]| && st.queues[i][k].Data? ==> st.queues[i][k].stream < 2)
  }

  lemma StepKeepsTwoStreams(st: State, ev: Event)
    requires TwoStreams(st) && Step(st, ev).Ok?
    ensures TwoStreams(Step(st, ev).state)
  {
    hide WindowAdd, ChunkSize, Wrap32;
  }

  lemma {:induction false} RunTwoStreams(evs: seq<Event>)
    requires Run(2, evs).Ok?
    ensures TwoStreams(Run(2, evs).state)
    decreases |evs|
  {
    hide Step;
    if evs != [] {
      RunTwoStreams(evs[..|evs| - 1]);
      StepKeepsTwoStreams(Run(2, evs[..|evs| - 1]).state, evs[|evs| - 1]);
    }
  }

  /** With the two streams alone, nothing of the window is ever lost. */
  lemma NothingLost(evs: seq<Event>, i: nat)
    requires i < 2
    ensures Run(2, evs).Ok? && Run(2, evs).state.ends[i].discarded == 0
  {
    RunInv(2, evs);
    RunTwoStreams(evs);
    hide Run;
  }
}
