/**
 The receiving side of an SSH channel against any peer at all: whatever packets arrive, in whatever order with the reads
 and credits of the application, either a packet is refused or the receiver stays within its window and delivers in order.
 */
module SshPeer {

  import opened Wrappers
  import opened Arithmetic
  import opened Ssh

  /** What can happen at one endpoint: a packet comes and is taken in, the application reads, and gives credit. */
  datatype Happening = Arrives(m: Msg) | Deposits | Reads(stream: nat, room: nat) | Credits(k: nat)

  /** `None` where the connection ends with an error. A packet is looked at when the one before it has been taken in. */
  function After(e: Endpoint, h: Happening): Option<Endpoint> {
    match h
    case Arrives(m) => Handle(Deposited(e), m)
    case Deposits => Some(Deposited(e))
    case Reads(s, room) => var n := ReadSize(e, s, room); Some(if n > 0 then TakenFrom(e, s, n) else e)
    case Credits(k) => Some(if k < |e.taken| then Credited(e, k) else e)
  }

  function AfterAll(e: Endpoint, hs: seq<Happening>): Option<Endpoint> {
    if hs == [] then Some(e)
    else match AfterAll(e, hs[..|hs| - 1])
      case None => None
      case Some(f) => After(f, hs[|hs| - 1])
  }

  /** A packet on the wire is shorter than 2^32 bytes. */
  predicate OnWire(hs: seq<Happening>) { forall i :: 0 <= i < |hs| && hs[i].Arrives? && hs[i].m.Data? ==> |hs[i].m.payload| < TWO32 }

  /** The bytes of the non-empty packets of a stream, in the order of arrival. */
  function Arrived(hs: seq<Happening>, s: nat): seq<Byte> {
    if hs == [] then []
    else Arrived(hs[..|hs| - 1], s) + BytesFor(hs[|hs| - 1], s)
  }

  function BytesFor(h: Happening, s: nat): seq<Byte> {
    if h.Arrives? && h.m.Data? && h.m.stream == s && h.m.length > 0 then h.m.payload else []
  }

  /** Bytes that have been taken in and not yet credited back. */
  function Outstanding(e: Endpoint): nat { |e.handling| + |e.pending| + |e.extPending| + Sum(e.taken) + e.discarded }

  /** The window is what is not outstanding, and every byte of streams 0 and 1 is read, waiting or in the handler, in order. */
  predicate Receiving(e: Endpoint, hs: seq<Happening>) {
    && e.myWindow + Outstanding(e) == WINDOW
    && Arrived(hs, 0) == e.read + e.pending + HandlingOf(e, 0)
    && Arrived(hs, 1) == e.extRead + e.extPending + HandlingOf(e, 1)
  }

  lemma DepositedReceiving(e: Endpoint, hs: seq<Happening>)
    requires Receiving(e, hs)
    ensures Receiving(Deposited(e), hs) && Deposited(e).handling == [] && Deposited(e).maxIncoming == e.maxIncoming
  {
    hide Arrived;
    assert (e.read + e.pending) + e.handling == e.read + (e.pending + e.handling);
    assert (e.extRead + e.extPending) + e.handling == e.extRead + (e.extPending + e.handling);
  }

  lemma ReadReceiving(e: Endpoint, hs: seq<Happening>, s: nat, n: nat)
    requires Receiving(e, hs) && 0 < n <= if s == 0 then |e.pending| else if s == 1 then |e.extPending| else 0
    ensures Receiving(TakenFrom(e, s, n), hs)
  {
    hide Arrived;
    SumAppend(e.taken, [n]);
    assert Sum([n]) == n;
    if s == 0 {
      assert e.pending == e.pending[..n] + e.pending[n..];
      assert e.read + e.pending == (e.read + e.pending[..n]) + e.pending[n..];
    } else {
      assert e.extPending == e.extPending[..n] + e.extPending[n..];
      assert e.extRead + e.extPending == (e.extRead + e.extPending[..n]) + e.extPending[n..];
    }
  }

  lemma ArrivedMore(hs: seq<Happening>, h: Happening, s: nat)
    ensures Arrived(hs + [h], s) == Arrived(hs, s) + BytesFor(h, s)
  {
    assert (hs + [h])[..|hs|] == hs;
  }

  lemma HandledReceiving(e: Endpoint, m: Msg, hs: seq<Happening>)
    requires Receiving(e, hs) && e.handling == [] && Handle(e, m).Some? && (m.Data? ==> |m.payload| < TWO32)
    ensures Receiving(Handle(e, m).value, hs + [Arrives(m)])
  {
    ArrivedMore(hs, Arrives(m), 0);
    ArrivedMore(hs, Arrives(m), 1);
    if m.Data? { DataReceiving(e, m, hs); } else { OtherReceiving(e, m, hs); }
  }

  lemma DataReceiving(e: Endpoint, m: Msg, hs: seq<Happening>)
    requires Receiving(e, hs) && e.handling == [] && Handle(e, m).Some? && m.Data? && |m.payload| < TWO32
    requires Arrived(hs + [Arrives(m)], 0) == Arrived(hs, 0) + BytesFor(Arrives(m), 0)
    requires Arrived(hs + [Arrives(m)], 1) == Arrived(hs, 1) + BytesFor(Arrives(m), 1)
    ensures Receiving(Handle(e, m).value, hs + [Arrives(m)])
  {
    hide Arrived, Sum, Wrap32;
    NoWrap32(|m.payload|);
    var f := Handle(e, m).value;
    assert e.read + e.pending + [] == e.read + e.pending && e.extRead + e.extPending + [] == e.extRead + e.extPending;
    if m.length > 0 { assert f.handling == m.payload && f.handlingStream == m.stream; }
  }

  lemma OtherReceiving(e: Endpoint, m: Msg, hs: seq<Happening>)
    requires Receiving(e, hs) && Handle(e, m).Some? && !m.Data?
    requires Arrived(hs + [Arrives(m)], 0) == Arrived(hs, 0) + [] && Arrived(hs + [Arrives(m)], 1) == Arrived(hs, 1) + []
    ensures Receiving(Handle(e, m).value, hs + [Arrives(m)])
  {
    hide Arrived, Sum, WindowAdd;
  }

  lemma QuietHappening(hs: seq<Happening>, h: Happening, s: nat)
    requires !h.Arrives?
    ensures Arrived(hs + [h], s) == Arrived(hs, s)
  {
    ArrivedMore(hs, h, s);
  }

  lemma StepReceiving(e: Endpoint, hs: seq<Happening>, h: Happening)
    requires Receiving(e, hs) && After(e, h).Some? && OnWire(hs + [h])
    ensures Receiving(After(e, h).value, hs + [h])
  {
    hide Arrived, Handle, Deposited, TakenFrom, Sum;
    assert (hs + [h])[|hs|] == h;
    if h.Arrives? {
      DepositedReceiving(e, hs);
      HandledReceiving(Deposited(e), h.m, hs);
    } else {
      QuietHappening(hs, h, 0);
      QuietHappening(hs, h, 1);
      match h
      case Deposits => DepositedReceiving(e, hs);
      case Reads(s, room) => if ReadSize(e, s, room) > 0 { ReadReceiving(e, hs, s, ReadSize(e, s, room)); }
      case Credits(k) =>
        if k < |e.taken| {
          SumRemove(e.taken, k);
          NoWrap32(e.myWindow + e.taken[k]);
        }
    }
  }

  /**
   Against any peer, as long as nothing is refused: at most 2^21 bytes are taken in and not credited, and what the
   application has read of a stream is the beginning of what arrived on it.
   */
  lemma {:induction false} AnyPeer(opener: bool, streams: nat, hs: seq<Happening>)
    requires OnWire(hs) && AfterAll(Newborn(opener, streams), hs).Some?
    ensures var e := AfterAll(Newborn(opener, streams), hs).value;
            && Receiving(e, hs) && Outstanding(e) <= 0x20_0000
            && e.read <= Arrived(hs, 0) && e.extRead <= Arrived(hs, 1)
    decreases |hs|
  {
    hide After;
    if hs != [] {
      var front := hs[..|hs| - 1];
      assert hs == front + [hs[|hs| - 1]];
      AnyPeer(opener, streams, front);
      StepReceiving(AfterAll(Newborn(opener, streams), front).value, front, hs[|hs| - 1]);
    }
  }

  /**
   And exactly which data packets are refused: those that are not empty and are longer than the limit announced, or not
   as long as they say, or more than what 2^21 outstanding bytes leave room for.
   */
  lemma RefusedIff(opener: bool, streams: nat, hs: seq<Happening>, stream: nat, length: nat, payload: seq<Byte>)
    requires OnWire(hs) && |payload| < TWO32 && AfterAll(Newborn(opener, streams), hs).Some?
    ensures var e := AfterAll(Newborn(opener, streams), hs).value;
            AfterAll(Newborn(opener, streams), hs + [Arrives(Data(stream, length, payload))]).None?
            <==> length != 0 && (length > e.maxIncoming || length != |payload| || Outstanding(e) + length > 0x20_0000)
  {
    hide Receiving, Outstanding, Deposited;
    AnyPeer(opener, streams, hs);
    var e := AfterAll(Newborn(opener, streams), hs).value;
    var h := Arrives(Data(stream, length, payload));
    assert (hs + [h])[..|hs|] == hs;
    NoWrap32(|payload|);
    DepositedReceiving(e, hs);
    SameOutstanding(e, hs);
  }

  lemma SameOutstanding(e: Endpoint, hs: seq<Happening>)
    requires Receiving(e, hs)
    ensures Deposited(e).myWindow == e.myWindow == WINDOW - Outstanding(e)
  {
  }

  /**
   Exactly which other messages are refused: credit that does not fit 32 bits, a second opening or confirmation, and one with
   a packet size below 9 or above 2^31. A first one sets the packet size, and its window is added if it fits.
   */
  lemma ControlRefusedIff(e: Endpoint, n: nat, maxPacket: nat)
    requires e.remoteWin < TWO32 && n < TWO32
    ensures Handle(e, Adjust(n)) == if e.remoteWin + n < 0x1_0000_0000 then Some(e.(remoteWin := e.remoteWin + n)) else None
    ensures var win := if e.remoteWin + n < 0x1_0000_0000 then e.remoteWin + n else e.remoteWin;
            && Handle(e, Confirm(n, maxPacket)) == (if !e.decided && 9 <= maxPacket <= 0x8000_0000
                                                     then Some(e.(decided := true, maxRemote := maxPacket, remoteWin := win)) else None)
            && Handle(e, Open(n, maxPacket)) == (if !e.created && 9 <= maxPacket <= 0x8000_0000
                                                  then Some(e.(created := true, maxRemote := maxPacket, remoteWin := win)) else None)
  {
    hide WindowAdd;
    WindowAddExact(e.remoteWin, n);
  }
}
