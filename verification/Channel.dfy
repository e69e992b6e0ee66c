/**
 The methods of an SSH channel (golang.org/x/crypto/ssh/channel.go) on its own objects: the peer's window and the two
 buffers. Each is the sequence of protocol steps of module `Ssh` that it performs when no other goroutine interferes.
 */
module Channel {

  import opened Wrappers
  import opened Arithmetic
  import opened Ssh
  import opened SshRuns
  import opened Buffer

  /** Non-empty data packets of one stream within a size. */
  predicate Packets(sent: seq<Msg>, stream: nat, max: nat) {
    forall k :: 0 <= k < |sent| ==> sent[k].Data? && sent[k].stream == stream && 0 < sent[k].length == |sent[k].payload| <= max
  }

  class ChannelEnd {
    const remoteWin: Window
    const pending: FifoBuffer
    const extPending: FifoBuffer
    var myWindow: nat
    var maxIncoming: nat
    var maxRemote: nat
    var decided: bool
    var sentEOF: bool

    ghost predicate Valid()
      reads this, remoteWin, pending, pending.links, extPending, extPending.links
    {
      && remoteWin.Valid() && pending.Valid() && extPending.Valid() && pending != extPending && myWindow < TWO32
      && forall e :: e in pending.links ==> e !in extPending.links
    }

    /** This channel is in the state of the protocol's endpoint `e`. */
    ghost predicate Matches(e: Endpoint)
      reads this, remoteWin, pending, extPending
    {
      && e.myWindow == myWindow && e.maxIncoming == maxIncoming && e.maxRemote == maxRemote && e.remoteWin == remoteWin.win
      && e.pending == pending.Contents() && e.extPending == extPending.Contents() && e.decided == decided && e.sentEOF == sentEOF
    }

    constructor (maxIncoming: nat)
      ensures Valid() && fresh(remoteWin) && fresh(pending) && fresh(extPending)
      ensures fresh(set e | e in pending.links) && fresh(set e | e in extPending.links)
      ensures myWindow == WINDOW && this.maxIncoming == maxIncoming && maxRemote == 0 && remoteWin.win == 0 && !decided && !sentEOF
      ensures pending.Contents() == [] && extPending.Contents() == []
    {
      myWindow, this.maxIncoming, maxRemote, decided, sentEOF := WINDOW, maxIncoming, 0, false, false;
      remoteWin := new Window();
      pending := new FifoBuffer();
      extPending := new FifoBuffer();
    }

    /** Bytes of a stream go to its buffer; those of unknown streams nowhere. */
    method Deposit(stream: nat, data: seq<Byte>)
      requires Valid()
      modifies pending, pending.tail, extPending, extPending.tail
      ensures Valid()
      ensures pending.Contents() == if stream == 0 then old(pending.Contents()) + data else old(pending.Contents())
      ensures extPending.Contents() == if stream == 1 then old(extPending.Contents()) + data else old(extPending.Contents())
    {
      hide Flatten;
      assert pending.tail in pending.links && extPending.tail in extPending.links;
      if stream == 1 {
        extPending.Write(data);
      } else if stream == 0 {
        pending.Write(data);
      }
    }

    /** `handleData`: the packet is refused as `Handle` says, or its bytes are where `Deposited` puts them. */
    method HandleData(stream: nat, length: nat, data: seq<Byte>, ghost e: Endpoint) returns (ok: bool)
      requires Valid() && |data| < TWO32 && e.handling == [] && Matches(e)
      modifies this`myWindow, pending, pending.tail, extPending, extPending.tail
      ensures Valid() && ok == Handle(e, Data(stream, length, data)).Some?
      ensures if ok then Matches(Deposited(Handle(e, Data(stream, length, data)).value)) else Matches(e)
    {
      hide Flatten, Wrap32;
      NoWrap32(|data|);
      if length == 0 { return true; }
      if length > maxIncoming { return false; }
      if length != Wrap32(|data|) { return false; }
      if myWindow < length { return false; }
      myWindow := myWindow - length;
      Deposit(stream, data);
      ok := true;
    }

    /** The buffer's `Read` for one of the two streams. */
    method Take(stream: nat, room: nat) returns (data: seq<Byte>)
      requires Valid() && stream < 2
      modifies pending, pending.links, extPending, extPending.links
      ensures Valid()
      ensures stream == 0 ==> old(pending.Contents()) == data + pending.Contents() && extPending.Contents() == old(extPending.Contents())
      ensures stream == 1 ==> old(extPending.Contents()) == data + extPending.Contents() && pending.Contents() == old(pending.Contents())
      ensures |data| == ReserveAmount(if stream == 0 then |old(pending.Contents())| else |old(extPending.Contents())|, room)
    {
      hide Flatten;
      ghost var mine, other := pending.links, extPending.links;
      assert forall i :: 0 <= i < |mine| ==> mine[i] in mine && mine[i] !in other;
      assert forall i :: 0 <= i < |other| ==> other[i] in other && other[i] !in mine;
      var status;
      if stream == 1 {
        data, status := extPending.Read(room);
      } else {
        data, status := pending.Read(room);
      }
    }

    /** `ReadExtended`: the bytes taken are credited back to the peer at once. */
    method ReadExtended(stream: nat, room: nat, ghost e: Endpoint) returns (data: seq<Byte>, credit: Option<Msg>)
      requires Valid() && stream < 2 && Matches(e) && myWindow + |pending.Contents()| + |extPending.Contents()| < TWO32
      modifies this`myWindow, pending, pending.links, extPending, extPending.links
      ensures Valid() && |data| == ReadSize(e, stream, room)
      ensures data == if stream == 0 then e.pending[..|data|] else e.extPending[..|data|]
      ensures credit == if data == [] then None else Some(Adjust(|data|))
      ensures if data == [] then Matches(e) else Matches(Credited(TakenFrom(e, stream, |data|), |e.taken|))
    {
      hide Flatten, Wrap32, ReserveAmount;
      data := Take(stream, room);
      credit := None;
      if |data| > 0 {
        NoWrap32(myWindow + |data|);
        myWindow := Wrap32(myWindow + |data|);
        credit := Some(Adjust(|data|));
      }
    }

    /** `CloseWrite`: refused before the channel is open; afterwards the end of the data is announced and remembered. */
    method CloseWrite(ghost e: Endpoint) returns (message: Option<Msg>)
      requires Valid() && Matches(e)
      modifies this`sentEOF
      ensures Valid() && message == (if e.decided then Some(Eof) else None)
      ensures Matches(if e.decided then e.(sentEOF := true) else e)
    {
      message := None;
      if decided {
        sentEOF := true;
        message := Some(Eof);
      }
    }

    /**
     `WriteExtended`: the data goes out in order, in packets within the peer's limits, until it is all sent or the
     window is empty (where the program waits for credit). Of 4 GiB or more only the part beyond the last multiple of 4 GiB
     goes out; then the length is truncated to zero and the program would send empty packets for ever: `stuck`.
     The packets are those of the protocol's steps from any state `st` in which the write has begun. After `CloseWrite`
     the call is refused and nothing goes out.
     */
    method WriteExtended(data: seq<Byte>, stream: nat, ghost st: State, ghost who: nat)
      returns (n: nat, sent: seq<Msg>, stuck: bool, refused: bool)
      requires Valid() && (!sentEOF ==> maxRemote > 0 && !remoteWin.closed && Begun(st, who, stream, data, remoteWin.win, maxRemote))
      modifies remoteWin
      ensures Valid() && n <= |data| && n + remoteWin.win == old(remoteWin.win)
      ensures refused == sentEOF && (refused ==> sent == [] && n == 0 && !stuck)
      ensures InPackets(sent, stream, data, n, maxRemote)
      ensures refused || n == |data| || remoteWin.win == 0 || stuck
      ensures n <= |data| % TWO32 && (stuck ==> n == |data| % TWO32 && |data| >= TWO32)
      ensures !refused && old(remoteWin.win) > |data| % TWO32 ==> n == |data| % TWO32 && (stuck <==> |data| >= TWO32)
      ensures !refused ==> Mirrors(st, who, stream, data, n, sent, remoteWin.win, maxRemote)
    {
      hide Flatten, InPackets, Wrap32, ChunkSize, Mirrors;
      n, sent, stuck, refused := 0, [], false, sentEOF;
      NothingSent(stream, data, maxRemote);
      if sentEOF { return; }
      MirrorNone(st, who, stream, data, remoteWin.win, maxRemote);
      Unsent(|data|, 0);
      while n < |data| && remoteWin.win > 0
        invariant remoteWin.Valid() && n <= |data| && n + remoteWin.win == old(remoteWin.win) && !remoteWin.closed && !stuck
        invariant InPackets(sent, stream, data, n, maxRemote)
        invariant n <= |data| % TWO32 && Mirrors(st, who, stream, data, n, sent, remoteWin.win, maxRemote)
        decreases |data| - n
      {
        Unsent(|data|, n);
        ChunkIs(maxRemote, |data| - n, remoteWin.win);
        ChunkWithin(maxRemote, |data| - n, remoteWin.win);
        var left := Wrap32(|data| - n);
        var space := if maxRemote < left then maxRemote else left;
        if space == 0 { stuck := true; return; }
        MirrorChunk(st, who, stream, data, n, sent, remoteWin.win, maxRemote);
        var eof;
        space, eof := remoteWin.Reserve(space);
        var todo := data[n..n + space];
        Sent(sent, stream, data, n, space, maxRemote);
        sent := sent + [Data(stream, space, todo)];
        n := n + space;
      }
    }
  }

  /** The protocol's endpoint `who` is running a write on the stream, between two chunks. */
  ghost predicate Begun(st: State, who: nat, stream: nat, todo: seq<Byte>, win: nat, maxRemote: nat) {
    && Wf(st) && who < 2 && stream < |st.ends[who].writers|
    && st.ends[who].writers[stream].todo == todo && st.ends[who].writers[stream].chunk.None?
    && st.ends[who].remoteWin == win && st.ends[who].maxRemote == maxRemote
  }

  /** The protocol's steps for the packets sent so far lead to a state in which the rest is to be sent. */
  ghost predicate Mirrors(st: State, who: nat, stream: nat, data: seq<Byte>, n: nat, sent: seq<Msg>, win: nat, maxRemote: nat) {
    && Wf(st) && who < 2 && n <= |data|
    && var o := Steps(st, Writes(who, stream, |sent|));
       && o.Ok? && Begun(o.state, who, stream, data[n..], win, maxRemote)
       && o.state.queues[who] == st.queues[who] + sent && o.state.queues[1 - who] == st.queues[1 - who]
  }

  lemma MirrorNone(st: State, who: nat, stream: nat, data: seq<Byte>, win: nat, maxRemote: nat)
    requires Begun(st, who, stream, data, win, maxRemote)
    ensures Mirrors(st, who, stream, data, 0, [], win, maxRemote)
  {
    assert data[0..] == data && st.queues[who] + [] == st.queues[who];
  }

  lemma MirrorChunk(st: State, who: nat, stream: nat, data: seq<Byte>, n: nat, sent: seq<Msg>, win: nat, maxRemote: nat)
    requires Mirrors(st, who, stream, data, n, sent, win, maxRemote) && n < |data| && win > 0
    ensures var k := ChunkSize(maxRemote, |data| - n, win);
            && k <= win && n + k <= |data|
            && Mirrors(st, who, stream, data, n + k, sent + [Data(stream, k, data[n..n + k])], win - k, maxRemote)
  {
    hide ChunkSize, Step;
    var evs := Writes(who, stream, |sent|);
    var mid := Steps(st, evs).state;
    var k := ChunkSize(maxRemote, |data| - n, win);
    ReserveSend(mid, who, stream);
    StepsSteps(st, evs, [Reserve(who, stream), Send(who, stream)]);
    assert data[n..][..k] == data[n..n + k] && data[n..][k..] == data[n + k..];
    var more := sent + [Data(stream, k, data[n..n + k])];
    assert Writes(who, stream, |more|) == evs + [Reserve(who, stream), Send(who, stream)];
    assert st.queues[who] + sent + [Data(stream, k, data[n..n + k])] == st.queues[who] + more;
  }

  /** What is left, as the code truncates it. */
  lemma Unsent(total: nat, n: nat)
    requires n <= total % TWO32
    ensures n <= total && (total - n) % TWO32 == total % TWO32 - n
    ensures Wrap32(total - n) == total % TWO32 - n
    ensures n < total && total % TWO32 == n ==> total >= TWO32
  {
    DivModUnique(total - n, TWO32, total / TWO32, total % TWO32 - n);
  }

  lemma ChunkIs(maxRemote: nat, todo: nat, win: nat)
    ensures ChunkSize(maxRemote, todo, win)
         == (var left := Wrap32(todo); ReserveAmount(win, if maxRemote < left then maxRemote else left))
  {
  }

  /** The packets carry the first `n` bytes of the data, in order. */
  ghost predicate InPackets(sent: seq<Msg>, stream: nat, data: seq<Byte>, n: nat, max: nat) {
    n <= |data| && StreamBytes(sent, stream) == data[..n] && InFlight(sent) == n && Packets(sent, stream, max)
  }

  lemma NothingSent(stream: nat, data: seq<Byte>, max: nat)
    ensures InPackets([], stream, data, 0, max)
  {
  }

  /** Sending one more packet. */
  lemma Sent(sent: seq<Msg>, stream: nat, data: seq<Byte>, n: nat, k: nat, max: nat)
    requires InPackets(sent, stream, data, n, max) && 0 < k <= max && n + k <= |data|
    ensures InPackets(sent + [Data(stream, k, data[n..n + k])], stream, data, n + k, max)
  {
    QueueAppend(sent, Data(stream, k, data[n..n + k]));
    assert data[..n] + data[n..n + k] == data[..n + k];
  }
}
