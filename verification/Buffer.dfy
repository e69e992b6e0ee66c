/** The linked-list buffer between an SSH channel's reader and the connection (golang.org/x/crypto/ssh/buffer.go). */
module Buffer {

  import opened Arithmetic

  /** One link of the list. */
  class Element {
    var buf: seq<Byte>
    var next: Element?

    constructor (buf: seq<Byte>)
      ensures this.buf == buf && next == null
    {
      this.buf, next := buf, null;
    }
  }

  function Flatten(chunks: seq<seq<Byte>>): seq<Byte> {
    if chunks == [] then [] else chunks[0] + Flatten(chunks[1..])
  }

  lemma {:induction false} FlattenAppend(chunks: seq<seq<Byte>>, c: seq<Byte>)
    ensures Flatten(chunks + [c]) == Flatten(chunks) + c
  {
    if chunks == [] {
      assert chunks + [c] == [c];
      assert Flatten([c]) == c + Flatten([]);
    } else {
      assert (chunks + [c])[1..] == chunks[1..] + [c];
      FlattenAppend(chunks[1..], c);
      assert Flatten(chunks + [c]) == chunks[0] + (Flatten(chunks[1..]) + c);
    }
  }

  /** Taking bytes off the first chunk takes them off the front. */
  lemma FlattenDrop(chunks: seq<seq<Byte>>, n: nat)
    requires chunks != [] && n <= |chunks[0]|
    ensures Flatten(chunks) == chunks[0][..n] + Flatten([chunks[0][n..]] + chunks[1..])
  {
  }

  /** A read's end: with data, at the end of the file, or with nothing available yet (where the program waits). */
  datatype Status = Got | EndOfFile | Wait

  class FifoBuffer {
    var head: Element
    var tail: Element
    var closed: bool
    /** The links from `head` to `tail`, and their contents. */
    ghost var links: seq<Element>
    ghost var chunks: seq<seq<Byte>>

    ghost predicate Valid()
      reads this, links
    {
      && links != [] && links[0] == head && links[|links| - 1] == tail && tail.next == null && |chunks| == |links|
      && (forall i :: 0 <= i < |links| ==> links[i].buf == chunks[i])
      && (forall i, j :: 0 <= i && j == i + 1 && j < |links| ==> links[i].next == links[j])
      && (forall i, j :: 0 <= i < j < |links| ==> links[i] != links[j])
    }

    /** What has been written and not yet read. */
    ghost function Contents(): seq<Byte>
      reads this
    {
      Flatten(chunks)
    }

    constructor ()
      ensures Valid() && Contents() == [] && !closed
      ensures fresh(set e | e in links)
    {
      var e := new Element([]);
      head, tail, closed := e, e, false;
      links, chunks := [e], [[]];
    }

    /** Bytes are appended, whatever has been read in the meantime. */
    method Write(buf: seq<Byte>)
      requires Valid()
      modifies this, tail
      ensures Valid() && closed == old(closed)
      ensures Contents() == old(Contents()) + buf
      ensures fresh(set e | e in links && e !in old(links))
    {
      var e := new Element(buf);
      FlattenAppend(chunks, buf);
      tail.next := e;
      tail := e;
      links, chunks := links + [e], chunks + [buf];
    }

    method Eof()
      requires Valid()
      modifies this`closed
      ensures Valid() && closed && Contents() == old(Contents())
    {
      closed := true;
    }

    /** `copy` from the first link. */
    method TakeFromHead(room: nat) returns (data: seq<Byte>)
      requires Valid()
      modifies this`chunks, head
      ensures Valid() && old(Contents()) == data + Contents()
      ensures |data| == if room < |old(head.buf)| then room else |old(head.buf)|
    {
      var n := if room < |head.buf| then room else |head.buf|;
      FlattenDrop(chunks, n);
      assert links[0].buf == chunks[0];
      data := head.buf[..n];
      head.buf := head.buf[n..];
      chunks := [chunks[0][n..]] + chunks[1..];
    }

    /** An exhausted first link is dropped. */
    method NextLink()
      requires Valid() && head.buf == [] && head != tail
      modifies this
      ensures Valid() && Contents() == old(Contents()) && closed == old(closed) && links == old(links)[1..]
    {
      var i, j := 0, 1;
      assert links[i].next == links[j] && links[i].buf == chunks[i];
      head := head.next;
      links, chunks := links[1..], chunks[1..];
    }

    /** As many bytes as there is room for and as are there, in order; nothing is lost and the rest stays. */
    method Read(room: nat) returns (data: seq<Byte>, status: Status)
      requires Valid()
      modifies this, links
      ensures Valid() && closed == old(closed) && forall e :: e in links ==> e in old(links)
      ensures old(Contents()) == data + Contents()
      ensures |data| == if room < |old(Contents())| then room else |old(Contents())|
      ensures status == if data != [] || room == 0 then Got else if closed then EndOfFile else Wait
    {
      hide Flatten;
      data, status := [], Got;
      var left: nat := room;
      while left > 0
        invariant Valid() && closed == old(closed)
        invariant forall e :: e in links ==> e in old(links)
        invariant left + |data| == room && status == Got
        invariant old(Contents()) == data + Contents()
        decreases left, |links|
      {
        assert head == links[0] && head in links;
        if |head.buf| > 0 {
          var part := TakeFromHead(left);
          data := data + part;
          left := left - |part|;
        } else if head != tail {
          NextLink();
        } else {
          OneLink();
          if data == [] { status := if closed then EndOfFile else Wait; }
          return;
        }
      }
    }

    lemma OneLink()
      requires Valid() && head == tail && head.buf == []
      ensures Contents() == []
    {
      assert chunks[0] == links[0].buf;
      assert |chunks| == 1 && chunks[1..] == [];
      assert Flatten(chunks) == chunks[0] + Flatten(chunks[1..]);
    }
  }
}
