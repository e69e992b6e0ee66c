/**
 The goroutines of one slice of Argon2 (golang.org/x/crypto/argon2/argon2.go): each lane's segment as a method on
 the shared memory, any interleaving of the lanes, and the proof that all interleavings agree.
 */
module Lanes {

  import opened Arithmetic
  import opened Argon2

  /** One slice of one pass: the work between two barriers. */
  datatype Work = Work(p: Params, mode: Mode, n: nat, slice: nat) {
    predicate Valid() { p.Valid() && slice < SYNC }

    /** The first index to compute; the first two blocks of a lane are given. */
    function Start(): nat { if n == 0 && slice == 0 then 2 else 0 }

    /** Whether addresses come from the counter rather than from the memory. */
    predicate Addressed() { mode == Independent || (mode == Hybrid && n == 0 && slice < SYNC / 2) }

    function Off(l: nat, i: nat): nat { Pos(p, l, slice * p.segments + i) }

    function Prev(l: nat, i: nat): nat
      requires p.Valid()
    {
      Pos(p, l, PrevCol(p, slice, i))
    }

    /** The random word for index `i`: from the address block `i / 128 + 1`, or from the previous block. */
    function Random<B>(k: Kernel<B>, l: nat, i: nat, prev: B): nat {
      if Addressed() then k.address(n, l, slice, i / WORDS + 1, i % WORDS) else k.first(prev)
    }

    function Ref<B>(k: Kernel<B>, l: nat, i: nat, prev: B): nat
      requires p.Valid()
    {
      IndexAlpha(Random(k, l, i, prev), p.Lanes(), p.segments, p.threads, n, slice, l, i)
    }
  }

  /** A block that lane `l` may rely on while the slice runs: its own, or one outside the slice. */
  predicate Private(w: Work, l: nat, x: nat)
    requires w.Valid()
  {
    LaneOf(w.p, x) == l || !InSlice(w.p, w.slice, ColOf(w.p, x))
  }

  predicate Due(w: Work, l: nat, i: nat) { l < w.p.threads && w.Start() <= i < w.p.segments }

  /** What a lane reads is in memory and private to it, and what it writes is its own. */
  lemma AccessPrivate<B>(k: Kernel<B>, w: Work, l: nat, i: nat, prev: B)
    requires w.Valid() && Due(w, l, i)
    ensures w.Prev(l, i) < w.p.Memory() && Private(w, l, w.Prev(l, i))
    ensures w.Ref(k, l, i, prev) < w.p.Memory() && Private(w, l, w.Ref(k, l, i, prev))
    ensures w.Off(l, i) < w.p.Memory() && LaneOf(w.p, w.Off(l, i)) == l && ColOf(w.p, w.Off(l, i)) == w.slice * w.p.segments + i
    ensures InSlice(w.p, w.slice, w.slice * w.p.segments + i)
    ensures w.Ref(k, l, i, prev) != w.Off(l, i) && w.Prev(l, i) != w.Off(l, i) && w.Ref(k, l, i, prev) != w.Prev(l, i)
  {
    hide LaneOf, ColOf, IndexAlpha, Pos;
    Slices(w.p, w.slice);
    PosCoordinates(w.p, l, w.slice * w.p.segments + i);
    assert PrevCol(w.p, w.slice, i) < w.p.Lanes() by {
      if w.slice > 0 { Slices(w.p, w.slice - 1); }
    }
    PosCoordinates(w.p, l, PrevCol(w.p, w.slice, i));
    ReferenceAvailable(w.p, w.Random(k, l, i, prev), w.n, w.slice, l, i);
  }

  // ------------------------------------------------------------------ one lane alone

  /** The block computed at index `i` of lane `l` from a memory. */
  function Filled<B>(k: Kernel<B>, w: Work, l: nat, i: nat, mem: seq<B>): B
    requires w.Valid() && Due(w, l, i) && |mem| == w.p.Memory()
  {
    AccessPrivate(k, w, l, i, mem[0]);
    var prev := mem[w.Prev(l, i)];
    AccessPrivate(k, w, l, i, prev);
    k.mix(mem[w.Off(l, i)], prev, mem[w.Ref(k, l, i, prev)])
  }

  /** The memory after lane `l` alone has run up to index `i`. */
  function Solo<B>(k: Kernel<B>, w: Work, l: nat, i: nat, mem: seq<B>): (r: seq<B>)
    requires w.Valid() && l < w.p.threads && i <= w.p.segments && |mem| == w.p.Memory()
    ensures |r| == |mem|
  {
    if i <= w.Start() then mem
    else
      var m := Solo(k, w, l, i - 1, mem);
      AccessPrivate(k, w, l, i - 1, m[0]);
      m[w.Off(l, i - 1) := Filled(k, w, l, i - 1, m)]
  }

  lemma SoloStep<B>(k: Kernel<B>, w: Work, l: nat, i: nat, mem: seq<B>)
    requires w.Valid() && Due(w, l, i) && |mem| == w.p.Memory()
    ensures w.Off(l, i) < |mem|
    ensures Solo(k, w, l, i + 1, mem) == Solo(k, w, l, i, mem)[w.Off(l, i) := Filled(k, w, l, i, Solo(k, w, l, i, mem))]
  {
    AccessPrivate(k, w, l, i, mem[0]);
  }

  /** A lane changes only its own blocks of the slice. */
  lemma {:induction false} SoloFrame<B>(k: Kernel<B>, w: Work, l: nat, i: nat, mem: seq<B>, x: nat)
    requires w.Valid() && l < w.p.threads && i <= w.p.segments && |mem| == w.p.Memory() && x < |mem|
    requires LaneOf(w.p, x) != l || !InSlice(w.p, w.slice, ColOf(w.p, x))
    ensures Solo(k, w, l, i, mem)[x] == mem[x]
  {
    if i > w.Start() {
      SoloFrame(k, w, l, i - 1, mem, x);
      AccessPrivate(k, w, l, i - 1, mem[0]);
    }
  }

  // ------------------------------------------------------------------ lanes interleaved

  /** Where a goroutine is in the handling of an index: before it, after reading the previous block, before the write. */
  datatype Phase<B> = Ready | HavePrev(prev: B) | HaveBlock(block: B)

  datatype Job<B> = Job(index: nat, phase: Phase<B>)

  /** The shared memory and the goroutines of the slice. */
  datatype Machine<B> = Machine(mem: seq<B>, jobs: seq<Job<B>>)

  predicate InRange<B>(w: Work, job: Job<B>) {
    && w.Start() <= job.index <= w.p.segments
    && (!job.phase.Ready? ==> job.index < w.p.segments)
  }

  predicate Wf<B>(w: Work, st: Machine<B>) {
    && w.Valid() && |st.mem| == w.p.Memory() && |st.jobs| == w.p.threads
    && forall l :: 0 <= l < |st.jobs| ==> InRange(w, st.jobs[l])
  }

  function Launched<B>(w: Work, mem: seq<B>): Machine<B> { Machine(mem, seq(w.p.threads, _ => Job(w.Start(), Ready))) }

  /** One step of lane `l`: a read, another read, or the write; nothing when it has finished. */
  function Advance<B>(k: Kernel<B>, w: Work, st: Machine<B>, l: nat): (r: Machine<B>)
    requires Wf(w, st) && l < w.p.threads
    ensures Wf(w, r)
  {
    var job := st.jobs[l];
    var i := job.index;
    if i == w.p.segments then st
    else
      AccessPrivate(k, w, l, i, st.mem[0]);
      match job.phase
      case Ready => st.(jobs := st.jobs[l := Job(i, HavePrev(st.mem[w.Prev(l, i)]))])
      case HavePrev(prev) =>
        AccessPrivate(k, w, l, i, prev);
        st.(jobs := st.jobs[l := Job(i, HaveBlock(k.mix(st.mem[w.Off(l, i)], prev, st.mem[w.Ref(k, l, i, prev)])))])
      case HaveBlock(b) => Machine(st.mem[w.Off(l, i) := b], st.jobs[l := Job(i + 1, Ready)])
  }

  /** The machine after the lanes have taken steps in the order of a schedule. */
  function Execute<B>(k: Kernel<B>, w: Work, st: Machine<B>, schedule: seq<nat>): (r: Machine<B>)
    requires Wf(w, st) && forall t :: 0 <= t < |schedule| ==> schedule[t] < w.p.threads
    ensures Wf(w, r)
  {
    if schedule == [] then st
    else Advance(k, w, Execute(k, w, st, schedule[..|schedule| - 1]), schedule[|schedule| - 1])
  }

  /** The barrier: every goroutine of the slice is done. */
  predicate Done<B>(w: Work, st: Machine<B>) { forall l :: 0 <= l < |st.jobs| ==> st.jobs[l].index == w.p.segments }

  /** What a block holds when lane `l` has run alone up to each lane's own index. */
  function Expected<B>(k: Kernel<B>, w: Work, mem: seq<B>, jobs: seq<Job<B>>, x: nat): B
    requires Wf(w, Machine(mem, jobs)) && x < |mem|
  {
    CoordinatesPos(w.p, x);
    var l := LaneOf(w.p, x);
    if InSlice(w.p, w.slice, ColOf(w.p, x)) then Solo(k, w, l, jobs[l].index, mem)[x] else mem[x]
  }

  /** What lane `l` has read agrees with its run alone. */
  ghost predicate Agrees<B>(k: Kernel<B>, w: Work, mem: seq<B>, l: nat, job: Job<B>)
    requires w.Valid() && l < w.p.threads && InRange(w, job) && |mem| == w.p.Memory()
  {
    var i := job.index;
    match job.phase
    case Ready => true
    case HavePrev(prev) => AccessPrivate(k, w, l, i, prev); prev == Solo(k, w, l, i, mem)[w.Prev(l, i)]
    case HaveBlock(b) => b == Filled(k, w, l, i, Solo(k, w, l, i, mem))
  }

  /** Every block is as if its lane had run alone, whatever the others have done. */
  ghost predicate Isolated<B>(k: Kernel<B>, w: Work, mem: seq<B>, st: Machine<B>)
    requires Wf(w, st) && |mem| == w.p.Memory()
  {
    && (forall x: nat :: x < |mem| ==> st.mem[x] == Expected(k, w, mem, st.jobs, x))
    && (forall l: nat :: l < w.p.threads ==> Agrees(k, w, mem, l, st.jobs[l]))
  }

  /** A private block reads the same in the interleaved memory and in the lane's own. */
  lemma PrivateReads<B>(k: Kernel<B>, w: Work, mem: seq<B>, st: Machine<B>, l: nat, x: nat)
    requires Wf(w, st) && |mem| == w.p.Memory() && Isolated(k, w, mem, st)
    requires l < w.p.threads && x < |mem| && Private(w, l, x)
    ensures st.mem[x] == Solo(k, w, l, st.jobs[l].index, mem)[x]
  {
    assert st.mem[x] == Expected(k, w, mem, st.jobs, x);
    if !InSlice(w.p, w.slice, ColOf(w.p, x)) { SoloFrame(k, w, l, st.jobs[l].index, mem, x); }
  }

  /** No step of any lane disturbs the isolation. */
  lemma AdvanceKeepsIsolation<B>(k: Kernel<B>, w: Work, mem: seq<B>, st: Machine<B>, l: nat)
    requires Wf(w, st) && |mem| == w.p.Memory() && Isolated(k, w, mem, st) && l < w.p.threads
    ensures Isolated(k, w, mem, Advance(k, w, st, l))
  {
    hide Filled, Solo, Expected;
    if st.jobs[l].index < w.p.segments {
      if st.jobs[l].phase.HaveBlock? {
        WriteKeepsIsolation(k, w, mem, st, l);
      } else {
        SameBlocks(k, w, mem, st, l);
        ReadAgrees(k, w, mem, st, l);
        var r := Advance(k, w, st, l);
        forall o: nat | o < w.p.threads ensures Agrees(k, w, mem, o, r.jobs[o]) {
          assert Agrees(k, w, mem, o, st.jobs[o]);
        }
      }
    }
  }

  /** What a lane reads in the shared memory is what it would read alone. */
  lemma ReadAgrees<B>(k: Kernel<B>, w: Work, mem: seq<B>, st: Machine<B>, l: nat)
    requires Wf(w, st) && |mem| == w.p.Memory() && Isolated(k, w, mem, st) && l < w.p.threads
    requires st.jobs[l].index < w.p.segments && !st.jobs[l].phase.HaveBlock?
    ensures Agrees(k, w, mem, l, Advance(k, w, st, l).jobs[l])
  {
    hide Solo, Expected, Private, LaneOf, ColOf, InSlice, IndexAlpha, Pos, PrevCol;
    var i := st.jobs[l].index;
    assert Agrees(k, w, mem, l, st.jobs[l]);
    AccessPrivate(k, w, l, i, st.mem[0]);
    if st.jobs[l].phase.HavePrev? {
      var prev := st.jobs[l].phase.prev;
      AccessPrivate(k, w, l, i, prev);
      PrivateReads(k, w, mem, st, l, w.Ref(k, l, i, prev));
      assert Private(w, l, w.Off(l, i)) by { OwnPrivate(w, l, w.Off(l, i)); }
      PrivateReads(k, w, mem, st, l, w.Off(l, i));
    } else {
      PrivateReads(k, w, mem, st, l, w.Prev(l, i));
    }
  }

  lemma OwnPrivate(w: Work, l: nat, x: nat)
    requires w.Valid() && LaneOf(w.p, x) == l
    ensures Private(w, l, x)
  {
  }

  /** Reads leave what is expected of the memory. */
  lemma SameBlocks<B>(k: Kernel<B>, w: Work, mem: seq<B>, st: Machine<B>, l: nat)
    requires Wf(w, st) && |mem| == w.p.Memory() && Isolated(k, w, mem, st) && l < w.p.threads
    requires st.jobs[l].index < w.p.segments && !st.jobs[l].phase.HaveBlock?
    ensures forall x: nat :: x < |mem| ==> Advance(k, w, st, l).mem[x] == Expected(k, w, mem, Advance(k, w, st, l).jobs, x)
  {
    hide Solo, LaneOf, ColOf;
    var r := Advance(k, w, st, l);
    forall x: nat | x < |mem| ensures r.mem[x] == Expected(k, w, mem, r.jobs, x) {
      assert st.mem[x] == Expected(k, w, mem, st.jobs, x);
      CoordinatesPos(w.p, x);
    }
  }

  lemma WriteKeepsIsolation<B>(k: Kernel<B>, w: Work, mem: seq<B>, st: Machine<B>, l: nat)
    requires Wf(w, st) && |mem| == w.p.Memory() && Isolated(k, w, mem, st) && l < w.p.threads
    requires st.jobs[l].index < w.p.segments && st.jobs[l].phase.HaveBlock?
    ensures Isolated(k, w, mem, Advance(k, w, st, l))
  {
    hide Filled, Solo, Expected, LaneOf, ColOf, Pos, PrevCol, IndexAlpha, Private;
    var r := Advance(k, w, st, l);
    forall x: nat | x < |mem| ensures r.mem[x] == Expected(k, w, mem, r.jobs, x) {
      WrittenBlock(k, w, mem, st, l, x);
    }
    forall o: nat | o < w.p.threads ensures Agrees(k, w, mem, o, r.jobs[o]) {
      assert Agrees(k, w, mem, o, st.jobs[o]);
    }
  }

  lemma WrittenBlock<B>(k: Kernel<B>, w: Work, mem: seq<B>, st: Machine<B>, l: nat, x: nat)
    requires Wf(w, st) && |mem| == w.p.Memory() && Isolated(k, w, mem, st) && l < w.p.threads && x < |mem|
    requires st.jobs[l].index < w.p.segments && st.jobs[l].phase.HaveBlock?
    ensures Advance(k, w, st, l).mem[x] == Expected(k, w, mem, Advance(k, w, st, l).jobs, x)
  {
    hide Filled, Solo, LaneOf, ColOf, Pos, PrevCol, IndexAlpha, Private, InSlice;
    var i := st.jobs[l].index;
    assert Agrees(k, w, mem, l, st.jobs[l]);
    AccessPrivate(k, w, l, i, st.mem[0]);
    SoloStep(k, w, l, i, mem);
    assert st.mem[x] == Expected(k, w, mem, st.jobs, x);
    CoordinatesPos(w.p, x);
  }

  /** The memory that a slice leaves: every lane as if alone. */
  function SliceResult<B>(k: Kernel<B>, w: Work, mem: seq<B>): (r: seq<B>)
    requires w.Valid() && |mem| == w.p.Memory()
    ensures |r| == |mem|
  {
    seq(|mem|, x requires 0 <= x < |mem| =>
      (CoordinatesPos(w.p, x);
       if InSlice(w.p, w.slice, ColOf(w.p, x)) then Solo(k, w, LaneOf(w.p, x), w.p.segments, mem)[x] else mem[x]))
  }

  lemma {:induction false} ScheduleKeepsIsolation<B>(k: Kernel<B>, w: Work, mem: seq<B>, schedule: seq<nat>)
    requires w.Valid() && |mem| == w.p.Memory() && forall t :: 0 <= t < |schedule| ==> schedule[t] < w.p.threads
    ensures Isolated(k, w, mem, Execute(k, w, Launched(w, mem), schedule))
    decreases |schedule|
  {
    if schedule == [] {
      forall x: nat | x < |mem| ensures mem[x] == Expected(k, w, mem, Launched(w, mem).jobs, x) {
        CoordinatesPos(w.p, x);
      }
    } else {
      var early := schedule[..|schedule| - 1];
      ScheduleKeepsIsolation(k, w, mem, early);
      AdvanceKeepsIsolation(k, w, mem, Execute(k, w, Launched(w, mem), early), schedule[|schedule| - 1]);
    }
  }

  /** Every schedule that brings all lanes to the barrier leaves the same memory. */
  lemma SliceDeterministic<B>(k: Kernel<B>, w: Work, mem: seq<B>, schedule: seq<nat>)
    requires w.Valid() && |mem| == w.p.Memory() && forall t :: 0 <= t < |schedule| ==> schedule[t] < w.p.threads
    requires Done(w, Execute(k, w, Launched(w, mem), schedule))
    ensures Execute(k, w, Launched(w, mem), schedule).mem == SliceResult(k, w, mem)
  {
    var st := Execute(k, w, Launched(w, mem), schedule);
    ScheduleKeepsIsolation(k, w, mem, schedule);
    forall x: nat | x < |mem| ensures st.mem[x] == SliceResult(k, w, mem)[x] {
      assert st.mem[x] == Expected(k, w, mem, st.jobs, x);
      CoordinatesPos(w.p, x);
    }
  }

  // ------------------------------------------------------------------ the barrier is reached

  lemma {:induction false} ExecuteAppend<B>(k: Kernel<B>, w: Work, st: Machine<B>, a: seq<nat>, b: seq<nat>)
    requires Wf(w, st) && (forall t :: 0 <= t < |a| ==> a[t] < w.p.threads) && (forall t :: 0 <= t < |b| ==> b[t] < w.p.threads)
    ensures forall t :: 0 <= t < |a + b| ==> (a + b)[t] < w.p.threads
    ensures Execute(k, w, st, a + b) == Execute(k, w, Execute(k, w, st, a), b)
    decreases |b|
  {
    hide Advance;
    if b == [] {
      assert a + b == a;
    } else {
      var front := b[..|b| - 1];
      assert (a + b)[..|a + b| - 1] == a + front;
      ExecuteAppend(k, w, st, a, front);
    }
  }

  /** Steps that a goroutine has still to take: three for each index. */
  function Remaining<B>(w: Work, job: Job<B>): int {
    3 * (w.p.segments - job.index) - (match job.phase case Ready => 0 case HavePrev(_) => 1 case HaveBlock(_) => 2)
  }

  lemma AdvanceProgresses<B>(k: Kernel<B>, w: Work, st: Machine<B>, l: nat)
    requires Wf(w, st) && l < w.p.threads && st.jobs[l].index < w.p.segments
    ensures var r := Advance(k, w, st, l);
            && Remaining(w, r.jobs[l]) == Remaining(w, st.jobs[l]) - 1
            && forall o :: 0 <= o < w.p.threads && o != l ==> r.jobs[o] == st.jobs[o]
  {
  }

  /** One goroutine by itself comes to its end, from wherever it is. */
  lemma {:induction false} LaneFinishes<B>(k: Kernel<B>, w: Work, st: Machine<B>, l: nat) returns (schedule: seq<nat>)
    requires Wf(w, st) && l < w.p.threads
    ensures forall t :: 0 <= t < |schedule| ==> schedule[t] < w.p.threads
    ensures var r := Execute(k, w, st, schedule);
            && r.jobs[l].index == w.p.segments
            && forall o :: 0 <= o < w.p.threads && o != l ==> r.jobs[o] == st.jobs[o]
    decreases Remaining(w, st.jobs[l]) + 3
  {
    hide Advance;
    assert InRange(w, st.jobs[l]);
    if st.jobs[l].index == w.p.segments {
      schedule := [];
    } else {
      AdvanceProgresses(k, w, st, l);
      var next := Advance(k, w, st, l);
      assert InRange(w, next.jobs[l]);
      var rest := LaneFinishes(k, w, next, l);
      ExecuteAppend(k, w, st, [l], rest);
      assert [l][..0] == [];
      assert Execute(k, w, st, [l]) == next;
      schedule := [l] + rest;
    }
  }

  lemma {:induction false} LanesFinish<B>(k: Kernel<B>, w: Work, st: Machine<B>, n: nat) returns (schedule: seq<nat>)
    requires Wf(w, st) && n <= w.p.threads
    ensures forall t :: 0 <= t < |schedule| ==> schedule[t] < w.p.threads
    ensures forall l :: 0 <= l < n ==> Execute(k, w, st, schedule).jobs[l].index == w.p.segments
    decreases n
  {
    hide Advance;
    if n == 0 {
      schedule := [];
    } else {
      var first := LanesFinish(k, w, st, n - 1);
      var last := LaneFinishes(k, w, Execute(k, w, st, first), n - 1);
      ExecuteAppend(k, w, st, first, last);
      schedule := first + last;
    }
  }

  /** From every state of a slice some schedule, lane after lane, reaches the barrier: no goroutine can get stuck. */
  lemma BarrierReachable<B>(k: Kernel<B>, w: Work, st: Machine<B>) returns (schedule: seq<nat>)
    requires Wf(w, st)
    ensures forall t :: 0 <= t < |schedule| ==> schedule[t] < w.p.threads
    ensures Done(w, Execute(k, w, st, schedule))
  {
    schedule := LanesFinish(k, w, st, w.p.threads);
  }

  /** Lanes of a slice never conflict: what one writes, no other lane reads or writes in the slice. */
  lemma RaceFree<B>(k: Kernel<B>, w: Work, l: nat, i: nat, other: nat, j: nat, prev: B)
    requires w.Valid() && Due(w, l, i) && Due(w, other, j) && l != other
    ensures w.Off(l, i) !in {w.Off(other, j), w.Prev(other, j), w.Ref(k, other, j, prev)}
  {
    AccessPrivate(k, w, l, i, prev);
    AccessPrivate(k, w, other, j, prev);
  }

  // ------------------------------------------------------------------ lanes in sequence

  /** Two memories that a lane cannot tell apart. */
  ghost predicate SameFor<B>(w: Work, l: nat, a: seq<B>, b: seq<B>)
    requires w.Valid() && |a| == |b|
  {
    forall x: nat :: x < |a| && Private(w, l, x) ==> a[x] == b[x]
  }

  lemma FilledSame<B>(k: Kernel<B>, w: Work, l: nat, i: nat, a: seq<B>, b: seq<B>)
    requires w.Valid() && Due(w, l, i) && |a| == |b| == w.p.Memory() && SameFor(w, l, a, b)
    ensures Filled(k, w, l, i, a) == Filled(k, w, l, i, b)
  {
    hide LaneOf, ColOf, Pos, PrevCol, InSlice, IndexAlpha;
    AccessPrivate(k, w, l, i, a[0]);
    AccessPrivate(k, w, l, i, a[w.Prev(l, i)]);
  }

  lemma {:induction false} SoloSame<B>(k: Kernel<B>, w: Work, l: nat, i: nat, a: seq<B>, b: seq<B>)
    requires w.Valid() && l < w.p.threads && i <= w.p.segments && |a| == |b| == w.p.Memory() && SameFor(w, l, a, b)
    ensures SameFor(w, l, Solo(k, w, l, i, a), Solo(k, w, l, i, b))
  {
    if i > w.Start() {
      var j := i - 1;
      SoloSame(k, w, l, j, a, b);
      SoloStep(k, w, l, j, a);
      SoloStep(k, w, l, j, b);
      FilledSame(k, w, l, j, Solo(k, w, l, j, a), Solo(k, w, l, j, b));
      hide Solo, Filled, Private, LaneOf, ColOf, Pos, InSlice;
    }
  }

  /** The memory after the first `l` lanes have run their segments one after the other. */
  function InOrder<B>(k: Kernel<B>, w: Work, l: nat, mem: seq<B>): (r: seq<B>)
    requires w.Valid() && l <= w.p.threads && |mem| == w.p.Memory()
    ensures |r| == |mem|
  {
    if l == 0 then mem else Solo(k, w, l - 1, w.p.segments, InOrder(k, w, l - 1, mem))
  }

  lemma {:induction false} InOrderBlocks<B>(k: Kernel<B>, w: Work, l: nat, mem: seq<B>, x: nat)
    requires w.Valid() && l <= w.p.threads && |mem| == w.p.Memory() && x < |mem|
    ensures LaneOf(w.p, x) < w.p.threads
    ensures InOrder(k, w, l, mem)[x]
         == if InSlice(w.p, w.slice, ColOf(w.p, x)) && LaneOf(w.p, x) < l then Solo(k, w, LaneOf(w.p, x), w.p.segments, mem)[x] else mem[x]
    decreases l
  {
    hide LaneOf, ColOf, InSlice, Solo;
    CoordinatesPos(w.p, x);
    if l > 0 {
      var m := InOrder(k, w, l - 1, mem);
      InOrderBlocks(k, w, l - 1, mem, x);
      if InSlice(w.p, w.slice, ColOf(w.p, x)) && LaneOf(w.p, x) == l - 1 {
        forall y: nat | y < |mem| && Private(w, l - 1, y) ensures m[y] == mem[y] {
          InOrderBlocks(k, w, l - 1, mem, y);
        }
        SoloSame(k, w, l - 1, w.p.segments, mem, m);
        assert Private(w, l - 1, x);
      } else {
        SoloFrame(k, w, l - 1, w.p.segments, m, x);
      }
    }
  }

  /** Running the lanes in parallel is running them in sequence. */
  lemma ParallelIsSequential<B>(k: Kernel<B>, w: Work, mem: seq<B>)
    requires w.Valid() && |mem| == w.p.Memory()
    ensures InOrder(k, w, w.p.threads, mem) == SliceResult(k, w, mem)
  {
    forall x: nat | x < |mem| ensures InOrder(k, w, w.p.threads, mem)[x] == SliceResult(k, w, mem)[x] {
      InOrderBlocks(k, w, w.p.threads, mem, x);
    }
  }

  // ------------------------------------------------------------------ all passes

  function WorkAt(p: Params, mode: Mode, t: nat): Work { Work(p, mode, t / SYNC, t % SYNC) }

  /** The memory after `t` slices. */
  function Fill<B>(k: Kernel<B>, p: Params, mode: Mode, t: nat, mem: seq<B>): (r: seq<B>)
    requires p.Valid() && |mem| == p.Memory()
    ensures |r| == |mem|
  {
    if t == 0 then mem else SliceResult(k, WorkAt(p, mode, t - 1), Fill(k, p, mode, t - 1, mem))
  }

  /** A parallel run: slice by slice, each under a schedule of its own that reaches the barrier. */
  ghost predicate ParallelRun<B>(k: Kernel<B>, p: Params, mode: Mode, mems: seq<seq<B>>, schedules: seq<seq<nat>>) {
    && p.Valid() && |mems| == |schedules| + 1 && |mems[0]| == p.Memory()
    && forall t: nat :: t < |schedules| ==> Barrier(k, WorkAt(p, mode, t), mems[t], schedules[t], mems[t + 1])
  }

  ghost predicate Barrier<B>(k: Kernel<B>, w: Work, mem: seq<B>, schedule: seq<nat>, next: seq<B>) {
    && w.Valid() && |mem| == w.p.Memory() && (forall i :: 0 <= i < |schedule| ==> schedule[i] < w.p.threads)
    && Done(w, Execute(k, w, Launched(w, mem), schedule))
    && next == Execute(k, w, Launched(w, mem), schedule).mem
  }

  /** Whatever the scheduling in every slice of every pass, the memory is that of the sequential fill. */
  lemma {:induction false} FillDeterministic<B>(k: Kernel<B>, p: Params, mode: Mode, mems: seq<seq<B>>, schedules: seq<seq<nat>>)
    requires ParallelRun(k, p, mode, mems, schedules)
    ensures mems[|schedules|] == Fill(k, p, mode, |schedules|, mems[0])
    decreases |schedules|
  {
    if |schedules| > 0 {
      var t := |schedules| - 1;
      assert ParallelRun(k, p, mode, mems[..|mems| - 1], schedules[..t]);
      FillDeterministic(k, p, mode, mems[..|mems| - 1], schedules[..t]);
      assert Barrier(k, WorkAt(p, mode, t), mems[t], schedules[t], mems[t + 1]);
      SliceDeterministic(k, WorkAt(p, mode, t), mems[t], schedules[t]);
    }
  }

  // ------------------------------------------------------------------ the code

  /** `processSegment`: the loop of one goroutine, on the shared memory. */
  method ProcessSegment<B>(k: Kernel<B>, w: Work, lane: nat, mem: array<B>)
    requires w.Valid() && lane < w.p.threads && mem.Length == w.p.Memory()
    modifies mem
    ensures mem[..] == Solo(k, w, lane, w.p.segments, old(mem[..]))
  {
    hide IndexAlpha, Pos, PrevCol, Wrap32, Private, LaneOf, ColOf, InSlice, Solo;
    LanesFit(w.p);
    var lanes, segments := w.p.Lanes(), w.p.segments;
    var counter, addresses := 0, 0;
    var index := 0;
    if w.n == 0 && w.slice == 0 {
      index := 2;
      if w.mode == Independent || w.mode == Hybrid {
        counter := counter + 1;
        addresses := counter;
      }
    }
    var offset := lane * lanes + w.slice * segments + index;
    assert offset == w.Off(lane, index) by { OffsetIs(w, lane, index); }
    assert mem[..] == Solo(k, w, lane, index, mem[..]) by { SoloNone(k, w, lane, mem[..]); }
    while index < segments
      invariant w.Start() <= index <= segments && offset == w.Off(lane, index)
      invariant w.Addressed() ==> counter == addresses == (index + WORDS - 1) / WORDS
      invariant mem[..] == Solo(k, w, lane, index, old(mem[..]))
    {
      AccessPrivate(k, w, lane, index, mem[0]);
      AddressBlock(index);
      var prev := Wrap32(offset - 1);
      if index == 0 && w.slice == 0 { prev := Wrap32(prev + lanes); }
      PrevOffset(w, lane, index, prev);
      var random;
      if w.mode == Independent || (w.mode == Hybrid && w.n == 0 && w.slice < SYNC / 2) {
        if index % WORDS == 0 {
          counter := counter + 1;
          addresses := counter;
        }
        random := k.address(w.n, lane, w.slice, addresses, index % WORDS);
      } else {
        random := k.first(mem[prev]);
      }
      var newOffset := IndexAlpha(random, lanes, segments, w.p.threads, w.n, w.slice, lane, index);
      AccessPrivate(k, w, lane, index, mem[prev]);
      SoloStep(k, w, lane, index, old(mem[..]));
      mem[offset] := k.mix(mem[offset], mem[prev], mem[newOffset]);
      OffsetIs(w, lane, index);
      OffsetIs(w, lane, index + 1);
      index, offset := index + 1, offset + 1;
    }
  }

  lemma SoloNone<B>(k: Kernel<B>, w: Work, l: nat, mem: seq<B>)
    requires w.Valid() && l < w.p.threads && |mem| == w.p.Memory()
    ensures Solo(k, w, l, w.Start(), mem) == mem
  {
  }

  lemma OffsetIs(w: Work, lane: nat, index: nat)
    ensures w.Off(lane, index) == lane * w.p.Lanes() + w.slice * w.p.segments + index
  {
  }

  /** The 32-bit subtraction before the first block of memory wraps, and adding a lane wraps back. */
  lemma PrevOffset(w: Work, lane: nat, index: nat, prev: nat)
    requires w.Valid() && Due(w, lane, index)
    requires var before := Wrap32(w.Off(lane, index) - 1);
             prev == if index == 0 && w.slice == 0 then Wrap32(before + w.p.Lanes()) else before
    ensures prev == w.Prev(lane, index)
  {
    Slices(w.p, w.slice);
    PosCoordinates(w.p, lane, w.slice * w.p.segments + index);
    PosCoordinates(w.p, lane, w.p.Lanes() - 1);
    LanesFit(w.p);
    hide Wrap32, LaneOf, ColOf;
    var offset := w.Off(lane, index);
    if offset == 0 {
      DivModUnique(-1, TWO32, -1, TWO32 - 1);
      DivModUnique(TWO32 - 1 + w.p.Lanes(), TWO32, 1, w.p.Lanes() - 1);
      WrapIs(-1);
      WrapIs(TWO32 - 1 + w.p.Lanes());
    } else {
      NoWrap32(offset - 1);
      if index == 0 && w.slice == 0 { NoWrap32(offset - 1 + w.p.Lanes()); }
      if w.slice > 0 { Slices(w.p, w.slice - 1); }
    }
  }

  lemma WrapIs(x: int)
    ensures Wrap32(x) == x % TWO32
  {
  }

  /** The address block in use at an index. */
  lemma AddressBlock(index: nat)
    ensures index % WORDS == 0 ==> (index + WORDS - 1) / WORDS == index / WORDS
    ensures index % WORDS != 0 ==> (index + WORDS - 1) / WORDS == index / WORDS + 1
    ensures (index + 1 + WORDS - 1) / WORDS == index / WORDS + 1
  {
  }

  /** `processBlocks`, with the goroutines of a slice taken in order. */
  method ProcessBlocks<B>(k: Kernel<B>, p: Params, mode: Mode, time: nat, mem: array<B>)
    requires p.Valid() && mem.Length == p.Memory()
    modifies mem
    ensures mem[..] == Fill(k, p, mode, time * SYNC, old(mem[..]))
  {
    hide SliceResult, Solo;
    for n := 0 to time
      invariant mem[..] == Fill(k, p, mode, n * SYNC, old(mem[..]))
    {
      for slice := 0 to SYNC
        invariant mem[..] == Fill(k, p, mode, n * SYNC + slice, old(mem[..]))
      {
        var w := Work(p, mode, n, slice);
        assert WorkAt(p, mode, n * SYNC + slice) == w by { DivModUnique(n * SYNC + slice, SYNC, n, slice); }
        ghost var before := mem[..];
        for lane := 0 to p.threads
          invariant mem[..] == InOrder(k, w, lane, before)
        {
          ProcessSegment(k, w, lane, mem);
        }
        ParallelIsSequential(k, w, before);
      }
    }
  }
}
