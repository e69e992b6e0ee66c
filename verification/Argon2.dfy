/**
 Argon2's memory filling (golang.org/x/crypto/argon2/argon2.go): every lane of a slice runs in its
 own goroutine, with a barrier between slices. The reference blocks are chosen so that no lane reads
 what another lane is writing; hence every interleaving leaves the same memory as running the lanes
 one after the other. The mixing function, the first word of a block and the address generator are
 parameters (`Kernel`), the block type is arbitrary.
 */
module Argon2 {

  import opened Arithmetic

  /** Slices per pass. */
  const SYNC: nat := 4

  /** Words in a block, so addresses per address block. */
  const WORDS: nat := 128

  /** The shape of the memory: `threads` lanes of four segments each. */
  datatype Params = Params(threads: nat, segments: nat) {
    function Lanes(): nat { SYNC * segments }
    function Memory(): nat { threads * Lanes() }
    predicate Valid() { 1 <= threads <= 255 && segments >= 2 && Memory() < TWO32 }
  }

  datatype Mode = Data | Independent | Hybrid

  /**
   `mix(old, a, b)` is what `processBlockXOR` leaves in a block that held `old`; `address(n, lane, slice, c, i)`
   is word `i` of the `c`-th address block of a segment.
   */
  datatype Kernel<!B> = Kernel(mix: (B, B, B) -> B, first: B -> nat, address: (nat, nat, nat, nat, nat) -> nat)

  // ------------------------------------------------------------------ memory size

  /** The number of blocks that `deriveKey` uses for a requested amount. */
  function RoundMemory(memory: nat, threads: nat): nat
    requires threads >= 1
  {
    var m := memory / (SYNC * threads) * (SYNC * threads);
    if m < 2 * SYNC * threads then 2 * SYNC * threads else m
  }

  /**
   The memory splits evenly into lanes of four segments of at least two blocks, fits in 32 bits, and is the
   largest such amount not above the request (or the least possible one).
   */
  lemma RoundMemoryShape(memory: nat, threads: nat)
    requires memory < TWO32 && 1 <= threads <= 255
    ensures var m := RoundMemory(memory, threads);
            var p := Params(threads, m / threads / SYNC);
            p.Valid() && m == p.Memory() && m / threads == p.Lanes()
    ensures var m := RoundMemory(memory, threads);
            if memory >= 8 * threads then m <= memory < m + 4 * threads else m == 8 * threads
  {
    var w := 4 * threads;
    var q := memory / w;
    var seg := if q < 2 then 2 else q;
    assert memory == q * w + memory % w;
    Segments(memory, q, w);
    EvenLanes(threads, seg);
  }

  /** The quotient by the width, raised to two, times the width. */
  lemma Segments(memory: nat, q: nat, w: nat)
    requires w > 0 && q * w <= memory < q * w + w
    ensures var m := q * w;
            (if m < 2 * w then 2 * w else m) == (if q < 2 then 2 else q) * w && (m < 2 * w <==> memory < 2 * w)
  {
  }

  lemma EvenLanes(threads: nat, seg: nat)
    requires threads > 0
    ensures var m := seg * (4 * threads);
            m / threads == 4 * seg && m / threads / SYNC == seg && m == Params(threads, seg).Memory()
  {
    assert seg * (4 * threads) == (4 * seg) * threads;
    DivModUnique(seg * (4 * threads), threads, 4 * seg, 0);
  }

  // ------------------------------------------------------------------ coordinates

  /** The block at a column of a lane. */
  function Pos(p: Params, lane: nat, col: nat): nat { lane * p.Lanes() + col }

  function LaneOf(p: Params, x: nat): nat
    requires p.Valid()
  {
    x / p.Lanes()
  }

  function ColOf(p: Params, x: nat): nat
    requires p.Valid()
  {
    x % p.Lanes()
  }

  lemma PosCoordinates(p: Params, lane: nat, col: nat)
    requires p.Valid() && lane < p.threads && col < p.Lanes()
    ensures Pos(p, lane, col) < p.Memory()
    ensures LaneOf(p, Pos(p, lane, col)) == lane && ColOf(p, Pos(p, lane, col)) == col
  {
    DivModUnique(Pos(p, lane, col), p.Lanes(), lane, col);
    MulMonotone(lane + 1, p.threads, p.Lanes());
  }

  lemma CoordinatesPos(p: Params, x: nat)
    requires p.Valid() && x < p.Memory()
    ensures LaneOf(p, x) < p.threads && ColOf(p, x) < p.Lanes() && x == Pos(p, LaneOf(p, x), ColOf(p, x))
  {
    var q := x / p.Lanes();
    assert x == q * p.Lanes() + x % p.Lanes();
    if q >= p.threads { MulMonotone(p.threads, q, p.Lanes()); }
  }

  // ------------------------------------------------------------- reference blocks

  /** `phi`: a position in a window of `m` columns that starts at column `s`. */
  function Phi(rand: nat, m: nat, s: nat, lane: nat, lanes: nat): nat
    requires lanes > 0
  {
    Wrap32(lane * lanes + Wrap64(s + m - (Distance(rand, m) + 1)) % lanes)
  }

  /** How far back from the window's end: quadratic in the low word, so recent blocks are likelier. */
  function Distance(rand: nat, m: nat): nat {
    var x := rand % TWO32;
    var y := (x * x) / TWO32;
    (y * m) / TWO32
  }

  /** The lane referred to, the window's size and its first column, as `indexAlpha` computes them. */
  function RefLane(rand: nat, threads: nat, n: nat, slice: nat, lane: nat): nat
    requires threads > 0
  {
    if n == 0 && slice == 0 then lane else (rand / TWO32) % threads
  }

  function WindowSize(segments: nat, n: nat, slice: nat, index: nat, same: bool): nat {
    var m := if n == 0 then Wrap32(slice * segments + if slice == 0 || same then index else 0)
             else Wrap32(3 * segments + if same then index else 0);
    if index == 0 || same then Wrap32(m - 1) else m
  }

  function WindowStart(segments: nat, n: nat, slice: nat): nat {
    if n == 0 then 0 else ((slice + 1) % SYNC) * segments
  }

  /** `indexAlpha`. */
  function IndexAlpha(rand: nat, lanes: nat, segments: nat, threads: nat, n: nat, slice: nat, lane: nat, index: nat): nat
    requires threads > 0 && lanes > 0
  {
    var refLane := RefLane(rand, threads, n, slice, lane);
    Phi(rand, WindowSize(segments, n, slice, index, lane == refLane), WindowStart(segments, n, slice), refLane, lanes)
  }

  /** A place where a block is computed: pass, slice, and index in a segment (the first two blocks are given). */
  predicate Site(p: Params, n: nat, slice: nat, index: nat) {
    slice < SYNC && index < p.segments && (n == 0 && slice == 0 ==> index >= 2)
  }

  /** The column before the one being computed, cyclically. */
  function PrevCol(p: Params, slice: nat, index: nat): nat
    requires p.Valid()
  {
    if index > 0 then slice * p.segments + index - 1 else if slice == 0 then p.Lanes() - 1 else (slice - 1) * p.segments + (p.segments - 1)
  }

  predicate InSlice(p: Params, slice: nat, col: nat) { slice * p.segments <= col < (slice + 1) * p.segments }

  /** Columns outside the slice in progress that hold a computed block. */
  predicate Finished(p: Params, n: nat, slice: nat, col: nat) {
    col < p.Lanes() && !InSlice(p, slice, col) && (n == 0 ==> col < slice * p.segments)
  }

  /**
   The reference set of section 3.4.2 of RFC 9106: finished columns; in the own lane also those already computed
   in this segment; without the previous column, which in other lanes matters only for a segment's first block.
   */
  predicate Available(p: Params, n: nat, slice: nat, index: nat, same: bool, col: nat)
    requires p.Valid()
  {
    && (Finished(p, n, slice, col) || (same && slice * p.segments <= col < slice * p.segments + index))
    && (same || index == 0 ==> col != PrevCol(p, slice, index))
  }

  /** Position `k` of the window. */
  function WindowCol(p: Params, n: nat, slice: nat, k: nat): nat {
    var c := WindowStart(p.segments, n, slice) + k;
    if c < p.Lanes() then c else if c < 2 * p.Lanes() then c - p.Lanes() else 0
  }

  lemma WindowSizeFits(p: Params, n: nat, slice: nat, index: nat, same: bool)
    requires p.Valid() && Site(p, n, slice, index) && (n == 0 && slice == 0 ==> same)
    ensures 1 <= WindowSize(p.segments, n, slice, index, same) < p.Lanes() < TWO32
    ensures WindowSize(p.segments, n, slice, index, same)
         == (if n == 0 then slice * p.segments else 3 * p.segments) + (if same then index else 0) - (if same || index == 0 then 1 else 0)
  {
    hide Wrap32;
    LanesFit(p);
    Slices(p, slice);
    var m := (if n == 0 then slice * p.segments else 3 * p.segments) + (if same then index else 0);
    assert 1 <= m < p.Lanes();
    NoWrap32(m);
    NoWrap32(m - 1);
  }

  lemma LanesFit(p: Params)
    requires p.Valid()
    ensures 8 <= p.Lanes() <= p.Memory() < TWO32
  {
  }

  /** The window is exactly the reference set: each available column at one position. */
  lemma WindowIsAvailable(p: Params, n: nat, slice: nat, index: nat, same: bool, col: nat)
    requires p.Valid() && Site(p, n, slice, index) && (n == 0 && slice == 0 ==> same)
    ensures Available(p, n, slice, index, same, col)
        <==> exists k: nat :: k < WindowSize(p.segments, n, slice, index, same) && WindowCol(p, n, slice, k) == col
  {
    WindowSizeFits(p, n, slice, index, same);
    var m := WindowSize(p.segments, n, slice, index, same);
    var s := WindowStart(p.segments, n, slice);
    hide WindowSize;
    if Available(p, n, slice, index, same, col) {
      AvailableInWindow(p, n, slice, index, same, col, m);
      var k := if col >= s then col - s else col + p.Lanes() - s;
      assert k < m && WindowCol(p, n, slice, k) == col;
    }
    if k: nat :| k < m && WindowCol(p, n, slice, k) == col {
      WindowAvailable(p, n, slice, index, same, k, m);
    }
  }

  lemma AvailableInWindow(p: Params, n: nat, slice: nat, index: nat, same: bool, col: nat, m: nat)
    requires p.Valid() && Site(p, n, slice, index) && (n == 0 && slice == 0 ==> same)
    requires m == (if n == 0 then slice * p.segments else 3 * p.segments) + (if same then index else 0) - (if same || index == 0 then 1 else 0)
    requires Available(p, n, slice, index, same, col)
    ensures var s := WindowStart(p.segments, n, slice);
            s < p.Lanes() && (if col >= s then col - s else col + p.Lanes() - s) < m
    ensures col < p.Lanes()
  {
    Slices(p, slice);
  }

  lemma WindowAvailable(p: Params, n: nat, slice: nat, index: nat, same: bool, k: nat, m: nat)
    requires p.Valid() && Site(p, n, slice, index) && (n == 0 && slice == 0 ==> same)
    requires m == (if n == 0 then slice * p.segments else 3 * p.segments) + (if same then index else 0) - (if same || index == 0 then 1 else 0)
    requires k < m
    ensures Available(p, n, slice, index, same, WindowCol(p, n, slice, k))
  {
    Slices(p, slice);
  }

  /** Multiples of the segment length, case by case. */
  lemma Slices(p: Params, slice: nat)
    requires slice < SYNC
    ensures slice * p.segments == if slice == 0 then 0 else if slice == 1 then p.segments else if slice == 2 then 2 * p.segments else 3 * p.segments
    ensures (slice + 1) * p.segments == slice * p.segments + p.segments
    ensures ((slice + 1) % SYNC) * p.segments == if slice == 3 then 0 else slice * p.segments + p.segments
  {
  }

  /** The pseudo-random position of `phi` stays below the window's size. */
  lemma PositionInWindow(rand: nat, m: nat)
    requires 1 <= m < TWO32
    ensures Distance(rand, m) < m
  {
    var x := rand % TWO32;
    MulMonotone(x, TWO32 - 1, x);
    var y := (x * x) / TWO32;
    assert y < TWO32;
    MulMonotone(y, TWO32 - 1, m);
  }

  lemma PhiPosition(rand: nat, m: nat, s: nat, lane: nat, lanes: nat) returns (k: nat)
    requires 1 <= m < lanes < TWO32 && s < lanes
    ensures k < m && k == m - 1 - Distance(rand, m)
    ensures Phi(rand, m, s, lane, lanes) == Wrap32(lane * lanes + if s + k < lanes then s + k else s + k - lanes)
  {
    hide Wrap32, Wrap64, Distance;
    PositionInWindow(rand, m);
    k := m - (Distance(rand, m) + 1);
    NoWrap64(s + k);
    DivModUnique(s + k, lanes, if s + k < lanes then 0 else 1, if s + k < lanes then s + k else s + k - lanes);
  }

  /**
   Every reference is inside memory, to an available column, for every random word. A reference to another
   lane is never to the slice in progress, and in the first pass only to columns already computed.
   */
  lemma ReferenceAvailable(p: Params, rand: nat, n: nat, slice: nat, lane: nat, index: nat)
    requires p.Valid() && Site(p, n, slice, index) && lane < p.threads
    ensures var ref := IndexAlpha(rand, p.Lanes(), p.segments, p.threads, n, slice, lane, index);
            var refLane := RefLane(rand, p.threads, n, slice, lane);
            ref < p.Memory() && LaneOf(p, ref) == refLane < p.threads &&
            Available(p, n, slice, index, refLane == lane, ColOf(p, ref))
  {
    hide WindowSize, LaneOf, ColOf, Available, Wrap32;
    LanesFit(p);
    var refLane := RefLane(rand, p.threads, n, slice, lane);
    var same := lane == refLane;
    var m := WindowSize(p.segments, n, slice, index, same);
    var s := WindowStart(p.segments, n, slice);
    WindowSizeFits(p, n, slice, index, same);
    Slices(p, slice);
    var k := PhiPosition(rand, m, s, refLane, p.Lanes());
    var c := WindowCol(p, n, slice, k);
    PosCoordinates(p, refLane, c);
    NoWrap32(Pos(p, refLane, c));
    WindowAvailable(p, n, slice, index, same, k, m);
  }

  // ------------------------------------------------------------------ the mapping of RFC 9106

  /** The reference set as a set of columns. */
  ghost function ReferenceSet(p: Params, n: nat, slice: nat, index: nat, same: bool): set<nat>
    requires p.Valid()
  {
    set c: nat | c < p.Lanes() && Available(p, n, slice, index, same, c)
  }

  /** When a column was last computed, in columns since the beginning of the first pass. */
  function ComputedAt(p: Params, n: nat, slice: nat, index: nat, col: nat): int {
    (if col < slice * p.segments + index then n else n - 1) * p.Lanes() + col
  }

  /** The columns of a window's positions `a` to `b`. */
  ghost function Columns(p: Params, n: nat, slice: nat, a: nat, b: nat): set<nat> { set k: nat | a <= k < b :: WindowCol(p, n, slice, k) }

  /** The positions of a window are in the order in which the columns were computed. */
  lemma WindowInOrder(p: Params, n: nat, slice: nat, index: nat, same: bool, k: nat)
    requires p.Valid() && Site(p, n, slice, index) && (n == 0 && slice == 0 ==> same) && k < WindowSize(p.segments, n, slice, index, same)
    ensures WindowCol(p, n, slice, k) < p.Lanes()
    ensures ComputedAt(p, n, slice, index, WindowCol(p, n, slice, k))
         == (if n == 0 || slice == 3 then n * p.Lanes() else (n - 1) * p.Lanes() + (slice + 1) * p.segments) + k
  {
    WindowSizeFits(p, n, slice, index, same);
    hide WindowSize;
    Slices(p, slice);
  }

  lemma {:induction false} ColumnsSize(p: Params, n: nat, slice: nat, index: nat, same: bool, a: nat, b: nat)
    requires p.Valid() && Site(p, n, slice, index) && (n == 0 && slice == 0 ==> same)
    requires a <= b <= WindowSize(p.segments, n, slice, index, same)
    ensures |Columns(p, n, slice, a, b)| == b - a
    decreases b - a
  {
    hide WindowSize, WindowCol, ComputedAt;
    if a < b {
      ColumnsSize(p, n, slice, index, same, a, b - 1);
      var last := WindowCol(p, n, slice, b - 1);
      assert Columns(p, n, slice, a, b) == Columns(p, n, slice, a, b - 1) + {last};
      forall k: nat | a <= k < b - 1 ensures WindowCol(p, n, slice, k) != last {
        WindowInOrder(p, n, slice, index, same, k);
        WindowInOrder(p, n, slice, index, same, b - 1);
      }
    } else {
      assert Columns(p, n, slice, a, b) == {};
    }
  }

  lemma ReferenceColumns(p: Params, n: nat, slice: nat, index: nat, same: bool)
    requires p.Valid() && Site(p, n, slice, index) && (n == 0 && slice == 0 ==> same)
    ensures ReferenceSet(p, n, slice, index, same) == Columns(p, n, slice, 0, WindowSize(p.segments, n, slice, index, same))
  {
    var m := WindowSize(p.segments, n, slice, index, same);
    hide WindowSize, WindowCol, ComputedAt, Available;
    forall c: nat
      ensures c in ReferenceSet(p, n, slice, index, same) <==> c in Columns(p, n, slice, 0, m)
    {
      WindowIsAvailable(p, n, slice, index, same, c);
      if k: nat :| k < m && WindowCol(p, n, slice, k) == c { WindowInOrder(p, n, slice, index, same, k); }
    }
  }

  /** The columns of the set that were computed after the one at position `k`. */
  lemma LaterColumns(p: Params, n: nat, slice: nat, index: nat, same: bool, k: nat)
    requires p.Valid() && Site(p, n, slice, index) && (n == 0 && slice == 0 ==> same)
    requires k < WindowSize(p.segments, n, slice, index, same)
    ensures var col := WindowCol(p, n, slice, k);
            Later(p, n, slice, index, same, col) == Columns(p, n, slice, k + 1, WindowSize(p.segments, n, slice, index, same))
  {
    var m, col := WindowSize(p.segments, n, slice, index, same), WindowCol(p, n, slice, k);
    hide WindowSize, WindowCol, ComputedAt, Available;
    ReferenceColumns(p, n, slice, index, same);
    forall j: nat | j < m
      ensures ComputedAt(p, n, slice, index, WindowCol(p, n, slice, j)) > ComputedAt(p, n, slice, index, col) <==> j > k
    {
      WindowInOrder(p, n, slice, index, same, j);
      WindowInOrder(p, n, slice, index, same, k);
    }
  }

  ghost function Later(p: Params, n: nat, slice: nat, index: nat, same: bool, col: nat): set<nat>
    requires p.Valid()
  {
    set c | c in ReferenceSet(p, n, slice, index, same) && ComputedAt(p, n, slice, index, c) > ComputedAt(p, n, slice, index, col)
  }

  /** A floor, by what it satisfies. */
  predicate IsFloor(q: int, x: int, d: int) { q * d <= x < (q + 1) * d }

  lemma FloorOf(x: nat, d: nat)
    requires d > 0
    ensures IsFloor(x / d, x, d)
  {
  }

  /**
   The mapping of section 3.4.2 of RFC 9106: with J1 and J2 the low and high words of the random value, the lane is J2
   modulo the number of lanes (the own one in the first slice), and the block is the one of the reference set that has
   exactly floor(|W| * floor(J1^2 / 2^32) / 2^32) blocks computed after it.
   */
  lemma Mapping(p: Params, rand: Uint64, n: nat, slice: nat, lane: nat, index: nat) returns (col: nat, y: nat, d: nat)
    requires p.Valid() && Site(p, n, slice, index) && lane < p.threads
    ensures var refLane := if n == 0 && slice == 0 then lane else (rand / 0x1_0000_0000) % p.threads;
            var refs := ReferenceSet(p, n, slice, index, refLane == lane);
            && IndexAlpha(rand, p.Lanes(), p.segments, p.threads, n, slice, lane, index) == refLane * p.Lanes() + col
            && col in refs && |Later(p, n, slice, index, refLane == lane, col)| == d
            && IsFloor(y, (rand % 0x1_0000_0000) * (rand % 0x1_0000_0000), 0x1_0000_0000) && IsFloor(d, |refs| * y, 0x1_0000_0000)
  {
    hide WindowSize, Available, Wrap32, ComputedAt, ReferenceSet, Later, Columns, IsFloor, Distance;
    LanesFit(p);
    var refLane := RefLane(rand, p.threads, n, slice, lane);
    var same := lane == refLane;
    var m := WindowSize(p.segments, n, slice, index, same);
    WindowSizeFits(p, n, slice, index, same);
    Slices(p, slice);
    var k := PhiPosition(rand, m, WindowStart(p.segments, n, slice), refLane, p.Lanes());
    col := WindowCol(p, n, slice, k);
    PosCoordinates(p, refLane, col);
    NoWrap32(Pos(p, refLane, col));
    y, d := DistanceFloors(rand, m);
    ReferenceColumns(p, n, slice, index, same);
    LaterColumns(p, n, slice, index, same, k);
    ColumnsSize(p, n, slice, index, same, 0, m);
    ColumnsSize(p, n, slice, index, same, k + 1, m);
    assert col in Columns(p, n, slice, 0, m) by { InColumns(p, n, slice, k, m); }
  }

  lemma InColumns(p: Params, n: nat, slice: nat, k: nat, m: nat)
    requires k < m
    ensures WindowCol(p, n, slice, k) in Columns(p, n, slice, 0, m)
  {
  }

  lemma DistanceFloors(rand: nat, m: nat) returns (y: nat, d: nat)
    ensures d == Distance(rand, m) && IsFloor(y, (rand % 0x1_0000_0000) * (rand % 0x1_0000_0000), 0x1_0000_0000) && IsFloor(d, m * y, 0x1_0000_0000)
  {
    hide IsFloor;
    var x := rand % TWO32;
    y := (x * x) / TWO32;
    d := (y * m) / TWO32;
    FloorOf(x * x, TWO32);
    FloorOf(y * m, TWO32);
    assert m * y == y * m;
  }
}
