/**
 Vote tallies as the agreement node keeps them (server/agreement.go, server/util.go):
 a counter per value, a have-voted map per voter, the max-scan that every quorum
 decision makes over a Go map in arbitrary iteration order, and leader selection.
 */
module Tally {

  type Id = string
  type Value = string

  /** The value that stands for "no block" in next votes. */
  const BOTTOM: Value := "_|_"

  /** The running result of a max-scan: the leading value and its count. */
  datatype Scan = Scan(value: Value, votes: nat)

  const NO_SCAN := Scan("", 0)

  type Counter = map<Value, nat>

  /** Go's `t[v]` on a map of counters: absent keys read as zero. */
  function Get(t: Counter, v: Value): nat {
    if v in t then t[v] else 0
  }

  /** Go's `t[v]++`. */
  function Bump(t: Counter, v: Value): Counter {
    t[v := Get(t, v) + 1]
  }

  // ---------------------------------------------------------------- max-scan

  /**
   `m` is a possible result of scanning `t` for its maximum: no count exceeds it,
   a zero maximum leaves the initial empty value in place, and a positive one is attained.
   */
  ghost predicate IsMax(t: Counter, m: Scan) {
    && (forall v :: v in t ==> t[v] <= m.votes)
    && (m.votes == 0 ==> m.value == "")
    && (m.votes > 0 ==> m.value in t && t[m.value] == m.votes)
  }

  /** One iteration of the scanning loop. */
  function Consider(t: Counter, m: Scan, v: Value): Scan
    requires v in t
  {
    if t[v] > m.votes then Scan(v, t[v]) else m
  }

  /** The scan along one particular iteration order. */
  function ScanAlong(t: Counter, order: seq<Value>): Scan
    requires forall v :: v in order ==> v in t
  {
    if order == [] then NO_SCAN
    else Consider(t, ScanAlong(t, order[..|order| - 1]), order[|order| - 1])
  }

  /** `order` visits every key of `t` exactly once. */
  ghost predicate Visits(t: Counter, order: seq<Value>) {
    && (forall v :: v in order <==> v in t)
    && (forall i, j :: 0 <= i < j < |order| ==> order[i] != order[j])
  }

  lemma {:induction false} ScanAlongPrefix(t: Counter, order: seq<Value>)
    requires forall v :: v in order ==> v in t
    ensures forall v :: v in order ==> t[v] <= ScanAlong(t, order).votes
    ensures ScanAlong(t, order).votes == 0 ==> ScanAlong(t, order).value == ""
    ensures ScanAlong(t, order).votes > 0 ==>
              ScanAlong(t, order).value in order && t[ScanAlong(t, order).value] == ScanAlong(t, order).votes
  {
    if order != [] {
      var front := order[..|order| - 1];
      ScanAlongPrefix(t, front);
      assert order == front + [order[|order| - 1]];
    }
  }

  /** Every iteration order of the map gives one of the results `IsMax` allows. */
  lemma ScanAlongIsMax(t: Counter, order: seq<Value>)
    requires Visits(t, order)
    ensures IsMax(t, ScanAlong(t, order))
  {
    ScanAlongPrefix(t, order);
  }

  lemma {:induction false} ScanKeepsLeader(t: Counter, order: seq<Value>)
    requires forall v :: v in order ==> v in t
    requires order != []
    requires t[order[0]] > 0
    requires forall v :: v in order ==> t[v] <= t[order[0]]
    ensures ScanAlong(t, order) == Scan(order[0], t[order[0]])
  {
    var n := |order| - 1;
    var front := order[..n];
    if n == 0 {
      assert front == [];
      assert ScanAlong(t, front) == NO_SCAN;
    } else {
      assert front[0] == order[0];
      ScanKeepsLeader(t, front);
    }
  }

  /** A finite set can be listed without repetition. */
  lemma {:induction false} Enumerate(s: set<Value>) returns (order: seq<Value>)
    ensures forall v :: v in order <==> v in s
    ensures forall i, j :: 0 <= i < j < |order| ==> order[i] != order[j]
    decreases |s|
  {
    if s == {} {
      order := [];
    } else {
      var v :| v in s;
      var rest := Enumerate(s - {v});
      order := rest + [v];
    }
  }

  /** Conversely, each result `IsMax` allows is what some iteration order yields. */
  lemma EveryMaxIsScanned(t: Counter, m: Scan)
    requires IsMax(t, m)
    ensures exists order :: Visits(t, order) && ScanAlong(t, order) == m
  {
    if m.votes == 0 {
      var order := Enumerate(t.Keys);
      assert Visits(t, order);
      ScanAlongIsMax(t, order);
    } else {
      var rest := Enumerate(t.Keys - {m.value});
      var order := [m.value] + rest;
      assert Visits(t, order);
      ScanKeepsLeader(t, order);
    }
  }

  /** The scanning loop itself: keys are taken in an order the caller does not control. */
  method MaxScan(t: Counter) returns (m: Scan)
    ensures IsMax(t, m)
  {
    var value: Value := "";
    var votes: nat := 0;
    var remaining := t.Keys;
    while remaining != {}
      invariant remaining <= t.Keys
      invariant forall v :: v in t && v !in remaining ==> t[v] <= votes
      invariant votes == 0 ==> value == ""
      invariant votes > 0 ==> value in t && t[value] == votes
      decreases |remaining|
    {
      var v :| v in remaining;
      if t[v] > votes {
        value, votes := v, t[v];
      }
      remaining := remaining - {v};
    }
    m := Scan(value, votes);
  }

  // ------------------------------------------------------- who backs a value

  /** The voters that a have-voted map records for `v`. */
  function Backers(log: map<Id, Value>, v: Value): set<Id> {
    set u | u in log && log[u] == v
  }

  /** Each counter entry is the number of distinct recorded voters for that value. */
  ghost predicate Accounts(t: Counter, log: map<Id, Value>) {
    forall v :: Get(t, v) == |Backers(log, v)|
  }

  /** Next votes are recorded per step, so one voter may be counted once in each. */
  ghost predicate AccountsTwice(t: Counter, log4: map<Id, Value>, log5: map<Id, Value>) {
    forall v :: Get(t, v) == |Backers(log4, v)| + |Backers(log5, v)|
  }

  lemma BackersAdd(log: map<Id, Value>, u: Id, v: Value)
    requires u !in log
    ensures Backers(log[u := v], v) == Backers(log, v) + {u}
    ensures |Backers(log[u := v], v)| == |Backers(log, v)| + 1
    ensures forall w :: w != v ==> Backers(log[u := v], w) == Backers(log, w)
  {
  }

  lemma AccountsBump(t: Counter, log: map<Id, Value>, u: Id, v: Value)
    requires Accounts(t, log) && u !in log
    ensures Accounts(Bump(t, v), log[u := v])
  {
    BackersAdd(log, u, v);
    forall w
      ensures Get(Bump(t, v), w) == |Backers(log[u := v], w)|
    {
      assert Get(t, w) == |Backers(log, w)|;
    }
  }

  lemma AccountsTwiceBump4(t: Counter, log4: map<Id, Value>, log5: map<Id, Value>, u: Id, v: Value)
    requires AccountsTwice(t, log4, log5) && u !in log4
    ensures AccountsTwice(Bump(t, v), log4[u := v], log5)
  {
    BackersAdd(log4, u, v);
  }

  lemma AccountsTwiceBump5(t: Counter, log4: map<Id, Value>, log5: map<Id, Value>, u: Id, v: Value)
    requires AccountsTwice(t, log4, log5) && u !in log5
    ensures AccountsTwice(Bump(t, v), log4, log5[u := v])
  {
    BackersAdd(log5, u, v);
  }

  lemma {:induction false} SubsetSize<T>(a: set<T>, b: set<T>)
    requires a <= b
    ensures |a| <= |b|
  {
    if a != {} {
      var x :| x in a;
      SubsetSize(a - {x}, b - {x});
    }
  }

  // ------------------------------------------------------------------ totals

  /** The sum of all counters. */
  ghost function Total(t: Counter): nat
    decreases |t|
  {
    if t == map[] then 0
    else
      var v :| v in t;
      assert (t - {v}).Keys == t.Keys - {v};
      t[v] + Total(t - {v})
  }

  lemma {:induction false} TotalTakeAny(t: Counter, v: Value)
    requires v in t
    ensures Total(t) == t[v] + Total(t - {v})
    decreases |t|
  {
    var w :| w in t && Total(t) == t[w] + Total(t - {w});
    if w != v {
      assert (t - {w}).Keys == t.Keys - {w};
      assert (t - {v}).Keys == t.Keys - {v};
      TotalTakeAny(t - {w}, v);
      TotalTakeAny(t - {v}, w);
      assert t - {w} - {v} == t - {v} - {w};
    }
  }

  lemma TotalBump(t: Counter, v: Value)
    ensures Total(Bump(t, v)) == Total(t) + 1
  {
    var b := Bump(t, v);
    TotalTakeAny(b, v);
    assert b - {v} == t - {v};
    if v in t {
      TotalTakeAny(t, v);
    } else {
      assert t - {v} == t;
    }
  }

  // ------------------------------------------------- iteration independence

  /** No two values together exceed the total. */
  lemma TotalCoversTwo(t: Counter, v: Value, w: Value)
    requires v in t && w in t && v != w
    ensures t[v] + t[w] <= Total(t)
  {
    TotalTakeAny(t, v);
    TotalTakeAny(t - {v}, w);
  }

  /**
   Order independence of the quorum decision: when a value has reached the quorum and
   twice the quorum exceeds the tally total, every scan returns that value.
   */
  lemma QuorumScanUnique(t: Counter, quorum: nat, v: Value, m: Scan)
    requires Get(t, v) >= quorum
    requires 2 * quorum > Total(t)
    requires IsMax(t, m)
    ensures m == Scan(v, Get(t, v))
  {
    if m.value != v {
      TotalCoversTwo(t, v, m.value);
    }
  }

  /** In general a scan is independent of the order exactly when the positive maximum is attained once. */
  lemma ScanOrderIndependent(t: Counter)
    ensures (forall m, m' :: IsMax(t, m) && IsMax(t, m') ==> m == m')
       <==> (forall v, w :: v in t && w in t && t[v] > 0 && IsMax(t, Scan(v, t[v])) && t[w] == t[v] ==> v == w)
  {
    if forall m, m' :: IsMax(t, m) && IsMax(t, m') ==> m == m' {
      forall v, w | v in t && w in t && t[v] > 0 && IsMax(t, Scan(v, t[v])) && t[w] == t[v]
        ensures v == w
      {
        assert IsMax(t, Scan(w, t[w]));
      }
    }
  }

  // --------------------------------------------------------- leader selection

  /** Go's `<` on strings: lexicographic. */
  predicate Less(a: string, b: string) {
    if b == [] then false
    else if a == [] then true
    else if a[0] != b[0] then a[0] < b[0]
    else Less(a[1..], b[1..])
  }

  lemma {:induction false} LessTransitive(a: string, b: string, c: string)
    requires Less(a, b) && Less(b, c)
    ensures Less(a, c)
  {
    if a != [] && a[0] == b[0] && b[0] == c[0] {
      LessTransitive(a[1..], b[1..], c[1..]);
    }
  }

  lemma {:induction false} LessTotal(a: string, b: string)
    ensures a == b || Less(a, b) || Less(b, a)
    ensures !(Less(a, b) && Less(b, a))
    ensures !Less(a, a)
  {
    if a != [] {
      LessTotal(a[1..], a[1..]);
      if b != [] && a[0] == b[0] {
        LessTotal(a[1..], b[1..]);
        assert a == [a[0]] + a[1..] && b == [b[0]] + b[1..];
      }
    }
  }

  /** `k` is the lexicographically least credential. */
  ghost predicate IsLeast(proposed: map<string, Id>, k: string) {
    k in proposed && forall j :: j in proposed ==> j == k || Less(k, j)
  }

  /**
   What `selectLeader` can return: nothing was proposed and the leader is empty, or the
   owner of some credential, and of the least one whenever no credential is empty.
   */
  ghost predicate IsLeader(proposed: map<string, Id>, leader: Id) {
    && (proposed == map[] ==> leader == "")
    && (proposed != map[] ==> exists k :: k in proposed && proposed[k] == leader)
    && (proposed != map[] && "" !in proposed ==> exists k :: IsLeast(proposed, k) && proposed[k] == leader)
  }

  /** The loop of `selectLeader`, in an order the caller does not control. */
  method SelectLeader(proposed: map<string, Id>) returns (leader: Id)
    ensures IsLeader(proposed, leader)
  {
    var minCredential := "";
    leader := "";
    var remaining := proposed.Keys;
    while remaining != {}
      invariant remaining <= proposed.Keys
      invariant remaining == proposed.Keys ==> minCredential == "" && leader == ""
      invariant remaining != proposed.Keys ==> minCredential in proposed && proposed[minCredential] == leader
      invariant "" !in proposed ==>
                  forall k :: k in proposed && k !in remaining ==> k == minCredential || Less(minCredential, k)
      decreases |remaining|
    {
      var k :| k in remaining;
      if minCredential == "" {
        minCredential, leader := k, proposed[k];
      } else if Less(k, minCredential) {
        forall j | j in proposed && j !in remaining && "" !in proposed
          ensures j == k || Less(k, j)
        {
          if j != minCredential { LessTransitive(k, minCredential, j); }
        }
        minCredential, leader := k, proposed[k];
      } else {
        LessTotal(k, minCredential);
      }
      remaining := remaining - {k};
    }
    if proposed != map[] && "" !in proposed {
      assert IsLeast(proposed, minCredential);
    }
  }

  /** With non-empty credentials the leader does not depend on the iteration order. */
  lemma LeaderUnique(proposed: map<string, Id>, a: Id, b: Id)
    requires "" !in proposed
    requires IsLeader(proposed, a) && IsLeader(proposed, b)
    ensures a == b
  {
    if proposed != map[] {
      var k :| IsLeast(proposed, k) && proposed[k] == a;
      var j :| IsLeast(proposed, j) && proposed[j] == b;
      LessTotal(k, j);
    }
  }
}
