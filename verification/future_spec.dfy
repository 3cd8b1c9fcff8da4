/**
 The future queue as a mathematical object: a sequence kept in expiry order, and, independently of
 it, a queue that stores futures in arrival order and searches for the earliest one.
 */
module FutureSpec {
  import opened Words

  /** One scheduled jump (future_queue.h:32-36). */
  datatype Future = Future(jmp: u32, wait: u32, expiry: u64)

  ghost predicate Sorted(s: seq<Future>) {
    forall i, j :: 0 <= i < j < |s| ==> s[i].expiry <= s[j].expiry
  }

  /** Inserts `f` behind every element of the leading run whose expiry is equal or earlier. */
  function Insert(s: seq<Future>, f: Future): (r: seq<Future>)
    ensures |r| == |s| + 1
  {
    if s == [] || f.expiry < s[0].expiry then [f] + s else [s[0]] + Insert(s[1..], f)
  }

  /** Insertion sort in arrival order. */
  function StableSort(s: seq<Future>): (r: seq<Future>)
    ensures |r| == |s|
  {
    if s == [] then [] else Insert(StableSort(s[..|s| - 1]), s[|s| - 1])
  }

  /** The elements of `s` that expire at `e`, in the order they have in `s`. */
  function Class(s: seq<Future>, e: u64): seq<Future> {
    if s == [] then []
    else if s[0].expiry == e then [s[0]] + Class(s[1..], e)
    else Class(s[1..], e)
  }

  // ----- Insert -----

  /** On a sorted sequence, the new element goes behind all equal or earlier ones and before all later ones. */
  lemma {:induction false} InsertPlaces(s: seq<Future>, f: Future) returns (k: nat)
    requires Sorted(s)
    ensures k <= |s|
    ensures Insert(s, f) == s[..k] + [f] + s[k..]
    ensures forall i :: 0 <= i < k ==> s[i].expiry <= f.expiry
    ensures forall i :: k <= i < |s| ==> f.expiry < s[i].expiry
  {
    if s == [] || f.expiry < s[0].expiry {
      k := 0;
    } else {
      var t := s[1..];
      var m := InsertPlaces(t, f);
      k := m + 1;
      assert s[..k] == [s[0]] + t[..m];
      assert s[k..] == t[m..];
      forall i | k <= i < |s|
        ensures f.expiry < s[i].expiry
      {
        assert s[i] == t[i - 1];
      }
      forall i | 0 <= i < k
        ensures s[i].expiry <= f.expiry
      {
        assert i > 0 ==> s[i] == t[i - 1];
      }
    }
  }

  lemma InsertSorted(s: seq<Future>, f: Future)
    requires Sorted(s)
    ensures Sorted(Insert(s, f))
  {
    var k := InsertPlaces(s, f);
    var r := s[..k] + [f] + s[k..];
    forall i, j | 0 <= i < j < |r|
      ensures r[i].expiry <= r[j].expiry
    {
      assert r[i] == if i < k then s[i] else if i == k then f else s[i - 1];
      assert r[j] == if j < k then s[j] else if j == k then f else s[j - 1];
    }
  }

  /** Elements with different expiries can be inserted in either order. */
  lemma {:induction false} InsertCommutes(s: seq<Future>, a: Future, b: Future)
    requires b.expiry < a.expiry
    ensures Insert(Insert(s, a), b) == Insert(Insert(s, b), a)
  {
    if s != [] && s[0].expiry <= b.expiry {
      InsertCommutes(s[1..], a, b);
      assert Insert(s, a)[1..] == Insert(s[1..], a);
      assert Insert(s, b)[1..] == Insert(s[1..], b);
    } else {
      assert ([b] + s)[1..] == s;
      if s != [] && s[0].expiry <= a.expiry {
        assert Insert(s, a)[0] == s[0];
        assert Insert(s, b) == [b] + s;
      } else {
        assert Insert(s, a) == [a] + s;
      }
    }
  }

  lemma {:induction false} InsertClass(s: seq<Future>, f: Future, e: u64)
    requires Sorted(s)
    ensures Class(Insert(s, f), e) == if f.expiry == e then Class(s, e) + [f] else Class(s, e)
  {
    if s == [] {
    } else if f.expiry < s[0].expiry {
      assert ([f] + s)[1..] == s;
      if f.expiry == e {
        ClassEmpty(s, e);
      }
    } else {
      InsertClass(s[1..], f, e);
      assert Insert(s, f)[1..] == Insert(s[1..], f);
    }
  }

  lemma {:induction false} ClassEmpty(s: seq<Future>, e: u64)
    requires forall i :: 0 <= i < |s| ==> s[i].expiry != e
    ensures Class(s, e) == []
  {
    if s != [] {
      ClassEmpty(s[1..], e);
    }
  }

  lemma {:induction false} ClassAppend(s: seq<Future>, t: seq<Future>, e: u64)
    ensures Class(s + t, e) == Class(s, e) + Class(t, e)
  {
    if s == [] {
      assert s + t == t;
    } else {
      assert (s + t)[1..] == s[1..] + t;
      ClassAppend(s[1..], t, e);
    }
  }

  // ----- StableSort: sorted, stable, and the only sequence that is both -----

  lemma {:induction false} StableSortSorted(s: seq<Future>)
    ensures Sorted(StableSort(s))
  {
    if s != [] {
      StableSortSorted(s[..|s| - 1]);
      InsertSorted(StableSort(s[..|s| - 1]), s[|s| - 1]);
    }
  }

  lemma {:induction false} InsertMultiset(q: seq<Future>, f: Future)
    ensures multiset(Insert(q, f)) == multiset(q) + multiset{f}
  {
    if q != [] && q[0].expiry <= f.expiry {
      InsertMultiset(q[1..], f);
      assert q == [q[0]] + q[1..];
      assert Insert(q, f) == [q[0]] + Insert(q[1..], f);
    }
  }

  lemma {:induction false} StableSortPermutes(s: seq<Future>)
    ensures multiset(StableSort(s)) == multiset(s)
  {
    if s != [] {
      hide Insert;
      var front, f := s[..|s| - 1], s[|s| - 1];
      StableSortPermutes(front);
      InsertMultiset(StableSort(front), f);
      assert s == front + [f];
    }
  }

  /** Sorting keeps elements of equal expiry in arrival order. */
  lemma {:induction false} StableSortStable(s: seq<Future>, e: u64)
    ensures Class(StableSort(s), e) == Class(s, e)
  {
    if s != [] {
      var front, f := s[..|s| - 1], s[|s| - 1];
      StableSortStable(front, e);
      StableSortSorted(front);
      InsertClass(StableSort(front), f, e);
      ClassAppend(front, [f], e);
      assert s == front + [f];
      assert Class([f], e) == if f.expiry == e then [f] else [] by { assert [f][1..] == []; }
    }
  }

  /** A sorted sequence is determined by its classes, so `StableSort` is the only stable sort. */
  lemma {:induction false} SortedUnique(s: seq<Future>, t: seq<Future>)
    requires Sorted(s) && Sorted(t)
    requires forall e: u64 :: Class(s, e) == Class(t, e)
    ensures s == t
  {
    if s == [] || t == [] {
      assert s != [] ==> Class(s, s[0].expiry) != [];
      assert t != [] ==> Class(t, t[0].expiry) != [];
    } else {
      if s[0].expiry < t[0].expiry {
        ClassEmpty(t, s[0].expiry);
        assert false;
      }
      if t[0].expiry < s[0].expiry {
        ClassEmpty(s, t[0].expiry);
        assert false;
      }
      assert Class(s, s[0].expiry)[0] == s[0] && Class(t, s[0].expiry)[0] == t[0];
      forall e: u64
        ensures Class(s[1..], e) == Class(t[1..], e)
      {
        assert Class(s, e) == Class(t, e);
        if s[0].expiry == e {
          assert Class(s, e)[1..] == Class(s[1..], e);
          assert Class(t, e)[1..] == Class(t[1..], e);
        }
      }
      SortedUnique(s[1..], t[1..]);
    }
  }

  lemma SortedFixed(s: seq<Future>)
    requires Sorted(s)
    ensures StableSort(s) == s
  {
    StableSortSorted(s);
    forall e: u64
      ensures Class(StableSort(s), e) == Class(s, e)
    {
      StableSortStable(s, e);
    }
    SortedUnique(StableSort(s), s);
  }

  /** Exchanging a neighbouring pair that is strictly out of order does not change the sorted result. */
  lemma {:induction false} SwapKeepsStableSort(s: seq<Future>, j: nat)
    requires j + 1 < |s| && s[j + 1].expiry < s[j].expiry
    ensures StableSort(s[j := s[j + 1]][j + 1 := s[j]]) == StableSort(s)
  {
    var t := s[j := s[j + 1]][j + 1 := s[j]];
    var n := |s|;
    if j + 2 == n {
      assert t[..n - 1][..n - 2] == s[..n - 1][..n - 2];
      InsertCommutes(StableSort(s[..n - 1][..n - 2]), s[j], s[j + 1]);
      assert t[..n - 1][n - 2] == s[j + 1] && t[n - 1] == s[j];
    } else {
      SwapKeepsStableSort(s[..n - 1], j);
      assert t[..n - 1] == s[..n - 1][j := s[j + 1]][j + 1 := s[j]];
    }
  }

  /** Pushing on a queue that is already in order: the bubble sort amounts to an insertion. */
  lemma PushInserts(s: seq<Future>, f: Future)
    requires Sorted(s)
    ensures StableSort(s + [f]) == Insert(s, f)
  {
    assert (s + [f])[..|s|] == s;
    SortedFixed(s);
  }

  // ----- The reference queue: arrival order, searched on every pop -----

  datatype Op = Push(f: Future) | Pop
  datatype Answer = Accepted | Full | Taken(f: Future) | Empty

  /** Index of the earliest future, the oldest one among ties. */
  function Earliest(s: seq<Future>): (k: nat)
    requires s != []
    ensures k < |s|
    ensures forall i :: 0 <= i < k ==> s[k].expiry < s[i].expiry
    ensures forall i :: k <= i < |s| ==> s[k].expiry <= s[i].expiry
  {
    if |s| == 1 then 0
    else
      var m := Earliest(s[1..]) + 1;
      assert forall i :: 1 <= i < |s| ==> s[i] == s[1..][i - 1];
      if s[0].expiry <= s[m].expiry then 0 else m
  }

  function Without(s: seq<Future>, k: nat): seq<Future>
    requires k < |s|
  {
    s[..k] + s[k + 1..]
  }

  function ArrivalStep(cap: nat, s: seq<Future>, op: Op): (seq<Future>, Answer) {
    match op
    case Push(f) => if |s| == cap then (s, Full) else (s + [f], Accepted)
    case Pop => if s == [] then (s, Empty) else (Without(s, Earliest(s)), Taken(s[Earliest(s)]))
  }

  /** What `push_future` and `pop_future` do to the contents of the ring. */
  function RingStep(cap: nat, s: seq<Future>, op: Op): (seq<Future>, Answer) {
    match op
    case Push(f) => if |s| == cap then (s, Full) else (Insert(s, f), Accepted)
    case Pop => if s == [] then (s, Empty) else (s[1..], Taken(s[0]))
  }

  function ArrivalRun(cap: nat, s: seq<Future>, ops: seq<Op>): (seq<Future>, seq<Answer>)
    decreases ops
  {
    if ops == [] then (s, [])
    else
      var (s1, a) := ArrivalStep(cap, s, ops[0]);
      var (s2, rest) := ArrivalRun(cap, s1, ops[1..]);
      (s2, [a] + rest)
  }

  function RingRun(cap: nat, s: seq<Future>, ops: seq<Op>): (seq<Future>, seq<Answer>)
    decreases ops
  {
    if ops == [] then (s, [])
    else
      var (s1, a) := RingStep(cap, s, ops[0]);
      var (s2, rest) := RingRun(cap, s1, ops[1..]);
      (s2, [a] + rest)
  }

  /** Removing the earliest, oldest future takes the head off its class and leaves the other classes alone. */
  lemma ClassWithoutEarliest(s: seq<Future>, e: u64)
    requires s != []
    ensures var k := Earliest(s);
      Class(s, e) == if e == s[k].expiry then [s[k]] + Class(Without(s, k), e) else Class(Without(s, k), e)
  {
    var k := Earliest(s);
    assert s == s[..k] + ([s[k]] + s[k + 1..]);
    ClassAppend(s[..k], [s[k]] + s[k + 1..], e);
    ClassAppend(s[..k], s[k + 1..], e);
    assert ([s[k]] + s[k + 1..])[1..] == s[k + 1..];
    if e == s[k].expiry {
      ClassEmpty(s[..k], e);
    }
  }

  lemma SortedHeadExpiry(s: seq<Future>)
    requires s != []
    ensures StableSort(s)[0].expiry == s[Earliest(s)].expiry
  {
    var f, t := s[Earliest(s)], StableSort(s);
    StableSortSorted(s);
    StableSortPermutes(s);
    assert t[0] in multiset(s) && f in multiset(t);
    assert t[0] in s && f in t;
  }

  /** Taking the head of the sorted contents is taking the earliest, oldest arrival. */
  lemma HeadIsEarliest(s: seq<Future>)
    requires s != []
    ensures StableSort(s)[0] == s[Earliest(s)]
    ensures StableSort(s)[1..] == StableSort(Without(s, Earliest(s)))
  {
    var k := Earliest(s);
    var rest, t := Without(s, k), StableSort(s);
    SortedHeadExpiry(s);
    StableSortStable(s, s[k].expiry);
    ClassWithoutEarliest(s, s[k].expiry);
    assert Class(t, s[k].expiry)[0] == t[0];
    forall e: u64
      ensures Class(t[1..], e) == Class(StableSort(rest), e)
    {
      StableSortStable(s, e);
      StableSortStable(rest, e);
      ClassWithoutEarliest(s, e);
      if e == s[k].expiry {
        assert Class(t, e)[1..] == Class(t[1..], e);
      }
    }
    StableSortSorted(s);
    StableSortSorted(rest);
    SortedUnique(t[1..], StableSort(rest));
  }

  /**
   For every capacity and every sequence of pushes and pops, the ring answers exactly as the arrival
   queue does, and its contents remain the stable sort of what the arrival queue holds.
   */
  lemma {:induction false} RingRefinesArrivalQueue(cap: nat, s: seq<Future>, ops: seq<Op>)
    ensures RingRun(cap, StableSort(s), ops).1 == ArrivalRun(cap, s, ops).1
    ensures RingRun(cap, StableSort(s), ops).0 == StableSort(ArrivalRun(cap, s, ops).0)
    decreases ops
  {
    if ops != [] {
      match ops[0] {
        case Push(f) =>
          assert (s + [f])[..|s|] == s;
        case Pop =>
          if s != [] {
            HeadIsEarliest(s);
          }
      }
      RingRefinesArrivalQueue(cap, ArrivalStep(cap, s, ops[0]).0, ops[1..]);
    }
  }
}
