/**
 Which future the builder takes at HALT (ncm_visualizer/parse.py:89-94): it sorts its queue by delay each
 time and pops the last one.  That is a queue in arrival order, searched for the largest delay.
 */
module TreeFutures {
  import opened Words
  import opened Machine
  import opened TreeBuilding

  function Delay(p: seq<Instr>, f: nat): u32
    requires f < |p|
  {
    p[f].args[0]
  }

  ghost predicate Indices(p: seq<Instr>, q: seq<nat>) {
    forall k :: 0 <= k < |q| ==> q[k] < |p|
  }

  ghost predicate Ascending(p: seq<Instr>, q: seq<nat>)
    requires Indices(p, q)
  {
    forall i, j :: 0 <= i < j < |q| ==> Delay(p, q[i]) <= Delay(p, q[j])
  }

  /** The futures of one delay, in the order of the queue. */
  function OfDelay(p: seq<Instr>, q: seq<nat>, d: u32): (r: seq<nat>)
    requires Indices(p, q)
    ensures forall k :: 0 <= k < |r| ==> r[k] in q && Delay(p, r[k]) == d
  {
    if q == [] then [] else (if Delay(p, q[0]) == d then [q[0]] else []) + OfDelay(p, q[1..], d)
  }

  /** The two queues hold the same futures, those of one delay in the same order. */
  ghost predicate SameWaiting(p: seq<Instr>, q: seq<nat>, w: seq<nat>) {
    Indices(p, q) && Indices(p, w) && forall d: u32 :: OfDelay(p, q, d) == OfDelay(p, w, d)
  }

  /** No future in the queue has a larger delay, and no later one the same. */
  ghost predicate Latest(p: seq<Instr>, q: seq<nat>, k: nat) {
    && Indices(p, q) && k < |q|
    && (forall j :: 0 <= j < |q| ==> Delay(p, q[j]) <= Delay(p, q[k]))
    && (forall j :: k < j < |q| ==> Delay(p, q[j]) < Delay(p, q[k]))
  }

  function Removed(q: seq<nat>, k: nat): seq<nat>
    requires k < |q|
  {
    q[..k] + q[k + 1..]
  }

  // ----- sorting -----

  lemma {:induction false} OfDelayAppend(p: seq<Instr>, a: seq<nat>, b: seq<nat>, d: u32)
    requires Indices(p, a) && Indices(p, b)
    ensures Indices(p, a + b) && OfDelay(p, a + b, d) == OfDelay(p, a, d) + OfDelay(p, b, d)
  {
    if a == [] {
      assert a + b == b;
    } else {
      assert (a + b)[1..] == a[1..] + b;
      OfDelayAppend(p, a[1..], b, d);
    }
  }

  lemma OfDelayOne(p: seq<Instr>, f: nat, d: u32)
    requires f < |p|
    ensures OfDelay(p, [f], d) == if Delay(p, f) == d then [f] else []
  {
    assert [f][1..] == [];
  }

  lemma {:induction false} NoneOfDelay(p: seq<Instr>, q: seq<nat>, d: u32)
    requires Indices(p, q) && forall k :: 0 <= k < |q| ==> Delay(p, q[k]) != d
    ensures OfDelay(p, q, d) == []
  {
    if q != [] {
      NoneOfDelay(p, q[1..], d);
    }
  }

  /** Placing puts a future behind those of equal or smaller delay and in front of those of larger delay. */
  lemma {:induction false} Places(p: seq<Instr>, q: seq<nat>, f: nat) returns (k: nat)
    requires f < |p| && Indices(p, q) && Ascending(p, q)
    ensures k <= |q| && PlaceByDelay(p, q, f) == q[..k] + [f] + q[k..]
    ensures forall j :: 0 <= j < k ==> Delay(p, q[j]) <= Delay(p, f)
    ensures forall j :: k <= j < |q| ==> Delay(p, f) < Delay(p, q[j])
  {
    hide Ascending;
    if q == [] || p[f].args[0] < p[q[0]].args[0] {
      k := 0;
      assert q[..0] == [] && q[0..] == q && [] + [f] + q == [f] + q;
      if q != [] {
        TailAscending(p, q, f);
      }
    } else {
      var rest := q[1..];
      assert forall j :: 1 <= j < |q| ==> q[j] == rest[j - 1];
      TailAscending(p, q, f);
      var m := Places(p, rest, f);
      k := m + 1;
      TailPlaces(q, m, f);
    }
  }

  lemma TailAscending(p: seq<Instr>, q: seq<nat>, f: nat)
    requires q != [] && Indices(p, q) && Ascending(p, q)
    ensures Indices(p, q[1..]) && Ascending(p, q[1..])
    ensures f < |p| && Delay(p, f) < Delay(p, q[0]) ==> forall j :: 0 <= j < |q| ==> Delay(p, f) < Delay(p, q[j])
  {
  }

  lemma TailPlaces(q: seq<nat>, m: nat, f: nat)
    requires m < |q|
    ensures [q[0]] + (q[1..][..m] + [f] + q[1..][m..]) == q[..m + 1] + [f] + q[m + 1..]
  {
  }

  lemma PlaceSorts(p: seq<Instr>, q: seq<nat>, f: nat, d: u32)
    requires f < |p| && Indices(p, q) && Ascending(p, q)
    ensures var r := PlaceByDelay(p, q, f);
      && Indices(p, r) && Ascending(p, r) && multiset(r) == multiset(q + [f])
      && OfDelay(p, r, d) == OfDelay(p, q + [f], d)
  {
    hide PlaceByDelay, OfDelay, Ascending;
    var k := Places(p, q, f);
    var a, b := q[..k], q[k..];
    assert q == a + b;
    AscendingBetween(p, q, k, f);
    assert multiset(a + [f] + b) == multiset(a + b + [f]);
    OfDelayAppend(p, a, b, d);
    OfDelayAppend(p, q, [f], d);
    OfDelayAppend(p, a, [f], d);
    OfDelayAppend(p, a + [f], b, d);
    OfDelayOne(p, f, d);
    if Delay(p, f) == d {
      NoneOfDelay(p, b, d);
    }
    Commute(OfDelay(p, a, d), OfDelay(p, [f], d), OfDelay(p, b, d));
  }

  lemma AscendingBetween(p: seq<Instr>, q: seq<nat>, k: nat, f: nat)
    requires f < |p| && Indices(p, q) && Ascending(p, q) && k <= |q|
    requires forall j :: 0 <= j < k ==> Delay(p, q[j]) <= Delay(p, f)
    requires forall j :: k <= j < |q| ==> Delay(p, f) < Delay(p, q[j])
    ensures Indices(p, q[..k] + [f] + q[k..]) && Ascending(p, q[..k] + [f] + q[k..])
  {
    var r := q[..k] + [f] + q[k..];
    assert forall j :: 0 <= j < |r| ==> r[j] == if j < k then q[j] else if j == k then f else q[j - 1];
    forall i, j | 0 <= i < j < |r|
      ensures Delay(p, r[i]) <= Delay(p, r[j])
    {
      assert r[i] == if i < k then q[i] else if i == k then f else q[i - 1];
      assert r[j] == if j < k then q[j] else if j == k then f else q[j - 1];
    }
  }

  lemma Commute(a: seq<nat>, m: seq<nat>, b: seq<nat>)
    requires m == [] || b == []
    ensures a + m + b == a + b + m
  {
  }

  /** Sorting by delay: ascending, the same futures, and those of one delay stay in order. */
  lemma {:induction false} SortedByDelaySorts(p: seq<Instr>, q: seq<nat>, d: u32)
    requires Indices(p, q)
    ensures var r := SortedByDelay(p, q);
      && Indices(p, r) && Ascending(p, r) && multiset(r) == multiset(q)
      && OfDelay(p, r, d) == OfDelay(p, q, d)
    decreases q
  {
    hide PlaceByDelay, OfDelay, Ascending;
    if q == [] {
      NothingSorted(p);
    } else {
      var front, f := q[..|q| - 1], q[|q| - 1];
      assert q == front + [f];
      SortedByDelaySorts(p, front, d);
      var r := SortedByDelay(p, front);
      PlaceSorts(p, r, f, d);
      OfDelayAppend(p, r, [f], d);
      OfDelayAppend(p, front, [f], d);
    }
  }

  lemma NothingSorted(p: seq<Instr>)
    ensures SortedByDelay(p, []) == [] && Ascending(p, [])
  {
  }

  // ----- the future taken -----

  /** The last future of the largest delay, and what the queue holds without it. */
  lemma LatestOfDelay(p: seq<Instr>, q: seq<nat>, k: nat, d: u32)
    requires Latest(p, q, k)
    ensures var top := Delay(p, q[k]);
      && Indices(p, Removed(q, k))
      && (d > top ==> OfDelay(p, q, d) == [])
      && OfDelay(p, q, d) == OfDelay(p, Removed(q, k), d) + if d == top then [q[k]] else []
  {
    hide OfDelay, Latest, Delay, Indices;
    LatestParts(p, q, k);
    var a, f, b := q[..k], q[k], q[k + 1..];
    assert q == a + ([f] + b);
    OfDelayAppend(p, [f], b, d);
    OfDelayAppend(p, a, [f] + b, d);
    OfDelayAppend(p, a, b, d);
    OfDelayOne(p, f, d);
    if d >= Delay(p, f) {
      NoneOfDelay(p, b, d);
    }
    if d > Delay(p, f) {
      NoneOfDelay(p, a, d);
    }
    Between(OfDelay(p, a, d), OfDelay(p, [f], d), OfDelay(p, b, d));
  }

  lemma Between(a: seq<nat>, m: seq<nat>, b: seq<nat>)
    requires m == [] || b == []
    ensures a + (m + b) == a + b + m
  {
  }

  /** The futures in front of the latest one, and those behind it. */
  lemma LatestParts(p: seq<Instr>, q: seq<nat>, k: nat)
    requires Latest(p, q, k)
    ensures k < |q| && q[k] < |p| && Indices(p, q[..k]) && Indices(p, q[k + 1..]) && Indices(p, [q[k]])
    ensures forall j :: 0 <= j < k ==> Delay(p, q[..k][j]) <= Delay(p, q[k])
    ensures var b := q[k + 1..]; forall j :: 0 <= j < |b| ==> Delay(p, b[j]) < Delay(p, q[k])
  {
    var b := q[k + 1..];
    assert forall j :: 0 <= j < |b| ==> b[j] == q[j + k + 1];
  }

  /** Queues with the same futures have the same latest one, and keep the same ones without it. */
  lemma SameLatest(p: seq<Instr>, q: seq<nat>, j: nat, w: seq<nat>, k: nat)
    requires SameWaiting(p, q, w) && Latest(p, q, j) && Latest(p, w, k)
    ensures q[j] == w[k] && SameWaiting(p, Removed(q, j), Removed(w, k))
  {
    hide OfDelay, Latest, Removed;
    LatestFits(p, q, j);
    LatestFits(p, w, k);
    var d, e := Delay(p, q[j]), Delay(p, w[k]);
    LatestOfDelay(p, q, j, d);
    LatestOfDelay(p, q, j, e);
    LatestOfDelay(p, w, k, d);
    LatestOfDelay(p, w, k, e);
    LastOf(OfDelay(p, Removed(q, j), d), q[j], OfDelay(p, Removed(w, k), d), w[k]);
    forall x: u32
      ensures OfDelay(p, Removed(q, j), x) == OfDelay(p, Removed(w, k), x)
    {
      LatestOfDelay(p, q, j, x);
      LatestOfDelay(p, w, k, x);
      LastOf(OfDelay(p, Removed(q, j), x), q[j], OfDelay(p, Removed(w, k), x), w[k]);
      Padded(OfDelay(p, Removed(q, j), x));
      Padded(OfDelay(p, Removed(w, k), x));
    }
  }

  lemma LatestFits(p: seq<Instr>, q: seq<nat>, k: nat)
    requires Latest(p, q, k)
    ensures k < |q| && q[k] < |p| && Indices(p, q)
  {
  }

  lemma Padded(a: seq<nat>)
    ensures a + [] == a
  {
  }

  lemma LastOf(a: seq<nat>, x: nat, b: seq<nat>, y: nat)
    ensures a + [x] == b + [y] <==> a == b && x == y
  {
    assert (a + [x])[..|a|] == a && (a + [x])[|a|] == x;
    assert (b + [y])[..|b|] == b && (b + [y])[|b|] == y;
  }

  lemma SameWaitingAppend(p: seq<Instr>, q: seq<nat>, w: seq<nat>, f: nat)
    requires SameWaiting(p, q, w) && f < |p|
    ensures SameWaiting(p, q + [f], w + [f])
  {
    hide OfDelay;
    forall d: u32
      ensures OfDelay(p, q + [f], d) == OfDelay(p, w + [f], d)
    {
      OfDelayAppend(p, q, [f], d);
      OfDelayAppend(p, w, [f], d);
    }
  }

  lemma SortSameWaiting(p: seq<Instr>, q: seq<nat>)
    requires Indices(p, q)
    ensures SameWaiting(p, SortedByDelay(p, q), q)
  {
    hide OfDelay, SortedByDelay;
    forall d: u32
      ensures Indices(p, SortedByDelay(p, q)) && OfDelay(p, SortedByDelay(p, q), d) == OfDelay(p, q, d)
    {
      SortedByDelaySorts(p, q, d);
    }
    assert OfDelay(p, SortedByDelay(p, q), 0) == OfDelay(p, q, 0);
  }

  /** The last one of the sorted queue is the latest one. */
  lemma LastIsLatest(p: seq<Instr>, r: seq<nat>)
    requires r != [] && Indices(p, r) && Ascending(p, r)
    ensures Latest(p, r, |r| - 1) && Removed(r, |r| - 1) == r[..|r| - 1]
  {
  }

  // ----- a builder that searches -----

  /** The place of the latest future. */
  function Longest(p: seq<Instr>, w: seq<nat>): (k: nat)
    requires w != [] && Indices(p, w)
    ensures Latest(p, w, k)
  {
    if |w| == 1 then 0
    else
      var k := Longest(p, w[1..]);
      assert forall j :: 1 <= j < |w| ==> w[j] == w[1..][j - 1];
      if Delay(p, w[0]) > Delay(p, w[k + 1]) then 0 else k + 1
  }

  function SearchSuccessor(p: seq<Instr>, i: nat, n: nat, time: int, s: Book): (r: (Option<seq<Tree>>, Book))
    requires i < |p| && BookValid(p, s)
    ensures BookValid(p, r.1)
    decreases |p| - i, 0
  {
    if n <= i then (Some([Loop]), s)
    else if n < |p| then
      var (t, s1) := Search(p, n, time + MEAN, s);
      (if t.Some? then Some([t.value]) else None, s1)
    else (Some([]), s)
  }

  /** The builder with a queue in arrival order that is never sorted: HALT searches it. */
  function Search(p: seq<Instr>, i: nat, time: int, s: Book): (r: (Option<Tree>, Book))
    requires i < |p| && BookValid(p, s)
    ensures BookValid(p, r.1)
    decreases |p| - i, 1
  {
    var instr := p[i];
    if instr.typ !in TIMED then (None, s)
    else if instr.typ == IF then
      var (first, s1) := SearchSuccessor(p, i, i + 1, time, s);
      if first == None then (None, s1)
      else
        var (second, s2) := SearchSuccessor(p, i, instr.args[1], time, s1);
        (if second == None then None else Some(Node(i, first.value + second.value)), s2)
    else if instr.typ == HALT then
      if s.queue == [] then (None, s)
      else
        var k := Longest(p, s.queue);
        var f := s.queue[k];
        var (next, s1) := SearchSuccessor(p, i, p[f].args[1], time, s.(queue := Removed(s.queue, k)));
        (if next == None then None else Some(Node(i, [Pause(s.scheduled[f] - time, next.value)])), s1)
    else
      var s0 := if instr.typ == FUTURE then Book(s.queue + [i], s.scheduled[i := time + Delay(p, i)]) else s;
      var (next, s1) := SearchSuccessor(p, i, i + 1, time, s0);
      (if next == None then None else Some(Node(i, next.value)), s1)
  }

  ghost predicate SameBook(p: seq<Instr>, b: Book, s: Book) {
    BookValid(p, b) && BookValid(p, s) && b.scheduled == s.scheduled && SameWaiting(p, b.queue, s.queue)
  }

  lemma SameEmpty(p: seq<Instr>, q: seq<nat>, w: seq<nat>)
    requires SameWaiting(p, q, w)
    ensures q == [] <==> w == []
  {
    if q != [] {
      assert OfDelay(p, q, Delay(p, q[0])) != [];
    }
    if w != [] {
      assert OfDelay(p, w, Delay(p, w[0])) != [];
    }
  }

  /** At HALT: sorting and popping the last one takes what searching finds. */
  lemma HaltTakesSame(p: seq<Instr>, b: Book, s: Book)
    requires SameBook(p, b, s)
    ensures SortedByDelay(p, b.queue) == [] <==> s.queue == []
    ensures s.queue != [] ==>
      var r, k := SortedByDelay(p, b.queue), Longest(p, s.queue);
      && r[|r| - 1] == s.queue[k] && r[|r| - 1] in b.queue
      && SameBook(p, b.(queue := r[..|r| - 1]), s.(queue := Removed(s.queue, k)))
  {
    hide SortedByDelay, Longest, OfDelay, Ascending, Latest;
    SameEmpty(p, b.queue, s.queue);
    if s.queue != [] {
      var r, k := SortedByDelay(p, b.queue), Longest(p, s.queue);
      SortedByDelaySorts(p, b.queue, 0);
      SortSameWaiting(p, b.queue);
      LastIsLatest(p, r);
      SameLatest(p, r, |r| - 1, s.queue, k);
      BooksFit(p, b, s);
      FrontValid(p, b, r);
      LatestFits(p, s.queue, k);
      RemovedValid(p, s, k);
    }
  }

  lemma RemovedValid(p: seq<Instr>, s: Book, k: nat)
    requires BookValid(p, s) && k < |s.queue|
    ensures BookValid(p, s.(queue := Removed(s.queue, k)))
  {
  }

  lemma FrontValid(p: seq<Instr>, b: Book, r: seq<nat>)
    requires BookValid(p, b) && r != [] && forall k :: 0 <= k < |r| ==> r[k] in b.queue
    ensures BookValid(p, b.(queue := r[..|r| - 1]))
  {
  }

  lemma {:induction false} SuccessorRefinesSearch(p: seq<Instr>, i: nat, n: nat, time: int, b: Book, s: Book)
    requires i < |p| && SameBook(p, b, s)
    ensures var r, x := Successor(p, i, n, time, b), SearchSuccessor(p, i, n, time, s);
      r.0 == x.0 && SameBook(p, r.1, x.1)
    decreases |p| - i, 0
  {
    hide SameBook, Build, Search;
    if i < n < |p| {
      BuildRefinesSearch(p, n, time + MEAN, b, s);
    }
  }

  /**
   The builder, which sorts its queue at every HALT, gives the tree of one that keeps the queue in arrival
   order and searches it for the largest delay, the latest among equal ones.
   */
  lemma {:induction false} BuildRefinesSearch(p: seq<Instr>, i: nat, time: int, b: Book, s: Book)
    requires i < |p| && SameBook(p, b, s)
    ensures var r, x := Build(p, i, time, b), Search(p, i, time, s);
      r.0 == x.0 && SameBook(p, r.1, x.1)
    decreases |p| - i, 1
  {
    hide Successor, SearchSuccessor, SameBook, SortedByDelay, Longest, BookValid;
    BooksFit(p, b, s);
    var instr := p[i];
    if instr.typ == IF {
      SuccessorRefinesSearch(p, i, i + 1, time, b, s);
      SuccessorRefinesSearch(p, i, instr.args[1], time, Successor(p, i, i + 1, time, b).1,
                             SearchSuccessor(p, i, i + 1, time, s).1);
    } else if instr.typ == FUTURE {
      SameScheduled(p, i, time, b, s);
      SuccessorRefinesSearch(p, i, i + 1, time, Book(b.queue + [i], b.scheduled[i := time + instr.args[0]]),
                             Book(s.queue + [i], s.scheduled[i := time + instr.args[0]]));
    } else if instr.typ == HALT {
      HaltTakesSame(p, b, s);
      if s.queue != [] {
        var r, k := SortedByDelay(p, b.queue), Longest(p, s.queue);
        SuccessorRefinesSearch(p, i, p[s.queue[k]].args[1], time, b.(queue := r[..|r| - 1]),
                               s.(queue := Removed(s.queue, k)));
      }
    } else {
      SuccessorRefinesSearch(p, i, i + 1, time, b, s);
    }
  }

  lemma BooksFit(p: seq<Instr>, b: Book, s: Book)
    requires SameBook(p, b, s)
    ensures BookValid(p, b) && BookValid(p, s) && b.scheduled == s.scheduled
    ensures forall k :: 0 <= k < |b.queue| ==> b.queue[k] < |p| && b.queue[k] in b.scheduled
    ensures forall k :: 0 <= k < |s.queue| ==> s.queue[k] < |p| && s.queue[k] in s.scheduled
  {
  }

  lemma SameScheduled(p: seq<Instr>, i: nat, time: int, b: Book, s: Book)
    requires i < |p| && SameBook(p, b, s)
    ensures SameBook(p, Book(b.queue + [i], b.scheduled[i := time + p[i].args[0]]),
                     Book(s.queue + [i], s.scheduled[i := time + p[i].args[0]]))
  {
    hide OfDelay;
    SameWaitingAppend(p, b.queue, s.queue, i);
  }

  lemma SameSelf(p: seq<Instr>, b: Book)
    requires BookValid(p, b)
    ensures SameBook(p, b, b)
  {
  }

  // ----- what HALT does -----

  /** The children for a successor `n` of instruction `i`, and the state after them. */
  ghost predicate Continues(p: seq<Instr>, i: nat, n: nat, time: int, b: Book, children: seq<Tree>, b1: Book)
    requires i < |p| && BookValid(p, b)
  {
    if n <= i then children == [Loop] && b1 == b
    else if n < |p| then
      var (t, b2) := Build(p, n, time + 200, b); t.Some? && children == [t.value] && b1 == b2
    else children == [] && b1 == b
  }

  lemma SuccessorContinues(p: seq<Instr>, i: nat, n: nat, time: int, b: Book)
    requires i < |p| && BookValid(p, b)
    ensures var (r, b1) := Successor(p, i, n, time, b); r.Some? ==> Continues(p, i, n, time, b, r.value, b1)
  {
    hide Build;
  }

  /**
   At HALT the builder takes a future of the queue such that none has a larger delay and no later one the
   same.  Exactly this one leaves the queue, the pause lasts from now to the time it was scheduled for, and
   the tree goes on at its target.
   */
  lemma HaltTakesLongest(p: seq<Instr>, i: nat, time: int, b: Book) returns (k: nat, rest: seq<nat>, next: seq<Tree>)
    requires i < |p| && p[i].typ == HALT && BookValid(p, b) && Build(p, i, time, b).0.Some?
    ensures k < |b.queue| && b.queue[k] < |p|
    ensures forall j :: 0 <= j < |b.queue| ==> b.queue[j] < |p| && p[b.queue[j]].args[0] <= p[b.queue[k]].args[0]
    ensures forall j :: k < j < |b.queue| ==> p[b.queue[j]].args[0] < p[b.queue[k]].args[0]
    ensures multiset(rest) + multiset{b.queue[k]} == multiset(b.queue)
    ensures SameWaiting(p, rest, b.queue[..k] + b.queue[k + 1..])
    ensures BookValid(p, b.(queue := rest))
    ensures Build(p, i, time, b).0.value == Node(i, [Pause(b.scheduled[b.queue[k]] - time, next)])
    ensures Continues(p, i, p[b.queue[k]].args[1], time, b.(queue := rest), next, Build(p, i, time, b).1)
  {
    hide SortedByDelay, Longest, OfDelay, Ascending, Continues, Successor, Latest, SameWaiting;
    k, rest := LatestLeaves(p, b);
    var (r, b1) := Successor(p, i, p[b.queue[k]].args[1], time, b.(queue := rest));
    SuccessorContinues(p, i, p[b.queue[k]].args[1], time, b.(queue := rest));
    next := r.value;
  }

  /** Sorting the queue and popping the last one takes out the latest one. */
  lemma LatestLeaves(p: seq<Instr>, b: Book) returns (k: nat, rest: seq<nat>)
    requires BookValid(p, b) && SortedByDelay(p, b.queue) != []
    ensures k < |b.queue| && SortedByDelay(p, b.queue) == rest + [b.queue[k]]
    ensures var q := SortedByDelay(p, b.queue); q[..|q| - 1] == rest && q[|q| - 1] == b.queue[k]
    ensures forall j :: 0 <= j < |b.queue| ==> b.queue[j] < |p| && p[b.queue[j]].args[0] <= p[b.queue[k]].args[0]
    ensures forall j :: k < j < |b.queue| ==> p[b.queue[j]].args[0] < p[b.queue[k]].args[0]
    ensures multiset(rest) + multiset{b.queue[k]} == multiset(b.queue)
    ensures SameWaiting(p, rest, b.queue[..k] + b.queue[k + 1..]) && BookValid(p, b.(queue := rest))
  {
    hide SortedByDelay, Longest, OfDelay, Ascending;
    var q := SortedByDelay(p, b.queue);
    SameSelf(p, b);
    HaltTakesSame(p, b, b);
    SortedByDelaySorts(p, b.queue, 0);
    k := Longest(p, b.queue);
    rest := q[..|q| - 1];
    assert q == rest + [q[|q| - 1]];
  }

  /** FUTURE puts itself at the end of the queue, scheduled for its delay from now, and goes on behind itself. */
  lemma FutureSchedules(p: seq<Instr>, i: nat, time: int, b: Book) returns (next: seq<Tree>)
    requires i < |p| && p[i].typ == FUTURE && BookValid(p, b) && Build(p, i, time, b).0.Some?
    ensures var b0 := Book(b.queue + [i], b.scheduled[i := time + p[i].args[0]]);
      && BookValid(p, b0)
      && Build(p, i, time, b).0.value == Node(i, next)
      && Continues(p, i, i + 1, time, b0, next, Build(p, i, time, b).1)
  {
    hide Continues, Successor;
    var b0 := Book(b.queue + [i], b.scheduled[i := time + p[i].args[0]]);
    SuccessorContinues(p, i, i + 1, time, b0);
    next := Successor(p, i, i + 1, time, b0).0.value;
  }

  /** The children of IF are those of the next instruction and then, with the queue left by them, of its target. */
  lemma IfBranches(p: seq<Instr>, i: nat, time: int, b: Book) returns (first: seq<Tree>, b1: Book, second: seq<Tree>)
    requires i < |p| && p[i].typ == IF && BookValid(p, b) && Build(p, i, time, b).0.Some?
    ensures Build(p, i, time, b).0.value == Node(i, first + second)
    ensures BookValid(p, b1) && Continues(p, i, i + 1, time, b, first, b1)
    ensures Continues(p, i, p[i].args[1], time, b1, second, Build(p, i, time, b).1)
  {
    hide Continues, Successor;
    SuccessorContinues(p, i, i + 1, time, b);
    first, b1 := Successor(p, i, i + 1, time, b).0.value, Successor(p, i, i + 1, time, b).1;
    SuccessorContinues(p, i, p[i].args[1], time, b1);
    second := Successor(p, i, p[i].args[1], time, b1).0.value;
  }

  /** The builder raises an exception on types without a length, and at HALT when no future is pending. */
  lemma Exceptions(p: seq<Instr>, i: nat, time: int, b: Book)
    requires i < |p| && BookValid(p, b)
    requires p[i].typ in {10, 11, 12, 13, 14, 16, 19} || p[i].typ > 20 || (p[i].typ == 1 && b.queue == [])
    ensures Build(p, i, time, b) == (None, b)
  {
    hide Successor;
    assert SortedByDelay(p, []) == [];
  }

  /** Any other type gives a node, unless an instruction further on raises an exception. */
  lemma NoException(p: seq<Instr>, i: nat, time: int, b: Book)
    requires i < |p| && BookValid(p, b) && p[i].typ in {3, 4, 5, 6, 7, 8, 9, 15, 17, 18, 20}
    ensures var (next, b1) := Successor(p, i, i + 1, time, b);
      Build(p, i, time, b) == (if next == None then None else Some(Node(i, next.value)), b1)
  {
    hide Successor;
  }
}
