/** The ring buffer of futures (future_queue.c), for any capacity from 1 to 255. */
module FutureQueues {
  import opened Words
  import opened FutureSpec

  const FUTURE_Q_OK := 0
  const FUTURE_Q_FULL := 1
  const FUTURE_Q_EMPTY := 2

  /** Array index of the `i`-th element behind `first`. */
  function Slot(first: nat, i: nat, cap: nat): (k: nat)
    requires first < cap && i <= cap
    ensures k < cap
    ensures k == if first + i < cap then first + i else first + i - cap
  {
    WrapsOnce(first, i, cap);
    (first + i) % cap
  }

  lemma WrapsOnce(first: nat, i: nat, cap: nat)
    requires first < cap && i <= cap
    ensures (first + i) % cap == if first + i < cap then first + i else first + i - cap
  {
    if cap <= first + i {
      ModOnce(first + i, cap);
    }
  }

  lemma ModOnce(x: nat, n: nat)
    requires n <= x < 2 * n
    ensures x % n == x - n
  {
    assert x == 1 * n + (x - n);
  }

  /** The live elements of an array used as a ring. */
  function Window(a: seq<Future>, first: nat, len: nat): (w: seq<Future>)
    requires first < |a| && len <= |a|
    ensures |w| == len
  {
    seq(len, i requires 0 <= i < len => a[Slot(first, i, |a|)])
  }

  /** Exchanging two live neighbours in the array exchanges them in the window, and touches nothing else. */
  lemma SwapInWindow(a: seq<Future>, first: nat, len: nat, j: nat)
    requires first < |a| && len <= |a| && j + 1 < len
    ensures var x, y := Slot(first, j, |a|), Slot(first, j + 1, |a|);
      var w := Window(a, first, len);
      x != y && Window(a[y := a[x]][x := a[y]], first, len) == w[j := w[j + 1]][j + 1 := w[j]]
  {
    var x, y := Slot(first, j, |a|), Slot(first, j + 1, |a|);
    var b, w := a[y := a[x]][x := a[y]], Window(a, first, len);
    forall i | 0 <= i < len
      ensures Window(b, first, len)[i] == w[j := w[j + 1]][j + 1 := w[j]][i]
    {
      assert Slot(first, i, |a|) == x <==> i == j;
      assert Slot(first, i, |a|) == y <==> i == j + 1;
    }
  }

  /** Slot `k` belongs to the window. */
  predicate Live(first: nat, len: nat, cap: nat, k: nat) {
    if first <= k then k - first < len else k + cap - first < len
  }

  /** `b` differs from `a` in live slots only. */
  ghost predicate SameDeadSlots(a: seq<Future>, b: seq<Future>, first: nat, len: nat) {
    |a| == |b| && forall k :: 0 <= k < |a| && !Live(first, len, |a|, k) ==> a[k] == b[k]
  }

  function Compared(w: seq<Future>, j: nat): seq<Future>
    requires j + 1 < |w|
  {
    if w[j].expiry > w[j + 1].expiry then w[j := w[j + 1]][j + 1 := w[j]] else w
  }

  /** After `i` passes and `j` comparisons: the last `i` elements are in place, and the `j`-th is the latest so far. */
  ghost predicate BubbleState(was: seq<Future>, w: seq<Future>, i: nat, j: nat) {
    && |w| == |was|
    && StableSort(w) == StableSort(was)
    && (forall p, q :: 0 <= p < q < |w| && |w| - i <= q ==> w[p].expiry <= w[q].expiry)
    && (forall p :: 0 <= p < j < |w| ==> w[p].expiry <= w[j].expiry)
  }

  lemma BubbleAdvances(was: seq<Future>, w: seq<Future>, i: nat, j: nat)
    requires BubbleState(was, w, i, j) && i + j + 1 < |w|
    ensures BubbleState(was, Compared(w, j), i, j + 1)
  {
    if w[j].expiry > w[j + 1].expiry {
      SwapKeepsStableSort(w, j);
    }
  }

  lemma BubblePassDone(was: seq<Future>, w: seq<Future>, i: nat)
    requires i < |w| && BubbleState(was, w, i, |w| - i - 1)
    ensures BubbleState(was, w, i + 1, 0)
  {
  }

  lemma BubbleDone(was: seq<Future>, w: seq<Future>, i: nat)
    requires BubbleState(was, w, i, 0) && |w| <= i + 1
    ensures w == StableSort(was)
  {
    assert Sorted(w);
    SortedFixed(w);
  }

  class FutureQueue {
    const at: array<Future>
    var first: u8
    var length: u8

    ghost predicate Valid()
      reads this
    {
      1 <= at.Length <= 255 && first < at.Length && length <= at.Length
    }

    ghost function Contents(): seq<Future>
      requires Valid()
      reads this, at
    {
      Window(at[..], first, length)
    }

    /** A queue over memory whose contents are not yet meaningful (init_future_queue). */
    constructor (memory: array<Future>)
      requires 1 <= memory.Length <= 255
      ensures Valid() && at == memory && Contents() == []
    {
      at := memory;
      first := 0;
      length := 0;
    }

    method IsEmpty() returns (r: bool)
      requires Valid()
      ensures r <==> Contents() == []
    {
      r := length == 0;
    }

    /** One comparison of the bubble sort: neighbours that are strictly out of order change places. */
    method SwapIfLater(j: nat)
      requires Valid() && j + 1 < length
      modifies at
      ensures Contents() == Compared(old(Contents()), j)
      ensures SameDeadSlots(old(at[..]), at[..], first, length)
    {
      ghost var a, w := at[..], Contents();
      var jx := Slot(first, j, at.Length);
      var jxp := Slot(first, j + 1, at.Length);
      SwapInWindow(a, first, length, j);
      assert w[j] == a[jx] && w[j + 1] == a[jxp];
      if at[jx].expiry > at[jxp].expiry {
        var tmp := at[jxp];
        at[jxp] := at[jx];
        at[jx] := tmp;
        assert at[..] == a[jxp := a[jx]][jx := a[jxp]];
      }
    }

    /** The inner loop of the bubble sort. */
    method BubblePass(i: nat, ghost was: seq<Future>)
      requires Valid() && i + 1 < length && BubbleState(was, Contents(), i, 0)
      modifies at
      ensures BubbleState(was, Contents(), i + 1, 0)
      ensures SameDeadSlots(old(at[..]), at[..], first, length)
    {
      hide BubbleState, StableSort, Compared;
      ghost var w := Contents();
      var j := 0;
      while j < length as int - i - 1
        invariant 0 <= j < length - i
        invariant Contents() == w && BubbleState(was, w, i, j)
        invariant SameDeadSlots(old(at[..]), at[..], first, length)
      {
        BubbleAdvances(was, w, i, j);
        SwapIfLater(j);
        w := Compared(w, j);
        j := j + 1;
      }
      BubblePassDone(was, w, i);
    }

    /** Bubble sort over the live part of the ring; slots outside it keep their contents. */
    method Sort()
      requires Valid()
      modifies at
      ensures Valid() && Contents() == StableSort(old(Contents()))
      ensures SameDeadSlots(old(at[..]), at[..], first, length)
    {
      ghost var was := Contents();
      var i := 0;
      while i < length as int - 1
        invariant 0 <= i && (length > 0 ==> i < length)
        invariant BubbleState(was, Contents(), i, 0)
        invariant SameDeadSlots(old(at[..]), at[..], first, length)
      {
        BubblePass(i, was);
        i := i + 1;
      }
      BubbleDone(was, Contents(), i);
    }

    /** Schedules a jump; `now` is the reading of the clock at this call. */
    method Push(jmp: u32, waitUs: u64, now: u64) returns (r: int)
      requires Valid() && Sorted(Contents())
      modifies this, at
      ensures Valid() && Sorted(Contents())
      ensures r == if |old(Contents())| == at.Length then FUTURE_Q_FULL else FUTURE_Q_OK
      ensures Contents() == if r == FUTURE_Q_FULL then old(Contents())
                            else Insert(old(Contents()), Future(jmp, Wrap32(waitUs), Wrap64(now + waitUs)))
      ensures first == old(first) && (r == FUTURE_Q_FULL ==> at[..] == old(at[..]))
    {
      if length as int == at.Length {
        return FUTURE_Q_FULL;
      }
      ghost var was := Contents();
      var f := Future(jmp, Wrap32(waitUs), Wrap64(now + waitUs));
      var index := Slot(first, length, at.Length);
      at[index] := f;
      length := length + 1;
      assert Contents() == was + [f];
      Sort();
      PushInserts(was, f);
      InsertSorted(was, f);
      r := FUTURE_Q_OK;
    }

    /** Removes the head; the out-parameter is assigned only on success. */
    method Pop() returns (r: int, el: Option<Future>)
      requires Valid()
      modifies this
      ensures Valid() && at[..] == old(at[..])
      ensures r == if old(Contents()) == [] then FUTURE_Q_EMPTY else FUTURE_Q_OK
      ensures r == FUTURE_Q_EMPTY ==> el == None && Contents() == old(Contents())
      ensures r == FUTURE_Q_OK ==> el == Some(old(Contents())[0]) && Contents() == old(Contents())[1..]
    {
      if length == 0 {
        return FUTURE_Q_EMPTY, None;
      }
      ghost var was := Contents();
      el := Some(at[first]);
      first := Slot(first, 1, at.Length);
      length := length - 1;
      r := FUTURE_Q_OK;
      assert Contents() == was[1..];
    }

    /** Address of the head; on an empty queue this is whatever the slot at `first` holds. */
    method Peek() returns (el: Future)
      requires Valid()
      ensures Contents() != [] ==> el == Contents()[0]
    {
      el := at[first];
    }
  }
}
