/** How long the pauses of the execution tree are (ncm_visualizer/parse.py:88-119). */
module TreePauses {
  import opened Words
  import opened Machine
  import opened TreeBuilding
  import opened TreeFutures
  import opened TreeTraces

  /** The pause behind each instruction along the first children. */
  function Pauses(t: Tree): seq<Option<int>>
    decreases t
  {
    match t
    case Loop => []
    case Pause(_, children) => if children == [] then [] else Pauses(children[0])
    case Node(_, children) =>
      if children == [] then [None]
      else [if children[0].Pause? then Some(children[0].length) else None] + Pauses(children[0])
  }

  /** The futures of the queue stand on the way so far and were scheduled when they were reached. */
  ghost predicate Scheduled(p: seq<Instr>, s: Book, past: seq<nat>) {
    && BookValid(p, s)
    && forall k :: 0 <= k < |s.queue| ==> OnTheWay(p, s.queue[k], s.scheduled[s.queue[k]], past)
  }

  ghost predicate OnTheWay(p: seq<Instr>, f: nat, at: int, past: seq<nat>) {
    exists j: nat :: ScheduledAt(p, f, at, past, j)
  }

  ghost predicate ScheduledAt(p: seq<Instr>, f: nat, at: int, past: seq<nat>, j: nat) {
    j < |past| && past[j] == f < |p| && p[f].typ == FUTURE && at == MEAN * j + p[f].args[0]
  }

  /**
   The pause behind place `k` of the way: at HALT it is what is left of the delay of a future in front of it, of
   which each instruction in between has taken 200, and the way goes on at its target.
   */
  ghost predicate RightPause(p: seq<Instr>, way: seq<nat>, k: nat, pause: Option<int>) {
    k < |way| && way[k] < |p| &&
    if p[way[k]].typ != HALT then pause == None
    else exists j: nat :: Waits(p, way, k, pause, j)
  }

  ghost predicate Waits(p: seq<Instr>, way: seq<nat>, k: nat, pause: Option<int>, j: nat) {
    && j < k < |way| && way[j] < |p| && p[way[j]].typ == FUTURE
    && pause == Some(p[way[j]].args[0] - 200 * (k - j))
    && (k + 1 < |way| ==> way[k + 1] == p[way[j]].args[1])
  }

  ghost predicate RightPauses(p: seq<Instr>, way: seq<nat>, from: nat, pauses: seq<Option<int>>) {
    from + |pauses| == |way| && forall k :: 0 <= k < |pauses| ==> RightPause(p, way, from + k, pauses[k])
  }

  lemma RightPausesCons(p: seq<Instr>, way: seq<nat>, from: nat, x: Option<int>, later: seq<Option<int>>)
    requires RightPause(p, way, from, x) && RightPauses(p, way, from + 1, later)
    ensures RightPauses(p, way, from, [x] + later)
  {
    hide RightPause;
    forall k | 0 <= k < |[x] + later|
      ensures RightPause(p, way, from + k, ([x] + later)[k])
    {
      assert k > 0 ==> RightPause(p, way, from + 1 + (k - 1), later[k - 1]);
    }
  }

  /** One instruction: its pause, and the way behind it. */
  lemma PausesGo(p: seq<Instr>, i: nat, time: int, s: Book)
    requires Traceable(p) && NoIf(p) && i < |p| && BookValid(p, s) && Search(p, i, time, s).0.Some?
    ensures p[i].typ == HALT ==> s.queue != []
    ensures var t := Search(p, i, time, s).0.value;
      var (n, s1) := Ahead(p, i, time, s, false);
      var here := if p[i].typ == HALT then Some(s.scheduled[s.queue[Longest(p, s.queue)]] - time) else None;
      if i < n < |p| then
        && Search(p, n, time + MEAN, s1).0.Some?
        && Follow(p, t, []) == [i] + Follow(p, Search(p, n, time + MEAN, s1).0.value, [])
        && Pauses(t) == [here] + Pauses(Search(p, n, time + MEAN, s1).0.value)
      else Follow(p, t, []) == [i] && Pauses(t) == [here]
  {
    hide Search, SearchSuccessor, Follow, EndsInLoop, Longest, Traceable, Pauses;
    PathGoes(p, i, time, s, []);
    var (n, s1) := Ahead(p, i, time, s, false);
    StraightGoes(p, i, time, s, []);
    SuccessorPath(p, i, n, time, s1, []);
    NodeOf(p, i, time, s);
    if i < n < |p| {
      SearchedNode(p, n, time + MEAN, s1);
    }
    var next := SearchSuccessor(p, i, n, time, s1).0.value;
    if p[i].typ == HALT {
      PausesOfHalt(i, s.scheduled[s.queue[Longest(p, s.queue)]] - time, next);
    } else {
      PausesOfNode(i, next);
    }
  }

  lemma SearchedNode(p: seq<Instr>, i: nat, time: int, s: Book)
    requires i < |p| && BookValid(p, s) && Search(p, i, time, s).0.Some?
    ensures Search(p, i, time, s).0.value.Node?
  {
    hide SearchSuccessor, Longest;
  }

  /** The tree of an instruction that is not an IF. */
  lemma NodeOf(p: seq<Instr>, i: nat, time: int, s: Book)
    requires Traceable(p) && NoIf(p) && i < |p| && BookValid(p, s) && Search(p, i, time, s).0.Some?
    requires p[i].typ == HALT ==> s.queue != []
    ensures var (n, s1) := Ahead(p, i, time, s, false);
      var next := SearchSuccessor(p, i, n, time, s1).0;
      && next.Some?
      && Search(p, i, time, s).0.value ==
         Node(i, if p[i].typ != HALT then next.value
                 else [Pause(s.scheduled[s.queue[Longest(p, s.queue)]] - time, next.value)])
  {
    hide SearchSuccessor, Longest;
  }

  lemma PausesOfHalt(i: nat, length: int, next: seq<Tree>)
    requires |next| <= 1
    ensures Pauses(Node(i, [Pause(length, next)])) == [Some(length)] + if next == [] then [] else Pauses(next[0])
    ensures next == [Loop] ==> Pauses(next[0]) == []
  {
    assert [Some(length)] + [] == [Some(length)];
  }

  lemma PausesOfNode(i: nat, next: seq<Tree>)
    requires |next| <= 1 && (next != [] ==> !next[0].Pause?)
    ensures Pauses(Node(i, next)) == [None] + if next == [] then [] else Pauses(next[0])
    ensures next == [Loop] ==> Pauses(next[0]) == []
  {
    var none: seq<Option<int>> := [None];
    assert none + [] == none;
  }

  lemma StillScheduled(p: seq<Instr>, i: nat, time: int, s: Book, past: seq<nat>)
    requires i < |p| && Scheduled(p, s, past) && time == MEAN * |past| && (p[i].typ == HALT ==> s.queue != [])
    requires NoIf(p)
    ensures Scheduled(p, Ahead(p, i, time, s, false).1, past + [i])
  {
    hide Longest;
    var s1 := Ahead(p, i, time, s, false).1;
    assert BookValid(p, s1);
    forall k | 0 <= k < |s1.queue|
      ensures OnTheWay(p, s1.queue[k], s1.scheduled[s1.queue[k]], past + [i])
    {
      var f := s1.queue[k];
      if p[i].typ == FUTURE && f == i {
        assert ScheduledAt(p, f, s1.scheduled[f], past + [i], |past|);
      } else {
        var m := if p[i].typ == HALT && k >= Longest(p, s.queue) then k + 1 else k;
        assert f == s.queue[m];
        FurtherOn(p, f, s.scheduled[f], past, i);
      }
    }
  }

  lemma FurtherOn(p: seq<Instr>, f: nat, at: int, past: seq<nat>, i: nat)
    requires OnTheWay(p, f, at, past)
    ensures OnTheWay(p, f, at, past + [i])
  {
    var j: nat :| ScheduledAt(p, f, at, past, j);
    assert ScheduledAt(p, f, at, past + [i], j);
  }

  /** The pause of a HALT on the way. */
  lemma HaltWaits(p: seq<Instr>, i: nat, time: int, s: Book, past: seq<nat>, rest: seq<nat>)
    requires i < |p| && p[i].typ == HALT && s.queue != [] && Scheduled(p, s, past) && time == MEAN * |past|
    requires rest != [] ==> rest[0] == Ahead(p, i, time, s, false).0
    ensures var pause := Some(s.scheduled[s.queue[Longest(p, s.queue)]] - time);
      RightPause(p, past + ([i] + rest), |past|, pause)
  {
    hide Longest;
    var f := s.queue[Longest(p, s.queue)];
    var way := past + ([i] + rest);
    var pause := Some(s.scheduled[f] - time);
    assert OnTheWay(p, f, s.scheduled[f], past);
    var j: nat :| ScheduledAt(p, f, s.scheduled[f], past, j);
    assert way[j] == f && way[|past|] == i;
    assert rest != [] ==> way[|past| + 1] == rest[0];
    assert Waits(p, way, |past|, pause, j);
  }

  lemma {:induction false} SearchPauses(p: seq<Instr>, i: nat, time: int, s: Book, past: seq<nat>)
    requires Traceable(p) && NoIf(p) && i < |p| && Scheduled(p, s, past) && time == MEAN * |past|
    requires BookValid(p, s) && Search(p, i, time, s).0.Some?
    ensures var t := Search(p, i, time, s).0.value; RightPauses(p, past + Follow(p, t, []), |past|, Pauses(t))
    decreases |p| - i
  {
    hide Search, Follow, Longest, Traceable, NoIf, Scheduled, Ahead, RightPause, Pauses, RightPauses;
    var t := Search(p, i, time, s).0.value;
    PausesGo(p, i, time, s);
    StillScheduled(p, i, time, s, past);
    AheadGoes(p, i, time, s, false);
    var (n, s1) := Ahead(p, i, time, s, false);
    var more: seq<nat> := if i < n < |p| then Follow(p, Search(p, n, time + MEAN, s1).0.value, []) else [];
    assert [i] + [] == [i];
    var way := past + ([i] + more);
    Regroup(past, i, more);
    if i < n < |p| {
      PathStarts(p, n, time + MEAN, s1, []);
    }
    if p[i].typ == HALT {
      HaltWaits(p, i, time, s, past, more);
    } else {
      NoPause(p, way, |past|);
    }
    var here := if p[i].typ == HALT then Some(s.scheduled[s.queue[Longest(p, s.queue)]] - time) else None;
    if i < n < |p| {
      SearchPauses(p, n, time + MEAN, s1, past + [i]);
      RightPausesCons(p, way, |past|, here, Pauses(Search(p, n, time + MEAN, s1).0.value));
    } else {
      NoPauses(p, way, |past| + 1);
      RightPausesCons(p, way, |past|, here, []);
      assert [here] + [] == [here];
    }
  }

  lemma Regroup(past: seq<nat>, i: nat, more: seq<nat>)
    ensures past + ([i] + more) == past + [i] + more && (past + ([i] + more))[|past|] == i
  {
  }

  lemma NoPauses(p: seq<Instr>, way: seq<nat>, from: nat)
    requires from == |way|
    ensures RightPauses(p, way, from, [])
  {
  }

  lemma NoPause(p: seq<Instr>, way: seq<nat>, k: nat)
    requires k < |way| && way[k] < |p| && p[way[k]].typ != HALT
    ensures RightPause(p, way, k, None)
  {
  }

  /**
   The whole tree of a program without IF: an instruction that is not HALT has no pause behind it; the pause of a
   HALT is the delay of a future on the way in front of it less 200 for each step from that one to the HALT, and
   the way goes on at the target of that future.  Pauses in between do not count.
   */
  lemma PauseLengths(p: seq<Instr>)
    requires Traceable(p) && NoIf(p) && p != [] && Build(p, 0, 0, EMPTY).0.Some?
    ensures var t := Build(p, 0, 0, EMPTY).0.value; RightPauses(p, Follow(p, t, []), 0, Pauses(t))
  {
    hide Build, Search, Follow, Traceable, NoIf, RightPauses, Pauses;
    SearchedTree(p, 0, 0, EMPTY);
    SearchPauses(p, 0, 0, EMPTY, []);
    var way := Follow(p, Build(p, 0, 0, EMPTY).0.value, []);
    assert [] + way == way;
  }
}
