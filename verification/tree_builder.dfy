/** The execution tree of the visualiser (ncm_visualizer/parse.py:60-119). */
module TreeBuilding {
  import opened Words
  import opened Machine

  // Types that have a name but no handler in the interpreter.
  const MODE := 3
  const DESTROY := 5
  const HANDLE := 9

  /** The instruction types of the table `lengths`, all with mean 200. */
  const TIMED: set<int> :=
    {FUTURE, HALT, IF, MODE, CREATE, DESTROY, SEND, RECEIVE, SYNC, HANDLE, NOP, SET_COUNTER, ADD_TO_COUNTER,
     SUB_FROM_COUNTER}

  const MEAN := 200

  /** `Node` is an instruction, by its index; `Pause` is what HALT adds; `Loop` marks a backward jump. */
  datatype Tree =
    | Node(index: nat, children: seq<Tree>)
    | Pause(length: int, children: seq<Tree>)
    | Loop

  /** The builder's state: pending FUTURE instructions by index, and the time last written into each of them. */
  datatype Book = Book(queue: seq<nat>, scheduled: map<nat, int>)

  ghost predicate BookValid(p: seq<Instr>, b: Book) {
    forall k :: 0 <= k < |b.queue| ==> b.queue[k] < |p| && b.queue[k] in b.scheduled
  }

  /** `sorted` by the first argument, keeping the order of equal ones. */
  function SortedByDelay(p: seq<Instr>, q: seq<nat>): (r: seq<nat>)
    requires forall k :: 0 <= k < |q| ==> q[k] < |p|
    ensures |r| == |q| && forall k :: 0 <= k < |r| ==> r[k] in q
    decreases q
  {
    if q == [] then [] else
    var front := SortedByDelay(p, q[..|q| - 1]);
    PlaceByDelay(p, front, q[|q| - 1])
  }

  function PlaceByDelay(p: seq<Instr>, q: seq<nat>, f: nat): (r: seq<nat>)
    requires f < |p| && forall k :: 0 <= k < |q| ==> q[k] < |p|
    ensures |r| == |q| + 1 && forall k :: 0 <= k < |r| ==> r[k] in q || r[k] == f
    decreases q
  {
    if q == [] || p[f].args[0] < p[q[0]].args[0] then [f] + q else [q[0]] + PlaceByDelay(p, q[1..], f)
  }

  // ----- the recursion as a function of the state -----

  /** Children for one successor `n` of instruction `i`; `None` is an exception. */
  function Successor(p: seq<Instr>, i: nat, n: nat, time: int, b: Book): (r: (Option<seq<Tree>>, Book))
    requires i < |p| && BookValid(p, b)
    ensures BookValid(p, r.1)
    decreases |p| - i, 0
  {
    if n <= i then (Some([Loop]), b)
    else if n < |p| then
      var (t, b1) := Build(p, n, time + MEAN, b);
      (if t.Some? then Some([t.value]) else None, b1)
    else (Some([]), b)
  }

  function Build(p: seq<Instr>, i: nat, time: int, b: Book): (r: (Option<Tree>, Book))
    requires i < |p| && BookValid(p, b)
    ensures BookValid(p, r.1)
    decreases |p| - i, 1
  {
    var instr := p[i];
    if instr.typ !in TIMED then (None, b)
    else if instr.typ == IF then
      var (first, b1) := Successor(p, i, i + 1, time, b);
      if first == None then (None, b1)
      else
        var (second, b2) := Successor(p, i, instr.args[1], time, b1);
        (if second == None then None else Some(Node(i, first.value + second.value)), b2)
    else if instr.typ == FUTURE then
      var (next, b1) := Successor(p, i, i + 1, time, Book(b.queue + [i], b.scheduled[i := time + instr.args[0]]));
      (if next == None then None else Some(Node(i, next.value)), b1)
    else if instr.typ == HALT then
      var q := SortedByDelay(p, b.queue);
      if q == [] then (None, b)
      else
        var f := q[|q| - 1];
        assert f in b.queue;
        var (next, b1) := Successor(p, i, p[f].args[1], time, b.(queue := q[..|q| - 1]));
        (if next == None then None else Some(Node(i, [Pause(b.scheduled[f] - time, next.value)])), b1)
    else
      var (next, b1) := Successor(p, i, i + 1, time, b);
      (if next == None then None else Some(Node(i, next.value)), b1)
  }

  // ----- the builder itself -----

  class TreeBuilder {
    const instrs: seq<Instr>
    var futureQueue: seq<nat>
    var scheduled: map<nat, int>

    constructor (instrs: seq<Instr>)
      ensures this.instrs == instrs && State() == Book([], map[])
    {
      this.instrs := instrs;
      futureQueue := [];
      scheduled := map[];
    }

    ghost function State(): Book
      reads this
    {
      Book(futureQueue, scheduled)
    }

    method AddSuccessor(i: nat, n: nat, time: int) returns (children: Option<seq<Tree>>)
      requires i < |instrs| && BookValid(instrs, State())
      modifies this
      ensures (children, State()) == Successor(instrs, i, n, time, old(State()))
      decreases |instrs| - i, 0
    {
      if n <= i {
        children := Some([Loop]);
      } else if n < |instrs| {
        var t := Step(n, time + MEAN);
        children := if t.Some? then Some([t.value]) else None;
      } else {
        children := Some([]);
      }
    }

    method Step(i: nat, time: int) returns (tree: Option<Tree>)
      requires i < |instrs| && BookValid(instrs, State())
      modifies this
      ensures (tree, State()) == Build(instrs, i, time, old(State()))
      decreases |instrs| - i, 1
    {
      hide SortedByDelay, Successor;
      var instr := instrs[i];
      if instr.typ !in TIMED {
        return None;
      }
      var pause: Option<int> := None;
      var next := i + 1;
      if instr.typ == IF {
        var first := AddSuccessor(i, i + 1, time);
        if first == None {
          return None;
        }
        var second := AddSuccessor(i, instr.args[1], time);
        return if second == None then None else Some(Node(i, first.value + second.value));
      }
      if instr.typ == FUTURE {
        scheduled := scheduled[i := time + instr.args[0]];
        futureQueue := futureQueue + [i];
      } else if instr.typ == HALT {
        var q := SortedByDelay(instrs, futureQueue);
        if q == [] {
          return None;
        }
        var f := q[|q| - 1];
        assert f in futureQueue;
        futureQueue := q[..|q| - 1];
        pause := Some(scheduled[f] - time);
        next := instrs[f].args[1];
      }
      var children := AddSuccessor(i, next, time);
      if children == None {
        return None;
      }
      tree := Some(Node(i, if pause.Some? then [Pause(pause.value, children.value)] else children.value));
    }
  }

  // ----- shape of the tree -----

  /** Every instruction below has an index above `low`; nodes have at most two children. */
  ghost predicate WellShaped(p: seq<Instr>, t: Tree, low: int) {
    match t
    case Loop => true
    case Pause(_, children) => |children| <= 1 && forall c :: c in children ==> WellShaped(p, c, low)
    case Node(i, children) => low < i < |p| && |children| <= 2 && forall c :: c in children ==> WellShaped(p, c, i)
  }

  lemma {:induction false} SuccessorShape(p: seq<Instr>, i: nat, n: nat, time: int, b: Book)
    requires i < |p| && BookValid(p, b)
    ensures var r := Successor(p, i, n, time, b).0;
      r.Some? ==> |r.value| <= 1 && forall c :: c in r.value ==> WellShaped(p, c, i)
    decreases |p| - i, 0
  {
    if i < n < |p| {
      TreeShape(p, n, time + MEAN, b, i);
    }
  }

  /** Instruction indices strictly increase along every path, and no node has more than two children. */
  lemma {:induction false} TreeShape(p: seq<Instr>, i: nat, time: int, b: Book, low: int)
    requires low < i < |p| && BookValid(p, b)
    ensures var r := Build(p, i, time, b).0; r.Some? ==> WellShaped(p, r.value, low)
    decreases |p| - i, 1
  {
    var instr := p[i];
    if instr.typ == IF {
      SuccessorShape(p, i, i + 1, time, b);
      SuccessorShape(p, i, instr.args[1], time, Successor(p, i, i + 1, time, b).1);
    } else if instr.typ == FUTURE {
      SuccessorShape(p, i, i + 1, time, Book(b.queue + [i], b.scheduled[i := time + instr.args[0]]));
    } else if instr.typ == HALT {
      var q := SortedByDelay(p, b.queue);
      if q != [] {
        var f := q[|q| - 1];
        assert f in b.queue;
        SuccessorShape(p, i, p[f].args[1], time, b.(queue := q[..|q| - 1]));
      }
    } else {
      SuccessorShape(p, i, i + 1, time, b);
    }
  }
}
