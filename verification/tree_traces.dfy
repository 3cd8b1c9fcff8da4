/** The paths of the execution tree against the runs of the interpreter (ncm_visualizer/parse.py, interpreter.c). */
module TreeTraces {
  import opened Words
  import opened FutureSpec
  import opened Machine
  import opened Runs
  import opened TreeBuilding
  import opened TreeFutures

  /** Opcodes that the interpreter executes and the table of the builder covers. */
  ghost predicate Traceable(p: seq<Instr>) {
    forall k :: 0 <= k < |p| ==>
      p[k].typ in {FUTURE, HALT, IF, CREATE, SEND, RECEIVE, SYNC, NOP, SET_COUNTER, ADD_TO_COUNTER, SUB_FROM_COUNTER}
  }

  /**
   The child that node `i` goes on with.  An IF has the child of the next instruction, if there is one, in front
   of that of its target, if there is one.
   */
  function Child(p: seq<Instr>, i: nat, children: seq<Tree>, jump: bool): (r: Option<Tree>)
    requires i < |p|
    ensures r.Some? ==> r.value in children
  {
    if children == [] then None
    else if p[i].typ != IF then Some(children[0])
    else if jump then (if p[i].args[1] < |p| then Some(children[|children| - 1]) else None)
    else if i + 1 < |p| then Some(children[0])
    else None
  }

  /** Instruction indices along the tree, where `jumps` tells which way each IF goes. */
  function Follow(p: seq<Instr>, t: Tree, jumps: seq<bool>): seq<nat>
    decreases t
  {
    match t
    case Loop => []
    case Pause(_, children) => if children == [] then [] else Follow(p, children[0], jumps)
    case Node(i, children) =>
      if i >= |p| then [i]
      else if p[i].typ != IF then
        var next := Child(p, i, children, false);
        [i] + if next.None? then [] else Follow(p, next.value, jumps)
      else if jumps == [] then [i]
      else
        var next := Child(p, i, children, jumps[0]);
        [i] + if next.None? then [] else Follow(p, next.value, jumps[1..])
  }

  /** That way ends in a LOOP marker rather than behind the last instruction. */
  predicate EndsInLoop(p: seq<Instr>, t: Tree, jumps: seq<bool>)
    decreases t
  {
    match t
    case Loop => true
    case Pause(_, children) => children != [] && EndsInLoop(p, children[0], jumps)
    case Node(i, children) =>
      if i >= |p| then false
      else if p[i].typ != IF then
        var next := Child(p, i, children, false);
        next.Some? && EndsInLoop(p, next.value, jumps)
      else if jumps == [] then false
      else
        var next := Child(p, i, children, jumps[0]);
        next.Some? && EndsInLoop(p, next.value, jumps[1..])
  }

  /** Where instruction `i` leads, and what the builder that searches knows by then; `jump` matters at IF. */
  function Ahead(p: seq<Instr>, i: nat, time: int, s: Book, jump: bool): (r: (nat, Book))
    requires i < |p| && BookValid(p, s) && (p[i].typ == HALT ==> s.queue != [])
    ensures BookValid(p, r.1)
  {
    if p[i].typ == FUTURE then (i + 1, Book(s.queue + [i], s.scheduled[i := time + p[i].args[0]]))
    else if p[i].typ == HALT then
      var k := Longest(p, s.queue);
      (p[s.queue[k]].args[1], s.(queue := Removed(s.queue, k)))
    else if p[i].typ == IF && jump then (p[i].args[1], SearchSuccessor(p, i, i + 1, time, s).1)
    else (i + 1, s)
  }

  /** What is left to decide behind instruction `i`. */
  function Undecided(p: seq<Instr>, i: nat, jumps: seq<bool>): seq<bool>
    requires i < |p| && (p[i].typ == IF ==> jumps != [])
  {
    if p[i].typ == IF then jumps[1..] else jumps
  }

  predicate Jump(p: seq<Instr>, i: nat, jumps: seq<bool>)
    requires i < |p|
  {
    p[i].typ == IF && jumps != [] && jumps[0]
  }

  /** Behind a successor that is in front: the tree of that instruction; otherwise LOOP or nothing. */
  lemma SuccessorPath(p: seq<Instr>, i: nat, n: nat, time: int, s: Book, jumps: seq<bool>)
    requires i < |p| && BookValid(p, s) && SearchSuccessor(p, i, n, time, s).0.Some?
    ensures var next := SearchSuccessor(p, i, n, time, s).0.value;
      && |next| <= 1 && (next == [] <==> n >= |p|)
      && (i < n < |p| ==> Search(p, n, time + MEAN, s).0.Some? && next == [Search(p, n, time + MEAN, s).0.value])
      && (n <= i ==> next == [Loop])
  {
    hide Search;
  }

  lemma LoopPath(p: seq<Instr>, jumps: seq<bool>)
    ensures Follow(p, Loop, jumps) == [] && EndsInLoop(p, Loop, jumps)
  {
  }

  /** The way through the tree that is not an IF goes on with that of its successor. */
  lemma StraightGoes(p: seq<Instr>, i: nat, time: int, s: Book, jumps: seq<bool>)
    requires Traceable(p) && i < |p| && BookValid(p, s) && Search(p, i, time, s).0.Some? && p[i].typ != IF
    ensures p[i].typ == HALT ==> s.queue != []
    ensures var t := Search(p, i, time, s).0.value;
      var (n, s1) := Ahead(p, i, time, s, false);
      var next := SearchSuccessor(p, i, n, time, s1).0;
      && next.Some?
      && Follow(p, t, jumps) == [i] + (if next.value == [] then [] else Follow(p, next.value[0], jumps))
      && (EndsInLoop(p, t, jumps) <==> next.value != [] && EndsInLoop(p, next.value[0], jumps))
  {
    hide SearchSuccessor, Longest;
  }

  /** At an IF it goes on with the successor that is chosen. */
  lemma IfGoes(p: seq<Instr>, i: nat, time: int, s: Book, jumps: seq<bool>)
    requires i < |p| && BookValid(p, s) && Search(p, i, time, s).0.Some? && p[i].typ == IF && jumps != []
    ensures var t := Search(p, i, time, s).0.value;
      var (n, s1) := Ahead(p, i, time, s, jumps[0]);
      var next := SearchSuccessor(p, i, n, time, s1).0;
      && next.Some?
      && Follow(p, t, jumps) == [i] + (if next.value == [] then [] else Follow(p, next.value[0], jumps[1..]))
      && (EndsInLoop(p, t, jumps) <==> next.value != [] && EndsInLoop(p, next.value[0], jumps[1..]))
  {
    hide SearchSuccessor;
    var (first, s1) := SearchSuccessor(p, i, i + 1, time, s);
    SuccessorPath(p, i, i + 1, time, s, jumps);
    var second := SearchSuccessor(p, i, p[i].args[1], time, s1).0;
    SuccessorPath(p, i, p[i].args[1], time, s1, jumps);
    assert Search(p, i, time, s).0.value == Node(i, first.value + second.value);
  }

  lemma PathStarts(p: seq<Instr>, i: nat, time: int, s: Book, jumps: seq<bool>)
    requires i < |p| && BookValid(p, s) && Search(p, i, time, s).0.Some?
    ensures var path := Follow(p, Search(p, i, time, s).0.value, jumps);
      path != [] && path[0] == i && (p[i].typ == IF && jumps == [] ==> path == [i])
  {
    hide SearchSuccessor, Longest;
  }

  /** The way through the tree goes on with that of the successor. */
  lemma PathGoes(p: seq<Instr>, i: nat, time: int, s: Book, jumps: seq<bool>)
    requires Traceable(p) && i < |p| && BookValid(p, s) && Search(p, i, time, s).0.Some?
    requires p[i].typ == IF ==> jumps != []
    ensures p[i].typ == HALT ==> s.queue != []
    ensures var t := Search(p, i, time, s).0.value;
      var path := Follow(p, t, jumps);
      var (n, s1) := Ahead(p, i, time, s, Jump(p, i, jumps));
      var rest := Undecided(p, i, jumps);
      && path != [] && path[0] == i
      && (i < n < |p| ==> Search(p, n, time + MEAN, s1).0.Some?
                          && path == [i] + Follow(p, Search(p, n, time + MEAN, s1).0.value, rest)
                          && (EndsInLoop(p, t, jumps) <==>
                                EndsInLoop(p, Search(p, n, time + MEAN, s1).0.value, rest)))
      && (!(i < n < |p|) ==> path == [i] && (EndsInLoop(p, t, jumps) <==> n <= i))
  {
    hide Search, SearchSuccessor, Follow, EndsInLoop, Longest, Traceable;
    if p[i].typ == IF {
      IfGoes(p, i, time, s, jumps);
    } else {
      StraightGoes(p, i, time, s, jumps);
    }
    var (n, s1) := Ahead(p, i, time, s, Jump(p, i, jumps));
    SuccessorPath(p, i, n, time, s1, jumps);
    LoopPath(p, Undecided(p, i, jumps));
    assert [i] + [] == [i];
  }

  // ----- runs -----

  /** Number of instructions executed; users and the network may act in between. */
  function Executes(inputs: seq<Input>): nat {
    if inputs == [] then 0 else (if inputs[0].Execute? then 1 else 0) + Executes(inputs[1..])
  }

  ghost predicate Goes(c: Config, m: Vm, inputs: seq<Input>) {
    && Shape(c, m)
    && (forall k :: 0 <= k < |inputs| ==> Possible(c, inputs[k]))
    && Run(c, m, inputs).Next?
  }

  lemma GoesOn(c: Config, m: Vm, inputs: seq<Input>)
    requires Goes(c, m, inputs) && inputs != []
    ensures Feed(c, m, inputs[0]).Next? && Goes(c, Feed(c, m, inputs[0]).vm, inputs[1..])
    ensures Run(c, m, inputs).vm == Run(c, Feed(c, m, inputs[0]).vm, inputs[1..]).vm
    ensures inputs[0].Execute? ==> m.pc < |c.program| && Feed(c, m, inputs[0]) == Step(c, m, inputs[0].e)
    ensures !inputs[0].Execute? ==>
      Feed(c, m, inputs[0]).vm.pc == m.pc && Feed(c, m, inputs[0]).vm.queue == m.queue
  {
    hide Handle;
    FeedKeepsShape(c, m, inputs[0]);
  }

  /** The program counters of the instructions executed. */
  ghost function Pcs(c: Config, m: Vm, inputs: seq<Input>): seq<nat>
    requires Goes(c, m, inputs)
    decreases inputs
  {
    if inputs == [] then []
    else
      GoesOn(c, m, inputs);
      (if inputs[0].Execute? then [m.pc] else []) + Pcs(c, Feed(c, m, inputs[0]).vm, inputs[1..])
  }

  lemma {:induction false} PcsLength(c: Config, m: Vm, inputs: seq<Input>)
    requires Goes(c, m, inputs)
    ensures |Pcs(c, m, inputs)| == Executes(inputs)
    ensures Executes(inputs) > 0 ==> Pcs(c, m, inputs)[0] == m.pc && m.pc < |c.program|
    ensures Executes(inputs) == 0 ==>
      Run(c, m, inputs).vm.pc == m.pc && Run(c, m, inputs).vm.queue == m.queue
    decreases inputs
  {
    hide Feed, Run;
    if inputs == [] {
      NoInputs(c, m);
    } else {
      GoesOn(c, m, inputs);
      PcsLength(c, Feed(c, m, inputs[0]).vm, inputs[1..]);
    }
  }

  lemma NoInputs(c: Config, m: Vm)
    requires Goes(c, m, [])
    ensures Run(c, m, []).vm == m
  {
  }

  /** The guard of the IF that comes next holds. */
  ghost predicate Taken(c: Config, m: Vm)
    requires Shape(c, m) && m.pc < |c.program|
  {
    var i := c.program[m.pc];
    i.typ == IF && InBounds(c, i) && GuardValue(c, m, i.args[0], i.args[2], i.args[3]) == Some(true)
  }

  /** Which way each IF went. */
  ghost function Jumps(c: Config, m: Vm, inputs: seq<Input>): seq<bool>
    requires Goes(c, m, inputs)
    decreases inputs
  {
    if inputs == [] then []
    else
      GoesOn(c, m, inputs);
      (if inputs[0].Execute? && c.program[m.pc].typ == IF then [Taken(c, m)] else [])
      + Jumps(c, Feed(c, m, inputs[0]).vm, inputs[1..])
  }

  // ----- one step of the interpreter -----

  lemma HandlerOf(c: Config, m: Vm, e: Env)
    requires Shape(c, m) && m.pc < |c.program| && Step(c, m, e).Next?
    ensures InBounds(c, c.program[m.pc])
    ensures var h := Handle(c, m, c.program[m.pc], e);
      h.Some? && Step(c, m, e) == Finish(h.value) && h.value.status != Error
  {
    hide Handle, InBounds;
  }

  lemma HaltHandled(c: Config, m: Vm, i: Instr, e: Env)
    requires Shape(c, m) && InBounds(c, i) && i.typ == HALT
    ensures Handle(c, m, i, e) == Some(HaltEffect(m, e))
  {
  }

  lemma FutureHandled(c: Config, m: Vm, i: Instr, e: Env)
    requires Shape(c, m) && InBounds(c, i) && i.typ == FUTURE
    ensures Handle(c, m, i, e) == Some(FutureEffect(c, m, i, e))
    ensures var h := FutureEffect(c, m, i, e); h.status != ChangePc && h.vm.pc == m.pc
  {
  }

  lemma IfHandled(c: Config, m: Vm, i: Instr, e: Env)
    requires Shape(c, m) && InBounds(c, i) && i.typ == IF
    ensures Handle(c, m, i, e) == Some(IfEffect(c, m, i))
  {
  }

  lemma OthersHandled(c: Config, m: Vm, i: Instr, e: Env)
    requires Shape(c, m) && InBounds(c, i)
    requires i.typ in {CREATE, SEND, RECEIVE, SYNC, NOP, SET_COUNTER, ADD_TO_COUNTER, SUB_FROM_COUNTER}
    ensures var h := Handle(c, m, i, e);
      h.Some? && h.value.status != ChangePc && h.value.vm.pc == m.pc && h.value.vm.queue == m.queue
  {
    hide BufferShape, GuardValue, QueueShape, FutureEffect, HaltEffect, WaitEffect;
  }

  /** The interpreter goes to the next instruction, at HALT to its earliest future, at IF by the guard. */
  lemma StepGoes(c: Config, m: Vm, e: Env)
    requires c.Valid() && Traceable(c.program) && Shape(c, m) && m.pc < |c.program| && Step(c, m, e).Next?
    ensures var i, o := c.program[m.pc], Step(c, m, e);
      && (i.typ == HALT ==> m.queue != [] && o.vm.pc == m.queue[0].jmp && o.vm.queue == m.queue[1..])
      && (i.typ == IF ==> o.vm.pc == (if Taken(c, m) then i.args[1] else m.pc + 1) && o.vm.queue == m.queue)
      && (i.typ != HALT && i.typ != IF ==> o.vm.pc == m.pc + 1)
  {
    hide Step, BufferShape, QueueShape, GuardValue, Handle, InBounds, FutureEffect;
    var i := c.program[m.pc];
    HandlerOf(c, m, e);
    if i.typ == HALT {
      HaltHandled(c, m, i, e);
    } else if i.typ == FUTURE {
      FutureHandled(c, m, i, e);
    } else if i.typ == IF {
      IfHandled(c, m, i, e);
    } else {
      OthersHandled(c, m, i, e);
    }
  }

  // ----- exactly when the way through the tree is the trace -----

  /**
   At every HALT of the run the future with the largest delay, the latest scheduled among these, has the target
   of the interpreter's earliest future.  The queue is that of a builder that has come the same way and has
   built the other branch of every IF it jumped at.  With `last` that also holds at a HALT behind which no
   instruction is executed any more.
   */
  ghost predicate HaltsAgree(c: Config, m: Vm, s: Book, time: int, inputs: seq<Input>, last: bool)
    requires Goes(c, m, inputs) && BookValid(c.program, s)
    decreases inputs
  {
    inputs == [] ||
    (GoesOn(c, m, inputs);
     var v, rest := Feed(c, m, inputs[0]).vm, inputs[1..];
     if !inputs[0].Execute? then HaltsAgree(c, v, s, time, rest, last)
     else if !last && Executes(rest) == 0 then true
     else if c.program[m.pc].typ == HALT then
       s.queue != [] && m.queue != [] && Ahead(c.program, m.pc, time, s, false).0 == m.queue[0].jmp
       && HaltsAgree(c, v, Ahead(c.program, m.pc, time, s, false).1, time + MEAN, rest, last)
     else HaltsAgree(c, v, Ahead(c.program, m.pc, time, s, Taken(c, m)).1, time + MEAN, rest, last))
  }

  lemma PrefixCons(x: nat, a: seq<nat>, b: seq<nat>)
    ensures [x] + a <= [x] + b <==> a <= b
  {
    assert a <= b ==> ([x] + b)[..|a| + 1] == [x] + b[..|a|];
    assert [x] + a <= [x] + b ==> a == ([x] + a)[1..] && b[..|a|] == ([x] + b)[..|a| + 1][1..];
  }

  /** The run after its first input. */
  lemma RunSplits(c: Config, m: Vm, inputs: seq<Input>)
    requires Goes(c, m, inputs) && inputs != []
    ensures Feed(c, m, inputs[0]).Next? && Goes(c, Feed(c, m, inputs[0]).vm, inputs[1..])
    ensures var v, rest := Feed(c, m, inputs[0]).vm, inputs[1..];
      if !inputs[0].Execute? then
        && v.pc == m.pc && v.queue == m.queue && Executes(inputs) == Executes(rest)
        && Pcs(c, m, inputs) == Pcs(c, v, rest) && Jumps(c, m, inputs) == Jumps(c, v, rest)
      else
        && m.pc < |c.program| && Feed(c, m, inputs[0]) == Step(c, m, inputs[0].e)
        && Executes(inputs) == Executes(rest) + 1
        && Pcs(c, m, inputs) == [m.pc] + Pcs(c, v, rest)
        && Jumps(c, m, inputs) == (if c.program[m.pc].typ == IF then [Taken(c, m)] else []) + Jumps(c, v, rest)
  {
    hide Feed, Run, Taken;
    GoesOn(c, m, inputs);
    var v, rest := Feed(c, m, inputs[0]).vm, inputs[1..];
    assert [] + Pcs(c, v, rest) == Pcs(c, v, rest) && [] + Jumps(c, v, rest) == Jumps(c, v, rest);
  }

  lemma DecisionsAre(p: seq<Instr>, i: nat, taken: bool, more: seq<bool>)
    requires i < |p| && (taken ==> p[i].typ == IF)
    ensures var jumps := (if p[i].typ == IF then [taken] else []) + more;
      && (p[i].typ == IF ==> jumps != []) && Jump(p, i, jumps) == taken && Undecided(p, i, jumps) == more
  {
  }

  lemma {:induction false} SearchIsTrace(c: Config, m: Vm, s: Book, time: int, inputs: seq<Input>)
    requires c.Valid() && Traceable(c.program) && Goes(c, m, inputs) && BookValid(c.program, s) && m.pc < |c.program|
    requires Search(c.program, m.pc, time, s).0.Some?
    requires var way := Follow(c.program, Search(c.program, m.pc, time, s).0.value, Jumps(c, m, inputs));
      Executes(inputs) <= |way|
    ensures Pcs(c, m, inputs) <= Follow(c.program, Search(c.program, m.pc, time, s).0.value, Jumps(c, m, inputs)) <==>
            HaltsAgree(c, m, s, time, inputs, false)
    decreases inputs
  {
    hide Feed, Search, Follow, EndsInLoop, Traceable, Ahead, Run, Taken, Pcs, Jumps, Jump, Undecided;
    var p := c.program;
    if inputs == [] {
      NothingExecuted(c, m);
    } else {
      RunSplits(c, m, inputs);
      var v, rest := Feed(c, m, inputs[0]).vm, inputs[1..];
      if !inputs[0].Execute? {
        SearchIsTrace(c, v, s, time, rest);
      } else {
        PcsLength(c, v, rest);
        if Taken(c, m) {
          TakenAtIf(c, m);
        }
        DecisionsAre(p, m.pc, Taken(c, m), Jumps(c, v, rest));
        PathGoes(p, m.pc, time, s, Jumps(c, m, inputs));
        if Executes(rest) == 0 {
          assert [m.pc] + [] == [m.pc];
        } else {
          StepGoes(c, m, inputs[0].e);
          var (n, s1) := Ahead(p, m.pc, time, s, Taken(c, m));
          AheadGoes(p, m.pc, time, s, Taken(c, m));
          PathStarts(p, n, time + MEAN, s1, Jumps(c, v, rest));
          PrefixCons(m.pc, Pcs(c, v, rest), Follow(p, Search(p, n, time + MEAN, s1).0.value, Jumps(c, v, rest)));
          if v.pc == n {
            SearchIsTrace(c, v, s1, time + MEAN, rest);
          }
        }
      }
    }
  }

  lemma TakenAtIf(c: Config, m: Vm)
    requires Shape(c, m) && m.pc < |c.program| && Taken(c, m)
    ensures c.program[m.pc].typ == IF
  {
  }

  lemma NothingExecuted(c: Config, m: Vm)
    requires Goes(c, m, [])
    ensures Pcs(c, m, []) == []
  {
  }

  lemma AheadGoes(p: seq<Instr>, i: nat, time: int, s: Book, jump: bool)
    requires i < |p| && BookValid(p, s) && (p[i].typ == HALT ==> s.queue != [])
    ensures p[i].typ == IF ==> Ahead(p, i, time, s, jump).0 == if jump then p[i].args[1] else i + 1
    ensures p[i].typ != IF && p[i].typ != HALT ==> Ahead(p, i, time, s, jump).0 == i + 1
    ensures p[i].typ != IF ==> Ahead(p, i, time, s, jump) == Ahead(p, i, time, s, false)
  {
    hide SearchSuccessor, Longest;
  }

  lemma HaltStep(c: Config, m: Vm, s: Book, time: int, inputs: seq<Input>)
    requires Goes(c, m, inputs) && BookValid(c.program, s) && inputs != [] && HaltsAgree(c, m, s, time, inputs, true)
    ensures Feed(c, m, inputs[0]).Next? && Goes(c, Feed(c, m, inputs[0]).vm, inputs[1..])
    ensures var v, rest := Feed(c, m, inputs[0]).vm, inputs[1..];
      if !inputs[0].Execute? then HaltsAgree(c, v, s, time, rest, true)
      else
        && m.pc < |c.program|
        && (c.program[m.pc].typ == HALT ==>
              s.queue != [] && m.queue != [] && Ahead(c.program, m.pc, time, s, false).0 == m.queue[0].jmp)
        && HaltsAgree(c, v, Ahead(c.program, m.pc, time, s, Taken(c, m)).1, time + MEAN, rest, true)
  {
    hide Feed, Ahead, Run;
    GoesOn(c, m, inputs);
  }

  /** When the targets agree at every HALT, a way that is executed to its end ends where the interpreter goes on. */
  lemma {:induction false} SearchEnds(c: Config, m: Vm, s: Book, time: int, inputs: seq<Input>)
    requires c.Valid() && Traceable(c.program) && Goes(c, m, inputs) && BookValid(c.program, s) && m.pc < |c.program|
    requires Search(c.program, m.pc, time, s).0.Some?
    requires var way := Follow(c.program, Search(c.program, m.pc, time, s).0.value, Jumps(c, m, inputs));
      Executes(inputs) == |way|
    requires HaltsAgree(c, m, s, time, inputs, true)
    ensures var t := Search(c.program, m.pc, time, s).0.value;
      var way := Follow(c.program, t, Jumps(c, m, inputs));
      var pc := Run(c, m, inputs).vm.pc;
      && Pcs(c, m, inputs) == way && way != []
      && (if EndsInLoop(c.program, t, Jumps(c, m, inputs)) then pc <= way[|way| - 1] else pc >= |c.program|)
    decreases inputs
  {
    hide Feed, Search, Follow, EndsInLoop, Traceable, Ahead, Run, Taken, Pcs, Jumps, Jump, Undecided, HaltsAgree;
    var p := c.program;
    PathStarts(p, m.pc, time, s, Jumps(c, m, inputs));
    RunSplits(c, m, inputs);
    GoesOn(c, m, inputs);
    HaltStep(c, m, s, time, inputs);
    var v, rest := Feed(c, m, inputs[0]).vm, inputs[1..];
    if !inputs[0].Execute? {
      SearchEnds(c, v, s, time, rest);
    } else {
      PcsLength(c, v, rest);
      if Taken(c, m) {
        TakenAtIf(c, m);
      }
      DecisionsAre(p, m.pc, Taken(c, m), Jumps(c, v, rest));
      PathGoes(p, m.pc, time, s, Jumps(c, m, inputs));
      StepGoes(c, m, inputs[0].e);
      AheadGoes(p, m.pc, time, s, Taken(c, m));
      var (n, s1) := Ahead(p, m.pc, time, s, Taken(c, m));
      if m.pc < n < |p| {
        SearchEnds(c, v, s1, time + MEAN, rest);
      }
    }
  }

  /** The tree is that of the builder that searches. */
  lemma SearchedTree(p: seq<Instr>, i: nat, time: int, b: Book)
    requires i < |p| && BookValid(p, b)
    ensures Build(p, i, time, b).0 == Search(p, i, time, b).0
  {
    hide Build, Search, SameBook;
    SameSelf(p, b);
    BuildRefinesSearch(p, i, time, b, b);
  }

  /**
   For a program over opcodes known to both components, IF included, and any run that goes on, with user writes
   and arriving frames anywhere, and no more instructions executed than the way through the tree is long that
   its guards choose: the program counters are the front of that way if and only if at every HALT that another
   instruction follows, the future with the largest delay has the target of the earliest one.
   */
  lemma PathIsTraceExactly(c: Config, m: Vm, b: Book, time: int, inputs: seq<Input>)
    requires c.Valid() && Traceable(c.program) && Goes(c, m, inputs) && BookValid(c.program, b) && m.pc < |c.program|
    requires Build(c.program, m.pc, time, b).0.Some?
    requires var way := Follow(c.program, Build(c.program, m.pc, time, b).0.value, Jumps(c, m, inputs));
      Executes(inputs) <= |way|
    ensures Pcs(c, m, inputs) <= Follow(c.program, Build(c.program, m.pc, time, b).0.value, Jumps(c, m, inputs)) <==>
            HaltsAgree(c, m, b, time, inputs, false)
  {
    hide Build, Search, Follow, Traceable, Goes, Pcs, Jumps, HaltsAgree;
    SearchedTree(c.program, m.pc, time, b);
    SearchIsTrace(c, m, b, time, inputs);
  }

  /** When they agree at every HALT, a way executed to its end ends in LOOP, or where the run leaves the program. */
  lemma PathEnds(c: Config, m: Vm, b: Book, time: int, inputs: seq<Input>)
    requires c.Valid() && Traceable(c.program) && Goes(c, m, inputs) && BookValid(c.program, b) && m.pc < |c.program|
    requires Build(c.program, m.pc, time, b).0.Some? && HaltsAgree(c, m, b, time, inputs, true)
    requires var way := Follow(c.program, Build(c.program, m.pc, time, b).0.value, Jumps(c, m, inputs));
      Executes(inputs) == |way|
    ensures var t := Build(c.program, m.pc, time, b).0.value;
      var way := Follow(c.program, t, Jumps(c, m, inputs));
      var pc := Run(c, m, inputs).vm.pc;
      && Pcs(c, m, inputs) == way && way != []
      && (if EndsInLoop(c.program, t, Jumps(c, m, inputs)) then pc <= way[|way| - 1] else pc >= |c.program|)
  {
    hide Build, Search, Follow, EndsInLoop, Traceable, Pcs, Jumps, HaltsAgree, Run;
    SearchedTree(c.program, m.pc, time, b);
    SearchEnds(c, m, b, time, inputs);
  }

  // ----- at most one pending future -----

  ghost predicate NoIf(p: seq<Instr>) {
    forall k :: 0 <= k < |p| ==> p[k].typ != IF
  }

  /** The two queues hold the same jump, if any. */
  ghost predicate Agree(p: seq<Instr>, s: Book, m: Vm) {
    && BookValid(p, s)
    && |s.queue| == |m.queue| <= 1
    && (s.queue != [] ==> m.queue[0].jmp == p[s.queue[0]].args[1])
  }

  /** The interpreter never has two futures pending. */
  ghost predicate OnePending(c: Config, m: Vm, inputs: seq<Input>)
    requires Goes(c, m, inputs)
    decreases inputs
  {
    |m.queue| <= 1 &&
    (inputs != [] ==>
       (GoesOn(c, m, inputs); OnePending(c, Feed(c, m, inputs[0]).vm, inputs[1..])))
  }

  lemma PendingNow(c: Config, m: Vm, inputs: seq<Input>)
    requires Goes(c, m, inputs) && OnePending(c, m, inputs)
    ensures |m.queue| <= 1
    ensures inputs != [] ==> Feed(c, m, inputs[0]).Next? && Goes(c, Feed(c, m, inputs[0]).vm, inputs[1..]) &&
                             OnePending(c, Feed(c, m, inputs[0]).vm, inputs[1..])
  {
    hide Feed, Run;
    if inputs != [] {
      GoesOn(c, m, inputs);
    }
  }

  /** A successful FUTURE on an empty queue leaves exactly that future in it. */
  lemma FuturePushes(c: Config, m: Vm, e: Env)
    requires Shape(c, m) && m.pc < |c.program| && c.program[m.pc].typ == FUTURE && Step(c, m, e).Next?
    ensures |Step(c, m, e).vm.queue| == |m.queue| + 1
    ensures m.queue == [] ==> Step(c, m, e).vm.queue[0].jmp == c.program[m.pc].args[1]
  {
    hide BufferShape, GuardValue;
    assert Step(c, m, e) == Finish(FutureEffect(c, m, c.program[m.pc], e));
  }

  lemma OthersKeepQueue(c: Config, m: Vm, e: Env)
    requires Traceable(c.program) && Shape(c, m) && m.pc < |c.program| && Step(c, m, e).Next?
    requires c.program[m.pc].typ !in {FUTURE, HALT, IF}
    ensures Step(c, m, e).vm.queue == m.queue
  {
    hide BufferShape, QueueShape, Handle;
    HandlerOf(c, m, e);
    OthersHandled(c, m, c.program[m.pc], e);
  }

  /** One step of the interpreter goes where the builder goes. */
  lemma StepAgrees(c: Config, m: Vm, e: Env, s: Book, time: int)
    requires c.Valid() && Traceable(c.program) && NoIf(c.program) && Shape(c, m) && Agree(c.program, s, m)
    requires m.pc < |c.program| && Step(c, m, e).Next? && |Step(c, m, e).vm.queue| <= 1
    ensures c.program[m.pc].typ == HALT ==> s.queue != []
    ensures var (n, s1) := Ahead(c.program, m.pc, time, s, false);
      Step(c, m, e).vm.pc == n && Agree(c.program, s1, Step(c, m, e).vm)
  {
    hide Step, Shape, Longest;
    StepGoes(c, m, e);
    if c.program[m.pc].typ == HALT {
      assert Latest(c.program, s.queue, Longest(c.program, s.queue));
      assert Removed(s.queue, 0) == [];
    } else if c.program[m.pc].typ == FUTURE {
      FuturePushes(c, m, e);
      assert s.queue + [m.pc as nat] == [m.pc];
    } else {
      OthersKeepQueue(c, m, e);
    }
  }

  lemma NeverTaken(c: Config, m: Vm)
    requires NoIf(c.program) && Shape(c, m) && m.pc < |c.program|
    ensures !Taken(c, m)
  {
  }

  lemma {:induction false} OnePendingAgrees(c: Config, m: Vm, s: Book, time: int, inputs: seq<Input>, last: bool)
    requires c.Valid() && Traceable(c.program) && NoIf(c.program) && Goes(c, m, inputs) && Agree(c.program, s, m)
    requires OnePending(c, m, inputs)
    ensures HaltsAgree(c, m, s, time, inputs, last)
    decreases inputs
  {
    hide Feed, Traceable, NoIf, Ahead, Run, Taken;
    if inputs != [] {
      GoesOn(c, m, inputs);
      PendingNow(c, m, inputs);
      var v, rest := Feed(c, m, inputs[0]).vm, inputs[1..];
      if !inputs[0].Execute? {
        OnePendingAgrees(c, v, s, time, rest, last);
      } else {
        PendingNow(c, v, rest);
        StepAgrees(c, m, inputs[0].e, s, time);
        StepGoes(c, m, inputs[0].e);
        NeverTaken(c, m);
        OnePendingAgrees(c, v, Ahead(c.program, m.pc, time, s, false).1, time + MEAN, rest, last);
      }
    }
  }

  /**
   Without IF, and as long as at most one future is pending, the single way through the tree is the trace: in
   every run, with user writes and arriving frames anywhere, the counters executed are its front; and after the
   whole of it the counter has gone back to or before its last instruction (LOOP), or has left the program.
   */
  lemma PathIsTrace(c: Config, m: Vm, b: Book, time: int, inputs: seq<Input>)
    requires c.Valid() && Traceable(c.program) && NoIf(c.program) && Goes(c, m, inputs)
    requires m.pc < |c.program| && Agree(c.program, b, m) && Build(c.program, m.pc, time, b).0.Some?
    requires var way := Follow(c.program, Build(c.program, m.pc, time, b).0.value, Jumps(c, m, inputs));
      Executes(inputs) <= |way|
    requires OnePending(c, m, inputs)
    ensures var t := Build(c.program, m.pc, time, b).0.value;
      var way := Follow(c.program, t, Jumps(c, m, inputs));
      var pc := Run(c, m, inputs).vm.pc;
      && Pcs(c, m, inputs) <= way
      && (Executes(inputs) == |way| ==>
            way != [] &&
            if EndsInLoop(c.program, t, Jumps(c, m, inputs)) then pc <= way[|way| - 1] else pc >= |c.program|)
  {
    hide Goes, Traceable, NoIf, Build, Follow, EndsInLoop, Run, Pcs, Jumps, HaltsAgree, OnePending;
    OnePendingAgrees(c, m, b, time, inputs, false);
    OnePendingAgrees(c, m, b, time, inputs, true);
    PathIsTraceExactly(c, m, b, time, inputs);
    if Executes(inputs) == |Follow(c.program, Build(c.program, m.pc, time, b).0.value, Jumps(c, m, inputs))| {
      PathEnds(c, m, b, time, inputs);
    }
  }

  const EMPTY := Book([], map[])

  /** The whole tree of `build_tree` against a run from `init_interpreter`. */
  lemma TreeTracesProgram(c: Config, inputs: seq<Input>)
    requires c.Valid() && Traceable(c.program) && NoIf(c.program) && c.program != []
    requires Goes(c, Init(c), inputs) && OnePending(c, Init(c), inputs) && Build(c.program, 0, 0, EMPTY).0.Some?
    requires var way := Follow(c.program, Build(c.program, 0, 0, EMPTY).0.value, Jumps(c, Init(c), inputs));
      Executes(inputs) <= |way|
    ensures var t := Build(c.program, 0, 0, EMPTY).0.value;
      var way := Follow(c.program, t, Jumps(c, Init(c), inputs));
      var pc := Run(c, Init(c), inputs).vm.pc;
      && Pcs(c, Init(c), inputs) <= way
      && (Executes(inputs) == |way| ==>
            way != [] &&
            if EndsInLoop(c.program, t, Jumps(c, Init(c), inputs)) then pc <= way[|way| - 1] else pc >= |c.program|)
      && WellShaped(c.program, t, -1)
  {
    hide Goes, Build, Follow, EndsInLoop, Run, Pcs, Jumps, OnePending;
    PathIsTrace(c, Init(c), EMPTY, 0, inputs);
    TreeShape(c.program, 0, 0, EMPTY, -1);
  }

  // ----- two pending futures -----

  /** FUTURE `x` to `a`, FUTURE `y` to `b`, HALT. */
  ghost predicate TwoFutures(p: seq<Instr>, x: u32, a: u32, y: u32, b: u32) {
    && Traceable(p) && 2 < a < |p| && 2 < b < |p|
    && p[0].typ == FUTURE && p[0].args[0] == x && p[0].args[1] == a
    && p[1].typ == FUTURE && p[1].args[0] == y && p[1].args[1] == b
    && p[2].typ == HALT
  }

  lemma FutureGoes(p: seq<Instr>, i: nat, time: int, s: Book, jumps: seq<bool>)
    requires Traceable(p) && i + 1 < |p| && p[i].typ == FUTURE && BookValid(p, s) && Search(p, i, time, s).0.Some?
    ensures var s1 := Book(s.queue + [i], s.scheduled[i := time + p[i].args[0]]);
      && BookValid(p, s1) && Search(p, i + 1, time + MEAN, s1).0.Some?
      && Follow(p, Search(p, i, time, s).0.value, jumps) ==
         [i] + Follow(p, Search(p, i + 1, time + MEAN, s1).0.value, jumps)
  {
    hide Search, Follow, EndsInLoop, Traceable;
    PathGoes(p, i, time, s, jumps);
  }

  lemma HaltGoes(p: seq<Instr>, i: nat, time: int, s: Book, jumps: seq<bool>)
    requires Traceable(p) && i < |p| && p[i].typ == HALT && BookValid(p, s) && Search(p, i, time, s).0.Some?
    requires s.queue != [] && i < p[s.queue[Longest(p, s.queue)]].args[1] < |p|
    ensures var path := Follow(p, Search(p, i, time, s).0.value, jumps);
      |path| > 1 && path[0] == i && path[1] == p[s.queue[Longest(p, s.queue)]].args[1]
  {
    hide Search, Follow, EndsInLoop, Traceable, Longest;
    PathGoes(p, i, time, s, jumps);
    var (n, s1) := Ahead(p, i, time, s, false);
    PathStarts(p, n, time + MEAN, s1, jumps);
  }

  /** The builder goes from HALT to the target of the larger delay, of equal ones to that of the second. */
  lemma BuilderTakesLater(p: seq<Instr>, x: u32, a: u32, y: u32, b: u32, jumps: seq<bool>)
    requires TwoFutures(p, x, a, y, b) && Build(p, 0, 0, EMPTY).0.Some?
    ensures var path := Follow(p, Build(p, 0, 0, EMPTY).0.value, jumps);
      |path| > 3 && path[..3] == [0, 1, 2] && path[3] == if x > y then a else b
  {
    hide Build, Search, Follow, Traceable, Longest;
    SearchedTree(p, 0, 0, EMPTY);
    FutureGoes(p, 0, 0, EMPTY, jumps);
    var s1 := Book([] + [0], map[][0 := 0 + p[0].args[0]]);
    FutureGoes(p, 1, MEAN, s1, jumps);
    var s2 := Book([] + [0] + [1], s1.scheduled[1 := MEAN + p[1].args[0]]);
    assert [] + [0] + [1] == [0, 1];
    LongestOfTwo(p);
    HaltGoes(p, 2, MEAN + MEAN, s2, jumps);
  }

  lemma LongestOfTwo(p: seq<Instr>)
    requires |p| > 1
    ensures Longest(p, [0, 1]) == if p[0].args[0] > p[1].args[0] then 0 else 1
  {
    hide Longest;
    var q := [0, 1];
    var k := Longest(p, q);
    assert q[0] == 0 && q[1] == 1;
    assert k < 2 && Delay(p, q[k]) >= Delay(p, q[1 - k]) && (k == 0 ==> Delay(p, q[0]) > Delay(p, q[1]));
  }

  /** One step that executes FUTURE at the time `now`. */
  lemma Schedules(c: Config, m: Vm, e: Env)
    requires c.Valid() && Shape(c, m) && m.pc < |c.program| && c.program[m.pc].typ == FUTURE
    requires c.program[m.pc].args[1] < |c.program| && |m.queue| < c.capacity
    ensures var i := c.program[m.pc];
      Step(c, m, e) == Next(m.(queue := Insert(m.queue, Future(i.args[1], i.args[0], Wrap64(e.pushClock + i.args[0]))),
                               pc := m.pc + 1),
                            [Pushed(Future(i.args[1], i.args[0], Wrap64(e.pushClock + i.args[0])), e.pushClock)])
  {
    hide Insert;
  }

  lemma Takes(c: Config, m: Vm, e: Env)
    requires Shape(c, m) && m.pc < |c.program| && c.program[m.pc].typ == HALT && m.queue != []
    ensures Step(c, m, e).Next? && Step(c, m, e).vm.pc == m.queue[0].jmp
  {
  }

  /** The interpreter goes to the target of the smaller delay, of equal ones to that of the first. */
  lemma InterpreterTakesEarlier(c: Config, x: u32, a: u32, y: u32, b: u32, e: Env)
    requires c.Valid() && c.capacity >= 2 && TwoFutures(c.program, x, a, y, b)
    requires e.pushClock + x < 0x1_0000_0000_0000_0000 && e.pushClock + y < 0x1_0000_0000_0000_0000
    ensures var i := Execute(e);
      && Goes(c, Init(c), [i, i, i]) && Pcs(c, Init(c), [i, i, i]) == [0, 1, 2]
      && Run(c, Init(c), [i, i, i]).vm.pc == if x <= y then a else b
  {
    hide Step, Traceable;
    var i := Execute(e);
    var m := Init(c);
    InitShape(c);
    Schedules(c, m, e);
    FeedKeepsShape(c, m, i);
    var m1 := Step(c, m, e).vm;
    var f, g := Future(a, x, e.pushClock + x), Future(b, y, e.pushClock + y);
    assert m1.queue == [f];
    Schedules(c, m1, e);
    FeedKeepsShape(c, m1, i);
    var m2 := Step(c, m1, e).vm;
    TwoInOrder(f, g);
    Takes(c, m2, e);
    FeedKeepsShape(c, m2, i);
    ThreeInputs(c, m, i, i, i);
  }

  lemma TwoInOrder(f: Future, g: Future)
    ensures Insert([f], g)[0] == if f.expiry <= g.expiry then f else g
  {
  }

  lemma ThreeInputs(c: Config, m: Vm, x: Input, y: Input, z: Input)
    requires Shape(c, m) && x.Execute? && y.Execute? && z.Execute?
    requires Feed(c, m, x).Next? && Shape(c, Feed(c, m, x).vm)
    requires Feed(c, Feed(c, m, x).vm, y).Next? && Shape(c, Feed(c, Feed(c, m, x).vm, y).vm)
    requires Feed(c, Feed(c, Feed(c, m, x).vm, y).vm, z).Next?
    ensures Goes(c, m, [x, y, z])
    ensures var m1 := Feed(c, m, x).vm;
      var m2 := Feed(c, m1, y).vm;
      && Pcs(c, m, [x, y, z]) == [m.pc as int, m1.pc, m2.pc]
      && Run(c, m, [x, y, z]).vm == Feed(c, m2, z).vm
  {
    hide Feed;
    var m1 := Feed(c, m, x).vm;
    var m2 := Feed(c, m1, y).vm;
    FeedKeepsShape(c, m2, z);
    assert [x, y, z][1..] == [y, z] && [y, z][1..] == [z] && [z][1..] == [];
    assert Run(c, m2, [z]).Next?;
    assert Run(c, m1, [y, z]).Next?;
    assert Pcs(c, m2, [z]) == [m2.pc as int];
    assert Pcs(c, m1, [y, z]) == [m1.pc as int, m2.pc];
  }

  /**
   With two futures pending that were pushed at one time the path is never the trace, whatever their delays:
   behind the HALT of such a program the interpreter executes the one target, and the path goes on at the other.
   */
  lemma TwoPendingDiffer(c: Config, x: u32, a: u32, y: u32, b: u32, e: Env, jumps: seq<bool>)
    requires c.Valid() && c.capacity >= 2 && TwoFutures(c.program, x, a, y, b) && a != b
    requires e.pushClock + x < 0x1_0000_0000_0000_0000 && e.pushClock + y < 0x1_0000_0000_0000_0000
    requires Build(c.program, 0, 0, EMPTY).0.Some?
    ensures var i := Execute(e);
      var path := Follow(c.program, Build(c.program, 0, 0, EMPTY).0.value, jumps);
      && Goes(c, Init(c), [i, i, i]) && Pcs(c, Init(c), [i, i, i]) == [0, 1, 2]
      && |path| > 3 && path[..3] == [0, 1, 2]
      && (path[3], Run(c, Init(c), [i, i, i]).vm.pc as int) == if x > y then (a, b) else (b, a)
  {
    hide Build, Follow, Goes, Pcs, Run;
    BuilderTakesLater(c.program, x, a, y, b, jumps);
    InterpreterTakesEarlier(c, x, a, y, b, e);
  }
}
