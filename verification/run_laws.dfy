/** What every run of the machine does, told by the type numbers and arguments of the instructions (bytecodes.h). */
module RunLaws {
  import opened Words
  import opened FutureSpec
  import opened Machine
  import opened Runs

  ghost predicate PossibleAll(c: Config, inputs: seq<Input>) {
    forall k :: 0 <= k < |inputs| ==> Possible(c, inputs[k])
  }

  // ----- why a run stops -----

  /** The code with which the thread returns at the instruction that comes next, if it does. */
  function StopCode(c: Config, m: Vm, e: Env): Option<int>
    requires m.pc < |c.program| && |m.slots| == c.messages && InBounds(c, c.program[m.pc])
  {
    var i := c.program[m.pc];
    if i.typ == 16 then Some(0)
    else if i.typ == 0 || i.typ == 11 then
      if i.args[1] >= |c.program| || |m.queue| == c.capacity then Some(1) else None
    else if i.typ == 1 then (if m.queue == [] then Some(1) else None)
    else if i.typ == 2 then (if i.args[0] > 11 then Some(1) else None)
    else if i.typ == 6 then
      (if c.channels[i.args[0]].device == None || m.slots[i.args[1]] == None || e.xmit < 0 then Some(1) else None)
    else if i.typ == 10 then (if i.args[0] >= |c.program| then Some(1) else None)
    else if i.typ in {4, 7, 8, 15, 17, 18, 19, 20} then None
    else Some(2)
  }

  lemma StepStops(c: Config, m: Vm, e: Env)
    requires Shape(c, m) && m.pc < |c.program| && InBounds(c, c.program[m.pc])
    ensures var o := Step(c, m, e);
      && (o.Stopped? <==> StopCode(c, m, e).Some?) && (o.Next? <==> StopCode(c, m, e) == None)
      && (o.Stopped? ==> StopCode(c, m, e) == Some(o.code))
  {
    hide BufferShape, QueueShape, Insert;
  }

  /** The thread stops at instruction `n` of the inputs, and why. */
  ghost predicate StopsAt(c: Config, m: Vm, inputs: seq<Input>, n: nat, code: int)
    requires Shape(c, m) && PossibleAll(c, inputs)
  {
    n < |inputs| && inputs[n].Execute? &&
    (FrontPossible(c, inputs, n);
     RunShape(c, m, inputs[..n]);
     var o := Run(c, m, inputs[..n]);
     && o.Next? && o.vm.pc < |c.program| && InBounds(c, c.program[o.vm.pc])
     && StopCode(c, o.vm, inputs[n].e) == Some(code))
  }

  lemma FrontPossible(c: Config, inputs: seq<Input>, n: nat)
    requires PossibleAll(c, inputs) && n <= |inputs|
    ensures PossibleAll(c, inputs[..n])
  {
  }

  lemma {:induction false} RunShape(c: Config, m: Vm, inputs: seq<Input>)
    requires Shape(c, m) && PossibleAll(c, inputs)
    ensures Run(c, m, inputs).Next? ==> Shape(c, Run(c, m, inputs).vm)
    decreases inputs
  {
    hide Shape, Feed, Possible;
    if inputs != [] {
      FeedKeepsShape(c, m, inputs[0]);
      if Feed(c, m, inputs[0]).Next? {
        RunShape(c, Feed(c, m, inputs[0]).vm, inputs[1..]);
      }
    }
  }

  /** The run behind its first input. */
  lemma RunBehind(c: Config, m: Vm, inputs: seq<Input>, n: nat)
    requires Shape(c, m) && PossibleAll(c, inputs) && inputs != [] && Feed(c, m, inputs[0]).Next? && n < |inputs|
    ensures var v := Feed(c, m, inputs[0]).vm;
      && Shape(c, v) && PossibleAll(c, inputs[1..])
      && PossibleAll(c, inputs[..n + 1]) && PossibleAll(c, inputs[1..][..n])
      && (Run(c, m, inputs[..n + 1]).Next? <==> Run(c, v, inputs[1..][..n]).Next?)
      && (Run(c, m, inputs[..n + 1]).Next? ==> Run(c, m, inputs[..n + 1]).vm == Run(c, v, inputs[1..][..n]).vm)
  {
    hide Shape, Feed, Possible;
    FeedKeepsShape(c, m, inputs[0]);
    assert inputs[..n + 1][0] == inputs[0] && inputs[..n + 1][1..] == inputs[1..][..n];
    assert inputs[1..][..n] == inputs[1..n + 1];
  }

  lemma StopsAtBehind(c: Config, m: Vm, inputs: seq<Input>, n: nat, code: int)
    requires Shape(c, m) && PossibleAll(c, inputs) && inputs != [] && Feed(c, m, inputs[0]).Next?
    ensures Shape(c, Feed(c, m, inputs[0]).vm) && PossibleAll(c, inputs[1..])
    ensures StopsAt(c, m, inputs, n + 1, code) <==> StopsAt(c, Feed(c, m, inputs[0]).vm, inputs[1..], n, code)
  {
    hide Shape, Feed, Run, StopCode, Possible;
    FeedKeepsShape(c, m, inputs[0]);
    var v := Feed(c, m, inputs[0]).vm;
    TailPossible(c, inputs);
    if n + 1 < |inputs| {
      RunBehind(c, m, inputs, n);
      FrontPossible(c, inputs, n + 1);
      FrontPossible(c, inputs[1..], n);
      RunShape(c, m, inputs[..n + 1]);
      RunShape(c, v, inputs[1..][..n]);
      assert inputs[1..][n] == inputs[n + 1];
    }
  }

  lemma TailPossible(c: Config, inputs: seq<Input>)
    requires PossibleAll(c, inputs) && inputs != []
    ensures PossibleAll(c, inputs[1..])
  {
  }

  lemma StopsAtFirst(c: Config, m: Vm, inputs: seq<Input>, code: int)
    requires Shape(c, m) && PossibleAll(c, inputs) && inputs != []
    ensures StopsAt(c, m, inputs, 0, code) <==>
            && inputs[0].Execute? && m.pc < |c.program| && InBounds(c, c.program[m.pc])
            && StopCode(c, m, inputs[0].e) == Some(code)
  {
    hide Shape, Feed, StopCode;
    assert inputs[..0] == [];
    RunOfNothing(c, m);
  }

  lemma FirstInput(c: Config, m: Vm, i: Input)
    requires Shape(c, m) && Possible(c, i)
    ensures Feed(c, m, i).Undefined? <==> i.Execute? && !(m.pc < |c.program| && InBounds(c, c.program[m.pc]))
    ensures !i.Execute? ==> Feed(c, m, i).Next?
    ensures i.Execute? ==> Feed(c, m, i) == Step(c, m, i.e)
  {
    hide Handle, Shape;
  }

  /**
   Exactly why a run stops, and with which code: it has come to an instruction that ends it, END_OF_PROGRAM with
   PROGRAM_OK, a type without a handler with INVALID_INSTR, or with PROGRAM_ERROR a jump outside the program, a full
   or an empty queue, an unknown guard, or a frame that cannot be sent.
   */
  lemma {:induction false} StopsExactly(c: Config, m: Vm, inputs: seq<Input>, code: int)
    requires Shape(c, m) && PossibleAll(c, inputs)
    ensures var o := Run(c, m, inputs);
      o.Stopped? && o.code == code <==> exists n :: 0 <= n < |inputs| && StopsAt(c, m, inputs, n, code)
    decreases inputs
  {
    hide Shape, Feed, StopsAt, Step, Possible, PossibleAll;
    if inputs == [] {
      RunOfNothing(c, m);
    } else {
      AllPossible(c, inputs);
      FirstInput(c, m, inputs[0]);
      StopsAtFirst(c, m, inputs, code);
      RunSteps(c, m, inputs);
      if inputs[0].Execute? && m.pc < |c.program| && FirstInBounds(c, m) {
        StepStops(c, m, inputs[0].e);
      }
      if Feed(c, m, inputs[0]).Next? {
        FeedKeepsShape(c, m, inputs[0]);
        TailPossible(c, inputs);
        var v := Feed(c, m, inputs[0]).vm;
        StopsExactly(c, v, inputs[1..], code);
        forall n: nat
          ensures StopsAt(c, m, inputs, n + 1, code) <==> StopsAt(c, v, inputs[1..], n, code)
        {
          StopsAtBehind(c, m, inputs, n, code);
        }
        LaterStops(c, m, inputs, v, code);
      } else {
        NotLater(c, m, inputs, code);
      }
    }
  }

  ghost predicate FirstInBounds(c: Config, m: Vm)
    requires m.pc < |c.program|
  {
    InBounds(c, c.program[m.pc])
  }

  lemma AllPossible(c: Config, inputs: seq<Input>)
    requires PossibleAll(c, inputs) && inputs != []
    ensures Possible(c, inputs[0]) && forall k :: 0 <= k < |inputs| ==> Possible(c, inputs[k])
  {
  }

  lemma RunSteps(c: Config, m: Vm, inputs: seq<Input>)
    requires Shape(c, m) && PossibleAll(c, inputs) && inputs != []
    ensures Feed(c, m, inputs[0]).Next? ==> Shape(c, Feed(c, m, inputs[0]).vm) && PossibleAll(c, inputs[1..])
    ensures Run(c, m, inputs) == match Feed(c, m, inputs[0])
                                 case Next(v, ev) => Prefixed(ev, Run(c, v, inputs[1..]))
                                 case other => other
  {
    hide Shape, Feed, Possible;
    FeedKeepsShape(c, m, inputs[0]);
    TailPossible(c, inputs);
  }

  /** Stops behind the first input are stops of the rest. */
  lemma LaterStops(c: Config, m: Vm, inputs: seq<Input>, v: Vm, code: int)
    requires Shape(c, m) && PossibleAll(c, inputs) && inputs != [] && Shape(c, v) && PossibleAll(c, inputs[1..])
    requires forall n: nat :: StopsAt(c, m, inputs, n + 1, code) <==> StopsAt(c, v, inputs[1..], n, code)
    ensures (exists n :: 0 <= n < |inputs| && StopsAt(c, m, inputs, n, code)) <==>
            || StopsAt(c, m, inputs, 0, code)
            || exists n :: 0 <= n < |inputs[1..]| && StopsAt(c, v, inputs[1..], n, code)
  {
    hide StopsAt;
    if exists n :: 0 <= n < |inputs| && StopsAt(c, m, inputs, n, code) {
      var n :| 0 <= n < |inputs| && StopsAt(c, m, inputs, n, code);
      if n > 0 {
        assert StopsAt(c, m, inputs, (n - 1) + 1, code);
        assert StopsAt(c, v, inputs[1..], n - 1, code);
      }
    }
    if exists n :: 0 <= n < |inputs[1..]| && StopsAt(c, v, inputs[1..], n, code) {
      var n :| 0 <= n < |inputs[1..]| && StopsAt(c, v, inputs[1..], n, code);
      assert StopsAt(c, m, inputs, n + 1, code);
    }
  }

  /** Where the first input ends the run nothing stops it later. */
  lemma NotLater(c: Config, m: Vm, inputs: seq<Input>, code: int)
    requires Shape(c, m) && PossibleAll(c, inputs) && inputs != [] && !Feed(c, m, inputs[0]).Next?
    ensures forall n :: 0 < n < |inputs| ==> !StopsAt(c, m, inputs, n, code)
  {
    hide Shape, Feed, StopCode, Possible;
    forall n | 0 < n < |inputs|
      ensures !StopsAt(c, m, inputs, n, code)
    {
      FrontPossible(c, inputs, n);
      RunSteps(c, m, inputs[..n]);
      assert inputs[..n][0] == inputs[0];
    }
  }

  /** In particular a run that executes END_OF_PROGRAM ends there, with PROGRAM_OK, whatever comes after. */
  lemma EndOfProgramStops(c: Config, m: Vm, inputs: seq<Input>, e: Env, more: seq<Input>)
    requires Shape(c, m) && PossibleAll(c, inputs) && PossibleAll(c, more)
    requires var o := Run(c, m, inputs); o.Next? && o.vm.pc < |c.program| && c.program[o.vm.pc].typ == 16
    ensures PossibleAll(c, inputs + [Execute(e)] + more)
    ensures var o, end := Run(c, m, inputs), Run(c, m, inputs + [Execute(e)] + more);
      end == Stopped(0, o.vm, o.events)
  {
    var o, i := Run(c, m, inputs), Execute(e);
    RunExtends(c, m, inputs, i);
    assert Feed(c, o.vm, i) == Stopped(0, o.vm, []);
    assert o.events + [] == o.events;
    RunStopsEarly(c, m, inputs + [i], more);
  }

  // ----- where a run goes -----

  /** The counter behind the instruction that comes next, when it does not end the run. */
  ghost function NextPc(c: Config, m: Vm, e: Env): int
    requires Shape(c, m) && m.pc < |c.program| && InBounds(c, c.program[m.pc]) && StopCode(c, m, e) == None
  {
    var i := c.program[m.pc];
    if i.typ == 1 then m.queue[0].jmp
    else if i.typ == 10 then i.args[0]
    else if i.typ == 11 then
      // the earliest of the queue and the new future, the new one last among equals
      var expiry := (e.pushClock + i.args[0]) % 0x1_0000_0000_0000_0000;
      if m.queue != [] && m.queue[0].expiry <= expiry then m.queue[0].jmp else i.args[1]
    else if i.typ == 2 && GuardValue(c, m, i.args[0], i.args[2], i.args[3]) == Some(true) then i.args[1]
    else m.pc + 1
  }

  lemma WaitGoesTo(c: Config, m: Vm, e: Env)
    requires c.Valid() && Shape(c, m) && m.pc < |c.program| && InBounds(c, c.program[m.pc])
    requires StopCode(c, m, e) == None && c.program[m.pc].typ == 11
    ensures WaitEffect(c, m, c.program[m.pc], e).status == ChangePc
    ensures WaitEffect(c, m, c.program[m.pc], e).vm.pc == NextPc(c, m, e)
  {
    hide BufferShape, QueueShape;
  }

  lemma HandlerGoesTo(c: Config, m: Vm, e: Env)
    requires c.Valid() && Shape(c, m) && m.pc < |c.program| && InBounds(c, c.program[m.pc])
    requires StopCode(c, m, e) == None && c.program[m.pc].typ != 11
    ensures var h := Handle(c, m, c.program[m.pc], e);
      && h.Some?
      && h.value.status != Error
      && (h.value.status == ChangePc ==> h.value.vm.pc == NextPc(c, m, e))
      && (h.value.status == Ok ==> h.value.vm.pc == m.pc && NextPc(c, m, e) == m.pc + 1)
  {
    hide BufferShape, QueueShape, Insert;
  }

  lemma StepGoesTo(c: Config, m: Vm, e: Env)
    requires c.Valid() && Shape(c, m) && m.pc < |c.program| && InBounds(c, c.program[m.pc])
    requires StopCode(c, m, e) == None
    ensures Step(c, m, e).Next? && Step(c, m, e).vm.pc == NextPc(c, m, e)
  {
    hide Shape, InBounds, WaitEffect, NextPc;
    StepStops(c, m, e);
    if c.program[m.pc].typ == 11 {
      WaitGoesTo(c, m, e);
    } else {
      hide Handle;
      HandlerGoesTo(c, m, e);
    }
  }
}
