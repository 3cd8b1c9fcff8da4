/** When does the program counter stay inside the program?  A static check, and why it is the exact one. */
module Safety {
  import opened Words
  import opened Bytes
  import opened Frames
  import opened Machine
  import opened Runs

  // ----- the static check -----

  /** Some state makes the guard true. */
  predicate MayHold(guard: u32, arg0: u32, arg1: u32) {
    match guard
    case 0 => true
    case 2 => true
    case 4 => true
    case 5 => arg0 % 0x1_0000 != 0
    case 6 => true
    case 7 => arg0 != arg1
    case 8 => arg0 != arg1
    case 9 => arg1 < 4
    case _ => false
  }

  /** Some state makes the guard false. */
  predicate MayFail(guard: u32, arg0: u32, arg1: u32) {
    match guard
    case 0 => false
    case 6 => arg0 != arg1
    case _ => guard < 12
  }

  /** Some state lets the instruction complete so that the next one follows. */
  predicate MayFallThrough(c: Config, i: Instr) {
    match i.typ
    case 0 => i.args[1] < |c.program|
    case 2 => MayFail(i.args[0], i.args[2], i.args[3])
    case 6 => i.args[0] < |c.channels| && c.channels[i.args[0]].device != None
    case _ => i.typ in {CREATE, RECEIVE, SYNC, NOP, SET_COUNTER, ADD_TO_COUNTER, CLEAR_COUNTER, SUB_FROM_COUNTER}
  }

  predicate WellFormedAt(c: Config, k: nat)
    requires k < |c.program|
  {
    var i := c.program[k];
    && InBounds(c, i)
    && (MayFallThrough(c, i) ==> k + 1 < |c.program|)
    && (i.typ == IF && MayHold(i.args[0], i.args[2], i.args[3]) ==> i.args[1] < |c.program|)
  }

  ghost predicate WellFormed(c: Config) {
    && c.Valid()
    && 0 < |c.program|
    && (forall k :: 0 <= k < |c.program| ==> WellFormedAt(c, k))
  }

  /** No access outside the arrays, and the next instruction exists. */
  ghost predicate Safe(c: Config, o: Outcome) {
    !o.Undefined? && (o.Next? ==> o.vm.pc < |c.program|)
  }

  // ----- the check suffices -----

  lemma GuardRespectsCheck(c: Config, m: Vm, guard: u32, arg0: u32, arg1: u32)
    requires Shape(c, m) && GuardInBounds(c, guard, arg0, arg1)
    ensures GuardValue(c, m, guard, arg0, arg1) == Some(true) ==> MayHold(guard, arg0, arg1)
    ensures GuardValue(c, m, guard, arg0, arg1) == Some(false) ==> MayFail(guard, arg0, arg1)
  {
    if guard == STATUS_TEST && arg0 % 0x1_0000 == 0 {
      assert Mask16(arg0) == 0;
      assert m.errorBits & 0 == 0;
    }
  }

  /** A handler lets the next instruction follow, or jumps, only where the check expects it. */
  lemma HandleRespectsCheck(c: Config, m: Vm, i: Instr, e: Env)
    requires Shape(c, m) && InBounds(c, i) && Handle(c, m, i, e).Some?
    ensures var h := Handle(c, m, i, e).value;
      && (h.status == Ok ==> MayFallThrough(c, i) && h.vm.pc == m.pc)
      && (h.status == ChangePc ==>
            h.vm.pc < |c.program| || (i.typ == IF && MayHold(i.args[0], i.args[2], i.args[3]) && h.vm.pc == i.args[1]))
  {
    if i.typ == IF {
      GuardRespectsCheck(c, m, i.args[0], i.args[2], i.args[3]);
    } else if i.typ == HALT {
      HaltKeepsQueueShape(c, m, e);
    } else if i.typ == WAIT {
      FutureKeepsQueueShape(c, m, i, e);
      HaltKeepsQueueShape(c, FutureEffect(c, m, i, e).vm, e);
    }
  }

  lemma StepSafe(c: Config, m: Vm, e: Env)
    requires c.Valid() && Shape(c, m) && m.pc < |c.program| && WellFormedAt(c, m.pc)
    ensures Safe(c, Step(c, m, e))
  {
    var i := c.program[m.pc];
    if Handle(c, m, i, e).Some? {
      HandleRespectsCheck(c, m, i, e);
    }
  }

  lemma {:induction false} RunSafe(c: Config, m: Vm, inputs: seq<Input>)
    requires WellFormed(c) && Shape(c, m) && m.pc < |c.program|
    requires forall k :: 0 <= k < |inputs| ==> Possible(c, inputs[k])
    ensures var o := Run(c, m, inputs); Safe(c, o) && (o.Next? ==> Shape(c, o.vm))
    decreases inputs
  {
    if inputs != [] {
      FeedKeepsShape(c, m, inputs[0]);
      if inputs[0].Execute? {
        assert WellFormedAt(c, m.pc);
        StepSafe(c, m, inputs[0].e);
      }
      var o := Feed(c, m, inputs[0]);
      if o.Next? {
        RunSafe(c, o.vm, inputs[1..]);
      }
    }
  }

  /**
   A well-formed program never leaves its arrays: under all environment answers, all writes and all
   arriving frames, every reachable program counter and every queued jump lies inside the program.
   */
  lemma ProgramCounterStaysInside(c: Config, inputs: seq<Input>)
    requires WellFormed(c) && forall k :: 0 <= k < |inputs| ==> Possible(c, inputs[k])
    ensures Shape(c, Init(c))
    ensures var o := Run(c, Init(c), inputs);
      && !o.Undefined?
      && (o.Next? ==>
            && o.vm.pc < |c.program|
            && forall k :: 0 <= k < |o.vm.queue| ==> o.vm.queue[k].jmp < |c.program|)
  {
    InitShape(c);
    RunSafe(c, Init(c), inputs);
  }

  // ----- the check is exact -----

  const ZERO_FRAME: Frame := seq(14, _ => 0)
  const ANSWERS := Env(0, 0, seq(12, _ => 0), 0, 0, [])

  function At(c: Config, k: u32): Vm {
    Init(c).(pc := k)
  }

  lemma AtShape(c: Config, k: u32)
    requires c.Valid()
    ensures Shape(c, At(c, k))
  {
  }

  lemma SmallValues()
    ensures Value([]) == 0 && Value([1]) == 1 && Ones(0) == 0 && Ones(1) == 1
  {
    assert Value([1]) == 1 * Pow256(0) + Value([1][1..]);
    assert Ones(1) == 1 % 2 + Ones(0);
  }

  /** A state in which the guard is true. */
  lemma HoldWitness(c: Config, k: u32, guard: u32, arg0: u32, arg1: u32) returns (m: Vm)
    requires c.Valid() && GuardInBounds(c, guard, arg0, arg1) && MayHold(guard, arg0, arg1)
    ensures Shape(c, m) && m.pc == k && GuardValue(c, m, guard, arg0, arg1) == Some(true)
  {
    AtShape(c, k);
    SmallValues();
    m := At(c, k);
    match guard {
      case 4 => m := m.(counters := m.counters[arg0 := arg1]);
      case 5 =>
        m := m.(errorBits := 0xFFFF);
        MaskNonzero(arg0);
      case 7 => m := m.(vars := m.vars[arg0 := [1]]);
      case 8 => m := m.(vars := m.vars[arg1 := [1]]);
      case 9 => m := if arg1 == 1 || arg1 == 3 then m.(vars := m.vars[arg0 := [1]]) else m;
      case _ =>
    }
  }

  lemma MaskNonzero(x: u32)
    requires x % 0x1_0000 != 0
    ensures Mask16(x) != 0 && (0xFFFF as bv16) & Mask16(x) == Mask16(x)
  {
    AllOnesMask(Mask16(x));
  }

  lemma AllOnesMask(b: bv16)
    ensures (0xFFFF as bv16) & b == b
  {
  }

  /** A state in which the guard is false. */
  lemma FailWitness(c: Config, k: u32, guard: u32, arg0: u32, arg1: u32) returns (m: Vm)
    requires c.Valid() && GuardInBounds(c, guard, arg0, arg1) && MayFail(guard, arg0, arg1)
    ensures Shape(c, m) && m.pc == k && GuardValue(c, m, guard, arg0, arg1) == Some(false)
  {
    AtShape(c, k);
    SmallValues();
    m := At(c, k);
    match guard {
      case 2 => m := m.(rx := m.rx[arg0 := [ZERO_FRAME]]);
      case 4 => m := m.(counters := m.counters[arg0 := if arg1 == 0 then 1 else 0]);
      case 5 => assert (0 as bv16) & Mask16(arg0) == 0;
      case 6 => m := m.(vars := m.vars[arg0 := [1]]);
      case 9 => m := if arg1 == 0 || arg1 == 2 then m.(vars := m.vars[arg0 := [1]]) else m;
      case _ =>
    }
  }

  /** A state from which the instruction at `k` falls through. */
  lemma FallThroughWitness(c: Config, k: u32) returns (m: Vm)
    requires c.Valid() && k < |c.program| && InBounds(c, c.program[k]) && MayFallThrough(c, c.program[k])
    ensures Shape(c, m) && m.pc == k
    ensures var o := Step(c, m, ANSWERS); o.Next? && o.vm.pc == k + 1
  {
    var i := c.program[k];
    AtShape(c, k);
    m := At(c, k);
    if i.typ == IF {
      m := FailWitness(c, k, i.args[0], i.args[2], i.args[3]);
    } else if i.typ == SEND {
      m := m.(slots := m.slots[i.args[1] := Some(ZERO_FRAME)]);
      assert SendEffect(c, m, i, ANSWERS).status == Ok;
    } else {
      OthersComplete(c, k, i);
    }
    assert Handle(c, m, i, ANSWERS).Some? && Handle(c, m, i, ANSWERS).value.status == Ok;
  }

  lemma OthersComplete(c: Config, k: u32, i: Instr)
    requires c.Valid() && InBounds(c, i) && MayFallThrough(c, i) && i.typ != IF && i.typ != SEND
    ensures Shape(c, At(c, k))
    ensures var h := Handle(c, At(c, k), i, ANSWERS); h.Some? && h.value.status == Ok && h.value.vm.pc == k
  {
    AtShape(c, k);
  }

  /** A state from which one step at an ill-formed instruction goes wrong. */
  lemma UnsafeWitness(c: Config, k: u32) returns (m: Vm)
    requires c.Valid() && k < |c.program| && !WellFormedAt(c, k)
    ensures Shape(c, m) && m.pc == k && !Safe(c, Step(c, m, ANSWERS))
  {
    var i := c.program[k];
    if !InBounds(c, i) {
      AtShape(c, k);
      m := At(c, k);
    } else if MayFallThrough(c, i) && k + 1 >= |c.program| {
      m := FallThroughWitness(c, k);
    } else {
      m := HoldWitness(c, k, i.args[0], i.args[2], i.args[3]);
    }
  }

  /**
   The check at `k` holds exactly if no state with the right array sizes and queue can go wrong in one
   step at `k`.  In particular a conditional jump needs its target checked: `handle_if` does not.
   */
  lemma CheckIsExact(c: Config, k: u32)
    requires c.Valid() && k < |c.program|
    ensures WellFormedAt(c, k) <==> forall m, e :: Shape(c, m) && m.pc == k ==> Safe(c, Step(c, m, e))
  {
    if WellFormedAt(c, k) {
      forall m, e | Shape(c, m) && m.pc == k
        ensures Safe(c, Step(c, m, e))
      {
        StepSafe(c, m, e);
      }
    } else {
      var m := UnsafeWitness(c, k);
    }
  }
}
