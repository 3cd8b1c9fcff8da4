/** The two programs that hax.h builds into the module, and the proof that they never stop. */
module BuiltinPrograms {
  import opened Words
  import opened FutureSpec
  import opened Machine
  import opened Runs

  const SYNC_SLAVE := 1

  ghost predicate Is(i: Instr, typ: u8, arg0: u32, arg1: u32) {
    i.typ == typ && i.args[0] == arg0 && i.args[1] == arg1
  }

  /** The program of TYPE_ARCH1; fields that `make_program` leaves unset may hold anything. */
  ghost predicate IsArch1(p: seq<Instr>) {
    && |p| == 9
    && Is(p[0], CREATE, 0, 0)
    && Is(p[1], SEND, 0, 0)
    && Is(p[2], SYNC, SYNC_MASTER, 0)
    && Is(p[3], FUTURE, 100000, 5)
    && p[4].typ == HALT
    && Is(p[5], RECEIVE, 0, 1)
    && Is(p[6], CREATE, 0, 0)
    && Is(p[7], SEND, 0, 0)
    && Is(p[8], IF, ALWAYS_TRUE, 3)
  }

  /** The program of TYPE_ARCH2. */
  ghost predicate IsArch2(p: seq<Instr>) {
    && |p| == 7
    && Is(p[0], SYNC, SYNC_SLAVE, 10000000)
    && Is(p[1], CREATE, 0, 0)
    && Is(p[2], SEND, 0, 0)
    && Is(p[3], FUTURE, 100000, 5)
    && p[4].typ == HALT
    && Is(p[5], RECEIVE, 0, 1)
    && Is(p[6], IF, ALWAYS_TRUE, 1)
  }

  // ----- make_program -----

  /** Writes the type and the first two arguments of one instruction; the other two keep their memory. */
  method Fill(instructions: array<Instr>, i: nat, typ: u8, arg0: u32, arg1: u32)
    requires i < instructions.Length
    modifies instructions
    ensures Is(instructions[i], typ, arg0, arg1)
    ensures forall k :: 0 <= k < instructions.Length && k != i ==> instructions[k] == old(instructions[k])
  {
    instructions[i] := instructions[i].(typ := typ);
    instructions[i] := instructions[i].(args := instructions[i].args[0 := arg0]);
    instructions[i] := instructions[i].(args := instructions[i].args[1 := arg1]);
  }

  method MakeArch1(instructions: array<Instr>)
    requires instructions.Length == 9
    modifies instructions
    ensures IsArch1(instructions[..])
  {
    var i := 0;
    Fill(instructions, i, CREATE, 0, 0);
    i := i + 1;
    Fill(instructions, i, SEND, 0, 0);
    i := i + 1;
    Fill(instructions, i, SYNC, SYNC_MASTER, 0);
    i := i + 1;
    Fill(instructions, i, FUTURE, 100000, 5);
    i := i + 1;
    instructions[i] := instructions[i].(typ := HALT);
    i := i + 1;
    Fill(instructions, i, RECEIVE, 0, 1);
    i := i + 1;
    Fill(instructions, i, CREATE, 0, 0);
    i := i + 1;
    Fill(instructions, i, SEND, 0, 0);
    i := i + 1;
    Fill(instructions, i, IF, ALWAYS_TRUE, 3);
  }

  method MakeArch2(instructions: array<Instr>)
    requires instructions.Length == 7
    modifies instructions
    ensures IsArch2(instructions[..])
  {
    var i := 0;
    Fill(instructions, i, SYNC, SYNC_SLAVE, 10000000);
    i := i + 1;
    Fill(instructions, i, CREATE, 0, 0);
    i := i + 1;
    Fill(instructions, i, SEND, 0, 0);
    i := i + 1;
    Fill(instructions, i, FUTURE, 100000, 5);
    i := i + 1;
    instructions[i] := instructions[i].(typ := HALT);
    i := i + 1;
    Fill(instructions, i, RECEIVE, 0, 1);
    i := i + 1;
    Fill(instructions, i, IF, ALWAYS_TRUE, 1);
  }

  // ----- they run forever -----

  /** Room for what the programs name, and a device on the channel. */
  ghost predicate Suits(c: Config) {
    c.Valid() && c.variables >= 2 && c.messages >= 1 && |c.channels| == 1 && c.channels[0].device != None
  }

  /** The driver never reports an error. */
  ghost predicate DriverWorks(i: Input) {
    i.Execute? ==> i.e.xmit >= 0
  }

  /** One future exactly between FUTURE and HALT, a message exactly between CREATE and SEND. */
  ghost predicate Invariant(c: Config, m: Vm, sends: set<u32>)
    requires c.messages >= 1
  {
    && Shape(c, m)
    && m.pc < |c.program|
    && (if m.pc == 4 then |m.queue| == 1 && m.queue[0].jmp == 5 else m.queue == [])
    && (m.pc in sends ==> m.slots[0] != None)
  }

  lemma EnvironmentKeepsInvariant(c: Config, m: Vm, i: Input, sends: set<u32>)
    requires c.messages >= 1 && Invariant(c, m, sends) && !i.Execute? && Possible(c, i)
    ensures Feed(c, m, i).Next? && Invariant(c, Feed(c, m, i).vm, sends)
  {
    FeedKeepsShape(c, m, i);
  }

  /** The step leads to `pc` and leaves the queue alone. */
  ghost predicate Reaches(m: Vm, o: Outcome, pc: nat) {
    o.Next? && o.vm.pc == pc && o.vm.queue == m.queue
  }

  lemma CreateStep(c: Config, m: Vm, e: Env)
    requires Suits(c) && Shape(c, m) && m.pc < |c.program| && Is(c.program[m.pc], CREATE, 0, 0)
    ensures var o := Step(c, m, e); Reaches(m, o, m.pc + 1) && o.vm.slots[0] != None
  {
  }

  lemma SendStep(c: Config, m: Vm, e: Env)
    requires Suits(c) && Shape(c, m) && m.pc < |c.program| && Is(c.program[m.pc], SEND, 0, 0)
    requires m.slots[0] != None && e.xmit >= 0
    ensures Reaches(m, Step(c, m, e), m.pc + 1)
  {
  }

  lemma SyncStep(c: Config, m: Vm, e: Env)
    requires Suits(c) && Shape(c, m) && m.pc < |c.program| && c.program[m.pc].typ == SYNC
    requires c.program[m.pc].args[0] == SYNC_MASTER ==> c.program[m.pc].args[1] == 0
    ensures Reaches(m, Step(c, m, e), m.pc + 1)
  {
  }

  lemma FutureStep(c: Config, m: Vm, e: Env)
    requires Suits(c) && Shape(c, m) && 5 < |c.program| && m.pc < |c.program|
    requires Is(c.program[m.pc], FUTURE, 100000, 5) && m.queue == []
    ensures var o := Step(c, m, e); o.Next? && o.vm.pc == m.pc + 1 && |o.vm.queue| == 1 && o.vm.queue[0].jmp == 5
  {
    assert Insert([], Future(5, 100000, Wrap64(e.pushClock + 100000)))[0].jmp == 5;
  }

  lemma HaltStep(c: Config, m: Vm, e: Env)
    requires Suits(c) && Shape(c, m) && m.pc < |c.program| && c.program[m.pc].typ == HALT && |m.queue| == 1
    ensures var o := Step(c, m, e); o.Next? && o.vm.pc == m.queue[0].jmp && o.vm.queue == []
  {
  }

  lemma ReceiveStep(c: Config, m: Vm, e: Env)
    requires Suits(c) && Shape(c, m) && m.pc < |c.program| && Is(c.program[m.pc], RECEIVE, 0, 1)
    ensures Reaches(m, Step(c, m, e), m.pc + 1)
  {
  }

  lemma JumpStep(c: Config, m: Vm, e: Env, target: u32)
    requires Suits(c) && Shape(c, m) && m.pc < |c.program| && Is(c.program[m.pc], IF, ALWAYS_TRUE, target)
    ensures Reaches(m, Step(c, m, e), target)
  {
  }

  lemma Arch1Step(c: Config, m: Vm, e: Env)
    requires Suits(c) && IsArch1(c.program) && Invariant(c, m, {1, 7})
    requires c.program[m.pc].typ == SEND ==> e.xmit >= 0
    ensures var o := Step(c, m, e); o.Next? && Invariant(c, o.vm, {1, 7})
  {
    FeedKeepsShape(c, m, Execute(e));
    match m.pc {
      case 0 => CreateStep(c, m, e);
      case 1 => SendStep(c, m, e);
      case 2 => SyncStep(c, m, e);
      case 3 => FutureStep(c, m, e);
      case 4 => HaltStep(c, m, e);
      case 5 => ReceiveStep(c, m, e);
      case 6 => CreateStep(c, m, e);
      case 7 => SendStep(c, m, e);
      case 8 => JumpStep(c, m, e, 3);
      case _ =>
    }
  }

  lemma Arch2Step(c: Config, m: Vm, e: Env)
    requires Suits(c) && IsArch2(c.program) && Invariant(c, m, {2})
    requires c.program[m.pc].typ == SEND ==> e.xmit >= 0
    ensures var o := Step(c, m, e); o.Next? && Invariant(c, o.vm, {2})
  {
    FeedKeepsShape(c, m, Execute(e));
    match m.pc {
      case 0 => SyncStep(c, m, e);
      case 1 => CreateStep(c, m, e);
      case 2 => SendStep(c, m, e);
      case 3 => FutureStep(c, m, e);
      case 4 => HaltStep(c, m, e);
      case 5 => ReceiveStep(c, m, e);
      case 6 => JumpStep(c, m, e, 1);
      case _ =>
    }
  }

  /** The input makes the program execute a SEND that the driver answers with an error. */
  ghost predicate Refused(c: Config, m: Vm, i: Input) {
    i.Execute? && m.pc < |c.program| && c.program[m.pc].typ == SEND && i.e.xmit < 0
  }

  /** The driver refuses some SEND of the run. */
  ghost predicate EverRefused(c: Config, m: Vm, inputs: seq<Input>)
    requires Shape(c, m) && forall k :: 0 <= k < |inputs| ==> Possible(c, inputs[k])
    decreases inputs
  {
    inputs != [] &&
    (FeedKeepsShape(c, m, inputs[0]);
     Refused(c, m, inputs[0]) ||
     (Feed(c, m, inputs[0]).Next? && EverRefused(c, Feed(c, m, inputs[0]).vm, inputs[1..])))
  }

  /** The built-in program with the addresses of its SEND instructions. */
  ghost predicate Builtin(c: Config, sends: set<u32>) {
    Suits(c) && ((IsArch1(c.program) && sends == {1, 7}) || (IsArch2(c.program) && sends == {2}))
  }

  lemma RefusedSendStops(c: Config, m: Vm, e: Env, sends: set<u32>)
    requires Builtin(c, sends) && Invariant(c, m, sends) && Refused(c, m, Execute(e))
    ensures var o := Step(c, m, e); o.Stopped? && o.code == PROGRAM_ERROR
  {
    assert m.pc in sends && Is(c.program[m.pc], SEND, 0, 0);
    assert Handle(c, m, c.program[m.pc], e) == Some(SendEffect(c, m, c.program[m.pc], e));
  }

  lemma InputKeepsInvariant(c: Config, m: Vm, i: Input, sends: set<u32>)
    requires Builtin(c, sends) && Invariant(c, m, sends) && Possible(c, i) && !Refused(c, m, i)
    ensures Feed(c, m, i).Next? && Invariant(c, Feed(c, m, i).vm, sends)
  {
    if !i.Execute? {
      EnvironmentKeepsInvariant(c, m, i, sends);
    } else if IsArch1(c.program) {
      Arch1Step(c, m, i.e);
    } else {
      Arch2Step(c, m, i.e);
    }
  }

  /**
   In every state that a built-in program reaches, and so over whole runs: it stops if and only if the driver
   refuses a frame that one of its SEND instructions hands over, and then with PROGRAM_ERROR.
   */
  lemma {:induction false} StopsExactlyWhenRefused(c: Config, m: Vm, inputs: seq<Input>, sends: set<u32>)
    requires Builtin(c, sends) && Invariant(c, m, sends)
    requires forall k :: 0 <= k < |inputs| ==> Possible(c, inputs[k])
    ensures var o := Run(c, m, inputs);
      && !o.Undefined?
      && (o.Stopped? <==> EverRefused(c, m, inputs))
      && (o.Stopped? ==> o.code == PROGRAM_ERROR)
      && (o.Next? ==> Invariant(c, o.vm, sends))
    decreases inputs
  {
    if inputs != [] {
      hide Builtin, Step;
      var i := inputs[0];
      FeedKeepsShape(c, m, i);
      if Refused(c, m, i) {
        RefusedSendStops(c, m, i.e, sends);
      } else {
        InputKeepsInvariant(c, m, i, sends);
        StopsExactlyWhenRefused(c, Feed(c, m, i).vm, inputs[1..], sends);
      }
    }
  }

  lemma {:induction false} WorkingDriverNeverRefuses(c: Config, m: Vm, inputs: seq<Input>)
    requires Shape(c, m) && forall k :: 0 <= k < |inputs| ==> Possible(c, inputs[k]) && DriverWorks(inputs[k])
    ensures !EverRefused(c, m, inputs)
    decreases inputs
  {
    if inputs != [] {
      FeedKeepsShape(c, m, inputs[0]);
      assert DriverWorks(inputs[0]);
      if Feed(c, m, inputs[0]).Next? {
        WorkingDriverNeverRefuses(c, Feed(c, m, inputs[0]).vm, inputs[1..]);
      }
    }
  }

  ghost function SendsOf(c: Config): set<u32> {
    if IsArch1(c.program) then {1, 7} else {2}
  }

  /** From `init_interpreter`: a run of a built-in program stops exactly when the driver refuses a frame. */
  lemma DriverErrorStops(c: Config, inputs: seq<Input>)
    requires Suits(c) && (IsArch1(c.program) || IsArch2(c.program))
    requires forall k :: 0 <= k < |inputs| ==> Possible(c, inputs[k])
    ensures Shape(c, Init(c))
    ensures var o := Run(c, Init(c), inputs);
      && (o.Next? <==> !EverRefused(c, Init(c), inputs))
      && (!o.Next? ==> o.Stopped? && o.code == PROGRAM_ERROR)
      && (o.Next? ==> |o.vm.queue| <= 1 && o.vm.pc < |c.program|)
  {
    hide Run, EverRefused;
    InitShape(c);
    StopsExactlyWhenRefused(c, Init(c), inputs, SendsOf(c));
  }

  /**
   Both programs run forever: whatever the clock, the sync packets, the arriving frames and the users
   do, as long as the driver accepts frames, no finite run stops, and the queue never holds more than
   one future.
   */
  lemma BuiltinProgramsNeverStop(c: Config, inputs: seq<Input>)
    requires Suits(c) && (IsArch1(c.program) || IsArch2(c.program))
    requires forall k :: 0 <= k < |inputs| ==> Possible(c, inputs[k]) && DriverWorks(inputs[k])
    ensures Shape(c, Init(c))
    ensures var o := Run(c, Init(c), inputs); o.Next? && |o.vm.queue| <= 1 && o.vm.pc < |c.program|
  {
    hide Run, EverRefused, Possible;
    InitShape(c);
    assert forall k :: 0 <= k < |inputs| ==> Possible(c, inputs[k]);
    WorkingDriverNeverRefuses(c, Init(c), inputs);
    DriverErrorStops(c, inputs);
  }
}
