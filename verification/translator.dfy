/** The translator (ncm_translator/translator.c) and the proof that it preserves meaning. */
module Translator {
  import opened Words
  import opened Bytes
  import opened FutureSpec
  import opened VariableSpaces
  import opened Machine
  import opened Runs
  import opened Hardware

  /** What the translator should produce for an instruction. */
  function Compile(h: HwInstr): Instr {
    match h
    case Nop => Instr(NOP, [0, 0, 0, 0])
    case Create(v) => Instr(CREATE, [v, 0, 0, 0])
    case Send(ch) => Instr(SEND, [ch, 0, 0, 0])
    case Receive(ch, v) => Instr(RECEIVE, [ch, v, 0, 0])
    case Halt => Instr(HALT, [0, 0, 0, 0])
    case Schedule(delay, target) => Instr(FUTURE, [delay, target, 0, 0])
    case If(g, target) => var (code, arg0, arg1) := CompileGuard(g); Instr(IF, [code, target, arg0, arg1])
    case Counter(Keep) => Instr(NOP, [0, 0, 0, 0])
    case Counter(Clear) => Instr(CLEAR_COUNTER, [0, 0, 0, 0])
    case Counter(Increment) => Instr(ADD_TO_COUNTER, [0, 1, 0, 0])
    case Counter(Decrement) => Instr(SUB_FROM_COUNTER, [0, 1, 0, 0])
    case SyncMaster(ch) => Instr(SYNC, [SYNC_MASTER, ch, 0, 0])
    case SyncSlave(timeout) => Instr(SYNC, [1, timeout, 0, 0])
  }

  function CompileGuard(g: Guard): (u32, u32, u32) {
    match g
    case True => (ALWAYS_TRUE, 0, 0)
    case False => (ALWAYS_FALSE, 0, 0)
    case SendBufferEmpty => (SEND_BUFFER_EMPTY, 0, 0)
    case ReceiveBufferEmpty(ch) => (CHANNEL_XY_RCV_BUF_EMPTY, ch, 0)
    case TestCount(value) => (TEST_COUNT, value, 0)
    case StatusTest(mask) => (STATUS_TEST, mask, 0)
    case EqualVars(v1, v2) => (EQUAL_VAR_VAR, v1, v2)
    case GreaterVars(v1, v2) => (GREATER_VAR_VAR, v1, v2)
    case LessVars(v1, v2) => (LESS_VAR_VAR, v1, v2)
    case TestVar(v, p) =>
      (TEST_VAR, v, match p case IsZero => 0 case IsNonzero => 1 case EvenParity => 2 case OddParity => 3)
    case VarQueueEmpty(v) => (VAR_QUEUE_EMPTY, v, 0)
    case VarQueueFull(v) => (VAR_QUEUE_FULL, v, 0)
  }

  /** The instruction that the `pack_` functions fill in through a pointer. */
  class Cell {
    var typ: u8
    var args: Args

    constructor (junk: u8)
      ensures typ == junk && args == [0, 0, 0, 0]
    {
      typ := junk;
      args := [0, 0, 0, 0];
    }

    ghost predicate Is(i: Instr)
      reads this
    {
      typ == i.typ && args == i.args
    }

    method PackGuardArgs(g: u20)
      modifies this`args
      ensures args[1] == old(args[1])
      ensures DecodeGuard(g).Some? && old(args[2]) == 0 && old(args[3]) == 0 ==>
        var (code, arg0, arg1) := CompileGuard(DecodeGuard(g).value);
        args[0] == code && args[2] == arg0 && args[3] == arg1
      ensures DecodeGuard(g) == None ==> args == old(args)
    {
      match Field(g, 0x1_0000, 0x10) {
        case 7 => args := args[0 := ALWAYS_TRUE];
        case 0 => args := args[0 := ALWAYS_FALSE];
        case 1 =>
          if Field(g, 1, 2) == 1 {
            args := args[0 := SEND_BUFFER_EMPTY];
          } else {
            args := args[0 := CHANNEL_XY_RCV_BUF_EMPTY][2 := Byte(g, 0x100)];
          }
        case 2 => args := args[0 := TEST_COUNT][2 := Half(g)];
        case 3 => args := args[0 := STATUS_TEST][2 := Half(g)];
        case 8 => args := args[0 := EQUAL_VAR_VAR][2 := Byte(g, 0x100)][3 := Byte(g, 1)];
        case 9 => args := args[0 := GREATER_VAR_VAR][2 := Byte(g, 0x100)][3 := Byte(g, 1)];
        case 10 => args := args[0 := LESS_VAR_VAR][2 := Byte(g, 0x100)][3 := Byte(g, 1)];
        case 11 =>
          args := args[0 := TEST_VAR][2 := Byte(g, 0x100)];
          if Field(g, 8, 2) == 1 {
            args := args[3 := VAR_IS_NONZERO];
          } else if Field(g, 4, 2) == 1 {
            args := args[3 := VAR_IS_ZERO];
          } else if Field(g, 2, 2) == 1 {
            args := args[3 := VAR_EVEN_PARITY];
          } else if Field(g, 1, 2) == 1 {
            args := args[3 := VAR_ODD_PARITY];
          }
        case 5 => args := args[0 := VAR_QUEUE_EMPTY][2 := Byte(g, 0x100)];
        case 6 => args := args[0 := VAR_QUEUE_FULL][2 := Byte(g, 0x100)];
        case _ =>
      }
    }

    method PackIf(w: u32)
      requires args == [0, 0, 0, 0]
      modifies this
      ensures typ == IF && args[1] == Byte(w, 0x10_0000)
      ensures DecodeGuard(GuardMask(w)).Some? ==>
        Is(Compile(If(DecodeGuard(GuardMask(w)).value, Byte(w, 0x10_0000))))
      ensures DecodeGuard(GuardMask(w)) == None ==> args == [ALWAYS_TRUE, Byte(w, 0x10_0000), 0, 0]
    {
      typ := IF;
      args := args[1 := Byte(w, 0x10_0000)];
      PackGuardArgs(GuardMask(w));
    }

    method PackSync(w: u32)
      requires args == [0, 0, 0, 0]
      modifies this
      ensures Is(Compile(if Field(w, 0x800_0000, 2) == 1 then SyncMaster(Byte(w, 1)) else SyncSlave(Half(w))))
    {
      typ := SYNC;
      if Field(w, 0x800_0000, 2) == 1 {
        args := args[0 := SYNC_MASTER][1 := Byte(w, 1)];
      } else {
        args := args[0 := 1][1 := Half(w)];
      }
    }

    method PackCount(w: u32)
      requires args == [0, 0, 0, 0]
      modifies this
      ensures Is(Compile(Counter(DecodeCount(w))))
    {
      if Field(w, 0x100_0000, 4) == 0 {
        typ := NOP;
      } else if Field(w, 0x100_0000, 4) == 1 {
        typ := CLEAR_COUNTER;
      } else if Field(w, 0x100_0000, 4) == 2 {
        typ := ADD_TO_COUNTER;
        args := args[0 := 0][1 := 1];
      } else if Field(w, 0x100_0000, 4) == 3 {
        typ := SUB_FROM_COUNTER;
        args := args[0 := 0][1 := 1];
      }
    }
  }

  /** A word whose opcode is IF and whose guard type is not assigned. */
  predicate UnassignedGuard(w: u32) {
    Field(w, 0x1000_0000, 0x10) == 7 && DecodeGuard(GuardMask(w)) == None
  }

  /** The guard code and the two guard arguments of a record for an IF word, by the bits of the word. */
  predicate GuardFields(w: u32, code: u32, arg0: u32, arg1: u32) {
    var mid, low, half := w / 0x100 % 0x100, w % 0x100, w % 0x1_0000;
    match w / 0x1_0000 % 0x10
    case 0 => code == 1 && arg0 == 0 && arg1 == 0
    case 1 => if w % 2 == 1 then code == 3 && arg0 == 0 && arg1 == 0 else code == 2 && arg0 == mid && arg1 == 0
    case 2 => code == 4 && arg0 == half && arg1 == 0
    case 3 => code == 5 && arg0 == half && arg1 == 0
    case 5 => code == 10 && arg0 == mid && arg1 == 0
    case 6 => code == 11 && arg0 == mid && arg1 == 0
    case 8 => code == 6 && arg0 == mid && arg1 == low
    case 9 => code == 7 && arg0 == mid && arg1 == low
    case 10 => code == 8 && arg0 == mid && arg1 == low
    case 11 =>
      && code == 9 && arg0 == mid
      && arg1 == if w / 8 % 2 == 1 then 1 else if w / 4 % 2 == 1 then 0
                 else if w / 2 % 2 == 1 then 2 else if w % 2 == 1 then 3 else 0
    case _ => code == 0 && arg0 == 0 && arg1 == 0
  }

  /** The type number and the four arguments of the record for a word with a known opcode, by its bits. */
  predicate RecordFields(w: u32, r: Instr) {
    var target, high, mid, half := w / 0x10_0000 % 0x100, w / 0x1_0000 % 0x100, w / 0x100 % 0x100, w % 0x1_0000;
    match w / 0x1000_0000
    case 0 => r == Instr(15, [0, 0, 0, 0])
    case 1 => r == Instr(4, [mid, 0, 0, 0])
    case 2 => r == Instr(6, [high, 0, 0, 0])
    case 3 => r == Instr(7, [high, mid, 0, 0])
    case 4 => r == Instr(1, [0, 0, 0, 0])
    case 5 => r == Instr(0, [half, target, 0, 0])
    case 7 => r.typ == 2 && r.args[1] == target && GuardFields(w, r.args[0], r.args[2], r.args[3])
    case 8 =>
      r == (match w / 0x100_0000 % 4
            case 0 => Instr(15, [0, 0, 0, 0])
            case 1 => Instr(19, [0, 0, 0, 0])
            case 2 => Instr(18, [0, 1, 0, 0])
            case _ => Instr(20, [0, 1, 0, 0]))
    case 15 => r == Instr(8, if w / 0x800_0000 % 2 == 1 then [0, w % 0x100, 0, 0] else [1, half, 0, 0])
    case _ => true
  }

  lemma GuardBits(w: u32)
    ensures var g := GuardMask(w);
      && Field(g, 0x1_0000, 0x10) == w / 0x1_0000 % 0x10
      && Byte(g, 0x100) == w / 0x100 % 0x100 && Byte(g, 1) == w % 0x100 && Half(g) == w % 0x1_0000
      && Field(g, 1, 2) == w % 2 && Field(g, 2, 2) == w / 2 % 2
      && Field(g, 4, 2) == w / 4 % 2 && Field(g, 8, 2) == w / 8 % 2
  {
    hide Field;
    var g := GuardMask(w);
    WholeField(w, 0x10_0000);
    MaskedField(w, 0x1_0000, 0x10, 1);
    MaskedField(w, 0x100, 0x100, 0x10);
    MaskedField(w, 1, 0x100, 0x1000);
    MaskedField(w, 1, 0x1_0000, 0x10);
    MaskedField(w, 1, 2, 0x8_0000);
    MaskedField(w, 2, 2, 0x4_0000);
    MaskedField(w, 4, 2, 0x2_0000);
    MaskedField(w, 8, 2, 0x1_0000);
    FieldsAre(w);
  }

  lemma WholeField(w: nat, range: nat)
    requires range > 0
    ensures Field(w, 1, range) == w % range
  {
  }

  lemma FieldsAre(w: nat)
    ensures Field(w, 0x1_0000, 0x10) == w / 0x1_0000 % 0x10 && Field(w, 0x100, 0x100) == w / 0x100 % 0x100
    ensures Field(w, 1, 0x100) == w % 0x100 && Field(w, 1, 0x1_0000) == w % 0x1_0000
    ensures Field(w, 1, 2) == w % 2 && Field(w, 2, 2) == w / 2 % 2
    ensures Field(w, 4, 2) == w / 4 % 2 && Field(w, 8, 2) == w / 8 % 2
  {
  }

  lemma CompiledGuardFields(w: u32)
    requires DecodeGuard(GuardMask(w)).Some?
    ensures var (code, arg0, arg1) := CompileGuard(DecodeGuard(GuardMask(w)).value); GuardFields(w, code, arg0, arg1)
  {
    hide Field, Byte, Half, GuardMask;
    GuardBits(w);
  }

  /** The record that the specification asks for has the fields that the bits of the word say. */
  lemma CompiledFields(w: u32, junk: u8)
    ensures Decode(w).Some? ==> RecordFields(w, Compile(Decode(w).value))
    ensures UnassignedGuard(w) ==> RecordFields(w, Compile(If(True, Byte(w, 0x10_0000))))
    ensures Decode(w) == None && !UnassignedGuard(w) ==> RecordFields(w, Instr(junk, [0, 0, 0, 0]))
  {
    hide GuardFields, CompileGuard, DecodeGuard, DecodeCount, Byte, Half, GuardMask;
    OpcodeFields(w);
    if w / 0x1000_0000 == 7 {
      if DecodeGuard(GuardMask(w)).Some? {
        CompiledGuardFields(w);
      } else {
        UnassignedFields(w);
      }
    }
  }

  lemma OpcodeFields(w: u32)
    ensures Field(w, 0x1000_0000, 0x10) == w / 0x1000_0000 && Field(w, 0x800_0000, 2) == w / 0x800_0000 % 2
    ensures Byte(w, 0x10_0000) == w / 0x10_0000 % 0x100 && Byte(w, 0x1_0000) == w / 0x1_0000 % 0x100
    ensures Byte(w, 0x100) == w / 0x100 % 0x100 && Byte(w, 1) == w % 0x100 && Half(w) == w % 0x1_0000
    ensures DecodeCount(w) ==
            match w / 0x100_0000 % 4 case 0 => Keep case 1 => Clear case 2 => Increment case _ => Decrement
  {
  }

  lemma UnassignedFields(w: u32)
    requires DecodeGuard(GuardMask(w)) == None
    ensures CompileGuard(True) == (0, 0, 0) && GuardFields(w, 0, 0, 0)
  {
    hide Field, Byte, Half, GuardMask;
    GuardBits(w);
  }

  /**
   `get_instruction`.  An unassigned guard type turns into an unconditional jump; for an unknown opcode
   the type is whatever the memory held (`junk`).
   */
  method GetInstruction(w: u32, junk: u8) returns (r: Instr)
    ensures Decode(w).Some? ==> r == Compile(Decode(w).value)
    ensures UnassignedGuard(w) ==> r == Compile(If(True, Byte(w, 0x10_0000)))
    ensures Decode(w) == None && !UnassignedGuard(w) ==> r == Instr(junk, [0, 0, 0, 0])
    ensures RecordFields(w, r)
  {
    hide RecordFields, GuardFields;
    CompiledFields(w, junk);
    var cell := new Cell(junk);
    match Field(w, 0x1000_0000, 0x10) {
      case 5 =>
        cell.typ := FUTURE;
        cell.args := cell.args[0 := Half(w)][1 := Byte(w, 0x10_0000)];
      case 4 => cell.typ := HALT;
      case 7 => cell.PackIf(w);
      case 1 =>
        cell.typ := CREATE;
        cell.args := cell.args[0 := Byte(w, 0x100)];
      case 2 =>
        cell.typ := SEND;
        cell.args := cell.args[0 := Byte(w, 0x1_0000)][1 := 0];
      case 3 =>
        cell.typ := RECEIVE;
        cell.args := cell.args[0 := Byte(w, 0x1_0000)][1 := Byte(w, 0x100)];
      case 0 => cell.typ := NOP;
      case 15 => cell.PackSync(w);
      case 8 => cell.PackCount(w);
      case _ =>
    }
    r := Instr(cell.typ, cell.args);
  }

  // ----- meaning is preserved -----

  /**
   TEST_COUNT is translated so that its value becomes a counter id.  At index `k` of the program that keeps
   its meaning for the value 0, and where the jump goes to the next instruction anyway.
   */
  predicate Faithful(c: Config, k: nat, h: HwInstr) {
    h.If? && h.guard.TestCount? ==> h.guard.value == 0 || (h.guard.value < c.counters && h.target == k + 1)
  }

  ghost predicate AllFaithful(c: Config, p: seq<HwInstr>) {
    forall k :: 0 <= k < |p| ==> Faithful(c, k, p[k])
  }

  ghost function Compiled(p: seq<HwInstr>): (q: seq<Instr>)
    ensures |q| == |p| && forall k :: 0 <= k < |p| ==> q[k] == Compile(p[k])
  {
    seq(|p|, k requires 0 <= k < |p| => Compile(p[k]))
  }

  lemma BoundsAgree(c: Config, k: nat, h: HwInstr)
    requires Faithful(c, k, h)
    ensures InBounds(c, Compile(h)) <==> Inside(c, h)
  {
  }

  lemma PropertyAgrees(v: Data, p: Property)
    ensures TestHolds(v, match p case IsZero => 0 case IsNonzero => 1 case EvenParity => 2 case OddParity => 3) <==>
            Satisfies(v, p)
  {
    OnesOfValue(v);
  }

  lemma GuardAgrees(c: Config, m: Vm, g: Guard)
    requires Shape(c, m) && GuardInside(c, g) && (g.TestCount? ==> g.value == 0)
    ensures var (code, arg0, arg1) := CompileGuard(g);
      GuardInBounds(c, code, arg0, arg1) && GuardValue(c, m, code, arg0, arg1) == Some(Holds(c, m, g))
  {
    hide BufferShape, QueueShape, TestHolds, Satisfies, Value, IsErrorSet, Mask16;
    match g {
      case TestVar(v, p) => PropertyAgrees(m.vars[v], p);
      case _ =>
    }
  }

  lemma IfAgrees(c: Config, m: Vm, h: HwInstr, e: Env)
    requires c.Valid() && Shape(c, m) && m.pc < |c.program| && h.If? && Faithful(c, m.pc, h) && Inside(c, h)
    ensures InBounds(c, Compile(h)) && Finish(IfEffect(c, m, Compile(h))) == HwStep(c, |c.program|, m, h, e)
  {
    if h.guard.TestCount? && h.guard.value != 0 {
      assert Wrap32(m.pc + 1) == h.target;
    } else {
      GuardAgrees(c, m, h.guard);
    }
  }

  lemma ScheduleAgrees(c: Config, m: Vm, h: HwInstr, e: Env)
    requires Shape(c, m) && h.Schedule?
    ensures Finish(FutureEffect(c, m, Compile(h), e)) == HwStep(c, |c.program|, m, h, e)
  {
    hide BufferShape, GuardValue, Insert, StableSort, Wrap32, Wrap64;
    if h.target < |c.program| && |m.queue| < c.capacity {
      PushInserts(m.queue, Future(h.target, h.delay, Wrap64(e.pushClock + h.delay)));
    }
  }

  lemma CreateAgrees(c: Config, m: Vm, h: HwInstr, e: Env)
    requires Shape(c, m) && Inside(c, h) && h.Create?
    ensures InBounds(c, Compile(h)) && Finish(CreateEffect(m, Compile(h), e)) == HwStep(c, |c.program|, m, h, e)
  {
  }

  lemma SendAgrees(c: Config, m: Vm, h: HwInstr, e: Env)
    requires Shape(c, m) && Inside(c, h) && h.Send?
    ensures InBounds(c, Compile(h)) && Finish(SendEffect(c, m, Compile(h), e)) == HwStep(c, |c.program|, m, h, e)
  {
  }

  lemma ReceiveAgrees(c: Config, m: Vm, h: HwInstr, e: Env)
    requires Shape(c, m) && Inside(c, h) && h.Receive?
    ensures InBounds(c, Compile(h)) && Finish(ReceiveEffect(m, Compile(h))) == HwStep(c, |c.program|, m, h, e)
  {
    hide SetError, ClearError, BufferShape, QueueShape;
  }

  lemma SyncAgrees(c: Config, m: Vm, h: HwInstr, e: Env)
    requires Shape(c, m) && Inside(c, h) && (h.SyncMaster? || h.SyncSlave?)
    ensures InBounds(c, Compile(h)) && Finish(SyncEffect(m, Compile(h), e)) == HwStep(c, |c.program|, m, h, e)
  {
    hide SetError, ClearError, BufferShape, QueueShape;
  }

  lemma NopAgrees(c: Config, m: Vm, h: HwInstr, e: Env)
    requires Shape(c, m) && (h.Nop? || h == Counter(Keep))
    ensures Handle(c, m, Compile(h), e) == Some(Effect(Ok, m, []))
    ensures Finish(Effect(Ok, m, [])) == HwStep(c, |c.program|, m, h, e)
  {
    hide Shape, GuardValue;
  }

  lemma HaltAgrees(c: Config, m: Vm, e: Env)
    requires Shape(c, m)
    ensures Handle(c, m, Compile(Halt), e) == Some(HaltEffect(m, e))
    ensures Finish(HaltEffect(m, e)) == HwStep(c, |c.program|, m, Halt, e)
  {
    hide BufferShape, QueueShape, GuardValue;
  }

  lemma CounterAgrees(c: Config, m: Vm, op: Count, e: Env)
    requires Shape(c, m) && Inside(c, Counter(op)) && op != Keep
    ensures Handle(c, m, Compile(Counter(op)), e) == Some(CounterEffect(m, 0, Counted(op, m.counters[0])))
    ensures Finish(CounterEffect(m, 0, Counted(op, m.counters[0]))) == HwStep(c, |c.program|, m, Counter(op), e)
  {
    hide BufferShape, QueueShape, GuardValue;
    assert Wrap32(m.counters[0] as int + 1) == Counted(Increment, m.counters[0]);
    assert Wrap32(m.counters[0] as int - 1) == Counted(Decrement, m.counters[0]);
  }

  lemma RestAgrees(c: Config, m: Vm, h: HwInstr, e: Env)
    requires Shape(c, m) && Inside(c, h) && (h.Nop? || h.Halt? || h.Counter?)
    ensures InBounds(c, Compile(h))
    ensures Finish(Handle(c, m, Compile(h), e).value) == HwStep(c, |c.program|, m, h, e)
  {
    hide Shape, Handle, HwStep, Finish;
    match h {
      case Halt => HaltAgrees(c, m, e);
      case Nop => NopAgrees(c, m, h, e);
      case Counter(op) =>
        if op == Keep {
          NopAgrees(c, m, h, e);
        } else {
          CounterAgrees(c, m, op, e);
        }
    }
  }

  /** One translated instruction does what the hardware instruction does; the interpreter has a handler for it. */
  lemma InstructionAgrees(c: Config, m: Vm, h: HwInstr, e: Env)
    requires Shape(c, m) && m.pc < |c.program| && c.program[m.pc] == Compile(h)
    requires c.Valid() && Faithful(c, m.pc, h) && Inside(c, h)
    ensures Step(c, m, e) == HwStep(c, |c.program|, m, h, e)
    ensures Handle(c, m, Compile(h), e).Some?
  {
    hide HwStep, Finish;
    BoundsAgree(c, m.pc, h);
    match h {
      case If(_, _) => IfAgrees(c, m, h, e);
      case Schedule(_, _) => ScheduleAgrees(c, m, h, e);
      case Create(_) => CreateAgrees(c, m, h, e);
      case Send(_) => SendAgrees(c, m, h, e);
      case Receive(_, _) => ReceiveAgrees(c, m, h, e);
      case SyncMaster(_) => SyncAgrees(c, m, h, e);
      case SyncSlave(_) => SyncAgrees(c, m, h, e);
      case _ => RestAgrees(c, m, h, e);
    }
  }

  lemma FeedAgrees(c: Config, p: seq<HwInstr>, m: Vm, i: Input)
    requires c.Valid() && Shape(c, m) && Possible(c, i) && c.program == Compiled(p) && AllFaithful(c, p)
    ensures Feed(c, m, i) == HwFeed(c, p, m, i)
  {
    if i.Execute? && m.pc < |p| {
      assert Faithful(c, m.pc, p[m.pc]);
      BoundsAgree(c, m.pc, p[m.pc]);
      if Inside(c, p[m.pc]) {
        InstructionAgrees(c, m, p[m.pc], i.e);
      }
    }
  }

  /**
   Translation preserves meaning: for every hardware program whose TEST_COUNT guards are translated
   faithfully, every sequence of environment inputs drives the translated program through exactly the
   run that the hardware program has, with instruction `i` becoming record `i`.
   */
  lemma {:induction false} TranslationPreservesRuns(c: Config, p: seq<HwInstr>, m: Vm, inputs: seq<Input>)
    requires c.Valid() && Shape(c, m) && c.program == Compiled(p) && AllFaithful(c, p)
    requires forall k :: 0 <= k < |inputs| ==> Possible(c, inputs[k])
    ensures Run(c, m, inputs) == HwRun(c, p, m, inputs)
    decreases inputs
  {
    if inputs != [] {
      FeedAgrees(c, p, m, inputs[0]);
      FeedKeepsShape(c, m, inputs[0]);
      var o := Feed(c, m, inputs[0]);
      if o.Next? {
        TranslationPreservesRuns(c, p, o.vm, inputs[1..]);
      }
    }
  }

  /**
   The exact condition on TEST_COUNT: in a program of a module with counters, the record at `k` does in all
   states what the hardware instruction does if and only if the value is 0, or the counter of that number
   exists and the jump goes to the next instruction.
   */
  lemma TestCountFaithfulExactly(c: Config, k: u32, value: u16, target: u8)
    requires c.Valid() && c.counters > 0 && k < |c.program| && c.program[k] == Compile(If(TestCount(value), target))
    ensures Faithful(c, k, If(TestCount(value), target)) <==>
      forall m, e :: Shape(c, m) && m.pc == k ==>
        Step(c, m, e) == HwStep(c, |c.program|, m, If(TestCount(value), target), e)
  {
    hide Shape, HwStep, Step;
    var h := If(TestCount(value), target);
    if Faithful(c, k, h) {
      forall m, e | Shape(c, m) && m.pc == k
        ensures Step(c, m, e) == HwStep(c, |c.program|, m, h, e)
      {
        InstructionAgrees(c, m, h, e);
      }
    } else {
      TestCountDiffers(c, k, value, target);
    }
  }

  /** With all counters at 0 the translated guard is true, and the hardware's is not. */
  lemma TestCountDiffers(c: Config, k: u32, value: u16, target: u8)
    requires c.Valid() && c.counters > 0 && k < |c.program| && c.program[k] == Compile(If(TestCount(value), target))
    requires !Faithful(c, k, If(TestCount(value), target))
    ensures var m := Init(c).(pc := k);
      var e := Env(0, 0, seq(12, _ => 0), 0, 0, []);
      Shape(c, m) && Step(c, m, e) != HwStep(c, |c.program|, m, If(TestCount(value), target), e)
  {
    InitShape(c);
    var m := Init(c).(pc := k);
    assert !Holds(c, m, TestCount(value));
    if value < c.counters {
      assert GuardValue(c, m, TEST_COUNT, value, 0) == Some(true);
    }
  }

  /** The interpreter has a handler for every translated instruction, and knows every translated guard. */
  lemma CompiledIsKnown(c: Config, m: Vm, h: HwInstr, e: Env)
    requires Shape(c, m) && InBounds(c, Compile(h))
    ensures Handle(c, m, Compile(h), e).Some? && Compile(h).typ != END_OF_PROGRAM
    ensures var i := Compile(h); h.If? ==>
      && GuardValue(c, m, i.args[0], i.args[2], i.args[3]) != None
      && IfEffect(c, m, i).status != Error
  {
  }

  /**
   No run of a translated program, TEST_COUNT guards included, stops with INVALID_INSTR: it stops only with
   an error of a handler, and never that of an IF (`CompiledIsKnown`).
   */
  lemma {:induction false} TranslatedNeverInvalid(c: Config, p: seq<HwInstr>, m: Vm, inputs: seq<Input>)
    requires Shape(c, m) && c.program == Compiled(p)
    requires forall k :: 0 <= k < |inputs| ==> Possible(c, inputs[k])
    ensures var o := Run(c, m, inputs); o.Stopped? ==> o.code == PROGRAM_ERROR
    decreases inputs
  {
    hide Shape, Handle, GuardValue, Compile, InBounds;
    if inputs != [] {
      FeedKeepsShape(c, m, inputs[0]);
      if inputs[0].Execute? && m.pc < |p| && InBounds(c, c.program[m.pc]) {
        CompiledIsKnown(c, m, p[m.pc], inputs[0].e);
      }
      var o := Feed(c, m, inputs[0]);
      if o.Next? {
        TranslatedNeverInvalid(c, p, o.vm, inputs[1..]);
      }
    }
  }
}
