/**
 The Network Code virtual machine as a transition function.  One step executes one instruction; what
 the environment answers (clock readings, the driver, a sync packet, unset memory) is an input.
 */
module Machine {
  import opened Words
  import opened Bytes
  import opened FutureSpec
  import opened VariableSpaces
  import opened Frames
  import opened Sync

  // Instruction types (bytecodes.h).
  const FUTURE := 0
  const HALT := 1
  const IF := 2
  const CREATE := 4
  const SEND := 6
  const RECEIVE := 7
  const SYNC := 8
  const GOTO := 10
  const WAIT := 11
  const NOP := 15
  const END_OF_PROGRAM := 16
  const SET_COUNTER := 17
  const ADD_TO_COUNTER := 18
  const CLEAR_COUNTER := 19
  const SUB_FROM_COUNTER := 20

  // Guards (guards.h).
  const ALWAYS_TRUE := 0
  const ALWAYS_FALSE := 1
  const CHANNEL_XY_RCV_BUF_EMPTY := 2
  const SEND_BUFFER_EMPTY := 3
  const TEST_COUNT := 4
  const STATUS_TEST := 5
  const EQUAL_VAR_VAR := 6
  const GREATER_VAR_VAR := 7
  const LESS_VAR_VAR := 8
  const TEST_VAR := 9
  const VAR_QUEUE_EMPTY := 10
  const VAR_QUEUE_FULL := 11

  const SYNC_MASTER := 0

  const PROGRAM_OK := 0
  const PROGRAM_ERROR := 1
  const INVALID_INSTR := 2

  const ERR_BIT_SYNC_TIMEOUT := 15
  const ERR_BIT_RCV_FAULT := 10

  const NC_ENOIF := 36

  type Args = a: seq<u32> | |a| == 4 witness [0, 0, 0, 0]

  datatype Instr = Instr(typ: u8, args: Args)

  /** A channel: the peer it listens to, and the address of its device if the device exists. */
  datatype Channel = Channel(peer: Mac, device: Option<Mac>)

  /** What does not change while the interpreter thread runs. */
  datatype Config = Config(
    program: seq<Instr>,
    capacity: nat,
    counters: nat,
    variables: nat,
    messages: nat,
    channels: seq<Channel>)
  {
    ghost predicate Valid() {
      |program| < 0x1_0000_0000 && 1 <= capacity <= 255
    }
  }

  datatype Vm = Vm(
    pc: u32,
    queue: seq<Future>,
    counters: seq<u32>,
    errorBits: bv16,
    vars: seq<Data>,
    slots: seq<Option<Frame>>,
    rx: seq<seq<Frame>>)

  /** Answers of the environment to one step; the last two are for the wait of a slave SYNC. */
  datatype Env = Env(pushClock: u64, haltClock: u64, junk: Junk, xmit: int, syncStart: int, attempts: seq<Attempt>)

  datatype Event =
    | Pushed(f: Future, at: u64)
    | Took(f: Future, at: u64)
    | Sent(frame: Frame)

  datatype Handled = Ok | Error | ChangePc

  /** `Undefined` stands for an access outside one of the arrays, where the C program has no meaning. */
  datatype Outcome =
    | Next(vm: Vm, events: seq<Event>)
    | Stopped(code: int, vm: Vm, events: seq<Event>)
    | Undefined

  /** The state after `init_interpreter`, all other memory of the module being zero. */
  function Init(c: Config): Vm {
    Vm(0, [], seq(c.counters, _ => 0), 0, seq(c.variables, _ => []), seq(c.messages, _ => None),
       seq(|c.channels|, _ => []))
  }

  /** The queue is in order, fits its ring, and jumps into the program. */
  ghost predicate QueueShape(c: Config, q: seq<Future>) {
    && |q| <= c.capacity
    && Sorted(q)
    && (forall k :: 0 <= k < |q| ==> q[k].jmp < |c.program|)
  }

  /** Variables and received frames fit their buffers. */
  ghost predicate BufferShape(c: Config, m: Vm) {
    && (forall v :: 0 <= v < |m.vars| ==> |m.vars[v]| <= MAX_VAR_SIZE_BYTES)
    && (forall ch, k :: 0 <= ch < |m.rx| && 0 <= k < |m.rx[ch]| ==> |m.rx[ch][k]| <= ETH_DATA_LEN)
  }

  /** Array sizes, buffer sizes and queue addresses are as the program's data structures demand. */
  ghost predicate Shape(c: Config, m: Vm) {
    && |m.counters| == c.counters
    && |m.vars| == c.variables
    && |m.slots| == c.messages
    && |m.rx| == |c.channels|
    && QueueShape(c, m.queue)
    && BufferShape(c, m)
  }

  // ----- error bits -----

  function SetError(bits: bv16, bit: nat): bv16
    requires bit < 16
  {
    bits | ((1 as bv16) << bit)
  }

  function ClearError(bits: bv16, bit: nat): bv16
    requires bit < 16
  {
    bits & !((1 as bv16) << bit)
  }

  function IsErrorSet(bits: bv16, mask: bv16): bool {
    bits & mask != 0
  }

  function Mask16(x: u32): bv16 {
    (x % 0x1_0000) as bv16
  }

  // ----- guards -----

  /** The ids a guard uses lie inside the arrays. */
  predicate GuardInBounds(c: Config, guard: u32, arg0: u32, arg1: u32) {
    && (guard == CHANNEL_XY_RCV_BUF_EMPTY ==> arg0 < |c.channels|)
    && (guard == TEST_COUNT ==> arg0 < c.counters)
    && (guard in {EQUAL_VAR_VAR, GREATER_VAR_VAR, LESS_VAR_VAR} ==> arg0 < c.variables && arg1 < c.variables)
    && (guard == TEST_VAR ==> arg0 < c.variables)
  }

  /** The meaning of a guard; `None` is INVALID_GUARD. */
  ghost function GuardValue(c: Config, m: Vm, guard: u32, arg0: u32, arg1: u32): Option<bool>
    requires Shape(c, m) && GuardInBounds(c, guard, arg0, arg1)
  {
    match guard
    case 0 => Some(true)
    case 1 => Some(false)
    case 2 => Some(m.rx[arg0] == [])
    case 3 => Some(false)
    case 4 => Some(m.counters[arg0] == arg1)
    case 5 => Some(IsErrorSet(m.errorBits, Mask16(arg0)))
    case 6 => Some(Value(m.vars[arg0]) == Value(m.vars[arg1]))
    case 7 => Some(Value(m.vars[arg0]) > Value(m.vars[arg1]))
    case 8 => Some(Value(m.vars[arg0]) < Value(m.vars[arg1]))
    case 9 => Some(TestHolds(m.vars[arg0], arg1))
    case 10 => Some(false)
    case 11 => Some(false)
    case _ => None
  }

  // ----- instructions -----

  /** The ids an instruction uses lie inside the arrays. */
  predicate InBounds(c: Config, i: Instr) {
    match i.typ
    case 2 => GuardInBounds(c, i.args[0], i.args[2], i.args[3])
    case 4 => i.args[0] < c.variables && i.args[1] < c.messages
    case 6 => i.args[0] < |c.channels| && i.args[1] < c.messages
    case 7 => i.args[0] < |c.channels| && i.args[1] < c.variables
    case 8 => i.args[0] == SYNC_MASTER ==> i.args[1] < |c.channels|
    case 17 => i.args[0] < c.counters
    case 18 => i.args[0] < c.counters
    case 19 => i.args[0] < c.counters
    case 20 => i.args[0] < c.counters
    case _ => true
  }

  /** What a handler returns: its status, the new state, and the events it caused. */
  datatype Effect = Effect(status: Handled, vm: Vm, events: seq<Event>)

  function FutureEffect(c: Config, m: Vm, i: Instr, e: Env): Effect {
    if i.args[1] >= |c.program| || |m.queue| == c.capacity then Effect(Error, m, [])
    else
      var f := Future(i.args[1], i.args[0], Wrap64(e.pushClock + i.args[0]));
      Effect(Ok, m.(queue := Insert(m.queue, f)), [Pushed(f, e.pushClock)])
  }

  function HaltEffect(m: Vm, e: Env): Effect {
    if m.queue == [] then Effect(Error, m, [])
    else Effect(ChangePc, m.(queue := m.queue[1..], pc := m.queue[0].jmp), [Took(m.queue[0], e.haltClock)])
  }

  function WaitEffect(c: Config, m: Vm, i: Instr, e: Env): Effect {
    var future := FutureEffect(c, m, i, e);
    if future.status != Ok then future
    else
      var halt := HaltEffect(future.vm, e);
      Effect(halt.status, halt.vm, future.events + halt.events)
  }

  function CreateEffect(m: Vm, i: Instr, e: Env): Effect
    requires i.args[0] < |m.vars| && i.args[1] < |m.slots|
  {
    Effect(Ok, m.(slots := m.slots[i.args[1] := Some(Assemble(e.junk, m.vars[i.args[0]]))]), [])
  }

  function SendEffect(c: Config, m: Vm, i: Instr, e: Env): Effect
    requires i.args[0] < |c.channels| && i.args[1] < |m.slots|
  {
    var slot := m.slots[i.args[1]];
    if c.channels[i.args[0]].device == None || slot == None then Effect(Error, m, [])
    else
      Effect(if e.xmit >= 0 then Ok else Error,
             m.(slots := m.slots[i.args[1] := None]),
             [Sent(Address(slot.value, BROADCAST, c.channels[i.args[0]].device.value))])
  }

  function ReceiveEffect(m: Vm, i: Instr): Effect
    requires i.args[0] < |m.rx| && i.args[1] < |m.vars|
  {
    var q := m.rx[i.args[0]];
    if q == [] then Effect(Ok, m.(errorBits := SetError(m.errorBits, ERR_BIT_RCV_FAULT)), [])
    else
      Effect(Ok,
             m.(vars := m.vars[i.args[1] := Payload(q[0])],
                rx := m.rx[i.args[0] := q[1..]],
                errorBits := ClearError(m.errorBits, ERR_BIT_RCV_FAULT)),
             [])
  }

  ghost function SyncEffect(m: Vm, i: Instr, e: Env): Effect {
    if i.args[0] == SYNC_MASTER then Effect(Ok, m, [])
    else if Answered(e.syncStart, i.args[1], e.attempts) then
      Effect(Ok, m.(errorBits := ClearError(m.errorBits, ERR_BIT_SYNC_TIMEOUT)), [])
    else Effect(Ok, m.(errorBits := SetError(m.errorBits, ERR_BIT_SYNC_TIMEOUT)), [])
  }

  function CounterEffect(m: Vm, id: u32, value: int): Effect
    requires id < |m.counters|
  {
    Effect(Ok, m.(counters := m.counters[id := Wrap32(value)]), [])
  }

  ghost function IfEffect(c: Config, m: Vm, i: Instr): Effect
    requires Shape(c, m) && GuardInBounds(c, i.args[0], i.args[2], i.args[3])
  {
    match GuardValue(c, m, i.args[0], i.args[2], i.args[3])
    case None => Effect(Error, m, [])
    case Some(true) => Effect(ChangePc, m.(pc := i.args[1]), [])
    case Some(false) => Effect(Ok, m, [])
  }

  /** Result of the handler that the main loop selects; `None` for a type no handler exists for. */
  ghost function Handle(c: Config, m: Vm, i: Instr, e: Env): Option<Effect>
    requires Shape(c, m) && InBounds(c, i)
  {
    match i.typ
    case 0 => Some(FutureEffect(c, m, i, e))
    case 1 => Some(HaltEffect(m, e))
    case 2 => Some(IfEffect(c, m, i))
    case 4 => Some(CreateEffect(m, i, e))
    case 6 => Some(SendEffect(c, m, i, e))
    case 7 => Some(ReceiveEffect(m, i))
    case 8 => Some(SyncEffect(m, i, e))
    case 10 =>
      Some(if i.args[0] >= |c.program| then Effect(Error, m, []) else Effect(ChangePc, m.(pc := i.args[0]), []))
    case 11 => Some(WaitEffect(c, m, i, e))
    case 15 => Some(Effect(Ok, m, []))
    case 17 => Some(CounterEffect(m, i.args[0], i.args[1]))
    case 18 => Some(CounterEffect(m, i.args[0], m.counters[i.args[0]] as int + i.args[1]))
    case 19 => Some(CounterEffect(m, i.args[0], 0))
    case 20 => Some(CounterEffect(m, i.args[0], m.counters[i.args[0]] as int - i.args[1]))
    case _ => None
  }

  /** What the main loop makes of a handler's result. */
  function Finish(h: Effect): Outcome {
    match h.status
    case Ok => Next(h.vm.(pc := Wrap32(h.vm.pc + 1)), h.events)
    case Error => Stopped(PROGRAM_ERROR, h.vm, h.events)
    case ChangePc => Next(h.vm, h.events)
  }

  /** One turn of the main loop. */
  ghost function Step(c: Config, m: Vm, e: Env): Outcome
    requires Shape(c, m)
  {
    if m.pc >= |c.program| || !InBounds(c, c.program[m.pc]) then Undefined
    else if c.program[m.pc].typ == END_OF_PROGRAM then Stopped(PROGRAM_OK, m, [])
    else
      match Handle(c, m, c.program[m.pc], e)
      case None => Stopped(INVALID_INSTR, m, [])
      case Some(h) => Finish(h)
  }
}
