/** The interpreter (interpreter.c, guards.c, counter.c): every handler does what the machine's step says. */
module Interpreters {
  import opened Words
  import opened Bytes
  import opened FutureSpec
  import opened FutureQueues
  import opened VariableSpaces
  import opened Frames
  import opened Machine
  import opened Runs
  import opened Network
  import opened Sync

  /** The array of counters; arithmetic wraps at 32 bits. */
  class CounterArray {
    const at: array<u32>

    constructor (count: nat)
      ensures at.Length == count && fresh(at) && forall k :: 0 <= k < count ==> at[k] == 0
    {
      at := new u32[count](_ => 0);
    }

    method Reset(id: nat)
      requires id < at.Length
      modifies at
      ensures at[..] == old(at[..])[id := 0]
    {
      at[id] := 0;
    }

    method Set(id: nat, value: u32)
      requires id < at.Length
      modifies at
      ensures at[..] == old(at[..])[id := value]
    {
      at[id] := value;
    }

    method Add(id: nat, amount: u32)
      requires id < at.Length
      modifies at
      ensures at[..] == old(at[..])[id := Wrap32(old(at[id]) as int + amount)]
    {
      at[id] := Wrap32(at[id] as int + amount);
    }

    method Sub(id: nat, amount: u32)
      requires id < at.Length
      modifies at
      ensures at[..] == old(at[..])[id := Wrap32(old(at[id]) as int - amount)]
    {
      at[id] := Wrap32(at[id] as int - amount);
    }
  }

  /** How long a HALT on this queue sleeps, if it does, at the time `now`. */
  ghost predicate Slept(queue: seq<Future>, now: u64, slept: Option<u64>) {
    if queue == [] then slept == None
    else
      var overflow := if now <= queue[0].expiry then 0 else 0x1_0000_0000_0000_0000;
      slept.Some? && now + slept.value == queue[0].expiry + overflow
  }

  class Interpreter {
    const program: seq<Instr>
    const futureQueue: FutureQueue
    const variableSpace: VariableSpace
    const counters: CounterArray
    const network: Net
    var programCounter: u32
    var errorBits: bv16
    /** Frames handed to the driver so far. */
    var transmitted: seq<Frame>

    ghost function Repr(): set<object> {
      {this, futureQueue, futureQueue.at, counters, counters.at, network} + variableSpace.Repr
    }

    ghost predicate Separate() {
      && {this, futureQueue, futureQueue.at, counters, counters.at, network} !! variableSpace.Repr
      && counters.at as object != futureQueue.at as object
    }

    ghost function Cfg(): Config
      reads network
    {
      Config(program, futureQueue.at.Length, counters.at.Length, |variableSpace.at|, |network.slots|, network.channels)
    }

    ghost predicate Valid()
      reads Repr()
    {
      && Separate()
      && futureQueue.Valid() && variableSpace.Valid() && network.Valid()
      && |program| < 0x1_0000_0000
    }

    ghost function State(): Vm
      requires Valid()
      reads Repr()
    {
      Vm(programCounter, futureQueue.Contents(), counters.at[..], errorBits, variableSpace.Contents(), network.slots,
         network.queues)
    }

    /** `init_interpreter` on zeroed memory, then `init_network` of `start_interpreter`. */
    constructor (program: seq<Instr>, memory: array<Future>, counterCount: nat, variableCount: nat, messageCount: nat,
                 channels: seq<Channel>)
      requires 1 <= memory.Length <= 255 && |program| < 0x1_0000_0000
      ensures Valid() && Cfg() == Config(program, memory.Length, counterCount, variableCount, messageCount, channels)
      ensures State() == Init(Cfg())
      ensures programCounter == 0 && errorBits == 0 && transmitted == [] && futureQueue.Contents() == []
      ensures counters.at[..] == seq(counterCount, _ => 0) && variableSpace.Contents() == seq(variableCount, _ => [])
      ensures network.slots == seq(messageCount, _ => None) && network.queues == seq(|channels|, _ => [])
    {
      this.program := program;
      var queue := new FutureQueue(memory);
      futureQueue := queue;
      var space := new VariableSpace(variableCount);
      variableSpace := space;
      var count := new CounterArray(counterCount);
      counters := count;
      var net := new Net(channels, messageCount);
      network := net;
      programCounter := 0;
      errorBits := 0;
      transmitted := [];
      new;
      assert counters.at[..] == seq(counterCount, _ => 0);
    }

    /** The instruction at the program counter. */
    ghost predicate Ready()
      reads Repr()
    {
      Valid() && Shape(Cfg(), State()) && programCounter < |program|
    }

    ghost function Current(): Instr
      requires programCounter < |program|
      reads this
    {
      program[programCounter]
    }

    // ----- handlers -----

    method HandleFuture(e: Env) returns (status: Handled)
      requires Ready()
      modifies futureQueue, futureQueue.at
      ensures Valid() && Cfg() == old(Cfg())
      ensures var h := FutureEffect(old(Cfg()), old(State()), Current(), e); status == h.status && State() == h.vm
    {
      hide BufferShape, Insert, Window;
      var delay := program[programCounter].args[0];
      var jmp := program[programCounter].args[1];
      if jmp >= |program| {
        return Error;
      }
      var error := futureQueue.Push(jmp, delay, e.pushClock);
      status := if error != FUTURE_Q_OK then Error else Ok;
    }

    /**
     `slept` is the argument of `usleep_range`, computed in 64 bits: the time up to the expiry if that is
     still ahead, and nearly the whole range of the word if it is past; a missed deadline is no error.
     */
    method HandleHalt(e: Env) returns (status: Handled, slept: Option<u64>)
      requires Valid()
      modifies this`programCounter, futureQueue
      ensures Valid() && Cfg() == old(Cfg())
      ensures var h := HaltEffect(old(State()), e); status == h.status && State() == h.vm
      ensures Slept(old(State()).queue, e.haltClock, slept)
    {
      var error, head := futureQueue.Pop();
      if error != FUTURE_Q_OK {
        return Error, None;
      }
      var range := Wrap64(head.value.expiry - e.haltClock);
      programCounter := head.value.jmp;
      status, slept := ChangePc, Some(range);
    }

    method HandleWait(e: Env) returns (status: Handled, slept: Option<u64>)
      requires Ready()
      modifies this`programCounter, futureQueue, futureQueue.at
      ensures Valid() && Cfg() == old(Cfg())
      ensures var h := WaitEffect(old(Cfg()), old(State()), old(Current()), e); status == h.status && State() == h.vm
      ensures status == ChangePc ==>
        Slept(FutureEffect(old(Cfg()), old(State()), old(Current()), e).vm.queue, e.haltClock, slept)
      ensures status != ChangePc ==> slept == None
    {
      status := HandleFuture(e);
      if status != Ok {
        return status, None;
      }
      status, slept := HandleHalt(e);
    }

    method HandleGoto() returns (status: Handled)
      requires Ready()
      modifies this`programCounter
      ensures Valid() && Cfg() == old(Cfg())
      ensures var jmp := old(Current()).args[0];
        if jmp >= |program| then status == Error && State() == old(State())
        else status == ChangePc && State() == old(State()).(pc := jmp)
    {
      var jmp := program[programCounter].args[0];
      if jmp >= |program| {
        return Error;
      }
      programCounter := jmp;
      status := ChangePc;
    }

    /** `test_guard`: `None` stands for status INVALID_GUARD. */
    method TestGuard(guard: u32, arg0: u32, arg1: u32) returns (r: Option<bool>)
      requires Valid() && Shape(Cfg(), State()) && GuardInBounds(Cfg(), guard, arg0, arg1)
      ensures Valid() && State() == old(State()) && Cfg() == old(Cfg())
      ensures r == GuardValue(old(Cfg()), old(State()), guard, arg0, arg1)
    {
      hide QueueShape, BufferShape, Window, Value, Ones, TestHolds;
      match guard {
        case 0 => r := Some(true);
        case 1 => r := Some(false);
        case 2 =>
          var empty := network.RxBuffEmpty(arg0);
          r := Some(empty);
        case 3 => r := Some(false);
        case 4 => r := Some(counters.at[arg0] == arg1);
        case 5 => r := Some(IsErrorSet(errorBits, Mask16(arg0)));
        case 6 =>
          var order := variableSpace.Compare(arg0, arg1);
          r := Some(order == 0);
        case 7 =>
          var order := variableSpace.Compare(arg0, arg1);
          r := Some(order > 0);
        case 8 =>
          var order := variableSpace.Compare(arg0, arg1);
          r := Some(order < 0);
        case 9 =>
          var b := variableSpace.Test(arg0, arg1);
          r := Some(b);
        case 10 => r := Some(false);
        case 11 => r := Some(false);
        case _ => r := None;
      }
    }

    method HandleIf() returns (status: Handled)
      requires Ready() && InBounds(Cfg(), Current()) && Current().typ == IF
      modifies this`programCounter
      ensures Valid() && Cfg() == old(Cfg())
      ensures var h := IfEffect(old(Cfg()), old(State()), old(Current())); status == h.status && State() == h.vm
    {
      var args := program[programCounter].args;
      var result := TestGuard(args[0], args[2], args[3]);
      match result {
        case None => status := Error;
        case Some(true) =>
          programCounter := args[1];
          status := ChangePc;
        case Some(false) => status := Ok;
      }
    }

    method HandleClearCounter() returns (status: Handled)
      requires Ready() && InBounds(Cfg(), Current()) && Current().typ == CLEAR_COUNTER
      modifies counters.at
      ensures Valid() && Cfg() == old(Cfg())
      ensures var m, args := old(State()), Current().args;
        status == Ok && State() == CounterEffect(m, args[0], 0).vm
    {
      var args := program[programCounter].args;
      counters.Reset(args[0]);
      status := Ok;
    }

    method HandleAddToCounter() returns (status: Handled)
      requires Ready() && InBounds(Cfg(), Current()) && Current().typ == ADD_TO_COUNTER
      modifies counters.at
      ensures Valid() && Cfg() == old(Cfg())
      ensures var m, args := old(State()), Current().args;
        status == Ok && State() == CounterEffect(m, args[0], m.counters[args[0]] as int + args[1]).vm
    {
      var args := program[programCounter].args;
      counters.Add(args[0], args[1]);
      status := Ok;
    }

    method HandleSubFromCounter() returns (status: Handled)
      requires Ready() && InBounds(Cfg(), Current()) && Current().typ == SUB_FROM_COUNTER
      modifies counters.at
      ensures Valid() && Cfg() == old(Cfg())
      ensures var m, args := old(State()), Current().args;
        status == Ok && State() == CounterEffect(m, args[0], m.counters[args[0]] as int - args[1]).vm
    {
      var args := program[programCounter].args;
      counters.Sub(args[0], args[1]);
      status := Ok;
    }

    method HandleSetCounter() returns (status: Handled)
      requires Ready() && InBounds(Cfg(), Current()) && Current().typ == SET_COUNTER
      modifies counters.at
      ensures Valid() && Cfg() == old(Cfg())
      ensures var m, args := old(State()), Current().args;
        status == Ok && State() == CounterEffect(m, args[0], args[1]).vm
    {
      var args := program[programCounter].args;
      counters.Set(args[0], args[1]);
      status := Ok;
    }

    method HandleCreate(e: Env) returns (status: Handled)
      requires Ready() && InBounds(Cfg(), Current()) && Current().typ == CREATE
      modifies network
      ensures Valid() && Cfg() == old(Cfg())
      ensures var h := CreateEffect(old(State()), Current(), e); status == h.status && State() == h.vm
    {
      var args := program[programCounter].args;
      network.CreateMessageFromVar(variableSpace, args[0], args[1], e.junk);
      status := Ok;
    }

    method HandleSend(e: Env) returns (status: Handled)
      requires Ready() && InBounds(Cfg(), Current()) && Current().typ == SEND
      modifies network, this`transmitted
      ensures Valid() && Cfg() == old(Cfg())
      ensures var h := SendEffect(old(Cfg()), old(State()), Current(), e);
        && status == h.status && State() == h.vm
        && transmitted == old(transmitted) + SentFrames(h.events)
    {
      var args := program[programCounter].args;
      var ret, sent := network.SendMessage(args[0], args[1], e.xmit);
      if sent.Some? {
        transmitted := transmitted + [sent.value];
      }
      status := if ret >= 0 then Ok else Error;
    }

    method HandleReceive() returns (status: Handled)
      requires Ready() && InBounds(Cfg(), Current()) && Current().typ == RECEIVE
      modifies network, this`errorBits, variableSpace.Repr
      ensures Valid() && Cfg() == old(Cfg())
      ensures var h := ReceiveEffect(old(State()), Current()); status == h.status && State() == h.vm
    {
      hide QueueShape, SetError, ClearError, Window;
      var args := program[programCounter].args;
      var ret := network.ReceiveMessageToVar(variableSpace, args[0], args[1]);
      if ret < 0 {
        errorBits := SetError(errorBits, ERR_BIT_RCV_FAULT);
      } else {
        errorBits := ClearError(errorBits, ERR_BIT_RCV_FAULT);
      }
      status := Ok;
    }

    method HandleSync(e: Env) returns (status: Handled)
      requires Ready() && Current().typ == SYNC
      modifies this`errorBits
      ensures Valid() && Cfg() == old(Cfg())
      ensures var h := SyncEffect(old(State()), Current(), e); status == h.status && State() == h.vm
    {
      var args := program[programCounter].args;
      if args[0] != SYNC_MASTER {
        var ret, _, _ := ReceiveSync(args[1], e.syncStart, e.attempts);
        if ret == Some(0) {
          errorBits := ClearError(errorBits, ERR_BIT_SYNC_TIMEOUT);
        } else {
          errorBits := SetError(errorBits, ERR_BIT_SYNC_TIMEOUT);
        }
      }
      status := Ok;
    }

    /** The handler did what `Handle` says, starting from `m`. */
    ghost predicate Served(c: Config, m: Vm, i: Instr, e: Env, sent: seq<Frame>, status: Option<Handled>)
      requires Shape(c, m) && InBounds(c, i)
      reads Repr()
    {
      var h := Handle(c, m, i, e);
      && Valid() && Cfg() == c
      && (h == None ==> status == None && State() == m && transmitted == sent)
      && (h.Some? ==> status == Some(h.value.status) && State() == h.value.vm
                      && transmitted == sent + SentFrames(h.value.events))
    }

    /** The part of the main switch that concerns time and control. */
    method DispatchControl(e: Env) returns (status: Option<Handled>)
      requires Ready() && InBounds(Cfg(), Current()) && Current().typ in {FUTURE, HALT, WAIT, GOTO, IF}
      modifies Repr()
      ensures Served(old(Cfg()), old(State()), old(Current()), e, old(transmitted), status)
    {
      ControlSendsNothing(Cfg(), State(), Current(), e);
      var s;
      var slept: Option<u64> := None;
      match program[programCounter].typ {
        case 10 => s := HandleGoto();
        case 0 => s := HandleFuture(e);
        case 1 => s, slept := HandleHalt(e);
        case 11 => s, slept := HandleWait(e);
        case _ => s := HandleIf();
      }
      status := Some(s);
    }

    /** The rest of the main switch; `None` when there is no handler for the type. */
    method DispatchData(e: Env) returns (status: Option<Handled>)
      requires Ready() && InBounds(Cfg(), Current()) && Current().typ !in {FUTURE, HALT, WAIT, GOTO, IF}
      modifies Repr()
      ensures Served(old(Cfg()), old(State()), old(Current()), e, old(transmitted), status)
    {
      var s;
      match program[programCounter].typ {
        case 15 => s := Ok;
        case 19 => s := HandleClearCounter();
        case 18 => s := HandleAddToCounter();
        case 20 => s := HandleSubFromCounter();
        case 17 => s := HandleSetCounter();
        case 4 => s := HandleCreate(e);
        case 6 => s := HandleSend(e);
        case 7 => s := HandleReceive();
        case 8 => s := HandleSync(e);
        case _ => return None;
      }
      status := Some(s);
    }

    method Advance()
      requires Valid()
      modifies this`programCounter
      ensures Valid() && Cfg() == old(Cfg()) && transmitted == old(transmitted)
      ensures State() == old(State()).(pc := Wrap32(old(programCounter) + 1))
    {
      programCounter := Wrap32(programCounter + 1);
    }

    /** The body of the main loop; `Some(code)` when the thread function returns. */
    method Turn(e: Env) returns (code: Option<int>)
      requires Ready() && InBounds(Cfg(), Current())
      modifies Repr()
      ensures Follows(old(Cfg()), Step(old(Cfg()), old(State()), e), old(transmitted), code)
    {
      hide Handle, InBounds, BufferShape, QueueShape;
      if program[programCounter].typ == END_OF_PROGRAM {
        return Some(PROGRAM_OK);
      }
      var status;
      if program[programCounter].typ in {FUTURE, HALT, WAIT, GOTO, IF} {
        status := DispatchControl(e);
      } else {
        status := DispatchData(e);
      }
      match status {
        case None => code := Some(INVALID_INSTR);
        case Some(Ok) =>
          Advance();
          code := None;
        case Some(Error) => code := Some(PROGRAM_ERROR);
        case Some(ChangePc) => code := None;
      }
    }

    /** State, transmitted frames and return code are those of the outcome `o`. */
    ghost predicate Follows(c: Config, o: Outcome, sent: seq<Frame>, code: Option<int>)
      reads Repr()
    {
      && Valid() && Cfg() == c
      && !o.Undefined?
      && State() == o.vm
      && transmitted == sent + SentFrames(o.events)
      && code == if o.Next? then None else Some(o.code)
    }

    /** One thing that happens while the thread runs: a turn of its loop, or something from outside. */
    method Serve(i: Input) returns (code: Option<int>)
      requires Valid() && Shape(Cfg(), State()) && Possible(Cfg(), i)
      requires i.Execute? ==> programCounter < |program| && InBounds(Cfg(), Current())
      modifies Repr()
      ensures Follows(old(Cfg()), Feed(old(Cfg()), old(State()), i), old(transmitted), code)
    {
      match i {
        case Write(v, bytes) =>
          variableSpace.Set(v, bytes);
          code := None;
        case Arrive(ch, frame) =>
          network.Deliver(ch, frame);
          code := None;
        case Execute(e) =>
          code := Turn(e);
      }
    }

    /**
     The interpreter thread until it is told to stop, with user-space writes and arriving frames in
     between; the result is that of the machine's run (`None`: still running when told to stop).
     */
    method Thread(inputs: seq<Input>) returns (code: Option<int>)
      requires Valid() && Shape(Cfg(), State())
      requires forall k :: 0 <= k < |inputs| ==> Possible(Cfg(), inputs[k])
      requires !Run(Cfg(), State(), inputs).Undefined?
      modifies Repr()
      ensures Follows(old(Cfg()), Run(old(Cfg()), old(State()), inputs), old(transmitted), code)
    {
      hide Run, Feed, Shape;
      ghost var c, m0, sent0 := Cfg(), State(), transmitted;
      ghost var m, ev: seq<Event> := m0, [];
      RunOfNothing(c, m0);
      assert inputs[..0] == [];
      var k := 0;
      while k < |inputs|
        invariant 0 <= k <= |inputs|
        invariant Valid() && Cfg() == c && State() == m && transmitted == sent0 + SentFrames(ev)
        invariant Shape(c, m)
        invariant Run(c, m0, inputs[..k]) == Next(m, ev)
      {
        ThreadInvariant(c, m0, inputs, k, m, ev);
        ghost var o := Feed(c, m, inputs[k]);
        code := Serve(inputs[k]);
        SentFramesAppend(ev, o.events);
        m, ev := o.vm, ev + o.events;
        if code.Some? {
          return;
        }
        k := k + 1;
      }
      assert inputs[..k] == inputs;
      code := None;
    }
  }

  /** What one iteration of the thread's loop contributes to the run. */
  lemma ThreadInvariant(c: Config, m0: Vm, inputs: seq<Input>, k: nat, m: Vm, ev: seq<Event>)
    requires Shape(c, m0) && Shape(c, m)
    requires k < |inputs| && forall j :: 0 <= j < |inputs| ==> Possible(c, inputs[j])
    requires Run(c, m0, inputs[..k]) == Next(m, ev) && !Run(c, m0, inputs).Undefined?
    ensures inputs[k].Execute? ==> m.pc < |c.program| && InBounds(c, c.program[m.pc])
    ensures var o := Feed(c, m, inputs[k]);
      && !o.Undefined? && (o.Next? ==> Shape(c, o.vm))
      && Run(c, m0, inputs[..k + 1]) == Prefixed(ev, o)
      && (!o.Next? ==> Run(c, m0, inputs) == Prefixed(ev, o))
  {
    hide Run, Shape, Handle, Possible;
    var o := Feed(c, m, inputs[k]);
    FeedKeepsShape(c, m, inputs[k]);
    RunExtends(c, m0, inputs[..k], inputs[k]);
    assert inputs[..k + 1] == inputs[..k] + [inputs[k]];
    if !o.Next? {
      RunStopsEarly(c, m0, inputs[..k + 1], inputs[k + 1..]);
      assert inputs == inputs[..k + 1] + inputs[k + 1..];
    }
  }
}
