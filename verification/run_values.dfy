/** What the counters, the futures, the frames and the error bits of a run hold. */
module RunValues {
  import opened Words
  import opened Bytes
  import opened FutureSpec
  import opened VariableSpaces
  import opened Frames
  import opened Machine
  import opened Runs
  import opened RunLaws

  // ----- counters -----

  /** The exact value of counter `id` behind the instruction that comes next, when it was `x` in front of it. */
  function CountedBy(c: Config, m: Vm, id: nat, x: int): int
    requires m.pc < |c.program|
  {
    var i := c.program[m.pc];
    if i.args[0] != id then x
    else if i.typ == 17 then i.args[1]
    else if i.typ == 18 then x + i.args[1]
    else if i.typ == 19 then 0
    else if i.typ == 20 then x - i.args[1]
    else x
  }

  /** The same over a whole run, with no bound on the numbers. */
  ghost function Tally(c: Config, m: Vm, inputs: seq<Input>, id: nat, x: int): int
    requires Shape(c, m) && PossibleAll(c, inputs)
    decreases inputs
  {
    if inputs == [] || !Feed(c, m, inputs[0]).Next? then x
    else
      RunSteps(c, m, inputs);
      var next := if inputs[0].Execute? && m.pc < |c.program| then CountedBy(c, m, id, x) else x;
      Tally(c, Feed(c, m, inputs[0]).vm, inputs[1..], id, next)
  }

  lemma HandleCounts(c: Config, m: Vm, e: Env, id: nat, x: int)
    requires Shape(c, m) && m.pc < |c.program| && InBounds(c, c.program[m.pc])
    requires id < c.counters && m.counters[id] == x % 0x1_0000_0000
    requires c.program[m.pc].typ in {17, 18, 19, 20}
    ensures var h := Handle(c, m, c.program[m.pc], e);
      && h.Some? && h.value.status == Ok && |h.value.vm.counters| == c.counters
      && h.value.vm.counters[id] == CountedBy(c, m, id, x) % 0x1_0000_0000
  {
    hide BufferShape, QueueShape, GuardValue;
    var i := c.program[m.pc];
    SumWraps(x, i.args[1]);
    SumWraps(x, -(i.args[1] as int));
  }

  lemma OthersCount(c: Config, m: Vm, e: Env)
    requires Shape(c, m) && m.pc < |c.program| && InBounds(c, c.program[m.pc])
    requires c.program[m.pc].typ !in {17, 18, 19, 20}
    ensures var h := Handle(c, m, c.program[m.pc], e); h.Some? ==> h.value.vm.counters == m.counters
  {
    hide BufferShape, QueueShape, GuardValue, Insert;
  }

  lemma StepCounts(c: Config, m: Vm, e: Env, id: nat, x: int)
    requires Shape(c, m) && id < c.counters && m.counters[id] == x % 0x1_0000_0000
    ensures var o := Step(c, m, e);
      && (!o.Undefined? ==> |o.vm.counters| == c.counters)
      && (o.Next? ==> m.pc < |c.program| && o.vm.counters[id] == CountedBy(c, m, id, x) % 0x1_0000_0000)
      && (o.Stopped? ==> o.vm.counters == m.counters)
  {
    hide BufferShape, QueueShape, Handle, InBounds;
    if m.pc < |c.program| && FirstInBounds(c, m) {
      if c.program[m.pc].typ in {17, 18, 19, 20} {
        HandleCounts(c, m, e, id, x);
      } else {
        OthersCount(c, m, e);
      }
    }
  }

  lemma SumWraps(x: int, y: int)
    ensures (x % 0x1_0000_0000 + y) % 0x1_0000_0000 == (x + y) % 0x1_0000_0000
  {
  }

  lemma EnvironmentCounts(c: Config, m: Vm, i: Input)
    requires Shape(c, m) && Possible(c, i) && !i.Execute?
    ensures Feed(c, m, i).Next? && Feed(c, m, i).vm.counters == m.counters
  {
  }

  /**
   Over every run each counter holds, modulo 2 to the 32, what its last SET or CLEAR gave it and all ADDs and
   SUBs since then made of that.
   */
  lemma {:induction false} CountersTally(c: Config, m: Vm, inputs: seq<Input>, id: nat, x: int)
    requires Shape(c, m) && PossibleAll(c, inputs) && id < c.counters && m.counters[id] == x % 0x1_0000_0000
    ensures var o := Run(c, m, inputs);
      !o.Undefined? ==> |o.vm.counters| == c.counters
                        && o.vm.counters[id] == Tally(c, m, inputs, id, x) % 0x1_0000_0000
    decreases inputs
  {
    hide Feed, Step, Possible, PossibleAll, CountedBy;
    if inputs == [] {
      RunOfNothing(c, m);
    } else {
      AllPossible(c, inputs);
      FirstInput(c, m, inputs[0]);
      RunSteps(c, m, inputs);
      var next := x;
      if inputs[0].Execute? {
        StepCounts(c, m, inputs[0].e, id, x);
        if m.pc < |c.program| {
          next := CountedBy(c, m, id, x);
        }
      } else {
        EnvironmentCounts(c, m, inputs[0]);
      }
      if Feed(c, m, inputs[0]).Next? {
        CountersTally(c, Feed(c, m, inputs[0]).vm, inputs[1..], id, next);
      }
    }
  }

  // ----- futures -----

  /** The future comes from a FUTURE or WAIT of the program, pushed at the time `at`. */
  ghost predicate FromProgram(c: Config, f: Future, at: u64) {
    && f.expiry == (at + f.wait) % 0x1_0000_0000_0000_0000
    && exists k :: 0 <= k < |c.program| && Schedules(c.program[k], f)
  }

  ghost predicate Schedules(i: Instr, f: Future) {
    (i.typ == 0 || i.typ == 11) && i.args[0] == f.wait && i.args[1] == f.jmp
  }

  ghost predicate PushesRight(c: Config, ev: seq<Event>) {
    forall k :: 0 <= k < |ev| && ev[k].Pushed? ==> FromProgram(c, ev[k].f, ev[k].at)
  }

  lemma StepPushes(c: Config, m: Vm, e: Env)
    requires Shape(c, m)
    ensures var o := Step(c, m, e); !o.Undefined? ==> PushesRight(c, o.events)
  {
    hide BufferShape, QueueShape, Insert;
    if m.pc < |c.program| && InBounds(c, c.program[m.pc]) {
      var i := c.program[m.pc];
      var f := Future(i.args[1], i.args[0], Wrap64(e.pushClock + i.args[0]));
      if i.typ == 0 || i.typ == 11 {
        assert Schedules(i, f);
        assert FromProgram(c, f, e.pushClock);
      }
    }
  }

  lemma PushesTogether(c: Config, a: seq<Event>, b: seq<Event>)
    requires PushesRight(c, a) && PushesRight(c, b)
    ensures PushesRight(c, a + b)
  {
    hide FromProgram;
  }

  lemma {:induction false} RunPushes(c: Config, m: Vm, inputs: seq<Input>)
    requires Shape(c, m) && PossibleAll(c, inputs)
    ensures var o := Run(c, m, inputs); !o.Undefined? ==> PushesRight(c, o.events)
    decreases inputs
  {
    hide Feed, Step, Possible, PossibleAll, FromProgram, Shape;
    if inputs == [] {
      RunOfNothing(c, m);
    } else {
      AllPossible(c, inputs);
      FirstInput(c, m, inputs[0]);
      RunSteps(c, m, inputs);
      var o := Feed(c, m, inputs[0]);
      if inputs[0].Execute? {
        StepPushes(c, m, inputs[0].e);
      } else {
        NoEvents(c, m, inputs[0]);
      }
      if o.Next? {
        RunPushes(c, o.vm, inputs[1..]);
        var rest := Run(c, o.vm, inputs[1..]);
        if !rest.Undefined? {
          PushesTogether(c, o.events, rest.events);
        }
      }
    }
  }

  lemma NoEvents(c: Config, m: Vm, i: Input)
    requires Shape(c, m) && Possible(c, i) && !i.Execute?
    ensures Feed(c, m, i).Next? && Feed(c, m, i).events == []
  {
  }

  lemma {:induction false} PushedIs(ev: seq<Event>, f: Future) returns (k: nat)
    requires f in Pushes(ev)
    ensures k < |ev| && ev[k].Pushed? && ev[k].f == f
  {
    if ev[0].Pushed? && ev[0].f == f {
      k := 0;
    } else {
      var j := PushedIs(ev[1..], f);
      k := j + 1;
    }
  }

  /**
   Every future that HALT or WAIT takes in a run from the initial state was scheduled in that run: it has the delay
   and the target of a FUTURE or WAIT of the program, and expires its delay after the time of its push, in 64 bits.
   */
  lemma TakenWasScheduled(c: Config, inputs: seq<Input>, f: Future) returns (k: nat)
    requires c.Valid() && PossibleAll(c, inputs)
    requires Shape(c, Init(c)) && !Run(c, Init(c), inputs).Undefined?
    requires f in Takes(Run(c, Init(c), inputs).events)
    ensures var ev := Run(c, Init(c), inputs).events;
      k < |ev| && ev[k].Pushed? && ev[k].f == f && FromProgram(c, f, ev[k].at)
  {
    hide Run, Shape, FromProgram, Takes, Pushes;
    InitShape(c);
    assert forall j :: 0 <= j < |inputs| ==> Possible(c, inputs[j]);
    var o := Run(c, Init(c), inputs);
    FuturesConserved(c, inputs);
    RunPushes(c, Init(c), inputs);
    assert f in multiset(Takes(o.events));
    assert f in multiset(Pushes(o.events));
    k := PushedIs(o.events, f);
  }

  // ----- frames -----

  /** The bytes of a frame on the wire: to everybody, from a device of the node, protocol 0x9009. */
  ghost predicate OnWire(c: Config, f: Frame) {
    && f[..6] == [0xFF, 0xFF, 0xFF, 0xFF, 0xFF, 0xFF]
    && (exists ch :: 0 <= ch < |c.channels| && c.channels[ch].device == Some(f[6..12]))
    && f[12] == 0x90 && f[13] == 0x09
  }

  ghost predicate SlotsTyped(m: Vm) {
    forall k :: 0 <= k < |m.slots| && m.slots[k].Some? ==> m.slots[k].value[12] == 0x90 && m.slots[k].value[13] == 0x09
  }

  ghost predicate SendsRight(c: Config, ev: seq<Event>) {
    forall k :: 0 <= k < |ev| && ev[k].Sent? ==> OnWire(c, ev[k].frame)
  }

  /** SlotsTyped and SendsRight behind a handler. */
  ghost predicate StaysTyped(c: Config, h: Effect) {
    SlotsTyped(h.vm) && SendsRight(c, h.events)
  }

  lemma SendTyped(c: Config, m: Vm, i: Instr, e: Env)
    requires SlotsTyped(m) && i.args[0] < |c.channels| && i.args[1] < |m.slots|
    ensures StaysTyped(c, SendEffect(c, m, i, e))
  {
    hide OnWire;
    if m.slots[i.args[1]].Some? && c.channels[i.args[0]].device.Some? {
      AddressedOnWire(c, m.slots[i.args[1]].value, i.args[0]);
    }
  }

  lemma CreateTyped(c: Config, m: Vm, i: Instr, e: Env)
    requires SlotsTyped(m) && i.args[0] < |m.vars| && i.args[1] < |m.slots|
    ensures StaysTyped(c, CreateEffect(m, i, e))
  {
    AssembledTyped(e.junk, m.vars[i.args[0]]);
  }

  lemma OthersTyped(c: Config, m: Vm, i: Instr, e: Env)
    requires Shape(c, m) && InBounds(c, i) && SlotsTyped(m) && i.typ != 4 && i.typ != 6 && Handle(c, m, i, e).Some?
    ensures StaysTyped(c, Handle(c, m, i, e).value)
  {
    hide BufferShape, QueueShape, GuardValue, Insert, OnWire, SlotsTyped;
    var h := Handle(c, m, i, e).value;
    assert h.vm.slots == m.slots;
    assert |h.events| <= 2 && forall k :: 0 <= k < |h.events| ==> !h.events[k].Sent?;
    SameSlots(m, h.vm);
  }

  lemma SameSlots(m: Vm, v: Vm)
    requires v.slots == m.slots && SlotsTyped(m)
    ensures SlotsTyped(v)
  {
  }

  lemma HandleTyped(c: Config, m: Vm, i: Instr, e: Env)
    requires Shape(c, m) && InBounds(c, i) && SlotsTyped(m) && Handle(c, m, i, e).Some?
    ensures StaysTyped(c, Handle(c, m, i, e).value)
  {
    hide BufferShape, QueueShape, GuardValue, StaysTyped, SlotsTyped, SendEffect, CreateEffect;
    if i.typ == 4 {
      CreateTyped(c, m, i, e);
    } else if i.typ == 6 {
      SendTyped(c, m, i, e);
    } else {
      OthersTyped(c, m, i, e);
    }
  }

  lemma StepSends(c: Config, m: Vm, e: Env)
    requires Shape(c, m) && SlotsTyped(m)
    ensures var o := Step(c, m, e); !o.Undefined? ==> SlotsTyped(o.vm) && SendsRight(c, o.events)
  {
    hide Shape, Handle, InBounds, OnWire;
    if m.pc < |c.program| && FirstInBounds(c, m) {
      var i := c.program[m.pc];
      if Handle(c, m, i, e).Some? {
        HandleTyped(c, m, i, e);
      }
    }
  }

  lemma AddressedOnWire(c: Config, f: Frame, ch: nat)
    requires ch < |c.channels| && c.channels[ch].device.Some? && f[12] == 0x90 && f[13] == 0x09
    ensures OnWire(c, Address(f, BROADCAST, c.channels[ch].device.value))
  {
    var g := Address(f, BROADCAST, c.channels[ch].device.value);
    assert g[12] == f[12] && g[13] == f[13];
  }

  lemma AssembledTyped(junk: Junk, v: Data)
    ensures var f := Assemble(junk, v); f[12] == 0x90 && f[13] == 0x09 && f[14..] == v
  {
  }

  lemma EnvironmentSlots(c: Config, m: Vm, i: Input)
    requires Shape(c, m) && Possible(c, i) && !i.Execute?
    ensures Feed(c, m, i).Next? && Feed(c, m, i).events == []
    ensures Feed(c, m, i).vm.slots == m.slots && Feed(c, m, i).vm.pc == m.pc
  {
  }

  lemma SendsTogether(c: Config, a: seq<Event>, b: seq<Event>)
    requires SendsRight(c, a) && SendsRight(c, b)
    ensures SendsRight(c, a + b)
  {
    hide OnWire;
  }

  lemma {:induction false} RunSends(c: Config, m: Vm, inputs: seq<Input>)
    requires Shape(c, m) && PossibleAll(c, inputs) && SlotsTyped(m)
    ensures var o := Run(c, m, inputs); !o.Undefined? ==> SendsRight(c, o.events)
    decreases inputs
  {
    hide Feed, Step, Possible, PossibleAll, OnWire, Shape;
    if inputs == [] {
      RunOfNothing(c, m);
    } else {
      AllPossible(c, inputs);
      FirstInput(c, m, inputs[0]);
      RunSteps(c, m, inputs);
      var o := Feed(c, m, inputs[0]);
      if inputs[0].Execute? {
        StepSends(c, m, inputs[0].e);
      } else {
        EnvironmentSlots(c, m, inputs[0]);
      }
      if o.Next? {
        RunSends(c, o.vm, inputs[1..]);
        var rest := Run(c, o.vm, inputs[1..]);
        if !rest.Undefined? {
          SendsTogether(c, o.events, rest.events);
        }
      }
    }
  }

  /** Every frame that a run hands to the driver has these bytes in its header. */
  lemma FramesOnTheWire(c: Config, inputs: seq<Input>)
    requires c.Valid() && PossibleAll(c, inputs)
    ensures Shape(c, Init(c))
    ensures var o := Run(c, Init(c), inputs);
      !o.Undefined? ==> forall k :: 0 <= k < |o.events| && o.events[k].Sent? ==> OnWire(c, o.events[k].frame)
  {
    hide Run, OnWire;
    InitShape(c);
    RunSends(c, Init(c), inputs);
  }

  /** The bytes of a frame from CREATE to SEND, and which frames a channel keeps. */
  lemma FrameBytes(junk: Junk, payload: Data, dest: Mac, src: Mac, mac: Mac, f: Frame)
    ensures Address(Assemble(junk, payload), dest, src) == dest + src + [0x90, 0x09] + payload
    ensures Accepts(mac, f) <==> f[6..12] == mac && f[12] == 0x90 && f[13] == 0x09
    ensures Truncate(f) == if |f| <= 1500 then f else f[..1500]
  {
  }

  ghost predicate NothingExecuted(inputs: seq<Input>) {
    forall k :: 0 <= k < |inputs| ==> !inputs[k].Execute?
  }

  /** User writes and arriving frames leave counter and slots alone. */
  lemma {:induction false} OutsideKeepsSlots(c: Config, m: Vm, inputs: seq<Input>)
    requires Shape(c, m) && PossibleAll(c, inputs) && NothingExecuted(inputs)
    ensures var o := Run(c, m, inputs); o.Next? && o.events == [] && o.vm.slots == m.slots && o.vm.pc == m.pc
    decreases inputs
  {
    hide Feed, Possible, PossibleAll, Shape;
    if inputs == [] {
      RunOfNothing(c, m);
    } else {
      AllPossible(c, inputs);
      EnvironmentSlots(c, m, inputs[0]);
      RunSteps(c, m, inputs);
      OutsideKeepsSlots(c, Feed(c, m, inputs[0]).vm, inputs[1..]);
    }
  }

  lemma CreateSteps(c: Config, m: Vm, e: Env)
    requires c.Valid() && Shape(c, m) && m.pc < |c.program| && c.program[m.pc].typ == 4 && InBounds(c, c.program[m.pc])
    ensures var i, o := c.program[m.pc], Step(c, m, e);
      && i.args[0] < |m.vars| && i.args[1] < |m.slots|
      && o.Next? && o.events == [] && o.vm.pc == m.pc + 1
      && o.vm.slots == m.slots[i.args[1] := Some(Assemble(e.junk, m.vars[i.args[0]]))]
  {
    hide BufferShape, QueueShape, Assemble;
  }

  lemma SendSteps(c: Config, m: Vm, e: Env, f: Frame)
    requires c.Valid() && Shape(c, m) && m.pc < |c.program| && c.program[m.pc].typ == 6 && InBounds(c, c.program[m.pc])
    requires m.slots[c.program[m.pc].args[1]] == Some(f) && c.channels[c.program[m.pc].args[0]].device.Some?
    ensures var i, o := c.program[m.pc], Step(c, m, e);
      && !o.Undefined? && o.events == [Sent(Address(f, BROADCAST, c.channels[i.args[0]].device.value))]
      && o.vm.slots == m.slots[i.args[1] := None]
      && (if e.xmit >= 0 then o.Next? && o.vm.pc == m.pc + 1 else o.Stopped? && o.code == 1 && o.vm.pc == m.pc)
  {
    hide BufferShape, QueueShape, Address;
  }

  /**
   CREATE and then SEND on the same slot, with user writes and arriving frames in between: one frame goes out, to
   everybody, from the device of the channel, with the bytes that the variable had at CREATE.  The slot is empty
   afterwards and all others are as they were, and only a refusal by the driver ends the run.
   */
  lemma SentIsCreated(c: Config, m: Vm, e1: Env, between: seq<Input>, e2: Env)
    requires c.Valid() && Shape(c, m) && PossibleAll(c, between) && NothingExecuted(between)
    requires m.pc + 1 < |c.program| && c.program[m.pc].typ == 4 && c.program[m.pc + 1].typ == 6
    requires InBounds(c, c.program[m.pc]) && InBounds(c, c.program[m.pc + 1])
    requires c.program[m.pc + 1].args[1] == c.program[m.pc].args[1]
    requires c.channels[c.program[m.pc + 1].args[0]].device.Some?
    ensures PossibleAll(c, [Execute(e1)] + between + [Execute(e2)])
    ensures var create, send := c.program[m.pc], c.program[m.pc + 1];
      var o := Run(c, m, [Execute(e1)] + between + [Execute(e2)]);
      && create.args[0] < |m.vars| && create.args[1] < |m.slots| && !o.Undefined?
      && o.events == [Sent([0xFF, 0xFF, 0xFF, 0xFF, 0xFF, 0xFF] + c.channels[send.args[0]].device.value + [0x90, 0x09]
                           + m.vars[create.args[0]])]
      && o.vm.slots == m.slots[create.args[1] := None]
      && (if e2.xmit >= 0 then o.Next? && o.vm.pc == m.pc + 2 else o.Stopped? && o.code == 1)
  {
    hide Feed, Step, Shape, InBounds, Assemble, Address, Possible;
    var x, z := Execute(e1), Execute(e2);
    CreateSteps(c, m, e1);
    SendInside(c, c.program[m.pc + 1]);
    var f := Assemble(e1.junk, m.vars[c.program[m.pc].args[0]]);
    BetweenPossible(c, x, between, z);
    FirstInput(c, m, x);
    FeedKeepsShape(c, m, x);
    var v := Feed(c, m, x).vm;
    OutsideKeepsSlots(c, v, between);
    RunShape(c, v, between);
    var w := Run(c, v, between).vm;
    assert ([x] + between)[0] == x && ([x] + between)[1..] == between;
    RunSteps(c, m, [x] + between);
    assert Run(c, m, [x] + between) == Next(w, []);
    RunExtends(c, m, [x] + between, z);
    FirstInput(c, w, z);
    SendSteps(c, w, e2, f);
    FrameBytes(e1.junk, m.vars[c.program[m.pc].args[0]], BROADCAST,
               c.channels[c.program[m.pc + 1].args[0]].device.value, BROADCAST, f);
    NoEventsInFront(Feed(c, w, z));
    assert m.slots[c.program[m.pc].args[1] := Some(f)][c.program[m.pc].args[1] := None] ==
           m.slots[c.program[m.pc].args[1] := None];
  }

  lemma SendInside(c: Config, i: Instr)
    requires i.typ == 6 && InBounds(c, i)
    ensures i.args[0] < |c.channels| && i.args[1] < c.messages
  {
  }

  lemma NoEventsInFront(o: Outcome)
    ensures Prefixed([], o) == o
  {
    if !o.Undefined? {
      assert [] + o.events == o.events;
    }
  }

  lemma BetweenPossible(c: Config, x: Input, between: seq<Input>, z: Input)
    requires PossibleAll(c, between) && x.Execute? && z.Execute?
    ensures PossibleAll(c, [x] + between) && PossibleAll(c, [x] + between + [z])
    ensures Possible(c, x) && Possible(c, z)
  {
  }

  lemma WriteStores(c: Config, m: Vm, v: nat, bytes: Data)
    requires Shape(c, m) && v < c.variables && |bytes| <= MAX_VAR_SIZE_BYTES
    ensures v < |m.vars| && Feed(c, m, Write(v, bytes)) == Next(m.(vars := m.vars[v := bytes]), [])
  {
  }

  /** In particular what a user wrote into the variable is what CREATE and SEND put on the wire. */
  lemma WrittenIsSent(c: Config, m: Vm, bytes: Data, e1: Env, e2: Env)
    requires c.Valid() && Shape(c, m) && m.pc + 1 < |c.program| && |bytes| <= MAX_VAR_SIZE_BYTES
    requires c.program[m.pc].typ == 4 && c.program[m.pc + 1].typ == 6
    requires InBounds(c, c.program[m.pc]) && InBounds(c, c.program[m.pc + 1])
    requires c.program[m.pc + 1].args[1] == c.program[m.pc].args[1]
    requires c.channels[c.program[m.pc + 1].args[0]].device.Some?
    ensures var inputs := [Write(c.program[m.pc].args[0], bytes), Execute(e1), Execute(e2)];
      && PossibleAll(c, inputs) && !Run(c, m, inputs).Undefined?
      && var o := Run(c, m, inputs);
         |o.events| == 1 && o.events[0].Sent? && o.events[0].frame[14..] == bytes
  {
    hide Feed, Shape, Run, Possible;
    var x, y, z := Write(c.program[m.pc].args[0], bytes), Execute(e1), Execute(e2);
    CreateSteps(c, m, e1);
    WritePossible(c, m, bytes, y, z);
    WriteStores(c, m, c.program[m.pc].args[0], bytes);
    RunSteps(c, m, [x, y, z]);
    var v := Feed(c, m, x).vm;
    assert [x, y, z][1..] == [y] + [] + [z];
    SentIsCreated(c, v, e1, [], e2);
    NoEventsInFront(Run(c, v, [y] + [] + [z]));
  }

  lemma WritePossible(c: Config, m: Vm, bytes: Data, y: Input, z: Input)
    requires Shape(c, m) && m.pc < |c.program| && c.program[m.pc].typ == 4 && InBounds(c, c.program[m.pc])
    requires |bytes| <= MAX_VAR_SIZE_BYTES && y.Execute? && z.Execute?
    ensures c.program[m.pc].args[0] < c.variables
    ensures PossibleAll(c, [Write(c.program[m.pc].args[0], bytes), y, z])
    ensures Possible(c, Write(c.program[m.pc].args[0], bytes))
  {
  }

  lemma Arrives(c: Config, m: Vm, ch: nat, f: Frame)
    requires Shape(c, m) && ch < |c.channels| && Accepts(c.channels[ch].peer, f)
    ensures Feed(c, m, Arrive(ch, f)) == Next(m.(rx := m.rx[ch := [Truncate(f)] + m.rx[ch]]), [])
  {
    hide Truncate, Accepts;
  }

  lemma Receives(c: Config, m: Vm, e: Env, g: Frame, rest: seq<Frame>)
    requires Shape(c, m) && m.pc < |c.program| && c.program[m.pc].typ == 7 && InBounds(c, c.program[m.pc])
    requires m.rx[c.program[m.pc].args[0]] == [g] + rest
    ensures var i, o := c.program[m.pc], Feed(c, m, Execute(e));
      && o.Next? && o.vm.vars == m.vars[i.args[1] := Payload(g)] && o.vm.rx == m.rx[i.args[0] := rest]
  {
    hide BufferShape, QueueShape, GuardValue, SetError, ClearError, Payload;
    assert ([g] + rest)[1..] == rest;
  }

  lemma RunOfThree(c: Config, m: Vm, x: Input, y: Input, z: Input)
    requires Shape(c, m) && PossibleAll(c, [x, y, z]) && Possible(c, x) && Possible(c, y) && Possible(c, z)
    requires Feed(c, m, x).Next? && Shape(c, Feed(c, m, x).vm)
    requires Feed(c, Feed(c, m, x).vm, y).Next? && Shape(c, Feed(c, Feed(c, m, x).vm, y).vm)
    requires Feed(c, Feed(c, Feed(c, m, x).vm, y).vm, z).Next?
    ensures var o := Run(c, m, [x, y, z]);
      o.Next? && o.vm == Feed(c, Feed(c, Feed(c, m, x).vm, y).vm, z).vm
  {
    hide Feed, Possible, Shape;
    var m1 := Feed(c, m, x).vm;
    var m2 := Feed(c, m1, y).vm;
    FeedKeepsShape(c, m2, z);
    assert [x, y, z][1..] == [y, z] && [y, z][1..] == [z] && [z][1..] == [];
    RunOfNothing(c, Feed(c, m2, z).vm);
    assert Run(c, m2, [z]).Next? && Run(c, m2, [z]).vm == Feed(c, m2, z).vm;
    assert Run(c, m1, [y, z]).Next? && Run(c, m1, [y, z]).vm == Feed(c, m2, z).vm;
  }

  /** RECEIVE takes the frame that came last: of two accepted ones the second, cut to 1500 bytes, without its header. */
  lemma NewestFirst(c: Config, m: Vm, f: Frame, g: Frame, e: Env)
    requires Shape(c, m) && m.pc < |c.program| && c.program[m.pc].typ == 7 && InBounds(c, c.program[m.pc])
    requires var peer := c.channels[c.program[m.pc].args[0]].peer; Accepts(peer, f) && Accepts(peer, g)
    ensures var i := c.program[m.pc];
      var ch, v := i.args[0], i.args[1];
      var inputs := [Arrive(ch, f), Arrive(ch, g), Execute(e)];
      && PossibleAll(c, inputs) && Run(c, m, inputs).Next?
      && var o := Run(c, m, inputs).vm;
         && o.vars == m.vars[v := if |g| <= 1500 then g[14..] else g[14..1500]]
         && |o.rx| == |m.rx| && |o.rx[ch]| == 1 + |m.rx[ch]| && o.rx[ch][1..] == m.rx[ch]
         && o.rx[ch][0] == if |f| <= 1500 then f else f[..1500]
  {
    hide Accepts, Truncate, Shape, Feed, InBounds;
    ReceiveInside(c, m);
    var ch := c.program[m.pc].args[0];
    var x, y, z := Arrive(ch, f), Arrive(ch, g), Execute(e);
    assert [x, y, z][0] == x && [x, y, z][1] == y && [x, y, z][2] == z;
    Arrives(c, m, ch, f);
    FeedKeepsShape(c, m, x);
    var m1 := Feed(c, m, x).vm;
    Arrives(c, m1, ch, g);
    FeedKeepsShape(c, m1, y);
    var m2 := Feed(c, m1, y).vm;
    Receives(c, m2, e, Truncate(g), [Truncate(f)] + m.rx[ch]);
    RunOfThree(c, m, x, y, z);
    CutPayload(f);
    CutPayload(g);
  }

  lemma ReceiveInside(c: Config, m: Vm)
    requires Shape(c, m) && m.pc < |c.program| && c.program[m.pc].typ == 7 && InBounds(c, c.program[m.pc])
    ensures var i := c.program[m.pc]; i.args[0] < |c.channels| == |m.rx| && i.args[1] < |m.vars|
  {
  }

  lemma CutPayload(g: Frame)
    ensures Payload(Truncate(g)) == if |g| <= 1500 then g[14..] else g[14..1500]
    ensures Truncate(g) == if |g| <= 1500 then g else g[..1500]
  {
  }

  // ----- error bits -----

  lemma FaultMask(f: Faults, x: u32)
    ensures IsErrorSet(FaultBits(f), Mask16(x)) <==>
            (f.receiveFailed && x / 0x400 % 2 == 1) || (f.syncTimedOut && x / 0x8000 % 2 == 1)
  {
    var y := x % 0x1_0000;
    TenthBit(y);
    LastBit(y);
    BitOfLow(x);
    MasksApart(f, y as bv16);
  }

  lemma TenthBit(y: int)
    requires 0 <= y < 0x1_0000
    ensures (y as bv16) & 0x0400 != 0 <==> y / 0x400 % 2 == 1
  {
  }

  lemma LastBit(y: int)
    requires 0 <= y < 0x1_0000
    ensures (y as bv16) & 0x8000 != 0 <==> y / 0x8000 % 2 == 1
  {
  }

  lemma BitOfLow(x: u32)
    ensures x % 0x1_0000 / 0x400 % 2 == x / 0x400 % 2 && x % 0x1_0000 / 0x8000 % 2 == x / 0x8000 % 2
  {
    var q, y := x / 0x1_0000, x % 0x1_0000;
    assert x == q * 0x1_0000 + y;
    LowShift(q, y, 0x400, 0x20);
    LowShift(q, y, 0x8000, 1);
  }

  lemma LowShift(q: nat, y: nat, unit: nat, k: nat)
    requires unit > 0
    ensures (q * (unit * (2 * k)) + y) / unit % 2 == y / unit % 2
  {
    QuotientRest(y, unit);
    ShiftProduct(q, unit, k);
    DivUnique(q * (unit * (2 * k)) + y, unit, 2 * (q * k) + y / unit, y % unit);
  }

  lemma ShiftProduct(q: nat, unit: nat, k: nat)
    ensures q * (unit * (2 * k)) == 2 * (q * k) * unit
    ensures forall z: nat :: (2 * (q * k) + z) * unit == 2 * (q * k) * unit + z * unit
  {
  }

  lemma MasksApart(f: Faults, b: bv16)
    ensures IsErrorSet(FaultBits(f), b) <==> (f.receiveFailed && b & 0x0400 != 0) || (f.syncTimedOut && b & 0x8000 != 0)
  {
  }

  /**
   STATUS_TEST in every run from the initial state: it holds if and only if its mask has bit 10 and the last RECEIVE
   failed, or its mask has bit 15 and the last slave SYNC timed out.
   */
  lemma StatusTestMeans(c: Config, inputs: seq<Input>, mask: u32, arg1: u32)
    requires c.Valid() && PossibleAll(c, inputs)
    ensures Shape(c, Init(c))
    ensures var o, f := Run(c, Init(c), inputs), RunFaults(c, Init(c), inputs, Faults(false, false));
      o.Next? ==>
        && Shape(c, o.vm)
        && GuardValue(c, o.vm, 5, mask, arg1) ==
           Some((f.receiveFailed && mask / 0x400 % 2 == 1) || (f.syncTimedOut && mask / 0x8000 % 2 == 1))
  {
    hide Run, RunFaults, Shape, IsErrorSet, Mask16;
    InitShape(c);
    RunShape(c, Init(c), inputs);
    NoFaults();
    ErrorBitsMeaning(c, Init(c), inputs, Faults(false, false));
    FaultMask(RunFaults(c, Init(c), inputs, Faults(false, false)), mask);
  }

  lemma NoFaults()
    ensures FaultBits(Faults(false, false)) == 0
  {
  }
}
