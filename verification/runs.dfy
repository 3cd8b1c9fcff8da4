/** Whole runs of the virtual machine, interleaved with user-space writes and arriving frames. */
module Runs {
  import opened Words
  import opened Bytes
  import opened FutureSpec
  import opened VariableSpaces
  import opened Frames
  import opened Sync
  import opened Machine

  /** What can happen next: the interpreter executes an instruction, a user writes a variable, a frame arrives. */
  datatype Input =
    | Execute(e: Env)
    | Write(variable: nat, bytes: Data)
    | Arrive(channel: nat, frame: Frame)

  ghost predicate Possible(c: Config, i: Input) {
    match i
    case Execute(_) => true
    case Write(v, bytes) => v < c.variables && |bytes| <= MAX_VAR_SIZE_BYTES
    case Arrive(ch, _) => ch < |c.channels|
  }

  /** The receive thread puts an accepted frame in front of the channel's list. */
  function Enqueue(c: Config, m: Vm, ch: nat, frame: Frame): Vm
    requires ch < |c.channels| == |m.rx|
  {
    if Accepts(c.channels[ch].peer, frame) then m.(rx := m.rx[ch := [Truncate(frame)] + m.rx[ch]]) else m
  }

  ghost function Feed(c: Config, m: Vm, i: Input): Outcome
    requires Shape(c, m) && Possible(c, i)
  {
    match i
    case Execute(e) => Step(c, m, e)
    case Write(v, bytes) => Next(m.(vars := m.vars[v := bytes]), [])
    case Arrive(ch, frame) => Next(Enqueue(c, m, ch, frame), [])
  }

  // ----- one step keeps the shape -----

  lemma InitShape(c: Config)
    requires c.Valid()
    ensures Shape(c, Init(c))
  {
  }

  lemma PushKeepsShape(c: Config, q: seq<Future>, f: Future)
    requires QueueShape(c, q) && |q| < c.capacity && f.jmp < |c.program|
    ensures QueueShape(c, Insert(q, f)) && Insert(q, f) != []
  {
    var k := InsertPlaces(q, f);
    InsertSorted(q, f);
    var r := q[..k] + [f] + q[k..];
    forall j | 0 <= j < |r|
      ensures r[j].jmp < |c.program|
    {
      assert r[j] == if j < k then q[j] else if j == k then f else q[j - 1];
    }
  }

  lemma FutureKeepsQueueShape(c: Config, m: Vm, i: Instr, e: Env)
    requires QueueShape(c, m.queue)
    ensures var h := FutureEffect(c, m, i, e);
      QueueShape(c, h.vm.queue) && (h.status == Ok ==> h.vm.queue != [])
  {
    if FutureEffect(c, m, i, e).status == Ok {
      PushKeepsShape(c, m.queue, Future(i.args[1], i.args[0], Wrap64(e.pushClock + i.args[0])));
    }
  }

  lemma HaltKeepsQueueShape(c: Config, m: Vm, e: Env)
    requires QueueShape(c, m.queue)
    ensures var h := HaltEffect(m, e);
      QueueShape(c, h.vm.queue) && (h.status == ChangePc ==> h.vm.pc < |c.program|)
  {
    if m.queue != [] {
      var q := m.queue[1..];
      assert forall k :: 0 <= k < |q| ==> q[k] == m.queue[k + 1];
    }
  }

  lemma HandleKeepsQueueShape(c: Config, m: Vm, i: Instr, e: Env)
    requires Shape(c, m) && InBounds(c, i)
    ensures Handle(c, m, i, e).Some? ==> QueueShape(c, Handle(c, m, i, e).value.vm.queue)
  {
    if i.typ == FUTURE {
      FutureKeepsQueueShape(c, m, i, e);
    } else if i.typ == HALT {
      HaltKeepsQueueShape(c, m, e);
    } else if i.typ == WAIT {
      FutureKeepsQueueShape(c, m, i, e);
      HaltKeepsQueueShape(c, FutureEffect(c, m, i, e).vm, e);
    } else {
      assert Handle(c, m, i, e).Some? ==> Handle(c, m, i, e).value.vm.queue == m.queue;
    }
  }

  lemma HandleKeepsBufferShape(c: Config, m: Vm, i: Instr, e: Env)
    requires Shape(c, m) && InBounds(c, i)
    ensures Handle(c, m, i, e).Some? ==> BufferShape(c, Handle(c, m, i, e).value.vm)
  {
    if i.typ == RECEIVE && m.rx[i.args[0]] != [] {
      var m' := Handle(c, m, i, e).value.vm;
      forall ch, k | 0 <= ch < |m'.rx| && 0 <= k < |m'.rx[ch]|
        ensures |m'.rx[ch][k]| <= ETH_DATA_LEN
      {
        assert m'.rx[ch][k] == if ch == i.args[0] then m.rx[ch][k + 1] else m.rx[ch][k];
      }
    }
  }

  lemma HandleKeepsShape(c: Config, m: Vm, i: Instr, e: Env)
    requires Shape(c, m) && InBounds(c, i)
    ensures Handle(c, m, i, e).Some? ==> Shape(c, Handle(c, m, i, e).value.vm)
  {
    HandleKeepsQueueShape(c, m, i, e);
    HandleKeepsBufferShape(c, m, i, e);
  }

  lemma FeedKeepsShape(c: Config, m: Vm, i: Input)
    requires Shape(c, m) && Possible(c, i)
    ensures Feed(c, m, i).Next? ==> Shape(c, Feed(c, m, i).vm)
  {
    if i.Execute? && m.pc < |c.program| && InBounds(c, c.program[m.pc]) {
      HandleKeepsShape(c, m, c.program[m.pc], i.e);
    }
  }

  /** The outcome of a whole sequence of inputs; it ends early when the interpreter thread does. */
  ghost function Run(c: Config, m: Vm, inputs: seq<Input>): Outcome
    requires Shape(c, m) && forall k :: 0 <= k < |inputs| ==> Possible(c, inputs[k])
    decreases inputs
  {
    if inputs == [] then Next(m, [])
    else
      FeedKeepsShape(c, m, inputs[0]);
      match Feed(c, m, inputs[0])
      case Next(m1, ev) => Prefixed(ev, Run(c, m1, inputs[1..]))
      case other => other
  }

  lemma RunOfNothing(c: Config, m: Vm)
    requires Shape(c, m)
    ensures Run(c, m, []) == Next(m, [])
  {
  }

  function Prefixed(ev: seq<Event>, o: Outcome): Outcome {
    match o
    case Next(m, rest) => Next(m, ev + rest)
    case Stopped(code, m, rest) => Stopped(code, m, ev + rest)
    case Undefined => Undefined
  }

  /** A run that is still going can be extended by one input. */
  lemma {:induction false} RunExtends(c: Config, m: Vm, inputs: seq<Input>, i: Input)
    requires Shape(c, m) && (forall k :: 0 <= k < |inputs| ==> Possible(c, inputs[k])) && Possible(c, i)
    ensures var o := Run(c, m, inputs);
      o.Next? ==> Shape(c, o.vm) && Run(c, m, inputs + [i]) == Prefixed(o.events, Feed(c, o.vm, i))
    decreases inputs
  {
    FeedKeepsShape(c, m, (inputs + [i])[0]);
    if inputs == [] {
      assert (inputs + [i])[1..] == [];
      var o := Feed(c, m, i);
      assert o.Next? ==> Run(c, o.vm, []) == Next(o.vm, []) && o.events + [] == o.events;
      assert !o.Undefined? ==> [] + o.events == o.events;
    } else {
      assert (inputs + [i])[1..] == inputs[1..] + [i];
      var o := Feed(c, m, inputs[0]);
      if o.Next? {
        RunExtends(c, o.vm, inputs[1..], i);
        var rest := Run(c, o.vm, inputs[1..]);
        if rest.Next? {
          PrefixedTwice(o.events, rest.events, Feed(c, rest.vm, i));
        }
      }
    }
  }

  /** What comes after the thread has returned does not matter. */
  lemma {:induction false} RunStopsEarly(c: Config, m: Vm, inputs: seq<Input>, more: seq<Input>)
    requires Shape(c, m)
    requires forall k :: 0 <= k < |inputs| ==> Possible(c, inputs[k])
    requires forall k :: 0 <= k < |more| ==> Possible(c, more[k])
    requires !Run(c, m, inputs).Next?
    ensures Run(c, m, inputs + more) == Run(c, m, inputs)
    decreases inputs
  {
    FeedKeepsShape(c, m, inputs[0]);
    assert (inputs + more)[1..] == inputs[1..] + more;
    var o := Feed(c, m, inputs[0]);
    if o.Next? {
      RunStopsEarly(c, o.vm, inputs[1..], more);
    }
  }

  lemma PrefixedTwice(ev1: seq<Event>, ev2: seq<Event>, o: Outcome)
    ensures Prefixed(ev1, Prefixed(ev2, o)) == Prefixed(ev1 + ev2, o)
  {
    if !o.Undefined? {
      assert ev1 + (ev2 + o.events) == (ev1 + ev2) + o.events;
    }
  }

  // ----- what the queue sees of a run -----

  /** Futures scheduled by successful pushes, in order. */
  function Pushes(ev: seq<Event>): seq<Future> {
    if ev == [] then []
    else if ev[0].Pushed? then [ev[0].f] + Pushes(ev[1..])
    else Pushes(ev[1..])
  }

  /** Futures taken by HALT and WAIT, in order. */
  function Takes(ev: seq<Event>): seq<Future> {
    if ev == [] then []
    else if ev[0].Took? then [ev[0].f] + Takes(ev[1..])
    else Takes(ev[1..])
  }

  /** Frames handed to the driver, in order. */
  function SentFrames(ev: seq<Event>): seq<Frame> {
    if ev == [] then []
    else if ev[0].Sent? then [ev[0].frame] + SentFrames(ev[1..])
    else SentFrames(ev[1..])
  }

  lemma {:induction false} NoFrames(ev: seq<Event>)
    requires forall k :: 0 <= k < |ev| ==> !ev[k].Sent?
    ensures SentFrames(ev) == []
  {
    if ev != [] {
      NoFrames(ev[1..]);
    }
  }

  lemma ControlSendsNothing(c: Config, m: Vm, i: Instr, e: Env)
    requires Shape(c, m) && InBounds(c, i) && i.typ in {FUTURE, HALT, WAIT, GOTO, IF}
    ensures SentFrames(Handle(c, m, i, e).value.events) == []
  {
    var ev := Handle(c, m, i, e).value.events;
    assert |ev| <= 2 && forall k :: 0 <= k < |ev| ==> !ev[k].Sent?;
    NoFrames(ev);
  }

  lemma {:induction false} SentFramesAppend(ev1: seq<Event>, ev2: seq<Event>)
    ensures SentFrames(ev1 + ev2) == SentFrames(ev1) + SentFrames(ev2)
  {
    if ev1 == [] {
      assert ev1 + ev2 == ev2;
    } else {
      assert (ev1 + ev2)[1..] == ev1[1..] + ev2;
      SentFramesAppend(ev1[1..], ev2);
    }
  }

  /** The queue follows from its events alone: a push inserts, and what is taken is the head. */
  ghost predicate Replays(q: seq<Future>, ev: seq<Event>, q': seq<Future>)
    decreases ev
  {
    if ev == [] then q == q'
    else
      match ev[0]
      case Pushed(f, _) => Replays(Insert(q, f), ev[1..], q')
      case Took(f, _) => q != [] && q[0] == f && Replays(q[1..], ev[1..], q')
      case Sent(_) => Replays(q, ev[1..], q')
  }

  lemma {:induction false} ReplaysCompose(q0: seq<Future>, ev1: seq<Event>, q1: seq<Future>,
                                          ev2: seq<Event>, q2: seq<Future>)
    requires Replays(q0, ev1, q1) && Replays(q1, ev2, q2)
    ensures Replays(q0, ev1 + ev2, q2)
    decreases ev1
  {
    if ev1 == [] {
      assert ev1 + ev2 == ev2;
    } else {
      assert (ev1 + ev2)[1..] == ev1[1..] + ev2;
      match ev1[0] {
        case Pushed(f, _) => ReplaysCompose(Insert(q0, f), ev1[1..], q1, ev2, q2);
        case Took(f, _) => ReplaysCompose(q0[1..], ev1[1..], q1, ev2, q2);
        case Sent(_) => ReplaysCompose(q0, ev1[1..], q1, ev2, q2);
      }
    }
  }

  lemma HandleReplays(c: Config, m: Vm, i: Instr, e: Env)
    requires Shape(c, m) && InBounds(c, i) && Handle(c, m, i, e).Some?
    ensures var h := Handle(c, m, i, e).value; Replays(m.queue, h.events, h.vm.queue)
  {
    var h := Handle(c, m, i, e).value;
    if i.typ == WAIT && FutureEffect(c, m, i, e).status == Ok {
      var future := FutureEffect(c, m, i, e);
      var halt := HaltEffect(future.vm, e);
      assert future.vm.queue != [];
      assert h.events == future.events + halt.events;
      assert h.events[1..][1..] == [];
    } else {
      assert |h.events| <= 1;
    }
  }

  lemma {:induction false} RunReplays(c: Config, m: Vm, inputs: seq<Input>)
    requires Shape(c, m) && forall k :: 0 <= k < |inputs| ==> Possible(c, inputs[k])
    ensures var o := Run(c, m, inputs); !o.Undefined? ==> Replays(m.queue, o.events, o.vm.queue)
    decreases inputs
  {
    if inputs != [] {
      var i := inputs[0];
      FeedKeepsShape(c, m, i);
      var o := Feed(c, m, i);
      if i.Execute? && m.pc < |c.program| && InBounds(c, c.program[m.pc]) && Handle(c, m, c.program[m.pc], i.e).Some? {
        HandleReplays(c, m, c.program[m.pc], i.e);
      }
      if o.Next? {
        RunReplays(c, o.vm, inputs[1..]);
        var rest := Run(c, o.vm, inputs[1..]);
        if !rest.Undefined? {
          ReplaysCompose(m.queue, o.events, o.vm.queue, rest.events, rest.vm.queue);
        }
      }
    }
  }

  // ----- conservation: nothing scheduled is lost, duplicated or invented -----

  lemma {:induction false} ReplayConserves(q: seq<Future>, ev: seq<Event>, q': seq<Future>)
    requires Replays(q, ev, q') && Sorted(q)
    ensures Sorted(q')
    ensures multiset(q) + multiset(Pushes(ev)) == multiset(Takes(ev)) + multiset(q')
    decreases ev
  {
    if ev != [] {
      match ev[0] {
        case Pushed(f, _) =>
          InsertSorted(q, f);
          InsertMultiset(q, f);
          ReplayConserves(Insert(q, f), ev[1..], q');
        case Took(f, _) =>
          ReplayConserves(q[1..], ev[1..], q');
          assert q == [f] + q[1..];
          assert Takes(ev) == [f] + Takes(ev[1..]) && Pushes(ev) == Pushes(ev[1..]);
          TakeConserves(f, q[1..], Pushes(ev), Takes(ev[1..]), q');
        case Sent(_) =>
          ReplayConserves(q, ev[1..], q');
      }
    }
  }

  lemma TakeConserves(f: Future, q: seq<Future>, pushes: seq<Future>, takes: seq<Future>, q': seq<Future>)
    requires multiset(q) + multiset(pushes) == multiset(takes) + multiset(q')
    ensures multiset([f] + q) + multiset(pushes) == multiset([f] + takes) + multiset(q')
  {
    assert multiset([f] + q) + multiset(pushes) == multiset{f} + (multiset(q) + multiset(pushes));
    assert multiset([f] + takes) + multiset(q') == multiset{f} + (multiset(takes) + multiset(q'));
  }

  /**
   In every run that starts from `init_interpreter`, the futures scheduled are exactly the futures
   taken together with those still queued; in particular pushes = pops + queue length.
   */
  lemma FuturesConserved(c: Config, inputs: seq<Input>)
    requires c.Valid() && forall k :: 0 <= k < |inputs| ==> Possible(c, inputs[k])
    ensures Shape(c, Init(c))
    ensures var o := Run(c, Init(c), inputs);
      !o.Undefined? ==>
        && multiset(Pushes(o.events)) == multiset(Takes(o.events)) + multiset(o.vm.queue)
        && |Pushes(o.events)| == |Takes(o.events)| + |o.vm.queue|
  {
    InitShape(c);
    RunReplays(c, Init(c), inputs);
    var o := Run(c, Init(c), inputs);
    if !o.Undefined? {
      ReplayConserves([], o.events, o.vm.queue);
      assert multiset(Pushes(o.events)) == multiset(Takes(o.events)) + multiset(o.vm.queue);
      assert |multiset(Pushes(o.events))| == |multiset(Takes(o.events))| + |multiset(o.vm.queue)|;
    }
  }

  /** `start_interpreter` after a stop: counter of the program and network start anew, all else stays as it is. */
  function Restarted(c: Config, m: Vm): Vm {
    m.(pc := 0, slots := seq(c.messages, _ => None), rx := seq(|c.channels|, _ => []))
  }

  /**
   A restart does not empty the queue: conservation then counts the futures of the earlier run too, and
   pushes alone match takes exactly if none were left over.
   */
  lemma RestartConserves(c: Config, m: Vm, inputs: seq<Input>)
    requires Shape(c, m) && forall k :: 0 <= k < |inputs| ==> Possible(c, inputs[k])
    ensures Shape(c, Restarted(c, m))
    ensures var o := Run(c, Restarted(c, m), inputs);
      !o.Undefined? ==>
        && multiset(m.queue) + multiset(Pushes(o.events)) == multiset(Takes(o.events)) + multiset(o.vm.queue)
        && (|Pushes(o.events)| == |Takes(o.events)| + |o.vm.queue| <==> m.queue == [])
  {
    hide Run;
    var m0 := Restarted(c, m);
    RunReplays(c, m0, inputs);
    var o := Run(c, m0, inputs);
    if !o.Undefined? {
      ReplayConserves(m.queue, o.events, o.vm.queue);
      assert |multiset(m.queue) + multiset(Pushes(o.events))| == |multiset(Takes(o.events)) + multiset(o.vm.queue)|;
    }
  }

  // ----- time -----

  function Max(a: int, b: int): int {
    if a < b then b else a
  }

  /**
   The clock never goes backwards, no expiry overflows, and a sleep lasts at least until the expiry if that
   is still ahead.  A HALT may come late: then all that is known is that the clock does not go back.  `t`
   is the latest time known so far.
   */
  ghost predicate ClockRuns(t: int, ev: seq<Event>)
    decreases ev
  {
    if ev == [] then true
    else
      match ev[0]
      case Pushed(f, at) => t <= at && f.expiry == at + f.wait && ClockRuns(at, ev[1..])
      case Took(f, at) => t <= at && ClockRuns(Max(at, f.expiry), ev[1..])
      case Sent(_) => ClockRuns(t, ev[1..])
  }

  /** All expiries are at least `t`. */
  ghost predicate NotBefore(t: int, s: seq<Future>) {
    forall k :: 0 <= k < |s| ==> t <= s[k].expiry
  }

  lemma InsertNotBefore(low: int, q: seq<Future>, f: Future)
    requires Sorted(q) && NotBefore(low, q) && low <= f.expiry
    ensures NotBefore(low, Insert(q, f))
  {
    var k := InsertPlaces(q, f);
    var r := q[..k] + [f] + q[k..];
    forall j | 0 <= j < |r|
      ensures low <= r[j].expiry
    {
      assert r[j] == if j < k then q[j] else if j == k then f else q[j - 1];
    }
  }

  lemma SortedCons(f: Future, s: seq<Future>)
    requires Sorted(s) && NotBefore(f.expiry, s)
    ensures Sorted([f] + s)
  {
  }

  lemma {:induction false} ReplayTakesInOrder(t: int, low: int, q: seq<Future>, ev: seq<Event>, q': seq<Future>)
    requires Replays(q, ev, q') && Sorted(q) && ClockRuns(t, ev)
    requires low <= t && NotBefore(low, q)
    ensures Sorted(Takes(ev)) && NotBefore(low, Takes(ev))
    decreases ev
  {
    if ev != [] {
      match ev[0] {
        case Pushed(f, at) =>
          InsertSorted(q, f);
          InsertNotBefore(low, q, f);
          ReplayTakesInOrder(at, low, Insert(q, f), ev[1..], q');
        case Took(f, at) =>
          var wake := Max(at, f.expiry);
          assert NotBefore(f.expiry, q[1..]) && Sorted(q[1..]);
          ReplayTakesInOrder(wake, f.expiry, q[1..], ev[1..], q');
          SortedCons(f, Takes(ev[1..]));
        case Sent(_) =>
          ReplayTakesInOrder(t, low, q, ev[1..], q');
      }
    }
  }

  /**
   From `init_interpreter`, under a clock that never goes backwards, the expiries of the futures
   taken by HALT and WAIT never decrease over the whole run, missed deadlines or not.
   */
  lemma DeadlinesNonDecreasing(c: Config, inputs: seq<Input>)
    requires c.Valid() && forall k :: 0 <= k < |inputs| ==> Possible(c, inputs[k])
    ensures Shape(c, Init(c))
    ensures var o := Run(c, Init(c), inputs);
      !o.Undefined? && ClockRuns(0, o.events) ==> Sorted(Takes(o.events))
  {
    InitShape(c);
    RunReplays(c, Init(c), inputs);
    var o := Run(c, Init(c), inputs);
    if !o.Undefined? && ClockRuns(0, o.events) {
      ReplayTakesInOrder(0, 0, [], o.events, o.vm.queue);
    }
  }

  // ----- error bits -----

  /** How the last RECEIVE and the last slave SYNC of a run ended. */
  datatype Faults = Faults(receiveFailed: bool, syncTimedOut: bool)

  ghost function FaultsAfter(c: Config, m: Vm, e: Env, f: Faults): Faults
    requires Shape(c, m)
  {
    if m.pc >= |c.program| || !InBounds(c, c.program[m.pc]) then f
    else
      var i := c.program[m.pc];
      if i.typ == RECEIVE then f.(receiveFailed := m.rx[i.args[0]] == [])
      else if i.typ == SYNC && i.args[0] != SYNC_MASTER then
        f.(syncTimedOut := !Answered(e.syncStart, i.args[1], e.attempts))
      else f
  }

  ghost function RunFaults(c: Config, m: Vm, inputs: seq<Input>, f: Faults): Faults
    requires Shape(c, m) && forall k :: 0 <= k < |inputs| ==> Possible(c, inputs[k])
    decreases inputs
  {
    if inputs == [] then f
    else
      FeedKeepsShape(c, m, inputs[0]);
      var f1 := if inputs[0].Execute? then FaultsAfter(c, m, inputs[0].e, f) else f;
      match Feed(c, m, inputs[0])
      case Next(m1, _) => RunFaults(c, m1, inputs[1..], f1)
      case _ => f1
  }

  function FaultBits(f: Faults): bv16 {
    (if f.receiveFailed then 0x0400 else 0) | (if f.syncTimedOut then 0x8000 else 0)
  }

  lemma ErrorBitArithmetic(f: Faults)
    ensures SetError(FaultBits(f), ERR_BIT_RCV_FAULT) == FaultBits(f.(receiveFailed := true))
    ensures ClearError(FaultBits(f), ERR_BIT_RCV_FAULT) == FaultBits(f.(receiveFailed := false))
    ensures SetError(FaultBits(f), ERR_BIT_SYNC_TIMEOUT) == FaultBits(f.(syncTimedOut := true))
    ensures ClearError(FaultBits(f), ERR_BIT_SYNC_TIMEOUT) == FaultBits(f.(syncTimedOut := false))
  {
  }

  lemma HandleErrorBits(c: Config, m: Vm, i: Instr, e: Env)
    requires Shape(c, m) && InBounds(c, i) && Handle(c, m, i, e).Some?
    requires !(i.typ == RECEIVE || (i.typ == SYNC && i.args[0] != SYNC_MASTER))
    ensures Handle(c, m, i, e).value.vm.errorBits == m.errorBits
  {
  }

  lemma StepErrorBits(c: Config, m: Vm, e: Env, f: Faults)
    requires Shape(c, m) && m.errorBits == FaultBits(f)
    ensures var o := Step(c, m, e); !o.Undefined? ==> o.vm.errorBits == FaultBits(FaultsAfter(c, m, e, f))
  {
    ErrorBitArithmetic(f);
    if m.pc < |c.program| && InBounds(c, c.program[m.pc]) && Handle(c, m, c.program[m.pc], e).Some? {
      var i := c.program[m.pc];
      if !(i.typ == RECEIVE || (i.typ == SYNC && i.args[0] != SYNC_MASTER)) {
        HandleErrorBits(c, m, i, e);
      }
    }
  }

  /** Bit 10 says whether the last RECEIVE failed, bit 15 whether the last slave SYNC timed out;
      no other bit is ever set. */
  lemma {:induction false} ErrorBitsMeaning(c: Config, m: Vm, inputs: seq<Input>, f: Faults)
    requires Shape(c, m) && forall k :: 0 <= k < |inputs| ==> Possible(c, inputs[k])
    requires m.errorBits == FaultBits(f)
    ensures var o := Run(c, m, inputs); !o.Undefined? ==> o.vm.errorBits == FaultBits(RunFaults(c, m, inputs, f))
    decreases inputs
  {
    if inputs != [] {
      FeedKeepsShape(c, m, inputs[0]);
      var o := Feed(c, m, inputs[0]);
      var f1 := if inputs[0].Execute? then FaultsAfter(c, m, inputs[0].e, f) else f;
      if inputs[0].Execute? {
        StepErrorBits(c, m, inputs[0].e, f);
      }
      if o.Next? {
        ErrorBitsMeaning(c, o.vm, inputs[1..], f1);
      }
    }
  }

  // ----- WAIT -----

  /** Two turns of the main loop. */
  ghost function TwoSteps(c: Config, m: Vm, e: Env): Outcome
    requires Shape(c, m)
  {
    FeedKeepsShape(c, m, Execute(e));
    match Step(c, m, e)
    case Next(m1, ev) => Prefixed(ev, Step(c, m1, e))
    case other => other
  }

  function FutureThenHalt(c: Config, m: Vm, i: Instr, e: Env): Outcome {
    var f := FutureEffect(c, m, i, e);
    if f.status == Ok then Prefixed(f.events, Finish(HaltEffect(f.vm.(pc := Wrap32(m.pc + 1)), e))) else Finish(f)
  }

  lemma WaitTurn(c: Config, m: Vm, e: Env)
    requires Shape(c, m) && m.pc < |c.program| && c.program[m.pc].typ == WAIT
    ensures Step(c, m, e) == FutureThenHalt(c, m, c.program[m.pc], e)
  {
    WaitSplits(c, m, c.program[m.pc], e);
  }

  /** The handler of WAIT is the handler of FUTURE followed by that of HALT one instruction further on. */
  lemma WaitSplits(c: Config, m: Vm, i: Instr, e: Env)
    ensures Finish(WaitEffect(c, m, i, e)) == FutureThenHalt(c, m, i, e)
  {
  }

  lemma FutureHaltTurns(c: Config, m: Vm, e: Env)
    requires c.Valid() && Shape(c, m) && m.pc + 1 < |c.program|
    requires c.program[m.pc].typ == FUTURE && c.program[m.pc + 1].typ == HALT
    ensures TwoSteps(c, m, e) == FutureThenHalt(c, m, c.program[m.pc], e)
  {
    FeedKeepsShape(c, m, Execute(e));
    var f := FutureEffect(c, m, c.program[m.pc], e);
    assert Step(c, m, e) == Finish(f);
    if f.status == Ok {
      assert Finish(f).vm.pc == m.pc + 1;
    }
  }

  /**
   One WAIT step leads where a FUTURE step followed by a HALT step leads: with the same arguments, in
   a program of the same length that has FUTURE and HALT where `c` has WAIT.
   */
  lemma WaitIsFutureThenHalt(c: Config, d: Config, m: Vm, e: Env)
    requires Shape(c, m) && Shape(d, m)
    requires |c.program| == |d.program| && c.capacity == d.capacity && d.Valid()
    requires m.pc + 1 < |c.program| && c.program[m.pc].typ == WAIT
    requires d.program[m.pc] == Instr(FUTURE, c.program[m.pc].args) && d.program[m.pc + 1].typ == HALT
    ensures Step(c, m, e) == TwoSteps(d, m, e)
  {
    WaitTurn(c, m, e);
    FutureHaltTurns(d, m, e);
  }
}
