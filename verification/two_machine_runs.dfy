/** Runs of two virtual machines on one network: what their programs receive is what the other program created. */
module TwoMachineRuns {
  import opened Words
  import opened Bytes
  import opened VariableSpaces
  import opened Frames
  import opened Machine
  import opened TwoMachines
  import R = Runs
  import T = TwoNodes

  datatype Packet = Packet(to: nat, frame: Frame)

  /** A value that a RECEIVE put into a variable. */
  datatype Got = Got(node: nat, value: Data)

  /** The two machines, the frames under way, and a record of what CREATE read and RECEIVE stored. */
  datatype World = World(
    vms: seq<Vm>,
    stopped: set<nat>,
    wire: seq<Packet>,
    created: seq<T.Created>,
    received: seq<Got>)

  datatype Input =
    | Execute(n: nat, e: Env)
    | Write(n: nat, v: nat, bytes: Data)
    | Lose(k: nat)
    | Arrive(k: nat)
    | Foreign(n: nat, frame: Frame)

  /** Two configurations in hard mode, each with one channel on an existing device. */
  ghost predicate Pair(cs: seq<Config>) {
    && |cs| == 2
    && forall n :: 0 <= n < 2 ==> cs[n].Valid() && |cs[n].channels| == 1 && cs[n].channels[0].device.Some?
  }

  function Peer(cs: seq<Config>, n: nat): Mac
    requires n < |cs| && |cs[n].channels| == 1
  {
    cs[n].channels[0].peer
  }

  function Address(cs: seq<Config>, n: nat): Mac
    requires n < |cs| && |cs[n].channels| == 1 && cs[n].channels[0].device.Some?
  {
    cs[n].channels[0].device.value
  }

  ghost predicate WorldShape(cs: seq<Config>, w: World) {
    && Pair(cs) && |w.vms| == 2
    && (forall n :: 0 <= n < 2 ==> Shape(cs[n], w.vms[n]))
    && (forall k :: 0 <= k < |w.wire| ==> w.wire[k].to < 2)
  }

  ghost predicate CanHappen(cs: seq<Config>, w: World, i: Input)
    requires WorldShape(cs, w)
  {
    match i
    case Execute(n, e) =>
      n < 2 && n !in w.stopped && w.vms[n].pc < |cs[n].program| && InBounds(cs[n], cs[n].program[w.vms[n].pc])
    case Write(n, v, bytes) => n < 2 && v < cs[n].variables && |bytes| <= MAX_VAR_SIZE_BYTES
    case Lose(k) => k < |w.wire|
    case Arrive(k) => k < |w.wire|
    case Foreign(n, frame) => n < 2 && !Accepts(Peer(cs, n), frame)
  }

  lemma StepKeepsShape(c: Config, m: Vm, e: Env)
    requires Shape(c, m) && m.pc < |c.program| && InBounds(c, c.program[m.pc])
    ensures var o := Step(c, m, e); !o.Undefined? && Shape(c, o.vm)
  {
    hide Handle, InBounds, QueueShape;
    R.HandleKeepsShape(c, m, c.program[m.pc], e);
  }

  lemma EnqueueKeepsShape(c: Config, m: Vm, frame: Frame)
    requires Shape(c, m) && |c.channels| == 1
    ensures Shape(c, R.Enqueue(c, m, 0, frame))
  {
    R.FeedKeepsShape(c, m, R.Arrive(0, frame));
  }

  function Packets(to: nat, frames: seq<Frame>): (p: seq<Packet>)
    ensures |p| == |frames|
  {
    seq(|frames|, k requires 0 <= k < |frames| => Packet(to, frames[k]))
  }

  /** What the instruction adds to the record of CREATEs. */
  function CreatedBy(n: nat, m: Vm, i: Instr): seq<T.Created>
    requires i.typ == CREATE ==> i.args[0] < |m.vars|
  {
    if i.typ == CREATE then [T.Created(n, m.vars[i.args[0]])] else []
  }

  /** What it adds to the record of values received; `m1` is the state afterwards. */
  function ReceivedBy(n: nat, m: Vm, m1: Vm, i: Instr): seq<Got>
    requires i.typ == RECEIVE ==> i.args[0] < |m.rx| && i.args[1] < |m1.vars|
  {
    if i.typ == RECEIVE && m.rx[i.args[0]] != [] then [Got(n, m1.vars[i.args[1]])] else []
  }

  ghost function Advance(cs: seq<Config>, w: World, i: Input): World
    requires WorldShape(cs, w) && CanHappen(cs, w, i)
  {
    match i
    case Execute(n, e) =>
      var m, instr := w.vms[n], cs[n].program[w.vms[n].pc];
      StepKeepsShape(cs[n], m, e);
      var o := Step(cs[n], m, e);
      World(w.vms[n := o.vm],
            if o.Stopped? then w.stopped + {n} else w.stopped,
            w.wire + Packets(1 - n, R.SentFrames(o.events)),
            w.created + CreatedBy(n, m, instr),
            w.received + ReceivedBy(n, m, o.vm, instr))
    case Write(n, v, bytes) => w.(vms := w.vms[n := R.Feed(cs[n], w.vms[n], R.Write(v, bytes)).vm])
    case Lose(k) => w.(wire := T.Without(w.wire, k))
    case Arrive(k) =>
      var Packet(to, frame) := w.wire[k];
      w.(wire := T.Without(w.wire, k), vms := w.vms[to := R.Enqueue(cs[to], w.vms[to], 0, frame)])
    case Foreign(n, frame) => w.(vms := w.vms[n := R.Enqueue(cs[n], w.vms[n], 0, frame)])
  }

  lemma AdvanceKeepsShape(cs: seq<Config>, w: World, i: Input)
    requires WorldShape(cs, w) && CanHappen(cs, w, i)
    ensures WorldShape(cs, Advance(cs, w, i))
  {
    hide Shape, InBounds, Step, R.Feed, R.Enqueue;
    match i {
      case Execute(n, e) => StepKeepsShape(cs[n], w.vms[n], e);
      case Write(n, v, bytes) => WriteKeepsShape(cs[n], w.vms[n], v, bytes);
      case Lose(_) =>
      case Arrive(k) => EnqueueKeepsShape(cs[w.wire[k].to], w.vms[w.wire[k].to], w.wire[k].frame);
      case Foreign(n, frame) => EnqueueKeepsShape(cs[n], w.vms[n], frame);
    }
  }

  lemma WriteKeepsShape(c: Config, m: Vm, v: nat, bytes: Data)
    requires Shape(c, m) && v < c.variables && |bytes| <= MAX_VAR_SIZE_BYTES
    ensures R.Feed(c, m, R.Write(v, bytes)).Next? && Shape(c, R.Feed(c, m, R.Write(v, bytes)).vm)
  {
    R.FeedKeepsShape(c, m, R.Write(v, bytes));
  }

  ghost predicate Run(cs: seq<Config>, w: World, inputs: seq<Input>, w': World)
    requires WorldShape(cs, w)
    decreases inputs
  {
    if inputs == [] then w == w'
    else
      CanHappen(cs, w, inputs[0]) &&
      (AdvanceKeepsShape(cs, w, inputs[0]); Run(cs, Advance(cs, w, inputs[0]), inputs[1..], w'))
  }

  /** Both machines as `init_interpreter` leaves them, nothing under way. */
  ghost predicate Initial(cs: seq<Config>, w: World) {
    Pair(cs) && w == World([Init(cs[0]), Init(cs[1])], {}, [], [], [])
  }

  // ----- the two-node system follows -----

  /** The nodes are in the states of the machines, and both records agree. */
  ghost predicate Follows(cs: seq<Config>, s: T.System, w: World) {
    && WorldShape(cs, w) && |s.nodes| == 2
    && Matches(s.nodes[0], cs[0], w.vms[0]) && Matches(s.nodes[1], cs[1], w.vms[1])
    && Untagged(s.wire) == w.wire && s.created == w.created && Values(s.received) == w.received
  }

  function Untagged(q: seq<T.Transit>): (p: seq<Packet>)
    ensures |p| == |q|
  {
    seq(|q|, k requires 0 <= k < |q| => Packet(q[k].to, q[k].message.frame))
  }

  function Values(q: seq<T.Received>): (v: seq<Got>)
    ensures |v| == |q|
  {
    seq(|q|, k requires 0 <= k < |q| => Got(q[k].node, q[k].stored))
  }

  ghost function Act(s: T.System, a: Option<T.Action>): T.System
    requires a.Some? ==> T.Enabled(s, a.value)
  {
    if a.Some? then T.Step(s, a.value) else s
  }

  /** The instruction at the program counter, on machine `n`. */
  ghost predicate AtInstruction(s: T.System, n: nat, c: Config, m: Vm, typ: u8) {
    && |s.nodes| == 2 && n < 2 && Matches(s.nodes[n], c, m) && Shape(c, m) && |c.channels| == 1
    && m.pc < |c.program| && InBounds(c, c.program[m.pc]) && c.program[m.pc].typ == typ
  }

  lemma CreateLogged(s: T.System, n: nat, c: Config, m: Vm, e: Env)
    requires AtInstruction(s, n, c, m, CREATE)
    ensures var i := c.program[m.pc];
      var a := T.Create(n, i.args[0], i.args[1], e.junk);
      && T.Enabled(s, a)
      && T.Step(s, a).created == s.created + CreatedBy(n, m, i)
      && T.Step(s, a).wire == s.wire && T.Step(s, a).received == s.received
  {
    hide QueueShape, BufferShape;
  }

  lemma SendLogged(s: T.System, n: nat, c: Config, m: Vm, e: Env)
    requires AtInstruction(s, n, c, m, SEND) && m.slots[c.program[m.pc].args[1]].Some?
    ensures var i := c.program[m.pc];
      var a := T.Send(n, i.args[1]);
      && T.Enabled(s, a)
      && T.Step(s, a).created == s.created && T.Step(s, a).received == s.received
      && Untagged(T.Step(s, a).wire) ==
         Untagged(s.wire) + Packets(1 - n, R.SentFrames(SendEffect(c, m, i, e).events))
  {
    hide QueueShape, BufferShape, T.Step, T.Enabled, Matches;
    SendMatches(s, n, c, m, e);
    SendKeepsLogs(s, n, c.program[m.pc].args[1]);
    OneFrame(SendEffect(c, m, c.program[m.pc], e).events);
  }

  lemma OneFrame(ev: seq<Event>)
    requires |ev| == 1 && ev[0].Sent?
    ensures |R.SentFrames(ev)| == 1
  {
    assert R.SentFrames(ev[1..]) == [];
  }

  lemma SendKeepsLogs(s: T.System, n: nat, slot: nat)
    requires T.Enabled(s, T.Send(n, slot))
    ensures T.Step(s, T.Send(n, slot)).created == s.created && T.Step(s, T.Send(n, slot)).received == s.received
  {
  }

  lemma ReceiveLogged(s: T.System, n: nat, c: Config, m: Vm)
    requires AtInstruction(s, n, c, m, RECEIVE) && m.rx[c.program[m.pc].args[0]] != []
    ensures var i := c.program[m.pc];
      var a := T.Receive(n, i.args[1]);
      && T.Enabled(s, a)
      && T.Step(s, a).created == s.created && T.Step(s, a).wire == s.wire
      && Values(T.Step(s, a).received) == Values(s.received) + ReceivedBy(n, m, ReceiveEffect(m, i).vm, i)
  {
    hide QueueShape, BufferShape;
  }

  /** The state behind an instruction, and what it sent, are those of its handler. */
  lemma NodeLogs(s: T.System, n: nat, c: Config, m: Vm, e: Env)
    requires m.pc < |c.program| && AtInstruction(s, n, c, m, c.program[m.pc].typ)
    ensures var a, o, i := ActionOf(c, m, e, n), Step(c, m, e), c.program[m.pc];
      && !o.Undefined? && |o.vm.vars| == |m.vars|
      && (a.Some? ==> T.Enabled(s, a.value))
      && var t := Act(s, a);
         && t.created == s.created + CreatedBy(n, m, i)
         && Values(t.received) == Values(s.received) + ReceivedBy(n, m, o.vm, i)
         && Untagged(t.wire) == Untagged(s.wire) + Packets(1 - n, R.SentFrames(o.events))
  {
    hide QueueShape, BufferShape, T.Step, T.Enabled, Matches, Step, SendEffect, ReceiveEffect, CreateEffect;
    var i := c.program[m.pc];
    StepKeepsShape(c, m, e);
    StepFollowsHandler(c, m, e);
    if i.typ == CREATE {
      CreateLogged(s, n, c, m, e);
      HandledCreate(c, m, i, e);
    } else if i.typ == SEND && m.slots[i.args[1]].Some? {
      SendLogged(s, n, c, m, e);
    } else if i.typ == RECEIVE && m.rx[i.args[0]] != [] {
      ReceiveLogged(s, n, c, m);
      HandledReceive(c, m, i, e);
    } else {
      NothingSent(c, m, i, e);
    }
  }

  lemma HandledCreate(c: Config, m: Vm, i: Instr, e: Env)
    requires Shape(c, m) && InBounds(c, i) && i.typ == CREATE
    ensures R.SentFrames(CreateEffect(m, i, e).events) == []
  {
  }

  lemma HandledReceive(c: Config, m: Vm, i: Instr, e: Env)
    requires Shape(c, m) && InBounds(c, i) && i.typ == RECEIVE
    ensures R.SentFrames(ReceiveEffect(m, i).events) == []
  {
  }

  lemma ExecuteFollows(cs: seq<Config>, s: T.System, w: World, n: nat, e: Env) returns (a: Option<T.Action>)
    requires Follows(cs, s, w) && CanHappen(cs, w, Execute(n, e))
    ensures a.Some? ==> T.Enabled(s, a.value)
    ensures Follows(cs, Act(s, a), Advance(cs, w, Execute(n, e)))
  {
    hide Shape, T.Step, T.Enabled, Matches, Step, InBounds, CreatedBy, ReceivedBy;
    a := ActionOf(cs[n], w.vms[n], e, n);
    MachineStepIsNodeAction(s, n, cs[n], w.vms[n], e);
    NodeLogs(s, n, cs[n], w.vms[n], e);
    AdvanceKeepsShape(cs, w, Execute(n, e));
    TwoNodesStay(s, a);
  }

  lemma TwoNodesStay(s: T.System, a: Option<T.Action>)
    requires |s.nodes| == 2 && (a.Some? ==> T.Enabled(s, a.value))
    ensures |Act(s, a).nodes| == 2
  {
  }

  lemma WriteFollows(cs: seq<Config>, s: T.System, w: World, n: nat, v: nat, bytes: Data)
    requires Follows(cs, s, w) && CanHappen(cs, w, Write(n, v, bytes))
    ensures T.Enabled(s, T.Write(n, v, bytes))
    ensures Follows(cs, T.Step(s, T.Write(n, v, bytes)), Advance(cs, w, Write(n, v, bytes)))
  {
    hide QueueShape, BufferShape;
    AdvanceKeepsShape(cs, w, Write(n, v, bytes));
    WriteIsNodeAction(s, n, cs[n], w.vms[n], v, bytes);
  }

  lemma UntaggedWithout(q: seq<T.Transit>, k: nat)
    requires k < |q|
    ensures Untagged(T.Without(q, k)) == T.Without(Untagged(q), k)
  {
  }

  lemma LoseFollows(cs: seq<Config>, s: T.System, w: World, k: nat)
    requires Follows(cs, s, w) && CanHappen(cs, w, Lose(k))
    ensures T.Enabled(s, T.Lose(k)) && Follows(cs, T.Step(s, T.Lose(k)), Advance(cs, w, Lose(k)))
  {
    hide Shape, Matches, T.Without;
    AdvanceKeepsShape(cs, w, Lose(k));
    UntaggedWithout(s.wire, k);
  }

  lemma ArriveFollows(cs: seq<Config>, s: T.System, w: World, k: nat)
    requires Follows(cs, s, w) && CanHappen(cs, w, Arrive(k))
    ensures T.Enabled(s, T.Arrive(k)) && Follows(cs, T.Step(s, T.Arrive(k)), Advance(cs, w, Arrive(k)))
  {
    hide Shape, Matches, T.Without, R.Enqueue;
    assert w.wire[k] == Untagged(s.wire)[k];
    AdvanceKeepsShape(cs, w, Arrive(k));
    UntaggedWithout(s.wire, k);
    ArrivalIsNodeAction(s, cs[w.wire[k].to], w.vms[w.wire[k].to], k);
  }

  lemma ForeignFollows(cs: seq<Config>, s: T.System, w: World, n: nat, frame: Frame)
    requires Follows(cs, s, w) && CanHappen(cs, w, Foreign(n, frame))
    ensures Follows(cs, s, Advance(cs, w, Foreign(n, frame)))
  {
    assert R.Enqueue(cs[n], w.vms[n], 0, frame) == w.vms[n];
    AdvanceKeepsShape(cs, w, Foreign(n, frame));
  }

  lemma InputFollows(cs: seq<Config>, s: T.System, w: World, i: Input) returns (a: Option<T.Action>)
    requires Follows(cs, s, w) && CanHappen(cs, w, i)
    ensures a.Some? ==> T.Enabled(s, a.value)
    ensures Follows(cs, Act(s, a), Advance(cs, w, i))
  {
    hide Follows, CanHappen, Advance, T.Step, T.Enabled;
    match i {
      case Execute(n, e) =>
        a := ExecuteFollows(cs, s, w, n, e);
      case Write(n, v, bytes) =>
        a := Some(T.Write(n, v, bytes));
        WriteFollows(cs, s, w, n, v, bytes);
      case Lose(k) =>
        a := Some(T.Lose(k));
        LoseFollows(cs, s, w, k);
      case Arrive(k) =>
        a := Some(T.Arrive(k));
        ArriveFollows(cs, s, w, k);
      case Foreign(n, frame) =>
        a := None;
        ForeignFollows(cs, s, w, n, frame);
    }
  }

  /** Every run of the two machines is a run of the two-node system. */
  lemma {:induction false} RunFollows(cs: seq<Config>, s: T.System, w: World, inputs: seq<Input>, w': World)
    returns (actions: seq<T.Action>, s': T.System)
    requires Follows(cs, s, w) && Run(cs, w, inputs, w')
    ensures T.Run(s, actions, s') && Follows(cs, s', w')
    decreases inputs
  {
    if inputs == [] {
      actions, s' := [], s;
    } else {
      hide Follows, CanHappen, Advance, T.Step, T.Enabled;
      var a := InputFollows(cs, s, w, inputs[0]);
      actions, s' := RunFollows(cs, Act(s, a), Advance(cs, w, inputs[0]), inputs[1..], w');
      if a.Some? {
        assert ([a.value] + actions)[1..] == actions;
        actions := [a.value] + actions;
      }
    }
  }

  // ----- main result -----

  function StartNode(cs: seq<Config>, n: nat): T.Node
    requires n < |cs| && |cs[n].channels| == 1 && cs[n].channels[0].device.Some?
  {
    var m := Init(cs[n]);
    T.Node(Address(cs, n), Peer(cs, n), m.vars, seq(cs[n].messages, _ => None), [])
  }

  lemma StartFollows(cs: seq<Config>, w: World) returns (s: T.System)
    requires Initial(cs, w)
    ensures T.Initial(s) && Follows(cs, s, w)
  {
    R.InitShape(cs[0]);
    R.InitShape(cs[1]);
    s := T.System([StartNode(cs, 0), StartNode(cs, 1)], [], [], [], multiset{});
    assert cs[0].channels == [Channel(Peer(cs, 0), Some(Address(cs, 0)))];
    assert cs[1].channels == [Channel(Peer(cs, 1), Some(Address(cs, 1)))];
  }

  /** The value came from that CREATE of the other machine, whose address the receiving channel listens to. */
  ghost predicate Came(cs: seq<Config>, got: Got, created: seq<T.Created>, origin: nat)
    requires Pair(cs)
  {
    && got.node < 2 && origin < |created| && created[origin].node == 1 - got.node
    && got.value == T.Kept(created[origin].value)
    && Peer(cs, got.node) == Address(cs, 1 - got.node)
  }

  ghost predicate DistinctOrigins(origins: seq<nat>) {
    forall i, j :: 0 <= i < j < |origins| ==> origins[i] != origins[j]
  }

  /**
   Two machines running any programs from their initial states, over all interleavings with user writes,
   lost, delayed and reordered frames and frames from others: every value that a RECEIVE stored is what a
   variable of the other machine held when that machine executed CREATE (cut to 1486 bytes), the channel
   listens to that machine's address, and no two values come from the same CREATE.
   */
  lemma MachinesReceiveWhatWasCreated(cs: seq<Config>, w: World, inputs: seq<Input>, w': World)
    returns (origins: seq<nat>)
    requires Initial(cs, w) && WorldShape(cs, w) && Run(cs, w, inputs, w')
    ensures |origins| == |w'.received| && DistinctOrigins(origins)
    ensures forall i :: 0 <= i < |origins| ==> Came(cs, w'.received[i], w'.created, origins[i])
  {
    hide Run, T.Run, T.Initial, Initial, Shape;
    var s := StartFollows(cs, w);
    var actions, s' := RunFollows(cs, s, w, inputs, w');
    T.ReceivedIsWhatWasCreated(s, actions, s');
    origins := seq(|s'.received|, k requires 0 <= k < |s'.received| => s'.received[k].message.origin);
    forall i | 0 <= i < |origins|
      ensures Came(cs, w'.received[i], w'.created, origins[i])
    {
      assert T.WhatWasCreated(s', s'.received[i]);
      assert w'.received[i] == Values(s'.received)[i];
    }
  }
}
