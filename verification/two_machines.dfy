/** The two-node system covers what two virtual machines do, whatever programs they run. */
module TwoMachines {
  import opened Words
  import opened Bytes
  import opened Frames
  import opened Machine
  import R = Runs
  import T = TwoNodes

  function Strip(x: Option<T.Tagged>): Option<Frame> {
    if x.Some? then Some(x.value.frame) else None
  }

  /** The machine's variables, message slots and receive list are those of the node. */
  ghost predicate Matches(x: T.Node, c: Config, m: Vm) {
    && c.channels == [Channel(x.peer, Some(x.mac))]
    && m.vars == x.vars
    && |m.slots| == |x.slots| && (forall k :: 0 <= k < |m.slots| ==> m.slots[k] == Strip(x.slots[k]))
    && |m.rx| == 1 && |m.rx[0]| == |x.rx| && (forall k :: 0 <= k < |x.rx| ==> m.rx[0][k] == x.rx[k].frame)
  }

  /** The network action, if any, that an instruction performs on node `n`. */
  ghost function ActionOf(c: Config, m: Vm, e: Env, n: nat): Option<T.Action>
    requires Shape(c, m) && m.pc < |c.program| && InBounds(c, c.program[m.pc])
  {
    var i := c.program[m.pc];
    if i.typ == CREATE then Some(T.Create(n, i.args[0], i.args[1], e.junk))
    else if i.typ == SEND && m.slots[i.args[1]].Some? then Some(T.Send(n, i.args[1]))
    else if i.typ == RECEIVE && m.rx[i.args[0]] != [] then Some(T.Receive(n, i.args[1]))
    else None
  }

  lemma OtherInstructionsKeepNode(c: Config, m: Vm, i: Instr, e: Env)
    requires Shape(c, m) && InBounds(c, i) && i.typ !in {CREATE, SEND, RECEIVE} && Handle(c, m, i, e).Some?
    ensures var h := Handle(c, m, i, e).value;
      h.vm.vars == m.vars && h.vm.slots == m.slots && h.vm.rx == m.rx && R.SentFrames(h.events) == []
  {
    var h := Handle(c, m, i, e).value;
    if i.typ in {FUTURE, HALT, WAIT, GOTO, IF} {
      R.ControlSendsNothing(c, m, i, e);
    }
  }

  lemma MatchesIgnoresControl(x: T.Node, c: Config, m: Vm, m': Vm)
    requires m.vars == m'.vars && m.slots == m'.slots && m.rx == m'.rx
    ensures Matches(x, c, m) <==> Matches(x, c, m')
  {
  }

  lemma StepFollowsHandler(c: Config, m: Vm, e: Env)
    requires Shape(c, m) && m.pc < |c.program| && InBounds(c, c.program[m.pc])
    ensures var o, h := Step(c, m, e), Handle(c, m, c.program[m.pc], e);
      && !o.Undefined?
      && (h == None ==> o.vm == m && o.events == [])
      && (h.Some? ==> o.vm.vars == h.value.vm.vars && o.vm.slots == h.value.vm.slots && o.vm.rx == h.value.vm.rx
                      && o.events == h.value.events)
  {
  }

  lemma CreateMatches(s: T.System, n: nat, c: Config, m: Vm, e: Env)
    requires |s.nodes| == 2 && n < 2 && Matches(s.nodes[n], c, m) && Shape(c, m)
    requires m.pc < |c.program| && InBounds(c, c.program[m.pc]) && c.program[m.pc].typ == CREATE
    ensures var a := ActionOf(c, m, e, n).value;
      T.Enabled(s, a) && Matches(T.Step(s, a).nodes[n], c, CreateEffect(m, c.program[m.pc], e).vm)
  {
  }

  lemma SendMatches(s: T.System, n: nat, c: Config, m: Vm, e: Env)
    requires |s.nodes| == 2 && n < 2 && Matches(s.nodes[n], c, m) && Shape(c, m)
    requires m.pc < |c.program| && InBounds(c, c.program[m.pc]) && c.program[m.pc].typ == SEND
    requires m.slots[c.program[m.pc].args[1]].Some?
    ensures var a := ActionOf(c, m, e, n).value;
      var h := SendEffect(c, m, c.program[m.pc], e);
      && T.Enabled(s, a) && Matches(T.Step(s, a).nodes[n], c, h.vm)
      && T.Step(s, a).wire == s.wire + [T.Transit(1 - n,
           T.Tagged(R.SentFrames(h.events)[0], s.nodes[n].slots[a.slot].value.origin))]
  {
  }

  lemma ReceiveMatches(s: T.System, n: nat, c: Config, m: Vm, e: Env)
    requires |s.nodes| == 2 && n < 2 && Matches(s.nodes[n], c, m) && Shape(c, m)
    requires m.pc < |c.program| && InBounds(c, c.program[m.pc]) && c.program[m.pc].typ == RECEIVE
    requires m.rx[c.program[m.pc].args[0]] != []
    ensures var a := ActionOf(c, m, e, n).value;
      T.Enabled(s, a) && Matches(T.Step(s, a).nodes[n], c, ReceiveEffect(m, c.program[m.pc]).vm)
  {
    var a := ActionOf(c, m, e, n).value;
    var x, v := T.Step(s, a).nodes[n], ReceiveEffect(m, c.program[m.pc]).vm;
    assert v.rx[0] == m.rx[0][1..] && x.rx == s.nodes[n].rx[1..];
  }

  /**
   One step of a machine is one action of its node or none: the node reached is the one the machine
   reached, and the frames the machine sent are those that went onto the wire.
   */
  lemma MachineStepIsNodeAction(s: T.System, n: nat, c: Config, m: Vm, e: Env)
    requires |s.nodes| == 2 && n < 2 && Matches(s.nodes[n], c, m) && Shape(c, m)
    requires m.pc < |c.program| && InBounds(c, c.program[m.pc])
    ensures var o := Step(c, m, e);
      !o.Undefined? &&
      match ActionOf(c, m, e, n)
      case None => Matches(s.nodes[n], c, o.vm) && R.SentFrames(o.events) == []
      case Some(a) =>
        && T.Enabled(s, a) && Matches(T.Step(s, a).nodes[n], c, o.vm)
        && T.Step(s, a).nodes[1 - n] == s.nodes[1 - n]
        && |T.Step(s, a).wire| == |s.wire| + |R.SentFrames(o.events)|
  {
    hide Matches, T.Step, T.Enabled;
    var i := c.program[m.pc];
    var x, o := s.nodes[n], Step(c, m, e);
    StepFollowsHandler(c, m, e);
    if i.typ == CREATE {
      CreateMatches(s, n, c, m, e);
      var a := ActionOf(c, m, e, n).value;
      ActionIsLocal(s, a, n);
      MatchesIgnoresControl(T.Step(s, a).nodes[n], c, CreateEffect(m, i, e).vm, o.vm);
    } else if i.typ == SEND && m.slots[i.args[1]].Some? {
      SendMatches(s, n, c, m, e);
      var a := ActionOf(c, m, e, n).value;
      ActionIsLocal(s, a, n);
      MatchesIgnoresControl(T.Step(s, a).nodes[n], c, SendEffect(c, m, i, e).vm, o.vm);
      assert o.events[1..] == [];
    } else if i.typ == RECEIVE && m.rx[i.args[0]] != [] {
      ReceiveMatches(s, n, c, m, e);
      var a := ActionOf(c, m, e, n).value;
      ActionIsLocal(s, a, n);
      MatchesIgnoresControl(T.Step(s, a).nodes[n], c, ReceiveEffect(m, i).vm, o.vm);
    } else {
      NothingSent(c, m, i, e);
      MatchesIgnoresControl(x, c, m, o.vm);
    }
  }

  lemma ActionIsLocal(s: T.System, a: T.Action, n: nat)
    requires T.Enabled(s, a) && n < 2 && (a.Create? || a.Send? || a.Receive?) && a.n == n
    ensures |T.Step(s, a).nodes| == 2 && T.Step(s, a).nodes[1 - n] == s.nodes[1 - n]
    ensures |T.Step(s, a).wire| == |s.wire| + if a.Send? then 1 else 0
  {
  }

  lemma NothingSent(c: Config, m: Vm, i: Instr, e: Env)
    requires Shape(c, m) && InBounds(c, i)
    requires i.typ != CREATE && !(i.typ == SEND && m.slots[i.args[1]].Some?)
    requires !(i.typ == RECEIVE && m.rx[i.args[0]] != [])
    ensures var h := Handle(c, m, i, e);
      h.Some? ==> h.value.vm.vars == m.vars && h.value.vm.slots == m.slots && h.value.vm.rx == m.rx
                  && R.SentFrames(h.value.events) == []
  {
    if Handle(c, m, i, e).Some? && i.typ !in {CREATE, SEND, RECEIVE} {
      OtherInstructionsKeepNode(c, m, i, e);
    }
  }

  /** The same for what comes from outside: user writes, and frames taken off the wire. */
  lemma ArrivalIsNodeAction(s: T.System, c: Config, m: Vm, k: nat)
    requires |s.nodes| == 2 && k < |s.wire| && s.wire[k].to < 2 && Shape(c, m)
    requires Matches(s.nodes[s.wire[k].to], c, m)
    ensures Matches(T.Step(s, T.Arrive(k)).nodes[s.wire[k].to], c, R.Enqueue(c, m, 0, s.wire[k].message.frame))
  {
  }

  lemma WriteIsNodeAction(s: T.System, n: nat, c: Config, m: Vm, v: nat, bytes: Data)
    requires |s.nodes| == 2 && n < 2 && Matches(s.nodes[n], c, m) && Shape(c, m) && R.Possible(c, R.Write(v, bytes))
    ensures Matches(T.Step(s, T.Write(n, v, bytes)).nodes[n], c, R.Feed(c, m, R.Write(v, bytes)).vm)
  {
  }
}
