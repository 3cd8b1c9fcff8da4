/**
 Two nodes in hard mode on one network that may lose and reorder frames, over all interleavings of
 user writes, CREATE, SEND, arrival and RECEIVE.
 */
module TwoNodes {
  import opened Words
  import opened Bytes
  import opened Frames

  /** A frame together with the number of the CREATE that made it. */
  datatype Tagged = Tagged(frame: Frame, origin: nat)

  /** `mac` is the address of the node's device, `peer` the address its channel listens to. */
  datatype Node = Node(mac: Mac, peer: Mac, vars: seq<Data>, slots: seq<Option<Tagged>>, rx: seq<Tagged>)

  /** What a sender's variable held when a CREATE read it. */
  datatype Created = Created(node: nat, value: Data)

  /** A RECEIVE that succeeded: where, which message, and what it stored. */
  datatype Received = Received(node: nat, message: Tagged, stored: Data)

  datatype Transit = Transit(to: nat, message: Tagged)

  datatype System = System(
    nodes: seq<Node>,
    wire: seq<Transit>,
    created: seq<Created>,
    received: seq<Received>,
    lost: multiset<nat>)

  datatype Action =
    | Write(n: nat, v: nat, bytes: Data)
    | Create(n: nat, v: nat, slot: nat, junk: Junk)
    | Send(n: nat, slot: nat)
    | Lose(i: nat)
    | Arrive(i: nat)
    | Foreign(n: nat, frame: Frame)
    | Receive(n: nat, v: nat)

  ghost predicate Enabled(s: System, a: Action) {
    |s.nodes| == 2 &&
    match a
    case Write(n, v, _) => n < 2 && v < |s.nodes[n].vars|
    case Create(n, v, slot, _) => n < 2 && v < |s.nodes[n].vars| && slot < |s.nodes[n].slots|
    case Send(n, slot) => n < 2 && slot < |s.nodes[n].slots| && s.nodes[n].slots[slot].Some?
    case Lose(i) => i < |s.wire|
    case Arrive(i) => i < |s.wire| && s.wire[i].to < 2
    case Foreign(n, frame) => n < 2 && !Accepts(s.nodes[n].peer, frame)
    case Receive(n, v) => n < 2 && v < |s.nodes[n].vars| && s.nodes[n].rx != []
  }

  function Without<T>(q: seq<T>, i: nat): seq<T>
    requires i < |q|
  {
    q[..i] + q[i + 1..]
  }

  /** The receive thread: an accepted frame, cut to the buffer size, goes to the front of the list. */
  function Enqueue(n: Node, f: Frame, origin: nat): Node {
    n.(rx := [Tagged(Truncate(f), origin)] + n.rx)
  }

  ghost function Step(s: System, a: Action): System
    requires Enabled(s, a)
  {
    match a
    case Write(n, v, bytes) =>
      var x := s.nodes[n];
      s.(nodes := s.nodes[n := x.(vars := x.vars[v := bytes])])
    case Create(n, v, slot, junk) =>
      var x := s.nodes[n];
      var message := Tagged(Assemble(junk, x.vars[v]), |s.created|);
      s.(nodes := s.nodes[n := x.(slots := x.slots[slot := Some(message)])],
         created := s.created + [Created(n, x.vars[v])],
         lost := s.lost + SlotTag(x.slots[slot]))
    case Send(n, slot) =>
      var x := s.nodes[n];
      var message := x.slots[slot].value;
      s.(nodes := s.nodes[n := x.(slots := x.slots[slot := None])],
         wire := s.wire + [Transit(1 - n, message.(frame := Address(message.frame, BROADCAST, x.mac)))])
    case Lose(i) => s.(wire := Without(s.wire, i), lost := s.lost + multiset{s.wire[i].message.origin})
    case Arrive(i) =>
      var Transit(to, message) := s.wire[i];
      if Accepts(s.nodes[to].peer, message.frame) then
        s.(wire := Without(s.wire, i), nodes := s.nodes[to := Enqueue(s.nodes[to], message.frame, message.origin)])
      else
        s.(wire := Without(s.wire, i), lost := s.lost + multiset{message.origin})
    case Foreign(_, _) => s
    case Receive(n, v) =>
      var x := s.nodes[n];
      var stored := Payload(x.rx[0].frame);
      s.(nodes := s.nodes[n := x.(vars := x.vars[v := stored], rx := x.rx[1..])],
         received := s.received + [Received(n, x.rx[0], stored)])
  }

  ghost predicate Initial(s: System) {
    && |s.nodes| == 2
    && (forall n, k :: 0 <= n < 2 && 0 <= k < |s.nodes[n].slots| ==> s.nodes[n].slots[k] == None)
    && s.nodes[0].rx == [] && s.nodes[1].rx == []
    && s.wire == [] && s.created == [] && s.received == [] && s.lost == multiset{}
  }

  ghost predicate Run(s: System, actions: seq<Action>, s': System)
    decreases actions
  {
    if actions == [] then s == s' else Enabled(s, actions[0]) && Run(Step(s, actions[0]), actions[1..], s')
  }

  // ----- authenticity: every frame carries the bytes of its CREATE -----

  /** What the receive buffer keeps of a payload. */
  function Kept(v: Data): Data {
    if |v| <= 1486 then v else v[..1486]
  }

  ghost predicate InSlot(s: System, n: nat, t: Tagged) {
    && t.origin < |s.created| && s.created[t.origin].node == n
    && Payload(t.frame) == s.created[t.origin].value && Proto(t.frame) == ETH_P_NC
  }

  ghost predicate OnWire(s: System, t: Transit)
    requires |s.nodes| == 2
  {
    var origin := t.message.origin;
    && t.to < 2 && origin < |s.created| && s.created[origin].node == 1 - t.to
    && Payload(t.message.frame) == s.created[origin].value && Proto(t.message.frame) == ETH_P_NC
    && Src(t.message.frame) == s.nodes[1 - t.to].mac
  }

  /** Node `n` has accepted `t`: it was made by the other node, and the channel listens to that node. */
  ghost predicate Accepted(s: System, n: nat, t: Tagged)
    requires |s.nodes| == 2 && n < 2
  {
    && t.origin < |s.created| && s.created[t.origin].node == 1 - n
    && Payload(t.frame) == Kept(s.created[t.origin].value)
    && Src(t.frame) == s.nodes[n].peer == s.nodes[1 - n].mac
  }

  ghost predicate SlotsAuthentic(s: System)
    requires |s.nodes| == 2
  {
    forall n, k :: 0 <= n < 2 && 0 <= k < |s.nodes[n].slots| && s.nodes[n].slots[k].Some? ==>
      InSlot(s, n, s.nodes[n].slots[k].value)
  }

  ghost predicate WireAuthentic(s: System)
    requires |s.nodes| == 2
  {
    forall i :: 0 <= i < |s.wire| ==> OnWire(s, s.wire[i])
  }

  ghost predicate RxAuthentic(s: System)
    requires |s.nodes| == 2
  {
    forall n, k :: 0 <= n < 2 && 0 <= k < |s.nodes[n].rx| ==> Accepted(s, n, s.nodes[n].rx[k])
  }

  ghost predicate ReceivedAuthentic(s: System)
    requires |s.nodes| == 2
  {
    forall i :: 0 <= i < |s.received| ==>
      var r := s.received[i];
      r.node < 2 && Accepted(s, r.node, r.message) && r.stored == Payload(r.message.frame)
  }

  ghost predicate Authentic(s: System) {
    |s.nodes| == 2 && SlotsAuthentic(s) && WireAuthentic(s) && RxAuthentic(s) && ReceivedAuthentic(s)
  }

  /** Addresses stay, and the record of CREATEs only grows. */
  ghost predicate Continues(s: System, t: System) {
    && |s.nodes| == |t.nodes| == 2
    && (forall n :: 0 <= n < 2 ==> t.nodes[n].mac == s.nodes[n].mac && t.nodes[n].peer == s.nodes[n].peer)
    && s.created <= t.created
  }

  lemma InSlotContinues(s: System, t: System, n: nat, x: Tagged)
    requires Continues(s, t) && InSlot(s, n, x)
    ensures InSlot(t, n, x)
  {
  }

  lemma OnWireContinues(s: System, t: System, x: Transit)
    requires Continues(s, t) && OnWire(s, x)
    ensures OnWire(t, x)
  {
  }

  lemma AcceptedContinues(s: System, t: System, n: nat, x: Tagged)
    requires Continues(s, t) && n < 2 && Accepted(s, n, x)
    ensures Accepted(t, n, x)
  {
  }

  lemma StepContinues(s: System, a: Action)
    requires Enabled(s, a)
    ensures Continues(s, Step(s, a))
  {
  }

  // Where the messages of a step come from.

  lemma SlotsOfStep(s: System, a: Action, n: nat, k: nat)
    requires Enabled(s, a) && n < 2 && k < |Step(s, a).nodes[n].slots| && Step(s, a).nodes[n].slots[k].Some?
    ensures var x := Step(s, a).nodes[n].slots[k].value;
      || (k < |s.nodes[n].slots| && s.nodes[n].slots[k] == Some(x))
      || InSlot(Step(s, a), n, x)
  {
  }

  lemma WireOfStep(s: System, a: Action, k: nat) returns (j: nat)
    requires Enabled(s, a) && k < |Step(s, a).wire|
    ensures j < |s.wire| ==> Step(s, a).wire[k] == s.wire[j]
    ensures j >= |s.wire| ==>
      && a.Send?
      && var x := s.nodes[a.n].slots[a.slot].value;
         Step(s, a).wire[k] == Transit(1 - a.n, x.(frame := Address(x.frame, BROADCAST, s.nodes[a.n].mac)))
  {
    j := if (a.Lose? || a.Arrive?) && k >= a.i then k + 1 else k;
  }

  lemma SentIsOnWire(s: System, n: nat, x: Tagged)
    requires |s.nodes| == 2 && n < 2 && InSlot(s, n, x)
    ensures OnWire(s, Transit(1 - n, x.(frame := Address(x.frame, BROADCAST, s.nodes[n].mac))))
  {
  }

  lemma RxOfStep(s: System, a: Action, n: nat, k: nat) returns (j: nat)
    requires Enabled(s, a) && n < 2 && k < |Step(s, a).nodes[n].rx|
    ensures j < |s.nodes[n].rx| ==> Step(s, a).nodes[n].rx[k] == s.nodes[n].rx[j]
    ensures j >= |s.nodes[n].rx| ==>
      && a.Arrive? && s.wire[a.i].to == n
      && var x := s.wire[a.i].message;
         Accepts(s.nodes[n].peer, x.frame) && Step(s, a).nodes[n].rx[k] == Tagged(Truncate(x.frame), x.origin)
  {
    if a.Receive? && a.n == n {
      j := k + 1;
    } else if a.Arrive? && s.wire[a.i].to == n && Accepts(s.nodes[n].peer, s.wire[a.i].message.frame) {
      j := if k == 0 then |s.nodes[n].rx| else k - 1;
    } else {
      j := k;
    }
  }

  lemma ArrivedIsAccepted(s: System, x: Transit)
    requires |s.nodes| == 2 && OnWire(s, x) && Accepts(s.nodes[x.to].peer, x.message.frame)
    ensures Accepted(s, x.to, Tagged(Truncate(x.message.frame), x.message.origin))
  {
  }

  lemma SlotsStayAuthentic(s: System, a: Action)
    requires Authentic(s) && Enabled(s, a)
    ensures |Step(s, a).nodes| == 2 && SlotsAuthentic(Step(s, a))
  {
    hide Step, Enabled, InSlot, OnWire, Accepted;
    var t := Step(s, a);
    StepContinues(s, a);
    forall n, k | 0 <= n < 2 && 0 <= k < |t.nodes[n].slots| && t.nodes[n].slots[k].Some?
      ensures InSlot(t, n, t.nodes[n].slots[k].value)
    {
      SlotsOfStep(s, a, n, k);
      if k < |s.nodes[n].slots| && s.nodes[n].slots[k] == t.nodes[n].slots[k] {
        InSlotContinues(s, t, n, s.nodes[n].slots[k].value);
      }
    }
  }

  lemma SlotInUse(s: System, a: Action)
    requires Enabled(s, a) && a.Send?
    ensures a.n < 2 && a.slot < |s.nodes[a.n].slots| && s.nodes[a.n].slots[a.slot].Some?
  {
  }

  lemma WireStaysAuthentic(s: System, a: Action)
    requires Authentic(s) && Enabled(s, a)
    ensures |Step(s, a).nodes| == 2 && WireAuthentic(Step(s, a))
  {
    hide Step, Enabled, InSlot, OnWire, Accepted;
    var t := Step(s, a);
    StepContinues(s, a);
    forall k | 0 <= k < |t.wire|
      ensures OnWire(t, t.wire[k])
    {
      var j := WireOfStep(s, a, k);
      if j >= |s.wire| {
        SlotInUse(s, a);
        SentIsOnWire(s, a.n, s.nodes[a.n].slots[a.slot].value);
        OnWireContinues(s, t, t.wire[k]);
      } else {
        OnWireContinues(s, t, s.wire[j]);
      }
    }
  }

  lemma RxStaysAuthentic(s: System, a: Action)
    requires Authentic(s) && Enabled(s, a)
    ensures |Step(s, a).nodes| == 2 && RxAuthentic(Step(s, a))
  {
    hide Step, InSlot, OnWire, Accepted, Accepts;
    var t := Step(s, a);
    StepContinues(s, a);
    forall n, k | 0 <= n < 2 && 0 <= k < |t.nodes[n].rx|
      ensures Accepted(t, n, t.nodes[n].rx[k])
    {
      var j := RxOfStep(s, a, n, k);
      if j >= |s.nodes[n].rx| {
        assert OnWire(s, s.wire[a.i]);
        ArrivedIsAccepted(s, s.wire[a.i]);
        AcceptedContinues(s, t, n, t.nodes[n].rx[k]);
      } else {
        AcceptedContinues(s, t, n, s.nodes[n].rx[j]);
      }
    }
  }

  lemma ReceivedOfStep(s: System, a: Action, k: nat)
    requires Enabled(s, a) && k < |Step(s, a).received|
    ensures k < |s.received| ==> Step(s, a).received[k] == s.received[k]
    ensures k >= |s.received| ==>
      && a.Receive? && a.n < 2 && s.nodes[a.n].rx != []
      && var x := s.nodes[a.n].rx[0];
         Step(s, a).received[k] == Received(a.n, x, Payload(x.frame))
  {
  }

  lemma ReceivedStaysAuthentic(s: System, a: Action)
    requires Authentic(s) && Enabled(s, a)
    ensures |Step(s, a).nodes| == 2 && ReceivedAuthentic(Step(s, a))
  {
    hide Step, Enabled, InSlot, OnWire, Accepted;
    var t := Step(s, a);
    StepContinues(s, a);
    forall k | 0 <= k < |t.received|
      ensures var r := t.received[k];
        r.node < 2 && Accepted(t, r.node, r.message) && r.stored == Payload(r.message.frame)
    {
      ReceivedOfStep(s, a, k);
      var r := t.received[k];
      if k < |s.received| {
        assert s.received[k] == r;
      } else {
        assert Accepted(s, a.n, s.nodes[a.n].rx[0]);
      }
      AcceptedContinues(s, t, r.node, r.message);
    }
  }

  lemma StepAuthentic(s: System, a: Action)
    requires Authentic(s) && Enabled(s, a)
    ensures Authentic(Step(s, a))
  {
    SlotsStayAuthentic(s, a);
    WireStaysAuthentic(s, a);
    RxStaysAuthentic(s, a);
    ReceivedStaysAuthentic(s, a);
  }

  // ----- conservation: every CREATE is in exactly one place -----

  function SlotTag(x: Option<Tagged>): multiset<nat> {
    if x.Some? then multiset{x.value.origin} else multiset{}
  }

  /** How often CREATE number `o` occurs in the slots of a node. */
  function InSlots(q: seq<Option<Tagged>>, o: nat): nat {
    if q == [] then 0 else SlotTag(q[0])[o] + InSlots(q[1..], o)
  }

  function InRx(q: seq<Tagged>, o: nat): nat {
    if q == [] then 0 else (if q[0].origin == o then 1 else 0) + InRx(q[1..], o)
  }

  function InTransit(q: seq<Transit>, o: nat): nat {
    if q == [] then 0 else (if q[0].message.origin == o then 1 else 0) + InTransit(q[1..], o)
  }

  function InReceived(q: seq<Received>, o: nat): nat {
    if q == [] then 0 else (if q[0].message.origin == o then 1 else 0) + InReceived(q[1..], o)
  }

  function Copies(s: System, o: nat): nat
    requires |s.nodes| == 2
  {
    InSlots(s.nodes[0].slots, o) + InSlots(s.nodes[1].slots, o) + InTransit(s.wire, o)
    + InRx(s.nodes[0].rx, o) + InRx(s.nodes[1].rx, o) + InReceived(s.received, o) + s.lost[o]
  }

  /** Every CREATE so far is in exactly one place. */
  ghost predicate Conserved(s: System) {
    |s.nodes| == 2 && forall o: nat :: Copies(s, o) == if o < |s.created| then 1 else 0
  }

  lemma {:induction false} SlotUpdate(q: seq<Option<Tagged>>, k: nat, x: Option<Tagged>, o: nat)
    requires k < |q|
    ensures InSlots(q[k := x], o) + SlotTag(q[k])[o] == InSlots(q, o) + SlotTag(x)[o]
  {
    if k == 0 {
      assert q[0 := x][1..] == q[1..];
    } else {
      assert q[k := x][1..] == q[1..][k - 1 := x];
      SlotUpdate(q[1..], k - 1, x, o);
    }
  }

  lemma {:induction false} WireRemove(q: seq<Transit>, i: nat, o: nat)
    requires i < |q|
    ensures InTransit(q, o) == InTransit(Without(q, i), o) + if q[i].message.origin == o then 1 else 0
  {
    if i == 0 {
      assert Without(q, 0) == q[1..];
    } else {
      assert Without(q, i)[1..] == Without(q[1..], i - 1);
      WireRemove(q[1..], i - 1, o);
    }
  }

  lemma {:induction false} WireAdd(q: seq<Transit>, t: Transit, o: nat)
    ensures InTransit(q + [t], o) == InTransit(q, o) + if t.message.origin == o then 1 else 0
  {
    if q == [] {
      assert ([] + [t])[1..] == [];
    } else {
      assert (q + [t])[1..] == q[1..] + [t];
      WireAdd(q[1..], t, o);
    }
  }

  lemma {:induction false} ReceivedAdd(q: seq<Received>, r: Received, o: nat)
    ensures InReceived(q + [r], o) == InReceived(q, o) + if r.message.origin == o then 1 else 0
  {
    if q == [] {
      assert ([] + [r])[1..] == [];
    } else {
      assert (q + [r])[1..] == q[1..] + [r];
      ReceivedAdd(q[1..], r, o);
    }
  }

  lemma CreateAddsOne(s: System, a: Action, o: nat)
    requires a.Create? && Enabled(s, a)
    ensures Copies(Step(s, a), o) == Copies(s, o) + if o == |s.created| then 1 else 0
  {
    hide InSlots, InTransit, InRx, InReceived;
    SlotUpdate(s.nodes[a.n].slots, a.slot, Step(s, a).nodes[a.n].slots[a.slot], o);
  }

  lemma SendMoves(s: System, a: Action, o: nat)
    requires a.Send? && Enabled(s, a)
    ensures Copies(Step(s, a), o) == Copies(s, o)
  {
    hide InSlots, InTransit, InRx, InReceived;
    SlotUpdate(s.nodes[a.n].slots, a.slot, None, o);
    WireAdd(s.wire, Step(s, a).wire[|s.wire|], o);
  }

  lemma WireMoves(s: System, a: Action, o: nat)
    requires (a.Lose? || a.Arrive?) && Enabled(s, a)
    ensures Copies(Step(s, a), o) == Copies(s, o)
  {
    hide InSlots, InTransit, InReceived;
    WireRemove(s.wire, a.i, o);
    var Transit(to, message) := s.wire[a.i];
    if a.Arrive? {
      assert Enqueue(s.nodes[to], message.frame, message.origin).rx[1..] == s.nodes[to].rx;
    }
  }

  lemma ReceiveMoves(s: System, a: Action, o: nat)
    requires a.Receive? && Enabled(s, a)
    ensures Copies(Step(s, a), o) == Copies(s, o)
  {
    hide InSlots, InTransit, InReceived;
    ReceivedAdd(s.received, Step(s, a).received[|s.received|], o);
  }

  /** A step moves messages around, and CREATE adds one. */
  lemma StepMovesOne(s: System, a: Action, o: nat)
    requires Enabled(s, a)
    ensures Copies(Step(s, a), o) == Copies(s, o) + if a.Create? && o == |s.created| then 1 else 0
  {
    hide InSlots, InTransit, InRx, InReceived;
    match a {
      case Write(_, _, _) =>
      case Create(_, _, _, _) => CreateAddsOne(s, a, o);
      case Send(_, _) => SendMoves(s, a, o);
      case Lose(_) => WireMoves(s, a, o);
      case Arrive(_) => WireMoves(s, a, o);
      case Foreign(_, _) =>
      case Receive(_, _) => ReceiveMoves(s, a, o);
    }
  }

  lemma StepConserves(s: System, a: Action)
    requires Conserved(s) && Enabled(s, a)
    ensures Conserved(Step(s, a))
  {
    var t := Step(s, a);
    forall o: nat
      ensures Copies(t, o) == if o < |t.created| then 1 else 0
    {
      StepMovesOne(s, a, o);
      assert Copies(s, o) == if o < |s.created| then 1 else 0;
    }
  }

  lemma InitialConserved(s: System)
    requires Initial(s)
    ensures Conserved(s) && Authentic(s)
  {
    forall o: nat
      ensures Copies(s, o) == 0
    {
      NoneInSlots(s.nodes[0].slots, o);
      NoneInSlots(s.nodes[1].slots, o);
    }
  }

  lemma {:induction false} NoneInSlots(q: seq<Option<Tagged>>, o: nat)
    requires forall k :: 0 <= k < |q| ==> q[k] == None
    ensures InSlots(q, o) == 0
  {
    if q != [] {
      NoneInSlots(q[1..], o);
    }
  }

  lemma {:induction false} RunKeeps(s: System, actions: seq<Action>, s': System)
    requires Authentic(s) && Conserved(s) && Run(s, actions, s')
    ensures Authentic(s') && Conserved(s')
    decreases actions
  {
    if actions != [] {
      StepAuthentic(s, actions[0]);
      StepConserves(s, actions[0]);
      RunKeeps(Step(s, actions[0]), actions[1..], s');
    }
  }

  /** Two entries with one origin count twice. */
  lemma {:induction false} SameOriginTwice(q: seq<Received>, i: nat, j: nat)
    requires i < j < |q| && q[i].message.origin == q[j].message.origin
    ensures InReceived(q, q[i].message.origin) >= 2
  {
    if i == 0 {
      Present(q[1..], j - 1);
    } else {
      SameOriginTwice(q[1..], i - 1, j - 1);
    }
  }

  lemma {:induction false} Present(q: seq<Received>, i: nat)
    requires i < |q|
    ensures InReceived(q, q[i].message.origin) >= 1
  {
    if i > 0 {
      Present(q[1..], i - 1);
    }
  }

  // ----- main result -----

  ghost predicate WhatWasCreated(s: System, r: Received)
    requires |s.nodes| == 2
  {
    && r.node < 2 && r.message.origin < |s.created|
    && var c := s.created[r.message.origin];
       && c.node == 1 - r.node
       && r.stored == Kept(c.value)
       && (r.stored == c.value <==> |c.value| <= 1486)
       && Src(r.message.frame) == s.nodes[r.node].peer == s.nodes[c.node].mac
  }

  /**
   Over all interleavings: what a RECEIVE stored is what a variable of the other node held when that
   node executed CREATE, cut to 1486 bytes (so exactly those bytes when there are no more); the message
   came from the address the channel listens to; and no two RECEIVEs consumed the same CREATE.
   */
  lemma ReceivedIsWhatWasCreated(s: System, actions: seq<Action>, s': System)
    requires Initial(s) && Run(s, actions, s')
    ensures |s'.nodes| == 2
    ensures forall i :: 0 <= i < |s'.received| ==> WhatWasCreated(s', s'.received[i])
    ensures forall i, j :: 0 <= i < j < |s'.received| ==>
      s'.received[i].message.origin != s'.received[j].message.origin
  {
    InitialConserved(s);
    RunKeeps(s, actions, s');
    ReceivedAuthenticMeans(s');
    forall i, j | 0 <= i < j < |s'.received|
      ensures s'.received[i].message.origin != s'.received[j].message.origin
    {
      assert Copies(s', s'.received[i].message.origin) <= 1;
      if s'.received[i].message.origin == s'.received[j].message.origin {
        SameOriginTwice(s'.received, i, j);
      }
    }
  }

  lemma ReceivedAuthenticMeans(s: System)
    requires Authentic(s)
    ensures forall i :: 0 <= i < |s.received| ==> WhatWasCreated(s, s.received[i])
  {
    hide SlotsAuthentic, WireAuthentic, RxAuthentic;
    forall i | 0 <= i < |s.received|
      ensures WhatWasCreated(s, s.received[i])
    {
      assert Accepted(s, s.received[i].node, s.received[i].message);
    }
  }
}
