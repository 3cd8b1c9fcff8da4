/**
 RECEIVE against the receive thread (nc_net.c:230-232 and 250-286).  The list lock is taken and given
 back around every single list operation, so the receive thread can add messages between any two of
 them; still, each RECEIVE acts as one atomic pop.
 */
module ReceiveProtocol {
  import opened Bytes

  /** A list node: its identity and its contents. */
  datatype Message = Message(id: nat, bytes: Data)

  /** Where `ncm_receive_message_to_var` stands. */
  datatype Phase =
    | Idle
    | NotEmpty                  // the list was not empty when looked at
    | Peeked(m: Message)        // the first entry has been read
    | Copied(m: Message)        // its bytes are in the variable
    | Corrupt                   // the first entry of an empty list was read, or an unlinked node deleted

  datatype State = State(
    queue: seq<Message>,        // first entry first
    phase: Phase,
    variable: Data,
    nextId: nat,
    accepted: seq<Message>,     // messages added to the list, oldest first
    delivered: seq<Message>)    // messages removed from the list, in order

  datatype Action =
    | Add(bytes: Data)          // list_add by the receive thread
    | Look                      // list_empty
    | Peek                      // list_first_entry
    | Copy                      // set_variable_data
    | Delete                    // list_del

  predicate Enabled(s: State, a: Action) {
    match a
    case Add(_) => true
    case Look => s.phase.Idle?
    case Peek => s.phase.NotEmpty?
    case Copy => s.phase.Peeked?
    case Delete => s.phase.Copied?
  }

  /** `list_del` unlinks the node it is given, wherever in the list that node is. */
  function Unlink(q: seq<Message>, id: nat): seq<Message> {
    if q == [] then [] else if q[0].id == id then q[1..] else [q[0]] + Unlink(q[1..], id)
  }

  function Step(s: State, a: Action): State
    requires Enabled(s, a)
  {
    match a
    case Add(bytes) =>
      var m := Message(s.nextId, bytes);
      s.(queue := [m] + s.queue, nextId := s.nextId + 1, accepted := s.accepted + [m])
    case Look => if s.queue == [] then s else s.(phase := NotEmpty)
    case Peek => if s.queue == [] then s.(phase := Corrupt) else s.(phase := Peeked(s.queue[0]))
    case Copy => s.(variable := s.phase.m.bytes, phase := Copied(s.phase.m))
    case Delete =>
      if s.phase.m !in s.queue then s.(phase := Corrupt)
      else s.(queue := Unlink(s.queue, s.phase.m.id), phase := Idle, delivered := s.delivered + [s.phase.m])
  }

  const INITIAL := State([], Idle, [], 0, [], [])

  ghost predicate Run(s: State, actions: seq<Action>, s': State)
    decreases actions
  {
    if actions == [] then s == s' else Enabled(s, actions[0]) && Run(Step(s, actions[0]), actions[1..], s')
  }

  // ----- the atomic specification: a stack -----

  datatype Stack = Stack(items: seq<Message>, nextId: nat, popped: seq<Message>)

  /** Adding pushes; reading the first entry is the moment the whole RECEIVE takes effect. */
  function Atomic(t: Stack, a: Action): Stack {
    match a
    case Add(bytes) => t.(items := [Message(t.nextId, bytes)] + t.items, nextId := t.nextId + 1)
    case Peek => if t.items == [] then t else Stack(t.items[1..], t.nextId, t.popped + [t.items[0]])
    case _ => t
  }

  function AtomicRun(t: Stack, actions: seq<Action>): Stack
    decreases actions
  {
    if actions == [] then t else AtomicRun(Atomic(t, actions[0]), actions[1..])
  }

  /** The stack that a state of the fine-grained protocol stands for. */
  function Abstract(s: State): Stack {
    match s.phase
    case Peeked(m) => Stack(Unlink(s.queue, m.id), s.nextId, s.delivered + [m])
    case Copied(m) => Stack(Unlink(s.queue, m.id), s.nextId, s.delivered + [m])
    case _ => Stack(s.queue, s.nextId, s.delivered)
  }

  // ----- invariant -----

  ghost predicate DistinctIds(q: seq<Message>, nextId: nat) {
    && (forall j :: 0 <= j < |q| ==> q[j].id < nextId)
    && (forall j, k :: 0 <= j < k < |q| ==> q[j].id != q[k].id)
  }

  ghost predicate Inv(s: State) {
    && DistinctIds(s.queue, s.nextId)
    && multiset(s.accepted) == multiset(s.delivered) + multiset(s.queue)
    && match s.phase
       case Idle => true
       case NotEmpty => s.queue != []
       case Peeked(m) => m in s.queue
       case Copied(m) => m in s.queue && s.variable == m.bytes
       case Corrupt => false
  }

  lemma {:induction false} UnlinkMultiset(q: seq<Message>, m: Message)
    requires m in q && forall j :: 0 <= j < |q| && q[j].id == m.id ==> q[j] == m
    ensures multiset(q) == multiset(Unlink(q, m.id)) + multiset{m}
  {
    assert q == [q[0]] + q[1..];
    if q[0].id != m.id {
      UnlinkMultiset(q[1..], m);
    }
  }

  /** Unlinking keeps the order of the other nodes. */
  lemma {:induction false} UnlinkKeepsDistinct(q: seq<Message>, id: nat, nextId: nat)
    requires DistinctIds(q, nextId)
    ensures DistinctIds(Unlink(q, id), nextId)
    ensures forall j :: 0 <= j < |Unlink(q, id)| ==> Unlink(q, id)[j] in q
  {
    if q != [] && q[0].id != id {
      var r := Unlink(q[1..], id);
      assert DistinctIds(q[1..], nextId);
      UnlinkKeepsDistinct(q[1..], id, nextId);
      assert Unlink(q, id) == [q[0]] + r;
      forall j | 0 <= j < |r|
        ensures r[j].id != q[0].id && r[j] in q
      {
        assert r[j] in q[1..];
      }
    }
  }

  lemma UnlinkProperties(q: seq<Message>, m: Message, nextId: nat)
    requires DistinctIds(q, nextId) && m in q
    ensures DistinctIds(Unlink(q, m.id), nextId)
    ensures multiset(q) == multiset(Unlink(q, m.id)) + multiset{m}
  {
    UnlinkKeepsDistinct(q, m.id, nextId);
    UnlinkMultiset(q, m);
  }

  lemma StepKeepsInv(s: State, a: Action)
    requires Inv(s) && Enabled(s, a)
    ensures Inv(Step(s, a))
  {
    if a.Delete? {
      UnlinkProperties(s.queue, s.phase.m, s.nextId);
      assert multiset(s.delivered + [s.phase.m]) == multiset(s.delivered) + multiset{s.phase.m};
    } else if a.Add? {
      var m := Message(s.nextId, a.bytes);
      assert multiset(s.accepted + [m]) == multiset(s.accepted) + multiset{m};
      assert multiset([m] + s.queue) == multiset{m} + multiset(s.queue);
      assert s.phase.Peeked? || s.phase.Copied? ==> s.phase.m in [m] + s.queue;
    }
  }

  /** Each fine-grained step is one atomic step or none. */
  lemma StepRefines(s: State, a: Action)
    requires Inv(s) && Enabled(s, a)
    ensures Abstract(Step(s, a)) == Atomic(Abstract(s), a)
  {
    match a {
      case Add(bytes) =>
        var m := Message(s.nextId, bytes);
        if s.phase.Peeked? || s.phase.Copied? {
          assert s.phase.m.id != m.id;
          assert ([m] + s.queue)[1..] == s.queue;
        }
      case Peek =>
        assert Unlink(s.queue, s.queue[0].id) == s.queue[1..];
      case _ =>
    }
  }

  lemma {:induction false} RunRefines(s: State, actions: seq<Action>, s': State)
    requires Inv(s) && Run(s, actions, s')
    ensures Inv(s') && Abstract(s') == AtomicRun(Abstract(s), actions)
    decreases actions
  {
    if actions != [] {
      StepKeepsInv(s, actions[0]);
      StepRefines(s, actions[0]);
      RunRefines(Step(s, actions[0]), actions[1..], s');
    }
  }

  // ----- main results -----

  /**
   Whatever the receive thread does between the steps of RECEIVE: no list operation goes wrong, the
   messages accepted are those delivered and those still queued, and the message a RECEIVE removes is
   exactly the one whose bytes it put into the variable.
   */
  lemma MessagesConserved(actions: seq<Action>, s: State)
    requires Run(INITIAL, actions, s)
    ensures !s.phase.Corrupt?
    ensures multiset(s.accepted) == multiset(s.delivered) + multiset(s.queue)
    ensures s.phase.Copied? ==>
      var t := Step(s, Delete);
      && t.delivered == s.delivered + [s.phase.m] && s.variable == s.phase.m.bytes
      && multiset(s.queue) == multiset(t.queue) + multiset{s.phase.m}
  {
    RunRefines(INITIAL, actions, s);
    if s.phase.Copied? {
      UnlinkProperties(s.queue, s.phase.m, s.nextId);
    }
  }

  /** The protocol is linearizable: it delivers what the atomic stack pops, newest message first. */
  lemma ReceiveIsAtomicPop(actions: seq<Action>, s: State)
    requires Run(INITIAL, actions, s)
    ensures Abstract(s) == AtomicRun(Stack([], 0, []), actions)
    ensures s.phase.Idle? ==> AtomicRun(Stack([], 0, []), actions) == Stack(s.queue, s.nextId, s.delivered)
  {
    RunRefines(INITIAL, actions, s);
  }
}
