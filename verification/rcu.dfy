/**
 The double buffer of one variable under concurrency (variable_space.c:33-75): any number of readers
 inside RCU sections, any number of writers, every single memory access a step of its own.
 */
module Rcu {
  import opened Bytes

  datatype Buf = B0 | B1

  function Other(b: Buf): Buf {
    if b == B0 then B1 else B0
  }

  /** `data` has the size of the C array; only the first `length` bytes mean something. */
  datatype Buffer = Buffer(data: Data, length: nat) {
    ghost predicate Holds(v: Data) {
      length == |v| <= |data| && data[..length] == v
    }
  }

  /** Where a call of `set_variable_data` stands. */
  datatype Writer =
    | Filling(value: Data, k: nat)   // lock held, k bytes copied
    | Filled(value: Data)            // lock held, length stored
    | Published(tmp: Buf)            // lock held, read_buf assigned
    | Flipped                        // lock held, write_buf assigned
    | Released                       // lock given back, synchronize_rcu not yet entered
    | Grace(waiting: set<nat>)       // inside synchronize_rcu

  /** One `rcu_dereference(read_buf)`: the pointer read, and how many values had been published before. */
  datatype Deref = Deref(buf: Buf, version: nat)

  datatype State = State(
    b0: Buffer,
    b1: Buffer,
    readBuf: Buf,
    writeBuf: Buf,
    history: seq<Data>,             // the values published so far
    readers: map<nat, seq<Deref>>,  // readers inside a section, with what they dereferenced in it
    writers: map<nat, Writer>)      // calls of set_variable_data that have not returned
  {
    function Get(b: Buf): Buffer {
      if b == B0 then b0 else b1
    }

    function Put(b: Buf, c: Buffer): State {
      if b == B0 then this.(b0 := c) else this.(b1 := c)
    }
  }

  datatype Action =
    | Enter(r: nat)
    | Dereference(r: nat)
    | Exit(r: nat)
    | Lock(w: nat, value: Data)
    | Store(w: nat)
    | StoreLength(w: nat)
    | Publish(w: nat)
    | Flip(w: nat)
    | Unlock(w: nat)
    | Synchronize(w: nat)
    | Return(w: nat)

  predicate HoldsLock(w: Writer) {
    !w.Released? && !w.Grace?
  }

  ghost predicate LockFree(s: State) {
    forall w :: w in s.writers ==> !HoldsLock(s.writers[w])
  }

  ghost predicate Enabled(s: State, a: Action) {
    match a
    case Enter(r) => r !in s.readers
    case Dereference(r) => r in s.readers
    case Exit(r) => r in s.readers
    case Lock(w, value) => w !in s.writers && LockFree(s) && |value| <= |s.Get(s.writeBuf).data|
    case Store(w) =>
      w in s.writers && s.writers[w].Filling? && s.writers[w].k < |s.writers[w].value| <= |s.Get(s.writeBuf).data|
    case StoreLength(w) => w in s.writers && s.writers[w].Filling? && s.writers[w].k == |s.writers[w].value|
    case Publish(w) => w in s.writers && s.writers[w].Filled?
    case Flip(w) => w in s.writers && s.writers[w].Published?
    case Unlock(w) => w in s.writers && s.writers[w].Flipped?
    case Synchronize(w) => w in s.writers && s.writers[w].Released?
    case Return(w) => w in s.writers && s.writers[w] == Grace({})
  }

  /** `synchronize_rcu` stops waiting for a section once that section is left. */
  function Unwait(w: Writer, r: nat): Writer {
    if w.Grace? then Grace(w.waiting - {r}) else w
  }

  ghost function Next(s: State, a: Action): State
    requires Enabled(s, a)
  {
    match a
    case Enter(r) => s.(readers := s.readers[r := []])
    case Dereference(r) => s.(readers := s.readers[r := s.readers[r] + [Deref(s.readBuf, |s.history|)]])
    case Exit(r) =>
      s.(readers := s.readers - {r}, writers := map w | w in s.writers :: Unwait(s.writers[w], r))
    case Lock(w, value) => s.(writers := s.writers[w := Filling(value, 0)])
    case Store(w) =>
      var f, b := s.writers[w], s.Get(s.writeBuf);
      s.Put(s.writeBuf, b.(data := b.data[f.k := f.value[f.k]])).(writers := s.writers[w := f.(k := f.k + 1)])
    case StoreLength(w) =>
      var f, b := s.writers[w], s.Get(s.writeBuf);
      s.Put(s.writeBuf, b.(length := |f.value|)).(writers := s.writers[w := Filled(f.value)])
    case Publish(w) =>
      s.(readBuf := s.writeBuf, history := s.history + [s.writers[w].value],
         writers := s.writers[w := Published(s.readBuf)])
    case Flip(w) => s.(writeBuf := s.writers[w].tmp, writers := s.writers[w := Flipped])
    case Unlock(w) => s.(writers := s.writers[w := Released])
    case Synchronize(w) => s.(writers := s.writers[w := Grace(s.readers.Keys)])
    case Return(w) => s.(writers := s.writers - {w})
  }

  /** After `init_variable_space`; `size` bytes per buffer. */
  ghost predicate Initial(s: State) {
    && |s.b0.data| == |s.b1.data|
    && s.b0.length == 0 && s.b1.length == 0
    && s.readBuf == B0 && s.writeBuf == B1
    && s.history == [] && s.readers == map[] && s.writers == map[]
  }

  /** The value readers should see after `v` publications. */
  function ValueAfter(s: State, v: nat): Data
    requires v <= |s.history|
  {
    if v == 0 then [] else s.history[v - 1]
  }

  // ----- what must not happen -----

  ghost predicate HeldByReader(s: State, b: Buf) {
    exists r, k :: r in s.readers && 0 <= k < |s.readers[r]| && s.readers[r][k].buf == b
  }

  /** The action writes to a buffer that a reader inside its section has dereferenced. */
  ghost predicate Conflict(s: State, a: Action) {
    Enabled(s, a) && (a.Store? || a.StoreLength?) && HeldByReader(s, s.writeBuf)
  }

  /** Writes are serialised: a call starts only when no other call is under way. */
  ghost predicate Serialised(s: State, a: Action) {
    a.Lock? ==> s.writers == map[]
  }

  /** A run of enabled, serialised actions from `s` to `s'`. */
  ghost predicate SerialRun(s: State, actions: seq<Action>, s': State)
    decreases actions
  {
    if actions == [] then s == s'
    else Enabled(s, actions[0]) && Serialised(s, actions[0]) && SerialRun(Next(s, actions[0]), actions[1..], s')
  }

  /** A run that only respects the spinlock, as the code does. */
  ghost predicate LockedRun(s: State, actions: seq<Action>, s': State)
    decreases actions
  {
    if actions == [] then s == s'
    else Enabled(s, actions[0]) && LockedRun(Next(s, actions[0]), actions[1..], s')
  }

  // ----- the invariant of serialised writes -----

  ghost predicate Fresh(s: State, d: Deref) {
    d.buf == s.readBuf && d.version == |s.history|
  }

  /** The value before the latest, in the buffer that is no longer read. */
  ghost predicate Stale(s: State, d: Deref) {
    d.buf == Other(s.readBuf) && d.version + 1 == |s.history| && s.Get(d.buf).Holds(ValueAfter(s, d.version))
  }

  /** Readers that may still hold the previous buffer. */
  ghost predicate MayBeStale(s: State, r: nat) {
    exists w :: w in s.writers &&
      match s.writers[w]
      case Filling(_, _) => false
      case Filled(_) => false
      case Grace(waiting) => r in waiting
      case _ => true
  }

  ghost predicate ReaderInv(s: State, r: nat)
    requires r in s.readers
  {
    && (forall k :: 0 <= k < |s.readers[r]| ==>
          Fresh(s, s.readers[r][k]) || (MayBeStale(s, r) && Stale(s, s.readers[r][k])))
    && (forall j, k :: 0 <= j < k < |s.readers[r]| ==> s.readers[r][j].version <= s.readers[r][k].version)
  }

  ghost predicate WriterInv(s: State, w: Writer) {
    match w
    case Filling(value, k) =>
      && s.readBuf == Other(s.writeBuf)
      && k <= |value| <= |s.Get(s.writeBuf).data|
      && s.Get(s.writeBuf).data[..k] == value[..k]
    case Filled(value) => s.readBuf == Other(s.writeBuf) && s.Get(s.writeBuf).Holds(value)
    case Published(tmp) => s.readBuf == s.writeBuf && tmp == Other(s.readBuf)
    case Grace(waiting) => s.readBuf == Other(s.writeBuf) && waiting <= s.readers.Keys
    case _ => s.readBuf == Other(s.writeBuf)
  }

  ghost predicate Inv(s: State) {
    && |s.b0.data| == |s.b1.data|
    && s.Get(s.readBuf).Holds(ValueAfter(s, |s.history|))
    && (s.writers == map[] ==> s.readBuf == Other(s.writeBuf))
    && (forall w, w' :: w in s.writers && w' in s.writers ==> w == w')
    && (forall w :: w in s.writers ==> WriterInv(s, s.writers[w]))
    && (forall r :: r in s.readers ==> ReaderInv(s, r))
  }

  lemma InitialInv(s: State)
    requires Initial(s)
    ensures Inv(s)
  {
  }

  lemma EnterKeepsInv(s: State, a: Action)
    requires Inv(s) && Enabled(s, a) && a.Enter?
    ensures Inv(Next(s, a))
  {
    var t := Next(s, a);
    forall r | r in t.readers
      ensures ReaderInv(t, r)
    {
      if r != a.r {
        assert ReaderInv(s, r);
        assert MayBeStale(s, r) ==> MayBeStale(t, r);
      }
    }
    forall w | w in t.writers
      ensures WriterInv(t, t.writers[w])
    {
      assert WriterInv(s, s.writers[w]);
    }
  }

  lemma DereferenceKeepsInv(s: State, a: Action)
    requires Inv(s) && Enabled(s, a) && a.Dereference?
    ensures Inv(Next(s, a))
  {
    var t := Next(s, a);
    assert Fresh(t, Deref(s.readBuf, |s.history|));
    forall r | r in t.readers
      ensures ReaderInv(t, r)
    {
      assert ReaderInv(s, r);
      assert MayBeStale(s, r) ==> MayBeStale(t, r);
    }
    forall w | w in t.writers
      ensures WriterInv(t, t.writers[w])
    {
      assert WriterInv(s, s.writers[w]);
    }
  }

  lemma ExitKeepsInv(s: State, a: Action)
    requires Inv(s) && Enabled(s, a) && a.Exit?
    ensures Inv(Next(s, a))
  {
    var t := Next(s, a);
    forall r | r in t.readers
      ensures ReaderInv(t, r)
    {
      assert ReaderInv(s, r);
      if MayBeStale(s, r) {
        var w :| w in s.writers &&
          match s.writers[w]
          case Filling(_, _) => false
          case Filled(_) => false
          case Grace(waiting) => r in waiting
          case _ => true;
        assert t.writers[w] == Unwait(s.writers[w], a.r);
        assert MayBeStale(t, r);
      }
    }
    forall w | w in t.writers
      ensures WriterInv(t, t.writers[w])
    {
      assert WriterInv(s, s.writers[w]);
    }
    assert t.writers == map[] ==> s.writers == map[] by {
      if t.writers == map[] {
        assert forall w :: w in s.writers ==> w in t.writers;
      }
    }
  }

  /** While the back buffer is being filled nobody holds it. */
  lemma NobodyHoldsBackBuffer(s: State, w: nat)
    requires Inv(s) && w in s.writers && (s.writers[w].Filling? || s.writers[w].Filled?)
    ensures !HeldByReader(s, s.writeBuf)
  {
    forall r, k | r in s.readers && 0 <= k < |s.readers[r]|
      ensures s.readers[r][k].buf != s.writeBuf
    {
      assert ReaderInv(s, r);
      assert WriterInv(s, s.writers[w]);
      assert !MayBeStale(s, r);
    }
  }

  lemma FillKeepsInv(s: State, a: Action)
    requires Inv(s) && Enabled(s, a) && Serialised(s, a) && (a.Lock? || a.Store? || a.StoreLength?)
    ensures Inv(Next(s, a))
  {
    var t := Next(s, a);
    if !a.Lock? {
      assert WriterInv(s, s.writers[a.w]);
    }
    forall r | r in t.readers
      ensures ReaderInv(t, r)
    {
      assert ReaderInv(s, r);
      assert !MayBeStale(s, r);
    }
    if a.Store? {
      var f := s.writers[a.w];
      assert t.Get(s.writeBuf).data[..f.k + 1] == f.value[..f.k + 1];
    }
  }

  lemma PublishKeepsInv(s: State, a: Action)
    requires Inv(s) && Enabled(s, a) && a.Publish?
    ensures Inv(Next(s, a))
  {
    var t := Next(s, a);
    assert WriterInv(s, s.writers[a.w]);
    assert t.writers[a.w] == Published(s.readBuf);
    forall r | r in t.readers
      ensures ReaderInv(t, r)
    {
      assert ReaderInv(s, r);
      assert !MayBeStale(s, r);
      assert MayBeStale(t, r);
    }
  }

  lemma ReleaseKeepsInv(s: State, a: Action)
    requires Inv(s) && Enabled(s, a) && (a.Flip? || a.Unlock? || a.Synchronize?)
    ensures Inv(Next(s, a))
  {
    var t := Next(s, a);
    assert WriterInv(s, s.writers[a.w]);
    forall r | r in t.readers
      ensures ReaderInv(t, r)
    {
      assert ReaderInv(s, r);
      assert a.w in t.writers && MayBeStale(t, r);
    }
  }

  lemma ReturnKeepsInv(s: State, a: Action)
    requires Inv(s) && Enabled(s, a) && a.Return?
    ensures Inv(Next(s, a))
  {
    var t := Next(s, a);
    assert WriterInv(s, s.writers[a.w]);
    forall r | r in t.readers
      ensures ReaderInv(t, r)
    {
      assert ReaderInv(s, r);
      assert !MayBeStale(s, r);
    }
  }

  lemma StepKeepsInv(s: State, a: Action)
    requires Inv(s) && Enabled(s, a) && Serialised(s, a)
    ensures Inv(Next(s, a))
  {
    match a {
      case Enter(_) => EnterKeepsInv(s, a);
      case Dereference(_) => DereferenceKeepsInv(s, a);
      case Exit(_) => ExitKeepsInv(s, a);
      case Lock(_, _) => FillKeepsInv(s, a);
      case Store(_) => FillKeepsInv(s, a);
      case StoreLength(_) => FillKeepsInv(s, a);
      case Publish(_) => PublishKeepsInv(s, a);
      case Return(_) => ReturnKeepsInv(s, a);
      case _ => ReleaseKeepsInv(s, a);
    }
  }

  lemma {:induction false} RunKeepsInv(s: State, actions: seq<Action>, s': State)
    requires Inv(s) && SerialRun(s, actions, s')
    ensures Inv(s')
    decreases actions
  {
    if actions != [] {
      StepKeepsInv(s, actions[0]);
      RunKeepsInv(Next(s, actions[0]), actions[1..], s');
    }
  }

  // ----- main results -----

  /**
   With writes serialised end to end, no interleaving lets a writer modify a buffer that a reader
   inside its section has dereferenced, and outside the swap itself the two pointers are distinct.
   */
  lemma SerialisedWritesAreSafe(s: State, actions: seq<Action>, s': State, a: Action)
    requires Initial(s) && SerialRun(s, actions, s')
    ensures !Conflict(s', a)
    ensures (forall w :: w in s'.writers ==> !s'.writers[w].Published?) ==> s'.readBuf == Other(s'.writeBuf)
  {
    InitialInv(s);
    RunKeepsInv(s, actions, s');
    if Enabled(s', a) && (a.Store? || a.StoreLength?) {
      NobodyHoldsBackBuffer(s', a.w);
    }
    if s'.writers != map[] {
      var w :| w in s'.writers;
      assert WriterInv(s', s'.writers[w]);
    }
  }

  /**
   What a reader sees through its pointers: each pointer it obtained in its section still leads to
   exactly the value that was current when it was obtained, and the section has seen at most one swap.
   */
  lemma ReadersSeeWholeValues(s: State, actions: seq<Action>, s': State, r: nat)
    requires Initial(s) && SerialRun(s, actions, s') && r in s'.readers
    ensures var d := s'.readers[r];
      && (forall k :: 0 <= k < |d| ==>
            d[k].version <= |s'.history| && s'.Get(d[k].buf).Holds(ValueAfter(s', d[k].version)))
      && (forall j, k :: 0 <= j < k < |d| ==> d[j].version <= d[k].version <= d[j].version + 1)
      && (forall j, k :: 0 <= j < k < |d| ==> (d[j].version == d[k].version <==> d[j].buf == d[k].buf))
  {
    InitialInv(s);
    RunKeepsInv(s, actions, s');
    assert ReaderInv(s', r);
  }

  // ----- the spinlock alone -----

  /** One holder of the lock at most; the two pointers are distinct except inside the swap. */
  ghost predicate PointersOk(s: State) {
    && (forall v, w :: v in s.writers && w in s.writers && HoldsLock(s.writers[v]) && HoldsLock(s.writers[w]) ==>
          v == w)
    && (LockFree(s) ==> s.readBuf == Other(s.writeBuf))
    && (forall w :: w in s.writers ==>
          match s.writers[w]
          case Published(tmp) => s.readBuf == s.writeBuf && tmp == Other(s.readBuf)
          case Released => true
          case Grace(_) => true
          case _ => s.readBuf == Other(s.writeBuf))
  }

  /** Whoever holds a buffer that is no longer read holds it since before the swap of a call that has not returned. */
  ghost predicate StaleHeld(s: State) {
    forall r, k :: r in s.readers && 0 <= k < |s.readers[r]| ==> s.readers[r][k].buf == s.readBuf || MayBeStale(s, r)
  }

  lemma ReadersKeepPointersOk(s: State, a: Action)
    requires PointersOk(s) && Enabled(s, a) && (a.Enter? || a.Dereference? || a.Exit?)
    ensures PointersOk(Next(s, a))
  {
    var t := Next(s, a);
    assert t.writers.Keys == s.writers.Keys;
    assert forall w :: w in s.writers ==> (HoldsLock(t.writers[w]) <==> HoldsLock(s.writers[w]));
  }

  lemma FillingKeepsPointersOk(s: State, a: Action)
    requires PointersOk(s) && Enabled(s, a) && (a.Lock? || a.Store? || a.StoreLength?)
    ensures PointersOk(Next(s, a))
  {
    assert HoldsLock(Next(s, a).writers[a.w]);
  }

  lemma SwapKeepsPointersOk(s: State, a: Action)
    requires PointersOk(s) && Enabled(s, a) && (a.Publish? || a.Flip?)
    ensures PointersOk(Next(s, a))
  {
    assert HoldsLock(s.writers[a.w]) && HoldsLock(Next(s, a).writers[a.w]);
  }

  lemma ReleaseKeepsPointersOk(s: State, a: Action)
    requires PointersOk(s) && Enabled(s, a) && (a.Unlock? || a.Synchronize? || a.Return?)
    ensures PointersOk(Next(s, a))
  {
    var t := Next(s, a);
    if !a.Unlock? && !LockFree(s) {
      var w :| w in s.writers && HoldsLock(s.writers[w]);
      assert w in t.writers && t.writers[w] == s.writers[w];
    }
  }

  lemma PointersStayOk(s: State, a: Action)
    requires PointersOk(s) && Enabled(s, a)
    ensures PointersOk(Next(s, a))
  {
    match a {
      case Enter(_) => ReadersKeepPointersOk(s, a);
      case Dereference(_) => ReadersKeepPointersOk(s, a);
      case Exit(_) => ReadersKeepPointersOk(s, a);
      case Lock(_, _) => FillingKeepsPointersOk(s, a);
      case Store(_) => FillingKeepsPointersOk(s, a);
      case StoreLength(_) => FillingKeepsPointersOk(s, a);
      case Publish(_) => SwapKeepsPointersOk(s, a);
      case Flip(_) => SwapKeepsPointersOk(s, a);
      case _ => ReleaseKeepsPointersOk(s, a);
    }
  }

  lemma StaleStaysHeld(s: State, a: Action)
    requires StaleHeld(s) && Enabled(s, a)
    ensures StaleHeld(Next(s, a))
  {
    var t := Next(s, a);
    forall r, k | r in t.readers && 0 <= k < |t.readers[r]|
      ensures t.readers[r][k].buf == t.readBuf || MayBeStale(t, r)
    {
      if a.Publish? {
        assert t.writers[a.w].Published?;
      } else if t.readers[r][k].buf != t.readBuf {
        assert r in s.readers && k < |s.readers[r]|;
        assert s.readers[r][k].buf != s.readBuf;
        StaleReaderStays(s, a, r);
      }
    }
  }

  lemma StaleReaderStays(s: State, a: Action, r: nat)
    requires Enabled(s, a) && MayBeStale(s, r) && r in s.readers && r in Next(s, a).readers
    ensures MayBeStale(Next(s, a), r)
  {
    var t := Next(s, a);
    var w :| w in s.writers &&
      match s.writers[w]
      case Filling(_, _) => false
      case Filled(_) => false
      case Grace(waiting) => r in waiting
      case _ => true;
    assert w in t.writers;
  }

  lemma {:induction false} LockedRunKeeps(s: State, actions: seq<Action>, s': State)
    requires PointersOk(s) && StaleHeld(s) && LockedRun(s, actions, s')
    ensures PointersOk(s') && StaleHeld(s')
    decreases actions
  {
    if actions != [] {
      PointersStayOk(s, actions[0]);
      StaleStaysHeld(s, actions[0]);
      LockedRunKeeps(Next(s, actions[0]), actions[1..], s');
    }
  }

  /** Call `w` fills the back buffer, and no reader holds it. */
  ghost predicate FillsAlone(s: State, w: nat) {
    && w in s.writers && (s.writers[w].Filling? || s.writers[w].Filled?)
    && (forall v :: v in s.writers && HoldsLock(s.writers[v]) ==> v == w)
    && s.readBuf == Other(s.writeBuf)
    && !HeldByReader(s, s.writeBuf)
  }

  lemma FillsAloneStep(s: State, a: Action, w: nat)
    requires FillsAlone(s, w) && Enabled(s, a) && a != Publish(w)
    ensures FillsAlone(Next(s, a), w)
  {
    var t := Next(s, a);
    assert HoldsLock(s.writers[w]);
    assert t.readBuf == s.readBuf && t.writeBuf == s.writeBuf;
    forall r, k | r in t.readers && 0 <= k < |t.readers[r]|
      ensures t.readers[r][k].buf != t.writeBuf
    {
      assert r in s.readers && k < |s.readers[r]| ==> t.readers[r][k] == s.readers[r][k];
    }
  }

  lemma {:induction false} FillsAloneRun(s: State, actions: seq<Action>, s': State, w: nat)
    requires FillsAlone(s, w) && LockedRun(s, actions, s') && Publish(w) !in actions
    ensures FillsAlone(s', w)
    decreases actions
  {
    if actions != [] {
      FillsAloneStep(s, actions[0], w);
      FillsAloneRun(Next(s, actions[0]), actions[1..], s', w);
    }
  }

  /** Call `w` can come to write, before its own swap, to a buffer that a reader holds. */
  ghost predicate MayConflict(s: State, w: nat) {
    exists actions, t, a ::
      LockedRun(s, actions, t) && Publish(w) !in actions && a in [Store(w), StoreLength(w)] && Conflict(t, a)
  }

  /**
   The exact condition under which the spinlock is not enough.  In every state that calls and readers can
   reach when only the lock separates the calls: the call that takes the lock now can come to write, in
   some continuation, to a buffer that a reader holds, if and only if a reader holds the back buffer at
   this moment.  That in turn needs an earlier call that has not returned.
   */
  lemma EarlyCallConflicts(start: State, before: seq<Action>, s: State, w: nat, value: Data)
    requires Initial(start) && LockedRun(start, before, s) && Enabled(s, Lock(w, value))
    ensures MayConflict(Next(s, Lock(w, value)), w) <==> HeldByReader(s, s.writeBuf)
    ensures HeldByReader(s, s.writeBuf) ==> s.writers != map[]
  {
    hide LockedRun, Conflict;
    LockedRunKeeps(start, before, s);
    var t := Next(s, Lock(w, value));
    if HeldByReader(s, s.writeBuf) {
      ConflictNow(s, w, value);
      BackBufferHeld(s);
    } else {
      assert FillsAlone(t, w) by {
        assert HeldByReader(t, t.writeBuf) <==> HeldByReader(s, s.writeBuf);
      }
      AloneNeverConflicts(t, w);
    }
  }

  lemma ConflictNow(s: State, w: nat, value: Data)
    requires Enabled(s, Lock(w, value)) && HeldByReader(s, s.writeBuf)
    ensures MayConflict(Next(s, Lock(w, value)), w)
  {
    var t := Next(s, Lock(w, value));
    var a := if value == [] then StoreLength(w) else Store(w);
    assert HeldByReader(t, t.writeBuf);
    assert LockedRun(t, [], t) && Conflict(t, a);
    assert a in [Store(w), StoreLength(w)] && Publish(w) !in [];
  }

  lemma BackBufferHeld(s: State)
    requires StaleHeld(s) && PointersOk(s) && HeldByReader(s, s.writeBuf)
    ensures s.writers != map[]
  {
    var r, k :| r in s.readers && 0 <= k < |s.readers[r]| && s.readers[r][k].buf == s.writeBuf;
    assert s.readers[r][k].buf == s.readBuf || MayBeStale(s, r);
  }

  lemma AloneNeverConflicts(s: State, w: nat)
    requires FillsAlone(s, w)
    ensures !MayConflict(s, w)
  {
    hide LockedRun;
    forall actions, t, a | LockedRun(s, actions, t) && Publish(w) !in actions && a in [Store(w), StoreLength(w)]
      ensures !Conflict(t, a)
    {
      FillsAloneRun(s, actions, t, w);
    }
  }

  lemma {:induction false} LockedRunExtends(s: State, actions: seq<Action>, t: State, a: Action)
    requires LockedRun(s, actions, t) && Enabled(t, a)
    ensures LockedRun(s, actions + [a], Next(t, a))
    decreases actions
  {
    if actions == [] {
      assert ([] + [a])[1..] == [];
      assert LockedRun(Next(t, a), [], Next(t, a));
    } else {
      assert (actions + [a])[1..] == actions[1..] + [a];
      LockedRunExtends(Next(s, actions[0]), actions[1..], t, a);
    }
  }

  /** A reader obtains the first buffer and stays in its section. */
  lemma ReaderStays(s: State) returns (actions: seq<Action>, t: State)
    requires Initial(s)
    ensures LockedRun(s, actions, t)
    ensures t == s.(readers := map[0 := [Deref(B0, 0)]])
  {
    var s1 := Next(s, Enter(0));
    assert s1.readers == map[0 := []];
    assert [] + [Deref(B0, 0)] == [Deref(B0, 0)];
    assert LockedRun(s, [], s);
    LockedRunExtends(s, [], s, Enter(0));
    LockedRunExtends(s, [] + [Enter(0)], s1, Dereference(0));
    t := Next(s1, Dereference(0));
    actions := [] + [Enter(0)] + [Dereference(0)];
  }

  /** A call of `set_variable_data` up to the assignment of `read_buf`. */
  lemma WriterPublishes(s: State, actions0: seq<Action>, t0: State) returns (actions: seq<Action>, t: State)
    requires LockedRun(s, actions0, t0)
    requires t0.writers == map[] && t0.readBuf == B0 && t0.writeBuf == B1
    ensures LockedRun(s, actions, t)
    ensures t.readers == t0.readers && t.b0 == t0.b0 && t.writeBuf == B1 && t.writers == map[1 := Published(B0)]
  {
    hide LockedRun;
    var t1 := Next(t0, Lock(1, []));
    LockedRunExtends(s, actions0, t0, Lock(1, []));
    assert t1 == t0.(writers := map[1 := Filling([], 0)]);
    var t2 := Next(t1, StoreLength(1));
    LockedRunExtends(s, actions0 + [Lock(1, [])], t1, StoreLength(1));
    assert t2 == t0.(b1 := t0.b1.(length := 0), writers := map[1 := Filled([])]);
    t := Next(t2, Publish(1));
    actions := actions0 + [Lock(1, [])] + [StoreLength(1)] + [Publish(1)];
    LockedRunExtends(s, actions0 + [Lock(1, [])] + [StoreLength(1)], t2, Publish(1));
    assert t.writers == map[1 := Published(B0)];
  }

  /** The rest of the swap, up to the point where the lock is given back. */
  lemma WriterReleases(s: State, actions0: seq<Action>, t0: State) returns (actions: seq<Action>, t: State)
    requires LockedRun(s, actions0, t0) && t0.writers == map[1 := Published(B0)]
    ensures LockedRun(s, actions, t)
    ensures t.readers == t0.readers && t.b0 == t0.b0 && t.writeBuf == B0 && t.writers == map[1 := Released]
  {
    hide LockedRun;
    var t1 := Next(t0, Flip(1));
    LockedRunExtends(s, actions0, t0, Flip(1));
    assert t1.writers == map[1 := Flipped];
    t := Next(t1, Unlock(1));
    actions := actions0 + [Flip(1)] + [Unlock(1)];
    LockedRunExtends(s, actions0 + [Flip(1)], t1, Unlock(1));
    assert t.writers == map[1 := Released];
  }

  /** The spinlock alone does not serialise enough: it is given back before `synchronize_rcu`. */
  lemma SpinlockAloneIsUnsafe(s: State)
    requires Initial(s) && |s.b0.data| >= 1
    ensures exists actions, t, a :: LockedRun(s, actions, t) && Conflict(t, a)
  {
    var actions1, t1 := ReaderStays(s);
    var actions2, t2 := WriterPublishes(s, actions1, t1);
    var actions3, t3 := WriterReleases(s, actions2, t2);
    var lock := Lock(2, [9]);
    LockedRunExtends(s, actions3, t3, lock);
    var t4 := Next(t3, lock);
    assert t4.readers[0][0].buf == t4.writeBuf;
    assert Conflict(t4, Store(2));
  }

  // ----- get_variable_data against a concurrent writer -----

  lemma HeldBufferStep(s: State, a: Action, r: nat, k: nat)
    requires Inv(s) && Enabled(s, a) && Serialised(s, a) && a != Exit(r)
    requires r in s.readers && k < |s.readers[r]|
    ensures var t := Next(s, a);
      && r in t.readers && k < |t.readers[r]| && t.readers[r][k] == s.readers[r][k]
      && t.Get(s.readers[r][k].buf) == s.Get(s.readers[r][k].buf)
  {
    if a.Store? || a.StoreLength? {
      NobodyHoldsBackBuffer(s, a.w);
      assert s.readers[r][k].buf != s.writeBuf;
    }
  }

  /** Buffers a reader has dereferenced do not change while it stays in its section. */
  lemma {:induction false} HeldBuffersDoNotChange(s: State, actions: seq<Action>, s': State, r: nat, k: nat)
    requires Inv(s) && SerialRun(s, actions, s') && Exit(r) !in actions
    requires r in s.readers && k < |s.readers[r]|
    ensures r in s'.readers && k < |s'.readers[r]| && s'.readers[r][k] == s.readers[r][k]
    ensures s'.Get(s.readers[r][k].buf) == s.Get(s.readers[r][k].buf)
    decreases actions
  {
    if actions != [] {
      var a := actions[0];
      StepKeepsInv(s, a);
      HeldBufferStep(s, a, r, k);
      HeldBuffersDoNotChange(Next(s, a), actions[1..], s', r, k);
    }
  }

  /** What `get_variable_data` hands out: the bytes copied, and the length stored at the end. */
  datatype Got = Got(copied: Data, length: nat)

  /** The first pointer gives the bytes, the second the number of bytes to copy, the third the reported length. */
  ghost function GetResult(s: State, r: nat): Got
    requires r in s.readers && |s.readers[r]| >= 3
    requires s.Get(s.readers[r][1].buf).length <= |s.Get(s.readers[r][0].buf).data|
  {
    var d := s.readers[r];
    Got(s.Get(d[0].buf).data[..s.Get(d[1].buf).length], s.Get(d[2].buf).length)
  }

  /** A caller reads `length` bytes of what was copied: these are `v`. */
  ghost predicate IsSnapshot(g: Got, v: Data) {
    g.length == |v| <= |g.copied| && g.copied[..g.length] == v
  }

  /**
   `get_variable_data` dereferences three times.  If no swap falls between the first and the last, the
   caller reads the value of that moment.  If one does, it reads a value that the variable had only if the
   two values have the same length, or the bytes left in the old buffer happen to spell the new value and
   enough of them were copied: because the swap came before the second pointer, or the new value is the
   shorter one.
   */
  lemma GetSnapshotExactly(s: State, actions: seq<Action>, s': State, r: nat)
    requires Initial(s) && SerialRun(s, actions, s') && r in s'.readers && |s'.readers[r]| >= 3
    ensures var d := s'.readers[r];
      && d[0].version <= |s'.history| && d[2].version <= |s'.history|
      && s'.Get(d[1].buf).length <= |s'.Get(d[0].buf).data|
      && |ValueAfter(s', d[2].version)| <= |s'.Get(d[0].buf).data|
    ensures var d := s'.readers[r];
      var before, after := ValueAfter(s', d[0].version), ValueAfter(s', d[2].version);
      var g := GetResult(s', r);
      && (d[0].version == d[2].version ==> IsSnapshot(g, before))
      && (IsSnapshot(g, before) || IsSnapshot(g, after) <==>
            || d[0].version == d[2].version
            || |before| == |after|
            || ((d[1].version == d[2].version || |after| <= |before|) && s'.Get(d[0].buf).data[..|after|] == after))
  {
    ReadersSeeWholeValues(s, actions, s', r);
    InitialInv(s);
    RunKeepsInv(s, actions, s');
    var d := s'.readers[r];
    assert d[0].version <= d[1].version <= d[2].version <= d[0].version + 1;
    assert forall k :: 0 <= k < 3 ==> s'.Get(d[k].buf).Holds(ValueAfter(s', d[k].version));
  }

  /** A caller can make sure of it: when all values written have one length, every later get is a snapshot. */
  lemma EqualLengthsGiveSnapshots(s: State, actions: seq<Action>, s': State, r: nat)
    requires Initial(s) && SerialRun(s, actions, s') && r in s'.readers && |s'.readers[r]| >= 3
    requires forall j, k :: 0 <= j < k < |s'.history| ==> |s'.history[j]| == |s'.history[k]|
    requires s'.readers[r][0].version > 0
    ensures s'.readers[r][0].version <= |s'.history|
    ensures s'.Get(s'.readers[r][1].buf).length <= |s'.Get(s'.readers[r][0].buf).data|
    ensures IsSnapshot(GetResult(s', r), ValueAfter(s', s'.readers[r][0].version))
  {
    ReadersSeeWholeValues(s, actions, s', r);
    GetSnapshotExactly(s, actions, s', r);
    var d := s'.readers[r];
    assert forall k :: 0 <= k < 3 ==> s'.Get(d[k].buf).Holds(ValueAfter(s', d[k].version));
    assert forall k :: 0 <= k < 3 ==> ValueAfter(s', d[k].version) == s'.history[d[k].version - 1];
  }

  lemma SerialRunCons(s: State, a: Action, actions: seq<Action>, s': State)
    requires Enabled(s, a) && Serialised(s, a) && SerialRun(Next(s, a), actions, s')
    ensures SerialRun(s, [a] + actions, s')
  {
    assert ([a] + actions)[1..] == actions;
  }

  /** The first write of one byte, between the first two dereferences of a reader. */
  lemma WriteInBetween(s: State, x: byte) returns (actions: seq<Action>, t: State)
    requires s.writers == map[] && s.readBuf == B0 && s.writeBuf == B1 && s.history == [] && |s.b1.data| >= 1
    ensures SerialRun(s, actions, t)
    ensures t.readers == s.readers && t.b0 == s.b0 && t.readBuf == B1 && t.history == [[x]] && t.b1.length == 1
  {
    hide SerialRun;
    var lock := Lock(1, [x]);
    var s1 := Next(s, lock);
    assert s1.writers == map[1 := Filling([x], 0)];
    var s2 := Next(s1, Store(1));
    assert s2.writers == map[1 := Filling([x], 1)] && s2.b1 == s.b1.(data := s.b1.data[0 := x]);
    var s3 := Next(s2, StoreLength(1));
    assert s3.writers == map[1 := Filled([x])] && s3.b1.length == 1;
    t := Next(s3, Publish(1));
    assert t.history == [[x]];
    SerialRunNil(t);
    SerialRunCons(s3, Publish(1), [], t);
    SerialRunCons(s2, StoreLength(1), [Publish(1)] + [], t);
    SerialRunCons(s1, Store(1), [StoreLength(1)] + ([Publish(1)] + []), t);
    actions := [lock] + ([Store(1)] + ([StoreLength(1)] + ([Publish(1)] + [])));
    SerialRunCons(s, lock, [Store(1)] + ([StoreLength(1)] + ([Publish(1)] + [])), t);
  }

  lemma SerialRunNil(s: State)
    ensures SerialRun(s, [], s)
  {
  }

  lemma {:induction false} SerialRunAppend(s: State, a: seq<Action>, t: State, b: seq<Action>, u: State)
    requires SerialRun(s, a, t) && SerialRun(t, b, u)
    ensures SerialRun(s, a + b, u)
    decreases a
  {
    if a == [] {
      assert a + b == b;
    } else {
      assert (a + b)[1..] == a[1..] + b;
      SerialRunAppend(Next(s, a[0]), a[1..], t, b, u);
    }
  }

  lemma ReaderStarts(s: State) returns (actions: seq<Action>, t: State)
    requires Initial(s)
    ensures SerialRun(s, actions, t) && t == s.(readers := map[0 := [Deref(B0, 0)]])
  {
    hide SerialRun;
    var s1 := Next(s, Enter(0));
    t := Next(s1, Dereference(0));
    assert s1.readers == map[0 := []] && [] + [Deref(B0, 0)] == [Deref(B0, 0)];
    assert t.readers == map[0 := [Deref(B0, 0)]];
    SerialRunNil(t);
    SerialRunCons(s1, Dereference(0), [], t);
    actions := [Enter(0)] + ([Dereference(0)] + []);
    SerialRunCons(s, Enter(0), [Dereference(0)] + [], t);
  }

  lemma ReaderGoesOn(s: State) returns (actions: seq<Action>, t: State)
    requires s.readers == map[0 := [Deref(B0, 0)]] && s.readBuf == B1 && |s.history| == 1
    ensures SerialRun(s, actions, t)
    ensures t == s.(readers := map[0 := [Deref(B0, 0), Deref(B1, 1), Deref(B1, 1)]])
  {
    hide SerialRun;
    var s1 := Next(s, Dereference(0));
    t := Next(s1, Dereference(0));
    assert [Deref(B0, 0)] + [Deref(B1, 1)] == [Deref(B0, 0), Deref(B1, 1)];
    assert s1.readers == map[0 := [Deref(B0, 0), Deref(B1, 1)]];
    assert [Deref(B0, 0), Deref(B1, 1)] + [Deref(B1, 1)] == [Deref(B0, 0), Deref(B1, 1), Deref(B1, 1)];
    assert t.readers == map[0 := [Deref(B0, 0), Deref(B1, 1), Deref(B1, 1)]];
    SerialRunNil(t);
    SerialRunCons(s1, Dereference(0), [], t);
    actions := [Dereference(0)] + ([Dereference(0)] + []);
    SerialRunCons(s, Dereference(0), [Dereference(0)] + [], t);
  }

  /** Three dereferences whose result is no value that the variable ever had. */
  ghost predicate Torn(s: State, r: nat) {
    && r in s.readers && |s.readers[r]| == 3
    && s.Get(s.readers[r][1].buf).length <= |s.Get(s.readers[r][0].buf).data|
    && forall k :: 0 <= k <= |s.history| ==> !IsSnapshot(GetResult(s, r), ValueAfter(s, k))
  }

  /**
   It does fail: even with serialised writes, from every initial state a run leads to a get whose result is
   no value that the variable ever had.
   */
  lemma GetCanBeTorn(s: State)
    requires Initial(s) && |s.b0.data| >= 1
    ensures exists actions, t :: SerialRun(s, actions, t) && Torn(t, 0)
  {
    hide SerialRun;
    var x: byte := if s.b0.data[0] == 9 then 8 else 9;
    var before, s1 := ReaderStarts(s);
    var write, s2 := WriteInBetween(s1, x);
    var after, t := ReaderGoesOn(s2);
    SerialRunAppend(s, before, s1, write, s2);
    SerialRunAppend(s, before + write, s2, after, t);
    var g := GetResult(t, 0);
    assert g.copied[0] == s.b0.data[0] != x && g.length == 1;
    assert t.history == [[x]] && ValueAfter(t, 0) == [] && ValueAfter(t, 1) == [x];
    assert Torn(t, 0);
  }
}
