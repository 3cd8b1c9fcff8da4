/**
 Network Code as the hardware implementation encodes it: 32-bit words, what they mean, and how an
 assembler lays them out.  The meaning is given directly, without going through the module's bytecode.
 */
module Hardware {
  import opened Words
  import opened Bytes
  import opened FutureSpec
  import opened Frames
  import opened Sync
  import opened Machine
  import opened Runs

  type u20 = x: int | 0 <= x < 0x10_0000

  datatype Property = IsZero | IsNonzero | EvenParity | OddParity

  datatype Guard =
    | True
    | False
    | SendBufferEmpty
    | ReceiveBufferEmpty(channel: u8)
    | TestCount(value: u16)
    | StatusTest(mask: u16)
    | EqualVars(v1: u8, v2: u8)
    | GreaterVars(v1: u8, v2: u8)
    | LessVars(v1: u8, v2: u8)
    | TestVar(v: u8, property: Property)
    | VarQueueEmpty(v: u8)
    | VarQueueFull(v: u8)

  datatype Count = Keep | Clear | Increment | Decrement

  datatype HwInstr =
    | Nop
    | Create(v: u8)
    | Send(channel: u8)
    | Receive(channel: u8, v: u8)
    | Halt
    | Schedule(delay: u16, target: u8)
    | If(guard: Guard, target: u8)
    | Counter(op: Count)
    | SyncMaster(channel: u8)
    | SyncSlave(timeout: u16)

  // ----- words -----

  /** A bit field: shift right by a power of two, then mask to a power of two. */
  function Field(w: nat, unit: nat, range: nat): (f: nat)
    requires unit > 0 && range > 0
    ensures f < range
  {
    w / unit % range
  }

  /** The lowest four bits name the property, the highest one first; none of them is read as "is zero". */
  function DecodeProperty(g: u20): Property {
    if Field(g, 8, 2) == 1 then IsNonzero
    else if Field(g, 4, 2) == 1 then IsZero
    else if Field(g, 2, 2) == 1 then EvenParity
    else if Field(g, 1, 2) == 1 then OddParity
    else IsZero
  }

  function Byte(w: nat, unit: nat): u8
    requires unit > 0
  {
    Field(w, unit, 0x100)
  }

  function Half(w: nat): u16 {
    Field(w, 1, 0x1_0000)
  }

  /** Guard masks: the type is in the upper four of twenty bits; five types are not assigned. */
  function DecodeGuard(g: u20): Option<Guard> {
    match Field(g, 0x1_0000, 0x10)
    case 7 => Some(True)
    case 0 => Some(False)
    case 1 => Some(if Field(g, 1, 2) == 1 then SendBufferEmpty else ReceiveBufferEmpty(Byte(g, 0x100)))
    case 2 => Some(TestCount(Half(g)))
    case 3 => Some(StatusTest(Half(g)))
    case 8 => Some(EqualVars(Byte(g, 0x100), Byte(g, 1)))
    case 9 => Some(GreaterVars(Byte(g, 0x100), Byte(g, 1)))
    case 10 => Some(LessVars(Byte(g, 0x100), Byte(g, 1)))
    case 11 => Some(TestVar(Byte(g, 0x100), DecodeProperty(g)))
    case 5 => Some(VarQueueEmpty(Byte(g, 0x100)))
    case 6 => Some(VarQueueFull(Byte(g, 0x100)))
    case _ => None
  }

  function GuardMask(w: u32): u20 {
    Field(w, 1, 0x10_0000)
  }

  function DecodeCount(w: u32): Count {
    match Field(w, 0x100_0000, 4)
    case 0 => Keep
    case 1 => Clear
    case 2 => Increment
    case _ => Decrement
  }

  /** The nine opcodes of translator.h; `None` for any other word and for unassigned guard types. */
  function Decode(w: u32): Option<HwInstr> {
    match Field(w, 0x1000_0000, 0x10)
    case 0 => Some(Nop)
    case 1 => Some(Create(Byte(w, 0x100)))
    case 2 => Some(Send(Byte(w, 0x1_0000)))
    case 3 => Some(Receive(Byte(w, 0x1_0000), Byte(w, 0x100)))
    case 4 => Some(Halt)
    case 5 => Some(Schedule(Half(w), Byte(w, 0x10_0000)))
    case 7 =>
      (match DecodeGuard(GuardMask(w))
       case None => None
       case Some(g) => Some(If(g, Byte(w, 0x10_0000))))
    case 8 => Some(Counter(DecodeCount(w)))
    case 15 => Some(if Field(w, 0x800_0000, 2) == 1 then SyncMaster(Byte(w, 1)) else SyncSlave(Half(w)))
    case _ => None
  }

  // ----- an assembler -----

  function EncodeGuard(g: Guard): u20 {
    match g
    case True => 7 * 0x1_0000
    case False => 0
    case SendBufferEmpty => 0x1_0000 + 1
    case ReceiveBufferEmpty(ch) => 0x1_0000 + ch * 0x100
    case TestCount(value) => 2 * 0x1_0000 + value
    case StatusTest(mask) => 3 * 0x1_0000 + mask
    case EqualVars(v1, v2) => 8 * 0x1_0000 + v1 * 0x100 + v2
    case GreaterVars(v1, v2) => 9 * 0x1_0000 + v1 * 0x100 + v2
    case LessVars(v1, v2) => 10 * 0x1_0000 + v1 * 0x100 + v2
    case TestVar(v, p) =>
      11 * 0x1_0000 + v * 0x100
      + (match p case IsNonzero => 8 case IsZero => 4 case EvenParity => 2 case OddParity => 1)
    case VarQueueEmpty(v) => 5 * 0x1_0000 + v * 0x100
    case VarQueueFull(v) => 6 * 0x1_0000 + v * 0x100
  }

  function Encode(h: HwInstr): u32 {
    match h
    case Nop => 0
    case Create(v) => 0x1000_0000 + v * 0x100
    case Send(ch) => 0x2000_0000 + ch * 0x1_0000
    case Receive(ch, v) => 0x3000_0000 + ch * 0x1_0000 + v * 0x100
    case Halt => 0x4000_0000
    case Schedule(delay, target) => 0x5000_0000 + target * 0x10_0000 + delay
    case If(g, target) => 0x7000_0000 + target * 0x10_0000 + EncodeGuard(g)
    case Counter(op) =>
      0x8000_0000 + (match op case Keep => 0 case Clear => 1 case Increment => 2 case Decrement => 3) * 0x100_0000
    case SyncMaster(ch) => 0xF000_0000 + 0x800_0000 + ch
    case SyncSlave(timeout) => 0xF000_0000 + timeout
  }

  lemma FieldIs(w: nat, unit: nat, range: nat, top: nat, f: nat, low: nat)
    requires unit > 0 && f < range && low < unit && w == (top * range + f) * unit + low
    ensures Field(w, unit, range) == f
  {
    DivUnique(w, unit, top * range + f, low);
    DivUnique(top * range + f, range, top, f);
  }

  lemma MaskSteps(top: nat, t: nat, f: nat, low: nat, unit: nat, range: nat, k: nat)
    ensures top * (unit * range * k) + ((t * range + f) * unit + low) == ((top * k + t) * range + f) * unit + low
  {
    var a := top * k;
    assert top * (unit * range * k) == a * range * unit;
    assert (a + t) * range == a * range + t * range;
    assert (a * range + (t * range + f)) * unit == a * range * unit + (t * range + f) * unit;
  }

  /** A field that lies inside a mask is the same with and without the mask. */
  lemma MaskedField(w: nat, unit: nat, range: nat, k: nat)
    requires unit > 0 && range > 0 && k > 0 && unit * range * k > 0
    ensures Field(w % (unit * range * k), unit, range) == Field(w, unit, range)
  {
    var n := unit * range * k;
    var g := w % n;
    var f, t := Field(g, unit, range), g / unit / range;
    QuotientRest(w, n);
    QuotientRest(g, unit);
    QuotientRest(g / unit, range);
    MaskSteps(w / n, t, f, g % unit, unit, range, k);
    hide Field;
    FieldIs(w, unit, range, w / n * k + t, f, g % unit);
  }

  lemma TwoBytes(g: nat, k: nat, hi: u8, lo: u8)
    requires k < 16 && g == k * 0x1_0000 + hi * 0x100 + lo
    ensures Field(g, 0x1_0000, 0x10) == k && Byte(g, 0x100) == hi && Byte(g, 1) == lo
  {
    FieldIs(g, 0x1_0000, 0x10, 0, k, hi * 0x100 + lo);
    FieldIs(g, 0x100, 0x100, k, hi, lo);
    FieldIs(g, 1, 0x100, k * 0x100 + hi, lo, 0);
  }

  lemma LowBits(g: nat, k: nat, b3: nat, b2: nat, b1: nat, b0: nat)
    requires b3 < 2 && b2 < 2 && b1 < 2 && b0 < 2 && g == k * 0x10 + b3 * 8 + b2 * 4 + b1 * 2 + b0
    ensures Field(g, 1, 2) == b0 && Field(g, 2, 2) == b1 && Field(g, 4, 2) == b2 && Field(g, 8, 2) == b3
  {
    hide Field;
    FieldIs(g, 1, 2, k * 8 + b3 * 4 + b2 * 2 + b1, b0, 0);
    FieldIs(g, 2, 2, k * 4 + b3 * 2 + b2, b1, b0);
    FieldIs(g, 4, 2, k * 2 + b3, b2, b1 * 2 + b0);
    FieldIs(g, 8, 2, k, b3, b2 * 4 + b1 * 2 + b0);
  }

  lemma OneHalf(g: nat, k: nat, x: u16)
    requires k < 16 && g == k * 0x1_0000 + x
    ensures Field(g, 0x1_0000, 0x10) == k && Half(g) == x
  {
  }

  lemma GuardRoundTrip(g: Guard)
    ensures DecodeGuard(EncodeGuard(g)) == Some(g)
  {
    hide Field, Byte, Half;
    var x := EncodeGuard(g);
    match g {
      case True => TwoBytes(x, 7, 0, 0);
      case False => TwoBytes(x, 0, 0, 0);
      case SendBufferEmpty =>
        TwoBytes(x, 1, 0, 1);
        LowBits(x, 0x1000, 0, 0, 0, 1);
      case ReceiveBufferEmpty(ch) =>
        TwoBytes(x, 1, ch, 0);
        LowBits(x, 0x1000 + ch * 0x10, 0, 0, 0, 0);
      case TestCount(value) => OneHalf(x, 2, value);
      case StatusTest(mask) => OneHalf(x, 3, mask);
      case EqualVars(v1, v2) => TwoBytes(x, 8, v1, v2);
      case GreaterVars(v1, v2) => TwoBytes(x, 9, v1, v2);
      case LessVars(v1, v2) => TwoBytes(x, 10, v1, v2);
      case TestVar(v, p) =>
        TwoBytes(x, 11, v, match p case IsNonzero => 8 case IsZero => 4 case EvenParity => 2 case OddParity => 1);
        match p {
          case IsNonzero => LowBits(x, 0xB000 + v * 0x10, 1, 0, 0, 0);
          case IsZero => LowBits(x, 0xB000 + v * 0x10, 0, 1, 0, 0);
          case EvenParity => LowBits(x, 0xB000 + v * 0x10, 0, 0, 1, 0);
          case OddParity => LowBits(x, 0xB000 + v * 0x10, 0, 0, 0, 1);
        }
      case VarQueueEmpty(v) => TwoBytes(x, 5, v, 0);
      case VarQueueFull(v) => TwoBytes(x, 6, v, 0);
    }
  }

  lemma WordBytes(w: nat, op: nat, z: nat, b2: u8, b1: u8, b0: u8)
    requires op < 16 && z < 16 && w == op * 0x1000_0000 + z * 0x100_0000 + b2 * 0x1_0000 + b1 * 0x100 + b0
    ensures Field(w, 0x1000_0000, 0x10) == op && Field(w, 0x100_0000, 4) == z % 4 && Field(w, 0x800_0000, 2) == z / 8
    ensures Byte(w, 0x1_0000) == b2 && Byte(w, 0x100) == b1 && Byte(w, 1) == b0
  {
    hide Field;
    FieldIs(w, 0x1000_0000, 0x10, 0, op, z * 0x100_0000 + b2 * 0x1_0000 + b1 * 0x100 + b0);
    FieldIs(w, 0x100_0000, 4, op * 4 + z / 4, z % 4, b2 * 0x1_0000 + b1 * 0x100 + b0);
    FieldIs(w, 0x800_0000, 2, op, z / 8, z % 8 * 0x100_0000 + b2 * 0x1_0000 + b1 * 0x100 + b0);
    FieldIs(w, 0x1_0000, 0x100, op * 0x10 + z, b2, b1 * 0x100 + b0);
    FieldIs(w, 0x100, 0x100, (op * 0x10 + z) * 0x100 + b2, b1, b0);
    FieldIs(w, 1, 0x100, ((op * 0x10 + z) * 0x100 + b2) * 0x100 + b1, b0, 0);
  }

  lemma WordTarget(w: nat, op: nat, target: u8, low: u20)
    requires op < 16 && w == op * 0x1000_0000 + target * 0x10_0000 + low
    ensures Field(w, 0x1000_0000, 0x10) == op && Byte(w, 0x10_0000) == target
    ensures Field(w, 1, 0x10_0000) == low && Half(w) == low % 0x1_0000
    ensures Field(w, 0x800_0000, 2) == target / 0x80
  {
    hide Field;
    FieldIs(w, 0x1000_0000, 0x10, 0, op, target * 0x10_0000 + low);
    FieldIs(w, 0x10_0000, 0x100, op, target, low);
    FieldIs(w, 1, 0x10_0000, op * 0x100 + target, low, 0);
    FieldIs(w, 1, 0x1_0000, (op * 0x100 + target) * 0x10 + low / 0x1_0000, low % 0x1_0000, 0);
    FieldIs(w, 0x800_0000, 2, op, target / 0x80, target % 0x80 * 0x10_0000 + low);
  }

  /** Every instruction has an encoding that is read back as that instruction. */
  lemma EncodeDecode(h: HwInstr)
    ensures Decode(Encode(h)) == Some(h)
  {
    hide Field, Byte, Half, DecodeGuard, EncodeGuard;
    var w := Encode(h);
    match h {
      case Nop => WordBytes(w, 0, 0, 0, 0, 0);
      case Create(v) => WordBytes(w, 1, 0, 0, v, 0);
      case Send(ch) => WordBytes(w, 2, 0, ch, 0, 0);
      case Receive(ch, v) => WordBytes(w, 3, 0, ch, v, 0);
      case Halt => WordBytes(w, 4, 0, 0, 0, 0);
      case Schedule(delay, target) => WordTarget(w, 5, target, delay);
      case If(g, target) =>
        WordTarget(w, 7, target, EncodeGuard(g));
        GuardRoundTrip(g);
      case Counter(op) =>
        WordBytes(w, 8, match op case Keep => 0 case Clear => 1 case Increment => 2 case Decrement => 3, 0, 0, 0);
      case SyncMaster(ch) => WordBytes(w, 15, 8, 0, 0, ch);
      case SyncSlave(timeout) => WordTarget(w, 15, 0, timeout);
    }
  }

  // ----- meaning -----

  predicate GuardInside(c: Config, g: Guard) {
    match g
    case ReceiveBufferEmpty(ch) => ch < |c.channels|
    case TestCount(_) => c.counters > 0
    case EqualVars(v1, v2) => v1 < c.variables && v2 < c.variables
    case GreaterVars(v1, v2) => v1 < c.variables && v2 < c.variables
    case LessVars(v1, v2) => v1 < c.variables && v2 < c.variables
    case TestVar(v, _) => v < c.variables
    case _ => true
  }

  /** The ids of the instruction exist. */
  predicate Inside(c: Config, h: HwInstr) {
    match h
    case Create(v) => v < c.variables && c.messages > 0
    case Send(ch) => ch < |c.channels| && c.messages > 0
    case Receive(ch, v) => ch < |c.channels| && v < c.variables
    case If(g, _) => GuardInside(c, g)
    case Counter(op) => op == Keep || c.counters > 0
    case SyncMaster(ch) => ch < |c.channels|
    case _ => true
  }

  ghost predicate Satisfies(v: Data, p: Property) {
    match p
    case IsZero => Value(v) == 0
    case IsNonzero => Value(v) != 0
    case EvenParity => OnesIn(v) % 2 == 0
    case OddParity => OnesIn(v) % 2 == 1
  }

  ghost predicate Holds(c: Config, m: Vm, g: Guard)
    requires Shape(c, m) && GuardInside(c, g)
  {
    match g
    case True => true
    case False => false
    case SendBufferEmpty => false
    case ReceiveBufferEmpty(ch) => m.rx[ch] == []
    case TestCount(value) => m.counters[0] == value
    case StatusTest(mask) => IsErrorSet(m.errorBits, Mask16(mask))
    case EqualVars(v1, v2) => Value(m.vars[v1]) == Value(m.vars[v2])
    case GreaterVars(v1, v2) => Value(m.vars[v1]) > Value(m.vars[v2])
    case LessVars(v1, v2) => Value(m.vars[v1]) < Value(m.vars[v2])
    case TestVar(v, p) => Satisfies(m.vars[v], p)
    case VarQueueEmpty(_) => false
    case VarQueueFull(_) => false
  }

  function Counted(op: Count, x: u32): u32 {
    match op
    case Keep => x
    case Clear => 0
    case Increment => if x == 0xFFFF_FFFF then 0 else x + 1
    case Decrement => if x == 0 then 0xFFFF_FFFF else x - 1
  }

  /** The next instruction, in the state that results. */
  function Onward(m: Vm): Outcome {
    Next(m.(pc := Wrap32(m.pc + 1)), [])
  }

  /**
   One hardware instruction: the one message buffer is slot 0 and the one counter is counter 0; the
   future queue is sorted by expiry, older futures first.
   */
  ghost function HwStep(c: Config, length: nat, m: Vm, h: HwInstr, e: Env): Outcome
    requires Shape(c, m) && Inside(c, h)
  {
    match h
    case Nop => Onward(m)
    case Create(v) => Onward(m.(slots := m.slots[0 := Some(Assemble(e.junk, m.vars[v]))]))
    case Send(ch) =>
      (match (m.slots[0], c.channels[ch].device)
       case (Some(frame), Some(mac)) =>
         var sent := [Sent(Address(frame, BROADCAST, mac))];
         var m' := m.(slots := m.slots[0 := None]);
         if e.xmit < 0 then Stopped(PROGRAM_ERROR, m', sent) else Next(m'.(pc := Wrap32(m.pc + 1)), sent)
       case _ => Stopped(PROGRAM_ERROR, m, []))
    case Receive(ch, v) =>
      if m.rx[ch] == [] then Onward(m.(errorBits := SetError(m.errorBits, ERR_BIT_RCV_FAULT)))
      else Onward(m.(vars := m.vars[v := Payload(m.rx[ch][0])], rx := m.rx[ch := m.rx[ch][1..]],
                     errorBits := ClearError(m.errorBits, ERR_BIT_RCV_FAULT)))
    case Halt =>
      if m.queue == [] then Stopped(PROGRAM_ERROR, m, [])
      else Next(m.(pc := m.queue[0].jmp, queue := m.queue[1..]), [Took(m.queue[0], e.haltClock)])
    case Schedule(delay, target) =>
      if target >= length || |m.queue| == c.capacity then Stopped(PROGRAM_ERROR, m, [])
      else
        var f := Future(target, delay, Wrap64(e.pushClock + delay));
        Next(m.(pc := Wrap32(m.pc + 1), queue := StableSort(m.queue + [f])), [Pushed(f, e.pushClock)])
    case If(g, target) => if Holds(c, m, g) then Next(m.(pc := target), []) else Onward(m)
    case Counter(op) =>
      if op == Keep then Onward(m) else Onward(m.(counters := m.counters[0 := Counted(op, m.counters[0])]))
    case SyncMaster(_) => Onward(m)
    case SyncSlave(timeout) =>
      var answered := Answered(e.syncStart, timeout, e.attempts);
      Onward(m.(errorBits := if answered then ClearError(m.errorBits, ERR_BIT_SYNC_TIMEOUT)
                             else SetError(m.errorBits, ERR_BIT_SYNC_TIMEOUT)))
  }

  /** The meaning of a whole hardware program in place of the bytecode program of `c`. */
  ghost function HwFeed(c: Config, p: seq<HwInstr>, m: Vm, i: Input): Outcome
    requires Shape(c, m) && Possible(c, i)
  {
    match i
    case Execute(e) =>
      if m.pc >= |p| || !Inside(c, p[m.pc]) then Undefined else HwStep(c, |p|, m, p[m.pc], e)
    case Write(v, bytes) => Next(m.(vars := m.vars[v := bytes]), [])
    case Arrive(ch, frame) => Next(Enqueue(c, m, ch, frame), [])
  }

  lemma ScheduleKeepsShape(c: Config, m: Vm, f: Future)
    requires Shape(c, m) && |m.queue| < c.capacity && f.jmp < |c.program|
    ensures QueueShape(c, StableSort(m.queue + [f]))
  {
    hide QueueShape;
    QueueSorted(c, m);
    PushInserts(m.queue, f);
    PushKeepsShape(c, m.queue, f);
  }

  lemma QueueSorted(c: Config, m: Vm)
    requires Shape(c, m)
    ensures Sorted(m.queue)
  {
  }

  lemma ReceivedKeepsShape(c: Config, m: Vm, ch: nat, v: nat)
    requires Shape(c, m) && ch < |m.rx| && m.rx[ch] != [] && v < |m.vars|
    ensures BufferShape(c, m.(vars := m.vars[v := Payload(m.rx[ch][0])], rx := m.rx[ch := m.rx[ch][1..]]))
  {
    var rx := m.rx[ch := m.rx[ch][1..]];
    forall i, k | 0 <= i < |rx| && 0 <= k < |rx[i]|
      ensures |rx[i][k]| <= ETH_DATA_LEN
    {
      assert rx[i][k] == if i == ch then m.rx[i][k + 1] else m.rx[i][k];
    }
  }

  /** The meaning of an instruction keeps the sizes of all arrays and the order of the queue. */
  lemma HwStepKeepsShape(c: Config, m: Vm, h: HwInstr, e: Env)
    requires Shape(c, m) && Inside(c, h)
    ensures var o := HwStep(c, |c.program|, m, h, e); o.Next? ==> Shape(c, o.vm)
  {
    hide SetError, ClearError, StableSort, IsErrorSet, Holds;
    match h {
      case Schedule(delay, target) =>
        if target < |c.program| && |m.queue| < c.capacity {
          ScheduleKeepsShape(c, m, Future(target, delay, Wrap64(e.pushClock + delay)));
        }
      case Receive(ch, v) =>
        if m.rx[ch] != [] {
          ReceivedKeepsShape(c, m, ch, v);
        }
      case Halt =>
        HaltKeepsQueueShape(c, m, e);
      case _ =>
    }
  }

  lemma HwFeedKeepsShape(c: Config, p: seq<HwInstr>, m: Vm, i: Input)
    requires Shape(c, m) && Possible(c, i) && |p| == |c.program|
    ensures HwFeed(c, p, m, i).Next? ==> Shape(c, HwFeed(c, p, m, i).vm)
  {
    hide HwStep;
    if !i.Execute? {
      FeedKeepsShape(c, m, i);
    } else if m.pc < |p| && Inside(c, p[m.pc]) {
      HwStepKeepsShape(c, m, p[m.pc], i.e);
    }
  }

  /** A hardware program run on its own meaning; of the bytecode program of `c` only the length matters. */
  ghost function HwRun(c: Config, p: seq<HwInstr>, m: Vm, inputs: seq<Input>): Outcome
    requires Shape(c, m) && |p| == |c.program| && forall k :: 0 <= k < |inputs| ==> Possible(c, inputs[k])
    decreases inputs
  {
    if inputs == [] then Next(m, [])
    else
      HwFeedKeepsShape(c, p, m, inputs[0]);
      match HwFeed(c, p, m, inputs[0])
      case Next(m1, ev) => Prefixed(ev, HwRun(c, p, m1, inputs[1..]))
      case other => other
  }
}
