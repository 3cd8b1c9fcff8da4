/** What the guards on variables mean for the bytes that the variables hold. */
module GuardLaws {
  import opened Words
  import opened Bytes
  import opened VariableSpaces
  import opened Machine

  /** The bytes from the first one that is not zero on. */
  function Significant(s: Data): Data {
    if s != [] && s[0] == 0 then Significant(s[1..]) else s
  }

  /** Shorter strings first, strings of one length by their first difference. */
  predicate Shortlex(a: Data, b: Data) {
    |a| < |b| || (|a| == |b| && Memcmp(a, b) < 0)
  }

  lemma {:induction false} SignificantValue(s: Data)
    ensures Value(Significant(s)) == Value(s)
    ensures Significant(s) == [] || Significant(s)[0] != 0
  {
    if s != [] && s[0] == 0 {
      SignificantValue(s[1..]);
      ValueLeadingZeros(s, 1);
    }
  }

  lemma {:induction false} MemcmpZero(a: Data, b: Data)
    requires |a| == |b|
    ensures Memcmp(a, b) == 0 <==> a == b
  {
    if a != [] && a[0] == b[0] {
      MemcmpZero(a[1..], b[1..]);
      assert a == [a[0]] + a[1..] && b == [b[0]] + b[1..];
    }
  }

  lemma ShorterIsLess(a: Data, b: Data)
    requires |a| < |b| && b[0] != 0
    ensures Value(a) < Value(b)
  {
    ValueBound(a);
    ValueLeadingNonzero(b, 0, |a|);
  }

  /** Comparing the numbers is comparing the strings without their leading zero bytes. */
  lemma ValueOrder(a: Data, b: Data)
    ensures Value(a) == Value(b) <==> Significant(a) == Significant(b)
    ensures Value(a) < Value(b) <==> Shortlex(Significant(a), Significant(b))
  {
    hide Value, Memcmp, Significant;
    var s, t := Significant(a), Significant(b);
    SignificantValue(a);
    SignificantValue(b);
    if |s| < |t| {
      ShorterIsLess(s, t);
    } else if |t| < |s| {
      ShorterIsLess(t, s);
    } else {
      MemcmpComparesValues(s, t);
      MemcmpZero(s, t);
    }
  }

  /** EQUAL, GREATER and LESS on the bytes; of the three exactly one holds. */
  lemma OrderGuards(c: Config, m: Vm, x: u32, y: u32)
    requires Shape(c, m) && x < c.variables && y < c.variables
    ensures var s, t := Significant(m.vars[x]), Significant(m.vars[y]);
      && GuardValue(c, m, EQUAL_VAR_VAR, x, y) == Some(s == t)
      && GuardValue(c, m, GREATER_VAR_VAR, x, y) == Some(Shortlex(t, s))
      && GuardValue(c, m, LESS_VAR_VAR, x, y) == Some(Shortlex(s, t))
      && multiset{s == t, Shortlex(t, s), Shortlex(s, t)} == multiset{true, false, false}
  {
    hide Significant, Shortlex, Value;
    ValueOrder(m.vars[x], m.vars[y]);
    ValueOrder(m.vars[y], m.vars[x]);
  }

  /** The four test flags on the bytes; they form two complementary pairs. */
  lemma TestGuards(c: Config, m: Vm, x: u32)
    requires Shape(c, m) && x < c.variables
    ensures var v := m.vars[x];
      var zero := forall i :: 0 <= i < |v| ==> v[i] == 0;
      && GuardValue(c, m, TEST_VAR, x, VAR_IS_ZERO) == Some(zero)
      && GuardValue(c, m, TEST_VAR, x, VAR_IS_NONZERO) == Some(!zero)
      && GuardValue(c, m, TEST_VAR, x, VAR_EVEN_PARITY) == Some(OnesIn(v) % 2 == 0)
      && GuardValue(c, m, TEST_VAR, x, VAR_ODD_PARITY) == Some(OnesIn(v) % 2 == 1)
    ensures forall flag: u32 :: flag > 3 ==> GuardValue(c, m, TEST_VAR, x, flag) == Some(false)
  {
    hide Value, Ones, OnesIn;
    ValueZero(m.vars[x]);
    OnesOfValue(m.vars[x]);
  }

  /** Variables that EQUAL calls equal agree on every test, whatever their lengths. */
  lemma EqualAgreesOnTests(c: Config, m: Vm, x: u32, y: u32, flag: u32)
    requires Shape(c, m) && x < c.variables && y < c.variables
    requires GuardValue(c, m, EQUAL_VAR_VAR, x, y) == Some(true)
    ensures GuardValue(c, m, TEST_VAR, x, flag) == GuardValue(c, m, TEST_VAR, y, flag)
    ensures OnesIn(m.vars[x]) == OnesIn(m.vars[y])
  {
    hide Value, Ones, OnesIn;
    OnesOfValue(m.vars[x]);
    OnesOfValue(m.vars[y]);
  }

  /** Zero bytes in front of a variable make no difference to any guard. */
  lemma PaddingInvisible(c: Config, m: Vm, v: nat, padded: Data, zeros: nat, guard: u32, arg0: u32, arg1: u32)
    requires Shape(c, m) && GuardInBounds(c, guard, arg0, arg1) && v < c.variables
    requires zeros <= |padded| <= MAX_VAR_SIZE_BYTES && padded[zeros..] == m.vars[v]
    requires forall i :: 0 <= i < zeros ==> padded[i] == 0
    ensures var m1 := m.(vars := m.vars[v := padded]);
      Shape(c, m1) && GuardValue(c, m1, guard, arg0, arg1) == GuardValue(c, m, guard, arg0, arg1)
  {
    hide Value, Ones, QueueShape;
    ValueLeadingZeros(padded, zeros);
  }
}
