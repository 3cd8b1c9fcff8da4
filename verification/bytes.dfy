/** Byte strings read as big-endian natural numbers, and their bits. */
module Bytes {
  import opened Words

  type byte = u8
  type Data = seq<byte>

  function Pow256(n: nat): (p: nat)
    ensures p >= 1
  {
    if n == 0 then 1 else 256 * Pow256(n - 1)
  }

  /** The natural number whose base-256 digits, most significant first, are `s`. */
  function Value(s: Data): nat {
    if s == [] then 0 else s[0] * Pow256(|s| - 1) + Value(s[1..])
  }

  lemma {:induction false} ValueBound(s: Data)
    ensures Value(s) < Pow256(|s|)
  {
    if s != [] {
      ValueBound(s[1..]);
      LeadingDigit(s[0], 255, Pow256(|s| - 1));
    }
  }

  lemma LeadingDigit(a: nat, b: nat, p: nat)
    requires a <= b
    ensures a * p <= b * p
  {
  }

  /** Appending a byte shifts the value by one digit. */
  lemma {:induction false} ValueAppend(s: Data, b: byte)
    ensures Value(s + [b]) == Value(s) * 256 + b
  {
    if s == [] {
      assert Value([b]) == b * Pow256(0) + Value([b][1..]);
    } else {
      ValueAppend(s[1..], b);
      assert (s + [b])[1..] == s[1..] + [b];
      ShiftDigit(s[0], Pow256(|s| - 1));
    }
  }

  lemma ShiftDigit(a: nat, p: nat)
    ensures a * (256 * p) == a * p * 256
  {
  }

  /** Leading zero bytes do not count. */
  lemma {:induction false} ValueLeadingZeros(s: Data, k: nat)
    requires k <= |s| && forall i :: 0 <= i < k ==> s[i] == 0
    ensures Value(s) == Value(s[k..])
  {
    if k > 0 {
      ValueLeadingZeros(s[1..], k - 1);
      assert s[1..][k - 1..] == s[k..];
    } else {
      assert s[0..] == s;
    }
  }

  /** A non-zero byte in front of `k` further bytes outweighs every string of `k` bytes. */
  lemma {:induction false} ValueLeadingNonzero(s: Data, i: nat, k: nat)
    requires i < |s| && s[i] != 0 && k < |s| - i
    ensures Value(s) >= Pow256(k)
  {
    if i == 0 {
      LeadingDigit(1, s[0], Pow256(|s| - 1));
      Pow256Monotone(k, |s| - 1);
    } else {
      assert s[1..][i - 1] == s[i];
      ValueLeadingNonzero(s[1..], i - 1, k);
      LeadingDigit(0, s[0], Pow256(|s| - 1));
    }
  }

  lemma {:induction false} Pow256Monotone(m: nat, n: nat)
    requires m <= n
    ensures Pow256(m) <= Pow256(n)
    decreases n
  {
    if m < n {
      Pow256Monotone(m, n - 1);
    }
  }

  lemma {:induction false} ValueZero(s: Data)
    ensures Value(s) == 0 <==> forall i :: 0 <= i < |s| ==> s[i] == 0
  {
    if forall i :: 0 <= i < |s| ==> s[i] == 0 {
      ValueLeadingZeros(s, |s|);
    } else {
      var i :| 0 <= i < |s| && s[i] != 0;
      ValueLeadingNonzero(s, i, 0);
    }
  }

  // ----- memcmp -----

  /** Difference of the first pair of bytes that differ, 0 when there is none. */
  function Memcmp(a: Data, b: Data): int
    requires |a| == |b|
  {
    if a == [] then 0
    else if a[0] != b[0] then a[0] - b[0]
    else Memcmp(a[1..], b[1..])
  }

  function Sign(x: int): int {
    if x < 0 then -1 else if x == 0 then 0 else 1
  }

  /** On strings of one length, `memcmp` compares the values. */
  lemma {:induction false} MemcmpComparesValues(a: Data, b: Data)
    requires |a| == |b|
    ensures Sign(Memcmp(a, b)) == Sign(Value(a) - Value(b))
  {
    if a != [] {
      var p := Pow256(|a| - 1);
      ValueBound(a[1..]);
      ValueBound(b[1..]);
      if a[0] > b[0] {
        DigitGap(a[0], b[0], p);
      } else if a[0] < b[0] {
        DigitGap(b[0], a[0], p);
      } else {
        MemcmpComparesValues(a[1..], b[1..]);
      }
    }
  }

  lemma DigitGap(a: nat, b: nat, p: nat)
    requires b < a
    ensures a * p >= b * p + p
  {
    LeadingDigit(b + 1, a, p);
  }

  // ----- bits -----

  /** Number of one bits in the binary representation. */
  function Ones(x: nat): nat {
    if x == 0 then 0 else x % 2 + Ones(x / 2)
  }

  /** Number of one bits in all bytes together. */
  function OnesIn(s: Data): nat {
    if s == [] then 0 else OnesIn(s[..|s| - 1]) + Ones(s[|s| - 1])
  }

  function Pow2(n: nat): (p: nat)
    ensures p >= 1
  {
    if n == 0 then 1 else 2 * Pow2(n - 1)
  }

  /** Bit `i` of `x`: `(x >> i) & 1`. */
  function Bit(x: nat, i: nat): nat {
    x / Pow2(i) % 2
  }

  /** The low `n` bits of `x`, counted. */
  function LowOnes(x: nat, n: nat): nat {
    if n == 0 then 0 else LowOnes(x, n - 1) + Bit(x, n - 1)
  }

  lemma {:induction false} LowOnesHalf(x: nat, n: nat)
    ensures LowOnes(x, n + 1) == x % 2 + LowOnes(x / 2, n)
  {
    if n > 0 {
      LowOnesHalf(x, n - 1);
      HalfShift(x, Pow2(n - 1));
    } else {
      assert Pow2(0) == 1;
      assert LowOnes(x, 1) == LowOnes(x, 0) + Bit(x, 0);
    }
  }

  lemma HalfShift(x: nat, p: nat)
    requires p >= 1
    ensures x / (2 * p) == x / 2 / p
  {
    var q, r := x / 2 / p, x / 2 % p;
    QuotientRest(x / 2, p);
    TwiceProduct(q, p);
    DivUnique(x, 2 * p, q, 2 * r + x % 2);
  }

  lemma QuotientRest(x: nat, p: nat)
    requires p >= 1
    ensures x == x / p * p + x % p && x % p < p
  {
  }

  lemma TwiceProduct(x: nat, p: nat)
    ensures x * (2 * p) == 2 * (x * p)
  {
  }

  lemma DivUnique(x: nat, p: nat, q: nat, r: nat)
    requires p >= 1 && x == q * p + r && r < p
    ensures x / p == q && x % p == r
  {
    var q' := x / p;
    QuotientRest(x, p);
    if q' < q {
      LeadingDigit(q' + 1, q, p);
    } else if q < q' {
      LeadingDigit(q + 1, q', p);
    }
  }

  /** Counting the low `n` bits counts all ones of an `n`-bit number. */
  lemma {:induction false} LowOnesIsOnes(x: nat, n: nat)
    requires x < Pow2(n)
    ensures LowOnes(x, n) == Ones(x)
  {
    if n > 0 {
      LowOnesIsOnes(x / 2, n - 1);
      LowOnesHalf(x, n - 1);
      if x == 0 {
        assert LowOnes(0, n - 1) == 0;
      }
    }
  }

  lemma OnesStep(y: nat)
    ensures Ones(y) == y % 2 + Ones(y / 2)
  {
  }

  lemma HalfOfSum(m: nat, b: nat)
    ensures (2 * m + b) % 2 == b % 2 && (2 * m + b) / 2 == m + b / 2
  {
  }

  lemma OnesHalf(m: nat, b: nat)
    ensures Ones(2 * m + b) == b % 2 + Ones(m + b / 2)
  {
    hide Ones;
    OnesStep(2 * m + b);
    HalfOfSum(m, b);
  }

  lemma OnesOfNothing(x: nat)
    ensures x * Pow2(0) + 0 == x && Ones(0) == 0
  {
  }

  /** The ones of `256 * x + b` are those of `x` and those of `b`. */
  lemma {:induction false} OnesShift(x: nat, b: nat, n: nat)
    requires b < Pow2(n)
    ensures Ones(x * Pow2(n) + b) == Ones(x) + Ones(b)
  {
    hide Ones;
    if n == 0 {
      OnesOfNothing(x);
    } else {
      var p := Pow2(n - 1);
      TwiceProduct(x, p);
      OnesHalf(x * p, b);
      OnesStep(b);
      OnesShift(x, b / 2, n - 1);
    }
  }

  lemma NothingValue()
    ensures Value([]) == 0 && Ones(0) == 0
  {
  }

  /** The one bits of a byte string are the one bits of its value. */
  lemma {:induction false} OnesOfValue(s: Data)
    ensures OnesIn(s) == Ones(Value(s))
  {
    hide Ones, Value;
    if s == [] {
      NothingValue();
    } else {
      var t, b := s[..|s| - 1], s[|s| - 1];
      OnesOfValue(t);
      ValueAppend(t, b);
      assert s == t + [b];
      assert Pow2(8) == 256;
      OnesShift(Value(t), b, 8);
    }
  }
}
