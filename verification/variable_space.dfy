/** The variable space (variable_space.c) as one thread sees it, and the parity helper of netcode_helper.c. */
module VariableSpaces {
  import opened Words
  import opened Bytes

  const MAX_VAR_SIZE_BYTES := 1500

  const VAR_IS_ZERO := 0
  const VAR_IS_NONZERO := 1
  const VAR_EVEN_PARITY := 2
  const VAR_ODD_PARITY := 3

  /** What a test flag says about the value of a variable; an unknown flag is never true. */
  ghost predicate TestHolds(v: Data, flag: int) {
    match flag
    case 0 => Value(v) == 0
    case 1 => Value(v) != 0
    case 2 => Ones(Value(v)) % 2 == 0
    case 3 => Ones(Value(v)) % 2 == 1
    case _ => false
  }

  /** Parity of one byte: the loop adds up the eight bits. */
  method GetParity(b: byte) returns (r: u8)
    ensures r == Ones(b) % 2
  {
    var acc: u8 := 0;
    var i := 0;
    while i < 8
      invariant 0 <= i <= 8 && acc == LowOnes(b, i) <= i
    {
      acc := acc + Bit(b, i);
      i := i + 1;
    }
    assert Pow2(8) == 256;
    LowOnesIsOnes(b, 8);
    r := acc % 2;
  }

  /**
   Compares byte by byte after skipping the surplus leading bytes of the longer string: the sign of
   the result is the sign of the difference of the two values.
   */
  method CompareBytes(a: Data, b: Data) returns (result: int)
    ensures Sign(result) == Sign(Value(a) - Value(b))
  {
    var len1, len2 := |a|, |b|;
    if len1 > len2 {
      var i := 0;
      while i < len1 - len2
        invariant 0 <= i <= len1 - len2
        invariant forall k :: 0 <= k < i ==> a[k] == 0
      {
        if a[i] != 0 {
          ValueLeadingNonzero(a, i, len2);
          ValueBound(b);
          return a[i];
        }
        i := i + 1;
      }
      ValueLeadingZeros(a, len1 - len2);
      MemcmpComparesValues(a[len1 - len2..], b);
      result := Memcmp(a[len1 - len2..], b);
    } else if len1 < len2 {
      var i := 0;
      while i < len2 - len1
        invariant 0 <= i <= len2 - len1
        invariant forall k :: 0 <= k < i ==> b[k] == 0
      {
        if b[i] != 0 {
          ValueLeadingNonzero(b, i, len1);
          ValueBound(a);
          return -(b[i] as int);
        }
        i := i + 1;
      }
      ValueLeadingZeros(b, len2 - len1);
      MemcmpComparesValues(a, b[len2 - len1..]);
      result := Memcmp(a, b[len2 - len1..]);
    } else {
      MemcmpComparesValues(a, b);
      result := Memcmp(a, b);
    }
  }

  /** The loop shared by the zero and non-zero tests. */
  method HasNonzeroByte(v: Data) returns (r: bool)
    ensures r <==> Value(v) != 0
  {
    ValueZero(v);
    var i := 0;
    while i < |v|
      invariant 0 <= i <= |v|
      invariant forall k :: 0 <= k < i ==> v[k] == 0
    {
      if v[i] != 0 {
        return true;
      }
      i := i + 1;
    }
    r := false;
  }

  lemma ParityStep(v: Data, i: nat, parity: nat)
    requires i < |v| && parity % 2 == OnesIn(v[..i]) % 2
    ensures (parity + Ones(v[i]) % 2) % 2 == OnesIn(v[..i + 1]) % 2
  {
    assert v[..i + 1][..i] == v[..i];
    SumModTwo(parity, OnesIn(v[..i]), Ones(v[i]));
  }

  lemma SumModTwo(a: nat, b: nat, c: nat)
    requires a % 2 == b % 2
    ensures (a + c % 2) % 2 == (b + c) % 2
  {
  }

  /** The loop shared by the two parity tests: adds up the parities of all bytes. */
  method SumOfParities(v: Data) returns (parity: nat)
    ensures parity <= |v|
    ensures parity % 2 == Ones(Value(v)) % 2
  {
    parity := 0;
    var i := 0;
    while i < |v|
      invariant 0 <= i <= |v|
      invariant parity <= i
      invariant parity % 2 == OnesIn(v[..i]) % 2
    {
      var p := GetParity(v[i]);
      ParityStep(v, i, parity);
      parity := parity + p;
      i := i + 1;
    }
    assert v[..|v|] == v;
    OnesOfValue(v);
  }

  /** One of the two buffers of a variable; bytes behind `length` are left-overs of earlier contents. */
  class VarData {
    const data: array<byte>
    var length: nat

    constructor ()
      ensures data.Length == MAX_VAR_SIZE_BYTES && length == 0 && fresh(data)
    {
      data := new byte[MAX_VAR_SIZE_BYTES];
      length := 0;
    }

    ghost predicate Valid()
      reads this
    {
      length <= data.Length == MAX_VAR_SIZE_BYTES
    }

    ghost function Bytes(): Data
      requires Valid()
      reads this, data
    {
      data[..length]
    }
  }

  class Variable {
    const varbuf0: VarData
    const varbuf1: VarData
    var readBuf: VarData
    var writeBuf: VarData

    ghost function Repr(): set<object> {
      {this, varbuf0, varbuf1, varbuf0.data, varbuf1.data}
    }

    /** The two pointers always name the two buffers, in one order or the other. */
    ghost predicate Valid()
      reads Repr()
    {
      && varbuf0 != varbuf1 && varbuf0.data != varbuf1.data
      && varbuf0.Valid() && varbuf1.Valid()
      && ((readBuf == varbuf0 && writeBuf == varbuf1) || (readBuf == varbuf1 && writeBuf == varbuf0))
    }

    /** What a reader sees. */
    ghost function Current(): Data
      requires Valid()
      reads Repr()
    {
      readBuf.Bytes()
    }

    constructor ()
      ensures Valid() && Current() == [] && fresh(Repr())
      ensures readBuf == varbuf0 && writeBuf == varbuf1
    {
      var b0 := new VarData();
      var b1 := new VarData();
      varbuf0, varbuf1 := b0, b1;
      readBuf, writeBuf := b0, b1;
    }

    /** Fills the back buffer, then exchanges the two pointers. */
    method Set(bytes: Data)
      requires Valid() && |bytes| <= MAX_VAR_SIZE_BYTES
      modifies this, writeBuf, writeBuf.data
      ensures Valid() && Current() == bytes
      ensures readBuf == old(writeBuf) && writeBuf == old(readBuf)
      ensures writeBuf.Bytes() == old(Current())
    {
      forall i | 0 <= i < |bytes| {
        writeBuf.data[i] := bytes[i];
      }
      writeBuf.length := |bytes|;
      var tmp := readBuf;
      readBuf := writeBuf;
      writeBuf := tmp;
    }
  }

  class VariableSpace {
    const at: seq<Variable>
    ghost const Repr: set<object>

    ghost predicate Valid()
      reads Repr
    {
      && this in Repr
      && (forall i :: 0 <= i < |at| ==> at[i].Repr() <= Repr && this !in at[i].Repr() && at[i].Valid())
      && (forall i, j :: 0 <= i < j < |at| ==> at[i].Repr() !! at[j].Repr())
    }

    ghost function Contents(): (c: seq<Data>)
      requires Valid()
      reads Repr
      ensures |c| == |at|
    {
      seq(|at|, i requires 0 <= i < |at| && Valid() reads Repr => at[i].Current())
    }

    constructor (count: nat)
      ensures Valid() && Contents() == seq(count, _ => []) && fresh(Repr)
    {
      var vars: seq<Variable> := [];
      ghost var repr: set<object> := {};
      while |vars| < count
        invariant |vars| <= count && fresh(repr)
        invariant forall i :: 0 <= i < |vars| ==> vars[i].Repr() <= repr && vars[i].Valid() && vars[i].Current() == []
        invariant forall i :: 0 <= i < |vars| ==> fresh(vars[i]) && vars[i].Repr() <= repr
        invariant forall i, j :: 0 <= i < j < |vars| ==> vars[i].Repr() !! vars[j].Repr()
      {
        var v := new Variable();
        vars := vars + [v];
        repr := repr + v.Repr();
      }
      at := vars;
      Repr := repr + {this};
    }

    method Get(varId: nat) returns (bytes: Data)
      requires Valid() && varId < |at|
      ensures bytes == Contents()[varId]
    {
      var v := at[varId];
      bytes := v.readBuf.data[..v.readBuf.length];
    }

    method Set(varId: nat, bytes: Data)
      requires Valid() && varId < |at| && |bytes| <= MAX_VAR_SIZE_BYTES
      modifies at[varId].Repr()
      ensures Valid() && Contents() == old(Contents())[varId := bytes]
    {
      at[varId].Set(bytes);
    }

    /** `cmp_variables` on the current contents of two variables. */
    method Compare(id1: nat, id2: nat) returns (result: int)
      requires Valid() && id1 < |at| && id2 < |at|
      ensures Sign(result) == Sign(Value(Contents()[id1]) - Value(Contents()[id2]))
    {
      var a := Get(id1);
      var b := Get(id2);
      result := CompareBytes(a, b);
    }

    method TestIsZero(varId: nat) returns (r: bool)
      requires Valid() && varId < |at|
      ensures r <==> Value(Contents()[varId]) == 0
    {
      var v := Get(varId);
      var nonzero := HasNonzeroByte(v);
      r := !nonzero;
    }

    method TestIsNonzero(varId: nat) returns (r: bool)
      requires Valid() && varId < |at|
      ensures r <==> Value(Contents()[varId]) != 0
    {
      var v := Get(varId);
      r := HasNonzeroByte(v);
    }

    method TestEvenParity(varId: nat) returns (r: bool)
      requires Valid() && varId < |at|
      ensures r <==> Ones(Value(Contents()[varId])) % 2 == 0
    {
      var v := Get(varId);
      var parity := SumOfParities(v);
      r := parity % 2 == 0;
    }

    method TestOddParity(varId: nat) returns (r: bool)
      requires Valid() && varId < |at|
      ensures r <==> Ones(Value(Contents()[varId])) % 2 == 1
    {
      var v := Get(varId);
      var parity := SumOfParities(v);
      r := parity % 2 == 1;
    }

    method Test(varId: nat, flag: u32) returns (r: bool)
      requires Valid() && varId < |at|
      ensures r <==> TestHolds(Contents()[varId], flag)
    {
      match flag {
        case 0 => r := TestIsZero(varId);
        case 1 => r := TestIsNonzero(varId);
        case 2 => r := TestEvenParity(varId);
        case 3 => r := TestOddParity(varId);
        case _ => r := false;
      }
    }
  }
}
