/**
 The byte streams of the translator: big-endian hardware words in (translator_main.cpp), 20-byte records
 out, and the reader of those records in the visualiser (parse.py).
 */
module Records {
  import opened Words
  import opened Bytes
  import opened Machine
  import opened Runs
  import opened Hardware
  import opened Translator

  /** The three bytes of a record that the C struct leaves unused. */
  type Padding = p: Data | |p| == 3 witness [0, 0, 0]

  const RECORD_SIZE := 20

  // ----- words -----

  /** The number with these four base-256 digits. */
  function Number(d3: int, d2: int, d1: int, d0: int): int {
    d3 * 0x100_0000 + d2 * 0x1_0000 + d1 * 0x100 + d0
  }

  function FromLittleEndian(b: Data): u32
    requires |b| == 4
  {
    Number(b[3], b[2], b[1], b[0])
  }

  function ToLittleEndian(x: u32): (b: Data)
    ensures |b| == 4
  {
    [Byte(x, 1), Byte(x, 0x100), Byte(x, 0x1_0000), Byte(x, 0x100_0000)]
  }

  lemma DigitsOf(d3: u8, d2: u8, d1: u8, d0: u8)
    ensures ToLittleEndian(Number(d3, d2, d1, d0)) == [d0, d1, d2, d3]
  {
    hide Field;
    var x := Number(d3, d2, d1, d0);
    FieldIs(x, 1, 0x100, Number(0, d3, d2, d1), d0, 0);
    FieldIs(x, 0x100, 0x100, Number(0, 0, d3, d2), d1, d0);
    FieldIs(x, 0x1_0000, 0x100, d3, d2, Number(0, 0, d1, d0));
    FieldIs(x, 0x100_0000, 0x100, 0, d3, Number(0, d2, d1, d0));
  }

  lemma LittleEndianRoundTrip(x: u32)
    ensures FromLittleEndian(ToLittleEndian(x)) == x
  {
    hide ToLittleEndian;
    var q1 := x / 0x100;
    var q2 := q1 / 0x100;
    DigitsOf(q2 / 0x100, q2 % 0x100, q1 % 0x100, x % 0x100);
  }

  lemma LittleEndianBytes(b: Data)
    requires |b| == 4
    ensures ToLittleEndian(FromLittleEndian(b)) == b
  {
    DigitsOf(b[3], b[2], b[1], b[0]);
  }

  /** `swap_endian`: four shifts and masks that select disjoint bytes. */
  function SwapEndian(v: u32): u32 {
    Number(Byte(v, 1), Byte(v, 0x100), Byte(v, 0x1_0000), Byte(v, 0x100_0000))
  }

  /** Reading four bytes on a little-endian machine and swapping gives the big-endian number. */
  lemma SwappedIsBigEndian(b: Data)
    requires |b| == 4
    ensures SwapEndian(FromLittleEndian(b)) == Value(b)
  {
    hide Number, Byte;
    LittleEndianBytes(b);
    BigEndianOfFour(b);
    var x := FromLittleEndian(b);
    assert ToLittleEndian(x) == [Byte(x, 1), Byte(x, 0x100), Byte(x, 0x1_0000), Byte(x, 0x100_0000)];
  }

  lemma BigEndianOfFour(b: Data)
    requires |b| == 4
    ensures Value(b) == Number(b[0], b[1], b[2], b[3])
  {
    assert Value(b) == b[0] * Pow256(3) + Value(b[1..]);
    assert Value(b[1..]) == b[1] * Pow256(2) + Value(b[1..][1..]);
    assert Value(b[1..][1..]) == b[2] * Pow256(1) + Value(b[1..][1..][1..]);
    assert Value(b[1..][1..][1..]) == b[3] * Pow256(0) + Value(b[1..][1..][1..][1..]);
    assert Pow256(1) == 0x100 && Pow256(2) == 0x1_0000 && Pow256(3) == 0x100_0000;
  }

  // ----- records -----

  /** The bytes of a `ncm_instr_t` as `fwrite` puts them out. */
  function Record(i: Instr, pad: Padding): (b: Data)
    ensures |b| == RECORD_SIZE && b[0] == i.typ
  {
    [i.typ] + pad + ToLittleEndian(i.args[0]) + ToLittleEndian(i.args[1]) + ToLittleEndian(i.args[2])
    + ToLittleEndian(i.args[3])
  }

  /** `struct.unpack_from("cIIII", …)`: native alignment skips the three unused bytes. */
  function Unpack(b: Data): Instr
    requires |b| == RECORD_SIZE
  {
    Instr(b[0], [FromLittleEndian(b[4..8]), FromLittleEndian(b[8..12]), FromLittleEndian(b[12..16]),
                 FromLittleEndian(b[16..20])])
  }

  lemma Middle(a: Data, m: Data, b: Data)
    ensures (a + m + b)[|a|..|a| + |m|] == m
  {
  }

  /** The bytes of argument `k` of a record. */
  lemma ArgumentAt(i: Instr, pad: Padding, k: nat)
    requires k < 4
    ensures Record(i, pad)[4 + 4 * k..8 + 4 * k] == ToLittleEndian(i.args[k])
  {
    hide ToLittleEndian;
    var a0, a1, a2, a3 :=
      ToLittleEndian(i.args[0]), ToLittleEndian(i.args[1]), ToLittleEndian(i.args[2]), ToLittleEndian(i.args[3]);
    var head := [i.typ] + pad;
    assert |head| == 4;
    match k {
      case 0 =>
        Middle(head, a0, a1 + a2 + a3);
        assert Record(i, pad) == head + a0 + (a1 + a2 + a3);
      case 1 =>
        Middle(head + a0, a1, a2 + a3);
        assert Record(i, pad) == head + a0 + a1 + (a2 + a3);
      case 2 =>
        Middle(head + a0 + a1, a2, a3);
      case _ =>
        Middle(head + a0 + a1 + a2, a3, []);
        assert Record(i, pad) == head + a0 + a1 + a2 + a3 + [];
    }
  }

  lemma RecordRoundTrip(i: Instr, pad: Padding)
    ensures Unpack(Record(i, pad)) == i
  {
    hide Record, FromLittleEndian, ToLittleEndian;
    forall k | 0 <= k < 4
      ensures FromLittleEndian(Record(i, pad)[4 + 4 * k..8 + 4 * k]) == i.args[k]
    {
      ArgumentAt(i, pad, k);
      LittleEndianRoundTrip(i.args[k]);
    }
    assert Unpack(Record(i, pad)).args == i.args;
  }

  /** The stream of records for a list of instructions. */
  function Records(instrs: seq<Instr>, pads: seq<Padding>): Data
    requires |pads| >= |instrs|
  {
    if instrs == [] then [] else Record(instrs[0], pads[0]) + Records(instrs[1..], pads[1..])
  }

  /** What parse.py makes of a stream; `None` for its exceptions (an incomplete record, a type without a name). */
  function Parse(b: Data): Option<seq<Instr>> {
    if b == [] then Some([])
    else if |b| < RECORD_SIZE || b[0] > SUB_FROM_COUNTER then None
    else
      Behind([Unpack(b[..RECORD_SIZE])], Parse(b[RECORD_SIZE..]))
  }

  function Behind(done: seq<Instr>, rest: Option<seq<Instr>>): Option<seq<Instr>> {
    if rest.Some? then Some(done + rest.value) else None
  }

  lemma BehindTwice(a: seq<Instr>, b: seq<Instr>, rest: Option<seq<Instr>>)
    ensures Behind(a, Behind(b, rest)) == Behind(a + b, rest) && Behind([], rest) == rest
  {
    if rest.Some? {
      assert a + (b + rest.value) == (a + b) + rest.value;
      assert [] + rest.value == rest.value;
    }
  }

  /** The reading loop of parse.py. */
  method ReadRecords(b: Data) returns (r: Option<seq<Instr>>)
    ensures r == Parse(b)
  {
    hide Unpack, Behind;
    var done: seq<Instr> := [];
    var pos := 0;
    assert b[0..] == b;
    BehindTwice([], [], Parse(b));
    while pos < |b|
      invariant 0 <= pos <= |b|
      invariant Parse(b) == Behind(done, Parse(b[pos..]))
    {
      if |b| - pos < RECORD_SIZE || b[pos] > SUB_FROM_COUNTER {
        BehindNothing(done);
        return None;
      }
      assert b[pos..][RECORD_SIZE..] == b[pos + RECORD_SIZE..];
      assert b[pos..][..RECORD_SIZE] == b[pos..pos + RECORD_SIZE];
      var next := [Unpack(b[pos..pos + RECORD_SIZE])];
      BehindTwice(done, next, Parse(b[pos + RECORD_SIZE..]));
      done := done + next;
      pos := pos + RECORD_SIZE;
    }
    BehindNothing(done);
    r := Some(done);
  }

  lemma BehindNothing(done: seq<Instr>)
    ensures Behind(done, None) == None && Behind(done, Some([])) == Some(done)
  {
    assert done + [] == done;
  }

  /** Records of instructions with known types are read back as those instructions. */
  lemma {:induction false} ParseRecords(instrs: seq<Instr>, pads: seq<Padding>)
    requires |pads| >= |instrs| && forall k :: 0 <= k < |instrs| ==> instrs[k].typ <= SUB_FROM_COUNTER
    ensures Parse(Records(instrs, pads)) == Some(instrs)
  {
    hide Record, Unpack;
    if instrs != [] {
      var b := Records(instrs, pads);
      RecordRoundTrip(instrs[0], pads[0]);
      assert b[..RECORD_SIZE] == Record(instrs[0], pads[0]);
      assert b[RECORD_SIZE..] == Records(instrs[1..], pads[1..]);
      ParseRecords(instrs[1..], pads[1..]);
      assert [instrs[0]] + instrs[1..] == instrs;
    }
  }

  /** Record `k` of a stream, byte by byte: the type, and four little-endian words behind three unused bytes. */
  ghost predicate HoldsRecord(b: Data, k: nat, i: Instr) {
    20 * k + 20 <= |b| && i.typ == b[20 * k] &&
    forall j :: 0 <= j < 4 ==>
      var at := 20 * k + 4 + 4 * j;
      i.args[j] == Number(b[at + 3], b[at + 2], b[at + 1], b[at])
  }

  lemma UnpackHolds(b: Data)
    requires |b| >= RECORD_SIZE
    ensures HoldsRecord(b, 0, Unpack(b[..RECORD_SIZE]))
  {
    var r := b[..RECORD_SIZE];
    forall j | 0 <= j < 4
      ensures Unpack(r).args[j] == Number(b[7 + 4 * j], b[6 + 4 * j], b[5 + 4 * j], b[4 + 4 * j])
    {
      assert Unpack(r).args[j] == FromLittleEndian(r[4 + 4 * j..8 + 4 * j]);
    }
  }

  lemma RecordsBehind(b: Data, k: nat, i: Instr)
    requires |b| >= RECORD_SIZE
    ensures HoldsRecord(b, k + 1, i) <==> HoldsRecord(b[RECORD_SIZE..], k, i)
  {
    if 20 * (k + 1) + 20 <= |b| {
      assert forall x :: 0 <= x < |b| - 20 ==> b[20..][x] == b[20 + x];
    }
  }

  /** The types of the first records that make up the stream have a name. */
  ghost predicate Named(b: Data) {
    |b| % 20 == 0 && forall k :: 0 <= k < |b| / 20 ==> b[20 * k] <= 20
  }

  lemma NamedBehind(b: Data)
    requires |b| >= 20
    ensures Named(b) <==> b[0] <= 20 && Named(b[20..])
  {
    var rest := b[20..];
    assert |b| == |rest| + 20 && |b| / 20 == |rest| / 20 + 1 && |b| % 20 == |rest| % 20;
    forall k | 0 <= k < |rest| / 20
      ensures rest[20 * k] == b[20 * (k + 1)]
    {
    }
    if b[0] <= 20 && Named(rest) {
      forall k | 0 <= k < |b| / 20
        ensures b[20 * k] <= 20
      {
        assert k > 0 ==> rest[20 * (k - 1)] == b[20 * k];
      }
    }
    if Named(b) {
      assert b[20 * 0] <= 20;
      forall k | 0 <= k < |rest| / 20
        ensures rest[20 * k] <= 20
      {
        assert b[20 * (k + 1)] <= 20;
      }
    }
  }

  /**
   Reading fails if and only if the stream is no whole number of records or a type has no name; otherwise the list
   holds the fields of every record, in order.
   */
  lemma {:induction false} ReadsExactly(b: Data)
    ensures Parse(b).Some? <==> Named(b)
    ensures Parse(b).Some? ==>
      var r := Parse(b).value; 20 * |r| == |b| && forall k :: 0 <= k < |r| ==> HoldsRecord(b, k, r[k])
    decreases |b|
  {
    hide Unpack, HoldsRecord, Named;
    if b == [] {
      NothingNamed();
    } else if |b| < RECORD_SIZE {
      ShortNotNamed(b);
    } else {
      NamedBehind(b);
      var rest := b[RECORD_SIZE..];
      ReadsExactly(rest);
      UnpackHolds(b);
      if Parse(b).Some? {
        var r := Parse(b).value;
        forall k | 0 <= k < |r|
          ensures HoldsRecord(b, k, r[k])
        {
          if k > 0 {
            assert r[k] == Parse(rest).value[k - 1];
            RecordsBehind(b, k - 1, r[k]);
          }
        }
      }
    }
  }

  lemma NothingNamed()
    ensures Named([])
  {
  }

  lemma ShortNotNamed(b: Data)
    requires 0 < |b| < RECORD_SIZE
    ensures !Named(b)
  {
  }

  // ----- the translator's main loop -----

  /** `get_instruction` as a function of the word and of the unset type byte. */
  function Translated(w: u32, junk: u8): Instr {
    match Decode(w)
    case Some(h) => Compile(h)
    case None => if UnassignedGuard(w) then Compile(If(True, Byte(w, 0x10_0000))) else Instr(junk, [0, 0, 0, 0])
  }

  /** The records for the complete words of the input; bytes left over at the end are dropped. */
  function Stream(input: Data, junk: seq<u8>, pads: seq<Padding>): Data
    requires |junk| >= |input| / 4 && |pads| >= |input| / 4
  {
    if |input| < 4 then []
    else
      Record(Translated(SwapEndian(FromLittleEndian(input[..4])), junk[0]), pads[0])
      + Stream(input[4..], junk[1..], pads[1..])
  }

  method TranslateWord(w: u32, junk: u8) returns (r: Instr)
    ensures r == Translated(w, junk)
  {
    hide Decode, Compile, UnassignedGuard;
    r := GetInstruction(w, junk);
  }

  /** What is left of the output when `n` words have been translated. */
  function StreamFrom(input: Data, junk: seq<u8>, pads: seq<Padding>, n: nat): Data
    requires |junk| >= |input| / 4 && |pads| >= |input| / 4 && 4 * n <= |input|
  {
    Stream(input[4 * n..], junk[n..], pads[n..])
  }

  lemma StreamStep(input: Data, junk: seq<u8>, pads: seq<Padding>, n: nat)
    requires |junk| >= |input| / 4 && |pads| >= |input| / 4 && 4 * n + 4 <= |input|
    ensures StreamFrom(input, junk, pads, n) ==
            Record(Translated(SwapEndian(FromLittleEndian(input[4 * n..4 * n + 4])), junk[n]), pads[n])
            + StreamFrom(input, junk, pads, n + 1)
  {
    hide FromLittleEndian, SwapEndian, Record, Translated;
    assert input[4 * n..][..4] == input[4 * n..4 * n + 4];
    assert input[4 * n..][4..] == input[4 * (n + 1)..];
    assert junk[n..][1..] == junk[n + 1..] && pads[n..][1..] == pads[n + 1..];
  }

  lemma StreamEnds(input: Data, junk: seq<u8>, pads: seq<Padding>, n: nat)
    requires |junk| >= |input| / 4 && |pads| >= |input| / 4 && 4 * n <= |input|
    ensures StreamFrom(input, junk, pads, 0) == Stream(input, junk, pads)
    ensures |input| - 4 * n < 4 ==> StreamFrom(input, junk, pads, n) == []
  {
    assert input[0..] == input && junk[0..] == junk && pads[0..] == pads;
  }

  lemma Regroup(a: Data, b: Data, c: Data)
    ensures a + (b + c) == a + b + c && [] + a == a && a + [] == a
  {
  }

  method TranslateStream(input: Data, junk: seq<u8>, pads: seq<Padding>) returns (output: Data)
    requires |junk| >= |input| / 4 && |pads| >= |input| / 4
    ensures output == Stream(input, junk, pads)
  {
    hide FromLittleEndian, SwapEndian, Record, Translated, Stream, StreamFrom;
    output := [];
    var n := 0;
    StreamEnds(input, junk, pads, 0);
    Regroup(Stream(input, junk, pads), [], []);
    while true
      invariant 4 * n <= |input|
      invariant Stream(input, junk, pads) == output + StreamFrom(input, junk, pads, n)
      decreases |input| - 4 * n
    {
      if |input| - 4 * n < 4 {
        StreamEnds(input, junk, pads, n);
        Regroup(output, [], []);
        break;
      }
      var bytecode := SwapEndian(FromLittleEndian(input[4 * n..4 * n + 4]));
      var instr := TranslateWord(bytecode, junk[n]);
      StreamStep(input, junk, pads, n);
      Regroup(output, Record(instr, pads[n]), StreamFrom(input, junk, pads, n + 1));
      output := output + Record(instr, pads[n]);
      n := n + 1;
    }
  }

  // ----- the whole way -----

  /** The complete words of the input, big-endian. */
  function WordsOf(input: Data): (ws: seq<u32>)
    ensures |ws| == |input| / 4
  {
    if |input| < 4 then []
    else
      SwappedIsBigEndian(input[..4]);
      [Value(input[..4])] + WordsOf(input[4..])
  }

  /** A word with one of the nine opcodes. */
  predicate Known(w: u32) {
    Field(w, 0x1000_0000, 0x10) in {0, 1, 2, 3, 4, 5, 7, 8, 15}
  }

  /** The instruction a word stands for; a guard type that is not assigned is taken to be always true. */
  function MeaningOf(w: u32): HwInstr {
    match Decode(w)
    case Some(h) => h
    case None => If(True, Byte(w, 0x10_0000))
  }

  function ProgramOf(ws: seq<u32>): (p: seq<HwInstr>)
    ensures |p| == |ws| && forall k :: 0 <= k < |ws| ==> p[k] == MeaningOf(ws[k])
  {
    seq(|ws|, k requires 0 <= k < |ws| => MeaningOf(ws[k]))
  }

  lemma TranslatedIsCompiled(w: u32, junk: u8)
    requires Known(w)
    ensures Translated(w, junk) == Compile(MeaningOf(w))
  {
    hide Field, Compile, DecodeGuard, DecodeCount;
  }

  lemma {:induction false} StreamOfWords(input: Data, junk: seq<u8>, pads: seq<Padding>)
    requires |junk| >= |input| / 4 && |pads| >= |input| / 4
    requires forall k :: 0 <= k < |input| / 4 ==> Known(WordsOf(input)[k])
    ensures Stream(input, junk, pads) == Records(Compiled(ProgramOf(WordsOf(input))), pads)
    decreases |input|
  {
    hide Known, MeaningOf, Compile, Record, SwapEndian, FromLittleEndian, Translated, Value;
    if |input| >= 4 {
      var ws, rest := WordsOf(input), WordsOf(input[4..]);
      SwappedIsBigEndian(input[..4]);
      assert ws == [ws[0]] + rest;
      assert forall k :: 0 <= k < |rest| ==> rest[k] == ws[k + 1];
      TranslatedIsCompiled(ws[0], junk[0]);
      StreamOfWords(input[4..], junk[1..], pads[1..]);
      assert Compiled(ProgramOf(ws))[1..] == Compiled(ProgramOf(rest));
    }
  }

  lemma CompiledType(h: HwInstr)
    ensures Compile(h).typ <= SUB_FROM_COUNTER
  {
  }

  /**
   For every input whose complete words have known opcodes, whatever their unused bits and whatever the unset
   bytes of the records: reading the translator's output back gives the compiled program, word `i` at place `i`.
   */
  lemma TranslatorPipeline(input: Data, junk: seq<u8>, pads: seq<Padding>)
    requires |junk| >= |input| / 4 && |pads| >= |input| / 4
    requires forall k :: 0 <= k < |input| / 4 ==> Known(WordsOf(input)[k])
    ensures Parse(Stream(input, junk, pads)) == Some(Compiled(ProgramOf(WordsOf(input))))
  {
    hide Parse, Stream, Records, Compile, Known, WordsOf;
    var p := ProgramOf(WordsOf(input));
    StreamOfWords(input, junk, pads);
    forall k | 0 <= k < |p|
      ensures Compiled(p)[k].typ <= SUB_FROM_COUNTER
    {
      CompiledType(p[k]);
    }
    ParseRecords(Compiled(p), pads);
  }

  /**
   From the bytes to the runs: an interpreter that holds the program read from the translator's output has,
   for all environment inputs, the run that the words themselves mean.
   */
  lemma WordsPreserveRuns(c: Config, input: Data, junk: seq<u8>, pads: seq<Padding>, m: Vm, inputs: seq<Input>)
    requires |junk| >= |input| / 4 && |pads| >= |input| / 4
    requires forall k :: 0 <= k < |input| / 4 ==> Known(WordsOf(input)[k])
    requires Parse(Stream(input, junk, pads)) == Some(c.program)
    requires c.Valid() && Shape(c, m) && AllFaithful(c, ProgramOf(WordsOf(input)))
    requires forall k :: 0 <= k < |inputs| ==> Possible(c, inputs[k])
    ensures c.program == Compiled(ProgramOf(WordsOf(input)))
    ensures Run(c, m, inputs) == HwRun(c, ProgramOf(WordsOf(input)), m, inputs)
  {
    hide Parse, Stream, WordsOf, Known, Shape, AllFaithful, Run, HwRun;
    TranslatorPipeline(input, junk, pads);
    TranslationPreservesRuns(c, ProgramOf(WordsOf(input)), m, inputs);
  }

  // ----- an assembler -----

  function BigEndian(x: u32): (b: Data)
    ensures |b| == 4
  {
    var b := ToLittleEndian(x);
    [b[3], b[2], b[1], b[0]]
  }

  lemma BigEndianValue(x: u32)
    ensures Value(BigEndian(x)) == x
  {
    BigEndianOfFour(BigEndian(x));
    LittleEndianRoundTrip(x);
  }

  /** A hardware program as a file of big-endian words. */
  function Assembled(p: seq<HwInstr>): (b: Data)
    ensures |b| == 4 * |p|
  {
    if p == [] then [] else BigEndian(Encode(p[0])) + Assembled(p[1..])
  }

  lemma DecodedIsKnown(w: u32)
    ensures Decode(w).Some? ==> Known(w)
  {
    hide Field, DecodeGuard, DecodeCount;
  }

  /** Every hardware program is the meaning of some file of words. */
  lemma {:induction false} AssembledMeans(p: seq<HwInstr>)
    ensures forall k :: 0 <= k < |p| ==> Known(WordsOf(Assembled(p))[k]) && MeaningOf(WordsOf(Assembled(p))[k]) == p[k]
  {
    hide Encode, Decode, BigEndian, Value, Known, Field;
    if p != [] {
      var b := Assembled(p);
      assert b[..4] == BigEndian(Encode(p[0]));
      assert b[4..] == Assembled(p[1..]);
      BigEndianValue(Encode(p[0]));
      EncodeDecode(p[0]);
      DecodedIsKnown(Encode(p[0]));
      AssembledMeans(p[1..]);
      assert WordsOf(b) == [Encode(p[0])] + WordsOf(b[4..]);
    }
  }
}
