/**
 * The table-driven CRC-32 of the archive extractor, and the bit-by-bit reflected CRC-32 of
 * section 8 of RFC 1952 that it must equal
 * (scripts/capture-agent-distribution-receipt.ts:73-77, 1866-1877, 1899, 1954-1958).
 */
module Crc32 {
  type Byte = bv8

  const POLYNOMIAL: bv32 := 0xedb8_8320
  const ALL_ONES: bv32 := 0xffff_ffff

  // ---------- the reference: one message bit at a time, least significant bit first ----------

  function ShiftBit(crc: bv32, bit: bool): bv32 {
    Xor(Shr(crc, 1), if Odd(crc) != bit then POLYNOMIAL else 0)
  }

  function ShiftBits(crc: bv32, bits: seq<bool>): bv32 {
    if bits == [] then crc else ShiftBit(ShiftBits(crc, bits[..|bits| - 1]), bits[|bits| - 1])
  }

  function Odd(c: bv32): bool { c & 1 == 1 }

  function Shr(c: bv32, k: bv32): bv32
    requires k <= 8
  {
    c >> k
  }

  function BitsOf(b: Byte): seq<bool> {
    var m := b as bv32;
    [Odd(m), Odd(Shr(m, 1)), Odd(Shr(m, 2)), Odd(Shr(m, 3)), Odd(Shr(m, 4)), Odd(Shr(m, 5)), Odd(Shr(m, 6)),
     Odd(Shr(m, 7))]
  }

  function MessageBits(bytes: seq<Byte>): seq<bool> {
    if bytes == [] then [] else MessageBits(bytes[..|bytes| - 1]) + BitsOf(bytes[|bytes| - 1])
  }

  /** The CRC-32 of a whole message. */
  function Crc(bytes: seq<Byte>): bv32 {
    ShiftBits(ALL_ONES, MessageBits(bytes)) ^ ALL_ONES
  }

  // ---------- the implementation ----------

  function Feedback(crc: bv32): bv32 {
    if crc & 1 == 1 then POLYNOMIAL else 0
  }

  function Step(crc: bv32): bv32 {
    (crc >> 1) ^ Feedback(crc)
  }

  function Steps(crc: bv32, count: nat): bv32 {
    if count == 0 then crc else Step(Steps(crc, count - 1))
  }

  lemma ShiftIsLinear(a: bv32, b: bv32)
    ensures (a ^ b) >> 1 == (a >> 1) ^ (b >> 1)
  {
  }

  lemma FeedbackIsLinear(a: bv32, b: bv32)
    ensures Feedback(a ^ b) == Feedback(a) ^ Feedback(b)
  {
    LowBitIsLinear(a, b);
    CancelTwice(POLYNOMIAL);
  }

  lemma LowBitIsLinear(a: bv32, b: bv32)
    ensures ((a ^ b) & 1 == 1) == ((a & 1 == 1) != (b & 1 == 1))
  {
  }

  lemma CancelTwice(p: bv32)
    ensures p ^ p == 0 && p ^ 0 == p && 0 ^ p == p
  {
  }

  lemma Interchange(a: bv32, b: bv32, c: bv32, d: bv32)
    ensures (a ^ b) ^ (c ^ d) == (a ^ c) ^ (b ^ d)
  {
  }

  /** Exclusive or, as a name that proofs can leave folded. */
  function Xor(a: bv32, b: bv32): bv32 {
    a ^ b
  }

  lemma StepIsLinear(a: bv32, b: bv32)
    ensures Step(Xor(a, b)) == Xor(Step(a), Step(b))
  {
    hide Feedback;
    ShiftIsLinear(a, b);
    FeedbackIsLinear(a, b);
    Interchange(a >> 1, b >> 1, Feedback(a), Feedback(b));
  }

  lemma {:induction false} StepsAreLinear(a: bv32, b: bv32, count: nat)
    ensures Steps(Xor(a, b), count) == Xor(Steps(a, count), Steps(b, count))
  {
    hide Step, Xor;
    if count > 0 {
      StepsAreLinear(a, b, count - 1);
      StepIsLinear(Steps(a, count - 1), Steps(b, count - 1));
    }
  }

  lemma ClearBit(c: bv32, k: bv32)
    requires k < 8 && c & 0xff == 0
    ensures (c >> k) & 1 == 0 && (c >> k) >> 1 == c >> (k + 1)
  {
  }

  lemma ClearStep(c: bv32, k: bv32)
    requires k < 8 && c & 0xff == 0
    ensures Step(Shr(c, k)) == Shr(c, k + 1) && Shr(c, 0) == c
  {
    ClearBit(c, k);
    CancelTwice(c >> (k + 1));
  }

  lemma Chain(x0: bv32, x1: bv32, x2: bv32, x3: bv32, x4: bv32, x5: bv32, x6: bv32, x7: bv32, x8: bv32)
    requires Step(x0) == x1 && Step(x1) == x2 && Step(x2) == x3 && Step(x3) == x4
    requires Step(x4) == x5 && Step(x5) == x6 && Step(x6) == x7 && Step(x7) == x8
    ensures Steps(x0, 8) == x8
  {
    hide Step;
    assert Steps(x0, 0) == x0;
    assert Steps(x0, 1) == x1;
    assert Steps(x0, 2) == x2;
    assert Steps(x0, 3) == x3;
    assert Steps(x0, 4) == x4;
    assert Steps(x0, 5) == x5;
    assert Steps(x0, 6) == x6;
    assert Steps(x0, 7) == x7;
  }

  function Low(c: bv32): bv32 { c & 0xff }

  function High(c: bv32): bv32 { c & 0xffff_ff00 }

  /** Eight steps of a value whose low byte is clear only shift it. */
  lemma ClearByteShifts(c: bv32)
    requires Low(c) == 0
    ensures Steps(c, 8) == Shr(c, 8)
  {
    ClearStep(c, 0); ClearStep(c, 1); ClearStep(c, 2); ClearStep(c, 3);
    ClearStep(c, 4); ClearStep(c, 5); ClearStep(c, 6); ClearStep(c, 7);
    hide Step, Steps, Shr, Low;
    Chain(c, Shr(c, 1), Shr(c, 2), Shr(c, 3), Shr(c, 4), Shr(c, 5), Shr(c, 6), Shr(c, 7), Shr(c, 8));
  }

  lemma SplitLowByte(c: bv32)
    ensures Xor(Low(c), High(c)) == c && Low(High(c)) == 0 && Shr(High(c), 8) == Shr(c, 8)
  {
  }

  lemma Swap(a: bv32, b: bv32)
    ensures Xor(a, b) == Xor(b, a)
  {
  }

  /** One table lookup does the work of eight steps. */
  lemma LookupIsEightSteps(c: bv32)
    ensures Steps(c, 8) == Xor(Shr(c, 8), Steps(Low(c), 8))
  {
    hide Steps, Xor, Low, High, Shr;
    SplitLowByte(c);
    StepsAreLinear(Low(c), High(c), 8);
    ClearByteShifts(High(c));
    Swap(Steps(Low(c), 8), Shr(c, 8));
  }

  // ---------- a byte at a time is eight bits at a time ----------

  function UpdateByte(crc: bv32, b: Byte): bv32 {
    Steps(Xor(crc, b as bv32), 8)
  }

  lemma ShiftSplits(r: bv32, m: bv32)
    ensures Shr(Xor(r, m), 1) == Xor(Shr(r, 1), Shr(m, 1))
  {
    ShiftIsLinear(r, m);
  }

  lemma OddSplits(r: bv32, m: bv32)
    ensures Odd(Xor(r, m)) == (Odd(r) != Odd(m))
  {
    LowBitIsLinear(r, m);
  }

  lemma StepShape(c: bv32)
    ensures Step(c) == Xor(Shr(c, 1), Feedback(c))
  {
  }

  lemma FeedbackShape(c: bv32)
    ensures Feedback(c) == if Odd(c) then POLYNOMIAL else 0
  {
  }

  lemma XorAssociates(a: bv32, b: bv32, c: bv32)
    ensures Xor(Xor(a, b), c) == Xor(a, Xor(b, c))
  {
    Associates(a, b, c);
  }

  lemma Associates(a: bv32, b: bv32, c: bv32)
    ensures (a ^ b) ^ c == a ^ (b ^ c)
  {
  }

  lemma Rotate(a: bv32, b: bv32, c: bv32)
    ensures Xor(Xor(a, b), c) == Xor(Xor(a, c), b)
  {
    hide Xor;
    XorAssociates(a, b, c);
    XorAssociates(a, c, b);
    Swap(b, c);
  }

  /** Feeding in the low bit of `m` and stepping past it commute with folding `m` into the register. */
  lemma OneBit(r: bv32, m: bv32)
    ensures Xor(ShiftBit(r, Odd(m)), Shr(m, 1)) == Step(Xor(r, m))
  {
    hide Xor, Step, Shr, Odd, Feedback;
    ShiftSplits(r, m);
    OddSplits(r, m);
    StepShape(Xor(r, m));
    FeedbackShape(Xor(r, m));
    Rotate(Shr(r, 1), Shr(m, 1), Feedback(Xor(r, m)));
  }

  lemma ByteFits(b: Byte)
    ensures Shr(b as bv32, 8) == 0
  {
  }

  lemma ShiftByOne(m: bv32, k: bv32)
    requires k < 8
    ensures Shr(Shr(m, k), 1) == Shr(m, k + 1)
  {
  }

  lemma XorZero(a: bv32)
    ensures Xor(a, 0) == a
  {
  }

  lemma ShiftNext(r: bv32, s: seq<bool>, k: nat)
    requires k < |s|
    ensures ShiftBits(r, s[..k + 1]) == ShiftBit(ShiftBits(r, s[..k]), s[k])
    ensures ShiftBits(r, s[..0]) == r
  {
    hide ShiftBit;
    assert s[..k + 1][..k] == s[..k];
  }

  /** Shifting in the eight bits of a byte is folding the byte in and stepping eight times. */
  lemma ByteIsEightBits(crc: bv32, b: Byte)
    ensures ShiftBits(crc, BitsOf(b)) == UpdateByte(crc, b)
  {
    hide ShiftBits, ShiftBit, Steps, Step, Xor, Shr, Odd;
    var m, s := b as bv32, BitsOf(b);
    ByteFits(b);
    ShiftByOne(m, 1); ShiftByOne(m, 2); ShiftByOne(m, 3); ShiftByOne(m, 4);
    ShiftByOne(m, 5); ShiftByOne(m, 6); ShiftByOne(m, 7);
    ShiftNext(crc, s, 0); ShiftNext(crc, s, 1); ShiftNext(crc, s, 2); ShiftNext(crc, s, 3);
    ShiftNext(crc, s, 4); ShiftNext(crc, s, 5); ShiftNext(crc, s, 6); ShiftNext(crc, s, 7);
    OneBit(crc, m);
    OneBit(ShiftBits(crc, s[..1]), Shr(m, 1));
    OneBit(ShiftBits(crc, s[..2]), Shr(m, 2));
    OneBit(ShiftBits(crc, s[..3]), Shr(m, 3));
    OneBit(ShiftBits(crc, s[..4]), Shr(m, 4));
    OneBit(ShiftBits(crc, s[..5]), Shr(m, 5));
    OneBit(ShiftBits(crc, s[..6]), Shr(m, 6));
    OneBit(ShiftBits(crc, s[..7]), Shr(m, 7));
    XorZero(ShiftBits(crc, s[..8]));
    assert s[..8] == s;
    Chain(Xor(crc, m), Xor(ShiftBits(crc, s[..1]), Shr(m, 1)), Xor(ShiftBits(crc, s[..2]), Shr(m, 2)),
          Xor(ShiftBits(crc, s[..3]), Shr(m, 3)), Xor(ShiftBits(crc, s[..4]), Shr(m, 4)),
          Xor(ShiftBits(crc, s[..5]), Shr(m, 5)), Xor(ShiftBits(crc, s[..6]), Shr(m, 6)),
          Xor(ShiftBits(crc, s[..7]), Shr(m, 7)), Xor(ShiftBits(crc, s[..8]), Shr(m, 8)));
  }

  // ---------- any split into chunks ----------

  lemma {:induction false} ShiftBitsAppend(crc: bv32, a: seq<bool>, b: seq<bool>)
    ensures ShiftBits(crc, a + b) == ShiftBits(ShiftBits(crc, a), b)
  {
    hide ShiftBit;
    if b == [] {
      assert a + b == a;
    } else {
      var n := |b| - 1;
      ShiftBitsAppend(crc, a, b[..n]);
      assert (a + b)[..|a + b| - 1] == a + b[..n];
    }
  }

  /** The register after a message: bytes folded in one by one. */
  function Register(bytes: seq<Byte>): bv32 {
    ShiftBits(ALL_ONES, MessageBits(bytes))
  }

  lemma NextByte(bytes: seq<Byte>, b: Byte)
    ensures Register(bytes + [b]) == UpdateByte(Register(bytes), b)
  {
    hide ShiftBits, BitsOf, UpdateByte;
    assert (bytes + [b])[..|bytes + [b]| - 1] == bytes;
    ShiftBitsAppend(ALL_ONES, MessageBits(bytes), BitsOf(b));
    ByteIsEightBits(Register(bytes), b);
  }

  // ---------- the code ----------

  /** Entry `i` holds eight steps of `i`. */
  ghost predicate IsTable(table: seq<bv32>) {
    |table| == 256 && forall i | 0 <= i < 256 :: table[i] == Steps(i as bv32, 8)
  }

  method BuildTable() returns (table: array<bv32>)
    ensures fresh(table) && IsTable(table[..])
  {
    hide Step;
    table := new bv32[256];
    for value := 0 to 256
      invariant forall i | 0 <= i < value :: table[i] == Steps(i as bv32, 8)
    {
      var crc := value as bv32;
      for bit := 0 to 8
        invariant crc == Steps(value as bv32, bit)
        invariant forall i | 0 <= i < value :: table[i] == Steps(i as bv32, 8)
      {
        crc := Step(crc);
      }
      table[value] := crc;
    }
  }

  function LowIndex(c: bv32): (i: int)
    ensures 0 <= i < 256 && i as bv32 == Low(c)
  {
    LowIsSmall(c);
    Low(c) as int
  }

  lemma LowIsSmall(c: bv32)
    ensures 0 <= Low(c) as int < 256 && (Low(c) as int) as bv32 == Low(c)
  {
  }

  lemma LookupByte(crc: bv32, b: Byte, table: seq<bv32>)
    requires IsTable(table)
    ensures var x := Xor(crc, b as bv32); Xor(Shr(x, 8), table[LowIndex(x)]) == UpdateByte(crc, b)
  {
    hide Steps, Xor, Shr, Low, LowIndex;
    LookupIsEightSteps(Xor(crc, b as bv32));
  }

  lemma HighBits(crc: bv32, b: Byte)
    ensures Shr(Xor(crc, b as bv32), 8) == Shr(crc, 8)
  {
  }

  /** `updateCrc32`: continue the register of a message over one more chunk. */
  method UpdateCrc32(current: bv32, input: seq<Byte>, table: array<bv32>, ghost before: seq<Byte>) returns (crc: bv32)
    requires IsTable(table[..]) && current == Register(before)
    ensures crc == Register(before + input)
  {
    hide Steps, Register, Xor, Shr, Low, LowIndex, UpdateByte, IsTable;
    crc := current;
    assert before + input[..0] == before;
    TableSize(table[..]);
    for k := 0 to |input|
      invariant crc == Register(before + input[..k])
    {
      LookupByte(crc, input[k], table[..]);
      HighBits(crc, input[k]);
      NextByte(before + input[..k], input[k]);
      crc := Xor(Shr(crc, 8), table[LowIndex(Xor(crc, input[k] as bv32))]);
      assert before + input[..k + 1] == before + input[..k] + [input[k]];
    }
    assert input[..|input|] == input;
  }

  lemma TableSize(table: seq<bv32>)
    requires IsTable(table)
    ensures |table| == 256
  {
  }

  /**
   * The extractor's checksum over a message that arrives in any chunks, from the all-ones start to the
   * final inversion, is the bit-by-bit CRC-32 of the whole message.
   */
  method ChecksumChunks(chunks: seq<seq<Byte>>, table: array<bv32>) returns (crc: bv32)
    requires IsTable(table[..])
    ensures crc == Crc(Concat(chunks))
  {
    hide Register, Crc, IsTable;
    crc := ALL_ONES;
    StartAndEnd([]);
    assert chunks[..0] == [];
    for k := 0 to |chunks|
      invariant crc == Register(Concat(chunks[..k]))
    {
      crc := UpdateCrc32(crc, chunks[k], table, Concat(chunks[..k]));
      assert chunks[..k + 1][..k] == chunks[..k];
    }
    assert chunks[..|chunks|] == chunks;
    StartAndEnd(Concat(chunks));
    crc := crc ^ ALL_ONES;
  }

  function Concat(chunks: seq<seq<Byte>>): seq<Byte> {
    if chunks == [] then [] else Concat(chunks[..|chunks| - 1]) + chunks[|chunks| - 1]
  }

  /** The checksum of a finished register. */
  function Finished(register: bv32): bv32 { register ^ ALL_ONES }

  lemma StartAndEnd(bytes: seq<Byte>)
    ensures Register([]) == ALL_ONES
    ensures Crc(bytes) == Finished(Register(bytes))
  {
  }

  // ---------- known values ----------

  lemma EightSteps(crc: bv32)
    ensures Steps(crc, 8) == Step(Step(Step(Step(Step(Step(Step(Step(crc))))))))
  {
    hide Step;
    assert Steps(crc, 2) == Step(Steps(crc, 1)) == Step(Step(crc));
    assert Steps(crc, 4) == Step(Steps(crc, 3)) == Step(Step(Steps(crc, 2)));
    assert Steps(crc, 6) == Step(Steps(crc, 5)) == Step(Step(Steps(crc, 4)));
    assert Steps(crc, 8) == Step(Steps(crc, 7)) == Step(Step(Steps(crc, 6)));
  }

  lemma Digit1()
    ensures UpdateByte(0xffff_ffff, 49) == 0x7c23_1048
  {
    EightSteps(Xor(0xffff_ffff, 49));
  }

  lemma Digit2()
    ensures UpdateByte(0x7c23_1048, 50) == 0xb0ac_bb32
  {
    EightSteps(Xor(0x7c23_1048, 50));
  }

  lemma Digit3()
    ensures UpdateByte(0xb0ac_bb32, 51) == 0x77b7_9c2d
  {
    EightSteps(Xor(0xb0ac_bb32, 51));
  }

  lemma Digit4()
    ensures UpdateByte(0x77b7_9c2d, 52) == 0x641c_1f5c
  {
    EightSteps(Xor(0x77b7_9c2d, 52));
  }

  lemma Digit5()
    ensures UpdateByte(0x641c_1f5c, 53) == 0x340a_c5e3
  {
    EightSteps(Xor(0x641c_1f5c, 53));
  }

  lemma Digit6()
    ensures UpdateByte(0x340a_c5e3, 54) == 0xf68d_2c9e
  {
    EightSteps(Xor(0x340a_c5e3, 54));
  }

  lemma Digit7()
    ensures UpdateByte(0xf68d_2c9e, 55) == 0xaffc_9660
  {
    EightSteps(Xor(0xf68d_2c9e, 55));
  }

  lemma Digit8()
    ensures UpdateByte(0xaffc_9660, 56) == 0x651f_2550
  {
    EightSteps(Xor(0xaffc_9660, 56));
  }

  lemma Digit9()
    ensures UpdateByte(0x651f_2550, 57) == 0x340b_c6d9
  {
    EightSteps(Xor(0x651f_2550, 57));
  }

  lemma Digit(before: seq<Byte>, digit: Byte, after: seq<Byte>)
    requires after == before + [digit]
    ensures Register(after) == UpdateByte(Register(before), digit)
  {
    NextByte(before, digit);
  }

  /** The published check value of CRC-32: that of the nine digits in ASCII. */
  lemma CheckValue()
    ensures Crc([49, 50, 51, 52, 53, 54, 55, 56, 57]) == 0xcbf4_3926
  {
    hide UpdateByte, Register, Crc;
    var digits: seq<Byte> := [49, 50, 51, 52, 53, 54, 55, 56, 57];
    StartAndEnd(digits);
    Digit1();
    Digit(digits[..0], 49, digits[..1]);
    Digit2();
    Digit(digits[..1], 50, digits[..2]);
    Digit3();
    Digit(digits[..2], 51, digits[..3]);
    Digit4();
    Digit(digits[..3], 52, digits[..4]);
    Digit5();
    Digit(digits[..4], 53, digits[..5]);
    Digit6();
    Digit(digits[..5], 54, digits[..6]);
    Digit7();
    Digit(digits[..6], 55, digits[..7]);
    Digit8();
    Digit(digits[..7], 56, digits[..8]);
    Digit9();
    Digit(digits[..8], 57, digits[..9]);
    assert digits[..0] == [] && digits[..9] == digits;
    assert Register(digits) == 0x340b_c6d9;
    assert Finished(0x340b_c6d9) == 0xcbf4_3926;
  }
}
