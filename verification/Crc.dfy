/** The CRC-32 of the CSPL configuration converter (`Generate_CRC`): a reflected register
    that absorbs a 32-bit word at a time.  Words are bit sequences, least significant bit
    first, so exclusive-or and shifts are exact and free of machine arithmetic. */
module Crc {

  // ---------- 32-bit words ----------

  newtype int32 = x: int | -0x8000_0000 <= x < 0x8000_0000

  type Word = w: seq<bool> | |w| == 32 witness seq(32, _ => false)

  function Fill(b: bool): Word {
    seq(32, _ => b)
  }

  /** 0xEDB88320, least significant bit first (`PolyValue`). */
  function Poly(): Word {
    [false, false, false, false, false, true, false, false] +
    [true, true, false, false, false, false, false, true] +
    [false, false, false, true, true, true, false, true] +
    [true, false, true, true, false, true, true, true]
  }

  function Xor(a: Word, b: Word): Word {
    seq(32, i requires 0 <= i < 32 => a[i] != b[i])
  }

  function ShiftRight(a: Word): Word {
    a[1..] + [false]
  }

  function Pow2(n: nat): (p: nat)
    ensures p >= 1
  {
    if n == 0 then 1 else 2 * Pow2(n - 1)
  }

  lemma {:induction false} Pow2Add(m: nat, n: nat)
    ensures Pow2(m + n) == Pow2(m) * Pow2(n)
  {
    if m > 0 {
      Pow2Add(m - 1, n);
    }
  }

  /** The low `n` bits of `v`, least significant first. */
  function BitsOf(v: nat, n: nat): (bits: seq<bool>)
    ensures |bits| == n
    decreases n, v
  {
    if n == 0 then [] else [v % 2 == 1] + BitsOf(v / 2, n - 1)
  }

  function Value(bits: seq<bool>): (v: nat)
    ensures v < Pow2(|bits|)
  {
    if bits == [] then 0 else (if bits[0] then 1 else 0) + 2 * Value(bits[1..])
  }

  lemma {:induction false} ValueOfBits(v: nat, n: nat)
    requires v < Pow2(n)
    ensures Value(BitsOf(v, n)) == v
    decreases n
  {
    if n > 0 {
      ValueOfBits(v / 2, n - 1);
      assert BitsOf(v, n)[1..] == BitsOf(v / 2, n - 1);
    }
  }

  lemma {:induction false} BitsOfValue(bits: seq<bool>)
    ensures BitsOf(Value(bits), |bits|) == bits
  {
    if bits != [] {
      BitsOfValue(bits[1..]);
      assert bits == [bits[0]] + bits[1..];
    }
  }

  lemma {:induction false} ValueConcat(a: seq<bool>, b: seq<bool>)
    ensures Value(a + b) == Value(a) + Pow2(|a|) * Value(b)
  {
    if a == [] {
      assert a + b == b;
    } else {
      ValueConcat(a[1..], b);
      assert (a + b)[1..] == a[1..] + b;
      DoubleProduct(Pow2(|a| - 1), Value(b));
    }
  }

  lemma DoubleProduct(p: int, v: int)
    ensures (2 * p) * v == 2 * (p * v)
  {}

  /** `x & 0xffffffff` in Python: the two's complement bit pattern of an element. */
  function Pattern(x: int32): (p: nat)
    ensures p < 0x1_0000_0000 && p == (x as int) % 0x1_0000_0000
  {
    if x < 0 then x as int + 0x1_0000_0000 else x as int
  }

  /** The sign fix-up at the end of `Generate_CRC`; `& 0x7fffffff` keeps the low 31 bits. */
  function Signed(v: nat): int32
    requires v < 0x1_0000_0000
  {
    if v > 0x7fff_ffff then (-(0x7fff_ffff - v % 0x8000_0000 + 1)) as int32 else v as int32
  }

  lemma SignedPattern(x: int32, v: nat)
    requires v < 0x1_0000_0000
    ensures Pattern(Signed(v)) == v
    ensures Signed(Pattern(x)) == x
  {}

  lemma SmallPow2()
    ensures Pow2(4) == 16
    ensures Pow2(8) == 0x100
  {}

  lemma Pow2Of32()
    ensures Pow2(32) == 0x1_0000_0000
  {
    SmallPow2();
    Pow2Add(8, 8);
    Pow2Add(16, 16);
  }

  function WordOf(x: int32): Word {
    BitsOf(Pattern(x), 32)
  }

  function ElementOf(w: Word): int32 {
    Pow2Of32();
    Signed(Value(w))
  }

  /** An array element and its bit pattern determine each other. */
  lemma ElementRoundTrip(x: int32, w: Word)
    ensures ElementOf(WordOf(x)) == x
    ensures WordOf(ElementOf(w)) == w
  {
    Pow2Of32();
    ValueOfBits(Pattern(x), 32);
    BitsOfValue(w);
    SignedPattern(x, Pattern(x));
    SignedPattern(x, Value(w));
  }

  function Words(s: seq<int32>): (ws: seq<Word>)
    ensures |ws| == |s|
  {
    seq(|s|, i requires 0 <= i < |s| => WordOf(s[i]))
  }

  // ---------- The register ----------

  /** `(crc >> 1) ^ (0xEDB88320 & -(crc & 1))`. */
  function Step(c: Word): Word {
    if c[0] then Xor(ShiftRight(c), Poly()) else ShiftRight(c)
  }

  function Steps(c: Word, n: nat): Word
    decreases n
  {
    if n == 0 then c else Steps(Step(c), n - 1)
  }

  /** A step for every bit of a word. */
  function Cycle(c: Word): Word {
    Steps(c, |c|)
  }

  /** One word per round: exclusive-or it in, then 32 shift steps. */
  function Absorb(c: Word, ws: seq<Word>): Word
    decreases |ws|
  {
    if ws == [] then c else Absorb(Cycle(Xor(c, ws[0])), ws[1..])
  }

  /** The value `Generate_CRC` returns: the last element is not part of the payload. */
  function CrcOf(s: seq<int32>): int32
    requires |s| > 0
  {
    ElementOf(Xor(Absorb(Fill(true), Words(s[..|s| - 1])), Fill(true)))
  }

  lemma AbsorbNext(c: Word, ws: seq<Word>, i: nat)
    requires i < |ws|
    ensures Absorb(c, ws[i..]) == Absorb(Cycle(Xor(c, ws[i])), ws[i + 1..])
  {
    assert ws[i..][1..] == ws[i + 1..];
  }

  /** The two nested loops of `Generate_CRC`. */
  method GenerateCrc(a: array<int32>) returns (crc: int32)
    requires a.Length > 0
    ensures crc == CrcOf(a[..])
  {
    ghost var ws := Words(a[..a.Length - 1]);
    var c := Fill(true);
    assert ws[0..] == ws;
    for i := 0 to a.Length - 1
      invariant Absorb(c, ws[i..]) == Absorb(Fill(true), ws)
    {
      AbsorbNext(c, ws, i);
      c := ShiftOut(Xor(c, WordOf(a[i])));
    }
    assert a[..][..a.Length - 1] == a[..a.Length - 1];
    crc := ElementOf(Xor(c, Fill(true)));
  }

  method ShiftOut(mixed: Word) returns (c: Word)
    ensures c == Cycle(mixed)
  {
    c := mixed;
    for j := 0 to 32
      invariant Steps(c, 32 - j) == Cycle(mixed)
    {
      c := Step(c);
    }
  }

  // ---------- Algebra of the step ----------

  lemma PolyValue(p: Word)
    requires p == Poly()
    ensures Value(p) == 0xEDB8_8320
  {
    OctetValue(p[..8]);
    OctetValue(p[8..16]);
    OctetValue(p[16..24]);
    OctetValue(p[24..]);
    assert p == p[..8] + p[8..16] + p[16..24] + p[24..];
    FourOctets(p[..8], p[8..16], p[16..24], p[24..]);
  }

  function Bit(b: bool): nat {
    if b then 1 else 0
  }

  lemma OctetValue(b: seq<bool>)
    requires |b| == 8
    ensures Value(b) == Bit(b[0]) + 2 * Bit(b[1]) + 4 * Bit(b[2]) + 8 * Bit(b[3]) + 16 * Bit(b[4])
                      + 32 * Bit(b[5]) + 64 * Bit(b[6]) + 128 * Bit(b[7])
  {
    var low, high := b[..4], b[4..];
    assert b == low + high;
    NibbleValue(low);
    NibbleValue(high);
    NibbleConcat(low, high);
  }

  lemma NibbleConcat(low: seq<bool>, high: seq<bool>)
    requires |low| == 4
    ensures Value(low + high) == Value(low) + 16 * Value(high)
  {
    SmallPow2();
    ValueConcat(low, high);
  }

  lemma NibbleValue(b: seq<bool>)
    requires |b| == 4
    ensures Value(b) == Bit(b[0]) + 2 * Bit(b[1]) + 4 * Bit(b[2]) + 8 * Bit(b[3])
  {
    assert b[1..][1..] == b[2..] && b[2..][1..] == b[3..] && b[3..][1..] == [];
    assert Value(b[2..]) == Bit(b[2]) + 2 * Value(b[3..]);
    assert Value(b[3..]) == Bit(b[3]) + 2 * Value([]);
  }

  lemma FourOctets(b0: seq<bool>, b1: seq<bool>, b2: seq<bool>, b3: seq<bool>)
    requires |b0| == |b1| == |b2| == |b3| == 8
    ensures Value(b0 + b1 + b2 + b3)
         == Value(b0) + 0x100 * Value(b1) + 0x1_0000 * Value(b2) + 0x100_0000 * Value(b3)
  {
    ValueConcat(b0 + b1 + b2, b3);
    ValueConcat(b0 + b1, b2);
    ValueConcat(b0, b1);
    SmallPow2();
    Pow2Add(8, 8);
    Pow2Add(16, 8);
  }

  /** The step is linear over exclusive-or. */
  lemma StepLinear(a: Word, b: Word)
    ensures Step(Xor(a, b)) == Xor(Step(a), Step(b))
  {
    var l, r := Step(Xor(a, b)), Xor(Step(a), Step(b));
    forall i | 0 <= i < 32
      ensures l[i] == r[i]
    {}
  }

  lemma StepInjective(a: Word, b: Word)
    requires Step(a) == Step(b)
    ensures a == b
  {
    assert Step(a)[31] == a[0] && Step(b)[31] == b[0];
    forall i | 1 <= i < 32
      ensures a[i] == b[i]
    {
      assert Step(a)[i - 1] == (if a[0] then a[i] != Poly()[i - 1] else a[i]);
      assert Step(b)[i - 1] == (if b[0] then b[i] != Poly()[i - 1] else b[i]);
    }
  }

  lemma {:induction false} StepsInjective(a: Word, b: Word, n: nat)
    requires Steps(a, n) == Steps(b, n)
    ensures a == b
    decreases n
  {
    if n > 0 {
      StepsInjective(Step(a), Step(b), n - 1);
      StepInjective(a, b);
    }
  }
}
