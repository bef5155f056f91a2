/** What the converter's CRC is worth: it is the CRC-32 of section 8 of RFC 1952 over the
    payload's bytes, a payload damaged within 32 consecutive bits always shows, and an array
    ends in its own CRC exactly when the register, run over all of it, ends in one fixed word. */
module CrcProperties {
  import opened Common
  import opened Crc

  // ---------- The register as a bit-serial machine ----------

  /** `bits` in the low positions of a word, zeros above. */
  function Pad(bits: seq<bool>): Word
    requires |bits| <= 32
  {
    bits + seq(32 - |bits|, _ => false)
  }

  /** The same register fed one message bit at a time. */
  function Feed(c: Word, bits: seq<bool>): Word
    decreases |bits|
  {
    if bits == [] then c else Feed(Step(Xor(c, Pad(bits[..1]))), bits[1..])
  }

  lemma {:induction false} FeedConcat(c: Word, a: seq<bool>, b: seq<bool>)
    ensures Feed(c, a + b) == Feed(Feed(c, a), b)
    decreases |a|
  {
    if a == [] {
      assert a + b == b;
    } else {
      hide Step, Xor, Pad;
      var next := Step(Xor(c, Pad(a[..1])));
      FeedConcat(next, a[1..], b);
      assert (a + b)[..1] == a[..1] && (a + b)[1..] == a[1..] + b;
    }
  }

  /** Exclusive-or of up to 32 bits at once, then shifting, is feeding them one by one. */
  lemma {:induction false} FeedIsSteps(c: Word, bits: seq<bool>)
    requires |bits| <= 32
    ensures Feed(c, bits) == Steps(Xor(c, Pad(bits)), |bits|)
    decreases |bits|
  {
    if bits == [] {
      assert Xor(c, Pad(bits)) == c;
    } else {
      var first, rest := Pad(bits[..1]), Pad([false] + bits[1..]);
      assert Xor(c, Pad(bits)) == Xor(Xor(c, first), rest);
      StepLinear(Xor(c, first), rest);
      assert Step(rest) == Pad(bits[1..]);
      FeedIsSteps(Step(Xor(c, first)), bits[1..]);
    }
  }

  lemma CycleIsFeed(c: Word, w: Word)
    ensures Cycle(Xor(c, w)) == Feed(c, w)
  {
    FeedIsSteps(c, w);
    assert Pad(w) == w;
  }

  /** The payload as one bit string: word after word, least significant bit first. */
  function Stream(s: seq<int32>): (bits: seq<bool>)
    ensures |bits| == 32 * |s|
    decreases |s|
  {
    if s == [] then [] else WordOf(s[0]) + Stream(s[1..])
  }

  lemma {:induction false} AbsorbIsFeed(c: Word, s: seq<int32>)
    ensures Absorb(c, Words(s)) == Feed(c, Stream(s))
    decreases |s|
  {
    if s != [] {
      CycleIsFeed(c, WordOf(s[0]));
      FeedConcat(c, WordOf(s[0]), Stream(s[1..]));
      assert Words(s)[1..] == Words(s[1..]);
      AbsorbIsFeed(Feed(c, WordOf(s[0])), s[1..]);
    }
  }

  // ---------- Section 8 of RFC 1952, on numbers ----------

  /** Exclusive-or of two numbers. */
  function XorNat(a: nat, b: nat): nat
    decreases a + b
  {
    if a == 0 && b == 0 then 0 else (if a % 2 != b % 2 then 1 else 0) + 2 * XorNat(a / 2, b / 2)
  }

  /** The inner loop of the RFC's `make_crc_table`, `k` rounds of it. */
  function MakeEntry(c: nat, k: nat): nat
    decreases k, c
  {
    if k == 0 then c else MakeEntry(if c % 2 == 1 then XorNat(0xEDB8_8320, c / 2) else c / 2, k - 1)
  }

  /** The RFC's `update_crc`, between its two complements. */
  function UpdateCrc(c: nat, buf: seq<byte>): nat
    decreases |buf|, c
  {
    if buf == [] then c
    else UpdateCrc(XorNat(MakeEntry(XorNat(c, buf[0]) % 0x100, 8), c / 0x100), buf[1..])
  }

  /** The RFC's `crc`. */
  function Rfc1952(buf: seq<byte>): nat {
    XorNat(UpdateCrc(XorNat(0, 0xFFFF_FFFF), buf), 0xFFFF_FFFF)
  }

  // ---------- The same on words ----------

  /** An entry of the table: eight shift steps from the index. */
  function TableEntry(n: nat): Word {
    Steps(Pad(BitsOf(n, 8)), 8)
  }

  function UpdateByte(c: Word, b: byte): Word {
    Xor(TableEntry(Value(Xor(c, Pad(BitsOf(b, 8)))[..8])), c[8..] + seq(8, _ => false))
  }

  function UpdateBytes(c: Word, buf: seq<byte>): Word
    decreases |buf|
  {
    if buf == [] then c else UpdateBytes(UpdateByte(c, buf[0]), buf[1..])
  }

  lemma {:induction false} SameBitValue(n: nat, b: bool)
    ensures Value(seq(n, _ => b)) == if b then Pow2(n) - 1 else 0
  {
    if n > 0 {
      assert seq(n, _ => b)[1..] == seq(n - 1, _ => b);
      SameBitValue(n - 1, b);
    }
  }

  lemma FillValue()
    ensures Value(Fill(true)) == 0xFFFF_FFFF
  {
    SameBitValue(32, true);
    Pow2Of32();
  }

  lemma ZerosAbove(bits: seq<bool>, n: nat)
    ensures Value(bits + seq(n, _ => false)) == Value(bits)
  {
    ValueConcat(bits, seq(n, _ => false));
    SameBitValue(n, false);
  }

  lemma {:induction false} XorBits(a: seq<bool>, b: seq<bool>, x: seq<bool>)
    requires |a| == |b| == |x| && forall i :: 0 <= i < |a| ==> x[i] == (a[i] != b[i])
    ensures Value(x) == XorNat(Value(a), Value(b))
    decreases |a|
  {
    if a == [] {
      assert XorNat(0, 0) == 0;
    } else {
      XorBits(a[1..], b[1..], x[1..]);
      XorNatStep(a[0], Value(a[1..]), b[0], Value(b[1..]));
    }
  }

  lemma XorNatStep(p: bool, a: nat, q: bool, b: nat)
    ensures XorNat(Bit(p) + 2 * a, Bit(q) + 2 * b) == Bit(p != q) + 2 * XorNat(a, b)
  {
    var x, y := Bit(p) + 2 * a, Bit(q) + 2 * b;
    Halves(p, a);
    Halves(q, b);
    if x == 0 && y == 0 {
      assert XorNat(x, y) == 0;
    } else {
      assert XorNat(x, y) == (if x % 2 != y % 2 then 1 else 0) + 2 * XorNat(x / 2, y / 2);
    }
  }

  lemma Halves(p: bool, a: nat)
    ensures (Bit(p) + 2 * a) / 2 == a && (Bit(p) + 2 * a) % 2 == Bit(p)
  {}

  lemma XorValue(a: Word, b: Word)
    ensures Value(Xor(a, b)) == XorNat(Value(a), Value(b))
  {
    XorBits(a, b, Xor(a, b));
  }

  /** Dropping low bits of a number. */
  lemma LowAndHigh(c: Word, n: nat)
    requires n <= 32
    ensures Value(c[..n]) == Value(c) % Pow2(n)
    ensures Value(c[n..] + seq(n, _ => false)) == Value(c) / Pow2(n)
  {
    assert c == c[..n] + c[n..];
    ValueConcat(c[..n], c[n..]);
    ZerosAbove(c[n..], n);
    DivideBack(Value(c[..n]), Value(c[n..]), Pow2(n));
  }

  lemma ProductsAscend(p: nat, a: int, b: int)
    ensures a <= b ==> p * a <= p * b
  {}

  lemma DivideBack(low: nat, high: nat, p: nat)
    requires low < p
    ensures (low + p * high) % p == low && (low + p * high) / p == high
  {
    var v := low + p * high;
    var q := v / p;
    assert p * q + v % p == v;
    ProductsAscend(p, q + 1, high);
    ProductsAscend(p, high + 1, q);
  }

  lemma ShiftValue(c: Word)
    ensures Value(ShiftRight(c)) == Value(c) / 2
    ensures c[0] <==> Value(c) % 2 == 1
  {
    ZerosAbove(c[1..], 1);
    assert seq(1, _ => false) == [false];
  }

  lemma XorCommutes(a: Word, b: Word)
    ensures Xor(a, b) == Xor(b, a)
  {}

  lemma StepValue(c: Word)
    ensures Value(Step(c))
         == if Value(c) % 2 == 1 then XorNat(0xEDB8_8320, Value(c) / 2) else Value(c) / 2
  {
    ShiftValue(c);
    PolyValue(Poly());
    hide Xor, XorNat, Value, ShiftRight, Poly;
    XorValue(Poly(), ShiftRight(c));
    XorCommutes(Poly(), ShiftRight(c));
  }

  lemma {:induction false} StepsValue(c: Word, k: nat)
    ensures Value(Steps(c, k)) == MakeEntry(Value(c), k)
    decreases k
  {
    if k > 0 {
      StepValue(c);
      StepsValue(Step(c), k - 1);
    }
  }

  lemma PadValue(n: nat)
    requires n < 0x100
    ensures Value(Pad(BitsOf(n, 8))) == n
  {
    SmallPow2();
    ValueOfBits(n, 8);
    ZerosAbove(BitsOf(n, 8), 24);
  }

  lemma UpdateByteValue(c: Word, b: byte)
    ensures Value(UpdateByte(c, b))
         == XorNat(MakeEntry(XorNat(Value(c), b) % 0x100, 8), Value(c) / 0x100)
  {
    hide Xor, XorNat, Value, BitsOf, Pad, Steps, MakeEntry;
    SmallPow2();
    var mixed := Xor(c, Pad(BitsOf(b, 8)));
    PadValue(b);
    XorValue(c, Pad(BitsOf(b, 8)));
    LowAndHigh(mixed, 8);
    LowAndHigh(c, 8);
    var n := Value(mixed[..8]);
    PadValue(n);
    StepsValue(Pad(BitsOf(n, 8)), 8);
    XorValue(TableEntry(n), c[8..] + seq(8, _ => false));
  }

  lemma {:induction false} UpdateBytesValue(c: Word, buf: seq<byte>)
    ensures Value(UpdateBytes(c, buf)) == UpdateCrc(Value(c), buf)
    decreases |buf|
  {
    hide UpdateByte, XorNat, MakeEntry, Value;
    if buf != [] {
      UpdateByteValue(c, buf[0]);
      UpdateBytesValue(UpdateByte(c, buf[0]), buf[1..]);
    }
  }

  lemma XorFromZero(n: nat)
    ensures XorNat(0, n) == n
  {}

  function Octet(bits: seq<bool>): byte
    requires |bits| == 8
  {
    SmallPow2();
    Value(bits)
  }

  /** The four bytes of an element as `array.tofile` writes them on a little-endian machine. */
  function LittleEndian(x: int32): (b: seq<byte>)
    ensures |b| == 4
  {
    var w := WordOf(x);
    [Octet(w[..8]), Octet(w[8..16]), Octet(w[16..24]), Octet(w[24..])]
  }

  lemma LittleEndianValue(x: int32)
    ensures var b := LittleEndian(x);
            Pattern(x) == b[0] as int + 0x100 * b[1] as int + 0x1_0000 * b[2] as int
                          + 0x100_0000 * b[3] as int
  {
    var w := WordOf(x);
    assert w == w[..8] + w[8..16] + w[16..24] + w[24..];
    FourOctets(w[..8], w[8..16], w[16..24], w[24..]);
    Pow2Of32();
    ValueOfBits(Pattern(x), 32);
  }

  function FileBytes(s: seq<int32>): (buf: seq<byte>)
    ensures |buf| == 4 * |s|
    decreases |s|
  {
    if s == [] then [] else LittleEndian(s[0]) + FileBytes(s[1..])
  }

  /** Zero low bits only move: no polynomial is mixed in. */
  lemma {:induction false} StepsShift(w: Word, n: nat)
    requires n <= 32 && forall i :: 0 <= i < n ==> !w[i]
    ensures Steps(w, n) == Pad(w[n..])
    decreases n
  {
    if n == 0 {
      assert Pad(w[0..]) == w;
    } else {
      assert ShiftRight(w)[n - 1..] == w[n..] + [false];
      StepsShift(ShiftRight(w), n - 1);
    }
  }

  lemma {:induction false} StepsLinear(a: Word, b: Word, n: nat)
    ensures Steps(Xor(a, b), n) == Xor(Steps(a, n), Steps(b, n))
    decreases n
  {
    if n > 0 {
      StepLinear(a, b);
      StepsLinear(Step(a), Step(b), n - 1);
    }
  }

  /** Eight steps at once: look up the low octet, shift the rest down. */
  lemma StepsByTable(x: Word)
    ensures Steps(x, 8) == Xor(Steps(Pad(x[..8]), 8), x[8..] + seq(8, _ => false))
  {
    var low, high := Pad(x[..8]), seq(8, _ => false) + x[8..];
    assert x == Xor(low, high);
    StepsLinear(low, high, 8);
    StepsShift(high, 8);
    assert high[8..] == x[8..];
  }

  lemma UpdateByteIsFeed(c: Word, bits: seq<bool>)
    requires |bits| == 8
    ensures UpdateByte(c, Octet(bits)) == Feed(c, bits)
  {
    BitsOfValue(bits);
    var mixed := Xor(c, Pad(bits));
    FeedIsSteps(c, bits);
    StepsByTable(mixed);
    assert forall i :: 8 <= i < 32 ==> mixed[i] == c[i];
    assert mixed[8..] == c[8..];
    BitsOfValue(mixed[..8]);
  }

  /** Four bytes from position `k` of the word on. */
  lemma {:induction false} UpdateTailIsFeed(c: Word, w: Word, octets: seq<byte>, k: nat)
    requires k <= 4 && |octets| == 4
    requires forall i :: 0 <= i < 4 ==> octets[i] == Octet(w[8 * i..8 * i + 8])
    ensures UpdateBytes(c, octets[k..]) == Feed(c, w[8 * k..])
    decreases 4 - k
  {
    if k < 4 {
      UpdateByteIsFeed(c, w[8 * k..8 * k + 8]);
      FeedConcat(c, w[8 * k..8 * k + 8], w[8 * k + 8..]);
      assert w[8 * k..] == w[8 * k..8 * k + 8] + w[8 * k + 8..];
      assert octets[k..][1..] == octets[k + 1..];
      UpdateTailIsFeed(Feed(c, w[8 * k..8 * k + 8]), w, octets, k + 1);
    }
  }

  lemma UpdateWordIsFeed(c: Word, x: int32)
    ensures UpdateBytes(c, LittleEndian(x)) == Feed(c, WordOf(x))
  {
    var w, octets := WordOf(x), LittleEndian(x);
    assert w[24..32] == w[24..];
    UpdateTailIsFeed(c, w, octets, 0);
    assert octets[0..] == octets && w[0..] == w;
  }

  lemma {:induction false} UpdateConcat(c: Word, a: seq<byte>, b: seq<byte>)
    ensures UpdateBytes(c, a + b) == UpdateBytes(UpdateBytes(c, a), b)
    decreases |a|
  {
    if a == [] {
      assert a + b == b;
    } else {
      var rest := (a + b)[1..];
      assert rest == a[1..] + b;
      assert UpdateBytes(c, a + b) == UpdateBytes(UpdateByte(c, a[0]), rest);
      UpdateConcat(UpdateByte(c, a[0]), a[1..], b);
    }
  }

  lemma {:induction false} UpdateBytesIsFeed(c: Word, s: seq<int32>)
    ensures UpdateBytes(c, FileBytes(s)) == Feed(c, Stream(s))
    decreases |s|
  {
    if s != [] {
      UpdateConcat(c, LittleEndian(s[0]), FileBytes(s[1..]));
      UpdateWordIsFeed(c, s[0]);
      FeedConcat(c, WordOf(s[0]), Stream(s[1..]));
      UpdateBytesIsFeed(Feed(c, WordOf(s[0])), s[1..]);
    }
  }

  /** The word-at-a-time CRC is the RFC's byte-at-a-time, table-driven CRC-32 of the payload. */
  lemma CrcIsRfc1952(s: seq<int32>)
    requires |s| > 0
    ensures (CrcOf(s) as int) % 0x1_0000_0000 == Rfc1952(FileBytes(s[..|s| - 1]))
  {
    hide Value, XorNat, UpdateCrc, UpdateBytes, Absorb, Feed, Stream, FileBytes, BitsOf, Xor;
    var payload := s[..|s| - 1];
    AbsorbIsFeed(Fill(true), payload);
    UpdateBytesIsFeed(Fill(true), payload);
    var register := Absorb(Fill(true), Words(payload));
    UpdateBytesValue(Fill(true), FileBytes(payload));
    FillValue();
    XorFromZero(0xFFFF_FFFF);
    XorValue(register, Fill(true));
    Pow2Of32();
    SignedPattern(0, Value(Xor(register, Fill(true))));
  }

  // ---------- Error detection ----------

  lemma {:induction false} FeedInjective(a: Word, b: Word, bits: seq<bool>)
    requires Feed(a, bits) == Feed(b, bits)
    ensures a == b
    decreases |bits|
  {
    if bits != [] {
      var p := Pad(bits[..1]);
      FeedInjective(Step(Xor(a, p)), Step(Xor(b, p)), bits[1..]);
      StepInjective(Xor(a, p), Xor(b, p));
      XorCancel(a, b, p);
    }
  }

  lemma XorCancel(a: Word, b: Word, p: Word)
    requires Xor(a, p) == Xor(b, p)
    ensures a == b
  {
    forall i | 0 <= i < 32
      ensures a[i] == b[i]
    {
      assert Xor(a, p)[i] == Xor(b, p)[i];
    }
  }

  /** From one register value, two different windows of at most 32 bits never meet again. */
  lemma WindowInjective(c: Word, a: seq<bool>, b: seq<bool>)
    requires |a| == |b| <= 32 && Feed(c, a) == Feed(c, b)
    ensures a == b
  {
    FeedIsSteps(c, a);
    FeedIsSteps(c, b);
    StepsInjective(Xor(c, Pad(a)), Xor(c, Pad(b)), |a|);
    forall i | 0 <= i < |a|
      ensures a[i] == b[i]
    {
      assert Xor(c, Pad(a))[i] == Xor(c, Pad(b))[i];
    }
  }

  lemma WindowDetected(c: Word, before: seq<bool>, a: seq<bool>, b: seq<bool>, after: seq<bool>)
    requires |a| == |b| <= 32
    requires Feed(c, before + (a + after)) == Feed(c, before + (b + after))
    ensures a == b
  {
    FeedConcat(c, before, a + after);
    FeedConcat(c, before, b + after);
    var d := Feed(c, before);
    FeedConcat(d, a, after);
    FeedConcat(d, b, after);
    FeedInjective(Feed(d, a), Feed(d, b), after);
    WindowInjective(d, a, b);
  }

  lemma SharedEnds(a: seq<bool>, b: seq<bool>, lo: nat, hi: nat)
    requires lo <= hi <= |a| == |b|
    requires forall i :: 0 <= i < |a| && a[i] != b[i] ==> lo <= i < hi
    ensures a == a[..lo] + (a[lo..hi] + a[hi..])
    ensures b == a[..lo] + (b[lo..hi] + a[hi..])
  {
    assert a[..lo] == b[..lo];
    assert a[hi..] == b[hi..];
    assert b == b[..lo] + (b[lo..hi] + b[hi..]);
  }

  lemma StreamBurst(c: Word, a: seq<bool>, b: seq<bool>, p: nat)
    requires |a| == |b| && Feed(c, a) == Feed(c, b)
    requires forall i :: 0 <= i < |a| && a[i] != b[i] ==> p <= i < p + 32
    ensures a == b
  {
    var lo := if p < |a| then p else |a|;
    var hi := if p + 32 < |a| then p + 32 else |a|;
    SharedEnds(a, b, lo, hi);
    WindowDetected(c, a[..lo], a[lo..hi], b[lo..hi], a[hi..]);
    assert a[lo..hi] == b[lo..hi];
  }

  lemma {:induction false} StreamInjective(a: seq<int32>, b: seq<int32>)
    requires |a| == |b| && Stream(a) == Stream(b)
    ensures a == b
    decreases |a|
  {
    if a != [] {
      assert Stream(a)[..32] == WordOf(a[0]) && Stream(b)[..32] == WordOf(b[0]);
      assert Stream(a)[32..] == Stream(a[1..]) && Stream(b)[32..] == Stream(b[1..]);
      ElementRoundTrip(a[0], WordOf(a[0]));
      ElementRoundTrip(b[0], WordOf(b[0]));
      StreamInjective(a[1..], b[1..]);
      assert a == [a[0]] + a[1..] && b == [b[0]] + b[1..];
    }
  }

  lemma CrcInjective(a: seq<int32>, b: seq<int32>)
    requires |a| > 0 && |b| > 0 && CrcOf(a) == CrcOf(b)
    ensures Absorb(Fill(true), Words(a[..|a| - 1])) == Absorb(Fill(true), Words(b[..|b| - 1]))
  {
    var ra, rb := Absorb(Fill(true), Words(a[..|a| - 1])), Absorb(Fill(true), Words(b[..|b| - 1]));
    ElementRoundTrip(0, Xor(ra, Fill(true)));
    ElementRoundTrip(0, Xor(rb, Fill(true)));
    XorCancel(ra, rb, Fill(true));
  }

  /** Payloads that differ, and only within 32 consecutive bits of the stream (which may
      straddle two words), have different CRCs. */
  lemma BurstDetected(a: seq<int32>, b: seq<int32>, p: nat)
    requires |a| == |b| > 0
    requires var sa, sb := Stream(a[..|a| - 1]), Stream(b[..|b| - 1]);
             forall i :: 0 <= i < |sa| && sa[i] != sb[i] ==> p <= i < p + 32
    requires a[..|a| - 1] != b[..|b| - 1]
    ensures CrcOf(a) != CrcOf(b)
  {
    if CrcOf(a) == CrcOf(b) {
      var pa, pb := a[..|a| - 1], b[..|b| - 1];
      CrcInjective(a, b);
      AbsorbIsFeed(Fill(true), pa);
      AbsorbIsFeed(Fill(true), pb);
      StreamBurst(Fill(true), Stream(pa), Stream(pb), p);
      StreamInjective(pa, pb);
      assert false;
    }
  }

  // ---------- The residue ----------

  /** What the register holds after an array that ends in its own CRC. */
  function Residue(): Word {
    Cycle(Fill(true))
  }

  lemma {:induction false} AbsorbLast(c: Word, ws: seq<Word>, w: Word)
    ensures Absorb(c, ws + [w]) == Cycle(Xor(Absorb(c, ws), w))
    decreases |ws|
  {
    if ws == [] {
      assert (ws + [w])[1..] == [];
    } else {
      assert (ws + [w])[1..] == ws[1..] + [w];
      AbsorbLast(Cycle(Xor(c, ws[0])), ws[1..], w);
    }
  }

  lemma ComplementUnique(r: Word, w: Word)
    ensures Xor(r, w) == Fill(true) <==> w == Xor(r, Fill(true))
  {
    assert Xor(r, Xor(r, Fill(true))) == Fill(true);
    assert Xor(r, Xor(r, w)) == w;
  }

  lemma ResidueWord(r: Word, w: Word)
    ensures Cycle(Xor(r, w)) == Residue() <==> w == Xor(r, Fill(true))
  {
    ComplementUnique(r, w);
    if Cycle(Xor(r, w)) == Residue() {
      StepsInjective(Xor(r, w), Fill(true), |w|);
    }
  }

  /** An array ends in its own CRC if and only if the register over all of it is the residue. */
  lemma ResidueIffCrc(s: seq<int32>)
    requires |s| > 0
    ensures Absorb(Fill(true), Words(s)) == Residue() <==> s[|s| - 1] == CrcOf(s)
  {
    var payload := Words(s[..|s| - 1]);
    var r, last := Absorb(Fill(true), payload), WordOf(s[|s| - 1]);
    assert Words(s) == payload + [last];
    AbsorbLast(Fill(true), payload, last);
    ResidueWord(r, last);
    ElementRoundTrip(s[|s| - 1], Xor(r, Fill(true)));
  }

  // ---------- Every value is the CRC for one choice of a word ----------

  /** The register before a shift step. */
  function StepBack(c: Word): Word {
    if c[31] then [true] + Xor(c, Poly())[..31] else [false] + c[..31]
  }

  lemma StepOfStepBack(c: Word)
    ensures Step(StepBack(c)) == c
  {
    var mixed := Xor(c, Poly());
    assert ShiftRight([true] + mixed[..31]) == mixed[..31] + [false];
    assert c[31] ==> mixed == mixed[..31] + [false];
    assert Xor(mixed, Poly()) == c;
    assert ShiftRight([false] + c[..31]) == c[..31] + [false];
    assert !c[31] ==> c == c[..31] + [false];
  }

  lemma {:induction false} StepsOnto(c: Word, n: nat) returns (b: Word)
    ensures Steps(b, n) == c
    decreases n
  {
    if n == 0 {
      b := c;
    } else {
      var last := StepsOnto(c, n - 1);
      b := StepBack(last);
      StepOfStepBack(last);
    }
  }

  lemma CycleOnto(c: Word) returns (b: Word)
    ensures Cycle(b) == c
  {
    b := StepsOnto(c, |c|);
    assert |b| == |c|;
  }

  lemma XorTwice(a: Word, b: Word)
    ensures Xor(Xor(a, b), b) == a && Xor(b, Xor(a, b)) == a
  {}

  lemma {:induction false} AbsorbOnto(r: Word, ws: seq<Word>) returns (c: Word)
    ensures Absorb(c, ws) == r
    decreases |ws|
  {
    if ws == [] {
      c := r;
    } else {
      var next := AbsorbOnto(r, ws[1..]);
      var mixed := CycleOnto(next);
      XorTwice(mixed, ws[0]);
      c := Xor(mixed, ws[0]);
    }
  }

  lemma {:induction false} AbsorbInjective(a: Word, b: Word, ws: seq<Word>)
    requires Absorb(a, ws) == Absorb(b, ws)
    ensures a == b
    decreases |ws|
  {
    if ws != [] {
      var x, y := Xor(a, ws[0]), Xor(b, ws[0]);
      AbsorbInjective(Cycle(x), Cycle(y), ws[1..]);
      assert |x| == |y|;
      StepsInjective(x, y, |x|);
      XorCancel(a, b, ws[0]);
    }
  }

  lemma {:induction false} AbsorbAround(c: Word, a: seq<Word>, w: Word, b: seq<Word>)
    ensures Absorb(c, a + ([w] + b)) == Absorb(Cycle(Xor(Absorb(c, a), w)), b)
    decreases |a|
  {
    if a == [] {
      assert a + ([w] + b) == [w] + b && ([w] + b)[1..] == b;
    } else {
      assert (a + ([w] + b))[1..] == a[1..] + ([w] + b);
      AbsorbAround(Cycle(Xor(c, a[0])), a[1..], w, b);
    }
  }

  /** The register after the payload, around the word at `i`. */
  lemma RegisterAround(s: seq<int32>, i: nat, x: int32)
    requires i < |s| - 1
    ensures var ws := Words(s[..|s| - 1]);
            Absorb(Fill(true), Words(s[i := x][..|s| - 1]))
            == Absorb(Cycle(Xor(Absorb(Fill(true), ws[..i]), WordOf(x))), ws[i + 1..])
  {
    var ws := Words(s[..|s| - 1]);
    var changed := Words(s[i := x][..|s| - 1]);
    assert changed == ws[..i] + ([WordOf(x)] + ws[i + 1..]) by {
      assert forall k :: 0 <= k < |ws| ==> changed[k] == if k == i then WordOf(x) else ws[k];
    }
    AbsorbAround(Fill(true), ws[..i], WordOf(x), ws[i + 1..]);
  }

  /** Whatever the other words are, each value is the CRC for some choice of a payload word. */
  lemma CrcOnto(s: seq<int32>, i: nat, v: int32) returns (x: int32)
    requires i < |s| - 1
    ensures CrcOf(s[i := x]) == v
  {
    hide Xor, Absorb, Steps, BitsOf;
    var ws := Words(s[..|s| - 1]);
    var r := Xor(WordOf(v), Fill(true));
    var before := Absorb(Fill(true), ws[..i]);
    var after := AbsorbOnto(r, ws[i + 1..]);
    var mixed := CycleOnto(after);
    var w := Xor(mixed, before);
    x := ElementOf(w);
    ElementRoundTrip(v, w);
    XorTwice(mixed, before);
    XorTwice(WordOf(v), Fill(true));
    RegisterAround(s, i, x);
  }

  /** And no two choices give the same. */
  lemma WordUnique(s: seq<int32>, i: nat, x: int32, y: int32)
    requires i < |s| - 1 && CrcOf(s[i := x]) == CrcOf(s[i := y])
    ensures x == y
  {
    hide Xor, Absorb, Steps, BitsOf;
    var ws := Words(s[..|s| - 1]);
    var before := Absorb(Fill(true), ws[..i]);
    CrcInjective(s[i := x], s[i := y]);
    RegisterAround(s, i, x);
    RegisterAround(s, i, y);
    var p, q := Xor(before, WordOf(x)), Xor(before, WordOf(y));
    AbsorbInjective(Cycle(p), Cycle(q), ws[i + 1..]);
    assert |p| == |q|;
    StepsInjective(p, q, |p|);
    SecondCancel(before, WordOf(x), WordOf(y));
    ElementRoundTrip(x, WordOf(x));
    ElementRoundTrip(y, WordOf(y));
  }

  lemma SecondCancel(p: Word, a: Word, b: Word)
    requires Xor(p, a) == Xor(p, b)
    ensures a == b
  {
    forall i | 0 <= i < 32
      ensures a[i] == b[i]
    {
      assert Xor(p, a)[i] == Xor(p, b)[i];
    }
  }
}
