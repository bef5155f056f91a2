/** The 16/24-bit conversion of a CSPL configuration array (`convertto24bit`,
    `convertto16bit`): format words and opcodes are rewritten in place, with one word of
    lookahead, and the last word becomes the CRC of the result. */
module Converter {
  import opened Crc
  import opened CrcProperties

  /** `Done` is the return value 1, `Refused` is 0, `IndexError` is Python's uncaught exception. */
  datatype Outcome = Done | Refused | IndexError

  datatype Direction = To24 | To16 {
    function Back(): Direction {
      if To24? then To16 else To24
    }

    /** The format word expected at 14, 16, 18 and 20, and the one put there. */
    function OldFormat(): int32 {
      if To24? then 2 else 4
    }

    function NewFormat(): int32 {
      Back().OldFormat()
    }

    /** The opcode that stands for `x` in the other width. */
    function Translate(x: int32): int32 {
      if To24? then (if x == 17 then 53 else if x == 16 then 52 else x)
      else (if x == 53 then 17 else if x == 52 then 16 else x)
    }

    /** Word `x` followed by `next` is one this direction rewrites. */
    predicate Rewrites(x: int32, next: int32) {
      Translate(x) != x && if x == 17 || x == 53 then 0 <= next <= 3 else 4 <= next <= 5
    }

    function Opcode(x: int32, next: int32): int32 {
      if Rewrites(x, next) then Translate(x) else x
    }
  }

  predicate IsFormatIndex(i: int) {
    i == 14 || i == 16 || i == 18 || i == 20
  }

  /** The first of the three format positions after 14 that stops the conversion; 22 if none. */
  function FirstBad(s: seq<int32>, d: Direction): nat {
    if |s| <= 16 || s[16] != d.OldFormat() then 16
    else if |s| <= 18 || s[18] != d.OldFormat() then 18
    else if |s| <= 20 || s[20] != d.OldFormat() then 20
    else 22
  }

  predicate Convertible(s: seq<int32>, d: Direction) {
    |s| > 20 && s[14] == d.OldFormat() && FirstBad(s, d) == 22
  }

  /** Format words before position `k` replaced, nothing else. */
  function Marked(s: seq<int32>, d: Direction, k: nat): (r: seq<int32>)
    ensures |r| == |s|
  {
    seq(|s|, i requires 0 <= i < |s| => if IsFormatIndex(i) && i < k then d.NewFormat() else s[i])
  }

  /** Word `i` of the result, decided on the original words. */
  function RewrittenAt(s: seq<int32>, d: Direction, i: nat): int32
    requires i < |s|
  {
    if 21 <= i < |s| - 1 then d.Opcode(s[i], s[i + 1])
    else if IsFormatIndex(i) then d.NewFormat() else s[i]
  }

  /** All rewrites at once. */
  function Rewritten(s: seq<int32>, d: Direction): (r: seq<int32>)
    ensures |r| == |s|
    ensures forall i :: 0 <= i < |s| ==> r[i] == RewrittenAt(s, d, i)
  {
    seq(|s|, i requires 0 <= i < |s| => RewrittenAt(s, d, i))
  }

  function Converted(s: seq<int32>, d: Direction): (r: seq<int32>)
    requires |s| > 0
    ensures |r| == |s|
    ensures forall i :: 0 <= i < |s| - 1 ==> r[i] == RewrittenAt(s, d, i)
  {
    var r := Rewritten(s, d);
    r[|s| - 1 := CrcOf(r)]
  }

  function Verdict(s: seq<int32>, d: Direction): Outcome {
    if |s| <= 14 then IndexError
    else if s[14] == d.NewFormat() || Convertible(s, d) then Done
    else if s[14] == d.OldFormat() && FirstBad(s, d) >= |s| then IndexError
    else Refused
  }

  /** The array afterwards; a conversion that stops half-way leaves the words it had marked. */
  function After(s: seq<int32>, d: Direction): (r: seq<int32>)
    ensures |r| == |s|
  {
    if |s| <= 14 || s[14] != d.OldFormat() then s
    else if Convertible(s, d) then Converted(s, d)
    else Marked(s, d, FirstBad(s, d))
  }

  /** `convertto24bit`. */
  method ConvertTo24Bit(a: array<int32>) returns (r: Outcome)
    modifies a
    ensures r == Verdict(old(a[..]), To24)
    ensures a[..] == After(old(a[..]), To24)
    ensures GivesTo24(old(a[..]), r, a[..])
  {
    hide GivesTo24, CrcOf, RewrittenAt;
    ghost var s := a[..];
    To24Gives(s);
    if a.Length <= 14 { return IndexError; }
    if a[14] == 2 {
      a[14] := 4;
    } else if a[14] == 4 {
      return Done;
    } else {
      return Refused;
    }
    var ilist := [16, 18, 20];
    for k := 0 to 3
      invariant FirstBad(s, To24) >= 16 + 2 * k
      invariant a[..] == Marked(s, To24, 16 + 2 * k)
    {
      var i := ilist[k];
      if i >= a.Length { return IndexError; }
      if a[i] != 2 { return Refused; }
      a[i] := 4;
    }
    RewriteOpcodesTo24(a);
    RewrittenTo24(s, a[..]);
    var crc := GenerateCrc(a);
    a[a.Length - 1] := crc;
    r := Done;
  }

  /** The opcode loop of `convertto24bit`. */
  method RewriteOpcodesTo24(a: array<int32>)
    requires a.Length > 20
    modifies a
    ensures forall j :: 21 <= j < a.Length - 1 ==>
              a[j] == (if old(a[j]) == 17 && 0 <= old(a[j + 1]) <= 3 then 53
                       else if old(a[j]) == 16 && 4 <= old(a[j + 1]) <= 5 then 52
                       else old(a[j]))
    ensures forall j :: 0 <= j < a.Length && (j < 21 || j == a.Length - 1) ==> a[j] == old(a[j])
  {
    var i := 21;
    while i < a.Length - 1
      invariant 21 <= i && (i == 21 || i < a.Length)
      invariant forall j :: 21 <= j < i ==> a[j] == To24.Opcode(old(a[j]), old(a[j + 1]))
      invariant forall j :: 0 <= j < a.Length && (j < 21 || i <= j) ==> a[j] == old(a[j])
    {
      if a[i] == 17 {
        if a[i + 1] == 0 { a[i] := 53; }
        if a[i + 1] == 1 { a[i] := 53; }
        if a[i + 1] == 2 { a[i] := 53; }
        if a[i + 1] == 3 { a[i] := 53; }
      }
      if a[i] == 16 {
        if a[i + 1] == 5 { a[i] := 52; }
        if a[i + 1] == 4 { a[i] := 52; }
      }
      i := i + 1;
    }
  }

  /** `convertto16bit`. */
  method ConvertTo16Bit(a: array<int32>) returns (r: Outcome)
    modifies a
    ensures r == Verdict(old(a[..]), To16)
    ensures a[..] == After(old(a[..]), To16)
    ensures GivesTo16(old(a[..]), r, a[..])
  {
    hide GivesTo16, CrcOf, RewrittenAt;
    ghost var s := a[..];
    To16Gives(s);
    if a.Length <= 14 { return IndexError; }
    if a[14] == 4 {
      a[14] := 2;
    } else if a[14] == 2 {
      return Done;
    } else {
      return Refused;
    }
    var ilist := [16, 18, 20];
    for k := 0 to 3
      invariant FirstBad(s, To16) >= 16 + 2 * k
      invariant a[..] == Marked(s, To16, 16 + 2 * k)
    {
      var i := ilist[k];
      if i >= a.Length { return IndexError; }
      if a[i] != 4 { return Refused; }
      a[i] := 2;
    }
    RewriteOpcodesTo16(a);
    RewrittenTo16(s, a[..]);
    var crc := GenerateCrc(a);
    a[a.Length - 1] := crc;
    r := Done;
  }

  /** The opcode loop of `convertto16bit`. */
  method RewriteOpcodesTo16(a: array<int32>)
    requires a.Length > 20
    modifies a
    ensures forall j :: 21 <= j < a.Length - 1 ==>
              a[j] == (if old(a[j]) == 53 && 0 <= old(a[j + 1]) <= 3 then 17
                       else if old(a[j]) == 52 && 4 <= old(a[j + 1]) <= 5 then 16
                       else old(a[j]))
    ensures forall j :: 0 <= j < a.Length && (j < 21 || j == a.Length - 1) ==> a[j] == old(a[j])
  {
    var i := 21;
    while i < a.Length - 1
      invariant 21 <= i && (i == 21 || i < a.Length)
      invariant forall j :: 21 <= j < i ==> a[j] == To16.Opcode(old(a[j]), old(a[j + 1]))
      invariant forall j :: 0 <= j < a.Length && (j < 21 || i <= j) ==> a[j] == old(a[j])
    {
      if a[i] == 53 {
        if a[i + 1] == 0 { a[i] := 17; }
        if a[i + 1] == 1 { a[i] := 17; }
        if a[i + 1] == 2 { a[i] := 17; }
        if a[i + 1] == 3 { a[i] := 17; }
      }
      if a[i] == 52 {
        if a[i + 1] == 5 { a[i] := 16; }
        if a[i + 1] == 4 { a[i] := 16; }
      }
      i := i + 1;
    }
  }

  lemma RewrittenTo24(s: seq<int32>, t: seq<int32>)
    requires |s| == |t| > 20
    requires forall j :: 21 <= j < |s| - 1 ==>
               t[j] == (if s[j] == 17 && 0 <= s[j + 1] <= 3 then 53
                        else if s[j] == 16 && 4 <= s[j + 1] <= 5 then 52
                        else s[j])
    requires forall j :: 0 <= j < |s| && (j < 21 || j == |s| - 1) ==> t[j] == Marked(s, To24, 22)[j]
    ensures CrcOf(t) == CrcOf(Rewritten(s, To24))
    ensures forall j :: 0 <= j < |s| - 1 ==> t[j] == Rewritten(s, To24)[j]
  {
    hide CrcOf;
    CrcIgnoresLast(t, Rewritten(s, To24));
  }

  lemma RewrittenTo16(s: seq<int32>, t: seq<int32>)
    requires |s| == |t| > 20
    requires forall j :: 21 <= j < |s| - 1 ==>
               t[j] == (if s[j] == 53 && 0 <= s[j + 1] <= 3 then 17
                        else if s[j] == 52 && 4 <= s[j + 1] <= 5 then 16
                        else s[j])
    requires forall j :: 0 <= j < |s| && (j < 21 || j == |s| - 1) ==> t[j] == Marked(s, To16, 22)[j]
    ensures CrcOf(t) == CrcOf(Rewritten(s, To16))
    ensures forall j :: 0 <= j < |s| - 1 ==> t[j] == Rewritten(s, To16)[j]
  {
    hide CrcOf;
    CrcIgnoresLast(t, Rewritten(s, To16));
  }

  lemma CrcIgnoresLast(s: seq<int32>, t: seq<int32>)
    requires |s| == |t| > 0
    requires forall j :: 0 <= j < |s| - 1 ==> s[j] == t[j]
    ensures CrcOf(s) == CrcOf(t)
  {
    assert s[..|s| - 1] == t[..|t| - 1];
  }

  // ---------- What a completed conversion gives ----------

  /** Only format words, opcodes with a matching operand and the CRC word change, every opcode
      decides on the original neighbour, and the register run over the result is the residue. */
  lemma ConversionEffect(s: seq<int32>, d: Direction)
    requires Convertible(s, d)
    ensures var t := Converted(s, d);
            && (forall i :: 0 <= i < |s| && t[i] != s[i] ==>
                  IsFormatIndex(i) || i == |s| - 1 || (21 <= i < |s| - 1 && d.Rewrites(s[i], s[i + 1])))
            && (forall i :: 21 <= i < |s| - 1 ==> t[i] == d.Opcode(s[i], s[i + 1]))
            && t[|s| - 1] == CrcOf(t)
            && Absorb(Fill(true), Words(t)) == Residue()
  {
    var t := Converted(s, d);
    forall i | 0 <= i < |s| && t[i] != s[i]
      ensures IsFormatIndex(i) || i == |s| - 1 || (21 <= i < |s| - 1 && d.Rewrites(s[i], s[i + 1]))
    {
      assert i == |s| - 1 || t[i] == RewrittenAt(s, d, i);
    }
    CrcIgnoresLast(t, Rewritten(s, d));
    ResidueIffCrc(t);
  }

  // ---------- The conversions number by number ----------

  /** `t` is the array `s` in 24-bit form. */
  predicate IsConvertedTo24(s: seq<int32>, t: seq<int32>) {
    && |t| == |s| > 20
    && s[14] == s[16] == s[18] == s[20] == 2
    && (forall i :: 0 <= i < 21 && i < |s| - 1 ==>
          t[i] == if i == 14 || i == 16 || i == 18 || i == 20 then 4 else s[i])
    && (forall i :: 21 <= i < |s| - 1 ==>
          t[i] == if s[i] == 17 && 0 <= s[i + 1] <= 3 then 53
                  else if s[i] == 16 && 4 <= s[i + 1] <= 5 then 52 else s[i])
    && t[|s| - 1] == CrcOf(t)
  }

  /** What `convertto24bit` returns and leaves, for any array: `s` before, `t` afterwards. */
  predicate GivesTo24(s: seq<int32>, r: Outcome, t: seq<int32>) {
    if |s| <= 14 then r == IndexError && t == s
    else if s[14] == 4 then r == Done && t == s
    else if s[14] != 2 then r == Refused && t == s
    else if |s| > 20 && s[16] == s[18] == s[20] == 2 then r == Done && IsConvertedTo24(s, t)
    else
      && (r == IndexError <==> |s| <= 16 || (s[16] == 2 && (|s| <= 18 || (s[18] == 2 && |s| <= 20))))
      && (r == Refused <==> r != IndexError)
      && |t| == |s|
      && forall i :: 0 <= i < |s| ==>
           t[i] == if i == 14 || (i == 16 && s[16] == 2) || (i == 18 && s[16] == s[18] == 2) then 4
                   else s[i]
  }

  /** `t` is the array `s` in 16-bit form. */
  predicate IsConvertedTo16(s: seq<int32>, t: seq<int32>) {
    && |t| == |s| > 20
    && s[14] == s[16] == s[18] == s[20] == 4
    && (forall i :: 0 <= i < 21 && i < |s| - 1 ==>
          t[i] == if i == 14 || i == 16 || i == 18 || i == 20 then 2 else s[i])
    && (forall i :: 21 <= i < |s| - 1 ==>
          t[i] == if s[i] == 53 && 0 <= s[i + 1] <= 3 then 17
                  else if s[i] == 52 && 4 <= s[i + 1] <= 5 then 16 else s[i])
    && t[|s| - 1] == CrcOf(t)
  }

  /** What `convertto16bit` returns and leaves, for any array: `s` before, `t` afterwards. */
  predicate GivesTo16(s: seq<int32>, r: Outcome, t: seq<int32>) {
    if |s| <= 14 then r == IndexError && t == s
    else if s[14] == 2 then r == Done && t == s
    else if s[14] != 4 then r == Refused && t == s
    else if |s| > 20 && s[16] == s[18] == s[20] == 4 then r == Done && IsConvertedTo16(s, t)
    else
      && (r == IndexError <==> |s| <= 16 || (s[16] == 4 && (|s| <= 18 || (s[18] == 4 && |s| <= 20))))
      && (r == Refused <==> r != IndexError)
      && |t| == |s|
      && forall i :: 0 <= i < |s| ==>
           t[i] == if i == 14 || (i == 16 && s[16] == 4) || (i == 18 && s[16] == s[18] == 4) then 2
                   else s[i]
  }

  lemma CompletesTo24(s: seq<int32>)
    requires Convertible(s, To24)
    ensures IsConvertedTo24(s, Converted(s, To24))
  {
    hide CrcOf;
    ConversionEffect(s, To24);
  }

  lemma To24Gives(s: seq<int32>)
    ensures GivesTo24(s, Verdict(s, To24), After(s, To24))
  {
    hide CrcOf, Converted, IsConvertedTo24;
    if Convertible(s, To24) {
      CompletesTo24(s);
    }
  }

  lemma CompletesTo16(s: seq<int32>)
    requires Convertible(s, To16)
    ensures IsConvertedTo16(s, Converted(s, To16))
  {
    hide CrcOf;
    ConversionEffect(s, To16);
  }

  lemma To16Gives(s: seq<int32>)
    ensures GivesTo16(s, Verdict(s, To16), After(s, To16))
  {
    hide CrcOf, Converted, IsConvertedTo16;
    if Convertible(s, To16) {
      CompletesTo16(s);
    }
  }

  /** No word of the rewritten range is already an opcode of the target width with an operand. */
  predicate NoTargetPair(s: seq<int32>, d: Direction) {
    forall i :: 21 <= i < |s| - 2 ==> !d.Back().Rewrites(s[i], s[i + 1])
  }

  /** The word before the CRC looks ahead at the CRC itself, `before` on the way out and
      `after` on the way back: a rewritten opcode needs both to be operands, an opcode of the
      target width must not meet one on the way back. */
  predicate TailReturns(x: int32, before: int32, after: int32, d: Direction) {
    if d.Rewrites(x, before) then d.Back().Rewrites(d.Translate(x), after)
    else !d.Back().Rewrites(x, after)
  }

  /** A rewrite never turns an operand into a non-operand or back. */
  lemma OperandsStay(x: int32, y: int32, next: int32, d: Direction, e: Direction)
    ensures e.Rewrites(x, d.Opcode(y, next)) == e.Rewrites(x, y)
  {}

  lemma OpcodeReturns(x: int32, before: int32, after: int32, d: Direction)
    ensures d.Back().Opcode(d.Opcode(x, before), after) == x <==> TailReturns(x, before, after, d)
  {}

  lemma OpcodeReturnsAt(s: seq<int32>, d: Direction, i: nat)
    requires Convertible(s, d) && 21 <= i < |s| - 2
    ensures Rewritten(Converted(s, d), d.Back())[i] == s[i] <==> !d.Back().Rewrites(s[i], s[i + 1])
  {
    var t := Converted(s, d);
    assert t[i] == d.Opcode(s[i], s[i + 1]) && t[i + 1] == d.Opcode(s[i + 1], s[i + 2]);
    OperandsStay(t[i], s[i + 1], s[i + 2], d, d.Back());
    OpcodeReturns(s[i], s[i + 1], t[i + 1], d);
    OperandsStay(s[i], s[i + 1], s[i + 2], d, d.Back());
    OperandsStay(d.Translate(s[i]), s[i + 1], s[i + 2], d, d.Back());
  }

  lemma OpcodeReturnsAtTail(s: seq<int32>, d: Direction)
    requires Convertible(s, d) && |s| >= 22
    ensures var t := Converted(s, d);
            Rewritten(t, d.Back())[|s| - 2] == s[|s| - 2] <==>
              TailReturns(s[|s| - 2], s[|s| - 1], t[|s| - 1], d)
  {
    FormatsReturn(s, d);
    if |s| > 22 {
      var t, i := Converted(s, d), |s| - 2;
      assert t[i] == d.Opcode(s[i], s[i + 1]);
      OpcodeReturns(s[i], s[i + 1], t[i + 1], d);
    }
  }

  lemma FormatsReturn(s: seq<int32>, d: Direction)
    requires Convertible(s, d) && |s| >= 22
    ensures Convertible(Converted(s, d), d.Back())
    ensures forall i :: 0 <= i < 21 ==> Rewritten(Converted(s, d), d.Back())[i] == s[i]
  {}

  lemma PayloadReturns(s: seq<int32>, d: Direction)
    requires Convertible(s, d) && |s| >= 22
    ensures var t := Converted(s, d);
            Rewritten(t, d.Back())[..|s| - 1] == s[..|s| - 1] <==>
              NoTargetPair(s, d) && TailReturns(s[|s| - 2], s[|s| - 1], t[|s| - 1], d)
  {
    var u := Rewritten(Converted(s, d), d.Back());
    FormatsReturn(s, d);
    OpcodeReturnsAtTail(s, d);
    forall i | 21 <= i < |s| - 2
      ensures u[i] == s[i] <==> !d.Back().Rewrites(s[i], s[i + 1])
    {
      OpcodeReturnsAt(s, d, i);
    }
    if u[..|s| - 1] == s[..|s| - 1] {
      forall i | 0 <= i < |s| - 1
        ensures u[i] == s[i]
      {
        assert u[..|s| - 1][i] == s[..|s| - 1][i];
      }
    }
  }

  /** Converting to the other width and back restores the whole array, CRC word included,
      exactly when the array ends in its CRC, holds no target pair, and its last payload word
      survives the two CRC words it looks ahead at, its own and that of the rewritten words. */
  lemma RoundTripIff(s: seq<int32>, d: Direction)
    requires Convertible(s, d) && |s| >= 22
    ensures After(Converted(s, d), d.Back()) == s <==>
              && s[|s| - 1] == CrcOf(s)
              && NoTargetPair(s, d)
              && TailReturns(s[|s| - 2], s[|s| - 1], CrcOf(Rewritten(s, d)), d)
  {
    FormatsReturn(s, d);
    PayloadReturns(s, d);
    LastReturns(Converted(s, d), s, d.Back());
  }

  lemma LastReturns(t: seq<int32>, s: seq<int32>, d: Direction)
    requires |t| == |s| > 0
    ensures Converted(t, d) == s <==>
              Rewritten(t, d)[..|s| - 1] == s[..|s| - 1] && s[|s| - 1] == CrcOf(s)
  {
    hide CrcOf, RewrittenAt;
    var r, u, n := Rewritten(t, d), Converted(t, d), |s| - 1;
    assert u[..n] == r[..n] && u[n] == CrcOf(r);
    assert u == u[..n] + [u[n]] && s == s[..n] + [s[n]];
    if r[..n] == s[..n] {
      assert forall j :: 0 <= j < n ==> r[j] == r[..n][j] && s[j] == s[..n][j];
      CrcIgnoresLast(r, s);
    }
  }

  /** The condition without the new CRC: the last payload word is no opcode of either width. */
  lemma RoundTrip(s: seq<int32>, d: Direction)
    requires Convertible(s, d) && |s| >= 22
    requires s[|s| - 1] == CrcOf(s) && NoTargetPair(s, d)
    requires s[|s| - 2] !in {16, 17, 52, 53}
    ensures Verdict(Converted(s, d), d.Back()) == Done
    ensures After(Converted(s, d), d.Back()) == s
  {
    RoundTripIff(s, d);
    FormatsReturn(s, d);
  }

  /** With 21 words the last format word is the CRC word itself, and the new CRC has to look
      like a format for the way back to go through. */
  lemma RoundTripShort(s: seq<int32>, d: Direction)
    requires Convertible(s, d) && |s| == 21
    ensures var t := Converted(s, d);
            Verdict(t, d.Back()) == Done && After(t, d.Back()) == s <==>
              CrcOf(Rewritten(s, d)) == d.NewFormat() && s[20] == CrcOf(s)
  {
    hide CrcOf;
    var t := Converted(s, d);
    if t[20] == d.NewFormat() {
      assert Convertible(t, d.Back());
      LastReturns(t, s, d.Back());
    }
  }

  // ---------- Arrays that do not come back ----------

  /** 24 words in one format, the payload ending in `x`, `y`. */
  function Payload(format: int32, x: int32, y: int32): (s: seq<int32>)
    ensures |s| == 24
  {
    seq(24, i => if IsFormatIndex(i) then format else if i == 21 then x else if i == 22 then y else 0)
  }

  /** The same with its own CRC. */
  function Sample(format: int32, x: int32, y: int32): (s: seq<int32>)
    ensures |s| == 24
  {
    var p := Payload(format, x, y);
    p[23 := CrcOf(p)]
  }

  lemma SampleShows(x: int32, y: int32)
    ensures var s := Sample(2, x, y);
            Convertible(s, To24) && s[21] == x && s[22] == y && s[23] == CrcOf(s)
  {
    hide CrcOf;
    CrcIgnoresLast(Payload(2, x, y), Sample(2, x, y));
  }

  /** A pair of the other width, here opcode 53 before operand 0, comes back as 17, 0. */
  lemma TargetPairLost(s: seq<int32>)
    requires s == Sample(2, 53, 0)
    ensures Convertible(s, To24) && s[|s| - 1] == CrcOf(s) && s[|s| - 2] !in {16, 17, 52, 53}
    ensures To16.Rewrites(s[21], s[22]) && After(Converted(s, To24), To16) != s
  {
    hide CrcOf, Sample, After, Converted;
    SampleShows(53, 0);
    RoundTripIff(s, To24);
  }

  /** An opcode 53 as the last payload word is lost when the new CRC happens to be an operand:
      there is an array with a valid CRC and no target pair for which it is 0. */
  lemma TailOpcodeLost() returns (s: seq<int32>)
    ensures Convertible(s, To24) && |s| == 24
    ensures s[|s| - 1] == CrcOf(s) && NoTargetPair(s, To24) && s[|s| - 2] == 53
    ensures After(Converted(s, To24), To16) != s
  {
    hide CrcOf, After, Converted;
    var p := Payload(4, 0, 53);
    var x := CrcOnto(p, 21, 0);
    s := Sample(2, x, 53);
    SampleShows(x, 53);
    SampleRewritten(x);
    assert p[21 := x] == Payload(4, x, 53);
    CrcIgnoresLast(Rewritten(s, To24), Payload(4, x, 53));
    RoundTripIff(s, To24);
  }

  lemma SampleRewritten(x: int32)
    ensures var r := Rewritten(Sample(2, x, 53), To24);
            forall j :: 0 <= j < 23 ==> r[j] == Payload(4, x, 53)[j]
  {
    hide CrcOf;
  }
}
