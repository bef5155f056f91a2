/** The archive writer of the dumpstate service (`tarHeader`, `tarCheckSum`, `createTarFile`)
    and a reader of the ustar format that stops at the end of the data. */
module Tar {
  import opened Common

  const BLOCK := 512

  function Zeros(n: nat): (z: seq<byte>)
    ensures |z| == n
  {
    seq(n, _ => 0)
  }

  // ---------- Octal fields ----------

  function Pow8(n: nat): (p: nat)
    ensures p >= 1
  {
    if n == 0 then 1 else 8 * Pow8(n - 1)
  }

  /** `%0<w>o` for a value of at most `w` digits. */
  function Octal(v: nat, w: nat): (t: seq<byte>)
    ensures |t| == w
    ensures forall i :: 0 <= i < w ==> 48 <= t[i] < 56
    decreases w, v
  {
    if w == 0 then [] else Octal(v / 8, w - 1) + [48 + v % 8]
  }

  function OctalValue(t: seq<byte>): nat
    requires forall i :: 0 <= i < |t| ==> 48 <= t[i] < 56
  {
    if t == [] then 0 else 8 * OctalValue(t[..|t| - 1]) + (t[|t| - 1] - 48)
  }

  lemma {:induction false} OctalRoundTrip(v: nat, w: nat)
    requires v < Pow8(w)
    ensures OctalValue(Octal(v, w)) == v
    decreases w
  {
    if w > 0 {
      OctalRoundTrip(v / 8, w - 1);
      assert Octal(v, w)[..w - 1] == Octal(v / 8, w - 1);
    }
  }

  /** The leading octal digits of a field. */
  function DigitRun(t: seq<byte>): (k: nat)
    ensures k <= |t|
    ensures forall i :: 0 <= i < k ==> 48 <= t[i] < 56
  {
    if t == [] || !(48 <= t[0] < 56) then 0 else 1 + DigitRun(t[1..])
  }

  /** An octal field ends in a NUL or a space. */
  function ParseOctal(t: seq<byte>): Option<nat> {
    var k := DigitRun(t);
    if k == 0 || k == |t| || !(t[k] == 0 || t[k] == 32) then None else Some(OctalValue(t[..k]))
  }

  lemma {:induction false} DigitRunAt(digits: seq<byte>, rest: seq<byte>)
    requires forall i :: 0 <= i < |digits| ==> 48 <= digits[i] < 56
    requires rest != [] && !(48 <= rest[0] < 56)
    ensures DigitRun(digits + rest) == |digits|
    decreases |digits|
  {
    if digits == [] {
      assert digits + rest == rest;
    } else {
      DigitRunAt(digits[1..], rest);
      assert (digits + rest)[1..] == digits[1..] + rest;
    }
  }

  lemma OctalFieldParses(v: nat, w: nat, rest: seq<byte>)
    requires 0 < w && v < Pow8(w)
    requires rest != [] && rest[0] in {0, 32}
    ensures ParseOctal(Octal(v, w) + rest) == Some(v)
  {
    DigitRunAt(Octal(v, w), rest);
    assert (Octal(v, w) + rest)[..w] == Octal(v, w);
    OctalRoundTrip(v, w);
  }

  // ---------- The header ----------

  predicate CString(s: seq<byte>) {
    forall i :: 0 <= i < |s| ==> s[i] != 0
  }

  /** `text` over the bytes of `h` from `at` on. */
  function Put(h: seq<byte>, at: nat, text: seq<byte>): (r: seq<byte>)
    requires at + |text| <= |h|
    ensures |r| == |h|
  {
    h[..at] + text + h[at + |text|..]
  }

  const USTAR: seq<byte> := [117, 115, 116, 97, 114]

  function Sum(s: seq<byte>): (n: nat)
    ensures n <= 255 * |s|
  {
    if s == [] then 0 else Sum(s[..|s| - 1]) + s[|s| - 1]
  }

  /** The checksum field as eight spaces. */
  function Blanked(h: seq<byte>): (r: seq<byte>)
    requires |h| == BLOCK
    ensures |r| == BLOCK
  {
    Put(h, 148, [32, 32, 32, 32, 32, 32, 32, 32])
  }

  /** The fields set before the checksum. */
  function Fields(name: seq<byte>, size: nat): (h: seq<byte>)
    requires |name| < 100
    ensures |h| == BLOCK
  {
    var named := Put(Zeros(BLOCK), 0, name + [0]);
    var sized := Put(Put(named, 100, Octal(0x180, 7) + [0]), 124, Octal(size, 11) + [0]);
    var typed := Put(Put(sized, 136, Octal(0, 11) + [0]), 156, [48]);
    Put(Put(typed, 257, USTAR + [0]), 263, [32] + [0])
  }

  function Header(name: seq<byte>, size: nat): (h: seq<byte>)
    requires |name| < 100
    ensures |h| == BLOCK
  {
    var blanked := Blanked(Fields(name, size));
    Put(blanked, 148, Octal(Sum(blanked), 6) + [0])
  }

  /** `strcpy` and `sprintf` into a field: the text and its terminating NUL. */
  method Store(h: array<byte>, at: nat, text: seq<byte>)
    requires at + |text| < h.Length
    modifies h
    ensures h[..] == Put(old(h[..]), at, text + [0])
  {
    for i := 0 to |text|
      invariant forall j :: 0 <= j < i ==> h[at + j] == text[j]
      invariant forall j :: 0 <= j < h.Length && (j < at || at + i <= j) ==> h[j] == old(h[j])
    {
      h[at + i] := text[i];
    }
    h[at + |text|] := 0;
  }

  method SetByte(h: array<byte>, at: nat, b: byte)
    requires at < h.Length
    modifies h
    ensures h[..] == Put(old(h[..]), at, [b])
  {
    h[at] := b;
  }

  /** `tarCheckSum`: blanks the field and adds up the header. */
  method TarCheckSum(h: array<byte>) returns (sum: nat)
    requires h.Length == BLOCK
    modifies h
    ensures h[..] == Blanked(old(h[..]))
    ensures sum == Sum(h[..])
  {
    for i := 0 to 8
      invariant h[..] == Put(old(h[..]), 148, seq(i, _ => 32))
    {
      h[148 + i] := 32;
    }
    sum := 0;
    for p := 0 to BLOCK
      invariant sum == Sum(h[..p])
    {
      assert h[..p + 1][..p] == h[..p];
      sum := sum + h[p];
    }
    assert h[..BLOCK] == h[..];
  }

  /** `memset` to zero. */
  method Clear(h: array<byte>)
    modifies h
    ensures h[..] == Zeros(h.Length)
  {
    for i := 0 to h.Length
      invariant forall j :: 0 <= j < i ==> h[j] == 0
    {
      h[i] := 0;
    }
  }

  /** `tarHeader`. */
  method TarHeader(h: array<byte>, name: seq<byte>, size: nat)
    requires h.Length == BLOCK && |name| < 100 && size < Pow8(11)
    modifies h
    ensures h[..] == Header(name, size)
  {
    Clear(h);
    Store(h, 0, name);
    Store(h, 100, Octal(0x180, 7));
    Store(h, 124, Octal(size, 11));
    Store(h, 136, Octal(0, 11));
    SetByte(h, 156, 48);
    Store(h, 257, USTAR);
    Store(h, 263, [32]);
    var sum := TarCheckSum(h);
    Store(h, 148, Octal(sum, 6));
  }

  // ---------- What a header says ----------

  lemma PutShows(h: seq<byte>, at: nat, text: seq<byte>)
    requires at + |text| <= |h|
    ensures Put(h, at, text)[at..at + |text|] == text
  {}

  lemma PutKeeps(h: seq<byte>, at: nat, text: seq<byte>, lo: nat, hi: nat)
    requires at + |text| <= |h| && lo <= hi <= |h|
    requires hi <= at || at + |text| <= lo
    ensures Put(h, at, text)[lo..hi] == h[lo..hi]
  {}

  lemma FieldsShow(name: seq<byte>, size: nat)
    requires |name| < 100
    ensures var h := Fields(name, size);
            && h[0..|name| + 1] == name + [0]
            && h[124..136] == Octal(size, 11) + [0]
            && h[156..157] == [48]
            && h[257..263] == USTAR + [0]
  {
    var n := |name| + 1;
    var h1 := Put(Zeros(BLOCK), 0, name + [0]);
    var h2 := Put(h1, 100, Octal(0x180, 7) + [0]);
    var h3 := Put(h2, 124, Octal(size, 11) + [0]);
    var h4 := Put(h3, 136, Octal(0, 11) + [0]);
    var h5 := Put(h4, 156, [48]);
    var h6 := Put(h5, 257, USTAR + [0]);
    PutShows(Zeros(BLOCK), 0, name + [0]);
    PutShows(h2, 124, Octal(size, 11) + [0]);
    PutShows(h4, 156, [48]);
    PutShows(h5, 257, USTAR + [0]);
    PutKeeps(h1, 100, Octal(0x180, 7) + [0], 0, n);
    PutKeeps(h2, 124, Octal(size, 11) + [0], 0, n);
    PutKeeps(h3, 136, Octal(0, 11) + [0], 0, n);
    PutKeeps(h3, 136, Octal(0, 11) + [0], 124, 136);
    PutKeeps(h4, 156, [48], 0, n);
    PutKeeps(h4, 156, [48], 124, 136);
    PutKeeps(h5, 257, USTAR + [0], 0, n);
    PutKeeps(h5, 257, USTAR + [0], 124, 136);
    PutKeeps(h5, 257, USTAR + [0], 156, 157);
    PutKeeps(h6, 263, [32] + [0], 0, n);
    PutKeeps(h6, 263, [32] + [0], 124, 136);
    PutKeeps(h6, 263, [32] + [0], 156, 157);
    PutKeeps(h6, 263, [32] + [0], 257, 263);
  }

  lemma PutAt(h: seq<byte>, at: nat, text: seq<byte>, i: nat)
    requires at + |text| <= |h| && i < |h|
    ensures Put(h, at, text)[i] == if at <= i < at + |text| then text[i - at] else h[i]
  {}

  lemma {:induction false} OctalOfZero(w: nat, i: nat)
    requires i < w
    ensures Octal(0, w)[i] == 48
    decreases w
  {
    if i < w - 1 {
      OctalOfZero(w - 1, i);
    }
  }

  /** 0600. */
  lemma OctalOfMode()
    ensures Octal(0x180, 7) == [48, 48, 48, 48, 54, 48, 48]
  {
    assert Octal(0, 4) == [48, 48, 48, 48] by {
      forall i | 0 <= i < 4 ensures Octal(0, 4)[i] == 48 { OctalOfZero(4, i); }
    }
    assert Octal(6, 5) == Octal(0, 4) + [54];
    assert Octal(48, 6) == Octal(6, 5) + [48];
    assert Octal(0x180, 7) == Octal(48, 6) + [48];
  }

  lemma FieldsAt(name: seq<byte>, size: nat, i: nat)
    requires |name| < 100 && i < 512
    ensures Fields(name, size)[i] ==
              if i < |name| then name[i]
              else if 100 <= i < 107 then [48, 48, 48, 48, 54, 48, 48][i - 100]
              else if 124 <= i < 135 then Octal(size, 11)[i - 124]
              else if 136 <= i < 147 || i == 156 then 48
              else if 257 <= i < 262 then [117, 115, 116, 97, 114][i - 257]
              else if i == 263 then 32 else 0
  {
    hide Put;
    var h1 := Put(Zeros(BLOCK), 0, name + [0]);
    var h2 := Put(h1, 100, Octal(0x180, 7) + [0]);
    var h3 := Put(h2, 124, Octal(size, 11) + [0]);
    var h4 := Put(h3, 136, Octal(0, 11) + [0]);
    var h5 := Put(h4, 156, [48]);
    var h6 := Put(h5, 257, USTAR + [0]);
    PutAt(Zeros(BLOCK), 0, name + [0], i);
    PutAt(h1, 100, Octal(0x180, 7) + [0], i);
    PutAt(h2, 124, Octal(size, 11) + [0], i);
    PutAt(h3, 136, Octal(0, 11) + [0], i);
    PutAt(h4, 156, [48], i);
    PutAt(h5, 257, USTAR + [0], i);
    PutAt(h6, 263, [32] + [0], i);
    hide Octal;
    OctalOfMode();
    if 136 <= i < 147 {
      OctalOfZero(11, i - 136);
    }
  }

  /** The checksum field is blanked by spaces, and every byte counts once. */
  lemma BlankedAt(h: seq<byte>, i: nat)
    requires |h| == 512 && i < 512
    ensures Blanked(h)[i] == if 148 <= i < 156 then 32 else h[i]
  {}

  lemma {:induction false} SumTogether(a: seq<byte>, b: seq<byte>)
    ensures Sum(a + b) == Sum(a) + Sum(b)
    ensures Sum([]) == 0 && forall x: byte :: Sum([x]) == x
    decreases |b|
  {
    forall x: byte
      ensures Sum([x]) == x
    {
      assert [x][..0] == [];
    }
    if b == [] {
      assert a + b == a;
    } else {
      SumTogether(a, b[..|b| - 1]);
      assert (a + b)[..|a + b| - 1] == a + b[..|b| - 1];
    }
  }

  /** The header byte by byte: name, mode 0600, size, time 0, checksum, type, magic and version
      at their places, zeros everywhere else. */
  lemma HeaderAt(name: seq<byte>, size: nat, i: nat)
    requires |name| < 100 && i < 512
    ensures Header(name, size)[i] ==
              if i < |name| then name[i]
              else if 100 <= i < 107 then [48, 48, 48, 48, 54, 48, 48][i - 100]
              else if 124 <= i < 135 then Octal(size, 11)[i - 124]
              else if 136 <= i < 147 || i == 156 then 48
              else if 148 <= i < 154 then Octal(Sum(Blanked(Header(name, size))), 6)[i - 148]
              else if 257 <= i < 262 then [117, 115, 116, 97, 114][i - 257]
              else if i == 155 || i == 263 then 32 else 0
  {
    HeaderShows(name, size);
    hide Octal, Put;
    var blanked := Blanked(Fields(name, size));
    PutAt(blanked, 148, Octal(Sum(blanked), 6) + [0], i);
    BlankedAt(Fields(name, size), i);
    FieldsAt(name, size, i);
  }

  const SPACES: seq<byte> := [32, 32, 32, 32, 32, 32, 32, 32]

  lemma HeaderShows(name: seq<byte>, size: nat)
    requires |name| < 100
    ensures var h := Header(name, size);
            && h[0..|name| + 1] == name + [0]
            && h[124..136] == Octal(size, 11) + [0]
            && h[156..157] == [48]
            && h[257..263] == USTAR + [0]
            && Blanked(h) == Blanked(Fields(name, size))
            && h[148..156] == Octal(Sum(Blanked(h)), 6) + [0, 32]
  {
    var f, n := Fields(name, size), |name| + 1;
    var b := Blanked(f);
    var chk := Octal(Sum(b), 6) + [0];
    var h := Put(b, 148, chk);
    FieldsShow(name, size);
    PutKeeps(f, 148, SPACES, 0, n);
    PutKeeps(f, 148, SPACES, 124, 136);
    PutKeeps(f, 148, SPACES, 156, 157);
    PutKeeps(f, 148, SPACES, 257, 263);
    PutKeeps(b, 148, chk, 0, n);
    PutKeeps(b, 148, chk, 124, 136);
    PutKeeps(b, 148, chk, 156, 157);
    PutKeeps(b, 148, chk, 257, 263);
    PutShows(b, 148, chk);
    PutShows(f, 148, SPACES);
    assert b[155] == b[148..156][7] == 32;
    assert h[155] == 32;
    assert h[148..156] == h[148..155] + [h[155]];
    ChecksumWithinSpaces(f, chk);
  }

  lemma ChecksumWithinSpaces(f: seq<byte>, chk: seq<byte>)
    requires |f| == BLOCK && |chk| == 7
    ensures Blanked(Put(Blanked(f), 148, chk)) == Blanked(f)
  {
    var b := Blanked(f);
    var h := Put(b, 148, chk);
    assert h[..148] == b[..148] == f[..148];
    assert h[156..] == b[156..] == f[156..];
  }

  /** The checksum is at most 130560, so six octal digits hold it, and a verifier that parses
      the field and adds up the header with the field blank gets the same number. */
  lemma ChecksumVerifies(name: seq<byte>, size: nat)
    requires |name| < 100
    ensures var h := Header(name, size);
            Sum(Blanked(h)) <= 130560 && ParseOctal(h[148..156]) == Some(Sum(Blanked(h)))
  {
    HeaderShows(name, size);
    assert Pow8(6) == 262144;
    OctalFieldParses(Sum(Blanked(Header(name, size))), 6, [0, 32]);
  }

  // ---------- The archive ----------

  /** A directory entry as `readdir`, `open` and `read` present it; `accepted` says whether the
      header write for it succeeds. */
  datatype Source = Source(name: seq<byte>, openable: bool, accepted: bool, content: seq<byte>)

  datatype Entry = Entry(name: seq<byte>, content: seq<byte>)

  predicate Opened(f: Source) {
    !(f.name != [] && f.name[0] == 46) && f.openable
  }

  predicate Skipped(f: Source) {
    !Opened(f) || !f.accepted
  }

  /** What `strcpy` and `%011llo` have room for. */
  predicate Fits(f: Source) {
    !Opened(f) || (CString(f.name) && |f.name| < 100 && |f.content| < Pow8(11))
  }

  predicate AllFit(dir: seq<Source>) {
    forall i :: 0 <= i < |dir| ==> Fits(dir[i])
  }

  function Padding(size: nat): nat {
    (BLOCK - size % BLOCK) % BLOCK
  }

  /** A file's header, contents and padding. */
  function Member(f: Source): seq<byte>
    requires Fits(f) && !Skipped(f)
  {
    Header(f.name, |f.content|) + (f.content + Zeros(Padding(|f.content|)))
  }

  function Archive(dir: seq<Source>): seq<byte>
    requires AllFit(dir)
  {
    if dir == [] then []
    else if Skipped(dir[0]) then Archive(dir[1..])
    else Member(dir[0]) + Archive(dir[1..])
  }

  lemma WrittenTwice(file: seq<byte>, pos: nat, a: seq<byte>, b: seq<byte>)
    requires pos <= |file|
    ensures pos + |a| <= |Written(file, pos, a)|
    ensures Written(Written(file, pos, a), pos + |a|, b) == Written(file, pos, a + b)
  {}

  lemma WrittenNothing(file: seq<byte>, pos: nat)
    requires pos <= |file|
    ensures Written(file, pos, []) == file
  {}

  /** The read loop: chunks of at most BUFSIZE bytes until the end of the file. */
  method AppendContent(tar: seq<byte>, tarLen: nat, content: seq<byte>) returns (r: seq<byte>, len: nat)
    requires tarLen <= |tar|
    ensures r == Written(tar, tarLen, content)
    ensures len == tarLen + |content|
  {
    hide Written;
    r, len := tar, tarLen;
    WrittenNothing(tar, tarLen);
    var pos := 0;
    while pos < |content|
      invariant pos <= |content| && len == tarLen + pos
      invariant r == Written(tar, tarLen, content[..pos])
    {
      var end := if pos + BUFSIZE < |content| then pos + BUFSIZE else |content|;
      WrittenTwice(tar, tarLen, content[..pos], content[pos..end]);
      assert content[..end] == content[..pos] + content[pos..end];
      r := Written(r, len, content[pos..end]);
      len := len + (end - pos);
      pos := end;
    }
    assert content[..pos] == content;
  }

  /** The padding loop. */
  method AppendPadding(tar: seq<byte>, tarLen: nat) returns (r: seq<byte>, len: nat)
    requires tarLen <= |tar|
    ensures r == Written(tar, tarLen, Zeros(Padding(tarLen)))
    ensures len == tarLen + Padding(tarLen) && len % BLOCK == 0
  {
    hide Written;
    r, len := tar, tarLen;
    WrittenNothing(tar, tarLen);
    assert Zeros(0) == [];
    while len % BLOCK != 0
      invariant tarLen <= len <= tarLen + Padding(tarLen)
      invariant r == Written(tar, tarLen, Zeros(len - tarLen))
      decreases tarLen + Padding(tarLen) - len
    {
      WrittenTwice(tar, tarLen, Zeros(len - tarLen), [0]);
      assert Zeros(len - tarLen) + [0] == Zeros(len + 1 - tarLen);
      r := Written(r, len, [0]);
      len := len + 1;
    }
  }

  lemma ArchiveNext(dir: seq<Source>, i: nat)
    requires i < |dir| && AllFit(dir)
    ensures AllFit(dir[i..]) && AllFit(dir[i + 1..])
    ensures Archive(dir[i..])
         == (if Skipped(dir[i]) then [] else Member(dir[i])) + Archive(dir[i + 1..])
  {
    assert dir[i..][1..] == dir[i + 1..];
    assert [] + Archive(dir[i + 1..]) == Archive(dir[i + 1..]);
  }

  lemma Regroup(a: seq<byte>, b: seq<byte>, c: seq<byte>)
    ensures a + (b + c) == (a + b) + c
  {}

  lemma PaddingFromStart(tarLen: nat, size: nat)
    requires tarLen % BLOCK == 0
    ensures Padding(tarLen + BLOCK + size) == Padding(size)
  {}

  lemma WrittenParts(tar: seq<byte>, pos: nat, header: seq<byte>, content: seq<byte>, padding: seq<byte>)
    requires pos <= |tar|
    ensures var a := Written(tar, pos, header);
            pos + |header| <= |a| &&
            var b := Written(a, pos + |header|, content);
            pos + |header| + |content| <= |b| &&
            Written(b, pos + |header| + |content|, padding)
            == Written(tar, pos, header + (content + padding))
  {
    hide Written;
    WrittenTwice(tar, pos, header, content);
    WrittenTwice(tar, pos, header + content, padding);
    assert (header + content) + padding == header + (content + padding);
  }

  /** Header, contents and padding of one opened file, or nothing if the header write fails. */
  method AppendMember(tar: seq<byte>, tarLen: nat, f: Source) returns (r: seq<byte>, len: nat)
    requires Fits(f) && Opened(f) && tarLen <= |tar| && tarLen % BLOCK == 0
    ensures f.accepted ==> r == Written(tar, tarLen, Member(f)) && len == tarLen + |Member(f)|
    ensures !f.accepted ==> r == tar && len == tarLen
    ensures len % BLOCK == 0
  {
    hide Written;
    var header := new byte[BLOCK];
    TarHeader(header, f.name, |f.content|);
    if !f.accepted { return tar, tarLen; }
    var bytes := header[..];
    WrittenParts(tar, tarLen, bytes, f.content, Zeros(Padding(|f.content|)));
    r, len := AppendContent(Written(tar, tarLen, bytes), tarLen + BLOCK, f.content);
    PaddingFromStart(tarLen, |f.content|);
    r, len := AppendPadding(r, len);
  }

  lemma WrittenWithin(file: seq<byte>, pos: nat, data: seq<byte>)
    requires pos <= |file|
    ensures pos + |data| <= |Written(file, pos, data)|
  {}

  lemma ArchiveEnds(dir: seq<Source>, done: seq<byte>)
    requires AllFit(dir)
    ensures Archive(dir) == [] + Archive(dir[0..])
    ensures done + Archive(dir[|dir|..]) == done
  {
    assert dir[0..] == dir;
  }

  /** One more archived file. */
  lemma ArchiveGrows(before: seq<byte>, tar: seq<byte>, done: seq<byte>, dir: seq<Source>, i: nat)
    requires i < |dir| && AllFit(dir) && !Skipped(dir[i])
    requires tar == Written(before, 0, done) && |done| <= |tar|
    ensures var more := done + Member(dir[i]);
            && Written(tar, |done|, Member(dir[i])) == Written(before, 0, more)
            && |more| <= |Written(before, 0, more)|
            && done + Archive(dir[i..]) == more + Archive(dir[i + 1..])
  {
    ArchiveNext(dir, i);
    hide Written, Archive, Member;
    WrittenTwice(before, 0, done, Member(dir[i]));
    WrittenWithin(before, 0, done + Member(dir[i]));
    Regroup(done, Member(dir[i]), Archive(dir[i + 1..]));
  }

  lemma ArchiveSkips(dir: seq<Source>, i: nat)
    requires i < |dir| && AllFit(dir) && Skipped(dir[i])
    ensures Archive(dir[i..]) == Archive(dir[i + 1..])
  {
    ArchiveNext(dir, i);
  }

  /** `createTarFile`, writing over what the output file held `before`. */
  method CreateTarFile(dir: seq<Source>, before: seq<byte>) returns (tar: seq<byte>)
    requires AllFit(dir)
    ensures tar == Overwritten(before, Archive(dir))
  {
    hide Written, Archive, Member;
    tar := before;
    var tarLen := 0;
    ghost var done: seq<byte> := [];
    WrittenNothing(before, 0);
    ArchiveEnds(dir, done);
    for i := 0 to |dir|
      invariant tarLen == |done| <= |tar| && tarLen % BLOCK == 0
      invariant tar == Written(before, 0, done)
      invariant Archive(dir) == done + Archive(dir[i..])
    {
      var f := dir[i];
      if Skipped(f) {
        ArchiveSkips(dir, i);
      } else {
        ArchiveGrows(before, tar, done, dir, i);
        done := done + Member(f);
      }
      if f.name != [] && f.name[0] == 46 { continue; }
      if !f.openable { continue; }
      tar, tarLen := AppendMember(tar, tarLen, f);
    }
    ArchiveEnds(dir, done);
  }

  // ---------- Reading it back ----------

  /** The bytes before the first NUL. */
  function CName(t: seq<byte>): seq<byte> {
    if t == [] || t[0] == 0 then [] else [t[0]] + CName(t[1..])
  }

  /** A ustar header of a regular file whose checksum verifies. */
  predicate GoodHeader(h: seq<byte>)
    requires |h| == BLOCK
  {
    && h[257..263] == USTAR + [0]
    && h[156] == 48
    && ParseOctal(h[148..156]) == Some(Sum(Blanked(h)))
    && ParseOctal(h[124..136]).Some?
  }

  /** Entries until the end of the data; `None` for anything malformed or cut off. */
  function ReadArchive(a: seq<byte>): Option<seq<Entry>>
    decreases |a|
  {
    if a == [] then Some([])
    else if |a| < BLOCK || !GoodHeader(a[..BLOCK]) then None
    else
      var h, body := a[..BLOCK], a[BLOCK..];
      var size := ParseOctal(h[124..136]).value;
      if |body| < size + Padding(size) then None
      else
        match ReadArchive(body[size + Padding(size)..])
        case None => None
        case Some(rest) => Some([Entry(CName(h[..100]), body[..size])] + rest)
  }

  /** The non-dot, openable files, in directory order. */
  function Selected(dir: seq<Source>): seq<Entry> {
    if dir == [] then []
    else if Skipped(dir[0]) then Selected(dir[1..])
    else [Entry(dir[0].name, dir[0].content)] + Selected(dir[1..])
  }

  /** Which files are selected: none whose name begins with a dot, none that cannot be opened and
      none whose header write fails; of several lists, first those of the first. */
  lemma {:induction false} SelectedTogether(a: seq<Source>, b: seq<Source>, f: Source)
    ensures Selected(a + b) == Selected(a) + Selected(b)
    ensures Selected([f]) == if (f.name != [] && f.name[0] == 46) || !f.openable || !f.accepted then []
                             else [Entry(f.name, f.content)]
    decreases |a|
  {
    assert [f][1..] == [] && Selected([]) == [];
    if a == [] {
      assert a + b == b;
    } else {
      SelectedTogether(a[1..], b, f);
      assert (a + b)[1..] == a[1..] + b;
      assert Selected(a[1..] + b) == Selected(a[1..]) + Selected(b);
    }
  }

  lemma {:induction false} CNameOf(name: seq<byte>, rest: seq<byte>)
    requires CString(name) && rest != [] && rest[0] == 0
    ensures CName(name + rest) == name
    decreases |name|
  {
    if name == [] {
      assert name + rest == rest;
    } else {
      CNameOf(name[1..], rest);
      assert (name + rest)[1..] == name[1..] + rest;
    }
  }

  lemma NameReads(h: seq<byte>, name: seq<byte>)
    requires |h| == BLOCK && |name| < 100 && CString(name)
    requires h[0..|name| + 1] == name + [0]
    ensures CName(h[..100]) == name
  {
    var rest := h[|name|..100];
    assert rest[0] == h[0..|name| + 1][|name|] == 0;
    assert h[..|name|] == h[0..|name| + 1][..|name|] == name;
    assert h[..100] == name + rest;
    CNameOf(name, rest);
  }

  lemma HeaderReads(name: seq<byte>, size: nat)
    requires CString(name) && |name| < 100 && size < Pow8(11)
    ensures var h := Header(name, size);
            GoodHeader(h) && ParseOctal(h[124..136]) == Some(size) && CName(h[..100]) == name
  {
    var h := Header(name, size);
    HeaderShows(name, size);
    ChecksumVerifies(name, size);
    OctalFieldParses(size, 11, [0]);
    assert h[156] == h[156..157][0];
    NameReads(h, name);
  }

  /** What the reader finds when it takes a member and what follows it apart. */
  lemma MemberParts(f: Source, rest: seq<byte>)
    requires Fits(f) && !Skipped(f)
    ensures var a := Member(f) + rest;
            var size := |f.content|;
            && |a| >= BLOCK && a[..BLOCK] == Header(f.name, size)
            && |a[BLOCK..]| >= size + Padding(size)
            && a[BLOCK..][..size] == f.content && a[BLOCK..][size + Padding(size)..] == rest
  {
    hide Header;
  }

  lemma EntryReads(f: Source, rest: seq<byte>)
    requires Fits(f) && !Skipped(f)
    ensures ReadArchive(Member(f) + rest)
         == match ReadArchive(rest)
            case None => None
            case Some(more) => Some([Entry(f.name, f.content)] + more)
  {
    HeaderReads(f.name, |f.content|);
    MemberParts(f, rest);
    hide Header, Member, GoodHeader, ParseOctal, CName, Padding;
  }

  /** Reading an archive and what follows it gives the archived files, then what follows. */
  lemma {:induction false} ReadsOn(dir: seq<Source>, tail: seq<byte>)
    requires AllFit(dir)
    ensures ReadArchive(Archive(dir) + tail)
         == match ReadArchive(tail)
            case None => None
            case Some(more) => Some(Selected(dir) + more)
    decreases |dir|
  {
    if dir == [] {
      assert Archive(dir) + tail == tail;
      assert forall more: seq<Entry> :: [] + more == more;
    } else {
      assert AllFit(dir[1..]);
      ReadsOn(dir[1..], tail);
      if !Skipped(dir[0]) {
        var first := [Entry(dir[0].name, dir[0].content)];
        EntryReads(dir[0], Archive(dir[1..]) + tail);
        Regroup(Member(dir[0]), Archive(dir[1..]), tail);
        assert forall more :: first + (Selected(dir[1..]) + more) == (first + Selected(dir[1..])) + more;
      }
    }
  }

  lemma ReadsNothingIff(a: seq<byte>)
    ensures ReadArchive(a) == Some([]) <==> a == []
  {}

  lemma SameLength(a: seq<Entry>, b: seq<Entry>)
    ensures a + b == a <==> b == []
  {
    assert |a + b| == |a| + |b|;
  }

  lemma OverwrittenTail(before: seq<byte>, data: seq<byte>) returns (tail: seq<byte>)
    ensures Overwritten(before, data) == data + tail
    ensures tail == [] <==> |before| <= |data|
  {
    tail := if |data| < |before| then before[|data|..] else [];
  }

  /** Over an older output file, which is not truncated, the same holds if and only if that file
      was not longer than the archive. */
  lemma RereadsIff(dir: seq<Source>, before: seq<byte>)
    requires AllFit(dir)
    ensures ReadArchive(Overwritten(before, Archive(dir))) == Some(Selected(dir))
            <==> |before| <= |Archive(dir)|
  {
    hide Archive, ReadArchive, Selected;
    var tail := OverwrittenTail(before, Archive(dir));
    hide Written;
    ReadsOn(dir, tail);
    ReadsNothingIff(tail);
    SameLength(Selected(dir), if ReadArchive(tail).Some? then ReadArchive(tail).value else []);
  }

  /** Reading a newly written archive gives exactly the files that were archived: names and
      contents, in order. */
  lemma ArchiveRoundTrip(dir: seq<Source>)
    requires AllFit(dir)
    ensures ReadArchive(Overwritten([], Archive(dir))) == Some(Selected(dir))
  {
    RereadsIff(dir, []);
  }

  /** An input on which it fails: the archive of one file, written over with that of an empty
      directory, still reads as the one file. */
  lemma StaleMemberReads(f: Source)
    requires Fits(f) && !Skipped(f)
    ensures ReadArchive(Overwritten(Archive([f]), Archive([]))) == Some([Entry(f.name, f.content)])
    ensures Selected([]) == []
  {
    hide ReadArchive;
    assert Overwritten(Archive([f]), Archive([])) == Archive([f]) + [];
    assert [f][1..] == [];
    ReadsOn([f], []);
    ReadsNothingIff([]);
    assert Selected([f]) == [Entry(f.name, f.content)];
  }
}
