/** Log staging of the dumpstate service: `dumpLogs` picks the newest logs of a directory and
    `copyFile` copies them in chunks. */
module LogStaging {
  import opened Common

  type Name = seq<byte>

  // ---------- Copying ----------

  /** A directory's readable files. */
  class Directory {
    var files: map<Name, seq<byte>>

    constructor (files: map<Name, seq<byte>>)
      ensures this.files == files
    {
      this.files := files;
    }
  }

  function Contents(files: map<Name, seq<byte>>, name: Name): seq<byte> {
    if name in files then files[name] else []
  }

  /** The effect of copying one file; a source that cannot be opened leaves all as it was. */
  function Copied(files: map<Name, seq<byte>>, src: map<Name, seq<byte>>, name: Name): map<Name, seq<byte>> {
    if name in src then files[name := Overwritten(Contents(files, name), src[name])] else files
  }

  lemma NextChunk(before: seq<byte>, data: seq<byte>, pos: nat, end: nat)
    requires pos <= end <= |data|
    ensures pos <= |Overwritten(before, data[..pos])|
    ensures Written(Overwritten(before, data[..pos]), pos, data[pos..end]) == Overwritten(before, data[..end])
  {}

  lemma NothingWritten(before: seq<byte>, data: seq<byte>)
    ensures Overwritten(before, data[..0]) == before && data[..|data|] == data
  {}

  /** `copyFile`: create the destination if need be, then write chunk after chunk from offset 0. */
  method CopyFile(src: Directory, dest: Directory, name: Name)
    requires src != dest
    modifies dest
    ensures dest.files == Copied(old(dest.files), src.files, name)
  {
    if name in src.files {
      hide Overwritten, Written;
      var data := src.files[name];
      var current := Contents(dest.files, name);
      ghost var before := current;
      NothingWritten(before, data);
      var pos := 0;
      while pos < |data|
        invariant pos <= |data| && dest.files == old(dest.files)
        invariant current == Overwritten(before, data[..pos])
      {
        var end := if pos + BUFSIZE < |data| then pos + BUFSIZE else |data|;
        NextChunk(before, data, pos, end);
        current := Written(current, pos, data[pos..end]);
        pos := end;
      }
      dest.files := dest.files[name := current];
    }
  }

  /** The copy equals its source exactly when the destination was not longer before: the
      destination is opened without O_TRUNC. */
  lemma CopyExactIff(before: seq<byte>, data: seq<byte>)
    ensures Overwritten(before, data) == data <==> |before| <= |data|
  {
    if |before| > |data| {
      assert |Overwritten(before, data)| == |before|;
    }
  }

  /** Inputs on which it is not: a log copied over a longer one that starts with it leaves the
      longer one in place. */
  lemma LongerCopyStays(data: seq<byte>, more: seq<byte>)
    requires more != []
    ensures Overwritten(data + more, data) == data + more != data
  {
    assert |data + more| > |data|;
  }

  // ---------- Selecting ----------

  /** Byte order, as `alphasort` sorts in the C locale. */
  predicate Less(a: Name, b: Name) {
    b != [] && (a == [] || a[0] < b[0] || (a[0] == b[0] && Less(a[1..], b[1..])))
  }

  /** The first difference decides, and a name comes before its extensions. */
  lemma {:induction false} LessIs(a: Name, b: Name)
    ensures Less(a, b) <==> exists k: nat :: FirstDifference(a, b, k) && (k == |a| || a[k] < b[k])
  {
    if b != [] && a != [] && a[0] == b[0] {
      LessIs(a[1..], b[1..]);
      if k: nat :| FirstDifference(a[1..], b[1..], k) && (k == |a[1..]| || a[1..][k] < b[1..][k]) {
        assert a[..k + 1] == [a[0]] + a[1..][..k] && b[..k + 1] == [b[0]] + b[1..][..k];
        assert FirstDifference(a, b, k + 1);
      }
      if k: nat :| FirstDifference(a, b, k) && (k == |a| || a[k] < b[k]) {
        assert a[1..][..k - 1] == a[..k][1..] && b[1..][..k - 1] == b[..k][1..];
        assert FirstDifference(a[1..], b[1..], k - 1);
      }
    } else if b != [] {
      assert FirstDifference(a, b, 0);
    }
  }

  /** The names agree up to `k`, and differ or one of them ends there. */
  predicate FirstDifference(a: Name, b: Name, k: nat) {
    k <= |a| && k < |b| && a[..k] == b[..k] && (k < |a| ==> a[k] != b[k])
  }

  predicate Sorted(listing: seq<Name>) {
    forall i, j :: 0 <= i < j < |listing| ==> Less(listing[i], listing[j])
  }

  function Matching(listing: seq<Name>, prefix: Name): seq<Name> {
    if listing == [] then []
    else (if prefix <= listing[0] then [listing[0]] else []) + Matching(listing[1..], prefix)
  }

  /** How many files are copied: all for -1, none for other negative limits. */
  function Quota(matches: nat, maxFileNum: int): nat {
    if maxFileNum == -1 || maxFileNum >= matches then matches else if maxFileNum < 0 then 0 else maxFileNum
  }

  /** The last names in order that carry the prefix. */
  function Newest(listing: seq<Name>, prefix: Name, maxFileNum: int): seq<Name> {
    var all := Matching(listing, prefix);
    all[|all| - Quota(|all|, maxFileNum)..]
  }

  /** The names copied one after the other, the last one first. */
  function AllCopied(files: map<Name, seq<byte>>, src: map<Name, seq<byte>>, names: seq<Name>): map<Name, seq<byte>> {
    if names == [] then files else Copied(AllCopied(files, src, names[1..]), src, names[0])
  }

  lemma CopiedOneMore(files: map<Name, seq<byte>>, src: map<Name, seq<byte>>, name: Name, names: seq<Name>)
    ensures AllCopied(files, src, [name] + names) == Copied(AllCopied(files, src, names), src, name)
    ensures AllCopied(files, src, [] + names) == AllCopied(files, src, names)
  {
    assert ([name] + names)[1..] == names;
    assert [] + names == names;
  }

  lemma NewestNext(listing: seq<Name>, i: nat, prefix: Name, maxFileNum: int)
    requires i < |listing|
    ensures var later := listing[i + 1..];
            var n := |Matching(later, prefix)|;
            && |Matching(listing[i..], prefix)| == n + (if prefix <= listing[i] then 1 else 0)
            && Newest(listing[i..], prefix, maxFileNum)
               == (if prefix <= listing[i] && (maxFileNum == -1 || Quota(n, maxFileNum) < maxFileNum)
                   then [listing[i]] else []) + Newest(later, prefix, maxFileNum)
  {
    assert listing[i..][1..] == listing[i + 1..];
  }

  /** `dumpLogs`: from the greatest name down, matching names are copied until the limit. */
  method DumpLogs(src: Directory, dest: Directory, listing: seq<Name>, maxFileNum: int, prefix: Name)
    requires src != dest
    modifies dest
    ensures dest.files == AllCopied(old(dest.files), src.files, Newest(listing, prefix, maxFileNum))
  {
    var copiedFiles := 0;
    var i := |listing|;
    assert listing[i..] == [];
    while i > 0
      invariant i <= |listing|
      invariant copiedFiles == Quota(|Matching(listing[i..], prefix)|, maxFileNum)
      invariant dest.files == AllCopied(old(dest.files), src.files, Newest(listing[i..], prefix, maxFileNum))
    {
      i := i - 1;
      NewestNext(listing, i, prefix, maxFileNum);
      CopiedOneMore(old(dest.files), src.files, listing[i], Newest(listing[i + 1..], prefix, maxFileNum));
      if !(prefix <= listing[i]) { continue; }
      if copiedFiles >= maxFileNum && maxFileNum != -1 { continue; }
      copiedFiles := copiedFiles + 1;
      CopyFile(src, dest, listing[i]);
    }
    assert listing[0..] == listing;
  }

  // ---------- What was copied ----------

  lemma {:induction false} MatchingIn(listing: seq<Name>, prefix: Name, name: Name)
    ensures name in Matching(listing, prefix) <==> name in listing && prefix <= name
  {
    if listing != [] {
      MatchingIn(listing[1..], prefix, name);
    }
  }

  lemma {:induction false} MatchingSorted(listing: seq<Name>, prefix: Name)
    requires Sorted(listing)
    ensures Sorted(Matching(listing, prefix))
  {
    if listing != [] {
      var rest := Matching(listing[1..], prefix);
      MatchingSorted(listing[1..], prefix);
      forall j | 0 <= j < |rest|
        ensures Less(listing[0], rest[j])
      {
        MatchingIn(listing[1..], prefix, rest[j]);
      }
    }
  }

  lemma {:induction false} LessIrreflexive(a: Name)
    ensures !Less(a, a)
  {
    if a != [] {
      LessIrreflexive(a[1..]);
    }
  }

  /** Exactly the quota is copied, all of it from the listing and carrying the prefix, no name
      twice, and every matching name left out comes before every copied one. */
  lemma NewestAreGreatest(listing: seq<Name>, prefix: Name, maxFileNum: int)
    requires Sorted(listing)
    ensures var all, newest := Matching(listing, prefix), Newest(listing, prefix, maxFileNum);
            && |newest| == Quota(|all|, maxFileNum)
            && (forall n :: n in newest ==> n in listing && prefix <= n)
            && Sorted(newest)
            && (forall n, c :: n in listing && prefix <= n && n !in newest && c in newest ==> Less(n, c))
  {
    var all, newest := Matching(listing, prefix), Newest(listing, prefix, maxFileNum);
    MatchingSorted(listing, prefix);
    var start := |all| - Quota(|all|, maxFileNum);
    forall k | start <= k < |all|
      ensures all[k] in newest
    {
      assert newest[k - start] == all[k];
    }
    forall n | n in newest
      ensures n in listing && prefix <= n
    {
      MatchingIn(listing, prefix, n);
    }
    forall n, c | n in listing && prefix <= n && n !in newest && c in newest
      ensures Less(n, c)
    {
      MatchingIn(listing, prefix, n);
      var i :| 0 <= i < |all| && all[i] == n;
    }
  }

  /** The names with the prefix that come after `name`. */
  function After(listing: seq<Name>, prefix: Name, name: Name): set<Name> {
    set m | m in listing && prefix <= m && Less(name, m)
  }

  lemma {:induction false} DistinctCount(all: seq<Name>, k: nat, names: set<Name>)
    requires Sorted(all) && k <= |all| && names == (set i | k <= i < |all| :: all[i])
    ensures |names| == |all| - k
    decreases |all| - k
  {
    if k < |all| {
      var rest := set i | k + 1 <= i < |all| :: all[i];
      DistinctCount(all, k + 1, rest);
      assert all[k] !in rest by {
        LessIrreflexive(all[k]);
      }
      assert names == rest + {all[k]};
    } else {
      assert names == {};
    }
  }

  /** A file is copied if and only if it carries the prefix and fewer than `maxFileNum` files that
      carry it come after it, or the limit is -1. */
  lemma SelectedIff(listing: seq<Name>, prefix: Name, maxFileNum: int, name: Name)
    requires Sorted(listing)
    ensures name in Newest(listing, prefix, maxFileNum) <==>
              && name in listing && prefix <= name
              && (maxFileNum == -1 || |After(listing, prefix, name)| < maxFileNum)
  {
    var all := Matching(listing, prefix);
    var start := |all| - Quota(|all|, maxFileNum);
    MatchingIn(listing, prefix, name);
    MatchingSorted(listing, prefix);
    if i :| 0 <= i < |all| && all[i] == name {
      LessIrreflexive(name);
      AfterCount(listing, prefix, i);
      assert name in all[start..] <==> start <= i by {
        if start <= i {
          assert all[start..][i - start] == name;
        }
      }
    } else {
      assert name !in all[start..];
    }
  }

  lemma AfterCount(listing: seq<Name>, prefix: Name, i: nat)
    requires Sorted(Matching(listing, prefix)) && i < |Matching(listing, prefix)|
    ensures |After(listing, prefix, Matching(listing, prefix)[i])| == |Matching(listing, prefix)| - i - 1
  {
    var all := Matching(listing, prefix);
    var later := set j | i + 1 <= j < |all| :: all[j];
    DistinctCount(all, i + 1, later);
    forall m
      ensures m in After(listing, prefix, all[i]) <==> m in later
    {
      MatchingIn(listing, prefix, m);
      if m in all && Less(all[i], m) {
        var j :| 0 <= j < |all| && all[j] == m;
        LessIrreflexive(m);
        if j < i {
          LessNotBoth(m, all[i]);
        }
      }
    }
    assert After(listing, prefix, all[i]) == later;
  }

  lemma {:induction false} LessNotBoth(a: Name, b: Name)
    requires Less(a, b)
    ensures !Less(b, a)
  {
    if a != [] && a[0] == b[0] {
      LessNotBoth(a[1..], b[1..]);
    }
  }

  /** The destination afterwards, name by name: the selected readable files were copied, the
      others are as before. */
  lemma {:induction false} AllCopiedAt(files: map<Name, seq<byte>>, src: map<Name, seq<byte>>,
                                       names: seq<Name>, name: Name)
    requires Sorted(names)
    ensures var after := AllCopied(files, src, names);
            if name in names && name in src
            then name in after && after[name] == Overwritten(Contents(files, name), src[name])
            else Contents(after, name) == Contents(files, name) && (name in after <==> name in files)
  {
    if names != [] {
      AllCopiedAt(files, src, names[1..], name);
      if name == names[0] && name in names[1..] {
        LessIrreflexive(name);
      }
    }
  }

  /** Into an empty directory every selected readable file arrives unchanged, and nothing else. */
  lemma StagedExactly(src: map<Name, seq<byte>>, listing: seq<Name>, prefix: Name, maxFileNum: int, name: Name)
    requires Sorted(listing)
    ensures var newest := Newest(listing, prefix, maxFileNum);
            var staged := AllCopied(map[], src, newest);
            && (name in staged <==> name in newest && name in src)
            && (name in staged ==> staged[name] == src[name])
  {
    NewestAreGreatest(listing, prefix, maxFileNum);
    AllCopiedAt(map[], src, Newest(listing, prefix, maxFileNum), name);
  }
}
