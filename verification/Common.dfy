/** Types the other modules share. */
module Common {
  /** A byte of a file or a message. */
  type byte = x: int | 0 <= x < 256

  /** How much the dumpstate service reads at a time. */
  const BUFSIZE := 65536

  /** A file after writing `data` at offset `pos`. */
  function Written(file: seq<byte>, pos: nat, data: seq<byte>): seq<byte>
    requires pos <= |file|
  {
    file[..pos] + data + if pos + |data| < |file| then file[pos + |data|..] else []
  }

  /** Writing `data` over a file opened without truncation. */
  function Overwritten(before: seq<byte>, data: seq<byte>): seq<byte> {
    Written(before, 0, data)
  }

  /** Byte by byte: the data where it was written, the file as it was elsewhere. */
  lemma WrittenAt(file: seq<byte>, pos: nat, data: seq<byte>, i: nat)
    requires pos <= |file|
    ensures var r := Written(file, pos, data);
            && |r| == (if pos + |data| < |file| then |file| else pos + |data|)
            && (i < |r| ==> r[i] == if pos <= i < pos + |data| then data[i - pos] else file[i])
  {}

  datatype Option<+T> = None | Some(value: T)
}

/** What has happened in a run, the latest event outermost. */
module Histories {
  datatype History<E> = Start | Then(before: History<E>, last: E)

  predicate Happened<E(==)>(h: History<E>, e: E) {
    h.Then? && (h.last == e || Happened(h.before, e))
  }

  /** `p` is how the history looked at some earlier moment, or is all of it. */
  predicate Precedes<E(==)>(p: History<E>, h: History<E>) {
    p == h || (h.Then? && Precedes(p, h.before))
  }

  /** `e` happened after the moment `from`. */
  predicate HappenedAfter<E(==)>(h: History<E>, from: History<E>, e: E) {
    h != from && h.Then? && (h.last == e || HappenedAfter(h.before, from, e))
  }

  lemma {:induction false} HappenedAt<E>(h: History<E>, e: E) returns (p: History<E>)
    requires Happened(h, e)
    ensures Precedes(Then(p, e), h)
  {
    if h.last == e {
      p := h.before;
    } else {
      p := HappenedAt(h.before, e);
    }
  }

  lemma {:induction false} StillHappened<E>(p: History<E>, h: History<E>, e: E)
    requires Precedes(p, h) && Happened(p, e)
    ensures Happened(h, e)
  {
    if p != h {
      StillHappened(p, h.before, e);
    }
  }

  lemma {:induction false} PrecedesBefore<E>(p: History<E>, e: E, h: History<E>)
    requires Precedes(Then(p, e), h)
    ensures Precedes(p, h)
  {
    if h != Then(p, e) {
      PrecedesBefore(p, e, h.before);
    } else {
      assert Precedes(p, p);
    }
  }
}
