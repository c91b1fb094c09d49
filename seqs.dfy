/** Small facts about sequences, stated once for every element type. */
module Seqs {
  /** A non-empty sequence is its head followed by its tail. */
  lemma HeadTail<T>(s: seq<T>)
    requires s != []
    ensures s == [s[0]] + s[1..]
  {
  }

  /** Concatenation is associative. */
  lemma AppendAssoc<T>(a: seq<T>, b: seq<T>, c: seq<T>)
    ensures a + (b + c) == (a + b) + c
  {
  }

  /** Appending four parts one after the other appends their concatenation. */
  lemma AppendFour<T>(s: seq<T>, a: seq<T>, b: seq<T>, c: seq<T>, d: seq<T>)
    ensures s + a + b + c + d == s + (a + b + c + d)
  {
    AppendAssoc(s, a, b);
    AppendAssoc(s, a + b, c);
    AppendAssoc(s, a + b + c, d);
  }

  /** Past the head, a sequence built with a head is its tail. */
  lemma ConsIndex<T>(x: T, s: seq<T>, k: nat)
    requires 0 < k <= |s|
    ensures ([x] + s)[k] == s[k - 1]
  {
  }

  /** Slicing a non-empty sequence at `j` is slicing its tail at `j - 1`. */
  lemma SliceTail<T>(s: seq<T>, j: nat)
    requires 0 < j <= |s|
    ensures s[..j] == [s[0]] + s[1..][..j - 1]
    ensures s[j..] == s[1..][j - 1..]
  {
  }

  /** The suffix after `i` is the tail of the suffix from `i`. */
  lemma DropFirst<T>(s: seq<T>, i: nat)
    requires i < |s|
    ensures s[i + 1..] == s[i..][1..]
  {
  }

  /** One shift of an insertion step: with `s[..j]` and `s[j + 1..i + 1]` being `w`
      around a gap at `j`, copying `s[j - 1]` into the gap moves the gap to `j - 1`. */
  lemma ShiftIntoGap<T>(s: seq<T>, w: seq<T>, j: nat, i: nat)
    requires 0 < j <= i < |s| && |w| == i
    requires s[..j] == w[..j] && s[j + 1..i + 1] == w[j..]
    ensures s[j := s[j - 1]][..j - 1] == w[..j - 1]
    ensures s[j := s[j - 1]][j..i + 1] == w[j - 1..]
    ensures s[j := s[j - 1]][i + 1..] == s[i + 1..]
  {
    var t := s[j := s[j - 1]];
    assert t[j..i + 1] == [s[j - 1]] + s[j + 1..i + 1];
    assert w[j - 1..] == [w[j - 1]] + w[j..];
  }

  /** Filling the gap at `j` with `x` places `x` between the two parts of `w`. */
  lemma FillGap<T>(s: seq<T>, w: seq<T>, x: T, j: nat, i: nat)
    requires j <= i < |s| && |w| == i
    requires s[..j] == w[..j] && s[j + 1..i + 1] == w[j..]
    ensures s[j := x][..i + 1] == w[..j] + [x] + w[j..]
    ensures s[j := x][i + 1..] == s[i + 1..]
  {
    var t := s[j := x];
    assert t[..i + 1] == t[..j] + [t[j]] + t[j + 1..i + 1];
  }
}
