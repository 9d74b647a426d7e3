/** Memory as a sequence of bytes, and what copying to a part of it changes. */
module Stores {
  import opened Words

  /** Memory with data at an address. */
  function Patched(m: seq<u8>, at: nat, data: seq<u8>): (r: seq<u8>)
    requires at + |data| <= |m|
    ensures |r| == |m|
  {
    m[..at] + data + m[at + |data|..]
  }

  lemma PatchedNext(m0: seq<u8>, m: seq<u8>, m1: seq<u8>, at: nat, data: seq<u8>, i: nat)
    requires i < |data| && at + |data| <= |m0| && m == Patched(m0, at, data[..i]) && m1 == m[at + i := data[i]]
    ensures m1 == Patched(m0, at, data[..i + 1])
  {
  }

  lemma PatchedMore(m: seq<u8>, at: nat, x: seq<u8>, y: seq<u8>)
    requires at + |x| + |y| <= |m|
    ensures Patched(Patched(m, at, x), at + |x|, y) == Patched(m, at, x + y)
  {
  }

  lemma PatchedOutside(m: seq<u8>, at: nat, data: seq<u8>, ptr: nat, size: nat)
    requires at + |data| <= |m| && ptr + size <= |m| && (size == 0 || ptr + size <= at || at + |data| <= ptr)
    ensures Patched(m, at, data)[ptr..ptr + size] == m[ptr..ptr + size]
  {
  }

  /** Memory outside a range is as it was. */
  ghost predicate OutsideSame(m: seq<u8>, m1: seq<u8>, begin: nat, end: nat) {
    |m1| == |m| && forall k :: 0 <= k < |m| && !(begin <= k < end) ==> m1[k] == m[k]
  }

  lemma SameOutside(m: seq<u8>, begin: nat, end: nat)
    ensures OutsideSame(m, m, begin, end)
  {
  }

  lemma PatchedSame(m: seq<u8>, at: nat, data: seq<u8>, begin: nat, end: nat)
    requires at + |data| <= |m| && begin <= at && at + |data| <= end
    ensures OutsideSame(m, Patched(m, at, data), begin, end)
  {
  }

  lemma OutsideTrans(m0: seq<u8>, m: seq<u8>, m1: seq<u8>, b: nat, e: nat, begin: nat, end: nat)
    requires OutsideSame(m0, m, b, e) && OutsideSame(m, m1, begin, end) && b <= begin && end <= e
    ensures OutsideSame(m0, m1, b, e)
  {
  }

  /** Storing a 64-bit word. */
  method StoreWord(memory: array<u8>, at: nat, v: u64)
    requires at + 8 <= memory.Length
    modifies memory
    ensures memory[..] == Patched(old(memory[..]), at, LE64(v))
  {
    hide LE64;
    ghost var m := memory[..];
    var word := LE64(v);
    forall k | 0 <= k < 8 {
      memory[at + k] := word[k];
    }
    PatchedIs(m, memory[..], at, word);
  }

  lemma PatchedIs(m: seq<u8>, m1: seq<u8>, at: nat, data: seq<u8>)
    requires |m1| == |m| && at + |data| <= |m|
    requires forall k :: 0 <= k < |m| ==> m1[k] == if at <= k < at + |data| then data[k - at] else m[k]
    ensures m1 == Patched(m, at, data)
  {
  }

  /** The parts of patched memory. */
  lemma PatchedParts(m: seq<u8>, at: nat, data: seq<u8>, begin: nat, end: nat)
    requires begin <= at && at + |data| <= end <= |m|
    ensures var r := Patched(m, at, data);
      r[begin..at] == m[begin..at] && r[at..at + |data|] == data && r[at + |data|..end] == m[at + |data|..end]
  {
    var r, e := Patched(m, at, data), at + |data|;
    assert |r| == |m|;
    forall k | 0 <= k < end - e ensures r[e..end][k] == m[e..end][k] {
      assert r[e + k] == m[e..][k];
    }
  }

  lemma Adjoining(m: seq<u8>, a: nat, b: nat, c: nat)
    requires a <= b <= c <= |m|
    ensures m[a..c] == m[a..b] + m[b..c]
  {
  }

  lemma TakeDrop(x: seq<u8>, y: seq<u8>, k: nat)
    requires k <= |x|
    ensures (x + y)[..k] == x[..k] && (x + y)[k..] == x[k..] + y
  {
  }

  lemma PartOfPart(m: seq<u8>, a: nat, b: nat, c: nat)
    requires a <= b <= c <= |m|
    ensures m[a..c][..b - a] == m[a..b] && m[a..c][b - a..] == m[b..c]
  {
  }

  lemma PatchedAfter(m: seq<u8>, at: nat, data: seq<u8>, end: nat)
    requires at + |data| <= end <= |m|
    ensures Patched(m, at, data)[end..] == m[end..]
  {
    var r := Patched(m, at, data);
    forall k | 0 <= k < |m| - end ensures r[end..][k] == m[end..][k] {
      assert r[end + k] == m[at + |data|..][end + k - at - |data|];
    }
  }

  lemma PatchedBefore(m: seq<u8>, at: nat, data: seq<u8>)
    requires at + |data| <= |m|
    ensures Patched(m, at, data)[..at] == m[..at]
  {
  }

  lemma Prefixes(m: seq<u8>, m1: seq<u8>, a: nat, b: nat)
    requires a <= b <= |m| && b <= |m1| && m1[..a] == m[..a] && m1[a..b] == m[a..b]
    ensures m1[..b] == m[..b]
  {
    assert m1[..b] == m1[..a] + m1[a..b] && m[..b] == m[..a] + m[a..b];
  }

  lemma PartAt(m: seq<u8>, ptr: nat, b: seq<u8>, i: nat, j: nat)
    requires ptr + |b| <= |m| && m[ptr..ptr + |b|] == b && i <= j <= |b|
    ensures m[ptr + i..ptr + j] == b[i..j]
  {
    forall k | 0 <= k < j - i ensures m[ptr + i..ptr + j][k] == b[i..j][k] {
      assert m[ptr..ptr + |b|][i + k] == m[ptr + i + k];
    }
  }
}
