/** The standard output of a program: where in the memory of its parent it goes, and when it stays there. */
module Output {
  import opened Words
  import opened Stores
  import opened Records

  /** mem_copy_non_overlapping: byte after byte, from the first one. */
  function Forwarded(m: seq<u8>, src: nat, dst: nat, n: nat): (r: seq<u8>)
    requires src + n <= |m| && dst + n <= |m|
    ensures |r| == |m|
  {
    if n == 0 then m
    else
      var m1 := Forwarded(m, src, dst, n - 1);
      m1[dst + n - 1 := m1[src + n - 1]]
  }

  /** Ranges that do not overlap. */
  predicate Clear(a: nat, size: nat, begin: nat, end: nat) { a + size <= begin || end <= a }

  lemma {:induction false} ForwardedIs(m: seq<u8>, src: nat, dst: nat, n: nat)
    requires src + n <= |m| && dst + n <= |m| && (Clear(src, n, dst, dst + n) || n == 0)
    ensures Forwarded(m, src, dst, n) == Patched(m, dst, m[src..src + n])
    decreases n
  {
    if n > 0 {
      ForwardedIs(m, src, dst, n - 1);
      assert m[src..src + n][..n - 1] == m[src..src + (n - 1)];
      PatchedNext(m, Forwarded(m, src, dst, n - 1), Forwarded(m, src, dst, n), dst, m[src..src + n], n - 1);
      assert m[src..src + n][..n] == m[src..src + n];
    } else {
      assert m == Patched(m, dst, m[src..src]);
    }
  }

  /** A 64-bit word of memory. */
  function WordAt(m: seq<u8>, a: nat): u64 { if a + 8 <= |m| then From64(m[a..a + 8]) else 0 }

  lemma WordStored(m: seq<u8>, a: nat, v: u64)
    requires a + 8 <= |m|
    ensures WordAt(Patched(m, a, LE64(v)), a) == v
  {
    hide LE64, From64;
    PatchedParts(m, a, LE64(v), a, a + 8);
    From64OfLE64(v);
  }

  lemma WordSame(m: seq<u8>, m1: seq<u8>, a: nat)
    requires |m1| == |m| && forall k :: a <= k < a + 8 && k < |m| ==> m1[k] == m[k]
    ensures WordAt(m1, a) == WordAt(m, a)
  {
    hide From64;
    if a + 8 <= |m| { assert m1[a..a + 8] == m[a..a + 8]; }
  }

  /** How much of `size` bytes os_write copies to the output: what there is up to the limit, in 64 bits. */
  function OutputSize(m: seq<u8>, p: Process, size: nat): nat {
    var room := Wrap(p.outputLimit - WordAt(m, p.outputP));
    if size < room then size else room
  }

  /** The copy does not leave the memory of programs. */
  predicate OutputInside(m: seq<u8>, p: Process, size: nat, low: nat) {
    OutputSize(m, p, size) == 0
    || (low <= WordAt(m, p.outputP) && WordAt(m, p.outputP) + OutputSize(m, p, size) <= |m|)
  }

  /** The memory after a write to the standard output: the bytes are copied, and then the pointer to the end moves on.
      */
  function Printed(m: seq<u8>, p: Process, buffer: nat, size: nat, low: nat): seq<u8>
    requires p.outputP + 8 <= |m| && buffer + size <= |m| && OutputInside(m, p, size, low)
  {
    var to, n := WordAt(m, p.outputP), OutputSize(m, p, size);
    var m1 := if n == 0 then m else Forwarded(m, buffer, to, n);
    Patched(m1, p.outputP, LE64(Wrap(WordAt(m1, p.outputP) + n)))
  }

  /** The output goes to memory of programs before the range of the process, and the pointer to its end is in neither.
      */
  predicate OutputOk(m: seq<u8>, p: Process, low: nat) {
    var to := WordAt(m, p.outputP);
    && p.outputP + 8 <= |m| && low <= to <= p.outputLimit <= p.begin
    && Clear(p.outputP, 8, p.begin, p.end) && (to == p.outputLimit || Clear(p.outputP, 8, to, p.outputLimit))
  }

  /** The output and the pointer are in the range of the parent. */
  predicate OutputIn(m: seq<u8>, p: Process, parent: Process) {
    parent.begin <= WordAt(m, p.outputP) && parent.begin <= p.outputP && p.outputP + 8 <= parent.end
  }

  /** What a process and those that it starts may change: its range, what is left of its output, and the pointer to
      the end of it, which stays in the output. */
  ghost predicate OwnChange(m: seq<u8>, m1: seq<u8>, p: Process) {
    var to := WordAt(m, p.outputP);
    && |m1| == |m| && to <= WordAt(m1, p.outputP) <= p.outputLimit
    && forall k :: 0 <= k < |m| && !Owns(p, to, k) ==> m1[k] == m[k]
  }

  predicate Owns(p: Process, to: nat, k: nat) {
    p.begin <= k < p.end || to <= k < p.outputLimit || p.outputP <= k < p.outputP + 8
  }

  /** A write to the output of a process in order: the bytes come after what was there, and the pointer moves to their
      end. */
  lemma PrintedIs(m: seq<u8>, p: Process, buffer: nat, size: nat, low: nat)
    requires OutputOk(m, p, low) && p.begin <= buffer && buffer + size <= p.end <= |m| < TWO64
    ensures var to, n := WordAt(m, p.outputP), OutputSize(m, p, size);
      n == (if size <= p.outputLimit - to then size else p.outputLimit - to) && OutputInside(m, p, size, low)
      && to + n <= |m|
      && Printed(m, p, buffer, size, low) == Patched(Patched(m, to, m[buffer..buffer + n]), p.outputP, LE64(to + n))
      && WordAt(Printed(m, p, buffer, size, low), p.outputP) == to + n
  {
    hide LE64, From64, Patched, Forwarded;
    var to, n := WordAt(m, p.outputP), OutputSize(m, p, size);
    if n > 0 {
      ForwardedIs(m, buffer, to, n);
      PatchedOutside(m, to, m[buffer..buffer + n], p.outputP, 8);
    } else {
      NothingPatched(m, to, m[buffer..buffer + n]);
    }
    WordStored(Patched(m, to, m[buffer..buffer + n]), p.outputP, to + n);
  }

  lemma NothingPatched(m: seq<u8>, at: nat, data: seq<u8>)
    requires at <= |m| && data == []
    ensures Patched(m, at, data) == m
  {
  }

  lemma PrintedChange(m: seq<u8>, p: Process, buffer: nat, size: nat, low: nat)
    requires OutputOk(m, p, low) && p.begin <= buffer && buffer + size <= p.end <= |m| < TWO64
    ensures OutputInside(m, p, size, low)
    ensures var m1 := Printed(m, p, buffer, size, low); OwnChange(m, m1, p)
  {
    hide LE64, From64, Printed, OutputInside, OutputSize;
    PrintedIs(m, p, buffer, size, low);
  }

  /** A change of its own range keeps the output. */
  lemma RangeChange(m: seq<u8>, m1: seq<u8>, p: Process, low: nat)
    requires OutsideSame(m, m1, p.begin, p.end) && OutputOk(m, p, low)
    ensures OwnChange(m, m1, p)
  {
    hide From64;
    WordSame(m, m1, p.outputP);
  }

  /** The output stays in order. */
  lemma OutputKept(m: seq<u8>, m1: seq<u8>, p: Process, low: nat, parent: Process)
    requires OwnChange(m, m1, p) && OutputOk(m, p, low)
    ensures OutputOk(m1, p, low) && (OutputIn(m, p, parent) ==> OutputIn(m1, p, parent))
  {
  }

  lemma OwnChangeTrans(m0: seq<u8>, m: seq<u8>, m1: seq<u8>, p: Process)
    requires OwnChange(m0, m, p) && OwnChange(m, m1, p)
    ensures OwnChange(m0, m1, p)
  {
  }

  lemma OwnChangeSelf(m: seq<u8>, p: Process)
    requires WordAt(m, p.outputP) <= p.outputLimit
    ensures OwnChange(m, m, p)
  {
  }

  /** What a process started by p changes is in the range of p. */
  lemma ChildChange(m: seq<u8>, m1: seq<u8>, p: Process, child: Process, low: nat)
    requires OwnChange(m, m1, child) && OutputOk(m, child, low) && OutputIn(m, child, p) && InParent(child, p)
      && child.begin <= child.end
    ensures OutsideSame(m, m1, p.begin, p.end)
  {
  }

  /** The outputs of the processes from number d on: each goes to memory of its parent, before its own range. */
  ghost predicate OutputsOk(l: Layout, procs: map<nat, Process>, m: seq<u8>, low: nat, d: nat) {
    (forall i: nat :: d <= i < |l.stack| ==> l.stack[i] in procs && OutputOk(m, procs[l.stack[i]], low))
    && forall i: nat :: d < i < |l.stack| ==> OutputInAt(l, procs, m, i)
  }

  ghost predicate OutputInAt(l: Layout, procs: map<nat, Process>, m: seq<u8>, i: nat) {
    0 < i < |l.stack| && l.stack[i] in procs && l.stack[i - 1] in procs
    && OutputIn(m, procs[l.stack[i]], procs[l.stack[i - 1]])
  }

  /** What the last process may change, every process before it may change too. */
  lemma {:induction false} ChangeUp(l: Layout, procs: map<nat, Process>, m: seq<u8>, m1: seq<u8>, low: nat,
                                    limit: nat, d: nat, i: nat)
    requires OutputsOk(l, procs, m, low, d) && Ranged(l, procs, low, limit) && d <= i < |l.stack|
    requires l.stack[|l.stack| - 1] in procs && OwnChange(m, m1, procs[l.stack[|l.stack| - 1]])
    ensures l.stack[i] in procs && OwnChange(m, m1, procs[l.stack[i]])
    decreases |l.stack| - i
  {
    hide OwnChange, OutputOk, OutputIn, WordAt, InParent;
    if i + 1 < |l.stack| {
      ChangeUp(l, procs, m, m1, low, limit, d, i + 1);
      assert OutputInAt(l, procs, m, i + 1) && NestedAt(l, procs, i + 1);
      ChildChange(m, m1, procs[l.stack[i]], procs[l.stack[i + 1]], low);
      RangeChange(m, m1, procs[l.stack[i]], low);
    }
  }

  /** So the outputs stay in order. */
  lemma OutputsKept(l: Layout, procs: map<nat, Process>, m: seq<u8>, m1: seq<u8>, low: nat, limit: nat, d: nat)
    requires OutputsOk(l, procs, m, low, d) && Ranged(l, procs, low, limit) && d < |l.stack|
    requires l.stack[|l.stack| - 1] in procs && OwnChange(m, m1, procs[l.stack[|l.stack| - 1]])
    ensures OutputsOk(l, procs, m1, low, d) && l.stack[d] in procs && OwnChange(m, m1, procs[l.stack[d]])
  {
    hide OwnChange, OutputOk, OutputIn, WordAt, Ranged;
    ChangeUp(l, procs, m, m1, low, limit, d, d);
    forall i: nat | d <= i < |l.stack| ensures OutputOk(m1, procs[l.stack[i]], low) {
      ChangeUp(l, procs, m, m1, low, limit, d, i);
      OutputKept(m, m1, procs[l.stack[i]], low, procs[l.stack[i]]);
    }
    forall i: nat | d < i < |l.stack| ensures OutputInAt(l, procs, m1, i) {
      assert OutputInAt(l, procs, m, i);
      ChangeUp(l, procs, m, m1, low, limit, d, i);
      OutputKept(m, m1, procs[l.stack[i]], low, procs[l.stack[i - 1]]);
    }
  }

  // ----- when the output does not stay where it should -----

  /** Its own stores cannot change where its output goes exactly if the pointer is not in its range. */
  lemma PointerStays(m: seq<u8>, p: Process)
    requires p.outputP + 8 <= |m| && p.begin < p.end <= |m|
    ensures (forall m1 :: OutsideSame(m, m1, p.begin, p.end) ==> WordAt(m1, p.outputP) == WordAt(m, p.outputP))
      <==> Clear(p.outputP, 8, p.begin, p.end)
  {
    hide From64;
    if Clear(p.outputP, 8, p.begin, p.end) {
      forall m1 | OutsideSame(m, m1, p.begin, p.end) ensures WordAt(m1, p.outputP) == WordAt(m, p.outputP) {
        WordSame(m, m1, p.outputP);
      }
    } else {
      var k := if p.begin > p.outputP then p.begin else p.outputP;
      var m1 := m[k := if m[k] == 0 then 1 else 0];
      assert OutsideSame(m, m1, p.begin, p.end);
      WordDiffers(m, m1, p.outputP, k);
    }
  }

  lemma WordDiffers(m: seq<u8>, m1: seq<u8>, a: nat, k: nat)
    requires |m1| == |m| && a <= k < a + 8 <= |m| && m1[k] != m[k]
    ensures WordAt(m1, a) != WordAt(m, a)
  {
    hide LE64, From64;
    var x, y := m[a..a + 8], m1[a..a + 8];
    assert x[k - a] != y[k - a];
    LE64OfFrom64(x);
    LE64OfFrom64(y);
  }

  /** A word from the keyboard stays in the range of the process exactly if eight bytes fit. */
  lemma KeyStays(m: seq<u8>, begin: nat, end: nat, buffer: nat)
    requires begin <= buffer < end <= |m| && buffer + 8 <= |m|
    ensures (forall key: u64 :: OutsideSame(m, Patched(m, buffer, LE64(key)), begin, end)) <==> buffer + 8 <= end
  {
    hide LE64, From64;
    if buffer + 8 <= end {
      forall key: u64 ensures OutsideSame(m, Patched(m, buffer, LE64(key)), begin, end) {
        PatchedSame(m, buffer, LE64(key), begin, end);
      }
    } else {
      var word := m[buffer..buffer + 8][end - buffer := if m[end] == 0 then 1 else 0];
      LE64OfFrom64(word);
      var m1 := Patched(m, buffer, LE64(From64(word)));
      assert m1[end] == word[end - buffer] != m[end];
      assert !OutsideSame(m, m1, begin, end);
    }
  }

  /** Whatever its size, a write stays before the limit exactly if the pointer is not after it. */
  lemma OutputStays(m: seq<u8>, p: Process)
    ensures (forall size: nat :: WordAt(m, p.outputP) + OutputSize(m, p, size) <= p.outputLimit)
      <==> WordAt(m, p.outputP) <= p.outputLimit
  {
    if WordAt(m, p.outputP) > p.outputLimit { assert OutputSize(m, p, 1) == 1; }
  }

  /** If the pointer is in the range of the process itself, a store of the process sends its next write to any address
      but the limit. */
  lemma OutputTaken(m: seq<u8>, p: Process, t: u64)
    requires p.begin <= p.outputP && p.outputP + 8 <= p.end <= |m|
    ensures var m1 := Patched(m, p.outputP, LE64(t));
      OutsideSame(m, m1, p.begin, p.end) && WordAt(m1, p.outputP) == t
      && (t != p.outputLimit ==> OutputSize(m1, p, 1) == 1)
  {
    hide LE64, From64, Patched;
    WordStored(m, p.outputP, t);
    PatchedSame(m, p.outputP, LE64(t), p.begin, p.end);
  }

  /** If the pointer is in the output, two writes do so: one up to the pointer, and one over it. */
  lemma OutputOver(m: seq<u8>, p: Process, b1: nat, b2: nat, v: u64, low: nat)
    requires low <= WordAt(m, p.outputP) <= p.outputP
      && p.outputP + 8 <= p.outputLimit <= p.begin <= p.end <= |m| < TWO64
    requires p.begin <= b1 && b1 + (p.outputP - WordAt(m, p.outputP)) <= p.end
    requires p.begin <= b2 && b2 + 8 <= p.end && m[b2..b2 + 8] == LE64(v)
    ensures OutputInside(m, p, p.outputP - WordAt(m, p.outputP), low)
    ensures var m1 := Printed(m, p, b1, p.outputP - WordAt(m, p.outputP), low);
      OutputInside(m1, p, 8, low) && WordAt(Printed(m1, p, b2, 8, low), p.outputP) == Wrap(v + 8)
  {
    hide LE64, From64, Patched, Forwarded, Printed, OutputInside, OutputSize, WordAt;
    PrintedUp(m, p, b1, b2, low);
    PrintedOver(Printed(m, p, b1, p.outputP - WordAt(m, p.outputP), low), p, b2, v, low);
  }

  lemma PrintedUp(m: seq<u8>, p: Process, b1: nat, b2: nat, low: nat)
    requires low <= WordAt(m, p.outputP) <= p.outputP
      && p.outputP + 8 <= p.outputLimit <= p.begin <= p.end <= |m| < TWO64
    requires p.begin <= b1 && b1 + (p.outputP - WordAt(m, p.outputP)) <= p.end && p.begin <= b2 && b2 + 8 <= p.end
    ensures OutputInside(m, p, p.outputP - WordAt(m, p.outputP), low)
    ensures var m1 := Printed(m, p, b1, p.outputP - WordAt(m, p.outputP), low);
      |m1| == |m| && WordAt(m1, p.outputP) == p.outputP && m1[b2..b2 + 8] == m[b2..b2 + 8]
  {
    hide LE64, From64, Patched, Forwarded;
    var to := WordAt(m, p.outputP);
    var n := p.outputP - to;
    var mc := if n == 0 then m else Forwarded(m, b1, to, n);
    if n > 0 {
      ForwardedIs(m, b1, to, n);
      PatchedOutside(m, to, m[b1..b1 + n], p.outputP, 8);
      PatchedOutside(m, to, m[b1..b1 + n], b2, 8);
    }
    WordStored(mc, p.outputP, p.outputP);
    PatchedOutside(mc, p.outputP, LE64(p.outputP), b2, 8);
  }

  lemma PrintedOver(m: seq<u8>, p: Process, b2: nat, v: u64, low: nat)
    requires low <= p.outputP == WordAt(m, p.outputP)
      && p.outputP + 8 <= p.outputLimit <= p.begin <= p.end <= |m| < TWO64
    requires p.begin <= b2 && b2 + 8 <= p.end && m[b2..b2 + 8] == LE64(v)
    ensures OutputInside(m, p, 8, low) && WordAt(Printed(m, p, b2, 8, low), p.outputP) == Wrap(v + 8)
  {
    hide LE64, From64, Patched, Forwarded;
    ForwardedIs(m, b2, p.outputP, 8);
    WordCopied(m, b2, p.outputP, v);
    WordStored(Forwarded(m, b2, p.outputP, 8), p.outputP, Wrap(v + 8));
  }

  lemma WordCopied(m: seq<u8>, src: nat, dst: nat, v: u64)
    requires src + 8 <= |m| && dst + 8 <= |m| && m[src..src + 8] == LE64(v)
    ensures WordAt(Patched(m, dst, m[src..src + 8]), dst) == v
  {
    hide LE64, From64;
    WordStored(m, dst, v);
  }
}
