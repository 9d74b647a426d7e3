/** The kernel's records: processes, each started by the one before it, and their file streams, allocated one after the
    other on the kernel heap. */
module Records {
  import opened Words

  const MODE_UNUSED: u64 := 0
  const MODE_LIST: u64 := 108
  const MODE_READ: u64 := 114
  const MODE_WRITE: u64 := 119

  const STREAM_SIZE := 40
  const PROCESS_SIZE := 80

  /** Page table entries hold addresses below 2^52. */
  const PHYSICAL_LIMIT := 0x10_0000_0000_0000

  datatype Stream = Stream(next: nat, mode: u64, fileBlock: nat, currentBlock: nat, currentOffset: nat)

  datatype Process = Process(parent: nat, begin: u64, end: u64, savedR8: u64, savedR9: u64, savedStackPointer: u64,
                             savedReturnAddress: u64, fileStreams: nat, outputP: u64, outputLimit: u64)

  /** The addresses of the processes, oldest first, and how many streams each has. */
  datatype Layout = Layout(stack: seq<nat>, counts: seq<nat>)

  /** The address of stream j of process i. */
  function Slot(l: Layout, i: nat, j: nat): nat
    requires i < |l.stack|
  {
    l.stack[i] + PROCESS_SIZE + STREAM_SIZE * j
  }

  /** The end of the records. */
  function Top(l: Layout, base: nat): nat
    requires |l.counts| == |l.stack|
  {
    if l.stack == [] then base else Slot(l, |l.stack| - 1, l.counts[|l.stack| - 1])
  }

  function LastOr0(s: seq<nat>): nat { if s == [] then 0 else s[|s| - 1] }

  /** The records follow one another from the base of the heap. */
  ghost predicate Packed(l: Layout, base: nat) {
    && |l.counts| == |l.stack| && base > 0
    && (forall i :: 0 <= i < |l.stack| ==> l.stack[i] == if i == 0 then base else Slot(l, i - 1, l.counts[i - 1]))
  }

  predicate HasSlot(l: Layout, i: nat, j: nat) { i < |l.stack| && i < |l.counts| && j < l.counts[i] }

  ghost predicate IsSlot(l: Layout, a: nat) { exists i: nat, j: nat :: HasSlot(l, i, j) && a == Slot(l, i, j) }

  /** The records and their links are those of the layout. */
  ghost predicate Arranged(l: Layout, base: nat, procs: map<nat, Process>, streams: map<nat, Stream>) {
    Packed(l, base) && Chained(l, procs) && Strung(l, streams)
  }

  /** Every process links to its parent and to its first stream. */
  ghost predicate Chained(l: Layout, procs: map<nat, Process>)
    requires |l.counts| == |l.stack|
  {
    (forall a: nat :: a in procs <==> a in l.stack) && forall i: nat :: i < |l.stack| ==> ProcessAt(l, procs, i)
  }

  predicate ProcessAt(l: Layout, procs: map<nat, Process>, i: nat)
    requires i < |l.stack| == |l.counts|
  {
    l.stack[i] in procs && procs[l.stack[i]].parent == (if i == 0 then 0 else l.stack[i - 1])
    && procs[l.stack[i]].fileStreams == if l.counts[i] > 0 then Slot(l, i, 0) else 0
  }

  /** Every stream links to the next one of its process. */
  ghost predicate Strung(l: Layout, streams: map<nat, Stream>) {
    (forall a: nat :: a in streams <==> IsSlot(l, a)) && forall i: nat, j: nat ::
      HasSlot(l, i, j) ==> StreamAt(l, streams, i, j)
  }

  predicate StreamAt(l: Layout, streams: map<nat, Stream>, i: nat, j: nat)
    requires HasSlot(l, i, j)
  {
    Slot(l, i, j) in streams && streams[Slot(l, i, j)].next == if j + 1 < l.counts[i] then Slot(l, i, j + 1) else 0
  }

  lemma StackAt(l: Layout, base: nat, i: nat)
    requires Packed(l, base) && i < |l.stack|
    ensures 0 < base && l.stack[i] == if i == 0 then base else Slot(l, i - 1, l.counts[i - 1])
  {
  }

  /** Processes come at increasing addresses, each after the streams of the one before it. */
  lemma {:induction false} StackOrder(l: Layout, base: nat, i: nat, k: nat)
    requires |l.counts| == |l.stack| && i < k < |l.stack| && Packed(l, base)
    ensures Slot(l, i, l.counts[i]) <= l.stack[k]
    decreases k
  {
    hide Packed;
    StackAt(l, base, k);
    if i + 1 < k { StackOrder(l, base, i, k - 1); }
  }

  lemma {:induction false} StackBase(l: Layout, base: nat, i: nat)
    requires |l.counts| == |l.stack| && i < |l.stack| && Packed(l, base)
    ensures 0 < base <= l.stack[i] && Slot(l, i, l.counts[i]) <= Top(l, base)
    decreases i
  {
    hide Packed;
    StackAt(l, base, i);
    if i > 0 { StackBase(l, base, i - 1); }
    if i + 1 < |l.stack| { StackOrder(l, base, i, |l.stack| - 1); }
  }

  /** A record: its address and its size. */
  ghost predicate IsRecord(l: Layout, a: nat, size: nat) {
    (size == PROCESS_SIZE && a in l.stack) || (size == STREAM_SIZE && IsSlot(l, a))
  }

  /** Records never overlap, and stay between the base of the heap and its top. */
  lemma RecordsDisjoint(l: Layout, base: nat, a: nat, n: nat, b: nat, m: nat)
    requires |l.counts| == |l.stack| && IsRecord(l, a, n) && IsRecord(l, b, m) && Packed(l, base)
    ensures base <= a && a + n <= Top(l, base)
    ensures (a == b && n == m) || a + n <= b || b + m <= a
  {
    hide Packed, IsRecord, Top;
    var i, j := Place(l, a, n);
    var k, h := Place(l, b, m);
    StackBase(l, base, i);
    StackBase(l, base, k);
    if i < k { StackOrder(l, base, i, k); }
    if k < i { StackOrder(l, base, k, i); }
  }

  lemma Place(l: Layout, a: nat, n: nat) returns (i: nat, j: nat)
    requires |l.counts| == |l.stack| && IsRecord(l, a, n)
    ensures i < |l.stack|
    ensures if n == PROCESS_SIZE then a == l.stack[i] else n == STREAM_SIZE && HasSlot(l, i, j) && a == Slot(l, i, j)
  {
    if n == PROCESS_SIZE {
      i := Index(l.stack, a);
      j := 0;
    } else {
      i, j := SlotPlace(l, a);
    }
  }

  lemma Index(s: seq<nat>, a: nat) returns (i: nat)
    requires a in s
    ensures i < |s| && s[i] == a
  {
    i :| i < |s| && s[i] == a;
  }

  lemma SlotPlace(l: Layout, a: nat) returns (i: nat, j: nat)
    requires IsSlot(l, a)
    ensures HasSlot(l, i, j) && a == Slot(l, i, j)
  {
    i, j :| HasSlot(l, i, j) && a == Slot(l, i, j);
  }

  lemma SlotIs(l: Layout, i: nat, j: nat)
    requires HasSlot(l, i, j)
    ensures IsSlot(l, Slot(l, i, j))
  {
  }

  // ----- the ranges of processes -----

  /** The range of a process starts at a page, and lies in that of its parent. */
  ghost predicate Ranged(l: Layout, procs: map<nat, Process>, low: nat, limit: nat) {
    (forall i: nat :: i < |l.stack| ==> l.stack[i] in procs && OwnRange(procs[l.stack[i]], low, limit))
    && forall i: nat :: 0 < i < |l.stack| ==> NestedAt(l, procs, i)
  }

  /** A process has pages of memory after the kernel's heap, its stack pointer is not a page past them, and the
      pointer to the end of its output is in memory. */
  predicate OwnRange(p: Process, low: nat, limit: nat) {
    && p.begin % 4096 == 0 && p.end % 4096 == 0 && low <= p.begin <= p.end <= limit
    && p.savedStackPointer < p.end + 4096
    && p.outputP + 8 <= limit
  }

  predicate NestedAt(l: Layout, procs: map<nat, Process>, i: nat)
    requires 0 < i < |l.stack|
  {
    l.stack[i] in procs && l.stack[i - 1] in procs && InParent(procs[l.stack[i]], procs[l.stack[i - 1]])
  }

  predicate InParent(p: Process, parent: Process) { parent.begin <= p.begin && p.end <= parent.end }

  lemma {:induction false} RangesNested(l: Layout, procs: map<nat, Process>, low: nat, limit: nat, i: nat, k: nat)
    requires Ranged(l, procs, low, limit) && i <= k < |l.stack|
    ensures l.stack[i] in procs && l.stack[k] in procs
    ensures procs[l.stack[i]].begin <= procs[l.stack[k]].begin && procs[l.stack[k]].end <= procs[l.stack[i]].end
    decreases k
  {
    if i < k {
      RangesNested(l, procs, low, limit, i, k - 1);
      assert NestedAt(l, procs, k);
    }
  }

  // ----- starting and ending processes -----

  function Pushed(l: Layout, a: nat): Layout { Layout(l.stack + [a], l.counts + [0]) }

  lemma PushedArranged(l: Layout, base: nat, procs: map<nat, Process>, streams: map<nat, Stream>, p: Process)
    requires |l.counts| == |l.stack| && p.parent == LastOr0(l.stack) && p.fileStreams == 0
      && Arranged(l, base, procs, streams)
    ensures var a := Top(l, base); var l1 := Pushed(l, a);
      a !in procs && Arranged(l1, base, procs[a := p], streams) && Top(l1, base) == a + PROCESS_SIZE
  {
    hide Chained, Strung, Packed;
    ArrangedParts(l, base, procs, streams);
    PushedPacked(l, base);
    PushedChained(l, base, procs, p);
    PushedStrung(l, Top(l, base), streams);
  }

  lemma ArrangedParts(l: Layout, base: nat, procs: map<nat, Process>, streams: map<nat, Stream>)
    requires Arranged(l, base, procs, streams)
    ensures |l.counts| == |l.stack| && Packed(l, base) && Chained(l, procs) && Strung(l, streams)
  {
  }

  lemma PushedPacked(l: Layout, base: nat)
    requires Packed(l, base)
    ensures Packed(Pushed(l, Top(l, base)), base)
  {
    var l1 := Pushed(l, Top(l, base));
    forall i | 0 <= i < |l1.stack| ensures l1.stack[i] == if i == 0 then base else Slot(l1, i - 1, l1.counts[i - 1]) {
      if i < |l.stack| { StackAt(l, base, i); }
    }
  }

  lemma PushedChained(l: Layout, base: nat, procs: map<nat, Process>, p: Process)
    requires |l.counts| == |l.stack| && p.parent == LastOr0(l.stack) && p.fileStreams == 0 && Chained(l, procs)
      && Packed(l, base)
    ensures Top(l, base) !in procs && Chained(Pushed(l, Top(l, base)), procs[Top(l, base) := p])
  {
    hide Packed;
    var a := Top(l, base);
    var l1, procs1 := Pushed(l, a), procs[a := p];
    if a in l.stack {
      var i := Index(l.stack, a);
      StackBase(l, base, i);
    }
    forall i: nat | i < |l1.stack| ensures ProcessAt(l1, procs1, i) {
      if i < |l.stack| { assert ProcessAt(l, procs, i); }
    }
    forall b: nat ensures b in procs1 <==> b in l1.stack {
      assert b in l.stack + [a] <==> b in l.stack || b == a;
    }
  }

  lemma PushedStrung(l: Layout, a: nat, streams: map<nat, Stream>)
    requires |l.counts| == |l.stack| && Strung(l, streams)
    ensures Strung(Pushed(l, a), streams)
  {
    var l1 := Pushed(l, a);
    PushedSlots(l, a);
    forall i: nat, j: nat | HasSlot(l1, i, j) ensures StreamAt(l1, streams, i, j) {
      assert HasSlot(l, i, j) && StreamAt(l, streams, i, j);
    }
  }

  lemma PushedSlots(l: Layout, a: nat)
    requires |l.counts| == |l.stack|
    ensures forall b: nat :: IsSlot(Pushed(l, a), b) <==> IsSlot(l, b)
  {
    var l1 := Pushed(l, a);
    hide IsSlot;
    forall b: nat ensures IsSlot(l1, b) <==> IsSlot(l, b) {
      if IsSlot(l, b) {
        var i, j := SlotPlace(l, b);
        SlotIs(l1, i, j);
      }
      if IsSlot(l1, b) {
        var i, j := SlotPlace(l1, b);
        SlotIs(l, i, j);
      }
    }
  }

  function Popped(l: Layout): Layout
    requires l.stack != [] && |l.counts| == |l.stack|
  {
    Layout(l.stack[..|l.stack| - 1], l.counts[..|l.stack| - 1])
  }

  function Below(streams: map<nat, Stream>, a: nat): map<nat, Stream> { map b | b in streams && b < a :: streams[b] }

  /** Ending the last process: its records, which are those from its address on, are gone, and the heap is back where
      it was when the process was allocated. */
  lemma PoppedArranged(l: Layout, base: nat, procs: map<nat, Process>, streams: map<nat, Stream>)
    requires |l.counts| == |l.stack| && l.stack != [] && Arranged(l, base, procs, streams)
    ensures var a := LastOr0(l.stack);
      Top(Popped(l), base) == a && Arranged(Popped(l), base, procs - {a}, Below(streams, a))
  {
    hide Chained, Strung, Packed;
    ArrangedParts(l, base, procs, streams);
    PoppedPacked(l, base);
    PoppedChained(l, base, procs);
    PoppedStrung(l, base, streams);
    StackAt(l, base, |l.stack| - 1);
  }

  lemma PoppedPacked(l: Layout, base: nat)
    requires Packed(l, base) && l.stack != []
    ensures Packed(Popped(l), base)
  {
    var l1 := Popped(l);
    forall i | 0 <= i < |l1.stack| ensures l1.stack[i] == if i == 0 then base else Slot(l1, i - 1, l1.counts[i - 1]) {
      StackAt(l, base, i);
    }
  }

  lemma PoppedChained(l: Layout, base: nat, procs: map<nat, Process>)
    requires |l.counts| == |l.stack| && l.stack != [] && Chained(l, procs) && Packed(l, base)
    ensures Chained(Popped(l), procs - {LastOr0(l.stack)})
  {
    hide Packed;
    var a, l1, n := LastOr0(l.stack), Popped(l), |l.stack| - 1;
    forall i: nat | i < n ensures l1.stack[i] < a && ProcessAt(l1, procs - {a}, i) {
      StackOrder(l, base, i, n);
      assert ProcessAt(l, procs, i);
    }
    forall b: nat ensures b in procs - {a} <==> b in l1.stack {
      assert l.stack == l1.stack + [a];
    }
  }

  lemma PoppedStrung(l: Layout, base: nat, streams: map<nat, Stream>)
    requires |l.counts| == |l.stack| && l.stack != [] && Strung(l, streams) && Packed(l, base)
    ensures Strung(Popped(l), Below(streams, LastOr0(l.stack)))
  {
    hide Packed, IsSlot;
    var l1 := Popped(l);
    PoppedSlots(l, base);
    forall i: nat, j: nat | HasSlot(l1, i, j) ensures StreamAt(l1, Below(streams, LastOr0(l.stack)), i, j) {
      assert HasSlot(l, i, j) && StreamAt(l, streams, i, j);
      StackOrder(l, base, i, |l.stack| - 1);
    }
  }

  lemma PoppedSlots(l: Layout, base: nat)
    requires |l.counts| == |l.stack| && l.stack != [] && Packed(l, base)
    ensures forall b: nat :: IsSlot(Popped(l), b) <==> IsSlot(l, b) && b < LastOr0(l.stack)
  {
    hide Packed, IsSlot;
    var l1, n := Popped(l), |l.stack| - 1;
    forall b: nat ensures IsSlot(l1, b) <==> IsSlot(l, b) && b < LastOr0(l.stack) {
      if IsSlot(l, b) && b < LastOr0(l.stack) {
        var i, j := SlotPlace(l, b);
        SlotIs(l1, i, j);
      }
      if IsSlot(l1, b) {
        var i, j := SlotPlace(l1, b);
        SlotIs(l, i, j);
        StackOrder(l, base, i, n);
      }
    }
  }

  // ----- one more stream -----

  /** One more stream of the last process. */
  function Grown(l: Layout): Layout
    requires l.stack != [] && |l.counts| == |l.stack|
  {
    l.(counts := l.counts[|l.stack| - 1 := l.counts[|l.stack| - 1] + 1])
  }

  /** The new stream is at the top of the heap, and linked from the last stream of the process, or from the process. */
  function GrownProcs(l: Layout, procs: map<nat, Process>, a: nat): map<nat, Process>
    requires l.stack != [] && |l.counts| == |l.stack|
  {
    var p := LastOr0(l.stack);
    if l.counts[|l.stack| - 1] == 0 && p in procs then procs[p := procs[p].(fileStreams := a)] else procs
  }

  function GrownStreams(l: Layout, streams: map<nat, Stream>, a: nat, s: Stream): map<nat, Stream>
    requires l.stack != [] && |l.counts| == |l.stack|
  {
    var n := l.counts[|l.stack| - 1];
    if n == 0 then streams[a := s]
    else
      var b := Slot(l, |l.stack| - 1, n - 1);
      if b in streams then streams[b := streams[b].(next := a)][a := s] else streams
  }

  lemma GrownArranged(l: Layout, base: nat, procs: map<nat, Process>, streams: map<nat, Stream>, s: Stream)
    requires |l.counts| == |l.stack| && l.stack != [] && s.next == 0 && Arranged(l, base, procs, streams)
    ensures var a := Top(l, base); var l1 := Grown(l);
      a !in streams && Arranged(l1, base, GrownProcs(l, procs, a), GrownStreams(l, streams, a, s))
      && Top(l1, base) == a + STREAM_SIZE
  {
    hide Chained, Strung, Packed, GrownProcs, GrownStreams;
    ArrangedParts(l, base, procs, streams);
    GrownPacked(l, base);
    GrownChained(l, base, procs);
    GrownStrung(l, base, streams, s);
  }

  lemma GrownPacked(l: Layout, base: nat)
    requires Packed(l, base) && l.stack != []
    ensures Packed(Grown(l), base)
  {
    var l1 := Grown(l);
    forall i | 0 <= i < |l1.stack| ensures l1.stack[i] == if i == 0 then base else Slot(l1, i - 1, l1.counts[i - 1]) {
      StackAt(l, base, i);
    }
  }

  lemma GrownChained(l: Layout, base: nat, procs: map<nat, Process>)
    requires |l.counts| == |l.stack| && l.stack != [] && Chained(l, procs) && Packed(l, base)
    ensures Chained(Grown(l), GrownProcs(l, procs, Top(l, base)))
  {
    hide Packed;
    var l1, n := Grown(l), |l.stack| - 1;
    var procs1 := GrownProcs(l, procs, Top(l, base));
    forall i: nat | i < |l.stack| ensures ProcessAt(l1, procs1, i) {
      assert ProcessAt(l, procs, i);
      if i < n { StackOrder(l, base, i, n); }
    }
  }

  lemma GrownStrung(l: Layout, base: nat, streams: map<nat, Stream>, s: Stream)
    requires |l.counts| == |l.stack| && l.stack != [] && s.next == 0 && Strung(l, streams) && Packed(l, base)
    ensures Top(l, base) !in streams && Strung(Grown(l), GrownStreams(l, streams, Top(l, base), s))
  {
    hide Packed, IsSlot, GrownStreams;
    var a, l1, n := Top(l, base), Grown(l), |l.stack| - 1;
    var k := l.counts[n];
    NewSlot(l, base);
    if k > 0 { assert HasSlot(l, n, k - 1) && StreamAt(l, streams, n, k - 1); }
    GrownKeys(l, streams, a, s);
    GrownSlots(l, a);
    forall i: nat, j: nat | HasSlot(l1, i, j) ensures StreamAt(l1, GrownStreams(l, streams, a, s), i, j) {
      GrownStreamAt(l, base, streams, s, i, j);
    }
  }

  lemma NewSlot(l: Layout, base: nat)
    requires |l.counts| == |l.stack| && Packed(l, base)
    ensures !IsSlot(l, Top(l, base))
  {
    hide Packed, IsSlot;
    if IsSlot(l, Top(l, base)) {
      var i, j := SlotPlace(l, Top(l, base));
      StackBase(l, base, i);
    }
  }

  lemma GrownKeys(l: Layout, streams: map<nat, Stream>, a: nat, s: Stream)
    requires l.stack != [] && |l.counts| == |l.stack|
    requires var n := l.counts[|l.stack| - 1]; n > 0 ==> Slot(l, |l.stack| - 1, n - 1) in streams
    ensures forall b: nat :: b in GrownStreams(l, streams, a, s) <==> b in streams || b == a
  {
  }

  lemma GrownStreamAt(l: Layout, base: nat, streams: map<nat, Stream>, s: Stream, i: nat, j: nat)
    requires |l.counts| == |l.stack| && l.stack != [] && s.next == 0 && HasSlot(Grown(l), i, j) && Strung(l, streams)
      && Packed(l, base)
    ensures StreamAt(Grown(l), GrownStreams(l, streams, Top(l, base), s), i, j)
  {
    hide Packed, IsSlot;
    var n := |l.stack| - 1;
    var k := l.counts[n];
    if k > 0 { assert HasSlot(l, n, k - 1) && StreamAt(l, streams, n, k - 1); }
    if i != n || j != k {
      assert HasSlot(l, i, j) && StreamAt(l, streams, i, j);
      StackBase(l, base, i);
      if k > 0 && (i != n || j != k - 1) { SlotsDiffer(l, base, i, j, n, k - 1); }
    }
  }

  lemma SlotsDiffer(l: Layout, base: nat, i: nat, j: nat, k: nat, h: nat)
    requires HasSlot(l, i, j) && HasSlot(l, k, h) && (i != k || j != h) && Packed(l, base)
    ensures Slot(l, i, j) != Slot(l, k, h)
  {
    if i < k { StackOrder(l, base, i, k); }
    if k < i { StackOrder(l, base, k, i); }
  }

  lemma GrownSlots(l: Layout, a: nat)
    requires l.stack != [] && |l.counts| == |l.stack| && a == Slot(l, |l.stack| - 1, l.counts[|l.stack| - 1])
    ensures forall b: nat :: IsSlot(Grown(l), b) <==> IsSlot(l, b) || b == a
  {
    hide IsSlot;
    var l1, n := Grown(l), |l.stack| - 1;
    SlotIs(l1, n, l.counts[n]);
    forall b: nat ensures IsSlot(l1, b) <==> IsSlot(l, b) || b == a {
      if IsSlot(l, b) {
        var i, j := SlotPlace(l, b);
        SlotIs(l1, i, j);
      }
      if IsSlot(l1, b) && b != a {
        var i, j := SlotPlace(l1, b);
        SlotIs(l, i, j);
      }
    }
  }

  // ----- all the records of the kernel -----

  ghost predicate RecordsGood(l: Layout, base: nat, procs: map<nat, Process>, streams: map<nat, Stream>, heap: nat,
                              low: nat, current: nat, limit: nat) {
    && Arranged(l, base, procs, streams) && heap == Top(l, base) <= low && current == LastOr0(l.stack)
    && Ranged(l, procs, low, limit) && 4096 <= low < PHYSICAL_LIMIT && limit < PHYSICAL_LIMIT && limit % 4096 == 0
  }

  /** The current process is the last one. */
  lemma CurrentProcess(l: Layout, base: nat, procs: map<nat, Process>, streams: map<nat, Stream>, heap: nat, low: nat,
                       current: nat, limit: nat)
    requires RecordsGood(l, base, procs, streams, heap, low, current, limit)
    ensures |l.counts| == |l.stack| && (current == 0 <==> l.stack == []) && 0 !in procs && limit < PHYSICAL_LIMIT
      && 4096 <= low < PHYSICAL_LIMIT
    ensures limit % 4096 == 0
    ensures current != 0 ==>
      var n := |l.stack| - 1;
      l.stack[n] == current && current in procs && OwnRange(procs[current], low, limit)
      && procs[current].parent == (if n == 0 then 0 else l.stack[n - 1])
      && procs[current].fileStreams == (if l.counts[n] > 0 then Slot(l, n, 0) else 0)
      && current < heap <= low
  {
    hide Packed, Strung;
    ArrangedParts(l, base, procs, streams);
    if 0 in l.stack {
      var i := Index(l.stack, 0);
      StackBase(l, base, i);
    }
    if l.stack != [] {
      var n := |l.stack| - 1;
      StackBase(l, base, n);
      assert ProcessAt(l, procs, n);
    }
  }

  /** The parent of the current process, and its grandparent. */
  lemma CurrentParent(l: Layout, base: nat, procs: map<nat, Process>, streams: map<nat, Stream>, heap: nat, low: nat,
                      current: nat, limit: nat)
    requires current != 0 && current in procs && procs[current].parent != 0
    requires RecordsGood(l, base, procs, streams, heap, low, current, limit)
    ensures var p := procs[current].parent;
      p != 0 && p in procs && p != current && OwnRange(procs[p], low, limit) && InParent(procs[current], procs[p])
      && (procs[p].parent != 0 ==>
        procs[p].parent in procs && procs[p].parent != current && OwnRange(procs[procs[p].parent], low, limit)
        && InParent(procs[p], procs[procs[p].parent]))
  {
    hide Packed, Strung, OwnRange, InParent;
    ArrangedParts(l, base, procs, streams);
    CurrentProcess(l, base, procs, streams, heap, low, current, limit);
    var n := |l.stack| - 1;
    StackBase(l, base, n - 1);
    StackOrder(l, base, n - 1, n);
    assert ProcessAt(l, procs, n - 1) && NestedAt(l, procs, n);
    if n > 1 {
      StackBase(l, base, n - 2);
      StackOrder(l, base, n - 2, n);
      assert ProcessAt(l, procs, n - 2) && NestedAt(l, procs, n - 1);
    }
  }

  lemma PushedRecords(l: Layout, base: nat, procs: map<nat, Process>, streams: map<nat, Stream>, heap: nat, low: nat,
                      current: nat, limit: nat, p: Process)
    requires PROCESS_SIZE <= low - heap && p.parent == current && p.fileStreams == 0 && OwnRange(p, low, limit)
    requires current != 0 ==> current in procs && InParent(p, procs[current])
    requires RecordsGood(l, base, procs, streams, heap, low, current, limit)
    ensures heap !in procs
    ensures RecordsGood(Pushed(l, heap), base, procs[heap := p], streams, heap + PROCESS_SIZE, low, heap, limit)
  {
    hide Arranged, OwnRange, InParent, Packed;
    CurrentProcess(l, base, procs, streams, heap, low, current, limit);
    PushedArranged(l, base, procs, streams, p);
    var l1, procs1, n := Pushed(l, heap), procs[heap := p], |l.stack|;
    forall i: nat | i < |l1.stack| ensures l1.stack[i] in procs1 && OwnRange(procs1[l1.stack[i]], low, limit) {
      if i < n { assert l1.stack[i] == l.stack[i] && l.stack[i] in procs; }
    }
    forall i: nat | 0 < i < |l1.stack| ensures NestedAt(l1, procs1, i) {
      if i < n { assert NestedAt(l, procs, i); }
    }
  }

  lemma PoppedRecords(l: Layout, base: nat, procs: map<nat, Process>, streams: map<nat, Stream>, heap: nat, low: nat,
                      current: nat, limit: nat)
    requires current != 0 && current in procs && RecordsGood(l, base, procs, streams, heap, low, current, limit)
    ensures |l.counts| == |l.stack| && l.stack != []
    ensures RecordsGood(Popped(l), base, procs - {current}, Below(streams, current), current, low,
      procs[current].parent, limit)
  {
    hide Arranged, OwnRange, InParent, Packed, Top, Below;
    CurrentProcess(l, base, procs, streams, heap, low, current, limit);
    PoppedArranged(l, base, procs, streams);
    var l1, procs1, n := Popped(l), procs - {current}, |l.stack| - 1;
    forall i: nat | i < n ensures l1.stack[i] == l.stack[i] && l.stack[i] in procs && l.stack[i] != current {
      NotCurrent(l, base, procs, streams, i);
    }
    forall i: nat | 0 < i < n ensures NestedAt(l1, procs1, i) {
      assert NestedAt(l, procs, i);
    }
  }

  lemma NotCurrent(l: Layout, base: nat, procs: map<nat, Process>, streams: map<nat, Stream>, i: nat)
    requires |l.counts| == |l.stack| && i + 1 < |l.stack| && Arranged(l, base, procs, streams)
    ensures l.stack[i] < LastOr0(l.stack)
  {
    hide Packed, Chained, Strung;
    ArrangedParts(l, base, procs, streams);
    StackOrder(l, base, i, |l.stack| - 1);
  }

  /** Records of processes that keep their links and ranges. */
  ghost predicate SameProcesses(procs: map<nat, Process>, procs1: map<nat, Process>) {
    procs1.Keys == procs.Keys && forall a: nat :: a in procs ==> a in procs1 && SameProcess(procs[a], procs1[a])
  }

  predicate SameProcess(p: Process, q: Process) {
    q.parent == p.parent && q.fileStreams == p.fileStreams && SameRange(p, q)
  }

  predicate SameRange(p: Process, q: Process) {
    && q.begin == p.begin && q.end == p.end && q.outputP == p.outputP && q.outputLimit == p.outputLimit
    && (q.savedStackPointer == p.savedStackPointer || q.savedStackPointer < q.end + 4096)
  }

  lemma RangedKept(l: Layout, procs: map<nat, Process>, procs1: map<nat, Process>, low: nat, limit: nat)
    requires Ranged(l, procs, low, limit) && forall a: nat :: a in procs ==>
      a in procs1 && SameRange(procs[a], procs1[a])
    ensures Ranged(l, procs1, low, limit)
  {
    forall i: nat | 0 < i < |l.stack| ensures NestedAt(l, procs1, i) {
      assert NestedAt(l, procs, i);
    }
  }

  lemma SavedRecords(l: Layout, base: nat, procs: map<nat, Process>, procs1: map<nat, Process>, streams: map<nat,
                     Stream>, heap: nat, low: nat, current: nat, limit: nat)
    requires SameProcesses(procs, procs1) && RecordsGood(l, base, procs, streams, heap, low, current, limit)
    ensures RecordsGood(l, base, procs1, streams, heap, low, current, limit)
  {
    hide Packed, Strung, Ranged;
    ArrangedParts(l, base, procs, streams);
    RangedKept(l, procs, procs1, low, limit);
    forall i: nat | i < |l.stack| ensures ProcessAt(l, procs1, i) {
      assert ProcessAt(l, procs, i);
    }
  }

  /** The streams may change, but for their links. */
  ghost predicate SameLinks(streams: map<nat, Stream>, streams1: map<nat, Stream>) {
    streams1.Keys == streams.Keys && forall a: nat :: a in streams ==>
      a in streams1 && streams1[a].next == streams[a].next
  }

  lemma StreamsRecords(l: Layout, base: nat, procs: map<nat, Process>, streams: map<nat, Stream>, streams1: map<nat,
                       Stream>, heap: nat, low: nat, current: nat, limit: nat)
    requires SameLinks(streams, streams1) && RecordsGood(l, base, procs, streams, heap, low, current, limit)
    ensures RecordsGood(l, base, procs, streams1, heap, low, current, limit)
  {
    hide Packed, Chained, Ranged, IsSlot;
    forall i: nat, j: nat | HasSlot(l, i, j) ensures StreamAt(l, streams1, i, j) {
      assert StreamAt(l, streams, i, j);
    }
  }

  lemma GrownRecords(l: Layout, base: nat, procs: map<nat, Process>, streams: map<nat, Stream>, heap: nat, low: nat,
                     current: nat, limit: nat, s: Stream)
    requires current != 0 && STREAM_SIZE <= low - heap && s.next == 0
      && RecordsGood(l, base, procs, streams, heap, low, current, limit)
    ensures |l.counts| == |l.stack| && l.stack != [] && heap !in streams
    ensures RecordsGood(Grown(l), base, GrownProcs(l, procs, heap), GrownStreams(l, streams, heap, s),
      heap + STREAM_SIZE, low, current, limit)
  {
    hide Arranged, Packed, Ranged;
    CurrentProcess(l, base, procs, streams, heap, low, current, limit);
    GrownArranged(l, base, procs, streams, s);
    RangedKept(l, procs, GrownProcs(l, procs, heap), low, limit);
    RangedStack(l, Grown(l), GrownProcs(l, procs, heap), low, limit);
  }

  lemma RangedStack(l: Layout, l1: Layout, procs: map<nat, Process>, low: nat, limit: nat)
    requires l1.stack == l.stack && Ranged(l, procs, low, limit)
    ensures Ranged(l1, procs, low, limit)
  {
    forall i: nat | 0 < i < |l1.stack| ensures NestedAt(l1, procs, i) {
      assert NestedAt(l, procs, i);
    }
  }

  // ----- walking the records -----

  /** Process i of the chain, from its record. */
  lemma WalkProcess(l: Layout, base: nat, procs: map<nat, Process>, streams: map<nat, Stream>, i: nat)
    requires |l.counts| == |l.stack| && i < |l.stack| && Arranged(l, base, procs, streams)
    ensures l.stack[i] in procs && l.stack[i] != 0 && procs[l.stack[i]].parent == (if i == 0 then 0 else l.stack[i - 1])
    ensures procs[l.stack[i]].fileStreams == (if l.counts[i] > 0 then Slot(l, i, 0) else 0)
  {
    hide Packed, Strung;
    ArrangedParts(l, base, procs, streams);
    assert ProcessAt(l, procs, i);
    StackBase(l, base, i);
  }

  lemma WalkStream(l: Layout, base: nat, procs: map<nat, Process>, streams: map<nat, Stream>, i: nat, j: nat)
    requires HasSlot(l, i, j) && Arranged(l, base, procs, streams)
    ensures Slot(l, i, j) in streams && Slot(l, i, j) > 0
    ensures streams[Slot(l, i, j)].next == if j + 1 < l.counts[i] then Slot(l, i, j + 1) else 0
  {
    hide Packed, Chained, IsSlot;
    ArrangedParts(l, base, procs, streams);
    assert StreamAt(l, streams, i, j);
  }

  lemma StreamPlace(l: Layout, base: nat, procs: map<nat, Process>, streams: map<nat, Stream>, a: nat)
      returns (i: nat, j: nat)
    requires a in streams && Arranged(l, base, procs, streams)
    ensures HasSlot(l, i, j) && a == Slot(l, i, j)
  {
    hide Packed, Chained, IsSlot, StreamAt;
    ArrangedParts(l, base, procs, streams);
    i, j := SlotPlace(l, a);
  }

  lemma RecordsParts(l: Layout, base: nat, procs: map<nat, Process>, streams: map<nat, Stream>, heap: nat, low: nat,
                     current: nat, limit: nat)
    requires RecordsGood(l, base, procs, streams, heap, low, current, limit)
    ensures |l.counts| == |l.stack| && Arranged(l, base, procs, streams) && current == LastOr0(l.stack)
      && heap == Top(l, base)
  {
    hide Arranged, Ranged;
    ArrangedParts(l, base, procs, streams);
  }

  lemma ProcessPlace(l: Layout, base: nat, procs: map<nat, Process>, streams: map<nat, Stream>, a: nat) returns (i: nat)
    requires a in procs && Arranged(l, base, procs, streams)
    ensures |l.counts| == |l.stack| > i && l.stack[i] == a
  {
    hide Packed, Strung, ProcessAt;
    ArrangedParts(l, base, procs, streams);
    i := Index(l.stack, a);
  }

  lemma RecordsApartAt(l: Layout, base: nat, procs: map<nat, Process>, streams: map<nat, Stream>, a: nat, n: nat,
                       b: nat, m: nat)
    requires IsRecord(l, a, n) && IsRecord(l, b, m) && Arranged(l, base, procs, streams)
    ensures |l.counts| == |l.stack| && base <= a && a + n <= Top(l, base)
    ensures (a == b && n == m) || a + n <= b || b + m <= a
  {
    hide Packed, Strung, Chained, IsRecord;
    ArrangedParts(l, base, procs, streams);
    RecordsDisjoint(l, base, a, n, b, m);
  }
}
