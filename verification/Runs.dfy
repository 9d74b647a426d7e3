/** Runs of system calls: what every process finds as it was after it has started another one and that one has ended. */
module Runs {
  import opened Words
  import opened Stores
  import opened Volumes
  import opened FileSystem
  import opened Records
  import opened Streams
  import opened Output
  import opened Requests
  import opened Calls
  import opened Kernel

  /** What the current process may do next: trap to the kernel, `key` being what a device gives then, or store bytes
      itself. */
  datatype Event =
    | Trap(id: u64, args: u64, stackPointer: u64, returnAddress: u64, key: u64)
    | Write(at: nat, data: seq<u8>)

  /** A trap with the stack pointer a page or more above the range of the process: runs are not followed further. */
  predicate Strays(event: Event, current: nat, procs: map<nat, Process>) {
    event.Trap? && current in procs && event.stackPointer >= procs[current].end + 4096
  }

  /** What an event does to the kernel: a trap is handled; a store gets through, or ends the process as a fault does. */
  ghost predicate Happens(s: Moment, t: Moment, low: nat, event: Event, ok: bool) {
    s.current in s.procs
    && match event
       case Trap(id, args, stackPointer, returnAddress, key) =>
         exists r: u64 :: Handled(s, t, low, id, args, stackPointer, returnAddress, key, r, ok)
       case Write(at, data) =>
         ok && (StoreDone(s, t, at, data, true)
                || (StoreDone(s, s, at, data, false) && Exits(s, t, INTERNAL_ERROR, Faulted(s))))
  }

  /** The result of ending the current process after a fault: the first process cannot be ended. */
  ghost function Faulted(s: Moment): u64
    requires s.current in s.procs
  {
    if Caller(s).parent == 0 then ErrorResult(INVALID_STATE) else 0
  }

  ghost function MadeOf(s: Moment, event: Event): seq<Made> {
    if s.current in s.procs && event.Trap? then
      MadeIn(s, event.id, event.args, event.stackPointer, event.returnAddress)
    else []
  }

  /** The calls that are made in a run, in order. */
  ghost function AllMade(trace: seq<Moment>, events: seq<Event>): seq<Made>
    requires |trace| > |events|
  {
    if events == [] then []
    else
      var n := |events| - 1;
      AllMade(trace[..n + 1], events[..n]) + MadeOf(trace[n], events[n])
  }

  /** The states of a run, one after each event. `ok` says of the last event whether the kernel stays in the memory of
      programs; it does so at the others. */
  ghost predicate IsTrace(trace: seq<Moment>, events: seq<Event>, low: nat, ok: bool) {
    |trace| == |events| + 1
    && forall i :: 0 <= i < |events| ==> Happens(trace[i], trace[i + 1], low, events[i], i + 1 < |events| || ok)
  }

  lemma TraceStart(s: Moment, events: seq<Event>, low: nat)
    ensures IsTrace([s], events[..0], low, true) && AllMade([s], events[..0]) == []
  {
  }

  lemma TraceMore(trace: seq<Moment>, t: Moment, events: seq<Event>, n: nat, low: nat, ok: bool)
    requires n < |events| && IsTrace(trace, events[..n], low, true) && Happens(trace[n], t, low, events[n], ok)
    ensures IsTrace(trace + [t], events[..n + 1], low, ok)
    ensures AllMade(trace + [t], events[..n + 1]) == AllMade(trace, events[..n]) + MadeOf(trace[n], events[n])
  {
    hide Happens, MadeOf;
    assert events[..n + 1][..n] == events[..n] && (trace + [t])[..n + 1] == trace;
    forall i | 0 <= i < n + 1
      ensures Happens((trace + [t])[i], (trace + [t])[i + 1], low, events[..n + 1][i], i + 1 < n + 1 || ok)
    {
      if i < n { assert events[..n][i] == events[..n + 1][i]; }
    }
  }

  /** The processes and streams of l0 are still there, but that its last process may have more streams. */
  ghost predicate Inside(l0: Layout, l: Layout) {
    var d := |l0.stack|;
    && |l0.counts| == d > 0 && |l.counts| == |l.stack| >= d
    && l.stack[..d] == l0.stack && l.counts[..d - 1] == l0.counts[..d - 1]
  }

  /** How one event changes the records. */
  ghost predicate Moved(l: Layout, l1: Layout, heap: nat) {
    l1 == l || l1 == Pushed(l, heap)
    || (|l.counts| == |l.stack| > 0 && (l1 == Grown(l) || (|l.stack| > 1 && l1 == Popped(l))))
  }

  lemma InsideStep(l0: Layout, l: Layout, l1: Layout, heap: nat)
    requires Inside(l0, l) && Moved(l, l1, heap)
    ensures Inside(l0, l1) || (|l.counts| == |l.stack| == |l0.stack| == |l0.counts| && |l0.stack| > 1
      && l1 == Popped(l) == Popped(l0) && LastOr0(l.stack) == LastOr0(l0.stack))
  {
    var d, n := |l0.stack|, |l.stack|;
    if l1 == Pushed(l, heap) {
      assert l1.stack[..d] == l.stack[..d] && l1.counts[..d - 1] == l.counts[..d - 1];
    } else if l1 == Popped(l) && n > d {
      assert l1.stack[..d] == l.stack[..d] && l1.counts[..d - 1] == l.counts[..d - 1];
    } else if l1 == Popped(l) {
      assert l1.stack == l.stack[..d][..d - 1] && l1.counts == l.counts[..d - 1];
      assert l.stack[..d] == l.stack;
    } else if l1 == Grown(l) {
      assert l1.counts[..d - 1] == l.counts[..d - 1];
    }
  }

  /** Inside, the current process is the last one of l0 or comes after it, and its range is in that one's range. */
  lemma InsideCurrent(l0: Layout, l: Layout, base: nat, procs: map<nat, Process>, streams: map<nat, Stream>,
                      heap: nat, low: nat, current: nat, limit: nat)
    requires Inside(l0, l) && RecordsGood(l, base, procs, streams, heap, low, current, limit)
    ensures var child := LastOr0(l0.stack);
      child != 0 && child <= current && child in procs && current in procs
      && procs[child].begin <= procs[current].begin && procs[current].end <= procs[child].end
  {
    hide Arranged, Packed;
    RecordsParts(l, base, procs, streams, heap, low, current, limit);
    var d, n := |l0.stack|, |l.stack| - 1;
    assert l.stack[d - 1] == l0.stack[d - 1];
    WalkProcess(l, base, procs, streams, d - 1);
    Later(l, base, procs, streams, d - 1);
    RangesNested(l, procs, low, limit, d - 1, n);
  }

  lemma Later(l: Layout, base: nat, procs: map<nat, Process>, streams: map<nat, Stream>, i: nat)
    requires |l.counts| == |l.stack| > i && Arranged(l, base, procs, streams)
    ensures l.stack[i] <= LastOr0(l.stack)
  {
    hide Packed, Chained, Strung;
    ArrangedParts(l, base, procs, streams);
    if i + 1 < |l.stack| { StackOrder(l, base, i, |l.stack| - 1); }
  }

  /** After its end, the current process is one that came before it. */
  lemma EndedCurrent(l0: Layout, base: nat, procs: map<nat, Process>, streams: map<nat, Stream>, heap: nat, low: nat,
                     current: nat, limit: nat, l: Layout, procs1: map<nat, Process>, streams1: map<nat, Stream>,
                       heap1: nat, current1: nat)
    requires RecordsGood(l0, base, procs, streams, heap, low, current, limit) && |l0.counts| == |l0.stack| > 0
      && l == Popped(l0)
    requires RecordsGood(l, base, procs1, streams1, heap1, low, current1, limit)
    ensures current1 < current && heap1 == current
  {
    hide Arranged, Packed;
    RecordsParts(l0, base, procs, streams, heap, low, current, limit);
    RecordsParts(l, base, procs1, streams1, heap1, low, current1, limit);
    CurrentProcess(l0, base, procs, streams, heap, low, current, limit);
    if |l0.stack| > 1 { NotCurrent(l0, base, procs, streams, |l0.stack| - 2); }
    PoppedArranged(l0, base, procs, streams);
  }

  /** The records, streams, memory and calls after a part of a run of process `child`, which had record p when it
      started, in the layout l0, with the streams s0 and the memory m0. */
  ghost predicate Running(l0: Layout, s0: map<nat, Stream>, m0: seq<u8>, p: Process, child: nat, low: nat,
                          made: seq<Made>, ok: bool, l: Layout, procs: map<nat, Process>, streams: map<nat, Stream>,
                            heap: nat, current: nat, m: seq<u8>) {
    && (if Inside(l0, l) then current >= child && child in procs && SameBounds(p, procs[child])
        else |l0.stack| > 1 && |l0.counts| == |l0.stack| && l == Popped(l0) && heap == child && current < child)
    && LowSteady(s0, streams, child) && (OutputOk(m0, p, low) && AllSafe(made) ==>
      InOrder(l0, m0, p, low, ok, l, procs, m))
  }

  /** While all calls are safe: memory has changed only where the process may change it, and all outputs are in order.
      */
  ghost predicate InOrder(l0: Layout, m0: seq<u8>, p: Process, low: nat, ok: bool, l: Layout, procs: map<nat,
                          Process>, m: seq<u8>) {
    ok && OwnChange(m0, m, p) && (Inside(l0, l) ==> OutputsOk(l, procs, m, low, |l0.stack| - 1))
  }

  /** The process that an event makes current, if any, has its output in order. */
  ghost predicate NewOutputOk(l: Layout, l1: Layout, heap: nat, procs: map<nat, Process>, procs1: map<nat, Process>,
                              current: nat, current1: nat, m1: seq<u8>, low: nat) {
    l1 == Pushed(l, heap) ==>
      current1 in procs1 && current in procs && OutputOk(m1, procs1[current1], low)
      && OutputIn(m1, procs1[current1], procs[current])
  }

  lemma NothingNew(l: Layout, l1: Layout, heap: nat, procs: map<nat, Process>, procs1: map<nat, Process>,
                   current: nat, current1: nat, m1: seq<u8>, low: nat)
    requires l1 == l || (|l.counts| == |l.stack| > 0 && (l1 == Grown(l) || (|l.stack| > 1 && l1 == Popped(l))))
    ensures Moved(l, l1, heap) && NewOutputOk(l, l1, heap, procs, procs1, current, current1, m1, low)
  {
  }

  /** The outputs after an event. */
  lemma OutputsNext(l: Layout, l1: Layout, heap: nat, procs: map<nat, Process>, procs1: map<nat, Process>,
                    current: nat, current1: nat, m1: seq<u8>, low: nat, d: nat)
    requires |l.counts| == |l.stack| > d && current == LastOr0(l.stack) && current1 == LastOr0(l1.stack)
      && Moved(l, l1, heap)
    requires OutputsOk(l, procs, m1, low, d) && NewOutputOk(l, l1, heap, procs, procs1, current, current1, m1, low)
    requires RangesKept(procs, procs1) && (forall i: nat :: i < |l1.stack| ==> l1.stack[i] in procs1)
    ensures OutputsOk(l1, procs1, m1, low, d)
  {
    hide OutputOk, OutputIn;
    forall i: nat | i < |l1.stack| && i < |l.stack| ensures l1.stack[i] == l.stack[i] {}
    forall i: nat | d <= i < |l1.stack| ensures OutputOk(m1, procs1[l1.stack[i]], low) {
      if i < |l.stack| { SameOutput(m1, procs[l.stack[i]], procs1[l1.stack[i]], low, procs1[l1.stack[i]]); }
    }
    forall i: nat | d < i < |l1.stack| ensures OutputInAt(l1, procs1, m1, i) {
      if i < |l.stack| {
        assert OutputInAt(l, procs, m1, i);
        SameOutput(m1, procs[l.stack[i]], procs1[l1.stack[i]], low, procs[l.stack[i - 1]]);
      }
      SameParent(m1, procs1[l1.stack[i]], procs[l.stack[i - 1]], procs1[l1.stack[i - 1]]);
    }
  }

  lemma SameParent(m: seq<u8>, p: Process, parent: Process, parent1: Process)
    requires SameBounds(parent, parent1) && OutputIn(m, p, parent)
    ensures OutputIn(m, p, parent1)
  {
  }

  /** One event keeps what has been said of the run. */
  lemma RunOn(l0: Layout, s0: map<nat, Stream>, m0: seq<u8>, p: Process, child: nat, low: nat, limit: nat, base: nat,
              made: seq<Made>, ok: bool, l: Layout, procs: map<nat, Process>, streams: map<nat, Stream>, heap: nat,
                current: nat, m: seq<u8>,
              made1: seq<Made>, ok1: bool, l1: Layout, procs1: map<nat, Process>, streams1: map<nat, Stream>,
                heap1: nat, current1: nat,
              m1: seq<u8>)
    requires Running(l0, s0, m0, p, child, low, made, ok, l, procs, streams, heap, current, m) && current >= child
    requires LastOr0(l0.stack) == child && Moved(l, l1, heap) && RangesKept(procs, procs1)
      && LowSteady(streams, streams1, current)
    requires made <= made1
    requires AllSafe(made1) && Inside(l0, l) && OutputsOk(l, procs, m, low, |l0.stack| - 1) ==>
      ok1 && current in procs && OwnChange(m, m1, procs[current])
      && NewOutputOk(l, l1, heap, procs, procs1, current, current1, m1, low)
    requires RecordsGood(l, base, procs, streams, heap, low, current, limit)
    requires RecordsGood(l1, base, procs1, streams1, heap1, low, current1, limit)
    ensures Running(l0, s0, m0, p, child, low, made1, ok1, l1, procs1, streams1, heap1, current1, m1)
  {
    hide RecordsGood, LowSteady, OutputOk, OutputsOk, OwnChange, Inside, Popped, Moved, RangesKept, NewOutputOk,
      AllSafe, SameBounds;
    InsideCurrent(l0, l, base, procs, streams, heap, low, current, limit);
    InsideStep(l0, l, l1, heap);
    SteadyTrans(s0, streams, streams1, child, current);
    if OutputOk(m0, p, low) && AllSafe(made1) {
      FewerSafe(made, made1);
      RunSafe(l0, m0, p, child, low, limit, base, l, procs, streams, heap, current, m, l1, procs1, streams1, heap1,
        current1, m1);
    }
    if Inside(l0, l1) {
      InsideCurrent(l0, l1, base, procs1, streams1, heap1, low, current1, limit);
      KeptBounds(p, procs, procs1, child);
    } else {
      EndedCurrent(l, base, procs, streams, heap, low, current, limit, l1, procs1, streams1, heap1, current1);
      RecordsCurrent(l, base, procs, streams, heap, low, current, limit);
    }
  }

  /** The output of the current process is one of those in order. */
  lemma LastOutput(l0: Layout, l: Layout, procs: map<nat, Process>, m: seq<u8>, low: nat, current: nat)
    requires Inside(l0, l) && OutputsOk(l, procs, m, low, |l0.stack| - 1) && current == LastOr0(l.stack)
    ensures current in procs && OutputOk(m, procs[current], low)
  {
    hide OutputOk;
  }

  lemma LaterSafe(made0: seq<Made>, made1: seq<Made>, made: seq<Made>)
    requires made0 <= made1 <= made && AllSafe(made[|made0|..])
    ensures AllSafe(made[|made1|..])
  {
    forall i | 0 <= i < |made[|made1|..]|
      ensures SafeCall(made[|made1|..][i].process, made[|made1|..][i].call, made[|made1|..][i].word)
    {
      assert made[|made1|..][i] == made[|made0|..][i + |made1| - |made0|];
    }
  }

  lemma FewerSafe(made: seq<Made>, made1: seq<Made>)
    requires made <= made1 && AllSafe(made1)
    ensures AllSafe(made)
  {
    forall i | 0 <= i < |made| ensures SafeCall(made[i].process, made[i].call, made[i].word) {
      assert made[i] == made1[i];
    }
  }

  lemma RunSafe(l0: Layout, m0: seq<u8>, p: Process, child: nat, low: nat, limit: nat, base: nat,
                l: Layout, procs: map<nat, Process>, streams: map<nat, Stream>, heap: nat, current: nat, m: seq<u8>,
                l1: Layout, procs1: map<nat, Process>, streams1: map<nat, Stream>, heap1: nat, current1: nat,
                  m1: seq<u8>)
    requires Inside(l0, l) && LastOr0(l0.stack) == child && child in procs && SameBounds(p, procs[child])
      && Moved(l, l1, heap)
    requires RangesKept(procs, procs1) && OwnChange(m0, m, p) && OutputsOk(l, procs, m, low, |l0.stack| - 1)
    requires current in procs && OwnChange(m, m1, procs[current])
    requires NewOutputOk(l, l1, heap, procs, procs1, current, current1, m1, low)
    requires RecordsGood(l, base, procs, streams, heap, low, current, limit)
    requires RecordsGood(l1, base, procs1, streams1, heap1, low, current1, limit)
    ensures OwnChange(m0, m1, p) && (Inside(l0, l1) ==> OutputsOk(l1, procs1, m1, low, |l0.stack| - 1))
  {
    hide OutputsOk, OwnChange, Moved, RangesKept, NewOutputOk, SameBounds, Arranged;
    RecordsParts(l, base, procs, streams, heap, low, current, limit);
    RecordsParts(l1, base, procs1, streams1, heap1, low, current1, limit);
    var d := |l0.stack| - 1;
    assert l.stack[d] == l.stack[..d + 1][d] == child;
    OutputsKept(l, procs, m, m1, low, limit, d);
    SameOwn(m, m1, procs[child], p);
    OwnChangeTrans(m0, m, m1, p);
    if Inside(l0, l1) { OutputsNext(l, l1, heap, procs, procs1, current, current1, m1, low, d); }
  }

  lemma SameOwn(m: seq<u8>, m1: seq<u8>, p: Process, q: Process)
    requires SameBounds(q, p) && OwnChange(m, m1, p)
    ensures OwnChange(m, m1, q)
  {
  }

  lemma KeptBounds(p: Process, procs: map<nat, Process>, procs1: map<nat, Process>, a: nat)
    requires RangesKept(procs, procs1) && a in procs && a in procs1 && SameBounds(p, procs[a])
    ensures SameBounds(p, procs1[a])
  {
  }

  /** The current process and those that it starts run, until it ends, or the stack pointer of a process leaves its
      range upwards, or one makes the kernel write out of the memory of programs. A store that the pages do not let
      through ends its process. Always, the streams from before stay, and once the process has ended the records are
      those from before it was started. And if its output is in order and all calls are safe, memory changes only in
      its range and in what is left of its output, and the pointer to the end of the output stays in it. The trace has
      the states after each event, and the history gets the calls that the traps make. */
  method Run(k: Kernel, events: seq<Event>, child: nat) returns (n: nat, ok: bool, ghost trace: seq<Moment>)
    requires k.Valid() && child == k.current && child in k.procs
    modifies k, k.disk, k.disk.image, k.pages, k.memory
    ensures k.Valid() && n <= |events| && |old(k.layout).counts| == |old(k.layout).stack| > 0
    ensures k.current >= child || (|old(k.layout).stack| > 1 && k.layout == Popped(old(k.layout)) && k.heap == child)
    ensures LowSteady(old(k.streams), k.streams, child) && old(k.history) <= k.history
    ensures OutputOk(old(k.memory[..]), old(k.procs[child]), k.heapLimit) && AllSafe(k.history[|old(k.history)|..]) ==>
      ok && OwnChange(old(k.memory[..]), k.memory[..], old(k.procs[child]))
    ensures |trace| == n + 1 && trace[0] == old(k.Now()) && trace[n] == k.Now()
      && IsTrace(trace, events[..n], k.heapLimit, ok)
    ensures k.history == old(k.history) + AllMade(trace, events[..n])
    ensures n < |events| && ok && k.current >= child ==> Strays(events[n], k.current, k.procs)
  {
    hide RecordsGood, FilesGood, PagesGood, LowSteady, OutsideSame, Inside, Popped, Moved, RangesKept, Running,
      OwnChange, OutputOk, OutputsOk, AllSafe, SameBounds, InOrder, IsTrace, AllMade, MadeOf, Happens;
    trace := [k.Now()];
    TraceStart(k.Now(), events, k.heapLimit);
    ghost var l0, s0, p, m0, low, made0 := k.layout, k.streams, k.procs[child], k.memory[..], k.heapLimit, k.history;
    n, ok := 0, true;
    RunStart(l0, k.base, k.procs, s0, k.heap, low, child, k.memory.Length, m0, made0);
    while n < |events| && k.current >= child && ok
      invariant k.Valid() && n <= |events| && made0 <= k.history
      invariant |trace| == n + 1 && trace[0] == old(k.Now()) && trace[n] == k.Now()
        && IsTrace(trace, events[..n], low, ok) && k.history == made0 + AllMade(trace, events[..n])
      invariant Running(l0, s0, m0, p, child, low, k.history[|made0|..], ok, k.layout, k.procs, k.streams, k.heap,
        k.current, k.memory[..])
    {
      CurrentProcess(k.layout, k.base, k.procs, k.streams, k.heap, k.heapLimit, k.current, k.memory.Length);
      var event := events[n];
      if event.Trap? && event.stackPointer >= k.procs[k.current].end + 4096 { break; }
      RecordsCurrent(k.layout, k.base, k.procs, k.streams, k.heap, k.heapLimit, k.current, k.memory.Length);
      ghost var l, s, ps, h, m, c, made := k.layout, k.streams, k.procs, k.heap, k.memory[..], k.current,
        k.history[|made0|..];
      ok := Do(k, event);
      TraceMore(trace, k.Now(), events, n, low, ok);
      trace := trace + [k.Now()];
      n := n + 1;
      if AllSafe(k.history[|made0|..]) && OutputsOk(l, ps, m, low, |l0.stack| - 1) && Inside(l0, l) {
        LastOutput(l0, l, ps, m, low, c);
        LaterSafe(made0, made0 + made, k.history);
      }
      RunOn(l0, s0, m0, p, child, low, k.memory.Length, k.base, made, true, l, ps, s, h, c, m,
        k.history[|made0|..], ok, k.layout, k.procs, k.streams, k.heap, k.current, k.memory[..]);
    }
    RunningEnd(l0, s0, m0, p, child, low, k.history[|made0|..], ok, k.layout, k.procs, k.streams, k.heap, k.current,
      k.memory[..]);
  }

  /** One event. */
  method Do(k: Kernel, event: Event) returns (ok: bool)
    requires k.Valid() && k.current in k.procs && k.current != 0
    requires event.Trap? ==> event.stackPointer < k.procs[k.current].end + 4096
    modifies k, k.disk, k.disk.image, k.pages, k.memory
    ensures k.Valid() && Moved(old(k.layout), k.layout, old(k.heap)) && RangesKept(old(k.procs), k.procs)
    ensures LowSteady(old(k.streams), k.streams, old(k.current)) && old(k.history) <= k.history
    ensures Happens(old(k.Now()), k.Now(), k.heapLimit, event, ok)
    ensures k.history == old(k.history) + MadeOf(old(k.Now()), event)
    ensures AllSafe(k.history[|old(k.history)|..]) && OutputOk(old(k.memory[..]), old(k.procs[k.current]),
      k.heapLimit) ==>
      ok && OwnChange(old(k.memory[..]), k.memory[..], old(k.procs[k.current]))
      && NewOutputOk(old(k.layout), k.layout, old(k.heap), old(k.procs), k.procs, old(k.current), k.current,
        k.memory[..], k.heapLimit)
  {
    hide RecordsGood, FilesGood, PagesGood, LowSteady, OutsideSame, Popped, Grown, Pushed, Moved, RangesKept,
      OwnChange, OutputOk, OutputIn, Effect, SafeCall, Step, NewOutputOk, AllSafe, WordAt, CallAt, ContainsBuffer,
      Handled, Exits, StoreDone;
    ghost var s, l, ps, h, m, c, made := k.Now(), k.layout, k.procs, k.heap, k.memory[..], k.current, k.history;
    CurrentProcess(k.layout, k.base, k.procs, k.streams, k.heap, k.heapLimit, k.current, k.memory.Length);
    RangeFacts(k.procs[c], k.heapLimit, k.memory.Length);
    match event {
      case Trap(id, args, stackPointer, returnAddress, key) =>
        var r;
        r, ok := k.SystemCall(id, args, stackPointer, returnAddress, key);
        ghost var s1 := Entered(s, stackPointer, returnAddress);
        if IsCall(Caller(s1), id, args) {
          Trapped(s1, k.Now(), ps, k.heapLimit, MadeBy(Caller(s1), m, id, args), r, key, ok);
          assert k.history[|made|..] == [MadeBy(Caller(s1), m, id, args)];
        } else {
          NothingDone(l, h, ps, k.procs, c, k.current, m, k.heapLimit);
        }
      case Write(at, data) =>
        ok := k.UserStore(at, data);
        ghost var m1 := k.memory[..];
        if !ok { k.HardFault(); } else { SameRanges(k.procs); SameSteady(k.streams, c); }
        NothingNew(l, k.layout, h, ps, k.procs, c, k.current, k.memory[..], k.heapLimit);
        if OutputOk(m, ps[c], k.heapLimit) { RangeChange(m, m1, ps[c], k.heapLimit); }
        ok := true;
    }
  }

  lemma Trapped(s: Moment, t: Moment, procs: map<nat, Process>, low: nat, made: Made, r: u64, key: u64, ok: bool)
    requires s.current in procs && SameBounds(procs[s.current], made.process) && procs[s.current].end <= |s.memory|
    requires s.current in s.procs && Caller(s) == made.process && |s.memory| < TWO64
      && SpawnWord(s.memory, made.call) == made.word
    requires Follows(s, t, low, made.call, key, r, ok)
    ensures Moved(s.layout, t.layout, s.heap)
    ensures AllSafe([made]) && OutputOk(s.memory, procs[s.current], low) ==>
      ok && OwnChange(s.memory, t.memory, procs[s.current])
      && NewOutputOk(s.layout, t.layout, s.heap, procs, t.procs, s.current, t.current, t.memory, low)
  {
    hide Effect, SafeCall, OutputOk, OutputIn, OwnChange, Popped, Grown, Pushed, LowSteady, RangesKept;
    var m, m1 := s.memory, t.memory;
    if AllSafe([made]) && OutputOk(m, procs[s.current], low) {
      assert [made][0] == made;
      SameOutput(m, procs[s.current], made.process, low, made.process);
      SafeEffect(m, m1, made.process, made.call, key, low, ok, made.word);
      SameOwn(m, m1, made.process, procs[s.current]);
      NewOutput(s.layout, t.layout, s.heap, procs, t.procs, s.current, t.current, m1, low, made, r);
    }
  }

  lemma NewOutput(l: Layout, l1: Layout, heap: nat, procs: map<nat, Process>, procs1: map<nat, Process>, current: nat,
                  current1: nat, m1: seq<u8>, low: nat, made: Made, r: u64)
    requires current in procs && SameBounds(procs[current], made.process) && Step(l, l1, heap, made.call, r)
    requires made.call.CallSpawn? && r == 0 ==>
      current1 in procs1 && OutputOk(m1, procs1[current1], low) && OutputIn(m1, procs1[current1], made.process)
    ensures NewOutputOk(l, l1, heap, procs, procs1, current, current1, m1, low)
  {
    hide OutputOk;
    if l1 == Pushed(l, heap) { assert |l1.stack| == |l.stack| + 1; }
  }

  lemma NothingDone(l: Layout, heap: nat, procs: map<nat, Process>, procs1: map<nat, Process>, current: nat,
                    current1: nat, m: seq<u8>, low: nat)
    requires current in procs
    ensures Moved(l, l, heap) && NewOutputOk(l, l, heap, procs, procs1, current, current1, m, low)
    ensures OutputOk(m, procs[current], low) ==> OwnChange(m, m, procs[current])
  {
    hide WordAt;
    if OutputOk(m, procs[current], low) { OwnChangeSelf(m, procs[current]); }
    assert |Pushed(l, heap).stack| == |l.stack| + 1;
  }

  lemma RunStart(l: Layout, base: nat, procs: map<nat, Process>, streams: map<nat, Stream>, heap: nat, low: nat,
                 current: nat, limit: nat, m: seq<u8>, made: seq<Made>)
    requires current in procs && RecordsGood(l, base, procs, streams, heap, low, current, limit)
    ensures |l.counts| == |l.stack| > 0 && made[|made|..] == [] && LastOr0(l.stack) == current != 0
    ensures Running(l, streams, m, procs[current], current, low, made[|made|..], true, l, procs, streams, heap,
      current, m)
  {
    hide RecordsGood, OwnChange, WordAt;
    CurrentProcess(l, base, procs, streams, heap, low, current, limit);
    InsideStart(l, base, procs, streams, heap, low, current, limit);
    SameSteady(streams, current);
    if OutputOk(m, procs[current], low) { OwnChangeSelf(m, procs[current]); }
  }

  lemma RecordsCurrent(l: Layout, base: nat, procs: map<nat, Process>, streams: map<nat, Stream>, heap: nat, low: nat,
                       current: nat, limit: nat)
    requires RecordsGood(l, base, procs, streams, heap, low, current, limit)
    ensures current == LastOr0(l.stack)
  {
    hide Arranged, Ranged;
  }

  lemma RunningEnd(l0: Layout, s0: map<nat, Stream>, m0: seq<u8>, p: Process, child: nat, low: nat, made: seq<Made>,
                   ok: bool, l: Layout, procs: map<nat, Process>, streams: map<nat, Stream>, heap: nat, current: nat,
                     m: seq<u8>)
    requires Running(l0, s0, m0, p, child, low, made, ok, l, procs, streams, heap, current, m)
    ensures current >= child || (|l0.stack| > 1 && |l0.counts| == |l0.stack| && l == Popped(l0) && heap == child)
    ensures LowSteady(s0, streams, child) && (OutputOk(m0, p, low) && AllSafe(made) ==> ok && OwnChange(m0, m, p))
  {
    hide Inside, LowSteady, OutputOk, AllSafe, OwnChange, OutputsOk;
  }

  lemma InsideStart(l: Layout, base: nat, procs: map<nat, Process>, streams: map<nat, Stream>, heap: nat, low: nat,
                    current: nat, limit: nat)
    requires current in procs && RecordsGood(l, base, procs, streams, heap, low, current, limit)
    ensures Inside(l, l) && |l.counts| == |l.stack| > 0 && LastOr0(l.stack) == current
  {
    hide Arranged, Packed;
    CurrentProcess(l, base, procs, streams, heap, low, current, limit);
    assert l.stack[..|l.stack|] == l.stack;
  }

  /** The range and the output of a new process. */
  function Program(dst: u64, end: u64, outputP: u64): Process { Process(0, PageUp(dst), end, 0, 0, 0, 0, 0, outputP,
                   dst) }

  /** A process starts a program, and it and its own programs run. Once control is back, the records are those from
      before, to the address of the end of the heap, and the streams are as they were, but for list streams at files
      that were deleted. And if the request was safe, and so were all calls of the program and of its own ones, memory
      is as it was, but in the range that the program was given, after the output that there was in its output, and in
      the pointer to the end of it, which is still in it. */
  method RunProgram(k: Kernel, dst: u64, name: u64, nameLength: u64, args: u64, argsLength: u64, outputP: u64,
                    events: seq<Event>)
      returns (r: u64, n: nat, ok: bool, ghost trace: seq<Moment>)
    requires k.Valid() && k.current in k.procs
    modifies k, k.disk, k.disk.image, k.pages, k.memory
    ensures k.Valid() && old(k.history) <= k.history
    ensures k.current == old(k.current) ==>
      k.layout == old(k.layout) && k.heap == old(k.heap) && k.streams.Keys == old(k.streams).Keys
    ensures k.current != old(k.current) ==> r == 0 && k.current >= old(k.heap)
    ensures AllSteady(old(k.streams), k.streams)
    ensures n <= |events| && |trace| == n + 1 && trace[n] == k.Now() && IsTrace(trace, events[..n], k.heapLimit, ok)
    ensures Spawns(old(k.Now()), trace[0], k.heapLimit,
      CallSpawn(dst, name, nameLength, args, argsLength, outputP), r)
    ensures k.history == old(k.history) + AllMade(trace, events[..n])
    ensures r == 0 && n < |events| && ok && k.current >= old(k.heap) ==> Strays(events[n], k.current, k.procs)
    ensures r != 0 ==> n == 0 && ok && k.memory[..] == old(k.memory[..])
    ensures
      var end, call, m := old(k.EndOfNew()), CallSpawn(dst, name, nameLength, args, argsLength, outputP),
        old(k.memory[..]);
      r == 0 && end < TWO64 && SafeCall(old(k.procs[k.current]), call, WordAt(m, outputP))
      && AllSafe(k.history[|old(k.history)|..]) ==>
        ok && OwnChange(m, k.memory[..], Program(dst, end, outputP))
  {
    hide RecordsGood, FilesGood, PagesGood, LowSteady, OutsideSame, Popped, Pushed, Patched, ProgramImage, PageUp,
      PageDown, OwnRange, OwnChange, OutputOk, OutputIn, WordAt, SafeCall, AllSafe, ContainsBuffer, Spawns, Follows,
      Started, IsTrace;
    ghost var s, l0, s0, p0, h0, c0 := k.Now(), k.layout, k.streams, k.procs, k.heap, k.current;
    ghost var end, call := k.EndOfNew(), CallSpawn(dst, name, nameLength, args, argsLength, outputP);
    CurrentProcess(l0, k.base, p0, s0, h0, k.heapLimit, c0, k.memory.Length);
    SameSteady(s0, h0);
    BelowHeap(l0, k.base, p0, s0, h0, k.heapLimit, c0, k.memory.Length);
    PushedPopped(l0, h0);
    r := k.SpawnCall(CallSpawn(dst, name, nameLength, args, argsLength, outputP));
    SpawnFollows(s, k.Now(), k.base, k.heapLimit, call, 0, r);
    SpawnedIs(s, k.Now(), k.heapLimit, call, r);
    n, ok, trace := 0, true, [k.Now()];
    TraceStart(k.Now(), events, k.heapLimit);
    if r == 0 {
      ghost var t, made := k.Now(), k.history;
      n, ok, trace := Run(k, events, k.current);
      if SafeCall(p0[c0], call, WordAt(s.memory, outputP)) && AllSafe(k.history[|made|..]) {
        ProgramChange(s, t, k.memory[..], call, k.heapLimit, end);
      }
    }
    SteadyAll(s0, k.streams, h0);
    if k.layout == l0 { SameKeys(l0, k.base, p0, s0, h0, k.heapLimit, c0, k.memory.Length, k.procs, k.streams, k.heap,
      k.current); }
  }

  lemma SpawnedIs(s: Moment, t: Moment, low: nat, call: Call, r: nat)
    requires s.current in s.procs && call.CallSpawn? && Spawns(s, t, low, call, r)
      && Follows(s, t, low, call, 0, r, true)
    ensures r == 0 && SafeCall(Caller(s), call, WordAt(s.memory, call.outputP)) ==>
      t.current in t.procs && OutputOk(t.memory, t.procs[t.current], low)
    ensures r == 0 ==>
      t.current == s.heap && t.current in t.procs && t.layout == Pushed(s.layout, s.heap) && t.streams == s.streams
    ensures r != 0 ==> t == s
  {
    hide Started, SpawnStatus, Pushed, ErrorResult, OutputOk, SafeCall, Step, RangesKept, LowSteady, Effect, WordAt;
    Errors();
    ErrorFails(SpawnStatus(s, low, call));
    if r == 0 {
      var f: nat :| SpawnsFile(s, t, call, f);
      StartedCurrent(s.memory, t.memory, s.procs, t.procs, s.current, t.current, call.dst, EndFor(s), call.outputP,
        FileData(s.img, s.sh, f), BytesIn(s.memory, call.args, call.argsLength));
    }
  }

  lemma StartedCurrent(m: seq<u8>, m1: seq<u8>, procs: map<nat, Process>, procs1: map<nat, Process>, parent: nat,
                       process: nat, dst: u64, end: nat, outputP: u64, code: seq<u8>, args: seq<u8>)
    requires Started(m, m1, procs, procs1, parent, process, dst, end, outputP, code, args)
    ensures process in procs1
  {
    hide Patched, ProgramImage, PageUp;
  }

  /** What a program that a process starts and the programs of that one change. */
  lemma ProgramChange(s: Moment, t: Moment, m1: seq<u8>, call: Call, low: nat, end: nat)
    requires s.current in s.procs && call.CallSpawn? && Spawns(s, t, low, call, 0) && end < TWO64
      && PageDown(Caller(s).savedStackPointer) == end
    requires SafeCall(Caller(s), call, WordAt(s.memory, call.outputP))
    requires t.current in t.procs && OwnChange(t.memory, m1, t.procs[t.current])
    ensures OwnChange(s.memory, m1, Program(call.dst, end, call.outputP))
  {
    hide Started, SpawnStatus, Pushed, ErrorResult, OwnChange, SafeCall, WordAt, PageDown;
    Errors();
    ErrorFails(SpawnStatus(s, low, call));
    var f: nat :| SpawnsFile(s, t, call, f);
    StartedChange(s.memory, t.memory, m1, s.procs, t.procs, s.current, t.current, call, end,
      FileData(s.img, s.sh, f), BytesIn(s.memory, call.args, call.argsLength));
  }

  /** What starting a program and what it does then change. */
  lemma StartedChange(m0: seq<u8>, m: seq<u8>, m1: seq<u8>, procs: map<nat, Process>, procs1: map<nat, Process>,
                      parent: nat, process: nat, call: Call, end: nat, code: seq<u8>, args: seq<u8>)
    requires call.CallSpawn? && Started(m0, m, procs, procs1, parent, process, call.dst, end, call.outputP, code, args)
    requires process in procs1 && OwnChange(m, m1, procs1[process]) && end < TWO64
    requires parent in procs && SafeCall(procs[parent], call, WordAt(m0, call.outputP))
      && PageDown(procs[parent].savedStackPointer) == end
    ensures OwnChange(m0, m1, Program(call.dst, end, call.outputP))
  {
    hide WordAt, Patched, ProgramImage, PageUp, PageDown;
    var p := Program(call.dst, end, call.outputP);
    PatchedSame(m0, PageUp(call.dst), ProgramImage(code, args), PageUp(call.dst), end);
    WordSame(m0, m, call.outputP);
  }

  /** The first process runs the file with the name, in all memory from an address on. */
  ghost predicate FirstStarted(s: Moment, t: Moment, dst: u64, name: u64, nameLength: u64, outputP: u64, f: nat) {
    && FileNamed(s.img, s.sh, f, BytesIn(s.memory, name, nameLength)) && t.current == s.heap
    && t.layout == Pushed(s.layout, s.heap)
    && Started(s.memory, t.memory, s.procs, t.procs, 0, t.current, dst, |s.memory|, outputP,
               FileData(s.img, s.sh, f), [])
  }

  /** The kernel starts the first process, and it and its programs run, whatever they do: there is always a current
      process. And as long as all calls are safe, memory before the range of the first process, that of the kernel,
      stays as it is. */
  method RunShell(k: Kernel, dst: u64, name: u64, nameLength: u64, outputP: u64, events: seq<Event>)
      returns (r: u64, n: nat, ok: bool, ghost trace: seq<Moment>)
    requires k.Valid() && k.current == 0 && k.FirstRequest(dst, name, nameLength, 0, 0, outputP)
      && WordAt(k.memory[..], outputP) == dst
    modifies k, k.disk, k.disk.image, k.pages, k.memory
    ensures k.Valid() && (r == 0 ==> k.current in k.procs) && (r != 0 ==> k.memory[..] == old(k.memory[..]))
    ensures r == ErrorResult(old(k.SpawnError(dst, name, nameLength, 0, 0, outputP)))
    ensures n <= |events| && |trace| == n + 1 && trace[n] == k.Now() && IsTrace(trace, events[..n], k.heapLimit, ok)
    ensures k.history == old(k.history) + AllMade(trace, events[..n]) && old(k.history) <= k.history
    ensures r == 0 && n < |events| && ok ==> Strays(events[n], k.current, k.procs)
    ensures r == 0 ==>
      exists f: nat :: FirstStarted(old(k.Now()), trace[0], dst, name, nameLength, outputP, f)
    ensures r == 0 && AllSafe(k.history[|old(k.history)|..]) ==>
      ok && OutsideSame(old(k.memory[..]), k.memory[..], PageUp(dst), k.memory.Length)
  {
    hide RecordsGood, FilesGood, PagesGood, LowSteady, OutsideSame, Popped, Pushed, Patched, ProgramImage, PageUp,
      PageDown, OwnRange, OwnChange, OutputOk, WordAt, SafeCall, AllSafe, ContainsBuffer, FittingFile, IsNamed, Started;
    ghost var m0, p0 := k.memory[..], k.procs;
    CurrentProcess(k.layout, k.base, k.procs, k.streams, k.heap, k.heapLimit, k.current, k.memory.Length);
    k.FirstFacts(dst, name, nameLength, 0, 0, outputP);
    PageFacts(dst);
    ghost var file;
    ErrorFails(k.SpawnError(dst, name, nameLength, 0, 0, outputP));
    r, file := k.Spawn(dst, name, nameLength, 0, 0, outputP);
    if r == 0 {
      SameBytes(m0, name, nameLength);
      assert FirstStarted(old(k.Now()), k.Now(), dst, name, nameLength, outputP, file);
    }
    n, ok, trace := 0, true, [k.Now()];
    TraceStart(k.Now(), events, k.heapLimit);
    if r == 0 {
      ghost var m, made, p, c := k.memory[..], k.history, k.procs, k.current;
      FirstOutput(m0, m, p0, p, c, dst, k.memory.Length, outputP, old(k.disk.Data(file)), old(k.Bytes(0, 0)),
        k.heapLimit);
      CurrentProcess(k.layout, k.base, k.procs, k.streams, k.heap, k.heapLimit, k.current, k.memory.Length);
      FirstPushed(old(k.layout), c);
      n, ok, trace := Run(k, events, k.current);
      CurrentProcess(k.layout, k.base, k.procs, k.streams, k.heap, k.heapLimit, k.current, k.memory.Length);
      if AllSafe(k.history[|made|..]) {
        FirstKept(m0, m, k.memory[..], p0, p, c, dst, k.memory.Length, outputP, old(k.disk.Data(file)),
          old(k.Bytes(0, 0)), k.heapLimit);
      }
    }
  }

  lemma SameBytes(m: seq<u8>, ptr: nat, size: nat)
    ensures ptr + size <= |m| ==> m[ptr..ptr + size] == BytesIn(m, ptr, size)
  {
  }

  lemma FirstPushed(l: Layout, heap: nat)
    requires l.stack == []
    ensures |Pushed(l, heap).stack| == 1
  {
  }

  lemma FirstOutput(m: seq<u8>, m1: seq<u8>, procs: map<nat, Process>, procs1: map<nat, Process>, process: nat,
                    dst: u64, end: nat, outputP: u64, code: seq<u8>, args: seq<u8>, low: nat)
    requires Started(m, m1, procs, procs1, 0, process, dst, end, outputP, code, args)
    requires outputP + 8 <= low <= dst <= PageUp(dst) && WordAt(m, outputP) == dst
    ensures process in procs1 && OutputOk(m1, procs1[process], low) && WordAt(m1, outputP) == dst
  {
    hide WordAt, Patched, ProgramImage, OutsideSame, PageUp;
    PatchedSame(m, PageUp(dst), ProgramImage(code, args), PageUp(dst), end);
    WordKept(m, m1, outputP, PageUp(dst), end);
  }

  /** The output of the first process is empty, so that the pointer to its end stays as it is. */
  lemma FirstKept(m0: seq<u8>, m: seq<u8>, m1: seq<u8>, procs: map<nat, Process>, procs1: map<nat, Process>,
                  process: nat, dst: u64, end: nat, outputP: u64, code: seq<u8>, args: seq<u8>, low: nat)
    requires Started(m0, m, procs, procs1, 0, process, dst, end, outputP, code, args) && process in procs1
    requires outputP + 8 <= low <= dst <= PageUp(dst) && WordAt(m, outputP) == dst
      && OwnChange(m, m1, procs1[process]) && end == |m|
    ensures OutsideSame(m0, m1, PageUp(dst), end)
  {
    hide WordAt, Patched, ProgramImage, PageUp;
    PatchedSame(m0, PageUp(dst), ProgramImage(code, args), PageUp(dst), end);
    SameWord(m, m1, outputP);
  }

  lemma SameWord(m: seq<u8>, m1: seq<u8>, a: nat)
    requires |m1| == |m| && a + 8 <= |m| && WordAt(m1, a) == WordAt(m, a)
    ensures forall k :: a <= k < a + 8 ==> m1[k] == m[k]
  {
    forall k | a <= k < a + 8 ensures m1[k] == m[k] {
      if m1[k] != m[k] { WordDiffers(m, m1, a, k); }
    }
  }

  ghost predicate AllSteady(streams: map<nat, Stream>, streams1: map<nat, Stream>) {
    forall a: nat :: a in streams ==> a in streams1 && Steady(streams[a], streams1[a])
  }

  lemma SteadyAll(streams: map<nat, Stream>, streams1: map<nat, Stream>, heap: nat)
    requires LowSteady(streams, streams1, heap) && forall a: nat :: a in streams ==> a < heap
    ensures AllSteady(streams, streams1)
  {
  }

  lemma BelowHeap(l: Layout, base: nat, procs: map<nat, Process>, streams: map<nat, Stream>, heap: nat, low: nat,
                  current: nat, limit: nat)
    requires RecordsGood(l, base, procs, streams, heap, low, current, limit)
    ensures forall a: nat :: a in streams ==> a < heap
  {
    hide RecordsGood, Arranged, Packed;
    RecordsParts(l, base, procs, streams, heap, low, current, limit);
    forall a: nat | a in streams ensures a < heap {
      var i, j := StreamPlace(l, base, procs, streams, a);
      SlotBelow(l, base, procs, streams, i, j);
    }
  }

  lemma SlotBelow(l: Layout, base: nat, procs: map<nat, Process>, streams: map<nat, Stream>, i: nat, j: nat)
    requires HasSlot(l, i, j) && |l.counts| == |l.stack| && Arranged(l, base, procs, streams)
    ensures Slot(l, i, j) < Top(l, base)
  {
    hide Packed, Chained, Strung;
    ArrangedParts(l, base, procs, streams);
    StackBase(l, base, i);
  }

  lemma PushedPopped(l: Layout, heap: nat)
    requires |l.counts| == |l.stack|
    ensures |Pushed(l, heap).stack| > 0 && |Pushed(l, heap).counts| == |Pushed(l, heap).stack|
      && Popped(Pushed(l, heap)) == l
  {
  }

  /** The layout says which streams there are. */
  lemma SameKeys(l: Layout, base: nat, procs: map<nat, Process>, streams: map<nat, Stream>, heap: nat, low: nat,
                 current: nat, limit: nat, procs1: map<nat, Process>, streams1: map<nat, Stream>, heap1: nat,
                   current1: nat)
    requires RecordsGood(l, base, procs, streams, heap, low, current, limit)
    requires RecordsGood(l, base, procs1, streams1, heap1, low, current1, limit)
    ensures streams1.Keys == streams.Keys && heap1 == heap && current1 == current
  {
    hide Packed, Chained, Ranged, IsSlot;
  }
}
