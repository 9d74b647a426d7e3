/** The kernel: nested processes, each with its range of memory and its file streams, and the system calls on them. */
module Kernel {
  import opened Words
  import opened Stores
  import opened Blocks
  import opened Volumes
  import opened Reshaping
  import opened Appending
  import opened FileSystem
  import opened Paging
  import opened Records
  import opened Streams
  import opened Output
  import opened Requests
  import opened Calls

  class Kernel {
    const disk: FileSystem
    const pages: PageTables
    const memory: array<u8>
    const heapLimit: nat
    var heap: nat
    var current: nat
    var procs: map<nat, Process>
    var streams: map<nat, Stream>
    ghost const base: nat
    ghost var layout: Layout
    /** The last name that each list stream gave, and the calls made. */
    ghost var seen: map<nat, seq<u8>>
    ghost var history: seq<Made>

    /** The records of processes and streams fill the heap without overlap; ranges nest. */
    ghost predicate RecordsOk()
      reads this
    {
      RecordsGood(layout, base, procs, streams, heap, heapLimit, current, memory.Length)
    }

    /** The disk is a good file system, the streams point into it, and writers exclude others. */
    ghost predicate FilesOk()
      reads this, disk, disk.image
    {
      FilesGood(disk.image[..], disk.shape, streams, seen)
    }

    ghost predicate PagesOk()
      reads this, pages
    {
      PagesGood(pages.memory, pages.top, memory.Length, BeginOf(procs, current), EndOf(procs, current))
    }

    ghost predicate Valid()
      reads this, disk, disk.image, pages
    {
      RecordsOk() && FilesOk() && PagesOk()
    }

    constructor (d: FileSystem, p: PageTables, m: array<u8>, start: nat, limit: nat)
      requires d.Valid() && PagesGood(p.memory, p.top, m.Length, 0, 0) && 0 < start <= limit < PHYSICAL_LIMIT
        && 4096 <= limit
      requires m.Length < PHYSICAL_LIMIT && m.Length % 4096 == 0
      ensures Valid() && disk == d && pages == p && memory == m && heapLimit == limit && base == start
      ensures heap == start && current == 0 && procs == map[] && streams == map[] && layout == Layout([], [])
        && seen == map[] && history == []
    {
      disk, pages, memory, heapLimit, heap := d, p, m, limit, start;
      current, procs, streams, base, layout, seen, history := 0, map[], map[], start, Layout([], []), map[], [];
    }

    // ----- processes -----

    /** os_set_current_process. The range of the process whose pages are set, from b to e, is in the parent's or the
        process's. */
    method SetCurrentProcess(process: nat, ghost b: nat, ghost e: nat)
      requires process in procs && PagesGood(pages.memory, pages.top, memory.Length, b, e)
      requires OwnRange(procs[process], heapLimit, memory.Length)
      requires procs[process].parent != 0 ==>
        procs[process].parent in procs && OwnRange(procs[procs[process].parent], heapLimit, memory.Length)
        && procs[procs[process].parent].begin <= b && e <= procs[procs[process].parent].end
      requires procs[process].parent == 0 ==> e <= b || (procs[process].begin <= b && e <= procs[process].end)
      modifies this`current, pages
      ensures current == process && PagesGood(pages.memory, pages.top, memory.Length, procs[process].begin,
        procs[process].end)
    {
      hide Separate, Isolated, PagesSet;
      ghost var m, top, limit := pages.memory, pages.top, memory.Length;
      var p := procs[process];
      if p.parent != 0 {
        pages.SetPages(procs[p.parent].begin, procs[p.parent].end, false, limit);
        ghost var m1 := pages.memory;
        pages.SetPages(p.begin, p.end, true, limit);
        Switched(m, m1, pages.memory, top, limit, b, e, procs[p.parent].begin, procs[p.parent].end, p.begin, p.end);
      } else {
        pages.SetPages(p.begin, p.end, true, limit);
        Widened(m, pages.memory, top, limit, b, e, p.begin, p.end);
      }
      current := process;
    }

    /** mem_copy_non_overlapping, from outside the memory: the code of a program comes from the disk. */
    method Store(dst: nat, data: seq<u8>)
      requires dst + |data| <= memory.Length
      modifies memory
      ensures memory[..] == Patched(old(memory[..]), dst, data)
    {
      var i := 0;
      assert memory[..] == Patched(old(memory[..]), dst, data[..0]);
      while i < |data|
        invariant i <= |data| && memory[..] == Patched(old(memory[..]), dst, data[..i])
      {
        ghost var m := memory[..];
        memory[dst + i] := data[i];
        PatchedNext(old(memory[..]), m, memory[..], dst, data, i);
        i := i + 1;
      }
      assert data[..i] == data;
    }

    /** mem_copy_non_overlapping, inside the memory. */
    method Copy(src: nat, dst: nat, size: nat)
      requires src + size <= memory.Length && dst + size <= memory.Length
      modifies memory
      ensures memory[..] == Forwarded(old(memory[..]), src, dst, size)
    {
      var i := 0;
      ghost var m0 := memory[..];
      while i < size
        invariant i <= size && memory[..] == Forwarded(m0, src, dst, i)
      {
        ghost var m := memory[..];
        memory[dst + i] := memory[src + i];
        assert memory[..] == m[dst + i := m[src + i]];
        i := i + 1;
      }
    }

    /** A request of the current process, or of the kernel itself, to start a program. */
    ghost predicate RequestOk(dst: u64, name: u64, nameLength: u64, args: u64, argsLength: u64, outputP: u64)
      reads this, memory
    {
      current in procs ==>
        RequestGood(procs[current], memory[..], dst, name, nameLength, args, argsLength, outputP)
    }

    /** Where a new process ends. */
    ghost function EndOfNew(): nat
      reads this
    {
      if current in procs then PageDown(procs[current].savedStackPointer) else memory.Length
    }

    /** The kernel itself starts the first process, without arguments; the pointer to the end of its output is the
        kernel's. */
    predicate FirstRequest(dst: u64, name: u64, nameLength: u64, args: u64, argsLength: u64, outputP: u64) {
      argsLength == 0 && args <= memory.Length && name + nameLength <= memory.Length
      && outputP + 8 <= heapLimit <= memory.Length
      && heapLimit <= dst && dst + 4095 < TWO64 && PageUp(dst) <= memory.Length
    }

    ghost function Bytes(ptr: nat, size: nat): seq<u8>
      reads memory
    {
      if ptr + size <= memory.Length then memory[ptr..ptr + size] else []
    }

    function BytesAt(ptr: nat, size: u64): (b: seq<u8>)
      reads memory
      requires ptr + size <= memory.Length
      ensures |b| == size
    {
      memory[ptr..ptr + size]
    }

    /** A file with the name fits, with its arguments. */
    ghost predicate Startable(name: seq<u8>, argsLength: u64, begin: nat, end: nat)
      reads disk, disk.image
    {
      FittingFile(disk.image[..], disk.shape, name, argsLength, begin, end)
    }

    /** The checks of os_spawn on a request of the current process. */
    method CheckRequest(p: Process, dst: u64, name: u64, nameLength: u64, args: u64, argsLength: u64, outputP: u64)
        returns (ok: bool)
      requires current in procs && p == procs[current] && p.end <= memory.Length < TWO64
      ensures ok <==> RequestOk(dst, name, nameLength, args, argsLength, outputP)
    {
      var begin, end := PageUp(dst), PageDown(p.savedStackPointer);
      if end < begin || begin < p.begin || !ContainsBuffer(p, name, nameLength)
        || !ContainsBuffer(p, args, argsLength) {
        return false;
      }
      if Wrap(args + argsLength) > begin && args < end { return false; }
      if !ContainsBuffer(p, outputP, 8) { return false; }
      var output := Word(outputP);
      ok := !(output < p.begin || output > dst);
    }

    ghost predicate IsProgram(file: nat, nameLength: nat, code: seq<u8>)
      reads disk, disk.image
    {
      disk.Valid() && file in disk.shape.chains && |disk.NameOf(file)| == nameLength && code == disk.Data(file)
    }

    /** Loading a program: its code, the size of its arguments and its arguments, one after the other. */
    method Load(file: nat, nameLength: u64, size: nat, begin: nat, args: u64, argsLength: u64, ghost code: seq<u8>)
      requires IsProgram(file, nameLength, code) && size == |code|
      requires begin + size + 8 + argsLength <= memory.Length && args + argsLength <= memory.Length
      requires argsLength == 0 || args + argsLength <= begin || begin + size + 8 + argsLength <= args
      modifies disk`buffer, memory
      ensures memory[..] == Patched(old(memory[..]), begin, ProgramImage(code, old(BytesAt(args, argsLength))))
    {
      hide Good, Rest, Link, NameLength, LE64, Patched;
      ghost var img, sh, m := disk.image[..], disk.shape, memory[..];
      StartOfFile(img, sh, file);
      HeaderSize(img, sh, file);
      var missing, block, offset, data;
      ghost var i;
      missing, block, offset, data, i := disk.ReadFile(file, 24 + nameLength, size, file, 0);
      WholeRest(code, size);
      Store(begin, data);
      Store(begin + size, LE64(argsLength));
      ghost var m2 := memory[..];
      PatchedMore(m, begin, data, LE64(argsLength));
      PatchedOutside(m, begin, data + LE64(argsLength), args, argsLength);
      Copy(args, begin + size + 8, argsLength);
      ForwardedIs(m2, args, begin + size + 8, argsLength);
      PatchedMore(m, begin, data + LE64(argsLength), m[args..args + argsLength]);
    }

    /** How os_spawn fails, if it does. */
    ghost function SpawnError(dst: u64, name: u64, nameLength: u64, args: u64, argsLength: u64, outputP: u64): Status
      reads this, memory, disk, disk.image
    {
      if PROCESS_SIZE > heapLimit - heap then OUT_OF_MEMORY
      else if !RequestOk(dst, name, nameLength, args, argsLength, outputP) then INVALID_ARGUMENT
      else if !NamedNow(Bytes(name, nameLength)) then NOT_FOUND
      else if !Startable(Bytes(name, nameLength), argsLength, PageUp(dst), EndOfNew()) then OUT_OF_MEMORY
      else OK
    }

    /** os_spawn: starts a program in the memory after `dst`, up to the stack of the current process. */
    method Spawn(dst: u64, name: u64, nameLength: u64, args: u64, argsLength: u64, outputP: u64)
        returns (r: u64, ghost file: nat)
      requires Valid()
      requires current == 0 ==> FirstRequest(dst, name, nameLength, args, argsLength, outputP)
      modifies this`heap, this`current, this`procs, this`layout, disk`buffer, pages, memory
      ensures Valid()
      ensures r == ErrorResult(old(SpawnError(dst, name, nameLength, args, argsLength, outputP)))
      ensures r != 0 ==> unchanged(this) && memory[..] == old(memory[..]) && pages.memory == old(pages.memory)
      ensures r == 0 ==>
        current == old(heap) && heap == old(heap) + PROCESS_SIZE && layout == Pushed(old(layout), old(heap))
        && streams == old(streams) && seen == old(seen)
        && file in old(disk.shape.chains) && old(disk.NameOf(file)) == old(Bytes(name, nameLength))
        && Started(old(memory[..]), memory[..], old(procs), procs, old(current), current, dst, old(EndOfNew()), outputP,
                   old(disk.Data(file)), old(Bytes(args, argsLength)))
    {
      hide RecordsGood, FilesGood, PagesGood, Good, Link, NameLength, Rest, NameIn, Content, OwnRange, InParent,
        Pushed, Arranged, Ranged, RequestGood, ContainsBuffer, PageUp, PageDown, Patched, LE64, Started;
      CurrentProcess(layout, base, procs, streams, heap, heapLimit, current, memory.Length);
      file := 0;
      if PROCESS_SIZE > heapLimit - heap { return ErrorResult(OUT_OF_MEMORY), file; }
      var begin := PageUp(dst);
      var end: nat := memory.Length;
      var parent := current;
      if parent != 0 {
        RangeFacts(procs[parent], heapLimit, memory.Length);
        end := PageDown(procs[parent].savedStackPointer);
        var ok := CheckRequest(procs[parent], dst, name, nameLength, args, argsLength, outputP);
        if !ok { return ErrorResult(INVALID_ARGUMENT), file; }
        RequestMeans(procs[parent], memory[..], dst, name, nameLength, args, argsLength, outputP);
      } else {
        FirstFacts(dst, name, nameLength, args, argsLength, outputP);
      }
      ghost var img, sh, bytes := disk.image[..], disk.shape, Bytes(name, nameLength);
      FilesParts(img, sh, streams, seen);
      var f, previous;
      ghost var i;
      f, previous, i := disk.FindFile(memory[name..name + nameLength], 0);
      assert f != 0 ==> FileNamed(img, sh, f, bytes);
      if f == 0 {
        return ErrorResult(NOT_FOUND), file;
      }
      file := f;
      ghost var code := disk.Data(f);
      FittingIs(img, sh, f, bytes, argsLength, begin, end);
      var size := disk.GetFileSize(f);
      if size > end - begin { return ErrorResult(OUT_OF_MEMORY), file; }
      var userHeap, userLimit: int := begin + size, end - STACK_RESERVE;
      if userLimit < userHeap + 8 || argsLength > userLimit - userHeap - 8 { return ErrorResult(OUT_OF_MEMORY), file; }
      Launch(f, nameLength, size, dst, begin, end, args, argsLength, outputP, code);
      r := 0;
    }

    /** The part of os_spawn that changes the state. */
    method Launch(file: nat, nameLength: u64, size: nat, dst: u64, begin: nat, end: nat, args: u64, argsLength: u64,
                  outputP: u64, ghost code: seq<u8>)
      requires RecordsOk() && FilesOk() && PagesOk() && PROCESS_SIZE <= heapLimit - heap
      requires IsProgram(file, nameLength, code) && size == |code| && begin == PageUp(dst) && begin % 4096 == 0
      requires begin + size + 8 + argsLength + STACK_RESERVE <= end <= memory.Length
      requires args + argsLength <= memory.Length && (argsLength == 0 || args + argsLength <= begin || end <= args)
      requires outputP + 8 <= memory.Length
      requires
        if current == 0 then heapLimit <= begin && end == memory.Length
        else
          current in procs && procs[current].begin <= begin && end % 4096 == 0
          && end <= procs[current].end
      modifies this`heap, this`current, this`procs, this`layout, disk`buffer, pages, memory
      ensures RecordsOk() && FilesOk() && PagesOk()
      ensures current == old(heap) && heap == old(heap) + PROCESS_SIZE && layout == Pushed(old(layout), old(heap))
        && streams == old(streams) && seen == old(seen)
      ensures Started(old(memory[..]), memory[..], old(procs), procs, old(current), current, dst, end, outputP, code,
                      old(BytesAt(args, argsLength)))
    {
      hide RecordsGood, FilesGood, PagesGood, Good, Link, NameLength, Rest, NameIn, Content, OwnRange, InParent,
        Pushed, Arranged, Ranged, RequestGood, ContainsBuffer, PageUp, PageDown, Patched, LE64, Started;
      CurrentProcess(layout, base, procs, streams, heap, heapLimit, current, memory.Length);
      ghost var b, e, more, m := BeginOf(procs, current), EndOf(procs, current), BytesAt(args, argsLength), memory[..];
      Load(file, nameLength, size, begin, args, argsLength, code);
      var p := Process(current, begin, end, begin + size, end - STACK_RESERVE, end, begin, 0, outputP, dst);
      NewRange(procs, current, p, heapLimit, memory.Length, b, e);
      PushedRecords(layout, base, procs, streams, heap, heapLimit, current, memory.Length, p);
      StartedIs(m, memory[..], procs, current, heap, dst, end, outputP, code, more);
      var process := heap;
      layout := Pushed(layout, process);
      heap := heap + PROCESS_SIZE;
      procs := procs[process := p];
      SetCurrentProcess(process, b, e);
    }

    lemma FirstFacts(dst: u64, name: u64, nameLength: u64, args: u64, argsLength: u64, outputP: u64)
      requires current !in procs && FirstRequest(dst, name, nameLength, args, argsLength, outputP)
      ensures RequestOk(dst, name, nameLength, args, argsLength, outputP)
      ensures heapLimit <= PageUp(dst) <= memory.Length && PageUp(dst) % 4096 == 0 && name + nameLength <= memory.Length
      ensures argsLength == 0 && args <= memory.Length && outputP + 8 <= memory.Length
    {
      PageFacts(dst);
    }

    /** os_exit: ends the current process; its parent gets the result. The heap is back where it was before the
        process was started, and the streams of the processes before it are as they were. */
    method Exit(result: u64) returns (r: u64)
      requires Valid() && current != 0 && current in procs
      modifies this`heap, this`current, this`procs, this`layout, this`streams, pages
      ensures Valid()
      ensures r == if old(procs[current].parent) == 0 then ErrorResult(INVALID_STATE)
                   else if result >= ERROR_UNIT then ErrorResult(INVALID_ARGUMENT) else 0
      ensures r != 0 ==> unchanged(this) && pages.memory == old(pages.memory)
      ensures |old(layout).counts| == |old(layout).stack| && old(layout).stack != []
      ensures r == 0 ==>
        heap == old(current) && current == old(procs[current].parent) && current in old(procs)
        && |old(layout).stack| > 1
        && layout == Popped(old(layout)) && streams == Below(old(streams), old(current)) && seen == old(seen)
        && procs == (old(procs) - {old(current)})[current := old(procs)[current].(savedR8 := result)]
    {
      hide RecordsGood, FilesGood, PagesGood, Popped, Below, OwnRange, InParent;
      CurrentProcess(layout, base, procs, streams, heap, heapLimit, current, memory.Length);
      var process := current;
      if procs[process].parent == 0 { return ErrorResult(INVALID_STATE); }
      if result >= ERROR_UNIT { return ErrorResult(INVALID_ARGUMENT); }
      CurrentParent(layout, base, procs, streams, heap, heapLimit, current, memory.Length);
      PoppedRecords(layout, base, procs, streams, heap, heapLimit, current, memory.Length);
      BelowFiles(disk.image[..], disk.shape, streams, seen, current);
      ghost var b, e := procs[process].begin, procs[process].end;
      ghost var procs0 := procs - {process};
      heap := process;
      process := procs[process].parent;
      streams := Below(streams, heap);
      layout := Popped(layout);
      procs := (procs - {heap})[process := procs[process].(savedR8 := result)];
      SavedRecords(layout, base, procs0, procs, streams, heap, heapLimit, process, memory.Length);
      Ranges(old(procs), procs, heap, process, result, heapLimit, memory.Length);
      SetCurrentProcess(process, b, e);
      r := 0;
    }

    // ----- streams -----

    /** process_get_file_stream, for the current process. */
    method GetStream(id: u64) returns (stream: nat)
      requires RecordsOk() && current in procs && FIRST_FILE_STREAM_ID <= id
      ensures stream == StreamOf(id)
      ensures stream != 0 ==> stream in streams
    {
      hide RecordsGood, Arranged;
      RecordsParts(layout, base, procs, streams, heap, heapLimit, current, memory.Length);
      CurrentProcess(layout, base, procs, streams, heap, heapLimit, current, memory.Length);
      ghost var n, j := |layout.stack| - 1, 0;
      stream := procs[current].fileStreams;
      var k := FIRST_FILE_STREAM_ID;
      while stream != 0 && k != id
        invariant FIRST_FILE_STREAM_ID <= k <= id && j == k - FIRST_FILE_STREAM_ID && j <= layout.counts[n]
        invariant stream == if j < layout.counts[n] then Slot(layout, n, j) else 0
        decreases layout.counts[n] - j
      {
        WalkStream(layout, base, procs, streams, n, j);
        stream := streams[stream].next;
        k := k + 1;
        j := j + 1;
      }
      if stream != 0 { WalkStream(layout, base, procs, streams, n, j); }
    }

    ghost function StreamOf(id: u64): nat
      reads this
    {
      SlotOf(layout, id)
    }

    /** process_can_open: no stream of a process, from the current one to the first, excludes it. */
    method CanOpen(file: nat, mode: u64) returns (ok: bool)
      requires RecordsOk()
      ensures ok <==> AllShare(streams, file, mode)
    {
      hide RecordsGood, Arranged, MayShare;
      RecordsParts(layout, base, procs, streams, heap, heapLimit, current, memory.Length);
      ghost var k := |layout.stack|;
      var process := current;
      while process != 0
        invariant 0 <= k <= |layout.stack| && process == if k == 0 then 0 else layout.stack[k - 1]
        invariant forall i: nat, h: nat :: k <= i && HasSlot(layout, i, h) ==> ShareAt(Slot(layout, i, h), file, mode)
        decreases k
      {
        k := k - 1;
        WalkProcess(layout, base, procs, streams, k);
        var stream := procs[process].fileStreams;
        ghost var j := 0;
        while stream != 0
          invariant j <= layout.counts[k] && stream == if j < layout.counts[k] then Slot(layout, k, j) else 0
          invariant forall h: nat :: h < j && HasSlot(layout, k, h) ==> ShareAt(Slot(layout, k, h), file, mode)
          decreases layout.counts[k] - j
        {
          WalkStream(layout, base, procs, streams, k, j);
          ShareUnfold(streams[stream], file, mode);
          if streams[stream].fileBlock == file && streams[stream].mode != MODE_LIST {
            if streams[stream].mode == MODE_WRITE || mode == MODE_WRITE { return false; }
          }
          stream := streams[stream].next;
          j := j + 1;
        }
        process := procs[process].parent;
      }
      forall a: nat | a in streams ensures MayShare(streams[a], file, mode) {
        ghost var i, h := StreamPlace(layout, base, procs, streams, a);
        if k > 0 { WalkProcess(layout, base, procs, streams, k - 1); }
        assert ShareAt(Slot(layout, i, h), file, mode);
      }
      ok := true;
    }

    ghost predicate ShareAt(a: nat, file: nat, mode: u64)
      reads this
    {
      a in streams && MayShare(streams[a], file, mode)
    }

    /** The current process has a stream that is not in use, or there is room for one more. */
    ghost predicate Available()
      reads this
    {
      heap + STREAM_SIZE <= heapLimit || exists j: nat :: UnusedIn(layout, streams, j)
    }

    /** The search of process_get_unused_file_stream; `last` is the stream before the end of the search, or 0. */
    method FindUnused() returns (stream: nat, last: nat, id: nat, ghost j: nat)
      requires RecordsOk() && current in procs
      ensures j <= CountNow() && stream == SlotNow(j) && last == (if j == 0 then 0 else SlotNow(j - 1))
        && id == FIRST_FILE_STREAM_ID + j
      ensures stream == 0 <==> j == CountNow()
      ensures stream != 0 ==> UnusedIn(layout, streams, j)
      ensures forall h: nat :: h < j ==> !UnusedIn(layout, streams, h)
    {
      hide RecordsGood, Arranged, Slot;
      RecordsParts(layout, base, procs, streams, heap, heapLimit, current, memory.Length);
      CurrentProcess(layout, base, procs, streams, heap, heapLimit, current, memory.Length);
      ghost var n := |layout.stack| - 1;
      j, last := 0, 0;
      stream := procs[current].fileStreams;
      id := FIRST_FILE_STREAM_ID;
      if j < layout.counts[n] { WalkStream(layout, base, procs, streams, n, j); }
      while stream != 0 && streams[stream].mode != MODE_UNUSED
        invariant id == FIRST_FILE_STREAM_ID + j && j <= layout.counts[n] && stream == SlotNow(j)
        invariant last == if j == 0 then 0 else SlotNow(j - 1)
        invariant if stream == 0 then j == layout.counts[n] else stream in streams && j < layout.counts[n]
        invariant forall h: nat :: h < j ==> !UnusedIn(layout, streams, h)
        decreases layout.counts[n] - j
      {
        WalkStream(layout, base, procs, streams, n, j);
        last := stream;
        stream := streams[stream].next;
        id := id + 1;
        j := j + 1;
        if j < layout.counts[n] { WalkStream(layout, base, procs, streams, n, j); }
      }
    }

    /** How many streams the current process has, and where they are. */
    ghost function CountNow(): nat
      reads this
    {
      var n := |layout.stack| - 1;
      if 0 <= n < |layout.counts| then layout.counts[n] else 0
    }

    ghost function SlotNow(j: nat): nat
      reads this
    {
      var n := |layout.stack| - 1;
      if n >= 0 && HasSlot(layout, n, j) then Slot(layout, n, j) else 0
    }

    lemma NoneUnused(j: nat)
      requires j == CountNow() && forall h: nat :: h < j ==> !UnusedIn(layout, streams, h)
      ensures forall h: nat :: !UnusedIn(layout, streams, h)
    {
    }

    /** process_get_unused_file_stream: an unused stream of the current process, made at the top of the heap if need
        be. */
    method GetUnused() returns (stream: nat, id: nat)
      requires Valid() && current in procs
      modifies this`heap, this`procs, this`streams, this`layout
      ensures RecordsOk() && FilesOk() && PagesOk()
      ensures stream != 0 <==> old(Available())
      ensures layout == old(layout) || (|old(layout).counts| == |old(layout).stack| > 0 && stream != 0
        && layout == Grown(old(layout)))
      ensures current == old(current) && seen == old(seen) && SameButStreams(old(procs), procs)
      ensures stream == 0 ==> unchanged(this)
      ensures stream != 0 ==>
        stream in streams && streams[stream].mode == MODE_UNUSED && streams[stream].fileBlock == 0
        && FIRST_FILE_STREAM_ID <= id < ERROR_UNIT && stream == StreamOf(id) && OneMore(old(streams), streams, stream)
      ensures LowSteady(old(streams), streams, current)
      ensures layout == old(layout) || forall h: nat :: !UnusedIn(old(layout), old(streams), h)
      ensures stream != 0 ==> forall h: nat :: h + FIRST_FILE_STREAM_ID < id ==> !UnusedIn(old(layout), old(streams), h)
    {
      hide RecordsGood, Arranged, FilesGood, PagesGood, Slot, Grown, GrownProcs, GrownStreams;
      RecordsParts(layout, base, procs, streams, heap, heapLimit, current, memory.Length);
      CurrentProcess(layout, base, procs, streams, heap, heapLimit, current, memory.Length);
      var last;
      ghost var j;
      stream, last, id, j := FindUnused();
      SmallId(layout, base, procs, streams, heap, heapLimit, current, memory.Length, j);
      if stream != 0 { UnusedFile(disk.image[..], disk.shape, streams, seen, stream); } else { NoneUnused(j); }
      assert old(Available()) == Available();
      if stream == 0 && heap + STREAM_SIZE <= heapLimit {
        var block: nat, offset: nat := *, *;
        var s := Stream(0, MODE_UNUSED, 0, block, offset);
        stream := heap;
        GrownRecords(layout, base, procs, streams, heap, heapLimit, current, memory.Length, s);
        GrownIs(layout, base, procs, streams, heap, heapLimit, current, memory.Length, s, last);
        MoreFiles(disk.image[..], disk.shape, streams, GrownStreams(layout, streams, stream, s), seen, stream);
        GrownSteady(layout, base, procs, streams, heap, heapLimit, current, memory.Length, s);
        if last == 0 {
          procs := procs[current := procs[current].(fileStreams := stream)];
          streams := streams[stream := s];
        } else {
          streams := streams[last := streams[last].(next := stream)][stream := s];
        }
        heap := heap + STREAM_SIZE;
        layout := Grown(layout);
      } else {
        OneMoreSame(streams, procs, stream);
        SameSteady(streams, current);
      }
    }

    // ----- system calls on streams -----

    /** os_close. */
    method Close(id: u64) returns (r: u64)
      requires Valid() && current in procs
      modifies this`streams
      ensures RecordsOk() && FilesOk() && PagesOk()
      ensures r == if id < FIRST_FILE_STREAM_ID || !old(InUse(id)) then ErrorResult(NOT_FOUND) else 0
      ensures streams == if r != 0 then old(streams) else Closed(old(streams), old(StreamOf(id)))
    {
      hide RecordsGood, FilesGood, PagesGood, StreamOk;
      if id < FIRST_FILE_STREAM_ID { return ErrorResult(NOT_FOUND); }
      var stream := GetStream(id);
      if stream == 0 || streams[stream].mode == MODE_UNUSED { return ErrorResult(NOT_FOUND); }
      Unused(disk.image[..], disk.shape, streams, seen, stream);
      StreamsRecords(layout, base, procs, streams, Closed(streams, stream), heap, heapLimit, current, memory.Length);
      streams := streams[stream := streams[stream].(mode := MODE_UNUSED, fileBlock := 0)];
      r := 0;
    }

    ghost predicate InUse(id: u64)
      reads this
    {
      StreamOf(id) != 0 && StreamOf(id) in streams && streams[StreamOf(id)].mode != MODE_UNUSED
    }

    /** os_stat: the size of a file. */
    method Stat(name: u64, length: u64) returns (r: nat)
      requires Valid() && current in procs
      modifies disk`buffer
      ensures RecordsOk() && FilesOk() && PagesOk()
      ensures r == ErrorResult(INVALID_ARGUMENT) || r == ErrorResult(NOT_FOUND)
        || ContainsBuffer(procs[current], name, length)
      ensures !ContainsBuffer(procs[current], name, length) ==> r == ErrorResult(INVALID_ARGUMENT)
      ensures ContainsBuffer(procs[current], name, length) && !NamedNow(Bytes(name, length)) ==>
        r == ErrorResult(NOT_FOUND)
      ensures ContainsBuffer(procs[current], name, length) ==> forall f ::
        FileNow(f, Bytes(name, length)) ==> r == SizeNow(f)
    {
      hide RecordsGood, FilesGood, PagesGood, Good, NameIn, Content, OwnRange;
      CurrentProcess(layout, base, procs, streams, heap, heapLimit, current, memory.Length);
      RangeFacts(procs[current], heapLimit, memory.Length);
      FilesParts(disk.image[..], disk.shape, streams, seen);
      if !ContainsBuffer(procs[current], name, length) { return ErrorResult(INVALID_ARGUMENT); }
      var file, previous;
      ghost var p;
      file, previous, p := disk.FindFile(memory[name..name + length], 0);
      if file == 0 { return ErrorResult(NOT_FOUND); }
      r := disk.GetFileSize(file);
      assert FileNow(file, Bytes(name, length));
      forall f | FileNow(f, Bytes(name, length)) ensures f == file {
        OneName(disk.image[..], disk.shape, f, file);
      }
    }

    ghost predicate FileNow(f: nat, name: seq<u8>)
      reads disk, disk.image
    {
      FileNamed(disk.image[..], disk.shape, f, name)
    }

    ghost predicate NamedNow(name: seq<u8>)
      reads disk, disk.image
    {
      IsNamed(disk.image[..], disk.shape, name)
    }

    ghost function SizeNow(f: nat): nat
      reads disk, disk.image
    {
      if disk.Valid() && f in disk.shape.chains then |disk.Data(f)| else 0
    }

    /** os_read on a list stream: the next name, or as much of it as there is room for. */
    method ReadName(stream: nat, buffer: u64, size: u64) returns (r: nat)
      requires Valid() && stream in streams && streams[stream].mode == MODE_LIST && buffer + size <= memory.Length
      modifies this`streams, this`seen, disk`buffer, memory
      ensures RecordsOk() && FilesOk() && PagesOk() && r <= size
      ensures old(streams)[stream].fileBlock == 0 ==>
        r == 0 && streams == old(streams) && seen == old(seen) && memory[..] == old(memory[..])
      ensures old(streams)[stream].fileBlock != 0 ==>
        NameRead(old(disk.image[..]), old(disk.shape), old(streams)[stream], size, r, old(memory[..]), memory[..],
          buffer)
        && stream in streams && streams == old(streams)[stream := streams[stream]]
        && streams[stream] == old(streams)[stream].(fileBlock := streams[stream].fileBlock)
        && NextListed(old(disk.image[..]), old(disk.shape), old(streams)[stream].fileBlock, streams[stream].fileBlock)
        && seen == old(seen)[stream := NameIn(old(disk.image[..]), old(streams)[stream].fileBlock)]
        && (stream in old(seen) ==>
          Less(old(seen)[stream], NameIn(old(disk.image[..]), old(streams)[stream].fileBlock)))
    {
      hide RecordsGood, FilesGood, PagesGood, Good, NameIn, Name, NameLength, NextFile, Patched, Less, HasCursor;
      var s := streams[stream];
      if s.fileBlock == 0 { return 0; }
      ghost var img, sh := disk.image[..], disk.shape;
      ListPlace(img, sh, streams, seen, stream);
      disk.ReadBlock(s.fileBlock);
      ghost var name := NameIn(img, s.fileBlock);
      r := if size < NameLength(disk.buffer) then size else NameLength(disk.buffer);
      Store(buffer, Name(disk.buffer)[..r]);
      ListNext(img, sh, streams, seen, stream);
      StreamsRecords(layout, base, procs, streams, streams[stream := s.(fileBlock := NextFile(disk.buffer))], heap,
        heapLimit, current, memory.Length);
      streams := streams[stream := s.(fileBlock := NextFile(disk.buffer))];
      seen := seen[stream := name];
    }

    /** os_read on a read stream. */
    method ReadData(stream: nat, buffer: u64, size: u64) returns (r: nat)
      requires Valid() && stream in streams && streams[stream].mode == MODE_READ && buffer + size <= memory.Length
      modifies this`streams, disk`buffer, memory
      ensures RecordsOk() && FilesOk() && PagesOk() && r <= size
      ensures stream in streams && streams == old(streams)[stream := streams[stream]]
      ensures DataRead(old(Left(disk.image[..], disk.shape, streams[stream])),
                       Left(disk.image[..], disk.shape, streams[stream]), disk.shape, old(streams)[stream],
                         streams[stream], old(memory[..]), memory[..], buffer, size, r)
    {
      hide RecordsGood, FilesGood, PagesGood, Good, Patched, Rest, Left, End, Header, ChainLinked;
      ghost var img, sh := disk.image[..], disk.shape;
      var s := streams[stream];
      ghost var i, c := ReadPlace(img, sh, streams, seen, stream);
      var missing, block, offset, data;
      ghost var j;
      missing, block, offset, data, j := disk.ReadFile(s.currentBlock, s.currentOffset, size, s.fileBlock, i);
      var t := s.(currentBlock := block, currentOffset := offset);
      ReadMoved(img, sh, streams, seen, stream, t, i, j);
      WholeRest(Left(img, sh, s), |Left(img, sh, s)|);
      Store(buffer, data);
      StreamsRecords(layout, base, procs, streams, streams[stream := t], heap, heapLimit, current, memory.Length);
      streams := streams[stream := t];
      r := size - missing;
    }

    /** os_read from the standard input or the keyboard: a word is stored for the one byte that is read. Without room
        for it in memory, what happens is not part of this model, as `ok` says. */
    method ReadKey(buffer: u64, size: u64, key: u64) returns (r: nat, ok: bool)
      requires RecordsOk() && current in procs
      modifies memory
      ensures r == if size == 0 || !ContainsBuffer(procs[current], buffer, size) then ErrorResult(INVALID_ARGUMENT)
        else 1
      ensures ok <==> Failed(r) || buffer + 8 <= memory.Length
      ensures memory[..] == if ok && !Failed(r) then Patched(old(memory[..]), buffer, LE64(key)) else old(memory[..])
    {
      hide RecordsGood, LE64, Patched;
      Errors();
      if size == 0 || !ContainsBuffer(procs[current], buffer, size) { return ErrorResult(INVALID_ARGUMENT), true; }
      if buffer + 8 > memory.Length { return 1, false; }
      Store(buffer, LE64(key));
      r, ok := 1, true;
    }

    /** os_read from the other streams. */
    method Read(id: u64, buffer: u64, size: u64) returns (r: nat, ghost a: nat)
      requires Valid() && current in procs && !IsKeyboard(id)
      modifies this`streams, this`seen, disk`buffer, memory
      ensures RecordsOk() && FilesOk() && PagesOk() && a == old(StreamOf(id))
      ensures r == ErrorResult(INVALID_ARGUMENT) <==> size == 0 || !ContainsBuffer(procs[current], buffer, size)
      ensures r == ErrorResult(NOT_FOUND) <==>
        size > 0 && ContainsBuffer(procs[current], buffer, size) && id >= FIRST_FILE_STREAM_ID && !old(InUse(id))
      ensures r == ErrorResult(INVALID_STATE) <==>
        size > 0 && ContainsBuffer(procs[current], buffer, size)
        && (id < FIRST_FILE_STREAM_ID || (old(InUse(id)) && old(streams)[a].mode == MODE_WRITE))
      ensures Failed(r) ==> r in {ErrorResult(INVALID_ARGUMENT), ErrorResult(NOT_FOUND), ErrorResult(INVALID_STATE)}
      ensures Failed(r) ==> streams == old(streams) && seen == old(seen) && memory[..] == old(memory[..])
      ensures !Failed(r) ==> a in old(streams) && a in streams && buffer + size <= memory.Length && r <= size
      ensures !Failed(r) ==>
        streams == old(streams)[a := streams[a]] && (old(streams)[a].mode == MODE_READ
        || old(streams)[a].mode == MODE_LIST)
      ensures !Failed(r) && old(streams)[a].mode == MODE_READ ==>
        seen == old(seen)
        && DataRead(old(Left(disk.image[..], disk.shape, streams[a])), Left(disk.image[..], disk.shape, streams[a]),
          disk.shape, old(streams)[a], streams[a], old(memory[..]), memory[..], buffer, size, r)
      ensures !Failed(r) && old(streams)[a].mode == MODE_LIST && old(streams)[a].fileBlock != 0 ==>
        NameRead(old(disk.image[..]), old(disk.shape), old(streams)[a], size, r, old(memory[..]), memory[..], buffer)
        && streams[a] == old(streams)[a].(fileBlock := streams[a].fileBlock)
        && NextListed(old(disk.image[..]), old(disk.shape), old(streams)[a].fileBlock, streams[a].fileBlock)
        && seen == old(seen)[a := NameIn(old(disk.image[..]), old(streams)[a].fileBlock)]
        && (a in old(seen) ==> Less(old(seen)[a], NameIn(old(disk.image[..]), old(streams)[a].fileBlock)))
      ensures !Failed(r) && old(streams)[a].mode == MODE_LIST && old(streams)[a].fileBlock == 0 ==>
        r == 0 && streams == old(streams) && seen == old(seen) && memory[..] == old(memory[..])
    {
      hide RecordsGood, FilesGood, PagesGood, Good, OwnRange, Left, SlotOf, NameIn, Less, NameRead, NextListed,
        HasCursor, ErrorResult, Patched;
      a := StreamOf(id);
      r := 0;
      CurrentProcess(layout, base, procs, streams, heap, heapLimit, current, memory.Length);
      RangeFacts(procs[current], heapLimit, memory.Length);
      Errors();
      if size == 0 || !ContainsBuffer(procs[current], buffer, size) {
        r := ErrorResult(INVALID_ARGUMENT);
        return;
      }
      BufferIn(procs[current], buffer, size);
      if id < FIRST_FILE_STREAM_ID {
        r := ErrorResult(INVALID_STATE);
        return;
      }
      var stream := GetStream(id);
      if stream == 0 || streams[stream].mode == MODE_UNUSED {
        r := ErrorResult(NOT_FOUND);
        return;
      }
      ModeOf(disk.image[..], disk.shape, streams, seen, stream);
      if streams[stream].mode == MODE_LIST {
        r := ReadName(stream, buffer, size);
      } else if streams[stream].mode != MODE_READ {
        r := ErrorResult(INVALID_STATE);
      } else {
        r := ReadData(stream, buffer, size);
      }
    }

    /** os_write on a write stream. */
    method WriteData(stream: nat, buffer: u64, size: u64) returns (status: Status, ghost k: nat)
      requires Valid() && stream in streams && streams[stream].mode == MODE_WRITE && buffer + size <= memory.Length
      modifies this`streams, disk, disk.image
      ensures RecordsOk() && FilesOk() && PagesOk() && (status == OK || status == OUT_OF_MEMORY)
      ensures Extended(old(disk.image[..]), old(disk.shape), disk.image[..], disk.shape,
                        old(streams)[stream].fileBlock, memory[buffer..buffer + size], status, k)
      ensures stream in streams
        && streams == old(streams)[stream := old(streams)[stream].(currentBlock := streams[stream].currentBlock)]
      ensures SameLeft(old(disk.image[..]), old(disk.shape), disk.image[..], disk.shape, old(streams))
    {
      hide RecordsGood, FilesGood, PagesGood, Good, Left, NameIn, FileData, SameFile, AllKept, Appended, Link;
      ghost var img, sh, streams0 := disk.image[..], disk.shape, streams;
      var s := streams[stream];
      WritePlace(img, sh, streams, seen, stream);
      var last;
      status, last, k := disk.WriteFile(s.currentBlock, memory[buffer..buffer + size], s.fileBlock);
      var t := s.(currentBlock := last);
      AppendedKept(img, disk.image[..], sh, s.fileBlock, k);
      AppendedIs(sh, s.fileBlock, k);
      LastBlock(img, sh, s.fileBlock);
      LastBlock(disk.image[..], disk.shape, s.fileBlock);
      Written(img, sh, disk.image[..], disk.shape, streams, seen, stream, t);
      StreamsRecords(layout, base, procs, streams, streams[stream := t], heap, heapLimit, current, memory.Length);
      streams := streams[stream := t];
    }

    /** os_write to the standard output: what there is room for is copied to the memory of the parent, and the pointer
        to its end moves. A copy out of the memory of programs is not part of this model, as `ok` says. */
    method WriteOutput(buffer: u64, size: u64) returns (r: nat, ok: bool)
      requires RecordsOk() && current in procs
      modifies memory
      ensures !ContainsBuffer(procs[current], buffer, size) ==>
        r == ErrorResult(INVALID_ARGUMENT) && ok && memory[..] == old(memory[..])
      ensures ContainsBuffer(procs[current], buffer, size) ==>
        buffer + size <= memory.Length && r == OutputSize(old(memory[..]), procs[current], size)
        && (ok <==> OutputInside(old(memory[..]), procs[current], size, heapLimit))
        && memory[..] == if ok then Printed(old(memory[..]), procs[current], buffer, size, heapLimit)
          else old(memory[..])
    {
      hide RecordsGood, LE64, From64, Patched, Forwarded;
      CurrentProcess(layout, base, procs, streams, heap, heapLimit, current, memory.Length);
      RangeFacts(procs[current], heapLimit, memory.Length);
      ghost var m := memory[..];
      var p := procs[current];
      if !ContainsBuffer(p, buffer, size) { return ErrorResult(INVALID_ARGUMENT), true; }
      BufferIn(p, buffer, size);
      var to := Word(p.outputP);
      var room := Wrap(p.outputLimit - to);
      r := if size < room then size else room;
      if r > 0 && (to < heapLimit || to + r > memory.Length) { return r, false; }
      if r > 0 { Copy(buffer, to, r); }
      to := Word(p.outputP);
      Store(p.outputP, LE64(Wrap(to + r)));
      ok := true;
    }

    /** A word of memory. */
    method Word(a: nat) returns (v: u64)
      requires a + 8 <= memory.Length
      ensures v == WordAt(memory[..], a)
    {
      hide From64;
      v := From64(memory[a..a + 8]);
      assert memory[a..a + 8] == memory[..][a..a + 8];
    }

    /** os_write to the screen: triples of bytes, for the registers of the screen. */
    method WriteScreen(buffer: u64, size: u64) returns (r: nat)
      requires current in procs
      ensures r == if !ContainsBuffer(procs[current], buffer, size) then ErrorResult(INVALID_ARGUMENT) else size / 3 * 3
    {
      if !ContainsBuffer(procs[current], buffer, size) { return ErrorResult(INVALID_ARGUMENT); }
      r := 0;
      ghost var n := 0;
      while r + 2 < size
        invariant r == 3 * n && r <= size
      {
        r := r + 3;
        n := n + 1;
      }
    }

    /** os_write to the other streams. */
    method Write(id: u64, buffer: u64, size: u64) returns (r: nat, ghost a: nat, ghost k: nat)
      requires Valid() && current in procs && id != STANDARD_OUTPUT && id != SCREEN
      modifies this`streams, disk, disk.image
      ensures RecordsOk() && FilesOk() && PagesOk() && a == old(StreamOf(id))
      ensures r == ErrorResult(INVALID_ARGUMENT) <==> !ContainsBuffer(procs[current], buffer, size)
      ensures r == ErrorResult(NOT_FOUND) <==>
        ContainsBuffer(procs[current], buffer, size) && id >= FIRST_FILE_STREAM_ID && !old(InUse(id))
      ensures r == ErrorResult(INVALID_STATE) <==>
        ContainsBuffer(procs[current], buffer, size)
        && (id < FIRST_FILE_STREAM_ID || (old(InUse(id)) && old(streams)[a].mode != MODE_WRITE))
      ensures Failed(r) ==>
        r in {ErrorResult(INVALID_ARGUMENT), ErrorResult(NOT_FOUND), ErrorResult(INVALID_STATE),
              ErrorResult(OUT_OF_MEMORY)}
      ensures Failed(r) && r != ErrorResult(OUT_OF_MEMORY) ==>
        streams == old(streams) && disk.image[..] == old(disk.image[..]) && disk.shape == old(disk.shape)
      ensures !Failed(r) || r == ErrorResult(OUT_OF_MEMORY) ==>
        a in old(streams) && old(streams)[a].mode == MODE_WRITE && a in streams
        && streams == old(streams)[a := old(streams)[a].(currentBlock := streams[a].currentBlock)]
        && Extended(old(disk.image[..]), old(disk.shape), disk.image[..], disk.shape, old(streams)[a].fileBlock,
                     Bytes(buffer, size), if Failed(r) then OUT_OF_MEMORY else OK, k)
      ensures !Failed(r) ==> r == size
      ensures SameLeft(old(disk.image[..]), old(disk.shape), disk.image[..], disk.shape, old(streams))
    {
      hide RecordsGood, FilesGood, PagesGood, Good, OwnRange, Left, SlotOf, Extended, ErrorResult;
      a, k, r := StreamOf(id), 0, 0;
      CurrentProcess(layout, base, procs, streams, heap, heapLimit, current, memory.Length);
      RangeFacts(procs[current], heapLimit, memory.Length);
      Errors();
      if !ContainsBuffer(procs[current], buffer, size) {
        r := ErrorResult(INVALID_ARGUMENT);
        return;
      }
      BufferIn(procs[current], buffer, size);
      if id < FIRST_FILE_STREAM_ID {
        r := ErrorResult(INVALID_STATE);
        return;
      }
      var stream := GetStream(id);
      if stream == 0 || streams[stream].mode == MODE_UNUSED {
        r := ErrorResult(NOT_FOUND);
        return;
      }
      if streams[stream].mode != MODE_WRITE {
        r := ErrorResult(INVALID_STATE);
        return;
      }
      var status;
      status, k := WriteData(stream, buffer, size);
      if status != OK {
        r := ErrorResult(status);
        return;
      }
      r := size;
    }

    /** The loop of os_delete: list streams at a file that goes away move on to the next one. */
    method Relist(file: nat, ghost p: nat)
      requires RecordsOk() && FilesOk() && p < |disk.shape.files| && disk.shape.files[p] == file
      modifies this`streams, disk`buffer
      ensures AllRelisted(old(streams), streams, file, At(disk.shape.files, p + 1))
    {
      hide RecordsGood, Arranged, FilesGood, Good, Relisted, NextFile;
      RecordsParts(layout, base, procs, streams, heap, heapLimit, current, memory.Length);
      ghost var s0, next := streams, At(disk.shape.files, p + 1);
      NextFileOf(disk.image[..], disk.shape, streams, seen, p);
      ghost var done: set<nat> := {};
      ghost var k := |layout.stack|;
      var process := current;
      while process != 0
        invariant 0 <= k <= |layout.stack| && process == if k == 0 then 0 else layout.stack[k - 1]
        invariant RelistedIn(s0, streams, done, file, next)
        invariant forall i: nat, h: nat :: k <= i && HasSlot(layout, i, h) ==> Slot(layout, i, h) in done
        decreases k
      {
        k := k - 1;
        WalkProcess(layout, base, procs, s0, k);
        var stream := procs[process].fileStreams;
        ghost var j := 0;
        while stream != 0
          invariant j <= layout.counts[k] && stream == if j < layout.counts[k] then Slot(layout, k, j) else 0
          invariant RelistedIn(s0, streams, done, file, next)
          invariant forall h: nat :: h < j && HasSlot(layout, k, h) ==> Slot(layout, k, h) in done
          invariant forall i: nat, h: nat :: k < i && HasSlot(layout, i, h) ==> Slot(layout, i, h) in done
          decreases layout.counts[k] - j
        {
          WalkStream(layout, base, procs, s0, k, j);
          RelistStep(s0, streams, done, stream, file, next);
          if streams[stream].mode == MODE_LIST && streams[stream].fileBlock == file {
            disk.ReadBlock(file);
            streams := streams[stream := streams[stream].(fileBlock := NextFile(disk.buffer))];
          }
          done := done + {stream};
          stream := streams[stream].next;
          j := j + 1;
        }
        process := procs[process].parent;
      }
      forall a: nat | a in s0 ensures a in done {
        ghost var i, h := StreamPlace(layout, base, procs, s0, a);
        if k > 0 { WalkProcess(layout, base, procs, s0, k - 1); }
        assert k <= i;
      }
    }

    /** os_delete. */
    method Delete(name: u64, length: u64) returns (r: nat, ghost f: nat, ghost p: nat)
      requires Valid() && current in procs
      modifies this`streams, disk, disk.image
      ensures RecordsOk() && FilesOk() && PagesOk()
      ensures r == ErrorResult(INVALID_ARGUMENT) <==> !ContainsBuffer(procs[current], name, length)
      ensures r == ErrorResult(NOT_FOUND) <==>
        ContainsBuffer(procs[current], name, length) && !old(NamedNow(Bytes(name, length)))
      ensures r != ErrorResult(INVALID_ARGUMENT) && r != ErrorResult(NOT_FOUND) ==>
        old(FileNow(f, Bytes(name, length))) && r == if AllShare(old(streams), f, MODE_WRITE) then 0
          else ErrorResult(INVALID_STATE)
      ensures r != 0 ==>
        streams == old(streams) && disk.image[..] == old(disk.image[..]) && disk.shape == old(disk.shape)
      ensures r == 0 ==>
        Removed(old(disk.image[..]), old(disk.shape), disk.image[..], disk.shape, old(streams), streams, f, p)
      ensures LeftKept(old(disk.image[..]), old(disk.shape), disk.image[..], disk.shape, old(streams), streams)
    {
      hide RecordsGood, FilesGood, PagesGood, Good, NameIn, Content, OwnRange, Left, ErrorResult, AllRelisted,
        Deleted, SameFile, Kept, AllShare, OnlyLists, LeftKept, AllKept, Removed;
      f, p, r := 0, 0, 0;
      ghost var img, sh, streams0 := disk.image[..], disk.shape, streams;
      CurrentProcess(layout, base, procs, streams, heap, heapLimit, current, memory.Length);
      RangeFacts(procs[current], heapLimit, memory.Length);
      FilesParts(img, sh, streams, seen);
      LeftSame(img, sh, streams);
      Errors();
      if !ContainsBuffer(procs[current], name, length) {
        r := ErrorResult(INVALID_ARGUMENT);
        return;
      }
      BufferIn(procs[current], name, length);
      var file, previous;
      file, previous, p := disk.FindFile(memory[name..name + length], 0);
      if file == 0 {
        r := ErrorResult(NOT_FOUND);
        return;
      }
      f := file;
      assert FileNamed(img, sh, f, Bytes(name, length));
      var ok := CanOpen(file, MODE_WRITE);
      if !ok {
        r := ErrorResult(INVALID_STATE);
        return;
      }
      WriteShare(img, sh, streams, file);
      Relist(file, p);
      ghost var streams1 := streams;
      RelistedFiles(img, sh, streams0, streams, seen, p);
      RelistedLinks(streams0, streams, file, At(sh.files, p + 1));
      StreamsRecords(layout, base, procs, streams0, streams, heap, heapLimit, current, memory.Length);
      DeletedOnly(streams, file);
      disk.DeleteFile(file, previous, p);
      DeletedKept(img, disk.image[..], sh, p);
      FilesMoved(img, sh, disk.image[..], disk.shape, file, streams, seen);
      RelistedLeft(img, sh, disk.image[..], disk.shape, streams0, streams, file, At(sh.files, p + 1));
      RemovedIs(img, sh, disk.image[..], disk.shape, streams0, streams, file, p);
    }

    /** How opening a file fails, if it does. */
    ghost function FileError(name: seq<u8>, mode: u64): Status
      reads this, disk, disk.image
    {
      FileStatus(disk.image[..], disk.shape, streams, name, mode)
    }

    /** The part of os_open that finds the file, makes it or empties it. */
    method OpenFile(stream: nat, name: seq<u8>, mode: u64) returns (status: Status, file: nat)
      requires Valid() && stream in streams && streams[stream].mode == MODE_UNUSED
        && (mode == MODE_READ || mode == MODE_WRITE)
      modifies this`streams, disk, disk.image
      ensures RecordsOk() && FilesOk() && PagesOk()
      ensures status == old(FileError(name, mode))
      ensures status != OK ==>
        streams == old(streams) && disk.image[..] == old(disk.image[..]) && disk.shape == old(disk.shape)
      ensures stream in streams
        && streams == old(streams)[stream := old(streams)[stream].(currentOffset := streams[stream].currentOffset)]
      ensures status == OK ==>
        file != 0 && AllShare(old(streams), file, mode)
        && Ready(old(disk.image[..]), old(disk.shape), disk.image[..], disk.shape, file, name, mode,
          streams[stream].currentOffset)
      ensures SameLeft(old(disk.image[..]), old(disk.shape), disk.image[..], disk.shape, old(streams))
    {
      hide RecordsGood, FilesGood, PagesGood, Good, NameIn, Content, Left, AllShare, Ready, NameLength, SameFile,
        Created, Released, OnlyLists, SameLeft, AllKept, EmptyFile, StreamsOk, Exclusive, Listed, Belongs, ValidName;
      ghost var img, sh, streams0, p := disk.image[..], disk.shape, streams, 0;
      FilesParts(img, sh, streams, seen);
      LeftAlike(img, sh, streams);
      var previous;
      file, previous, p := disk.FindFile(name, 0);
      OffsetSame(streams, stream);
      assert file != 0 ==> FileNamed(img, sh, file, name);
      if file == 0 {
        if mode == MODE_READ { return NOT_FOUND, file; }
        var made;
        status, made, p := disk.CreateFile(name);
        if status == OK {
          file := made;
          CreatedKept(img, disk.image[..], sh, p);
          NewFile(img, sh, disk.image[..], file, name);
          NewShare(img, sh, streams, file, mode);
          NoneAtZero(img, sh, streams);
          FilesMoved(img, sh, disk.image[..], disk.shape, 0, streams, seen);
          ReadyCreated(img, sh, disk.image[..], disk.shape, file, name, streams[stream].currentOffset);
        }
      } else {
        OnlyOne(img, sh, file, name);
        var ok := CanOpen(file, mode);
        if !ok { return INVALID_STATE, file; }
        if mode == MODE_READ {
          StartOfFile(img, sh, file);
          disk.ReadBlock(file);
          var t := streams[stream].(currentOffset := 24 + NameLength(disk.buffer));
          OffsetSet(img, sh, streams, seen, stream, t);
          StreamsRecords(layout, base, procs, streams, streams[stream := t], heap, heapLimit, current, memory.Length);
          streams := streams[stream := t];
          ReadyRead(img, sh, file, name, t.currentOffset);
        } else {
          StartOfFile(img, sh, file);
          WriteShare(img, sh, streams, file);
          disk.ClearFile(file);
          ReleasedKept(img, disk.image[..], sh, file);
          FilesMoved(img, sh, disk.image[..], disk.shape, file, streams, seen);
          ReadyCleared(img, sh, disk.image[..], disk.shape, file, name, streams[stream].currentOffset);
        }
        status := OK;
      }
    }

    ghost predicate CanRequest(name: u64, length: u64, mode: u64)
      reads this
    {
      current in procs && ContainsBuffer(procs[current], name, length) && (mode == MODE_READ || mode == MODE_WRITE)
    }

    /** The end of os_open: the stream gets its file. */
    method Attach(stream: nat, mode: u64, file: nat, ghost s1: map<nat, Stream>)
      requires RecordsOk() && FilesOk() && PagesOk() && stream in s1 && s1[stream].mode == MODE_UNUSED
        && stream in streams
      requires streams == s1[stream := s1[stream].(currentOffset := streams[stream].currentOffset)]
      requires (mode == MODE_LIST && (file == 0 || file in disk.shape.chains))
        || ((mode == MODE_READ || mode == MODE_WRITE) && AllShare(s1, file, mode)
            && StreamOk(disk.image[..], disk.shape, streams[stream].(mode := mode, fileBlock := file,
              currentBlock := file)))
      modifies this`streams, this`seen
      ensures RecordsOk() && FilesOk() && PagesOk() && seen == old(seen) - {stream}
      ensures streams == old(streams)[stream := old(streams)[stream].(mode := mode, fileBlock := file,
        currentBlock := file)]
    {
      hide RecordsGood, FilesGood, PagesGood, AllShare, StreamOk;
      var t := streams[stream].(mode := mode, fileBlock := file, currentBlock := file);
      SetOpened(disk.image[..], disk.shape, s1, streams, seen, stream, t);
      StreamsRecords(layout, base, procs, streams, streams[stream := t], heap, heapLimit, current, memory.Length);
      streams := streams[stream := t];
      seen := seen - {stream};
    }

    /** How opening a file, or the list of files, fails. */
    ghost function ListOrFileError(name: u64, length: u64, mode: u64): Status
      reads this, memory, disk, disk.image
    {
      if length == 0 then if mode == MODE_READ then OK else INVALID_ARGUMENT else FileError(Bytes(name, length), mode)
    }

    /** os_open once there is a stream for the file, or, for an empty name, for the list of files; s0 is before that. */
    method OpenOn(stream: nat, id: nat, name: u64, length: u64, mode: u64, ghost s0: map<nat, Stream>)
        returns (status: Status, ghost file: nat)
      requires RecordsOk() && FilesOk() && PagesOk() && CanRequest(name, length, mode)
      requires id < TWO64 && stream == StreamOf(id) && FreeStream(s0, streams, stream, current)
      requires LeftUnder(disk.image[..], disk.shape, disk.image[..], disk.shape, s0, streams, stream)
      modifies this`streams, this`seen, disk, disk.image
      ensures RecordsOk() && FilesOk() && PagesOk() && status == old(ListOrFileError(name, length, mode))
      ensures status != OK ==>
        disk.image[..] == old(disk.image[..]) && disk.shape == old(disk.shape) && seen == old(seen)
        && streams == old(streams)
      ensures status == OK ==>
        seen == old(seen) - {stream}
        && OpenedAs(old(disk.image[..]), old(disk.shape), disk.image[..], disk.shape, s0, streams, stream,
          old(Bytes(name, length)), mode, file)
      ensures LeftUnder(old(disk.image[..]), old(disk.shape), disk.image[..], disk.shape, s0, streams, stream)
      ensures LowSteady(s0, streams, current)
    {
      hide RecordsGood, FilesGood, PagesGood, Good, NameIn, Content, Left, AllShare, Ready, NameLength, OwnRange,
        ContainsBuffer, ValidName, Opened, OneMore, NextFile, SameLeft, SlotOf, StreamOk, LeftUnder, OpenedAs,
          IsNamed, Shared, LowSteady, StreamsOk, Exclusive, Listed;
      file := 0;
      ghost var img, sh, s1 := disk.image[..], disk.shape, streams;
      CurrentProcess(layout, base, procs, streams, heap, heapLimit, current, memory.Length);
      RangeFacts(procs[current], heapLimit, memory.Length);
      BufferIn(procs[current], name, length);
      FilesParts(img, sh, streams, seen);
      FirstFile(img, sh);
      disk.ReadBlock(SUPER_BLOCK);
      var f: nat := NextFile(disk.buffer);
      var m := mode;
      status := OK;
      if length == 0 {
        if mode != MODE_READ { status := INVALID_ARGUMENT; }
        m := MODE_LIST;
      } else {
        status, f := OpenFile(stream, memory[name..name + length], mode);
      }
      if status != OK { return; }
      file := f;
      ghost var img1, sh1 := disk.image[..], disk.shape;
      ghost var t := streams[stream].(mode := m, fileBlock := f, currentBlock := f);
      if length == 0 {
        LeftAlike(img, sh, s1);
        FirstListed(img, sh);
      } else {
        ReadyOk(img, sh, img1, sh1, file, Bytes(name, length), mode, t);
      }
      Attach(stream, m, f, s1);
      OpenedIs(img, sh, img1, sh1, s0, s1, streams, stream, t, Bytes(name, length), mode);
      HighSteady(layout, base, procs, s0, s1, streams, heap, heapLimit, current, memory.Length, id, t);
    }

    /** How os_open fails, if it does. */
    ghost function OpenError(name: u64, length: u64, mode: u64): Status
      reads this, memory, disk, disk.image
    {
      if !CanRequest(name, length, mode) then INVALID_ARGUMENT
      else if !Available() then OUT_OF_MEMORY
      else ListOrFileError(name, length, mode)
    }

    /** os_open: a new stream on a file, or, for an empty name, on the list of files. */
    method Open(name: u64, length: u64, mode: u64) returns (r: nat, ghost a: nat, ghost file: nat)
      requires Valid() && current in procs
      modifies this`heap, this`procs, this`streams, this`layout, this`seen, disk, disk.image
      ensures RecordsOk() && FilesOk() && PagesOk()
      ensures Failed(r) <==> old(OpenError(name, length, mode)) != OK
      ensures Failed(r) ==> r == ErrorResult(old(OpenError(name, length, mode)))
      ensures layout == old(layout) || (|old(layout).counts| == |old(layout).stack| > 0 && layout == Grown(old(layout)))
      ensures current == old(current) && SameButStreams(old(procs), procs)
      ensures Failed(r) ==>
        disk.image[..] == old(disk.image[..]) && disk.shape == old(disk.shape) && seen == old(seen)
        && (streams == old(streams) || (a in streams && streams[a].mode == MODE_UNUSED
        && OneMore(old(streams), streams, a)))
      ensures !Failed(r) ==>
        FIRST_FILE_STREAM_ID <= r < TWO64 && a == StreamOf(r) && seen == old(seen) - {a}
        && OpenedAs(old(disk.image[..]), old(disk.shape), disk.image[..], disk.shape, old(streams), streams, a,
                    old(Bytes(name, length)), mode, file)
      ensures LeftUnder(old(disk.image[..]), old(disk.shape), disk.image[..], disk.shape, old(streams), streams, a)
      ensures LowSteady(old(streams), streams, current)
      ensures layout == old(layout) || forall h: nat :: !UnusedIn(old(layout), old(streams), h)
      ensures !Failed(r) ==> forall h: nat :: h + FIRST_FILE_STREAM_ID < r ==> !UnusedIn(old(layout), old(streams), h)
    {
      hide UnusedIn, RecordsGood, FilesGood, PagesGood, Good, NameIn, Left, AllShare, Grown, OwnRange, ErrorResult,
        ContainsBuffer, ValidName, OneMore, SlotOf, StreamOk, LeftUnder, OpenedAs, IsNamed, Shared, Available,
          LowSteady, StreamsOk, Exclusive, Listed;
      a, file := 0, 0;
      ghost var img, sh, s0 := disk.image[..], disk.shape, streams;
      CurrentProcess(layout, base, procs, streams, heap, heapLimit, current, memory.Length);
      RangeFacts(procs[current], heapLimit, memory.Length);
      FilesParts(img, sh, streams, seen);
      SameUnder(img, sh, streams, procs);
      SameSteady(streams, current);
      ErrorFails(OpenError(name, length, mode));
      if !ContainsBuffer(procs[current], name, length) || (mode != MODE_READ && mode != MODE_WRITE) {
        return ErrorResult(INVALID_ARGUMENT), a, file;
      }
      var stream, id := GetUnused();
      a := stream;
      if stream == 0 { return ErrorResult(OUT_OF_MEMORY), a, file; }
      MoreUnder(img, sh, s0, streams, seen, a);
      MoreShared(img, sh, s0, streams, a, Bytes(name, length), mode);
      SameRequest(old(procs), procs, current, name, length);
      var status;
      status, file := OpenOn(stream, id, name, length, mode, s0);
      r := if status != OK then ErrorResult(status) else id;
    }

    // ----- the handler of system calls -----

    /** The state of the kernel at this moment. */
    ghost function Now(): Moment
      reads this, disk, disk.image, memory
    {
      Moment(disk.image[..], disk.shape, memory[..], layout, heap, current, procs, streams, seen)
    }

    /** os_stat, as a call. */
    method StatCall(name: u64, length: u64) returns (r: nat)
      requires Valid() && current in procs
      modifies disk`buffer
      ensures RecordsOk() && FilesOk() && PagesOk() && Stats(old(Now()), Now(), name, length, r)
    {
      hide RecordsGood, FilesGood, PagesGood, NameIn, ContainsBuffer, ErrorResult, Good;
      InMemory(name, length);
      FilesParts(disk.image[..], disk.shape, streams, seen);
      ghost var s, bytes := Now(), Bytes(name, length);
      r := Stat(name, length);
      assert Now() == s;
      if ContainsBuffer(Caller(s), name, length) && HasName(s, bytes) {
        ghost var f: nat :| FileNamed(s.img, s.sh, f, bytes);
        assert FileNow(f, bytes);
      }
    }

    /** os_close, as a call. */
    method CloseCall(id: u64) returns (r: nat)
      requires Valid() && current in procs
      modifies this`streams
      ensures RecordsOk() && FilesOk() && PagesOk() && Closes(old(Now()), Now(), id, r)
    {
      hide RecordsGood, FilesGood, PagesGood, ErrorResult, Good;
      Errors();
      r := Close(id);
    }

    /** os_exit, as a call. */
    method ExitCall(result: u64) returns (r: nat)
      requires Valid() && current != 0 && current in procs
      modifies this`heap, this`current, this`procs, this`layout, this`streams, pages
      ensures RecordsOk() && FilesOk() && PagesOk() && Exits(old(Now()), Now(), result, r)
    {
      hide RecordsGood, FilesGood, PagesGood, ErrorResult, Good, Popped, Below;
      Errors();
      r := Exit(result);
    }

    /** os_delete, as a call. */
    method DeleteCall(name: u64, length: u64) returns (r: nat)
      requires Valid() && current in procs
      modifies this`streams, disk, disk.image
      ensures RecordsOk() && FilesOk() && PagesOk() && Deletes(old(Now()), Now(), name, length, r)
    {
      hide RecordsGood, FilesGood, PagesGood, NameIn, ContainsBuffer, ErrorResult, Good, Removed, LeftKept, AllShare;
      ghost var s, bytes := Now(), Bytes(name, length);
      InMemory(name, length);
      Errors();
      FilesParts(disk.image[..], disk.shape, streams, seen);
      ghost var f, p;
      r, f, p := Delete(name, length);
      FilesParts(disk.image[..], disk.shape, streams, seen);
      if FileNamed(s.img, s.sh, f, bytes) {
        OnlyOne(s.img, s.sh, f, bytes);
        if r == 0 {
          NameGone(s.img, s.sh, disk.image[..], disk.shape, s.streams, streams, f, p, bytes);
          assert RemovedAs(s, Now(), bytes, f, p);
        }
      }
    }

    /** os_open, as a call. */
    method OpenCall(name: u64, length: u64, mode: u64) returns (r: nat)
      requires Valid() && current in procs
      modifies this`heap, this`procs, this`streams, this`layout, this`seen, disk, disk.image
      ensures RecordsOk() && FilesOk() && PagesOk() && Opens(old(Now()), Now(), heapLimit, name, length, mode, r)
    {
      hide RecordsGood, FilesGood, PagesGood, NameIn, ContainsBuffer, ErrorResult, Good, LeftUnder, OpenedAs, OneMore,
        LowSteady, Shared, IsNamed, SameButStreams, Grown, UnusedIn, SlotOf, ValidName;
      ghost var s := Now();
      InMemory(name, length);
      ErrorFails(OpenError(name, length, mode));
      ghost var a, file;
      r, a, file := Open(name, length, mode);
      ghost var t := Now();
      if Failed(r) {
        if t.streams != s.streams { assert SpareStream(s, t, a); }
      } else {
        assert OpensAs(s, t, name, length, mode, r);
      }
    }

    /** os_spawn, as a call of the current process. */
    method SpawnCall(call: Call) returns (r: u64)
      requires Valid() && current in procs && call.CallSpawn?
      modifies this`heap, this`current, this`procs, this`layout, disk`buffer, pages, memory
      ensures RecordsOk() && FilesOk() && PagesOk() && Spawns(old(Now()), Now(), heapLimit, call, r)
    {
      hide RecordsGood, FilesGood, PagesGood, NameIn, ContainsBuffer, ErrorResult, Good, Pushed, FittingFile, IsNamed,
        RequestGood, Started;
      ghost var s := Now();
      CurrentProcess(layout, base, procs, streams, heap, heapLimit, current, memory.Length);
      InMemory(call.name, call.nameLength);
      InMemory(call.args, call.argsLength);
      Errors();
      ErrorFails(SpawnError(call.dst, call.name, call.nameLength, call.args, call.argsLength, call.outputP));
      ghost var file;
      r, file := Spawn(call.dst, call.name, call.nameLength, call.args, call.argsLength, call.outputP);
      if r == 0 { assert SpawnsFile(s, Now(), call, file); }
    }

    /** The bytes of a buffer of the current process. */
    lemma InMemory(ptr: u64, size: u64)
      requires Valid() && current in procs
      ensures Bytes(ptr, size) == BytesIn(memory[..], ptr, size)
    {
      if ptr + size <= memory.Length { assert memory[ptr..ptr + size] == memory[..][ptr..ptr + size]; }
    }

    /** os_read, from any stream; `key` is what the keyboard gives. */
    method ReadCall(id: u64, buffer: u64, size: u64, key: u64) returns (r: nat, ok: bool)
      requires Valid() && current in procs
      modifies this`streams, this`seen, disk`buffer, memory
      ensures RecordsOk() && FilesOk() && PagesOk() && Reads(old(Now()), Now(), id, buffer, size, key, r, ok)
    {
      hide RecordsGood, FilesGood, PagesGood, SlotOf, NameRead, DataRead, Left, ContainsBuffer, ErrorResult, Good, LE64,
        Patched, NextListed, NameIn, Less;
      ghost var s := Now();
      Errors();
      ok := true;
      if IsKeyboard(id) {
        r, ok := ReadKey(buffer, size, key);
      } else {
        ghost var a;
        SmallStream(layout, id);
        r, a := Read(id, buffer, size);
        StreamModes(s.img, s.sh, s.streams, s.seen, a);
      }
    }

    /** os_write, to any stream. */
    method WriteCall(id: u64, buffer: u64, size: u64) returns (r: nat, ok: bool)
      requires Valid() && current in procs
      modifies this`streams, disk, disk.image, memory
      ensures RecordsOk() && FilesOk() && PagesOk() && Writes(old(Now()), Now(), heapLimit, id, buffer, size, r, ok)
    {
      hide RecordsGood, FilesGood, PagesGood, SlotOf, Extended, Left, ContainsBuffer, ErrorResult, Good, Printed,
        OutputInside, OutputSize, SameLeft;
      ghost var s := Now();
      CurrentProcess(layout, base, procs, streams, heap, heapLimit, current, memory.Length);
      RangeFacts(procs[current], heapLimit, memory.Length);
      InMemory(buffer, size);
      BufferIn(procs[current], buffer, size);
      Errors();
      ok := true;
      if id == STANDARD_OUTPUT {
        r, ok := WriteOutput(buffer, size);
      } else if id == SCREEN {
        r := WriteScreen(buffer, size);
      } else {
        ghost var a, k;
        SmallStream(layout, id);
        r, a, k := Write(id, buffer, size);
        if !Failed(r) || r == ErrorResult(OUT_OF_MEMORY) {
          assert WrittenAs(s, Now(), a, BytesIn(s.memory, buffer, size), if Failed(r) then OUT_OF_MEMORY else OK, k);
        }
      }
    }

    /** The calls, after the registers of the process are saved. `key` is what a device gives. */
    method Dispatch(call: Call, key: u64) returns (r: nat, ok: bool)
      requires Valid() && current in procs
      modifies this`heap, this`current, this`procs, this`layout, this`streams, this`seen, disk, disk.image, pages,
        memory
      ensures RecordsOk() && FilesOk() && PagesOk() && Answered(old(Now()), Now(), heapLimit, call, key, r, ok)
    {
      hide RecordsGood, FilesGood, PagesGood, Spawns, Exits, Stats, Opens, Reads, Writes, Closes, Deletes;
      CurrentProcess(layout, base, procs, streams, heap, heapLimit, current, memory.Length);
      ok := true;
      match call {
        case CallSpawn(_, _, _, _, _, _) =>
          r := SpawnCall(call);
        case CallExit(result) =>
          r := ExitCall(result);
        case CallSleep(_) =>
          r := 0;
        case CallStat(name, length) =>
          r := StatCall(name, length);
        case CallOpen(name, length, mode) =>
          r := OpenCall(name, length, mode);
        case CallRead(id, buffer, size) =>
          r, ok := ReadCall(id, buffer, size, key);
        case CallWrite(id, buffer, size) =>
          r, ok := WriteCall(id, buffer, size);
        case CallClose(id) =>
          r := CloseCall(id);
        case CallDelete(name, length) =>
          r := DeleteCall(name, length);
        case CallReboot =>
          r := key;
      }
    }

    /** syscall_handler: saves where the process is, does the call, and leaves the result for the process if it still
        exists. */
    method SystemCall(id: u64, args: u64, stackPointer: u64, returnAddress: u64, key: u64) returns (r: u64, ok: bool)
      requires Valid() && current in procs && stackPointer < procs[current].end + 4096
      modifies this, disk, disk.image, pages, memory
      ensures Valid()
      ensures Handled(old(Now()), Now(), heapLimit, id, args, stackPointer, returnAddress, key, r, ok)
      ensures history == old(history) + MadeIn(old(Now()), id, args, stackPointer, returnAddress)
      ensures Leaves(old(Now()), Now(), heapLimit, id, args, stackPointer, returnAddress, key, r, ok)
    {
      hide RecordsGood, FilesGood, PagesGood, Answered, Follows, WordAt, CallAt, ErrorResult;
      var process := current;
      ghost var s := Now();
      SaveRegisters(stackPointer, returnAddress);
      ghost var s1 := Now();
      r, ok := ErrorResult(INVALID_ARGUMENT), true;
      if IsCall(procs[process], id, args) {
        CurrentProcess(layout, base, procs, streams, heap, heapLimit, current, memory.Length);
        RangeFacts(procs[process], heapLimit, memory.Length);
        BufferIn(procs[process], args, 8 * SYSTEM_CALL_ARITY[id]);
        var call := Fetch(id, args);
        history := history + [MadeBy(procs[process], memory[..], id, args)];
        var result;
        result, ok := Dispatch(call, key);
        r := Wrap(result);
        assert Ended(s1, Now(), heapLimit, call, key, result, r, ok);
      }
      ghost var u := Now();
      if process in procs {
        SavedRecords(layout, base, procs, procs[process := procs[process].(savedR8 := r)], streams, heap, heapLimit,
          current, memory.Length);
        procs := procs[process := procs[process].(savedR8 := r)];
      }
      assert Now() == Resumed(u, process, r);
      HandledLeaves(s, Now(), base, heapLimit, id, args, stackPointer, returnAddress, key, r, ok);
    }

    /** What syscall_handler does first. */
    method SaveRegisters(stackPointer: u64, returnAddress: u64)
      requires Valid() && current in procs && stackPointer < procs[current].end + 4096
      modifies this`procs
      ensures Valid() && current in procs
      ensures procs == old(procs)[current := old(procs[current]).(savedStackPointer := stackPointer,
        savedReturnAddress := returnAddress)]
    {
      hide RecordsGood, FilesGood, PagesGood;
      var p := procs[current].(savedStackPointer := stackPointer, savedReturnAddress := returnAddress);
      SavedRecords(layout, base, procs, procs[current := p], streams, heap, heapLimit, current, memory.Length);
      procs := procs[current := p];
    }

    /** The arguments of a call. */
    method Fetch(id: u64, args: u64) returns (call: Call)
      requires id < NUM_SYSTEM_CALLS && args + 8 * SYSTEM_CALL_ARITY[id] <= memory.Length
      ensures call == CallAt(memory[..], id, args)
    {
      hide WordAt;
      var n := SYSTEM_CALL_ARITY[id];
      var w := seq(6, i => 0);
      var i := 0;
      while i < n
        invariant i <= n && |w| == 6 && forall k :: 0 <= k < i ==> w[k] == WordAt(memory[..], args + 8 * k)
      {
        var v := Word(args + 8 * i);
        w := w[i := v];
        i := i + 1;
      }
      match id {
        case 0 => call := CallSpawn(w[0], w[1], w[2], w[3], w[4], w[5]);
        case 1 => call := CallExit(w[0]);
        case 2 => call := CallSleep(w[0]);
        case 3 => call := CallStat(w[0], w[1]);
        case 4 => call := CallOpen(w[0], w[1], w[2]);
        case 5 => call := CallRead(w[0], w[1], w[2]);
        case 6 => call := CallWrite(w[0], w[1], w[2]);
        case 7 => call := CallClose(w[0]);
        case 8 => call := CallDelete(w[0], w[1]);
        case _ => call := CallReboot;
      }
    }

    // ----- what programs do themselves -----

    /** A store of the current process: the page tables let it through exactly if all its bytes are in the range of
        the process. */
    method UserStore(at: nat, data: seq<u8>) returns (ok: bool)
      requires Valid() && current in procs
      modifies memory
      ensures ok <==> data == [] || (procs[current].begin <= at && at + |data| <= procs[current].end)
      ensures memory[..] == if ok && at + |data| <= memory.Length then Patched(old(memory[..]), at, data)
        else old(memory[..])
      ensures OutsideSame(old(memory[..]), memory[..], procs[current].begin, procs[current].end)
      ensures StoreDone(old(Now()), Now(), at, data, ok)
    {
      hide RecordsGood, FilesGood, PagesGood, Accessible, PageIn, Patched;
      CurrentProcess(layout, base, procs, streams, heap, heapLimit, current, memory.Length);
      RangeFacts(procs[current], heapLimit, memory.Length);
      SameOutside(memory[..], procs[current].begin, procs[current].end);
      if data == [] {
        if at <= memory.Length { NothingPatched(memory[..], at, data); }
        return true;
      }
      var i := 0;
      while i < |data|
        invariant i <= |data| && (i > 0 ==> procs[current].begin <= at && at + i <= procs[current].end)
        invariant memory[..] == old(memory[..])
      {
        if at + i >= memory.Length { return false; }
        OwnPages(at + i);
        PageOfRange(at + i, procs[current].begin, procs[current].end);
        if !Accessible(pages.memory, pages.top, at + i) { return false; }
        i := i + 1;
      }
      Store(at, data);
      PatchedSame(old(memory[..]), at, data, procs[current].begin, procs[current].end);
      ok := true;
    }

    /** hard_fault_handler: ends the process. */
    method HardFault()
      requires Valid() && current != 0 && current in procs
      modifies this, pages
      ensures Valid() && history == old(history)
      ensures Exits(old(Now()), Now(), INTERNAL_ERROR,
        if old(procs[current]).parent == 0 then ErrorResult(INVALID_STATE) else 0)
      ensures |old(layout).counts| == |old(layout).stack| > 0
      ensures if old(procs[current].parent) == 0 then unchanged(this)
        else layout == Popped(old(layout)) && |old(layout).stack| > 1 && heap == old(current)
      ensures RangesKept(old(procs), procs) && LowSteady(old(streams), streams, old(current))
    {
      hide RecordsGood, FilesGood, PagesGood, Popped, Below, LowSteady, RangesKept;
      ghost var p0, s0, c := procs, streams, current;
      CurrentProcess(layout, base, procs, streams, heap, heapLimit, current, memory.Length);
      SameRanges(procs);
      SameSteady(streams, c);
      var r := Exit(INTERNAL_ERROR);
      BelowSteady(s0, c);
      if r == 0 { ExitRanges(p0, procs, c, current, INTERNAL_ERROR); }
    }

    // ----- what a valid state means -----

    /** User code can access exactly the pages of the current process. */
    lemma OwnPages(a: nat)
      requires Valid() && a < memory.Length
      ensures Accessible(pages.memory, pages.top, a) <==> PageIn(a, BeginOf(procs, current), EndOf(procs, current))
    {
      hide RecordsGood, FilesGood, Accessible;
      IsolatedMeans(pages.memory, pages.top, memory.Length, BeginOf(procs, current), EndOf(procs, current), a);
    }

    /** While a stream writes a file no other one reads or writes it. */
    lemma OneWriter(a: nat, b: nat)
      requires Valid() && a in streams && b in streams && a != b && streams[a].mode == MODE_WRITE
        && streams[b].fileBlock == streams[a].fileBlock
      ensures streams[b].mode == MODE_LIST
    {
      hide RecordsGood, PagesGood, Good, StreamOk;
      assert Apart(streams[a], streams[b]);
    }

    /** Records do not overlap each other, nor the memory of any process. */
    lemma RecordsApart(a: nat, n: nat, b: nat, m: nat, p: nat)
      requires Valid() && IsRecord(layout, a, n) && IsRecord(layout, b, m) && p in procs
      ensures base <= a && a + n <= heap <= heapLimit <= procs[p].begin
      ensures (a == b && n == m) || a + n <= b || b + m <= a
    {
      hide FilesGood, PagesGood, IsRecord, Arranged, Packed;
      RecordsParts(layout, base, procs, streams, heap, heapLimit, current, memory.Length);
      RecordsApartAt(layout, base, procs, streams, a, n, b, m);
      var i := ProcessPlace(layout, base, procs, streams, p);
      RangesNested(layout, procs, heapLimit, memory.Length, i, i);
    }

    /** The range of a process is in that of its parent. */
    lemma Nested(p: nat)
      requires Valid() && p in procs && procs[p].parent != 0
      ensures procs[p].parent in procs && InParent(procs[p], procs[procs[p].parent])
    {
      hide FilesGood, PagesGood, Arranged, Packed, InParent;
      RecordsParts(layout, base, procs, streams, heap, heapLimit, current, memory.Length);
      var i := ProcessPlace(layout, base, procs, streams, p);
      WalkProcess(layout, base, procs, streams, i);
      assert NestedAt(layout, procs, i);
    }
  }
}
