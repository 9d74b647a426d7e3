/** What every system call answers and does: the state of the kernel after it, from the state before it. */
module Calls {
  import opened Words
  import opened Stores
  import opened Blocks
  import opened Volumes
  import opened FileSystem
  import opened Records
  import opened Streams
  import opened Output
  import opened Requests

  /** The kernel at one moment: the disk with its shape, memory, the records, and the last name that each list stream
      gave. */
  datatype Moment = Moment(img: Image, sh: Shape, memory: seq<u8>, layout: Layout, heap: nat, current: nat,
                           procs: map<nat, Process>, streams: map<nat, Stream>, seen: map<nat, seq<u8>>)

  ghost function Caller(s: Moment): Process
    requires s.current in s.procs
  {
    s.procs[s.current]
  }

  ghost predicate HasName(s: Moment, name: seq<u8>) { IsNamed(s.img, s.sh, name) }

  /** The stream of the current process with a number is in use. */
  ghost predicate UsedStream(s: Moment, id: u64) {
    var a := SlotOf(s.layout, id);
    a != 0 && a in s.streams && s.streams[a].mode != MODE_UNUSED
  }

  /** The size of a file. */
  ghost predicate Stats(s: Moment, t: Moment, name: u64, length: u64, r: nat)
    requires s.current in s.procs
  {
    var bytes := BytesIn(s.memory, name, length);
    && t == s
    && if !ContainsBuffer(Caller(s), name, length) then r == ErrorResult(INVALID_ARGUMENT)
       else if !HasName(s, bytes) then r == ErrorResult(NOT_FOUND)
       else exists f: nat :: FileNamed(s.img, s.sh, f, bytes) && r == |FileData(s.img, s.sh, f)|
  }

  /** A stream is not in use any more. */
  ghost predicate Closes(s: Moment, t: Moment, id: u64, r: nat) {
    var a := SlotOf(s.layout, id);
    if UsedStream(s, id) then
      r == 0 && t == s.(streams := s.streams[a := s.streams[a].(mode := MODE_UNUSED, fileBlock := 0)])
    else r == ErrorResult(NOT_FOUND) && t == s
  }

  /** A file goes away, if no stream reads or writes it: there is none with its name any more, list streams go on to
      the next one, all other files keep what they hold, and all streams what they still have to read. */
  ghost predicate Deletes(s: Moment, t: Moment, name: u64, length: u64, r: nat)
    requires s.current in s.procs
  {
    var bytes := BytesIn(s.memory, name, length);
    if !ContainsBuffer(Caller(s), name, length) then r == ErrorResult(INVALID_ARGUMENT) && t == s
    else if !HasName(s, bytes) then r == ErrorResult(NOT_FOUND) && t == s
    else if !Shared(s.img, s.sh, s.streams, bytes, MODE_WRITE) then r == ErrorResult(INVALID_STATE) && t == s
    else
      && r == 0 && t == s.(img := t.img, sh := t.sh, streams := t.streams) && !HasName(t, bytes)
      && (exists f: nat, p: nat :: RemovedAs(s, t, bytes, f, p))
      && LeftKept(s.img, s.sh, t.img, t.sh, s.streams, t.streams)
  }

  ghost predicate RemovedAs(s: Moment, t: Moment, name: seq<u8>, f: nat, p: nat) {
    FileNamed(s.img, s.sh, f, name) && Removed(s.img, s.sh, t.img, t.sh, s.streams, t.streams, f, p)
  }

  /** How os_open fails, if it does; `low` is the end of the kernel's heap. */
  ghost function OpenStatus(s: Moment, low: nat, name: u64, length: u64, mode: u64): Status
    requires s.current in s.procs
  {
    var bytes := BytesIn(s.memory, name, length);
    if !ContainsBuffer(Caller(s), name, length) || (mode != MODE_READ && mode != MODE_WRITE) then INVALID_ARGUMENT
    else if !(s.heap + STREAM_SIZE <= low || exists j: nat :: UnusedIn(s.layout, s.streams, j)) then OUT_OF_MEMORY
    else if length == 0 then if mode == MODE_READ then OK else INVALID_ARGUMENT
    else FileStatus(s.img, s.sh, s.streams, bytes, mode)
  }

  /** The first unused stream of the process, or a new one if there is none, gets the file, or the list of files. A
      call that fails may leave a new stream that is not in use. */
  ghost predicate Opens(s: Moment, t: Moment, low: nat, name: u64, length: u64, mode: u64, r: nat)
    requires s.current in s.procs
  {
    var status := OpenStatus(s, low, name, length, mode);
    && t == s.(img := t.img, sh := t.sh, layout := t.layout, heap := t.heap, procs := t.procs, streams := t.streams,
               seen := t.seen)
    && SameButStreams(s.procs, t.procs) && LowSteady(s.streams, t.streams, s.current)
    && (t.layout == s.layout || (NoUnused(s) && |s.layout.counts| == |s.layout.stack| > 0
                                 && t.layout == Grown(s.layout)))
    && if status != OK then
         && r == ErrorResult(status) && t.img == s.img && t.sh == s.sh && t.seen == s.seen
         && (t.streams == s.streams || exists a: nat :: SpareStream(s, t, a))
       else OpensAs(s, t, name, length, mode, r)
  }

  ghost predicate NoUnused(s: Moment) { forall j: nat :: !UnusedIn(s.layout, s.streams, j) }

  ghost predicate SpareStream(s: Moment, t: Moment, a: nat) {
    a in t.streams && t.streams[a].mode == MODE_UNUSED && OneMore(s.streams, t.streams, a)
  }

  ghost predicate OpensAs(s: Moment, t: Moment, name: u64, length: u64, mode: u64, r: nat) {
    FIRST_FILE_STREAM_ID <= r < TWO64
    && (forall j: nat :: j + FIRST_FILE_STREAM_ID < r ==> !UnusedIn(s.layout, s.streams, j))
    && var a := SlotOf(t.layout, r);
      t.seen == s.seen - {a} && LeftUnder(s.img, s.sh, t.img, t.sh, s.streams, t.streams, a)
      && exists file: nat ::
           OpenedAs(s.img, s.sh, t.img, t.sh, s.streams, t.streams, a, BytesIn(s.memory, name, length), mode, file)
  }

  /** The next bytes of a file or the next name of the list, or a key. */
  ghost predicate Reads(s: Moment, t: Moment, id: u64, buffer: u64, size: u64, key: u64, r: nat, ok: bool)
    requires s.current in s.procs
  {
    if size == 0 || !ContainsBuffer(Caller(s), buffer, size) then r == ErrorResult(INVALID_ARGUMENT) && t == s && ok
    else if IsKeyboard(id) then
      r == 1 && (ok <==> buffer + 8 <= |s.memory|)
      && t == s.(memory := if ok then Patched(s.memory, buffer, LE64(key)) else s.memory)
    else if id < FIRST_FILE_STREAM_ID then r == ErrorResult(INVALID_STATE) && t == s && ok
    else if !UsedStream(s, id) then r == ErrorResult(NOT_FOUND) && t == s && ok
    else if s.streams[SlotOf(s.layout, id)].mode == MODE_WRITE then r == ErrorResult(INVALID_STATE) && t == s && ok
    else ok && ReadsOn(s, t, SlotOf(s.layout, id), buffer, size, r)
  }

  ghost predicate ReadsOn(s: Moment, t: Moment, a: nat, buffer: u64, size: u64, r: nat) {
    && a in s.streams && a in t.streams
    && t == s.(memory := t.memory, streams := s.streams[a := t.streams[a]], seen := t.seen)
    && var x, y := s.streams[a], t.streams[a];
      if x.mode == MODE_READ then
        t.seen == s.seen
        && DataRead(Left(s.img, s.sh, x), Left(s.img, s.sh, y), s.sh, x, y, s.memory, t.memory, buffer, size, r)
      else if x.fileBlock == 0 then r == 0 && t == s
      else
        && NameRead(s.img, s.sh, x, size, r, s.memory, t.memory, buffer)
        && y == x.(fileBlock := y.fileBlock) && NextListed(s.img, s.sh, x.fileBlock, y.fileBlock)
        && t.seen == s.seen[a := NameIn(s.img, x.fileBlock)]
        && (a in s.seen ==> Less(s.seen[a], NameIn(s.img, x.fileBlock)))
  }

  /** Bytes go to the output, to the screen or to the end of a file. */
  ghost predicate Writes(s: Moment, t: Moment, low: nat, id: u64, buffer: u64, size: u64, r: nat, ok: bool)
    requires s.current in s.procs
  {
    if !ContainsBuffer(Caller(s), buffer, size) then r == ErrorResult(INVALID_ARGUMENT) && t == s && ok
    else if id == STANDARD_OUTPUT then
      && Caller(s).outputP + 8 <= |s.memory| && buffer + size <= |s.memory|
      && r == OutputSize(s.memory, Caller(s), size) && (ok <==> OutputInside(s.memory, Caller(s), size, low))
      && t == s.(memory := if ok then Printed(s.memory, Caller(s), buffer, size, low) else s.memory)
    else if id == SCREEN then r == size / 3 * 3 && t == s && ok
    else if id < FIRST_FILE_STREAM_ID then r == ErrorResult(INVALID_STATE) && t == s && ok
    else if !UsedStream(s, id) then r == ErrorResult(NOT_FOUND) && t == s && ok
    else if s.streams[SlotOf(s.layout, id)].mode != MODE_WRITE then r == ErrorResult(INVALID_STATE) && t == s && ok
    else ok && WritesOn(s, t, SlotOf(s.layout, id), BytesIn(s.memory, buffer, size), r)
  }

  ghost predicate WritesOn(s: Moment, t: Moment, a: nat, data: seq<u8>, r: nat) {
    && a in s.streams && a in t.streams
    && t == s.(img := t.img, sh := t.sh,
               streams := s.streams[a := s.streams[a].(currentBlock := t.streams[a].currentBlock)])
    && (r == |data| < ERROR_UNIT || r == ErrorResult(OUT_OF_MEMORY))
    && (exists k: nat, status: Status :: WrittenAs(s, t, a, data, status, k) && (status == OK <==> r == |data|))
    && SameLeft(s.img, s.sh, t.img, t.sh, s.streams)
  }

  ghost predicate WrittenAs(s: Moment, t: Moment, a: nat, data: seq<u8>, status: Status, k: nat) {
    a in s.streams && Extended(s.img, s.sh, t.img, t.sh, s.streams[a].fileBlock, data, status, k)
  }

  /** Where a new process would end. */
  ghost function EndFor(s: Moment): nat
    requires s.current in s.procs
  {
    PageDown(Caller(s).savedStackPointer)
  }

  ghost predicate CallGood(s: Moment, call: Call)
    requires s.current in s.procs && call.CallSpawn?
  {
    RequestGood(Caller(s), s.memory, call.dst, call.name, call.nameLength, call.args, call.argsLength, call.outputP)
  }

  /** How os_spawn fails, if it does. */
  ghost function SpawnStatus(s: Moment, low: nat, call: Call): Status
    requires s.current in s.procs && call.CallSpawn?
  {
    var bytes := BytesIn(s.memory, call.name, call.nameLength);
    if PROCESS_SIZE > low - s.heap then OUT_OF_MEMORY
    else if !CallGood(s, call) then INVALID_ARGUMENT
    else if !HasName(s, bytes) then NOT_FOUND
    else if !FittingFile(s.img, s.sh, bytes, call.argsLength, PageUp(call.dst), EndFor(s)) then OUT_OF_MEMORY
    else OK
  }

  /** A new process, at the top of the heap, is the current one. */
  ghost predicate Spawns(s: Moment, t: Moment, low: nat, call: Call, r: nat)
    requires s.current in s.procs && call.CallSpawn?
  {
    var status := SpawnStatus(s, low, call);
    && r == ErrorResult(status)
    && if status != OK then t == s
       else
         && t == s.(memory := t.memory, heap := s.heap + PROCESS_SIZE, current := s.heap,
                    layout := Pushed(s.layout, s.heap), procs := t.procs)
         && exists f: nat :: SpawnsFile(s, t, call, f)
  }

  ghost predicate SpawnsFile(s: Moment, t: Moment, call: Call, f: nat)
    requires s.current in s.procs && call.CallSpawn?
  {
    FileNamed(s.img, s.sh, f, BytesIn(s.memory, call.name, call.nameLength))
    && Started(s.memory, t.memory, s.procs, t.procs, s.current, t.current, call.dst, EndFor(s), call.outputP,
               FileData(s.img, s.sh, f), BytesIn(s.memory, call.args, call.argsLength))
  }

  /** The parent is current again, with the result; the heap and the streams are those from before the process. */
  ghost predicate Exits(s: Moment, t: Moment, result: u64, r: nat)
    requires s.current in s.procs
  {
    var parent := Caller(s).parent;
    if parent == 0 then r == ErrorResult(INVALID_STATE) && t == s
    else if result >= ERROR_UNIT then r == ErrorResult(INVALID_ARGUMENT) && t == s
    else
      && r == 0 && parent in s.procs && |s.layout.counts| == |s.layout.stack| > 1
      && t == s.(heap := s.current, current := parent, layout := Popped(s.layout),
                 streams := Below(s.streams, s.current),
                 procs := (s.procs - {s.current})[parent := s.procs[parent].(savedR8 := result)])
  }

  /** A call of the current process, with result r. `key` is what a device gives, and `ok` says whether the kernel stays
      in the memory of programs. */
  ghost predicate Answered(s: Moment, t: Moment, low: nat, call: Call, key: u64, r: nat, ok: bool) {
    s.current in s.procs
    && match call
       case CallSpawn(_, _, _, _, _, _) => ok && Spawns(s, t, low, call, r)
       case CallExit(result) => ok && Exits(s, t, result, r)
       case CallSleep(_) => ok && r == 0 && t == s
       case CallStat(name, length) => ok && Stats(s, t, name, length, r)
       case CallOpen(name, length, mode) => ok && Opens(s, t, low, name, length, mode, r)
       case CallRead(id, buffer, size) => Reads(s, t, id, buffer, size, key, r, ok)
       case CallWrite(id, buffer, size) => Writes(s, t, low, id, buffer, size, r, ok)
       case CallClose(id) => ok && Closes(s, t, id, r)
       case CallDelete(name, length) => ok && Deletes(s, t, name, length, r)
       case CallReboot => ok && r == key && t == s
  }

  /** After a file was removed, none has its name. */
  lemma NameGone(img: Image, sh: Shape, img1: Image, sh1: Shape, streams: map<nat, Stream>,
                 streams1: map<nat, Stream>, f: nat, p: nat, name: seq<u8>)
    requires Good(img, sh) && FileNamed(img, sh, f, name) && Removed(img, sh, img1, sh1, streams, streams1, f, p)
    ensures !IsNamed(img1, sh1, name)
  {
    hide Good, NameIn, AllRelisted;
    forall g: nat | FileNamed(img1, sh1, g, name) ensures false {
      assert Kept(img, sh, img1, sh1, g);
      KeptName(img, sh, img1, sh1, g);
      OneName(img, sh, f, g);
    }
  }

  lemma SmallStream(l: Layout, id: u64)
    ensures id < FIRST_FILE_STREAM_ID ==> SlotOf(l, id) == 0
  {
  }

  lemma StreamModes(img: Image, sh: Shape, streams: map<nat, Stream>, seen: map<nat, seq<u8>>, a: nat)
    requires FilesGood(img, sh, streams, seen)
    ensures a in streams ==>
      var m := streams[a].mode;
      (m == MODE_UNUSED || m == MODE_LIST || m == MODE_READ || m == MODE_WRITE)
      && streams[a := streams[a]] == streams
  {
    if a in streams { ModeOf(img, sh, streams, seen, a); }
  }

  // ----- what follows from the answer to a call -----

  /** The state of the kernel is good, as far as records are concerned. */
  ghost predicate GoodRecords(s: Moment, base: nat, low: nat) {
    RecordsGood(s.layout, base, s.procs, s.streams, s.heap, low, s.current, |s.memory|)
  }

  /** How a call changes records, streams of other processes, and memory. */
  ghost predicate Follows(s: Moment, t: Moment, low: nat, call: Call, key: u64, r: nat, ok: bool) {
    s.current in s.procs && Step(s.layout, t.layout, s.heap, call, r) && RangesKept(s.procs, t.procs)
    && LowSteady(s.streams, t.streams, s.current) && (call.CallSpawn? || call.CallExit? ==> r < TWO64)
    && Effect(s.memory, t.memory, Caller(s), call, key, low, ok)
    && (call.CallSpawn? && r == 0 && SafeCall(Caller(s), call, SpawnWord(s.memory, call)) ==>
          t.current in t.procs && OutputOk(t.memory, t.procs[t.current], low)
          && OutputIn(t.memory, t.procs[t.current], Caller(s)))
  }

  lemma AnswerFollows(s: Moment, t: Moment, base: nat, low: nat, call: Call, key: u64, r: nat, ok: bool)
    requires GoodRecords(s, base, low) && Answered(s, t, low, call, key, r, ok)
    ensures Follows(s, t, low, call, key, r, ok)
  {
    hide GoodRecords, Spawns, Exits, Opens, Reads, Writes, Closes, Deletes, LowSteady, Step, Effect, SafeCall,
      RangesKept, OutputOk, OutputIn, OutsideSame;
    match call {
      case CallSpawn(_, _, _, _, _, _) => SpawnFollows(s, t, base, low, call, key, r);
      case CallExit(result) => ExitFollows(s, t, base, low, call, key, r);
      case CallOpen(name, length, mode) => OpenFollows(s, t, base, low, call, key, r);
      case CallRead(id, buffer, size) => ReadFollows(s, t, base, low, call, key, r, ok);
      case CallWrite(id, buffer, size) => WriteFollows(s, t, base, low, call, key, r, ok);
      case CallClose(id) => CloseFollows(s, t, base, low, call, key, r);
      case CallDelete(name, length) => DeleteFollows(s, t, low, call, key, r);
      case CallStat(_, _) => StayFollows(s, low, call, key, r);
      case _ => StayFollows(s, low, call, key, r);
    }
  }

  /** Neither a write to the standard output nor a key. */
  predicate PlainCall(p: Process, call: Call) {
    && (call.CallWrite? ==> !(call.id == STANDARD_OUTPUT && ContainsBuffer(p, call.buffer, call.size)))
    && (call.CallRead? ==> !(IsKeyboard(call.id) && call.size > 0 && ContainsBuffer(p, call.buffer, call.size)))
  }

  /** A call that changes nothing. */
  lemma StayFollows(s: Moment, low: nat, call: Call, key: u64, r: nat)
    requires s.current in s.procs && !call.CallSpawn? && !call.CallExit? && PlainCall(Caller(s), call)
    ensures Follows(s, s, low, call, key, r, true)
  {
    hide OutsideSame, LowSteady, RangesKept;
    SameSteady(s.streams, s.current);
    SameRanges(s.procs);
    SameOutside(s.memory, Caller(s).begin, Caller(s).end);
  }

  /** A call that changes streams of the process only. */
  lemma StreamFollows(s: Moment, t: Moment, low: nat, call: Call, key: u64, r: nat)
    requires s.current in s.procs && !call.CallSpawn? && !call.CallExit? && PlainCall(Caller(s), call)
    requires t.procs == s.procs && t.layout == s.layout && LowSteady(s.streams, t.streams, s.current)
    requires OutsideSame(s.memory, t.memory, Caller(s).begin, Caller(s).end)
    ensures Follows(s, t, low, call, key, r, true)
  {
    hide OutsideSame, LowSteady, RangesKept;
    SameRanges(s.procs);
  }

  lemma CloseFollows(s: Moment, t: Moment, base: nat, low: nat, call: Call, key: u64, r: nat)
    requires GoodRecords(s, base, low) && s.current in s.procs && call.CallClose? && Closes(s, t, call.id, r)
    ensures Follows(s, t, low, call, key, r, true)
  {
    hide RecordsGood, OutsideSame, LowSteady, SlotOf, Follows;
    if UsedStream(s, call.id) {
      HighStream(s.layout, base, s.procs, s.streams, s.heap, low, s.current, |s.memory|, call.id);
      ClosedSteady(s.streams, SlotOf(s.layout, call.id), s.current);
      SameOutside(s.memory, Caller(s).begin, Caller(s).end);
      StreamFollows(s, t, low, call, key, r);
    } else {
      StayFollows(s, low, call, key, r);
    }
  }

  lemma DeleteFollows(s: Moment, t: Moment, low: nat, call: Call, key: u64, r: nat)
    requires s.current in s.procs && call.CallDelete? && Deletes(s, t, call.name, call.length, r)
    ensures Follows(s, t, low, call, key, r, true)
  {
    hide OutsideSame, LowSteady, Follows, Removed, IsNamed, Shared, LeftKept;
    if t == s {
      StayFollows(s, low, call, key, r);
    } else {
      var f: nat, p: nat :| RemovedAs(s, t, BytesIn(s.memory, call.name, call.length), f, p);
      RemovedSteady(s.img, s.sh, t.img, t.sh, s.streams, t.streams, f, p, s.current);
      SameOutside(s.memory, Caller(s).begin, Caller(s).end);
      StreamFollows(s, t, low, call, key, r);
    }
  }

  lemma OpenFollows(s: Moment, t: Moment, base: nat, low: nat, call: Call, key: u64, r: nat)
    requires GoodRecords(s, base, low) && s.current in s.procs && call.CallOpen?
      && Opens(s, t, low, call.name, call.length, call.mode, r)
    ensures Follows(s, t, low, call, key, r, true)
  {
    hide GoodRecords, OutsideSame, LowSteady, SameButStreams, OpenStatus, OpensAs, SpareStream, Grown, NoUnused,
      RangesKept;
    OpenRanges(s.procs, t.procs);
    SameOutside(s.memory, Caller(s).begin, Caller(s).end);
  }

  lemma ExitFollows(s: Moment, t: Moment, base: nat, low: nat, call: Call, key: u64, r: nat)
    requires GoodRecords(s, base, low) && s.current in s.procs && call.CallExit? && Exits(s, t, call.result, r)
    ensures Follows(s, t, low, call, key, r, true)
  {
    hide RecordsGood, OutsideSame, LowSteady, Popped, Below, RangesKept;
    CurrentProcess(s.layout, base, s.procs, s.streams, s.heap, low, s.current, |s.memory|);
    Errors();
    SameRanges(s.procs);
    SameSteady(s.streams, s.current);
    BelowSteady(s.streams, s.current);
    SameOutside(s.memory, Caller(s).begin, Caller(s).end);
    if r == 0 { ExitRanges(s.procs, t.procs, s.current, t.current, call.result); }
  }

  lemma ReadFollows(s: Moment, t: Moment, base: nat, low: nat, call: Call, key: u64, r: nat, ok: bool)
    requires GoodRecords(s, base, low) && s.current in s.procs && call.CallRead?
      && Reads(s, t, call.id, call.buffer, call.size, key, r, ok)
    ensures Follows(s, t, low, call, key, r, ok)
  {
    hide RecordsGood, OutsideSame, LowSteady, SlotOf, Patched, LE64, NameRead, DataRead, Left, NextListed, NameIn, Less,
      RangesKept;
    var p := Caller(s);
    SameRanges(s.procs);
    SameSteady(s.streams, s.current);
    SameOutside(s.memory, p.begin, p.end);
    BufferIn(p, call.buffer, call.size);
    CurrentProcess(s.layout, base, s.procs, s.streams, s.heap, low, s.current, |s.memory|);
    RangeFacts(p, low, |s.memory|);
    if t != s && !IsKeyboard(call.id) {
      var a := SlotOf(s.layout, call.id);
      HighStream(s.layout, base, s.procs, s.streams, s.heap, low, s.current, |s.memory|, call.id);
      HighChange(s.streams, t.streams, a, s.current);
      ReadOutside(s.img, s.sh, t.img, t.sh, s.streams[a], t.streams[a], s.memory, t.memory, call.buffer, call.size, r,
        p.begin, p.end);
    }
  }

  lemma WriteFollows(s: Moment, t: Moment, base: nat, low: nat, call: Call, key: u64, r: nat, ok: bool)
    requires GoodRecords(s, base, low) && s.current in s.procs && call.CallWrite?
      && Writes(s, t, low, call.id, call.buffer, call.size, r, ok)
    ensures Follows(s, t, low, call, key, r, ok)
  {
    hide RecordsGood, OutsideSame, LowSteady, SlotOf, Printed, OutputInside, OutputSize, SameLeft, WrittenAs,
      RangesKept;
    SameRanges(s.procs);
    SameSteady(s.streams, s.current);
    SameOutside(s.memory, Caller(s).begin, Caller(s).end);
    if t.streams != s.streams {
      HighStream(s.layout, base, s.procs, s.streams, s.heap, low, s.current, |s.memory|, call.id);
      HighChange(s.streams, t.streams, SlotOf(s.layout, call.id), s.current);
    }
  }

  lemma SpawnFollows(s: Moment, t: Moment, base: nat, low: nat, call: Call, key: u64, r: nat)
    requires GoodRecords(s, base, low) && s.current in s.procs && call.CallSpawn? && Spawns(s, t, low, call, r)
    ensures Follows(s, t, low, call, key, r, true)
  {
    hide RecordsGood, OutsideSame, LowSteady, Pushed, RangesKept, ContainsBuffer, Started, IsNamed, FittingFile,
      OutputOk, OutputIn, WordAt, RequestGood, SafeCall, ErrorResult;
    var p, status := Caller(s), SpawnStatus(s, low, call);
    Errors();
    ErrorFails(status);
    SameRanges(s.procs);
    SameSteady(s.streams, s.current);
    SameOutside(s.memory, p.begin, p.end);
    CurrentProcess(s.layout, base, s.procs, s.streams, s.heap, low, s.current, |s.memory|);
    RangeFacts(p, low, |s.memory|);
    if status == OK {
      RequestMeans(p, s.memory, call.dst, call.name, call.nameLength, call.args, call.argsLength, call.outputP);
      var f: nat :| SpawnsFile(s, t, call, f);
      var code, args := FileData(s.img, s.sh, f), BytesIn(s.memory, call.args, call.argsLength);
      StartedEffects(s.memory, t.memory, s.procs, t.procs, s.current, t.current, call.dst, EndFor(s), call.outputP,
        code, args);
      StartedOutput(s.memory, t.memory, s.procs, t.procs, s.current, t.current, call, EndFor(s), code, args, low);
    }
  }

  // ----- the handler -----

  /** What the library function for a call passes: the number of the call, and its parameters, which are one after the
      other in memory. */
  function NumberOf(call: Call): u64 {
    match call
    case CallSpawn(_, _, _, _, _, _) => 0
    case CallExit(_) => 1
    case CallSleep(_) => 2
    case CallStat(_, _) => 3
    case CallOpen(_, _, _) => 4
    case CallRead(_, _, _) => 5
    case CallWrite(_, _, _) => 6
    case CallClose(_) => 7
    case CallDelete(_, _) => 8
    case CallReboot => 9
  }

  function WordsOf(call: Call): seq<u64> {
    match call
    case CallSpawn(dst, name, nameLength, args, argsLength, outputP) =>
      [dst, name, nameLength, args, argsLength, outputP]
    case CallExit(result) => [result]
    case CallSleep(millis) => [millis]
    case CallStat(name, length) => [name, length]
    case CallOpen(name, length, mode) => [name, length, mode]
    case CallRead(id, buffer, size) => [id, buffer, size]
    case CallWrite(id, buffer, size) => [id, buffer, size]
    case CallClose(id) => [id]
    case CallDelete(name, length) => [name, length]
    case CallReboot => []
  }

  /** The handler makes the call that the library function passes, and looks at no more memory than its parameters. */
  lemma CallPassed(m: seq<u8>, args: nat, call: Call)
    requires forall i :: 0 <= i < |WordsOf(call)| ==> WordAt(m, args + 8 * i) == WordsOf(call)[i]
    ensures NumberOf(call) < NUM_SYSTEM_CALLS && |WordsOf(call)| == SYSTEM_CALL_ARITY[NumberOf(call)]
    ensures CallAt(m, NumberOf(call), args) == call
  {
    hide WordAt;
    forall i | 0 <= i < |WordsOf(call)| ensures WordAt(m, args + 8 * i) == WordsOf(call)[i] {}
    if |WordsOf(call)| > 0 { assert WordAt(m, args + 8 * 0) == WordsOf(call)[0]; }
    if |WordsOf(call)| > 1 { assert WordAt(m, args + 8 * 1) == WordsOf(call)[1]; }
    if |WordsOf(call)| > 2 { assert WordAt(m, args + 8 * 2) == WordsOf(call)[2]; }
    if |WordsOf(call)| > 3 {
      assert WordAt(m, args + 8 * 3) == WordsOf(call)[3];
      assert WordAt(m, args + 8 * 4) == WordsOf(call)[4];
      assert WordAt(m, args + 8 * 5) == WordsOf(call)[5];
    }
  }

  /** The handler reads a call with this number from its arguments. */
  predicate IsCall(p: Process, id: u64, args: u64) {
    id < NUM_SYSTEM_CALLS && ContainsBuffer(p, args, 8 * SYSTEM_CALL_ARITY[id])
  }

  /** The call that the handler makes, and the process that makes it, with its registers saved. */
  ghost function MadeBy(p: Process, m: seq<u8>, id: u64, args: u64): Made
    requires id < NUM_SYSTEM_CALLS
  {
    Made(p, CallAt(m, id, args), SpawnWord(m, CallAt(m, id, args)))
  }

  /** The state with the registers of the current process saved. */
  ghost function Entered(s: Moment, stackPointer: u64, returnAddress: u64): Moment
    requires s.current in s.procs
  {
    s.(procs := s.procs[s.current := Caller(s).(savedStackPointer := stackPointer,
                                                savedReturnAddress := returnAddress)])
  }

  /** The state with the result left for a process, if it still exists. */
  ghost function Resumed(s: Moment, process: nat, r: u64): Moment {
    if process in s.procs then s.(procs := s.procs[process := s.procs[process].(savedR8 := r)]) else s
  }

  /** The calls that a trap makes: one, or none. */
  ghost function MadeIn(s: Moment, id: u64, args: u64, stackPointer: u64, returnAddress: u64): seq<Made>
    requires s.current in s.procs
  {
    var s1 := Entered(s, stackPointer, returnAddress);
    if IsCall(Caller(s1), id, args) then [MadeBy(Caller(s1), s1.memory, id, args)] else []
  }

  /** What syscall_handler does: a bad number or bad arguments change nothing but the registers; otherwise the call is
      done, and its result, in 64 bits, is left for the process. */
  ghost predicate Handled(s: Moment, t: Moment, low: nat, id: u64, args: u64, stackPointer: u64, returnAddress: u64,
                          key: u64, r: u64, ok: bool)
    requires s.current in s.procs
  {
    var s1 := Entered(s, stackPointer, returnAddress);
    if IsCall(Caller(s1), id, args) then
      exists u: Moment, result: nat ::
        Ended(s1, u, low, CallAt(s1.memory, id, args), key, result, r, ok) && t == Resumed(u, s.current, r)
    else t == Resumed(s1, s.current, r) && r == ErrorResult(INVALID_ARGUMENT) && ok
  }

  ghost predicate Ended(s: Moment, u: Moment, low: nat, call: Call, key: u64, result: nat, r: u64, ok: bool) {
    Answered(s, u, low, call, key, result, ok) && r == Wrap(result)
  }

  /** How a trap changes records, streams of other processes, and memory. */
  ghost predicate Leaves(s: Moment, t: Moment, low: nat, id: u64, args: u64, stackPointer: u64, returnAddress: u64,
                         key: u64, r: u64, ok: bool)
    requires s.current in s.procs
  {
    var s1 := Entered(s, stackPointer, returnAddress);
    && RangesKept(s.procs, t.procs) && LowSteady(s.streams, t.streams, s.current)
    && (s.current in t.procs ==> t.procs[s.current].savedR8 == r)
    && if IsCall(Caller(s1), id, args) then Follows(s1, t, low, CallAt(s1.memory, id, args), key, r, ok)
       else t.layout == s.layout && t.memory == s.memory && ok
  }

  lemma HandledLeaves(s: Moment, t: Moment, base: nat, low: nat, id: u64, args: u64, stackPointer: u64,
                      returnAddress: u64, key: u64, r: u64, ok: bool)
    requires s.current in s.procs && GoodRecords(Entered(s, stackPointer, returnAddress), base, low)
    requires Handled(s, t, low, id, args, stackPointer, returnAddress, key, r, ok)
    ensures Leaves(s, t, low, id, args, stackPointer, returnAddress, key, r, ok)
  {
    hide GoodRecords, Answered, Follows, RangesKept, LowSteady, CallAt, ErrorResult;
    var s1 := Entered(s, stackPointer, returnAddress);
    SameSteady(s.streams, s.current);
    if IsCall(Caller(s1), id, args) {
      var call := CallAt(s1.memory, id, args);
      var u: Moment, result: nat :| Ended(s1, u, low, call, key, result, r, ok) && t == Resumed(u, s.current, r);
      AnswerFollows(s1, u, base, low, call, key, result, ok);
      ResumedFollows(s, s1, u, t, low, call, key, result, r, ok);
    } else {
      SameRanges(s1.procs);
      ResultRanges(s.procs, s1.procs, s1.procs, t.procs, s.current);
    }
  }

  lemma ResumedFollows(s: Moment, s1: Moment, u: Moment, t: Moment, low: nat, call: Call, key: u64, result: nat,
                       r: u64, ok: bool)
    requires s.current in s.procs && s1.current == s.current && s.current in s1.procs
      && SameBounds(s.procs[s.current], s1.procs[s.current])
    requires s1.procs == s.procs[s.current := s1.procs[s.current]] && s1.streams == s.streams
    requires Follows(s1, u, low, call, key, result, ok) && r == Wrap(result) && t == Resumed(u, s.current, r)
    ensures Follows(s1, t, low, call, key, r, ok) && RangesKept(s.procs, t.procs)
      && LowSteady(s.streams, t.streams, s.current)
  {
    hide Step, RangesKept, LowSteady, Effect, SafeCall, OutputOk, OutputIn, CallAt;
    SmallResult(s1.layout, u.layout, s1.heap, call, result);
    SameRanges(s1.procs);
    ResultRanges(s.procs, s1.procs, u.procs, t.procs, s.current);
    ResultRanges(s1.procs, s1.procs, u.procs, t.procs, s.current);
    if t.current in u.procs { SameOutput(t.memory, u.procs[t.current], t.procs[t.current], low, Caller(s1)); }
  }

  /** A store of the current process gets through exactly if all its bytes are in the range of the process. */
  ghost predicate StoreDone(s: Moment, t: Moment, at: nat, data: seq<u8>, ok: bool)
    requires s.current in s.procs
  {
    (ok <==> data == [] || (Caller(s).begin <= at && at + |data| <= Caller(s).end))
    && t == s.(memory := if ok && at + |data| <= |s.memory| then Patched(s.memory, at, data) else s.memory)
  }
}
