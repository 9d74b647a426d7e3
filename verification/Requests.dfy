/** The rules of the system calls on values: which requests are good, what they do to memory, records, files and
    streams. */
module Requests {
  import opened Words
  import opened Stores
  import opened Blocks
  import opened Volumes
  import opened Reshaping
  import opened Appending
  import opened FileSystem
  import opened Paging
  import opened Records
  import opened Streams
  import opened Output

  const STACK_RESERVE := 1024
  const FIRST_FILE_STREAM_ID := 4
  const ERROR_UNIT := 0x100_0000_0000_0000

  /** Results from 2^56 on say that a call failed. */
  function ErrorResult(s: Status): u64 {
    (match s
     case OK => 0
     case INVALID_ARGUMENT => 1
     case INVALID_STATE => 2
     case NOT_FOUND => 3
     case ALREADY_EXISTS => 4
     case OUT_OF_MEMORY => 5) * ERROR_UNIT
  }

  /** process_contains_buffer. */
  predicate ContainsBuffer(p: Process, ptr: u64, size: u64) {
    if ptr < p.begin || ptr >= p.end then false
    else if size > p.end - ptr then false
    else true
  }

  lemma BufferIn(p: Process, ptr: u64, size: u64)
    ensures ContainsBuffer(p, ptr, size) <==> p.begin <= ptr < p.end && ptr + size <= p.end
  {
  }

  function PageUp(x: u64): u64 { Wrap(x + 4095) / 4096 * 4096 }

  function PageDown(x: u64): u64 { x / 4096 * 4096 }

  lemma PageFacts(x: u64)
    ensures PageUp(x) % 4096 == 0 && PageDown(x) % 4096 == 0 && PageDown(x) <= x < PageDown(x) + 4096
    ensures x + 4095 < TWO64 ==> x <= PageUp(x) < x + 4096
  {
  }

  /** The bytes of a buffer, if it is in memory. */
  function BytesIn(m: seq<u8>, ptr: nat, size: nat): seq<u8> { if ptr + size <= |m| then m[ptr..ptr + size] else [] }

  /** A request of a process to start a program has its name, its arguments and the pointer to its output in the range
      of the process, arguments that the new process does not overwrite, and an output before it. */
  ghost predicate RequestGood(p: Process, m: seq<u8>, dst: u64, name: u64, nameLength: u64, args: u64,
                              argsLength: u64, outputP: u64) {
    var begin, end := PageUp(dst), PageDown(p.savedStackPointer);
    && p.begin <= begin <= end
    && ContainsBuffer(p, name, nameLength) && ContainsBuffer(p, args, argsLength)
    && (args + argsLength <= begin || end <= args)
    && ContainsBuffer(p, outputP, 8) && outputP + 8 <= |m|
    && p.begin <= WordAt(m, outputP) <= dst
  }

  /** What the checks of a request ensure. */
  lemma RequestMeans(p: Process, m: seq<u8>, dst: u64, name: u64, nameLength: u64, args: u64, argsLength: u64,
                     outputP: u64)
    requires p.end <= |m| && p.end % 4096 == 0 && p.savedStackPointer < p.end + 4096
      && RequestGood(p, m, dst, name, nameLength, args, argsLength, outputP)
    ensures var begin, end := PageUp(dst), PageDown(p.savedStackPointer);
      p.begin <= begin <= end && begin % 4096 == 0 && end % 4096 == 0 && end <= p.end
      && name + nameLength <= |m| && args + argsLength <= |m| && (args + argsLength <= begin || end <= args)
      && p.begin <= outputP && outputP + 8 <= p.end && p.begin <= WordAt(m, outputP) <= dst
  {
    hide WordAt;
    BufferIn(p, outputP, 8);
    BufferIn(p, name, nameLength);
    BufferIn(p, args, argsLength);
    PageFacts(dst);
    PageFacts(p.savedStackPointer);
    StackStays(p, p.savedStackPointer);
  }

  /** The memory of a new process ends where the page of its parent's stack pointer starts: that is in the range of the
      parent exactly if the stack pointer is not a page past it. */
  lemma StackStays(p: Process, sp: u64)
    requires p.end % 4096 == 0
    ensures PageDown(sp) <= p.end <==> sp < p.end + 4096
  {
    var q, e := sp / 4096, p.end / 4096;
    assert PageDown(sp) == q * 4096 <= sp < (q + 1) * 4096 && p.end == e * 4096;
    if q <= e { assert q * 4096 <= e * 4096; } else { assert q * 4096 >= (e + 1) * 4096; }
  }

  /** The pages that user code can access are those of the current process. */
  ghost predicate PagesGood(m: Memory, top: nat, limit: nat, begin: nat, end: nat) {
    Separate(m, top, limit) && Isolated(m, top, limit, begin, end)
  }

  function BeginOf(procs: map<nat, Process>, a: nat): nat { if a in procs then procs[a].begin else 0 }

  function EndOf(procs: map<nat, Process>, a: nat): nat { if a in procs then procs[a].end else 0 }

  /** The address of the stream of the last process with the given number, or 0. */
  ghost function SlotOf(l: Layout, id: u64): nat {
    var n := |l.stack| - 1;
    if n >= 0 && id >= FIRST_FILE_STREAM_ID && HasSlot(l, n, id - FIRST_FILE_STREAM_ID)
      then Slot(l, n, id - FIRST_FILE_STREAM_ID) else 0
  }

  /** Stream j of the last process is there and not in use. */
  ghost predicate UnusedIn(l: Layout, streams: map<nat, Stream>, j: nat) {
    var n := |l.stack| - 1;
    n >= 0 && HasSlot(l, n, j) && Slot(l, n, j) in streams && streams[Slot(l, n, j)].mode == MODE_UNUSED
  }

  ghost predicate FileNamed(img: Image, sh: Shape, f: nat, name: seq<u8>) { f in sh.chains && NameIn(img, f) == name }

  ghost predicate IsNamed(img: Image, sh: Shape, name: seq<u8>) { exists f: nat :: FileNamed(img, sh, f, name) }

  /** What a file needs fits between the two addresses: the code, the arguments with their size, and the stack. */
  ghost predicate FitsIn(img: Image, sh: Shape, f: nat, argsLength: u64, begin: nat, end: nat)
    requires Good(img, sh) && f in sh.chains
  {
    begin + |FileData(img, sh, f)| + 8 + argsLength + STACK_RESERVE <= end
  }

  ghost predicate FittingFile(img: Image, sh: Shape, name: seq<u8>, argsLength: u64, begin: nat, end: nat) {
    Good(img, sh) && exists f: nat :: FileNamed(img, sh, f, name) && FitsIn(img, sh, f, argsLength, begin, end)
  }

  lemma FittingIs(img: Image, sh: Shape, f: nat, name: seq<u8>, argsLength: u64, begin: nat, end: nat)
    requires Good(img, sh) && FileNamed(img, sh, f, name)
    ensures FittingFile(img, sh, name, argsLength, begin, end) <==> FitsIn(img, sh, f, argsLength, begin, end)
  {
    hide Good, NameIn, FileData;
    OnlyOne(img, sh, f, name);
  }

  /** The streams let the file with this name be opened. */
  ghost predicate Shared(img: Image, sh: Shape, streams: map<nat, Stream>, name: seq<u8>, mode: u64) {
    forall f: nat :: FileNamed(img, sh, f, name) ==> AllShare(streams, f, mode)
  }

  /** How opening a file fails, if it does. */
  ghost function FileStatus(img: Image, sh: Shape, streams: map<nat, Stream>, name: seq<u8>, mode: u64): Status {
    if IsNamed(img, sh, name) then if Shared(img, sh, streams, name, mode) then OK else INVALID_STATE
    else if mode == MODE_READ then NOT_FOUND
    else if !ValidName(name) then INVALID_ARGUMENT
    else if sh.free == [] then OUT_OF_MEMORY
    else OK
  }

  /** The memory of a program that starts: its code, the size of its arguments, and the arguments. */
  function ProgramImage(code: seq<u8>, args: seq<u8>): (r: seq<u8>)
    requires |args| < TWO64
    ensures |r| == |code| + 8 + |args|
  {
    code + LE64(|args|) + args
  }

  lemma ShareUnfold(s: Stream, f: nat, mode: u64)
    ensures MayShare(s, f, mode)
      <==> !(s.fileBlock == f && s.mode != MODE_LIST && (s.mode == MODE_WRITE || mode == MODE_WRITE))
  {
  }

  /** The processes are as they were, but for their links to streams. */
  ghost predicate SameButStreams(procs: map<nat, Process>, procs1: map<nat, Process>) {
    procs1.Keys == procs.Keys && forall a: nat :: a in procs ==>
      a in procs1 && procs1[a] == procs[a].(fileStreams := procs1[a].fileStreams)
  }

  /** The streams are as they were, but perhaps for one more, a, which another one links to. */
  ghost predicate OneMore(streams: map<nat, Stream>, streams1: map<nat, Stream>, a: nat) {
    if a in streams then streams1 == streams
    else
      streams1.Keys == streams.Keys + {a}
      && forall b: nat :: b in streams ==> b in streams1 && streams1[b] == streams[b].(next := streams1[b].next)
  }

  lemma OneMoreSame(streams: map<nat, Stream>, procs: map<nat, Process>, a: nat)
    ensures (a in streams ==> OneMore(streams, streams, a)) && SameButStreams(procs, procs)
  {
  }

  /** The new stream is linked from the last one of the process, or from the process. */
  lemma GrownIs(l: Layout, base: nat, procs: map<nat, Process>, streams: map<nat, Stream>, heap: nat, low: nat,
                current: nat, limit: nat, s: Stream, last: nat)
    requires current in procs && RecordsGood(l, base, procs, streams, heap, low, current, limit)
    requires |l.counts| == |l.stack| > 0
    requires var n := |l.stack| - 1; last == if l.counts[n] == 0 then 0 else Slot(l, n, l.counts[n] - 1)
    ensures heap !in streams && |Grown(l).stack| == |l.stack|
      && HasSlot(Grown(l), |l.stack| - 1, l.counts[|l.stack| - 1])
    ensures heap == Slot(Grown(l), |l.stack| - 1, l.counts[|l.stack| - 1])
    ensures last != 0 ==> last in streams
    ensures GrownProcs(l, procs, heap) == if last == 0 then procs[current := procs[current].(fileStreams := heap)]
      else procs
    ensures GrownStreams(l, streams, heap, s)
      == if last == 0 then streams[heap := s] else streams[last := streams[last].(next := heap)][heap := s]
    ensures OneMore(streams, GrownStreams(l, streams, heap, s), heap)
      && SameButStreams(procs, GrownProcs(l, procs, heap))
    ensures GrownStreams(l, streams, heap, s)[heap] == s
  {
    hide RecordsGood, Arranged, Packed;
    RecordsParts(l, base, procs, streams, heap, low, current, limit);
    CurrentProcess(l, base, procs, streams, heap, low, current, limit);
    var n := |l.stack| - 1;
    if l.counts[n] > 0 { WalkStream(l, base, procs, streams, n, l.counts[n] - 1); }
    HeapNew(l, base, procs, streams);
  }

  lemma HeapNew(l: Layout, base: nat, procs: map<nat, Process>, streams: map<nat, Stream>)
    requires |l.counts| == |l.stack| && Arranged(l, base, procs, streams)
    ensures Top(l, base) !in streams
  {
    hide Packed, IsSlot;
    ArrangedParts(l, base, procs, streams);
    NewSlot(l, base);
  }

  /** One more stream, not in use. */
  lemma MoreFiles(img: Image, sh: Shape, streams: map<nat, Stream>, streams1: map<nat, Stream>, seen: map<nat,
                  seq<u8>>, a: nat)
    requires OneMore(streams, streams1, a) && a in streams1 && streams1[a].mode == MODE_UNUSED
      && streams1[a].fileBlock == 0
    requires FilesGood(img, sh, streams, seen)
    ensures FilesGood(img, sh, streams1, seen)
  {
    hide Good, HasCursor, After;
    forall b: nat, c: nat | b in streams1 && c in streams1 && b != c ensures Apart(streams1[b], streams1[c]) {
      if b != a && c != a { assert Apart(streams[b], streams[c]); }
      if b != a { NoZeroWriter(img, sh, streams[b]); }
    }
    forall b: nat | b in streams1 && b != a ensures StreamOk(img, sh, streams1[b]) {
      NextOk(img, sh, streams[b], streams1[b]);
    }
  }

  lemma NextOk(img: Image, sh: Shape, s: Stream, t: Stream)
    requires StreamOk(img, sh, s) && t == s.(next := t.next)
    ensures StreamOk(img, sh, t)
  {
    if s.mode == MODE_READ {
      var i: nat :| CursorAt(img, sh.chains[s.fileBlock], i, s);
      assert CursorAt(img, sh.chains[s.fileBlock], i, t);
    }
  }

  lemma UnusedFile(img: Image, sh: Shape, streams: map<nat, Stream>, seen: map<nat, seq<u8>>, a: nat)
    requires a in streams && streams[a].mode == MODE_UNUSED && FilesGood(img, sh, streams, seen)
    ensures streams[a].fileBlock == 0
  {
    hide Good, HasCursor, Exclusive, Listed;
  }

  /** There are fewer streams than addresses. */
  lemma SmallId(l: Layout, base: nat, procs: map<nat, Process>, streams: map<nat, Stream>, heap: nat, low: nat,
                current: nat, limit: nat, j: nat)
    requires |l.counts| == |l.stack| > 0 && j <= l.counts[|l.stack| - 1]
      && RecordsGood(l, base, procs, streams, heap, low, current, limit)
    ensures j + FIRST_FILE_STREAM_ID < ERROR_UNIT
  {
    hide Arranged;
    RecordsParts(l, base, procs, streams, heap, low, current, limit);
  }

  lemma NoZeroWriter(img: Image, sh: Shape, s: Stream)
    requires StreamOk(img, sh, s) && Good(img, sh)
    ensures s.mode == MODE_WRITE ==> s.fileBlock != 0
  {
    hide Good, HasCursor;
    if s.mode == MODE_WRITE { NotZero(img, sh, s.fileBlock); }
  }

  /** The streams after one of them is closed. */
  function Closed(streams: map<nat, Stream>, a: nat): map<nat, Stream> {
    if a in streams then streams[a := streams[a].(mode := MODE_UNUSED, fileBlock := 0)] else streams
  }

  lemma Unused(img: Image, sh: Shape, streams: map<nat, Stream>, seen: map<nat, seq<u8>>, a: nat)
    requires a in streams && FilesGood(img, sh, streams, seen)
    ensures FilesGood(img, sh, Closed(streams, a), seen) && SameLinks(streams, Closed(streams, a))
  {
    hide FilesGood, Good, Apart, HasCursor, After;
    var s := streams[a].(mode := MODE_UNUSED, fileBlock := 0);
    Writers(img, sh, streams, seen);
    ListApart(streams, a, s);
    StreamSet(img, sh, streams, seen, a, s, seen);
  }

  lemma Writers(img: Image, sh: Shape, streams: map<nat, Stream>, seen: map<nat, seq<u8>>)
    requires FilesGood(img, sh, streams, seen)
    ensures forall b: nat :: b in streams && streams[b].mode == MODE_WRITE ==> streams[b].fileBlock != 0
  {
    hide Good, StreamOk;
    forall b: nat | b in streams ensures streams[b].mode == MODE_WRITE ==> streams[b].fileBlock != 0 {
      NoZeroWriter(img, sh, streams[b]);
    }
  }

  /** What reading from a list stream gives: the name of the file that it is at, or the start of it. */
  ghost predicate NameRead(img: Image, sh: Shape, s: Stream, size: nat, r: nat, m: seq<u8>, m1: seq<u8>, buffer: nat) {
    var name := NameIn(img, s.fileBlock);
    s.fileBlock in sh.chains && r == (if size < |name| then size else |name|) && buffer + r <= |m|
    && m1 == Patched(m, buffer, name[..r])
  }

  /** The next file of the list. */
  ghost predicate NextListed(img: Image, sh: Shape, f: nat, next: nat) {
    exists p: nat :: p < |sh.files| && sh.files[p] == f && next == At(sh.files, p + 1)
  }

  lemma ListPlace(img: Image, sh: Shape, streams: map<nat, Stream>, seen: map<nat, seq<u8>>, a: nat)
    requires a in streams && streams[a].mode == MODE_LIST && streams[a].fileBlock != 0
      && FilesGood(img, sh, streams, seen)
    ensures var f := streams[a].fileBlock;
      f in sh.chains && f < |img| && NameLength(img[f]) <= 488 && NameIn(img, f) == Name(img[f])
      && |Name(img[f])| == NameLength(img[f])
    ensures a in seen ==> Less(seen[a], NameIn(img, streams[a].fileBlock))
    ensures Good(img, sh)
  {
    hide Good, NameLength, Less, HasCursor, Exclusive;
    GoodFile(img, sh, streams[a].fileBlock);
    NameInIs(img, streams[a].fileBlock);
  }

  lemma ListNext(img: Image, sh: Shape, streams: map<nat, Stream>, seen: map<nat, seq<u8>>, a: nat)
    requires a in streams && streams[a].mode == MODE_LIST && streams[a].fileBlock in sh.chains
      && streams[a].fileBlock < |img|
    requires FilesGood(img, sh, streams, seen)
    ensures var f := streams[a].fileBlock;
      var s := streams[a].(fileBlock := NextFile(img[f]));
      NextListed(img, sh, f, NextFile(img[f])) && SameLinks(streams, streams[a := s])
      && FilesGood(img, sh, streams[a := s], seen[a := NameIn(img, f)])
  {
    hide Good, FilesGood, NextFile, NameIn, Less, HasCursor, Apart, NameOk;
    FilesParts(img, sh, streams, seen);
    var f := streams[a].fileBlock;
    var s := streams[a].(fileBlock := NextFile(img[f]));
    GoodFile(img, sh, f);
    var p := Index(sh.files, f);
    FileSpot(img, sh, p);
    if p + 1 < |sh.files| { FileSpot(img, sh, p + 1); }
    NextName(img, sh, p);
    ListApart(streams, a, s);
    StreamSet(img, sh, streams, seen, a, s, seen[a := NameIn(img, f)]);
  }

  /** After a read that came short the stream is in the last block, where it was if it was in that block already. */
  ghost predicate AtEnd(sh: Shape, s: Stream, t: Stream) {
    t.fileBlock in sh.chains && AtLast(sh.chains[t.fileBlock], t)
    && t.currentOffset == if t.currentBlock == s.currentBlock then s.currentOffset else 8
  }

  lemma ReadPlace(img: Image, sh: Shape, streams: map<nat, Stream>, seen: map<nat, seq<u8>>, a: nat)
      returns (i: nat, c: seq<nat>)
    requires a in streams && streams[a].mode == MODE_READ && FilesGood(img, sh, streams, seen)
    ensures var s := streams[a];
      Good(img, sh) && s.fileBlock in sh.chains && c == sh.chains[s.fileBlock] && ChainLinked(img, c) && i < |c|
      && c[i] < |img|
      && c[i] == s.currentBlock && Header(img, c, i) <= s.currentOffset <= End(img, c, i)
      && Left(img, sh, s) == Rest(img, c, i, s.currentOffset) && forall k :: 0 <= k < |c| ==> c[k] < |img|
  {
    hide Good, Left, Rest, Header, End, ChainLinked, Exclusive, Listed;
    var s := streams[a];
    assert StreamOk(img, sh, s);
    c := sh.chains[s.fileBlock];
    i :| CursorAt(img, c, i, s);
    LeftIs(img, sh, s, i);
    ChainBounds(img, c, i);
  }

  lemma ReadMoved(img: Image, sh: Shape, streams: map<nat, Stream>, seen: map<nat, seq<u8>>, a: nat, t: Stream,
                  i: nat, j: nat)
    requires a in streams && streams[a].mode == MODE_READ && streams[a].fileBlock in sh.chains
    requires var c, s := sh.chains[streams[a].fileBlock], streams[a];
      i <= j < |c| && c[i] == s.currentBlock && c[j] == t.currentBlock && c[i] < |img| && c[j] < |img| && c[0] < |img|
      && Header(img, c, i) <= s.currentOffset
      && t == s.(currentBlock := t.currentBlock, currentOffset := t.currentOffset)
      && (if i == j then s.currentOffset else 8) <= t.currentOffset <= End(img, c, j)
    requires FilesGood(img, sh, streams, seen)
    ensures FilesGood(img, sh, streams[a := t], seen) && SameLinks(streams, streams[a := t])
    ensures ChainLinked(img, sh.chains[t.fileBlock]) && Left(img, sh, t) == Rest(img, sh.chains[t.fileBlock], j,
      t.currentOffset)
    ensures t.currentBlock == streams[a].currentBlock ==> i == j
  {
    hide Good, FilesGood, Left, Rest, End, ChainLinked, NameLength;
    FilesParts(img, sh, streams, seen);
    var s, c := streams[a], sh.chains[streams[a].fileBlock];
    assert CursorAt(img, c, j, t);
    LeftIs(img, sh, t, j);
    if t.currentBlock == s.currentBlock { SamePlace(img, sh, s.fileBlock, i, j); }
    ReadApart(streams, a, t);
    StreamSet(img, sh, streams, seen, a, t, seen);
  }

  lemma ReadApart(streams: map<nat, Stream>, a: nat, t: Stream)
    requires a in streams && t.mode == streams[a].mode && t.fileBlock == streams[a].fileBlock && Exclusive(streams)
    ensures forall b: nat :: b in streams && b != a ==> Apart(t, streams[b]) && Apart(streams[b], t)
  {
    forall b: nat | b in streams && b != a ensures Apart(t, streams[b]) && Apart(streams[b], t) {
      assert Apart(streams[a], streams[b]) && Apart(streams[b], streams[a]);
    }
  }

  /** Results of calls that failed. */
  predicate Failed(r: nat) { r >= ERROR_UNIT }

  lemma Errors()
    ensures Failed(ErrorResult(INVALID_ARGUMENT)) && Failed(ErrorResult(NOT_FOUND))
      && Failed(ErrorResult(INVALID_STATE))
    ensures Failed(ErrorResult(OUT_OF_MEMORY)) && Failed(ErrorResult(ALREADY_EXISTS)) && ErrorResult(OK) == 0
    ensures ErrorResult(INVALID_ARGUMENT) != ErrorResult(NOT_FOUND)
      && ErrorResult(NOT_FOUND) != ErrorResult(INVALID_STATE)
    ensures ErrorResult(INVALID_ARGUMENT) != ErrorResult(INVALID_STATE)
      && ErrorResult(OUT_OF_MEMORY) != ErrorResult(NOT_FOUND)
    ensures ErrorResult(OUT_OF_MEMORY) != ErrorResult(INVALID_ARGUMENT)
      && ErrorResult(OUT_OF_MEMORY) != ErrorResult(INVALID_STATE)
  {
  }

  lemma ErrorFails(s: Status)
    ensures Failed(ErrorResult(s)) <==> s != OK
  {
  }

  lemma SameRequest(procs: map<nat, Process>, procs1: map<nat, Process>, a: nat, ptr: u64, size: u64)
    requires SameButStreams(procs, procs1) && a in procs
    ensures a in procs1 && ContainsBuffer(procs1[a], ptr, size) == ContainsBuffer(procs[a], ptr, size)
  {
  }

  /** The stream that a process gets for a file: not in use, and perhaps new. */
  ghost predicate FreeStream(s0: map<nat, Stream>, streams: map<nat, Stream>, a: nat, current: nat) {
    a != 0 && a in streams && streams[a].mode == MODE_UNUSED && streams[a].fileBlock == 0 && OneMore(s0, streams, a)
    && LowSteady(s0, streams, current)
  }

  lemma ModeOf(img: Image, sh: Shape, streams: map<nat, Stream>, seen: map<nat, seq<u8>>, a: nat)
    requires a in streams && FilesGood(img, sh, streams, seen)
    ensures var m := streams[a].mode; m == MODE_UNUSED || m == MODE_LIST || m == MODE_READ || m == MODE_WRITE
    ensures streams[a] == streams[a] && streams == streams[a := streams[a]]
  {
    hide Good, HasCursor, Exclusive, Listed;
    StreamHome(img, sh, streams[a]);
  }

  /** Reading `size` bytes when `rest` is left: what there is of them, and `rest1` is left then. */
  ghost predicate DataRead(rest: seq<u8>, rest1: seq<u8>, sh: Shape, s: Stream, t: Stream, m: seq<u8>, m1: seq<u8>,
                           buffer: nat, size: nat, r: nat) {
    && r == (if size <= |rest| then size else |rest|) && buffer + r <= |m| && m1 == Patched(m, buffer, rest[..r])
    && t == s.(currentBlock := t.currentBlock, currentOffset := t.currentOffset)
    && (if size <= |rest| then rest1 == rest[r..] else AtEnd(sh, s, t))
  }

  /** The last block of a file, and the room in it. */
  function LastOf(sh: Shape, f: nat): nat { if f in sh.chains && |sh.chains[f]| > 0
                  then sh.chains[f][|sh.chains[f]| - 1] else 0 }

  function RoomIn(img: Image, sh: Shape, f: nat): int { if LastOf(sh, f) < |img| then 512 - Link(img[LastOf(sh, f)])
                  else 0 }

  /** What writing to a file does: OK exactly if the data fits in its last block and the free blocks, and then the
      data is at its end; otherwise what fits is, and the rest of the last block is what it was. Other files keep
      their names, blocks and data. */
  ghost predicate Extended(img: Image, sh: Shape, img1: Image, sh1: Shape, f: nat, data: seq<u8>, status: Status,
                           k: nat) {
    && Good(img, sh) && Good(img1, sh1) && f in sh.chains && |img1| == |img|
    && NameIn(img1, f) == NameIn(img, f) && AllKept(img, sh, img1, sh1, f) && k <= |sh.free|
    && sh1 == Appended(sh, f, k)
    && (status == OK <==> |data| <= RoomIn(img, sh, f) + 504 * |sh.free|)
    && k == BlocksFor(|data|, RoomIn(img, sh, f), |sh.free|, status)
    && if status == OK then FileData(img1, sh1, f) == FileData(img, sh, f) + data
       else status == OUT_OF_MEMORY
            && if k == 0 then img1 == img
              else PartWritten(img, sh, img1, sh1, f, data, RoomIn(img, sh, f) + 504 * (k - 1))
  }

  /** How many free blocks the data takes. */
  function BlocksFor(size: nat, room: int, free: nat, status: Status): int {
    if status != OK then free else if size <= room then 0 else (size - room + 503) / 504
  }

  /** n bytes of the data came after the old ones, and after them what the last block taken held. */
  ghost predicate PartWritten(img: Image, sh: Shape, img1: Image, sh1: Shape, f: nat, data: seq<u8>, n: int) {
    LastOf(sh1, f) < |img| && 0 <= n < |data|
    && FileData(img1, sh1, f) == FileData(img, sh, f) + data[..n] + img[LastOf(sh1, f)][8..]
  }

  lemma WritePlace(img: Image, sh: Shape, streams: map<nat, Stream>, seen: map<nat, seq<u8>>, a: nat)
    requires a in streams && streams[a].mode == MODE_WRITE && FilesGood(img, sh, streams, seen)
    ensures var s := streams[a];
      Good(img, sh) && s.fileBlock in sh.chains && s.fileBlock != 0 && |sh.chains[s.fileBlock]| > 0
      && s.currentBlock == sh.chains[s.fileBlock][|sh.chains[s.fileBlock]| - 1] < |img|
  {
    hide Good, HasCursor, Exclusive, Listed;
    StreamHome(img, sh, streams[a]);
    ChainNonempty(img, sh, streams[a].fileBlock);
    ChainSpot(img, sh, streams[a].fileBlock, |sh.chains[streams[a].fileBlock]| - 1);
    NotZero(img, sh, streams[a].fileBlock);
  }

  lemma LastBlock(img: Image, sh: Shape, f: nat)
    requires f in sh.chains && Good(img, sh)
    ensures |sh.chains[f]| > 0 && sh.chains[f][|sh.chains[f]| - 1] < |img|
      && Link(img[sh.chains[f][|sh.chains[f]| - 1]]) <= 512
  {
    hide Good, Link, NameLength;
    GoodChain(img, sh, f);
    LastFits(img, sh.chains[f]);
  }

  /** Writing through a stream: only list streams are at its file otherwise. */
  lemma Written(img: Image, sh: Shape, img1: Image, sh1: Shape, streams: map<nat, Stream>, seen: map<nat, seq<u8>>,
                a: nat, t: Stream)
    requires a in streams && streams[a].mode == MODE_WRITE && t == streams[a].(currentBlock := t.currentBlock)
    requires |img1| == |img| && AllKept(img, sh, img1, sh1, t.fileBlock) && t.fileBlock in sh1.chains
      && AtLast(sh1.chains[t.fileBlock], t)
    requires NameIn(img1, t.fileBlock) == NameIn(img, t.fileBlock)
    requires FilesGood(img, sh, streams, seen) && Good(img1, sh1)
    ensures FilesGood(img1, sh1, streams[a := t], seen) && SameLinks(streams, streams[a := t])
    ensures SameLeft(img, sh, img1, sh1, streams)
  {
    hide FilesGood, Good, Kept, NameIn, HasCursor, After, AtLast;
    FilesParts(img, sh, streams, seen);
    var streams0 := Closed(streams, a);
    Unused(img, sh, streams, seen, a);
    forall b: nat | b in streams0 && streams0[b].fileBlock == t.fileBlock
      && t.fileBlock != 0 ensures streams0[b].mode == MODE_LIST {
      if b != a { assert Apart(streams[a], streams[b]); }
    }
    FilesMoved(img, sh, img1, sh1, t.fileBlock, streams0, seen);
    ReadApart(streams, a, t);
    StreamSet(img1, sh1, streams0, seen, a, t, seen);
    assert streams0[a := t] == streams[a := t];
    forall b: nat | b in streams ensures Left(img1, sh1, streams[b]) == Left(img, sh, streams[b]) {
      if b != a { assert streams0[b] == streams[b]; }
    }
  }

  /** The file with the name, ready to be opened: as it was, to read it from its start, or empty, to write it. */
  ghost predicate Ready(img: Image, sh: Shape, img1: Image, sh1: Shape, f: nat, name: seq<u8>, mode: u64, offset: nat) {
    && Good(img1, sh1) && f in sh1.chains && f != 0 && NameIn(img1, f) == name && AllKept(img, sh, img1, sh1, f)
    && |img1| == |img|
    && if mode == MODE_READ then img1 == img && sh1 == sh && f < |img| && offset == 24 + NameLength(img[f])
       else sh1.chains[f] == [f] && FileData(img1, sh1, f) == []
  }

  lemma ReadyRead(img: Image, sh: Shape, f: nat, name: seq<u8>, offset: nat)
    requires f in sh.chains && NameIn(img, f) == name && f < |img| && offset == 24 + NameLength(img[f]) && Good(img, sh)
    ensures Ready(img, sh, img, sh, f, name, MODE_READ, offset)
  {
    hide Good, NameIn, NameLength, SameFile;
    NotZero(img, sh, f);
    forall g: nat | g in sh.chains && g != f ensures Kept(img, sh, img, sh, g) {
      SameSelf(img, sh, g);
    }
  }

  lemma SameSelf(img: Image, sh: Shape, g: nat)
    requires g in sh.chains && Good(img, sh)
    ensures SameFile(img, img, sh.chains[g])
  {
    hide Good, ChainLinked, Content, Name, NameLength;
    StartOfFile(img, sh, g);
  }

  lemma ReadyCreated(img: Image, sh: Shape, img1: Image, sh1: Shape, f: nat, name: seq<u8>, offset: nat)
    requires Good(img1, sh1) && f in sh1.chains && sh1.chains[f] == [f] && EmptyFile(img1, f, name)
      && AllKept(img, sh, img1, sh1, 0)
    requires |img1| == |img| && Good(img, sh)
    ensures Ready(img, sh, img1, sh1, f, name, MODE_WRITE, offset)
  {
    hide Good, NameIn, NameLength, Kept, Content;
    NotZero(img1, sh1, f);
    EmptyIs(img1, f, name);
    forall g: nat | g in sh.chains && g != f ensures Kept(img, sh, img1, sh1, g) {
      NotZero(img, sh, g);
    }
  }

  lemma ReadyCleared(img: Image, sh: Shape, img1: Image, sh1: Shape, f: nat, name: seq<u8>, offset: nat)
    requires Good(img1, sh1) && f in sh1.chains && sh1.chains[f] == [f] && NameIn(img1, f) == name
      && FileData(img1, sh1, f) == []
    requires AllKept(img, sh, img1, sh1, f) && |img1| == |img|
    ensures Ready(img, sh, img1, sh1, f, name, MODE_WRITE, offset)
  {
    hide Good, NameIn, NameLength, AllKept, FileData;
    NotZero(img1, sh1, f);
  }

  lemma LeftAlike(img: Image, sh: Shape, streams: map<nat, Stream>)
    ensures SameLeft(img, sh, img, sh, streams)
  {
    hide Left;
  }

  lemma OffsetSame(streams: map<nat, Stream>, a: nat)
    requires a in streams
    ensures streams == streams[a := streams[a].(currentOffset := streams[a].currentOffset)]
  {
  }

  /** An unused stream has no file, and so its offset means nothing. */
  lemma OffsetSet(img: Image, sh: Shape, streams: map<nat, Stream>, seen: map<nat, seq<u8>>, a: nat, t: Stream)
    requires a in streams && streams[a].mode == MODE_UNUSED && t == streams[a].(currentOffset := t.currentOffset)
    requires FilesGood(img, sh, streams, seen)
    ensures FilesGood(img, sh, streams[a := t], seen) && SameLinks(streams, streams[a := t])
  {
    hide FilesGood, Good, HasCursor, Apart, After;
    UnusedFile(img, sh, streams, seen, a);
    Writers(img, sh, streams, seen);
    ListApart(streams, a, t);
    StreamSet(img, sh, streams, seen, a, t, seen);
  }

  lemma NewFile(img: Image, sh: Shape, img1: Image, f: nat, name: seq<u8>)
    requires sh.free != [] && f == sh.free[0] && Good(img, sh)
    ensures f !in sh.chains && f != 0
  {
    hide Good;
    FreeSpot(img, sh, 0);
    if f in sh.chains { FileNotFree(img, sh, f); }
  }

  lemma NoneAtZero(img: Image, sh: Shape, streams: map<nat, Stream>)
    ensures OnlyLists(streams, 0)
  {
  }

  lemma OnlyOne(img: Image, sh: Shape, f: nat, name: seq<u8>)
    requires f in sh.chains && NameIn(img, f) == name && Good(img, sh)
    ensures forall g: nat :: FileNamed(img, sh, g, name) ==> g == f
  {
    hide Good, NameIn;
    forall g: nat | FileNamed(img, sh, g, name) ensures g == f {
      OneName(img, sh, f, g);
    }
  }

  /** What opening does to the streams: stream a, which was not in use or not there, has the mode and the file, at its
      start. */
  ghost predicate Opened(streams: map<nat, Stream>, streams1: map<nat, Stream>, a: nat, mode: u64, file: nat) {
    && streams1.Keys == streams.Keys + {a} && (a in streams ==> streams[a].mode == MODE_UNUSED)
    && streams1[a] == Stream(streams1[a].next, mode, file, file, streams1[a].currentOffset)
    && forall b: nat :: b in streams && b != a ==> b in streams1 && streams1[b] == streams[b].(next := streams1[b].next)
  }

  /** What a successful os_open does. */
  ghost predicate OpenedAs(img: Image, sh: Shape, img1: Image, sh1: Shape, streams: map<nat, Stream>,
                           streams1: map<nat, Stream>, a: nat, name: seq<u8>, mode: u64, file: nat) {
    && Opened(streams, streams1, a, if name == [] then MODE_LIST else mode, file) && a in streams1
    && (name == [] ==> file == At(sh1.files, 0) && img1 == img && sh1 == sh)
    && (name != [] ==>
      Ready(img, sh, img1, sh1, file, name, mode, streams1[a].currentOffset) && AllShare(streams, file, mode)
      && (mode == MODE_READ ==>
        Good(img1, sh1) && file in sh1.chains && Left(img1, sh1, streams1[a]) == FileData(img1, sh1, file)))
  }

  /** What is left to read, but through stream a, is the same. */
  ghost predicate LeftUnder(img: Image, sh: Shape, img1: Image, sh1: Shape, streams: map<nat, Stream>,
                            streams1: map<nat, Stream>, a: nat) {
    forall b: nat ::
      b in streams && b in streams1 && b != a ==> Left(img1, sh1, streams1[b]) == Left(img, sh, streams[b])
  }

  lemma SameUnder(img: Image, sh: Shape, streams: map<nat, Stream>, procs: map<nat, Process>)
    ensures forall a: nat :: LeftUnder(img, sh, img, sh, streams, streams, a)
    ensures SameButStreams(procs, procs)
  {
    hide Left;
  }

  lemma NextLeft(img: Image, sh: Shape, s: Stream, t: Stream)
    requires StreamOk(img, sh, s) && t == s.(next := t.next) && Good(img, sh)
    ensures Left(img, sh, t) == Left(img, sh, s)
  {
    hide Good, ChainLinked, Left, Rest;
    if s.mode == MODE_READ {
      var c := sh.chains[s.fileBlock];
      var i: nat :| CursorAt(img, c, i, s);
      assert CursorAt(img, c, i, t);
      LeftIs(img, sh, s, i);
      LeftIs(img, sh, t, i);
    } else {
      NoLeft(img, sh, s);
      NoLeft(img, sh, t);
    }
  }

  lemma NoLeft(img: Image, sh: Shape, s: Stream)
    requires s.mode != MODE_READ
    ensures Left(img, sh, s) == []
  {
  }

  lemma MoreUnder(img: Image, sh: Shape, streams: map<nat, Stream>, streams1: map<nat, Stream>, seen: map<nat,
                  seq<u8>>, a: nat)
    requires OneMore(streams, streams1, a) && FilesGood(img, sh, streams, seen)
    ensures LeftUnder(img, sh, img, sh, streams, streams1, a)
  {
    hide Good, Left, StreamOk, Exclusive, Listed;
    forall b: nat | b in streams && b in streams1 && b != a ensures Left(img, sh, streams1[b]) == Left(img, sh,
      streams[b]) {
      NextLeft(img, sh, streams[b], streams1[b]);
    }
  }

  lemma MoreShared(img: Image, sh: Shape, streams: map<nat, Stream>, streams1: map<nat, Stream>, a: nat,
                   name: seq<u8>, mode: u64)
    requires OneMore(streams, streams1, a) && a in streams1 && streams1[a].mode == MODE_UNUSED
      && streams1[a].fileBlock == 0
    requires Good(img, sh)
    ensures Shared(img, sh, streams1, name, mode) == Shared(img, sh, streams, name, mode)
  {
    hide Good, OneMore, AllShare, NameIn;
    MoreShare(streams, streams1, a, mode);
    forall f: nat | FileNamed(img, sh, f, name) ensures AllShare(streams1, f, mode) == AllShare(streams, f, mode) {
      NotZero(img, sh, f);
    }
  }

  lemma ReadyOk(img: Image, sh: Shape, img1: Image, sh1: Shape, f: nat, name: seq<u8>, mode: u64, t: Stream)
    requires Ready(img, sh, img1, sh1, f, name, mode, t.currentOffset) && t.mode == mode && t.fileBlock == f
      && t.currentBlock == f
    requires mode == MODE_READ || mode == MODE_WRITE
    ensures Good(img1, sh1) && f in sh1.chains && StreamOk(img1, sh1, t)
    ensures mode == MODE_READ ==> Left(img1, sh1, t) == FileData(img1, sh1, f)
  {
    hide Good, ChainLinked, Left, Rest, AllKept, NameIn, Header, End;
    StartOfFile(img1, sh1, f);
    if mode == MODE_READ {
      StartCursor(img1, sh1, f, t);
      LeftIs(img1, sh1, t, 0);
    }
  }

  lemma StartCursor(img: Image, sh: Shape, f: nat, t: Stream)
    requires f in sh.chains && f < |img| && t.currentBlock == f && t.currentOffset == 24 + NameLength(img[f])
      && Good(img, sh)
    ensures |sh.chains[f]| > 0 && CursorAt(img, sh.chains[f], 0, t) && Header(img, sh.chains[f], 0) == t.currentOffset
  {
    hide Good, ChainLinked;
    StartOfFile(img, sh, f);
  }

  lemma FirstListed(img: Image, sh: Shape)
    requires Good(img, sh)
    ensures At(sh.files, 0) == 0 || At(sh.files, 0) in sh.chains
  {
    hide Good;
    if sh.files != [] { FileSpot(img, sh, 0); }
  }

  /** The stream that was opened: s1 is before its file was found, s2 after. */
  lemma SetOpened(img: Image, sh: Shape, s1: map<nat, Stream>, s2: map<nat, Stream>, seen: map<nat, seq<u8>>, a: nat,
                  t: Stream)
    requires a in s1 && s1[a].mode == MODE_UNUSED && a in s2
      && s2 == s1[a := s1[a].(currentOffset := s2[a].currentOffset)]
    requires t == s2[a].(mode := t.mode, fileBlock := t.fileBlock, currentBlock := t.currentBlock)
    requires (t.mode == MODE_LIST && (t.fileBlock == 0 || t.fileBlock in sh.chains))
      || ((t.mode == MODE_READ || t.mode == MODE_WRITE) && AllShare(s1, t.fileBlock, t.mode) && StreamOk(img, sh, t))
    requires FilesGood(img, sh, s2, seen)
    ensures FilesGood(img, sh, s2[a := t], seen - {a}) && SameLinks(s2, s2[a := t])
  {
    hide FilesGood, Good, HasCursor, Apart, After;
    if t.mode == MODE_LIST {
      ListApart(s2, a, t);
    } else {
      ShareApart(s1, a, t);
    }
    StreamSet(img, sh, s2, seen, a, t, seen - {a});
  }

  lemma OpenedIs(img: Image, sh: Shape, img1: Image, sh1: Shape, s0: map<nat, Stream>, s1: map<nat, Stream>,
                 s3: map<nat, Stream>, a: nat, t: Stream, name: seq<u8>, mode: u64)
    requires a in s1 && s1[a].mode == MODE_UNUSED && s1[a].fileBlock == 0 && OneMore(s0, s1, a) && s3 == s1[a := t]
      && t.next == s1[a].next
    requires t.mode == (if name == [] then MODE_LIST else mode) && t.currentBlock == t.fileBlock
    requires name == [] ==> t.fileBlock == At(sh1.files, 0) && img1 == img && sh1 == sh
    requires name != [] ==>
      t.fileBlock != 0 && Ready(img, sh, img1, sh1, t.fileBlock, name, mode, t.currentOffset)
      && AllShare(s1, t.fileBlock, mode)
      && (mode == MODE_READ ==>
        Good(img1, sh1) && t.fileBlock in sh1.chains && Left(img1, sh1, t) == FileData(img1, sh1, t.fileBlock))
    requires LeftUnder(img, sh, img, sh, s0, s1, a) && SameLeft(img, sh, img1, sh1, s1)
    ensures OpenedAs(img, sh, img1, sh1, s0, s3, a, name, mode, t.fileBlock) && LeftUnder(img, sh, img1, sh1, s0, s3, a)
  {
    hide Good, Left, Ready, FileData, AllShare;
    if name != [] { MoreShare(s0, s1, a, mode); }
    assert a in s0 ==> s1.Keys == s0.Keys + {a};
    forall b: nat | b in s0 && b in s3 && b != a ensures Left(img1, sh1, s3[b]) == Left(img, sh, s0[b]) {
      assert Left(img, sh, s1[b]) == Left(img, sh, s0[b]);
    }
  }

  lemma MoreShare(streams: map<nat, Stream>, streams1: map<nat, Stream>, a: nat, mode: u64)
    requires OneMore(streams, streams1, a) && a in streams1 && streams1[a].mode == MODE_UNUSED
      && streams1[a].fileBlock == 0
    ensures forall f: nat :: f != 0 ==> AllShare(streams1, f, mode) == AllShare(streams, f, mode)
  {
    forall f: nat | f != 0 ensures AllShare(streams1, f, mode) == AllShare(streams, f, mode) {
      if AllShare(streams1, f, mode) {
        forall b: nat | b in streams ensures MayShare(streams[b], f, mode) {
          assert MayShare(streams1[b], f, mode);
        }
      }
    }
  }

  /** A stream that the calls of other processes leave as it is, but for deletions that move a list stream on. */
  predicate Steady(s: Stream, t: Stream) { if s.mode == MODE_LIST then t == s.(fileBlock := t.fileBlock) else t == s }

  /** So are the streams below an address. */
  ghost predicate LowSteady(streams: map<nat, Stream>, streams1: map<nat, Stream>, c: nat) {
    forall b: nat :: b in streams && b < c ==> b in streams1 && Steady(streams[b], streams1[b])
  }

  lemma SameSteady(streams: map<nat, Stream>, c: nat)
    ensures LowSteady(streams, streams, c)
  {
  }

  lemma SteadyTrans(s0: map<nat, Stream>, s1: map<nat, Stream>, s2: map<nat, Stream>, c: nat, d: nat)
    requires LowSteady(s0, s1, c) && LowSteady(s1, s2, d) && c <= d
    ensures LowSteady(s0, s2, c)
  {
    forall b: nat | b in s0 && b < c ensures b in s2 && Steady(s0[b], s2[b]) {
      assert Steady(s0[b], s1[b]) && Steady(s1[b], s2[b]);
    }
  }

  /** The streams of the current process come after its record. */
  lemma SlotAbove(l: Layout, base: nat, procs: map<nat, Process>, streams: map<nat, Stream>, heap: nat, low: nat,
                  current: nat, limit: nat, id: u64)
    requires SlotOf(l, id) != 0 && RecordsGood(l, base, procs, streams, heap, low, current, limit)
    ensures SlotOf(l, id) > current
  {
    hide RecordsGood, Arranged;
    RecordsParts(l, base, procs, streams, heap, low, current, limit);
  }

  lemma GrownSteady(l: Layout, base: nat, procs: map<nat, Process>, streams: map<nat, Stream>, heap: nat, low: nat,
                    current: nat, limit: nat, s: Stream)
    requires current in procs && RecordsGood(l, base, procs, streams, heap, low, current, limit)
      && |l.counts| == |l.stack| > 0
    ensures LowSteady(streams, GrownStreams(l, streams, heap, s), current)
  {
    hide RecordsGood, Arranged, Packed;
    RecordsParts(l, base, procs, streams, heap, low, current, limit);
    CurrentProcess(l, base, procs, streams, heap, low, current, limit);
  }

  lemma HighSteady(l: Layout, base: nat, procs: map<nat, Process>, s0: map<nat, Stream>, s1: map<nat, Stream>,
                   s3: map<nat, Stream>, heap: nat, low: nat, current: nat, limit: nat, id: u64, t: Stream)
    requires SlotOf(l, id) in s1 && SlotOf(l, id) != 0 && s3 == s1[SlotOf(l, id) := t] && LowSteady(s0, s1, current)
    requires RecordsGood(l, base, procs, s3, heap, low, current, limit)
    ensures LowSteady(s0, s3, current)
  {
    hide RecordsGood, SlotOf, Steady;
    SlotAbove(l, base, procs, s3, heap, low, current, limit, id);
  }

  lemma RelistedSteady(streams: map<nat, Stream>, streams1: map<nat, Stream>, f: nat, next: nat, c: nat)
    requires AllRelisted(streams, streams1, f, next)
    ensures LowSteady(streams, streams1, c)
  {
  }

  /** The system calls. */
  datatype Call =
    | CallSpawn(dst: u64, name: u64, nameLength: u64, args: u64, argsLength: u64, outputP: u64)
    | CallExit(result: u64)
    | CallSleep(millis: u64)
    | CallStat(name: u64, length: u64)
    | CallOpen(name: u64, length: u64, mode: u64)
    | CallRead(id: u64, buffer: u64, size: u64)
    | CallWrite(id: u64, buffer: u64, size: u64)
    | CallClose(id: u64)
    | CallDelete(name: u64, length: u64)
    | CallReboot

  const NUM_SYSTEM_CALLS := 10

  const SYSTEM_CALL_ARITY: seq<nat> := [6, 1, 1, 2, 3, 3, 3, 1, 2, 0]

  /** The call with a number, and its arguments, which are in memory. */
  function CallAt(m: seq<u8>, id: u64, args: nat): Call
    requires id < NUM_SYSTEM_CALLS
  {
    match id
    case 0 =>
      CallSpawn(WordAt(m, args), WordAt(m, args + 8), WordAt(m, args + 16), WordAt(m, args + 24),
        WordAt(m, args + 32), WordAt(m, args + 40))
    case 1 => CallExit(WordAt(m, args))
    case 2 => CallSleep(WordAt(m, args))
    case 3 => CallStat(WordAt(m, args), WordAt(m, args + 8))
    case 4 => CallOpen(WordAt(m, args), WordAt(m, args + 8), WordAt(m, args + 16))
    case 5 => CallRead(WordAt(m, args), WordAt(m, args + 8), WordAt(m, args + 16))
    case 6 => CallWrite(WordAt(m, args), WordAt(m, args + 8), WordAt(m, args + 16))
    case 7 => CallClose(WordAt(m, args))
    case 8 => CallDelete(WordAt(m, args), WordAt(m, args + 8))
    case _ => CallReboot
  }

  const STANDARD_OUTPUT := 1
  const SCREEN := 3

  const INTERNAL_ERROR: u64 := 6

  /** The standard input and the keyboard. */
  predicate IsKeyboard(id: u64) { id == 0 || id == 2 }

  /** A call that stays in the memory that it is given: a program is started with its output outside its own range,
      and the pointer to the end of the output in neither; and what is read from the keyboard, a whole word, fits.
      `word` is where the output starts. */
  predicate SafeCall(p: Process, call: Call, word: u64) {
    match call
    case CallSpawn(dst, _, _, _, _, outputP) =>
      Clear(outputP, 8, PageUp(dst), PageDown(p.savedStackPointer)) && (word == dst || Clear(outputP, 8, word, dst))
    case CallRead(id, buffer, _) => IsKeyboard(id) ==> buffer + 8 <= p.end
    case _ => true
  }

  /** The checks of os_spawn let requests through that are not safe, such as this one. */
  lemma UnsafeRequest(p: Process, call: Call, word: u64)
    requires p.begin == 0x10_0000 && p.end == p.savedStackPointer == 0x20_0000
    requires call == CallSpawn(0x11_0000, 0x10_0100, 4, 0x10_0200, 0, 0x12_0000) && word == 0x10_8000
    ensures p.begin <= PageUp(call.dst) <= PageDown(p.savedStackPointer)
      && ContainsBuffer(p, call.name, call.nameLength)
    ensures ContainsBuffer(p, call.args, call.argsLength) && call.args + call.argsLength <= PageUp(call.dst)
    ensures ContainsBuffer(p, call.outputP, 8) && p.begin <= word <= call.dst && !SafeCall(p, call, word)
  {
    assert PageUp(call.dst) == 0x11_0000 && PageDown(p.savedStackPointer) == 0x20_0000;
  }

  /** What a call does to memory: a write to the standard output changes it as Printed says, a key goes to its buffer,
      and any other call changes it only in the range of the process. */
  ghost predicate Effect(m: seq<u8>, m1: seq<u8>, p: Process, call: Call, key: u64, low: nat, ok: bool) {
    if call.CallWrite? && call.id == STANDARD_OUTPUT && ContainsBuffer(p, call.buffer, call.size) then
      && p.outputP + 8 <= |m| && call.buffer + call.size <= |m| && (ok <==> OutputInside(m, p, call.size, low))
      && m1 == if OutputInside(m, p, call.size, low) then Printed(m, p, call.buffer, call.size, low) else m
    else if call.CallRead? && IsKeyboard(call.id) && call.size > 0 && ContainsBuffer(p, call.buffer, call.size) then
      (ok <==> call.buffer + 8 <= |m|) && m1 == if call.buffer + 8 <= |m| then Patched(m, call.buffer, LE64(key)) else m
    else ok && OutsideSame(m, m1, p.begin, p.end)
  }

  /** A safe call changes only what the process may change. */
  lemma SafeEffect(m: seq<u8>, m1: seq<u8>, p: Process, call: Call, key: u64, low: nat, ok: bool, word: u64)
    requires Effect(m, m1, p, call, key, low, ok) && SafeCall(p, call, word) && OutputOk(m, p, low)
      && p.end <= |m| < TWO64
    ensures ok && OwnChange(m, m1, p)
  {
    hide Printed, OutputInside, OutputSize, OutputOk, WordAt, LE64, Patched, OwnChange, OutsideSame, PageUp, PageDown;
    if call.CallWrite? && call.id == STANDARD_OUTPUT && ContainsBuffer(p, call.buffer, call.size) {
      BufferIn(p, call.buffer, call.size);
      PrintedChange(m, p, call.buffer, call.size, low);
    } else {
      if call.CallRead? && IsKeyboard(call.id) && call.size > 0 && ContainsBuffer(p, call.buffer, call.size) {
        PatchedSame(m, call.buffer, LE64(key), p.begin, p.end);
      }
      RangeChange(m, m1, p, low);
    }
  }

  /** A program that a safe request starts has its output in order. */
  lemma StartedOutput(m: seq<u8>, m1: seq<u8>, procs: map<nat, Process>, procs1: map<nat, Process>, parent: nat,
                      process: nat, call: Call, end: nat, code: seq<u8>, args: seq<u8>, low: nat)
    requires call.CallSpawn? && Started(m, m1, procs, procs1, parent, process, call.dst, end, call.outputP, code, args)
    requires parent in procs && low <= procs[parent].begin <= PageUp(call.dst)
      && PageDown(procs[parent].savedStackPointer) == end
    requires procs[parent].begin <= call.outputP && call.outputP + 8 <= procs[parent].end <= |m| && low > 0
    requires procs[parent].begin <= WordAt(m, call.outputP) <= call.dst
    ensures process in procs1
    ensures SafeCall(procs[parent], call, WordAt(m, call.outputP)) ==>
      OutputOk(m1, procs1[process], low) && OutputIn(m1, procs1[process], procs[parent])
  {
    hide WordAt, Patched, ProgramImage, OutsideSame, PageDown;
    PatchedSame(m, PageUp(call.dst), ProgramImage(code, args), PageUp(call.dst), end);
    if SafeCall(procs[parent], call, WordAt(m, call.outputP)) { WordKept(m, m1, call.outputP, PageUp(call.dst), end); }
  }

  lemma WordKept(m: seq<u8>, m1: seq<u8>, a: nat, begin: nat, end: nat)
    requires OutsideSame(m, m1, begin, end) && Clear(a, 8, begin, end)
    ensures WordAt(m1, a) == WordAt(m, a)
  {
    WordSame(m, m1, a);
  }

  /** A call that was made: the record of the process at that moment, and the word that SafeCall needs. */
  datatype Made = Made(process: Process, call: Call, word: u64)

  /** Calls that were all safe. */
  ghost predicate AllSafe(made: seq<Made>) { forall i ::
                          0 <= i < |made| ==> SafeCall(made[i].process, made[i].call, made[i].word) }

  function SpawnWord(m: seq<u8>, call: Call): u64 { if call.CallSpawn? then WordAt(m, call.outputP) else 0 }

  /** How a call with result r changes the records: by a process more, a process less, or perhaps a stream more. */
  ghost predicate Step(l: Layout, l1: Layout, heap: nat, call: Call, r: nat) {
    match call
    case CallSpawn(_, _, _, _, _, _) => l1 == if r == 0 then Pushed(l, heap) else l
    case CallExit(_) => |l.counts| == |l.stack| > 0 && if r == 0 then |l.stack| > 1 && l1 == Popped(l) else l1 == l
    case CallOpen(_, _, _) => l1 == l || (|l.counts| == |l.stack| > 0 && l1 == Grown(l))
    case _ => l1 == l
  }

  /** The results of spawn and exit are small. */
  lemma SmallResult(l: Layout, l1: Layout, heap: nat, call: Call, r: nat)
    requires Step(l, l1, heap, call, r) && (call.CallSpawn? || call.CallExit? ==> r < TWO64)
    ensures Step(l, l1, heap, call, Wrap(r)) && (call.CallSpawn? ==> Wrap(r) == r)
  {
  }

  /** The ranges of the processes that stay. */
  ghost predicate RangesKept(procs: map<nat, Process>, procs1: map<nat, Process>) {
    forall a: nat :: a in procs && a in procs1 ==> SameBounds(procs[a], procs1[a])
  }

  predicate SameBounds(p: Process, q: Process) {
    q.begin == p.begin && q.end == p.end && q.outputP == p.outputP && q.outputLimit == p.outputLimit
  }

  /** So are they when registers are saved before and after. */
  lemma ResultRanges(p0: map<nat, Process>, p1: map<nat, Process>, p2: map<nat, Process>, p3: map<nat, Process>, a: nat)
    requires a in p0 && a in p1 && SameBounds(p0[a], p1[a]) && p1 == p0[a := p1[a]]
    requires RangesKept(p1, p2) && (if a in p2 then a in p3 && p3 == p2[a := p3[a]] && SameBounds(p2[a], p3[a])
      else p3 == p2)
    ensures RangesKept(p0, p3)
  {
  }

  lemma SameOutput(m: seq<u8>, p: Process, q: Process, low: nat, parent: Process)
    requires SameBounds(p, q)
    ensures OutputOk(m, q, low) == OutputOk(m, p, low) && OutputIn(m, q, parent) == OutputIn(m, p, parent)
  {
  }

  lemma SameRanges(procs: map<nat, Process>)
    ensures RangesKept(procs, procs)
  {
  }

  lemma ExitRanges(procs: map<nat, Process>, procs1: map<nat, Process>, child: nat, a: nat, result: u64)
    requires a in procs && procs1 == (procs - {child})[a := procs[a].(savedR8 := result)]
    ensures RangesKept(procs, procs1)
  {
  }

  lemma OpenRanges(procs: map<nat, Process>, procs1: map<nat, Process>)
    requires SameButStreams(procs, procs1)
    ensures RangesKept(procs, procs1)
  {
  }

  lemma StartedEffects(m: seq<u8>, m1: seq<u8>, procs: map<nat, Process>, procs1: map<nat, Process>, parent: nat,
                       process: nat, dst: u64, end: nat, outputP: u64, code: seq<u8>, args: seq<u8>)
    requires Started(m, m1, procs, procs1, parent, process, dst, end, outputP, code, args)
    requires parent in procs && procs[parent].begin <= PageUp(dst) && end <= procs[parent].end
    ensures RangesKept(procs, procs1) && OutsideSame(m, m1, procs[parent].begin, procs[parent].end)
  {
    hide PageUp, Patched, OutsideSame, ProgramImage;
    PatchedSame(m, PageUp(dst), ProgramImage(code, args), procs[parent].begin, procs[parent].end);
  }

  lemma BelowSteady(streams: map<nat, Stream>, c: nat)
    ensures LowSteady(streams, Below(streams, c), c)
  {
  }

  lemma HighStream(l: Layout, base: nat, procs: map<nat, Process>, streams: map<nat, Stream>, heap: nat, low: nat,
                   current: nat, limit: nat, id: u64)
    requires RecordsGood(l, base, procs, streams, heap, low, current, limit)
    ensures SlotOf(l, id) != 0 ==> SlotOf(l, id) > current
  {
    hide RecordsGood, SlotOf;
    if SlotOf(l, id) != 0 { SlotAbove(l, base, procs, streams, heap, low, current, limit, id); }
  }

  lemma HighChange(streams: map<nat, Stream>, streams1: map<nat, Stream>, a: nat, c: nat)
    requires a in streams1 && streams1 == streams[a := streams1[a]] && a > c
    ensures LowSteady(streams, streams1, c)
  {
  }

  lemma ClosedSteady(streams: map<nat, Stream>, a: nat, c: nat)
    requires a != 0 ==> a > c
    ensures a != 0 ==> LowSteady(streams, Closed(streams, a), c)
  {
  }

  lemma RemovedSteady(img: Image, sh: Shape, img1: Image, sh1: Shape, streams: map<nat, Stream>, streams1: map<nat,
                      Stream>, f: nat, p: nat, c: nat)
    requires Removed(img, sh, img1, sh1, streams, streams1, f, p)
    ensures LowSteady(streams, streams1, c)
  {
    hide AllRelisted, AllKept;
    RelistedSteady(streams, streams1, f, At(sh.files, p + 1), c);
  }

  lemma ReadOutside(img: Image, sh: Shape, img1: Image, sh1: Shape, s: Stream, t: Stream, m: seq<u8>, m1: seq<u8>,
                    buffer: nat, size: nat, r: nat, begin: nat, end: nat)
    requires begin <= buffer && buffer + size <= end && buffer + size <= |m|
    requires m1 == m || NameRead(img, sh, s, size, r, m, m1, buffer)
      || DataRead(Left(img, sh, s), Left(img1, sh1, t), sh1, s, t, m, m1, buffer, size, r)
    ensures OutsideSame(m, m1, begin, end)
  {
    hide Left, NameIn, OutsideSame, Patched, AtEnd;
    SameOutside(m, begin, end);
    if NameRead(img, sh, s, size, r, m, m1, buffer) {
      PatchedSame(m, buffer, NameIn(img, s.fileBlock)[..r], begin, end);
    } else if DataRead(Left(img, sh, s), Left(img1, sh1, t), sh1, s, t, m, m1, buffer, size, r) {
      PatchedSame(m, buffer, Left(img, sh, s)[..r], begin, end);
    }
  }

  /** What deleting a file does: it is out of the list, the streams that would have listed it list the next one, and
      the other files are what they were. */
  ghost predicate Removed(img: Image, sh: Shape, img1: Image, sh1: Shape, streams: map<nat, Stream>,
                          streams1: map<nat, Stream>, f: nat, p: nat) {
    && p < |sh.files| && sh.files[p] == f && sh1.files == Without(sh.files, p) && f in sh.chains
    && sh1.chains == sh.chains - {f}
    && AllRelisted(streams, streams1, f, At(sh.files, p + 1)) && AllKept(img, sh, img1, sh1, f)
  }

  lemma RemovedIs(img: Image, sh: Shape, img1: Image, sh1: Shape, streams: map<nat, Stream>, streams1: map<nat,
                  Stream>, f: nat, p: nat)
    requires p < |sh.files| && sh.files[p] == f && f in sh.chains && |sh.chains[f]| > 0 && sh1 == Deleted(sh, p)
    requires AllRelisted(streams, streams1, f, At(sh.files, p + 1)) && AllKept(img, sh, img1, sh1, f)
    ensures Removed(img, sh, img1, sh1, streams, streams1, f, p)
  {
    hide AllRelisted, AllKept;
  }

  /** What is left to read is the same. */
  ghost predicate LeftKept(img: Image, sh: Shape, img1: Image, sh1: Shape, streams: map<nat, Stream>,
                           streams1: map<nat, Stream>) {
    forall a: nat :: a in streams && a in streams1 ==> Left(img1, sh1, streams1[a]) == Left(img, sh, streams[a])
  }

  lemma LeftSame(img: Image, sh: Shape, streams: map<nat, Stream>)
    ensures LeftKept(img, sh, img, sh, streams, streams)
  {
    hide Left;
  }

  lemma RelistedLeft(img: Image, sh: Shape, img1: Image, sh1: Shape, streams: map<nat, Stream>, streams1: map<nat,
                     Stream>, f: nat, next: nat)
    requires AllRelisted(streams, streams1, f, next) && SameLeft(img, sh, img1, sh1, streams1)
    ensures LeftKept(img, sh, img1, sh1, streams, streams1)
  {
    forall a: nat | a in streams && a in streams1 ensures Left(img1, sh1, streams1[a]) == Left(img, sh, streams[a]) {
      assert Left(img1, sh1, streams1[a]) == Left(img, sh, streams1[a]);
    }
  }

  lemma RelistedLinks(streams: map<nat, Stream>, streams1: map<nat, Stream>, f: nat, next: nat)
    requires AllRelisted(streams, streams1, f, next)
    ensures SameLinks(streams, streams1)
  {
  }

  lemma DeletedOnly(streams: map<nat, Stream>, f: nat)
    requires forall a: nat :: a in streams ==> streams[a].fileBlock != f
    ensures OnlyLists(streams, f)
  {
  }

  ghost predicate RelistedIn(s0: map<nat, Stream>, s: map<nat, Stream>, done: set<nat>, f: nat, next: nat) {
    s.Keys == s0.Keys && forall a: nat :: a in s0 ==>
      a in s && s[a] == if a in done then Relisted(s0[a], f, next) else s0[a]
  }

  lemma RelistStep(s0: map<nat, Stream>, s: map<nat, Stream>, done: set<nat>, a: nat, f: nat, next: nat)
    requires a in s0 && next != f && RelistedIn(s0, s, done, f, next)
    ensures a in s && s[a].next == s0[a].next
    ensures RelistedIn(s0, if s[a].mode == MODE_LIST && s[a].fileBlock == f then s[a := s[a].(fileBlock := next)]
      else s, done + {a}, f, next)
  {
  }

  lemma NextFileOf(img: Image, sh: Shape, streams: map<nat, Stream>, seen: map<nat, seq<u8>>, p: nat)
    requires p < |sh.files| && FilesGood(img, sh, streams, seen)
    ensures sh.files[p] < |img| && NextFile(img[sh.files[p]]) == At(sh.files, p + 1) != sh.files[p]
  {
    hide Good;
    FileSpot(img, sh, p);
    if p + 1 < |sh.files| { NextOther(img, sh, p); }
  }

  /** What starting a program does: its memory holds the code, the size of the arguments and the arguments, all other
      memory is as it was, and there is a record for the process. */
  ghost predicate Started(m: seq<u8>, m1: seq<u8>, procs: map<nat, Process>, procs1: map<nat, Process>, parent: nat,
                          process: nat, dst: u64, end: nat, outputP: u64, code: seq<u8>, args: seq<u8>) {
    var begin := PageUp(dst);
    && |m1| == |m| < TWO64 && |args| < TWO64 && end <= |m| && begin + |code| + 8 + |args| + STACK_RESERVE <= end
    && m1 == Patched(m, begin, ProgramImage(code, args))
    && process !in procs
    && procs1 == procs[process := Process(parent, begin, end, begin + |code|, end - STACK_RESERVE, end, begin, 0,
      outputP, dst)]
  }

  lemma StartedIs(m: seq<u8>, m1: seq<u8>, procs: map<nat, Process>, parent: nat, process: nat, dst: u64, end: u64,
                  outputP: u64, code: seq<u8>, args: seq<u8>)
    requires |m1| == |m| < TWO64 && |args| < TWO64 && end <= |m| && PageUp(dst) + |code| + 8 + |args|
      + STACK_RESERVE <= end
    requires m1 == Patched(m, PageUp(dst), ProgramImage(code, args)) && process !in procs
    ensures var begin := PageUp(dst);
      Started(m, m1, procs, procs[process := Process(parent, begin, end, begin + |code|, end - STACK_RESERVE, end,
              begin, 0, outputP, dst)], parent, process, dst, end, outputP, code, args)
  {
  }

  lemma RangeFacts(p: Process, low: nat, limit: nat)
    requires OwnRange(p, low, limit)
    ensures p.begin % 4096 == 0 && p.end % 4096 == 0 && low <= p.begin <= p.end <= limit
      && p.savedStackPointer < p.end + 4096
    ensures p.outputP + 8 <= limit
  {
  }

  /** The range of a new process: after the kernel's heap, and in that of its parent. */
  lemma NewRange(procs: map<nat, Process>, parent: nat, p: Process, low: nat, limit: nat, b: nat, e: nat)
    requires p.begin % 4096 == 0 && p.end % 4096 == 0 && p.begin <= p.end && p.savedStackPointer == p.end
      && p.outputP + 8 <= limit
    requires b == BeginOf(procs, parent) && e == EndOf(procs, parent)
    requires if parent == 0 then 0 !in procs && low <= p.begin && p.end == limit
             else parent in procs && OwnRange(procs[parent], low, limit) && procs[parent].begin <= p.begin
                  && p.end <= procs[parent].end
    ensures OwnRange(p, low, limit) && (parent != 0 ==>
      InParent(p, procs[parent]) && procs[parent].begin <= b && e <= procs[parent].end)
    ensures parent == 0 ==> e <= b
  {
  }

  lemma FilesParts(img: Image, sh: Shape, streams: map<nat, Stream>, seen: map<nat, seq<u8>>)
    requires FilesGood(img, sh, streams, seen)
    ensures Good(img, sh) && StreamsOk(img, sh, streams) && Exclusive(streams) && Listed(img, streams, seen)
  {
  }

  lemma OneName(img: Image, sh: Shape, f: nat, g: nat)
    requires f in sh.chains && g in sh.chains && NameIn(img, f) == NameIn(img, g) && Good(img, sh)
    ensures f == g
  {
    hide Good, NameIn, Less;
    GoodFile(img, sh, f);
    GoodFile(img, sh, g);
    var i := Index(sh.files, f);
    var j := Index(sh.files, g);
    LessIrreflexive(NameIn(img, f));
    if i < j { SortedNames(img, sh, i, j); }
    if j < i { SortedNames(img, sh, j, i); }
  }

  lemma HeaderSize(img: Image, sh: Shape, f: nat)
    requires f in sh.chains && Good(img, sh)
    ensures f < |img| && |NameIn(img, f)| == NameLength(img[f])
  {
    GoodFile(img, sh, f);
  }

  lemma WholeRest(data: seq<u8>, size: nat)
    requires size == |data|
    ensures data[..size] == data
  {
  }

  /** Dropping streams. */
  lemma BelowFiles(img: Image, sh: Shape, streams: map<nat, Stream>, seen: map<nat, seq<u8>>, a: nat)
    requires FilesGood(img, sh, streams, seen)
    ensures FilesGood(img, sh, Below(streams, a), seen)
  {
    hide Good, StreamOk, Apart, After;
  }

  lemma Ranges(procs: map<nat, Process>, procs1: map<nat, Process>, child: nat, a: nat, result: u64, low: nat,
               limit: nat)
    requires child in procs && a in procs && a != child
      && procs1 == (procs - {child})[a := procs[a].(savedR8 := result)]
    requires OwnRange(procs[a], low, limit) && InParent(procs[child], procs[a])
    requires procs[a].parent != 0 ==>
      procs[a].parent in procs && procs[a].parent != child && OwnRange(procs[procs[a].parent], low, limit)
      && InParent(procs[a], procs[procs[a].parent])
    ensures OwnRange(procs1[a], low, limit) && procs1[a].begin <= procs[child].begin
      && procs[child].end <= procs1[a].end
    ensures procs1[a].parent == procs[a].parent
    ensures procs[a].parent != 0 ==>
      procs[a].parent in procs1 && OwnRange(procs1[procs[a].parent], low, limit)
      && procs1[procs[a].parent].begin <= procs[child].begin && procs[child].end <= procs1[procs[a].parent].end
  {
  }
}
