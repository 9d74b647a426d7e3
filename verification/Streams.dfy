/** File streams against the files: what an open stream points to, who may open a file, and what the operations of the
    file system leave as it was for the streams. */
module Streams {
  import opened Words
  import opened Blocks
  import opened Volumes
  import opened Reshaping
  import opened Appending
  import opened FileSystem
  import opened Records

  /** The cursor of a stream is in block i of a chain, between the start and the end of its data. */
  predicate CursorAt(img: Image, c: seq<nat>, i: nat, s: Stream) {
    i < |c| && c[i] == s.currentBlock && c[0] < |img| && c[i] < |img|
    && Header(img, c, i) <= s.currentOffset <= End(img, c, i)
  }

  ghost predicate HasCursor(img: Image, c: seq<nat>, s: Stream) { exists i: nat :: CursorAt(img, c, i, s) }

  predicate AtLast(c: seq<nat>, s: Stream) { |c| > 0 && s.currentBlock == c[|c| - 1] }

  /** What the fields of a stream mean: an unused stream has no file; a list stream is at a file, or past the last
      one; the cursor of a read stream is in its file; the block of a write stream is the last one of its file. */
  ghost predicate StreamOk(img: Image, sh: Shape, s: Stream) {
    if s.mode == MODE_UNUSED then s.fileBlock == 0
    else if s.mode == MODE_LIST then s.fileBlock == 0 || s.fileBlock in sh.chains
    else
      && s.fileBlock in sh.chains
      && ((s.mode == MODE_READ && HasCursor(img, sh.chains[s.fileBlock], s))
      || (s.mode == MODE_WRITE && AtLast(sh.chains[s.fileBlock], s)))
  }

  ghost predicate StreamsOk(img: Image, sh: Shape, streams: map<nat, Stream>) {
    forall a: nat :: a in streams ==> StreamOk(img, sh, streams[a])
  }

  /** Another stream on the file of a write stream only lists. */
  predicate Apart(s: Stream, t: Stream) { s.mode == MODE_WRITE && t.fileBlock == s.fileBlock ==> t.mode == MODE_LIST }

  /** For each file there is no write stream, or there is one and no read stream. */
  ghost predicate Exclusive(streams: map<nat, Stream>) {
    forall a: nat, b: nat :: a in streams && b in streams && a != b ==> Apart(streams[a], streams[b])
  }

  /** The names that a list stream still has to list come after the last one that it listed. */
  ghost predicate Listed(img: Image, streams: map<nat, Stream>, seen: map<nat, seq<u8>>) {
    forall a: nat ::
      a in seen && a in streams && streams[a].mode == MODE_LIST ==> After(img, streams[a].fileBlock, seen[a])
  }

  predicate After(img: Image, f: nat, name: seq<u8>) { f != 0 ==> Less(name, NameIn(img, f)) }

  /** What a read stream has still to read. */
  ghost function Left(img: Image, sh: Shape, s: Stream): seq<u8> {
    if s.mode == MODE_READ && StreamOk(img, sh, s) && ChainLinked(img, sh.chains[s.fileBlock]) then
      var i: nat :| CursorAt(img, sh.chains[s.fileBlock], i, s);
      Rest(img, sh.chains[s.fileBlock], i, s.currentOffset)
    else []
  }

  /** Blocks come once in a chain. */
  lemma SamePlace(img: Image, sh: Shape, f: nat, i: nat, j: nat)
    requires f in sh.chains && i < |sh.chains[f]| && j < |sh.chains[f]| && sh.chains[f][i] == sh.chains[f][j]
      && Good(img, sh)
    ensures i == j
  {
    hide Good;
    ChainSpot(img, sh, f, i);
    ChainSpot(img, sh, f, j);
  }

  lemma LeftIs(img: Image, sh: Shape, s: Stream, i: nat)
    requires s.mode == MODE_READ && s.fileBlock in sh.chains && CursorAt(img, sh.chains[s.fileBlock], i, s)
      && Good(img, sh)
    ensures ChainLinked(img, sh.chains[s.fileBlock]) && Left(img, sh, s) == Rest(img, sh.chains[s.fileBlock], i,
      s.currentOffset)
    ensures StreamOk(img, sh, s)
  {
    hide Good, ChainLinked, Rest;
    var c := sh.chains[s.fileBlock];
    GoodChain(img, sh, s.fileBlock);
    assert HasCursor(img, c, s);
    var j: nat :| CursorAt(img, c, j, s) && Left(img, sh, s) == Rest(img, c, j, s.currentOffset);
    SamePlace(img, sh, s.fileBlock, i, j);
  }

  // ----- a file that an operation leaves as it was -----

  lemma {:induction false} FullLength(img: Image, c: seq<nat>, i: nat, j: nat, offset: nat)
    requires (forall k :: 0 <= k < |c| ==> c[k] < |img|) && i <= j <= |c| && offset <= 512
    ensures |Full(img, c, i, j, offset)| == if i == j then 0 else 512 - offset + 504 * (j - i - 1)
    decreases j - i
  {
    if i < j { FullLength(img, c, i + 1, j, 8); }
  }

  /** The content is what is before the cursor and what is after it. */
  lemma {:induction false} RestSplit(img: Image, c: seq<nat>, i: nat, h: nat, offset: nat)
    requires i < |c| && ChainLinked(img, c) && h == Header(img, c, 0) <= 512
      && Header(img, c, i) <= offset <= End(img, c, i)
    ensures h <= End(img, c, 0) && Header(img, c, i) <= 512 && offset <= 512
    ensures Rest(img, c, 0, h) == Full(img, c, 0, i, h) + img[c[i]][Header(img, c, i)..offset] + Rest(img, c, i, offset)
    decreases i
  {
    hide ChainLinked, NameLength, Link, Header, Rest, Full;
    ChainBounds(img, c, i);
    ChainBounds(img, c, 0);
    if i == 0 {
      NoFull(img, c, h);
      RestFrom(img, c, 0, h, offset);
    } else {
      ChainBounds(img, c, i - 1);
      var o := Header(img, c, i - 1);
      RestSplit(img, c, i - 1, h, o);
      FullSnoc(img, c, 0, i - 1, h);
      RestUnfold(img, c, i - 1, o);
      RestFrom(img, c, i, 8, offset);
      Joined(Full(img, c, 0, i - 1, h), img[c[i - 1]][o..], img[c[i]][8..offset], Rest(img, c, i, offset),
        Rest(img, c, i, 8));
    }
  }

  lemma ChainBounds(img: Image, c: seq<nat>, i: nat)
    requires i < |c| && ChainLinked(img, c)
    ensures (forall k :: 0 <= k < |c| ==> c[k] < |img|) && End(img, c, i) <= 512
    ensures Header(img, c, i) == if i == 0 then 24 + NameLength(img[c[0]]) else 8
    ensures (i > 0 || Header(img, c, 0) <= 512) ==> Header(img, c, i) <= End(img, c, i)
  {
  }

  lemma NoFull(img: Image, c: seq<nat>, h: nat)
    requires (forall k :: 0 <= k < |c| ==> c[k] < |img|) && h <= 512
    ensures Full(img, c, 0, 0, h) == []
  {
  }

  lemma RestFrom(img: Image, c: seq<nat>, i: nat, h: nat, offset: nat)
    requires i < |c| && ChainLinked(img, c) && h <= offset <= End(img, c, i)
    ensures offset <= 512 && c[i] < |img| && Rest(img, c, i, h) == img[c[i]][h..offset] + Rest(img, c, i, offset)
  {
    hide ChainLinked, Link, NameLength, Rest;
    LastFits(img, c);
    RestUnfold(img, c, i, h);
    RestUnfold(img, c, i, offset);
    var b := img[c[i]];
    if i + 1 < |c| {
      assert b[h..] == b[h..offset] + b[offset..];
    } else {
      assert b[h..End(img, c, i)] == b[h..offset] + b[offset..End(img, c, i)];
    }
  }

  lemma Joined(full: seq<u8>, block: seq<u8>, part: seq<u8>, rest: seq<u8>, all: seq<u8>)
    requires all == part + rest
    ensures full + [] + (block + all) == full + block + part + rest
  {
  }

  /** A cursor in a file that an operation leaves as it was has the same to read. */
  lemma SameCursor(img: Image, img1: Image, c: seq<nat>, i: nat, offset: nat)
    requires i < |c| && |img1| == |img| && SameFile(img, img1, c) && Header(img, c, i) <= offset <= End(img, c, i)
    ensures ChainLinked(img, c) && ChainLinked(img1, c) && Header(img1, c, i) == Header(img, c, i)
      && End(img1, c, i) == End(img, c, i)
    ensures Rest(img1, c, i, offset) == Rest(img, c, i, offset)
  {
    hide ChainLinked, NameLength, Link, Rest, Full, SameFile, End;
    SameFileParts(img, img1, c);
    SameEnd(img, img1, c);
    var h, l := Header(img, c, 0), |c| - 1;
    ChainBounds(img, c, i);
    ChainBounds(img1, c, i);
    SameEnds(img, img1, c, i);
    RestSplit(img, c, i, h, offset);
    RestSplit(img1, c, i, h, offset);
    FullLength(img, c, 0, i, h);
    FullLength(img1, c, 0, i, h);
    SameSuffix(Full(img, c, 0, i, h) + img[c[i]][Header(img, c, i)..offset], Rest(img, c, i, offset),
      Full(img1, c, 0, i, h) + img1[c[i]][Header(img, c, i)..offset], Rest(img1, c, i, offset));
  }

  lemma SameSuffix(x: seq<u8>, y: seq<u8>, x1: seq<u8>, y1: seq<u8>)
    requires x + y == x1 + y1 && |x| == |x1|
    ensures y == y1
  {
    assert y == (x + y)[|x|..] && y1 == (x1 + y1)[|x1|..];
  }

  lemma SameFileParts(img: Image, img1: Image, c: seq<nat>)
    requires SameFile(img, img1, c)
    ensures |c| > 0 && c[0] < |img| && c[0] < |img1| && ChainLinked(img, c) && ChainLinked(img1, c)
    ensures NameLength(img[c[0]]) == NameLength(img1[c[0]]) <= 488
    ensures Rest(img1, c, 0, Header(img1, c, 0)) == Rest(img, c, 0, Header(img, c, 0))
    ensures NameIn(img1, c[0]) == NameIn(img, c[0])
  {
    hide NameLength, Rest;
    assert |Name(img1[c[0]])| == |Name(img[c[0]])|;
  }

  /** The last block is used as far. */
  lemma SameEnd(img: Image, img1: Image, c: seq<nat>)
    requires |img1| == |img| && SameFile(img, img1, c)
    ensures |c| > 0 && c[|c| - 1] < |img| && Link(img1[c[|c| - 1]]) == Link(img[c[|c| - 1]])
  {
    hide ChainLinked, NameLength, Link, Rest, Full, SameFile;
    SameFileParts(img, img1, c);
    var h, l := Header(img, c, 0), |c| - 1;
    ChainBounds(img, c, l);
    ChainBounds(img1, c, l);
    ChainBounds(img, c, 0);
    ChainBounds(img1, c, 0);
    RestIsFull(img, c, 0, h);
    RestIsFull(img1, c, 0, h);
    FullLength(img, c, 0, l, h);
    FullLength(img1, c, 0, l, h);
  }

  lemma SameEnds(img: Image, img1: Image, c: seq<nat>, i: nat)
    requires i < |c| && |img1| == |img| && c[i] < |img| && c[|c| - 1] < |img|
      && Link(img1[c[|c| - 1]]) == Link(img[c[|c| - 1]])
    ensures End(img1, c, i) == End(img, c, i)
  {
  }

  /** The file is in both shapes, with the same blocks, name and content. */
  ghost predicate Kept(img: Image, sh: Shape, img1: Image, sh1: Shape, f: nat) {
    f in sh.chains && f in sh1.chains && sh1.chains[f] == sh.chains[f] && SameFile(img, img1, sh.chains[f])
  }

  /** A stream whose file an operation leaves as it was. */
  lemma StreamKept(img: Image, sh: Shape, img1: Image, sh1: Shape, s: Stream)
    requires |img1| == |img| && StreamOk(img, sh, s) && (s.fileBlock != 0 ==> Kept(img, sh, img1, sh1, s.fileBlock))
    requires Good(img, sh) && Good(img1, sh1)
    ensures StreamOk(img1, sh1, s) && Left(img1, sh1, s) == Left(img, sh, s)
  {
    hide Good, SameFile, NameLength, ChainLinked, Rest;
    if s.mode == MODE_READ {
      NotZero(img, sh, s.fileBlock);
      var c := sh.chains[s.fileBlock];
      var i: nat :| CursorAt(img, c, i, s);
      SameCursor(img, img1, c, i, s.currentOffset);
      assert CursorAt(img1, c, i, s);
      LeftIs(img, sh, s, i);
      LeftIs(img1, sh1, s, i);
    } else if s.mode == MODE_WRITE {
      NotZero(img, sh, s.fileBlock);
    }
  }

  lemma NotZero(img: Image, sh: Shape, f: nat)
    requires f in sh.chains && Good(img, sh)
    ensures f != 0
  {
    GoodFile(img, sh, f);
  }

  /** What the kernel keeps about files and streams. */
  ghost predicate FilesGood(img: Image, sh: Shape, streams: map<nat, Stream>, seen: map<nat, seq<u8>>) {
    Good(img, sh) && StreamsOk(img, sh, streams) && Exclusive(streams) && Listed(img, streams, seen)
  }

  ghost predicate AllKept(img: Image, sh: Shape, img1: Image, sh1: Shape, f: nat) {
    forall g: nat :: g in sh.chains && g != f ==> Kept(img, sh, img1, sh1, g)
  }

  /** No stream reads or writes the file. */
  ghost predicate OnlyLists(streams: map<nat, Stream>, f: nat) {
    forall a: nat :: a in streams && streams[a].fileBlock == f && f != 0 ==> streams[a].mode == MODE_LIST
  }

  ghost predicate SameLeft(img: Image, sh: Shape, img1: Image, sh1: Shape, streams: map<nat, Stream>) {
    forall a: nat :: a in streams ==> Left(img1, sh1, streams[a]) == Left(img, sh, streams[a])
  }

  /** An operation on a file that no stream reads or writes, and that keeps its name, or that no stream is at. */
  lemma FilesMoved(img: Image, sh: Shape, img1: Image, sh1: Shape, f: nat, streams: map<nat, Stream>, seen: map<nat,
                   seq<u8>>)
    requires |img1| == |img| && AllKept(img, sh, img1, sh1, f) && OnlyLists(streams, f)
    requires (forall a: nat :: a in streams ==> streams[a].fileBlock != f || f == 0)
      || (f in sh1.chains && NameIn(img1, f) == NameIn(img, f))
    requires FilesGood(img, sh, streams, seen) && Good(img1, sh1)
    ensures FilesGood(img1, sh1, streams, seen) && SameLeft(img, sh, img1, sh1, streams)
  {
    hide Good, Kept, NameIn, Less, CursorAt;
    forall a: nat | a in streams
      ensures StreamOk(img1, sh1, streams[a]) && Left(img1, sh1, streams[a]) == Left(img, sh, streams[a])
      ensures a in seen && streams[a].mode == MODE_LIST ==> After(img1, streams[a].fileBlock, seen[a])
    {
      var s := streams[a];
      if s.fileBlock != f || f == 0 {
        StreamHome(img, sh, s);
        StreamKept(img, sh, img1, sh1, s);
        if s.fileBlock != 0 { KeptName(img, sh, img1, sh1, s.fileBlock); }
      }
    }
  }

  lemma StreamHome(img: Image, sh: Shape, s: Stream)
    requires StreamOk(img, sh, s)
    ensures s.fileBlock == 0 || s.fileBlock in sh.chains
    ensures s.mode == MODE_UNUSED || s.mode == MODE_LIST || s.mode == MODE_READ || s.mode == MODE_WRITE
    ensures s.mode == MODE_UNUSED ==> s.fileBlock == 0
    ensures s.mode == MODE_READ || s.mode == MODE_WRITE ==> s.fileBlock in sh.chains
    ensures s.mode == MODE_WRITE ==> AtLast(sh.chains[s.fileBlock], s)
    ensures s.mode == MODE_READ ==> HasCursor(img, sh.chains[s.fileBlock], s)
  {
  }

  lemma KeptName(img: Image, sh: Shape, img1: Image, sh1: Shape, f: nat)
    requires Kept(img, sh, img1, sh1, f) && Good(img, sh)
    ensures NameIn(img1, f) == NameIn(img, f)
  {
    hide Good, ChainLinked, NameLength, SameFile;
    SameFileParts(img, img1, sh.chains[f]);
    GoodFile(img, sh, f);
  }

  // ----- what the operations keep -----

  lemma CreatedKept(img: Image, img1: Image, sh: Shape, p: nat)
    requires sh.free != [] && p <= |sh.files| && Good(img, sh)
    requires forall g: nat :: g in sh.chains ==> SameFile(img, img1, sh.chains[g])
    ensures AllKept(img, sh, img1, Created(sh, p), 0) && sh.free[0] !in sh.chains
    ensures sh.free[0] in Created(sh, p).chains && Created(sh, p).chains[sh.free[0]] == [sh.free[0]]
  {
    hide Good, SameFile;
    forall g: nat | g in sh.chains ensures g != sh.free[0] {
      FileNotFree(img, sh, g);
    }
  }

  lemma FileNotFree(img: Image, sh: Shape, g: nat)
    requires sh.free != [] && g in sh.chains && Good(img, sh)
    ensures g != sh.free[0]
  {
    hide Good;
    FreeSpot(img, sh, 0);
    ChainNonempty(img, sh, g);
    ChainSpot(img, sh, g, 0);
    GoodFile(img, sh, g);
  }

  lemma AppendedKept(img: Image, img1: Image, sh: Shape, f: nat, k: nat)
    requires f in sh.chains && k <= |sh.free|
    requires forall g: nat :: g in sh.chains && g != f ==> SameFile(img, img1, sh.chains[g])
    ensures AllKept(img, sh, img1, Appended(sh, f, k), f)
  {
    hide SameFile;
  }

  lemma ReleasedKept(img: Image, img1: Image, sh: Shape, f: nat)
    requires f in sh.chains && |sh.chains[f]| > 0 && sh.chains[f][0] == f
    requires forall g: nat :: g in sh.chains && g != f ==> SameFile(img, img1, sh.chains[g])
    ensures AllKept(img, sh, img1, Released(sh, f, 1, sh.files), f) && Released(sh, f, 1, sh.files).chains[f] == [f]
  {
    hide SameFile;
  }

  lemma DeletedKept(img: Image, img1: Image, sh: Shape, p: nat)
    requires p < |sh.files| && sh.files[p] in sh.chains && |sh.chains[sh.files[p]]| > 0
    requires forall g: nat :: g in sh.chains && g != sh.files[p] ==> SameFile(img, img1, sh.chains[g])
    ensures AllKept(img, sh, img1, Deleted(sh, p), sh.files[p])
  {
    hide SameFile;
  }

  // ----- changing one stream -----

  /** A stream with other contents. */
  lemma StreamSet(img: Image, sh: Shape, streams: map<nat, Stream>, seen: map<nat, seq<u8>>, a: nat, s: Stream,
                  seen1: map<nat, seq<u8>>)
    requires a in streams && StreamOk(img, sh, s)
    requires forall b: nat :: b in streams && b != a ==> Apart(s, streams[b]) && Apart(streams[b], s)
    requires forall b: nat :: b in seen1 && b != a ==> b in seen && seen1[b] == seen[b]
    requires a in seen1 && s.mode == MODE_LIST ==> After(img, s.fileBlock, seen1[a])
    requires FilesGood(img, sh, streams, seen)
    ensures FilesGood(img, sh, streams[a := s], seen1)
  {
    hide Good, StreamOk, Apart, After;
  }

  /** A read or write stream on a file that this lets it have. */
  predicate MayShare(s: Stream, f: nat, mode: u64) {
    !(s.fileBlock == f && s.mode != MODE_LIST && (s.mode == MODE_WRITE || mode == MODE_WRITE))
  }

  ghost predicate AllShare(streams: map<nat, Stream>, f: nat, mode: u64) {
    forall a: nat :: a in streams ==> MayShare(streams[a], f, mode)
  }

  /** The streams let a file be opened exactly if a new stream on it would leave every write stream without others on
      its file. */
  lemma SharedExactly(streams: map<nat, Stream>, a: nat, t: Stream)
    requires a !in streams && Exclusive(streams) && t.fileBlock != 0 && (t.mode == MODE_READ || t.mode == MODE_WRITE)
    requires forall b: nat :: b in streams && streams[b].mode !in {MODE_LIST, MODE_READ, MODE_WRITE} ==>
      streams[b].fileBlock == 0
    ensures AllShare(streams, t.fileBlock, t.mode) <==> Exclusive(streams[a := t])
  {
    var all := streams[a := t];
    if AllShare(streams, t.fileBlock, t.mode) {
      ShareApart(streams, a, t);
      forall b: nat, c: nat | b in all && c in all && b != c ensures Apart(all[b], all[c]) {
        if b != a && c != a { assert Apart(streams[b], streams[c]); }
      }
    }
    if Exclusive(all) {
      forall b: nat | b in streams ensures MayShare(streams[b], t.fileBlock, t.mode) {
        assert Apart(all[a], all[b]) && Apart(all[b], all[a]);
      }
    }
  }

  lemma ShareApart(streams: map<nat, Stream>, a: nat, s: Stream)
    requires (s.mode == MODE_READ || s.mode == MODE_WRITE) && AllShare(streams, s.fileBlock, s.mode)
    ensures forall b: nat :: b in streams && b != a ==> Apart(s, streams[b]) && Apart(streams[b], s)
  {
  }

  lemma ListApart(streams: map<nat, Stream>, a: nat, s: Stream)
    requires s.mode == MODE_LIST || s.mode == MODE_UNUSED
    requires s.mode == MODE_UNUSED ==> s.fileBlock == 0 && forall b: nat ::
      b in streams && streams[b].mode == MODE_WRITE ==> streams[b].fileBlock != 0
    ensures forall b: nat :: b in streams && b != a ==> Apart(s, streams[b]) && Apart(streams[b], s)
  {
  }

  /** No stream has a file that does not exist. */
  lemma NewShare(img: Image, sh: Shape, streams: map<nat, Stream>, f: nat, mode: u64)
    requires f !in sh.chains && f != 0 && StreamsOk(img, sh, streams)
    ensures AllShare(streams, f, mode)
  {
    forall a: nat | a in streams ensures MayShare(streams[a], f, mode) {
      StreamHome(img, sh, streams[a]);
    }
  }

  lemma WriteShare(img: Image, sh: Shape, streams: map<nat, Stream>, f: nat)
    requires AllShare(streams, f, MODE_WRITE)
    ensures OnlyLists(streams, f)
  {
  }

  // ----- list streams when a file is deleted -----

  function Relisted(s: Stream, f: nat, next: nat): Stream {
    if s.mode == MODE_LIST && s.fileBlock == f then s.(fileBlock := next) else s
  }

  ghost predicate AllRelisted(streams: map<nat, Stream>, streams1: map<nat, Stream>, f: nat, next: nat) {
    streams1.Keys == streams.Keys && forall a: nat :: a in streams ==>
      a in streams1 && streams1[a] == Relisted(streams[a], f, next)
  }

  lemma RelistedFiles(img: Image, sh: Shape, streams: map<nat, Stream>, streams1: map<nat, Stream>, seen: map<nat,
                      seq<u8>>, p: nat)
    requires p < |sh.files| && AllRelisted(streams, streams1, sh.files[p], At(sh.files, p + 1))
      && OnlyLists(streams, sh.files[p])
    requires FilesGood(img, sh, streams, seen)
    ensures FilesGood(img, sh, streams1, seen)
    ensures forall a: nat :: a in streams1 ==> streams1[a].fileBlock != sh.files[p]
  {
    hide Good, HasCursor, Less, NameIn;
    var f, next := sh.files[p], At(sh.files, p + 1);
    FileSpot(img, sh, p);
    if p + 1 < |sh.files| { FileSpot(img, sh, p + 1); }
    assert next != f by { if p + 1 < |sh.files| { NextOther(img, sh, p); } }
    forall a: nat | a in seen && a in streams1 && streams1[a].mode == MODE_LIST ensures After(img,
      streams1[a].fileBlock, seen[a]) {
      assert After(img, streams[a].fileBlock, seen[a]);
      if streams[a].fileBlock == f && next != 0 {
        SortedNames(img, sh, p, p + 1);
        LessTrans(seen[a], NameIn(img, f), NameIn(img, next));
      }
    }
  }

  lemma NextOther(img: Image, sh: Shape, p: nat)
    requires p + 1 < |sh.files| && Good(img, sh)
    ensures sh.files[p] != sh.files[p + 1]
  {
    hide Good, Less, NameIn;
    SortedNames(img, sh, p, p + 1);
    LessIrreflexive(NameIn(img, sh.files[p]));
  }

  /** After the name of a file comes that of the next one. */
  lemma NextName(img: Image, sh: Shape, p: nat)
    requires p < |sh.files| && Good(img, sh)
    ensures After(img, At(sh.files, p + 1), NameIn(img, sh.files[p]))
  {
    hide Good, Less, NameIn;
    if p + 1 < |sh.files| { SortedNames(img, sh, p, p + 1); }
  }
}
