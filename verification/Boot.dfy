/** The boot loader: it finds the kernel in the file system and loads its blocks one after the other, each over the
    last 8 bytes of the one before it, so that the data of the blocks, without their headers, follows without a gap.
    */
module Boot {
  import opened Words
  import opened Stores
  import opened Blocks
  import opened Volumes
  import opened Reshaping
  import opened Appending
  import opened FileSystem
  import opened Streams

  /** bin/toys */
  const KERNEL_NAME: seq<u8> := [98, 105, 110, 47, 116, 111, 121, 115]

  const HEADER_SIZE := 32

  /** The memory of the boot loader, in which a block is a structure of words. */
  class Loader {
    const memory: array<u8>
    const image: seq<Block>

    constructor (m: array<u8>, img: seq<Block>)
      ensures memory == m && image == img
    {
      memory, image := m, img;
    }

    /** A word of the block at an address. */
    function WordAt(ptr: nat): u64
      reads memory
      requires ptr + 8 <= memory.Length
    {
      From64(memory[ptr..ptr + 8])
    }

    /** Reading a block from the disk. */
    method ReadBlock(block: nat, ptr: nat)
      requires block < |image| && ptr + 512 <= memory.Length
      modifies memory
      ensures memory[..] == Patched(old(memory[..]), ptr, image[block])
    {
      ghost var m := memory[..];
      forall k | 0 <= k < 512 {
        memory[ptr + k] := image[block][k];
      }
      PatchedIs(m, memory[..], ptr, image[block]);
    }

    /** The loop that finds the kernel: the first block of the list of files, from the superblock on, that has its
        name. The superblock has no name, but what its bytes happen to be counts as one. */
    method FindKernel(ptr: nat, ghost sh: Shape) returns (block: nat)
      requires Good(image, sh) && ptr + 512 <= memory.Length
      requires exists f: nat :: f in sh.chains && NameIn(image, f) == KERNEL_NAME
      modifies memory
      ensures block < |image| && memory[..] == Patched(old(memory[..]), ptr, image[block])
      ensures block == 0 <==> IsKernel(image[0])
      ensures block != 0 ==> block in sh.chains && NameIn(image, block) == KERNEL_NAME
    {
      hide Good, Word, Name, LE64, From64;
      ghost var q := 0;
      block := 0;
      FirstFile(image, sh);
      while true
        invariant q <= |sh.files| && block == (if q == 0 then 0 else sh.files[q - 1]) && block < |image|
        invariant memory[..ptr] == old(memory[..ptr]) && memory[ptr + 512..] == old(memory[ptr + 512..])
        invariant q > 0 ==> !IsKernel(image[0])
        invariant forall i :: 0 <= i < q - 1 ==> sh.files[i] < |image| && !IsKernel(image[sh.files[i]])
        decreases |sh.files| - q
      {
        ReadBlock(block, ptr);
        WordsAt(memory[..], ptr, image[block]);
        KernelWords(image[block]);
        if WordAt(ptr + 16) == 8 && WordAt(ptr + 24) == From64(KERNEL_NAME) {
          if q > 0 { KernelName(image, sh, q - 1); }
          return;
        }
        if q > 0 { FileSpot(image, sh, q - 1); }
        if q == |sh.files| { KernelThere(image, sh); }
        FileSpot(image, sh, q);
        block := WordAt(ptr + 8);
        q := q + 1;
      }
    }

    /** Reads a block over the end of the one before it, and puts back the word that this changed. */
    method LoadNext(p: nat, n: nat) returns (block: nat)
      requires p + 512 <= memory.Length && n < |image|
      modifies memory
      ensures block == Link(image[n]) && memory[..p + 8] == old(memory[..p + 8])
      ensures memory[p + 8..p + 512] == image[n][8..] && memory[p + 512..] == old(memory[p + 512..])
    {
      hide LE64, From64, Link, Patched;
      ghost var m := memory[..];
      var backup := WordAt(p);
      ReadBlock(n, p);
      ghost var m1 := memory[..];
      PatchedParts(m, p, image[n], p, p + 512);
      WordsAt(m1, p, image[n]);
      LinkWord(image[n]);
      block := WordAt(p);
      StoreWord(memory, p, backup);
      LE64OfFrom64(m[p..p + 8]);
      Overlapped(m, m1, memory[..], p, image[n]);
    }

    /** The loop that loads the rest of the kernel, after its first block. */
    method LoadChain(ptr: nat, ghost c: seq<nat>) returns (diskBlock: nat, block: nat)
      requires ChainLinked(image, c) && NameLength(image[c[0]]) == 8 && ptr + 504 * |c| + 8 <= memory.Length
      requires memory[ptr..ptr + 512] == image[c[0]]
      modifies memory
      ensures ptr + HEADER_SIZE <= diskBlock + block <= memory.Length
      ensures memory[ptr + HEADER_SIZE..diskBlock + block] == Content(image, c)
      ensures Around(old(memory[..]), memory[..], ptr, ptr + 504 * |c| + 8)
    {
      hide ChainLinked, From64, Full, Content, Link, NameLength, LoadedTo, Around;
      ghost var i, m0 := 0, memory[..];
      diskBlock := ptr;
      ChainBlocks(image, c);
      WordsAt(memory[..], ptr, image[c[0]]);
      FirstLoaded(image, c, m0, ptr);
      LinkWord(image[c[0]]);
      block := WordAt(diskBlock);
      while block > 512
        invariant i < |c| && diskBlock == ptr + 504 * i && block == Link(image[c[i]])
        invariant LoadedTo(image, c, memory[..], ptr, i)
        invariant Around(m0, memory[..], ptr, ptr + 504 * |c| + 8)
        decreases |c| - i
      {
        ChainNext(image, c, i);
        NotLast(image, c, i);
        ghost var m := memory[..];
        diskBlock := diskBlock + 504;
        block := LoadNext(diskBlock, block - 512);
        LoadedStep(image, c, m, memory[..], ptr, i);
        AroundStep(m0, m, memory[..], ptr, ptr + 504 * |c| + 8, diskBlock);
        i := i + 1;
      }
      Loaded(image, c, memory[..], ptr, i);
    }

    /** Loading the kernel, given that there is memory for it and that the superblock does not look like it: its code
        is what the file holds, from the address that is called. */
    method LoadKernel(ptr: nat, ghost sh: Shape) returns (code: nat, heap: nat, ghost f: nat)
      requires Good(image, sh) && ptr + 512 <= memory.Length && !IsKernel(image[0])
      requires exists f: nat :: f in sh.chains && NameIn(image, f) == KERNEL_NAME
      requires forall f ::
        f in sh.chains && NameIn(image, f) == KERNEL_NAME ==> ptr + 504 * |sh.chains[f]| + 8 <= memory.Length
      modifies memory
      ensures f in sh.chains && NameIn(image, f) == KERNEL_NAME && code == ptr + HEADER_SIZE <= heap <= memory.Length
      ensures HasContent(image, sh.chains[f], memory[code..heap])
      ensures memory[..ptr] == old(memory[..ptr])
    {
      hide Good, Name, LE64, From64, Content, ChainLinked, NameLength, Word;
      var block := FindKernel(ptr, sh);
      f := block;
      KernelChain(image, sh, f);
      var diskBlock;
      diskBlock, block := LoadChain(ptr, sh.chains[f]);
      code, heap := ptr + HEADER_SIZE, diskBlock + block;
    }
  }

  predicate IsKernel(b: Block) { NameLength(b) == 8 && b[24..32] == KERNEL_NAME }

  /** The words of a block in memory are those of the block. */
  lemma WordsAt(m: seq<u8>, ptr: nat, b: Block)
    requires ptr + 512 <= |m| && m[ptr..ptr + 512] == b
    ensures m[ptr..ptr + 8] == b[0..8] && m[ptr + 8..ptr + 16] == b[8..16] && m[ptr + 16..ptr + 24] == b[16..24]
      && m[ptr + 24..ptr + 32] == b[24..32]
  {
    PartAt(m, ptr, b, 0, 8);
    PartAt(m, ptr, b, 8, 16);
    PartAt(m, ptr, b, 16, 24);
    PartAt(m, ptr, b, 24, 32);
  }

  /** Comparing words is comparing bytes. */
  lemma KernelWords(b: Block)
    ensures From64(b[24..32]) == From64(KERNEL_NAME) <==> b[24..32] == KERNEL_NAME
    ensures Word(b, 1) == From64(b[8..16]) && Word(b, 2) == From64(b[16..24])
  {
    hide From64, LE64;
    LE64OfFrom64(b[24..32]);
    LE64OfFrom64(KERNEL_NAME);
  }

  lemma KernelName(img: Image, sh: Shape, i: nat)
    requires i < |sh.files| && sh.files[i] < |img| && IsKernel(img[sh.files[i]]) && Good(img, sh)
    ensures sh.files[i] in sh.chains && NameIn(img, sh.files[i]) == KERNEL_NAME && sh.files[i] != 0
  {
    hide Good;
    FileSpot(img, sh, i);
  }

  lemma KernelThere(img: Image, sh: Shape)
    requires Good(img, sh) && exists f: nat :: f in sh.chains && NameIn(img, f) == KERNEL_NAME
    ensures exists i: nat :: i < |sh.files| && sh.files[i] < |img| && IsKernel(img[sh.files[i]])
  {
    hide Good;
    var f: nat :| f in sh.chains && NameIn(img, f) == KERNEL_NAME;
    GoodFile(img, sh, f);
    var i: nat :| i < |sh.files| && sh.files[i] == f;
  }

  lemma ChainBlocks(img: Image, c: seq<nat>)
    requires ChainLinked(img, c)
    ensures |c| > 0 && forall i :: 0 <= i < |c| ==> c[i] < |img|
  {
  }

  /** The memory before and after two addresses is as it was. */
  ghost predicate Around(m: seq<u8>, m1: seq<u8>, begin: nat, end: nat) {
    begin <= end <= |m| == |m1| && m1[..begin] == m[..begin] && m1[end..] == m[end..]
  }

  lemma AroundStep(m0: seq<u8>, m: seq<u8>, m1: seq<u8>, begin: nat, end: nat, p: nat)
    requires Around(m0, m, begin, end) && begin <= p + 8 && p + 512 <= end && |m1| == |m|
    requires m1[..p + 8] == m[..p + 8] && m1[p + 512..] == m[p + 512..]
    ensures Around(m0, m1, begin, end)
  {
    assert m1[..begin] == m1[..p + 8][..begin] && m[..begin] == m[..p + 8][..begin];
    assert m1[end..] == m1[p + 512..][end - p - 512..] && m[end..] == m[p + 512..][end - p - 512..];
  }

  lemma FirstLoaded(img: Image, c: seq<nat>, m: seq<u8>, ptr: nat)
    requires |c| > 0 && (forall k :: 0 <= k < |c| ==> c[k] < |img|) && ptr + 504 * |c| + 8 <= |m|
      && m[ptr..ptr + 512] == img[c[0]]
    ensures LoadedTo(img, c, m, ptr, 0) && Around(m, m, ptr, ptr + 504 * |c| + 8)
  {
    PartAt(m, ptr, img[c[0]], 8, 512);
  }

  lemma LinkWord(b: Block)
    ensures Link(b) == From64(b[0..8])
  {
  }

  lemma NotLast(img: Image, c: seq<nat>, i: nat)
    requires ChainLinked(img, c) && i < |c| && Link(img[c[i]]) > 512
    ensures i + 1 < |c| && Link(img[c[i]]) - 512 == c[i + 1] && c[i + 1] < |img|
  {
    ChainNext(img, c, i);
  }

  /** The memory after block i of the chain is loaded: the data of the blocks before it and its own, but for its first
      word. */
  ghost predicate LoadedTo(img: Image, c: seq<nat>, m: seq<u8>, ptr: nat, i: nat) {
    var p := ptr + 504 * i;
    && i < |c| && (forall k :: 0 <= k < |c| ==> c[k] < |img|) && p + 512 <= |m| && m[p + 8..p + 512] == img[c[i]][8..]
    && (i > 0 ==> m[ptr + HEADER_SIZE..p + 8] == Full(img, c, 0, i, HEADER_SIZE))
  }

  /** Reading a block over the end of the one before it, and putting back the word that this changed. */
  lemma Overlapped(m: seq<u8>, m1: seq<u8>, m2: seq<u8>, p: nat, b: Block)
    requires p + 512 <= |m| && m1 == Patched(m, p, b) && m2 == Patched(m1, p, m[p..p + 8])
    ensures m2[..p + 8] == m[..p + 8] && m2[p + 8..p + 512] == b[8..] && m2[p + 512..] == m[p + 512..]
  {
    hide Patched;
    var word := m[p..p + 8];
    PatchedBefore(m, p, b);
    PatchedBefore(m1, p, word);
    PatchedParts(m1, p, word, p, p + 512);
    Prefixes(m, m2, p, p + 8);
    PatchedParts(m, p, b, p, p + 512);
    PartAt(m1, p, b, 8, 512);
    PatchedAfter(m, p, b, p + 512);
    PatchedAfter(m1, p, word, p + 512);
  }

  lemma LoadedStep(img: Image, c: seq<nat>, m: seq<u8>, m1: seq<u8>, ptr: nat, i: nat)
    requires LoadedTo(img, c, m, ptr, i) && i + 1 < |c| && |m1| == |m| >= ptr + 504 * i + 1016
    requires var p := ptr + 504 * (i + 1); m1[..p + 8] == m[..p + 8] && m1[p + 8..p + 512] == img[c[i + 1]][8..]
    ensures LoadedTo(img, c, m1, ptr, i + 1)
  {
    hide Full;
    var p := ptr + 504 * i;
    FullSnoc(img, c, 0, i, HEADER_SIZE);
    Cut(m, m1, ptr + HEADER_SIZE, p + 512);
    if i > 0 {
      Adjoining(m, ptr + HEADER_SIZE, p + 8, p + 512);
    } else {
      NoFull(img, c, HEADER_SIZE);
      PartAt(m, p + 8, img[c[0]][8..], HEADER_SIZE - 8, 504);
    }
  }

  lemma Cut(m: seq<u8>, m1: seq<u8>, a: nat, b: nat)
    requires a <= b <= |m| == |m1| && m1[..b] == m[..b]
    ensures m1[a..b] == m[a..b]
  {
    assert m1[a..b] == m1[..b][a..] && m[a..b] == m[..b][a..];
  }

  lemma Loaded(img: Image, c: seq<nat>, m: seq<u8>, ptr: nat, i: nat)
    requires LoadedTo(img, c, m, ptr, i) && ChainLinked(img, c) && NameLength(img[c[0]]) == 8 && Link(img[c[i]]) <= 512
    ensures var end := ptr + 504 * i + Link(img[c[i]]);
      ptr + HEADER_SIZE <= end <= |m| && m[ptr + HEADER_SIZE..end] == Content(img, c)
  {
    hide ChainLinked, Full, Link, NameLength, LoadedTo, Content;
    LoadedBound(img, c, m, ptr, i);
    LastLink(img, c, i);
    ContentFull(img, c, i);
    var e := Link(img[c[i]]);
    if i > 0 { LoadedMore(img, c, m, ptr, i, e); } else { LoadedFirst(img, c, m, ptr, e); }
  }

  lemma LoadedBound(img: Image, c: seq<nat>, m: seq<u8>, ptr: nat, i: nat)
    requires LoadedTo(img, c, m, ptr, i)
    ensures i < |c| && forall k :: 0 <= k < |c| ==> c[k] < |img|
  {
    hide Full;
  }

  /** The content as the data of full blocks and that of the last one. */
  lemma ContentFull(img: Image, c: seq<nat>, i: nat)
    requires ChainLinked(img, c) && i + 1 == |c| && Header(img, c, 0) == HEADER_SIZE <= End(img, c, 0)
    ensures (forall k :: 0 <= k < |c| ==> c[k] < |img|) && NameLength(img[c[0]]) <= 488
    ensures var o := if i == 0 then HEADER_SIZE else 8;
      o <= Link(img[c[i]]) <= 512 && Content(img, c) == Full(img, c, 0, i, HEADER_SIZE) + img[c[i]][o..Link(img[c[i]])]
  {
    hide ChainLinked, Full, Link, Rest, End;
    ChainBounds(img, c, i);
    ChainBounds(img, c, 0);
    RestIsFull(img, c, 0, HEADER_SIZE);
  }

  lemma LoadedMore(img: Image, c: seq<nat>, m: seq<u8>, ptr: nat, i: nat, e: nat)
    requires LoadedTo(img, c, m, ptr, i) && i > 0 && 8 <= e <= 512
    ensures ptr + 504 * i + e <= |m| && m[ptr + HEADER_SIZE..ptr + 504 * i + e] == Full(img, c, 0, i, HEADER_SIZE)
      + img[c[i]][8..e]
  {
    hide Full, LoadedTo;
    var p := ptr + 504 * i;
    LoadedBound(img, c, m, ptr, i);
    LoadedParts(img, c, m, ptr, i);
    Adjoining(m, ptr + HEADER_SIZE, p + 8, p + e);
    LoadedPart(m, p, img[c[i]], 8, e);
  }

  lemma LoadedParts(img: Image, c: seq<nat>, m: seq<u8>, ptr: nat, i: nat)
    requires LoadedTo(img, c, m, ptr, i) && i > 0
    ensures var p := ptr + 504 * i;
      p + 512 <= |m| && m[p + 8..p + 512] == img[c[i]][8..] && m[ptr + HEADER_SIZE..p + 8] == Full(img, c, 0, i,
        HEADER_SIZE)
  {
    hide Full;
  }

  lemma LoadedFirst(img: Image, c: seq<nat>, m: seq<u8>, ptr: nat, e: nat)
    requires LoadedTo(img, c, m, ptr, 0) && HEADER_SIZE <= e <= 512
    ensures ptr + e <= |m| && m[ptr + HEADER_SIZE..ptr + e] == Full(img, c, 0, 0, HEADER_SIZE)
      + img[c[0]][HEADER_SIZE..e]
  {
    hide Full;
    NoFull(img, c, HEADER_SIZE);
    LoadedPart(m, ptr, img[c[0]], HEADER_SIZE, e);
  }

  lemma LoadedPart(m: seq<u8>, p: nat, b: Block, i: nat, j: nat)
    requires p + 512 <= |m| && m[p + 8..p + 512] == b[8..] && 8 <= i <= j <= 512
    ensures m[p + i..p + j] == b[i..j] && [] + m[p + i..p + j] == m[p + i..p + j]
  {
    PartAt(m, p + 8, b[8..], i - 8, j - 8);
    Tail(b, i, j);
  }

  lemma Tail(b: Block, i: nat, j: nat)
    requires 8 <= i <= j <= 512
    ensures b[8..][i - 8..j - 8] == b[i..j] && [] + b[i..j] == b[i..j]
  {
  }

  lemma LastLink(img: Image, c: seq<nat>, i: nat)
    requires ChainLinked(img, c) && i < |c| && NameLength(img[c[0]]) == 8 && Link(img[c[i]]) <= 512
    ensures i + 1 == |c| && Header(img, c, 0) == HEADER_SIZE <= End(img, c, 0)
      && (i == 0 ==> Link(img[c[i]]) >= HEADER_SIZE)
    ensures Link(img[c[i]]) >= 8
  {
    if i + 1 < |c| { LinkBig(img, c, i); }
  }

  lemma LinkBig(img: Image, c: seq<nat>, i: nat)
    requires ChainLinked(img, c) && i + 1 < |c|
    ensures Link(img[c[i]]) > 512
  {
    assert LinksOn(img, c, i);
  }

  lemma KernelChain(img: Image, sh: Shape, f: nat)
    requires f in sh.chains && NameIn(img, f) == KERNEL_NAME && Good(img, sh)
    ensures ChainLinked(img, sh.chains[f]) && |sh.chains[f]| > 0 && sh.chains[f][0] == f && f < |img|
      && NameLength(img[f]) == 8
  {
    hide Good, ChainLinked;
    StartOfFile(img, sh, f);
    HeaderOf(img, f);
  }

  lemma HeaderOf(img: Image, f: nat)
    requires f < |img| && |NameIn(img, f)| == 8
    ensures NameLength(img[f]) == 8
  {
  }
}
