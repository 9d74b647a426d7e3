/** What a disk image is when it holds a Toys file system: a list of free blocks, a list of files sorted by name, and
    one chain of blocks per file, which together with the superblock are all the blocks, each once. */
module Volumes {
  import opened Words
  import opened Blocks

  type Image = seq<Block>

  /** Who a block belongs to, and at which place. */
  datatype Owner = Super | FreeAt(place: nat) | ChainAt(file: nat, place: nat)

  /** The lists threaded through the blocks of an image: files are named by their first block. */
  datatype Shape = Shape(free: seq<nat>, files: seq<nat>, chains: map<nat, seq<nat>>, owner: seq<Owner>)

  /** Element i, or 0 past the end: how a list is linked. */
  function At(s: seq<nat>, i: nat): nat { if i < |s| then s[i] else 0 }

  predicate OwnerHas(sh: Shape, b: nat)
    requires b < |sh.owner|
  {
    match sh.owner[b]
    case Super => false
    case FreeAt(i) => i < |sh.free| && sh.free[i] == b
    case ChainAt(f, i) => f in sh.chains && i < |sh.chains[f]| && sh.chains[f][i] == b
  }

  /** The superblock, the free list and the chains partition the blocks: every block is at exactly one place. */
  ghost predicate Owned(n: nat, sh: Shape) {
    && |sh.owner| == n >= 1 && sh.owner[0] == Super
    && (forall b :: 0 < b < n ==> OwnerHas(sh, b))
    && (forall i :: 0 <= i < |sh.free| ==> 0 < sh.free[i] < n && sh.owner[sh.free[i]] == FreeAt(i))
    && (forall f :: f in sh.chains ==> ChainOwned(n, sh, f))
  }

  ghost predicate ChainOwned(n: nat, sh: Shape, f: nat)
    requires f in sh.chains && |sh.owner| == n
  {
    var c := sh.chains[f];
    |c| > 0 && c[0] == f && forall i :: 0 <= i < |c| ==> 0 < c[i] < n && sh.owner[c[i]] == ChainAt(f, i)
  }

  /** The superblock links to the first free block, each free block to the next one, and the last one holds 512. */
  ghost predicate FreeLinked(img: Image, free: seq<nat>) {
    && |img| > 0 && Link(img[0]) == 512 + At(free, 0)
    && (forall i :: 0 <= i < |free| ==> free[i] < |img| && Link(img[free[i]]) == 512 + At(free, i + 1))
  }

  ghost predicate FilesLinked(img: Image, files: seq<nat>) {
    && |img| > 0 && NextFile(img[0]) == At(files, 0)
    && (forall i :: 0 <= i < |files| ==> files[i] < |img| && NextFile(img[files[i]]) == At(files, i + 1))
  }

  predicate ValidName(name: seq<u8>) { 0 < |name| <= 488 && forall i :: 0 <= i < |name| ==> 32 < name[i] < 127 }

  predicate NameOk(b: Block) { NameLength(b) <= 488 && ValidName(Name(b)) }

  /** Where the data of the block at place i of a chain starts. */
  function Header(img: Image, c: seq<nat>, i: nat): nat
    requires |c| > 0 && c[0] < |img|
  {
    if i == 0 then 24 + NameLength(img[c[0]]) else 8
  }

  predicate LinksOn(img: Image, c: seq<nat>, i: nat)
    requires i + 1 < |c| && c[i] < |img|
  {
    Link(img[c[i]]) == 512 + c[i + 1] && c[i + 1] > 0
  }

  /** Every block of a chain but the last links to the next one; the last one holds how much of it is used. */
  ghost predicate ChainLinked(img: Image, c: seq<nat>) {
    && |c| > 0 && (forall i :: 0 <= i < |c| ==> c[i] < |img|)
    && (forall i :: 0 <= i < |c| - 1 ==> LinksOn(img, c, i))
    && Header(img, c, |c| - 1) <= Link(img[c[|c| - 1]]) <= 512
  }

  ghost predicate FileOk(img: Image, sh: Shape, f: nat)
    requires f in sh.chains
  {
    ChainLinked(img, sh.chains[f]) && f < |img| && NameOk(img[f])
  }

  /** The name in a block, if there is one. */
  function NameIn(img: Image, f: nat): seq<u8> { if f < |img| && NameLength(img[f]) <= 488 then Name(img[f]) else [] }

  ghost predicate Sorted(img: Image, files: seq<nat>) {
    (forall i :: 0 <= i < |files| ==> files[i] < |img| && NameOk(img[files[i]]))
    && forall i, j :: 0 <= i < j < |files| ==> Less(Name(img[files[i]]), Name(img[files[j]]))
  }

  ghost predicate Good(img: Image, sh: Shape) {
    && |img| + 512 < TWO64 && Owned(|img|, sh) && FreeLinked(img, sh.free) && FilesLinked(img, sh.files)
    && (forall f :: f in sh.chains ==> FileOk(img, sh, f))
    && (forall f :: f in sh.chains <==> f in sh.files)
    && Sorted(img, sh.files)
  }

  // ----- contents -----

  /** Where the data of the block at place i of a chain ends. */
  function End(img: Image, c: seq<nat>, i: nat): nat
    requires i < |c| && c[i] < |img|
  {
    if i + 1 == |c| then Link(img[c[i]]) else 512
  }

  /** The data from an offset of the block at place i to the end of the file. */
  ghost function Rest(img: Image, c: seq<nat>, i: nat, offset: nat): seq<u8>
    requires ChainLinked(img, c) && i < |c| && offset <= End(img, c, i)
    decreases |c| - i
  {
    if i + 1 == |c| then img[c[i]][offset..Link(img[c[i]])]
    else
      assert End(img, c, i + 1) >= 8;
      img[c[i]][offset..] + Rest(img, c, i + 1, 8)
  }

  ghost function Content(img: Image, c: seq<nat>): seq<u8>
    requires ChainLinked(img, c) && NameLength(img[c[0]]) <= 488
  {
    Rest(img, c, 0, Header(img, c, 0))
  }

  predicate NamedChain(img: Image, c: seq<nat>) { |c| > 0 && c[0] < |img| && NameLength(img[c[0]]) <= 488 }

  /** The bytes of a file. */
  ghost function FileData(img: Image, sh: Shape, f: nat): seq<u8> {
    if f in sh.chains && NamedChain(img, sh.chains[f]) && ChainLinked(img, sh.chains[f])
      then Content(img, sh.chains[f]) else []
  }

  /** The data of the blocks at places i to j of a chain, all of them full. */
  ghost function Full(img: Image, c: seq<nat>, i: nat, j: nat, offset: nat): seq<u8>
    requires (forall k :: 0 <= k < |c| ==> c[k] < |img|) && j <= |c| && offset <= 512
    decreases j - i
  {
    if i >= j then [] else img[c[i]][offset..] + Full(img, c, i + 1, j, 8)
  }

  lemma {:induction false} RestIsFull(img: Image, c: seq<nat>, i: nat, offset: nat)
    requires ChainLinked(img, c) && i < |c| && offset <= End(img, c, i)
    ensures var l := |c| - 1;
      var o := if i == l then offset else 8;
      o <= Link(img[c[l]]) <= 512
      && Rest(img, c, i, offset) == Full(img, c, i, l, offset) + img[c[l]][o..Link(img[c[l]])]
    decreases |c| - i
  {
    hide ChainLinked, Link;
    EndBounds(img, c, i);
    if i + 1 < |c| {
      EndBounds(img, c, i + 1);
      RestIsFull(img, c, i + 1, 8);
      FullMore(img, c, i, |c| - 1, offset);
      RestMore(img, c, i, offset);
      Assoc(img[c[i]][offset..], Full(img, c, i + 1, |c| - 1, 8), img[c[|c| - 1]][8..Link(img[c[|c| - 1]])]);
    } else {
      assert Full(img, c, i, i, offset) == [];
    }
  }

  lemma Assoc(a: seq<u8>, b: seq<u8>, c: seq<u8>)
    ensures a + (b + c) == a + b + c
  {
  }

  lemma RestMore(img: Image, c: seq<nat>, i: nat, offset: nat)
    requires ChainLinked(img, c) && i + 1 < |c| && offset <= 512
    ensures 8 <= End(img, c, i + 1) && Rest(img, c, i, offset) == img[c[i]][offset..] + Rest(img, c, i + 1, 8)
  {
    hide ChainLinked, Link;
    EndBounds(img, c, i + 1);
    assert Rest(img, c, i, offset) == img[c[i]][offset..] + Rest(img, c, i + 1, 8);
  }

  lemma EndBounds(img: Image, c: seq<nat>, i: nat)
    requires ChainLinked(img, c) && i < |c|
    ensures (forall k :: 0 <= k < |c| ==> c[k] < |img|) && End(img, c, i) <= 512 && (i > 0 ==> 8 <= End(img, c, i))
    ensures Header(img, c, |c| - 1) <= Link(img[c[|c| - 1]]) <= 512
  {
    hide Link;
  }

  lemma FullMore(img: Image, c: seq<nat>, i: nat, j: nat, offset: nat)
    requires (forall k :: 0 <= k < |c| ==> c[k] < |img|) && i < j <= |c| && offset <= 512
    ensures Full(img, c, i, j, offset) == img[c[i]][offset..] + Full(img, c, i + 1, j, 8)
  {
  }

  lemma {:induction false} FullSnoc(img: Image, c: seq<nat>, i: nat, j: nat, offset: nat)
    requires (forall k :: 0 <= k < |c| ==> c[k] < |img|) && i <= j < |c| && offset <= 512
    ensures Full(img, c, i, j + 1, offset) == Full(img, c, i, j, offset) + img[c[j]][if i == j then offset else 8..]
    decreases j - i
  {
    if i < j {
      FullSnoc(img, c, i + 1, j, 8);
    } else {
      assert Full(img, c, j + 1, j + 1, 8) == [];
    }
  }

  /** The data depends only on the blocks of the chain. */
  lemma {:induction false} FullFrame(img: Image, img1: Image, c: seq<nat>, c1: seq<nat>, i: nat, j: nat, offset: nat)
    requires (forall k :: 0 <= k < |c| ==> c[k] < |img|) && (forall k :: 0 <= k < |c1| ==> c1[k] < |img1|)
    requires j <= |c| && j <= |c1| && offset <= 512
    requires forall k :: i <= k < j ==> c1[k] == c[k] && img1[c[k]][8..] == img[c[k]][8..]
    requires offset >= 8
    ensures Full(img1, c1, i, j, offset) == Full(img, c, i, j, offset)
    decreases j - i
  {
    if i < j {
      FullFrame(img, img1, c, c1, i + 1, j, 8);
      assert img1[c[i]][offset..] == img1[c[i]][8..][offset - 8..];
      assert img[c[i]][offset..] == img[c[i]][8..][offset - 8..];
    }
  }

  lemma ChainFrame(img: Image, img1: Image, c: seq<nat>)
    requires ChainLinked(img, c) && |img1| == |img| && (forall i :: 0 <= i < |c| ==> img1[c[i]] == img[c[i]])
    ensures ChainLinked(img1, c)
    ensures NameLength(img[c[0]]) <= 488 ==> Content(img1, c) == Content(img, c)
  {
    ChainFrameHead(img, img1, c);
  }

  /** The link, the length of the name and what is after the header words are the same. */
  predicate SameData(b: Block, b1: Block) { Link(b1) == Link(b) && NameLength(b1) == NameLength(b)
                     && b1[16..] == b[16..] }

  /** The same if the first block links to another file. */
  lemma ChainFrameHead(img: Image, img1: Image, c: seq<nat>)
    requires ChainLinked(img, c) && |img1| == |img| && (forall i :: 0 < i < |c| ==> img1[c[i]] == img[c[i]])
    requires SameData(img[c[0]], img1[c[0]])
    ensures ChainLinked(img1, c)
    ensures NameLength(img[c[0]]) <= 488 ==> Content(img1, c) == Content(img, c)
  {
    hide Link, NameLength;
    forall i | 0 <= i < |c| - 1 ensures LinksOn(img1, c, i) {
      assert LinksOn(img, c, i);
    }
    if NameLength(img[c[0]]) <= 488 {
      var h, l := Header(img, c, 0), |c| - 1;
      RestIsFull(img, c, 0, h);
      RestIsFull(img1, c, 0, h);
      var b, b1 := img[c[0]], img1[c[0]];
      assert b1[h..] == b1[16..][h - 16..] && b[h..] == b[16..][h - 16..];
      if l > 0 {
        FullFrame(img, img1, c, c, 1, l, 8);
      } else {
        var e := Link(b);
        assert b1[h..e] == b1[16..][h - 16..e - 16] && b[h..e] == b[16..][h - 16..e - 16];
      }
    }
  }

  /** The same name and the same content, of chain c in img and of chain c1 in img1. */
  ghost predicate SameContent(img: Image, c: seq<nat>, img1: Image, c1: seq<nat>) {
    && ChainLinked(img, c) && ChainLinked(img1, c1) && NameLength(img[c[0]]) <= 488 && NameLength(img1[c1[0]]) <= 488
    && Name(img1[c1[0]]) == Name(img[c[0]]) && Content(img1, c1) == Content(img, c)
  }

  /** A file with the same name, blocks and content in two images. */
  ghost predicate SameFile(img: Image, img1: Image, c: seq<nat>) { SameContent(img, c, img1, c) }

  // ----- parts of a good image -----

  lemma GoodFile(img: Image, sh: Shape, f: nat)
    requires Good(img, sh) && f in sh.chains
    ensures FileOk(img, sh, f) && ChainOwned(|img|, sh, f) && 0 < f < |img| && f in sh.files && NameOk(img[f])
    ensures sh.chains[f][0] == f && NameLength(img[f]) <= 488
  {
    assert FileOk(img, sh, f);
  }

  lemma GoodLists(img: Image, sh: Shape)
    requires Good(img, sh)
    ensures Owned(|img|, sh) && FreeLinked(img, sh.free) && FilesLinked(img, sh.files) && Sorted(img, sh.files)
      && |img| + 512 < TWO64
  {
    hide Owned, FreeLinked, FilesLinked, Sorted, FileOk;
  }

  /** The next free block, as the superblock and the free blocks say it. */
  lemma FreeNext(img: Image, sh: Shape, i: nat)
    requires Good(img, sh) && i <= |sh.free|
    ensures i == 0 ==> Next(img[0]) == At(sh.free, 0)
    ensures i < |sh.free| ==> 0 < sh.free[i] < |img| && Next(img[sh.free[i]]) == At(sh.free, i + 1)
  {
    GoodLists(img, sh);
    if i < |sh.free| {
      assert sh.owner[sh.free[i]] == FreeAt(i);
      if i + 1 < |sh.free| { assert sh.owner[sh.free[i + 1]] == FreeAt(i + 1); }
    }
    if 0 < |sh.free| { assert sh.owner[sh.free[0]] == FreeAt(0); }
  }

  lemma ChainNext(img: Image, c: seq<nat>, i: nat)
    requires ChainLinked(img, c) && i < |c|
    ensures c[i] < |img| && Next(img[c[i]]) == (if i + 1 < |c| then c[i + 1] else 0)
    ensures i + 1 == |c| ==> Next(img[c[i]]) == 0 && Link(img[c[i]]) <= 512
  {
    if i + 1 < |c| { assert LinksOn(img, c, i); }
  }

  lemma InFree(n: nat, sh: Shape, b: nat)
    requires Owned(n, sh) && b in sh.free
    ensures 0 < b < n && sh.owner[b].FreeAt? && sh.owner[b].place < |sh.free| && sh.free[sh.owner[b].place] == b
  {
    hide ChainOwned;
    var i :| 0 <= i < |sh.free| && sh.free[i] == b;
    assert sh.owner[sh.free[i]] == FreeAt(i);
  }

  lemma InChain(n: nat, sh: Shape, f: nat, b: nat)
    requires Owned(n, sh) && f in sh.chains && b in sh.chains[f]
    ensures 0 < b < n && sh.owner[b].ChainAt? && sh.owner[b].file == f
    ensures sh.owner[b].place < |sh.chains[f]| && sh.chains[f][sh.owner[b].place] == b
  {
    assert ChainOwned(n, sh, f);
    var i :| 0 <= i < |sh.chains[f]| && sh.chains[f][i] == b;
    assert sh.owner[sh.chains[f][i]] == ChainAt(f, i);
  }

  /** Every block is the superblock, in the free list or in the chain of a file. */
  lemma Covered(img: Image, sh: Shape, b: nat)
    requires Good(img, sh) && b < |img|
    ensures b == 0 || b in sh.free || exists f :: f in sh.chains && b in sh.chains[f]
  {
    GoodLists(img, sh);
    hide ChainOwned, FreeLinked, FilesLinked, Sorted, FileOk;
    if b > 0 {
      assert OwnerHas(sh, b);
      if sh.owner[b].ChainAt? { assert sh.owner[b].file in sh.chains && b in sh.chains[sh.owner[b].file]; }
    }
  }

  /** It is so in one way and at one place only, and so no list has a cycle. */
  lemma Disjoint(img: Image, sh: Shape, b: nat)
    requires Good(img, sh) && b < |img|
    ensures b in sh.free ==> b != 0 && forall f :: f in sh.chains ==> b !in sh.chains[f]
    ensures forall f, g :: f in sh.chains && g in sh.chains && b in sh.chains[f] && b in sh.chains[g] ==>
      f == g && b != 0
    ensures forall i, j :: 0 <= i < j < |sh.free| ==> sh.free[i] != sh.free[j]
    ensures forall f :: f in sh.chains ==> forall i, j ::
      0 <= i < j < |sh.chains[f]| ==> sh.chains[f][i] != sh.chains[f][j]
  {
    GoodLists(img, sh);
    hide FreeLinked, FilesLinked, Sorted, FileOk, Good;
    if b in sh.free { InFree(|img|, sh, b); }
    forall f | f in sh.chains && b in sh.chains[f] ensures 0 < b && sh.owner[b].ChainAt? && sh.owner[b].file == f {
      InChain(|img|, sh, f, b);
    }
    forall f, i, j | f in sh.chains && 0 <= i < j < |sh.chains[f]| ensures sh.chains[f][i] != sh.chains[f][j] {
      assert ChainOwned(|img|, sh, f);
      assert sh.owner[sh.chains[f][i]] == ChainAt(f, i) && sh.owner[sh.chains[f][j]] == ChainAt(f, j);
    }
    forall i, j | 0 <= i < j < |sh.free| ensures sh.free[i] != sh.free[j] {
      assert sh.owner[sh.free[i]] == FreeAt(i) && sh.owner[sh.free[j]] == FreeAt(j);
    }
  }

  /** No file comes twice in the list. */
  lemma FilesDistinct(img: Image, files: seq<nat>, i: nat, j: nat)
    requires Sorted(img, files) && i < |files| && j < |files| && files[i] == files[j]
    ensures i == j
  {
    if i < j { LessIrreflexive(Name(img[files[i]])); }
    if j < i { LessIrreflexive(Name(img[files[i]])); }
  }
}
