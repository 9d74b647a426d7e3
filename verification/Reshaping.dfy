/** What each operation of the file system makes of the lists threaded through the blocks, and why the image stays
    good if its blocks are changed accordingly. */
module Reshaping {
  import opened Words
  import opened Blocks
  import opened Volumes

  /** The header words of the first block of a file. */
  predicate SameHead(b: Block, b1: Block) {
    NextFile(b1) == NextFile(b) && NameLength(b1) == NameLength(b) && (NameLength(b) <= 488 ==> Name(b1) == Name(b))
  }

  predicate NamedAs(b: Block, b1: Block) { NameOk(b) && NameOk(b1) && Name(b1) == Name(b) }

  /** The files are still listed and sorted if the heads of their first blocks are the same. */
  lemma FilesFrame(img: Image, img1: Image, files: seq<nat>)
    requires |img1| == |img| > 0 && FilesLinked(img, files) && Sorted(img, files)
      && NextFile(img1[0]) == NextFile(img[0])
    requires forall i :: 0 <= i < |files| ==> files[i] < |img| && SameHead(img[files[i]], img1[files[i]])
    ensures FilesLinked(img1, files) && Sorted(img1, files)
  {
    hide Name, NameLength, NextFile, ValidName, Less;
    forall i | 0 <= i < |files| ensures NameOk(img1[files[i]]) && Name(img1[files[i]]) == Name(img[files[i]]) {
      assert SameHead(img[files[i]], img1[files[i]]);
    }
  }

  /** The file of each chain is its first block. */
  lemma FileOwner(n: nat, sh: Shape, f: nat)
    requires Owned(n, sh) && f in sh.chains
    ensures 0 < f < n && sh.owner[f] == ChainAt(f, 0) && |sh.chains[f]| > 0
  {
    assert ChainOwned(n, sh, f);
    assert sh.owner[sh.chains[f][0]] == ChainAt(f, 0);
  }

  // ----- blocks taken from the free list for a file -----

  function Appended(sh: Shape, f: nat, k: nat): Shape
    requires f in sh.chains && k <= |sh.free|
  {
    var c := sh.chains[f];
    Shape(sh.free[k..], sh.files, sh.chains[f := c + sh.free[..k]],
          seq(|sh.owner|, b requires 0 <= b < |sh.owner| => AppendedOwner(sh.owner[b], f, |c|, k)))
  }

  function AppendedOwner(o: Owner, f: nat, len: nat, k: nat): Owner {
    if !o.FreeAt? then o else if o.place < k then ChainAt(f, len + o.place) else FreeAt(o.place - k)
  }

  lemma AppendedOwned(n: nat, sh: Shape, f: nat, k: nat)
    requires Owned(n, sh) && f in sh.chains && k <= |sh.free|
    ensures Owned(n, Appended(sh, f, k))
  {
    var c, sh1 := sh.chains[f], Appended(sh, f, k);
    assert ChainOwned(n, sh, f);
    forall b | 0 < b < n ensures OwnerHas(sh1, b) {
      assert OwnerHas(sh, b);
    }
    forall i | 0 <= i < |sh1.free| ensures 0 < sh1.free[i] < n && sh1.owner[sh1.free[i]] == FreeAt(i) {
      assert sh1.free[i] == sh.free[k + i] && sh.owner[sh.free[k + i]] == FreeAt(k + i);
    }
    forall g | g in sh1.chains ensures ChainOwned(n, sh1, g) {
      assert ChainOwned(n, sh, g);
      if g == f {
        forall i | 0 <= i < |c + sh.free[..k]| ensures 0 < sh1.chains[f][i] < n
          && sh1.owner[sh1.chains[f][i]] == ChainAt(f, i) {
          if i < |c| {
            assert sh.owner[c[i]] == ChainAt(f, i);
          } else {
            assert sh.owner[sh.free[i - |c|]] == FreeAt(i - |c|);
          }
        }
      } else {
        forall i | 0 <= i < |sh.chains[g]| ensures sh1.owner[sh.chains[g][i]] == ChainAt(g, i) {
          assert sh.owner[sh.chains[g][i]] == ChainAt(g, i);
        }
      }
    }
  }

  /** The block at place i of a chain. */
  lemma ChainSpot(img: Image, sh: Shape, f: nat, i: nat)
    requires Good(img, sh) && f in sh.chains && i < |sh.chains[f]|
    ensures var c := sh.chains[f];
      |sh.owner| == |img| && 0 < c[i] < |img| && sh.owner[c[i]] == ChainAt(f, i)
      && (i + 1 < |c| ==> LinksOn(img, c, i)) && c[0] == f
    ensures f < |img| && NameLength(img[f]) <= 488 && NameOk(img[f])
    ensures var c := sh.chains[f]; i + 1 == |c| ==> Header(img, c, i) <= Link(img[c[i]]) <= 512
  {
    hide FreeLinked, FilesLinked, Sorted, Link, Name, ValidName, OwnerHas;
    assert FileOk(img, sh, f) && ChainOwned(|img|, sh, f);
  }

  lemma FreeSpot(img: Image, sh: Shape, i: nat)
    requires Good(img, sh) && i < |sh.free|
    ensures |sh.owner| == |img| && 0 < sh.free[i] < |img| && sh.owner[sh.free[i]] == FreeAt(i)
    ensures Link(img[sh.free[i]]) == 512 + At(sh.free, i + 1)
  {
    hide FilesLinked, Sorted, Link, FileOk, OwnerHas, ChainOwned;
    assert sh.owner[sh.free[i]] == FreeAt(i);
  }

  /** The blocks that appending k blocks to a file may change: its last block and the blocks taken. */
  predicate Touched(sh: Shape, f: nat, k: nat, b: nat)
    requires f in sh.chains && b < |sh.owner|
  {
    (sh.owner[b].ChainAt? && sh.owner[b].file == f && sh.owner[b].place + 1 == |sh.chains[f]|)
    || (sh.owner[b].FreeAt? && sh.owner[b].place < k)
  }

  ghost predicate AppendFrame(img: Image, img1: Image, sh: Shape, f: nat, k: nat)
    requires f in sh.chains && k <= |sh.free| && |sh.owner| == |img|
  {
    var c := sh.chains[f];
    var cc := c + sh.free[..k];
    && |img1| == |img| && |c| > 0 && (forall i :: 0 <= i < |cc| ==> cc[i] < |img|)
    && (forall b :: 0 < b < |img| && !Touched(sh, f, k, b) ==> img1[b] == img[b])
    && (forall i :: |c| - 1 <= i < |cc| - 1 ==> LinksOn(img1, cc, i))
    && f < |img| && SameHead(img[f], img1[f])
  }

  lemma AppendedOthers(img: Image, img1: Image, sh: Shape, f: nat, k: nat, g: nat)
    requires Good(img, sh) && f in sh.chains && k <= |sh.free| && AppendFrame(img, img1, sh, f, k)
    requires g in sh.chains && g != f
    ensures FileOk(img1, sh, g) && |img1| == |img| && g < |img| && img1[g] == img[g]
      && SameFile(img, img1, sh.chains[g])
  {
    GoodFile(img, sh, g);
    var c := sh.chains[g];
    forall i | 0 <= i < |c| ensures img1[c[i]] == img[c[i]] {
      assert sh.owner[c[i]] == ChainAt(g, i);
      assert !Touched(sh, f, k, c[i]);
    }
    ChainFrame(img, img1, c);
  }

  lemma AppendedChain(img: Image, img1: Image, sh: Shape, f: nat, k: nat)
    requires Good(img, sh) && f in sh.chains && k <= |sh.free| && AppendFrame(img, img1, sh, f, k)
    requires var cc := sh.chains[f] + sh.free[..k];
      Header(img, sh.chains[f], |cc| - 1) <= Link(img1[cc[|cc| - 1]]) <= 512
    ensures FileOk(img1, Appended(sh, f, k), f)
  {
    hide Good, Link, Name, NameLength, ValidName;
    var c := sh.chains[f];
    var cc := c + sh.free[..k];
    ChainSpot(img, sh, f, 0);
    forall i | 0 <= i < |cc| - 1 ensures LinksOn(img1, cc, i) {
      if i < |c| - 1 {
        ChainSpot(img, sh, f, i);
        assert !Touched(sh, f, k, c[i]);
      }
    }
  }

  lemma AppendedGood(img: Image, img1: Image, sh: Shape, f: nat, k: nat)
    requires Good(img, sh) && f in sh.chains && k <= |sh.free| && AppendFrame(img, img1, sh, f, k)
    requires NextFile(img1[0]) == NextFile(img[0]) && Link(img1[0]) == 512 + At(sh.free, k)
    requires var cc := sh.chains[f] + sh.free[..k];
      Header(img, sh.chains[f], |cc| - 1) <= Link(img1[cc[|cc| - 1]]) <= 512
    ensures Good(img1, Appended(sh, f, k))
  {
    hide Link, NextFile, Name, NameLength, ValidName, Less, ChainLinked, FreeLinked, FilesLinked, Sorted, Owned,
      AppendFrame;
    var sh1 := Appended(sh, f, k);
    AppendedOwned(|img|, sh, f, k);
    AppendedChain(img, img1, sh, f, k);
    AppendedFree(img, img1, sh, f, k);
    forall g | g in sh1.chains ensures FileOk(img1, sh1, g) && g < |img| && g < |img1| && SameHead(img[g], img1[g]) {
      AppendedFile(img, img1, sh, f, k, g);
    }
    AppendedSize(img, img1, sh, f, k);
    SameFiles(img, img1, sh);
  }

  lemma AppendedSize(img: Image, img1: Image, sh: Shape, f: nat, k: nat)
    requires f in sh.chains && k <= |sh.free| && |sh.owner| == |img| && AppendFrame(img, img1, sh, f, k)
    ensures |img1| == |img|
  {
  }

  lemma AppendedFile(img: Image, img1: Image, sh: Shape, f: nat, k: nat, g: nat)
    requires Good(img, sh) && f in sh.chains && k <= |sh.free| && AppendFrame(img, img1, sh, f, k) && g in sh.chains
    ensures g != f ==> FileOk(img1, Appended(sh, f, k), g)
    ensures |img1| == |img| && g < |img| && SameHead(img[g], img1[g])
  {
    hide Good, Link, Name, NameLength, ValidName, ChainLinked;
    if g != f {
      AppendedOthers(img, img1, sh, f, k, g);
      GoodFile(img, sh, g);
    }
  }

  /** The list of files is good if the heads of the files are the same. */
  lemma SameFiles(img: Image, img1: Image, sh: Shape)
    requires Good(img, sh) && |img1| == |img| && NextFile(img1[0]) == NextFile(img[0])
    requires forall g :: g in sh.chains ==> g < |img| && SameHead(img[g], img1[g])
    ensures FilesLinked(img1, sh.files) && Sorted(img1, sh.files)
  {
    hide NextFile, Name, NameLength, SameHead, FileOk, Owned, FreeLinked;
    forall i | 0 <= i < |sh.files| ensures sh.files[i] < |img| && SameHead(img[sh.files[i]], img1[sh.files[i]]) {
      assert sh.files[i] in sh.chains;
    }
    FilesFrame(img, img1, sh.files);
  }

  lemma AppendedFree(img: Image, img1: Image, sh: Shape, f: nat, k: nat)
    requires Good(img, sh) && f in sh.chains && k <= |sh.free| && AppendFrame(img, img1, sh, f, k)
    requires Link(img1[0]) == 512 + At(sh.free, k)
    ensures FreeLinked(img1, sh.free[k..])
  {
    hide Link, Good, SameHead;
    var free := sh.free[k..];
    forall i | 0 <= i < |free| ensures free[i] < |img1| && Link(img1[free[i]]) == 512 + At(free, i + 1) {
      assert free[i] == sh.free[k + i];
      FreeSpot(img, sh, k + i);
      assert !Touched(sh, f, k, free[i]);
    }
  }

  // ----- blocks released from a file to the free list -----

  /** The blocks of file f from place r on go back to the free list; r is 1 to clear the file and 0 to delete it. */
  function Released(sh: Shape, f: nat, r: nat, files: seq<nat>): Shape
    requires f in sh.chains && r <= 1 <= |sh.chains[f]|
  {
    var c := sh.chains[f];
    Shape(c[r..] + sh.free, files, if r == 1 then sh.chains[f := c[..1]] else sh.chains - {f},
          seq(|sh.owner|, b requires 0 <= b < |sh.owner| => ReleasedOwner(sh.owner[b], f, |c|, r)))
  }

  function ReleasedOwner(o: Owner, f: nat, len: nat, r: nat): Owner
    requires r <= len
  {
    match o
    case Super => o
    case FreeAt(i) => FreeAt(i + (len - r))
    case ChainAt(g, i) => if g == f && i >= r then FreeAt(i - r) else o
  }

  lemma ReleasedOwned(n: nat, sh: Shape, f: nat, r: nat, files: seq<nat>)
    requires Owned(n, sh) && f in sh.chains && r <= 1 <= |sh.chains[f]|
    ensures Owned(n, Released(sh, f, r, files))
  {
    hide ChainOwned, OwnerHas;
    var sh1 := Released(sh, f, r, files);
    forall b | 0 < b < n ensures OwnerHas(sh1, b) {
      ReleasedHas(n, sh, f, r, files, b);
    }
    forall i | 0 <= i < |sh1.free| ensures 0 < sh1.free[i] < n && sh1.owner[sh1.free[i]] == FreeAt(i) {
      ReleasedFreeAt(n, sh, f, r, files, i);
    }
    forall g | g in sh1.chains ensures ChainOwned(n, sh1, g) {
      ReleasedChain(n, sh, f, r, files, g);
    }
  }

  lemma ReleasedHas(n: nat, sh: Shape, f: nat, r: nat, files: seq<nat>, b: nat)
    requires Owned(n, sh) && f in sh.chains && r <= 1 <= |sh.chains[f]| && 0 < b < n
    ensures OwnerHas(Released(sh, f, r, files), b)
  {
    hide ChainOwned;
    assert OwnerHas(sh, b);
  }

  lemma ReleasedFreeAt(n: nat, sh: Shape, f: nat, r: nat, files: seq<nat>, i: nat)
    requires Owned(n, sh) && f in sh.chains && r <= 1 <= |sh.chains[f]| && i < |Released(sh, f, r, files).free|
    ensures var sh1 := Released(sh, f, r, files); 0 < sh1.free[i] < n && sh1.owner[sh1.free[i]] == FreeAt(i)
  {
    hide OwnerHas;
    var c, sh1 := sh.chains[f], Released(sh, f, r, files);
    if i < |c| - r {
      assert ChainOwned(n, sh, f);
      assert sh1.free[i] == c[r + i] && sh.owner[c[r + i]] == ChainAt(f, r + i);
    } else {
      var k := i - (|c| - r);
      assert sh1.free[i] == sh.free[k] && sh.owner[sh.free[k]] == FreeAt(k);
    }
  }

  lemma ReleasedChain(n: nat, sh: Shape, f: nat, r: nat, files: seq<nat>, g: nat)
    requires Owned(n, sh) && f in sh.chains && r <= 1 <= |sh.chains[f]| && g in Released(sh, f, r, files).chains
    ensures ChainOwned(n, Released(sh, f, r, files), g)
  {
    hide OwnerHas;
    var sh1 := Released(sh, f, r, files);
    assert ChainOwned(n, sh, g);
    forall i | 0 <= i < |sh1.chains[g]| ensures 0 < sh1.chains[g][i] < n
      && sh1.owner[sh1.chains[g][i]] == ChainAt(g, i) {
      assert sh1.chains[g][i] == sh.chains[g][i];
      assert sh.owner[sh.chains[g][i]] == ChainAt(g, i);
    }
  }

  /** Files other than f, whose blocks are the same but perhaps for the next file of the first one. */
  lemma OtherFile(img: Image, img1: Image, sh: Shape, g: nat)
    requires Good(img, sh) && g in sh.chains && |img1| == |img| && g < |img|
    requires forall i :: 0 < i < |sh.chains[g]| ==>
      sh.chains[g][i] < |img| && img1[sh.chains[g][i]] == img[sh.chains[g][i]]
    requires SameData(img[g], img1[g])
    ensures FileOk(img1, sh, g) && SameFile(img, img1, sh.chains[g]) && NamedAs(img[g], img1[g])
  {
    hide Good, Link, NameLength, Name, ValidName, Content, ChainLinked, ChainOwned;
    GoodFile(img, sh, g);
    ChainStart(img, sh, g);
    ChainFrameHead(img, img1, sh.chains[g]);
    SameName(img[g], img1[g]);
  }

  lemma ChainStart(img: Image, sh: Shape, g: nat)
    requires g in sh.chains && ChainLinked(img, sh.chains[g])
    ensures |sh.chains[g]| > 0 && forall i :: 0 <= i < |sh.chains[g]| ==> sh.chains[g][i] < |img|
  {
  }

  lemma SameName(b: Block, b1: Block)
    requires SameData(b, b1) && NameLength(b) <= 488
    ensures NameLength(b1) <= 488 && Name(b1) == Name(b)
  {
    hide NameLength;
    var n := NameLength(b);
    var x, y := b1[24..24 + n], b[24..24 + n];
    forall k | 0 <= k < n ensures x[k] == y[k] {
      assert b1[16..][8 + k] == b[16..][8 + k];
    }
  }

  /** The free list after blocks are released: the last one links to what was the first free block. */
  lemma ReleasedFree(img: Image, img1: Image, sh: Shape, f: nat, r: nat)
    requires Good(img, sh) && f in sh.chains && r <= 1 <= |sh.chains[f]| && r < |sh.chains[f]| && |img1| == |img|
    requires var c := sh.chains[f];
      (forall i :: r <= i < |c| - 1 ==> c[i] < |img| && Link(img1[c[i]]) == Link(img[c[i]]))
      && c[|c| - 1] < |img| && Link(img1[c[|c| - 1]]) == 512 + At(sh.free, 0) && Link(img1[0]) == 512 + c[r]
    requires forall i :: 0 <= i < |sh.free| ==> sh.free[i] < |img| && img1[sh.free[i]] == img[sh.free[i]]
    ensures FreeLinked(img1, sh.chains[f][r..] + sh.free)
  {
    hide Good, Link;
    var c := sh.chains[f];
    var free := c[r..] + sh.free;
    ChainSpot(img, sh, f, r);
    forall i | 0 <= i < |free| ensures free[i] < |img1| && Link(img1[free[i]]) == 512 + At(free, i + 1) {
      if i < |c| - r {
        assert free[i] == c[r + i];
        if r + i + 1 < |c| {
          ChainSpot(img, sh, f, r + i);
          assert free[i + 1] == c[r + i + 1];
        } else {
          assert At(free, i + 1) == At(sh.free, 0);
        }
      } else {
        var k := i - (|c| - r);
        FreeSpot(img, sh, k);
        assert At(free, i + 1) == At(sh.free, k + 1);
      }
    }
  }

  // ----- clearing a file -----

  ghost predicate ClearFrame(img: Image, img1: Image, sh: Shape, f: nat)
    requires f in sh.chains && |sh.owner| == |img|
  {
    var c := sh.chains[f];
    && |img1| == |img| && |c| > 0 && (forall i :: 0 <= i < |c| ==> 0 < c[i] < |img|) && f < |img|
    && (forall b :: 0 < b < |img| && b != f && b != c[|c| - 1] ==> img1[b] == img[b])
    && NextFile(img1[0]) == NextFile(img[0]) && SameHead(img[f], img1[f])
    && Link(img1[f]) == 24 + NameLength(img[f])
    && (|c| > 1 ==> Link(img1[c[|c| - 1]]) == 512 + At(sh.free, 0))
    && Link(img1[0]) == 512 + At(c[1..] + sh.free, 0)
  }

  lemma ClearedOther(img: Image, img1: Image, sh: Shape, f: nat, g: nat)
    requires Good(img, sh) && f in sh.chains && ClearFrame(img, img1, sh, f) && g in sh.chains && g != f
    ensures FileOk(img1, sh, g) && |img1| == |img| && g < |img| && SameHead(img[g], img1[g])
      && SameFile(img, img1, sh.chains[g])
  {
    hide Good, Link, NameLength, Name, NextFile, ValidName, ChainLinked, SameFile, FileOk, ChainOwned;
    var c, d := sh.chains[f], sh.chains[g];
    FileStart(img, sh, g);
    ChainSpot(img, sh, f, 0);
    ChainSpot(img, sh, f, |c| - 1);
    forall i | 0 <= i < |d| ensures d[i] < |img| && img1[d[i]] == img[d[i]] {
      ChainSpot(img, sh, g, i);
    }
    OtherFile(img, img1, sh, g);
  }

  lemma FileStart(img: Image, sh: Shape, g: nat)
    requires g in sh.chains && Good(img, sh)
    ensures |sh.chains[g]| > 0 && sh.chains[g][0] == g && 0 < g < |img|
  {
    GoodFile(img, sh, g);
  }

  lemma ClearedGood(img: Image, img1: Image, sh: Shape, f: nat)
    requires Good(img, sh) && f in sh.chains && |sh.chains[f]| > 0 && ClearFrame(img, img1, sh, f)
    ensures var sh1 := Released(sh, f, 1, sh.files); Good(img1, sh1) && FileData(img1, sh1, f) == []
  {
    hide Link, NextFile, Name, NameLength, ValidName, Less, ChainLinked, FreeLinked, FilesLinked, Sorted, Owned,
      ClearFrame;
    var sh1 := Released(sh, f, 1, sh.files);
    ReleasedOwned(|img|, sh, f, 1, sh.files);
    ClearedSelf(img, img1, sh, f);
    ClearedFree(img, img1, sh, f);
    forall g | g in sh1.chains ensures FileOk(img1, sh1, g) && g < |img| && SameHead(img[g], img1[g]) {
      if g != f { ClearedOther(img, img1, sh, f, g); }
    }
    SameFiles(img, img1, sh);
  }

  lemma ClearedSelf(img: Image, img1: Image, sh: Shape, f: nat)
    requires Good(img, sh) && f in sh.chains && |sh.chains[f]| > 0 && ClearFrame(img, img1, sh, f)
    ensures var sh1 := Released(sh, f, 1, sh.files);
      FileOk(img1, sh1, f) && f < |img| && SameHead(img[f], img1[f]) && NameLength(img1[f]) <= 488
      && FileData(img1, sh1, f) == []
    ensures |img1| == |img| && NextFile(img1[0]) == NextFile(img[0])
  {
    hide Good, Link, NextFile, Name, NameLength, ValidName;
    ChainSpot(img, sh, f, 0);
  }

  lemma ClearedFree(img: Image, img1: Image, sh: Shape, f: nat)
    requires Good(img, sh) && f in sh.chains && |sh.chains[f]| > 0 && ClearFrame(img, img1, sh, f)
    ensures FreeLinked(img1, sh.chains[f][1..] + sh.free)
  {
    hide Good, Link, NameLength, NextFile, SameHead;
    var c := sh.chains[f];
    ChainSpot(img, sh, f, 0);
    ChainSpot(img, sh, f, |c| - 1);
    forall i | 0 <= i < |sh.free| ensures sh.free[i] < |img| && img1[sh.free[i]] == img[sh.free[i]]
      && Link(img1[sh.free[i]]) == 512 + At(sh.free, i + 1) {
      FreeSpot(img, sh, i);
    }
    if |c| > 1 {
      forall i | 1 <= i < |c| - 1 ensures c[i] < |img| && Link(img1[c[i]]) == Link(img[c[i]]) {
        ChainSpot(img, sh, f, i);
      }
      ReleasedFree(img, img1, sh, f, 1);
    } else {
      assert c[1..] + sh.free == sh.free;
    }
  }

  // ----- deleting a file -----

  /** The file before place p in the list, or the superblock. */
  function Before(files: seq<nat>, p: nat): nat
    requires p <= |files|
  {
    if p == 0 then 0 else files[p - 1]
  }

  /** The block before place p of the list of files links to `next`, and nothing else of it changes. */
  predicate Relinked(img: Image, img1: Image, files: seq<nat>, p: nat, next: nat)
    requires p <= |files| && |img1| == |img| > 0
  {
    if p == 0 then NextFile(img1[0]) == next
    else
      NextFile(img1[0]) == NextFile(img[0]) && files[p - 1] < |img|
      && NextFile(img1[files[p - 1]]) == next && SameData(img[files[p - 1]], img1[files[p - 1]])
  }

  function Without(files: seq<nat>, p: nat): seq<nat>
    requires p < |files|
  {
    files[..p] + files[p + 1..]
  }

  ghost predicate DeleteFrame(img: Image, img1: Image, sh: Shape, p: nat)
    requires p < |sh.files| && sh.files[p] in sh.chains && |sh.owner| == |img|
  {
    var f := sh.files[p];
    var c := sh.chains[f];
    && |img1| == |img| > 0 && |c| > 0 && (forall i :: 0 <= i < |c| ==> 0 < c[i] < |img|) && f < |img|
    && (forall b :: 0 < b < |img| && b != Before(sh.files, p) && b != c[|c| - 1] ==> img1[b] == img[b])
    && Relinked(img, img1, sh.files, p, NextFile(img[f]))
    && Link(img1[c[|c| - 1]]) == 512 + At(sh.free, 0) && Link(img1[0]) == 512 + f
  }

  function Deleted(sh: Shape, p: nat): Shape
    requires p < |sh.files| && sh.files[p] in sh.chains && |sh.chains[sh.files[p]]| > 0
  {
    Released(sh, sh.files[p], 0, Without(sh.files, p))
  }

  /** A file of the list: its chain and its place. */
  lemma FileSpot(img: Image, sh: Shape, i: nat)
    requires Good(img, sh) && i < |sh.files|
    ensures var g := sh.files[i];
      g in sh.chains && 0 < g < |img| && |sh.owner| == |img| && sh.owner[g] == ChainAt(g, 0) && |sh.chains[g]| > 0
      && sh.chains[g][0] == g && NextFile(img[g]) == At(sh.files, i + 1) && NameOk(img[g])
    ensures forall j :: 0 <= j < |sh.files| && sh.files[j] == sh.files[i] ==> j == i
  {
    hide FreeLinked, ChainLinked, ValidName, Less, Link, Name, NextFile;
    var g := sh.files[i];
    assert g in sh.files;
    FileOwner(|img|, sh, g);
    assert ChainOwned(|img|, sh, g) && FileOk(img, sh, g);
    forall j | 0 <= j < |sh.files| && sh.files[j] == g ensures j == i {
      FilesDistinct(img, sh.files, i, j);
    }
  }

  lemma DeletedOther(img: Image, img1: Image, sh: Shape, p: nat, i: nat)
    requires Good(img, sh) && p < |sh.files| && sh.files[p] in sh.chains && DeleteFrame(img, img1, sh, p)
    requires i < |sh.files| && i != p
    ensures var g := sh.files[i];
      g in sh.chains && FileOk(img1, sh, g) && |img1| == |img| && g < |img| && NamedAs(img[g], img1[g])
      && SameFile(img, img1, sh.chains[g])
    ensures NextFile(img1[sh.files[i]]) == if i + 1 == p then NextFile(img[sh.files[p]]) else At(sh.files, i + 1)
  {
    hide Good, Link, NameLength, Name, NextFile, ValidName;
    var f, g := sh.files[p], sh.files[i];
    FileSpot(img, sh, p);
    FileSpot(img, sh, i);
    var c, d := sh.chains[f], sh.chains[g];
    if p > 0 { FileSpot(img, sh, p - 1); }
    ChainSpot(img, sh, f, |c| - 1);
    forall k | 0 < k < |d| ensures d[k] < |img| && img1[d[k]] == img[d[k]] {
      ChainSpot(img, sh, g, k);
      assert p > 0 ==> sh.owner[sh.files[p - 1]] == ChainAt(sh.files[p - 1], 0);
    }
    OtherFile(img, img1, sh, g);
  }

  lemma SortedWithout(img: Image, img1: Image, files: seq<nat>, p: nat)
    requires Sorted(img, files) && p < |files| && |img1| == |img|
    requires forall i :: 0 <= i < |files| && i != p ==> files[i] < |img| && NamedAs(img[files[i]], img1[files[i]])
    ensures Sorted(img1, Without(files, p))
  {
    hide Name, NameLength, ValidName, Less;
    var left := Without(files, p);
    forall i | 0 <= i < |left|
      ensures left[i] < |img1| && NameOk(img1[left[i]]) && left[i] == files[if i < p then i else i + 1]
      ensures NamedAs(img[left[i]], img1[left[i]])
    {
    }
    forall i, j | 0 <= i < j < |left| ensures Less(Name(img1[left[i]]), Name(img1[left[j]])) {
      assert left[i] == files[if i < p then i else i + 1] && left[j] == files[if j < p then j else j + 1];
    }
  }

  lemma DeletedAt(img: Image, img1: Image, sh: Shape, p: nat, i: nat)
    requires Good(img, sh) && p < |sh.files| && sh.files[p] in sh.chains && DeleteFrame(img, img1, sh, p)
    requires i < |sh.files| && i != p
    ensures |img1| == |img| && sh.files[i] < |img| && NamedAs(img[sh.files[i]], img1[sh.files[i]])
    ensures NextFile(img1[sh.files[i]]) == if i + 1 == p then At(sh.files, p + 1) else At(sh.files, i + 1)
  {
    hide Good, Link, NameLength, Name, NextFile, ValidName, FileOk, ChainLinked;
    FileSpot(img, sh, p);
    FileSpot(img, sh, i);
    DeletedOther(img, img1, sh, p, i);
  }

  lemma LinkedWithout(img1: Image, files: seq<nat>, p: nat)
    requires p < |files| && |img1| > 0 && NextFile(img1[0]) == (if p == 0 then At(files, 1) else At(files, 0))
    requires forall i :: 0 <= i < |files| && i != p ==>
      files[i] < |img1| && NextFile(img1[files[i]]) == if i + 1 == p then At(files, p + 1) else At(files, i + 1)
    ensures FilesLinked(img1, Without(files, p))
  {
    hide NextFile;
    var left := Without(files, p);
    forall i | 0 <= i < |left| ensures left[i] < |img1| && NextFile(img1[left[i]]) == At(left, i + 1) {
      assert left[i] == files[if i < p then i else i + 1];
    }
  }

  lemma DeletedHead(img: Image, img1: Image, sh: Shape, p: nat)
    requires Good(img, sh) && p < |sh.files| && sh.files[p] in sh.chains && DeleteFrame(img, img1, sh, p)
    ensures |img1| == |img| > 0 && NextFile(img1[0]) == if p == 0 then At(sh.files, 1) else At(sh.files, 0)
  {
    hide Good, NextFile, FileOk, Link, SameData;
    FileSpot(img, sh, p);
    GoodLists(img, sh);
  }

  lemma DeletedFiles(img: Image, img1: Image, sh: Shape, p: nat)
    requires Good(img, sh) && p < |sh.files| && sh.files[p] in sh.chains && DeleteFrame(img, img1, sh, p)
    ensures FilesLinked(img1, Without(sh.files, p)) && Sorted(img1, Without(sh.files, p))
  {
    hide *;
    GoodLists(img, sh);
    DeletedHead(img, img1, sh, p);
    forall i | 0 <= i < |sh.files| && i != p
      ensures sh.files[i] < |img| && NamedAs(img[sh.files[i]], img1[sh.files[i]])
      ensures NextFile(img1[sh.files[i]]) == if i + 1 == p then At(sh.files, p + 1) else At(sh.files, i + 1)
    {
      DeletedAt(img, img1, sh, p, i);
    }
    LinkedWithout(img1, sh.files, p);
    SortedWithout(img, img1, sh.files, p);
  }

  lemma DeletedFree(img: Image, img1: Image, sh: Shape, p: nat)
    requires Good(img, sh) && p < |sh.files| && sh.files[p] in sh.chains && DeleteFrame(img, img1, sh, p)
    ensures FreeLinked(img1, sh.chains[sh.files[p]] + sh.free)
  {
    hide Good, Link, NameLength, NextFile, Name, NameOk;
    var f := sh.files[p];
    var c := sh.chains[f];
    FileSpot(img, sh, p);
    if p > 0 { FileSpot(img, sh, p - 1); }
    ChainSpot(img, sh, f, |c| - 1);
    forall i | 0 <= i < |sh.free| ensures sh.free[i] < |img| && img1[sh.free[i]] == img[sh.free[i]] {
      FreeSpot(img, sh, i);
    }
    forall i | 0 <= i < |c| - 1 ensures c[i] < |img| && Link(img1[c[i]]) == Link(img[c[i]]) {
      ChainSpot(img, sh, f, i);
    }
    ReleasedFree(img, img1, sh, f, 0);
    assert c[0..] == c;
  }

  lemma DeletedSame(img: Image, img1: Image, sh: Shape, p: nat, g: nat)
    requires Good(img, sh) && p < |sh.files| && sh.files[p] in sh.chains && DeleteFrame(img, img1, sh, p)
    requires g in sh.chains && g != sh.files[p]
    ensures FileOk(img1, sh, g) && SameFile(img, img1, sh.chains[g]) && g in Without(sh.files, p)
  {
    GoodFile(img, sh, g);
    hide *;
    var i :| 0 <= i < |sh.files| && sh.files[i] == g;
    DeletedOther(img, img1, sh, p, i);
    WithoutAt(sh.files, p, i);
    assert Without(sh.files, p)[if i < p then i else i - 1] == g;
  }

  lemma DeletedGood(img: Image, img1: Image, sh: Shape, p: nat)
    requires Good(img, sh) && p < |sh.files| && sh.files[p] in sh.chains && |sh.chains[sh.files[p]]| > 0
      && DeleteFrame(img, img1, sh, p)
    ensures Good(img1, Deleted(sh, p))
    ensures forall g :: g in sh.chains && g != sh.files[p] ==> SameFile(img, img1, sh.chains[g])
  {
    hide Link, NextFile, Name, NameLength, ValidName, Less, ChainLinked, FreeLinked, FilesLinked, Sorted, Owned,
      DeleteFrame, NameOk, SameFile;
    var f, sh1 := sh.files[p], Deleted(sh, p);
    var c := sh.chains[f];
    FileSpot(img, sh, p);
    ReleasedOwned(|img|, sh, f, 0, Without(sh.files, p));
    assert c[0..] == c;
    DeletedFree(img, img1, sh, p);
    DeletedFiles(img, img1, sh, p);
    forall g | g in sh.chains && g != f
      ensures FileOk(img1, sh1, g) && SameFile(img, img1, sh.chains[g]) && g in sh1.files
    {
      DeletedSame(img, img1, sh, p, g);
    }
    forall g | g in sh1.files ensures g in sh1.chains {
      var i :| 0 <= i < |sh1.files| && sh1.files[i] == g;
      FileSpot(img, sh, if i < p then i else i + 1);
    }
    DeletedSize(img, img1, sh, p);
  }

  lemma WithoutAt(files: seq<nat>, p: nat, i: nat)
    requires p < |files| && i < |files| && i != p
    ensures |Without(files, p)| == |files| - 1 && Without(files, p)[if i < p then i else i - 1] == files[i]
  {
  }

  lemma DeletedSize(img: Image, img1: Image, sh: Shape, p: nat)
    requires p < |sh.files| && sh.files[p] in sh.chains && |sh.owner| == |img| && DeleteFrame(img, img1, sh, p)
    ensures |img1| == |img|
  {
  }

  // ----- creating a file -----

  function With(files: seq<nat>, p: nat, f: nat): seq<nat>
    requires p <= |files|
  {
    files[..p] + [f] + files[p..]
  }

  /** The first free block becomes a file at place p of the list. */
  function Created(sh: Shape, p: nat): Shape
    requires p <= |sh.files| && sh.free != []
  {
    var f := sh.free[0];
    Shape(sh.free[1..], With(sh.files, p, f), sh.chains[f := [f]],
          seq(|sh.owner|, b requires 0 <= b < |sh.owner| => CreatedOwner(sh.owner[b], f)))
  }

  function CreatedOwner(o: Owner, f: nat): Owner {
    if !o.FreeAt? then o else if o.place == 0 then ChainAt(f, 0) else FreeAt(o.place - 1)
  }

  lemma CreatedOwned(n: nat, sh: Shape, p: nat)
    requires Owned(n, sh) && p <= |sh.files| && sh.free != []
    ensures sh.free[0] !in sh.chains && Owned(n, Created(sh, p))
  {
    var f, sh1 := sh.free[0], Created(sh, p);
    assert sh.owner[sh.free[0]] == FreeAt(0);
    if f in sh.chains { FileOwner(n, sh, f); }
    forall b | 0 < b < n ensures OwnerHas(sh1, b) {
      assert OwnerHas(sh, b);
    }
    forall i | 0 <= i < |sh1.free| ensures 0 < sh1.free[i] < n && sh1.owner[sh1.free[i]] == FreeAt(i) {
      assert sh1.free[i] == sh.free[i + 1] && sh.owner[sh.free[i + 1]] == FreeAt(i + 1);
    }
    forall g | g in sh1.chains ensures ChainOwned(n, sh1, g) {
      if g != f {
        assert ChainOwned(n, sh, g);
        forall i | 0 <= i < |sh.chains[g]| ensures sh1.owner[sh.chains[g][i]] == ChainAt(g, i) {
          assert sh.owner[sh.chains[g][i]] == ChainAt(g, i);
        }
      }
    }
  }

  ghost predicate CreateFrame(img: Image, img1: Image, sh: Shape, p: nat, name: seq<u8>)
    requires p <= |sh.files| && sh.free != []
  {
    var f := sh.free[0];
    && |img1| == |img| > 0 && 0 < f < |img|
    && (forall b :: 0 < b < |img| && b != Before(sh.files, p) && b != f ==> img1[b] == img[b])
    && Relinked(img, img1, sh.files, p, f)
    && Link(img1[f]) == 24 + |name| && NextFile(img1[f]) == At(sh.files, p) && NameLength(img1[f]) == |name| <= 488
    && Name(img1[f]) == name && Link(img1[0]) == 512 + At(sh.free, 1)
  }

  /** The place of a name in the list: the names before it are less, those after it greater. */
  ghost predicate Belongs(img: Image, files: seq<nat>, p: nat, name: seq<u8>)
    requires p <= |files|
  {
    (forall i :: 0 <= i < p ==> Less(NameIn(img, files[i]), name)) && (forall i ::
      p <= i < |files| ==> Less(name, NameIn(img, files[i])))
  }

  lemma CreatedAt(img: Image, img1: Image, sh: Shape, p: nat, name: seq<u8>, i: nat)
    requires Good(img, sh) && p <= |sh.files| && sh.free != [] && CreateFrame(img, img1, sh, p, name) && i < |sh.files|
    ensures var g := sh.files[i];
      g in sh.chains && FileOk(img1, sh, g) && g < |img| && NamedAs(img[g], img1[g])
      && SameFile(img, img1, sh.chains[g])
    ensures |img1| == |img| && NextFile(img1[sh.files[i]]) == if i + 1 == p then sh.free[0] else At(sh.files, i + 1)
  {
    hide Good, Link, NameLength, Name, NextFile, ValidName;
    var g := sh.files[i];
    FileSpot(img, sh, i);
    GoodFile(img, sh, g);
    var d := sh.chains[g];
    if p > 0 { FileSpot(img, sh, p - 1); }
    FreeSpot(img, sh, 0);
    forall k | 0 < k < |d| ensures d[k] < |img| && img1[d[k]] == img[d[k]] {
      ChainSpot(img, sh, g, k);
      assert p > 0 ==> sh.owner[sh.files[p - 1]] == ChainAt(sh.files[p - 1], 0);
    }
    OtherFile(img, img1, sh, g);
  }

  lemma LinkedWith(img1: Image, files: seq<nat>, p: nat, f: nat)
    requires p <= |files| && 0 < f < |img1| && NextFile(img1[0]) == (if p == 0 then f else At(files, 0))
    requires NextFile(img1[f]) == At(files, p)
    requires forall i :: 0 <= i < |files| ==>
      files[i] < |img1| && NextFile(img1[files[i]]) == if i + 1 == p then f else At(files, i + 1)
    ensures FilesLinked(img1, With(files, p, f))
  {
    hide NextFile;
    var more := With(files, p, f);
    forall i | 0 <= i < |more| ensures more[i] < |img1| && NextFile(img1[more[i]]) == At(more, i + 1) {
      if i != p { assert more[i] == files[if i < p then i else i - 1]; }
    }
  }

  lemma SortedWith(img: Image, img1: Image, files: seq<nat>, p: nat, f: nat)
    requires Sorted(img, files) && p <= |files| && |img1| == |img| && f < |img| && NameOk(img1[f])
    requires Belongs(img, files, p, Name(img1[f]))
    requires forall i :: 0 <= i < |files| ==> files[i] < |img| && NamedAs(img[files[i]], img1[files[i]])
    ensures Sorted(img1, With(files, p, f))
  {
    hide Name, NameLength, ValidName, Less;
    var more := With(files, p, f);
    forall i | 0 <= i < |more|
      ensures more[i] < |img1| && NameOk(img1[more[i]])
      ensures i == p ==> more[i] == f
      ensures i != p ==> more[i] == files[if i < p then i else i - 1] && NamedAs(img[more[i]], img1[more[i]])
    {
      if i != p { assert more[i] == files[if i < p then i else i - 1]; }
    }
    forall i, j | 0 <= i < j < |more| ensures Less(Name(img1[more[i]]), Name(img1[more[j]])) {
      var oi, oj := if i < p then i else i - 1, if j < p then j else j - 1;
      if i != p { assert more[i] == files[oi]; }
      if j != p { assert more[j] == files[oj]; }
    }
  }

  ghost predicate EmptyFile(img: Image, f: nat, name: seq<u8>) {
    f < |img| && ChainLinked(img, [f]) && NameLength(img[f]) <= 488 && Name(img[f]) == name && Content(img, [f]) == []
  }

  lemma CreatedNew(img: Image, img1: Image, sh: Shape, p: nat, name: seq<u8>)
    requires Good(img, sh) && p <= |sh.files| && sh.free != [] && CreateFrame(img, img1, sh, p, name) && ValidName(name)
    ensures var f, sh1 := sh.free[0], Created(sh, p);
      f < |img1| && FileOk(img1, sh1, f) && NameOk(img1[f]) && NameLength(img1[f]) <= 488 && Name(img1[f]) == name
      && EmptyFile(img1, f, name) && NextFile(img1[f]) == At(sh.files, p) && 0 < f
    ensures |img1| == |img| > 0 && NextFile(img1[0]) == if p == 0 then sh.free[0] else At(sh.files, 0)
  {
    hide Link, NextFile, Name, NameLength, ValidName, Sorted, FileOk, Owned, Good, Content, SameData, ChainLinked,
      FreeLinked, EmptyFile;
    GoodLists(img, sh);
    CreatedFile(img1, sh, p, name);
  }

  lemma CreatedFree(img: Image, img1: Image, sh: Shape, p: nat, name: seq<u8>)
    requires Good(img, sh) && p <= |sh.files| && sh.free != [] && CreateFrame(img, img1, sh, p, name)
    ensures FreeLinked(img1, sh.free[1..])
  {
    hide Link, NextFile, Name, NameLength, ValidName, Sorted, FileOk, Owned, Good, SameData;
    FreeSpot(img, sh, 0);
    if p > 0 { FileSpot(img, sh, p - 1); }
    var free := sh.free[1..];
    forall i | 0 <= i < |free| ensures free[i] < |img1| && Link(img1[free[i]]) == 512 + At(free, i + 1) {
      assert free[i] == sh.free[i + 1];
      FreeSpot(img, sh, i + 1);
    }
  }

  lemma CreatedFile(img1: Image, sh: Shape, p: nat, name: seq<u8>)
    requires p <= |sh.files| && sh.free != [] && sh.free[0] < |img1| && ValidName(name)
    requires NameLength(img1[sh.free[0]]) == |name| <= 488 && Name(img1[sh.free[0]]) == name
    requires Link(img1[sh.free[0]]) == 24 + |name|
    ensures FileOk(img1, Created(sh, p), sh.free[0]) && NameOk(img1[sh.free[0]]) && EmptyFile(img1, sh.free[0], name)
  {
    hide Link, NextFile, Name, NameLength;
  }

  lemma CreatedGood(img: Image, img1: Image, sh: Shape, p: nat, name: seq<u8>)
    requires Good(img, sh) && p <= |sh.files| && sh.free != [] && CreateFrame(img, img1, sh, p, name) && ValidName(name)
    requires Belongs(img, sh.files, p, name)
    ensures Good(img1, Created(sh, p)) && EmptyFile(img1, sh.free[0], name)
    ensures sh.free[0] !in sh.chains && forall g :: g in sh.chains ==> SameFile(img, img1, sh.chains[g])
  {
    hide Link, NextFile, Name, NameLength, ValidName, Less, ChainLinked, FreeLinked, FilesLinked, Sorted, Owned,
         CreateFrame, NameOk, SameFile, NamedAs, Belongs, EmptyFile;
    var f, sh1 := sh.free[0], Created(sh, p);
    CreatedOwned(|img|, sh, p);
    CreatedNew(img, img1, sh, p, name);
    CreatedFree(img, img1, sh, p, name);
    forall i | 0 <= i < |sh.files|
      ensures sh.files[i] < |img| && NamedAs(img[sh.files[i]], img1[sh.files[i]])
      ensures NextFile(img1[sh.files[i]]) == if i + 1 == p then f else At(sh.files, i + 1)
    {
      CreatedAt(img, img1, sh, p, name, i);
    }
    LinkedWith(img1, sh.files, p, f);
    SortedWith(img, img1, sh.files, p, f);
    forall g | g in sh.chains ensures FileOk(img1, sh1, g) && SameFile(img, img1, sh.chains[g]) {
      assert g in sh.files;
      var i :| 0 <= i < |sh.files| && sh.files[i] == g;
      CreatedAt(img, img1, sh, p, name, i);
    }
    CreatedMembers(img, sh, p);
  }

  lemma CreatedMembers(img: Image, sh: Shape, p: nat)
    requires Good(img, sh) && p <= |sh.files| && sh.free != []
    ensures var sh1 := Created(sh, p); forall g :: g in sh1.chains <==> g in sh1.files
  {
    hide Owned, FreeLinked, FilesLinked, Sorted, FileOk;
    var f, more := sh.free[0], With(sh.files, p, sh.free[0]);
    forall g ensures g in more <==> g in sh.files || g == f {
      WithMember(sh.files, p, f, g);
    }
  }

  lemma WithMember(files: seq<nat>, p: nat, f: nat, g: nat)
    requires p <= |files|
    ensures g in With(files, p, f) <==> g in files || g == f
  {
    assert files == files[..p] + files[p..];
  }

  // ----- a new file system -----

  /** All the blocks but the superblock are free, in their order. */
  function Formatted(n: nat): Shape
    requires n > 0
  {
    Shape(seq(n - 1, i requires 0 <= i < n - 1 => i + 1), [], map[],
          [Super] + seq(n - 1, i requires 0 <= i < n - 1 => FreeAt(i)))
  }

  lemma FormattedGood(img: Image)
    requires 1 < |img| && |img| + 512 < TWO64 && NextFile(img[0]) == 0
    requires forall b :: 0 <= b < |img| ==> Link(img[b]) == 512 + (if b + 1 < |img| then b + 1 else 0)
    ensures Good(img, Formatted(|img|))
  {
    hide Link, NextFile, Formatted, Owned;
    FormattedShape(|img|);
    FormattedOwned(|img|);
    var free := Formatted(|img|).free;
    forall i | 0 <= i < |free| ensures free[i] < |img| && Link(img[free[i]]) == 512 + At(free, i + 1) {
      FormattedAt(|img|, i);
      if i + 1 < |free| { FormattedAt(|img|, i + 1); }
    }
    FormattedAt(|img|, 0);
  }

  lemma FormattedShape(n: nat)
    requires n > 1
    ensures Formatted(n).files == [] && Formatted(n).chains == map[] && |Formatted(n).free| == n - 1
  {
  }

  lemma FormattedAt(n: nat, i: nat)
    requires i < n - 1
    ensures |Formatted(n).free| == n - 1 && Formatted(n).free[i] == i + 1
  {
  }

  lemma FormattedOwned(n: nat)
    requires n > 1
    ensures Owned(n, Formatted(n))
  {
    var sh := Formatted(n);
    forall b | 0 < b < n ensures OwnerHas(sh, b) {
      assert sh.owner[b] == FreeAt(b - 1) && sh.free[b - 1] == b;
    }
    forall i | 0 <= i < |sh.free| ensures 0 < sh.free[i] < n && sh.owner[sh.free[i]] == FreeAt(i) {
      assert sh.free[i] == i + 1;
    }
  }
}
