/** Writing at the end of a file, block by block: the image between two steps, when blocks have been linked to the file
    but the superblock still says that they are free. */
module Appending {
  import opened Words
  import opened Blocks
  import opened Volumes
  import opened Reshaping

  /** The data of a chain of full blocks, with `used` bytes used of the last one. */
  ghost function SoFar(img: Image, c: seq<nat>, used: nat): seq<u8>
    requires |c| > 0 && (forall i :: 0 <= i < |c| ==> c[i] < |img|) && NameLength(img[c[0]]) <= 488
    requires Header(img, c, |c| - 1) <= used <= 512
  {
    Full(img, c, 0, |c| - 1, Header(img, c, 0)) + img[c[|c| - 1]][Header(img, c, |c| - 1)..used]
  }

  ghost predicate IsSoFar(img: Image, c: seq<nat>, used: nat, done: seq<u8>) {
    && |c| > 0 && (forall i :: 0 <= i < |c| ==> c[i] < |img|) && NameLength(img[c[0]]) <= 488
    && Header(img, c, |c| - 1) <= used <= 512 && SoFar(img, c, used) == done
  }

  /** The blocks of the file after k free blocks are taken. */
  function Taken(sh: Shape, f: nat, k: nat): seq<nat>
    requires f in sh.chains && k <= |sh.free|
  {
    sh.chains[f] + sh.free[..k]
  }

  ghost predicate Writing(img0: Image, img: Image, sh: Shape, f: nat, k: nat, used: nat, done: seq<u8>) {
    && f in sh.chains && k <= |sh.free| && |sh.owner| == |img0| && |sh.chains[f]| > 0
    && AppendFrame(img0, img, sh, f, k) && |img| == |img0| > 0 && img[0] == img0[0]
    && IsSoFar(img, Taken(sh, f, k), used, done)
    && (if k == 0 then img == img0 && used == Link(img0[sh.chains[f][|sh.chains[f]| - 1]])
        else used == 8 && img[sh.free[k - 1]] == img0[sh.free[k - 1]])
  }

  /** The last block of the chain gets data after the bytes used, and no other block but the superblock changes. */
  ghost predicate LastGets(img: Image, img1: Image, c: seq<nat>, used: nat, data: seq<u8>) {
    && |c| > 0 && |img1| == |img| && c[0] < |img| && c[|c| - 1] < |img|
    && Header(img, c, |c| - 1) <= used && used + |data| <= 512
    && (forall x :: 0 < x < |img| && x != c[|c| - 1] ==> img1[x] == img[x])
    && img1[c[|c| - 1]][Header(img, c, |c| - 1)..used + |data|] == img[c[|c| - 1]][Header(img, c, |c| - 1)..used] + data
    && (|c| == 1 ==> SameHead(img[c[0]], img1[c[0]]))
  }

  /** Before the first step. */
  lemma WriteStart(img: Image, sh: Shape, f: nat)
    requires Good(img, sh) && f in sh.chains
    ensures var c := sh.chains[f];
      |c| > 0 && c[|c| - 1] < |img| && ChainLinked(img, c) && NameLength(img[c[0]]) <= 488
      && 8 <= Link(img[c[|c| - 1]]) <= 512
      && Writing(img, img, sh, f, 0, Link(img[c[|c| - 1]]), Content(img, c))
  {
    GoodFile(img, sh, f);
    hide Good, Link, NameLength, Name;
    var c := sh.chains[f];
    hide AppendFrame, ChainLinked, Content, SoFar;
    FrameSelf(img, sh, f);
    assert Taken(sh, f, 0) == c;
    LastOf(img, c);
    ContentIs(img, c, Link(img[c[|c| - 1]]));
  }

  lemma FrameSelf(img: Image, sh: Shape, f: nat)
    requires Good(img, sh) && f in sh.chains
    ensures |sh.owner| == |img| > 0 && AppendFrame(img, img, sh, f, 0)
    ensures var c := sh.chains[f]; |c| > 0 && ChainLinked(img, c) && c[|c| - 1] < |img| && NameLength(img[c[0]]) <= 488
  {
    hide Link, NameLength, Name, FreeLinked, FilesLinked, Sorted, NextFile, OwnerHas;
    GoodFile(img, sh, f);
    assert ChainOwned(|img|, sh, f);
    assert sh.chains[f] + sh.free[..0] == sh.chains[f];
  }

  /** The blocks of the file are all different. */
  lemma TakenSpot(img: Image, sh: Shape, f: nat, k: nat, i: nat)
    requires Good(img, sh) && f in sh.chains && k <= |sh.free| && i < |Taken(sh, f, k)|
    ensures var b := Taken(sh, f, k)[i];
      0 < b < |img| && |sh.owner| == |img|
      && sh.owner[b] == (if i < |sh.chains[f]| then ChainAt(f, i) else FreeAt(i - |sh.chains[f]|))
  {
    hide Good, Link;
    if i < |sh.chains[f]| { ChainSpot(img, sh, f, i); } else { FreeSpot(img, sh, i - |sh.chains[f]|); }
  }

  lemma TakenDistinct(img: Image, sh: Shape, f: nat, k: nat, i: nat, j: nat)
    requires Good(img, sh) && f in sh.chains && k <= |sh.free| && i < j < |Taken(sh, f, k)|
    ensures Taken(sh, f, k)[i] != Taken(sh, f, k)[j]
  {
    hide Good, Taken;
    TakenSpot(img, sh, f, k, i);
    TakenSpot(img, sh, f, k, j);
  }

  /** The block with new data from `used` on, keeping what was before. */
  lemma PutData(b: Block, link: u64, o: nat, used: nat, data: seq<u8>)
    requires 8 <= o <= used && used + |data| <= 512 && (o == 8 || o == 24 + NameLength(b))
    ensures var b1 := Put(SetWord(b, 0, link), used, data);
      Link(b1) == link && b1[o..used + |data|] == b[o..used] + data
      && (o == 24 + NameLength(b) ==> SameHead(b, b1))
  {
    hide Link, NextFile, NameLength, SetWord;
    SetLinkFacts(b, link);
    var s := SetWord(b, 0, link);
    PutFacts(s, used, data);
    var b1 := Put(s, used, data);
    assert b1[o..used] == b1[..used][o..] == s[o..used] == b[o..used];
    assert b1[o..used + |data|] == b1[o..used] + b1[used..used + |data|];
  }

  /** One more block is filled and linked to the next free one. */
  lemma WriteStep(img0: Image, img: Image, img1: Image, sh: Shape, f: nat, k: nat, used: nat, done: seq<u8>,
                  data: seq<u8>)
    requires Good(img0, sh) && Writing(img0, img, sh, f, k, used, done) && k < |sh.free| && |data| == 512 - used
    requires var b := Taken(sh, f, k)[|Taken(sh, f, k)| - 1];
      img1 == img[b := Put(SetWord(img[b], 0, Wrap(sh.free[k] + 512)), used, data)]
    ensures Writing(img0, img1, sh, f, k + 1, 8, done + data)
  {
    hide Good, Link, NameLength, Name, SetWord, Put, SoFar;
    var c, c1 := Taken(sh, f, k), Taken(sh, f, k + 1);
    var l := |c| - 1;
    TakenSpot(img0, sh, f, k + 1, l);
    TakenSpot(img0, sh, f, k + 1, l + 1);
    assert c1 == c + [sh.free[k]];
    var o := Header(img, c, l);
    GoodSize(img0, sh, sh.free[k]);
    ChainSpot(img0, sh, f, 0);
    if l > 0 { TakenDistinct(img0, sh, f, k, 0, l); }
    PutData(img[c[l]], Wrap(sh.free[k] + 512), o, used, data);
    WriteFrame(img0, img, img1, sh, f, k, used, done, data);
    WriteData(img0, img, img1, sh, f, k, used, done, data);
  }

  lemma GoodSize(img: Image, sh: Shape, x: nat)
    requires Good(img, sh) && x < |img|
    ensures |img| + 512 < TWO64 && Wrap(x + 512) == x + 512
  {
    hide Owned, FreeLinked, FilesLinked, Sorted, FileOk;
  }

  lemma WriteFrame(img0: Image, img: Image, img1: Image, sh: Shape, f: nat, k: nat, used: nat, done: seq<u8>,
                   data: seq<u8>)
    requires Good(img0, sh) && Writing(img0, img, sh, f, k, used, done) && k < |sh.free| && |data| == 512 - used
    requires var b := Taken(sh, f, k)[|Taken(sh, f, k)| - 1];
      |img1| == |img| && (forall x :: 0 <= x < |img| && x != b ==> img1[x] == img[x])
      && Link(img1[b]) == sh.free[k] + 512 && (b == f ==> SameHead(img[b], img1[b]))
    ensures AppendFrame(img0, img1, sh, f, k + 1) && img1[0] == img0[0] && img1[sh.free[k]] == img0[sh.free[k]]
  {
    hide Good, Link, NameLength, Name, NextFile, IsSoFar, Touched;
    var c, c1 := Taken(sh, f, k), Taken(sh, f, k + 1);
    var l := |c| - 1;
    MoreTaken(img0, sh, f, k);
    TouchedMore(img0, sh, f, k);
    forall i | |sh.chains[f]| - 1 <= i < |c1| - 1 ensures LinksOn(img1, c1, i) {
      if i < l { assert LinksOn(img, c, i); }
    }
    if f != c[l] { assert img1[f] == img[f]; }
  }

  /** One more block: it comes after the others, and is none of them. */
  lemma MoreTaken(img: Image, sh: Shape, f: nat, k: nat)
    requires f in sh.chains && k < |sh.free| && |sh.chains[f]| > 0 && Good(img, sh)
    ensures var c, c1 := Taken(sh, f, k), Taken(sh, f, k + 1);
      var l := |c| - 1;
      c1 == c + [sh.free[k]] && 0 < c[l] < |img| && 0 < f < |img| && sh.free[k] != c[l] && 0 < sh.free[k] < |img|
      && forall i :: 0 <= i < |c1| ==> 0 < c1[i] < |img| && (i != l ==> c1[i] != c[l])
  {
    hide Good;
    var c, c1 := Taken(sh, f, k), Taken(sh, f, k + 1);
    var l := |c| - 1;
    assert c1 == c + [sh.free[k]];
    forall i | 0 <= i < |c1| ensures 0 < c1[i] < |img| && (i != l ==> c1[i] != c[l]) {
      TakenSpot(img, sh, f, k + 1, i);
      if i < l { TakenDistinct(img, sh, f, k + 1, i, l); }
      if i > l { TakenDistinct(img, sh, f, k + 1, l, i); }
    }
    assert c1[l] == c[l] && c1[l + 1] == sh.free[k];
    ChainSpot(img, sh, f, 0);
  }

  lemma TouchedMore(img: Image, sh: Shape, f: nat, k: nat)
    requires f in sh.chains && k < |sh.free| && |sh.chains[f]| > 0 && |sh.owner| == |img| && Good(img, sh)
    ensures var b := Taken(sh, f, k)[|Taken(sh, f, k)| - 1];
      b < |img| && sh.free[k] < |img| && !Touched(sh, f, k, sh.free[k]) && Touched(sh, f, k + 1, b)
      && forall x :: 0 <= x < |img| && !Touched(sh, f, k + 1, x) ==> !Touched(sh, f, k, x)
  {
    hide Good;
    TakenSpot(img, sh, f, k + 1, |Taken(sh, f, k)| - 1);
    TakenSpot(img, sh, f, k + 1, |Taken(sh, f, k)|);
  }

  lemma WriteData(img0: Image, img: Image, img1: Image, sh: Shape, f: nat, k: nat, used: nat, done: seq<u8>,
                  data: seq<u8>)
    requires Good(img0, sh) && Writing(img0, img, sh, f, k, used, done) && k < |sh.free| && |data| == 512 - used
    requires LastGets(img, img1, Taken(sh, f, k), used, data)
    ensures IsSoFar(img1, Taken(sh, f, k + 1), 8, done + data)
  {
    hide Good, Link, NameLength, Name, NextFile, AppendFrame;
    MoreTaken(img0, sh, f, k);
    assert forall i :: 0 <= i < |Taken(sh, f, k)| ==> Taken(sh, f, k + 1)[i] == Taken(sh, f, k)[i];
    GrownSoFar(img, img1, Taken(sh, f, k), sh.free[k], used, done, data);
  }

  /** The last block is full, and there is one more after it. */
  lemma GrownSoFar(img: Image, img1: Image, c: seq<nat>, b: nat, used: nat, done: seq<u8>, data: seq<u8>)
    requires IsSoFar(img, c, used, done) && LastGets(img, img1, c, used, data) && |data| == 512 - used && b < |img|
    requires forall i :: 0 <= i < |c| ==> 0 < c[i] < |img| && (i + 1 < |c| ==> c[i] != c[|c| - 1])
    ensures IsSoFar(img1, c + [b], 8, done + data)
  {
    hide Link, NameLength, Name, NextFile;
    var c1, l := c + [b], |c| - 1;
    var h, o := Header(img, c, 0), Header(img, c, l);
    assert Header(img1, c1, 0) == h;
    FullSnoc(img1, c1, 0, l, h);
    FullFrame(img, img1, c, c1, 0, l, h);
    assert img1[c[l]][o..] == img1[c[l]][o..512];
    assert img1[c1[l + 1]][8..8] == [];
  }

  /** The image after the last block is written: it holds what was written before, and the rest of the data. */
  lemma WriteEnd(img0: Image, img: Image, img1: Image, sh: Shape, f: nat, k: nat, used: nat, done: seq<u8>,
                 data: seq<u8>)
    requires Good(img0, sh) && Writing(img0, img, sh, f, k, used, done) && used + |data| <= 512
    requires LastGets(img, img1, Taken(sh, f, k), used, data) && Link(img1[Taken(sh, f, k)[|Taken(sh, f, k)| - 1]])
      == used + |data|
    requires NextFile(img1[0]) == NextFile(img[0]) && Link(img1[0]) == 512 + At(sh.free, k)
    ensures Good(img1, Appended(sh, f, k)) && HasContent(img1, Taken(sh, f, k), done + data)
  {
    hide Good, Link, NameLength, Name, NextFile, SoFar, Writing;
    EndFrame(img0, img, img1, sh, f, k, used, done, used + |data|);
    EndData(img0, img, img1, sh, f, k, used, done, data);
    AppendedGood(img0, img1, sh, f, k);
    GoodChain(img1, Appended(sh, f, k), f);
    ContentIs(img1, Taken(sh, f, k), used + |data|);
  }

  ghost predicate HasContent(img: Image, c: seq<nat>, data: seq<u8>) {
    ChainLinked(img, c) && NameLength(img[c[0]]) <= 488 && Content(img, c) == data
  }

  lemma GoodChain(img: Image, sh: Shape, f: nat)
    requires Good(img, sh) && f in sh.chains
    ensures ChainLinked(img, sh.chains[f]) && NameLength(img[sh.chains[f][0]]) <= 488
  {
    GoodFile(img, sh, f);
  }

  lemma ContentIs(img: Image, c: seq<nat>, used: nat)
    requires ChainLinked(img, c) && NameLength(img[c[0]]) <= 488 && Link(img[c[|c| - 1]]) == used
    ensures IsSoFar(img, c, used, Content(img, c))
  {
    hide Link, NameLength;
    LastOf(img, c);
    RestIsFull(img, c, 0, Header(img, c, 0));
  }

  lemma LastOf(img: Image, c: seq<nat>)
    requires ChainLinked(img, c) && NameLength(img[c[0]]) <= 488
    ensures Header(img, c, |c| - 1) <= Link(img[c[|c| - 1]]) <= 512 && Header(img, c, 0) <= End(img, c, 0)
  {
  }

  lemma EndFrame(img0: Image, img: Image, img1: Image, sh: Shape, f: nat, k: nat, used: nat, done: seq<u8>, end: nat)
    requires Good(img0, sh) && Writing(img0, img, sh, f, k, used, done) && used <= end <= 512
    requires var c := Taken(sh, f, k);
      var b := c[|c| - 1];
      |img1| == |img| && (forall x :: 0 < x < |img| && x != b ==> img1[x] == img[x])
      && Link(img1[b]) == end && (|c| == 1 ==> SameHead(img[b], img1[b]))
    requires NextFile(img1[0]) == NextFile(img[0])
    ensures f in sh.chains && k <= |sh.free| && |sh.owner| == |img0| && |sh.chains[f]| > 0 && |img1| == |img0| > 0
    ensures AppendFrame(img0, img1, sh, f, k) && NextFile(img1[0]) == NextFile(img0[0])
    ensures var c := Taken(sh, f, k); Header(img0, sh.chains[f], |c| - 1) <= Link(img1[c[|c| - 1]]) <= 512
  {
    hide Good, Link, NameLength, Name, NextFile, SoFar;
    var c := Taken(sh, f, k);
    var l := |c| - 1;
    forall i | 0 <= i < |c| ensures 0 < c[i] < |img| && (i < l ==> c[i] != c[l]) {
      TakenSpot(img0, sh, f, k, i);
      if i < l { TakenDistinct(img0, sh, f, k, i, l); }
    }
    TakenSpot(img0, sh, f, k, l);
    ChainSpot(img0, sh, f, 0);
    assert Touched(sh, f, k, c[l]);
    forall i | |sh.chains[f]| - 1 <= i < |c| - 1 ensures LinksOn(img1, c, i) {
      assert LinksOn(img, c, i);
    }
    if l > 0 {
      TakenDistinct(img0, sh, f, k, 0, l);
      assert img1[f] == img[f];
    }
  }

  lemma EndData(img0: Image, img: Image, img1: Image, sh: Shape, f: nat, k: nat, used: nat, done: seq<u8>,
                data: seq<u8>)
    requires Good(img0, sh) && Writing(img0, img, sh, f, k, used, done) && used + |data| <= 512
    requires LastGets(img, img1, Taken(sh, f, k), used, data)
    ensures IsSoFar(img1, Taken(sh, f, k), used + |data|, done + data)
  {
    hide Good, Link, NameLength, Name, NextFile, AppendFrame;
    var c := Taken(sh, f, k);
    var l := |c| - 1;
    forall i | 0 <= i < |c| ensures 0 < c[i] < |img| && (i < l ==> c[i] != c[l]) {
      TakenSpot(img0, sh, f, k, i);
      if i < l { TakenDistinct(img0, sh, f, k, i, l); }
    }
    var h := Header(img, c, 0);
    FullFrame(img, img1, c, c, 0, l, h);
  }

  /** Other files are not changed by writing. */
  lemma WriteOthers(img0: Image, img1: Image, sh: Shape, f: nat, k: nat)
    requires Good(img0, sh) && f in sh.chains && k <= |sh.free| && |sh.owner| == |img0|
      && AppendFrame(img0, img1, sh, f, k)
    ensures forall g :: g in sh.chains && g != f ==> SameFile(img0, img1, sh.chains[g])
  {
    hide Good, AppendFrame, SameFile;
    forall g | g in sh.chains && g != f ensures SameFile(img0, img1, sh.chains[g]) {
      AppendedOthers(img0, img1, sh, f, k, g);
    }
  }

  // ----- the pieces of a write -----

  lemma TakenNone(sh: Shape, f: nat)
    requires f in sh.chains
    ensures Taken(sh, f, 0) == sh.chains[f]
  {
  }

  lemma AppendedIs(sh: Shape, f: nat, k: nat)
    requires f in sh.chains && k <= |sh.free|
    ensures f in Appended(sh, f, k).chains && Appended(sh, f, k).chains[f] == Taken(sh, f, k)
    ensures forall g :: g in sh.chains && g != f ==>
      g in Appended(sh, f, k).chains && Appended(sh, f, k).chains[g] == sh.chains[g]
  {
  }

  lemma SetNextIs(b: Block, next: u64)
    requires next + 512 < TWO64
    ensures SetNext(b, next) == SetWord(b, 0, Wrap(next + 512)) && Link(SetNext(b, next)) == next + 512
    ensures NextFile(SetNext(b, next)) == NextFile(b)
  {
    hide SetWord, Link, NextFile;
    SetLinkFacts(b, next + 512);
  }

  lemma WritingUnfold(img0: Image, img: Image, sh: Shape, f: nat, k: nat, used: nat, done: seq<u8>)
    requires Writing(img0, img, sh, f, k, used, done)
    ensures f in sh.chains && k <= |sh.free| && |img| == |img0| > 0 && img[0] == img0[0]
    ensures var c := Taken(sh, f, k);
      |c| > 0 && (forall i :: 0 <= i < |c| ==> c[i] < |img|) && NameLength(img[c[0]]) <= 488
      && Header(img, c, |c| - 1) <= used <= 512
      && (k > 0 ==>
        c[|c| - 1] == sh.free[k - 1] && used == 8 && img[c[|c| - 1]] == img0[c[|c| - 1]]
        && Header(img, c, |c| - 1) == 8)
      && (k == 0 ==> img == img0 && used == Link(img0[c[|c| - 1]]))
  {
    hide AppendFrame, Link, NameLength, SoFar;
  }

  /** Writing the last bytes. */
  lemma LastPut(img0: Image, mid: Image, img1: Image, sh: Shape, f: nat, k: nat, used: nat, done: seq<u8>,
                data: seq<u8>)
    requires Good(img0, sh) && Writing(img0, mid, sh, f, k, used, done) && used + |data| <= 512
    requires var b := Taken(sh, f, k)[|Taken(sh, f, k)| - 1];
      img1 == mid[b := Put(SetWord(mid[b], 0, used + |data|), used, data)]
    ensures LastGets(mid, img1, Taken(sh, f, k), used, data)
    ensures Link(img1[Taken(sh, f, k)[|Taken(sh, f, k)| - 1]]) == used + |data| && |img1| == |mid| > 0
      && img1[0] == mid[0]
  {
    hide Good, Link, NameLength, Writing, SetWord, Put, Taken;
    WritingUnfold(img0, mid, sh, f, k, used, done);
    var c := Taken(sh, f, k);
    var l := |c| - 1;
    TakenSpot(img0, sh, f, k, l);
    PutData(mid[c[l]], used + |data|, Header(mid, c, l), used, data);
  }

  /** Leaving the last block as it is: if it was taken, its old bytes become part of the file. */
  lemma LastStale(img0: Image, mid: Image, sh: Shape, f: nat, k: nat, used: nat, done: seq<u8>, more: seq<u8>)
    requires Good(img0, sh) && Writing(img0, mid, sh, f, k, used, done) && k == |sh.free|
    requires more == if k == 0 then [] else mid[Taken(sh, f, k)[|Taken(sh, f, k)| - 1]][8..]
    ensures LastGets(mid, mid, Taken(sh, f, k), used, more)
    ensures Link(mid[Taken(sh, f, k)[|Taken(sh, f, k)| - 1]]) == used + |more|
  {
    hide Good, Link, NameLength, Writing, SetWord, Taken;
    WritingUnfold(img0, mid, sh, f, k, used, done);
    if k > 0 {
      FreeSpot(img0, sh, k - 1);
      var b := mid[sh.free[k - 1]];
      assert b[8..512] == b[8..8] + b[8..];
    } else {
      var c := Taken(sh, f, k);
      var o, b := Header(mid, c, |c| - 1), mid[c[|c| - 1]];
      assert b[o..used + 0] == b[o..used] + [];
    }
  }

  lemma PrefixDone(done: seq<u8>, rest: seq<u8>, before: seq<u8>, src: seq<u8>)
    requires done + rest == before + src && |rest| <= |src|
    ensures done == before + src[..|src| - |rest|]
  {
    assert done == (done + rest)[..|done|];
    assert before + src[..|src| - |rest|] == (before + src)[..|before| + |src| - |rest|];
  }

  /** The free list starts at another block exactly if blocks were taken. */
  lemma FreshNext(img: Image, sh: Shape, k: nat)
    requires Good(img, sh) && k <= |sh.free|
    ensures At(sh.free, k) == At(sh.free, 0) <==> k == 0
    ensures At(sh.free, k) == 0 <==> k == |sh.free|
    ensures |img| > 0 && At(sh.free, k) + 512 < TWO64 && Link(img[0]) == 512 + At(sh.free, 0)
  {
    GoodLists(img, sh);
    hide Good, Link, FilesLinked, Sorted, Owned;
    if k < |sh.free| { FreeSpot(img, sh, k); }
    if |sh.free| > 0 { FreeSpot(img, sh, 0); }
  }

  lemma SuperSame(img0: Image, mid: Image, img1: Image, sh: Shape, f: nat, k: nat, used: nat, done: seq<u8>,
                  data: seq<u8>)
    requires Good(img0, sh) && Writing(img0, mid, sh, f, k, used, done)
      && LastGets(mid, img1, Taken(sh, f, k), used, data)
    requires |img1| > 0 && img1[0] == mid[0]
    ensures |mid| > 0 && NextFile(img1[0]) == NextFile(mid[0]) && Link(img1[0]) == 512 + At(sh.free, 0)
      && |img1| == |img0|
  {
    hide Good, Link, NextFile, NameLength, Writing;
    WritingUnfold(img0, mid, sh, f, k, used, done);
    FreshNext(img0, sh, 0);
  }

  lemma SuperChange(mid: Image, img1: Image, img2: Image, c: seq<nat>, used: nat, data: seq<u8>)
    requires LastGets(mid, img1, c, used, data) && |img2| == |img1| && (forall x ::
      0 < x < |img1| ==> img2[x] == img1[x])
    requires c[|c| - 1] != 0 && c[0] != 0
    ensures LastGets(mid, img2, c, used, data)
  {
    hide NameLength, SameHead;
  }

  lemma EndOthers(img0: Image, mid: Image, img1: Image, sh: Shape, f: nat, k: nat, used: nat, done: seq<u8>,
                  data: seq<u8>)
    requires Good(img0, sh) && Writing(img0, mid, sh, f, k, used, done) && used + |data| <= 512
    requires LastGets(mid, img1, Taken(sh, f, k), used, data) && Link(img1[Taken(sh, f, k)[|Taken(sh, f, k)| - 1]])
      == used + |data|
    requires |mid| > 0 && |img1| > 0 && NextFile(img1[0]) == NextFile(mid[0])
    ensures forall g :: g in sh.chains && g != f ==> SameFile(img0, img1, sh.chains[g])
  {
    hide Good, Link, NextFile, NameLength, Writing, SameFile, AppendFrame;
    EndFrame(img0, mid, img1, sh, f, k, used, done, used + |data|);
    WriteOthers(img0, img1, sh, f, k);
  }

  lemma HasContentIs(img: Image, c: seq<nat>, data: seq<u8>)
    requires HasContent(img, c, data)
    ensures ChainLinked(img, c) && NameLength(img[c[0]]) <= 488 && Content(img, c) == data
  {
  }

  lemma EndName(img0: Image, mid: Image, img1: Image, sh: Shape, f: nat, k: nat, used: nat, done: seq<u8>,
                data: seq<u8>)
    requires Good(img0, sh) && Writing(img0, mid, sh, f, k, used, done) && used + |data| <= 512
    requires LastGets(mid, img1, Taken(sh, f, k), used, data) && Link(img1[Taken(sh, f, k)[|Taken(sh, f, k)| - 1]])
      == used + |data|
    requires |mid| > 0 && |img1| > 0 && NextFile(img1[0]) == NextFile(mid[0])
    ensures NameIn(img1, f) == NameIn(img0, f)
  {
    hide Good, Link, NextFile, NameLength, Name, Writing;
    EndFrame(img0, mid, img1, sh, f, k, used, done, used + |data|);
  }
}
