/** The 512-byte blocks of the Toys file system. The first word of a block is its link: 512 plus the number of the next
    block, or, in the last block of a file, how many of its bytes are used. */
module Blocks {
  import opened Words

  type Block = b: seq<u8> | |b| == 512 witness seq(512, _ => 0)

  /** Word k of a block: 0 is the link, 1 the next file, 2 the length of the name. */
  function Word(b: Block, k: nat): u64
    requires k <= 2
  {
    From64(b[8 * k..8 * k + 8])
  }

  function SetWord(b: Block, k: nat, v: u64): Block
    requires k <= 2
  {
    b[..8 * k] + LE64(v) + b[8 * k + 8..]
  }

  function Link(b: Block): u64 { Word(b, 0) }

  function NextFile(b: Block): u64 { Word(b, 1) }

  function NameLength(b: Block): u64 { Word(b, 2) }

  /** block_get_next. */
  function Next(b: Block): u64 { if Link(b) <= 512 then 0 else Link(b) - 512 }

  /** block_set_next. */
  function SetNext(b: Block, next: u64): Block { SetWord(b, 0, Wrap(next + 512)) }

  /** The block with `data` copied to an offset. */
  function Put(b: Block, offset: nat, data: seq<u8>): Block
    requires offset + |data| <= 512
  {
    b[..offset] + data + b[offset + |data|..]
  }

  function Name(b: Block): seq<u8>
    requires NameLength(b) <= 488
  {
    b[24..24 + NameLength(b)]
  }

  lemma WordOfSet(b: Block, k: nat, v: u64)
    requires k <= 2
    ensures Word(SetWord(b, k, v), k) == v
  {
    hide LE64, From64;
    From64OfLE64(v);
    assert SetWord(b, k, v)[8 * k..8 * k + 8] == LE64(v);
  }

  lemma WordOfSetOther(b: Block, k: nat, v: u64, j: nat)
    requires k <= 2 && j <= 2 && j != k
    ensures Word(SetWord(b, k, v), j) == Word(b, j)
  {
    hide LE64, From64;
    assert SetWord(b, k, v)[8 * j..8 * j + 8] == b[8 * j..8 * j + 8];
  }

  /** What setting a word leaves as it was. */
  lemma SetWordFrame(b: Block, k: nat, v: u64)
    requires k <= 2
    ensures SetWord(b, k, v)[8 * k + 8..] == b[8 * k + 8..]
    ensures forall i, j :: 8 * k + 8 <= i <= j <= 512 ==> SetWord(b, k, v)[i..j] == b[i..j]
  {
    hide LE64;
    forall i, j | 8 * k + 8 <= i <= j <= 512 ensures SetWord(b, k, v)[i..j] == b[i..j] {
    }
  }

  lemma SetLinkFacts(b: Block, v: u64)
    ensures var r := SetWord(b, 0, v);
      Link(r) == v && NextFile(r) == NextFile(b) && NameLength(r) == NameLength(b)
      && (NameLength(b) <= 488 ==> Name(r) == Name(b))
      && forall i, j :: 8 <= i <= j <= 512 ==> r[i..j] == b[i..j]
  {
    hide SetWord, Word;
    WordOfSet(b, 0, v);
    WordOfSetOther(b, 0, v, 1);
    WordOfSetOther(b, 0, v, 2);
    SetWordFrame(b, 0, v);
  }

  lemma SetNextFileFacts(b: Block, v: u64)
    ensures var r := SetWord(b, 1, v);
      NextFile(r) == v && Link(r) == Link(b) && NameLength(r) == NameLength(b)
      && (NameLength(b) <= 488 ==> Name(r) == Name(b))
      && forall i, j :: 16 <= i <= j <= 512 ==> r[i..j] == b[i..j]
  {
    hide SetWord, Word;
    WordOfSet(b, 1, v);
    WordOfSetOther(b, 1, v, 0);
    WordOfSetOther(b, 1, v, 2);
    SetWordFrame(b, 1, v);
  }

  /** Copying data after the header of a block. */
  lemma PutFacts(b: Block, offset: nat, data: seq<u8>)
    requires 8 <= offset && offset + |data| <= 512
    ensures var r := Put(b, offset, data);
      Link(r) == Link(b) && (offset >= 24 ==> NextFile(r) == NextFile(b) && NameLength(r) == NameLength(b))
      && r[..offset] == b[..offset] && r[offset..offset + |data|] == data
      && r[offset + |data|..] == b[offset + |data|..]
      && (NameLength(b) <= 488 && offset >= 24 + NameLength(b) ==> NameLength(r) == NameLength(b) && Name(r) == Name(b))
  {
    hide From64;
    var r := Put(b, offset, data);
    assert forall i, j :: 0 <= i <= j <= offset ==> r[i..j] == b[i..j];
    assert r[0..8] == b[0..8];
    if offset >= 24 {
      assert r[8..16] == b[8..16] && r[16..24] == b[16..24];
    }
  }

  // ----- names -----

  /** The order of names, byte by byte. */
  predicate Less(x: seq<u8>, y: seq<u8>) {
    if y == [] then false
    else if x == [] then true
    else x[0] < y[0] || (x[0] == y[0] && Less(x[1..], y[1..]))
  }

  lemma {:induction false} LessTrans(x: seq<u8>, y: seq<u8>, z: seq<u8>)
    requires Less(x, y) && Less(y, z)
    ensures Less(x, z)
    decreases |x|
  {
    if x != [] && x[0] == y[0] && y[0] == z[0] { LessTrans(x[1..], y[1..], z[1..]); }
  }

  lemma {:induction false} LessIrreflexive(x: seq<u8>)
    ensures !Less(x, x)
    decreases |x|
  {
    if x != [] { LessIrreflexive(x[1..]); }
  }

  lemma LessNotBoth(x: seq<u8>, y: seq<u8>)
    requires Less(x, y)
    ensures !Less(y, x) && x != y
  {
    if Less(y, x) { LessTrans(x, y, x); }
    LessIrreflexive(x);
  }

  /** Place k decides that x comes before y: they are the same up to it, and there x ends or has the smaller byte. */
  predicate DecidesAt(x: seq<u8>, y: seq<u8>, k: nat) {
    k <= |x| && k < |y| && x[..k] == y[..k] && (k == |x| || x[k] < y[k])
  }

  /** A name is less than another one exactly if one place decides so. */
  lemma LessMeans(x: seq<u8>, y: seq<u8>)
    ensures Less(x, y) <==> exists k: nat :: DecidesAt(x, y, k)
  {
    forall k: nat | DecidesAt(x, y, k) ensures Less(x, y) {
      LessAfterPrefix(x, y, k);
    }
    if Less(x, y) { var k := FirstDifference(x, y); }
  }

  lemma {:induction false} FirstDifference(x: seq<u8>, y: seq<u8>) returns (k: nat)
    requires Less(x, y)
    ensures DecidesAt(x, y, k)
    decreases |x|
  {
    k := 0;
    if x != [] && x[0] == y[0] {
      var j := FirstDifference(x[1..], y[1..]);
      k := j + 1;
      assert x[..k] == [x[0]] + x[1..][..j] && y[..k] == [y[0]] + y[1..][..j];
    }
  }

  datatype Order = EQUAL | SMALLER | GREATER

  ghost predicate IsOrder(o: Order, x: seq<u8>, y: seq<u8>) {
    match o
    case EQUAL => x == y
    case SMALLER => Less(x, y)
    case GREATER => Less(y, x)
  }

  lemma {:induction false} LessAfterPrefix(x: seq<u8>, y: seq<u8>, k: nat)
    requires k <= |x| && k <= |y| && x[..k] == y[..k]
    ensures Less(x, y) <==> Less(x[k..], y[k..])
    decreases k
  {
    if k > 0 {
      assert x[0] == x[..k][0] && y[0] == y[..k][0];
      assert x[1..][..k - 1] == x[..k][1..] && y[1..][..k - 1] == y[..k][1..];
      LessAfterPrefix(x[1..], y[1..], k - 1);
      assert x[1..][k - 1..] == x[k..] && y[1..][k - 1..] == y[k..];
    } else {
      assert x[0..] == x && y[0..] == y;
    }
  }

  /** disk_compare_file_name: the order of the name in a block and another name. */
  method CompareNames(x: seq<u8>, y: seq<u8>) returns (o: Order)
    ensures IsOrder(o, x, y)
    ensures o == EQUAL <==> x == y
    ensures o == SMALLER <==> Less(x, y)
    ensures o == GREATER <==> Less(y, x)
  {
    var i := 0;
    while i < |x| && i < |y|
      invariant i <= |x| && i <= |y| && x[..i] == y[..i]
    {
      LessAfterPrefix(x, y, i);
      LessAfterPrefix(y, x, i);
      if x[i] != y[i] { Decided(x, y); }
      if x[i] < y[i] { return SMALLER; }
      if x[i] > y[i] { return GREATER; }
      i := i + 1;
    }
    LessAfterPrefix(x, y, i);
    LessAfterPrefix(y, x, i);
    assert x == x[..i] + x[i..] && y == y[..i] + y[i..];
    LessIrreflexive(x);
    if |x| < |y| {
      o := SMALLER;
      LessNotBoth(x, y);
    } else if |x| > |y| {
      o := GREATER;
      LessNotBoth(y, x);
    } else {
      o := EQUAL;
    }
  }

  lemma Decided(x: seq<u8>, y: seq<u8>)
    ensures Less(x, y) ==> !Less(y, x) && x != y
    ensures Less(y, x) ==> !Less(x, y) && x != y
  {
    if Less(x, y) { LessNotBoth(x, y); }
    if Less(y, x) { LessNotBoth(y, x); }
  }
}
