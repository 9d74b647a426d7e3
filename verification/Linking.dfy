/** From instructions to bytes: a processor that decodes the bytes of finished code runs exactly the placed
    instructions, so the preservation theorem holds of the bytes the compiler writes. */
module Linking {
  import opened Words
  import opened X86
  import opened Encoder
  import opened Source
  import opened Codegen
  import opened Sizes
  import opened Execution
  import opened Preservation
  import opened Layout

  /** The instructions of the code by offset; static data is not there. */
  function PlaceAll(code: seq<Insn>): (m: map<int, (Insn, int)>)
    ensures forall pc :: pc in m ==> 0 <= pc < SizeOf(code) && m[pc].1 == pc + Size(m[pc].0) <= SizeOf(code)
    decreases |code|
  {
    if code == [] then map[]
    else
      var init, i := code[..|code| - 1], code[|code| - 1];
      assert code == init + [i];
      SizeOfSnoc(init, i);
      if i.Data? then PlaceAll(init) else PlaceAll(init)[SizeOf(init) := (i, SizeOf(init) + Size(i))]
  }

  /** Finished code: no jump waits for a label, and every place referred to is in the buffer or just past it. */
  predicate Finished(i: Insn, size: nat) { Shaped(i) && Inside(i, size) && (IsJump(i) ==> i.target.At?) }

  /** The two ways an instruction may not survive encoding: a field or variable too far for a 32-bit
      displacement, and the load through R13 that the processor misreads. */
  predicate Encodable(i: Insn) { InRange(i) && !Misread(i) }

  predicate AllFinished(code: seq<Insn>, size: nat) { forall i :: i in code ==> Finished(i, size) }

  predicate AllEncodable(code: seq<Insn>) { forall i :: i in code ==> Encodable(i) }

  lemma PlaceAllSnoc(init: seq<Insn>, i: Insn)
    ensures PlaceAll(init + [i])
      == if i.Data? then PlaceAll(init) else PlaceAll(init)[SizeOf(init) := (i, SizeOf(init) + Size(i))]
  {
    hide SizeOf, Size;
    var code := init + [i];
    assert code[..|code| - 1] == init && code[|code| - 1] == i;
  }

  lemma MembersSnoc(init: seq<Insn>, i: Insn)
    ensures forall j :: j in init ==> j in init + [i]
    ensures i in init + [i]
  {
    assert (init + [i])[|init|] == i;
    forall j | j in init ensures j in init + [i] {
      var k :| 0 <= k < |init| && init[k] == j;
      assert (init + [i])[k] == j;
    }
  }

  /** Every placed instruction is decoded from the bytes at its offset. */
  lemma {:induction false} DecodesPlaced(bytes: seq<u8>, code: seq<Insn>, size: nat, all: seq<u8>, pc: int)
    requires Matches(bytes, code) && AllFinished(code, size) && AllEncodable(code)
    requires |bytes| <= |all| && all[..|bytes|] == bytes && size < 0x8000_0000 && SizeOf(code) <= size
    requires pc in PlaceAll(code)
    ensures Decode(all, pc) == Decoded(PlaceAll(code)[pc].0, PlaceAll(code)[pc].1)
    decreases |code|
  {
    hide *;
    NothingPlaced(code, pc);
    SnocOf(code);
    var init, i := code[..|code| - 1], code[|code| - 1];
    MatchesUnfold(bytes, init, i);
    MembersSnoc(init, i);
    PlaceAllSnoc(init, i);
    SizeOfSnoc(init, i);
    MatchesLength(bytes, code);
    PlaceAllAbove(init);
    var o := SizeOf(init);
    if pc == o {
      AllAt(code, size, i);
      PlacedTail(all, bytes, o);
      DecodesOne(i, size, all, o, Previous(init, i));
    } else {
      AllPrefix(init, i, size);
      PrefixTwice(all, bytes, o);
      DecodesPlaced(bytes[..o], init, size, all, pc);
    }
  }

  lemma NothingPlaced(code: seq<Insn>, pc: int)
    requires pc in PlaceAll(code)
    ensures code != []
    ensures 0 <= pc < SizeOf(code) && PlaceAll(code)[pc].1 == pc + Size(PlaceAll(code)[pc].0) <= SizeOf(code)
    ensures !PlaceAll(code)[pc].0.Data?
  {
    if code != [] {
      var init, i := code[..|code| - 1], code[|code| - 1];
      if pc in PlaceAll(init) { NothingPlaced(init, pc); }
    }
  }

  lemma PlaceAllAbove(init: seq<Insn>)
    ensures SizeOf(init) !in PlaceAll(init)
  {
  }

  lemma AllAt(code: seq<Insn>, size: nat, i: Insn)
    requires AllFinished(code, size) && AllEncodable(code) && i in code
    ensures Finished(i, size) && Encodable(i)
  {
  }

  lemma AllPrefix(init: seq<Insn>, i: Insn, size: nat)
    requires AllFinished(init + [i], size) && AllEncodable(init + [i])
    ensures AllFinished(init, size) && AllEncodable(init)
  {
    MembersSnoc(init, i);
  }

  lemma PlacedTail(all: seq<u8>, bytes: seq<u8>, o: nat)
    requires |bytes| <= |all| && all[..|bytes|] == bytes && o <= |bytes|
    ensures Placed(all, o, bytes[o..])
  {
    assert all[o..o + |bytes[o..]|] == all[..|bytes|][o..];
  }

  lemma PrefixTwice(all: seq<u8>, bytes: seq<u8>, o: nat)
    requires |bytes| <= |all| && all[..|bytes|] == bytes && o <= |bytes|
    ensures |bytes[..o]| <= |all| && all[..|bytes[..o]|] == bytes[..o]
  {
  }

  lemma DecodesOne(i: Insn, size: nat, all: seq<u8>, o: nat, previous: Option<nat>)
    requires Finished(i, size) && Encodable(i) && !i.Data? && o + Size(i) <= size < 0x8000_0000
    requires Placed(all, o, InsnBytes(i, o, previous))
    ensures Decode(all, o) == Decoded(i, o + Size(i))
  {
    ReachInside(i, size, o);
    hide Decode, Misread, InReach, Placed, Bytes, Size, IsJump, Shaped;
    RoundTrip(i, all, o);
  }

  lemma ReachInside(i: Insn, size: nat, o: nat)
    requires Finished(i, size) && o + Size(i) <= size < 0x8000_0000
    ensures InReach(i, o)
    ensures forall previous :: InsnBytes(i, o, previous) == Bytes(i, o)
  {
    hide Shaped;
  }

  /** Running the bytes is running the placed instructions. */
  lemma {:induction false} BytesRun(base: int, bytes: seq<u8>, code: seq<Insn>, size: nat, s: State, k: nat)
    requires Matches(bytes, code) && AllFinished(code, size) && AllEncodable(code) && |bytes| <= size < 0x8000_0000
    requires Run(Machine(base, PlaceAll(code)), s, k).Some?
    ensures ByteRun(base, bytes, s, k) == Run(Machine(base, PlaceAll(code)), s, k)
    decreases k
  {
    hide Exec, Decode, PlaceAll, Matches, AllFinished, AllEncodable;
    if k > 0 {
      MatchesLength(bytes, code);
      assert bytes[..|bytes|] == bytes;
      DecodesPlaced(bytes, code, size, bytes, s.pc);
      var t := Step(Machine(base, PlaceAll(code)), s).value;
      BytesRun(base, bytes, code, size, t, k - 1);
    }
  }

  lemma BytesStuck(base: int, bytes: seq<u8>, code: seq<Insn>, size: nat, s: State)
    requires Matches(bytes, code) && AllFinished(code, size) && AllEncodable(code) && |bytes| <= size < 0x8000_0000
    requires Stuck(Machine(base, PlaceAll(code)), s)
    ensures ByteStep(base, bytes, s).None?
  {
    hide Exec, Decode, PlaceAll, Matches, AllFinished, AllEncodable;
    MatchesLength(bytes, code);
    assert bytes[..|bytes|] == bytes;
    DecodesPlaced(bytes, code, size, bytes, s.pc);
  }

  // ----- placed segments -----

  /** `part` occurs in the code at offset pc. */
  ghost predicate Segment(code: seq<Insn>, pc: int, part: seq<Insn>) {
    exists a, c :: code == a + part + c && SizeOf(a) == pc
  }

  predicate NoData(code: seq<Insn>) { forall i :: i in code ==> !i.Data? }

  lemma {:induction false} PlacedAt(base: int, a: seq<Insn>, i: Insn, c: seq<Insn>)
    requires !i.Data?
    ensures var m := PlaceAll(a + [i] + c);
      SizeOf(a) in m && m[SizeOf(a)] == (i, SizeOf(a) + Size(i))
    decreases |c|
  {
    hide Size, SizeOf;
    if c == [] {
      assert a + [i] + c == a + [i];
      PlaceAllSnoc(a, i);
    } else {
      var d, j := c[..|c| - 1], c[|c| - 1];
      PlacedAt(base, a, i, d);
      assert a + [i] + c == (a + [i] + d) + [j];
      PlaceAllSnoc(a + [i] + d, j);
      PlaceAllAbove(a + [i] + d);
    }
  }

  lemma {:induction false} SegmentPlaced(base: int, a: seq<Insn>, part: seq<Insn>, c: seq<Insn>)
    requires NoData(part)
    ensures CodeAt(Machine(base, PlaceAll(a + part + c)), SizeOf(a), part)
    decreases |part|
  {
    hide PlaceAll, SizeOf, Size;
    if part != [] {
      var i, rest := part[0], part[1..];
      assert a + part + c == a + [i] + (rest + c);
      PlacedAt(base, a, i, rest + c);
      assert a + part + c == (a + [i]) + rest + c;
      assert forall j :: j in rest ==> j in part;
      SegmentPlaced(base, a + [i], rest, c);
      SizeOfSnoc(a, i);
    }
  }
}
