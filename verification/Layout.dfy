/** How the code buffer represents a sequence of instructions, some of which jump to a label whose place is not
    known yet. The four-byte displacements that wait for the same label form a chain: each holds its distance
    to the previous one, and the first of the chain holds 0. */
module Layout {
  import opened Words
  import opened X86
  import opened Encoder
  import opened Source
  import opened Codegen
  import opened Sizes

  /** The instruction waits for label l. */
  predicate Waits(i: Insn, l: Label) { IsJump(i) && i.target == Ref(l) }

  /** The offset of the displacement of the last instruction of code that waits for l. */
  function LastHole(code: seq<Insn>, l: Label): (p: Option<nat>)
    ensures p.Some? ==> p.value + 4 <= SizeOf(code)
    decreases |code|
  {
    if code == [] then None
    else
      var init, i := code[..|code| - 1], code[|code| - 1];
      assert code == init + [i];
      SizeOfSnoc(init, i);
      if Waits(i, l) then Some(SizeOf(init) + |JumpOpcode(i)|) else LastHole(init, l)
  }

  lemma SizeOfSnoc(init: seq<Insn>, i: Insn)
    ensures SizeOf(init + [i]) == SizeOf(init) + Size(i)
  {
    SizeOfConcat(init, [i]);
    SizeOfOne(i);
  }

  /** The bytes of an instruction at offset pc; `previous` is the place before its own in the chain of its
      label, if it waits for one. */
  function InsnBytes(i: Insn, pc: nat, previous: Option<nat>): (b: seq<u8>)
    requires Shaped(i)
    ensures |b| == Size(i)
  {
    if IsJump(i) && i.target.Ref? then
      JumpOpcode(i) + LE32(if previous.None? then 0 else pc + |JumpOpcode(i)| - previous.value)
    else Bytes(i, pc)
  }

  function Previous(code: seq<Insn>, i: Insn): Option<nat> {
    if IsJump(i) && i.target.Ref? then LastHole(code, i.target.chain) else None
  }

  /** The bytes represent the instructions. */
  ghost predicate Matches(bytes: seq<u8>, code: seq<Insn>)
    decreases |code|
  {
    if code == [] then bytes == []
    else
      var init, i := code[..|code| - 1], code[|code| - 1];
      var o := SizeOf(init);
      Shaped(i) && |bytes| == o + Size(i) && Matches(bytes[..o], init)
      && bytes[o..] == InsnBytes(i, o, Previous(init, i))
  }

  lemma MatchesLength(bytes: seq<u8>, code: seq<Insn>)
    requires Matches(bytes, code)
    ensures |bytes| == SizeOf(code)
  {
    hide InsnBytes, Previous, Shaped, Size;
    if code != [] {
      var init, i := code[..|code| - 1], code[|code| - 1];
      assert code == init + [i];
      SizeOfSnoc(init, i);
    }
  }

  lemma MatchesSnoc(bytes: seq<u8>, code: seq<Insn>, i: Insn, b: seq<u8>)
    requires Matches(bytes, code) && Shaped(i) && b == InsnBytes(i, SizeOf(code), Previous(code, i))
    ensures Matches(bytes + b, code + [i])
  {
    MatchesLength(bytes, code);
    var all := code + [i];
    assert all[..|all| - 1] == code && all[|all| - 1] == i;
    assert (bytes + b)[..|bytes|] == bytes && (bytes + b)[|bytes|..] == b;
  }

  /** Erasing the last instruction. */
  lemma MatchesInit(bytes: seq<u8>, code: seq<Insn>, i: Insn)
    requires Matches(bytes, code + [i])
    ensures SizeOf(code) <= |bytes| && Matches(bytes[..SizeOf(code)], code)
  {
    var all := code + [i];
    assert all[..|all| - 1] == code && all[|all| - 1] == i;
  }

  // ----- resolving a label -----

  function WithTarget(i: Insn, t: Target): Insn
    requires IsJump(i)
  {
    match i
    case Jcc(c, _) => Jcc(c, t)
    case Jmp(_) => Jmp(t)
    case Call(_) => Call(t)
  }

  function Resolve(i: Insn, l: Label, t: Target): Insn {
    if Waits(i, l) then WithTarget(i, t) else i
  }

  /** Every jump to l now goes to t. */
  function Subst(code: seq<Insn>, l: Label, t: Target): (r: seq<Insn>)
    ensures |r| == |code|
    decreases |code|
  {
    if code == [] then [] else [Resolve(code[0], l, t)] + Subst(code[1..], l, t)
  }

  /** The last jump to l now goes to t. */
  function ResolveLast(code: seq<Insn>, l: Label, t: Target): (r: seq<Insn>)
    ensures |r| == |code|
    decreases |code|
  {
    if code == [] then []
    else
      var init, i := code[..|code| - 1], code[|code| - 1];
      if Waits(i, l) then init + [WithTarget(i, t)] else ResolveLast(init, l, t) + [i]
  }

  lemma {:induction false} SubstConcat(a: seq<Insn>, b: seq<Insn>, l: Label, t: Target)
    ensures Subst(a + b, l, t) == Subst(a, l, t) + Subst(b, l, t)
    decreases |a|
  {
    if a == [] {
      assert a + b == b;
    } else {
      assert (a + b)[1..] == a[1..] + b;
      SubstConcat(a[1..], b, l, t);
    }
  }

  lemma SubstOne(i: Insn, l: Label, t: Target)
    ensures Subst([i], l, t) == [Resolve(i, l, t)]
  {
    assert Subst([i][1..], l, t) == [];
  }

  lemma ResolveSize(i: Insn, l: Label, t: Target)
    ensures Size(Resolve(i, l, t)) == Size(i)
  {
  }

  lemma {:induction false} SubstSize(code: seq<Insn>, l: Label, t: Target)
    ensures SizeOf(Subst(code, l, t)) == SizeOf(code)
    decreases |code|
  {
    if code != [] {
      ResolveSize(code[0], l, t);
      SubstSize(code[1..], l, t);
      assert Subst(code, l, t)[1..] == Subst(code[1..], l, t);
    }
  }

  /** No instruction waits for l. */
  predicate Free(code: seq<Insn>, l: Label) {
    forall i :: 0 <= i < |code| ==> !Waits(code[i], l)
  }

  lemma {:induction false} SubstFree(code: seq<Insn>, l: Label, t: Target)
    requires Free(code, l)
    ensures Subst(code, l, t) == code
    decreases |code|
  {
    if code != [] {
      SubstFree(code[1..], l, t);
      assert !Waits(code[0], l);
      assert code == [code[0]] + code[1..];
    }
  }

  lemma {:induction false} FreeHasNoHole(code: seq<Insn>, l: Label)
    ensures LastHole(code, l).None? <==> Free(code, l)
    decreases |code|
  {
    if code != [] {
      var init := code[..|code| - 1];
      FreeHasNoHole(init, l);
      if Free(code, l) {
        forall i | 0 <= i < |init| ensures !Waits(init[i], l) { assert init[i] == code[i]; }
      } else {
        var i :| 0 <= i < |code| && Waits(code[i], l);
        if i < |init| { assert Waits(init[i], l); }
      }
    }
  }

  lemma {:induction false} ResolveLastSubst(code: seq<Insn>, l: Label, t: Target)
    requires t.At?
    ensures Subst(ResolveLast(code, l, t), l, t) == Subst(code, l, t)
    decreases |code|
  {
    if code != [] {
      var init, i := code[..|code| - 1], code[|code| - 1];
      assert code == init + [i];
      SubstConcat(init, [i], l, t);
      SubstOne(i, l, t);
      if Waits(i, l) {
        SubstConcat(init, [WithTarget(i, t)], l, t);
        SubstOne(WithTarget(i, t), l, t);
      } else {
        ResolveLastSubst(init, l, t);
        SubstConcat(ResolveLast(init, l, t), [i], l, t);
      }
    }
  }

  lemma {:induction false} ResolveLastSize(code: seq<Insn>, l: Label, t: Target)
    ensures SizeOf(ResolveLast(code, l, t)) == SizeOf(code)
    decreases |code|
  {
    if code != [] {
      var init, i := code[..|code| - 1], code[|code| - 1];
      assert code == init + [i];
      SizeOfSnoc(init, i);
      if Waits(i, l) {
        ResolveSize(i, l, t);
        SizeOfSnoc(init, WithTarget(i, t));
      } else {
        ResolveLastSize(init, l, t);
        SizeOfSnoc(ResolveLast(init, l, t), i);
      }
    }
  }

  /** Resolving the last jump to l takes one link off the chain of l and leaves the other chains alone. */
  lemma {:induction false} ResolveLastHoles(code: seq<Insn>, l: Label, t: Target, other: Label)
    requires t.At? && other != l
    ensures LastHole(ResolveLast(code, l, t), other) == LastHole(code, other)
    decreases |code|
  {
    if code != [] {
      var init, i := code[..|code| - 1], code[|code| - 1];
      var r := ResolveLast(code, l, t);
      if Waits(i, l) {
        assert r[..|r| - 1] == init && r[|r| - 1] == WithTarget(i, t);
      } else {
        ResolveLastHoles(init, l, t, other);
        ResolveLastSize(init, l, t);
        assert r[..|r| - 1] == ResolveLast(init, l, t) && r[|r| - 1] == i;
      }
    }
  }

  /** Writing a word at offset p. */
  function Patch(bytes: seq<u8>, p: nat, w: seq<u8>): (r: seq<u8>)
    requires |w| == 4 && p + 4 <= |bytes|
    ensures |r| == |bytes|
  {
    bytes[..p] + w + bytes[p + 4..]
  }

  lemma SameOpcode(i: Insn, t: Target)
    requires IsJump(i)
    ensures IsJump(WithTarget(i, t)) && WithTarget(i, t).target == t
    ensures JumpOpcode(WithTarget(i, t)) == JumpOpcode(i) && Size(WithTarget(i, t)) == Size(i) == |JumpOpcode(i)| + 4
    ensures Shaped(WithTarget(i, t))
  {
  }

  lemma MatchesUnfold(bytes: seq<u8>, init: seq<Insn>, i: Insn)
    requires Matches(bytes, init + [i])
    ensures var o := SizeOf(init);
      Shaped(i) && |bytes| == o + Size(i) && Matches(bytes[..o], init)
      && bytes[o..] == InsnBytes(i, o, Previous(init, i))
  {
    var code := init + [i];
    assert code[..|code| - 1] == init && code[|code| - 1] == i;
  }

  lemma LastHoleSnoc(init: seq<Insn>, i: Insn, l: Label)
    ensures LastHole(init + [i], l) == if Waits(i, l) then Some(SizeOf(init) + |JumpOpcode(i)|) else LastHole(init, l)
  {
    hide SizeOf, JumpOpcode, Waits;
    var code := init + [i];
    assert code[..|code| - 1] == init && code[|code| - 1] == i;
  }

  lemma ResolveLastSnoc(init: seq<Insn>, i: Insn, l: Label, t: Target)
    ensures ResolveLast(init + [i], l, t) == if Waits(i, l) then init + [WithTarget(i, t)]
      else ResolveLast(init, l, t) + [i]
  {
    var code := init + [i];
    assert code[..|code| - 1] == init && code[|code| - 1] == i;
  }

  /** The bytes of a waiting jump: its opcode and its link. */
  lemma WaitingBytes(init: seq<Insn>, i: Insn, l: Label, o: nat)
    requires Waits(i, l) && o == SizeOf(init)
    ensures var p := o + |JumpOpcode(i)|; var previous := LastHole(init, l);
      Shaped(i) && Size(i) == |JumpOpcode(i)| + 4
      && InsnBytes(i, o, Previous(init, i)) == JumpOpcode(i) + LE32(if previous.None? then 0 else p - previous.value)
  {
    hide LE32, LastHole;
    SameOpcode(i, i.target);
  }

  lemma ResolvedBytes(init: seq<Insn>, i: Insn, o: nat, target: int)
    requires IsJump(i)
    ensures var j, p := WithTarget(i, At(target)), o + |JumpOpcode(i)|;
      Shaped(j) && InsnBytes(j, o, Previous(init, j)) == JumpOpcode(i) + LE32(target - (p + 4))
  {
    hide LE32, LastHole, JumpOpcode;
    SameOpcode(i, At(target));
  }

  lemma PatchSplit(bytes: seq<u8>, o: nat, op: seq<u8>, link: seq<u8>, w: seq<u8>)
    requires |link| == 4 && |w| == 4 && o <= |bytes| && bytes[o..] == op + link
    ensures o + |op| + 4 == |bytes| && bytes[o + |op|..o + |op| + 4] == link
    ensures Patch(bytes, o + |op|, w) == bytes[..o] + (op + w)
  {
    var p := o + |op|;
    assert |bytes| == p + 4;
    assert bytes[p..p + 4] == bytes[o..][|op|..];
    assert bytes[..p] == bytes[..o] + bytes[o..][..|op|];
  }

  /** Code that ends with a waiting jump: the bytes before it, and those of the jump. */
  lemma WaitingEnd(bytes: seq<u8>, init: seq<Insn>, i: Insn, l: Label)
    requires Matches(bytes, init + [i]) && Waits(i, l)
    ensures var o, op, previous := SizeOf(init), JumpOpcode(i), LastHole(init, l);
      IsJump(i) && o <= |bytes| && Matches(bytes[..o], init)
      && bytes[o..] == op + LE32(if previous.None? then 0 else o + |op| - previous.value)
  {
    hide *;
    WaitsIsJump(i, l);
    MatchesUnfold(bytes, init, i);
    WaitingBytes(init, i, l, SizeOf(init));
  }

  /** A resolved jump after the bytes of the code before it. */
  lemma ResolvedEnd(head: seq<u8>, init: seq<Insn>, i: Insn, target: int)
    requires Matches(head, init) && IsJump(i)
    ensures var op := JumpOpcode(i);
      Matches(head + (op + LE32(target - (SizeOf(init) + |op| + 4))), init + [WithTarget(i, At(target))])
  {
    hide *;
    var op := JumpOpcode(i);
    ResolvedBytes(init, i, SizeOf(init), target);
    MatchesSnoc(head, init, WithTarget(i, At(target)), op + LE32(target - (SizeOf(init) + |op| + 4)));
  }

  /** Patching the last instruction of the code, which waits for l. */
  lemma PatchHere(bytes: seq<u8>, init: seq<Insn>, i: Insn, l: Label, target: int)
    requires Matches(bytes, init + [i]) && Waits(i, l)
    ensures var p := SizeOf(init) + |JumpOpcode(i)|;
      p + 4 == |bytes|
      && Matches(Patch(bytes, p, LE32(target - (p + 4))), init + [WithTarget(i, At(target))])
      && bytes[p..p + 4] == LE32(if LastHole(init, l).None? then 0 else p - LastHole(init, l).value)
  {
    hide *;
    WaitingEnd(bytes, init, i, l);
    var o, op, previous := SizeOf(init), JumpOpcode(i), LastHole(init, l);
    var p := o + |op|;
    var w := LE32(target - (p + 4));
    PatchSplit(bytes, o, op, LE32(if previous.None? then 0 else p - previous.value), w);
    ResolvedEnd(bytes[..o], init, i, target);
  }

  /** Patching before the last instruction of the code. */
  lemma PatchBefore(bytes: seq<u8>, init: seq<Insn>, i: Insn, l: Label, target: int, p: nat, w: seq<u8>)
    requires Matches(bytes, init + [i]) && !Waits(i, l) && |w| == 4
    requires SizeOf(init) <= |bytes| && p + 4 <= SizeOf(init)
    requires Matches(Patch(bytes[..SizeOf(init)], p, w), ResolveLast(init, l, At(target)))
    ensures Matches(Patch(bytes, p, w), ResolveLast(init, l, At(target)) + [i])
  {
    hide *;
    MatchesUnfold(bytes, init, i);
    var o := SizeOf(init);
    ResolveLastSize(init, l, At(target));
    SamePrevious(init, i, l, target);
    MatchesSnoc(Patch(bytes[..o], p, w), ResolveLast(init, l, At(target)), i, bytes[o..]);
    PatchPrefix(bytes, o, p, w);
  }

  lemma SamePrevious(init: seq<Insn>, i: Insn, l: Label, target: int)
    requires !Waits(i, l)
    ensures Previous(ResolveLast(init, l, At(target)), i) == Previous(init, i)
  {
    if IsJump(i) && i.target.Ref? {
      ResolveLastHoles(init, l, At(target), i.target.chain);
    }
  }

  lemma PatchPrefix(bytes: seq<u8>, o: nat, p: nat, w: seq<u8>)
    requires |w| == 4 && p + 4 <= o <= |bytes|
    ensures Patch(bytes, p, w) == Patch(bytes[..o], p, w) + bytes[o..]
    ensures bytes[..o][p..p + 4] == bytes[p..p + 4]
  {
  }

  lemma LinkValue(p: nat, previous: Option<nat>)
    requires previous.Some? ==> previous.value < p < TWO32
    ensures var link := From32(LE32(if previous.None? then 0 else p - previous.value));
      previous == (if link == 0 then None else Some(p - link)) && link <= p
  {
    hide LE32, From32;
    From32OfLE32(if previous.None? then 0 else p - previous.value);
  }

  lemma ResolvedNoWait(i: Insn, l: Label, target: int)
    requires IsJump(i)
    ensures !Waits(WithTarget(i, At(target)), l)
  {
  }

  lemma SnocOf(code: seq<Insn>)
    requires code != []
    ensures code == code[..|code| - 1] + [code[|code| - 1]]
  {
  }

  /** Filling the last place of the chain of l resolves the last jump to l; what the place held leads to the
      place before it, and is 0 when there is none. */
  lemma {:induction false} PatchLast(bytes: seq<u8>, code: seq<Insn>, l: Label, target: int)
    requires Matches(bytes, code) && LastHole(code, l).Some? && |bytes| < 0x1_0000_0000
    ensures var p := LastHole(code, l).value;
      p + 4 <= |bytes|
      && Matches(Patch(bytes, p, LE32(target - (p + 4))), ResolveLast(code, l, At(target)))
      && var link := From32(bytes[p..p + 4]);
         LastHole(ResolveLast(code, l, At(target)), l) == (if link == 0 then None else Some(p - link))
         && link <= p
    decreases |code|
  {
    hide *;
    MatchesLength(bytes, code);
    var p := LastHole(code, l).value;
    NoHoleInNothing(l);
    SnocOf(code);
    var init, i := code[..|code| - 1], code[|code| - 1];
    LastHoleSnoc(init, i, l);
    ResolveLastSnoc(init, i, l, At(target));
    var r := ResolveLast(code, l, At(target));
    if Waits(i, l) {
      PatchHere(bytes, init, i, l, target);
      WaitsIsJump(i, l);
      LastHoleSnoc(init, WithTarget(i, At(target)), l);
      ResolvedNoWait(i, l, target);
      LinkValue(p, LastHole(init, l));
    } else {
      var o := SizeOf(init);
      MatchesUnfold(bytes, init, i);
      PatchLast(bytes[..o], init, l, target);
      PatchPrefix(bytes, o, p, LE32(target - (p + 4)));
      PatchBefore(bytes, init, i, l, target, p, LE32(target - (p + 4)));
      LastHoleSnoc(ResolveLast(init, l, At(target)), i, l);
    }
  }

  lemma WaitsIsJump(i: Insn, l: Label)
    requires Waits(i, l)
    ensures IsJump(i) && |JumpOpcode(i)| > 0
    ensures TWO32 == 0x1_0000_0000
  {
  }

  lemma NoHoleInNothing(l: Label)
    ensures LastHole([], l) == None
  {
  }

  // ----- what stays true of the instructions written so far -----

  /** The places an instruction refers to are in a buffer of `size` bytes, or just past it. */
  predicate Inside(i: Insn, size: nat) {
    (IsJump(i) && i.target.At? ==> 0 <= i.target.offset <= size) && (i.LeaRip? ==> 0 <= i.address <= size)
  }

  /** A local label has a number below n. */
  predicate LabelBelow(i: Insn, n: nat) {
    IsJump(i) && i.target.Ref? && i.target.chain.Local? ==> i.target.chain.id < n
  }

  predicate Kept(code: seq<Insn>, size: nat, labels: nat) {
    forall k :: 0 <= k < |code| ==> Inside(code[k], size) && LabelBelow(code[k], labels)
  }

  lemma KeptMore(code: seq<Insn>, labels: nat, more: seq<Insn>, labels1: nat, size: nat)
    requires Kept(code, size, labels) && labels <= labels1 && Kept(more, size, labels1)
    ensures Kept(code + more, size, labels1)
  {
  }

  lemma KeptOne(i: Insn, size: nat, labels: nat)
    requires Inside(i, size) && LabelBelow(i, labels)
    ensures Kept([i], size, labels)
  {
  }

  lemma {:induction false} SubstAt(code: seq<Insn>, l: Label, t: Target, k: nat)
    requires k < |code|
    ensures Subst(code, l, t)[k] == Resolve(code[k], l, t)
    decreases k
  {
    if k > 0 {
      SubstAt(code[1..], l, t, k - 1);
    }
  }

  lemma KeptSubst(code: seq<Insn>, size: nat, labels: nat, l: Label, target: nat)
    requires Kept(code, size, labels) && target <= size
    ensures Kept(Subst(code, l, At(target)), size, labels)
  {
    forall k | 0 <= k < |code| ensures Inside(Subst(code, l, At(target))[k], size)
      && LabelBelow(Subst(code, l, At(target))[k], labels) {
      SubstAt(code, l, At(target), k);
    }
  }

  /** A label number not used yet has an empty chain. */
  lemma FreshLabel(code: seq<Insn>, size: nat, labels: nat)
    requires Kept(code, size, labels)
    ensures Free(code, Local(labels)) && LastHole(code, Local(labels)) == None
  {
    FreeHasNoHole(code, Local(labels));
  }

  /** Every label of a function that is waited for belongs to a function of the set. */
  predicate ForwardsIn(code: seq<Insn>, fs: set<Name>) {
    forall k :: 0 <= k < |code| ==>
      (IsJump(code[k]) && code[k].target.Ref? && code[k].target.chain.Forward? ==> code[k].target.chain.name in fs)
  }

  lemma ForwardsInSubst(code: seq<Insn>, fs: set<Name>, l: Label, target: int)
    requires ForwardsIn(code, fs)
    ensures ForwardsIn(Subst(code, l, At(target)), if l.Forward? then fs - {l.name} else fs)
  {
    forall k | 0 <= k < |code| ensures var r := Subst(code, l, At(target))[k];
      IsJump(r) && r.target.Ref? && r.target.chain.Forward? ==>
        r.target.chain.name in (if l.Forward? then fs - {l.name} else fs)
    {
      SubstAt(code, l, At(target), k);
    }
  }

  lemma {:induction false} SubstOther(code: seq<Insn>, l: Label, target: int, other: Label)
    requires other != l
    ensures LastHole(Subst(code, l, At(target)), other) == LastHole(code, other)
    decreases |code|
  {
    if code != [] {
      var init, i := code[..|code| - 1], code[|code| - 1];
      assert code == init + [i];
      SubstConcat(init, [i], l, At(target));
      SubstOne(i, l, At(target));
      SubstOther(init, l, target, other);
      SubstSize(init, l, At(target));
      LastHoleSnoc(init, i, other);
      LastHoleSnoc(Subst(init, l, At(target)), Resolve(i, l, At(target)), other);
    }
  }

  lemma SubstResolved(code: seq<Insn>, l: Label, target: int)
    ensures Free(Subst(code, l, At(target)), l)
    ensures LastHole(Subst(code, l, At(target)), l) == None
  {
    forall k | 0 <= k < |code| ensures !Waits(Subst(code, l, At(target))[k], l) {
      SubstAt(code, l, At(target), k);
    }
    FreeHasNoHole(Subst(code, l, At(target)), l);
  }
}
