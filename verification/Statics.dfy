/** Static blocks and functions in machine code: their bytes are at the offsets of their symbols, whatever comes after
    them. */
module Statics {
  import opened Words
  import opened X86
  import opened Encoder
  import opened Source
  import opened Codegen
  import opened Layout
  import opened Linking
  import opened Syntax
  import opened Parsing
  import opened Functions

  // ----- symbols that stay -----

  /** Symbols that are there later: the same, or a function that was forward. */
  ghost predicate Later(syms: Symbols, syms1: Symbols) {
    forall x :: x in syms ==> x in syms1 && LaterSymbol(syms[x], syms1[x])
  }

  predicate LaterSymbol(s: Symbol, t: Symbol) {
    t == s || (IsForward(s) && t.FnSymbol? && t.params == s.params && t.ret == s.ret)
  }

  lemma LaterSelf(syms: Symbols)
    ensures Later(syms, syms)
  {
  }

  lemma LaterTrans(a: Symbols, b: Symbols, c: Symbols)
    requires Later(a, b) && Later(b, c)
    ensures Later(a, c)
  {
    forall x | x in a ensures x in c && LaterSymbol(a[x], c[x]) {
      assert LaterSymbol(a[x], b[x]) && LaterSymbol(b[x], c[x]);
    }
  }

  /** The symbol of a declaration is new, or was forward. */
  lemma DeclSymbols(u: CompUnit, at: nat, d: Decl)
    requires ElabDecl(u, at, d).Some? && NoVars(u.syms)
    ensures var v, x := ElabDecl(u, at, d).value, d.name;
      x in v.syms && v.syms == u.syms[x := v.syms[x]] && NoVars(v.syms) && Later(u.syms, v.syms)
      && (x in u.syms ==> IsForward(u.syms[x]) && d.DFn?)
  {
    hide ElabItems, ElabParams, ElabRet, ElabType, ParamSymbols, HasParam, Distinct, ItemsReachable, FieldMap, Relinked,
      EnvOf;
  }

  // ----- data in the code -----

  /** All data stays where it is. */
  ghost predicate DataKept(code: seq<Insn>, code1: seq<Insn>) {
    forall at: nat, bs: List<u64> :: Segment(code, at, DataOf(bs)) ==> Segment(code1, at, DataOf(bs))
  }

  lemma DataKeptMore(code: seq<Insn>, more: seq<Insn>)
    ensures DataKept(code, code + more)
  {
    hide DataOf, Segment;
    forall at: nat, bs: List<u64> | Segment(code, at, DataOf(bs)) ensures Segment(code + more, at, DataOf(bs)) {
      SegmentMore(code, more, at, DataOf(bs));
    }
  }

  lemma DataKeptSelf(code: seq<Insn>)
    ensures DataKept(code, code)
  {
  }

  lemma DataKeptTrans(a: seq<Insn>, b: seq<Insn>, c: seq<Insn>)
    requires DataKept(a, b) && DataKept(b, c)
    ensures DataKept(a, c)
  {
    hide Segment, DataOf;
  }

  /** Resolving jumps leaves data alone. */
  lemma DataKeptSubst(code: seq<Insn>, l: Label, t: Target)
    ensures DataKept(code, Subst(code, l, t))
  {
    hide DataOf, SizeOf, Subst;
    forall at: nat, bs: List<u64> | Segment(code, at, DataOf(bs)) ensures Segment(Subst(code, l, t), at, DataOf(bs)) {
      var a, c :| code == a + DataOf(bs) + c && SizeOf(a) == at;
      SubstConcat(a + DataOf(bs), c, l, t);
      SubstConcat(a, DataOf(bs), l, t);
      DataSubst(bs, l, t);
      SubstSize(a, l, t);
      assert Subst(code, l, t) == Subst(a, l, t) + DataOf(bs) + Subst(c, l, t);
    }
  }

  lemma {:induction false} DataSubst(bs: List<u64>, l: Label, t: Target)
    ensures Subst(DataOf(bs), l, t) == DataOf(bs)
    decreases bs
  {
    if bs.Cons? {
      DataSubst(bs.tail, l, t);
      assert DataOf(bs)[1..] == DataOf(bs.tail);
    }
  }

  lemma DataAtEnd(code: seq<Insn>, bs: List<u64>)
    ensures Segment(code + DataOf(bs), SizeOf(code), DataOf(bs))
  {
    hide DataOf, SizeOf;
    assert code + DataOf(bs) == code + DataOf(bs) + [];
  }

  // ----- blocks -----

  /** A static block, or a function in machine code, is at the offset of its symbol. */
  ghost predicate BlockPlaced(code: seq<Insn>, syms: Symbols, d: Decl) {
    match d
    case DStatic(x, bs) => x in syms && syms[x].StaticSymbol? && Segment(code, syms[x].offset, DataOf(bs))
    case DFn(f, _, _, Asm(bs)) =>
      f in syms && syms[f].FnSymbol? && syms[f].target.Some? && Segment(code, syms[f].target.value, DataOf(bs))
    case _ => true
  }

  ghost predicate BlocksPlaced(code: seq<Insn>, syms: Symbols, ds: List<Decl>) {
    ds.Cons? ==> BlockPlaced(code, syms, ds.head) && BlocksPlaced(code, syms, ds.tail)
  }

  lemma {:induction false} BlocksLater(code: seq<Insn>, code1: seq<Insn>, syms: Symbols, syms1: Symbols, ds: List<Decl>)
    requires BlocksPlaced(code, syms, ds) && DataKept(code, code1) && Later(syms, syms1)
    ensures BlocksPlaced(code1, syms1, ds)
    decreases ds
  {
    hide Segment, DataOf;
    if ds.Cons? {
      if ds.head.name in syms { assert LaterSymbol(syms[ds.head.name], syms1[ds.head.name]); }
      BlocksLater(code, code1, syms, syms1, ds.tail);
    }
  }

  lemma {:induction false} BlocksSnoc(code: seq<Insn>, syms: Symbols, ds: List<Decl>, d: Decl)
    requires BlocksPlaced(code, syms, ds) && BlockPlaced(code, syms, d)
    ensures BlocksPlaced(code, syms, Snoc(ds, d))
    decreases ds
  {
    hide BlockPlaced;
    if ds.Cons? { BlocksSnoc(code, syms, ds.tail, d); }
  }

  // ----- bytes -----

  /** The bytes that numbers stand for. */
  function Octets(bs: List<u64>): seq<u8> { if bs.Nil? then [] else [bs.head % 256] + Octets(bs.tail) }

  predicate OctetsAt(bytes: seq<u8>, at: int, bs: List<u64>) {
    0 <= at && at + |Octets(bs)| <= |bytes| && bytes[at..at + |Octets(bs)|] == Octets(bs)
  }

  /** The block of a declaration, if it has one, is in the bytes. */
  predicate BlockIn(bytes: seq<u8>, syms: Symbols, d: Decl) {
    match d
    case DStatic(x, bs) => x in syms && syms[x].StaticSymbol? && OctetsAt(bytes, syms[x].offset, bs)
    case DFn(f, _, _, Asm(bs)) =>
      f in syms && syms[f].FnSymbol? && syms[f].target.Some? && OctetsAt(bytes, syms[f].target.value, bs)
    case _ => true
  }

  predicate BlocksIn(bytes: seq<u8>, syms: Symbols, ds: List<Decl>) {
    ds.Cons? ==> BlockIn(bytes, syms, ds.head) && BlocksIn(bytes, syms, ds.tail)
  }

  lemma {:induction false} BlocksAreIn(bytes: seq<u8>, code: seq<Insn>, syms: Symbols, ds: List<Decl>)
    requires Matches(bytes, code) && BlocksPlaced(code, syms, ds)
    ensures BlocksIn(bytes, syms, ds)
    decreases ds
  {
    hide Matches, Segment, DataOf, OctetsAt;
    if ds.Cons? {
      match ds.head {
        case DStatic(x, bs) => DataBytes(bytes, code, syms[x].offset, bs);
        case DFn(f, _, _, Asm(bs)) => DataBytes(bytes, code, syms[f].target.value, bs);
        case _ =>
      }
      BlocksAreIn(bytes, code, syms, ds.tail);
    }
  }

  lemma DataBytes(bytes: seq<u8>, code: seq<Insn>, at: int, bs: List<u64>)
    requires Matches(bytes, code) && Segment(code, at, DataOf(bs))
    ensures OctetsAt(bytes, at, bs)
  {
    hide Matches, DataOf, SizeOf, Octets;
    var a, c :| code == a + DataOf(bs) + c && SizeOf(a) == at;
    var n := MatchesPrefix(bytes, a + DataOf(bs), c);
    DataLast(bytes[..n], a, bs);
    assert bytes[..n][at..at + |Octets(bs)|] == bytes[at..at + |Octets(bs)|];
  }

  /** The bytes of the first part of the code. */
  lemma {:induction false} MatchesPrefix(bytes: seq<u8>, a: seq<Insn>, c: seq<Insn>) returns (n: nat)
    requires Matches(bytes, a + c)
    ensures n <= |bytes| && Matches(bytes[..n], a)
    decreases |c|
  {
    hide Matches, SizeOf;
    n := |bytes|;
    if c == [] {
      assert a + c == a && bytes[..n] == bytes;
    } else {
      var init, i := c[..|c| - 1], c[|c| - 1];
      assert a + c == a + init + [i];
      MatchesUnfold(bytes, a + init, i);
      var o := SizeOf(a + init);
      n := MatchesPrefix(bytes[..o], a, init);
      assert bytes[..o][..n] == bytes[..n];
    }
  }

  /** Data at the end of the code. */
  lemma {:induction false} DataLast(bytes: seq<u8>, a: seq<Insn>, bs: List<u64>)
    requires Matches(bytes, a + DataOf(bs))
    ensures var at := SizeOf(a);
      at + |Octets(bs)| == |bytes| && bytes[at..] == Octets(bs)
    decreases bs
  {
    hide Matches, SizeOf, InsnBytes;
    if bs.Nil? {
      assert a + DataOf(bs) == a;
      MatchesLength(bytes, a);
    } else {
      var i := Data(bs.head % 256);
      assert a + DataOf(bs) == a + [i] + DataOf(bs.tail);
      SizeOfSnoc(a, i);
      DataLast(bytes, a + [i], bs.tail);
      var n := MatchesPrefix(bytes, a + [i], DataOf(bs.tail));
      MatchesUnfold(bytes[..n], a, i);
      DataByte(a, bs.head % 256);
      var at := SizeOf(a);
      assert bytes[..n][at..] == bytes[at..n];
      assert bytes[at..] == bytes[at..at + 1] + bytes[at + 1..];
    }
  }

  lemma DataByte(a: seq<Insn>, b: u8)
    ensures Size(Data(b)) == 1 && InsnBytes(Data(b), SizeOf(a), Previous(a, Data(b))) == [b]
  {
    hide SizeOf;
  }
}
