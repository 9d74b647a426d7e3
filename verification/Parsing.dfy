/** What it means that the one-pass compiler has compiled an expression: the tokens it has read are those of a
    grammatical tree, the value it has pushed is the tree's, and the instructions it has added are the tree's. */
module Parsing {
  import opened Words
  import opened X86
  import opened Encoder
  import opened Source
  import opened Codegen
  import opened Sizes
  import opened Preservation
  import opened Layout
  import opened Syntax

  /** The part of the compiler's state that parsing an expression changes. */
  datatype View = View(pos: nat, values: seq<Value>, code: seq<Insn>, reg: nat, frame: nat, mark: nat)

  ghost predicate Parsed(ts: seq<Token>, syms: Symbols, level: nat, a: View, b: View, e: Tree, el: Elaborated) {
    && Derives(ts, syms, level, a.pos, b.pos, e, el)
    && b.values == a.values + [el.value] && b.frame == a.frame && Coded(syms, a, b, el)
  }

  /** Tokens i to j are those of e, which comes from a grammar rule up to `level` and is elaborated to el. */
  ghost predicate Derives(ts: seq<Token>, syms: Symbols, level: nat, i: nat, j: nat, e: Tree, el: Elaborated) {
    Read(ts, i, j, Print(e)) && Grammatical(e) && Rule(e) <= level && Elab(syms, e) == Some(el)
  }

  predicate Read(ts: seq<Token>, i: nat, j: nat, more: seq<Token>) { i < j <= |ts| && ts[i..j] == more }

  /** A call without result to the right of another operand has no code of its own: the compiler panics after it. */
  ghost predicate Coded(syms: Symbols, a: View, b: View, el: Elaborated) {
    if el.value.origin == FromVoid then
      b.reg == a.reg && el.core.Apply? && (a.reg == 0 ==> Adds(syms, a, b, el.core))
    else b.reg == a.reg + 1 && Adds(syms, a, b, el.core) && (IsLvalue(el) ==> Marked(b))
  }

  ghost predicate Adds(syms: Symbols, a: View, b: View, core: Expr) {
    Fits(core, a.reg) && b.code == a.code + GenExpr(EnvOf(syms), core, a.reg, a.frame)
  }

  predicate IsLvalue(el: Elaborated) {
    (el.value.origin == FromAddress && el.core.Field?) || (el.value.origin == FromVariable && el.core.Var?)
  }

  /** The last instruction is a load and starts at the mark. */
  ghost predicate Marked(b: View) {
    b.code != [] && b.code[|b.code| - 1].Load? && b.mark == SizeOf(b.code[..|b.code| - 1])
  }

  /** Every variable is in the stack frame. */
  predicate VarsWithin(syms: Symbols, frame: nat) {
    forall x :: x in syms && syms[x].VarSymbol? ==> 1 <= syms[x].x <= frame
  }

  lemma VarsWithinMore(syms: Symbols, frame: nat, more: nat)
    requires VarsWithin(syms, frame) && frame <= more
    ensures VarsWithin(syms, more)
  {
  }

  lemma VarWithin(syms: Symbols, frame: nat, x: Name)
    requires VarsWithin(syms, frame) && x in syms && syms[x].VarSymbol?
    ensures 1 <= syms[x].x <= frame
  {
  }

  lemma ParsedParts(ts: seq<Token>, syms: Symbols, level: nat, a: View, b: View, e: Tree, el: Elaborated)
    requires Parsed(ts, syms, level, a, b, e, el)
    ensures Derives(ts, syms, level, a.pos, b.pos, e, el) && a.pos < b.pos <= |ts|
    ensures b.values == a.values + [el.value] && b.frame == a.frame && Coded(syms, a, b, el)
    ensures el.value.origin == FromVoid ==> b.reg == a.reg && (a.reg == 0 ==> Adds(syms, a, b, el.core))
    ensures el.value.origin != FromVoid ==>
      b.reg == a.reg + 1 && Adds(syms, a, b, el.core) && (IsLvalue(el) ==> Marked(b))
  {
    hide Print, Grammatical, Rule, Elab, Adds, Marked, IsLvalue;
  }

  lemma ParsedIntro(ts: seq<Token>, syms: Symbols, level: nat, a: View, b: View, e: Tree, el: Elaborated)
    requires Derives(ts, syms, level, a.pos, b.pos, e, el)
    requires b.values == a.values + [el.value] && b.frame == a.frame && b.reg == a.reg + 1 && Adds(syms, a, b, el.core)
    requires el.value.origin != FromVoid && (IsLvalue(el) ==> Marked(b))
    ensures Parsed(ts, syms, level, a, b, e, el)
  {
    hide Print, Grammatical, Rule, Elab, Adds, Marked, IsLvalue;
  }

  lemma ParsedLevel(ts: seq<Token>, syms: Symbols, level: nat, more: nat, a: View, b: View, e: Tree, el: Elaborated)
    requires Parsed(ts, syms, level, a, b, e, el) && level <= more
    ensures Parsed(ts, syms, more, a, b, e, el)
  {
    hide Print, Grammatical, Rule, Elab, Coded;
  }

  // ----- tokens read -----

  lemma ReadMore(ts: seq<Token>, i: nat, j: nat, k: nat, s: seq<Token>, t: seq<Token>)
    requires Read(ts, i, j, s) && Read(ts, j, k, t)
    ensures Read(ts, i, k, s + t)
  {
    Split(ts, i, j, k);
  }

  lemma ReadThree(ts: seq<Token>, i: nat, j: nat, k: nat, l: nat, s: seq<Token>, t: seq<Token>, u: seq<Token>)
    requires Read(ts, i, j, s) && Read(ts, j, k, t) && Read(ts, k, l, u)
    ensures Read(ts, i, l, s + t + u)
  {
    hide *;
    ReadMore(ts, i, j, k, s, t);
    ReadMore(ts, i, k, l, s + t, u);
  }

  lemma Split(ts: seq<Token>, i: nat, j: nat, k: nat)
    requires i <= j <= k <= |ts|
    ensures ts[i..j] + ts[j..k] == ts[i..k]
  {
  }

  lemma Split3(ts: seq<Token>, i: nat, j: nat, k: nat, l: nat)
    requires i <= j <= k <= l <= |ts|
    ensures ts[i..j] + ts[j..k] + ts[k..l] == ts[i..l]
  {
    Split(ts, i, j, k);
    Split(ts, i, k, l);
  }

  lemma ReadOne(ts: seq<Token>, i: nat)
    requires i < |ts|
    ensures Read(ts, i, i + 1, [ts[i]])
  {
  }

  lemma ReadBounds(ts: seq<Token>, i: nat, j: nat, s: seq<Token>)
    requires Read(ts, i, j, s)
    ensures i < j <= |ts|
  {
  }

  lemma ReadPair(ts: seq<Token>, i: nat, j: nat, k: nat, x: Token, y: Token)
    requires Read(ts, i, j, [x]) && Read(ts, j, k, [y])
    ensures Read(ts, i, k, [x, y])
  {
    ReadMore(ts, i, j, k, [x], [y]);
    assert [x] + [y] == [x, y];
  }

  lemma ReadIs(ts: seq<Token>, i: nat, j: nat, s: seq<Token>)
    requires i < j <= |ts| && ts[i..j] == s
    ensures Read(ts, i, j, s)
  {
  }

  // ----- derivations -----

  lemma DerivesRead(ts: seq<Token>, syms: Symbols, level: nat, i: nat, j: nat, e: Tree, el: Elaborated)
    requires Derives(ts, syms, level, i, j, e, el)
    ensures Read(ts, i, j, Print(e)) && Elab(syms, e) == Some(el) && Grammatical(e) && Rule(e) <= level
  {
  }

  /** A value whose origin is an address was loaded from it, and one whose origin is a variable was read from it;
      a value without type is the result of a call. */
  lemma {:induction false} OriginCore(syms: Symbols, e: Tree)
    requires Elab(syms, e).Some?
    ensures var el := Elab(syms, e).value;
      (el.value.origin == FromAddress ==> el.core.Field?) && (el.value.origin == FromVariable ==> el.core.Var?)
      && (el.value.origin == FromVoid ==> el.core.Apply?)
    decreases e
  {
    match e
    case TParen(a) => OriginCore(syms, a);
    case TCast(a, _) => OriginCore(syms, a);
    case _ =>
  }

  lemma ParsedOrigin(ts: seq<Token>, syms: Symbols, level: nat, a: View, b: View, e: Tree, el: Elaborated)
    requires Parsed(ts, syms, level, a, b, e, el)
    ensures el.value.origin == FromAddress ==> el.core.Field? && IsLvalue(el)
    ensures el.value.origin == FromVariable ==> el.core.Var? && IsLvalue(el)
  {
    hide Print, Grammatical, Rule, Elab, Coded, Read;
    OriginCore(syms, e);
  }

  /** The slot of a variable is in the stack frame, or 0 after a cast. */
  lemma {:induction false} VariableSlot(syms: Symbols, e: Tree, frame: nat)
    requires Elab(syms, e).Some? && Elab(syms, e).value.value.origin == FromVariable && VarsWithin(syms, frame)
    ensures Elab(syms, e).value.value.slot <= frame
    decreases e
  {
    match e
    case TParen(a) => VariableSlot(syms, a, frame);
    case TName(x) => VarWithin(syms, frame, x);
    case _ =>
  }

  lemma DerivesSlot(ts: seq<Token>, syms: Symbols, level: nat, i: nat, j: nat, e: Tree, el: Elaborated, frame: nat)
    requires Derives(ts, syms, level, i, j, e, el) && el.value.origin == FromVariable && VarsWithin(syms, frame)
    ensures el.value.slot <= frame
  {
    hide Elab, Print, Grammatical, VarsWithin, Rule;
    VariableSlot(syms, e, frame);
  }

  lemma DerivesInt(ts: seq<Token>, syms: Symbols, i: nat, j: nat, v: u64)
    requires i < j <= |ts| && ts[i..j] == [Int(v)]
    ensures Derives(ts, syms, 0, i, j, TInt(v), Elaborated(Lit(v), Plain(U64)))
  {
  }

  lemma DerivesNull(ts: seq<Token>, syms: Symbols, i: nat, j: nat)
    requires Read(ts, i, j, [Tok(TC_NULL)])
    ensures Derives(ts, syms, 0, i, j, TNull, Elaborated(Lit(0), Value(FromNull, 0, U64)))
  {
  }

  lemma DerivesName(ts: seq<Token>, syms: Symbols, i: nat, j: nat, x: Name, el: Elaborated)
    requires Read(ts, i, j, [Id(x)]) && ElabName(syms, x) == Some(el)
    ensures Derives(ts, syms, 0, i, j, TName(x), el)
  {
    hide ElabName;
  }

  lemma DerivesSizeof(ts: seq<Token>, syms: Symbols, i: nat, j: nat, x: Name)
    requires i + 4 == j <= |ts| && ts[i..i + 1] == [Tok(TC_SIZEOF)] && ts[i + 1..i + 2] == [Tok(TC_OPEN)]
    requires ts[i + 2..i + 3] == [Id(x)] && ts[i + 3..j] == [Tok(TC_CLOSE)] && x in syms && syms[x].StructSymbol?
    ensures Derives(ts, syms, 0, i, j, TSizeof(x), Elaborated(Lit(Wrap(syms[x].size * 8)), Plain(U64)))
  {
    assert ts[i..j] == ts[i..i + 1] + ts[i + 1..i + 2] + ts[i + 2..i + 3] + ts[i + 3..j];
  }

  lemma FieldOfIs(syms: Symbols, ty: Type, field: Name)
    requires ty.base.Some? && ty.dim == 1 && ty.base.value in syms && syms[ty.base.value].StructSymbol?
    requires field in syms[ty.base.value].fields
    ensures FieldOf(syms, ty, field) == Some(syms[ty.base.value].fields[field])
  {
  }

  lemma MarkedFacts(b: View)
    requires Marked(b)
    ensures b.code != [] && !IsJump(b.code[|b.code| - 1]) && b.mark == SizeOf(b.code[..|b.code| - 1])
  {
    hide SizeOf;
  }

  lemma NothingToSave(code: seq<Insn>)
    ensures code + SaveInsns(0) == code
  {
  }

  lemma SnocEq<T>(xs: seq<T>, x: T, ys: seq<T>, y: T)
    requires xs + [x] == ys + [y]
    ensures xs == ys && x == y
  {
    assert |xs| == |ys|;
    assert (xs + [x])[|xs|] == (ys + [y])[|ys|];
    assert (xs + [x])[..|xs|] == (ys + [y])[..|ys|];
  }

  lemma SliceLast(values: seq<Value>, vs: seq<Value>)
    ensures (values + vs)[|values + vs| - |vs|..] == vs && (values + vs)[..|values + vs| - |vs|] == values
  {
  }

  lemma DerivesParen(ts: seq<Token>, syms: Symbols, i: nat, j: nat, k: nat, l: nat, e: Tree, el: Elaborated)
    requires Read(ts, i, j, [Tok(TC_OPEN)]) && Derives(ts, syms, 8, j, k, e, el) && Read(ts, k, l, [Tok(TC_CLOSE)])
    ensures Derives(ts, syms, 0, i, l, TParen(e), el)
  {
    hide Read;
    ReadThree(ts, i, j, k, l, [Tok(TC_OPEN)], Print(e), [Tok(TC_CLOSE)]);
  }

  lemma DerivesPath(ts: seq<Token>, syms: Symbols, i: nat, j: nat, k: nat, e: Tree, el: Elaborated, field: Name,
                    sym: FieldSymbol)
    requires Derives(ts, syms, 1, i, j, e, el) && Read(ts, j, k, [Tok(TC_DOT), Id(field)])
    requires el.value.origin != FromVoid && FieldOf(syms, el.value.ty, field) == Some(sym)
    ensures Derives(ts, syms, 1, i, k, TPath(e, field),
                    Elaborated(Field(el.core, sym.slot), Value(FromAddress, sym.slot, sym.ty)))
  {
    hide Read, FieldOf;
    ReadMore(ts, i, j, k, Print(e), [Tok(TC_DOT), Id(field)]);
  }

  lemma DerivesDeref(ts: seq<Token>, syms: Symbols, i: nat, j: nat, k: nat, e: Tree, el: Elaborated)
    requires Read(ts, i, j, [Tok(TC_MUL)]) && Derives(ts, syms, 2, j, k, e, el)
    requires el.value.origin != FromVoid && el.value.ty.dim != 0
    ensures Derives(ts, syms, 2, i, k, TDeref(e), Dereferenced(el))
  {
    hide Read;
    ReadMore(ts, i, j, k, [Tok(TC_MUL)], Print(e));
  }

  function Dereferenced(el: Elaborated): Elaborated
    requires el.value.ty.dim != 0
  {
    Elaborated(Field(el.core, 0), Value(FromAddress, 0, Type(el.value.ty.base, el.value.ty.dim - 1)))
  }

  lemma DerivesRef(ts: seq<Token>, syms: Symbols, i: nat, j: nat, k: nat, e: Tree, el: Elaborated, ref: Elaborated)
    requires Read(ts, i, j, [Tok(TC_BIT_AND)]) && Derives(ts, syms, 1, j, k, e, el) && ElabRef(el) == Some(ref)
    ensures Derives(ts, syms, 2, i, k, TRef(e), ref)
  {
    hide Read, ElabRef;
    ReadMore(ts, i, j, k, [Tok(TC_BIT_AND)], Print(e));
  }

  lemma DerivesCast(ts: seq<Token>, syms: Symbols, i: nat, j: nat, k: nat, l: nat, e: Tree, el: Elaborated,
                    t: TypeTree, ty: Type)
    requires Derives(ts, syms, 2, i, j, e, el) && el.value.origin != FromVoid
    requires Read(ts, j, k, [Tok(TC_AS)]) && Read(ts, k, l, PrintType(t)) && ElabType(syms, t) == Some(ty)
    ensures Derives(ts, syms, 3, i, l, TCast(e, t), Cast(el, ty))
  {
    hide Read, PrintType, ElabType;
    ReadThree(ts, i, j, k, l, Print(e), [Tok(TC_AS)], PrintType(t));
  }

  function Cast(el: Elaborated, ty: Type): Elaborated {
    Elaborated(el.core, Value(if el.value.origin == FromNull then FromOther else el.value.origin, 0, ty))
  }

  /** The level of the left operand of an operator: shifts do not associate. */
  function LeftLevel(op: nat): nat { if OpLevel(op) == 6 then 5 else OpLevel(op) }

  lemma DerivesBin(ts: seq<Token>, syms: Symbols, op: nat, i: nat, j: nat, k: nat, l: nat,
                   x: Tree, xl: Elaborated, y: Tree, yl: Elaborated, ty: Type)
    requires 0 < OpLevel(op) <= 8 && Derives(ts, syms, LeftLevel(op), i, j, x, xl)
    requires Read(ts, j, k, [Tok(op)]) && Derives(ts, syms, OpLevel(op) - 1, k, l, y, yl)
    requires xl.value.origin != FromVoid && yl.value.origin != FromVoid
      && BinType(op, xl.value.ty, yl.value.ty) == Some(ty)
    ensures Derives(ts, syms, OpLevel(op), i, l, TBin(op, x, y), Elaborated(Bin(OpOf(op), xl.core, yl.core), Plain(ty)))
  {
    hide Read, BinType;
    ReadThree(ts, i, j, k, l, Print(x), [Tok(op)], Print(y));
  }

  // ----- code -----

  lemma AddsFrom(syms: Symbols, a: View, a1: View, b: View, core: Expr)
    requires Adds(syms, a, b, core) && a1.code == a.code && a1.reg == a.reg && a1.frame == a.frame
    ensures Adds(syms, a1, b, core)
  {
  }

  function LeafInsn(core: Expr, n: nat, fs: int): Insn
    requires core.Lit? || core.Address? || core.Var?
  {
    match core
    case Lit(v) => CstInsn(n, v)
    case Address(o) => LeaRip(High(n), o)
    case Var(x) => Load(High(n), RSP, 8 * (fs - x))
  }

  lemma LeafAdds(syms: Symbols, a: View, b: View, core: Expr)
    requires core.Lit? || core.Address? || core.Var?
    requires a.reg < MAX_REGISTERS && b.code == a.code + [LeafInsn(core, a.reg, a.frame)]
    ensures Adds(syms, a, b, core) && (core.Var? && b.mark == SizeOf(a.code) ==> Marked(b))
  {
    hide SizeOf, EnvOf, CstInsn, High;
    assert b.code[..|b.code| - 1] == a.code;
  }

  /** One more instruction: the load of e.field. */
  lemma LoadAdds(syms: Symbols, a: View, b: View, c: View, core: Expr, field: nat)
    requires Adds(syms, a, b, core)
    requires c.code == b.code + [Load(High(a.reg), High(a.reg), 8 * field)] && c.mark == SizeOf(b.code)
    ensures Adds(syms, a, c, Field(core, field)) && Marked(c)
  {
    hide EnvOf, SizeOf, High;
    assert c.code[..|c.code| - 1] == b.code;
    assert c.code == a.code + (GenExpr(EnvOf(syms), core, a.reg, a.frame)
      + [Load(High(a.reg), High(a.reg), 8 * field)]);
  }

  /** The code of &e.field: that of e.field without its load, and an addition. */
  lemma RefFieldAdds(syms: Symbols, a: View, b: View, c: View, e: Expr, field: nat, slot: nat)
    requires Adds(syms, a, b, Field(e, field)) && b.code != []
    requires c.code == b.code[..|b.code| - 1] + FieldAddrInsns(a.reg, slot)
    ensures Adds(syms, a, c, FieldAddr(e, slot))
  {
    hide EnvOf, High, FieldAddrInsns;
    var code := GenExpr(EnvOf(syms), e, a.reg, a.frame);
    assert b.code[..|b.code| - 1] == a.code + code;
    assert c.code == a.code + (code + FieldAddrInsns(a.reg, slot));
  }

  lemma RefVarAdds(syms: Symbols, a: View, b: View, c: View, x: nat, slot: nat)
    requires Adds(syms, a, b, Var(x)) && b.code != []
    requires c.code == b.code[..|b.code| - 1] + [LeaMem(High(a.reg), RSP, 8 * (a.frame - slot))]
    ensures Adds(syms, a, c, VarAddr(slot))
  {
    hide EnvOf, High;
    assert b.code[..|b.code| - 1] == a.code;
  }

  lemma BinAdds(syms: Symbols, a: View, b: View, c: View, d: View, op: BinOp, x: Expr, y: Expr)
    requires Adds(syms, a, b, x) && b.reg == a.reg + 1 && b.frame == a.frame
    requires Adds(syms, b, c, y) && d.code == c.code + BinInsns(op, a.reg)
    ensures Adds(syms, a, d, Bin(op, x, y))
  {
    hide EnvOf, BinInsns;
    var env := EnvOf(syms);
    assert d.code == a.code + (GenExpr(env, x, a.reg, a.frame) + GenExpr(env, y, a.reg + 1, a.frame)
      + BinInsns(op, a.reg));
  }

  // ----- expressions -----

  /** An expression of one instruction. */
  lemma ParsedLeaf(ts: seq<Token>, syms: Symbols, a: View, b: View, e: Tree, el: Elaborated)
    requires Derives(ts, syms, 0, a.pos, b.pos, e, el) && (el.core.Lit? || el.core.Address? || el.core.Var?)
    requires b.values == a.values + [el.value] && b.frame == a.frame && b.reg == a.reg + 1 <= MAX_REGISTERS
    requires b.code == a.code + [LeafInsn(el.core, a.reg, a.frame)] && (el.core.Var? ==> b.mark == SizeOf(a.code))
    requires el.value.origin != FromVoid
    ensures Parsed(ts, syms, 0, a, b, e, el)
  {
    hide Derives, Adds, Marked, SizeOf, LeafInsn;
    LeafAdds(syms, a, b, el.core);
    ParsedIntro(ts, syms, 0, a, b, e, el);
  }

  lemma ParsedParen(ts: seq<Token>, syms: Symbols, a: View, b: View, c: View, d: View, e: Tree, el: Elaborated)
    requires Read(ts, a.pos, b.pos, [Tok(TC_OPEN)]) && b == a.(pos := b.pos) && Parsed(ts, syms, 8, b, c, e, el)
    requires Read(ts, c.pos, d.pos, [Tok(TC_CLOSE)]) && d == c.(pos := d.pos)
    ensures Parsed(ts, syms, 0, a, d, TParen(e), el)
  {
    hide Derives, GenExpr, EnvOf, Fits, SizeOf, Read;
    DerivesParen(ts, syms, a.pos, b.pos, c.pos, d.pos, e, el);
  }

  lemma ParsedPath(ts: seq<Token>, syms: Symbols, a: View, b: View, c: View, e: Tree, el: Elaborated, field: Name,
                   sym: FieldSymbol)
    requires Parsed(ts, syms, 1, a, b, e, el) && el.value.origin != FromVoid
    requires FieldOf(syms, el.value.ty, field) == Some(sym) && Read(ts, b.pos, c.pos, [Tok(TC_DOT), Id(field)])
    requires c.values == a.values + [Value(FromAddress, sym.slot, sym.ty)] && c.frame == b.frame && c.reg == b.reg
    requires c.code == b.code + [Load(High(a.reg), High(a.reg), 8 * sym.slot)] && c.mark == SizeOf(b.code)
    ensures Parsed(ts, syms, 1, a, c, TPath(e, field),
                   Elaborated(Field(el.core, sym.slot), Value(FromAddress, sym.slot, sym.ty)))
  {
    hide *;
    ParsedParts(ts, syms, 1, a, b, e, el);
    DerivesPath(ts, syms, a.pos, b.pos, c.pos, e, el, field, sym);
    LoadAdds(syms, a, b, c, el.core, sym.slot);
    ParsedIntro(ts, syms, 1, a, c, TPath(e, field),
                Elaborated(Field(el.core, sym.slot), Value(FromAddress, sym.slot, sym.ty)));
  }

  lemma ParsedDeref(ts: seq<Token>, syms: Symbols, a: View, b: View, c: View, d: View, e: Tree, el: Elaborated)
    requires Read(ts, a.pos, b.pos, [Tok(TC_MUL)]) && b == a.(pos := b.pos)
    requires Parsed(ts, syms, 2, b, c, e, el) && el.value.origin != FromVoid && el.value.ty.dim != 0
    requires d.pos == c.pos && d.frame == c.frame && d.reg == c.reg && d.values == a.values + [Dereferenced(el).value]
    requires d.code == c.code + [Load(High(a.reg), High(a.reg), 8 * 0)] && d.mark == SizeOf(c.code)
    ensures Parsed(ts, syms, 2, a, d, TDeref(e), Dereferenced(el))
  {
    hide *;
    ParsedParts(ts, syms, 2, b, c, e, el);
    DerivesDeref(ts, syms, a.pos, b.pos, c.pos, e, el);
    LoadAdds(syms, b, c, d, el.core, 0);
    AddsFrom(syms, b, a, d, Field(el.core, 0));
    DereferencedIs(el);
    ParsedIntro(ts, syms, 2, a, d, TDeref(e), Dereferenced(el));
  }

  lemma DereferencedIs(el: Elaborated)
    requires el.value.ty.dim != 0
    ensures Dereferenced(el).core == Field(el.core, 0) && Dereferenced(el).value.origin == FromAddress
  {
  }

  lemma ParsedRef(ts: seq<Token>, syms: Symbols, a: View, b: View, c: View, d: View, e: Tree, el: Elaborated,
                  ref: Elaborated)
    requires Read(ts, a.pos, b.pos, [Tok(TC_BIT_AND)]) && b == a.(pos := b.pos)
    requires Parsed(ts, syms, 1, b, c, e, el) && ElabRef(el) == Some(ref) && c.code != []
    requires d.pos == c.pos && d.frame == c.frame && d.reg == c.reg && d.values == a.values + [ref.value]
    requires d.code == c.code[..|c.code| - 1] + RefInsns(el, a.reg, a.frame)
    ensures Parsed(ts, syms, 2, a, d, TRef(e), ref)
  {
    ElabRefIs(el, ref, a.reg, a.frame);
    hide *;
    ParsedParts(ts, syms, 1, b, c, e, el);
    DerivesRef(ts, syms, a.pos, b.pos, c.pos, e, el, ref);
    if el.value.origin == FromAddress {
      RefFieldAdds(syms, b, c, d, el.core.e, el.core.field, el.value.slot);
    } else {
      RefVarAdds(syms, b, c, d, el.core.x, el.value.slot);
    }
    AddsFrom(syms, b, a, d, ref.core);
    ParsedIntro(ts, syms, 2, a, d, TRef(e), ref);
  }

  /** The instructions that replace the load of an lvalue whose address is taken. */
  function RefInsns(el: Elaborated, n: nat, fs: int): seq<Insn> {
    if el.value.origin == FromAddress then FieldAddrInsns(n, el.value.slot)
    else [LeaMem(High(n), RSP, 8 * (fs - el.value.slot))]
  }

  lemma ElabRefIs(el: Elaborated, ref: Elaborated, n: nat, fs: int)
    requires ElabRef(el) == Some(ref)
    ensures ref.value.origin == FromOther && !IsLvalue(ref)
    ensures el.value.origin == FromAddress || el.value.origin == FromVariable
    ensures el.value.origin == FromAddress ==> el.core.Field? && ref.core == FieldAddr(el.core.e, el.value.slot)
    ensures el.value.origin == FromAddress ==> RefInsns(el, n, fs) == FieldAddrInsns(n, el.value.slot)
    ensures el.value.origin == FromVariable ==> el.core.Var? && ref.core == VarAddr(el.value.slot)
    ensures el.value.origin == FromVariable ==> RefInsns(el, n, fs) == [LeaMem(High(n), RSP, 8 * (fs - el.value.slot))]
  {
  }

  lemma ParsedCast(ts: seq<Token>, syms: Symbols, a: View, b: View, p: nat, c: View, e: Tree, el: Elaborated,
                   t: TypeTree, ty: Type)
    requires Parsed(ts, syms, 2, a, b, e, el) && el.value.origin != FromVoid
    requires Read(ts, b.pos, p, [Tok(TC_AS)]) && Read(ts, p, c.pos, PrintType(t)) && ElabType(syms, t) == Some(ty)
    requires c == b.(pos := c.pos, values := a.values + [Cast(el, ty).value])
    ensures Parsed(ts, syms, 3, a, c, TCast(e, t), Cast(el, ty))
  {
    hide Derives, Read, GenExpr, EnvOf, Fits, SizeOf, PrintType, ElabType;
    DerivesCast(ts, syms, a.pos, b.pos, p, c.pos, e, el, t, ty);
  }

  lemma ParsedBin(ts: seq<Token>, syms: Symbols, op: nat, a: View, b: View, c: View, d: View, f: View,
                  x: Tree, xl: Elaborated, y: Tree, yl: Elaborated, ty: Type)
    requires 0 < OpLevel(op) <= 8 && Parsed(ts, syms, LeftLevel(op), a, b, x, xl)
    requires Read(ts, b.pos, c.pos, [Tok(op)]) && c == b.(pos := c.pos)
    requires Parsed(ts, syms, OpLevel(op) - 1, c, d, y, yl)
    requires xl.value.origin != FromVoid && yl.value.origin != FromVoid
      && BinType(op, xl.value.ty, yl.value.ty) == Some(ty)
    requires f.pos == d.pos && f.frame == d.frame && f.reg + 1 == d.reg && f.values == a.values + [Plain(ty)]
    requires f.code == d.code + BinInsns(OpOf(op), a.reg)
    ensures Parsed(ts, syms, OpLevel(op), a, f, TBin(op, x, y), Elaborated(Bin(OpOf(op), xl.core, yl.core), Plain(ty)))
  {
    hide *;
    ParsedParts(ts, syms, LeftLevel(op), a, b, x, xl);
    ParsedParts(ts, syms, OpLevel(op) - 1, c, d, y, yl);
    DerivesBin(ts, syms, op, a.pos, b.pos, c.pos, d.pos, x, xl, y, yl, ty);
    AddsFrom(syms, c, b, d, yl.core);
    BinAdds(syms, a, b, d, f, OpOf(op), xl.core, yl.core);
    var el := Elaborated(Bin(OpOf(op), xl.core, yl.core), Plain(ty));
    PlainIsNoLvalue(el, ty);
    ParsedIntro(ts, syms, OpLevel(op), a, f, TBin(op, x, y), el);
  }

  lemma PlainIsNoLvalue(el: Elaborated, ty: Type)
    requires el.value == Plain(ty)
    ensures !IsLvalue(el) && el.value.origin != FromVoid
  {
  }

  // ----- calls -----

  function Snoc<T>(l: List<T>, x: T): List<T> {
    if l.Nil? then List.Cons(x, List.Nil) else List.Cons(l.head, Snoc(l.tail, x))
  }

  function Length<T>(l: List<T>): nat { if l.Nil? then 0 else 1 + Length(l.tail) }

  lemma {:induction false} PrintArgsSnoc(es: List<Tree>, e: Tree)
    ensures PrintArgs(Snoc(es, e)) == (if es.Nil? then [] else PrintArgs(es) + [Tok(TC_COMMA)]) + Print(e)
    decreases es
  {
    hide Print;
    if es.Cons? { PrintArgsSnoc(es.tail, e); }
  }

  lemma {:induction false} GrammaticalSnoc(es: List<Tree>, e: Tree)
    requires GrammaticalArgs(es) && Grammatical(e)
    ensures GrammaticalArgs(Snoc(es, e))
    decreases es
  {
    hide Grammatical;
    if es.Cons? { GrammaticalSnoc(es.tail, e); }
  }

  lemma {:induction false} ElabArgsSnoc(syms: Symbols, es: List<Tree>, e: Tree)
    requires ElabArgs(syms, es).Some? && Elab(syms, e).Some?
    ensures var r, el := ElabArgs(syms, es).value, Elab(syms, e).value;
      ElabArgs(syms, Snoc(es, e)) == Some((Snoc(r.0, el.core), r.1 + [el.value]))
    decreases es
  {
    hide Elab;
    if es.Cons? {
      ElabArgsSnoc(syms, es.tail, e);
      var s, ss, v := Elab(syms, es.head).value, ElabArgs(syms, es.tail).value, Elab(syms, e).value.value;
      assert [s.value] + (ss.1 + [v]) == [s.value] + ss.1 + [v];
    } else {
      var v := Elab(syms, e).value.value;
      assert ElabArgs(syms, List.Nil) == Some((List.Nil, [])) && [v] + [] == [] + [v];
    }
  }

  lemma {:induction false} ElabArgsLength(syms: Symbols, es: List<Tree>)
    requires ElabArgs(syms, es).Some?
    ensures Length(ElabArgs(syms, es).value.0) == |ElabArgs(syms, es).value.1|
    decreases es
  {
    hide Elab;
    if es.Cons? { ElabArgsLength(syms, es.tail); }
  }

  lemma {:induction false} GenArgsSnoc(env: Env, es: List<Expr>, e: Expr, n: nat, fs: int)
    ensures GenArgs(env, Snoc(es, e), n, fs) == GenArgs(env, es, n, fs) + GenExpr(env, e, n + Length(es), fs)
    decreases es
  {
    hide GenExpr;
    if es.Cons? { GenArgsSnoc(env, es.tail, e, n + 1, fs); }
  }

  lemma {:induction false} ArgsFitSnoc(es: List<Expr>, e: Expr, n: nat)
    requires ArgsFit(es, n) && Fits(e, n + Length(es))
    ensures ArgsFit(Snoc(es, e), n)
    decreases es
  {
    hide Fits;
    if es.Cons? {
      ArgsFitSnoc(es.tail, e, n + 1);
    } else {
      FitsBelowMax(e, n);
    }
  }

  predicate NoVoid(vs: seq<Value>) { forall i :: 0 <= i < |vs| ==> vs[i].origin != FromVoid }

  /** The arguments read so far between views a and b; a call without result among them makes the compiler panic
      after the last one. */
  ghost predicate ArgsParsed(ts: seq<Token>, syms: Symbols, a: View, b: View, args: List<Tree>, es: List<Expr>,
                             vs: seq<Value>) {
    && ArgsDerived(ts, syms, a.pos, b.pos, args, es, vs)
    && b.values == a.values + vs && b.frame == a.frame
    && (NoVoid(vs) ==> b.reg == |vs| && ArgsFit(es, 0) && b.code == a.code + GenArgs(EnvOf(syms), es, 0, a.frame))
  }

  ghost predicate ArgsDerived(ts: seq<Token>, syms: Symbols, i: nat, j: nat, args: List<Tree>, es: List<Expr>,
                              vs: seq<Value>) {
    && i <= j <= |ts| && ts[i..j] == PrintArgs(args) && GrammaticalArgs(args) && ElabArgs(syms, args) == Some((es, vs))
    && |vs| == Length(es)
  }

  lemma NoArgsParsed(ts: seq<Token>, syms: Symbols, a: View)
    requires a.reg == 0 && a.pos <= |ts|
    ensures ArgsParsed(ts, syms, a, a, List.Nil, List.Nil, [])
  {
  }

  lemma ArgsDerivedSnoc(ts: seq<Token>, syms: Symbols, i: nat, j: nat, k: nat, l: nat,
                        args: List<Tree>, es: List<Expr>, vs: seq<Value>, e: Tree, el: Elaborated)
    requires ArgsDerived(ts, syms, i, j, args, es, vs) && Derives(ts, syms, 8, k, l, e, el)
    requires if vs == [] then k == j else Read(ts, j, k, [Tok(TC_COMMA)])
    ensures ArgsDerived(ts, syms, i, l, Snoc(args, e), Snoc(es, el.core), vs + [el.value])
  {
    hide PrintArgs, GrammaticalArgs, Print, Grammatical, Rule, Elab;
    PrintArgsSnoc(args, e);
    GrammaticalSnoc(args, e);
    ElabArgsSnoc(syms, args, e);
    ElabArgsLength(syms, Snoc(args, e));
    NoTrees(syms, args);
    Split3(ts, i, j, k, l);
  }

  lemma NoTrees(syms: Symbols, args: List<Tree>)
    requires ElabArgs(syms, args).Some?
    ensures args.Nil? <==> ElabArgs(syms, args).value.1 == []
    ensures args.Nil? ==> PrintArgs(args) == []
  {
  }

  lemma ArgsParsedSnoc(ts: seq<Token>, syms: Symbols, a: View, b: View, c: View, d: View,
                       args: List<Tree>, es: List<Expr>, vs: seq<Value>, e: Tree, el: Elaborated)
    requires ArgsParsed(ts, syms, a, b, args, es, vs) && Parsed(ts, syms, 8, c, d, e, el)
    requires c == b.(pos := c.pos) && if vs == [] then c.pos == b.pos else Read(ts, b.pos, c.pos, [Tok(TC_COMMA)])
    ensures ArgsParsed(ts, syms, a, d, Snoc(args, e), Snoc(es, el.core), vs + [el.value])
  {
    hide ArgsDerived, Derives, GenArgs, GenExpr, Read, Fits, ArgsFit, EnvOf, Coded, IsLvalue, Marked;
    ParsedParts(ts, syms, 8, c, d, e, el);
    ArgsDerivedSnoc(ts, syms, a.pos, b.pos, c.pos, d.pos, args, es, vs, e, el);
    if NoVoid(vs + [el.value]) {
      assert (vs + [el.value])[|vs|] == el.value;
      NoVoidPrefix(vs, el.value);
      ArgsLength(ts, syms, a.pos, b.pos, args, es, vs);
      GenArgsSnoc(EnvOf(syms), es, el.core, 0, a.frame);
      ArgsFitSnoc(es, el.core, 0);
    }
  }

  lemma NoVoidPrefix(vs: seq<Value>, v: Value)
    requires NoVoid(vs + [v])
    ensures NoVoid(vs) && v.origin != FromVoid
  {
    assert (vs + [v])[|vs|] == v;
    forall i | 0 <= i < |vs| ensures vs[i].origin != FromVoid {
      assert (vs + [v])[i] == vs[i];
    }
  }

  lemma ArgsLength(ts: seq<Token>, syms: Symbols, i: nat, j: nat, args: List<Tree>, es: List<Expr>, vs: seq<Value>)
    requires ArgsDerived(ts, syms, i, j, args, es, vs)
    ensures |vs| == Length(es)
  {
  }

  /** The whole call: its name and parenthesis (to b), the saved registers (to c), the arguments (to d), the closing
      parenthesis, the checks and the call (to f). */
  lemma ParsedCall(ts: seq<Token>, syms: Symbols, a: View, b: View, c: View, d: View, f: View, name: Name,
                   args: List<Tree>, es: List<Expr>, vs: seq<Value>)
    requires name in syms && syms[name].FnSymbol? && Read(ts, a.pos, b.pos, [Id(name), Tok(TC_OPEN)])
    requires c.pos == b.pos && c.values == a.values && c.frame == a.frame + a.reg && c.code == a.code + SaveInsns(a.reg)
    requires ArgsParsed(ts, syms, c, d, args, es, vs) && AllHaveTypes(vs, syms[name].params)
    requires Read(ts, d.pos, f.pos, [Tok(TC_CLOSE)])
    requires f.values == a.values + [ResultValue(syms[name].ret)] && f.frame == a.frame
    requires f.reg == a.reg + (if syms[name].ret.Some? then 1 else 0) <= MAX_REGISTERS
    requires f.code == d.code + [Call(FnTarget(EnvOf(syms), name))]
                       + (if syms[name].ret.Some? then ResultInsns(a.reg) else []) + RestoreInsns(0, a.reg)
    ensures Parsed(ts, syms, 0, a, f, TCall(name, args), Elaborated(Apply(name, es), ResultValue(syms[name].ret)))
  {
    hide ArgsDerived, Derives, GenArgs, GenExpr, Read, Fits, ArgsFit, EnvOf, SaveInsns, RestoreInsns, AllHaveTypes,
      Adds, Marked;
    DerivesCall(ts, syms, a.pos, b.pos, d.pos, f.pos, name, args, es, vs);
    TypedIsNotVoid(vs, syms[name].params);
    if syms[name].ret.Some? || a.reg == 0 {
      CallAdds(syms, a, f, name, es);
    }
  }

  lemma TypedIsNotVoid(vs: seq<Value>, tys: seq<Type>)
    requires AllHaveTypes(vs, tys)
    ensures NoVoid(vs)
  {
  }

  lemma DerivesCall(ts: seq<Token>, syms: Symbols, i: nat, j: nat, k: nat, l: nat, name: Name,
                    args: List<Tree>, es: List<Expr>, vs: seq<Value>)
    requires name in syms && syms[name].FnSymbol? && Read(ts, i, j, [Id(name), Tok(TC_OPEN)])
    requires ArgsDerived(ts, syms, j, k, args, es, vs) && AllHaveTypes(vs, syms[name].params)
    requires Read(ts, k, l, [Tok(TC_CLOSE)])
    ensures Derives(ts, syms, 0, i, l, TCall(name, args), Elaborated(Apply(name, es), ResultValue(syms[name].ret)))
  {
    hide AllHaveTypes, PrintArgs, ElabArgs, GrammaticalArgs;
    Split3(ts, i, j, k, l);
  }

  lemma CallAdds(syms: Symbols, a: View, f: View, name: Name, es: List<Expr>)
    requires ArgsFit(es, 0) && a.reg < MAX_REGISTERS
    requires f.code == a.code + SaveInsns(a.reg) + GenArgs(EnvOf(syms), es, 0, a.frame + a.reg)
                       + [Call(FnTarget(EnvOf(syms), name))] + ResultInsns(a.reg) + RestoreInsns(0, a.reg)
    ensures Adds(syms, a, f, Apply(name, es))
  {
    hide ArgsFit, GenArgs, EnvOf, SaveInsns, ResultInsns, RestoreInsns;
    assert f.code == a.code + GenExpr(EnvOf(syms), Apply(name, es), a.reg, a.frame);
  }
}
