/** Where the calls of a compiled program go: to the functions that they name, exactly if no function is declared
    forward again after a call of it, with code in between and its definition. */
module Links {
  import opened Words
  import opened X86
  import opened Encoder
  import opened Source
  import opened Codegen
  import opened Sizes
  import opened Linking
  import opened Syntax
  import opened Preservation
  import opened Functions

  // ----- the functions that code calls -----

  function Calls(e: Expr): set<Name>
    decreases e
  {
    match e
    case Field(a, _) => Calls(a)
    case FieldAddr(a, _) => Calls(a)
    case Bin(_, l, r) => Calls(l) + Calls(r)
    case Apply(f, args) => {f} + ArgsCalls(args)
    case _ => {}
  }

  function ArgsCalls(es: List<Expr>): set<Name>
    decreases es
  {
    if es.Nil? then {} else Calls(es.head) + ArgsCalls(es.tail)
  }

  function AndCalls(cs: List<Comparison>): set<Name> {
    if cs.Nil? then {} else Calls(cs.head.l) + Calls(cs.head.r) + AndCalls(cs.tail)
  }

  function OrCalls(ands: BoolExpr): set<Name> { if ands.Nil? then {} else AndCalls(ands.head) + OrCalls(ands.tail) }

  function StmtCalls(s: Stmt): set<Name>
    decreases s
  {
    match s
    case SetVar(_, e) => Calls(e)
    case SetField(a, _, e) => Calls(a) + Calls(e)
    case Eval(e) => Calls(e)
    case If(c, thn) => OrCalls(c) + BlockCalls(thn)
    case IfElse(c, thn, els) => OrCalls(c) + BlockCalls(thn) + BlockCalls(els)
    case While(c, body) => OrCalls(c) + BlockCalls(body)
    case Loop(body) => BlockCalls(body)
    case ReturnValue(e) => Calls(e)
    case _ => {}
  }

  function BlockCalls(ss: List<Stmt>): set<Name>
    decreases ss
  {
    if ss.Nil? then {} else StmtCalls(ss.head) + BlockCalls(ss.tail)
  }

  function ItemCalls(item: Item): set<Name> { if item.Let? then Calls(item.e) else StmtCalls(item.s) }

  function ItemsCalls(items: List<Item>): set<Name> {
    if items.Nil? then {} else ItemCalls(items.head) + ItemsCalls(items.tail)
  }

  /** Both environments send the calls of these functions to the same places. */
  predicate SameTargets(fs: set<Name>, env: Env, env1: Env) { forall f ::
                        f in fs ==> FnTarget(env, f) == FnTarget(env1, f) }

  // ----- code is the same exactly if its calls go to the same places -----

  /** Two codes for the same source. */
  predicate Alike(a: seq<Insn>, b: seq<Insn>, same: bool) { |a| == |b| && (a == b <==> same) }

  lemma AlikeConcat(a: seq<Insn>, b: seq<Insn>, a1: seq<Insn>, b1: seq<Insn>, fs: set<Name>, gs: set<Name>, env: Env,
                    env1: Env)
    requires Alike(a, a1, SameTargets(fs, env, env1)) && Alike(b, b1, SameTargets(gs, env, env1))
    ensures Alike(a + b, a1 + b1, SameTargets(fs + gs, env, env1))
  {
    SameParts(fs, gs, env, env1);
    hide SameTargets;
    if a + b == a1 + b1 {
      assert a == (a + b)[..|a|] && a1 == (a1 + b1)[..|a|];
      assert b == (a + b)[|a|..] && b1 == (a1 + b1)[|a|..];
    }
  }

  lemma SameParts(fs: set<Name>, gs: set<Name>, env: Env, env1: Env)
    ensures SameTargets(fs + gs, env, env1) <==> SameTargets(fs, env, env1) && SameTargets(gs, env, env1)
  {
  }

  /** Code without calls around the rest. */
  lemma AlikeWith(a: seq<Insn>, b: seq<Insn>, b1: seq<Insn>, c: seq<Insn>, same: bool)
    requires Alike(b, b1, same)
    ensures Alike(a + b + c, a + b1 + c, same) && Alike(a + b, a + b1, same) && Alike(b + c, b1 + c, same)
  {
    if a + b + c == a + b1 + c {
      assert b == (a + b + c)[|a|..|a| + |b|] && b1 == (a + b1 + c)[|a|..|a| + |b|];
    }
    if a + b == a + b1 {
      assert b == (a + b)[|a|..] && b1 == (a + b1)[|a|..];
    }
    if b + c == b1 + c {
      assert b == (b + c)[..|b|] && b1 == (b1 + c)[..|b|];
    }
  }

  lemma AlikeCall(f: Name, env: Env, env1: Env)
    ensures Alike([Call(FnTarget(env, f))], [Call(FnTarget(env1, f))], SameTargets({f}, env, env1))
  {
    assert [Call(FnTarget(env, f))][0] == Call(FnTarget(env, f));
    assert [Call(FnTarget(env1, f))][0] == Call(FnTarget(env1, f));
  }

  lemma {:induction false} ExprAlike(env: Env, env1: Env, e: Expr, n: nat, fs: int)
    ensures Alike(GenExpr(env, e, n, fs), GenExpr(env1, e, n, fs), SameTargets(Calls(e), env, env1))
    decreases e
  {
    hide Alike, SameTargets, BinInsns, FieldAddrInsns, ResultInsns, RestoreInsns, GenArgs, SaveInsns, ArgsCalls;
    match e
    case Field(a, field) =>
      ExprAlike(env, env1, a, n, fs);
      AlikeWith([], GenExpr(env, a, n, fs), GenExpr(env1, a, n, fs), [Load(High(n), High(n), 8 * field)],
        SameTargets(Calls(a), env, env1));
    case FieldAddr(a, field) =>
      ExprAlike(env, env1, a, n, fs);
      AlikeWith([], GenExpr(env, a, n, fs), GenExpr(env1, a, n, fs), FieldAddrInsns(n, field),
        SameTargets(Calls(a), env, env1));
    case Bin(op, l, r) =>
      ExprAlike(env, env1, l, n, fs);
      ExprAlike(env, env1, r, n + 1, fs);
      AlikeConcat(GenExpr(env, l, n, fs), GenExpr(env, r, n + 1, fs), GenExpr(env1, l, n, fs),
                  GenExpr(env1, r, n + 1, fs), Calls(l), Calls(r), env, env1);
      AlikeWith([], GenExpr(env, l, n, fs) + GenExpr(env, r, n + 1, fs), GenExpr(env1, l, n, fs) + GenExpr(env1, r,
                n + 1, fs), BinInsns(op, n), SameTargets(Calls(l) + Calls(r), env, env1));
    case Apply(f, args) => CallAlike(env, env1, f, args, n, fs);
    case _ => LeafAlike(env, env1, e, n, fs);
  }

  lemma LeafAlike(env: Env, env1: Env, e: Expr, n: nat, fs: int)
    requires e.Lit? || e.Address? || e.Var? || e.VarAddr?
    ensures Alike(GenExpr(env, e, n, fs), GenExpr(env1, e, n, fs), SameTargets(Calls(e), env, env1))
  {
  }

  lemma CallAlike(env: Env, env1: Env, f: Name, args: List<Expr>, n: nat, fs: int)
    ensures Alike(GenExpr(env, Apply(f, args), n, fs), GenExpr(env1, Apply(f, args), n, fs),
      SameTargets({f} + ArgsCalls(args), env, env1))
    decreases args, 1
  {
    hide Alike, SameTargets, ResultInsns, RestoreInsns, GenArgs, SaveInsns, ArgsCalls;
    var same := SameTargets(ArgsCalls(args) + {f}, env, env1);
    var a, a1 := GenArgs(env, args, 0, fs + n), GenArgs(env1, args, 0, fs + n);
    var c, c1 := [Call(FnTarget(env, f))], [Call(FnTarget(env1, f))];
    ArgsAlike(env, env1, args, 0, fs + n);
    AlikeCall(f, env, env1);
    AlikeConcat(a, c, a1, c1, ArgsCalls(args), {f}, env, env1);
    AlikeWith(SaveInsns(n), a + c, a1 + c1, [], same);
    assert SaveInsns(n) + (a + c) == GenCall(env, f, args, n, fs)
      && SaveInsns(n) + (a1 + c1) == GenCall(env1, f, args, n, fs);
    AlikeWith([], GenCall(env, f, args, n, fs), GenCall(env1, f, args, n, fs), ResultInsns(n), same);
    AlikeWith([], GenCall(env, f, args, n, fs) + ResultInsns(n), GenCall(env1, f, args, n, fs) + ResultInsns(n),
      RestoreInsns(0, n), same);
    assert ArgsCalls(args) + {f} == {f} + ArgsCalls(args);
  }

  lemma {:induction false} ArgsAlike(env: Env, env1: Env, es: List<Expr>, n: nat, fs: int)
    ensures Alike(GenArgs(env, es, n, fs), GenArgs(env1, es, n, fs), SameTargets(ArgsCalls(es), env, env1))
    decreases es, 0
  {
    hide GenExpr, Calls, Alike, SameTargets;
    if es.Cons? {
      ExprAlike(env, env1, es.head, n, fs);
      ArgsAlike(env, env1, es.tail, n + 1, fs);
      AlikeConcat(GenExpr(env, es.head, n, fs), GenArgs(env, es.tail, n + 1, fs), GenExpr(env1, es.head, n, fs),
                  GenArgs(env1, es.tail, n + 1, fs), Calls(es.head), ArgsCalls(es.tail), env, env1);
    } else {
      NoneAlike([], env, env1);
    }
  }

  lemma NoneAlike(a: seq<Insn>, env: Env, env1: Env)
    ensures Alike(a, a, SameTargets({}, env, env1))
  {
  }

  lemma ComparisonAlike(env: Env, env1: Env, c: Comparison, fs: int, positive: bool, t: Target)
    ensures Alike(GenComparison(env, c, fs, positive, t), GenComparison(env1, c, fs, positive, t),
                  SameTargets(Calls(c.l) + Calls(c.r), env, env1))
  {
    hide GenExpr, Calls, Alike, SameTargets, JumpInsns, Negate;
    ExprAlike(env, env1, c.l, 0, fs);
    ExprAlike(env, env1, c.r, 1, fs);
    AlikeConcat(GenExpr(env, c.l, 0, fs), GenExpr(env, c.r, 1, fs), GenExpr(env1, c.l, 0, fs),
                GenExpr(env1, c.r, 1, fs), Calls(c.l), Calls(c.r), env, env1);
    AlikeWith([], GenExpr(env, c.l, 0, fs) + GenExpr(env, c.r, 1, fs), GenExpr(env1, c.l, 0, fs) + GenExpr(env1, c.r,
              1, fs), JumpInsns(if positive then c.rel else Negate(c.rel), t), SameTargets(Calls(c.l) + Calls(c.r),
                env, env1));
  }

  lemma {:induction false} AndAlike(env: Env, env1: Env, cs: List<Comparison>, fs: int, elseT: Target, positive: bool,
                                    lastT: Target)
    ensures Alike(GenAnd(env, cs, fs, elseT, positive, lastT), GenAnd(env1, cs, fs, elseT, positive, lastT),
                  SameTargets(AndCalls(cs), env, env1))
    decreases cs
  {
    hide GenComparison, Calls, Alike, SameTargets;
    NoneAlike([], env, env1);
    if cs.Cons? {
      var c, gs := cs.head, Calls(cs.head.l) + Calls(cs.head.r);
      ComparisonAlike(env, env1, c, fs, positive, lastT);
      ComparisonAlike(env, env1, c, fs, false, elseT);
      if cs.tail.Cons? {
        AndAlike(env, env1, cs.tail, fs, elseT, positive, lastT);
        AlikeConcat(GenComparison(env, c, fs, false, elseT), GenAnd(env, cs.tail, fs, elseT, positive, lastT),
                    GenComparison(env1, c, fs, false, elseT), GenAnd(env1, cs.tail, fs, elseT, positive, lastT),
                    gs, AndCalls(cs.tail), env, env1);
      } else {
        assert AndCalls(cs) == gs + {} == gs;
      }
    }
  }

  lemma {:induction false} OrAlike(env: Env, env1: Env, ands: BoolExpr, pc: int, fs: int, thenT: Target, elseT: Target)
    ensures Alike(GenOr(env, ands, pc, fs, thenT, elseT), GenOr(env1, ands, pc, fs, thenT, elseT),
      SameTargets(OrCalls(ands), env, env1))
    decreases ands
  {
    hide GenAnd, AndSize, AndCalls, Alike, SameTargets;
    NoneAlike([], env, env1);
    if ands.Cons? {
      var next := pc + AndSize(ands.head, fs);
      AndAlike(env, env1, ands.head, fs, elseT, false, elseT);
      AndAlike(env, env1, ands.head, fs, At(next), true, thenT);
      OrAlike(env, env1, ands.tail, next, fs, thenT, elseT);
      AlikeConcat(GenAnd(env, ands.head, fs, At(next), true, thenT), GenOr(env, ands.tail, next, fs, thenT, elseT),
                  GenAnd(env1, ands.head, fs, At(next), true, thenT), GenOr(env1, ands.tail, next, fs, thenT, elseT),
                  AndCalls(ands.head), OrCalls(ands.tail), env, env1);
      assert OrCalls(List.Nil) == {} && AndCalls(ands.head) + {} == AndCalls(ands.head);
    }
  }

  lemma {:induction false} StmtAlike(env: Env, env1: Env, s: Stmt, pc: int, fs: nat, brk: Target)
    ensures Alike(GenStmt(env, s, pc, fs, brk), GenStmt(env1, s, pc, fs, brk), SameTargets(StmtCalls(s), env, env1))
    decreases s
  {
    hide Alike, SameTargets, GenExpr, GenOr, GenBlock, ReturnInsns, OrSize, BlockSize, BlockReachable, Calls, OrCalls,
      BlockCalls, JumpOver;
    match s
    case SetVar(x, e) =>
      ExprAlike(env, env1, e, 0, fs);
      AlikeWith([], GenExpr(env, e, 0, fs), GenExpr(env1, e, 0, fs), [Store(RSP, 8 * (fs - x), R8)],
        SameTargets(Calls(e), env, env1));
    case SetField(a, field, e) =>
      ExprAlike(env, env1, a, 0, fs);
      ExprAlike(env, env1, e, 1, fs);
      AlikeConcat(GenExpr(env, a, 0, fs), GenExpr(env, e, 1, fs), GenExpr(env1, a, 0, fs), GenExpr(env1, e, 1, fs),
                  Calls(a), Calls(e), env, env1);
      AlikeWith([], GenExpr(env, a, 0, fs) + GenExpr(env, e, 1, fs), GenExpr(env1, a, 0, fs) + GenExpr(env1, e, 1, fs),
                [Store(R8, 8 * field, R9)], SameTargets(Calls(a) + Calls(e), env, env1));
    case Eval(e) => ExprAlike(env, env1, e, 0, fs);
    case If(c, thn) =>
      var b := pc + OrSize(c, fs);
      OrBlockAlike(env, env1, c, pc, fs, At(b), At(b + BlockSize(thn, fs)), thn, b, brk);
    case IfElse(c, thn, els) =>
      var b := pc + OrSize(c, fs);
      var e := b + BlockSize(thn, fs) + (if BlockReachable(thn) then 5 else 0);
      var end := e + BlockSize(els, fs);
      var gs := OrCalls(c) + BlockCalls(thn);
      var x, x1 := GenOr(env, c, pc, fs, At(b), At(e)) + GenBlock(env, thn, b, fs, brk),
        GenOr(env1, c, pc, fs, At(b), At(e)) + GenBlock(env1, thn, b, fs, brk);
      OrBlockAlike(env, env1, c, pc, fs, At(b), At(e), thn, b, brk);
      AlikeWith([], x, x1, JumpOver(thn, end), SameTargets(gs, env, env1));
      BlockAlike(env, env1, els, e, fs, brk);
      AlikeConcat(x + JumpOver(thn, end), GenBlock(env, els, e, fs, brk), x1 + JumpOver(thn, end),
                  GenBlock(env1, els, e, fs, brk), gs, BlockCalls(els), env, env1);
    case While(c, body) =>
      var b := pc + OrSize(c, fs);
      var end := b + BlockSize(body, fs) + 5;
      OrBlockAlike(env, env1, c, pc, fs, At(b), At(end), body, b, At(end));
      AlikeWith([], GenOr(env, c, pc, fs, At(b), At(end)) + GenBlock(env, body, b, fs, At(end)),
                GenOr(env1, c, pc, fs, At(b), At(end)) + GenBlock(env1, body, b, fs, At(end)), [Jmp(At(pc))],
                SameTargets(OrCalls(c) + BlockCalls(body), env, env1));
    case Loop(body) =>
      var end := pc + BlockSize(body, fs) + 5;
      BlockAlike(env, env1, body, pc, fs, At(end));
      AlikeWith([], GenBlock(env, body, pc, fs, At(end)), GenBlock(env1, body, pc, fs, At(end)), [Jmp(At(pc))],
                SameTargets(BlockCalls(body), env, env1));
    case Break => NoneAlike([Jmp(brk)], env, env1);
    case Return => NoneAlike(ReturnInsns(fs), env, env1);
    case ReturnValue(e) =>
      ExprAlike(env, env1, e, 0, fs);
      AlikeWith([], GenExpr(env, e, 0, fs), GenExpr(env1, e, 0, fs), ReturnInsns(fs), SameTargets(Calls(e), env, env1));
  }

  lemma OrBlockAlike(env: Env, env1: Env, c: BoolExpr, pc: int, fs: nat, thenT: Target, elseT: Target, ss: List<Stmt>,
                     b: int, brk: Target)
    ensures Alike(GenOr(env, c, pc, fs, thenT, elseT) + GenBlock(env, ss, b, fs, brk),
                  GenOr(env1, c, pc, fs, thenT, elseT) + GenBlock(env1, ss, b, fs, brk),
                  SameTargets(OrCalls(c) + BlockCalls(ss), env, env1))
    decreases ss, 1
  {
    hide Alike, SameTargets, GenOr, GenBlock, OrCalls, BlockCalls;
    OrAlike(env, env1, c, pc, fs, thenT, elseT);
    BlockAlike(env, env1, ss, b, fs, brk);
    AlikeConcat(GenOr(env, c, pc, fs, thenT, elseT), GenBlock(env, ss, b, fs, brk),
                GenOr(env1, c, pc, fs, thenT, elseT), GenBlock(env1, ss, b, fs, brk), OrCalls(c), BlockCalls(ss), env,
                  env1);
  }

  lemma {:induction false} BlockAlike(env: Env, env1: Env, ss: List<Stmt>, pc: int, fs: nat, brk: Target)
    ensures Alike(GenBlock(env, ss, pc, fs, brk), GenBlock(env1, ss, pc, fs, brk),
      SameTargets(BlockCalls(ss), env, env1))
    decreases ss, 0
  {
    hide GenStmt, StmtSize, StmtCalls, Alike, SameTargets;
    if ss.Cons? {
      var next := pc + StmtSize(ss.head, fs);
      StmtAlike(env, env1, ss.head, pc, fs, brk);
      BlockAlike(env, env1, ss.tail, next, fs, brk);
      AlikeConcat(GenStmt(env, ss.head, pc, fs, brk), GenBlock(env, ss.tail, next, fs, brk),
                  GenStmt(env1, ss.head, pc, fs, brk), GenBlock(env1, ss.tail, next, fs, brk), StmtCalls(ss.head),
                    BlockCalls(ss.tail), env, env1);
    } else {
      NoneAlike([], env, env1);
    }
  }

  lemma ItemAlike(env: Env, env1: Env, item: Item, pc: int, fs: nat)
    ensures Alike(GenItem(env, item, pc, fs), GenItem(env1, item, pc, fs), SameTargets(ItemCalls(item), env, env1))
  {
    hide GenExpr, GenStmt, Calls, StmtCalls, SaveInsns, Alike, SameTargets;
    match item
    case Let(e) =>
      ExprAlike(env, env1, e, 0, fs);
      AlikeWith([], GenExpr(env, e, 0, fs), GenExpr(env1, e, 0, fs), SaveInsns(1), SameTargets(Calls(e), env, env1));
    case Do(s) => StmtAlike(env, env1, s, pc, fs, Ref(Local(0)));
  }

  lemma {:induction false} ItemsAlike(env: Env, env1: Env, items: List<Item>, pc: int, fs: nat)
    ensures Alike(GenItems(env, items, pc, fs), GenItems(env1, items, pc, fs), SameTargets(ItemsCalls(items), env,
      env1))
    decreases items
  {
    hide GenItem, ItemSize, ItemCalls, Alike, SameTargets;
    if items.Cons? {
      var next, fs1 := pc + ItemSize(items.head, fs), fs + (if items.head.Let? then 1 else 0);
      ItemAlike(env, env1, items.head, pc, fs);
      ItemsAlike(env, env1, items.tail, next, fs1);
      AlikeConcat(GenItem(env, items.head, pc, fs), GenItems(env, items.tail, next, fs1),
                  GenItem(env1, items.head, pc, fs), GenItems(env1, items.tail, next, fs1), ItemCalls(items.head),
                    ItemsCalls(items.tail), env, env1);
    } else {
      NoneAlike([], env, env1);
    }
  }

  lemma FnAlike(env: Env, env1: Env, fn: Fn, pc: int)
    ensures GenFn(env, fn, pc) == GenFn(env1, fn, pc) <==> SameTargets(ItemsCalls(fn.body), env, env1)
    ensures |GenFn(env, fn, pc)| == |GenFn(env1, fn, pc)|
  {
    hide GenItems, SaveInsns, ReturnInsns, Lets, ItemsReachable, SameTargets, ItemsCalls;
    ItemsAlike(env, env1, fn.body, pc + 2 * fn.arity, fn.arity);
    var leave := if ItemsReachable(fn.body) then ReturnInsns(fn.arity + Lets(fn.body)) else [];
    AlikeWith(SaveInsns(fn.arity), GenItems(env, fn.body, pc + 2 * fn.arity, fn.arity),
              GenItems(env1, fn.body, pc + 2 * fn.arity, fn.arity), leave, SameTargets(ItemsCalls(fn.body), env, env1));
  }

  // ----- where the functions of a unit are -----

  lemma SegmentPlace(a: seq<Insn>, b: seq<Insn>, a1: seq<Insn>, b1: seq<Insn>)
    requires a + b == a1 + b1 && SizeOf(a) == SizeOf(a1)
    ensures a == a1 && b == b1
  {
    hide SizeOf, Size;
    if |a| < |a1| { PrefixSmaller(a, b, a1, b1); }
    if |a1| < |a| { PrefixSmaller(a1, b1, a, b); }
    assert a == (a + b)[..|a|] && a1 == (a1 + b1)[..|a1|];
    assert b == (a + b)[|a|..] && b1 == (a1 + b1)[|a1|..];
  }

  lemma PrefixSmaller(a: seq<Insn>, b: seq<Insn>, a1: seq<Insn>, b1: seq<Insn>)
    requires a + b == a1 + b1 && |a| < |a1|
    ensures SizeOf(a) < SizeOf(a1)
  {
    hide Size;
    var more := a1[|a|..];
    assert a1 == a + more by {
      assert a == (a + b)[..|a|] && a1[..|a|] == (a1 + b1)[..|a|];
    }
    SizeOfConcat(a, more);
    assert SizeOf(more) == Size(more[0]) + SizeOf(more[1..]);
  }

  /** The same code at the same place. */
  lemma SegmentsSame(code: seq<Insn>, pc: int, part: seq<Insn>, part1: seq<Insn>)
    requires Segment(code, pc, part) && Segment(code, pc, part1) && |part| == |part1|
    ensures part == part1
  {
    hide SizeOf;
    var a, c :| code == a + part + c && SizeOf(a) == pc;
    var a1, c1 :| code == a1 + part1 + c1 && SizeOf(a1) == pc;
    assert code == a + (part + c);
    assert code == a1 + (part1 + c1);
    SegmentPlace(a, part + c, a1, part1 + c1);
    assert part == (part + c)[..|part|] && part1 == (part1 + c1)[..|part|];
  }

  /** The calls of every compiled function go where the symbols say. */
  predicate WellLinked(u: CompUnit) {
    forall g :: g in u.fns && g in u.links ==> SameTargets(ItemsCalls(u.fns[g].body), u.links[g], EnvOf(u.syms))
  }

  /** The code of a unit is that of its functions, as its symbols say, exactly if its calls go where the symbols say. */
  lemma PlacedIffLinked(u: CompUnit, code: seq<Insn>)
    requires Compiled(u.syms, u.links, code, u.fns)
    ensures FnsPlaced(EnvOf(u.syms), code, u.fns) <==> WellLinked(u)
  {
    hide EnvOf, CompiledFn, FnPlaced, SameTargets, ItemsCalls, AllEncodable, AllFnsEncodable;
    forall g | g in u.fns
      ensures g in u.links
      ensures FnPlaced(EnvOf(u.syms), code, g, u.fns[g])
        <==> SameTargets(ItemsCalls(u.fns[g].body), u.links[g], EnvOf(u.syms))
    {
      assert CompiledFn(u.syms, u.links, code, g, u.fns[g]);
      FnPlacedIff(u, code, g);
    }
  }

  lemma FnPlacedIff(u: CompUnit, code: seq<Insn>, g: Name)
    requires g in u.fns && CompiledFn(u.syms, u.links, code, g, u.fns[g])
    ensures g in u.links
    ensures FnPlaced(EnvOf(u.syms), code, g, u.fns[g])
      <==> SameTargets(ItemsCalls(u.fns[g].body), u.links[g], EnvOf(u.syms))
  {
    EnvAt(u.syms, g);
    hide EnvOf, SameTargets, ItemsCalls, Segment, GenFn, FnFits;
    var env, env1, fn := u.links[g], EnvOf(u.syms), u.fns[g];
    var pc := env1[g].offset;
    FnAlike(env, env1, fn, pc);
    if FnPlaced(env1, code, g, fn) { SegmentsSame(code, pc, GenFn(env, fn, pc), GenFn(env1, fn, pc)); }
  }

  // ----- the condition on the source -----

  predicate Declares(d: Decl, f: Name) { d.DFn? && d.name == f }

  /** The offset at which a function is declared next, and last, in the declarations that come after unit u. */
  function NextFn(u: CompUnit, at: nat, ds: List<Decl>, f: Name): Option<nat>
    decreases ds
  {
    if ds.Nil? || ElabDecl(u, at, ds.head).None? then None
    else if Declares(ds.head, f) then Some(at)
    else
      var v := ElabDecl(u, at, ds.head).value;
      NextFn(v, at + DeclSize(v, ds.head), ds.tail, f)
  }

  function LastFn(u: CompUnit, at: nat, ds: List<Decl>, f: Name): Option<nat>
    decreases ds
  {
    if ds.Nil? || ElabDecl(u, at, ds.head).None? then None
    else
      var v := ElabDecl(u, at, ds.head).value;
      var last := LastFn(v, at + DeclSize(v, ds.head), ds.tail, f);
      if last.None? && Declares(ds.head, f) then Some(at) else last
  }

  /** Some function calls one that is not defined yet, and whose next declaration, another forward one, is not at the
      offset of its definition. */
  ghost predicate CalledEarly(u: CompUnit, at: nat, ds: List<Decl>)
    decreases ds
  {
    ds.Cons? && ElabDecl(u, at, ds.head).Some?
    && var v := ElabDecl(u, at, ds.head).value;
       var next := at + DeclSize(v, ds.head);
       CallsEarly(v, next, ds.tail, ds.head) || CalledEarly(v, next, ds.tail)
  }

  /** A call in the function that d defines does so; u is the unit after d, and ds are the declarations after it. */
  ghost predicate CallsEarly(u: CompUnit, at: nat, ds: List<Decl>, d: Decl) {
    d.DFn? && d.body.Items? && d.name in u.fns && exists f ::
      f in ItemsCalls(u.fns[d.name].body) && WaitsWrongly(u, at, ds, f)
  }

  predicate WaitsWrongly(u: CompUnit, at: nat, ds: List<Decl>, f: Name) {
    f !in EnvOf(u.syms) && NextFn(u, at, ds, f) != LastFn(u, at, ds, f)
  }

  /** The functions with a body are defined once, and their links are kept. */
  ghost predicate UnitOk(u: CompUnit) { forall g :: g in u.fns ==> g in u.links && g in EnvOf(u.syms) }

  function TargetOf(f: Name, at: Option<nat>): Target { if at.None? then Ref(Forward(f)) else At(at.value) }

  /** What a declaration does to the unit. */
  ghost predicate Declared(u: CompUnit, at: nat, d: Decl, v: CompUnit) {
    if !d.DFn? then EnvOf(v.syms) == EnvOf(u.syms) && v.links == u.links && v.fns == u.fns
      && Forwards(v.syms) == Forwards(u.syms)
    else
      var f := d.name;
      && f !in EnvOf(u.syms)
      && if d.body.Declared? then
           EnvOf(v.syms) == EnvOf(u.syms) && Forwards(v.syms) == Forwards(u.syms) + {f}
           && v.links == Relinked(u.links, f, at) && v.fns == u.fns
         else
           EnvOf(v.syms) == EnvOf(u.syms)[f := At(at)] && Forwards(v.syms) == Forwards(u.syms) - {f}
           && if d.body.Asm? then
                v.links == Relinked(u.links, f, at) && v.fns == u.fns
              else
                v.links == Relinked(u.links, f, at)[f := EnvOf(v.syms)] && f in v.fns
                && v.fns == u.fns[f := v.fns[f]]
  }

  lemma DeclaredIs(u: CompUnit, at: nat, d: Decl)
    requires ElabDecl(u, at, d).Some?
    ensures Declared(u, at, d, ElabDecl(u, at, d).value)
  {
    hide ElabParams, ElabRet, ElabItems, ElabType, ItemsReachable, HasParam, Distinct, ParamSymbols, EnvOf, Forwards;
    var v := ElabDecl(u, at, d).value;
    match d
    case DConst(x, _, _) => OtherSymbol(u.syms, x, v.syms[x]);
    case DStatic(x, _) => OtherSymbol(u.syms, x, v.syms[x]);
    case DStruct(x, _) => OtherSymbol(u.syms, x, v.syms[x]);
    case DFn(f, _, _, _) => FnSymbolSet(u.syms, f, v.syms[f]);
  }

  lemma OtherSymbol(syms: Symbols, x: Name, sym: Symbol)
    requires x !in syms && !sym.FnSymbol?
    ensures EnvOf(syms[x := sym]) == EnvOf(syms) && Forwards(syms[x := sym]) == Forwards(syms)
  {
  }

  lemma FnSymbolSet(syms: Symbols, f: Name, sym: Symbol)
    requires (f !in syms || IsForward(syms[f])) && sym.FnSymbol?
    ensures f !in EnvOf(syms)
    ensures var syms1 := syms[f := sym];
      if sym.target.None? then EnvOf(syms1) == EnvOf(syms) && Forwards(syms1) == Forwards(syms) + {f}
      else EnvOf(syms1) == EnvOf(syms)[f := At(sym.target.value)] && Forwards(syms1) == Forwards(syms) - {f}
  {
  }

  /** A call of f in a function g compiled before: it stays where it goes, or goes where f is declared next. */
  lemma {:induction false} LinkOf(u: CompUnit, at: nat, ds: List<Decl>, g: Name, f: Name)
    requires ElabDecls(u, at, ds).Some? && UnitOk(u) && g in u.fns
    ensures var w := ElabDecls(u, at, ds).value.0;
      g in u.links && UnitOk(w) && g in w.fns && w.fns[g] == u.fns[g] && g in w.links
      && FnTarget(w.links[g], f) == if f in u.links[g] then u.links[g][f] else TargetOf(f, NextFn(u, at, ds, f))
    decreases ds
  {
    hide ElabDecl, EnvOf, DeclSize, Forwards, Declared, Relinked;
    if ds.Cons? {
      var v := ElabDecl(u, at, ds.head).value;
      DeclaredIs(u, at, ds.head);
      LinkStep(u, at, ds.head, v, g, f);
      LinkOf(v, at + DeclSize(v, ds.head), ds.tail, g, f);
    }
  }

  lemma LinkStep(u: CompUnit, at: nat, d: Decl, v: CompUnit, g: Name, f: Name)
    requires UnitOk(u) && Declared(u, at, d, v) && g in u.fns
    ensures UnitOk(v) && g in u.links && g in v.fns && v.fns[g] == u.fns[g] && g in v.links
    ensures if f in u.links[g] then f in v.links[g] && v.links[g][f] == u.links[g][f]
            else if Declares(d, f) then f in v.links[g] && v.links[g][f] == At(at) else f !in v.links[g]
  {
    hide EnvOf, Forwards;
    DeclaredOk(u, at, d, v);
  }

  lemma DeclaredOk(u: CompUnit, at: nat, d: Decl, v: CompUnit)
    requires UnitOk(u) && Declared(u, at, d, v)
    ensures UnitOk(v)
  {
    hide EnvOf, Forwards;
  }

  /** Where a function is in the end. */
  lemma {:induction false} SymbolOf(u: CompUnit, at: nat, ds: List<Decl>, f: Name)
    requires ElabDecls(u, at, ds).Some?
    ensures var w := ElabDecls(u, at, ds).value.0;
      (f in EnvOf(u.syms) ==> LastFn(u, at, ds, f).None? && f in EnvOf(w.syms) && EnvOf(w.syms)[f] == EnvOf(u.syms)[f])
      && (f in Forwards(u.syms) && LastFn(u, at, ds, f).None? ==> f in Forwards(w.syms))
      && (f !in Forwards(w.syms) && f !in EnvOf(u.syms) ==>
        FnTarget(EnvOf(w.syms), f) == TargetOf(f, LastFn(u, at, ds, f)))
    decreases ds
  {
    hide ElabDecl, EnvOf, DeclSize, Forwards;
    if ds.Cons? {
      var v := ElabDecl(u, at, ds.head).value;
      DeclaredIs(u, at, ds.head);
      SymbolOf(v, at + DeclSize(v, ds.head), ds.tail, f);
    }
  }

  /** The functions that the declarations define are linked well exactly if none of them is called early. */
  ghost predicate LinkedAfter(u: CompUnit, w: CompUnit) {
    forall g ::
      g in w.fns && g in w.links && g !in u.fns ==> SameTargets(ItemsCalls(w.fns[g].body), w.links[g], EnvOf(w.syms))
  }

  lemma {:induction false} EarlyIff(u: CompUnit, at: nat, ds: List<Decl>)
    requires ElabDecls(u, at, ds).Some? && UnitOk(u) && Forwards(ElabDecls(u, at, ds).value.0.syms) == {}
    ensures LinkedAfter(u, ElabDecls(u, at, ds).value.0) <==> !CalledEarly(u, at, ds)
    decreases ds
  {
    hide ElabDecl, EnvOf, DeclSize, Forwards, ItemsCalls, SameTargets, CallsEarly;
    if ds.Cons? {
      var d, v := ds.head, ElabDecl(u, at, ds.head).value;
      var next := at + DeclSize(v, d);
      DeclaredIs(u, at, d);
      DeclaredOk(u, at, d, v);
      var w := ElabDecls(u, at, ds).value.0;
      EarlyIff(v, next, ds.tail);
      if d.DFn? && d.body.Items? {
        OneEarly(v, next, ds.tail, d, w);
        NewlyDefined(u, at, d, v, w);
      } else {
        assert !CallsEarly(v, next, ds.tail, d) by { NotDefined(v, next, ds.tail, d); }
      }
    }
  }

  lemma NotDefined(u: CompUnit, at: nat, ds: List<Decl>, d: Decl)
    requires !(d.DFn? && d.body.Items?)
    ensures !CallsEarly(u, at, ds, d)
  {
  }

  lemma NewlyDefined(u: CompUnit, at: nat, d: Decl, v: CompUnit, w: CompUnit)
    requires UnitOk(u) && Declared(u, at, d, v) && d.DFn? && d.body.Items? && d.name in w.fns && d.name in w.links
    ensures LinkedAfter(u, w) <==> LinkedAfter(v, w) && SameTargets(ItemsCalls(w.fns[d.name].body), w.links[d.name],
      EnvOf(w.syms))
  {
    hide EnvOf, ItemsCalls, SameTargets, Forwards;
    assert d.name !in u.fns && v.fns.Keys == u.fns.Keys + {d.name};
  }

  /** For one function. */
  lemma OneEarly(v: CompUnit, at: nat, ds: List<Decl>, d: Decl, w: CompUnit)
    requires ElabDecls(v, at, ds).Some? && w == ElabDecls(v, at, ds).value.0 && UnitOk(v) && Forwards(w.syms) == {}
    requires d.DFn? && d.body.Items? && d.name in v.fns && v.links[d.name] == EnvOf(v.syms)
    ensures d.name in w.fns && d.name in w.links
    ensures SameTargets(ItemsCalls(w.fns[d.name].body), w.links[d.name], EnvOf(w.syms)) <==> !CallsEarly(v, at, ds, d)
  {
    hide EnvOf, ElabDecls, NextFn, LastFn, Forwards, ItemsCalls;
    var g := d.name;
    LinkOf(v, at, ds, g, g);
    forall f ensures g in w.fns && w.fns[g] == v.fns[g] && g in w.links
      && (FnTarget(w.links[g], f) == FnTarget(EnvOf(w.syms), f) <==> !WaitsWrongly(v, at, ds, f))
    {
      LinkOf(v, at, ds, g, f);
      SymbolOf(v, at, ds, f);
    }
  }

  /** For a whole program: its calls all go to the functions that they name exactly if none is called early. */
  lemma LinkedIffNotEarly(ds: List<Decl>)
    requires ElabDecls(NO_UNIT, 0, ds).Some? && Forwards(ElabDecls(NO_UNIT, 0, ds).value.0.syms) == {}
    ensures WellLinked(ElabDecls(NO_UNIT, 0, ds).value.0) <==> !CalledEarly(NO_UNIT, 0, ds)
  {
    hide ElabDecls, CalledEarly, Forwards, SameTargets, ItemsCalls, EnvOf;
    EarlyIff(NO_UNIT, 0, ds);
  }

  /** The declaration `fn g();`. */
  function ForwardOf(g: Name): Decl { DFn(g, List.Nil, None, Body.Declared) }

  /** The function `fn a() { g(); }`. */
  function CallerOf(a: Name, g: Name): Decl { DFn(a, List.Nil, None,
                    Items(List.Cons(TDo(TEval(TCall(g, List.Nil))), List.Nil))) }

  /** A static block of one byte, and the function `fn g() [195]`. */
  function BlockAndFn(s: Name, g: Name): List<Decl> {
    List.Cons(DStatic(s, List.Cons(0, List.Nil)), List.Cons(DFn(g, List.Nil, None, Asm(List.Cons(195, List.Nil))),
      List.Nil))
  }

  /** A call of g between two forward declarations of it, with a static block before its definition: the call goes to
      the block. */
  lemma EarlyExample(g: Name, a: Name, s: Name)
    requires g != a && g != s && a != s
    ensures CalledEarly(NO_UNIT, 0,
      List.Cons(ForwardOf(g), List.Cons(CallerOf(a, g), List.Cons(ForwardOf(g), BlockAndFn(s, g)))))
  {
    hide ElabDecl, DeclSize, ForwardOf, CallerOf, BlockAndFn, EnvOf, ItemsCalls, WaitsWrongly;
    var rest := List.Cons(ForwardOf(g), BlockAndFn(s, g));
    var u := ForwardStep(NO_UNIT, 0, g);
    var v := CallerStep(u, 0, a, g);
    var n := DeclSize(v, CallerOf(a, g));
    EndStep(v, n, g, s);
    assert CallsEarly(v, n, rest, CallerOf(a, g)) by { CallerIs(a, g); }
    assert CalledEarly(u, 0, List.Cons(CallerOf(a, g), rest));
  }

  lemma CallerIs(a: Name, g: Name)
    ensures CallerOf(a, g).DFn? && CallerOf(a, g).body.Items? && CallerOf(a, g).name == a
  {
  }

  lemma ForwardStep(u: CompUnit, at: nat, g: Name) returns (v: CompUnit)
    requires g in u.syms ==> u.syms[g] == FnSymbol(None, [], None)
    ensures ElabDecl(u, at, ForwardOf(g)) == Some(v) && DeclSize(v, ForwardOf(g)) == 0
    ensures v.syms == u.syms[g := FnSymbol(None, [], None)]
  {
    hide Relinked;
    v := CompUnit(u.syms[g := FnSymbol(None, [], None)], u.fns, Relinked(u.links, g, at));
  }

  lemma CallerStep(u: CompUnit, at: nat, a: Name, g: Name) returns (v: CompUnit)
    requires g in u.syms && u.syms[g] == FnSymbol(None, [], None) && a !in u.syms
    ensures ElabDecl(u, at, CallerOf(a, g)) == Some(v) && v.syms == u.syms[a := FnSymbol(Some(at), [], None)]
    ensures a in v.fns && g in ItemsCalls(v.fns[a].body)
  {
    hide Relinked, ElabItems, ItemsCalls, EnvOf, ItemsReachable;
    var syms := u.syms[a := FnSymbol(Some(at), [], None)];
    var core := ExampleBody(syms, g);
    v := CompUnit(syms, u.fns[a := Fn(0, core)], Relinked(u.links, a, at)[a := EnvOf(syms)]);
    assert ParamSymbols(syms, List.Nil, []) == syms;
  }

  lemma ExampleBody(syms: Symbols, g: Name) returns (core: List<Item>)
    requires g in syms && syms[g] == FnSymbol(None, [], None)
    ensures g in ItemsCalls(core)
    ensures ElabItems(syms, None, 1, List.Cons(TDo(TEval(TCall(g, List.Nil))), List.Nil)) == Some((syms, 1, core))
  {
    core := List.Cons(Do(Eval(Apply(g, List.Nil))), List.Nil);
    var item := TDo(TEval(TCall(g, List.Nil)));
    assert ElabArgs(syms, List.Nil) == Some((List.Nil, []));
    assert Elab(syms, TCall(g, List.Nil)) == Some(Elaborated(Apply(g, List.Nil), Value(FromVoid, 0, U64)));
    assert ElabItem(syms, None, 1, item) == Some((syms, core));
    assert ElabItems(syms, None, 1, List.Nil) == Some((syms, 1, List.Nil));
    assert Join(core, List.Nil) == core;
    assert g in Calls(Apply(g, List.Nil));
    assert ItemsCalls(core) == ItemCalls(core.head) + ItemsCalls(List.Nil);
  }

  /** The second forward declaration of g is at n, and its definition at n + 1. */
  lemma EndStep(v: CompUnit, n: nat, g: Name, s: Name)
    requires g in v.syms && v.syms[g] == FnSymbol(None, [], None) && s !in v.syms && g != s
    ensures WaitsWrongly(v, n, List.Cons(ForwardOf(g), BlockAndFn(s, g)), g)
  {
    hide ElabDecl, DeclSize, EnvOf;
    var forward, block, def := ForwardOf(g), DStatic(s, List.Cons(0, List.Nil)),
      DFn(g, List.Nil, None, Asm(List.Cons(195, List.Nil)));
    var u := ForwardStep(v, n, g);
    var w := BlockStep(u, n, s);
    DefStep(w, n + 1, g);
    assert LastFn(w, n + 1, List.Cons(def, List.Nil), g) == Some(n + 1);
    assert LastFn(u, n, List.Cons(block, List.Cons(def, List.Nil)), g) == Some(n + 1);
    NotInEnv(v.syms, g);
  }

  lemma NotInEnv(syms: Symbols, g: Name)
    requires g in syms && syms[g] == FnSymbol(None, [], None)
    ensures g !in EnvOf(syms)
  {
  }

  lemma BlockStep(u: CompUnit, at: nat, s: Name) returns (v: CompUnit)
    requires s !in u.syms
    ensures var d := DStatic(s, List.Cons(0, List.Nil)); ElabDecl(u, at, d) == Some(v) && DeclSize(v, d) == 1
    ensures v.syms == u.syms[s := StaticSymbol(at)]
  {
    v := u.(syms := u.syms[s := StaticSymbol(at)]);
    assert Count(List<u64>.Nil) == 0;
  }

  lemma DefStep(u: CompUnit, at: nat, g: Name)
    requires g in u.syms && u.syms[g] == FnSymbol(None, [], None)
    ensures ElabDecl(u, at, DFn(g, List.Nil, None, Asm(List.Cons(195, List.Nil)))).Some?
  {
    hide Relinked;
  }

  // ----- only functions that are declared are called -----

  function FnNames(syms: Symbols): set<Name> { set f | f in syms && syms[f].FnSymbol? }

  lemma {:induction false} CallsDeclared(syms: Symbols, e: Tree)
    requires Elab(syms, e).Some?
    ensures Calls(Elab(syms, e).value.core) <= FnNames(syms)
    decreases e
  {
    hide ElabName, ElabType, BinType, FieldOf, FnNames;
    match e
    case TCall(f, args) =>
      ArgsDeclared(syms, args);
      FnNameIs(syms, f);
    case TParen(a) => CallsDeclared(syms, a);
    case TPath(a, _) => CallsDeclared(syms, a);
    case TDeref(a) => CallsDeclared(syms, a);
    case TRef(a) => CallsDeclared(syms, a);
    case TCast(a, _) => CallsDeclared(syms, a);
    case TBin(_, l, r) =>
      CallsDeclared(syms, l);
      CallsDeclared(syms, r);
    case TName(x) => NameDeclared(syms, x);
    case _ =>
  }

  lemma FnNameIs(syms: Symbols, f: Name)
    ensures f in FnNames(syms) <==> f in syms && syms[f].FnSymbol?
  {
  }

  lemma NameDeclared(syms: Symbols, x: Name)
    ensures ElabName(syms, x).Some? ==> Calls(ElabName(syms, x).value.core) == {}
  {
  }

  lemma {:induction false} ArgsDeclared(syms: Symbols, es: List<Tree>)
    ensures ElabArgs(syms, es).Some? ==> ArgsCalls(ElabArgs(syms, es).value.0) <= FnNames(syms)
    decreases es
  {
    hide Elab, Calls, FnNames;
    if ElabArgs(syms, es).Some? && es.Cons? {
      CallsDeclared(syms, es.head);
      ArgsDeclared(syms, es.tail);
    }
  }

  lemma {:induction false} AndDeclared(syms: Symbols, cs: List<CompTree>)
    requires ElabAnd(syms, cs).Some?
    ensures AndCalls(ElabAnd(syms, cs).value) <= FnNames(syms)
    decreases cs
  {
    hide Elab, Calls, FnNames;
    if cs.Cons? {
      CallsDeclared(syms, cs.head.l);
      CallsDeclared(syms, cs.head.r);
      AndDeclared(syms, cs.tail);
    }
  }

  lemma {:induction false} BoolDeclared(syms: Symbols, ands: BoolTree)
    requires ElabBool(syms, ands).Some?
    ensures OrCalls(ElabBool(syms, ands).value) <= FnNames(syms)
    decreases ands
  {
    hide ElabAnd, AndCalls, FnNames;
    if ands.Cons? {
      AndDeclared(syms, ands.head);
      BoolDeclared(syms, ands.tail);
    }
  }

  lemma {:induction false} StmtDeclared(syms: Symbols, ret: Option<Type>, s: StmtTree)
    requires ElabStmt(syms, ret, s).Some?
    ensures StmtCalls(ElabStmt(syms, ret, s).value) <= FnNames(syms)
    decreases s
  {
    hide Elab, ElabBool, Calls, OrCalls, FnNames, HasType, Comparable, ElabStmts, BlockCalls;
    match s
    case TAssign(l, r) =>
      CallsDeclared(syms, l);
      CallsDeclared(syms, r);
      AssignCalls(Elab(syms, l).value, Elab(syms, r).value);
    case TEval(e) => CallsDeclared(syms, e);
    case TIf(c, thn) =>
      BoolDeclared(syms, c);
      BlockDeclared(syms, ret, thn);
    case TIfElse(c, thn, els) =>
      BoolDeclared(syms, c);
      BlockDeclared(syms, ret, thn);
      BlockDeclared(syms, ret, els);
    case TElseIf(c, thn, els) =>
      BoolDeclared(syms, c);
      BlockDeclared(syms, ret, thn);
      StmtDeclared(syms, ret, els);
      OneCalls(ElabStmt(syms, ret, els).value);
    case TWhile(c, body) =>
      BoolDeclared(syms, c);
      BlockDeclared(syms, ret, body);
    case TLoop(body) => BlockDeclared(syms, ret, body);
    case TReturnValue(e) => CallsDeclared(syms, e);
    case _ =>
  }

  lemma OneCalls(s: Stmt)
    ensures BlockCalls(List.Cons(s, List.Nil)) == StmtCalls(s)
  {
    hide StmtCalls;
    assert BlockCalls(List.Nil) == {};
  }

  lemma AssignCalls(l: Elaborated, r: Elaborated)
    ensures ElabAssign(l, r).Some? ==> StmtCalls(ElabAssign(l, r).value) <= Calls(l.core) + Calls(r.core)
  {
  }

  lemma {:induction false} BlockDeclared(syms: Symbols, ret: Option<Type>, ss: List<StmtTree>)
    requires ElabStmts(syms, ret, ss).Some?
    ensures BlockCalls(ElabStmts(syms, ret, ss).value) <= FnNames(syms)
    decreases ss
  {
    hide ElabStmt, StmtCalls, FnNames;
    if ss.Cons? {
      StmtDeclared(syms, ret, ss.head);
      BlockDeclared(syms, ret, ss.tail);
    }
  }

  lemma {:induction false} ItemsDeclared(syms: Symbols, ret: Option<Type>, next: nat, items: List<ItemTree>)
    requires ElabItems(syms, ret, next, items).Some?
    ensures ItemsCalls(ElabItems(syms, ret, next, items).value.2) <= FnNames(syms)
    decreases items
  {
    hide Elab, ElabStmt, LetType, ElabType, FnNames, Calls, StmtCalls;
    if items.Cons? {
      var item, s := items.head, ElabItem(syms, ret, next, items.head).value;
      ItemDeclared(syms, ret, next, item);
      ItemsDeclared(s.0, ret, next + (if item.TLet? then 1 else 0), items.tail);
      JoinCalls(s.1, ElabItems(s.0, ret, next + (if item.TLet? then 1 else 0), items.tail).value.2);
    }
  }

  lemma ItemDeclared(syms: Symbols, ret: Option<Type>, next: nat, item: ItemTree)
    requires ElabItem(syms, ret, next, item).Some?
    ensures var s := ElabItem(syms, ret, next, item).value;
      FnNames(s.0) == FnNames(syms) && ItemsCalls(s.1) <= FnNames(syms)
  {
    hide Elab, ElabStmt, LetType, ElabType, Calls, StmtCalls, FnNames;
    var s := ElabItem(syms, ret, next, item).value;
    assert ItemsCalls(List.Nil) == {};
    match item
    case TConst(x, _, _) => SameFnNames(syms, x, s.0[x]);
    case TLet(x, _, e) =>
      CallsDeclared(syms, e);
      SameFnNames(syms, x, s.0[x]);
    case TDo(st) => StmtDeclared(syms, ret, st);
  }

  lemma SameFnNames(syms: Symbols, x: Name, sym: Symbol)
    requires x !in syms && !sym.FnSymbol?
    ensures FnNames(syms[x := sym]) == FnNames(syms)
  {
  }

  lemma {:induction false} JoinCalls(l: List<Item>, m: List<Item>)
    ensures ItemsCalls(Join(l, m)) == ItemsCalls(l) + ItemsCalls(m)
    decreases l
  {
    hide ItemCalls;
    if l.Cons? { JoinCalls(l.tail, m); }
  }

  lemma {:induction false} ParamsFnNames(syms: Symbols, ps: List<Param>, tys: seq<Type>)
    requires forall x :: x in syms ==> !HasParam(ps, x)
    ensures FnNames(ParamSymbols(syms, ps, tys)) == FnNames(syms)
    decreases ps
  {
    if ps.Cons? && tys != [] { ParamsFnNames(syms, ps.tail, tys[1..]); }
  }

  /** The functions that a new function calls. */
  lemma FnDeclared(u: CompUnit, at: nat, d: Decl)
    requires d.DFn? && d.body.Items? && ElabDecl(u, at, d).Some?
    ensures d.name in ElabDecl(u, at, d).value.fns
    ensures var v := ElabDecl(u, at, d).value; ItemsCalls(v.fns[d.name].body) <= FnNames(v.syms)
  {
    hide ElabItems, ElabParams, ElabRet, ItemsReachable, Distinct, HasParam, ParamSymbols, ItemsCalls, FnNames, EnvOf,
      Relinked, IsForward;
    var v := ElabDecl(u, at, d).value;
    var tys, ret := ElabParams(u.syms[d.name := FnSymbol(Some(at), [], None)], d.params).value,
      ElabRet(u.syms[d.name := FnSymbol(Some(at), [], None)], d.ret).value;
    ParamsFnNames(v.syms, d.params, tys);
    ItemsDeclared(ParamSymbols(v.syms, d.params, tys), ret, |tys| + 1, d.body.items);
  }

  // ----- a simple case -----

  /** Never declared forward. */
  predicate NotForwardIn(ds: List<Decl>, f: Name) {
    ds.Cons? ==> !(Declares(ds.head, f) && ds.head.body.Declared?) && NotForwardIn(ds.tail, f)
  }

  /** Every function is declared forward once at most. */
  predicate ForwardOnce(ds: List<Decl>) {
    ds.Cons? ==>
      (ds.head.DFn? && ds.head.body.Declared? ==> NotForwardIn(ds.tail, ds.head.name)) && ForwardOnce(ds.tail)
  }

  /** Then none is called early. */
  lemma OnceIsEnough(ds: List<Decl>)
    requires ElabDecls(NO_UNIT, 0, ds).Some? && ForwardOnce(ds)
    ensures !CalledEarly(NO_UNIT, 0, ds)
  {
    hide ElabDecls, CalledEarly, ForwardOnce;
    OnceNotEarly(NO_UNIT, 0, ds);
  }

  lemma {:induction false} OnceNotEarly(u: CompUnit, at: nat, ds: List<Decl>)
    requires ElabDecls(u, at, ds).Some? && ForwardOnce(ds) && forall f :: f in Forwards(u.syms) ==> NotForwardIn(ds, f)
    ensures !CalledEarly(u, at, ds)
    decreases ds
  {
    hide ElabDecl, EnvOf, DeclSize, Forwards, CallsEarly, Relinked;
    if ds.Cons? {
      var d, v := ds.head, ElabDecl(u, at, ds.head).value;
      var next := at + DeclSize(v, d);
      DeclaredIs(u, at, d);
      OnceNotEarly(v, next, ds.tail);
      if d.DFn? && d.body.Items? {
        FnDeclared(u, at, d);
        NoneEarly(v, next, ds.tail, d);
      } else {
        NotDefined(v, next, ds.tail, d);
      }
    }
  }

  lemma NoneEarly(u: CompUnit, at: nat, ds: List<Decl>, d: Decl)
    requires ElabDecls(u, at, ds).Some? && forall f :: f in Forwards(u.syms) ==> NotForwardIn(ds, f)
    requires d.DFn? && d.body.Items? && d.name in u.fns && ItemsCalls(u.fns[d.name].body) <= FnNames(u.syms)
    ensures !CallsEarly(u, at, ds, d)
  {
    hide ElabDecls, EnvOf, ItemsCalls, NotForwardIn, NextFn, LastFn, Forwards, FnNames;
    forall f | f in FnNames(u.syms) ensures !WaitsWrongly(u, at, ds, f) {
      FnNameIs(u.syms, f);
      OneNext(u, at, ds, f);
    }
  }

  lemma {:induction false} OneNext(u: CompUnit, at: nat, ds: List<Decl>, f: Name)
    requires ElabDecls(u, at, ds).Some? && (f in Forwards(u.syms) ==> NotForwardIn(ds, f))
    ensures f in u.syms && u.syms[f].FnSymbol? ==> f in EnvOf(u.syms) || f in Forwards(u.syms)
    ensures f in EnvOf(u.syms) || f in Forwards(u.syms) ==>
      f in EnvOf(u.syms) || NextFn(u, at, ds, f) == LastFn(u, at, ds, f)
    decreases ds
  {
    hide ElabDecl, EnvOf, DeclSize, Forwards, Relinked;
    FnOrForward(u.syms, f);
    if ds.Cons? && f in Forwards(u.syms) {
      var v := ElabDecl(u, at, ds.head).value;
      DeclaredIs(u, at, ds.head);
      OneNext(v, at + DeclSize(v, ds.head), ds.tail, f);
      SymbolOf(v, at + DeclSize(v, ds.head), ds.tail, f);
    }
  }

  lemma FnOrForward(syms: Symbols, f: Name)
    ensures f in syms && syms[f].FnSymbol? ==> f in EnvOf(syms) || f in Forwards(syms)
  {
  }
}
