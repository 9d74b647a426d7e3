/** Generated code has the size computed for it, wherever it is placed and whatever its jumps go to. */
module Sizes {
  import opened Words
  import opened X86
  import opened Encoder
  import opened Source
  import opened Codegen

  lemma {:induction false} SizeOfConcat(a: seq<Insn>, b: seq<Insn>)
    ensures SizeOf(a + b) == SizeOf(a) + SizeOf(b)
  {
    if a == [] {
      assert a + b == b;
    } else {
      assert (a + b)[1..] == a[1..] + b;
      SizeOfConcat(a[1..], b);
    }
  }

  lemma SizeOfOne(i: Insn)
    ensures SizeOf([i]) == Size(i)
  {
    assert SizeOf([i][1..]) == 0;
  }

  lemma SizeOfConcat3(a: seq<Insn>, b: seq<Insn>, c: seq<Insn>)
    ensures SizeOf(a + b + c) == SizeOf(a) + SizeOf(b) + SizeOf(c)
  {
    SizeOfConcat(a + b, c);
    SizeOfConcat(a, b);
  }

  lemma {:induction false} GenExprSize(env: Env, e: Expr, n: nat, fs: int)
    ensures SizeOf(GenExpr(env, e, n, fs)) == ExprSize(e, n, fs)
    decreases e
  {
    hide SizeOf, Size, GenExpr, GenArgs, BinInsns, FieldAddrInsns, SaveInsns, RestoreInsns, ResultInsns, High;
    if e.Field? || e.FieldAddr? {
      GenExprSize(env, e.e, n, fs);
      PathSize(env, e, n, fs);
      PathSize(map[], e, n, fs);
    } else if e.Bin? {
      GenExprSize(env, e.l, n, fs);
      GenExprSize(env, e.r, n + 1, fs);
      BinSize(env, e, n, fs);
      BinSize(map[], e, n, fs);
    } else if e.Apply? {
      GenArgsSize(env, e.args, 0, fs + n);
      ApplySize(env, e, n, fs);
      ApplySize(map[], e, n, fs);
    } else {
      LeafSame(env, e, n, fs);
    }
  }

  lemma LeafSame(env: Env, e: Expr, n: nat, fs: int)
    requires e.Lit? || e.Address? || e.Var? || e.VarAddr?
    ensures GenExpr(env, e, n, fs) == GenExpr(map[], e, n, fs)
  {
  }

  lemma PathSize(env: Env, e: Expr, n: nat, fs: int)
    requires e.Field? || e.FieldAddr?
    ensures SizeOf(GenExpr(env, e, n, fs)) == SizeOf(GenExpr(env, e.e, n, fs))
      + (if e.Field? then Size(Load(High(n), High(n), 8 * e.field)) else SizeOf(FieldAddrInsns(n, e.field)))
  {
    if e.Field? {
      var i := Load(High(n), High(n), 8 * e.field);
      SizeOfConcat(GenExpr(env, e.e, n, fs), [i]);
      SizeOfOne(i);
    } else {
      SizeOfConcat(GenExpr(env, e.e, n, fs), FieldAddrInsns(n, e.field));
    }
  }

  lemma BinSize(env: Env, e: Expr, n: nat, fs: int)
    requires e.Bin?
    ensures SizeOf(GenExpr(env, e, n, fs))
      == SizeOf(GenExpr(env, e.l, n, fs)) + SizeOf(GenExpr(env, e.r, n + 1, fs)) + SizeOf(BinInsns(e.op, n))
  {
    hide SizeOf, BinInsns;
    SizeOfConcat3(GenExpr(env, e.l, n, fs), GenExpr(env, e.r, n + 1, fs), BinInsns(e.op, n));
  }

  lemma ApplySize(env: Env, e: Expr, n: nat, fs: int)
    requires e.Apply?
    ensures SizeOf(GenExpr(env, e, n, fs)) == SizeOf(SaveInsns(n)) + SizeOf(GenArgs(env, e.args, 0, fs + n)) + 5
      + SizeOf(ResultInsns(n)) + SizeOf(RestoreInsns(0, n))
  {
    hide SizeOf, SaveInsns, GenArgs, ResultInsns, RestoreInsns, Size;
    var call := Call(FnTarget(env, e.f));
    SizeOfConcat3(GenCall(env, e.f, e.args, n, fs), ResultInsns(n), RestoreInsns(0, n));
    SizeOfConcat3(SaveInsns(n), GenArgs(env, e.args, 0, fs + n), [call]);
    SizeOfOne(call);
    CallSize(FnTarget(env, e.f));
  }

  lemma CallSize(t: Target)
    ensures Size(Call(t)) == 5 && Size(Jmp(t)) == 5
  {
  }

  lemma {:induction false} GenArgsSize(env: Env, es: List<Expr>, n: nat, fs: int)
    ensures SizeOf(GenArgs(env, es, n, fs)) == SizeOf(GenArgs(map[], es, n, fs))
    decreases es
  {
    hide SizeOf, GenExpr;
    if es.Cons? {
      GenExprSize(env, es.head, n, fs);
      GenArgsSize(env, es.tail, n + 1, fs);
      SizeOfConcat(GenExpr(env, es.head, n, fs), GenArgs(env, es.tail, n + 1, fs));
      SizeOfConcat(GenExpr(map[], es.head, n, fs), GenArgs(map[], es.tail, n + 1, fs));
    }
  }

  lemma JumpInsnsSize(rel: RelToken, t: Target)
    ensures SizeOf(JumpInsns(rel, t)) == 9
  {
    SizeOfOne(JumpInsns(rel, t)[1]);
  }

  lemma GenComparisonSize(env: Env, c: Comparison, fs: int, positive: bool, t: Target)
    ensures SizeOf(GenComparison(env, c, fs, positive, t)) == ComparisonSize(c, fs)
  {
    hide SizeOf, GenExpr, JumpInsns, Negate, ExprSize;
    var j := JumpInsns(if positive then c.rel else Negate(c.rel), t);
    SizeOfConcat3(GenExpr(env, c.l, 0, fs), GenExpr(env, c.r, 1, fs), j);
    JumpInsnsSize(if positive then c.rel else Negate(c.rel), t);
    GenExprSize(env, c.l, 0, fs);
    GenExprSize(env, c.r, 1, fs);
  }

  lemma {:induction false} GenAndSize(env: Env, cs: List<Comparison>, fs: int, elseT: Target, positive: bool,
                                      lastT: Target)
    ensures SizeOf(GenAnd(env, cs, fs, elseT, positive, lastT)) == AndSize(cs, fs)
    decreases cs
  {
    hide GenComparison, ComparisonSize, SizeOf;
    SizeOfNone();
    if cs.Cons? {
      if cs.tail.Nil? {
        GenComparisonSize(env, cs.head, fs, positive, lastT);
      } else {
        GenComparisonSize(env, cs.head, fs, false, elseT);
        GenAndSize(env, cs.tail, fs, elseT, positive, lastT);
        SizeOfConcat(GenComparison(env, cs.head, fs, false, elseT), GenAnd(env, cs.tail, fs, elseT, positive, lastT));
      }
    }
  }

  lemma {:induction false} GenOrSize(env: Env, ands: BoolExpr, pc: int, fs: int, thenT: Target, elseT: Target)
    ensures SizeOf(GenOr(env, ands, pc, fs, thenT, elseT)) == OrSize(ands, fs)
    decreases ands
  {
    hide GenAnd, AndSize, SizeOf;
    SizeOfNone();
    if ands.Cons? {
      if ands.tail.Nil? {
        GenAndSize(env, ands.head, fs, elseT, false, elseT);
      } else {
        var next := pc + AndSize(ands.head, fs);
        GenAndSize(env, ands.head, fs, At(next), true, thenT);
        GenOrSize(env, ands.tail, next, fs, thenT, elseT);
        SizeOfConcat(GenAnd(env, ands.head, fs, At(next), true, thenT), GenOr(env, ands.tail, next, fs, thenT, elseT));
      }
    }
  }

  lemma SizeOfNone()
    ensures SizeOf([]) == 0
  {
  }

  lemma {:induction false} GenStmtSize(env: Env, s: Stmt, pc: int, fs: nat, brk: Target)
    ensures SizeOf(GenStmt(env, s, pc, fs, brk)) == StmtSize(s, fs)
    decreases s
  {
    if s.If? || s.IfElse? {
      GenIfSize(env, s, pc, fs, brk);
    } else if s.While? || s.Loop? {
      GenLoopSize(env, s, pc, fs, brk);
    } else {
      GenSimpleSize(env, s, pc, fs, brk);
    }
  }

  lemma GenSimpleSize(env: Env, s: Stmt, pc: int, fs: nat, brk: Target)
    requires !s.If? && !s.IfElse? && !s.While? && !s.Loop?
    ensures SizeOf(GenStmt(env, s, pc, fs, brk)) == StmtSize(s, fs)
  {
    hide GenExpr, ExprSize, SizeOf, Size, ReturnInsns;
    CallSize(brk);
    match s
    case SetVar(x, e) =>
      GenExprSize(env, e, 0, fs);
      SizeOfConcat(GenExpr(env, e, 0, fs), [Store(RSP, 8 * (fs - x), R8)]);
      SizeOfOne(Store(RSP, 8 * (fs - x), R8));
    case SetField(a, field, e) =>
      GenExprSize(env, a, 0, fs);
      GenExprSize(env, e, 1, fs);
      SizeOfConcat3(GenExpr(env, a, 0, fs), GenExpr(env, e, 1, fs), [Store(R8, 8 * field, R9)]);
      SizeOfOne(Store(R8, 8 * field, R9));
    case Eval(e) => GenExprSize(env, e, 0, fs);
    case Break => SizeOfOne(Jmp(brk));
    case Return =>
    case ReturnValue(e) =>
      GenExprSize(env, e, 0, fs);
      SizeOfConcat(GenExpr(env, e, 0, fs), ReturnInsns(fs));
  }

  lemma JumpOverSize(ss: List<Stmt>, target: int)
    ensures SizeOf(JumpOver(ss, target)) == if BlockReachable(ss) then 5 else 0
  {
    SizeOfOne(Jmp(At(target)));
    hide BlockReachable;
  }

  lemma GenIfSize(env: Env, s: Stmt, pc: int, fs: nat, brk: Target)
    requires s.If? || s.IfElse?
    ensures SizeOf(GenStmt(env, s, pc, fs, brk)) == StmtSize(s, fs)
    decreases s, 0
  {
    hide GenOr, GenBlock, SizeOf, JumpOver, OrSize, BlockSize, BlockReachable;
    var b := pc + OrSize(s.c, fs);
    var j := b + BlockSize(s.thn, fs);
    if s.If? {
      GenOrSize(env, s.c, pc, fs, At(b), At(j));
      GenBlockSize(env, s.thn, b, fs, brk);
      SizeOfConcat(GenOr(env, s.c, pc, fs, At(b), At(j)), GenBlock(env, s.thn, b, fs, brk));
    } else {
      var e := j + (if BlockReachable(s.thn) then 5 else 0);
      var end := e + BlockSize(s.els, fs);
      GenOrSize(env, s.c, pc, fs, At(b), At(e));
      GenBlockSize(env, s.thn, b, fs, brk);
      GenBlockSize(env, s.els, e, fs, brk);
      JumpOverSize(s.thn, end);
      var c1, c2, c3 := GenOr(env, s.c, pc, fs, At(b), At(e)), GenBlock(env, s.thn, b, fs, brk), JumpOver(s.thn, end);
      SizeOfConcat(c1 + c2 + c3, GenBlock(env, s.els, e, fs, brk));
      SizeOfConcat3(c1, c2, c3);
    }
  }

  lemma GenLoopSize(env: Env, s: Stmt, pc: int, fs: nat, brk: Target)
    requires s.While? || s.Loop?
    ensures SizeOf(GenStmt(env, s, pc, fs, brk)) == StmtSize(s, fs)
    decreases s, 0
  {
    hide GenOr, GenBlock, SizeOf, OrSize, BlockSize, Size;
    CallSize(At(pc));
    SizeOfOne(Jmp(At(pc)));
    if s.While? {
      var b := pc + OrSize(s.c, fs);
      var end := b + BlockSize(s.body, fs) + 5;
      GenOrSize(env, s.c, pc, fs, At(b), At(end));
      GenBlockSize(env, s.body, b, fs, At(end));
      SizeOfConcat3(GenOr(env, s.c, pc, fs, At(b), At(end)), GenBlock(env, s.body, b, fs, At(end)), [Jmp(At(pc))]);
    } else {
      var end := pc + BlockSize(s.body, fs) + 5;
      GenBlockSize(env, s.body, pc, fs, At(end));
      SizeOfConcat(GenBlock(env, s.body, pc, fs, At(end)), [Jmp(At(pc))]);
    }
  }

  lemma {:induction false} GenBlockSize(env: Env, ss: List<Stmt>, pc: int, fs: nat, brk: Target)
    ensures SizeOf(GenBlock(env, ss, pc, fs, brk)) == BlockSize(ss, fs)
    decreases ss
  {
    hide GenStmt, StmtSize, SizeOf;
    SizeOfNone();
    if ss.Cons? {
      GenStmtSize(env, ss.head, pc, fs, brk);
      GenBlockSize(env, ss.tail, pc + StmtSize(ss.head, fs), fs, brk);
      SizeOfConcat(GenStmt(env, ss.head, pc, fs, brk), GenBlock(env, ss.tail, pc + StmtSize(ss.head, fs), fs, brk));
    }
  }

  lemma GenItemSize(env: Env, item: Item, pc: int, fs: nat)
    ensures SizeOf(GenItem(env, item, pc, fs)) == ItemSize(item, fs)
  {
    hide GenStmt, GenExpr, ExprSize, StmtSize;
    match item
    case Let(e) =>
      GenExprSize(env, e, 0, fs);
      SizeOfConcat(GenExpr(env, e, 0, fs), SaveInsns(1));
      assert SaveInsns(1) == [Push(8)];
      SizeOfOne(Push(8));
    case Do(s) => GenStmtSize(env, s, pc, fs, Ref(Local(0)));
  }

  lemma {:induction false} SaveInsnsSize(n: nat)
    ensures SizeOf(SaveInsns(n)) == 2 * n
  {
    if n > 0 {
      SaveInsnsSize(n - 1);
      SizeOfConcat([Push(High(n - 1))], SaveInsns(n - 1));
      SizeOfOne(Push(High(n - 1)));
    }
  }
}
