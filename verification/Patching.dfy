/** Resolving a label in generated code gives the code generated with the label's target known from the start. */
module Patching {
  import opened Words
  import opened X86
  import opened Encoder
  import opened Source
  import opened Codegen
  import opened Layout

  /** The functions of env all have code. */
  predicate AllKnown(env: Env) { forall f :: f in env ==> env[f].At? }

  function SubEnv(env: Env, l: Label, a: int): Env {
    if l.Forward? && l.name !in env then env[l.name := At(a)] else env
  }

  function SubTarget(t: Target, l: Label, a: int): Target { if t == Ref(l) then At(a) else t }

  predicate Jumpless(code: seq<Insn>) { forall k :: 0 <= k < |code| ==> !IsJump(code[k]) }

  lemma SubstJumpless(code: seq<Insn>, l: Label, a: int)
    requires Jumpless(code)
    ensures Subst(code, l, At(a)) == code
  {
    SubstFree(code, l, At(a));
  }

  /** Code that resolving l does not change does not wait for l. */
  lemma FixedIsFree(code: seq<Insn>, l: Label, a: int)
    requires Subst(code, l, At(a)) == code
    ensures Free(code, l)
  {
    forall k | 0 <= k < |code| ensures !Waits(code[k], l) {
      SubstAt(code, l, At(a), k);
    }
  }

  lemma SubstConcat3(a: seq<Insn>, b: seq<Insn>, c: seq<Insn>, l: Label, t: Target)
    ensures Subst(a + b + c, l, t) == Subst(a, l, t) + Subst(b, l, t) + Subst(c, l, t)
  {
    SubstConcat(a + b, c, l, t);
    SubstConcat(a, b, l, t);
  }

  lemma JumplessParts(n: nat, op: BinOp, field: nat)
    ensures Jumpless(BinInsns(op, n)) && Jumpless(FieldAddrInsns(n, field)) && Jumpless(ResultInsns(n))
    ensures Jumpless(ReturnInsns(n)) && Jumpless([Load(High(n), High(n), 8 * field)])
  {
  }

  lemma {:induction false} JumplessSave(n: nat)
    ensures Jumpless(SaveInsns(n))
  {
    if n > 0 { JumplessSave(n - 1); }
  }

  lemma {:induction false} JumplessRestore(z: nat, n: nat)
    ensures Jumpless(RestoreInsns(z, n))
    decreases n - z
  {
    if z < n { JumplessRestore(z + 1, n); }
  }

  lemma {:induction false} SubstExpr(env: Env, e: Expr, n: nat, fs: int, l: Label, a: int)
    requires AllKnown(env)
    ensures Subst(GenExpr(env, e, n, fs), l, At(a)) == GenExpr(SubEnv(env, l, a), e, n, fs)
    decreases e
  {
    hide Subst, AllKnown, SubEnv, BinInsns, FieldAddrInsns, ResultInsns, RestoreInsns, SaveInsns, GenArgs, Jumpless,
      High;
    match e
    case Field(b, field) =>
      JumplessParts(n, Plus, field);
      SubstExpr(env, b, n, fs, l, a);
      SubstJumpless([Load(High(n), High(n), 8 * field)], l, a);
      SubstConcat(GenExpr(env, b, n, fs), [Load(High(n), High(n), 8 * field)], l, At(a));
    case FieldAddr(b, field) =>
      JumplessParts(n, Plus, field);
      SubstExpr(env, b, n, fs, l, a);
      SubstJumpless(FieldAddrInsns(n, field), l, a);
      SubstConcat(GenExpr(env, b, n, fs), FieldAddrInsns(n, field), l, At(a));
    case Bin(op, x, y) =>
      JumplessParts(n, op, 0);
      SubstExpr(env, x, n, fs, l, a);
      SubstExpr(env, y, n + 1, fs, l, a);
      SubstJumpless(BinInsns(op, n), l, a);
      SubstConcat3(GenExpr(env, x, n, fs), GenExpr(env, y, n + 1, fs), BinInsns(op, n), l, At(a));
    case Apply(f, args) =>
      JumplessParts(n, Plus, 0);
      JumplessRestore(0, n);
      SubstJumpless(ResultInsns(n), l, a);
      SubstJumpless(RestoreInsns(0, n), l, a);
      SubstCall(env, f, args, n, fs, l, a);
      SubstConcat3(GenCall(env, f, args, n, fs), ResultInsns(n), RestoreInsns(0, n), l, At(a));
    case _ => SubstLeaf(env, e, n, fs, l, a);
  }

  lemma SubstLeaf(env: Env, e: Expr, n: nat, fs: int, l: Label, a: int)
    requires e.Lit? || e.Address? || e.Var? || e.VarAddr?
    ensures Subst(GenExpr(env, e, n, fs), l, At(a)) == GenExpr(SubEnv(env, l, a), e, n, fs)
  {
    SubstJumpless(GenExpr(env, e, n, fs), l, a);
  }

  lemma SubstCall(env: Env, f: Name, args: List<Expr>, n: nat, fs: int, l: Label, a: int)
    requires AllKnown(env)
    ensures Subst(GenCall(env, f, args, n, fs), l, At(a)) == GenCall(SubEnv(env, l, a), f, args, n, fs)
    decreases args, 1
  {
    hide Subst, SaveInsns, GenArgs, Jumpless;
    JumplessSave(n);
    SubstJumpless(SaveInsns(n), l, a);
    SubstArgs(env, args, 0, fs + n, l, a);
    SubstOne(Call(FnTarget(env, f)), l, At(a));
    SubstConcat3(SaveInsns(n), GenArgs(env, args, 0, fs + n), [Call(FnTarget(env, f))], l, At(a));
  }

  lemma {:induction false} SubstArgs(env: Env, es: List<Expr>, n: nat, fs: int, l: Label, a: int)
    requires AllKnown(env)
    ensures Subst(GenArgs(env, es, n, fs), l, At(a)) == GenArgs(SubEnv(env, l, a), es, n, fs)
    decreases es, 0
  {
    hide AllKnown, SubEnv, GenExpr;
    if es.Cons? {
      SubstExpr(env, es.head, n, fs, l, a);
      SubstArgs(env, es.tail, n + 1, fs, l, a);
      SubstConcat(GenExpr(env, es.head, n, fs), GenArgs(env, es.tail, n + 1, fs), l, At(a));
    }
  }

  lemma SubstComparison(env: Env, c: Comparison, fs: int, positive: bool, t: Target, l: Label, a: int)
    requires AllKnown(env)
    ensures Subst(GenComparison(env, c, fs, positive, t), l, At(a))
      == GenComparison(SubEnv(env, l, a), c, fs, positive, SubTarget(t, l, a))
  {
    var rel := if positive then c.rel else Negate(c.rel);
    SubstJump(rel, t, l, a);
    hide AllKnown, SubEnv, GenExpr, Subst, JumpInsns, SubTarget;
    SubstExpr(env, c.l, 0, fs, l, a);
    SubstExpr(env, c.r, 1, fs, l, a);
    SubstConcat3(GenExpr(env, c.l, 0, fs), GenExpr(env, c.r, 1, fs), JumpInsns(rel, t), l, At(a));
  }

  lemma SubstJump(rel: RelToken, t: Target, l: Label, a: int)
    ensures Subst(JumpInsns(rel, t), l, At(a)) == JumpInsns(rel, SubTarget(t, l, a))
  {
    var i, j := Cmp(R8, R9), Jcc(CondOf(rel), t);
    SubstOne(i, l, At(a));
    SubstOne(j, l, At(a));
    SubstConcat([i], [j], l, At(a));
    assert JumpInsns(rel, t) == [i] + [j];
  }

  lemma {:induction false} SubstAnd(env: Env, cs: List<Comparison>, fs: int, elseT: Target, positive: bool,
                                    lastT: Target, l: Label, a: int)
    requires AllKnown(env)
    ensures Subst(GenAnd(env, cs, fs, elseT, positive, lastT), l, At(a))
      == GenAnd(SubEnv(env, l, a), cs, fs, SubTarget(elseT, l, a), positive, SubTarget(lastT, l, a))
    decreases cs
  {
    hide AllKnown, SubEnv, GenComparison, SubTarget;
    if cs.Cons? {
      if cs.tail.Nil? {
        SubstComparison(env, cs.head, fs, positive, lastT, l, a);
      } else {
        SubstComparison(env, cs.head, fs, false, elseT, l, a);
        SubstAnd(env, cs.tail, fs, elseT, positive, lastT, l, a);
        SubstConcat(GenComparison(env, cs.head, fs, false, elseT), GenAnd(env, cs.tail, fs, elseT, positive, lastT),
          l, At(a));
      }
    }
  }

  lemma {:induction false} SubstOr(env: Env, ands: BoolExpr, pc: int, fs: int, thenT: Target, elseT: Target, l: Label,
                                   a: int)
    requires AllKnown(env)
    ensures Subst(GenOr(env, ands, pc, fs, thenT, elseT), l, At(a))
      == GenOr(SubEnv(env, l, a), ands, pc, fs, SubTarget(thenT, l, a), SubTarget(elseT, l, a))
    decreases ands
  {
    hide AllKnown, SubEnv, GenAnd, AndSize;
    if ands.Cons? {
      if ands.tail.Nil? {
        SubstAnd(env, ands.head, fs, elseT, false, elseT, l, a);
      } else {
        var next := pc + AndSize(ands.head, fs);
        SubstAnd(env, ands.head, fs, At(next), true, thenT, l, a);
        SubstOr(env, ands.tail, next, fs, thenT, elseT, l, a);
        SubstConcat(GenAnd(env, ands.head, fs, At(next), true, thenT), GenOr(env, ands.tail, next, fs, thenT, elseT),
          l, At(a));
      }
    }
  }

  lemma {:induction false} SubstStmt(env: Env, s: Stmt, pc: int, fs: nat, brk: Target, l: Label, a: int)
    requires AllKnown(env)
    ensures Subst(GenStmt(env, s, pc, fs, brk), l, At(a)) == GenStmt(SubEnv(env, l, a), s, pc, fs, SubTarget(brk, l, a))
    decreases s
  {
    if s.If? || s.IfElse? {
      SubstIf(env, s, pc, fs, brk, l, a);
    } else if s.While? || s.Loop? {
      SubstLoop(env, s, pc, fs, brk, l, a);
    } else {
      SubstSimple(env, s, pc, fs, brk, l, a);
    }
  }

  lemma SubstSimple(env: Env, s: Stmt, pc: int, fs: nat, brk: Target, l: Label, a: int)
    requires AllKnown(env) && !s.If? && !s.IfElse? && !s.While? && !s.Loop?
    ensures Subst(GenStmt(env, s, pc, fs, brk), l, At(a)) == GenStmt(SubEnv(env, l, a), s, pc, fs, SubTarget(brk, l, a))
  {
    hide AllKnown, SubEnv, GenExpr, Subst, ReturnInsns, Jumpless, BinInsns, FieldAddrInsns, ResultInsns, High;
    JumplessParts(fs, Plus, 0);
    match s
    case SetVar(x, e) =>
      SubstExpr(env, e, 0, fs, l, a);
      SubstOne(Store(RSP, 8 * (fs - x), R8), l, At(a));
      SubstConcat(GenExpr(env, e, 0, fs), [Store(RSP, 8 * (fs - x), R8)], l, At(a));
    case SetField(b, field, e) =>
      SubstExpr(env, b, 0, fs, l, a);
      SubstExpr(env, e, 1, fs, l, a);
      SubstOne(Store(R8, 8 * field, R9), l, At(a));
      SubstConcat3(GenExpr(env, b, 0, fs), GenExpr(env, e, 1, fs), [Store(R8, 8 * field, R9)], l, At(a));
    case Eval(e) => SubstExpr(env, e, 0, fs, l, a);
    case Break => SubstOne(Jmp(brk), l, At(a));
    case Return => SubstJumpless(ReturnInsns(fs), l, a);
    case ReturnValue(e) =>
      SubstExpr(env, e, 0, fs, l, a);
      SubstJumpless(ReturnInsns(fs), l, a);
      SubstConcat(GenExpr(env, e, 0, fs), ReturnInsns(fs), l, At(a));
  }

  lemma SubstKnownJump(target: int, l: Label, a: int)
    ensures Subst([Jmp(At(target))], l, At(a)) == [Jmp(At(target))]
  {
    SubstOne(Jmp(At(target)), l, At(a));
  }

  lemma SubstNothing(l: Label, a: int)
    ensures Subst([], l, At(a)) == []
  {
  }

  lemma SubstIf(env: Env, s: Stmt, pc: int, fs: nat, brk: Target, l: Label, a: int)
    requires AllKnown(env) && (s.If? || s.IfElse?)
    ensures Subst(GenStmt(env, s, pc, fs, brk), l, At(a)) == GenStmt(SubEnv(env, l, a), s, pc, fs, SubTarget(brk, l, a))
    decreases s, 0
  {
    hide AllKnown, SubEnv, GenOr, GenBlock, Subst, OrSize, BlockSize, BlockReachable;
    var b := pc + OrSize(s.c, fs);
    var j := b + BlockSize(s.thn, fs);
    if s.If? {
      SubstOr(env, s.c, pc, fs, At(b), At(j), l, a);
      SubstBlock(env, s.thn, b, fs, brk, l, a);
      SubstConcat(GenOr(env, s.c, pc, fs, At(b), At(j)), GenBlock(env, s.thn, b, fs, brk), l, At(a));
    } else {
      var e := j + (if BlockReachable(s.thn) then 5 else 0);
      var end := e + BlockSize(s.els, fs);
      SubstOr(env, s.c, pc, fs, At(b), At(e), l, a);
      SubstBlock(env, s.thn, b, fs, brk, l, a);
      SubstBlock(env, s.els, e, fs, brk, l, a);
      SubstKnownJump(end, l, a);
      SubstNothing(l, a);
      var c1, c2, c3 := GenOr(env, s.c, pc, fs, At(b), At(e)), GenBlock(env, s.thn, b, fs, brk), JumpOver(s.thn, end);
      SubstConcat(c1 + c2 + c3, GenBlock(env, s.els, e, fs, brk), l, At(a));
      SubstConcat3(c1, c2, c3, l, At(a));
    }
  }

  lemma SubstLoop(env: Env, s: Stmt, pc: int, fs: nat, brk: Target, l: Label, a: int)
    requires AllKnown(env) && (s.While? || s.Loop?)
    ensures Subst(GenStmt(env, s, pc, fs, brk), l, At(a)) == GenStmt(SubEnv(env, l, a), s, pc, fs, SubTarget(brk, l, a))
    decreases s, 0
  {
    hide AllKnown, SubEnv, GenOr, GenBlock, Subst, OrSize, BlockSize;
    SubstKnownJump(pc, l, a);
    if s.While? {
      var b := pc + OrSize(s.c, fs);
      var end := b + BlockSize(s.body, fs) + 5;
      SubstOr(env, s.c, pc, fs, At(b), At(end), l, a);
      SubstBlock(env, s.body, b, fs, At(end), l, a);
      SubstConcat3(GenOr(env, s.c, pc, fs, At(b), At(end)), GenBlock(env, s.body, b, fs, At(end)), [Jmp(At(pc))], l,
        At(a));
    } else {
      var end := pc + BlockSize(s.body, fs) + 5;
      SubstBlock(env, s.body, pc, fs, At(end), l, a);
      SubstConcat(GenBlock(env, s.body, pc, fs, At(end)), [Jmp(At(pc))], l, At(a));
    }
  }

  lemma {:induction false} SubstBlock(env: Env, ss: List<Stmt>, pc: int, fs: nat, brk: Target, l: Label, a: int)
    requires AllKnown(env)
    ensures Subst(GenBlock(env, ss, pc, fs, brk), l, At(a)) == GenBlock(SubEnv(env, l, a), ss, pc, fs,
      SubTarget(brk, l, a))
    decreases ss
  {
    hide AllKnown, SubEnv, GenStmt, StmtSize, SubTarget;
    if ss.Cons? {
      SubstStmt(env, ss.head, pc, fs, brk, l, a);
      SubstBlock(env, ss.tail, pc + StmtSize(ss.head, fs), fs, brk, l, a);
      SubstConcat(GenStmt(env, ss.head, pc, fs, brk), GenBlock(env, ss.tail, pc + StmtSize(ss.head, fs), fs, brk), l,
        At(a));
    }
  }

  lemma {:induction false} SubstItems(env: Env, items: List<Item>, pc: int, fs: nat, l: Label, a: int)
    requires AllKnown(env) && l != Local(0)
    ensures Subst(GenItems(env, items, pc, fs), l, At(a)) == GenItems(SubEnv(env, l, a), items, pc, fs)
    decreases items
  {
    hide AllKnown, SubEnv, GenItem, ItemSize;
    if items.Cons? {
      var item := items.head;
      var pc1, fs1 := pc + ItemSize(item, fs), fs + (if item.Let? then 1 else 0);
      SubstItem(env, item, pc, fs, l, a);
      SubstItems(env, items.tail, pc1, fs1, l, a);
      SubstConcat(GenItem(env, item, pc, fs), GenItems(env, items.tail, pc1, fs1), l, At(a));
    }
  }

  lemma SubstItem(env: Env, item: Item, pc: int, fs: nat, l: Label, a: int)
    requires AllKnown(env) && l != Local(0)
    ensures Subst(GenItem(env, item, pc, fs), l, At(a)) == GenItem(SubEnv(env, l, a), item, pc, fs)
  {
    hide AllKnown, SubEnv, GenExpr, GenStmt, Subst, SaveInsns, Jumpless;
    match item
    case Let(e) =>
      JumplessSave(1);
      SubstExpr(env, e, 0, fs, l, a);
      SubstJumpless(SaveInsns(1), l, a);
      SubstConcat(GenExpr(env, e, 0, fs), SaveInsns(1), l, At(a));
    case Do(s) => SubstStmt(env, s, pc, fs, Ref(Local(0)), l, a);
  }

  lemma SubstFn(env: Env, fn: Fn, pc: int, l: Label, a: int)
    requires AllKnown(env) && l != Local(0)
    ensures Subst(GenFn(env, fn, pc), l, At(a)) == GenFn(SubEnv(env, l, a), fn, pc)
  {
    hide AllKnown, SubEnv, GenItems, Subst, SaveInsns, Jumpless, ReturnInsns, Lets, ItemsReachable, BinInsns,
         FieldAddrInsns, ResultInsns, High;
    JumplessParts(fn.arity + Lets(fn.body), Plus, 0);
    JumplessSave(fn.arity);
    var leave := if ItemsReachable(fn.body) then ReturnInsns(fn.arity + Lets(fn.body)) else [];
    SubstNothing(l, a);
    SubstJumpless(SaveInsns(fn.arity), l, a);
    SubstJumpless(ReturnInsns(fn.arity + Lets(fn.body)), l, a);
    SubstItems(env, fn.body, pc + 2 * fn.arity, fn.arity, l, a);
    SubstConcat3(SaveInsns(fn.arity), GenItems(env, fn.body, pc + 2 * fn.arity, fn.arity), leave, l, At(a));
  }
}
