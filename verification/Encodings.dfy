/** Which functions the processor reads as the compiler meant them: an exact condition on their source. */
module Encodings {
  import opened Words
  import opened X86
  import opened Encoder
  import opened Source
  import opened Codegen
  import opened Linking

  /** No variable or field is 2^28 words or more away, and no field 0 is loaded through register 5, which is R13. */
  predicate ExprEncodable(e: Expr, n: nat, fs: int)
    decreases e
  {
    match e
    case Var(x) => fs - x < MAX_SLOTS
    case VarAddr(x) => fs - x < MAX_SLOTS
    case Field(a, field) => ExprEncodable(a, n, fs) && field < MAX_SLOTS && !(n == 5 && field == 0)
    case FieldAddr(a, field) => ExprEncodable(a, n, fs) && field < MAX_SLOTS
    case Bin(_, l, r) => ExprEncodable(l, n, fs) && ExprEncodable(r, n + 1, fs)
    case Apply(_, args) => ArgsEncodable(args, 0, fs + n)
    case _ => true
  }

  predicate ArgsEncodable(es: List<Expr>, n: nat, fs: int)
    decreases es
  {
    es.Cons? ==> ExprEncodable(es.head, n, fs) && ArgsEncodable(es.tail, n + 1, fs)
  }

  predicate ComparisonEncodable(c: Comparison, fs: int) { ExprEncodable(c.l, 0, fs) && ExprEncodable(c.r, 1, fs) }

  predicate AndEncodable(cs: List<Comparison>, fs: int) {
    cs.Cons? ==> ComparisonEncodable(cs.head, fs) && AndEncodable(cs.tail, fs)
  }

  predicate OrEncodable(ands: BoolExpr, fs: int) {
    ands.Cons? ==> AndEncodable(ands.head, fs) && OrEncodable(ands.tail, fs)
  }

  predicate StmtEncodable(s: Stmt, fs: nat)
    decreases s
  {
    match s
    case SetVar(x, e) => ExprEncodable(e, 0, fs) && fs - x < MAX_SLOTS
    case SetField(a, field, e) => ExprEncodable(a, 0, fs) && ExprEncodable(e, 1, fs) && field < MAX_SLOTS
    case Eval(e) => ExprEncodable(e, 0, fs)
    case If(c, thn) => OrEncodable(c, fs) && BlockEncodable(thn, fs)
    case IfElse(c, thn, els) => OrEncodable(c, fs) && BlockEncodable(thn, fs) && BlockEncodable(els, fs)
    case While(c, body) => OrEncodable(c, fs) && BlockEncodable(body, fs)
    case Loop(body) => BlockEncodable(body, fs)
    case Break => true
    case Return => fs < MAX_SLOTS
    case ReturnValue(e) => ExprEncodable(e, 0, fs) && fs < MAX_SLOTS
  }

  predicate BlockEncodable(ss: List<Stmt>, fs: nat)
    decreases ss
  {
    ss.Cons? ==> StmtEncodable(ss.head, fs) && BlockEncodable(ss.tail, fs)
  }

  predicate ItemEncodable(item: Item, fs: nat) {
    match item
    case Let(e) => ExprEncodable(e, 0, fs)
    case Do(s) => StmtEncodable(s, fs)
  }

  predicate ItemsEncodable(items: List<Item>, fs: nat) {
    items.Cons? ==> ItemEncodable(items.head, fs) && ItemsEncodable(items.tail, fs + (if items.head.Let? then 1 else 0))
  }

  predicate FnEncodable(fn: Fn) {
    ItemsEncodable(fn.body, fn.arity) && (ItemsReachable(fn.body) ==> fn.arity + Lets(fn.body) < MAX_SLOTS)
  }

  // ----- the generated code is encodable exactly if the source is -----

  lemma EncodableConcat(a: seq<Insn>, b: seq<Insn>)
    ensures AllEncodable(a + b) <==> AllEncodable(a) && AllEncodable(b)
  {
    assert forall i :: i in a + b <==> i in a || i in b;
  }

  lemma EncodableConcat3(a: seq<Insn>, b: seq<Insn>, c: seq<Insn>)
    ensures AllEncodable(a + b + c) <==> AllEncodable(a) && AllEncodable(b) && AllEncodable(c)
  {
    hide AllEncodable;
    EncodableConcat(a + b, c);
    EncodableConcat(a, b);
  }

  lemma EncodableOne(i: Insn)
    ensures AllEncodable([i]) <==> Encodable(i)
    ensures AllEncodable([])
  {
    assert i in [i];
  }

  lemma {:induction false} EncodableSave(n: nat)
    ensures AllEncodable(SaveInsns(n))
  {
    if n > 0 { EncodableSave(n - 1); }
  }

  lemma {:induction false} EncodableRestore(z: nat, n: nat)
    ensures AllEncodable(RestoreInsns(z, n))
    decreases n - z
  {
    if z < n { EncodableRestore(z + 1, n); }
  }

  lemma EncodableParts(n: nat, op: BinOp)
    ensures AllEncodable(BinInsns(op, n)) && AllEncodable(ResultInsns(n))
  {
  }

  lemma EncodableAddress(n: nat, field: nat)
    ensures AllEncodable(FieldAddrInsns(n, field)) <==> field < MAX_SLOTS
  {
    EncodableOne(AddImm(High(n), 8 * field));
  }

  lemma EncodableReturn(fs: nat)
    ensures AllEncodable(ReturnInsns(fs)) <==> fs < MAX_SLOTS
  {
    if fs > 0 {
      assert ReturnInsns(fs) == [AddImm(RSP, 8 * fs)] + [Ret];
      EncodableConcat([AddImm(RSP, 8 * fs)], [Ret]);
      EncodableOne(AddImm(RSP, 8 * fs));
      EncodableOne(Ret);
    }
  }

  lemma {:induction false} ExprEncoded(env: Env, e: Expr, n: nat, fs: int)
    ensures AllEncodable(GenExpr(env, e, n, fs)) <==> ExprEncodable(e, n, fs)
    decreases e
  {
    hide AllEncodable, BinInsns, FieldAddrInsns, ResultInsns, RestoreInsns, GenArgs, SaveInsns, ArgsEncodable;
    match e
    case Field(a, field) =>
      ExprEncoded(env, a, n, fs);
      EncodableOne(Load(High(n), High(n), 8 * field));
      EncodableConcat(GenExpr(env, a, n, fs), [Load(High(n), High(n), 8 * field)]);
    case FieldAddr(a, field) =>
      ExprEncoded(env, a, n, fs);
      EncodableAddress(n, field);
      EncodableConcat(GenExpr(env, a, n, fs), FieldAddrInsns(n, field));
    case Bin(op, l, r) =>
      ExprEncoded(env, l, n, fs);
      ExprEncoded(env, r, n + 1, fs);
      EncodableParts(n, op);
      EncodableConcat3(GenExpr(env, l, n, fs), GenExpr(env, r, n + 1, fs), BinInsns(op, n));
    case Apply(f, args) =>
      EncodableSave(n);
      ArgsEncoded(env, args, 0, fs + n);
      EncodableOne(Call(FnTarget(env, f)));
      EncodableConcat3(SaveInsns(n), GenArgs(env, args, 0, fs + n), [Call(FnTarget(env, f))]);
      EncodableParts(n, Plus);
      EncodableRestore(0, n);
      EncodableConcat3(GenCall(env, f, args, n, fs), ResultInsns(n), RestoreInsns(0, n));
    case _ => LeafEncoded(env, e, n, fs);
  }

  lemma LeafEncoded(env: Env, e: Expr, n: nat, fs: int)
    requires e.Lit? || e.Address? || e.Var? || e.VarAddr?
    ensures AllEncodable(GenExpr(env, e, n, fs)) <==> ExprEncodable(e, n, fs)
  {
    hide AllEncodable;
    EncodableOne(GenExpr(env, e, n, fs)[0]);
  }

  lemma {:induction false} ArgsEncoded(env: Env, es: List<Expr>, n: nat, fs: int)
    ensures AllEncodable(GenArgs(env, es, n, fs)) <==> ArgsEncodable(es, n, fs)
    decreases es
  {
    hide GenExpr, ExprEncodable, AllEncodable;
    EncodableOne(Ret);
    if es.Cons? {
      ExprEncoded(env, es.head, n, fs);
      ArgsEncoded(env, es.tail, n + 1, fs);
      EncodableConcat(GenExpr(env, es.head, n, fs), GenArgs(env, es.tail, n + 1, fs));
    }
  }

  lemma ComparisonEncoded(env: Env, c: Comparison, fs: int, positive: bool, t: Target)
    ensures AllEncodable(GenComparison(env, c, fs, positive, t)) <==> ComparisonEncodable(c, fs)
  {
    hide GenExpr, ExprEncodable, AllEncodable, JumpInsns, Negate;
    var rel := if positive then c.rel else Negate(c.rel);
    ExprEncoded(env, c.l, 0, fs);
    ExprEncoded(env, c.r, 1, fs);
    JumpEncodable(rel, t);
    EncodableConcat3(GenExpr(env, c.l, 0, fs), GenExpr(env, c.r, 1, fs), JumpInsns(rel, t));
  }

  lemma JumpEncodable(rel: RelToken, t: Target)
    ensures AllEncodable(JumpInsns(rel, t))
  {
  }

  lemma {:induction false} AndEncoded(env: Env, cs: List<Comparison>, fs: int, elseT: Target, positive: bool,
                                      lastT: Target)
    ensures AllEncodable(GenAnd(env, cs, fs, elseT, positive, lastT)) <==> AndEncodable(cs, fs)
    decreases cs
  {
    hide GenComparison, ComparisonEncodable, AllEncodable;
    EncodableOne(Ret);
    if cs.Cons? {
      ComparisonEncoded(env, cs.head, fs, positive, lastT);
      ComparisonEncoded(env, cs.head, fs, false, elseT);
      if cs.tail.Cons? {
        AndEncoded(env, cs.tail, fs, elseT, positive, lastT);
        EncodableConcat(GenComparison(env, cs.head, fs, false, elseT), GenAnd(env, cs.tail, fs, elseT, positive,
          lastT));
      }
    }
  }

  lemma {:induction false} OrEncoded(env: Env, ands: BoolExpr, pc: int, fs: int, thenT: Target, elseT: Target)
    ensures AllEncodable(GenOr(env, ands, pc, fs, thenT, elseT)) <==> OrEncodable(ands, fs)
    decreases ands
  {
    hide GenAnd, AndSize, AndEncodable, AllEncodable;
    EncodableOne(Ret);
    if ands.Cons? {
      var next := pc + AndSize(ands.head, fs);
      AndEncoded(env, ands.head, fs, elseT, false, elseT);
      AndEncoded(env, ands.head, fs, At(next), true, thenT);
      OrEncoded(env, ands.tail, next, fs, thenT, elseT);
      EncodableConcat(GenAnd(env, ands.head, fs, At(next), true, thenT), GenOr(env, ands.tail, next, fs, thenT, elseT));
    }
  }

  lemma {:induction false} StmtEncoded(env: Env, s: Stmt, pc: int, fs: nat, brk: Target)
    ensures AllEncodable(GenStmt(env, s, pc, fs, brk)) <==> StmtEncodable(s, fs)
    decreases s
  {
    hide AllEncodable, GenExpr, GenOr, GenBlock, ReturnInsns, OrSize, BlockSize, BlockReachable, ExprEncodable,
      OrEncodable, BlockEncodable, JumpOver;
    match s
    case SetVar(x, e) =>
      ExprEncoded(env, e, 0, fs);
      EncodableOne(Store(RSP, 8 * (fs - x), R8));
      EncodableConcat(GenExpr(env, e, 0, fs), [Store(RSP, 8 * (fs - x), R8)]);
    case SetField(a, field, e) =>
      ExprEncoded(env, a, 0, fs);
      ExprEncoded(env, e, 1, fs);
      EncodableOne(Store(R8, 8 * field, R9));
      EncodableConcat3(GenExpr(env, a, 0, fs), GenExpr(env, e, 1, fs), [Store(R8, 8 * field, R9)]);
    case Eval(e) => ExprEncoded(env, e, 0, fs);
    case If(c, thn) =>
      var b := pc + OrSize(c, fs);
      OrEncoded(env, c, pc, fs, At(b), At(b + BlockSize(thn, fs)));
      BlockEncoded(env, thn, b, fs, brk);
      EncodableConcat(GenOr(env, c, pc, fs, At(b), At(b + BlockSize(thn, fs))), GenBlock(env, thn, b, fs, brk));
    case IfElse(c, thn, els) =>
      var b := pc + OrSize(c, fs);
      var e := b + BlockSize(thn, fs) + (if BlockReachable(thn) then 5 else 0);
      var end := e + BlockSize(els, fs);
      OrEncoded(env, c, pc, fs, At(b), At(e));
      BlockEncoded(env, thn, b, fs, brk);
      BlockEncoded(env, els, e, fs, brk);
      OverEncodable(thn, end);
      EncodableConcat3(GenOr(env, c, pc, fs, At(b), At(e)), GenBlock(env, thn, b, fs, brk), JumpOver(thn, end));
      EncodableConcat(GenOr(env, c, pc, fs, At(b), At(e)) + GenBlock(env, thn, b, fs, brk) + JumpOver(thn, end),
                      GenBlock(env, els, e, fs, brk));
    case While(c, body) =>
      var b := pc + OrSize(c, fs);
      var end := b + BlockSize(body, fs) + 5;
      OrEncoded(env, c, pc, fs, At(b), At(end));
      BlockEncoded(env, body, b, fs, At(end));
      EncodableOne(Jmp(At(pc)));
      EncodableConcat3(GenOr(env, c, pc, fs, At(b), At(end)), GenBlock(env, body, b, fs, At(end)), [Jmp(At(pc))]);
    case Loop(body) =>
      var end := pc + BlockSize(body, fs) + 5;
      BlockEncoded(env, body, pc, fs, At(end));
      EncodableOne(Jmp(At(pc)));
      EncodableConcat(GenBlock(env, body, pc, fs, At(end)), [Jmp(At(pc))]);
    case Break => EncodableOne(Jmp(brk));
    case Return => EncodableReturn(fs);
    case ReturnValue(e) =>
      ExprEncoded(env, e, 0, fs);
      EncodableReturn(fs);
      EncodableConcat(GenExpr(env, e, 0, fs), ReturnInsns(fs));
  }

  lemma OverEncodable(thn: List<Stmt>, end: int)
    ensures AllEncodable(JumpOver(thn, end))
  {
  }

  lemma {:induction false} BlockEncoded(env: Env, ss: List<Stmt>, pc: int, fs: nat, brk: Target)
    ensures AllEncodable(GenBlock(env, ss, pc, fs, brk)) <==> BlockEncodable(ss, fs)
    decreases ss
  {
    hide GenStmt, StmtSize, StmtEncodable, AllEncodable;
    EncodableOne(Ret);
    if ss.Cons? {
      StmtEncoded(env, ss.head, pc, fs, brk);
      BlockEncoded(env, ss.tail, pc + StmtSize(ss.head, fs), fs, brk);
      EncodableConcat(GenStmt(env, ss.head, pc, fs, brk), GenBlock(env, ss.tail, pc + StmtSize(ss.head, fs), fs, brk));
    }
  }

  lemma ItemEncoded(env: Env, item: Item, pc: int, fs: nat)
    ensures AllEncodable(GenItem(env, item, pc, fs)) <==> ItemEncodable(item, fs)
  {
    hide GenExpr, GenStmt, SaveInsns, ExprEncodable, StmtEncodable, AllEncodable;
    match item
    case Let(e) =>
      ExprEncoded(env, e, 0, fs);
      EncodableSave(1);
      EncodableConcat(GenExpr(env, e, 0, fs), SaveInsns(1));
    case Do(s) => StmtEncoded(env, s, pc, fs, Ref(Local(0)));
  }

  lemma {:induction false} ItemsEncoded(env: Env, items: List<Item>, pc: int, fs: nat)
    ensures AllEncodable(GenItems(env, items, pc, fs)) <==> ItemsEncodable(items, fs)
    decreases items
  {
    hide GenItem, ItemSize, ItemEncodable, AllEncodable;
    EncodableOne(Ret);
    if items.Cons? {
      var fs1 := fs + (if items.head.Let? then 1 else 0);
      ItemEncoded(env, items.head, pc, fs);
      ItemsEncoded(env, items.tail, pc + ItemSize(items.head, fs), fs1);
      EncodableConcat(GenItem(env, items.head, pc, fs), GenItems(env, items.tail, pc + ItemSize(items.head, fs), fs1));
    }
  }

  /** The code of a function, wherever it is and wherever its calls go. */
  lemma FnEncoded(env: Env, fn: Fn, pc: int)
    ensures AllEncodable(GenFn(env, fn, pc)) <==> FnEncodable(fn)
  {
    hide GenItems, SaveInsns, ReturnInsns, Lets, ItemsReachable, ItemsEncodable, AllEncodable;
    var leave := if ItemsReachable(fn.body) then ReturnInsns(fn.arity + Lets(fn.body)) else [];
    EncodableSave(fn.arity);
    ItemsEncoded(env, fn.body, pc + 2 * fn.arity, fn.arity);
    EncodableReturn(fn.arity + Lets(fn.body));
    EncodableOne(Ret);
    EncodableConcat3(SaveInsns(fn.arity), GenItems(env, fn.body, pc + 2 * fn.arity, fn.arity), leave);
  }

  /** x + (x + (x + (x + (x + *p)))): the load of *p is misread. */
  lemma MisreadExample(x: Expr)
    ensures !FnEncodable(Fn(1, List.Cons(Do(ReturnValue(
      Bin(Plus, x, Bin(Plus, x, Bin(Plus, x, Bin(Plus, x, Bin(Plus, x, Field(Var(1), 0)))))))), List.Nil)))
  {
    assert !ExprEncodable(Field(Var(1), 0), 5, 1);
    assert !ExprEncodable(Bin(Plus, x, Bin(Plus, x, Field(Var(1), 0))), 3, 1);
    assert !ExprEncodable(Bin(Plus, x, Bin(Plus, x, Bin(Plus, x, Bin(Plus, x, Field(Var(1), 0))))), 1, 1);
  }
}
