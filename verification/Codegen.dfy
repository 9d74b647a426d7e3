/** The instructions that the compiler should produce for each construct, as functions of the abstract
    syntax: registers are used as a stack, locals are addressed from RSP, and every jump goes straight to
    its target. The one-pass compiler, which does not know forward targets when it emits a jump, is proved
    to produce these instructions. */
module Codegen {
  import opened Words
  import opened X86
  import opened Encoder
  import opened Source

  const MAX_REGISTERS := 8

  /** Where each function's code is: its offset, or the chain of calls that wait for it. */
  type Env = map<Name, Target>

  function FnTarget(env: Env, f: Name): Target { if f in env then env[f] else Ref(Forward(f)) }

  /** Compiler register z is R8 + z. */
  function High(z: nat): Reg { if z < MAX_REGISTERS then 8 + z else 15 }

  function SizeOf(code: seq<Insn>): nat {
    if code == [] then 0 else Size(code[0]) + SizeOf(code[1..])
  }

  // ----- single instructions of the backend -----

  function CstInsn(z: nat, v: u64): Insn {
    if v == 0 then Alu(Xor, High(z), High(z), true) else MovImm(High(z), v, v >= TWO32)
  }

  function BinInsns(op: BinOp, z: nat): seq<Insn> {
    var d, s := High(z), High(z + 1);
    match op
    case Plus => [Alu(Add, d, s, true)]
    case Minus => [Alu(Sub, d, s, true)]
    case Times => [Alu(Imul, d, s, true)]
    case Quotient => [Alu(Xor, RDX, RDX, false), Alu(Mov, RAX, d, true), Div(s), Alu(Mov, d, RAX, true)]
    case Conj => [Alu(And, d, s, true)]
    case Disj => [Alu(Or, d, s, true)]
    case LeftShift => [Alu(Mov, RCX, s, false), Shl(d)]
    case RightShift => [Alu(Mov, RCX, s, false), Shr(d)]
  }

  /** Pushes registers n - 1 down to 0. */
  function SaveInsns(n: nat): seq<Insn> {
    if n == 0 then [] else [Push(High(n - 1))] + SaveInsns(n - 1)
  }

  /** Pops registers z up to n - 1. */
  function RestoreInsns(z: nat, n: nat): seq<Insn>
    decreases n - z
  {
    if z >= n then [] else [Pop(High(z))] + RestoreInsns(z + 1, n)
  }

  function ReturnInsns(fs: nat): seq<Insn> {
    if fs == 0 then [Ret] else [AddImm(RSP, 8 * fs), Ret]
  }

  /** The result of a call is moved above the registers about to be restored. */
  function ResultInsns(n: nat): seq<Insn> {
    if n == 0 then [] else [Alu(Mov, High(n), R8, true)]
  }

  // ----- expressions: the value goes to register n; fs is the number of words in the stack frame -----

  function GenExpr(env: Env, e: Expr, n: nat, fs: int): seq<Insn>
    decreases e
  {
    match e
    case Lit(v) => [CstInsn(n, v)]
    case Address(a) => [LeaRip(High(n), a)]
    case Var(x) => [Load(High(n), RSP, 8 * (fs - x))]
    case VarAddr(x) => [LeaMem(High(n), RSP, 8 * (fs - x))]
    case Field(a, field) => GenExpr(env, a, n, fs) + [Load(High(n), High(n), 8 * field)]
    case FieldAddr(a, field) => GenExpr(env, a, n, fs) + FieldAddrInsns(n, field)
    case Bin(op, l, r) => GenExpr(env, l, n, fs) + GenExpr(env, r, n + 1, fs) + BinInsns(op, n)
    case Apply(f, args) => GenCall(env, f, args, n, fs) + ResultInsns(n) + RestoreInsns(0, n)
  }

  function FieldAddrInsns(n: nat, field: nat): seq<Insn> {
    if field == 0 then [] else [AddImm(High(n), 8 * field)]
  }

  function GenArgs(env: Env, es: List<Expr>, n: nat, fs: int): seq<Insn>
    decreases es, 0
  {
    match es
    case Nil => []
    case Cons(e, rest) => GenExpr(env, e, n, fs) + GenArgs(env, rest, n + 1, fs)
  }

  /** A call up to and including the call instruction, n registers being in use. */
  function GenCall(env: Env, f: Name, args: List<Expr>, n: nat, fs: int): seq<Insn>
    decreases args, 1
  {
    SaveInsns(n) + GenArgs(env, args, 0, fs + n) + [Call(FnTarget(env, f))]
  }

  // ----- sizes: known before any target is -----

  function ExprSize(e: Expr, n: nat, fs: int): nat { SizeOf(GenExpr(map[], e, n, fs)) }

  function ComparisonSize(c: Comparison, fs: int): nat { ExprSize(c.l, 0, fs) + ExprSize(c.r, 1, fs) + 9 }

  function AndSize(cs: List<Comparison>, fs: int): nat {
    if cs.Nil? then 0 else ComparisonSize(cs.head, fs) + AndSize(cs.tail, fs)
  }

  function OrSize(ands: BoolExpr, fs: int): nat {
    if ands.Nil? then 0 else AndSize(ands.head, fs) + OrSize(ands.tail, fs)
  }

  function StmtSize(s: Stmt, fs: nat): nat
    decreases s
  {
    match s
    case SetVar(x, e) => ExprSize(e, 0, fs) + Size(Store(RSP, 8 * (fs - x), R8))
    case SetField(a, field, e) => ExprSize(a, 0, fs) + ExprSize(e, 1, fs) + Size(Store(R8, 8 * field, R9))
    case Eval(e) => ExprSize(e, 0, fs)
    case If(c, thn) => OrSize(c, fs) + BlockSize(thn, fs)
    case IfElse(c, thn, els) =>
      OrSize(c, fs) + BlockSize(thn, fs) + (if BlockReachable(thn) then 5 else 0) + BlockSize(els, fs)
    case While(c, body) => OrSize(c, fs) + BlockSize(body, fs) + 5
    case Loop(body) => BlockSize(body, fs) + 5
    case Break => 5
    case Return => SizeOf(ReturnInsns(fs))
    case ReturnValue(e) => ExprSize(e, 0, fs) + SizeOf(ReturnInsns(fs))
  }

  function BlockSize(ss: List<Stmt>, fs: nat): nat
    decreases ss
  {
    if ss.Nil? then 0 else StmtSize(ss.head, fs) + BlockSize(ss.tail, fs)
  }

  // ----- conditions -----

  /** jb, je, ja, jbe, jne, jae. */
  function CondOf(rel: RelToken): Condition {
    [B, E, A, BE, NE, AE][rel - 12]
  }

  function Negate(rel: RelToken): RelToken { 12 + 17 - rel }

  function JumpInsns(rel: RelToken, t: Target): seq<Insn> {
    [Cmp(R8, R9), Jcc(CondOf(rel), t)]
  }

  /** A comparison that jumps to t when its value is `positive`. */
  function GenComparison(env: Env, c: Comparison, fs: int, positive: bool, t: Target): seq<Insn> {
    GenExpr(env, c.l, 0, fs) + GenExpr(env, c.r, 1, fs)
    + JumpInsns(if positive then c.rel else Negate(c.rel), t)
  }

  /** A conjunction: every comparison but the last jumps to elseT when false; the last one jumps to lastT
      when its value is `positive`. */
  function GenAnd(env: Env, cs: List<Comparison>, fs: int, elseT: Target, positive: bool, lastT: Target): seq<Insn> {
    match cs
    case Nil => []
    case Cons(c, Nil) => GenComparison(env, c, fs, positive, lastT)
    case Cons(c, rest) => GenComparison(env, c, fs, false, elseT) + GenAnd(env, rest, fs, elseT, positive, lastT)
  }

  /** A disjunction at offset pc: goes to thenT or past its end when true, and to elseT when false. */
  function GenOr(env: Env, ands: BoolExpr, pc: int, fs: int, thenT: Target, elseT: Target): seq<Insn> {
    match ands
    case Nil => []
    case Cons(a, Nil) => GenAnd(env, a, fs, elseT, false, elseT)
    case Cons(a, rest) =>
      var next := pc + AndSize(a, fs);
      GenAnd(env, a, fs, At(next), true, thenT) + GenOr(env, rest, next, fs, thenT, elseT)
  }

  // ----- statements -----

  function JumpOver(s: List<Stmt>, target: int): seq<Insn> {
    if BlockReachable(s) then [Jmp(At(target))] else []
  }

  function GenStmt(env: Env, s: Stmt, pc: int, fs: nat, brk: Target): seq<Insn>
    decreases s
  {
    match s
    case SetVar(x, e) => GenExpr(env, e, 0, fs) + [Store(RSP, 8 * (fs - x), R8)]
    case SetField(a, field, e) => GenExpr(env, a, 0, fs) + GenExpr(env, e, 1, fs) + [Store(R8, 8 * field, R9)]
    case Eval(e) => GenExpr(env, e, 0, fs)
    case If(c, thn) =>
      var b := pc + OrSize(c, fs);
      var end := b + BlockSize(thn, fs);
      GenOr(env, c, pc, fs, At(b), At(end)) + GenBlock(env, thn, b, fs, brk)
    case IfElse(c, thn, els) =>
      var b := pc + OrSize(c, fs);
      var j := b + BlockSize(thn, fs);
      var e := j + (if BlockReachable(thn) then 5 else 0);
      var end := e + BlockSize(els, fs);
      GenOr(env, c, pc, fs, At(b), At(e)) + GenBlock(env, thn, b, fs, brk) + JumpOver(thn, end)
      + GenBlock(env, els, e, fs, brk)
    case While(c, body) =>
      var b := pc + OrSize(c, fs);
      var end := b + BlockSize(body, fs) + 5;
      GenOr(env, c, pc, fs, At(b), At(end)) + GenBlock(env, body, b, fs, At(end)) + [Jmp(At(pc))]
    case Loop(body) =>
      var end := pc + BlockSize(body, fs) + 5;
      GenBlock(env, body, pc, fs, At(end)) + [Jmp(At(pc))]
    case Break => [Jmp(brk)]
    case Return => ReturnInsns(fs)
    case ReturnValue(e) => GenExpr(env, e, 0, fs) + ReturnInsns(fs)
  }

  function GenBlock(env: Env, ss: List<Stmt>, pc: int, fs: nat, brk: Target): seq<Insn>
    decreases ss, 0
  {
    match ss
    case Nil => []
    case Cons(s, rest) =>
      var first := GenStmt(env, s, pc, fs, brk);
      first + GenBlock(env, rest, pc + StmtSize(s, fs), fs, brk)
  }

  /** Whether the compiler considers the end of a statement reachable. */
  predicate Reachable(s: Stmt)
    decreases s
  {
    match s
    case IfElse(_, thn, els) => BlockReachable(thn) || BlockReachable(els)
    case Loop(body) => Breaks(body)
    case Break => false
    case Return => false
    case ReturnValue(_) => false
    case _ => true
  }

  predicate BlockReachable(ss: List<Stmt>)
    decreases ss
  {
    ss.Nil? || (Reachable(ss.head) && BlockReachable(ss.tail))
  }

  /** Whether a break of the enclosing loop occurs in ss. */
  predicate Breaks(ss: List<Stmt>)
    decreases ss
  {
    ss.Cons? && (StmtBreaks(ss.head) || Breaks(ss.tail))
  }

  predicate StmtBreaks(s: Stmt)
    decreases s
  {
    match s
    case If(_, thn) => Breaks(thn)
    case IfElse(_, thn, els) => Breaks(thn) || Breaks(els)
    case Break => true
    case _ => false
  }

  // ----- functions -----

  function GenItems(env: Env, items: List<Item>, pc: int, fs: nat): seq<Insn> {
    match items
    case Nil => []
    case Cons(item, rest) =>
      var first := GenItem(env, item, pc, fs);
      first + GenItems(env, rest, pc + ItemSize(item, fs), fs + (if item.Let? then 1 else 0))
  }

  function GenItem(env: Env, item: Item, pc: int, fs: nat): seq<Insn> {
    match item
    case Let(e) => GenExpr(env, e, 0, fs) + SaveInsns(1)
    case Do(s) => GenStmt(env, s, pc, fs, Ref(Local(0)))
  }

  function ItemSize(item: Item, fs: nat): nat {
    match item
    case Let(e) => ExprSize(e, 0, fs) + 2
    case Do(s) => StmtSize(s, fs)
  }

  predicate ItemsReachable(items: List<Item>) {
    items.Nil? || ((items.head.Do? ==> Reachable(items.head.s)) && ItemsReachable(items.tail))
  }

  function Lets(items: List<Item>): nat {
    if items.Nil? then 0 else (if items.head.Let? then 1 else 0) + Lets(items.tail)
  }

  function GenFn(env: Env, fn: Fn, pc: int): seq<Insn> {
    var enter := SaveInsns(fn.arity);
    enter + GenItems(env, fn.body, pc + 2 * fn.arity, fn.arity)
    + (if ItemsReachable(fn.body) then ReturnInsns(fn.arity + Lets(fn.body)) else [])
  }
}
