/** Semantic preservation: the generated code does what the source program means, for every program,
    input and amount of fuel. A source evaluation that ends is matched by a run that produces its result;
    one that faults, by a run that gets stuck; one that outlives its fuel, by a run at least that long. */
module Preservation {
  import opened Words
  import opened X86
  import opened Encoder
  import opened Source
  import opened Codegen
  import opened Sizes
  import opened Execution
  import opened Steps
  import opened Reachability

  // ----- what the compiler accepts -----

  /** The registers needed to evaluate e into register n: the compiler panics past the last one. */
  predicate Fits(e: Expr, n: nat)
    decreases e
  {
    match e
    case Field(a, _) => Fits(a, n)
    case FieldAddr(a, _) => Fits(a, n)
    case Bin(_, l, r) => Fits(l, n) && Fits(r, n + 1)
    case Apply(_, args) => n < MAX_REGISTERS && ArgsFit(args, 0)
    case _ => n < MAX_REGISTERS
  }

  predicate ArgsFit(es: List<Expr>, n: nat)
    decreases es
  {
    n <= MAX_REGISTERS && (es.Cons? ==> Fits(es.head, n) && ArgsFit(es.tail, n + 1))
  }

  lemma {:induction false} FitsBelowMax(e: Expr, n: nat)
    requires Fits(e, n)
    ensures n < MAX_REGISTERS
    decreases e
  {
    match e
    case Field(a, _) => FitsBelowMax(a, n);
    case FieldAddr(a, _) => FitsBelowMax(a, n);
    case Bin(_, l, r) => FitsBelowMax(l, n);
    case _ =>
  }

  predicate AndFits(cs: List<Comparison>) {
    cs.Cons? && Fits(cs.head.l, 0) && Fits(cs.head.r, 1) && (cs.tail.Cons? ==> AndFits(cs.tail))
  }

  predicate OrFits(ands: BoolExpr) {
    ands.Cons? && AndFits(ands.head) && (ands.tail.Cons? ==> OrFits(ands.tail))
  }

  predicate StmtFits(s: Stmt)
    decreases s
  {
    match s
    case SetVar(_, e) => Fits(e, 0)
    case SetField(a, _, e) => Fits(a, 0) && Fits(e, 1)
    case Eval(e) => Fits(e, 0)
    case If(c, thn) => OrFits(c) && BlockFits(thn)
    case IfElse(c, thn, els) => OrFits(c) && BlockFits(thn) && BlockFits(els)
    case While(c, body) => OrFits(c) && BlockFits(body)
    case Loop(body) => BlockFits(body)
    case ReturnValue(e) => Fits(e, 0)
    case _ => true
  }

  predicate BlockFits(ss: List<Stmt>)
    decreases ss
  {
    ss.Cons? ==> StmtFits(ss.head) && BlockFits(ss.tail)
  }

  /** A break outside loops is refused. */
  predicate ItemsFit(items: List<Item>) {
    items.Cons? ==> ItemFits(items.head) && ItemsFit(items.tail)
  }

  predicate ItemFits(item: Item) {
    match item
    case Let(e) => Fits(e, 0)
    case Do(s) => StmtFits(s) && !StmtBreaks(s)
  }

  predicate FnFits(fn: Fn) {
    fn.arity <= MAX_REGISTERS && ItemsFit(fn.body)
  }

  /** The machine M holds the code of every function of P where env says, at addresses of 64 bits. */
  ghost predicate Linked(P: Program, M: Machine, env: Env) {
    && P.base == M.base
    && (forall f :: f in P.fns ==> FnLinked(P, M, env, f))
    && (forall pc :: pc in M.code ==> 0 <= M.base + M.code[pc].1 < TWO64)
  }

  ghost predicate FnLinked(P: Program, M: Machine, env: Env, f: Name)
    requires f in P.fns
  {
    f in env && env[f].At? && FnFits(P.fns[f])
    && CodeAt(M, env[f].offset, GenFn(env, P.fns[f], env[f].offset))
  }

  // ----- expressions -----

  /** The kind of an outcome. */
  datatype Kind = Ended | Faulted | TimedOut | Meaningless

  ghost function KindOf<T>(o: Outcome<T>): Kind {
    match o
    case Done(_) => Ended
    case Fault => Faulted
    case Timeout => TimedOut
    case Wrong => Meaningless
  }

  /** From s, k steps lead to t; if the source faults, the machine is stuck there, and if it outlives its fuel,
      the machine has run at least that long. Nothing is claimed of programs that have no meaning. */
  ghost predicate Sim(M: Machine, s: State, k: nat, t: State, kind: Kind, fuel: nat) {
    Reaches(M, s, k, t) && (kind == Faulted ==> Stuck(M, t)) && (kind == TimedOut ==> k >= fuel)
  }

  lemma SimReached(M: Machine, s: State, k: nat, t: State, kind: Kind, fuel: nat)
    requires Reaches(M, s, k, t) && (kind == Ended || kind == Meaningless)
    ensures Sim(M, s, k, t, kind, fuel)
  {
  }

  lemma SimStuck(M: Machine, s: State, k: nat, t: State, fuel: nat)
    requires Reaches(M, s, k, t) && Stuck(M, t)
    ensures Sim(M, s, k, t, Faulted, fuel)
  {
  }

  /** A run that ended, continued. */
  lemma SimThen(M: Machine, s: State, k1: nat, u: State, k2: nat, t: State, kind: Kind, fuel: nat)
    requires Sim(M, s, k1, u, Ended, fuel) && Sim(M, u, k2, t, kind, fuel)
    ensures Sim(M, s, k1 + k2, t, kind, fuel)
  {
    hide Reaches, Stuck;
    Compose(M, s, k1, u, k2, t);
  }

  lemma SimUndefined(M: Machine, s: State, k: nat, t: State, kind: Kind, fuel: nat)
    requires Sim(M, s, k, t, kind, fuel)
    ensures Sim(M, s, k, t, Meaningless, fuel)
  {
  }

  /** Arguments are in registers n, n + 1, and so on. */
  ghost predicate HoldsArgs(s: State, t: State, n: nat, size: int, vs: seq<u64>, m: Mem) {
    && n + |vs| <= MAX_REGISTERS && t.pc == s.pc + size && t.stack == s.stack && t.mem == m
    && (forall i :: 0 <= i < |vs| ==> t.regs[8 + n + i] == vs[i])
    && Kept(s, t, n)
  }

  /** A call has returned past its `size` bytes of code. */
  ghost predicate Returns(s: State, t: State, size: int, v: Option<u64>, m: Mem) {
    t.pc == s.pc + size && t.stack == s.stack && t.mem == m && (v.Some? ==> t.regs[8] == v.value)
  }

  lemma {:induction false} ExprOk(P: Program, M: Machine, env: Env, e: Expr, n: nat, fs: int, vars: seq<u64>,
                                  s: State, fuel: nat)
    returns (k: nat, t: State)
    requires Linked(P, M, env) && Fits(e, n) && Frame(s.stack, fs, vars)
    requires CodeAt(M, s.pc, GenExpr(env, e, n, fs))
    ensures var o := EvalExpr(P, e, vars, s.mem, fuel);
      Sim(M, s, k, t, KindOf(o), fuel)
      && (o.Done? ==> Produces(s, t, n, SizeOf(GenExpr(env, e, n, fs)), o.value.0, o.value.1))
    decreases fuel, 1, e
  {
    if e.Field? || e.FieldAddr? {
      k, t := PathOk(P, M, env, e, n, fs, vars, s, fuel);
    } else if e.Bin? {
      k, t := BinExprOk(P, M, env, e, n, fs, vars, s, fuel);
    } else if e.Apply? {
      k, t := ApplyOk(P, M, env, e, n, fs, vars, s, fuel);
    } else {
      k, t := LeafOk(P, M, env, e, n, fs, vars, s, fuel);
    }
  }

  lemma LeafOk(P: Program, M: Machine, env: Env, e: Expr, n: nat, fs: int, vars: seq<u64>, s: State, fuel: nat)
    returns (k: nat, t: State)
    requires e.Lit? || e.Address? || e.Var? || e.VarAddr?
    requires P.base == M.base && Fits(e, n) && Frame(s.stack, fs, vars)
    requires CodeAt(M, s.pc, GenExpr(env, e, n, fs))
    ensures var o := EvalExpr(P, e, vars, s.mem, fuel);
      Sim(M, s, k, t, KindOf(o), fuel)
      && (o.Done? ==> Produces(s, t, n, SizeOf(GenExpr(env, e, n, fs)), o.value.0, o.value.1))
  {
    k := 1;
    match e
    case Lit(v) => t := LitOk(M, s, n, v);
    case Address(a) => t := AddressOk(M, s, n, a);
    case VarAddr(_) => k, t := 0, s;
    case Var(x) =>
      if 1 <= x <= |vars| {
        t := VarOk(M, s, n, fs, vars, x);
      } else {
        k, t := 0, s;
      }
  }

  /** e.field and &e.field, once e is evaluated. */
  lemma PathEndOk(M: Machine, e: Expr, n: nat, u: State, a: u64, fuel: nat) returns (k: nat, t: State)
    requires (e.Field? || e.FieldAddr?) && n < MAX_REGISTERS && u.regs[8 + n] == a
    requires CodeAt(M, u.pc, PathInsns(e, n))
    ensures var o := PathOutcome(e, Done((a, u.mem)));
      Sim(M, u, k, t, KindOf(o), fuel)
      && (o.Done? ==> Produces(u, t, n, SizeOf(PathInsns(e, n)), o.value.0, o.value.1))
  {
    if e.Field? {
      k, t := FieldOk(M, u, n, a, e.field);
    } else {
      k, t := FieldAddrOk(M, u, n, a, e.field);
    }
  }

  function PathInsns(e: Expr, n: nat): seq<Insn>
    requires e.Field? || e.FieldAddr?
  {
    if e.Field? then [Load(High(n), High(n), 8 * e.field)] else FieldAddrInsns(n, e.field)
  }

  ghost function PathOutcome(e: Expr, o: Outcome<(u64, Mem)>): Outcome<(u64, Mem)>
    requires e.Field? || e.FieldAddr?
  {
    var (v, m) :- o;
    if e.FieldAddr? then Done((FieldAddress(v, e.field), m))
    else
      var w := Load64(m, FieldAddress(v, e.field));
      if w.None? then Fault else Done((w.value, m))
  }

  lemma ProducesThen(s: State, u: State, t: State, n: nat, size1: int, v1: u64, m1: Mem, size2: int, v2: u64, m2: Mem)
    requires Produces(s, u, n, size1, v1, m1) && Produces(u, t, n, size2, v2, m2)
    ensures Produces(s, t, n, size1 + size2, v2, m2)
  {
  }

  lemma PathUnfold(P: Program, M: Machine, env: Env, e: Expr, n: nat, fs: int, pc: int, vars: seq<u64>, m: Mem,
                   fuel: nat)
    requires (e.Field? || e.FieldAddr?) && Fits(e, n) && CodeAt(M, pc, GenExpr(env, e, n, fs))
    ensures n < MAX_REGISTERS && Fits(e.e, n)
    ensures var code := GenExpr(env, e.e, n, fs);
      CodeAt(M, pc, code) && CodeAt(M, pc + SizeOf(code), PathInsns(e, n))
      && SizeOf(GenExpr(env, e, n, fs)) == SizeOf(code) + SizeOf(PathInsns(e, n))
    ensures EvalExpr(P, e, vars, m, fuel) == PathOutcome(e, EvalExpr(P, e.e, vars, m, fuel))
  {
    hide CodeAt, SizeOf, Size, FieldAddrInsns;
    FitsBelowMax(e, n);
    assert GenExpr(env, e, n, fs) == GenExpr(env, e.e, n, fs) + PathInsns(e, n);
    CodeAtConcat(M, pc, GenExpr(env, e.e, n, fs), PathInsns(e, n));
  }

  lemma PathFails(e: Expr, o: Outcome<(u64, Mem)>)
    requires e.Field? || e.FieldAddr?
    ensures KindOf(o) == Ended <==> o.Done?
    ensures !o.Done? ==> !PathOutcome(e, o).Done? && KindOf(PathOutcome(e, o)) == KindOf(o)
  {
  }

  lemma PathOk(P: Program, M: Machine, env: Env, e: Expr, n: nat, fs: int, vars: seq<u64>, s: State, fuel: nat)
    returns (k: nat, t: State)
    requires e.Field? || e.FieldAddr?
    requires Linked(P, M, env) && Fits(e, n) && Frame(s.stack, fs, vars)
    requires CodeAt(M, s.pc, GenExpr(env, e, n, fs))
    ensures var o := EvalExpr(P, e, vars, s.mem, fuel);
      Sim(M, s, k, t, KindOf(o), fuel)
      && (o.Done? ==> Produces(s, t, n, SizeOf(GenExpr(env, e, n, fs)), o.value.0, o.value.1))
    decreases fuel, 1, e, 0
  {
    hide *;
    PathUnfold(P, M, env, e, n, fs, s.pc, vars, s.mem, fuel);
    var o1 := EvalExpr(P, e.e, vars, s.mem, fuel);
    PathFails(e, o1);
    k, t := ExprOk(P, M, env, e.e, n, fs, vars, s, fuel);
    if o1.Done? {
      var u, k1, size1 := t, k, SizeOf(GenExpr(env, e.e, n, fs));
      ProducesFacts(s, u, n, size1, o1.value.0, o1.value.1);
      var k2;
      k2, t := PathEndOk(M, e, n, u, o1.value.0, fuel);
      var o := PathOutcome(e, o1);
      SimThen(M, s, k1, u, k2, t, KindOf(o), fuel);
      if o.Done? {
        ProducesThen(s, u, t, n, size1, o1.value.0, o1.value.1, SizeOf(PathInsns(e, n)), o.value.0, o.value.1);
      }
      k := k1 + k2;
    }
  }

  lemma ProducesFacts(s: State, t: State, n: nat, size: int, v: u64, m: Mem)
    requires Produces(s, t, n, size, v, m)
    ensures n < MAX_REGISTERS && t.pc == s.pc + size && t.stack == s.stack && t.mem == m && t.regs[8 + n] == v
  {
  }

  ghost function BinOutcome(op: BinOp, x: u64, o: Outcome<(u64, Mem)>): Outcome<(u64, Mem)> {
    var (y, m) :- o;
    var z := EvalBin(op, x, y);
    if z.None? then Fault else Done((z.value, m))
  }

  lemma BinUnfold(P: Program, M: Machine, env: Env, e: Expr, n: nat, fs: int, pc: int, vars: seq<u64>, m: Mem,
                  fuel: nat)
    requires e.Bin? && Fits(e, n) && CodeAt(M, pc, GenExpr(env, e, n, fs))
    ensures n + 1 < MAX_REGISTERS && Fits(e.l, n) && Fits(e.r, n + 1)
    ensures var cl, cr := GenExpr(env, e.l, n, fs), GenExpr(env, e.r, n + 1, fs);
      CodeAt(M, pc, cl) && CodeAt(M, pc + SizeOf(cl), cr) && CodeAt(M, pc + SizeOf(cl) + SizeOf(cr), BinInsns(e.op, n))
      && SizeOf(GenExpr(env, e, n, fs)) == SizeOf(cl) + SizeOf(cr) + SizeOf(BinInsns(e.op, n))
    ensures var o1 := EvalExpr(P, e.l, vars, m, fuel);
      EvalExpr(P, e, vars, m, fuel)
      == if o1.Done? then BinOutcome(e.op, o1.value.0, EvalExpr(P, e.r, vars, o1.value.1, fuel)) else o1
  {
    hide CodeAt, SizeOf, Size, BinInsns;
    FitsBelowMax(e.r, n + 1);
    CodeAtConcat3(M, pc, GenExpr(env, e.l, n, fs), GenExpr(env, e.r, n + 1, fs), BinInsns(e.op, n));
  }

  lemma BinFails(op: BinOp, x: u64, o: Outcome<(u64, Mem)>)
    ensures KindOf(o) == Ended <==> o.Done?
    ensures !o.Done? ==> !BinOutcome(op, x, o).Done? && KindOf(BinOutcome(op, x, o)) == KindOf(o)
  {
  }

  lemma BinEndOk(M: Machine, op: BinOp, n: nat, u: State, w: State, size: int, x: u64, y: u64, m: Mem, fuel: nat)
    returns (k: nat, t: State)
    requires n + 1 < MAX_REGISTERS && u.regs[8 + n] == x && Produces(u, w, n + 1, size, y, m)
    requires CodeAt(M, w.pc, BinInsns(op, n))
    ensures var o := BinOutcome(op, x, Done((y, m)));
      Sim(M, w, k, t, KindOf(o), fuel)
      && (o.Done? ==> Produces(u, t, n, size + SizeOf(BinInsns(op, n)), o.value.0, o.value.1))
  {
    hide BinInsns, EvalBin, SizeOf, CodeAt, Reaches, Stuck;
    k, t := BinOk(M, w, n, op);
  }

  /** The right operand and the operation, the left operand being in register n. */
  lemma BinRightOk(P: Program, M: Machine, env: Env, e: Expr, n: nat, fs: int, vars: seq<u64>, u: State, x: u64,
                   fuel: nat)
    returns (k: nat, t: State)
    requires e.Bin? && n + 1 < MAX_REGISTERS && u.regs[8 + n] == x
    requires Linked(P, M, env) && Fits(e.r, n + 1) && Frame(u.stack, fs, vars)
    requires CodeAt(M, u.pc, GenExpr(env, e.r, n + 1, fs))
    requires CodeAt(M, u.pc + SizeOf(GenExpr(env, e.r, n + 1, fs)), BinInsns(e.op, n))
    ensures var o := BinOutcome(e.op, x, EvalExpr(P, e.r, vars, u.mem, fuel));
      Sim(M, u, k, t, KindOf(o), fuel)
      && (o.Done? ==>
        Produces(u, t, n, SizeOf(GenExpr(env, e.r, n + 1, fs)) + SizeOf(BinInsns(e.op, n)), o.value.0, o.value.1))
    decreases fuel, 1, e, 0
  {
    hide *;
    var o1 := EvalExpr(P, e.r, vars, u.mem, fuel);
    BinFails(e.op, x, o1);
    k, t := ExprOk(P, M, env, e.r, n + 1, fs, vars, u, fuel);
    if o1.Done? {
      var w, k1, size := t, k, SizeOf(GenExpr(env, e.r, n + 1, fs));
      ProducesFacts(u, w, n + 1, size, o1.value.0, o1.value.1);
      var k2;
      k2, t := BinEndOk(M, e.op, n, u, w, size, x, o1.value.0, o1.value.1, fuel);
      SimThen(M, u, k1, w, k2, t, KindOf(BinOutcome(e.op, x, o1)), fuel);
      k := k1 + k2;
    }
  }

  lemma BinExprOk(P: Program, M: Machine, env: Env, e: Expr, n: nat, fs: int, vars: seq<u64>, s: State, fuel: nat)
    returns (k: nat, t: State)
    requires e.Bin?
    requires Linked(P, M, env) && Fits(e, n) && Frame(s.stack, fs, vars)
    requires CodeAt(M, s.pc, GenExpr(env, e, n, fs))
    ensures var o := EvalExpr(P, e, vars, s.mem, fuel);
      Sim(M, s, k, t, KindOf(o), fuel)
      && (o.Done? ==> Produces(s, t, n, SizeOf(GenExpr(env, e, n, fs)), o.value.0, o.value.1))
    decreases fuel, 1, e, 1
  {
    hide *;
    BinUnfold(P, M, env, e, n, fs, s.pc, vars, s.mem, fuel);
    var o1 := EvalExpr(P, e.l, vars, s.mem, fuel);
    BinFails(e.op, 0, o1);
    k, t := ExprOk(P, M, env, e.l, n, fs, vars, s, fuel);
    if o1.Done? {
      var u, k1, size1 := t, k, SizeOf(GenExpr(env, e.l, n, fs));
      ProducesFacts(s, u, n, size1, o1.value.0, o1.value.1);
      var k2;
      k2, t := BinRightOk(P, M, env, e, n, fs, vars, u, o1.value.0, fuel);
      var o := EvalExpr(P, e, vars, s.mem, fuel);
      SimThen(M, s, k1, u, k2, t, KindOf(o), fuel);
      if o.Done? {
        ProducesThen(s, u, t, n, size1, o1.value.0, o1.value.1,
          SizeOf(GenExpr(env, e.r, n + 1, fs)) + SizeOf(BinInsns(e.op, n)), o.value.0, o.value.1);
      }
      k := k1 + k2;
    }
  }

  // ----- calls -----

  lemma ConsArgs(s: State, u: State, t: State, n: nat, size1: int, size2: int, v: u64, m1: Mem, vs: seq<u64>, m2: Mem)
    requires Produces(s, u, n, size1, v, m1) && HoldsArgs(u, t, n + 1, size2, vs, m2)
    ensures HoldsArgs(s, t, n, size1 + size2, [v] + vs, m2)
  {
    forall i | 0 <= i < 1 + |vs| ensures t.regs[8 + n + i] == ([v] + vs)[i] {
      if i > 0 { assert t.regs[8 + (n + 1) + (i - 1)] == vs[i - 1]; }
    }
  }

  lemma NoArgs(P: Program, M: Machine, env: Env, n: nat, fs: int, vars: seq<u64>, s: State, fuel: nat)
    requires ArgsFit(List.Nil, n)
    ensures EvalArgs(P, List.Nil, vars, s.mem, fuel) == Done(([], s.mem))
    ensures Sim(M, s, 0, s, KindOf(EvalArgs(P, List.Nil, vars, s.mem, fuel)), fuel)
    ensures HoldsArgs(s, s, n, SizeOf(GenArgs(env, List.Nil, n, fs)), [], s.mem)
  {
  }

  lemma ArgsUnfold(P: Program, M: Machine, env: Env, es: List<Expr>, n: nat, fs: int, pc: int, vars: seq<u64>, m: Mem,
                   fuel: nat)
    requires es.Cons? && ArgsFit(es, n) && CodeAt(M, pc, GenArgs(env, es, n, fs))
    ensures n < MAX_REGISTERS && Fits(es.head, n) && ArgsFit(es.tail, n + 1)
    ensures var first, rest := GenExpr(env, es.head, n, fs), GenArgs(env, es.tail, n + 1, fs);
      CodeAt(M, pc, first) && CodeAt(M, pc + SizeOf(first), rest)
      && SizeOf(GenArgs(env, es, n, fs)) == SizeOf(first) + SizeOf(rest)
    ensures var o1 := EvalExpr(P, es.head, vars, m, fuel);
      if o1.Done? then
        var o2 := EvalArgs(P, es.tail, vars, o1.value.1, fuel);
        if o2.Done? then EvalArgs(P, es, vars, m, fuel) == Done(([o1.value.0] + o2.value.0, o2.value.1))
        else SameKind(EvalArgs(P, es, vars, m, fuel), o2)
      else SameKind(EvalArgs(P, es, vars, m, fuel), o1)
  {
    hide CodeAt, SizeOf, Size, GenExpr;
    CodeAtConcat(M, pc, GenExpr(env, es.head, n, fs), GenArgs(env, es.tail, n + 1, fs));
  }

  ghost predicate SameKind<T, U>(o: Outcome<T>, p: Outcome<U>) { KindOf(o) == KindOf(p) && (o.Done? <==> p.Done?) }

  lemma KindFacts<T, U>(o: Outcome<T>, p: Outcome<U>)
    ensures KindOf(o) == Ended <==> o.Done?
    ensures KindOf(o) == Meaningless <==> o.Wrong?
    ensures SameKind(o, p) ==> KindOf(o) == KindOf(p) && (o.Done? <==> p.Done?)
    ensures o.Done? && p.Done? ==> KindOf(o) == KindOf(p)
  {
  }

  lemma {:induction false} ArgsOk(P: Program, M: Machine, env: Env, es: List<Expr>, n: nat, fs: int, vars: seq<u64>,
                                  s: State, fuel: nat)
    returns (k: nat, t: State)
    requires Linked(P, M, env) && ArgsFit(es, n) && Frame(s.stack, fs, vars)
    requires CodeAt(M, s.pc, GenArgs(env, es, n, fs))
    ensures var o := EvalArgs(P, es, vars, s.mem, fuel);
      Sim(M, s, k, t, KindOf(o), fuel)
      && (o.Done? ==> HoldsArgs(s, t, n, SizeOf(GenArgs(env, es, n, fs)), o.value.0, o.value.1))
    decreases fuel, 1, es, 0
  {
    hide *;
    if es.Nil? {
      k, t := 0, s;
      NoArgs(P, M, env, n, fs, vars, s, fuel);
    } else {
      ArgsUnfold(P, M, env, es, n, fs, s.pc, vars, s.mem, fuel);
      var o, o1 := EvalArgs(P, es, vars, s.mem, fuel), EvalExpr(P, es.head, vars, s.mem, fuel);
      KindFacts(o, o1);
      KindFacts(o1, o1);
      k, t := ExprOk(P, M, env, es.head, n, fs, vars, s, fuel);
      if o1.Done? {
        var u, k1, size1 := t, k, SizeOf(GenExpr(env, es.head, n, fs));
        ProducesFacts(s, u, n, size1, o1.value.0, o1.value.1);
        var o2 := EvalArgs(P, es.tail, vars, u.mem, fuel);
        KindFacts(o, o2);
        var k2;
        k2, t := ArgsOk(P, M, env, es.tail, n + 1, fs, vars, u, fuel);
        SimThen(M, s, k1, u, k2, t, KindOf(o2), fuel);
        if o2.Done? {
          ConsArgs(s, u, t, n, size1, SizeOf(GenArgs(env, es.tail, n + 1, fs)), o1.value.0, o1.value.1, o2.value.0,
            o2.value.1);
        }
        k := k1 + k2;
      }
    }
  }

  /** The outcome of evaluating arguments and then making a call. */
  ghost function EvalApply(P: Program, f: Name, args: List<Expr>, vars: seq<u64>, m: Mem,
                           fuel: nat): Outcome<(Option<u64>, Mem)> {
    var (vs, m1) :- EvalArgs(P, args, vars, m, fuel);
    EvalCall(P, f, vs, m1, fuel)
  }

  lemma EvalApplyUnfold(P: Program, M: Machine, env: Env, f: Name, args: List<Expr>, fs: int, pc: int, vars: seq<u64>,
                        m: Mem, fuel: nat)
    requires CodeAt(M, pc, GenArgs(env, args, 0, fs) + [Call(FnTarget(env, f))])
    ensures CodeAt(M, pc, GenArgs(env, args, 0, fs))
    ensures CodeAt(M, pc + SizeOf(GenArgs(env, args, 0, fs)), [Call(FnTarget(env, f))])
    ensures var oa := EvalArgs(P, args, vars, m, fuel);
      if oa.Done? then EvalApply(P, f, args, vars, m, fuel) == EvalCall(P, f, oa.value.0, oa.value.1, fuel)
      else SameKind(EvalApply(P, f, args, vars, m, fuel), oa)
  {
    hide CodeAt, SizeOf, GenArgs, EvalArgs, EvalCall;
    CodeAtConcat(M, pc, GenArgs(env, args, 0, fs), [Call(FnTarget(env, f))]);
  }

  lemma HoldsArgsFacts(s: State, t: State, size: int, vs: seq<u64>, m: Mem)
    requires HoldsArgs(s, t, 0, size, vs, m)
    ensures |vs| <= MAX_REGISTERS && t.pc == s.pc + size && t.stack == s.stack && t.mem == m
    ensures forall i :: 0 <= i < |vs| ==> t.regs[8 + i] == vs[i]
  {
    forall i | 0 <= i < |vs| ensures t.regs[8 + i] == vs[i] {
      assert t.regs[8 + 0 + i] == vs[i];
    }
  }

  lemma ReturnsThen(s: State, u: State, t: State, size1: int, size2: int, v: Option<u64>, m: Mem)
    requires u.pc == s.pc + size1 && u.stack == s.stack && Returns(u, t, size2, v, m)
    ensures Returns(s, t, size1 + size2, v, m)
  {
  }

  /** The arguments and the call, after the live registers have been pushed. */
  lemma CallWithArgsOk(P: Program, M: Machine, env: Env, f: Name, args: List<Expr>, fs: int, vars: seq<u64>, s: State,
                       fuel: nat)
    returns (k: nat, t: State)
    requires Linked(P, M, env) && ArgsFit(args, 0) && Frame(s.stack, fs, vars)
    requires CodeAt(M, s.pc, GenArgs(env, args, 0, fs) + [Call(FnTarget(env, f))])
    ensures var o := EvalApply(P, f, args, vars, s.mem, fuel);
      Sim(M, s, k, t, KindOf(o), fuel)
      && (o.Done? ==> Returns(s, t, SizeOf(GenArgs(env, args, 0, fs)) + 5, o.value.0, o.value.1))
    decreases fuel, 1, args, 1
  {
    hide *;
    EvalApplyUnfold(P, M, env, f, args, fs, s.pc, vars, s.mem, fuel);
    var oa, o := EvalArgs(P, args, vars, s.mem, fuel), EvalApply(P, f, args, vars, s.mem, fuel);
    KindFacts(o, oa);
    KindFacts(oa, oa);
    k, t := ArgsOk(P, M, env, args, 0, fs, vars, s, fuel);
    if oa.Done? {
      var u, k1, size := t, k, SizeOf(GenArgs(env, args, 0, fs));
      HoldsArgsFacts(s, u, size, oa.value.0, oa.value.1);
      var k2;
      k2, t := CallOk(P, M, env, f, oa.value.0, u, fuel);
      SimThen(M, s, k1, u, k2, t, KindOf(o), fuel);
      if o.Done? {
        ReturnsThen(s, u, t, size, 5, o.value.0, o.value.1);
      }
      k := k1 + k2;
    }
  }

  lemma FrameUnderSaved(stack: seq<u64>, fs: int, vars: seq<u64>, saved: seq<u64>)
    requires Frame(stack, fs, vars)
    ensures Frame(stack + saved, fs + |saved|, vars)
  {
    var n := |stack| + |saved|;
    assert (stack + saved)[n - (fs + |saved|)..n - (fs + |saved|) + |vars|] == stack[|stack| - fs..|stack| - fs
      + |vars|];
  }

  lemma ApplyLayout(M: Machine, env: Env, e: Expr, n: nat, fs: int, pc: int)
    requires e.Apply? && CodeAt(M, pc, GenExpr(env, e, n, fs))
    ensures var args := GenArgs(env, e.args, 0, fs + n);
      var pc1 := pc + SizeOf(SaveInsns(n));
      var pc2 := pc1 + SizeOf(args) + 5;
      var pc3 := pc2 + SizeOf(ResultInsns(n));
      && CodeAt(M, pc, SaveInsns(n))
      && CodeAt(M, pc1, args + [Call(FnTarget(env, e.f))])
      && CodeAt(M, pc2, ResultInsns(n))
      && CodeAt(M, pc3, RestoreInsns(0, n))
      && pc + SizeOf(GenExpr(env, e, n, fs)) == pc3 + SizeOf(RestoreInsns(0, n))
  {
    hide CodeAt, SizeOf, SaveInsns, GenArgs, ResultInsns, RestoreInsns, Size;
    var save, args := SaveInsns(n), GenArgs(env, e.args, 0, fs + n);
    var call := [Call(FnTarget(env, e.f))];
    CallSize(FnTarget(env, e.f));
    SizeOfOne(call[0]);
    CodeAtConcat3(M, pc, GenCall(env, e.f, e.args, n, fs), ResultInsns(n), RestoreInsns(0, n));
    assert GenCall(env, e.f, e.args, n, fs) == save + args + call == save + (args + call);
    CodeAtConcat(M, pc, save, args + call);
    CodeAtConcat(M, pc + SizeOf(save), args, call);
  }

  lemma ApplyUnfold(P: Program, e: Expr, n: nat, vars: seq<u64>, m: Mem, fuel: nat)
    requires e.Apply? && Fits(e, n)
    ensures n < MAX_REGISTERS && ArgsFit(e.args, 0)
    ensures var oa, o := EvalApply(P, e.f, e.args, vars, m, fuel), EvalExpr(P, e, vars, m, fuel);
      if !oa.Done? then SameKind(o, oa)
      else if oa.value.0.None? then o == Wrong && KindOf(o) == Meaningless
      else o == Done((oa.value.0.value, oa.value.1)) && KindOf(o) == Ended
  {
    hide EvalArgs, EvalCall, ArgsFit;
  }

  lemma ReturnsFacts(s: State, t: State, size: int, v: Option<u64>, m: Mem)
    requires Returns(s, t, size, v, m)
    ensures t.pc == s.pc + size && t.stack == s.stack && t.mem == m && (v.Some? ==> t.regs[8] == v.value)
  {
  }

  lemma ApplyOk(P: Program, M: Machine, env: Env, e: Expr, n: nat, fs: int, vars: seq<u64>, s: State, fuel: nat)
    returns (k: nat, t: State)
    requires e.Apply?
    requires Linked(P, M, env) && Fits(e, n) && Frame(s.stack, fs, vars)
    requires CodeAt(M, s.pc, GenExpr(env, e, n, fs))
    ensures var o := EvalExpr(P, e, vars, s.mem, fuel);
      Sim(M, s, k, t, KindOf(o), fuel)
      && (o.Done? ==> Produces(s, t, n, SizeOf(GenExpr(env, e, n, fs)), o.value.0, o.value.1))
    decreases fuel, 1, e, 0
  {
    hide *;
    ApplyLayout(M, env, e, n, fs, s.pc);
    ApplyUnfold(P, e, n, vars, s.mem, fuel);
    var oa, o := EvalApply(P, e.f, e.args, vars, s.mem, fuel), EvalExpr(P, e, vars, s.mem, fuel);
    KindFacts(o, oa);
    KindFacts(oa, oa);
    k, t := ApplyStartOk(P, M, env, e, n, fs, vars, s, fuel);
    if oa.Done? {
      var w, k1 := t, k;
      var k2;
      k2, t := ApplyEndOk(M, s, w, n, oa.value.0, SizeOf(GenExpr(env, e, n, fs)), fuel);
      SimThen(M, s, k1, w, k2, t, Ended, fuel);
      SimUndefined(M, s, k1 + k2, t, Ended, fuel);
      k := k1 + k2;
    }
  }

  /** Up to the return of the call. */
  lemma ApplyStartOk(P: Program, M: Machine, env: Env, e: Expr, n: nat, fs: int, vars: seq<u64>, s: State, fuel: nat)
    returns (k: nat, t: State)
    requires e.Apply? && n < MAX_REGISTERS && ArgsFit(e.args, 0)
    requires Linked(P, M, env) && Frame(s.stack, fs, vars)
    requires CodeAt(M, s.pc, SaveInsns(n))
    requires CodeAt(M, s.pc + SizeOf(SaveInsns(n)), GenArgs(env, e.args, 0, fs + n) + [Call(FnTarget(env, e.f))])
    ensures var o := EvalApply(P, e.f, e.args, vars, s.mem, fuel);
      Sim(M, s, k, t, KindOf(o), fuel)
      && (o.Done? ==>
            t.pc == s.pc + SizeOf(SaveInsns(n)) + SizeOf(GenArgs(env, e.args, 0, fs + n)) + 5
            && t.stack == s.stack + SavedRegs(s.regs, n) && t.mem == o.value.1
            && (o.value.0.Some? ==> t.regs[8] == o.value.0.value))
    decreases fuel, 1, e.args, 2
  {
    hide *;
    var u := SaveOk(M, s, n);
    SimReached(M, s, n, u, Ended, fuel);
    FrameUnderSaved(s.stack, fs, vars, SavedRegs(s.regs, n));
    var o := EvalApply(P, e.f, e.args, vars, s.mem, fuel);
    var k1;
    k1, t := CallWithArgsOk(P, M, env, e.f, e.args, fs + n, vars, u, fuel);
    SimThen(M, s, n, u, k1, t, KindOf(o), fuel);
    if o.Done? {
      ReturnsFacts(u, t, SizeOf(GenArgs(env, e.args, 0, fs + n)) + 5, o.value.0, o.value.1);
    }
    k := n + k1;
  }

  /** After a call that saved the registers of s, the result is kept and the saved registers come back. */
  lemma ApplyEndOk(M: Machine, s: State, w: State, n: nat, v: Option<u64>, size: int, fuel: nat)
      returns (k: nat, t: State)
    requires n < MAX_REGISTERS && w.stack == s.stack + SavedRegs(s.regs, n)
    requires CodeAt(M, w.pc, ResultInsns(n)) && CodeAt(M, w.pc + SizeOf(ResultInsns(n)), RestoreInsns(0, n))
    requires s.pc + size == w.pc + SizeOf(ResultInsns(n)) + SizeOf(RestoreInsns(0, n))
    requires v.Some? ==> w.regs[8] == v.value
    ensures Sim(M, w, k, t, Ended, fuel)
    ensures v.Some? ==> Produces(s, t, n, size, v.value, w.mem)
  {
    hide Size, SizeOf, RestoreInsns, ResultInsns, CodeAt, Reaches, Stuck;
    var k2, x := ResultOk(M, w, n);
    assert SavedRegs(s.regs, n)[..n - 0] == SavedRegs(s.regs, n);
    t := RestoreOk(M, s, s.stack, x, 0, n);
    Compose(M, w, k2, x, n, t);
    k := k2 + n;
  }

  lemma {:induction false} SimLater(M: Machine, s: State, k1: nat, u: State, k2: nat, t: State, kind: Kind, fuel: nat)
    requires fuel > 0 && k1 > 0
    requires Sim(M, s, k1, u, Ended, fuel) && Sim(M, u, k2, t, kind, fuel - 1)
    ensures Sim(M, s, k1 + k2, t, kind, fuel)
  {
    hide Reaches, Stuck;
    Compose(M, s, k1, u, k2, t);
  }

  lemma CallUnfold(P: Program, M: Machine, env: Env, f: Name, vs: seq<u64>, pc: int, m: Mem, fuel: nat)
    requires Linked(P, M, env) && CodeAt(M, pc, [Call(FnTarget(env, f))])
    ensures var o := EvalCall(P, f, vs, m, fuel);
      if fuel == 0 then o == Timeout && KindOf(o) == TimedOut
      else if f !in P.fns || |vs| != P.fns[f].arity then o == Wrong && KindOf(o) == Meaningless
      else SameKind(o, EvalFn(P, P.fns[f], vs, m, fuel - 1)) && (o.Done? ==> o == EvalFn(P, P.fns[f], vs, m, fuel - 1))
    ensures f in P.fns ==>
      f in env && FnTarget(env, f) == env[f] && env[f].At? && FnFits(P.fns[f])
      && CodeAt(M, env[f].offset, GenFn(env, P.fns[f], env[f].offset))
      && CodeAt(M, pc, [Call(At(env[f].offset))])
    ensures 0 <= M.base + pc + 5 < TWO64 == 0x1_0000_0000_0000_0000
  {
    hide GenFn, FnFits, EvalItems;
    assert f in P.fns ==> FnLinked(P, M, env, f);
    assert M.code[pc].1 == pc + 5;
  }

  /** The outcome of a function body on the given arguments. */
  ghost function EvalFn(P: Program, fn: Fn, vs: seq<u64>, m: Mem, fuel: nat): Outcome<(Option<u64>, Mem)> {
    var flow :- EvalItems(P, fn.body, Reverse(vs), m, fuel);
    match flow
    case Normal(_, m1) => Done((None, m1))
    case Returned(v, m1) => Done((v, m1))
    case Broke(_, _) => Wrong
  }

  lemma CallOk(P: Program, M: Machine, env: Env, f: Name, vs: seq<u64>, s: State, fuel: nat)
    returns (k: nat, t: State)
    requires Linked(P, M, env) && |vs| <= MAX_REGISTERS
    requires CodeAt(M, s.pc, [Call(FnTarget(env, f))])
    requires forall i :: 0 <= i < |vs| ==> s.regs[8 + i] == vs[i]
    ensures var o := EvalCall(P, f, vs, s.mem, fuel);
      Sim(M, s, k, t, KindOf(o), fuel) && (o.Done? ==> Returns(s, t, 5, o.value.0, o.value.1))
    decreases fuel, 0
  {
    hide *;
    CallUnfold(P, M, env, f, vs, s.pc, s.mem, fuel);
    var o := EvalCall(P, f, vs, s.mem, fuel);
    if fuel == 0 || f !in P.fns || |vs| != P.fns[f].arity {
      k, t := 0, s;
      NoSteps(M, s, o, fuel);
    } else {
      var u := CallInsnOk(M, s, env[f].offset);
      SimReached(M, s, 1, u, Ended, fuel);
      var ret := M.base + s.pc + 5;
      var ob := EvalFn(P, P.fns[f], vs, u.mem, fuel - 1);
      KindFacts(o, ob);
      var k1;
      k1, t := FnOk(Context(P, M, env, s.stack, ret), P.fns[f], vs, u, fuel - 1);
      SimLater(M, s, 1, u, k1, t, KindOf(o), fuel);
      if o.Done? {
        ReturnsIntro(s, t, ret, M.base, o.value.0, o.value.1);
      }
      k := 1 + k1;
    }
  }

  lemma NoSteps<T>(M: Machine, s: State, o: Outcome<T>, fuel: nat)
    requires (o.Timeout? && fuel == 0) || o.Wrong?
    ensures Sim(M, s, 0, s, KindOf(o), fuel)
  {
  }

  lemma ReturnsIntro(s: State, t: State, ret: int, base: int, v: Option<u64>, m: Mem)
    requires ret == base + s.pc + 5 && t.pc == ret - base && t.stack == s.stack && t.mem == m
    requires v.Some? ==> t.regs[8] == v.value
    ensures Returns(s, t, 5, v, m)
  {
  }

  // ----- conditions -----

  /** Two operands, left to right. */
  ghost function EvalTwo(P: Program, l: Expr, r: Expr, vars: seq<u64>, m: Mem, fuel: nat): Outcome<(u64, u64, Mem)> {
    var (x, m1) :- EvalExpr(P, l, vars, m, fuel);
    var (y, m2) :- EvalExpr(P, r, vars, m1, fuel);
    Done((x, y, m2))
  }

  lemma TwoUnfold(P: Program, l: Expr, r: Expr, vars: seq<u64>, m: Mem, fuel: nat)
    ensures var o, o1 := EvalTwo(P, l, r, vars, m, fuel), EvalExpr(P, l, vars, m, fuel);
      if !o1.Done? then SameKind(o, o1)
      else
        var o2 := EvalExpr(P, r, vars, o1.value.1, fuel);
        SameKind(o, o2) && (o2.Done? ==> o.value == (o1.value.0, o2.value.0, o2.value.1))
  {
    hide EvalExpr;
  }

  lemma TwoOk(P: Program, M: Machine, env: Env, l: Expr, r: Expr, fs: int, vars: seq<u64>, s: State, fuel: nat)
    returns (k: nat, t: State)
    requires Linked(P, M, env) && Fits(l, 0) && Fits(r, 1) && Frame(s.stack, fs, vars)
    requires CodeAt(M, s.pc, GenExpr(env, l, 0, fs))
    requires CodeAt(M, s.pc + SizeOf(GenExpr(env, l, 0, fs)), GenExpr(env, r, 1, fs))
    ensures var o := EvalTwo(P, l, r, vars, s.mem, fuel);
      Sim(M, s, k, t, KindOf(o), fuel)
      && (o.Done? ==> t.regs[8] == o.value.0 && t.regs[9] == o.value.1 && t.mem == o.value.2 && t.stack == s.stack
                      && t.pc == s.pc + SizeOf(GenExpr(env, l, 0, fs)) + SizeOf(GenExpr(env, r, 1, fs)))
    decreases fuel, 2, 0
  {
    hide *;
    TwoUnfold(P, l, r, vars, s.mem, fuel);
    var o, o1 := EvalTwo(P, l, r, vars, s.mem, fuel), EvalExpr(P, l, vars, s.mem, fuel);
    KindFacts(o, o1);
    KindFacts(o1, o1);
    k, t := ExprOk(P, M, env, l, 0, fs, vars, s, fuel);
    if o1.Done? {
      var u, k1 := t, k;
      ProducesFacts(s, u, 0, SizeOf(GenExpr(env, l, 0, fs)), o1.value.0, o1.value.1);
      var o2 := EvalExpr(P, r, vars, u.mem, fuel);
      KindFacts(o, o2);
      var k2;
      k2, t := ExprOk(P, M, env, r, 1, fs, vars, u, fuel);
      SimThen(M, s, k1, u, k2, t, KindOf(o2), fuel);
      if o2.Done? {
        RightOperand(u, t, SizeOf(GenExpr(env, r, 1, fs)), o1.value.0, o2.value.0, o2.value.1);
      }
      k := k1 + k2;
    }
  }

  lemma RightOperand(u: State, w: State, size: int, x: u64, y: u64, m: Mem)
    requires u.regs[8] == x && Produces(u, w, 1, size, y, m)
    ensures w.regs[8] == x && w.regs[9] == y && w.pc == u.pc + size && w.stack == u.stack && w.mem == m
  {
  }

  lemma ComparisonUnfold(P: Program, M: Machine, env: Env, c: Comparison, fs: int, positive: bool, t: int, pc: int,
                         vars: seq<u64>, m: Mem, fuel: nat)
    requires CodeAt(M, pc, GenComparison(env, c, fs, positive, At(t)))
    ensures var cl, cr, j := GenExpr(env, c.l, 0, fs), GenExpr(env, c.r, 1, fs),
        JumpInsns(if positive then c.rel else Negate(c.rel), At(t));
      CodeAt(M, pc, cl) && CodeAt(M, pc + SizeOf(cl), cr) && CodeAt(M, pc + SizeOf(cl) + SizeOf(cr), j)
      && SizeOf(GenComparison(env, c, fs, positive, At(t))) == SizeOf(cl) + SizeOf(cr) + SizeOf(j)
    ensures var o, o1 := EvalComparison(P, c, vars, m, fuel), EvalTwo(P, c.l, c.r, vars, m, fuel);
      SameKind(o, o1) && (o1.Done? ==> o.value == (EvalRel(c.rel, o1.value.0, o1.value.1), o1.value.2))
  {
    hide CodeAt, SizeOf, Size, GenExpr, JumpInsns, EvalExpr, EvalRel;
    CodeAtConcat3(M, pc, GenExpr(env, c.l, 0, fs), GenExpr(env, c.r, 1, fs),
      JumpInsns(if positive then c.rel else Negate(c.rel), At(t)));
  }

  /** Control is at `target` and nothing but memory and registers has changed. */
  ghost predicate Arrives(s: State, t: State, target: int, m: Mem) {
    t.pc == target && t.stack == s.stack && t.mem == m
  }

  lemma ArrivesFacts(s: State, t: State, target: int, m: Mem)
    ensures Arrives(s, t, target, m) <==> t.pc == target && t.stack == s.stack && t.mem == m
  {
  }

  /** The jump at the end of a comparison, in both polarities. */
  lemma ComparisonEndOk(M: Machine, rel: RelToken, positive: bool, target: int, s: State, x: u64, y: u64, fuel: nat)
    returns (k: nat, t: State)
    requires s.regs[8] == x && s.regs[9] == y
    requires CodeAt(M, s.pc, JumpInsns(if positive then rel else Negate(rel), At(target)))
    ensures Sim(M, s, k, t, Ended, fuel)
    ensures Arrives(s, t, if EvalRel(rel, x, y) == positive then target
                          else s.pc + SizeOf(JumpInsns(if positive then rel else Negate(rel), At(target))), s.mem)
  {
    hide EvalRel, CodeAt, SizeOf, JumpInsns, Reaches, Stuck, Negate;
    NegateMeaning(rel, x, y);
    t := JumpOk(M, s, if positive then rel else Negate(rel), target);
    k := 2;
  }

  lemma ComparisonOk(P: Program, M: Machine, env: Env, c: Comparison, fs: int, positive: bool, target: int,
                     vars: seq<u64>, s: State, fuel: nat)
    returns (k: nat, t: State)
    requires Linked(P, M, env) && Fits(c.l, 0) && Fits(c.r, 1) && Frame(s.stack, fs, vars)
    requires CodeAt(M, s.pc, GenComparison(env, c, fs, positive, At(target)))
    ensures var o := EvalComparison(P, c, vars, s.mem, fuel);
      Sim(M, s, k, t, KindOf(o), fuel)
      && (o.Done? ==> Arrives(s, t, if o.value.0 == positive then target
                                    else s.pc + SizeOf(GenComparison(env, c, fs, positive, At(target))), o.value.1))
    decreases fuel, 2, 1
  {
    hide *;
    ComparisonUnfold(P, M, env, c, fs, positive, target, s.pc, vars, s.mem, fuel);
    var o, o1 := EvalComparison(P, c, vars, s.mem, fuel), EvalTwo(P, c.l, c.r, vars, s.mem, fuel);
    KindFacts(o, o1);
    KindFacts(o1, o1);
    k, t := TwoOk(P, M, env, c.l, c.r, fs, vars, s, fuel);
    if o1.Done? {
      var w, k1 := t, k;
      var k2;
      k2, t := ComparisonEndOk(M, c.rel, positive, target, w, o1.value.0, o1.value.1, fuel);
      SimThen(M, s, k1, w, k2, t, Ended, fuel);
      ArrivesSame(w, s, t);
      k := k1 + k2;
    }
  }

  lemma ArrivesSame(w: State, s: State, t: State)
    requires w.stack == s.stack
    ensures forall target, m :: Arrives(w, t, target, m) ==> Arrives(s, t, target, m)
  {
  }

  lemma AndUnfold(P: Program, M: Machine, env: Env, cs: List<Comparison>, fs: int, elseA: int, positive: bool,
                  lastA: int, pc: int, vars: seq<u64>, m: Mem, fuel: nat)
    requires AndFits(cs) && CodeAt(M, pc, GenAnd(env, cs, fs, At(elseA), positive, At(lastA)))
    ensures cs.Cons? && Fits(cs.head.l, 0) && Fits(cs.head.r, 1)
    ensures cs.tail.Nil? ==>
      CodeAt(M, pc, GenComparison(env, cs.head, fs, positive, At(lastA)))
      && GenAnd(env, cs, fs, At(elseA), positive, At(lastA)) == GenComparison(env, cs.head, fs, positive, At(lastA))
    ensures cs.tail.Cons? ==>
      var first, rest := GenComparison(env, cs.head, fs, false, At(elseA)), GenAnd(env, cs.tail, fs, At(elseA),
        positive, At(lastA));
      AndFits(cs.tail) && CodeAt(M, pc, first) && CodeAt(M, pc + SizeOf(first), rest)
      && SizeOf(GenAnd(env, cs, fs, At(elseA), positive, At(lastA))) == SizeOf(first) + SizeOf(rest)
    ensures var o, o1 := EvalAnd(P, cs, vars, m, fuel), EvalComparison(P, cs.head, vars, m, fuel);
      if !o1.Done? then SameKind(o, o1)
      else if !o1.value.0 then o == o1
      else if cs.tail.Nil? then o == o1
      else o == EvalAnd(P, cs.tail, vars, o1.value.1, fuel)
  {
    hide CodeAt, SizeOf, GenComparison, EvalComparison, Fits;
    CodeAtConcat(M, pc, GenComparison(env, cs.head, fs, false, At(elseA)), GenAnd(env, cs.tail, fs, At(elseA),
      positive, At(lastA)));
  }

  /** Where a conjunction goes: to elseA when false; when true, to lastA if its last jump is taken on true,
      and past its end otherwise. */
  lemma {:induction false} AndOk(P: Program, M: Machine, env: Env, cs: List<Comparison>, fs: int, elseA: int,
                                 positive: bool, lastA: int, vars: seq<u64>, s: State, fuel: nat)
    returns (k: nat, t: State)
    requires Linked(P, M, env) && AndFits(cs) && Frame(s.stack, fs, vars)
    requires CodeAt(M, s.pc, GenAnd(env, cs, fs, At(elseA), positive, At(lastA)))
    requires elseA == if positive then s.pc + SizeOf(GenAnd(env, cs, fs, At(elseA), positive, At(lastA))) else lastA
    ensures var o := EvalAnd(P, cs, vars, s.mem, fuel);
      Sim(M, s, k, t, KindOf(o), fuel)
      && (o.Done? ==>
            Arrives(s, t, if !o.value.0 then elseA else if positive then lastA
                          else s.pc + SizeOf(GenAnd(env, cs, fs, At(elseA), positive, At(lastA))), o.value.1))
    decreases fuel, 3, cs
  {
    hide *;
    AndUnfold(P, M, env, cs, fs, elseA, positive, lastA, s.pc, vars, s.mem, fuel);
    var o, o1 := EvalAnd(P, cs, vars, s.mem, fuel), EvalComparison(P, cs.head, vars, s.mem, fuel);
    KindFacts(o, o1);
    KindFacts(o1, o1);
    if cs.tail.Nil? {
      k, t := ComparisonOk(P, M, env, cs.head, fs, positive, lastA, vars, s, fuel);
    } else {
      k, t := ComparisonOk(P, M, env, cs.head, fs, false, elseA, vars, s, fuel);
      if o1.Done? && o1.value.0 {
        var u, k1 := t, k;
        ArrivesFacts(s, u, s.pc + SizeOf(GenComparison(env, cs.head, fs, false, At(elseA))), o1.value.1);
        var k2;
        k2, t := AndOk(P, M, env, cs.tail, fs, elseA, positive, lastA, vars, u, fuel);
        SimThen(M, s, k1, u, k2, t, KindOf(o), fuel);
        ArrivesSame(u, s, t);
        k := k1 + k2;
      }
    }
  }

  lemma OrUnfold(P: Program, M: Machine, env: Env, ands: BoolExpr, fs: int, thenA: int, elseA: int,
                 pc: int, vars: seq<u64>, m: Mem, fuel: nat)
    requires OrFits(ands) && CodeAt(M, pc, GenOr(env, ands, pc, fs, At(thenA), At(elseA)))
    ensures ands.Cons? && AndFits(ands.head)
    ensures ands.tail.Nil? ==>
      CodeAt(M, pc, GenAnd(env, ands.head, fs, At(elseA), false, At(elseA)))
      && GenOr(env, ands, pc, fs, At(thenA), At(elseA)) == GenAnd(env, ands.head, fs, At(elseA), false, At(elseA))
    ensures ands.tail.Cons? ==>
      var next := pc + AndSize(ands.head, fs);
      var first := GenAnd(env, ands.head, fs, At(next), true, At(thenA));
      OrFits(ands.tail) && CodeAt(M, pc, first) && next == pc + SizeOf(first)
      && CodeAt(M, next, GenOr(env, ands.tail, next, fs, At(thenA), At(elseA)))
      && pc + SizeOf(GenOr(env, ands, pc, fs, At(thenA), At(elseA)))
         == next + SizeOf(GenOr(env, ands.tail, next, fs, At(thenA), At(elseA)))
    ensures var o, o1 := EvalOr(P, ands, vars, m, fuel), EvalAnd(P, ands.head, vars, m, fuel);
      if !o1.Done? then SameKind(o, o1)
      else if o1.value.0 then o == o1
      else if ands.tail.Nil? then o == o1
      else o == EvalOr(P, ands.tail, vars, o1.value.1, fuel)
  {
    hide CodeAt, SizeOf, GenAnd, EvalAnd, AndFits;
    var next := pc + AndSize(ands.head, fs);
    GenAndSize(env, ands.head, fs, At(next), true, At(thenA));
    CodeAtConcat(M, pc, GenAnd(env, ands.head, fs, At(next), true, At(thenA)),
      GenOr(env, ands.tail, next, fs, At(thenA), At(elseA)));
  }

  /** Short-circuit code is right: it ends at its own end, which must be thenA, when the source condition is
      true, and at elseA when it is false. */
  lemma {:induction false} OrOk(P: Program, M: Machine, env: Env, ands: BoolExpr, fs: int, thenA: int, elseA: int,
                                vars: seq<u64>, s: State, fuel: nat)
    returns (k: nat, t: State)
    requires Linked(P, M, env) && OrFits(ands) && Frame(s.stack, fs, vars)
    requires CodeAt(M, s.pc, GenOr(env, ands, s.pc, fs, At(thenA), At(elseA)))
    requires thenA == s.pc + SizeOf(GenOr(env, ands, s.pc, fs, At(thenA), At(elseA)))
    ensures var o := EvalOr(P, ands, vars, s.mem, fuel);
      Sim(M, s, k, t, KindOf(o), fuel)
      && (o.Done? ==> Arrives(s, t, if o.value.0 then thenA else elseA, o.value.1))
    decreases fuel, 4, ands
  {
    hide *;
    OrUnfold(P, M, env, ands, fs, thenA, elseA, s.pc, vars, s.mem, fuel);
    var o, o1 := EvalOr(P, ands, vars, s.mem, fuel), EvalAnd(P, ands.head, vars, s.mem, fuel);
    KindFacts(o, o1);
    KindFacts(o1, o1);
    if ands.tail.Nil? {
      k, t := AndOk(P, M, env, ands.head, fs, elseA, false, elseA, vars, s, fuel);
    } else {
      var next := s.pc + AndSize(ands.head, fs);
      k, t := AndOk(P, M, env, ands.head, fs, next, true, thenA, vars, s, fuel);
      if o1.Done? && !o1.value.0 {
        var u, k1 := t, k;
        ArrivesFacts(s, u, next, o1.value.1);
        var k2;
        k2, t := OrOk(P, M, env, ands.tail, fs, thenA, elseA, vars, u, fuel);
        SimThen(M, s, k1, u, k2, t, KindOf(o), fuel);
        ArrivesSame(u, s, t);
        k := k1 + k2;
      }
    }
  }

  // ----- functions -----

  /** A program, its code, and the activation being executed: the stack under the return address. */
  datatype Context = Context(P: Program, M: Machine, env: Env, below: seq<u64>, ret: u64)

  /** Where a statement of size `size` that started at s may have gone, by how it ended; nvars is the number
      of variables there are when it ends normally. */
  ghost predicate Leaves(C: Context, end: int, brk: Target, nvars: nat, t: State, flow: Flow) {
    match flow
    case Normal(vars, m) => t.pc == end && t.stack == C.below + [C.ret] + vars && |vars| == nvars && t.mem == m
    case Broke(vars, m) =>
      brk.At? && t.pc == brk.offset && t.stack == C.below + [C.ret] + vars && |vars| == nvars && t.mem == m
    case Returned(v, m) =>
      t.pc == C.ret - C.M.base && t.stack == C.below && t.mem == m && (v.Some? ==> t.regs[8] == v.value)
  }

  ghost predicate Activation(C: Context, s: State, vars: seq<u64>) { s.stack == C.below + [C.ret] + vars }

  lemma ActivationFrame(C: Context, s: State, vars: seq<u64>)
    requires Activation(C, s, vars)
    ensures Frame(s.stack, |vars|, vars)
    ensures s.stack == C.below + [C.ret] + vars
  {
  }

  lemma SameActivation(C: Context, s: State, t: State, vars: seq<u64>)
    requires Activation(C, s, vars) && t.stack == s.stack
    ensures Activation(C, t, vars)
  {
  }

  // ----- statements -----

  // Every lemma about a statement says the same of it: the run that starts at its code simulates its
  // evaluation, and leaves to where the evaluation's flow says.

  ghost predicate StmtReady(C: Context, st: Stmt, brk: Target, vars: seq<u64>, s: State) {
    && Linked(C.P, C.M, C.env) && StmtFits(st) && (brk.At? || !StmtBreaks(st)) && Activation(C, s, vars)
    && CodeAt(C.M, s.pc, GenStmt(C.env, st, s.pc, |vars|, brk))
  }

  ghost predicate BlockReady(C: Context, ss: List<Stmt>, brk: Target, vars: seq<u64>, s: State) {
    && Linked(C.P, C.M, C.env) && BlockFits(ss) && (brk.At? || !Breaks(ss)) && Activation(C, s, vars)
    && CodeAt(C.M, s.pc, GenBlock(C.env, ss, s.pc, |vars|, brk))
  }

  ghost predicate FlowSim(C: Context, s: State, k: nat, t: State, end: int, brk: Target, nvars: nat, o: Outcome<Flow>,
                          fuel: nat) {
    Sim(C.M, s, k, t, KindOf(o), fuel) && (o.Done? ==> Leaves(C, end, brk, nvars, t, o.value))
  }

  lemma FlowFails<T>(C: Context, s: State, k: nat, t: State, end: int, brk: Target, nvars: nat, o: Outcome<Flow>,
                     p: Outcome<T>, fuel: nat)
    requires SameKind(o, p) && !p.Done? && Sim(C.M, s, k, t, KindOf(p), fuel)
    ensures FlowSim(C, s, k, t, end, brk, nvars, o, fuel)
  {
    hide Sim;
  }

  /** A run that ended, followed by one that simulates o. */
  lemma FlowThen(C: Context, s: State, k1: nat, u: State, k2: nat, t: State, end: int, brk: Target, nvars: nat,
                 o: Outcome<Flow>, fuel: nat)
    requires Sim(C.M, s, k1, u, Ended, fuel) && FlowSim(C, u, k2, t, end, brk, nvars, o, fuel)
    ensures FlowSim(C, s, k1 + k2, t, end, brk, nvars, o, fuel)
  {
    hide Sim, Leaves;
    SimThen(C.M, s, k1, u, k2, t, KindOf(o), fuel);
  }

  lemma FlowLater(C: Context, s: State, k1: nat, u: State, k2: nat, t: State, end: int, brk: Target, nvars: nat,
                  o: Outcome<Flow>, fuel: nat)
    requires fuel > 0 && k1 > 0
    requires Sim(C.M, s, k1, u, Ended, fuel) && FlowSim(C, u, k2, t, end, brk, nvars, o, fuel - 1)
    ensures FlowSim(C, s, k1 + k2, t, end, brk, nvars, o, fuel)
  {
    hide Sim, Leaves;
    SimLater(C.M, s, k1, u, k2, t, KindOf(o), fuel);
  }

  lemma FlowEnded(C: Context, s: State, k: nat, t: State, end: int, brk: Target, nvars: nat, o: Outcome<Flow>,
                  fuel: nat)
    requires o.Done? && Sim(C.M, s, k, t, Ended, fuel) && Leaves(C, end, brk, nvars, t, o.value)
    ensures FlowSim(C, s, k, t, end, brk, nvars, o, fuel)
  {
    hide Sim, Leaves;
  }

  // ----- statements without inner statements -----

  lemma SetVarUnfold(C: Context, st: Stmt, brk: Target, vars: seq<u64>, s: State, fuel: nat)
    requires st.SetVar? && StmtReady(C, st, brk, vars, s)
    ensures var code, i := GenExpr(C.env, st.e, 0, |vars|), Store(RSP, 8 * (|vars| - st.x), R8);
      Linked(C.P, C.M, C.env) && Fits(st.e, 0) && Frame(s.stack, |vars|, vars)
      && s.stack == C.below + [C.ret] + vars
      && CodeAt(C.M, s.pc, code) && CodeAt(C.M, s.pc + SizeOf(code), [i])
      && StmtSize(st, |vars|) == SizeOf(code) + Size(i)
    ensures var o, o1 := EvalStmt(C.P, st, vars, s.mem, fuel), EvalExpr(C.P, st.e, vars, s.mem, fuel);
      if !o1.Done? then SameKind(o, o1)
      else if 1 <= st.x <= |vars| then o == Done(Normal(vars[st.x - 1 := o1.value.0], o1.value.1))
      else o == Wrong
  {
    hide CodeAt, SizeOf, Size, GenExpr, ExprSize, EvalExpr, Linked;
    ActivationFrame(C, s, vars);
    GenExprSize(C.env, st.e, 0, |vars|);
    CodeAtConcat(C.M, s.pc, GenExpr(C.env, st.e, 0, |vars|), [Store(RSP, 8 * (|vars| - st.x), R8)]);
  }

  lemma SetVarStmtOk(C: Context, st: Stmt, brk: Target, vars: seq<u64>, s: State, fuel: nat) returns (k: nat, t: State)
    requires st.SetVar? && StmtReady(C, st, brk, vars, s)
    ensures FlowSim(C, s, k, t, s.pc + StmtSize(st, |vars|), brk, |vars|, EvalStmt(C.P, st, vars, s.mem, fuel), fuel)
    decreases fuel, 5, st, 0
  {
    hide *;
    SetVarUnfold(C, st, brk, vars, s, fuel);
    var end := s.pc + StmtSize(st, |vars|);
    var o, o1 := EvalStmt(C.P, st, vars, s.mem, fuel), EvalExpr(C.P, st.e, vars, s.mem, fuel);
    KindFacts(o1, o1);
    k, t := ExprOk(C.P, C.M, C.env, st.e, 0, |vars|, vars, s, fuel);
    if !o1.Done? {
      FlowFails(C, s, k, t, end, brk, |vars|, o, o1, fuel);
    } else {
      ProducesFacts(s, t, 0, SizeOf(GenExpr(C.env, st.e, 0, |vars|)), o1.value.0, o1.value.1);
      if 1 <= st.x <= |vars| {
        var u, k1 := t, k;
        t := SetVarOk(C.M, u, C.below, C.ret, vars, st.x);
        SimReached(C.M, u, 1, t, Ended, fuel);
        SimThen(C.M, s, k1, u, 1, t, Ended, fuel);
        k := k1 + 1;
        LeavesNormal(C, t, end, brk, vars[st.x - 1 := o1.value.0]);
        FlowEnded(C, s, k, t, end, brk, |vars|, o, fuel);
      } else {
        FlowWrong(C, s, k, t, end, brk, |vars|, fuel);
      }
    }
  }

  lemma LeavesNormal(C: Context, t: State, end: int, brk: Target, vars: seq<u64>)
    requires t.pc == end && t.stack == C.below + [C.ret] + vars
    ensures Leaves(C, end, brk, |vars|, t, Normal(vars, t.mem))
  {
  }

  lemma FlowWrong(C: Context, s: State, k: nat, t: State, end: int, brk: Target, nvars: nat, fuel: nat)
    requires Sim(C.M, s, k, t, Ended, fuel)
    ensures FlowSim(C, s, k, t, end, brk, nvars, Wrong, fuel)
  {
  }

  lemma SetFieldUnfold(C: Context, st: Stmt, brk: Target, vars: seq<u64>, s: State, fuel: nat)
    requires st.SetField? && StmtReady(C, st, brk, vars, s)
    ensures var ca, ce, i := GenExpr(C.env, st.a, 0, |vars|), GenExpr(C.env, st.e, 1, |vars|),
      Store(R8, 8 * st.field, R9);
      Linked(C.P, C.M, C.env) && Fits(st.a, 0) && Fits(st.e, 1) && Frame(s.stack, |vars|, vars)
      && s.stack == C.below + [C.ret] + vars
      && CodeAt(C.M, s.pc, ca) && CodeAt(C.M, s.pc + SizeOf(ca), ce) && CodeAt(C.M, s.pc + SizeOf(ca) + SizeOf(ce), [i])
      && StmtSize(st, |vars|) == SizeOf(ca) + SizeOf(ce) + Size(i)
    ensures var o, o1 := EvalStmt(C.P, st, vars, s.mem, fuel), EvalTwo(C.P, st.a, st.e, vars, s.mem, fuel);
      if !o1.Done? then SameKind(o, o1)
      else
        var m := Store64(o1.value.2, FieldAddress(o1.value.0, st.field), o1.value.1);
        o == if m.None? then Fault else Done(Normal(vars, m.value))
  {
    hide CodeAt, SizeOf, Size, GenExpr, ExprSize, EvalExpr, Linked, Store64, FieldAddress;
    ActivationFrame(C, s, vars);
    GenExprSize(C.env, st.a, 0, |vars|);
    GenExprSize(C.env, st.e, 1, |vars|);
    CodeAtConcat3(C.M, s.pc, GenExpr(C.env, st.a, 0, |vars|), GenExpr(C.env, st.e, 1, |vars|),
      [Store(R8, 8 * st.field, R9)]);
  }

  lemma SetFieldStmtOk(C: Context, st: Stmt, brk: Target, vars: seq<u64>, s: State, fuel: nat)
      returns (k: nat, t: State)
    requires st.SetField? && StmtReady(C, st, brk, vars, s)
    ensures FlowSim(C, s, k, t, s.pc + StmtSize(st, |vars|), brk, |vars|, EvalStmt(C.P, st, vars, s.mem, fuel), fuel)
    decreases fuel, 5, st, 0
  {
    hide *;
    SetFieldUnfold(C, st, brk, vars, s, fuel);
    var end := s.pc + StmtSize(st, |vars|);
    var o, o1 := EvalStmt(C.P, st, vars, s.mem, fuel), EvalTwo(C.P, st.a, st.e, vars, s.mem, fuel);
    KindFacts(o1, o1);
    k, t := TwoOk(C.P, C.M, C.env, st.a, st.e, |vars|, vars, s, fuel);
    if !o1.Done? {
      FlowFails(C, s, k, t, end, brk, |vars|, o, o1, fuel);
    } else {
      var u, k1 := t, k;
      var k2;
      k2, t := SetFieldOk(C.M, u, st.field);
      if o.Done? {
        SimReached(C.M, u, k2, t, Ended, fuel);
        LeavesNormal(C, t, end, brk, vars);
        FlowEnded(C, u, k2, t, end, brk, |vars|, o, fuel);
      } else {
        SimStuck(C.M, u, k2, t, fuel);
        FlowFault(C, u, k2, t, end, brk, |vars|, fuel);
      }
      FlowThen(C, s, k1, u, k2, t, end, brk, |vars|, o, fuel);
      k := k1 + k2;
    }
  }

  lemma FlowFault(C: Context, s: State, k: nat, t: State, end: int, brk: Target, nvars: nat, fuel: nat)
    requires Sim(C.M, s, k, t, Faulted, fuel)
    ensures FlowSim(C, s, k, t, end, brk, nvars, Fault, fuel)
  {
  }

  lemma EvalUnfold(C: Context, st: Stmt, brk: Target, vars: seq<u64>, s: State, fuel: nat)
    requires st.Eval? && StmtReady(C, st, brk, vars, s)
    ensures Linked(C.P, C.M, C.env) && Fits(st.e, 0) && Frame(s.stack, |vars|, vars)
    ensures s.stack == C.below + [C.ret] + vars
    ensures CodeAt(C.M, s.pc, GenExpr(C.env, st.e, 0, |vars|))
      && StmtSize(st, |vars|) == SizeOf(GenExpr(C.env, st.e, 0, |vars|))
    ensures var o := EvalStmt(C.P, st, vars, s.mem, fuel);
      if st.e.Apply? then
        var o1 := EvalApply(C.P, st.e.f, st.e.args, vars, s.mem, fuel);
        SameKind(o, o1) && (o1.Done? ==> o == Done(Normal(vars, o1.value.1)))
      else
        var o1 := EvalExpr(C.P, st.e, vars, s.mem, fuel);
        SameKind(o, o1) && (o1.Done? ==> o == Done(Normal(vars, o1.value.1)))
  {
    hide CodeAt, SizeOf, GenExpr, ExprSize, EvalExpr, EvalArgs, EvalCall, Linked;
    ActivationFrame(C, s, vars);
    GenExprSize(C.env, st.e, 0, |vars|);
  }

  lemma NothingSaved()
    ensures SaveInsns(0) == [] && ResultInsns(0) == [] && RestoreInsns(0, 0) == [] && SizeOf([]) == 0
    ensures forall regs :: SavedRegs(regs, 0) == []
  {
  }

  /** A call as a statement: its value, if any, is dropped. */
  lemma EvalStmtOk(C: Context, st: Stmt, brk: Target, vars: seq<u64>, s: State, fuel: nat) returns (k: nat, t: State)
    requires st.Eval? && StmtReady(C, st, brk, vars, s)
    ensures FlowSim(C, s, k, t, s.pc + StmtSize(st, |vars|), brk, |vars|, EvalStmt(C.P, st, vars, s.mem, fuel), fuel)
    decreases fuel, 5, st, 0
  {
    hide *;
    EvalUnfold(C, st, brk, vars, s, fuel);
    var end := s.pc + StmtSize(st, |vars|);
    var o := EvalStmt(C.P, st, vars, s.mem, fuel);
    if st.e.Apply? {
      ApplyLayout(C.M, C.env, st.e, 0, |vars|, s.pc);
      ApplyUnfold(C.P, st.e, 0, vars, s.mem, fuel);
      NothingSaved();
      var o1 := EvalApply(C.P, st.e.f, st.e.args, vars, s.mem, fuel);
      KindFacts(o, o1);
      KindFacts(o1, o1);
      k, t := ApplyStartOk(C.P, C.M, C.env, st.e, 0, |vars|, vars, s, fuel);
      if o1.Done? {
        LeavesNormal(C, t, end, brk, vars);
        FlowEnded(C, s, k, t, end, brk, |vars|, o, fuel);
      } else {
        FlowFails(C, s, k, t, end, brk, |vars|, o, o1, fuel);
      }
    } else {
      var o1 := EvalExpr(C.P, st.e, vars, s.mem, fuel);
      KindFacts(o, o1);
      KindFacts(o1, o1);
      k, t := ExprOk(C.P, C.M, C.env, st.e, 0, |vars|, vars, s, fuel);
      if o1.Done? {
        ProducesFacts(s, t, 0, SizeOf(GenExpr(C.env, st.e, 0, |vars|)), o1.value.0, o1.value.1);
        LeavesNormal(C, t, end, brk, vars);
        FlowEnded(C, s, k, t, end, brk, |vars|, o, fuel);
      } else {
        FlowFails(C, s, k, t, end, brk, |vars|, o, o1, fuel);
      }
    }
  }

  lemma LeaveUnfold(C: Context, st: Stmt, brk: Target, vars: seq<u64>, s: State, fuel: nat)
    requires (st.Break? || st.Return? || st.ReturnValue?) && StmtReady(C, st, brk, vars, s)
    ensures Linked(C.P, C.M, C.env) && Frame(s.stack, |vars|, vars) && s.stack == C.below + [C.ret] + vars
    ensures st.Break? ==>
      brk.At? && CodeAt(C.M, s.pc, [Jmp(At(brk.offset))])
      && EvalStmt(C.P, st, vars, s.mem, fuel) == Done(Broke(vars, s.mem))
    ensures st.Return? ==>
      CodeAt(C.M, s.pc, ReturnInsns(|vars|))
      && EvalStmt(C.P, st, vars, s.mem, fuel) == Done(Returned(None, s.mem))
    ensures st.ReturnValue? ==>
      var code, o, o1 := GenExpr(C.env, st.e, 0, |vars|), EvalStmt(C.P, st, vars, s.mem, fuel),
        EvalExpr(C.P, st.e, vars, s.mem, fuel);
      Fits(st.e, 0) && CodeAt(C.M, s.pc, code) && CodeAt(C.M, s.pc + SizeOf(code), ReturnInsns(|vars|))
      && SameKind(o, o1) && (o1.Done? ==> o == Done(Returned(Some(o1.value.0), o1.value.1)))
  {
    hide CodeAt, SizeOf, GenExpr, EvalExpr, Linked, ReturnInsns;
    ActivationFrame(C, s, vars);
    if st.ReturnValue? {
      CodeAtConcat(C.M, s.pc, GenExpr(C.env, st.e, 0, |vars|), ReturnInsns(|vars|));
    }
  }

  lemma LeavesReturned(C: Context, t: State, end: int, brk: Target, nvars: nat, v: Option<u64>)
    requires t.pc == C.ret - C.M.base && t.stack == C.below && (v.Some? ==> t.regs[8] == v.value)
    ensures Leaves(C, end, brk, nvars, t, Returned(v, t.mem))
  {
  }

  lemma LeavesBroke(C: Context, t: State, end: int, brk: Target, vars: seq<u64>)
    requires brk.At? && t.pc == brk.offset && t.stack == C.below + [C.ret] + vars
    ensures Leaves(C, end, brk, |vars|, t, Broke(vars, t.mem))
  {
  }

  lemma LeaveStmtOk(C: Context, st: Stmt, brk: Target, vars: seq<u64>, s: State, fuel: nat) returns (k: nat, t: State)
    requires (st.Break? || st.Return? || st.ReturnValue?) && StmtReady(C, st, brk, vars, s)
    ensures FlowSim(C, s, k, t, s.pc + StmtSize(st, |vars|), brk, |vars|, EvalStmt(C.P, st, vars, s.mem, fuel), fuel)
    decreases fuel, 5, st, 0
  {
    hide *;
    LeaveUnfold(C, st, brk, vars, s, fuel);
    var end := s.pc + StmtSize(st, |vars|);
    var o := EvalStmt(C.P, st, vars, s.mem, fuel);
    if st.Break? {
      t := GotoOk(C.M, s, brk.offset);
      k := 1;
      SimReached(C.M, s, k, t, Ended, fuel);
      LeavesBroke(C, t, end, brk, vars);
      FlowEnded(C, s, k, t, end, brk, |vars|, o, fuel);
    } else if st.Return? {
      k, t := ReturnOk(C.M, s, C.below, C.ret, vars);
      SimReached(C.M, s, k, t, Ended, fuel);
      LeavesReturned(C, t, end, brk, |vars|, None);
      FlowEnded(C, s, k, t, end, brk, |vars|, o, fuel);
    } else {
      var o1 := EvalExpr(C.P, st.e, vars, s.mem, fuel);
      KindFacts(o1, o1);
      KindFacts(o, o1);
      k, t := ExprOk(C.P, C.M, C.env, st.e, 0, |vars|, vars, s, fuel);
      if o1.Done? {
        var u, k1 := t, k;
        ProducesFacts(s, u, 0, SizeOf(GenExpr(C.env, st.e, 0, |vars|)), o1.value.0, o1.value.1);
        var k2;
        k2, t := ReturnOk(C.M, u, C.below, C.ret, vars);
        SimReached(C.M, u, k2, t, Ended, fuel);
        SimThen(C.M, s, k1, u, k2, t, Ended, fuel);
        k := k1 + k2;
        LeavesReturned(C, t, end, brk, |vars|, Some(o1.value.0));
        FlowEnded(C, s, k, t, end, brk, |vars|, o, fuel);
      } else {
        FlowFails(C, s, k, t, end, brk, |vars|, o, o1, fuel);
      }
    }
  }

  // ----- statements with inner statements -----

  lemma BlockStart(C: Context, ss: List<Stmt>, brk: Target, vars: seq<u64>, s: State, u: State)
    requires Linked(C.P, C.M, C.env) && BlockFits(ss) && (brk.At? || !Breaks(ss)) && Activation(C, s, vars)
    requires u.stack == s.stack && CodeAt(C.M, u.pc, GenBlock(C.env, ss, u.pc, |vars|, brk))
    ensures BlockReady(C, ss, brk, vars, u)
  {
  }

  lemma IfUnfold(C: Context, st: Stmt, brk: Target, vars: seq<u64>, s: State, fuel: nat)
    requires st.If? && StmtReady(C, st, brk, vars, s)
    ensures var b := s.pc + OrSize(st.c, |vars|);
      var end := b + BlockSize(st.thn, |vars|);
      var code := GenOr(C.env, st.c, s.pc, |vars|, At(b), At(end));
      Linked(C.P, C.M, C.env) && OrFits(st.c) && BlockFits(st.thn) && Frame(s.stack, |vars|, vars)
      && Activation(C, s, vars)
      && s.stack == C.below + [C.ret] + vars && (brk.At? || !Breaks(st.thn))
      && CodeAt(C.M, s.pc, code) && b == s.pc + SizeOf(code)
      && CodeAt(C.M, b, GenBlock(C.env, st.thn, b, |vars|, brk))
      && s.pc + StmtSize(st, |vars|) == end
    ensures var o, oc := EvalStmt(C.P, st, vars, s.mem, fuel), EvalOr(C.P, st.c, vars, s.mem, fuel);
      if !oc.Done? then SameKind(o, oc)
      else o == if oc.value.0 then EvalBlock(C.P, st.thn, vars, oc.value.1, fuel) else Done(Normal(vars, oc.value.1))
  {
    hide CodeAt, SizeOf, GenOr, EvalOr, Linked, GenBlock, EvalBlock, OrSize, BlockSize, OrFits, BlockFits;
    ActivationFrame(C, s, vars);
    var b := s.pc + OrSize(st.c, |vars|);
    var end := b + BlockSize(st.thn, |vars|);
    GenOrSize(C.env, st.c, s.pc, |vars|, At(b), At(end));
    CodeAtConcat(C.M, s.pc, GenOr(C.env, st.c, s.pc, |vars|, At(b), At(end)), GenBlock(C.env, st.thn, b, |vars|, brk));
  }

  lemma IfStmtOk(C: Context, st: Stmt, brk: Target, vars: seq<u64>, s: State, fuel: nat) returns (k: nat, t: State)
    requires st.If? && StmtReady(C, st, brk, vars, s)
    ensures FlowSim(C, s, k, t, s.pc + StmtSize(st, |vars|), brk, |vars|, EvalStmt(C.P, st, vars, s.mem, fuel), fuel)
    decreases fuel, 5, st, 0
  {
    hide *;
    IfUnfold(C, st, brk, vars, s, fuel);
    var b := s.pc + OrSize(st.c, |vars|);
    var end := b + BlockSize(st.thn, |vars|);
    var o, oc := EvalStmt(C.P, st, vars, s.mem, fuel), EvalOr(C.P, st.c, vars, s.mem, fuel);
    KindFacts(oc, oc);
    k, t := OrOk(C.P, C.M, C.env, st.c, |vars|, b, end, vars, s, fuel);
    if !oc.Done? {
      FlowFails(C, s, k, t, end, brk, |vars|, o, oc, fuel);
    } else {
      ArrivesFacts(s, t, if oc.value.0 then b else end, oc.value.1);
      if oc.value.0 {
        var u, k1 := t, k;
        BlockStart(C, st.thn, brk, vars, s, u);
        var k2;
        k2, t := BlockOk(C, st.thn, brk, vars, u, fuel);
        FlowThen(C, s, k1, u, k2, t, end, brk, |vars|, o, fuel);
        k := k1 + k2;
      } else {
        LeavesNormal(C, t, end, brk, vars);
        FlowEnded(C, s, k, t, end, brk, |vars|, o, fuel);
      }
    }
  }

  lemma IfElseUnfold(C: Context, st: Stmt, brk: Target, vars: seq<u64>, s: State, fuel: nat)
    requires st.IfElse? && StmtReady(C, st, brk, vars, s)
    ensures var b := s.pc + OrSize(st.c, |vars|);
      var j := b + BlockSize(st.thn, |vars|);
      var e := j + (if BlockReachable(st.thn) then 5 else 0);
      var end := e + BlockSize(st.els, |vars|);
      var code := GenOr(C.env, st.c, s.pc, |vars|, At(b), At(e));
      Linked(C.P, C.M, C.env) && OrFits(st.c) && BlockFits(st.thn) && BlockFits(st.els)
      && Frame(s.stack, |vars|, vars) && Activation(C, s, vars)
      && (brk.At? || (!Breaks(st.thn) && !Breaks(st.els)))
      && CodeAt(C.M, s.pc, code) && b == s.pc + SizeOf(code)
      && CodeAt(C.M, b, GenBlock(C.env, st.thn, b, |vars|, brk))
      && (BlockReachable(st.thn) ==> CodeAt(C.M, j, [Jmp(At(end))]))
      && CodeAt(C.M, e, GenBlock(C.env, st.els, e, |vars|, brk))
      && s.pc + StmtSize(st, |vars|) == end
    ensures var o, oc := EvalStmt(C.P, st, vars, s.mem, fuel), EvalOr(C.P, st.c, vars, s.mem, fuel);
      if !oc.Done? then SameKind(o, oc)
      else o == EvalBlock(C.P, if oc.value.0 then st.thn else st.els, vars, oc.value.1, fuel)
  {
    hide CodeAt, SizeOf, GenOr, EvalOr, Linked, GenBlock, EvalBlock, OrSize, BlockSize, OrFits, BlockFits,
      BlockReachable;
    ActivationFrame(C, s, vars);
    var fs := |vars|;
    var b := s.pc + OrSize(st.c, fs);
    var j := b + BlockSize(st.thn, fs);
    var e := j + (if BlockReachable(st.thn) then 5 else 0);
    var end := e + BlockSize(st.els, fs);
    GenOrSize(C.env, st.c, s.pc, fs, At(b), At(e));
    GenBlockSize(C.env, st.thn, b, fs, brk);
    JumpOverSize(st.thn, end);
    var c1, c2, c3 := GenOr(C.env, st.c, s.pc, fs, At(b), At(e)), GenBlock(C.env, st.thn, b, fs, brk),
      JumpOver(st.thn, end);
    CodeAtConcat(C.M, s.pc, c1 + c2 + c3, GenBlock(C.env, st.els, e, fs, brk));
    CodeAtConcat3(C.M, s.pc, c1, c2, c3);
  }

  /** After the then block of an if-else: its jump over the else block, which is there exactly when the end of
      the then block can be reached. */
  lemma ThenEndOk(C: Context, st: Stmt, brk: Target, vars: seq<u64>, m: Mem, j: int, end: int, s: State, k1: nat,
                  u: State, fuel: nat)
    returns (k: nat, t: State)
    requires st.IfElse? && (BlockReachable(st.thn) ==> CodeAt(C.M, j, [Jmp(At(end))]))
    requires var o := EvalBlock(C.P, st.thn, vars, m, fuel); FlowSim(C, s, k1, u, j, brk, |vars|, o, fuel)
    ensures var o := EvalBlock(C.P, st.thn, vars, m, fuel); FlowSim(C, s, k, t, end, brk, |vars|, o, fuel)
  {
    hide EvalBlock, CodeAt, Sim, Reaches, BlockReachable;
    var o := EvalBlock(C.P, st.thn, vars, m, fuel);
    k, t := k1, u;
    if o.Done? && o.value.Normal? {
      if BlockReachable(st.thn) {
        t := GotoOk(C.M, u, end);
        SimReached(C.M, u, 1, t, Ended, fuel);
        SimThen(C.M, s, k1, u, 1, t, Ended, fuel);
        k := k1 + 1;
      } else {
        NoNormalBlockEnd(C.P, st.thn, vars, m, fuel);
      }
    }
  }

  lemma IfElseStmtOk(C: Context, st: Stmt, brk: Target, vars: seq<u64>, s: State, fuel: nat) returns (k: nat, t: State)
    requires st.IfElse? && StmtReady(C, st, brk, vars, s)
    ensures FlowSim(C, s, k, t, s.pc + StmtSize(st, |vars|), brk, |vars|, EvalStmt(C.P, st, vars, s.mem, fuel), fuel)
    decreases fuel, 5, st, 0
  {
    hide *;
    IfElseUnfold(C, st, brk, vars, s, fuel);
    var b := s.pc + OrSize(st.c, |vars|);
    var j := b + BlockSize(st.thn, |vars|);
    var e := j + (if BlockReachable(st.thn) then 5 else 0);
    var end := e + BlockSize(st.els, |vars|);
    var o, oc := EvalStmt(C.P, st, vars, s.mem, fuel), EvalOr(C.P, st.c, vars, s.mem, fuel);
    KindFacts(oc, oc);
    k, t := OrOk(C.P, C.M, C.env, st.c, |vars|, b, e, vars, s, fuel);
    if !oc.Done? {
      FlowFails(C, s, k, t, end, brk, |vars|, o, oc, fuel);
    } else {
      ArrivesFacts(s, t, if oc.value.0 then b else e, oc.value.1);
      var u, k1 := t, k;
      var k2;
      if oc.value.0 {
        BlockStart(C, st.thn, brk, vars, s, u);
        k2, t := BlockOk(C, st.thn, brk, vars, u, fuel);
        k2, t := ThenEndOk(C, st, brk, vars, u.mem, j, end, u, k2, t, fuel);
      } else {
        BlockStart(C, st.els, brk, vars, s, u);
        k2, t := BlockOk(C, st.els, brk, vars, u, fuel);
      }
      FlowThen(C, s, k1, u, k2, t, end, brk, |vars|, o, fuel);
      k := k1 + k2;
    }
  }

  lemma {:induction false} BlockUnfold(C: Context, ss: List<Stmt>, brk: Target, vars: seq<u64>, s: State, fuel: nat)
    requires ss.Cons? && BlockReady(C, ss, brk, vars, s)
    ensures StmtReady(C, ss.head, brk, vars, s)
    ensures var pc := s.pc + StmtSize(ss.head, |vars|);
      Linked(C.P, C.M, C.env) && BlockFits(ss.tail) && (brk.At? || !Breaks(ss.tail))
      && CodeAt(C.M, pc, GenBlock(C.env, ss.tail, pc, |vars|, brk))
      && BlockSize(ss, |vars|) == StmtSize(ss.head, |vars|) + BlockSize(ss.tail, |vars|)
    ensures var o, o1 := EvalBlock(C.P, ss, vars, s.mem, fuel), EvalStmt(C.P, ss.head, vars, s.mem, fuel);
      if !o1.Done? || !o1.value.Normal? then o == o1
      else o == EvalBlock(C.P, ss.tail, o1.value.vars, o1.value.mem, fuel)
  {
    hide CodeAt, SizeOf, GenStmt, StmtSize, EvalStmt, Linked, StmtFits, StmtBreaks;
    GenStmtSize(C.env, ss.head, s.pc, |vars|, brk);
    CodeAtConcat(C.M, s.pc, GenStmt(C.env, ss.head, s.pc, |vars|, brk),
      GenBlock(C.env, ss.tail, s.pc + StmtSize(ss.head, |vars|), |vars|, brk));
  }

  lemma EmptyBlock(C: Context, brk: Target, vars: seq<u64>, s: State, fuel: nat)
    requires BlockReady(C, List.Nil, brk, vars, s)
    ensures FlowSim(C, s, 0, s, s.pc + BlockSize(List.Nil, |vars|), brk, |vars|, EvalBlock(C.P, List.Nil, vars, s.mem,
      fuel), fuel)
  {
  }

  /** A normal end of a statement leaves an activation with the same number of variables. */
  lemma NormalFacts(C: Context, s: State, k: nat, u: State, end: int, brk: Target, nvars: nat, o: Outcome<Flow>,
                    fuel: nat)
    requires FlowSim(C, s, k, u, end, brk, nvars, o, fuel) && o.Done? && o.value.Normal?
    ensures Sim(C.M, s, k, u, Ended, fuel) && u.pc == end && Activation(C, u, o.value.vars)
    ensures |o.value.vars| == nvars && u.mem == o.value.mem
    ensures u.stack == C.below + [C.ret] + o.value.vars
  {
  }

  lemma FlowStops(C: Context, s: State, k: nat, t: State, end1: int, end2: int, brk: Target, nvars: nat,
                  o: Outcome<Flow>, fuel: nat)
    requires FlowSim(C, s, k, t, end1, brk, nvars, o, fuel) && !(o.Done? && o.value.Normal?)
    ensures FlowSim(C, s, k, t, end2, brk, nvars, o, fuel)
  {
  }

  lemma {:induction false} BlockOk(C: Context, ss: List<Stmt>, brk: Target, vars: seq<u64>, s: State, fuel: nat)
    returns (k: nat, t: State)
    requires BlockReady(C, ss, brk, vars, s)
    ensures FlowSim(C, s, k, t, s.pc + BlockSize(ss, |vars|), brk, |vars|, EvalBlock(C.P, ss, vars, s.mem, fuel), fuel)
    decreases fuel, 5, ss
  {
    hide *;
    if ss.Nil? {
      k, t := 0, s;
      EmptyBlock(C, brk, vars, s, fuel);
    } else {
      BlockUnfold(C, ss, brk, vars, s, fuel);
      var end1 := s.pc + StmtSize(ss.head, |vars|);
      var end := s.pc + BlockSize(ss, |vars|);
      var o, o1 := EvalBlock(C.P, ss, vars, s.mem, fuel), EvalStmt(C.P, ss.head, vars, s.mem, fuel);
      k, t := StmtOk(C, ss.head, brk, vars, s, fuel);
      if o1.Done? && o1.value.Normal? {
        var u, k1, vars1 := t, k, o1.value.vars;
        NormalFacts(C, s, k1, u, end1, brk, |vars|, o1, fuel);
        BlockStart(C, ss.tail, brk, vars1, u, u);
        var k2;
        k2, t := BlockOk(C, ss.tail, brk, vars1, u, fuel);
        FlowThen(C, s, k1, u, k2, t, end, brk, |vars|, o, fuel);
        k := k1 + k2;
      } else {
        FlowStops(C, s, k, t, end1, end, brk, |vars|, o1, fuel);
      }
    }
  }

  lemma LoopUnfold(C: Context, st: Stmt, brk: Target, vars: seq<u64>, s: State, fuel: nat)
    requires (st.While? || st.Loop?) && StmtReady(C, st, brk, vars, s)
    ensures var b := s.pc + (if st.While? then OrSize(st.c, |vars|) else 0);
      var j := b + BlockSize(st.body, |vars|);
      Linked(C.P, C.M, C.env) && BlockFits(st.body) && Frame(s.stack, |vars|, vars) && Activation(C, s, vars)
      && (st.While? ==>
            var code := GenOr(C.env, st.c, s.pc, |vars|, At(b), At(j + 5));
            OrFits(st.c) && CodeAt(C.M, s.pc, code) && b == s.pc + SizeOf(code))
      && CodeAt(C.M, b, GenBlock(C.env, st.body, b, |vars|, At(j + 5)))
      && CodeAt(C.M, j, [Jmp(At(s.pc))])
      && s.pc + StmtSize(st, |vars|) == j + 5
    ensures fuel == 0 ==> EvalStmt(C.P, st, vars, s.mem, fuel) == Timeout
    ensures fuel > 0 && st.While? ==>
      var o, oc := EvalStmt(C.P, st, vars, s.mem, fuel), EvalOr(C.P, st.c, vars, s.mem, fuel);
      if !oc.Done? then SameKind(o, oc)
      else o == if oc.value.0 then AfterBody(C, st, vars, oc.value.1, fuel) else Done(Normal(vars, oc.value.1))
    ensures fuel > 0 && st.Loop? ==> EvalStmt(C.P, st, vars, s.mem, fuel) == AfterBody(C, st, vars, s.mem, fuel)
  {
    hide CodeAt, SizeOf, GenOr, EvalOr, Linked, GenBlock, EvalBlock, OrSize, BlockSize, OrFits, BlockFits;
    ActivationFrame(C, s, vars);
    var fs := |vars|;
    var b := s.pc + (if st.While? then OrSize(st.c, fs) else 0);
    var j := b + BlockSize(st.body, fs);
    GenBlockSize(C.env, st.body, b, fs, At(j + 5));
    var body := GenBlock(C.env, st.body, b, fs, At(j + 5));
    if st.While? {
      GenOrSize(C.env, st.c, s.pc, fs, At(b), At(j + 5));
      CodeAtConcat3(C.M, s.pc, GenOr(C.env, st.c, s.pc, fs, At(b), At(j + 5)), body, [Jmp(At(s.pc))]);
    } else {
      CodeAtConcat(C.M, s.pc, body, [Jmp(At(s.pc))]);
    }
  }

  /** The rest of a loop, from the start of its body. */
  ghost function AfterBody(C: Context, st: Stmt, vars: seq<u64>, m: Mem, fuel: nat): Outcome<Flow>
    requires (st.While? || st.Loop?) && fuel > 0
  {
    var flow :- EvalBlock(C.P, st.body, vars, m, fuel);
    match flow
    case Normal(vars1, m1) => EvalStmt(C.P, st, vars1, m1, fuel - 1)
    case Broke(vars1, m1) => Done(Normal(vars1, m1))
    case Returned(_, _) => Done(flow)
  }

  lemma AfterBodyUnfold(C: Context, st: Stmt, brk: Target, vars: seq<u64>, u: State, k: nat, t: State, j: int,
                        fuel: nat)
    requires (st.While? || st.Loop?) && fuel > 0
    requires FlowSim(C, u, k, t, j, At(j + 5), |vars|, EvalBlock(C.P, st.body, vars, u.mem, fuel), fuel)
    ensures var ob, o := EvalBlock(C.P, st.body, vars, u.mem, fuel), AfterBody(C, st, vars, u.mem, fuel);
      if ob.Done? && ob.value.Normal? then o == EvalStmt(C.P, st, ob.value.vars, ob.value.mem, fuel - 1)
      else FlowSim(C, u, k, t, j + 5, brk, |vars|, o, fuel)
  {
    hide EvalBlock, EvalStmt, Sim;
  }

  lemma StmtAgain(C: Context, st: Stmt, brk: Target, vars: seq<u64>, s: State, vars1: seq<u64>, u: State)
    requires StmtReady(C, st, brk, vars, s) && |vars1| == |vars| && u.pc == s.pc && Activation(C, u, vars1)
    ensures StmtReady(C, st, brk, vars1, u)
  {
  }

  /** A loop from the start of its body: the body, the jump back, and the loop again with less fuel. s is where
      the loop starts. */
  lemma LoopBodyOk(C: Context, st: Stmt, brk: Target, vars: seq<u64>, s: State, u: State, fuel: nat)
      returns (k: nat, t: State)
    requires (st.While? || st.Loop?) && StmtReady(C, st, brk, vars, s) && fuel > 0
    requires u.stack == s.stack && u.pc == s.pc + (if st.While? then OrSize(st.c, |vars|) else 0)
    ensures FlowSim(C, u, k, t, s.pc + StmtSize(st, |vars|), brk, |vars|, AfterBody(C, st, vars, u.mem, fuel), fuel)
    decreases fuel, 5, st, 0
  {
    hide *;
    LoopUnfold(C, st, brk, vars, s, fuel);
    var j := u.pc + BlockSize(st.body, |vars|);
    var o, ob := AfterBody(C, st, vars, u.mem, fuel), EvalBlock(C.P, st.body, vars, u.mem, fuel);
    BlockStart(C, st.body, At(j + 5), vars, s, u);
    k, t := BlockOk(C, st.body, At(j + 5), vars, u, fuel);
    AfterBodyUnfold(C, st, brk, vars, u, k, t, j, fuel);
    if ob.Done? && ob.value.Normal? {
      var w, k1, vars1 := t, k, ob.value.vars;
      NormalFacts(C, u, k1, w, j, At(j + 5), |vars|, ob, fuel);
      var x := GotoOk(C.M, w, s.pc);
      SimReached(C.M, w, 1, x, Ended, fuel);
      SimThen(C.M, u, k1, w, 1, x, Ended, fuel);
      SameActivation(C, w, x, vars1);
      StmtAgain(C, st, brk, vars, s, vars1, x);
      var k2;
      k2, t := StmtOk(C, st, brk, vars1, x, fuel - 1);
      FlowLater(C, u, k1 + 1, x, k2, t, j + 5, brk, |vars|, o, fuel);
      k := k1 + 1 + k2;
    }
  }

  lemma NoFuel(C: Context, s: State, end: int, brk: Target, nvars: nat)
    ensures FlowSim(C, s, 0, s, end, brk, nvars, Timeout, 0)
  {
  }

  lemma LoopStmtOk(C: Context, st: Stmt, brk: Target, vars: seq<u64>, s: State, fuel: nat) returns (k: nat, t: State)
    requires (st.While? || st.Loop?) && StmtReady(C, st, brk, vars, s)
    ensures FlowSim(C, s, k, t, s.pc + StmtSize(st, |vars|), brk, |vars|, EvalStmt(C.P, st, vars, s.mem, fuel), fuel)
    decreases fuel, 5, st, 1
  {
    hide *;
    LoopUnfold(C, st, brk, vars, s, fuel);
    var end := s.pc + StmtSize(st, |vars|);
    if fuel == 0 {
      k, t := 0, s;
      NoFuel(C, s, end, brk, |vars|);
    } else if st.Loop? {
      k, t := LoopBodyOk(C, st, brk, vars, s, s, fuel);
    } else {
      var b := s.pc + OrSize(st.c, |vars|);
      var o, oc := EvalStmt(C.P, st, vars, s.mem, fuel), EvalOr(C.P, st.c, vars, s.mem, fuel);
      KindFacts(oc, oc);
      k, t := OrOk(C.P, C.M, C.env, st.c, |vars|, b, end, vars, s, fuel);
      if !oc.Done? {
        FlowFails(C, s, k, t, end, brk, |vars|, o, oc, fuel);
      } else {
        ArrivesFacts(s, t, if oc.value.0 then b else end, oc.value.1);
        if oc.value.0 {
          var u, k1 := t, k;
          var k2;
          k2, t := LoopBodyOk(C, st, brk, vars, s, u, fuel);
          FlowThen(C, s, k1, u, k2, t, end, brk, |vars|, o, fuel);
          k := k1 + k2;
        } else {
          ActivationFrame(C, s, vars);
          LeavesNormal(C, t, end, brk, vars);
          FlowEnded(C, s, k, t, end, brk, |vars|, o, fuel);
        }
      }
    }
  }

  /** Statement code is right: whatever the evaluation of the statement does, the run does, and it leaves to the
      next statement, to the break target or to the caller accordingly. */
  lemma {:induction false} StmtOk(C: Context, st: Stmt, brk: Target, vars: seq<u64>, s: State, fuel: nat)
      returns (k: nat, t: State)
    requires StmtReady(C, st, brk, vars, s)
    ensures FlowSim(C, s, k, t, s.pc + StmtSize(st, |vars|), brk, |vars|, EvalStmt(C.P, st, vars, s.mem, fuel), fuel)
    decreases fuel, 5, st, 2
  {
    hide *;
    if st.SetVar? {
      k, t := SetVarStmtOk(C, st, brk, vars, s, fuel);
    } else if st.SetField? {
      k, t := SetFieldStmtOk(C, st, brk, vars, s, fuel);
    } else if st.Eval? {
      k, t := EvalStmtOk(C, st, brk, vars, s, fuel);
    } else if st.If? {
      k, t := IfStmtOk(C, st, brk, vars, s, fuel);
    } else if st.IfElse? {
      k, t := IfElseStmtOk(C, st, brk, vars, s, fuel);
    } else if st.While? || st.Loop? {
      k, t := LoopStmtOk(C, st, brk, vars, s, fuel);
    } else {
      k, t := LeaveStmtOk(C, st, brk, vars, s, fuel);
    }
  }

  // ----- function bodies -----

  ghost predicate ItemsReady(C: Context, items: List<Item>, vars: seq<u64>, s: State) {
    && Linked(C.P, C.M, C.env) && ItemsFit(items) && Activation(C, s, vars)
    && CodeAt(C.M, s.pc, GenItems(C.env, items, s.pc, |vars|))
  }

  const NO_BREAK: Target := Ref(Local(0))

  lemma {:induction false} ItemsUnfold(C: Context, items: List<Item>, vars: seq<u64>, s: State, fuel: nat)
    requires items.Cons? && ItemsReady(C, items, vars, s)
    ensures var item := items.head;
      var pc := s.pc + ItemSize(item, |vars|);
      var n := |vars| + (if item.Let? then 1 else 0);
      Linked(C.P, C.M, C.env) && ItemsFit(items.tail) && ItemFits(item) && Activation(C, s, vars)
      && Frame(s.stack, |vars|, vars) && s.stack == C.below + [C.ret] + vars
      && CodeAt(C.M, s.pc, GenItem(C.env, item, s.pc, |vars|))
      && CodeAt(C.M, pc, GenItems(C.env, items.tail, pc, n))
      && SizeOf(GenItems(C.env, items, s.pc, |vars|)) == ItemSize(item, |vars|)
        + SizeOf(GenItems(C.env, items.tail, pc, n))
      && |vars| + Lets(items) == n + Lets(items.tail)
    ensures items.head.Do? ==>
      var o, o1 := EvalItems(C.P, items, vars, s.mem, fuel), EvalStmt(C.P, items.head.s, vars, s.mem, fuel);
      StmtReady(C, items.head.s, NO_BREAK, vars, s) && ItemSize(items.head, |vars|) == StmtSize(items.head.s, |vars|)
      && if !o1.Done? || !o1.value.Normal? then o == o1
         else o == EvalItems(C.P, items.tail, o1.value.vars, o1.value.mem, fuel)
    ensures items.head.Let? ==>
      var o, o1 := EvalItems(C.P, items, vars, s.mem, fuel), EvalExpr(C.P, items.head.e, vars, s.mem, fuel);
      var code := GenExpr(C.env, items.head.e, 0, |vars|);
      Fits(items.head.e, 0) && CodeAt(C.M, s.pc, code) && CodeAt(C.M, s.pc + SizeOf(code), SaveInsns(1))
      && ItemSize(items.head, |vars|) == SizeOf(code) + SizeOf(SaveInsns(1))
      && if !o1.Done? then SameKind(o, o1)
         else o == EvalItems(C.P, items.tail, vars + [o1.value.0], o1.value.1, fuel)
  {
    hide CodeAt, SizeOf, GenStmt, StmtSize, EvalStmt, Linked, StmtFits, StmtBreaks, GenExpr, EvalExpr, ExprSize, Fits,
      SaveInsns;
    ActivationFrame(C, s, vars);
    var item, fs := items.head, |vars|;
    GenItemSize(C.env, item, s.pc, fs);
    CodeAtConcat(C.M, s.pc, GenItem(C.env, item, s.pc, fs),
      GenItems(C.env, items.tail, s.pc + ItemSize(item, fs), fs + (if item.Let? then 1 else 0)));
    if item.Let? {
      CodeAtConcat(C.M, s.pc, GenExpr(C.env, item.e, 0, fs), SaveInsns(1));
    }
  }

  lemma NoItems(C: Context, vars: seq<u64>, s: State, fuel: nat)
    requires ItemsReady(C, List.Nil, vars, s)
    ensures FlowSim(C, s, 0, s, s.pc + SizeOf(GenItems(C.env, List.Nil, s.pc, |vars|)), NO_BREAK,
      |vars| + Lets(List.Nil), EvalItems(C.P, List.Nil, vars, s.mem, fuel), fuel)
  {
  }

  lemma ItemsStart(C: Context, items: List<Item>, vars: seq<u64>, u: State)
    requires Linked(C.P, C.M, C.env) && ItemsFit(items) && Activation(C, u, vars)
    requires CodeAt(C.M, u.pc, GenItems(C.env, items, u.pc, |vars|))
    ensures ItemsReady(C, items, vars, u)
  {
  }

  /** The new variable of a let is the word pushed on the frame. */
  lemma LetOk(C: Context, u: State, vars: seq<u64>, v: u64, fuel: nat) returns (t: State)
    requires u.regs[8] == v && u.stack == C.below + [C.ret] + vars && CodeAt(C.M, u.pc, SaveInsns(1))
    ensures Sim(C.M, u, 1, t, Ended, fuel) && t.pc == u.pc + SizeOf(SaveInsns(1)) && t.mem == u.mem
    ensures Activation(C, t, vars + [v])
  {
    hide Reaches, CodeAt, Stuck, SizeOf;
    t := SaveOk(C.M, u, 1);
    assert SavedRegs(u.regs, 1) == [v];
    assert t.stack == C.below + [C.ret] + (vars + [v]);
  }

  lemma NotNormal(C: Context, s: State, k: nat, t: State, end1: int, end2: int, n1: nat, n2: nat, o: Outcome<Flow>,
                  fuel: nat)
    requires FlowSim(C, s, k, t, end1, NO_BREAK, n1, o, fuel) && !(o.Done? && o.value.Normal?)
    ensures FlowSim(C, s, k, t, end2, NO_BREAK, n2, o, fuel)
  {
  }

  lemma {:induction false} ItemsOk(C: Context, items: List<Item>, vars: seq<u64>, s: State, fuel: nat)
      returns (k: nat, t: State)
    requires ItemsReady(C, items, vars, s)
    ensures FlowSim(C, s, k, t, s.pc + SizeOf(GenItems(C.env, items, s.pc, |vars|)), NO_BREAK, |vars| + Lets(items),
      EvalItems(C.P, items, vars, s.mem, fuel), fuel)
    decreases fuel, 6, items
  {
    hide *;
    if items.Nil? {
      k, t := 0, s;
      NoItems(C, vars, s, fuel);
    } else {
      ItemsUnfold(C, items, vars, s, fuel);
      var end := s.pc + SizeOf(GenItems(C.env, items, s.pc, |vars|));
      var n := |vars| + Lets(items);
      var o := EvalItems(C.P, items, vars, s.mem, fuel);
      if items.head.Do? {
        var end1 := s.pc + StmtSize(items.head.s, |vars|);
        var o1 := EvalStmt(C.P, items.head.s, vars, s.mem, fuel);
        k, t := StmtOk(C, items.head.s, NO_BREAK, vars, s, fuel);
        if o1.Done? && o1.value.Normal? {
          var u, k1, vars1 := t, k, o1.value.vars;
          NormalFacts(C, s, k1, u, end1, NO_BREAK, |vars|, o1, fuel);
          ItemsStart(C, items.tail, vars1, u);
          var k2;
          k2, t := ItemsOk(C, items.tail, vars1, u, fuel);
          FlowThen(C, s, k1, u, k2, t, end, NO_BREAK, n, o, fuel);
          k := k1 + k2;
        } else {
          NotNormal(C, s, k, t, end1, end, |vars|, n, o1, fuel);
        }
      } else {
        var o1 := EvalExpr(C.P, items.head.e, vars, s.mem, fuel);
        KindFacts(o1, o1);
        k, t := ExprOk(C.P, C.M, C.env, items.head.e, 0, |vars|, vars, s, fuel);
        if o1.Done? {
          var u, k1 := t, k;
          ProducesFacts(s, u, 0, SizeOf(GenExpr(C.env, items.head.e, 0, |vars|)), o1.value.0, o1.value.1);
          var w := LetOk(C, u, vars, o1.value.0, fuel);
          SimThen(C.M, s, k1, u, 1, w, Ended, fuel);
          ItemsStart(C, items.tail, vars + [o1.value.0], w);
          var k2;
          k2, t := ItemsOk(C, items.tail, vars + [o1.value.0], w, fuel);
          FlowThen(C, s, k1 + 1, w, k2, t, end, NO_BREAK, n, o, fuel);
          k := k1 + 1 + k2;
        } else {
          FlowFails(C, s, k, t, end, NO_BREAK, n, o, o1, fuel);
        }
      }
    }
  }

  lemma FnUnfold(C: Context, fn: Fn, vs: seq<u64>, s: State, fuel: nat)
    requires FnFits(fn) && |vs| == fn.arity && CodeAt(C.M, s.pc, GenFn(C.env, fn, s.pc))
    ensures var pc := s.pc + 2 * fn.arity;
      var code := GenItems(C.env, fn.body, pc, fn.arity);
      |vs| <= MAX_REGISTERS && ItemsFit(fn.body)
      && CodeAt(C.M, s.pc, SaveInsns(fn.arity)) && SizeOf(SaveInsns(fn.arity)) == 2 * fn.arity
      && CodeAt(C.M, pc, code)
      && (ItemsReachable(fn.body) ==> CodeAt(C.M, pc + SizeOf(code), ReturnInsns(fn.arity + Lets(fn.body))))
    ensures var o, o1 := EvalFn(C.P, fn, vs, s.mem, fuel), EvalItems(C.P, fn.body, Reverse(vs), s.mem, fuel);
      if !o1.Done? then SameKind(o, o1)
      else match o1.value
        case Normal(_, m) => o == Done((None, m))
        case Returned(v, m) => o == Done((v, m))
        case Broke(_, _) => o == Wrong
  {
    hide CodeAt, SizeOf, SaveInsns, GenItems, EvalItems, ItemsReachable, Lets, ReturnInsns, Reverse;
    SaveInsnsSize(fn.arity);
    var a, b := SaveInsns(fn.arity), GenItems(C.env, fn.body, s.pc + 2 * fn.arity, fn.arity);
    CodeAtConcat3(C.M, s.pc, a, b, if ItemsReachable(fn.body) then ReturnInsns(fn.arity + Lets(fn.body)) else []);
  }

  /** Entering a function lays its arguments out as its variables. */
  lemma EnterOk(C: Context, vs: seq<u64>, s: State, fuel: nat) returns (t: State)
    requires |vs| <= MAX_REGISTERS && s.stack == C.below + [C.ret] && CodeAt(C.M, s.pc, SaveInsns(|vs|))
    requires forall i :: 0 <= i < |vs| ==> s.regs[8 + i] == vs[i]
    ensures Sim(C.M, s, |vs|, t, Ended, fuel) && t.pc == s.pc + SizeOf(SaveInsns(|vs|)) && t.mem == s.mem
    ensures Activation(C, t, Reverse(vs)) && |Reverse(vs)| == |vs|
  {
    hide Reaches, CodeAt, Stuck, SizeOf, SaveInsns;
    t := SaveOk(C.M, s, |vs|);
    SavedArguments(s.regs, vs);
  }

  lemma ReturnedFacts(C: Context, s: State, k: nat, t: State, end: int, brk: Target, nvars: nat, o: Outcome<Flow>,
                      fuel: nat)
    requires FlowSim(C, s, k, t, end, brk, nvars, o, fuel) && o.Done? && !o.value.Normal?
    ensures Sim(C.M, s, k, t, Ended, fuel)
    ensures o.value.Returned? ==>
      t.pc == C.ret - C.M.base && t.stack == C.below && t.mem == o.value.mem
      && (o.value.v.Some? ==> t.regs[8] == o.value.v.value)
    ensures o.value.Broke? ==> brk.At?
  {
  }

  lemma FlowKind(C: Context, s: State, k: nat, t: State, end: int, brk: Target, nvars: nat, o: Outcome<Flow>, fuel: nat)
    requires FlowSim(C, s, k, t, end, brk, nvars, o, fuel)
    ensures Sim(C.M, s, k, t, KindOf(o), fuel)
  {
  }

  /** A function called with its arguments in registers returns to its caller with the stack as it was and its
      result in register 0. */
  lemma FnOk(C: Context, fn: Fn, vs: seq<u64>, s: State, fuel: nat) returns (k: nat, t: State)
    requires Linked(C.P, C.M, C.env) && FnFits(fn) && |vs| == fn.arity
    requires s.stack == C.below + [C.ret] && CodeAt(C.M, s.pc, GenFn(C.env, fn, s.pc))
    requires forall i :: 0 <= i < |vs| ==> s.regs[8 + i] == vs[i]
    ensures var o := EvalFn(C.P, fn, vs, s.mem, fuel);
      Sim(C.M, s, k, t, KindOf(o), fuel)
      && (o.Done? ==> t.pc == C.ret - C.M.base && t.stack == C.below && t.mem == o.value.1
                      && (o.value.0.Some? ==> t.regs[8] == o.value.0.value))
    decreases fuel, 8
  {
    hide *;
    FnUnfold(C, fn, vs, s, fuel);
    var vars := Reverse(vs);
    var o, o1 := EvalFn(C.P, fn, vs, s.mem, fuel), EvalItems(C.P, fn.body, vars, s.mem, fuel);
    KindFacts(o, o1);
    KindFacts(o1, o1);
    KindFacts(o, o);
    var u := EnterOk(C, vs, s, fuel);
    ItemsStart(C, fn.body, vars, u);
    var k1, w := ItemsOk(C, fn.body, vars, u, fuel);
    var end, n := u.pc + SizeOf(GenItems(C.env, fn.body, u.pc, |vars|)), |vars| + Lets(fn.body);
    FlowKind(C, u, k1, w, end, NO_BREAK, n, o1, fuel);
    SimThen(C.M, s, |vs|, u, k1, w, KindOf(o1), fuel);
    k, t := |vs| + k1, w;
    if o1.Done? && o1.value.Normal? {
      NormalFacts(C, u, k1, w, end, NO_BREAK, n, o1, fuel);
      if ItemsReachable(fn.body) {
        var k2;
        k2, t := ReturnOk(C.M, w, C.below, C.ret, o1.value.vars);
        SimReached(C.M, w, k2, t, Ended, fuel);
        SimThen(C.M, s, k, w, k2, t, Ended, fuel);
        k := k + k2;
      } else {
        NoNormalItemsEnd(C.P, fn.body, vars, s.mem, fuel);
      }
    } else if o1.Done? {
      ReturnedFacts(C, u, k1, w, end, NO_BREAK, n, o1, fuel);
      SimUndefined(C.M, s, k, w, Ended, fuel);
    }
  }
}
