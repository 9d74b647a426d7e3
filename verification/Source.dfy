/** The Toy language after name resolution, and what its programs mean on 64-bit words.

    Every evaluation takes a fuel, spent on calls and loop iterations. Its outcome says whether the
    evaluation ended, faulted (division by zero or an access to unmapped memory), or outlived the fuel. */
module Source {
  import opened Words
  import opened X86

  type Name = seq<u8>

  datatype BinOp = Plus | Minus | Times | Quotient | Conj | Disj | LeftShift | RightShift

  /** A comparison operator, by its token: 12 to 17 stand for <, ==, >, <=, != and >=. */
  type RelToken = t: int | 12 <= t <= 17 witness 12

  datatype List<+T> = Nil | Cons(head: T, tail: List<T>)

  datatype Expr =
    | Lit(v: u64)
    | Address(offset: int)              // a static block or a function
    | Var(x: nat)                       // variables are numbered from 1
    | VarAddr(x: nat)                   // &x
    | Field(e: Expr, field: nat)        // e.field; *e is field 0
    | FieldAddr(e: Expr, field: nat)    // &e.field
    | Bin(op: BinOp, l: Expr, r: Expr)
    | Apply(f: Name, args: List<Expr>)

  datatype Comparison = Comparison(rel: RelToken, l: Expr, r: Expr)

  /** Disjunctions of conjunctions of comparisons. */
  type BoolExpr = List<List<Comparison>>

  datatype Stmt =
    | SetVar(x: nat, e: Expr)
    | SetField(a: Expr, field: nat, e: Expr)
    | Eval(e: Expr)
    | If(c: BoolExpr, thn: List<Stmt>)
    | IfElse(c: BoolExpr, thn: List<Stmt>, els: List<Stmt>)
    | While(c: BoolExpr, body: List<Stmt>)
    | Loop(body: List<Stmt>)
    | Break
    | Return
    | ReturnValue(e: Expr)

  datatype Item = Let(e: Expr) | Do(s: Stmt)

  datatype Fn = Fn(arity: nat, body: List<Item>)

  /** Functions by name, and where the code will be loaded. */
  datatype Program = Program(base: int, fns: map<Name, Fn>)

  datatype Outcome<+T> = Done(value: T) | Fault | Timeout | Wrong {
    predicate IsFailure() { !Done? }

    function PropagateFailure<U>(): Outcome<U>
      requires IsFailure()
    {
      match this
      case Fault => Fault
      case Timeout => Timeout
      case Wrong => Wrong
    }

    function Extract(): T
      requires Done?
    {
      value
    }
  }

  // ----- expressions -----

  ghost function EvalBin(op: BinOp, x: u64, y: u64): Option<u64> {
    match op
    case Plus => Some(Wrap(x + y))
    case Minus => Some(Wrap(x - y))
    case Times => Some(Wrap(x * y))
    case Quotient => if y == 0 then None else Some(ShiftedRight(x, y))
    case Conj => Some(BitAnd(x, y))
    case Disj => Some(Or64(x, y))
    case LeftShift => Some(Wrap(x * Pow2(y % 64)))
    case RightShift => Some(ShiftedRight(x, Pow2(y % 64)))
  }

  predicate EvalRel(rel: RelToken, x: u64, y: u64) {
    if rel == 12 then x < y
    else if rel == 13 then x == y
    else if rel == 14 then x > y
    else if rel == 15 then x <= y
    else if rel == 16 then x != y
    else x >= y
  }

  function Reverse(s: seq<u64>): (r: seq<u64>)
    ensures |r| == |s|
  {
    if s == [] then [] else Reverse(s[1..]) + [s[0]]
  }

  ghost function FieldAddress(a: u64, field: nat): u64 { Wrap(a + 8 * field) }

  ghost function EvalExpr(P: Program, e: Expr, vars: seq<u64>, m: Mem, fuel: nat): Outcome<(u64, Mem)>
    decreases fuel, 1, e
  {
    match e
    case Lit(v) => Done((v, m))
    case Address(offset) => Done((Wrap(P.base + offset), m))
    case Var(x) => if 1 <= x <= |vars| then Done((vars[x - 1], m)) else Wrong
    case VarAddr(_) => Wrong  // variables have no address in this semantics
    case Field(a, field) =>
      var (v, m1) :- EvalExpr(P, a, vars, m, fuel);
      var w := Load64(m1, FieldAddress(v, field));
      if w.None? then Fault else Done((w.value, m1))
    case FieldAddr(a, field) =>
      var (v, m1) :- EvalExpr(P, a, vars, m, fuel);
      Done((FieldAddress(v, field), m1))
    case Bin(op, l, r) =>
      var (x, m1) :- EvalExpr(P, l, vars, m, fuel);
      var (y, m2) :- EvalExpr(P, r, vars, m1, fuel);
      var z := EvalBin(op, x, y);
      if z.None? then Fault else Done((z.value, m2))
    case Apply(f, args) =>
      var (vs, m1) :- EvalArgs(P, args, vars, m, fuel);
      var (v, m2) :- EvalCall(P, f, vs, m1, fuel);
      if v.None? then Wrong else Done((v.value, m2))
  }

  ghost function EvalArgs(P: Program, es: List<Expr>, vars: seq<u64>, m: Mem, fuel: nat): Outcome<(seq<u64>, Mem)>
    decreases fuel, 1, es
  {
    match es
    case Nil => Done(([], m))
    case Cons(e, rest) =>
      var (v, m1) :- EvalExpr(P, e, vars, m, fuel);
      var (vs, m2) :- EvalArgs(P, rest, vars, m1, fuel);
      Done(([v] + vs, m2))
  }

  /** A call: the parameters are the variables numbered |vs| down to 1. */
  ghost function EvalCall(P: Program, f: Name, vs: seq<u64>, m: Mem, fuel: nat): Outcome<(Option<u64>, Mem)>
    decreases fuel, 0
  {
    if fuel == 0 then Timeout
    else if f !in P.fns || |vs| != P.fns[f].arity then Wrong
    else
      var flow :- EvalItems(P, P.fns[f].body, Reverse(vs), m, fuel - 1);
      match flow
      case Normal(_, m1) => Done((None, m1))
      case Returned(v, m1) => Done((v, m1))
      case Broke(_, _) => Wrong
  }

  // ----- conditions: operands are evaluated left to right, and only as far as needed -----

  ghost function EvalComparison(P: Program, c: Comparison, vars: seq<u64>, m: Mem, fuel: nat): Outcome<(bool, Mem)>
    decreases fuel, 2
  {
    var (x, m1) :- EvalExpr(P, c.l, vars, m, fuel);
    var (y, m2) :- EvalExpr(P, c.r, vars, m1, fuel);
    Done((EvalRel(c.rel, x, y), m2))
  }

  ghost function EvalAnd(P: Program, cs: List<Comparison>, vars: seq<u64>, m: Mem, fuel: nat): Outcome<(bool, Mem)>
    decreases fuel, 3, cs
  {
    match cs
    case Nil => Done((true, m))
    case Cons(c, rest) =>
      var (b, m1) :- EvalComparison(P, c, vars, m, fuel);
      if b then EvalAnd(P, rest, vars, m1, fuel) else Done((false, m1))
  }

  ghost function EvalOr(P: Program, ands: BoolExpr, vars: seq<u64>, m: Mem, fuel: nat): Outcome<(bool, Mem)>
    decreases fuel, 4, ands
  {
    match ands
    case Nil => Done((false, m))
    case Cons(a, rest) =>
      var (b, m1) :- EvalAnd(P, a, vars, m, fuel);
      if b then Done((true, m1)) else EvalOr(P, rest, vars, m1, fuel)
  }

  // ----- statements -----

  /** How a statement that ended left: to the next statement, out of the enclosing loop, or out of the
      function. */
  datatype Flow = Normal(vars: seq<u64>, mem: Mem) | Broke(vars: seq<u64>, mem: Mem) | Returned(v: Option<u64>,
    mem: Mem)

  ghost function EvalStmt(P: Program, s: Stmt, vars: seq<u64>, m: Mem, fuel: nat): Outcome<Flow>
    decreases fuel, 5, s
  {
    match s
    case SetVar(x, e) =>
      var (v, m1) :- EvalExpr(P, e, vars, m, fuel);
      if 1 <= x <= |vars| then Done(Normal(vars[x - 1 := v], m1)) else Wrong
    case SetField(a, field, e) =>
      var (p, m1) :- EvalExpr(P, a, vars, m, fuel);
      var (v, m2) :- EvalExpr(P, e, vars, m1, fuel);
      var m3 := Store64(m2, FieldAddress(p, field), v);
      if m3.None? then Fault else Done(Normal(vars, m3.value))
    case Eval(e) =>
      if e.Apply? then
        var (vs, m1) :- EvalArgs(P, e.args, vars, m, fuel);
        var (_, m2) :- EvalCall(P, e.f, vs, m1, fuel);
        Done(Normal(vars, m2))
      else
        var (_, m1) :- EvalExpr(P, e, vars, m, fuel);
        Done(Normal(vars, m1))
    case If(c, thn) =>
      var (b, m1) :- EvalOr(P, c, vars, m, fuel);
      if b then EvalBlock(P, thn, vars, m1, fuel) else Done(Normal(vars, m1))
    case IfElse(c, thn, els) =>
      var (b, m1) :- EvalOr(P, c, vars, m, fuel);
      EvalBlock(P, if b then thn else els, vars, m1, fuel)
    case While(c, body) =>
      if fuel == 0 then Timeout
      else
        var (b, m1) :- EvalOr(P, c, vars, m, fuel);
        if !b then Done(Normal(vars, m1))
        else
          var flow :- EvalBlock(P, body, vars, m1, fuel);
          match flow {
            case Normal(vars1, m2) => EvalStmt(P, s, vars1, m2, fuel - 1)
            case Broke(vars1, m2) => Done(Normal(vars1, m2))
            case Returned(_, _) => Done(flow)
          }
    case Loop(body) =>
      if fuel == 0 then Timeout
      else
        var flow :- EvalBlock(P, body, vars, m, fuel);
        match flow {
          case Normal(vars1, m1) => EvalStmt(P, s, vars1, m1, fuel - 1)
          case Broke(vars1, m1) => Done(Normal(vars1, m1))
          case Returned(_, _) => Done(flow)
        }
    case Break => Done(Broke(vars, m))
    case Return => Done(Returned(None, m))
    case ReturnValue(e) =>
      var (v, m1) :- EvalExpr(P, e, vars, m, fuel);
      Done(Returned(Some(v), m1))
  }

  ghost function EvalBlock(P: Program, ss: List<Stmt>, vars: seq<u64>, m: Mem, fuel: nat): Outcome<Flow>
    decreases fuel, 5, ss
  {
    match ss
    case Nil => Done(Normal(vars, m))
    case Cons(s, rest) =>
      var flow :- EvalStmt(P, s, vars, m, fuel);
      if flow.Normal? then EvalBlock(P, rest, flow.vars, flow.mem, fuel) else Done(flow)
  }

  /** Items of a function body; a let adds the next variable. */
  ghost function EvalItems(P: Program, items: List<Item>, vars: seq<u64>, m: Mem, fuel: nat): Outcome<Flow>
    decreases fuel, 6, items
  {
    match items
    case Nil => Done(Normal(vars, m))
    case Cons(Let(e), rest) =>
      var (v, m1) :- EvalExpr(P, e, vars, m, fuel);
      EvalItems(P, rest, vars + [v], m1, fuel)
    case Cons(Do(s), rest) =>
      var flow :- EvalStmt(P, s, vars, m, fuel);
      if flow.Normal? then EvalItems(P, rest, flow.vars, flow.mem, fuel) else Done(flow)
  }
}
