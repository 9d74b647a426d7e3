/** Programs that the compiler accepts never get to a point where the source has no meaning, if they take no address
    of a variable, call no machine code and assign to no variable through a cast. */
module Safety {
  import opened Words
  import opened X86
  import opened Source
  import opened Codegen
  import opened Preservation
  import opened Reachability
  import opened Syntax
  import opened Parsing
  import opened Functions
  import opened Results
  import opened Linking
  import opened Encodings
  import opened Links
  import opened Correctness

  /** The number of parameters of every function, and whether it has a result. */
  type Signatures = map<Name, (nat, bool)>

  function SignaturesOf(syms: Symbols): Signatures {
    map f | f in syms && syms[f].FnSymbol? :: (|syms[f].params|, syms[f].ret.Some?)
  }

  // ----- what type checking ensures: variables exist, calls have the right number of arguments, values are there -----

  predicate Typed(sig: Signatures, e: Expr, n: nat)
    decreases e
  {
    match e
    case Var(x) => 1 <= x <= n
    case Field(a, _) => Typed(sig, a, n)
    case FieldAddr(a, _) => Typed(sig, a, n)
    case Bin(_, l, r) => Typed(sig, l, n) && Typed(sig, r, n)
    case Apply(f, args) => f in sig && sig[f].1 && sig[f].0 == Length(args) && ArgsTyped(sig, args, n)
    case _ => true
  }

  predicate ArgsTyped(sig: Signatures, es: List<Expr>, n: nat)
    decreases es
  {
    es.Cons? ==> Typed(sig, es.head, n) && ArgsTyped(sig, es.tail, n)
  }

  /** A call whose result, if any, is not used. */
  predicate CallTyped(sig: Signatures, e: Expr, n: nat) {
    e.Apply? && e.f in sig && sig[e.f].0 == Length(e.args) && ArgsTyped(sig, e.args, n)
  }

  predicate AndTyped(sig: Signatures, cs: List<Comparison>, n: nat) {
    cs.Cons? ==> Typed(sig, cs.head.l, n) && Typed(sig, cs.head.r, n) && AndTyped(sig, cs.tail, n)
  }

  predicate OrTyped(sig: Signatures, ands: BoolExpr, n: nat) {
    ands.Cons? ==> AndTyped(sig, ands.head, n) && OrTyped(sig, ands.tail, n)
  }

  predicate StmtTyped(sig: Signatures, s: Stmt, n: nat)
    decreases s
  {
    match s
    case SetVar(x, e) => x <= n && Typed(sig, e, n)
    case SetField(a, _, e) => Typed(sig, a, n) && Typed(sig, e, n)
    case Eval(e) => Typed(sig, e, n) || CallTyped(sig, e, n)
    case If(c, thn) => OrTyped(sig, c, n) && BlockTyped(sig, thn, n)
    case IfElse(c, thn, els) => OrTyped(sig, c, n) && BlockTyped(sig, thn, n) && BlockTyped(sig, els, n)
    case While(c, body) => OrTyped(sig, c, n) && BlockTyped(sig, body, n)
    case Loop(body) => BlockTyped(sig, body, n)
    case ReturnValue(e) => Typed(sig, e, n)
    case _ => true
  }

  predicate BlockTyped(sig: Signatures, ss: List<Stmt>, n: nat)
    decreases ss
  {
    ss.Cons? ==> StmtTyped(sig, ss.head, n) && BlockTyped(sig, ss.tail, n)
  }

  predicate ItemsTyped(sig: Signatures, items: List<Item>, n: nat) {
    items.Cons? ==>
      if items.head.Let? then Typed(sig, items.head.e, n) && ItemsTyped(sig, items.tail, n + 1)
      else StmtTyped(sig, items.head.s, n) && ItemsTyped(sig, items.tail, n)
  }

  // ----- what it does not: no &x, no calls out of `fs`, and no assignment to a variable through a cast -----

  predicate Clean(fs: set<Name>, e: Expr)
    decreases e
  {
    match e
    case VarAddr(_) => false
    case Field(a, _) => Clean(fs, a)
    case FieldAddr(a, _) => Clean(fs, a)
    case Bin(_, l, r) => Clean(fs, l) && Clean(fs, r)
    case Apply(f, args) => f in fs && ArgsClean(fs, args)
    case _ => true
  }

  predicate ArgsClean(fs: set<Name>, es: List<Expr>)
    decreases es
  {
    es.Cons? ==> Clean(fs, es.head) && ArgsClean(fs, es.tail)
  }

  predicate AndClean(fs: set<Name>, cs: List<Comparison>) {
    cs.Cons? ==> Clean(fs, cs.head.l) && Clean(fs, cs.head.r) && AndClean(fs, cs.tail)
  }

  predicate OrClean(fs: set<Name>, ands: BoolExpr) { ands.Cons? ==> AndClean(fs, ands.head) && OrClean(fs, ands.tail) }

  predicate StmtClean(fs: set<Name>, s: Stmt)
    decreases s
  {
    match s
    case SetVar(x, e) => x != 0 && Clean(fs, e)
    case SetField(a, _, e) => Clean(fs, a) && Clean(fs, e)
    case Eval(e) => Clean(fs, e)
    case If(c, thn) => OrClean(fs, c) && BlockClean(fs, thn)
    case IfElse(c, thn, els) => OrClean(fs, c) && BlockClean(fs, thn) && BlockClean(fs, els)
    case While(c, body) => OrClean(fs, c) && BlockClean(fs, body)
    case Loop(body) => BlockClean(fs, body)
    case ReturnValue(e) => Clean(fs, e)
    case _ => true
  }

  predicate BlockClean(fs: set<Name>, ss: List<Stmt>)
    decreases ss
  {
    ss.Cons? ==> StmtClean(fs, ss.head) && BlockClean(fs, ss.tail)
  }

  predicate ItemsClean(fs: set<Name>, items: List<Item>) {
    items.Cons? ==>
      (if items.head.Let? then Clean(fs, items.head.e) else StmtClean(fs, items.head.s)) && ItemsClean(fs, items.tail)
  }

  // ----- then evaluation is never wrong -----

  /** What type checking ensures of a function. */
  predicate FnTyped(sig: Signatures, f: Name, fn: Fn) {
    f in sig && sig[f].0 == fn.arity && ItemsTyped(sig, fn.body, fn.arity)
    && (sig[f].1 ==> !ItemsReachable(fn.body) && ItemsReturn(fn.body))
  }

  /** Every function of the set is typed and clean, and has no break out of its loops. */
  ghost predicate Sound(P: Program, sig: Signatures, fs: set<Name>) {
    forall f :: f in fs ==>
      f in P.fns && FnTyped(sig, f, P.fns[f]) && ItemsClean(fs, P.fns[f].body) && ItemsFit(P.fns[f].body)
  }

  lemma {:induction false} ExprNotWrong(P: Program, sig: Signatures, fs: set<Name>, e: Expr, vars: seq<u64>, m: Mem,
                                        fuel: nat)
    requires Sound(P, sig, fs) && Typed(sig, e, |vars|) && Clean(fs, e)
    ensures !EvalExpr(P, e, vars, m, fuel).Wrong?
    decreases fuel, 1, e
  {
    hide Sound, EvalBin, EvalArgs, EvalCall, ArgsTyped, ArgsClean, FieldAddress, Load64;
    match e
    case Field(a, _) => ExprNotWrong(P, sig, fs, a, vars, m, fuel);
    case FieldAddr(a, _) => ExprNotWrong(P, sig, fs, a, vars, m, fuel);
    case Bin(_, l, r) =>
      ExprNotWrong(P, sig, fs, l, vars, m, fuel);
      var o := EvalExpr(P, l, vars, m, fuel);
      if o.Done? { ExprNotWrong(P, sig, fs, r, vars, o.value.1, fuel); }
    case Apply(f, args) =>
      ArgsNotWrong(P, sig, fs, args, vars, m, fuel);
      var o := EvalArgs(P, args, vars, m, fuel);
      if o.Done? { CallNotWrong(P, sig, fs, f, o.value.0, o.value.1, fuel); }
    case _ =>
  }

  lemma {:induction false} ArgsNotWrong(P: Program, sig: Signatures, fs: set<Name>, es: List<Expr>, vars: seq<u64>,
                                        m: Mem, fuel: nat)
    requires Sound(P, sig, fs) && ArgsTyped(sig, es, |vars|) && ArgsClean(fs, es)
    ensures var o := EvalArgs(P, es, vars, m, fuel); !o.Wrong? && (o.Done? ==> |o.value.0| == Length(es))
    decreases fuel, 1, es
  {
    hide Sound, EvalExpr, Typed, Clean;
    if es.Cons? {
      ExprNotWrong(P, sig, fs, es.head, vars, m, fuel);
      var o := EvalExpr(P, es.head, vars, m, fuel);
      if o.Done? { ArgsNotWrong(P, sig, fs, es.tail, vars, o.value.1, fuel); }
    }
  }

  lemma CallNotWrong(P: Program, sig: Signatures, fs: set<Name>, f: Name, vs: seq<u64>, m: Mem, fuel: nat)
    requires Sound(P, sig, fs) && f in fs && f in sig && |vs| == sig[f].0
    ensures var o := EvalCall(P, f, vs, m, fuel); !o.Wrong? && (o.Done? && sig[f].1 ==> o.value.0.Some?)
    decreases fuel, 0
  {
    hide Sound, EvalItems, ItemsTyped, ItemsClean, ItemsFit, ItemsReachable, ItemsReturn;
    if fuel > 0 {
      SoundFn(P, sig, fs, f);
      var body := P.fns[f].body;
      ItemsNotWrong(P, sig, fs, body, Reverse(vs), m, fuel - 1);
      if sig[f].1 {
        NoNormalItemsEnd(P, body, Reverse(vs), m, fuel - 1);
        ItemsReturnValue(P, body, Reverse(vs), m, fuel - 1);
      }
    }
  }

  lemma SoundFn(P: Program, sig: Signatures, fs: set<Name>, f: Name)
    requires Sound(P, sig, fs) && f in fs
    ensures f in P.fns && FnTyped(sig, f, P.fns[f]) && ItemsClean(fs, P.fns[f].body) && ItemsFit(P.fns[f].body)
  {
    hide FnTyped, ItemsClean, ItemsFit;
  }

  lemma {:induction false} AndNotWrong(P: Program, sig: Signatures, fs: set<Name>, cs: List<Comparison>,
                                       vars: seq<u64>, m: Mem, fuel: nat)
    requires Sound(P, sig, fs) && AndTyped(sig, cs, |vars|) && AndClean(fs, cs)
    ensures !EvalAnd(P, cs, vars, m, fuel).Wrong?
    decreases fuel, 3, cs
  {
    hide Sound, EvalExpr, Typed, Clean;
    if cs.Cons? {
      ExprNotWrong(P, sig, fs, cs.head.l, vars, m, fuel);
      var o := EvalExpr(P, cs.head.l, vars, m, fuel);
      if o.Done? { ExprNotWrong(P, sig, fs, cs.head.r, vars, o.value.1, fuel); }
      var oc := EvalComparison(P, cs.head, vars, m, fuel);
      if oc.Done? && oc.value.0 { AndNotWrong(P, sig, fs, cs.tail, vars, oc.value.1, fuel); }
    }
  }

  lemma {:induction false} OrNotWrong(P: Program, sig: Signatures, fs: set<Name>, ands: BoolExpr, vars: seq<u64>,
                                      m: Mem, fuel: nat)
    requires Sound(P, sig, fs) && OrTyped(sig, ands, |vars|) && OrClean(fs, ands)
    ensures !EvalOr(P, ands, vars, m, fuel).Wrong?
    decreases fuel, 4, ands
  {
    hide Sound, EvalAnd, AndTyped, AndClean;
    if ands.Cons? {
      AndNotWrong(P, sig, fs, ands.head, vars, m, fuel);
      var o := EvalAnd(P, ands.head, vars, m, fuel);
      if o.Done? && !o.value.0 { OrNotWrong(P, sig, fs, ands.tail, vars, o.value.1, fuel); }
    }
  }

  /** The number of variables stays, too. */
  ghost predicate FlowOk(o: Outcome<Flow>, n: nat) { !o.Wrong? && (o.Done? && !o.value.Returned? ==>
                         |o.value.vars| == n) }

  lemma {:induction false} StmtNotWrong(P: Program, sig: Signatures, fs: set<Name>, s: Stmt, vars: seq<u64>, m: Mem,
                                        fuel: nat)
    requires Sound(P, sig, fs) && StmtTyped(sig, s, |vars|) && StmtClean(fs, s)
    ensures FlowOk(EvalStmt(P, s, vars, m, fuel), |vars|)
    decreases fuel, 5, s
  {
    hide Sound, EvalExpr, EvalOr, EvalBlock, Typed, OrTyped, BlockTyped, Clean, OrClean, BlockClean, Store64,
      FieldAddress, CallTyped;
    match s
    case SetVar(_, e) => ExprNotWrong(P, sig, fs, e, vars, m, fuel);
    case SetField(a, _, e) =>
      ExprNotWrong(P, sig, fs, a, vars, m, fuel);
      var o := EvalExpr(P, a, vars, m, fuel);
      if o.Done? { ExprNotWrong(P, sig, fs, e, vars, o.value.1, fuel); }
    case Eval(e) => EvalNotWrong(P, sig, fs, e, vars, m, fuel);
    case If(c, thn) =>
      OrNotWrong(P, sig, fs, c, vars, m, fuel);
      var o := EvalOr(P, c, vars, m, fuel);
      if o.Done? && o.value.0 { BlockNotWrong(P, sig, fs, thn, vars, o.value.1, fuel); }
    case IfElse(c, thn, els) =>
      OrNotWrong(P, sig, fs, c, vars, m, fuel);
      var o := EvalOr(P, c, vars, m, fuel);
      if o.Done? {
        if o.value.0 { BlockNotWrong(P, sig, fs, thn, vars, o.value.1, fuel); }
          else { BlockNotWrong(P, sig, fs, els, vars, o.value.1, fuel); }
      }
    case While(c, body) =>
      if fuel > 0 {
        OrNotWrong(P, sig, fs, c, vars, m, fuel);
        var o := EvalOr(P, c, vars, m, fuel);
        if o.Done? && o.value.0 { LoopNotWrong(P, sig, fs, s, body, vars, o.value.1, fuel); }
      }
    case Loop(body) => if fuel > 0 { LoopNotWrong(P, sig, fs, s, body, vars, m, fuel); }
    case ReturnValue(e) => ExprNotWrong(P, sig, fs, e, vars, m, fuel);
    case _ =>
  }

  /** The body of a loop, and its next rounds. */
  lemma LoopNotWrong(P: Program, sig: Signatures, fs: set<Name>, s: Stmt, body: List<Stmt>, vars: seq<u64>, m: Mem,
                     fuel: nat)
    requires Sound(P, sig, fs) && StmtTyped(sig, s, |vars|) && StmtClean(fs, s) && fuel > 0
    requires (s.While? || s.Loop?) && s.body == body
    ensures var o := EvalBlock(P, body, vars, m, fuel);
      FlowOk(o, |vars|) && (o.Done? && o.value.Normal? ==>
        FlowOk(EvalStmt(P, s, o.value.vars, o.value.mem, fuel - 1), |vars|))
    decreases fuel, 5, s, 0
  {
    hide Sound, EvalOr, EvalBlock, EvalStmt, OrTyped, BlockTyped, OrClean, BlockClean;
    BlockNotWrong(P, sig, fs, body, vars, m, fuel);
    var o := EvalBlock(P, body, vars, m, fuel);
    if o.Done? && o.value.Normal? { StmtNotWrong(P, sig, fs, s, o.value.vars, o.value.mem, fuel - 1); }
  }

  lemma EvalNotWrong(P: Program, sig: Signatures, fs: set<Name>, e: Expr, vars: seq<u64>, m: Mem, fuel: nat)
    requires Sound(P, sig, fs) && (Typed(sig, e, |vars|) || CallTyped(sig, e, |vars|)) && Clean(fs, e)
    ensures FlowOk(EvalStmt(P, Eval(e), vars, m, fuel), |vars|)
    decreases fuel, 2, e
  {
    hide Sound, EvalExpr, EvalArgs, EvalCall, ArgsTyped, ArgsClean;
    if e.Apply? {
      ArgsNotWrong(P, sig, fs, e.args, vars, m, fuel);
      var o := EvalArgs(P, e.args, vars, m, fuel);
      if o.Done? { CallNotWrong(P, sig, fs, e.f, o.value.0, o.value.1, fuel); }
    } else {
      ExprNotWrong(P, sig, fs, e, vars, m, fuel);
    }
  }

  lemma {:induction false} BlockNotWrong(P: Program, sig: Signatures, fs: set<Name>, ss: List<Stmt>, vars: seq<u64>,
                                         m: Mem, fuel: nat)
    requires Sound(P, sig, fs) && BlockTyped(sig, ss, |vars|) && BlockClean(fs, ss)
    ensures FlowOk(EvalBlock(P, ss, vars, m, fuel), |vars|)
    decreases fuel, 5, ss
  {
    hide Sound, EvalStmt, StmtTyped, StmtClean;
    if ss.Cons? {
      StmtNotWrong(P, sig, fs, ss.head, vars, m, fuel);
      var o := EvalStmt(P, ss.head, vars, m, fuel);
      if o.Done? && o.value.Normal? { BlockNotWrong(P, sig, fs, ss.tail, o.value.vars, o.value.mem, fuel); }
    }
  }

  lemma {:induction false} ItemsNotWrong(P: Program, sig: Signatures, fs: set<Name>, items: List<Item>,
                                         vars: seq<u64>, m: Mem, fuel: nat)
    requires Sound(P, sig, fs) && ItemsTyped(sig, items, |vars|) && ItemsClean(fs, items) && ItemsFit(items)
    ensures var o := EvalItems(P, items, vars, m, fuel); !o.Wrong? && (o.Done? ==> !o.value.Broke?)
    decreases fuel, 6, items
  {
    hide Sound, EvalStmt, EvalExpr, Typed, StmtTyped, Clean, StmtClean, StmtFits, Fits, StmtBreaks;
    if items.Cons? {
      match items.head
      case Let(e) =>
        ExprNotWrong(P, sig, fs, e, vars, m, fuel);
        var o := EvalExpr(P, e, vars, m, fuel);
        if o.Done? { ItemsNotWrong(P, sig, fs, items.tail, vars + [o.value.0], o.value.1, fuel); }
      case Do(s) =>
        StmtNotWrong(P, sig, fs, s, vars, m, fuel);
        NoBreakOut(P, s, vars, m, fuel);
        var o := EvalStmt(P, s, vars, m, fuel);
        if o.Done? && o.value.Normal? { ItemsNotWrong(P, sig, fs, items.tail, o.value.vars, o.value.mem, fuel); }
    }
  }

  /** A call of a function of the set, with the right number of arguments. */
  lemma FnNotWrong(P: Program, sig: Signatures, fs: set<Name>, f: Name, vs: seq<u64>, m: Mem, fuel: nat)
    requires Sound(P, sig, fs) && f in fs && f in P.fns && |vs| == P.fns[f].arity
    ensures !EvalFn(P, P.fns[f], vs, m, fuel).Wrong?
  {
    hide Sound, EvalItems, ItemsTyped, ItemsClean, ItemsFit, ItemsReachable, ItemsReturn;
    SoundFn(P, sig, fs, f);
    ItemsNotWrong(P, sig, fs, P.fns[f].body, Reverse(vs), m, fuel);
  }

  // ----- elaboration makes typed code -----

  /** A value, or a call without a result. */
  predicate ElabTyped(sig: Signatures, el: Elaborated, n: nat) {
    if el.value.origin == FromVoid then CallTyped(sig, el.core, n) else Typed(sig, el.core, n)
  }

  lemma {:induction false} TreeTyped(syms: Symbols, e: Tree, n: nat)
    requires VarsWithin(syms, n) && Elab(syms, e).Some?
    ensures ElabTyped(SignaturesOf(syms), Elab(syms, e).value, n)
    decreases e
  {
    hide BinType, ElabType, FieldOf, VarsWithin, SignaturesOf, ElabArgs, AllHaveTypes, ArgsTyped;
    var sig := SignaturesOf(syms);
    match e
    case TCall(f, args) =>
      ArgTreesTyped(syms, args, n);
      SignatureIs(syms, f);
      NoVoids(ElabArgs(syms, args).value.1, syms[f].params);
    case TParen(a) => TreeTyped(syms, a, n);
    case TPath(a, _) => TreeTyped(syms, a, n);
    case TDeref(a) => TreeTyped(syms, a, n);
    case TRef(a) =>
      TreeTyped(syms, a, n);
      RefTyped(sig, Elab(syms, a).value, n);
    case TCast(a, _) => TreeTyped(syms, a, n);
    case TBin(_, l, r) =>
      TreeTyped(syms, l, n);
      TreeTyped(syms, r, n);
    case TName(x) => NameTyped(syms, x, n);
    case _ =>
  }

  lemma SignatureIs(syms: Symbols, f: Name)
    ensures f in SignaturesOf(syms) <==> f in syms && syms[f].FnSymbol?
    ensures f in SignaturesOf(syms) ==> SignaturesOf(syms)[f] == (|syms[f].params|, syms[f].ret.Some?)
  {
  }

  lemma NoVoids(vs: seq<Value>, tys: seq<Type>)
    requires AllHaveTypes(vs, tys)
    ensures |vs| == |tys| && forall i :: 0 <= i < |vs| ==> vs[i].origin != FromVoid
  {
  }

  lemma RefTyped(sig: Signatures, el: Elaborated, n: nat)
    requires ElabTyped(sig, el, n)
    ensures ElabRef(el).Some? ==> ElabTyped(sig, ElabRef(el).value, n)
  {
  }

  lemma NameTyped(syms: Symbols, x: Name, n: nat)
    requires VarsWithin(syms, n)
    ensures ElabName(syms, x).Some? ==> ElabTyped(SignaturesOf(syms), ElabName(syms, x).value, n)
  {
    hide SignaturesOf;
  }

  lemma {:induction false} ArgTreesTyped(syms: Symbols, es: List<Tree>, n: nat)
    requires VarsWithin(syms, n) && ElabArgs(syms, es).Some?
    ensures var (cores, vs) := ElabArgs(syms, es).value;
      Length(cores) == |vs|
      && ((forall i :: 0 <= i < |vs| ==> vs[i].origin != FromVoid) ==> ArgsTyped(SignaturesOf(syms), cores, n))
    decreases es
  {
    hide Elab, VarsWithin, SignaturesOf, Typed, CallTyped;
    if es.Cons? {
      TreeTyped(syms, es.head, n);
      ArgTreesTyped(syms, es.tail, n);
      var (cores, vs) := ElabArgs(syms, es).value;
      var (_, more) := ElabArgs(syms, es.tail).value;
      assert vs[0] == Elab(syms, es.head).value.value && vs[1..] == more;
      assert forall i :: 0 <= i < |more| ==> more[i] == vs[i + 1];
    }
  }

  lemma {:induction false} AndTreesTyped(syms: Symbols, cs: List<CompTree>, n: nat)
    requires VarsWithin(syms, n) && ElabAnd(syms, cs).Some?
    ensures AndTyped(SignaturesOf(syms), ElabAnd(syms, cs).value, n)
    decreases cs
  {
    hide Elab, VarsWithin, SignaturesOf, Typed, CallTyped, Comparable;
    if cs.Cons? {
      TreeTyped(syms, cs.head.l, n);
      TreeTyped(syms, cs.head.r, n);
      AndTreesTyped(syms, cs.tail, n);
    }
  }

  lemma {:induction false} BoolTyped(syms: Symbols, ands: BoolTree, n: nat)
    requires VarsWithin(syms, n) && ElabBool(syms, ands).Some?
    ensures OrTyped(SignaturesOf(syms), ElabBool(syms, ands).value, n)
    decreases ands
  {
    hide ElabAnd, VarsWithin, SignaturesOf, AndTyped;
    if ands.Cons? {
      AndTreesTyped(syms, ands.head, n);
      BoolTyped(syms, ands.tail, n);
    }
  }

  lemma {:induction false} StmtTreeTyped(syms: Symbols, ret: Option<Type>, s: StmtTree, n: nat)
    requires VarsWithin(syms, n) && ElabStmt(syms, ret, s).Some?
    ensures StmtTyped(SignaturesOf(syms), ElabStmt(syms, ret, s).value, n)
    decreases s
  {
    hide Elab, ElabBool, VarsWithin, SignaturesOf, Typed, CallTyped, OrTyped, HasType, ElabStmts, BlockTyped,
      ElabAssign;
    match s
    case TAssign(l, r) =>
      TreeTyped(syms, l, n);
      TreeTyped(syms, r, n);
      AssignTyped(syms, l, r, n);
    case TEval(e) => TreeTyped(syms, e, n);
    case TIf(c, thn) =>
      BoolTyped(syms, c, n);
      BlockTreesTyped(syms, ret, thn, n);
    case TIfElse(c, thn, els) =>
      BoolTyped(syms, c, n);
      BlockTreesTyped(syms, ret, thn, n);
      BlockTreesTyped(syms, ret, els, n);
    case TElseIf(c, thn, els) =>
      BoolTyped(syms, c, n);
      BlockTreesTyped(syms, ret, thn, n);
      StmtTreeTyped(syms, ret, els, n);
      OneTyped(SignaturesOf(syms), ElabStmt(syms, ret, els).value, n);
    case TWhile(c, body) =>
      BoolTyped(syms, c, n);
      BlockTreesTyped(syms, ret, body, n);
    case TLoop(body) => BlockTreesTyped(syms, ret, body, n);
    case TReturnValue(e) => TreeTyped(syms, e, n);
    case _ =>
  }

  lemma OneTyped(sig: Signatures, s: Stmt, n: nat)
    requires StmtTyped(sig, s, n)
    ensures BlockTyped(sig, List.Cons(s, List.Nil), n)
  {
    hide StmtTyped;
    assert BlockTyped(sig, List.Nil, n);
  }

  lemma AssignTyped(syms: Symbols, l: Tree, r: Tree, n: nat)
    requires VarsWithin(syms, n) && Elab(syms, l).Some? && Elab(syms, r).Some?
    requires ElabTyped(SignaturesOf(syms), Elab(syms, l).value, n)
      && ElabTyped(SignaturesOf(syms), Elab(syms, r).value, n)
    ensures var s := ElabAssign(Elab(syms, l).value, Elab(syms, r).value);
      s.Some? ==> StmtTyped(SignaturesOf(syms), s.value, n)
  {
    hide Elab, VarsWithin, SignaturesOf, Comparable;
    SlotWithin(syms, l, n);
  }

  /** The slot that a variable remembers is its own, or 0. */
  lemma {:induction false} SlotWithin(syms: Symbols, e: Tree, n: nat)
    requires VarsWithin(syms, n) && Elab(syms, e).Some?
    ensures Elab(syms, e).value.value.origin == FromVariable ==> Elab(syms, e).value.value.slot <= n
    decreases e
  {
    hide BinType, ElabType, FieldOf, ElabArgs;
    match e
    case TParen(a) => SlotWithin(syms, a, n);
    case TRef(a) => RefOrigin(Elab(syms, a).value);
    case _ =>
  }

  lemma RefOrigin(el: Elaborated)
    ensures ElabRef(el).Some? ==> ElabRef(el).value.value.origin == FromOther
  {
  }

  lemma {:induction false} BlockTreesTyped(syms: Symbols, ret: Option<Type>, ss: List<StmtTree>, n: nat)
    requires VarsWithin(syms, n) && ElabStmts(syms, ret, ss).Some?
    ensures BlockTyped(SignaturesOf(syms), ElabStmts(syms, ret, ss).value, n)
    decreases ss
  {
    hide ElabStmt, StmtTyped, VarsWithin, SignaturesOf;
    if ss.Cons? {
      StmtTreeTyped(syms, ret, ss.head, n);
      BlockTreesTyped(syms, ret, ss.tail, n);
    }
  }

  lemma {:induction false} ItemTreesTyped(syms: Symbols, ret: Option<Type>, n: nat, items: List<ItemTree>)
    requires VarsWithin(syms, n) && ElabItems(syms, ret, n + 1, items).Some?
    ensures ItemsTyped(SignaturesOf(syms), ElabItems(syms, ret, n + 1, items).value.2, n)
    decreases items
  {
    hide ElabItem, VarsWithin, SignaturesOf, StmtTyped, Typed;
    if items.Cons? {
      var item, s := items.head, ElabItem(syms, ret, n + 1, items.head).value;
      var k := n + (if item.TLet? then 1 else 0);
      ItemTyped(syms, ret, n, item);
      ItemTreesTyped(s.0, ret, k, items.tail);
      JoinTyped(SignaturesOf(syms), s.1, ElabItems(s.0, ret, k + 1, items.tail).value.2, n, k);
    }
  }

  lemma ItemTyped(syms: Symbols, ret: Option<Type>, n: nat, item: ItemTree)
    requires VarsWithin(syms, n) && ElabItem(syms, ret, n + 1, item).Some?
    ensures var (syms1, code) := ElabItem(syms, ret, n + 1, item).value; var k := n + (if item.TLet? then 1 else 0);
      VarsWithin(syms1, k) && SignaturesOf(syms1) == SignaturesOf(syms) && OneItemTyped(SignaturesOf(syms), code, n, k)
  {
    hide Elab, ElabStmt, LetType, ElabType, SignaturesOf, StmtTyped, Typed, CallTyped;
    var (syms1, code) := ElabItem(syms, ret, n + 1, item).value;
    match item
    case TConst(x, _, _) => SameSignatures(syms, x, syms1[x]);
    case TLet(x, t, e) =>
      TreeTyped(syms, e, n);
      LetNotVoid(syms, t, Elab(syms, e).value.value);
      SameSignatures(syms, x, syms1[x]);
    case TDo(s) => StmtTreeTyped(syms, ret, s, n);
  }

  /** No item, or one that takes n variables to k. */
  predicate OneItemTyped(sig: Signatures, items: List<Item>, n: nat, k: nat) {
    if items.Nil? then k == n
    else if items.tail.Cons? then false
    else if items.head.Let? then k == n + 1 && Typed(sig, items.head.e, n)
    else k == n && StmtTyped(sig, items.head.s, n)
  }

  lemma LetNotVoid(syms: Symbols, t: Option<TypeTree>, v: Value)
    ensures LetType(syms, t, v).Some? ==> v.origin != FromVoid
  {
  }

  lemma SameSignatures(syms: Symbols, x: Name, sym: Symbol)
    requires x !in syms && !sym.FnSymbol?
    ensures SignaturesOf(syms[x := sym]) == SignaturesOf(syms)
  {
  }

  lemma JoinTyped(sig: Signatures, l: List<Item>, m: List<Item>, n: nat, k: nat)
    requires OneItemTyped(sig, l, n, k) && ItemsTyped(sig, m, k)
    ensures ItemsTyped(sig, Join(l, m), n)
  {
    hide Typed, StmtTyped;
    if l.Cons? { assert Join(l, m) == List.Cons(l.head, m); }
  }

  // ----- units -----

  /** Symbols of functions keep their types. */
  ghost predicate TypesKept(syms: Symbols, syms1: Symbols) {
    forall f :: f in SignaturesOf(syms) ==> f in SignaturesOf(syms1) && SignaturesOf(syms1)[f] == SignaturesOf(syms)[f]
  }

  /** All functions of a unit are typed. */
  ghost predicate UnitTyped(u: CompUnit) {
    NoVars(u.syms) && forall f :: f in u.fns ==> FnTyped(SignaturesOf(u.syms), f, u.fns[f])
  }

  lemma {:induction false} ExprTypedMore(sig: Signatures, sig1: Signatures, e: Expr, n: nat)
    requires Typed(sig, e, n) && forall f :: f in sig ==> f in sig1 && sig1[f] == sig[f]
    ensures Typed(sig1, e, n)
    decreases e
  {
    match e
    case Field(a, _) => ExprTypedMore(sig, sig1, a, n);
    case FieldAddr(a, _) => ExprTypedMore(sig, sig1, a, n);
    case Bin(_, l, r) =>
      ExprTypedMore(sig, sig1, l, n);
      ExprTypedMore(sig, sig1, r, n);
    case Apply(_, args) => ArgsTypedMore(sig, sig1, args, n);
    case _ =>
  }

  lemma {:induction false} ArgsTypedMore(sig: Signatures, sig1: Signatures, es: List<Expr>, n: nat)
    requires ArgsTyped(sig, es, n) && forall f :: f in sig ==> f in sig1 && sig1[f] == sig[f]
    ensures ArgsTyped(sig1, es, n)
    decreases es
  {
    hide Typed;
    if es.Cons? {
      ExprTypedMore(sig, sig1, es.head, n);
      ArgsTypedMore(sig, sig1, es.tail, n);
    }
  }

  lemma {:induction false} AndTypedMore(sig: Signatures, sig1: Signatures, cs: List<Comparison>, n: nat)
    requires AndTyped(sig, cs, n) && forall f :: f in sig ==> f in sig1 && sig1[f] == sig[f]
    ensures AndTyped(sig1, cs, n)
    decreases cs
  {
    hide Typed;
    if cs.Cons? {
      ExprTypedMore(sig, sig1, cs.head.l, n);
      ExprTypedMore(sig, sig1, cs.head.r, n);
      AndTypedMore(sig, sig1, cs.tail, n);
    }
  }

  lemma {:induction false} OrTypedMore(sig: Signatures, sig1: Signatures, ands: BoolExpr, n: nat)
    requires OrTyped(sig, ands, n) && forall f :: f in sig ==> f in sig1 && sig1[f] == sig[f]
    ensures OrTyped(sig1, ands, n)
    decreases ands
  {
    hide AndTyped;
    if ands.Cons? {
      AndTypedMore(sig, sig1, ands.head, n);
      OrTypedMore(sig, sig1, ands.tail, n);
    }
  }

  lemma {:induction false} StmtTypedMore(sig: Signatures, sig1: Signatures, s: Stmt, n: nat)
    requires StmtTyped(sig, s, n) && forall f :: f in sig ==> f in sig1 && sig1[f] == sig[f]
    ensures StmtTyped(sig1, s, n)
    decreases s
  {
    hide Typed, OrTyped, BlockTyped, ArgsTyped;
    match s
    case SetVar(_, e) => ExprTypedMore(sig, sig1, e, n);
    case SetField(a, _, e) =>
      ExprTypedMore(sig, sig1, a, n);
      ExprTypedMore(sig, sig1, e, n);
    case Eval(e) => if Typed(sig, e, n) { ExprTypedMore(sig, sig1, e, n); }
      else { ArgsTypedMore(sig, sig1, e.args, n); }
    case If(c, thn) =>
      OrTypedMore(sig, sig1, c, n);
      BlockTypedMore(sig, sig1, thn, n);
    case IfElse(c, thn, els) =>
      OrTypedMore(sig, sig1, c, n);
      BlockTypedMore(sig, sig1, thn, n);
      BlockTypedMore(sig, sig1, els, n);
    case While(c, body) =>
      OrTypedMore(sig, sig1, c, n);
      BlockTypedMore(sig, sig1, body, n);
    case Loop(body) => BlockTypedMore(sig, sig1, body, n);
    case ReturnValue(e) => ExprTypedMore(sig, sig1, e, n);
    case _ =>
  }

  lemma {:induction false} BlockTypedMore(sig: Signatures, sig1: Signatures, ss: List<Stmt>, n: nat)
    requires BlockTyped(sig, ss, n) && forall f :: f in sig ==> f in sig1 && sig1[f] == sig[f]
    ensures BlockTyped(sig1, ss, n)
    decreases ss
  {
    hide StmtTyped;
    if ss.Cons? {
      StmtTypedMore(sig, sig1, ss.head, n);
      BlockTypedMore(sig, sig1, ss.tail, n);
    }
  }

  lemma {:induction false} ItemsTypedMore(sig: Signatures, sig1: Signatures, items: List<Item>, n: nat)
    requires ItemsTyped(sig, items, n) && forall f :: f in sig ==> f in sig1 && sig1[f] == sig[f]
    ensures ItemsTyped(sig1, items, n)
    decreases items
  {
    hide Typed, StmtTyped;
    if items.Cons? {
      if items.head.Let? { ExprTypedMore(sig, sig1, items.head.e, n); }
        else { StmtTypedMore(sig, sig1, items.head.s, n); }
      ItemsTypedMore(sig, sig1, items.tail, n + (if items.head.Let? then 1 else 0));
    }
  }

  lemma {:induction false} ParamsWithin(syms: Symbols, ps: List<Param>, tys: seq<Type>, n: nat)
    requires VarsWithin(syms, n) && |tys| <= n
    ensures VarsWithin(ParamSymbols(syms, ps, tys), n)
    decreases ps
  {
    if ps.Cons? && tys != [] { ParamsWithin(syms, ps.tail, tys[1..], n); }
  }

  lemma {:induction false} ParamsSignatures(syms: Symbols, ps: List<Param>, tys: seq<Type>)
    requires forall x :: x in syms ==> !HasParam(ps, x)
    ensures SignaturesOf(ParamSymbols(syms, ps, tys)) == SignaturesOf(syms)
    decreases ps
  {
    if ps.Cons? && tys != [] { ParamsSignatures(syms, ps.tail, tys[1..]); }
  }

  /** A function with a body is typed when it is compiled. */
  lemma NewFnTyped(syms: Symbols, f: Name, at: nat, ps: List<Param>, tys: seq<Type>, ret: Option<Type>,
                   items: List<ItemTree>)
    requires NoVars(syms) && f in syms && syms[f] == FnSymbol(Some(at), tys, ret) && forall x ::
      x in syms ==> !HasParam(ps, x)
    requires var its := ElabItems(ParamSymbols(syms, ps, tys), ret, |tys| + 1, items);
      its.Some? && !(ret.Some? && ItemsReachable(its.value.2))
    ensures FnTyped(SignaturesOf(syms), f,
      Fn(|tys|, ElabItems(ParamSymbols(syms, ps, tys), ret, |tys| + 1, items).value.2))
  {
    hide ElabItems, ParamSymbols, HasParam, ItemsReachable, VarsWithin, SignaturesOf, ItemsTyped, ItemsReturn, NoVars;
    NoVarsWithin(syms, |tys|);
    ParamsWithin(syms, ps, tys, |tys|);
    ParamsSignatures(syms, ps, tys);
    SignatureIs(syms, f);
    ItemTreesTyped(ParamSymbols(syms, ps, tys), ret, |tys|, items);
    if ret.Some? { TypedItemsReturn(ParamSymbols(syms, ps, tys), ret.value, |tys| + 1, items); }
  }

  lemma FnTypedMore(syms: Symbols, syms1: Symbols, f: Name, fn: Fn)
    requires TypesKept(syms, syms1) && FnTyped(SignaturesOf(syms), f, fn)
    ensures FnTyped(SignaturesOf(syms1), f, fn)
  {
    hide SignaturesOf, ItemsTyped, ItemsReachable, ItemsReturn;
    ItemsTypedMore(SignaturesOf(syms), SignaturesOf(syms1), fn.body, fn.arity);
  }

  lemma DefinedKept(syms: Symbols, x: Name, sym: Symbol)
    requires x in syms ==> IsForward(syms[x]) && sym.FnSymbol? && sym.params == syms[x].params && sym.ret == syms[x].ret
    requires NoVars(syms) && !sym.VarSymbol?
    ensures TypesKept(syms, syms[x := sym]) && NoVars(syms[x := sym])
  {
    forall f | f in SignaturesOf(syms)
      ensures f in SignaturesOf(syms[x := sym]) && SignaturesOf(syms[x := sym])[f] == SignaturesOf(syms)[f]
    {
      SignatureIs(syms, f);
      SignatureIs(syms[x := sym], f);
    }
  }

  /** Each declaration keeps the unit typed. */
  lemma DeclTyped(u: CompUnit, at: nat, d: Decl)
    requires UnitTyped(u) && ElabDecl(u, at, d).Some?
    ensures UnitTyped(ElabDecl(u, at, d).value)
  {
    hide ElabItems, ElabParams, ElabRet, ElabType, ItemsReachable, Distinct, HasParam, ParamSymbols, NoVars,
      SignaturesOf, EnvOf, Relinked, FnTyped, FieldMap, Names, TypesKept;
    var v := ElabDecl(u, at, d).value;
    match d {
      case DConst(x, _, _) => DefinedKept(u.syms, x, v.syms[x]);
      case DStatic(x, _) => DefinedKept(u.syms, x, v.syms[x]);
      case DStruct(x, _) => DefinedKept(u.syms, x, v.syms[x]);
      case DFn(f, ps, r, body) =>
        DefinedKept(u.syms, f, v.syms[f]);
        if body.Items? { NewFnTyped(v.syms, f, at, ps, v.syms[f].params, v.syms[f].ret, body.items); }
    }
    forall g | g in v.fns ensures FnTyped(SignaturesOf(v.syms), g, v.fns[g]) {
      if !(d.DFn? && d.body.Items? && g == d.name) { FnTypedMore(u.syms, v.syms, g, v.fns[g]); }
    }
  }

  lemma {:induction false} DeclsTyped(u: CompUnit, at: nat, ds: List<Decl>)
    requires UnitTyped(u) && ElabDecls(u, at, ds).Some?
    ensures UnitTyped(ElabDecls(u, at, ds).value.0)
    decreases ds
  {
    hide UnitTyped, ElabDecl, DeclSize;
    if ds.Cons? {
      var v := ElabDecl(u, at, ds.head).value;
      DeclTyped(u, at, ds.head);
      DeclsTyped(v, at + DeclSize(v, ds.head), ds.tail);
    }
  }

  /** In a program that the compiler accepts, take a set of functions with bodies of statements that call only each
      other, take no address of a variable and assign to no variable through a cast: none of them ever goes wrong. */
  lemma AcceptedNotWrong(ds: List<Decl>, base: int, fs: set<Name>, f: Name, vs: seq<u64>, m: Mem, fuel: nat)
    requires ElabDecls(NO_UNIT, 0, ds).Some?
    requires var u := ElabDecls(NO_UNIT, 0, ds).value.0;
      (forall g :: g in fs ==> g in u.fns && FnFits(u.fns[g]) && ItemsClean(fs, u.fns[g].body)) && f in fs
      && |vs| == u.fns[f].arity
    ensures var u := ElabDecls(NO_UNIT, 0, ds).value.0;
      !EvalFn(Program(base, u.fns), u.fns[f], vs, m, fuel).Wrong?
  {
    hide ElabDecls, SignaturesOf, FnTyped, ItemsFit, ItemsClean, EvalFn, NoVars;
    var u := ElabDecls(NO_UNIT, 0, ds).value.0;
    EmptyTyped();
    DeclsTyped(NO_UNIT, 0, ds);
    FnNotWrong(Program(base, u.fns), SignaturesOf(u.syms), fs, f, vs, m, fuel);
  }

  lemma EmptyTyped()
    ensures UnitTyped(NO_UNIT)
  {
    hide FnTyped;
  }

  /** So a call of such a function in the object code of a program ends in one of three ways: it returns with what the
      source says, it stops at a fault of the source, or it runs for longer than any fuel that is given. */
  lemma CleanCallOk(bytes: seq<u8>, code: seq<Insn>, ds: List<Decl>, u: CompUnit, limit: nat, base: nat,
                    fs: set<Name>, f: Name, below: seq<u64>, ret: u64, vs: seq<u64>, s: State, fuel: nat)
      returns (k: nat, t: State)
    requires Object(bytes, code, ds, u, limit) && !CalledEarly(NO_UNIT, 0, ds) && AllFnsEncodable(u.fns)
      && base + limit < TWO64
    requires (forall g :: g in fs ==> g in u.fns && ItemsClean(fs, u.fns[g].body)) && f in fs && f in u.fns
      && |vs| == u.fns[f].arity
    requires f in u.syms && u.syms[f].FnSymbol? && Some(s.pc) == OffsetOf(u.syms[f])
    requires s.stack == below + [ret] && |vs| <= MAX_REGISTERS && forall i :: 0 <= i < |vs| ==> s.regs[8 + i] == vs[i]
    ensures var o := EvalFn(Program(base, u.fns), u.fns[f], vs, s.mem, fuel);
      ByteRun(base, bytes, s, k) == Some(t)
      && match o {
           case Done((v, m)) => t.pc == ret - base && t.stack == below && t.mem == m
             && (v.Some? ==> t.regs[8] == v.value)
           case Fault => ByteStep(base, bytes, t).None?
           case Timeout => k >= fuel
           case Wrong => false
         }
  {
    ObjectUnit(bytes, code, ds, u, limit);
    hide *;
    forall g | g in fs ensures FnFits(u.fns[g]) {
      CompiledFits(u, code, g);
    }
    AcceptedNotWrong(ds, base, fs, f, vs, s.mem, fuel);
    k, t := ProgramCallOk(bytes, code, ds, u, limit, base, f, below, ret, vs, s, fuel);
  }

  lemma ObjectUnit(bytes: seq<u8>, code: seq<Insn>, ds: List<Decl>, u: CompUnit, limit: nat)
    requires Object(bytes, code, ds, u, limit)
    ensures Compiled(u.syms, u.links, code, u.fns) && ElabDecls(NO_UNIT, 0, ds) == Some((u, |bytes|))
  {
    hide AllFinished, ElabDecls, Forwards, Compiled;
  }

  lemma CompiledFits(u: CompUnit, code: seq<Insn>, g: Name)
    requires Compiled(u.syms, u.links, code, u.fns) && g in u.fns
    ensures FnFits(u.fns[g])
  {
    hide FnFits, Segment, GenFn, AllFnsEncodable, AllEncodable;
    assert CompiledFn(u.syms, u.links, code, g, u.fns[g]);
  }
}
