/** What the compiler makes of a program means what the program means: names, slots and types are resolved rightly. */
module Elaboration {
  import opened Words
  import opened X86
  import opened Source
  import opened Syntax
  import opened Parsing
  import opened Preservation
  import opened Functions
  import opened Language

  // ----- symbols and declarations -----

  /** Fields have their place and type. */
  ghost predicate FieldsAgree(ps: List<Param>, fields: map<Name, FieldSymbol>, size: nat) {
    size == Count(ps) && forall x :: x in fields ==> FieldAgrees(ps, x, fields[x])
  }

  predicate FieldAgrees(ps: List<Param>, x: Name, s: FieldSymbol) {
    FieldIndex(ps, x) == Some(s.slot) && FieldType(ps, x) == s.ty
  }

  /** A symbol stands for what is declared, as a local name, with a type, or as a global one. */
  ghost predicate SymbolAgrees(L: Lang, base: int, types: Types, x: Name, s: Symbol) {
    var g := L.globals;
    match s
    case VarSymbol(i, ty) => x in types && types[x] == ty && i >= 1
    case ConstSymbol(v, ty) => if x in types then types[x] == ty else x in g.consts && g.consts[x] == Cell(v, ty)
    case StaticSymbol(o) =>
      x !in types && x !in g.consts && x !in g.fns && x in L.places && L.places[x] == Wrap(base + o)
    case FnSymbol(t, params, ret) =>
      x !in types && x !in g.consts && x in g.fns
      && (if ret.None? then g.fns[x].ret.None? else g.fns[x].ret.Some? && TypeIs(g.fns[x].ret.value) == ret.value)
      && (t.Some? ==> x in L.places && L.places[x] == Wrap(base + t.value))
    case StructSymbol(fields, size) => x in g.structs && FieldsAgree(g.structs[x], fields, size)
  }

  ghost predicate Agrees(L: Lang, base: int, types: Types, syms: Symbols) {
    forall x :: x in syms ==> SymbolAgrees(L, base, types, x, syms[x])
  }

  /** Different variables have different slots. */
  ghost predicate SlotsApart(syms: Symbols) {
    forall x, y :: x in syms && y in syms && x != y && syms[x].VarSymbol? && syms[y].VarSymbol? ==>
      syms[x].x != syms[y].x
  }

  predicate ValueHolds(x: Name, s: Symbol, vars: Vars, vs: seq<u64>) {
    match s
    case VarSymbol(i, _) => x in vars && 1 <= i <= |vs| && vars[x] == vs[i - 1]
    case ConstSymbol(v, _) => x in vars ==> vars[x] == v
    case _ => true
  }

  /** The variables by name have the values that they have by slot. */
  ghost predicate Holds(syms: Symbols, types: Types, vars: Vars, vs: seq<u64>) {
    vars.Keys == types.Keys && SlotsApart(syms) && forall x :: x in syms ==> ValueHolds(x, syms[x], vars, vs)
  }

  lemma SymbolIs(L: Lang, base: int, types: Types, syms: Symbols, x: Name)
    requires Agrees(L, base, types, syms) && x in syms
    ensures SymbolAgrees(L, base, types, x, syms[x])
  {
  }

  lemma ValueIs(syms: Symbols, types: Types, vars: Vars, vs: seq<u64>, x: Name)
    requires Holds(syms, types, vars, vs) && x in syms
    ensures ValueHolds(x, syms[x], vars, vs) && (x in vars <==> x in types)
  {
  }

  // ----- types -----

  lemma {:induction false} ReferencesAre(ands: List<bool>)
    ensures Dim(ands) == References(ands)
    decreases ands
  {
    if ands.Cons? { ReferencesAre(ands.tail); }
  }

  lemma TypeElaborated(syms: Symbols, t: TypeTree)
    ensures ElabType(syms, t).Some? ==> ElabType(syms, t).value == TypeIs(t)
  {
    ReferencesAre(t.ands);
  }

  /** The compiler gives every expression its type. */
  lemma {:induction false} TypeSame(L: Lang, base: int, types: Types, syms: Symbols, e: Tree)
    requires Agrees(L, base, types, syms) && Elab(syms, e).Some?
    ensures TypeOf(L, types, e) == Elab(syms, e).value.value.ty
    decreases e
  {
    hide Agrees, ElabType, TypeIs;
    match e
    case TName(x) => SymbolIs(L, base, types, syms, x);
    case TCall(f, _) => SymbolIs(L, base, types, syms, f);
    case TParen(a) => TypeSame(L, base, types, syms, a);
    case TPath(a, x) =>
      TypeSame(L, base, types, syms, a);
      FieldFound(L, base, types, syms, TypeOf(L, types, a), x);
    case TDeref(a) => TypeSame(L, base, types, syms, a);
    case TRef(a) => TypeSame(L, base, types, syms, a);
    case TCast(_, t) => TypeElaborated(syms, t);
    case TBin(_, l, r) =>
      TypeSame(L, base, types, syms, l);
      TypeSame(L, base, types, syms, r);
    case _ =>
  }

  /** A field is where it is declared. */
  lemma FieldFound(L: Lang, base: int, types: Types, syms: Symbols, ty: Type, x: Name)
    requires Agrees(L, base, types, syms) && FieldOf(syms, ty, x).Some?
    ensures var s := FieldOf(syms, ty, x).value;
      FieldIndex(FieldsOf(L, ty), x) == Some(s.slot) && FieldType(FieldsOf(L, ty), x) == s.ty
  {
    SymbolIs(L, base, types, syms, ty.base.value);
    var s := syms[ty.base.value];
    assert FieldAgrees(L.globals.structs[ty.base.value], x, s.fields[x]);
  }

  // ----- lvalues -----

  /** Parentheses and casts add no code. */
  lemma {:induction false} InnerCore(syms: Symbols, e: Tree)
    requires Elab(syms, e).Some?
    ensures Elab(syms, Inner(e)).Some? && Elab(syms, Inner(e)).value.core == Elab(syms, e).value.core
    ensures !Inner(e).TParen? && !Inner(e).TCast?
    decreases e
  {
    match e
    case TParen(a) => InnerCore(syms, a);
    case TCast(a, _) => InnerCore(syms, a);
    case _ =>
  }

  /** Values from memory are those of fields and dereferences, and values from variables those of names. */
  lemma {:induction false} Places(syms: Symbols, e: Tree)
    requires Elab(syms, e).Some?
    ensures var el := Elab(syms, e).value;
      && (el.value.origin == FromAddress ==> el.core.Field? && (Inner(e).TPath? || Inner(e).TDeref?))
      && (el.value.origin == FromVariable ==>
            Inner(e).TName? && Inner(e).name in syms && syms[Inner(e).name].VarSymbol?
            && el.core == Var(syms[Inner(e).name].x))
      && (!CastAround(e) ==>
            (el.value.origin == FromAddress ==> el.value.slot == el.core.field)
            && (el.value.origin == FromVariable ==> el.value.slot == el.core.x))
      && (CastAround(e) ==> el.value.slot == 0)
    decreases e
  {
    hide ElabType, BinType, FieldOf, AllHaveTypes;
    match e
    case TParen(a) => Places(syms, a);
    case TCast(a, _) => Places(syms, a);
    case TRef(a) => Places(syms, a);
    case _ =>
  }

  /** The field that an lvalue in memory is. */
  lemma PlaceField(L: Lang, base: int, types: Types, syms: Symbols, e: Tree)
    requires Agrees(L, base, types, syms) && Elab(syms, e).Some? && Elab(syms, e).value.value.origin == FromAddress
    requires StraightPlace(L, types, e)
    ensures Elab(syms, e).value.core.Field? && Elab(syms, e).value.value.slot == Elab(syms, e).value.core.field
  {
    hide Agrees;
    Places(syms, e);
    if CastAround(e) {
      InnerCore(syms, e);
      if Inner(e).TPath? {
        TypeSame(L, base, types, syms, Inner(e).e);
        FieldFound(L, base, types, syms, TypeOf(L, types, Inner(e).e), Inner(e).field);
      }
    }
  }

  // ----- functions -----

  function TypesOf(ps: List<Param>): seq<Type> { if ps.Nil? then [] else [TypeIs(ps.head.ty)] + TypesOf(ps.tail) }

  /** A function was compiled from its declaration, with symbols that stand for what is declared. */
  ghost predicate FnElaborated(L: Lang, base: int, def: Function, fn: Fn, syms: Symbols, ret: Option<Type>) {
    && def.body.Items? && Agrees(L, base, map[], syms) && NoVars(syms) && Distinct(def.params)
    && (forall x :: x in syms ==> !HasParam(def.params, x)) && fn.arity == Count(def.params)
    && var its := ElabItems(ParamSymbols(syms, def.params, TypesOf(def.params)), ret, fn.arity + 1, def.body.items);
      its.Some? && its.value.2 == fn.body
  }

  ghost predicate FnAgrees(L: Lang, base: int, def: Function, fn: Fn) {
    exists syms: Symbols, ret: Option<Type> :: FnElaborated(L, base, def, fn, syms, ret)
  }

  ghost predicate ProgramAgrees(L: Lang, P: Program) {
    forall f :: (f in P.fns <==> f in L.globals.fns && L.globals.fns[f].body.Items?)
      && (f in P.fns ==> FnAgrees(L, P.base, L.globals.fns[f], P.fns[f]))
  }

  /** A place in a program: what the names stand for there, before and after elaboration. */
  datatype Setting = Setting(L: Lang, P: Program, types: Types, syms: Symbols)

  ghost predicate Ready(c: Setting) {
    Agrees(c.L, c.P.base, c.types, c.syms) && ProgramAgrees(c.L, c.P) && StraightProgram(c.L)
  }

  // ----- expressions -----

  lemma OperatorSame(op: nat, x: u64, y: u64)
    ensures Operate(op, x, y) == EvalBin(OpOf(op), x, y)
  {
  }

  /** An expression means what its elaboration evaluates to, and an lvalue in memory is where the elaboration says. */
  ghost predicate SameValue(c: Setting, e: Tree, vars: Vars, vs: seq<u64>, m: Mem, fuel: nat) {
    Elab(c.syms, e).Some?
    && var el := Elab(c.syms, e).value;
      Meaning(c.L, c.types, e, vars, m, fuel) == EvalExpr(c.P, el.core, vs, m, fuel)
      && (el.value.origin == FromAddress ==>
            el.core.Field? && AddressOf(c.L, c.types, e, vars, m, fuel)
                              == EvalExpr(c.P, FieldAddr(el.core.e, el.core.field), vs, m, fuel))
  }

  lemma ValueSame(c: Setting, e: Tree, vars: Vars, vs: seq<u64>, m: Mem, fuel: nat)
    requires SameValue(c, e, vars, vs, m, fuel)
    ensures Elab(c.syms, e).Some?
    ensures Meaning(c.L, c.types, e, vars, m, fuel) == EvalExpr(c.P, Elab(c.syms, e).value.core, vs, m, fuel)
  {
    hide Meaning, EvalExpr, Elab, AddressOf;
  }

  lemma LeafSame(c: Setting, e: Tree, vars: Vars, vs: seq<u64>, m: Mem, fuel: nat)
    requires Ready(c) && Holds(c.syms, c.types, vars, vs) && Elab(c.syms, e).Some?
    requires e.TInt? || e.TNull? || e.TName? || e.TSizeof?
    ensures SameValue(c, e, vars, vs, m, fuel)
  {
    hide Agrees, ProgramAgrees, StraightProgram, Holds;
    if e.TName? || e.TSizeof? {
      SymbolIs(c.L, c.P.base, c.types, c.syms, e.name);
      ValueIs(c.syms, c.types, vars, vs, e.name);
    }
  }

  lemma ParenSame(c: Setting, e: Tree, vars: Vars, vs: seq<u64>, m: Mem, fuel: nat)
    requires (e.TParen? || e.TCast?) && Elab(c.syms, e).Some? && SameValue(c, e.e, vars, vs, m, fuel)
    ensures SameValue(c, e, vars, vs, m, fuel)
  {
    hide EvalExpr, ElabType;
  }

  lemma PathSame(c: Setting, a: Tree, x: Name, vars: Vars, vs: seq<u64>, m: Mem, fuel: nat)
    requires Ready(c) && Elab(c.syms, TPath(a, x)).Some? && SameValue(c, a, vars, vs, m, fuel)
    ensures SameValue(c, TPath(a, x), vars, vs, m, fuel)
  {
    hide Agrees, ProgramAgrees, StraightProgram, SameValue, FieldIndex, FieldsOf, TypeOf, FieldOf;
    ValueSame(c, a, vars, vs, m, fuel);
    TypeSame(c.L, c.P.base, c.types, c.syms, a);
    FieldFound(c.L, c.P.base, c.types, c.syms, TypeOf(c.L, c.types, a), x);
    FieldMeaning(c, TPath(a, x), a, FieldOf(c.syms, TypeOf(c.L, c.types, a), x).value.slot, vars, vs, m, fuel);
  }

  lemma DerefSame(c: Setting, a: Tree, vars: Vars, vs: seq<u64>, m: Mem, fuel: nat)
    requires Elab(c.syms, TDeref(a)).Some? && SameValue(c, a, vars, vs, m, fuel)
    ensures SameValue(c, TDeref(a), vars, vs, m, fuel)
  {
    hide SameValue, EvalExpr, Meaning;
    ValueSame(c, a, vars, vs, m, fuel);
    FieldMeaning(c, TDeref(a), a, 0, vars, vs, m, fuel);
  }

  /** The field i of a value. */
  lemma FieldMeaning(c: Setting, e: Tree, a: Tree, i: nat, vars: Vars, vs: seq<u64>, m: Mem, fuel: nat)
    requires (e == TDeref(a) && i == 0)
      || (e.TPath? && e.e == a && FieldIndex(FieldsOf(c.L, TypeOf(c.L, c.types, a)), e.field) == Some(i))
    requires Elab(c.syms, a).Some? && Elab(c.syms, e).Some?
      && Elab(c.syms, e).value.core == Field(Elab(c.syms, a).value.core, i)
    requires Meaning(c.L, c.types, a, vars, m, fuel) == EvalExpr(c.P, Elab(c.syms, a).value.core, vs, m, fuel)
    ensures SameValue(c, e, vars, vs, m, fuel)
  {
    hide FieldIndex, FieldsOf, TypeOf, Elab, Load64, EvalExpr, Meaning, AddressOf;
    var core := Elab(c.syms, a).value.core;
    FieldAddrUnfold(c.P, core, i, vs, m, fuel);
    FieldUnfold(c.P, core, i, vs, m, fuel);
    PlaceUnfold(c, e, a, i, vars, m, fuel);
  }

  lemma FieldUnfold(P: Program, e: Expr, i: nat, vs: seq<u64>, m: Mem, fuel: nat)
    ensures var a := EvalExpr(P, FieldAddr(e, i), vs, m, fuel);
      EvalExpr(P, Field(e, i), vs, m, fuel)
      == if a.Done? then Loaded(a.value.0, a.value.1) else a.PropagateFailure()
  {
    hide FieldAddress, Load64;
  }

  lemma PlaceUnfold(c: Setting, e: Tree, a: Tree, i: nat, vars: Vars, m: Mem, fuel: nat)
    requires (e == TDeref(a) && i == 0)
      || (e.TPath? && e.e == a && FieldIndex(FieldsOf(c.L, TypeOf(c.L, c.types, a)), e.field) == Some(i))
    ensures var v, p := Meaning(c.L, c.types, a, vars, m, fuel), AddressOf(c.L, c.types, e, vars, m, fuel);
      p == (if v.Done? then Done((FieldAddress(v.value.0, i), v.value.1)) else v.PropagateFailure())
      && Meaning(c.L, c.types, e, vars, m, fuel)
         == if p.Done? then Loaded(p.value.0, p.value.1) else p.PropagateFailure()
  {
    hide FieldIndex, FieldsOf, TypeOf, Loaded, Meanings, Called;
  }

  /** The address that & takes. */
  lemma RefSame(c: Setting, a: Tree, vars: Vars, vs: seq<u64>, m: Mem, fuel: nat)
    requires Ready(c) && Elab(c.syms, TRef(a)).Some? && StraightPlace(c.L, c.types, a)
      && SameValue(c, a, vars, vs, m, fuel)
    ensures SameValue(c, TRef(a), vars, vs, m, fuel)
  {
    hide Agrees, ProgramAgrees, StraightProgram, StraightPlace, EvalExpr, Meaning;
    Places(c.syms, a);
    if Elab(c.syms, a).value.value.origin == FromAddress {
      PlaceField(c.L, c.P.base, c.types, c.syms, a);
    } else {
      NoAddress(c.L, c.types, a, vars, m, fuel);
    }
    RefUnfold(c, a, vars, vs, m, fuel);
  }

  lemma RefUnfold(c: Setting, a: Tree, vars: Vars, vs: seq<u64>, m: Mem, fuel: nat)
    ensures Meaning(c.L, c.types, TRef(a), vars, m, fuel) == AddressOf(c.L, c.types, a, vars, m, fuel)
    ensures forall x: nat :: EvalExpr(c.P, VarAddr(x), vs, m, fuel) == Wrong
  {
  }

  lemma BinSame(c: Setting, op: nat, l: Tree, r: Tree, vars: Vars, vs: seq<u64>, m: Mem, fuel: nat)
    requires Elab(c.syms, TBin(op, l, r)).Some? && SameValue(c, l, vars, vs, m, fuel)
    requires var x := EvalExpr(c.P, Elab(c.syms, l).value.core, vs, m, fuel);
      x.Done? ==> SameValue(c, r, vars, vs, x.value.1, fuel)
    ensures SameValue(c, TBin(op, l, r), vars, vs, m, fuel)
  {
    hide BinType, OpOf, EvalBin, Operate, EvalArgs, EvalCall, Meanings, Called;
    var x := EvalExpr(c.P, Elab(c.syms, l).value.core, vs, m, fuel);
    if x.Done? {
      var y := EvalExpr(c.P, Elab(c.syms, r).value.core, vs, x.value.1, fuel);
      if y.Done? { OperatorSame(op, x.value.0, y.value.0); }
    }
  }

  lemma {:induction false} ExprSame(c: Setting, e: Tree, vars: Vars, vs: seq<u64>, m: Mem, fuel: nat)
    requires Ready(c) && Holds(c.syms, c.types, vars, vs) && Straight(c.L, c.types, e) && Elab(c.syms, e).Some?
    ensures SameValue(c, e, vars, vs, m, fuel)
    decreases fuel, 1, e
  {
    hide Ready, Holds, ElabType, BinType, FieldOf, ElabName, StraightPlace, Meaning, EvalExpr, SameValue, AddressOf,
      ElabArgs;
    match e
    case TCall(f, args) => CallExprSame(c, f, args, vars, vs, m, fuel);
    case TParen(a) =>
      ExprSame(c, a, vars, vs, m, fuel);
      ParenSame(c, e, vars, vs, m, fuel);
    case TCast(a, _) =>
      ExprSame(c, a, vars, vs, m, fuel);
      ParenSame(c, e, vars, vs, m, fuel);
    case TPath(a, x) =>
      ExprSame(c, a, vars, vs, m, fuel);
      PathSame(c, a, x, vars, vs, m, fuel);
    case TDeref(a) =>
      ExprSame(c, a, vars, vs, m, fuel);
      DerefSame(c, a, vars, vs, m, fuel);
    case TRef(a) =>
      ExprSame(c, a, vars, vs, m, fuel);
      RefSame(c, a, vars, vs, m, fuel);
    case TBin(op, l, r) =>
      ExprSame(c, l, vars, vs, m, fuel);
      var x := EvalExpr(c.P, Elab(c.syms, l).value.core, vs, m, fuel);
      if x.Done? { ExprSame(c, r, vars, vs, x.value.1, fuel); }
      BinSame(c, op, l, r, vars, vs, m, fuel);
    case _ => LeafSame(c, e, vars, vs, m, fuel);
  }

  lemma {:induction false} NoAddress(L: Lang, types: Types, e: Tree, vars: Vars, m: Mem, fuel: nat)
    requires Inner(e).TName?
    ensures AddressOf(L, types, e, vars, m, fuel) == Wrong
    decreases e
  {
    match e
    case TParen(a) => NoAddress(L, types, a, vars, m, fuel);
    case TCast(a, _) => NoAddress(L, types, a, vars, m, fuel);
    case _ =>
  }

  lemma {:induction false} ArgsSame(c: Setting, es: List<Tree>, vars: Vars, vs: seq<u64>, m: Mem, fuel: nat)
    requires Ready(c) && Holds(c.syms, c.types, vars, vs) && ArgsStraight(c.L, c.types, es)
      && ElabArgs(c.syms, es).Some?
    ensures Meanings(c.L, c.types, es, vars, m, fuel) == EvalArgs(c.P, ElabArgs(c.syms, es).value.0, vs, m, fuel)
    decreases fuel, 1, es, 0
  {
    hide Ready, Holds, SameValue, Elab, Straight, Meaning, EvalExpr;
    if es.Cons? {
      ExprSame(c, es.head, vars, vs, m, fuel);
      ValueSame(c, es.head, vars, vs, m, fuel);
      var x := EvalExpr(c.P, Elab(c.syms, es.head).value.core, vs, m, fuel);
      if x.Done? { ArgsSame(c, es.tail, vars, vs, x.value.1, fuel); }
    }
  }

  lemma CallExprSame(c: Setting, f: Name, args: List<Tree>, vars: Vars, vs: seq<u64>, m: Mem, fuel: nat)
    requires Ready(c) && Holds(c.syms, c.types, vars, vs) && ArgsStraight(c.L, c.types, args)
      && Elab(c.syms, TCall(f, args)).Some?
    ensures SameValue(c, TCall(f, args), vars, vs, m, fuel)
    decreases fuel, 1, args, 1
  {
    hide Ready, Holds, ElabArgs, AllHaveTypes, Meanings, EvalArgs, Called, EvalCall;
    ArgsSame(c, args, vars, vs, m, fuel);
    var r := EvalArgs(c.P, ElabArgs(c.syms, args).value.0, vs, m, fuel);
    if r.Done? {
      ReadyProgram(c);
      CalledSame(c.L, c.P, f, r.value.0, r.value.1, fuel);
    }
  }

  /** A call of a function by name. */
  lemma CalledSame(L: Lang, P: Program, f: Name, vs: seq<u64>, m: Mem, fuel: nat)
    requires ProgramAgrees(L, P) && StraightProgram(L)
    ensures Called(L, f, vs, m, fuel) == EvalCall(P, f, vs, m, fuel)
    decreases fuel, 0
  {
    hide StraightProgram, ProgramAgrees, FnAgrees;
    ProgramAt(L, P, f);
    if fuel > 0 && f in P.fns { RunSame(L, P, f, vs, m, fuel - 1); }
  }

  lemma ProgramAt(L: Lang, P: Program, f: Name)
    requires ProgramAgrees(L, P)
    ensures f in P.fns <==> f in L.globals.fns && L.globals.fns[f].body.Items?
    ensures f in P.fns ==> FnAgrees(L, P.base, L.globals.fns[f], P.fns[f])
  {
  }

  /** The run of a function. */
  lemma RunSame(L: Lang, P: Program, f: Name, vs: seq<u64>, m: Mem, fuel: nat)
    requires ProgramAgrees(L, P) && StraightProgram(L) && f in P.fns && f in L.globals.fns
    ensures RunFn(L, L.globals.fns[f], vs, m, fuel)
         == if |vs| != P.fns[f].arity then Wrong else EvalFn(P, P.fns[f], vs, m, fuel)
    decreases fuel, 9
  {
    hide StraightProgram, ProgramAgrees, Agrees, Holds, ElabItems, DoesItems, EvalItems, ParamSymbols, ParamTypes,
      Arguments, HasParam, Distinct, VarsWithin, TypesOf, NoVars, ItemsStraight;
    ProgramAt(L, P, f);
    var def, fn := L.globals.fns[f], P.fns[f];
    var syms: Symbols, ret: Option<Type> :| FnElaborated(L, P.base, def, fn, syms, ret);
    if |vs| == fn.arity {
      var types, vars, syms1 := ParamTypes(def.params), Arguments(def.params, vs),
        ParamSymbols(syms, def.params, TypesOf(def.params));
      StraightAt(L, f);
      TypesCount(def.params);
      ParamsAgree(L, P.base, syms, def.params, vs);
      ItemsSame(Setting(L, P, types, syms1), ret, def.body.items, vars, Reverse(vs), m, fuel);
    }
  }

  lemma StraightAt(L: Lang, f: Name)
    requires StraightProgram(L) && f in L.globals.fns && L.globals.fns[f].body.Items?
    ensures ItemsStraight(L, ParamTypes(L.globals.fns[f].params), L.globals.fns[f].body.items)
  {
  }

  lemma {:induction false} TypesCount(ps: List<Param>)
    ensures |TypesOf(ps)| == Count(ps)
    decreases ps
  {
    if ps.Cons? { TypesCount(ps.tail); }
  }

  // ----- conditions -----

  lemma ComparedSame(c: Setting, t: CompTree, vars: Vars, vs: seq<u64>, m: Mem, fuel: nat)
    requires Ready(c) && Holds(c.syms, c.types, vars, vs) && ElabComp(c.syms, t).Some?
      && Straight(c.L, c.types, t.l) && Straight(c.L, c.types, t.r)
    ensures Compared(c.L, c.types, t, vars, m, fuel) == EvalComparison(c.P, ElabComp(c.syms, t).value, vs, m, fuel)
    decreases fuel, 2
  {
    hide Ready, Holds, Comparable, SameValue, Meaning, EvalExpr, Elab, Straight;
    ExprSame(c, t.l, vars, vs, m, fuel);
    ValueSame(c, t.l, vars, vs, m, fuel);
    var x := EvalExpr(c.P, Elab(c.syms, t.l).value.core, vs, m, fuel);
    if x.Done? {
      ExprSame(c, t.r, vars, vs, x.value.1, fuel);
      ValueSame(c, t.r, vars, vs, x.value.1, fuel);
    }
  }

  lemma {:induction false} AllSame(c: Setting, cs: List<CompTree>, vars: Vars, vs: seq<u64>, m: Mem, fuel: nat)
    requires Ready(c) && Holds(c.syms, c.types, vars, vs) && ElabAnd(c.syms, cs).Some?
      && AllStraight(c.L, c.types, cs)
    ensures All(c.L, c.types, cs, vars, m, fuel) == EvalAnd(c.P, ElabAnd(c.syms, cs).value, vs, m, fuel)
    decreases fuel, 3, cs
  {
    hide Ready, Holds, ElabComp, Compared, EvalComparison;
    if cs.Cons? {
      ComparedSame(c, cs.head, vars, vs, m, fuel);
      var b := EvalComparison(c.P, ElabComp(c.syms, cs.head).value, vs, m, fuel);
      if b.Done? && b.value.0 { AllSame(c, cs.tail, vars, vs, b.value.1, fuel); }
    }
  }

  lemma {:induction false} AnySame(c: Setting, ands: BoolTree, vars: Vars, vs: seq<u64>, m: Mem, fuel: nat)
    requires Ready(c) && Holds(c.syms, c.types, vars, vs) && ElabBool(c.syms, ands).Some?
      && AnyStraight(c.L, c.types, ands)
    ensures Any(c.L, c.types, ands, vars, m, fuel) == EvalOr(c.P, ElabBool(c.syms, ands).value, vs, m, fuel)
    decreases fuel, 4, ands
  {
    hide Ready, Holds, ElabAnd, All, EvalAnd;
    if ands.Cons? {
      AllSame(c, ands.head, vars, vs, m, fuel);
      var b := EvalAnd(c.P, ElabAnd(c.syms, ands.head).value, vs, m, fuel);
      if b.Done? && !b.value.0 { AnySame(c, ands.tail, vars, vs, b.value.1, fuel); }
    }
  }

  // ----- statements -----

  /** A statement ends the same way, with the same values. */
  ghost predicate SameEnd(syms: Symbols, types: Types, end: Outcome<Ending>, flow: Outcome<Flow>, n: nat) {
    match end
    case Done(Next(vars, m)) =>
      flow.Done? && flow.value.Normal? && flow.value.mem == m && |flow.value.vars| == n
      && Holds(syms, types, vars, flow.value.vars)
    case Done(Out(vars, m)) =>
      flow.Done? && flow.value.Broke? && flow.value.mem == m && |flow.value.vars| == n
      && Holds(syms, types, vars, flow.value.vars)
    case Done(Back(v, m)) => flow == Done(Returned(v, m))
    case Fault => flow == Fault
    case Timeout => flow == Timeout
    case Wrong => flow == Wrong
  }

  /** Assigning to a variable. */
  lemma Assigned(syms: Symbols, types: Types, vars: Vars, vs: seq<u64>, x: Name, v: u64)
    requires Holds(syms, types, vars, vs) && x in syms && syms[x].VarSymbol? && x in types
    ensures 1 <= syms[x].x <= |vs| && Holds(syms, types, vars[x := v], vs[syms[x].x - 1 := v])
  {
    ValueIs(syms, types, vars, vs, x);
    forall y | y in syms ensures ValueHolds(y, syms[y], vars[x := v], vs[syms[x].x - 1 := v]) {
      assert ValueHolds(y, syms[y], vars, vs);
    }
  }

  lemma AssignSame(c: Setting, l: Tree, r: Tree, ret: Option<Type>, vars: Vars, vs: seq<u64>, m: Mem, fuel: nat)
    requires Ready(c) && Holds(c.syms, c.types, vars, vs) && StmtStraight(c.L, c.types, TAssign(l, r))
    requires ElabStmt(c.syms, ret, TAssign(l, r)).Some?
    ensures SameEnd(c.syms, c.types, Does(c.L, c.types, TAssign(l, r), vars, m, fuel),
                    EvalStmt(c.P, ElabStmt(c.syms, ret, TAssign(l, r)).value, vs, m, fuel), |vs|)
    decreases fuel, 2
  {
    hide Ready, Holds, Comparable, StraightPlace, Elab, Meaning, EvalExpr, AddressOf, SameValue, Straight, SameEnd,
      Does,      EvalStmt;
    var el := Elab(c.syms, l).value;
    Places(c.syms, l);
    ReadyAgrees(c);
    if el.value.origin == FromAddress {
      PlaceField(c.L, c.P.base, c.types, c.syms, l);
      ExprSame(c, l, vars, vs, m, fuel);
      var a := EvalExpr(c.P, el.core.e, vs, m, fuel);
      if a.Done? { ExprSame(c, r, vars, vs, a.value.1, fuel); }
      StoreSame(c, l, r, vars, vs, m, fuel);
    } else {
      NotCast(c.L, c.types, l);
      SymbolIs(c.L, c.P.base, c.types, c.syms, Inner(l).name);
      ExprSame(c, r, vars, vs, m, fuel);
      SetSame(c, l, r, vars, vs, m, fuel);
    }
  }

  /** An assignment to a field. */
  lemma StoreSame(c: Setting, l: Tree, r: Tree, vars: Vars, vs: seq<u64>, m: Mem, fuel: nat)
    requires SameValue(c, l, vars, vs, m, fuel) && Elab(c.syms, r).Some? && !Inner(l).TName?
    requires Holds(c.syms, c.types, vars, vs)
    requires var el := Elab(c.syms, l).value;
      el.value.origin == FromAddress && el.core.Field?
      && var a := EvalExpr(c.P, el.core.e, vs, m, fuel); a.Done? ==> SameValue(c, r, vars, vs, a.value.1, fuel)
    ensures var el, er := Elab(c.syms, l).value, Elab(c.syms, r).value;
      SameEnd(c.syms, c.types, Does(c.L, c.types, TAssign(l, r), vars, m, fuel),
              EvalStmt(c.P, SetField(el.core.e, el.core.field, er.core), vs, m, fuel), |vs|)
  {
    hide Holds, Elab, Meaning, AddressOf, Store64, Inner, EvalExpr;
    var el := Elab(c.syms, l).value;
    var a := EvalExpr(c.P, el.core.e, vs, m, fuel);
    if a.Done? { ValueSame(c, r, vars, vs, a.value.1, fuel); }
    FieldAddrUnfold(c.P, el.core.e, el.core.field, vs, m, fuel);
  }

  lemma FieldAddrUnfold(P: Program, e: Expr, i: nat, vs: seq<u64>, m: Mem, fuel: nat)
    ensures var a := EvalExpr(P, e, vs, m, fuel);
      EvalExpr(P, FieldAddr(e, i), vs, m, fuel)
      == if a.Done? then Done((FieldAddress(a.value.0, i), a.value.1)) else a.PropagateFailure()
  {
    hide FieldAddress;
  }

  /** An assignment to a variable. */
  lemma SetSame(c: Setting, l: Tree, r: Tree, vars: Vars, vs: seq<u64>, m: Mem, fuel: nat)
    requires SameValue(c, r, vars, vs, m, fuel) && Holds(c.syms, c.types, vars, vs) && Inner(l).TName?
    requires var x := Inner(l).name; x in c.syms && c.syms[x].VarSymbol? && x in c.types
    ensures SameEnd(c.syms, c.types, Does(c.L, c.types, TAssign(l, r), vars, m, fuel),
                    EvalStmt(c.P, SetVar(c.syms[Inner(l).name].x, Elab(c.syms, r).value.core), vs, m, fuel), |vs|)
  {
    hide Holds, Elab, Meaning, Inner, EvalExpr, SameValue, Does, EvalStmt, AddressOf;
    ValueSame(c, r, vars, vs, m, fuel);
    var v := EvalExpr(c.P, Elab(c.syms, r).value.core, vs, m, fuel);
    SetUnfold(c, l, r, c.syms[Inner(l).name].x, Elab(c.syms, r).value.core, vars, vs, m, fuel);
    if v.Done? { Assigned(c.syms, c.types, vars, vs, Inner(l).name, v.value.0); }
  }

  lemma SetUnfold(c: Setting, l: Tree, r: Tree, i: nat, e: Expr, vars: Vars, vs: seq<u64>, m: Mem, fuel: nat)
    requires Inner(l).TName? && Meaning(c.L, c.types, r, vars, m, fuel) == EvalExpr(c.P, e, vs, m, fuel)
    ensures var v := EvalExpr(c.P, e, vs, m, fuel);
      Does(c.L, c.types, TAssign(l, r), vars, m, fuel)
      == (if v.Done? then Done(Next(vars[Inner(l).name := v.value.0], v.value.1)) else v.PropagateFailure())
      && EvalStmt(c.P, SetVar(i, e), vs, m, fuel)
         == if !v.Done? then v.PropagateFailure()
            else if 1 <= i <= |vs| then Done(Normal(vs[i - 1 := v.value.0], v.value.1)) else Wrong
  {
    hide Meaning, EvalExpr, Inner;
  }

  lemma NotCast(L: Lang, types: Types, e: Tree)
    requires Inner(e).TName? && StraightPlace(L, types, e)
    ensures !CastAround(e)
  {
  }

  lemma ReadyAgrees(c: Setting)
    requires Ready(c)
    ensures Agrees(c.L, c.P.base, c.types, c.syms)
  {
  }

  lemma EvalSame(c: Setting, e: Tree, ret: Option<Type>, vars: Vars, vs: seq<u64>, m: Mem, fuel: nat)
    requires Ready(c) && Holds(c.syms, c.types, vars, vs) && Straight(c.L, c.types, e) && Elab(c.syms, e).Some?
    ensures SameEnd(c.syms, c.types, Does(c.L, c.types, TEval(e), vars, m, fuel),
                    EvalStmt(c.P, Eval(Elab(c.syms, e).value.core), vs, m, fuel), |vs|)
    decreases fuel, 3
  {
    hide Ready, Holds, Elab, Straight, Meaning, EvalExpr, SameValue, Inner, SameEnd, Does, EvalStmt;
    InnerCall(c, e);
    if Inner(e).TCall? {
      CallStmtSame(c, e, vars, vs, m, fuel);
    } else {
      ExprSame(c, e, vars, vs, m, fuel);
      ValueSame(c, e, vars, vs, m, fuel);
      ValueStmtSame(c, e, vars, vs, m, fuel);
    }
  }

  lemma CallStmtSame(c: Setting, e: Tree, vars: Vars, vs: seq<u64>, m: Mem, fuel: nat)
    requires Ready(c) && Holds(c.syms, c.types, vars, vs) && Elab(c.syms, e).Some? && Inner(e).TCall?
    requires var core := Elab(c.syms, e).value.core;
      core.Apply? && core.f == Inner(e).f && ArgsStraight(c.L, c.types, Inner(e).args)
      && ElabArgs(c.syms, Inner(e).args).Some? && core.args == ElabArgs(c.syms, Inner(e).args).value.0
    ensures SameEnd(c.syms, c.types, Does(c.L, c.types, TEval(e), vars, m, fuel),
                    EvalStmt(c.P, Eval(Elab(c.syms, e).value.core), vs, m, fuel), |vs|)
    decreases fuel, 2
  {
    hide Ready, Holds, Elab, Meanings, EvalArgs, Called, EvalCall, ElabArgs, Inner, ArgsStraight, SameEnd, Does,
      EvalStmt;
    var core := Elab(c.syms, e).value.core;
    ArgsSame(c, Inner(e).args, vars, vs, m, fuel);
    var r := EvalArgs(c.P, core.args, vs, m, fuel);
    if r.Done? {
      ReadyProgram(c);
      CalledSame(c.L, c.P, core.f, r.value.0, r.value.1, fuel);
    }
    CallUnfold(c, e, core, vars, vs, m, fuel);
  }

  lemma CallUnfold(c: Setting, e: Tree, core: Expr, vars: Vars, vs: seq<u64>, m: Mem, fuel: nat)
    requires Holds(c.syms, c.types, vars, vs) && Inner(e).TCall? && core.Apply?
    requires Meanings(c.L, c.types, Inner(e).args, vars, m, fuel) == EvalArgs(c.P, core.args, vs, m, fuel)
    requires var r := EvalArgs(c.P, core.args, vs, m, fuel);
      r.Done? ==>
        Called(c.L, Inner(e).f, r.value.0, r.value.1, fuel) == EvalCall(c.P, core.f, r.value.0, r.value.1, fuel)
    ensures SameEnd(c.syms, c.types, Does(c.L, c.types, TEval(e), vars, m, fuel),
                    EvalStmt(c.P, Eval(core), vs, m, fuel), |vs|)
  {
    hide Holds, Meanings, EvalArgs, Called, EvalCall, Inner;
  }

  lemma ValueStmtSame(c: Setting, e: Tree, vars: Vars, vs: seq<u64>, m: Mem, fuel: nat)
    requires Holds(c.syms, c.types, vars, vs) && Elab(c.syms, e).Some? && !Inner(e).TCall?
      && !Elab(c.syms, e).value.core.Apply?
    requires Meaning(c.L, c.types, e, vars, m, fuel) == EvalExpr(c.P, Elab(c.syms, e).value.core, vs, m, fuel)
    ensures SameEnd(c.syms, c.types, Does(c.L, c.types, TEval(e), vars, m, fuel),
                    EvalStmt(c.P, Eval(Elab(c.syms, e).value.core), vs, m, fuel), |vs|)
  {
    hide Holds, Elab, Meaning, EvalExpr, Inner;
  }

  lemma ReadyProgram(c: Setting)
    requires Ready(c)
    ensures ProgramAgrees(c.L, c.P) && StraightProgram(c.L)
  {
  }

  /** A call, perhaps in parentheses or cast. */
  lemma InnerCall(c: Setting, e: Tree)
    requires Elab(c.syms, e).Some? && Straight(c.L, c.types, e)
    ensures var core := Elab(c.syms, e).value.core;
      (Inner(e).TCall? <==> core.Apply?)
      && (core.Apply? ==>
            core.f == Inner(e).f && ArgsStraight(c.L, c.types, Inner(e).args)
            && ElabArgs(c.syms, Inner(e).args).Some? && core.args == ElabArgs(c.syms, Inner(e).args).value.0)
  {
    InnerCore(c.syms, e);
    InnerStraight(c.L, c.types, e);
  }

  lemma {:induction false} InnerStraight(L: Lang, types: Types, e: Tree)
    requires Straight(L, types, e)
    ensures Straight(L, types, Inner(e))
    decreases e
  {
    match e
    case TParen(a) => InnerStraight(L, types, a);
    case TCast(a, _) => InnerStraight(L, types, a);
    case _ =>
  }

  lemma {:induction false} StmtSame(c: Setting, s: StmtTree, ret: Option<Type>, vars: Vars, vs: seq<u64>, m: Mem,
                                    fuel: nat)
    requires Ready(c) && Holds(c.syms, c.types, vars, vs) && StmtStraight(c.L, c.types, s)
      && ElabStmt(c.syms, ret, s).Some?
    ensures SameEnd(c.syms, c.types, Does(c.L, c.types, s, vars, m, fuel),
                    EvalStmt(c.P, ElabStmt(c.syms, ret, s).value, vs, m, fuel), |vs|)
    decreases fuel, 5, s, 1
  {
    hide Ready, Holds, ElabBool, Any, EvalOr, Elab, Meaning, EvalExpr, DoesAll, EvalBlock, ElabStmts, BlockStraight,
      Straight;
    match s
    case TAssign(l, r) => AssignSame(c, l, r, ret, vars, vs, m, fuel);
    case TEval(e) => EvalSame(c, e, ret, vars, vs, m, fuel);
    case TIf(_, _) => IfSame(c, s, ret, vars, vs, m, fuel);
    case TIfElse(_, _, _) => IfSame(c, s, ret, vars, vs, m, fuel);
    case TElseIf(_, _, _) => ElseIfSame(c, s, ret, vars, vs, m, fuel);
    case TWhile(t, body) => WhileSame(c, t, body, ret, vars, vs, m, fuel);
    case TLoop(body) => LoopSame(c, body, ret, vars, vs, m, fuel);
    case TReturnValue(e) =>
      ExprSame(c, e, vars, vs, m, fuel);
      ValueSame(c, e, vars, vs, m, fuel);
    case _ =>
  }

  lemma IfSame(c: Setting, s: StmtTree, ret: Option<Type>, vars: Vars, vs: seq<u64>, m: Mem, fuel: nat)
    requires (s.TIf? || s.TIfElse?) && Ready(c) && Holds(c.syms, c.types, vars, vs) && StmtStraight(c.L, c.types, s)
      && ElabStmt(c.syms, ret, s).Some?
    ensures SameEnd(c.syms, c.types, Does(c.L, c.types, s, vars, m, fuel),
                    EvalStmt(c.P, ElabStmt(c.syms, ret, s).value, vs, m, fuel), |vs|)
    decreases fuel, 5, s, 0
  {
    hide Ready, Holds, ElabBool, Any, EvalOr, DoesAll, EvalBlock, ElabStmts, BlockStraight, AnyStraight;
    match s
    case TIf(t, thn) =>
      AnySame(c, t, vars, vs, m, fuel);
      var b := EvalOr(c.P, ElabBool(c.syms, t).value, vs, m, fuel);
      if b.Done? && b.value.0 { BlockSame(c, thn, ret, vars, vs, b.value.1, fuel); }
    case TIfElse(t, thn, els) =>
      AnySame(c, t, vars, vs, m, fuel);
      var b := EvalOr(c.P, ElabBool(c.syms, t).value, vs, m, fuel);
      if b.Done? { BlockSame(c, if b.value.0 then thn else els, ret, vars, vs, b.value.1, fuel); }
  }

  lemma ElseIfSame(c: Setting, s: StmtTree, ret: Option<Type>, vars: Vars, vs: seq<u64>, m: Mem, fuel: nat)
    requires s.TElseIf? && Ready(c) && Holds(c.syms, c.types, vars, vs) && StmtStraight(c.L, c.types, s)
      && ElabStmt(c.syms, ret, s).Some?
    ensures SameEnd(c.syms, c.types, Does(c.L, c.types, s, vars, m, fuel),
                    EvalStmt(c.P, ElabStmt(c.syms, ret, s).value, vs, m, fuel), |vs|)
    decreases fuel, 5, s, 0
  {
    hide Ready, Holds, ElabBool, Any, EvalOr, DoesAll, EvalBlock, ElabStmts, BlockStraight, AnyStraight;
    var t, thn, els := s.c, s.thn, s.elseIf;
    AnySame(c, t, vars, vs, m, fuel);
    var b := EvalOr(c.P, ElabBool(c.syms, t).value, vs, m, fuel);
    if b.Done? {
      if b.value.0 {
        BlockSame(c, thn, ret, vars, vs, b.value.1, fuel);
      } else {
        StmtSame(c, els, ret, vars, vs, b.value.1, fuel);
        OneStmt(c.P, ElabStmt(c.syms, ret, els).value, vs, b.value.1, fuel);
      }
    }
  }

  lemma OneStmt(P: Program, s: Stmt, vs: seq<u64>, m: Mem, fuel: nat)
    ensures EvalBlock(P, List.Cons(s, List.Nil), vs, m, fuel) == EvalStmt(P, s, vs, m, fuel)
  {
  }

  lemma WhileSame(c: Setting, t: BoolTree, body: List<StmtTree>, ret: Option<Type>, vars: Vars, vs: seq<u64>, m: Mem,
                  fuel: nat)
    requires Ready(c) && Holds(c.syms, c.types, vars, vs) && StmtStraight(c.L, c.types, TWhile(t, body))
      && ElabStmt(c.syms, ret, TWhile(t, body)).Some?
    ensures SameEnd(c.syms, c.types, Does(c.L, c.types, TWhile(t, body), vars, m, fuel),
                    EvalStmt(c.P, ElabStmt(c.syms, ret, TWhile(t, body)).value, vs, m, fuel), |vs|)
    decreases fuel, 5, body, 1
  {
    hide Ready, Holds, ElabBool, Any, EvalOr, DoesAll, EvalBlock, ElabStmts, BlockStraight, AnyStraight, Does, EvalStmt;
    var s := ElabStmt(c.syms, ret, TWhile(t, body)).value;
    DoesWhile(c.L, c.types, t, body, vars, m, fuel);
    EvalWhile(c.P, s.c, s.body, vs, m, fuel);
    if fuel > 0 {
      AnySame(c, t, vars, vs, m, fuel);
      var b := EvalOr(c.P, s.c, vs, m, fuel);
      if b.Done? && b.value.0 {
        BlockSame(c, body, ret, vars, vs, b.value.1, fuel);
        var end := DoesAll(c.L, c.types, body, vars, b.value.1, fuel);
        var flow := EvalBlock(c.P, s.body, vs, b.value.1, fuel);
        if end.Done? && end.value.Next? {
          StmtSame(c, TWhile(t, body), ret, end.value.vars, flow.value.vars, flow.value.mem, fuel - 1);
        }
      }
    }
  }

  lemma DoesWhile(L: Lang, types: Types, t: BoolTree, body: List<StmtTree>, vars: Vars, m: Mem, fuel: nat)
    ensures var b := Any(L, types, t, vars, m, fuel);
      Does(L, types, TWhile(t, body), vars, m, fuel)
      == if fuel == 0 then Timeout
         else if !b.Done? then b.PropagateFailure()
         else if !b.value.0 then Done(Next(vars, b.value.1))
         else
           var end := DoesAll(L, types, body, vars, b.value.1, fuel);
           if !end.Done? || end.value.Back? then end
           else if end.value.Out? then Done(Next(end.value.vars, end.value.mem))
           else Does(L, types, TWhile(t, body), end.value.vars, end.value.mem, fuel - 1)
  {
    hide Any, DoesAll;
  }

  lemma EvalWhile(P: Program, c: BoolExpr, body: List<Stmt>, vs: seq<u64>, m: Mem, fuel: nat)
    ensures var b := EvalOr(P, c, vs, m, fuel);
      EvalStmt(P, While(c, body), vs, m, fuel)
      == if fuel == 0 then Timeout
         else if !b.Done? then b.PropagateFailure()
         else if !b.value.0 then Done(Normal(vs, b.value.1))
         else
           var flow := EvalBlock(P, body, vs, b.value.1, fuel);
           if !flow.Done? || flow.value.Returned? then flow
           else if flow.value.Broke? then Done(Normal(flow.value.vars, flow.value.mem))
           else EvalStmt(P, While(c, body), flow.value.vars, flow.value.mem, fuel - 1)
  {
    hide EvalOr, EvalBlock;
  }

  lemma LoopSame(c: Setting, body: List<StmtTree>, ret: Option<Type>, vars: Vars, vs: seq<u64>, m: Mem, fuel: nat)
    requires Ready(c) && Holds(c.syms, c.types, vars, vs) && StmtStraight(c.L, c.types, TLoop(body))
      && ElabStmt(c.syms, ret, TLoop(body)).Some?
    ensures SameEnd(c.syms, c.types, Does(c.L, c.types, TLoop(body), vars, m, fuel),
                    EvalStmt(c.P, ElabStmt(c.syms, ret, TLoop(body)).value, vs, m, fuel), |vs|)
    decreases fuel, 5, body, 1
  {
    hide Ready, Holds, DoesAll, EvalBlock, ElabStmts, BlockStraight;
    if fuel > 0 {
      BlockSame(c, body, ret, vars, vs, m, fuel);
      var end := DoesAll(c.L, c.types, body, vars, m, fuel);
      var flow := EvalBlock(c.P, ElabStmts(c.syms, ret, body).value, vs, m, fuel);
      if end.Done? && end.value.Next? {
        StmtSame(c, TLoop(body), ret, end.value.vars, flow.value.vars, flow.value.mem, fuel - 1);
      }
    }
  }

  lemma {:induction false} BlockSame(c: Setting, ss: List<StmtTree>, ret: Option<Type>, vars: Vars, vs: seq<u64>,
                                     m: Mem, fuel: nat)
    requires Ready(c) && Holds(c.syms, c.types, vars, vs) && BlockStraight(c.L, c.types, ss)
      && ElabStmts(c.syms, ret, ss).Some?
    ensures SameEnd(c.syms, c.types, DoesAll(c.L, c.types, ss, vars, m, fuel),
                    EvalBlock(c.P, ElabStmts(c.syms, ret, ss).value, vs, m, fuel), |vs|)
    decreases fuel, 5, ss, 0
  {
    hide Ready, Holds, Does, EvalStmt, ElabStmt, StmtStraight;
    if ss.Cons? {
      StmtSame(c, ss.head, ret, vars, vs, m, fuel);
      var end := Does(c.L, c.types, ss.head, vars, m, fuel);
      var flow := EvalStmt(c.P, ElabStmt(c.syms, ret, ss.head).value, vs, m, fuel);
      if end.Done? && end.value.Next? {
        BlockSame(c, ss.tail, ret, end.value.vars, flow.value.vars, flow.value.mem, fuel);
      }
    }
  }

  // ----- function bodies -----

  /** A body ends the same way; what its variables are then does not matter. */
  ghost predicate SameBody(end: Outcome<Ending>, flow: Outcome<Flow>) {
    match end
    case Done(Next(_, m)) => flow.Done? && flow.value.Normal? && flow.value.mem == m
    case Done(Out(_, _)) => flow.Done? && flow.value.Broke?
    case Done(Back(v, m)) => flow == Done(Returned(v, m))
    case Fault => flow == Fault
    case Timeout => flow == Timeout
    case Wrong => flow == Wrong
  }

  lemma {:induction false} ItemsSame(c: Setting, ret: Option<Type>, items: List<ItemTree>, vars: Vars, vs: seq<u64>,
                                     m: Mem, fuel: nat)
    requires Ready(c) && Holds(c.syms, c.types, vars, vs) && ItemsStraight(c.L, c.types, items)
      && VarsWithin(c.syms, |vs|) && ElabItems(c.syms, ret, |vs| + 1, items).Some?
    ensures SameBody(DoesItems(c.L, c.types, items, vars, m, fuel),
                     EvalItems(c.P, ElabItems(c.syms, ret, |vs| + 1, items).value.2, vs, m, fuel))
    decreases fuel, 6, items
  {
    hide Ready, Holds, VarsWithin, Meaning, EvalExpr, Does, EvalStmt, Straight, StmtStraight, Elab, ElabStmt, ElabType,
      TypeIs, SameValue, GivenType, LetType, ElabItems;
    var n := |vs| + 1;
    match items
    case Nil => NoItems(c.syms, ret, n);
    case Cons(TConst(x, ty, v), rest) =>
      ConstItem(c.syms, ret, n, x, ty, v, rest);
      ConstAdded(c, x, ty, v, vars, vs);
      ItemsSame(c.(types := c.types[x := TypeIs(ty)], syms := c.syms[x := ConstSymbol(v, TypeIs(ty))]), ret, rest,
        vars[x := v], vs, m, fuel);
    case Cons(TLet(x, given, e), rest) =>
      LetItem(c.syms, ret, n, x, given, e, rest);
      ExprSame(c, e, vars, vs, m, fuel);
      ValueSame(c, e, vars, vs, m, fuel);
      var r := EvalExpr(c.P, Elab(c.syms, e).value.core, vs, m, fuel);
      if r.Done? {
        var v, ty := r.value.0, GivenType(c.L, c.types, given, e);
        LetAdded(c, x, given, e, v, vars, vs);
        ItemsSame(c.(types := c.types[x := ty], syms := c.syms[x := VarSymbol(n, ty)]), ret, rest, vars[x := v],
          vs + [v], r.value.1, fuel);
      }
    case Cons(TDo(s), rest) =>
      DoItem(c.syms, ret, n, s, rest);
      StmtSame(c, s, ret, vars, vs, m, fuel);
      var end := Does(c.L, c.types, s, vars, m, fuel);
      var flow := EvalStmt(c.P, ElabStmt(c.syms, ret, s).value, vs, m, fuel);
      if end.Done? && end.value.Next? {
        ItemsSame(c, ret, rest, end.value.vars, flow.value.vars, flow.value.mem, fuel);
      }
  }

  lemma NoItems(syms: Symbols, ret: Option<Type>, next: nat)
    ensures ElabItems(syms, ret, next, List.Nil) == Some((syms, next, List.Nil))
  {
  }

  lemma ConstItem(syms: Symbols, ret: Option<Type>, next: nat, x: Name, t: TypeTree, v: u64, rest: List<ItemTree>)
    requires ElabItems(syms, ret, next, List.Cons(TConst(x, t, v), rest)).Some?
    ensures x !in syms && ElabType(syms, t).Some?
    ensures var more := ElabItems(syms[x := ConstSymbol(v, ElabType(syms, t).value)], ret, next, rest);
      more.Some? && ElabItems(syms, ret, next, List.Cons(TConst(x, t, v), rest)).value.2 == more.value.2
  {
    hide ElabType;
  }

  lemma LetItem(syms: Symbols, ret: Option<Type>, next: nat, x: Name, given: Option<TypeTree>, e: Tree,
                rest: List<ItemTree>)
    requires ElabItems(syms, ret, next, List.Cons(TLet(x, given, e), rest)).Some?
    ensures x !in syms && Elab(syms, e).Some? && LetType(syms, given, Elab(syms, e).value.value).Some?
    ensures var ty := LetType(syms, given, Elab(syms, e).value.value).value;
      var more := ElabItems(syms[x := VarSymbol(next, ty)], ret, next + 1, rest);
      more.Some?
      && ElabItems(syms, ret, next, List.Cons(TLet(x, given, e), rest)).value.2
         == List.Cons(Let(Elab(syms, e).value.core), more.value.2)
  {
    hide Elab, LetType;
    var item := ElabItem(syms, ret, next, TLet(x, given, e)).value;
    var more := ElabItems(item.0, ret, next + 1, rest).value;
    assert Join(item.1, more.2) == List.Cons(item.1.head, more.2);
  }

  lemma DoItem(syms: Symbols, ret: Option<Type>, next: nat, s: StmtTree, rest: List<ItemTree>)
    requires ElabItems(syms, ret, next, List.Cons(TDo(s), rest)).Some?
    ensures ElabStmt(syms, ret, s).Some?
    ensures var more := ElabItems(syms, ret, next, rest);
      more.Some?
      && ElabItems(syms, ret, next, List.Cons(TDo(s), rest)).value.2
         == List.Cons(Do(ElabStmt(syms, ret, s).value), more.value.2)
  {
    hide ElabStmt;
    var item := ElabItem(syms, ret, next, TDo(s)).value;
    var more := ElabItems(syms, ret, next, rest).value;
    assert Join(item.1, more.2) == List.Cons(item.1.head, more.2);
  }

  /** A new local name stands for what it is declared as; the others stay. */
  lemma LocalAgrees(L: Lang, base: int, types: Types, syms: Symbols, x: Name, s: Symbol, ty: Type)
    requires Agrees(L, base, types, syms) && x !in syms
    requires (s.ConstSymbol? && s.ty == ty) || (s.VarSymbol? && s.ty == ty && s.x >= 1)
    ensures Agrees(L, base, types[x := ty], syms[x := s])
  {
    var syms1 := syms[x := s];
    forall y | y in syms1 ensures SymbolAgrees(L, base, types[x := ty], y, syms1[y]) {
      if y != x { assert SymbolAgrees(L, base, types, y, syms[y]); }
    }
  }

  lemma ReadyMore(c: Setting, x: Name, s: Symbol, ty: Type)
    requires Ready(c) && x !in c.syms
    requires (s.ConstSymbol? && s.ty == ty) || (s.VarSymbol? && s.ty == ty && s.x >= 1)
    ensures Ready(c.(types := c.types[x := ty], syms := c.syms[x := s]))
  {
    hide Agrees, ProgramAgrees, StraightProgram;
    LocalAgrees(c.L, c.P.base, c.types, c.syms, x, s, ty);
  }

  lemma ConstAdded(c: Setting, x: Name, t: TypeTree, v: u64, vars: Vars, vs: seq<u64>)
    requires Ready(c) && Holds(c.syms, c.types, vars, vs) && VarsWithin(c.syms, |vs|)
      && x !in c.syms && ElabType(c.syms, t).Some?
    ensures var ty := TypeIs(t); var syms := c.syms[x := ConstSymbol(v, ty)];
      ElabType(c.syms, t).value == ty && Ready(c.(types := c.types[x := ty], syms := syms))
      && Holds(syms, c.types[x := ty], vars[x := v], vs) && VarsWithin(syms, |vs|)
  {
    hide Ready, ElabType, TypeIs;
    TypeElaborated(c.syms, t);
    ReadyMore(c, x, ConstSymbol(v, TypeIs(t)), TypeIs(t));
    var syms := c.syms[x := ConstSymbol(v, TypeIs(t))];
    forall y | y in syms ensures ValueHolds(y, syms[y], vars[x := v], vs) {
      if y != x { assert ValueHolds(y, c.syms[y], vars, vs); }
    }
  }

  lemma LetAdded(c: Setting, x: Name, given: Option<TypeTree>, e: Tree, v: u64, vars: Vars, vs: seq<u64>)
    requires Ready(c) && Holds(c.syms, c.types, vars, vs) && VarsWithin(c.syms, |vs|) && x !in c.syms
    requires Elab(c.syms, e).Some? && LetType(c.syms, given, Elab(c.syms, e).value.value).Some?
    ensures var ty := GivenType(c.L, c.types, given, e); var syms := c.syms[x := VarSymbol(|vs| + 1, ty)];
      LetType(c.syms, given, Elab(c.syms, e).value.value) == Some(ty)
      && Ready(c.(types := c.types[x := ty], syms := syms))
      && Holds(syms, c.types[x := ty], vars[x := v], vs + [v]) && VarsWithin(syms, |vs| + 1)
  {
    hide Ready, Elab, ElabType, TypeIs, TypeOf;
    var ty := GivenType(c.L, c.types, given, e);
    ReadyAgrees(c);
    TypeSame(c.L, c.P.base, c.types, c.syms, e);
    if given.Some? { TypeElaborated(c.syms, given.value); }
    ReadyMore(c, x, VarSymbol(|vs| + 1, ty), ty);
    var syms := c.syms[x := VarSymbol(|vs| + 1, ty)];
    forall y | y in syms ensures ValueHolds(y, syms[y], vars[x := v], vs + [v]) {
      if y != x { assert ValueHolds(y, c.syms[y], vars, vs); }
    }
  }

  /** The parameters, in whatever registers, are there by name. */
  lemma {:induction false} ParamsAgree(L: Lang, base: int, syms: Symbols, ps: List<Param>, vs: seq<u64>)
    requires Agrees(L, base, map[], syms) && NoVars(syms) && Distinct(ps) && |vs| == Count(ps) == |TypesOf(ps)|
    requires forall x :: x in syms ==> !HasParam(ps, x)
    ensures var syms1 := ParamSymbols(syms, ps, TypesOf(ps));
      Agrees(L, base, ParamTypes(ps), syms1) && Holds(syms1, ParamTypes(ps), Arguments(ps, vs), Reverse(vs))
      && VarsWithin(syms1, |vs|) && forall x :: x in syms1 ==> x in syms || HasParam(ps, x)
    decreases ps
  {
    hide Agrees, TypeIs, Holds;
    if ps.Nil? {
      NoParams(syms);
    } else {
      var x, ty := ps.head.name, TypeIs(ps.head.ty);
      assert TypesOf(ps)[1..] == TypesOf(ps.tail);
      ParamsAgree(L, base, syms, ps.tail, vs[1..]);
      var syms1 := ParamSymbols(syms, ps.tail, TypesOf(ps.tail));
      LocalAgrees(L, base, ParamTypes(ps.tail), syms1, x, VarSymbol(|vs|, ty), ty);
      ParamHolds(syms1, ParamTypes(ps.tail), Arguments(ps.tail, vs[1..]), Reverse(vs[1..]), x, ty, vs[0]);
    }
  }

  lemma NoParams(syms: Symbols)
    requires NoVars(syms)
    ensures Holds(syms, map[], map[], [])
  {
  }

  lemma ParamHolds(syms: Symbols, types: Types, vars: Vars, vs: seq<u64>, x: Name, ty: Type, v: u64)
    requires Holds(syms, types, vars, vs) && VarsWithin(syms, |vs|) && x !in syms
    ensures Holds(syms[x := VarSymbol(|vs| + 1, ty)], types[x := ty], vars[x := v], vs + [v])
    ensures VarsWithin(syms[x := VarSymbol(|vs| + 1, ty)], |vs| + 1)
  {
    var syms1 := syms[x := VarSymbol(|vs| + 1, ty)];
    forall y | y in syms1 ensures ValueHolds(y, syms1[y], vars[x := v], vs + [v]) {
      if y != x { assert ValueHolds(y, syms[y], vars, vs); }
    }
  }
}
