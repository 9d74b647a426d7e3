/** Whole programs: the compiled functions of a program do what the program, as it is written, means. */
module Programs {
  import opened Words
  import opened X86
  import opened Encoder
  import opened Source
  import opened Codegen
  import opened Preservation
  import opened Linking
  import opened Encodings
  import opened Syntax
  import opened Functions
  import opened Statics
  import opened Links
  import opened Correctness
  import opened Language
  import opened Elaboration

  /** The offset of a symbol that stands for a place in the code. */
  function PlaceOf(s: Symbol): Option<int> {
    match s
    case StaticSymbol(o) => Some(o)
    case FnSymbol(Some(t), _, _) => Some(t)
    case _ => None
  }

  /** The addresses of static blocks and functions, when the code is at an address. */
  function PlacesOf(base: int, syms: Symbols): map<Name, u64> {
    map x | x in syms && PlaceOf(syms[x]).Some? :: Wrap(base + PlaceOf(syms[x]).value)
  }

  /** What the declarations of a program say, with its object code at an address. */
  function LangOf(base: int, ds: List<Decl>, syms: Symbols): Lang { Lang(WithDecls(NOTHING, ds), PlacesOf(base, syms)) }

  // ----- one declaration after the other -----

  /** What is declared has a symbol of its kind. */
  ghost predicate Named(g: Globals, syms: Symbols) {
    && (forall x :: x in g.consts ==> x in syms && syms[x].ConstSymbol?)
    && (forall x :: x in g.structs ==> x in syms && syms[x].StructSymbol?)
    && (forall x :: x in g.fns ==> x in syms && syms[x].FnSymbol?)
  }

  /** A function of the unit was compiled from its declaration, with symbols that are still there. */
  ghost predicate FnFrom(L: Lang, base: int, syms: Symbols, def: Function, fn: Fn) {
    exists scope: Symbols, ret: Option<Type> :: FnElaborated(L, base, def, fn, scope, ret) && Later(scope, syms)
  }

  /** The unit so far against the declarations so far. */
  ghost predicate UnitAgrees(L: Lang, base: int, u: CompUnit) {
    && Agrees(L, base, map[], u.syms) && NoVars(u.syms) && Named(L.globals, u.syms)
    && forall f :: (f in u.fns <==> f in L.globals.fns && L.globals.fns[f].body.Items?)
         && (f in u.fns ==> f in u.syms && !IsForward(u.syms[f])
                            && FnFrom(L, base, u.syms, L.globals.fns[f], u.fns[f]))
  }

  /** All placed symbols have their addresses. */
  ghost predicate Placed(L: Lang, base: int, syms: Symbols) {
    forall x :: x in syms && PlaceOf(syms[x]).Some? ==>
      x in L.places && L.places[x] == Wrap(base + PlaceOf(syms[x]).value)
  }

  /** Declaring more keeps what is declared, but for functions that were forward. */
  lemma AgreesMore(L: Lang, base: int, syms: Symbols, d: Decl)
    requires Agrees(L, base, map[], syms)
    requires d.name in syms ==>
      d.DFn? && syms[d.name].FnSymbol?
      && (if syms[d.name].ret.None? then d.ret.None? else d.ret.Some? && TypeIs(d.ret.value) == syms[d.name].ret.value)
    ensures Agrees(L.(globals := WithDecl(L.globals, d)), base, map[], syms)
  {
    hide TypeIs, FieldsAgree;
    var L1 := L.(globals := WithDecl(L.globals, d));
    forall x | x in syms ensures SymbolAgrees(L1, base, map[], x, syms[x]) {
      assert SymbolAgrees(L, base, map[], x, syms[x]);
    }
  }

  /** What a function is declared with is what its symbol says. */
  lemma RetElaborated(syms: Symbols, r: Option<TypeTree>)
    ensures var ret := ElabRet(syms, r);
      ret.Some? ==> if ret.value.None? then r.None? else r.Some? && TypeIs(r.value) == ret.value.value
  {
    hide ElabType, TypeIs;
    if r.Some? { TypeElaborated(syms, r.value); }
  }

  lemma {:induction false} ParamsElaborated(syms: Symbols, ps: List<Param>)
    ensures ElabParams(syms, ps).Some? ==> ElabParams(syms, ps).value == TypesOf(ps)
    decreases ps
  {
    hide ElabType, TypeIs;
    if ps.Cons? {
      TypeElaborated(syms, ps.head.ty);
      ParamsElaborated(syms, ps.tail);
    }
  }

  /** The fields of a struct, counted from k. */
  lemma {:induction false} FieldsElaborated(ps: List<Param>, k: nat, x: Name)
    ensures var fields := FieldMap(Names(ps), TypesOf(ps), k);
      x in fields <==> HasParam(ps, x)
    ensures var fields := FieldMap(Names(ps), TypesOf(ps), k);
      HasParam(ps, x) ==>
        FieldIndex(ps, x).Some? && fields[x] == FieldSymbol(k + FieldIndex(ps, x).value, FieldType(ps, x))
    decreases ps
  {
    hide TypeIs;
    if ps.Cons? {
      assert Names(ps)[1..] == Names(ps.tail) && TypesOf(ps)[1..] == TypesOf(ps.tail);
      FieldsElaborated(ps.tail, k + 1, x);
    }
  }

  lemma StructAgrees(ps: List<Param>)
    ensures FieldsAgree(ps, FieldMap(Names(ps), TypesOf(ps), 0), |TypesOf(ps)|)
  {
    hide FieldMap, HasParam, TypesOf;
    TypesCount(ps);
    var fields := FieldMap(Names(ps), TypesOf(ps), 0);
    forall x | x in fields ensures FieldAgrees(ps, x, fields[x]) {
      FieldsElaborated(ps, 0, x);
    }
  }

  /** The new symbol stands for the new declaration. */
  lemma NewAgrees(L: Lang, base: int, u: CompUnit, at: nat, d: Decl)
    requires UnitAgrees(L, base, u) && ElabDecl(u, at, d).Some?
      && Placed(L, base, ElabDecl(u, at, d).value.syms)
    ensures d.name in ElabDecl(u, at, d).value.syms
    ensures SymbolAgrees(L.(globals := WithDecl(L.globals, d)), base, map[], d.name,
      ElabDecl(u, at, d).value.syms[d.name])
  {
    hide ElabDecl, Agrees, FnFrom, Placed, SymbolAgrees, NoVars, WithDecl;
    DeclSymbols(u, at, d);
    NewSymbol(u, at, d);
    var v := ElabDecl(u, at, d).value;
    if PlaceOf(v.syms[d.name]).Some? { PlaceIs(L, base, v.syms, d.name); }
    NewNames(L.globals, u.syms, d);
    SymbolStands(L, base, d, v.syms[d.name]);
  }

  lemma PlaceIs(L: Lang, base: int, syms: Symbols, x: Name)
    requires Placed(L, base, syms) && x in syms && PlaceOf(syms[x]).Some?
    ensures x in L.places && L.places[x] == Wrap(base + PlaceOf(syms[x]).value)
  {
  }

  /** What kind of symbol a declaration makes. */
  ghost predicate SymbolFor(d: Decl, s: Symbol) {
    match d
    case DConst(x, t, v) => s == ConstSymbol(v, TypeIs(t))
    case DStatic(_, _) => s.StaticSymbol?
    case DStruct(_, fields) => s.StructSymbol? && FieldsAgree(fields, s.fields, s.size)
    case DFn(_, _, r, _) =>
      s.FnSymbol? && if s.ret.None? then r.None? else r.Some? && TypeIs(r.value) == s.ret.value
  }

  lemma NewSymbol(u: CompUnit, at: nat, d: Decl)
    requires ElabDecl(u, at, d).Some?
    ensures d.name in ElabDecl(u, at, d).value.syms && SymbolFor(d, ElabDecl(u, at, d).value.syms[d.name])
  {
    hide ElabItems, ElabParams, ElabType, ParamSymbols, HasParam, Distinct, ItemsReachable, FieldMap, Relinked, EnvOf,
      TypeIs, ElabRet, FieldsAgree;
    match d {
      case DConst(x, t, v) => TypeElaborated(u.syms, t);
      case DStatic(x, _) =>
      case DStruct(x, fields) =>
        ParamsElaborated(u.syms[x := StructSymbol(map[], 0)], fields);
        StructAgrees(fields);
      case DFn(f, ps, r, body) => RetElaborated(u.syms[f := FnSymbol(Some(at), [], None)], r);
    }
  }

  /** A new name is not declared yet, or is that of a function declared forward. */
  lemma NewNames(g: Globals, syms: Symbols, d: Decl)
    requires Named(g, syms) && (d.name in syms ==> IsForward(syms[d.name]) && d.DFn?)
    ensures d.name !in g.consts && (!d.DFn? ==> d.name !in g.fns)
  {
  }

  lemma SymbolStands(L: Lang, base: int, d: Decl, s: Symbol)
    requires SymbolFor(d, s) && d.name !in L.globals.consts && (!d.DFn? ==> d.name !in L.globals.fns)
    requires PlaceOf(s).Some? ==> d.name in L.places && L.places[d.name] == Wrap(base + PlaceOf(s).value)
    ensures SymbolAgrees(L.(globals := WithDecl(L.globals, d)), base, map[], d.name, s)
  {
    hide TypeIs, FieldsAgree;
  }

  /** A function that is declared again has the same result type. */
  lemma SameRet(u: CompUnit, at: nat, d: Decl, scope: Symbols)
    requires ElabDecl(u, at, d).Some? && NoVars(u.syms) && Later(scope, u.syms) && d.name in scope
    ensures d.DFn? && scope[d.name].FnSymbol?
      && (if scope[d.name].ret.None? then d.ret.None?
          else d.ret.Some? && TypeIs(d.ret.value) == scope[d.name].ret.value)
  {
    hide ElabItems, ElabParams, ElabType, ParamSymbols, HasParam, Distinct, ItemsReachable, FieldMap, Relinked, EnvOf,
      TypeIs, ElabRet;
    DeclSymbols(u, at, d);
    assert LaterSymbol(scope[d.name], u.syms[d.name]);
    RetElaborated(u.syms[d.name := FnSymbol(Some(at), [], None)], d.ret);
  }

  /** The functions from before. */
  lemma OldFn(L: Lang, base: int, u: CompUnit, at: nat, d: Decl, def: Function, fn: Fn)
    requires ElabDecl(u, at, d).Some? && NoVars(u.syms) && FnFrom(L, base, u.syms, def, fn)
    ensures FnFrom(L.(globals := WithDecl(L.globals, d)), base, ElabDecl(u, at, d).value.syms, def, fn)
  {
    hide Agrees, ElabDecl, Later, ElabItems, WithDecl;
    var scope: Symbols, ret: Option<Type> :| FnElaborated(L, base, def, fn, scope, ret) && Later(scope, u.syms);
    DeclSymbols(u, at, d);
    if d.name in scope { SameRet(u, at, d, scope); }
    AgreesMore(L, base, scope, d);
    LaterTrans(scope, u.syms, ElabDecl(u, at, d).value.syms);
    assert FnElaborated(L.(globals := WithDecl(L.globals, d)), base, def, fn, scope, ret);
  }

  /** A new function with a body. */
  lemma NewFn(L: Lang, base: int, u: CompUnit, at: nat, d: Decl)
    requires ElabDecl(u, at, d).Some? && NoVars(u.syms) && d.DFn? && d.body.Items?
    requires Agrees(L, base, map[], ElabDecl(u, at, d).value.syms)
    ensures var v := ElabDecl(u, at, d).value;
      d.name in v.fns && d.name in v.syms && !IsForward(v.syms[d.name])
      && FnFrom(L, base, v.syms, Function(d.params, d.ret, d.body), v.fns[d.name])
  {
    hide Agrees, ElabItems, ElabParams, ElabType, ParamSymbols, HasParam, Distinct, ItemsReachable, FieldMap, Relinked,
      EnvOf, TypeIs, ElabRet, TypesOf;
    var v := ElabDecl(u, at, d).value;
    var early := u.syms[d.name := FnSymbol(Some(at), [], None)];
    DeclSymbols(u, at, d);
    ParamsElaborated(early, d.params);
    TypesCount(d.params);
    LaterSelf(v.syms);
    assert FnElaborated(L, base, Function(d.params, d.ret, d.body), v.fns[d.name], v.syms, ElabRet(early, d.ret).value);
  }

  lemma NamedMore(g: Globals, u: CompUnit, at: nat, d: Decl)
    requires ElabDecl(u, at, d).Some? && NoVars(u.syms) && Named(g, u.syms)
    ensures Named(WithDecl(g, d), ElabDecl(u, at, d).value.syms)
  {
    hide ElabItems, ElabParams, ElabType, ParamSymbols, HasParam, Distinct, ItemsReachable, FieldMap, Relinked, EnvOf,
      ElabRet;
    DeclSymbols(u, at, d);
  }

  /** Which functions there are after a declaration. */
  lemma DeclFns(u: CompUnit, at: nat, d: Decl)
    requires ElabDecl(u, at, d).Some?
    ensures var v := ElabDecl(u, at, d).value;
      if d.DFn? && d.body.Items? then d.name in v.fns && v.fns == u.fns[d.name := v.fns[d.name]] else v.fns == u.fns
  {
    hide ElabItems, ElabParams, ElabType, ParamSymbols, HasParam, Distinct, ItemsReachable, FieldMap, Relinked, EnvOf,
      ElabRet;
  }

  /** Every declaration keeps the unit and the declarations in agreement. */
  lemma UnitStep(L: Lang, base: int, u: CompUnit, at: nat, d: Decl)
    requires UnitAgrees(L, base, u) && ElabDecl(u, at, d).Some? && Placed(L, base, ElabDecl(u, at, d).value.syms)
    ensures UnitAgrees(L.(globals := WithDecl(L.globals, d)), base, ElabDecl(u, at, d).value)
  {
    hide Agrees, ElabDecl, Later, FnFrom, Named, SymbolAgrees, Placed, NoVars;
    var L1, v := L.(globals := WithDecl(L.globals, d)), ElabDecl(u, at, d).value;
    DeclSymbols(u, at, d);
    DeclFns(u, at, d);
    LaterSelf(u.syms);
    if d.name in u.syms { SameRet(u, at, d, u.syms); }
    AgreesMore(L, base, u.syms, d);
    NewAgrees(L, base, u, at, d);
    AgreesWith(L1, base, u.syms, d.name, v.syms[d.name]);
    NamedMore(L.globals, u, at, d);
    if d.DFn? && d.body.Items? { NewFn(L1, base, u, at, d); }
    forall f
      ensures f in v.fns <==> f in L1.globals.fns && L1.globals.fns[f].body.Items?
      ensures f in v.fns ==>
        f in v.syms && !IsForward(v.syms[f]) && FnFrom(L1, base, v.syms, L1.globals.fns[f], v.fns[f])
    {
      if f != d.name && f in u.fns { OldFn(L, base, u, at, d, L.globals.fns[f], u.fns[f]); }
    }
  }

  lemma AgreesWith(L: Lang, base: int, syms: Symbols, x: Name, s: Symbol)
    requires Agrees(L, base, map[], syms) && SymbolAgrees(L, base, map[], x, s)
    ensures Agrees(L, base, map[], syms[x := s])
  {
    hide SymbolAgrees;
  }

  // ----- structs -----

  function Nth<T>(l: List<T>, i: nat): T
    requires i < Count(l)
  {
    if i == 0 then l.head else Nth(l.tail, i - 1)
  }

  /** In an accepted struct field i has slot i and the type that it is declared with; so different fields have different
      slots, and all are below the size. */
  lemma StructFields(u: CompUnit, at: nat, x: Name, fields: List<Param>)
    requires ElabDecl(u, at, DStruct(x, fields)).Some?
    ensures var v := ElabDecl(u, at, DStruct(x, fields)).value;
      x in v.syms && v.syms[x].StructSymbol? && v.syms[x].size == Count(fields)
      && (forall i: nat :: i < Count(fields) ==>
            var p := Nth(fields, i);
            p.name in v.syms[x].fields && v.syms[x].fields[p.name] == FieldSymbol(i, TypeIs(p.ty)))
      && (forall y, z :: y in v.syms[x].fields && z in v.syms[x].fields && y != z ==>
            v.syms[x].fields[y].slot != v.syms[x].fields[z].slot)
      && (forall y :: y in v.syms[x].fields ==> v.syms[x].fields[y].slot < v.syms[x].size)
  {
    hide FieldMap, TypesOf, ElabParams, TypeIs, HasParam, Distinct;
    ParamsElaborated(u.syms[x := StructSymbol(map[], 0)], fields);
    TypesCount(fields);
    var map1 := FieldMap(Names(fields), TypesOf(fields), 0);
    forall i: nat | i < Count(fields)
      ensures Nth(fields, i).name in map1
      ensures map1[Nth(fields, i).name] == FieldSymbol(i, TypeIs(Nth(fields, i).ty))
    {
      NthField(fields, i);
      FieldsElaborated(fields, 0, Nth(fields, i).name);
    }
    forall y | y in map1
      ensures map1[y].slot < Count(fields) && Nth(fields, map1[y].slot).name == y
    {
      FieldsElaborated(fields, 0, y);
      FieldPlace(fields, y);
    }
  }

  lemma {:induction false} NthField(ps: List<Param>, i: nat)
    requires i < Count(ps) && Distinct(ps)
    ensures var p := Nth(ps, i);
      HasParam(ps, p.name) && FieldIndex(ps, p.name) == Some(i) && FieldType(ps, p.name) == TypeIs(p.ty)
    decreases ps
  {
    hide TypeIs;
    if i > 0 { NthField(ps.tail, i - 1); }
  }

  lemma {:induction false} FieldPlace(ps: List<Param>, x: Name)
    requires FieldIndex(ps, x).Some?
    ensures FieldIndex(ps, x).value < Count(ps) && Nth(ps, FieldIndex(ps, x).value).name == x
    decreases ps
  {
    if ps.head.name != x { FieldPlace(ps.tail, x); }
  }

  /** A store to a field is what is loaded from it, and changes no other field of the same value. */
  lemma FieldStored(m: Mem, a: u64, i: nat, j: nat, v: u64)
    requires Store64(m, FieldAddress(a, i), v).Some? && i < 0x2000_0000_0000_0000 && j < 0x2000_0000_0000_0000
    ensures var m1 := Store64(m, FieldAddress(a, i), v).value;
      Load64(m1, FieldAddress(a, i)) == Some(v)
      && (i != j ==> Load64(m1, FieldAddress(a, j)) == Load64(m, FieldAddress(a, j)))
  {
    hide LE64, From64, FieldAddress;
    var p, q := FieldAddress(a, i), FieldAddress(a, j);
    StoredLoads(m, p, v);
    if i != j {
      FieldsApart(a, i, j);
      OtherLoads(m, p, v, q);
    }
  }

  lemma FieldsApart(a: u64, i: nat, j: nat)
    requires i < 0x2000_0000_0000_0000 && j < 0x2000_0000_0000_0000 && i != j
    ensures var p, q := FieldAddress(a, i), FieldAddress(a, j); p + 8 <= q || q + 8 <= p
  {
    var x, y := a + 8 * i, a + 8 * j;
    var p, q := x / TWO64, y / TWO64;
    assert x == p * TWO64 + x % TWO64 && y == q * TWO64 + y % TWO64;
    assert x - y == 8 * (i - j);
    var d := x % TWO64 - y % TWO64;
    assert d == 8 * (i - j - (p - q) * 0x2000_0000_0000_0000);
    NotMultiple(i - j, p - q);
  }

  lemma NotMultiple(x: int, k: int)
    requires -0x2000_0000_0000_0000 < x < 0x2000_0000_0000_0000 && x != 0
    ensures x != k * 0x2000_0000_0000_0000
  {
  }

  lemma StoredLoads(m: Mem, p: int, v: u64)
    requires Store64(m, p, v).Some?
    ensures Load64(Store64(m, p, v).value, p) == Some(v)
  {
    hide LE64, From64;
    From64OfLE64(v);
    var b := LE64(v);
    assert b == [b[0], b[1], b[2], b[3], b[4], b[5], b[6], b[7]];
  }

  lemma OtherLoads(m: Mem, p: int, v: u64, q: int)
    requires Store64(m, p, v).Some? && (p + 8 <= q || q + 8 <= p)
    ensures Load64(Store64(m, p, v).value, q) == Load64(m, q)
  {
    hide LE64, From64, Store64;
    var m1 := Store64(m, p, v).value;
    forall k | q <= k < q + 8 ensures (k in m1 <==> k in m) && (k in m ==> m1[k] == m[k]) {
      OutsideStore(m, p, v, k);
    }
  }

  lemma OutsideStore(m: Mem, p: int, v: u64, k: int)
    requires Store64(m, p, v).Some? && !(p <= k < p + 8)
    ensures var m1 := Store64(m, p, v).value; (k in m1 <==> k in m) && (k in m ==> m1[k] == m[k])
  {
    hide LE64;
  }

  // ----- the whole program -----

  /** Places stay. */
  lemma {:induction false} LaterDecls(u: CompUnit, at: nat, ds: List<Decl>)
    requires ElabDecls(u, at, ds).Some? && NoVars(u.syms)
    ensures Later(u.syms, ElabDecls(u, at, ds).value.0.syms) && NoVars(ElabDecls(u, at, ds).value.0.syms)
    decreases ds
  {
    hide ElabDecl, Later, DeclSize, NoVars;
    LaterSelf(u.syms);
    if ds.Cons? {
      var v := ElabDecl(u, at, ds.head).value;
      DeclSymbols(u, at, ds.head);
      LaterDecls(v, at + DeclSize(v, ds.head), ds.tail);
      LaterTrans(u.syms, v.syms, ElabDecls(u, at, ds).value.0.syms);
    }
  }

  lemma PlacedLater(L: Lang, base: int, syms: Symbols, last: Symbols)
    requires Later(syms, last) && L.places == PlacesOf(base, last)
    ensures Placed(L, base, syms)
  {
    forall x | x in syms && PlaceOf(syms[x]).Some?
      ensures x in L.places && L.places[x] == Wrap(base + PlaceOf(syms[x]).value)
    {
      assert LaterSymbol(syms[x], last[x]);
    }
  }

  lemma {:induction false} UnitDone(L: Lang, base: int, u: CompUnit, at: nat, ds: List<Decl>)
    requires UnitAgrees(L, base, u) && ElabDecls(u, at, ds).Some?
      && L.places == PlacesOf(base, ElabDecls(u, at, ds).value.0.syms)
    ensures UnitAgrees(L.(globals := WithDecls(L.globals, ds)), base, ElabDecls(u, at, ds).value.0)
    decreases ds
  {
    hide UnitAgrees, ElabDecl, DeclSize, WithDecl, PlacesOf;
    if ds.Cons? {
      var v := ElabDecl(u, at, ds.head).value;
      var at1 := at + DeclSize(v, ds.head);
      UnitParts(L, base, u);
      DeclSymbols(u, at, ds.head);
      LaterDecls(v, at1, ds.tail);
      PlacedLater(L, base, v.syms, ElabDecls(v, at1, ds.tail).value.0.syms);
      UnitStep(L, base, u, at, ds.head);
      UnitDone(L.(globals := WithDecl(L.globals, ds.head)), base, v, at1, ds.tail);
    }
  }

  lemma UnitParts(L: Lang, base: int, u: CompUnit)
    requires UnitAgrees(L, base, u)
    ensures NoVars(u.syms)
  {
    hide Agrees, FnFrom;
  }

  lemma NothingYet(L: Lang, base: int)
    requires L.globals == NOTHING
    ensures UnitAgrees(L, base, NO_UNIT)
  {
    hide SymbolAgrees, FnFrom;
  }

  lemma UnitProgram(L: Lang, base: int, u: CompUnit)
    requires UnitAgrees(L, base, u)
    ensures ProgramAgrees(L, Program(base, u.fns))
  {
    hide Agrees, FnElaborated, Later, Named;
    forall f | f in u.fns ensures FnAgrees(L, base, L.globals.fns[f], u.fns[f]) {
      assert FnFrom(L, base, u.syms, L.globals.fns[f], u.fns[f]);
    }
  }

  /** Elaboration preserves meaning: in every program that the compiler accepts, what a function is compiled to does
      what the function as it is written means, for all arguments, memory and fuel, if no assignment or address goes
      through a cast but to a first word. */
  lemma ProgramMeans(ds: List<Decl>, base: int, f: Name, vs: seq<u64>, m: Mem, fuel: nat)
    requires ElabDecls(NO_UNIT, 0, ds).Some? && f in ElabDecls(NO_UNIT, 0, ds).value.0.fns
    requires StraightProgram(LangOf(base, ds, ElabDecls(NO_UNIT, 0, ds).value.0.syms))
    ensures var u := ElabDecls(NO_UNIT, 0, ds).value.0; var L := LangOf(base, ds, u.syms);
      f in L.globals.fns
      && RunFn(L, L.globals.fns[f], vs, m, fuel)
         == if |vs| != u.fns[f].arity then Wrong else EvalFn(Program(base, u.fns), u.fns[f], vs, m, fuel)
  {
    hide ElabDecls, StraightProgram, UnitAgrees, ProgramAgrees, PlacesOf, WithDecls, RunFn, EvalFn;
    var u := ElabDecls(NO_UNIT, 0, ds).value.0;
    var L := LangOf(base, ds, u.syms);
    NothingYet(Lang(NOTHING, L.places), base);
    UnitDone(Lang(NOTHING, L.places), base, NO_UNIT, 0, ds);
    UnitProgram(L, base, u);
    ProgramAt(L, Program(base, u.fns), f);
    RunSame(L, Program(base, u.fns), f, vs, m, fuel);
  }

  /** From the program as it is written to the processor: wherever the object code is loaded, calling a function returns
      with what the program means, stops where that faults, or runs for as many steps as fuel is given; all this unless
      a call is early, a load is misread, or an assignment or an address goes through a cast. */
  lemma ObjectRuns(bytes: seq<u8>, code: seq<Insn>, ds: List<Decl>, u: CompUnit, limit: nat, base: nat, f: Name,
                   below: seq<u64>, ret: u64, vs: seq<u64>, s: State, fuel: nat)
      returns (k: nat, t: State)
    requires Object(bytes, code, ds, u, limit) && !CalledEarly(NO_UNIT, 0, ds) && AllFnsEncodable(u.fns)
      && base + limit < TWO64 && StraightProgram(LangOf(base, ds, u.syms))
    requires f in u.fns && |vs| == u.fns[f].arity && f in u.syms && u.syms[f].FnSymbol?
      && Some(s.pc) == OffsetOf(u.syms[f])
    requires s.stack == below + [ret] && |vs| <= MAX_REGISTERS && forall i :: 0 <= i < |vs| ==> s.regs[8 + i] == vs[i]
    ensures f in LangOf(base, ds, u.syms).globals.fns
    ensures var L := LangOf(base, ds, u.syms);
      var o := RunFn(L, L.globals.fns[f], vs, s.mem, fuel);
      ByteRun(base, bytes, s, k) == Some(t)
      && (o.Fault? ==> ByteStep(base, bytes, t).None?)
      && (o.Timeout? ==> k >= fuel)
      && (o.Done? ==>
            t.pc == ret - base && t.stack == below && t.mem == o.value.1
            && (o.value.0.Some? ==> t.regs[8] == o.value.0.value))
  {
    ObjectIs(bytes, code, ds, u, limit);
    hide *;
    ProgramMeans(ds, base, f, vs, s.mem, fuel);
    k, t := ProgramCallOk(bytes, code, ds, u, limit, base, f, below, ret, vs, s, fuel);
  }

  lemma ObjectIs(bytes: seq<u8>, code: seq<Insn>, ds: List<Decl>, u: CompUnit, limit: nat)
    requires Object(bytes, code, ds, u, limit)
    ensures ElabDecls(NO_UNIT, 0, ds) == Some((u, |bytes|))
  {
    hide AllFinished, ElabDecls, Forwards, Compiled;
  }
}
