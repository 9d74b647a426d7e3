/** The Toy language as it is written: what the trees of a program mean, with variables, fields, structs and functions
    by their names. */
module Language {
  import opened Words
  import opened X86
  import opened Source
  import opened Syntax

  // ----- what is declared -----

  /** A constant or a variable: its value and its type. */
  datatype Cell = Cell(v: u64, ty: Type)

  datatype Function = Function(params: List<Param>, ret: Option<TypeTree>, body: Body)

  /** The declarations of a program by name; a function declared forward is replaced by its definition. */
  datatype Globals = Globals(consts: map<Name, Cell>, structs: map<Name, List<Param>>, fns: map<Name, Function>)

  const NOTHING := Globals(map[], map[], map[])

  /** How many references a type is away from its base: && stands for two. */
  function References(ands: List<bool>): nat {
    if ands.Nil? then 0 else References(ands.tail) + if ands.head then 2 else 1
  }

  function TypeIs(t: TypeTree): Type { Type(t.base, References(t.ands)) }

  function WithDecl(g: Globals, d: Decl): Globals {
    match d
    case DConst(x, ty, v) => g.(consts := g.consts[x := Cell(v, TypeIs(ty))])
    case DStatic(_, _) => g
    case DStruct(x, fields) => g.(structs := g.structs[x := fields])
    case DFn(f, params, ret, body) => g.(fns := g.fns[f := Function(params, ret, body)])
  }

  function WithDecls(g: Globals, ds: List<Decl>): Globals
    decreases ds
  {
    if ds.Nil? then g else WithDecls(WithDecl(g, ds.head), ds.tail)
  }

  /** A program: its declarations, and the addresses of its static blocks and functions. */
  datatype Lang = Lang(globals: Globals, places: map<Name, u64>)

  /** The place of a field among those of its struct. */
  function FieldIndex(fields: List<Param>, x: Name): Option<nat> {
    if fields.Nil? then None
    else if fields.head.name == x then Some(0)
    else match FieldIndex(fields.tail, x) case None => None case Some(i) => Some(i + 1)
  }

  function FieldType(fields: List<Param>, x: Name): Type {
    if fields.Nil? then U64 else if fields.head.name == x then TypeIs(fields.head.ty) else FieldType(fields.tail, x)
  }

  function FieldsOf(L: Lang, ty: Type): List<Param> {
    if ty.base.Some? && ty.base.value in L.globals.structs then L.globals.structs[ty.base.value] else List.Nil
  }

  // ----- types -----

  type Types = map<Name, Type>

  function TypeOf(L: Lang, types: Types, e: Tree): Type
    decreases e
  {
    match e
    case TName(x) =>
      if x in types then types[x]
      else if x in L.globals.consts then L.globals.consts[x].ty
      else if x in L.globals.fns then U64
      else Type(None, 1)
    case TCall(f, _) =>
      if f in L.globals.fns && L.globals.fns[f].ret.Some? then TypeIs(L.globals.fns[f].ret.value) else U64
    case TParen(a) => TypeOf(L, types, a)
    case TPath(a, x) => FieldType(FieldsOf(L, TypeOf(L, types, a)), x)
    case TDeref(a) =>
      var ty := TypeOf(L, types, a);
      if ty.dim == 0 then U64 else Type(ty.base, ty.dim - 1)
    case TRef(a) => var ty := TypeOf(L, types, a); Type(ty.base, ty.dim + 1)
    case TCast(_, t) => TypeIs(t)
    case TBin(op, l, r) =>
      if op == TC_ADD || (op == TC_SUB && TypeOf(L, types, r).dim == 0) then TypeOf(L, types, l) else U64
    case _ => U64
  }

  // ----- expressions -----

  /** What an operator does to two words: + - * / & | << >>. Division faults by zero; a shift is by the low six bits. */
  ghost function Operate(op: nat, x: u64, y: u64): Option<u64> {
    if op == TC_ADD then Some((x + y) % TWO64)
    else if op == TC_SUB then Some((x - y) % TWO64)
    else if op == TC_MUL then Some((x * y) % TWO64)
    else if op == TC_DIV then if y == 0 then None else Some(ShiftedRight(x, y))
    else if op == TC_BIT_AND then Some(BitAnd(x, y))
    else if op == TC_BIT_OR then Some(Or64(x, y))
    else if op == TC_SHIFT_LEFT then Some((x * Pow2(y % 64)) % TWO64)
    else Some(ShiftedRight(x, Pow2(y % 64)))
  }

  /** The tree without the parentheses and the casts around it. */
  function Inner(e: Tree): Tree {
    match e
    case TParen(a) => Inner(a)
    case TCast(a, _) => Inner(a)
    case _ => e
  }

  type Vars = map<Name, u64>

  ghost function Loaded(a: u64, m: Mem): Outcome<(u64, Mem)> {
    var w := Load64(m, a);
    if w.None? then Fault else Done((w.value, m))
  }

  ghost function Meaning(L: Lang, types: Types, e: Tree, vars: Vars, m: Mem, fuel: nat): Outcome<(u64, Mem)>
    decreases fuel, 1, e, 1
  {
    match e
    case TInt(v) => Done((v, m))
    case TName(x) =>
      if x in vars then Done((vars[x], m))
      else if x in L.globals.consts then Done((L.globals.consts[x].v, m))
      else if x in L.places then Done((L.places[x], m))
      else Wrong
    case TCall(f, args) =>
      var (vs, m1) :- Meanings(L, types, args, vars, m, fuel);
      var (v, m2) :- Called(L, f, vs, m1, fuel);
      if v.None? then Wrong else Done((v.value, m2))
    case TSizeof(x) =>
      if x in L.globals.structs then Done(((8 * Count(L.globals.structs[x])) % TWO64, m)) else Wrong
    case TNull => Done((0, m))
    case TParen(a) => Meaning(L, types, a, vars, m, fuel)
    case TPath(_, _) =>
      var (a, m1) :- AddressOf(L, types, e, vars, m, fuel);
      Loaded(a, m1)
    case TDeref(_) =>
      var (a, m1) :- AddressOf(L, types, e, vars, m, fuel);
      Loaded(a, m1)
    case TRef(a) => AddressOf(L, types, a, vars, m, fuel)
    case TCast(a, _) => Meaning(L, types, a, vars, m, fuel)
    case TBin(op, l, r) =>
      var (x, m1) :- Meaning(L, types, l, vars, m, fuel);
      var (y, m2) :- Meaning(L, types, r, vars, m1, fuel);
      var z := Operate(op, x, y);
      if z.None? then Fault else Done((z.value, m2))
  }

  /** Where an lvalue is in memory; variables are not in memory here. Every field of a struct takes a word. */
  ghost function AddressOf(L: Lang, types: Types, e: Tree, vars: Vars, m: Mem, fuel: nat): Outcome<(u64, Mem)>
    decreases fuel, 1, e, 0
  {
    match e
    case TParen(a) => AddressOf(L, types, a, vars, m, fuel)
    case TCast(a, _) => AddressOf(L, types, a, vars, m, fuel)
    case TDeref(a) => Meaning(L, types, a, vars, m, fuel)
    case TPath(a, x) =>
      var (v, m1) :- Meaning(L, types, a, vars, m, fuel);
      var i := FieldIndex(FieldsOf(L, TypeOf(L, types, a)), x);
      if i.None? then Wrong else Done(((v + 8 * i.value) % TWO64, m1))
    case _ => Wrong
  }

  ghost function Meanings(L: Lang, types: Types, es: List<Tree>, vars: Vars, m: Mem, fuel: nat):
      Outcome<(seq<u64>, Mem)>
    decreases fuel, 1, es, 1
  {
    match es
    case Nil => Done(([], m))
    case Cons(e, rest) =>
      var (v, m1) :- Meaning(L, types, e, vars, m, fuel);
      var (vs, m2) :- Meanings(L, types, rest, vars, m1, fuel);
      Done(([v] + vs, m2))
  }

  // ----- functions -----

  function ParamTypes(params: List<Param>): Types {
    if params.Nil? then map[] else ParamTypes(params.tail)[params.head.name := TypeIs(params.head.ty)]
  }

  /** The arguments by the names of the parameters. */
  function Arguments(params: List<Param>, vs: seq<u64>): Vars {
    if params.Nil? || vs == [] then map[] else Arguments(params.tail, vs[1..])[params.head.name := vs[0]]
  }

  /** How a statement ends: before the next one, out of the loop, or out of the function. */
  datatype Ending = Next(vars: Vars, mem: Mem) | Out(vars: Vars, mem: Mem) | Back(v: Option<u64>, mem: Mem)

  ghost function Called(L: Lang, f: Name, vs: seq<u64>, m: Mem, fuel: nat): Outcome<(Option<u64>, Mem)>
    decreases fuel, 0
  {
    if fuel == 0 then Timeout else if f !in L.globals.fns then Wrong else RunFn(L, L.globals.fns[f], vs, m, fuel - 1)
  }

  ghost function RunFn(L: Lang, fn: Function, vs: seq<u64>, m: Mem, fuel: nat): Outcome<(Option<u64>, Mem)>
    decreases fuel, 9
  {
    if !fn.body.Items? || |vs| != Count(fn.params) then Wrong
    else
      var end :- DoesItems(L, ParamTypes(fn.params), fn.body.items, Arguments(fn.params, vs), m, fuel);
      match end
      case Next(_, m1) => Done((None, m1))
      case Back(v, m1) => Done((v, m1))
      case Out(_, _) => Wrong
  }

  // ----- conditions -----

  predicate Related(rel: RelToken, x: u64, y: u64) {
    match rel
    case 12 => x < y
    case 13 => x == y
    case 14 => y < x
    case 15 => x <= y
    case 16 => x != y
    case _ => y <= x
  }

  ghost function Compared(L: Lang, types: Types, c: CompTree, vars: Vars, m: Mem, fuel: nat): Outcome<(bool, Mem)>
    decreases fuel, 2
  {
    var (x, m1) :- Meaning(L, types, c.l, vars, m, fuel);
    var (y, m2) :- Meaning(L, types, c.r, vars, m1, fuel);
    Done((Related(c.rel, x, y), m2))
  }

  /** All of the comparisons, as far as they need to be looked at. */
  ghost function All(L: Lang, types: Types, cs: List<CompTree>, vars: Vars, m: Mem, fuel: nat): Outcome<(bool, Mem)>
    decreases fuel, 3, cs
  {
    match cs
    case Nil => Done((true, m))
    case Cons(c, rest) =>
      var (b, m1) :- Compared(L, types, c, vars, m, fuel);
      if b then All(L, types, rest, vars, m1, fuel) else Done((false, m1))
  }

  /** Any of the conjunctions. */
  ghost function Any(L: Lang, types: Types, ands: BoolTree, vars: Vars, m: Mem, fuel: nat): Outcome<(bool, Mem)>
    decreases fuel, 4, ands
  {
    match ands
    case Nil => Done((false, m))
    case Cons(a, rest) =>
      var (b, m1) :- All(L, types, a, vars, m, fuel);
      if b then Done((true, m1)) else Any(L, types, rest, vars, m1, fuel)
  }

  // ----- statements -----

  ghost function Does(L: Lang, types: Types, s: StmtTree, vars: Vars, m: Mem, fuel: nat): Outcome<Ending>
    decreases fuel, 5, s
  {
    match s
    case TAssign(l, r) =>
      if Inner(l).TName? then
        var (v, m1) :- Meaning(L, types, r, vars, m, fuel);
        Done(Next(vars[Inner(l).name := v], m1))
      else
        var (a, m1) :- AddressOf(L, types, l, vars, m, fuel);
        var (v, m2) :- Meaning(L, types, r, vars, m1, fuel);
        var m3 := Store64(m2, a, v);
        if m3.None? then Fault else Done(Next(vars, m3.value))
    case TEval(e) =>
      if Inner(e).TCall? then
        var (vs, m1) :- Meanings(L, types, Inner(e).args, vars, m, fuel);
        var (_, m2) :- Called(L, Inner(e).f, vs, m1, fuel);
        Done(Next(vars, m2))
      else
        var (_, m1) :- Meaning(L, types, e, vars, m, fuel);
        Done(Next(vars, m1))
    case TIf(c, thn) =>
      var (b, m1) :- Any(L, types, c, vars, m, fuel);
      if b then DoesAll(L, types, thn, vars, m1, fuel) else Done(Next(vars, m1))
    case TIfElse(c, thn, els) =>
      var (b, m1) :- Any(L, types, c, vars, m, fuel);
      if b then DoesAll(L, types, thn, vars, m1, fuel) else DoesAll(L, types, els, vars, m1, fuel)
    case TElseIf(c, thn, elseIf) =>
      var (b, m1) :- Any(L, types, c, vars, m, fuel);
      if b then DoesAll(L, types, thn, vars, m1, fuel) else Does(L, types, elseIf, vars, m1, fuel)
    case TWhile(c, body) =>
      if fuel == 0 then Timeout
      else
        var (b, m1) :- Any(L, types, c, vars, m, fuel);
        if !b then Done(Next(vars, m1))
        else
          var end :- DoesAll(L, types, body, vars, m1, fuel);
          match end {
            case Next(vars1, m2) => Does(L, types, s, vars1, m2, fuel - 1)
            case Out(vars1, m2) => Done(Next(vars1, m2))
            case Back(_, _) => Done(end)
          }
    case TLoop(body) =>
      if fuel == 0 then Timeout
      else
        var end :- DoesAll(L, types, body, vars, m, fuel);
        match end {
          case Next(vars1, m1) => Does(L, types, s, vars1, m1, fuel - 1)
          case Out(vars1, m1) => Done(Next(vars1, m1))
          case Back(_, _) => Done(end)
        }
    case TBreak => Done(Out(vars, m))
    case TReturn => Done(Back(None, m))
    case TReturnValue(e) =>
      var (v, m1) :- Meaning(L, types, e, vars, m, fuel);
      Done(Back(Some(v), m1))
  }

  ghost function DoesAll(L: Lang, types: Types, ss: List<StmtTree>, vars: Vars, m: Mem, fuel: nat): Outcome<Ending>
    decreases fuel, 5, ss
  {
    match ss
    case Nil => Done(Next(vars, m))
    case Cons(s, rest) =>
      var end :- Does(L, types, s, vars, m, fuel);
      if end.Next? then DoesAll(L, types, rest, end.vars, end.mem, fuel) else Done(end)
  }

  /** The type of a variable: the one it is given, or that of its value. */
  function GivenType(L: Lang, types: Types, given: Option<TypeTree>, e: Tree): Type {
    if given.Some? then TypeIs(given.value) else TypeOf(L, types, e)
  }

  /** A function body: constants and variables are there from their declaration on. */
  ghost function DoesItems(L: Lang, types: Types, items: List<ItemTree>, vars: Vars, m: Mem, fuel: nat): Outcome<Ending>
    decreases fuel, 6, items
  {
    match items
    case Nil => Done(Next(vars, m))
    case Cons(TConst(x, ty, v), rest) => DoesItems(L, types[x := TypeIs(ty)], rest, vars[x := v], m, fuel)
    case Cons(TLet(x, given, e), rest) =>
      var (v, m1) :- Meaning(L, types, e, vars, m, fuel);
      DoesItems(L, types[x := GivenType(L, types, given, e)], rest, vars[x := v], m1, fuel)
    case Cons(TDo(s), rest) =>
      var end :- Does(L, types, s, vars, m, fuel);
      if end.Next? then DoesItems(L, types, rest, end.vars, end.mem, fuel) else Done(end)
  }

  // ----- what the compiler gets wrong: an lvalue that is cast is taken for the first field -----

  predicate CastAround(e: Tree) { e.TCast? || (e.TParen? && CastAround(e.e)) }

  /** An lvalue without a cast on top, or one whose first word is meant. */
  predicate StraightPlace(L: Lang, types: Types, e: Tree) {
    CastAround(e) ==>
      Inner(e).TDeref?
      || (Inner(e).TPath? && FieldIndex(FieldsOf(L, TypeOf(L, types, Inner(e).e)), Inner(e).field) == Some(0))
  }

  predicate Straight(L: Lang, types: Types, e: Tree)
    decreases e
  {
    match e
    case TCall(_, args) => ArgsStraight(L, types, args)
    case TParen(a) => Straight(L, types, a)
    case TPath(a, _) => Straight(L, types, a)
    case TDeref(a) => Straight(L, types, a)
    case TRef(a) => Straight(L, types, a) && StraightPlace(L, types, a)
    case TCast(a, _) => Straight(L, types, a)
    case TBin(_, l, r) => Straight(L, types, l) && Straight(L, types, r)
    case _ => true
  }

  predicate ArgsStraight(L: Lang, types: Types, es: List<Tree>)
    decreases es
  {
    es.Cons? ==> Straight(L, types, es.head) && ArgsStraight(L, types, es.tail)
  }

  predicate AllStraight(L: Lang, types: Types, cs: List<CompTree>) {
    cs.Cons? ==>
      Straight(L, types, cs.head.l) && Straight(L, types, cs.head.r) && AllStraight(L, types, cs.tail)
  }

  predicate AnyStraight(L: Lang, types: Types, ands: BoolTree) {
    ands.Cons? ==> AllStraight(L, types, ands.head) && AnyStraight(L, types, ands.tail)
  }

  predicate StmtStraight(L: Lang, types: Types, s: StmtTree)
    decreases s
  {
    match s
    case TAssign(l, r) => Straight(L, types, l) && StraightPlace(L, types, l) && Straight(L, types, r)
    case TEval(e) => Straight(L, types, e)
    case TIf(c, thn) => AnyStraight(L, types, c) && BlockStraight(L, types, thn)
    case TIfElse(c, thn, els) =>
      AnyStraight(L, types, c) && BlockStraight(L, types, thn) && BlockStraight(L, types, els)
    case TElseIf(c, thn, els) =>
      AnyStraight(L, types, c) && BlockStraight(L, types, thn) && StmtStraight(L, types, els)
    case TWhile(c, body) => AnyStraight(L, types, c) && BlockStraight(L, types, body)
    case TLoop(body) => BlockStraight(L, types, body)
    case TReturnValue(e) => Straight(L, types, e)
    case _ => true
  }

  predicate BlockStraight(L: Lang, types: Types, ss: List<StmtTree>)
    decreases ss
  {
    ss.Cons? ==> StmtStraight(L, types, ss.head) && BlockStraight(L, types, ss.tail)
  }

  predicate ItemsStraight(L: Lang, types: Types, items: List<ItemTree>)
    decreases items
  {
    match items
    case Nil => true
    case Cons(TConst(x, ty, _), rest) => ItemsStraight(L, types[x := TypeIs(ty)], rest)
    case Cons(TLet(x, given, e), rest) =>
      Straight(L, types, e) && ItemsStraight(L, types[x := GivenType(L, types, given, e)], rest)
    case Cons(TDo(s), rest) => StmtStraight(L, types, s) && ItemsStraight(L, types, rest)
  }

  /** No function of the program assigns through a cast, or takes an address through one, but of a first word. */
  predicate StraightProgram(L: Lang) {
    forall f :: f in L.globals.fns && L.globals.fns[f].body.Items? ==>
      ItemsStraight(L, ParamTypes(L.globals.fns[f].params), L.globals.fns[f].body.items)
  }
}
