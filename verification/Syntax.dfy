/** The concrete grammar of expressions, statements and function bodies: tokens, parse trees, the tokens of a
    tree, and what the compiler makes of a tree given its symbol table (names resolved, types checked). */
module Syntax {
  import opened Words
  import opened X86
  import opened Source
  import opened Codegen

  // ----- tokens -----

  datatype Token = Int(v: u64) | Id(name: Name) | Tok(code: nat)

  const TC_END := 0
  const TC_ADD := 4
  const TC_SUB := 5
  const TC_MUL := 6
  const TC_DIV := 7
  const TC_BIT_AND := 8
  const TC_BIT_OR := 9
  const TC_SHIFT_LEFT := 10
  const TC_SHIFT_RIGHT := 11
  const TC_ASSIGN := 61
  const TC_LT := 12
  const TC_GE := 17
  const TC_AND := 18
  const TC_OR := 19
  const TC_ARROW := 20
  const TC_OPEN := 40
  const TC_CLOSE := 41
  const TC_COMMA := 44
  const TC_DOT := 46
  const TC_COLON := 58
  const TC_SEMICOLON := 59
  const TC_OPEN_BRACKET := 91
  const TC_CLOSE_BRACKET := 93
  const TC_OPEN_BLOCK := 123
  const TC_CLOSE_BLOCK := 125
  const TC_BREAK := 128
  const TC_CONST := 129
  const TC_ELSE := 130
  const TC_FN := 131
  const TC_IF := 132
  const TC_LET := 133
  const TC_LOOP := 134
  const TC_RETURN := 135
  const TC_STATIC := 136
  const TC_WHILE := 137
  const TC_AS := 138
  const TC_NULL := 139
  const TC_SIZEOF := 140
  const TC_STRUCT := 141
  const TC_U64 := 142

  // ----- parse trees -----

  /** A type: ampersands, some of them scanned in pairs as &&, and u64 or the name of a struct. */
  datatype TypeTree = TypeTree(ands: List<bool>, base: Option<Name>)

  datatype Tree =
    | TInt(v: u64)
    | TName(name: Name)
    | TCall(f: Name, args: List<Tree>)
    | TSizeof(name: Name)
    | TNull
    | TParen(e: Tree)
    | TPath(e: Tree, field: Name)
    | TDeref(e: Tree)
    | TRef(e: Tree)
    | TCast(e: Tree, ty: TypeTree)
    | TBin(op: nat, l: Tree, r: Tree)

  datatype CompTree = CompTree(rel: RelToken, l: Tree, r: Tree)

  type BoolTree = List<List<CompTree>>

  datatype StmtTree =
    | TAssign(l: Tree, r: Tree)
    | TEval(e: Tree)
    | TIf(c: BoolTree, thn: List<StmtTree>)
    | TIfElse(c: BoolTree, thn: List<StmtTree>, els: List<StmtTree>)
    | TElseIf(c: BoolTree, thn: List<StmtTree>, elseIf: StmtTree)
    | TWhile(c: BoolTree, body: List<StmtTree>)
    | TLoop(body: List<StmtTree>)
    | TBreak
    | TReturn
    | TReturnValue(e: Tree)

  datatype ItemTree =
    | TConst(name: Name, ty: TypeTree, v: u64)
    | TLet(name: Name, given: Option<TypeTree>, e: Tree)
    | TDo(s: StmtTree)

  /** The binding strength of an operator: 4 for * and /, 5 for + and -, 6 for << and >>, 7 for &, 8 for |. */
  function OpLevel(op: nat): nat {
    if op == TC_MUL || op == TC_DIV then 4
    else if op == TC_ADD || op == TC_SUB then 5
    else if op == TC_SHIFT_LEFT || op == TC_SHIFT_RIGHT then 6
    else if op == TC_BIT_AND then 7
    else if op == TC_BIT_OR then 8
    else 9
  }

  /** The grammar rule a tree comes from: 0 primitive_expr, 1 path_expr, 2 pointer_expr, 3 cast_expr, and then
      the levels of the operators. */
  function Rule(e: Tree): nat {
    match e
    case TPath(_, _) => 1
    case TDeref(_) => 2
    case TRef(_) => 2
    case TCast(_, _) => 3
    case TBin(op, _, _) => OpLevel(op)
    case _ => 0
  }

  /** The operands of every node come from the rules the grammar allows: operators associate to the left, except
      shifts, which do not associate. */
  predicate Grammatical(e: Tree)
    decreases e
  {
    match e
    case TCall(_, args) => GrammaticalArgs(args)
    case TParen(a) => Grammatical(a)
    case TPath(a, _) => Grammatical(a) && Rule(a) <= 1
    case TDeref(a) => Grammatical(a) && Rule(a) <= 2
    case TRef(a) => Grammatical(a) && Rule(a) <= 1
    case TCast(a, _) => Grammatical(a) && Rule(a) <= 2
    case TBin(op, l, r) =>
      OpLevel(op) <= 8 && Grammatical(l) && Grammatical(r) && Rule(r) < OpLevel(op)
      && if OpLevel(op) == 6 then Rule(l) < 6 else Rule(l) <= OpLevel(op)
    case _ => true
  }

  predicate GrammaticalArgs(es: List<Tree>)
    decreases es
  {
    es.Cons? ==> Grammatical(es.head) && GrammaticalArgs(es.tail)
  }

  predicate GrammaticalComp(c: CompTree) { Grammatical(c.l) && Rule(c.l) <= 8 && Grammatical(c.r) && Rule(c.r) <= 8 }

  predicate GrammaticalAnd(cs: List<CompTree>) {
    cs.Cons? && GrammaticalComp(cs.head) && (cs.tail.Cons? ==> GrammaticalAnd(cs.tail))
  }

  predicate GrammaticalBool(ands: BoolTree) {
    ands.Cons? && GrammaticalAnd(ands.head) && (ands.tail.Cons? ==> GrammaticalBool(ands.tail))
  }

  predicate GrammaticalStmt(s: StmtTree)
    decreases s
  {
    match s
    case TAssign(l, r) => Grammatical(l) && Rule(l) <= 8 && Grammatical(r) && Rule(r) <= 8
    case TEval(e) => Grammatical(e) && Rule(e) <= 8
    case TIf(c, thn) => GrammaticalBool(c) && GrammaticalBlock(thn)
    case TIfElse(c, thn, els) => GrammaticalBool(c) && GrammaticalBlock(thn) && GrammaticalBlock(els)
    case TElseIf(c, thn, els) => GrammaticalBool(c) && GrammaticalBlock(thn) && GrammaticalStmt(els) && IsIf(els)
    case TWhile(c, body) => GrammaticalBool(c) && GrammaticalBlock(body)
    case TLoop(body) => GrammaticalBlock(body)
    case TReturnValue(e) => Grammatical(e) && Rule(e) <= 8
    case _ => true
  }

  predicate GrammaticalBlock(ss: List<StmtTree>)
    decreases ss
  {
    ss.Cons? ==> GrammaticalStmt(ss.head) && GrammaticalBlock(ss.tail)
  }

  predicate IsIf(s: StmtTree) { s.TIf? || s.TIfElse? || s.TElseIf? }

  predicate GrammaticalItem(item: ItemTree) {
    match item
    case TConst(_, _, _) => true
    case TLet(_, _, e) => Grammatical(e) && Rule(e) <= 8
    case TDo(s) => GrammaticalStmt(s)
  }

  // ----- the tokens of a tree -----

  function PrintAnds(ands: List<bool>): seq<Token> {
    if ands.Nil? then [] else [Tok(if ands.head then TC_AND else TC_BIT_AND)] + PrintAnds(ands.tail)
  }

  function PrintType(t: TypeTree): seq<Token> {
    PrintAnds(t.ands) + [if t.base.None? then Tok(TC_U64) else Id(t.base.value)]
  }

  function Print(e: Tree): seq<Token>
    decreases e
  {
    match e
    case TInt(v) => [Int(v)]
    case TName(x) => [Id(x)]
    case TCall(f, args) => [Id(f), Tok(TC_OPEN)] + PrintArgs(args) + [Tok(TC_CLOSE)]
    case TSizeof(x) => [Tok(TC_SIZEOF), Tok(TC_OPEN), Id(x), Tok(TC_CLOSE)]
    case TNull => [Tok(TC_NULL)]
    case TParen(a) => [Tok(TC_OPEN)] + Print(a) + [Tok(TC_CLOSE)]
    case TPath(a, f) => Print(a) + [Tok(TC_DOT), Id(f)]
    case TDeref(a) => [Tok(TC_MUL)] + Print(a)
    case TRef(a) => [Tok(TC_BIT_AND)] + Print(a)
    case TCast(a, t) => Print(a) + [Tok(TC_AS)] + PrintType(t)
    case TBin(op, l, r) => Print(l) + [Tok(op)] + Print(r)
  }

  function PrintArgs(es: List<Tree>): seq<Token>
    decreases es
  {
    match es
    case Nil => []
    case Cons(e, Nil) => Print(e)
    case Cons(e, rest) => Print(e) + [Tok(TC_COMMA)] + PrintArgs(rest)
  }

  function PrintComp(c: CompTree): seq<Token> { Print(c.l) + [Tok(c.rel)] + Print(c.r) }

  function PrintAnd(cs: List<CompTree>): seq<Token> {
    match cs
    case Nil => []
    case Cons(c, Nil) => PrintComp(c)
    case Cons(c, rest) => PrintComp(c) + [Tok(TC_AND)] + PrintAnd(rest)
  }

  function PrintBool(ands: BoolTree): seq<Token> {
    match ands
    case Nil => []
    case Cons(a, Nil) => PrintAnd(a)
    case Cons(a, rest) => PrintAnd(a) + [Tok(TC_OR)] + PrintBool(rest)
  }

  function PrintStmt(s: StmtTree): seq<Token>
    decreases s
  {
    match s
    case TAssign(l, r) => Print(l) + [Tok(TC_ASSIGN)] + Print(r) + [Tok(TC_SEMICOLON)]
    case TEval(e) => Print(e) + [Tok(TC_SEMICOLON)]
    case TIf(c, thn) => [Tok(TC_IF)] + PrintBool(c) + PrintBlock(thn)
    case TIfElse(c, thn, els) => [Tok(TC_IF)] + PrintBool(c) + PrintBlock(thn) + [Tok(TC_ELSE)] + PrintBlock(els)
    case TElseIf(c, thn, els) => [Tok(TC_IF)] + PrintBool(c) + PrintBlock(thn) + [Tok(TC_ELSE)] + PrintStmt(els)
    case TWhile(c, body) => [Tok(TC_WHILE)] + PrintBool(c) + PrintBlock(body)
    case TLoop(body) => [Tok(TC_LOOP)] + PrintBlock(body)
    case TBreak => [Tok(TC_BREAK), Tok(TC_SEMICOLON)]
    case TReturn => [Tok(TC_RETURN), Tok(TC_SEMICOLON)]
    case TReturnValue(e) => [Tok(TC_RETURN)] + Print(e) + [Tok(TC_SEMICOLON)]
  }

  function PrintBlock(ss: List<StmtTree>): seq<Token>
    decreases ss, 1
  {
    [Tok(TC_OPEN_BLOCK)] + PrintStmts(ss) + [Tok(TC_CLOSE_BLOCK)]
  }

  function PrintStmts(ss: List<StmtTree>): seq<Token>
    decreases ss, 0
  {
    if ss.Nil? then [] else PrintStmt(ss.head) + PrintStmts(ss.tail)
  }

  function PrintItem(item: ItemTree): seq<Token> {
    match item
    case TConst(x, ty, v) =>
      [Tok(TC_CONST), Id(x), Tok(TC_COLON)] + PrintType(ty) + [Tok(TC_ASSIGN), Int(v), Tok(TC_SEMICOLON)]
    case TLet(x, None, e) => [Tok(TC_LET), Id(x), Tok(TC_ASSIGN)] + Print(e) + [Tok(TC_SEMICOLON)]
    case TLet(x, Some(ty), e) =>
      [Tok(TC_LET), Id(x), Tok(TC_COLON)] + PrintType(ty) + [Tok(TC_ASSIGN)] + Print(e) + [Tok(TC_SEMICOLON)]
    case TDo(s) => PrintStmt(s)
  }

  function PrintItems(items: List<ItemTree>): seq<Token> {
    if items.Nil? then [] else PrintItem(items.head) + PrintItems(items.tail)
  }

  // ----- symbols and values -----

  datatype Type = Type(base: Option<Name>, dim: nat)

  const U64: Type := Type(None, 0)

  datatype FieldSymbol = FieldSymbol(slot: nat, ty: Type)

  datatype Symbol =
    | FnSymbol(target: Option<nat>, params: seq<Type>, ret: Option<Type>)   // no target: declared forward
    | VarSymbol(x: nat, ty: Type)
    | ConstSymbol(v: u64, ty: Type)
    | StaticSymbol(offset: nat)
    | StructSymbol(fields: map<Name, FieldSymbol>, size: nat)

  type Symbols = map<Name, Symbol>

  /** Where a value comes from. The compiler gives the result of a call the origin of a variable; here it is kept
      apart, to tell the assignments to a call result and the addresses of one. */
  datatype Origin = FromAddress | FromVariable | FromCall | FromNull | FromVoid | FromOther

  datatype Value = Value(origin: Origin, slot: nat, ty: Type)

  function Plain(ty: Type): Value { Value(FromOther, 0, ty) }

  /** value_type_check. */
  predicate HasType(v: Value, ty: Type) { (v.origin == FromNull && ty.dim != 0) || v.ty == ty }

  /** tc_check_comparison_expr. */
  predicate Comparable(l: Value, r: Value) { (l.ty.dim != 0 && r.origin == FromNull) || l.ty == r.ty }

  predicate AllHaveTypes(vs: seq<Value>, tys: seq<Type>) {
    |vs| == |tys| && forall i :: 0 <= i < |vs| ==> vs[i].origin != FromVoid && HasType(vs[i], tys[i])
  }

  // ----- elaboration: what the compiler makes of a tree -----

  datatype Elaborated = Elaborated(core: Expr, value: Value)

  function Dim(ands: List<bool>): nat {
    if ands.Nil? then 0 else (if ands.head then 2 else 1) + Dim(ands.tail)
  }

  function ElabType(syms: Symbols, t: TypeTree): Option<Type> {
    var dim := Dim(t.ands);
    if t.base.None? then Some(Type(None, dim))
    else if dim != 0 && t.base.value in syms && syms[t.base.value].StructSymbol? then Some(Type(t.base, dim))
    else None
  }

  function ElabName(syms: Symbols, x: Name): Option<Elaborated> {
    if x !in syms then None
    else
      match syms[x]
      case VarSymbol(v, ty) => Some(Elaborated(Var(v), Value(FromVariable, v, ty)))
      case ConstSymbol(v, ty) => Some(Elaborated(Lit(v), Plain(ty)))
      case StaticSymbol(o) => Some(Elaborated(Address(o), Plain(Type(None, 1))))
      case FnSymbol(Some(t), _, _) => Some(Elaborated(Address(t), Plain(U64)))
      case _ => None
  }

  function ResultValue(ret: Option<Type>): Value {
    if ret.None? then Value(FromVoid, 0, U64) else Value(FromCall, 0, ret.value)
  }

  function FieldOf(syms: Symbols, ty: Type, field: Name): Option<FieldSymbol> {
    if ty.dim == 1 && ty.base.Some? && ty.base.value in syms && syms[ty.base.value].StructSymbol?
       && field in syms[ty.base.value].fields
    then Some(syms[ty.base.value].fields[field])
    else None
  }

  /** tc_check_integer_expr and tc_check_add_or_sub_expr: the type of the result of an operator. */
  function BinType(op: nat, l: Type, r: Type): Option<Type> {
    if op == TC_ADD || op == TC_SUB then
      if r.dim == 0 then Some(l)
      else if op == TC_SUB && l.dim != 0 && l == r then Some(U64)
      else None
    else if l == U64 && r == U64 then Some(U64)
    else None
  }

  function OpOf(op: nat): BinOp {
    if op == TC_ADD then Plus else if op == TC_SUB then Minus else if op == TC_MUL then Times
    else if op == TC_DIV then Quotient else if op == TC_BIT_AND then Conj else if op == TC_BIT_OR then Disj
    else if op == TC_SHIFT_LEFT then LeftShift else RightShift
  }

  /** & applied to a value: the load that produced it is erased, and its address computed from the slot that the
      value remembers. A call is not an lvalue here. */
  function ElabRef(e: Elaborated): Option<Elaborated> {
    var v := e.value;
    var ty := Type(v.ty.base, v.ty.dim + 1);
    if v.origin == FromAddress && e.core.Field? then Some(Elaborated(FieldAddr(e.core.e, v.slot), Plain(ty)))
    else if v.origin == FromVariable && e.core.Var? then Some(Elaborated(VarAddr(v.slot), Plain(ty)))
    else None
  }

  function Elab(syms: Symbols, e: Tree): Option<Elaborated>
    decreases e
  {
    match e
    case TInt(v) => Some(Elaborated(Lit(v), Plain(U64)))
    case TName(x) => ElabName(syms, x)
    case TSizeof(x) =>
      if x in syms && syms[x].StructSymbol? then Some(Elaborated(Lit(Wrap(syms[x].size * 8)), Plain(U64))) else None
    case TNull => Some(Elaborated(Lit(0), Value(FromNull, 0, U64)))
    case TParen(a) => Elab(syms, a)
    case TCall(f, args) =>
      var vs := ElabArgs(syms, args);
      if f in syms && syms[f].FnSymbol? && vs.Some? && AllHaveTypes(vs.value.1, syms[f].params)
      then Some(Elaborated(Apply(f, vs.value.0), ResultValue(syms[f].ret)))
      else None
    case TPath(a, field) =>
      var s := Elab(syms, a);
      if s.None? || s.value.value.origin == FromVoid then None
      else
        var fs := FieldOf(syms, s.value.value.ty, field);
        if fs.None? then None
        else Some(Elaborated(Field(s.value.core, fs.value.slot), Value(FromAddress, fs.value.slot, fs.value.ty)))
    case TDeref(a) =>
      var s := Elab(syms, a);
      if s.None? || s.value.value.origin == FromVoid || s.value.value.ty.dim == 0 then None
      else
        Some(Elaborated(Field(s.value.core, 0),
                        Value(FromAddress, 0, Type(s.value.value.ty.base, s.value.value.ty.dim - 1))))
    case TRef(a) =>
      var s := Elab(syms, a);
      if s.None? then None else ElabRef(s.value)
    case TCast(a, t) =>
      var s, ty := Elab(syms, a), ElabType(syms, t);
      if s.None? || ty.None? || s.value.value.origin == FromVoid then None
      else
        var origin := s.value.value.origin;
        Some(Elaborated(s.value.core, Value(if origin == FromNull then FromOther else origin, 0, ty.value)))
    case TBin(op, l, r) =>
      var sl, sr := Elab(syms, l), Elab(syms, r);
      if sl.None? || sr.None? || sl.value.value.origin == FromVoid || sr.value.value.origin == FromVoid then None
      else
        var ty := BinType(op, sl.value.value.ty, sr.value.value.ty);
        if ty.None? then None else Some(Elaborated(Bin(OpOf(op), sl.value.core, sr.value.core), Plain(ty.value)))
  }

  function ElabArgs(syms: Symbols, es: List<Tree>): (r: Option<(List<Expr>, seq<Value>)>)
    decreases es
  {
    match es
    case Nil => Some((List.Nil, []))
    case Cons(e, rest) =>
      var s, ss := Elab(syms, e), ElabArgs(syms, rest);
      if s.None? || ss.None? then None else Some((List.Cons(s.value.core, ss.value.0), [s.value.value] + ss.value.1))
  }

  function ElabComp(syms: Symbols, c: CompTree): Option<Comparison> {
    var l, r := Elab(syms, c.l), Elab(syms, c.r);
    if l.Some? && r.Some? && l.value.value.origin != FromVoid && r.value.value.origin != FromVoid
       && Comparable(l.value.value, r.value.value)
    then Some(Comparison(c.rel, l.value.core, r.value.core))
    else None
  }

  function ElabAnd(syms: Symbols, cs: List<CompTree>): Option<List<Comparison>> {
    match cs
    case Nil => Some(List.Nil)
    case Cons(c, rest) =>
      var s, ss := ElabComp(syms, c), ElabAnd(syms, rest);
      if s.None? || ss.None? then None else Some(List.Cons(s.value, ss.value))
  }

  function ElabBool(syms: Symbols, ands: BoolTree): Option<BoolExpr> {
    match ands
    case Nil => Some(List.Nil)
    case Cons(a, rest) =>
      var s, ss := ElabAnd(syms, a), ElabBool(syms, rest);
      if s.None? || ss.None? then None else Some(List.Cons(s.value, ss.value))
  }

  /** An assignment: the load of the left side is erased and the value stored in the slot it remembers. */
  function ElabAssign(l: Elaborated, r: Elaborated): Option<Stmt> {
    if r.value.origin == FromVoid || !Comparable(l.value, r.value) then None
    else if l.value.origin == FromAddress && l.core.Field? then Some(SetField(l.core.e, l.value.slot, r.core))
    else if l.value.origin == FromVariable && l.core.Var? then Some(SetVar(l.value.slot, r.core))
    else None
  }

  function ElabStmt(syms: Symbols, ret: Option<Type>, s: StmtTree): Option<Stmt>
    decreases s
  {
    match s
    case TAssign(l, r) =>
      var sl, sr := Elab(syms, l), Elab(syms, r);
      if sl.None? || sr.None? then None else ElabAssign(sl.value, sr.value)
    case TEval(e) =>
      var se := Elab(syms, e);
      if se.None? then None else Some(Eval(se.value.core))
    case TIf(c, thn) =>
      var sc, st := ElabBool(syms, c), ElabStmts(syms, ret, thn);
      if sc.None? || st.None? then None else Some(If(sc.value, st.value))
    case TIfElse(c, thn, els) =>
      var sc, st, se := ElabBool(syms, c), ElabStmts(syms, ret, thn), ElabStmts(syms, ret, els);
      if sc.None? || st.None? || se.None? then None else Some(IfElse(sc.value, st.value, se.value))
    case TElseIf(c, thn, els) =>
      var sc, st, se := ElabBool(syms, c), ElabStmts(syms, ret, thn), ElabStmt(syms, ret, els);
      if sc.None? || st.None? || se.None? then None
      else Some(IfElse(sc.value, st.value, List.Cons(se.value, List.Nil)))
    case TWhile(c, body) =>
      var sc, sb := ElabBool(syms, c), ElabStmts(syms, ret, body);
      if sc.None? || sb.None? then None else Some(While(sc.value, sb.value))
    case TLoop(body) =>
      var sb := ElabStmts(syms, ret, body);
      if sb.None? then None else Some(Loop(sb.value))
    case TBreak => Some(Break)
    case TReturn => if ret.None? then Some(Return) else None
    case TReturnValue(e) =>
      var se := Elab(syms, e);
      if se.None? || ret.None? || se.value.value.origin == FromVoid || !HasType(se.value.value, ret.value) then None
      else Some(ReturnValue(se.value.core))
  }

  function ElabStmts(syms: Symbols, ret: Option<Type>, ss: List<StmtTree>): Option<List<Stmt>>
    decreases ss
  {
    match ss
    case Nil => Some(List.Nil)
    case Cons(s, rest) =>
      var e, es := ElabStmt(syms, ret, s), ElabStmts(syms, ret, rest);
      if e.None? || es.None? then None else Some(List.Cons(e.value, es.value))
  }

  /** The type of a let: the declared one if there is one, which the value must have, or else that of the value. */
  function LetType(syms: Symbols, ty: Option<TypeTree>, v: Value): Option<Type> {
    if v.origin == FromVoid then None
    else if ty.None? then if v.origin == FromNull then None else Some(v.ty)
    else
      var t := ElabType(syms, ty.value);
      if t.Some? && HasType(v, t.value) then t else None
  }

  /** The symbols after an item, and its code if it has any; `next` numbers the next variable. */
  function ElabItem(syms: Symbols, ret: Option<Type>, next: nat, item: ItemTree): Option<(Symbols, List<Item>)> {
    match item
    case TConst(x, t, v) =>
      var ty := ElabType(syms, t);
      if ty.None? || x in syms then None else Some((syms[x := ConstSymbol(v, ty.value)], List.Nil))
    case TLet(x, t, e) =>
      var se := Elab(syms, e);
      if se.None? || x in syms then None
      else
        var ty := LetType(syms, t, se.value.value);
        if ty.None? then None else Some((syms[x := VarSymbol(next, ty.value)], List.Cons(Let(se.value.core), List.Nil)))
    case TDo(s) =>
      var ss := ElabStmt(syms, ret, s);
      if ss.None? then None else Some((syms, List.Cons(Do(ss.value), List.Nil)))
  }

  function Join<T>(l: List<T>, m: List<T>): List<T> { if l.Nil? then m else List.Cons(l.head, Join(l.tail, m)) }

  /** The symbols after the items, the number of the next variable, and the code of the items. */
  function ElabItems(syms: Symbols, ret: Option<Type>, next: nat, items: List<ItemTree>): Option<(Symbols, nat,
                     List<Item>)>
    decreases items
  {
    match items
    case Nil => Some((syms, next, List.Nil))
    case Cons(item, rest) =>
      var s := ElabItem(syms, ret, next, item);
      if s.None? then None
      else
        var more := ElabItems(s.value.0, ret, next + (if item.TLet? then 1 else 0), rest);
        if more.None? then None else Some((more.value.0, more.value.1, Join(s.value.1, more.value.2)))
  }

  // ----- functions -----

  predicate IsForward(s: Symbol) { s.FnSymbol? && s.target.None? }

  function Forwards(syms: Symbols): set<Name> { set f | f in syms && IsForward(syms[f]) }

  /** Where calls go: to the code of a function, or to the chain of its name if it is declared forward. */
  function EnvOf(syms: Symbols): Env {
    map f | f in syms && syms[f].FnSymbol? && syms[f].target.Some? :: At(syms[f].target.value)
  }

  // ----- programs -----

  datatype Param = Param(name: Name, ty: TypeTree)

  datatype Body = Declared | Asm(bytes: List<u64>) | Items(items: List<ItemTree>)

  datatype Decl =
    | DConst(name: Name, ty: TypeTree, v: u64)
    | DStatic(name: Name, bytes: List<u64>)
    | DStruct(name: Name, fields: List<Param>)
    | DFn(name: Name, params: List<Param>, ret: Option<TypeTree>, body: Body)

  function PrintParams(ps: List<Param>): seq<Token> {
    match ps
    case Nil => []
    case Cons(p, Nil) => PrintParam(p)
    case Cons(p, rest) => PrintParam(p) + [Tok(TC_COMMA)] + PrintParams(rest)
  }

  function PrintParam(p: Param): seq<Token> { [Id(p.name), Tok(TC_COLON)] + PrintType(p.ty) }

  function PrintBytes(bs: List<u64>): seq<Token> {
    match bs
    case Nil => []
    case Cons(b, Nil) => [Int(b)]
    case Cons(b, rest) => [Int(b), Tok(TC_COMMA)] + PrintBytes(rest)
  }

  function PrintRet(ret: Option<TypeTree>): seq<Token> {
    if ret.None? then [] else [Tok(TC_ARROW)] + PrintType(ret.value)
  }

  function PrintBody(b: Body): seq<Token> {
    match b
    case Declared => [Tok(TC_SEMICOLON)]
    case Asm(bytes) => [Tok(TC_OPEN_BRACKET)] + PrintBytes(bytes) + [Tok(TC_CLOSE_BRACKET)]
    case Items(items) => [Tok(TC_OPEN_BLOCK)] + PrintItems(items) + [Tok(TC_CLOSE_BLOCK)]
  }

  function PrintDecl(d: Decl): seq<Token> {
    match d
    case DConst(x, ty, v) => PrintItem(TConst(x, ty, v))
    case DStatic(x, bytes) =>
      [Tok(TC_STATIC), Id(x), Tok(TC_ASSIGN), Tok(TC_OPEN_BRACKET)] + PrintBytes(bytes) + [Tok(TC_CLOSE_BRACKET),
        Tok(TC_SEMICOLON)]
    case DStruct(x, fields) => [Tok(TC_STRUCT), Id(x), Tok(TC_OPEN_BLOCK)] + PrintParams(fields) + [Tok(TC_CLOSE_BLOCK)]
    case DFn(f, params, ret, body) =>
      [Tok(TC_FN), Id(f), Tok(TC_OPEN)] + PrintParams(params) + [Tok(TC_CLOSE)] + PrintRet(ret) + PrintBody(body)
  }

  function PrintDecls(ds: List<Decl>): seq<Token> {
    if ds.Nil? then [] else PrintDecl(ds.head) + PrintDecls(ds.tail)
  }

  predicate GrammaticalItems(items: List<ItemTree>) {
    items.Cons? ==> GrammaticalItem(items.head) && GrammaticalItems(items.tail)
  }

  predicate GrammaticalDecl(d: Decl) {
    match d
    case DStatic(_, bytes) => bytes.Cons?
    case DFn(_, _, _, Items(items)) => GrammaticalItems(items)
    case _ => true
  }

  predicate HasParam(ps: List<Param>, x: Name) { ps.Cons? && (ps.head.name == x || HasParam(ps.tail, x)) }

  predicate Distinct(ps: List<Param>) { ps.Cons? ==> !HasParam(ps.tail, ps.head.name) && Distinct(ps.tail) }

  function ElabParams(syms: Symbols, ps: List<Param>): Option<seq<Type>> {
    match ps
    case Nil => Some([])
    case Cons(p, rest) =>
      var ty, tys := ElabType(syms, p.ty), ElabParams(syms, rest);
      if ty.None? || tys.None? then None else Some([ty.value] + tys.value)
  }

  function Names(ps: List<Param>): seq<Name> { if ps.Nil? then [] else [ps.head.name] + Names(ps.tail) }

  /** Slots by field name, counted from k. */
  function FieldMap(names: seq<Name>, tys: seq<Type>, k: nat): map<Name, FieldSymbol> {
    if names == [] || tys == [] then map[]
      else FieldMap(names[1..], tys[1..], k + 1)[names[0] := FieldSymbol(k, tys[0])]
  }

  /** The parameters as variables: the first has the highest number. */
  function ParamSymbols(syms: Symbols, ps: List<Param>, tys: seq<Type>): Symbols {
    if ps.Nil? || tys == [] then syms
    else ParamSymbols(syms, ps.tail, tys[1..])[ps.head.name := VarSymbol(|tys|, tys[0])]
  }

  function ElabRet(syms: Symbols, ret: Option<TypeTree>): Option<Option<Type>> {
    if ret.None? then Some(None)
    else
      var ty := ElabType(syms, ret.value);
      if ty.None? then None else Some(Some(ty.value))
  }

  /** The compilation unit so far: its symbols, the functions that have a body of statements, and where the calls of
      other functions in each of them go now. */
  datatype CompUnit = CompUnit(syms: Symbols, fns: map<Name, Fn>, links: map<Name, Env>)

  const NO_UNIT := CompUnit(map[], map[], map[])

  /** Once function f is declared at offset `at`, the calls that waited for it go there. */
  function Relinked(links: map<Name, Env>, f: Name, at: nat): map<Name, Env> {
    map g | g in links :: if f in links[g] then links[g] else links[g][f := At(at)]
  }

  /** The unit after a function whose code starts at offset `at`. Its name must be new, or declared forward with the
      same types; a function with a result must not reach its end. Calls that waited for the function are resolved,
      even if it is only declared forward again. */
  function ElabFn(u: CompUnit, at: nat, f: Name, ps: List<Param>, r: Option<TypeTree>, body: Body): Option<CompUnit> {
    if !(f !in u.syms || IsForward(u.syms[f])) || !Distinct(ps) then None
    else
      var syms := u.syms[f := FnSymbol(Some(at), [], None)];
      var tys, ret := ElabParams(syms, ps), ElabRet(syms, r);
      if tys.None? || ret.None? then None
      else if f in u.syms && !(u.syms[f].params == tys.value && u.syms[f].ret == ret.value) then None
      else
        var syms1, links := u.syms[f := FnSymbol(Some(at), tys.value, ret.value)], Relinked(u.links, f, at);
        match body
        case Declared => Some(CompUnit(u.syms[f := FnSymbol(None, tys.value, ret.value)], u.fns, links))
        case Asm(_) => Some(CompUnit(syms1, u.fns, links))
        case Items(items) =>
          var n := |tys.value|;
          if exists p :: p in syms1 && HasParam(ps, p) then None
          else
            var its := ElabItems(ParamSymbols(syms1, ps, tys.value), ret.value, n + 1, items);
            if its.None? || (ret.value.Some? && ItemsReachable(its.value.2)) then None
            else Some(CompUnit(syms1, u.fns[f := Fn(n, its.value.2)], links[f := EnvOf(syms1)]))
  }

  /** The unit after a declaration at offset `at` of the code. */
  function ElabDecl(u: CompUnit, at: nat, d: Decl): Option<CompUnit> {
    match d
    case DConst(x, t, v) =>
      var ty := ElabType(u.syms, t);
      if ty.None? || x in u.syms then None else Some(u.(syms := u.syms[x := ConstSymbol(v, ty.value)]))
    case DStatic(x, _) => if x in u.syms then None else Some(u.(syms := u.syms[x := StaticSymbol(at)]))
    case DStruct(x, fields) =>
      var tys := ElabParams(u.syms[x := StructSymbol(map[], 0)], fields);
      if tys.None? || x in u.syms || !Distinct(fields) then None
      else Some(u.(syms := u.syms[x := StructSymbol(FieldMap(Names(fields), tys.value, 0), |tys.value|)]))
    case DFn(f, ps, ret, body) => ElabFn(u, at, f, ps, ret, body)
  }

  predicate GrammaticalDecls(ds: List<Decl>) { ds.Cons? ==> GrammaticalDecl(ds.head) && GrammaticalDecls(ds.tail) }

  function Count<T>(l: List<T>): nat { if l.Nil? then 0 else 1 + Count(l.tail) }

  /** How much code a declaration adds to a unit that it turns into u. */
  function DeclSize(u: CompUnit, d: Decl): nat {
    match d
    case DStatic(_, bytes) => Count(bytes)
    case DFn(f, _, _, Asm(bytes)) => Count(bytes)
    case DFn(f, _, _, Items(_)) => if f in u.fns then SizeOf(GenFn(map[], u.fns[f], 0)) else 0
    case _ => 0
  }

  /** The unit of a whole program, whose code starts at offset `at`. */
  function ElabDecls(u: CompUnit, at: nat, ds: List<Decl>): Option<(CompUnit, nat)>
    decreases ds
  {
    match ds
    case Nil => Some((u, at))
    case Cons(d, rest) =>
      var v := ElabDecl(u, at, d);
      if v.None? then None else ElabDecls(v.value, at + DeclSize(v.value, d), rest)
  }
}
