/** Where the compiler departs from what its source text suggests: exactly when an lvalue that was cast is stored at
    the right slot, or has its address taken, and which lvalues are results of calls. */
module Limits {
  import opened Words
  import opened X86
  import opened Encoder
  import opened Source
  import opened Codegen
  import opened Layout
  import opened Syntax
  import opened Parsing
  import opened Statements

  /** A cast, perhaps in parentheses. */
  predicate CastOnTop(e: Tree) {
    match e
    case TParen(a) => CastOnTop(a)
    case TCast(_, _) => true
    case _ => false
  }

  /** The slot that an lvalue designates: that of the load, or of the variable, that was compiled for it. */
  function Designated(el: Elaborated): nat
    requires IsLvalue(el)
  {
    if el.core.Field? then el.core.field else el.core.x
  }

  /** The slot an lvalue remembers, which an assignment or & uses, is the one it designates exactly if no cast is on top
      of it or that slot is 0. */
  lemma {:induction false} CastSlot(syms: Symbols, e: Tree, frame: nat)
    requires Elab(syms, e).Some? && IsLvalue(Elab(syms, e).value) && VarsWithin(syms, frame)
    ensures var el := Elab(syms, e).value;
      el.value.slot == Designated(el) <==> !CastOnTop(e) || Designated(el) == 0
    ensures var el := Elab(syms, e).value; CastOnTop(e) ==> el.value.slot == 0
    decreases e
  {
    match e
    case TParen(a) => CastSlot(syms, a, frame);
    case TName(x) => VarWithin(syms, frame, x);
    case _ =>
  }

  /** So an assignment stores where its left side designates exactly under that condition. */
  lemma AssignSlot(syms: Symbols, x: Tree, y: Tree, ret: Option<Type>, frame: nat)
    requires VarsWithin(syms, frame) && ElabStmt(syms, ret, TAssign(x, y)).Some?
    ensures Elab(syms, x).Some? && IsLvalue(Elab(syms, x).value)
    ensures var el, st := Elab(syms, x).value, ElabStmt(syms, ret, TAssign(x, y)).value;
      (if st.SetField? then st.field else if st.SetVar? then st.x else 0) == Designated(el)
      <==> !CastOnTop(x) || Designated(el) == 0
  {
    hide Elab, CastOnTop;
    AssignUnfold(Elab(syms, x).value, Elab(syms, y).value, ElabStmt(syms, ret, TAssign(x, y)).value);
    CastSlot(syms, x, frame);
  }

  /** p.b as u64 = 1, for the second field of a struct, is compiled to a store into the first one. */
  lemma CastExample()
    ensures var s, p, a, b := [115 as u8], [112 as u8], [97 as u8], [98 as u8];
      var fields := map[a := FieldSymbol(0, U64), b := FieldSymbol(1, U64)];
      var syms: Symbols := map[s := StructSymbol(fields, 2), p := VarSymbol(1, Type(Some(s), 1))];
      ElabStmt(syms, None, TAssign(TCast(TPath(TName(p), b), TypeTree(List.Nil, None)), TInt(1)))
      == Some(SetField(Var(1), 0, Lit(1)))
  {
    var s, p, a, b := [115 as u8], [112 as u8], [97 as u8], [98 as u8];
    assert s[0] != p[0] && a[0] != b[0];
    var fields := map[a := FieldSymbol(0, U64), b := FieldSymbol(1, U64)];
    var syms: Symbols := map[s := StructSymbol(fields, 2), p := VarSymbol(1, Type(Some(s), 1))];
    assert ElabName(syms, p) == Some(Elaborated(Var(1), Value(FromVariable, 1, Type(Some(s), 1))));
    assert FieldOf(syms, Type(Some(s), 1), b) == Some(FieldSymbol(1, U64));
    var path := TPath(TName(p), b);
    assert Elab(syms, TName(p)) == ElabName(syms, p);
    assert Elab(syms, path) == Some(Elaborated(Field(Var(1), 1), Value(FromAddress, 1, U64)));
    assert ElabType(syms, TypeTree(List.Nil, None)) == Some(U64);
    assert Elab(syms, TCast(path, TypeTree(List.Nil, None))) == Some(Elaborated(Field(Var(1), 1),
      Value(FromAddress, 0, U64)));
    assert Elab(syms, TInt(1)) == Some(Elaborated(Lit(1), Plain(U64)));
  }

  /** And so does the address that & computes: of a field, or of a variable. */
  lemma RefSlot(syms: Symbols, x: Tree, frame: nat)
    requires VarsWithin(syms, frame) && Elab(syms, TRef(x)).Some?
    ensures Elab(syms, x).Some? && IsLvalue(Elab(syms, x).value)
    ensures var el, core := Elab(syms, x).value, Elab(syms, TRef(x)).value.core;
      (if core.FieldAddr? then core.field else if core.VarAddr? then core.x else 0) == Designated(el)
      <==> !CastOnTop(x) || Designated(el) == 0
  {
    hide CastOnTop;
    CastSlot(syms, x, frame);
  }

  /** A call, perhaps cast or in parentheses. */
  predicate CallOnTop(e: Tree) {
    match e
    case TParen(a) => CallOnTop(a)
    case TCast(a, _) => CallOnTop(a)
    case TCall(_, _) => true
    case _ => false
  }

  /** The values that the compiler takes for variables, though they are results of calls, are those of calls, cast or
      not. */
  lemma {:induction false} CallValue(syms: Symbols, e: Tree)
    requires Elab(syms, e).Some?
    ensures Elab(syms, e).value.value.origin == FromCall <==>
      CallOnTop(e) && Elab(syms, e).value.value.origin != FromVoid
    decreases e
  {
    hide BinType, ElabType, FieldOf;
    match e
    case TParen(a) => CallValue(syms, a);
    case TCast(a, _) => CallValue(syms, a);
    case TRef(a) => RefValue(Elab(syms, a).value);
    case TName(x) => NameValue(syms, x);
    case _ =>
  }

  lemma RefValue(el: Elaborated)
    ensures ElabRef(el).Some? ==> ElabRef(el).value.value.origin == FromOther
  {
  }

  lemma NameValue(syms: Symbols, x: Name)
    ensures ElabName(syms, x).Some? ==> ElabName(syms, x).value.value.origin != FromCall
  {
  }

  /** Without a call on top, & refuses exactly what is not an lvalue, and an assignment, if the types agree, does so
      too; with one, both leave what this model follows. */
  lemma LvalueOrNot(syms: Symbols, e: Tree, r: Elaborated)
    requires Elab(syms, e).Some? && r.value.origin != FromVoid && Comparable(Elab(syms, e).value.value, r.value)
    ensures var el := Elab(syms, e).value;
      (ElabRef(el).Some? <==> IsLvalue(el)) && (ElabAssign(el, r).Some? <==> IsLvalue(el))
      && (CallOnTop(e) ==> !IsLvalue(el))
  {
    hide Elab, CallOnTop, Comparable;
    CallValue(syms, e);
  }
}
