/** A function with a result type leaves a result whenever it returns. */
module Results {
  import opened Words
  import opened X86
  import opened Source
  import opened Codegen
  import opened Preservation
  import opened Reachability
  import opened Syntax
  import opened Parsing
  import opened Functions

  /** No return without a value. */
  predicate Returning(s: Stmt)
    decreases s
  {
    match s
    case If(_, thn) => BlockReturns(thn)
    case IfElse(_, thn, els) => BlockReturns(thn) && BlockReturns(els)
    case While(_, body) => BlockReturns(body)
    case Loop(body) => BlockReturns(body)
    case Return => false
    case _ => true
  }

  predicate BlockReturns(ss: List<Stmt>)
    decreases ss
  {
    ss.Cons? ==> Returning(ss.head) && BlockReturns(ss.tail)
  }

  predicate ItemsReturn(items: List<Item>) {
    items.Cons? ==> (items.head.Do? ==> Returning(items.head.s)) && ItemsReturn(items.tail)
  }

  lemma {:induction false} TypedStmtReturns(syms: Symbols, ret: Type, s: StmtTree)
    requires ElabStmt(syms, Some(ret), s).Some?
    ensures Returning(ElabStmt(syms, Some(ret), s).value)
    decreases s
  {
    hide Elab, ElabBool, ElabAssign, HasType;
    match s
    case TAssign(l, r) => AssignReturns(Elab(syms, l).value, Elab(syms, r).value);
    case TIf(_, thn) => TypedBlockReturns(syms, ret, thn);
    case TIfElse(_, thn, els) =>
      TypedBlockReturns(syms, ret, thn);
      TypedBlockReturns(syms, ret, els);
    case TElseIf(_, thn, els) =>
      TypedBlockReturns(syms, ret, thn);
      TypedStmtReturns(syms, ret, els);
      OneReturns(ElabStmt(syms, Some(ret), els).value);
    case TWhile(_, body) => TypedBlockReturns(syms, ret, body);
    case TLoop(body) => TypedBlockReturns(syms, ret, body);
    case _ =>
  }

  lemma OneReturns(s: Stmt)
    requires Returning(s)
    ensures BlockReturns(List.Cons(s, List.Nil))
  {
    hide Returning;
    assert BlockReturns(List.Nil);
  }

  lemma {:induction false} JoinReturns(l: List<Item>, m: List<Item>)
    requires ItemsReturn(l) && ItemsReturn(m)
    ensures ItemsReturn(Join(l, m))
    decreases l
  {
    hide Returning;
    if l.Cons? { JoinReturns(l.tail, m); }
  }

  lemma OneItemReturns(i: Item)
    requires i.Do? ==> Returning(i.s)
    ensures ItemsReturn(List.Cons(i, List.Nil)) && ItemsReturn(List.Nil)
  {
    hide Returning;
    assert ItemsReturn(List.Nil);
  }

  lemma AssignReturns(l: Elaborated, r: Elaborated)
    ensures ElabAssign(l, r).Some? ==> Returning(ElabAssign(l, r).value)
  {
  }

  lemma {:induction false} TypedBlockReturns(syms: Symbols, ret: Type, ss: List<StmtTree>)
    requires ElabStmts(syms, Some(ret), ss).Some?
    ensures BlockReturns(ElabStmts(syms, Some(ret), ss).value)
    decreases ss
  {
    hide ElabStmt, Returning;
    if ss.Cons? {
      TypedStmtReturns(syms, ret, ss.head);
      TypedBlockReturns(syms, ret, ss.tail);
    }
  }

  lemma {:induction false} TypedItemsReturn(syms: Symbols, ret: Type, next: nat, items: List<ItemTree>)
    requires ElabItems(syms, Some(ret), next, items).Some?
    ensures ItemsReturn(ElabItems(syms, Some(ret), next, items).value.2)
    decreases items
  {
    hide Elab, ElabStmt, LetType, ElabType, Returning;
    if items.Cons? {
      var item := items.head;
      if item.TDo? { TypedStmtReturns(syms, ret, item.s); }
      var s := ElabItem(syms, Some(ret), next, item).value;
      TypedItemsReturn(s.0, ret, next + (if item.TLet? then 1 else 0), items.tail);
      OneItemReturns(if s.1.Cons? then s.1.head else Let(Lit(0)));
      JoinReturns(s.1, ElabItems(s.0, Some(ret), next + (if item.TLet? then 1 else 0), items.tail).value.2);
    }
  }

  lemma {:induction false} StmtReturns(P: Program, s: Stmt, vars: seq<u64>, m: Mem, fuel: nat)
    requires Returning(s)
    ensures var o := EvalStmt(P, s, vars, m, fuel); o.Done? && o.value.Returned? ==> o.value.v.Some?
    decreases fuel, s
  {
    hide EvalExpr, EvalOr, EvalArgs, EvalCall;
    if s.If? || s.IfElse? {
      var oc := EvalOr(P, s.c, vars, m, fuel);
      if oc.Done? {
        if oc.value.0 { BlockReturnsValue(P, s.thn, vars, oc.value.1, fuel); }
        else if s.IfElse? { BlockReturnsValue(P, s.els, vars, oc.value.1, fuel); }
      }
    } else if (s.While? || s.Loop?) && fuel > 0 {
      var m1 := m;
      if s.While? {
        var oc := EvalOr(P, s.c, vars, m, fuel);
        if oc.Done? { m1 := oc.value.1; }
      }
      BlockReturnsValue(P, s.body, vars, m1, fuel);
      var ob := EvalBlock(P, s.body, vars, m1, fuel);
      if ob.Done? && ob.value.Normal? {
        StmtReturns(P, s, ob.value.vars, ob.value.mem, fuel - 1);
      }
    }
  }

  lemma {:induction false} BlockReturnsValue(P: Program, ss: List<Stmt>, vars: seq<u64>, m: Mem, fuel: nat)
    requires BlockReturns(ss)
    ensures var o := EvalBlock(P, ss, vars, m, fuel); o.Done? && o.value.Returned? ==> o.value.v.Some?
    decreases fuel, ss
  {
    hide EvalStmt;
    if ss.Cons? {
      StmtReturns(P, ss.head, vars, m, fuel);
      var o := EvalStmt(P, ss.head, vars, m, fuel);
      if o.Done? && o.value.Normal? {
        BlockReturnsValue(P, ss.tail, o.value.vars, o.value.mem, fuel);
      }
    }
  }

  lemma {:induction false} ItemsReturnValue(P: Program, items: List<Item>, vars: seq<u64>, m: Mem, fuel: nat)
    requires ItemsReturn(items)
    ensures var o := EvalItems(P, items, vars, m, fuel); o.Done? && o.value.Returned? ==> o.value.v.Some?
    decreases items
  {
    hide EvalStmt, EvalExpr, Returning;
    if items.Cons? {
      match items.head
      case Let(e) =>
        var o := EvalExpr(P, e, vars, m, fuel);
        if o.Done? { ItemsReturnValue(P, items.tail, vars + [o.value.0], o.value.1, fuel); }
      case Do(s) =>
        StmtReturns(P, s, vars, m, fuel);
        var o := EvalStmt(P, s, vars, m, fuel);
        if o.Done? && o.value.Normal? { ItemsReturnValue(P, items.tail, o.value.vars, o.value.mem, fuel); }
    }
  }

  /** Every call that ends, of a function that the compiler accepts with a result type, has a result: it neither runs
      off the end of its body nor returns without a value. */
  lemma AcceptedFnReturns(u: CompUnit, at: nat, f: Name, ps: List<Param>, t: TypeTree, items: List<ItemTree>,
                          P: Program, vs: seq<u64>, m: Mem, fuel: nat)
    requires ElabFn(u, at, f, ps, Some(t), Items(items)).Some?
    ensures f in ElabFn(u, at, f, ps, Some(t), Items(items)).value.fns
    ensures var fn := ElabFn(u, at, f, ps, Some(t), Items(items)).value.fns[f];
      var o := EvalFn(P, fn, vs, m, fuel);
      o.Done? ==> o.value.0.Some?
  {
    hide ElabItems, EvalItems, ItemsReachable, ParamSymbols, ElabParams, ElabType, Distinct, HasParam, IsForward;
    var syms := u.syms[f := FnSymbol(Some(at), [], None)];
    var tys, ret := ElabParams(syms, ps).value, ElabRet(syms, Some(t)).value;
    var syms1 := u.syms[f := FnSymbol(Some(at), tys, ret)];
    var core := ElabItems(ParamSymbols(syms1, ps, tys), ret, |tys| + 1, items).value.2;
    TypedItemsReturn(ParamSymbols(syms1, ps, tys), ret.value, |tys| + 1, items);
    ItemsReturnValue(P, core, Reverse(vs), m, fuel);
    NoNormalItemsEnd(P, core, Reverse(vs), m, fuel);
  }
}
