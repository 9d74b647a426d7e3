/** What the compiler calls unreachable is never reached: a statement it classifies so does not end normally,
    and a loop without a break of its own is left by no break. */
module Reachability {
  import opened Words
  import opened X86
  import opened Source
  import opened Codegen

  lemma {:induction false} NoBreakOut(P: Program, s: Stmt, vars: seq<u64>, m: Mem, fuel: nat)
    requires !StmtBreaks(s)
    ensures var o := EvalStmt(P, s, vars, m, fuel); o.Done? ==> !o.value.Broke?
    decreases fuel, s
  {
    hide EvalExpr, EvalOr, EvalArgs, EvalCall;
    if s.If? || s.IfElse? {
      var oc := EvalOr(P, s.c, vars, m, fuel);
      if oc.Done? {
        if oc.value.0 { NoBreakOutOfBlock(P, s.thn, vars, oc.value.1, fuel); }
        else if s.IfElse? { NoBreakOutOfBlock(P, s.els, vars, oc.value.1, fuel); }
      }
    } else if s.While? || s.Loop? {
      NoBreakOutOfLoop(P, s, vars, m, fuel);
    }
  }

  lemma NoBreakOutOfLoop(P: Program, s: Stmt, vars: seq<u64>, m: Mem, fuel: nat)
    requires s.While? || s.Loop?
    ensures var o := EvalStmt(P, s, vars, m, fuel); o.Done? ==> !o.value.Broke?
    decreases fuel, s, 0
  {
    hide EvalExpr, EvalOr, EvalBlock;
    if fuel > 0 {
      var m1 := m;
      if s.While? {
        var oc := EvalOr(P, s.c, vars, m, fuel);
        if oc.Done? { m1 := oc.value.1; }
      }
      var ob := EvalBlock(P, s.body, vars, m1, fuel);
      if ob.Done? && ob.value.Normal? {
        NoBreakOutOfLoop(P, s, ob.value.vars, ob.value.mem, fuel - 1);
      }
    }
  }

  lemma {:induction false} NoBreakOutOfBlock(P: Program, ss: List<Stmt>, vars: seq<u64>, m: Mem, fuel: nat)
    requires !Breaks(ss)
    ensures var o := EvalBlock(P, ss, vars, m, fuel); o.Done? ==> !o.value.Broke?
    decreases fuel, ss
  {
    hide EvalStmt;
    if ss.Cons? {
      NoBreakOut(P, ss.head, vars, m, fuel);
      var o := EvalStmt(P, ss.head, vars, m, fuel);
      if o.Done? && o.value.Normal? {
        NoBreakOutOfBlock(P, ss.tail, o.value.vars, o.value.mem, fuel);
      }
    }
  }

  lemma {:induction false} NoNormalEnd(P: Program, s: Stmt, vars: seq<u64>, m: Mem, fuel: nat)
    requires !Reachable(s)
    ensures var o := EvalStmt(P, s, vars, m, fuel); o.Done? ==> !o.value.Normal?
    decreases fuel, s
  {
    hide EvalExpr, EvalOr, EvalArgs, EvalCall;
    if s.IfElse? {
      var oc := EvalOr(P, s.c, vars, m, fuel);
      if oc.Done? {
        if oc.value.0 { NoNormalBlockEnd(P, s.thn, vars, oc.value.1, fuel); }
        else { NoNormalBlockEnd(P, s.els, vars, oc.value.1, fuel); }
      }
    } else if s.Loop? && fuel > 0 {
      NoBreakOutOfBlock(P, s.body, vars, m, fuel);
      var ob := EvalBlock(P, s.body, vars, m, fuel);
      if ob.Done? && ob.value.Normal? {
        NoNormalEnd(P, s, ob.value.vars, ob.value.mem, fuel - 1);
      }
    }
  }

  lemma {:induction false} NoNormalBlockEnd(P: Program, ss: List<Stmt>, vars: seq<u64>, m: Mem, fuel: nat)
    requires !BlockReachable(ss)
    ensures var o := EvalBlock(P, ss, vars, m, fuel); o.Done? ==> !o.value.Normal?
    decreases fuel, ss
  {
    hide EvalStmt;
    var o := EvalStmt(P, ss.head, vars, m, fuel);
    if !Reachable(ss.head) {
      NoNormalEnd(P, ss.head, vars, m, fuel);
    } else if o.Done? && o.value.Normal? {
      NoNormalBlockEnd(P, ss.tail, o.value.vars, o.value.mem, fuel);
    }
  }

  /** A function body whose end is classified unreachable leaves only by a return. */
  lemma {:induction false} NoNormalItemsEnd(P: Program, items: List<Item>, vars: seq<u64>, m: Mem, fuel: nat)
    requires !ItemsReachable(items)
    ensures var o := EvalItems(P, items, vars, m, fuel); o.Done? ==> !o.value.Normal?
    decreases items
  {
    hide EvalStmt, EvalExpr;
    match items.head
    case Let(e) =>
      var o := EvalExpr(P, e, vars, m, fuel);
      if o.Done? {
        NoNormalItemsEnd(P, items.tail, vars + [o.value.0], o.value.1, fuel);
      }
    case Do(s) =>
      var o := EvalStmt(P, s, vars, m, fuel);
      if !Reachable(s) {
        NoNormalEnd(P, s, vars, m, fuel);
      } else if o.Done? && o.value.Normal? {
        NoNormalItemsEnd(P, items.tail, o.value.vars, o.value.mem, fuel);
      }
  }
}
