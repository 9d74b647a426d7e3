/** How the one-pass compiler writes function bodies, and why the code of a function that is compiled early stays
    right while later functions, which it may call, are added and resolved. */
module Functions {
  import opened Words
  import opened X86
  import opened Encoder
  import opened Source
  import opened Codegen
  import opened Sizes
  import opened Preservation
  import opened Layout
  import opened Linking
  import opened Patching
  import opened Syntax
  import opened Parsing
  import opened Conditions
  import opened Statements
  import opened Encodings

  // ----- items -----

  /** Tokens i to j are those of the items, which take symbols syms0 and variable number next0 to syms and next. */
  ghost predicate ItemsDerive(ts: seq<Token>, syms0: Symbols, ret: Option<Type>, next0: nat, i: nat, j: nat,
                              items: List<ItemTree>, syms: Symbols, next: nat, core: List<Item>) {
    && i <= j <= |ts| && ts[i..j] == PrintItems(items) && GrammaticalItems(items)
    && ElabItems(syms0, ret, next0, items) == Some((syms, next, core))
  }

  ghost predicate ItemDerives(ts: seq<Token>, syms: Symbols, ret: Option<Type>, next: nat, i: nat, j: nat,
                              item: ItemTree, syms1: Symbols, core: List<Item>) {
    Read(ts, i, j, PrintItem(item)) && GrammaticalItem(item) && ElabItem(syms, ret, next, item) == Some((syms1, core))
  }

  ghost predicate ItemsCoded(env: Env, a: View, b: View, core: List<Item>) {
    && b.values == a.values && b.reg == 0 && b.frame == a.frame + Lets(core) && ItemsFit(core)
    && b.code == a.code + GenItems(env, core, SizeOf(a.code), a.frame)
  }

  lemma NoItemsYet(ts: seq<Token>, syms: Symbols, ret: Option<Type>, next: nat, env: Env, a: View)
    requires a.pos <= |ts| && a.reg == 0
    ensures ItemsDerive(ts, syms, ret, next, a.pos, a.pos, List.Nil, syms, next, List.Nil)
      && ItemsCoded(env, a, a, List.Nil)
  {
    hide SizeOf;
  }

  lemma {:induction false} ItemsSnoc(syms0: Symbols, ret: Option<Type>, next0: nat, items: List<ItemTree>,
                                     item: ItemTree)
    requires ElabItems(syms0, ret, next0, items).Some? && GrammaticalItems(items) && GrammaticalItem(item)
    requires var r := ElabItems(syms0, ret, next0, items).value; ElabItem(r.0, ret, r.1, item).Some?
    ensures GrammaticalItems(Snoc(items, item)) && PrintItems(Snoc(items, item)) == PrintItems(items) + PrintItem(item)
    ensures var r := ElabItems(syms0, ret, next0, items).value;
      var e := ElabItem(r.0, ret, r.1, item).value;
      ElabItems(syms0, ret, next0, Snoc(items, item)) == Some((e.0, r.1 + (if item.TLet? then 1 else 0),
        Join(r.2, e.1)))
    decreases items
  {
    hide GrammaticalItem, PrintItem, ElabItem;
    if items.Cons? {
      var s := ElabItem(syms0, ret, next0, items.head).value;
      var n := next0 + (if items.head.TLet? then 1 else 0);
      ItemsSnoc(s.0, ret, n, items.tail, item);
      var r := ElabItems(s.0, ret, n, items.tail).value;
      JoinAssoc(s.1, r.2, ElabItem(r.0, ret, r.1, item).value.1);
    } else {
      ItemsOne(syms0, ret, next0, item);
    }
  }

  lemma ItemsOne(syms: Symbols, ret: Option<Type>, next: nat, item: ItemTree)
    requires ElabItem(syms, ret, next, item).Some? && GrammaticalItem(item)
    ensures var l := List.Cons(item, List.Nil); GrammaticalItems(l) && PrintItems(l) == PrintItem(item)
    ensures var e := ElabItem(syms, ret, next, item).value;
      ElabItems(syms, ret, next, List.Cons(item, List.Nil)) == Some((e.0, next + (if item.TLet? then 1 else 0), e.1))
  {
    hide GrammaticalItem, PrintItem, ElabItem;
    JoinNil(ElabItem(syms, ret, next, item).value.1);
    var n := next + (if item.TLet? then 1 else 0);
    var s := ElabItem(syms, ret, next, item).value;
    assert ElabItems(s.0, ret, n, List.Nil) == Some((s.0, n, List.Nil));
  }

  lemma {:induction false} JoinNil<T>(l: List<T>)
    ensures Join(l, List.Nil) == l
    decreases l
  {
    if l.Cons? { JoinNil(l.tail); }
  }

  lemma {:induction false} JoinAssoc<T>(l: List<T>, m: List<T>, n: List<T>)
    ensures Join(l, Join(m, n)) == Join(Join(l, m), n)
    decreases l
  {
    if l.Cons? { JoinAssoc(l.tail, m, n); }
  }

  lemma {:induction false} JoinOne<T>(l: List<T>, x: T)
    ensures Join(l, List.Cons(x, List.Nil)) == Snoc(l, x)
    decreases l
  {
    if l.Cons? { JoinOne(l.tail, x); }
  }

  lemma ItemsDeriveSnoc(ts: seq<Token>, syms0: Symbols, ret: Option<Type>, next0: nat, i: nat, j: nat, k: nat,
                        items: List<ItemTree>, syms: Symbols, next: nat, core: List<Item>, item: ItemTree,
                          syms1: Symbols, more: List<Item>)
    requires ItemsDerive(ts, syms0, ret, next0, i, j, items, syms, next, core)
    requires ItemDerives(ts, syms, ret, next, j, k, item, syms1, more)
    ensures ItemsDerive(ts, syms0, ret, next0, i, k, Snoc(items, item), syms1, next + (if item.TLet? then 1 else 0),
      Join(core, more))
  {
    hide GrammaticalItem, PrintItem, ElabItem, GrammaticalItems, PrintItems, ElabItems;
    ItemsSnoc(syms0, ret, next0, items, item);
    Split(ts, i, j, k);
  }

  lemma {:induction false} GenItemsSnoc(env: Env, items: List<Item>, item: Item, pc: int, fs: nat)
    ensures GenItems(env, Snoc(items, item), pc, fs)
      == GenItems(env, items, pc, fs) + GenItem(env, item, pc + SizeOf(GenItems(env, items, pc, fs)), fs + Lets(items))
    ensures Lets(Snoc(items, item)) == Lets(items) + (if item.Let? then 1 else 0)
    decreases items
  {
    hide GenItem, ItemSize, SizeOf;
    if items.Cons? {
      var pc1, fs1 := pc + ItemSize(items.head, fs), fs + (if items.head.Let? then 1 else 0);
      GenItemsSnoc(env, items.tail, item, pc1, fs1);
      SizeOfConcat(GenItem(env, items.head, pc, fs), GenItems(env, items.tail, pc1, fs1));
      GenItemSize(env, items.head, pc, fs);
    } else {
      SizeOfNone();
    }
  }

  lemma {:induction false} ItemsSnocFacts(items: List<Item>, item: Item)
    ensures ItemsFit(Snoc(items, item)) <==> ItemsFit(items) && ItemFits(item)
    ensures ItemsReachable(Snoc(items, item)) <==> ItemsReachable(items) && (item.Do? ==> Reachable(item.s))
    decreases items
  {
    hide ItemFits, Reachable;
    if items.Cons? { ItemsSnocFacts(items.tail, item); }
  }

  lemma ItemsCodedSnoc(env: Env, a: View, b: View, c: View, core: List<Item>, item: Item)
    requires ItemsCoded(env, a, b, core) && ItemFits(item)
    requires c.values == b.values && c.reg == 0 && c.frame == b.frame + (if item.Let? then 1 else 0)
    requires c.code == b.code + GenItem(env, item, SizeOf(b.code), b.frame)
    ensures ItemsCoded(env, a, c, Snoc(core, item))
  {
    hide GenItems, GenItem, SizeOf, ItemFits, ItemsFit, Lets;
    GenItemsSnoc(env, core, item, SizeOf(a.code), a.frame);
    ItemsSnocFacts(core, item);
    SizeOfConcat(a.code, GenItems(env, core, SizeOf(a.code), a.frame));
  }

  lemma ItemsCodedFacts(env: Env, a: View, b: View, core: List<Item>)
    requires ItemsCoded(env, a, b, core)
    ensures b.values == a.values && b.reg == 0 && b.frame == a.frame + Lets(core) && ItemsFit(core)
    ensures b.code == a.code + GenItems(env, core, SizeOf(a.code), a.frame)
  {
    hide GenItems, SizeOf, ItemsFit, Lets;
  }

  lemma DoCoded(syms: Symbols, env: Env, a: View, b: View, c: View, core: List<Item>, st: Stmt)
    requires ItemsCoded(env, a, b, core) && StmtCoded(syms, b, c, st, 0) && EnvOf(syms) == env
    ensures ItemsCoded(env, a, c, Snoc(core, Do(st)))
    ensures ItemsReachable(Snoc(core, Do(st))) <==> ItemsReachable(core) && Reachable(st)
  {
    hide GenItems, GenStmt, SizeOf, ItemsFit, Lets, EnvOf, StmtFits, StmtBreaks, Reachable, ItemsReachable, ItemsCoded;
    ItemsSnocFacts(core, Do(st));
    ItemsCodedFacts(env, a, b, core);
    ItemsCodedSnoc(env, a, b, c, core, Do(st));
  }

  lemma DerivesDo(ts: seq<Token>, syms: Symbols, ret: Option<Type>, next: nat, i: nat, j: nat, s: StmtTree, st: Stmt)
    requires StmtDerives(ts, syms, ret, i, j, s, st)
    ensures ItemDerives(ts, syms, ret, next, i, j, TDo(s), syms, List.Cons(Do(st), List.Nil))
  {
    hide Read, PrintStmt, GrammaticalStmt, ElabStmt;
  }

  lemma DerivesConst(ts: seq<Token>, syms: Symbols, ret: Option<Type>, next: nat, i: nat, j: nat, x: Name,
                     t: TypeTree, ty: Type, v: u64)
    requires Read(ts, i, j, PrintItem(TConst(x, t, v))) && ElabType(syms, t) == Some(ty) && x !in syms
    ensures ItemDerives(ts, syms, ret, next, i, j, TConst(x, t, v), syms[x := ConstSymbol(v, ty)], List.Nil)
  {
    hide Read, PrintItem, ElabType;
  }

  lemma DerivesLet(ts: seq<Token>, syms: Symbols, ret: Option<Type>, next: nat, i: nat, j: nat, x: Name,
                   t: Option<TypeTree>, e: Tree, el: Elaborated, ty: Type)
    requires Read(ts, i, j, PrintItem(TLet(x, t, e))) && Grammatical(e) && Rule(e) <= 8 && Elab(syms, e) == Some(el)
    requires x !in syms && LetType(syms, t, el.value) == Some(ty)
    ensures ItemDerives(ts, syms, ret, next, i, j, TLet(x, t, e), syms[x := VarSymbol(next, ty)],
      List.Cons(Let(el.core), List.Nil))
  {
    hide Read, PrintItem, LetType, Elab, Grammatical, Rule;
  }

  // ----- functions -----

  /** The code of a function: entering, its items, and returning if its end is reachable. */
  lemma FnCode(env: Env, base: seq<Insn>, arity: nat, core: List<Item>)
    ensures var enter := base + SaveInsns(arity);
      base + GenFn(env, Fn(arity, core), SizeOf(base))
      == enter + GenItems(env, core, SizeOf(enter), arity)
         + (if ItemsReachable(core) then ReturnInsns(arity + Lets(core)) else [])
  {
    hide GenItems, SizeOf, SaveInsns, ReturnInsns, Lets, ItemsReachable;
    SizeOfConcat(base, SaveInsns(arity));
    SaveInsnsSize(arity);
    var pc := SizeOf(base);
    var its, leave := GenItems(env, core, pc + 2 * arity, arity), if ItemsReachable(core)
      then ReturnInsns(arity + Lets(core)) else [];
    assert base + (SaveInsns(arity) + its + leave) == base + SaveInsns(arity) + its + leave;
  }

  /** Where the functions compiled so far are. */
  ghost predicate FnsPlaced(env: Env, code: seq<Insn>, fns: map<Name, Fn>) {
    forall f :: f in fns ==> FnPlaced(env, code, f, fns[f])
  }

  ghost predicate FnPlaced(env: Env, code: seq<Insn>, f: Name, fn: Fn) {
    f in env && env[f].At? && env[f].offset >= 0 && FnFits(fn)
    && Segment(code, env[f].offset, GenFn(env, fn, env[f].offset))
  }

  lemma SegmentMore(code: seq<Insn>, more: seq<Insn>, pc: nat, part: seq<Insn>)
    requires Segment(code, pc, part)
    ensures Segment(code + more, pc, part)
  {
    hide SizeOf;
    var a, c :| code == a + part + c && SizeOf(a) == pc;
    assert code + more == a + part + (c + more);
  }

  /** The functions compiled so far: the code of each is at its offset, with its calls going where its links say; a
      definition is never repeated; and all the code is encodable exactly if that of the functions is. */
  ghost predicate Compiled(syms: Symbols, links: map<Name, Env>, code: seq<Insn>, fns: map<Name, Fn>) {
    (forall f :: f in fns ==>
      CompiledFn(syms, links, code, f, fns[f])) && (AllEncodable(code) <==> AllFnsEncodable(fns))
  }

  predicate AllFnsEncodable(fns: map<Name, Fn>) { forall f :: f in fns ==> FnEncodable(fns[f]) }

  ghost predicate CompiledFn(syms: Symbols, links: map<Name, Env>, code: seq<Insn>, f: Name, fn: Fn) {
    && f in syms && syms[f].FnSymbol? && syms[f].target.Some? && f in links && AllKnown(links[f])
    && f in links[f] && links[f][f] == At(syms[f].target.value) && FnPlaced(links[f], code, f, fn)
  }

  lemma CompiledMore(syms: Symbols, links: map<Name, Env>, code: seq<Insn>, more: seq<Insn>, fns: map<Name, Fn>)
    requires Compiled(syms, links, code, fns) && AllEncodable(more)
    ensures Compiled(syms, links, code + more, fns)
  {
    hide SizeOf, GenFn, FnFits, Segment, AllKnown, AllEncodable, AllFnsEncodable;
    EncodableConcat(code, more);
    forall f | f in fns ensures CompiledFn(syms, links, code + more, f, fns[f]) {
      assert CompiledFn(syms, links, code, f, fns[f]);
      SegmentMore(code, more, links[f][f].offset, GenFn(links[f], fns[f], links[f][f].offset));
    }
  }

  /** Symbols that are new or forward do not matter. */
  lemma CompiledDefine(syms: Symbols, links: map<Name, Env>, code: seq<Insn>, fns: map<Name, Fn>, f: Name, sym: Symbol)
    requires Compiled(syms, links, code, fns) && (f in syms ==> IsForward(syms[f]))
    ensures Compiled(syms[f := sym], links, code, fns)
  {
    hide FnPlaced, AllKnown, AllEncodable, AllFnsEncodable;
    forall g | g in fns ensures CompiledFn(syms[f := sym], links, code, g, fns[g]) {
      assert CompiledFn(syms, links, code, g, fns[g]);
    }
  }

  /** One more function, whose code is the end of the code. */
  lemma CompiledLast(syms: Symbols, links: map<Name, Env>, base: seq<Insn>, fns: map<Name, Fn>, f: Name, fn: Fn)
    requires f in syms && syms[f].FnSymbol? && syms[f].target == Some(SizeOf(base)) && FnFits(fn) && f !in fns
    requires Compiled(syms, links, base, fns)
    ensures Compiled(syms, links[f := EnvOf(syms)], base + GenFn(EnvOf(syms), fn, SizeOf(base)), fns[f := fn])
  {
    hide SizeOf, GenFn, FnFits, Segment, AllKnown, AllEncodable, FnEncodable;
    EnvOfKnown(syms);
    EnvAt(syms, f);
    var env, all := EnvOf(syms), fns[f := fn];
    var code, links1 := GenFn(env, fn, SizeOf(base)), links[f := EnvOf(syms)];
    FnEncoded(env, fn, SizeOf(base));
    EncodableConcat(base, code);
    OneMoreEncodable(fns, f, fn);
    LastSegment(base, code);
    forall g | g in all ensures CompiledFn(syms, links1, base + code, g, all[g]) {
      if g != f {
        assert CompiledFn(syms, links, base, g, fns[g]);
        SegmentMore(base, code, links[g][g].offset, GenFn(links[g], fns[g], links[g][g].offset));
      }
    }
  }

  lemma OneMoreEncodable(fns: map<Name, Fn>, f: Name, fn: Fn)
    requires f !in fns
    ensures AllFnsEncodable(fns[f := fn]) <==> AllFnsEncodable(fns) && FnEncodable(fn)
  {
    hide FnEncodable;
    var all := fns[f := fn];
    if AllFnsEncodable(all) {
      assert FnEncodable(all[f]);
      forall g | g in fns ensures FnEncodable(fns[g]) { assert FnEncodable(all[g]); }
    }
  }

  /** A function with a new or forward name is not one of those compiled. */
  lemma NotCompiled(syms: Symbols, links: map<Name, Env>, code: seq<Insn>, fns: map<Name, Fn>, f: Name)
    requires Compiled(syms, links, code, fns) && (f in syms ==> IsForward(syms[f]))
    ensures f !in fns
  {
    hide FnPlaced, AllKnown;
    assert f in fns ==> CompiledFn(syms, links, code, f, fns[f]);
  }

  lemma LastSegment(base: seq<Insn>, part: seq<Insn>)
    ensures Segment(base + part, SizeOf(base), part)
  {
    assert base + part == base + part + [];
  }

  lemma SegmentSubst(code: seq<Insn>, pc: nat, part: seq<Insn>, l: Label, t: Target)
    requires Segment(code, pc, part)
    ensures Segment(Subst(code, l, t), pc, Subst(part, l, t))
  {
    hide SizeOf, Subst;
    var a, c :| code == a + part + c && SizeOf(a) == pc;
    SubstConcat3(a, part, c, l, t);
    SubstSize(a, l, t);
    assert Subst(code, l, t) == Subst(a, l, t) + Subst(part, l, t) + Subst(c, l, t);
  }

  /** Resolving the calls that wait for a function. */
  lemma CompiledResolved(syms: Symbols, links: map<Name, Env>, code: seq<Insn>, fns: map<Name, Fn>, f: Name, at: nat)
    requires Compiled(syms, links, code, fns)
    ensures Compiled(syms, Relinked(links, f, at), Subst(code, Forward(f), At(at)), fns)
  {
    hide Segment, GenFn, FnFits, Subst, SizeOf, AllKnown, AllEncodable, AllFnsEncodable;
    var l, links1 := Forward(f), Relinked(links, f, at);
    SubstEncodable(code, l, at);
    forall g | g in fns ensures CompiledFn(syms, links1, Subst(code, l, At(at)), g, fns[g]) {
      assert CompiledFn(syms, links, code, g, fns[g]);
      assert links1[g] == SubEnv(links[g], l, at);
      SubKnown(links[g], l, at);
      SegmentSubst(code, links[g][g].offset, GenFn(links[g], fns[g], links[g][g].offset), l, At(at));
      SubstFn(links[g], fns[g], links[g][g].offset, l, at);
    }
  }

  lemma SubKnown(env: Env, l: Label, a: int)
    requires AllKnown(env)
    ensures AllKnown(SubEnv(env, l, a))
  {
  }

  /** Where a jump goes does not change how it is read. */
  lemma SubstEncodable(code: seq<Insn>, l: Label, a: int)
    ensures AllEncodable(Subst(code, l, At(a))) <==> AllEncodable(code)
  {
    hide Subst, Encodable;
    var code1 := Subst(code, l, At(a));
    forall k | 0 <= k < |code| ensures Encodable(code1[k]) <==> Encodable(code[k]) {
      SubstAt(code, l, At(a), k);
      ResolvedEncodable(code[k], l, a);
    }
    ByIndex(code);
    ByIndex(code1);
  }

  lemma ByIndex(code: seq<Insn>)
    ensures AllEncodable(code) <==> forall k :: 0 <= k < |code| ==> Encodable(code[k])
  {
    hide Encodable;
    if forall k :: 0 <= k < |code| ==> Encodable(code[k]) {
      forall i | i in code ensures Encodable(i) {
        var k :| 0 <= k < |code| && code[k] == i;
      }
    }
  }

  lemma ResolvedEncodable(i: Insn, l: Label, a: int)
    ensures Encodable(Resolve(i, l, At(a))) <==> Encodable(i)
  {
  }

  /** The jumps of a function are all resolved, but for calls to functions declared forward. */
  lemma FnFree(env: Env, fn: Fn, pc: int, id: nat)
    requires AllKnown(env) && FnFits(fn)
    ensures Free(GenFn(env, fn, pc), Local(id))
  {
    if id > 0 {
      hide *;
      SubEnvLocal(env, id, 0);
      SubstFn(env, fn, pc, Local(id), 0);
      FixedIsFree(GenFn(env, fn, pc), Local(id), 0);
    } else {
      hide GenItems, SaveInsns, ReturnInsns, Free, Lets, ItemsReachable, ItemsFit, AllKnown;
      ItemsFree(env, fn.body, pc + 2 * fn.arity, fn.arity);
      SaveFree(fn.arity, fn.arity + Lets(fn.body));
      FreeNothing(Local(0));
      FreeConcat(SaveInsns(fn.arity), GenItems(env, fn.body, pc + 2 * fn.arity, fn.arity), Local(0));
      FreeConcat(SaveInsns(fn.arity) + GenItems(env, fn.body, pc + 2 * fn.arity, fn.arity),
                 if ItemsReachable(fn.body) then ReturnInsns(fn.arity + Lets(fn.body)) else [], Local(0));
    }
  }

  lemma SaveFree(n: nat, fs: nat)
    ensures Free(SaveInsns(n), Local(0)) && Free(ReturnInsns(fs), Local(0))
  {
    hide SaveInsns, High;
    JumplessSave(n);
  }

  lemma {:induction false} ItemsFree(env: Env, items: List<Item>, pc: int, fs: nat)
    requires AllKnown(env) && ItemsFit(items)
    ensures Free(GenItems(env, items, pc, fs), Local(0))
    decreases items
  {
    hide GenItem, ItemSize, Free, AllKnown, ItemFits;
    if items.Cons? {
      ItemFree(env, items.head, pc, fs);
      ItemsFree(env, items.tail, pc + ItemSize(items.head, fs), fs + (if items.head.Let? then 1 else 0));
      FreeConcat(GenItem(env, items.head, pc, fs),
                 GenItems(env, items.tail, pc + ItemSize(items.head, fs), fs + (if items.head.Let? then 1 else 0)),
                   Local(0));
    } else {
      FreeNothing(Local(0));
    }
  }

  lemma ItemFree(env: Env, item: Item, pc: int, fs: nat)
    requires AllKnown(env) && ItemFits(item)
    ensures Free(GenItem(env, item, pc, fs), Local(0))
  {
    hide GenExpr, GenStmt, Free, AllKnown, SaveInsns, StmtFits, StmtBreaks, Fits;
    match item
    case Let(e) =>
      ExprFree(env, e, 0, fs, 0);
      SaveFree(1, 0);
      FreeConcat(GenExpr(env, e, 0, fs), SaveInsns(1), Local(0));
    case Do(s) =>
      NoBreakSame(env, s, pc, fs, Ref(Local(0)), At(0));
      StmtFree(env, s, pc, fs, At(0), 0);
  }

  /** No jump waits for a local label. */
  ghost predicate NoLocals(code: seq<Insn>) { forall id: nat :: Free(code, Local(id)) }

  lemma NoLocalsFn(env: Env, base: seq<Insn>, fn: Fn, pc: int)
    requires NoLocals(base) && AllKnown(env) && FnFits(fn)
    ensures NoLocals(base + GenFn(env, fn, pc))
  {
    hide Free, GenFn, AllKnown, FnFits;
    forall id: nat ensures Free(base + GenFn(env, fn, pc), Local(id)) {
      FnFree(env, fn, pc, id);
      FreeConcat(base, GenFn(env, fn, pc), Local(id));
    }
  }

  lemma NoLocalsSubst(code: seq<Insn>, f: Name, at: int)
    requires NoLocals(code)
    ensures NoLocals(Subst(code, Forward(f), At(at)))
  {
    forall id: nat ensures Free(Subst(code, Forward(f), At(at)), Local(id)) {
      forall k | 0 <= k < |code| ensures !Waits(Subst(code, Forward(f), At(at))[k], Local(id)) {
        SubstAt(code, Forward(f), At(at), k);
        assert Free(code, Local(id));
      }
    }
  }

  // ----- the size of functions -----

  lemma {:induction false} GenItemsSize(env: Env, items: List<Item>, pc: int, pc1: int, fs: nat)
    ensures SizeOf(GenItems(env, items, pc, fs)) == SizeOf(GenItems(map[], items, pc1, fs))
    decreases items
  {
    hide SizeOf, GenItem, ItemSize;
    if items.Cons? {
      var fs1 := fs + (if items.head.Let? then 1 else 0);
      var n := ItemSize(items.head, fs);
      GenItemsSize(env, items.tail, pc + n, pc1 + n, fs1);
      GenItemSize(env, items.head, pc, fs);
      GenItemSize(map[], items.head, pc1, fs);
      SizeOfConcat(GenItem(env, items.head, pc, fs), GenItems(env, items.tail, pc + n, fs1));
      SizeOfConcat(GenItem(map[], items.head, pc1, fs), GenItems(map[], items.tail, pc1 + n, fs1));
    }
  }

  lemma GenFnSize(env: Env, fn: Fn, pc: int)
    ensures SizeOf(GenFn(env, fn, pc)) == SizeOf(GenFn(map[], fn, 0))
  {
    hide SizeOf, GenItems, SaveInsns, ReturnInsns, Lets, ItemsReachable;
    var leave := if ItemsReachable(fn.body) then ReturnInsns(fn.arity + Lets(fn.body)) else [];
    GenItemsSize(env, fn.body, pc + 2 * fn.arity, 2 * fn.arity, fn.arity);
    SizeOfConcat3(SaveInsns(fn.arity), GenItems(env, fn.body, pc + 2 * fn.arity, fn.arity), leave);
    SizeOfConcat3(SaveInsns(fn.arity), GenItems(map[], fn.body, 0 + 2 * fn.arity, fn.arity), leave);
  }

  // ----- local symbols -----

  /** The symbols of syms0, and others that are not functions. */
  ghost predicate Extends(syms0: Symbols, syms: Symbols) {
    (forall x :: x in syms0 ==> x in syms && syms[x] == syms0[x]) && (forall x ::
      x in syms && x !in syms0 ==> !syms[x].FnSymbol?)
  }

  lemma ExtendsSelf(syms: Symbols)
    ensures Extends(syms, syms)
  {
  }

  lemma ExtendsAdd(syms: Symbols, x: Name, sym: Symbol)
    requires x !in syms && !sym.FnSymbol?
    ensures Extends(syms, syms[x := sym])
  {
  }

  lemma ExtendsTrans(a: Symbols, b: Symbols, c: Symbols)
    requires Extends(a, b) && Extends(b, c)
    ensures Extends(a, c)
  {
  }

  lemma ExtendsEnv(syms0: Symbols, syms: Symbols)
    requires Extends(syms0, syms)
    ensures EnvOf(syms) == EnvOf(syms0) && Forwards(syms) == Forwards(syms0)
  {
  }

  lemma VarsAdd(syms: Symbols, frame: nat, x: Name, ty: Type)
    requires VarsWithin(syms, frame)
    ensures VarsWithin(syms[x := VarSymbol(frame + 1, ty)], frame + 1)
  {
  }

  lemma VarsAddConst(syms: Symbols, frame: nat, x: Name, sym: Symbol)
    requires VarsWithin(syms, frame) && !sym.VarSymbol?
    ensures VarsWithin(syms[x := sym], frame)
  {
  }

  lemma ItemsReachableNil()
    ensures ItemsReachable(List.Nil)
  {
  }

  lemma LetFits(e: Expr)
    requires Fits(e, 0)
    ensures ItemFits(Let(e))
  {
  }

  lemma ItemsCodedTo(env: Env, a: View, b: View, b1: View, core: List<Item>)
    requires ItemsCoded(env, a, b, core) && b1.code == b.code && b1.values == b.values && b1.frame == b.frame
      && b1.reg == b.reg
    ensures ItemsCoded(env, a, b1, core)
  {
    hide GenItems, SizeOf, ItemsFit, Lets;
  }

  lemma LetInsns(syms: Symbols, a: View, b: View, c: View, e: Expr)
    requires Adds(syms, b, c, e) && b.code == a.code && b.reg == 0 && b.frame == a.frame
    ensures c.code + SaveInsns(1) == a.code + GenItem(EnvOf(syms), Let(e), SizeOf(a.code), a.frame) && Fits(e, 0)
  {
    hide GenExpr, EnvOf, SizeOf, SaveInsns, Fits;
    assert a.code + GenExpr(EnvOf(syms), e, 0, a.frame) + SaveInsns(1) == a.code
      + (GenExpr(EnvOf(syms), e, 0, a.frame) + SaveInsns(1));
  }

  // ----- tokens of items -----

  lemma ReadConst(ts: seq<Token>, i: nat, j: nat, k: nat, l: nat, x: Name, t: TypeTree, v: u64)
    requires j == i + 3 && j < k && l == k + 3 <= |ts| && ts[i..i + 1] == [Tok(TC_CONST)] && ts[i + 1..i + 2] == [Id(x)]
    requires ts[i + 2..j] == [Tok(TC_COLON)] && ts[j..k] == PrintType(t) && ts[k..k + 1] == [Tok(TC_ASSIGN)]
    requires ts[k + 1..k + 2] == [Int(v)] && ts[k + 2..l] == [Tok(TC_SEMICOLON)]
    ensures Read(ts, i, l, PrintItem(TConst(x, t, v)))
  {
    hide PrintType;
    assert ts[i..j] == ts[i..i + 1] + ts[i + 1..i + 2] + ts[i + 2..j] == [Tok(TC_CONST), Id(x), Tok(TC_COLON)];
    assert ts[k..l] == ts[k..k + 1] + ts[k + 1..k + 2] + ts[k + 2..l] == [Tok(TC_ASSIGN), Int(v), Tok(TC_SEMICOLON)];
    Split3(ts, i, j, k, l);
  }

  function PrintLetStart(x: Name, t: Option<TypeTree>): seq<Token> {
    [Tok(TC_LET), Id(x)] + (if t.None? then [] else [Tok(TC_COLON)] + PrintType(t.value)) + [Tok(TC_ASSIGN)]
  }

  lemma ReadLetStart(ts: seq<Token>, i: nat, j: nat, k: nat, x: Name, t: Option<TypeTree>)
    requires j == i + 2 <= k < |ts| && ts[i..i + 1] == [Tok(TC_LET)] && ts[i + 1..j] == [Id(x)]
      && ts[k..k + 1] == [Tok(TC_ASSIGN)]
    requires if t.None? then k == j else j < k && ts[j..j + 1] == [Tok(TC_COLON)] && ts[j + 1..k] == PrintType(t.value)
    ensures Read(ts, i, k + 1, PrintLetStart(x, t))
  {
    hide PrintType;
    assert ts[i..j] == ts[i..i + 1] + ts[i + 1..j] == [Tok(TC_LET), Id(x)];
    if t.Some? { Split(ts, j, j + 1, k); }
    Split3(ts, i, j, k, k + 1);
  }

  lemma ReadLet(ts: seq<Token>, syms: Symbols, i: nat, j: nat, k: nat, l: nat, x: Name, t: Option<TypeTree>, e: Tree,
                el: Elaborated)
    requires Read(ts, i, j, PrintLetStart(x, t)) && Derives(ts, syms, 8, j, k, e, el)
      && Read(ts, k, l, [Tok(TC_SEMICOLON)])
    ensures Read(ts, i, l, PrintItem(TLet(x, t, e)))
  {
    hide PrintType, Print, Grammatical, Rule, Elab, Read;
    ReadThree(ts, i, j, k, l, PrintLetStart(x, t), Print(e), [Tok(TC_SEMICOLON)]);
    if t.Some? {
      assert PrintLetStart(x, t) == [Tok(TC_LET), Id(x), Tok(TC_COLON)] + PrintType(t.value) + [Tok(TC_ASSIGN)];
    } else {
      assert PrintLetStart(x, t) == [Tok(TC_LET), Id(x), Tok(TC_ASSIGN)];
    }
  }

  // ----- parameters -----

  lemma {:induction false} NamesHas(ps: List<Param>, x: Name)
    ensures HasParam(ps, x) <==> x in Names(ps)
    decreases ps
  {
    if ps.Cons? { NamesHas(ps.tail, x); }
  }

  lemma {:induction false} NamesLength(ps: List<Param>)
    ensures |Names(ps)| == Length(ps)
    decreases ps
  {
    if ps.Cons? { NamesLength(ps.tail); }
  }

  lemma NoParams(syms: Symbols)
    ensures PrintParams(List.Nil) == [] && ElabParams(syms, List.Nil) == Some([]) && Distinct(List.Nil)
      && Names(List.Nil) == []
  {
  }

  lemma {:induction false} ParamsSnocAll(syms: Symbols, ps: List<Param>, p: Param)
    requires Distinct(ps) && !HasParam(ps, p.name) && ElabParams(syms, ps).Some? && ElabType(syms, p.ty).Some?
    ensures PrintParams(Snoc(ps, p)) == (if ps.Nil? then [] else PrintParams(ps) + [Tok(TC_COMMA)]) + PrintParam(p)
    ensures ElabParams(syms, Snoc(ps, p)) == Some(ElabParams(syms, ps).value + [ElabType(syms, p.ty).value])
    ensures Names(Snoc(ps, p)) == Names(ps) + [p.name] && Distinct(Snoc(ps, p))
    ensures forall x :: HasParam(Snoc(ps, p), x) <==> HasParam(ps, x) || x == p.name
    decreases ps
  {
    hide PrintParam, ElabType;
    if ps.Cons? {
      ParamsSnocAll(syms, ps.tail, p);
      var tys := ElabParams(syms, ps.tail).value;
      assert [ElabType(syms, ps.head.ty).value] + (tys + [ElabType(syms, p.ty).value])
        == [ElabType(syms, ps.head.ty).value] + tys + [ElabType(syms, p.ty).value];
    } else {
      ParamsOne(syms, p);
      assert [] + [ElabType(syms, p.ty).value] == [ElabType(syms, p.ty).value];
    }
  }

  lemma ParamsOne(syms: Symbols, p: Param)
    requires ElabType(syms, p.ty).Some?
    ensures var l := List.Cons(p, List.Nil);
      PrintParams(l) == PrintParam(p) && ElabParams(syms, l) == Some([ElabType(syms, p.ty).value])
      && Names(l) == [p.name] && Distinct(l)
    ensures forall x :: HasParam(List.Cons(p, List.Nil), x) <==> x == p.name
    ensures ElabParams(syms, List.Nil) == Some([])
  {
    hide PrintParam, ElabType;
    assert ElabParams(syms, List.Nil) == Some([]);
    assert [ElabType(syms, p.ty).value] + [] == [ElabType(syms, p.ty).value];
  }

  lemma ParamsSnoc(ts: seq<Token>, syms: Symbols, h: nat, i: nat, j: nat, k: nat, ps: List<Param>, tys: seq<Type>,
                   p: Param, ty: Type)
    requires h <= i <= j && j + 2 < k <= |ts| && ts[h..i] == PrintParams(ps) && ElabParams(syms, ps) == Some(tys)
    requires if Names(ps) == [] then j == i else ts[i..j] == [Tok(TC_COMMA)]
    requires ts[j..j + 1] == [Id(p.name)] && ts[j + 1..j + 2] == [Tok(TC_COLON)] && ts[j + 2..k] == PrintType(p.ty)
    requires ElabType(syms, p.ty) == Some(ty) && Distinct(ps) && p.name !in Names(ps)
    ensures ts[h..k] == PrintParams(Snoc(ps, p)) && ElabParams(syms, Snoc(ps, p)) == Some(tys + [ty])
    ensures Names(Snoc(ps, p)) == Names(ps) + [p.name] && Distinct(Snoc(ps, p))
  {
    hide PrintParams, ElabParams, PrintType, ElabType, Distinct, HasParam;
    NamesHas(ps, p.name);
    ParamsSnocAll(syms, ps, p);
    NoParams(syms);
    ParamTokens(ts, j, k, p);
    Split3(ts, h, i, j, k);
  }

  lemma ParamTokens(ts: seq<Token>, j: nat, k: nat, p: Param)
    requires j + 2 < k <= |ts| && ts[j..j + 1] == [Id(p.name)] && ts[j + 1..j + 2] == [Tok(TC_COLON)]
      && ts[j + 2..k] == PrintType(p.ty)
    ensures ts[j..k] == PrintParam(p)
  {
    hide PrintType;
    Split3(ts, j, j + 1, j + 2, k);
    assert [Id(p.name)] + [Tok(TC_COLON)] == [Id(p.name), Tok(TC_COLON)];
  }

  function Drop<T>(l: List<T>, n: nat): List<T> { if n == 0 || l.Nil? then l else Drop(l.tail, n - 1) }

  lemma {:induction false} DropAll(ps: List<Param>)
    ensures Drop(ps, Length(ps)) == List.Nil
    ensures forall x :: !HasParam(List.Nil, x)
    decreases ps
  {
    if ps.Cons? { DropAll(ps.tail); }
  }

  lemma DropNone(ps: List<Param>)
    ensures Drop(ps, 0) == ps
  {
  }

  lemma {:induction false} DropOne(ps: List<Param>, i: nat)
    requires i < |Names(ps)|
    ensures Drop(ps, i).Cons? && Drop(ps, i).head.name == Names(ps)[i] && Drop(ps, i).tail == Drop(ps, i + 1)
    ensures forall x :: HasParam(Drop(ps, i), x) <==> x == Names(ps)[i] || HasParam(Drop(ps, i + 1), x)
    decreases i
  {
    if i > 0 { DropOne(ps.tail, i - 1); }
  }

  lemma NothingAdded(syms: Symbols, tys: seq<Type>)
    ensures ParamSymbols(syms, List.Nil, tys[|tys|..]) == syms
  {
  }

  lemma ParamAdded(syms: Symbols, ps: List<Param>, tys: seq<Type>, i: nat)
    requires i < |tys| && Drop(ps, i).Cons? && Drop(ps, i).tail == Drop(ps, i + 1)
    ensures ParamSymbols(syms, Drop(ps, i), tys[i..])
      == ParamSymbols(syms, Drop(ps, i + 1), tys[i + 1..])[Drop(ps, i).head.name := VarSymbol(|tys| - i, tys[i])]
  {
    hide Drop;
    assert tys[i..][1..] == tys[i + 1..] && tys[i..][0] == tys[i];
  }

  predicate NoVars(syms: Symbols) { forall x :: x in syms ==> !syms[x].VarSymbol? }

  lemma NoVarsWithin(syms: Symbols, frame: nat)
    requires NoVars(syms)
    ensures VarsWithin(syms, frame)
  {
  }

  lemma VarsAddParam(syms: Symbols, frame: nat, x: Name, sym: Symbol)
    requires VarsWithin(syms, frame) && sym.VarSymbol? && 1 <= sym.x <= frame
    ensures VarsWithin(syms[x := sym], frame)
  {
  }

  lemma ExtendsHas(syms0: Symbols, syms: Symbols, x: Name)
    requires Extends(syms0, syms) && x !in syms
    ensures x !in syms0
  {
  }

  lemma FnFitsIntro(arity: nat, core: List<Item>)
    requires arity <= MAX_REGISTERS && ItemsFit(core)
    ensures FnFits(Fn(arity, core))
  {
    hide ItemsFit;
  }

  lemma ReadBody(ts: seq<Token>, syms0: Symbols, ret: Option<Type>, next0: nat, i: nat, j: nat, k: nat,
                 items: List<ItemTree>, syms: Symbols, next: nat, core: List<Item>)
    requires j == i + 1 <= k < |ts| && ts[i..j] == [Tok(TC_OPEN_BLOCK)] && ts[k] == Tok(TC_CLOSE_BLOCK)
    requires ItemsDerive(ts, syms0, ret, next0, j, k, items, syms, next, core)
    ensures Read(ts, i, k + 1, PrintBody(Items(items))) && GrammaticalItems(items)
    ensures ElabItems(syms0, ret, next0, items) == Some((syms, next, core))
  {
    hide PrintItems, GrammaticalItems, ElabItems;
    Split(ts, i, j, k);
    Split(ts, i, k, k + 1);
    assert ts[k..k + 1] == [ts[k]];
  }

  // ----- declarations -----

  /** Bytes as they are in the code. */
  function DataOf(bs: List<u64>): seq<Insn> { if bs.Nil? then [] else [Data(bs.head % 256)] + DataOf(bs.tail) }

  lemma NoBytes(code: seq<Insn>)
    ensures PrintBytes(List.Nil) == [] && code == code + DataOf(List.Nil)
  {
  }

  lemma {:induction false} BytesSnocAll(bs: List<u64>, b: u64)
    ensures PrintBytes(Snoc(bs, b)) == (if bs.Nil? then [] else PrintBytes(bs) + [Tok(TC_COMMA)]) + [Int(b)]
    ensures DataOf(Snoc(bs, b)) == DataOf(bs) + [Data(b % 256)]
    decreases bs
  {
    if bs.Cons? {
      BytesSnocAll(bs.tail, b);
      assert [Data(bs.head % 256)] + (DataOf(bs.tail) + [Data(b % 256)]) == [Data(bs.head % 256)] + DataOf(bs.tail)
        + [Data(b % 256)];
    } else {
      assert DataOf(List.Cons(b, List.Nil)) == [Data(b % 256)] + DataOf(List.Nil);
      assert PrintBytes(List.Cons(b, List.Nil)) == [] + [Int(b)];
    }
  }

  lemma BytesSnoc(bs: List<u64>, b: u64, code: seq<Insn>)
    ensures PrintBytes(Snoc(bs, b)) == (if bs.Nil? then [] else PrintBytes(bs) + [Tok(TC_COMMA)]) + [Int(b)]
    ensures code + DataOf(Snoc(bs, b)) == code + DataOf(bs) + [Data(b % 256)]
  {
    hide PrintBytes, DataOf;
    BytesSnocAll(bs, b);
  }

  lemma {:induction false} DataSize(bs: List<u64>)
    ensures SizeOf(DataOf(bs)) == Count(bs)
    decreases bs
  {
    if bs.Cons? {
      DataSize(bs.tail);
      SizeOfConcat([Data(bs.head % 256)], DataOf(bs.tail));
      SizeOfOne(Data(bs.head % 256));
    }
  }

  lemma {:induction false} DataJumpless(bs: List<u64>)
    ensures Jumpless(DataOf(bs)) && AllEncodable(DataOf(bs))
    decreases bs
  {
    if bs.Cons? { DataJumpless(bs.tail); }
  }

  /** Bytes do not disturb the functions before them. */
  lemma DataPlaced(syms: Symbols, links: map<Name, Env>, base: seq<Insn>, bs: List<u64>, fns: map<Name, Fn>)
    ensures NoLocals(base) ==> NoLocals(base + DataOf(bs))
    ensures Compiled(syms, links, base, fns) ==> Compiled(syms, links, base + DataOf(bs), fns)
    ensures SizeOf(base + DataOf(bs)) == SizeOf(base) + Count(bs)
  {
    hide CompiledFn, SizeOf, DataOf, AllEncodable;
    DataSize(bs);
    SizeOfConcat(base, DataOf(bs));
    DataJumpless(bs);
    if Compiled(syms, links, base, fns) { CompiledMore(syms, links, base, DataOf(bs), fns); }
    if NoLocals(base) {
      forall id: nat ensures Free(base + DataOf(bs), Local(id)) {
        assert Free(base, Local(id));
        assert Free(DataOf(bs), Local(id));
        FreeConcat(base, DataOf(bs), Local(id));
      }
    }
  }

  /** A new function does not disturb those before it. */
  lemma CodePlaced(syms: Symbols, links: map<Name, Env>, base: seq<Insn>, fns: map<Name, Fn>, f: Name, fn: Fn)
    requires f in syms && syms[f].FnSymbol? && syms[f].target == Some(SizeOf(base)) && FnFits(fn) && f !in fns
    ensures var code := base + GenFn(EnvOf(syms), fn, SizeOf(base));
      (Compiled(syms, links, base, fns) ==> Compiled(syms, links[f := EnvOf(syms)], code, fns[f := fn]))
      && (NoLocals(base) ==> NoLocals(code)) && SizeOf(code) == SizeOf(base) + SizeOf(GenFn(map[], fn, 0))
  {
    EnvOfKnown(syms);
    hide *;
    var env := EnvOf(syms);
    if Compiled(syms, links, base, fns) { CompiledLast(syms, links, base, fns, f, fn); }
    if NoLocals(base) { NoLocalsFn(env, base, fn, SizeOf(base)); }
    SizeOfConcat(base, GenFn(env, fn, SizeOf(base)));
    GenFnSize(env, fn, SizeOf(base));
  }

  lemma EnvAt(syms: Symbols, f: Name)
    requires f in syms && syms[f].FnSymbol? && syms[f].target.Some?
    ensures f in EnvOf(syms) && EnvOf(syms)[f] == At(syms[f].target.value)
  {
  }

  lemma NoVarsDefine(syms: Symbols, x: Name, sym: Symbol)
    requires NoVars(syms) && !sym.VarSymbol?
    ensures NoVars(syms[x := sym])
  {
  }

  lemma DefinedTwice(syms: Symbols, x: Name, a: Symbol, b: Symbol)
    ensures syms[x := a][x := b] == syms[x := b]
  {
  }

  /** The unit u1 after the body of a function with the given types, at offset `at`, in unit u. */
  ghost predicate BodyDone(u: CompUnit, at: nat, f: Name, ps: List<Param>, tys: seq<Type>, ret: Option<Type>,
                           body: Body, u1: CompUnit) {
    var syms, links := u.syms[f := FnSymbol(Some(at), tys, ret)], Relinked(u.links, f, at);
    match body
    case Declared => u1 == CompUnit(u.syms[f := FnSymbol(None, tys, ret)], u.fns, links)
    case Asm(_) => u1 == CompUnit(syms, u.fns, links)
    case Items(items) =>
      var its := ElabItems(ParamSymbols(syms, ps, tys), ret, |tys| + 1, items);
      its.Some? && !(ret.Some? && ItemsReachable(its.value.2))
      && u1 == CompUnit(syms, u.fns[f := Fn(|tys|, its.value.2)], links[f := EnvOf(syms)])
      && forall x :: x in syms ==> !HasParam(ps, x)
  }

  function BodySize(u: CompUnit, f: Name, body: Body): nat { DeclSize(u, DFn(f, List.Nil, None, body)) }

  lemma DeclaredDone(u: CompUnit, at: nat, f: Name, ps: List<Param>, tys: seq<Type>, ret: Option<Type>)
    ensures BodyDone(u, at, f, ps, tys, ret, Declared, CompUnit(u.syms[f := FnSymbol(None, tys, ret)], u.fns,
      Relinked(u.links, f, at)))
    ensures forall u1 :: BodySize(u1, f, Declared) == 0
    ensures PrintBody(Declared) == [Tok(TC_SEMICOLON)]
  {
  }

  lemma AsmDone(u: CompUnit, at: nat, f: Name, ps: List<Param>, tys: seq<Type>, ret: Option<Type>, bytes: List<u64>)
    ensures BodyDone(u, at, f, ps, tys, ret, Asm(bytes), CompUnit(u.syms[f := FnSymbol(Some(at), tys, ret)], u.fns,
      Relinked(u.links, f, at)))
    ensures forall u1 :: BodySize(u1, f, Asm(bytes)) == Count(bytes)
  {
  }

  lemma ItemsDone(u: CompUnit, at: nat, f: Name, ps: List<Param>, tys: seq<Type>, ret: Option<Type>,
                  items: List<ItemTree>, core: List<Item>)
    requires var syms := u.syms[f := FnSymbol(Some(at), tys, ret)];
      var its := ElabItems(ParamSymbols(syms, ps, tys), ret, |tys| + 1, items);
      its.Some? && its.value.2 == core && !(ret.Some? && ItemsReachable(core)) && forall x ::
        x in syms ==> !HasParam(ps, x)
    ensures var syms := u.syms[f := FnSymbol(Some(at), tys, ret)];
      var u1 := CompUnit(syms, u.fns[f := Fn(|tys|, core)], Relinked(u.links, f, at)[f := EnvOf(syms)]);
      BodyDone(u, at, f, ps, tys, ret, Items(items), u1)
      && BodySize(u1, f, Items(items)) == SizeOf(GenFn(map[], Fn(|tys|, core), 0))
  {
    hide ElabItems, ParamSymbols, ItemsReachable, HasParam, SizeOf, GenFn;
  }

  /** One declaration takes unit u and offset `at` to u1 and at1. */
  ghost predicate DeclDerives(ts: seq<Token>, u: CompUnit, at: nat, i: nat, j: nat, u1: CompUnit, at1: nat, d: Decl) {
    Read(ts, i, j, PrintDecl(d)) && GrammaticalDecl(d) && ElabDecl(u, at, d) == Some(u1) && at1 == at + DeclSize(u1, d)
  }

  lemma DerivesFn(ts: seq<Token>, u: CompUnit, at: nat, i: nat, k: nat, l: nat, m: nat, f: Name, ps: List<Param>,
                  tys: seq<Type>, t: Option<TypeTree>, ret: Option<Type>, body: Body, u1: CompUnit, at1: nat)
    requires Read(ts, i, k, [Tok(TC_FN), Id(f)]) && Read(ts, l, m, PrintBody(body))
    requires Read(ts, k, l, [Tok(TC_OPEN)] + PrintParams(ps) + [Tok(TC_CLOSE)] + PrintRet(t))
    requires (f in u.syms ==> IsForward(u.syms[f])) && Distinct(ps)
    requires var syms := u.syms[f := FnSymbol(Some(at), [], None)];
      ElabParams(syms, ps) == Some(tys) && ElabRet(syms, t) == Some(ret)
    requires f in u.syms ==> u.syms[f].params == tys && u.syms[f].ret == ret
    requires BodyDone(u, at, f, ps, tys, ret, body, u1) && (body.Items? ==> GrammaticalItems(body.items))
    requires at1 == at + BodySize(u1, f, body)
    ensures DeclDerives(ts, u, at, i, m, u1, at1, DFn(f, ps, t, body))
  {
    hide Read, PrintBody, PrintParams, PrintRet, Distinct, ElabParams, ElabRet, ElabItems, ParamSymbols,
         ItemsReachable, GrammaticalItems, HasParam, ElabFn, BodyDone, SizeOf, GenFn, Count, IsForward, PrintDecl;
    FnTokens(ts, i, k, l, m, f, ps, t, body);
    ElabFnIs(u, at, f, ps, tys, t, ret, body, u1);
  }

  lemma FnTokens(ts: seq<Token>, i: nat, k: nat, l: nat, m: nat, f: Name, ps: List<Param>, t: Option<TypeTree>,
                 body: Body)
    requires Read(ts, i, k, [Tok(TC_FN), Id(f)]) && Read(ts, l, m, PrintBody(body))
    requires Read(ts, k, l, [Tok(TC_OPEN)] + PrintParams(ps) + [Tok(TC_CLOSE)] + PrintRet(t))
    ensures Read(ts, i, m, PrintDecl(DFn(f, ps, t, body)))
  {
    hide Read, PrintBody, PrintParams, PrintRet;
    ReadThree(ts, i, k, l, m, [Tok(TC_FN), Id(f)], [Tok(TC_OPEN)] + PrintParams(ps) + [Tok(TC_CLOSE)] + PrintRet(t),
      PrintBody(body));
    assert [Tok(TC_FN), Id(f)] + ([Tok(TC_OPEN)] + PrintParams(ps) + [Tok(TC_CLOSE)] + PrintRet(t)) + PrintBody(body)
      == PrintDecl(DFn(f, ps, t, body));
  }

  lemma ElabFnIs(u: CompUnit, at: nat, f: Name, ps: List<Param>, tys: seq<Type>, t: Option<TypeTree>,
                 ret: Option<Type>, body: Body, u1: CompUnit)
    requires (f in u.syms ==> IsForward(u.syms[f])) && Distinct(ps)
    requires var syms := u.syms[f := FnSymbol(Some(at), [], None)];
      ElabParams(syms, ps) == Some(tys) && ElabRet(syms, t) == Some(ret)
    requires f in u.syms ==> u.syms[f].params == tys && u.syms[f].ret == ret
    requires BodyDone(u, at, f, ps, tys, ret, body, u1)
    ensures ElabFn(u, at, f, ps, t, body) == Some(u1)
  {
    hide Distinct, ElabParams, ElabRet, ElabItems, ParamSymbols, ItemsReachable, HasParam;
  }

  lemma DerivesConstDecl(ts: seq<Token>, u: CompUnit, at: nat, i: nat, j: nat, x: Name, t: TypeTree, ty: Type, v: u64)
    requires Read(ts, i, j, PrintItem(TConst(x, t, v))) && ElabType(u.syms, t) == Some(ty) && x !in u.syms
    ensures DeclDerives(ts, u, at, i, j, u.(syms := u.syms[x := ConstSymbol(v, ty)]), at, DConst(x, t, v))
  {
    hide Read, PrintItem, ElabType;
  }

  lemma DerivesStatic(ts: seq<Token>, u: CompUnit, at: nat, i: nat, j: nat, k: nat, x: Name, bytes: List<u64>)
    requires i + 4 == j <= k && k + 2 <= |ts| && ts[i..j] == [Tok(TC_STATIC), Id(x), Tok(TC_ASSIGN),
      Tok(TC_OPEN_BRACKET)]
    requires ts[j..k] == PrintBytes(bytes) && ts[k..k + 2] == [Tok(TC_CLOSE_BRACKET), Tok(TC_SEMICOLON)]
      && bytes.Cons? && x !in u.syms
    ensures DeclDerives(ts, u, at, i, k + 2, u.(syms := u.syms[x := StaticSymbol(at)]), at + Count(bytes),
      DStatic(x, bytes))
  {
    hide PrintBytes;
    Split3(ts, i, j, k, k + 2);
  }

  lemma DerivesStruct(ts: seq<Token>, u: CompUnit, at: nat, i: nat, j: nat, k: nat, x: Name, fields: List<Param>,
                      tys: seq<Type>)
    requires i + 3 == j < k <= |ts| && ts[i..j] == [Tok(TC_STRUCT), Id(x), Tok(TC_OPEN_BLOCK)]
    requires ts[j..k] == PrintParams(fields) + [Tok(TC_CLOSE_BLOCK)] && x !in u.syms && Distinct(fields)
    requires ElabParams(u.syms[x := StructSymbol(map[], 0)], fields) == Some(tys)
    ensures DeclDerives(ts, u, at, i, k,
      u.(syms := u.syms[x := StructSymbol(FieldMap(Names(fields), tys, 0), |tys|)]), at, DStruct(x, fields))
  {
    hide PrintParams, Distinct, ElabParams, FieldMap, Names;
    Split(ts, i, j, k);
  }

  /** A sequence of declarations takes unit u and offset `at` to u1 and at1. */
  ghost predicate DeclsDerive(ts: seq<Token>, u: CompUnit, at: nat, i: nat, j: nat, u1: CompUnit, at1: nat,
                              ds: List<Decl>) {
    i <= j <= |ts| && ts[i..j] == PrintDecls(ds) && GrammaticalDecls(ds) && ElabDecls(u, at, ds) == Some((u1, at1))
  }

  lemma NoDecls(ts: seq<Token>, u: CompUnit, at: nat, i: nat)
    requires i <= |ts|
    ensures DeclsDerive(ts, u, at, i, i, u, at, List.Nil)
  {
  }

  lemma {:induction false} DeclsSnoc(u: CompUnit, at: nat, ds: List<Decl>, d: Decl)
    requires ElabDecls(u, at, ds).Some? && GrammaticalDecls(ds) && GrammaticalDecl(d)
    requires var r := ElabDecls(u, at, ds).value; ElabDecl(r.0, r.1, d).Some?
    ensures PrintDecls(Snoc(ds, d)) == PrintDecls(ds) + PrintDecl(d) && GrammaticalDecls(Snoc(ds, d))
    ensures var r := ElabDecls(u, at, ds).value;
      var u1 := ElabDecl(r.0, r.1, d).value;
      ElabDecls(u, at, Snoc(ds, d)) == Some((u1, r.1 + DeclSize(u1, d)))
    decreases ds
  {
    hide ElabDecl, PrintDecl, GrammaticalDecl, DeclSize;
    if ds.Cons? {
      var v := ElabDecl(u, at, ds.head).value;
      DeclsSnoc(v, at + DeclSize(v, ds.head), ds.tail, d);
    }
  }

  lemma DeclsDeriveSnoc(ts: seq<Token>, u: CompUnit, at: nat, i: nat, j: nat, u1: CompUnit, at1: nat, ds: List<Decl>,
                        k: nat, u2: CompUnit, at2: nat, d: Decl)
    requires DeclsDerive(ts, u, at, i, j, u1, at1, ds) && DeclDerives(ts, u1, at1, j, k, u2, at2, d)
    ensures DeclsDerive(ts, u, at, i, k, u2, at2, Snoc(ds, d))
  {
    hide ElabDecl, PrintDecl, GrammaticalDecl, DeclSize, ElabDecls, PrintDecls, GrammaticalDecls;
    DeclsSnoc(u, at, ds, d);
    Split(ts, i, j, k);
  }
}
