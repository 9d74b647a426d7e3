/** The compiler as a whole: the tokens of a program, the bytes written for it, and what a processor that decodes
    and runs these bytes does when a function is called. */
module Correctness {
  import opened Words
  import opened X86
  import opened Encoder
  import opened Source
  import opened Codegen
  import opened Sizes
  import opened Execution
  import opened Preservation
  import opened Layout
  import opened Linking
  import opened Patching
  import opened Syntax
  import opened Functions
  import opened Statics
  import opened Encodings
  import opened Links
  import opened Compiler
  import S = Scanner

  // ----- functions contain no bytes of data -----

  lemma NoDataConcat(a: seq<Insn>, b: seq<Insn>)
    requires NoData(a) && NoData(b)
    ensures NoData(a + b)
  {
  }

  lemma NoDataConcat3(a: seq<Insn>, b: seq<Insn>, c: seq<Insn>)
    requires NoData(a) && NoData(b) && NoData(c)
    ensures NoData(a + b + c)
  {
  }

  lemma {:induction false} NoDataSave(n: nat)
    ensures NoData(SaveInsns(n))
  {
    if n > 0 { NoDataSave(n - 1); }
  }

  lemma {:induction false} NoDataRestore(z: nat, n: nat)
    ensures NoData(RestoreInsns(z, n))
    decreases n - z
  {
    if z < n { NoDataRestore(z + 1, n); }
  }

  lemma NoDataParts(n: nat, op: BinOp, field: nat)
    ensures NoData(BinInsns(op, n)) && NoData(FieldAddrInsns(n, field)) && NoData(ResultInsns(n))
      && NoData(ReturnInsns(n))
  {
  }

  lemma {:induction false} NoDataExpr(env: Env, e: Expr, n: nat, fs: int)
    ensures NoData(GenExpr(env, e, n, fs))
    decreases e
  {
    hide NoData, BinInsns, FieldAddrInsns, ResultInsns, RestoreInsns, GenArgs, High, SaveInsns;
    match e
    case Field(a, field) =>
      NoDataExpr(env, a, n, fs);
      NoDataOne(Load(High(n), High(n), 8 * field));
      NoDataConcat(GenExpr(env, a, n, fs), [Load(High(n), High(n), 8 * field)]);
    case FieldAddr(a, field) =>
      NoDataExpr(env, a, n, fs);
      NoDataParts(n, Plus, field);
      NoDataConcat(GenExpr(env, a, n, fs), FieldAddrInsns(n, field));
    case Bin(op, l, r) =>
      NoDataExpr(env, l, n, fs);
      NoDataExpr(env, r, n + 1, fs);
      NoDataParts(n, op, 0);
      NoDataConcat3(GenExpr(env, l, n, fs), GenExpr(env, r, n + 1, fs), BinInsns(op, n));
    case Apply(f, args) =>
      NoDataCall(env, f, args, n, fs);
      NoDataParts(n, Plus, 0);
      NoDataRestore(0, n);
      NoDataConcat3(GenCall(env, f, args, n, fs), ResultInsns(n), RestoreInsns(0, n));
    case _ => NoDataLeaf(env, e, n, fs);
  }

  lemma NoDataOne(i: Insn)
    ensures !i.Data? ==> NoData([i])
  {
  }

  lemma NoDataLeaf(env: Env, e: Expr, n: nat, fs: int)
    requires e.Lit? || e.Address? || e.Var? || e.VarAddr?
    ensures NoData(GenExpr(env, e, n, fs))
  {
  }

  lemma NoDataCall(env: Env, f: Name, args: List<Expr>, n: nat, fs: int)
    ensures NoData(GenCall(env, f, args, n, fs))
    decreases args, 1
  {
    hide NoData, SaveInsns, GenArgs;
    NoDataSave(n);
    NoDataArgs(env, args, 0, fs + n);
    NoDataOne(Call(FnTarget(env, f)));
    NoDataConcat3(SaveInsns(n), GenArgs(env, args, 0, fs + n), [Call(FnTarget(env, f))]);
  }

  lemma {:induction false} NoDataArgs(env: Env, es: List<Expr>, n: nat, fs: int)
    ensures NoData(GenArgs(env, es, n, fs))
    decreases es, 0
  {
    hide GenExpr;
    if es.Cons? {
      NoDataExpr(env, es.head, n, fs);
      NoDataArgs(env, es.tail, n + 1, fs);
      NoDataConcat(GenExpr(env, es.head, n, fs), GenArgs(env, es.tail, n + 1, fs));
    }
  }

  lemma {:induction false} NoDataAnd(env: Env, cs: List<Comparison>, fs: int, elseT: Target, positive: bool,
                                     lastT: Target)
    ensures NoData(GenAnd(env, cs, fs, elseT, positive, lastT))
    decreases cs
  {
    hide GenComparison;
    if cs.Cons? {
      NoDataComparison(env, cs.head, fs, positive, lastT);
      NoDataComparison(env, cs.head, fs, false, elseT);
      if cs.tail.Cons? {
        NoDataAnd(env, cs.tail, fs, elseT, positive, lastT);
        NoDataConcat(GenComparison(env, cs.head, fs, false, elseT), GenAnd(env, cs.tail, fs, elseT, positive, lastT));
      }
    }
  }

  lemma NoDataComparison(env: Env, c: Comparison, fs: int, positive: bool, t: Target)
    ensures NoData(GenComparison(env, c, fs, positive, t))
  {
    hide GenExpr, Negate;
    NoDataExpr(env, c.l, 0, fs);
    NoDataExpr(env, c.r, 1, fs);
    NoDataConcat3(GenExpr(env, c.l, 0, fs), GenExpr(env, c.r, 1, fs), JumpInsns(if positive then c.rel
      else Negate(c.rel), t));
  }

  lemma {:induction false} NoDataOr(env: Env, ands: BoolExpr, pc: int, fs: int, thenT: Target, elseT: Target)
    ensures NoData(GenOr(env, ands, pc, fs, thenT, elseT))
    decreases ands
  {
    hide GenAnd, AndSize;
    if ands.Cons? {
      var next := pc + AndSize(ands.head, fs);
      NoDataAnd(env, ands.head, fs, elseT, false, elseT);
      NoDataAnd(env, ands.head, fs, At(next), true, thenT);
      NoDataOr(env, ands.tail, next, fs, thenT, elseT);
      NoDataConcat(GenAnd(env, ands.head, fs, At(next), true, thenT), GenOr(env, ands.tail, next, fs, thenT, elseT));
    }
  }

  lemma {:induction false} NoDataStmt(env: Env, s: Stmt, pc: int, fs: nat, brk: Target)
    ensures NoData(GenStmt(env, s, pc, fs, brk))
    decreases s
  {
    hide NoData, GenExpr, GenOr, GenBlock, ReturnInsns, OrSize, BlockSize, BlockReachable;
    match s
    case SetVar(x, e) =>
      NoDataExpr(env, e, 0, fs);
      NoDataOne(Store(RSP, 8 * (fs - x), R8));
      NoDataConcat(GenExpr(env, e, 0, fs), [Store(RSP, 8 * (fs - x), R8)]);
    case SetField(a, field, e) =>
      NoDataExpr(env, a, 0, fs);
      NoDataExpr(env, e, 1, fs);
      NoDataOne(Store(R8, 8 * field, R9));
      NoDataConcat3(GenExpr(env, a, 0, fs), GenExpr(env, e, 1, fs), [Store(R8, 8 * field, R9)]);
    case Eval(e) => NoDataExpr(env, e, 0, fs);
    case If(c, thn) =>
      var b := pc + OrSize(c, fs);
      NoDataOr(env, c, pc, fs, At(b), At(b + BlockSize(thn, fs)));
      NoDataBlock(env, thn, b, fs, brk);
      NoDataConcat(GenOr(env, c, pc, fs, At(b), At(b + BlockSize(thn, fs))), GenBlock(env, thn, b, fs, brk));
    case IfElse(c, thn, els) =>
      var b := pc + OrSize(c, fs);
      var e := b + BlockSize(thn, fs) + (if BlockReachable(thn) then 5 else 0);
      var end := e + BlockSize(els, fs);
      NoDataOr(env, c, pc, fs, At(b), At(e));
      NoDataBlock(env, thn, b, fs, brk);
      NoDataBlock(env, els, e, fs, brk);
      NoDataOver(thn, end);
      NoDataConcat3(GenOr(env, c, pc, fs, At(b), At(e)), GenBlock(env, thn, b, fs, brk), JumpOver(thn, end));
      NoDataConcat(GenOr(env, c, pc, fs, At(b), At(e)) + GenBlock(env, thn, b, fs, brk) + JumpOver(thn, end),
        GenBlock(env, els, e, fs, brk));
    case While(c, body) =>
      var b := pc + OrSize(c, fs);
      var end := b + BlockSize(body, fs) + 5;
      NoDataOr(env, c, pc, fs, At(b), At(end));
      NoDataBlock(env, body, b, fs, At(end));
      NoDataOne(Jmp(At(pc)));
      NoDataConcat3(GenOr(env, c, pc, fs, At(b), At(end)), GenBlock(env, body, b, fs, At(end)), [Jmp(At(pc))]);
    case Loop(body) =>
      var end := pc + BlockSize(body, fs) + 5;
      NoDataBlock(env, body, pc, fs, At(end));
      NoDataOne(Jmp(At(pc)));
      NoDataConcat(GenBlock(env, body, pc, fs, At(end)), [Jmp(At(pc))]);
    case Break => NoDataOne(Jmp(brk));
    case Return => NoDataParts(fs, Plus, 0);
    case ReturnValue(e) =>
      NoDataExpr(env, e, 0, fs);
      NoDataParts(fs, Plus, 0);
      NoDataConcat(GenExpr(env, e, 0, fs), ReturnInsns(fs));
  }

  lemma NoDataOver(thn: List<Stmt>, end: int)
    ensures NoData(JumpOver(thn, end))
  {
  }

  lemma {:induction false} NoDataBlock(env: Env, ss: List<Stmt>, pc: int, fs: nat, brk: Target)
    ensures NoData(GenBlock(env, ss, pc, fs, brk))
    decreases ss
  {
    hide GenStmt, StmtSize;
    if ss.Cons? {
      NoDataStmt(env, ss.head, pc, fs, brk);
      NoDataBlock(env, ss.tail, pc + StmtSize(ss.head, fs), fs, brk);
      NoDataConcat(GenStmt(env, ss.head, pc, fs, brk), GenBlock(env, ss.tail, pc + StmtSize(ss.head, fs), fs, brk));
    }
  }

  lemma {:induction false} NoDataItems(env: Env, items: List<Item>, pc: int, fs: nat)
    ensures NoData(GenItems(env, items, pc, fs))
    decreases items
  {
    hide GenExpr, GenStmt, ItemSize, SaveInsns;
    if items.Cons? {
      var item, fs1 := items.head, fs + (if items.head.Let? then 1 else 0);
      if item.Let? {
        NoDataExpr(env, item.e, 0, fs);
        NoDataSave(1);
        NoDataConcat(GenExpr(env, item.e, 0, fs), SaveInsns(1));
      } else {
        NoDataStmt(env, item.s, pc, fs, Ref(Local(0)));
      }
      NoDataItems(env, items.tail, pc + ItemSize(item, fs), fs1);
      NoDataConcat(GenItem(env, item, pc, fs), GenItems(env, items.tail, pc + ItemSize(item, fs), fs1));
    }
  }

  lemma NoDataFn(env: Env, fn: Fn, pc: int)
    ensures NoData(GenFn(env, fn, pc))
  {
    hide GenItems, SaveInsns, ReturnInsns, Lets, ItemsReachable;
    var leave := if ItemsReachable(fn.body) then ReturnInsns(fn.arity + Lets(fn.body)) else [];
    NoDataSave(fn.arity);
    NoDataItems(env, fn.body, pc + 2 * fn.arity, fn.arity);
    NoDataParts(fn.arity + Lets(fn.body), Plus, 0);
    NoDataConcat3(SaveInsns(fn.arity), GenItems(env, fn.body, pc + 2 * fn.arity, fn.arity), leave);
  }

  // ----- running the bytes -----

  /** The code of a whole program, loaded at P.base, is linked. */
  lemma PlacedLinked(P: Program, code: seq<Insn>, size: nat, env: Env)
    requires FnsPlaced(env, code, P.fns) && SizeOf(code) <= size && 0 <= P.base && P.base + size < TWO64
    ensures Linked(P, Machine(P.base, PlaceAll(code)), env)
  {
    hide SizeOf, GenFn, FnFits, CodeAt, Size, NoData;
    var M := Machine(P.base, PlaceAll(code));
    forall f | f in P.fns ensures FnLinked(P, M, env, f) {
      assert FnPlaced(env, code, f, P.fns[f]);
      var part := GenFn(env, P.fns[f], env[f].offset);
      var a, c :| code == a + part + c && SizeOf(a) == env[f].offset;
      NoDataFn(env, P.fns[f], env[f].offset);
      SegmentPlaced(P.base, a, part, c);
    }
  }

  lemma LinkedFn(P: Program, M: Machine, env: Env, f: Name)
    requires Linked(P, M, env) && f in P.fns
    ensures f in env && env[f].At? && FnFits(P.fns[f]) && CodeAt(M, env[f].offset, GenFn(env, P.fns[f], env[f].offset))
  {
    hide CodeAt, GenFn, FnFits;
    assert FnLinked(P, M, env, f);
  }

  /** Calling a compiled function: for every program, function, arguments, memory, stack and amount of fuel, the
      processor that decodes the bytes runs as the source says. If the call ends in the source, the bytes return to
      the caller with the stack as it was, the memory of the source and the result in register 0; if it faults, the
      processor faults; if it outlives its fuel, the processor runs at least as many steps. */
  lemma CompiledCallOk(P: Program, bytes: seq<u8>, code: seq<Insn>, size: nat, env: Env, f: Name, below: seq<u64>,
                       ret: u64, vs: seq<u64>, s: State, fuel: nat)
      returns (k: nat, t: State)
    requires Matches(bytes, code) && AllFinished(code, size) && AllEncodable(code) && |bytes| <= size < 0x8000_0000
    requires FnsPlaced(env, code, P.fns) && 0 <= P.base && P.base + size < TWO64
    requires f in P.fns && f in env && env[f].At? && |vs| == P.fns[f].arity <= MAX_REGISTERS
    requires s.pc == env[f].offset && s.stack == below + [ret] && forall i :: 0 <= i < |vs| ==> s.regs[8 + i] == vs[i]
    ensures var o := EvalFn(P, P.fns[f], vs, s.mem, fuel);
      ByteRun(P.base, bytes, s, k) == Some(t)
      && (o.Fault? ==> ByteStep(P.base, bytes, t).None?)
      && (o.Timeout? ==> k >= fuel)
      && (o.Done? ==>
            t.pc == ret - P.base && t.stack == below && t.mem == o.value.1
            && (o.value.0.Some? ==> t.regs[8] == o.value.0.value))
  {
    hide *;
    MatchesLength(bytes, code);
    PlacedLinked(P, code, size, env);
    var M := Machine(P.base, PlaceAll(code));
    LinkedFn(P, M, env, f);
    k, t := FnOk(Context(P, M, env, below, ret), P.fns[f], vs, s, fuel);
    var o := EvalFn(P, P.fns[f], vs, s.mem, fuel);
    KindFacts(o, o);
    SimUnfold(M, s, k, t, KindOf(o), fuel);
    KindCases(o);
    BytesRun(P.base, bytes, code, size, s, k);
    if o.Fault? {
      BytesStuck(P.base, bytes, code, size, t);
    }
  }

  lemma SimUnfold(M: Machine, s: State, k: nat, t: State, kind: Kind, fuel: nat)
    requires Sim(M, s, k, t, kind, fuel)
    ensures Run(M, s, k) == Some(t) && (kind == Faulted ==> Stuck(M, t)) && (kind == TimedOut ==> k >= fuel)
  {
  }

  lemma KindCases<T>(o: Outcome<T>)
    ensures o.Fault? <==> KindOf(o) == Faulted
    ensures o.Timeout? <==> KindOf(o) == TimedOut
  {
  }

  // ----- the whole compiler -----

  lemma {:induction false} MatchesShaped(bytes: seq<u8>, code: seq<Insn>, k: nat)
    requires Matches(bytes, code) && k < |code|
    ensures Shaped(code[k])
    decreases |code|
  {
    hide SizeOf, InsnBytes, Previous, Size, Shaped;
    var init := code[..|code| - 1];
    if k < |init| { MatchesShaped(bytes[..SizeOf(init)], init, k); }
  }

  /** When no function is left forward, no jump waits for anything. */
  lemma CodeFinished(bytes: seq<u8>, code: seq<Insn>, size: nat, labels: nat)
    requires Matches(bytes, code) && Kept(code, size, labels) && NoLocals(code) && ForwardsIn(code, {})
    ensures AllFinished(code, size)
  {
    hide Matches, Shaped, Inside;
    forall i | i in code ensures Finished(i, size) {
      var k :| 0 <= k < |code| && code[k] == i;
      MatchesShaped(bytes, code, k);
      assert Inside(code[k], size);
      var id := if IsJump(i) && i.target.Ref? && i.target.chain.Local? then i.target.chain.id else 0;
      assert Free(code, Local(id));
      assert !Waits(code[k], Local(id));
    }
  }

  /** The bytes are those of the finished code of the unit that the program elaborates to: every function is at the
      offset of its symbol, with its calls linked as the unit says; and so are the bytes of every static block and of
      every function in machine code. */
  ghost predicate Object(bytes: seq<u8>, code: seq<Insn>, ds: List<Decl>, u: CompUnit, limit: nat) {
    && |bytes| <= limit < 0x8000_0000 && Matches(bytes, code) && AllFinished(code, limit)
    && ElabDecls(NO_UNIT, 0, ds) == Some((u, |bytes|)) && Forwards(u.syms) == {}
    && Compiled(u.syms, u.links, code, u.fns) && BlocksIn(bytes, u.syms, ds)
  }

  /** The code is that of the functions of the program, with every call going to the function that it names, exactly
      if none is called early; and the processor reads it as meant exactly if all functions are encodable. */
  lemma ObjectMeans(bytes: seq<u8>, code: seq<Insn>, ds: List<Decl>, u: CompUnit, limit: nat)
    requires Object(bytes, code, ds, u, limit)
    ensures FnsPlaced(EnvOf(u.syms), code, u.fns) <==> !CalledEarly(NO_UNIT, 0, ds)
    ensures AllEncodable(code) <==> AllFnsEncodable(u.fns)
  {
    hide Matches, AllFinished, ElabDecls, EnvOf, Forwards, FnsPlaced, CalledEarly, CompiledFn, AllEncodable,
      AllFnsEncodable, WellLinked;
    PlacedIffLinked(u, code);
    LinkedIffNotEarly(ds);
  }

  /** Compiles a program into a buffer, as the compiler command does: the tokens read are those of a grammatical
      program, and the bytes before `size` are its object code. */
  method Compile(tokens: seq<Token>, buf: array<u8>)
      returns (r: Status, size: nat, ghost ds: List<Decl>, ghost u: CompUnit, ghost code: seq<Insn>)
    requires buf.Length < 0x8000_0000
    modifies buf
    ensures r.Ok? ==> size <= buf.Length && Object(buf[..size], code, ds, u, buf.Length)
    ensures r.Ok? ==> exists n: nat :: ProgramRead(tokens, n, ds)
    ensures r.Ok? ==> (FnsPlaced(EnvOf(u.syms), code, u.fns) <==> !CalledEarly(NO_UNIT, 0, ds))
    ensures r.Ok? ==> (AllEncodable(code) <==> AllFnsEncodable(u.fns))
  {
    hide Matches, AllFinished, FnsPlaced, EnvOf, SizeOf, Kept, NoLocals, ForwardsIn, Forwards, NoVars, SymbolsInside,
      BlocksPlaced, BlocksIn, CalledEarly, Compiled, AllEncodable, AllFnsEncodable, PrintDecls, ElabDecls,
      GrammaticalDecls;
    size, ds, u, code := 0, List.Nil, NO_UNIT, [];
    var c := new Compiler(tokens, buf);
    SizeOfNone();
    r, ds := c.ParseProgram();
    if !r.Ok? { return; }
    r := c.CheckSymbols();
    if !r.Ok? { return; }
    size, u, code := c.dst, CompUnit(c.symbols, c.fns, c.links), c.insns;
    MatchesLength(buf[..size], code);
    CodeFinished(buf[..size], code, buf.Length, c.labels);
    BlocksAreIn(buf[..size], code, u.syms, ds);
    assert tokens[0..c.pos] == tokens[..c.pos];
    assert ProgramRead(tokens, c.pos, ds);
    ObjectMeans(buf[..size], code, ds, u, buf.Length);
  }

  /** The first n tokens, before the end, are those of the program. */
  ghost predicate ProgramRead(tokens: seq<Token>, n: nat, ds: List<Decl>) {
    n <= |tokens| && (n < |tokens| ==> tokens[n] == Tok(TC_END)) && tokens[..n] == PrintDecls(ds)
    && GrammaticalDecls(ds)
  }

  /** The scanner and the compiler together, from the text of a program. A panic of the scanner (10, 11 or 12) stops the
      compilation. */
  method CompileText(text: seq<u8>, buf: array<u8>)
      returns (r: Status, size: nat, ghost tokens: seq<Token>, ghost ds: List<Decl>, ghost u: CompUnit,
        ghost code: seq<Insn>)
    requires buf.Length < 0x8000_0000
    modifies buf
    ensures r.Ok? ==> S.AllTokens(text, 0) == Some(tokens) && exists n: nat :: ProgramRead(tokens, n, ds)
    ensures r.Ok? ==> size <= buf.Length && Object(buf[..size], code, ds, u, buf.Length)
    ensures r.Ok? ==> (FnsPlaced(EnvOf(u.syms), code, u.fns) <==> !CalledEarly(NO_UNIT, 0, ds))
    ensures r.Ok? ==> (AllEncodable(code) <==> AllFnsEncodable(u.fns))
  {
    hide Object, FnsPlaced, EnvOf, CalledEarly, AllEncodable, AllFnsEncodable, ProgramRead;
    size, tokens, ds, u, code := 0, [], List.Nil, NO_UNIT, [];
    var scanned := S.ScanAll(text);
    if scanned.None? { return Panic(10), size, tokens, ds, u, code; }
    tokens := scanned.value;
    r, size, ds, u, code := Compile(scanned.value, buf);
  }

  /** From the program to the processor. Wherever the object code of a program is loaded, a call of any of its
      functions runs as the source says, for all arguments, memory, stacks and fuel, if no function is called early
      and all are encodable. */
  lemma ProgramCallOk(bytes: seq<u8>, code: seq<Insn>, ds: List<Decl>, u: CompUnit, limit: nat, base: nat, f: Name,
                      below: seq<u64>, ret: u64, vs: seq<u64>, s: State, fuel: nat)
      returns (k: nat, t: State)
    requires Object(bytes, code, ds, u, limit) && !CalledEarly(NO_UNIT, 0, ds) && AllFnsEncodable(u.fns)
      && base + limit < TWO64
    requires f in u.fns && |vs| == u.fns[f].arity && f in u.syms && u.syms[f].FnSymbol?
      && Some(s.pc) == OffsetOf(u.syms[f])
    requires s.stack == below + [ret] && |vs| <= MAX_REGISTERS && forall i :: 0 <= i < |vs| ==> s.regs[8 + i] == vs[i]
    ensures var P := Program(base, u.fns);
      var o := EvalFn(P, u.fns[f], vs, s.mem, fuel);
      ByteRun(base, bytes, s, k) == Some(t)
      && (o.Fault? ==> ByteStep(base, bytes, t).None?)
      && (o.Timeout? ==> k >= fuel)
      && (o.Done? ==>
            t.pc == ret - base && t.stack == below && t.mem == o.value.1
            && (o.value.0.Some? ==> t.regs[8] == o.value.0.value))
  {
    ObjectParts(bytes, code, ds, u, limit);
    hide *;
    ObjectMeans(bytes, code, ds, u, limit);
    PlacedAtSymbol(u, code, f);
    k, t := CompiledCallOk(Program(base, u.fns), bytes, code, limit, EnvOf(u.syms), f, below, ret, vs, s, fuel);
  }

  function OffsetOf(s: Symbol): Option<int> { if s.FnSymbol? && s.target.Some? then Some(s.target.value) else None }

  lemma ObjectParts(bytes: seq<u8>, code: seq<Insn>, ds: List<Decl>, u: CompUnit, limit: nat)
    requires Object(bytes, code, ds, u, limit)
    ensures |bytes| <= limit < 0x8000_0000 && Matches(bytes, code) && AllFinished(code, limit)
  {
    hide Matches, AllFinished, ElabDecls, Forwards, Compiled;
  }

  lemma PlacedAtSymbol(u: CompUnit, code: seq<Insn>, f: Name)
    requires FnsPlaced(EnvOf(u.syms), code, u.fns) && f in u.fns && f in u.syms
    ensures f in EnvOf(u.syms) && EnvOf(u.syms)[f].At? && OffsetOf(u.syms[f]) == Some(EnvOf(u.syms)[f].offset)
    ensures u.fns[f].arity <= MAX_REGISTERS
  {
    hide Segment, GenFn, ItemsFit;
    assert FnPlaced(EnvOf(u.syms), code, f, u.fns[f]);
  }
}
