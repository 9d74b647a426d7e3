/** How the one-pass compiler writes statements: the jumps out of conditions, over else branches and out of loops
    wait for labels that are resolved at the end of the statement. */
module Statements {
  import opened Words
  import opened X86
  import opened Encoder
  import opened Source
  import opened Codegen
  import opened Sizes
  import opened Preservation
  import opened Layout
  import opened Patching
  import opened Syntax
  import opened Parsing
  import opened Conditions

  // ----- resolving the labels of a statement -----

  /** The label of the then branch is resolved when the branch starts. */
  lemma ThenCode(env: Env, base: seq<Insn>, c: BoolExpr, fs: nat, thenL: nat, elseL: nat)
    requires AllKnown(env) && Free(base, Local(thenL)) && thenL != elseL
    ensures var pc := SizeOf(base);
      var code := base + GenOr(env, c, pc, fs, Ref(Local(thenL)), Ref(Local(elseL)));
      var b := pc + OrSize(c, fs);
      SizeOf(code) == b
      && Subst(code, Local(thenL), At(b)) == base + GenOr(env, c, pc, fs, At(b), Ref(Local(elseL)))
      && SizeOf(base + GenOr(env, c, pc, fs, At(b), Ref(Local(elseL)))) == b
  {
    hide *;
    var pc, l := SizeOf(base), Local(thenL);
    var cond := GenOr(env, c, pc, fs, Ref(l), Ref(Local(elseL)));
    var b := pc + OrSize(c, fs);
    SizeOfConcat(base, cond);
    GenOrSize(env, c, pc, fs, Ref(l), Ref(Local(elseL)));
    SubstConcat(base, cond, l, At(b));
    SubstFree(base, l, At(b));
    SubstOr(env, c, pc, fs, Ref(l), Ref(Local(elseL)), l, b);
    SubEnvLocal(env, thenL, b);
    SubTargetOther(Ref(Local(elseL)), l, b);
    GenOrSize(env, c, pc, fs, At(b), Ref(Local(elseL)));
    SizeOfConcat(base, GenOr(env, c, pc, fs, At(b), Ref(Local(elseL))));
  }

  /** The label of the else branch, resolved after a then branch and the jump over the else branch, if any. */
  lemma ElseCode(env: Env, base: seq<Insn>, c: BoolExpr, fs: nat, thn: List<Stmt>, brk: nat, elseL: nat,
                 over: seq<Insn>)
    requires AllKnown(env) && Free(base, Local(elseL)) && Free(over, Local(elseL)) && elseL != brk
    ensures var pc := SizeOf(base);
      var b := pc + OrSize(c, fs);
      var code := base + GenOr(env, c, pc, fs, At(b), Ref(Local(elseL))) + GenBlock(env, thn, b, fs, Ref(Local(brk)))
        + over;
      var e := b + BlockSize(thn, fs) + SizeOf(over);
      SizeOf(code) == e
      && Subst(code, Local(elseL), At(e)) == base + GenOr(env, c, pc, fs, At(b), At(e)) + GenBlock(env, thn, b, fs,
        Ref(Local(brk))) + over
      && SizeOf(base + GenOr(env, c, pc, fs, At(b), At(e)) + GenBlock(env, thn, b, fs, Ref(Local(brk))) + over) == e
  {
    hide *;
    var pc, l := SizeOf(base), Local(elseL);
    var b := pc + OrSize(c, fs);
    var e := b + BlockSize(thn, fs) + SizeOf(over);
    var cond, block := GenOr(env, c, pc, fs, At(b), Ref(l)), GenBlock(env, thn, b, fs, Ref(Local(brk)));
    SizeOfParts(base, cond, block, over);
    SizeOfParts(base, GenOr(env, c, pc, fs, At(b), At(e)), block, over);
    GenOrSize(env, c, pc, fs, At(b), Ref(l));
    GenOrSize(env, c, pc, fs, At(b), At(e));
    GenBlockSize(env, thn, b, fs, Ref(Local(brk)));
    SubstConcat(base + cond + block, over, l, At(e));
    SubstConcat3(base, cond, block, l, At(e));
    SubstFree(base, l, At(e));
    SubstFree(over, l, At(e));
    SubstOr(env, c, pc, fs, At(b), Ref(l), l, e);
    SubstBlock(env, thn, b, fs, Ref(Local(brk)), l, e);
    SubEnvLocal(env, elseL, e);
    SubTargetOther(Ref(Local(brk)), l, e);
    SubTargetKnown(b, l, e);
  }

  lemma SubTargetKnown(b: int, l: Label, a: int)
    ensures SubTarget(At(b), l, a) == At(b)
  {
  }

  lemma SizeOfParts(a: seq<Insn>, b: seq<Insn>, c: seq<Insn>, d: seq<Insn>)
    ensures SizeOf(a + b + c + d) == SizeOf(a) + SizeOf(b) + SizeOf(c) + SizeOf(d)
  {
    SizeOfConcat(a + b + c, d);
    SizeOfConcat3(a, b, c);
  }

  /** An if without else: the else label is resolved at its end. */
  lemma IfCode(env: Env, base: seq<Insn>, c: BoolExpr, fs: nat, thn: List<Stmt>, brk: nat, elseL: nat)
    requires AllKnown(env) && Free(base, Local(elseL)) && elseL != brk
    ensures var pc := SizeOf(base);
      var b := pc + OrSize(c, fs);
      var code := base + GenOr(env, c, pc, fs, At(b), Ref(Local(elseL))) + GenBlock(env, thn, b, fs, Ref(Local(brk)));
      Subst(code, Local(elseL), At(SizeOf(code))) == base + GenStmt(env, If(c, thn), pc, fs, Ref(Local(brk)))
  {
    hide SizeOf, GenOr, GenBlock, OrSize, BlockSize, AllKnown, Free, Subst;
    FreeNothing(Local(elseL));
    SizeOfNone();
    ElseCode(env, base, c, fs, thn, brk, elseL, []);
    var pc := SizeOf(base);
    var b := pc + OrSize(c, fs);
    var cond, block := GenOr(env, c, pc, fs, At(b), Ref(Local(elseL))), GenBlock(env, thn, b, fs, Ref(Local(brk)));
    assert base + cond + block + [] == base + cond + block;
    assert forall x: seq<Insn> :: base + x + block + [] == base + (x + block);
  }

  /** The jump over the else branch, while its end is not known. */
  function Over(thn: List<Stmt>, endL: nat): seq<Insn> {
    if BlockReachable(thn) then [Jmp(Ref(Local(endL)))] else []
  }

  lemma OverFacts(thn: List<Stmt>, endL: nat, end: int)
    ensures SizeOf(Over(thn, endL)) == if BlockReachable(thn) then 5 else 0
    ensures Subst(Over(thn, endL), Local(endL), At(end)) == JumpOver(thn, end)
    ensures forall id :: id != endL ==> Free(Over(thn, endL), Local(id))
  {
    hide BlockReachable, SizeOf;
    SizeOfOne(Jmp(Ref(Local(endL))));
    SizeOfNone();
    SubstOne(Jmp(Ref(Local(endL))), Local(endL), At(end));
  }

  /** The end of the else branch. */
  lemma EndIfCode(env: Env, base: seq<Insn>, c: BoolExpr, fs: nat, thn: List<Stmt>, els: List<Stmt>, brk: nat,
                  endL: nat)
    requires AllKnown(env) && Free(base, Local(endL)) && endL != brk
    ensures var pc := SizeOf(base);
      var b := pc + OrSize(c, fs);
      var e := b + BlockSize(thn, fs) + SizeOf(Over(thn, endL));
      var code := base + GenOr(env, c, pc, fs, At(b), At(e)) + GenBlock(env, thn, b, fs, Ref(Local(brk)))
        + Over(thn, endL)
                  + GenBlock(env, els, e, fs, Ref(Local(brk)));
      Subst(code, Local(endL), At(SizeOf(code))) == base + GenStmt(env, IfElse(c, thn, els), pc, fs, Ref(Local(brk)))
  {
    hide SizeOf, GenOr, GenBlock, OrSize, BlockSize, AllKnown, Free, Subst, Over, BlockReachable, SubEnv, SubTarget,
      JumpOver;
    var pc, l := SizeOf(base), Local(endL);
    var b := pc + OrSize(c, fs);
    var e := b + BlockSize(thn, fs) + SizeOf(Over(thn, endL));
    var cond, block, over := GenOr(env, c, pc, fs, At(b), At(e)), GenBlock(env, thn, b, fs, Ref(Local(brk))),
      Over(thn, endL);
    var last := GenBlock(env, els, e, fs, Ref(Local(brk)));
    var end := e + BlockSize(els, fs);
    SizeOfParts(base, cond, block, over);
    SizeOfConcat(base + cond + block + over, last);
    GenOrSize(env, c, pc, fs, At(b), At(e));
    GenBlockSize(env, thn, b, fs, Ref(Local(brk)));
    GenBlockSize(env, els, e, fs, Ref(Local(brk)));
    OverFacts(thn, endL, end);
    SubstConcat(base + cond + block + over, last, l, At(end));
    SubstConcat(base + cond + block, over, l, At(end));
    SubstConcat3(base, cond, block, l, At(end));
    SubstFree(base, l, At(end));
    SubstOr(env, c, pc, fs, At(b), At(e), l, end);
    SubstBlock(env, thn, b, fs, Ref(Local(brk)), l, end);
    SubstBlock(env, els, e, fs, Ref(Local(brk)), l, end);
    SubEnvLocal(env, endL, end);
    SubTargetOther(Ref(Local(brk)), l, end);
    SubTargetKnown(b, l, end);
    SubTargetKnown(e, l, end);
    assert base + cond + block + JumpOver(thn, end) + last == base + (cond + block + JumpOver(thn, end) + last);
  }

  /** The end of a loop, which its condition and its breaks wait for. */
  lemma WhileCode(env: Env, base: seq<Insn>, c: BoolExpr, fs: nat, body: List<Stmt>, endL: nat)
    requires AllKnown(env) && Free(base, Local(endL))
    ensures var pc := SizeOf(base);
      var b := pc + OrSize(c, fs);
      var code := base + GenOr(env, c, pc, fs, At(b), Ref(Local(endL))) + GenBlock(env, body, b, fs, Ref(Local(endL)))
        + [Jmp(At(pc))];
      forall brk :: Subst(code, Local(endL), At(SizeOf(code))) == base + GenStmt(env, While(c, body), pc, fs, brk)
  {
    hide SizeOf, GenOr, GenBlock, OrSize, BlockSize, AllKnown, Free, Subst, SubEnv, SubTarget;
    var pc, l := SizeOf(base), Local(endL);
    var b := pc + OrSize(c, fs);
    var end := b + BlockSize(body, fs) + 5;
    var cond, block, back := GenOr(env, c, pc, fs, At(b), Ref(l)), GenBlock(env, body, b, fs, Ref(l)), [Jmp(At(pc))];
    SizeOfParts(base, cond, block, back);
    SizeOfOne(Jmp(At(pc)));
    GenOrSize(env, c, pc, fs, At(b), Ref(l));
    GenBlockSize(env, body, b, fs, Ref(l));
    SubstConcat(base + cond + block, back, l, At(end));
    SubstConcat3(base, cond, block, l, At(end));
    SubstFree(base, l, At(end));
    SubstKnownJump(pc, l, end);
    SubstOr(env, c, pc, fs, At(b), Ref(l), l, end);
    SubstBlock(env, body, b, fs, Ref(l), l, end);
    SubEnvLocal(env, endL, end);
    SubTargetOther(At(b), l, end);
    SubTargetKnown(b, l, end);
    var c1, b1 := GenOr(env, c, pc, fs, At(b), At(end)), GenBlock(env, body, b, fs, At(end));
    assert base + c1 + b1 + back == base + (c1 + b1 + back);
  }

  lemma LoopCode(env: Env, base: seq<Insn>, fs: nat, body: List<Stmt>, endL: nat)
    requires AllKnown(env) && Free(base, Local(endL))
    ensures var pc := SizeOf(base);
      var code := base + GenBlock(env, body, pc, fs, Ref(Local(endL))) + [Jmp(At(pc))];
      forall brk :: Subst(code, Local(endL), At(SizeOf(code))) == base + GenStmt(env, Loop(body), pc, fs, brk)
  {
    hide SizeOf, GenBlock, BlockSize, AllKnown, Free, Subst, SubEnv, SubTarget;
    var pc, l := SizeOf(base), Local(endL);
    var end := pc + BlockSize(body, fs) + 5;
    var block, back := GenBlock(env, body, pc, fs, Ref(l)), [Jmp(At(pc))];
    SizeOfConcat3(base, block, back);
    SizeOfOne(Jmp(At(pc)));
    GenBlockSize(env, body, pc, fs, Ref(l));
    SubstConcat3(base, block, back, l, At(end));
    SubstFree(base, l, At(end));
    SubstKnownJump(pc, l, end);
    SubstBlock(env, body, pc, fs, Ref(l), l, end);
    SubEnvLocal(env, endL, end);
    SubTargetOther(At(pc), l, end);
    var b1 := GenBlock(env, body, pc, fs, At(end));
    assert base + b1 + back == base + (b1 + back);
  }

  // ----- a loop is left if and only if something waits for its end -----

  lemma {:induction false} NoBreakSame(env: Env, s: Stmt, pc: int, fs: nat, brk: Target, other: Target)
    requires !StmtBreaks(s)
    ensures GenStmt(env, s, pc, fs, brk) == GenStmt(env, s, pc, fs, other)
    decreases s
  {
    hide GenExpr, GenOr, SizeOf, OrSize, BlockSize, BlockReachable, StmtSize, ReturnInsns;
    match s
    case If(c, thn) => NoBreaksSame(env, thn, pc + OrSize(c, fs), fs, brk, other);
    case IfElse(c, thn, els) =>
      var b := pc + OrSize(c, fs);
      NoBreaksSame(env, thn, b, fs, brk, other);
      NoBreaksSame(env, els, b + BlockSize(thn, fs) + (if BlockReachable(thn) then 5 else 0), fs, brk, other);
    case _ =>
  }

  lemma {:induction false} NoBreaksSame(env: Env, ss: List<Stmt>, pc: int, fs: nat, brk: Target, other: Target)
    requires !Breaks(ss)
    ensures GenBlock(env, ss, pc, fs, brk) == GenBlock(env, ss, pc, fs, other)
    decreases ss
  {
    hide GenStmt, StmtSize;
    if ss.Cons? {
      NoBreakSame(env, ss.head, pc, fs, brk, other);
      NoBreaksSame(env, ss.tail, pc + StmtSize(ss.head, fs), fs, brk, other);
    }
  }

  /** The code has a jump that waits for l. */
  predicate Jumps(code: seq<Insn>, l: Label) { !Free(code, l) }

  lemma JumpsConcat(a: seq<Insn>, b: seq<Insn>, l: Label)
    requires Jumps(a, l) || Jumps(b, l)
    ensures Jumps(a + b, l)
  {
    if Free(a + b, l) {
      forall k | 0 <= k < |a| ensures !Waits(a[k], l) { assert (a + b)[k] == a[k]; }
      forall k | 0 <= k < |b| ensures !Waits(b[k], l) { assert (a + b)[|a| + k] == b[k]; }
    }
  }

  lemma {:induction false} BreakJumps(env: Env, s: Stmt, pc: int, fs: nat, l: Label)
    requires StmtBreaks(s)
    ensures Jumps(GenStmt(env, s, pc, fs, Ref(l)), l)
    decreases s
  {
    hide GenOr, OrSize, BlockSize, BlockReachable, Jumps;
    match s
    case Break => BreakJumpsItself(l);
    case If(c, thn) =>
      var b := pc + OrSize(c, fs);
      BreaksJump(env, thn, b, fs, l);
      JumpsConcat(GenOr(env, c, pc, fs, At(b), At(b + BlockSize(thn, fs))), GenBlock(env, thn, b, fs, Ref(l)), l);
    case IfElse(c, thn, els) =>
      var b := pc + OrSize(c, fs);
      var e := b + BlockSize(thn, fs) + (if BlockReachable(thn) then 5 else 0);
      var cond, block := GenOr(env, c, pc, fs, At(b), At(e)), GenBlock(env, thn, b, fs, Ref(l));
      var over, last := JumpOver(thn, e + BlockSize(els, fs)), GenBlock(env, els, e, fs, Ref(l));
      if Breaks(thn) {
        BreaksJump(env, thn, b, fs, l);
        JumpsConcat(cond, block, l);
        JumpsConcat(cond + block, over, l);
      } else {
        BreaksJump(env, els, e, fs, l);
      }
      JumpsConcat(cond + block + over, last, l);
  }

  lemma BreakJumpsItself(l: Label)
    ensures Jumps([Jmp(Ref(l))], l)
  {
    assert Waits([Jmp(Ref(l))][0], l);
  }

  lemma {:induction false} BreaksJump(env: Env, ss: List<Stmt>, pc: int, fs: nat, l: Label)
    requires Breaks(ss)
    ensures Jumps(GenBlock(env, ss, pc, fs, Ref(l)), l)
    decreases ss
  {
    hide GenStmt, StmtSize, Jumps;
    if StmtBreaks(ss.head) {
      BreakJumps(env, ss.head, pc, fs, l);
    } else {
      BreaksJump(env, ss.tail, pc + StmtSize(ss.head, fs), fs, l);
    }
    JumpsConcat(GenStmt(env, ss.head, pc, fs, Ref(l)), GenBlock(env, ss.tail, pc + StmtSize(ss.head, fs), fs, Ref(l)),
      l);
  }

  lemma {:induction false} NoHoleIsFree(code: seq<Insn>, l: Label)
    requires LastHole(code, l) == None
    ensures Free(code, l)
    decreases |code|
  {
    hide SizeOf, Waits;
    if code != [] {
      var init, i := code[..|code| - 1], code[|code| - 1];
      assert code == init + [i];
      LastHoleSnoc(init, i, l);
      NoHoleIsFree(init, l);
    }
  }

  /** The end of a loop is reachable exactly if its chain is not empty. */
  lemma LoopReachable(env: Env, base: seq<Insn>, pc: int, fs: nat, body: List<Stmt>, endL: nat)
    requires AllKnown(env) && Free(base, Local(endL))
    ensures LastHole(base + GenBlock(env, body, pc, fs, Ref(Local(endL))), Local(endL)).Some? <==> Breaks(body)
  {
    hide LastHole, GenBlock, AllKnown, Breaks, Free;
    var l := Local(endL);
    if Breaks(body) {
      BreaksJump(env, body, pc, fs, l);
      JumpsConcat(base, GenBlock(env, body, pc, fs, Ref(l)), l);
      if LastHole(base + GenBlock(env, body, pc, fs, Ref(l)), l) == None {
        NoHoleIsFree(base + GenBlock(env, body, pc, fs, Ref(l)), l);
      }
    } else {
      NoBreaksSame(env, body, pc, fs, Ref(l), At(0));
      BlockFree(env, body, pc, fs, At(0), endL);
      FreeConcat(base, GenBlock(env, body, pc, fs, Ref(l)), l);
      FreeHasNoHole(base + GenBlock(env, body, pc, fs, Ref(l)), l);
    }
  }

  // ----- what it means that a statement has been compiled -----

  ghost predicate StmtDerives(ts: seq<Token>, syms: Symbols, ret: Option<Type>, i: nat, j: nat, s: StmtTree, st: Stmt) {
    Read(ts, i, j, PrintStmt(s)) && GrammaticalStmt(s) && ElabStmt(syms, ret, s) == Some(st)
  }

  /** A break is accepted only in a loop, whose end has a label other than 0. */
  ghost predicate StmtCoded(syms: Symbols, a: View, b: View, st: Stmt, brk: nat) {
    && b.values == a.values && b.frame == a.frame && b.reg == 0 && StmtFits(st) && (brk == 0 ==> !StmtBreaks(st))
    && b.code == a.code + GenStmt(EnvOf(syms), st, SizeOf(a.code), a.frame, Ref(Local(brk)))
  }

  ghost predicate StmtsDerive(ts: seq<Token>, syms: Symbols, ret: Option<Type>, i: nat, j: nat, ss: List<StmtTree>,
                              sts: List<Stmt>) {
    i <= j <= |ts| && ts[i..j] == PrintStmts(ss) && GrammaticalBlock(ss) && ElabStmts(syms, ret, ss) == Some(sts)
  }

  ghost predicate BlockDerives(ts: seq<Token>, syms: Symbols, ret: Option<Type>, i: nat, j: nat, ss: List<StmtTree>,
                               sts: List<Stmt>) {
    Read(ts, i, j, PrintBlock(ss)) && GrammaticalBlock(ss) && ElabStmts(syms, ret, ss) == Some(sts)
  }

  ghost predicate BlockCoded(syms: Symbols, a: View, b: View, sts: List<Stmt>, brk: nat) {
    && b.values == a.values && b.frame == a.frame && b.reg == 0 && BlockFits(sts) && (brk == 0 ==> !Breaks(sts))
    && b.code == a.code + GenBlock(EnvOf(syms), sts, SizeOf(a.code), a.frame, Ref(Local(brk)))
  }

  ghost predicate BoolDerives(ts: seq<Token>, syms: Symbols, i: nat, j: nat, c: BoolTree, core: BoolExpr) {
    Read(ts, i, j, PrintBool(c)) && GrammaticalBool(c) && ElabBool(syms, c) == Some(core)
  }

  lemma BoolParts(ts: seq<Token>, syms: Symbols, a: View, b: View, c: BoolTree, core: BoolExpr, thenL: nat, elseL: nat)
    requires BoolParsed(ts, syms, a, b, c, core, thenL, elseL)
    ensures BoolDerives(ts, syms, a.pos, b.pos, c, core) && b.values == a.values && b.frame == a.frame && OrFits(core)
    ensures b.code == a.code + GenOr(EnvOf(syms), core, SizeOf(a.code), a.frame, Ref(Local(thenL)), Ref(Local(elseL)))
  {
    hide PrintBool, GrammaticalBool, ElabBool, OrFits, GenOr, EnvOf, SizeOf;
  }

  /** The condition does not change the chains of other labels. */
  lemma OrHoles(env: Env, base: seq<Insn>, core: BoolExpr, pc: int, fs: int, thenT: Target, elseT: Target, id: nat)
    requires AllKnown(env) && thenT != Ref(Local(id)) && elseT != Ref(Local(id))
    ensures LastHole(base + GenOr(env, core, pc, fs, thenT, elseT), Local(id)) == LastHole(base, Local(id))
  {
    hide *;
    OrFree(env, core, pc, fs, thenT, elseT, id);
    HolesSame(base, GenOr(env, core, pc, fs, thenT, elseT), Local(id));
  }

  lemma BlockHoles(syms: Symbols, a: View, b: View, sts: List<Stmt>, brk: nat, id: nat)
    requires BlockCoded(syms, a, b, sts, brk) && id != brk
    ensures LastHole(b.code, Local(id)) == LastHole(a.code, Local(id))
  {
    hide LastHole, GenBlock, EnvOf, AllKnown, Free, SizeOf, BlockFits, Breaks;
    EnvOfKnown(syms);
    BlockFree(EnvOf(syms), sts, SizeOf(a.code), a.frame, Ref(Local(brk)), id);
    HolesSame(a.code, GenBlock(EnvOf(syms), sts, SizeOf(a.code), a.frame, Ref(Local(brk))), Local(id));
  }

  lemma OverHoles(code: seq<Insn>, thn: List<Stmt>, endL: nat, id: nat)
    requires id != endL
    ensures LastHole(code + Over(thn, endL), Local(id)) == LastHole(code, Local(id))
  {
    hide LastHole, Over, Free;
    OverFacts(thn, endL, 0);
    HolesSame(code, Over(thn, endL), Local(id));
  }

  lemma StmtFacts(ts: seq<Token>, syms: Symbols, ret: Option<Type>, a: View, b: View, s: StmtTree, st: Stmt, brk: nat)
    requires StmtDerives(ts, syms, ret, a.pos, b.pos, s, st) && StmtCoded(syms, a, b, st, brk)
    ensures a.pos < b.pos <= |ts| && b.values == a.values && b.frame == a.frame && b.reg == 0
  {
    hide PrintStmt, GrammaticalStmt, ElabStmt, StmtFits, StmtBreaks, GenStmt, EnvOf, SizeOf;
  }

  lemma BlockFacts(ts: seq<Token>, syms: Symbols, ret: Option<Type>, a: View, b: View, ss: List<StmtTree>,
                   sts: List<Stmt>, brk: nat)
    requires BlockDerives(ts, syms, ret, a.pos, b.pos, ss, sts) && BlockCoded(syms, a, b, sts, brk)
    ensures a.pos < b.pos <= |ts| && b.values == a.values && b.frame == a.frame && b.reg == 0
    ensures b.code == a.code + GenBlock(EnvOf(syms), sts, SizeOf(a.code), a.frame, Ref(Local(brk)))
    ensures BlockFits(sts) && (brk == 0 ==> !Breaks(sts))
  {
    hide PrintBlock, GrammaticalBlock, ElabStmts, BlockFits, Breaks, GenBlock, EnvOf, SizeOf;
  }

  lemma BlockCodedFrom(syms: Symbols, a: View, a1: View, b: View, b1: View, sts: List<Stmt>, brk: nat)
    requires BlockCoded(syms, a, b, sts, brk)
    requires a1.code == a.code && a1.values == a.values && a1.frame == a.frame
    requires b1.code == b.code && b1.values == b.values && b1.frame == b.frame && b1.reg == b.reg
    ensures BlockCoded(syms, a1, b1, sts, brk)
  {
    hide GenBlock, EnvOf, SizeOf, BlockFits, Breaks;
  }

  // ----- the grammar of statements -----

  lemma DerivesEval(ts: seq<Token>, syms: Symbols, ret: Option<Type>, i: nat, j: nat, k: nat, e: Tree, el: Elaborated)
    requires Derives(ts, syms, 8, i, j, e, el) && Read(ts, j, k, [Tok(TC_SEMICOLON)])
    ensures StmtDerives(ts, syms, ret, i, k, TEval(e), Eval(el.core))
  {
    hide Read, Print, Grammatical, Rule, Elab;
    ReadMore(ts, i, j, k, Print(e), [Tok(TC_SEMICOLON)]);
  }

  lemma DerivesAssign(ts: seq<Token>, syms: Symbols, ret: Option<Type>, i: nat, j: nat, k: nat, m: nat, n: nat,
                      x: Tree, xl: Elaborated, y: Tree, yl: Elaborated, st: Stmt)
    requires Derives(ts, syms, 8, i, j, x, xl) && Read(ts, j, k, [Tok(TC_ASSIGN)]) && Derives(ts, syms, 8, k, m, y, yl)
    requires Read(ts, m, n, [Tok(TC_SEMICOLON)]) && ElabAssign(xl, yl) == Some(st)
    ensures StmtDerives(ts, syms, ret, i, n, TAssign(x, y), st)
  {
    hide Read, Print, Grammatical, Rule, Elab, ElabAssign;
    ReadThree(ts, i, j, k, m, Print(x), [Tok(TC_ASSIGN)], Print(y));
    ReadMore(ts, i, m, n, Print(x) + [Tok(TC_ASSIGN)] + Print(y), [Tok(TC_SEMICOLON)]);
  }

  lemma DerivesReturn(ts: seq<Token>, syms: Symbols, i: nat, j: nat)
    requires Read(ts, i, j, [Tok(TC_RETURN), Tok(TC_SEMICOLON)])
    ensures StmtDerives(ts, syms, None, i, j, TReturn, Return)
  {
  }

  lemma DerivesReturnValue(ts: seq<Token>, syms: Symbols, ret: Option<Type>, i: nat, j: nat, k: nat, l: nat, e: Tree,
                           el: Elaborated)
    requires Read(ts, i, j, [Tok(TC_RETURN)]) && Derives(ts, syms, 8, j, k, e, el)
      && Read(ts, k, l, [Tok(TC_SEMICOLON)])
    requires ret.Some? && el.value.origin != FromVoid && HasType(el.value, ret.value)
    ensures StmtDerives(ts, syms, ret, i, l, TReturnValue(e), ReturnValue(el.core))
  {
    hide Read, Print, Grammatical, Rule, Elab, HasType;
    ReadThree(ts, i, j, k, l, [Tok(TC_RETURN)], Print(e), [Tok(TC_SEMICOLON)]);
  }

  lemma DerivesBreak(ts: seq<Token>, syms: Symbols, ret: Option<Type>, i: nat, j: nat)
    requires Read(ts, i, j, [Tok(TC_BREAK), Tok(TC_SEMICOLON)])
    ensures StmtDerives(ts, syms, ret, i, j, TBreak, Break)
  {
  }

  lemma DerivesIf(ts: seq<Token>, syms: Symbols, ret: Option<Type>, i: nat, j: nat, k: nat, l: nat,
                  c: BoolTree, core: BoolExpr, ss: List<StmtTree>, sts: List<Stmt>)
    requires Read(ts, i, j, [Tok(TC_IF)]) && BoolDerives(ts, syms, j, k, c, core)
      && BlockDerives(ts, syms, ret, k, l, ss, sts)
    ensures StmtDerives(ts, syms, ret, i, l, TIf(c, ss), If(core, sts))
  {
    hide Read, PrintBool, PrintBlock, GrammaticalBool, GrammaticalBlock, ElabBool, ElabStmts;
    ReadThree(ts, i, j, k, l, [Tok(TC_IF)], PrintBool(c), PrintBlock(ss));
  }

  lemma DerivesIfElse(ts: seq<Token>, syms: Symbols, ret: Option<Type>, i: nat, l: nat, m: nat, n: nat,
                      c: BoolTree, core: BoolExpr, ss: List<StmtTree>, sts: List<Stmt>, els: List<StmtTree>,
                        elsts: List<Stmt>)
    requires StmtDerives(ts, syms, ret, i, l, TIf(c, ss), If(core, sts))
    requires Read(ts, l, m, [Tok(TC_ELSE)]) && BlockDerives(ts, syms, ret, m, n, els, elsts)
    ensures StmtDerives(ts, syms, ret, i, n, TIfElse(c, ss, els), IfElse(core, sts, elsts))
  {
    hide Read, PrintBool, PrintBlock, GrammaticalBool, GrammaticalBlock, ElabBool, ElabStmts;
    ReadThree(ts, i, l, m, n, [Tok(TC_IF)] + PrintBool(c) + PrintBlock(ss), [Tok(TC_ELSE)], PrintBlock(els));
  }

  lemma DerivesElseIf(ts: seq<Token>, syms: Symbols, ret: Option<Type>, i: nat, l: nat, m: nat, n: nat,
                      c: BoolTree, core: BoolExpr, ss: List<StmtTree>, sts: List<Stmt>, els: StmtTree, elst: Stmt)
    requires StmtDerives(ts, syms, ret, i, l, TIf(c, ss), If(core, sts))
    requires Read(ts, l, m, [Tok(TC_ELSE)]) && StmtDerives(ts, syms, ret, m, n, els, elst) && IsIf(els)
    ensures StmtDerives(ts, syms, ret, i, n, TElseIf(c, ss, els), IfElse(core, sts, List.Cons(elst, List.Nil)))
  {
    ElseIfUnfold(syms, ret, c, core, ss, sts, els, elst);
    hide Read, PrintBool, PrintBlock, GrammaticalBool, GrammaticalBlock, GrammaticalStmt, ElabBool, ElabStmts,
      ElabStmt, PrintStmt, IsIf;
    ReadThree(ts, i, l, m, n, [Tok(TC_IF)] + PrintBool(c) + PrintBlock(ss), [Tok(TC_ELSE)], PrintStmt(els));
  }

  lemma ElseIfUnfold(syms: Symbols, ret: Option<Type>, c: BoolTree, core: BoolExpr, ss: List<StmtTree>,
                     sts: List<Stmt>, els: StmtTree, elst: Stmt)
    requires GrammaticalStmt(TIf(c, ss)) && ElabStmt(syms, ret, TIf(c, ss)) == Some(If(core, sts))
    requires GrammaticalStmt(els) && ElabStmt(syms, ret, els) == Some(elst) && IsIf(els)
    ensures PrintStmt(TIf(c, ss)) == [Tok(TC_IF)] + PrintBool(c) + PrintBlock(ss)
    ensures PrintStmt(TElseIf(c, ss, els)) == [Tok(TC_IF)] + PrintBool(c) + PrintBlock(ss) + [Tok(TC_ELSE)]
      + PrintStmt(els)
    ensures GrammaticalStmt(TElseIf(c, ss, els))
    ensures ElabStmt(syms, ret, TElseIf(c, ss, els)) == Some(IfElse(core, sts, List.Cons(elst, List.Nil)))
  {
    hide PrintBool, PrintBlock, GrammaticalBool, GrammaticalBlock, ElabBool, ElabStmts;
  }

  lemma DerivesWhile(ts: seq<Token>, syms: Symbols, ret: Option<Type>, i: nat, j: nat, k: nat, l: nat,
                     c: BoolTree, core: BoolExpr, ss: List<StmtTree>, sts: List<Stmt>)
    requires Read(ts, i, j, [Tok(TC_WHILE)]) && BoolDerives(ts, syms, j, k, c, core)
      && BlockDerives(ts, syms, ret, k, l, ss, sts)
    ensures StmtDerives(ts, syms, ret, i, l, TWhile(c, ss), While(core, sts))
  {
    hide Read, PrintBool, PrintBlock, GrammaticalBool, GrammaticalBlock, ElabBool, ElabStmts;
    ReadThree(ts, i, j, k, l, [Tok(TC_WHILE)], PrintBool(c), PrintBlock(ss));
  }

  lemma DerivesLoop(ts: seq<Token>, syms: Symbols, ret: Option<Type>, i: nat, j: nat, k: nat, ss: List<StmtTree>,
                    sts: List<Stmt>)
    requires Read(ts, i, j, [Tok(TC_LOOP)]) && BlockDerives(ts, syms, ret, j, k, ss, sts)
    ensures StmtDerives(ts, syms, ret, i, k, TLoop(ss), Loop(sts))
  {
    hide Read, PrintBlock, GrammaticalBlock, ElabStmts;
    ReadMore(ts, i, j, k, [Tok(TC_LOOP)], PrintBlock(ss));
  }

  lemma DerivesBlock(ts: seq<Token>, syms: Symbols, ret: Option<Type>, i: nat, j: nat, k: nat, l: nat,
                     ss: List<StmtTree>, sts: List<Stmt>)
    requires Read(ts, i, j, [Tok(TC_OPEN_BLOCK)]) && StmtsDerive(ts, syms, ret, j, k, ss, sts)
      && Read(ts, k, l, [Tok(TC_CLOSE_BLOCK)])
    ensures BlockDerives(ts, syms, ret, i, l, ss, sts)
  {
    hide PrintStmts, GrammaticalBlock, ElabStmts;
    Split3(ts, i, j, k, l);
  }

  lemma {:induction false} StmtsSnoc(syms: Symbols, ret: Option<Type>, ss: List<StmtTree>, s: StmtTree)
    requires GrammaticalBlock(ss) && GrammaticalStmt(s) && ElabStmts(syms, ret, ss).Some?
      && ElabStmt(syms, ret, s).Some?
    ensures GrammaticalBlock(Snoc(ss, s)) && PrintStmts(Snoc(ss, s)) == PrintStmts(ss) + PrintStmt(s)
    ensures ElabStmts(syms, ret, Snoc(ss, s)) == Some(Snoc(ElabStmts(syms, ret, ss).value,
      ElabStmt(syms, ret, s).value))
    decreases ss
  {
    hide GrammaticalStmt, PrintStmt, ElabStmt;
    if ss.Cons? { StmtsSnoc(syms, ret, ss.tail, s); }
  }

  lemma StmtsDeriveSnoc(ts: seq<Token>, syms: Symbols, ret: Option<Type>, i: nat, j: nat, k: nat, ss: List<StmtTree>,
                        sts: List<Stmt>, s: StmtTree, st: Stmt)
    requires StmtsDerive(ts, syms, ret, i, j, ss, sts) && StmtDerives(ts, syms, ret, j, k, s, st)
    ensures StmtsDerive(ts, syms, ret, i, k, Snoc(ss, s), Snoc(sts, st))
  {
    hide GrammaticalStmt, PrintStmt, ElabStmt, GrammaticalBlock, PrintStmts, ElabStmts;
    StmtsSnoc(syms, ret, ss, s);
    Split(ts, i, j, k);
  }

  lemma NoStmts(ts: seq<Token>, syms: Symbols, ret: Option<Type>, a: View, brk: nat)
    requires a.pos <= |ts| && a.reg == 0
    ensures StmtsDerive(ts, syms, ret, a.pos, a.pos, List.Nil, List.Nil) && BlockCoded(syms, a, a, List.Nil, brk)
  {
    hide SizeOf, EnvOf;
  }

  // ----- the code of statements -----

  lemma {:induction false} BlockSnoc(env: Env, ss: List<Stmt>, s: Stmt, pc: int, fs: nat, brk: Target)
    ensures GenBlock(env, Snoc(ss, s), pc, fs, brk)
      == GenBlock(env, ss, pc, fs, brk) + GenStmt(env, s, pc + BlockSize(ss, fs), fs, brk)
    decreases ss
  {
    hide *;
    BlockUnfold(env, Snoc(ss, s), pc, fs, brk);
    BlockUnfold(env, ss, pc, fs, brk);
    SnocUnfold(ss, s);
    if ss.Cons? {
      BlockSnoc(env, ss.tail, s, pc + StmtSize(ss.head, fs), fs, brk);
      InsnsAssoc(GenStmt(env, ss.head, pc, fs, brk), GenBlock(env, ss.tail, pc + StmtSize(ss.head, fs), fs, brk),
        GenStmt(env, s, pc + BlockSize(ss, fs), fs, brk));
    } else {
      BlockUnfold(env, List.Nil, pc + StmtSize(s, fs), fs, brk);
      NoInsns(GenStmt(env, s, pc, fs, brk));
    }
  }

  lemma BlockUnfold(env: Env, ss: List<Stmt>, pc: int, fs: nat, brk: Target)
    ensures ss.Nil? ==> GenBlock(env, ss, pc, fs, brk) == [] && BlockSize(ss, fs) == 0
    ensures ss.Cons? ==>
      GenBlock(env, ss, pc, fs, brk) == GenStmt(env, ss.head, pc, fs, brk) + GenBlock(env, ss.tail,
        pc + StmtSize(ss.head, fs), fs, brk)
      && BlockSize(ss, fs) == StmtSize(ss.head, fs) + BlockSize(ss.tail, fs)
  {
    hide GenStmt, StmtSize;
  }

  lemma SnocUnfold<T>(s: List<T>, x: T)
    ensures Snoc(s, x) == if s.Nil? then List.Cons(x, List.Nil) else List.Cons(s.head, Snoc(s.tail, x))
  {
  }

  lemma InsnsAssoc(x: seq<Insn>, y: seq<Insn>, z: seq<Insn>)
    ensures x + (y + z) == x + y + z
  {
  }

  lemma NoInsns(x: seq<Insn>)
    ensures x + [] == x && [] + x == x
  {
  }

  lemma {:induction false} BlockSnocFacts(ss: List<Stmt>, s: Stmt)
    ensures Breaks(Snoc(ss, s)) <==> Breaks(ss) || StmtBreaks(s)
    ensures BlockReachable(Snoc(ss, s)) <==> BlockReachable(ss) && Reachable(s)
    ensures BlockFits(Snoc(ss, s)) <==> BlockFits(ss) && StmtFits(s)
    decreases ss
  {
    hide StmtBreaks, Reachable, StmtFits;
    if ss.Cons? { BlockSnocFacts(ss.tail, s); }
  }

  lemma BlockCodedSnoc(syms: Symbols, a: View, b: View, c: View, ss: List<Stmt>, s: Stmt, brk: nat)
    requires BlockCoded(syms, a, b, ss, brk) && StmtCoded(syms, b, c, s, brk)
    ensures BlockCoded(syms, a, c, Snoc(ss, s), brk)
  {
    hide StmtBreaks, StmtFits, Breaks, BlockFits, GenStmt, GenBlock, EnvOf, SizeOf, BlockSize;
    BlockSnocFacts(ss, s);
    BlockSnoc(EnvOf(syms), ss, s, SizeOf(a.code), a.frame, Ref(Local(brk)));
    SizeOfConcat(a.code, GenBlock(EnvOf(syms), ss, SizeOf(a.code), a.frame, Ref(Local(brk))));
    GenBlockSize(EnvOf(syms), ss, SizeOf(a.code), a.frame, Ref(Local(brk)));
  }

  lemma StmtAsBlock(syms: Symbols, a: View, b: View, s: Stmt, brk: nat)
    requires StmtCoded(syms, a, b, s, brk) && a.reg == 0
    ensures BlockCoded(syms, a, b, List.Cons(s, List.Nil), brk)
    ensures BlockReachable(List.Cons(s, List.Nil)) <==> Reachable(s)
  {
    hide StmtBreaks, StmtFits, GenStmt, EnvOf, SizeOf, StmtSize, Reachable, StmtCoded;
    NoStmts([], syms, None, a.(pos := 0), brk);
    BlockSnocFacts(List.Nil, s);
    BlockCodedFrom(syms, a.(pos := 0), a, a.(pos := 0), a, List.Nil, brk);
    BlockCodedSnoc(syms, a, a, b, List.Nil, s, brk);
  }

  lemma EvalCoded(ts: seq<Token>, syms: Symbols, a: View, b: View, c: View, e: Tree, el: Elaborated, brk: nat)
    requires Parsed(ts, syms, 8, a, b, e, el) && a.reg == 0
    requires c.code == b.code && c.values == a.values && c.frame == a.frame && c.reg == 0
    ensures StmtCoded(syms, a, c, Eval(el.core), brk)
  {
    hide Derives, GenExpr, EnvOf, SizeOf, Fits;
  }

  /** An assignment: the left side without its load, the right side, and a store. */
  lemma AssignCoded(ts: seq<Token>, syms: Symbols, a: View, b: View, c: View, d: View, f: View, x: Tree, xl: Elaborated,
                    y: Tree, yl: Elaborated, st: Stmt, brk: nat)
    requires Parsed(ts, syms, 8, a, b, x, xl) && a.reg == 0 && ElabAssign(xl, yl) == Some(st)
    requires b.code != [] && c.code == b.code[..|b.code| - 1] && c.frame == a.frame
    requires c.reg == if xl.value.origin == FromAddress then 1 else 0
    requires Parsed(ts, syms, 8, c, d, y, yl)
    requires f.values == a.values && f.frame == a.frame && f.reg == 0
    requires f.code == d.code + [if xl.value.origin == FromAddress then Store(R8, 8 * xl.value.slot, R9)
                                 else Store(RSP, 8 * (a.frame - xl.value.slot), R8)]
    ensures StmtCoded(syms, a, f, st, brk)
  {
    AssignUnfold(xl, yl, st);
    hide *;
    ParsedParts(ts, syms, 8, a, b, x, xl);
    ParsedParts(ts, syms, 8, c, d, y, yl);
    if xl.value.origin == FromAddress {
      SetFieldCoded(syms, a, b, c, d, f, xl.core.e, xl.core.field, yl.core, xl.value.slot, brk);
    } else {
      SetVarCoded(syms, a, b, c, d, f, xl.core.x, yl.core, xl.value.slot, brk);
    }
  }

  lemma AssignUnfold(xl: Elaborated, yl: Elaborated, st: Stmt)
    requires ElabAssign(xl, yl) == Some(st)
    ensures xl.value.origin != FromVoid && yl.value.origin != FromVoid
    ensures if xl.value.origin == FromAddress then xl.core.Field? && st == SetField(xl.core.e, xl.value.slot, yl.core)
            else xl.core.Var? && st == SetVar(xl.value.slot, yl.core)
  {
  }

  lemma SetFieldCoded(syms: Symbols, a: View, b: View, c: View, d: View, f: View, x: Expr, field: nat, y: Expr,
                      slot: nat, brk: nat)
    requires Adds(syms, a, b, Field(x, field)) && a.reg == 0 && b.code != [] && c.code == b.code[..|b.code| - 1]
    requires c.frame == a.frame && c.reg == 1 && Adds(syms, c, d, y)
    requires f.values == a.values && f.frame == a.frame && f.reg == 0 && f.code == d.code + [Store(R8, 8 * slot, R9)]
    ensures StmtCoded(syms, a, f, SetField(x, slot, y), brk)
  {
    hide EnvOf, High, SizeOf;
    var env := EnvOf(syms);
    assert c.code == a.code + GenExpr(env, x, 0, a.frame);
    assert f.code == a.code + (GenExpr(env, x, 0, a.frame) + GenExpr(env, y, 1, a.frame) + [Store(R8, 8 * slot, R9)]);
  }

  lemma SetVarCoded(syms: Symbols, a: View, b: View, c: View, d: View, f: View, x: nat, y: Expr, slot: nat, brk: nat)
    requires Adds(syms, a, b, Var(x)) && a.reg == 0 && b.code != [] && c.code == b.code[..|b.code| - 1]
    requires c.frame == a.frame && c.reg == 0 && Adds(syms, c, d, y)
    requires f.values == a.values && f.frame == a.frame && f.reg == 0
      && f.code == d.code + [Store(RSP, 8 * (a.frame - slot), R8)]
    ensures StmtCoded(syms, a, f, SetVar(slot, y), brk)
  {
    hide EnvOf, High, SizeOf;
    assert c.code == a.code;
    assert f.code == a.code + (GenExpr(EnvOf(syms), y, 0, a.frame) + [Store(RSP, 8 * (a.frame - slot), R8)]);
  }

  lemma ReturnCoded(syms: Symbols, a: View, b: View, brk: nat)
    requires b.values == a.values && b.frame == a.frame && b.reg == 0 && b.code == a.code + ReturnInsns(a.frame)
    ensures StmtCoded(syms, a, b, Return, brk)
  {
    hide ReturnInsns, EnvOf, SizeOf;
  }

  lemma ReturnValueCoded(ts: seq<Token>, syms: Symbols, a: View, b: View, c: View, e: Tree, el: Elaborated, brk: nat)
    requires Parsed(ts, syms, 8, a, b, e, el) && a.reg == 0 && el.value.origin != FromVoid
    requires c.values == a.values && c.frame == a.frame && c.reg == 0 && c.code == b.code + ReturnInsns(a.frame)
    ensures StmtCoded(syms, a, c, ReturnValue(el.core), brk)
  {
    hide Derives, GenExpr, EnvOf, SizeOf, Fits, ReturnInsns;
    assert c.code == a.code + (GenExpr(EnvOf(syms), el.core, 0, a.frame) + ReturnInsns(a.frame));
  }

  lemma BreakCoded(syms: Symbols, a: View, b: View, brk: nat)
    requires b.values == a.values && b.frame == a.frame && b.reg == 0 && brk != 0
      && b.code == a.code + [Jmp(Ref(Local(brk)))]
    ensures StmtCoded(syms, a, b, Break, brk)
  {
    hide EnvOf, SizeOf;
  }

  lemma StmtCodedFrom(syms: Symbols, a: View, a1: View, b: View, st: Stmt, brk: nat)
    requires StmtCoded(syms, a, b, st, brk) && a1.code == a.code && a1.values == a.values && a1.frame == a.frame
    ensures StmtCoded(syms, a1, b, st, brk)
  {
    hide GenStmt, EnvOf, SizeOf, StmtFits, StmtBreaks;
  }

  lemma StmtCodedTo(syms: Symbols, a: View, b: View, b1: View, st: Stmt, brk: nat)
    requires StmtCoded(syms, a, b, st, brk) && b1.code == b.code && b1.values == b.values && b1.frame == b.frame
      && b1.reg == b.reg
    ensures StmtCoded(syms, a, b1, st, brk)
  {
    hide GenStmt, EnvOf, SizeOf, StmtFits, StmtBreaks;
  }

  lemma AssignIs(xl: Elaborated, yl: Elaborated)
    requires IsLvalue(xl) && yl.value.origin != FromVoid && Comparable(xl.value, yl.value)
    ensures ElabAssign(xl, yl).Some?
  {
  }

  lemma KnownJumpHoles(code: seq<Insn>, target: int, id: nat)
    ensures LastHole(code + [Jmp(At(target))], Local(id)) == LastHole(code, Local(id))
  {
    LastHoleSnoc(code, Jmp(At(target)), Local(id));
  }

  /** A statement without break leaves the chain of breaks as it was. */
  lemma SimpleHoles(syms: Symbols, a: View, b: View, st: Stmt, brk: nat)
    requires StmtCoded(syms, a, b, st, brk)
    ensures !StmtBreaks(st) ==> LastHole(b.code, Local(brk)) == LastHole(a.code, Local(brk))
  {
    hide LastHole, GenStmt, EnvOf, AllKnown, Free, SizeOf, StmtFits, StmtBreaks;
    if !StmtBreaks(st) {
      var env, pc := EnvOf(syms), SizeOf(a.code);
      NoBreakSame(env, st, pc, a.frame, Ref(Local(brk)), At(0));
      EnvOfKnown(syms);
      StmtFree(env, st, pc, a.frame, At(0), brk);
      HolesSame(a.code, GenStmt(env, st, pc, a.frame, Ref(Local(brk))), Local(brk));
    }
  }

  lemma StmtFree(env: Env, s: Stmt, pc: int, fs: nat, brk: Target, id: nat)
    requires AllKnown(env) && brk != Ref(Local(id))
    ensures Free(GenStmt(env, s, pc, fs, brk), Local(id))
  {
    hide *;
    SubEnvLocal(env, id, 0);
    SubTargetOther(brk, Local(id), 0);
    SubstStmt(env, s, pc, fs, brk, Local(id), 0);
    FixedIsFree(GenStmt(env, s, pc, fs, brk), Local(id), 0);
  }

  lemma BlockReachableNil()
    ensures BlockReachable(List.Nil)
  {
  }

  lemma IsIfTree(s: StmtTree)
    ensures s.TIf? || s.TIfElse? || s.TElseIf? <==> IsIf(s)
  {
  }

  lemma OverIs(code: seq<Insn>, thn: List<Stmt>, endL: nat)
    ensures code + Over(thn, endL) == if BlockReachable(thn) then code + [Jmp(Ref(Local(endL)))] else code
    ensures LastHole(code, Local(endL)) == None && !BlockReachable(thn) ==>
      LastHole(code + Over(thn, endL), Local(endL)) == None
  {
    hide LastHole, BlockReachable;
    assert code + [] == code;
  }

  lemma BlockCodedFacts(syms: Symbols, a: View, b: View, sts: List<Stmt>, brk: nat)
    requires BlockCoded(syms, a, b, sts, brk)
    ensures b.code == a.code + GenBlock(EnvOf(syms), sts, SizeOf(a.code), a.frame, Ref(Local(brk)))
    ensures b.values == a.values && b.frame == a.frame && b.reg == 0 && BlockFits(sts) && (brk == 0 ==> !Breaks(sts))
  {
    hide BlockFits, Breaks, GenBlock, EnvOf, SizeOf;
  }

  lemma WhileCoded(syms: Symbols, a: View, b: View, c: BoolExpr, body: List<Stmt>, brk: nat)
    requires b.values == a.values && b.frame == a.frame && b.reg == 0 && OrFits(c) && BlockFits(body)
    requires b.code == a.code + GenStmt(EnvOf(syms), While(c, body), SizeOf(a.code), a.frame, Ref(Local(brk)))
    ensures StmtCoded(syms, a, b, While(c, body), brk) && Reachable(While(c, body))
  {
    hide GenStmt, EnvOf, SizeOf, OrFits, BlockFits;
  }

  lemma LoopCoded(syms: Symbols, a: View, b: View, body: List<Stmt>, brk: nat)
    requires b.values == a.values && b.frame == a.frame && b.reg == 0 && BlockFits(body)
    requires b.code == a.code + GenStmt(EnvOf(syms), Loop(body), SizeOf(a.code), a.frame, Ref(Local(brk)))
    ensures StmtCoded(syms, a, b, Loop(body), brk) && (Reachable(Loop(body)) <==> Breaks(body))
  {
    hide GenStmt, EnvOf, SizeOf, BlockFits, Breaks;
  }

  lemma IfCoded(syms: Symbols, a: View, b: View, c: BoolExpr, thn: List<Stmt>, brk: nat)
    requires b.values == a.values && b.frame == a.frame && b.reg == 0 && OrFits(c) && BlockFits(thn)
      && (brk == 0 ==> !Breaks(thn))
    requires b.code == a.code + GenStmt(EnvOf(syms), If(c, thn), SizeOf(a.code), a.frame, Ref(Local(brk)))
    ensures StmtCoded(syms, a, b, If(c, thn), brk) && Reachable(If(c, thn))
  {
    hide GenStmt, EnvOf, SizeOf, OrFits, BlockFits, Breaks;
  }

  lemma IfElseCoded(syms: Symbols, a: View, b: View, c: BoolExpr, thn: List<Stmt>, els: List<Stmt>, brk: nat)
    requires b.values == a.values && b.frame == a.frame && b.reg == 0 && OrFits(c) && BlockFits(thn) && BlockFits(els)
    requires brk == 0 ==> !Breaks(thn) && !Breaks(els)
    requires b.code == a.code + GenStmt(EnvOf(syms), IfElse(c, thn, els), SizeOf(a.code), a.frame, Ref(Local(brk)))
    ensures StmtCoded(syms, a, b, IfElse(c, thn, els), brk)
    ensures Reachable(IfElse(c, thn, els)) <==> BlockReachable(thn) || BlockReachable(els)
  {
    hide GenStmt, EnvOf, SizeOf, OrFits, BlockFits, Breaks, BlockReachable;
  }
}
