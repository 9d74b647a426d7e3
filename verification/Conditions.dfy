/** How the one-pass compiler writes conditions: comparison by comparison, with jumps that wait for labels, of
    which the inner ones are resolved on the way. */
module Conditions {
  import opened Words
  import opened X86
  import opened Encoder
  import opened Source
  import opened Codegen
  import opened Sizes
  import opened Preservation
  import opened Layout
  import opened Patching
  import opened Syntax
  import opened Parsing

  // ----- code that does not wait for a label -----

  lemma EnvOfKnown(syms: Symbols)
    ensures AllKnown(EnvOf(syms))
  {
  }

  lemma SubEnvLocal(env: Env, id: nat, a: int)
    ensures SubEnv(env, Local(id), a) == env
  {
  }

  lemma SubTargetOther(t: Target, l: Label, a: int)
    ensures t != Ref(l) ==> SubTarget(t, l, a) == t
    ensures SubTarget(Ref(l), l, a) == At(a)
  {
  }

  lemma ExprFree(env: Env, e: Expr, n: nat, fs: int, id: nat)
    requires AllKnown(env)
    ensures Free(GenExpr(env, e, n, fs), Local(id))
  {
    hide *;
    SubEnvLocal(env, id, 0);
    SubstExpr(env, e, n, fs, Local(id), 0);
    FixedIsFree(GenExpr(env, e, n, fs), Local(id), 0);
  }

  lemma OrFree(env: Env, ands: BoolExpr, pc: int, fs: int, thenT: Target, elseT: Target, id: nat)
    requires AllKnown(env) && thenT != Ref(Local(id)) && elseT != Ref(Local(id))
    ensures Free(GenOr(env, ands, pc, fs, thenT, elseT), Local(id))
  {
    hide *;
    SubEnvLocal(env, id, 0);
    SubTargetOther(thenT, Local(id), 0);
    SubTargetOther(elseT, Local(id), 0);
    SubstOr(env, ands, pc, fs, thenT, elseT, Local(id), 0);
    FixedIsFree(GenOr(env, ands, pc, fs, thenT, elseT), Local(id), 0);
  }

  lemma BlockFree(env: Env, ss: List<Stmt>, pc: int, fs: nat, brk: Target, id: nat)
    requires AllKnown(env) && brk != Ref(Local(id))
    ensures Free(GenBlock(env, ss, pc, fs, brk), Local(id))
  {
    hide *;
    SubEnvLocal(env, id, 0);
    SubTargetOther(brk, Local(id), 0);
    SubstBlock(env, ss, pc, fs, brk, Local(id), 0);
    FixedIsFree(GenBlock(env, ss, pc, fs, brk), Local(id), 0);
  }

  lemma FreeConcat(a: seq<Insn>, b: seq<Insn>, l: Label)
    requires Free(a, l) && Free(b, l)
    ensures Free(a + b, l)
  {
  }

  lemma JumpFree(rel: RelToken, t: Target, l: Label)
    requires t != Ref(l)
    ensures Free(JumpInsns(rel, t), l)
  {
  }

  lemma {:induction false} HolesSame(code: seq<Insn>, more: seq<Insn>, l: Label)
    requires Free(more, l)
    ensures LastHole(code + more, l) == LastHole(code, l)
    decreases |more|
  {
    hide LastHole, Waits;
    if more == [] {
      assert code + more == code;
    } else {
      var init, i := more[..|more| - 1], more[|more| - 1];
      assert !Waits(i, l);
      HolesSame(code, init, l);
      assert code + more == (code + init) + [i];
      LastHoleSnoc(code + init, i, l);
    }
  }

  /** No jump of the code waits for a local label numbered n or more. */
  ghost predicate FreeFrom(code: seq<Insn>, n: nat) { forall id: nat :: n <= id ==> Free(code, Local(id)) }

  lemma KeptIsFree(code: seq<Insn>, size: nat, labels: nat)
    requires Kept(code, size, labels)
    ensures FreeFrom(code, labels)
  {
  }

  lemma FreeFromAt(code: seq<Insn>, n: nat, id: nat)
    requires FreeFrom(code, n) && n <= id
    ensures Free(code, Local(id))
  {
  }

  // ----- conjunctions -----

  function Operands(env: Env, c: Comparison, fs: int): seq<Insn> { GenExpr(env, c.l, 0, fs) + GenExpr(env, c.r, 1, fs) }

  /** A conjunction without the jump of its last comparison. */
  function AndBody(env: Env, cs: List<Comparison>, fs: int, elseT: Target): seq<Insn> {
    match cs
    case Nil => []
    case Cons(c, Nil) => Operands(env, c, fs)
    case Cons(c, rest) => Operands(env, c, fs) + JumpInsns(Negate(c.rel), elseT) + AndBody(env, rest, fs, elseT)
  }

  function LastRel(cs: List<Comparison>): RelToken
    requires cs.Cons?
  {
    if cs.tail.Nil? then cs.head.rel else LastRel(cs.tail)
  }

  lemma {:induction false} AndBodySnoc(env: Env, cs: List<Comparison>, c: Comparison, fs: int, elseT: Target)
    requires cs.Cons?
    ensures AndBody(env, Snoc(cs, c), fs, elseT)
      == AndBody(env, cs, fs, elseT) + JumpInsns(Negate(LastRel(cs)), elseT) + Operands(env, c, fs)
    ensures LastRel(Snoc(cs, c)) == c.rel
    decreases cs
  {
    hide Operands, JumpInsns, Negate;
    if cs.tail.Cons? { AndBodySnoc(env, cs.tail, c, fs, elseT); }
  }

  lemma {:induction false} GenAndBody(env: Env, cs: List<Comparison>, fs: int, elseT: Target, positive: bool,
                                      lastT: Target)
    requires cs.Cons?
    ensures GenAnd(env, cs, fs, elseT, positive, lastT)
      == AndBody(env, cs, fs, elseT) + JumpInsns(if positive then LastRel(cs) else Negate(LastRel(cs)), lastT)
    decreases cs
  {
    hide GenExpr, JumpInsns, Negate;
    if cs.tail.Cons? { GenAndBody(env, cs.tail, fs, elseT, positive, lastT); }
  }

  lemma {:induction false} AndBodyFree(env: Env, cs: List<Comparison>, fs: int, elseT: Target, id: nat)
    requires AllKnown(env) && elseT != Ref(Local(id))
    ensures Free(AndBody(env, cs, fs, elseT), Local(id))
    decreases cs
  {
    hide AllKnown, Free, JumpInsns, GenExpr, Negate;
    if cs.Cons? {
      OperandsFree(env, cs.head, fs, id);
      if cs.tail.Cons? {
        JumpFree(Negate(cs.head.rel), elseT, Local(id));
        AndBodyFree(env, cs.tail, fs, elseT, id);
        FreeConcat(Operands(env, cs.head, fs), JumpInsns(Negate(cs.head.rel), elseT), Local(id));
        FreeConcat(Operands(env, cs.head, fs) + JumpInsns(Negate(cs.head.rel), elseT),
          AndBody(env, cs.tail, fs, elseT), Local(id));
      }
    } else {
      FreeNothing(Local(id));
    }
  }

  lemma FreeNothing(l: Label)
    ensures Free([], l)
  {
  }

  lemma OperandsFree(env: Env, c: Comparison, fs: int, id: nat)
    requires AllKnown(env)
    ensures Free(Operands(env, c, fs), Local(id))
  {
    hide AllKnown, Free, GenExpr;
    ExprFree(env, c.l, 0, fs, id);
    ExprFree(env, c.r, 1, fs, id);
    FreeConcat(GenExpr(env, c.l, 0, fs), GenExpr(env, c.r, 1, fs), Local(id));
  }

  // ----- disjunctions -----

  /** The conjunctions of a disjunction that are followed by another one. */
  function OrDone(env: Env, done: BoolExpr, pc: int, fs: int, thenT: Target): seq<Insn> {
    match done
    case Nil => []
    case Cons(a, rest) =>
      var next := pc + AndSize(a, fs);
      GenAnd(env, a, fs, At(next), true, thenT) + OrDone(env, rest, next, fs, thenT)
  }

  lemma {:induction false} OrDoneSnoc(env: Env, done: BoolExpr, a: List<Comparison>, pc: int, fs: int, thenT: Target)
    ensures OrDone(env, Snoc(done, a), pc, fs, thenT)
      == OrDone(env, done, pc, fs, thenT) + GenAnd(env, a, fs, At(pc + OrSize(done, fs) + AndSize(a, fs)), true, thenT)
    decreases done
  {
    hide GenAnd, AndSize;
    if done.Cons? { OrDoneSnoc(env, done.tail, a, pc + AndSize(done.head, fs), fs, thenT); }
  }

  lemma {:induction false} GenOrDone(env: Env, done: BoolExpr, a: List<Comparison>, pc: int, fs: int, thenT: Target,
                                     elseT: Target)
    ensures GenOr(env, Snoc(done, a), pc, fs, thenT, elseT)
      == OrDone(env, done, pc, fs, thenT) + GenAnd(env, a, fs, elseT, false, elseT)
    decreases done
  {
    hide GenAnd, AndSize;
    if done.Cons? { GenOrDone(env, done.tail, a, pc + AndSize(done.head, fs), fs, thenT, elseT); }
  }

  lemma {:induction false} OrDoneSize(env: Env, done: BoolExpr, pc: int, fs: int, thenT: Target)
    ensures SizeOf(OrDone(env, done, pc, fs, thenT)) == OrSize(done, fs)
    decreases done
  {
    hide GenAnd, AndSize, SizeOf, AndFits;
    if done.Cons? {
      var next := pc + AndSize(done.head, fs);
      GenAndSize(env, done.head, fs, At(next), true, thenT);
      OrDoneSize(env, done.tail, next, fs, thenT);
      SizeOfConcat(GenAnd(env, done.head, fs, At(next), true, thenT), OrDone(env, done.tail, next, fs, thenT));
    } else {
      SizeOfNone();
    }
  }

  // ----- the grammar of lists built from the left -----

  lemma {:induction false} AndSnoc(syms: Symbols, cs: List<CompTree>, c: CompTree)
    requires cs.Cons? && GrammaticalAnd(cs) && GrammaticalComp(c) && ElabAnd(syms, cs).Some? && ElabComp(syms, c).Some?
    ensures GrammaticalAnd(Snoc(cs, c)) && PrintAnd(Snoc(cs, c)) == PrintAnd(cs) + [Tok(TC_AND)] + PrintComp(c)
    ensures ElabAnd(syms, Snoc(cs, c)) == Some(Snoc(ElabAnd(syms, cs).value, ElabComp(syms, c).value))
    decreases cs
  {
    hide GrammaticalComp, PrintComp, ElabComp;
    if cs.tail.Cons? {
      AndSnoc(syms, cs.tail, c);
      assert PrintComp(cs.head) + [Tok(TC_AND)] + (PrintAnd(cs.tail) + [Tok(TC_AND)] + PrintComp(c))
        == PrintComp(cs.head) + [Tok(TC_AND)] + PrintAnd(cs.tail) + [Tok(TC_AND)] + PrintComp(c);
    } else {
      AndOne(syms, c);
    }
  }

  lemma AndOne(syms: Symbols, c: CompTree)
    requires GrammaticalComp(c) && ElabComp(syms, c).Some?
    ensures var l := List.Cons(c, List.Nil);
      GrammaticalAnd(l) && PrintAnd(l) == PrintComp(c)
      && ElabAnd(syms, l) == Some(List.Cons(ElabComp(syms, c).value, List.Nil))
  {
    hide GrammaticalComp, PrintComp, ElabComp;
  }

  lemma {:induction false} AndFitsSnoc(cs: List<Comparison>, c: Comparison)
    requires AndFits(cs) && Fits(c.l, 0) && Fits(c.r, 1)
    ensures AndFits(Snoc(cs, c))
    decreases cs
  {
    hide Fits;
    if cs.tail.Cons? { AndFitsSnoc(cs.tail, c); }
  }

  /** The tokens of conjunctions that are each followed by ||. */
  function PrintDone(done: BoolTree): seq<Token> {
    if done.Nil? then [] else PrintAnd(done.head) + [Tok(TC_OR)] + PrintDone(done.tail)
  }

  predicate GrammaticalDone(done: BoolTree) { done.Cons? ==> GrammaticalAnd(done.head) && GrammaticalDone(done.tail) }

  predicate DoneFits(done: BoolExpr) { done.Cons? ==> AndFits(done.head) && DoneFits(done.tail) }

  lemma {:induction false} PrintDoneSnoc(done: BoolTree, a: List<CompTree>)
    ensures PrintDone(Snoc(done, a)) == PrintDone(done) + PrintAnd(a) + [Tok(TC_OR)]
    ensures PrintBool(Snoc(done, a)) == PrintDone(done) + PrintAnd(a)
    decreases done
  {
    hide PrintAnd;
    if done.Cons? { PrintDoneSnoc(done.tail, a); }
  }

  lemma {:induction false} DoneSnoc(syms: Symbols, done: BoolTree, a: List<CompTree>)
    requires GrammaticalDone(done) && GrammaticalAnd(a) && ElabBool(syms, done).Some? && ElabAnd(syms, a).Some?
    ensures GrammaticalDone(Snoc(done, a)) && GrammaticalBool(Snoc(done, a))
    ensures ElabBool(syms, Snoc(done, a)) == Some(Snoc(ElabBool(syms, done).value, ElabAnd(syms, a).value))
    decreases done
  {
    hide GrammaticalAnd, ElabAnd;
    if done.Cons? { DoneSnoc(syms, done.tail, a); }
  }

  lemma {:induction false} DoneFitsSnoc(done: BoolExpr, a: List<Comparison>)
    requires DoneFits(done) && AndFits(a)
    ensures DoneFits(Snoc(done, a)) && OrFits(Snoc(done, a))
    decreases done
  {
    hide AndFits;
    if done.Cons? { DoneFitsSnoc(done.tail, a); }
  }

  // ----- what it means that a condition has been compiled -----

  ghost predicate CompParsed(ts: seq<Token>, syms: Symbols, a: View, b: View, c: CompTree, core: Comparison) {
    && Read(ts, a.pos, b.pos, PrintComp(c)) && GrammaticalComp(c) && ElabComp(syms, c) == Some(core)
    && b.values == a.values && b.frame == a.frame && b.reg == 2 && Fits(core.l, 0) && Fits(core.r, 1)
    && b.code == a.code + Operands(EnvOf(syms), core, a.frame)
  }

  /** A conjunction, up to its last comparison, whose jump is not written yet. */
  ghost predicate AndParsed(ts: seq<Token>, syms: Symbols, a: View, b: View, cs: List<CompTree>,
                            core: List<Comparison>, elseL: nat) {
    && AndDerived(ts, syms, a.pos, b.pos, cs, core)
    && b.values == a.values && b.frame == a.frame && b.reg == 2 && AndFits(core)
    && b.code == a.code + AndBody(EnvOf(syms), core, a.frame, Ref(Local(elseL)))
  }

  ghost predicate AndDerived(ts: seq<Token>, syms: Symbols, i: nat, j: nat, cs: List<CompTree>,
                             core: List<Comparison>) {
    cs.Cons? && core.Cons? && Read(ts, i, j, PrintAnd(cs)) && GrammaticalAnd(cs) && ElabAnd(syms, cs) == Some(core)
  }

  ghost predicate DoneParsed(ts: seq<Token>, syms: Symbols, a: View, b: View, done: BoolTree, core: BoolExpr,
                             thenL: nat) {
    && a.pos <= b.pos <= |ts| && ts[a.pos..b.pos] == PrintDone(done) && GrammaticalDone(done)
    && ElabBool(syms, done) == Some(core)
    && b.values == a.values && b.frame == a.frame && DoneFits(core)
    && b.code == a.code + OrDone(EnvOf(syms), core, SizeOf(a.code), a.frame, Ref(Local(thenL)))
  }

  /** A whole condition, which goes to thenL or past its end when true, and to elseL when false. */
  ghost predicate BoolParsed(ts: seq<Token>, syms: Symbols, a: View, b: View, c: BoolTree, core: BoolExpr, thenL: nat,
                             elseL: nat) {
    && Read(ts, a.pos, b.pos, PrintBool(c)) && GrammaticalBool(c) && ElabBool(syms, c) == Some(core)
    && b.values == a.values && b.frame == a.frame && b.reg == 0 && OrFits(core)
    && b.code == a.code + GenOr(EnvOf(syms), core, SizeOf(a.code), a.frame, Ref(Local(thenL)), Ref(Local(elseL)))
  }

  lemma CompIntro(ts: seq<Token>, syms: Symbols, a: View, b: View, c: View, d: View, f: View, rel: RelToken,
                  x: Tree, xl: Elaborated, y: Tree, yl: Elaborated)
    requires Parsed(ts, syms, 8, a, b, x, xl) && a.reg == 0 && Read(ts, b.pos, c.pos, [Tok(rel)])
      && c == b.(pos := c.pos)
    requires Parsed(ts, syms, 8, c, d, y, yl) && xl.value.origin != FromVoid && yl.value.origin != FromVoid
    requires Comparable(xl.value, yl.value) && f == d.(values := a.values)
    ensures CompParsed(ts, syms, a, f, CompTree(rel, x, y), Comparison(rel, xl.core, yl.core))
  {
    hide Comparable, Parsed, Derives, Read, Grammatical, Rule, Elab, Adds, Coded, Marked, IsLvalue;
    ParsedParts(ts, syms, 8, a, b, x, xl);
    ParsedParts(ts, syms, 8, c, d, y, yl);
    DerivesRead(ts, syms, 8, a.pos, b.pos, x, xl);
    DerivesRead(ts, syms, 8, c.pos, d.pos, y, yl);
    ReadThree(ts, a.pos, b.pos, c.pos, d.pos, Print(x), [Tok(rel)], Print(y));
    OperandsAdd(syms, a, b, c, d, xl.core, yl.core, rel);
  }

  lemma OperandsAdd(syms: Symbols, a: View, b: View, c: View, d: View, x: Expr, y: Expr, rel: RelToken)
    requires Adds(syms, a, b, x) && a.reg == 0 && c.code == b.code && c.reg == 1 && c.frame == a.frame
      && Adds(syms, c, d, y)
    ensures Fits(x, 0) && Fits(y, 1) && d.code == a.code + Operands(EnvOf(syms), Comparison(rel, x, y), a.frame)
  {
    hide GenExpr, EnvOf, Fits;
  }

  lemma AndFirst(ts: seq<Token>, syms: Symbols, a: View, b: View, c: CompTree, core: Comparison, elseL: nat)
    requires CompParsed(ts, syms, a, b, c, core)
    ensures AndParsed(ts, syms, a, b, List.Cons(c, List.Nil), List.Cons(core, List.Nil), elseL)
  {
    hide Operands, Read, PrintComp, GrammaticalComp, ElabComp, EnvOf, Fits;
    AndOne(syms, c);
  }

  lemma AndNext(ts: seq<Token>, syms: Symbols, a: View, b: View, c: View, d: View, cs: List<CompTree>,
                core: List<Comparison>, x: CompTree, xl: Comparison, elseL: nat)
    requires AndParsed(ts, syms, a, b, cs, core, elseL) && Read(ts, b.pos, c.pos, [Tok(TC_AND)])
    requires c.values == b.values && c.frame == b.frame
    requires c.code == b.code + JumpInsns(Negate(LastRel(core)), Ref(Local(elseL))) && CompParsed(ts, syms, c, d, x, xl)
    ensures AndParsed(ts, syms, a, d, Snoc(cs, x), Snoc(core, xl), elseL)
  {
    hide Operands, Read, PrintComp, GrammaticalComp, ElabComp, EnvOf, Fits, PrintAnd, GrammaticalAnd, ElabAnd,
      AndFits, AndBody, LastRel, JumpInsns, Negate;
    AndSnoc(syms, cs, x);
    ReadThree(ts, a.pos, b.pos, c.pos, d.pos, PrintAnd(cs), [Tok(TC_AND)], PrintComp(x));
    AndBodySnoc(EnvOf(syms), core, xl, a.frame, Ref(Local(elseL)));
    AndFitsSnoc(core, xl);
  }

  lemma AndFacts(ts: seq<Token>, syms: Symbols, a: View, b: View, cs: List<CompTree>, core: List<Comparison>,
                 elseL: nat)
    requires AndParsed(ts, syms, a, b, cs, core, elseL)
    ensures a.pos < b.pos <= |ts| && b.values == a.values && b.frame == a.frame && b.reg == 2 && core.Cons?
  {
    hide Operands, PrintAnd, GrammaticalAnd, ElabAnd, AndFits, AndBody;
  }

  /** Reading a conjunction does not change the chains of other labels. */
  lemma AndHoles(ts: seq<Token>, syms: Symbols, a: View, b: View, cs: List<CompTree>, core: List<Comparison>,
                 elseL: nat, id: nat)
    requires AndParsed(ts, syms, a, b, cs, core, elseL) && id != elseL
    ensures LastHole(b.code, Local(id)) == LastHole(a.code, Local(id))
  {
    hide Operands, PrintAnd, GrammaticalAnd, ElabAnd, AndFits, AndBody, LastHole, AllKnown, EnvOf, AndDerived, Free;
    EnvOfKnown(syms);
    AndBodyFree(EnvOf(syms), core, a.frame, Ref(Local(elseL)), id);
    HolesSame(a.code, AndBody(EnvOf(syms), core, a.frame, Ref(Local(elseL))), Local(id));
  }

  lemma CompHoles(ts: seq<Token>, syms: Symbols, a: View, b: View, c: CompTree, core: Comparison, id: nat)
    requires CompParsed(ts, syms, a, b, c, core)
    ensures LastHole(b.code, Local(id)) == LastHole(a.code, Local(id))
  {
    AndFirst(ts, syms, a, b, c, core, id + 1);
    AndHoles(ts, syms, a, b, List.Cons(c, List.Nil), List.Cons(core, List.Nil), id + 1, id);
  }

  lemma NothingDone(ts: seq<Token>, syms: Symbols, a: View, thenL: nat)
    requires a.pos <= |ts|
    ensures DoneParsed(ts, syms, a, a, List.Nil, List.Nil, thenL)
  {
    hide SizeOf, EnvOf;
  }

  lemma DoneFacts(ts: seq<Token>, syms: Symbols, a: View, b: View, done: BoolTree, core: BoolExpr, thenL: nat)
    requires DoneParsed(ts, syms, a, b, done, core, thenL)
    ensures a.pos <= b.pos <= |ts| && b.values == a.values && b.frame == a.frame
    ensures SizeOf(b.code) == SizeOf(a.code) + OrSize(core, a.frame)
  {
    hide PrintDone, GrammaticalDone, ElabBool, OrDone, EnvOf, SizeOf, DoneFits, OrSize;
    OrDoneSize(EnvOf(syms), core, SizeOf(a.code), a.frame, Ref(Local(thenL)));
    SizeOfConcat(a.code, OrDone(EnvOf(syms), core, SizeOf(a.code), a.frame, Ref(Local(thenL))));
  }

  /** The last jump of a conjunction that is followed by ||, and the resolution of its label. */
  lemma DoneNext(ts: seq<Token>, syms: Symbols, a: View, b: View, c: View, d: View, done: BoolTree, doneCore: BoolExpr,
                 cs: List<CompTree>, core: List<Comparison>, thenL: nat, elseL: nat, jumped: seq<Insn>)
    requires DoneParsed(ts, syms, a, b, done, doneCore, thenL) && AndParsed(ts, syms, b, c, cs, core, elseL)
    requires Read(ts, c.pos, d.pos, [Tok(TC_OR)]) && d.values == c.values && d.frame == c.frame
    requires Free(b.code, Local(elseL)) && thenL != elseL
    requires jumped == c.code + JumpInsns(LastRel(core), Ref(Local(thenL)))
    requires d.code == Subst(jumped, Local(elseL), At(SizeOf(jumped)))
    ensures DoneParsed(ts, syms, a, d, Snoc(done, cs), Snoc(doneCore, core), thenL)
    ensures d.code == b.code + GenAnd(EnvOf(syms), core, a.frame, At(SizeOf(b.code) + AndSize(core, a.frame)), true,
      Ref(Local(thenL)))
  {
    hide *;
    DoneFacts(ts, syms, a, b, done, doneCore, thenL);
    AndFacts(ts, syms, b, c, cs, core, elseL);
    AndResolved(ts, syms, b, c, d, cs, core, thenL, elseL, jumped);
    DoneGrammar(ts, syms, a, b, c, d, done, doneCore, cs, core, thenL, elseL);
    OrDoneSnoc(EnvOf(syms), doneCore, core, SizeOf(a.code), a.frame, Ref(Local(thenL)));
    DoneCode(ts, syms, a, b, done, doneCore, thenL);
    DoneIntro(ts, syms, a, d, Snoc(done, cs), Snoc(doneCore, core), thenL);
  }

  lemma DoneCode(ts: seq<Token>, syms: Symbols, a: View, b: View, done: BoolTree, core: BoolExpr, thenL: nat)
    requires DoneParsed(ts, syms, a, b, done, core, thenL)
    ensures b.code == a.code + OrDone(EnvOf(syms), core, SizeOf(a.code), a.frame, Ref(Local(thenL)))
  {
    hide PrintDone, GrammaticalDone, ElabBool, OrDone, EnvOf, SizeOf, DoneFits, OrSize;
  }

  lemma DoneIntro(ts: seq<Token>, syms: Symbols, a: View, b: View, done: BoolTree, core: BoolExpr, thenL: nat)
    requires a.pos <= b.pos <= |ts| && ts[a.pos..b.pos] == PrintDone(done) && GrammaticalDone(done)
      && ElabBool(syms, done) == Some(core)
    requires b.values == a.values && b.frame == a.frame && DoneFits(core)
    requires b.code == a.code + OrDone(EnvOf(syms), core, SizeOf(a.code), a.frame, Ref(Local(thenL)))
    ensures DoneParsed(ts, syms, a, b, done, core, thenL)
  {
  }

  lemma DoneGrammar(ts: seq<Token>, syms: Symbols, a: View, b: View, c: View, d: View, done: BoolTree,
                    doneCore: BoolExpr, cs: List<CompTree>, core: List<Comparison>, thenL: nat, elseL: nat)
    requires DoneParsed(ts, syms, a, b, done, doneCore, thenL) && AndParsed(ts, syms, b, c, cs, core, elseL)
    requires Read(ts, c.pos, d.pos, [Tok(TC_OR)])
    ensures a.pos <= d.pos <= |ts| && ts[a.pos..d.pos] == PrintDone(Snoc(done, cs)) && GrammaticalDone(Snoc(done, cs))
    ensures ElabBool(syms, Snoc(done, cs)) == Some(Snoc(doneCore, core)) && DoneFits(Snoc(doneCore, core))
  {
    hide PrintDone, GrammaticalDone, ElabBool, OrDone, EnvOf, SizeOf, DoneFits, PrintAnd, GrammaticalAnd, ElabAnd,
      AndFits, AndBody;
    PrintDoneSnoc(done, cs);
    DoneSnoc(syms, done, cs);
    DoneFitsSnoc(doneCore, core);
    Split3(ts, a.pos, b.pos, c.pos, d.pos);
  }

  lemma AndResolved(ts: seq<Token>, syms: Symbols, b: View, c: View, d: View, cs: List<CompTree>,
                    core: List<Comparison>, thenL: nat, elseL: nat, jumped: seq<Insn>)
    requires AndParsed(ts, syms, b, c, cs, core, elseL) && Free(b.code, Local(elseL)) && thenL != elseL
    requires jumped == c.code + JumpInsns(LastRel(core), Ref(Local(thenL)))
    requires d.code == Subst(jumped, Local(elseL), At(SizeOf(jumped)))
    ensures d.code == b.code + GenAnd(EnvOf(syms), core, b.frame, At(SizeOf(b.code) + AndSize(core, b.frame)), true,
      Ref(Local(thenL)))
  {
    hide AndDerived, AndFits, AndBody, EnvOf, SizeOf, LastRel, JumpInsns, Subst, AllKnown, AndSize, SubEnv, SubTarget,
      GenAnd, Free;
    AndFacts(ts, syms, b, c, cs, core, elseL);
    var env, l, fs := EnvOf(syms), Local(elseL), b.frame;
    var target := SizeOf(jumped);
    var code := GenAnd(env, core, fs, Ref(l), true, Ref(Local(thenL)));
    GenAndBody(env, core, fs, Ref(l), true, Ref(Local(thenL)));
    assert jumped == b.code + code;
    SizeOfConcat(b.code, code);
    GenAndSize(env, core, fs, Ref(l), true, Ref(Local(thenL)));
    SubstConcat(b.code, code, l, At(target));
    SubstFree(b.code, l, At(target));
    EnvOfKnown(syms);
    SubstAnd(env, core, fs, Ref(l), true, Ref(Local(thenL)), l, target);
    SubEnvLocal(env, elseL, target);
    SubTargetOther(Ref(Local(thenL)), l, target);
  }

  /** The last jump of the last conjunction. */
  lemma BoolIntro(ts: seq<Token>, syms: Symbols, a: View, b: View, c: View, d: View, done: BoolTree, doneCore: BoolExpr,
                  cs: List<CompTree>, core: List<Comparison>, thenL: nat, elseL: nat)
    requires DoneParsed(ts, syms, a, b, done, doneCore, thenL) && AndParsed(ts, syms, b, c, cs, core, elseL)
    requires d.pos == c.pos && d.values == c.values && d.frame == c.frame && d.reg == 0
    requires d.code == c.code + JumpInsns(Negate(LastRel(core)), Ref(Local(elseL)))
    ensures BoolParsed(ts, syms, a, d, Snoc(done, cs), Snoc(doneCore, core), thenL, elseL)
  {
    hide PrintDone, GrammaticalDone, ElabBool, OrDone, EnvOf, SizeOf, DoneFits, PrintAnd, GrammaticalAnd, ElabAnd,
         AndFits, AndBody, LastRel, JumpInsns, Negate, GenOr, OrFits, GrammaticalBool, PrintBool, GenAnd;
    PrintDoneSnoc(done, cs);
    DoneSnoc(syms, done, cs);
    DoneFitsSnoc(doneCore, core);
    assert ts[a.pos..d.pos] == ts[a.pos..b.pos] + ts[b.pos..c.pos];
    GenAndBody(EnvOf(syms), core, a.frame, Ref(Local(elseL)), false, Ref(Local(elseL)));
    GenOrDone(EnvOf(syms), doneCore, core, SizeOf(a.code), a.frame, Ref(Local(thenL)), Ref(Local(elseL)));
  }
}
