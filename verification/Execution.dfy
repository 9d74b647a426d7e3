/** Reasoning about runs of the machine: code placed at an offset, straight-line code, and composition. */
module Execution {
  import opened Words
  import opened X86
  import opened Encoder
  import opened Codegen
  import opened Sizes

  /** The instructions `code` are placed one after the other from offset pc on. */
  ghost predicate CodeAt(M: Machine, pc: int, code: seq<Insn>)
    decreases |code|
  {
    code == [] ||
    (pc in M.code && M.code[pc] == (code[0], pc + Size(code[0])) && CodeAt(M, pc + Size(code[0]), code[1..]))
  }

  lemma {:induction false} CodeAtConcat(M: Machine, pc: int, a: seq<Insn>, b: seq<Insn>)
    ensures CodeAt(M, pc, a + b) <==> CodeAt(M, pc, a) && CodeAt(M, pc + SizeOf(a), b)
    ensures SizeOf(a + b) == SizeOf(a) + SizeOf(b)
    decreases |a|
  {
    if a == [] {
      assert a + b == b;
    } else {
      assert (a + b)[1..] == a[1..] + b;
      CodeAtConcat(M, pc + Size(a[0]), a[1..], b);
    }
  }

  lemma CodeAtConcat3(M: Machine, pc: int, a: seq<Insn>, b: seq<Insn>, c: seq<Insn>)
    ensures CodeAt(M, pc, a + b + c)
      <==> CodeAt(M, pc, a) && CodeAt(M, pc + SizeOf(a), b) && CodeAt(M, pc + SizeOf(a) + SizeOf(b), c)
    ensures SizeOf(a + b + c) == SizeOf(a) + SizeOf(b) + SizeOf(c)
  {
    CodeAtConcat(M, pc, a + b, c);
    CodeAtConcat(M, pc, a, b);
  }

  /** The instruction at s faults. */
  ghost predicate Stuck(M: Machine, s: State) { s.pc in M.code && Step(M, s).None? }

  /** s reaches t in k steps. */
  ghost predicate Reaches(M: Machine, s: State, k: nat, t: State) { Run(M, s, k) == Some(t) }

  lemma {:induction false} Compose(M: Machine, s: State, k1: nat, t: State, k2: nat, u: State)
    requires Reaches(M, s, k1, t) && Reaches(M, t, k2, u)
    ensures Reaches(M, s, k1 + k2, u)
    decreases k1
  {
    hide Step, Exec;
    if k1 > 0 {
      Compose(M, Step(M, s).value, k1 - 1, t, k2, u);
    }
  }

  lemma OneStep(M: Machine, s: State, i: Insn, t: State)
    requires CodeAt(M, s.pc, [i]) && Exec(M.base, i, s.pc + Size(i), s) == Some(t)
    ensures Reaches(M, s, 1, t)
  {
    assert Run(M, t, 0) == Some(t);
  }

  lemma StuckAt(M: Machine, s: State, i: Insn)
    requires CodeAt(M, s.pc, [i]) && Exec(M.base, i, s.pc + Size(i), s).None?
    ensures Stuck(M, s)
  {
  }
}
