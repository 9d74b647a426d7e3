/** What each group of instructions the backend emits does to the machine. */
module Steps {
  import opened Words
  import opened X86
  import opened Encoder
  import opened Source
  import opened Codegen
  import opened Execution

  /** The top fs words of the stack are the current frame, and it starts with the variables. */
  ghost predicate Frame(stack: seq<u64>, fs: int, vars: seq<u64>) {
    |vars| <= fs <= |stack| && stack[|stack| - fs..|stack| - fs + |vars|] == vars
  }

  /** Registers 0 to n - 1 are the same in s and t. */
  ghost predicate Kept(s: State, t: State, n: nat)
    requires n <= MAX_REGISTERS
  {
    forall i :: 8 <= i < 8 + n ==> t.regs[i] == s.regs[i]
  }

  /** From s to t, code of the given size put v in register n, left the registers below n and the stack
      alone, and changed the memory to m. */
  ghost predicate Produces(s: State, t: State, n: nat, size: int, v: u64, m: Mem) {
    n < MAX_REGISTERS && t.pc == s.pc + size && t.stack == s.stack && t.mem == m
    && t.regs[8 + n] == v && Kept(s, t, n)
  }

  lemma LitOk(M: Machine, s: State, n: nat, v: u64) returns (t: State)
    requires n < MAX_REGISTERS && CodeAt(M, s.pc, [CstInsn(n, v)])
    ensures Reaches(M, s, 1, t) && Produces(s, t, n, Size(CstInsn(n, v)), v, s.mem)
  {
    var i := CstInsn(n, v);
    t := Exec(M.base, i, s.pc + Size(i), s).value;
    OneStep(M, s, i, t);
  }

  lemma AddressOk(M: Machine, s: State, n: nat, a: int) returns (t: State)
    requires n < MAX_REGISTERS && CodeAt(M, s.pc, [LeaRip(High(n), a)])
    ensures Reaches(M, s, 1, t) && Produces(s, t, n, 7, Wrap(M.base + a), s.mem)
  {
    var i := LeaRip(High(n), a);
    t := Exec(M.base, i, s.pc + Size(i), s).value;
    OneStep(M, s, i, t);
  }

  lemma VarOk(M: Machine, s: State, n: nat, fs: int, vars: seq<u64>, x: nat) returns (t: State)
    requires n < MAX_REGISTERS && Frame(s.stack, fs, vars) && 1 <= x <= |vars|
    requires CodeAt(M, s.pc, [Load(High(n), RSP, 8 * (fs - x))])
    ensures Reaches(M, s, 1, t) && Produces(s, t, n, Size(Load(High(n), RSP, 8 * (fs - x))), vars[x - 1], s.mem)
  {
    var i := Load(High(n), RSP, 8 * (fs - x));
    assert 8 * (fs - x) / 8 == fs - x;
    assert s.stack[|s.stack| - fs..|s.stack| - fs + |vars|][x - 1] == s.stack[|s.stack| - fs + (x - 1)];
    t := Exec(M.base, i, s.pc + Size(i), s).value;
    OneStep(M, s, i, t);
  }

  /** Continues a state that produced an address in register n with the load of a field. */
  lemma FieldOk(M: Machine, s: State, n: nat, a: u64, field: nat) returns (k: nat, t: State)
    requires n < MAX_REGISTERS && s.regs[8 + n] == a
    requires CodeAt(M, s.pc, [Load(High(n), High(n), 8 * field)])
    ensures Reaches(M, s, k, t)
    ensures match Load64(s.mem, FieldAddress(a, field))
      case Some(v) => Produces(s, t, n, Size(Load(High(n), High(n), 8 * field)), v, s.mem)
      case None => Stuck(M, t)
  {
    var i := Load(High(n), High(n), 8 * field);
    var u := Exec(M.base, i, s.pc + Size(i), s);
    if u.Some? {
      k, t := 1, u.value;
      OneStep(M, s, i, t);
    } else {
      k, t := 0, s;
      StuckAt(M, s, i);
    }
  }

  lemma FieldAddrOk(M: Machine, s: State, n: nat, a: u64, field: nat) returns (k: nat, t: State)
    requires n < MAX_REGISTERS && s.regs[8 + n] == a
    requires CodeAt(M, s.pc, FieldAddrInsns(n, field))
    ensures Reaches(M, s, k, t)
    ensures Produces(s, t, n, SizeOf(FieldAddrInsns(n, field)), FieldAddress(a, field), s.mem)
  {
    if field == 0 {
      k, t := 0, s;
    } else {
      var i := AddImm(High(n), 8 * field);
      t := Exec(M.base, i, s.pc + Size(i), s).value;
      k := 1;
      OneStep(M, s, i, t);
    }
  }

  lemma ShiftCount(y: u64)
    ensures y % TWO32 % 256 % 64 == y % 64
  {
    var a, b := y / TWO32, y % TWO32;
    var c, d := b / 256, b % 256;
    assert y == 64 * (67108864 * a + 4 * c) + d;
  }

  /** The instructions of one-instruction operations. */
  lemma SimpleBinOk(M: Machine, s: State, n: nat, op: BinOp) returns (t: State)
    requires n + 1 < MAX_REGISTERS && CodeAt(M, s.pc, BinInsns(op, n))
    requires op in {Plus, Minus, Times, Conj, Disj}
    ensures Reaches(M, s, 1, t)
    ensures EvalBin(op, s.regs[8 + n], s.regs[9 + n]).Some?
    ensures Produces(s, t, n, SizeOf(BinInsns(op, n)), EvalBin(op, s.regs[8 + n], s.regs[9 + n]).value, s.mem)
  {
    var i := BinInsns(op, n)[0];
    t := Exec(M.base, i, s.pc + Size(i), s).value;
    OneStep(M, s, i, t);
  }

  lemma ShiftOk(M: Machine, s: State, n: nat, op: BinOp) returns (t: State)
    requires n + 1 < MAX_REGISTERS && CodeAt(M, s.pc, BinInsns(op, n))
    requires op in {LeftShift, RightShift}
    ensures Reaches(M, s, 2, t)
    ensures EvalBin(op, s.regs[8 + n], s.regs[9 + n]).Some?
    ensures Produces(s, t, n, SizeOf(BinInsns(op, n)), EvalBin(op, s.regs[8 + n], s.regs[9 + n]).value, s.mem)
  {
    var code := BinInsns(op, n);
    var i, j := code[0], code[1];
    assert code == [i] + [j];
    CodeAtConcat(M, s.pc, [i], [j]);
    var u := Exec(M.base, i, s.pc + Size(i), s).value;
    OneStep(M, s, i, u);
    assert u.regs[RCX] == s.regs[9 + n] % TWO32;
    ShiftCount(s.regs[9 + n]);
    t := Exec(M.base, j, u.pc + Size(j), u).value;
    OneStep(M, u, j, t);
    Compose(M, s, 1, u, 1, t);
  }

  /** Four instructions: the high half of the dividend is cleared, so the quotient always fits. */
  lemma DivOk(M: Machine, s: State, n: nat) returns (k: nat, t: State)
    requires n + 1 < MAX_REGISTERS && CodeAt(M, s.pc, BinInsns(Quotient, n))
    ensures Reaches(M, s, k, t)
    ensures if s.regs[9 + n] == 0 then Stuck(M, t)
      else Produces(s, t, n, SizeOf(BinInsns(Quotient, n)), ShiftedRight(s.regs[8 + n], s.regs[9 + n]), s.mem)
  {
    var code := BinInsns(Quotient, n);
    CodeAtConcat(M, s.pc, code[..2], code[2..]);
    assert code == code[..2] + code[2..];
    var u := ClearHighHalf(M, s, n);
    CodeAtConcat(M, u.pc, [code[2]], [code[3]]);
    assert code[2..] == [code[2]] + [code[3]];
    var x, y := s.regs[8 + n], s.regs[9 + n];
    var i := Div(High(n + 1));
    if y == 0 {
      k, t := 2, u;
      StuckAt(M, u, i);
    } else {
      DivideWord(x, y);
      var w := Exec(M.base, i, u.pc + Size(i), u).value;
      OneStep(M, u, i, w);
      var j := code[3];
      t := Exec(M.base, j, w.pc + Size(j), w).value;
      OneStep(M, w, j, t);
      Compose(M, u, 1, w, 1, t);
      Compose(M, s, 2, u, 2, t);
      k := 4;
    }
  }

  lemma DivideWord(x: u64, y: u64)
    requires y != 0
    ensures Divide(0, x, y).Some? && Divide(0, x, y).value.0 == ShiftedRight(x, y)
  {
    assert x / y <= x by { QuotientBound(x, y); }
  }

  lemma QuotientBound(x: nat, y: nat)
    requires y > 0
    ensures 0 <= x / y <= x
  {
    var q := x / y;
    assert x == q * y + x % y;
    assert q * y >= q by { if q > 0 { ProductAtLeast(q, y); } }
  }

  lemma ProductAtLeast(q: int, y: nat)
    requires y > 0 && q > 0
    ensures q * y >= q
  {
  }

  lemma ClearHighHalf(M: Machine, s: State, n: nat) returns (t: State)
    requires n + 1 < MAX_REGISTERS && CodeAt(M, s.pc, BinInsns(Quotient, n)[..2])
    ensures Reaches(M, s, 2, t) && t.pc == s.pc + 5 && t.stack == s.stack && t.mem == s.mem
    ensures t.regs == s.regs[RDX := 0][RAX := s.regs[8 + n]]
  {
    var i, j := Alu(Xor, RDX, RDX, false), Alu(Mov, RAX, High(n), true);
    assert BinInsns(Quotient, n)[..2] == [i] + [j];
    CodeAtConcat(M, s.pc, [i], [j]);
    var u := Exec(M.base, i, s.pc + Size(i), s).value;
    OneStep(M, s, i, u);
    t := Exec(M.base, j, u.pc + Size(j), u).value;
    OneStep(M, u, j, t);
    Compose(M, s, 1, u, 1, t);
  }

  lemma BinOk(M: Machine, s: State, n: nat, op: BinOp) returns (k: nat, t: State)
    requires n + 1 < MAX_REGISTERS && CodeAt(M, s.pc, BinInsns(op, n))
    ensures Reaches(M, s, k, t)
    ensures match EvalBin(op, s.regs[8 + n], s.regs[9 + n])
      case Some(v) => Produces(s, t, n, SizeOf(BinInsns(op, n)), v, s.mem)
      case None => Stuck(M, t)
  {
    if op == Quotient {
      k, t := DivOk(M, s, n);
    } else if op == LeftShift || op == RightShift {
      k := 2;
      t := ShiftOk(M, s, n, op);
    } else {
      k := 1;
      t := SimpleBinOk(M, s, n, op);
    }
  }

  // ----- saving and restoring registers around a call -----

  /** The words pushed by SaveInsns(n), lowest first: registers n - 1 down to 0. */
  ghost function SavedRegs(regs: Regs, n: nat): (r: seq<u64>)
    requires n <= MAX_REGISTERS
    ensures |r| == n
  {
    seq(n, j requires 0 <= j < n => regs[7 + n - j])
  }

  lemma {:induction false} SaveOk(M: Machine, s: State, n: nat) returns (t: State)
    requires n <= MAX_REGISTERS && CodeAt(M, s.pc, SaveInsns(n))
    ensures Reaches(M, s, n, t)
    ensures t == s.(pc := s.pc + SizeOf(SaveInsns(n)), stack := s.stack + SavedRegs(s.regs, n))
    decreases n
  {
    t := s;
    if n > 0 {
      var i := Push(High(n - 1));
      assert SaveInsns(n) == [i] + SaveInsns(n - 1);
      CodeAtConcat(M, s.pc, [i], SaveInsns(n - 1));
      var u := Exec(M.base, i, s.pc + Size(i), s).value;
      OneStep(M, s, i, u);
      t := SaveOk(M, u, n - 1);
      Compose(M, s, 1, u, n - 1, t);
      assert u.stack + SavedRegs(u.regs, n - 1) == s.stack + SavedRegs(s.regs, n);
    } else {
      assert s.stack + SavedRegs(s.regs, n) == s.stack;
    }
  }

  /** Pops registers z to n - 1, provided the stack holds what SaveInsns(n) pushed in state s0, without the
      z words already popped. */
  lemma {:induction false} RestoreOk(M: Machine, s0: State, stack: seq<u64>, s: State, z: nat, n: nat)
      returns (t: State)
    requires z <= n <= MAX_REGISTERS && CodeAt(M, s.pc, RestoreInsns(z, n))
    requires s.stack == stack + SavedRegs(s0.regs, n)[..n - z]
    ensures Reaches(M, s, n - z, t)
    ensures t.pc == s.pc + SizeOf(RestoreInsns(z, n)) && t.stack == stack && t.mem == s.mem
    ensures forall i :: 8 <= i < 16 ==> t.regs[i] == if 8 + z <= i < 8 + n then s0.regs[i] else s.regs[i]
    decreases n - z
  {
    t := s;
    if z < n {
      var i := Pop(High(z));
      assert RestoreInsns(z, n) == [i] + RestoreInsns(z + 1, n);
      CodeAtConcat(M, s.pc, [i], RestoreInsns(z + 1, n));
      var u := Exec(M.base, i, s.pc + Size(i), s).value;
      OneStep(M, s, i, u);
      assert u.stack == stack + SavedRegs(s0.regs, n)[..n - (z + 1)];
      t := RestoreOk(M, s0, stack, u, z + 1, n);
      Compose(M, s, 1, u, n - (z + 1), t);
    }
  }

  lemma ResultOk(M: Machine, s: State, n: nat) returns (k: nat, t: State)
    requires n < MAX_REGISTERS && CodeAt(M, s.pc, ResultInsns(n))
    ensures Reaches(M, s, k, t)
    ensures t.pc == s.pc + SizeOf(ResultInsns(n)) && t.stack == s.stack && t.mem == s.mem
    ensures t.regs[8 + n] == s.regs[8]
  {
    if n == 0 {
      k, t := 0, s;
    } else {
      var i := Alu(Mov, High(n), R8, true);
      t := Exec(M.base, i, s.pc + Size(i), s).value;
      k := 1;
      OneStep(M, s, i, t);
    }
  }

  // ----- comparisons -----

  lemma NegateMeaning(rel: RelToken, x: u64, y: u64)
    ensures EvalRel(Negate(rel), x, y) == !EvalRel(rel, x, y)
  {
  }

  lemma ConditionMeaning(rel: RelToken, x: u64, y: u64)
    ensures Holds(CondOf(rel), x < y, x == y) == EvalRel(rel, x, y)
  {
  }

  /** A comparison of registers 0 and 1 and the jump on it. */
  lemma JumpOk(M: Machine, s: State, rel: RelToken, target: int) returns (t: State)
    requires CodeAt(M, s.pc, JumpInsns(rel, At(target)))
    ensures Reaches(M, s, 2, t)
    ensures t.pc == if EvalRel(rel, s.regs[8], s.regs[9]) then target else s.pc + SizeOf(JumpInsns(rel, At(target)))
    ensures t.stack == s.stack && t.mem == s.mem
  {
    var i, j := Cmp(R8, R9), Jcc(CondOf(rel), At(target));
    assert JumpInsns(rel, At(target)) == [i] + [j];
    CodeAtConcat(M, s.pc, [i], [j]);
    ConditionMeaning(rel, s.regs[8], s.regs[9]);
    var u := Exec(M.base, i, s.pc + Size(i), s).value;
    OneStep(M, s, i, u);
    hide EvalRel, CondOf;
    t := Exec(M.base, j, u.pc + Size(j), u).value;
    OneStep(M, u, j, t);
    Compose(M, s, 1, u, 1, t);
  }

  lemma GotoOk(M: Machine, s: State, target: int) returns (t: State)
    requires CodeAt(M, s.pc, [Jmp(At(target))])
    ensures Reaches(M, s, 1, t) && t == s.(pc := target)
  {
    t := s.(pc := target);
    OneStep(M, s, Jmp(At(target)), t);
  }

  /** Leaving a function: the frame is dropped and the return address popped. */
  lemma ReturnOk(M: Machine, s: State, below: seq<u64>, ret: u64, vars: seq<u64>) returns (k: nat, t: State)
    requires s.stack == below + [ret] + vars && CodeAt(M, s.pc, ReturnInsns(|vars|))
    ensures Reaches(M, s, k, t) && t.pc == ret - M.base && t.stack == below && t.mem == s.mem && t.regs == s.regs
  {
    var fs := |vars|;
    var u := s;
    k := 0;
    if fs != 0 {
      var i := AddImm(RSP, 8 * fs);
      assert ReturnInsns(fs) == [i] + [Ret];
      CodeAtConcat(M, s.pc, [i], [Ret]);
      assert s.stack[..|s.stack| - fs] == below + [ret];
      u := Exec(M.base, i, s.pc + Size(i), s).value;
      OneStep(M, s, i, u);
      k := 1;
    }
    assert u.stack == below + [ret];
    t := Exec(M.base, Ret, u.pc + Size(Ret), u).value;
    assert u.stack[..|u.stack| - 1] == below;
    OneStep(M, u, Ret, t);
    Compose(M, s, k, u, 1, t);
    k := k + 1;
  }

  /** Storing register 0 in a variable. */
  lemma SetVarOk(M: Machine, s: State, below: seq<u64>, ret: u64, vars: seq<u64>, x: nat) returns (t: State)
    requires s.stack == below + [ret] + vars && 1 <= x <= |vars|
    requires CodeAt(M, s.pc, [Store(RSP, 8 * (|vars| - x), R8)])
    ensures Reaches(M, s, 1, t)
    ensures t.pc == s.pc + Size(Store(RSP, 8 * (|vars| - x), R8))
    ensures t.stack == below + [ret] + vars[x - 1 := s.regs[8]] && t.mem == s.mem
  {
    var i := Store(RSP, 8 * (|vars| - x), R8);
    assert 8 * (|vars| - x) / 8 == |vars| - x;
    t := Exec(M.base, i, s.pc + Size(i), s).value;
    OneStep(M, s, i, t);
    assert t.stack == below + [ret] + vars[x - 1 := s.regs[8]];
  }

  /** Storing register 1 at the address in register 0. */
  lemma SetFieldOk(M: Machine, s: State, field: nat) returns (k: nat, t: State)
    requires CodeAt(M, s.pc, [Store(R8, 8 * field, R9)])
    ensures Reaches(M, s, k, t)
    ensures match Store64(s.mem, FieldAddress(s.regs[8], field), s.regs[9])
      case Some(m) => t.pc == s.pc + Size(Store(R8, 8 * field, R9)) && t.stack == s.stack && t.mem == m
      case None => Stuck(M, t)
  {
    var i := Store(R8, 8 * field, R9);
    var u := Exec(M.base, i, s.pc + Size(i), s);
    if u.Some? {
      k, t := 1, u.value;
      OneStep(M, s, i, t);
    } else {
      k, t := 0, s;
      StuckAt(M, s, i);
    }
  }

  /** The call instruction: control goes to the function with the return address on the stack. */
  lemma CallInsnOk(M: Machine, s: State, target: int) returns (t: State)
    requires CodeAt(M, s.pc, [Call(At(target))]) && 0 <= M.base + s.pc + 5 < TWO64
    ensures Reaches(M, s, 1, t)
    ensures t == s.(pc := target, stack := s.stack + [M.base + s.pc + 5])
  {
    t := s.(pc := target, stack := s.stack + [M.base + s.pc + 5]);
    OneStep(M, s, Call(At(target)), t);
  }

  lemma {:induction false} ReverseAt(s: seq<u64>, j: nat)
    requires j < |s|
    ensures Reverse(s)[j] == s[|s| - 1 - j]
    decreases |s|
  {
    if j < |s| - 1 {
      ReverseAt(s[1..], j);
    }
  }

  /** Saving the argument registers lays the parameters out as the variables of the callee. */
  lemma SavedArguments(regs: Regs, vs: seq<u64>)
    requires |vs| <= MAX_REGISTERS && forall i :: 0 <= i < |vs| ==> regs[8 + i] == vs[i]
    ensures SavedRegs(regs, |vs|) == Reverse(vs)
  {
    forall j | 0 <= j < |vs| ensures SavedRegs(regs, |vs|)[j] == Reverse(vs)[j] {
      ReverseAt(vs, j);
      assert regs[8 + (|vs| - 1 - j)] == vs[|vs| - 1 - j];
    }
  }
}
