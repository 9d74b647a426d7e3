/** The part of the x86-64 machine the compiler targets: instructions, what they do, and how the
    bytes at an address decode to one of them (Intel SDM volume 2, chapter 2 and the opcode maps).

    The stack is kept apart from the rest of memory: it is a sequence of words whose last element is
    the word RSP points to, and an RSP-relative operand names one of its words. */
module X86 {
  import opened Words

  type Reg = x: int | 0 <= x < 16

  const RAX: Reg := 0
  const RCX: Reg := 1
  const RDX: Reg := 2
  const RSP: Reg := 4
  const R8: Reg := 8
  const R9: Reg := 9

  /** What a jump or call goes to: a known code offset, or the label of a placeholder chain. */
  datatype Label = Local(id: nat) | Forward(name: seq<u8>)
  datatype Target = At(offset: int) | Ref(chain: Label)

  datatype AluOp = Mov | Add | Sub | Imul | And | Or | Xor

  /** Condition codes of Jcc, named as in the manual. */
  datatype Condition = B | E | A | BE | NE | AE

  datatype Insn =
    | Push(r: Reg)
    | Pop(r: Reg)
    | MovImm(r: Reg, v: u64, wide: bool)
    | Alu(op: AluOp, dst: Reg, src: Reg, wide: bool)
    | Cmp(dst: Reg, src: Reg)
    | Load(r: Reg, base: Reg, disp: int)
    | Store(base: Reg, disp: int, r: Reg)
    | LeaMem(r: Reg, base: Reg, disp: int)
    | LoadRip(r: Reg, address: int)
    | LeaRip(r: Reg, address: int)
    | AddImm(r: Reg, imm: int)
    | Div(r: Reg)
    | Shl(r: Reg)
    | Shr(r: Reg)
    | Jcc(cond: Condition, target: Target)
    | Jmp(target: Target)
    | Call(target: Target)
    | Ret
    | Data(b: u8)

  // ----- machine states -----

  type Regs = r: seq<u64> | |r| == 16 witness seq(16, i => 0)

  /** CF and ZF after a comparison; unknown after the other arithmetic instructions. */
  datatype Flags = Unknown | Known(cf: bool, zf: bool)

  /** Byte-addressed memory; an address that is not in the map is not mapped. */
  type Mem = map<int, u8>

  datatype State = State(pc: int, regs: Regs, stack: seq<u64>, mem: Mem, flags: Flags)

  ghost predicate Mapped(m: Mem, a: int) {
    forall i :: a <= i < a + 8 ==> i in m
  }

  ghost function Load64(m: Mem, a: int): Option<u64> {
    if Mapped(m, a) then Some(From64([m[a], m[a + 1], m[a + 2], m[a + 3], m[a + 4], m[a + 5], m[a + 6], m[a + 7]]))
    else None
  }

  ghost function Store64(m: Mem, a: int, v: u64): Option<Mem> {
    if Mapped(m, a) then
      var b := LE64(v);
      Some(m[a := b[0]][a + 1 := b[1]][a + 2 := b[2]][a + 3 := b[3]]
            [a + 4 := b[4]][a + 5 := b[5]][a + 6 := b[6]][a + 7 := b[7]])
    else None
  }

  ghost function AluResult(op: AluOp, x: u64, y: u64): u64 {
    match op
    case Mov => y
    case Add => Wrap(x + y)
    case Sub => Wrap(x - y)
    case Imul => Wrap(x * y)
    case And => BitAnd(x, y)
    case Or => Or64(x, y)
    case Xor => if x == y then 0 else Wrap(Or64(x, y) - BitAnd(x, y))
  }

  /** DIV of the 128-bit value high:low: quotient and remainder, or a divide error. */
  ghost function Divide(high: u64, low: u64, d: u64): Option<(u64, u64)> {
    if d == 0 then None
    else
      var n := high * TWO64 + low;
      var q, r := n / d, n % d;
      if 0 <= q < TWO64 then Some((q, r)) else None
  }

  /** SHL and SHR with a 64-bit operand use the low six bits of the count in CL. */
  ghost function ShiftLeft(x: u64, cl: nat): u64 { Wrap(x * Pow2(cl % 64)) }

  ghost function ShiftRight(x: u64, cl: nat): u64 { ShiftedRight(x, Pow2(cl % 64)) }

  ghost function ShiftedRight(x: u64, p: nat): u64
    requires p >= 1
  {
    x / p
  }

  predicate Holds(c: Condition, cf: bool, zf: bool) {
    match c
    case B => cf
    case E => zf
    case A => !cf && !zf
    case BE => cf || zf
    case NE => !zf
    case AE => !cf
  }

  /** The effect of instruction i on s, when its bytes end at code offset `next` and the code is loaded at
      address `base`. None when the processor faults or leaves this model. */
  ghost function Exec(base: int, i: Insn, next: int, s: State): Option<State> {
    var t := s.(pc := next);
    match i
    case Push(r) =>
      if r == RSP then None else Some(t.(stack := s.stack + [s.regs[r]]))
    case Pop(r) =>
      if r == RSP || s.stack == [] then None
      else Some(t.(stack := s.stack[..|s.stack| - 1], regs := s.regs[r := s.stack[|s.stack| - 1]]))
    case MovImm(r, v, _) =>
      if r == RSP then None else Some(t.(regs := s.regs[r := v]))
    case Alu(op, dst, src, wide) =>
      if dst == RSP || src == RSP then None
      else
        var x := AluResult(op, s.regs[dst], s.regs[src]);
        var y := if wide then x else x % TWO32;
        Some(t.(regs := s.regs[dst := y], flags := if op == Mov then s.flags else Unknown))
    case Cmp(a, b) =>
      if a == RSP || b == RSP then None
      else Some(t.(flags := Known(s.regs[a] < s.regs[b], s.regs[a] == s.regs[b])))
    case Load(r, b, disp) =>
      if r == RSP then None
      else if b == RSP then
        if disp % 8 == 0 && 0 <= disp / 8 < |s.stack|
        then Some(t.(regs := s.regs[r := s.stack[|s.stack| - 1 - disp / 8]]))
        else None
      else
        var v := Load64(s.mem, Wrap(s.regs[b] + disp));
        if v.None? then None else Some(t.(regs := s.regs[r := v.value]))
    case Store(b, disp, r) =>
      if r == RSP then None
      else if b == RSP then
        if disp % 8 == 0 && 0 <= disp / 8 < |s.stack|
        then Some(t.(stack := s.stack[|s.stack| - 1 - disp / 8 := s.regs[r]]))
        else None
      else
        var m := Store64(s.mem, Wrap(s.regs[b] + disp), s.regs[r]);
        if m.None? then None else Some(t.(mem := m.value))
    case LeaMem(r, b, disp) =>
      if r == RSP || b == RSP then None else Some(t.(regs := s.regs[r := Wrap(s.regs[b] + disp)]))
    case LoadRip(r, target) => None
    case LeaRip(r, target) =>
      if r == RSP then None else Some(t.(regs := s.regs[r := Wrap(base + target)]))
    case AddImm(r, imm) =>
      if r == RSP then
        if imm % 8 == 0 && 0 <= imm / 8 <= |s.stack|
        then Some(t.(stack := s.stack[..|s.stack| - imm / 8], flags := Unknown))
        else None
      else Some(t.(regs := s.regs[r := Wrap(s.regs[r] + imm)], flags := Unknown))
    case Div(r) =>
      if r == RSP then None
      else
        var qr := Divide(s.regs[RDX], s.regs[RAX], s.regs[r]);
        if qr.None? then None
        else Some(t.(regs := s.regs[RAX := qr.value.0][RDX := qr.value.1], flags := Unknown))
    case Shl(r) =>
      if r == RSP then None
      else Some(t.(regs := s.regs[r := ShiftLeft(s.regs[r], s.regs[RCX] % 256)], flags := Unknown))
    case Shr(r) =>
      if r == RSP then None
      else Some(t.(regs := s.regs[r := ShiftRight(s.regs[r], s.regs[RCX] % 256)], flags := Unknown))
    case Jcc(c, target) =>
      if target.Ref? || s.flags.Unknown? then None
      else if Holds(c, s.flags.cf, s.flags.zf) then Some(s.(pc := target.offset))
      else Some(t)
    case Jmp(target) =>
      if target.Ref? then None else Some(s.(pc := target.offset))
    case Call(target) =>
      if target.Ref? then None else Some(s.(pc := target.offset, stack := s.stack + [Wrap(base + next)]))
    case Ret =>
      if s.stack == [] then None
      else Some(s.(pc := s.stack[|s.stack| - 1] - base, stack := s.stack[..|s.stack| - 1]))
    case Data(_) => None
  }

  // ----- decoding -----

  /** Operands of a ModR/M byte. */
  datatype Operand = InReg(reg: Reg) | InMem(base: Reg, disp: int) | RipRelative(disp: int) | Unsupported

  /** A decoded ModR/M byte with the SIB byte and displacement that follow it: the reg field, the r/m
      operand, and how many bytes they take together. */
  datatype ModRM = ModRM(reg: int, rm: Operand, size: nat)

  function ByteAt(code: seq<u8>, p: int): u8 {
    if 0 <= p < |code| then code[p] else 0
  }

  function Signed32At(code: seq<u8>, p: int): int {
    Signed32(From32([ByteAt(code, p), ByteAt(code, p + 1), ByteAt(code, p + 2), ByteAt(code, p + 3)]))
  }

  /** Table 2-2 (ModR/M) and table 2-3 (SIB) in 64-bit mode, sections 2.1.5 and 2.2.1; b is REX.B. */
  function DecodeModRM(code: seq<u8>, p: int, b: int): ModRM
    requires 0 <= b <= 1
  {
    var m: int := ByteAt(code, p);
    var mod := m / 64;
    var reg := m / 8 % 8;
    var low := m % 8;
    if mod == 3 then ModRM(reg, InReg(low + 8 * b), 1)
    else if low == 4 then
      var sib: int := ByteAt(code, p + 1);
      var sibBase := sib % 8;
      if sib / 8 % 8 != 4 || (mod == 0 && sibBase == 5) then ModRM(reg, Unsupported, 2)
      else if mod == 0 then ModRM(reg, InMem(sibBase + 8 * b, 0), 2)
      else if mod == 1 then ModRM(reg, InMem(sibBase + 8 * b, Signed8(ByteAt(code, p + 2))), 3)
      else ModRM(reg, InMem(sibBase + 8 * b, Signed32At(code, p + 2)), 6)
    else if mod == 0 && low == 5 then ModRM(reg, RipRelative(Signed32At(code, p + 1)), 5)
    else if mod == 0 then ModRM(reg, InMem(low + 8 * b, 0), 1)
    else if mod == 1 then ModRM(reg, InMem(low + 8 * b, Signed8(ByteAt(code, p + 1))), 2)
    else ModRM(reg, InMem(low + 8 * b, Signed32At(code, p + 1)), 5)
  }

  /** An instruction and the offset of the byte after it. */
  datatype Decoded = Decoded(insn: Insn, next: int) | Undefined

  /** Instructions of the one-byte opcode map that take a ModR/M byte. `q` is the offset of the opcode, and
      w, r, b the bits of the REX prefix before it (0 when there is none). */
  function DecodeModRMInsn(code: seq<u8>, q: int, w: int, r: int, b: int): Decoded
    requires 0 <= w <= 1 && 0 <= r <= 1 && 0 <= b <= 1
  {
    var op: int := ByteAt(code, q);
    var m := DecodeModRM(code, q + 1, b);
    var end := q + 1 + m.size;
    var reg := m.reg + 8 * r;
    if !(0 <= reg < 16) then Undefined
    else if op == 0x8b && m.rm.InMem? && w == 1 then Decoded(Load(reg, m.rm.base, m.rm.disp), end)
    else if op == 0x8b && m.rm.RipRelative? && w == 1 then Decoded(LoadRip(reg, end + m.rm.disp), end)
    else if op == 0x89 && m.rm.InMem? && w == 1 then Decoded(Store(m.rm.base, m.rm.disp, reg), end)
    else if op == 0x8d && m.rm.InMem? && w == 1 then Decoded(LeaMem(reg, m.rm.base, m.rm.disp), end)
    else if op == 0x8d && m.rm.RipRelative? && w == 1 then Decoded(LeaRip(reg, end + m.rm.disp), end)
    else if !m.rm.InReg? then Undefined
    else
      var rm := m.rm.reg;
      if op == 0x03 && w == 1 then Decoded(Alu(Add, reg, rm, true), end)
      else if op == 0x2b && w == 1 then Decoded(Alu(Sub, reg, rm, true), end)
      else if op == 0x23 && w == 1 then Decoded(Alu(And, reg, rm, true), end)
      else if op == 0x0b && w == 1 then Decoded(Alu(Or, reg, rm, true), end)
      else if op == 0x31 then Decoded(Alu(Xor, rm, reg, w == 1), end)
      else if op == 0x39 && w == 1 then Decoded(Cmp(rm, reg), end)
      else if op == 0x89 then Decoded(Alu(Mov, rm, reg, w == 1), end)
      else if op == 0xf7 && m.reg == 6 && w == 1 then Decoded(Div(rm), end)
      else if op == 0xd3 && m.reg == 4 && w == 1 then Decoded(Shl(rm), end)
      else if op == 0xd3 && m.reg == 5 && w == 1 then Decoded(Shr(rm), end)
      else if op == 0x83 && m.reg == 0 && w == 1 then Decoded(AddImm(rm, Signed8(ByteAt(code, end))), end + 1)
      else if op == 0x81 && m.reg == 0 && w == 1 then Decoded(AddImm(rm, Signed32At(code, end)), end + 4)
      else Undefined
  }

  function DecodeCondition(low: int): Option<Condition> {
    if low == 0x82 then Some(B)
    else if low == 0x83 then Some(AE)
    else if low == 0x84 then Some(E)
    else if low == 0x85 then Some(NE)
    else if low == 0x86 then Some(BE)
    else if low == 0x87 then Some(A)
    else None
  }

  /** The two-byte opcode map, entered by 0F; q is the offset of the byte after 0F. */
  function DecodeTwoByte(code: seq<u8>, q: int, w: int, r: int, b: int): Decoded
    requires 0 <= w <= 1 && 0 <= r <= 1 && 0 <= b <= 1
  {
    var op: int := ByteAt(code, q);
    if op == 0xaf then
      var m := DecodeModRM(code, q + 1, b);
      var reg := m.reg + 8 * r;
      if w == 1 && m.rm.InReg? && 0 <= reg < 16 then Decoded(Alu(Imul, reg, m.rm.reg, true), q + 1 + m.size)
      else Undefined
    else
      var c := DecodeCondition(op);
      if c.None? then Undefined
      else Decoded(Jcc(c.value, At(q + 5 + Signed32At(code, q + 1))), q + 5)
  }

  function DecodeOpcode(code: seq<u8>, q: int, w: int, r: int, b: int): Decoded
    requires 0 <= w <= 1 && 0 <= r <= 1 && 0 <= b <= 1
  {
    var op: int := ByteAt(code, q);
    if op == 0x0f then DecodeTwoByte(code, q + 1, w, r, b)
    else if 0x50 <= op < 0x58 then Decoded(Push(op - 0x50 + 8 * b), q + 1)
    else if 0x58 <= op < 0x60 then Decoded(Pop(op - 0x58 + 8 * b), q + 1)
    else if 0xb8 <= op < 0xc0 && w == 0 then
      Decoded(MovImm(op - 0xb8 + 8 * b, From32(LE32At(code, q + 1)), false), q + 5)
    else if 0xb8 <= op < 0xc0 then
      Decoded(MovImm(op - 0xb8 + 8 * b, From64(LE32At(code, q + 1) + LE32At(code, q + 5)), true), q + 9)
    else if op == 0xc3 then Decoded(Ret, q + 1)
    else if op == 0xe8 then Decoded(Call(At(q + 5 + Signed32At(code, q + 1))), q + 5)
    else if op == 0xe9 then Decoded(Jmp(At(q + 5 + Signed32At(code, q + 1))), q + 5)
    else DecodeModRMInsn(code, q, w, r, b)
  }

  function LE32At(code: seq<u8>, p: int): (b: seq<u8>)
    ensures |b| == 4
  {
    [ByteAt(code, p), ByteAt(code, p + 1), ByteAt(code, p + 2), ByteAt(code, p + 3)]
  }

  /** The instruction at offset p: an optional REX prefix (0100WRXB) and an opcode. REX.X would extend the
      index of a SIB byte, and no instruction of this subset uses an index. */
  function Decode(code: seq<u8>, p: int): Decoded {
    var rex: int := ByteAt(code, p);
    if !(0 <= p < |code|) then Undefined
    else if 0x40 <= rex < 0x50 then
      if rex / 2 % 2 == 1 then Undefined
      else DecodeOpcode(code, p + 1, rex / 8 % 2, rex / 4 % 2, rex % 2)
    else DecodeOpcode(code, p, 0, 0, 0)
  }

  // ----- running -----

  /** Code as instructions placed at offsets. */
  datatype Machine = Machine(base: int, code: map<int, (Insn, int)>)

  ghost function Step(m: Machine, s: State): Option<State> {
    if s.pc in m.code then Exec(m.base, m.code[s.pc].0, m.code[s.pc].1, s) else None
  }

  ghost function Run(m: Machine, s: State, k: nat): Option<State>
    decreases k
  {
    if k == 0 then Some(s)
    else
      var t := Step(m, s);
      if t.None? then None else Run(m, t.value, k - 1)
  }

  /** One step of the processor on the code bytes themselves. */
  ghost function ByteStep(base: int, code: seq<u8>, s: State): Option<State> {
    match Decode(code, s.pc)
    case Undefined => None
    case Decoded(i, next) => Exec(base, i, next, s)
  }

  ghost function ByteRun(base: int, code: seq<u8>, s: State, k: nat): Option<State>
    decreases k
  {
    if k == 0 then Some(s)
    else
      var t := ByteStep(base, code, s);
      if t.None? then None else ByteRun(base, code, t.value, k - 1)
  }
}
