/** The bytes the backend writes for each instruction, and the proof that the processor's decoder reads
    the same instruction back from them. */
module Encoder {
  import opened Words
  import opened X86

  /** tc_write16 and tc_write24: little-endian. */
  function W16(v: nat): (b: seq<u8>)
    ensures |b| == 2
  {
    [v % 256, v / 256 % 256]
  }

  function W24(opcode: nat, args: nat): (b: seq<u8>)
    ensures |b| == 3
  {
    W16(opcode) + [args % 256]
  }

  /** tc_write_mem_insn. */
  function MemInsn(insn: nat, modrm: nat, sib: nat, slot: nat): seq<u8> {
    var m1 := if slot != 0 then modrm + 0x40 else modrm;
    var m2 := if slot >= 16 then m1 + 0x40 else m1;
    W16(insn) + [m2 % 256] + (if sib != 0 then [sib % 256] else [])
    + (if slot >= 16 then LE32(slot * 8) else if slot != 0 then [slot * 8 % 256] else [])
  }

  function MemInsnSize(sib: nat, slot: int): nat {
    3 + (if sib != 0 then 1 else 0) + (if slot >= 16 then 4 else if slot != 0 then 1 else 0)
  }

  lemma MemInsnLength(insn: nat, modrm: nat, sib: nat, slot: nat)
    ensures |MemInsn(insn, modrm, sib, slot)| == MemInsnSize(sib, slot)
  {
  }

  /** tc_write_increment_insn. */
  function IncrementInsn(insn: nat, modrm: nat, slot: nat): seq<u8>
    requires insn >= 512
  {
    if slot >= 16 then W24(insn - 512, modrm) + LE32(slot * 8)
    else if slot != 0 then W24(insn, modrm) + [slot * 8 % 256]
    else []
  }

  const MAX_SLOTS := 0x1000_0000

  /** A displacement of a whole number of 64-bit slots. */
  predicate SlotDisp(disp: int) {
    disp % 8 == 0 && 0 <= disp / 8
  }

  /** The registers the compiler numbers 0 to 7 are R8 to R15. */
  predicate IsHigh(r: Reg) { r >= 8 }

  predicate IsJump(i: Insn) { i.Jcc? || i.Jmp? || i.Call? }

  /** The instruction forms the backend writes. */
  predicate Shaped(i: Insn) {
    match i
    case Push(r) => IsHigh(r)
    case Pop(r) => IsHigh(r)
    case MovImm(r, v, wide) => IsHigh(r) && (wide || v < TWO32)
    case Alu(op, d, s, wide) =>
      if op == Xor then (wide && IsHigh(d) && s == d) || (!wide && d == RDX && s == RDX)
      else if op == Mov then
        (wide && d == RAX && IsHigh(s)) || (wide && IsHigh(d) && s == RAX)
        || (!wide && d == RCX && IsHigh(s)) || (wide && IsHigh(d) && s == R8)
      else wide && IsHigh(d) && IsHigh(s)
    case Cmp(d, s) => d == R8 && s == R9
    case Load(r, b, disp) => IsHigh(r) && (b == r || b == RSP) && SlotDisp(disp)
    case Store(b, disp, r) => ((b == R8 && r == R9) || (b == RSP && r == R8)) && SlotDisp(disp)
    case LeaMem(r, b, disp) => IsHigh(r) && b == RSP && SlotDisp(disp)
    case LoadRip(_, _) => false
    case LeaRip(r, _) => IsHigh(r)
    case AddImm(r, imm) => (IsHigh(r) || r == RSP) && SlotDisp(imm) && imm != 0
    case Div(r) => IsHigh(r)
    case Shl(r) => IsHigh(r)
    case Shr(r) => IsHigh(r)
    case _ => true
  }

  /** Slots that fit the 32-bit displacement field. */
  predicate InRange(i: Insn) {
    match i
    case Load(_, _, disp) => disp / 8 < MAX_SLOTS
    case Store(_, disp, _) => disp / 8 < MAX_SLOTS
    case LeaMem(_, _, disp) => disp / 8 < MAX_SLOTS
    case AddImm(_, imm) => imm / 8 < MAX_SLOTS
    case _ => true
  }

  predicate Emitted(i: Insn) { Shaped(i) && InRange(i) }

  /** The opcode bytes of a jump or call; its four-byte displacement follows. */
  function JumpOpcode(i: Insn): (b: seq<u8>)
    requires IsJump(i)
    ensures 1 <= |b| <= 2
  {
    match i
    case Jcc(c, _) =>
      [0x0f, match c case B => 0x82 case E => 0x84 case A => 0x87 case BE => 0x86 case NE => 0x85 case AE => 0x83]
    case Jmp(_) => [0xe9]
    case Call(_) => [0xe8]
  }

  function Size(i: Insn): (n: nat)
    ensures n > 0
  {
    match i
    case Push(_) => 2
    case Pop(_) => 2
    case MovImm(_, _, wide) => if wide then 10 else 6
    case Alu(op, d, s, wide) => if op == Imul then 4 else if op == Xor && !wide then 2 else 3
    case Cmp(_, _) => 3
    case Load(r, b, disp) => MemInsnSize(if b == RSP || r == 12 then 0x24 else 0, disp / 8)
    case Store(b, disp, r) => MemInsnSize(if b == RSP then 0x24 else 0, disp / 8)
    case LeaMem(r, b, disp) => MemInsnSize(0x24, disp / 8)
    case LoadRip(_, _) => 7
    case LeaRip(_, _) => 7
    case AddImm(_, imm) => if imm / 8 >= 16 then 7 else 4
    case Div(_) => 3
    case Shl(_) => 3
    case Shr(_) => 3
    case Jcc(_, _) => 6
    case Jmp(_) => 5
    case Call(_) => 5
    case Ret => 1
    case Data(_) => 1
  }

  /** The bytes of an instruction other than a jump or call; pc is where they are written. */
  function PlainBytes(i: Insn, pc: int): seq<u8>
    requires Shaped(i) && !IsJump(i)
  {
    match i
    case Push(r) => W16(0x5041 + 256 * (r - 8))
    case Pop(r) => W16(0x5841 + 256 * (r - 8))
    case MovImm(r, v, wide) =>
      if wide then W16(0xB849 + 256 * (r - 8)) + LE64(v) else W16(0xB841 + 256 * (r - 8)) + LE32(v)
    case Alu(op, d, s, wide) => AluBytes(op, d, s, wide)
    case Cmp(_, _) => [0x4d, 0x39, 0xc8]
    case Load(r, b, disp) =>
      if b == RSP then MemInsn(0x8b4c, 0x04 + 8 * (r - 8), 0x24, disp / 8)
      else MemInsn(0x8b4d, 9 * (r - 8), if r == 12 then 0x24 else 0, disp / 8)
    case Store(b, disp, r) =>
      if b == RSP then MemInsn(0x894c, 0x04, 0x24, disp / 8)
      else MemInsn(0x894d, 0x8, 0, disp / 8)
    case LeaMem(r, b, disp) => MemInsn(0x8d4c, 0x04 + 8 * (r - 8), 0x24, disp / 8)
    case LeaRip(r, target) => W24(0x8d4c, 0x05 + 8 * (r - 8)) + LE32(target - (pc + 7))
    case AddImm(r, imm) =>
      if r == RSP then IncrementInsn(0x8348, 0xc4, imm / 8)
      else IncrementInsn(0x8349, 0xc0 + (r - 8), imm / 8)
    case Div(r) => W24(0xf749, 0xf0 + (r - 8))
    case Shl(r) => W24(0xd349, 0xe0 + (r - 8))
    case Shr(r) => W24(0xd349, 0xe8 + (r - 8))
    case Ret => [0xc3]
    case Data(b) => [b]
  }

  function AluBytes(op: AluOp, d: Reg, s: Reg, wide: bool): seq<u8>
    requires Shaped(Alu(op, d, s, wide))
  {
    match op
    case Add => W24(0x034d, 0xc0 + 8 * (d - 8) + (s - 8))
    case Sub => W24(0x2b4d, 0xc0 + 8 * (d - 8) + (s - 8))
    case And => W24(0x234d, 0xc0 + 8 * (d - 8) + (s - 8))
    case Or => W24(0x0b4d, 0xc0 + 8 * (d - 8) + (s - 8))
    case Imul => LE32(0xc0af0f4d + 0x8000000 * (d - 8) + 0x1000000 * (s - 8))
    case Xor => if wide then W24(0x314d, 0xc0 + 9 * (d - 8)) else W16(0xd231)
    case Mov =>
      if !wide then W24(0x8944, 0xc1 + 8 * (s - 8))
      else if d == RAX then W24(0x894c, 0xc0 + 8 * (s - 8))
      else if s == RAX then W24(0x8949, 0xc0 + (d - 8))
      else W24(0x894d, 0xc0 + (d - 8))
  }

  lemma PlainBytesLength(i: Insn, pc: int)
    requires Shaped(i) && !IsJump(i)
    ensures |PlainBytes(i, pc)| == Size(i)
  {
  }

  /** Where the bytes refer to another place in the code, that place is within reach of 32 bits. */
  predicate InReach(i: Insn, pc: int) {
    match i
    case LeaRip(_, a) => -0x8000_0000 <= a - (pc + 7) < 0x8000_0000
    case Jcc(_, t) => t.At? && -0x8000_0000 <= t.offset - (pc + 6) < 0x8000_0000
    case Jmp(t) => t.At? && -0x8000_0000 <= t.offset - (pc + 5) < 0x8000_0000
    case Call(t) => t.At? && -0x8000_0000 <= t.offset - (pc + 5) < 0x8000_0000
    case _ => true
  }

  /** All the bytes of an instruction whose target, if any, is known. */
  function Bytes(i: Insn, pc: int): (b: seq<u8>)
    requires Shaped(i) && (IsJump(i) ==> i.target.At?)
    ensures |b| == Size(i)
  {
    if IsJump(i) then JumpOpcode(i) + LE32(i.target.offset - (pc + Size(i)))
    else
      PlainBytesLength(i, pc);
      PlainBytes(i, pc)
  }

  // ----- reading the bytes back -----

  predicate Placed(code: seq<u8>, p: int, b: seq<u8>) {
    0 <= p && p + |b| <= |code| && code[p..p + |b|] == b
  }

  lemma Peek(code: seq<u8>, p: int, b: seq<u8>)
    requires Placed(code, p, b)
    ensures |b| > 0 ==> ByteAt(code, p) == b[0]
    ensures |b| > 1 ==> ByteAt(code, p + 1) == b[1]
    ensures |b| > 2 ==> ByteAt(code, p + 2) == b[2]
    ensures |b| > 3 ==> ByteAt(code, p + 3) == b[3]
    ensures |b| > 4 ==> ByteAt(code, p + 4) == b[4]
    ensures |b| > 5 ==> ByteAt(code, p + 5) == b[5]
    ensures |b| > 6 ==> ByteAt(code, p + 6) == b[6]
    ensures |b| > 7 ==> ByteAt(code, p + 7) == b[7]
    ensures |b| > 8 ==> ByteAt(code, p + 8) == b[8]
    ensures |b| > 9 ==> ByteAt(code, p + 9) == b[9]
  {
    forall j | 0 <= j < |b| ensures ByteAt(code, p + j) == b[j] {
      assert code[p..p + |b|][j] == code[p + j];
    }
    assert |b| > 0 ==> ByteAt(code, p + 0) == b[0];
  }

  lemma Rel32At(code: seq<u8>, p: int, v: int)
    requires ByteAt(code, p) == LE32(v)[0] && ByteAt(code, p + 1) == LE32(v)[1]
    requires ByteAt(code, p + 2) == LE32(v)[2] && ByteAt(code, p + 3) == LE32(v)[3]
    ensures LE32At(code, p) == LE32(v)
    ensures -0x8000_0000 <= v < 0x8000_0000 ==> Signed32At(code, p) == v
  {
    assert LE32At(code, p) == LE32(v);
    if -0x8000_0000 <= v < 0x8000_0000 {
      SignedOfLE32(v);
    }
  }

  lemma DecodesJump(i: Insn, code: seq<u8>, p: int)
    requires IsJump(i) && InReach(i, p)
    requires Placed(code, p, Bytes(i, p))
    ensures Decode(code, p) == Decoded(i, p + Size(i))
  {
    var b := Bytes(i, p);
    Peek(code, p, b);
    var rel := i.target.offset - (p + Size(i));
    if i.Jcc? {
      assert b[2..6] == LE32(rel);
      assert b[2] == b[2..6][0] && b[3] == b[2..6][1] && b[4] == b[2..6][2] && b[5] == b[2..6][3];
      Rel32At(code, p + 2, rel);
    } else {
      assert b[1..5] == LE32(rel);
      assert b[1] == b[1..5][0] && b[2] == b[1..5][1] && b[3] == b[1..5][2] && b[4] == b[1..5][3];
      Rel32At(code, p + 1, rel);
    }
  }

  // The three fields of a ModR/M byte.
  lemma OperandReg(code: seq<u8>, p: int, b: int, reg: int, low: int)
    requires 0 <= b <= 1 && 0 <= reg < 8 && 0 <= low < 8
    requires ByteAt(code, p) == 0xc0 + 8 * reg + low
    ensures DecodeModRM(code, p, b) == ModRM(reg, InReg(low + 8 * b), 1)
  {
  }

  lemma OperandMem(code: seq<u8>, p: int, b: int, mod: int, reg: int, low: int)
    requires 0 <= b <= 1 && 0 <= mod < 3 && 0 <= reg < 8 && 0 <= low < 8 && low != 4
    requires ByteAt(code, p) == 64 * mod + 8 * reg + low
    ensures mod == 0 && low != 5 ==> DecodeModRM(code, p, b) == ModRM(reg, InMem(low + 8 * b, 0), 1)
    ensures mod == 0 && low == 5 ==> DecodeModRM(code, p, b) == ModRM(reg, RipRelative(Signed32At(code, p + 1)), 5)
    ensures mod == 1 ==>
      DecodeModRM(code, p, b) == ModRM(reg, InMem(low + 8 * b, Signed8(ByteAt(code, p + 1))), 2)
    ensures mod == 2 ==> DecodeModRM(code, p, b) == ModRM(reg, InMem(low + 8 * b, Signed32At(code, p + 1)), 5)
  {
    hide Signed32At;
  }

  lemma OperandSib(code: seq<u8>, p: int, b: int, mod: int, reg: int)
    requires 0 <= b <= 1 && 0 <= mod < 3 && 0 <= reg < 8
    requires ByteAt(code, p) == 64 * mod + 8 * reg + 4 && ByteAt(code, p + 1) == 0x24
    ensures mod == 0 ==> DecodeModRM(code, p, b) == ModRM(reg, InMem(4 + 8 * b, 0), 2)
    ensures mod == 1 ==> DecodeModRM(code, p, b) == ModRM(reg, InMem(4 + 8 * b, Signed8(ByteAt(code, p + 2))), 3)
    ensures mod == 2 ==> DecodeModRM(code, p, b) == ModRM(reg, InMem(4 + 8 * b, Signed32At(code, p + 2)), 6)
  {
    hide Signed32At;
  }

  /** MemInsn byte by byte. */
  lemma MemInsnBytes(code: seq<u8>, p: int, rex: nat, op: nat, reg: int, low: int, sib: nat, slot: nat)
    requires 0 <= reg < 8 && 0 <= low < 8 && slot < MAX_SLOTS && sib < 256 && rex < 256 && op < 256
    requires Placed(code, p, MemInsn(rex + 256 * op, 8 * reg + low, sib, slot))
    ensures ByteAt(code, p) == rex && ByteAt(code, p + 1) == op
    ensures ByteAt(code, p + 2) == 64 * (if slot >= 16 then 2 else if slot != 0 then 1 else 0) + 8 * reg + low
    ensures sib != 0 ==> ByteAt(code, p + 3) == sib
    ensures var q := if sib != 0 then p + 4 else p + 3;
      (0 < slot < 16 ==> ByteAt(code, q) == 8 * slot) && (slot >= 16 ==> Signed32At(code, q) == 8 * slot)
  {
    var m := MemInsn(rex + 256 * op, 8 * reg + low, sib, slot);
    W16Bytes(rex, op);
    hide W16;
    Peek(code, p, m);
    var q := if sib != 0 then 4 else 3;
    if slot >= 16 {
      assert m[q..q + 4] == LE32(slot * 8);
      Rel32At(code, p + q, slot * 8);
    }
  }

  /** A memory operand written by MemInsn is [base + 8 * slot]: a base of low bits 100 takes a SIB byte, and
      one of low bits 101 cannot go without a displacement. */
  lemma DecodesMemOperand(code: seq<u8>, p: int, b: int, rex: nat, op: nat, reg: int, low: int, sib: nat, slot: nat)
    requires 0 <= b <= 1 && 0 <= reg < 8 && 0 <= low < 8 && slot < MAX_SLOTS && rex < 256 && op < 256
    requires if low == 4 then sib == 0x24 else sib == 0
    requires Placed(code, p, MemInsn(rex + 256 * op, 8 * reg + low, sib, slot))
    ensures !(low == 5 && slot == 0) ==>
      DecodeModRM(code, p + 2, b) == ModRM(reg, InMem(low + 8 * b, 8 * slot), MemInsnSize(sib, slot) - 2)
    ensures low == 5 && slot == 0 ==> DecodeModRM(code, p + 2, b) == ModRM(reg, RipRelative(Signed32At(code, p + 3)), 5)
    ensures ByteAt(code, p) == rex && ByteAt(code, p + 1) == op
  {
    MemInsnBytes(code, p, rex, op, reg, low, sib, slot);
    hide DecodeModRM, MemInsn, Signed32At, ByteAt;
    var mod := if slot >= 16 then 2 else if slot != 0 then 1 else 0;
    if low == 4 { OperandSib(code, p + 2, b, mod, reg); }
    else { OperandMem(code, p + 2, b, mod, reg, low); }
  }

  /** An instruction with a REX prefix and a one-byte opcode that takes a ModR/M byte. */
  lemma ViaModRM(code: seq<u8>, p: int, rex: int, op: int)
    requires 0 <= p < |code| && ByteAt(code, p) == rex && ByteAt(code, p + 1) == op
    requires 0x40 <= rex < 0x50 && rex / 2 % 2 == 0
    requires op in {0x03, 0x2b, 0x23, 0x0b, 0x31, 0x39, 0x89, 0x8b, 0x8d, 0xf7, 0xd3, 0x81, 0x83}
    ensures Decode(code, p) == DecodeModRMInsn(code, p + 1, rex / 8 % 2, rex / 4 % 2, rex % 2)
  {
    hide DecodeModRMInsn, ByteAt;
  }

  /** The fields of a memory form: opcode, reg, r/m. */
  function MemForm(i: Insn): (int, int, int)
    requires i.Load? || i.Store? || i.LeaMem?
  {
    (if i.Load? then 0x8b else if i.Store? then 0x89 else 0x8d,
     if i.Store? then (if i.base == RSP then 0 else 1) else i.r - 8,
     if i.base == RSP then 4 else if i.Load? then i.r - 8 else 0)
  }

  lemma MemFormBytes(i: Insn, p: int)
    requires Emitted(i) && (i.Load? || i.Store? || i.LeaMem?)
    ensures var (op, reg, low) := MemForm(i);
      var sib := if low == 4 then 0x24 else 0;
      var rex := if i.base == RSP then 0x4c else 0x4d;
      0 <= reg < 8 && 0 <= low < 8 && (op == 0x8b || op == 0x89 || op == 0x8d)
      && PlainBytes(i, p) == MemInsn(rex + 256 * op, 8 * reg + low, sib, i.disp / 8)
      && Size(i) == MemInsnSize(sib, i.disp / 8)
  {
    hide MemInsn;
  }

  lemma MemFormMeaning(i: Insn, code: seq<u8>, p: int, b: int, size: nat)
    requires Emitted(i) && (i.Load? || i.Store? || i.LeaMem?) && b == (if i.base == RSP then 0 else 1)
    requires var (op, reg, low) := MemForm(i);
      ByteAt(code, p + 1) == op && 0 <= reg < 8 && 0 <= low < 8
      && DecodeModRM(code, p + 2, b) ==
           ModRM(reg, if Misread(i) then RipRelative(Signed32At(code, p + 3)) else InMem(low + 8 * b, i.disp), size)
    ensures !Misread(i) ==> DecodeModRMInsn(code, p + 1, 1, 1, b) == Decoded(i, p + 2 + size)
    ensures Misread(i) ==>
      DecodeModRMInsn(code, p + 1, 1, 1, b) == Decoded(LoadRip(13, p + 2 + size + Signed32At(code, p + 3)),
        p + 2 + size)
  {
    hide DecodeModRM, ByteAt, Signed32At;
  }

  lemma DecodesMemForm(code: seq<u8>, p: int, b: int, op: int, reg: int, low: int, slot: nat)
    requires 0 <= b <= 1 && 0 <= reg < 8 && 0 <= low < 8 && slot < MAX_SLOTS && (op == 0x8b || op == 0x89 || op == 0x8d)
    requires Placed(code, p, MemInsn(0x4c + b + 256 * op, 8 * reg + low, if low == 4 then 0x24 else 0, slot))
    ensures Decode(code, p) == DecodeModRMInsn(code, p + 1, 1, 1, b) && ByteAt(code, p + 1) == op
    ensures !(low == 5 && slot == 0) ==>
      DecodeModRM(code, p + 2, b)
      == ModRM(reg, InMem(low + 8 * b, 8 * slot), MemInsnSize(if low == 4 then 0x24 else 0, slot) - 2)
    ensures low == 5 && slot == 0 ==> DecodeModRM(code, p + 2, b) == ModRM(reg, RipRelative(Signed32At(code, p + 3)), 5)
  {
    var sib := if low == 4 then 0x24 else 0;
    MemInsnLength(0x4c + b + 256 * op, 8 * reg + low, sib, slot);
    PlacedStart(code, p, MemInsn(0x4c + b + 256 * op, 8 * reg + low, sib, slot));
    hide DecodeModRM, DecodeModRMInsn, MemInsn, Decode, ByteAt, Signed32At, Placed;
    DecodesMemOperand(code, p, b, 0x4c + b, op, reg, low, sib, slot);
    ViaModRM(code, p, 0x4c + b, op);
  }

  lemma DecodesMem(i: Insn, code: seq<u8>, p: int)
    requires Emitted(i) && (i.Load? || i.Store? || i.LeaMem?)
    requires Placed(code, p, PlainBytes(i, p))
    ensures !Misread(i) ==> Decode(code, p) == Decoded(i, p + Size(i))
    ensures Misread(i) ==> Decode(code, p) == Decoded(LoadRip(13, p + 7 + Signed32At(code, p + 3)), p + 7)
  {
    var (op, reg, low) := MemForm(i);
    var b := if i.base == RSP then 0 else 1;
    MemFormBytes(i, p);
    MisreadForm(i);
    hide DecodeModRM, DecodeModRMInsn, MemInsn, Decode, ByteAt, Signed32At, PlainBytes, Placed, Size, MemForm, Emitted;
    DecodesMemForm(code, p, b, op, reg, low, i.disp / 8);
    MemFormMeaning(i, code, p, b, if Misread(i) then 5 else Size(i) - 2);
  }

  /** The low bits 101 without displacement come from a load through R13 only. */
  lemma MisreadForm(i: Insn)
    requires Emitted(i) && (i.Load? || i.Store? || i.LeaMem?)
    ensures Misread(i) <==> MemForm(i).2 == 5 && i.disp / 8 == 0
    ensures i.disp == 8 * (i.disp / 8)
  {
  }

  lemma PlacedStart(code: seq<u8>, p: int, b: seq<u8>)
    requires Placed(code, p, b) && b != []
    ensures 0 <= p < |code|
  {
  }

  lemma W24Bytes(rex: int, op: int, args: int)
    requires 0 <= rex < 256 && 0 <= op < 256 && 0 <= args < 256
    ensures W24(rex + 256 * op, args) == [rex, op, args]
  {
  }

  /** Register-to-register instructions written by W24(opcode and REX, 0xc0 + 8 * reg + low). */
  lemma DecodesRegForm(code: seq<u8>, p: int, rex: int, op: int, reg: int, low: int)
    requires 0x40 <= rex < 0x50 && rex / 2 % 2 == 0 && 0 <= reg < 8 && 0 <= low < 8
    requires op in {0x03, 0x2b, 0x23, 0x0b, 0x31, 0x39, 0x89, 0x8b, 0x8d, 0xf7, 0xd3, 0x81, 0x83}
    requires Placed(code, p, W24(rex + 256 * op, 0xc0 + 8 * reg + low))
    ensures Decode(code, p) == DecodeModRMInsn(code, p + 1, rex / 8 % 2, rex / 4 % 2, rex % 2)
    ensures ByteAt(code, p + 1) == op
    ensures DecodeModRM(code, p + 2, rex % 2) == ModRM(reg, InReg(low + 8 * (rex % 2)), 1)
  {
    hide DecodeModRM, Decode, ByteAt, W24, DecodeModRMInsn;
    W24Bytes(rex, op, 0xc0 + 8 * reg + low);
    Peek(code, p, [rex, op, 0xc0 + 8 * reg + low]);
    ViaModRM(code, p, rex, op);
    OperandReg(code, p + 2, rex % 2, reg, low);
  }

  /** The fields of a register form: REX prefix, opcode, reg and r/m. */
  function RegForm(i: Insn): (int, int, int, int)
    requires Emitted(i)
  {
    match i
    case Alu(op, d, s, wide) =>
      (match op
       case Add => (0x4d, 0x03, d - 8, s - 8)
       case Sub => (0x4d, 0x2b, d - 8, s - 8)
       case And => (0x4d, 0x23, d - 8, s - 8)
       case Or => (0x4d, 0x0b, d - 8, s - 8)
       case Xor => (0x4d, 0x31, s - 8, d - 8)
       case Imul => (0, 0, 0, 0)
       case Mov =>
         if !wide then (0x44, 0x89, s - 8, 1)
         else if d == RAX then (0x4c, 0x89, s - 8, 0)
         else (0x4d - (if s == RAX then 4 else 0), 0x89, 0, d - 8))
    case Cmp(d, s) => (0x4d, 0x39, 1, 0)
    case Div(r) => (0x49, 0xf7, 6, r - 8)
    case Shl(r) => (0x49, 0xd3, 4, r - 8)
    case Shr(r) => (0x49, 0xd3, 5, r - 8)
    case _ => (0, 0, 0, 0)
  }

  predicate HasRegForm(i: Insn) {
    (i.Alu? && i.op != Imul && !(i.op == Xor && !i.wide)) || i.Cmp? || i.Div? || i.Shl? || i.Shr?
  }

  lemma RegFormBytes(i: Insn, p: int)
    requires Emitted(i) && HasRegForm(i)
    ensures var (rex, op, reg, low) := RegForm(i);
      0x40 <= rex < 0x50 && rex / 2 % 2 == 0 && 0 <= reg < 8 && 0 <= low < 8
      && op in {0x03, 0x2b, 0x23, 0x0b, 0x31, 0x39, 0x89, 0xf7, 0xd3}
      && PlainBytes(i, p) == W24(rex + 256 * op, 0xc0 + 8 * reg + low) && Size(i) == 3
  {
    hide W24;
    if i.Cmp? { CmpBytes(); }
  }

  lemma CmpBytes()
    ensures W24(0x394d, 0xc8) == [0x4d, 0x39, 0xc8]
  {
  }

  lemma RegFormMeaning(i: Insn, code: seq<u8>, p: int)
    requires Emitted(i) && HasRegForm(i)
    requires var (rex, op, reg, low) := RegForm(i);
      0x40 <= rex < 0x50 && 0 <= reg < 8 && 0 <= low < 8 && ByteAt(code, p + 1) == op
      && DecodeModRM(code, p + 2, rex % 2) == ModRM(reg, InReg(low + 8 * (rex % 2)), 1)
    ensures var rex := RegForm(i).0;
      DecodeModRMInsn(code, p + 1, rex / 8 % 2, rex / 4 % 2, rex % 2) == Decoded(i, p + 3)
  {
    hide DecodeModRM, ByteAt, Signed32At;
  }

  lemma DecodesRegInsn(i: Insn, code: seq<u8>, p: int)
    requires Emitted(i) && HasRegForm(i)
    requires Placed(code, p, PlainBytes(i, p))
    ensures Decode(code, p) == Decoded(i, p + Size(i))
  {
    RegFormBytes(i, p);
    var (rex, op, reg, low) := RegForm(i);
    hide DecodeModRM, DecodeModRMInsn, Decode, ByteAt, W24, Placed, Signed32At, PlainBytes, Emitted, RegForm, Size;
    DecodesRegForm(code, p, rex, op, reg, low);
    RegFormMeaning(i, code, p);
  }

  lemma ImulBytes(z: int, y: int)
    requires 0 <= z < 8 && 0 <= y < 8
    ensures LE32(0xc0af0f4d + 0x8000000 * z + 0x1000000 * y) == [0x4d, 0x0f, 0xaf, 0xc0 + 8 * z + y]
  {
  }

  lemma DecodesImul(i: Insn, code: seq<u8>, p: int)
    requires Emitted(i) && i.Alu? && i.op == Imul
    requires Placed(code, p, PlainBytes(i, p))
    ensures Decode(code, p) == Decoded(i, p + Size(i))
  {
    ImulBytes(i.dst - 8, i.src - 8);
    Peek(code, p, PlainBytes(i, p));
    hide DecodeModRM, ByteAt, PlainBytes, LE32, DecodeModRMInsn;
    OperandReg(code, p + 3, 1, i.dst - 8, i.src - 8);
  }

  lemma DecodesXorEdx(i: Insn, code: seq<u8>, p: int)
    requires Emitted(i) && i.Alu? && i.op == Xor && !i.wide
    requires Placed(code, p, PlainBytes(i, p))
    ensures Decode(code, p) == Decoded(i, p + Size(i))
  {
    Peek(code, p, PlainBytes(i, p));
    hide ByteAt;
  }

  lemma DecodesMovImm32(i: Insn, code: seq<u8>, p: int)
    requires Emitted(i) && i.MovImm? && !i.wide
    requires Placed(code, p, PlainBytes(i, p))
    ensures Decode(code, p) == Decoded(i, p + Size(i))
  {
    var b := PlainBytes(i, p);
    var w := LE32(i.v);
    hide LE32, From32, ByteAt, Decode;
    assert b == W16(0x41 + 256 * (0xb8 + i.r - 8)) + w;
    hide PlainBytes, W16;
    W16Bytes(0x41, 0xb8 + i.r - 8);
    Peek(code, p, b);
    assert LE32At(code, p + 2) == w;
    From32OfLE32(i.v);
    OpcodeWithReg(code, p, 0x41, 0xb8 + i.r - 8);
  }

  lemma DecodesMovImm64(i: Insn, code: seq<u8>, p: int)
    requires Emitted(i) && i.MovImm? && i.wide
    requires Placed(code, p, PlainBytes(i, p))
    ensures Decode(code, p) == Decoded(i, p + Size(i))
  {
    var b := PlainBytes(i, p);
    var w := LE64(i.v);
    hide LE64, From64, ByteAt, Decode;
    assert b == W16(0x49 + 256 * (0xb8 + i.r - 8)) + w;
    hide PlainBytes, W16;
    W16Bytes(0x49, 0xb8 + i.r - 8);
    Peek(code, p, b);
    assert LE32At(code, p + 2) + LE32At(code, p + 6) == w;
    From64OfLE64(i.v);
    OpcodeWithReg(code, p, 0x49, 0xb8 + i.r - 8);
  }

  lemma LeaRipMeaning(i: Insn, code: seq<u8>, p: int)
    requires Emitted(i) && i.LeaRip? && ByteAt(code, p + 1) == 0x8d
    requires DecodeModRM(code, p + 2, 0) == ModRM(i.r - 8, RipRelative(i.address - (p + 7)), 5)
    ensures DecodeModRMInsn(code, p + 1, 1, 1, 0) == Decoded(i, p + 7)
  {
    hide DecodeModRM, ByteAt;
  }

  lemma LeaRipBytes(i: Insn, p: int)
    requires Emitted(i) && i.LeaRip?
    ensures 0 <= i.r - 8 < 8 && Size(i) == 7
    ensures PlainBytes(i, p) == [0x4c, 0x8d, 0x05 + 8 * (i.r - 8)] + LE32(i.address - (p + 7))
  {
    hide LE32, W16;
    W16Bytes(0x4c, 0x8d);
  }

  lemma DecodesLeaRip(i: Insn, code: seq<u8>, p: int)
    requires Emitted(i) && InReach(i, p) && i.LeaRip?
    requires Placed(code, p, PlainBytes(i, p))
    ensures Decode(code, p) == Decoded(i, p + Size(i))
  {
    LeaRipBytes(i, p);
    var rel := i.address - (p + 7);
    hide LE32, DecodeModRM, DecodeModRMInsn, Decode, ByteAt, Signed32At, PlainBytes, Emitted, Size, Placed;
    Peek(code, p, [0x4c, 0x8d, 0x05 + 8 * (i.r - 8)] + LE32(rel));
    Rel32At(code, p + 3, rel);
    OperandMem(code, p + 2, 0, 0, i.r - 8, 5);
    PlacedStart(code, p, PlainBytes(i, p));
    ViaModRM(code, p, 0x4c, 0x8d);
    LeaRipMeaning(i, code, p);
  }

  lemma DecodesAddImm(i: Insn, code: seq<u8>, p: int)
    requires Emitted(i) && i.AddImm?
    requires Placed(code, p, PlainBytes(i, p))
    ensures Decode(code, p) == Decoded(i, p + Size(i))
  {
    var b := PlainBytes(i, p);
    Peek(code, p, b);
    var rex := if i.r == RSP then 0x48 else 0x49;
    var low := if i.r == RSP then 4 else i.r - 8;
    assert b[0] == rex && b[2] == 0xc0 + 8 * 0 + low;
    if i.imm / 8 >= 16 {
      assert b[3..7] == LE32(i.imm);
      Rel32At(code, p + 3, i.imm);
    }
    hide DecodeModRM, LE32, ByteAt, Signed32At, PlainBytes;
    ViaModRM(code, p, rex, if i.imm / 8 >= 16 then 0x81 else 0x83);
    OperandReg(code, p + 2, rex % 2, 0, low);
  }

  /** The one emitted form the processor reads as something else: a load through R13 without displacement. */
  predicate Misread(i: Insn) {
    i.Load? && i.base == 13 && i.disp == 0
  }

  /** The processor reads back exactly the instruction the backend meant, and nothing more of the code than
      its own bytes, unless it is the load through R13 at field 0, which it reads as RIP-relative. */
  lemma RoundTrip(i: Insn, code: seq<u8>, p: int)
    requires Emitted(i) && InReach(i, p) && !i.Data?
    requires Placed(code, p, Bytes(i, p))
    ensures Decode(code, p) == Decoded(i, p + Size(i)) <==> !Misread(i)
    ensures Misread(i) ==> Decode(code, p) == Decoded(LoadRip(13, p + 7 + Signed32At(code, p + 3)), p + 7)
  {
    hide Decode, ByteAt, PlainBytes, Signed32At, Emitted, InReach, Size, Placed;
    if IsJump(i) { DecodesJump(i, code, p); }
    else if i.Push? || i.Pop? || i.Ret? { DecodesShort(i, code, p); }
    else if i.Load? || i.Store? || i.LeaMem? { DecodesMem(i, code, p); }
    else if HasRegForm(i) { DecodesRegInsn(i, code, p); }
    else if i.Alu? && i.op == Imul { DecodesImul(i, code, p); }
    else if i.Alu? { DecodesXorEdx(i, code, p); }
    else if i.MovImm? && i.wide { DecodesMovImm64(i, code, p); }
    else if i.MovImm? { DecodesMovImm32(i, code, p); }
    else if i.LeaRip? { DecodesLeaRip(i, code, p); }
    else if i.AddImm? { DecodesAddImm(i, code, p); }
    else { NoLoadRip(i); }
  }

  lemma NoLoadRip(i: Insn)
    requires Emitted(i)
    ensures !i.LoadRip?
  {
  }

  lemma DecodesShort(i: Insn, code: seq<u8>, p: int)
    requires Emitted(i) && (i.Push? || i.Pop? || i.Ret?)
    requires Placed(code, p, PlainBytes(i, p))
    ensures Decode(code, p) == Decoded(i, p + Size(i))
  {
    var b := PlainBytes(i, p);
    Peek(code, p, b);
    hide ByteAt, DecodeModRMInsn, DecodeTwoByte;
    if i.Ret? {
      assert b == [0xc3];
    } else {
      var op := if i.Push? then 0x50 else 0x58;
      assert b == W16(0x41 + 256 * (op + i.r - 8));
      W16Bytes(0x41, op + i.r - 8);
      hide PlainBytes, W16;
      OpcodeWithReg(code, p, 0x41, op + i.r - 8);
    }
  }

  lemma W16Bytes(lo: nat, hi: nat)
    requires lo < 256 && hi < 256
    ensures W16(lo + 256 * hi) == [lo, hi]
  {
  }

  /** REX prefixes 41 and 49 extend the register in the low bits of the opcode. */
  lemma OpcodeWithReg(code: seq<u8>, p: int, rex: int, op: int)
    requires 0 <= p < |code| && ByteAt(code, p) == rex && ByteAt(code, p + 1) == op
    requires rex == 0x41 || rex == 0x49
    requires 0x50 <= op < 0x60 || 0xb8 <= op < 0xc0
    ensures 0x50 <= op < 0x58 ==> Decode(code, p) == Decoded(Push(op - 0x50 + 8), p + 2)
    ensures 0x58 <= op < 0x60 ==> Decode(code, p) == Decoded(Pop(op - 0x58 + 8), p + 2)
    ensures 0xb8 <= op && rex == 0x41 ==>
      Decode(code, p) == Decoded(MovImm(op - 0xb8 + 8, From32(LE32At(code, p + 2)), false), p + 6)
    ensures 0xb8 <= op && rex == 0x49 ==>
      Decode(code, p) == Decoded(MovImm(op - 0xb8 + 8, From64(LE32At(code, p + 2) + LE32At(code, p + 6)), true), p + 10)
  {
    hide ByteAt, DecodeModRMInsn, DecodeTwoByte, From32, From64, LE32At;
  }
}
