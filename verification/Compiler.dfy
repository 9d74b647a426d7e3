/** The one-pass compiler: it reads tokens, checks types on a value stack, and writes machine code into a buffer
    as it goes, patching forward jumps in place when their targets become known. */
module Compiler {
  import opened Words
  import opened X86
  import opened Encoder
  import opened Source
  import opened Codegen
  import opened Sizes
  import opened Preservation
  import opened Layout
  import opened Patching
  import opened Syntax
  import opened Parsing
  import opened Conditions
  import opened Statements
  import opened Linking
  import opened Functions
  import opened Statics

  /** panic(code) stops the compilation; `CallAsLvalue` stands for the inputs f() = e and &f(), which the compiler
      does not reject and which this model does not follow further. */
  datatype Status = Ok | Panic(code: nat) | CallAsLvalue {
    predicate IsFailure() { !Ok? }
    function PropagateFailure(): Status
      requires IsFailure()
    {
      this
    }
  }

  class Compiler {
    const tokens: seq<Token>
    const buf: array<u8>
    var pos: nat
    var values: seq<Value>
    var dst: nat
    var dstMark: nat
    var nextRegister: nat
    var frameSize: nat
    var symbols: Symbols
    /** The last place in the chain of each function declared forward (the value of its symbol). */
    var heads: map<Name, Option<nat>>
    /** The result type of the function being compiled, if it has a result. */
    var returnType: Option<Type>

    /** The instructions that the bytes before dst are meant to be. */
    ghost var insns: seq<Insn>
    /** The number of the next label of a local chain. */
    ghost var labels: nat
    /** The functions compiled so far. */
    ghost var fns: map<Name, Fn>
    /** Where the calls of each of them go now. */
    ghost var links: map<Name, Env>

    ghost function Code(): seq<u8>
      requires dst <= buf.Length
      reads this`dst, buf
    {
      buf[..dst]
    }

    /** The bytes written represent the instructions. */
    ghost predicate Represented()
      reads this`dst, this`insns, this`labels, this`symbols, this`heads, buf
    {
      && dst <= buf.Length < 0x8000_0000 && Matches(Code(), insns)
      && Kept(insns, buf.Length, labels) && HeadsOk(symbols, heads, insns) && SymbolsInside(symbols, buf.Length)
    }

    // ----- writing bytes -----

    method Write8(value: nat) returns (r: Status)
      requires dst <= buf.Length
      modifies this`dst, buf
      ensures dst <= buf.Length
      ensures r.Ok? ==> Code() == old(Code()) + [value % 256]
    {
      if dst + 1 > buf.Length { return Panic(1); }
      buf[dst] := value % 256;
      dst := dst + 1;
      return Ok;
    }

    method Write16(value: nat) returns (r: Status)
      requires dst <= buf.Length
      modifies this`dst, buf
      ensures dst <= buf.Length
      ensures r.Ok? ==> Code() == old(Code()) + W16(value)
    {
      if dst + 2 > buf.Length { return Panic(1); }
      buf[dst] := value % 256;
      buf[dst + 1] := value / 256 % 256;
      dst := dst + 2;
      return Ok;
    }

    method Write24(opcode: nat, args: nat) returns (r: Status)
      requires dst <= buf.Length
      modifies this`dst, buf
      ensures dst <= buf.Length
      ensures r.Ok? ==> Code() == old(Code()) + W24(opcode, args)
    {
      r := Write16(opcode);
      if !r.Ok? { return; }
      r := Write8(args);
    }

    method Write32(value: int) returns (r: Status)
      requires dst <= buf.Length
      modifies this`dst, buf
      ensures dst <= buf.Length
      ensures r.Ok? ==> Code() == old(Code()) + LE32(value)
    {
      if dst + 4 > buf.Length { return Panic(1); }
      Store32(dst, value);
      dst := dst + 4;
      return Ok;
    }

    /** store32, of a value modulo 2^32. */
    method Store32(p: nat, value: int)
      requires p + 4 <= buf.Length
      modifies buf
      ensures buf[..] == Patch(old(buf[..]), p, LE32(value))
    {
      buf[p] := value % 256;
      buf[p + 1] := value / 256 % 256;
      buf[p + 2] := value / 65536 % 256;
      buf[p + 3] := value / 16777216 % 256;
      assert buf[p..p + 4] == LE32(value);
    }

    function Load32(p: nat): int
      requires p + 4 <= buf.Length
      reads buf
    {
      From32([buf[p], buf[p + 1], buf[p + 2], buf[p + 3]])
    }

    method Write64(value: u64) returns (r: Status)
      requires dst <= buf.Length
      modifies this`dst, buf
      ensures dst <= buf.Length
      ensures r.Ok? ==> Code() == old(Code()) + LE64(value)
    {
      if dst + 8 > buf.Length { return Panic(1); }
      :- Write32(value % TWO32);
      :- Write32(value / TWO32);
      return Ok;
    }

    method WriteMemInsn(insn: nat, modrm: nat, sib: nat, slot: nat) returns (r: Status)
      requires dst <= buf.Length
      modifies this`dst, buf
      ensures dst <= buf.Length
      ensures r.Ok? ==> Code() == old(Code()) + MemInsn(insn, modrm, sib, slot)
    {
      hide W16, LE32;
      var m := modrm;
      :- Write16(insn);
      if slot != 0 { m := m + 0x40; }
      if slot >= 16 { m := m + 0x40; }
      :- Write8(m);
      if sib != 0 { :- Write8(sib); }
      if slot >= 16 {
        :- Write32(slot * 8);
      } else if slot != 0 {
        :- Write8(slot * 8);
      }
      return Ok;
    }

    method WriteIncrementInsn(insn: nat, modrm: nat, slot: nat) returns (r: Status)
      requires dst <= buf.Length && insn >= 512
      modifies this`dst, buf
      ensures dst <= buf.Length
      ensures r.Ok? ==> Code() == old(Code()) + IncrementInsn(insn, modrm, slot)
    {
      if slot >= 16 {
        :- Write24(insn - 512, modrm);
        :- Write32(slot * 8);
      } else if slot != 0 {
        :- Write24(insn, modrm);
        :- Write8(slot * 8);
      }
      return Ok;
    }

    /** The bytes just written are those of instruction i. */
    ghost method Emit(i: Insn, bytes: seq<u8>)
      requires dst <= buf.Length < 0x8000_0000 && Matches(bytes, insns) && Kept(insns, buf.Length, labels)
      requires HeadsOk(symbols, heads, insns) && SymbolsInside(symbols, buf.Length) && NotForward(i)
      requires Shaped(i) && Code() == bytes + InsnBytes(i, SizeOf(insns), Previous(insns, i))
      requires Inside(i, buf.Length) && LabelBelow(i, labels)
      modifies this`insns
      ensures Represented() && insns == old(insns) + [i]
    {
      hide Matches, Kept, InsnBytes, Previous, SizeOf, Shaped, Inside, LabelBelow, HeadsOk, NotForward, SymbolsInside;
      MatchesSnoc(bytes, insns, i, InsnBytes(i, SizeOf(insns), Previous(insns, i)));
      KeptOne(i, buf.Length, labels);
      KeptMore(insns, labels, [i], labels, buf.Length);
      HeadsSnoc(symbols, heads, insns, i);
      insns := insns + [i];
    }

    /** The same for an instruction that is neither a jump nor refers to a place in the code. */
    ghost method EmitPlain(i: Insn, bytes: seq<u8>)
      requires dst <= buf.Length < 0x8000_0000 && Matches(bytes, insns) && Kept(insns, buf.Length, labels)
      requires HeadsOk(symbols, heads, insns) && SymbolsInside(symbols, buf.Length)
      requires Shaped(i) && !IsJump(i) && !i.LeaRip? && Code() == bytes + PlainBytes(i, SizeOf(insns))
      modifies this`insns
      ensures Represented() && insns == old(insns) + [i]
    {
      PlainIs(i, SizeOf(insns), Previous(insns, i));
      PlainKept(i, buf.Length, labels);
      hide Matches, Kept, InsnBytes, Previous, SizeOf, Shaped, Inside, LabelBelow, PlainBytes, IsJump, HeadsOk,
        NotForward, SymbolsInside;
      Emit(i, bytes);
    }

    // ----- registers -----

    method NewRegister() returns (r: Status, z: nat)
      modifies this`nextRegister
      ensures r.Ok? ==> z == old(nextRegister) < MAX_REGISTERS && nextRegister == z + 1
    {
      z := nextRegister;
      if z >= MAX_REGISTERS { return Panic(105), z; }
      nextRegister := z + 1;
      return Ok, z;
    }

    method SaveRegisters(count: nat) returns (r: Status)
      requires Represented() && count <= 8
      modifies this`dst, this`insns, this`nextRegister, this`frameSize, buf
      ensures r.Ok? ==> Represented() && insns == old(insns) + SaveInsns(count)
      ensures r.Ok? ==> nextRegister == 0 && frameSize == old(frameSize) + count
    {
      hide Matches, Kept, PlainBytes, Shaped, IsJump, W16, W24, LE32, LE64, MemInsn, IncrementInsn, SizeOf, Size, High,
        InsnBytes, Previous, HeadsOk, NotForward, SymbolsInside;
      var n: nat := count;
      frameSize := frameSize + n;
      nextRegister := 0;
      while n > 0
        invariant n <= count
        invariant Represented() && insns + SaveInsns(n) == old(insns) + SaveInsns(count)
        invariant nextRegister == 0 && frameSize == old(frameSize) + count
      {
        n := n - 1;
        ghost var before, i := Code(), Push(High(n));
        :- Write16(0x5041 + 256 * n);
        PushIs(n, SizeOf(insns));
        SaveNext(insns, n);
        EmitPlain(i, before);
      }
      return Ok;
    }

    // ----- instructions -----

    method WriteCstInsn(value: u64) returns (r: Status)
      requires Represented()
      modifies this`dst, this`insns, this`nextRegister, buf
      ensures r.Ok? ==> Represented() && insns == old(insns) + [CstInsn(old(nextRegister), value)]
      ensures r.Ok? ==> nextRegister == old(nextRegister) + 1 <= MAX_REGISTERS
    {
      hide Matches, Kept, PlainBytes, Shaped, IsJump, W16, W24, LE32, LE64, MemInsn, IncrementInsn, SizeOf, Size, High,
        InsnBytes, Previous, HeadsOk, NotForward, SymbolsInside;
      ghost var before := Code();
      var z :- NewRegister();
      CstIs(z, value, SizeOf(insns));
      if value == 0 {
        :- Write24(0x314d, 0xc0 + 8 * z + z);
      } else if value <= 0xFFFFFFFF {
        :- Write16(0xB841 + 256 * z);
        :- Write32(value);
      } else {
        :- Write16(0xB849 + 256 * z);
        :- Write64(value);
      }
      hide CstInsn;
      EmitPlain(CstInsn(z, value), before);
      return Ok;
    }

    method WriteStaticInsn(address: nat) returns (r: Status)
      requires Represented() && address <= buf.Length
      modifies this`dst, this`insns, this`nextRegister, buf
      ensures r.Ok? ==> Represented() && insns == old(insns) + [LeaRip(High(old(nextRegister)), address)]
      ensures r.Ok? ==> nextRegister == old(nextRegister) + 1 <= MAX_REGISTERS
    {
      hide Matches, Kept, PlainBytes, Shaped, IsJump, W16, W24, LE32, LE64, MemInsn, IncrementInsn, SizeOf, Size, High,
        InsnBytes, Previous, HeadsOk, NotForward, SymbolsInside;
      ghost var before := Code();
      MatchesLength(before, insns);
      var z :- NewRegister();
      :- Write24(0x8d4c, 0x05 + 8 * z);
      :- Write32(address - (dst + 4));
      LeaIs(z, address, |before|, buf.Length, Previous(insns, LeaRip(High(z), address)));
      Emit(LeaRip(High(z), address), before);
      return Ok;
    }

    method WriteBinaryInsn(token: nat) returns (r: Status)
      requires Represented() && 2 <= nextRegister <= 8
      modifies this`dst, this`insns, this`nextRegister, buf
      ensures r.Ok? ==> Represented() && insns == old(insns) + BinInsns(OpOf(token), old(nextRegister) - 2)
      ensures r.Ok? ==> nextRegister == old(nextRegister) - 1
    {
      hide Matches, Kept, PlainBytes, Shaped, IsJump, W16, W24, LE32, LE64, MemInsn, IncrementInsn, SizeOf, Size, High,
        InsnBytes, Previous, HeadsOk, NotForward, SymbolsInside;
      var y := nextRegister - 1;
      var z := y - 1;
      ghost var before := Code();
      if token == TC_ADD {
        :- Write24(0x034d, 0xc0 + 8 * z + y);
        AluIs(Add, z, y, SizeOf(insns));
        EmitPlain(Alu(Add, High(z), High(y), true), before);
      } else if token == TC_SUB {
        :- Write24(0x2b4d, 0xc0 + 8 * z + y);
        AluIs(Sub, z, y, SizeOf(insns));
        EmitPlain(Alu(Sub, High(z), High(y), true), before);
      } else if token == TC_MUL {
        :- Write32(0xc0af0f4d + 0x8000000 * z + 0x1000000 * y);
        AluIs(Imul, z, y, SizeOf(insns));
        EmitPlain(Alu(Imul, High(z), High(y), true), before);
      } else if token == TC_DIV {
        :- WriteDivide(z, y);
      } else if token == TC_BIT_AND {
        :- Write24(0x234d, 0xc0 + 8 * z + y);
        AluIs(And, z, y, SizeOf(insns));
        EmitPlain(Alu(And, High(z), High(y), true), before);
      } else if token == TC_BIT_OR {
        :- Write24(0x0b4d, 0xc0 + 8 * z + y);
        AluIs(Or, z, y, SizeOf(insns));
        EmitPlain(Alu(Or, High(z), High(y), true), before);
      } else if token == TC_SHIFT_LEFT {
        :- WriteShift(z, y, 0xe0);
      } else {
        :- WriteShift(z, y, 0xe8);
      }
      nextRegister := y;
      return Ok;
    }

    /** xor edx,edx; mov rax,r{z+8}; div r{y+8}; mov r{z+8},rax. */
    method WriteDivide(z: nat, y: nat) returns (r: Status)
      requires Represented() && z < 8 && y == z + 1 < 8
      modifies this`dst, this`insns, buf
      ensures r.Ok? ==> Represented() && insns == old(insns) + BinInsns(Quotient, z)
    {
      hide Matches, Kept, PlainBytes, Shaped, IsJump, W16, W24, LE32, LE64, MemInsn, IncrementInsn, SizeOf, Size, High,
        InsnBytes, Previous, HeadsOk, NotForward, SymbolsInside;
      ghost var b0 := Code();
      DivideIs(z, y, SizeOf(insns));
      :- Write16(0xd231);
      EmitPlain(Alu(Xor, RDX, RDX, false), b0);
      ghost var b1 := Code();
      DivideIs(z, y, SizeOf(insns));
      :- Write24(0x894c, 0xc0 + 8 * z);
      EmitPlain(Alu(Mov, RAX, High(z), true), b1);
      ghost var b2 := Code();
      DivideIs(z, y, SizeOf(insns));
      :- Write24(0xf749, 0xf0 + y);
      EmitPlain(Div(High(y)), b2);
      ghost var b3 := Code();
      DivideIs(z, y, SizeOf(insns));
      :- Write24(0x8949, 0xc0 + z);
      EmitPlain(Alu(Mov, High(z), RAX, true), b3);
      assert insns == old(insns) + BinInsns(Quotient, z);
      return Ok;
    }

    /** mov ecx,r{y+8}; then shl (modrm e0) or shr (modrm e8) of r{z+8} by cl. */
    method WriteShift(z: nat, y: nat, modrm: nat) returns (r: Status)
      requires Represented() && z < 8 && y == z + 1 < 8 && (modrm == 0xe0 || modrm == 0xe8)
      modifies this`dst, this`insns, buf
      ensures r.Ok? ==> Represented()
      ensures r.Ok? ==> insns == old(insns) + BinInsns(if modrm == 0xe0 then LeftShift else RightShift, z)
    {
      hide Matches, Kept, PlainBytes, Shaped, IsJump, W16, W24, LE32, LE64, MemInsn, IncrementInsn, SizeOf, Size, High,
        InsnBytes, Previous, HeadsOk, NotForward, SymbolsInside;
      ghost var b0 := Code();
      ShiftIs(z, y, SizeOf(insns));
      :- Write24(0x8944, 0xc1 + 8 * y);
      EmitPlain(Alu(Mov, RCX, High(y), false), b0);
      ghost var b1 := Code();
      ShiftIs(z, y, SizeOf(insns));
      :- Write24(0xd349, modrm + z);
      if modrm == 0xe0 {
        EmitPlain(Shl(High(z)), b1);
      } else {
        EmitPlain(Shr(High(z)), b1);
      }
      assert insns == old(insns) + BinInsns(if modrm == 0xe0 then LeftShift else RightShift, z);
      return Ok;
    }

    method WriteLoadInsn(field: nat) returns (r: Status)
      requires Represented() && 1 <= nextRegister <= 8
      modifies this`dst, this`dstMark, this`insns, buf
      ensures r.Ok? ==> Represented()
      ensures r.Ok? ==> insns == old(insns) + [Load(High(nextRegister - 1), High(nextRegister - 1), 8 * field)]
      ensures r.Ok? ==> dstMark == SizeOf(old(insns))
    {
      hide Matches, Kept, PlainBytes, Shaped, IsJump, W16, W24, LE32, LE64, MemInsn, IncrementInsn, SizeOf, Size, High,
        InsnBytes, Previous, HeadsOk, NotForward, SymbolsInside;
      dstMark := dst;
      var z := nextRegister - 1;
      var sib := 0;
      if z == 4 { sib := 0x24; }
      ghost var before := Code();
      MatchesLength(before, insns);
      LoadIs(z, field, SizeOf(insns));
      :- WriteMemInsn(0x8b4d, 8 * z + z, sib, field);
      EmitPlain(Load(High(z), High(z), 8 * field), before);
      return Ok;
    }

    method WriteStoreInsn(field: nat) returns (r: Status)
      requires Represented()
      modifies this`dst, this`insns, this`nextRegister, buf
      ensures r.Ok? ==> Represented() && insns == old(insns) + [Store(R8, 8 * field, R9)] && nextRegister == 0
    {
      hide Matches, Kept, PlainBytes, Shaped, IsJump, W16, W24, LE32, LE64, MemInsn, IncrementInsn, SizeOf, Size, High,
        InsnBytes, Previous, HeadsOk, NotForward, SymbolsInside;
      ghost var before := Code();
      StoreIs(field, SizeOf(insns));
      :- WriteMemInsn(0x894d, 0x8, 0, field);
      nextRegister := 0;
      EmitPlain(Store(R8, 8 * field, R9), before);
      return Ok;
    }

    method WriteAddressOfInsn(field: nat) returns (r: Status)
      requires Represented() && 1 <= nextRegister <= 8
      modifies this`dst, this`insns, buf
      ensures r.Ok? ==> Represented() && insns == old(insns) + FieldAddrInsns(nextRegister - 1, field)
    {
      hide Matches, Kept, PlainBytes, Shaped, IsJump, W16, W24, LE32, LE64, MemInsn, IncrementInsn, SizeOf, Size, High,
        InsnBytes, Previous, HeadsOk, NotForward, SymbolsInside;
      var z := nextRegister - 1;
      ghost var before := Code();
      AddIs(z, field, SizeOf(insns));
      :- WriteIncrementInsn(0x8349, 0xc0 + z, field);
      if field != 0 {
        EmitPlain(AddImm(High(z), 8 * field), before);
      } else {
        assert Code() == before;
        assert insns == insns + [];
      }
      return Ok;
    }

    method WritePtrInsn(variable: nat) returns (r: Status)
      requires Represented() && variable <= frameSize
      modifies this`dst, this`insns, this`nextRegister, buf
      ensures r.Ok? ==> Represented()
      ensures r.Ok? ==> insns == old(insns) + [LeaMem(High(old(nextRegister)), RSP, 8 * (frameSize - variable))]
      ensures r.Ok? ==> nextRegister == old(nextRegister) + 1 <= MAX_REGISTERS
    {
      hide Matches, Kept, PlainBytes, Shaped, IsJump, W16, W24, LE32, LE64, MemInsn, IncrementInsn, SizeOf, Size, High,
        InsnBytes, Previous, HeadsOk, NotForward, SymbolsInside;
      ghost var before := Code();
      var z :- NewRegister();
      StackIs(z, frameSize - variable, SizeOf(insns));
      :- WriteMemInsn(0x8d4c, 0x04 + 8 * z, 0x24, frameSize - variable);
      EmitPlain(LeaMem(High(z), RSP, 8 * (frameSize - variable)), before);
      return Ok;
    }

    method WriteGetInsn(variable: nat) returns (r: Status)
      requires Represented() && variable <= frameSize
      modifies this`dst, this`dstMark, this`insns, this`nextRegister, buf
      ensures r.Ok? ==> Represented()
      ensures r.Ok? ==> insns == old(insns) + [Load(High(old(nextRegister)), RSP, 8 * (frameSize - variable))]
      ensures r.Ok? ==> nextRegister == old(nextRegister) + 1 <= MAX_REGISTERS
      ensures r.Ok? ==> dstMark == SizeOf(old(insns))
    {
      hide Matches, Kept, PlainBytes, Shaped, IsJump, W16, W24, LE32, LE64, MemInsn, IncrementInsn, SizeOf, Size, High,
        InsnBytes, Previous, HeadsOk, NotForward, SymbolsInside;
      dstMark := dst;
      ghost var before := Code();
      MatchesLength(before, insns);
      var z :- NewRegister();
      StackIs(z, frameSize - variable, SizeOf(insns));
      :- WriteMemInsn(0x8b4c, 0x04 + 8 * z, 0x24, frameSize - variable);
      EmitPlain(Load(High(z), RSP, 8 * (frameSize - variable)), before);
      return Ok;
    }

    method WriteSetInsn(variable: nat) returns (r: Status)
      requires Represented() && variable <= frameSize
      modifies this`dst, this`insns, this`nextRegister, buf
      ensures r.Ok? ==> Represented() && insns == old(insns) + [Store(RSP, 8 * (frameSize - variable), R8)]
      ensures r.Ok? ==> nextRegister == 0
    {
      hide Matches, Kept, PlainBytes, Shaped, IsJump, W16, W24, LE32, LE64, MemInsn, IncrementInsn, SizeOf, Size, High,
        InsnBytes, Previous, HeadsOk, NotForward, SymbolsInside;
      ghost var before := Code();
      StackIs(0, frameSize - variable, SizeOf(insns));
      :- WriteMemInsn(0x894c, 0x04, 0x24, frameSize - variable);
      nextRegister := 0;
      EmitPlain(Store(RSP, 8 * (frameSize - variable), R8), before);
      return Ok;
    }

    /** Erases the last instruction, whose start was marked. */
    method EraseLastInsn()
      requires Represented() && insns != [] && dstMark == SizeOf(insns[..|insns| - 1]) && !IsJump(insns[|insns| - 1])
      modifies this`dst, this`insns
      ensures Represented() && insns == old(insns)[..|old(insns)| - 1] && dst == dstMark
    {
      hide Matches, SizeOf, Size, HeadsOk, Kept, SymbolsInside;
      ghost var init, i := insns[..|insns| - 1], insns[|insns| - 1];
      assert insns == init + [i];
      MatchesInit(Code(), init, i);
      HeadsInit(symbols, heads, init, i);
      assert buf[..dstMark] == buf[..dst][..dstMark];
      dst := dstMark;
      insns := init;
      KeptInit(init, i, buf.Length, labels);
    }

    method WriteReturnInsn() returns (r: Status)
      requires Represented()
      modifies this`dst, this`insns, this`nextRegister, buf
      ensures r.Ok? ==> Represented() && insns == old(insns) + ReturnInsns(frameSize) && nextRegister == 0
    {
      hide Matches, Kept, PlainBytes, Shaped, IsJump, W16, W24, LE32, LE64, MemInsn, IncrementInsn, SizeOf, Size, High,
        InsnBytes, Previous, HeadsOk, NotForward, SymbolsInside;
      ghost var before := Code();
      ReturnIs(frameSize, SizeOf(insns));
      :- WriteIncrementInsn(0x8348, 0xc4, frameSize);
      if frameSize != 0 {
        EmitPlain(AddImm(RSP, 8 * frameSize), before);
      } else {
        assert Code() == before;
      }
      ghost var b1 := Code();
      :- Write8(0xc3);
      EmitPlain(Ret, b1);
      nextRegister := 0;
      return Ok;
    }
  
    // ----- jumps and placeholders -----

    /** Appends the current place to a chain and returns it: the place holds its distance to the previous one. */
    method WritePlaceholder(head: Option<nat>) returns (r: Status, newHead: Option<nat>)
      requires dst <= buf.Length
      modifies this`dst, buf
      ensures dst <= buf.Length
      ensures r.Ok? ==> newHead == Some(old(dst))
      ensures r.Ok? ==> Code() == old(Code()) + LE32(if head.None? then 0 else old(dst) - head.value)
    {
      newHead := Some(dst);
      var last := head;
      if last == None { last := newHead; }
      r := Write32(dst - last.value);
    }

    /** Makes every jump in a chain go to `value`, following the links backwards through the code. */
    method FillPlaceholders(head: Option<nat>, value: nat, ghost l: Label)
      requires dst <= buf.Length < 0x8000_0000 && Matches(Code(), insns) && head == LastHole(insns, l)
        && value <= buf.Length
      modifies this`insns, buf
      ensures Matches(Code(), insns) && insns == Subst(old(insns), l, At(value))
    {
      hide Matches, Kept, SizeOf, Size, LastHole, HeadsOk, SymbolsInside, Subst, ResolveLast, LE32, From32, Free, Patch;
      var placeholder := head;
      ghost var start := insns;
      while placeholder != None
        invariant dst == old(dst) <= buf.Length < 0x8000_0000 && Matches(Code(), insns)
        invariant placeholder == LastHole(insns, l)
        invariant Subst(insns, l, At(value)) == Subst(start, l, At(value))
        decreases if placeholder == None then 0 else placeholder.value + 1
      {
        var p := placeholder.value;
        ghost var before := Code();
        PatchLast(before, insns, l, value);
        var offset := Load32(p);
        LoadedWord(buf[..], dst, p);
        ghost var all := buf[..];
        Store32(p, value - (p + 4));
        PatchedPrefix(all, dst, p, LE32(value - (p + 4)));
        ResolveLastSubst(insns, l, At(value));
        insns := ResolveLast(insns, l, At(value));
        if offset == 0 {
          placeholder := None;
        } else {
          placeholder := Some(p - offset);
        }
      }
      FreeHasNoHole(insns, l);
      SubstFree(insns, l, At(value));
    }

    /** The same for a local label. */
    method FillLabel(head: Option<nat>, value: nat, ghost id: nat)
      requires Represented() && head == LastHole(insns, Local(id)) && value <= buf.Length
      modifies this`insns, buf
      ensures Represented() && insns == Subst(old(insns), Local(id), At(value))
    {
      hide Matches, Kept, SizeOf, Size, LastHole, HeadsOk, SymbolsInside, Subst;
      ghost var start := insns;
      FillPlaceholders(head, value, Local(id));
      KeptSubst(start, buf.Length, labels, Local(id), value);
      HeadsSubst(symbols, heads, start, Local(id), value);
    }

    /** cmp r8,r9; j{xx}: jumps to the label if the comparison holds. */
    method WriteJumpInsn(rel: RelToken, head: Option<nat>, ghost id: nat) returns (r: Status, newHead: Option<nat>)
      requires Represented() && head == LastHole(insns, Local(id)) && id < labels
      modifies this`dst, this`insns, this`nextRegister, buf
      ensures r.Ok? ==> Represented() && insns == old(insns) + JumpInsns(rel, Ref(Local(id)))
      ensures r.Ok? ==> newHead == LastHole(insns, Local(id)) && nextRegister == 0
    {
      hide JumpInsns, CondOf, LastHole, Subst, Matches, Kept, PlainBytes, Shaped, IsJump, W16, W24, LE32, LE64,
        MemInsn, IncrementInsn, SizeOf, Size, High, InsnBytes, Previous, HeadsOk, NotForward, SymbolsInside;
      newHead := head;
      ghost var before, l := Code(), Local(id);
      ghost var j := Jcc(CondOf(rel), Ref(l));
      MatchesLength(before, insns);
      :- Write32(0x0fc8394d);
      :- Write8([0x82, 0x84, 0x87, 0x86, 0x85, 0x83][rel - 12]);
      r, newHead := WritePlaceholder(head);
      if !r.Ok? { return; }
      EmitCmp(before, l);
      ghost var mid := before + [0x4d, 0x39, 0xc8];
      MatchesLength(mid, insns);
      JccIs(rel, l, SizeOf(insns), insns, labels, buf.Length);
      assert Code() == mid + InsnBytes(j, SizeOf(insns), Previous(insns, j));
      LastHoleSnoc(insns, j, l);
      JumpInsnsAre(rel, l, old(insns));
      Emit(j, mid);
      nextRegister := 0;
    }

    /** The comparison, which is written together with the first byte of the jump after it. */
    ghost method EmitCmp(bytes: seq<u8>, l: Label)
      requires Matches(bytes, insns) && Kept(insns, buf.Length, labels) && HeadsOk(symbols, heads, insns)
      modifies this`insns
      ensures insns == old(insns) + [Cmp(R8, R9)] && LE32(0x0fc8394d) == [0x4d, 0x39, 0xc8, 0x0f]
      ensures Matches(bytes + [0x4d, 0x39, 0xc8], insns) && Kept(insns, buf.Length, labels)
        && HeadsOk(symbols, heads, insns)
      ensures LastHole(insns, l) == old(LastHole(insns, l))
    {
      hide Matches, Kept, PlainBytes, Shaped, IsJump, W16, W24, LE32, LE64, MemInsn, IncrementInsn, SizeOf, Size, High,
        InsnBytes, Previous, HeadsOk, NotForward, SymbolsInside;
      ghost var i := Cmp(R8, R9);
      CmpIs(SizeOf(insns), Previous(insns, i));
      MatchesSnoc(bytes, insns, i, [0x4d, 0x39, 0xc8]);
      PlainKept(i, buf.Length, labels);
      KeptOne(i, buf.Length, labels);
      KeptMore(insns, labels, [i], labels, buf.Length);
      HeadsSnoc(symbols, heads, insns, i);
      NotWaiting(insns, i, l);
      insns := insns + [i];
    }

    method WriteGotoInsn(head: Option<nat>, ghost id: nat) returns (r: Status, newHead: Option<nat>)
      requires Represented() && head == LastHole(insns, Local(id)) && id < labels
      modifies this`dst, this`insns, buf
      ensures r.Ok? ==> Represented() && insns == old(insns) + [Jmp(Ref(Local(id)))]
      ensures r.Ok? ==> newHead == LastHole(insns, Local(id))
    {
      hide Matches, Kept, PlainBytes, Shaped, IsJump, W16, W24, LE32, LE64, MemInsn, IncrementInsn, SizeOf, Size, High,
        InsnBytes, Previous, HeadsOk, NotForward, SymbolsInside;
      newHead := head;
      ghost var before, l := Code(), Local(id);
      ghost var j := Jmp(Ref(l));
      MatchesLength(before, insns);
      :- Write8(0xe9);
      r, newHead := WritePlaceholder(head);
      if !r.Ok? { return; }
      JmpIs(l, SizeOf(insns), insns, labels, buf.Length);
      LastHoleSnoc(insns, j, l);
      Emit(j, before);
    }

    method WriteLoopInsn(loopDst: nat) returns (r: Status)
      requires Represented() && loopDst <= dst
      modifies this`dst, this`insns, buf
      ensures r.Ok? ==> Represented() && insns == old(insns) + [Jmp(At(loopDst))]
    {
      hide Matches, Kept, PlainBytes, Shaped, IsJump, W16, W24, LE32, LE64, MemInsn, IncrementInsn, SizeOf, Size, High,
        InsnBytes, Previous, HeadsOk, NotForward, SymbolsInside;
      ghost var before := Code();
      ghost var j := Jmp(At(loopDst));
      MatchesLength(before, insns);
      :- Write8(0xe9);
      :- Write32(loopDst - (dst + 4));
      BackIs(j, loopDst, 0xe9, SizeOf(insns), insns, buf.Length);
      Emit(j, before);
      return Ok;
    }

    // ----- calls -----

    /** The displacement of a call of a function declared forward: a link of its chain. */
    method WriteForwardCall(f: Name, ghost before: seq<u8>) returns (r: Status)
      requires dst <= buf.Length < 0x8000_0000 && Code() == before + [0xe8] && Matches(before, insns)
        && Kept(insns, buf.Length, labels)
      requires HeadsOk(symbols, heads, insns) && SymbolsInside(symbols, buf.Length) && f in symbols
        && IsForward(symbols[f])
      modifies this`dst, this`insns, this`heads, buf
      ensures r.Ok? ==> Represented() && insns == old(insns) + [Call(Ref(Forward(f)))]
    {
      hide Matches, Kept, PlainBytes, Shaped, IsJump, LE32, SizeOf, Size, InsnBytes, Previous, HeadsOk, NotForward,
        SymbolsInside;
      MatchesLength(before, insns);
      ghost var i := Call(Ref(Forward(f)));
      HeadIs(symbols, heads, insns, f);
      var head;
      r, head := WritePlaceholder(heads[f]);
      if !r.Ok? { return; }
      WaitCallIs(f, SizeOf(insns), insns, labels, buf.Length);
      MatchesSnoc(before, insns, i, InsnBytes(i, SizeOf(insns), Previous(insns, i)));
      KeptOne(i, buf.Length, labels);
      KeptMore(insns, labels, [i], labels, buf.Length);
      HeadsCall(symbols, heads, insns, f, i);
      assert Code() == before + InsnBytes(i, SizeOf(insns), Previous(insns, i));
      heads := heads[f := head];
      insns := insns + [i];
      assert Matches(Code(), insns);
      return Ok;
    }

    /** The call itself: to the function, or waiting for it. */
    method WriteCallTarget(f: Name) returns (r: Status)
      requires Represented() && f in symbols && symbols[f].FnSymbol?
      modifies this`dst, this`insns, this`heads, buf
      ensures r.Ok? ==> Represented() && insns == old(insns) + [Call(FnTarget(EnvOf(symbols), f))]
    {
      hide Matches, Kept, PlainBytes, Shaped, IsJump, LE32, SizeOf, Size, InsnBytes, Previous, HeadsOk, NotForward;
      ghost var before := Code();
      MatchesLength(before, insns);
      CallTargetIs(symbols, f);
      :- Write8(0xe8);
      if symbols[f].target == None {
        r := WriteForwardCall(f, before);
        return;
      } else {
        var target := symbols[f].target.value;
        :- Write32(target - (dst + 4));
        BackIs(Call(At(target)), target, 0xe8, SizeOf(insns), insns, buf.Length);
        Emit(Call(At(target)), before);
      }
      return Ok;
    }

    /** tc_write_call_insn: the call, its result moved above the saved registers, and these restored. */
    method WriteCallInsn(f: Name, saved: nat) returns (r: Status)
      requires Represented() && f in symbols && symbols[f].FnSymbol? && saved <= 8 && saved <= frameSize
      modifies this`dst, this`insns, this`heads, this`nextRegister, this`frameSize, buf
      ensures r.Ok? ==> Represented() && frameSize == old(frameSize) - saved
      ensures r.Ok? ==>
        insns == old(insns) + [Call(FnTarget(EnvOf(symbols), f))]
                 + (if symbols[f].ret.Some? then ResultInsns(saved) else []) + RestoreInsns(0, saved)
      ensures r.Ok? ==> nextRegister == saved + (if symbols[f].ret.Some? then 1 else 0) <= MAX_REGISTERS
    {
      hide Matches, Kept, PlainBytes, Shaped, IsJump, W16, W24, LE32, LE64, MemInsn, IncrementInsn, SizeOf, Size, High,
        InsnBytes, Previous, HeadsOk, NotForward, SymbolsInside;
      :- WriteCallTarget(f);
      ghost var called := insns;
      if symbols[f].ret != None {
        if saved != 0 {
          ghost var before := Code();
          :- Write24(0x894d, 0xc0 + saved);
          if saved >= 8 { return Panic(108); }
          MovIs(saved, SizeOf(insns));
          EmitPlain(Alu(Mov, High(saved), R8, true), before);
        }
        nextRegister := saved + 1;
      } else {
        nextRegister := saved;
      }
      frameSize := frameSize - saved;
      ghost var moved := insns;
      assert moved == called + (if symbols[f].ret.Some? then ResultInsns(saved) else []);
      :- RestoreRegisters(saved);
      return Ok;
    }

    method RestoreRegisters(saved: nat) returns (r: Status)
      requires Represented() && saved <= 8
      modifies this`dst, this`insns, buf
      ensures r.Ok? ==> Represented() && insns == old(insns) + RestoreInsns(0, saved)
    {
      hide Matches, Kept, PlainBytes, Shaped, IsJump, W16, W24, LE32, LE64, MemInsn, IncrementInsn, SizeOf, Size, High,
        InsnBytes, Previous, HeadsOk, NotForward, SymbolsInside;
      var z := 0;
      while z < saved
        invariant z <= saved
        invariant Represented() && insns + RestoreInsns(z, saved) == old(insns) + RestoreInsns(0, saved)
      {
        ghost var before, i := Code(), Pop(High(z));
        PushIs(z, SizeOf(insns));
        :- Write16(0x5841 + 256 * z);
        assert insns + RestoreInsns(z, saved) == insns + [i] + RestoreInsns(z + 1, saved);
        EmitPlain(i, before);
        z := z + 1;
      }
      return Ok;
    }
  
    // ----- tokens -----

    function Next(): Token
      reads this`pos
    {
      if pos < |tokens| then tokens[pos] else Tok(TC_END)
    }

    /** tc_read_token. */
    method Advance()
      requires pos <= |tokens|
      modifies this`pos
      ensures pos == if old(pos) < |tokens| then old(pos) + 1 else old(pos)
    {
      if pos < |tokens| { pos := pos + 1; }
    }

    method ParseToken(token: nat) returns (r: Status)
      requires pos <= |tokens| && token != TC_END
      modifies this`pos
      ensures r.Ok? ==> old(pos) < pos <= |tokens| && tokens[old(pos)..pos] == [Tok(token)] == [tokens[old(pos)]]
    {
      if Next() != Tok(token) { return Panic(20); }
      Advance();
      return Ok;
    }

    method ParseInteger() returns (r: Status, value: u64)
      requires pos <= |tokens|
      modifies this`pos
      ensures r.Ok? ==> old(pos) < pos <= |tokens| && tokens[old(pos)..pos] == [Int(value)]
    {
      value := 0;
      if !Next().Int? { return Panic(21), 0; }
      value := Next().v;
      Advance();
      r := Ok;
    }

    method ParseIdentifier() returns (r: Status, name: Name)
      requires pos <= |tokens|
      modifies this`pos
      ensures r.Ok? ==> old(pos) < pos <= |tokens| && tokens[old(pos)..pos] == [Id(name)]
    {
      name := [];
      if !Next().Id? { return Panic(22), []; }
      name := Next().name;
      Advance();
      r := Ok;
    }

    method ParseType() returns (r: Status, ty: Type, ghost tree: TypeTree)
      requires pos <= |tokens|
      modifies this`pos
      ensures r.Ok? ==> old(pos) < pos <= |tokens| && tokens[old(pos)..pos] == PrintType(tree)
      ensures r.Ok? ==> ElabType(symbols, tree) == Some(ty)
    {
      ty, tree := U64, TypeTree(List.Nil, None);
      var dim := 0;
      ghost var ands: seq<bool> := [];
      while Next() == Tok(TC_BIT_AND) || Next() == Tok(TC_AND)
        invariant old(pos) <= pos <= |tokens|
        invariant tokens[old(pos)..pos] == PrintAnds(ListOf(ands)) && dim == Dim(ListOf(ands))
        decreases |tokens| - pos
      {
        dim := dim + 1;
        if Next() == Tok(TC_AND) { dim := dim + 1; }
        AndsSnoc(ands, Next() == Tok(TC_AND));
        ands := ands + [Next() == Tok(TC_AND)];
        Advance();
      }
      tree := TypeTree(ListOf(ands), None);
      if Next() == Tok(TC_U64) {
        Advance();
        return Ok, Type(None, dim), tree;
      }
      ghost var p := pos;
      var name;
      r, name := ParseIdentifier();
      if !r.Ok? { return; }
      Split(tokens, old(pos), p, pos);
      if name !in symbols { return Panic(33), ty, tree; }
      if dim == 0 || !symbols[name].StructSymbol? { return Panic(42), ty, tree; }
      tree := TypeTree(ListOf(ands), Some(name));
      return Ok, Type(Some(name), dim), tree;
    }

    // ----- the value stack -----

    /** tc_push_value. */
    method PushValue(v: Value) returns (r: Status)
      modifies this`values
      ensures r.Ok? ==> values == old(values) + [v]
    {
      if v.ty.dim == 0 && v.ty.base != None { return Panic(44); }
      values := values + [v];
      return Ok;
    }

    method PopValueOrVoid() returns (v: Value)
      requires values != []
      modifies this`values
      ensures old(values) == values + [v]
    {
      v := values[|values| - 1];
      values := values[..|values| - 1];
    }

    method PopValue() returns (r: Status, v: Value)
      requires values != []
      modifies this`values
      ensures old(values) == values + [v]
      ensures r.Ok? ==> v.origin != FromVoid
    {
      v := PopValueOrVoid();
      r := if v.origin == FromVoid then Panic(45) else Ok;
    }

    /** The arguments are the top values, last on top; they are replaced by the value of the call. */
    method CheckFnArguments(f: Name, count: nat) returns (r: Status)
      requires f in symbols && symbols[f].FnSymbol? && count <= |values|
      modifies this`values
      ensures r.Ok? ==>
        AllHaveTypes(old(values)[|old(values)| - count..], symbols[f].params)
        && values == old(values)[..|old(values)| - count] + [ResultValue(symbols[f].ret)]
    {
      var params := symbols[f].params;
      var i, n := |params|, count;
      ghost var vs := old(values);
      while i != 0 && n != 0
        invariant 0 <= i <= |params| && 0 <= n <= count
        invariant count - n == |params| - i && values == vs[..|vs| - (count - n)]
        invariant AllHaveTypes(vs[|vs| - (count - n)..], params[i..])
      {
        var v;
        r, v := PopValue();
        if !r.Ok? { return; }
        i := i - 1;
        n := n - 1;
        if !HasType(v, params[i]) { return Panic(43); }
        TypesCons(vs, |vs| - (count - n), params, i);
      }
      if i != 0 || n != 0 { return Panic(46); }
      r := PushValue(ResultValue(symbols[f].ret));
    }

    method CheckBinary(op: nat) returns (r: Status)
      requires |values| >= 2
      modifies this`values
      ensures r.Ok? ==>
        var n := |old(values)|;
        var x, y := old(values)[n - 2], old(values)[n - 1];
        x.origin != FromVoid && y.origin != FromVoid && BinType(op, x.ty, y.ty).Some?
        && values == old(values)[..n - 2] + [Plain(BinType(op, x.ty, y.ty).value)]
    {
      var x, y;
      r, y := PopValue();
      if !r.Ok? { return; }
      r, x := PopValue();
      if !r.Ok? { return; }
      if op == TC_ADD || op == TC_SUB {
        // tc_check_add_or_sub_expr
        if y.ty.dim == 0 {
          r := PushValue(Plain(x.ty));
        } else if op == TC_SUB && x.ty.dim != 0 {
          if x.ty != y.ty { return Panic(52); }
          r := PushValue(Plain(U64));
        } else {
          return Panic(53);
        }
      } else {
        // tc_check_integer_expr
        if x.ty != U64 { return Panic(50); }
        if y.ty != U64 { return Panic(51); }
        r := PushValue(Plain(U64));
      }
    }

    method CheckComparison() returns (r: Status)
      requires |values| >= 2
      modifies this`values
      ensures r.Ok? ==>
        var n := |old(values)|;
        var x, y := old(values)[n - 2], old(values)[n - 1];
        x.origin != FromVoid && y.origin != FromVoid && Comparable(x, y) && values == old(values)[..n - 2]
    {
      var x, y;
      r, y := PopValue();
      if !r.Ok? { return; }
      r, x := PopValue();
      if !r.Ok? { return; }
      if !Comparable(x, y) { return Panic(54); }
    }

    // ----- expressions -----

    ghost predicate Ready()
      reads this, buf
    {
      Represented() && pos <= |tokens| && nextRegister <= 8 && VarsWithin(symbols, frameSize)
    }

    ghost function Now(): View
      reads this
    {
      View(pos, values, insns, nextRegister, frameSize, dstMark)
    }

    /** tc_parse_token. */
    method ReadToken(token: nat) returns (r: Status)
      requires pos <= |tokens| && token != TC_END
      modifies this`pos
      ensures r.Ok? ==> Read(tokens, old(pos), pos, [Tok(token)]) && old(pos) < pos <= |tokens|
    {
      r := ParseToken(token);
    }

    /** The arguments of a call, up to the closing parenthesis. */
    method ParseArgList() returns (r: Status, count: nat, ghost args: List<Tree>, ghost es: List<Expr>,
                        ghost vs: seq<Value>)
      requires Ready() && nextRegister == 0
      modifies this`pos, this`values, this`dst, this`dstMark, this`nextRegister, this`frameSize, this`heads,
        this`insns, buf
      ensures r.Ok? ==> Ready() && ArgsParsed(tokens, symbols, old(Now()), Now(), args, es, vs) && count == |vs|
      ensures r.Ok? ==>
        old(pos) <= pos && values == old(values) + vs && frameSize == old(frameSize) && Next() == Tok(TC_CLOSE)
      decreases |tokens| - pos, 9
    {
      hide Represented, VarsWithin, Parsed, Read, EnvOf, ArgsParsed, Derives, Adds;
      r, count, args, es, vs := Ok, 0, List.Nil, List.Nil, [];
      ghost var c := Now();
      NoArgsParsed(tokens, symbols, c);
      while Next() != Tok(TC_CLOSE)
        invariant r.Ok? && Ready() && ArgsParsed(tokens, symbols, c, Now(), args, es, vs) && count == |vs|
        invariant c.pos <= pos && values == c.values + vs && frameSize == c.frame
        decreases |tokens| - pos
      {
        ghost var d := Now();
        if count > 0 {
          r := ReadToken(TC_COMMA);
          if !r.Ok? { return; }
        }
        ghost var f := Now();
        ghost var arg, argEl;
        r, arg, argEl := ParseExpr();
        if !r.Ok? { return; }
        ParsedParts(tokens, symbols, 8, f, Now(), arg, argEl);
        ArgsParsedSnoc(tokens, symbols, c, d, f, Now(), args, es, vs, arg, argEl);
        args, es, vs := Snoc(args, arg), Snoc(es, argEl.core), vs + [argEl.value];
        count := count + 1;
      }
    }

    method ParseFnArguments(name: Name, ghost a: View) returns (r: Status, ghost e: Tree, ghost el: Elaborated)
      requires Ready() && name in symbols && Read(tokens, a.pos, pos, [Id(name)]) && Now() == a.(pos := pos)
      modifies this`pos, this`values, this`dst, this`dstMark, this`nextRegister, this`frameSize, this`heads,
        this`insns, buf
      ensures r.Ok? ==> Ready() && Parsed(tokens, symbols, 0, a, Now(), e, el)
      decreases |tokens| - pos, 9
    {
      hide Derives, Adds, Coded, Elab, GenExpr, Represented, VarsWithin, Parsed, Read, SaveInsns, RestoreInsns,
        ResultInsns, EnvOf, FnTarget, ArgsParsed, AllHaveTypes;
      e, el := TNull, Elaborated(Lit(0), Plain(U64));
      if !symbols[name].FnSymbol? { return Panic(34), e, el; }
      ghost var p := pos;
      r := ReadToken(TC_OPEN);
      if !r.Ok? { return; }
      ReadPair(tokens, a.pos, p, pos, Id(name), Tok(TC_OPEN));
      ghost var b := Now();
      var saved := nextRegister;
      NothingToSave(insns);
      if saved != 0 {
        r := SaveRegisters(saved);
        if !r.Ok? { return; }
        VarsWithinMore(symbols, a.frame, frameSize);
      }
      ghost var c := Now();
      var count;
      ghost var args, es, vs;
      r, count, args, es, vs := ParseArgList();
      if !r.Ok? { return; }
      ghost var d := Now();
      ReadOne(tokens, pos);
      Advance();
      SliceLast(c.values, vs);
      r := CheckFnArguments(name, count);
      if !r.Ok? { return; }
      r := WriteCallInsn(name, saved);
      if !r.Ok? { return; }
      e, el := TCall(name, args), Elaborated(Apply(name, es), ResultValue(symbols[name].ret));
      ParsedCall(tokens, symbols, a, b, c, d, Now(), name, args, es, vs);
    }

    method ParseSizeofExpr() returns (r: Status, ghost e: Tree, ghost el: Elaborated)
      requires Ready()
      modifies this`pos, this`values, this`dst, this`dstMark, this`nextRegister, this`frameSize, this`heads,
        this`insns, buf
      ensures r.Ok? ==> Ready() && Parsed(tokens, symbols, 0, old(Now()), Now(), e, el)
    {
      hide Adds, Coded, EnvOf, Elab, GenExpr, Represented, VarsWithin, Parsed, Derives, SizeOf;
      e, el := TNull, Elaborated(Lit(0), Plain(U64));
      :- ParseToken(TC_SIZEOF);
      :- ParseToken(TC_OPEN);
      var name :- ParseIdentifier();
      if name !in symbols { return Panic(33), e, el; }
      if !symbols[name].StructSymbol? { return Panic(47), e, el; }
      :- PushValue(Plain(U64));
      :- WriteCstInsn(Wrap(symbols[name].size * 8));
      :- ParseToken(TC_CLOSE);
      e, el := TSizeof(name), Elaborated(Lit(Wrap(symbols[name].size * 8)), Plain(U64));
      DerivesSizeof(tokens, symbols, old(pos), pos, name);
      ParsedLeaf(tokens, symbols, old(Now()), Now(), e, el);
      return Ok, e, el;
    }

    /** A symbol that is not called. */
    method WriteSymbol(name: Name, ghost a: View) returns (r: Status, ghost e: Tree, ghost el: Elaborated)
      requires Ready() && name in symbols && Read(tokens, a.pos, pos, [Id(name)]) && Now() == a.(pos := pos)
      modifies this`values, this`dst, this`dstMark, this`nextRegister, this`insns, buf
      ensures r.Ok? ==> Ready() && Parsed(tokens, symbols, 0, a, Now(), e, el)
    {
      hide Represented, VarsWithin, Parsed, Read, Derives, SizeOf, CstInsn, High;
      e, el := TName(name), Elaborated(Lit(0), Plain(U64));
      SymbolInside(name);
      match symbols[name] {
        case VarSymbol(x, ty) =>
          el := Elaborated(Var(x), Value(FromVariable, x, ty));
          VarWithin(symbols, frameSize, name);
          :- PushValue(Value(FromVariable, x, ty));
          :- WriteGetInsn(x);
        case ConstSymbol(v, ty) =>
          el := Elaborated(Lit(v), Plain(ty));
          :- PushValue(Plain(ty));
          :- WriteCstInsn(v);
        case StaticSymbol(address) =>
          el := Elaborated(Address(address), Plain(Type(None, 1)));
          :- PushValue(Plain(Type(None, 1)));
          :- WriteStaticInsn(address);
        case FnSymbol(Some(address), _, _) =>
          el := Elaborated(Address(address), Plain(U64));
          :- PushValue(Plain(U64));
          :- WriteStaticInsn(address);
        case _ =>
          return Panic(35), e, el;
      }
      DerivesName(tokens, symbols, a.pos, pos, name, el);
      ParsedLeaf(tokens, symbols, a, Now(), e, el);
      return Ok, e, el;
    }

    lemma SymbolInside(name: Name)
      requires Represented() && name in symbols
      ensures symbols[name].StaticSymbol? ==> symbols[name].offset <= buf.Length
      ensures symbols[name].FnSymbol? && symbols[name].target.Some? ==> symbols[name].target.value <= buf.Length
    {
      hide Matches, Kept, HeadsOk;
    }

    method ParsePrimitiveExpr() returns (r: Status, ghost e: Tree, ghost el: Elaborated)
      requires Ready()
      modifies this`pos, this`values, this`dst, this`dstMark, this`nextRegister, this`frameSize, this`heads,
        this`insns, buf
      ensures r.Ok? ==> Ready() && Parsed(tokens, symbols, 0, old(Now()), Now(), e, el)
      decreases |tokens| - pos, 0
    {
      hide EnvOf, Elab, GenExpr, Represented, VarsWithin, Parsed, Read, Derives, SizeOf, ElabType, PrintType, FieldOf,
        BinType, BinInsns, Adds, Coded, Marked, High;
      e, el := TNull, Elaborated(Lit(0), Plain(U64));
      ghost var a := Now();
      if Next().Int? {
        :- PushValue(Plain(U64));
        var v :- ParseInteger();
        :- WriteCstInsn(v);
        e, el := TInt(v), Elaborated(Lit(v), Plain(U64));
        DerivesInt(tokens, symbols, a.pos, pos, v);
        ParsedLeaf(tokens, symbols, a, Now(), e, el);
        return Ok, e, el;
      } else if Next().Id? {
        var name :- ParseIdentifier();
        ReadIs(tokens, a.pos, pos, [Id(name)]);
        if name !in symbols { return Panic(33), e, el; }
        if Next() == Tok(TC_OPEN) {
          r, e, el := ParseFnArguments(name, a);
        } else {
          r, e, el := WriteSymbol(name, a);
        }
      } else if Next() == Tok(TC_SIZEOF) {
        r, e, el := ParseSizeofExpr();
      } else if Next() == Tok(TC_NULL) {
        ReadOne(tokens, pos);
        Advance();
        :- PushValue(Value(FromNull, 0, U64));
        :- WriteCstInsn(0);
        e, el := TNull, Elaborated(Lit(0), Value(FromNull, 0, U64));
        DerivesNull(tokens, symbols, a.pos, pos);
        ParsedLeaf(tokens, symbols, a, Now(), e, el);
        return Ok, e, el;
      } else {
        r := ReadToken(TC_OPEN);
        if !r.Ok? { return; }
        ghost var b := Now();
        ghost var inner;
        r, inner, el := ParseExpr();
        if !r.Ok? { return; }
        ghost var c := Now();
        ParsedParts(tokens, symbols, 8, b, c, inner, el);
        r := ReadToken(TC_CLOSE);
        if !r.Ok? { return; }
        e := TParen(inner);
        ParsedParen(tokens, symbols, a, b, c, Now(), inner, el);
      }
    }

    /** `.` and the name of a field, after an expression that was parsed from a on. */
    method ParseField(ghost a: View, ghost e0: Tree, ghost el0: Elaborated)
        returns (r: Status, ghost e: Tree, ghost el: Elaborated)
      requires Ready() && Parsed(tokens, symbols, 1, a, Now(), e0, el0) && a.pos < pos && Next() == Tok(TC_DOT)
      modifies this`pos, this`values, this`dst, this`dstMark, this`nextRegister, this`frameSize, this`heads,
        this`insns, buf
      ensures r.Ok? ==> Ready() && Parsed(tokens, symbols, 1, a, Now(), e, el) && old(pos) < pos
    {
      hide Represented, VarsWithin, Parsed, Read, Derives, SizeOf, ElabType, PrintType, FieldOf, BinType, BinInsns,
        Adds, Coded, Marked, High;
      e, el := e0, el0;
      ghost var b := Now();
      ParsedParts(tokens, symbols, 1, a, b, e0, el0);
      ReadOne(tokens, pos);
      Advance();
      ghost var p := pos;
      var value;
      r, value := PopValue();
      if !r.Ok? { return; }
      SnocEq(a.values, el0.value, values, value);
      if value.ty.base == None || value.ty.dim != 1 { return Panic(48), e, el; }
      var field;
      r, field := ParseIdentifier();
      if !r.Ok? { return; }
      ReadIs(tokens, p, pos, [Id(field)]);
      ReadPair(tokens, b.pos, p, pos, Tok(TC_DOT), Id(field));
      var base := value.ty.base.value;
      if base !in symbols || !symbols[base].StructSymbol? || field !in symbols[base].fields { return Panic(33), e, el; }
      var sym := symbols[base].fields[field];
      r := PushValue(Value(FromAddress, sym.slot, sym.ty));
      if !r.Ok? { return; }
      r := WriteLoadInsn(sym.slot);
      if !r.Ok? { return; }
      FieldOfIs(symbols, value.ty, field);
      ParsedPath(tokens, symbols, a, b, Now(), e0, el0, field, sym);
      ParsedParts(tokens, symbols, 1, a, Now(), TPath(e0, field), Elaborated(Field(el0.core, sym.slot),
        Value(FromAddress, sym.slot, sym.ty)));
      e, el := TPath(e0, field), Elaborated(Field(el0.core, sym.slot), Value(FromAddress, sym.slot, sym.ty));
    }

    method ParsePathExpr() returns (r: Status, ghost e: Tree, ghost el: Elaborated)
      requires Ready()
      modifies this`pos, this`values, this`dst, this`dstMark, this`nextRegister, this`frameSize, this`heads,
        this`insns, buf
      ensures r.Ok? ==> Ready() && Parsed(tokens, symbols, 1, old(Now()), Now(), e, el)
      decreases |tokens| - pos, 1
    {
      hide Represented, VarsWithin, Parsed, Read, Derives, SizeOf, ElabType, PrintType, FieldOf, BinType, BinInsns,
        Adds, Coded, Marked, High;
      e, el := TNull, Elaborated(Lit(0), Plain(U64));
      ghost var a := Now();
      r, e, el := ParsePrimitiveExpr();
      if !r.Ok? { return; }
      ParsedLevel(tokens, symbols, 0, 1, a, Now(), e, el);
      ParsedParts(tokens, symbols, 1, a, Now(), e, el);
      while Next() == Tok(TC_DOT)
        invariant Ready() && Parsed(tokens, symbols, 1, a, Now(), e, el) && a.pos < pos
        decreases |tokens| - pos
      {
        r, e, el := ParseField(a, e, el);
        if !r.Ok? { return; }
      }
    }

    method ParsePointerExpr() returns (r: Status, ghost e: Tree, ghost el: Elaborated)
      requires Ready()
      modifies this`pos, this`values, this`dst, this`dstMark, this`nextRegister, this`frameSize, this`heads,
        this`insns, buf
      ensures r.Ok? ==> Ready() && Parsed(tokens, symbols, 2, old(Now()), Now(), e, el)
      decreases |tokens| - pos, 2
    {
      hide Represented, VarsWithin, Parsed, Read, Derives, SizeOf, ElabType, PrintType, FieldOf, BinType, BinInsns,
        Adds, Coded, Marked, High;
      e, el := TNull, Elaborated(Lit(0), Plain(U64));
      ghost var a := Now();
      if Next() == Tok(TC_MUL) {
        ReadOne(tokens, pos);
        Advance();
        ghost var b := Now();
        ghost var inner, innerEl;
        r, inner, innerEl := ParsePointerExpr();
        if !r.Ok? { return; }
        ghost var c := Now();
        ParsedParts(tokens, symbols, 2, b, c, inner, innerEl);
        var value;
        r, value := PopValue();
        if !r.Ok? { return; }
        SnocEq(a.values, innerEl.value, values, value);
        if value.ty.dim == 0 { return Panic(49), e, el; }
        r := PushValue(Value(FromAddress, 0, Type(value.ty.base, value.ty.dim - 1)));
        if !r.Ok? { return; }
        r := WriteLoadInsn(0);
        if !r.Ok? { return; }
        e, el := TDeref(inner), Dereferenced(innerEl);
        ParsedDeref(tokens, symbols, a, b, c, Now(), inner, innerEl);
      } else if Next() == Tok(TC_BIT_AND) {
        r, e, el := ParseAddressOf();
      } else {
        r, e, el := ParsePathExpr();
        if !r.Ok? { return; }
        ParsedLevel(tokens, symbols, 1, 2, a, Now(), e, el);
      }
    }

    /** The reference to a value, which was parsed from b to c and popped; a is before the &. */
    method TakeReference(value: Value, ghost a: View, ghost b: View, ghost c: View, ghost inner: Tree,
                         ghost innerEl: Elaborated)
        returns (r: Status, ghost e: Tree, ghost el: Elaborated)
      requires Ready() && Parsed(tokens, symbols, 1, b, c, inner, innerEl) && value == innerEl.value
        && Now() == c.(values := a.values)
      requires b == a.(pos := b.pos) && Read(tokens, a.pos, b.pos, [Tok(TC_BIT_AND)])
      modifies this`values, this`dst, this`dstMark, this`nextRegister, this`insns, buf
      ensures r.Ok? ==> Ready() && Parsed(tokens, symbols, 2, a, Now(), e, el)
    {
      hide EnvOf, Elab, GenExpr, Represented, VarsWithin, Parsed, Read, Derives, SizeOf, ElabType, PrintType, FieldOf,
        BinType, BinInsns, Adds, Coded, FieldAddrInsns, Marked, High;
      e, el := TNull, Elaborated(Lit(0), Plain(U64));
      ParsedParts(tokens, symbols, 1, b, c, inner, innerEl);
      ParsedOrigin(tokens, symbols, 1, b, c, inner, innerEl);
      if value.origin == FromAddress {
        MarkedFacts(c);
        EraseLastInsn();
        r := WriteAddressOfInsn(value.slot);
        if !r.Ok? { return; }
      } else if value.origin == FromVariable {
        MarkedFacts(c);
        EraseLastInsn();
        nextRegister := nextRegister - 1;
        DerivesSlot(tokens, symbols, 1, b.pos, c.pos, inner, innerEl, frameSize);
        r := WritePtrInsn(value.slot);
        if !r.Ok? { return; }
      } else {
        r := if value.origin == FromCall then CallAsLvalue else Panic(36);
        return;
      }
      r := PushValue(Plain(Type(value.ty.base, value.ty.dim + 1)));
      if !r.Ok? { return; }
      e, el := TRef(inner), ElabRef(innerEl).value;
      ParsedRef(tokens, symbols, a, b, c, Now(), inner, innerEl, el);
    }

    /** &e: the load of e is erased, and its address computed instead. */
    method ParseAddressOf() returns (r: Status, ghost e: Tree, ghost el: Elaborated)
      requires Ready() && Next() == Tok(TC_BIT_AND)
      modifies this`pos, this`values, this`dst, this`dstMark, this`nextRegister, this`frameSize, this`heads,
        this`insns, buf
      ensures r.Ok? ==> Ready() && Parsed(tokens, symbols, 2, old(Now()), Now(), e, el)
      decreases |tokens| - pos, 2, 0
    {
      hide Represented, VarsWithin, Parsed, Read, Derives, SizeOf, ElabType, PrintType, FieldOf, BinType, BinInsns,
        Adds, Coded, FieldAddrInsns, Marked, High;
      e, el := TNull, Elaborated(Lit(0), Plain(U64));
      ghost var a := Now();
      ReadOne(tokens, pos);
      Advance();
      ghost var b := Now();
      ghost var inner, innerEl;
      r, inner, innerEl := ParsePathExpr();
      if !r.Ok? { return; }
      ghost var c := Now();
      ParsedParts(tokens, symbols, 1, b, c, inner, innerEl);
      ParsedOrigin(tokens, symbols, 1, b, c, inner, innerEl);
      var value;
      r, value := PopValue();
      if !r.Ok? { return; }
      SnocEq(a.values, innerEl.value, values, value);
      r, e, el := TakeReference(value, a, b, c, inner, innerEl);
    }

    method ParseCastExpr() returns (r: Status, ghost e: Tree, ghost el: Elaborated)
      requires Ready()
      modifies this`pos, this`values, this`dst, this`dstMark, this`nextRegister, this`frameSize, this`heads,
        this`insns, buf
      ensures r.Ok? ==> Ready() && Parsed(tokens, symbols, 3, old(Now()), Now(), e, el)
      decreases |tokens| - pos, 3
    {
      hide Represented, VarsWithin, Parsed, Read, Derives, SizeOf, ElabType, PrintType, FieldOf, BinType, BinInsns,
        Adds, Coded, Marked, High;
      e, el := TNull, Elaborated(Lit(0), Plain(U64));
      ghost var a := Now();
      r, e, el := ParsePointerExpr();
      if !r.Ok? { return; }
      ghost var b := Now();
      if Next() != Tok(TC_AS) {
        ParsedLevel(tokens, symbols, 2, 3, a, b, e, el);
        return;
      }
      ParsedParts(tokens, symbols, 2, a, b, e, el);
      ReadOne(tokens, pos);
      Advance();
      ghost var p := pos;
      var value, ty;
      ghost var tree;
      r, value := PopValue();
      if !r.Ok? { return; }
      SnocEq(a.values, el.value, values, value);
      var origin := if value.origin == FromNull then FromOther else value.origin;
      r, ty, tree := ParseType();
      if !r.Ok? { return; }
      ReadIs(tokens, p, pos, PrintType(tree));
      r := PushValue(Value(origin, 0, ty));
      if !r.Ok? { return; }
      ParsedCast(tokens, symbols, a, b, p, Now(), e, el, tree, ty);
      e, el := TCast(e, tree), Cast(el, ty);
    }

    /** The checks and the instructions of an operator, once its operands are compiled. */
    method CheckAndWriteBinary(op: nat, ghost a: View, ghost b: View, ghost c: View,
                               ghost x: Tree, ghost xl: Elaborated, ghost y: Tree, ghost yl: Elaborated)
        returns (r: Status, ghost e: Tree, ghost el: Elaborated)
      requires Ready() && 0 < OpLevel(op) <= 8 && Parsed(tokens, symbols, LeftLevel(op), a, b, x, xl)
      requires Read(tokens, b.pos, c.pos, [Tok(op)]) && c == b.(pos := c.pos)
      requires Parsed(tokens, symbols, OpLevel(op) - 1, c, Now(), y, yl)
      modifies this`values, this`dst, this`nextRegister, this`insns, buf
      ensures r.Ok? ==> Ready() && Parsed(tokens, symbols, OpLevel(op), a, Now(), e, el)
    {
      hide Represented, VarsWithin, Parsed, Read, Derives, SizeOf, ElabType, PrintType, FieldOf, BinType, BinInsns,
        Adds, Coded, OpLevel, OpOf, Marked, High;
      e, el := TNull, Elaborated(Lit(0), Plain(U64));
      ghost var d := Now();
      ParsedParts(tokens, symbols, LeftLevel(op), a, b, x, xl);
      ParsedParts(tokens, symbols, OpLevel(op) - 1, c, d, y, yl);
      r := CheckBinary(op);
      if !r.Ok? { return; }
      r := WriteBinaryInsn(op);
      if !r.Ok? { return; }
      ghost var ty := BinType(op, xl.value.ty, yl.value.ty).value;
      e, el := TBin(op, x, y), Elaborated(Bin(OpOf(op), xl.core, yl.core), Plain(ty));
      ParsedBin(tokens, symbols, op, a, b, c, d, Now(), x, xl, y, yl, ty);
    }

    method ParseMultExpr() returns (r: Status, ghost e: Tree, ghost el: Elaborated)
      requires Ready()
      modifies this`pos, this`values, this`dst, this`dstMark, this`nextRegister, this`frameSize, this`heads,
        this`insns, buf
      ensures r.Ok? ==> Ready() && Parsed(tokens, symbols, 4, old(Now()), Now(), e, el)
      decreases |tokens| - pos, 4
    {
      hide Represented, VarsWithin, Parsed, Read, Derives, SizeOf, ElabType, PrintType, FieldOf, BinType, BinInsns,
        Adds, Coded, Marked, High;
      e, el := TNull, Elaborated(Lit(0), Plain(U64));
      ghost var a := Now();
      r, e, el := ParseCastExpr();
      if !r.Ok? { return; }
      ParsedParts(tokens, symbols, 3, a, Now(), e, el);
      ParsedLevel(tokens, symbols, 3, 4, a, Now(), e, el);
      while Next() == Tok(TC_MUL) || Next() == Tok(TC_DIV)
        invariant Ready() && Parsed(tokens, symbols, 4, a, Now(), e, el) && a.pos < pos
        decreases |tokens| - pos
      {
        var op := Next().code;
        ghost var b := Now();
        ReadOne(tokens, pos);
        Advance();
        ghost var c := Now();
        ghost var y, yl;
        r, y, yl := ParseCastExpr();
        if !r.Ok? { return; }
        ParsedParts(tokens, symbols, 3, c, Now(), y, yl);
        r, e, el := CheckAndWriteBinary(op, a, b, c, e, el, y, yl);
        if !r.Ok? { return; }
        ParsedParts(tokens, symbols, 4, a, Now(), e, el);
      }
    }

    method ParseAddExpr() returns (r: Status, ghost e: Tree, ghost el: Elaborated)
      requires Ready()
      modifies this`pos, this`values, this`dst, this`dstMark, this`nextRegister, this`frameSize, this`heads,
        this`insns, buf
      ensures r.Ok? ==> Ready() && Parsed(tokens, symbols, 5, old(Now()), Now(), e, el)
      decreases |tokens| - pos, 5
    {
      hide Represented, VarsWithin, Parsed, Read, Derives, SizeOf, ElabType, PrintType, FieldOf, BinType, BinInsns,
        Adds, Coded, Marked, High;
      e, el := TNull, Elaborated(Lit(0), Plain(U64));
      ghost var a := Now();
      r, e, el := ParseMultExpr();
      if !r.Ok? { return; }
      ParsedParts(tokens, symbols, 4, a, Now(), e, el);
      ParsedLevel(tokens, symbols, 4, 5, a, Now(), e, el);
      while Next() == Tok(TC_ADD) || Next() == Tok(TC_SUB)
        invariant Ready() && Parsed(tokens, symbols, 5, a, Now(), e, el) && a.pos < pos
        decreases |tokens| - pos
      {
        var op := Next().code;
        ghost var b := Now();
        ReadOne(tokens, pos);
        Advance();
        ghost var c := Now();
        ghost var y, yl;
        r, y, yl := ParseMultExpr();
        if !r.Ok? { return; }
        ParsedParts(tokens, symbols, 4, c, Now(), y, yl);
        r, e, el := CheckAndWriteBinary(op, a, b, c, e, el, y, yl);
        if !r.Ok? { return; }
        ParsedParts(tokens, symbols, 5, a, Now(), e, el);
      }
    }

    method ParseShiftExpr() returns (r: Status, ghost e: Tree, ghost el: Elaborated)
      requires Ready()
      modifies this`pos, this`values, this`dst, this`dstMark, this`nextRegister, this`frameSize, this`heads,
        this`insns, buf
      ensures r.Ok? ==> Ready() && Parsed(tokens, symbols, 6, old(Now()), Now(), e, el)
      decreases |tokens| - pos, 6
    {
      hide Represented, VarsWithin, Parsed, Read, Derives, SizeOf, ElabType, PrintType, FieldOf, BinType, BinInsns,
        Adds, Coded, Marked, High;
      e, el := TNull, Elaborated(Lit(0), Plain(U64));
      ghost var a := Now();
      r, e, el := ParseAddExpr();
      if !r.Ok? { return; }
      ParsedParts(tokens, symbols, 5, a, Now(), e, el);
      if Next() == Tok(TC_SHIFT_LEFT) || Next() == Tok(TC_SHIFT_RIGHT) {
        var op := Next().code;
        ghost var b := Now();
        ReadOne(tokens, pos);
        Advance();
        ghost var c := Now();
        ghost var y, yl;
        r, y, yl := ParseAddExpr();
        if !r.Ok? { return; }
        ParsedParts(tokens, symbols, 5, c, Now(), y, yl);
        r, e, el := CheckAndWriteBinary(op, a, b, c, e, el, y, yl);
        if !r.Ok? { return; }
      } else {
        ParsedLevel(tokens, symbols, 5, 6, a, Now(), e, el);
      }
    }

    method ParseBitAndExpr() returns (r: Status, ghost e: Tree, ghost el: Elaborated)
      requires Ready()
      modifies this`pos, this`values, this`dst, this`dstMark, this`nextRegister, this`frameSize, this`heads,
        this`insns, buf
      ensures r.Ok? ==> Ready() && Parsed(tokens, symbols, 7, old(Now()), Now(), e, el)
      decreases |tokens| - pos, 7
    {
      hide Represented, VarsWithin, Parsed, Read, Derives, SizeOf, ElabType, PrintType, FieldOf, BinType, BinInsns,
        Adds, Coded, Marked, High;
      e, el := TNull, Elaborated(Lit(0), Plain(U64));
      ghost var a := Now();
      r, e, el := ParseShiftExpr();
      if !r.Ok? { return; }
      ParsedParts(tokens, symbols, 6, a, Now(), e, el);
      ParsedLevel(tokens, symbols, 6, 7, a, Now(), e, el);
      while Next() == Tok(TC_BIT_AND)
        invariant Ready() && Parsed(tokens, symbols, 7, a, Now(), e, el) && a.pos < pos
        decreases |tokens| - pos
      {
        var op := Next().code;
        ghost var b := Now();
        ReadOne(tokens, pos);
        Advance();
        ghost var c := Now();
        ghost var y, yl;
        r, y, yl := ParseShiftExpr();
        if !r.Ok? { return; }
        ParsedParts(tokens, symbols, 6, c, Now(), y, yl);
        r, e, el := CheckAndWriteBinary(op, a, b, c, e, el, y, yl);
        if !r.Ok? { return; }
        ParsedParts(tokens, symbols, 7, a, Now(), e, el);
      }
    }

    method ParseExpr() returns (r: Status, ghost e: Tree, ghost el: Elaborated)
      requires Ready()
      modifies this`pos, this`values, this`dst, this`dstMark, this`nextRegister, this`frameSize, this`heads,
        this`insns, buf
      ensures r.Ok? ==> Ready() && Parsed(tokens, symbols, 8, old(Now()), Now(), e, el)
      decreases |tokens| - pos, 8
    {
      hide Represented, VarsWithin, Parsed, Read, Derives, SizeOf, ElabType, PrintType, FieldOf, BinType, BinInsns,
        Adds, Coded, Marked, High;
      e, el := TNull, Elaborated(Lit(0), Plain(U64));
      ghost var a := Now();
      r, e, el := ParseBitAndExpr();
      if !r.Ok? { return; }
      ParsedParts(tokens, symbols, 7, a, Now(), e, el);
      ParsedLevel(tokens, symbols, 7, 8, a, Now(), e, el);
      while Next() == Tok(TC_BIT_OR)
        invariant Ready() && Parsed(tokens, symbols, 8, a, Now(), e, el) && a.pos < pos
        decreases |tokens| - pos
      {
        var op := Next().code;
        ghost var b := Now();
        ReadOne(tokens, pos);
        Advance();
        ghost var c := Now();
        ghost var y, yl;
        r, y, yl := ParseBitAndExpr();
        if !r.Ok? { return; }
        ParsedParts(tokens, symbols, 7, c, Now(), y, yl);
        r, e, el := CheckAndWriteBinary(op, a, b, c, e, el, y, yl);
        if !r.Ok? { return; }
        ParsedParts(tokens, symbols, 8, a, Now(), e, el);
      }
    }

    // ----- conditions -----

    /** A label that no jump waits for. */
    ghost method NewLabel() returns (id: nat)
      requires Represented()
      modifies this`labels
      ensures Represented() && id == old(labels) && labels == id + 1
      ensures LastHole(insns, Local(id)) == None && FreeFrom(insns, id)
    {
      hide Matches, HeadsOk, SymbolsInside, LastHole, FreeFrom;
      FreshLabel(insns, buf.Length, labels);
      KeptIsFree(insns, buf.Length, labels);
      NothingKept(buf.Length, labels);
      KeptMore(insns, labels, [], labels + 1, buf.Length);
      assert insns + [] == insns;
      id := labels;
      labels := id + 1;
    }

    lemma DstIs()
      requires Represented()
      ensures dst == SizeOf(insns) && dst <= buf.Length
    {
      MatchesLength(Code(), insns);
    }

    method ParseComparisonExpr() returns (r: Status, rel: RelToken, ghost c: CompTree, ghost core: Comparison)
      requires Ready() && nextRegister == 0
      modifies this`pos, this`values, this`dst, this`dstMark, this`nextRegister, this`frameSize, this`heads,
        this`insns, buf
      ensures r.Ok? ==> Ready() && CompParsed(tokens, symbols, old(Now()), Now(), c, core) && rel == core.rel
      ensures r.Ok? ==> old(pos) < pos && nextRegister == 2
    {
      hide Derives, Adds, Coded, EnvOf, Elab, GenExpr, Represented, VarsWithin, Parsed, Read, Comparable, CompParsed;
      rel, c, core := 12, CompTree(12, TNull, TNull), Comparison(12, Lit(0), Lit(0));
      ghost var a := Now();
      ghost var x, xl;
      r, x, xl := ParseExpr();
      if !r.Ok? { return; }
      ghost var b := Now();
      ParsedParts(tokens, symbols, 8, a, b, x, xl);
      if !Next().Tok? || Next().code < TC_LT || Next().code > TC_GE { return Panic(25), rel, c, core; }
      rel := Next().code;
      ReadOne(tokens, pos);
      Advance();
      ghost var d := Now();
      ghost var y, yl;
      r, y, yl := ParseExpr();
      if !r.Ok? { return; }
      ghost var f := Now();
      ParsedParts(tokens, symbols, 8, d, f, y, yl);
      TwoLast(a.values, xl.value, yl.value);
      r := CheckComparison();
      if !r.Ok? { return; }
      c, core := CompTree(rel, x, y), Comparison(rel, xl.core, yl.core);
      CompIntro(tokens, symbols, a, b, d, f, Now(), rel, x, xl, y, yl);
    }

    /** Comparisons joined by &&: each but the last jumps to the else label when false; the token of the last one is
        returned, its jump is not written. */
    method ParseAndExpr(elseHead: Option<nat>, ghost elseL: nat)
        returns (r: Status, rel: RelToken, newElse: Option<nat>, ghost cs: List<CompTree>, ghost core: List<Comparison>)
      requires Ready() && nextRegister == 0 && elseHead == LastHole(insns, Local(elseL)) && elseL < labels
      modifies this`pos, this`values, this`dst, this`dstMark, this`nextRegister, this`frameSize, this`heads,
        this`insns, buf
      ensures r.Ok? ==> Ready() && AndParsed(tokens, symbols, old(Now()), Now(), cs, core, elseL)
      ensures r.Ok? ==> core.Cons? && rel == LastRel(core) && newElse == LastHole(insns, Local(elseL))
    {
      hide Represented, VarsWithin, Read, CompParsed, AndParsed, LastHole, JumpInsns, Negate, LastRel;
      newElse, cs, core := elseHead, List.Nil, List.Nil;
      ghost var a := Now();
      ghost var c, x;
      r, rel, c, x := ParseComparisonExpr();
      if !r.Ok? { return; }
      AndFirst(tokens, symbols, a, Now(), c, x, elseL);
      CompHoles(tokens, symbols, a, Now(), c, x, elseL);
      cs, core := List.Cons(c, List.Nil), List.Cons(x, List.Nil);
      LastRelOne(x);
      while Next() == Tok(TC_AND)
        invariant Ready() && AndParsed(tokens, symbols, a, Now(), cs, core, elseL)
        invariant core.Cons? && rel == LastRel(core) && newElse == LastHole(insns, Local(elseL))
        decreases |tokens| - pos
      {
        ghost var b := Now();
        AndFacts(tokens, symbols, a, b, cs, core, elseL);
        ReadOne(tokens, pos);
        Advance();
        NegateIs(rel);
        r, newElse := WriteJumpInsn(TC_LT + TC_GE - rel, newElse, elseL);
        if !r.Ok? { return; }
        ghost var d := Now();
        r, rel, c, x := ParseComparisonExpr();
        if !r.Ok? { return; }
        CompHoles(tokens, symbols, d, Now(), c, x, elseL);
        AndNext(tokens, symbols, a, b, d, Now(), cs, core, c, x, elseL);
        AndBodySnoc(EnvOf(symbols), core, x, 0, At(0));
        cs, core := Snoc(cs, c), Snoc(core, x);
      }
    }

    /** A condition: control goes to the then label, or past its end, when it is true, and to the else label, which
        is returned, when it is false. */
    method ParseBooleanExpr(thenHead: Option<nat>, ghost thenL: nat)
        returns (r: Status, newThen: Option<nat>, elseHead: Option<nat>, ghost elseL: nat, ghost c: BoolTree,
          ghost core: BoolExpr)
      requires Ready() && nextRegister == 0 && thenHead == LastHole(insns, Local(thenL)) && thenL < labels
      modifies this`pos, this`values, this`dst, this`dstMark, this`nextRegister, this`frameSize, this`heads,
        this`insns, this`labels, buf
      ensures r.Ok? ==> Ready() && BoolParsed(tokens, symbols, old(Now()), Now(), c, core, thenL, elseL)
      ensures r.Ok? ==> old(labels) <= elseL < labels && nextRegister == 0 && old(pos) < pos
      ensures r.Ok? ==> newThen == LastHole(insns, Local(thenL)) && elseHead == LastHole(insns, Local(elseL))
    {
      hide Derives, Adds, Coded, EnvOf, Elab, GenExpr, Represented, VarsWithin, Read, AndParsed, LastHole, JumpInsns,
        Negate, LastRel, BoolParsed, DoneParsed, FreeFrom, Free, Subst, SizeOf;
      newThen, c, core := thenHead, List.Nil, List.Nil;
      ghost var a := Now();
      ghost var done, doneCore := List.Nil, List.Nil;
      NothingDone(tokens, symbols, a, thenL);
      elseHead := None;
      elseL := NewLabel();
      ghost var b := Now();
      FreeFromAt(b.code, elseL, elseL);
      var rel;
      ghost var cs, ands;
      r, rel, elseHead, cs, ands := ParseAndExpr(elseHead, elseL);
      if !r.Ok? { return; }
      AndHoles(tokens, symbols, b, Now(), cs, ands, elseL, thenL);
      AndFacts(tokens, symbols, b, Now(), cs, ands, elseL);
      while Next() == Tok(TC_OR)
        invariant Ready() && DoneParsed(tokens, symbols, a, b, done, doneCore, thenL)
        invariant AndParsed(tokens, symbols, b, Now(), cs, ands, elseL) && Free(b.code, Local(elseL))
        invariant old(labels) <= elseL < labels && thenL < old(labels) && old(pos) < pos
        invariant ands.Cons? && rel == LastRel(ands)
        invariant newThen == LastHole(insns, Local(thenL)) && elseHead == LastHole(insns, Local(elseL))
        decreases |tokens| - pos
      {
        ghost var d := Now();
        AndFacts(tokens, symbols, b, d, cs, ands, elseL);
        ReadOne(tokens, pos);
        Advance();
        r, newThen := WriteJumpInsn(rel, newThen, thenL);
        if !r.Ok? { return; }
        ghost var jumped := insns;
        DstIs();
        JumpHoles(d.code, rel, thenL, elseL);
        FillLabel(elseHead, dst, elseL);
        SubstOther(jumped, Local(elseL), SizeOf(jumped), Local(thenL));
        ghost var f := Now();
        DoneNext(tokens, symbols, a, b, d, f, done, doneCore, cs, ands, thenL, elseL, jumped);
        done, doneCore := Snoc(done, cs), Snoc(doneCore, ands);
        b := f;
        elseHead := None;
        elseL := NewLabel();
        FreeFromAt(b.code, elseL, elseL);
        r, rel, elseHead, cs, ands := ParseAndExpr(elseHead, elseL);
        if !r.Ok? { return; }
        AndHoles(tokens, symbols, b, Now(), cs, ands, elseL, thenL);
        AndFacts(tokens, symbols, b, Now(), cs, ands, elseL);
      }
      ghost var d := Now();
      NegateIs(rel);
      AndFacts(tokens, symbols, b, d, cs, ands, elseL);
      r, elseHead := WriteJumpInsn(TC_LT + TC_GE - rel, elseHead, elseL);
      if !r.Ok? { return; }
      JumpHoles(d.code, Negate(rel), elseL, thenL);
      BoolIntro(tokens, symbols, a, b, d, Now(), done, doneCore, cs, ands, thenL, elseL);
      c, core := Snoc(done, cs), Snoc(doneCore, ands);
    }

    // ----- statements: a label brk other than 0 is the end of the enclosing loop -----

    lemma EmittedFree()
      requires Represented()
      ensures FreeFrom(insns, labels)
    {
      hide Matches, HeadsOk, SymbolsInside, FreeFrom;
      KeptIsFree(insns, buf.Length, labels);
    }

    /** A condition, and the start of what is executed when it is true. */
    method ParseCondition(ghost brk: nat)
        returns (r: Status, elseHead: Option<nat>, ghost elseL: nat, ghost c: BoolTree, ghost core: BoolExpr)
      requires Ready() && nextRegister == 0 && brk < labels
      modifies this`pos, this`values, this`dst, this`dstMark, this`nextRegister, this`frameSize, this`heads,
        this`insns, this`labels, buf
      ensures r.Ok? ==>
        Ready() && nextRegister == 0 && values == old(values) && frameSize == old(frameSize) && old(pos) < pos
      ensures r.Ok? ==>
        old(labels) <= elseL < labels && BoolDerives(tokens, symbols, old(pos), pos, c, core) && OrFits(core)
      ensures r.Ok? ==>
        elseHead == LastHole(insns, Local(elseL)) && LastHole(insns, Local(brk)) == old(LastHole(insns, Local(brk)))
      ensures r.Ok? ==> SizeOf(insns) == SizeOf(old(insns)) + OrSize(core, frameSize)
      ensures r.Ok? ==>
        insns == old(insns) + GenOr(EnvOf(symbols), core, SizeOf(old(insns)), frameSize, At(SizeOf(insns)),
          Ref(Local(elseL)))
    {
      hide Represented, VarsWithin, Read, Derives, StmtDerives, StmtCoded, BlockDerives, BlockCoded, StmtsDerive,
        BoolDerives, BoolParsed, LastHole, GenOr, GenBlock, GenStmt, EnvOf, SizeOf, OrSize, BlockSize, OrFits,
          BlockFits, Breaks, BlockReachable, Reachable,
        Free, FreeFrom, Subst, AllKnown, Over, Parsed, ReturnInsns, HasType, ElabAssign, High, Size, IsIf;
      elseHead, elseL, c, core := None, 0, List.Nil, List.Nil;
      ghost var a, env := Now(), EnvOf(symbols);
      EnvOfKnown(symbols);
      ghost var thenL := NewLabel();
      FreeFromAt(insns, thenL, thenL);
      var thenHead := None;
      r, thenHead, elseHead, elseL, c, core := ParseBooleanExpr(thenHead, thenL);
      if !r.Ok? { return; }
      ghost var code := insns;
      BoolParts(tokens, symbols, a, Now(), c, core, thenL, elseL);
      OrHoles(env, a.code, core, SizeOf(a.code), a.frame, Ref(Local(thenL)), Ref(Local(elseL)), brk);
      ThenCode(env, a.code, core, a.frame, thenL, elseL);
      DstIs();
      FillLabel(thenHead, dst, thenL);
      SubstOther(code, Local(thenL), SizeOf(code), Local(elseL));
      SubstOther(code, Local(thenL), SizeOf(code), Local(brk));
    }

    method ParseBlockStmt(inLoop: bool, breakHead: Option<nat>, ghost brk: nat)
        returns (r: Status, reachable: bool, newHead: Option<nat>, ghost ss: List<StmtTree>, ghost sts: List<Stmt>)
      requires Ready() && nextRegister == 0 && brk < labels && (inLoop <==> brk != 0)
      requires inLoop ==> breakHead == LastHole(insns, Local(brk))
      modifies this`pos, this`values, this`dst, this`dstMark, this`nextRegister, this`frameSize, this`heads,
        this`insns, this`labels, buf
      ensures r.Ok? ==>
        Ready() && old(labels) <= labels && BlockDerives(tokens, symbols, returnType, old(pos), pos, ss, sts)
      ensures r.Ok? ==> BlockCoded(symbols, old(Now()), Now(), sts, brk) && old(pos) < pos && nextRegister == 0
      ensures r.Ok? ==> reachable == BlockReachable(sts) && (inLoop ==> newHead == LastHole(insns, Local(brk)))
      decreases |tokens| - pos, 10
    {
      hide Represented, VarsWithin, Read, Derives, StmtDerives, StmtCoded, BlockDerives, BlockCoded, StmtsDerive,
        BoolDerives, BoolParsed, LastHole, GenOr, GenBlock, GenStmt, EnvOf, SizeOf, OrSize, BlockSize, OrFits,
          BlockFits, Breaks, BlockReachable, Reachable,
        Free, FreeFrom, Subst, AllKnown, Over, Parsed, ReturnInsns, HasType, ElabAssign, High, Size, IsIf;
      reachable, newHead, ss, sts := true, breakHead, List.Nil, List.Nil;
      ghost var a := Now();
      r := ReadToken(TC_OPEN_BLOCK);
      if !r.Ok? { return; }
      ghost var b := Now();
      NoStmts(tokens, symbols, returnType, b, brk);
      BlockReachableNil();
      while Next() != Tok(TC_CLOSE_BLOCK)
        invariant Ready() && old(labels) <= labels && a.pos < pos && nextRegister == 0
        invariant StmtsDerive(tokens, symbols, returnType, b.pos, pos, ss, sts)
          && BlockCoded(symbols, b, Now(), sts, brk)
        invariant reachable == BlockReachable(sts) && (inLoop ==> newHead == LastHole(insns, Local(brk)))
        decreases |tokens| - pos
      {
        ghost var c := Now();
        if !reachable { return Panic(37), reachable, newHead, ss, sts; }
        ghost var s, st;
        r, reachable, newHead, s, st := ParseStmt(inLoop, newHead, brk);
        if !r.Ok? { return; }
        StmtsDeriveSnoc(tokens, symbols, returnType, b.pos, c.pos, pos, ss, sts, s, st);
        BlockCodedSnoc(symbols, b, c, Now(), sts, st, brk);
        BlockSnocFacts(sts, st);
        ss, sts := Snoc(ss, s), Snoc(sts, st);
      }
      ghost var c := Now();
      ReadOne(tokens, pos);
      Advance();
      DerivesBlock(tokens, symbols, returnType, a.pos, b.pos, c.pos, pos, ss, sts);
      BlockCodedFrom(symbols, b, a, c, Now(), sts, brk);
    }

    /** tc_erase_load_insn or tc_erase_get_insn, for the left side of an assignment. */
    method EraseLvalue(ghost a: View, ghost x: Tree, ghost xl: Elaborated)
        returns (r: Status, origin: Origin, slot: nat)
      requires Ready() && Parsed(tokens, symbols, 8, a, Now(), x, xl)
      modifies this`dst, this`insns, this`nextRegister
      ensures r.Ok? ==> Ready() && origin == xl.value.origin && slot == xl.value.slot && IsLvalue(xl)
      ensures r.Ok? ==> old(insns) != [] && insns == old(insns)[..|old(insns)| - 1]
      ensures r.Ok? ==>
        nextRegister == a.reg + (if origin == FromAddress then 1 else 0)
        && (origin == FromVariable ==> slot <= frameSize)
    {
      hide Represented, VarsWithin, Read, Derives, StmtDerives, StmtCoded, BlockDerives, BlockCoded, StmtsDerive,
        BoolDerives, BoolParsed, LastHole, GenOr, GenBlock, GenStmt, EnvOf, SizeOf, OrSize, BlockSize, OrFits,
          BlockFits, Breaks, BlockReachable, Reachable,
        Free, FreeFrom, Subst, AllKnown, Over, Parsed, ReturnInsns, HasType, Comparable, Marked, ElabAssign, High,
          Size, IsIf;
      ghost var b := Now();
      ParsedParts(tokens, symbols, 8, a, b, x, xl);
      ParsedOrigin(tokens, symbols, 8, a, b, x, xl);
      var value := values[|values| - 1];
      origin, slot := value.origin, value.slot;
      if origin == FromAddress {
        MarkedFacts(b);
        EraseLastInsn();
        r := Ok;
      } else if origin == FromVariable {
        MarkedFacts(b);
        EraseLastInsn();
        nextRegister := nextRegister - 1;
        DerivesSlot(tokens, symbols, 8, a.pos, b.pos, x, xl, frameSize);
        r := Ok;
      } else {
        r := if origin == FromCall then CallAsLvalue else Panic(38);
      }
    }

    /** The load of the left side is erased; after the right side comes a store. */
    method ParseAssignment(ghost a: View, ghost x: Tree, ghost xl: Elaborated, ghost brk: nat)
        returns (r: Status, ghost p: nat, ghost y: Tree, ghost yl: Elaborated, ghost st: Stmt)
      requires Ready() && Parsed(tokens, symbols, 8, a, Now(), x, xl) && a.reg == 0
      modifies this`pos, this`values, this`dst, this`dstMark, this`nextRegister, this`frameSize, this`heads,
        this`insns, buf
      ensures r.Ok? ==>
        Ready() && nextRegister == 0 && old(pos) < p < pos && Read(tokens, old(pos), p, [Tok(TC_ASSIGN)])
      ensures r.Ok? ==> Derives(tokens, symbols, 8, p, pos, y, yl) && ElabAssign(xl, yl) == Some(st)
      ensures r.Ok? ==> StmtCoded(symbols, a, Now(), st, brk)
    {
      hide Represented, VarsWithin, Read, Derives, StmtDerives, StmtCoded, BlockDerives, BlockCoded, StmtsDerive,
        BoolDerives, BoolParsed, LastHole, GenOr, GenBlock, GenStmt, EnvOf, SizeOf, OrSize, BlockSize, OrFits,
          BlockFits, Breaks, BlockReachable, Reachable,
        Free, FreeFrom, Subst, AllKnown, Over, Parsed, ReturnInsns, HasType, Comparable, Marked, ElabAssign, High,
          Size, IsIf;
      p, y, yl, st := 0, TNull, xl, Return;
      ghost var b := Now();
      ParsedParts(tokens, symbols, 8, a, b, x, xl);
      var origin, slot;
      r, origin, slot := EraseLvalue(a, x, xl);
      if !r.Ok? { return; }
      r := ReadToken(TC_ASSIGN);
      if !r.Ok? { return; }
      p := pos;
      ghost var c := Now();
      r, y, yl := ParseExpr();
      if !r.Ok? { return; }
      ghost var d := Now();
      ParsedParts(tokens, symbols, 8, c, d, y, yl);
      TwoLast(a.values, xl.value, yl.value);
      r := CheckComparison();
      if !r.Ok? { return; }
      AssignIs(xl, yl);
      st := ElabAssign(xl, yl).value;
      if origin == FromAddress {
        r := WriteStoreInsn(slot);
        if !r.Ok? { return; }
      } else {
        r := WriteSetInsn(slot);
        if !r.Ok? { return; }
      }
      AssignCoded(tokens, symbols, a, b, c, d, Now(), x, xl, y, yl, st, brk);
    }

    method ParseExprOrAssignStmt(ghost brk: nat) returns (r: Status, ghost s: StmtTree, ghost st: Stmt)
      requires Ready() && nextRegister == 0
      modifies this`pos, this`values, this`dst, this`dstMark, this`nextRegister, this`frameSize, this`heads,
        this`insns, buf
      ensures r.Ok? ==>
        Ready() && StmtDerives(tokens, symbols, returnType, old(pos), pos, s, st) && Reachable(st) && !StmtBreaks(st)
      ensures r.Ok? ==> StmtCoded(symbols, old(Now()), Now(), st, brk) && old(pos) < pos && nextRegister == 0
    {
      hide Adds, Coded, Elab, GenExpr, Represented, VarsWithin, Read, Derives, StmtDerives, StmtCoded, BlockDerives,
        BlockCoded, StmtsDerive, BoolDerives, BoolParsed, LastHole, GenOr, GenBlock, GenStmt, EnvOf, SizeOf, OrSize,
          BlockSize, OrFits, BlockFits, Breaks, BlockReachable,
        Free, FreeFrom, Subst, AllKnown, Over, Parsed, ReturnInsns, HasType, ElabAssign, High, Size, IsIf;
      s, st := TBreak, Break;
      ghost var a := Now();
      ghost var x, xl;
      r, x, xl := ParseExpr();
      if !r.Ok? { return; }
      ghost var b := Now();
      ParsedParts(tokens, symbols, 8, a, b, x, xl);
      if Next() == Tok(TC_ASSIGN) {
        ghost var p, y, yl;
        r, p, y, yl, st := ParseAssignment(a, x, xl, brk);
        if !r.Ok? { return; }
        ghost var c := Now();
        r := ReadToken(TC_SEMICOLON);
        if !r.Ok? { return; }
        s := TAssign(x, y);
        DerivesAssign(tokens, symbols, returnType, a.pos, b.pos, p, c.pos, pos, x, xl, y, yl, st);
        AssignUnfold(xl, yl, st);
        StmtCodedTo(symbols, a, c, Now(), st, brk);
      } else {
        var value := PopValueOrVoid();
        SnocEq(a.values, xl.value, values, value);
        if value.origin != FromVoid { nextRegister := 0; }
        r := ReadToken(TC_SEMICOLON);
        if !r.Ok? { return; }
        s, st := TEval(x), Eval(xl.core);
        DerivesEval(tokens, symbols, returnType, a.pos, b.pos, pos, x, xl);
        EvalCoded(tokens, symbols, a, b, Now(), x, xl, brk);
      }
    }

    /** What follows `return`, if it is not a semicolon; a is before it. */
    method ParseReturnValue(ghost a: View, ghost brk: nat) returns (r: Status, ghost s: StmtTree, ghost st: Stmt)
      requires Ready() && nextRegister == 0 && Now() == a.(pos := pos) && a.pos < pos
        && Read(tokens, a.pos, pos, [Tok(TC_RETURN)])
      modifies this`pos, this`values, this`dst, this`dstMark, this`nextRegister, this`frameSize, this`heads,
        this`insns, buf
      ensures r.Ok? ==>
        Ready() && StmtDerives(tokens, symbols, returnType, a.pos, pos, s, st) && !Reachable(st) && !StmtBreaks(st)
      ensures r.Ok? ==> StmtCoded(symbols, a, Now(), st, brk) && a.pos < pos && nextRegister == 0
    {
      hide Represented, VarsWithin, Read, Derives, StmtDerives, StmtCoded, LastHole, EnvOf, SizeOf, Free, FreeFrom,
        Subst, Parsed, ReturnInsns, HasType, High, Size;
      s, st := TBreak, Break;
      ghost var b := Now();
      if returnType == None { return Panic(56), s, st; }
      ghost var e, el;
      r, e, el := ParseExpr();
      if !r.Ok? { return; }
      ghost var c := Now();
      ParsedParts(tokens, symbols, 8, b, c, e, el);
      var value;
      r, value := PopValue();
      if !r.Ok? { return; }
      SnocEq(a.values, el.value, values, value);
      if !HasType(value, returnType.value) { return Panic(43), s, st; }
      r := ReadToken(TC_SEMICOLON);
      if !r.Ok? { return; }
      r := WriteReturnInsn();
      if !r.Ok? { return; }
      s, st := TReturnValue(e), ReturnValue(el.core);
      DerivesReturnValue(tokens, symbols, returnType, a.pos, b.pos, c.pos, pos, e, el);
      ReturnValueCoded(tokens, symbols, b, c, Now(), e, el, brk);
      StmtCodedFrom(symbols, b, a, Now(), st, brk);
    }

    method ParseReturnStmt(ghost brk: nat) returns (r: Status, ghost s: StmtTree, ghost st: Stmt)
      requires Ready() && nextRegister == 0
      modifies this`pos, this`values, this`dst, this`dstMark, this`nextRegister, this`frameSize, this`heads,
        this`insns, buf
      ensures r.Ok? ==>
        Ready() && StmtDerives(tokens, symbols, returnType, old(pos), pos, s, st) && !Reachable(st) && !StmtBreaks(st)
      ensures r.Ok? ==> StmtCoded(symbols, old(Now()), Now(), st, brk) && old(pos) < pos && nextRegister == 0
    {
      hide Represented, VarsWithin, Read, Derives, StmtDerives, StmtCoded, BlockDerives, BlockCoded, StmtsDerive,
        BoolDerives, BoolParsed, LastHole, GenOr, GenBlock, GenStmt, EnvOf, SizeOf, OrSize, BlockSize, OrFits,
          BlockFits, Breaks, BlockReachable,
        Free, FreeFrom, Subst, AllKnown, Over, Parsed, ReturnInsns, HasType, ElabAssign, High, Size, IsIf;
      s, st := TBreak, Break;
      ghost var a := Now();
      r := ReadToken(TC_RETURN);
      if !r.Ok? { return; }
      ghost var b := Now();
      if Next() == Tok(TC_SEMICOLON) {
        if returnType != None { return Panic(55), s, st; }
        r := ReadToken(TC_SEMICOLON);
        if !r.Ok? { return; }
        r := WriteReturnInsn();
        if !r.Ok? { return; }
        s, st := TReturn, Return;
        ReadPair(tokens, a.pos, b.pos, pos, Tok(TC_RETURN), Tok(TC_SEMICOLON));
        DerivesReturn(tokens, symbols, a.pos, pos);
        ReturnCoded(symbols, a, Now(), brk);
      } else {
        r, s, st := ParseReturnValue(a, brk);
      }
    }

    method ParseBreakStmt(breakHead: Option<nat>, ghost brk: nat)
        returns (r: Status, newHead: Option<nat>, ghost s: StmtTree, ghost st: Stmt)
      requires Ready() && nextRegister == 0 && 0 < brk < labels && breakHead == LastHole(insns, Local(brk))
      modifies this`pos, this`values, this`dst, this`dstMark, this`nextRegister, this`frameSize, this`heads,
        this`insns, buf
      ensures r.Ok? ==> Ready() && StmtDerives(tokens, symbols, returnType, old(pos), pos, s, st) && !Reachable(st)
      ensures r.Ok? ==> StmtCoded(symbols, old(Now()), Now(), st, brk) && old(pos) < pos && nextRegister == 0
      ensures r.Ok? ==> newHead == LastHole(insns, Local(brk))
    {
      hide Represented, VarsWithin, Read, Derives, StmtDerives, StmtCoded, BlockDerives, BlockCoded, StmtsDerive,
        BoolDerives, BoolParsed, LastHole, GenOr, GenBlock, GenStmt, EnvOf, SizeOf, OrSize, BlockSize, OrFits,
          BlockFits, Breaks, BlockReachable,
        Free, FreeFrom, Subst, AllKnown, Over, Parsed, ReturnInsns, HasType, ElabAssign, High, Size, IsIf;
      newHead, s, st := breakHead, TBreak, Break;
      ghost var a := Now();
      r := ReadToken(TC_BREAK);
      if !r.Ok? { return; }
      ghost var b := Now();
      r := ReadToken(TC_SEMICOLON);
      if !r.Ok? { return; }
      r, newHead := WriteGotoInsn(breakHead, brk);
      if !r.Ok? { return; }
      ReadPair(tokens, a.pos, b.pos, pos, Tok(TC_BREAK), Tok(TC_SEMICOLON));
      DerivesBreak(tokens, symbols, returnType, a.pos, pos);
      BreakCoded(symbols, a, Now(), brk);
    }

    /** The body of a loop, whose end is the label endL, and the jump back. */
    method ParseLoopBody(loopDst: nat, endHead: Option<nat>, ghost endL: nat, ghost brk: nat)
        returns (r: Status, newEnd: Option<nat>, ghost ss: List<StmtTree>, ghost sts: List<Stmt>)
      requires Ready() && nextRegister == 0 && 0 < endL < labels && endHead == LastHole(insns, Local(endL))
      requires loopDst <= SizeOf(insns) && brk != endL
      modifies this`pos, this`values, this`dst, this`dstMark, this`nextRegister, this`frameSize, this`heads,
        this`insns, this`labels, buf
      ensures r.Ok? ==>
        Ready() && nextRegister == 0 && values == old(values) && frameSize == old(frameSize) && old(pos) < pos
      ensures r.Ok? ==>
        old(labels) <= labels && BlockDerives(tokens, symbols, returnType, old(pos), pos, ss, sts) && BlockFits(sts)
      ensures r.Ok? ==>
        newEnd == LastHole(old(insns) + GenBlock(EnvOf(symbols), sts, SizeOf(old(insns)), frameSize,
          Ref(Local(endL))), Local(endL))
      ensures r.Ok? ==>
        var code := old(insns) + GenBlock(EnvOf(symbols), sts, SizeOf(old(insns)), frameSize, Ref(Local(endL)))
          + [Jmp(At(loopDst))];
        insns == Subst(code, Local(endL), At(SizeOf(code)))
      ensures r.Ok? ==> LastHole(insns, Local(brk)) == old(LastHole(insns, Local(brk)))
      decreases |tokens| - pos, 11
    {
      hide Represented, VarsWithin, Read, Derives, StmtDerives, StmtCoded, BlockDerives, BlockCoded, StmtsDerive,
        BoolDerives, BoolParsed, LastHole, GenOr, GenBlock, GenStmt, EnvOf, SizeOf, OrSize, BlockSize, OrFits,
          BlockFits, Breaks, BlockReachable, Reachable,
        Free, FreeFrom, Subst, AllKnown, Over, Parsed, ReturnInsns, HasType, ElabAssign, High, Size, IsIf;
      ghost var a := Now();
      var reachable;
      r, reachable, newEnd, ss, sts := ParseBlockStmt(true, endHead, endL);
      if !r.Ok? { return; }
      ghost var b := Now();
      BlockFacts(tokens, symbols, returnType, a, b, ss, sts, endL);
      BlockHoles(symbols, a, b, sts, endL, brk);
      SizeOfConcat(a.code, GenBlock(EnvOf(symbols), sts, SizeOf(a.code), a.frame, Ref(Local(endL))));
      DstIs();
      r := WriteLoopInsn(loopDst);
      if !r.Ok? { return; }
      ghost var code := insns;
      KnownJumpHoles(b.code, loopDst, endL);
      KnownJumpHoles(b.code, loopDst, brk);
      DstIs();
      FillLabel(newEnd, dst, endL);
      SubstOther(code, Local(endL), SizeOf(code), Local(brk));
    }

    method ParseWhileOrLoopStmt(inLoop: bool, breakHead: Option<nat>, ghost brk: nat)
        returns (r: Status, reachable: bool, newHead: Option<nat>, ghost s: StmtTree, ghost st: Stmt)
      requires Ready() && nextRegister == 0 && brk < labels && (inLoop <==> brk != 0)
      requires inLoop ==> breakHead == LastHole(insns, Local(brk))
      requires Next() == Tok(TC_WHILE) || Next() == Tok(TC_LOOP)
      modifies this`pos, this`values, this`dst, this`dstMark, this`nextRegister, this`frameSize, this`heads,
        this`insns, this`labels, buf
      ensures r.Ok? ==>
        Ready() && old(labels) <= labels && StmtDerives(tokens, symbols, returnType, old(pos), pos, s, st)
      ensures r.Ok? ==> StmtCoded(symbols, old(Now()), Now(), st, brk) && old(pos) < pos && nextRegister == 0
      ensures r.Ok? ==> reachable == Reachable(st) && (inLoop ==> newHead == LastHole(insns, Local(brk)))
      decreases |tokens| - pos, 9
    {
      hide Represented, VarsWithin, Read, Derives, StmtDerives, StmtCoded, BlockDerives, BlockCoded, StmtsDerive,
        BoolDerives, BoolParsed, LastHole, GenOr, GenBlock, GenStmt, EnvOf, SizeOf, OrSize, BlockSize, OrFits,
          BlockFits, Breaks, BlockReachable, Reachable,
        Free, FreeFrom, Subst, AllKnown, Over, Parsed, ReturnInsns, HasType, ElabAssign, High, Size, IsIf;
      reachable, newHead, s, st := true, breakHead, TBreak, Break;
      ghost var a, env := Now(), EnvOf(symbols);
      EnvOfKnown(symbols);
      EmittedFree();
      DstIs();
      var loopDst := dst;
      var endHead := None;
      var token := Next();
      ReadOne(tokens, pos);
      Advance();
      ghost var p := pos;
      if token == Tok(TC_WHILE) {
        ghost var endL, c, core, ss, sts;
        r, endHead, endL, c, core := ParseCondition(brk);
        if !r.Ok? { return; }
        ghost var q := pos;
        FreeFromAt(a.code, old(labels), endL);
        r, endHead, ss, sts := ParseLoopBody(loopDst, endHead, endL, brk);
        if !r.Ok? { return; }
        WhileCode(env, a.code, core, a.frame, sts, endL);
        s, st := TWhile(c, ss), While(core, sts);
        DerivesWhile(tokens, symbols, returnType, a.pos, p, q, pos, c, core, ss, sts);
        WhileCoded(symbols, a, Now(), core, sts, brk);
      } else {
        ghost var endL := NewLabel();
        FreeFromAt(a.code, old(labels), endL);
        ghost var ss, sts;
        r, endHead, ss, sts := ParseLoopBody(loopDst, endHead, endL, brk);
        if !r.Ok? { return; }
        LoopCode(env, a.code, a.frame, sts, endL);
        LoopReachable(env, a.code, SizeOf(a.code), a.frame, sts, endL);
        s, st := TLoop(ss), Loop(sts);
        reachable := endHead != None;
        DerivesLoop(tokens, symbols, returnType, a.pos, p, pos, ss, sts);
        LoopCoded(symbols, a, Now(), sts, brk);
      }
    }

    method ParseIfStmt(inLoop: bool, breakHead: Option<nat>, ghost brk: nat)
        returns (r: Status, reachable: bool, newHead: Option<nat>, ghost s: StmtTree, ghost st: Stmt)
      requires Ready() && nextRegister == 0 && brk < labels && (inLoop <==> brk != 0)
      requires inLoop ==> breakHead == LastHole(insns, Local(brk))
      modifies this`pos, this`values, this`dst, this`dstMark, this`nextRegister, this`frameSize, this`heads,
        this`insns, this`labels, buf
      ensures r.Ok? ==>
        Ready() && old(labels) <= labels && StmtDerives(tokens, symbols, returnType, old(pos), pos, s, st)
      ensures r.Ok? ==> StmtCoded(symbols, old(Now()), Now(), st, brk) && old(pos) < pos && nextRegister == 0
      ensures r.Ok? ==> reachable == Reachable(st) && (inLoop ==> newHead == LastHole(insns, Local(brk)))
      ensures r.Ok? ==> IsIf(s)
      decreases |tokens| - pos, 12
    {
      hide Represented, VarsWithin, Read, Derives, StmtDerives, StmtCoded, BlockDerives, BlockCoded, StmtsDerive,
        BoolDerives, BoolParsed, LastHole, GenOr, GenBlock, GenStmt, EnvOf, SizeOf, OrSize, BlockSize, OrFits,
          BlockFits, Breaks, BlockReachable, Reachable,
        Free, FreeFrom, Subst, AllKnown, Over, Parsed, ReturnInsns, HasType, ElabAssign, High, Size, IsIf;
      reachable, newHead, s, st := true, breakHead, TBreak, Break;
      ghost var a, env := Now(), EnvOf(symbols);
      EnvOfKnown(symbols);
      EmittedFree();
      r := ReadToken(TC_IF);
      if !r.Ok? { return; }
      ghost var p := pos;
      var elseHead;
      ghost var elseL, c, core;
      r, elseHead, elseL, c, core := ParseCondition(brk);
      if !r.Ok? { return; }
      ghost var q := Now();
      FreeFromAt(a.code, old(labels), elseL);
      ghost var ss, sts;
      r, reachable, newHead, ss, sts := ParseBlockStmt(inLoop, breakHead, brk);
      if !r.Ok? { return; }
      ghost var b := Now();
      BlockFacts(tokens, symbols, returnType, q, b, ss, sts, brk);
      BlockHoles(symbols, q, b, sts, brk, elseL);
      DerivesIf(tokens, symbols, returnType, a.pos, p, q.pos, pos, c, core, ss, sts);
      if Next() == Tok(TC_ELSE) {
        r, reachable, newHead, s, st := ParseElse(inLoop, newHead, elseHead, reachable, brk, a, old(labels), elseL, c,
          core, ss, sts);
      } else {
        DstIs();
        FillLabel(elseHead, dst, elseL);
        SubstOther(b.code, Local(elseL), SizeOf(b.code), Local(brk));
        IfCode(env, a.code, core, a.frame, sts, brk, elseL);
        reachable, s, st := true, TIf(c, ss), If(core, sts);
        IfCoded(symbols, a, Now(), core, sts, brk);
        IsIfTree(s);
      }
    }

    /** The jump over the else branch, at the end of a then branch whose end is reachable, and the start of the else
        branch. */
    method WriteElse(elseHead: Option<nat>, thenReachable: bool, ghost brk: nat, ghost base: seq<Insn>, ghost n: nat,
                     ghost elseL: nat, ghost core: BoolExpr, ghost sts: List<Stmt>)
        returns (r: Status, endHead: Option<nat>, ghost endL: nat)
      requires Ready() && nextRegister == 0 && FreeFrom(base, n) && n <= elseL < labels && brk < n
      requires elseHead == LastHole(insns, Local(elseL)) && thenReachable == BlockReachable(sts)
      requires var b := SizeOf(base) + OrSize(core, frameSize);
        insns == base + GenOr(EnvOf(symbols), core, SizeOf(base), frameSize, At(b), Ref(Local(elseL)))
                 + GenBlock(EnvOf(symbols), sts, b, frameSize, Ref(Local(brk)))
      modifies this`dst, this`insns, this`labels, buf
      ensures r.Ok? ==> Ready() && old(labels) <= endL < labels && endHead == LastHole(insns, Local(endL))
      ensures r.Ok? ==> LastHole(insns, Local(brk)) == old(LastHole(insns, Local(brk)))
      ensures r.Ok? ==>
        var b := SizeOf(base) + OrSize(core, frameSize);
        var e := b + BlockSize(sts, frameSize) + SizeOf(Over(sts, endL));
        SizeOf(insns) == e
        && insns == base + GenOr(EnvOf(symbols), core, SizeOf(base), frameSize, At(b), At(e))
                    + GenBlock(EnvOf(symbols), sts, b, frameSize, Ref(Local(brk))) + Over(sts, endL)
    {
      hide Represented, VarsWithin, Read, Derives, StmtDerives, StmtCoded, BlockDerives, BlockCoded, StmtsDerive,
        BoolDerives, BoolParsed, LastHole, GenOr, GenBlock, GenStmt, EnvOf, SizeOf, OrSize, BlockSize, OrFits,
          BlockFits, Breaks, BlockReachable, Reachable,
        Free, FreeFrom, Subst, AllKnown, Over, Parsed, ReturnInsns, HasType, ElabAssign, High, Size, IsIf;
      endHead, endL := None, 0;
      ghost var env, before := EnvOf(symbols), insns;
      EnvOfKnown(symbols);
      endL := NewLabel();
      if thenReachable {
        r, endHead := WriteGotoInsn(endHead, endL);
        if !r.Ok? { return; }
      }
      OverIs(before, sts, endL);
      ghost var jumped := insns;
      OverFacts(sts, endL, 0);
      OverHoles(before, sts, endL, elseL);
      OverHoles(before, sts, endL, brk);
      FreeFromAt(base, n, elseL);
      ElseCode(env, base, core, frameSize, sts, brk, elseL, Over(sts, endL));
      DstIs();
      FillLabel(elseHead, dst, elseL);
      SubstOther(jumped, Local(elseL), SizeOf(jumped), Local(brk));
      SubstOther(jumped, Local(elseL), SizeOf(jumped), Local(endL));
      r := Ok;
    }

    /** What follows an else: a block or another if. */
    method ParseElseBranch(inLoop: bool, breakHead: Option<nat>, ghost brk: nat, ghost i: nat, ghost l: nat,
                           ghost c: BoolTree, ghost core: BoolExpr, ghost ss: List<StmtTree>, ghost sts: List<Stmt>)
        returns (r: Status, reachable: bool, newHead: Option<nat>, ghost s: StmtTree, ghost els: List<Stmt>)
      requires Ready() && nextRegister == 0 && brk < labels && (inLoop <==> brk != 0)
      requires inLoop ==> breakHead == LastHole(insns, Local(brk))
      requires i < l && StmtDerives(tokens, symbols, returnType, i, l, TIf(c, ss), If(core, sts))
        && Read(tokens, l, pos, [Tok(TC_ELSE)])
      modifies this`pos, this`values, this`dst, this`dstMark, this`nextRegister, this`frameSize, this`heads,
        this`insns, this`labels, buf
      ensures r.Ok? ==> Ready() && old(labels) <= labels && IsIf(s)
      ensures r.Ok? ==> StmtDerives(tokens, symbols, returnType, i, pos, s, IfElse(core, sts, els))
      ensures r.Ok? ==> BlockCoded(symbols, old(Now()), Now(), els, brk) && old(pos) < pos && nextRegister == 0
      ensures r.Ok? ==> reachable == BlockReachable(els) && (inLoop ==> newHead == LastHole(insns, Local(brk)))
      decreases |tokens| - pos, 14
    {
      hide Represented, VarsWithin, Read, Derives, StmtDerives, StmtCoded, BlockDerives, BlockCoded, StmtsDerive,
        BoolDerives, BoolParsed, LastHole, GenOr, GenBlock, GenStmt, EnvOf, SizeOf, OrSize, BlockSize, OrFits,
          BlockFits, Breaks, BlockReachable, Reachable,
        Free, FreeFrom, Subst, AllKnown, Over, Parsed, ReturnInsns, HasType, ElabAssign, High, Size, IsIf;
      reachable, newHead, s, els := true, breakHead, TBreak, List.Nil;
      ghost var b := Now();
      if Next() == Tok(TC_OPEN_BLOCK) {
        ghost var et;
        r, reachable, newHead, et, els := ParseBlockStmt(inLoop, breakHead, brk);
        if !r.Ok? { return; }
        s := TIfElse(c, ss, et);
        DerivesIfElse(tokens, symbols, returnType, i, l, b.pos, pos, c, core, ss, sts, et, els);
      } else {
        ghost var et, est;
        r, reachable, newHead, et, est := ParseIfStmt(inLoop, breakHead, brk);
        if !r.Ok? { return; }
        s, els := TElseIf(c, ss, et), List.Cons(est, List.Nil);
        DerivesElseIf(tokens, symbols, returnType, i, l, b.pos, pos, c, core, ss, sts, et, est);
        StmtAsBlock(symbols, b, Now(), est, brk);
      }
      IsIfTree(s);
    }

    method ParseElse(inLoop: bool, breakHead: Option<nat>, elseHead: Option<nat>, thenReachable: bool, ghost brk: nat,
                     ghost a: View, ghost n: nat, ghost elseL: nat, ghost c: BoolTree, ghost core: BoolExpr,
                       ghost ss: List<StmtTree>, ghost sts: List<Stmt>)
        returns (r: Status, reachable: bool, newHead: Option<nat>, ghost s: StmtTree, ghost st: Stmt)
      requires Ready() && nextRegister == 0 && brk < labels && (inLoop <==> brk != 0)
      requires inLoop ==> breakHead == LastHole(insns, Local(brk))
      requires Next() == Tok(TC_ELSE) && a.pos < pos && a.values == values && a.frame == frameSize
      requires FreeFrom(a.code, n) && n <= elseL < labels && brk < n && elseHead == LastHole(insns, Local(elseL))
      requires thenReachable == BlockReachable(sts) && StmtDerives(tokens, symbols, returnType, a.pos, pos,
        TIf(c, ss), If(core, sts))
      requires OrFits(core) && BlockFits(sts) && (brk == 0 ==> !Breaks(sts))
      requires var b := SizeOf(a.code) + OrSize(core, frameSize);
        insns == a.code + GenOr(EnvOf(symbols), core, SizeOf(a.code), frameSize, At(b), Ref(Local(elseL)))
                 + GenBlock(EnvOf(symbols), sts, b, frameSize, Ref(Local(brk)))
      modifies this`pos, this`values, this`dst, this`dstMark, this`nextRegister, this`frameSize, this`heads,
        this`insns, this`labels, buf
      ensures r.Ok? ==> Ready() && old(labels) <= labels && StmtDerives(tokens, symbols, returnType, a.pos, pos, s, st)
      ensures r.Ok? ==> StmtCoded(symbols, a, Now(), st, brk) && old(pos) < pos && nextRegister == 0
      ensures r.Ok? ==> reachable == Reachable(st) && (inLoop ==> newHead == LastHole(insns, Local(brk)))
      ensures r.Ok? ==> IsIf(s)
      decreases |tokens| - pos, 11
    {
      hide Represented, VarsWithin, Read, Derives, StmtDerives, StmtCoded, BlockDerives, BlockCoded, StmtsDerive,
        BoolDerives, BoolParsed, LastHole, GenOr, GenBlock, GenStmt, EnvOf, SizeOf, OrSize, BlockSize, OrFits,
          BlockFits, Breaks, BlockReachable, Reachable,
        Free, FreeFrom, Subst, AllKnown, Over, Parsed, ReturnInsns, HasType, ElabAssign, High, Size, IsIf;
      reachable, newHead, s, st := true, breakHead, TBreak, Break;
      ghost var l := pos;
      ReadOne(tokens, pos);
      Advance();
      var endHead;
      ghost var endL;
      r, endHead, endL := WriteElse(elseHead, thenReachable, brk, a.code, n, elseL, core, sts);
      if !r.Ok? { return; }
      ghost var b := Now();
      ghost var els;
      r, reachable, newHead, s, els := ParseElseBranch(inLoop, breakHead, brk, a.pos, l, c, core, ss, sts);
      if !r.Ok? { return; }
      ghost var d := Now();
      BlockCodedFacts(symbols, b, d, els, brk);
      BlockHoles(symbols, b, d, els, brk, endL);
      FreeFromAt(a.code, n, endL);
      EnvOfKnown(symbols);
      EndIfCode(EnvOf(symbols), a.code, core, a.frame, sts, els, brk, endL);
      DstIs();
      FillLabel(endHead, dst, endL);
      SubstOther(d.code, Local(endL), SizeOf(d.code), Local(brk));
      reachable, st := thenReachable || reachable, IfElse(core, sts, els);
      IfElseCoded(symbols, a, Now(), core, sts, els, brk);
    }

    method ParseStmt(inLoop: bool, breakHead: Option<nat>, ghost brk: nat)
        returns (r: Status, reachable: bool, newHead: Option<nat>, ghost s: StmtTree, ghost st: Stmt)
      requires Ready() && nextRegister == 0 && brk < labels && (inLoop <==> brk != 0)
      requires inLoop ==> breakHead == LastHole(insns, Local(brk))
      modifies this`pos, this`values, this`dst, this`dstMark, this`nextRegister, this`frameSize, this`heads,
        this`insns, this`labels, buf
      ensures r.Ok? ==>
        Ready() && old(labels) <= labels && StmtDerives(tokens, symbols, returnType, old(pos), pos, s, st)
      ensures r.Ok? ==> StmtCoded(symbols, old(Now()), Now(), st, brk) && old(pos) < pos && nextRegister == 0
      ensures r.Ok? ==> reachable == Reachable(st) && (inLoop ==> newHead == LastHole(insns, Local(brk)))
      decreases |tokens| - pos, 13
    {
      hide Represented, VarsWithin, Read, Derives, StmtDerives, StmtCoded, BlockDerives, BlockCoded, StmtsDerive,
        BoolDerives, BoolParsed, LastHole, GenOr, GenBlock, GenStmt, EnvOf, SizeOf, OrSize, BlockSize, OrFits,
          BlockFits, Breaks, BlockReachable, Reachable,
        Free, FreeFrom, Subst, AllKnown, Over, Parsed, ReturnInsns, HasType, ElabAssign, High, Size, IsIf;
      reachable, newHead, s, st := true, breakHead, TBreak, Break;
      ghost var a := Now();
      if Next() == Tok(TC_IF) {
        r, reachable, newHead, s, st := ParseIfStmt(inLoop, breakHead, brk);
      } else if Next() == Tok(TC_WHILE) || Next() == Tok(TC_LOOP) {
        r, reachable, newHead, s, st := ParseWhileOrLoopStmt(inLoop, breakHead, brk);
      } else if Next() == Tok(TC_BREAK) {
        if !inLoop { return Panic(39), reachable, newHead, s, st; }
        reachable := false;
        r, newHead, s, st := ParseBreakStmt(breakHead, brk);
      } else if Next() == Tok(TC_RETURN) {
        reachable := false;
        r, s, st := ParseReturnStmt(brk);
        if !r.Ok? { return; }
        SimpleHoles(symbols, a, Now(), st, brk);
      } else {
        r, s, st := ParseExprOrAssignStmt(brk);
        if !r.Ok? { return; }
        SimpleHoles(symbols, a, Now(), st, brk);
      }
    }

    // ----- items of function bodies -----

    /** tc_add_symbol. */
    method AddSymbol(name: Name, sym: Symbol) returns (r: Status)
      requires Represented() && !IsForward(sym) && SymbolsInside(map[name := sym], buf.Length)
      modifies this`symbols
      ensures r.Ok? ==> Represented() && name !in old(symbols) && symbols == old(symbols)[name := sym]
    {
      hide Matches, Kept, HeadsOk, IsForward;
      if name in symbols { return Panic(30); }
      HeadsAdd(symbols, heads, insns, name, sym);
      InsideAdd(symbols, buf.Length, name, sym);
      hide SymbolsInside;
      symbols := symbols[name := sym];
      return Ok;
    }

    method ParseConst() returns (r: Status, ghost x: Name, ghost t: TypeTree, ghost ty: Type, ghost v: u64)
      requires Represented() && pos <= |tokens|
      modifies this`pos, this`symbols
      ensures r.Ok? ==>
        Represented() && old(pos) < pos <= |tokens| && Read(tokens, old(pos), pos, PrintItem(TConst(x, t, v)))
      ensures r.Ok? ==>
        ElabType(old(symbols), t) == Some(ty) && x !in old(symbols) && symbols == old(symbols)[x := ConstSymbol(v, ty)]
    {
      hide Represented, PrintItem, ElabType, PrintType, Read;
      x, t, ty, v := [], TypeTree(List.Nil, None), U64, 0;
      r := ParseToken(TC_CONST);
      if !r.Ok? { return; }
      var name, ty1, value;
      r, name := ParseIdentifier();
      if !r.Ok? { return; }
      r := ParseToken(TC_COLON);
      if !r.Ok? { return; }
      ghost var j := pos;
      r, ty1, t := ParseType();
      if !r.Ok? { return; }
      ghost var k := pos;
      r := ParseToken(TC_ASSIGN);
      if !r.Ok? { return; }
      r, value := ParseInteger();
      if !r.Ok? { return; }
      r := AddSymbol(name, ConstSymbol(value, ty1));
      if !r.Ok? { return; }
      r := ParseToken(TC_SEMICOLON);
      if !r.Ok? { return; }
      x, ty, v := name, ty1, value;
      ReadConst(tokens, old(pos), j, k, pos, x, t, v);
    }

    /** let, the name, the type if there is one, and =. */
    method ParseLetStart() returns (r: Status, name: Name, given: Option<Type>, ghost t: Option<TypeTree>)
      requires pos <= |tokens|
      modifies this`pos
      ensures r.Ok? ==> old(pos) < pos <= |tokens| && Read(tokens, old(pos), pos, PrintLetStart(name, t))
      ensures given.Some? == t.Some? && (r.Ok? && t.Some? ==> ElabType(symbols, t.value) == given)
    {
      hide Read, PrintLetStart, ElabType, PrintType;
      name, given, t := [], None, None;
      r := ParseToken(TC_LET);
      if !r.Ok? { return; }
      r, name := ParseIdentifier();
      if !r.Ok? { return; }
      ghost var j := pos;
      if Next() == Tok(TC_COLON) {
        Advance();
        var ty;
        ghost var tree;
        r, ty, tree := ParseType();
        if !r.Ok? { return; }
        given, t := Some(ty), Some(tree);
      }
      ghost var k := pos;
      r := ParseToken(TC_ASSIGN);
      if !r.Ok? { return; }
      ReadLetStart(tokens, old(pos), j, k, name, t);
    }

    method ParseLetStmt(variable: nat) returns (r: Status, newVariable: nat, ghost item: ItemTree, ghost core: Expr)
      requires Ready() && nextRegister == 0 && variable == frameSize + 1
      modifies this`pos, this`values, this`dst, this`dstMark, this`nextRegister, this`frameSize, this`heads,
        this`insns, this`symbols, buf
      ensures r.Ok? ==>
        Ready() && nextRegister == 0 && frameSize == old(frameSize) + 1 && values == old(values) && old(pos) < pos
      ensures r.Ok? ==> newVariable == variable + 1 && Extends(old(symbols), symbols) && item.TLet? && Fits(core, 0)
      ensures r.Ok? ==>
        ItemDerives(tokens, old(symbols), returnType, variable, old(pos), pos, item, symbols,
          List.Cons(Let(core), List.Nil))
      ensures r.Ok? ==>
        insns == old(insns) + GenItem(EnvOf(old(symbols)), Let(core), SizeOf(old(insns)), old(frameSize))
    {
      hide Elab, GenExpr, PrintLetStart, Adds, Coded, Marked, Represented, VarsWithin, Read, Derives, StmtDerives,
        StmtCoded, ItemsDerive, ItemDerives, ItemsCoded, SizeOf, Parsed, PrintItem, LetType, ElabType, PrintType,
          EnvOf, GenItems, GenItem, Lets, ItemsFit, ItemsReachable, Reachable, SaveInsns, Extends, Fits;
      newVariable, item, core := variable, TConst([], TypeTree(List.Nil, None), 0), Lit(0);
      ghost var a, syms := Now(), symbols;
      var name, given;
      ghost var t;
      r, name, given, t := ParseLetStart();
      if !r.Ok? { return; }
      ghost var b := Now();
      ghost var e, el;
      r, e, el := ParseExpr();
      if !r.Ok? { return; }
      ghost var c := Now();
      ParsedParts(tokens, syms, 8, b, c, e, el);
      r := ReadToken(TC_SEMICOLON);
      if !r.Ok? { return; }
      r := AddVariable(variable, name, given, t, a.values, el.value);
      if !r.Ok? { return; }
      ghost var ty := LetType(syms, t, el.value).value;
      r := SaveRegisters(1);
      if !r.Ok? { return; }
      newVariable, item, core := variable + 1, TLet(name, t, e), el.core;
      ReadLet(tokens, syms, a.pos, b.pos, c.pos, pos, name, t, e, el);
      DerivesRead(tokens, syms, 8, b.pos, c.pos, e, el);
      DerivesLet(tokens, syms, returnType, variable, a.pos, pos, name, t, e, el, ty);
      VarsAdd(syms, a.frame, name, ty);
      LetInsns(syms, a, b, c, el.core);
      ExtendsAdd(syms, name, VarSymbol(variable, ty));
    }

    /** The type of a new variable, and its symbol. */
    method AddVariable(variable: nat, name: Name, given: Option<Type>, ghost t: Option<TypeTree>,
                       ghost vs: seq<Value>, ghost v: Value)
        returns (r: Status)
      requires Represented() && values == vs + [v] && given.Some? == t.Some?
      requires t.Some? ==> ElabType(symbols, t.value) == given
      modifies this`symbols, this`values
      ensures r.Ok? ==> Represented() && values == vs && name !in old(symbols) && v.origin != FromVoid
      ensures r.Ok? ==> LetType(old(symbols), t, v).Some?
      ensures r.Ok? ==> symbols == old(symbols)[name := VarSymbol(variable, LetType(old(symbols), t, v).value)]
    {
      hide Represented, ElabType, HasType;
      var value;
      r, value := PopValue();
      if !r.Ok? { return; }
      SnocEq(vs, v, values, value);
      var ty := value.ty;
      if given != None {
        if !HasType(value, given.value) { return Panic(43); }
        ty := given.value;
      } else if value.origin == FromNull {
        return Panic(57);
      }
      r := AddSymbol(name, VarSymbol(variable, ty));
    }

    /** The items of a function body, up to the closing brace. */
    method ParseItems(arity: nat)
        returns (r: Status, reachable: bool, ghost items: List<ItemTree>, ghost next: nat, ghost core: List<Item>)
      requires Ready() && nextRegister == 0 && frameSize == arity && 0 < labels
      modifies this`pos, this`values, this`dst, this`dstMark, this`nextRegister, this`frameSize, this`heads,
        this`insns, this`labels, this`symbols, buf
      ensures r.Ok? ==> Ready() && nextRegister == 0 && Extends(old(symbols), symbols) && Next() == Tok(TC_CLOSE_BLOCK)
      ensures r.Ok? ==>
        ItemsDerive(tokens, old(symbols), returnType, arity + 1, old(pos), pos, items, symbols, next, core)
      ensures r.Ok? ==> ItemsCoded(EnvOf(old(symbols)), old(Now()), Now(), core) && reachable == ItemsReachable(core)
      ensures r.Ok? ==> old(labels) <= labels && old(pos) <= pos
    {
      hide Adds, Coded, Elab, GenExpr, Represented, VarsWithin, Read, Derives, StmtDerives, StmtCoded, ItemsDerive,
        ItemDerives, ItemsCoded, SizeOf, Parsed, PrintItem, LetType, ElabType, PrintType, EnvOf, GenItems, GenItem,
          Lets, ItemsFit, ItemsReachable, Reachable, SaveInsns, Extends, Fits;
      r, reachable, items, core := Ok, true, List.Nil, List.Nil;
      var nextVariable := arity + 1;
      next := nextVariable;
      ghost var a, env := Now(), EnvOf(symbols);
      NoItemsYet(tokens, symbols, returnType, next, env, a);
      ItemsReachableNil();
      ExtendsSelf(symbols);
      while Next() != Tok(TC_CLOSE_BLOCK)
        invariant Ready() && nextRegister == 0 && 0 < labels && old(labels) <= labels
          && next == nextVariable == frameSize + 1
        invariant Extends(old(symbols), symbols) && ItemsCoded(env, a, Now(), core) && old(pos) <= pos
        invariant ItemsDerive(tokens, old(symbols), returnType, arity + 1, a.pos, pos, items, symbols, next, core)
        invariant reachable == ItemsReachable(core)
        decreases |tokens| - pos
      {
        ghost var b, syms := Now(), symbols;
        ExtendsEnv(old(symbols), syms);
        ItemsCodedFacts(env, a, b, core);
        if !reachable { return Panic(40), reachable, items, next, core; }
        if Next() == Tok(TC_CONST) {
          ghost var x, t, ty, v;
          r, x, t, ty, v := ParseConst();
          if !r.Ok? { return; }
          DerivesConst(tokens, syms, returnType, next, b.pos, pos, x, t, ty, v);
          ItemsDeriveSnoc(tokens, old(symbols), returnType, arity + 1, a.pos, b.pos, pos, items, syms, next, core,
            TConst(x, t, v), symbols, List.Nil);
          items := Snoc(items, TConst(x, t, v));
          JoinNil(core);
          ExtendsAdd(syms, x, ConstSymbol(v, ty));
          ExtendsTrans(old(symbols), syms, symbols);
          VarsAddConst(syms, frameSize, x, ConstSymbol(v, ty));
          ItemsCodedTo(env, a, b, Now(), core);
        } else if Next() == Tok(TC_LET) {
          ghost var item, e;
          r, nextVariable, item, e := ParseLetStmt(nextVariable);
          if !r.Ok? { return; }
          ItemsDeriveSnoc(tokens, old(symbols), returnType, arity + 1, a.pos, b.pos, pos, items, syms, next, core,
            item, symbols, List.Cons(Let(e), List.Nil));
          JoinOne(core, Let(e));
          LetFits(e);
          ItemsCodedSnoc(env, a, b, Now(), core, Let(e));
          ItemsSnocFacts(core, Let(e));
          ExtendsTrans(old(symbols), syms, symbols);
          next, items, core := next + 1, Snoc(items, item), Snoc(core, Let(e));
        } else {
          var head;
          ghost var s, st;
          r, reachable, head, s, st := ParseStmt(false, None, 0);
          if !r.Ok? { return; }
          StmtFacts(tokens, syms, returnType, b, Now(), s, st, 0);
          DerivesDo(tokens, syms, returnType, next, b.pos, pos, s, st);
          ItemsDeriveSnoc(tokens, old(symbols), returnType, arity + 1, a.pos, b.pos, pos, items, syms, next, core,
            TDo(s), symbols, List.Cons(Do(st), List.Nil));
          JoinOne(core, Do(st));
          DoCoded(syms, env, a, b, Now(), core, st);
          items, core := Snoc(items, TDo(s)), Snoc(core, Do(st));
        }
      }
    }

    // ----- functions -----

    /** Names with types, in a list of parameters or fields. */
    method ParseParamList(close: nat) returns (r: Status, names: seq<Name>, tys: seq<Type>, ghost ps: List<Param>)
      requires pos <= |tokens| && close != TC_END
      modifies this`pos
      ensures r.Ok? ==> old(pos) < pos <= |tokens| && tokens[old(pos)..pos] == PrintParams(ps) + [Tok(close)]
      ensures r.Ok? ==> ElabParams(symbols, ps) == Some(tys) && Distinct(ps) && names == Names(ps) && |tys| == |names|
    {
      hide PrintParams, ElabParams, Distinct, Names, PrintType, ElabType, HasParam;
      r, names, tys, ps := Ok, [], [], List.Nil;
      NoParams(symbols);
      while Next() != Tok(close)
        invariant old(pos) <= pos <= |tokens| && tokens[old(pos)..pos] == PrintParams(ps)
        invariant ElabParams(symbols, ps) == Some(tys) && Distinct(ps) && names == Names(ps) && |tys| == |names|
        decreases |tokens| - pos
      {
        ghost var i := pos;
        if names != [] {
          r := ParseToken(TC_COMMA);
          if !r.Ok? { return; }
        }
        ghost var j := pos;
        var name, ty;
        ghost var tree;
        r, name := ParseIdentifier();
        if !r.Ok? { return; }
        r := ParseToken(TC_COLON);
        if !r.Ok? { return; }
        r, ty, tree := ParseType();
        if !r.Ok? { return; }
        if name in names { return Panic(30), names, tys, ps; }
        ParamsSnoc(tokens, symbols, old(pos), i, j, pos, ps, tys, Param(name, tree), ty);
        names, tys, ps := names + [name], tys + [ty], Snoc(ps, Param(name, tree));
      }
      assert tokens[old(pos)..pos + 1] == tokens[old(pos)..pos] + [tokens[pos]];
      Advance();
    }

    method ParseReturnType() returns (r: Status, ret: Option<Type>, ghost t: Option<TypeTree>)
      requires pos <= |tokens|
      modifies this`pos
      ensures r.Ok? ==>
        old(pos) <= pos <= |tokens| && tokens[old(pos)..pos] == PrintRet(t) && ElabRet(symbols, t) == Some(ret)
    {
      hide PrintType, ElabType;
      r, ret, t := Ok, None, None;
      if Next() == Tok(TC_ARROW) {
        Advance();
        var ty;
        ghost var tree, p := TypeTree(List.Nil, None), pos;
        r, ty, tree := ParseType();
        if !r.Ok? { return; }
        ret, t := Some(ty), Some(tree);
        assert tokens[old(pos)..pos] == [tokens[old(pos)]] + tokens[p..pos];
      }
    }

    /** The symbol of a function whose code starts here: new, or declared forward, in which case the calls that wait for
        it are resolved. */
    method AddOrResolveFnSymbol(name: Name) returns (r: Status, declared: Option<(seq<Type>, Option<Type>)>)
      requires Represented()
      modifies this`symbols, this`insns, buf
      ensures r.Ok? ==> Represented() && (name in old(symbols) ==> IsForward(old(symbols)[name]))
      ensures r.Ok? ==>
        symbols == old(symbols)[name := FnSymbol(Some(dst), [], None)] && LastHole(insns, Forward(name)) == None
      ensures r.Ok? ==> dst == SizeOf(old(insns)) == SizeOf(insns) && insns == Subst(old(insns), Forward(name), At(dst))
      ensures r.Ok? ==>
        declared == if name in old(symbols) then Some((old(symbols)[name].params, old(symbols)[name].ret)) else None
    {
      hide Matches, Kept, HeadsOk, LastHole, Subst, SizeOf, SymbolsInside, Free;
      declared := None;
      ghost var code := insns;
      DstIs();
      SubstSize(code, Forward(name), At(dst));
      KeptSubst(code, buf.Length, labels, Forward(name), dst);
      SubstResolved(code, Forward(name), dst);
      InsideDefine(symbols, buf.Length, name, dst, [], None);
      if name in symbols {
        if !IsForward(symbols[name]) { return Panic(31), None; }
        declared := Some((symbols[name].params, symbols[name].ret));
        HeadIs(symbols, heads, insns, name);
        FillPlaceholders(heads[name], dst, Forward(name));
      } else {
        NewIsFree(symbols, heads, insns, name);
        SubstFree(insns, Forward(name), At(dst));
      }
      HeadsDefine(symbols, heads, code, name, dst, [], None);
      symbols := symbols[name := FnSymbol(Some(dst), [], None)];
      r := Ok;
    }

    /** tc_check_fn_parameters: the types of a function declared forward, compared from the last one. */
    method CheckFnParameters(declared: Option<(seq<Type>, Option<Type>)>, params: seq<Type>, ret: Option<Type>)
        returns (r: Status)
      ensures r.Ok? <==> declared.None? || declared.value == (params, ret)
    {
      if declared == None { return Ok; }
      var before := declared.value.0;
      if declared.value.1 != ret { return Panic(58); }
      var i, n := |before|, |params|;
      while i != 0 && n != 0
        invariant 0 <= i <= |before| && 0 <= n <= |params| && |before| - i == |params| - n && before[i..] == params[n..]
      {
        i := i - 1;
        n := n - 1;
        if before[i] != params[n] { return Panic(58); }
        assert before[i..] == [before[i]] + before[i + 1..] && params[n..] == [params[n]] + params[n + 1..];
      }
      if i != 0 || n != 0 { return Panic(59); }
      assert before[0..] == before && params[0..] == params;
      r := Ok;
    }

    method ParseFnParameters(name: Name, declared: Option<(seq<Type>, Option<Type>)>)
        returns (r: Status, names: seq<Name>, tys: seq<Type>, ghost ps: List<Param>, ghost t: Option<TypeTree>)
      requires Represented() && pos <= |tokens| && dst <= buf.Length && name in symbols
        && symbols[name] == FnSymbol(Some(dst), [], None)
      modifies this`pos, this`symbols, this`returnType
      ensures r.Ok? ==> Represented() && symbols == old(symbols)[name := FnSymbol(Some(dst), tys, returnType)]
      ensures r.Ok? ==>
        Read(tokens, old(pos), pos, [Tok(TC_OPEN)] + PrintParams(ps) + [Tok(TC_CLOSE)] + PrintRet(t)) && pos <= |tokens|
      ensures r.Ok? ==> ElabParams(old(symbols), ps) == Some(tys) && ElabRet(old(symbols), t) == Some(returnType)
      ensures r.Ok? ==>
        Distinct(ps) && names == Names(ps) && |tys| == |names|
        && (declared.None? || declared.value == (tys, returnType))
    {
      hide Matches, Kept, HeadsOk, SymbolsInside, PrintParams, PrintRet, ElabParams, ElabRet, Distinct, Names;
      names, tys, ps, t := [], [], List.Nil, None;
      r := ParseToken(TC_OPEN);
      if !r.Ok? { return; }
      ghost var j := pos;
      r, names, tys, ps := ParseParamList(TC_CLOSE);
      if !r.Ok? { return; }
      ghost var k := pos;
      var ret;
      r, ret, t := ParseReturnType();
      if !r.Ok? { return; }
      Split3(tokens, old(pos), j, k, pos);
      r := CheckFnParameters(declared, tys, ret);
      if !r.Ok? { return; }
      HeadsRetype(symbols, heads, insns, name, dst, tys, ret);
      InsideDefine(symbols, buf.Length, name, dst, tys, ret);
      symbols := symbols[name := FnSymbol(Some(dst), tys, ret)];
      returnType := ret;
    }

    /** The parameters as variables, from the last to the first. */
    method AddParams(names: seq<Name>, tys: seq<Type>, ghost ps: List<Param>) returns (r: Status)
      requires Represented() && names == Names(ps) && |tys| == |names| && NoVars(symbols)
      modifies this`symbols
      ensures r.Ok? ==>
        Represented() && symbols == ParamSymbols(old(symbols), ps, tys) && Extends(old(symbols), symbols)
      ensures r.Ok? ==> VarsWithin(symbols, |tys|) && forall x :: x in old(symbols) ==> !HasParam(ps, x)
    {
      hide Represented, Extends, ParamSymbols, HasParam, NoVars, VarsWithin, Names, Drop;
      var i := |names|;
      NamesLength(ps);
      DropAll(ps);
      NothingAdded(symbols, tys);
      ExtendsSelf(symbols);
      NoVarsWithin(symbols, |tys|);
      while i > 0
        invariant 0 <= i <= |names| && Represented() && Extends(old(symbols), symbols) && VarsWithin(symbols, |tys|)
        invariant symbols == ParamSymbols(old(symbols), Drop(ps, i), tys[i..])
        invariant forall x :: x in old(symbols) ==> !HasParam(Drop(ps, i), x)
      {
        i := i - 1;
        ghost var syms := symbols;
        r := AddSymbol(names[i], VarSymbol(|names| - i, tys[i]));
        if !r.Ok? { return; }
        DropOne(ps, i);
        ParamAdded(old(symbols), ps, tys, i);
        VarsAddParam(syms, |tys|, names[i], VarSymbol(|names| - i, tys[i]));
        ExtendsAdd(syms, names[i], VarSymbol(|names| - i, tys[i]));
        ExtendsTrans(old(symbols), syms, symbols);
        ExtendsHas(old(symbols), syms, names[i]);
      }
      DropNone(ps);
      assert tys[0..] == tys;
      r := Ok;
    }

    /** tc_write_fn_insn: the arguments go from the registers to the stack. */
    method WriteFnInsn(arity: nat) returns (r: Status)
      requires Represented()
      modifies this`dst, this`insns, this`nextRegister, this`frameSize, buf
      ensures r.Ok? ==> Represented() && insns == old(insns) + SaveInsns(arity) && arity <= MAX_REGISTERS
      ensures r.Ok? ==> nextRegister == 0 && frameSize == arity
    {
      hide Represented, SaveInsns;
      if arity > MAX_REGISTERS { return Panic(107); }
      frameSize := 0;
      r := SaveRegisters(arity);
    }

    /** The block of a function body: its items, and a return if its end is reachable. */
    method ParseFnBlock(arity: nat) returns (r: Status, ghost items: List<ItemTree>, ghost core: List<Item>)
      requires Represented() && pos <= |tokens| && 0 < labels && VarsWithin(symbols, arity)
      modifies this`pos, this`values, this`dst, this`dstMark, this`nextRegister, this`frameSize, this`heads,
        this`insns, this`labels, this`symbols, buf
      ensures r.Ok? ==> Represented() && 0 < labels && Extends(old(symbols), symbols) && nextRegister == 0
      ensures r.Ok? ==>
        Read(tokens, old(pos), pos, PrintBody(Items(items))) && pos <= |tokens| && GrammaticalItems(items)
      ensures r.Ok? ==>
        var its := ElabItems(old(symbols), returnType, arity + 1, items); its.Some? && its.value.2 == core
      ensures r.Ok? ==> !(returnType.Some? && ItemsReachable(core)) && FnFits(Fn(arity, core))
      ensures r.Ok? ==> insns == old(insns) + GenFn(EnvOf(old(symbols)), Fn(arity, core), SizeOf(old(insns)))
    {
      hide GenItems, GenItem, Represented, VarsWithin, Read, SizeOf, EnvOf, Lets, ItemsFit, ItemsReachable, SaveInsns,
        Extends, ReturnInsns, GenFn, FnFits, ItemsDerive, ItemsCoded, ElabItems, PrintItems, GrammaticalItems,
          ElabParams, PrintParams, PrintRet, ElabRet, Distinct, Names,
        ParamSymbols, NoLocals, NoVars, Compiled, Subst, LastHole, PrintBody, PrintType, ElabType, HasParam;
      items, core := List.Nil, List.Nil;
      ghost var params, base := symbols, insns;
      r := ParseToken(TC_OPEN_BLOCK);
      if !r.Ok? { return; }
      r := WriteFnInsn(arity);
      if !r.Ok? { return; }
      ghost var a := Now();
      var reachable;
      ghost var next;
      r, reachable, items, next, core := ParseItems(arity);
      if !r.Ok? { return; }
      ItemsCodedFacts(EnvOf(params), a, Now(), core);
      NothingAfter(insns);
      if reachable {
        if returnType != None { return Panic(41), items, core; }
        r := WriteReturnInsn();
        if !r.Ok? { return; }
      }
      ReadBody(tokens, params, returnType, arity + 1, old(pos), a.pos, pos, items, symbols, next, core);
      Advance();
      FnCode(EnvOf(params), base, arity, core);
      FnFitsIntro(arity, core);
    }

    /** A body of statements, compiled with the parameters as variables. */
    method ParseFnItems(names: seq<Name>, tys: seq<Type>, ghost ps: List<Param>)
        returns (r: Status, ghost items: List<ItemTree>, ghost core: List<Item>)
      requires Represented() && pos <= |tokens| && 0 < labels && NoVars(symbols) && names == Names(ps)
        && |tys| == |names|
      modifies this`pos, this`values, this`dst, this`dstMark, this`nextRegister, this`frameSize, this`heads,
        this`insns, this`labels, this`symbols, buf
      ensures r.Ok? ==> Represented() && 0 < labels && symbols == old(symbols) && nextRegister == 0
      ensures r.Ok? ==>
        Read(tokens, old(pos), pos, PrintBody(Items(items))) && pos <= |tokens| && GrammaticalItems(items)
      ensures r.Ok? ==>
        var its := ElabItems(ParamSymbols(symbols, ps, tys), returnType, |tys| + 1, items);
          its.Some? && its.value.2 == core
      ensures r.Ok? ==> !(returnType.Some? && ItemsReachable(core)) && forall x :: x in symbols ==> !HasParam(ps, x)
      ensures r.Ok? ==> FnFits(Fn(|tys|, core))
      ensures r.Ok? ==> insns == old(insns) + GenFn(EnvOf(symbols), Fn(|tys|, core), SizeOf(old(insns)))
    {
      hide Represented, VarsWithin, Read, SizeOf, EnvOf, Lets, ItemsFit, ItemsReachable, SaveInsns, Extends,
        ReturnInsns, GenFn, FnFits, ItemsDerive, ItemsCoded, ElabItems, PrintItems, GrammaticalItems, ElabParams,
          PrintParams, PrintRet, ElabRet, Distinct, Names,
        ParamSymbols, NoLocals, NoVars, Compiled, Subst, LastHole, PrintBody, PrintType, ElabType, HasParam;
      items, core := List.Nil, List.Nil;
      var saved := symbols;
      r := AddParams(names, tys, ps);
      if !r.Ok? { return; }
      ghost var params := symbols;
      r, items, core := ParseFnBlock(|names|);
      if !r.Ok? { return; }
      ExtendsEnv(saved, params);
      ExtendsTrans(saved, params, symbols);
      DropLocals(saved);
    }

    /** The symbols of a function body are dropped at its end. */
    method DropLocals(saved: Symbols)
      requires Represented() && Extends(saved, symbols)
      modifies this`symbols
      ensures Represented() && symbols == saved
    {
      hide Matches, Kept, LastHole, ForwardsIn;
      ExtendsEnv(saved, symbols);
      symbols := saved;
    }

    // ----- declarations -----

    ghost predicate UnitReady()
      reads this, buf
    {
      && Represented() && pos <= |tokens| && 0 < labels && NoVars(symbols) && NoLocals(insns)
      && Compiled(symbols, links, insns, fns)
    }

    /** A byte given by a number. */
    method ParseByte() returns (r: Status, ghost b: u64)
      requires Represented() && pos <= |tokens|
      modifies this`pos, this`dst, this`insns, buf
      ensures r.Ok? ==> Represented() && old(pos) < pos <= |tokens| && tokens[old(pos)..pos] == [Int(b)]
      ensures r.Ok? ==> insns == old(insns) + [Data(b % 256)]
    {
      hide Matches, Kept, PlainBytes, Shaped, IsJump, SizeOf, Size, HeadsOk, NotForward, SymbolsInside;
      b := 0;
      var value;
      r, value := ParseInteger();
      if !r.Ok? { return; }
      ghost var before := Code();
      r := Write8(value);
      if !r.Ok? { return; }
      DataIs(value % 256, SizeOf(insns));
      EmitPlain(Data(value % 256), before);
      b := value;
    }

    /** tc_parse_fn_asm_body. */
    method ParseAsmBody() returns (r: Status, ghost bytes: List<u64>)
      requires Represented() && pos <= |tokens|
      modifies this`pos, this`dst, this`insns, buf
      ensures r.Ok? ==> Represented() && Read(tokens, old(pos), pos, PrintBody(Asm(bytes))) && pos <= |tokens|
      ensures r.Ok? ==> insns == old(insns) + DataOf(bytes)
    {
      hide Represented, PrintBytes, DataOf;
      bytes := List.Nil;
      r := ParseToken(TC_OPEN_BRACKET);
      if !r.Ok? { return; }
      ghost var j := pos;
      var i := 0;
      NoBytes(insns);
      while Next() != Tok(TC_CLOSE_BRACKET)
        invariant Represented() && j <= pos <= |tokens| && tokens[j..pos] == PrintBytes(bytes)
          && (i > 0 <==> bytes.Cons?)
        invariant insns == old(insns) + DataOf(bytes)
        decreases |tokens| - pos
      {
        ghost var k := pos;
        if i > 0 {
          r := ParseToken(TC_COMMA);
          if !r.Ok? { return; }
        }
        ghost var l := pos;
        ghost var b;
        r, b := ParseByte();
        if !r.Ok? { return; }
        Split3(tokens, j, k, l, pos);
        BytesSnoc(bytes, b, old(insns));
        bytes := Snoc(bytes, b);
        i := i + 1;
      }
      assert tokens[old(pos)..pos + 1] == tokens[old(pos)..j] + tokens[j..pos] + [tokens[pos]];
      Advance();
      r := Ok;
    }

    /** A block of statements as the body of a function. */
    method ParseItemsBody(name: Name, names: seq<Name>, tys: seq<Type>, ghost ps: List<Param>, ghost u: CompUnit)
        returns (r: Status, ghost body: Body)
      requires Represented() && pos <= |tokens| && 0 < labels && NoVars(u.syms) && NoLocals(insns)
        && dst == SizeOf(insns)
      requires names == Names(ps) && |tys| == |names| && u.fns == fns && (name in u.syms ==> IsForward(u.syms[name]))
      requires symbols == u.syms[name := FnSymbol(Some(dst), tys, returnType)] && LastHole(insns, Forward(name)) == None
      requires links == Relinked(u.links, name, dst) && Compiled(u.syms, links, insns, fns)
      modifies this`pos, this`values, this`dst, this`dstMark, this`nextRegister, this`frameSize, this`heads,
        this`insns, this`labels, this`symbols, this`fns, this`links, buf
      ensures r.Ok? ==>
        UnitReady() && Read(tokens, old(pos), pos, PrintBody(body)) && (body.Items? ==> GrammaticalItems(body.items))
      ensures r.Ok? ==> BodyDone(u, SizeOf(old(insns)), name, ps, tys, returnType, body, CompUnit(symbols, fns, links))
      ensures r.Ok? ==> SizeOf(insns) == SizeOf(old(insns)) + BodySize(CompUnit(symbols, fns, links), name, body)
      ensures r.Ok? ==> body.Items? && DataKept(old(insns), insns)
    {
      hide DataKept, Represented, VarsWithin, Read, SizeOf, EnvOf, ItemsReachable, GenFn, FnFits, ElabItems,
        PrintItems, GrammaticalItems, ParamSymbols, NoLocals, NoVars, Compiled, LastHole, PrintBody, HasParam,
        BodyDone, IsForward, DeclSize;
      body := Declared;
      NoVarsDefine(u.syms, name, FnSymbol(Some(dst), tys, returnType));
      NotCompiled(u.syms, links, insns, fns, name);
      CompiledDefine(u.syms, links, insns, fns, name, FnSymbol(Some(dst), tys, returnType));
      ghost var base := insns;
      ghost var items, core;
      r, items, core := ParseFnItems(names, tys, ps);
      if !r.Ok? { return; }
      ghost var fn := Fn(|tys|, core);
      body := Items(items);
      ItemsDone(u, SizeOf(base), name, ps, tys, returnType, items, core);
      CodePlaced(symbols, links, base, fns, name, fn);
      DataKeptMore(base, insns[|base|..]);
      fns, links := fns[name := fn], links[name := EnvOf(symbols)];
    }

    /** What follows the signature of a function: nothing, machine code, or a block. */
    method ParseFnBody(name: Name, names: seq<Name>, tys: seq<Type>, ghost ps: List<Param>, ghost u: CompUnit)
        returns (r: Status, ghost body: Body)
      requires Represented() && pos <= |tokens| && 0 < labels && NoVars(u.syms) && NoLocals(insns)
        && dst == SizeOf(insns)
      requires names == Names(ps) && |tys| == |names| && u.fns == fns && (name in u.syms ==> IsForward(u.syms[name]))
      requires symbols == u.syms[name := FnSymbol(Some(dst), tys, returnType)] && LastHole(insns, Forward(name)) == None
      requires links == Relinked(u.links, name, dst) && Compiled(u.syms, links, insns, fns)
      modifies this`pos, this`values, this`dst, this`dstMark, this`nextRegister, this`frameSize, this`heads,
        this`insns, this`labels, this`symbols, this`fns, this`links, buf
      ensures r.Ok? ==>
        UnitReady() && Read(tokens, old(pos), pos, PrintBody(body)) && (body.Items? ==> GrammaticalItems(body.items))
      ensures r.Ok? ==> BodyDone(u, SizeOf(old(insns)), name, ps, tys, returnType, body, CompUnit(symbols, fns, links))
      ensures r.Ok? ==> SizeOf(insns) == SizeOf(old(insns)) + BodySize(CompUnit(symbols, fns, links), name, body)
      ensures r.Ok? ==> DataKept(old(insns), insns) && BlockPlaced(insns, symbols, DFn(name, ps, None, body))
    {
      hide Segment, DataKept, Represented, VarsWithin, Read, SizeOf, EnvOf, ItemsReachable, GenFn, FnFits, ElabItems,
        PrintItems, GrammaticalItems, ElabParams, PrintParams, PrintRet, ElabRet, Distinct, Names, ParamSymbols,
        NoLocals, NoVars, Compiled, Subst, LastHole, PrintBody, PrintType, ElabType, HasParam, Count, DataOf,
        BodyDone, DeclDerives, PrintBytes, IsForward, PrintDecl, ElabDecl, FieldMap, DeclSize;
      body := Declared;
      DataKeptSelf(insns);
      NoVarsDefine(u.syms, name, FnSymbol(Some(dst), tys, returnType));
      CompiledDefine(u.syms, links, insns, fns, name, FnSymbol(Some(dst), tys, returnType));
      if Next() == Tok(TC_SEMICOLON) {
        ReadOne(tokens, pos);
        Advance();
        DeclareForward(name, tys, u.syms);
        CompiledDefine(u.syms, links, insns, fns, name, FnSymbol(None, tys, returnType));
        DeclaredDone(u, SizeOf(insns), name, ps, tys, returnType);
        NoVarsDefine(u.syms, name, FnSymbol(None, tys, returnType));
        r := Ok;
      } else if Next() == Tok(TC_OPEN_BRACKET) {
        ghost var base := insns;
        ghost var bytes;
        r, bytes := ParseAsmBody();
        if !r.Ok? { return; }
        body := Asm(bytes);
        AsmDone(u, SizeOf(base), name, ps, tys, returnType, bytes);
        DataKeptMore(base, DataOf(bytes));
        DataAtEnd(base, bytes);
        DataPlaced(symbols, links, base, bytes, fns);
      } else {
        r, body := ParseItemsBody(name, names, tys, ps, u);
      }
    }

    /** Makes a function forward again: only its types are known. */
    method DeclareForward(name: Name, tys: seq<Type>, ghost syms: Symbols)
      requires Represented() && symbols == syms[name := FnSymbol(Some(dst), tys, returnType)]
        && LastHole(insns, Forward(name)) == None
      requires name in syms ==> IsForward(syms[name])
      modifies this`symbols, this`heads
      ensures Represented() && symbols == syms[name := FnSymbol(None, tys, returnType)]
    {
      hide Matches, Kept, LastHole, SizeOf;
      ForwardAgain(symbols, heads, insns, name, tys, returnType);
      InsideForward(symbols, buf.Length, name, tys, returnType);
      assert symbols[name := FnSymbol(None, tys, returnType)] == syms[name := FnSymbol(None, tys, returnType)];
      symbols := symbols[name := FnSymbol(None, tys, returnType)];
      heads := heads[name := None];
    }

    method ParseFn() returns (r: Status, ghost d: Decl)
      requires UnitReady()
      modifies this`pos, this`values, this`dst, this`dstMark, this`nextRegister, this`frameSize, this`heads,
        this`insns, this`labels, this`symbols, this`returnType, this`fns, this`links, buf
      ensures r.Ok? ==> UnitReady() && old(pos) < pos
      ensures r.Ok? ==>
        DeclDerives(tokens, old(CompUnit(symbols, fns, links)), SizeOf(old(insns)), old(pos), pos,
          CompUnit(symbols, fns, links), SizeOf(insns), d)
      ensures r.Ok? ==> DataKept(old(insns), insns) && BlockPlaced(insns, symbols, d)
    {
      hide Segment, DataKept, Derives, Adds, Coded, Elab, GenExpr, Represented, VarsWithin, Read, SizeOf, EnvOf,
        ItemsReachable, GenFn, FnFits, ElabItems, PrintItems, GrammaticalItems, ElabParams, PrintParams, PrintRet,
        ElabRet, Distinct, Names, ParamSymbols, NoLocals, NoVars, Compiled, Subst, LastHole, PrintBody, PrintType,
        ElabType, HasParam, Count, DataOf, BodyDone, DeclDerives, PrintBytes, IsForward, PrintDecl, ElabDecl,
        FieldMap, DeclSize;
      d := DStatic([], List.Nil);
      ghost var u, code := CompUnit(symbols, fns, links), insns;
      r := ParseToken(TC_FN);
      if !r.Ok? { return; }
      ghost var j := pos;
      var name, declared, names, tys;
      ghost var ps, t, body;
      r, name := ParseIdentifier();
      if !r.Ok? { return; }
      ReadIs(tokens, old(pos), j, [Tok(TC_FN)]);
      ReadIs(tokens, j, pos, [Id(name)]);
      ReadPair(tokens, old(pos), j, pos, Tok(TC_FN), Id(name));
      ghost var k := pos;
      r, declared := AddOrResolveFnSymbol(name);
      if !r.Ok? { return; }
      NoLocalsSubst(code, name, dst);
      DataKeptSubst(code, Forward(name), At(dst));
      ghost var resolved := insns;
      DstIs();
      r, names, tys, ps, t := ParseFnParameters(name, declared);
      if !r.Ok? { return; }
      ghost var l := pos;
      ReadBounds(tokens, k, l, [Tok(TC_OPEN)] + PrintParams(ps) + [Tok(TC_CLOSE)] + PrintRet(t));
      CompiledResolved(u.syms, links, code, fns, name, dst);
      links := Relinked(links, name, dst);
      DefinedTwice(u.syms, name, FnSymbol(Some(dst), [], None), FnSymbol(Some(dst), tys, returnType));
      r, body := ParseFnBody(name, names, tys, ps, u);
      if !r.Ok? { return; }
      ReadBounds(tokens, l, pos, PrintBody(body));
      d := DFn(name, ps, t, body);
      DataKeptTrans(code, resolved, insns);
      DerivesFn(tokens, u, SizeOf(code), old(pos), k, l, pos, name, ps, tys, t, returnType, body,
        CompUnit(symbols, fns, links), SizeOf(insns));
    }

    method ParseConstDecl() returns (r: Status, ghost d: Decl)
      requires UnitReady()
      modifies this`pos, this`symbols
      ensures r.Ok? ==> UnitReady() && old(pos) < pos
      ensures r.Ok? ==>
        DeclDerives(tokens, old(CompUnit(symbols, fns, links)), SizeOf(old(insns)), old(pos), pos,
          CompUnit(symbols, fns, links), SizeOf(insns), d)
      ensures r.Ok? ==> DataKept(old(insns), insns) && BlockPlaced(insns, symbols, d)
    {
      hide Segment, DataKept, Represented, VarsWithin, SizeOf, EnvOf, GenFn, FnFits, ElabParams, PrintItem,
        PrintParams, Distinct, Names, NoLocals, NoVars, Compiled, PrintType, ElabType, Count, DataOf, DeclDerives,
        DeclsDerive, PrintBytes, PrintDecl, ElabDecl, FieldMap, DeclSize;
      d := DStatic([], List.Nil);
      ghost var u := CompUnit(symbols, fns, links);
      ghost var x, t, ty, v;
      r, x, t, ty, v := ParseConst();
      if !r.Ok? { return; }
      d := DConst(x, t, v);
      DataKeptSelf(insns);
      DerivesConstDecl(tokens, u, SizeOf(insns), old(pos), pos, x, t, ty, v);
      CompiledDefine(u.syms, links, insns, fns, x, ConstSymbol(v, ty));
      NoVarsDefine(u.syms, x, ConstSymbol(v, ty));
    }

    /** static, the name, = and [. */
    method ParseStaticStart() returns (r: Status, name: Name)
      requires Represented() && pos <= |tokens|
      modifies this`pos, this`symbols
      ensures r.Ok? ==> Represented() && name !in old(symbols) && symbols == old(symbols)[name := StaticSymbol(dst)]
      ensures r.Ok? ==> pos == old(pos) + 4 <= |tokens|
      ensures r.Ok? ==> tokens[old(pos)..pos] == [Tok(TC_STATIC), Id(name), Tok(TC_ASSIGN), Tok(TC_OPEN_BRACKET)]
    {
      hide Represented, SizeOf;
      DstIs();
      name := [];
      r := ParseToken(TC_STATIC);
      if !r.Ok? { return; }
      r, name := ParseIdentifier();
      if !r.Ok? { return; }
      StaticInside(name, dst, buf.Length);
      r := AddSymbol(name, StaticSymbol(dst));
      if !r.Ok? { return; }
      r := ParseToken(TC_ASSIGN);
      if !r.Ok? { return; }
      r := ParseToken(TC_OPEN_BRACKET);
      if !r.Ok? { return; }
      FourTokens(tokens, old(pos));
    }

    /** The bytes of a static block, up to the semicolon. */
    method ParseStaticBytes() returns (r: Status, ghost bytes: List<u64>, ghost k: nat)
      requires Represented() && pos <= |tokens|
      modifies this`pos, this`dst, this`insns, buf
      ensures r.Ok? ==>
        Represented() && insns == old(insns) + DataOf(bytes) && bytes.Cons? && old(pos) <= k && k + 2 == pos <= |tokens|
      ensures r.Ok? ==>
        tokens[old(pos)..k] == PrintBytes(bytes) && tokens[k..pos] == [Tok(TC_CLOSE_BRACKET), Tok(TC_SEMICOLON)]
    {
      hide Represented, DataOf, PrintBytes;
      ghost var base, j := insns, pos;
      ghost var b: u64;
      bytes, k := List.Nil, pos;
      r, b := ParseByte();
      if !r.Ok? { return; }
      NoBytes(base);
      BytesSnoc(List.Nil, b, base);
      bytes := Snoc(List.Nil, b);
      while Next() == Tok(TC_COMMA)
        invariant Represented() && j <= pos <= |tokens| && tokens[j..pos] == PrintBytes(bytes) && bytes.Cons?
        invariant insns == base + DataOf(bytes)
        decreases |tokens| - pos
      {
        k := pos;
        Advance();
        r, b := ParseByte();
        if !r.Ok? { return; }
        CutAt(tokens, j, k, pos);
        BytesSnoc(bytes, b, base);
        bytes := Snoc(bytes, b);
      }
      k := pos;
      r := ParseToken(TC_CLOSE_BRACKET);
      if !r.Ok? { return; }
      r := ParseToken(TC_SEMICOLON);
      if !r.Ok? { return; }
      Split(tokens, k, k + 1, k + 2);
    }

    method ParseStatic() returns (r: Status, ghost d: Decl)
      requires UnitReady()
      modifies this`pos, this`symbols, this`dst, this`insns, buf
      ensures r.Ok? ==> UnitReady() && old(pos) < pos
      ensures r.Ok? ==>
        DeclDerives(tokens, old(CompUnit(symbols, fns, links)), SizeOf(old(insns)), old(pos), pos,
          CompUnit(symbols, fns, links), SizeOf(insns), d)
      ensures r.Ok? ==> DataKept(old(insns), insns) && BlockPlaced(insns, symbols, d)
    {
      hide Segment, DataKept, Represented, VarsWithin, SizeOf, EnvOf, GenFn, FnFits, ElabParams, PrintItem,
        PrintParams, Distinct, Names, NoLocals, NoVars, Compiled, PrintType, ElabType, Count, DataOf, DeclDerives,
        DeclsDerive, PrintBytes, PrintDecl, ElabDecl, FieldMap, DeclSize;
      d := DStatic([], List.Nil);
      ghost var u, base := CompUnit(symbols, fns, links), insns;
      DstIs();
      var name;
      r, name := ParseStaticStart();
      if !r.Ok? { return; }
      ghost var j, bytes, k := pos, List.Nil, 0;
      r, bytes, k := ParseStaticBytes();
      if !r.Ok? { return; }
      d := DStatic(name, bytes);
      DataKeptMore(base, DataOf(bytes));
      DataAtEnd(base, bytes);
      DerivesStatic(tokens, u, SizeOf(base), old(pos), j, k, name, bytes);
      NoVarsDefine(u.syms, name, StaticSymbol(SizeOf(base)));
      DataPlaced(u.syms, links, base, bytes, fns);
      CompiledDefine(u.syms, links, insns, fns, name, StaticSymbol(SizeOf(base)));
    }

    method ParseStruct() returns (r: Status, ghost d: Decl)
      requires UnitReady()
      modifies this`pos, this`symbols
      ensures r.Ok? ==> UnitReady() && old(pos) < pos
      ensures r.Ok? ==>
        DeclDerives(tokens, old(CompUnit(symbols, fns, links)), SizeOf(old(insns)), old(pos), pos,
          CompUnit(symbols, fns, links), SizeOf(insns), d)
      ensures r.Ok? ==> DataKept(old(insns), insns) && BlockPlaced(insns, symbols, d)
    {
      hide Segment, DataKept, Represented, VarsWithin, SizeOf, EnvOf, GenFn, FnFits, ElabParams, PrintItem,
        PrintParams, Distinct, Names, NoLocals, NoVars, Compiled, PrintType, ElabType, Count, DataOf, DeclDerives,
        DeclsDerive, PrintBytes, PrintDecl, ElabDecl, FieldMap, DeclSize;
      d := DStatic([], List.Nil);
      ghost var u := CompUnit(symbols, fns, links);
      r := ParseToken(TC_STRUCT);
      if !r.Ok? { return; }
      var name, names, tys;
      ghost var ps;
      r, name := ParseIdentifier();
      if !r.Ok? { return; }
      StructInside(name, buf.Length);
      r := AddSymbol(name, StructSymbol(map[], 0));
      if !r.Ok? { return; }
      r := ParseToken(TC_OPEN_BLOCK);
      if !r.Ok? { return; }
      ghost var j := pos;
      ThreeTokens(tokens, old(pos));
      r, names, tys, ps := ParseParamList(TC_CLOSE_BLOCK);
      if !r.Ok? { return; }
      var sym := StructSymbol(FieldMap(names, tys, 0), |tys|);
      Redefine(name, sym);
      d := DStruct(name, ps);
      DataKeptSelf(insns);
      DerivesStruct(tokens, u, SizeOf(insns), old(pos), j, pos, name, ps, tys);
      DefinedTwice(u.syms, name, StructSymbol(map[], 0), sym);
      CompiledDefine(u.syms, links, insns, fns, name, sym);
      NoVarsDefine(u.syms, name, sym);
    }

    /** Completes the symbol of a struct. */
    method Redefine(name: Name, sym: Symbol)
      requires Represented() && name in symbols && symbols[name].StructSymbol? && sym.StructSymbol?
      modifies this`symbols
      ensures Represented() && symbols == old(symbols)[name := sym]
    {
      hide Matches, Kept, LastHole;
      assert Forwards(symbols[name := sym]) == Forwards(symbols);
      symbols := symbols[name := sym];
    }

    /** tc_parse_program: declarations up to the end of the tokens. */
    method ParseProgram() returns (r: Status, ghost ds: List<Decl>)
      requires UnitReady()
      modifies this`pos, this`values, this`dst, this`dstMark, this`nextRegister, this`frameSize, this`heads,
        this`insns, this`labels, this`symbols, this`returnType, this`fns, this`links, buf
      ensures r.Ok? ==> UnitReady() && Next() == Tok(TC_END)
      ensures r.Ok? ==>
        DeclsDerive(tokens, old(CompUnit(symbols, fns, links)), SizeOf(old(insns)), old(pos), pos,
          CompUnit(symbols, fns, links), SizeOf(insns), ds)
      ensures r.Ok? ==> BlocksPlaced(insns, symbols, ds)
    {
      hide UnitReady, SizeOf, DeclDerives, DeclsDerive, DataKept, BlockPlaced, Later;
      r, ds := Ok, List.Nil;
      ghost var u, code := CompUnit(symbols, fns, links), insns;
      UnitBounds();
      NoDecls(tokens, u, SizeOf(code), pos);
      while true
        invariant r.Ok? && UnitReady() && pos <= |tokens|
        invariant DeclsDerive(tokens, u, SizeOf(code), old(pos), pos, CompUnit(symbols, fns, links), SizeOf(insns), ds)
        invariant BlocksPlaced(insns, symbols, ds)
        decreases |tokens| - pos
      {
        ghost var d;
        ghost var p, u1, code1 := pos, CompUnit(symbols, fns, links), insns;
        UnitBounds();
        if Next() == Tok(TC_FN) {
          r, d := ParseFn();
        } else if Next() == Tok(TC_STRUCT) {
          r, d := ParseStruct();
        } else if Next() == Tok(TC_STATIC) {
          r, d := ParseStatic();
        } else if Next() == Tok(TC_CONST) {
          r, d := ParseConstDecl();
        } else {
          if Next() != Tok(TC_END) { r := Panic(23); }
          return;
        }
        if !r.Ok? { return; }
        UnitBounds();
        DeclLater(u1, SizeOf(code1), d, p, pos, CompUnit(symbols, fns, links), SizeOf(insns));
        BlocksLater(code1, insns, u1.syms, symbols, ds);
        BlocksSnoc(insns, symbols, ds, d);
        DeclsDeriveSnoc(tokens, u, SizeOf(code), old(pos), p, u1, SizeOf(code1), ds, pos,
          CompUnit(symbols, fns, links), SizeOf(insns), d);
        ds := Snoc(ds, d);
      }
    }

    /** Symbols stay. */
    lemma DeclLater(u: CompUnit, at: nat, d: Decl, i: nat, j: nat, u1: CompUnit, at1: nat)
      requires DeclDerives(tokens, u, at, i, j, u1, at1, d) && NoVars(u.syms)
      ensures Later(u.syms, u1.syms)
    {
      hide ElabDecl, Read, GrammaticalDecl, DeclSize, PrintDecl, NoVars;
      DeclSymbols(u, at, d);
    }

    lemma UnitBounds()
      requires UnitReady()
      ensures pos <= |tokens| && NoVars(symbols)
    {
      hide Represented, NoVars, NoLocals, Compiled;
    }

    /** tc_check_symbols. */
    method CheckSymbols() returns (r: Status)
      ensures r.Ok? <==> Forwards(symbols) == {}
    {
      if f :| f in symbols && IsForward(symbols[f]) {
        assert f in Forwards(symbols);
        return Panic(32);
      }
      r := Ok;
    }

    constructor (ts: seq<Token>, code: array<u8>)
      requires code.Length < 0x8000_0000
      ensures tokens == ts && buf == code && UnitReady() && pos == 0 && symbols == map[] && fns == map[]
        && insns == [] && links == map[]
    {
      tokens, buf, pos, values, dst, dstMark, nextRegister, frameSize := ts, code, 0, [], 0, 0, 0, 0;
      symbols, heads, returnType, insns, labels, fns, links := map[], map[], None, [], 1, map[], map[];
      new;
      hide SizeOf;
      assert code[..0] == [];
    }
  }

  lemma TypesCons(vs: seq<Value>, k: nat, tys: seq<Type>, i: nat)
    requires k < |vs| && i < |tys| && AllHaveTypes(vs[k + 1..], tys[i + 1..])
    requires vs[k].origin != FromVoid && HasType(vs[k], tys[i])
    ensures AllHaveTypes(vs[k..], tys[i..])
  {
    assert vs[k..] == [vs[k]] + vs[k + 1..] && tys[i..] == [tys[i]] + tys[i + 1..];
  }

  lemma SaveNext(code: seq<Insn>, n: nat)
    ensures code + SaveInsns(n + 1) == code + [Push(High(n))] + SaveInsns(n)
  {
    hide High;
  }

  lemma CutAt(ts: seq<Token>, i: nat, j: nat, k: nat)
    requires i <= j < k <= |ts|
    ensures ts[i..k] == ts[i..j] + [ts[j]] + ts[j + 1..k]
  {
  }

  // ----- type prefixes -----

  ghost function ListOf(s: seq<bool>): List<bool> { if s == [] then List.Nil else List.Cons(s[0], ListOf(s[1..])) }

  lemma {:induction false} AndsSnoc(s: seq<bool>, b: bool)
    ensures PrintAnds(ListOf(s + [b])) == PrintAnds(ListOf(s)) + [Tok(if b then TC_AND else TC_BIT_AND)]
    ensures Dim(ListOf(s + [b])) == Dim(ListOf(s)) + (if b then 2 else 1)
    decreases |s|
  {
    if s != [] {
      assert (s + [b])[1..] == s[1..] + [b];
      AndsSnoc(s[1..], b);
    } else {
      assert [b][1..] == [];
    }
  }

  // ----- the chains of functions declared forward -----

  /** For every function declared forward, its head is the last place that waits for it; and no place waits for
      any other function. */
  ghost predicate HeadsOk(syms: Symbols, heads: map<Name, Option<nat>>, code: seq<Insn>) {
    && (forall f :: f in syms && IsForward(syms[f]) ==> f in heads && heads[f] == LastHole(code, Forward(f)))
    && ForwardsIn(code, Forwards(syms))
  }

  /** The places the symbols name are in the buffer. */
  predicate SymbolsInside(syms: Symbols, size: nat) {
    forall x :: x in syms ==>
      (syms[x].StaticSymbol? ==> syms[x].offset <= size)
      && (syms[x].FnSymbol? && syms[x].target.Some? ==> syms[x].target.value <= size)
  }

  predicate NotForward(i: Insn) { IsJump(i) && i.target.Ref? ==> i.target.chain.Local? }

  lemma CallTargetIs(syms: Symbols, f: Name)
    requires f in syms && syms[f].FnSymbol?
    ensures FnTarget(EnvOf(syms), f) == if syms[f].target.None? then Ref(Forward(f)) else At(syms[f].target.value)
  {
  }

  lemma HeadIs(syms: Symbols, heads: map<Name, Option<nat>>, code: seq<Insn>, f: Name)
    requires HeadsOk(syms, heads, code) && f in syms && IsForward(syms[f])
    ensures f in heads && heads[f] == LastHole(code, Forward(f))
  {
  }

  /** A new call to a function declared forward is the last of its chain. */
  lemma HeadsCall(syms: Symbols, heads: map<Name, Option<nat>>, code: seq<Insn>, f: Name, i: Insn)
    requires HeadsOk(syms, heads, code) && f in syms && IsForward(syms[f]) && i == Call(Ref(Forward(f)))
    ensures HeadsOk(syms, heads[f := Some(SizeOf(code) + 1)], code + [i])
  {
    hide LastHole, SizeOf, Subst;
    var h := heads[f := Some(SizeOf(code) + 1)];
    forall g | g in syms && IsForward(syms[g]) ensures g in h && h[g] == LastHole(code + [i], Forward(g)) {
      LastHoleSnoc(code, i, Forward(g));
    }
  }

  lemma WaitCallIs(f: Name, pc: nat, code: seq<Insn>, labels: nat, size: nat)
    requires pc == SizeOf(code)
    ensures var i, h := Call(Ref(Forward(f))), LastHole(code, Forward(f));
      Shaped(i) && Inside(i, size) && LabelBelow(i, labels)
      && InsnBytes(i, pc, Previous(code, i)) == [0xe8] + LE32(if h.None? then 0 else pc + 1 - h.value)
  {
    hide LE32, LastHole;
    WaitIs(Call(Ref(Forward(f))), Forward(f), pc, code, labels, size);
  }

  lemma MovIs(saved: nat, pc: nat)
    requires 0 < saved < 8
    ensures var i := Alu(Mov, High(saved), R8, true);
      Shaped(i) && !IsJump(i) && PlainBytes(i, pc) == W24(0x894d, 0xc0 + saved)
    ensures ResultInsns(saved) == [Alu(Mov, High(saved), R8, true)] && ResultInsns(0) == []
  {
    hide W24;
  }

  lemma HeadsSnoc(syms: Symbols, heads: map<Name, Option<nat>>, code: seq<Insn>, i: Insn)
    requires HeadsOk(syms, heads, code) && NotForward(i)
    ensures HeadsOk(syms, heads, code + [i])
  {
    forall f | f in syms && IsForward(syms[f]) ensures f in heads && heads[f] == LastHole(code + [i], Forward(f)) {
      LastHoleSnoc(code, i, Forward(f));
    }
  }

  lemma HeadsInit(syms: Symbols, heads: map<Name, Option<nat>>, code: seq<Insn>, i: Insn)
    requires HeadsOk(syms, heads, code + [i]) && !IsJump(i)
    ensures HeadsOk(syms, heads, code)
  {
    forall f | f in syms && IsForward(syms[f]) ensures f in heads && heads[f] == LastHole(code, Forward(f)) {
      LastHoleSnoc(code, i, Forward(f));
    }
    forall k | 0 <= k < |code| ensures code[k] == (code + [i])[k] {
    }
  }

  lemma HeadsSubst(syms: Symbols, heads: map<Name, Option<nat>>, code: seq<Insn>, l: Label, target: int)
    requires HeadsOk(syms, heads, code) && (l.Forward? ==> l.name !in Forwards(syms))
    ensures HeadsOk(syms, heads, Subst(code, l, At(target)))
  {
    forall f | f in syms && IsForward(syms[f])
      ensures f in heads && heads[f] == LastHole(Subst(code, l, At(target)), Forward(f))
    {
      SubstOther(code, l, target, Forward(f));
    }
    ForwardsInSubst(code, Forwards(syms), l, target);
  }

  // ----- words in the buffer -----

  lemma LoadedWord(all: seq<u8>, size: nat, p: nat)
    requires p + 4 <= size <= |all|
    ensures From32([all[p], all[p + 1], all[p + 2], all[p + 3]]) == From32(all[..size][p..p + 4])
  {
    assert all[..size][p..p + 4] == [all[p], all[p + 1], all[p + 2], all[p + 3]];
  }

  lemma PatchedPrefix(all: seq<u8>, size: nat, p: nat, w: seq<u8>)
    requires p + 4 <= size <= |all| && |w| == 4
    ensures Patch(all, p, w)[..size] == Patch(all[..size], p, w)
  {
  }

  lemma NotWaiting(code: seq<Insn>, i: Insn, l: Label)
    requires !IsJump(i)
    ensures LastHole(code + [i], l) == LastHole(code, l)
  {
    LastHoleSnoc(code, i, l);
  }

  // ----- the bytes of each instruction -----

  lemma HeadsAdd(syms: Symbols, heads: map<Name, Option<nat>>, code: seq<Insn>, x: Name, sym: Symbol)
    requires HeadsOk(syms, heads, code) && x !in syms && !IsForward(sym)
    ensures HeadsOk(syms[x := sym], heads, code)
  {
    hide LastHole;
    assert Forwards(syms[x := sym]) == Forwards(syms);
  }

  lemma InsideAdd(syms: Symbols, size: nat, x: Name, sym: Symbol)
    requires SymbolsInside(syms, size) && SymbolsInside(map[x := sym], size)
    ensures SymbolsInside(syms[x := sym], size)
  {
    assert x in map[x := sym] && map[x := sym][x] == sym;
  }

  lemma InsideDefine(syms: Symbols, size: nat, f: Name, at: nat, params: seq<Type>, ret: Option<Type>)
    requires SymbolsInside(syms, size) && at <= size
    ensures SymbolsInside(syms[f := FnSymbol(Some(at), params, ret)], size)
  {
  }

  /** Once the calls that wait for it are resolved, a function is no longer forward. */
  lemma HeadsDefine(syms: Symbols, heads: map<Name, Option<nat>>, code: seq<Insn>, f: Name, at: nat,
                    params: seq<Type>, ret: Option<Type>)
    requires HeadsOk(syms, heads, code)
    ensures HeadsOk(syms[f := FnSymbol(Some(at), params, ret)], heads, Subst(code, Forward(f), At(at)))
  {
    hide LastHole, Subst;
    var syms1, code1 := syms[f := FnSymbol(Some(at), params, ret)], Subst(code, Forward(f), At(at));
    forall g | g in syms1 && IsForward(syms1[g]) ensures g in heads && heads[g] == LastHole(code1, Forward(g)) {
      SubstOther(code, Forward(f), at, Forward(g));
    }
    ForwardsInSubst(code, Forwards(syms), Forward(f), at);
    assert Forwards(syms1) == Forwards(syms) - {f};
  }

  lemma NothingAfter(code: seq<Insn>)
    ensures code + [] == code
  {
  }

  lemma HeadsRetype(syms: Symbols, heads: map<Name, Option<nat>>, code: seq<Insn>, f: Name, at: nat,
                    params: seq<Type>, ret: Option<Type>)
    requires HeadsOk(syms, heads, code) && f in syms && !IsForward(syms[f])
    ensures HeadsOk(syms[f := FnSymbol(Some(at), params, ret)], heads, code)
  {
    hide LastHole;
    assert Forwards(syms[f := FnSymbol(Some(at), params, ret)]) == Forwards(syms);
  }

  lemma NewIsFree(syms: Symbols, heads: map<Name, Option<nat>>, code: seq<Insn>, f: Name)
    requires HeadsOk(syms, heads, code) && f !in syms
    ensures Free(code, Forward(f))
  {
  }

  lemma DataIs(b: u8, pc: nat)
    ensures Shaped(Data(b)) && !IsJump(Data(b)) && PlainBytes(Data(b), pc) == [b]
  {
  }

  lemma ForwardAgain(syms: Symbols, heads: map<Name, Option<nat>>, code: seq<Insn>, f: Name, params: seq<Type>,
                     ret: Option<Type>)
    requires HeadsOk(syms, heads, code) && LastHole(code, Forward(f)) == None && f in syms && !IsForward(syms[f])
    ensures HeadsOk(syms[f := FnSymbol(None, params, ret)], heads[f := None], code)
  {
    hide LastHole;
    assert Forwards(syms[f := FnSymbol(None, params, ret)]) == Forwards(syms) + {f};
  }

  lemma InsideForward(syms: Symbols, size: nat, f: Name, params: seq<Type>, ret: Option<Type>)
    requires SymbolsInside(syms, size)
    ensures SymbolsInside(syms[f := FnSymbol(None, params, ret)], size)
  {
  }

  lemma StaticInside(x: Name, at: nat, size: nat)
    requires at <= size
    ensures SymbolsInside(map[x := StaticSymbol(at)], size)
  {
  }

  lemma StructInside(x: Name, size: nat)
    ensures SymbolsInside(map[x := StructSymbol(map[], 0)], size)
  {
  }

  lemma ThreeTokens(ts: seq<Token>, i: nat)
    requires i + 3 <= |ts|
    ensures ts[i..i + 3] == ts[i..i + 1] + ts[i + 1..i + 2] + ts[i + 2..i + 3]
  {
    Split(ts, i, i + 1, i + 2);
    Split(ts, i, i + 2, i + 3);
  }

  lemma FourTokens(ts: seq<Token>, i: nat)
    requires i + 4 <= |ts|
    ensures ts[i..i + 4] == ts[i..i + 1] + ts[i + 1..i + 2] + ts[i + 2..i + 3] + ts[i + 3..i + 4]
  {
    ThreeTokens(ts, i);
    Split(ts, i, i + 3, i + 4);
  }

  lemma NothingKept(size: nat, labels: nat)
    ensures Kept([], size, labels + 1)
  {
  }

  lemma TwoLast(values: seq<Value>, x: Value, y: Value)
    ensures var all := values + [x] + [y];
      |all| >= 2 && all[|all| - 2] == x && all[|all| - 1] == y && all[..|all| - 2] == values
  {
  }

  lemma LastRelOne(c: Comparison)
    ensures LastRel(List.Cons(c, List.Nil)) == c.rel
  {
  }

  lemma NegateIs(rel: RelToken)
    ensures TC_LT + TC_GE - rel == Negate(rel)
  {
  }

  lemma JumpHoles(code: seq<Insn>, rel: RelToken, id: nat, other: nat)
    requires id != other
    ensures LastHole(code + JumpInsns(rel, Ref(Local(id))), Local(other)) == LastHole(code, Local(other))
  {
    JumpFree(rel, Ref(Local(id)), Local(other));
    HolesSame(code, JumpInsns(rel, Ref(Local(id))), Local(other));
  }

  lemma PlainIs(i: Insn, pc: nat, previous: Option<nat>)
    requires Shaped(i) && !IsJump(i)
    ensures InsnBytes(i, pc, previous) == PlainBytes(i, pc)
  {
  }

  lemma PlainKept(i: Insn, size: nat, labels: nat)
    requires !IsJump(i) && !i.LeaRip?
    ensures Inside(i, size) && LabelBelow(i, labels) && NotForward(i)
  {
  }

  lemma PushIs(n: nat, pc: nat)
    requires n < MAX_REGISTERS
    ensures var i := Push(High(n)); Shaped(i) && !IsJump(i) && PlainBytes(i, pc) == W16(0x5041 + 256 * n)
    ensures var i := Pop(High(n)); Shaped(i) && !IsJump(i) && PlainBytes(i, pc) == W16(0x5841 + 256 * n)
  {
  }

  lemma CstIs(z: nat, value: u64, pc: nat)
    requires z < MAX_REGISTERS
    ensures var i := CstInsn(z, value);
      Shaped(i) && !IsJump(i) && !i.LeaRip?
      && PlainBytes(i, pc) ==
           if value == 0 then W24(0x314d, 0xc0 + 8 * z + z)
           else if value <= 0xFFFFFFFF then W16(0xB841 + 256 * z) + LE32(value)
           else W16(0xB849 + 256 * z) + LE64(value)
  {
    hide W16, W24, LE32, LE64;
  }

  lemma LeaIs(z: nat, address: int, pc: nat, size: nat, previous: Option<nat>)
    requires z < MAX_REGISTERS
    ensures var i := LeaRip(High(z), address);
      Shaped(i) && InsnBytes(i, pc, previous) == W24(0x8d4c, 0x05 + 8 * z) + LE32(address - (pc + 7))
      && (0 <= address <= size ==> Inside(i, size)) && (forall labels: nat :: LabelBelow(i, labels)) && NotForward(i)
  {
    hide W24, LE32;
  }

  lemma AluIs(op: AluOp, z: nat, y: nat, pc: nat)
    requires z < MAX_REGISTERS && y < MAX_REGISTERS && op in {Add, Sub, Imul, And, Or}
    ensures var i := Alu(op, High(z), High(y), true);
      Shaped(i) && !IsJump(i)
      && PlainBytes(i, pc) ==
           match op
           case Add => W24(0x034d, 0xc0 + 8 * z + y)
           case Sub => W24(0x2b4d, 0xc0 + 8 * z + y)
           case And => W24(0x234d, 0xc0 + 8 * z + y)
           case Or => W24(0x0b4d, 0xc0 + 8 * z + y)
           case _ => LE32(0xc0af0f4d + 0x8000000 * z + 0x1000000 * y)
  {
    hide W24, LE32;
  }

  lemma DivideIs(z: nat, y: nat, pc: nat)
    requires z < 8 && y < 8
    ensures var i := Alu(Xor, RDX, RDX, false); Shaped(i) && !IsJump(i) && PlainBytes(i, pc) == W16(0xd231)
    ensures var i := Alu(Mov, RAX, High(z), true);
      Shaped(i) && !IsJump(i) && PlainBytes(i, pc) == W24(0x894c, 0xc0 + 8 * z)
    ensures var i := Div(High(y)); Shaped(i) && !IsJump(i) && PlainBytes(i, pc) == W24(0xf749, 0xf0 + y)
    ensures var i := Alu(Mov, High(z), RAX, true); Shaped(i) && !IsJump(i) && PlainBytes(i, pc) == W24(0x8949, 0xc0 + z)
  {
    hide W24, W16;
  }

  lemma ShiftIs(z: nat, y: nat, pc: nat)
    requires z < 8 && y < 8
    ensures var i := Alu(Mov, RCX, High(y), false);
      Shaped(i) && !IsJump(i) && PlainBytes(i, pc) == W24(0x8944, 0xc1 + 8 * y)
    ensures var i := Shl(High(z)); Shaped(i) && !IsJump(i) && PlainBytes(i, pc) == W24(0xd349, 0xe0 + z)
    ensures var i := Shr(High(z)); Shaped(i) && !IsJump(i) && PlainBytes(i, pc) == W24(0xd349, 0xe8 + z)
  {
    hide W24;
  }

  lemma LoadIs(z: nat, field: nat, pc: nat)
    requires z < 8
    ensures var i := Load(High(z), High(z), 8 * field);
      Shaped(i) && !IsJump(i) && PlainBytes(i, pc) == MemInsn(0x8b4d, 8 * z + z, if z == 4 then 0x24 else 0, field)
  {
    hide MemInsn;
  }

  lemma StoreIs(field: nat, pc: nat)
    ensures var i := Store(R8, 8 * field, R9);
      Shaped(i) && !IsJump(i) && PlainBytes(i, pc) == MemInsn(0x894d, 0x8, 0, field)
  {
    hide MemInsn;
  }

  lemma AddIs(z: nat, field: nat, pc: nat)
    requires z < 8
    ensures field != 0 ==>
      var i := AddImm(High(z), 8 * field);
        Shaped(i) && !IsJump(i) && PlainBytes(i, pc) == IncrementInsn(0x8349, 0xc0 + z, field)
    ensures IncrementInsn(0x8349, 0xc0 + z, 0) == []
  {
    if field != 0 { hide IncrementInsn; }
  }

  lemma ReturnIs(fs: nat, pc: nat)
    ensures fs != 0 ==>
      var i := AddImm(RSP, 8 * fs); Shaped(i) && !IsJump(i) && PlainBytes(i, pc) == IncrementInsn(0x8348, 0xc4, fs)
    ensures IncrementInsn(0x8348, 0xc4, 0) == []
    ensures Shaped(Ret) && !IsJump(Ret) && forall p :: PlainBytes(Ret, p) == [0xc3]
  {
  }

  lemma StackIs(z: nat, slot: nat, pc: nat)
    requires z < 8
    ensures var i := Load(High(z), RSP, 8 * slot);
      Shaped(i) && !IsJump(i) && PlainBytes(i, pc) == MemInsn(0x8b4c, 0x04 + 8 * z, 0x24, slot)
    ensures var i := LeaMem(High(z), RSP, 8 * slot);
      Shaped(i) && !IsJump(i) && PlainBytes(i, pc) == MemInsn(0x8d4c, 0x04 + 8 * z, 0x24, slot)
    ensures var i := Store(RSP, 8 * slot, R8);
      Shaped(i) && !IsJump(i) && PlainBytes(i, pc) == MemInsn(0x894c, 0x04, 0x24, slot)
  {
    hide MemInsn;
  }

  lemma KeptInit(init: seq<Insn>, i: Insn, size: nat, labels: nat)
    requires Kept(init + [i], size, labels)
    ensures Kept(init, size, labels)
  {
    hide Inside, LabelBelow;
    forall k | 0 <= k < |init| ensures Inside(init[k], size) && LabelBelow(init[k], labels) {
      assert (init + [i])[k] == init[k];
    }
  }

  lemma CmpIs(pc: nat, previous: Option<nat>)
    ensures var i := Cmp(R8, R9);
      Shaped(i) && !IsJump(i) && InsnBytes(i, pc, previous) == [0x4d, 0x39, 0xc8]
    ensures LE32(0x0fc8394d) == [0x4d, 0x39, 0xc8, 0x0f]
  {
  }

  lemma JumpInsnsAre(rel: RelToken, l: Label, code: seq<Insn>)
    ensures code + JumpInsns(rel, Ref(l)) == code + [Cmp(R8, R9)] + [Jcc(CondOf(rel), Ref(l))]
  {
  }

  lemma WaitIs(i: Insn, l: Label, pc: nat, code: seq<Insn>, labels: nat, size: nat)
    requires IsJump(i) && i.target == Ref(l) && pc == SizeOf(code)
    ensures var h := LastHole(code, l);
      Shaped(i) && Inside(i, size) && Waits(i, l)
      && (l.Local? ==> NotForward(i) && (l.id < labels ==> LabelBelow(i, labels)))
      && InsnBytes(i, pc, Previous(code, i))
         == JumpOpcode(i) + LE32(if h.None? then 0 else pc + |JumpOpcode(i)| - h.value)
  {
    hide LE32, JumpOpcode;
  }

  lemma JccIs(rel: RelToken, l: Label, pc: nat, code: seq<Insn>, labels: nat, size: nat)
    requires pc == SizeOf(code) && l.Local? && l.id < labels
    ensures var i, h := Jcc(CondOf(rel), Ref(l)), LastHole(code, l);
      Shaped(i) && Inside(i, size) && LabelBelow(i, labels) && Waits(i, l) && NotForward(i) && IsJump(i)
      && |JumpOpcode(i)| == 2
      && InsnBytes(i, pc, Previous(code, i))
         == [0x0f, [0x82, 0x84, 0x87, 0x86, 0x85, 0x83][rel - 12]] + LE32(if h.None? then 0 else pc + 2 - h.value)
  {
    hide LE32, LastHole;
    WaitIs(Jcc(CondOf(rel), Ref(l)), l, pc, code, labels, size);
  }

  lemma JmpIs(l: Label, pc: nat, code: seq<Insn>, labels: nat, size: nat)
    requires pc == SizeOf(code) && l.Local? && l.id < labels
    ensures var i, h := Jmp(Ref(l)), LastHole(code, l);
      Shaped(i) && Inside(i, size) && LabelBelow(i, labels) && Waits(i, l) && NotForward(i) && IsJump(i)
      && |JumpOpcode(i)| == 1
      && InsnBytes(i, pc, Previous(code, i)) == [0xe9] + LE32(if h.None? then 0 else pc + 1 - h.value)
  {
    hide LE32, LastHole;
    WaitIs(Jmp(Ref(l)), l, pc, code, labels, size);
  }

  /** A jump or call to a known place. */
  lemma BackIs(i: Insn, target: nat, opcode: u8, pc: nat, code: seq<Insn>, size: nat)
    requires (i == Jmp(At(target)) && opcode == 0xe9) || (i == Call(At(target)) && opcode == 0xe8)
    ensures Shaped(i) && NotForward(i) && (forall labels: nat :: LabelBelow(i, labels))
      && (target <= size ==> Inside(i, size))
    ensures InsnBytes(i, pc, Previous(code, i)) == [opcode] + LE32(target - (pc + 5))
  {
    hide LE32;
  }
}
