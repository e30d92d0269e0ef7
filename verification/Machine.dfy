/**
 * The packet filter machine: opcodes, one-statement semantics, and the
 * interpreter over a flat instruction array.
 */
module Machine {
  import opened Words

  const MEMWORDS: nat := 16

  // ---------------------------------------------------------------- opcodes

  datatype Size = W | H | B
  datatype Src = K | X
  datatype AluOp = Add | Sub | Mul | Div | Or_ | And_ | Lsh | Rsh | Mod | Xor_
  datatype JmpOp = Jeq | Jgt | Jge | Jset

  /** Every operation the machine has, and the Nop that stands for a deleted statement. */
  datatype Code =
    | Nop
    | LdAbs(size: Size) | LdInd(size: Size) | LdLen | LdImm | LdMem
    | LdxImm | LdxMem | LdxLen | LdxMsh
    | St | Stx
    | Alu(op: AluOp, src: Src) | Neg
    | Tax | Txa
    | Ja | Jmp(jop: JmpOp, src: Src)
    | RetK | RetA

  datatype Stmt = Stmt(code: Code, k: Word)

  function SizeBits(z: Size): nat { match z case W => 0x00 case H => 0x08 case B => 0x10 }
  function SrcBits(s: Src): nat { match s case K => 0x00 case X => 0x08 }

  function AluBits(op: AluOp): nat
  {
    match op
    case Add => 0x00 case Sub => 0x10 case Mul => 0x20 case Div => 0x30 case Or_ => 0x40
    case And_ => 0x50 case Lsh => 0x60 case Rsh => 0x70 case Mod => 0x90 case Xor_ => 0xa0
  }

  function JmpBits(op: JmpOp): nat
  {
    match op case Jeq => 0x10 case Jgt => 0x20 case Jge => 0x30 case Jset => 0x40
  }

  /** The opcode number of an operation. A Nop has none; it is never emitted. */
  function Encode(c: Code): nat
    requires !c.Nop?
  {
    match c
    case LdAbs(z) => 0x20 + SizeBits(z)
    case LdInd(z) => 0x40 + SizeBits(z)
    case LdLen => 0x80
    case LdImm => 0x00
    case LdMem => 0x60
    case LdxImm => 0x01
    case LdxMem => 0x61
    case LdxLen => 0x81
    case LdxMsh => 0xb1
    case St => 0x02
    case Stx => 0x03
    case Alu(op, s) => 0x04 + AluBits(op) + SrcBits(s)
    case Neg => 0x84
    case Tax => 0x07
    case Txa => 0x87
    case Ja => 0x05
    case Jmp(op, s) => 0x05 + JmpBits(op) + SrcBits(s)
    case RetK => 0x06
    case RetA => 0x16
  }

  /** The interpreter's switch: which operation an opcode number selects, if any. */
  function Decode(code: nat): Option<Code>
  {
    match code
    case 0x06 => Some(RetK) case 0x16 => Some(RetA)
    case 0x20 => Some(LdAbs(W)) case 0x28 => Some(LdAbs(H)) case 0x30 => Some(LdAbs(B))
    case 0x80 => Some(LdLen) case 0x81 => Some(LdxLen)
    case 0x40 => Some(LdInd(W)) case 0x48 => Some(LdInd(H)) case 0x50 => Some(LdInd(B))
    case 0xb1 => Some(LdxMsh)
    case 0x00 => Some(LdImm) case 0x01 => Some(LdxImm)
    case 0x60 => Some(LdMem) case 0x61 => Some(LdxMem)
    case 0x02 => Some(St) case 0x03 => Some(Stx)
    case 0x05 => Some(Ja)
    case 0x25 => Some(Jmp(Jgt, K)) case 0x35 => Some(Jmp(Jge, K))
    case 0x15 => Some(Jmp(Jeq, K)) case 0x45 => Some(Jmp(Jset, K))
    case 0x2d => Some(Jmp(Jgt, X)) case 0x3d => Some(Jmp(Jge, X))
    case 0x1d => Some(Jmp(Jeq, X)) case 0x4d => Some(Jmp(Jset, X))
    case 0x0c => Some(Alu(Add, X)) case 0x1c => Some(Alu(Sub, X))
    case 0x2c => Some(Alu(Mul, X)) case 0x3c => Some(Alu(Div, X))
    case 0x9c => Some(Alu(Mod, X)) case 0x5c => Some(Alu(And_, X))
    case 0x4c => Some(Alu(Or_, X)) case 0xac => Some(Alu(Xor_, X))
    case 0x6c => Some(Alu(Lsh, X)) case 0x7c => Some(Alu(Rsh, X))
    case 0x04 => Some(Alu(Add, K)) case 0x14 => Some(Alu(Sub, K))
    case 0x24 => Some(Alu(Mul, K)) case 0x34 => Some(Alu(Div, K))
    case 0x94 => Some(Alu(Mod, K)) case 0x54 => Some(Alu(And_, K))
    case 0x44 => Some(Alu(Or_, K)) case 0xa4 => Some(Alu(Xor_, K))
    case 0x64 => Some(Alu(Lsh, K)) case 0x74 => Some(Alu(Rsh, K))
    case 0x84 => Some(Neg)
    case 0x07 => Some(Tax) case 0x87 => Some(Txa)
    case _ => None
  }

  /** Opcode numbers and operations correspond one to one. */
  lemma EncodeDecode(c: Code, n: nat)
    requires !c.Nop?
    ensures Decode(n) == Some(c) <==> n == Encode(c)
  {
    hide Encode, Decode;
    DecodeEncoded(c);
    EncodeDecoded(n);
  }

  lemma DecodeEncoded(c: Code)
    requires !c.Nop?
    ensures Decode(Encode(c)) == Some(c)
  {
  }

  lemma EncodeDecoded(n: nat)
    ensures Decode(n).Some? ==> !Decode(n).value.Nop? && Encode(Decode(n).value) == n
  {
    hide Encode, Decode;
    if n < 0x20 {
      DecodedBelow20(n);
    } else if n < 0x40 {
      DecodedBelow40(n);
    } else if n < 0x60 {
      DecodedBelow60(n);
    } else {
      DecodedFrom60(n);
    }
  }

  lemma DecodedBelow20(n: nat)
    requires n < 0x20
    ensures Decode(n).Some? ==> !Decode(n).value.Nop? && Encode(Decode(n).value) == n
  {
  }

  lemma DecodedBelow40(n: nat)
    requires 0x20 <= n < 0x40
    ensures Decode(n).Some? ==> !Decode(n).value.Nop? && Encode(Decode(n).value) == n
  {
  }

  lemma DecodedBelow60(n: nat)
    requires 0x40 <= n < 0x60
    ensures Decode(n).Some? ==> !Decode(n).value.Nop? && Encode(Decode(n).value) == n
  {
  }

  lemma DecodedFrom60(n: nat)
    requires 0x60 <= n
    ensures Decode(n).Some? ==> !Decode(n).value.Nop? && Encode(Decode(n).value) == n
  {
  }

  // ----------------------------------------------------------- machine state

  type Mem = m: seq<Word> | |m| == 16 witness seq(16, i => 0)
  datatype State = State(a: Word, x: Word, mem: Mem)

  datatype PacketData = Packet(data: seq<Octet>, wirelen: Word)
  type Packet = p: PacketData | |p.data| < 0x1_0000_0000 witness Packet([], 0)

  /** What C leaves undefined, or an abort. */
  datatype Trap = BadPc | BadMem | BadDiv | BadShift | BadOpcode

  /** One statement either goes on, ends the run with result 0, or traps. */
  datatype Outcome = Next(st: State) | Reject | Trapping(t: Trap)

  /** How a run ends. Rejected is the early exit with result 0. */
  datatype Result = Return(v: Word) | Rejected | Trapped(t: Trap)

  function Bytes(z: Size): nat { match z case W => 4 case H => 2 case B => 1 }

  function BigEndian4(b0: Octet, b1: Octet, b2: Octet, b3: Octet): Word
  {
    0x100_0000 * b0 as int + 0x1_0000 * b1 as int + 0x100 * b2 as int + b3
  }

  function BigEndian2(b0: Octet, b1: Octet): Word { 0x100 * b0 as int + b1 }

  /** Big-endian load of a field that lies inside the captured bytes. */
  function Fetch(p: Packet, z: Size, k: nat): Word
    requires k + Bytes(z) <= |p.data|
  {
    match z
    case W => BigEndian4(p.data[k], p.data[k + 1], p.data[k + 2], p.data[k + 3])
    case H => BigEndian2(p.data[k], p.data[k + 1])
    case B => p.data[k]
  }

  /** The bound test of an absolute load, in the machine's unsigned arithmetic. */
  function AbsInside(z: Size, k: Word, buflen: Word): (r: bool)
    ensures r <==> k + Bytes(z) <= buflen
  {
    match z
    case W => !(k > buflen || 4 > buflen - k)
    case H => !(k > buflen || 2 > buflen - k)
    case B => !(k >= buflen)
  }

  /** The three bound tests of an indexed load. The address X + k is computed
      modulo 2^32, yet a load is let through exactly when the unbounded sum fits. */
  function IndInside(z: Size, k: Word, x: Word, buflen: Word): (r: bool)
    ensures r <==> x + k + Bytes(z) <= buflen
  {
    match z
    case W => !(k > buflen || x > buflen - k || 4 > Wrap(buflen - Wrap(x + k)))
    case H => !(x > buflen || k > buflen - x || 2 > Wrap(buflen - Wrap(x + k)))
    case B => !(k >= buflen || x >= buflen - k)
  }

  /** Binary arithmetic; None is a division or modulus by zero. */
  function Apply(op: AluOp, a: Word, b: Word): Option<Word>
  {
    match op
    case Add => Some(Wrap(a + b))
    case Sub => Some(Wrap(a - b))
    case Mul => Some(Wrap(a * b))
    case Div => if b == 0 then None else DivBound(a, b); Some(a / b)
    case Mod => if b == 0 then None else Some(a % b)
    case And_ => Some(And(a, b))
    case Or_ => Some(Or(a, b))
    case Xor_ => Some(Xor(a, b))
    case Lsh => Some(ShiftLeft(a, b))
    case Rsh => Some(ShiftRight(a, b))
  }

  predicate Compare(op: JmpOp, a: Word, b: Word)
  {
    match op
    case Jeq => a == b
    case Jgt => a > b
    case Jge => a >= b
    case Jset => And(a, b) != 0
  }

  function Operand(s: Src, k: Word, st: State): Word { if s == X then st.x else k }

  /** The branch a conditional jump takes. */
  predicate Taken(s: Stmt, st: State)
    requires s.code.Jmp?
  {
    Compare(s.code.jop, st.a, Operand(s.code.src, s.k, st))
  }

  function ExecAlu(op: AluOp, src: Src, k: Word, st: State): Outcome
  {
    if src == K && (op == Div || op == Mod) && k == 0 then Trapping(BadDiv)
    else if src == K && (op == Lsh || op == Rsh) && k >= 32 then Trapping(BadShift)
    else
      match Apply(op, st.a, Operand(src, k, st))
      case None => Reject
      case Some(v) => Next(st.(a := v))
  }

  /** One straight-line statement. Jumps and returns are not statements of this kind. */
  function Exec(s: Stmt, st: State, p: Packet): Outcome
  {
    var k := s.k;
    var buflen := |p.data|;
    match s.code
    case Nop => Next(st)
    case LdAbs(z) => if AbsInside(z, k, buflen) then Next(st.(a := Fetch(p, z, k))) else Reject
    case LdInd(z) =>
      if IndInside(z, k, st.x, buflen) then Next(st.(a := Fetch(p, z, Wrap(st.x + k)))) else Reject
    case LdLen => Next(st.(a := p.wirelen))
    case LdxLen => Next(st.(x := p.wirelen))
    case LdImm => Next(st.(a := k))
    case LdxImm => Next(st.(x := k))
    case LdMem => if k < 16 then Next(st.(a := st.mem[k])) else Trapping(BadMem)
    case LdxMem => if k < 16 then Next(st.(x := st.mem[k])) else Trapping(BadMem)
    case LdxMsh => if k >= buflen then Reject else Next(st.(x := (p.data[k] % 16) * 4))
    case St => if k < 16 then Next(st.(mem := st.mem[k := st.a])) else Trapping(BadMem)
    case Stx => if k < 16 then Next(st.(mem := st.mem[k := st.x])) else Trapping(BadMem)
    case Alu(op, src) => ExecAlu(op, src, k, st)
    case Neg => Next(st.(a := Wrap(0 - st.a)))
    case Tax => Next(st.(x := st.a))
    case Txa => Next(st.(a := st.x))
    case Ja => Trapping(BadOpcode)
    case Jmp(_, _) => Trapping(BadOpcode)
    case RetK => Trapping(BadOpcode)
    case RetA => Trapping(BadOpcode)
  }

  /** A deleted statement stays in its place as a nop. */
  function Deleted(s: Stmt): Stmt { s.(code := Nop) }

  lemma NopDoesNothing(s: Stmt, st: State, p: Packet)
    ensures Exec(Deleted(s), st, p) == Next(st) && (s.code == Nop ==> Exec(s, st, p) == Next(st))
  {
  }

  predicate Straight(c: Code) { !c.Ja? && !c.Jmp? && !c.RetK? && !c.RetA? }

  /** Statements in sequence. */
  function ExecList(ss: seq<Stmt>, st: State, p: Packet): Outcome
    decreases |ss|
  {
    if ss == [] then Next(st)
    else
      match Exec(ss[0], st, p)
      case Next(st') => ExecList(ss[1..], st', p)
      case other => other
  }

  lemma {:induction false} ExecAppend(s0: seq<Stmt>, s1: seq<Stmt>, st: State, p: Packet)
    ensures ExecList(s0 + s1, st, p) ==
            match ExecList(s0, st, p)
            case Next(st') => ExecList(s1, st', p)
            case other => other
  {
    if s0 == [] {
      assert s0 + s1 == s1;
    } else {
      assert (s0 + s1)[1..] == s0[1..] + s1;
      match Exec(s0[0], st, p)
      case Next(st') => ExecAppend(s0[1..], s1, st', p);
      case _ =>
    }
  }

  lemma RunOne(s: Stmt, st: State, p: Packet)
    ensures ExecList([s], st, p) == Exec(s, st, p)
  {
    hide Exec;
    assert [s][1..] == [];
    match Exec(s, st, p) case Next(_) => case _ =>
  }

  /** A list followed by one more statement. */
  lemma RunThen(ss: seq<Stmt>, s: Stmt, st: State, p: Packet)
    ensures ExecList(ss + [s], st, p) ==
            match ExecList(ss, st, p)
            case Next(st') => Exec(s, st', p)
            case other => other
  {
    hide Exec;
    ExecAppend(ss, [s], st, p);
    match ExecList(ss, st, p)
    case Next(st') => RunOne(s, st', p);
    case _ =>
  }

  // ------------------------------------------------------------- interpreter

  /** One instruction of a program: a 16-bit opcode, two 8-bit jump offsets, a 32-bit constant. */
  datatype Insn = Insn(code: nat, jt: Octet, jf: Octet, k: Word)

  datatype Flow = At(pc: int, st: State) | Done(r: Result)

  /** One turn of the interpreter's loop. */
  function StepAt(prog: seq<Insn>, pc: int, st: State, p: Packet): Flow
  {
    if !(0 <= pc < |prog|) then Done(Trapped(BadPc))
    else
      var i := prog[pc];
      match Decode(i.code)
      case None => Done(Trapped(BadOpcode))
      case Some(c) =>
        match c
        case RetK => Done(Return(i.k))
        case RetA => Done(Return(st.a))
        case Ja => At(pc + 1 + Signed(i.k), st)
        case Jmp(_, _) => At(pc + 1 + (if Taken(Stmt(c, i.k), st) then i.jt else i.jf), st)
        case _ =>
          match Exec(Stmt(c, i.k), st, p)
          case Next(st') => At(pc + 1, st')
          case Reject => Done(Rejected)
          case Trapping(t) => Done(Trapped(t))
  }

  /** At most `fuel` turns of the loop; None when the run is still going. */
  function Run(prog: seq<Insn>, pc: int, st: State, p: Packet, fuel: nat): Option<Result>
    decreases fuel
  {
    if fuel == 0 then None
    else
      match StepAt(prog, pc, st, p)
      case Done(r) => Some(r)
      case At(pc', st') => Run(prog, pc', st', p, fuel - 1)
  }

  /** A run that ends does so with every larger budget, and with the same result. */
  lemma {:induction false} MoreFuel(prog: seq<Insn>, pc: int, st: State, p: Packet, fuel: nat, more: nat)
    requires Run(prog, pc, st, p, fuel).Some? && fuel <= more
    ensures Run(prog, pc, st, p, more) == Run(prog, pc, st, p, fuel)
    decreases fuel
  {
    match StepAt(prog, pc, st, p)
    case Done(_) =>
    case At(pc', st') => MoreFuel(prog, pc', st', p, fuel - 1, more - 1);
  }

  /** The number the interpreter hands back: an early exit returns 0. */
  function Value(r: Result): Word
    requires !r.Trapped?
  {
    if r.Return? then r.v else 0
  }

  /** A and X start at 0; scratch memory starts with whatever was there. */
  function Initial(mem: Mem): State { State(0, 0, mem) }

  /** The interpreter's loop, stopped after `limit` turns. A missing program accepts everything. */
  method Filter(prog: Option<seq<Insn>>, p: Packet, mem: Mem, limit: nat) returns (r: Option<Result>)
    ensures prog.None? ==> r == Some(Return(0xffff_ffff))
    ensures prog.Some? ==> r == Run(prog.value, 0, State(0, 0, mem), p, limit)
  {
    if prog.None? {
      return Some(Return(0xffff_ffff));
    }
    var pc: int, st := 0, Initial(mem);
    var n := 0;
    while n < limit
      invariant 0 <= n <= limit
      invariant Run(prog.value, 0, Initial(mem), p, limit) == Run(prog.value, pc, st, p, limit - n)
    {
      match StepAt(prog.value, pc, st, p) {
        case Done(res) => return Some(res);
        case At(pc', st') => pc, st := pc', st';
      }
      n := n + 1;
    }
    return None;
  }
}
