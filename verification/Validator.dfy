/**
 * The static check of a flat program, and what an accepted program can and
 * cannot do when the interpreter runs it.
 */
module Validator {
  import opened Words
  import opened Machine

  const INT_MAX: int := 0x7fff_ffff

  // Fields of an opcode number.
  function Class(c: nat): nat { c % 8 }
  function Mode(c: nat): nat { c / 32 % 8 * 32 }
  function OpBits(c: nat): nat { c / 16 % 16 * 16 }
  function SrcField(c: nat): nat { c / 8 % 2 * 8 }

  /** The check of one instruction, on opcode fields and with u_int arithmetic. */
  predicate InsnOk(i: Insn, at: nat, len: nat)
  {
    var from := Wrap(at + 1);
    match Class(i.code)
    case 0 => Mode(i.code) in {0x00, 0x20, 0x40, 0xa0, 0x80} || (Mode(i.code) == 0x60 && i.k < MEMWORDS)
    case 1 => Mode(i.code) in {0x00, 0x20, 0x40, 0xa0, 0x80} || (Mode(i.code) == 0x60 && i.k < MEMWORDS)
    case 2 => i.k < MEMWORDS
    case 3 => i.k < MEMWORDS
    case 4 =>
      OpBits(i.code) in {0x00, 0x10, 0x20, 0x40, 0x50, 0xa0, 0x60, 0x70, 0x80} ||
      (OpBits(i.code) in {0x30, 0x90} && !(SrcField(i.code) == 0 && i.k == 0))
    case 5 =>
      (OpBits(i.code) == 0x00 && Wrap(from + i.k) < len) ||
      (OpBits(i.code) in {0x10, 0x20, 0x30, 0x40} && Wrap(from + i.jt) < len && Wrap(from + i.jf) < len)
    case _ => true
  }

  predicate Accepted(f: seq<Insn>)
  {
    |f| >= 1 && (forall i :: 0 <= i < |f| ==> InsnOk(f[i], i, |f|)) && Class(f[|f| - 1].code) == 6
  }

  method Validate(f: seq<Insn>) returns (ok: bool)
    ensures ok <==> Accepted(f)
  {
    if |f| < 1 {
      return false;
    }
    for i := 0 to |f|
      invariant forall j :: 0 <= j < i ==> InsnOk(f[j], j, |f|)
    {
      if !InsnOk(f[i], i, |f|) {
        return false;
      }
    }
    return Class(f[|f| - 1].code) == 6;
  }

  // ------------------------------------------- acceptance without bit fields

  /** What acceptance means for one operation at index `at`, in terms of where it
      can send the interpreter and which scratch word it touches. */
  predicate OperationOk(c: Code, i: Insn, at: nat, len: nat)
  {
    match c
    case LdMem => i.k < MEMWORDS
    case LdxMem => i.k < MEMWORDS
    case St => i.k < MEMWORDS
    case Stx => i.k < MEMWORDS
    case Alu(op, src) => (op == Div || op == Mod) && src == K ==> i.k != 0
    case Ja => 0 <= at + 1 + Signed(i.k) < len
    case Jmp(_, _) => at + 1 + i.jt < len && at + 1 + i.jf < len
    case _ => true
  }

  predicate IsReturn(c: Code) { c.RetK? || c.RetA? }

  /** The unsigned, wrapping test of a jump target is the test that the
      sign-extended target lies inside the program. */
  lemma WrappedTarget(at: nat, k: Word, len: nat)
    requires at < len <= INT_MAX
    ensures Wrap(Wrap(at + 1) + k) < len <==> 0 <= at + 1 + Signed(k) < len
  {
    if k >= 0x8000_0000 && at + 1 + k >= TWO32 {
      assert (at + 1 + k) % TWO32 == at + 1 + k - TWO32;
    }
  }

  lemma ShortTarget(at: nat, off: Octet, len: nat)
    requires at < len <= INT_MAX
    ensures Wrap(Wrap(at + 1) + off) == at + 1 + off
  {
  }

  lemma AluFields(op: AluOp, src: Src)
    ensures var c := Encode(Alu(op, src));
            Class(c) == 4 && OpBits(c) == AluBits(op) && SrcField(c) == SrcBits(src)
  {
    match op case Add => case Sub => case Mul => case Div => case Or_ =>
    case And_ => case Lsh => case Rsh => case Mod => case Xor_ =>
  }

  lemma JmpFields(op: JmpOp, src: Src)
    ensures var c := Encode(Jmp(op, src)); Class(c) == 5 && OpBits(c) == JmpBits(op)
  {
    match op case Jeq => case Jgt => case Jge => case Jset =>
  }

  /** The fields of an operation's opcode number select its own case of the check. */
  lemma EncodedFields(c: Code, i: Insn, at: nat, len: nat)
    requires at < len <= INT_MAX && !c.Nop? && i.code == Encode(c)
    ensures InsnOk(i, at, len) <==> OperationOk(c, i, at, len)
    ensures Class(i.code) == 6 <==> IsReturn(c)
  {
    match c
    case Alu(op, src) =>
      AluFields(op, src);
      hide Class, OpBits, SrcField, Encode;
    case Jmp(op, src) =>
      JmpFields(op, src);
      hide Class, OpBits, SrcField, Encode, Wrap;
      ShortTarget(at, i.jt, len);
      ShortTarget(at, i.jf, len);
    case Ja => WrappedTarget(at, i.k, len);
    case LdAbs(z) =>
    case LdInd(z) =>
    case _ =>
  }

  lemma OpcodeFields(i: Insn, at: nat, len: nat)
    requires at < len <= INT_MAX && Decode(i.code).Some?
    ensures InsnOk(i, at, len) <==> OperationOk(Decode(i.code).value, i, at, len)
    ensures Class(i.code) == 6 <==> IsReturn(Decode(i.code).value)
  {
    hide InsnOk, OperationOk, IsReturn, Class;
    EncodeDecode(Decode(i.code).value, i.code);
    EncodedFields(Decode(i.code).value, i, at, len);
  }

  /** What the check lets through, whatever the opcode number: not the two reserved addressing modes, the five reserved
      operations or the eleven reserved jumps; no scratch index of 16 or more, no constant divisor 0, no target
      outside. */
  lemma CheckedExactly(i: Insn, at: nat, len: nat)
    requires at < len <= INT_MAX
    ensures InsnOk(i, at, len) <==>
            match i.code % 8
            case 0 => i.code / 32 % 8 < 6 && (i.code / 32 % 8 == 3 ==> i.k < 16)
            case 1 => i.code / 32 % 8 < 6 && (i.code / 32 % 8 == 3 ==> i.k < 16)
            case 2 => i.k < 16
            case 3 => i.k < 16
            case 4 => i.code / 16 % 16 < 11 && (i.code / 16 % 16 in {3, 9} && i.code / 8 % 2 == 0 ==> i.k != 0)
            case 5 =>
              i.code / 16 % 16 < 5 &&
              if i.code / 16 % 16 == 0 then 0 <= at + 1 + Signed(i.k) < len
              else at + 1 + i.jt < len && at + 1 + i.jf < len
            case _ => true
  {
    hide Signed, Wrap;
    WrappedTarget(at, i.k, len);
    ShortTarget(at, i.jt, len);
    ShortTarget(at, i.jf, len);
    var mode, op := i.code / 32 % 8, i.code / 16 % 16;
    assert Mode(i.code) == 32 * mode && OpBits(i.code) == 16 * op;
  }

  /** For programs made of operations the machine has, acceptance is exactly:
      non-empty, every jump lands inside, every scratch index is below 16, no
      constant divisor is zero, and the last instruction is a return. */
  lemma AcceptedExactly(f: seq<Insn>)
    requires |f| <= INT_MAX
    requires forall i :: 0 <= i < |f| ==> Decode(f[i].code).Some?
    ensures Accepted(f) <==>
            && |f| >= 1
            && (forall i :: 0 <= i < |f| ==> OperationOk(Decode(f[i].code).value, f[i], i, |f|))
            && IsReturn(Decode(f[|f| - 1].code).value)
  {
    hide InsnOk, OperationOk, Decode, IsReturn, Class;
    forall i | 0 <= i < |f|
      ensures InsnOk(f[i], i, |f|) <==> OperationOk(Decode(f[i].code).value, f[i], i, |f|)
      ensures Class(f[i].code) == 6 <==> IsReturn(Decode(f[i].code).value)
    {
      OpcodeFields(f[i], i, |f|);
    }
  }

  // ---------------------------------------------------------------- soundness

  /** The interpreter after n turns of its loop. */
  function After(prog: seq<Insn>, pc: int, st: State, p: Packet, n: nat): Flow
    decreases n
  {
    if n == 0 then At(pc, st)
    else
      match StepAt(prog, pc, st, p)
      case Done(r) => Done(r)
      case At(pc', st') => After(prog, pc', st', p, n - 1)
  }

  /** Inside the array, or stopped for a reason the check does not rule out:
      an opcode the machine lacks, or a constant shift of 32 or more. */
  predicate Safe(f: Flow, len: nat)
  {
    match f
    case At(pc, _) => 0 <= pc < len
    case Done(Trapped(t)) => t == BadOpcode || t == BadShift
    case Done(_) => true
  }

  lemma StepSafe(f: seq<Insn>, pc: int, st: State, p: Packet)
    requires Accepted(f) && |f| <= INT_MAX && 0 <= pc < |f|
    ensures Safe(StepAt(f, pc, st, p), |f|)
  {
    if Decode(f[pc].code).Some? {
      var c := Decode(f[pc].code).value;
      OpcodeFields(f[pc], pc, |f|);
      StraightSafe(Stmt(c, f[pc].k), f[pc], pc, |f|, st, p);
      if pc == |f| - 1 {
        assert IsReturn(c);
      }
    }
  }

  lemma StraightSafe(s: Stmt, i: Insn, at: nat, len: nat, st: State, p: Packet)
    requires OperationOk(s.code, i, at, len) && s.k == i.k
    ensures Exec(s, st, p).Trapping? ==>
              Exec(s, st, p).t == BadShift || Exec(s, st, p).t == BadOpcode
  {
  }

  /** Over any run of an accepted program, after any number of turns, the program
      counter is inside the array and no scratch index, divisor or jump has failed. */
  lemma {:induction false} AcceptedIsSafe(f: seq<Insn>, pc: int, st: State, p: Packet, n: nat)
    requires Accepted(f) && |f| <= INT_MAX && 0 <= pc < |f|
    ensures Safe(After(f, pc, st, p, n), |f|)
    decreases n
  {
    hide StepAt, Accepted;
    if n > 0 {
      StepSafe(f, pc, st, p);
      match StepAt(f, pc, st, p)
      case Done(_) =>
      case At(pc', st') => AcceptedIsSafe(f, pc', st', p, n - 1);
    }
  }

  predicate NoBackwardJump(f: seq<Insn>)
  {
    forall i :: 0 <= i < |f| && Decode(f[i].code) == Some(Ja) ==> Signed(f[i].k) >= 0
  }

  lemma StepForward(f: seq<Insn>, pc: int, st: State, p: Packet)
    requires NoBackwardJump(f)
    ensures match StepAt(f, pc, st, p) case At(pc', _) => pc < pc' case Done(_) => true
  {
  }

  /** An accepted program without backward jumps stops within as many turns as
      it has instructions left. */
  lemma {:induction false} ForwardStops(f: seq<Insn>, pc: int, st: State, p: Packet)
    requires Accepted(f) && |f| <= INT_MAX && NoBackwardJump(f) && 0 <= pc < |f|
    ensures Run(f, pc, st, p, |f| - pc).Some?
    decreases |f| - pc
  {
    hide StepAt, Accepted, NoBackwardJump;
    StepSafe(f, pc, st, p);
    StepForward(f, pc, st, p);
    match StepAt(f, pc, st, p)
    case Done(_) =>
    case At(pc', st') =>
      ForwardStops(f, pc', st', p);
      MoreFuel(f, pc', st', p, |f| - pc', |f| - pc - 1);
  }
}
