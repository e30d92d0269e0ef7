/**
 * What the machine's operations mean, said without their definitions: the digits
 * of a load, the laws of arithmetic, the fields of an opcode number.
 */
module MachineLaws {
  import opened Words
  import opened Machine

  // ------------------------------------------------------------------- loads

  /** A number from its bytes, the most significant first. */
  function FromBytes(bs: seq<Octet>): nat
  {
    if bs == [] then 0 else FromBytes(bs[..|bs| - 1]) * 256 + bs[|bs| - 1]
  }

  function Pow256(n: nat): (r: nat)
    ensures r >= 1
  {
    if n == 0 then 1 else 256 * Pow256(n - 1)
  }

  /** Digit j of the number is byte j. */
  lemma {:induction false} DigitIsByte(bs: seq<Octet>, j: nat)
    requires j < |bs|
    ensures FromBytes(bs) / Pow256(|bs| - 1 - j) % 256 == bs[j]
    decreases |bs|
  {
    hide FromBytes, Pow256;
    var last := |bs| - 1;
    LastDigit(bs);
    if j < last {
      DigitIsByte(bs[..last], j);
      NextPower(last - j);
      DropDigit(FromBytes(bs[..last]), bs[last], Pow256(last - 1 - j));
    }
  }

  lemma LastDigit(bs: seq<Octet>)
    requires bs != []
    ensures var front: int := FromBytes(bs[..|bs| - 1]); FromBytes(bs) == front * 256 + bs[|bs| - 1]
    ensures Pow256(0) == 1 && FromBytes(bs) / Pow256(0) % 256 == bs[|bs| - 1]
  {
    var front := FromBytes(bs[..|bs| - 1]);
    assert FromBytes(bs) == front * 256 + bs[|bs| - 1];
    LowDigit(front, bs[|bs| - 1]);
    assert FromBytes(bs) / 1 == FromBytes(bs);
  }

  lemma LowDigit(n: nat, d: nat)
    requires d < 256
    ensures (n * 256 + d) % 256 == d
  {
  }

  lemma NextPower(n: nat)
    requires n > 0
    ensures Pow256(n) == 256 * Pow256(n - 1)
  {
  }

  lemma DropDigit(n: nat, d: nat, m: nat)
    requires d < 256 && m >= 1
    ensures (n * 256 + d) / (256 * m) == n / m
  {
    DivMul(n * 256 + d, 256, m);
  }

  /** The word a load fetches is the number its bytes write. */
  lemma FetchIsNumber(p: Packet, z: Size, k: nat)
    requires k + Bytes(z) <= |p.data|
    ensures Fetch(p, z, k) == FromBytes(p.data[k..k + Bytes(z)])
  {
    var bs := p.data[k..k + Bytes(z)];
    var b0: int := bs[0];
    assert bs[..1][..0] == [];
    assert FromBytes(bs[..1]) == b0;
    match z
    case B =>
      assert bs[..1] == bs;
    case H =>
      assert bs[..2] == bs;
    case W =>
      var b1: int, b2: int := bs[1], bs[2];
      assert bs[..3][..2] == bs[..2] && bs[..2][..1] == bs[..1];
      assert FromBytes(bs[..2]) == b0 * 256 + b1;
      assert FromBytes(bs[..3]) == (b0 * 256 + b1) * 256 + b2;
  }

  /** Digit j, counted from the front, of a number of n digits to the base 256. */
  function Digit(w: nat, n: nat, j: nat): nat
    requires j < n
  {
    w / Pow256(n - 1 - j) % 256
  }

  /** The word's digits are the n bytes from an offset on. */
  predicate Shows(w: nat, n: nat, p: Packet, at: nat)
    requires at + n <= |p.data|
  {
    forall j :: 0 <= j < n ==> Digit(w, n, j) == p.data[at + j]
  }

  /** What a load fetches is the bytes from its offset on, the first of them in the highest digit. */
  lemma FetchDigits(p: Packet, z: Size, k: nat)
    requires k + Bytes(z) <= |p.data|
    ensures Shows(Fetch(p, z, k), Bytes(z), p, k)
  {
    hide Fetch, FromBytes, Pow256;
    FetchIsNumber(p, z, k);
    var bs := p.data[k..k + Bytes(z)];
    forall j | 0 <= j < Bytes(z)
      ensures Digit(Fetch(p, z, k), Bytes(z), j) == p.data[k + j]
    {
      DigitIsByte(bs, j);
      assert bs[j] == p.data[k + j];
    }
  }

  /** Where a load reads: at its operand, or that far past the index register. */
  function LoadsAt(s: Stmt, st: State): nat
  {
    if s.code.LdInd? then st.x + s.k else s.k
  }

  /** A load rejects the packet exactly if not all of its bytes were captured; otherwise the accumulator holds those
      bytes, the first of them highest, and nothing else changes. */
  lemma LoadTakesBytes(s: Stmt, st: State, p: Packet)
    requires s.code.LdAbs? || s.code.LdInd?
    ensures Exec(s, st, p) == Reject <==> LoadsAt(s, st) + Bytes(s.code.size) > |p.data|
    ensures LoadsAt(s, st) + Bytes(s.code.size) <= |p.data| ==>
              && Exec(s, st, p).Next?
              && Exec(s, st, p).st == st.(a := Exec(s, st, p).st.a)
              && Shows(Exec(s, st, p).st.a, Bytes(s.code.size), p, LoadsAt(s, st))
  {
    hide Fetch, Shows;
    if LoadsAt(s, st) + Bytes(s.code.size) <= |p.data| {
      FetchDigits(p, s.code.size, LoadsAt(s, st));
    }
  }

  // -------------------------------------------------------------- arithmetic

  ghost predicate Bit(x: nat, i: nat) { x / Pow2(i) % 2 == 1 }

  /** The word r is congruent to x modulo 2^32. */
  predicate Congruent(r: Word, x: int) { (r - x) % TWO32 == 0 }

  /** What the result of an operation is to its operands. Shifts by 32 or more leave nothing. */
  ghost predicate Calculates(op: AluOp, a: Word, b: Word, r: Word)
  {
    match op
    case Add => Congruent(r, a + b)
    case Sub => Congruent(a, r + b)
    case Mul => Congruent(r, a * b)
    case Div => b * r <= a < b * r + b
    case Mod => r < b && exists q: nat :: q <= a && a == b * q + r
    case And_ => forall i :: 0 <= i < 32 ==> (Bit(r, i) <==> Bit(a, i) && Bit(b, i))
    case Or_ => forall i :: 0 <= i < 32 ==> (Bit(r, i) <==> Bit(a, i) || Bit(b, i))
    case Xor_ => forall i :: 0 <= i < 32 ==> (Bit(r, i) <==> (Bit(a, i) <==> !Bit(b, i)))
    case Lsh => if b < 32 then Congruent(r, a * Pow2(b)) else r == 0
    case Rsh => if b < 32 then r * Pow2(b) <= a < (r + 1) * Pow2(b) else r == 0
  }

  lemma CongruentUnique(r: Word, x: int)
    ensures Congruent(r, x) <==> r == Wrap(x)
  {
  }

  lemma {:induction false} BitOpBit(f: BitFn, x: nat, y: nat, n: nat, i: nat)
    requires i < n
    ensures Bit(BitOp(f, x, y, n), i) <==> OnBits(f, if Bit(x, i) then 1 else 0, if Bit(y, i) then 1 else 0) == 1
    decreases n
  {
    BitOpHalf(f, x, y, n);
    if i > 0 {
      hide BitOp, OnBits, Bit;
      BitOpBit(f, x / 2, y / 2, n - 1, i - 1);
      HalfBit(x, i);
      HalfBit(y, i);
      HalfBit(BitOp(f, x, y, n), i);
    }
  }

  lemma BitOpHalf(f: BitFn, x: nat, y: nat, n: nat)
    requires n > 0
    ensures BitOp(f, x, y, n) / 2 == BitOp(f, x / 2, y / 2, n - 1)
    ensures Bit(BitOp(f, x, y, n), 0) <==> OnBits(f, if Bit(x, 0) then 1 else 0, if Bit(y, 0) then 1 else 0) == 1
  {
    assert Pow2(0) == 1;
  }

  lemma HalfBit(x: nat, i: nat)
    requires i > 0
    ensures Bit(x, i) <==> Bit(x / 2, i - 1)
  {
    DivMul(x, 2, Pow2(i - 1));
  }

  lemma {:induction false} BitOpSmall(f: BitFn, x: nat, y: nat, n: nat)
    ensures BitOp(f, x, y, n) < Pow2(n)
  {
    if n > 0 { BitOpSmall(f, x / 2, y / 2, n - 1); }
  }

  /** A word is its bits. */
  lemma {:induction false} SameBits(x: nat, y: nat, n: nat)
    requires x < Pow2(n) && y < Pow2(n) && forall i :: 0 <= i < n ==> (Bit(x, i) <==> Bit(y, i))
    ensures x == y
    decreases n
  {
    if n > 0 {
      assert Bit(x, 0) <==> Bit(y, 0);
      assert Pow2(0) == 1;
      forall i | 0 <= i < n - 1 ensures Bit(x / 2, i) <==> Bit(y / 2, i) {
        HalfBit(x, i + 1);
        HalfBit(y, i + 1);
        assert Bit(x, i + 1) <==> Bit(y, i + 1);
      }
      SameBits(x / 2, y / 2, n - 1);
    }
  }

  /** A bitwise operation, and the only word with those bits. */
  lemma BitwiseExact(f: BitFn, a: Word, b: Word, r: Word)
    ensures BitOp(f, a, b, 32) < TWO32
    ensures r == BitOp(f, a, b, 32) <==>
            forall i :: 0 <= i < 32 ==>
              (Bit(r, i) <==> OnBits(f, if Bit(a, i) then 1 else 0, if Bit(b, i) then 1 else 0) == 1)
  {
    hide BitOp, Pow2, OnBits, Bit;
    var x := BitOp(f, a, b, 32);
    Pow2Of32();
    BitOpSmall(f, a, b, 32);
    forall i | 0 <= i < 32
      ensures Bit(x, i) <==> OnBits(f, if Bit(a, i) then 1 else 0, if Bit(b, i) then 1 else 0) == 1
    {
      BitOpBit(f, a, b, 32, i);
    }
    if forall i :: 0 <= i < 32 ==>
         (Bit(r, i) <==> OnBits(f, if Bit(a, i) then 1 else 0, if Bit(b, i) then 1 else 0) == 1)
    {
      SameBits(r, x, 32);
    }
  }

  lemma DivExact(a: Word, b: Word, r: Word)
    requires b > 0
    ensures a / b == r <==> b * r <= a < b * r + b
  {
    QuotientBounds(a, b);
    if b * r <= a < b * r + b { QuotientUnique(a, b, r); }
  }

  lemma ModExact(a: Word, b: Word, r: Word)
    requires b > 0
    ensures a % b == r <==> r < b && exists q: nat :: q <= a && a == b * q + r
  {
    if a % b == r {
      DivBound(a, b);
      assert a == b * (a / b) + r;
    }
    if r < b && exists q: nat :: q <= a && a == b * q + r {
      var q: nat :| q <= a && a == b * q + r;
      QuotientUnique(a, b, q);
    }
  }

  lemma RshExact(a: Word, n: Word, r: Word)
    requires n < 32
    ensures ShiftRight(a, n) == r <==> r * Pow2(n) <= a < (r + 1) * Pow2(n)
  {
    hide Pow2;
    var d := Pow2(n);
    QuotientBounds(a, d);
    if r * d <= a < (r + 1) * d {
      assert (r + 1) * d == r * d + d;
      QuotientUnique(a, d, r);
    }
  }

  lemma CongruentExact(op: AluOp, a: Word, b: Word, r: Word)
    requires op == Add || op == Sub || op == Mul
    ensures Apply(op, a, b) == Some(r) <==> Calculates(op, a, b, r)
  {
    match op
    case Add => CongruentUnique(r, a + b);
    case Sub => CongruentUnique(r, a - b);
    case Mul => CongruentUnique(r, a * b);
  }

  lemma DivideExact(op: AluOp, a: Word, b: Word, r: Word)
    requires op == Div || op == Mod
    ensures Apply(op, a, b) == Some(r) <==> b != 0 && Calculates(op, a, b, r)
  {
    if b > 0 {
      DivExact(a, b, r);
      ModExact(a, b, r);
    }
  }

  lemma BitsExact(op: AluOp, a: Word, b: Word, r: Word)
    requires op == And_ || op == Or_ || op == Xor_
    ensures Apply(op, a, b) == Some(r) <==> Calculates(op, a, b, r)
  {
    hide BitOp, Bit;
    match op
    case And_ => BitwiseExact(BitAnd, a, b, r);
    case Or_ => BitwiseExact(BitOr, a, b, r);
    case Xor_ => BitwiseExact(BitXor, a, b, r);
  }

  lemma ShiftExact(op: AluOp, a: Word, b: Word, r: Word)
    requires op == Lsh || op == Rsh
    ensures Apply(op, a, b) == Some(r) <==> Calculates(op, a, b, r)
  {
    hide Pow2, Congruent;
    if b < 32 {
      CongruentUnique(r, a * Pow2(b));
      RshExact(a, b, r);
    }
  }

  /** Exactly which word each operation gives, and that a division by 0 gives none. */
  lemma ApplyExact(op: AluOp, a: Word, b: Word, r: Word)
    ensures Apply(op, a, b) == Some(r) <==> (op == Div || op == Mod ==> b != 0) && Calculates(op, a, b, r)
  {
    hide Apply, Calculates;
    match op
    case Add | Sub | Mul => CongruentExact(op, a, b, r);
    case Div | Mod => DivideExact(op, a, b, r);
    case And_ | Or_ | Xor_ => BitsExact(op, a, b, r);
    case Lsh | Rsh => ShiftExact(op, a, b, r);
  }

  /** An arithmetic statement traps on a constant the validator refuses, rejects the packet when X divides and is 0,
      and otherwise changes the accumulator only, to the one word the operation calculates. */
  lemma AluExact(op: AluOp, src: Src, k: Word, st: State, p: Packet, r: Word)
    ensures var b := Operand(src, k, st);
            var divides, shifts := op == Div || op == Mod, op == Lsh || op == Rsh;
            match Exec(Stmt(Alu(op, src), k), st, p)
            case Trapping(t) => src == K &&
              (if t == BadDiv then divides && k == 0 else t == BadShift && shifts && k > 31)
            case Reject => src == X && divides && st.x == 0
            case Next(st') =>
              && (divides ==> b != 0) && (src == K && shifts ==> k < 32)
              && (st' == st.(a := r) <==> Calculates(op, st.a, b, r))
  {
    hide Apply, Calculates;
    ApplyExact(op, st.a, Operand(src, k, st), r);
    DividesOnlyByNonzero(op, st.a, Operand(src, k, st));
  }

  lemma DividesOnlyByNonzero(op: AluOp, a: Word, b: Word)
    ensures Apply(op, a, b) == None <==> (op == Div || op == Mod) && b == 0
  {
  }

  /** A negation adds up to 0 with its operand; a header length is four times the low half of its byte; the length is
      the one on the wire. */
  lemma MovesExact(st: State, p: Packet, k: Word, r: Word)
    ensures Exec(Stmt(Neg, k), st, p).Next? &&
            (Exec(Stmt(Neg, k), st, p).st == st.(a := r) <==> (st.a + r) % TWO32 == 0)
    ensures Exec(Stmt(LdLen, k), st, p) == Next(st.(a := r)) <==> r == p.wirelen
    ensures Exec(Stmt(LdxLen, k), st, p) == Next(st.(x := r)) <==> r == p.wirelen
    ensures k >= |p.data| ==> Exec(Stmt(LdxMsh, k), st, p) == Reject
    ensures k < |p.data| ==>
              && Exec(Stmt(LdxMsh, k), st, p).Next?
              && (Exec(Stmt(LdxMsh, k), st, p).st == st.(x := r) <==>
                  r % 4 == 0 && r < 64 && (p.data[k] - r / 4) % 16 == 0)
  {
    if k < |p.data| { LowHalf(p.data[k], r); }
    NegationUnique(st.a, r);
  }

  lemma LowHalf(d: Octet, r: Word)
    ensures r == d % 16 * 4 <==> r % 4 == 0 && r < 64 && (d - r / 4) % 16 == 0
  {
    if r % 4 == 0 && r < 64 && (d - r / 4) % 16 == 0 {
      var l := r / 4;
      assert d % 16 == l && r == 4 * l;
    }
  }

  lemma NegationUnique(a: Word, r: Word)
    ensures r == Wrap(0 - a) <==> (a + r) % TWO32 == 0
  {
  }

  /** What is stored in scratch memory is what is loaded back, by either register: A and X are swapped through it. */
  lemma ScratchKeeps(i: Word, j: Word, st: State, p: Packet)
    requires i < 16 && j < 16 && i != j
    ensures ExecList([Stmt(St, i)] + [Stmt(Stx, j)] + [Stmt(LdMem, j)] + [Stmt(LdxMem, i)], st, p) ==
            Next(State(st.x, st.a, st.mem[i := st.a][j := st.x]))
  {
    hide ExecList;
    var s2 := [Stmt(St, i)] + [Stmt(Stx, j)];
    RunOne(Stmt(St, i), st, p);
    RunThen([Stmt(St, i)], Stmt(Stx, j), st, p);
    RunThen(s2, Stmt(LdMem, j), st, p);
    RunThen(s2 + [Stmt(LdMem, j)], Stmt(LdxMem, i), st, p);
  }

  /** The highest bit below n in which two numbers differ is set in the first. */
  ghost predicate Above(a: nat, b: nat, n: nat)
  {
    exists i :: 0 <= i < n && Bit(a, i) && !Bit(b, i) && forall j :: i < j < n ==> (Bit(a, j) <==> Bit(b, j))
  }

  lemma {:induction false} GreaterIsAbove(a: nat, b: nat, n: nat)
    requires a < Pow2(n) && b < Pow2(n) && a > b
    ensures Above(a, b, n)
    decreases n
  {
    if a / 2 > b / 2 {
      GreaterIsAbove(a / 2, b / 2, n - 1);
      var i :| 0 <= i < n - 1 && Bit(a / 2, i) && !Bit(b / 2, i) &&
               forall j :: i < j < n - 1 ==> (Bit(a / 2, j) <==> Bit(b / 2, j));
      AboveHalves(a, b, n, i);
    } else {
      assert Pow2(0) == 1 && Bit(a, 0) && !Bit(b, 0);
      forall j | 0 < j < n ensures Bit(a, j) <==> Bit(b, j) {
        HalfBit(a, j);
        HalfBit(b, j);
      }
    }
  }

  lemma AboveHalves(a: nat, b: nat, n: nat, i: nat)
    requires i < n - 1 && Bit(a / 2, i) && !Bit(b / 2, i)
    requires forall j :: i < j < n - 1 ==> (Bit(a / 2, j) <==> Bit(b / 2, j))
    ensures Above(a, b, n)
  {
    hide Bit;
    HalfBit(a, i + 1);
    HalfBit(b, i + 1);
    forall j | i + 1 < j < n ensures Bit(a, j) <==> Bit(b, j) {
      HalfBit(a, j);
      HalfBit(b, j);
      assert Bit(a / 2, j - 1) <==> Bit(b / 2, j - 1);
    }
    assert Bit(a, i + 1) && !Bit(b, i + 1);
  }

  lemma OrderIsBits(a: Word, b: Word)
    ensures a > b <==> Above(a, b, 32)
  {
    hide Bit, Pow2;
    Pow2Of32();
    if a > b { GreaterIsAbove(a, b, 32); }
    if b > a { GreaterIsAbove(b, a, 32); }
  }

  /** What a comparison asks of two words, bit by bit. */
  ghost predicate Relates(op: JmpOp, a: Word, b: Word)
  {
    match op
    case Jeq => forall i :: 0 <= i < 32 ==> (Bit(a, i) <==> Bit(b, i))
    case Jgt => Above(a, b, 32)
    case Jge => !Above(b, a, 32)
    case Jset => exists i :: 0 <= i < 32 && Bit(a, i) && Bit(b, i)
  }

  lemma CompareExact(op: JmpOp, a: Word, b: Word)
    ensures Compare(op, a, b) <==> Relates(op, a, b)
  {
    hide Bit, Above, Words.And, Pow2;
    match op
    case Jeq =>
      if Relates(Jeq, a, b) {
        Pow2Of32();
        SameBits(a, b, 32);
      }
    case Jgt => OrderIsBits(a, b);
    case Jge => OrderIsBits(b, a);
    case Jset => JsetExact(a, b);
  }

  lemma JsetExact(a: Word, b: Word)
    ensures Words.And(a, b) != 0 <==> exists i :: 0 <= i < 32 && Bit(a, i) && Bit(b, i)
  {
    hide Bit, BitOp;
    BitwiseExact(BitAnd, a, b, 0);
    forall i | 0 <= i < 32 ensures !Bit(0, i) { ZeroHasNoBit(i); }
  }

  lemma ZeroHasNoBit(i: nat)
    ensures !Bit(0, i)
  {
  }

  /** A jump's operand is a signed 32-bit distance from the next instruction. */
  lemma JumpExact(prog: seq<Insn>, pc: nat, st: State, p: Packet)
    requires pc < |prog| && prog[pc].code == 0x05
    ensures StepAt(prog, pc, st, p).At? && StepAt(prog, pc, st, p).st == st
    ensures var d := StepAt(prog, pc, st, p).pc - (pc + 1);
            Congruent(prog[pc].k, d) && -0x8000_0000 <= d < 0x8000_0000
  {
  }

  /** A constant returned, and the same constant loaded and returned from the accumulator. */
  lemma ReturnsExact(k: Word, jt: Octet, jf: Octet, st: State, p: Packet)
    ensures Run([Insn(0x06, jt, jf, k)], 0, st, p, 1) == Some(Return(k))
    ensures Run([Insn(0x00, jt, jf, k), Insn(0x16, jt, jf, 0)], 0, st, p, 2) == Some(Return(k))
  {
    var prog := [Insn(0x00, jt, jf, k), Insn(0x16, jt, jf, 0)];
    assert StepAt(prog, 0, st, p) == At(1, st.(a := k));
    assert StepAt(prog, 1, st.(a := k), p) == Done(Return(k));
    assert Run(prog, 1, st.(a := k), p, 1) == Some(Return(k));
    assert StepAt([Insn(0x06, jt, jf, k)], 0, st, p) == Done(Return(k));
  }

  // ------------------------------------------------------------ opcode fields

  // The numbers of the fields are places in these tables.
  const SIZES: seq<Size> := [W, H, B]
  const ALU_OPS: seq<Option<AluOp>> :=
    [Some(Add), Some(Sub), Some(Mul), Some(Div), Some(Or_), Some(And_), Some(Lsh), Some(Rsh), None, Some(Mod),
      Some(Xor_)]
  const JUMPS: seq<Option<JmpOp>> := [None, Some(Jeq), Some(Jgt), Some(Jge), Some(Jset)]
  const SOURCES: seq<Src> := [K, X]

  predicate Has<T(==)>(table: seq<T>, i: nat, x: T) { i < |table| && table[i] == x }

  /** A load's number: the class in the low three bits, then the size, then the addressing mode. */
  predicate LoadFields(n: nat, class_: nat, z: Size, mode: nat)
  {
    n % 8 == class_ && Has(SIZES, n / 8 % 4, z) && n / 32 == mode
  }

  /** The numbers of the operations, field by field: eight classes, six addressing modes. */
  predicate HasFields(c: Code, n: nat)
  {
    match c
    case Nop => false
    case LdImm => LoadFields(n, 0, W, 0)
    case LdAbs(z) => LoadFields(n, 0, z, 1)
    case LdInd(z) => LoadFields(n, 0, z, 2)
    case LdMem => LoadFields(n, 0, W, 3)
    case LdLen => LoadFields(n, 0, W, 4)
    case LdxImm => LoadFields(n, 1, W, 0)
    case LdxMem => LoadFields(n, 1, W, 3)
    case LdxLen => LoadFields(n, 1, W, 4)
    case LdxMsh => LoadFields(n, 1, B, 5)
    case St => n == 2
    case Stx => n == 3
    case Alu(op, s) => n % 8 == 4 && Has(SOURCES, n / 8 % 2, s) && Has(ALU_OPS, n / 16, Some(op))
    case Neg => n % 8 == 4 && n / 8 % 2 == 0 && n / 16 == 8
    case Ja => n % 8 == 5 && n / 8 == 0
    case Jmp(op, s) => n % 8 == 5 && Has(SOURCES, n / 8 % 2, s) && Has(JUMPS, n / 16, Some(op))
    case RetK => n % 8 == 6 && n / 8 == 0
    case RetA => n % 8 == 6 && n / 8 == 2
    case Tax => n % 8 == 7 && n / 8 == 0
    case Txa => n % 8 == 7 && n / 8 == 16
  }

  /** The opcode number of an operation has the operation's fields. */
  lemma OpcodeFields(c: Code)
    requires !c.Nop?
    ensures HasFields(c, Encode(c))
  {
    match c
    case Alu(op, s) =>
      if AluBits(op) < 0x50 { LowAluFields(op, s); } else { HighAluFields(op, s); }
    case Jmp(op, s) => JumpFields(op, s);
    case LdAbs(z) => PacketLoadFields(z);
    case LdInd(z) => PacketLoadFields(z);
    case _ =>
  }

  lemma PacketLoadFields(z: Size)
    ensures HasFields(LdAbs(z), Encode(LdAbs(z))) && HasFields(LdInd(z), Encode(LdInd(z)))
  {
    match z case W => case H => case B =>
  }

  lemma LowAluFields(op: AluOp, s: Src)
    requires AluBits(op) < 0x50
    ensures HasFields(Alu(op, s), Encode(Alu(op, s)))
  {
    match op case Add => case Sub => case Mul => case Div => case Or_ =>
  }

  lemma HighAluFields(op: AluOp, s: Src)
    requires AluBits(op) >= 0x50
    ensures HasFields(Alu(op, s), Encode(Alu(op, s)))
  {
    match op case And_ => case Lsh => case Rsh => case Mod => case Xor_ =>
  }

  lemma JumpFields(op: JmpOp, s: Src)
    ensures HasFields(Jmp(op, s), Encode(Jmp(op, s)))
  {
    match op case Jeq => case Jgt => case Jge => case Jset =>
  }
}
