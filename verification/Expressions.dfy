/** What arithmetic expressions mean, and which of them are refused, said without the generator. */
module Expressions {
  import opened Words
  import opened Machine
  import opened MachineLaws
  import opened Arith

  /** The expression has the value v on the packet: a load is the number its bytes write, the first highest. */
  ghost predicate Means(t: Tree, p: Packet, link: Word, v: Word)
    decreases t
  {
    match t
    case Const(k) => v == k
    case PacketLength => v == p.wirelen
    case Load(i, bytes) =>
      && bytes in {1, 2, 4}
      && exists at: Word :: Means(i, p, link, at) && WritesAt(p, at + link, bytes, v)
    case Negate(a) => exists u: Word :: Means(a, p, link, u) && Cancels(u, v)
    case Binary(op, a, b) =>
      exists u: Word, w: Word ::
        && Means(a, p, link, u) && Means(b, p, link, w)
        && (op == Div || op == Mod ==> w != 0) && Calculates(op, u, w, v)
  }

  predicate Cancels(u: Word, v: Word) { (u + v) % TWO32 == 0 }

  predicate WritesAt(p: Packet, at: nat, n: nat, v: Word)
  {
    at + n <= |p.data| && FromBytes(p.data[at..at + n]) == v
  }

  /** Evaluation gives exactly the value the expression means. */
  lemma {:induction false} EvalExact(t: Tree, p: Packet, link: Word)
    ensures forall v: Word :: Eval(t, p, link) == Some(v) <==> Means(t, p, link, v)
    decreases t
  {
    match t
    case Const(_) =>
    case PacketLength =>
    case Load(i, bytes) =>
      EvalExact(i, p, link);
      forall v: Word ensures Eval(t, p, link) == Some(v) <==> Means(t, p, link, v) { LoadExact(i, bytes, p, link, v); }
    case Negate(a) =>
      EvalExact(a, p, link);
      forall v: Word ensures Eval(t, p, link) == Some(v) <==> Means(t, p, link, v) { NegateExact(a, p, link, v); }
    case Binary(op, a, b) =>
      EvalExact(a, p, link);
      EvalExact(b, p, link);
      forall v: Word ensures Eval(t, p, link) == Some(v) <==> Means(t, p, link, v) {
        BinaryExact(op, a, b, p, link, v);
      }
  }

  /** The widths a load can be written with. */
  lemma SizeForExact(bytes: nat)
    ensures SizeFor(bytes).Some? <==> bytes in {1, 2, 4}
    ensures SizeFor(bytes).Some? ==> Bytes(SizeFor(bytes).value) == bytes
  {
  }

  lemma LoadExact(i: Tree, bytes: nat, p: Packet, link: Word, v: Word)
    requires forall at: Word :: Eval(i, p, link) == Some(at) <==> Means(i, p, link, at)
    ensures Eval(Load(i, bytes), p, link) == Some(v) <==> Means(Load(i, bytes), p, link, v)
  {
    hide Fetch, FromBytes, WritesAt, SizeFor, Bytes;
    SizeForExact(bytes);
    if SizeFor(bytes).Some? && Eval(i, p, link).Some? {
      var at := Eval(i, p, link).value;
      FetchWrites(p, SizeFor(bytes).value, at + link, v);
      assert Means(i, p, link, at);
    }
  }

  lemma FetchWrites(p: Packet, z: Size, k: nat, v: Word)
    ensures WritesAt(p, k, Bytes(z), v) <==> k + Bytes(z) <= |p.data| && Fetch(p, z, k) == v
  {
    hide Fetch, FromBytes;
    if k + Bytes(z) <= |p.data| { FetchIsNumber(p, z, k); }
  }

  lemma NegationCancels(u: Word, v: Word)
    ensures v == Wrap(0 - u) <==> Cancels(u, v)
  {
    NegationUnique(u, v);
  }

  lemma NegateExact(a: Tree, p: Packet, link: Word, v: Word)
    requires forall u: Word :: Eval(a, p, link) == Some(u) <==> Means(a, p, link, u)
    ensures Eval(Negate(a), p, link) == Some(v) <==> Means(Negate(a), p, link, v)
  {
    hide Wrap, Cancels;
    if Eval(a, p, link).Some? {
      var u := Eval(a, p, link).value;
      NegationCancels(u, v);
      assert Means(a, p, link, u);
    }
  }

  lemma BinaryExact(op: AluOp, a: Tree, b: Tree, p: Packet, link: Word, v: Word)
    requires forall u: Word :: Eval(a, p, link) == Some(u) <==> Means(a, p, link, u)
    requires forall u: Word :: Eval(b, p, link) == Some(u) <==> Means(b, p, link, u)
    ensures Eval(Binary(op, a, b), p, link) == Some(v) <==> Means(Binary(op, a, b), p, link, v)
  {
    hide Apply, Calculates;
    if Eval(a, p, link).Some? && Eval(b, p, link).Some? {
      var u, w := Eval(a, p, link).value, Eval(b, p, link).value;
      ApplyExact(op, u, w, v);
      assert Means(a, p, link, u) && Means(b, p, link, w);
    }
  }

  // ---------------------------------------------------------------- refusals

  lemma ShiftByConstant(op: AluOp, k: Word)
    requires op == Lsh || op == Rsh
    ensures Refusal(op, Stmt(LdImm, k)).Some? <==> forall a: Word :: Apply(op, a, k) == Some(0)
  {
    if k <= 31 {
      assert Apply(Lsh, 1, k) != Some(0) by { ShiftedBit(k); }
      assert Apply(Rsh, 0xffff_ffff, k) != Some(0) by { ShiftedBit(k); }
    }
  }

  lemma ShiftedBit(k: Word)
    requires k <= 31
    ensures ShiftLeft(1, k) != 0 && ShiftRight(0xffff_ffff, k) != 0
  {
    Pow2Of32();
    Pow2Grows(k, 31);
    assert Pow2(32) == 2 * Pow2(31);
    RshExact(0xffff_ffff, k, 0);
  }

  lemma {:induction false} Pow2Grows(i: nat, j: nat)
    requires i <= j
    ensures Pow2(i) <= Pow2(j)
    decreases j
  {
    if i < j { Pow2Grows(i, j - 1); }
  }

  /** A constant right operand is refused exactly if the operation has no value whatever the left operand is, or always
      the value 0: a division by 0, a shift by more than 31. Each refusal has its own error. */
  lemma RefusalExact(op: AluOp, k: Word)
    ensures Refusal(op, Stmt(LdImm, k)) == Some(DivisionByZero) <==> op == Div && k == 0
    ensures Refusal(op, Stmt(LdImm, k)) == Some(ModulusByZero) <==> op == Mod && k == 0
    ensures Refusal(op, Stmt(LdImm, k)) == Some(ShiftTooBig) <==> (op == Lsh || op == Rsh) && k > 31
    ensures op == Div || op == Mod ==>
              (Refusal(op, Stmt(LdImm, k)).Some? <==> forall a: Word :: Apply(op, a, k) == None)
    ensures op == Lsh || op == Rsh ==>
              (Refusal(op, Stmt(LdImm, k)).Some? <==> forall a: Word :: Apply(op, a, k) == Some(0))
    ensures op !in {Div, Mod, Lsh, Rsh} ==> Refusal(op, Stmt(LdImm, k)).None?
  {
    hide ShiftLeft, ShiftRight;
    if op == Lsh || op == Rsh { ShiftByConstant(op, k); }
    if k != 0 { assert Apply(Div, 1, k).Some? && Apply(Mod, 1, k).Some?; }
  }
}
