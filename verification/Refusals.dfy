/**
 * When gen_arth is right to refuse a division or a shift. It looks at the first
 * statement of the right operand's code only.
 */
module Refusals {
  import opened Words
  import opened Machine
  import opened Arith

  /** Operands built from a leaf by loads and negations. */
  predicate Unary(t: Tree)
  {
    match t
    case Load(i, _) => Unary(i)
    case Negate(a) => Unary(a)
    case Binary(_, _, _) => false
    case _ => true
  }

  /** A load on the way from the root to the leftmost leaf. */
  predicate HasLoad(t: Tree)
  {
    match t
    case Load(_, _) => true
    case Negate(a) => HasLoad(a)
    case Binary(_, a, _) => HasLoad(a)
    case _ => false
  }

  // --------------------------------------------------------------- divisions

  /** No packet gives the operand a value other than 0, wherever the header starts. */
  ghost predicate NeverNonzero(b: Tree)
  {
    forall p: Packet, link: Word :: Eval(b, p, link) == None || Eval(b, p, link) == Some(0)
  }

  /** A division by the operand has no value on any packet, whatever is divided. */
  ghost predicate NeverDivides(op: AluOp, b: Tree)
  {
    forall a: Tree, p: Packet, link: Word :: Eval(Binary(op, a, b), p, link) == None
  }

  lemma NeverDividesByZero(op: AluOp, b: Tree)
    requires op == Div || op == Mod
    ensures NeverDivides(op, b) <==> NeverNonzero(b)
  {
    if NeverDivides(op, b) {
      forall p: Packet, link: Word ensures Eval(b, p, link) == None || Eval(b, p, link) == Some(0) {
        assert Eval(Const(1), p, link) == Some(1) && Eval(Binary(op, Const(1), b), p, link) == None;
        if Eval(b, p, link).Some? { assert Apply(op, 1, Eval(b, p, link).value) == None; }
      }
    }
    if NeverNonzero(b) {
      forall a: Tree, p: Packet, link: Word ensures Eval(Binary(op, a, b), p, link) == None {
        assert Eval(b, p, link) == None || Eval(b, p, link) == Some(0);
      }
    }
  }

  /** The longest packet, all its bytes alike. */
  ghost function Filled(byte: Octet): (p: Packet)
    ensures p.wirelen == 1 && |p.data| == TWO32 - 1 && forall i :: 0 <= i < |p.data| ==> p.data[i] == byte
  {
    Packet(seq(TWO32 - 1, i => byte), 1)
  }

  /** What loads from the packet of bytes 0x80 give, and its negations: nothing near either end of the words. */
  predicate OnEighties(w: Word) { w in {0x80, 0x8080, 0x8080_8080, 0xffff_ff80, 0xffff_7f80, 0x7f7f_7f80} }

  lemma FetchEighty(z: Size, k: nat)
    requires k + Bytes(z) < TWO32
    ensures OnEighties(Fetch(Filled(0x80), z, k))
  {
  }

  /** From the constant 0, load after load of that packet gives something other than 0. */
  lemma {:induction false} LoadsNonzero(b: Tree, link: Word)
    requires Unary(b) && Accepts(b) && Leftmost(b) == Stmt(LdImm, 0) && link < 0x7c
    ensures Eval(b, Filled(0x80), link).Some?
    ensures var w := Eval(b, Filled(0x80), link).value; if HasLoad(b) then OnEighties(w) else w == 0
  {
    hide Fetch, Filled;
    match b
    case Load(i, bytes) =>
      LoadsNonzero(i, link);
      FetchEighty(SizeFor(bytes).value, Eval(i, Filled(0x80), link).value + link);
    case Negate(a) => LoadsNonzero(a, link);
    case _ =>
  }

  lemma {:induction false} NoLoadIsZero(b: Tree, p: Packet, link: Word)
    requires Unary(b) && Leftmost(b) == Stmt(LdImm, 0) && !HasLoad(b)
    ensures Eval(b, p, link) == Some(0)
  {
    match b
    case Negate(a) => NoLoadIsZero(a, p, link);
    case _ =>
  }

  /** Exactly when refusing a division by such an operand is right: it is refused for the constant 0 it starts from,
      and has no value on any packet just if nothing is loaded on the way. */
  lemma DivisorRefusal(op: AluOp, b: Tree)
    requires (op == Div || op == Mod) && Unary(b) && Accepts(b) && Refusal(op, Leftmost(b)).Some?
    ensures NeverDivides(op, b) <==> !HasLoad(b)
    ensures HasLoad(b) ==> forall link :: 0 <= link < 0x7c ==> Eval(Binary(op, Const(6), b), Filled(0x80), link).Some?
  {
    hide NeverDivides;
    NeverDividesByZero(op, b);
    if HasLoad(b) {
      forall link | 0 <= link < 0x7c ensures Eval(Binary(op, Const(6), b), Filled(0x80), link).Some?
        { LoadsNonzero(b, link); }
      LoadsNonzero(b, 0);
    } else {
      forall p: Packet, link: Word ensures Eval(b, p, link) == Some(0) { NoLoadIsZero(b, p, link); }
    }
  }

  /** Without a load the refusal is exact: what is refused has no value anywhere, and what has none is refused. */
  lemma {:induction false} PlainDivisorRefusal(op: AluOp, b: Tree)
    requires (op == Div || op == Mod) && Unary(b) && !HasLoad(b)
    ensures Refusal(op, Leftmost(b)).Some? <==> NeverDivides(op, b)
  {
    hide NeverDivides;
    NeverDividesByZero(op, b);
    if Refusal(op, Leftmost(b)).Some? {
      forall p: Packet, link: Word ensures Eval(b, p, link) == Some(0) { NoLoadIsZero(b, p, link); }
    } else {
      PlainNonzero(b);
    }
  }

  lemma NegatedNonzero(w: Word)
    requires w != 0
    ensures Wrap(0 - w) != 0
  {
  }

  lemma {:induction false} PlainNonzero(b: Tree)
    requires Unary(b) && !HasLoad(b) && Leftmost(b) != Stmt(LdImm, 0)
    ensures Eval(b, Filled(0), 0).Some? && Eval(b, Filled(0), 0).value != 0
  {
    hide Wrap;
    match b
    case Negate(a) =>
      PlainNonzero(a);
      NegatedNonzero(Eval(a, Filled(0), 0).value);
    case _ =>
  }

  /** Operands that start from 0 and only multiply, divide, mask or shift it. */
  predicate ZeroSpine(b: Tree)
  {
    match b
    case Const(k) => k == 0
    case Negate(a) => ZeroSpine(a)
    case Binary(op, a, _) => op in {Mul, Div, Mod, And_, Lsh, Rsh} && ZeroSpine(a)
    case _ => false
  }

  lemma Absorbs(op: AluOp, w: Word)
    requires op in {Mul, Div, Mod, And_, Lsh, Rsh}
    ensures Apply(op, 0, w) == None || Apply(op, 0, w) == Some(0)
  {
    hide BitOp, Pow2, And, ShiftLeft, ShiftRight;
    ZeroBits(w);
    ZeroShifts(w);
    if w > 0 { ZeroOver(w); }
  }

  lemma {:induction false} ZeroSpineIsZero(b: Tree, p: Packet, link: Word)
    requires ZeroSpine(b)
    ensures Leftmost(b) == Stmt(LdImm, 0) && (Eval(b, p, link) == None || Eval(b, p, link) == Some(0))
  {
    hide Apply;
    match b
    case Negate(a) => ZeroSpineIsZero(a, p, link);
    case Binary(op, a, c) =>
      ZeroSpineIsZero(a, p, link);
      if Eval(c, p, link).Some? { Absorbs(op, Eval(c, p, link).value); }
    case _ =>
  }

  /** A divisor that starts from 0 and absorbs the rest is refused, rightly: no packet gives the division a value. */
  lemma AbsorbedDivisor(op: AluOp, b: Tree)
    requires (op == Div || op == Mod) && ZeroSpine(b)
    ensures Refusal(op, Leftmost(b)).Some? && NeverDivides(op, b)
  {
    hide NeverDivides;
    NeverDividesByZero(op, b);
    ZeroSpineIsZero(b, Filled(0), 0);
    forall p: Packet, link: Word ensures Eval(b, p, link) == None || Eval(b, p, link) == Some(0) {
      ZeroSpineIsZero(b, p, link);
    }
  }

  lemma AddsToZero(op: AluOp, w: Word)
    requires op in {Add, Sub, Or_, Xor_}
    ensures Apply(op, 0, w).Some? && (Apply(op, 0, w) == Some(0) <==> w == 0)
  {
    hide BitOp, Pow2, Or, Xor;
    ZeroBits(w);
  }

  /** A divisor 0 + c, 0 - c, 0 | c or 0 ^ c is always refused, and rightly just if c never is other than 0. */
  lemma SumDivisor(op: AluOp, sum: AluOp, z: Tree, c: Tree)
    requires (op == Div || op == Mod) && sum in {Add, Sub, Or_, Xor_}
    requires Unary(z) && !HasLoad(z) && Leftmost(z) == Stmt(LdImm, 0)
    ensures Refusal(op, Leftmost(Binary(sum, z, c))).Some?
    ensures NeverDivides(op, Binary(sum, z, c)) <==> NeverNonzero(c)
  {
    hide NeverDivides, Apply;
    var b := Binary(sum, z, c);
    NeverDividesByZero(op, b);
    forall p: Packet, link: Word
      ensures (Eval(b, p, link) == None <==> Eval(c, p, link) == None)
      ensures (Eval(b, p, link) == Some(0) <==> Eval(c, p, link) == Some(0))
    {
      NoLoadIsZero(z, p, link);
      if Eval(c, p, link).Some? { AddsToZero(sum, Eval(c, p, link).value); }
    }
    SameNever(b, c);
  }

  lemma SameNever(b: Tree, c: Tree)
    requires forall p: Packet, link: Word {:trigger Eval(b, p, link)} {:trigger Eval(c, p, link)} ::
               (Eval(b, p, link) == None <==> Eval(c, p, link) == None) &&
               (Eval(b, p, link) == Some(0) <==> Eval(c, p, link) == Some(0))
    ensures NeverNonzero(b) <==> NeverNonzero(c)
  {
  }

  /** Such refusals of divisions that have a value: 6 / (0 + len), and 6 / link[0]. */
  lemma RefusesNonzeroDivisor(p: Packet, link: Word)
    requires p.wirelen > 0
    ensures var t := Binary(Div, Const(6), Binary(Add, Const(0), PacketLength));
            !Accepts(t) && Eval(t, p, link).Some?
    ensures var t := Binary(Div, Const(6), Load(Const(0), 1));
            !Accepts(t) && (link < |p.data| && p.data[link] != 0 ==> Eval(t, p, link).Some?)
  {
    var d, l := Binary(Add, Const(0), PacketLength), Load(Const(0), 1);
    assert Leftmost(d) == Stmt(LdImm, 0) && Eval(d, p, link) == Some(p.wirelen);
    assert Leftmost(l) == Stmt(LdImm, 0) && (link < |p.data| ==> Eval(l, p, link) == Some(p.data[link]));
  }

  // ------------------------------------------------------------------ shifts

  /** On every packet that gives the operand a value, that is more than 31. */
  ghost predicate AlwaysFar(b: Tree, link: Word)
  {
    forall p: Packet :: Eval(b, p, link).Some? ==> Eval(b, p, link).value > 31
  }

  /** The value of an operand without loads and without the packet's length. */
  function Folded(b: Tree): Word
  {
    match b
    case Const(k) => k
    case Negate(a) => Wrap(0 - Folded(a))
    case _ => 0
  }

  lemma {:induction false} FoldedIsValue(b: Tree, p: Packet, link: Word)
    requires Unary(b) && !HasLoad(b) && Leftmost(b).code == LdImm
    ensures Eval(b, p, link) == Some(Folded(b))
  {
    match b
    case Negate(a) => FoldedIsValue(a, p, link);
    case _ =>
  }

  /** Some packet is long enough for all loads: the first is at a fixed place, a later one can be made to start at 0. */
  predicate InReach(b: Tree, link: Word)
  {
    match b
    case Load(i, bytes) =>
      SizeFor(bytes).Some? &&
      (if HasLoad(i) then InReach(i, link) && link + Bytes(SizeFor(bytes).value) < TWO32
       else Folded(i) + link + Bytes(SizeFor(bytes).value) < TWO32)
    case Negate(a) => InReach(a, link)
    case _ => true
  }

  lemma FetchZero(z: Size, k: nat)
    requires k + Bytes(z) < TWO32
    ensures Fetch(Filled(0), z, k) == 0
  {
  }

  lemma {:induction false} InReachGivesZero(b: Tree, link: Word)
    requires Unary(b) && Leftmost(b).code == LdImm && HasLoad(b) && InReach(b, link)
    ensures Eval(b, Filled(0), link) == Some(0)
  {
    hide Fetch, Filled;
    match b
    case Load(i, bytes) =>
      if HasLoad(i) { InReachGivesZero(i, link); } else { FoldedIsValue(i, Filled(0), link); }
      FetchZero(SizeFor(bytes).value, Eval(i, Filled(0), link).value + link);
    case Negate(a) => InReachGivesZero(a, link);
    case _ =>
  }

  lemma {:induction false} OutOfReach(b: Tree, p: Packet, link: Word)
    requires Unary(b) && Leftmost(b).code == LdImm && HasLoad(b) && !InReach(b, link)
    ensures Eval(b, p, link) == None
  {
    match b
    case Load(i, bytes) =>
      if HasLoad(i) {
        if !InReach(i, link) { OutOfReach(i, p, link); }
      } else {
        FoldedIsValue(i, p, link);
      }
    case Negate(a) => OutOfReach(a, p, link);
    case _ =>
  }

  /** Exactly when refusing a shift by such an operand is right, that is when no packet makes it shift by at most 31:
      without a load, if the negations leave it so; with one, if no packet is long enough to read. */
  lemma ShiftRefusal(op: AluOp, b: Tree, link: Word)
    requires (op == Lsh || op == Rsh) && Unary(b) && Refusal(op, Leftmost(b)).Some?
    ensures AlwaysFar(b, link) <==> if HasLoad(b) then !InReach(b, link) else Folded(b) > 31
  {
    if !HasLoad(b) {
      forall p: Packet ensures Eval(b, p, link) == Some(Folded(b)) { FoldedIsValue(b, p, link); }
      assert Eval(b, Filled(0), link) == Some(Folded(b));
    } else if InReach(b, link) {
      InReachGivesZero(b, link);
    } else {
      forall p: Packet ensures Eval(b, p, link) == None { OutOfReach(b, p, link); }
    }
  }

  /** Such refusals of shifts by little: 1 << -0xffffffff, by 1, and 1 << link[40], by what the packet holds there. */
  lemma RefusesSmallShift(p: Packet, link: Word)
    ensures var t := Binary(Lsh, Const(1), Negate(Const(0xffff_ffff)));
            !Accepts(t) && Eval(t.b, p, link) == Some(1) && Eval(t, p, link) == Some(2)
    ensures var t := Binary(Lsh, Const(1), Load(Const(40), 1));
            !Accepts(t) && (40 + link < |p.data| ==> Eval(t.b, p, link) == Some(p.data[40 + link]))
  {
    var n, l := Negate(Const(0xffff_ffff)), Load(Const(40), 1);
    assert Leftmost(n) == Stmt(LdImm, 0xffff_ffff) && Leftmost(l) == Stmt(LdImm, 40);
    assert Eval(n, p, link) == Some(1) && Pow2(1) == 2 * Pow2(0);
  }
}
