/**
 * Arithmetic expressions: the register allocator and the code generator that
 * leaves a tree's value in a scratch register.
 */
module Arith {
  import opened Words
  import opened Machine
  import opened Acceptance
  import opened Liveness
  import opened SelfContained

  datatype Error = TooManyRegisters | BadDataSize | DivisionByZero | ModulusByZero | ShiftTooBig

  datatype Compiled<+T> = Ok(value: T) | Err(error: Error)

  /** An arithmetic expression over the packet. `bytes` is the width written in the filter. */
  datatype Tree =
    | Const(k: Word)
    | PacketLength
    | Load(index: Tree, bytes: nat)
    | Negate(a: Tree)
    | Binary(op: AluOp, a: Tree, b: Tree)

  function SizeFor(bytes: nat): Option<Size>
  {
    match bytes case 1 => Some(B) case 2 => Some(H) case 4 => Some(W) case _ => None
  }

  /** The 32-bit value of a tree; None when a load or a division fails.
      Loads are relative to the link-layer header, at a fixed offset. */
  function Eval(t: Tree, p: Packet, link: Word): Option<Word>
  {
    match t
    case Const(k) => Some(k)
    case PacketLength => Some(p.wirelen)
    case Load(i, bytes) =>
      (match (SizeFor(bytes), Eval(i, p, link))
       case (Some(z), Some(v)) =>
         if v + link + Bytes(z) <= |p.data| then Some(Fetch(p, z, v + link)) else None
       case _ => None)
    case Negate(a) =>
      (match Eval(a, p, link) case Some(v) => Some(Wrap(0 - v)) case None => None)
    case Binary(op, a, b) =>
      (match (Eval(a, p, link), Eval(b, p, link))
       case (Some(v), Some(w)) => Apply(op, v, w)
       case _ => None)
  }

  // --------------------------------------------------------------- registers

  type Used = u: seq<bool> | |u| == 16 witness seq(16, i => false)

  function CountFree(u: seq<bool>): nat
  {
    if u == [] then 0 else (if u[0] then 0 else 1) + CountFree(u[1..])
  }

  lemma {:induction false} TakeOne(u: seq<bool>, r: nat)
    requires r < |u| && !u[r]
    ensures CountFree(u) == CountFree(u[r := true]) + 1
  {
    var u' := u[r := true];
    if r == 0 {
      assert u'[1..] == u[1..];
    } else {
      TakeOne(u[1..], r - 1);
      assert u'[1..] == u[1..][r - 1 := true];
    }
  }

  lemma {:induction false} NoneFree(u: seq<bool>)
    requires forall i :: 0 <= i < |u| ==> u[i]
    ensures CountFree(u) == 0
  {
    if u != [] { NoneFree(u[1..]); }
  }

  /** Registers a tree needs at once: an operand is held while the next one is computed,
      and a load gets its register before its index gives one back. */
  function Needs(t: Tree): (n: nat)
    ensures n >= 1
  {
    match t
    case Const(_) => 1
    case PacketLength => 1
    case Load(i, _) => if Needs(i) < 2 then 2 else Needs(i)
    case Negate(a) => Needs(a)
    case Binary(_, a, b) => if Needs(a) < 1 + Needs(b) then 1 + Needs(b) else Needs(a)
  }

  // ---------------------------------------------------------------- generator

  /** Code under construction and the register its value ends up in. */
  datatype Arth = Arth(s: seq<Stmt>, regno: nat)

  /** Running the code leaves the tree's value in the register and keeps every
      register in `keep`; it rejects the packet exactly when the tree has no value. */
  ghost predicate Computes(a: Arth, t: Tree, link: Word, keep: Used)
  {
    a.regno < 16 &&
    forall st: State, p: Packet :: ComputesOn(a, t, link, keep, st, p)
  }

  ghost predicate ComputesOn(a: Arth, t: Tree, link: Word, keep: Used, st: State, p: Packet)
    requires a.regno < 16
  {
    match Eval(t, p, link)
    case None => ExecList(a.s, st, p) == Reject
    case Some(v) =>
      && ExecList(a.s, st, p).Next?
      && var st' := ExecList(a.s, st, p).st;
         st'.mem[a.regno] == v && forall r :: 0 <= r < 16 && keep[r] ==> st'.mem[r] == st.mem[r]
  }

  predicate AllLegal(ss: seq<Stmt>) { forall i :: 0 <= i < |ss| ==> Legal(ss[i]) }

  /** The operand whose load starts a tree's code. */
  function Leftmost(t: Tree): Stmt
  {
    match t
    case Const(k) => Stmt(LdImm, k)
    case PacketLength => Stmt(LdLen, 0)
    case Load(i, _) => Leftmost(i)
    case Negate(a) => Leftmost(a)
    case Binary(_, a, _) => Leftmost(a)
  }

  /** Trees the generator does not refuse. A division is refused when the leftmost
      operand of the divisor is the constant 0, whatever the divisor's value. */
  predicate Accepts(t: Tree)
  {
    match t
    case Const(_) => true
    case PacketLength => true
    case Load(i, bytes) => Accepts(i) && SizeFor(bytes).Some?
    case Negate(a) => Accepts(a)
    case Binary(op, a, b) => Accepts(a) && Accepts(b) && Refusal(op, Leftmost(b)).None?
  }

  /** gen_arth's refusals look only at the first statement of the right operand. */
  function Refusal(op: AluOp, first: Stmt): Option<Error>
  {
    if op == Div && first == Stmt(LdImm, 0) then Some(DivisionByZero)
    else if op == Mod && first == Stmt(LdImm, 0) then Some(ModulusByZero)
    else if (op == Lsh || op == Rsh) && first.code == LdImm && first.k > 31 then Some(ShiftTooBig)
    else None
  }

  /** Something in the tree that the error is about. */
  predicate Finds(t: Tree, e: Error)
  {
    match t
    case Const(_) => false
    case PacketLength => false
    case Load(i, bytes) => Finds(i, e) || (e == BadDataSize && bytes !in {1, 2, 4})
    case Negate(a) => Finds(a, e)
    case Binary(op, a, b) => Finds(a, e) || Finds(b, e) || Refusal(op, Leftmost(b)) == Some(e)
  }

  /** How many steps the allocator takes from one register round to another. */
  function Steps(from: nat, to: nat): int { if to >= from then to - from else to - from + 16 }

  // What the generator appends, and what running it does.

  function NegCode(a: Arth): seq<Stmt>
    requires a.regno < 16
  {
    a.s + [Stmt(LdMem, a.regno)] + [Stmt(Neg, 0)] + [Stmt(St, a.regno)]
  }

  function LoadCode(a: Arth, z: Size, link: Word, r: nat): seq<Stmt>
    requires a.regno < 16 && r < 16
  {
    a.s + [Stmt(LdxMem, a.regno)] + [Stmt(LdInd(z), link)] + [Stmt(St, r)]
  }

  function BinaryCode(op: AluOp, a: Arth, b: Arth, r: nat): seq<Stmt>
    requires a.regno < 16 && b.regno < 16 && r < 16
  {
    a.s + b.s + [Stmt(LdxMem, b.regno)] + [Stmt(LdMem, a.regno)] + [Stmt(Alu(op, X), 0)] + [Stmt(St, r)]
  }

  lemma LeafComputes(s: Stmt, t: Tree, r: nat, link: Word, keep: Used)
    requires r < 16 && !keep[r]
    requires (t.Const? && s == Stmt(LdImm, t.k)) || (t.PacketLength? && s == Stmt(LdLen, 0))
    ensures Computes(Arth([s] + [Stmt(St, r)], r), t, link, keep)
  {
    forall st: State, p: Packet ensures ComputesOn(Arth([s] + [Stmt(St, r)], r), t, link, keep, st, p) {
      RunOne(s, st, p);
      RunThen([s], Stmt(St, r), st, p);
    }
  }

  lemma NegComputes(a: Arth, t: Tree, link: Word, keep: Used)
    requires Computes(a, t, link, keep) && !keep[a.regno]
    ensures Computes(Arth(NegCode(a), a.regno), Negate(t), link, keep)
  {
    hide ExecList;
    forall st: State, p: Packet ensures ComputesOn(Arth(NegCode(a), a.regno), Negate(t), link, keep, st, p) {
      var s1 := a.s + [Stmt(LdMem, a.regno)];
      assert ComputesOn(a, t, link, keep, st, p);
      RunThen(a.s, Stmt(LdMem, a.regno), st, p);
      RunThen(s1, Stmt(Neg, 0), st, p);
      RunThen(s1 + [Stmt(Neg, 0)], Stmt(St, a.regno), st, p);
    }
  }

  lemma LoadComputes(a: Arth, t: Tree, bytes: nat, z: Size, r: nat, link: Word, keep: Used)
    requires Computes(a, t, link, keep) && r < 16 && !keep[r] && SizeFor(bytes) == Some(z)
    ensures Computes(Arth(LoadCode(a, z, link, r), r), Load(t, bytes), link, keep)
  {
    hide ComputesOn;
    forall st: State, p: Packet
      ensures ComputesOn(Arth(LoadCode(a, z, link, r), r), Load(t, bytes), link, keep, st, p)
    {
      assert ComputesOn(a, t, link, keep, st, p);
      LoadComputesOn(a, t, bytes, z, r, link, keep, st, p);
    }
  }

  lemma LoadComputesOn(a: Arth, t: Tree, bytes: nat, z: Size, r: nat, link: Word, keep: Used, st: State, p: Packet)
    requires a.regno < 16 && ComputesOn(a, t, link, keep, st, p) && r < 16 && !keep[r] && SizeFor(bytes) == Some(z)
    ensures ComputesOn(Arth(LoadCode(a, z, link, r), r), Load(t, bytes), link, keep, st, p)
  {
    hide ExecList, Fetch, IndInside;
    var s1 := a.s + [Stmt(LdxMem, a.regno)];
    RunThen(a.s, Stmt(LdxMem, a.regno), st, p);
    RunThen(s1, Stmt(LdInd(z), link), st, p);
    RunThen(s1 + [Stmt(LdInd(z), link)], Stmt(St, r), st, p);
  }

  /** The right operand is computed while the left one is held in its register. */
  lemma BinaryComputes(op: AluOp, a: Arth, b: Arth, ta: Tree, tb: Tree, r: nat, link: Word, keep: Used)
    requires Computes(a, ta, link, keep) && r < 16 && !keep[r]
    requires Computes(b, tb, link, keep[a.regno := true])
    ensures Computes(Arth(BinaryCode(op, a, b, r), r), Binary(op, ta, tb), link, keep)
  {
    hide ExecList, Apply;
    forall st: State, p: Packet
      ensures ComputesOn(Arth(BinaryCode(op, a, b, r), r), Binary(op, ta, tb), link, keep, st, p)
    {
      var s0 := a.s + b.s;
      var s1 := s0 + [Stmt(LdxMem, b.regno)];
      var s2 := s1 + [Stmt(LdMem, a.regno)];
      assert ComputesOn(a, ta, link, keep, st, p);
      ExecAppend(a.s, b.s, st, p);
      if Eval(ta, p, link).Some? {
        assert ComputesOn(b, tb, link, keep[a.regno := true], ExecList(a.s, st, p).st, p);
      }
      RunThen(s0, Stmt(LdxMem, b.regno), st, p);
      RunThen(s1, Stmt(LdMem, a.regno), st, p);
      RunThen(s2, Stmt(Alu(op, X), 0), st, p);
      RunThen(s2 + [Stmt(Alu(op, X), 0)], Stmt(St, r), st, p);
    }
  }

  lemma LegalMoves(r: nat)
    requires r < 16
    ensures Legal(Stmt(LdMem, r)) && Legal(Stmt(LdxMem, r)) && Legal(Stmt(St, r)) && Legal(Stmt(Neg, 0))
  {
  }

  lemma LegalLoad(z: Size, link: Word)
    ensures Legal(Stmt(LdInd(z), link))
  {
  }

  lemma LegalAluX(op: AluOp)
    ensures Legal(Stmt(Alu(op, X), 0))
  {
  }

  // The code reads only what it has set itself.

  /** The code sets the register of its value, and reads nothing it has not set. */
  predicate Standalone(a: Arth) { Contained(a.s) && a.regno < 16 && a.regno in Defs(a.s) }

  lemma LeafStandalone(s: Stmt, r: nat)
    requires s.code in {LdImm, LdLen} && r < 16
    ensures Standalone(Arth([s] + [Stmt(St, r)], r))
  {
    hide Defs, Exposed;
    OneStatement(s);
    ContainedThen([s], Stmt(St, r));
  }

  lemma NegStandalone(a: Arth)
    requires Standalone(a)
    ensures Standalone(Arth(NegCode(a), a.regno))
  {
    hide Defs, Contained;
    var s1 := a.s + [Stmt(LdMem, a.regno)];
    ContainedThen(a.s, Stmt(LdMem, a.regno));
    ContainedThen(s1, Stmt(Neg, 0));
    ContainedThen(s1 + [Stmt(Neg, 0)], Stmt(St, a.regno));
  }

  lemma LoadStandalone(a: Arth, z: Size, link: Word, r: nat)
    requires Standalone(a) && r < 16
    ensures Standalone(Arth(LoadCode(a, z, link, r), r))
  {
    hide Defs, Contained;
    var s1 := a.s + [Stmt(LdxMem, a.regno)];
    ContainedThen(a.s, Stmt(LdxMem, a.regno));
    ContainedThen(s1, Stmt(LdInd(z), link));
    ContainedThen(s1 + [Stmt(LdInd(z), link)], Stmt(St, r));
  }

  /** Both operands in X and A. */
  lemma OperandsHeld(a: Arth, b: Arth)
    requires Standalone(a) && Standalone(b)
    ensures var ss := a.s + b.s + [Stmt(LdxMem, b.regno)] + [Stmt(LdMem, a.regno)];
            Contained(ss) && A_ATOM in Defs(ss) && X_ATOM in Defs(ss)
  {
    hide Defs, Exposed;
    var s0 := a.s + b.s;
    ContainedAppend(a.s, b.s);
    ContainedThen(s0, Stmt(LdxMem, b.regno));
    ContainedThen(s0 + [Stmt(LdxMem, b.regno)], Stmt(LdMem, a.regno));
  }

  lemma BinaryStandalone(op: AluOp, a: Arth, b: Arth, r: nat)
    requires Standalone(a) && Standalone(b) && r < 16
    ensures Standalone(Arth(BinaryCode(op, a, b, r), r))
  {
    hide Defs, Contained;
    OperandsHeld(a, b);
    var ss := a.s + b.s + [Stmt(LdxMem, b.regno)] + [Stmt(LdMem, a.regno)];
    ContainedThen(ss, Stmt(Alu(op, X), 0));
    ContainedThen(ss + [Stmt(Alu(op, X), 0)], Stmt(St, r));
  }

  class Registers {
    var curreg: nat
    var regused: Used

    constructor ()
      ensures Valid() && regused == seq(16, i => false)
    {
      curreg := 0;
      regused := seq(16, i => false);
    }

    ghost predicate Valid()
      reads this
    {
      curreg < 16
    }

    /** The next free register, from the current one on. */
    method AllocReg() returns (r: Option<nat>)
      requires Valid()
      modifies this
      ensures Valid()
      ensures r.None? <==> forall i :: 0 <= i < 16 ==> old(regused)[i]
      ensures r.None? ==> regused == old(regused)
      ensures r.Some? ==> r.value < 16 && !old(regused)[r.value] && regused == old(regused)[r.value := true]
      ensures r.Some? ==> r.value == curreg &&
                          forall i :: 0 <= i < 16 && Steps(old(curreg), i) < Steps(old(curreg), r.value) ==>
                            old(regused)[i]
    {
      var n := 16;
      ghost var start := curreg;
      while n > 0
        invariant 0 <= n <= 16 && curreg < 16 && regused == old(regused)
        invariant n > 0 ==> Steps(start, curreg) == 16 - n
        invariant forall r :: 0 <= r < 16 && Steps(start, r) < 16 - n ==> regused[r]
      {
        n := n - 1;
        if regused[curreg] {
          curreg := (curreg + 1) % 16;
        } else {
          regused := regused[curreg := true];
          return Some(curreg);
        }
      }
      assert forall r :: 0 <= r < 16 ==> Steps(start, r) < 16;
      return None;
    }

    method FreeReg(n: nat)
      requires Valid() && n < 16
      modifies this
      ensures Valid() && regused == old(regused)[n := false] && curreg == old(curreg)
    {
      regused := regused[n := false];
    }

    /** gen_loadi and gen_loadlen: one load, then a store to a fresh register. */
    method GenLeaf(s: Stmt, ghost t: Tree, link: Word) returns (r: Compiled<Arth>)
      requires Valid()
      requires (t.Const? && s == Stmt(LdImm, t.k)) || (t.PacketLength? && s == Stmt(LdLen, 0))
      modifies this
      ensures Valid()
      ensures r.Ok? ==>
                && Computes(r.value, t, link, old(regused))
                && r.value.regno < 16 && !old(regused)[r.value.regno] && regused == old(regused)[r.value.regno := true]
                && r.value.s != [] && AllLegal(r.value.s) && Standalone(r.value)
      ensures r.Ok? ==> r.value.s[0] == s && r.value.regno < 16
      ensures r.Err? ==> r.error == TooManyRegisters
      ensures r.Err? <==> CountFree(old(regused)) == 0
    {
      hide Computes, Standalone;
      var reg := AllocReg();
      if reg.None? {
        NoneFree(old(regused));
        return Err(TooManyRegisters);
      }
      TakeOne(old(regused), reg.value);
      LeafComputes(s, t, reg.value, link, old(regused));
      LeafStandalone(s, reg.value);
      return Ok(Arth([s] + [Stmt(St, reg.value)], reg.value));
    }

    /** gen_load for the link-layer header: the result's register is taken before the index's is freed. */
    method GenLoad(a: Arth, ghost t: Tree, bytes: nat, link: Word, ghost keep: Used) returns (r: Compiled<Arth>)
      requires Valid() && Computes(a, t, link, keep) && a.regno < 16
      requires !keep[a.regno] && regused == keep[a.regno := true] && a.s != [] && AllLegal(a.s) && Standalone(a)
      modifies this
      ensures Valid()
      ensures r.Ok? ==>
                && Computes(r.value, Load(t, bytes), link, keep)
                && r.value.regno < 16 && !keep[r.value.regno] && regused == keep[r.value.regno := true]
                && r.value.s != [] && AllLegal(r.value.s) && Standalone(r.value)
      ensures r.Ok? ==> r.value.s[0] == a.s[0]
      ensures r.Ok? <==> CountFree(keep) != 1 && SizeFor(bytes).Some?
      ensures r == Err(TooManyRegisters) <==> CountFree(keep) == 1
      ensures r.Err? && r.error != TooManyRegisters ==> Finds(Load(t, bytes), r.error)
    {
      hide Computes, Legal, Standalone;
      TakeOne(keep, a.regno);
      var reg := AllocReg();
      if reg.None? {
        NoneFree(old(regused));
        return Err(TooManyRegisters);
      }
      TakeOne(old(regused), reg.value);
      FreeReg(a.regno);
      match SizeFor(bytes) {
        case None => return Err(BadDataSize);
        case Some(z) =>
          LoadComputes(a, t, bytes, z, reg.value, link, keep);
          LoadStandalone(a, z, link, reg.value);
          LegalMoves(a.regno);
          LegalMoves(reg.value);
          LegalLoad(z, link);
          return Ok(Arth(LoadCode(a, z, link, reg.value), reg.value));
      }
    }

    /** gen_arth: both operands' registers are freed before the result's is taken. */
    method GenArth(op: AluOp, a: Arth, b: Arth, ghost ta: Tree, ghost tb: Tree, link: Word, ghost keep: Used)
        returns (r: Compiled<Arth>)
      requires Valid() && Computes(a, ta, link, keep) && a.regno < 16 && b.regno < 16
      requires Computes(b, tb, link, keep[a.regno := true]) && !keep[a.regno] && !keep[b.regno] && a.regno != b.regno
      requires regused == keep[a.regno := true][b.regno := true] && a.s != [] && b.s != [] && AllLegal(a.s)
      requires AllLegal(b.s)
      requires Standalone(a) && Standalone(b)
      modifies this
      ensures Valid()
      ensures r.Ok? ==>
                && Computes(r.value, Binary(op, ta, tb), link, keep)
                && r.value.regno < 16 && !keep[r.value.regno] && regused == keep[r.value.regno := true]
                && r.value.s != [] && AllLegal(r.value.s) && Standalone(r.value)
      ensures r.Ok? ==> r.value.s[0] == (a.s + b.s)[0]
      ensures r.Err? <==> Refusal(op, b.s[0]).Some?
      ensures r.Err? ==> Refusal(op, b.s[0]) == Some(r.error)
      ensures r != Err(TooManyRegisters)
    {
      hide Computes, Legal, Standalone;
      match Refusal(op, b.s[0]) {
        case Some(e) => return Err(e);
        case None =>
      }
      FreeReg(a.regno);
      FreeReg(b.regno);
      assert regused == keep;
      var reg := AllocReg();
      BinaryComputes(op, a, b, ta, tb, reg.value, link, keep);
      BinaryStandalone(op, a, b, reg.value);
      LegalMoves(a.regno);
      LegalMoves(b.regno);
      LegalMoves(reg.value);
      LegalAluX(op);
      return Ok(Arth(BinaryCode(op, a, b, reg.value), reg.value));
    }

    /** Code for a tree, and the register that holds its value afterwards. */
    method Generate(t: Tree, link: Word) returns (r: Compiled<Arth>)
      requires Valid()
      modifies this
      ensures Valid()
      ensures r.Ok? ==>
                && Computes(r.value, t, link, old(regused))
                && r.value.regno < 16 && !old(regused)[r.value.regno] && regused == old(regused)[r.value.regno := true]
                && r.value.s != [] && AllLegal(r.value.s) && Standalone(r.value)
      ensures r.Ok? ==> r.value.s[0] == Leftmost(t)
      ensures r.Ok? <==> CountFree(old(regused)) >= Needs(t) && Accepts(t)
      ensures r == Err(TooManyRegisters) ==> CountFree(old(regused)) < Needs(t)
      ensures r.Err? && r.error != TooManyRegisters ==> Finds(t, r.error)
      decreases t
    {
      hide Computes, Legal, Standalone;
      match t {
        case Const(k) =>
          r := GenLeaf(Stmt(LdImm, k), t, link);
        case PacketLength =>
          r := GenLeaf(Stmt(LdLen, 0), t, link);
        case Negate(a) =>
          r := Generate(a, link);
          if r.Ok? {
            NegComputes(r.value, a, link, old(regused));
            NegStandalone(r.value);
            LegalMoves(r.value.regno);
            r := Ok(Arth(NegCode(r.value), r.value.regno));
          }
        case Load(i, bytes) =>
          r := Generate(i, link);
          if r.Ok? { r := GenLoad(r.value, i, bytes, link, old(regused)); }
        case Binary(op, a, b) =>
          var ra := Generate(a, link);
          if ra.Err? { return ra; }
          TakeOne(old(regused), ra.value.regno);
          var rb := Generate(b, link);
          if rb.Err? { return rb; }
          r := GenArth(op, ra.value, rb.value, a, b, link, old(regused));
      }
    }
  }
}
