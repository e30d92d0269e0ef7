/** Comparisons of two arithmetic expressions, as tests of a filter. */
module Relation {
  import opened Words
  import opened Machine
  import opened Acceptance
  import opened CodeGen
  import opened Arith
  import opened Liveness
  import opened SelfContained
  import C = Compiler

  /** Equality is compiled as a subtraction compared with 0, the others as a comparison with X. */
  function TestOf(op: JmpOp, a: Arth, b: Arth): Filter
    requires a.regno < 16 && b.regno < 16
  {
    var ss := a.s + b.s + [Stmt(LdxMem, b.regno)] + [Stmt(LdMem, a.regno)];
    if op == Jeq then Atom(ss + [Stmt(Alu(Sub, X), 0)], Stmt(Jmp(Jeq, K), 0))
    else Atom(ss, Stmt(Jmp(op, X), 0))
  }

  /** Whether the comparison holds of the packet; None when an operand has no value there. */
  function Holds(op: JmpOp, ta: Tree, tb: Tree, reversed: bool, p: Packet, link: Word): Option<bool>
  {
    match (Eval(ta, p, link), Eval(tb, p, link))
    case (Some(v), Some(w)) => Some(Compare(op, v, w) != reversed)
    case _ => None
  }

  /** The filter says whether the comparison holds, and ends the run when an operand has no value. */
  ghost predicate Decides(f: Filter, op: JmpOp, ta: Tree, tb: Tree, reversed: bool, link: Word)
  {
    && C.Sound(f) && C.LegalFilter(f)
    && forall st: State, p: Packet ::
         match C.Eval(f, st, p)
         case Says(v, _) => Holds(op, ta, tb, reversed, p, link) == Some(v)
         case Ends(r) => Holds(op, ta, tb, reversed, p, link) == None && r == Rejected
  }

  lemma OperandsLoaded(a: Arth, b: Arth, ta: Tree, tb: Tree, link: Word, keep: Used, st: State, p: Packet)
    requires Computes(a, ta, link, keep) && Computes(b, tb, link, keep[a.regno := true])
    ensures var r := ExecList(a.s + b.s + [Stmt(LdxMem, b.regno)] + [Stmt(LdMem, a.regno)], st, p);
            match (Eval(ta, p, link), Eval(tb, p, link))
            case (Some(v), Some(w)) => r.Next? && r.st.a == v && r.st.x == w
            case _ => r == Reject
  {
    hide ExecList;
    var s0 := a.s + b.s;
    assert ComputesOn(a, ta, link, keep, st, p);
    ExecAppend(a.s, b.s, st, p);
    if Eval(ta, p, link).Some? {
      assert ComputesOn(b, tb, link, keep[a.regno := true], ExecList(a.s, st, p).st, p);
    }
    RunThen(s0, Stmt(LdxMem, b.regno), st, p);
    RunThen(s0 + [Stmt(LdxMem, b.regno)], Stmt(LdMem, a.regno), st, p);
  }

  /** Subtracting modulo 2^32 gives 0 exactly for equal words. */
  lemma DifferenceIsZero(v: Word, w: Word)
    ensures Wrap(v - w) == 0 <==> v == w
  {
  }

  lemma TestDecides(op: JmpOp, a: Arth, b: Arth, ta: Tree, tb: Tree, link: Word, keep: Used, st: State, p: Packet)
    requires Computes(a, ta, link, keep) && Computes(b, tb, link, keep[a.regno := true])
    ensures var f := TestOf(op, a, b);
            match C.EvalTest(f.stmts, f.s, st, p)
            case Says(v, _) => Holds(op, ta, tb, false, p, link) == Some(v)
            case Ends(r) => Holds(op, ta, tb, false, p, link) == None && r == Rejected
  {
    hide ExecList, ComputesOn;
    var ss := a.s + b.s + [Stmt(LdxMem, b.regno)] + [Stmt(LdMem, a.regno)];
    OperandsLoaded(a, b, ta, tb, link, keep, st, p);
    if op == Jeq {
      RunThen(ss, Stmt(Alu(Sub, X), 0), st, p);
      match (Eval(ta, p, link), Eval(tb, p, link))
      case (Some(v), Some(w)) => DifferenceIsZero(v, w);
      case _ =>
    }
  }

  /** Code for both operands, then the comparison; all registers are given back. */
  method GenRelation(regs: Registers, op: JmpOp, ta: Tree, tb: Tree, reversed: bool, link: Word)
      returns (r: Compiled<Filter>)
    requires regs.Valid()
    modifies regs
    ensures regs.Valid()
    ensures r.Ok? ==> Decides(r.value, op, ta, tb, reversed, link) && regs.regused == old(regs.regused)
    ensures r.Ok? ==> ContainedFilter(r.value)
    ensures r.Ok? <==> Accepts(ta) && Accepts(tb) &&
                       CountFree(old(regs.regused)) >= Needs(ta) && CountFree(old(regs.regused)) >= 1 + Needs(tb)
  {
    hide Computes, C.Eval, C.EvalTest, Legal, Standalone, Contained, Defs;
    ghost var keep := regs.regused;
    var ra := regs.Generate(ta, link);
    if ra.Err? { return Err(ra.error); }
    var a := ra.value;
    TakeOne(keep, a.regno);
    var rb := regs.Generate(tb, link);
    if rb.Err? { return Err(rb.error); }
    var b := rb.value;
    regs.FreeReg(a.regno);
    regs.FreeReg(b.regno);
    assert regs.regused == keep;
    var f := TestOf(op, a, b);
    RelationDecides(op, a, b, ta, tb, reversed, link, keep);
    RelationContained(op, a, b);
    return Ok(if reversed then Negated(f) else f);
  }

  /** The test reads only what it has set itself. */
  lemma RelationContained(op: JmpOp, a: Arth, b: Arth)
    requires Standalone(a) && Standalone(b)
    ensures ContainedFilter(TestOf(op, a, b))
  {
    hide Defs, Contained;
    OperandsHeld(a, b);
    var ss := a.s + b.s + [Stmt(LdxMem, b.regno)] + [Stmt(LdMem, a.regno)];
    ContainedThen(ss, Stmt(Alu(Sub, X), 0));
  }

  lemma RelationDecides(op: JmpOp, a: Arth, b: Arth, ta: Tree, tb: Tree, reversed: bool, link: Word, keep: Used)
    requires Computes(a, ta, link, keep) && Computes(b, tb, link, keep[a.regno := true])
    requires AllLegal(a.s) && AllLegal(b.s)
    ensures var f := TestOf(op, a, b); Decides(if reversed then Negated(f) else f, op, ta, tb, reversed, link)
  {
    hide ComputesOn, Legal, C.EvalTest, C.Eval, Holds, C.LegalFilter;
    var f := TestOf(op, a, b);
    TestIsLegal(op, a, b);
    NegatedIsLegal(f);
    var h := if reversed then Negated(f) else f;
    forall st: State, p: Packet
      ensures match C.Eval(h, st, p)
              case Says(v, _) => Holds(op, ta, tb, reversed, p, link) == Some(v)
              case Ends(r) => Holds(op, ta, tb, reversed, p, link) == None && r == Rejected
    {
      TestDecides(op, a, b, ta, tb, link, keep, st, p);
      EvalReversed(f, reversed, st, p);
      HoldsReversed(op, ta, tb, reversed, p, link);
    }
  }

  lemma EvalReversed(f: Filter, reversed: bool, st: State, p: Packet)
    requires f.Atom? && C.Sound(f)
    ensures C.Eval(if reversed then Negated(f) else f, st, p) ==
            match C.EvalTest(f.stmts, f.s, st, p) case Says(v, st') => C.Says(v != reversed,
              st') case Ends(r) => C.Ends(r)
  {
    hide C.EvalTest;
    assert C.Eval(f, st, p) == C.EvalTest(f.stmts, f.s, st, p);
  }

  lemma HoldsReversed(op: JmpOp, ta: Tree, tb: Tree, reversed: bool, p: Packet, link: Word)
    ensures Holds(op, ta, tb, reversed, p, link) ==
            match Holds(op, ta, tb, false, p, link) case Some(v) => Some(v != reversed) case None => None
  {
    hide Compare, Eval;
  }

  lemma NegatedIsLegal(f: Filter)
    requires C.LegalFilter(f) && C.Sound(f)
    ensures C.LegalFilter(Negated(f)) && C.Sound(Negated(f))
  {
  }

  lemma TestIsLegal(op: JmpOp, a: Arth, b: Arth)
    requires a.regno < 16 && b.regno < 16 && AllLegal(a.s) && AllLegal(b.s)
    ensures C.LegalFilter(TestOf(op, a, b)) && C.Sound(TestOf(op, a, b))
  {
    hide Legal;
    LegalMoves(a.regno);
    LegalMoves(b.regno);
    LegalAluX(Sub);
  }

  /** A compiled comparison accepts exactly the packets on which it holds. */
  lemma RelationProgram(prog: seq<Insn>, f: Filter, op: JmpOp, ta: Tree, tb: Tree, reversed: bool, link: Word,
                        snaplen: Word, st: State, p: Packet)
    requires Decides(f, op, ta, tb, reversed, link) && C.Compiles(prog, f, snaplen)
    ensures var r := Run(prog, 0, st, p, |prog|);
            && r.Some? && !r.value.Trapped?
            && Value(r.value) == if Holds(op, ta, tb, reversed, p, link) == Some(true) then snaplen else 0
  {
    hide Run, Holds;
    match C.Eval(f, st, p) case Says(_, _) => case Ends(_) =>
  }
}
