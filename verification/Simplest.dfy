/**
 * The rewritings do not stop short: what opt_stmt and opt_peep leave, they could
 * not have simplified further in the same way.
 */
module Simplest {
  import opened Words
  import opened Machine
  import opened FlowGraph
  import opened Liveness
  import opened ValueNumbers
  import opened ValueRewrite
  import opened Failures
  import opened Peephole

  // ------------------------------------------------------------ by value numbers

  /** Statements that set a register to a value of its own number, or copy one. */
  predicate Plainly(c: Code) { !c.Alu? && !c.Neg? && !c.LdxLen? }

  /** No load indexed by a constant, nothing computed from constants alone, no load of a constant from scratch memory,
      no operation with a constant in X, and none that a 0 in the accumulator makes trivial. */
  ghost predicate Spare(v: Values, s: Stmt)
    requires |v.val| == N_ATOMS
  {
    match s.code
    case LdInd(_) => ConstOf(v, X_ATOM).None?
    case Neg => ConstOf(v, A_ATOM).None?
    case LdMem => s.k < N_ATOMS && ConstOf(v, s.k).None?
    case LdxMem => s.k < N_ATOMS && ConstOf(v, s.k).None?
    case Alu(op, src) =>
      if src == K then ConstOf(v, A_ATOM).None?
      else ConstOf(v, X_ATOM).None? && (ConstOf(v, A_ATOM) == Some(0) ==> op == Sub)
    case _ => true
  }

  /** What rewriting leaves of a statement is spare; an operation with the constant 0 goes, unless it subtracts, and so
      does a load or copy of the value that is there already. */
  lemma NothingLeft(v: Values, s: Stmt)
    requires |v.val| == N_ATOMS && InRange(s) && OptStmt(v, s, true).Becomes?
    ensures Spare(v, OptStmt(v, s, true).s)
    ensures s.code.Alu? && s.code.src == K && s.k == 0 && s.code.op !in {Sub, Div, Mod} ==>
              OptStmt(v, s, true).s.code in {Nop, LdImm}
    ensures Plainly(s.code) && 0 <= AtomDef(s) && |OptStmt(v, s, true).v.val| == N_ATOMS &&
            OptStmt(v, s, true).v.val[AtomDef(s)] == v.val[AtomDef(s)] != UNKNOWN ==>
              OptStmt(v, s, true).s.code == Nop
  {
    hide Known, OptAluK, OptAluX;
    if s.code.Alu? { OperationLeft(v, s); }
    ValuesStay(v);
  }

  lemma OperationLeft(v: Values, s: Stmt)
    requires |v.val| == N_ATOMS && s.code.Alu? && OptStmt(v, s, true).Becomes?
    ensures Spare(v, OptStmt(v, s, true).s)
    ensures s.code.src == K && s.k == 0 && s.code.op !in {Sub, Div, Mod} ==>
              OptStmt(v, s, true).s.code in {Nop, LdImm}
  {
    hide Known, Apply;
  }

  lemma ValuesStay(v: Values)
    ensures forall k: Key :: Known(v, k).0.val == v.val
  {
  }

  // ------------------------------------------------------------- by the peephole

  /** Where the constant, the addition, the transfer and the load stand in a row, they are found. */
  lemma FusionFound(ss: seq<Stmt>, s: nat, next: nat, f: Places)
    requires s < next < |ss| && ss[s].code == LdImm && next == ThisOp(ss, s + 1) && Fusible(ss, f) && f.ldi == s
    ensures FindFusion(ss, s, next) == Some(f)
  {
    hide ThisOp;
    assert NopsBetween(ss, s, f.msh) && NopsBetween(ss, f.msh, f.add);
    SameThisOp(ss, s + 1, f.msh);
    if f.msh < f.add { SameThisOp(ss, f.msh + 1, f.add); }
    SameThisOp(ss, f.add + 1, f.tax);
    SameThisOp(ss, f.tax + 1, f.ild);
  }

  /** A store and a load of X from the same word, or a constant loaded and transferred. */
  predicate Pair(s: Stmt, t: Stmt)
  {
    (s.code == St && t.code == LdxMem && s.k == t.k) || (s.code == LdImm && t.code == Tax)
  }

  /** The first two rules. */
  function PairsAt(ss: seq<Stmt>, s: nat, next: nat): (r: seq<Stmt>)
    requires s < next < |ss|
    ensures |r| == |ss|
  {
    var ss1 := if StoreLoad(ss, s, next) then PairEdited(ss, s, next) else ss;
    if LoadTax(ss1, s, next) then PairEdited(ss1, s, next) else ss1
  }

  lemma PairsGone(ss: seq<Stmt>, s: nat, next: nat)
    requires s < next < |ss| && next == ThisOp(ss, s + 1)
    ensures !Pair(PairsAt(ss, s, next)[s], PairsAt(ss, s, next)[next]) && next == ThisOp(PairsAt(ss, s, next), s + 1)
  {
    hide ThisOp;
    SameThisOp(PairsAt(ss, s, next), s + 1, next);
  }

  lemma FusedAway(ss: seq<Stmt>, f: Places, next: nat)
    requires Fusible(ss, f) && next < |ss|
    ensures var r := Fuse(ss, f);
            r[f.ldi].code == Nop && !Pair(r[f.ldi], r[next]) && forall f': Places :: f'.ldi == f.ldi ==> !Fusible(r, f')
  {
  }

  /** After the rules at one place neither pair stands there, and, where X is dead at the end of the block, no constant
      added to an index. */
  lemma PlaceDone(ss: seq<Stmt>, s: nat, next: nat, outUse: set<nat>)
    requires s < next < |ss| && next == ThisOp(ss, s + 1)
    ensures !Pair(PeepAt(ss, s, next, outUse)[s], PeepAt(ss, s, next, outUse)[next])
    ensures X_ATOM !in outUse ==> forall f: Places :: f.ldi == s ==> !Fusible(PeepAt(ss, s, next, outUse), f)
  {
    hide ThisOp, FindFusion, Fuse, Pair, Fusible, PairEdited, StoreLoad, LoadTax;
    PairsGone(ss, s, next);
    var ss2 := PairsAt(ss, s, next);
    if ss2[s].code == LdImm && X_ATOM !in outUse {
      match FindFusion(ss2, s, next) {
        case Some(f) => FoundThere(ss2, s, next); FusedAway(ss2, f, next);
        case None =>
          forall f: Places | f.ldi == s ensures !Fusible(ss2, f) {
            if Fusible(ss2, f) { FusionFound(ss2, s, next, f); }
          }
      }
    } else if X_ATOM !in outUse {
      forall f: Places | f.ldi == s ensures !Fusible(ss2, f) { NeedsConstant(ss2, f); }
    }
  }

  lemma FoundThere(ss: seq<Stmt>, s: nat, next: nat)
    requires s < next < |ss| && ss[s].code == LdImm && next == ThisOp(ss, s + 1) && FindFusion(ss, s, next).Some?
    ensures FindFusion(ss, s, next).value.ldi == s
  {
  }

  lemma NeedsConstant(ss: seq<Stmt>, f: Places)
    ensures Fusible(ss, f) ==> f.ldi < |ss| && ss[f.ldi].code == LdImm
  {
  }

  /** No pair ends at statement m or before. */
  ghost predicate Pairless(ss: seq<Stmt>, m: nat)
  {
    forall i, j :: 0 <= i < j <= m && j < |ss| && NopsBetween(ss, i, j) && ss[i].code != Nop && ss[j].code != Nop ==>
      !Pair(ss[i], ss[j])
  }

  /** Up to the place the rules leave everything alone. */
  lemma BeforeAlike(ss: seq<Stmt>, s: nat, next: nat, outUse: set<nat>)
    requires s < next < |ss| && next == ThisOp(ss, s + 1)
    ensures var r := PeepAt(ss, s, next, outUse);
            && (forall k :: 0 <= k < s ==> r[k] == ss[k]) && (forall k :: s < k < next ==> r[k].code == Nop)
            && (r[s] == ss[s] || r[s].code in {Nop, LdxImm})
  {
    hide ThisOp, FindFusion;
    PairsGone(ss, s, next);
    var ss2 := PairsAt(ss, s, next);
    if ss2[s].code == LdImm && FindFusion(ss2, s, next).Some? { FoundThere(ss2, s, next); }
  }

  /** What stands first from the next statement on: the statement itself, or, if it has gone, the fused load. */
  lemma AfterPlace(ss: seq<Stmt>, s: nat, next: nat, outUse: set<nat>)
    requires s < next < |ss| && next == ThisOp(ss, s + 1) && ss[s].code != Nop
    ensures var r := PeepAt(ss, s, next, outUse);
            var t := ThisOp(r, next);
            (t == next && r[s].code != Nop) || (t < |r| && (r[t].code.LdxMsh? || r[t].code.LdInd?))
  {
    hide ThisOp, FindFusion;
    PairsGone(ss, s, next);
    var ss2 := PairsAt(ss, s, next);
    var r := PeepAt(ss, s, next, outUse);
    if ss2[s].code == LdImm && X_ATOM !in outUse && FindFusion(ss2, s, next).Some? {
      FoundThere(ss2, s, next);
      AfterFusion(ss2, next, FindFusion(ss2, s, next).value);
    } else {
      SameThisOp(r, next, next);
    }
  }

  lemma AfterFusion(ss: seq<Stmt>, next: nat, f: Places)
    requires Fusible(ss, f) && next == f.msh
    ensures var r := Fuse(ss, f); var t := ThisOp(r, next); t < |r| && (r[t].code.LdxMsh? || r[t].code.LdInd?)
  {
    var r := Fuse(ss, f);
    if f.msh < f.add {
      SameThisOp(r, next, next);
    } else {
      assert forall k :: next <= k < f.ild ==> r[k].code == Nop;
      SameThisOp(r, next, f.ild);
    }
  }

  lemma PlacePairless(ss: seq<Stmt>, s: nat, next: nat, outUse: set<nat>)
    requires s < next < |ss| && next == ThisOp(ss, s + 1) && ss[s].code != Nop && Pairless(ss, s)
    ensures var r := PeepAt(ss, s, next, outUse); Pairless(r, ThisOp(r, next))
  {
    hide PeepAt, Pair, ThisOp;
    var r := PeepAt(ss, s, next, outUse);
    var t := ThisOp(r, next);
    BeforeAlike(ss, s, next, outUse);
    AfterPlace(ss, s, next, outUse);
    PlaceDone(ss, s, next, outUse);
    forall i, j | 0 <= i < j <= t && j < |r| && NopsBetween(r, i, j) && r[i].code != Nop && r[j].code != Nop
      ensures !Pair(r[i], r[j])
    {
      NeverPairs(r[i], r[j]);
      if j <= s && r[j] == ss[j] { assert NopsBetween(ss, i, j); }
    }
  }

  lemma NeverPairs(s: Stmt, t: Stmt)
    ensures t.code in {LdxImm, LdxMsh} || t.code.LdInd? ==> !Pair(s, t)
  {
  }

  /** After the walk over a block no store is followed by a load of X from the same word, and no constant load by a
      transfer, deleted statements apart. */
  lemma {:induction false} WalkLeavesNoPair(ss: seq<Stmt>, s: nat, outUse: set<nat>)
    requires s < |ss| && Pairless(ss, ThisOp(ss, s))
    ensures var (r, _) := PeepFrom(ss, s, outUse); |r| == |ss| && Pairless(r, |r|)
    decreases |ss| - s
  {
    hide PeepAt, Pair, ThisOp;
    var i := ThisOp(ss, s);
    if i < |ss| {
      var next := ThisOp(ss, i + 1);
      if next < |ss| {
        PlacePairless(ss, i, next, outUse);
        WalkLeavesNoPair(PeepAt(ss, i, next, outUse), next, outUse);
      }
    }
  }

  /** From the start of a block. */
  lemma NoPairLeft(ss: seq<Stmt>, outUse: set<nat>)
    requires ss != []
    ensures Pairless(PeepFrom(ss, 0, outUse).0, |ss|)
  {
    hide PeepFrom, Pair;
    WalkLeavesNoPair(ss, 0, outUse);
  }

  /** What is left of the branch: with X a known constant it is compared as one; with A known too the branch is
      decided; a jset of no bit or of all bits is decided; an equality test has swallowed the subtraction before it if
      its operand is constant or the test is with 0, and the mask if the test is with 0. Nothing else has changed. */
  lemma BranchDone(n: Node, last: nat, outUse: set<nat>, v: Values)
    requires n.s.code.Jmp? && last < |n.stmts| && |v.val| == N_ATOMS
    ensures var n', l := PeepBranch(n, last, outUse, v), n.stmts[last];
            && n'.s.code.Jmp? && (ConstOf(v, X_ATOM).Some? ==> n'.s.code.src == K)
            && (ConstOf(v, A_ATOM).Some? && n'.s.code.src == K ==> n'.jt == n'.jf)
            && (n.s.code == Jmp(Jset, K) && n.s.k in {0, ALL_ONES} ==> n'.jt == n'.jf)
            && n'.stmts ==
               if n.s.code == Jmp(Jeq, K) && A_ATOM !in outUse &&
                  (|| l.code == Alu(Sub, K)
                   || (l.code == Alu(Sub, X) && (ConstOf(v, X_ATOM).Some? || n.s.k == 0))
                   || (l.code == Alu(And_, K) && n.s.k == 0))
               then n.stmts[last := Deleted(l)] else n.stmts
  {
    hide Compare;
  }
}
