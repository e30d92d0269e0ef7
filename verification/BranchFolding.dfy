/**
 * Predicting a branch from the edges a run must have crossed: what fold_edge
 * returns is where every run goes.
 */
module BranchFolding {
  import opened Words
  import opened Machine
  import opened FlowGraph
  import opened Layout
  import opened Dominators
  import opened Liveness
  import opened ValueNumbers
  import opened ValueRewrite
  import opened BlockValues

  /** The branch of block `child` that an edge e, known to have been crossed, predicts, if any. */
  function FoldSense(g: Graph, ns: Numbers, child: nat, e: nat): Option<bool>
    requires child < |g| == |ns.val| == |ns.oval| && ValsOk(ns.val) && e < 2 * |g|
  {
    var pred, sense := Owner(|g|, e), e < |g|;
    if g[child].s.code != g[pred].s.code then None
    else if ns.val[child][A_ATOM] != ns.val[pred][A_ATOM] then None
    else if ns.oval[child] == ns.oval[pred] then Some(sense)
    else if sense && g[child].s.code == Jmp(Jeq, K) then Some(false)
    else None
  }

  /** The child it leads to; NIL if none is predicted. */
  function FoldEdge(g: Graph, ns: Numbers, child: nat, e: nat): int
    requires child < |g| == |ns.val| == |ns.oval| && ValsOk(ns.val) && e < 2 * |g|
  {
    match FoldSense(g, ns, child, e)
    case None => NIL
    case Some(b) => Successor(g[child], b)
  }

  /** The edge a visit leaves by. */
  ghost function LeavesBy(g: Graph, v: Visit): (e: nat)
    requires v.block < |g| && g[v.block].s.code.Jmp?
    ensures e < 2 * |g|
  {
    EdgeId(|g|, v.block, Taken(g[v.block].s, v.st))
  }

  /** The edges a run has crossed. */
  ghost function Crossed(g: Graph, vs: seq<Visit>): seq<nat>
    requires forall i :: 0 <= i < |vs| ==> vs[i].block < |g| && g[vs[i].block].s.code.Jmp?
  {
    seq(|vs|, i requires 0 <= i < |vs| => LeavesBy(g, vs[i]))
  }

  lemma CrossedFollow(g: Graph, v: Visit, w: Visit, p: Packet)
    requires WellFormed(g) && StepsTo(g, v, w, p) && g[w.block].s.code.Jmp?
    ensures Follows(g, LeavesBy(g, v), LeavesBy(g, w))
  {
    hide ExecList, Taken;
  }

  lemma CrossedIsPath(g: Graph, root: nat, st: State, p: Packet, vs: seq<Visit>)
    requires WellFormed(g) && IsRun(g, root, st, p, vs)
    requires forall i :: 0 <= i < |vs| ==> vs[i].block < |g| && g[vs[i].block].s.code.Jmp?
    ensures EdgePath(g, root, Crossed(g, vs))
  {
    hide IsRun, StepsTo, Follows, Taken;
    StartsAtRoot(g, root, st, p, vs);
    var es := Crossed(g, vs);
    forall i | 0 < i < |es| ensures Follows(g, es[i - 1], es[i]) {
      RunPrefix(g, root, st, p, vs, i);
      CrossedFollow(g, vs[i - 1], vs[i], p);
    }
  }

  lemma StepIsBranch(g: Graph, v: Visit, w: Visit, p: Packet)
    requires StepsTo(g, v, w, p)
    ensures v.block < |g| && g[v.block].s.code.Jmp?
  {
  }

  /** Dominators are crossed: a run that has just crossed e has crossed every edge that dominates e. */
  lemma DominatorWasCrossed(g: Graph, root: nat, st: State, p: Packet, vs: seq<Visit>, e: nat, f: nat) returns (k: nat)
    requires WellFormed(g) && IsRun(g, root, st, p, vs) && |vs| > 1
    requires var v := vs[|vs| - 2];
             v.block < |g| && g[v.block].s.code.Jmp? && LeavesBy(g, v) == f && EdgeDominates(g, root, e, f)
    ensures k < |vs| - 1 && vs[k].block < |g| && g[vs[k].block].s.code.Jmp? && LeavesBy(g, vs[k]) == e
  {
    hide IsRun, StepsTo, EdgePath, Taken, LeavesBy;
    var last := |vs| - 1;
    var path := vs[..last];
    RunPrefix(g, root, st, p, vs, last - 1);
    forall i | 0 <= i < last ensures vs[i].block < |g| && g[vs[i].block].s.code.Jmp? {
      RunPrefix(g, root, st, p, vs, i + 1);
      StepIsBranch(g, vs[i], vs[i + 1], p);
    }
    CrossedIsPath(g, root, st, p, path);
    var es := Crossed(g, path);
    k :| 0 <= k < |es| && es[k] == e;
  }

  lemma {:induction false} StartsAtRoot(g: Graph, root: nat, st: State, p: Packet, vs: seq<Visit>)
    requires IsRun(g, root, st, p, vs)
    ensures vs != [] && vs[0].block == root
    decreases |vs|
  {
    if |vs| > 1 { StartsAtRoot(g, root, st, p, vs[..|vs| - 1]); }
  }

  /** The number of a branch's operand stands for the word it compares with. */
  lemma OperandMeaning(ns: Numbers, s: Stmt, v: Visit, p: Packet)
    requires v.block < |ns.val| == |ns.oval| && ValsOk(ns.val) && s.code.Jmp? && Described(ns, v, p)
    requires OperandNumber(ns.table, s, ns.val[v.block], ns.oval[v.block]) && ns.oval[v.block] != UNKNOWN
    ensures Meaning(ns.table, ns.oval[v.block], p) == Some(Operand(s.code.src, s.k, v.st))
  {
    if s.code.src == K {
      ConstMeaning(ns.table, ns.oval[v.block], p);
    } else {
      assert Val(v.st, X_ATOM) == v.st.x;
    }
  }

  lemma AccumulatorMeaning(ns: Numbers, v: Visit, p: Packet)
    requires v.block < |ns.val| && ValsOk(ns.val) && Described(ns, v, p) && ns.val[v.block][A_ATOM] != UNKNOWN
    ensures Meaning(ns.table, ns.val[v.block][A_ATOM], p) == Some(v.st.a)
  {
    assert Val(v.st, A_ATOM) == v.st.a;
  }

  /** What the branch at the end of a block reads is known. */
  predicate BranchKnown(ns: Numbers, b: nat)
    requires b < |ns.val| == |ns.oval| && ValsOk(ns.val)
  {
    ns.val[b][A_ATOM] != UNKNOWN && ns.oval[b] != UNKNOWN
  }

  /** The prediction is right for any two visits the numbers describe. */
  lemma FoldPredicts(g: Graph, ns: Numbers, v: Visit, w: Visit, p: Packet)
    requires |g| == |ns.val| == |ns.oval| && ValsOk(ns.val) && Distinct(ns.table)
    requires v.block < |g| && w.block < |g| && Described(ns, v, p) && Described(ns, w, p)
    requires g[v.block].s.code.Jmp? && g[w.block].s.code.Jmp? && BranchKnown(ns, w.block)
    requires OperandNumber(ns.table, g[v.block].s, ns.val[v.block], ns.oval[v.block])
    requires OperandNumber(ns.table, g[w.block].s, ns.val[w.block], ns.oval[w.block])
    requires FoldSense(g, ns, w.block, LeavesBy(g, v)).Some?
    ensures FoldSense(g, ns, w.block, LeavesBy(g, v)) == Some(Taken(g[w.block].s, w.st))
  {
    hide Meaning, Described, And;
    AccumulatorMeaning(ns, v, p);
    AccumulatorMeaning(ns, w, p);
    assert v.st.a == w.st.a;
    OperandMeaning(ns, g[w.block].s, w, p);
    if ns.oval[v.block] == ns.oval[w.block] {
      OperandMeaning(ns, g[v.block].s, v, p);
    }
  }

  /** The same test, on the same numbers, is always predicted: it comes out as it did. */
  lemma SameTestPredicted(g: Graph, ns: Numbers, child: nat, e: nat)
    requires child < |g| == |ns.val| == |ns.oval| && ValsOk(ns.val) && e < 2 * |g|
    requires g[child].s.code == g[Owner(|g|, e)].s.code
    requires ns.val[child][A_ATOM] == ns.val[Owner(|g|, e)][A_ATOM] && ns.oval[child] == ns.oval[Owner(|g|, e)]
    ensures FoldSense(g, ns, child, e) == Some(e < |g|)
    ensures FoldEdge(g, ns, child, e) == if e < |g| then g[child].jt else g[child].jf
  {
  }

  /** The comparison with k1 comes out as b for every accumulator that compared with k0 as `sense` says. */
  ghost predicate Implies(k0: Word, sense: bool, k1: Word, b: bool)
  {
    forall a: Word :: Compare(Jeq, a, k0) == sense ==> Compare(Jeq, a, k1) == b
  }

  lemma ImpliesExactly(k0: Word, sense: bool, k1: Word, b: bool)
    ensures Implies(k0, sense, k1, b) <==> (k0 == k1 && b == sense) || (k0 != k1 && sense && !b)
  {
    assert Compare(Jeq, k0, k0) && (Compare(Jeq, k0, k1) <==> k0 == k1);
    assert Compare(Jeq, k1, k1) && (Compare(Jeq, k1, k0) <==> k0 == k1);
    var other: Word := if k0 != 0 && k1 != 0 then 0 else if k0 != 1 && k1 != 1 then 1 else 2;
    assert !Compare(Jeq, other, k0) && !Compare(Jeq, other, k1);
  }

  /** Equality tests of the same number with constants: a branch is predicted exactly if the edge decides it for every
      accumulator, and then as it decides. */
  lemma EqualityFoldsExactly(g: Graph, ns: Numbers, child: nat, e: nat, b: bool)
    requires child < |g| == |ns.val| == |ns.oval| && ValsOk(ns.val) && Distinct(ns.table) && e < 2 * |g|
    requires g[child].s.code == Jmp(Jeq, K) == g[Owner(|g|, e)].s.code
    requires ns.val[child][A_ATOM] == ns.val[Owner(|g|, e)][A_ATOM]
    requires OperandNumber(ns.table, g[child].s, ns.val[child], ns.oval[child])
    requires OperandNumber(ns.table, g[Owner(|g|, e)].s, ns.val[Owner(|g|, e)], ns.oval[Owner(|g|, e)])
    ensures FoldSense(g, ns, child, e) == Some(b) <==> Implies(g[Owner(|g|, e)].s.k, e < |g|, g[child].s.k, b)
  {
    ImpliesExactly(g[Owner(|g|, e)].s.k, e < |g|, g[child].s.k, b);
  }

  // What a comparison gives whatever the unknown operands are.

  const TOP: Word := 0xffff_ffff

  function Foregone(op: JmpOp, a: Option<Word>, b: Option<Word>): Option<bool>
  {
    match (a, b)
    case (Some(x), Some(y)) => Some(Compare(op, x, y))
    case (None, Some(y)) =>
      if op == Jgt && y == TOP then Some(false) else if op == Jge && y == 0 then Some(true)
      else if op == Jset && y == 0 then Some(false) else None
    case (Some(x), None) =>
      if op == Jgt && x == 0 then Some(false) else if op == Jge && x == TOP then Some(true)
      else if op == Jset && x == 0 then Some(false) else None
    case (None, None) => None
  }

  /** An accumulator, and an index, that make the comparison come out as wanted, if one does. */
  function LeftFor(op: JmpOp, b: Word, want: bool): Word
  {
    match op
    case Jeq => if want then b else if b == 0 then 1 else 0
    case Jset => if want then b else 0
    case _ => if want then TOP else 0
  }

  function RightFor(op: JmpOp, a: Word, want: bool): Word
  {
    match op
    case Jeq => if want then a else if a == 0 then 1 else 0
    case Jset => if want then a else 0
    case _ => if want then 0 else TOP
  }

  lemma ForegoneExact(op: JmpOp, a: Word, b: Word, want: bool)
    ensures Foregone(op, None, Some(b)) == Some(!want) ==> Compare(op, a, b) == !want
    ensures Foregone(op, None, Some(b)) != Some(!want) ==> Compare(op, LeftFor(op, b, want), b) == want
    ensures Foregone(op, Some(a), None) == Some(!want) ==> Compare(op, a, b) == !want
    ensures Foregone(op, Some(a), None) != Some(!want) ==> Compare(op, a, RightFor(op, a, want)) == want
  {
    hide And;
    SameMask(a);
    SameMask(b);
    ZeroBits(a);
    ZeroBits(b);
  }

  /** The prediction for the block is certain on the packet: its branch reads known numbers, or goes the same way
      anyhow, or compares so that what is unknown does not matter. */
  ghost predicate FoldCertain(g: Graph, ns: Numbers, child: nat, e: nat, p: Packet)
    requires child < |g| == |ns.val| == |ns.oval| && ValsOk(ns.val) && e < 2 * |g| && g[child].s.code.Jmp?
  {
    || BranchKnown(ns, child) || g[child].jt == g[child].jf
    || (FoldSense(g, ns, child, e).Some? &&
        Foregone(g[child].s.code.jop, Meaning(ns.table, ns.val[child][A_ATOM], p), Meaning(ns.table, ns.oval[child], p))
        == FoldSense(g, ns, child, e))
  }

  /** A register whose number is unknown may hold anything. */
  lemma UnknownIsFree(ns: Numbers, b: nat, st: State, atom: nat, w: Word, p: Packet)
    requires Described(ns, Visit(b, st), p) && b < |ns.val| && |ns.val[b]| == N_ATOMS && atom < N_ATOMS
    requires ns.val[b][atom] == UNKNOWN
    ensures Described(ns, Visit(b, Put(st, atom, w)), p)
  {
    hide Meaning, Val, Put;
    PutFacts(st, atom, w);
  }

  /** The operands of a branch, as far as they are known. */
  lemma OperandsMean(ns: Numbers, s: Stmt, w: Visit, p: Packet)
    requires w.block < |ns.val| == |ns.oval| && ValsOk(ns.val) && s.code.Jmp? && Described(ns, w, p)
    requires OperandNumber(ns.table, s, ns.val[w.block], ns.oval[w.block])
    ensures Meaning(ns.table, ns.val[w.block][A_ATOM], p) ==
            if ns.val[w.block][A_ATOM] == UNKNOWN then None else Some(w.st.a)
    ensures Meaning(ns.table, ns.oval[w.block], p) ==
            if ns.oval[w.block] == UNKNOWN then None else Some(Operand(s.code.src, s.k, w.st))
    ensures ns.oval[w.block] == UNKNOWN ==> s.code.src == X && ns.val[w.block][X_ATOM] == UNKNOWN
  {
    hide Described;
    if ns.val[w.block][A_ATOM] != UNKNOWN { AccumulatorMeaning(ns, w, p); }
    if ns.oval[w.block] != UNKNOWN { OperandMeaning(ns, s, w, p); }
  }

  /** Where the prediction is not certain, another state the numbers describe as well goes the other way. */
  lemma OtherWay(g: Graph, ns: Numbers, w: Visit, e: nat, p: Packet) returns (st: State)
    requires |g| == |ns.val| == |ns.oval| && ValsOk(ns.val) && w.block < |g| && e < 2 * |g| && Described(ns, w, p)
    requires g[w.block].s.code.Jmp? && OperandNumber(ns.table, g[w.block].s, ns.val[w.block], ns.oval[w.block])
    requires FoldSense(g, ns, w.block, e).Some? && !FoldCertain(g, ns, w.block, e, p)
    ensures Described(ns, Visit(w.block, st), p) && Taken(g[w.block].s, st) != FoldSense(g, ns, w.block, e).value
  {
    hide Described, Meaning, FoldSense, Compare, And;
    var s, want := g[w.block].s, !FoldSense(g, ns, w.block, e).value;
    var op := s.code.jop;
    OperandsMean(ns, s, w, p);
    if ns.oval[w.block] != UNKNOWN {
      var b := Operand(s.code.src, s.k, w.st);
      ForegoneExact(op, w.st.a, b, want);
      st := Put(w.st, A_ATOM, LeftFor(op, b, want));
      UnknownIsFree(ns, w.block, w.st, A_ATOM, LeftFor(op, b, want), p);
    } else if ns.val[w.block][A_ATOM] != UNKNOWN {
      ForegoneExact(op, w.st.a, 0, want);
      st := Put(w.st, X_ATOM, RightFor(op, w.st.a, want));
      UnknownIsFree(ns, w.block, w.st, X_ATOM, RightFor(op, w.st.a, want), p);
    } else {
      ForegoneExact(op, 0, 1, want);
      var u := Put(w.st, X_ATOM, 1);
      UnknownIsFree(ns, w.block, w.st, X_ATOM, 1, p);
      st := Put(u, A_ATOM, LeftFor(op, 1, want));
      UnknownIsFree(ns, w.block, u, A_ATOM, LeftFor(op, 1, want), p);
    }
  }

  lemma CertainIsRight(g: Graph, ns: Numbers, v: Visit, w: Visit, p: Packet)
    requires |g| == |ns.val| == |ns.oval| && ValsOk(ns.val) && Distinct(ns.table)
    requires v.block < |g| && w.block < |g| && Described(ns, v, p) && Described(ns, w, p)
    requires g[v.block].s.code.Jmp? && g[w.block].s.code.Jmp?
    requires OperandNumber(ns.table, g[v.block].s, ns.val[v.block], ns.oval[v.block])
    requires OperandNumber(ns.table, g[w.block].s, ns.val[w.block], ns.oval[w.block])
    requires FoldSense(g, ns, w.block, LeavesBy(g, v)).Some? && FoldCertain(g, ns, w.block, LeavesBy(g, v), p)
    ensures Successor(g[w.block], Taken(g[w.block].s, w.st)) == FoldEdge(g, ns, w.block, LeavesBy(g, v))
  {
    hide Described, Meaning, FoldSense, Compare, OperandNumber, LeavesBy;
    if BranchKnown(ns, w.block) {
      FoldPredicts(g, ns, v, w, p);
    } else if g[w.block].jt != g[w.block].jf {
      var s := g[w.block].s;
      OperandsMean(ns, s, w, p);
      ForegoneExact(s.code.jop, w.st.a, Operand(s.code.src, s.k, w.st),
        !FoldSense(g, ns, w.block, LeavesBy(g, v)).value);
    }
  }

  /** Exactly when fold_edge is right: after a visit v that leaves by an edge for which it predicts something, every
      state the numbers describe at the block leaves it by the predicted branch just if the prediction is certain. */
  lemma FoldExact(g: Graph, ns: Numbers, v: Visit, w: Visit, p: Packet)
    requires |g| == |ns.val| == |ns.oval| && ValsOk(ns.val) && Distinct(ns.table)
    requires v.block < |g| && w.block < |g| && Described(ns, v, p) && Described(ns, w, p)
    requires g[v.block].s.code.Jmp? && g[w.block].s.code.Jmp?
    requires OperandNumber(ns.table, g[v.block].s, ns.val[v.block], ns.oval[v.block])
    requires OperandNumber(ns.table, g[w.block].s, ns.val[w.block], ns.oval[w.block])
    requires FoldSense(g, ns, w.block, LeavesBy(g, v)).Some?
    ensures (forall st :: Described(ns, Visit(w.block, st), p) ==>
                            Successor(g[w.block], Taken(g[w.block].s, st)) == FoldEdge(g, ns, w.block, LeavesBy(g, v)))
            <==> FoldCertain(g, ns, w.block, LeavesBy(g, v), p)
  {
    hide Described, Distinct, FoldSense, OperandNumber, LeavesBy, Taken;
    if FoldCertain(g, ns, w.block, LeavesBy(g, v), p) {
      forall st | Described(ns, Visit(w.block, st), p)
        ensures Successor(g[w.block], Taken(g[w.block].s, st)) == FoldEdge(g, ns, w.block, LeavesBy(g, v))
      {
        CertainIsRight(g, ns, v, Visit(w.block, st), p);
      }
    } else {
      var st := OtherWay(g, ns, w, LeavesBy(g, v), p);
    }
  }

  /** Branch prediction by dominating edges is right: with the numbers opt_blk gives a graph
      whose blocks compute from known numbers, for every edge e that dominates f, every run
      that has crossed f and gone through the block f leads to continues to the child
      fold_edge picks, where the pick is certain. */
  lemma FoldIsRight(g: Graph, rank: seq<nat>, root: nat, ns: Numbers, inEdges: seq<seq<nat>>, from: seq<nat>,
                    st: State, p: Packet, vs: seq<Visit>, e: nat, f: nat)
    requires Ranked(g, rank) && root < |g| && InEdgesOf(g, inEdges, Below(g, rank, root))
    requires NumbersOk(g, ns, false, inEdges, from, Below(g, rank, root))
    requires AllKnown(g, ns, false, inEdges, from, Below(g, rank, root))
    requires IsRun(g, root, st, p, vs) && |vs| > 1 && e < 2 * |g| && EdgeDominates(g, root, e, f)
    requires var v := vs[|vs| - 2]; v.block < |g| && g[v.block].s.code.Jmp? && LeavesBy(g, v) == f
    requires var w := vs[|vs| - 1];
             w.block < |g| && !IsLeaf(g[w.block]) && FoldSense(g, ns, w.block, e).Some? &&
               FoldCertain(g, ns, w.block, e, p)
    ensures var w := vs[|vs| - 1];
            Successor(g[w.block], Taken(g[w.block].s, w.st)) == FoldEdge(g, ns, w.block, e)
  {
    hide Below, Described, IsRun, Numbered, Distinct, AllInRange, KnownAlong, FoldSense, FoldCertain, EdgeDominates,
         AllKnown;
    var k := DominatorWasCrossed(g, root, st, p, vs, e, f);
    var last := |vs| - 1;
    RunPrefix(g, root, st, p, vs, k);
    RunsAreDescribed(g, rank, root, ns, false, inEdges, from, st, p, vs[..k + 1]);
    RunsAreDescribed(g, rank, root, ns, false, inEdges, from, st, p, vs);
    BranchNumbered(g, ns, false, inEdges[vs[k].block], from[vs[k].block], vs[k].block);
    BranchNumbered(g, ns, false, inEdges[vs[last].block], from[vs[last].block], vs[last].block);
    CertainIsRight(g, ns, vs[k], vs[last], p);
  }

  lemma BranchNumbered(g: Graph, ns: Numbers, alter: bool, es: seq<nat>, m: nat, b: nat)
    requires b < |g| == |ns.val| == |ns.oval| && ValsOk(ns.val) && AllInRange(g[b].stmts) && EdgesIn(|g|, es)
    requires Numbered(g, ns, alter, es, m, b)
    ensures OperandNumber(ns.table, g[b].s, ns.val[b], ns.oval[b])
  {
  }
}
