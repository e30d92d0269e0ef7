/**
 * Graphs on which a step of the optimizer goes wrong, each with the numbers, live
 * registers and dominators its own analyses find there.
 */
module Counterexamples {
  import opened Words
  import opened Machine
  import opened FlowGraph
  import opened Layout
  import opened Levels
  import opened Dominators
  import opened Liveness
  import opened ValueNumbers
  import opened ValueRewrite
  import opened BlockValues
  import opened BranchFolding
  import opened GraphEdits
  import opened Analyses
  import opened ShortBlocks
  import U = Pullup
  import P = Peephole
  import D = DeadStores

  /** Where two predecessors leave different numbers, or one leaves none, nothing is known on entry. */
  lemma UnknownOnEntry(val: seq<seq<nat>>, es: seq<nat>, e: nat, e': nat, a: nat)
    requires ValsOk(val) && EdgesIn(|val|, es) && e in es && e' in es && a < N_ATOMS
    requires val[Owner(|val|, e)][a] != val[Owner(|val|, e')][a] || val[Owner(|val|, e)][a] == UNKNOWN
    ensures Entry(val, es)[a] == UNKNOWN
  {
    hide Entry;
    if Entry(val, es)[a] != UNKNOWN {
      EntryAgrees(val, es, e, a);
      EntryAgrees(val, es, e', a);
    }
  }

  // ------------------------------------------- blocks the rest of opt_blk leaves alone

  /** Neither opt_peep nor opt_deadstores changes the block. */
  ghost predicate LeftAlone(n: Node, outUse: set<nat>, v: Values)
    requires n.s.code.Jmp? && |v.val| == N_ATOMS
  {
    && D.Clean(n.stmts, n.s, outUse) == n.stmts
    && (n.stmts != [] ==>
          var (ss, last) := P.PeepFrom(n.stmts, 0, outUse);
          ss == n.stmts && last < |ss| && P.PeepBranch(n, last, outUse, v) == n)
  }

  /** Nothing for the peephole: no constants, no loads of X from memory, no arithmetic. */
  predicate NoPeep(ss: seq<Stmt>)
  {
    forall i :: 0 <= i < |ss| ==> ss[i].code != LdImm && ss[i].code != LdxMem && ss[i].code != Nop && !ss[i].code.Alu?
  }

  lemma {:induction false} WalkChangesNothing(ss: seq<Stmt>, s: nat, outUse: set<nat>)
    requires s < |ss| && NoPeep(ss)
    ensures P.PeepFrom(ss, s, outUse).0 == ss && P.PeepFrom(ss, s, outUse).1 < |ss|
    decreases |ss| - s
  {
    hide P.PairEdited, P.FindFusion, P.Fuse;
    if s + 1 < |ss| { WalkChangesNothing(ss, s + 1, outUse); }
  }

  lemma PeepLeaves(n: Node, outUse: set<nat>, v: Values)
    requires n.s.code.Jmp? && |v.val| == N_ATOMS && n.stmts != [] && NoPeep(n.stmts) && n.s.code.jop != Jset
    requires if n.s.code.src == X then !IsConst(v.table, v.val[X_ATOM]) else !IsConst(v.table, v.val[A_ATOM])
    ensures var (ss, last) := P.PeepFrom(n.stmts, 0, outUse);
            ss == n.stmts && last < |ss| && P.PeepBranch(n, last, outUse, v) == n
  {
    hide P.PeepFrom, IsConst, ConstVal;
    WalkChangesNothing(n.stmts, 0, outUse);
  }

  lemma LoadIsNotConstant(t: Table, n: nat, s: Stmt)
    requires Plain(s) && Names(t, n, PlainKey(s))
    ensures !IsConst(t, n)
  {
  }

  /** One definition, which the branch reads or which is live on exit. */
  lemma OneKept(s: Stmt, br: Stmt, outUse: set<nat>)
    requires AtomDef(s) in UseSet(br) + outUse
    ensures D.Clean([s], br, outUse) == [s]
  {
    assert D.FateIn([s], 1, 1, AtomDef(s)) == D.Untouched;
  }

  lemma TwoKept(s: Stmt, s': Stmt, br: Stmt, outUse: set<nat>)
    requires AtomDef(s) in UseSet(br) + outUse && AtomDef(s') in UseSet(br) + outUse
    requires AtomDef(s) != AtomDef(s') && AtomDef(s) >= 0
    ensures D.Clean([s, s'], br, outUse) == [s, s']
  {
    hide AtomDef, UseSet;
    var ss := [s, s'];
    assert D.FateIn(ss, 2, 2, AtomDef(s')) == D.Untouched;
    assert D.FateIn(ss, 1, 1, AtomDef(s)) == D.Untouched;
    assert D.FateIn(ss, 1, 2, AtomDef(s)) == D.FateAt(D.Untouched, s', AtomDef(s));
  }

  lemma StoreKept(s: Stmt, s': Stmt, s'': Stmt, br: Stmt, outUse: set<nat>)
    requires s.code.LdAbs? && s'.code.St? && InRange(s') && s''.code.LdAbs? && br.code.Jmp? && s'.k in outUse
    ensures D.Clean([s, s', s''], br, outUse) == [s, s', s'']
  {
    var ss := [s, s', s''];
    assert D.FateIn(ss, 1, 1, A_ATOM) == D.Untouched;
    assert D.FateIn(ss, 1, 2, A_ATOM) == D.Read;
    assert D.FateIn(ss, 2, 2, s'.k) == D.Untouched;
    assert D.FateIn(ss, 3, 3, A_ATOM) == D.Untouched;
    assert A_ATOM in UseSet(br);
    assert !D.IsDead(ss, br, outUse, 0) && !D.IsDead(ss, br, outUse, 1) && !D.IsDead(ss, br, outUse, 2);
  }

  /** All blocks of the graph that branch are left alone. */
  ghost predicate AllLeftAlone(g: Graph, ns: Numbers, outUse: seq<set<nat>>)
    requires WellFormed(g) && |g| == |ns.val| == |outUse| && ValsOk(ns.val)
  {
    forall b :: 0 <= b < |g| && !IsLeaf(g[b]) ==> LeftAlone(g[b], outUse[b], Values(ns.table, ns.val[b]))
  }

  /** A block of one load, and one of two, whose registers the branch reads or which are live on exit. */
  lemma OneAlone(g: Graph, ns: Numbers, inEdges: seq<seq<nat>>, from: seq<nat>, blocks: set<nat>, b: nat,
                 outUse: set<nat>)
    requires NumbersOk(g, ns, false, inEdges, from, blocks) && b in blocks && b < |g| && |g[b].stmts| == 1
    requires Plain(g[b].stmts[0]) && PlainAtom(g[b].stmts[0]) == A_ATOM
    requires g[b].s.code.Jmp? && g[b].s.code.src == K && g[b].s.code.jop != Jset
    ensures LeftAlone(g[b], outUse, Values(ns.table, ns.val[b]))
  {
    hide NumbersOk, IsConst, P.PeepBranch, P.PeepFrom, D.Clean;
    var s := g[b].stmts[0];
    assert g[b].stmts == [s];
    NumbersSized(g, ns, inEdges, from, blocks);
    OneLoad(g, ns, inEdges, from, blocks, b, s);
    LoadIsNotConstant(ns.table, ns.val[b][A_ATOM], s);
    PeepLeaves(g[b], outUse, Values(ns.table, ns.val[b]));
    OneKept(s, g[b].s, outUse);
  }

  lemma TwoAlone(g: Graph, ns: Numbers, inEdges: seq<seq<nat>>, from: seq<nat>, blocks: set<nat>, b: nat,
                 outUse: set<nat>)
    requires NumbersOk(g, ns, false, inEdges, from, blocks) && b in blocks && b < |g| && |g[b].stmts| == 2
    requires g[b].stmts[0].code.LdxMsh? && g[b].stmts[1].code.LdAbs?
    requires g[b].s.code.Jmp? && g[b].s.code.jop != Jset && (g[b].s.code.src == X || X_ATOM in outUse)
    ensures LeftAlone(g[b], outUse, Values(ns.table, ns.val[b]))
  {
    hide NumbersOk, IsConst, P.PeepBranch, P.PeepFrom, D.Clean;
    var s, s' := g[b].stmts[0], g[b].stmts[1];
    assert g[b].stmts == [s, s'];
    NumbersSized(g, ns, inEdges, from, blocks);
    TwoLoads(g, ns, inEdges, from, blocks, b, s, s');
    LoadIsNotConstant(ns.table, ns.val[b][X_ATOM], s);
    LoadIsNotConstant(ns.table, ns.val[b][A_ATOM], s');
    PeepLeaves(g[b], outUse, Values(ns.table, ns.val[b]));
    TwoKept(s, s', g[b].s, outUse);
  }

  lemma LiveThrough(g: Graph, inUse: seq<set<nat>>, outUse: seq<set<nat>>, o: seq<nat>, b: nat, to: nat, a: nat)
    requires WellFormed(g) && Live(g, inUse, outUse, o) && b in o && Links(g, b, to) && to < |inUse| && a in inUse[to]
    ensures b < |g| == |inUse| == |outUse| && a in outUse[b] && (g[b].stmts == [] ==> a in inUse[b])
  {
    hide Live, Used;
    LiveMember(g, inUse, outUse, o, b);
  }

  lemma LiveUsed(g: Graph, inUse: seq<set<nat>>, outUse: seq<set<nat>>, o: seq<nat>, b: nat, a: nat)
    requires WellFormed(g) && Live(g, inUse, outUse, o) && b in o && b < |g| && a in Exposed(g[b].stmts)
    ensures |g| == |inUse| == |outUse| && a in inUse[b]
  {
    hide Live, Killed, Exposed;
    LiveMember(g, inUse, outUse, o, b);
  }

  // ---------------------------------------------------- a branch mispredicted

  /** Blocks 1 and 2 leave different bytes in A and X, so both are unknown in block 3; block 4 tests X where 3 tested
      A. */
  const MISFOLDED: Graph :=
    [Node([Stmt(LdAbs(B), 0)], Stmt(Jmp(Jeq, K), 0), 1, 2),
     Node([Stmt(LdxMsh, 1), Stmt(LdAbs(B), 1)], Stmt(Jmp(Jeq, K), 9), 5, 3),
     Node([Stmt(LdxMsh, 2), Stmt(LdAbs(B), 2)], Stmt(Jmp(Jeq, K), 9), 5, 3),
     Node([], Stmt(Jmp(Jeq, K), 1), 4, 5),
     Node([Stmt(Txa, 0)], Stmt(Jmp(Jeq, K), 1), 6, 5),
     Node([], Stmt(RetK, 0), NIL, NIL), Node([], Stmt(RetK, 1), NIL, NIL)]
  const MISFOLDED_RANK: seq<nat> := [4, 3, 3, 2, 1, 0, 0]
  const MISLED: Graph := MISFOLDED[3 := SetBranch(MISFOLDED[3], true, 6)]

  lemma MisfoldedShape()
    ensures Ranked(MISFOLDED, MISFOLDED_RANK) && Ranked(MISLED, MISFOLDED_RANK) && GraphInRange(MISFOLDED)
  {
    var g := MISFOLDED;
    forall b | 0 <= b < |g| ensures AllInRange(g[b].stmts) {}
  }

  lemma MisfoldedBlocks()
    ensures Ranked(MISFOLDED, MISFOLDED_RANK) && {0, 1, 2, 3, 4} <= Below(MISFOLDED, MISFOLDED_RANK, 0)
  {
    hide Below;
    MisfoldedShape();
    var g, r := MISFOLDED, MISFOLDED_RANK;
    RootBelow(g, r, 0);
    LinkedBelow(g, r, 0, 0, 1);
    LinkedBelow(g, r, 0, 0, 2);
    LinkedBelow(g, r, 0, 1, 3);
    LinkedBelow(g, r, 0, 3, 4);
  }

  /** The numbers the analysis gives: A is unknown in blocks 3 and 4, and they compare with the same constant. */
  lemma MisfoldedNumbers(ns: Numbers, inEdges: seq<seq<nat>>, from: seq<nat>)
    requires Ranked(MISFOLDED, MISFOLDED_RANK) && InEdgesOf(MISFOLDED, inEdges, Below(MISFOLDED, MISFOLDED_RANK, 0))
    requires NumbersOk(MISFOLDED, ns, false, inEdges, from, Below(MISFOLDED, MISFOLDED_RANK, 0))
    ensures ns.val[3][A_ATOM] == UNKNOWN == ns.val[4][A_ATOM] && ns.oval[3] == ns.oval[4] != UNKNOWN
  {
    hide Below, Entry, Numbered, Distinct, Ordered, OptStmt, OptList, AllInRange, InEdgesOf, OperandNumber;
    var g, blocks := MISFOLDED, Below(MISFOLDED, MISFOLDED_RANK, 0);
    MisfoldedBlocks();
    TwoLoads(g, ns, inEdges, from, blocks, 1, Stmt(LdxMsh, 1), Stmt(LdAbs(B), 1));
    TwoLoads(g, ns, inEdges, from, blocks, 2, Stmt(LdxMsh, 2), Stmt(LdAbs(B), 2));
    MergedUnknown(ns, inEdges, from);
    TransferUnknown(ns, inEdges, from);
    BlockNumbers(g, ns, inEdges, from, blocks, 3);
    BlockNumbers(g, ns, inEdges, from, blocks, 4);
    SameOperand(ns, g[3].s, g[4].s, 3, 4);
  }

  lemma SameOperand(ns: Numbers, s: Stmt, s': Stmt, b: nat, b': nat)
    requires Distinct(ns.table) && b < |ns.val| == |ns.oval| && b' < |ns.val| && ValsOk(ns.val)
    requires SrcOf(s.code) == K == SrcOf(s'.code) && s.k == s'.k
    requires OperandNumber(ns.table, s, ns.val[b], ns.oval[b]) && OperandNumber(ns.table, s', ns.val[b'], ns.oval[b'])
    ensures ns.oval[b] == ns.oval[b'] != UNKNOWN
  {
  }

  lemma MergedUnknown(ns: Numbers, inEdges: seq<seq<nat>>, from: seq<nat>)
    requires Ranked(MISFOLDED, MISFOLDED_RANK) && InEdgesOf(MISFOLDED, inEdges, Below(MISFOLDED, MISFOLDED_RANK, 0))
    requires NumbersOk(MISFOLDED, ns, false, inEdges, from, Below(MISFOLDED, MISFOLDED_RANK, 0))
    requires {1, 2, 3} <= Below(MISFOLDED, MISFOLDED_RANK, 0)
    requires ns.val[1][A_ATOM] != ns.val[2][A_ATOM] && ns.val[1][X_ATOM] != ns.val[2][X_ATOM]
    ensures ns.val[3][A_ATOM] == UNKNOWN == ns.val[3][X_ATOM]
  {
    hide Below, Entry, Numbered, Distinct, Ordered, AllInRange, OperandNumber;
    var g, blocks := MISFOLDED, Below(MISFOLDED, MISFOLDED_RANK, 0);
    BlockNumbers(g, ns, inEdges, from, blocks, 3);
    assert EdgeOf(7, blocks, 8) && Target(g, 8) == 3 && EdgeOf(7, blocks, 9) && Target(g, 9) == 3;
    UnknownOnEntry(ns.val, inEdges[3], 8, 9, A_ATOM);
    UnknownOnEntry(ns.val, inEdges[3], 8, 9, X_ATOM);
  }

  lemma TransferUnknown(ns: Numbers, inEdges: seq<seq<nat>>, from: seq<nat>)
    requires Ranked(MISFOLDED, MISFOLDED_RANK) && InEdgesOf(MISFOLDED, inEdges, Below(MISFOLDED, MISFOLDED_RANK, 0))
    requires NumbersOk(MISFOLDED, ns, false, inEdges, from, Below(MISFOLDED, MISFOLDED_RANK, 0))
    requires {3, 4} <= Below(MISFOLDED, MISFOLDED_RANK, 0) && ns.val[3][X_ATOM] == UNKNOWN
    ensures ns.val[4][A_ATOM] == UNKNOWN
  {
    hide Below, Entry, Numbered, Distinct, Ordered, AllInRange, OperandNumber;
    var g, blocks := MISFOLDED, Below(MISFOLDED, MISFOLDED_RANK, 0);
    BlockNumbers(g, ns, inEdges, from, blocks, 4);
    assert EdgeOf(7, blocks, 3) && Target(g, 3) == 4;
    UnknownOnEntry(ns.val, inEdges[4], 3, 3, X_ATOM);
    var v := EntryOf(ns, inEdges[4], from[4]);
    FirstNumbered(v, g[4].stmts);
    EmptyNumbered(OptStmt(v, g[4].stmts[0], false).v);
  }

  lemma MisfoldedRuns(st: State, p: Packet)
    requires st.a == 0 == st.x && |p.data| >= 2 && p.data[0] == 0 && p.data[1] == 1
    ensures Ranked(MISFOLDED, MISFOLDED_RANK) && RunGraph(MISFOLDED, MISFOLDED_RANK, 0, st, p) == Return(0)
    ensures Ranked(MISLED, MISFOLDED_RANK) && RunGraph(MISLED, MISFOLDED_RANK, 0, st, p) == Return(1)
  {
    hide ExecList, Ranked;
    MisfoldedShape();
    var u := st.(x := 4, a := 1);
    ReadBytes(st, p);
    assert RunGraph(MISFOLDED, MISFOLDED_RANK, 5, u.(a := 4), p) == Return(0);
    assert RunGraph(MISFOLDED, MISFOLDED_RANK, 4, u, p) == Return(0);
    assert RunGraph(MISFOLDED, MISFOLDED_RANK, 3, u, p) == Return(0);
    assert RunGraph(MISFOLDED, MISFOLDED_RANK, 1, st, p) == Return(0);
    assert RunGraph(MISLED, MISFOLDED_RANK, 6, u, p) == Return(1);
    assert RunGraph(MISLED, MISFOLDED_RANK, 3, u, p) == Return(1);
    assert RunGraph(MISLED, MISFOLDED_RANK, 1, st, p) == Return(1);
  }

  lemma ReadBytes(st: State, p: Packet)
    requires |p.data| >= 2 && p.data[0] == 0 && p.data[1] == 1 && st.a == 0
    ensures ExecList(MISFOLDED[0].stmts, st, p) == Next(st)
    ensures ExecList(MISFOLDED[1].stmts, st, p) == Next(st.(x := 4, a := 1))
    ensures ExecList(MISFOLDED[4].stmts, st.(x := 4, a := 1), p) == Next(st.(x := 4, a := 4))
    ensures forall u :: ExecList([], u, p) == Next(u)
  {
    RunOne(Stmt(LdAbs(B), 0), st, p);
    RunOne(Stmt(LdxMsh, 1), st, p);
    RunThen([Stmt(LdxMsh, 1)], Stmt(LdAbs(B), 1), st, p);
    assert MISFOLDED[1].stmts == [Stmt(LdxMsh, 1)] + [Stmt(LdAbs(B), 1)];
    RunOne(Stmt(Txa, 0), st.(x := 4, a := 1), p);
  }

  /** Statements that never compute from a register's number: loads, and moves, which may move an unknown value. */
  predicate Copies(ss: seq<Stmt>)
  {
    forall i :: 0 <= i < |ss| ==>
      Straight(ss[i].code) && !ss[i].code.LdInd? && !ss[i].code.Neg? && !ss[i].code.Alu? && !ss[i].code.LdxLen?
  }

  lemma {:induction false} CopiesKnown(v: Values, ss: seq<Stmt>)
    requires |v.val| == N_ATOMS && AllInRange(ss) && Copies(ss)
    ensures KnownAlong(v, ss, false)
    decreases |ss|
  {
    hide OptStmt, InRange;
    if ss != [] {
      StaysNumbered(v, ss[0]);
      OptKeepsSize(v, ss[0], false);
      CopiesKnown(OptStmt(v, ss[0], false).v, ss[1..]);
    }
  }

  lemma CopyingKnown(g: Graph, ns: Numbers, inEdges: seq<seq<nat>>, from: seq<nat>, blocks: set<nat>)
    requires NumbersOk(g, ns, false, inEdges, from, blocks) && forall b :: 0 <= b < |g| ==> Copies(g[b].stmts)
    ensures AllKnown(g, ns, false, inEdges, from, blocks)
  {
    hide Copies, KnownAlong, Distinct, Ordered, Shaped, Entry, OptList, OperandNumber, AllInRange;
    forall b | b in blocks ensures KnownAlong(EntryOf(ns, inEdges[b], from[b]), g[b].stmts, false) {
      assert Numbered(g, ns, false, inEdges[b], from[b], b);
      CopiesKnown(EntryOf(ns, inEdges[b], from[b]), g[b].stmts);
    }
  }

  lemma MisfoldedLive(inUse: seq<set<nat>>, outUse: seq<set<nat>>, o: seq<nat>)
    requires Ranked(MISFOLDED, MISFOLDED_RANK) && Live(MISFOLDED, inUse, outUse, o) && {1, 2, 3, 4} <= Elements(o)
    ensures |outUse| == 7 && X_ATOM in outUse[1] && X_ATOM in outUse[2]
  {
    hide Live, Elements, Exposed;
    InElements(o, 1);
    InElements(o, 2);
    InElements(o, 3);
    InElements(o, 4);
    TransferReads();
    LiveUsed(MISFOLDED, inUse, outUse, o, 4, X_ATOM);
    LiveThrough(MISFOLDED, inUse, outUse, o, 3, 4, X_ATOM);
    LiveThrough(MISFOLDED, inUse, outUse, o, 1, 3, X_ATOM);
    LiveThrough(MISFOLDED, inUse, outUse, o, 2, 3, X_ATOM);
  }

  lemma TransferReads()
    ensures X_ATOM in Exposed([Stmt(Txa, 0)])
  {
    assert [Stmt(Txa, 0)][..0] == [];
  }

  lemma MisfoldedAlone(ns: Numbers, inEdges: seq<seq<nat>>, from: seq<nat>, outUse: seq<set<nat>>)
    requires Ranked(MISFOLDED, MISFOLDED_RANK) && InEdgesOf(MISFOLDED, inEdges, Below(MISFOLDED, MISFOLDED_RANK, 0))
    requires NumbersOk(MISFOLDED, ns, false, inEdges, from, Below(MISFOLDED, MISFOLDED_RANK, 0))
    requires |outUse| == 7 && X_ATOM in outUse[1] && X_ATOM in outUse[2]
    ensures AllLeftAlone(MISFOLDED, ns, outUse)
  {
    hide Below, NumbersOk, InEdgesOf, LeftAlone;
    var g, blocks := MISFOLDED, Below(MISFOLDED, MISFOLDED_RANK, 0);
    NumbersSized(g, ns, inEdges, from, blocks);
    MisfoldedBlocks();
    OneAlone(g, ns, inEdges, from, blocks, 0, outUse[0]);
    TwoAlone(g, ns, inEdges, from, blocks, 1, outUse[1]);
    TwoAlone(g, ns, inEdges, from, blocks, 2, outUse[2]);
    MisfoldedNumbers(ns, inEdges, from);
    EmptyAlone(g[3], outUse[3], Values(ns.table, ns.val[3]));
    TransferAlone(g[4], outUse[4], Values(ns.table, ns.val[4]));
  }

  lemma EmptyAlone(n: Node, outUse: set<nat>, v: Values)
    requires n.s.code.Jmp? && |v.val| == N_ATOMS && n.stmts == []
    ensures LeftAlone(n, outUse, v)
  {
  }

  lemma TransferAlone(n: Node, outUse: set<nat>, v: Values)
    requires n.s.code.Jmp? && n.s.code.src == K && n.s.code.jop != Jset && |v.val| == N_ATOMS
    requires n.stmts == [Stmt(Txa, 0)]
    requires v.val[A_ATOM] == UNKNOWN
    ensures LeftAlone(n, outUse, v)
  {
    hide P.PeepBranch, P.PeepFrom, D.Clean;
    PeepLeaves(n, outUse, v);
    OneKept(n.stmts[0], n.s, outUse);
  }

  lemma UnknownIsNotConstant(t: Table)
    ensures !IsConst(t, UNKNOWN)
  {
  }

  /** Two accumulators whose numbers are both unknown are taken for equal. Whatever numbers opt_blk gives this graph,
      its blocks compute from known numbers, fold_edge predicts that block 4 repeats the branch of block 3, and the
      guard of opt_j has nothing against it; but a packet that starts 0, 1 then returns 1 instead of 0. */
  lemma UnknownIsMisfolded(ns: Numbers, inEdges: seq<seq<nat>>, from: seq<nat>, inUse: seq<set<nat>>,
                           outUse: seq<set<nat>>,
                           o: seq<nat>, st: State, p: Packet)
    requires Ranked(MISFOLDED, MISFOLDED_RANK) && InEdgesOf(MISFOLDED, inEdges, Below(MISFOLDED, MISFOLDED_RANK, 0))
    requires NumbersOk(MISFOLDED, ns, false, inEdges, from, Below(MISFOLDED, MISFOLDED_RANK, 0))
    requires Placed(MISFOLDED, o) && Elements(o) == Below(MISFOLDED, MISFOLDED_RANK, 0)
    requires Live(MISFOLDED, inUse, outUse, o)
    requires st.a == 0 == st.x && |p.data| >= 2 && p.data[0] == 0 && p.data[1] == 1
    ensures AllKnown(MISFOLDED, ns, false, inEdges, from, Below(MISFOLDED, MISFOLDED_RANK, 0))
    ensures EdgeDominates(MISFOLDED, 0, 3, 3) && FoldEdge(MISFOLDED, ns, 4, 3) == 6
    ensures |outUse| == 7 && !UseConflict(ns, outUse, 3, 6) && AllLeftAlone(MISFOLDED, ns, outUse)
    ensures RunGraph(MISFOLDED, MISFOLDED_RANK, 0, st, p) == Return(0)
    ensures Ranked(MISLED, MISFOLDED_RANK) && RunGraph(MISLED, MISFOLDED_RANK, 0, st, p) == Return(1)
  {
    hide Below, NumbersOk, AllKnown, RunGraph, InEdgesOf, Placed, Elements, Live, FoldEdge, EdgeDominates, UseConflict,
         AllLeftAlone;
    var g := MISFOLDED;
    MisfoldedBlocks();
    MisfoldedFold(ns, inEdges, from);
    MisfoldedCopies(ns, inEdges, from);
    LinkedBelow(g, MISFOLDED_RANK, 0, 4, 6);
    InElements(o, 6);
    LeafNeedsNothing(g, inUse, outUse, o, 6);
    NoUseNoConflict(ns, outUse, 3, 6);
    MisfoldedLive(inUse, outUse, o);
    MisfoldedAlone(ns, inEdges, from, outUse);
    MisfoldedRuns(st, p);
  }

  lemma MisfoldedFold(ns: Numbers, inEdges: seq<seq<nat>>, from: seq<nat>)
    requires Ranked(MISFOLDED, MISFOLDED_RANK) && InEdgesOf(MISFOLDED, inEdges, Below(MISFOLDED, MISFOLDED_RANK, 0))
    requires NumbersOk(MISFOLDED, ns, false, inEdges, from, Below(MISFOLDED, MISFOLDED_RANK, 0))
    ensures |ns.val| == 7 == |ns.oval| && ValsOk(ns.val)
    ensures EdgeDominates(MISFOLDED, 0, 3, 3) && FoldEdge(MISFOLDED, ns, 4, 3) == 6
  {
    hide Below, NumbersOk, InEdgesOf;
    NumbersSized(MISFOLDED, ns, inEdges, from, Below(MISFOLDED, MISFOLDED_RANK, 0));
    MisfoldedNumbers(ns, inEdges, from);
  }

  lemma MisfoldedCopies(ns: Numbers, inEdges: seq<seq<nat>>, from: seq<nat>)
    requires Ranked(MISFOLDED, MISFOLDED_RANK)
    requires NumbersOk(MISFOLDED, ns, false, inEdges, from, Below(MISFOLDED, MISFOLDED_RANK, 0))
    ensures AllKnown(MISFOLDED, ns, false, inEdges, from, Below(MISFOLDED, MISFOLDED_RANK, 0))
  {
    hide Below, NumbersOk, AllKnown;
    var g := MISFOLDED;
    forall b | 0 <= b < |g| ensures Copies(g[b].stmts) {}
    CopyingKnown(g, ns, inEdges, from, Below(MISFOLDED, MISFOLDED_RANK, 0));
  }

  lemma NoUseNoConflict(ns: Numbers, outUse: seq<set<nat>>, b: nat, succ: nat)
    requires b < |ns.val| && succ < |ns.val| && succ < |outUse| && ValsOk(ns.val) && outUse[succ] == {}
    ensures !UseConflict(ns, outUse, b, succ)
  {
  }

  lemma LeafNeedsNothing(g: Graph, inUse: seq<set<nat>>, outUse: seq<set<nat>>, o: seq<nat>, b: nat)
    requires WellFormed(g) && Live(g, inUse, outUse, o) && b in o
    ensures b < |g| == |outUse| && (IsLeaf(g[b]) ==> outUse[b] == {})
  {
    hide Live, Used, Killed;
    LiveMember(g, inUse, outUse, o, b);
  }

  /** The passes themselves lead there. */
  method MispredictedByThePasses(st: State, p: Packet) returns (to: int)
    requires st.a == 0 == st.x && |p.data| >= 2 && p.data[0] == 0 && p.data[1] == 1
    ensures to == 6 && Ranked(MISFOLDED, MISFOLDED_RANK)
    ensures Ranked(MISFOLDED[3 := SetBranch(MISFOLDED[3], true, to)], MISFOLDED_RANK)
    ensures RunGraph(MISFOLDED, MISFOLDED_RANK, 0, st, p) !=
            RunGraph(MISFOLDED[3 := SetBranch(MISFOLDED[3], true, to)], MISFOLDED_RANK, 0, st, p)
  {
    hide Below, RunGraph, InEdgesOf, Placed, Elements, Live, NumbersOk, DominatorsExact, NoRepeats, AllKnown, FoldEdge;
    MisfoldedShape();
    var order, dom, inUse, outUse, inEdges, ns; ghost var from;
    order, dom, inUse, outUse, inEdges, ns, from := Analyse(MISFOLDED, 0, MISFOLDED_RANK);
    NumbersSized(MISFOLDED, ns, inEdges, from, Below(MISFOLDED, MISFOLDED_RANK, 0));
    to := FoldEdge(MISFOLDED, ns, 4, 3);
    UnknownIsMisfolded(ns, inEdges, from, inUse, outUse, order, st, p);
  }

  // ------------------------------------------------------ a read not guarded

  /** Block 1 stores a byte that block 2 loads; its test repeats that of block 0. */
  const SKIPPED: Graph :=
    [Node([Stmt(LdAbs(B), 0)], Stmt(Jmp(Jeq, K), 5), 1, 4),
     Node([Stmt(LdAbs(B), 1), Stmt(St, 0), Stmt(LdAbs(B), 0)], Stmt(Jmp(Jeq, K), 5), 2, 4),
     Node([Stmt(LdMem, 0)], Stmt(Jmp(Jeq, K), 7), 3, 4),
     Node([], Stmt(RetK, 1), NIL, NIL), Node([], Stmt(RetK, 0), NIL, NIL)]
  const SKIPPED_RANK: seq<nat> := [3, 2, 1, 0, 0]
  const PROMOTED: Graph := SKIPPED[0 := SetBranch(SKIPPED[0], true, 2)]

  lemma SkippedShape()
    ensures Ranked(SKIPPED, SKIPPED_RANK) && Ranked(PROMOTED, SKIPPED_RANK) && GraphInRange(SKIPPED)
  {
    var g := SKIPPED;
    forall b | 0 <= b < |g| ensures AllInRange(g[b].stmts) {}
  }

  lemma SkippedBlocks()
    ensures Ranked(SKIPPED, SKIPPED_RANK) && {0, 1, 2, 3, 4} <= Below(SKIPPED, SKIPPED_RANK, 0)
  {
    hide Below;
    SkippedShape();
    var g, r := SKIPPED, SKIPPED_RANK;
    RootBelow(g, r, 0);
    LinkedBelow(g, r, 0, 0, 1);
    LinkedBelow(g, r, 0, 1, 2);
    LinkedBelow(g, r, 0, 2, 3);
    LinkedBelow(g, r, 0, 2, 4);
  }

  lemma StoreStep(v: Values, s: Stmt)
    requires |v.val| == N_ATOMS && InRange(s) && s.code.St?
    ensures var r := OptStmt(v, s, false); r.Becomes? && r.v.table == v.table && r.v.val == v.val[s.k := v.val[A_ATOM]]
  {
  }

  /** The numbers the analysis gives: blocks 0 and 1 leave the same byte in A and compare it with the same constant. */
  lemma SkippedNumbers(ns: Numbers, inEdges: seq<seq<nat>>, from: seq<nat>)
    requires Ranked(SKIPPED, SKIPPED_RANK) && InEdgesOf(SKIPPED, inEdges, Below(SKIPPED, SKIPPED_RANK, 0))
    requires NumbersOk(SKIPPED, ns, false, inEdges, from, Below(SKIPPED, SKIPPED_RANK, 0))
    ensures ns.val[0][A_ATOM] == ns.val[1][A_ATOM] != UNKNOWN && ns.oval[0] == ns.oval[1] != UNKNOWN
    ensures ns.val[0][0] == UNKNOWN
  {
    hide Below, Entry, Numbered, Ordered, OptStmt, OptList, AllInRange, InEdgesOf, OperandNumber, Distinct;
    var g, blocks := SKIPPED, Below(SKIPPED, SKIPPED_RANK, 0);
    SkippedBlocks();
    OneLoad(g, ns, inEdges, from, blocks, 0, Stmt(LdAbs(B), 0));
    NothingAtRoot(g, SKIPPED_RANK, ns, inEdges);
    StoredLoad(g, ns, inEdges, from, blocks, 1, Stmt(LdAbs(B), 1), Stmt(St, 0), Stmt(LdAbs(B), 0));
    NamesOne(ns.table, ns.val[0][A_ATOM], ns.val[1][A_ATOM], Key(LdAbs(B), 0, 0));
    BlockNumbers(g, ns, inEdges, from, blocks, 0);
    BlockNumbers(g, ns, inEdges, from, blocks, 1);
    SameOperand(ns, g[0].s, g[1].s, 0, 1);
  }

  lemma SkippedFold(ns: Numbers, inEdges: seq<seq<nat>>, from: seq<nat>, p: Packet)
    requires Ranked(SKIPPED, SKIPPED_RANK) && InEdgesOf(SKIPPED, inEdges, Below(SKIPPED, SKIPPED_RANK, 0))
    requires NumbersOk(SKIPPED, ns, false, inEdges, from, Below(SKIPPED, SKIPPED_RANK, 0))
    ensures EdgeDominates(SKIPPED, 0, 0, 0) && FoldEdge(SKIPPED, ns, 1, 0) == 2 && FoldCertain(SKIPPED, ns, 1, 0, p)
  {
    hide Below, Entry, Distinct, Ordered, AllInRange, OperandNumber, InEdgesOf, Numbered, Meaning, Foregone;
    SkippedNumbers(ns, inEdges, from);
  }

  lemma NothingAtRoot(g: Graph, rank: seq<nat>, ns: Numbers, inEdges: seq<seq<nat>>)
    requires Ranked(g, rank) && |g| > 0 && InEdgesOf(g, inEdges, Below(g, rank, 0)) && ValsOk(ns.val)
    ensures inEdges[0] == [] && forall a :: 0 <= a < N_ATOMS ==> Entry(ns.val, [])[a] == UNKNOWN
  {
    hide Below, InEdgesOf;
    NoEdgesIntoRoot(g, rank, 0, inEdges);
  }

  lemma StoredLoad(g: Graph, ns: Numbers, inEdges: seq<seq<nat>>, from: seq<nat>, blocks: set<nat>, b: nat, s: Stmt,
                   s': Stmt, s'': Stmt)
    requires NumbersOk(g, ns, false, inEdges, from, blocks) && b in blocks && b < |g| && g[b].stmts == [s, s', s'']
    requires Plain(s) && s'.code.St? && InRange(s') && s''.code.LdAbs?
    ensures Names(ns.table, ns.val[b][A_ATOM], PlainKey(s''))
    ensures PlainAtom(s) == A_ATOM ==> Names(ns.table, ns.val[b][s'.k], PlainKey(s))
  {
    hide OptStmt, OptList, Distinct, Ordered, Entry, Numbered, OperandNumber, AllInRange;
    BlockNumbers(g, ns, inEdges, from, blocks, b);
    var v := EntryOf(ns, inEdges[b], from[b]);
    assert [s, s', s''][1..] == [s', s''] && [s', s''][1..] == [s''];
    FirstNumbered(v, [s, s', s'']);
    PlainStep(v, s);
    var v1 := OptStmt(v, s, false).v;
    FirstNumbered(v1, [s', s'']);
    StoreStep(v1, s');
    var v2 := OptStmt(v1, s', false).v;
    FirstNumbered(v2, [s'']);
    PlainStep(v2, s'');
    EmptyNumbered(OptStmt(v2, s'', false).v);
  }

  lemma SkippedLive(inUse: seq<set<nat>>, outUse: seq<set<nat>>, o: seq<nat>)
    requires Ranked(SKIPPED, SKIPPED_RANK) && Live(SKIPPED, inUse, outUse, o) && 1 in o && 2 in o && 3 in o && 4 in o
    ensures |inUse| == 5 == |outUse| && outUse[2] == {} && 0 in inUse[2] && 0 in outUse[1]
  {
    hide Live;
    LiveMember(SKIPPED, inUse, outUse, o, 1);
    LiveMember(SKIPPED, inUse, outUse, o, 2);
    LiveMember(SKIPPED, inUse, outUse, o, 3);
    LiveMember(SKIPPED, inUse, outUse, o, 4);
    assert Exposed([]) == {} && Defs([]) == {};
    ReadsMemory();
  }

  lemma SkippedAlone(ns: Numbers, inEdges: seq<seq<nat>>, from: seq<nat>, outUse: seq<set<nat>>)
    requires Ranked(SKIPPED, SKIPPED_RANK) && InEdgesOf(SKIPPED, inEdges, Below(SKIPPED, SKIPPED_RANK, 0))
    requires NumbersOk(SKIPPED, ns, false, inEdges, from, Below(SKIPPED, SKIPPED_RANK, 0))
    requires |outUse| == 5 && 0 in outUse[1]
    ensures AllLeftAlone(SKIPPED, ns, outUse)
  {
    hide Below, NumbersOk, InEdgesOf, LeftAlone, IsConst;
    var g, blocks := SKIPPED, Below(SKIPPED, SKIPPED_RANK, 0);
    NumbersSized(g, ns, inEdges, from, blocks);
    SkippedBlocks();
    OneAlone(g, ns, inEdges, from, blocks, 0, outUse[0]);
    StoreAlone(g, ns, inEdges, from, blocks, 1, outUse[1]);
    LoadedIsNotConstant(ns, inEdges, from);
    MemoryAlone(g[2], outUse[2], Values(ns.table, ns.val[2]));
  }

  lemma StoreAlone(g: Graph, ns: Numbers, inEdges: seq<seq<nat>>, from: seq<nat>, blocks: set<nat>, b: nat,
                   outUse: set<nat>)
    requires NumbersOk(g, ns, false, inEdges, from, blocks) && b in blocks && b < |g| && |g[b].stmts| == 3
    requires g[b].stmts[0].code.LdAbs? && g[b].stmts[1].code.St? && InRange(g[b].stmts[1]) && g[b].stmts[2].code.LdAbs?
    requires g[b].s.code.Jmp? && g[b].s.code.src == K && g[b].s.code.jop != Jset && g[b].stmts[1].k in outUse
    ensures LeftAlone(g[b], outUse, Values(ns.table, ns.val[b]))
  {
    hide NumbersOk, IsConst, P.PeepBranch, P.PeepFrom, D.Clean;
    var ss := g[b].stmts;
    assert ss == [ss[0], ss[1], ss[2]];
    NumbersSized(g, ns, inEdges, from, blocks);
    StoredLoad(g, ns, inEdges, from, blocks, b, ss[0], ss[1], ss[2]);
    LoadIsNotConstant(ns.table, ns.val[b][A_ATOM], ss[2]);
    PeepLeaves(g[b], outUse, Values(ns.table, ns.val[b]));
    StoreKept(ss[0], ss[1], ss[2], g[b].s, outUse);
  }

  lemma MemoryAlone(n: Node, outUse: set<nat>, v: Values)
    requires n.s.code.Jmp? && n.s.code.src == K && n.s.code.jop != Jset && |v.val| == N_ATOMS
    requires n.stmts == [Stmt(LdMem, 0)]
    requires !IsConst(v.table, v.val[A_ATOM])
    ensures LeftAlone(n, outUse, v)
  {
    hide P.PeepBranch, P.PeepFrom, D.Clean;
    PeepLeaves(n, outUse, v);
    OneKept(n.stmts[0], n.s, outUse);
  }

  /** What block 2 loads is the byte block 1 stored. */
  lemma LoadedIsNotConstant(ns: Numbers, inEdges: seq<seq<nat>>, from: seq<nat>)
    requires Ranked(SKIPPED, SKIPPED_RANK) && InEdgesOf(SKIPPED, inEdges, Below(SKIPPED, SKIPPED_RANK, 0))
    requires NumbersOk(SKIPPED, ns, false, inEdges, from, Below(SKIPPED, SKIPPED_RANK, 0))
    ensures !IsConst(ns.table, ns.val[2][A_ATOM])
  {
    hide Below, Entry, Numbered, Distinct, Ordered, AllInRange, OperandNumber, IsConst, OptStmt, OptList;
    var g, blocks := SKIPPED, Below(SKIPPED, SKIPPED_RANK, 0);
    SkippedBlocks();
    var ss := g[1].stmts;
    StoredLoad(g, ns, inEdges, from, blocks, 1, ss[0], ss[1], ss[2]);
    LoadIsNotConstant(ns.table, ns.val[1][0], ss[0]);
    BlockNumbers(g, ns, inEdges, from, blocks, 2);
    var v := EntryOf(ns, inEdges[2], from[2]);
    FirstNumbered(v, g[2].stmts);
    MemoryStep(v, g[2].stmts[0]);
    EmptyNumbered(OptStmt(v, g[2].stmts[0], false).v);
    UnknownIsNotConstant(ns.table);
    assert EdgeOf(5, blocks, 1) && Target(g, 1) == 2;
    if Entry(ns.val, inEdges[2])[0] != UNKNOWN { EntryAgrees(ns.val, inEdges[2], 1, 0); }
  }

  lemma MemoryStep(v: Values, s: Stmt)
    requires |v.val| == N_ATOMS && InRange(s) && s.code.LdMem?
    ensures var r := OptStmt(v, s, false); r.Becomes? && r.v.val == v.val[A_ATOM := v.val[s.k]] && r.v.table == v.table
  {
  }

  lemma ReadsMemory()
    ensures 0 in Exposed([Stmt(LdMem, 0)])
  {
    assert [Stmt(LdMem, 0)][..0] == [];
  }

  lemma SkippedRuns(st: State, p: Packet)
    requires |p.data| >= 2 && p.data[0] == 5 && p.data[1] == 7 && st.mem[0] != 7
    ensures Ranked(SKIPPED, SKIPPED_RANK) && RunGraph(SKIPPED, SKIPPED_RANK, 0, st, p) == Return(1)
    ensures Ranked(PROMOTED, SKIPPED_RANK) && RunGraph(PROMOTED, SKIPPED_RANK, 0, st, p) == Return(0)
  {
    hide ExecList, Ranked;
    SkippedShape();
    var u, w := st.(a := 5, mem := st.mem[0 := 7]), st.(a := 5);
    StoredBytes(st, p);
    StoredBytes(w, p);
    StoredBytes(u, p);
    assert RunGraph(SKIPPED, SKIPPED_RANK, 3, u.(a := 7), p) == Return(1);
    assert RunGraph(SKIPPED, SKIPPED_RANK, 2, u, p) == Return(1);
    assert RunGraph(SKIPPED, SKIPPED_RANK, 1, w, p) == Return(1);
    assert RunGraph(PROMOTED, SKIPPED_RANK, 4, w.(a := st.mem[0]), p) == Return(0);
    assert RunGraph(PROMOTED, SKIPPED_RANK, 2, w, p) == Return(0);
  }

  lemma StoredBytes(st: State, p: Packet)
    requires |p.data| >= 2 && p.data[0] == 5 && p.data[1] == 7
    ensures ExecList(SKIPPED[0].stmts, st, p) == Next(st.(a := 5))
    ensures ExecList(SKIPPED[1].stmts, st, p) == Next(st.(a := 5, mem := st.mem[0 := 7]))
    ensures ExecList(SKIPPED[2].stmts, st, p) == Next(st.(a := st.mem[0]))
    ensures forall u :: ExecList([], u, p) == Next(u)
  {
    RunOne(Stmt(LdAbs(B), 0), st, p);
    RunOne(Stmt(LdAbs(B), 1), st, p);
    RunOne(Stmt(LdMem, 0), st, p);
    RunThen([Stmt(LdAbs(B), 1)], Stmt(St, 0), st, p);
    RunThen([Stmt(LdAbs(B), 1)] + [Stmt(St, 0)], Stmt(LdAbs(B), 0), st, p);
    assert SKIPPED[1].stmts == [Stmt(LdAbs(B), 1)] + [Stmt(St, 0)] + [Stmt(LdAbs(B), 0)];
  }

  /** The guard of opt_j compares what is live on exit from the target and does not look at what the target reads.
      Whatever numbers and live registers the analyses find, fold_edge proposes block 2 for the true branch of block 0,
      rightly, and the guard sees no conflict, although block 2 reads what block 1 stores; the result changes for
      packets that start 5, 7. */
  lemma GuardMissesReads(ns: Numbers, inEdges: seq<seq<nat>>, from: seq<nat>, inUse: seq<set<nat>>,
                         outUse: seq<set<nat>>,
                         o: seq<nat>, st: State, p: Packet)
    requires Ranked(SKIPPED, SKIPPED_RANK) && InEdgesOf(SKIPPED, inEdges, Below(SKIPPED, SKIPPED_RANK, 0))
    requires NumbersOk(SKIPPED, ns, false, inEdges, from, Below(SKIPPED, SKIPPED_RANK, 0))
    requires Placed(SKIPPED, o) && Elements(o) == Below(SKIPPED, SKIPPED_RANK, 0) && Live(SKIPPED, inUse, outUse, o)
    requires |p.data| >= 2 && p.data[0] == 5 && p.data[1] == 7 && st.mem[0] != 7
    ensures AllKnown(SKIPPED, ns, false, inEdges, from, Below(SKIPPED, SKIPPED_RANK, 0))
    ensures EdgeDominates(SKIPPED, 0, 0, 0) && FoldEdge(SKIPPED, ns, 1, 0) == 2 && FoldCertain(SKIPPED, ns, 1, 0, p)
    ensures |inUse| == 5 == |outUse| && !UseConflict(ns, outUse, 0, 2) && !GuardHolds(ns, inUse[2], 0, 1)
    ensures AllLeftAlone(SKIPPED, ns, outUse)
    ensures RunGraph(SKIPPED, SKIPPED_RANK, 0, st, p) == Return(1)
    ensures Ranked(PROMOTED, SKIPPED_RANK) && RunGraph(PROMOTED, SKIPPED_RANK, 0, st, p) == Return(0)
  {
    hide Below, Entry, Distinct, Ordered, AllInRange, OperandNumber, KnownAlong, RunGraph, InEdgesOf, Placed, Elements,
         Live,
         Numbered, FoldEdge, FoldCertain, EdgeDominates;
    var g := SKIPPED;
    SkippedBlocks();
    SkippedNumbers(ns, inEdges, from);
    SkippedFold(ns, inEdges, from, p);
    forall b | 0 <= b < |g| ensures Copies(g[b].stmts) {}
    CopyingKnown(g, ns, inEdges, from, Below(SKIPPED, SKIPPED_RANK, 0));
    InElements(o, 1);
    InElements(o, 2);
    InElements(o, 3);
    InElements(o, 4);
    SkippedLive(inUse, outUse, o);
    SkippedAlone(ns, inEdges, from, outUse);
    SkippedRuns(st, p);
  }

  /** The passes themselves lead there. */
  method PromotedByThePasses(st: State, p: Packet) returns (to: int)
    requires |p.data| >= 2 && p.data[0] == 5 && p.data[1] == 7 && st.mem[0] != 7
    ensures to == 2 && Ranked(SKIPPED, SKIPPED_RANK)
    ensures Ranked(SKIPPED[0 := SetBranch(SKIPPED[0], true, to)], SKIPPED_RANK)
    ensures RunGraph(SKIPPED, SKIPPED_RANK, 0, st, p) !=
            RunGraph(SKIPPED[0 := SetBranch(SKIPPED[0], true, to)], SKIPPED_RANK, 0, st, p)
  {
    hide Below, RunGraph, InEdgesOf, Placed, Elements, Live, NumbersOk, DominatorsExact, NoRepeats, AllKnown, FoldEdge,
         FoldCertain;
    SkippedShape();
    var order, dom, inUse, outUse, inEdges, ns; ghost var from;
    order, dom, inUse, outUse, inEdges, ns, from := Analyse(SKIPPED, 0, SKIPPED_RANK);
    NumbersSized(SKIPPED, ns, inEdges, from, Below(SKIPPED, SKIPPED_RANK, 0));
    to := FoldEdge(SKIPPED, ns, 1, 0);
    GuardMissesReads(ns, inEdges, from, inUse, outUse, order, st, p);
  }

  // ---------------------------------------------------- a test pulled too far up

  /** Block 2 looks at the byte block 0 has looked at, and at another one that a short packet does not have. */
  const BEFORE: Graph :=
    [Node([Stmt(LdAbs(B), 0)], Stmt(Jmp(Jgt, K), 0), 1, 4),
     Node([Stmt(LdLen, 0)], Stmt(Jmp(Jeq, K), 60), 3, 2),
     Node([Stmt(LdxMsh, 9), Stmt(LdAbs(B), 0)], Stmt(Jmp(Jeq, X), 0), 3, 4),
     Node([], Stmt(RetK, 1), NIL, NIL), Node([], Stmt(RetK, 0), NIL, NIL)]
  const BEFORE_RANK: seq<nat> := [3, 2, 1, 0, 0]
  const AFTER: Graph := [BEFORE[0].(jt := 2), BEFORE[1].(jf := 4), BEFORE[2].(jf := 1), BEFORE[3], BEFORE[4]]
  const AFTER_RANK: seq<nat> := [3, 1, 2, 0, 0]

  lemma BeforeShape()
    ensures Ranked(BEFORE, BEFORE_RANK) && Ranked(AFTER, AFTER_RANK) && GraphInRange(BEFORE)
  {
    var g := BEFORE;
    forall b | 0 <= b < |g| ensures AllInRange(g[b].stmts) {}
  }

  lemma BeforeBlocks()
    ensures Ranked(BEFORE, BEFORE_RANK) && {0, 1, 2} <= Below(BEFORE, BEFORE_RANK, 0)
  {
    hide Below;
    BeforeShape();
    var g, r := BEFORE, BEFORE_RANK;
    RootBelow(g, r, 0);
    LinkedBelow(g, r, 0, 0, 1);
    LinkedBelow(g, r, 0, 1, 2);
  }

  lemma BeforeNumbers(ns: Numbers, inEdges: seq<seq<nat>>, from: seq<nat>)
    requires Ranked(BEFORE, BEFORE_RANK)
    requires NumbersOk(BEFORE, ns, false, inEdges, from, Below(BEFORE, BEFORE_RANK, 0))
    ensures ns.val[0][A_ATOM] == ns.val[2][A_ATOM] != ns.val[1][A_ATOM]
  {
    hide Below, Entry, Numbered, Ordered, OptStmt, OptList, AllInRange, Distinct;
    var g, blocks := BEFORE, Below(BEFORE, BEFORE_RANK, 0);
    BeforeBlocks();
    OneLoad(g, ns, inEdges, from, blocks, 0, Stmt(LdAbs(B), 0));
    OneLoad(g, ns, inEdges, from, blocks, 1, Stmt(LdLen, 0));
    TwoLoads(g, ns, inEdges, from, blocks, 2, Stmt(LdxMsh, 9), Stmt(LdAbs(B), 0));
    NamesOne(ns.table, ns.val[0][A_ATOM], ns.val[2][A_ATOM], Key(LdAbs(B), 0, 0));
  }

  lemma BeforeAlone(ns: Numbers, inEdges: seq<seq<nat>>, from: seq<nat>, outUse: seq<set<nat>>)
    requires Ranked(BEFORE, BEFORE_RANK) && |outUse| == 5
    requires NumbersOk(BEFORE, ns, false, inEdges, from, Below(BEFORE, BEFORE_RANK, 0))
    ensures AllLeftAlone(BEFORE, ns, outUse)
  {
    hide Below, NumbersOk, LeftAlone;
    var g, blocks := BEFORE, Below(BEFORE, BEFORE_RANK, 0);
    NumbersSized(g, ns, inEdges, from, blocks);
    BeforeBlocks();
    OneAlone(g, ns, inEdges, from, blocks, 0, outUse[0]);
    OneAlone(g, ns, inEdges, from, blocks, 1, outUse[1]);
    TwoAlone(g, ns, inEdges, from, blocks, 2, outUse[2]);
  }

  lemma BeforeDominated(dom: seq<set<nat>>)
    requires Ranked(BEFORE, BEFORE_RANK) && |dom| == 5 && DominatorsExact(BEFORE, 0, Below(BEFORE, BEFORE_RANK, 0), dom)
    ensures 1 in dom[1] && 1 in dom[2]
  {
    hide Below;
    BeforeBlocks();
    forall xs | RootPath(BEFORE, 0, xs) && xs[|xs| - 1] == 2 ensures 1 in xs {
      assert Links(BEFORE, xs[|xs| - 2], xs[|xs| - 1]);
    }
    assert Dominates(BEFORE, 0, 1, 1) && Dominates(BEFORE, 0, 1, 2);
  }

  lemma BeforeEdges(inEdges: seq<seq<nat>>)
    requires Ranked(BEFORE, BEFORE_RANK) && InEdgesOf(BEFORE, inEdges, Below(BEFORE, BEFORE_RANK, 0))
    ensures inEdges[1] != [] && forall i :: 0 <= i < |inEdges[1]| ==> inEdges[1][i] == 0
  {
    hide Below;
    BeforeBlocks();
    assert EdgeOf(5, Below(BEFORE, BEFORE_RANK, 0), 0) && Target(BEFORE, 0) == 1;
    assert 0 in inEdges[1];
    forall i | 0 <= i < |inEdges[1]| ensures inEdges[1][i] == 0 {
      var e := inEdges[1][i];
      assert e in inEdges[1];
    }
  }

  lemma PulledIsAfter(g': Graph, blocks: set<nat>)
    requires U.Pulled(BEFORE, g', false, 3, [1, 2], blocks) && 0 in blocks && blocks <= {0, 1, 2, 3, 4}
    ensures g' == AFTER
  {
    var g := BEFORE;
    assert U.Rewired(g, g', false, [1, 2], blocks, 0) && U.Rewired(g, g', false, [1, 2], blocks, 1);
    assert U.Rewired(g, g', false, [1, 2], blocks, 2) && U.Rewired(g, g', false, [1, 2], blocks, 3);
    assert U.Rewired(g, g', false, [1, 2], blocks, 4);
  }

  lemma BeforeRuns(st: State, p: Packet)
    requires |p.data| == 1 && p.data[0] > 0 && p.wirelen == 60
    ensures Ranked(BEFORE, BEFORE_RANK) && RunGraph(BEFORE, BEFORE_RANK, 0, st, p) == Return(1)
    ensures Ranked(AFTER, AFTER_RANK) && RunGraph(AFTER, AFTER_RANK, 0, st, p) == Rejected
  {
    hide ExecList, Ranked;
    BeforeShape();
    var u := st.(a := p.data[0]);
    ShortPacket(st, p);
    ShortPacket(u, p);
    assert RunGraph(BEFORE, BEFORE_RANK, 3, u.(a := 60), p) == Return(1);
    assert RunGraph(BEFORE, BEFORE_RANK, 1, u, p) == Return(1);
    assert RunGraph(AFTER, AFTER_RANK, 2, u, p) == Rejected;
  }

  lemma ShortPacket(st: State, p: Packet)
    requires |p.data| == 1 && p.wirelen == 60
    ensures ExecList(BEFORE[0].stmts, st, p) == Next(st.(a := p.data[0]))
    ensures ExecList(BEFORE[1].stmts, st, p) == Next(st.(a := 60))
    ensures ExecList(BEFORE[2].stmts, st, p) == Reject
    ensures forall u :: ExecList([], u, p) == Next(u)
  {
    RunOne(Stmt(LdAbs(B), 0), st, p);
    RunOne(Stmt(LdLen, 0), st, p);
    RunOne(Stmt(LdxMsh, 9), st, p);
    RunThen([Stmt(LdxMsh, 9)], Stmt(LdAbs(B), 0), st, p);
    assert BEFORE[2].stmts == [Stmt(LdxMsh, 9)] + [Stmt(LdAbs(B), 0)];
  }

  lemma BeforeChosen(ns: Numbers, inEdges: seq<seq<nat>>, dom: seq<set<nat>>)
    requires Ranked(BEFORE, BEFORE_RANK) && |ns.val| == 5 == |dom| == |inEdges| && ValsOk(ns.val)
    requires ns.val[0][A_ATOM] == ns.val[2][A_ATOM] != ns.val[1][A_ATOM] && 1 in dom[1] && 1 in dom[2]
    requires inEdges[1] != [] && forall i :: 0 <= i < |inEdges[1]| ==> inEdges[1][i] == 0
    ensures U.PredsValue(BEFORE, inEdges[1], AccNumbers(ns)) == Some(ns.val[0][A_ATOM])
    ensures U.Candidates(BEFORE, BEFORE_RANK, false, 1, dom, AccNumbers(ns), ns.val[0][A_ATOM]) == Some((1, 2))
  {
    hide Ranked;
    BeforeShape();
  }

  /** A pulled test may reject a packet that an earlier alternative accepts. Whatever numbers, in-edges and dominators
      the analyses find, or_pullup moves the test of block 2 before that of block 1, since its accumulator is what
      block 0 leaves; what else block 2 reads is not compared. */
  lemma PulledRejects(ns: Numbers, inEdges: seq<seq<nat>>, from: seq<nat>, dom: seq<set<nat>>, outUse: seq<set<nat>>,
                      st: State, p: Packet)
    requires Ranked(BEFORE, BEFORE_RANK) && InEdgesOf(BEFORE, inEdges, Below(BEFORE, BEFORE_RANK, 0))
    requires NumbersOk(BEFORE, ns, false, inEdges, from, Below(BEFORE, BEFORE_RANK, 0))
    requires |dom| == 5 == |outUse| && DominatorsExact(BEFORE, 0, Below(BEFORE, BEFORE_RANK, 0), dom)
    requires |p.data| == 1 && p.data[0] > 0 && p.wirelen == 60
    ensures AllLeftAlone(BEFORE, ns, outUse)
    ensures forall i :: 0 <= i < |inEdges[1]| ==> inEdges[1][i] < 10
    ensures U.PredsValue(BEFORE, inEdges[1], AccNumbers(ns)) == Some(ns.val[0][A_ATOM])
    ensures U.Candidates(BEFORE, BEFORE_RANK, false, 1, dom, AccNumbers(ns), ns.val[0][A_ATOM]) == Some((1, 2))
    ensures RunGraph(BEFORE, BEFORE_RANK, 0, st, p) == Return(1)
    ensures Ranked(AFTER, AFTER_RANK) && RunGraph(AFTER, AFTER_RANK, 0, st, p) == Rejected
  {
    hide Below, NumbersOk, InEdgesOf, DominatorsExact, RunGraph, AllLeftAlone, U.Candidates, U.PredsValue;
    NumbersSized(BEFORE, ns, inEdges, from, Below(BEFORE, BEFORE_RANK, 0));
    BeforeNumbers(ns, inEdges, from);
    BeforeDominated(dom);
    BeforeEdges(inEdges);
    InEdgesSized(BEFORE, inEdges, Below(BEFORE, BEFORE_RANK, 0));
    BeforeChosen(ns, inEdges, dom);
    BeforeAlone(ns, inEdges, from, outUse);
    BeforeRuns(st, p);
  }

  /** The passes themselves lead there. */
  method PulledByThePasses(st: State, p: Packet) returns (g: Graph)
    requires |p.data| == 1 && p.data[0] > 0 && p.wirelen == 60
    ensures g == AFTER && Ranked(BEFORE, BEFORE_RANK) && Ranked(g, AFTER_RANK)
    ensures RunGraph(BEFORE, BEFORE_RANK, 0, st, p) == Return(1) && RunGraph(g, AFTER_RANK, 0, st, p) == Rejected
  {
    hide Below, RunGraph, InEdgesOf, Placed, Elements, Live, NumbersOk, DominatorsExact, NoRepeats, U.Candidates,
         U.Pulled,
         U.KeepsResults, U.EdgesTo;
    BeforeBlocks();
    BeforeShape();
    var order, dom, inUse, outUse, inEdges, ns; ghost var from;
    order, dom, inUse, outUse, inEdges, ns, from := Analyse(BEFORE, 0, BEFORE_RANK);
    LiveSizes(BEFORE, inUse, outUse, order);
    PulledRejects(ns, inEdges, from, dom, outUse, st, p);
    NumbersSized(BEFORE, ns, inEdges, from, Below(BEFORE, BEFORE_RANK, 0));
    var mover := new U.Mover(BEFORE);
    InEdgesSized(BEFORE, inEdges, Below(BEFORE, BEFORE_RANK, 0));
    var moved; ghost var seg;
    moved, seg := mover.Pullup(1, false, inEdges, dom, AccNumbers(ns), 0, BEFORE_RANK);
    g := mover.g;
    SegmentIs(g, seg, Below(BEFORE, BEFORE_RANK, 0));
  }

  lemma LiveSizes(g: Graph, inUse: seq<set<nat>>, outUse: seq<set<nat>>, order: seq<nat>)
    requires WellFormed(g) && Live(g, inUse, outUse, order)
    ensures |inUse| == |g| == |outUse|
  {
  }

  lemma SegmentIs(g': Graph, seg: seq<nat>, blocks: set<nat>)
    requires U.Pulled(BEFORE, g', false, 3, seg, blocks) && |seg| > 1 && seg[0] == 1 && seg[|seg| - 1] == 2
    requires 0 in blocks && Ranked(BEFORE, BEFORE_RANK) && blocks == Below(BEFORE, BEFORE_RANK, 0)
    ensures g' == AFTER
  {
    hide Below;
    assert U.Along(BEFORE[seg[0]], false) == seg[1];
    assert |seg| > 2 ==> U.Along(BEFORE[seg[1]], false) == seg[2];
    assert |seg| > 2 ==> U.InChain(BEFORE, false, 3, seg[2]);
    assert seg == [1, 2];
    forall b | b in blocks ensures b in {0, 1, 2, 3, 4} { BelowBasics(BEFORE, BEFORE_RANK, 0, b); }
    PulledIsAfter(g', blocks);
  }
}
