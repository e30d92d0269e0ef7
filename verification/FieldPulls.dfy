/**
 * Pull-ups on graphs of field tests: with the numbers opt_blk gives, the test that
 * is pulled up has been read before, so no condition on the run is left.
 */
module FieldPulls {
  import opened Words
  import opened Machine
  import opened FlowGraph
  import opened Layout
  import opened Levels
  import opened Dominators
  import opened Liveness
  import opened ValueNumbers
  import opened ValueRewrite
  import opened BlockValues
  import opened GraphEdits
  import opened SelfContained
  import opened BranchMoves
  import opened Pullup
  import opened Analyses
  import opened ShortBlocks

  /** A field, masked or not, compared with a constant; or a return of a constant. */
  predicate FieldNode(n: Node)
  {
    if IsLeaf(n) then n.stmts == [] && n.s.code.RetK?
    else
      && 1 <= |n.stmts| <= 2 && n.stmts[0].code.LdAbs? && (|n.stmts| == 2 ==> n.stmts[1].code == Alu(And_, K))
      && n.s.code.Jmp? && n.s.code.src == K
  }

  predicate FieldGraph(g: Graph) { forall b :: 0 <= b < |g| ==> FieldNode(g[b]) }

  lemma FieldIsContained(n: Node)
    requires FieldNode(n)
    ensures ContainedNode(n)
  {
    if !IsLeaf(n) {
      var ss := n.stmts;
      OneStatement(ss[0]);
      if |ss| == 1 {
        assert ss == [ss[0]];
      } else {
        assert ss == [ss[0]] + [ss[1]];
        ContainedThen([ss[0]], ss[1]);
      }
    }
  }

  lemma FieldsAreContained(g: Graph)
    requires FieldGraph(g)
    ensures ContainedGraph(g)
  {
    hide FieldNode, ContainedNode;
    forall b | 0 <= b < |g| ensures ContainedNode(g[b]) { FieldIsContained(g[b]); }
  }

  // ------------------------------------------------------ a field read before

  /** The mask of a value: if the masked value means something, so does the value. */
  lemma MaskStep(v: Values, s: Stmt, n: nat)
    requires |v.val| == N_ATOMS && s.code == Alu(And_, K) && v.val[A_ATOM] == n
    ensures var r := OptStmt(v, s, false);
            && r.Becomes? && |r.v.val| == N_ATOMS && v.table <= r.v.table && 0 < r.v.val[A_ATOM] <= |r.v.table|
            && var k := r.v.table[r.v.val[A_ATOM] - 1]; k.code == Alu(And_, K) && k.v0 == n
  {
    hide Find;
  }

  lemma MaskMeans(t: Table, n: nat, p: Packet)
    requires 0 < n <= |t| && t[n - 1].code == Alu(And_, K) && Meaning(t, n, p).Some?
    ensures Meaning(t, t[n - 1].v0, p).Some?
  {
  }

  lemma LoadMeans(t: Table, n: nat, s: Stmt, p: Packet)
    requires s.code.LdAbs? && Names(t, n, Key(s.code, s.k, 0)) && Meaning(t, n, p).Some?
    ensures s.k + Bytes(s.code.size) <= |p.data|
  {
  }

  /** If the accumulator's number means something on the packet, the field is captured. */
  lemma FieldCaptured(g: Graph, ns: Numbers, inEdges: seq<seq<nat>>, from: seq<nat>, blocks: set<nat>, b: nat,
                      p: Packet)
    requires NumbersOk(g, ns, false, inEdges, from, blocks) && b in blocks && b < |g| && FieldNode(g[b])
    requires !IsLeaf(g[b])
    requires Meaning(ns.table, ns.val[b][A_ATOM], p).Some?
    ensures g[b].stmts[0].k + Bytes(g[b].stmts[0].code.size) <= |p.data|
  {
    hide Meaning, OptStmt, OptList, Distinct, Ordered, Entry, Numbered, OperandNumber, AllInRange;
    var ss := g[b].stmts;
    if |ss| == 1 {
      assert ss == [ss[0]];
      OneLoad(g, ns, inEdges, from, blocks, b, ss[0]);
      LoadMeans(ns.table, ns.val[b][A_ATOM], ss[0], p);
    } else {
      BlockNumbers(g, ns, inEdges, from, blocks, b);
      var v := EntryOf(ns, inEdges[b], from[b]);
      assert ss == [ss[0], ss[1]] && ss[1..] == [ss[1]];
      FirstNumbered(v, ss);
      PlainStep(v, ss[0]);
      var v1 := OptStmt(v, ss[0], false).v;
      FirstNumbered(v1, [ss[1]]);
      MaskStep(v1, ss[1], v1.val[A_ATOM]);
      EmptyNumbered(OptStmt(v1, ss[1], false).v);
      MaskMeans(ns.table, ns.val[b][A_ATOM], p);
      LoadMeans(ns.table, v1.val[A_ATOM], ss[0], p);
    }
  }

  lemma CapturedGoes(g: Graph, b: nat, p: Packet)
    requires WellFormed(g) && b < |g| && FieldNode(g[b]) && !IsLeaf(g[b])
    requires g[b].stmts[0].k + Bytes(g[b].stmts[0].code.size) <= |p.data|
    ensures WayIn(g, b, p).Goes?
  {
    hide Fetch, Words.And, Compare;
    var ss := g[b].stmts;
    RunOne(ss[0], BLANK_STATE, p);
    if |ss| == 1 {
      assert ss == [ss[0]];
    } else {
      assert ss == [ss[0]] + [ss[1]];
      RunThen([ss[0]], ss[1], BLANK_STATE, p);
    }
  }

  // --------------------------------------------------------- the packet's path

  /** The blocks a packet's run comes by on its way to h. */
  lemma {:induction false} MeetsBlocks(g: Graph, rank: seq<nat>, n: nat, h: nat, p: Packet) returns (xs: seq<nat>)
    requires Ranked(g, rank) && n < |g| && Meets(g, rank, n, h, p)
    ensures RootPath(g, n, xs) && xs[|xs| - 1] == h
    ensures forall i :: 0 <= i < |xs| - 1 ==>
              xs[i] < |g| && WayIn(g, xs[i], p).Goes? && Successor(g[xs[i]], WayIn(g, xs[i], p).taken) == xs[i + 1]
    decreases rank[n]
  {
    hide WayOf;
    if n == h {
      xs := [n];
    } else {
      GoesOn(g, n, p);
      var next := Successor(g[n], WayIn(g, n, p).taken);
      var rest := MeetsBlocks(g, rank, next, h, p);
      xs := [n] + rest;
      forall i | 0 < i < |xs| ensures Links(g, xs[i - 1], xs[i]) {
        if i > 1 { assert xs[i - 1] == rest[i - 2] && xs[i] == rest[i - 1]; }
      }
    }
  }

  lemma {:induction false} MeetsResult(g: Graph, rank: seq<nat>, n: nat, h: nat, p: Packet)
    requires Ranked(g, rank) && n < |g| && h < |g| && Meets(g, rank, n, h, p)
    ensures ResultOf(g, rank, n, p) == ResultOf(g, rank, h, p)
    decreases rank[n]
  {
    hide WayOf;
    if n != h {
      GoesOn(g, n, p);
      MeetsResult(g, rank, Successor(g[n], WayIn(g, n, p).taken), h, p);
    }
  }

  /** A run that comes to a block b dominates has come by a predecessor of b. */
  lemma PredecessorMet(g: Graph, rank: seq<nat>, root: nat, inEdges: seq<seq<nat>>, b: nat, h: nat, p: Packet)
    returns (q: nat)
    requires Ranked(g, rank) && root < |g| && InEdgesOf(g, inEdges, Below(g, rank, root)) && b < |g| && inEdges[b] != []
    requires Meets(g, rank, root, h, p) && Dominates(g, root, b, h)
    ensures q < |g| && q in Below(g, rank, root) && WayIn(g, q, p).Goes?
    ensures EdgeId(|g|, q, WayIn(g, q, p).taken) in inEdges[b]
  {
    hide WayOf, Below, InEdgesOf, Meets, Links;
    var xs := MeetsBlocks(g, rank, root, h, p);
    assert b in xs;
    var j :| 0 <= j < |xs| && xs[j] == b;
    NoEdgesIntoRoot(g, rank, root, inEdges);
    q := xs[j - 1];
    PathStaysBelow(g, rank, root, xs, j - 1);
    EdgeInto(g, rank, root, inEdges, q, b, p);
  }

  lemma EdgeInto(g: Graph, rank: seq<nat>, root: nat, inEdges: seq<seq<nat>>, q: nat, b: nat, p: Packet)
    requires Ranked(g, rank) && root < |g| && InEdgesOf(g, inEdges, Below(g, rank, root)) && q in Below(g, rank, root)
    requires b < |g|
    requires q < |g| && WayIn(g, q, p).Goes? && Successor(g[q], WayIn(g, q, p).taken) == b
    ensures EdgeId(|g|, q, WayIn(g, q, p).taken) in inEdges[b]
  {
    hide WayOf, Below;
    GoesOn(g, q, p);
    var e := EdgeId(|g|, q, WayIn(g, q, p).taken);
    assert EdgeOf(|g|, Below(g, rank, root), e) && Target(g, e) == b;
  }

  /** What the pass looks at for block b, and finds. */
  ghost predicate Chosen(g: Graph, rank: seq<nat>, root: nat, along: bool, b: nat, dom: seq<set<nat>>, ns: Numbers,
                         inEdges: seq<seq<nat>>, pull: nat)
    requires Ranked(g, rank) && b < |g| == |dom| == |ns.val| == |inEdges| && ValsOk(ns.val) && !IsLeaf(g[b])
    requires EdgesIn(|g|, inEdges[b])
  {
    match PredsValue(g, inEdges[b], AccNumbers(ns))
    case None => false
    case Some(v) =>
      match Candidates(g, rank, along, b, dom, AccNumbers(ns), v)
      case None => false
      case Some((_, c)) => c == pull
  }

  lemma {:induction false} SoughtHas(g: Graph, rank: seq<nat>, along: bool, b: nat, dom: seq<set<nat>>, aval: seq<nat>,
                                     v: nat, at: nat)
    requires Ranked(g, rank) && b < |g| == |dom| == |aval| && at < |g| && !IsLeaf(g[b])
    ensures match Sought(g, rank, along, b, dom, aval, v, false, at)
            case None => true
            case Some(c) => c < |g| && aval[c] == v
    decreases rank[at]
  {
    if Exit(g[at], along) == Exit(g[b], along) && b in dom[at] && aval[at] != v {
      SoughtHas(g, rank, along, b, dom, aval, v, Along(g[at], along));
    }
  }

  /** The chosen test leaves what every predecessor of b leaves. */
  lemma ChosenHas(g: Graph, rank: seq<nat>, root: nat, along: bool, b: nat, dom: seq<set<nat>>, ns: Numbers,
                  inEdges: seq<seq<nat>>, pull: nat, e: nat)
    requires Ranked(g, rank) && b < |g| == |dom| == |ns.val| && ValsOk(ns.val) && !IsLeaf(g[b]) && |inEdges| == |g|
    requires EdgesIn(|g|, inEdges[b]) && Chosen(g, rank, root, along, b, dom, ns, inEdges, pull) && e in inEdges[b]
    ensures pull < |g| && e < 2 * |g| && ns.val[pull][A_ATOM] == ns.val[Owner(|g|, e)][A_ATOM]
  {
    hide Sought, Ranked;
    var v := PredsValue(g, inEdges[b], AccNumbers(ns)).value;
    var (diff, _) := Candidates(g, rank, along, b, dom, AccNumbers(ns), v).value;
    SoughtHas(g, rank, along, b, dom, AccNumbers(ns), v, Along(g[diff], along));
    var i :| 0 <= i < |inEdges[b]| && inEdges[b][i] == e;
  }

  /** On every run that comes to the segment, the test that is pulled up goes through: its field has been read. */
  lemma PulledGoes(g: Graph, rank: seq<nat>, root: nat, along: bool, b: nat, dom: seq<set<nat>>, ns: Numbers,
                   inEdges: seq<seq<nat>>, from: seq<nat>, h: nat, pull: nat, p: Packet)
    requires Ranked(g, rank) && root < |g| && InEdgesOf(g, inEdges, Below(g, rank, root)) && FieldGraph(g)
    requires NumbersOk(g, ns, false, inEdges, from, Below(g, rank, root))
    requires b < |g| == |dom| == |ns.val| && ValsOk(ns.val) && !IsLeaf(g[b]) && inEdges[b] != []
    requires EdgesIn(|g|, inEdges[b])
    requires Chosen(g, rank, root, along, b, dom, ns, inEdges, pull) && pull in Below(g, rank, root) && !IsLeaf(g[pull])
    requires Meets(g, rank, root, h, p) && Dominates(g, root, b, h)
    ensures WayIn(g, pull, p).Goes?
  {
    hide WayOf, Below, Dominates, Meets, Chosen, FieldNode, Distinct, Ordered, AllInRange, Numbered, Meaning, ExecList,
         Taken,
         ContainedNode;
    var q := PredecessorMet(g, rank, root, inEdges, b, h, p);
    ChosenHas(g, rank, root, along, b, dom, ns, inEdges, pull, EdgeId(|g|, q, WayIn(g, q, p).taken));
    GoesOn(g, q, p);
    FieldIsContained(g[q]);
    BranchMeans(g, ns, inEdges[q], from[q], q, BLANK_STATE, ExecList(g[q].stmts, BLANK_STATE, p).st, p);
    FieldCaptured(g, ns, inEdges, from, Below(g, rank, root), pull, p);
    CapturedGoes(g, pull, p);
  }

  lemma EndOfOne(g: Graph, along: bool, p: Packet, c: nat)
    requires WellFormed(g) && c < |g| && WayIn(g, c, p).Goes?
    ensures !EndOf(g, along, p, [c]).Ends?
  {
    assert [c][1..] == [];
  }

  /** Where the order matters although the last test goes through, a test before it ends the run without a value. */
  lemma EndsBefore(g: Graph, rank: seq<nat>, along: bool, t: int, seg: seq<nat>, p: Packet)
    requires Ranked(g, rank) && |seg| > 1 && Chain(g, along, t, seg) && forall i :: 0 <= i < |seg| ==> seg[i] < |g|
    requires !OrderFree(g, along, seg, p) && WayIn(g, seg[|seg| - 1], p).Goes?
    ensures !ResultOf(g, rank, seg[0], p).Return?
  {
    hide EndOf, WayOf, ResultOf;
    var last := |seg| - 1;
    EndOfOne(g, along, p, seg[last]);
    assert seg == seg[..last] + [seg[last]];
    EndAppend(g, along, p, seg[..last], [seg[last]]);
    ChainResult(g, rank, along, t, seg, p);
    NoValues(g, along, t, seg, p);
  }

  lemma AllAreFixed(g: Graph, blocks: set<nat>, p: Packet)
    requires WellFormed(g) && ContainedGraph(g) && forall b :: b in blocks ==> b < |g|
    ensures AllFixed(g, blocks, p)
  {
    hide ContainedNode, ExecList, Taken;
    forall b | b in blocks ensures Fixed(g[b], p) {
      forall st, st' ensures WayOf(g[b], st, p) == WayOf(g[b], st', p) { PacketDecides(g[b], st, st', p); }
    }
  }

  /** A pull-up that the numbers of opt_blk make or_pullup or and_pullup choose, on a graph of field tests, keeps the
      result of every run that is not rejected. */
  lemma FieldPullupKeeps(g: Graph, rank: seq<nat>, g': Graph, root: nat, along: bool, b: nat, seg: seq<nat>,
                         dom: seq<set<nat>>, ns: Numbers, inEdges: seq<seq<nat>>, from: seq<nat>)
    requires Ranked(g, rank) && root < |g| && InEdgesOf(g, inEdges, Below(g, rank, root)) && FieldGraph(g)
    requires NumbersOk(g, ns, false, inEdges, from, Below(g, rank, root))
    requires b < |g| == |dom| == |ns.val| && ValsOk(ns.val) && !IsLeaf(g[b]) && inEdges[b] != []
    requires EdgesIn(|g|, inEdges[b])
    requires PulledUp(g, rank, g', root, along, b, seg) && |seg| > 1
    requires Chosen(g, rank, root, along, b, dom, ns, inEdges, seg[|seg| - 1])
    ensures seg[0] < |g| && Keeps(g, rank, g', NewRank(g, rank, Below(g, rank, root), seg[0], seg[|seg| - 1]), root)
  {
    hide Below, NumbersOk, InEdgesOf, Chosen, Dominates, Meets, OrderFree, ResultOf, RunGraph, NewRank, FieldNode,
         Rewired;
    var rank' := NewRank(g, rank, Below(g, rank, root), seg[0], seg[|seg| - 1]);
    forall st: State, p: Packet | RunGraph(g, rank, root, st, p).Return?
      ensures RunGraph(g', rank', root, st, p) == RunGraph(g, rank, root, st, p)
    {
      FieldRunKept(g, rank, g', root, along, b, seg, dom, ns, inEdges, from, st, p);
    }
  }

  lemma FieldRunKept(g: Graph, rank: seq<nat>, g': Graph, root: nat, along: bool, b: nat, seg: seq<nat>,
                     dom: seq<set<nat>>, ns: Numbers, inEdges: seq<seq<nat>>, from: seq<nat>, st: State, p: Packet)
    requires Ranked(g, rank) && root < |g| && InEdgesOf(g, inEdges, Below(g, rank, root)) && FieldGraph(g)
    requires NumbersOk(g, ns, false, inEdges, from, Below(g, rank, root))
    requires b < |g| == |dom| == |ns.val| && ValsOk(ns.val) && !IsLeaf(g[b]) && inEdges[b] != []
    requires EdgesIn(|g|, inEdges[b])
    requires PulledUp(g, rank, g', root, along, b, seg) && |seg| > 1 && seg[0] < |g|
    requires Chosen(g, rank, root, along, b, dom, ns, inEdges, seg[|seg| - 1]) && RunGraph(g, rank, root, st, p).Return?
    ensures var rank' := NewRank(g, rank, Below(g, rank, root), seg[0], seg[|seg| - 1]);
            Ranked(g', rank') && root < |g'| && RunGraph(g', rank', root, st, p) == RunGraph(g, rank, root, st, p)
  {
    hide Below, NumbersOk, InEdgesOf, Chosen, Dominates, Meets, OrderFree, ResultOf, RunGraph, NewRank, FieldNode,
         Rewired, WayOf;
    var blocks, last, t := Below(g, rank, root), |seg| - 1, Exit(g[b], along);
    FieldsAreContained(g);
    forall c | c in blocks ensures c < |g| { BelowBasics(g, rank, root, c); }
    AllAreFixed(g, blocks, p);
    if !OrderFree(g, along, seg, p) && Meets(g, rank, root, seg[0], p) {
      assert Pullup.InChain(g, along, t, seg[last]);
      PulledGoes(g, rank, root, along, b, dom, ns, inEdges, from, seg[0], seg[last], p);
      EndsBefore(g, rank, along, t, seg, p);
      MeetsResult(g, rank, root, seg[0], p);
      ReachesAll(g, rank, root);
      FixedRuns(g, rank, blocks, root, st, p);
    }
  }

  lemma ReachesAll(g: Graph, rank: seq<nat>, root: nat)
    requires Ranked(g, rank) && root < |g|
    ensures root in Below(g, rank, root) && ClosedUnder(g, Below(g, rank, root))
  {
    hide Below;
    RootBelow(g, rank, root);
    forall b | b in Below(g, rank, root)
      ensures b < |g| && (!IsLeaf(g[b]) ==> g[b].jt in Below(g, rank, root) && g[b].jf in Below(g, rank, root))
    {
      BelowBasics(g, rank, root, b);
      if !IsLeaf(g[b]) {
        LinkedBelow(g, rank, root, b, g[b].jt);
        LinkedBelow(g, rank, root, b, g[b].jf);
      }
    }
  }

  // ------------------------------------------------------------------ the pass

  /** The new graph does as the old one, and is one of field tests as well. */
  ghost predicate Pulls(g: Graph, rank: seq<nat>, g': Graph, rank': seq<nat>, root: nat)
  {
    Keeps(g, rank, g', rank', root) && SameTests(g, g') && FieldGraph(g')
  }

  lemma PullsTrans(g0: Graph, r0: seq<nat>, g1: Graph, r1: seq<nat>, g2: Graph, r2: seq<nat>, root: nat)
    requires Pulls(g0, r0, g1, r1, root) && Pulls(g1, r1, g2, r2, root)
    ensures Pulls(g0, r0, g2, r2, root)
  {
    hide Keeps, FieldNode;
    KeepsTrans(g0, r0, g1, r1, g2, r2, root);
  }

  lemma PullsFacts(g: Graph, rank: seq<nat>, g': Graph, rank': seq<nat>, root: nat)
    requires Pulls(g, rank, g', rank', root)
    ensures Ranked(g', rank') && root < |g'| == |g| && FieldGraph(g')
  {
  }

  lemma NotPulled(g: Graph, rank: seq<nat>, root: nat)
    requires Ranked(g, rank) && root < |g| && FieldGraph(g)
    ensures Pulls(g, rank, g, rank, root)
  {
    hide RunGraph;
  }

  lemma PulledTests(g: Graph, rank: seq<nat>, g': Graph, rank': seq<nat>, along: bool, t: int, seg: seq<nat>,
                    blocks: set<nat>)
    requires Ranked(g, rank) && Ranked(g', rank') && FieldGraph(g) && Pulled(g, g', along, t, seg, blocks)
    ensures SameTests(g, g') && FieldGraph(g')
  {
    hide Pulled, FieldNode;
    SameSize(g, g', along, t, seg, blocks);
    forall b | 0 <= b < |g|
      ensures g'[b].stmts == g[b].stmts && g'[b].s == g[b].s && (IsLeaf(g'[b]) <==> IsLeaf(g[b])) && FieldNode(g'[b])
    {
      ContentsStay(g, g', along, t, seg, blocks, b);
      SameField(g[b], g'[b]);
    }
  }

  lemma SameField(n: Node, n': Node)
    requires FieldNode(n) && n'.stmts == n.stmts && n'.s == n.s && (IsLeaf(n') <==> IsLeaf(n))
    ensures FieldNode(n')
  {
  }

  lemma FieldsInRange(g: Graph)
    requires FieldGraph(g)
    ensures GraphInRange(g)
  {
    forall b | 0 <= b < |g| ensures AllInRange(g[b].stmts) { assert FieldNode(g[b]); }
  }

  /** There is a test to be pulled up to b. */
  ghost predicate HasPull(g: Graph, rank: seq<nat>, root: nat, b: nat, along: bool, dom: seq<set<nat>>, ns: Numbers,
                          inEdges: seq<seq<nat>>)
    requires Ranked(g, rank) && root < |g|
  {
    && b in Below(g, rank, root) && b < |g| == |dom| == |ns.val| == |inEdges| && ValsOk(ns.val) && !IsLeaf(g[b])
    && EdgesIn(|g|, inEdges[b]) && exists pull :: Chosen(g, rank, root, along, b, dom, ns, inEdges, pull)
  }

  /** One pull-up from the analyses: the chosen test is pulled up, along the chain that leads to it; without one
      nothing changes. */
  ghost predicate PulledBy(g: Graph, rank: seq<nat>, root: nat, b: nat, along: bool, g': Graph, dom: seq<set<nat>>,
                           ns: Numbers, inEdges: seq<seq<nat>>, from: seq<nat>)
    requires Ranked(g, rank) && root < |g|
  {
    && |dom| == |g| && DominatorsExact(g, root, Below(g, rank, root), dom)
    && InEdgesOf(g, inEdges, Below(g, rank, root)) && NumbersOk(g, ns, false, inEdges, from, Below(g, rank, root))
    && if HasPull(g, rank, root, b, along, dom, ns, inEdges)
       then exists seg ::
              && |seg| > 1 && Chosen(g, rank, root, along, b, dom, ns, inEdges, seg[|seg| - 1])
              && PulledUp(g, rank, g', root, along, b, seg)
       else g' == g
  }

  /** or_pullup or and_pullup of one block, from what the analyses find: a test is moved exactly if there is one to
      choose. */
  method PullOne(g: Graph, root: nat, b: nat, along: bool, ghost rank: seq<nat>)
    returns (g': Graph, moved: bool, dom: seq<set<nat>>, ns: Numbers, inEdges: seq<seq<nat>>, ghost from: seq<nat>,
            ghost rank': seq<nat>)
    requires Ranked(g, rank) && root < |g| && FieldGraph(g)
    ensures moved <==> HasPull(g, rank, root, b, along, dom, ns, inEdges)
    ensures PulledBy(g, rank, root, b, along, g', dom, ns, inEdges, from)
    ensures Pulls(g, rank, g', rank', root)
  {
    hide Below, NumbersOk, InEdgesOf, Placed, Elements, Live, DominatorsExact, NoRepeats, Candidates, PulledUp,
         KeepsResults, Keeps, Pulls, FieldGraph, Dominates, NewRank, SameTests, EdgesTo, GraphInRange;
    FieldsInRange(g);
    NotPulled(g, rank, root);
    g', moved, rank' := g, false, rank;
    var order, inUse, outUse;
    order, dom, inUse, outUse, inEdges, ns, from := Analyse(g, root, rank);
    InElements(order, b);
    NumbersSized(g, ns, inEdges, from, Below(g, rank, root));
    InEdgesSized(g, inEdges, Below(g, rank, root));
    if b in order && b < |g| && !IsLeaf(g[b]) {
      var mover := new Mover(g);
      ghost var seg;
      moved, seg := mover.Pullup(b, along, inEdges, dom, AccNumbers(ns), root, rank);
      g' := mover.g;
      EdgesToIn(g, b, inEdges[b]);
      if moved {
        assert Chosen(g, rank, root, along, b, dom, ns, inEdges, seg[|seg| - 1]);
        PulledIs(g, rank, g', root, along, b, seg);
        FieldPullupKeeps(g, rank, g', root, along, b, seg, dom, ns, inEdges, from);
        rank' := NewRank(g, rank, Below(g, rank, root), seg[0], seg[|seg| - 1]);
        KeepsRanked(g, rank, g', rank', root);
        PulledTests(g, rank, g', rank', along, Exit(g[b], along), seg, Below(g, rank, root));
        PullsIs(g, rank, g', rank', root);
      }
    }
  }

  lemma PullsIs(g: Graph, rank: seq<nat>, g': Graph, rank': seq<nat>, root: nat)
    requires Keeps(g, rank, g', rank', root) && SameTests(g, g') && FieldGraph(g')
    ensures Pulls(g, rank, g', rank', root)
  {
  }

  lemma KeepsRanked(g: Graph, rank: seq<nat>, g': Graph, rank': seq<nat>, root: nat)
    requires Keeps(g, rank, g', rank', root)
    ensures Ranked(g', rank') && |g'| == |g|
  {
  }

  lemma EdgesToIn(g: Graph, b: nat, es: seq<nat>)
    requires EdgesTo(g, b, es)
    ensures EdgesIn(|g|, es)
  {
  }

  /** One pull-up, from the analyses of the graph as it is then. */
  ghost predicate OnePulled(g: Graph, rank: seq<nat>, root: nat, b: nat, along: bool, g': Graph)
  {
    Ranked(g, rank) && root < |g| &&
    exists dom, ns, inEdges, from :: PulledBy(g, rank, root, b, along, g', dom, ns, inEdges, from)
  }

  ghost predicate BothPulled(g: Graph, rank: seq<nat>, root: nat, b: nat, g': Graph)
  {
    exists g1, rank1 :: OnePulled(g, rank, root, b, false, g1) && OnePulled(g1, rank1, root, b, true, g')
  }

  /** or_pullup and and_pullup of every block of the order: gs are the graphs between, rs their ranks. */
  ghost predicate AllPulled(order: seq<nat>, gs: seq<Graph>, rs: seq<seq<nat>>, root: nat)
  {
    |gs| == |order| + 1 == |rs| &&
    forall i :: 0 <= i < |order| ==> BothPulled(gs[i], rs[i], root, order[i], gs[i + 1])
  }

  /** Both pull-ups of every block, from the lowest level up. */
  method PullAll(g0: Graph, root: nat, order: seq<nat>, ghost rank0: seq<nat>)
    returns (g: Graph, ghost rank: seq<nat>, ghost gs: seq<Graph>, ghost rs: seq<seq<nat>>)
    requires Ranked(g0, rank0) && root < |g0| && FieldGraph(g0)
    ensures Pulls(g0, rank0, g, rank, root)
    ensures AllPulled(order, gs, rs, root) && gs[0] == g0 && gs[|order|] == g && rs[0] == rank0 && rs[|order|] == rank
  {
    hide Pulls, FieldGraph, Below, PulledBy;
    NotPulled(g0, rank0, root);
    g, rank := g0, rank0;
    gs, rs := [g0], [rank0];
    for i := 0 to |order|
      invariant Pulls(g0, rank0, g, rank, root) && AllPulled(order[..i], gs, rs, root)
      invariant gs[0] == g0 && gs[i] == g && rs[0] == rank0 && rs[i] == rank
    {
      PullsFacts(g0, rank0, g, rank, root);
      ghost var before, r0 := g, rank;
      var g1, moved, dom, ns, inEdges; ghost var from, r1;
      g1, moved, dom, ns, inEdges, from, r1 := PullOne(g, root, order[i], false, rank);
      assert OnePulled(before, r0, root, order[i], false, g1);
      PullsFacts(g, rank, g1, r1, root);
      PullsTrans(g0, rank0, g, rank, g1, r1, root);
      g, moved, dom, ns, inEdges, from, rank := PullOne(g1, root, order[i], true, r1);
      assert OnePulled(g1, r1, root, order[i], true, g);
      PullsTrans(g0, rank0, g1, r1, g, rank, root);
      gs, rs := gs + [g], rs + [rank];
      assert BothPulled(before, r0, root, order[i], g);
    }
    assert order[..|order|] == order;
  }

  lemma PulledIs(g: Graph, rank: seq<nat>, g': Graph, root: nat, along: bool, b: nat, seg: seq<nat>)
    requires Ranked(g, rank) && root < |g| && b < |g| && PulledUp(g, rank, g', root, along, b, seg)
    ensures Pulled(g, g', along, Exit(g[b], along), seg, Below(g, rank, root))
    ensures forall i :: 0 <= i < |seg| ==> Dominates(g, root, b, seg[i]) && seg[i] != root
  {
    hide Pulled, KeepsResults, Dominates;
  }
}
