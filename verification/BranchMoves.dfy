/**
 * The branch movement of a round of the optimizer, on graphs of self-contained
 * blocks: all of it rests on numbers and edge dominators found before the first
 * edge was moved.
 */
module BranchMoves {
  import opened Words
  import opened Machine
  import opened FlowGraph
  import opened Layout
  import opened Levels
  import opened Dominators
  import opened Liveness
  import opened ValueNumbers
  import opened ValueRewrite
  import opened BlockValues
  import opened BranchFolding
  import opened GraphEdits
  import opened SelfContained
  import opened Pullup

  // ------------------------------------- what the numbers of a block say by itself

  ghost predicate SameIn(v: Values, v': Values, atoms: set<nat>)
  {
    v.table == v'.table && |v.val| == N_ATOMS == |v'.val| && forall a :: 0 <= a < N_ATOMS && a in atoms ==>
      v.val[a] == v'.val[a]
  }

  lemma StepForgets(v: Values, v': Values, s: Stmt, atoms: set<nat>)
    requires SameIn(v, v', atoms) && InRange(s) && !s.code.LdxLen? && UseSet(s) <= atoms
    ensures var r, r' := OptStmt(v, s, false), OptStmt(v', s, false);
            r.Becomes? && r'.Becomes? && SameIn(r.v, r'.v, atoms + DefSet(s))
  {
    hide Find;
  }

  /** What a list numbers does not depend on registers it does not read. */
  lemma {:induction false} ListForgets(v: Values, v': Values, ss: seq<Stmt>, atoms: set<nat>)
    requires SameIn(v, v', atoms) && AllInRange(ss) && NoLength(ss) && Exposed(ss) <= atoms
    ensures var r, r' := OptList(v, ss, false), OptList(v', ss, false);
            r.Block? && r'.Block? && SameIn(r.v, r'.v, atoms + Defs(ss))
    decreases |ss|
  {
    hide OptStmt, InRange, UseSet, DefSet, Defs, Exposed;
    if ss == [] {
      NoneSet();
    } else {
      TakeFirst(ss);
      StepForgets(v, v', ss[0], atoms);
      OptKeepsSize(v, ss[0], false);
      OptKeepsSize(v', ss[0], false);
      ListForgets(OptStmt(v, ss[0], false).v, OptStmt(v', ss[0], false).v, ss[1..], atoms + DefSet(ss[0]));
    }
  }

  ghost predicate MeansIn(t: Table, val: seq<nat>, atoms: set<nat>, st: State, p: Packet)
    requires |val| == N_ATOMS
  {
    forall a :: 0 <= a < N_ATOMS && a in atoms ==> Meaning(t, val[a], p) == Some(Val(st, a))
  }

  /** The numbers of the registers a contained list sets stand for what it leaves in them, from any state at all. */
  lemma ListMeans(v: Values, ss: seq<Stmt>, st: State, t: State, p: Packet)
    requires Shaped(v) && Contained(ss) && ExecList(ss, st, p) == Next(t)
    ensures var r := OptList(v, ss, false);
            r.Block? && |r.v.val| == N_ATOMS && MeansIn(r.v.table, r.v.val, Defs(ss), t, p)
  {
    hide OptList, Exposed, Defs, ExecList, Meaning, InRange, KnownAlong, Ordered;
    var v' := Values(v.table, NOTHING_KNOWN.val);
    ExposedKnown(v', ss, false, {});
    ListForgets(v, v', ss, {});
    OptListFaithful(v', ss, false, st, p);
    assert {} + Defs(ss) == Defs(ss);
  }

  lemma BlockMeans(g: Graph, ns: Numbers, es: seq<nat>, m: nat, b: nat, st: State, t: State, p: Packet)
    requires b < |g| == |ns.val| == |ns.oval| && ValsOk(ns.val) && AllInRange(g[b].stmts) && EdgesIn(|g|, es)
    requires Numbered(g, ns, false, es, m, b) && ContainedNode(g[b]) && ExecList(g[b].stmts, st, p) == Next(t)
    ensures MeansIn(ns.table, ns.val[b], Defs(g[b].stmts), t, p)
  {
    hide OptList, Exposed, Defs, ExecList, Meaning, AllInRange, Ordered, Entry, UseSet;
    var v := EntryOf(ns, es, m);
    ListMeans(v, g[b].stmts, st, t, p);
    var r := OptList(v, g[b].stmts, false);
    forall a | 0 <= a < N_ATOMS && a in Defs(g[b].stmts) ensures Meaning(ns.table, ns.val[b][a], p) == Some(Val(t, a)) {
      MeaningStable(r.v.table, ns.table, r.v.val[a], p);
    }
  }

  /** The operands of the branch of a contained block. */
  lemma BranchMeans(g: Graph, ns: Numbers, es: seq<nat>, m: nat, b: nat, st: State, t: State, p: Packet)
    requires b < |g| == |ns.val| == |ns.oval| && ValsOk(ns.val) && AllInRange(g[b].stmts) && EdgesIn(|g|, es)
    requires !IsLeaf(g[b])
    requires Numbered(g, ns, false, es, m, b) && ContainedNode(g[b]) && ExecList(g[b].stmts, st, p) == Next(t)
    ensures Meaning(ns.table, ns.val[b][A_ATOM], p) == Some(t.a)
    ensures Meaning(ns.table, ns.oval[b], p) == Some(Operand(g[b].s.code.src, g[b].s.k, t))
  {
    hide OptList, Exposed, Defs, ExecList, Meaning, AllInRange, Ordered, Entry, Shaped;
    BlockMeans(g, ns, es, m, b, st, t, p);
    assert A_ATOM in BranchUse(g[b].s) && Val(t, A_ATOM) == t.a;
    if g[b].s.code.src == K {
      ConstMeaning(ns.table, ns.oval[b], p);
    } else {
      assert X_ATOM in BranchUse(g[b].s) && Val(t, X_ATOM) == t.x;
    }
  }

  /** fold_edge is right of what the packet makes of the two blocks, wherever they stand. */
  lemma PacketPredicts(g: Graph, ns: Numbers, e: nat, w: nat, tv: State, tw: State, p: Packet)
    requires |g| == |ns.val| == |ns.oval| && ValsOk(ns.val) && Distinct(ns.table) && e < 2 * |g| && w < |g|
    requires var v := Owner(|g|, e);
             && g[v].s.code.Jmp? && g[w].s.code.Jmp? && Taken(g[v].s, tv) == (e < |g|)
             && OperandNumber(ns.table, g[v].s, ns.val[v], ns.oval[v]) &&
               OperandNumber(ns.table, g[w].s, ns.val[w], ns.oval[w])
             && Meaning(ns.table, ns.val[v][A_ATOM], p) == Some(tv.a) &&
               Meaning(ns.table, ns.val[w][A_ATOM], p) == Some(tw.a)
             && Meaning(ns.table, ns.oval[v], p) == Some(Operand(g[v].s.code.src, g[v].s.k, tv))
             && Meaning(ns.table, ns.oval[w], p) == Some(Operand(g[w].s.code.src, g[w].s.k, tw))
    requires FoldSense(g, ns, w, e).Some?
    ensures FoldSense(g, ns, w, e) == Some(Taken(g[w].s, tw))
  {
    hide Meaning, And;
  }

  // ------------------------------------------------------------ packets and runs

  /** The graphs differ in where branches lead only. */
  ghost predicate SameTests(g: Graph, g': Graph)
  {
    |g'| == |g| && forall b :: 0 <= b < |g| ==>
      g'[b].stmts == g[b].stmts && g'[b].s == g[b].s && (IsLeaf(g'[b]) <==> IsLeaf(g[b]))
  }

  function WayIn(g: Graph, b: nat, p: Packet): Way
    requires WellFormed(g) && b < |g|
  {
    WayOf(g[b], BLANK_STATE, p)
  }

  lemma SameWays(g: Graph, g': Graph, b: nat, p: Packet)
    requires WellFormed(g) && WellFormed(g') && SameTests(g, g') && b < |g|
    ensures WayIn(g', b, p) == WayIn(g, b, p)
  {
    SameWay(g'[b], g[b], BLANK_STATE, p);
  }

  lemma GoesOn(g: Graph, b: nat, p: Packet)
    requires WellFormed(g) && b < |g| && WayIn(g, b, p).Goes?
    ensures !IsLeaf(g[b]) && ExecList(g[b].stmts, BLANK_STATE, p).Next?
    ensures WayIn(g, b, p) == Goes(Taken(g[b].s, ExecList(g[b].stmts, BLANK_STATE, p).st))
  {
  }

  /** The new graph returns what the old one returns, where that returns, and comes by no block the old one does not
      come by. */
  ghost predicate Shortcut(g: Graph, g': Graph, rank: seq<nat>, root: nat)
  {
    && Ranked(g, rank) && Ranked(g', rank) && SameTests(g, g') && root < |g|
    && forall p {:trigger ResultOf(g', rank, root, p)} :: ResultOf(g, rank, root, p).Return? ==>
         ResultOf(g', rank, root, p) == ResultOf(g, rank, root, p) && ComesBy(g, g', rank, root, p)
  }

  ghost predicate ComesBy(g: Graph, g': Graph, rank: seq<nat>, n: nat, p: Packet)
    requires Ranked(g, rank) && Ranked(g', rank) && n < |g| == |g'|
  {
    forall b :: Meets(g', rank, n, b, p) ==> Meets(g, rank, n, b, p)
  }

  /** On this packet, a run that takes the branch goes through the child to `to`. */
  ghost predicate Leads(g: Graph, q: nat, sense: bool, to: int, p: Packet)
    requires WellFormed(g) && q < |g| && !IsLeaf(g[q])
  {
    WayIn(g, q, p) == Goes(sense) && WayIn(g, Successor(g[q], sense), p).Goes? ==>
      Successor(g[Successor(g[q], sense)], WayIn(g, Successor(g[q], sense), p).taken) == to
  }

  lemma {:induction false} MoveRuns(g: Graph, rank: seq<nat>, q: nat, sense: bool, to: nat, n: nat, p: Packet)
    requires Ranked(g, rank) && q < |g| && !IsLeaf(g[q]) && !IsLeaf(g[Successor(g[q], sense)])
    requires to < |g| && rank[to] < rank[q] && n < |g|
    requires Ranked(g[q := SetBranch(g[q], sense, to)], rank) && ResultOf(g, rank, n, p).Return?
    requires Meets(g, rank, n, q, p) ==> Leads(g, q, sense, to, p)
    ensures var g' := g[q := SetBranch(g[q], sense, to)];
            ResultOf(g', rank, n, p) == ResultOf(g, rank, n, p) && ComesBy(g, g', rank, n, p)
    decreases rank[n]
  {
    hide WayOf, Ranked;
    var g' := g[q := SetBranch(g[q], sense, to)];
    MovedTests(g, rank, q, sense, to);
    SameWays(g, g', n, p);
    match WayIn(g, n, p)
    case Stops(_) =>
    case Goes(b) =>
      GoesOn(g, n, p);
      RankedNext(g, rank, n, b);
      var next := Successor(g[n], b);
      if n == q && b == sense {
        assert Meets(g, rank, n, q, p);
        ReturnsGoOn(g, rank, next, p);
        BelowMisses(g, rank, to, q, p);
        MoveRuns(g, rank, q, sense, to, to, p);
        forall c | Meets(g', rank, n, c, p) ensures Meets(g, rank, n, c, p) {
          MeetsOn(g', rank, n, c, p);
          MeetsOn(g, rank, n, c, p);
          MeetsOn(g, rank, next, c, p);
        }
      } else {
        MoveRuns(g, rank, q, sense, to, next, p);
        forall c | Meets(g', rank, n, c, p) ensures Meets(g, rank, n, c, p) {
          MeetsOn(g', rank, n, c, p);
          MeetsOn(g, rank, n, c, p);
        }
      }
  }

  lemma MeetsOn(g: Graph, rank: seq<nat>, n: nat, c: nat, p: Packet)
    requires Ranked(g, rank) && n < |g| && WayIn(g, n, p).Goes?
    ensures var next := Successor(g[n], WayIn(g, n, p).taken);
            0 <= next < |g| && (Meets(g, rank, n, c, p) <==> c == n || Meets(g, rank, next, c, p))
  {
    GoesOn(g, n, p);
  }

  lemma RankedNext(g: Graph, rank: seq<nat>, n: nat, b: bool)
    requires Ranked(g, rank) && n < |g| && !IsLeaf(g[n])
    ensures 0 <= Successor(g[n], b) < |g| && rank[Successor(g[n], b)] < rank[n]
  {
  }

  lemma ReturnsGoOn(g: Graph, rank: seq<nat>, n: nat, p: Packet)
    requires Ranked(g, rank) && n < |g| && ResultOf(g, rank, n, p).Return? && !IsLeaf(g[n])
    ensures WayIn(g, n, p).Goes?
  {
  }

  lemma MovedTests(g: Graph, rank: seq<nat>, q: nat, sense: bool, to: nat)
    requires Ranked(g, rank) && q < |g| && !IsLeaf(g[q]) && to < |g|
    ensures WellFormed(g) && |rank| == |g| && SameTests(g, g[q := SetBranch(g[q], sense, to)])
    ensures Ranked(g[q := SetBranch(g[q], sense, to)], rank) ==> WellFormed(g[q := SetBranch(g[q], sense, to)])
  {
  }

  /** The edges a packet's run takes from n to q and on. */
  lemma {:induction false} MeetsPath(g: Graph, rank: seq<nat>, n: nat, q: nat, p: Packet) returns (es: seq<nat>)
    requires Ranked(g, rank) && n < |g| && q < |g| && Meets(g, rank, n, q, p) && WayIn(g, q, p).Goes?
    ensures EdgePath(g, n, es) && es[|es| - 1] == EdgeId(|g|, q, WayIn(g, q, p).taken)
    ensures forall i :: 0 <= i < |es| ==> es[i] < 2 * |g| && WayIn(g, Owner(|g|, es[i]), p) == Goes(es[i] < |g|)
    decreases rank[n]
  {
    hide WayOf;
    var e := EdgeId(|g|, n, WayIn(g, n, p).taken);
    if n == q {
      es := [e];
    } else {
      GoesOn(g, n, p);
      var next := Successor(g[n], WayIn(g, n, p).taken);
      var rest := MeetsPath(g, rank, next, q, p);
      es := [e] + rest;
      forall i | 0 < i < |es| ensures Follows(g, es[i - 1], es[i]) {
        if i > 1 { assert es[i - 1] == rest[i - 2] && es[i] == rest[i - 1]; }
      }
    }
  }

  /** A run that takes the edge has taken every edge that dominates it. */
  lemma DominatorTaken(g: Graph, rank: seq<nat>, root: nat, q: nat, sense: bool, e: nat, p: Packet)
    requires Ranked(g, rank) && root < |g| && q < |g| && Meets(g, rank, root, q, p) && WayIn(g, q, p) == Goes(sense)
    requires EdgeDominates(g, root, e, EdgeId(|g|, q, sense))
    ensures e < 2 * |g| && Owner(|g|, e) in Below(g, rank, root) && Owner(|g|, e) < |g|
    ensures WayIn(g, Owner(|g|, e), p) == Goes(e < |g|)
  {
    hide WayOf, Below, Follows;
    var es := MeetsPath(g, rank, root, q, p);
    assert e in es;
    var i :| 0 <= i < |es| && es[i] == e;
    EdgesStayBelow(g, rank, root, es, i);
  }

  /** What fold_edge proposes is where the packet goes, with the numbers and edge dominators of the graph g0 as it was
      before any edge was moved. */
  lemma FoldLeads(g0: Graph, g: Graph, rank: seq<nat>, root: nat, ns: Numbers, inEdges: seq<seq<nat>>, from: seq<nat>,
                  q: nat, sense: bool, child: nat, e: nat, p: Packet)
    requires Ranked(g0, rank) && Ranked(g, rank) && root < |g0| && SameTests(g0, g) && ContainedGraph(g0)
    requires |g| == |ns.val| == |ns.oval| && ValsOk(ns.val)
    requires NumbersOk(g0, ns, false, inEdges, from, Below(g0, rank, root))
    requires q < |g| && !IsLeaf(g[q]) && child == Successor(g[q], sense) && child < |g|
    requires child in Below(g0, rank, root) && e < 2 * |g| && FoldSense(g, ns, child, e).Some?
    requires EdgeDominates(g0, root, e, EdgeId(|g0|, q, sense)) && Meets(g0, rank, root, q, p)
    ensures Leads(g, q, sense, FoldEdge(g, ns, child, e), p)
  {
    hide WayOf, Below, EdgeDominates, NumbersOk, ContainedGraph, Meets, FoldSense;
    SameWays(g0, g, q, p);
    SameWays(g0, g, child, p);
    SameSense(g0, g, ns, inEdges, from, Below(g0, rank, root), child, e);
    if WayIn(g, q, p) == Goes(sense) && WayIn(g, child, p).Goes? {
      DominatorTaken(g0, rank, root, q, sense, e, p);
      FoldSaysWay(g0, ns, inEdges, from, Below(g0, rank, root), child, e, p);
    }
  }

  lemma SameSense(g0: Graph, g: Graph, ns: Numbers, inEdges: seq<seq<nat>>, from: seq<nat>, blocks: set<nat>,
                  child: nat, e: nat)
    requires SameTests(g0, g) && NumbersOk(g0, ns, false, inEdges, from, blocks) && child < |g| && e < 2 * |g|
    ensures |g| == |ns.val| == |ns.oval| && ValsOk(ns.val) && FoldSense(g, ns, child, e) == FoldSense(g0, ns, child, e)
  {
    hide Distinct, Ordered, AllInRange, Numbered;
  }

  /** fold_edge is right of any two blocks with such numbers, if the packet leaves the first by the edge. */
  lemma FoldSaysWay(g: Graph, ns: Numbers, inEdges: seq<seq<nat>>, from: seq<nat>, blocks: set<nat>, child: nat, e: nat,
                    p: Packet)
    requires WellFormed(g) && NumbersOk(g, ns, false, inEdges, from, blocks) && ContainedGraph(g)
    requires e < 2 * |g| && Owner(|g|, e) in blocks && child in blocks && child < |g|
    requires WayIn(g, Owner(|g|, e), p) == Goes(e < |g|) && WayIn(g, child, p).Goes? && FoldSense(g, ns, child, e).Some?
    ensures FoldSense(g, ns, child, e) == Some(WayIn(g, child, p).taken)
  {
    hide WayOf, Distinct, Ordered, AllInRange, ContainedNode, Taken, ExecList, Meaning, OperandNumber, FoldSense,
         Numbered;
    var v := Owner(|g|, e);
    GoesOn(g, v, p);
    GoesOn(g, child, p);
    var tv, tw := ExecList(g[v].stmts, BLANK_STATE, p).st, ExecList(g[child].stmts, BLANK_STATE, p).st;
    assert ContainedNode(g[v]) && ContainedNode(g[child]);
    BranchMeans(g, ns, inEdges[v], from[v], v, BLANK_STATE, tv, p);
    BranchMeans(g, ns, inEdges[child], from[child], child, BLANK_STATE, tw, p);
    BranchNumbered(g, ns, false, inEdges[v], from[v], v);
    BranchNumbered(g, ns, false, inEdges[child], from[child], child);
    PacketPredicts(g, ns, e, child, tv, tw, p);
  }

  /** Moving the edge to where every run of g0 goes that comes by q. */
  lemma Promote(g0: Graph, g: Graph, rank: seq<nat>, root: nat, q: nat, sense: bool, to: nat)
    requires Shortcut(g0, g, rank, root) && q < |g| && !IsLeaf(g[q]) && !IsLeaf(g[Successor(g[q], sense)])
    requires to == g[Successor(g[q], sense)].jt || to == g[Successor(g[q], sense)].jf
    requires forall p :: Meets(g0, rank, root, q, p) ==> Leads(g, q, sense, to, p)
    ensures Shortcut(g0, g[q := SetBranch(g[q], sense, to)], rank, root)
  {
    hide ResultOf, Meets, Leads;
    var g' := g[q := SetBranch(g[q], sense, to)];
    var child := Successor(g[q], sense);
    RankedNext(g, rank, q, sense);
    RankedNext(g, rank, child, to == g[child].jt);
    MovedIsRanked(g, rank, q, sense, to);
    forall p | ResultOf(g0, rank, root, p).Return?
      ensures ResultOf(g', rank, root, p) == ResultOf(g0, rank, root, p) && ComesBy(g0, g', rank, root, p)
    {
      assert ResultOf(g, rank, root, p) == ResultOf(g0, rank, root, p);
      MoveRuns(g, rank, q, sense, to, root, p);
    }
  }

  // ------------------------------------------------------------------ the pass

  /** What the pass works with: numbers, edge dominators and live registers of the graph g0 as it found it. */
  ghost predicate Found(g0: Graph, rank: seq<nat>, root: nat, ns: Numbers, inEdges: seq<seq<nat>>, from: seq<nat>,
                        edom: seq<set<nat>>, outUse: seq<set<nat>>)
  {
    && Ranked(g0, rank) && root < |g0| == |outUse| && ContainedGraph(g0) && |edom| == 2 * |g0|
    && NumbersOk(g0, ns, false, inEdges, from, Below(g0, rank, root))
    && EdgeDominatorsExact(g0, root, EdgesOf(|g0|, Below(g0, rank, root)), edom)
  }

  /** How far the pass has got: the graph is a shortcut of g0 and its reachable branches stay among the blocks of g0. */
  ghost predicate Progress(g0: Graph, g: Graph, rank: seq<nat>, root: nat)
  {
    Shortcut(g0, g, rank, root) && ClosedUnder(g, Below(g0, rank, root))
  }

  lemma ProgressFacts(g0: Graph, g: Graph, rank: seq<nat>, root: nat, q: nat, sense: bool)
    requires Progress(g0, g, rank, root) && q in Below(g0, rank, root)
    ensures Ranked(g0, rank) && root < |g0| == |g| && q < |g| && Ranked(g, rank) && WellFormed(g)
    ensures |rank| == |g|
    ensures !IsLeaf(g[q]) ==> var child := Successor(g[q], sense); 0 <= child < |g| && child in Below(g0, rank, root)
    ensures (IsLeaf(g[q]) <==> IsLeaf(g0[q]))
  {
    hide Below;
  }

  lemma ProgressMoves(g0: Graph, g: Graph, rank: seq<nat>, root: nat, q: nat, sense: bool, to: nat)
    requires Progress(g0, g, rank, root) && q in Below(g0, rank, root) && q < |g| && !IsLeaf(g[q])
    requires 0 <= Successor(g[q], sense) < |g| && !IsLeaf(g[Successor(g[q], sense)])
    requires to == g[Successor(g[q], sense)].jt || to == g[Successor(g[q], sense)].jf
    requires forall p :: Meets(g0, rank, root, q, p) ==> Leads(g, q, sense, to, p)
    ensures Progress(g0, g[q := SetBranch(g[q], sense, to)], rank, root)
  {
    hide Below, Shortcut, Meets, Leads;
    ProgressFacts(g0, g, rank, root, q, sense);
    var child := Successor(g[q], sense);
    assert child in Below(g0, rank, root);
    Promote(g0, g, rank, root, q, sense, to);
    var g' := g[q := SetBranch(g[q], sense, to)];
    forall b | b in Below(g0, rank, root)
      ensures b < |g'| && (!IsLeaf(g'[b]) ==> g'[b].jt in Below(g0, rank, root) && g'[b].jf in Below(g0, rank, root))
    {
      assert b < |g|;
    }
  }

  lemma FoldMoves(g0: Graph, g: Graph, rank: seq<nat>, root: nat, ns: Numbers, inEdges: seq<seq<nat>>, from: seq<nat>,
                  edom: seq<set<nat>>, outUse: seq<set<nat>>, q: nat, sense: bool, e: nat)
    requires Found(g0, rank, root, ns, inEdges, from, edom, outUse) && Progress(g0, g, rank, root)
    requires q in Below(g0, rank, root) && q < |g| == |ns.val| == |ns.oval| && ValsOk(ns.val) && !IsLeaf(g[q])
    requires 0 <= Successor(g[q], sense) < |g| && !IsLeaf(g[Successor(g[q], sense)])
    requires e < 2 * |g| && EdgeId(|g|, q, sense) < |edom| && e in edom[EdgeId(|g|, q, sense)]
    requires FoldSense(g, ns, Successor(g[q], sense), e).Some?
    ensures var to := FoldEdge(g, ns, Successor(g[q], sense), e);
            0 <= to < |g| && Progress(g0, g[q := SetBranch(g[q], sense, to)], rank, root)
  {
    hide Below, Shortcut, Meets, Leads, NumbersOk, EdgeDominates, ContainedNode, FoldSense;
    ProgressFacts(g0, g, rank, root, q, sense);
    var child := Successor(g[q], sense);
    RankedNext(g, rank, child, FoldSense(g, ns, child, e).value);
    var to := FoldEdge(g, ns, child, e);
    assert EdgeOf(|g0|, Below(g0, rank, root), EdgeId(|g0|, q, sense));
    forall p | Meets(g0, rank, root, q, p) ensures Leads(g, q, sense, to, p) {
      ShortcutTests(g0, g, rank, root);
      FoldLeads(g0, g, rank, root, ns, inEdges, from, q, sense, child, e, p);
    }
    ProgressMoves(g0, g, rank, root, q, sense, to);
  }

  lemma ShortcutTests(g: Graph, g': Graph, rank: seq<nat>, root: nat)
    requires Shortcut(g, g', rank, root)
    ensures SameTests(g, g') && Ranked(g, rank) && Ranked(g', rank)
  {
  }

  lemma CommonMoves(g0: Graph, g: Graph, rank: seq<nat>, root: nat, q: nat, sense: bool)
    requires Progress(g0, g, rank, root) && q in Below(g0, rank, root) && q < |g| && !IsLeaf(g[q])
    requires 0 <= Successor(g[q], sense) < |g| && !IsLeaf(g[Successor(g[q], sense)])
    requires g[Successor(g[q], sense)].jt == g[Successor(g[q], sense)].jf
    ensures var to := g[Successor(g[q], sense)].jt;
            0 <= to < |g| && Progress(g0, g[q := SetBranch(g[q], sense, to)], rank, root)
  {
    hide Below, Shortcut, Meets;
    ProgressFacts(g0, g, rank, root, q, sense);
    RankedNext(g, rank, Successor(g[q], sense), true);
    ProgressMoves(g0, g, rank, root, q, sense, g[Successor(g[q], sense)].jt);
  }

  /** No edge below k that dominates the edge predicts where it could be moved on to without a conflict. */
  ghost predicate Settled(g: Graph, q: nat, sense: bool, ns: Numbers, dominators: set<nat>, outUse: seq<set<nat>>,
                          k: nat)
    requires WellFormed(g) && q < |g| == |ns.val| == |ns.oval| == |outUse| && ValsOk(ns.val) && !IsLeaf(g[q])
  {
    var child := Successor(g[q], sense);
    !IsLeaf(g[child]) ==> forall e :: 0 <= e < k && e < 2 * |g| && e in dominators ==>
      Blocked(g, q, child, ns, outUse, e)
  }

  ghost predicate Blocked(g: Graph, q: nat, child: nat, ns: Numbers, outUse: seq<set<nat>>, e: nat)
    requires WellFormed(g) && q < |g| == |ns.val| == |ns.oval| == |outUse| && ValsOk(ns.val) && child < |g|
    requires e < 2 * |g|
  {
    var to := FoldEdge(g, ns, child, e);
    to == NIL || to >= |g| || to < 0 || UseConflict(ns, outUse, q, to)
  }

  /** The edge leads to a block that goes the same way whatever its test says, and could be moved past it. */
  ghost predicate CouldSkip(g: Graph, q: nat, sense: bool, ns: Numbers, outUse: seq<set<nat>>)
    requires WellFormed(g) && q < |g| == |ns.val| == |outUse| && ValsOk(ns.val) && !IsLeaf(g[q])
  {
    var child := Successor(g[q], sense);
    && 0 <= child < |g| && !IsLeaf(g[child]) && g[child].jt == g[child].jf
    && 0 <= g[child].jt < |g| && !UseConflict(ns, outUse, q, g[child].jt)
  }

  /** What opt_j makes of an edge: only the edge has changed, it has been moved past a test that does not matter, and it
      cannot be moved on. */
  ghost predicate EdgeMoved(g1: Graph, g: Graph, q: nat, sense: bool, ns: Numbers, edom: seq<set<nat>>,
                            outUse: seq<set<nat>>)
  {
    && WellFormed(g1) && WellFormed(g) && q < |g| == |g1| == |ns.val| == |ns.oval| == |outUse| && ValsOk(ns.val)
    && |edom| == 2 * |g| && !IsLeaf(g1[q]) && !IsLeaf(g[q])
    && g == g1[q := SetBranch(g1[q], sense, Successor(g[q], sense))]
    && Settled(g, q, sense, ns, edom[EdgeId(|g|, q, sense)], outUse, 2 * |g|)
    && (CouldSkip(g1, q, sense, ns, outUse) ==> Successor(g[q], sense) != Successor(g1[q], sense))
  }

  /** opt_j: one edge, moved on until no edge that dominates it predicts the next branch. */
  method OptJ(g1: Graph, q: nat, sense: bool, ns: Numbers, edom: seq<set<nat>>, outUse: seq<set<nat>>,
              ghost g0: Graph, ghost rank: seq<nat>, ghost root: nat, ghost inEdges: seq<seq<nat>>,
              ghost from: seq<nat>)
    returns (g: Graph)
    requires Found(g0, rank, root, ns, inEdges, from, edom, outUse) && Progress(g0, g1, rank, root)
    requires q in Below(g0, rank, root) && q < |g1| && !IsLeaf(g1[q])
    ensures Progress(g0, g, rank, root) && EdgeMoved(g1, g, q, sense, ns, edom, outUse)
  {
    hide Below, NumbersOk, EdgeDominatorsExact, ContainedGraph, Shortcut, ClosedUnder, FoldSense, Progress,
         UseConflict, Ranked, WellFormed, EdgeMoved, CouldSkip;
    g := g1;
    FoundSized(g0, rank, root, ns, inEdges, from, edom, outUse);
    ProgressFacts(g0, g, rank, root, q, sense);
    var n, f := |g|, EdgeId(|g1|, q, sense);
    ghost var start := Successor(g1[q], sense);
    if IsLeaf(g[Successor(g[q], sense)]) {
      if CouldSkip(g1, q, sense, ns, outUse) { SkipOnly(g1, q, sense, ns, outUse); }
      MovedIs(g1, g, q, sense, ns, edom, outUse);
      return;
    }
    var common := g[Successor(g[q], sense)];
    if common.jt == common.jf {
      CommonMoves(g0, g, rank, root, q, sense);
      RankedNext(g, rank, start, true);
      if !UseConflict(ns, outUse, q, common.jt) {
        g := g[q := SetBranch(g[q], sense, common.jt)];
        ProgressFacts(g0, g, rank, root, q, sense);
      }
    }
    if CouldSkip(g1, q, sense, ns, outUse) { SkipOnly(g1, q, sense, ns, outUse); }
    ghost var skip := CouldSkip(g1, q, sense, ns, outUse);
    assert skip ==> rank[Successor(g[q], sense)] < rank[start];
    var again := true;
    while again
      invariant Progress(g0, g, rank, root) && |g| == n && !IsLeaf(g[q]) && 0 <= Successor(g[q], sense) < n
      invariant g == g1[q := SetBranch(g1[q], sense, Successor(g[q], sense))] && WellFormed(g)
      invariant !again ==> Settled(g, q, sense, ns, edom[f], outUse, 2 * n)
      invariant skip ==> rank[Successor(g[q], sense)] < rank[start]
      decreases rank[Successor(g[q], sense)], again
    {
      again := false;
      var k, child := 0, Successor(g[q], sense);
      while k < 2 * n && !again
        invariant k <= 2 * n && Progress(g0, g, rank, root) && |g| == n && !IsLeaf(g[q])
        invariant 0 <= Successor(g[q], sense) < n
        invariant if again then rank[Successor(g[q], sense)] < rank[child] else Successor(g[q], sense) == child
        invariant g == g1[q := SetBranch(g1[q], sense, Successor(g[q], sense))] && WellFormed(g)
        invariant !again ==> Settled(g, q, sense, ns, edom[f], outUse, k)
        decreases 2 * n - k
      {
        if k in edom[f] && !IsLeaf(g[child]) {
          var to := FoldEdge(g, ns, child, k);
          if to != NIL {
            FoldMoves(g0, g, rank, root, ns, inEdges, from, edom, outUse, q, sense, k);
            ProgressFacts(g0, g, rank, root, q, sense);
            RankedNext(g, rank, child, FoldSense(g, ns, child, k).value);
            if !UseConflict(ns, outUse, q, to) {
              g := g[q := SetBranch(g[q], sense, to)];
              ProgressFacts(g0, g, rank, root, q, sense);
              again := true;
            }
          }
        }
        k := k + 1;
      }
    }
    MovedIs(g1, g, q, sense, ns, edom, outUse);
  }

  lemma SkipOnly(g: Graph, q: nat, sense: bool, ns: Numbers, outUse: seq<set<nat>>)
    requires WellFormed(g) && q < |g| == |ns.val| == |outUse| && ValsOk(ns.val) && !IsLeaf(g[q])
    requires CouldSkip(g, q, sense, ns, outUse)
    ensures var child := Successor(g[q], sense);
            && 0 <= child < |g| && !IsLeaf(g[child]) && g[child].jt == g[child].jf && 0 <= g[child].jt < |g|
            && !UseConflict(ns, outUse, q, g[child].jt)
  {
  }

  lemma MovedIs(g1: Graph, g: Graph, q: nat, sense: bool, ns: Numbers, edom: seq<set<nat>>, outUse: seq<set<nat>>)
    requires WellFormed(g1) && WellFormed(g) && q < |g| == |g1| == |ns.val| == |ns.oval| == |outUse| && ValsOk(ns.val)
    requires |edom| == 2 * |g| && !IsLeaf(g1[q]) && !IsLeaf(g[q])
    requires g == g1[q := SetBranch(g1[q], sense, Successor(g[q], sense))]
    requires Settled(g, q, sense, ns, edom[EdgeId(|g|, q, sense)], outUse, 2 * |g|)
    requires CouldSkip(g1, q, sense, ns, outUse) ==> Successor(g[q], sense) != Successor(g1[q], sense)
    ensures EdgeMoved(g1, g, q, sense, ns, edom, outUse)
  {
  }

  lemma FoundSized(g0: Graph, rank: seq<nat>, root: nat, ns: Numbers, inEdges: seq<seq<nat>>, from: seq<nat>,
                   edom: seq<set<nat>>, outUse: seq<set<nat>>)
    requires Found(g0, rank, root, ns, inEdges, from, edom, outUse)
    ensures |ns.val| == |g0| == |ns.oval| && ValsOk(ns.val) && |outUse| == |g0| && |edom| == 2 * |g0|
  {
  }

  /** Both edges of every branch in the order, each as opt_j leaves it when its turn comes: gs are the graphs between.
      */
  ghost predicate AllMoved(order: seq<nat>, gs: seq<Graph>, ns: Numbers, edom: seq<set<nat>>, outUse: seq<set<nat>>)
  {
    |gs| == |order| + 1 && forall i :: 0 <= i < |order| ==> BothMoved(order[i], gs[i], gs[i + 1], ns, edom, outUse)
  }

  ghost predicate BothMoved(q: nat, g: Graph, g': Graph, ns: Numbers, edom: seq<set<nat>>, outUse: seq<set<nat>>)
  {
    q < |g| &&
    if IsLeaf(g[q]) then g' == g
    else exists g1 :: EdgeMoved(g, g1, q, true, ns, edom, outUse) && EdgeMoved(g1, g', q, false, ns, edom, outUse)
  }

  /** The whole pass, from the analyses of the graph it starts with. */
  ghost predicate BranchesMoved(g0: Graph, g: Graph, rank: seq<nat>, root: nat)
  {
    exists order, gs, ns, edom, outUse, inEdges, from ::
      && Found(g0, rank, root, ns, inEdges, from, edom, outUse) && Elements(order) == Below(g0, rank, root)
      && AllMoved(order, gs, ns, edom, outUse) && gs[0] == g0 && gs[|order|] == g
  }

  /** Both edges of every block, from the lowest level up. */
  method MoveBranches(g0: Graph, root: nat, order: seq<nat>, ns: Numbers, edom: seq<set<nat>>, outUse: seq<set<nat>>,
                      ghost rank: seq<nat>, ghost inEdges: seq<seq<nat>>, ghost from: seq<nat>) returns (g: Graph)
    requires Found(g0, rank, root, ns, inEdges, from, edom, outUse) && Elements(order) == Below(g0, rank, root)
    ensures Progress(g0, g, rank, root) && BranchesMoved(g0, g, rank, root)
  {
    hide Below, Found, Progress, Elements, EdgeMoved;
    g := g0;
    Unmoved(g0, rank, root, ns, inEdges, from, edom, outUse);
    ghost var gs := [g0];
    for i := 0 to |order|
      invariant Progress(g0, g, rank, root) && AllMoved(order[..i], gs, ns, edom, outUse) && gs[0] == g0 && gs[i] == g
    {
      ghost var before := g;
      InElements(order, order[i]);
      ProgressFacts(g0, g, rank, root, order[i], true);
      if !IsLeaf(g[order[i]]) {
        g := OptJ(g, order[i], true, ns, edom, outUse, g0, rank, root, inEdges, from);
        ProgressFacts(g0, g, rank, root, order[i], false);
        StillBranch(before, g, order[i], true, ns, edom, outUse);
        g := OptJ(g, order[i], false, ns, edom, outUse, g0, rank, root, inEdges, from);
      }
      gs := gs + [g];
    }
    assert order[..|order|] == order;
  }

  lemma StillBranch(g1: Graph, g: Graph, q: nat, sense: bool, ns: Numbers, edom: seq<set<nat>>, outUse: seq<set<nat>>)
    requires EdgeMoved(g1, g, q, sense, ns, edom, outUse)
    ensures q < |g| && !IsLeaf(g[q])
  {
  }

  lemma Unmoved(g0: Graph, rank: seq<nat>, root: nat, ns: Numbers, inEdges: seq<seq<nat>>, from: seq<nat>,
                edom: seq<set<nat>>, outUse: seq<set<nat>>)
    requires Found(g0, rank, root, ns, inEdges, from, edom, outUse)
    ensures Progress(g0, g0, rank, root)
  {
    hide Below, NumbersOk, EdgeDominatorsExact, ContainedGraph, ResultOf;
    forall b | b in Below(g0, rank, root)
      ensures b < |g0| && (!IsLeaf(g0[b]) ==> g0[b].jt in Below(g0, rank, root) && g0[b].jf in Below(g0, rank, root))
    {
      BelowBasics(g0, rank, root, b);
      if !IsLeaf(g0[b]) {
        LinkedBelow(g0, rank, root, b, g0[b].jt);
        LinkedBelow(g0, rank, root, b, g0[b].jf);
      }
    }
  }
}
