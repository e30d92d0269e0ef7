/**
 * The optimizer's passes in sequence, and the compiler with them: a filter is
 * compiled to a graph, branches are moved, tests pulled up, statements rewritten by
 * their values, dead stores removed, equal blocks merged, and the rest emitted.
 */
module Pipeline {
  import opened Words
  import opened Machine
  import opened FlowGraph
  import opened Layout
  import opened Levels
  import opened Dominators
  import opened Liveness
  import opened ValueNumbers
  import opened ValueRewrite
  import opened BlockValues
  import opened GraphEdits
  import opened SelfContained
  import opened Failures
  import opened Analyses
  import M = BranchMoves
  import P = FieldPulls
  import U = Pullup
  import D = DeadStores
  import I = Intern
  import G = CodeGen
  import C = Compiler
  import T = LinkTests
  import R = Relation
  import Y = Arith
  import E = Emitter
  import A = Acceptance
  import V = Validator

  // ------------------------------------------------------- what the generator made

  /** Statements that may go into a program: legal, and with scratch indices in range. */
  predicate LegalStmts(ss: seq<Stmt>) { forall i :: 0 <= i < |ss| ==> A.Legal(ss[i]) }

  lemma {:induction false} TestsAreContained(bs: G.Store, e: G.Expr, t: int, f: int, b: nat)
    requires G.Good(e) && G.Stored(e, |bs|) && G.Wired(bs, e, t, f) && b in G.Tests(e)
    requires ContainedFilter(G.Erase(e)) && C.LegalFilter(G.Erase(e))
    ensures Contained(bs[b].stmts) && LegalStmts(bs[b].stmts) && bs[b].s.code.Jmp?
    ensures BranchUse(bs[b].s) <= Defs(bs[b].stmts)
    ensures T.LoadsOnly(G.Erase(e)) ==> T.LoadsOnly(G.Atom(bs[b].stmts, bs[b].s))
  {
    hide Contained, Defs, BranchUse, A.Legal;
    match e
    case Test(_, _, _) =>
    case And(x, y) =>
      if b in G.Tests(x) { TestsAreContained(bs, x, G.First(y), f, b); } else { TestsAreContained(bs, y, t, f, b); }
    case Or(x, y) =>
      if b in G.Tests(x) { TestsAreContained(bs, x, t, G.First(y), b); } else { TestsAreContained(bs, y, t, f, b); }
    case Not(x) => TestsAreContained(bs, x, f, t, b);
  }

  lemma FinishedContained(bs: G.Store, e: G.Expr, snaplen: Word)
    requires C.Finished(bs, e, snaplen) && ContainedFilter(G.Erase(e)) && C.LegalFilter(G.Erase(e))
    ensures ContainedGraph(C.ToGraph(bs)) && forall b :: 0 <= b < |bs| ==> LegalStmts(C.ToGraph(bs)[b].stmts)
    ensures T.LoadsOnly(G.Erase(e)) ==> P.FieldGraph(C.ToGraph(bs))
  {
    hide G.Wired, A.Legal, Contained, Defs, BranchUse, ContainedFilter, C.LegalFilter;
    var g := C.ToGraph(bs);
    forall b | 0 <= b < |bs|
      ensures ContainedNode(g[b]) && LegalStmts(g[b].stmts) && (T.LoadsOnly(G.Erase(e)) ==> P.FieldNode(g[b]))
    {
      if b < |bs| - 2 {
        TestsAreContained(bs, e, |bs| - 2, |bs| - 1, b);
        C.WiredGoesRight(bs, e, |bs| - 2, |bs| - 1, b);
      } else {
        EmptyContained();
      }
    }
  }

  lemma EmptyContained()
    ensures Contained([])
  {
  }

  /** Filters over link-layer fields set all they read. */
  lemma {:induction false} LoadsAreContained(f: G.Filter)
    requires T.LoadsOnly(f)
    ensures ContainedFilter(f)
  {
    match f
    case Atom(ss, s) => P.FieldIsContained(Node(ss, s, 0, 0));
    case Both(a, b) => LoadsAreContained(a); LoadsAreContained(b);
    case Either(a, b) => LoadsAreContained(a); LoadsAreContained(b);
    case Negated(a) => LoadsAreContained(a);
  }

  // ---------------------------------------------------------------- same shape

  /** The graphs differ in statements only. */
  ghost predicate SameShape(g: Graph, g': Graph)
  {
    |g'| == |g| && forall b :: 0 <= b < |g| ==> g'[b] == g[b].(stmts := g'[b].stmts)
  }

  lemma {:induction false} ShapePlaced(g: Graph, g': Graph, o: seq<nat>)
    requires SameShape(g, g') && Placed(g, o)
    ensures Placed(g', o)
    decreases |o|
  {
    if o != [] { ShapePlaced(g, g', o[..|o| - 1]); }
  }

  /** As many statements in every block, none of them a jump. */
  ghost predicate SameSize(g: Graph, g': Graph)
  {
    |g'| == |g| && forall b :: 0 <= b < |g| ==> |g'[b].stmts| == |g[b].stmts| && StraightStmts(g'[b].stmts)
  }

  predicate StraightStmts(ss: seq<Stmt>) { forall i :: 0 <= i < |ss| ==> Straight(ss[i].code) && InRange(ss[i]) }

  lemma SizeTrans(g0: Graph, g1: Graph, g2: Graph)
    requires SameSize(g0, g1) && SameSize(g1, g2)
    ensures SameSize(g0, g2)
  {
  }

  lemma {:induction false} RoomStays(g: Graph, g': Graph, n: nat)
    requires SameSize(g, g') && n <= |g|
    ensures C.SumRoom(g', n) == C.SumRoom(g, n)
  {
    if n > 0 { RoomStays(g, g', n - 1); }
  }

  lemma SizeInRange(g: Graph, g': Graph)
    requires SameSize(g, g')
    ensures GraphInRange(g')
  {
    forall b | 0 <= b < |g'| ensures AllInRange(g'[b].stmts) { assert StraightStmts(g'[b].stmts); }
  }

  lemma ContainedSize(g: Graph, g': Graph)
    requires ContainedGraph(g) && M.SameTests(g, g')
    ensures SameSize(g, g') && ContainedGraph(g')
  {
    forall b | 0 <= b < |g| ensures ContainedNode(g'[b]) && StraightStmts(g'[b].stmts) { assert ContainedNode(g[b]); }
  }

  lemma ContainedInRange(g: Graph)
    requires ContainedGraph(g)
    ensures GraphInRange(g)
  {
    forall b | 0 <= b < |g| ensures AllInRange(g[b].stmts) { assert ContainedNode(g[b]); }
  }

  // ------------------------------------------------------------ moving branches

  /** opt_j on every edge, from what the analyses find. */
  method MoveEdges(g: Graph, root: nat, ghost rank: seq<nat>) returns (g': Graph, order: seq<nat>)
    requires Ranked(g, rank) && root < |g| && ContainedGraph(g)
    ensures Keeps(g, rank, g', rank, root) && M.SameTests(g, g') && M.BranchesMoved(g, g', rank, root)
    ensures Elements(order) == Below(g, rank, root)
  {
    hide Below, Placed, Elements, Live, NumbersOk, InEdgesOf, DominatorsExact, NoRepeats, EdgeDominatorsExact, Keeps,
         ContainedGraph, GraphInRange, M.Progress, M.BranchesMoved;
    ContainedInRange(g);
    var dom, inUse, outUse, inEdges, ns; ghost var from;
    order, dom, inUse, outUse, inEdges, ns, from := Analyse(g, root, rank);
    var edom := FindEdom(g, root, order, rank);
    LiveSized(g, inUse, outUse, order);
    g' := M.MoveBranches(g, root, order, ns, edom, outUse, rank, inEdges, from);
    ShortcutKeeps(g, g', rank, root);
  }

  lemma LiveSized(g: Graph, inUse: seq<set<nat>>, outUse: seq<set<nat>>, order: seq<nat>)
    requires WellFormed(g) && Live(g, inUse, outUse, order)
    ensures |inUse| == |g| == |outUse|
  {
  }

  lemma ShortcutKeeps(g: Graph, g': Graph, rank: seq<nat>, root: nat)
    requires M.Progress(g, g', rank, root) && ContainedGraph(g)
    ensures Keeps(g, rank, g', rank, root) && M.SameTests(g, g')
  {
    hide RunGraph, U.ResultOf, Below, ContainedNode, U.Meets;
    ContainedSize(g, g');
    forall st: State, p: Packet | RunGraph(g, rank, root, st, p).Return?
      ensures RunGraph(g', rank, root, st, p) == RunGraph(g, rank, root, st, p)
    {
      PacketRuns(g, rank, root, st, p);
      PacketRuns(g', rank, root, st, p);
    }
  }

  lemma PacketRuns(g: Graph, rank: seq<nat>, root: nat, st: State, p: Packet)
    requires Ranked(g, rank) && root < |g| && ContainedGraph(g)
    ensures RunGraph(g, rank, root, st, p) == U.ResultOf(g, rank, root, p)
  {
    hide RunGraph, U.ResultOf, Below, ContainedGraph, U.AllFixed, U.ClosedUnder;
    P.ReachesAll(g, rank, root);
    forall c | c in Below(g, rank, root) ensures c < |g| { BelowBasics(g, rank, root, c); }
    P.AllAreFixed(g, Below(g, rank, root), p);
    U.FixedRuns(g, rank, Below(g, rank, root), root, st, p);
  }

  // -------------------------------------------------------- rewriting by values

  /** Rewriting leaves as many statements, none of them a jump. */
  lemma RewrittenStmt(v: Values, s: Stmt)
    requires |v.val| == N_ATOMS && InRange(s) && Straight(s.code)
    ensures var r := OptStmt(v, s, true); r.Becomes? ==> |r.v.val| == N_ATOMS && Straight(r.s.code) && InRange(r.s)
  {
    hide Find, Apply;
  }

  lemma {:induction false} RewrittenStmts(v: Values, ss: seq<Stmt>)
    requires |v.val| == N_ATOMS && AllInRange(ss) && StraightStmts(ss)
    ensures var r := OptList(v, ss, true); r.Block? ==> |r.ss| == |ss| && StraightStmts(r.ss)
    decreases |ss|
  {
    hide OptStmt, InRange, Straight;
    if ss != [] {
      RewrittenStmt(v, ss[0]);
      match OptStmt(v, ss[0], true)
      case Failed(_) =>
      case Becomes(v1, _) => RewrittenStmts(v1, ss[1..]);
    }
  }

  /** Every reachable block has the statements opt_blk leaves, from the numbers of the blocks above it. */
  ghost predicate ValuesUsed(g: Graph, g': Graph, rank: seq<nat>, root: nat)
    requires Ranked(g, rank) && root < |g|
  {
    exists ns, inEdges, from ::
      && NumbersOk(g, ns, true, inEdges, from, Below(g, rank, root)) && InEdgesOf(g, inEdges, Below(g, rank, root))
      && Altered(g, g', ns, true, inEdges, from, Below(g, rank, root))
  }

  /** Legal statements stay legal, except where they divide by 0 whenever they are reached. */
  ghost predicate KeepsLegal(g: Graph, g': Graph)
  {
    |g'| == |g| && forall b :: 0 <= b < |g| ==> StaysLegal(g[b].stmts, g'[b].stmts)
  }

  /** opt_blk with alter set, on every block from the root's level down. It gives up only on a statement that divides by
      0, or shifts by more than 31, whenever it is reached. */
  method RewriteByValues(g: Graph, root: nat, down: seq<nat>, ghost rank: seq<nat>)
    returns (err: Option<OptError>, g': Graph)
    requires Ranked(g, rank) && root < |g| && Placed(g, down) && Elements(down) == Below(g, rank, root)
    requires ContainedGraph(g)
    ensures err.Some? ==> CanFail(g, err.value)
    ensures err == None ==> Keeps(g, rank, g', rank, root) && SameShape(g, g') && SameSize(g, g')
    ensures err == None ==> ValuesUsed(g, g', rank, root) && KeepsLegal(g, g')
  {
    hide Below, Placed, Elements, OptList, NumbersOk, Altered, Keeps, SameShape, SameSize, AllKnown, ContainedGraph,
         StopsAt, CanFail, GraphInRange, KeepsLegal, InEdgesOf;
    ContainedInRange(g);
    var inEdges := FindInedges(g, root, down, rank);
    var ns; ghost var from;
    err, ns, g', from := OptBlks(g, root, down, inEdges, true, rank);
    if err == None {
      AlteredSize(g, rank, root, g', ns, inEdges, from);
      AlteredKeeps(g, rank, root, g', ns, inEdges, from);
      AlteredLegal(g, rank, root, g', ns, inEdges, from);
    } else {
      ghost var b :| b in Below(g, rank, root) && b < |g| && StopsAt(g, ns, true, inEdges[b], b, err.value);
      StoppedFaults(g, ns, inEdges[b], b, err.value);
    }
  }

  lemma StoppedFaults(g: Graph, ns: Numbers, es: seq<nat>, b: nat, e: OptError)
    requires ContainedGraph(g) && StopsAt(g, ns, true, es, b, e)
    ensures CanFail(g, e)
  {
    hide OptList, Shaped, Distinct, Entry, Contained, AlwaysFaults;
    assert ContainedNode(g[b]);
    var v := EntryOf(ns, es, |ns.table|);
    assert v.table == ns.table;
    FailedBlockFaults(v, g[b].stmts, true);
    assert AlwaysFaults(g[b].stmts, FailIndex(v, g[b].stmts, true), e);
  }

  lemma AlteredLegal(g: Graph, rank: seq<nat>, root: nat, g': Graph, ns: Numbers, inEdges: seq<seq<nat>>,
                     from: seq<nat>)
    requires Ranked(g, rank) && root < |g| && ContainedGraph(g)
    requires NumbersOk(g, ns, true, inEdges, from, Below(g, rank, root))
    requires Altered(g, g', ns, true, inEdges, from, Below(g, rank, root))
    ensures KeepsLegal(g, g')
  {
    hide Below, Shaped, Distinct, Ordered, OptList, Numbered, Entry, Contained, StaysLegal, AllInRange;
    forall b | 0 <= b < |g| ensures StaysLegal(g[b].stmts, g'[b].stmts) {
      assert ContainedNode(g[b]);
      if b in Below(g, rank, root) {
        assert BlockAltered(g[b], g'[b], ns, true, inEdges[b], from[b]);
        BlockStart(g, ns, true, inEdges[b], from[b], b);
        PrefixDistinct(ns.table, from[b]);
        BlockLegal(EntryOf(ns, inEdges[b], from[b]), g[b].stmts);
      } else {
        UnchangedLegal(g[b].stmts);
      }
    }
  }

  lemma PrefixDistinct(t: Table, m: nat)
    requires Distinct(t) && m <= |t|
    ensures Distinct(t[..m])
  {
  }

  lemma UnchangedLegal(ss: seq<Stmt>)
    ensures StaysLegal(ss, ss)
  {
  }

  lemma BlockLegal(v: Values, ss: seq<Stmt>)
    requires Shaped(v) && Distinct(v.table) && Contained(ss)
    requires |v.val| == N_ATOMS && OptList(v, ss, true).Block?
    ensures StaysLegal(ss, OptList(v, ss, true).ss)
  {
    hide OptList, Shaped, Distinct, Exposed, AlwaysFaults, A.Legal;
    RewrittenStmts(v, ss);
    var ss' := OptList(v, ss, true).ss;
    forall i | 0 <= i < |ss| && A.Legal(ss[i]) && !A.Legal(ss'[i])
      ensures ss[i].code.Alu? && AlwaysFaults(ss, i, ErrorFor(ss[i].code.op))
    {
      SpoiltBlockFaults(v, ss, i);
    }
  }

  lemma AlteredSize(g: Graph, rank: seq<nat>, root: nat, g': Graph, ns: Numbers, inEdges: seq<seq<nat>>, from: seq<nat>)
    requires Ranked(g, rank) && root < |g| && ContainedGraph(g)
    requires NumbersOk(g, ns, true, inEdges, from, Below(g, rank, root))
    requires Altered(g, g', ns, true, inEdges, from, Below(g, rank, root))
    ensures SameShape(g, g') && SameSize(g, g')
  {
    hide Below, Shaped, Distinct, Ordered, OptList, Numbered, Entry, InRange, Exposed, Defs;
    forall b | 0 <= b < |g| ensures StraightStmts(g'[b].stmts) && |g'[b].stmts| == |g[b].stmts| {
      assert ContainedNode(g[b]);
      if b in Below(g, rank, root) {
        assert BlockAltered(g[b], g'[b], ns, true, inEdges[b], from[b]);
        RewrittenStmts(EntryOf(ns, inEdges[b], from[b]), g[b].stmts);
      }
    }
  }

  lemma AlteredKeeps(g: Graph, rank: seq<nat>, root: nat, g': Graph, ns: Numbers, inEdges: seq<seq<nat>>,
                     from: seq<nat>)
    requires Ranked(g, rank) && root < |g| && NumbersOk(g, ns, true, inEdges, from, Below(g, rank, root))
    requires ContainedGraph(g)
    requires InEdgesOf(g, inEdges, Below(g, rank, root))
    requires Altered(g, g', ns, true, inEdges, from, Below(g, rank, root))
    ensures Keeps(g, rank, g', rank, root)
  {
    hide Below, Shaped, Distinct, Ordered, OptList, Entry, RunGraph, KnownAlong, InEdgesOf, Numbered, Exposed, Defs,
         InRange;
    forall b | b in Below(g, rank, root) ensures KnownAlong(EntryOf(ns, inEdges[b], from[b]), g[b].stmts, true) {
      assert ContainedNode(g[b]);
      BlockStart(g, ns, true, inEdges[b], from[b], b);
      ExposedKnown(EntryOf(ns, inEdges[b], from[b]), g[b].stmts, true, {});
    }
    AlteredIsRanked(g, rank, g');
    forall st: State, p: Packet | RunGraph(g, rank, root, st, p).Return?
      ensures RunGraph(g', rank, root, st, p) == RunGraph(g, rank, root, st, p)
    {
      ValuesPreserve(g, rank, root, ns, true, inEdges, from, g', st, p);
    }
  }

  // ------------------------------------------------------------------ cleaning

  /** Exactly the blocks listed have lost their dead stores. */
  ghost predicate CleanedAll(g: Graph, g': Graph, blocks: set<nat>, outUse: seq<set<nat>>)
  {
    && |g'| == |g| == |outUse|
    && forall b :: 0 <= b < |g| ==>
         g'[b] == if b in blocks then g[b].(stmts := D.Clean(g[b].stmts, g[b].s, outUse[b])) else g[b]
  }

  /** opt_deadstores on every block of the list. */
  method CleanAll(g: Graph, order: seq<nat>, outUse: seq<set<nat>>) returns (g': Graph)
    requires WellFormed(g) && |outUse| == |g| && GraphInRange(g) && InGraph(g, order)
    ensures CleanedAll(g, g', Elements(order), outUse)
  {
    hide D.Clean, AllInRange;
    g' := g;
    for i := 0 to |order|
      invariant CleanedAll(g, g', Elements(order[..i]), outUse)
    {
      var b := order[i];
      var ss, _ := D.OptDeadstores(g[b].stmts, g[b].s, outUse[b], NOTHING_KNOWN.val);
      g' := g'[b := g[b].(stmts := ss)];
      assert order[..i + 1] == order[..i] + [b];
    }
    assert order[..|order|] == order;
  }

  /** Exactly the stores no path reads are gone from the reachable blocks. */
  ghost predicate StoresRemoved(g: Graph, g': Graph, rank: seq<nat>, root: nat)
    requires Ranked(g, rank) && root < |g|
  {
    exists inUse, outUse, order ::
      && Placed(g, order) && Elements(order) == Below(g, rank, root) && Live(g, inUse, outUse, order)
      && CleanedAll(g, g', Below(g, rank, root), outUse)
  }

  method RemoveDeadStores(g: Graph, root: nat, order: seq<nat>, ghost rank: seq<nat>) returns (g': Graph)
    requires Ranked(g, rank) && root < |g| && Placed(g, order) && Elements(order) == Below(g, rank, root)
    requires root in order && ConstantReturns(g, order) && SameSize(g, g)
    ensures Keeps(g, rank, g', rank, root) && SameShape(g, g') && SameSize(g, g')
    ensures StoresRemoved(g, g', rank, root) && StillLegal(g, g')
  {
    hide Placed, Live, D.Cleaned, Keeps, SameShape, SameSize, Below, Elements, CleanedAll, StillLegal;
    SizeInRange(g, g);
    var inUse, outUse := FindUd(g, order);
    LiveSized(g, inUse, outUse, order);
    g' := CleanAll(g, order, outUse);
    CleanedIs(g, g', Elements(order), outUse);
    CleanedShape(g, g', outUse);
    CleanedKeeps(g, g', rank, inUse, outUse, order, root);
  }

  lemma CleanedIs(g: Graph, g': Graph, blocks: set<nat>, outUse: seq<set<nat>>)
    requires CleanedAll(g, g', blocks, outUse)
    ensures D.Cleaned(g, g', outUse)
  {
    hide D.Clean;
  }

  /** No statement has become illegal. */
  ghost predicate StillLegal(g: Graph, g': Graph)
  {
    |g'| == |g| && forall b :: 0 <= b < |g| ==> AllStillLegal(g[b].stmts, g'[b].stmts)
  }

  ghost predicate AllStillLegal(ss: seq<Stmt>, ss': seq<Stmt>)
  {
    |ss'| == |ss| && forall i :: 0 <= i < |ss| && A.Legal(ss[i]) ==> A.Legal(ss'[i])
  }

  lemma LegalTrans(g0: Graph, g1: Graph, g2: Graph)
    requires KeepsLegal(g0, g1) && StillLegal(g1, g2)
    ensures KeepsLegal(g0, g2)
  {
    hide A.Legal, AlwaysFaults;
    forall b | 0 <= b < |g0| ensures StaysLegal(g0[b].stmts, g2[b].stmts) {
      assert StaysLegal(g0[b].stmts, g1[b].stmts) && AllStillLegal(g1[b].stmts, g2[b].stmts);
    }
  }

  lemma CleanedShape(g: Graph, g': Graph, outUse: seq<set<nat>>)
    requires SameSize(g, g) && D.Cleaned(g, g', outUse)
    ensures SameShape(g, g') && SameSize(g, g') && StillLegal(g, g')
  {
    forall b | 0 <= b < |g'|
      ensures StraightStmts(g'[b].stmts) && |g'[b].stmts| == |g[b].stmts| && AllStillLegal(g[b].stmts, g'[b].stmts)
    {
      assert StraightStmts(g[b].stmts);
    }
  }

  lemma CleanedKeeps(g: Graph, g': Graph, rank: seq<nat>, inUse: seq<set<nat>>, outUse: seq<set<nat>>, order: seq<nat>,
                     root: nat)
    requires Ranked(g, rank) && root < |g| && Placed(g, order) && root in order && ConstantReturns(g, order)
    requires GraphInRange(g)
    requires Live(g, inUse, outUse, order) && |inUse| == |g| && D.Cleaned(g, g', outUse)
    ensures Keeps(g, rank, g', rank, root)
  {
    hide Placed, Live, D.Cleaned, RunGraph, GraphInRange;
    D.CleanedIsRanked(g, g', outUse, rank);
    CleanedCount(g, g', outUse);
    forall st: State, p: Packet | RunGraph(g, rank, root, st, p).Return?
      ensures RunGraph(g', rank, root, st, p) == RunGraph(g, rank, root, st, p)
    {
      D.DeadStoresPreserve(g, g', rank, inUse, outUse, order, root, st, st, p);
    }
  }

  lemma CleanedCount(g: Graph, g': Graph, outUse: seq<set<nat>>)
    requires D.Cleaned(g, g', outUse)
    ensures |g'| == |g|
  {
  }

  lemma InternedKeeps(g: Graph, rank: seq<nat>, g': Graph, lv: seq<nat>, root: nat)
    requires Ranked(g, rank) && root < |g| && SameSize(g, g) && I.SameRuns(g, rank, g', lv) && I.SameCode(g, g')
    ensures Keeps(g, rank, g', lv, root) && SameSize(g, g') && StillLegal(g, g')
  {
    hide RunGraph;
    forall b | 0 <= b < |g'| ensures StraightStmts(g'[b].stmts) && |g'[b].stmts| == |g[b].stmts| {
      assert StraightStmts(g[b].stmts);
    }
  }

  // -------------------------------------------------------------- all the passes

  /** The graphs between the passes; `rank` orders the pulled one. */
  datatype Stages = Stages(moved: Graph, pulled: Graph, rank: seq<nat>, rewritten: Graph, cleaned: Graph)

  /** or_pullup and and_pullup of every reachable block. */
  ghost predicate TestsPulled(g: Graph, rank: seq<nat>, g': Graph, rank': seq<nat>, root: nat, blocks: set<nat>)
  {
    exists order, gs, rs ::
      && Elements(order) == blocks && P.AllPulled(order, gs, rs, root)
      && gs[0] == g && rs[0] == rank && gs[|order|] == g' && rs[|order|] == rank'
  }

  /** Every pass has been made, each on what the one before it left: branches moved; tests pulled up, if every test is
      one of a field; statements rewritten by value; dead stores removed; equal blocks merged. */
  ghost predicate AllPasses(g: Graph, rank: seq<nat>, root: nat, t: Stages, g': Graph, lv: seq<nat>)
    requires Ranked(g, rank) && root < |g|
  {
    && M.BranchesMoved(g, t.moved, rank, root)
    && (if P.FieldGraph(g) then TestsPulled(t.moved, rank, t.pulled, t.rank, root, Below(g, rank, root))
        else t.pulled == t.moved && t.rank == rank)
    && Ranked(t.pulled, t.rank) && root < |t.pulled| && ValuesUsed(t.pulled, t.rewritten, t.rank, root)
    && Ranked(t.rewritten, t.rank) && root < |t.rewritten| && StoresRemoved(t.rewritten, t.cleaned, t.rank, root)
    && I.SameCode(t.cleaned, g') && I.SameRuns(t.cleaned, t.rank, g', lv)
    && Ranked(g', lv) && root < |g'| && I.Interned(g', lv, root)
  }

  /** The optimizer's passes over one graph. It gives up only where a statement divides by 0, or shifts by more than 31,
      whenever it is reached. */
  method OptimizeGraph(g: Graph, root: nat, ghost rank: seq<nat>)
    returns (err: Option<OptError>, g': Graph, ghost lv: seq<nat>, ghost t: Stages)
    requires Ranked(g, rank) && root < |g| && ContainedGraph(g)
    ensures err.Some? ==> CanFail(g, err.value)
    ensures err == None ==> Keeps(g, rank, g', lv, root) && SameSize(g, g') && KeepsLegal(g, g')
    ensures err == None ==> AllPasses(g, rank, root, t, g', lv)
  {
    hide Below, Placed, Flat, Elements, ListsOk, Keeps, SameShape, SameSize, ContainedGraph, I.SameRuns, I.SameCode,
         I.Interned, ConstantReturns, P.FieldGraph, P.Pulls, M.SameTests, CanFail, GraphInRange, KeepsLegal,
         M.BranchesMoved, TestsPulled, ValuesUsed, StoresRemoved;
    var g1, order := MoveEdges(g, root, rank);
    SameTestsFacts(g, rank, g1, rank, root);
    ghost var rank2 := rank;
    var g2 := g1;
    if P.FieldGraph(g) {
      g2, rank2 := PullUp(g, g1, root, order, rank);
    }
    KeepsRanked(g, rank, g2, rank2, root);
    ghost var rewritten, cleaned;
    err, g', lv, rewritten, cleaned := RewriteAndMerge(g2, root, rank2);
    t := Stages(g1, g2, rank2, rewritten, cleaned);
    if err == None {
      KeepsTrans(g, rank, g2, rank2, g', lv, root);
      SizeTrans(g, g2, g');
    }
    SameTestsFaults(g, g2, g', err);
  }

  /** What is said of the statements of one graph holds of another with the same statements. */
  lemma SameTestsFaults(g: Graph, g2: Graph, g': Graph, err: Option<OptError>)
    requires M.SameTests(g, g2) && (if err.Some? then CanFail(g2, err.value) else KeepsLegal(g2, g'))
    ensures if err.Some? then CanFail(g, err.value) else KeepsLegal(g, g')
  {
    hide AlwaysFaults, StaysLegal;
    if err.Some? {
      var b, i :| 0 <= b < |g2| && AlwaysFaults(g2[b].stmts, i, err.value);
      assert AlwaysFaults(g[b].stmts, i, err.value);
    }
  }

  lemma KeepsRanked(g: Graph, rank: seq<nat>, g': Graph, rank': seq<nat>, root: nat)
    requires Keeps(g, rank, g', rank', root)
    ensures Ranked(g', rank') && root < |g'| == |g|
  {
  }

  lemma SameTestsFacts(g: Graph, rank: seq<nat>, g': Graph, rank': seq<nat>, root: nat)
    requires ContainedGraph(g) && M.SameTests(g, g') && Keeps(g, rank, g', rank', root)
    ensures SameSize(g, g') && ContainedGraph(g') && Ranked(g', rank') && root < |g'| == |g|
    ensures P.FieldGraph(g) <==> P.FieldGraph(g')
  {
    hide ContainedNode;
    ContainedSize(g, g');
    SameFields(g, g');
  }

  lemma SameFields(g: Graph, g': Graph)
    requires M.SameTests(g, g')
    ensures P.FieldGraph(g) <==> P.FieldGraph(g')
  {
    hide P.FieldNode;
    forall b | 0 <= b < |g| ensures P.FieldNode(g[b]) <==> P.FieldNode(g'[b]) {
      if P.FieldNode(g[b]) { P.SameField(g[b], g'[b]); }
      if P.FieldNode(g'[b]) { P.SameField(g'[b], g[b]); }
    }
  }

  method PullUp(ghost g: Graph, g1: Graph, root: nat, order: seq<nat>, ghost rank: seq<nat>)
    returns (g2: Graph, ghost rank2: seq<nat>)
    requires Keeps(g, rank, g1, rank, root) && M.SameTests(g, g1) && ContainedGraph(g) && P.FieldGraph(g)
    ensures Keeps(g, rank, g2, rank2, root) && SameSize(g, g2) && ContainedGraph(g2) && M.SameTests(g, g2)
    ensures TestsPulled(g1, rank, g2, rank2, root, Elements(order))
  {
    hide Keeps, SameSize, ContainedGraph, P.FieldGraph, M.SameTests, P.AllPulled;
    SameTestsFacts(g, rank, g1, rank, root);
    ghost var gs, rs;
    g2, rank2, gs, rs := P.PullAll(g1, root, order, rank);
    SameTestsFacts(g1, rank, g2, rank2, root);
    KeepsTrans(g, rank, g1, rank, g2, rank2, root);
    SizeTrans(g, g1, g2);
    SameTestsTrans(g, g1, g2);
  }

  lemma SameTestsTrans(g0: Graph, g1: Graph, g2: Graph)
    requires M.SameTests(g0, g1) && M.SameTests(g1, g2)
    ensures M.SameTests(g0, g2)
  {
  }

  /** Values, dead stores and equal blocks, once each. */
  method RewriteAndMerge(g: Graph, root: nat, ghost rank: seq<nat>)
    returns (err: Option<OptError>, g': Graph, ghost lv: seq<nat>, ghost g1: Graph, ghost g2: Graph)
    requires Ranked(g, rank) && root < |g| && ContainedGraph(g)
    ensures err.Some? ==> CanFail(g, err.value)
    ensures err == None ==> Keeps(g, rank, g', lv, root) && SameSize(g, g') && KeepsLegal(g, g')
    ensures err == None ==>
              && ValuesUsed(g, g1, rank, root)
              && Ranked(g1, rank) && root < |g1| && StoresRemoved(g1, g2, rank, root)
              && I.SameCode(g2, g') && I.SameRuns(g2, rank, g', lv)
              && Ranked(g', lv) && root < |g'| && I.Interned(g', lv, root)
  {
    hide Below, Placed, Flat, Elements, ListsOk, Keeps, SameShape, SameSize, ContainedGraph, I.SameRuns, I.SameCode,
         I.Interned, ConstantReturns, CanFail, GraphInRange, ReverseEach, Downward, Reverse, KeepsLegal, StillLegal,
         ValuesUsed, StoresRemoved;
    var levels, level := FindLevels(g, root, rank);
    LevelOrder(g, rank, root, levels, level);
    DownwardOrder(g, rank, root, levels, level);
    var order, down := Flat(levels, |g|), Flat(ReverseEach(levels), |g|);
    RootBelow(g, rank, root);
    InElements(order, root);
    g', lv, g1, g2 := g, rank, g, g;
    var rewritten;
    err, rewritten := RewriteByValues(g, root, down, rank);
    if err == None {
      g1 := rewritten;
      ShapePlaced(g, rewritten, order);
      ShapeReturns(g, rewritten, order);
      KeepsRanked(g, rank, rewritten, rank, root);
      ShapeBelow(g, rewritten, rank, root);
      OwnSize(g, rewritten);
      var cleaned := RemoveDeadStores(rewritten, root, order, rank);
      g2 := cleaned;
      KeepsRanked(rewritten, rank, cleaned, rank, root);
      OwnSize(rewritten, cleaned);
      var interner := new I.Interner(cleaned);
      lv := interner.InternBlocks(root, rank);
      g' := interner.g;
      InternedKeeps(cleaned, rank, g', lv, root);
      KeepsTrans(g, rank, rewritten, rank, cleaned, rank, root);
      KeepsTrans(g, rank, cleaned, rank, g', lv, root);
      KeepsRanked(cleaned, rank, g', lv, root);
      SizeTrans(g, rewritten, cleaned);
      SizeTrans(g, cleaned, g');
      LegalTrans(g, rewritten, cleaned);
      LegalTrans(g, cleaned, g');
    }
  }

  lemma {:induction false} ShapeBelow(g: Graph, g': Graph, rank: seq<nat>, n: nat)
    requires Ranked(g, rank) && Ranked(g', rank) && SameShape(g, g') && n < |g|
    ensures Below(g', rank, n) == Below(g, rank, n)
    decreases rank[n]
  {
    if !IsLeaf(g[n]) {
      ShapeBelow(g, g', rank, g[n].jt);
      ShapeBelow(g, g', rank, g[n].jf);
    }
  }

  lemma OwnSize(g: Graph, g': Graph)
    requires SameSize(g, g')
    ensures SameSize(g', g')
  {
  }

  lemma ShapeReturns(g: Graph, g': Graph, order: seq<nat>)
    requires SameShape(g, g') && ContainedGraph(g)
    ensures ConstantReturns(g', order)
  {
    forall b | b in order && b < |g'| && IsLeaf(g'[b]) ensures g'[b].s.code.RetK? { assert ContainedNode(g[b]); }
  }

  // --------------------------------------------------------------- end to end

  /** On every packet the filter has an answer for, the program gives it. */
  ghost predicate Optimized(prog: seq<Insn>, f: G.Filter, snaplen: Word)
    requires C.Sound(f)
  {
    forall st: State, p: Packet ::
      C.Expected(f, snaplen, st, p).Return? ==> Run(prog, 0, st, p, |prog|) == Some(C.Expected(f, snaplen, st, p))
  }

  lemma {:induction false} ContainedIsSound(f: G.Filter)
    requires ContainedFilter(f)
    ensures C.Sound(f)
  {
    match f
    case Atom(_, _) =>
    case Both(a, b) => ContainedIsSound(a); ContainedIsSound(b);
    case Either(a, b) => ContainedIsSound(a); ContainedIsSound(b);
    case Negated(a) => ContainedIsSound(a);
  }

  lemma Emits(g: Graph, g': Graph, rank: seq<nat>, root: nat)
    requires Ranked(g', rank) && root < |g'| && SameSize(g, g') && C.SumRoom(g, |g|) <= V.INT_MAX
    ensures E.Small(g', rank, root) && StraightLine(g')
  {
    hide Below, Space;
    RoomStays(g, g', |g|);
    C.SpaceAtMost(g', Below(g', rank, root), |g'|);
    forall b | 0 <= b < |g'| ensures forall i :: 0 <= i < |g'[b].stmts| ==> Straight(g'[b].stmts[i].code) {
      assert StraightStmts(g'[b].stmts);
    }
  }

  /** Whether every statement may go into a program. A division by the constant 0 that rewriting has brought to light
      may not: the next round of the optimizer gives up on it. */
  predicate Emittable(g: Graph) { forall b | 0 <= b < |g| :: LegalStmts(g[b].stmts) }

  /** What cannot be emitted was a division by 0 from the start. */
  lemma NotEmittable(g: Graph, g': Graph)
    requires KeepsLegal(g, g') && Emittable(g) && !Emittable(g')
    ensures exists e :: CanFail(g, e)
  {
    hide A.Legal, AlwaysFaults;
    var b, i :| 0 <= b < |g'| && 0 <= i < |g'[b].stmts| && !A.Legal(g'[b].stmts[i]);
    assert LegalStmts(g[b].stmts) && StaysLegal(g[b].stmts, g'[b].stmts);
    var e := ErrorFor(g[b].stmts[i].code.op);
    assert AlwaysFaults(g[b].stmts, i, e);
    assert CanFail(g, e);
  }

  lemma {:induction false} TestsAreFaulty(bs: G.Store, x: G.Expr, t: int, f: int, b: nat, i: nat, e: OptError)
    requires G.Good(x) && G.Stored(x, |bs|) && G.Wired(bs, x, t, f) && b in G.Tests(x)
    requires AlwaysFaults(bs[b].stmts, i, e)
    ensures FaultyFilter(G.Erase(x))
  {
    hide AlwaysFaults;
    match x
    case Test(_, _, _) =>
    case And(y, z) =>
      if b in G.Tests(y) { TestsAreFaulty(bs, y, G.First(z), f, b, i, e); }
        else { TestsAreFaulty(bs, z, t, f, b, i, e); }
    case Or(y, z) =>
      if b in G.Tests(y) { TestsAreFaulty(bs, y, t, G.First(z), b, i, e); }
        else { TestsAreFaulty(bs, z, t, f, b, i, e); }
    case Not(y) => TestsAreFaulty(bs, y, f, t, b, i, e);
  }

  /** A faulty block is a faulty test of the filter. */
  lemma FinishedFaults(bs: G.Store, x: G.Expr, snaplen: Word, e: OptError)
    requires C.Finished(bs, x, snaplen) && CanFail(C.ToGraph(bs), e)
    ensures FaultyFilter(G.Erase(x))
  {
    hide G.Wired, FaultsOn, FaultyFilter;
    var b, i :| 0 <= b < |bs| && AlwaysFaults(C.ToGraph(bs)[b].stmts, i, e);
    if b < |bs| - 2 {
      TestsAreFaulty(bs, x, |bs| - 2, |bs| - 1, b, i, e);
    }
  }

  /** The compiler with these passes, end to end, for filters whose tests set what they read: link-layer fields,
      comparisons of arithmetic expressions, and all combinations of them. Unless the optimizer gives up, the program
      is accepted, and on every packet on which evaluation does not end early it returns what the filter says. It gives
      up only on a filter with a test that divides by 0, or shifts by more than 31, on every packet; so never on one
      without a division, a modulus or a shift. */
  method CompileOptimized(f: G.Filter, snaplen: Word) returns (r: Option<seq<Insn>>)
    requires ContainedFilter(f) && C.LegalFilter(f) && C.Bound(f) + 6 <= V.INT_MAX
    ensures C.Sound(f) && (r.None? ==> FaultyFilter(f)) && (CalmFilter(f) ==> r.Some?)
    ensures r.Some? ==> Optimized(r.value, f, snaplen) && V.Accepted(r.value)
  {
    hide G.Fragment, G.Wired, Run, RunGraph, C.Expected, C.Ranks, E.LaidOut, E.Small, V.Accepted, C.Bound, SameSize,
         Keeps, AllPasses, ContainedFilter, C.LegalFilter, ContainedGraph, Emittable, CanFail, KeepsLegal, CalmFilter,
         FaultyFilter, T.LoadsOnly, P.FieldGraph;
    ContainedIsSound(f);
    if CalmFilter(f) { CalmIsNotFaulty(f); }
    var gen := new G.Generator();
    var b; ghost var e;
    b, e := C.Generate(gen, f);
    var root := gen.FinishParse(b, snaplen, e);
    var bs := gen.blocks;
    assert C.Finished(bs, e, snaplen);
    var g := C.ToGraph(bs);
    ghost var rank := C.Ranks(e, |bs|);
    C.FinishedIsRanked(bs, e, snaplen);
    C.FinishedIsSmall(bs, e, snaplen);
    C.FinishedRoom(bs, e, snaplen);
    FinishedContained(bs, e, snaplen);
    EmittableIs(g);
    var err, g'; ghost var lv, t;
    err, g', lv, t := OptimizeGraph(g, root, rank);
    if err.Some? {
      FinishedFaults(bs, e, snaplen, err.value);
      return None;
    }
    if !Emittable(g') {
      NotEmittable(g, g');
      ghost var fault :| CanFail(g, fault);
      FinishedFaults(bs, e, snaplen, fault);
      return None;
    }
    KeepsRanked(g, rank, g', lv, root);
    Emits(g, g', lv, root);
    EmittableIsLegal(g');
    var em := new E.Emission(g');
    var prog := em.IcodeToFcode(root, lv);
    forall st: State, p: Packet | C.Expected(f, snaplen, st, p).Return?
      ensures Run(prog, 0, st, p, |prog|) == Some(C.Expected(f, snaplen, st, p))
    {
      E.LaidOutRuns(g', lv, root, em.longs, prog, st, p);
      C.FinishedRuns(bs, e, snaplen, st, p);
      KeptResult(g, rank, g', lv, root, st, p);
    }
    C.LaidOutAccepted(g', lv, root, em.longs, prog);
    return Some(prog);
  }

  lemma EmittableIs(g: Graph)
    requires forall b :: 0 <= b < |g| ==> LegalStmts(g[b].stmts)
    ensures Emittable(g)
  {
  }

  /** Filters over link-layer fields have none of these operations: they are always compiled. */
  lemma {:induction false} LoadsAreCalm(f: G.Filter)
    requires T.LoadsOnly(f)
    ensures CalmFilter(f)
  {
    match f
    case Atom(_, _) =>
    case Both(a, b) => LoadsAreCalm(a); LoadsAreCalm(b);
    case Either(a, b) => LoadsAreCalm(a); LoadsAreCalm(b);
    case Negated(a) => LoadsAreCalm(a);
  }

  lemma EmittableIsLegal(g: Graph)
    requires Emittable(g)
    ensures A.LegalGraph(g)
  {
    hide A.Legal;
    forall b, i | 0 <= b < |g| && 0 <= i < |g[b].stmts| ensures A.Legal(g[b].stmts[i])
      { assert LegalStmts(g[b].stmts); }
  }

  lemma KeptResult(g: Graph, rank: seq<nat>, g': Graph, rank': seq<nat>, root: nat, st: State, p: Packet)
    requires Keeps(g, rank, g', rank', root) && Ranked(g, rank) && root < |g| && RunGraph(g, rank, root, st, p).Return?
    ensures Ranked(g', rank') && root < |g'| && RunGraph(g', rank', root, st, p) == RunGraph(g, rank, root, st, p)
  {
  }

  /** The optimized program of a comparison returns snaplen or 0 as the comparison holds or not, where both operands
      have a value. */
  lemma OptimizedRelation(prog: seq<Insn>, f: G.Filter, op: JmpOp, ta: Y.Tree, tb: Y.Tree, reversed: bool, link: Word,
                          snaplen: Word, st: State, p: Packet)
    requires R.Decides(f, op, ta, tb, reversed, link) && Optimized(prog, f, snaplen)
    requires R.Holds(op, ta, tb, reversed, p, link).Some?
    ensures Run(prog, 0, st, p, |prog|) ==
            Some(Return(if R.Holds(op, ta, tb, reversed, p, link).value then snaplen else 0))
  {
    hide Run, R.Holds;
    match C.Eval(f, st, p) case Says(_, _) => case Ends(_) =>
  }
}
