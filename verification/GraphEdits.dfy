/**
 * Local changes of a graph and the runs that pass through them: replacing one
 * block, and moving one edge past a block.
 */
module GraphEdits {
  import opened Words
  import opened Machine
  import opened FlowGraph
  import opened Layout
  import opened Dominators
  import opened Liveness
  import opened ValueNumbers
  import opened ValueRewrite
  import opened BlockValues
  import opened BranchFolding
  import P = Peephole

  /** The new graph returns what the old one returned, on every packet that was not rejected. */
  ghost predicate Keeps(g: Graph, rank: seq<nat>, g': Graph, rank': seq<nat>, root: nat)
  {
    && Ranked(g, rank) && Ranked(g', rank') && root < |g| == |g'|
    && forall st: State, p: Packet {:trigger RunGraph(g', rank', root, st, p)} ::
         RunGraph(g, rank, root, st, p).Return? ==> RunGraph(g', rank', root, st, p) == RunGraph(g, rank, root, st, p)
  }

  lemma KeepsTrans(g0: Graph, r0: seq<nat>, g1: Graph, r1: seq<nat>, g2: Graph, r2: seq<nat>, root: nat)
    requires Keeps(g0, r0, g1, r1, root) && Keeps(g1, r1, g2, r2, root)
    ensures Keeps(g0, r0, g2, r2, root)
  {
    hide RunGraph;
    forall st: State, p: Packet | RunGraph(g0, r0, root, st, p).Return?
      ensures RunGraph(g2, r2, root, st, p) == RunGraph(g0, r0, root, st, p)
    {
      assert RunGraph(g1, r1, root, st, p) == RunGraph(g0, r0, root, st, p);
    }
  }

  /** The state in which the run from block c enters block b, if it does. */
  ghost function EntersWith(g: Graph, rank: seq<nat>, c: nat, st: State, p: Packet, b: nat): Option<State>
    requires Ranked(g, rank) && c < |g|
    decreases rank[c]
  {
    if c == b then Some(st)
    else
      match ExecList(g[c].stmts, st, p)
      case Next(st') => if IsLeaf(g[c]) then None
        else EntersWith(g, rank, Successor(g[c], Taken(g[c].s, st')), st', p, b)
      case _ => None
  }

  /** A graph with one block changed runs the same from where that block cannot be reached. */
  lemma {:induction false} ElsewhereSame(g: Graph, rank: seq<nat>, g': Graph, b: nat, c: nat, st: State, p: Packet)
    requires Ranked(g, rank) && Ranked(g', rank) && c < |g| == |g'| && b !in Below(g, rank, c)
    requires forall n :: 0 <= n < |g| && n != b ==> g'[n] == g[n]
    ensures RunGraph(g', rank, c, st, p) == RunGraph(g, rank, c, st, p)
    decreases rank[c]
  {
    assert c in Below(g, rank, c);
    match ExecList(g[c].stmts, st, p)
    case Next(st') =>
      if !IsLeaf(g[c]) { ElsewhereSame(g, rank, g', b, Successor(g[c], Taken(g[c].s, st')), st', p); }
    case _ =>
  }

  // --------------------------------------------------------- replacing a block

  /** From state st the new block leaves by the way the old one leaves, with everything live intact. */
  ghost predicate Replaces(n: Node, n': Node, outUse: set<nat>, st: State, p: Packet)
    requires (!IsLeaf(n) ==> n.s.code.Jmp?) && (!IsLeaf(n') ==> n'.s.code.Jmp?)
  {
    match ExecList(n.stmts, st, p)
    case Next(t) =>
      && ExecList(n'.stmts, st, p).Next?
      && var t' := ExecList(n'.stmts, st, p).st;
         if IsLeaf(n) then IsLeaf(n') && LeafResult(n.s, t) == LeafResult(n'.s, t')
         else !IsLeaf(n') && Agree(t, t', outUse) && Successor(n, Taken(n.s, t)) == Successor(n', Taken(n'.s, t'))
    case _ => true
  }

  /** Replacing a block keeps the result of every run that is not rejected, if the new block replaces
      the old one in the state in which the run enters it. */
  lemma {:induction false} ReplacePreserves(g: Graph, rank: seq<nat>, g': Graph, inUse: seq<set<nat>>,
                                            outUse: seq<set<nat>>, o: seq<nat>,
                                            b: nat, c: nat, st: State, p: Packet)
    requires Ranked(g, rank) && Ranked(g', rank) && Placed(g, o) && Live(g, inUse, outUse, o) && ReturnsCounted(g, o)
    requires GraphInRange(g)
    requires b in o && c in o && b < |g| == |g'| == |outUse| && c < |g|
    requires forall n :: 0 <= n < |g| && n != b ==> g'[n] == g[n]
    requires match EntersWith(g, rank, c, st, p, b)
             case Some(u) => Replaces(g[b], g'[b], outUse[b], u, p)
             case None => true
    requires RunGraph(g, rank, c, st, p).Return?
    ensures RunGraph(g', rank, c, st, p) == RunGraph(g, rank, c, st, p)
    decreases rank[c]
  {
    hide ExecList, Placed, Live, Below, Taken;
    if c == b {
      if !IsLeaf(g[b]) {
        var t, t' := ExecList(g[b].stmts, st, p).st, ExecList(g'[b].stmts, st, p).st;
        var next := Successor(g[b], Taken(g[b].s, t));
        LiveMember(g, inUse, outUse, o, b);
        SuccessorsPlaced(g, o, b);
        assert Agree(t', t, inUse[next]);
        NonInterference(g, rank, inUse, outUse, o, next, t', t, p);
        NotBelowItself(g, rank, b);
        ElsewhereSame(g, rank, g', b, next, t', p);
      }
    } else {
      match ExecList(g[c].stmts, st, p)
      case Next(st') =>
        if !IsLeaf(g[c]) {
          SuccessorsPlaced(g, o, c);
          ReplacePreserves(g, rank, g', inUse, outUse, o, b, Successor(g[c], Taken(g[c].s, st')), st', p);
        }
      case _ =>
    }
  }

  // ----------------------------------------------------------- moving an edge

  function SetBranch(n: Node, sense: bool, to: int): Node { if sense then n.(jt := to) else n.(jf := to) }

  /** When a run that has left block q by the branch to `child` is in state s, going straight to `to` comes
      to the same: the child's statements run through, lead there, and change nothing that is live there. */
  ghost predicate Bypasses(g: Graph, child: nat, to: int, inUse: set<nat>, s: State, p: Packet)
    requires child < |g| && (!IsLeaf(g[child]) ==> g[child].s.code.Jmp?)
  {
    && !IsLeaf(g[child]) && ExecList(g[child].stmts, s, p).Next?
    && var t := ExecList(g[child].stmts, s, p).st;
       Successor(g[child], Taken(g[child].s, t)) == to && Agree(t, s, inUse)
  }

  /** The state in which the run from c leaves q by the given branch, if it does. */
  ghost function LeavesWith(g: Graph, rank: seq<nat>, c: nat, st: State, p: Packet, q: nat, sense: bool): Option<State>
    requires Ranked(g, rank) && c < |g| && q < |g| && !IsLeaf(g[q])
  {
    match EntersWith(g, rank, c, st, p, q)
    case None => None
    case Some(u) =>
      match ExecList(g[q].stmts, u, p)
      case Next(t) => if Taken(g[q].s, t) == sense then Some(t) else None
      case _ => None
  }

  /** Moving a branch of q from a block to a child of that block keeps the result of every run that is
      not rejected and for which, if it takes the branch, the block can be bypassed. */
  lemma {:induction false} MovePreserves(g: Graph, rank: seq<nat>, inUse: seq<set<nat>>, outUse: seq<set<nat>>,
                                         o: seq<nat>,
                                         q: nat, sense: bool, to: nat, c: nat, st: State, p: Packet)
    requires Ranked(g, rank) && Placed(g, o) && Live(g, inUse, outUse, o) && ReturnsCounted(g, o) && GraphInRange(g)
    requires q in o && c in o && to in o && q < |g| == |inUse| && c < |g| && to < |g| && !IsLeaf(g[q])
    requires rank[to] < rank[q] && Ranked(g[q := SetBranch(g[q], sense, to)], rank)
    requires match LeavesWith(g, rank, c, st, p, q, sense)
             case Some(s) => Bypasses(g, Successor(g[q], sense), to, inUse[to], s, p)
             case None => true
    requires RunGraph(g, rank, c, st, p).Return?
    ensures RunGraph(g[q := SetBranch(g[q], sense, to)], rank, c, st, p) == RunGraph(g, rank, c, st, p)
    decreases rank[c]
  {
    hide ExecList, Placed, Live, Below, Taken;
    var g' := g[q := SetBranch(g[q], sense, to)];
    match ExecList(g[c].stmts, st, p)
    case Next(t) =>
      if !IsLeaf(g[c]) {
        var next := Successor(g[c], Taken(g[c].s, t));
        SuccessorsPlaced(g, o, c);
        if c != q {
          MovePreserves(g, rank, inUse, outUse, o, q, sense, to, next, t, p);
        } else if Taken(g[q].s, t) == sense {
          var u := ExecList(g[next].stmts, t, p).st;
          NonInterference(g, rank, inUse, outUse, o, to, t, u, p);
          HigherUnreached(g, rank, to, q);
          ElsewhereSame(g, rank, g', q, to, t, p);
        } else {
          NotBelowItself(g, rank, q);
          ElsewhereSame(g, rank, g', q, next, t, p);
        }
      }
    case _ =>
  }

  lemma HigherUnreached(g: Graph, rank: seq<nat>, c: nat, b: nat)
    requires Ranked(g, rank) && c < |g| && b < |g| && rank[c] < rank[b]
    ensures b !in Below(g, rank, c)
  {
    if b in Below(g, rank, c) { BelowBasics(g, rank, c, b); }
  }

  // ----------------------------------------------------- the passes that do so

  /** The conditions on the state in which a run enters a block for opt_peep to be right there. */
  ghost predicate PeepFits(n: Node, outUse: set<nat>, v: Values, es: seq<P.Edit>, ss: seq<Stmt>, last: nat, st: State,
                           p: Packet)
    requires n.s.code.Jmp? && |v.val| == N_ATOMS && last < |ss|
  {
    match ExecList(n.stmts, st, p)
    case Next(t) =>
      && P.ConstsHold(v, t) && P.Safe(n.stmts, es, P.PeepNeeds(n.(stmts := ss), last, outUse), st, p)
      && P.BranchSafe(n.(stmts := ss), last, outUse, v, t)
    case _ => true
  }

  lemma PeepTargets(n: Node, last: nat, outUse: set<nat>, v: Values)
    requires n.s.code.Jmp? && last < |n.stmts| && |v.val| == N_ATOMS
    ensures var n' := P.PeepBranch(n, last, outUse, v);
            n'.s.code.Jmp? && (n'.jt == n.jt || n'.jt == n.jf) && (n'.jf == n.jt || n'.jf == n.jf)
  {
    hide IsConst, ConstVal, Compare, P.Mergeable;
  }

  /** Peephole rewriting of one block preserves the result of the graph. */
  lemma PeepPreserves(g: Graph, rank: seq<nat>, inUse: seq<set<nat>>, outUse: seq<set<nat>>, o: seq<nat>, b: nat,
                      v: Values, es: seq<P.Edit>, ss: seq<Stmt>, last: nat, root: nat, st: State, p: Packet)
    requires Ranked(g, rank) && Placed(g, o) && Live(g, inUse, outUse, o) && ReturnsCounted(g, o) && GraphInRange(g)
    requires b in o && root in o && b < |g| == |outUse| && root < |g| && !IsLeaf(g[b]) && |v.val| == N_ATOMS
    requires last < |ss|
    requires P.Rewrites(g[b].stmts, es, ss) && P.LastReal(ss, last)
    requires match EntersWith(g, rank, root, st, p, b)
             case Some(u) => PeepFits(g[b], outUse[b], v, es, ss, last, u, p)
             case None => true
    requires RunGraph(g, rank, root, st, p).Return?
    ensures var g' := g[b := P.PeepBranch(g[b].(stmts := ss), last, outUse[b], v)];
            Ranked(g', rank) && RunGraph(g', rank, root, st, p) == RunGraph(g, rank, root, st, p)
  {
    hide ExecList, Placed, Live, P.Rewrites, P.LastReal, P.PeepBranch, RunGraph, P.Safe, P.BranchSafe;
    var n' := P.PeepBranch(g[b].(stmts := ss), last, outUse[b], v);
    var g' := g[b := n'];
    PeepTargets(g[b].(stmts := ss), last, outUse[b], v);
    ReplacedIsRanked(g, rank, b, n');
    match EntersWith(g, rank, root, st, p, b) {
      case None =>
      case Some(u) =>
        match ExecList(g[b].stmts, u, p) {
          case Next(t) => P.OptPeepKeeps(g[b], outUse[b], v, es, ss, last, u, t, p);
          case _ =>
        }
    }
    ReplacePreserves(g, rank, g', inUse, outUse, o, b, root, st, p);
  }

  lemma ReplacedIsRanked(g: Graph, rank: seq<nat>, b: nat, n: Node)
    requires Ranked(g, rank) && b < |g| && !IsLeaf(g[b]) && n.s.code.Jmp?
    requires (n.jt == g[b].jt || n.jt == g[b].jf) && (n.jf == g[b].jt || n.jf == g[b].jf)
    ensures Ranked(g[b := n], rank)
  {
    var g' := g[b := n];
    forall c | 0 <= c < |g| ensures NodeOk(g'[c], |g|) { assert NodeOk(g[c], |g|); }
  }

  /** When opt_blk drops all statements: nothing is live on exit, and A and X leave with the known
      numbers they came with; or the block returns. */
  predicate Droppable(n: Node, outUse: set<nat>, entry: seq<nat>, exit: seq<nat>)
    requires |entry| == N_ATOMS == |exit|
  {
    || IsLeaf(n)
    || (outUse == {} && entry[A_ATOM] != UNKNOWN && exit[A_ATOM] == entry[A_ATOM]
        && entry[X_ATOM] != UNKNOWN && exit[X_ATOM] == entry[X_ATOM])
  }

  lemma DroppedReplaces(n: Node, outUse: set<nat>, table: Table, entry: seq<nat>, exit: seq<nat>, st: State, t: State,
                        p: Packet)
    requires (if IsLeaf(n) then n.s.code.RetK? else n.s.code.Jmp?) && Shaped(Values(table, entry))
    requires Shaped(Values(table, exit))
    requires Droppable(n, outUse, entry, exit) && ExecList(n.stmts, st, p) == Next(t)
    requires Describes(Values(table, entry), st, p) && Describes(Values(table, exit), t, p)
    ensures Replaces(n, n.(stmts := []), outUse, st, p)
  {
    hide Meaning, Compare, Ordered;
    if !IsLeaf(n) {
      assert Val(st, A_ATOM) == Val(t, A_ATOM) && Val(st, X_ATOM) == Val(t, X_ATOM);
      assert st.a == t.a && st.x == t.x;
    }
  }

  // ------------------------------------------------------------ promoted edges

  /** A run that enters q goes on as the run it is. */
  lemma {:induction false} EntryIsOnRun(g: Graph, rank: seq<nat>, root: nat, st0: State, p: Packet, vs: seq<Visit>,
                                        c: nat, st: State,
                                        q: nat, u: State, t: State) returns (ws: seq<Visit>)
    requires Ranked(g, rank) && root < |g| && c < |g| && q < |g|
    requires if vs == [] then c == root && st == st0
             else IsRun(g, root, st0, p, vs) && var v := vs[|vs| - 1];
                  v.block < |g| && !IsLeaf(g[v.block]) && c == Successor(g[v.block], Taken(g[v.block].s, v.st)) &&
                    st == v.st
    requires EntersWith(g, rank, c, st, p, q) == Some(u) && ExecList(g[q].stmts, u, p) == Next(t)
    ensures IsRun(g, root, st0, p, ws) && ws[|ws| - 1] == Visit(q, t) && |ws| > |vs|
    decreases rank[c]
  {
    hide ExecList, Taken;
    var t' := ExecList(g[c].stmts, st, p).st;
    var w := Visit(c, t');
    ws := vs + [w];
    if vs != [] { RunMore(g, root, st0, p, vs, w); } else { assert ws == [w]; }
    if c != q {
      ws := EntryIsOnRun(g, rank, root, st0, p, ws, Successor(g[c], Taken(g[c].s, t')), t', q, u, t);
    }
  }

  /** The numbers opt_blk gives a block on entry describe every state a run enters it in. */
  lemma {:induction false} EntersDescribed(g: Graph, rank: seq<nat>, root: nat, ns: Numbers, alter: bool,
                                           inEdges: seq<seq<nat>>,
                                           from: seq<nat>, st0: State, p: Packet, vs: seq<Visit>, c: nat, st: State,
                                           b: nat, u: State)
    requires Ranked(g, rank) && root < |g| && InEdgesOf(g, inEdges, Below(g, rank, root)) && c < |g| && b < |g|
    requires NumbersOk(g, ns, alter, inEdges, from, Below(g, rank, root))
    requires AllKnown(g, ns, alter, inEdges, from, Below(g, rank, root))
    requires if vs == [] then c == root && st == st0
             else IsRun(g, root, st0, p, vs) && var v := vs[|vs| - 1];
                  v.block < |g| && !IsLeaf(g[v.block]) && c == Successor(g[v.block], Taken(g[v.block].s, v.st)) &&
                    st == v.st
    requires EntersWith(g, rank, c, st, p, b) == Some(u)
    ensures b in Below(g, rank, root) && from[b] <= |ns.table|
    ensures Shaped(EntryOf(ns, inEdges[b], from[b])) && Describes(EntryOf(ns, inEdges[b], from[b]), u, p)
    decreases rank[c]
  {
    hide ExecList, Taken, Below, Described, Describes, Shaped, Numbered, Distinct, Ordered, AllInRange, AllKnown,
         InEdgesOf, Entry;
    if c == b {
      if vs == [] {
        FirstEntry(g, rank, root, ns, alter, inEdges, from, st0, p);
      } else {
        RunsAreDescribed(g, rank, root, ns, alter, inEdges, from, st0, p, vs);
        NextEntry(g, rank, root, ns, alter, inEdges, from, vs[|vs| - 1], p);
      }
    } else {
      var t := ExecList(g[c].stmts, st, p).st;
      var w := Visit(c, t);
      var ws := vs + [w];
      if vs != [] { RunMore(g, root, st0, p, vs, w); } else { assert ws == [w]; }
      EntersDescribed(g, rank, root, ns, alter, inEdges, from, st0, p, ws, Successor(g[c], Taken(g[c].s, t)), t, b, u);
    }
  }

  /** ... and those on leaving it every state it then leaves it in. */
  lemma LeavesDescribed(g: Graph, rank: seq<nat>, root: nat, ns: Numbers, alter: bool, inEdges: seq<seq<nat>>,
                        from: seq<nat>,
                        st: State, p: Packet, b: nat, u: State, t: State)
    requires Ranked(g, rank) && root < |g| && InEdgesOf(g, inEdges, Below(g, rank, root)) && b < |g|
    requires NumbersOk(g, ns, alter, inEdges, from, Below(g, rank, root))
    requires AllKnown(g, ns, alter, inEdges, from, Below(g, rank, root))
    requires EntersWith(g, rank, root, st, p, b) == Some(u) && ExecList(g[b].stmts, u, p) == Next(t)
    ensures Described(ns, Visit(b, t), p)
  {
    hide ExecList, Taken, Below, Described, Numbered, Distinct, Ordered, AllInRange, AllKnown, InEdgesOf;
    var ws := EntryIsOnRun(g, rank, root, st, p, [], root, st, b, u, t);
    RunsAreDescribed(g, rank, root, ns, alter, inEdges, from, st, p, ws);
  }

  /** Peephole rewriting of one block with the numbers opt_blk gives it preserves the result of the graph: constants
      hold on every run, so all that is left to ask of the run is that the fusions made are right. */
  lemma NumberedPeepPreserves(g: Graph, rank: seq<nat>, root: nat, ns: Numbers, inEdges: seq<seq<nat>>, from: seq<nat>,
                              inUse: seq<set<nat>>, outUse: seq<set<nat>>, o: seq<nat>, b: nat,
                              es: seq<P.Edit>, ss: seq<Stmt>, last: nat, st: State, p: Packet)
    requires Ranked(g, rank) && root < |g| && InEdgesOf(g, inEdges, Below(g, rank, root))
    requires NumbersOk(g, ns, false, inEdges, from, Below(g, rank, root))
    requires AllKnown(g, ns, false, inEdges, from, Below(g, rank, root))
    requires Placed(g, o) && Live(g, inUse, outUse, o) && ReturnsCounted(g, o)
    requires b in o && root in o && b < |g| == |outUse| && !IsLeaf(g[b]) && last < |ss|
    requires P.Rewrites(g[b].stmts, es, ss) && P.LastReal(ss, last)
    requires match EntersWith(g, rank, root, st, p, b)
             case Some(u) => PeepSafe(g[b], outUse[b], Values(ns.table, ns.val[b]), es, ss, last, u, p)
             case None => true
    requires RunGraph(g, rank, root, st, p).Return?
    ensures var g' := g[b := P.PeepBranch(g[b].(stmts := ss), last, outUse[b], Values(ns.table, ns.val[b]))];
            Ranked(g', rank) && RunGraph(g', rank, root, st, p) == RunGraph(g, rank, root, st, p)
  {
    hide ExecList, Placed, Live, P.Rewrites, P.LastReal, RunGraph, P.Safe, P.MergeCompare, P.Mergeable, Below, Numbered,
         Distinct, Ordered, AllInRange, AllKnown, InEdgesOf, ReturnsCounted, Describes, Shaped, P.ConstsHold;
    var v := Values(ns.table, ns.val[b]);
    match EntersWith(g, rank, root, st, p, b) {
      case None =>
      case Some(u) =>
        EntersDescribed(g, rank, root, ns, false, inEdges, from, st, p, [], root, st, b, u);
        SwallowedNumber(g, ns, inEdges[b], from[b], b, es, ss, last, outUse[b]);
        match ExecList(g[b].stmts, u, p) {
          case Next(t) =>
            LeavesDescribed(g, rank, root, ns, false, inEdges, from, st, p, b, u, t);
            P.DescribedConsts(v, t, p);
          case _ =>
        }
    }
    PeepPreserves(g, rank, inUse, outUse, o, b, v, es, ss, last, root, st, p);
  }

  lemma SwallowedNumber(g: Graph, ns: Numbers, es: seq<nat>, m: nat, b: nat, edits: seq<P.Edit>, ss: seq<Stmt>,
                        last: nat, outUse: set<nat>)
    requires b < |g| == |ns.val| == |ns.oval| && ValsOk(ns.val) && AllInRange(g[b].stmts) && EdgesIn(|g|, es)
    requires Numbered(g, ns, false, es, m, b) && P.Rewrites(g[b].stmts, edits, ss) && P.LastReal(ss, last)
    ensures P.Mergeable(g[b].(stmts := ss), last, outUse) ==> !IsConst(ns.table, ns.val[b][A_ATOM])
  {
    hide P.Rewrites, P.LastReal, OptList, AllInRange, Ordered, Entry;
    P.LastInside(ss, last);
    if P.Mergeable(g[b].(stmts := ss), last, outUse) {
      P.RewritesKeepLast(g[b].stmts, edits, ss, last);
      P.SwallowedIsNotConstant(EntryOf(ns, es, m), g[b].stmts, last);
    }
  }

  /** The conditions on the run that are left. */
  ghost predicate PeepSafe(n: Node, outUse: set<nat>, v: Values, es: seq<P.Edit>, ss: seq<Stmt>, last: nat, st: State,
                           p: Packet)
    requires n.s.code.Jmp? && |v.val| == N_ATOMS && last < |ss|
  {
    match ExecList(n.stmts, st, p)
    case Next(t) =>
      && P.Safe(n.stmts, es, P.PeepNeeds(n.(stmts := ss), last, outUse), st, p)
      && (P.MergeCompare(n.(stmts := ss), last, outUse, v).s == Stmt(Jmp(Jset, K), P.ALL_ONES) ==> t.a != 0)
    case _ => true
  }

  /** Without a fusion and without jset #ffffffff nothing is asked of the run. */
  lemma PairPeepPreserves(g: Graph, rank: seq<nat>, root: nat, ns: Numbers, inEdges: seq<seq<nat>>, from: seq<nat>,
                          inUse: seq<set<nat>>, outUse: seq<set<nat>>, o: seq<nat>, b: nat,
                          es: seq<P.Edit>, ss: seq<Stmt>, last: nat, st: State, p: Packet)
    requires Ranked(g, rank) && root < |g| && InEdgesOf(g, inEdges, Below(g, rank, root))
    requires NumbersOk(g, ns, false, inEdges, from, Below(g, rank, root))
    requires AllKnown(g, ns, false, inEdges, from, Below(g, rank, root))
    requires Placed(g, o) && Live(g, inUse, outUse, o) && ReturnsCounted(g, o)
    requires b in o && root in o && b < |g| == |outUse| && !IsLeaf(g[b]) && last < |ss|
    requires P.Rewrites(g[b].stmts, es, ss) && P.LastReal(ss, last) && P.OnlyPairs(es)
    requires P.MergeCompare(g[b].(stmts := ss), last, outUse[b], Values(ns.table, ns.val[b])).s !=
             Stmt(Jmp(Jset, K), P.ALL_ONES)
    requires RunGraph(g, rank, root, st, p).Return?
    ensures var g' := g[b := P.PeepBranch(g[b].(stmts := ss), last, outUse[b], Values(ns.table, ns.val[b]))];
            Ranked(g', rank) && RunGraph(g', rank, root, st, p) == RunGraph(g, rank, root, st, p)
  {
    hide ExecList, Placed, Live, P.Rewrites, P.LastReal, RunGraph, P.Safe, P.MergeCompare, P.Mergeable, Below, Numbered,
         Distinct, Ordered, AllInRange, AllKnown, InEdgesOf, ReturnsCounted, P.PeepBranch, P.OnlyPairs;
    var needs := P.PeepNeeds(g[b].(stmts := ss), last, outUse[b]);
    forall u: State ensures P.Safe(g[b].stmts, es, needs, u, p) { P.PairsAreSafe(g[b].stmts, es, ss, needs, u, p); }
    NumberedPeepPreserves(g, rank, root, ns, inEdges, from, inUse, outUse, o, b, es, ss, last, st, p);
  }

  /** Dropping all statements of a droppable block, with the numbers opt_blk gives it, preserves the result of the
      graph. */
  lemma DropPreserves(g: Graph, rank: seq<nat>, root: nat, ns: Numbers, alter: bool, inEdges: seq<seq<nat>>,
                      from: seq<nat>,
                      inUse: seq<set<nat>>, outUse: seq<set<nat>>, o: seq<nat>, b: nat, st: State, p: Packet)
    requires Ranked(g, rank) && root < |g| && InEdgesOf(g, inEdges, Below(g, rank, root))
    requires NumbersOk(g, ns, alter, inEdges, from, Below(g, rank, root))
    requires AllKnown(g, ns, alter, inEdges, from, Below(g, rank, root))
    requires Placed(g, o) && Live(g, inUse, outUse, o) && ReturnsCounted(g, o)
    requires b in o && root in o && b < |g| == |outUse| && (IsLeaf(g[b]) ==> g[b].s.code.RetK?)
    requires EdgesIn(|g|, inEdges[b]) && Droppable(g[b], outUse[b], Entry(ns.val, inEdges[b]), ns.val[b])
    requires RunGraph(g, rank, root, st, p).Return?
    ensures var g' := g[b := g[b].(stmts := [])];
            Ranked(g', rank) && RunGraph(g', rank, root, st, p) == RunGraph(g, rank, root, st, p)
  {
    hide ExecList, Placed, Live, RunGraph, Below, Numbered, Distinct, Ordered, AllInRange, AllKnown, InEdgesOf,
         ReturnsCounted,
         Droppable, Entry, Describes, Shaped;
    var g' := g[b := g[b].(stmts := [])];
    DroppedIsRanked(g, rank, b);
    match EntersWith(g, rank, root, st, p, b) {
      case None =>
      case Some(u) =>
        EntersDescribed(g, rank, root, ns, alter, inEdges, from, st, p, [], root, st, b, u);
        match ExecList(g[b].stmts, u, p) {
          case Next(t) =>
            LeavesDescribed(g, rank, root, ns, alter, inEdges, from, st, p, b, u, t);
            SmallerTable(ns.table, from[b], Entry(ns.val, inEdges[b]), u, p);
            DroppedReplaces(g[b], outUse[b], ns.table, Entry(ns.val, inEdges[b]), ns.val[b], u, t, p);
          case _ =>
        }
    }
    ReplacePreserves(g, rank, g', inUse, outUse, o, b, root, st, p);
  }

  lemma DroppedIsRanked(g: Graph, rank: seq<nat>, b: nat)
    requires Ranked(g, rank) && b < |g|
    ensures Ranked(g[b := g[b].(stmts := [])], rank)
  {
    var g' := g[b := g[b].(stmts := [])];
    forall c | 0 <= c < |g| ensures NodeOk(g'[c], |g|) { assert NodeOk(g[c], |g|); }
  }

  /** What opt_j would have to compare: every register live at the target leaves both blocks with the same known
      number. */
  ghost predicate GuardHolds(ns: Numbers, live: set<nat>, q: nat, child: nat)
    requires q < |ns.val| && child < |ns.val| && ValsOk(ns.val)
  {
    forall a :: 0 <= a < N_ATOMS && a in live ==> ns.val[q][a] == ns.val[child][a] != UNKNOWN
  }

  /** On the packet, what the numbers say of the registers live at the target is the same in both blocks. */
  ghost predicate SaysSame(ns: Numbers, live: set<nat>, q: nat, child: nat, p: Packet)
    requires q < |ns.val| && child < |ns.val| && ValsOk(ns.val)
  {
    forall a :: 0 <= a < N_ATOMS && a in live ==>
                  Meaning(ns.table, ns.val[q][a], p).Some? &&
                  Meaning(ns.table, ns.val[q][a], p) == Meaning(ns.table, ns.val[child][a], p)
  }

  /** Exactly when the numbers make the two blocks leave the live registers alike: any state they describe after q
      agrees with any they describe after the child just if what they say of these registers is the same. The guard
      suffices. */
  lemma GuardExact(ns: Numbers, live: set<nat>, q: nat, child: nat, s0: State, t0: State, p: Packet)
    requires q < |ns.val| && child < |ns.val| && ValsOk(ns.val)
    requires Described(ns, Visit(q, s0), p) && Described(ns, Visit(child, t0), p)
    ensures GuardHolds(ns, live, q, child) ==> SaysSame(ns, live, q, child, p)
    ensures (forall s, t :: Described(ns, Visit(q, s), p) && Described(ns, Visit(child, t), p) ==> Agree(t, s, live))
            <==> SaysSame(ns, live, q, child, p)
  {
    hide Described, Meaning, Val;
    if GuardHolds(ns, live, q, child) {
      forall a | 0 <= a < N_ATOMS && a in live ensures Meaning(ns.table, ns.val[q][a], p).Some?
        { AtomMeans(ns, q, s0, a, p); }
    }
    if SaysSame(ns, live, q, child, p) {
      forall s, t | Described(ns, Visit(q, s), p) && Described(ns, Visit(child, t), p) ensures Agree(t, s, live) {
        SameAgrees(ns, live, q, child, s, t, p);
      }
    } else {
      var a :| 0 <= a < N_ATOMS && a in live &&
               !(Meaning(ns.table, ns.val[q][a], p).Some? &&
                 Meaning(ns.table, ns.val[q][a], p) == Meaning(ns.table, ns.val[child][a], p));
      var s, t := Disagreement(ns, q, child, s0, t0, a, p);
    }
  }

  lemma AtomMeans(ns: Numbers, b: nat, st: State, a: nat, p: Packet)
    requires b < |ns.val| && ValsOk(ns.val) && Described(ns, Visit(b, st), p) && a < N_ATOMS
    ensures Meaning(ns.table, ns.val[b][a], p) == if ns.val[b][a] == UNKNOWN then None else Some(Val(st, a))
  {
  }

  lemma SameAgrees(ns: Numbers, live: set<nat>, q: nat, child: nat, s: State, t: State, p: Packet)
    requires q < |ns.val| && child < |ns.val| && ValsOk(ns.val)
    requires Described(ns, Visit(q, s), p) && Described(ns, Visit(child, t), p) && SaysSame(ns, live, q, child, p)
    ensures Agree(t, s, live)
  {
    hide Described, Meaning, Val;
    forall a | a in live && a < N_ATOMS ensures Val(t, a) == Val(s, a) {
      AtomMeans(ns, q, s, a, p);
      AtomMeans(ns, child, t, a, p);
    }
  }

  /** Where they do not say the same of a register, described states differ in it. */
  lemma Disagreement(ns: Numbers, q: nat, child: nat, s0: State, t0: State, a: nat, p: Packet)
    returns (s: State, t: State)
    requires q < |ns.val| && child < |ns.val| && ValsOk(ns.val) && a < N_ATOMS
    requires Described(ns, Visit(q, s0), p) && Described(ns, Visit(child, t0), p)
    requires !(Meaning(ns.table, ns.val[q][a], p).Some? &&
             Meaning(ns.table, ns.val[q][a], p) == Meaning(ns.table, ns.val[child][a], p))
    ensures Described(ns, Visit(q, s), p) && Described(ns, Visit(child, t), p) && Val(s, a) != Val(t, a)
  {
    hide Described, Meaning, Val, Put;
    AtomMeans(ns, q, s0, a, p);
    AtomMeans(ns, child, t0, a, p);
    s, t := s0, t0;
    var w: Word := if Val(t0, a) == 0 then 1 else 0;
    var w': Word := if Val(s0, a) == 0 then 1 else 0;
    PutFacts(s0, a, w);
    PutFacts(t0, a, w');
    if ns.val[q][a] == UNKNOWN {
      s := Put(s0, a, w);
      UnknownIsFree(ns, q, s0, a, w, p);
    } else if ns.val[child][a] == UNKNOWN {
      t := Put(t0, a, w');
      UnknownIsFree(ns, child, t0, a, w', p);
    }
  }

  /** A run that leaves q for the child and returns goes through the child, and with the guard leaves the live registers
      as they were. */
  lemma GuardedRun(g: Graph, rank: seq<nat>, root: nat, ns: Numbers, inEdges: seq<seq<nat>>, from: seq<nat>,
                   live: set<nat>,
                   q: nat, sense: bool, st: State, s: State, p: Packet) returns (vs: seq<Visit>, w: Visit)
    requires Ranked(g, rank) && root < |g| && InEdgesOf(g, inEdges, Below(g, rank, root))
    requires NumbersOk(g, ns, false, inEdges, from, Below(g, rank, root))
    requires AllKnown(g, ns, false, inEdges, from, Below(g, rank, root))
    requires q < |g| && !IsLeaf(g[q]) && GuardHolds(ns, live, q, Successor(g[q], sense))
    requires LeavesWith(g, rank, root, st, p, q, sense) == Some(s) && RunGraph(g, rank, root, st, p).Return?
    ensures IsRun(g, root, st, p, vs) && |vs| > 1 && vs[|vs| - 1] == w && vs[|vs| - 2] == Visit(q, s)
    ensures w.block == Successor(g[q], sense) && ExecList(g[w.block].stmts, s, p) == Next(w.st) && Agree(w.st, s, live)
    ensures Taken(g[q].s, s) == sense
  {
    hide ExecList, Below, Taken, Numbered, Distinct, Ordered, AllInRange, AllKnown, InEdgesOf, GuardHolds, Described,
         IsRun, Agree;
    var child := Successor(g[q], sense);
    var u := EntersWith(g, rank, root, st, p, q).value;
    var run := EntryIsOnRun(g, rank, root, st, p, [], root, st, q, u, s);
    RunFollows(g, rank, root, st, p, run);
    assert RunGraph(g, rank, child, s, p).Return?;
    w := Visit(child, ExecList(g[child].stmts, s, p).st);
    RunMore(g, root, st, p, run, w);
    vs := run + [w];
    RunsAreDescribed(g, rank, root, ns, false, inEdges, from, st, p, run);
    RunsAreDescribed(g, rank, root, ns, false, inEdges, from, st, p, vs);
    GuardExact(ns, live, q, child, s, w.st, p);
  }

  /** Promoting an edge to the child fold_edge picks preserves the result of every run that is not rejected, with the
      numbers opt_blk gives, if the pick is certain and the guard holds for what is live at the new target. */
  lemma FoldPreserves(g: Graph, rank: seq<nat>, root: nat, ns: Numbers, inEdges: seq<seq<nat>>, from: seq<nat>,
                      inUse: seq<set<nat>>, outUse: seq<set<nat>>, o: seq<nat>, e: nat, q: nat, sense: bool, st: State,
                      p: Packet)
    requires Ranked(g, rank) && root < |g| && InEdgesOf(g, inEdges, Below(g, rank, root))
    requires NumbersOk(g, ns, false, inEdges, from, Below(g, rank, root))
    requires AllKnown(g, ns, false, inEdges, from, Below(g, rank, root))
    requires Placed(g, o) && Live(g, inUse, outUse, o) && ReturnsCounted(g, o) && root in o && q in o
    requires q < |g| == |inUse| && !IsLeaf(g[q]) && e < 2 * |g| && EdgeDominates(g, root, e, EdgeId(|g|, q, sense))
    requires var child := Successor(g[q], sense);
             && 0 <= child < |g| && !IsLeaf(g[child]) && FoldSense(g, ns, child, e).Some? &&
               FoldCertain(g, ns, child, e, p)
             && GuardHolds(ns, inUse[FoldEdge(g, ns, child, e)], q, child)
    requires RunGraph(g, rank, root, st, p).Return?
    ensures var g' := g[q := SetBranch(g[q], sense, FoldEdge(g, ns, Successor(g[q], sense), e))];
            Ranked(g', rank) && RunGraph(g', rank, root, st, p) == RunGraph(g, rank, root, st, p)
  {
    hide ExecList, Placed, Live, Below, Taken, RunGraph, EdgeDominates, Numbered, Distinct, Ordered, AllInRange,
         AllKnown,
         InEdgesOf, Agree, FoldSense, FoldCertain, GuardHolds, IsRun, ReturnsCounted;
    var child := Successor(g[q], sense);
    var to := FoldEdge(g, ns, child, e);
    SuccessorsPlaced(g, o, q);
    SuccessorsPlaced(g, o, child);
    MovedIsRanked(g, rank, q, sense, to);
    match LeavesWith(g, rank, root, st, p, q, sense) {
      case None =>
      case Some(s) =>
        var vs, w := GuardedRun(g, rank, root, ns, inEdges, from, inUse[to], q, sense, st, s, p);
        FoldIsRight(g, rank, root, ns, inEdges, from, st, p, vs, e, EdgeId(|g|, q, sense));
    }
    MovePreserves(g, rank, inUse, outUse, o, q, sense, to, root, st, p);
  }

  /** Passing over a block whose branches lead to one place does so too. */
  lemma CommonTargetPreserves(g: Graph, rank: seq<nat>, root: nat, ns: Numbers, inEdges: seq<seq<nat>>, from: seq<nat>,
                              inUse: seq<set<nat>>, outUse: seq<set<nat>>, o: seq<nat>, q: nat, sense: bool, st: State,
                              p: Packet)
    requires Ranked(g, rank) && root < |g| && InEdgesOf(g, inEdges, Below(g, rank, root))
    requires NumbersOk(g, ns, false, inEdges, from, Below(g, rank, root))
    requires AllKnown(g, ns, false, inEdges, from, Below(g, rank, root))
    requires Placed(g, o) && Live(g, inUse, outUse, o) && ReturnsCounted(g, o) && root in o && q in o
    requires q < |g| == |inUse| && !IsLeaf(g[q])
    requires var child := Successor(g[q], sense);
             && 0 <= child < |g| && !IsLeaf(g[child]) && g[child].jt == g[child].jf &&
               GuardHolds(ns, inUse[g[child].jt], q, child)
    requires RunGraph(g, rank, root, st, p).Return?
    ensures var g' := g[q := SetBranch(g[q], sense, g[Successor(g[q], sense)].jt)];
            Ranked(g', rank) && RunGraph(g', rank, root, st, p) == RunGraph(g, rank, root, st, p)
  {
    hide ExecList, Placed, Live, Below, Taken, RunGraph, Numbered, Distinct, Ordered, AllInRange, AllKnown,
         InEdgesOf, Agree, GuardHolds, IsRun, ReturnsCounted;
    var child := Successor(g[q], sense);
    var to := g[child].jt;
    SuccessorsPlaced(g, o, q);
    SuccessorsPlaced(g, o, child);
    MovedIsRanked(g, rank, q, sense, to);
    match LeavesWith(g, rank, root, st, p, q, sense) {
      case None =>
      case Some(s) =>
        var vs, w := GuardedRun(g, rank, root, ns, inEdges, from, inUse[to], q, sense, st, s, p);
    }
    MovePreserves(g, rank, inUse, outUse, o, q, sense, to, root, st, p);
  }

  lemma MovedIsRanked(g: Graph, rank: seq<nat>, q: nat, sense: bool, to: nat)
    requires Ranked(g, rank) && q < |g| && !IsLeaf(g[q]) && to < |g|
    requires var child := Successor(g[q], sense); !IsLeaf(g[child]) && (to == g[child].jt || to == g[child].jf)
    ensures rank[to] < rank[q] && Ranked(g[q := SetBranch(g[q], sense, to)], rank)
  {
    var g' := g[q := SetBranch(g[q], sense, to)];
    forall c | 0 <= c < |g| ensures NodeOk(g'[c], |g|) { assert NodeOk(g[c], |g|); }
  }

  // The guard opt_j uses instead compares what the two blocks leave in the registers live on exit from
  // the new target. It does not look at what the target itself reads.

  predicate UseConflict(ns: Numbers, outUse: seq<set<nat>>, b: nat, succ: nat)
    requires b < |ns.val| && succ < |ns.val| && succ < |outUse| && ValsOk(ns.val)
  {
    exists a :: 0 <= a < N_ATOMS && a in outUse[succ] && ns.val[b][a] != ns.val[succ][a]
  }
}
