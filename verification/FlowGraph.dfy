/**
 * The control-flow graph the compiler builds and the optimizer rewrites.
 * Block pointers are indices into the graph; NIL is the null pointer.
 */
module FlowGraph {
  import opened Words
  import opened Machine

  const NIL: int := -1

  /** A block: side-effect statements, the closing branch or return, and the two successors. */
  datatype Node = Node(stmts: seq<Stmt>, s: Stmt, jt: int, jf: int)
  type Graph = seq<Node>

  predicate IsLeaf(n: Node) { n.jt == NIL }

  predicate NodeOk(n: Node, size: nat)
  {
    if IsLeaf(n) then n.jf == NIL && (n.s.code.RetK? || n.s.code.RetA?)
    else 0 <= n.jt < size && 0 <= n.jf < size && n.s.code.Jmp?
  }

  predicate WellFormed(g: Graph)
  {
    forall b :: 0 <= b < |g| ==> NodeOk(g[b], |g|)
  }

  /** Acyclicity: a rank that falls along every edge. */
  predicate Ranked(g: Graph, rank: seq<nat>)
  {
    |rank| == |g| && WellFormed(g) &&
    forall b :: 0 <= b < |g| && !IsLeaf(g[b]) ==> rank[g[b].jt] < rank[b] && rank[g[b].jf] < rank[b]
  }

  /** A graph whose statement lists hold no jumps. */
  predicate StraightLine(g: Graph)
  {
    forall b, i :: 0 <= b < |g| && 0 <= i < |g[b].stmts| ==> Straight(g[b].stmts[i].code)
  }

  function LeafResult(s: Stmt, st: State): Result
  {
    if s.code.RetA? then Return(st.a) else Return(s.k)
  }

  function Successor(n: Node, taken: bool): int { if taken then n.jt else n.jf }

  /** The meaning of the graph from block b on. */
  function RunGraph(g: Graph, ghost rank: seq<nat>, b: nat, st: State, p: Packet): Result
    requires Ranked(g, rank) && b < |g|
    decreases rank[b]
  {
    match ExecList(g[b].stmts, st, p)
    case Reject => Rejected
    case Trapping(t) => Trapped(t)
    case Next(st') =>
      if IsLeaf(g[b]) then LeafResult(g[b].s, st')
      else RunGraph(g, rank, Successor(g[b], Taken(g[b].s, st')), st', p)
  }

  lemma {:induction false} RankIrrelevant(g: Graph, r0: seq<nat>, r1: seq<nat>, b: nat, st: State, p: Packet)
    requires Ranked(g, r0) && Ranked(g, r1) && b < |g|
    ensures RunGraph(g, r0, b, st, p) == RunGraph(g, r1, b, st, p)
    decreases r0[b]
  {
    match ExecList(g[b].stmts, st, p)
    case Next(st') =>
      if !IsLeaf(g[b]) {
        RankIrrelevant(g, r0, r1, Successor(g[b], Taken(g[b].s, st')), st', p);
      }
    case _ =>
  }

  /** The blocks reachable from b. */
  ghost function Below(g: Graph, rank: seq<nat>, b: nat): set<nat>
    requires Ranked(g, rank) && b < |g|
    decreases rank[b]
  {
    if IsLeaf(g[b]) then {b}
    else {b} + Below(g, rank, g[b].jt) + Below(g, rank, g[b].jf)
  }

  lemma {:induction false} BelowBasics(g: Graph, rank: seq<nat>, b: nat, c: nat)
    requires Ranked(g, rank) && b < |g| && c in Below(g, rank, b)
    ensures c < |g| && rank[c] <= rank[b] && (rank[c] == rank[b] ==> c == b)
    ensures Below(g, rank, c) <= Below(g, rank, b)
    decreases rank[b]
  {
    if c != b {
      if c in Below(g, rank, g[b].jt) {
        BelowBasics(g, rank, g[b].jt, c);
      } else {
        BelowBasics(g, rank, g[b].jf, c);
      }
    }
  }
}
