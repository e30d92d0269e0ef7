/** The numbers opt_blk gives to blocks of a few statements. */
module ShortBlocks {
  import opened Words
  import opened Machine
  import opened FlowGraph
  import opened Dominators
  import opened Liveness
  import opened ValueNumbers
  import opened ValueRewrite
  import opened BlockValues

  /** The number n stands for the value of the key. */
  ghost predicate Names(t: Table, n: nat, k: Key) { 0 < n <= |t| && t[n - 1] == k }

  lemma NamesOne(t: Table, n: nat, n': nat, k: Key)
    requires Distinct(t) && Names(t, n, k) && Names(t, n', k)
    ensures n == n'
  {
  }

  /** A load that computes from no register: where its number goes, and what it means. */
  predicate Plain(s: Stmt) { s.code.LdAbs? || s.code.LdxMsh? || s.code.LdLen? }

  function PlainKey(s: Stmt): Key { Key(s.code, if s.code.LdLen? then 0 else s.k, 0) }
  function PlainAtom(s: Stmt): nat { if s.code.LdxMsh? then X_ATOM else A_ATOM }

  lemma PlainStep(v: Values, s: Stmt)
    requires |v.val| == N_ATOMS && Plain(s)
    ensures var r := OptStmt(v, s, false);
            && r.Becomes? && |r.v.val| == N_ATOMS && v.table <= r.v.table
            && (forall a :: 0 <= a < N_ATOMS && a != PlainAtom(s) ==> r.v.val[a] == v.val[a])
            && Names(r.v.table, r.v.val[PlainAtom(s)], PlainKey(s))
  {
    hide Find;
  }

  /** One statement of a list that is numbered and left as it is. */
  lemma FirstNumbered(v: Values, ss: seq<Stmt>)
    requires |v.val| == N_ATOMS && AllInRange(ss) && ss != []
    ensures AllInRange(ss[1..]) && OptStmt(v, ss[0], false).Becomes? && |OptStmt(v, ss[0], false).v.val| == N_ATOMS
    ensures OptList(v, ss, false).Block? <==> OptList(OptStmt(v, ss[0], false).v, ss[1..], false).Block?
    ensures OptList(v, ss, false).Block? ==>
            OptList(v, ss, false).v == OptList(OptStmt(v, ss[0], false).v, ss[1..], false).v
  {
    hide OptAluK, OptAluX, OptLoad;
    StaysNumbered(v, ss[0]);
    OptKeepsSize(v, ss[0], false);
  }

  lemma StaysNumbered(v: Values, s: Stmt)
    requires |v.val| == N_ATOMS && InRange(s)
    ensures OptStmt(v, s, false).Becomes?
  {
    hide Find;
  }

  /** What a block that carries the numbers of opt_blk leaves, in terms of what it was entered with. */
  lemma BlockNumbers(g: Graph, ns: Numbers, inEdges: seq<seq<nat>>, from: seq<nat>, blocks: set<nat>, b: nat)
    requires NumbersOk(g, ns, false, inEdges, from, blocks) && b in blocks
    ensures b < |g| && EdgesIn(|g|, inEdges[b]) && from[b] <= |ns.table|
    ensures var r := OptList(EntryOf(ns, inEdges[b], from[b]), g[b].stmts, false);
            r.Block? && r.v.val == ns.val[b] && r.v.table <= ns.table
    ensures OperandNumber(ns.table, g[b].s, ns.val[b], ns.oval[b])
  {
    hide OptList, Distinct, Ordered, Shaped, Entry, OperandNumber;
    assert Numbered(g, ns, false, inEdges[b], from[b], b);
  }

  /** A block of loads: each register it sets has the number of what it loads, the others that of entry. */
  lemma OneLoad(g: Graph, ns: Numbers, inEdges: seq<seq<nat>>, from: seq<nat>, blocks: set<nat>, b: nat, s: Stmt)
    requires NumbersOk(g, ns, false, inEdges, from, blocks) && b in blocks && b < |g| && g[b].stmts == [s] && Plain(s)
    ensures Names(ns.table, ns.val[b][PlainAtom(s)], PlainKey(s)) && EdgesIn(|g|, inEdges[b])
    ensures forall a :: 0 <= a < N_ATOMS && a != PlainAtom(s) ==> ns.val[b][a] == Entry(ns.val, inEdges[b])[a]
  {
    hide OptStmt, OptList, Distinct, Ordered, Entry, Numbered, OperandNumber, AllInRange;
    BlockNumbers(g, ns, inEdges, from, blocks, b);
    var v := EntryOf(ns, inEdges[b], from[b]);
    FirstNumbered(v, [s]);
    PlainStep(v, s);
    EmptyNumbered(OptStmt(v, s, false).v);
  }

  lemma TwoLoads(g: Graph, ns: Numbers, inEdges: seq<seq<nat>>, from: seq<nat>, blocks: set<nat>, b: nat, s: Stmt,
                 s': Stmt)
    requires NumbersOk(g, ns, false, inEdges, from, blocks) && b in blocks && b < |g| && g[b].stmts == [s, s']
    requires Plain(s) && Plain(s')
    requires PlainAtom(s) != PlainAtom(s')
    ensures Names(ns.table, ns.val[b][PlainAtom(s)], PlainKey(s))
    ensures Names(ns.table, ns.val[b][PlainAtom(s')], PlainKey(s'))
  {
    hide OptStmt, OptList, Distinct, Ordered, Entry, Numbered, OperandNumber, AllInRange;
    BlockNumbers(g, ns, inEdges, from, blocks, b);
    var v := EntryOf(ns, inEdges[b], from[b]);
    FirstNumbered(v, [s, s']);
    PlainStep(v, s);
    var v1 := OptStmt(v, s, false).v;
    assert [s, s'][1..] == [s'];
    FirstNumbered(v1, [s']);
    PlainStep(v1, s');
    EmptyNumbered(OptStmt(v1, s', false).v);
  }

  lemma EmptyNumbered(v: Values)
    requires |v.val| == N_ATOMS
    ensures forall s: Stmt {:trigger [s]} :: [s][1..] == []
    ensures AllInRange([]) && OptList(v, [], false) == Block(v, [])
  {
  }

  lemma NumbersSized(g: Graph, ns: Numbers, inEdges: seq<seq<nat>>, from: seq<nat>, blocks: set<nat>)
    requires NumbersOk(g, ns, false, inEdges, from, blocks)
    ensures |g| == |ns.val| == |ns.oval| && ValsOk(ns.val)
  {
  }

  lemma InEdgesSized(g: Graph, inEdges: seq<seq<nat>>, blocks: set<nat>)
    requires InEdgesOf(g, inEdges, blocks)
    ensures |inEdges| == |g|
  {
  }

  /** The accumulator's number on leaving each block. */
  function AccNumbers(ns: Numbers): (r: seq<nat>)
    requires ValsOk(ns.val)
    ensures |r| == |ns.val| && forall b :: 0 <= b < |r| ==> r[b] == ns.val[b][A_ATOM]
  {
    seq(|ns.val|, b requires 0 <= b < |ns.val| && ValsOk(ns.val) => ns.val[b][A_ATOM])
  }
}
