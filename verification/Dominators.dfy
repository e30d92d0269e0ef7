/**
 * The level-ordered passes of the optimizer compute what their names promise:
 * dominators, edge dominators and the backward closure of the flow graph.
 */
module Dominators {
  import opened Machine
  import opened FlowGraph
  import opened Layout
  import opened Levels
  import opened Paths

  predicate Links(g: Graph, q: nat, b: nat)
  {
    q < |g| && !IsLeaf(g[q]) && (g[q].jt == b || g[q].jf == b)
  }

  lemma {:induction false} ReachedByPred(g: Graph, rank: seq<nat>, c: nat, b: nat) returns (q: nat)
    requires Ranked(g, rank) && c < |g| && b in Below(g, rank, c) && b != c
    ensures q in Below(g, rank, c) && Links(g, q, b)
    decreases rank[c]
  {
    var next := if b in Below(g, rank, g[c].jt) then g[c].jt else g[c].jf;
    if b == next {
      q := c;
    } else {
      q := ReachedByPred(g, rank, next, b);
    }
  }

  lemma LinkedBelow(g: Graph, rank: seq<nat>, c: nat, q: nat, b: nat)
    requires Ranked(g, rank) && c < |g| && q in Below(g, rank, c) && Links(g, q, b)
    ensures b in Below(g, rank, c) && b < |g| && rank[b] < rank[q]
  {
    BelowBasics(g, rank, c, q);
    assert b in Below(g, rank, b);
    assert b in Below(g, rank, q);
  }

  ghost function PredsOf(g: Graph, blocks: set<nat>, b: nat): set<nat>
  {
    set q | q in blocks && Links(g, q, b)
  }

  /** The part of the graph below the root, by predecessors. */
  ghost function BlockDag(g: Graph, rank: seq<nat>, root: nat): Dag
    requires Ranked(g, rank) && root < |g|
  {
    Dag(seq(|g|, b requires 0 <= b => PredsOf(g, Below(g, rank, root), b)), {root}, rank)
  }

  lemma BlockDagValid(g: Graph, rank: seq<nat>, root: nat)
    requires Ranked(g, rank) && root < |g|
    ensures Valid(BlockDag(g, rank, root), Below(g, rank, root))
  {
    hide Below;
    var d, blocks := BlockDag(g, rank, root), Below(g, rank, root);
    RootBelow(g, rank, root);
    forall b | b in blocks
      ensures b < |g| && (b == root <==> d.preds[b] == {})
      ensures forall q :: q in d.preds[b] ==> q in blocks && rank[q] > rank[b]
    {
      BelowBasics(g, rank, root, b);
      forall q | q in d.preds[b] ensures q in blocks && rank[q] > rank[b] && b != root {
        LinkedBelow(g, rank, root, q, b);
        BelowBasics(g, rank, root, q);
      }
      if b != root {
        var q := ReachedByPred(g, rank, root, b);
        assert q in d.preds[b];
      }
    }
  }

  lemma RootBelow(g: Graph, rank: seq<nat>, root: nat)
    requires Ranked(g, rank) && root < |g|
    ensures root in Below(g, rank, root)
  {
  }

  // -------------------------------------------------------- walking downwards

  /** What a downward walk by level has passed once it stands at position i. */
  ghost function Passed(order: seq<nat>, i: nat): set<nat>
    requires i <= |order|
  {
    Elements(order[i..])
  }

  lemma PassNext(g: Graph, order: seq<nat>, i: nat)
    requires Placed(g, order) && i < |order|
    ensures order[i] < |g| && order[i] !in Passed(order, i + 1)
    ensures Passed(order, i) == Passed(order, i + 1) + {order[i]}
  {
    PlacedAt(g, order, i);
    assert order[i..] == [order[i]] + order[i + 1..];
  }

  /** A block is met after everything that links to it and before everything it links to. */
  lemma PassedLinks(g: Graph, rank: seq<nat>, root: nat, order: seq<nat>, i: nat, q: nat)
    requires Ranked(g, rank) && root < |g| && Placed(g, order) && Elements(order) == Below(g, rank, root) && i < |order|
    ensures q in Below(g, rank, root) && Links(g, q, order[i]) ==> q in Passed(order, i + 1)
    ensures q in Passed(order, i + 1) + {order[i]} ==> !Links(g, order[i], q)
  {
    hide Below, Placed;
    if q in Below(g, rank, root) {
      var j :| 0 <= j < |order| && order[j] == q;
      PlacedAt(g, order, j);
      PlacedAt(g, order, i);
      if Links(g, q, order[i]) {
        assert order[i] in order[..j] && j > i;
        assert order[i + 1..][j - i - 1] == q;
      }
    }
    if q in Passed(order, i + 1) + {order[i]} { PassedNotBefore(g, order, i, q); }
  }

  lemma PassedNotBefore(g: Graph, order: seq<nat>, i: nat, q: nat)
    requires Placed(g, order) && i < |order| && q in Passed(order, i + 1) + {order[i]}
    ensures !Links(g, order[i], q)
  {
    hide Placed;
    var j :| i <= j < |order| && order[j] == q;
    PlacedAt(g, order, i);
    forall k | 0 <= k < i ensures order[k] != q { PlacedAt(g, order, k); }
    assert q !in order[..i];
  }

  lemma PassedEnds(order: seq<nat>)
    ensures Passed(order, |order|) == {} && Passed(order, 0) == Elements(order)
  {
  }

  // --------------------------------------------------------------- dominators

  /** A path through the graph from the root. */
  ghost predicate RootPath(g: Graph, root: nat, xs: seq<nat>)
  {
    xs != [] && xs[0] == root && forall i :: 0 < i < |xs| ==> Links(g, xs[i - 1], xs[i])
  }

  /** Every path from the root to b goes through c. */
  ghost predicate Dominates(g: Graph, root: nat, c: nat, b: nat)
  {
    forall xs :: RootPath(g, root, xs) && xs[|xs| - 1] == b ==> c in xs
  }

  lemma {:induction false} PathStaysBelow(g: Graph, rank: seq<nat>, root: nat, xs: seq<nat>, k: nat)
    requires Ranked(g, rank) && root < |g| && RootPath(g, root, xs) && k < |xs|
    ensures xs[k] in Below(g, rank, root)
  {
    if k > 0 {
      PathStaysBelow(g, rank, root, xs, k - 1);
      LinkedBelow(g, rank, root, xs[k - 1], xs[k]);
    }
  }

  lemma SamePaths(g: Graph, rank: seq<nat>, root: nat, xs: seq<nat>)
    requires Ranked(g, rank) && root < |g|
    ensures RootPath(g, root, xs) <==> IsPath(BlockDag(g, rank, root), xs)
  {
    hide Below;
    var d := BlockDag(g, rank, root);
    if RootPath(g, root, xs) {
      forall i | 0 < i < |xs| ensures xs[i] < |d.preds| && xs[i - 1] in d.preds[xs[i]] {
        PathStaysBelow(g, rank, root, xs, i - 1);
        LinkedBelow(g, rank, root, xs[i - 1], xs[i]);
      }
    }
  }

  lemma SolvedIsDominance(g: Graph, rank: seq<nat>, root: nat, dom: seq<set<nat>>, b: nat, c: nat)
    requires Ranked(g, rank) && root < |g| && b in Below(g, rank, root)
    requires Solves(BlockDag(g, rank, root), dom, Below(g, rank, root))
    ensures c in dom[b] <==> Dominates(g, root, c, b)
  {
    hide Below, RootPath, IsPath;
    var d := BlockDag(g, rank, root);
    BlockDagValid(g, rank, root);
    DominatorsAreExact(d, dom, Below(g, rank, root), b, c);
    forall xs ensures RootPath(g, root, xs) <==> IsPath(d, xs) { SamePaths(g, rank, root, xs); }
    if Dominates(g, root, c, b) {
      forall xs | PathTo(d, xs, b) ensures c in xs { assert RootPath(g, root, xs); }
    }
  }

  /** SET_INTERSECT of both successors' sets with the block's own. */
  lemma BlockHandled(g: Graph, rank: seq<nat>, root: nat, dom: seq<set<nat>>, dom1: seq<set<nat>>, dom': seq<set<nat>>,
                     p: nat)
    requires Ranked(g, rank) && root < |g| && |dom| == |g| && p in Below(g, rank, root) && p < |g|
    requires dom1 == dom[p := dom[p] + {p}]
    requires dom' == if IsLeaf(g[p]) then dom1 else Intersected(Intersected(dom1, g[p].jt, p), g[p].jf, p)
    ensures Handled(BlockDag(g, rank, root), dom, dom', p)
  {
    hide Below;
  }

  function Intersected(sets: seq<set<nat>>, to: nat, from: nat): (r: seq<set<nat>>)
    requires to < |sets| && from < |sets|
    ensures |r| == |sets|
  {
    sets[to := sets[to] * sets[from]]
  }

  ghost predicate BlockProgress(g: Graph, rank: seq<nat>, root: nat, dom: seq<set<nat>>, done: set<nat>)
    requires Ranked(g, rank) && root < |g|
  {
    var d := BlockDag(g, rank, root);
    Progress(d, dom, Below(g, rank, root), done, AllBlocks(|g|)) && ParentsFirst(d, done)
  }

  lemma StartBlocks(g: Graph, rank: seq<nat>, root: nat, dom: seq<set<nat>>)
    requires Ranked(g, rank) && root < |g| && |dom| == |g|
    requires forall b :: 0 <= b < |g| ==> dom[b] == if b == root then {} else AllBlocks(|g|)
    ensures BlockProgress(g, rank, root, dom, {})
  {
    hide Below, Progress;
    BlockDagValid(g, rank, root);
    BelowInGraph(g, rank, root);
    NothingHandled(BlockDag(g, rank, root), dom, Below(g, rank, root), AllBlocks(|g|));
  }

  lemma BlockStep(g: Graph, rank: seq<nat>, root: nat, order: seq<nat>, i: nat, dom: seq<set<nat>>, own: seq<set<nat>>,
                  dom': seq<set<nat>>)
    requires Ranked(g, rank) && root < |g| && Placed(g, order) && Elements(order) == Below(g, rank, root) && i < |order|
    requires |dom| == |g| && order[i] < |g| && own == dom[order[i] := dom[order[i]] + {order[i]}]
    requires dom' == if IsLeaf(g[order[i]]) then own
                     else Intersected(Intersected(own, g[order[i]].jt, order[i]), g[order[i]].jf, order[i])
    requires BlockProgress(g, rank, root, dom, Passed(order, i + 1))
    ensures BlockProgress(g, rank, root, dom', Passed(order, i))
  {
    hide Below, Placed, Passed, Elements, Progress, Handled, Intersected;
    var d, b := BlockDag(g, rank, root), order[i];
    BlockDagValid(g, rank, root);
    InElements(order, b);
    PassNext(g, order, i);
    BlockHandled(g, rank, root, dom, own, dom', b);
    forall q | q in d.preds[b] ensures q in Passed(order, i + 1) { PassedLinks(g, rank, root, order, i, q); }
    HandleOne(d, dom, dom', Below(g, rank, root), Passed(order, i + 1), AllBlocks(|g|), b);
  }

  /** Each set holds exactly the dominators of its block. */
  ghost predicate DominatorsExact(g: Graph, root: nat, blocks: set<nat>, dom: seq<set<nat>>)
  {
    forall b, c :: b in blocks ==> b < |dom| && (c in dom[b] <==> Dominates(g, root, c, b))
  }

  lemma BlocksDone(g: Graph, rank: seq<nat>, root: nat, dom: seq<set<nat>>)
    requires Ranked(g, rank) && root < |g| && BlockProgress(g, rank, root, dom, Below(g, rank, root))
    ensures DominatorsExact(g, root, Below(g, rank, root), dom)
  {
    hide Below, Dominates, MeetAt, PendingAt;
    AllHandled(BlockDag(g, rank, root), dom, Below(g, rank, root), AllBlocks(|g|));
    forall b, c | b in Below(g, rank, root) ensures b < |dom| && (c in dom[b] <==> Dominates(g, root, c, b)) {
      SolvedIsDominance(g, rank, root, dom, b, c);
    }
  }

  method FindDom(g: Graph, root: nat, order: seq<nat>, ghost rank: seq<nat>) returns (dom: seq<set<nat>>)
    requires Ranked(g, rank) && root < |g| && Placed(g, order) && Elements(order) == Below(g, rank, root)
    ensures |dom| == |g| && DominatorsExact(g, root, Below(g, rank, root), dom)
  {
    hide Below, Placed, Elements, BlockProgress, Passed, DominatorsExact, Intersected;
    PassedEnds(order);
    dom := seq(|g|, i => AllBlocks(|g|));
    dom := dom[root := {}];
    StartBlocks(g, rank, root, dom);
    for i := |order| downto 0
      invariant |dom| == |g| && BlockProgress(g, rank, root, dom, Passed(order, i))
    {
      var b := order[i];
      ghost var before := dom;
      dom := dom[b := dom[b] + {b}];
      ghost var own := dom;
      if !IsLeaf(g[b]) {
        dom := Intersected(dom, g[b].jt, b);
        dom := Intersected(dom, g[b].jf, b);
      }
      BlockStep(g, rank, root, order, i, before, own, dom);
    }
    BlocksDone(g, rank, root, dom);
  }

  // ---------------------------------------------------------- edge dominators

  /** Both branches of every block are numbered: block b's true edge is b, its
      false edge n + b. */
  function EdgeId(n: nat, b: nat, sense: bool): nat { if sense then b else n + b }

  function Owner(n: nat, e: nat): nat
    requires e < 2 * n
  {
    if e < n then e else e - n
  }

  /** Where an edge leads; NIL for the unused edges of a leaf. */
  function Target(g: Graph, e: nat): int
    requires e < 2 * |g|
  {
    if e < |g| then g[e].jt else g[e - |g|].jf
  }

  /** Edge f can be taken right after edge e. */
  predicate Follows(g: Graph, e: nat, f: nat)
  {
    e < 2 * |g| && f < 2 * |g| && Target(g, e) == Owner(|g|, f)
  }

  ghost predicate EdgeOf(n: nat, blocks: set<nat>, e: nat) { e < 2 * n && Owner(n, e) in blocks }

  ghost function EdgesOf(n: nat, blocks: set<nat>): set<nat> { set e | 0 <= e < 2 * n && EdgeOf(n, blocks, e) }

  ghost function EdgesInto(g: Graph, blocks: set<nat>, f: nat): set<nat>
  {
    set e | 0 <= e < 2 * |g| && EdgeOf(|g|, blocks, e) && Follows(g, e, f)
  }

  ghost function EdgeDag(g: Graph, rank: seq<nat>, root: nat): Dag
    requires Ranked(g, rank) && root < |g|
  {
    Dag(seq(2 * |g|, f requires 0 <= f => EdgesInto(g, Below(g, rank, root), f)),
        {root, |g| + root},
        seq(2 * |g|, e requires 0 <= e < 2 * |g| => rank[Owner(|g|, e)]))
  }

  lemma FollowsIsLink(g: Graph, e: nat, f: nat)
    requires WellFormed(g) && Follows(g, e, f)
    ensures Links(g, Owner(|g|, e), Owner(|g|, f))
  {
  }

  lemma EdgeDagValid(g: Graph, rank: seq<nat>, root: nat)
    requires Ranked(g, rank) && root < |g|
    ensures Valid(EdgeDag(g, rank, root), EdgesOf(|g|, Below(g, rank, root)))
  {
    hide Below;
    var d, blocks, n := EdgeDag(g, rank, root), Below(g, rank, root), |g|;
    var edges := EdgesOf(n, blocks);
    RootBelow(g, rank, root);
    forall f | f in edges
      ensures f in d.starts <==> d.preds[f] == {}
      ensures forall e :: e in d.preds[f] ==> e in edges && d.height[e] > d.height[f]
    {
      var b := Owner(n, f);
      forall e | e in d.preds[f] ensures e in edges && d.height[e] > d.height[f] && b != root {
        FollowsIsLink(g, e, f);
        LinkedBelow(g, rank, root, Owner(n, e), b);
        BelowBasics(g, rank, root, Owner(n, e));
      }
      if b != root {
        var q := ReachedByPred(g, rank, root, b);
        var e := if g[q].jt == b then q else n + q;
        assert Follows(g, e, f) && EdgeOf(n, blocks, e);
        assert e in d.preds[f];
      }
    }
  }

  /** A path of edges that leaves the root. */
  ghost predicate EdgePath(g: Graph, root: nat, es: seq<nat>)
  {
    && es != [] && (es[0] == root || es[0] == |g| + root)
    && forall i :: 0 < i < |es| ==> Follows(g, es[i - 1], es[i])
  }

  /** Every path from the root that ends with edge f takes edge e. */
  ghost predicate EdgeDominates(g: Graph, root: nat, e: nat, f: nat)
  {
    forall es :: EdgePath(g, root, es) && es[|es| - 1] == f ==> e in es
  }

  lemma {:induction false} EdgesStayBelow(g: Graph, rank: seq<nat>, root: nat, es: seq<nat>, k: nat)
    requires Ranked(g, rank) && root < |g| && EdgePath(g, root, es) && k < |es|
    ensures EdgeOf(|g|, Below(g, rank, root), es[k])
  {
    if k > 0 {
      EdgesStayBelow(g, rank, root, es, k - 1);
      FollowsIsLink(g, es[k - 1], es[k]);
      LinkedBelow(g, rank, root, Owner(|g|, es[k - 1]), Owner(|g|, es[k]));
    }
  }

  lemma SameEdgePaths(g: Graph, rank: seq<nat>, root: nat, es: seq<nat>)
    requires Ranked(g, rank) && root < |g|
    ensures EdgePath(g, root, es) <==> IsPath(EdgeDag(g, rank, root), es)
  {
    hide Below;
    var d := EdgeDag(g, rank, root);
    if EdgePath(g, root, es) {
      forall i | 0 < i < |es| ensures es[i] < |d.preds| && es[i - 1] in d.preds[es[i]] {
        EdgesStayBelow(g, rank, root, es, i - 1);
      }
    }
  }

  lemma SolvedIsEdgeDominance(g: Graph, rank: seq<nat>, root: nat, edom: seq<set<nat>>, f: nat, e: nat)
    requires Ranked(g, rank) && root < |g| && f in EdgesOf(|g|, Below(g, rank, root))
    requires Solves(EdgeDag(g, rank, root), edom, EdgesOf(|g|, Below(g, rank, root)))
    ensures e in edom[f] <==> EdgeDominates(g, root, e, f)
  {
    hide Below, EdgePath, IsPath, EdgesOf;
    var d := EdgeDag(g, rank, root);
    EdgeDagValid(g, rank, root);
    DominatorsAreExact(d, edom, EdgesOf(|g|, Below(g, rank, root)), f, e);
    forall es ensures EdgePath(g, root, es) <==> IsPath(d, es) { SameEdgePaths(g, rank, root, es); }
    if EdgeDominates(g, root, e, f) {
      forall es | PathTo(d, es, f) ensures e in es { assert EdgePath(g, root, es); }
    }
  }

  /** propedom on one edge. */
  method PropEdom(g: Graph, edom: seq<set<nat>>, e: nat, ghost rank: seq<nat>, ghost root: nat)
    returns (edom': seq<set<nat>>)
    requires Ranked(g, rank) && root < |g| && |edom| == 2 * |g| && EdgeOf(|g|, Below(g, rank, root), e)
    ensures |edom'| == |edom| && Handled(EdgeDag(g, rank, root), edom, edom', e)
  {
    hide Below;
    edom' := edom[e := edom[e] + {e}];
    var succ := Target(g, e);
    if succ != NIL {
      edom' := Intersected(edom', succ, e);
      edom' := Intersected(edom', |g| + succ, e);
    }
  }

  ghost predicate EdgeProgress(g: Graph, rank: seq<nat>, root: nat, edom: seq<set<nat>>, done: set<nat>)
    requires Ranked(g, rank) && root < |g|
  {
    var d := EdgeDag(g, rank, root);
    Progress(d, edom, EdgesOf(|g|, Below(g, rank, root)), done, AllBlocks(2 * |g|)) && ParentsFirst(d, done)
  }

  lemma EdgeStep(g: Graph, rank: seq<nat>, root: nat, edom: seq<set<nat>>, edom': seq<set<nat>>, done: set<nat>,
                 passed: set<nat>, e: nat)
    requires Ranked(g, rank) && root < |g| && EdgeProgress(g, rank, root, edom, done)
    requires EdgeOf(|g|, Below(g, rank, root), e) && e !in done && EdgesOf(|g|, passed) <= done
    requires forall q :: q in Below(g, rank, root) && Links(g, q, Owner(|g|, e)) ==> q in passed
    requires Handled(EdgeDag(g, rank, root), edom, edom', e)
    ensures EdgeProgress(g, rank, root, edom', done + {e})
  {
    hide Below, Handled, Progress, ParentsFirst, Valid;
    var d := EdgeDag(g, rank, root);
    EdgeDagValid(g, rank, root);
    forall f | f in d.preds[e] ensures f in done {
      FollowsIsLink(g, f, e);
      assert EdgeOf(|g|, passed, f);
    }
    HandleOne(d, edom, edom', EdgesOf(|g|, Below(g, rank, root)), done, AllBlocks(2 * |g|), e);
  }

  lemma EdgesOfNext(n: nat, passed: set<nat>, b: nat)
    requires b < n && b !in passed
    ensures EdgesOf(n, passed + {b}) == EdgesOf(n, passed) + {b} + {n + b}
    ensures b !in EdgesOf(n, passed) && n + b !in EdgesOf(n, passed)
  {
  }

  lemma StartEdges(g: Graph, rank: seq<nat>, root: nat, edom: seq<set<nat>>)
    requires Ranked(g, rank) && root < |g| && |edom| == 2 * |g|
    requires forall e :: 0 <= e < 2 * |g| ==> edom[e] == if Owner(|g|, e) == root then {} else AllBlocks(2 * |g|)
    ensures EdgeProgress(g, rank, root, edom, EdgesOf(|g|, {}))
  {
    hide Below, Progress;
    EdgeDagValid(g, rank, root);
    assert EdgesOf(|g|, {}) == {};
    NothingHandled(EdgeDag(g, rank, root), edom, EdgesOf(|g|, Below(g, rank, root)), AllBlocks(2 * |g|));
  }

  /** Each set holds exactly the edge dominators of its edge. */
  ghost predicate EdgeDominatorsExact(g: Graph, root: nat, edges: set<nat>, edom: seq<set<nat>>)
  {
    forall f, e :: f in edges ==> f < |edom| && (e in edom[f] <==> EdgeDominates(g, root, e, f))
  }

  lemma EdgesDone(g: Graph, rank: seq<nat>, root: nat, edom: seq<set<nat>>)
    requires Ranked(g, rank) && root < |g|
    requires EdgeProgress(g, rank, root, edom, EdgesOf(|g|, Below(g, rank, root)))
    ensures EdgeDominatorsExact(g, root, EdgesOf(|g|, Below(g, rank, root)), edom)
  {
    hide Below, EdgeDominates, MeetAt, PendingAt;
    var edges := EdgesOf(|g|, Below(g, rank, root));
    AllHandled(EdgeDag(g, rank, root), edom, edges, AllBlocks(2 * |g|));
    forall f, e | f in edges ensures f < |edom| && (e in edom[f] <==> EdgeDominates(g, root, e, f)) {
      SolvedIsEdgeDominance(g, rank, root, edom, f, e);
    }
  }

  /** Both edges of the block at position i, given the sets before, between and after. */
  lemma EdgeSteps(g: Graph, rank: seq<nat>, root: nat, order: seq<nat>, i: nat,
                  before: seq<set<nat>>, between: seq<set<nat>>, after: seq<set<nat>>)
    requires Ranked(g, rank) && root < |g| && Placed(g, order) && Elements(order) == Below(g, rank, root) && i < |order|
    requires order[i] < |g| && EdgeProgress(g, rank, root, before, EdgesOf(|g|, Passed(order, i + 1)))
    requires Handled(EdgeDag(g, rank, root), before, between, order[i])
    requires Handled(EdgeDag(g, rank, root), between, after, |g| + order[i])
    ensures EdgeProgress(g, rank, root, after, EdgesOf(|g|, Passed(order, i)))
  {
    hide Below, Placed, Elements, Handled, EdgesOf, EdgeProgress, EdgeDag, Passed;
    var b, passed := order[i], Passed(order, i + 1);
    PassNext(g, order, i);
    InElements(order, b);
    EdgesOfNext(|g|, passed, b);
    forall q ensures q in Below(g, rank, root) && Links(g, q, b) ==> q in passed
      { PassedLinks(g, rank, root, order, i, q); }
    EdgeStep(g, rank, root, before, between, EdgesOf(|g|, passed), passed, b);
    EdgeStep(g, rank, root, between, after, EdgesOf(|g|, passed) + {b}, passed, |g| + b);
  }

  method FindEdom(g: Graph, root: nat, order: seq<nat>, ghost rank: seq<nat>) returns (edom: seq<set<nat>>)
    requires Ranked(g, rank) && root < |g| && Placed(g, order) && Elements(order) == Below(g, rank, root)
    ensures |edom| == 2 * |g| && EdgeDominatorsExact(g, root, EdgesOf(|g|, Below(g, rank, root)), edom)
  {
    hide Below, Placed, Elements, Handled, EdgeDominatorsExact, EdgesOf, EdgeProgress, EdgeDag, Passed, AllBlocks,
         WellFormed;
    var n := |g|;
    PassedEnds(order);
    edom := seq(2 * n, i => AllBlocks(2 * n));
    edom := edom[root := {}][n + root := {}];
    StartEdges(g, rank, root, edom);
    for i := |order| downto 0
      invariant |edom| == 2 * n && EdgeProgress(g, rank, root, edom, EdgesOf(n, Passed(order, i)))
    {
      var b := order[i];
      InElements(order, b);
      ghost var before := edom;
      edom := PropEdom(g, edom, EdgeId(n, b, true), rank, root);
      ghost var between := edom;
      edom := PropEdom(g, edom, EdgeId(n, b, false), rank, root);
      EdgeSteps(g, rank, root, order, i, before, between, edom);
    }
    EdgesDone(g, rank, root, edom);
  }

  // ----------------------------------------------------------------- closure

  /** The blocks below the root that reach b. */
  ghost predicate ClosureExact(g: Graph, rank: seq<nat>, root: nat, closure: set<nat>, b: nat)
    requires Ranked(g, rank) && root < |g|
  {
    forall c :: c in closure <==> c in Below(g, rank, root) && c < |g| && b in Below(g, rank, c)
  }

  /** Before b is handled its set is the union over the predecessors handled so far. */
  ghost predicate UnionAt(g: Graph, closure: seq<set<nat>>, done: set<nat>, b: nat)
    requires b < |closure|
  {
    forall c :: c in closure[b] <==> exists q :: q in done && q < |closure| && Links(g, q, b) && c in closure[q]
  }

  ghost predicate ClosureProgress(g: Graph, rank: seq<nat>, root: nat, closure: seq<set<nat>>, done: set<nat>)
    requires Ranked(g, rank) && root < |g|
  {
    && |closure| == |g|
    && (forall b :: b in done ==> b in Below(g, rank, root) && b < |g| && ClosureExact(g, rank, root, closure[b], b))
    && (forall b :: b in Below(g, rank, root) && b !in done ==> b < |g| && UnionAt(g, closure, done, b))
  }

  /** With all predecessors handled, a block's union and itself are exactly what reaches it. */
  lemma UnionIsClosure(g: Graph, rank: seq<nat>, root: nat, closure: seq<set<nat>>, done: set<nat>, b: nat)
    requires Ranked(g, rank) && root < |g| && |closure| == |g| && b in Below(g, rank, root) && b < |g|
    requires forall q :: q in done ==>
             q in Below(g, rank, root) && q < |g| && ClosureExact(g, rank, root, closure[q], q)
    requires forall q :: q in Below(g, rank, root) && Links(g, q, b) ==> q in done
    requires UnionAt(g, closure, done, b)
    ensures ClosureExact(g, rank, root, closure[b] + {b}, b)
  {
    hide Below;
    RootBelow(g, rank, b);
    forall c ensures c in closure[b] + {b} <==> c in Below(g, rank, root) && c < |g| && b in Below(g, rank, c) {
      if c in closure[b] {
        var q :| q in done && q < |g| && Links(g, q, b) && c in closure[q];
        LinkedBelow(g, rank, c, q, b);
      }
      if c != b && c in Below(g, rank, root) && c < |g| && b in Below(g, rank, c) {
        var q := ReachedByPred(g, rank, c, b);
        BelowBasics(g, rank, root, c);
        BelowBasics(g, rank, c, q);
        assert c in closure[q];
      }
    }
  }

  function United(sets: seq<set<nat>>, to: nat, from: nat): (r: seq<set<nat>>)
    requires to < |sets| && from < |sets|
    ensures |r| == |sets|
  {
    sets[to := sets[to] + sets[from]]
  }

  lemma ClosureStep(g: Graph, rank: seq<nat>, root: nat, closure: seq<set<nat>>, closure': seq<set<nat>>,
                    done: set<nat>, p: nat)
    requires Ranked(g, rank) && root < |g| && ClosureProgress(g, rank, root, closure, done)
    requires p in Below(g, rank, root) && p !in done && p < |g|
    requires forall b :: b in done + {p} ==> !Links(g, p, b)
    requires forall q :: q in Below(g, rank, root) && Links(g, q, p) ==> q in done
    requires |closure'| == |g| && closure'[p] == closure[p] + {p}
    requires forall b :: 0 <= b < |g| && b != p ==>
               closure'[b] == if Links(g, p, b) then closure[b] + closure'[p] else closure[b]
    ensures ClosureProgress(g, rank, root, closure', done + {p})
  {
    hide Below, ClosureExact;
    UnionIsClosure(g, rank, root, closure, done, p);
    forall b | b in Below(g, rank, root) && b !in done + {p} ensures UnionAt(g, closure', done + {p}, b) {
      UnionMoves(g, closure, closure', done, p, b);
    }
  }

  lemma UnionMoves(g: Graph, closure: seq<set<nat>>, closure': seq<set<nat>>, done: set<nat>, p: nat, b: nat)
    requires |closure| == |g| == |closure'| && p < |g| && b < |g| && UnionAt(g, closure, done, b)
    requires forall q :: q in done ==> q < |g| && closure'[q] == closure[q]
    requires closure'[b] == if Links(g, p, b) then closure[b] + closure'[p] else closure[b]
    ensures UnionAt(g, closure', done + {p}, b)
  {
    forall c
      ensures c in closure'[b] <==> exists q :: q in done + {p} && q < |g| && Links(g, q, b) && c in closure'[q]
    {
      if c in closure[b] {
        var q :| q in done && q < |closure| && Links(g, q, b) && c in closure[q];
        assert q in done + {p};
      } else if c in closure'[b] {
        assert p in done + {p} && Links(g, p, b);
      }
    }
  }

  method FindClosure(g: Graph, root: nat, order: seq<nat>, ghost rank: seq<nat>) returns (closure: seq<set<nat>>)
    requires Ranked(g, rank) && root < |g| && Placed(g, order) && Elements(order) == Below(g, rank, root)
    ensures |closure| == |g|
    ensures forall b :: b in Below(g, rank, root) ==> b < |g| && ClosureExact(g, rank, root, closure[b], b)
  {
    hide Below, Placed, Elements, ClosureExact, ClosureProgress, Passed;
    PassedEnds(order);
    closure := seq(|g|, i => {});
    NothingUnited(g, rank, root, closure);
    for i := |order| downto 0
      invariant |closure| == |g| && ClosureProgress(g, rank, root, closure, Passed(order, i))
    {
      var b := order[i];
      PassNext(g, order, i);
      InElements(order, b);
      ghost var before := closure;
      closure := closure[b := closure[b] + {b}];
      if !IsLeaf(g[b]) {
        closure := United(closure, g[b].jt, b);
        closure := United(closure, g[b].jf, b);
      }
      forall q ensures q in Below(g, rank, root) && Links(g, q, b) ==> q in Passed(order, i + 1)
               ensures q in Passed(order, i + 1) + {b} ==> !Links(g, b, q)
      {
        PassedLinks(g, rank, root, order, i, q);
      }
      ClosureStep(g, rank, root, before, closure, Passed(order, i + 1), b);
    }
    ClosuresDone(g, rank, root, closure);
  }

  lemma ClosuresDone(g: Graph, rank: seq<nat>, root: nat, closure: seq<set<nat>>)
    requires Ranked(g, rank) && root < |g| && ClosureProgress(g, rank, root, closure, Below(g, rank, root))
    ensures |closure| == |g|
    ensures forall b :: b in Below(g, rank, root) ==> b < |g| && ClosureExact(g, rank, root, closure[b], b)
  {
  }

  lemma NothingUnited(g: Graph, rank: seq<nat>, root: nat, closure: seq<set<nat>>)
    requires Ranked(g, rank) && root < |g| && |closure| == |g| && forall b :: 0 <= b < |g| ==> closure[b] == {}
    ensures ClosureProgress(g, rank, root, closure, {})
  {
    hide Below;
    forall b | b in Below(g, rank, root) ensures b < |g| { BelowBasics(g, rank, root, b); }
  }

  // ---------------------------------------------------------------- in-edges

  /** The lists hold exactly the edges of the passed blocks, under the block each leads to. */
  ghost predicate InEdgesOf(g: Graph, inEdges: seq<seq<nat>>, passed: set<nat>)
  {
    && |inEdges| == |g|
    && forall b, e {:trigger e in inEdges[b]} :: 0 <= b < |g| ==>
         (e in inEdges[b] <==> EdgeOf(|g|, passed, e) && Target(g, e) == b)
  }

  ghost predicate NoRepeats(es: seq<nat>) { forall i, j :: 0 <= i < j < |es| ==> es[i] != es[j] }

  function LinkInedge(inEdges: seq<seq<nat>>, e: nat, child: nat): (r: seq<seq<nat>>)
    requires child < |inEdges|
    ensures |r| == |inEdges|
    ensures forall b, f :: 0 <= b < |r| ==> (f in r[b] <==> f in inEdges[b] || (b == child && f == e))
  {
    var r := inEdges[child := [e] + inEdges[child]];
    assert r[child][0] == e && r[child][1..] == inEdges[child];
    r
  }

  lemma LinkBoth(g: Graph, inEdges: seq<seq<nat>>, inEdges': seq<seq<nat>>, passed: set<nat>, b: nat)
    requires WellFormed(g) && b < |g| && InEdgesOf(g, inEdges, passed) && b !in passed
    requires forall c :: 0 <= c < |g| ==> NoRepeats(inEdges[c])
    requires inEdges' == if IsLeaf(g[b]) then inEdges
                         else LinkInedge(LinkInedge(inEdges, b, g[b].jt), |g| + b, g[b].jf)
    ensures InEdgesOf(g, inEdges', passed + {b})
    ensures forall c :: 0 <= c < |g| ==> NoRepeats(inEdges'[c])
  {
    LinkedOnce(g, inEdges, inEdges', passed, b);
    LinkedBoth(g, inEdges, inEdges', passed, b);
  }

  lemma LinkedOnce(g: Graph, inEdges: seq<seq<nat>>, inEdges': seq<seq<nat>>, passed: set<nat>, b: nat)
    requires WellFormed(g) && b < |g| && InEdgesOf(g, inEdges, passed) && b !in passed
    requires forall c :: 0 <= c < |g| ==> NoRepeats(inEdges[c])
    requires inEdges' == if IsLeaf(g[b]) then inEdges
                         else LinkInedge(LinkInedge(inEdges, b, g[b].jt), |g| + b, g[b].jf)
    ensures forall c :: 0 <= c < |g| ==> NoRepeats(inEdges'[c])
  {
    if !IsLeaf(g[b]) {
      var mid := LinkInedge(inEdges, b, g[b].jt);
      assert b !in inEdges[g[b].jt] && |g| + b !in inEdges[g[b].jf] && |g| + b !in mid[g[b].jf];
      AddOnce(inEdges[g[b].jt], b);
      assert forall c :: 0 <= c < |g| ==> NoRepeats(mid[c]);
      AddOnce(mid[g[b].jf], |g| + b);
    }
  }

  lemma NoneRepeats()
    ensures NoRepeats([])
  {
  }

  lemma AddOnce(es: seq<nat>, e: nat)
    requires NoRepeats(es) && e !in es
    ensures NoRepeats([e] + es)
  {
    var fs := [e] + es;
    forall i, j | 0 <= i < j < |fs| ensures fs[i] != fs[j] {
      assert fs[j] == es[j - 1];
      if i > 0 { assert fs[i] == es[i - 1]; }
    }
  }

  lemma LinkedBoth(g: Graph, inEdges: seq<seq<nat>>, inEdges': seq<seq<nat>>, passed: set<nat>, b: nat)
    requires WellFormed(g) && b < |g| && InEdgesOf(g, inEdges, passed)
    requires inEdges' == if IsLeaf(g[b]) then inEdges
                         else LinkInedge(LinkInedge(inEdges, b, g[b].jt), |g| + b, g[b].jf)
    ensures InEdgesOf(g, inEdges', passed + {b})
  {
    hide LinkInedge;
    var n := |g|;
    forall c, e | 0 <= c < n ensures e in inEdges'[c] <==> EdgeOf(n, passed + {b}, e) && Target(g, e) == c {
      assert e in inEdges[c] <==> EdgeOf(n, passed, e) && Target(g, e) == c;
      assert EdgeOf(n, passed + {b}, e) <==> EdgeOf(n, passed, e) || e == b || e == n + b;
      if !IsLeaf(g[b]) {
        var mid := LinkInedge(inEdges, b, g[b].jt);
        assert e in mid[c] <==> e in inEdges[c] || (c == g[b].jt && e == b);
      }
    }
  }

  method FindInedges(g: Graph, root: nat, order: seq<nat>, ghost rank: seq<nat>) returns (inEdges: seq<seq<nat>>)
    requires Ranked(g, rank) && root < |g| && Placed(g, order) && Elements(order) == Below(g, rank, root)
    ensures InEdgesOf(g, inEdges, Below(g, rank, root))
    ensures forall b :: 0 <= b < |g| ==> NoRepeats(inEdges[b])
  {
    hide Below, Placed, Elements, Passed, LinkInedge, NoRepeats;
    NoneRepeats();
    PassedEnds(order);
    inEdges := seq(|g|, i => []);
    for i := |order| downto 0
      invariant InEdgesOf(g, inEdges, Passed(order, i))
      invariant forall b :: 0 <= b < |g| ==> NoRepeats(inEdges[b])
    {
      var b := order[i];
      PassNext(g, order, i);
      ghost var before := inEdges;
      if !IsLeaf(g[b]) {
        inEdges := LinkInedge(inEdges, EdgeId(|g|, b, true), g[b].jt);
        inEdges := LinkInedge(inEdges, EdgeId(|g|, b, false), g[b].jf);
      }
      LinkBoth(g, before, inEdges, Passed(order, i + 1), b);
    }
  }
}
