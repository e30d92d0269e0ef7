/** The analyses at the start of a round of the optimizer, one after the other. */
module Analyses {
  import opened Words
  import opened Machine
  import opened FlowGraph
  import opened Layout
  import opened Levels
  import opened Dominators
  import opened Liveness
  import opened ValueNumbers
  import opened ValueRewrite
  import opened BlockValues

  /** What a round of the optimizer finds out before it changes anything: levels, dominators, live registers,
      in-edges and numbers. */
  method Analyse(g: Graph, root: nat, ghost rank: seq<nat>)
    returns (order: seq<nat>, dom: seq<set<nat>>, inUse: seq<set<nat>>, outUse: seq<set<nat>>, inEdges: seq<seq<nat>>,
             ns: Numbers, ghost from: seq<nat>)
    requires Ranked(g, rank) && root < |g| && GraphInRange(g)
    ensures Placed(g, order) && Elements(order) == Below(g, rank, root)
    ensures |dom| == |g| && DominatorsExact(g, root, Below(g, rank, root), dom)
    ensures Live(g, inUse, outUse, order)
    ensures InEdgesOf(g, inEdges, Below(g, rank, root)) && forall b :: 0 <= b < |g| ==> NoRepeats(inEdges[b])
    ensures NumbersOk(g, ns, false, inEdges, from, Below(g, rank, root))
  {
    hide Below, Placed, Elements, Flat, Levelled, DominatorsExact, Live, InEdgesOf, NoRepeats, NumbersOk, AllInRange,
         Altered;
    var levels, level := FindLevels(g, root, rank);
    LevelOrder(g, rank, root, levels, level);
    DownwardOrder(g, rank, root, levels, level);
    order := Flat(levels, |g|);
    var down := Flat(ReverseEach(levels), |g|);
    dom := FindDom(g, root, down, rank);
    inUse, outUse := FindUd(g, order);
    inEdges := FindInedges(g, root, down, rank);
    var err, g';
    err, ns, g', from := OptBlks(g, root, down, inEdges, false, rank);
  }
}
