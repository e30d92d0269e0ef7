/**
 * Pulling a test up a chain of alternatives (or_pullup) or of conjuncts
 * (and_pullup). The two differ only in which branch runs along the chain.
 */
module Pullup {
  import opened Words
  import opened Machine
  import opened FlowGraph
  import opened Layout
  import opened Levels
  import opened Paths
  import opened Dominators

  // -------------------------------------------------- what a packet decides

  /** How a run leaves a block: it stops there, or goes on by one of the branches. */
  datatype Way = Stops(r: Result) | Goes(taken: bool)

  function WayOf(n: Node, st: State, p: Packet): Way
    requires !IsLeaf(n) ==> n.s.code.Jmp?
  {
    match ExecList(n.stmts, st, p)
    case Reject => Stops(Rejected)
    case Trapping(t) => Stops(Trapped(t))
    case Next(st') => if IsLeaf(n) then Stops(LeafResult(n.s, st')) else Goes(Taken(n.s, st'))
  }

  /** The packet alone decides how the block is left. */
  ghost predicate Fixed(n: Node, p: Packet)
    requires !IsLeaf(n) ==> n.s.code.Jmp?
  {
    forall st, st' :: WayOf(n, st, p) == WayOf(n, st', p)
  }

  const BLANK_STATE: State := State(0, 0, [0, 0, 0, 0, 0, 0, 0, 0, 0, 0, 0, 0, 0, 0, 0, 0])

  /** What the graph returns when every block is left as from a blank state. */
  ghost function ResultOf(g: Graph, rank: seq<nat>, b: nat, p: Packet): Result
    requires Ranked(g, rank) && b < |g|
    decreases rank[b]
  {
    match WayOf(g[b], BLANK_STATE, p)
    case Stops(r) => r
    case Goes(t) => ResultOf(g, rank, Successor(g[b], t), p)
  }

  ghost predicate ClosedUnder(g: Graph, blocks: set<nat>)
  {
    forall b :: b in blocks ==> b < |g| && (!IsLeaf(g[b]) ==> g[b].jt in blocks && g[b].jf in blocks)
  }

  ghost predicate AllFixed(g: Graph, blocks: set<nat>, p: Packet)
    requires WellFormed(g)
  {
    forall b :: b in blocks ==> b < |g| && Fixed(g[b], p)
  }

  lemma {:induction false} FixedRuns(g: Graph, rank: seq<nat>, blocks: set<nat>, b: nat, st: State, p: Packet)
    requires Ranked(g, rank) && ClosedUnder(g, blocks) && AllFixed(g, blocks, p) && b in blocks
    ensures RunGraph(g, rank, b, st, p) == ResultOf(g, rank, b, p)
    decreases rank[b]
  {
    hide ExecList, Compare;
    assert Fixed(g[b], p) && WayOf(g[b], st, p) == WayOf(g[b], BLANK_STATE, p);
    match ExecList(g[b].stmts, st, p)
    case Next(st') =>
      if !IsLeaf(g[b]) { FixedRuns(g, rank, blocks, Successor(g[b], Taken(g[b].s, st')), st', p); }
    case _ =>
  }

  // ------------------------------------------------------------------ chains

  /** The branch that runs along a chain (false for alternatives) and the one that leaves it. */
  function Along(n: Node, along: bool): int { Successor(n, along) }
  function Exit(n: Node, along: bool): int { Successor(n, !along) }

  function SetAlong(n: Node, along: bool, to: int): Node { if along then n.(jt := to) else n.(jf := to) }

  /** A test of a chain whose tests all leave it for t. */
  predicate InChain(g: Graph, along: bool, t: int, b: nat)
  {
    b < |g| && !IsLeaf(g[b]) && Exit(g[b], along) == t
  }

  /** Tests, each reached from the one before. */
  ghost predicate Chain(g: Graph, along: bool, t: int, cs: seq<nat>)
  {
    && (forall i :: 0 <= i < |cs| ==> InChain(g, along, t, cs[i]))
    && (forall i :: 0 < i < |cs| ==> Along(g[cs[i - 1]], along) == cs[i])
  }

  lemma {:induction false} ChainFalls(g: Graph, rank: seq<nat>, along: bool, t: int, cs: seq<nat>, i: nat, j: nat)
    requires Ranked(g, rank) && Chain(g, along, t, cs) && i <= j < |cs|
    ensures rank[cs[j]] <= rank[cs[i]] - (j - i)
    decreases j
  {
    if i < j { ChainFalls(g, rank, along, t, cs, i, j - 1); }
  }

  /** What is below a chain is on it, below its exit or below its last test. */
  lemma {:induction false} BelowChain(g: Graph, rank: seq<nat>, along: bool, t: int, cs: seq<nat>, i: nat, q: nat)
    requires Ranked(g, rank) && Chain(g, along, t, cs) && i < |cs| && q in Below(g, rank, cs[0])
    ensures 0 <= t < |g|
    ensures q in cs[..i] || q in Below(g, rank, t) || q in Below(g, rank, cs[i])
  {
    assert InChain(g, along, t, cs[i]);
    if i > 0 {
      BelowChain(g, rank, along, t, cs, i - 1, q);
      assert Along(g[cs[i - 1]], along) == cs[i] && InChain(g, along, t, cs[i - 1]);
      assert cs[..i] == cs[..i - 1] + [cs[i - 1]];
    }
  }

  /** A block dominated by b that links on to a dominated block: b reaches it. */
  lemma DominatedPred(g: Graph, rank: seq<nat>, root: nat, b: nat, q: nat, c: nat)
    requires Ranked(g, rank) && root < |g| && q in Below(g, rank, root) && Links(g, q, c)
    requires Dominates(g, root, b, c) && b != c
    ensures b < |g| && q in Below(g, rank, b)
  {
    BelowBasics(g, rank, root, q);
    var xs := PathFromRoot(g, rank, root, q);
    var ys := xs + [c];
    assert RootPath(g, root, ys);
    assert b in ys;
    var i :| 0 <= i < |xs| && xs[i] == b;
    ReachesRest(g, rank, root, xs, i, |xs| - 1);
  }

  lemma {:induction false} PathFromRoot(g: Graph, rank: seq<nat>, root: nat, q: nat) returns (xs: seq<nat>)
    requires Ranked(g, rank) && root < |g| && q in Below(g, rank, root) && q < |g| && rank[q] <= rank[root]
    ensures RootPath(g, root, xs) && xs[|xs| - 1] == q
    decreases rank[root] - rank[q]
  {
    if q == root {
      xs := [root];
    } else {
      var r := ReachedByPred(g, rank, root, q);
      BelowBasics(g, rank, root, r);
      var ys := PathFromRoot(g, rank, root, r);
      xs := ys + [q];
      assert xs[..|ys|] == ys;
    }
  }

  lemma {:induction false} ReachesRest(g: Graph, rank: seq<nat>, root: nat, xs: seq<nat>, i: nat, j: nat)
    requires Ranked(g, rank) && root < |g| && RootPath(g, root, xs) && i <= j < |xs|
    ensures xs[i] < |g| && xs[j] in Below(g, rank, xs[i])
    decreases j
  {
    PathStaysBelow(g, rank, root, xs, i);
    BelowBasics(g, rank, root, xs[i]);
    if i < j {
      ReachesRest(g, rank, root, xs, i, j - 1);
      LinkedBelow(g, rank, xs[i], xs[j - 1], xs[j]);
    }
  }

  /** A dominated test further down a chain is entered only from the test before it. */
  lemma SingleEntry(g: Graph, rank: seq<nat>, root: nat, along: bool, t: int, cs: seq<nat>, i: nat, q: nat)
    requires Ranked(g, rank) && root < |g| && Chain(g, along, t, cs) && 0 < i < |cs|
    requires q in Below(g, rank, root) && Links(g, q, cs[i]) && Dominates(g, root, cs[0], cs[i])
    ensures q == cs[i - 1] && Exit(g[q], along) != cs[i]
  {
    hide Below, Dominates;
    ChainFalls(g, rank, along, t, cs, 0, i);
    DominatedPred(g, rank, root, cs[0], q, cs[i]);
    BelowChain(g, rank, along, t, cs, i, q);
    assert InChain(g, along, t, cs[i]);
    if q in Below(g, rank, t) {
      BelowBasics(g, rank, t, q);
    } else if q in Below(g, rank, cs[i]) {
      BelowBasics(g, rank, cs[i], q);
    } else {
      var j :| 0 <= j < i && cs[j] == q;
      assert InChain(g, along, t, cs[j]) && Along(g[cs[j]], along) == cs[j + 1];
      if j + 1 < i { ChainFalls(g, rank, along, t, cs, j + 1, i); }
    }
  }

  // --------------------------------------------------------------- rewiring

  /** A branch after the rewiring: what led to the head of the segment leads to the pulled test. */
  function Moved(to: int, head: nat, pull: nat): int { if to == head then pull else to }

  /** Block n is wired in g' as the pull-up of the last test of `seg` before the first leaves it. */
  ghost predicate Rewired(g: Graph, g': Graph, along: bool, seg: seq<nat>, blocks: set<nat>, n: nat)
    requires |g'| == |g| && n < |g| && |seg| > 1 && seg[|seg| - 1] < |g|
  {
    var last := |seg| - 1;
    var head, pull := seg[0], seg[last];
    if n == pull then g'[n] == SetAlong(g[n], along, head)
    else if n == seg[last - 1] then g'[n] == SetAlong(g[n], along, Along(g[pull], along))
    else if n in seg || n !in blocks then g'[n] == g[n]
    else
      && g'[n] == g[n].(jt := Moved(g[n].jt, head, pull), jf := Moved(g[n].jf, head, pull))
      && (forall i :: 0 < i < |seg| ==> g[n].jt != seg[i] && g[n].jf != seg[i])
  }

  /** The graph g' is g with the last test of a segment of a chain moved before the first. */
  ghost predicate Pulled(g: Graph, g': Graph, along: bool, t: int, seg: seq<nat>, blocks: set<nat>)
  {
    && |g'| == |g| && |seg| > 1 && Chain(g, along, t, seg)
    && (forall i :: 0 <= i < |seg| ==> seg[i] in blocks && seg[i] < |g|)
    && (forall n :: 0 <= n < |g| ==> Rewired(g, g', along, seg, blocks, n))
  }

  /** Ranks of the new graph. Blocks outside `blocks` are not reached any more; they go on top. */
  ghost function NewRank(g: Graph, rank: seq<nat>, blocks: set<nat>, head: nat, pull: nat): (r: seq<nat>)
    requires |rank| == |g| && head < |g|
    ensures |r| == |g|
  {
    var top := Top(Dag([], {}, rank), |rank|);
    seq(|g|, n requires 0 <= n < |g| == |rank| =>
      if n == pull then 2 * rank[head] + 1 else if n in blocks then 2 * rank[n] else 2 * rank[n] + 2 * top + 2)
  }

  /** Both branches of block n lead to blocks of lower rank. */
  ghost predicate Falls(g: Graph, rank: seq<nat>, n: nat)
    requires n < |g| == |rank|
  {
    NodeOk(g[n], |g|) && (!IsLeaf(g[n]) ==> rank[g[n].jt] < rank[n] && rank[g[n].jf] < rank[n])
  }

  lemma RewiredFalls(g: Graph, rank: seq<nat>, g': Graph, along: bool, t: int, seg: seq<nat>, blocks: set<nat>, n: nat)
    requires Ranked(g, rank) && ClosedUnder(g, blocks) && Pulled(g, g', along, t, seg, blocks) && n < |g|
    ensures Falls(g', NewRank(g, rank, blocks, seg[0], seg[|seg| - 1]), n)
  {
    var last := |seg| - 1;
    ChainFalls(g, rank, along, t, seg, 0, last);
    assert Rewired(g, g', along, seg, blocks, n);
    assert InChain(g, along, t, seg[last]) && seg[last] in blocks && seg[0] in blocks;
    if n == seg[last] || n == seg[last - 1] {
      PulledFalls(g, rank, g', along, t, seg, blocks, n);
    } else if n in seg {
      var i :| 0 <= i < |seg| && seg[i] == n;
      SegmentStays(g, rank, along, t, seg, i);
    }
  }

  lemma PulledFalls(g: Graph, rank: seq<nat>, g': Graph, along: bool, t: int, seg: seq<nat>, blocks: set<nat>, n: nat)
    requires Ranked(g, rank) && ClosedUnder(g, blocks) && Pulled(g, g', along, t, seg, blocks)
    requires n == seg[|seg| - 1] || n == seg[|seg| - 2]
    ensures n < |g| && Falls(g', NewRank(g, rank, blocks, seg[0], seg[|seg| - 1]), n)
  {
    var last := |seg| - 1;
    ChainFalls(g, rank, along, t, seg, 0, last - 1);
    ChainFalls(g, rank, along, t, seg, last - 1, last);
    assert Rewired(g, g', along, seg, blocks, n);
    assert InChain(g, along, t, seg[last]) && InChain(g, along, t, seg[last - 1]);
    assert seg[last] in blocks && seg[0] in blocks && seg[last - 1] in blocks;
  }

  /** Tests inside the segment do not lead to the pulled test. */
  lemma SegmentStays(g: Graph, rank: seq<nat>, along: bool, t: int, seg: seq<nat>, i: nat)
    requires Ranked(g, rank) && Chain(g, along, t, seg) && i + 1 < |seg| - 1
    ensures g[seg[i]].jt != seg[|seg| - 1] && g[seg[i]].jf != seg[|seg| - 1]
    ensures seg[i] != seg[|seg| - 1]
  {
    var last := |seg| - 1;
    ChainFalls(g, rank, along, t, seg, i + 1, last);
    ChainFalls(g, rank, along, t, seg, i, last);
    assert InChain(g, along, t, seg[i]) && InChain(g, along, t, seg[last]) && Along(g[seg[i]], along) == seg[i + 1];
  }

  /** The rewired graph is acyclic. */
  lemma PulledIsRanked(g: Graph, rank: seq<nat>, g': Graph, along: bool, t: int, seg: seq<nat>, blocks: set<nat>)
    requires Ranked(g, rank) && ClosedUnder(g, blocks) && Pulled(g, g', along, t, seg, blocks)
    ensures Ranked(g', NewRank(g, rank, blocks, seg[0], seg[|seg| - 1])) && ClosedUnder(g', blocks)
  {
    hide Chain, NewRank, ClosedUnder, Rewired;
    var r := NewRank(g, rank, blocks, seg[0], seg[|seg| - 1]);
    forall n | 0 <= n < |g| ensures Falls(g', r, n) { RewiredFalls(g, rank, g', along, t, seg, blocks, n); }
    AllFall(g', r);
    PulledIsClosed(g, g', along, t, seg, blocks);
  }

  lemma AllFall(g: Graph, rank: seq<nat>)
    requires |rank| == |g| && forall n :: 0 <= n < |g| ==> Falls(g, rank, n)
    ensures Ranked(g, rank)
  {
    forall n | 0 <= n < |g| ensures NodeOk(g[n], |g|) { assert Falls(g, rank, n); }
    forall n | 0 <= n < |g| && !IsLeaf(g[n]) ensures rank[g[n].jt] < rank[n] && rank[g[n].jf] < rank[n] {
      assert Falls(g, rank, n);
    }
  }

  lemma LeavesStay(g: Graph, g': Graph, along: bool, t: int, seg: seq<nat>, blocks: set<nat>, n: nat)
    requires WellFormed(g) && Pulled(g, g', along, t, seg, blocks) && n < |g| && IsLeaf(g[n])
    ensures g'[n] == g[n]
  {
    assert Rewired(g, g', along, seg, blocks, n);
    forall i | 0 <= i < |seg| ensures seg[i] != n { assert InChain(g, along, t, seg[i]); }
  }

  lemma PulledIsClosed(g: Graph, g': Graph, along: bool, t: int, seg: seq<nat>, blocks: set<nat>)
    requires WellFormed(g) && ClosedUnder(g, blocks) && Pulled(g, g', along, t, seg, blocks)
    ensures ClosedUnder(g', blocks)
  {
    forall n | n in blocks ensures n < |g'| && (!IsLeaf(g'[n]) ==> g'[n].jt in blocks && g'[n].jf in blocks) {
      assert Rewired(g, g', along, seg, blocks, n);
      if IsLeaf(g[n]) { LeavesStay(g, g', along, t, seg, blocks, n); }
    }
  }

  // ----------------------------------------------------------------- results

  lemma SameWay(m: Node, n: Node, st: State, p: Packet)
    requires m.stmts == n.stmts && m.s == n.s && (IsLeaf(m) <==> IsLeaf(n)) && (!IsLeaf(m) ==> m.s.code.Jmp?)
    ensures WayOf(m, st, p) == WayOf(n, st, p)
  {
    hide ExecList;
  }

  /** What becomes of a packet in a chain of tests: it goes along past the last, leaves by the exit, or is stopped. */
  datatype End = Passes | Exits | Ends(r: Result)

  ghost function EndOf(g: Graph, along: bool, p: Packet, cs: seq<nat>): End
    requires WellFormed(g) && forall i :: 0 <= i < |cs| ==> cs[i] < |g|
  {
    if cs == [] then Passes
    else
      match WayOf(g[cs[0]], BLANK_STATE, p)
      case Stops(r) => Ends(r)
      case Goes(b) => if b == along then EndOf(g, along, p, cs[1..]) else Exits
  }

  lemma {:induction false} EndAppend(g: Graph, along: bool, p: Packet, xs: seq<nat>, ys: seq<nat>)
    requires WellFormed(g) && forall i :: 0 <= i < |xs + ys| ==> (xs + ys)[i] < |g|
    ensures (forall i :: 0 <= i < |xs| ==> xs[i] < |g|) && (forall i :: 0 <= i < |ys| ==> ys[i] < |g|)
    ensures EndOf(g, along, p, xs + ys) == if EndOf(g, along, p, xs).Passes? then EndOf(g, along, p, ys)
            else EndOf(g, along, p, xs)
    decreases |xs|
  {
    hide WayOf;
    forall i | 0 <= i < |xs| ensures xs[i] < |g| { assert xs[i] == (xs + ys)[i]; }
    forall i | 0 <= i < |ys| ensures ys[i] < |g| { assert ys[i] == (xs + ys)[|xs| + i]; }
    if xs == [] {
      assert xs + ys == ys;
    } else {
      assert (xs + ys)[1..] == xs[1..] + ys;
      EndAppend(g, along, p, xs[1..], ys);
    }
  }

  /** What the graph returns after a chain that ended so. */
  ghost function Rest(g: Graph, rank: seq<nat>, t: nat, after: nat, e: End, p: Packet): Result
    requires Ranked(g, rank) && t < |g| && after < |g|
  {
    match e
    case Passes => ResultOf(g, rank, after, p)
    case Exits => ResultOf(g, rank, t, p)
    case Ends(r) => r
  }

  lemma {:induction false} ChainResult(g: Graph, rank: seq<nat>, along: bool, t: int, cs: seq<nat>, p: Packet)
    requires Ranked(g, rank) && cs != [] && Chain(g, along, t, cs)
    ensures 0 <= t < |g| && 0 <= Along(g[cs[|cs| - 1]], along) < |g|
    ensures ResultOf(g, rank, cs[0], p) == Rest(g, rank, t, Along(g[cs[|cs| - 1]], along), EndOf(g, along, p, cs), p)
    decreases |cs|
  {
    hide WayOf;
    assert InChain(g, along, t, cs[0]);
    if |cs| > 1 {
      assert Along(g[cs[0]], along) == cs[1];
      TailChain(g, along, t, cs);
      ChainResult(g, rank, along, t, cs[1..], p);
    } else {
      assert cs[1..] == [];
    }
  }

  lemma TailChain(g: Graph, along: bool, t: int, cs: seq<nat>)
    requires |cs| > 1 && Chain(g, along, t, cs)
    ensures Chain(g, along, t, cs[1..])
  {
    var ds := cs[1..];
    forall i | 0 <= i < |ds| ensures InChain(g, along, t, ds[i]) {
      assert ds[i] == cs[i + 1];
    }
    forall i | 0 < i < |ds| ensures Along(g[ds[i - 1]], along) == ds[i] {
      assert ds[i - 1] == cs[i] && ds[i] == cs[i + 1];
    }
  }

  /** A test of a chain never stops a packet with a value. */
  lemma {:induction false} NoValueInChain(g: Graph, along: bool, t: int, cs: seq<nat>, p: Packet)
    requires WellFormed(g) && forall i :: 0 <= i < |cs| ==> cs[i] < |g| && InChain(g, along, t, cs[i])
    ensures EndOf(g, along, p, cs).Ends? ==> !EndOf(g, along, p, cs).r.Return?
  {
    hide ExecList, Compare;
    if cs != [] {
      assert InChain(g, along, t, cs[0]);
      NoValueInChain(g, along, t, cs[1..], p);
    }
  }

  /** What the rewiring keeps of every block: its statements, its branch and its being a leaf. */
  lemma ContentsStay(g: Graph, g': Graph, along: bool, t: int, seg: seq<nat>, blocks: set<nat>, n: nat)
    requires WellFormed(g) && WellFormed(g') && Pulled(g, g', along, t, seg, blocks) && n < |g|
    ensures g'[n].stmts == g[n].stmts && g'[n].s == g[n].s && (IsLeaf(g'[n]) <==> IsLeaf(g[n]))
    ensures forall st, p :: WayOf(g'[n], st, p) == WayOf(g[n], st, p)
  {
    hide WayOf;
    assert Rewired(g, g', along, seg, blocks, n);
    assert g'[n].stmts == g[n].stmts && g'[n].s == g[n].s;
    forall st, p ensures WayOf(g'[n], st, p) == WayOf(g[n], st, p) { SameWay(g'[n], g[n], st, p); }
  }

  /** The chain after the pull-up: the pulled test, then the others. */
  lemma PulledChain(g: Graph, rank: seq<nat>, g': Graph, along: bool, t: int, seg: seq<nat>, blocks: set<nat>)
    requires Ranked(g, rank) && Pulled(g, g', along, t, seg, blocks)
    ensures var last := |seg| - 1;
            var cs := [seg[last]] + seg[..last];
            Chain(g', along, t, cs) && Along(g'[cs[last]], along) == Along(g[seg[last]], along)
  {
    var last := |seg| - 1;
    var cs := [seg[last]] + seg[..last];
    forall i | 0 <= i < |cs| ensures InChain(g', along, t, cs[i]) {
      SegmentNode(g, rank, g', along, t, seg, blocks, if i == 0 then last else i - 1);
    }
    forall i | 0 < i < |cs| ensures Along(g'[cs[i - 1]], along) == cs[i] {
      SegmentNode(g, rank, g', along, t, seg, blocks, if i == 1 then last else i - 2);
      assert cs[i] == seg[i - 1];
    }
    SegmentNode(g, rank, g', along, t, seg, blocks, last - 1);
  }

  lemma SegmentNode(g: Graph, rank: seq<nat>, g': Graph, along: bool, t: int, seg: seq<nat>, blocks: set<nat>, i: nat)
    requires Ranked(g, rank) && Pulled(g, g', along, t, seg, blocks) && i < |seg|
    ensures InChain(g', along, t, seg[i])
    ensures var last := |seg| - 1;
            Along(g'[seg[i]], along) == if i == last then seg[0] else if i == last - 1 then Along(g[seg[last]], along)
              else seg[i + 1]
  {
    var last := |seg| - 1;
    assert InChain(g, along, t, seg[i]) && InChain(g, along, t, seg[last]);
    assert Rewired(g, g', along, seg, blocks, seg[i]);
    if i < last {
      ChainFalls(g, rank, along, t, seg, i, last);
      assert Along(g[seg[i]], along) == seg[i + 1];
      if i < last - 1 { ChainFalls(g, rank, along, t, seg, i, last - 1); }
    }
  }

  /** Below the segment nothing leads back into it. */
  lemma OffSegment(g: Graph, rank: seq<nat>, along: bool, t: int, seg: seq<nat>, n: int)
    requires Ranked(g, rank) && |seg| > 1 && Chain(g, along, t, seg)
    requires n == t || n == Along(g[seg[|seg| - 1]], along)
    ensures 0 <= n < |g| && rank[n] < rank[seg[0]] && n !in seg
  {
    var last := |seg| - 1;
    assert InChain(g, along, t, seg[last]);
    forall i | 0 <= i < |seg| ensures rank[n] < rank[seg[i]] { ChainFalls(g, rank, along, t, seg, i, last); }
  }

  /** On this packet it does not matter which of the last test and those before it comes first. */
  ghost predicate OrderFree(g: Graph, along: bool, seg: seq<nat>, p: Packet)
    requires WellFormed(g) && seg != [] && forall i :: 0 <= i < |seg| ==> seg[i] < |g|
  {
    var pre, pull := EndOf(g, along, p, seg[..|seg| - 1]), EndOf(g, along, p, [seg[|seg| - 1]]);
    pre.Passes? || pull.Passes? || pre == pull
  }

  /** The packet's run from n comes by the head. */
  ghost predicate Meets(g: Graph, rank: seq<nat>, n: nat, head: nat, p: Packet)
    requires Ranked(g, rank) && n < |g|
    decreases rank[n]
  {
    n == head ||
    match WayOf(g[n], BLANK_STATE, p)
    case Stops(_) => false
    case Goes(b) => Meets(g, rank, Successor(g[n], b), head, p)
  }

  lemma {:induction false} BelowMisses(g: Graph, rank: seq<nat>, n: nat, head: nat, p: Packet)
    requires Ranked(g, rank) && n < |g| && head < |g| && rank[n] < rank[head]
    ensures !Meets(g, rank, n, head, p)
    decreases rank[n]
  {
    hide WayOf;
    match WayOf(g[n], BLANK_STATE, p)
    case Stops(_) =>
    case Goes(b) =>
      LeafStops(g[n], p);
      BelowMisses(g, rank, Successor(g[n], b), head, p);
  }

  /** Every block outside the segment returns what it returned before, if the order does not matter or the run
      does not come there. */
  lemma {:induction false} PulledResult(g: Graph, rank: seq<nat>, g': Graph, rank': seq<nat>, along: bool, t: int,
                                        seg: seq<nat>,
                                        blocks: set<nat>, n: nat, p: Packet)
    requires Ranked(g, rank) && Ranked(g', rank') && ClosedUnder(g, blocks) && Pulled(g, g', along, t, seg, blocks)
    requires n in blocks && n !in seg && (OrderFree(g, along, seg, p) || !Meets(g, rank, n, seg[0], p))
    ensures n < |g| && ResultOf(g', rank', n, p) == ResultOf(g, rank, n, p)
    decreases rank[n]
  {
    hide Chain, WayOf, OrderFree;
    ContentsStay(g, g', along, t, seg, blocks, n);
    assert Rewired(g, g', along, seg, blocks, n);
    match WayOf(g[n], BLANK_STATE, p)
    case Stops(_) =>
    case Goes(b) =>
      LeafStops(g[n], p);
      var next := Successor(g[n], b);
      if next == seg[0] {
        HeadResult(g, rank, g', rank', along, t, seg, blocks, p);
        var after := Along(g[seg[|seg| - 1]], along);
        OffSegment(g, rank, along, t, seg, t);
        OffSegment(g, rank, along, t, seg, after);
        AfterSegment(g, along, t, seg, blocks);
        OrderFreeEnds(g, along, seg, p);
        PulledResult(g, rank, g', rank', along, t, seg, blocks, t, p);
        PulledResult(g, rank, g', rank', along, t, seg, blocks, after, p);
      } else {
        PulledResult(g, rank, g', rank', along, t, seg, blocks, next, p);
      }
  }

  /** The end of the segment in the new order. */
  ghost function NewEnd(g: Graph, along: bool, seg: seq<nat>, p: Packet): End
    requires WellFormed(g) && seg != [] && forall i :: 0 <= i < |seg| ==> seg[i] < |g|
  {
    var pre, pull := EndOf(g, along, p, seg[..|seg| - 1]), EndOf(g, along, p, [seg[|seg| - 1]]);
    if pull.Passes? then pre else pull
  }

  lemma OrderFreeEnds(g: Graph, along: bool, seg: seq<nat>, p: Packet)
    requires WellFormed(g) && seg != [] && forall i :: 0 <= i < |seg| ==> seg[i] < |g|
    ensures OrderFree(g, along, seg, p) <==> NewEnd(g, along, seg, p) == EndOf(g, along, p, seg)
    ensures !OrderFree(g, along, seg, p) ==> !NewEnd(g, along, seg, p).Passes? && !EndOf(g, along, p, seg).Passes?
  {
    hide EndOf;
    var last := |seg| - 1;
    assert seg == seg[..last] + [seg[last]];
    EndAppend(g, along, p, seg[..last], [seg[last]]);
  }

  /** Where the order matters and the exit returns a value, the result changes. */
  lemma {:induction false} PulledDiffers(g: Graph, rank: seq<nat>, g': Graph, rank': seq<nat>, along: bool, t: int,
                                         seg: seq<nat>,
                                         blocks: set<nat>, n: nat, p: Packet)
    requires Ranked(g, rank) && Ranked(g', rank') && ClosedUnder(g, blocks) && Pulled(g, g', along, t, seg, blocks)
    requires n in blocks && n !in seg && !OrderFree(g, along, seg, p) && Meets(g, rank, n, seg[0], p)
    requires 0 <= t < |g| && ResultOf(g, rank, t, p).Return?
    ensures ResultOf(g', rank', n, p) != ResultOf(g, rank, n, p)
    decreases rank[n]
  {
    hide Chain, WayOf, OrderFree, EndOf, Rest;
    ContentsStay(g, g', along, t, seg, blocks, n);
    assert Rewired(g, g', along, seg, blocks, n);
    var next := Successor(g[n], WayOf(g[n], BLANK_STATE, p).taken);
    LeafStops(g[n], p);
    if next == seg[0] {
      HeadDiffers(g, rank, g', rank', along, t, seg, blocks, p);
    } else {
      PulledDiffers(g, rank, g', rank', along, t, seg, blocks, next, p);
    }
  }

  lemma HeadDiffers(g: Graph, rank: seq<nat>, g': Graph, rank': seq<nat>, along: bool, t: int, seg: seq<nat>,
                    blocks: set<nat>, p: Packet)
    requires Ranked(g, rank) && Ranked(g', rank') && ClosedUnder(g, blocks) && Pulled(g, g', along, t, seg, blocks)
    requires !OrderFree(g, along, seg, p) && 0 <= t < |g| && ResultOf(g, rank, t, p).Return?
    ensures ResultOf(g', rank', seg[|seg| - 1], p) != ResultOf(g, rank, seg[0], p)
  {
    hide Chain, WayOf, OrderFree, EndOf, ResultOf, Meets, Rewired;
    HeadResult(g, rank, g', rank', along, t, seg, blocks, p);
    OrderFreeEnds(g, along, seg, p);
    OffSegment(g, rank, along, t, seg, t);
    AfterSegment(g, along, t, seg, blocks);
    BelowMisses(g, rank, t, seg[0], p);
    PulledResult(g, rank, g', rank', along, t, seg, blocks, t, p);
    NoValues(g, along, t, seg, p);
  }

  lemma NoValues(g: Graph, along: bool, t: int, seg: seq<nat>, p: Packet)
    requires WellFormed(g) && seg != [] && Chain(g, along, t, seg)
    ensures var e := EndOf(g, along, p, seg); e.Ends? ==> !e.r.Return?
    ensures var e := NewEnd(g, along, seg, p); e.Ends? ==> !e.r.Return?
  {
    hide EndOf;
    forall i | 0 <= i < |seg| ensures seg[i] < |g| { assert InChain(g, along, t, seg[i]); }
    NoValueInChain(g, along, t, seg, p);
    NoValueInChain(g, along, t, seg[..|seg| - 1], p);
    NoValueInChain(g, along, t, [seg[|seg| - 1]], p);
  }

  lemma LeafStops(n: Node, p: Packet)
    requires (!IsLeaf(n) ==> n.s.code.Jmp?) && WayOf(n, BLANK_STATE, p).Goes?
    ensures !IsLeaf(n)
  {
  }

  lemma AfterSegment(g: Graph, along: bool, t: int, seg: seq<nat>, blocks: set<nat>)
    requires ClosedUnder(g, blocks) && |seg| > 1 && Chain(g, along, t, seg) && seg[|seg| - 1] in blocks
    ensures t in blocks && Along(g[seg[|seg| - 1]], along) in blocks
  {
    assert InChain(g, along, t, seg[|seg| - 1]);
  }

  /** Entering at the old head and at the pulled test: the segment in the old and in the new order. */
  lemma HeadResult(g: Graph, rank: seq<nat>, g': Graph, rank': seq<nat>, along: bool, t: int, seg: seq<nat>,
                   blocks: set<nat>, p: Packet)
    requires Ranked(g, rank) && Ranked(g', rank') && Pulled(g, g', along, t, seg, blocks)
    ensures var last := |seg| - 1;
            var after := Along(g[seg[last]], along);
            && seg[0] < |g| && seg[last] < |g| && 0 <= t < |g| && 0 <= after < |g|
            && ResultOf(g, rank, seg[0], p) == Rest(g, rank, t, after, EndOf(g, along, p, seg), p)
            && ResultOf(g', rank', seg[last], p) == Rest(g', rank', t, after, NewEnd(g, along, seg, p), p)
  {
    hide Chain, WayOf, ResultOf, Rewired, EndOf;
    var last := |seg| - 1;
    var pull, pre := [seg[last]], seg[..last];
    ChainResult(g, rank, along, t, seg, p);
    PulledChain(g, rank, g', along, t, seg, blocks);
    ChainResult(g', rank', along, t, pull + pre, p);
    SameEnds(g, g', along, t, seg, blocks, pull + pre, p);
    EndAppend(g, along, p, pull, pre);
    EndEmpty(g, along, p);
  }

  lemma EndEmpty(g: Graph, along: bool, p: Packet)
    requires WellFormed(g)
    ensures EndOf(g, along, p, []).Passes?
  {
  }

  lemma {:induction false} SameEnds(g: Graph, g': Graph, along: bool, t: int, seg: seq<nat>, blocks: set<nat>,
                                    cs: seq<nat>, p: Packet)
    requires WellFormed(g) && WellFormed(g') && Pulled(g, g', along, t, seg, blocks)
    requires forall i :: 0 <= i < |cs| ==> cs[i] < |g|
    ensures |g'| == |g| && EndOf(g', along, p, cs) == EndOf(g, along, p, cs)
    decreases |cs|
  {
    hide Pulled, WayOf;
    SameSize(g, g', along, t, seg, blocks);
    if cs != [] {
      ContentsStay(g, g', along, t, seg, blocks, cs[0]);
      SameEnds(g, g', along, t, seg, blocks, cs[1..], p);
    }
  }

  lemma SameSize(g: Graph, g': Graph, along: bool, t: int, seg: seq<nat>, blocks: set<nat>)
    requires Pulled(g, g', along, t, seg, blocks)
    ensures |g'| == |g|
  {
  }

  /** A pull-up keeps the graph acyclic; where the packet alone decides every test, it keeps the result exactly if
      the order of the tests does not matter on this packet or the run does not come to them. */
  lemma PullupPreserves(g: Graph, rank: seq<nat>, g': Graph, along: bool, t: int, seg: seq<nat>, blocks: set<nat>,
                        root: nat, st: State, p: Packet)
    requires Ranked(g, rank) && ClosedUnder(g, blocks) && Pulled(g, g', along, t, seg, blocks)
    requires root in blocks && root !in seg && AllFixed(g, blocks, p)
    ensures root < |g'| == |g| && Ranked(g', NewRank(g, rank, blocks, seg[0], seg[|seg| - 1])) && 0 <= t < |g|
    ensures var harmless := OrderFree(g, along, seg, p) || !Meets(g, rank, root, seg[0], p);
            var same := RunGraph(g', NewRank(g, rank, blocks, seg[0], seg[|seg| - 1]), root, st, p) ==
              RunGraph(g, rank, root, st, p);
            (harmless ==> same) && (!harmless && RunGraph(g, rank, t, st, p).Return? ==> !same)
  {
    hide Chain, WayOf, OrderFree, Meets, ResultOf, Rewired, NewRank, RunGraph;
    PulledIsRanked(g, rank, g', along, t, seg, blocks);
    var rank' := NewRank(g, rank, blocks, seg[0], seg[|seg| - 1]);
    OffSegment(g, rank, along, t, seg, t);
    AfterSegment(g, along, t, seg, blocks);
    FixedRuns(g, rank, blocks, root, st, p);
    FixedRuns(g, rank, blocks, t, st, p);
    forall b | b in blocks ensures b < |g| && Fixed(g'[b], p) {
      ContentsStay(g, g', along, t, seg, blocks, b);
      assert Fixed(g[b], p);
    }
    FixedRuns(g', rank', blocks, root, st, p);
    if OrderFree(g, along, seg, p) || !Meets(g, rank, root, seg[0], p) {
      PulledResult(g, rank, g', rank', along, t, seg, blocks, root, p);
    } else if RunGraph(g, rank, t, st, p).Return? {
      PulledDiffers(g, rank, g', rank', along, t, seg, blocks, root, p);
    }
  }

  ghost predicate AllGo(g: Graph, cs: seq<nat>, p: Packet)
    requires WellFormed(g)
  {
    forall i :: 0 <= i < |cs| ==> cs[i] < |g| && WayOf(g[cs[i]], BLANK_STATE, p).Goes?
  }

  /** The order does not matter where no test stops the run. */
  lemma GoingIsFree(g: Graph, along: bool, seg: seq<nat>, p: Packet)
    requires WellFormed(g) && seg != [] && AllGo(g, seg, p)
    ensures OrderFree(g, along, seg, p)
  {
    hide WayOf, EndOf;
    GoingEnds(g, along, seg[..|seg| - 1], p);
    GoingEnds(g, along, [seg[|seg| - 1]], p);
  }

  lemma {:induction false} GoingEnds(g: Graph, along: bool, cs: seq<nat>, p: Packet)
    requires WellFormed(g) && AllGo(g, cs, p)
    ensures !EndOf(g, along, p, cs).Ends?
    decreases |cs|
  {
    hide WayOf;
    if cs != [] { GoingEnds(g, along, cs[1..], p); }
  }

  /** For every packet that alone decides every test the new graph, which is acyclic, returns what the old one
      returned, exactly if the order of the segment's tests does not matter or the run does not come there
      (one way only where the exit returns no value). */
  ghost predicate KeepsResults(g: Graph, rank: seq<nat>, g': Graph, along: bool, t: int, root: nat, seg: seq<nat>,
                               blocks: set<nat>)
    requires Ranked(g, rank) && root < |g|
  {
    && 0 <= t < |g| == |g'| && seg != [] && (forall i :: 0 <= i < |seg| ==> seg[i] < |g|)
    && (var rank' := NewRank(g, rank, blocks, seg[0], seg[|seg| - 1]);
        Ranked(g', rank') &&
        forall st, p {:trigger RunGraph(g', rank', root, st, p)} :: AllFixed(g, blocks, p) ==>
          var harmless := OrderFree(g, along, seg, p) || !Meets(g, rank, root, seg[0], p);
          var same := RunGraph(g', rank', root, st, p) == RunGraph(g, rank, root, st, p);
          (harmless ==> same) && (!harmless && RunGraph(g, rank, t, st, p).Return? ==> !same))
  }

  lemma PulledKeepsResults(g: Graph, rank: seq<nat>, g': Graph, along: bool, t: int, seg: seq<nat>, root: nat)
    requires Ranked(g, rank) && root < |g| && Pulled(g, g', along, t, seg, Below(g, rank, root))
    requires forall i :: 0 <= i < |seg| ==> seg[i] != root
    ensures KeepsResults(g, rank, g', along, t, root, seg, Below(g, rank, root))
  {
    hide Chain, WayOf, OrderFree, Meets, AllFixed, Rewired, NewRank, RunGraph, Below;
    var blocks := Below(g, rank, root);
    RootBelow(g, rank, root);
    forall b | b in blocks ensures b < |g| && (!IsLeaf(g[b]) ==> g[b].jt in blocks && g[b].jf in blocks) {
      BelowBasics(g, rank, root, b);
      if !IsLeaf(g[b]) {
        LinkedBelow(g, rank, root, b, g[b].jt);
        LinkedBelow(g, rank, root, b, g[b].jf);
      }
    }
    PulledIsRanked(g, rank, g', along, t, seg, blocks);
    OffSegment(g, rank, along, t, seg, t);
    var rank' := NewRank(g, rank, blocks, seg[0], seg[|seg| - 1]);
    forall st, p | AllFixed(g, blocks, p)
      ensures var harmless := OrderFree(g, along, seg, p) || !Meets(g, rank, root, seg[0], p);
              var same := RunGraph(g', rank', root, st, p) == RunGraph(g, rank, root, st, p);
              (harmless ==> same) && (!harmless && RunGraph(g, rank, t, st, p).Return? ==> !same)
    {
      PullupPreserves(g, rank, g', along, t, seg, blocks, root, st, p);
    }
  }

  /** The outcome of a pull-up at b: a segment of the chain below b, dominated by b and
      without the root, is rewired, and results are kept. */
  ghost predicate PulledUp(g: Graph, rank: seq<nat>, g': Graph, root: nat, along: bool, b: nat, seg: seq<nat>)
    requires Ranked(g, rank) && root < |g| && b < |g|
  {
    && Pulled(g, g', along, Exit(g[b], along), seg, Below(g, rank, root))
    && (forall i :: 0 <= i < |seg| ==> Dominates(g, root, b, seg[i]) && seg[i] != root)
    && KeepsResults(g, rank, g', along, Exit(g[b], along), root, seg, Below(g, rank, root))
  }

  lemma PulledUpChain(g: Graph, rank: seq<nat>, g': Graph, root: nat, along: bool, b: nat, cs: seq<nat>, k: nat,
                      inEdges: seq<seq<nat>>)
    requires Ranked(g, rank) && root < |g| && b < |g| && DominatedChain(g, rank, root, along, b, cs) && k < |cs|
    requires b in Below(g, rank, root) && |inEdges| == |g| && InEdgesOf(g, inEdges, Below(g, rank, root))
    requires inEdges[b] != []
    requires Pulled(g, g', along, Exit(g[b], along), cs[k..], Below(g, rank, root))
    ensures PulledUp(g, rank, g', root, along, b, cs[k..])
  {
    hide Below, DominatedChain, Pulled, Dominates, KeepsResults, InEdgesOf;
    Segment(g, rank, root, along, b, cs, k);
    RootAbove(g, rank, root, along, b, cs, k, inEdges);
    PulledKeepsResults(g, rank, g', along, Exit(g[b], along), cs[k..], root);
  }

  // ---------------------------------------------------------------- the pass

  /** Tests of a chain from b, all dominated by b. */
  ghost predicate DominatedChain(g: Graph, rank: seq<nat>, root: nat, along: bool, b: nat, cs: seq<nat>)
    requires Ranked(g, rank) && root < |g|
  {
    && b < |g| && Chain(g, along, Exit(g[b], along), cs) && (cs != [] ==> cs[0] == b)
    && (forall i :: 0 <= i < |cs| ==> cs[i] in Below(g, rank, root) && Dominates(g, root, b, cs[i]))
  }

  /** The block a chain from b goes on to. */
  ghost predicate NextOf(g: Graph, along: bool, b: nat, cs: seq<nat>, c: nat)
  {
    if cs == [] then c == b else cs[|cs| - 1] < |g| && Along(g[cs[|cs| - 1]], along) == c
  }

  lemma ChainNext(g: Graph, rank: seq<nat>, root: nat, along: bool, b: nat, cs: seq<nat>, c: nat)
    requires Ranked(g, rank) && root < |g| && DominatedChain(g, rank, root, along, b, cs) && NextOf(g, along, b, cs, c)
    requires c in Below(g, rank, root) && Dominates(g, root, b, c) && !IsLeaf(g[b]) && c < |g|
    requires Exit(g[c], along) == Exit(g[b], along)
    ensures DominatedChain(g, rank, root, along, b, cs + [c])
    ensures 0 <= Along(g[c], along) < |g| && rank[Along(g[c], along)] < rank[c]
    ensures Along(g[c], along) in Below(g, rank, root)
  {
    hide Dominates, Below;
    var ds, t := cs + [c], Exit(g[b], along);
    assert InChain(g, along, t, c);
    LinkedBelow(g, rank, root, c, Along(g[c], along));
    forall i | 0 <= i < |ds| ensures InChain(g, along, t, ds[i]) {
      if i < |cs| { assert ds[i] == cs[i]; }
    }
    forall i | 0 < i < |ds| ensures Along(g[ds[i - 1]], along) == ds[i] {
      assert ds[i - 1] == cs[i - 1];
    }
  }

  /** The first block of b's chain, from `at` on, whose value is not v (or is v); None if the chain, or b's
      dominance, ends before. */
  ghost function Sought(g: Graph, rank: seq<nat>, along: bool, b: nat, dom: seq<set<nat>>, aval: seq<nat>, v: nat,
                        whileSame: bool, at: nat): Option<nat>
    requires Ranked(g, rank) && b < |g| == |dom| == |aval| && at < |g| && !IsLeaf(g[b])
    decreases rank[at]
  {
    if Exit(g[at], along) != Exit(g[b], along) || b !in dom[at] then None
    else if (aval[at] == v) != whileSame then Some(at)
    else Sought(g, rank, along, b, dom, aval, v, whileSame, Along(g[at], along))
  }

  /** The two blocks of a pull-up: the first below b with another value than its predecessors leave, and the
      first after that with theirs. */
  ghost function Candidates(g: Graph, rank: seq<nat>, along: bool, b: nat, dom: seq<set<nat>>, aval: seq<nat>,
                            v: nat): Option<(nat, nat)>
    requires Ranked(g, rank) && b < |g| == |dom| == |aval| && !IsLeaf(g[b])
  {
    match Sought(g, rank, along, b, dom, aval, v, true, b)
    case None => None
    case Some(diff) =>
      if diff < |g| && 0 <= Along(g[diff], along) < |g| then
        match Sought(g, rank, along, b, dom, aval, v, false, Along(g[diff], along))
        case None => None
        case Some(pull) => Some((diff, pull))
      else None
  }

  /** The value number all predecessors of b leave in the accumulator, if there are any and they agree. */
  ghost function PredsValue(g: Graph, es: seq<nat>, aval: seq<nat>): Option<nat>
    requires |aval| == |g| && forall i :: 0 <= i < |es| ==> es[i] < 2 * |g|
  {
    if es == [] then None
    else
      var v := aval[Owner(|g|, es[0])];
      if forall i :: 0 <= i < |es| ==> aval[Owner(|g|, es[i])] == v then Some(v) else None
  }

  class Mover {
    var g: Graph

    constructor (g0: Graph)
      ensures g == g0
    {
      g := g0;
    }

    /** Follows the chain of b from `start` as long as the accumulator's number is v (or is not). */
    method Follow(b: nat, along: bool, dom: seq<set<nat>>, aval: seq<nat>, v: nat, whileSame: bool, start: nat,
                  before: nat,
                  ghost rank: seq<nat>, ghost root: nat, ghost cs0: seq<nat>)
      returns (found: bool, at: nat, above: nat, ghost cs: seq<nat>)
      requires Ranked(g, rank) && root < |g| && b < |g| == |dom| == |aval| && !IsLeaf(g[b])
      requires DominatorsExact(g, root, Below(g, rank, root), dom)
      requires DominatedChain(g, rank, root, along, b, cs0) && NextOf(g, along, b, cs0, start)
      requires start in Below(g, rank, root) && start < |g| && (cs0 != [] ==> before == cs0[|cs0| - 1])
      ensures found ==> cs0 < cs && cs[|cs| - 1] == at && DominatedChain(g, rank, root, along, b, cs)
      ensures found && |cs| > 1 ==> above == cs[|cs| - 2]
      ensures Sought(g, rank, along, b, dom, aval, v, whileSame, start) == if found then Some(at) else None
    {
      hide Below, DominatedChain, DominatorsExact;
      at, above, cs := start, before, cs0;
      while true
        invariant DominatedChain(g, rank, root, along, b, cs) && NextOf(g, along, b, cs, at) && cs0 <= cs
        invariant at < |g| && at in Below(g, rank, root) && (cs != [] ==> above == cs[|cs| - 1])
        invariant Sought(g, rank, along, b, dom, aval, v, whileSame, start) ==
                  Sought(g, rank, along, b, dom, aval, v, whileSame, at)
        decreases rank[at]
      {
        if Exit(g[at], along) != Exit(g[b], along) {
          return false, at, above, cs;
        }
        if b !in dom[at] {
          return false, at, above, cs;
        }
        InDom(g, root, Below(g, rank, root), dom, at, b);
        ChainNext(g, rank, root, along, b, cs, at);
        cs := cs + [at];
        if (aval[at] == v) != whileSame {
          return true, at, above, cs;
        }
        above, at := at, Along(g[at], along);
      }
    }

    /** Whether every predecessor of b leaves the same number in the accumulator. */
    method SameValue(b: nat, es: seq<nat>, aval: seq<nat>, v: nat) returns (same: bool)
      requires EdgesTo(g, b, es) && |aval| == |g|
      ensures same <==> forall i :: 0 <= i < |es| ==> aval[Owner(|g|, es[i])] == v
    {
      for i := 0 to |es|
        invariant forall j :: 0 <= j < i ==> aval[Owner(|g|, es[j])] == v
      {
        if aval[Owner(|g|, es[i])] != v {
          return false;
        }
      }
      return true;
    }

    /** Points every predecessor of b at the pulled-up block, one in-edge at a time. */
    method RetargetPreds(b: nat, pull: nat, es: seq<nat>)
      requires b != pull && EdgesTo(g, b, es) && NoRepeats(es)
      modifies this
      ensures g == RetargetAll(old(g), b, pull, es)
    {
      hide Retarget, NoRepeats;
      ghost var g0 := g;
      RetargetNone(g, b, pull);
      for i := 0 to |es|
        invariant |g| == |g0| && g == RetargetAll(g0, b, pull, es[..i])
      {
        var q := Owner(|g|, es[i]);
        RetargetStep(g0, b, pull, es, i, q);
        if g[q].jt == b {
          g := g[q := g[q].(jt := pull)];
        } else {
          g := g[q := g[q].(jf := pull)];
        }
      }
      assert es[..|es|] == es;
    }

    /** Moves the test at the end of the chain cs before the one at position k. */
    method Rewire(b: nat, along: bool, es: seq<nat>, diff: nat, above: nat, pull: nat, last: nat,
                  ghost rank: seq<nat>, ghost root: nat, ghost cs: seq<nat>, ghost k: nat, ghost inEdges: seq<seq<nat>>)
      requires Ranked(g, rank) && root < |g| && b < |g| && DominatedChain(g, rank, root, along, b, cs) && k < |cs| - 1
      requires diff == cs[k] && pull == cs[|cs| - 1] && last == cs[|cs| - 2] && (k > 0 ==> above == cs[k - 1])
      requires |inEdges| == |g| && InEdgesOf(g, inEdges, Below(g, rank, root)) && es == inEdges[b] != []
      requires NoRepeats(es)
      requires b in Below(g, rank, root)
      modifies this
      ensures PulledUp(old(g), rank, g, root, along, b, cs[k..])
    {
      hide Below, DominatedChain, Pulled, PulledUp, Retarget, NoRepeats, InEdgesOf;
      ghost var g0 := g;
      ChainInGraph(g, rank, root, along, b, cs, k);
      InEdgesValid(g, inEdges, Below(g, rank, root), b);
      EdgesStay(g, b, es, last, pull, rank, root, along, cs, inEdges);
      g := g[last := SetAlong(g[last], along, Along(g[pull], along))];
      g := g[pull := SetAlong(g[pull], along, diff)];
      if diff == b {
        RetargetPreds(b, pull, es);
        PulledAtTop(g0, g, rank, root, along, b, cs, k, inEdges);
      } else {
        g := g[above := SetAlong(g[above], along, pull)];
        PulledInside(g0, g, rank, root, along, b, cs, k);
      }
      PulledUpChain(g0, rank, g, root, along, b, cs, k, inEdges);
    }

    /** or_pullup (along == false) and and_pullup (along == true). */
    method Pullup(b: nat, along: bool, inEdges: seq<seq<nat>>, dom: seq<set<nat>>, aval: seq<nat>, root: nat,
                  ghost rank: seq<nat>)
      returns (moved: bool, ghost seg: seq<nat>)
      requires Ranked(g, rank) && root < |g| && b in Below(g, rank, root) && b < |g| == |dom| == |aval| && !IsLeaf(g[b])
      requires DominatorsExact(g, root, Below(g, rank, root), dom)
      requires |inEdges| == |g| && InEdgesOf(g, inEdges, Below(g, rank, root)) && NoRepeats(inEdges[b])
      modifies this
      ensures EdgesTo(old(g), b, inEdges[b])
      ensures match PredsValue(old(g), inEdges[b], aval)
              case None => !moved
              case Some(v) =>
                match Candidates(old(g), rank, along, b, dom, aval, v)
                case None => !moved
                case Some((diff, pull)) => moved && |seg| > 1 && seg[0] == diff && seg[|seg| - 1] == pull
      ensures !moved ==> g == old(g)
      ensures moved ==> PulledUp(old(g), rank, g, root, along, b, seg)
    {
      hide Sought, Below, DominatedChain, DominatorsExact, PulledUp, NoRepeats, InEdgesOf, EdgesTo, WellFormed;
      moved, seg := false, [];
      var es := inEdges[b];
      InEdgesValid(g, inEdges, Below(g, rank, root), b);
      EdgesInRange(g, b, es);
      if es == [] {
        return;
      }
      var v := aval[Owner(|g|, es[0])];
      var same := SameValue(b, es, aval, v);
      if !same {
        return;
      }
      StartOfChain(g, rank, root, along, b);
      var found, diff, above, cs := Follow(b, along, dom, aval, v, true, b, b, rank, root, []);
      if !found {
        return;
      }
      NextBelow(g, rank, root, along, b, cs);
      var found', pull, last, cs' := Follow(b, along, dom, aval, v, false, Along(g[diff], along), diff, rank, root, cs);
      if !found' {
        return;
      }
      moved, seg := true, cs'[|cs| - 1..];
      Rewire(b, along, es, diff, above, pull, last, rank, root, cs', |cs| - 1, inEdges);
    }
  }

  /** Edges of the graph that lead to b. */
  ghost predicate EdgesTo(g: Graph, b: nat, es: seq<nat>)
  {
    forall i :: 0 <= i < |es| ==> es[i] < 2 * |g| && Target(g, es[i]) == b
  }

  /** A block after its edges to b have been moved: `onTrue` and `onFalse` tell which have been met.
      Of two edges to b, whichever is met first moves the true branch. */
  function Retarget(n: Node, b: nat, pull: nat, onTrue: bool, onFalse: bool): Node
  {
    if n.jt == b && n.jf == b then
      n.(jt := if onTrue || onFalse then pull else b, jf := if onTrue && onFalse then pull else b)
    else n.(jt := if n.jt == b && onTrue then pull else n.jt, jf := if n.jf == b && onFalse then pull else n.jf)
  }

  function RetargetAll(g: Graph, b: nat, pull: nat, es: seq<nat>): (r: Graph)
    ensures |r| == |g|
  {
    seq(|g|, n requires 0 <= n < |g| => Retarget(g[n], b, pull, n in es, |g| + n in es))
  }

  lemma RetargetAt(g: Graph, b: nat, pull: nat, es: seq<nat>, n: nat)
    requires n < |g|
    ensures RetargetAll(g, b, pull, es)[n] == Retarget(g[n], b, pull, n in es, |g| + n in es)
  {
  }

  lemma RetargetNone(g: Graph, b: nat, pull: nat)
    ensures RetargetAll(g, b, pull, []) == g
  {
    hide Retarget;
    forall n | 0 <= n < |g| ensures RetargetAll(g, b, pull, [])[n] == g[n] { RetargetFacts(g[n], b, pull); }
  }

  lemma RetargetFacts(n: Node, b: nat, pull: nat)
    ensures Retarget(n, b, pull, false, false) == n
    ensures Retarget(n, b, pull, n.jt == b, n.jf == b) == n.(jt := Moved(n.jt, b, pull), jf := Moved(n.jf, b, pull))
  {
  }

  lemma RetargetStep(g: Graph, b: nat, pull: nat, es: seq<nat>, i: nat, q: nat)
    requires b != pull && EdgesTo(g, b, es) && NoRepeats(es) && i < |es| && q == Owner(|g|, es[i])
    ensures q < |g|
    ensures var g' := RetargetAll(g, b, pull, es[..i]);
            RetargetAll(g, b, pull, es[..i + 1]) ==
            g'[q := if g'[q].jt == b then g'[q].(jt := pull) else g'[q].(jf := pull)]
  {
    hide Retarget, RetargetAll;
    var done, done' := es[..i], es[..i + 1];
    var g', g'' := RetargetAll(g, b, pull, done), RetargetAll(g, b, pull, done');
    OtherEdges(g, b, es, i, q);
    RetargetOnce(g[q], b, pull, q in done, |g| + q in done, es[i] < |g|);
    forall n | 0 <= n < |g| ensures n != q ==> g''[n] == g'[n]
                            ensures n == q ==> g''[q] == if g'[q].jt == b then g'[q].(jt := pull)
                                    else g'[q].(jf := pull)
    {
      RetargetAt(g, b, pull, done, n);
      RetargetAt(g, b, pull, done', n);
      OneMoreEdge(es, i, n);
      OneMoreEdge(es, i, |g| + n);
    }
  }

  lemma OneMoreEdge(es: seq<nat>, i: nat, e: nat)
    requires i < |es|
    ensures e in es[..i + 1] <==> e in es[..i] || e == es[i]
  {
    assert es[..i + 1] == es[..i] + [es[i]];
  }

  /** The edges of q met before its edge at position i. */
  lemma OtherEdges(g: Graph, b: nat, es: seq<nat>, i: nat, q: nat)
    requires EdgesTo(g, b, es) && NoRepeats(es) && i < |es| && q == Owner(|g|, es[i])
    ensures es[i] !in es[..i]
    ensures q in es[..i] ==> g[q].jt == b
    ensures |g| + q in es[..i] ==> g[q].jf == b
    ensures if es[i] < |g| then es[i] == q && g[q].jt == b else es[i] == |g| + q && g[q].jf == b
  {
  }

  lemma RetargetOnce(n: Node, b: nat, pull: nat, onTrue: bool, onFalse: bool, now: bool)
    requires b != pull && (onTrue ==> n.jt == b) && (onFalse ==> n.jf == b)
    requires if now then !onTrue && n.jt == b else !onFalse && n.jf == b
    ensures var m := Retarget(n, b, pull, onTrue, onFalse);
            Retarget(n, b, pull, onTrue || now, onFalse || !now) == if m.jt == b then m.(jt := pull) else m.(jf := pull)
  {
  }

  lemma InDom(g: Graph, root: nat, blocks: set<nat>, dom: seq<set<nat>>, c: nat, b: nat)
    requires DominatorsExact(g, root, blocks, dom) && c in blocks && c < |dom| && b in dom[c]
    ensures Dominates(g, root, b, c)
  {
  }

  lemma EdgesInRange(g: Graph, b: nat, es: seq<nat>)
    requires EdgesTo(g, b, es)
    ensures forall i :: 0 <= i < |es| ==> es[i] < 2 * |g|
  {
  }

  lemma InEdgesValid(g: Graph, inEdges: seq<seq<nat>>, blocks: set<nat>, b: nat)
    requires InEdgesOf(g, inEdges, blocks) && b < |g|
    ensures b < |inEdges| && EdgesTo(g, b, inEdges[b])
  {
    forall i | 0 <= i < |inEdges[b]| ensures inEdges[b][i] < 2 * |g| && Target(g, inEdges[b][i]) == b {
      assert inEdges[b][i] in inEdges[b];
    }
  }

  lemma StartOfChain(g: Graph, rank: seq<nat>, root: nat, along: bool, b: nat)
    requires Ranked(g, rank) && root < |g| && b < |g|
    ensures DominatedChain(g, rank, root, along, b, []) && NextOf(g, along, b, [], b)
  {
  }

  lemma NextBelow(g: Graph, rank: seq<nat>, root: nat, along: bool, b: nat, cs: seq<nat>)
    requires Ranked(g, rank) && root < |g| && DominatedChain(g, rank, root, along, b, cs) && cs != [] && !IsLeaf(g[b])
    ensures var c := cs[|cs| - 1];
            && c < |g| && 0 <= Along(g[c], along) < |g| && Along(g[c], along) in Below(g, rank, root)
            && NextOf(g, along, b, cs, Along(g[c], along))
  {
    hide Below, Dominates;
    var c := cs[|cs| - 1];
    assert InChain(g, along, Exit(g[b], along), c) && c in Below(g, rank, root);
    LinkedBelow(g, rank, root, c, Along(g[c], along));
  }

  /** The end of a dominated chain, from position k: a chain of its own, without the root. */
  lemma Segment(g: Graph, rank: seq<nat>, root: nat, along: bool, b: nat, cs: seq<nat>, k: nat)
    requires Ranked(g, rank) && root < |g| && DominatedChain(g, rank, root, along, b, cs) && k < |cs|
    ensures Chain(g, along, Exit(g[b], along), cs[k..])
    ensures forall i :: 0 <= i < |cs[k..]| ==>
            cs[k..][i] in Below(g, rank, root) && Dominates(g, root, b, cs[k..][i]) && cs[k..][i] < |g|
  {
    hide Below, Dominates;
    var seg, t := cs[k..], Exit(g[b], along);
    forall i | 0 <= i < |seg| ensures InChain(g, along, t, seg[i]) { assert seg[i] == cs[k + i]; }
    forall i | 0 < i < |seg| ensures Along(g[seg[i - 1]], along) == seg[i] {
      assert seg[i] == cs[k + i] && seg[i - 1] == cs[k + i - 1];
    }
  }

  /** From outside, a segment is entered at its head only; inside the chain, only by the test before it. */
  lemma EnteredAtHead(g: Graph, rank: seq<nat>, root: nat, along: bool, b: nat, cs: seq<nat>, k: nat, n: nat)
    requires Ranked(g, rank) && root < |g| && DominatedChain(g, rank, root, along, b, cs) && k < |cs|
    requires n in Below(g, rank, root) && n < |g| && n !in cs[k..]
    ensures forall i :: 0 < i < |cs[k..]| ==> g[n].jt != cs[k..][i] && g[n].jf != cs[k..][i]
    ensures k > 0 && n != cs[k - 1] ==> g[n].jt != cs[k] && g[n].jf != cs[k]
    ensures k > 0 && n == cs[k - 1] ==> Exit(g[n], along) != cs[k] && Along(g[n], along) == cs[k]
  {
    hide Below, Dominates;
    var t, seg := Exit(g[b], along), cs[k..];
    forall i | 0 < i < |seg| ensures g[n].jt != seg[i] && g[n].jf != seg[i] {
      assert seg[i] == cs[k + i] && seg[i - 1] == cs[k + i - 1];
      LeafTargets(g, n);
      if Links(g, n, cs[k + i]) { SingleEntry(g, rank, root, along, t, cs, k + i, n); }
    }
    if k > 0 {
      LeafTargets(g, n);
      if n == cs[k - 1] { assert Along(g[n], along) == cs[k] && InChain(g, along, t, n); }
      if Links(g, n, cs[k]) { SingleEntry(g, rank, root, along, t, cs, k, n); }
    }
  }

  lemma LeafTargets(g: Graph, n: nat)
    requires WellFormed(g) && n < |g|
    ensures forall c: nat :: !Links(g, n, c) ==> g[n].jt != c && g[n].jf != c
  {
  }

  /** Distinct places of a falling chain hold distinct blocks. */
  lemma Distinctness(g: Graph, rank: seq<nat>, along: bool, t: int, cs: seq<nat>, k: nat)
    requires Ranked(g, rank) && Chain(g, along, t, cs) && k < |cs| - 1
    ensures cs[|cs| - 1] != cs[|cs| - 2]
    ensures forall i :: 0 <= i < |cs| - 1 ==> cs[i] != cs[|cs| - 1]
    ensures k > 0 ==> cs[k - 1] !in cs[k..]
  {
    var last := |cs| - 1;
    forall i | 0 <= i < last ensures cs[i] != cs[last] { ChainFalls(g, rank, along, t, cs, i, last); }
    if k > 0 {
      forall i | 0 <= i < |cs[k..]| ensures cs[k..][i] != cs[k - 1] {
        ChainFalls(g, rank, along, t, cs, k - 1, k + i);
      }
    }
  }

  lemma PulledInside(g: Graph, g': Graph, rank: seq<nat>, root: nat, along: bool, b: nat, cs: seq<nat>, k: nat)
    requires Ranked(g, rank) && root < |g| && b < |g| && DominatedChain(g, rank, root, along, b, cs) && 0 < k < |cs| - 1
    requires forall i :: 0 <= i < |cs| ==> cs[i] < |g|
    requires var last := |cs| - 1;
             var g1 := g[cs[last - 1] := SetAlong(g[cs[last - 1]], along, Along(g[cs[last]], along))];
             var g2 := g1[cs[last] := SetAlong(g1[cs[last]], along, cs[k])];
             g' == g2[cs[k - 1] := SetAlong(g2[cs[k - 1]], along, cs[last])]
    ensures Pulled(g, g', along, Exit(g[b], along), cs[k..], Below(g, rank, root))
  {
    hide Below, Dominates, Rewired, SetAlong, DominatedChain, Chain, Exit, Along;
    var last, t, seg, blocks := |cs| - 1, Exit(g[b], along), cs[k..], Below(g, rank, root);
    Segment(g, rank, root, along, b, cs, k);
    Segment(g, rank, root, along, b, cs, 0);
    assert cs[0..] == cs;
    Distinctness(g, rank, along, t, cs, k);
    forall n | 0 <= n < |g| ensures Rewired(g, g', along, seg, blocks, n) {
      if n in blocks && n !in seg { EnteredAtHead(g, rank, root, along, b, cs, k, n); }
      InsideNode(g, g', along, cs, k, blocks, n);
    }
  }

  lemma InsideNode(g: Graph, g': Graph, along: bool, cs: seq<nat>, k: nat, blocks: set<nat>, n: nat)
    requires 0 < k < |cs| - 1 && |g'| == |g| && n < |g| && cs[|cs| - 1] < |g| && cs[|cs| - 2] < |g| && cs[k - 1] < |g|
    requires cs[|cs| - 2] != cs[|cs| - 1] && cs[k - 1] !in cs[k..] && cs[k - 1] in blocks
    requires var last := |cs| - 1;
             var g1 := g[cs[last - 1] := SetAlong(g[cs[last - 1]], along, Along(g[cs[last]], along))];
             var g2 := g1[cs[last] := SetAlong(g1[cs[last]], along, cs[k])];
             g'[n] == g2[cs[k - 1] := SetAlong(g2[cs[k - 1]], along, cs[last])][n]
    requires n in blocks && n !in cs[k..] ==>
               && (forall i :: 0 < i < |cs[k..]| ==> g[n].jt != cs[k..][i] && g[n].jf != cs[k..][i])
               && (n != cs[k - 1] ==> g[n].jt != cs[k] && g[n].jf != cs[k])
               && (n == cs[k - 1] ==> Exit(g[n], along) != cs[k] && Along(g[n], along) == cs[k])
    ensures Rewired(g, g', along, cs[k..], blocks, n)
  {
    var last, seg := |cs| - 1, cs[k..];
    assert seg[|seg| - 1] == cs[last] && seg[|seg| - 2] == cs[last - 1] && seg[0] == cs[k];
    assert cs[last] in seg && cs[last - 1] in seg;
  }

  lemma PulledAtTop(g: Graph, g': Graph, rank: seq<nat>, root: nat, along: bool, b: nat, cs: seq<nat>, k: nat,
                    inEdges: seq<seq<nat>>)
    requires Ranked(g, rank) && root < |g| && DominatedChain(g, rank, root, along, b, cs) && k == 0 < |cs| - 1
    requires |inEdges| == |g| && InEdgesOf(g, inEdges, Below(g, rank, root)) && b < |g| == |g'|
    requires forall i :: 0 <= i < |cs| ==> cs[i] < |g|
    requires var last, es := |cs| - 1, inEdges[b];
             var g1 := g[cs[last - 1] := SetAlong(g[cs[last - 1]], along, Along(g[cs[last]], along))];
             var g2 := g1[cs[last] := SetAlong(g1[cs[last]], along, b)];
             g' == RetargetAll(g2, b, cs[last], es)
    ensures Pulled(g, g', along, Exit(g[b], along), cs[k..], Below(g, rank, root))
  {
    hide Below, Dominates, Rewired, Retarget, RetargetAll, SetAlong, DominatedChain, Chain, InEdgesOf, Exit, Along;
    var last, t, seg, blocks, es := |cs| - 1, Exit(g[b], along), cs[k..], Below(g, rank, root), inEdges[b];
    Segment(g, rank, root, along, b, cs, k);
    assert seg == cs;
    ChainInGraph(g, rank, root, along, b, cs, k);
    Distinctness(g, rank, along, t, cs, k);
    var g1 := g[cs[last - 1] := SetAlong(g[cs[last - 1]], along, Along(g[cs[last]], along))];
    var g2 := g1[cs[last] := SetAlong(g1[cs[last]], along, b)];
    forall n | 0 <= n < |g| ensures Rewired(g, g', along, seg, blocks, n) {
      RetargetAt(g2, b, cs[last], es, n);
      PredsAbove(g, rank, along, t, cs, inEdges, blocks, b, n);
      if n in blocks && n !in seg { EnteredAtHead(g, rank, root, along, b, cs, k, n); }
      TopNode(g, g', along, b, cs, blocks, inEdges[b], n);
    }
  }

  lemma TopNode(g: Graph, g': Graph, along: bool, b: nat, cs: seq<nat>, blocks: set<nat>, es: seq<nat>, n: nat)
    requires |cs| > 1 && b == cs[0] && |g'| == |g| && n < |g| && cs[|cs| - 1] < |g| && cs[|cs| - 2] < |g|
    requires cs[|cs| - 2] != cs[|cs| - 1]
    requires var last := |cs| - 1;
             var g1 := g[cs[last - 1] := SetAlong(g[cs[last - 1]], along, Along(g[cs[last]], along))];
             var g2 := g1[cs[last] := SetAlong(g1[cs[last]], along, b)];
             g'[n] == Retarget(g2[n], b, cs[last], n in es, |g| + n in es)
    requires n in cs || n !in blocks ==> n !in es && |g| + n !in es
    requires n in blocks ==> (g[n].jt == b <==> n in es) && (g[n].jf == b <==> |g| + n in es)
    requires n in blocks && n !in cs ==> forall i :: 0 < i < |cs| ==> g[n].jt != cs[i] && g[n].jf != cs[i]
    ensures Rewired(g, g', along, cs, blocks, n)
  {
    hide Retarget, SetAlong, Moved;
    var last := |cs| - 1;
    assert cs[last] in cs && cs[last - 1] in cs;
    RetargetFacts(g[n], b, cs[last]);
    RetargetFacts(SetAlong(g[n], along, Along(g[cs[last]], along)), b, cs[last]);
    RetargetFacts(SetAlong(g[n], along, b), b, cs[last]);
  }

  /** No test of the chain from b is a predecessor of b. */
  lemma PredsAbove(g: Graph, rank: seq<nat>, along: bool, t: int, cs: seq<nat>, inEdges: seq<seq<nat>>,
                   blocks: set<nat>, b: nat, n: nat)
    requires Ranked(g, rank) && Chain(g, along, t, cs) && cs != [] && cs[0] == b < |g| && n < |g|
    requires InEdgesOf(g, inEdges, blocks)
    ensures n in cs ==> n !in inEdges[b] && |g| + n !in inEdges[b]
    ensures n !in blocks ==> n !in inEdges[b] && |g| + n !in inEdges[b]
    ensures n in blocks ==> (g[n].jt == b <==> n in inEdges[b]) && (g[n].jf == b <==> |g| + n in inEdges[b])
  {
    assert n in inEdges[b] <==> EdgeOf(|g|, blocks, n) && Target(g, n) == b;
    assert |g| + n in inEdges[b] <==> EdgeOf(|g|, blocks, |g| + n) && Target(g, |g| + n) == b;
    if n in cs {
      var i :| 0 <= i < |cs| && cs[i] == n;
      assert InChain(g, along, t, n);
      ChainFalls(g, rank, along, t, cs, 0, i);
    }
  }

  lemma ChainInGraph(g: Graph, rank: seq<nat>, root: nat, along: bool, b: nat, cs: seq<nat>, k: nat)
    requires Ranked(g, rank) && root < |g| && DominatedChain(g, rank, root, along, b, cs) && k < |cs| - 1
    ensures forall i :: 0 <= i < |cs| ==> cs[i] < |g|
    ensures cs[0] == b && (cs[k] == b <==> k == 0) && b != cs[|cs| - 1]
  {
    hide Below, Dominates;
    var t := Exit(g[b], along);
    assert forall i :: 0 <= i < |cs| ==> InChain(g, along, t, cs[i]);
    ChainFalls(g, rank, along, t, cs, 0, k);
    ChainFalls(g, rank, along, t, cs, 0, |cs| - 1);
  }

  /** The root has no predecessors, so it is not on a chain below a block that has one. */
  lemma RootAbove(g: Graph, rank: seq<nat>, root: nat, along: bool, b: nat, cs: seq<nat>, k: nat,
                  inEdges: seq<seq<nat>>)
    requires Ranked(g, rank) && root < |g| && DominatedChain(g, rank, root, along, b, cs) && k < |cs|
    requires b in Below(g, rank, root) && InEdgesOf(g, inEdges, Below(g, rank, root)) && b < |g| && inEdges[b] != []
    ensures forall i :: 0 <= i < |cs[k..]| ==> cs[k..][i] != root
  {
    hide Below, Dominates;
    var e := inEdges[b][0];
    assert e in inEdges[b];
    BelowBasics(g, rank, root, Owner(|g|, e));
    forall i | 0 <= i < |cs[k..]| ensures cs[k..][i] != root {
      ChainFalls(g, rank, along, Exit(g[b], along), cs, 0, k + i);
    }
  }

  /** Rewiring the chain leaves the edges into its first block alone. */
  lemma EdgesStay(g: Graph, b: nat, es: seq<nat>, last: nat, pull: nat, rank: seq<nat>, root: nat, along: bool,
                  cs: seq<nat>, inEdges: seq<seq<nat>>)
    requires Ranked(g, rank) && root < |g| && b < |g| && DominatedChain(g, rank, root, along, b, cs) && |cs| > 1
    requires last < |g| && pull < |g| && last in cs && pull in cs
    requires InEdgesOf(g, inEdges, Below(g, rank, root)) && es == inEdges[b]
    ensures forall g': Graph ::
              |g'| == |g| && (forall n :: 0 <= n < |g| && n != last && n != pull ==> g'[n] == g[n]) ==>
                EdgesTo(g', b, es)
  {
    hide Below, Dominates;
    InEdgesValid(g, inEdges, Below(g, rank, root), b);
    forall i | 0 <= i < |es| ensures es[i] < 2 * |g| && Owner(|g|, es[i]) != last && Owner(|g|, es[i]) != pull {
      PredsAbove(g, rank, along, Exit(g[b], along), cs, inEdges, Below(g, rank, root), b, last);
      PredsAbove(g, rank, along, Exit(g[b], along), cs, inEdges, Below(g, rank, root), b, pull);
      assert es[i] in inEdges[b];
    }
  }
}
