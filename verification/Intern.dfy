/** Merging equal blocks: intern_blocks keeps every result, ends, and leaves no two equal blocks. */
module Intern {
  import opened Words
  import opened Machine
  import opened FlowGraph
  import opened Levels
  import opened Dominators

  // ------------------------------------------------------------ equal blocks

  /** A statement list without its deleted statements. */
  function Strip(ss: seq<Stmt>): seq<Stmt>
  {
    if ss == [] then [] else if ss[0].code == Nop then Strip(ss[1..]) else [ss[0]] + Strip(ss[1..])
  }

  lemma {:induction false} StripRuns(ss: seq<Stmt>, st: State, p: Packet)
    ensures ExecList(Strip(ss), st, p) == ExecList(ss, st, p)
    decreases |ss|
  {
    hide Exec;
    if ss != [] {
      NopDoesNothing(ss[0], st, p);
      match Exec(ss[0], st, p)
      case Next(st') =>
        StripRuns(ss[1..], st', p);
        assert ss[0].code != Nop ==> ([ss[0]] + Strip(ss[1..]))[1..] == Strip(ss[1..]);
      case _ =>
    }
  }

  /** eq_slist: compares two lists, skipping what is deleted. */
  method EqSlist(x: seq<Stmt>, y: seq<Stmt>) returns (eq: bool)
    ensures eq <==> Strip(x) == Strip(y)
  {
    var i, j := 0, 0;
    while true
      invariant 0 <= i <= |x| && 0 <= j <= |y|
      invariant Strip(x) == Strip(y) <==> Strip(x[i..]) == Strip(y[j..])
      decreases |x| - i + |y| - j
    {
      i := SkipNops(x, i);
      j := SkipNops(y, j);
      if i == |x| {
        return j == |y|;
      }
      if j == |y| {
        return i == |x|;
      }
      assert Strip(x[i..])[0] == x[i] && Strip(y[j..])[0] == y[j];
      if x[i].code != y[j].code || x[i].k != y[j].k {
        return false;
      }
      assert Strip(x[i..])[1..] == Strip(x[i..][1..]) && Strip(y[j..])[1..] == Strip(y[j..][1..]);
      assert x[i..][1..] == x[i + 1..] && y[j..][1..] == y[j + 1..];
      i, j := i + 1, j + 1;
    }
  }

  method SkipNops(x: seq<Stmt>, i0: nat) returns (i: nat)
    requires i0 <= |x|
    ensures i0 <= i <= |x| && Strip(x[i..]) == Strip(x[i0..]) && (i < |x| ==> x[i].code != Nop)
  {
    i := i0;
    while i < |x| && x[i].code == Nop
      invariant i0 <= i <= |x| && Strip(x[i..]) == Strip(x[i0..])
    {
      assert x[i..][1..] == x[i + 1..];
      i := i + 1;
    }
  }

  /** Blocks that do the same: same branch, same successors, same statements. */
  ghost predicate SameBlock(m: Node, n: Node)
  {
    m.s == n.s && m.jt == n.jt && m.jf == n.jf && Strip(m.stmts) == Strip(n.stmts)
  }

  method EqBlk(m: Node, n: Node) returns (eq: bool)
    ensures eq <==> SameBlock(m, n)
  {
    if m.s.code == n.s.code && m.s.k == n.s.k && m.jt == n.jt && m.jf == n.jf {
      eq := EqSlist(m.stmts, n.stmts);
    } else {
      eq := false;
    }
  }

  lemma SameBlockRuns(g: Graph, rank: seq<nat>, b: nat, c: nat, st: State, p: Packet)
    requires Ranked(g, rank) && b < |g| && c < |g| && SameBlock(g[b], g[c])
    ensures RunGraph(g, rank, b, st, p) == RunGraph(g, rank, c, st, p)
  {
    StripRuns(g[b].stmts, st, p);
    StripRuns(g[c].stmts, st, p);
  }

  // ------------------------------------------------------------------ levels

  /** Levels as a local equation; a rank that equal blocks share. */
  ghost predicate LevelRank(g: Graph, lv: seq<nat>)
  {
    |lv| == |g| && WellFormed(g) &&
    forall b :: 0 <= b < |g| ==> lv[b] == if IsLeaf(g[b]) then 0 else Max(lv[g[b].jt], lv[g[b].jf]) + 1
  }

  ghost function LevelsOf(g: Graph, rank: seq<nat>): (lv: seq<nat>)
    requires Ranked(g, rank)
    ensures LevelRank(g, lv)
  {
    seq(|g|, b requires 0 <= b < |g| && Ranked(g, rank) => Level(g, rank, b))
  }

  lemma LevelRankIsRank(g: Graph, lv: seq<nat>)
    requires LevelRank(g, lv)
    ensures Ranked(g, lv)
  {
  }

  // ------------------------------------------------------------- redirection

  function Linked(link: seq<int>, b: int): int
    requires 0 <= b < |link|
  {
    if link[b] != NIL then link[b] else b
  }

  function RedirectNode(n: Node, link: seq<int>): Node
    requires NodeOk(n, |link|)
  {
    if IsLeaf(n) then n else n.(jt := Linked(link, n.jt), jf := Linked(link, n.jf))
  }

  function Redirect(g: Graph, link: seq<int>): Graph
    requires WellFormed(g) && |link| == |g|
  {
    seq(|g|, b requires 0 <= b < |g| && WellFormed(g) && |link| == |g| => RedirectNode(g[b], link))
  }

  /** Links lead to equal blocks further on. */
  ghost predicate LinksOk(g: Graph, link: seq<int>)
  {
    |link| == |g| &&
    forall b :: 0 <= b < |g| && link[b] != NIL ==> b < link[b] < |g| && SameBlock(g[b], g[link[b]])
  }

  lemma RedirectKeepsLevels(g: Graph, lv: seq<nat>, link: seq<int>)
    requires LevelRank(g, lv) && LinksOk(g, link)
    ensures LevelRank(Redirect(g, link), lv)
  {
    assert forall b :: 0 <= b < |g| ==> lv[Linked(link, b)] == lv[b];
  }

  /** Redirecting keeps the result of every run from every block. */
  lemma {:induction false} RedirectRuns(g: Graph, lv: seq<nat>, link: seq<int>, b: nat, st: State, p: Packet)
    requires LevelRank(g, lv) && LinksOk(g, link) && b < |g|
    ensures LevelRank(Redirect(g, link), lv) && Ranked(g, lv) && Ranked(Redirect(g, link), lv)
    ensures RunGraph(Redirect(g, link), lv, b, st, p) == RunGraph(g, lv, b, st, p)
    decreases lv[b]
  {
    hide SameBlock;
    RedirectKeepsLevels(g, lv, link);
    LevelRankIsRank(g, lv);
    LevelRankIsRank(Redirect(g, link), lv);
    if !IsLeaf(g[b]) {
      match ExecList(g[b].stmts, st, p)
      case Next(st') =>
        var c := Successor(g[b], Taken(g[b].s, st'));
        LinkedIsSame(g, lv, link, c, st', p);
        RedirectRuns(g, lv, link, Linked(link, c), st', p);
      case _ =>
    }
  }

  lemma LinkedIsSame(g: Graph, lv: seq<nat>, link: seq<int>, c: nat, st: State, p: Packet)
    requires LevelRank(g, lv) && LinksOk(g, link) && c < |g|
    ensures 0 <= Linked(link, c) < |g| && lv[Linked(link, c)] == lv[c] && Ranked(g, lv)
    ensures RunGraph(g, lv, Linked(link, c), st, p) == RunGraph(g, lv, c, st, p)
  {
    hide RunGraph;
    LevelRankIsRank(g, lv);
    if link[c] != NIL { SameBlockRuns(g, lv, c, link[c], st, p); }
  }

  // ------------------------------------------------------------- termination

  /** How much further the branches of a block could still be redirected. */
  ghost function NodeRoom(n: Node, size: nat): nat
    requires NodeOk(n, size)
  {
    if IsLeaf(n) then 0 else (size - n.jt) + (size - n.jf)
  }

  ghost function Headroom(g: Graph, n: nat): nat
    requires WellFormed(g) && n <= |g|
  {
    if n == 0 then 0 else Headroom(g, n - 1) + NodeRoom(g[n - 1], |g|)
  }

  lemma NodeRoomFalls(g: Graph, link: seq<int>, b: nat)
    requires WellFormed(g) && LinksOk(g, link) && b < |g|
    ensures var n := RedirectNode(g[b], link);
            NodeOk(n, |g|) && (if n == g[b] then NodeRoom(n, |g|) == NodeRoom(g[b], |g|)
              else NodeRoom(n, |g|) < NodeRoom(g[b], |g|))
  {
  }

  lemma {:induction false} HeadroomFalls(g: Graph, link: seq<int>, n: nat)
    requires WellFormed(g) && LinksOk(g, link) && n <= |g| && WellFormed(Redirect(g, link))
    ensures Headroom(Redirect(g, link), n) <= Headroom(g, n)
    ensures Redirect(g, link)[..n] != g[..n] ==> Headroom(Redirect(g, link), n) < Headroom(g, n)
  {
    hide NodeRoom, RedirectNode, NodeOk, SameBlock;
    var g' := Redirect(g, link);
    if n > 0 {
      HeadroomFalls(g, link, n - 1);
      NodeRoomFalls(g, link, n - 1);
      assert g'[..n] == g'[..n - 1] + [g'[n - 1]] && g[..n] == g[..n - 1] + [g[n - 1]];
    }
  }

  // ----------------------------------------------------------------- the pass

  /** Equal blocks further on that are also marked. */
  ghost predicate HasTwin(g: Graph, marked: set<nat>, i: nat, n: nat)
    requires i < |g| && n <= |g|
  {
    exists j :: i < j < n && j in marked && SameBlock(g[i], g[j])
  }

  /** Block i is linked, to an equal block, exactly when there is one to link it to. */
  ghost predicate LinkedRight(g: Graph, marked: set<nat>, link: seq<int>, i: nat)
    requires i < |g| == |link|
  {
    && (link[i] != NIL ==> i < link[i] < |g| && SameBlock(g[i], g[link[i]]))
    && (link[i] != NIL <==> i in marked && HasTwin(g, marked, i, |g|))
  }

  class Interner {
    var g: Graph
    var link: seq<int>
    var marked: set<nat>

    constructor (graph: Graph)
      ensures g == graph
    {
      g, link, marked := graph, [], {};
    }

    /** Marks the blocks that can still be reached. */
    method MakeMarks(b: nat, ghost lv: seq<nat>, ghost done: set<nat>)
      requires Ranked(g, lv) && b < |g| && Marks(g, lv, marked, done, b) && Closed(g, lv, done)
      modifies this`marked
      ensures marked == old(marked) + Below(g, lv, b)
      decreases lv[b]
    {
      hide Below, Closed, Marks;
      AlreadyDone(g, lv, marked, done, b);
      if b !in marked {
        marked := marked + {b};
        BelowStep(g, lv, b);
        if !(g[b].s.code.RetK? || g[b].s.code.RetA?) {
          MarksDown(g, lv, old(marked), done, b, g[b].jt, done);
          MakeMarks(g[b].jt, lv, done);
          ClosedWith(g, lv, done, g[b].jt);
          ghost var done1 := done + Below(g, lv, g[b].jt);
          MarksDown(g, lv, old(marked), done, b, g[b].jf, done1);
          assert marked == old(marked) + {b} + done1;
          MakeMarks(g[b].jf, lv, done1);
        }
      }
    }

    method MarkCode(root: nat, ghost lv: seq<nat>)
      requires Ranked(g, lv) && root < |g|
      modifies this`marked
      ensures marked == Below(g, lv, root)
    {
      marked := {};
      MakeMarks(root, lv, {});
    }

    /** Links block i to the first equal block after it, or to what that is linked to. */
    method LinkBlock(i: nat)
      requires i < |g| == |link| && link[i] == NIL
      requires forall k :: i < k < |g| ==> LinkedRight(g, marked, link, k)
      modifies this`link
      ensures |link| == |g| && link == old(link)[i := link[i]] && LinkedRight(g, marked, link, i)
    {
      if i !in marked {
        return;
      }
      var j := i + 1;
      while j < |g|
        invariant i < j <= |g| && link == old(link) && !HasTwin(g, marked, i, j)
      {
        if j in marked {
          var eq := EqBlk(g[i], g[j]);
          if eq {
            assert LinkedRight(g, marked, link, j);
            link := link[i := if link[j] != NIL then link[j] else j];
            return;
          }
        }
        j := j + 1;
      }
    }

    method LinkBlocks()
      requires |g| > 0
      modifies this`link
      ensures |link| == |g| && forall k :: 0 <= k < |g| ==> LinkedRight(g, marked, link, k)
    {
      link := seq(|g|, i => NIL);
      var i := |g| - 1;
      while i != 0
        invariant 0 <= i < |g| == |link|
        invariant forall k :: i <= k < |g| ==> LinkedRight(g, marked, link, k)
        invariant forall k :: 0 <= k < i ==> link[k] == NIL
      {
        i := i - 1;
        ghost var before := link;
        LinkBlock(i);
        forall k | i < k < |g| ensures LinkedRight(g, marked, link, k) { assert LinkedRight(g, marked, before, k); }
      }
    }

    /** Redirects every branch to what its target is linked to. */
    method RedirectAll() returns (done: bool)
      requires WellFormed(g) && LinksOk(g, link)
      modifies this`g
      ensures g == Redirect(old(g), link)
      ensures done <==> g == old(g)
    {
      hide SameBlock, RedirectNode;
      done := true;
      ghost var g0 := g;
      for i := 0 to |g|
        invariant |g| == |g0| && (done <==> forall b :: 0 <= b < i ==> g[b] == g0[b])
        invariant forall b :: 0 <= b < i ==> g[b] == RedirectNode(g0[b], link)
        invariant forall b :: i <= b < |g| ==> g[b] == g0[b]
      {
        var n, changed := RedirectBlock(g[i], link);
        done := done && !changed;
        g := g[i := n];
      }
    }

    /** intern_blocks: link, redirect, and start again until nothing moves. */
    method InternBlocks(root: nat, ghost rank: seq<nat>) returns (ghost lv: seq<nat>)
      requires Ranked(g, rank) && root < |g|
      modifies this
      ensures SameRuns(old(g), rank, g, lv) && Interned(g, lv, root) && SameCode(old(g), g)
    {
      hide SameCode, Redirect, Below, LevelRank, RunGraph, SameRuns, Interned, LinkedRight, LinksOk, Headroom;
      lv := LevelsOf(g, rank);
      LevelRankIsRank(g, lv);
      SameRunsOfRanks(g, rank, lv);
      SameCodeItself(g);
      var done := false;
      while !done
        invariant LevelRank(g, lv) && Ranked(g, lv) && |g| == |old(g)| && SameRuns(old(g), rank, g, lv)
        invariant SameCode(old(g), g)
        invariant done ==> Interned(g, lv, root)
        decreases !done, Headroom(g, |g|)
      {
        ghost var g0 := g;
        MarkCode(root, lv);
        LinkBlocks();
        RightLinks(g, marked, link);
        RedirectSame(g, lv, link);
        CodeStays(old(g), g, link);
        done := RedirectAll();
        SameRunsTrans(old(g), rank, g0, lv, g, lv);
        if done {
          NothingLinked(g, lv, root, marked, link);
        }
      }
    }
  }

  method RedirectBlock(n0: Node, link: seq<int>) returns (n: Node, changed: bool)
    requires NodeOk(n0, |link|) && forall b :: 0 <= b < |link| && link[b] != NIL ==> link[b] > b
    ensures n == RedirectNode(n0, link) && (changed <==> n != n0)
  {
    n, changed := n0, false;
    if n.jt != NIL {
      if link[n.jt] != NIL {
        n, changed := n.(jt := link[n.jt]), true;
      }
      if link[n.jf] != NIL {
        n, changed := n.(jf := link[n.jf]), true;
      }
    }
  }

  lemma RightLinks(g: Graph, marked: set<nat>, link: seq<int>)
    requires |link| == |g| && forall k :: 0 <= k < |g| ==> LinkedRight(g, marked, link, k)
    ensures LinksOk(g, link)
  {
    hide SameBlock, HasTwin;
    forall b | 0 <= b < |g| && link[b] != NIL ensures b < link[b] < |g| && SameBlock(g[b], g[link[b]]) {
      assert LinkedRight(g, marked, link, b);
    }
  }

  /** Blocks keep their statements and branches; only where the branches lead may differ. */
  ghost predicate SameCode(g: Graph, g': Graph)
  {
    |g'| == |g| && forall b :: 0 <= b < |g| ==> g'[b].stmts == g[b].stmts && g'[b].s == g[b].s
  }

  lemma SameCodeItself(g: Graph)
    ensures SameCode(g, g)
  {
  }

  lemma CodeStays(g0: Graph, g: Graph, link: seq<int>)
    requires SameCode(g0, g) && WellFormed(g) && |link| == |g|
    ensures SameCode(g0, Redirect(g, link))
  {
  }

  /** Two graphs on the same blocks give every run the same result. */
  ghost predicate SameRuns(g: Graph, rank: seq<nat>, g': Graph, rank': seq<nat>)
  {
    && Ranked(g, rank) && Ranked(g', rank') && |g| == |g'|
    && forall b, st, p {:trigger RunGraph(g', rank', b, st, p)} :: 0 <= b < |g| ==>
         RunGraph(g', rank', b, st, p) == RunGraph(g, rank, b, st, p)
  }

  lemma SameRunsOfRanks(g: Graph, rank: seq<nat>, lv: seq<nat>)
    requires Ranked(g, rank) && Ranked(g, lv)
    ensures SameRuns(g, rank, g, lv)
  {
    hide RunGraph;
    forall b, st, p | 0 <= b < |g| ensures RunGraph(g, lv, b, st, p) == RunGraph(g, rank, b, st, p) {
      RankIrrelevant(g, lv, rank, b, st, p);
    }
  }

  lemma SameRunsTrans(g: Graph, r: seq<nat>, g1: Graph, r1: seq<nat>, g2: Graph, r2: seq<nat>)
    requires SameRuns(g, r, g1, r1) && SameRuns(g1, r1, g2, r2)
    ensures SameRuns(g, r, g2, r2)
  {
    hide RunGraph;
  }

  lemma RedirectSame(g: Graph, lv: seq<nat>, link: seq<int>)
    requires LevelRank(g, lv) && Ranked(g, lv) && LinksOk(g, link)
    ensures |link| == |g| && LevelRank(Redirect(g, link), lv) && Ranked(Redirect(g, link), lv)
    ensures |Redirect(g, link)| == |g| && SameRuns(g, lv, Redirect(g, link), lv)
    ensures Redirect(g, link) != g ==> Headroom(Redirect(g, link), |g|) < Headroom(g, |g|)
  {
    hide RunGraph, SameBlock, RedirectNode, LevelRank, Headroom, LinksOk;
    RedirectRanked(g, lv, link);
    HeadroomFalls(g, link, |g|);
    assert Redirect(g, link)[..|g|] == Redirect(g, link) && g[..|g|] == g;
    forall b, st, p | 0 <= b < |g|
      ensures RunGraph(Redirect(g, link), lv, b, st, p) == RunGraph(g, lv, b, st, p)
    {
      RedirectRuns(g, lv, link, b, st, p);
    }
  }

  lemma RedirectRanked(g: Graph, lv: seq<nat>, link: seq<int>)
    requires LevelRank(g, lv) && LinksOk(g, link)
    ensures |link| == |g| && LevelRank(Redirect(g, link), lv) && Ranked(Redirect(g, link), lv)
  {
    hide RedirectNode, SameBlock;
    RedirectKeepsLevels(g, lv, link);
    LevelRankIsRank(Redirect(g, link), lv);
  }

  lemma BelowStep(g: Graph, rank: seq<nat>, b: nat)
    requires Ranked(g, rank) && b < |g|
    ensures Below(g, rank, b) == if IsLeaf(g[b]) then {b} else {b} + Below(g, rank, g[b].jt) + Below(g, rank, g[b].jf)
  {
  }

  // ------------------------------------------------------------- the outcome

  /** No two different blocks reachable from the root are equal. */
  ghost predicate Interned(g: Graph, lv: seq<nat>, root: nat)
    requires Ranked(g, lv) && root < |g|
  {
    forall i, j ::
      i in Below(g, lv, root) && j in Below(g, lv, root) && i < |g| && j < |g| && SameBlock(g[i], g[j]) ==> i == j
  }

  /** When no branch leads to a linked block, no reachable block is linked: the root
      neither, since what equals it is on its level and so not below it. */
  lemma NothingLinked(g: Graph, lv: seq<nat>, root: nat, marked: set<nat>, link: seq<int>)
    requires LevelRank(g, lv) && Ranked(g, lv) && root < |g| && marked == Below(g, lv, root)
    requires |link| == |g| && (forall k :: 0 <= k < |g| ==> LinkedRight(g, marked, link, k)) && Redirect(g, link) == g
    ensures Interned(g, lv, root)
  {
    hide Below, SameBlock, LevelRank, LinkedRight;
    forall i, j | i in marked && j in marked && i < j < |g| && SameBlock(g[i], g[j]) ensures false {
      TwinIsLinked(g, marked, link, i, j);
      if i == root {
        BelowBasics(g, lv, root, j);
        SameLevel(g, lv, i, j);
      } else {
        var q := ReachedByPred(g, lv, root, i);
        BranchesUnlinked(g, link, q);
      }
    }
    forall i, j | i in marked && j in marked && i < |g| && j < |g| && SameBlock(g[i], g[j]) ensures i == j {
      SameBlockSymmetric(g[i], g[j]);
    }
  }

  lemma TwinIsLinked(g: Graph, marked: set<nat>, link: seq<int>, i: nat, j: nat)
    requires i < j < |g| == |link| && i in marked && j in marked && SameBlock(g[i], g[j])
    requires LinkedRight(g, marked, link, i)
    ensures link[i] != NIL && link[i] != i
  {
  }

  lemma SameLevel(g: Graph, lv: seq<nat>, i: nat, j: nat)
    requires LevelRank(g, lv) && i < |g| && j < |g| && SameBlock(g[i], g[j])
    ensures lv[i] == lv[j]
  {
  }

  lemma BranchesUnlinked(g: Graph, link: seq<int>, q: nat)
    requires WellFormed(g) && |link| == |g| && Redirect(g, link) == g && q < |g| && !IsLeaf(g[q])
    ensures link[g[q].jt] == NIL || link[g[q].jt] == g[q].jt
    ensures link[g[q].jf] == NIL || link[g[q].jf] == g[q].jf
  {
    assert Redirect(g, link)[q] == RedirectNode(g[q], link);
  }

  lemma SameBlockSymmetric(m: Node, n: Node)
    ensures SameBlock(m, n) <==> SameBlock(n, m)
  {
  }
}
