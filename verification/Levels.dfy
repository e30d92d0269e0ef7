/** Levelling the graph: the pass every analysis of the optimizer walks by. */
module Levels {
  import opened Machine
  import opened FlowGraph
  import opened Layout

  function Max(a: nat, b: nat): nat { if a > b then a else b }

  /** Length of the longest path from a block to a leaf. */
  ghost function Level(g: Graph, rank: seq<nat>, b: nat): nat
    requires Ranked(g, rank) && b < |g|
    decreases rank[b]
  {
    if IsLeaf(g[b]) then 0
    else Max(Level(g, rank, g[b].jt), Level(g, rank, g[b].jf)) + 1
  }

  lemma {:induction false} BelowInGraph(g: Graph, rank: seq<nat>, b: nat)
    requires Ranked(g, rank) && b < |g|
    ensures b in Below(g, rank, b)
    ensures Below(g, rank, b) <= AllBlocks(|g|)
  {
    forall c | c in Below(g, rank, b) ensures c < |g| { BelowBasics(g, rank, b, c); }
  }

  lemma Subsets<T>(a: set<T>, b: set<T>)
    requires a <= b
    ensures |a| <= |b|
  {
    assert b == a + (b - a);
  }

  /** A longest path visits distinct blocks, so there are fewer levels than blocks. */
  lemma {:induction false} LevelBelowCount(g: Graph, rank: seq<nat>, b: nat)
    requires Ranked(g, rank) && b < |g|
    ensures Level(g, rank, b) < |Below(g, rank, b)|
    decreases rank[b]
  {
    if IsLeaf(g[b]) {
      assert b in Below(g, rank, b);
      Subsets({b}, Below(g, rank, b));
    } else {
      LevelBelowChild(g, rank, b, g[b].jt);
      LevelBelowChild(g, rank, b, g[b].jf);
    }
  }

  lemma LevelBelowChild(g: Graph, rank: seq<nat>, b: nat, c: nat)
    requires Ranked(g, rank) && b < |g| && !IsLeaf(g[b]) && (c == g[b].jt || c == g[b].jf)
    ensures Level(g, rank, c) + 1 < |Below(g, rank, b)|
    decreases rank[b], 0
  {
    LevelBelowCount(g, rank, c);
    if b in Below(g, rank, c) { BelowBasics(g, rank, c, b); }
    Subsets({b} + Below(g, rank, c), Below(g, rank, b));
  }

  /** The block numbers of a graph of n blocks. */
  function AllBlocks(n: nat): (r: set<nat>)
    ensures |r| == n && forall i :: i in r <==> 0 <= i < n
  {
    if n == 0 then {} else AllBlocks(n - 1) + {n - 1}
  }

  /** One list per block number is enough room for the levels. */
  lemma LevelInRange(g: Graph, rank: seq<nat>, b: nat)
    requires Ranked(g, rank) && b < |g|
    ensures Level(g, rank, b) < |g|
  {
    LevelBelowCount(g, rank, b);
    BelowInGraph(g, rank, b);
    Subsets(Below(g, rank, b), AllBlocks(|g|));
  }

  /** Finished blocks are in the list of their level. */
  ghost predicate EachListed(g: Graph, rank: seq<nat>, levels: seq<seq<nat>>, level: seq<nat>, done: set<nat>)
    requires Ranked(g, rank) && |levels| == |g| == |level|
  {
    forall b :: b in done ==> b < |g| && level[b] == Level(g, rank, b) && level[b] < |g| && b in levels[level[b]]
  }

  /** The lists hold nothing else. */
  ghost predicate OnlyThoseListed(levels: seq<seq<nat>>, level: seq<nat>, done: set<nat>)
    requires |levels| == |level|
  {
    forall i, b {:trigger b in levels[i]} :: 0 <= i < |levels| && b in levels[i] ==>
      b in done && b < |levels| && level[b] == i
  }

  ghost predicate NoneTwice(levels: seq<seq<nat>>)
  {
    forall i, j, k :: 0 <= i < |levels| && 0 <= j < k < |levels[i]| ==> levels[i][j] != levels[i][k]
  }

  /** The lists hold exactly the finished blocks, each once, in the list of its level. */
  ghost predicate ListsOk(g: Graph, rank: seq<nat>, levels: seq<seq<nat>>, level: seq<nat>, done: set<nat>)
    requires Ranked(g, rank)
  {
    && |levels| == |g| == |level|
    && EachListed(g, rank, levels, level, done) && OnlyThoseListed(levels, level, done) && NoneTwice(levels)
  }

  /** A set of blocks that contains everything reachable from its members. */
  ghost predicate Closed(g: Graph, rank: seq<nat>, done: set<nat>)
    requires Ranked(g, rank)
  {
    forall b :: b in done ==> b < |g| && Below(g, rank, b) <= done
  }

  lemma ClosedWith(g: Graph, rank: seq<nat>, done: set<nat>, p: nat)
    requires Ranked(g, rank) && Closed(g, rank, done) && p < |g|
    ensures Closed(g, rank, done + Below(g, rank, p))
  {
    forall b | b in done + Below(g, rank, p) ensures b < |g| && Below(g, rank, b) <= done + Below(g, rank, p) {
      if b !in done { BelowBasics(g, rank, p, b); }
    }
  }

  ghost predicate Marks(g: Graph, rank: seq<nat>, marked: set<nat>, done: set<nat>, p: nat)
    requires Ranked(g, rank) && p < |g|
  {
    done <= marked && forall x :: x in marked ==> x in done || (x < |g| && rank[x] > rank[p])
  }

  class Leveller {
    const g: Graph
    var marked: set<nat>
    var level: seq<nat>
    var levels: seq<seq<nat>>

    constructor (graph: Graph)
      ensures g == graph && marked == {} && |level| == |g| == |levels|
      ensures forall i :: 0 <= i < |levels| ==> levels[i] == []
    {
      g := graph;
      marked := {};
      level := seq(|graph|, i => 0);
      levels := seq(|graph|, i => []);
    }

    method FindLevelsR(b: nat, ghost rank: seq<nat>, ghost done: set<nat>)
      requires Ranked(g, rank) && b < |g| && Marks(g, rank, marked, done, b)
      requires Closed(g, rank, done) && ListsOk(g, rank, levels, level, done)
      modifies this
      ensures marked == old(marked) + Below(g, rank, b)
      ensures ListsOk(g, rank, levels, level, done + Below(g, rank, b))
      decreases rank[b]
    {
      hide Below, Level, ListsOk, Closed, Marks;
      AlreadyDone(g, rank, marked, done, b);
      if b in marked {
        return;
      }
      marked := marked + {b};
      var l := 0;
      ghost var done1 := done;
      if g[b].jt != NIL {
        MarksDown(g, rank, old(marked), done, b, g[b].jt, done);
        FindLevelsR(g[b].jt, rank, done);
        ClosedWith(g, rank, done, g[b].jt);
        done1 := done + Below(g, rank, g[b].jt);
        MarksDown(g, rank, old(marked), done, b, g[b].jf, done1);
        assert marked == old(marked) + {b} + done1;
        FindLevelsR(g[b].jf, rank, done1);
        done1 := done1 + Below(g, rank, g[b].jf);
        l := LevelAbove(b, rank, done1);
      } else {
        LeafLevel(g, rank, b);
      }
      FinishBlock(g, rank, levels, level, done, done1, b, l);
      level := level[b := l];
      levels := levels[l := [b] + levels[l]];
    }

    /** One more than the deeper of the two levelled successors. */
    method LevelAbove(b: nat, ghost rank: seq<nat>, ghost done: set<nat>) returns (l: nat)
      requires Ranked(g, rank) && b < |g| && !IsLeaf(g[b]) && ListsOk(g, rank, levels, level, done)
      requires Below(g, rank, g[b].jt) + Below(g, rank, g[b].jf) <= done
      ensures l == Level(g, rank, b)
    {
      assert g[b].jt in Below(g, rank, g[b].jt) && g[b].jf in Below(g, rank, g[b].jf);
      l := Max(level[g[b].jt], level[g[b].jf]) + 1;
    }
  }

  lemma LeafLevel(g: Graph, rank: seq<nat>, b: nat)
    requires Ranked(g, rank) && b < |g| && IsLeaf(g[b])
    ensures Level(g, rank, b) == 0
  {
  }

  lemma AlreadyDone(g: Graph, rank: seq<nat>, marked: set<nat>, done: set<nat>, b: nat)
    requires Ranked(g, rank) && b < |g| && Marks(g, rank, marked, done, b) && Closed(g, rank, done)
    ensures b in marked <==> b in done
    ensures marked + {b} == marked + {b} + done
    ensures b in marked ==> done + Below(g, rank, b) == done && marked + Below(g, rank, b) == marked
  {
  }

  lemma MarksDown(g: Graph, rank: seq<nat>, marked: set<nat>, done: set<nat>, b: nat, c: nat, done': set<nat>)
    requires Ranked(g, rank) && b < |g| && c < |g| && rank[c] < rank[b] && Marks(g, rank, marked, done, b)
    requires done <= done'
    ensures Marks(g, rank, marked + {b} + done', done', c)
  {
  }

  /** Entering a block with its level into the lists. */
  lemma FinishBlock(g: Graph, rank: seq<nat>, levels: seq<seq<nat>>, level: seq<nat>,
                    done: set<nat>, done1: set<nat>, b: nat, l: nat)
    requires Ranked(g, rank) && b < |g| && b !in done && ListsOk(g, rank, levels, level, done1)
    requires done1 == if IsLeaf(g[b]) then done else done + Below(g, rank, g[b].jt) + Below(g, rank, g[b].jf)
    requires l == Level(g, rank, b)
    ensures l < |g| && |levels| == |g| == |level|
    ensures done + Below(g, rank, b) == done1 + {b}
    ensures ListsOk(g, rank, levels[l := [b] + levels[l]], level[b := l], done + Below(g, rank, b))
  {
    hide Level, ListsOk;
    LevelInRange(g, rank, b);
    if !IsLeaf(g[b]) { NotIn(g, rank, done, b); }
    assert done + Below(g, rank, b) == done1 + {b};
    AddToList(g, rank, levels, level, done1, b, l);
  }

  lemma AddToList(g: Graph, rank: seq<nat>, levels: seq<seq<nat>>, level: seq<nat>, done: set<nat>, b: nat, l: nat)
    requires Ranked(g, rank) && b < |g| && b !in done && ListsOk(g, rank, levels, level, done)
    requires l == Level(g, rank, b) && l < |g|
    ensures |levels| == |g| == |level|
    ensures ListsOk(g, rank, levels[l := [b] + levels[l]], level[b := l], done + {b})
  {
    hide Level, Ranked, EachListed, OnlyThoseListed, NoneTwice;
    ListedWith(g, rank, levels, level, done, b, l);
    OnlyWith(levels, level, done, b, l);
  }

  lemma ListedWith(g: Graph, rank: seq<nat>, levels: seq<seq<nat>>, level: seq<nat>, done: set<nat>, b: nat, l: nat)
    requires Ranked(g, rank) && b < |g| == |levels| == |level| && l == Level(g, rank, b) && l < |g|
    requires EachListed(g, rank, levels, level, done)
    ensures EachListed(g, rank, levels[l := [b] + levels[l]], level[b := l], done + {b})
  {
    hide Level, Ranked;
    var levels', level' := levels[l := [b] + levels[l]], level[b := l];
    forall c | c in done + {b}
      ensures c < |g| && level'[c] == Level(g, rank, c) && level'[c] < |g| && c in levels'[level'[c]]
    {
      InFront(levels[l], b, c);
    }
  }

  lemma InFront(list: seq<nat>, b: nat, c: nat)
    ensures c in [b] + list <==> c == b || c in list
  {
  }

  lemma OnlyWith(levels: seq<seq<nat>>, level: seq<nat>, done: set<nat>, b: nat, l: nat)
    requires b < |levels| == |level| && b !in done && l < |levels|
    requires OnlyThoseListed(levels, level, done) && NoneTwice(levels)
    ensures OnlyThoseListed(levels[l := [b] + levels[l]], level[b := l], done + {b})
    ensures NoneTwice(levels[l := [b] + levels[l]])
  {
    var levels', level' := levels[l := [b] + levels[l]], level[b := l];
    forall i, c {:trigger c in levels'[i]} | 0 <= i < |levels'| && c in levels'[i]
      ensures c in done + {b} && c < |levels'| && level'[c] == i
    {
      InFront(levels[l], b, c);
      if i != l || c != b { assert c in levels[i]; }
    }
    forall i, j, k | 0 <= i < |levels| && 0 <= j < k < |levels'[i]| ensures levels'[i][j] != levels'[i][k] {
      if i == l {
        assert levels'[i][k] == levels[i][k - 1] && levels[i][k - 1] in levels[i];
        if j > 0 { assert levels'[i][j] == levels[i][j - 1]; }
      }
    }
  }

  lemma NotIn(g: Graph, rank: seq<nat>, done: set<nat>, b: nat)
    requires Ranked(g, rank) && b < |g| && !IsLeaf(g[b]) && b !in done
    ensures b !in done + Below(g, rank, g[b].jt) + Below(g, rank, g[b].jf)
  {
    if b in Below(g, rank, g[b].jt) { BelowBasics(g, rank, g[b].jt, b); }
    if b in Below(g, rank, g[b].jf) { BelowBasics(g, rank, g[b].jf, b); }
  }

  /** A freshly levelled graph: the blocks reachable from the root, listed by level. */
  ghost predicate Levelled(g: Graph, rank: seq<nat>, root: nat, levels: seq<seq<nat>>, level: seq<nat>)
    requires Ranked(g, rank) && root < |g|
  {
    ListsOk(g, rank, levels, level, Below(g, rank, root))
  }

  method FindLevels(g: Graph, root: nat, ghost rank: seq<nat>) returns (levels: seq<seq<nat>>, level: seq<nat>)
    requires Ranked(g, rank) && root < |g|
    ensures Levelled(g, rank, root, levels, level)
  {
    var lv := new Leveller(g);
    lv.FindLevelsR(root, rank, {});
    assert {} + Below(g, rank, root) == Below(g, rank, root);
    return lv.levels, lv.level;
  }

  // ---------------------------------------------------- walking by level

  /** The level lists from the leaves up, as one list. */
  function Flat(levels: seq<seq<nat>>, n: nat): seq<nat>
    requires n <= |levels|
  {
    if n == 0 then [] else Flat(levels, n - 1) + levels[n - 1]
  }

  lemma {:induction false} FlatMembers(g: Graph, rank: seq<nat>, levels: seq<seq<nat>>, level: seq<nat>, done: set<nat>,
                                       n: nat, b: nat)
    requires Ranked(g, rank) && ListsOk(g, rank, levels, level, done) && n <= |g|
    ensures b in Flat(levels, n) <==> b in done && level[b] < n
  {
    hide Level, Ranked;
    if n > 0 {
      FlatMembers(g, rank, levels, level, done, n - 1, b);
    }
  }

  lemma {:induction false} RowPlaced(g: Graph, rank: seq<nat>, levels: seq<seq<nat>>, level: seq<nat>, done: set<nat>,
                                     n: nat, j: nat)
    requires Ranked(g, rank) && Closed(g, rank, done) && ListsOk(g, rank, levels, level, done)
    requires n < |g| && j <= |levels[n]| && Placed(g, Flat(levels, n))
    ensures Placed(g, Flat(levels, n) + levels[n][..j])
    decreases j
  {
    hide Below, Placed;
    var o := Flat(levels, n);
    if j == 0 {
      assert o + levels[n][..0] == o;
    } else {
      RowPlaced(g, rank, levels, level, done, n, j - 1);
      EntryPlaceable(g, rank, levels, level, done, n, j - 1);
      PlaceNext(g, o + levels[n][..j - 1], levels[n][j - 1]);
      assert o + levels[n][..j] == o + levels[n][..j - 1] + [levels[n][j - 1]];
    }
  }

  lemma EntryPlaceable(g: Graph, rank: seq<nat>, levels: seq<seq<nat>>, level: seq<nat>, done: set<nat>, n: nat, j: nat)
    requires Ranked(g, rank) && Closed(g, rank, done) && ListsOk(g, rank, levels, level, done)
    requires n < |g| && j < |levels[n]|
    ensures Placeable(g, Flat(levels, n) + levels[n][..j], levels[n][j])
  {
    hide Flat, Level, Below;
    var b := levels[n][j];
    FlatMembers(g, rank, levels, level, done, n, b);
    assert b in levels[n];
    if !IsLeaf(g[b]) {
      ChildrenBelow(g, rank, b);
      LevelOfNode(g, rank, b);
      FlatMembers(g, rank, levels, level, done, n, g[b].jt);
      FlatMembers(g, rank, levels, level, done, n, g[b].jf);
    }
  }

  lemma LevelOfNode(g: Graph, rank: seq<nat>, b: nat)
    requires Ranked(g, rank) && b < |g| && !IsLeaf(g[b])
    ensures Level(g, rank, g[b].jt) < Level(g, rank, b) && Level(g, rank, g[b].jf) < Level(g, rank, b)
  {
  }

  lemma ChildrenBelow(g: Graph, rank: seq<nat>, b: nat)
    requires Ranked(g, rank) && b < |g| && !IsLeaf(g[b])
    ensures g[b].jt in Below(g, rank, b) && g[b].jf in Below(g, rank, b)
  {
    assert g[b].jt in Below(g, rank, g[b].jt) && g[b].jf in Below(g, rank, g[b].jf);
  }

  lemma {:induction false} FlatPlaced(g: Graph, rank: seq<nat>, levels: seq<seq<nat>>, level: seq<nat>, done: set<nat>,
                                      n: nat)
    requires Ranked(g, rank) && Closed(g, rank, done) && ListsOk(g, rank, levels, level, done) && n <= |g|
    ensures Placed(g, Flat(levels, n))
  {
    hide Below, Level;
    if n > 0 {
      FlatPlaced(g, rank, levels, level, done, n - 1);
      RowPlaced(g, rank, levels, level, done, n - 1, |levels[n - 1]|);
      assert levels[n - 1][..|levels[n - 1]|] == levels[n - 1];
    }
  }

  /** Walking the lists from level 0 up meets every block reachable from the root once, after its successors. */
  lemma LevelOrder(g: Graph, rank: seq<nat>, root: nat, levels: seq<seq<nat>>, level: seq<nat>)
    requires Ranked(g, rank) && root < |g| && Levelled(g, rank, root, levels, level)
    ensures var o := Flat(levels, |g|);
            |levels| == |g| && Placed(g, o) && Elements(o) == Below(g, rank, root)
  {
    hide Below, Placed, Flat;
    var blocks, o := Below(g, rank, root), Flat(levels, |g|);
    assert Closed(g, rank, blocks) by {
      forall b | b in blocks ensures b < |g| && Below(g, rank, b) <= blocks { BelowBasics(g, rank, root, b); }
    }
    FlatPlaced(g, rank, levels, level, blocks, |g|);
    forall b ensures b in o <==> b in blocks { FlatMembers(g, rank, levels, level, blocks, |g|, b); }
  }

  function Reverse(xs: seq<nat>): (r: seq<nat>)
    ensures |r| == |xs| && forall i :: 0 <= i < |xs| ==> r[i] == xs[|xs| - 1 - i]
  {
    seq(|xs|, i requires 0 <= i < |xs| => xs[|xs| - 1 - i])
  }

  function ReverseEach(levels: seq<seq<nat>>): (r: seq<seq<nat>>)
    ensures |r| == |levels| && forall i :: 0 <= i < |levels| ==> r[i] == Reverse(levels[i])
  {
    seq(|levels|, i requires 0 <= i < |levels| => Reverse(levels[i]))
  }

  /** The order of the passes that go down: the highest list first, each list from its head. */
  function Downward(levels: seq<seq<nat>>, n: nat): seq<nat>
    requires n <= |levels|
  {
    if n == 0 then [] else levels[n - 1] + Downward(levels, n - 1)
  }

  lemma ReverseMembers(xs: seq<nat>, b: nat)
    ensures b in Reverse(xs) <==> b in xs
  {
    if b in xs {
      var i :| 0 <= i < |xs| && xs[i] == b;
      assert Reverse(xs)[|xs| - 1 - i] == b;
    }
  }

  lemma ReversedLevelled(g: Graph, rank: seq<nat>, root: nat, levels: seq<seq<nat>>, level: seq<nat>)
    requires Ranked(g, rank) && root < |g| && Levelled(g, rank, root, levels, level)
    ensures Levelled(g, rank, root, ReverseEach(levels), level)
  {
    hide Below, Level, Reverse;
    var rev := ReverseEach(levels);
    forall i, b: nat | 0 <= i < |levels| ensures b in rev[i] <==> b in levels[i] { ReverseMembers(levels[i], b); }
    assert NoneTwice(rev) by {
      forall i, j, k | 0 <= i < |rev| && 0 <= j < k < |rev[i]| ensures rev[i][j] != rev[i][k] {
        var n := |levels[i]|;
        assert levels[i][n - 1 - k] != levels[i][n - 1 - j];
      }
    }
  }

  lemma {:induction false} DownwardReversed(levels: seq<seq<nat>>, n: nat)
    requires n <= |levels|
    ensures Downward(levels, n) == Reverse(Flat(ReverseEach(levels), n))
  {
    hide Reverse, ReverseEach;
    if n == 0 {
      assert Flat(ReverseEach(levels), 0) == [];
      assert Reverse([]) == [];
    } else {
      DownwardReversed(levels, n - 1);
      DownwardStep(levels[n - 1], Downward(levels, n - 1), Flat(ReverseEach(levels), n - 1));
    }
  }

  lemma DownwardStep(row: seq<nat>, down: seq<nat>, up: seq<nat>)
    requires down == Reverse(up)
    ensures row + down == Reverse(up + Reverse(row))
  {
    ReverseAppend(up, Reverse(row));
    assert Reverse(Reverse(row)) == row;
  }

  lemma ReverseAppend(xs: seq<nat>, ys: seq<nat>)
    ensures Reverse(xs + ys) == Reverse(ys) + Reverse(xs)
  {
  }

  /** Walking the lists from the root's level down, each from its head, meets every block reachable from the root once,
      before its successors: it is the reverse of an order in which each block comes after them. */
  lemma DownwardOrder(g: Graph, rank: seq<nat>, root: nat, levels: seq<seq<nat>>, level: seq<nat>)
    requires Ranked(g, rank) && root < |g| && Levelled(g, rank, root, levels, level)
    ensures var o := Flat(ReverseEach(levels), |g|);
            |levels| == |g| && Placed(g, o) && Elements(o) == Below(g, rank, root) &&
              Downward(levels, |g|) == Reverse(o)
  {
    hide Below, Placed, Flat, Reverse, ReverseEach, ListsOk;
    ReversedLevelled(g, rank, root, levels, level);
    LevelOrder(g, rank, root, ReverseEach(levels), level);
    DownwardReversed(levels, |g|);
  }
}
