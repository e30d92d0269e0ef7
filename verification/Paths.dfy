/**
 * Dominators of an arbitrary acyclic graph: the solution of the meet equations
 * is exactly the nodes common to all paths from a start.
 */
module Paths {

  /** A graph by its predecessor sets; paths begin at a start node. */
  datatype Dag = Dag(preds: seq<set<nat>>, starts: set<nat>, height: seq<nat>)

  /** Heights fall along edges, every node is a start without predecessors or has a predecessor. */
  ghost predicate Valid(d: Dag, nodes: set<nat>)
  {
    && |d.height| == |d.preds|
    && (forall b :: b in nodes ==> b < |d.preds|)
    && d.starts <= nodes
    && (forall b, q :: b in nodes && q in d.preds[b] ==> q in nodes && d.height[q] > d.height[b])
    && (forall b :: b in nodes ==> (b in d.starts <==> d.preds[b] == {}))
  }

  /** A path from a start to its last node. */
  ghost predicate IsPath(d: Dag, xs: seq<nat>)
  {
    && xs != [] && xs[0] in d.starts
    && forall i :: 0 < i < |xs| ==> xs[i] < |d.preds| && xs[i - 1] in d.preds[xs[i]]
  }

  ghost predicate PathTo(d: Dag, xs: seq<nat>, b: nat) { IsPath(d, xs) && xs[|xs| - 1] == b }

  /** The nodes on every path to b. */
  ghost predicate OnAllPaths(d: Dag, b: nat, c: nat)
  {
    forall xs :: PathTo(d, xs, b) ==> c in xs
  }

  /** The meet equation: b itself, and what all its predecessors have in common. */
  ghost predicate MeetAt(d: Dag, dom: seq<set<nat>>, b: nat)
    requires b < |d.preds| == |dom|
  {
    forall c :: c in dom[b] <==> c == b || (b !in d.starts && InAll(d, dom, d.preds[b], c))
  }

  ghost predicate InAll(d: Dag, dom: seq<set<nat>>, qs: set<nat>, c: nat)
  {
    forall q :: q in qs ==> q < |dom| && c in dom[q]
  }

  ghost predicate Solves(d: Dag, dom: seq<set<nat>>, nodes: set<nat>)
  {
    |dom| == |d.preds| && forall b :: b in nodes ==> b < |dom| && MeetAt(d, dom, b)
  }

  lemma {:induction false} DominatorOnPath(d: Dag, dom: seq<set<nat>>, nodes: set<nat>, b: nat, c: nat, xs: seq<nat>)
    requires Valid(d, nodes) && Solves(d, dom, nodes) && b in nodes && c in dom[b] && PathTo(d, xs, b)
    ensures c in xs
    decreases |xs|
  {
    var last := |xs| - 1;
    if c != b {
      assert b !in d.starts && InAll(d, dom, d.preds[b], c);
      var ys := xs[..last];
      assert last > 0 && xs[last - 1] in d.preds[xs[last]];
      DominatorOnPath(d, dom, nodes, xs[last - 1], c, ys);
      assert c in ys;
    } else {
      assert xs[last] == c;
    }
  }

  ghost function Top(d: Dag, n: nat): (r: nat)
    requires n <= |d.height|
    ensures forall b :: 0 <= b < n ==> d.height[b] <= r
  {
    if n == 0 then 0
    else if d.height[n - 1] > Top(d, n - 1) then d.height[n - 1] else Top(d, n - 1)
  }

  /** A path that avoids c, for every node c does not dominate. */
  lemma {:induction false} PathAround(d: Dag, dom: seq<set<nat>>, nodes: set<nat>, b: nat, c: nat)
    returns (xs: seq<nat>)
    requires Valid(d, nodes) && Solves(d, dom, nodes) && b in nodes && c !in dom[b]
    ensures PathTo(d, xs, b) && c !in xs
    decreases Top(d, |d.height|) - d.height[b]
  {
    assert MeetAt(d, dom, b) && c != b;
    if b in d.starts {
      xs := [b];
    } else {
      var q :| q in d.preds[b] && !(q < |dom| && c in dom[q]);
      var ys := PathAround(d, dom, nodes, q, c);
      xs := ys + [b];
      assert xs[..|ys|] == ys;
      assert forall i :: 0 < i < |xs| ==> xs[i] < |d.preds| && xs[i - 1] in d.preds[xs[i]];
    }
  }

  /** The solution of the meet equations is exact. */
  lemma DominatorsAreExact(d: Dag, dom: seq<set<nat>>, nodes: set<nat>, b: nat, c: nat)
    requires Valid(d, nodes) && Solves(d, dom, nodes) && b in nodes
    ensures c in dom[b] <==> OnAllPaths(d, b, c)
  {
    if c in dom[b] {
      forall xs | PathTo(d, xs, b) ensures c in xs { DominatorOnPath(d, dom, nodes, b, c, xs); }
    } else {
      var xs := PathAround(d, dom, nodes, b, c);
    }
  }

  // ----------------------------------------------- propagation, parents first

  /** Nodes in `done` satisfy their equation; the others hold the meet over the
      predecessors handled so far, out of `all`. Starts begin empty. */
  ghost predicate Progress(d: Dag, dom: seq<set<nat>>, nodes: set<nat>, done: set<nat>, all: set<nat>)
  {
    && |dom| == |d.preds| && done <= nodes <= all
    && (forall b :: b in nodes ==> b < |dom| && dom[b] <= all)
    && (forall b :: b in done ==> MeetAt(d, dom, b))
    && (forall b :: b in nodes && b !in done ==> PendingAt(d, dom, done, all, b))
  }

  ghost predicate PendingAt(d: Dag, dom: seq<set<nat>>, done: set<nat>, all: set<nat>, b: nat)
    requires b < |d.preds| == |dom|
  {
    forall c :: c in dom[b] <==> b !in d.starts && c in all && InAll(d, dom, d.preds[b] * done, c)
  }

  lemma NothingHandled(d: Dag, dom: seq<set<nat>>, nodes: set<nat>, all: set<nat>)
    requires Valid(d, nodes) && |dom| == |d.preds| && nodes <= all
    requires forall b :: b in nodes ==> dom[b] == if b in d.starts then {} else all
    ensures Progress(d, dom, nodes, {}, all) && ParentsFirst(d, {})
  {
    forall b | b in nodes ensures PendingAt(d, dom, {}, all, b) {
      assert d.preds[b] * {} == {};
    }
  }

  lemma AllHandled(d: Dag, dom: seq<set<nat>>, nodes: set<nat>, all: set<nat>)
    requires Progress(d, dom, nodes, nodes, all)
    ensures Solves(d, dom, nodes)
  {
  }

  /** What handling node p does to the sets: p joins its own, its successors keep what p has. */
  ghost predicate Handled(d: Dag, dom: seq<set<nat>>, dom': seq<set<nat>>, p: nat)
  {
    && |dom'| == |dom| == |d.preds| && p < |dom|
    && dom'[p] == dom[p] + {p}
    && forall b :: 0 <= b < |dom| && b != p ==> dom'[b] == if p in d.preds[b] then dom[b] * dom'[p] else dom[b]
  }

  /** The set p holds once all its predecessors are handled is its meet. */
  lemma HandledIsMeet(d: Dag, dom: seq<set<nat>>, dom': seq<set<nat>>, done: set<nat>, all: set<nat>, p: nat)
    requires Handled(d, dom, dom', p) && ParentsFirst(d, done) && PendingAt(d, dom, done, all, p)
    requires p in all && p !in done && d.preds[p] <= done && (p !in d.starts ==> d.preds[p] != {})
    requires forall q :: q in done ==> q < |dom| && dom[q] <= all
    ensures MeetAt(d, dom', p)
  {
    assert d.preds[p] * done == d.preds[p];
    forall c ensures c in dom'[p] <==> c == p || (p !in d.starts && InAll(d, dom', d.preds[p], c)) {
      SameOnDone(d, dom, dom', done, p, d.preds[p], c);
      if p !in d.starts {
        var q :| q in d.preds[p];
        assert InAll(d, dom, d.preds[p], c) ==> c in dom[q];
      }
    }
  }

  lemma SameOnDone(d: Dag, dom: seq<set<nat>>, dom': seq<set<nat>>, done: set<nat>, p: nat, qs: set<nat>, c: nat)
    requires Handled(d, dom, dom', p) && ParentsFirst(d, done) && p !in done && qs <= done
    ensures InAll(d, dom, qs, c) <==> InAll(d, dom', qs, c)
  {
    assert forall q :: q in done ==> dom'[q] == dom[q];
  }

  /** Parents come first: no predecessor of a handled node is still to come. */
  ghost predicate ParentsFirst(d: Dag, done: set<nat>)
  {
    forall b :: b in done ==> b < |d.preds| && d.preds[b] <= done
  }

  lemma HandleOne(d: Dag, dom: seq<set<nat>>, dom': seq<set<nat>>, nodes: set<nat>, done: set<nat>, all: set<nat>,
                  p: nat)
    requires Valid(d, nodes) && Progress(d, dom, nodes, done, all) && Handled(d, dom, dom', p) && ParentsFirst(d, done)
    requires p in nodes && p !in done && d.preds[p] <= done
    ensures Progress(d, dom', nodes, done + {p}, all) && ParentsFirst(d, done + {p})
  {
    HandledIsMeet(d, dom, dom', done, all, p);
    forall b | b in done ensures MeetAt(d, dom', b) { DoneStays(d, dom, dom', done, p, b); }
    forall b | b in nodes && b !in done + {p} ensures PendingAt(d, dom', done + {p}, all, b) {
      PendingMoves(d, dom, dom', done, all, p, b);
    }
  }

  lemma DoneStays(d: Dag, dom: seq<set<nat>>, dom': seq<set<nat>>, done: set<nat>, p: nat, b: nat)
    requires Handled(d, dom, dom', p) && ParentsFirst(d, done) && p !in done && b in done && MeetAt(d, dom, b)
    ensures MeetAt(d, dom', b)
  {
    assert dom'[b] == dom[b] && forall q :: q in d.preds[b] && q < |dom| ==> dom'[q] == dom[q];
    forall c ensures InAll(d, dom, d.preds[b], c) <==> InAll(d, dom', d.preds[b], c) { }
  }

  lemma PendingMoves(d: Dag, dom: seq<set<nat>>, dom': seq<set<nat>>, done: set<nat>, all: set<nat>, p: nat, b: nat)
    requires Handled(d, dom, dom', p) && ParentsFirst(d, done) && p !in done && b != p && b < |d.preds|
    requires PendingAt(d, dom, done, all, b)
    ensures PendingAt(d, dom', done + {p}, all, b)
  {
    assert forall q :: q in done && q < |dom| ==> dom'[q] == dom[q];
    forall c ensures InAll(d, dom', d.preds[b] * (done + {p}), c) <==>
                     InAll(d, dom, d.preds[b] * done, c) && (p in d.preds[b] ==> c in dom'[p])
    {
      if InAll(d, dom', d.preds[b] * (done + {p}), c) {
        forall q | q in d.preds[b] * done ensures q < |dom| && c in dom[q] {
          assert q in d.preds[b] * (done + {p});
        }
        if p in d.preds[b] { assert p in d.preds[b] * (done + {p}); }
      }
    }
  }
}
