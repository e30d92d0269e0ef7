/**
 * The emitter: counting instructions, filling the array from its end, and
 * retrying with one more long jump whenever a branch does not reach.
 */
module Emitter {
  import opened Words
  import opened Machine
  import opened FlowGraph
  import opened Layout
  import opened Validator
  import opened Simulation

  // -------------------------------------------------------------------- marks

  /** Every block entered is either finished or an ancestor still being worked on. */
  ghost predicate MarksOk(rank: seq<nat>, marked: set<nat>, done: seq<nat>, p: nat)
    requires p < |rank|
  {
    && Elements(done) <= marked
    && forall x :: x in marked ==> x in done || (x < |rank| && rank[x] > rank[p])
  }

  lemma MarksDown(g: Graph, rank: seq<nat>, marked: set<nat>, done: seq<nat>, p: nat, c: nat, o: seq<nat>)
    requires Ranked(g, rank) && p < |g| && c < |g| && rank[c] < rank[p] && MarksOk(rank, marked, done, p)
    requires done <= o
    ensures MarksOk(rank, marked + {p} + Elements(o), o, c)
  {
    assert forall x :: x in done ==> x in o;
  }

  lemma MarksAfter(marked: set<nat>, p: nat, o0: seq<nat>, o1: seq<nat>)
    requires o0 <= o1
    ensures marked + {p} + Elements(o0) + Elements(o1) == marked + Elements(o1 + [p])
  {
    assert forall x :: x in o0 ==> x in o1;
  }

  lemma AlreadyMarked(g: Graph, rank: seq<nat>, marked: set<nat>, done: seq<nat>, p: nat, trueFirst: bool)
    requires Ranked(g, rank) && p < |g| && MarksOk(rank, marked, done, p) && Placed(g, done)
    ensures p in marked <==> p in done
    ensures marked + {p} == marked + {p} + Elements(done)
    ensures p in marked ==> Order(g, rank, p, done, trueFirst) == done && marked == marked + Elements(done)
  {
    InElements(done, p);
  }

  lemma OrderOfNode(g: Graph, l: Longs, rank: seq<nat>, p: nat, done: seq<nat>, trueFirst: bool)
      returns (o0: seq<nat>, o1: seq<nat>)
    requires Ranked(g, rank) && LongsOk(g, l) && p < |g| && p !in done && Placed(g, done)
    ensures done <= o0 <= o1 && Placed(g, o0) && Placed(g, o1) && Placeable(g, o1, p) && Placed(g, o1 + [p])
    ensures Order(g, rank, p, done, trueFirst) == o1 + [p]
    ensures Total(g, l, o1 + [p]) == Total(g, l, o1) + Room(g, l, p)
    ensures if IsLeaf(g[p]) then o0 == o1 == done
            else if trueFirst then
              o0 == Order(g, rank, g[p].jt, done, true) && o1 == Order(g, rank, g[p].jf, o0, true)
            else
              o0 == Order(g, rank, g[p].jf, done, false) && o1 == Order(g, rank, g[p].jt, o0, false)
  {
    hide Placed, Below, Elements, LongsOk;
    o0, o1 := done, done;
    if !IsLeaf(g[p]) {
      var c0 := if trueFirst then g[p].jt else g[p].jf;
      var c1 := if trueFirst then g[p].jf else g[p].jt;
      o0 := Order(g, rank, c0, done, trueFirst);
      o1 := Order(g, rank, c1, o0, trueFirst);
      OrderProperties(g, rank, c0, done, trueFirst);
      OrderProperties(g, rank, c1, o0, trueFirst);
      WalkedBoth(g, rank, p, c0, c1, done, o0, o1);
    }
    PlaceNext(g, o1, p);
    assert (o1 + [p])[..|o1|] == o1;
  }

  lemma {:induction false} TotalOfPrefix(g: Graph, l: Longs, o: seq<nat>, o': seq<nat>)
    requires LongsOk(g, l) && InGraph(g, o') && o <= o'
    ensures InGraph(g, o) && Total(g, l, o) <= Total(g, l, o')
    decreases |o'|
  {
    if |o| < |o'| {
      TotalOfPrefix(g, l, o, o'[..|o'| - 1]);
    } else {
      assert o == o';
    }
  }

  // -------------------------------------------------- adding a long jump

  /** A branch of block b, placed after `o`, did not reach and has had its long jump added. */
  ghost predicate RaisedBy(g: Graph, l0: Longs, l1: Longs, o: seq<nat>, b: nat)
    requires LongsOk(g, l0) && InGraph(g, o) && Placeable(g, o, b)
  {
    !IsLeaf(g[b]) &&
    ((l0.jt[b] == 0 && Distance(g, l0, o, b, g[b].jt) >= 256 && l1 == Longs(l0.jt[b := 1], l0.jf)) ||
     (l0.jf[b] == 0 && Distance(g, l0, o, b, g[b].jf) >= 256 && l1 == Longs(l0.jt, l0.jf[b := 1])))
  }

  ghost predicate Raised(g: Graph, l0: Longs, l1: Longs, o: seq<nat>)
    requires LongsOk(g, l0) && Placed(g, o)
  {
    o != [] &&
    var last := |o| - 1;
    RaisedBy(g, l0, l1, o[..last], o[last]) || Raised(g, l0, l1, o[..last])
  }

  lemma {:induction false} RaisedInLonger(g: Graph, l0: Longs, l1: Longs, o: seq<nat>, o': seq<nat>)
    requires LongsOk(g, l0) && Placed(g, o) && Placed(g, o') && o <= o' && Raised(g, l0, l1, o)
    ensures Raised(g, l0, l1, o')
    decreases |o'|
  {
    if |o| < |o'| {
      RaisedInLonger(g, l0, l1, o, o'[..|o'| - 1]);
    } else {
      assert o == o';
    }
  }

  /** No reserved long jump is idle: each one belongs to a placed branch that does not reach. */
  ghost predicate Tight(g: Graph, l: Longs, o: seq<nat>)
    requires LongsOk(g, l) && Placed(g, o)
  {
    o == [] ||
    var last := |o| - 1;
    Tight(g, l, o[..last]) &&
    (!IsLeaf(g[o[last]]) ==>
       (l.jt[o[last]] == 1 ==> Distance(g, l, o[..last], o[last], g[o[last]].jt) >= 256) &&
       (l.jf[o[last]] == 1 ==> Distance(g, l, o[..last], o[last], g[o[last]].jf) >= 256))
  }

  ghost predicate NoLess(g: Graph, l0: Longs, l1: Longs)
    requires LongsOk(g, l0) && LongsOk(g, l1)
  {
    forall b :: 0 <= b < |g| ==> l0.jt[b] <= l1.jt[b] && l0.jf[b] <= l1.jf[b]
  }

  lemma {:induction false} GapGrows(g: Graph, l0: Longs, l1: Longs, o: seq<nat>, c: nat)
    requires LongsOk(g, l0) && LongsOk(g, l1) && InGraph(g, o) && c in o && NoLess(g, l0, l1)
    ensures Total(g, l0, o) - FromEnd(g, l0, o, c) <= Total(g, l1, o) - FromEnd(g, l1, o, c)
    decreases |o|
  {
    if o[|o| - 1] != c { GapGrows(g, l0, l1, o[..|o| - 1], c); }
  }

  lemma {:induction false} TotalGrows(g: Graph, l0: Longs, l1: Longs, o: seq<nat>)
    requires LongsOk(g, l0) && LongsOk(g, l1) && InGraph(g, o) && NoLess(g, l0, l1)
    ensures Total(g, l0, o) <= Total(g, l1, o)
    decreases |o|
  {
    if o != [] { TotalGrows(g, l0, l1, o[..|o| - 1]); }
  }

  /** Offsets only grow from one pass to the next, so a long jump once needed stays needed. */
  lemma {:induction false} RaisedStaysTight(g: Graph, l0: Longs, l1: Longs, o: seq<nat>, full: seq<nat>)
    requires LongsOk(g, l0) && LongsOk(g, l1) && Placed(g, o) && Placed(g, full) && o <= full
    requires Tight(g, l0, o) && NoLess(g, l0, l1) && Raised(g, l0, l1, full)
    ensures Tight(g, l1, o)
    decreases |o|
  {
    if o != [] {
      var last := |o| - 1;
      var b, o' := o[last], o[..last];
      RaisedStaysTight(g, l0, l1, o', full);
      if !IsLeaf(g[b]) {
        GapGrows(g, l0, l1, o', g[b].jt);
        GapGrows(g, l0, l1, o', g[b].jf);
        RaisedWhere(g, l0, l1, o', b, full);
      }
    }
  }

  /** If the raised branch belongs to block b, it is b's branch that did not reach. */
  lemma {:induction false} RaisedWhere(g: Graph, l0: Longs, l1: Longs, o: seq<nat>, b: nat, full: seq<nat>)
    requires LongsOk(g, l0) && LongsOk(g, l1) && Placed(g, full) && o + [b] <= full && Placed(g, o)
    requires Placeable(g, o, b)
    requires Raised(g, l0, l1, full) && !IsLeaf(g[b])
    ensures l0.jt[b] == 0 && l1.jt[b] == 1 ==> Distance(g, l0, o, b, g[b].jt) >= 256
    ensures l0.jf[b] == 0 && l1.jf[b] == 1 ==> Distance(g, l0, o, b, g[b].jf) >= 256
    decreases |full|
  {
    var last := |full| - 1;
    if |o| == last {
      assert full[..last] == o && full[last] == b;
      if Raised(g, l0, l1, o) { RaisedElsewhere(g, l0, l1, o, b); }
    } else {
      assert o + [b] <= full[..last];
      if Raised(g, l0, l1, full[..last]) {
        RaisedWhere(g, l0, l1, o, b, full[..last]);
      } else {
        assert (o + [b])[|o|] == b && b in full[..last];
      }
    }
  }

  lemma {:induction false} RaisedElsewhere(g: Graph, l0: Longs, l1: Longs, o: seq<nat>, b: nat)
    requires LongsOk(g, l0) && LongsOk(g, l1) && Placed(g, o) && b < |g| && b !in o && Raised(g, l0, l1, o)
    ensures l1.jt[b] == l0.jt[b] && l1.jf[b] == l0.jf[b]
    decreases |o|
  {
    var last := |o| - 1;
    if Raised(g, l0, l1, o[..last]) { RaisedElsewhere(g, l0, l1, o[..last], b); }
  }

  /** Long jumps still to add: two per block at most. */
  ghost function Spare(l: Longs, n: nat): nat
    requires n <= |l.jt| && n <= |l.jf|
  {
    if n == 0 then 0
    else Spare(l, n - 1) + (if l.jt[n - 1] == 0 then 1 else 0) + (if l.jf[n - 1] == 0 then 1 else 0)
  }

  lemma {:induction false} SpareFalls(g: Graph, l0: Longs, l1: Longs, n: nat, b: nat)
    requires LongsOk(g, l0) && n <= |g| && b < |g| && !IsLeaf(g[b])
    requires (l0.jt[b] == 0 && l1 == Longs(l0.jt[b := 1], l0.jf)) ||
             (l0.jf[b] == 0 && l1 == Longs(l0.jt, l0.jf[b := 1]))
    ensures LongsOk(g, l1) && NoLess(g, l0, l1)
    ensures if b < n then Spare(l1, n) < Spare(l0, n) else Spare(l1, n) == Spare(l0, n)
  {
    if n > 0 { SpareFalls(g, l0, l1, n - 1, b); }
  }

  lemma {:induction false} RaisedProgress(g: Graph, l0: Longs, l1: Longs, o: seq<nat>)
    requires LongsOk(g, l0) && Placed(g, o) && Raised(g, l0, l1, o)
    ensures LongsOk(g, l1) && NoLess(g, l0, l1) && Spare(l1, |g|) < Spare(l0, |g|)
    decreases |o|
  {
    var last := |o| - 1;
    if RaisedBy(g, l0, l1, o[..last], o[last]) {
      SpareFalls(g, l0, l1, |g|, o[last]);
    } else {
      RaisedProgress(g, l0, l1, o[..last]);
    }
  }

  /** Every branch long. */
  function AllLong(g: Graph): (l: Longs)
    ensures LongsOk(g, l)
  {
    Longs(seq(|g|, b requires 0 <= b < |g| => if IsLeaf(g[b]) then 0 else 1),
          seq(|g|, b requires 0 <= b < |g| => if IsLeaf(g[b]) then 0 else 1))
  }

  lemma ExtendProgram(g: Graph, l: Longs, o: seq<nat>, b: nat)
    requires WellFormed(g) && LongsOk(g, l) && Placed(g, o) && AllFit(g, l, o) && Placeable(g, o, b) && Fits(g, l, o, b)
    ensures Placed(g, o + [b]) && AllFit(g, l, o + [b])
    ensures Program(g, l, o + [b]) == Body(g[b].stmts) + Tail(g, l, o, b) + Program(g, l, o)
    ensures Total(g, l, o + [b]) == Total(g, l, o) + Room(g, l, b)
    ensures FromEnd(g, l, o + [b], b) == Total(g, l, o + [b])
    ensures forall x :: x in o ==> FromEnd(g, l, o + [b], x) == FromEnd(g, l, o, x)
  {
    hide Tail, Fits;
    var o' := o + [b];
    assert o'[..|o|] == o && o'[|o|] == b;
  }

  lemma BranchAt(s: Stmt, dt: nat, df: nat, extra: nat, i: nat)
    requires s.code.Jmp? && (if dt >= 256 then 1 else 0) + (if df >= 256 then 1 else 0) <= extra && i < 1 + extra
    ensures |Branch(s, dt, df, extra)| == 1 + extra
    ensures var e := if dt >= 256 then 1 else 0;
            Branch(s, dt, df, extra)[i] ==
            if i == 0 then Insn(Encode(s.code), if dt >= 256 then 0 else dt, if df >= 256 then e else df, s.k)
            else if i == 1 && dt >= 256 then JumpAlways(dt - 1)
            else if i == 1 + e && df >= 256 then JumpAlways(df - e - 1)
            else BLANK
  {
  }

  lemma RoomOf(g: Graph, l: Longs, p: nat)
    requires LongsOk(g, l) && p < |g|
    ensures |l.jt| == |g| == |l.jf| && Room(g, l, p) == |Body(g[p].stmts)| + 1 + l.jt[p] + l.jf[p]
    ensures l.jt[p] <= 1 && l.jf[p] <= 1 && (IsLeaf(g[p]) ==> l.jt[p] == 0 == l.jf[p])
  {
  }

  lemma NodeShape(g: Graph, p: nat)
    requires WellFormed(g) && p < |g|
    ensures NodeOk(g[p], |g|)
  {
  }

  lemma RaisedByOk(g: Graph, l0: Longs, l1: Longs, o: seq<nat>, b: nat)
    requires LongsOk(g, l0) && InGraph(g, o) && Placeable(g, o, b) && RaisedBy(g, l0, l1, o, b)
    ensures LongsOk(g, l1)
  {
  }

  method Slength(ss: seq<Stmt>) returns (n: nat)
    ensures n == |Body(ss)|
  {
    n := 0;
    for i := 0 to |ss|
      invariant n + |Body(ss[i..])| == |Body(ss)|
    {
      assert ss[i..][1..] == ss[i + 1..];
      if !ss[i].code.Nop? { n := n + 1; }
    }
  }

  /** The blocks in `o` fill the array from `tail` to its end; the rest is blank. */
  ghost predicate Filled(g: Graph, l: Longs, o: seq<nat>, offset: seq<int>, f: seq<Insn>, tail: nat)
    requires WellFormed(g) && LongsOk(g, l) && Placed(g, o)
  {
    && |offset| == |g|
    && AllFit(g, l, o)
    && |f| <= INT_MAX
    && tail + Total(g, l, o) == |f|
    && f[tail..] == Program(g, l, o)
    && (forall i :: 0 <= i < tail ==> f[i] == BLANK)
    && (forall x :: x in o ==> offset[x] == |f| - FromEnd(g, l, o, x))
  }

  /** Putting the instructions of block p in front keeps the array in order. */
  lemma FillOneMore(g: Graph, l: Longs, o: seq<nat>, p: nat, offset: seq<int>,
                    f0: seq<Insn>, tail0: nat, f1: seq<Insn>, tail1: nat)
    requires WellFormed(g) && LongsOk(g, l) && Placed(g, o) && Placeable(g, o, p) && Fits(g, l, o, p)
    requires Filled(g, l, o, offset, f0, tail0) && |f1| == |f0|
    requires tail1 + Room(g, l, p) == tail0
    requires f1[tail1..tail0] == Body(g[p].stmts) + Tail(g, l, o, p)
    requires forall i :: 0 <= i < |f1| && !(tail1 <= i < tail0) ==> f1[i] == f0[i]
    ensures Placed(g, o + [p]) && Filled(g, l, o + [p], offset[p := tail1], f1, tail1)
  {
    hide Placed, AllFit, Total, FromEnd, Program, Body, Tail, Fits, LongsOk, WellFormed, INT_MAX;
    ExtendProgram(g, l, o, p);
    assert f1[tail0..] == f0[tail0..];
    assert f1[tail1..] == f1[tail1..tail0] + f1[tail0..];
  }

  lemma NothingFilled(g: Graph, l: Longs, offset: seq<int>, f: seq<Insn>)
    requires WellFormed(g) && LongsOk(g, l) && |offset| == |g| && |f| <= INT_MAX
    requires forall i :: 0 <= i < |f| ==> f[i] == BLANK
    ensures Placed(g, []) && Total(g, l, []) == 0 && Filled(g, l, [], offset, f, |f|)
  {
  }

  lemma {:induction false} NothingTight(g: Graph, l: Longs, o: seq<nat>)
    requires LongsOk(g, l) && Placed(g, o)
    requires forall b :: 0 <= b < |g| ==> l.jt[b] == 0 == l.jf[b]
    ensures Tight(g, l, o)
    decreases |o|
  {
    if o != [] { NothingTight(g, l, o[..|o| - 1]); }
  }

  /** Even with a long jump for every branch, the program has at most INT_MAX instructions. */
  ghost predicate Small(g: Graph, rank: seq<nat>, root: nat)
    requires Ranked(g, rank) && root < |g|
  {
    Space(g, AllLong(g), Below(g, rank, root), |g|) <= INT_MAX
  }

  /** The counting walk and the emitting walk need the same space, and it is small enough. */
  lemma SmallEnough(g: Graph, rank: seq<nat>, root: nat, l: Longs)
    requires Ranked(g, rank) && root < |g| && LongsOk(g, l) && Small(g, rank, root)
    ensures var o, o' := Order(g, rank, root, [], false), Order(g, rank, root, [], true);
            && Placed(g, []) && Placed(g, o) && Placed(g, o')
            && Total(g, l, []) == 0 && Total(g, l, o) == Total(g, l, o') <= INT_MAX
    ensures WellFormed(g) && MarksOk(rank, {}, [], root)
  {
    var o, o' := Order(g, rank, root, [], false), Order(g, rank, root, [], true);
    OrderProperties(g, rank, root, [], false);
    OrderProperties(g, rank, root, [], true);
    TotalIsSpace(g, l, o);
    TotalIsSpace(g, l, o');
    TotalIsSpace(g, AllLong(g), o);
    TotalGrows(g, l, AllLong(g), o);
    assert Elements([]) + Below(g, rank, root) == Below(g, rank, root);
  }

  /** The emitter's result: the blocks reachable from the root, laid out with no idle long jump. */
  ghost predicate LaidOut(g: Graph, rank: seq<nat>, root: nat, l: Longs, prog: seq<Insn>)
    requires Ranked(g, rank) && root < |g| && LongsOk(g, l)
  {
    var o := Order(g, rank, root, [], false);
    && Walked(g, rank, root, [], o) && AllFit(g, l, o) && Tight(g, l, o)
    && |prog| <= INT_MAX && prog == Program(g, l, o)
  }

  /** The count was exact, so the array is full and starts with the root. */
  lemma WholeArray(g: Graph, rank: seq<nat>, root: nat, l: Longs, offset: seq<int>, f: seq<Insn>, tail: nat)
    requires Ranked(g, rank) && root < |g| && LongsOk(g, l) && Small(g, rank, root)
    requires Placed(g, Order(g, rank, root, [], false)) && Tight(g, l, Order(g, rank, root, [], false))
    requires Filled(g, l, Order(g, rank, root, [], false), offset, f, tail)
    requires |f| == Total(g, l, Order(g, rank, root, [], false))
    ensures tail == 0 && LaidOut(g, rank, root, l, f)
  {
    SmallEnough(g, rank, root, l);
    OrderProperties(g, rank, root, [], false);
    assert f[0..] == f;
  }

  /** The flat program returns what the graph returns, on every packet, from every
      starting state, within as many steps as it has instructions. */
  lemma LaidOutRuns(g: Graph, rank: seq<nat>, root: nat, l: Longs, prog: seq<Insn>, st: State, p: Packet)
    requires Ranked(g, rank) && root < |g| && LongsOk(g, l) && StraightLine(g) && LaidOut(g, rank, root, l, prog)
    ensures Run(prog, 0, st, p, |prog|) == Some(RunGraph(g, rank, root, st, p))
  {
    hide Run, RunGraph, Placed, AllFit, Program, Tight, Below, Elements, Order;
    var o := Order(g, rank, root, [], false);
    assert Holds(prog, 0, prog);
    RunPlaced(g, rank, l, o, prog, root, st, p);
  }

  class Emission {
    const g: Graph
    var longs: Longs
    var marked: set<nat>
    var offset: seq<int>
    var fp: array<Insn>
    var ftail: nat

    constructor (graph: Graph)
      ensures g == graph && LongsOk(g, longs) && |offset| == |g| && fresh(fp)
      ensures longs == Longs(seq(|graph|, i => 0), seq(|graph|, i => 0))
    {
      g := graph;
      longs := Longs(seq(|graph|, i => 0), seq(|graph|, i => 0));
      marked := {};
      offset := seq(|graph|, i => 0);
      fp := new Insn[0];
      ftail := 0;
    }

    /** The instructions needed by the blocks newly entered from p. */
    method CountStmts(p: int, ghost rank: seq<nat>, ghost done: seq<nat>) returns (n: nat)
      requires Ranked(g, rank) && LongsOk(g, longs) && Placed(g, done)
      requires p == NIL || (0 <= p < |g| && MarksOk(rank, marked, done, p))
      modifies this`marked
      ensures p == NIL ==> n == 0 && marked == old(marked)
      ensures p != NIL ==>
                && Placed(g, Order(g, rank, p, done, true))
                && n + Total(g, longs, done) == Total(g, longs, Order(g, rank, p, done, true))
                && marked == old(marked) + Elements(Order(g, rank, p, done, true))
      decreases if p == NIL then 0 else rank[p] + 1
    {
      hide Placed, Placeable, MarksOk, Total, Order, Elements;
      if p == NIL { return 0; }
      AlreadyMarked(g, rank, marked, done, p, true);
      if p in marked { return 0; }
      marked := marked + {p};
      ghost var o0, o1 := OrderOfNode(g, longs, rank, p, done, true);
      var n0, n1 := 0, 0;
      if IsLeaf(g[p]) {
        MarksAfter(old(marked), p, done, done);
      } else {
        MarksDown(g, rank, old(marked), done, p, g[p].jt, done);
        n0 := CountStmts(g[p].jt, rank, done);
        MarksDown(g, rank, old(marked), done, p, g[p].jf, o0);
        n1 := CountStmts(g[p].jf, rank, o0);
        MarksAfter(old(marked), p, o0, o1);
      }
      var slen := Slength(g[p].stmts);
      n := slen + n0 + n1 + 1 + longs.jt[p] + longs.jf[p];
    }

    ghost predicate Laid(done: seq<nat>)
      reads this`longs, this`offset, this`ftail, this`fp, fp
      requires WellFormed(g) && LongsOk(g, longs) && Placed(g, done)
    {
      Filled(g, longs, done, offset, fp[..], ftail)
    }

    /** Writes the statements of a block from index `at` on. */
    method WriteBody(at: nat, ss: seq<Stmt>)
      requires at + |Body(ss)| <= fp.Length
      modifies fp
      ensures fp[at..at + |Body(ss)|] == Body(ss)
      ensures forall i :: 0 <= i < fp.Length && !(at <= i < at + |Body(ss)|) ==> fp[i] == old(fp[i])
    {
      hide Encode, EncodeStmt;
      var dst := at;
      for i := 0 to |ss|
        invariant at <= dst && dst + |Body(ss[i..])| == at + |Body(ss)|
        invariant fp[at..dst] + Body(ss[i..]) == Body(ss)
        invariant forall j :: 0 <= j < fp.Length && !(at <= j < dst) ==> fp[j] == old(fp[j])
      {
        assert ss[i..][1..] == ss[i + 1..];
        if !ss[i].code.Nop? {
          ghost var before := fp[at..dst];
          fp[dst] := EncodeStmt(ss[i]);
          dst := dst + 1;
          assert fp[at..dst] == before + [EncodeStmt(ss[i])];
        }
      }
    }

    /** Sets one offset of the branch at `at`, going through a long jump when it does not fit. */
    method WriteLeg(at: nat, e: nat, off: nat, onTrue: bool) returns (e': nat)
      requires e <= 1 && at < fp.Length && (off >= 256 ==> at + e + 1 < fp.Length)
      modifies fp
      ensures e' == if off >= 256 then e + 1 else e
      ensures var d := if off >= 256 then e else off;
              fp[at] == if onTrue then old(fp[at]).(jt := d) else old(fp[at]).(jf := d)
      ensures off >= 256 ==> fp[at + e + 1] == JumpAlways(off - e - 1)
      ensures forall i :: 0 <= i < fp.Length && i != at && (off >= 256 ==> i != at + e + 1) ==> fp[i] == old(fp[i])
    {
      e' := e;
      if off >= 256 {
        fp[at] := if onTrue then fp[at].(jt := e) else fp[at].(jf := e);
        e' := e' + 1;
        fp[at + e'] := JumpAlways(off - e');
      } else {
        fp[at] := if onTrue then fp[at].(jt := off) else fp[at].(jf := off);
      }
    }

    method WriteBranch(at: nat, s: Stmt, dt: nat, df: nat, ghost extra: nat)
      requires s.code.Jmp? && (if dt >= 256 then 1 else 0) + (if df >= 256 then 1 else 0) <= extra
      requires at + 1 + extra <= fp.Length
      requires forall i :: at <= i < at + 1 + extra ==> fp[i] == BLANK
      modifies fp
      ensures fp[at..at + 1 + extra] == Branch(s, dt, df, extra)
      ensures forall i :: 0 <= i < fp.Length && !(at <= i < at + 1 + extra) ==> fp[i] == old(fp[i])
    {
      hide Encode, Branch, JumpAlways;
      fp[at] := Insn(Encode(s.code), 0, 0, s.k);
      var extrajmps := WriteLeg(at, 0, dt, true);
      extrajmps := WriteLeg(at, extrajmps, df, false);
      BranchAt(s, dt, df, extra, 0);
      forall i | 0 <= i < 1 + extra ensures fp[at + i] == Branch(s, dt, df, extra)[i] {
        BranchAt(s, dt, df, extra, i);
      }
    }

    /** Writes the branch or return of block p at index `at`, or adds the long jump it lacks. */
    method WriteTail(p: nat, at: nat, ghost o: seq<nat>) returns (ok: bool)
      requires WellFormed(g) && LongsOk(g, longs) && Placed(g, o) && Placeable(g, o, p) && |offset| == |g|
      requires at + 1 + longs.jt[p] + longs.jf[p] + Total(g, longs, o) == fp.Length <= INT_MAX
      requires !IsLeaf(g[p]) ==>
                 && offset[g[p].jt] == fp.Length - FromEnd(g, longs, o, g[p].jt)
                 && offset[g[p].jf] == fp.Length - FromEnd(g, longs, o, g[p].jf)
      requires forall i :: at <= i < at + 1 + longs.jt[p] + longs.jf[p] ==> fp[i] == BLANK
      modifies fp, this`longs
      ensures ok <==> Fits(g, old(longs), o, p)
      ensures !ok ==> RaisedBy(g, old(longs), longs, o, p)
      ensures ok ==> longs == old(longs)
      ensures ok ==> fp[at..at + 1 + longs.jt[p] + longs.jf[p]] == Tail(g, longs, o, p)
      ensures forall i :: 0 <= i < fp.Length && !(at <= i < at + 1 + old(longs.jt[p] + longs.jf[p])) ==>
              fp[i] == old(fp[i])
    {
      hide Placed, Total, FromEnd, Encode, Branch, LongsOk, WellFormed, INT_MAX;
      RoomOf(g, longs, p);
      NodeShape(g, p);
      if g[p].jt == NIL {
        fp[at] := EncodeStmt(g[p].s);
        assert fp[at..at + 1] == [EncodeStmt(g[p].s)];
        return true;
      }
      DistanceBounds(g, longs, o, p, g[p].jt);
      DistanceBounds(g, longs, o, p, g[p].jf);
      var dt := offset[g[p].jt] - at - 1;
      var df := offset[g[p].jf] - at - 1;
      assert dt == Distance(g, longs, o, p, g[p].jt) && df == Distance(g, longs, o, p, g[p].jf);
      if dt >= 256 && longs.jt[p] == 0 {
        longs := Longs(longs.jt[p := 1], longs.jf);
        return false;
      }
      if df >= 256 && longs.jf[p] == 0 {
        longs := Longs(longs.jt, longs.jf[p := 1]);
        return false;
      }
      WriteBranch(at, g[p].s, dt, df, longs.jt[p] + longs.jf[p]);
      return true;
    }

    /** Places p and everything below it; false when a branch was found too short. */
    method ConvertCodeR(p: int, ghost rank: seq<nat>, ghost done: seq<nat>) returns (ok: bool)
      requires Ranked(g, rank) && LongsOk(g, longs) && Placed(g, done) && Laid(done)
      requires p == NIL ||
               (&& 0 <= p < |g| && MarksOk(rank, marked, done, p)
                && Placed(g, Order(g, rank, p, done, false))
                && Total(g, longs, Order(g, rank, p, done, false)) <= fp.Length)
      modifies this`marked, this`longs, this`offset, this`ftail, fp
      ensures p == NIL ==> ok && longs == old(longs) && Laid(done) && marked == old(marked)
      ensures p != NIL && ok ==>
                && longs == old(longs)
                && Laid(Order(g, rank, p, done, false))
                && marked == old(marked) + Elements(Order(g, rank, p, done, false))
      ensures p != NIL && !ok ==> Raised(g, old(longs), longs, Order(g, rank, p, done, false))
      ensures LongsOk(g, longs) && |offset| == old(|offset|)
      decreases if p == NIL then 0 else rank[p] + 1
    {
      hide Placed, Placeable, MarksOk, Total, Order, Elements, Laid, Raised;
      if p == NIL { return true; }
      AlreadyMarked(g, rank, marked, done, p, false);
      if p in marked { return true; }
      marked := marked + {p};
      ghost var o0, o1 := OrderOfNode(g, longs, rank, p, done, false);
      TotalOfPrefix(g, longs, o0, o1 + [p]);
      if IsLeaf(g[p]) {
        MarksAfter(old(marked), p, done, done);
      } else {
        MarksDown(g, rank, old(marked), done, p, g[p].jf, done);
        ok := ConvertCodeR(g[p].jf, rank, done);
        if !ok {
          RaisedInLonger(g, old(longs), longs, o0, o1 + [p]);
          return false;
        }
        MarksDown(g, rank, old(marked), done, p, g[p].jt, o0);
        ok := ConvertCodeR(g[p].jt, rank, o0);
        if !ok {
          RaisedInLonger(g, old(longs), longs, o1, o1 + [p]);
          return false;
        }
        MarksAfter(old(marked), p, o0, o1);
      }
      ok := PlaceBlock(p, o1);
    }

    /** Places block p in front of the blocks in `o`. */
    method PlaceBlock(p: nat, ghost o: seq<nat>) returns (ok: bool)
      requires WellFormed(g) && LongsOk(g, longs) && Placed(g, o) && Placeable(g, o, p) && Laid(o)
      requires Placed(g, o + [p]) && Total(g, longs, o + [p]) <= fp.Length
      requires Total(g, longs, o + [p]) == Total(g, longs, o) + Room(g, longs, p)
      modifies this`longs, this`offset, this`ftail, fp
      ensures LongsOk(g, longs) && |offset| == old(|offset|)
      ensures ok ==> longs == old(longs) && Laid(o + [p])
      ensures !ok ==> Raised(g, old(longs), longs, o + [p])
    {
      hide Placed, AllFit, Total, FromEnd, Program, Body, Tail, Fits, LongsOk, WellFormed, RaisedBy, INT_MAX;
      var slen := Slength(g[p].stmts);
      RoomOf(g, longs, p);
      var dst := ftail - (slen + 1 + longs.jt[p] + longs.jf[p]);
      ghost var f0, tail0, offset0, l := fp[..], ftail, offset, longs;
      ftail := dst;
      offset := offset[p := dst];
      WriteBody(dst, g[p].stmts);
      ok := WriteTail(p, dst + slen, o);
      if ok {
        assert fp[..][dst..tail0] == fp[dst..dst + slen] + fp[dst + slen..tail0];
        FillOneMore(g, longs, o, p, offset0, f0, tail0, fp[..], dst);
      } else {
        assert (o + [p])[..|o|] == o;
        RaisedByOk(g, l, longs, o, p);
      }
    }

    /** One pass: count, allocate, fill. */
    method OnePass(root: nat, ghost rank: seq<nat>) returns (ok: bool)
      requires Ranked(g, rank) && root < |g| && |offset| == |g| && LongsOk(g, longs) && Small(g, rank, root)
      requires Placed(g, Order(g, rank, root, [], false)) && Tight(g, longs, Order(g, rank, root, [], false))
      modifies this
      ensures |offset| == |g| && LongsOk(g, longs)
      ensures ok ==> longs == old(longs) && LaidOut(g, rank, root, longs, fp[..])
      ensures !ok ==> Raised(g, old(longs), longs, Order(g, rank, root, [], false))
    {
      hide Placed, Placeable, AllFit, Order, Elements, Raised, Tight, Program, LongsOk, Ranked, Below, WellFormed;
      hide Filled, LaidOut, MarksOk, Small, Total;
      SmallEnough(g, rank, root, longs);
      marked := {};
      var n := CountStmts(root, rank, []);
      marked := {};
      fp := new Insn[n](i => BLANK);
      ftail := n;
      NothingFilled(g, longs, offset, fp[..]);
      ok := ConvertCodeR(root, rank, []);
      if ok {
        WholeArray(g, rank, root, longs, offset, fp[..], ftail);
      }
    }

    /** Passes until no branch is found too short. */
    method IcodeToFcode(root: nat, ghost rank: seq<nat>) returns (prog: seq<Insn>)
      requires Ranked(g, rank) && root < |g| && |offset| == |g|
      requires LongsOk(g, longs) && Small(g, rank, root)
      requires forall b :: 0 <= b < |g| ==> longs.jt[b] == 0 == longs.jf[b]
      modifies this
      ensures LongsOk(g, longs) && LaidOut(g, rank, root, longs, prog)
    {
      ghost var o := Order(g, rank, root, [], false);
      OrderProperties(g, rank, root, [], false);
      NothingTight(g, longs, o);
      hide Placed, Order, Raised, Tight, LongsOk, Ranked, LaidOut, Small, Walked;
      while true
        invariant LongsOk(g, longs) && |offset| == |g| && Tight(g, longs, o)
        decreases Spare(longs, |g|)
      {
        ghost var l := longs;
        var ok := OnePass(root, rank);
        if ok {
          return fp[..];
        }
        RaisedProgress(g, l, longs, o);
        RaisedStaysTight(g, l, longs, o, o);
      }
    }
  }
}
