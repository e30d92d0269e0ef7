/**
 * The flat program a graph is laid out as, given which branches have a long
 * jump reserved, and the proof that running it is running the graph.
 */
module Layout {
  import opened Words
  import opened Machine
  import opened FlowGraph

  // ------------------------------------------------------- depth-first order

  /** Blocks in the order a marking depth-first walk leaves them, after those in
      `done`. The emitter walks JF before JT, the counter JT before JF. */
  function Order(g: Graph, ghost rank: seq<nat>, p: nat, done: seq<nat>, trueFirst: bool): seq<nat>
    requires Ranked(g, rank) && p < |g|
    decreases rank[p]
  {
    if p in done then done
    else if IsLeaf(g[p]) then done + [p]
    else if trueFirst then
      Order(g, rank, g[p].jf, Order(g, rank, g[p].jt, done, true), true) + [p]
    else
      Order(g, rank, g[p].jt, Order(g, rank, g[p].jf, done, false), false) + [p]
  }

  ghost function Elements(s: seq<nat>): set<nat> { set x | x in s }

  ghost predicate InGraph(g: Graph, o: seq<nat>) { forall i :: 0 <= i < |o| ==> o[i] < |g| }

  /** A list of blocks without repetition in which successors come earlier. */
  ghost predicate Placed(g: Graph, o: seq<nat>)
    ensures Placed(g, o) ==> InGraph(g, o)
  {
    o == [] ||
    var last := |o| - 1;
    Placed(g, o[..last]) && Placeable(g, o[..last], o[last])
  }

  /** Block b may be placed next. */
  ghost predicate Placeable(g: Graph, o: seq<nat>, b: nat)
  {
    b < |g| && b !in o && (!IsLeaf(g[b]) ==> g[b].jt in o && g[b].jf in o)
  }

  lemma PlaceNext(g: Graph, o: seq<nat>, b: nat)
    requires Placed(g, o) && Placeable(g, o, b)
    ensures Placed(g, o + [b]) && Elements(o + [b]) == Elements(o) + {b}
  {
    assert (o + [b])[..|o|] == o;
  }

  /** Every entry of a placed list could be placed after the entries before it. */
  lemma {:induction false} PlacedAt(g: Graph, o: seq<nat>, k: nat)
    requires Placed(g, o) && k < |o|
    ensures Placed(g, o[..k]) && Placeable(g, o[..k], o[k])
    ensures forall i :: k < i < |o| ==> o[i] != o[k]
    decreases |o|
  {
    var last := |o| - 1;
    if k < last {
      PlacedAt(g, o[..last], k);
      assert o[..last][..k] == o[..k];
      assert o[k] in o[..last];
    }
  }

  lemma {:induction false} ClosedBelow(g: Graph, rank: seq<nat>, o: seq<nat>, b: nat)
    requires Ranked(g, rank) && Placed(g, o) && b in o
    ensures b < |g| && Below(g, rank, b) <= Elements(o)
    decreases |o|
  {
    var last := |o| - 1;
    var o' := o[..last];
    if o[last] != b {
      ClosedBelow(g, rank, o', b);
    } else if !IsLeaf(g[b]) {
      ClosedBelow(g, rank, o', g[b].jt);
      ClosedBelow(g, rank, o', g[b].jf);
    }
    assert Elements(o') <= Elements(o);
  }

  /** What a walk from p adds to `done`: the blocks reachable from p, once each, successors first. */
  ghost predicate Walked(g: Graph, rank: seq<nat>, p: nat, done: seq<nat>, o: seq<nat>)
    requires Ranked(g, rank) && p < |g|
  {
    && done <= o && p in o && Placed(g, o)
    && Elements(o) == Elements(done) + Below(g, rank, p)
    && (p !in done ==> o[|o| - 1] == p)
  }

  lemma WalkedBoth(g: Graph, rank: seq<nat>, p: nat, c0: nat, c1: nat, done: seq<nat>, o0: seq<nat>, o1: seq<nat>)
    requires Ranked(g, rank) && p < |g| && !IsLeaf(g[p]) && p !in done
    requires (c0, c1) == (g[p].jt, g[p].jf) || (c0, c1) == (g[p].jf, g[p].jt)
    requires Walked(g, rank, c0, done, o0) && Walked(g, rank, c1, o0, o1)
    ensures Placeable(g, o1, p) && Walked(g, rank, p, done, o1 + [p])
  {
    hide Placed, Below, Elements;
    assert c0 in o1;
    NotBelowItself(g, rank, p);
    InElements(o1, p);
    InElements(done, p);
    PlaceNext(g, o1, p);
    BelowNode(g, rank, p);
  }

  lemma {:induction false} OrderProperties(g: Graph, rank: seq<nat>, p: nat, done: seq<nat>, trueFirst: bool)
    requires Ranked(g, rank) && p < |g| && Placed(g, done)
    ensures Walked(g, rank, p, done, Order(g, rank, p, done, trueFirst))
    decreases rank[p]
  {
    hide Placed, Elements;
    if p in done {
      ClosedBelow(g, rank, done, p);
      assert Elements(done) == Elements(done) + Below(g, rank, p);
    } else if IsLeaf(g[p]) {
      PlaceNext(g, done, p);
    } else {
      hide Below;
      var c0 := if trueFirst then g[p].jt else g[p].jf;
      var c1 := if trueFirst then g[p].jf else g[p].jt;
      var o0 := Order(g, rank, c0, done, trueFirst);
      OrderProperties(g, rank, c0, done, trueFirst);
      OrderProperties(g, rank, c1, o0, trueFirst);
      WalkedBoth(g, rank, p, c0, c1, done, o0, Order(g, rank, c1, o0, trueFirst));
    }
  }

  lemma InElements(s: seq<nat>, x: nat)
    ensures x in Elements(s) <==> x in s
  {
  }

  lemma BelowNode(g: Graph, rank: seq<nat>, p: nat)
    requires Ranked(g, rank) && p < |g| && !IsLeaf(g[p])
    ensures Below(g, rank, p) == {p} + Below(g, rank, g[p].jt) + Below(g, rank, g[p].jf)
  {
  }

  lemma NotBelowItself(g: Graph, rank: seq<nat>, p: nat)
    requires Ranked(g, rank) && p < |g| && !IsLeaf(g[p])
    ensures p !in Below(g, rank, g[p].jt) && p !in Below(g, rank, g[p].jf)
  {
    if p in Below(g, rank, g[p].jt) { BelowBasics(g, rank, g[p].jt, p); }
    if p in Below(g, rank, g[p].jf) { BelowBasics(g, rank, g[p].jf, p); }
  }

  // --------------------------------------------------------------- block sizes

  /** Which branches have a long jump reserved, and how many (0 or 1). */
  datatype Longs = Longs(jt: seq<nat>, jf: seq<nat>)

  predicate LongsOk(g: Graph, l: Longs)
  {
    |l.jt| == |g| == |l.jf| &&
    forall b :: 0 <= b < |g| ==> l.jt[b] <= 1 && l.jf[b] <= 1 && (IsLeaf(g[b]) ==> l.jt[b] == 0 == l.jf[b])
  }

  function EncodeStmt(s: Stmt): Insn
    requires !s.code.Nop?
  {
    Insn(Encode(s.code), 0, 0, s.k)
  }

  /** The statements of a block, deleted ones left out. */
  function Body(ss: seq<Stmt>): seq<Insn>
  {
    if ss == [] then []
    else if ss[0].code.Nop? then Body(ss[1..])
    else [EncodeStmt(ss[0])] + Body(ss[1..])
  }

  function Room(g: Graph, l: Longs, b: nat): nat
    requires LongsOk(g, l) && b < |g|
  {
    |Body(g[b].stmts)| + 1 + l.jt[b] + l.jf[b]
  }

  /** Instructions needed for a list of blocks. */
  function Total(g: Graph, l: Longs, o: seq<nat>): nat
    requires LongsOk(g, l) && InGraph(g, o)
  {
    if o == [] then 0 else Total(g, l, o[..|o| - 1]) + Room(g, l, o[|o| - 1])
  }

  /** Instructions needed for a set of blocks, numbered below n. */
  ghost function Space(g: Graph, l: Longs, blocks: set<nat>, n: nat): nat
    requires LongsOk(g, l) && n <= |g|
  {
    if n == 0 then 0
    else Space(g, l, blocks, n - 1) + if n - 1 in blocks then Room(g, l, n - 1) else 0
  }

  lemma {:induction false} SpaceWithOneMore(g: Graph, l: Longs, blocks: set<nat>, b: nat, n: nat)
    requires LongsOk(g, l) && n <= |g| && b !in blocks && b < |g|
    ensures Space(g, l, blocks + {b}, n) == Space(g, l, blocks, n) + if b < n then Room(g, l, b) else 0
  {
    if n > 0 { SpaceWithOneMore(g, l, blocks, b, n - 1); }
  }

  lemma {:induction false} NoSpace(g: Graph, l: Longs, n: nat)
    requires LongsOk(g, l) && n <= |g|
    ensures Space(g, l, {}, n) == 0
  {
    if n > 0 { NoSpace(g, l, n - 1); }
  }

  /** Space depends only on which blocks are listed, not on the order a walk lists them in. */
  lemma {:induction false} TotalIsSpace(g: Graph, l: Longs, o: seq<nat>)
    requires LongsOk(g, l) && Placed(g, o)
    ensures Total(g, l, o) == Space(g, l, Elements(o), |g|)
    decreases |o|
  {
    if o == [] {
      NoSpace(g, l, |g|);
      assert Elements(o) == {};
    } else {
      var last := |o| - 1;
      TotalIsSpace(g, l, o[..last]);
      InElements(o[..last], o[last]);
      assert Elements(o) == Elements(o[..last]) + {o[last]};
      SpaceWithOneMore(g, l, Elements(o[..last]), o[last], |g|);
    }
  }

  // -------------------------------------------------------------- the program

  /** Distance from the end of the program back to the start of block b. */
  function FromEnd(g: Graph, l: Longs, o: seq<nat>, b: nat): nat
    requires LongsOk(g, l) && InGraph(g, o) && b in o
  {
    var last := |o| - 1;
    if o[last] == b then Total(g, l, o) else FromEnd(g, l, o[..last], b)
  }

  /** How far beyond its branch instruction block b, placed after `o`, finds block c. */
  function Distance(g: Graph, l: Longs, o: seq<nat>, b: nat, c: nat): nat
    requires LongsOk(g, l) && InGraph(g, o) && b < |g| && c in o
  {
    FromEndAtMost(g, l, o, c);
    l.jt[b] + l.jf[b] + Total(g, l, o) - FromEnd(g, l, o, c)
  }

  lemma {:induction false} FromEndAtMost(g: Graph, l: Longs, o: seq<nat>, c: nat)
    requires LongsOk(g, l) && InGraph(g, o) && c in o
    ensures FromEnd(g, l, o, c) <= Total(g, l, o)
  {
    if o[|o| - 1] != c { FromEndAtMost(g, l, o[..|o| - 1], c); }
  }

  /** A branch of block b that reaches 256 or more needs its long jump. */
  predicate Fits(g: Graph, l: Longs, o: seq<nat>, b: nat)
    requires LongsOk(g, l) && InGraph(g, o) && b < |g|
    requires !IsLeaf(g[b]) ==> g[b].jt in o && g[b].jf in o
  {
    !IsLeaf(g[b]) ==>
      && (Distance(g, l, o, b, g[b].jt) >= 256 ==> l.jt[b] == 1)
      && (Distance(g, l, o, b, g[b].jf) >= 256 ==> l.jf[b] == 1)
  }

  const BLANK := Insn(0, 0, 0, 0)

  function JumpAlways(k: nat): Insn { Insn(Encode(Ja), 0, 0, Wrap(k)) }

  /** The branch instruction with the long jumps that follow it; a reserved long
      jump that turns out not to be needed stays blank. */
  function Branch(s: Stmt, dt: nat, df: nat, extra: nat): seq<Insn>
    requires s.code.Jmp?
    requires (if dt >= 256 then 1 else 0) + (if df >= 256 then 1 else 0) <= extra
  {
    var e := if dt >= 256 then 1 else 0;
    var jt := if dt >= 256 then 0 else dt;
    var jf := if df >= 256 then e else df;
    var jumps := (if dt >= 256 then [JumpAlways(dt - 1)] else []) +
                 (if df >= 256 then [JumpAlways(df - e - 1)] else []);
    [Insn(Encode(s.code), jt, jf, s.k)] + jumps + seq(extra - |jumps|, i => BLANK)
  }

  function Tail(g: Graph, l: Longs, o: seq<nat>, b: nat): seq<Insn>
    requires LongsOk(g, l) && InGraph(g, o) && WellFormed(g) && b < |g|
    requires !IsLeaf(g[b]) ==> g[b].jt in o && g[b].jf in o
    requires Fits(g, l, o, b)
  {
    if IsLeaf(g[b]) then [EncodeStmt(g[b].s)]
    else Branch(g[b].s, Distance(g, l, o, b, g[b].jt), Distance(g, l, o, b, g[b].jf), l.jt[b] + l.jf[b])
  }

  ghost predicate AllFit(g: Graph, l: Longs, o: seq<nat>)
    requires LongsOk(g, l) && Placed(g, o)
  {
    o == [] ||
    var last := |o| - 1;
    AllFit(g, l, o[..last]) && Fits(g, l, o[..last], o[last])
  }

  /** The program: each block goes in front of the ones placed before it. */
  ghost function Program(g: Graph, l: Longs, o: seq<nat>): (prog: seq<Insn>)
    requires WellFormed(g) && LongsOk(g, l) && Placed(g, o) && AllFit(g, l, o)
    ensures |prog| == Total(g, l, o)
    decreases |o|
  {
    if o == [] then []
    else
      var last := |o| - 1;
      Body(g[o[last]].stmts) + Tail(g, l, o[..last], o[last]) + Program(g, l, o[..last])
  }
}
