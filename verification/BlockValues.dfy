/**
 * The values of registers on leaving each block, propagated from predecessors,
 * and the proof that they describe every run of the graph.
 */
module BlockValues {
  import opened Words
  import opened Machine
  import opened FlowGraph
  import opened Layout
  import opened Dominators
  import opened Liveness
  import opened ValueNumbers
  import opened ValueRewrite

  // -------------------------------------------------------------------- runs

  /** A block a run goes through and the state it leaves it in. */
  datatype Visit = Visit(block: nat, st: State)

  ghost predicate StepsTo(g: Graph, v: Visit, w: Visit, p: Packet)
  {
    && v.block < |g| && w.block < |g| && !IsLeaf(g[v.block]) && g[v.block].s.code.Jmp?
    && w.block == Successor(g[v.block], Taken(g[v.block].s, v.st))
    && ExecList(g[w.block].stmts, v.st, p) == Next(w.st)
  }

  /** The start of a run from the root that has not been rejected. */
  ghost predicate IsRun(g: Graph, root: nat, st: State, p: Packet, vs: seq<Visit>)
  {
    vs != [] &&
    var last := |vs| - 1;
    if last == 0 then vs[0].block == root && root < |g| && ExecList(g[root].stmts, st, p) == Next(vs[0].st)
    else IsRun(g, root, st, p, vs[..last]) && StepsTo(g, vs[last - 1], vs[last], p)
  }

  /** What the whole run returns is decided by where it stands. */
  ghost function Remainder(g: Graph, rank: seq<nat>, v: Visit, p: Packet): Result
    requires Ranked(g, rank) && v.block < |g|
  {
    if IsLeaf(g[v.block]) then LeafResult(g[v.block].s, v.st)
    else RunGraph(g, rank, Successor(g[v.block], Taken(g[v.block].s, v.st)), v.st, p)
  }

  lemma {:induction false} RunFollows(g: Graph, rank: seq<nat>, root: nat, st: State, p: Packet, vs: seq<Visit>)
    requires Ranked(g, rank) && root < |g| && IsRun(g, root, st, p, vs)
    ensures vs[|vs| - 1].block < |g|
    ensures RunGraph(g, rank, root, st, p) == Remainder(g, rank, vs[|vs| - 1], p)
    decreases |vs|
  {
    if |vs| > 1 { RunFollows(g, rank, root, st, p, vs[..|vs| - 1]); }
  }

  lemma {:induction false} RunPrefix(g: Graph, root: nat, st: State, p: Packet, vs: seq<Visit>, k: nat)
    requires IsRun(g, root, st, p, vs) && k < |vs|
    ensures IsRun(g, root, st, p, vs[..k + 1]) && vs[k].block < |g|
    ensures k > 0 ==> StepsTo(g, vs[k - 1], vs[k], p)
    decreases |vs|
  {
    if k == |vs| - 1 {
      assert vs[..k + 1] == vs;
    } else {
      RunPrefix(g, root, st, p, vs[..|vs| - 1], k);
      assert vs[..|vs| - 1][..k + 1] == vs[..k + 1];
    }
  }

  // ------------------------------------------------------ numbers and tables

  lemma KnownShaped(v: Values, k: Key)
    requires Shaped(v) && Distinct(v.table) && OperandsIn(k, |v.table|)
    ensures var (v1, n) := Known(v, k);
            && Shaped(v1) && Distinct(v1.table) && v1.val == v.val && v.table <= v1.table
            && 0 < n <= |v1.table| && v1.table[n - 1] == k
  {
  }

  lemma SetShaped(v: Values, atom: nat, n: nat)
    requires Shaped(v) && atom < N_ATOMS && n <= |v.table|
    ensures Shaped(v.(val := v.val[atom := n]))
  {
  }

  /** The table after a statement: shaped as before, only longer. Without altering, the statement stays. */
  ghost predicate Recorded(v: Values, s: Stmt, alter: bool, r: Rewritten)
  {
    && (!alter ==> r.Becomes? && r.s == s)
    && (r.Becomes? ==> Shaped(r.v) && Distinct(r.v.table) && v.table <= r.v.table && InRange(r.s))
  }

  lemma OptStmtRecords(v: Values, s: Stmt, alter: bool)
    requires Shaped(v) && Distinct(v.table) && InRange(s)
    ensures |v.val| == N_ATOMS && Recorded(v, s, alter, OptStmt(v, s, alter))
  {
    hide Shaped, Distinct, Known, OptLoad, VStore, OptAluK, OptAluX, Recorded;
    ShapedBasics(v);
    match s.code
    case Alu(op, src) => if src == K { AluKRecords(v, op, s, alter); } else { AluXRecords(v, op, s, alter); }
    case Neg => NegRecords(v, s, alter);
    case LdInd(z) =>
      if alter && IsConst(v.table, v.val[X_ATOM]) {
        var k := Wrap(s.k + ConstVal(v.table, v.val[X_ATOM]));
        LoadRecords(v, Stmt(LdAbs(z), k), s, Key(LdAbs(z), k, 0), A_ATOM, alter);
      } else {
        LoadRecords(v, s, s, Key(s.code, s.k, v.val[X_ATOM]), A_ATOM, alter);
      }
    case LdAbs(_) => LoadRecords(v, s, s, Key(s.code, s.k, 0), A_ATOM, alter);
    case LdLen => LoadRecords(v, s, s, Key(s.code, 0, 0), A_ATOM, alter);
    case LdImm => LoadRecords(v, s, s, ConstKey(s.k), A_ATOM, alter);
    case LdxImm => LoadRecords(v, s, s, ConstKey(s.k), X_ATOM, alter);
    case LdxMsh => LoadRecords(v, s, s, Key(s.code, s.k, 0), X_ATOM, alter);
    case Txa => StoreRecords(v, s, s, A_ATOM, X_ATOM, alter);
    case Tax => StoreRecords(v, s, s, X_ATOM, A_ATOM, alter);
    case LdMem => 
      var s' := if alter && IsConst(v.table, v.val[s.k]) then Stmt(LdImm, ConstVal(v.table, v.val[s.k])) else s;
      StoreRecords(v, s', s, A_ATOM, s.k, alter);
    case LdxMem =>
      var s' := if alter && IsConst(v.table, v.val[s.k]) then Stmt(LdxImm, ConstVal(v.table, v.val[s.k])) else s;
      StoreRecords(v, s', s, X_ATOM, s.k, alter);
    case St => StoreRecords(v, s, s, s.k, A_ATOM, alter);
    case Stx => StoreRecords(v, s, s, s.k, X_ATOM, alter);
    case _ => SameRecords(v, s, alter);
  }

  lemma SameRecords(v: Values, s: Stmt, alter: bool)
    requires Shaped(v) && Distinct(v.table) && InRange(s)
    ensures Recorded(v, s, alter, Becomes(v, s)) && Recorded(v, s, true, Becomes(v, s.(code := Nop)))
  {
  }

  lemma StoreRecords(v: Values, s: Stmt, s0: Stmt, to: nat, from: nat, alter: bool)
    requires Shaped(v) && Distinct(v.table) && InRange(s) && to < N_ATOMS && from < N_ATOMS && (!alter ==> s == s0)
    ensures |v.val| == N_ATOMS && Recorded(v, s0, alter, VStore(v, s, to, v.val[from], alter))
  {
    ShapedAtom(v, from);
    SetShaped(v, to, v.val[from]);
  }

  lemma LoadRecords(v: Values, s: Stmt, s0: Stmt, k: Key, atom: nat, alter: bool)
    requires Shaped(v) && Distinct(v.table) && InRange(s) && atom < N_ATOMS && OperandsIn(k, |v.table|)
    requires !alter ==> s == s0
    ensures |v.val| == N_ATOMS && Recorded(v, s0, alter, OptLoad(v, s, k, atom, alter))
  {
    hide Shaped, Distinct, Known;
    ShapedBasics(v);
    KnownShaped(v, k);
    var (v1, n) := Known(v, k);
    ShapedBasics(v1);
    SetShaped(v1, atom, n);
  }

  lemma NegRecords(v: Values, s: Stmt, alter: bool)
    requires Shaped(v) && Distinct(v.table) && s.code.Neg? && |v.val| == N_ATOMS
    ensures Recorded(v, s, alter, OptStmt(v, s, alter))
  {
    hide Shaped, Distinct, Known;
    ShapedBasics(v);
    RecordA(v, Key(Neg, v.val[A_ATOM], 0));
    if IsConst(v.table, v.val[A_ATOM]) { RecordA(v, ConstKey(Wrap(0 - ConstVal(v.table, v.val[A_ATOM])))); }
  }

  /** The number of an operation with a constant, entered after the constant's own. */
  lemma RecordAluK(v: Values, op: AluOp, k: Word)
    requires Shaped(v) && Distinct(v.table) && |v.val| == N_ATOMS
    ensures var (v1, kn) := Known(v, ConstKey(k));
            var (v2, n) := Known(v1, Key(Alu(op, K), v.val[A_ATOM], kn));
            |v2.val| == N_ATOMS && Shaped(SetA(v2, n)) && Distinct(v2.table) && v.table <= v2.table
  {
    hide Shaped, Distinct, Known;
    ShapedBasics(v);
    KnownShaped(v, ConstKey(k));
    var (v1, kn) := Known(v, ConstKey(k));
    RecordA(v1, Key(Alu(op, K), v.val[A_ATOM], kn));
  }

  lemma FoldRecords(v: Values, s: Stmt, op: AluOp, a: Word, b: Word)
    requires Shaped(v) && Distinct(v.table) && |v.val| == N_ATOMS
    ensures Recorded(v, s, true, Fold(v, op, a, b))
  {
    hide Shaped, Distinct, Known, Apply;
    match Apply(op, a, b)
    case None =>
    case Some(c) => RecordA(v, ConstKey(c));
  }

  lemma AluKRecords(v: Values, op: AluOp, s: Stmt, alter: bool)
    requires Shaped(v) && Distinct(v.table) && |v.val| == N_ATOMS && s.code == Alu(op, K)
    ensures Recorded(v, s, alter, OptAluK(v, op, s, alter))
  {
    hide Shaped, Distinct, Known, Fold, Apply;
    RecordAluK(v, op, s.k);
    RecordA(v, ConstKey(0));
    if alter && IsConst(v.table, v.val[A_ATOM]) {
      KnownShaped(v, ConstKey(s.k));
      var (v1, kn) := Known(v, ConstKey(s.k));
      FoldRecords(v1, s, op, ConstVal(v.table, v.val[A_ATOM]), s.k);
    }
  }

  lemma AluXRecords(v: Values, op: AluOp, s: Stmt, alter: bool)
    requires Shaped(v) && Distinct(v.table) && |v.val| == N_ATOMS && s.code == Alu(op, X)
    ensures Recorded(v, s, alter, OptAluX(v, op, s, alter))
  {
    hide Shaped, Distinct, Known, Fold, Apply, OptLoad, VStore, Recorded;
    ShapedBasics(v);
    var a, x := v.val[A_ATOM], v.val[X_ATOM];
    if alter && IsConst(v.table, x) {
      var c := ConstVal(v.table, x);
      if IsConst(v.table, a) {
        FoldRecords(v, s, op, ConstVal(v.table, a), c);
      } else if !(op in {Lsh, Rsh} && c > 31) {
        RecordAluK(v, op, c);
        BecomesRecords(v, s, alter, OptAluX(v, op, s, alter));
      } else {
        FailureRecords(v, s, BigShift);
      }
    } else if alter && IsConst(v.table, a) && ConstVal(v.table, a) == 0 && op in {Add, Or_, Xor_} {
      StoreRecords(v, s.(code := Txa), s, A_ATOM, X_ATOM, alter);
    } else if alter && IsConst(v.table, a) && ConstVal(v.table, a) == 0 && op != Sub {
      LoadRecords(v, Stmt(LdImm, 0), s, ConstKey(0), A_ATOM, alter);
    } else {
      RecordA(v, Key(Alu(op, X), a, x));
      BecomesRecords(v, s, alter, OptAluX(v, op, s, alter));
    }
  }

  lemma FailureRecords(v: Values, s: Stmt, e: OptError)
    ensures Recorded(v, s, true, Failed(e))
  {
  }

  lemma BecomesRecords(v: Values, s: Stmt, alter: bool, r: Rewritten)
    requires r.Becomes? && Shaped(r.v) && Distinct(r.v.table) && v.table <= r.v.table && InRange(r.s)
    requires !alter ==> r.s == s
    ensures Recorded(v, s, alter, r)
  {
  }

  lemma ShapedAtom(v: Values, atom: nat)
    requires Shaped(v) && atom < N_ATOMS
    ensures v.val[atom] <= |v.table|
  {
  }

  lemma RecordA(v: Values, k: Key)
    requires Shaped(v) && Distinct(v.table) && OperandsIn(k, |v.table|)
    ensures var (v1, n) := Known(v, k);
            |v1.val| == N_ATOMS && Shaped(SetA(v1, n)) && Distinct(v1.table) && v.table <= v1.table
  {
    hide Shaped, Distinct, Known;
    KnownShaped(v, k);
    var (v1, n) := Known(v, k);
    ShapedBasics(v1);
    SetShaped(v1, A_ATOM, n);
  }

  lemma {:induction false} OptListRecords(v: Values, ss: seq<Stmt>, alter: bool)
    requires Shaped(v) && Distinct(v.table) && AllInRange(ss)
    ensures |v.val| == N_ATOMS
    ensures var r := OptList(v, ss, alter);
            && (!alter ==> r.Block? && r.ss == ss)
            && (r.Block? ==> Shaped(r.v) && Distinct(r.v.table) && v.table <= r.v.table)
    decreases |ss|
  {
    hide Shaped, Distinct, OptStmt, InRange;
    ShapedBasics(v);
    if ss != [] {
      OptStmtRecords(v, ss[0], alter);
      match OptStmt(v, ss[0], alter)
      case Failed(_) =>
      case Becomes(v1, _) =>
        OptListRecords(v1, ss[1..], alter);
        assert ss == [ss[0]] + ss[1..];
    }
  }

  // ------------------------------------------------------------- propagation

  /** Registers on which two predecessors disagree become unknown. */
  function Merge(u: seq<nat>, w: seq<nat>): (r: seq<nat>)
    requires |u| == |w|
    ensures |r| == |u| && forall a :: 0 <= a < |r| ==> r[a] == if u[a] != w[a] then UNKNOWN else u[a]
  {
    seq(|u|, a requires 0 <= a < |u| == |w| => if u[a] != w[a] then UNKNOWN else u[a])
  }

  predicate ValsOk(val: seq<seq<nat>>) { forall b :: 0 <= b < |val| ==> |val[b]| == N_ATOMS }

  predicate EdgesIn(n: nat, es: seq<nat>) { forall i :: 0 <= i < |es| ==> es[i] < 2 * n }

  /** The numbers on entry to a block, from those its predecessors leave. */
  function Entry(val: seq<seq<nat>>, es: seq<nat>): (r: seq<nat>)
    requires ValsOk(val) && EdgesIn(|val|, es)
    ensures |r| == N_ATOMS
  {
    if es == [] then NOTHING_KNOWN.val
    else
      var last := |es| - 1;
      var own := val[Owner(|val|, es[last])];
      if last == 0 then own else Merge(Entry(val, es[..last]), own)
  }

  /** What is known on entry is what every predecessor leaves. */
  lemma {:induction false} EntryAgrees(val: seq<seq<nat>>, es: seq<nat>, e: nat, a: nat)
    requires ValsOk(val) && EdgesIn(|val|, es) && e in es && a < N_ATOMS && Entry(val, es)[a] != UNKNOWN
    ensures val[Owner(|val|, e)][a] == Entry(val, es)[a]
    decreases |es|
  {
    var last := |es| - 1;
    if last > 0 && es[last] != e { EntryAgrees(val, es[..last], e, a); }
  }

  /** What every predecessor leaves is known on entry; where two differ, nothing is. */
  lemma {:induction false} EntryKnown(val: seq<seq<nat>>, es: seq<nat>, a: nat)
    requires ValsOk(val) && EdgesIn(|val|, es) && es != [] && a < N_ATOMS
    ensures (forall i :: 0 <= i < |es| ==> val[Owner(|val|, es[i])][a] == val[Owner(|val|, es[0])][a]) ==>
              Entry(val, es)[a] == val[Owner(|val|, es[0])][a]
    ensures (exists i :: 0 <= i < |es| && val[Owner(|val|, es[i])][a] != val[Owner(|val|, es[0])][a]) ==>
              Entry(val, es)[a] == UNKNOWN
    decreases |es|
  {
    var last := |es| - 1;
    if last > 0 {
      EntryKnown(val, es[..last], a);
      if exists i :: 0 <= i < last && val[Owner(|val|, es[i])][a] != val[Owner(|val|, es[0])][a] {
        var i :| 0 <= i < last && val[Owner(|val|, es[i])][a] != val[Owner(|val|, es[0])][a];
        assert es[..last][i] == es[i];
      }
    }
  }

  lemma {:induction false} EntryBounded(val: seq<seq<nat>>, es: seq<nat>, m: nat)
    requires ValsOk(val) && EdgesIn(|val|, es)
    requires forall i, a :: 0 <= i < |es| && 0 <= a < N_ATOMS ==> val[Owner(|val|, es[i])][a] <= m
    ensures forall a :: 0 <= a < N_ATOMS ==> Entry(val, es)[a] <= m
    decreases |es|
  {
    if |es| > 1 { EntryBounded(val, es[..|es| - 1], m); }
  }

  lemma {:induction false} EntryFrame(val: seq<seq<nat>>, val': seq<seq<nat>>, es: seq<nat>)
    requires ValsOk(val) && ValsOk(val') && |val| == |val'| && EdgesIn(|val|, es)
    requires forall i :: 0 <= i < |es| ==> val[Owner(|val|, es[i])] == val'[Owner(|val|, es[i])]
    ensures Entry(val, es) == Entry(val', es)
    decreases |es|
  {
    if |es| > 1 { EntryFrame(val, val', es[..|es| - 1]); }
  }

  function SrcOf(c: Code): Src { if c.Jmp? then c.src else K }

  /** The numbers of the graph: per block the registers' and the branch operand's. */
  datatype Numbers = Numbers(table: Table, val: seq<seq<nat>>, oval: seq<nat>)

  /** The operand number of a branch. */
  ghost predicate OperandNumber(t: Table, s: Stmt, val: seq<nat>, n: nat)
    requires |val| == N_ATOMS
  {
    if SrcOf(s.code) == K then 0 < n <= |t| && t[n - 1] == ConstKey(s.k) else n == val[X_ATOM]
  }

  /** What a block was numbered from: the first m values, and its entry values. */
  function EntryOf(ns: Numbers, es: seq<nat>, m: nat): Values
    requires ValsOk(ns.val) && EdgesIn(|ns.val|, es) && m <= |ns.table|
  {
    Values(ns.table[..m], Entry(ns.val, es))
  }

  /** Block b carries the numbers opt_blk gives it. */
  ghost predicate Numbered(g: Graph, ns: Numbers, alter: bool, es: seq<nat>, m: nat, b: nat)
    requires b < |g| == |ns.val| == |ns.oval| && ValsOk(ns.val) && AllInRange(g[b].stmts) && EdgesIn(|g|, es)
  {
    && m <= |ns.table| && Shaped(EntryOf(ns, es, m)) && Shaped(Values(ns.table, ns.val[b]))
    && (var r := OptList(EntryOf(ns, es, m), g[b].stmts, alter);
        r.Block? && r.v.val == ns.val[b] && r.v.table <= ns.table && Shaped(r.v))
    && OperandNumber(ns.table, g[b].s, ns.val[b], ns.oval[b])
  }

  ghost predicate NumbersOk(g: Graph, ns: Numbers, alter: bool, inEdges: seq<seq<nat>>, from: seq<nat>,
                            passed: set<nat>)
  {
    && |g| == |ns.val| == |ns.oval| == |from| == |inEdges| && ValsOk(ns.val) && Distinct(ns.table) && Ordered(ns.table)
    && GraphInRange(g)
    && (forall b :: b in passed ==>
      b < |g| && EdgesIn(|g|, inEdges[b]) && Numbered(g, ns, alter, inEdges[b], from[b], b))
  }

  /** The numbers on leaving a block describe the state a run leaves it in. */
  ghost predicate Described(ns: Numbers, v: Visit, p: Packet)
  {
    v.block < |ns.val| && Shaped(Values(ns.table, ns.val[v.block])) &&
    Describes(Values(ns.table, ns.val[v.block]), v.st, p)
  }

  /** Every block computes only from known numbers. */
  ghost predicate AllKnown(g: Graph, ns: Numbers, alter: bool, inEdges: seq<seq<nat>>, from: seq<nat>, blocks: set<nat>)
    requires NumbersOk(g, ns, alter, inEdges, from, blocks)
  {
    forall b :: b in blocks ==> KnownAlong(EntryOf(ns, inEdges[b], from[b]), g[b].stmts, alter)
  }

  lemma SmallerTable(t: Table, m: nat, val: seq<nat>, st: State, p: Packet)
    requires m <= |t| && Shaped(Values(t[..m], val)) && Ordered(t)
    ensures Shaped(Values(t, val)) && (Describes(Values(t, val), st, p) <==> Describes(Values(t[..m], val), st, p))
  {
    hide Meaning, Val, Ordered;
    forall a | 0 <= a < N_ATOMS ensures Meaning(t, val[a], p) == Meaning(t[..m], val[a], p) {
      MeaningStable(t[..m], t, val[a], p);
    }
  }

  lemma BlockDescribed(g: Graph, ns: Numbers, alter: bool, es: seq<nat>, m: nat, b: nat, st: State, st': State,
                       p: Packet)
    requires b < |g| == |ns.val| == |ns.oval| && ValsOk(ns.val) && AllInRange(g[b].stmts) && EdgesIn(|g|, es)
    requires Ordered(ns.table) && Numbered(g, ns, alter, es, m, b)
    requires KnownAlong(EntryOf(ns, es, m), g[b].stmts, alter) && Describes(EntryOf(ns, es, m), st, p)
    requires ExecList(g[b].stmts, st, p) == Next(st')
    ensures Described(ns, Visit(b, st'), p)
  {
    hide Describes, Shaped, OptList, KnownAlong, Ordered, Entry, ExecList, AllInRange;
    var v := EntryOf(ns, es, m);
    OptListFaithful(v, g[b].stmts, alter, st, p);
    var r := OptList(v, g[b].stmts, alter);
    assert r.v == Values(ns.table[..|r.v.table|], ns.val[b]);
    SmallerTable(ns.table, |r.v.table|, ns.val[b], st', p);
  }

  lemma EntryDescribed(ns: Numbers, es: seq<nat>, m: nat, v: Visit, e: nat, p: Packet)
    requires ValsOk(ns.val) && EdgesIn(|ns.val|, es) && m <= |ns.table| && Shaped(EntryOf(ns, es, m))
    requires Described(ns, v, p) && e in es && Owner(|ns.val|, e) == v.block
    ensures Describes(EntryOf(ns, es, m), v.st, p)
  {
    hide Meaning, Val, Entry, Ordered;
    var entry := EntryOf(ns, es, m);
    forall a | 0 <= a < N_ATOMS && entry.val[a] != UNKNOWN
      ensures Meaning(entry.table, entry.val[a], p) == Some(Val(v.st, a))
    {
      EntryAgrees(ns.val, es, e, a);
      MeaningStable(ns.table[..m], ns.table, entry.val[a], p);
    }
  }

  lemma NoEdgesIntoRoot(g: Graph, rank: seq<nat>, root: nat, inEdges: seq<seq<nat>>)
    requires Ranked(g, rank) && root < |g| && InEdgesOf(g, inEdges, Below(g, rank, root))
    ensures inEdges[root] == []
  {
    hide Below;
    if inEdges[root] != [] {
      var e := inEdges[root][0];
      assert e in inEdges[root];
      BelowBasics(g, rank, root, Owner(|g|, e));
    }
  }

  /** The numbers are right on every run: as far as it gets, the state it leaves a block in
      is the one the block's numbers describe. */
  lemma {:induction false} RunsAreDescribed(g: Graph, rank: seq<nat>, root: nat, ns: Numbers, alter: bool,
                                            inEdges: seq<seq<nat>>, from: seq<nat>,
                                            st: State, p: Packet, vs: seq<Visit>)
    requires Ranked(g, rank) && root < |g| && InEdgesOf(g, inEdges, Below(g, rank, root))
    requires NumbersOk(g, ns, alter, inEdges, from, Below(g, rank, root))
    requires AllKnown(g, ns, alter, inEdges, from, Below(g, rank, root))
    requires IsRun(g, root, st, p, vs)
    ensures vs[|vs| - 1].block in Below(g, rank, root) && Described(ns, vs[|vs| - 1], p)
    decreases |vs|
  {
    hide Below, Describes, Shaped, KnownAlong, Entry, ExecList, AllInRange, Numbered, Ordered, Described;
    var last := |vs| - 1;
    var b := vs[last].block;
    if last == 0 {
      FirstEntry(g, rank, root, ns, alter, inEdges, from, st, p);
      BlockDescribed(g, ns, alter, inEdges[b], from[b], b, st, vs[0].st, p);
    } else {
      var prev := vs[last - 1];
      RunsAreDescribed(g, rank, root, ns, alter, inEdges, from, st, p, vs[..last]);
      NextEntry(g, rank, root, ns, alter, inEdges, from, prev, p);
      BlockDescribed(g, ns, alter, inEdges[b], from[b], b, prev.st, vs[last].st, p);
    }
  }

  /** The entry numbers of the block a run goes to next describe the state it gets there with. */
  lemma NextEntry(g: Graph, rank: seq<nat>, root: nat, ns: Numbers, alter: bool, inEdges: seq<seq<nat>>, from: seq<nat>,
                  v: Visit, p: Packet)
    requires Ranked(g, rank) && root < |g| && InEdgesOf(g, inEdges, Below(g, rank, root))
    requires NumbersOk(g, ns, alter, inEdges, from, Below(g, rank, root))
    requires v.block in Below(g, rank, root) && v.block < |g| && !IsLeaf(g[v.block]) && Described(ns, v, p)
    ensures var b := Successor(g[v.block], Taken(g[v.block].s, v.st));
            && 0 <= b < |g| && b in Below(g, rank, root) && from[b] <= |ns.table|
            && Shaped(EntryOf(ns, inEdges[b], from[b])) && Describes(EntryOf(ns, inEdges[b], from[b]), v.st, p)
  {
    hide Below, Describes, Shaped, Entry, AllInRange, Numbered, Ordered, Described, Distinct;
    var b := Successor(g[v.block], Taken(g[v.block].s, v.st));
    LinkedBelow(g, rank, root, v.block, b);
    var e := EdgeId(|g|, v.block, Taken(g[v.block].s, v.st));
    assert EdgeOf(|g|, Below(g, rank, root), e) && Target(g, e) == b;
    BlockStart(g, ns, alter, inEdges[b], from[b], b);
    EntryDescribed(ns, inEdges[b], from[b], v, e, p);
  }

  lemma FirstEntry(g: Graph, rank: seq<nat>, root: nat, ns: Numbers, alter: bool, inEdges: seq<seq<nat>>,
                   from: seq<nat>, st: State, p: Packet)
    requires Ranked(g, rank) && root < |g| && InEdgesOf(g, inEdges, Below(g, rank, root))
    requires NumbersOk(g, ns, alter, inEdges, from, Below(g, rank, root))
    ensures root in Below(g, rank, root) && from[root] <= |ns.table|
    ensures Shaped(EntryOf(ns, inEdges[root], from[root])) && Describes(EntryOf(ns, inEdges[root], from[root]), st, p)
  {
    hide Below, Describes, Shaped, Entry, AllInRange, Numbered, Ordered, Distinct;
    RootBelow(g, rank, root);
    NoEdgesIntoRoot(g, rank, root, inEdges);
    BlockStart(g, ns, alter, inEdges[root], from[root], root);
    NothingDescribed(ns, from[root], st, p);
  }

  lemma BlockStart(g: Graph, ns: Numbers, alter: bool, es: seq<nat>, m: nat, b: nat)
    requires b < |g| == |ns.val| == |ns.oval| && ValsOk(ns.val) && AllInRange(g[b].stmts) && EdgesIn(|g|, es)
    requires Numbered(g, ns, alter, es, m, b)
    ensures m <= |ns.table| && Shaped(EntryOf(ns, es, m))
  {
  }

  lemma NothingDescribed(ns: Numbers, m: nat, st: State, p: Packet)
    requires ValsOk(ns.val) && m <= |ns.table| && Shaped(EntryOf(ns, [], m))
    ensures Describes(EntryOf(ns, [], m), st, p)
  {
  }

  // ---------------------------------------------------------------- the pass

  /** One block: entry values, statements, then the branch operand. */
  method OptBlk(g: Graph, b: nat, es: seq<nat>, ns: Numbers, alter: bool)
    returns (err: Option<OptError>, ns': Numbers, ss: seq<Stmt>)
    requires b < |g| == |ns.val| == |ns.oval| && ValsOk(ns.val) && AllInRange(g[b].stmts) && EdgesIn(|g|, es)
    requires Distinct(ns.table) && Shaped(EntryOf(ns, es, |ns.table|))
    requires forall i :: 0 <= i < |es| ==> Owner(|g|, es[i]) != b
    ensures !alter ==> err == None && ss == g[b].stmts
    ensures err.Some? ==> OptList(EntryOf(ns, es, |ns.table|), g[b].stmts, alter) == BlockFailed(err.value)
    ensures err == None ==>
              && ns.table <= ns'.table && Distinct(ns'.table) && Ordered(ns'.table)
              && |ns'.val| == |g| == |ns'.oval| && ns'.val == ns.val[b := ns'.val[b]] &&
                ns'.oval == ns.oval[b := ns'.oval[b]]
              && ValsOk(ns'.val) && Numbered(g, ns', alter, es, |ns.table|, b)
              && OptList(EntryOf(ns', es, |ns.table|), g[b].stmts, alter).ss == ss
  {
    hide OptList, AllInRange, Distinct, Known, Ordered;
    assert ns.table[..|ns.table|] == ns.table;
    var val := MergeValues(ns.val, es);
    OptListRecords(Values(ns.table, val), g[b].stmts, alter);
    var r := OptStmts(Values(ns.table, val), g[b].stmts, alter);
    if r.BlockFailed? {
      return Some(r.e), ns, [];
    }
    var v, n := r.v, 0;
    if SrcOf(g[b].s.code) == K {
      KnownShaped(v, ConstKey(g[b].s.k));
      var (v1, kn) := Known(v, ConstKey(g[b].s.k));
      v, n := v1, kn;
    } else {
      n := v.val[X_ATOM];
    }
    err, ss := None, r.ss;
    ns' := Numbers(v.table, ns.val[b := v.val], ns.oval[b := n]);
    EntryFrame(ns.val, ns'.val, es);
    assert ns'.table[..|ns.table|] == ns.table;
  }

  /** The predecessors' values, merged one edge at a time. */
  method MergeValues(val: seq<seq<nat>>, es: seq<nat>) returns (r: seq<nat>)
    requires ValsOk(val) && EdgesIn(|val|, es)
    ensures r == Entry(val, es)
  {
    if es == [] { return NOTHING_KNOWN.val; }
    r := val[Owner(|val|, es[0])];
    for i := 1 to |es|
      invariant r == Entry(val, es[..i])
    {
      assert es[..i + 1][..i] == es[..i];
      r := Merge(r, val[Owner(|val|, es[i])]);
    }
    assert es[..|es|] == es;
  }

  /** Numbering a later block leaves the numbers of an earlier one as they are. */
  lemma NumberedStays(g: Graph, ns: Numbers, ns': Numbers, alter: bool, es: seq<nat>, m: nat, c: nat)
    requires c < |g| == |ns.val| == |ns.oval| == |ns'.val| == |ns'.oval| && ValsOk(ns.val) && ValsOk(ns'.val)
    requires AllInRange(g[c].stmts) && EdgesIn(|g|, es) && Numbered(g, ns, alter, es, m, c)
    requires ns.table <= ns'.table && Ordered(ns'.table) && ns'.val[c] == ns.val[c] && ns'.oval[c] == ns.oval[c]
    requires forall i :: 0 <= i < |es| ==> ns'.val[Owner(|g|, es[i])] == ns.val[Owner(|g|, es[i])]
    ensures Numbered(g, ns', alter, es, m, c) && EntryOf(ns', es, m) == EntryOf(ns, es, m)
  {
    hide OptList, AllInRange, Ordered;
    EntryFrame(ns.val, ns'.val, es);
    assert ns'.table[..m] == ns.table[..m];
  }

  /** With all its predecessors numbered, a block's entry values are in range. */
  lemma EntryShaped(g: Graph, ns: Numbers, alter: bool, inEdges: seq<seq<nat>>, from: seq<nat>, passed: set<nat>,
                    es: seq<nat>)
    requires NumbersOk(g, ns, alter, inEdges, from, passed) && EdgesIn(|g|, es)
    requires forall i :: 0 <= i < |es| ==> Owner(|g|, es[i]) in passed
    ensures Shaped(EntryOf(ns, es, |ns.table|))
  {
    hide OptList, AllInRange, Ordered, Entry, OperandNumber;
    assert ns.table[..|ns.table|] == ns.table;
    forall i, a | 0 <= i < |es| && 0 <= a < N_ATOMS ensures ns.val[Owner(|g|, es[i])][a] <= |ns.table| {
      assert Numbered(g, ns, alter, inEdges[Owner(|g|, es[i])], from[Owner(|g|, es[i])], Owner(|g|, es[i]));
    }
    EntryBounded(ns.val, es, |ns.table|);
  }

  lemma NumberNext(g: Graph, ns: Numbers, ns': Numbers, alter: bool, inEdges: seq<seq<nat>>, from: seq<nat>,
                   passed: set<nat>, b: nat)
    requires NumbersOk(g, ns, alter, inEdges, from, passed) && b < |g| && b !in passed && EdgesIn(|g|, inEdges[b])
    requires ns.table <= ns'.table && Distinct(ns'.table) && Ordered(ns'.table)
    requires |ns'.val| == |g| == |ns'.oval| && ns'.val == ns.val[b := ns'.val[b]]
    requires ns'.oval == ns.oval[b := ns'.oval[b]]
    requires ValsOk(ns'.val) && Numbered(g, ns', alter, inEdges[b], |ns.table|, b)
    requires forall c, i :: c in passed && 0 <= i < |inEdges[c]| ==> Owner(|g|, inEdges[c][i]) != b
    ensures NumbersOk(g, ns', alter, inEdges, from[b := |ns.table|], passed + {b})
    ensures forall c :: c in passed ==>
            from[c] <= |ns.table| && EntryOf(ns', inEdges[c], from[c]) == EntryOf(ns, inEdges[c], from[c])
  {
    hide Numbered, AllInRange, Ordered, Distinct;
    forall c | c in passed
      ensures Numbered(g, ns', alter, inEdges[c], from[c], c)
      ensures from[c] <= |ns.table| && EntryOf(ns', inEdges[c], from[c]) == EntryOf(ns, inEdges[c], from[c])
    {
      BlockStart(g, ns, alter, inEdges[c], from[c], c);
      NumberedStays(g, ns, ns', alter, inEdges[c], from[c], c);
    }
  }

  lemma InEdgesOwned(g: Graph, rank: seq<nat>, root: nat, inEdges: seq<seq<nat>>, order: seq<nat>, i: nat)
    requires Ranked(g, rank) && root < |g| && InEdgesOf(g, inEdges, Below(g, rank, root))
    requires Placed(g, order) && Elements(order) == Below(g, rank, root) && i < |order| && order[i] < |g|
    ensures EdgesIn(|g|, inEdges[order[i]])
    ensures forall k :: 0 <= k < |inEdges[order[i]]| ==>
              Owner(|g|, inEdges[order[i]][k]) in Passed(order, i + 1) && Owner(|g|, inEdges[order[i]][k]) != order[i]
    ensures forall c, k :: c in Passed(order, i + 1) && c < |g| && 0 <= k < |inEdges[c]| && inEdges[c][k] < 2 * |g| ==>
              Owner(|g|, inEdges[c][k]) != order[i]
  {
    hide Below, Placed, Elements, Passed;
    var b := order[i];
    PassNext(g, order, i);
    forall k | 0 <= k < |inEdges[b]|
      ensures inEdges[b][k] < 2 * |g| && Owner(|g|, inEdges[b][k]) in Passed(order, i + 1)
    {
      var e := inEdges[b][k];
      assert e in inEdges[b];
      PassedLinks(g, rank, root, order, i, Owner(|g|, e));
    }
    forall c, k | c in Passed(order, i + 1) && c < |g| && 0 <= k < |inEdges[c]| && inEdges[c][k] < 2 * |g|
      ensures Owner(|g|, inEdges[c][k]) != b
    {
      assert inEdges[c][k] in inEdges[c];
      PassedLinks(g, rank, root, order, i, c);
    }
  }

  /** The passed blocks have the statements opt_stmt left, the others those they had. */
  ghost predicate Altered(g: Graph, g': Graph, ns: Numbers, alter: bool, inEdges: seq<seq<nat>>, from: seq<nat>,
                          passed: set<nat>)
    requires NumbersOk(g, ns, alter, inEdges, from, passed)
  {
    && |g'| == |g|
    && (forall b :: 0 <= b < |g| ==> g'[b] == g[b].(stmts := g'[b].stmts))
    && (forall b :: 0 <= b < |g| && b !in passed ==> g'[b] == g[b])
    && (forall b :: b in passed ==> BlockAltered(g[b], g'[b], ns, alter, inEdges[b], from[b]))
  }

  ghost predicate BlockAltered(n: Node, n': Node, ns: Numbers, alter: bool, es: seq<nat>, m: nat)
    requires ValsOk(ns.val) && EdgesIn(|ns.val|, es) && AllInRange(n.stmts)
  {
    m <= |ns.table| && (var r := OptList(EntryOf(ns, es, m), n.stmts, alter); r.Block? && n'.stmts == r.ss)
  }

  /** Rewriting a block, from the values its numbered predecessors leave, ends in the error. */
  ghost predicate StopsAt(g: Graph, ns: Numbers, alter: bool, es: seq<nat>, b: nat, e: OptError)
  {
    && b < |g| == |ns.val| && ValsOk(ns.val) && EdgesIn(|g|, es) && AllInRange(g[b].stmts) && Distinct(ns.table)
    && Shaped(EntryOf(ns, es, |ns.table|)) && OptList(EntryOf(ns, es, |ns.table|), g[b].stmts, alter) == BlockFailed(e)
  }

  /** Numbering the blocks from the root down, and rewriting their statements in place if `alter` is set. */
  method OptBlks(g: Graph, root: nat, order: seq<nat>, inEdges: seq<seq<nat>>, alter: bool, ghost rank: seq<nat>)
    returns (err: Option<OptError>, ns: Numbers, g': Graph, ghost from: seq<nat>)
    requires Ranked(g, rank) && root < |g| && InEdgesOf(g, inEdges, Below(g, rank, root)) && GraphInRange(g)
    requires Placed(g, order) && Elements(order) == Below(g, rank, root)
    ensures !alter ==> err == None && g' == g
    ensures err.Some? ==>
              |inEdges| == |g| &&
              exists b :: b in Below(g, rank, root) && b < |g| && StopsAt(g, ns, alter, inEdges[b], b, err.value)
    ensures err == None ==> NumbersOk(g, ns, alter, inEdges, from, Below(g, rank, root)) &&
                            Altered(g, g', ns, alter, inEdges, from, Below(g, rank, root))
  {
    hide Below, Placed, Elements, Passed, AllInRange, Numbered, Distinct, Ordered, Shaped, OptList;
    PassedEnds(order);
    ns, from := Numbers([], seq(|g|, i => NOTHING_KNOWN.val), seq(|g|, i => 0)), seq(|g|, i => 0);
    g' := g;
    NothingNumbered();
    for i := |order| downto 0
      invariant NumbersOk(g, ns, alter, inEdges, from, Passed(order, i))
      invariant Altered(g, g', ns, alter, inEdges, from, Passed(order, i))
      invariant !alter ==> g' == g
    {
      var b := order[i];
      PassNext(g, order, i);
      InEdgesOwned(g, rank, root, inEdges, order, i);
      EntryShaped(g, ns, alter, inEdges, from, Passed(order, i + 1), inEdges[b]);
      var e, ns', ss := OptBlk(g, b, inEdges[b], ns, alter);
      if e.Some? {
        InElements(order, b);
        assert StopsAt(g, ns, alter, inEdges[b], b, e.value);
        return e, ns, g', from;
      }
      NumberNext(g, ns, ns', alter, inEdges, from, Passed(order, i + 1), b);
      AlterNext(g, g', ns, ns', alter, inEdges, from, Passed(order, i + 1), b, ss);
      ns, from, g' := ns', from[b := |ns.table|], g'[b := g'[b].(stmts := ss)];
    }
    err := None;
  }

  lemma AlterNext(g: Graph, g': Graph, ns: Numbers, ns': Numbers, alter: bool, inEdges: seq<seq<nat>>, from: seq<nat>,
                  passed: set<nat>,
                  b: nat, ss: seq<Stmt>)
    requires NumbersOk(g, ns, alter, inEdges, from, passed) && Altered(g, g', ns, alter, inEdges, from, passed)
    requires b < |g| && b !in passed
    requires NumbersOk(g, ns', alter, inEdges, from[b := |ns.table|], passed + {b})
    requires forall c :: c in passed ==>
             from[c] <= |ns.table| && EntryOf(ns', inEdges[c], from[c]) == EntryOf(ns, inEdges[c], from[c])
    requires Numbered(g, ns', alter, inEdges[b], |ns.table|, b)
    requires OptList(EntryOf(ns', inEdges[b], |ns.table|), g[b].stmts, alter).ss == ss
    requires ns.table <= ns'.table
    ensures Altered(g, g'[b := g'[b].(stmts := ss)], ns', alter, inEdges, from[b := |ns.table|], passed + {b})
  {
    hide Shaped, OptList, AllInRange, Ordered, Distinct, Entry, OperandNumber;
    forall c | c in passed ensures BlockAltered(g[c], g'[c], ns', alter, inEdges[c], from[c]) {
      assert BlockAltered(g[c], g'[c], ns, alter, inEdges[c], from[c]);
    }
  }

  lemma NothingNumbered()
    ensures Distinct([]) && Ordered([])
  {
  }

  // --------------------------------------------------- the graph after the pass

  lemma AlteredIsRanked(g: Graph, rank: seq<nat>, g': Graph)
    requires Ranked(g, rank) && |g'| == |g| && forall b :: 0 <= b < |g| ==> g'[b] == g[b].(stmts := g'[b].stmts)
    ensures Ranked(g', rank)
  {
    forall b | 0 <= b < |g'| ensures NodeOk(g'[b], |g'|) { assert NodeOk(g[b], |g|); }
  }

  /** A block rewritten by its numbers leaves the state the old one left, if that ran through. */
  lemma BlockAlteredRuns(g: Graph, g': Graph, ns: Numbers, alter: bool, es: seq<nat>, m: nat, b: nat, st: State,
                         p: Packet)
    requires b < |g| == |ns.val| == |g'| && ValsOk(ns.val) && AllInRange(g[b].stmts) && EdgesIn(|g|, es)
    requires m <= |ns.table|
    requires BlockAltered(g[b], g'[b], ns, alter, es, m) && Shaped(EntryOf(ns, es, m))
    requires KnownAlong(EntryOf(ns, es, m), g[b].stmts, alter) && Describes(EntryOf(ns, es, m), st, p)
    requires ExecList(g[b].stmts, st, p).Next?
    ensures ExecList(g'[b].stmts, st, p) == ExecList(g[b].stmts, st, p)
  {
    hide Describes, Shaped, KnownAlong, Entry, ExecList, AllInRange, OptList;
    OptListFaithful(EntryOf(ns, es, m), g[b].stmts, alter, st, p);
  }

  /** From where a run stands, the rewritten graph goes on as the old one did. */
  lemma {:induction false} AlteredGoesOn(g: Graph, rank: seq<nat>, root: nat, ns: Numbers, alter: bool,
                                         inEdges: seq<seq<nat>>, from: seq<nat>,
                                         g': Graph, st: State, p: Packet, vs: seq<Visit>)
    requires Ranked(g, rank) && Ranked(g', rank) && root < |g| && InEdgesOf(g, inEdges, Below(g, rank, root))
    requires NumbersOk(g, ns, alter, inEdges, from, Below(g, rank, root))
    requires AllKnown(g, ns, alter, inEdges, from, Below(g, rank, root))
    requires Altered(g, g', ns, alter, inEdges, from, Below(g, rank, root))
    requires vs != [] && IsRun(g, root, st, p, vs) && vs[|vs| - 1].block < |g|
    requires Remainder(g, rank, vs[|vs| - 1], p).Return?
    ensures Remainder(g', rank, vs[|vs| - 1], p) == Remainder(g, rank, vs[|vs| - 1], p)
    decreases rank[vs[|vs| - 1].block]
  {
    hide Below, Describes, Shaped, KnownAlong, Entry, ExecList, AllInRange, Numbered, Ordered, Described, Distinct,
         BlockAltered, IsRun;
    var v := vs[|vs| - 1];
    if !IsLeaf(g[v.block]) {
      RunsAreDescribed(g, rank, root, ns, alter, inEdges, from, st, p, vs);
      NextEntry(g, rank, root, ns, alter, inEdges, from, v, p);
      var b := Successor(g[v.block], Taken(g[v.block].s, v.st));
      assert ExecList(g[b].stmts, v.st, p).Next?;
      var w := Visit(b, ExecList(g[b].stmts, v.st, p).st);
      BlockAlteredRuns(g, g', ns, alter, inEdges[b], from[b], b, v.st, p);
      RunMore(g, root, st, p, vs, w);
      AlteredGoesOn(g, rank, root, ns, alter, inEdges, from, g', st, p, vs + [w]);
    }
  }

  lemma RunMore(g: Graph, root: nat, st: State, p: Packet, vs: seq<Visit>, w: Visit)
    requires IsRun(g, root, st, p, vs) && StepsTo(g, vs[|vs| - 1], w, p)
    ensures IsRun(g, root, st, p, vs + [w])
  {
    assert (vs + [w])[..|vs|] == vs;
  }

  /** Value numbering of a whole graph preserves results: when every block computes from known numbers,
      the rewritten graph returns what the old one returned, on every packet the old one did not reject. */
  lemma ValuesPreserve(g: Graph, rank: seq<nat>, root: nat, ns: Numbers, alter: bool, inEdges: seq<seq<nat>>,
                       from: seq<nat>,
                       g': Graph, st: State, p: Packet)
    requires Ranked(g, rank) && root < |g| && InEdgesOf(g, inEdges, Below(g, rank, root))
    requires NumbersOk(g, ns, alter, inEdges, from, Below(g, rank, root))
    requires AllKnown(g, ns, alter, inEdges, from, Below(g, rank, root))
    requires Altered(g, g', ns, alter, inEdges, from, Below(g, rank, root))
    requires RunGraph(g, rank, root, st, p).Return?
    ensures Ranked(g', rank) && RunGraph(g', rank, root, st, p) == RunGraph(g, rank, root, st, p)
  {
    hide Below, Describes, Shaped, KnownAlong, Entry, ExecList, AllInRange, Numbered, Ordered, Distinct, BlockAltered;
    AlteredIsRanked(g, rank, g');
    FirstEntry(g, rank, root, ns, alter, inEdges, from, st, p);
    BlockAlteredRuns(g, g', ns, alter, inEdges[root], from[root], root, st, p);
    var vs := [Visit(root, ExecList(g[root].stmts, st, p).st)];
    assert IsRun(g, root, st, p, vs);
    AlteredGoesOn(g, rank, root, ns, alter, inEdges, from, g', st, p, vs);
  }
}
