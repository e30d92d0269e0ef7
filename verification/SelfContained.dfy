/**
 * Blocks that set every register they read: what they do depends on the packet
 * alone, and their values are known whatever came before.
 */
module SelfContained {
  import opened Words
  import opened Machine
  import opened FlowGraph
  import opened Layout
  import opened Liveness
  import opened ValueNumbers
  import opened ValueRewrite
  import opened CodeGen

  // ----------------------------------------------------------- lists in sequence

  lemma {:induction false} DefsAppend(xs: seq<Stmt>, ys: seq<Stmt>)
    ensures Defs(xs + ys) == Defs(xs) + Defs(ys)
    decreases |ys|
  {
    if ys == [] {
      assert xs + ys == xs;
    } else {
      var last := |ys| - 1;
      DefsAppend(xs, ys[..last]);
      assert (xs + ys)[..|xs + ys| - 1] == xs + ys[..last];
    }
  }

  lemma {:induction false} ExposedAppend(xs: seq<Stmt>, ys: seq<Stmt>)
    ensures Exposed(xs + ys) == Exposed(xs) + (Exposed(ys) - Defs(xs))
    decreases |ys|
  {
    hide Defs, UseSet;
    if ys == [] {
      assert xs + ys == xs;
    } else {
      var last := |ys| - 1;
      ExposedAppend(xs, ys[..last]);
      DefsAppend(xs, ys[..last]);
      assert (xs + ys)[..|xs + ys| - 1] == xs + ys[..last];
    }
  }

  lemma OneStatement(s: Stmt)
    ensures Defs([s]) == DefSet(s) && Exposed([s]) == UseSet(s)
  {
    hide UseSet, DefSet;
    assert [s][..0] == [];
    assert Defs([]) == {} && Exposed([]) == {};
  }

  /** Taking off the first statement. */
  lemma TakeFirst(ss: seq<Stmt>)
    requires ss != []
    ensures Defs(ss) == DefSet(ss[0]) + Defs(ss[1..])
    ensures Exposed(ss) == UseSet(ss[0]) + (Exposed(ss[1..]) - DefSet(ss[0]))
  {
    hide UseSet, DefSet, Defs, Exposed;
    assert ss == [ss[0]] + ss[1..];
    OneStatement(ss[0]);
    DefsAppend([ss[0]], ss[1..]);
    ExposedAppend([ss[0]], ss[1..]);
  }

  // --------------------------------------------------------------- the notion

  /** ldx #len is never numbered. */
  predicate NoLength(ss: seq<Stmt>) { forall i :: 0 <= i < |ss| ==> Straight(ss[i].code) && !ss[i].code.LdxLen? }

  predicate Contained(ss: seq<Stmt>) { NoLength(ss) && AllInRange(ss) && Exposed(ss) == {} }

  lemma ContainedAppend(xs: seq<Stmt>, ys: seq<Stmt>)
    requires Contained(xs) && NoLength(ys) && AllInRange(ys) && Exposed(ys) <= Defs(xs)
    ensures Contained(xs + ys) && Defs(xs + ys) == Defs(xs) + Defs(ys)
  {
    hide Defs, Exposed, InRange, Straight;
    ExposedAppend(xs, ys);
    DefsAppend(xs, ys);
  }

  /** One more statement, which reads only what has been set. */
  lemma ContainedThen(xs: seq<Stmt>, s: Stmt)
    requires Contained(xs) && Straight(s.code) && !s.code.LdxLen? && InRange(s) && UseSet(s) <= Defs(xs)
    ensures Contained(xs + [s]) && Defs(xs + [s]) == Defs(xs) + DefSet(s)
  {
    hide Defs, Exposed, InRange, Straight, UseSet, DefSet;
    OneStatement(s);
    ContainedAppend(xs, [s]);
  }

  predicate ContainedNode(n: Node)
  {
    Contained(n.stmts) && if IsLeaf(n) then n.s.code.RetK? else n.s.code.Jmp? && BranchUse(n.s) <= Defs(n.stmts)
  }

  predicate ContainedGraph(g: Graph) { forall b :: 0 <= b < |g| ==> ContainedNode(g[b]) }

  /** Filters all of whose tests are so. */
  predicate ContainedFilter(f: Filter)
  {
    match f
    case Atom(ss, s) => Contained(ss) && s.code.Jmp? && BranchUse(s) <= Defs(ss)
    case Both(a, b) => ContainedFilter(a) && ContainedFilter(b)
    case Either(a, b) => ContainedFilter(a) && ContainedFilter(b)
    case Negated(a) => ContainedFilter(a)
  }

  // --------------------------------------------------------- the packet decides

  /** Runs from any two states leave a contained block the same way, with the same in every register it sets. */
  lemma PacketDecides(n: Node, st: State, st': State, p: Packet)
    requires ContainedNode(n)
    ensures SameOutcome(ExecList(n.stmts, st, p), ExecList(n.stmts, st', p), Defs(n.stmts))
    ensures ExecList(n.stmts, st, p).Next? && !IsLeaf(n) ==>
              Taken(n.s, ExecList(n.stmts, st, p).st) == Taken(n.s, ExecList(n.stmts, st', p).st)
    ensures ExecList(n.stmts, st, p).Next? && IsLeaf(n) ==>
              LeafResult(n.s, ExecList(n.stmts, st, p).st) == LeafResult(n.s, ExecList(n.stmts, st', p).st)
  {
    hide ExecList, Defs, Exposed, UseSet, Taken, InRange;
    ListReadsExposed(n.stmts, st, st', p, {});
    assert {} + Defs(n.stmts) == Defs(n.stmts);
    if ExecList(n.stmts, st, p).Next? && !IsLeaf(n) {
      BranchReadsUses(n.s, ExecList(n.stmts, st, p).st, ExecList(n.stmts, st', p).st);
    }
  }

  /** Nothing is live anywhere in a graph of contained blocks. */
  lemma {:induction false} NothingLive(g: Graph, inUse: seq<set<nat>>, outUse: seq<set<nat>>, o: seq<nat>, b: nat)
    requires WellFormed(g) && ContainedGraph(g) && Placed(g, o) && Live(g, inUse, outUse, o) && b in o
    ensures b < |g| == |inUse| == |outUse| && inUse[b] == {} == outUse[b]
    decreases |o|
  {
    hide Defs, Exposed, Killed, UseSet;
    var last := |o| - 1;
    if o[last] != b {
      NothingLive(g, inUse, outUse, o[..last], b);
    } else {
      LiveMember(g, inUse, outUse, o, b);
      assert ContainedNode(g[b]);
      assert Used(g[b]) == {};
      if !IsLeaf(g[b]) {
        LastPlaced(g, o);
        NothingLive(g, inUse, outUse, o[..last], g[b].jt);
        NothingLive(g, inUse, outUse, o[..last], g[b].jf);
      }
    }
  }

  lemma LastPlaced(g: Graph, o: seq<nat>)
    requires Placed(g, o) && o != [] && o[|o| - 1] < |g| && !IsLeaf(g[o[|o| - 1]])
    ensures Placed(g, o[..|o| - 1]) && g[o[|o| - 1]].jt in o[..|o| - 1] && g[o[|o| - 1]].jf in o[..|o| - 1]
  {
  }

  // ------------------------------------------------------------ numbers known

  ghost predicate KnownIn(v: Values, atoms: set<nat>)
    requires |v.val| == N_ATOMS
  {
    forall a :: 0 <= a < N_ATOMS && a in atoms ==> v.val[a] != UNKNOWN
  }

  lemma StepKnown(v: Values, s: Stmt, alter: bool, atoms: set<nat>)
    requires |v.val| == N_ATOMS && InRange(s) && Straight(s.code) && !s.code.LdxLen? && KnownIn(v, atoms)
    requires UseSet(s) <= atoms
    ensures ReadsKnown(v, s, alter)
    ensures var r := OptStmt(v, s, alter); r.Becomes? ==> |r.v.val| == N_ATOMS && KnownIn(r.v, atoms + DefSet(s))
  {
    hide OptAluK, OptAluX, Known, SkipsUnknown;
    match s.code
    case Alu(op, src) =>
      assert A_ATOM in UseSet(s) && (src == X ==> X_ATOM in UseSet(s));
      if src == K { AluKKnown(v, op, s, alter, atoms); } else { AluXKnown(v, op, s, alter, atoms); }
    case LdInd(z) =>
      assert X_ATOM in UseSet(s);
      NumbersArePositive(v);
    case _ => NumbersArePositive(v);
  }

  lemma NumbersArePositive(v: Values)
    ensures forall k: Key :: Known(v, k).1 > 0 && Known(v, k).0.val == v.val
  {
    hide Find;
  }

  lemma AluKKnown(v: Values, op: AluOp, s: Stmt, alter: bool, atoms: set<nat>)
    requires |v.val| == N_ATOMS && KnownIn(v, atoms) && A_ATOM in atoms
    ensures var r := OptAluK(v, op, s, alter); r.Becomes? ==> |r.v.val| == N_ATOMS && KnownIn(r.v, atoms)
  {
    hide Known, Apply;
    var (v1, _) := Known(v, ConstKey(s.k));
    NumbersArePositive(v);
    NumbersArePositive(v1);
  }

  lemma AluXKnown(v: Values, op: AluOp, s: Stmt, alter: bool, atoms: set<nat>)
    requires |v.val| == N_ATOMS && KnownIn(v, atoms) && A_ATOM in atoms && X_ATOM in atoms
    ensures var r := OptAluX(v, op, s, alter); r.Becomes? ==> |r.v.val| == N_ATOMS && KnownIn(r.v, atoms)
  {
    hide Known, Apply, IsConst, ConstVal;
    NumbersArePositive(v);
    if IsConst(v.table, v.val[X_ATOM]) {
      var (v1, _) := Known(v, ConstKey(ConstVal(v.table, v.val[X_ATOM])));
      NumbersArePositive(v1);
    }
  }

  /** Values computed in a contained list are known, whatever is known on entry. */
  lemma {:induction false} ExposedKnown(v: Values, ss: seq<Stmt>, alter: bool, atoms: set<nat>)
    requires |v.val| == N_ATOMS && AllInRange(ss) && NoLength(ss) && KnownIn(v, atoms) && Exposed(ss) <= atoms
    ensures KnownAlong(v, ss, alter)
    ensures var r := OptList(v, ss, alter); r.Block? ==> |r.v.val| == N_ATOMS && KnownIn(r.v, atoms + Defs(ss))
    decreases |ss|
  {
    hide OptStmt, InRange, UseSet, DefSet, Defs, Exposed, Straight, ReadsKnown;
    if ss == [] {
      NoneSet();
    } else {
      TakeFirst(ss);
      StepKnown(v, ss[0], alter, atoms);
      OptKeepsSize(v, ss[0], alter);
      match OptStmt(v, ss[0], alter)
      case Failed(_) =>
      case Becomes(v1, _) =>
        ExposedKnown(v1, ss[1..], alter, atoms + DefSet(ss[0]));
    }
  }

  lemma NoneSet()
    ensures Defs([]) == {}
  {
  }
}
