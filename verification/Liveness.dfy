/**
 * Use-def analysis: which registers each statement reads and writes, which
 * values a block needs from its predecessors, and what that means for runs.
 */
module Liveness {
  import opened Words
  import opened Machine
  import opened FlowGraph
  import opened Layout

  // Register numbers for use-def values: scratch words, then A, then X.
  const A_ATOM: nat := 16
  const X_ATOM: nat := 17
  const AX_ATOM: nat := 18
  const N_ATOMS: nat := 18

  function Val(st: State, atom: nat): Word
    requires atom < N_ATOMS
  {
    if atom < 16 then st.mem[atom] else if atom == A_ATOM then st.a else st.x
  }

  /** The register a statement uses: -1 for none, AX_ATOM for both A and X. */
  function AtomUse(s: Stmt): int
  {
    match s.code
    case Nop => -1
    case RetK => -1
    case RetA => A_ATOM
    case LdInd(_) => X_ATOM
    case LdMem => s.k
    case LdxMem => s.k
    case LdAbs(_) => -1
    case LdLen => -1
    case LdImm => -1
    case LdxImm => -1
    case LdxLen => -1
    case LdxMsh => -1
    case St => A_ATOM
    case Stx => X_ATOM
    case Jmp(_, src) => if src == X then AX_ATOM else A_ATOM
    case Ja => A_ATOM
    case Alu(_, src) => if src == X then AX_ATOM else A_ATOM
    case Neg => A_ATOM
    case Txa => X_ATOM
    case Tax => A_ATOM
  }

  /** The register a statement defines, -1 for none. */
  function AtomDef(s: Stmt): int
  {
    match s.code
    case LdAbs(_) => A_ATOM
    case LdInd(_) => A_ATOM
    case LdLen => A_ATOM
    case LdImm => A_ATOM
    case LdMem => A_ATOM
    case Alu(_, _) => A_ATOM
    case Neg => A_ATOM
    case LdxImm => X_ATOM
    case LdxMem => X_ATOM
    case LdxLen => X_ATOM
    case LdxMsh => X_ATOM
    case St => s.k
    case Stx => s.k
    case Tax => X_ATOM
    case Txa => A_ATOM
    case _ => -1
  }

  /** A statement whose scratch index, if it has one, is in range. */
  predicate InRange(s: Stmt)
  {
    s.code in {LdMem, LdxMem, St, Stx} ==> s.k < 16
  }

  function UseSet(s: Stmt): set<nat>
  {
    var u := AtomUse(s);
    if u == AX_ATOM then {A_ATOM, X_ATOM} else if u >= 0 then {u} else {}
  }

  function DefSet(s: Stmt): set<nat>
  {
    if AtomDef(s) >= 0 then {AtomDef(s)} else {}
  }

  ghost predicate Agree(s: State, t: State, atoms: set<nat>)
  {
    forall a :: a in atoms && a < N_ATOMS ==> Val(s, a) == Val(t, a)
  }

  /** Two outcomes that an observer of `atoms` cannot tell apart. */
  ghost predicate SameOutcome(o: Outcome, o': Outcome, atoms: set<nat>)
  {
    match (o, o')
    case (Next(s), Next(t)) => Agree(s, t, atoms)
    case (Reject, Reject) => true
    case (Trapping(a), Trapping(b)) => a == b
    case _ => false
  }

  /** A statement reads only what AtomUse says and writes only what AtomDef says. */
  lemma StatementReadsUses(s: Stmt, st: State, st': State, p: Packet, atoms: set<nat>)
    requires InRange(s) && Agree(st, st', UseSet(s) + atoms)
    ensures SameOutcome(Exec(s, st, p), Exec(s, st', p), atoms + DefSet(s))
  {
    hide Apply, Fetch;
    var u := AtomUse(s);
    assert u == AX_ATOM ==> A_ATOM in UseSet(s) && X_ATOM in UseSet(s);
    assert 0 <= u < AX_ATOM ==> u in UseSet(s);
    assert 0 <= u < AX_ATOM ==> Val(st, u) == Val(st', u);
    assert u == AX_ATOM ==> Val(st, A_ATOM) == Val(st', A_ATOM) && Val(st, X_ATOM) == Val(st', X_ATOM);
    assert Agree(st, st', atoms);
  }

  lemma BranchReadsUses(s: Stmt, st: State, st': State)
    requires s.code.Jmp? && Agree(st, st', UseSet(s))
    ensures Taken(s, st) == Taken(s, st')
  {
    hide Compare;
    assert A_ATOM in UseSet(s);
    assert Val(st, A_ATOM) == Val(st', A_ATOM);
    if s.code.src == X {
      assert X_ATOM in UseSet(s);
      assert Val(st, X_ATOM) == Val(st', X_ATOM);
    }
  }

  // ------------------------------------------------------------- local sets

  /** Registers some statement defines. */
  function Defs(ss: seq<Stmt>): set<nat>
  {
    if ss == [] then {} else Defs(ss[..|ss| - 1]) + DefSet(ss[|ss| - 1])
  }

  /** Registers used before any statement of the list defines them. */
  function Exposed(ss: seq<Stmt>): set<nat>
  {
    if ss == [] then {}
    else Exposed(ss[..|ss| - 1]) + (UseSet(ss[|ss| - 1]) - Defs(ss[..|ss| - 1]))
  }

  /** Registers defined before any statement of the list uses them. */
  function Killed(ss: seq<Stmt>): set<nat>
  {
    if ss == [] then {} else Killed(ss[..|ss| - 1]) + (DefSet(ss[|ss| - 1]) - Exposed(ss))
  }

  function BranchUse(s: Stmt): set<nat> { if s.code.Jmp? || s.code.Ja? then UseSet(s) else {} }

  /** What a block uses from its predecessors: statements first, then the branch. */
  function Used(n: Node): set<nat> { Exposed(n.stmts) + (BranchUse(n.s) - Defs(n.stmts)) }

  /** Adds the registers a statement uses, unless the block has defined them already. */
  method AddUse(use: set<nat>, def: set<nat>, s: Stmt) returns (use': set<nat>)
    ensures use' == use + (UseSet(s) - def)
  {
    hide AtomUse;
    use' := use;
    var atom := AtomUse(s);
    if atom >= 0 {
      if atom == AX_ATOM {
        if X_ATOM !in def { use' := use' + {X_ATOM}; }
        if A_ATOM !in def { use' := use' + {A_ATOM}; }
      } else if atom !in def {
        use' := use' + {atom};
      }
    }
  }

  method ComputeLocalUd(n: Node) returns (def: set<nat>, use: set<nat>, killed: set<nat>)
    ensures def == Defs(n.stmts) && use == Used(n) && killed == Killed(n.stmts)
  {
    hide AtomUse, AtomDef, UseSet;
    def, use, killed := {}, {}, {};
    for i := 0 to |n.stmts|
      invariant def == Defs(n.stmts[..i]) && use == Exposed(n.stmts[..i]) && killed == Killed(n.stmts[..i])
    {
      var s := n.stmts[i];
      assert n.stmts[..i + 1][..i] == n.stmts[..i];
      if s.code == Nop {
        NopUsesNothing(s);
        continue;
      }
      use := AddUse(use, def, s);
      var atom := AtomDef(s);
      if atom >= 0 {
        if atom !in use { killed := killed + {atom}; }
        def := def + {atom};
      }
    }
    assert n.stmts[..|n.stmts|] == n.stmts;
    if n.s.code.Jmp? || n.s.code.Ja? {
      use := AddUse(use, def, n.s);
    }
  }

  lemma NopUsesNothing(s: Stmt)
    requires s.code.Nop?
    ensures UseSet(s) == {} && DefSet(s) == {} && AtomDef(s) == -1
  {
  }

  // ------------------------------------------------------------ global sets

  /** The data-flow equations: a block needs what it uses, and what its successors
      need unless it overwrites it first. */
  ghost predicate LiveAt(g: Graph, inUse: seq<set<nat>>, outUse: seq<set<nat>>, b: nat)
    requires WellFormed(g) && b < |g| == |inUse| == |outUse|
  {
    && outUse[b] == (if IsLeaf(g[b]) then {} else inUse[g[b].jt] + inUse[g[b].jf])
    && inUse[b] == Used(g[b]) + (outUse[b] - Killed(g[b].stmts))
  }

  /** The equations hold at every block of the list. */
  ghost predicate Live(g: Graph, inUse: seq<set<nat>>, outUse: seq<set<nat>>, o: seq<nat>)
    requires WellFormed(g)
  {
    |inUse| == |g| == |outUse| &&
    (o == [] ||
     var last := |o| - 1;
     Live(g, inUse, outUse, o[..last]) && o[last] < |g| && LiveAt(g, inUse, outUse, o[last]))
  }

  lemma {:induction false} LiveMember(g: Graph, inUse: seq<set<nat>>, outUse: seq<set<nat>>, o: seq<nat>, b: nat)
    requires WellFormed(g) && Live(g, inUse, outUse, o) && b in o
    ensures b < |g| && |inUse| == |g| == |outUse| && LiveAt(g, inUse, outUse, b)
    decreases |o|
  {
    if o[|o| - 1] != b { LiveMember(g, inUse, outUse, o[..|o| - 1], b); }
  }

  /** Filling in block p leaves the equations of blocks placed before it alone. */
  lemma {:induction false} LiveFrame(g: Graph, in0: seq<set<nat>>, out0: seq<set<nat>>,
                                     in1: seq<set<nat>>, out1: seq<set<nat>>, o: seq<nat>, p: nat)
    requires WellFormed(g) && Placed(g, o) && Live(g, in0, out0, o) && p !in o && |in1| == |g| == |out1|
    requires forall b :: 0 <= b < |g| && b != p ==> in1[b] == in0[b] && out1[b] == out0[b]
    ensures Live(g, in1, out1, o)
    decreases |o|
  {
    hide Used, Killed;
    if o != [] {
      LiveFrame(g, in0, out0, in1, out1, o[..|o| - 1], p);
      assert o[|o| - 1] in o;
    }
  }

  lemma LiveNext(g: Graph, inUse: seq<set<nat>>, outUse: seq<set<nat>>, o: seq<nat>, p: nat)
    requires WellFormed(g) && Live(g, inUse, outUse, o) && |inUse| == |g| == |outUse| && p < |g|
    requires LiveAt(g, inUse, outUse, p)
    ensures Live(g, inUse, outUse, o + [p])
  {
    assert (o + [p])[..|o|] == o;
  }

  ghost predicate LocalAt(g: Graph, inUse: seq<set<nat>>, outUse: seq<set<nat>>, kill: seq<set<nat>>, b: nat)
    requires |inUse| == |g| == |outUse| == |kill|
  {
    b < |g| && inUse[b] == Used(g[b]) && kill[b] == Killed(g[b].stmts) && outUse[b] == {}
  }

  /** One pass for the local sets, one upward pass for the global ones. `order` is the
      level lists from the leaves up. */
  method FindUd(g: Graph, order: seq<nat>) returns (inUse: seq<set<nat>>, outUse: seq<set<nat>>)
    requires WellFormed(g) && Placed(g, order)
    ensures Live(g, inUse, outUse, order)
  {
    hide Placed, Used, Killed;
    var kill := seq(|g|, i => {});
    inUse, outUse := seq(|g|, i => {}), seq(|g|, i => {});
    for k := |order| downto 0
      invariant |inUse| == |g| == |outUse| == |kill|
      invariant forall i :: k <= i < |order| ==> LocalAt(g, inUse, outUse, kill, order[i])
    {
      var p := order[k];
      var def, use, killed := ComputeLocalUd(g[p]);
      inUse, kill, outUse := inUse[p := use], kill[p := killed], outUse[p := {}];
    }
    for k := 0 to |order|
      invariant |inUse| == |g| == |outUse|
      invariant Live(g, inUse, outUse, order[..k])
      invariant forall i :: k <= i < |order| ==> LocalAt(g, inUse, outUse, kill, order[i])
    {
      var p := order[k];
      PlacedAt(g, order, k);
      assert order[..k + 1] == order[..k] + [p];
      ghost var in0, out0 := inUse, outUse;
      if !IsLeaf(g[p]) {
        outUse := outUse[p := outUse[p] + inUse[g[p].jt] + inUse[g[p].jf]];
        inUse := inUse[p := inUse[p] + (outUse[p] - kill[p])];
      }
      LiveFrame(g, in0, out0, inUse, outUse, order[..k], p);
      LiveNext(g, inUse, outUse, order[..k], p);
    }
    assert order[..|order|] == order;
  }

  // --------------------------------------------------------- non-interference

  predicate AllInRange(ss: seq<Stmt>) { forall i :: 0 <= i < |ss| ==> InRange(ss[i]) }

  lemma {:induction false} KilledAreDefined(ss: seq<Stmt>)
    ensures Killed(ss) <= Defs(ss)
  {
    if ss != [] { KilledAreDefined(ss[..|ss| - 1]); }
  }

  /** Runs of a list from states that agree on what it needs stay indistinguishable
      on that and on everything it defines. */
  lemma {:induction false} ListReadsExposed(ss: seq<Stmt>, st: State, st': State, p: Packet, atoms: set<nat>)
    requires AllInRange(ss) && Exposed(ss) <= atoms && Agree(st, st', atoms)
    ensures SameOutcome(ExecList(ss, st, p), ExecList(ss, st', p), atoms + Defs(ss))
    decreases |ss|
  {
    hide Exec, UseSet, DefSet;
    if ss != [] {
      var ss', s := ss[..|ss| - 1], ss[|ss| - 1];
      assert ss == ss' + [s];
      ListReadsExposed(ss', st, st', p, atoms);
      RunThen(ss', s, st, p);
      RunThen(ss', s, st', p);
      match (ExecList(ss', st, p), ExecList(ss', st', p))
      case (Next(t), Next(t')) =>
        assert UseSet(s) + (atoms + Defs(ss')) == atoms + Defs(ss');
        StatementReadsUses(s, t, t', p, atoms + Defs(ss'));
        assert atoms + Defs(ss) == atoms + Defs(ss') + DefSet(s);
      case _ =>
    } else {
      assert atoms + Defs(ss) == atoms;
    }
  }

  ghost predicate ConstantReturns(g: Graph, o: seq<nat>)
  {
    forall b :: b in o && b < |g| && IsLeaf(g[b]) ==> g[b].s.code.RetK?
  }

  /** The analysis does not count a returned A as a use: the block must read A first, or set it. */
  ghost predicate ReturnCounted(n: Node) { n.s.code.RetA? ==> A_ATOM in Exposed(n.stmts) + Defs(n.stmts) }

  ghost predicate ReturnsCounted(g: Graph, o: seq<nat>)
  {
    forall b :: b in o && b < |g| && IsLeaf(g[b]) ==> g[b].s.code.RetK? || ReturnCounted(g[b])
  }

  ghost predicate GraphInRange(g: Graph) { forall b :: 0 <= b < |g| ==> AllInRange(g[b].stmts) }

  /** What the block's statements leave is enough for its branch and for both successors. */
  lemma BlockKeepsNeeds(g: Graph, inUse: seq<set<nat>>, outUse: seq<set<nat>>, b: nat, st: State, st': State, p: Packet)
    requires WellFormed(g) && b < |g| == |inUse| == |outUse| && LiveAt(g, inUse, outUse, b) && AllInRange(g[b].stmts)
    requires Agree(st, st', inUse[b])
    ensures SameOutcome(ExecList(g[b].stmts, st, p), ExecList(g[b].stmts, st', p), outUse[b] + BranchUse(g[b].s))
  {
    hide ExecList, Defs, Exposed, Killed, UseSet;
    ListReadsExposed(g[b].stmts, st, st', p, inUse[b]);
    KilledAreDefined(g[b].stmts);
  }

  /** Liveness is non-interference: two runs from states that agree on a block's
      in_use return the same result, early rejects and traps included. */
  lemma {:induction false} NonInterference(g: Graph, rank: seq<nat>, inUse: seq<set<nat>>, outUse: seq<set<nat>>,
                                           o: seq<nat>,
                                           b: nat, st: State, st': State, p: Packet)
    requires Ranked(g, rank) && Placed(g, o) && Live(g, inUse, outUse, o) && b in o
    requires ReturnsCounted(g, o) && GraphInRange(g)
    requires b < |inUse| && Agree(st, st', inUse[b])
    ensures b < |g| && RunGraph(g, rank, b, st, p) == RunGraph(g, rank, b, st', p)
    decreases rank[b]
  {
    hide ExecList, Taken, Used, Killed, Live, UseSet, Exposed, Defs;
    LiveMember(g, inUse, outUse, o, b);
    BlockKeepsNeeds(g, inUse, outUse, b, st, st', p);
    match (ExecList(g[b].stmts, st, p), ExecList(g[b].stmts, st', p))
    case (Next(t), Next(t')) =>
      if !IsLeaf(g[b]) {
        BranchReadsUses(g[b].s, t, t');
        SuccessorsPlaced(g, o, b);
        NonInterference(g, rank, inUse, outUse, o, Successor(g[b], Taken(g[b].s, t)), t, t', p);
      } else if g[b].s.code.RetA? {
        LeafUses(g, inUse, outUse, b);
        ReturnExact(g[b], st, st', p);
      }
    case _ =>
  }

  lemma {:induction false} SuccessorsPlaced(g: Graph, o: seq<nat>, b: nat)
    requires Placed(g, o) && b in o && b < |g| && !IsLeaf(g[b])
    ensures g[b].jt in o && g[b].jf in o
    decreases |o|
  {
    if o[|o| - 1] != b { SuccessorsPlaced(g, o[..|o| - 1], b); }
  }

  lemma LeafUses(g: Graph, inUse: seq<set<nat>>, outUse: seq<set<nat>>, b: nat)
    requires WellFormed(g) && b < |g| == |inUse| == |outUse| && IsLeaf(g[b]) && LiveAt(g, inUse, outUse, b)
    ensures Exposed(g[b].stmts) <= inUse[b]
  {
    hide Exposed, Killed;
  }

  lemma KeepsAccumulator(s: Stmt, st: State, p: Packet)
    requires Exec(s, st, p).Next? && A_ATOM !in DefSet(s)
    ensures Exec(s, st, p).st.a == st.a
  {
  }

  lemma {:induction false} ListKeepsAccumulator(ss: seq<Stmt>, st: State, p: Packet)
    requires ExecList(ss, st, p).Next? && A_ATOM !in Defs(ss)
    ensures ExecList(ss, st, p).st.a == st.a
    decreases |ss|
  {
    hide Exec, DefSet;
    if ss != [] {
      var ss', s := ss[..|ss| - 1], ss[|ss| - 1];
      assert ss == ss' + [s];
      RunThen(ss', s, st, p);
      ListKeepsAccumulator(ss', st, p);
      KeepsAccumulator(s, ExecList(ss', st, p).st, p);
    }
  }

  /** Exactly when a leaf that returns A depends on no more than what the analysis says it needs: two runs that go
      through return the same if A is counted, and otherwise only from equal accumulators. */
  lemma ReturnExact(n: Node, st: State, st': State, p: Packet)
    requires n.s.code.RetA? && AllInRange(n.stmts) && Agree(st, st', Exposed(n.stmts))
    requires ExecList(n.stmts, st, p).Next?
    ensures ExecList(n.stmts, st', p).Next?
    ensures ExecList(n.stmts, st, p).st.a == ExecList(n.stmts, st', p).st.a <==> ReturnCounted(n) || st.a == st'.a
  {
    hide ExecList, Defs, Exposed, InRange;
    ListReadsExposed(n.stmts, st, st', p, Exposed(n.stmts));
    var u, u' := ExecList(n.stmts, st, p).st, ExecList(n.stmts, st', p).st;
    if ReturnCounted(n) {
      assert Val(u, A_ATOM) == Val(u', A_ATOM);
    } else {
      ListKeepsAccumulator(n.stmts, st, p);
      ListKeepsAccumulator(n.stmts, st', p);
    }
  }

  /** A returned accumulator escapes the analysis: the leaf needs nothing, yet the result depends on A. */
  lemma ReturnedAccumulatorNotCounted(st: State, st': State, p: Packet)
    requires st.a != st'.a
    ensures var g := [Node([], Stmt(RetA, 0), NIL, NIL)];
            && Ranked(g, [0]) && Live(g, [{}], [{}], [0]) && Agree(st, st', {})
            && RunGraph(g, [0], 0, st, p) != RunGraph(g, [0], 0, st', p)
  {
    var g := [Node([], Stmt(RetA, 0), NIL, NIL)];
    assert g[0].stmts == [];
    assert Used(g[0]) == {};
    assert LiveAt(g, [{}], [{}], 0);
    assert [0][..0] == [];
    assert Live(g, [{}], [{}], []);
  }
}
