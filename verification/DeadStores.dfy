/** Removing definitions that are overwritten or never looked at again. */
module DeadStores {
  import opened Words
  import opened Machine
  import opened FlowGraph
  import opened Layout
  import opened Liveness
  import opened ValueNumbers
  import opened ValueRewrite

  /** What first happens to a register between two statements. */
  datatype Fate = Untouched | Read | Overwritten

  function FateAt(f: Fate, s: Stmt, atom: nat): Fate
  {
    if f != Untouched then f
    else if atom in UseSet(s) then Read
    else if atom in DefSet(s) then Overwritten
    else Untouched
  }

  /** What first happens to a register in statements i up to j. */
  function FateIn(ss: seq<Stmt>, i: nat, j: nat, atom: nat): Fate
    requires j <= |ss|
    decreases j
  {
    if j <= i then Untouched else FateAt(FateIn(ss, i, j - 1, atom), ss[j - 1], atom)
  }

  /** A register whose value before statement i no one will look at. */
  predicate DeadBefore(ss: seq<Stmt>, s: Stmt, out: set<nat>, i: nat, atom: nat)
  {
    match FateIn(ss, i, |ss|, atom)
    case Read => false
    case Overwritten => true
    case Untouched => atom !in UseSet(s) && atom !in out
  }

  /** A statement that only defines a register no one will look at. */
  predicate IsDead(ss: seq<Stmt>, s: Stmt, out: set<nat>, i: nat)
    requires i < |ss|
  {
    AtomDef(ss[i]) >= 0 && DeadBefore(ss, s, out, i + 1, AtomDef(ss[i]))
  }

  function Clean(ss: seq<Stmt>, s: Stmt, out: set<nat>): seq<Stmt>
  {
    seq(|ss|, i requires 0 <= i < |ss| => if IsDead(ss, s, out, i) then Deleted(ss[i]) else ss[i])
  }

  /** A register whose last definition has been deleted: what it then holds is not what its number says. */
  predicate Lost(ss: seq<Stmt>, s: Stmt, out: set<nat>, atom: nat)
  {
    exists i :: 0 <= i < |ss| && AtomDef(ss[i]) == atom && LastUnread(ss, s, out, i, atom)
  }

  predicate LastUnread(ss: seq<Stmt>, s: Stmt, out: set<nat>, i: nat, atom: nat)
  {
    FateIn(ss, i + 1, |ss|, atom) == Untouched && atom !in UseSet(s) && atom !in out
  }

  // ------------------------------------------------------------- the algorithm

  /** The table of pending definitions: last[atom] is the latest definition of the
      register not yet read or overwritten, or -1. */
  ghost predicate Pending(ss: seq<Stmt>, last: seq<int>, j: nat)
  {
    && |last| == N_ATOMS && j <= |ss|
    && (forall a :: 0 <= a < N_ATOMS && last[a] != -1 ==>
          0 <= last[a] < j && AtomDef(ss[last[a]]) == a && FateIn(ss, last[a] + 1, j, a) == Untouched)
    && (forall i :: 0 <= i < j && AtomDef(ss[i]) >= 0 && FateIn(ss, i + 1, j, AtomDef(ss[i])) == Untouched ==>
          AtomDef(ss[i]) < N_ATOMS && last[AtomDef(ss[i])] == i)
  }

  /** Definitions overwritten before being read have been deleted. */
  ghost predicate DoneTo(ss: seq<Stmt>, cur: seq<Stmt>, j: nat)
  {
    && |cur| == |ss| && j <= |ss|
    && forall i :: 0 <= i < |ss| ==>
         cur[i] == if i < j && AtomDef(ss[i]) >= 0 && FateIn(ss, i + 1, j, AtomDef(ss[i])) == Overwritten
                   then Deleted(ss[i]) else ss[i]
  }

  lemma AtomRanges(s: Stmt)
    requires InRange(s)
    ensures -1 <= AtomUse(s) <= AX_ATOM && -1 <= AtomDef(s) < N_ATOMS
  {
  }

  /** The table after a statement: what it uses is no longer pending, what it defines is. */
  ghost predicate TableStep(last: seq<int>, last': seq<int>, s: Stmt, j: nat)
  {
    && |last| == |last'| == N_ATOMS
    && forall a :: 0 <= a < N_ATOMS ==>
         last'[a] == if a in DefSet(s) then j else if a in UseSet(s) then -1 else last[a]
  }

  lemma PendingStep(ss: seq<Stmt>, last: seq<int>, last': seq<int>, j: nat)
    requires j < |ss| && InRange(ss[j]) && Pending(ss, last, j) && TableStep(last, last', ss[j], j)
    ensures Pending(ss, last', j + 1)
  {
    hide AtomDef, AtomUse, UseSet;
    AtomRanges(ss[j]);
    forall i | 0 <= i <= j && AtomDef(ss[i]) >= 0 && FateIn(ss, i + 1, j + 1, AtomDef(ss[i])) == Untouched
      ensures AtomDef(ss[i]) < N_ATOMS && last'[AtomDef(ss[i])] == i
    {
      if i < j { assert FateIn(ss, i + 1, j, AtomDef(ss[i])) == Untouched; }
    }
  }

  lemma DoneStep(ss: seq<Stmt>, cur: seq<Stmt>, last: seq<int>, j: nat, d: int)
    requires j < |ss| && InRange(ss[j]) && Pending(ss, last, j) && DoneTo(ss, cur, j) && d == AtomDef(ss[j])
    ensures d < N_ATOMS
    ensures d >= 0 && d !in UseSet(ss[j]) && last[d] != -1 ==>
              0 <= last[d] < |cur| && DoneTo(ss, cur[last[d] := Deleted(cur[last[d]])], j + 1)
    ensures !(d >= 0 && d !in UseSet(ss[j]) && last[d] != -1) ==> DoneTo(ss, cur, j + 1)
  {
    hide AtomDef, AtomUse, UseSet;
    AtomRanges(ss[j]);
    var e := if d >= 0 && d !in UseSet(ss[j]) then last[d] else -1;
    var cur' := if e != -1 then cur[e := Deleted(cur[e])] else cur;
    forall i | 0 <= i < |ss|
      ensures cur'[i] == if i < j + 1 && AtomDef(ss[i]) >= 0 && FateIn(ss, i + 1, j + 1, AtomDef(ss[i])) == Overwritten
                         then Deleted(ss[i]) else ss[i]
    {
      if i < j && AtomDef(ss[i]) >= 0 {
        assert FateIn(ss, i + 1, j + 1, AtomDef(ss[i])) ==
               FateAt(FateIn(ss, i + 1, j, AtomDef(ss[i])), ss[j], AtomDef(ss[i]));
      }
    }
  }

  /** deadstmt, on the next statement of the block. */
  method DeadStmt(ss: seq<Stmt>, cur: seq<Stmt>, last: seq<int>, j: nat) returns (cur': seq<Stmt>, last': seq<int>)
    requires j < |ss| && InRange(ss[j]) && Pending(ss, last, j) && DoneTo(ss, cur, j)
    ensures Pending(ss, last', j + 1) && DoneTo(ss, cur', j + 1)
  {
    hide AtomDef, AtomUse, DoneTo, Pending;
    AtomRanges(ss[j]);
    TableSize(ss, last, j);
    DoneStep(ss, cur, last, j, AtomDef(ss[j]));
    cur' := cur;
    last' := ForgetUse(last, ss[j]);
    var atom := AtomDef(ss[j]);
    if atom >= 0 {
      if last'[atom] != -1 {
        cur' := cur'[last'[atom] := Deleted(cur'[last'[atom]])];
      }
      last' := last'[atom := j];
    }
    PendingStep(ss, last, last', j);
  }

  lemma TableSize(ss: seq<Stmt>, last: seq<int>, j: nat)
    requires Pending(ss, last, j)
    ensures |last| == N_ATOMS
  {
  }

  method ForgetUse(last: seq<int>, s: Stmt) returns (last': seq<int>)
    requires |last| == N_ATOMS && InRange(s)
    ensures |last'| == N_ATOMS && forall a :: 0 <= a < N_ATOMS ==> last'[a] == if a in UseSet(s) then -1 else last[a]
  {
    hide AtomUse;
    AtomRanges(s);
    last' := last;
    var atom := AtomUse(s);
    if atom >= 0 {
      if atom == AX_ATOM {
        last' := last'[X_ATOM := -1][A_ATOM := -1];
      } else {
        last' := last'[atom := -1];
      }
    }
  }

  /** Deletes what is dead; the number of a register whose last definition goes becomes unknown. */
  method OptDeadstores(ss: seq<Stmt>, s: Stmt, out: set<nat>, val0: seq<nat>) returns (cur: seq<Stmt>, val: seq<nat>)
    requires AllInRange(ss) && (s.code.Jmp? || s.code.RetK? || s.code.RetA?) && |val0| == N_ATOMS
    ensures cur == Clean(ss, s, out)
    ensures |val| == N_ATOMS
    ensures forall a :: 0 <= a < N_ATOMS ==> val[a] == if Lost(ss, s, out, a) then UNKNOWN else val0[a]
  {
    hide AtomDef, AtomUse, UseSet, InRange, LastUnread;
    var last: seq<int> := seq(N_ATOMS, i => -1);
    cur, val := ss, val0;
    for j := 0 to |ss|
      invariant Pending(ss, last, j) && DoneTo(ss, cur, j)
    {
      hide Pending, DoneTo;
      cur, last := DeadStmt(ss, cur, last, j);
    }
    ghost var pending := last;
    BranchInRange(s);
    last := ForgetUse(last, s);
    ghost var before := cur;
    for atom := 0 to N_ATOMS
      invariant |cur| == |ss| && |val| == N_ATOMS
      invariant forall i :: 0 <= i < |ss| ==>
                  cur[i] == if AtomDef(ss[i]) >= 0 && AtomDef(ss[i]) < atom && last[AtomDef(ss[i])] == i &&
                    AtomDef(ss[i]) !in out
                            then Deleted(ss[i]) else before[i]
      invariant forall a :: 0 <= a < N_ATOMS ==>
                val[a] == if a < atom && last[a] != -1 && a !in out then UNKNOWN else val0[a]
    {
      if last[atom] != -1 && atom !in out {
        cur := cur[last[atom] := Deleted(cur[last[atom]])];
        val := val[atom := UNKNOWN];
      }
    }
    DeadExactly(ss, s, out, pending, last, before, cur);
    forall a | 0 <= a < N_ATOMS ensures Lost(ss, s, out, a) <==> last[a] != -1 && a !in out
      { LostExactly(ss, s, out, pending, last, a); }
  }

  lemma LostExactly(ss: seq<Stmt>, s: Stmt, out: set<nat>, pending: seq<int>, last: seq<int>, a: nat)
    requires AllInRange(ss) && Pending(ss, pending, |ss|) && |last| == N_ATOMS && a < N_ATOMS
    requires last[a] == if a in UseSet(s) then -1 else pending[a]
    ensures Lost(ss, s, out, a) <==> last[a] != -1 && a !in out
  {
    hide AtomDef, AtomUse, UseSet;
    if last[a] != -1 && a !in out {
      assert LastUnread(ss, s, out, pending[a], a);
    }
  }

  lemma DeadExactly(ss: seq<Stmt>, s: Stmt, out: set<nat>, pending: seq<int>, last: seq<int>, before: seq<Stmt>,
                    cur: seq<Stmt>)
    requires AllInRange(ss) && Pending(ss, pending, |ss|) && DoneTo(ss, before, |ss|) && |cur| == |ss|
    requires |last| == N_ATOMS
    requires forall a :: 0 <= a < N_ATOMS ==> last[a] == if a in UseSet(s) then -1 else pending[a]
    requires forall i :: 0 <= i < |ss| ==>
               cur[i] == if AtomDef(ss[i]) >= 0 && AtomDef(ss[i]) < N_ATOMS && last[AtomDef(ss[i])] == i &&
                 AtomDef(ss[i]) !in out
                         then Deleted(ss[i]) else before[i]
    ensures cur == Clean(ss, s, out)
  {
    hide AtomDef, AtomUse, UseSet;
    forall i | 0 <= i < |ss| ensures cur[i] == Clean(ss, s, out)[i] {
      AtomRanges(ss[i]);
      var d := AtomDef(ss[i]);
      if d >= 0 { assert pending[d] == i <==> FateIn(ss, i + 1, |ss|, d) == Untouched; }
    }
  }

  lemma BranchInRange(s: Stmt)
    requires s.code.Jmp? || s.code.RetK? || s.code.RetA?
    ensures InRange(s)
  {
  }

  // ---------------------------------------------------------------- soundness

  /** The fate of a register, from the first statement on. */
  lemma {:induction false} FateFront(ss: seq<Stmt>, i: nat, j: nat, atom: nat)
    requires i < j <= |ss|
    ensures FateIn(ss, i, j, atom) ==
            if atom in UseSet(ss[i]) then Read
            else if atom in DefSet(ss[i]) then Overwritten
            else FateIn(ss, i + 1, j, atom)
    decreases j
  {
    hide UseSet, DefSet;
    if i + 1 < j { FateFront(ss, i, j - 1, atom); }
  }

  /** Registers whose value before statement i may still be looked at. */
  ghost function Needed(ss: seq<Stmt>, s: Stmt, out: set<nat>, i: nat): set<nat>
  {
    set a | 0 <= a < N_ATOMS && !DeadBefore(ss, s, out, i, a)
  }

  lemma NeededStep(ss: seq<Stmt>, s: Stmt, out: set<nat>, i: nat, atom: nat)
    requires i < |ss|
    ensures atom in UseSet(ss[i]) && atom < N_ATOMS ==> atom in Needed(ss, s, out, i)
    ensures atom in Needed(ss, s, out, i + 1) && atom !in DefSet(ss[i]) ==> atom in Needed(ss, s, out, i)
  {
    hide UseSet, DefSet;
    FateFront(ss, i, |ss|, atom);
  }

  /** One statement, kept or deleted: states that agree before on what is needed agree after. */
  lemma CleanStep(ss: seq<Stmt>, s: Stmt, out: set<nat>, i: nat, st: State, st': State, p: Packet)
    requires i < |ss| && InRange(ss[i]) && Agree(st, st', Needed(ss, s, out, i)) && Exec(ss[i], st, p).Next?
    ensures var r := Exec(Clean(ss, s, out)[i], st', p);
            r.Next? && Agree(Exec(ss[i], st, p).st, r.st, Needed(ss, s, out, i + 1))
  {
    hide Exec, UseSet, DeadBefore, Needed, AtomDef;
    var t := Exec(ss[i], st, p).st;
    forall a: nat ensures a in UseSet(ss[i]) && a < N_ATOMS ==> a in Needed(ss, s, out, i)
                  ensures a in Needed(ss, s, out, i + 1) && a !in DefSet(ss[i]) ==> a in Needed(ss, s, out, i)
    {
      NeededStep(ss, s, out, i, a);
    }
    StatementReadsUses(ss[i], st, st', p, Needed(ss, s, out, i));
    if IsDead(ss, s, out, i) {
      OnlyDefChanges(ss[i], st, p);
      NopDoesNothing(ss[i], st', p);
      DeadNotNeeded(ss, s, out, i);
    }
  }

  lemma DeadNotNeeded(ss: seq<Stmt>, s: Stmt, out: set<nat>, i: nat)
    requires i < |ss| && IsDead(ss, s, out, i)
    ensures AtomDef(ss[i]) !in Needed(ss, s, out, i + 1)
  {
  }

  lemma OnlyDefChanges(s: Stmt, st: State, p: Packet)
    requires InRange(s) && Exec(s, st, p).Next?
    ensures forall a :: 0 <= a < N_ATOMS && a !in DefSet(s) ==> Val(Exec(s, st, p).st, a) == Val(st, a)
  {
    hide Apply, Fetch;
  }

  lemma {:induction false} CleanRun(ss: seq<Stmt>, s: Stmt, out: set<nat>, i: nat, st: State, st': State, p: Packet)
    requires AllInRange(ss) && i <= |ss| && Agree(st, st', Needed(ss, s, out, i)) && ExecList(ss[i..], st, p).Next?
    ensures var r := ExecList(Clean(ss, s, out)[i..], st', p);
            r.Next? && Agree(ExecList(ss[i..], st, p).st, r.st, Needed(ss, s, out, |ss|))
    decreases |ss| - i
  {
    hide Exec, Needed, IsDead, InRange;
    if i < |ss| {
      var cs := Clean(ss, s, out);
      assert ss[i..][1..] == ss[i + 1..] && cs[i..][1..] == cs[i + 1..];
      CleanStep(ss, s, out, i, st, st', p);
      CleanRun(ss, s, out, i + 1, Exec(ss[i], st, p).st, Exec(cs[i], st', p).st, p);
    }
  }

  /** A block with its dead definitions removed leaves the same branch and the same live-out registers. */
  lemma CleanBlock(ss: seq<Stmt>, s: Stmt, out: set<nat>, st: State, p: Packet)
    requires AllInRange(ss) && ExecList(ss, st, p).Next?
    ensures var r := ExecList(Clean(ss, s, out), st, p);
            r.Next? && Agree(ExecList(ss, st, p).st, r.st, out + UseSet(s))
  {
    hide ExecList, UseSet, Clean, Agree, AllInRange;
    var cs := Clean(ss, s, out);
    assert ss[0..] == ss && cs[0..] == cs;
    AgreeSelf(st, Needed(ss, s, out, 0));
    CleanRun(ss, s, out, 0, st, st, p);
    NeededAtEnd(ss, s, out, ExecList(ss, st, p).st, ExecList(cs, st, p).st);
  }

  /** Looking at one more register that is not lost changes nothing. */
  lemma CleanWith(ss: seq<Stmt>, s: Stmt, out: set<nat>, a: nat)
    requires !Lost(ss, s, out, a)
    ensures Clean(ss, s, out + {a}) == Clean(ss, s, out)
  {
    hide AtomDef, UseSet;
    forall i | 0 <= i < |ss| ensures IsDead(ss, s, out + {a}, i) == IsDead(ss, s, out, i) {
      assert !(AtomDef(ss[i]) == a && LastUnread(ss, s, out, i, a));
    }
  }

  /** The numbers left describe the state the cleaned block leaves, as those before described the old one's. */
  lemma NumbersSurvive(table: Table, val0: seq<nat>, val: seq<nat>, ss: seq<Stmt>, s: Stmt, out: set<nat>, st: State,
                       p: Packet)
    requires AllInRange(ss) && ExecList(ss, st, p).Next? && Shaped(Values(table, val0)) && |val| == N_ATOMS
    requires Describes(Values(table, val0), ExecList(ss, st, p).st, p)
    requires forall a :: 0 <= a < N_ATOMS ==> val[a] == if Lost(ss, s, out, a) then UNKNOWN else val0[a]
    ensures ExecList(Clean(ss, s, out), st, p).Next?
    ensures Shaped(Values(table, val)) && Describes(Values(table, val), ExecList(Clean(ss, s, out), st, p).st, p)
  {
    hide ExecList, UseSet, Clean, AllInRange, Lost, Meaning, Ordered, Val;
    CleanBlock(ss, s, out, st, p);
    var t := ExecList(Clean(ss, s, out), st, p).st;
    forall a | 0 <= a < N_ATOMS && val[a] != UNKNOWN ensures Meaning(table, val[a], p) == Some(Val(t, a)) {
      CleanWith(ss, s, out, a);
      CleanBlock(ss, s, out + {a}, st, p);
    }
  }

  lemma AgreeSelf(st: State, atoms: set<nat>)
    ensures Agree(st, st, atoms)
  {
  }

  lemma NeededAtEnd(ss: seq<Stmt>, s: Stmt, out: set<nat>, st: State, st': State)
    requires Agree(st, st', Needed(ss, s, out, |ss|))
    ensures Agree(st, st', out + UseSet(s))
  {
    hide UseSet;
  }

  /** A graph in which any choice of blocks has had its dead definitions removed. */
  ghost predicate Cleaned(g: Graph, g': Graph, outUse: seq<set<nat>>)
  {
    && |g'| == |g| == |outUse|
    && forall b :: 0 <= b < |g| ==> g'[b] == g[b] || g'[b] == g[b].(stmts := Clean(g[b].stmts, g[b].s, outUse[b]))
  }

  lemma CleanedIsRanked(g: Graph, g': Graph, outUse: seq<set<nat>>, rank: seq<nat>)
    requires Ranked(g, rank) && Cleaned(g, g', outUse)
    ensures Ranked(g', rank)
  {
    forall b | 0 <= b < |g'| ensures NodeOk(g'[b], |g'|) { assert NodeOk(g[b], |g|); }
  }

  lemma CleanedBlock(g: Graph, g': Graph, inUse: seq<set<nat>>, outUse: seq<set<nat>>, b: nat, st: State, st': State,
                     p: Packet)
    requires WellFormed(g) && b < |g| == |inUse| == |outUse| && LiveAt(g, inUse, outUse, b) && AllInRange(g[b].stmts)
    requires Cleaned(g, g', outUse) && Agree(st, st', inUse[b]) && ExecList(g[b].stmts, st, p).Next?
    ensures var r := ExecList(g'[b].stmts, st', p);
            r.Next? && Agree(ExecList(g[b].stmts, st, p).st, r.st, outUse[b] + BranchUse(g[b].s))
  {
    hide ExecList, Used, Killed, UseSet, Clean, InRange, IsLeaf, Val;
    BlockKeepsNeeds(g, inUse, outUse, b, st, st', p);
    CleanBlock(g[b].stmts, g[b].s, outUse[b], st', p);
  }

  /** Removing dead definitions, in any choice of blocks, leaves the returned value
      unchanged for every run of the original that returns one. */
  lemma {:induction false} DeadStoresPreserve(g: Graph, g': Graph, rank: seq<nat>, inUse: seq<set<nat>>,
                                              outUse: seq<set<nat>>,
                                              o: seq<nat>, b: nat, st: State, st': State, p: Packet)
    requires Ranked(g, rank) && Ranked(g', rank) && Placed(g, o) && Live(g, inUse, outUse, o) && b in o
    requires ReturnsCounted(g, o) && GraphInRange(g) && Cleaned(g, g', outUse)
    requires b < |inUse| && b < |g| && Agree(st, st', inUse[b]) && RunGraph(g, rank, b, st, p).Return?
    ensures RunGraph(g', rank, b, st', p) == RunGraph(g, rank, b, st, p)
    decreases rank[b]
  {
    hide ExecList, Taken, Used, Killed, Live, UseSet, Clean, InRange, Val, Exposed, Defs;
    LiveMember(g, inUse, outUse, o, b);
    assert ExecList(g[b].stmts, st, p).Next?;
    CleanedBlock(g, g', inUse, outUse, b, st, st', p);
    var t, t' := ExecList(g[b].stmts, st, p).st, ExecList(g'[b].stmts, st', p).st;
    assert g'[b].s == g[b].s && g'[b].jt == g[b].jt && g'[b].jf == g[b].jf;
    if !IsLeaf(g[b]) {
      BranchReadsUses(g[b].s, t, t');
      SuccessorsPlaced(g, o, b);
      DeadStoresPreserve(g, g', rank, inUse, outUse, o, Successor(g[b], Taken(g[b].s, t)), t, t', p);
    } else if g[b].s.code.RetA? {
      CleanedReturn(g, g', inUse, outUse, b, st, st', p);
    }
  }

  /** A returned accumulator that the analysis counts survives. */
  lemma CleanedReturn(g: Graph, g': Graph, inUse: seq<set<nat>>, outUse: seq<set<nat>>, b: nat, st: State, st': State,
                      p: Packet)
    requires WellFormed(g) && b < |g| == |inUse| == |outUse| && LiveAt(g, inUse, outUse, b) && AllInRange(g[b].stmts)
    requires Cleaned(g, g', outUse) && Agree(st, st', inUse[b]) && ExecList(g[b].stmts, st, p).Next?
    requires IsLeaf(g[b]) && g[b].s.code.RetA? && ReturnCounted(g[b])
    ensures var r := ExecList(g'[b].stmts, st', p); r.Next? && r.st.a == ExecList(g[b].stmts, st, p).st.a
  {
    hide ExecList, Used, Killed, Clean, InRange, Exposed, Defs, ReturnCounted, LiveAt;
    LeafUses(g, inUse, outUse, b);
    ReturnExact(g[b], st, st', p);
    CleanBlock(g[b].stmts, g[b].s, outUse[b], st', p);
    var u, u' := ExecList(g[b].stmts, st', p).st, ExecList(Clean(g[b].stmts, g[b].s, outUse[b]), st', p).st;
    assert A_ATOM in UseSet(g[b].s) && Val(u, A_ATOM) == u.a && Val(u', A_ATOM) == u'.a;
  }
}
