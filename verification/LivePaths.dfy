/**
 * What the data-flow equations find, in terms of paths: a register is live where
 * some path reads it before setting it, and a statement that is said to use a
 * register does depend on it.
 */
module LivePaths {
  import opened Words
  import opened Machine
  import opened FlowGraph
  import opened Layout
  import opened Liveness

  // ------------------------------------------------------------------- blocks

  ghost predicate Sets(ss: seq<Stmt>, a: nat) { exists j :: 0 <= j < |ss| && a in DefSet(ss[j]) }

  /** Statement i reads the register, and none before it sets it. */
  ghost predicate ReadsAt(ss: seq<Stmt>, a: nat, i: nat)
  {
    i < |ss| && a in UseSet(ss[i]) && forall j :: 0 <= j < i ==> a !in DefSet(ss[j])
  }

  /** The block reads the register as it finds it: a statement or the branch does. */
  ghost predicate Reads(n: Node, a: nat)
  {
    (exists i :: ReadsAt(n.stmts, a, i)) || (a in BranchUse(n.s) && !Sets(n.stmts, a))
  }

  lemma {:induction false} DefsExactly(ss: seq<Stmt>, a: nat)
    ensures a in Defs(ss) <==> Sets(ss, a)
    decreases |ss|
  {
    hide DefSet;
    if ss != [] {
      var last := |ss| - 1;
      DefsExactly(ss[..last], a);
      if Sets(ss[..last], a) {
        var j :| 0 <= j < last && a in DefSet(ss[..last][j]);
        assert a in DefSet(ss[j]);
      }
      if Sets(ss, a) && a !in DefSet(ss[last]) {
        var j :| 0 <= j < |ss| && a in DefSet(ss[j]);
        assert a in DefSet(ss[..last][j]);
      }
    }
  }

  lemma {:induction false} ExposedExactly(ss: seq<Stmt>, a: nat)
    ensures a in Exposed(ss) <==> exists i :: ReadsAt(ss, a, i)
    decreases |ss|
  {
    hide DefSet, UseSet, Defs;
    if ss != [] {
      var last := |ss| - 1;
      ExposedExactly(ss[..last], a);
      DefsExactly(ss[..last], a);
      if exists i :: ReadsAt(ss[..last], a, i) {
        var i :| ReadsAt(ss[..last], a, i);
        ReadEarlier(ss, a, i, last);
      }
      if exists i :: ReadsAt(ss, a, i) {
        var i: nat :| ReadsAt(ss, a, i);
        if i < last { ReadEarlier(ss, a, i, last); } else { NotSetBefore(ss, a, last); }
      }
      if a in UseSet(ss[last]) && !Sets(ss[..last], a) { NotSetBefore(ss, a, last); }
    }
  }

  lemma ReadEarlier(ss: seq<Stmt>, a: nat, i: nat, m: nat)
    requires i < m <= |ss|
    ensures ReadsAt(ss, a, i) <==> ReadsAt(ss[..m], a, i)
  {
    hide DefSet, UseSet;
    assert forall j :: 0 <= j <= i ==> ss[..m][j] == ss[j];
  }

  lemma NotSetBefore(ss: seq<Stmt>, a: nat, i: nat)
    requires i < |ss|
    ensures ReadsAt(ss, a, i) <==> a in UseSet(ss[i]) && !Sets(ss[..i], a)
  {
    hide DefSet, UseSet;
    assert forall j :: 0 <= j < i ==> ss[..i][j] == ss[j];
  }

  lemma UsedExactly(n: Node, a: nat)
    ensures a in Used(n) <==> Reads(n, a)
  {
    hide Exposed, Defs, ReadsAt, Sets, BranchUse;
    ExposedExactly(n.stmts, a);
    DefsExactly(n.stmts, a);
  }

  /** What a block sets without reading it first. */
  lemma {:induction false} KilledExactly(ss: seq<Stmt>, a: nat)
    ensures a in Killed(ss) <==> a in Defs(ss) && a !in Exposed(ss)
    decreases |ss|
  {
    hide DefSet, UseSet;
    if ss != [] { KilledExactly(ss[..|ss| - 1], a); }
  }

  // -------------------------------------------------------------------- paths

  /** A path through the graph. */
  ghost predicate Path(g: Graph, path: seq<nat>)
  {
    && path != [] && (forall i :: 0 <= i < |path| ==> path[i] < |g|)
    && (forall i :: 0 < i < |path| ==> Onward(g, path[i - 1], path[i]))
  }

  ghost predicate Onward(g: Graph, b: nat, c: nat)
  {
    b < |g| && !IsLeaf(g[b]) && (c == g[b].jt || c == g[b].jf)
  }

  /** The path comes from b to a block that reads the register, and no block before that one sets it. */
  ghost predicate ReadAlong(g: Graph, path: seq<nat>, b: nat, a: nat)
  {
    && Path(g, path) && path[0] == b && Reads(g[path[|path| - 1]], a)
    && forall i :: 0 <= i < |path| - 1 ==> !Sets(g[path[i]].stmts, a)
  }

  lemma ReadHere(g: Graph, b: nat, a: nat)
    requires b < |g| && Reads(g[b], a)
    ensures ReadAlong(g, [b], b, a)
  {
    hide Reads, Sets;
  }

  lemma ReadFurther(g: Graph, path: seq<nat>, b: nat, c: nat, a: nat)
    requires Onward(g, b, c) && ReadAlong(g, path, c, a) && !Sets(g[b].stmts, a)
    ensures ReadAlong(g, [b] + path, b, a)
  {
    hide Reads, Sets;
    var longer := [b] + path;
    forall i | 0 < i < |longer| ensures Onward(g, longer[i - 1], longer[i]) {
      if i > 1 { assert longer[i - 1] == path[i - 2] && longer[i] == path[i - 1]; }
    }
    forall i | 0 <= i < |longer| - 1 ensures !Sets(g[longer[i]].stmts, a) {
      if i > 0 { assert longer[i] == path[i - 1]; }
    }
  }

  lemma ReadLater(g: Graph, path: seq<nat>, b: nat, a: nat)
    requires ReadAlong(g, path, b, a) && |path| > 1
    ensures Onward(g, b, path[1]) && ReadAlong(g, path[1..], path[1], a) && !Sets(g[b].stmts, a)
  {
    hide Reads, Sets;
    var rest := path[1..];
    forall i | 0 < i < |rest| ensures Onward(g, rest[i - 1], rest[i]) {
      assert Onward(g, path[i], path[i + 1]);
    }
    forall i | 0 <= i < |rest| - 1 ensures !Sets(g[rest[i]].stmts, a) {
      assert !Sets(g[path[i + 1]].stmts, a);
    }
    assert Onward(g, path[0], path[1]);
  }

  /** The liveness the equations compute is exact: a register is live on entry to a block just if some path from there
      reads it before any block on the way sets it. */
  lemma {:induction false} LiveExactly(g: Graph, inUse: seq<set<nat>>, outUse: seq<set<nat>>, o: seq<nat>, b: nat,
                                       a: nat)
    requires WellFormed(g) && Placed(g, o) && Live(g, inUse, outUse, o) && b in o
    ensures b < |g| == |inUse| && (a in inUse[b] <==> exists path :: ReadAlong(g, path, b, a))
    decreases |o|
  {
    hide Used, Killed, Reads, Sets, Defs, Exposed;
    var last := |o| - 1;
    if o[last] != b {
      LiveExactly(g, inUse, outUse, o[..last], b, a);
    } else {
      LiveMember(g, inUse, outUse, o, b);
      UsedExactly(g[b], a);
      NeedsExactly(g[b], a);
      if !IsLeaf(g[b]) {
        LiveExactly(g, inUse, outUse, o[..last], g[b].jt, a);
        LiveExactly(g, inUse, outUse, o[..last], g[b].jf, a);
      }
      LiveHere(g, inUse, outUse, b, a);
    }
  }

  /** What passes through a block that does not read it is what the block does not set. */
  lemma NeedsExactly(n: Node, a: nat)
    ensures a !in Used(n) ==> (a in Killed(n.stmts) <==> Sets(n.stmts, a))
  {
    hide Exposed, Defs, Killed, Sets, BranchUse;
    KilledExactly(n.stmts, a);
    DefsExactly(n.stmts, a);
  }

  lemma LiveHere(g: Graph, inUse: seq<set<nat>>, outUse: seq<set<nat>>, b: nat, a: nat)
    requires WellFormed(g) && b < |g| == |inUse| == |outUse| && LiveAt(g, inUse, outUse, b)
    requires a in Used(g[b]) <==> Reads(g[b], a)
    requires a !in Used(g[b]) ==> (a in Killed(g[b].stmts) <==> Sets(g[b].stmts, a))
    requires !IsLeaf(g[b]) ==>
               && (a in inUse[g[b].jt] <==> exists path :: ReadAlong(g, path, g[b].jt, a))
               && (a in inUse[g[b].jf] <==> exists path :: ReadAlong(g, path, g[b].jf, a))
    ensures a in inUse[b] <==> exists path :: ReadAlong(g, path, b, a)
  {
    hide Used, Killed, Reads, Sets, ReadAlong;
    if a in Used(g[b]) {
      ReadHere(g, b, a);
    } else {
      if a in inUse[b] {
        var c: nat := if a in inUse[g[b].jt] then g[b].jt else g[b].jf;
        var path :| ReadAlong(g, path, c, a);
        ReadFurther(g, path, b, c, a);
      }
      if exists path :: ReadAlong(g, path, b, a) {
        var path :| ReadAlong(g, path, b, a);
        NotReadHere(g, path, b, a);
        ReadLater(g, path, b, a);
      }
    }
  }

  lemma NotReadHere(g: Graph, path: seq<nat>, b: nat, a: nat)
    requires ReadAlong(g, path, b, a) && b < |g| && !Reads(g[b], a)
    ensures |path| > 1
  {
    hide Reads, Sets;
  }

  // --------------------------------------------------------------- statements

  /** Two states that differ in one register only. */
  ghost predicate DifferIn(st: State, st': State, a: nat)
    requires a < N_ATOMS
  {
    Val(st, a) != Val(st', a) && forall b :: 0 <= b < N_ATOMS && b != a ==> Val(st, b) == Val(st', b)
  }

  /** What a statement is said to use makes a difference to what it sets. (Among the operations, additions and
      subtractions: others give the same for some operands whatever the accumulator.) */
  lemma UseMatters(s: Stmt, a: nat) returns (st: State, st': State, p: Packet)
    requires InRange(s) && Straight(s.code) && a in UseSet(s)
    requires (s.code.Alu? ==> s.code.op in {Add, Sub}) && (s.code.LdInd? ==> s.k + Bytes(s.code.size) < TWO32)
    ensures a < N_ATOMS && DifferIn(st, st', a) && !SameOutcome(Exec(s, st, p), Exec(s, st', p), DefSet(s))
  {
    hide Fetch;
    var zero: Mem := seq(16, i => 0);
    st := State(0, 0, zero);
    p := Packet(if s.code.LdInd? then seq(s.k + Bytes(s.code.size), i => 0) else [], 0);
    st' := if a < 16 then st.(mem := zero[a := 1]) else if a == A_ATOM then st.(a := 1) else st.(x := 0xffff_ffff);
    if !s.code.LdInd? {
      var t := AtomDef(s);
      assert Exec(s, st, p).Next? && Exec(s, st', p).Next? && t in DefSet(s);
      assert Val(Exec(s, st, p).st, t) != Val(Exec(s, st', p).st, t);
    }
  }
}
