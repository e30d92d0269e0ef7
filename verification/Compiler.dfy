/**
 * From filter expression to running program: the meaning of a filter, the
 * graph the code generator leaves, and the flat program made from it.
 */
module Compiler {
  import opened Words
  import opened Machine
  import opened FlowGraph
  import opened CodeGen
  import opened Layout
  import opened Validator
  import opened Emitter
  import opened Acceptance

  // ----------------------------------------------------- meaning of a filter

  /** What a filter says about a packet, or the early end of the run. */
  datatype Verdict = Says(v: bool, st: State) | Ends(r: Result)

  function EvalTest(ss: seq<Stmt>, s: Stmt, st: State, p: Packet): Verdict
    requires s.code.Jmp?
  {
    match ExecList(ss, st, p)
    case Next(st') => Says(Taken(s, st'), st')
    case Reject => Ends(Rejected)
    case Trapping(t) => Ends(Trapped(t))
  }

  predicate Sound(f: Filter)
  {
    match f
    case Atom(_, s) => s.code.Jmp?
    case Both(a, b) => Sound(a) && Sound(b)
    case Either(a, b) => Sound(a) && Sound(b)
    case Negated(a) => Sound(a)
  }

  /** Left-to-right short-circuit evaluation. A load outside the packet ends the
      evaluation at once, negated or not. */
  function Eval(f: Filter, st: State, p: Packet): Verdict
    requires Sound(f)
  {
    match f
    case Atom(ss, s) => EvalTest(ss, s, st, p)
    case Both(a, b) =>
      (match Eval(a, st, p)
       case Says(v, st') => if v then Eval(b, st', p) else Says(false, st')
       case Ends(r) => Ends(r))
    case Either(a, b) =>
      (match Eval(a, st, p)
       case Says(v, st') => if v then Says(true, st') else Eval(b, st', p)
       case Ends(r) => Ends(r))
    case Negated(a) =>
      (match Eval(a, st, p)
       case Says(v, st') => Says(!v, st')
       case Ends(r) => Ends(r))
  }

  /** The result the compiled program is to return. */
  function Expected(f: Filter, snaplen: Word, st: State, p: Packet): Result
    requires Sound(f)
  {
    match Eval(f, st, p)
    case Says(v, _) => Return(if v then snaplen else 0)
    case Ends(r) => r
  }

  // ---------------------------------------------------------- finished graph

  function ToGraph(bs: Store): Graph
  {
    seq(|bs|, i requires 0 <= i < |bs| => Node(bs[i].stmts, bs[i].s, bs[i].jt, bs[i].jf))
  }

  /** Tests in left-to-right order. */
  function InOrder(e: Expr): seq<nat>
  {
    match e
    case Test(i, _, _) => [i]
    case And(a, b) => InOrder(a) + InOrder(b)
    case Or(a, b) => InOrder(a) + InOrder(b)
    case Not(a) => InOrder(a)
  }

  /** Position of a test in left-to-right order. */
  function Position(e: Expr, b: nat): nat
  {
    match e
    case Test(_, _, _) => 0
    case And(x, y) => if b in Tests(x) then Position(x, b) else |InOrder(x)| + Position(y, b)
    case Or(x, y) => if b in Tests(x) then Position(x, b) else |InOrder(x)| + Position(y, b)
    case Not(x) => Position(x, b)
  }

  lemma {:induction false} PositionFacts(e: Expr, b: nat)
    requires Good(e) && b in Tests(e)
    ensures Position(e, b) < |InOrder(e)|
  {
    match e
    case Test(_, _, _) =>
    case And(x, y) => if b in Tests(x) { PositionFacts(x, b); } else { PositionFacts(y, b); }
    case Or(x, y) => if b in Tests(x) { PositionFacts(x, b); } else { PositionFacts(y, b); }
    case Not(x) => PositionFacts(x, b);
  }

  /** A branch of b leaves the expression or goes to a test further right. */
  ghost predicate GoesRight(e: Expr, b: nat, j: int, t: int, f: int)
  {
    j == t || j == f || (j >= 0 && j in Tests(e) && Position(e, j) > Position(e, b))
  }

  lemma {:induction false} WiredGoesRight(bs: Store, e: Expr, t: int, f: int, b: nat)
    requires Good(e) && Stored(e, |bs|) && Wired(bs, e, t, f) && b in Tests(e)
    ensures GoesRight(e, b, bs[b].jt, t, f) && GoesRight(e, b, bs[b].jf, t, f) && bs[b].s.code.Jmp?
  {
    match e
    case Test(_, _, _) =>
    case And(x, y) =>
      ExitFacts(x); ExitFacts(y);
      if b in Tests(x) {
        WiredGoesRight(bs, x, First(y), f, b);
        PositionFacts(x, b);
      } else {
        WiredGoesRight(bs, y, t, f, b);
      }
    case Or(x, y) =>
      ExitFacts(x); ExitFacts(y);
      if b in Tests(x) {
        WiredGoesRight(bs, x, t, First(y), b);
        PositionFacts(x, b);
      } else {
        WiredGoesRight(bs, y, t, f, b);
      }
    case Not(x) => WiredGoesRight(bs, x, f, t, b);
  }

  /** Tests further left rank higher; the returns rank lowest. */
  ghost function Ranks(e: Expr, n: nat): seq<nat>
    requires Good(e)
  {
    seq(n, b requires 0 <= b < n => RankIn(e, b))
  }

  ghost function RankIn(e: Expr, b: nat): nat
    requires Good(e)
  {
    if b in Tests(e) then PositionFacts(e, b); |InOrder(e)| - Position(e, b) else 0
  }

  /** A finished store: the tests of e, wired, then the two return blocks. */
  ghost predicate Finished(bs: Store, e: Expr, snaplen: Word)
  {
    && |bs| >= 2 && Good(e) && Stored(e, |bs|) && Wired(bs, e, |bs| - 2, |bs| - 1)
    && (forall b :: 0 <= b < |bs| - 2 ==> b in Tests(e))
    && Stored(e, |bs| - 2)
    && bs[|bs| - 2] == Block([], Stmt(RetK, snaplen), NIL, NIL, false, |bs| - 2)
    && bs[|bs| - 1] == Block([], Stmt(RetK, 0), NIL, NIL, false, |bs| - 1)
  }

  /** The finished graph is acyclic. */
  lemma FinishedIsRanked(bs: Store, e: Expr, snaplen: Word)
    requires Finished(bs, e, snaplen)
    ensures Ranked(ToGraph(bs), Ranks(e, |bs|))
  {
    var g, rank := ToGraph(bs), Ranks(e, |bs|);
    forall b | 0 <= b < |g|
      ensures NodeOk(g[b], |g|)
      ensures !IsLeaf(g[b]) ==> rank[g[b].jt] < rank[b] && rank[g[b].jf] < rank[b]
    {
      if b < |bs| - 2 {
        WiredGoesRight(bs, e, |bs| - 2, |bs| - 1, b);
        PositionFacts(e, b);
      }
    }
  }

  /** The wired graph takes the branch that short-circuit evaluation takes. */
  lemma {:induction false} WiredRuns(bs: Store, rank: seq<nat>, e: Expr, t: nat, f: nat, st: State, p: Packet)
    requires Good(e) && Stored(e, |bs|) && Wired(bs, e, t, f) && Ranked(ToGraph(bs), rank) && t < |bs| && f < |bs|
    ensures Sound(Erase(e)) && First(e) < |bs|
    ensures RunGraph(ToGraph(bs), rank, First(e), st, p) ==
            match Eval(Erase(e), st, p)
            case Says(v, st') => RunGraph(ToGraph(bs), rank, if v then t else f, st', p)
            case Ends(r) => r
  {
    hide ExecList, Taken, Ranked;
    ExitFacts(e);
    match e
    case Test(i, ss, s) =>
      var g := ToGraph(bs);
      assert g[i] == Node(ss, s, t, f);
    case And(a, b) =>
      ExitFacts(b);
      WiredRuns(bs, rank, a, First(b), f, st, p);
      SoundErasure(b);
      match Eval(Erase(a), st, p) {
        case Says(v, st') => if v { WiredRuns(bs, rank, b, t, f, st', p); }
        case Ends(_) =>
      }
    case Or(a, b) =>
      ExitFacts(b);
      WiredRuns(bs, rank, a, t, First(b), st, p);
      SoundErasure(b);
      match Eval(Erase(a), st, p) {
        case Says(v, st') => if !v { WiredRuns(bs, rank, b, t, f, st', p); }
        case Ends(_) =>
      }
    case Not(a) => WiredRuns(bs, rank, a, f, t, st, p);
  }

  lemma {:induction false} SoundErasure(e: Expr)
    requires Good(e)
    ensures Sound(Erase(e))
  {
    match e
    case Test(_, _, _) =>
    case And(a, b) => SoundErasure(a); SoundErasure(b);
    case Or(a, b) => SoundErasure(a); SoundErasure(b);
    case Not(a) => SoundErasure(a);
  }

  /** The finished graph returns snaplen, 0, or ends early, as the filter says. */
  lemma FinishedRuns(bs: Store, e: Expr, snaplen: Word, st: State, p: Packet)
    requires Finished(bs, e, snaplen)
    ensures Ranked(ToGraph(bs), Ranks(e, |bs|)) && Sound(Erase(e)) && First(e) < |bs|
    ensures RunGraph(ToGraph(bs), Ranks(e, |bs|), First(e), st, p) == Expected(Erase(e), snaplen, st, p)
  {
    hide Wired, Ranks;
    FinishedIsRanked(bs, e, snaplen);
    var rank := Ranks(e, |bs|);
    WiredRuns(bs, rank, e, |bs| - 2, |bs| - 1, st, p);
  }

  // ---------------------------------------------------------------- compiling

  predicate LegalFilter(f: Filter)
  {
    match f
    case Atom(ss, s) => s.code.Jmp? && forall i :: 0 <= i < |ss| ==> Legal(ss[i])
    case Both(a, b) => LegalFilter(a) && LegalFilter(b)
    case Either(a, b) => LegalFilter(a) && LegalFilter(b)
    case Negated(a) => LegalFilter(a)
  }

  predicate StraightFilter(f: Filter)
  {
    match f
    case Atom(ss, s) => s.code.Jmp? && forall i :: 0 <= i < |ss| ==> Straight(ss[i].code)
    case Both(a, b) => StraightFilter(a) && StraightFilter(b)
    case Either(a, b) => StraightFilter(a) && StraightFilter(b)
    case Negated(a) => StraightFilter(a)
  }

  /** The parser's actions: blocks for the operands, left first, then the operator. */
  method Generate(gen: Generator, f: Filter) returns (b: nat, ghost e: Expr)
    requires Sound(f)
    modifies gen
    ensures Erase(e) == f && b == Last(e) && Fragment(gen.blocks, e)
    ensures old(|gen.blocks|) <= |gen.blocks| && gen.blocks[..old(|gen.blocks|)] == old(gen.blocks)
    ensures forall i :: i in Tests(e) <==> old(|gen.blocks|) <= i < |gen.blocks|
    ensures |gen.blocks| == old(|gen.blocks|) + Leaves(f)
    decreases f, 1
  {
    hide Fragment;
    ghost var n := |gen.blocks|;
    match f {
      case Atom(ss, s) =>
        b := gen.NewBlock(ss, s);
        e := Test(b, ss, s);
      case Negated(x) =>
        ghost var e0;
        b, e0 := Generate(gen, x);
        gen.GenNot(b, e0);
        e := Not(e0);
      case Both(_, _) => b, e := GenerateTwo(gen, f);
      case Either(_, _) => b, e := GenerateTwo(gen, f);
    }
  }

  method GenerateTwo(gen: Generator, f: Filter) returns (b: nat, ghost e: Expr)
    requires Sound(f) && (f.Both? || f.Either?)
    modifies gen
    ensures Erase(e) == f && b == Last(e) && Fragment(gen.blocks, e)
    ensures old(|gen.blocks|) <= |gen.blocks| && gen.blocks[..old(|gen.blocks|)] == old(gen.blocks)
    ensures forall i :: i in Tests(e) <==> old(|gen.blocks|) <= i < |gen.blocks|
    ensures |gen.blocks| == old(|gen.blocks|) + Leaves(f)
    decreases f, 0
  {
    hide Fragment;
    var b0; ghost var e0, e1;
    b0, e0 := Generate(gen, f.a);
    ghost var bs := gen.blocks;
    b, e1 := Generate(gen, f.b);
    FragmentLonger(bs, gen.blocks, e0);
    if f.Both? {
      gen.GenAnd(b0, b, e0, e1);
      e := And(e0, e1);
    } else {
      gen.GenOr(b0, b, e0, e1);
      e := Or(e0, e1);
    }
  }

  function Leaves(f: Filter): nat
  {
    match f
    case Atom(_, _) => 1
    case Both(a, b) => Leaves(a) + Leaves(b)
    case Either(a, b) => Leaves(a) + Leaves(b)
    case Negated(a) => Leaves(a)
  }

  /** Instructions that suffice for a filter: every statement, a branch and two long jumps per test. */
  function Bound(f: Filter): nat
  {
    match f
    case Atom(ss, _) => |ss| + 3
    case Both(a, b) => Bound(a) + Bound(b)
    case Either(a, b) => Bound(a) + Bound(b)
    case Negated(a) => Bound(a)
  }

  lemma {:induction false} BodyAtMost(ss: seq<Stmt>)
    ensures |Body(ss)| <= |ss|
  {
    if ss != [] { BodyAtMost(ss[1..]); }
  }

  /** Sum over blocks of the room each can take. */
  ghost function SumRoom(g: Graph, n: nat): nat
    requires n <= |g|
  {
    if n == 0 then 0 else SumRoom(g, n - 1) + |g[n - 1].stmts| + 3
  }

  lemma {:induction false} SpaceAtMost(g: Graph, blocks: set<nat>, n: nat)
    requires n <= |g|
    ensures Space(g, AllLong(g), blocks, n) <= SumRoom(g, n)
  {
    if n > 0 {
      SpaceAtMost(g, blocks, n - 1);
      BodyAtMost(g[n - 1].stmts);
    }
  }

  /** Room taken by the tests of e among the first n blocks. */
  ghost function SumTests(g: Graph, e: Expr, n: nat): nat
    requires n <= |g|
  {
    if n == 0 then 0
    else SumTests(g, e, n - 1) + if n - 1 in Tests(e) then |g[n - 1].stmts| + 3 else 0
  }

  lemma {:induction false} SumOfOne(g: Graph, e: Expr, n: nat)
    requires n <= |g| && e.Test? && e.id < |g| && g[e.id].stmts == e.stmts
    ensures SumTests(g, e, n) == if e.id < n then |e.stmts| + 3 else 0
  {
    if n > 0 { SumOfOne(g, e, n - 1); }
  }

  lemma {:induction false} SumOfTwo(g: Graph, e: Expr, a: Expr, b: Expr, n: nat)
    requires n <= |g| && Tests(e) == Tests(a) + Tests(b) && Tests(a) !! Tests(b)
    ensures SumTests(g, e, n) == SumTests(g, a, n) + SumTests(g, b, n)
  {
    if n > 0 { SumOfTwo(g, e, a, b, n - 1); }
  }

  lemma {:induction false} SumOfSame(g: Graph, e: Expr, a: Expr, n: nat)
    requires n <= |g| && Tests(e) == Tests(a)
    ensures SumTests(g, e, n) == SumTests(g, a, n)
  {
    if n > 0 { SumOfSame(g, e, a, n - 1); }
  }

  lemma {:induction false} TestsTakeBound(bs: Store, e: Expr, t: int, f: int)
    requires Good(e) && Stored(e, |bs|) && Wired(bs, e, t, f)
    ensures SumTests(ToGraph(bs), e, |bs|) == Bound(Erase(e))
  {
    var g := ToGraph(bs);
    match e
    case Test(_, _, _) => SumOfOne(g, e, |bs|);
    case And(a, b) =>
      TestsTakeBound(bs, a, First(b), f); TestsTakeBound(bs, b, t, f);
      SumOfTwo(g, e, a, b, |bs|);
    case Or(a, b) =>
      TestsTakeBound(bs, a, t, First(b)); TestsTakeBound(bs, b, t, f);
      SumOfTwo(g, e, a, b, |bs|);
    case Not(a) =>
      TestsTakeBound(bs, a, f, t);
      SumOfSame(g, e, a, |bs|);
  }

  lemma {:induction false} AllAreTests(g: Graph, e: Expr, n: nat)
    requires n <= |g| && forall b :: 0 <= b < n ==> b in Tests(e)
    ensures SumRoom(g, n) == SumTests(g, e, n)
  {
    if n > 0 { AllAreTests(g, e, n - 1); }
  }

  lemma FinishedRoom(bs: Store, e: Expr, snaplen: Word)
    requires Finished(bs, e, snaplen)
    ensures SumRoom(ToGraph(bs), |bs|) == Bound(Erase(e)) + 6
  {
    hide Wired;
    var g, n := ToGraph(bs), |bs| - 2;
    TestsTakeBound(bs, e, n, n + 1);
    AllAreTests(g, e, n);
    assert SumTests(g, e, n + 1) == SumTests(g, e, n) && SumTests(g, e, n + 2) == SumTests(g, e, n + 1);
    assert SumRoom(g, n + 1) == SumRoom(g, n) + 3 && SumRoom(g, n + 2) == SumRoom(g, n + 1) + 3;
  }

  lemma FinishedIsSmall(bs: Store, e: Expr, snaplen: Word)
    requires Finished(bs, e, snaplen) && Bound(Erase(e)) + 6 <= INT_MAX
    ensures Ranked(ToGraph(bs), Ranks(e, |bs|)) && First(e) < |bs|
    ensures Small(ToGraph(bs), Ranks(e, |bs|), First(e))
  {
    hide Wired, Ranks, Space, Below;
    var g, rank := ToGraph(bs), Ranks(e, |bs|);
    FinishedIsRanked(bs, e, snaplen);
    ExitFacts(e);
    FinishedRoom(bs, e, snaplen);
    SpaceAtMost(g, Below(g, rank, First(e)), |g|);
  }

  lemma {:induction false} FinishedStatements(bs: Store, e: Expr, t: int, f: int, b: nat)
    requires Good(e) && Stored(e, |bs|) && Wired(bs, e, t, f) && b in Tests(e)
    ensures StraightFilter(Erase(e)) ==> forall i :: 0 <= i < |bs[b].stmts| ==> Straight(bs[b].stmts[i].code)
    ensures LegalFilter(Erase(e)) ==> forall i :: 0 <= i < |bs[b].stmts| ==> Legal(bs[b].stmts[i])
  {
    match e
    case Test(_, _, _) =>
    case And(x, y) =>
      if b in Tests(x) { FinishedStatements(bs, x, First(y), f, b); } else { FinishedStatements(bs, y, t, f, b); }
    case Or(x, y) =>
      if b in Tests(x) { FinishedStatements(bs, x, t, First(y), b); } else { FinishedStatements(bs, y, t, f, b); }
    case Not(x) => FinishedStatements(bs, x, f, t, b);
  }

  lemma FinishedStraight(bs: Store, e: Expr, snaplen: Word)
    requires Finished(bs, e, snaplen)
    ensures StraightFilter(Erase(e)) ==> StraightLine(ToGraph(bs))
    ensures LegalFilter(Erase(e)) ==> LegalGraph(ToGraph(bs))
  {
    hide Wired, Legal, StraightFilter, LegalFilter;
    forall b | 0 <= b < |bs|
      ensures StraightFilter(Erase(e)) ==> forall i :: 0 <= i < |bs[b].stmts| ==> Straight(bs[b].stmts[i].code)
      ensures LegalFilter(Erase(e)) ==> forall i :: 0 <= i < |bs[b].stmts| ==> Legal(bs[b].stmts[i])
    {
      if b < |bs| - 2 { FinishedStatements(bs, e, |bs| - 2, |bs| - 1, b); }
    }
  }

  /** A program is a correct compilation: it returns what the filter says, on every
      packet and from every content of scratch memory, within one step per instruction. */
  ghost predicate Compiles(prog: seq<Insn>, f: Filter, snaplen: Word)
    requires Sound(f)
  {
    forall st: State, p: Packet :: Run(prog, 0, st, p, |prog|) == Some(Expected(f, snaplen, st, p))
  }

  /** The compiler without the optimizer, end to end. */
  method Compile(f: Filter, snaplen: Word) returns (prog: seq<Insn>)
    requires StraightFilter(f) && Sound(f) && Bound(f) + 6 <= INT_MAX
    ensures Compiles(prog, f, snaplen)
    ensures LegalFilter(f) ==> Accepted(prog)
  {
    hide Fragment, Wired, Run, RunGraph, Expected, Ranks, LaidOut, Small, LegalFilter, StraightFilter, Accepted;
    var gen := new Generator();
    var b; ghost var e;
    b, e := Generate(gen, f);
    var root := gen.FinishParse(b, snaplen, e);
    var bs := gen.blocks;
    assert Finished(bs, e, snaplen);
    var g := ToGraph(bs);
    ghost var rank := Ranks(e, |bs|);
    FinishedIsRanked(bs, e, snaplen);
    FinishedIsSmall(bs, e, snaplen);
    FinishedStraight(bs, e, snaplen);
    var em := new Emission(g);
    prog := em.IcodeToFcode(root, rank);
    forall st: State, p: Packet ensures Run(prog, 0, st, p, |prog|) == Some(Expected(f, snaplen, st, p)) {
      LaidOutRuns(g, rank, root, em.longs, prog, st, p);
      FinishedRuns(bs, e, snaplen, st, p);
    }
    if LegalFilter(f) { LaidOutAccepted(g, rank, root, em.longs, prog); }
  }

  lemma LaidOutAccepted(g: Graph, rank: seq<nat>, root: nat, l: Longs, prog: seq<Insn>)
    requires Ranked(g, rank) && root < |g| && LongsOk(g, l) && LegalGraph(g) && LaidOut(g, rank, root, l, prog)
    ensures Accepted(prog)
  {
    hide Accepted, Program, AllFit, Tight, Order, Total;
    LaidOutIsAccepted(g, l, Order(g, rank, root, [], false));
  }
}
