/** Running a laid-out program is running the graph it was laid out from. */
module Simulation {
  import opened Words
  import opened Machine
  import opened FlowGraph
  import opened Layout
  import opened Validator

  /** `part` stands in `f` from index `at` on. */
  ghost predicate Holds(f: seq<Insn>, at: int, part: seq<Insn>)
  {
    0 <= at && at + |part| <= |f| && f[at..at + |part|] == part
  }

  lemma HoldsParts(f: seq<Insn>, at: int, a: seq<Insn>, b: seq<Insn>)
    requires Holds(f, at, a + b)
    ensures Holds(f, at, a) && Holds(f, at + |a|, b)
  {
    assert f[at..at + |a|] == (a + b)[..|a|] == a;
    assert f[at + |a|..at + |a| + |b|] == (a + b)[|a|..] == b;
  }

  lemma HoldsAt(f: seq<Insn>, at: int, part: seq<Insn>, i: nat)
    requires Holds(f, at, part) && i < |part|
    ensures 0 <= at + i < |f| && f[at + i] == part[i]
  {
    assert f[at + i] == f[at..at + |part|][i];
  }

  lemma StepStatement(f: seq<Insn>, pc: nat, s: Stmt, st: State, p: Packet)
    requires pc < |f| && !s.code.Nop? && Straight(s.code) && f[pc] == EncodeStmt(s)
    ensures StepAt(f, pc, st, p) ==
            match Exec(s, st, p)
            case Next(st') => At(pc + 1, st')
            case Reject => Done(Rejected)
            case Trapping(t) => Done(Trapped(t))
  {
    EncodeDecode(s.code, Encode(s.code));
    hide Exec, Decode, Encode, Taken;
  }

  /** The emitted statements do what the statement list does, deleted ones included. */
  lemma {:induction false} RunBody(f: seq<Insn>, pc: nat, ss: seq<Stmt>, st: State, p: Packet, fuel: nat)
    requires forall i :: 0 <= i < |ss| ==> Straight(ss[i].code)
    requires Holds(f, pc, Body(ss)) && fuel >= |Body(ss)|
    ensures Run(f, pc, st, p, fuel) ==
            match ExecList(ss, st, p)
            case Next(st') => Run(f, pc + |Body(ss)|, st', p, fuel - |Body(ss)|)
            case Reject => Some(Rejected)
            case Trapping(t) => Some(Trapped(t))
    decreases |ss|
  {
    hide StepAt, Exec;
    if ss != [] {
      if ss[0].code.Nop? {
        NopDoesNothing(ss[0], st, p);
        RunBody(f, pc, ss[1..], st, p, fuel);
      } else {
        HoldsParts(f, pc, [EncodeStmt(ss[0])], Body(ss[1..]));
        HoldsAt(f, pc, [EncodeStmt(ss[0])], 0);
        StepStatement(f, pc, ss[0], st, p);
        match Exec(ss[0], st, p)
        case Next(st') => RunBody(f, pc + 1, ss[1..], st', p, fuel - 1);
        case _ =>
      }
    }
  }

  lemma StepJump(f: seq<Insn>, pc: nat, s: Stmt, st: State, p: Packet)
    requires pc < |f| && s.code.Jmp? && f[pc].code == Encode(s.code) && f[pc].k == s.k
    ensures StepAt(f, pc, st, p) == At(pc + 1 + (if Taken(s, st) then f[pc].jt else f[pc].jf), st)
  {
    EncodeDecode(s.code, Encode(s.code));
    hide Exec, Decode, Encode, Taken;
  }

  lemma StepJumpAlways(f: seq<Insn>, pc: nat, k: nat, st: State, p: Packet)
    requires pc < |f| && k <= INT_MAX && f[pc] == JumpAlways(k)
    ensures StepAt(f, pc, st, p) == At(pc + 1 + k, st)
  {
    EncodeDecode(Ja, Encode(Ja));
    hide Exec, Decode, Encode, Taken;
  }

  /** Whether the offset fits in the branch or goes through one of the inserted
      jumps, the branch arrives `dt` or `df` instructions further on. */
  lemma RunBranch(f: seq<Insn>, pc: nat, s: Stmt, dt: nat, df: nat, extra: nat, st: State, p: Packet, fuel: nat)
    requires s.code.Jmp? && dt <= INT_MAX && df <= INT_MAX && fuel >= 2
    requires (if dt >= 256 then 1 else 0) + (if df >= 256 then 1 else 0) <= extra
    requires Holds(f, pc, Branch(s, dt, df, extra))
    ensures var d := if Taken(s, st) then dt else df;
            Run(f, pc, st, p, fuel) == Run(f, pc + 1 + d, st, p, if d >= 256 then fuel - 2 else fuel - 1)
  {
    hide StepAt, Taken, Encode;
    var part := Branch(s, dt, df, extra);
    HoldsAt(f, pc, part, 0);
    StepJump(f, pc, s, st, p);
    var e := if dt >= 256 then 1 else 0;
    if Taken(s, st) {
      if dt >= 256 {
        HoldsAt(f, pc, part, 1);
        StepJumpAlways(f, pc + 1, dt - 1, st, p);
      }
    } else {
      if df >= 256 {
        HoldsAt(f, pc, part, e + 1);
        StepJumpAlways(f, pc + 1 + e, df - e - 1, st, p);
      }
    }
  }

  lemma StepLeaf(f: seq<Insn>, pc: nat, s: Stmt, st: State, p: Packet)
    requires pc < |f| && (s.code.RetK? || s.code.RetA?) && f[pc] == EncodeStmt(s)
    ensures StepAt(f, pc, st, p) == Done(LeafResult(s, st))
  {
    EncodeDecode(s.code, Encode(s.code));
    hide Exec, Decode, Encode, Taken;
  }

  lemma DistanceBounds(g: Graph, l: Longs, o: seq<nat>, b: nat, c: nat)
    requires LongsOk(g, l) && InGraph(g, o) && b < |g| && c in o
    ensures FromEnd(g, l, o, c) >= 1
    ensures l.jt[b] + l.jf[b] <= Distance(g, l, o, b, c) < l.jt[b] + l.jf[b] + Total(g, l, o)
  {
    FromEndAtMost(g, l, o, c);
    FromEndPositive(g, l, o, c);
  }

  lemma {:induction false} FromEndPositive(g: Graph, l: Longs, o: seq<nat>, c: nat)
    requires LongsOk(g, l) && InGraph(g, o) && c in o
    ensures FromEnd(g, l, o, c) >= 1
  {
    if o[|o| - 1] != c { FromEndPositive(g, l, o[..|o| - 1], c); }
  }

  /** The branch of block b, laid out after `o`, arrives at the start of the successor it takes. */
  lemma RunTail(g: Graph, l: Longs, o: seq<nat>, b: nat, f: seq<Insn>, pc: nat, st: State, p: Packet)
      returns (fuel: nat)
    requires WellFormed(g) && LongsOk(g, l) && InGraph(g, o) && b < |g| && !IsLeaf(g[b])
    requires g[b].jt in o && g[b].jf in o
    requires Fits(g, l, o, b) && Total(g, l, o) + 1 + l.jt[b] + l.jf[b] <= INT_MAX
    requires Holds(f, pc, Tail(g, l, o, b)) && pc + 1 + l.jt[b] + l.jf[b] + Total(g, l, o) == |f|
    ensures var c := Successor(g[b], Taken(g[b].s, st));
            && FromEnd(g, l, o, c) <= fuel
            && Run(f, pc, st, p, |f| - pc) == Run(f, |f| - FromEnd(g, l, o, c), st, p, fuel)
  {
    hide StepAt, Taken, Run, Total, FromEnd, Branch, Holds;
    var dt, df := Distance(g, l, o, b, g[b].jt), Distance(g, l, o, b, g[b].jf);
    DistanceBounds(g, l, o, b, g[b].jt);
    DistanceBounds(g, l, o, b, g[b].jf);
    RunBranch(f, pc, g[b].s, dt, df, l.jt[b] + l.jf[b], st, p, |f| - pc);
    var d := if Taken(g[b].s, st) then dt else df;
    fuel := if d >= 256 then |f| - pc - 2 else |f| - pc - 1;
  }

  /** Block b at the front of what has been laid out: its statements, then its branch or return. */
  lemma RunFront(g: Graph, rank: seq<nat>, l: Longs, o: seq<nat>, b: nat, f: seq<Insn>, pc: nat, st: State, p: Packet)
      returns (c: int, st': State, fuel: nat)
    requires Ranked(g, rank) && StraightLine(g) && LongsOk(g, l) && InGraph(g, o) && b < |g|
    requires !IsLeaf(g[b]) ==> g[b].jt in o && g[b].jf in o
    requires Fits(g, l, o, b) && Total(g, l, o) + Room(g, l, b) <= INT_MAX
    requires Holds(f, pc, Body(g[b].stmts)) && Holds(f, pc + |Body(g[b].stmts)|, Tail(g, l, o, b))
    requires pc + Room(g, l, b) + Total(g, l, o) == |f|
    ensures c == NIL ==> Run(f, pc, st, p, |f| - pc) == Some(RunGraph(g, rank, b, st, p))
    ensures c != NIL ==>
              && c in o && 0 <= c < |g|
              && RunGraph(g, rank, b, st, p) == RunGraph(g, rank, c, st', p)
              && FromEnd(g, l, o, c) <= fuel
              && Run(f, pc, st, p, |f| - pc) == Run(f, |f| - FromEnd(g, l, o, c), st', p, fuel)
  {
    hide StepAt, Taken, Total, FromEnd, Holds, Body;
    var at := pc + |Body(g[b].stmts)|;
    RunBody(f, pc, g[b].stmts, st, p, |f| - pc);
    c, st', fuel := NIL, st, 0;
    match ExecList(g[b].stmts, st, p) {
      case Next(st1) =>
        if IsLeaf(g[b]) {
          HoldsAt(f, at, [EncodeStmt(g[b].s)], 0);
          StepLeaf(f, at, g[b].s, st1, p);
        } else {
          c, st' := Successor(g[b], Taken(g[b].s, st1)), st1;
          hide Run;
          fuel := RunTail(g, l, o, b, f, at, st1, p);
        }
      case _ =>
    }
  }

  lemma UnfoldProgram(g: Graph, l: Longs, o: seq<nat>, f: seq<Insn>)
    requires WellFormed(g) && LongsOk(g, l) && Placed(g, o) && AllFit(g, l, o) && o != []
    requires Total(g, l, o) <= |f| && Holds(f, |f| - Total(g, l, o), Program(g, l, o))
    ensures var o', b := o[..|o| - 1], o[|o| - 1];
            && Placed(g, o') && AllFit(g, l, o') && Placeable(g, o', b) && Fits(g, l, o', b)
            && Total(g, l, o) == Total(g, l, o') + Room(g, l, b)
            && Holds(f, |f| - Total(g, l, o), Body(g[b].stmts))
            && Holds(f, |f| - Total(g, l, o) + |Body(g[b].stmts)|, Tail(g, l, o', b))
            && Holds(f, |f| - Total(g, l, o'), Program(g, l, o'))
  {
    hide Holds, Tail, Fits;
    var last := |o| - 1;
    var body, tail := Body(g[o[last]].stmts), Tail(g, l, o[..last], o[last]);
    HoldsParts(f, |f| - Total(g, l, o), body + tail, Program(g, l, o[..last]));
    HoldsParts(f, |f| - Total(g, l, o), body, tail);
    TailLength(g, l, o[..last], o[last]);
  }

  lemma TailLength(g: Graph, l: Longs, o: seq<nat>, b: nat)
    requires WellFormed(g) && LongsOk(g, l) && InGraph(g, o) && b < |g|
    requires !IsLeaf(g[b]) ==> g[b].jt in o && g[b].jf in o
    requires Fits(g, l, o, b)
    ensures |Body(g[b].stmts)| + |Tail(g, l, o, b)| == Room(g, l, b)
  {
  }

  /** From the start of any placed block, the flat program returns what the graph returns. */
  lemma {:induction false} RunPlaced(g: Graph, rank: seq<nat>, l: Longs, o: seq<nat>, f: seq<Insn>,
                                     b: nat, st: State, p: Packet)
    requires Ranked(g, rank) && StraightLine(g) && LongsOk(g, l) && Placed(g, o) && AllFit(g, l, o)
    requires Total(g, l, o) <= INT_MAX && b in o
    requires Total(g, l, o) <= |f| && Holds(f, |f| - Total(g, l, o), Program(g, l, o))
    ensures b < |g|
    ensures Run(f, |f| - FromEnd(g, l, o, b), st, p, FromEnd(g, l, o, b)) == Some(RunGraph(g, rank, b, st, p))
    decreases |o|
  {
    hide Run, RunGraph, Holds, StepAt, Program, AllFit, Tail, Body, Fits, Room, Total;
    hide Placed, LongsOk, StraightLine, Distance;
    var o' := o[..|o| - 1];
    UnfoldProgram(g, l, o, f);
    if o[|o| - 1] == b {
      var c, st', fuel := RunFront(g, rank, l, o', b, f, |f| - Total(g, l, o), st, p);
      if c != NIL {
        RunPlaced(g, rank, l, o', f, c, st', p);
        MoreFuel(f, |f| - FromEnd(g, l, o', c), st', p, FromEnd(g, l, o', c), fuel);
      }
    } else {
      RunPlaced(g, rank, l, o', f, b, st, p);
    }
  }
}
