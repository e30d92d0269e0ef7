/** What the emitter produces, the validator accepts. */
module Acceptance {
  import opened Words
  import opened Machine
  import opened FlowGraph
  import opened Layout
  import opened Validator
  import opened Simulation

  /** A statement the code generator may put in a block. */
  predicate Legal(s: Stmt)
  {
    match s.code
    case LdMem => s.k < MEMWORDS
    case LdxMem => s.k < MEMWORDS
    case St => s.k < MEMWORDS
    case Stx => s.k < MEMWORDS
    case Alu(op, src) => (op == Div || op == Mod) && src == K ==> s.k != 0
    case c => Straight(c)
  }

  predicate LegalGraph(g: Graph)
  {
    forall b, i :: 0 <= b < |g| && 0 <= i < |g[b].stmts| ==> Legal(g[b].stmts[i])
  }

  ghost predicate OkBetween(f: seq<Insn>, from: nat, to: nat)
    requires to <= |f|
  {
    forall i :: from <= i < to ==> InsnOk(f[i], i, |f|)
  }

  lemma {:induction false} BodyOk(f: seq<Insn>, at: nat, ss: seq<Stmt>)
    requires Holds(f, at, Body(ss)) && |f| <= INT_MAX && forall i :: 0 <= i < |ss| ==> Legal(ss[i])
    ensures OkBetween(f, at, at + |Body(ss)|)
    decreases |ss|
  {
    hide InsnOk, Legal, Encode;
    if ss != [] {
      if ss[0].code.Nop? {
        BodyOk(f, at, ss[1..]);
      } else {
        HoldsParts(f, at, [EncodeStmt(ss[0])], Body(ss[1..]));
        HoldsAt(f, at, [EncodeStmt(ss[0])], 0);
        BodyOk(f, at + 1, ss[1..]);
        StmtOk(f, at, ss[0]);
      }
    }
  }

  lemma StmtOk(f: seq<Insn>, at: nat, s: Stmt)
    requires at < |f| <= INT_MAX && !s.code.Nop? && Legal(s) && f[at] == EncodeStmt(s)
    ensures InsnOk(f[at], at, |f|)
  {
    EncodedFields(s.code, f[at], at, |f|);
    hide InsnOk, Encode;
  }

  /** A branch whose targets lie inside the program is accepted, whichever way it is written. */
  lemma BranchOk(f: seq<Insn>, at: nat, s: Stmt, dt: nat, df: nat, extra: nat)
    requires s.code.Jmp? && (if dt >= 256 then 1 else 0) + (if df >= 256 then 1 else 0) <= extra
    requires Holds(f, at, Branch(s, dt, df, extra)) && |f| <= INT_MAX
    requires at + 1 + dt < |f| && at + 1 + df < |f| && at + 1 + extra < |f|
    ensures OkBetween(f, at, at + 1 + extra)
  {
    var e := if dt >= 256 then 1 else 0;
    forall i | at <= i < at + 1 + extra ensures InsnOk(f[i], i, |f|) {
      HoldsAt(f, at, Branch(s, dt, df, extra), i - at);
      hide InsnOk, Encode, Holds, Signed;
      if i == at {
        EncodedFields(s.code, f[i], i, |f|);
      } else if i == at + 1 && dt >= 256 {
        JumpOk(f[i], i, dt - 1, |f|);
      } else if i == at + 1 + e && df >= 256 {
        JumpOk(f[i], i, df - e - 1, |f|);
      } else {
        EncodedFields(LdImm, f[i], i, |f|);
        BlankCode();
      }
    }
  }

  lemma BlankCode()
    ensures BLANK.code == Encode(LdImm)
  {
  }

  lemma JumpOk(i: Insn, at: nat, k: nat, len: nat)
    requires at + 1 + k < len <= INT_MAX && i == JumpAlways(k)
    ensures InsnOk(i, at, len)
  {
    EncodedFields(Ja, i, at, len);
    hide InsnOk, Encode;
  }

  lemma LeafOk(f: seq<Insn>, at: nat, s: Stmt)
    requires at < |f| <= INT_MAX && IsReturn(s.code) && f[at] == EncodeStmt(s)
    ensures InsnOk(f[at], at, |f|) && Class(f[at].code) == 6
  {
    EncodedFields(s.code, f[at], at, |f|);
    hide InsnOk, Encode;
  }

  lemma TailOk(g: Graph, l: Longs, o: seq<nat>, b: nat, f: seq<Insn>, at: nat)
    requires WellFormed(g) && LongsOk(g, l) && InGraph(g, o) && Placeable(g, o, b) && Fits(g, l, o, b)
    requires Holds(f, at, Tail(g, l, o, b)) && |f| <= INT_MAX
    requires at + 1 + l.jt[b] + l.jf[b] + Total(g, l, o) == |f|
    ensures OkBetween(f, at, at + 1 + l.jt[b] + l.jf[b])
    ensures IsLeaf(g[b]) ==> Class(f[at].code) == 6
  {
    hide InsnOk, Encode, Total, FromEnd, Class, Branch, Holds;
    if IsLeaf(g[b]) {
      HoldsAt(f, at, [EncodeStmt(g[b].s)], 0);
      LeafOk(f, at, g[b].s);
    } else {
      DistanceBounds(g, l, o, b, g[b].jt);
      DistanceBounds(g, l, o, b, g[b].jf);
      BranchOk(f, at, g[b].s, Distance(g, l, o, b, g[b].jt), Distance(g, l, o, b, g[b].jf), l.jt[b] + l.jf[b]);
    }
  }

  lemma {:induction false} ProgramOk(g: Graph, l: Longs, o: seq<nat>, f: seq<Insn>)
    requires WellFormed(g) && LongsOk(g, l) && LegalGraph(g) && Placed(g, o) && AllFit(g, l, o)
    requires Total(g, l, o) <= |f| <= INT_MAX && Holds(f, |f| - Total(g, l, o), Program(g, l, o))
    ensures OkBetween(f, |f| - Total(g, l, o), |f|)
    ensures o != [] ==> |f| >= 1 && Class(f[|f| - 1].code) == 6
    decreases |o|
  {
    hide InsnOk, Class, Holds, Tail, Body, Program, AllFit, Fits, LongsOk, WellFormed;
    if o != [] {
      var o', b := o[..|o| - 1], o[|o| - 1];
      UnfoldProgram(g, l, o, f);
      ProgramOk(g, l, o', f);
      var pc := |f| - Total(g, l, o);
      BodyOk(f, pc, g[b].stmts);
      RoomShape(g, l, b);
      hide Total, Room;
      TailOk(g, l, o', b, f, pc + |Body(g[b].stmts)|);
      if o' == [] { NothingPlaced(g, l); }
    }
  }

  lemma NothingPlaced(g: Graph, l: Longs)
    requires LongsOk(g, l)
    ensures Total(g, l, []) == 0
  {
  }

  lemma RoomShape(g: Graph, l: Longs, b: nat)
    requires LongsOk(g, l) && b < |g|
    ensures |l.jt| == |g| == |l.jf| && Room(g, l, b) == |Body(g[b].stmts)| + 1 + l.jt[b] + l.jf[b]
    ensures IsLeaf(g[b]) ==> l.jt[b] == 0 == l.jf[b]
  {
  }

  /** Every laid-out program of legal statements passes the static check. */
  lemma LaidOutIsAccepted(g: Graph, l: Longs, o: seq<nat>)
    requires WellFormed(g) && LongsOk(g, l) && LegalGraph(g) && Placed(g, o) && AllFit(g, l, o) && o != []
    requires Total(g, l, o) <= INT_MAX
    ensures Accepted(Program(g, l, o))
  {
    hide InsnOk, Class, Program, Total, AllFit, Placed, LongsOk, WellFormed, LegalGraph;
    var f := Program(g, l, o);
    assert Holds(f, 0, f);
    ProgramOk(g, l, o, f);
  }
}
