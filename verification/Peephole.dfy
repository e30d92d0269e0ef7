/** Peephole rewriting of a block's statements and of the branch that closes it. */
module Peephole {
  import opened Words
  import opened Machine
  import opened FlowGraph
  import opened Liveness
  import opened ValueNumbers
  import opened ValueRewrite

  // ------------------------------------------------------- places in a list

  /** The first statement from i on that is not deleted; the length if there is none. */
  function ThisOp(ss: seq<Stmt>, i: nat): (j: nat)
    requires i <= |ss|
    ensures i <= j <= |ss| && (j < |ss| ==> ss[j].code != Nop)
    ensures forall k :: i <= k < j ==> ss[k].code == Nop
    decreases |ss| - i
  {
    if i < |ss| && ss[i].code == Nop then ThisOp(ss, i + 1) else i
  }

  function Then(o: Outcome, ss: seq<Stmt>, p: Packet): Outcome
  {
    match o case Next(st) => ExecList(ss, st, p) case other => other
  }

  lemma RunFrom(ss: seq<Stmt>, i: nat, st: State, p: Packet)
    requires i <= |ss|
    ensures ExecList(ss, st, p) == Then(ExecList(ss[..i], st, p), ss[i..], p)
  {
    ExecAppend(ss[..i], ss[i..], st, p);
    assert ss == ss[..i] + ss[i..];
  }

  lemma {:induction false} SkipNops(ss: seq<Stmt>, i: nat, j: nat, st: State, p: Packet)
    requires i <= j <= |ss| && forall k :: i <= k < j ==> ss[k].code == Nop
    ensures ExecList(ss[i..], st, p) == ExecList(ss[j..], st, p)
    decreases j - i
  {
    if i < j {
      assert ss[i..][1..] == ss[i + 1..];
      NopDoesNothing(ss[i], st, p);
      SkipNops(ss, i + 1, j, st, p);
    }
  }

  /** One real statement, then the rest from the next real one on. */
  lemma RunOp(ss: seq<Stmt>, i: nat, j: nat, st: State, p: Packet)
    requires i < j <= |ss| && forall k :: i < k < j ==> ss[k].code == Nop
    ensures ExecList(ss[i..], st, p) == Then(Exec(ss[i], st, p), ss[j..], p)
  {
    hide Exec;
    assert ss[i..][1..] == ss[i + 1..];
    match Exec(ss[i], st, p)
    case Next(st') => SkipNops(ss, i + 1, j, st', p);
    case _ =>
  }

  /** Lists that are the same up to i run the same from i on if they do so from every state. */
  lemma SamePrefix(ss: seq<Stmt>, ss': seq<Stmt>, i: nat, st: State, p: Packet)
    requires i <= |ss| == |ss'| && ss[..i] == ss'[..i]
    requires forall u :: ExecList(ss[i..], u, p) == ExecList(ss'[i..], u, p)
    ensures ExecList(ss, st, p) == ExecList(ss', st, p)
  {
    RunFrom(ss, i, st, p);
    RunFrom(ss', i, st, p);
  }

  // ------------------------------------------------ two neighbouring statements

  /** st M[k]; ldx M[k] becomes st M[k]; tax. */
  predicate StoreLoad(ss: seq<Stmt>, i: nat, j: nat)
  {
    i < j < |ss| && ss[i].code == St && ss[j].code == LdxMem && ss[i].k == ss[j].k
  }

  /** ld #k; tax becomes ldx #k; txa. */
  predicate LoadTax(ss: seq<Stmt>, i: nat, j: nat)
  {
    i < j < |ss| && ss[i].code == LdImm && ss[j].code == Tax
  }

  ghost predicate NopsBetween(ss: seq<Stmt>, i: nat, j: nat)
  {
    j <= |ss| && forall k :: i < k < j ==> ss[k].code == Nop
  }

  function PairEdited(ss: seq<Stmt>, i: nat, j: nat): (r: seq<Stmt>)
    requires i < j < |ss|
    ensures |r| == |ss|
  {
    if StoreLoad(ss, i, j) then ss[j := ss[j].(code := Tax)]
    else ss[i := ss[i].(code := LdxImm)][j := ss[j].(code := Txa)]
  }

  /** Both rewritings leave the same registers and memory, whatever the state. */
  lemma PairKeepsState(ss: seq<Stmt>, i: nat, j: nat, st: State, p: Packet)
    requires NopsBetween(ss, i, j) && (StoreLoad(ss, i, j) || LoadTax(ss, i, j))
    ensures ExecList(PairEdited(ss, i, j), st, p) == ExecList(ss, st, p)
  {
    hide Exec, ExecList;
    var ss' := PairEdited(ss, i, j);
    assert ss[j + 1..] == ss'[j + 1..];
    forall u ensures ExecList(ss[i..], u, p) == ExecList(ss'[i..], u, p) {
      RunOp(ss, i, j, u, p);
      RunOp(ss', i, j, u, p);
      PairSame(ss[i], ss[j], ss'[i], ss'[j], u, p);
      match Exec(ss[i], u, p) {
        case Next(u1) => RunOp(ss, j, j + 1, u1, p);
        case _ =>
      }
      match Exec(ss'[i], u, p) {
        case Next(u1) => RunOp(ss', j, j + 1, u1, p);
        case _ =>
      }
    }
    assert ss[..i] == ss'[..i];
    SamePrefix(ss, ss', i, st, p);
  }

  function Both(s: Stmt, s': Stmt, st: State, p: Packet): Outcome
  {
    match Exec(s, st, p) case Next(u) => Exec(s', u, p) case other => other
  }

  lemma PairSame(s0: Stmt, s1: Stmt, t0: Stmt, t1: Stmt, st: State, p: Packet)
    requires (s0.code == St && s1.code == LdxMem && s0.k == s1.k && t0 == s0 && t1 == s1.(code := Tax)) ||
             (s0.code == LdImm && s1.code == Tax && t0 == s0.(code := LdxImm) && t1 == s1.(code := Txa))
    ensures Both(s0, s1, st, p) == Both(t0, t1, st, p)
  {
  }

  // ---------------------------------------------------- constant plus index

  /** Where ldi #k, an optional ldxms, addx, tax and ild stand; msh == add without ldxms. */
  datatype Places = Places(ldi: nat, msh: nat, add: nat, tax: nat, ild: nat)

  ghost predicate Fusible(ss: seq<Stmt>, f: Places)
  {
    && f.ldi < f.msh <= f.add < f.tax < f.ild < |ss|
    && NopsBetween(ss, f.ldi, f.msh) && NopsBetween(ss, f.msh, f.add) && NopsBetween(ss, f.add, f.tax) &&
      NopsBetween(ss, f.tax, f.ild)
    && ss[f.ldi].code == LdImm && (f.msh < f.add ==> ss[f.msh].code == LdxMsh)
    && ss[f.add].code == Alu(Add, X) && ss[f.tax].code == Tax && ss[f.ild].code.LdInd?
  }

  /** The constant goes into the load's offset; loading and adding it disappear. */
  function Fuse(ss: seq<Stmt>, f: Places): (r: seq<Stmt>)
    requires f.ldi < f.add < f.tax < f.ild < |ss|
    ensures |r| == |ss|
  {
    ss[f.ild := ss[f.ild].(k := Wrap(ss[f.ild].k + ss[f.ldi].k))]
      [f.ldi := Deleted(ss[f.ldi])][f.add := Deleted(ss[f.add])][f.tax := Deleted(ss[f.tax])]
  }

  /** The index register as the addition finds it. */
  function IndexAt(ss: seq<Stmt>, f: Places, u: State, p: Packet): Word
    requires f.msh <= f.add < |ss|
  {
    if f.msh < f.add then (if ss[f.msh].k < |p.data| then (p.data[ss[f.msh].k] % 16) * 4 else 0) else u.x
  }

  /** What the statements of the sequence do, one at a time. */
  lemma PlainOps(s: Stmt, u: State, p: Packet)
    ensures s.code == LdImm ==> Exec(s, u, p) == Next(u.(a := s.k))
    ensures s.code == LdxMsh ==>
              Exec(s, u, p) == if s.k < |p.data| then Next(u.(x := (p.data[s.k] % 16) * 4)) else Reject
    ensures s.code == Alu(Add, X) ==> Exec(s, u, p) == Next(u.(a := Wrap(u.a + u.x)))
    ensures s.code == Tax ==> Exec(s, u, p) == Next(u.(x := u.a))
  {
  }

  lemma FusedOld(ss: seq<Stmt>, f: Places, u: State, p: Packet)
    requires Fusible(ss, f) && ExecList(ss[f.ldi..], u, p).Next?
    ensures f.msh < f.add ==> ss[f.msh].k < |p.data|
    ensures var y := Wrap(ss[f.ldi].k + IndexAt(ss, f, u, p));
            ExecList(ss[f.ldi..], u, p) == Then(Exec(ss[f.ild], u.(a := y, x := y), p), ss[f.ild + 1..], p)
  {
    hide ExecList, Exec, Wrap;
    var k, x := ss[f.ldi].k, IndexAt(ss, f, u, p);
    RunOp(ss, f.ldi, f.msh, u, p);
    PlainOps(ss[f.ldi], u, p);
    if f.msh < f.add {
      RunOp(ss, f.msh, f.add, u.(a := k), p);
      PlainOps(ss[f.msh], u.(a := k), p);
    }
    AddAndMove(ss, f, u.(a := k, x := x), p);
  }

  lemma AddAndMove(ss: seq<Stmt>, f: Places, u: State, p: Packet)
    requires Fusible(ss, f)
    ensures var y := Wrap(u.a + u.x);
            ExecList(ss[f.add..], u, p) == Then(Exec(ss[f.ild], u.(a := y, x := y), p), ss[f.ild + 1..], p)
  {
    hide ExecList, Exec, Wrap;
    var y := Wrap(u.a + u.x);
    RunOp(ss, f.add, f.tax, u, p);
    PlainOps(ss[f.add], u, p);
    RunOp(ss, f.tax, f.ild, u.(a := y), p);
    PlainOps(ss[f.tax], u.(a := y), p);
    RunOp(ss, f.ild, f.ild + 1, u.(a := y, x := y), p);
  }

  /** The constant k, the index x and the offset add up the same in either order: k + x does not wrap, or
      k + offset wraps as well. */
  predicate SumFits(k: Word, x: Word, offset: Word) { k + x < TWO32 || k + offset >= TWO32 }

  /** The statements up to and including the load, from the state before them. */
  lemma FusedOps(ss: seq<Stmt>, f: Places, u: State, p: Packet)
    requires Fusible(ss, f) && ExecList(ss[f.ldi..], u, p).Next?
    ensures exists w: Word ::
              var k, x := ss[f.ldi].k, IndexAt(ss, f, u, p);
              && ExecList(ss[f.ldi..], u, p) == ExecList(ss[f.ild + 1..], u.(a := w, x := Wrap(k + x)), p)
              && ExecList(Fuse(ss, f)[f.ldi..], u, p) ==
                 if SumFits(k, x, ss[f.ild].k) then ExecList(Fuse(ss, f)[f.ild + 1..], u.(a := w, x := x), p)
                   else Reject
  {
    hide ExecList, Fetch, Exec, IndexAt, SumFits, Wrap;
    var k, x := ss[f.ldi].k, IndexAt(ss, f, u, p);
    FusedOld(ss, f, u, p);
    FusedNew(ss, f, u, p);
    var z, off: Word := ss[f.ild].code.size, ss[f.ild].k;
    assert Fuse(ss, f)[f.ild] == Stmt(LdInd(z), Wrap(off as int + k)) && ss[f.ild] == Stmt(LdInd(z), off);
    var y := Wrap(k as int + x);
    var v, v' := u.(a := y, x := y), u.(x := x);
    assert Exec(ss[f.ild], v, p).Next?;
    LoadShifts(z, off, k, x, v, v', p);
    var w := Exec(ss[f.ild], v, p).st.a;
    assert v.(a := w) == u.(a := w, x := y) && v'.(a := w) == u.(a := w, x := x);
    assert ExecList(ss[f.ldi..], u, p) == ExecList(ss[f.ild + 1..], u.(a := w, x := y), p);
  }

  /** What is left of the sequence: the optional ldxms and the load. */
  lemma FusedNew(ss: seq<Stmt>, f: Places, u: State, p: Packet)
    requires Fusible(ss, f) && (f.msh < f.add ==> ss[f.msh].k < |p.data|)
    ensures var ss', x := Fuse(ss, f), IndexAt(ss, f, u, p);
            ExecList(ss'[f.ldi..], u, p) == Then(Exec(ss'[f.ild], u.(x := x), p), ss'[f.ild + 1..], p)
  {
    hide ExecList, Exec;
    var ss', x := Fuse(ss, f), IndexAt(ss, f, u, p);
    if f.msh < f.add {
      SkipNops(ss', f.ldi, f.msh, u, p);
      RunOp(ss', f.msh, f.ild, u, p);
      PlainOps(ss'[f.msh], u, p);
    } else {
      SkipNops(ss', f.ldi, f.ild, u, p);
    }
    RunOp(ss', f.ild, f.ild + 1, u.(x := x), p);
  }

  /** A constant moved from the index register to the offset: the same bytes are loaded, or none. */
  lemma LoadShifts(z: Size, off: Word, k: Word, x: Word, u: State, v: State, p: Packet)
    requires u.x == Wrap(k + x) && v.x == x && Exec(Stmt(LdInd(z), off), u, p).Next?
    ensures var w := Exec(Stmt(LdInd(z), off), u, p).st.a;
            && Exec(Stmt(LdInd(z), off), u, p) == Next(u.(a := w))
            && Exec(Stmt(LdInd(z), Wrap(off + k)), v, p) == if SumFits(k, x, off) then Next(v.(a := w)) else Reject
  {
    hide Fetch, IndInside, Exec;
    var y: int := u.x;
    assert y == if k + x < TWO32 then k + x else k + x - TWO32;
    LoadIs(z, off, u, p);
    LoadIs(z, Wrap(off + k), v, p);
    SumsAgree(off, k, x, y);
  }

  lemma LoadIs(z: Size, off: Word, u: State, p: Packet)
    ensures Exec(Stmt(LdInd(z), off), u, p) ==
            if u.x + off + Bytes(z) <= |p.data| then Next(u.(a := Fetch(p, z, u.x + off))) else Reject
  {
    hide Fetch;
  }

  lemma SumsAgree(off: Word, k: Word, x: Word, y: int)
    requires y == Wrap(k + x) && y + off < TWO32
    ensures SumFits(k, x, off) ==> x + Wrap(off + k) == y + off
    ensures !SumFits(k, x, off) ==> x + Wrap(off + k) >= TWO32
  {
  }

  /** Nothing after the load reads the index register before setting it. */
  ghost predicate IndexDead(ss: seq<Stmt>, f: Places, needs: set<nat>)
    requires f.ild < |ss|
  {
    X_ATOM !in Exposed(ss[f.ild + 1..]) && (X_ATOM in needs ==> X_ATOM in Defs(ss[f.ild + 1..]))
  }

  /** The sum comes out the same on this run. */
  ghost predicate SumFitsOn(ss: seq<Stmt>, f: Places, st: State, p: Packet)
    requires f.ldi < f.add < f.ild < |ss| && f.msh <= f.add
  {
    match ExecList(ss[..f.ldi], st, p)
    case Next(u) => SumFits(ss[f.ldi].k, IndexAt(ss, f, u, p), ss[f.ild].k)
    case _ => true
  }

  /** The outcomes of the two lists, when the first one runs through. */
  ghost predicate Keeps(ss: seq<Stmt>, ss': seq<Stmt>, needs: set<nat>, st: State, p: Packet)
  {
    match ExecList(ss, st, p)
    case Next(t) => SameOutcome(Next(t), ExecList(ss', st, p), needs)
    case _ => true
  }

  /** Fusing keeps every needed register on runs that go through exactly where the sum comes out the same;
      elsewhere the fused load rejects the packet. */
  lemma FusionKeeps(ss: seq<Stmt>, f: Places, needs: set<nat>, st: State, p: Packet)
    requires Fusible(ss, f) && AllInRange(ss) && IndexDead(ss, f, needs)
    ensures SumFitsOn(ss, f, st, p) ==> Keeps(ss, Fuse(ss, f), needs, st, p)
    ensures !SumFitsOn(ss, f, st, p) && ExecList(ss, st, p).Next? ==> ExecList(Fuse(ss, f), st, p) == Reject
  {
    hide ExecList, Fusible, IndexAt, Exposed, Defs, InRange, SumFits, Wrap;
    PlacesOf(ss, f);
    var ss' := Fuse(ss, f);
    RunFrom(ss, f.ldi, st, p);
    RunFrom(ss', f.ldi, st, p);
    assert ss'[..f.ldi] == ss[..f.ldi];
    assert ss'[f.ild + 1..] == ss[f.ild + 1..];
    match ExecList(ss[..f.ldi], st, p)
    case Next(u) =>
      if ExecList(ss[f.ldi..], u, p).Next? {
        FusedOps(ss, f, u, p);
        var rest, k, x := ss[f.ild + 1..], ss[f.ldi].k, IndexAt(ss, f, u, p);
        var y := Wrap(k as int + x);
        var w :| ExecList(ss[f.ldi..], u, p) == ExecList(rest, u.(a := w, x := y), p) &&
                 ExecList(ss'[f.ldi..], u, p) ==
                 if SumFits(k, x, ss[f.ild].k) then ExecList(rest, u.(a := w, x := x), p) else Reject;
        RestSame(rest, u.(a := w, x := y), u.(a := w, x := x), p, needs);
      }
    case _ =>
  }

  lemma PlacesOf(ss: seq<Stmt>, f: Places)
    requires Fusible(ss, f)
    ensures f.ldi < f.add < f.tax < f.ild < |ss| && f.ldi < f.msh <= f.add
  {
  }

  lemma RestSame(rest: seq<Stmt>, st: State, st': State, p: Packet, needs: set<nat>)
    requires AllInRange(rest) && st' == st.(x := st'.x)
    requires X_ATOM !in Exposed(rest) && (X_ATOM in needs ==> X_ATOM in Defs(rest))
    ensures SameOutcome(ExecList(rest, st, p), ExecList(rest, st', p), needs)
  {
    hide ExecList, Exposed, Defs, InRange;
    var atoms := Exposed(rest) + (needs - {X_ATOM});
    assert Agree(st, st', atoms);
    ListReadsExposed(rest, st, st', p, atoms);
  }

  // A sum that does not come out the same: the machine adds offset and index without wrapping.

  const WRAPPING: seq<Stmt> := [Stmt(LdImm, 2), Stmt(Alu(Add, X), 0), Stmt(Tax, 0), Stmt(LdInd(B), 0)]
  const ITS_PLACES: Places := Places(0, 1, 1, 2, 3)

  lemma WrappedOld(st: State, p: Packet)
    requires st.x == 0xffff_ffff && |p.data| == 2
    ensures ExecList(WRAPPING, st, p) == Next(st.(a := p.data[1], x := 1))
  {
    hide ExecList;
    var s := WRAPPING;
    assert s[0..] == s && s[4..] == [];
    RunOp(s, 0, 1, st, p);
    RunOp(s, 1, 2, st.(a := 2), p);
    RunOp(s, 2, 3, st.(a := 1), p);
    RunOp(s, 3, 4, st.(a := 1, x := 1), p);
    RunNothing(st.(a := p.data[1], x := 1), p);
  }

  lemma WrappedNew(st: State, p: Packet)
    requires st.x == 0xffff_ffff && |p.data| == 2
    ensures ExecList(Fuse(WRAPPING, ITS_PLACES), st, p) == Reject
  {
    hide ExecList;
    var s' := Fuse(WRAPPING, ITS_PLACES);
    assert s'[0..] == s';
    SkipNops(s', 0, 3, st, p);
    RunOp(s', 3, 4, st, p);
  }

  lemma WrappedFusionRejects(st: State, p: Packet)
    requires st.x == 0xffff_ffff && |p.data| == 2
    ensures Fusible(WRAPPING, ITS_PLACES) && !SumFitsOn(WRAPPING, ITS_PLACES, st, p)
    ensures ExecList(WRAPPING, st, p) == Next(st.(a := p.data[1], x := 1))
    ensures ExecList(Fuse(WRAPPING, ITS_PLACES), st, p) == Reject
  {
    hide ExecList;
    WrappedOld(st, p);
    WrappedNew(st, p);
    assert WRAPPING[..0] == [];
    RunNothing(st, p);
  }

  // ------------------------------------------------------- a block's statements

  /** One rewriting and where it was made. */
  datatype Edit = PairEdit(i: nat, j: nat) | FuseEdit(f: Places)

  ghost predicate EditOk(ss: seq<Stmt>, e: Edit)
  {
    match e
    case PairEdit(i, j) => NopsBetween(ss, i, j) && (StoreLoad(ss, i, j) || LoadTax(ss, i, j))
    case FuseEdit(f) => Fusible(ss, f)
  }

  ghost function Edited(ss: seq<Stmt>, e: Edit): (r: seq<Stmt>)
    requires EditOk(ss, e)
    ensures |r| == |ss|
  {
    match e case PairEdit(i, j) => PairEdited(ss, i, j) case FuseEdit(f) => Fuse(ss, f)
  }

  /** A run of rewritings from ss to ss'. */
  ghost predicate Rewrites(ss: seq<Stmt>, es: seq<Edit>, ss': seq<Stmt>)
    decreases |es|
  {
    if es == [] then ss' == ss else EditOk(ss, es[0]) && Rewrites(Edited(ss, es[0]), es[1..], ss')
  }

  /** What fusing needs on a run: an index register that is dead afterwards, and no overflow. */
  ghost predicate Safe(ss: seq<Stmt>, es: seq<Edit>, needs: set<nat>, st: State, p: Packet)
    decreases |es|
  {
    es == [] ||
    (EditOk(ss, es[0]) && Safe(Edited(ss, es[0]), es[1..], needs, st, p) &&
     match es[0]
     case PairEdit(_, _) => true
     case FuseEdit(f) => IndexDead(ss, f, needs) && SumFitsOn(ss, f, st, p))
  }

  lemma EditKeeps(ss: seq<Stmt>, e: Edit, needs: set<nat>, st: State, p: Packet)
    requires AllInRange(ss) && EditOk(ss, e)
    requires e.FuseEdit? ==> IndexDead(ss, e.f, needs) && SumFitsOn(ss, e.f, st, p)
    ensures AllInRange(Edited(ss, e)) && Keeps(ss, Edited(ss, e), needs, st, p)
  {
    hide ExecList, IndexDead, SumFitsOn;
    match e
    case PairEdit(i, j) => PairKeepsState(ss, i, j, st, p);
    case FuseEdit(f) => FusionKeeps(ss, f, needs, st, p);
  }

  /** Rewriting the statements keeps every register that is needed, on runs that go through. */
  lemma {:induction false} RewritesKeep(ss: seq<Stmt>, es: seq<Edit>, ss': seq<Stmt>, needs: set<nat>, st: State,
                                        p: Packet)
    requires AllInRange(ss) && Rewrites(ss, es, ss') && Safe(ss, es, needs, st, p)
    ensures Keeps(ss, ss', needs, st, p)
    decreases |es|
  {
    hide ExecList, EditOk, Edited, IndexDead, SumFitsOn, AllInRange;
    if es != [] {
      EditKeeps(ss, es[0], needs, st, p);
      RewritesKeep(Edited(ss, es[0]), es[1..], ss', needs, st, p);
    }
  }

  lemma {:induction false} RewriteMore(ss: seq<Stmt>, es: seq<Edit>, ss': seq<Stmt>, e: Edit)
    requires Rewrites(ss, es, ss') && EditOk(ss', e)
    ensures Rewrites(ss, es + [e], Edited(ss', e))
    decreases |es|
  {
    hide EditOk, Edited;
    if es == [] {
      assert [e][1..] == [];
    } else {
      RewriteMore(Edited(ss, es[0]), es[1..], ss', e);
      assert (es + [e])[1..] == es[1..] + [e];
    }
  }

  /** The addx, tax and ild after a load of a constant, if they are there. */
  function FindFusion(ss: seq<Stmt>, s: nat, next: nat): (r: Option<Places>)
    requires s < next < |ss| && ss[s].code == LdImm && next == ThisOp(ss, s + 1)
    ensures r.Some? ==> Fusible(ss, r.value)
  {
    var add := if ss[next].code != LdxMsh then next else ThisOp(ss, next + 1);
    if add == |ss| || ss[add].code != Alu(Add, X) then None
    else
      var tax := ThisOp(ss, add + 1);
      if tax == |ss| || ss[tax].code != Tax then None
      else
        var ild := ThisOp(ss, tax + 1);
        if ild == |ss| || !ss[ild].code.LdInd? then None
        else Some(Places(s, next, add, tax, ild))
  }

  /** If it is not deleted, the statement at `last` is the last that is not. */
  ghost predicate LastReal(ss: seq<Stmt>, last: nat)
  {
    last < |ss| && (ss[last].code != Nop ==> NopsBetween(ss, last, |ss|))
  }

  /** The three rules, one after the other, at statement s and the next one. */
  function PeepAt(ss: seq<Stmt>, s: nat, next: nat, outUse: set<nat>): (r: seq<Stmt>)
    requires s < next < |ss| && next == ThisOp(ss, s + 1)
    ensures |r| == |ss|
  {
    var ss1 := if StoreLoad(ss, s, next) then PairEdited(ss, s, next) else ss;
    var ss2 := if LoadTax(ss1, s, next) then PairEdited(ss1, s, next) else ss1;
    if ss2[s].code == LdImm && X_ATOM !in outUse then
      SameThisOp(ss2, s + 1, next);
      match FindFusion(ss2, s, next) case Some(f) => Fuse(ss2, f) case None => ss2
    else ss2
  }

  /** The walk from statement s on, and the last statement it saw. */
  function PeepFrom(ss: seq<Stmt>, s: nat, outUse: set<nat>): (seq<Stmt>, nat)
    requires s < |ss|
    decreases |ss| - s
  {
    var i := ThisOp(ss, s);
    if i == |ss| then (ss, s)
    else
      var next := ThisOp(ss, i + 1);
      if next == |ss| then (ss, s) else PeepFrom(PeepAt(ss, i, next, outUse), next, outUse)
  }

  /** The rules at one place, recorded as edits. */
  method PeepOne(ss1: seq<Stmt>, s: nat, next: nat, outUse: set<nat>, ghost ss0: seq<Stmt>, ghost es1: seq<Edit>)
    returns (ss: seq<Stmt>, ghost es: seq<Edit>)
    requires s < next < |ss1| && next == ThisOp(ss1, s + 1) && Rewrites(ss0, es1, ss1)
    requires X_ATOM in outUse ==> OnlyPairs(es1)
    ensures ss == PeepAt(ss1, s, next, outUse) && Rewrites(ss0, es, ss) && (X_ATOM in outUse ==> OnlyPairs(es))
  {
    hide Rewrites, FindFusion, PairEdited, Fuse, EditOk, StoreLoad, LoadTax, OnlyPairs, ThisOp;
    ss, es := ss1, es1;
    if StoreLoad(ss, s, next) {
      PairIsEdit(ss, s, next);
      RewriteMore(ss0, es, ss, PairEdit(s, next));
      MorePairs(es, PairEdit(s, next));
      es, ss := es + [PairEdit(s, next)], PairEdited(ss, s, next);
    }
    if LoadTax(ss, s, next) {
      PairIsEdit(ss, s, next);
      RewriteMore(ss0, es, ss, PairEdit(s, next));
      MorePairs(es, PairEdit(s, next));
      es, ss := es + [PairEdit(s, next)], PairEdited(ss, s, next);
    }
    StillNext(ss1, ss, s, next);
    if ss[s].code == LdImm && X_ATOM !in outUse {
      match FindFusion(ss, s, next) {
        case None =>
        case Some(f) =>
          FusionIsEdit(ss, f);
          RewriteMore(ss0, es, ss, FuseEdit(f));
          es, ss := es + [FuseEdit(f)], Fuse(ss, f);
      }
    }
  }

  ghost predicate OnlyPairs(es: seq<Edit>) { forall i :: 0 <= i < |es| ==> es[i].PairEdit? }

  lemma MorePairs(es: seq<Edit>, e: Edit)
    requires e.PairEdit?
    ensures OnlyPairs(es) ==> OnlyPairs(es + [e])
  {
  }

  /** Pairs are rewritten rightly whatever the run. */
  lemma {:induction false} PairsAreSafe(ss: seq<Stmt>, es: seq<Edit>, ss': seq<Stmt>, needs: set<nat>, st: State,
                                        p: Packet)
    requires Rewrites(ss, es, ss') && OnlyPairs(es)
    ensures Safe(ss, es, needs, st, p)
    decreases |es|
  {
    if es != [] { PairsAreSafe(Edited(ss, es[0]), es[1..], ss', needs, st, p); }
  }

  method PeepStmts(ss0: seq<Stmt>, outUse: set<nat>) returns (ss: seq<Stmt>, last: nat, ghost es: seq<Edit>)
    requires ss0 != []
    ensures (ss, last) == PeepFrom(ss0, 0, outUse)
    ensures Rewrites(ss0, es, ss) && LastReal(ss, last) && (X_ATOM in outUse ==> OnlyPairs(es))
  {
    hide Rewrites, PeepAt, OnlyPairs;
    ss, last, es := ss0, 0, [];
    NoEdits(ss);
    var s := 0;
    while true
      invariant s == last < |ss| && Rewrites(ss0, es, ss) && PeepFrom(ss0, 0, outUse) == PeepFrom(ss, s, outUse)
      invariant X_ATOM in outUse ==> OnlyPairs(es)
      decreases |ss| - s
    {
      s := ThisOp(ss, s);
      if s == |ss| {
        break;
      }
      var next := ThisOp(ss, s + 1);
      if next == |ss| {
        break;
      }
      last := next;
      ss, es := PeepOne(ss, s, next, outUse, ss0, es);
      s := next;
    }
  }

  lemma PairIsEdit(ss: seq<Stmt>, i: nat, j: nat)
    requires i < j < |ss| && j == ThisOp(ss, i + 1) && (StoreLoad(ss, i, j) || LoadTax(ss, i, j))
    ensures EditOk(ss, PairEdit(i, j)) && j == ThisOp(PairEdited(ss, i, j), i + 1)
  {
    SameThisOp(PairEdited(ss, i, j), i + 1, j);
  }

  lemma FusionIsEdit(ss: seq<Stmt>, f: Places)
    requires Fusible(ss, f)
    ensures EditOk(ss, FuseEdit(f))
  {
  }

  /** After the first two rules the next statement is still the next one. */
  lemma StillNext(ss: seq<Stmt>, ss': seq<Stmt>, s: nat, next: nat)
    requires s < next < |ss| && next == ThisOp(ss, s + 1)
    requires var ss1 := if StoreLoad(ss, s, next) then PairEdited(ss, s, next) else ss;
             ss' == if LoadTax(ss1, s, next) then PairEdited(ss1, s, next) else ss1
    ensures |ss'| == |ss| && next == ThisOp(ss', s + 1)
  {
    SameThisOp(ss', s + 1, next);
  }

  lemma NoEdits(ss: seq<Stmt>)
    ensures Rewrites(ss, [], ss) && OnlyPairs([])
  {
  }

  lemma SameThisOp(ss: seq<Stmt>, i: nat, j: nat)
    requires i <= j < |ss| && ss[j].code != Nop && forall k :: i <= k < j ==> ss[k].code == Nop
    ensures ThisOp(ss, i) == j
  {
  }

  // ------------------------------------------------------------- the branch

  /** Both blocks, in the states their statements leave, go the same way. */
  ghost predicate SameWay(n: Node, t: State, n': Node, t': State)
  {
    n.s.code.Jmp? && n'.s.code.Jmp? && Successor(n, Taken(n.s, t)) == Successor(n', Taken(n'.s, t'))
  }

  /** Whether the last statement's arithmetic can move into an equality test. */
  predicate Mergeable(n: Node, last: nat, outUse: set<nat>)
    requires last < |n.stmts|
  {
    n.s.code == Jmp(Jeq, K) && A_ATOM !in outUse && n.stmts[last].code in {Alu(Sub, X), Alu(Sub, K), Alu(And_, K)}
  }

  /** An equality test swallows the subtraction or the mask before it. */
  function MergeCompare(n: Node, last: nat, outUse: set<nat>, v: Values): Node
    requires last < |n.stmts| && |v.val| == N_ATOMS
  {
    var l := n.stmts[last];
    var rest := n.stmts[last := Deleted(l)];
    if !Mergeable(n, last, outUse) then n
    else if l.code == Alu(Sub, X) then
      if IsConst(v.table, v.val[X_ATOM])
        then n.(stmts := rest, s := n.s.(k := Wrap(n.s.k + ConstVal(v.table, v.val[X_ATOM]))))
      else if n.s.k == 0 then n.(stmts := rest, s := n.s.(code := Jmp(Jeq, X)))
      else n
    else if l.code == Alu(Sub, K) then n.(stmts := rest, s := n.s.(k := Wrap(n.s.k + l.k)))
    else if n.s.k == 0 then Node(rest, Stmt(Jmp(Jset, K), l.k), n.jf, n.jt)
    else n
  }

  const ALL_ONES: Word := 0xffff_ffff

  /** jset #0 is never taken; jset #ffffffff is treated as always taken. */
  function ResolveJset(n: Node): Node
  {
    if n.s.code == Jmp(Jset, K) && n.s.k == 0 then n.(jt := n.jf)
    else if n.s.code == Jmp(Jset, K) && n.s.k == ALL_ONES then n.(jf := n.jt)
    else n
  }

  /** A known index register is compared as the constant it is. */
  function CompareConst(n: Node, v: Values): Node
    requires n.s.code.Jmp? && |v.val| == N_ATOMS
  {
    if IsConst(v.table, v.val[X_ATOM]) && n.s.code.src == X then
      n.(s := Stmt(Jmp(n.s.code.jop, K), ConstVal(v.table, v.val[X_ATOM])))
    else n
  }

  /** A comparison of a known accumulator with a constant is decided here. */
  function ResolveConst(n: Node, v: Values): Node
    requires n.s.code.Jmp? && |v.val| == N_ATOMS
  {
    if IsConst(v.table, v.val[A_ATOM]) && n.s.code.src == K then
      (if Compare(n.s.code.jop, ConstVal(v.table, v.val[A_ATOM]), n.s.k) then n.(jf := n.jt) else n.(jt := n.jf))
    else n
  }

  /** What the numbers of A and X say, if they are constants. */
  ghost predicate ConstsHold(v: Values, t: State)
    requires |v.val| == N_ATOMS
  {
    && (IsConst(v.table, v.val[X_ATOM]) ==> t.x == ConstVal(v.table, v.val[X_ATOM]))
    && (IsConst(v.table, v.val[A_ATOM]) ==> t.a == ConstVal(v.table, v.val[A_ATOM]))
  }

  lemma DescribedConsts(v: Values, t: State, p: Packet)
    requires Shaped(v) && Describes(v, t, p)
    ensures ConstsHold(v, t)
  {
    if IsConst(v.table, v.val[X_ATOM]) {
      ConstMeaning(v.table, v.val[X_ATOM], p);
      assert Val(t, X_ATOM) == t.x;
    }
    if IsConst(v.table, v.val[A_ATOM]) {
      ConstMeaning(v.table, v.val[A_ATOM], p);
      assert Val(t, A_ATOM) == t.a;
    }
  }

  /** Deleting the last statement: the state is the one before it. */
  lemma WithoutLast(ss: seq<Stmt>, last: nat, st: State, p: Packet)
    requires LastReal(ss, last) && ss[last].code.Alu? && ExecList(ss, st, p).Next?
    ensures var o := ExecList(ss[last := Deleted(ss[last])], st, p);
            o.Next? && Exec(ss[last], o.st, p) == ExecList(ss, st, p)
  {
    hide Exec, ExecList;
    var ss' := ss[last := Deleted(ss[last])];
    RunFrom(ss, last, st, p);
    RunFrom(ss', last, st, p);
    assert ss[..last] == ss'[..last] && ss[|ss|..] == [] && ss'[|ss|..] == [];
    match ExecList(ss[..last], st, p)
    case Next(u) =>
      RunOp(ss, last, |ss|, u, p);
      SkipNops(ss', last, |ss|, u, p);
      RunNothing(u, p);
      match Exec(ss[last], u, p) {
        case Next(w) => RunNothing(w, p);
        case _ =>
      }
    case _ =>
  }

  lemma RunNothing(st: State, p: Packet)
    ensures ExecList([], st, p) == Next(st)
  {
  }

  /** Subtraction modulo 2^32 moves across an equality. */
  lemma SubEqual(a: Word, b: Word, y: Word)
    ensures Wrap(a - b) == y <==> a == Wrap(y + b)
  {
  }

  lemma MergeKeeps(n: Node, last: nat, outUse: set<nat>, v: Values, st: State, t: State, p: Packet)
    requires n.s.code.Jmp? && last < |n.stmts| && LastReal(n.stmts, last) && |v.val| == N_ATOMS
    requires ExecList(n.stmts, st, p) == Next(t)
    requires n.stmts[last].code == Alu(Sub, X) && IsConst(v.table, v.val[X_ATOM]) ==>
             t.x == ConstVal(v.table, v.val[X_ATOM])
    ensures var n' := MergeCompare(n, last, outUse, v);
            && ExecList(n'.stmts, st, p).Next?
            && (var t' := ExecList(n'.stmts, st, p).st;
                && t' == t.(a := t'.a) && SameWay(n, t, n', t')
                && (!Mergeable(n, last, outUse) ==> t' == t)
                && (n'.s == Stmt(Jmp(Jset, K), ALL_ONES) ==> t'.a == t.a))
  {
    hide ExecList, LastReal, IsConst, ConstVal, Exec, Taken;
    if Mergeable(n, last, outUse) && MergeCompare(n, last, outUse, v) != n {
      var l := n.stmts[last];
      WithoutLast(n.stmts, last, st, p);
      var u := ExecList(n.stmts[last := Deleted(l)], st, p).st;
      MergedBranch(n, last, outUse, v, u, t, p);
    }
  }

  /** The merged branch in the state u before the arithmetic goes the way the old one went after it. */
  lemma MergedBranch(n: Node, last: nat, outUse: set<nat>, v: Values, u: State, t: State, p: Packet)
    requires last < |n.stmts| && |v.val| == N_ATOMS && Mergeable(n, last, outUse)
    requires MergeCompare(n, last, outUse, v) != n
    requires Exec(n.stmts[last], u, p) == Next(t)
    requires n.stmts[last].code == Alu(Sub, X) && IsConst(v.table, v.val[X_ATOM]) ==>
             t.x == ConstVal(v.table, v.val[X_ATOM])
    ensures u == t.(a := u.a) && SameWay(n, t, MergeCompare(n, last, outUse, v), u)
    ensures MergeCompare(n, last, outUse, v).s == Stmt(Jmp(Jset, K), ALL_ONES) ==> u.a == t.a
  {
    hide IsConst, ConstVal, And, Exec, Wrap;
    var l := n.stmts[last];
    Arithmetic(l, u, p);
    if l.code == Alu(And_, K) {
      FullMask(u.a);
    } else {
      SubEqual(u.a, if l.code == Alu(Sub, X) then u.x else l.k, n.s.k);
      WrapWord(u.x);
    }
  }

  lemma Arithmetic(l: Stmt, u: State, p: Packet)
    ensures l.code == Alu(Sub, X) ==> Exec(l, u, p) == Next(u.(a := Wrap(u.a - u.x)))
    ensures l.code == Alu(Sub, K) ==> Exec(l, u, p) == Next(u.(a := Wrap(u.a - l.k)))
    ensures l.code == Alu(And_, K) ==> Exec(l, u, p) == Next(u.(a := And(u.a, l.k)))
  {
  }

  lemma WrapWord(x: Word)
    ensures Wrap(0 + x) == x
  {
  }

  /** Treating jset #ffffffff as always taken is right exactly when A is not 0 (or both ways are one). */
  lemma JsetExact(n: Node, t: State)
    requires n.s.code.Jmp?
    ensures SameWay(n, t, ResolveJset(n), t) <==>
            (n.s == Stmt(Jmp(Jset, K), ALL_ONES) ==> t.a != 0 || n.jt == n.jf)
  {
    hide And;
    ZeroBits(t.a);
    FullMask(t.a);
  }

  lemma ConstBranches(n: Node, v: Values, t: State)
    requires n.s.code.Jmp? && |v.val| == N_ATOMS
    requires n.s.code.src == X && IsConst(v.table, v.val[X_ATOM]) ==> t.x == ConstVal(v.table, v.val[X_ATOM])
    requires IsConst(v.table, v.val[A_ATOM]) ==> t.a == ConstVal(v.table, v.val[A_ATOM])
    ensures SameWay(n, t, ResolveConst(CompareConst(n, v), v), t)
  {
    hide IsConst, ConstVal, And;
  }

  // --------------------------------------------------------------- the block

  /** opt_peep after the walk over the statements. */
  function PeepBranch(n: Node, last: nat, outUse: set<nat>, v: Values): Node
    requires n.s.code.Jmp? && last < |n.stmts| && |v.val| == N_ATOMS
  {
    ResolveConst(CompareConst(ResolveJset(MergeCompare(n, last, outUse, v)), v), v)
  }

  /** opt_peep. A return of a constant after a constant accumulator is taken for a comparison of an unknown kind: the
      optimizer aborts. The generator puts no statements into return blocks. */
  method OptPeep(n: Node, outUse: set<nat>, v: Values)
    returns (aborts: bool, n': Node, ghost es: seq<Edit>, ghost ss: seq<Stmt>, ghost last: nat)
    requires n.s.code.Jmp? || n.s.code.RetK? || n.s.code.RetA?
    requires n.stmts != [] ==> |v.val| == N_ATOMS
    ensures n.stmts == [] ==> n' == n && !aborts
    ensures n.stmts != [] ==>
              && Rewrites(n.stmts, es, ss) && LastReal(ss, last) && (ss, last) == PeepFrom(n.stmts, 0, outUse)
              && (X_ATOM in outUse ==> OnlyPairs(es))
              && n' == (if n.s.code.Jmp? then PeepBranch(n.(stmts := ss), last, outUse, v) else n.(stmts := ss))
              && (aborts <==> n.s.code.RetK? && IsConst(v.table, v.val[A_ATOM]))
  {
    hide Rewrites, OnlyPairs, PeepFrom, ResolveConst, Mergeable, IsConst, ConstVal;
    n', es, ss, last, aborts := n, [], [], 0, false;
    if n.stmts != [] {
      var ss', last', es' := PeepStmts(n.stmts, outUse);
      es, ss, last := es', ss', last';
      n' := n.(stmts := ss');
      if n.s.code.Jmp? {
        n' := MergeCompare(n', last', outUse, v);
        n' := ResolveJset(n');
        n' := CompareConst(n', v);
        n' := ResolveConst(n', v);
      } else {
        aborts := n.s.code.RetK? && IsConst(v.table, v.val[A_ATOM]);
      }
    }
  }

  /** Where it does not abort, a return block still returns what it returned. */
  lemma OptPeepReturns(n: Node, es: seq<Edit>, ss: seq<Stmt>, st: State, p: Packet)
    requires (n.s.code.RetK? || n.s.code.RetA?) && AllInRange(n.stmts) && Rewrites(n.stmts, es, ss)
    requires ExecList(n.stmts, st, p).Next? && Safe(n.stmts, es, {A_ATOM}, st, p)
    ensures ExecList(ss, st, p).Next?
    ensures LeafResult(n.s, ExecList(ss, st, p).st) == LeafResult(n.s, ExecList(n.stmts, st, p).st)
  {
    hide ExecList, Rewrites, Safe, AllInRange;
    RewritesKeep(n.stmts, es, ss, {A_ATOM}, st, p);
    assert Val(ExecList(ss, st, p).st, A_ATOM) == ExecList(ss, st, p).st.a;
  }

  /** What the rest of a block must find as it was: what is live on exit, the accumulator, and
      the index register if the branch or a subtraction before it reads that. */
  function PeepNeeds(n: Node, last: nat, outUse: set<nat>): set<nat>
    requires n.s.code.Jmp? && last < |n.stmts|
  {
    outUse + {A_ATOM} + (if n.s.code.src == X || n.stmts[last].code == Alu(Sub, X) then {X_ATOM} else {})
  }

  /** The conditions on a run under which the branch part is right: a subtraction or mask that can be
      merged has no constant number, and jset #ffffffff meets an accumulator that is not 0. */
  ghost predicate BranchSafe(n: Node, last: nat, outUse: set<nat>, v: Values, t: State)
    requires last < |n.stmts| && |v.val| == N_ATOMS
  {
    && (Mergeable(n, last, outUse) ==> !IsConst(v.table, v.val[A_ATOM]))
    && (MergeCompare(n, last, outUse, v).s == Stmt(Jmp(Jset, K), ALL_ONES) ==> t.a != 0)
  }

  /** Peephole rewriting keeps the way a block is left and everything live on exit. */
  lemma OptPeepKeeps(n: Node, outUse: set<nat>, v: Values, es: seq<Edit>, ss: seq<Stmt>, last: nat, st: State, t: State,
                     p: Packet)
    requires n.s.code.Jmp? && AllInRange(n.stmts) && |v.val| == N_ATOMS && last < |ss|
    requires Rewrites(n.stmts, es, ss) && LastReal(ss, last)
    requires ExecList(n.stmts, st, p) == Next(t) && ConstsHold(v, t)
    requires Safe(n.stmts, es, PeepNeeds(n.(stmts := ss), last, outUse), st, p)
    requires BranchSafe(n.(stmts := ss), last, outUse, v, t)
    ensures var n' := PeepBranch(n.(stmts := ss), last, outUse, v);
            && ExecList(n'.stmts, st, p).Next?
            && Agree(t, ExecList(n'.stmts, st, p).st, outUse) && SameWay(n, t, n', ExecList(n'.stmts, st, p).st)
  {
    hide ExecList, Rewrites, Safe, LastReal, AllInRange, IsConst, ConstVal, Taken, MergeCompare, Val;
    var n1 := n.(stmts := ss);
    var needs := PeepNeeds(n1, last, outUse);
    RewritesKeep(n.stmts, es, ss, needs, st, p);
    var t1 := ExecList(ss, st, p).st;
    NeededAgree(n1, last, outUse, t, t1);
    MergeKeeps(n1, last, outUse, v, st, t1, p);
    var n2 := MergeCompare(n1, last, outUse, v);
    var t2 := ExecList(n2.stmts, st, p).st;
    MergedShape(n1, last, outUse, v);
    JsetExact(n2, t2);
    ConstBranches(ResolveJset(n2), v, t2);
    StillAgree(t, t1, t2, outUse, Mergeable(n1, last, outUse));
  }

  lemma NeededAgree(n: Node, last: nat, outUse: set<nat>, t: State, t1: State)
    requires n.s.code.Jmp? && last < |n.stmts| && Agree(t, t1, PeepNeeds(n, last, outUse))
    ensures t1.a == t.a && Agree(t, t1, outUse) && Taken(n.s, t1) == Taken(n.s, t)
    ensures n.s.code.src == X || n.stmts[last].code == Alu(Sub, X) ==> t1.x == t.x
  {
    hide Compare;
    assert Val(t, A_ATOM) == Val(t1, A_ATOM);
    if n.s.code.src == X || n.stmts[last].code == Alu(Sub, X) { assert Val(t, X_ATOM) == Val(t1, X_ATOM); }
  }

  /** Only a subtraction of an unknown X makes the branch compare with X. */
  lemma MergedShape(n: Node, last: nat, outUse: set<nat>, v: Values)
    requires n.s.code.Jmp? && last < |n.stmts| && |v.val| == N_ATOMS
    ensures var n' := MergeCompare(n, last, outUse, v);
            && n'.s.code.Jmp?
            && (n'.s.code.src == X ==> n'.s.code.src == n.s.code.src || !IsConst(v.table, v.val[X_ATOM]))
            && (n.s.code.src == X ==> n' == n && !Mergeable(n, last, outUse))
  {
    hide IsConst, ConstVal;
  }

  lemma StillAgree(t: State, t1: State, t2: State, outUse: set<nat>, merged: bool)
    requires Agree(t, t1, outUse) && t2 == t1.(a := t2.a) && (!merged ==> t2 == t1) && (merged ==> A_ATOM !in outUse)
    ensures Agree(t, t2, outUse)
  {
  }

  lemma KnownIsNotConstant(v: Values, k: Key)
    requires k.code.Alu?
    ensures var (v1, n) := Known(v, k); !IsConst(v1.table, n) && v1.val == v.val
  {
  }

  /** The first condition of BranchSafe always holds of the numbers opt_stmt records: what it leaves
      as a subtraction or a mask is not numbered as a constant. */
  lemma ArithmeticIsNotConstant(v: Values, s: Stmt, alter: bool)
    requires |v.val| == N_ATOMS && InRange(s) && s.code.Alu?
    ensures var r := OptStmt(v, s, alter);
            r.Becomes? && r.s.code in {Alu(Sub, X), Alu(Sub, K), Alu(And_, K)} ==> !IsConst(r.v.table, r.v.val[A_ATOM])
  {
    if s.code.src == K { MaskIsNotConstant(v, s, alter); } else { DifferenceIsNotConstant(v, s, alter); }
  }

  lemma MaskIsNotConstant(v: Values, s: Stmt, alter: bool)
    requires |v.val| == N_ATOMS && s.code.Alu? && s.code.src == K
    ensures var r := OptAluK(v, s.code.op, s, alter);
            r.Becomes? && r.s.code in {Alu(Sub, X), Alu(Sub, K), Alu(And_, K)} ==> !IsConst(r.v.table, r.v.val[A_ATOM])
  {
    hide Known, IsConst, ConstVal, Apply;
    var (v1, kn) := Known(v, ConstKey(s.k));
    KnownIsNotConstant(v1, Key(Alu(s.code.op, K), v.val[A_ATOM], kn));
    KeepsVal(v, ConstKey(s.k));
  }

  lemma DifferenceIsNotConstant(v: Values, s: Stmt, alter: bool)
    requires |v.val| == N_ATOMS && s.code.Alu? && s.code.src == X
    ensures var r := OptAluX(v, s.code.op, s, alter);
            r.Becomes? && r.s.code in {Alu(Sub, X), Alu(Sub, K), Alu(And_, K)} ==> !IsConst(r.v.table, r.v.val[A_ATOM])
  {
    hide Known, IsConst, ConstVal, Apply;
    KnownIsNotConstant(v, Key(Alu(s.code.op, X), v.val[A_ATOM], v.val[X_ATOM]));
    KeepsVal(v, ConstKey(0));
    if IsConst(v.table, v.val[X_ATOM]) {
      var c := ConstVal(v.table, v.val[X_ATOM]);
      var (v1, kn) := Known(v, ConstKey(c));
      KeepsVal(v, ConstKey(c));
      KnownIsNotConstant(v1, Key(Alu(s.code.op, K), v.val[A_ATOM], kn));
    }
  }

  lemma KeepsVal(v: Values, k: Key)
    ensures Known(v, k).0.val == v.val
  {
  }

  lemma LastInside(ss: seq<Stmt>, last: nat)
    requires LastReal(ss, last)
    ensures last < |ss|
  {
  }

  /** A statement that a comparison may swallow. */
  predicate Swallowed(s: Stmt) { s.code in {Alu(Sub, X), Alu(Sub, K), Alu(And_, K)} }

  /** Rewriting neither makes such a statement nor changes which statement is the last. */
  lemma EditKeepsLast(ss: seq<Stmt>, e: Edit, last: nat)
    requires EditOk(ss, e) && LastReal(Edited(ss, e), last) && Swallowed(Edited(ss, e)[last])
    ensures LastReal(ss, last) && ss[last] == Edited(ss, e)[last]
  {
    var ss' := Edited(ss, e);
    match e
    case PairEdit(i, j) =>
      forall k | last < k < |ss| ensures ss[k].code == Nop { assert ss'[k].code == Nop; }
    case FuseEdit(f) =>
      assert ss'[f.ild].code.LdInd?;
      forall k | last < k < |ss| ensures ss[k].code == Nop { assert ss'[k].code == Nop; }
  }

  lemma {:induction false} RewritesKeepLast(ss: seq<Stmt>, es: seq<Edit>, ss': seq<Stmt>, last: nat)
    requires Rewrites(ss, es, ss') && LastReal(ss', last) && Swallowed(ss'[last])
    ensures LastReal(ss, last) && ss[last] == ss'[last]
    decreases |es|
  {
    hide EditOk, Edited, LastReal, Swallowed;
    if es != [] {
      RewritesKeepLast(Edited(ss, es[0]), es[1..], ss', last);
      EditKeepsLast(ss, es[0], last);
    }
  }

  /** What opt_blk leaves in the accumulator after such a statement is not a constant. */
  lemma {:induction false} SwallowedIsNotConstant(v: Values, ss: seq<Stmt>, last: nat)
    requires |v.val| == N_ATOMS && AllInRange(ss) && LastReal(ss, last) && Swallowed(ss[last])
    ensures var r := OptList(v, ss, false); r.Block? ==> |r.v.val| == N_ATOMS && !IsConst(r.v.table, r.v.val[A_ATOM])
    decreases |ss|
  {
    hide OptStmt, InRange;
    OptKeepsSize(v, ss[0], false);
    match OptStmt(v, ss[0], false)
    case Failed(_) =>
    case Becomes(v1, s) =>
      if last == 0 {
        ArithmeticIsNotConstant(v, ss[0], false);
        StaysAsItIs(v, ss[0]);
        NopsKeepNumbers(v1, ss[1..]);
      } else {
        assert LastReal(ss[1..], last - 1);
        SwallowedIsNotConstant(v1, ss[1..], last - 1);
      }
  }

  lemma StaysAsItIs(v: Values, s: Stmt)
    requires |v.val| == N_ATOMS && InRange(s) && OptStmt(v, s, false).Becomes?
    ensures OptStmt(v, s, false).s == s
  {
    hide Find;
  }

  lemma {:induction false} NopsKeepNumbers(v: Values, ss: seq<Stmt>)
    requires |v.val| == N_ATOMS && AllInRange(ss) && forall i :: 0 <= i < |ss| ==> ss[i].code == Nop
    ensures OptList(v, ss, false).Block? && OptList(v, ss, false).v == v
    decreases |ss|
  {
    if ss != [] { NopsKeepNumbers(v, ss[1..]); }
  }
}
