/**
 * When the optimizer gives up: a division or modulus by a constant 0, a shift by a
 * constant of more than 31. What it takes for constants is so on every packet.
 */
module Failures {
  import opened Words
  import opened Machine
  import opened FlowGraph
  import opened Liveness
  import opened ValueNumbers
  import opened ValueRewrite
  import opened SelfContained
  import opened BlockValues
  import A = Acceptance
  import G = CodeGen

  /** What an error says of an operation and the word it is done with. */
  predicate Faults(op: AluOp, w: Word, e: OptError)
  {
    match e
    case DivByZero => op == Div && w == 0
    case ModByZero => op == Mod && w == 0
    case BigShift => (op == Lsh || op == Rsh) && w > 31
  }

  // ---------------------------------------------------------------- constants

  /** The constant a register is known to hold. */
  function ConstOf(v: Values, a: nat): Option<Word>
    requires a < |v.val|
  {
    if IsConst(v.table, v.val[a]) then Some(ConstVal(v.table, v.val[a])) else None
  }

  /** The registers that are taken to hold constants do. */
  ghost predicate Right(v: Values, atoms: set<nat>, st: State)
    requires |v.val| == N_ATOMS
  {
    forall a :: 0 <= a < N_ATOMS && a in atoms && ConstOf(v, a).Some? ==> ConstOf(v, a).value == Val(st, a)
  }

  /** Numbers that describe a state are right about its constants. */
  lemma DescribedIsRight(v: Values, st: State, p: Packet, atoms: set<nat>)
    requires Shaped(v) && Describes(v, st, p)
    ensures Right(v, atoms, st)
  {
    hide Meaning, Val;
    forall a | 0 <= a < N_ATOMS && ConstOf(v, a).Some? ensures ConstOf(v, a).value == Val(st, a) {
      ConstMeaning(v.table, v.val[a], p);
    }
  }

  lemma RightAt(v: Values, atoms: set<nat>, st: State, a: nat)
    requires |v.val| == N_ATOMS && Right(v, atoms, st) && a in atoms && a < N_ATOMS
    ensures ConstOf(v, a).Some? ==> ConstOf(v, a).value == Val(st, a)
  {
  }

  /** One register set; a number taken for a constant is the word it is set to. */
  lemma SetIsRight(v: Values, v1: Values, t: nat, atoms: set<nat>, st: State, w: Word)
    requires Shaped(v) && v.table <= v1.table && t < N_ATOMS && |v1.val| == N_ATOMS
    requires v1.val == v.val[t := v1.val[t]]
    requires Right(v, atoms, st) && (ConstOf(v1, t).Some? ==> ConstOf(v1, t).value == w)
    ensures Right(v1, atoms + {t}, Put(st, t, w))
  {
    hide Val, Put;
    PutFacts(st, t, w);
    forall a | 0 <= a < N_ATOMS && a in atoms + {t} && ConstOf(v1, a).Some?
      ensures ConstOf(v1, a).value == Val(Put(st, t, w), a)
    {
      if a != t { RightAt(v, atoms, st, a); }
    }
  }

  /** What a statement's number says, if it is a constant, is what the statement computes. */
  ghost predicate Tells(v: Values, r: Rewritten, t: nat, w: Word)
    requires |v.val| == N_ATOMS && t < N_ATOMS
  {
    r.Becomes? ==>
      |r.v.val| == N_ATOMS && r.v.val == v.val[t := r.v.val[t]] &&
      (ConstOf(r.v, t).Some? ==> ConstOf(r.v, t).value == w)
  }

  lemma KeyTells(v: Values, k: Key)
    ensures var (v1, n) := Known(v, k);
            v1.val == v.val && (IsConst(v1.table, n) <==> k.code.LdImm? && k.v0 < TWO32) &&
            (IsConst(v1.table, n) ==> ConstVal(v1.table, n) == k.v0)
  {
    Entered(v, k);
  }

  lemma LoadTells(v: Values, s: Stmt, k: Key, t: nat, alter: bool, w: Word)
    requires |v.val| == N_ATOMS && t < N_ATOMS && (k.code.LdImm? ==> k.v0 == w)
    ensures Tells(v, OptLoad(v, s, k, t, alter), t, w)
  {
    hide Known;
    KeyTells(v, k);
  }

  lemma NumberTells(v: Values, k: Key, s: Stmt, w: Word)
    requires |v.val| == N_ATOMS && (k.code.LdImm? ==> k.v0 == w)
    ensures var (v1, n) := Known(v, k); |v1.val| == N_ATOMS && Tells(v, Becomes(SetA(v1, n), s), A_ATOM, w)
  {
    hide Known;
    KeyTells(v, k);
  }

  /** The number of an operation with a constant is no constant. */
  lemma AluKNumberTells(v: Values, op: AluOp, k: Word, s: Stmt, w: Word)
    requires |v.val| == N_ATOMS
    ensures var (v1, kn) := Known(v, ConstKey(k));
            var (v2, n) := Known(v1, Key(Alu(op, K), v.val[A_ATOM], kn));
            |v2.val| == N_ATOMS && Tells(v, Becomes(SetA(v2, n), s), A_ATOM, w)
  {
    hide Known;
    KeyTells(v, ConstKey(k));
    var (v1, kn) := Known(v, ConstKey(k));
    KeyTells(v1, Key(Alu(op, K), v.val[A_ATOM], kn));
  }

  lemma FoldTells(v: Values, op: AluOp, a: Word, b: Word, w: Word)
    requires |v.val| == N_ATOMS && Apply(op, a, b) == Some(w)
    ensures Tells(v, Fold(v, op, a, b), A_ATOM, w)
  {
    hide Known, Apply;
    NumberTells(v, ConstKey(w), Stmt(LdImm, w), w);
  }

  lemma AluKTells(v: Values, op: AluOp, s: Stmt, alter: bool, a: Word, w: Word)
    requires |v.val| == N_ATOMS && Apply(op, a, s.k) == Some(w)
    requires ConstOf(v, A_ATOM).Some? ==> ConstOf(v, A_ATOM).value == a
    ensures Tells(v, OptAluK(v, op, s, alter), A_ATOM, w)
  {
    hide Known, Apply, Fold;
    ZeroRight(op, a);
    AluKNumberTells(v, op, s.k, s, w);
    if alter && s.k == 0 && op in {Mul, And_} { NumberTells(v, ConstKey(0), s.(code := LdImm), w); }
    if IsConst(v.table, v.val[A_ATOM]) {
      KeyTells(v, ConstKey(s.k));
      var (v1, kn) := Known(v, ConstKey(s.k));
      FoldTells(v1, op, a, s.k, w);
    }
  }

  lemma AluXTells(v: Values, op: AluOp, s: Stmt, alter: bool, a: Word, x: Word, w: Word)
    requires |v.val| == N_ATOMS && Apply(op, a, x) == Some(w)
    requires ConstOf(v, A_ATOM).Some? ==> ConstOf(v, A_ATOM).value == a
    requires ConstOf(v, X_ATOM).Some? ==> ConstOf(v, X_ATOM).value == x
    ensures Tells(v, OptAluX(v, op, s, alter), A_ATOM, w)
  {
    hide Known, Apply, Fold, OptLoad;
    ZeroLeft(op, x);
    NumberTells(v, Key(Alu(op, X), v.val[A_ATOM], v.val[X_ATOM]), s, w);
    AluKNumberTells(v, op, x, Stmt(Alu(op, K), x), w);
    if IsConst(v.table, v.val[A_ATOM]) {
      FoldTells(v, op, a, x, w);
      if w == 0 { LoadTells(v, Stmt(LdImm, 0), ConstKey(0), A_ATOM, alter, w); }
    }
  }

  lemma NegTells(v: Values, s: Stmt, alter: bool, a: Word)
    requires |v.val| == N_ATOMS && s.code.Neg? && (ConstOf(v, A_ATOM).Some? ==> ConstOf(v, A_ATOM).value == a)
    ensures Tells(v, OptStmt(v, s, alter), A_ATOM, Wrap(0 - a))
  {
    hide Known;
    NumberTells(v, ConstKey(Wrap(0 - a)), Stmt(LdImm, Wrap(0 - a)), Wrap(0 - a));
    NumberTells(v, Key(Neg, v.val[A_ATOM], 0), s, Wrap(0 - a));
  }

  lemma CopyTells(v: Values, s: Stmt, t: nat, from: nat, alter: bool, w: Word)
    requires |v.val| == N_ATOMS && t < N_ATOMS && from < N_ATOMS
    requires ConstOf(v, from).Some? ==> ConstOf(v, from).value == w
    ensures Tells(v, VStore(v, s, t, v.val[from], alter), t, w)
  {
  }

  /** The constants stay right from statement to statement. */
  lemma StepIsRight(v: Values, s: Stmt, alter: bool, atoms: set<nat>, st: State, p: Packet)
    requires Shaped(v) && Distinct(v.table) && InRange(s) && Straight(s.code) && !s.code.LdxLen?
    requires UseSet(s) <= atoms && Right(v, atoms, st) && Exec(s, st, p).Next?
    ensures |v.val| == N_ATOMS && Recorded(v, s, alter, OptStmt(v, s, alter))
    ensures OptStmt(v, s, alter).Becomes? ==>
              |OptStmt(v, s, alter).v.val| == N_ATOMS &&
              Right(OptStmt(v, s, alter).v, atoms + DefSet(s), Exec(s, st, p).st)
  {
    hide Shaped, Distinct, OptStmt, Right, Exec, InRange, UseSet, Recorded;
    OptStmtRecords(v, s, alter);
    if s.code.Nop? {
      NopChanges(v, s, alter, atoms, st, p);
    } else if OptStmt(v, s, alter).Becomes? {
      StatementTells(v, s, alter, atoms, st, p);
      RecordedTable(v, s, alter, OptStmt(v, s, alter));
      var t := AtomDef(s);
      SetIsRight(v, OptStmt(v, s, alter).v, t, atoms, st, Val(Exec(s, st, p).st, t));
    }
  }

  lemma RecordedTable(v: Values, s: Stmt, alter: bool, r: Rewritten)
    requires Recorded(v, s, alter, r) && r.Becomes?
    ensures Shaped(r.v) && Distinct(r.v.table) && v.table <= r.v.table
  {
  }

  lemma NopChanges(v: Values, s: Stmt, alter: bool, atoms: set<nat>, st: State, p: Packet)
    requires |v.val| == N_ATOMS && s.code.Nop?
    ensures OptStmt(v, s, alter) == Becomes(v, s) && Exec(s, st, p) == Next(st) && atoms + DefSet(s) == atoms
  {
  }

  lemma StatementTells(v: Values, s: Stmt, alter: bool, atoms: set<nat>, st: State, p: Packet)
    requires |v.val| == N_ATOMS && InRange(s) && Straight(s.code) && !s.code.LdxLen? && !s.code.Nop?
    requires UseSet(s) <= atoms && Right(v, atoms, st) && Exec(s, st, p).Next?
    ensures 0 <= AtomDef(s) < N_ATOMS && DefSet(s) == {AtomDef(s)}
    ensures Exec(s, st, p).st == Put(st, AtomDef(s), Val(Exec(s, st, p).st, AtomDef(s)))
    ensures Tells(v, OptStmt(v, s, alter), AtomDef(s), Val(Exec(s, st, p).st, AtomDef(s)))
  {
    hide Right, Tells, Known, Apply, Fetch, OptLoad, OptAluK, OptAluX, VStore;
    var w := Val(Exec(s, st, p).st, AtomDef(s));
    ReadsRight(v, s, atoms, st);
    match s.code
    case LdAbs(_) => LoadTells(v, s, Key(s.code, s.k, 0), A_ATOM, alter, w);
    case LdInd(z) => IndexedTells(v, s, alter, w);
    case LdLen => LoadTells(v, s, Key(s.code, 0, 0), A_ATOM, alter, w);
    case LdImm => LoadTells(v, s, ConstKey(s.k), A_ATOM, alter, w);
    case LdxImm => LoadTells(v, s, ConstKey(s.k), X_ATOM, alter, w);
    case LdxMsh => LoadTells(v, s, Key(s.code, s.k, 0), X_ATOM, alter, w);
    case Neg => NegTells(v, s, alter, st.a);
    case Alu(op, src) =>
      if src == K { AluKTells(v, op, s, alter, st.a, w); } else { AluXTells(v, op, s, alter, st.a, st.x, w); }
    case _ => CopiesTell(v, s, alter, st, p);
  }

  /** The registers a statement reads are right. */
  lemma ReadsRight(v: Values, s: Stmt, atoms: set<nat>, st: State)
    requires |v.val| == N_ATOMS && InRange(s) && UseSet(s) <= atoms && Right(v, atoms, st)
    ensures forall a :: 0 <= a < N_ATOMS && a in UseSet(s) && ConstOf(v, a).Some? ==> ConstOf(v, a).value == Val(st, a)
    ensures s.code.Alu? || s.code.Neg? ==> (ConstOf(v, A_ATOM).Some? ==> ConstOf(v, A_ATOM).value == st.a)
    ensures s.code.Alu? && s.code.src == X ==> (ConstOf(v, X_ATOM).Some? ==> ConstOf(v, X_ATOM).value == st.x)
  {
    hide ConstOf;
    assert s.code.Alu? || s.code.Neg? ==> A_ATOM in UseSet(s);
    assert s.code.Alu? && s.code.src == X ==> X_ATOM in UseSet(s);
    assert Val(st, A_ATOM) == st.a && Val(st, X_ATOM) == st.x;
  }

  lemma IndexedTells(v: Values, s: Stmt, alter: bool, w: Word)
    requires |v.val| == N_ATOMS && s.code.LdInd?
    ensures Tells(v, OptStmt(v, s, alter), A_ATOM, w)
  {
    hide Tells, Known, OptLoad;
    LoadTells(v, s, Key(s.code, s.k, v.val[X_ATOM]), A_ATOM, alter, w);
    if IsConst(v.table, v.val[X_ATOM]) {
      var k := Wrap(s.k + ConstVal(v.table, v.val[X_ATOM]));
      LoadTells(v, Stmt(LdAbs(s.code.size), k), Key(LdAbs(s.code.size), k, 0), A_ATOM, alter, w);
    }
  }

  lemma CopiesTell(v: Values, s: Stmt, alter: bool, st: State, p: Packet)
    requires |v.val| == N_ATOMS && InRange(s) && s.code in {Txa, Tax, LdMem, LdxMem, St, Stx}
    requires forall a :: 0 <= a < N_ATOMS && a in UseSet(s) && ConstOf(v, a).Some? ==> ConstOf(v, a).value == Val(st, a)
    ensures Exec(s, st, p).Next? && 0 <= AtomDef(s) < N_ATOMS
    ensures Tells(v, OptStmt(v, s, alter), AtomDef(s), Val(Exec(s, st, p).st, AtomDef(s)))
  {
    hide Tells, VStore, ConstOf;
    var from, to := AtomUse(s), AtomDef(s);
    assert from in UseSet(s);
    var w := Val(st, from);
    CopyTells(v, s, to, from, alter, w);
    if IsConst(v.table, v.val[from]) {
      CopyTells(v, Stmt(LdImm, ConstVal(v.table, v.val[from])), to, from, alter, w);
      CopyTells(v, Stmt(LdxImm, ConstVal(v.table, v.val[from])), to, from, alter, w);
    }
  }

  // ----------------------------------------------------------------- giving up

  predicate Risky(op: AluOp) { op == Div || op == Mod || op == Lsh || op == Rsh }

  /** Exactly when opt_stmt gives up, from what it takes for constants. A division by a constant 0 in X is found only if
      the accumulator is constant too, a shift too far only if it is not. */
  ghost predicate GivesUp(v: Values, s: Stmt, e: OptError)
    requires |v.val| == N_ATOMS
  {
    s.code.Alu? && var op := s.code.op;
    if s.code.src == K then e != BigShift && Faults(op, s.k, e)
    else ConstOf(v, X_ATOM).Some? && Faults(op, ConstOf(v, X_ATOM).value, e) &&
         (e == BigShift <==> ConstOf(v, A_ATOM).None?)
  }

  lemma GivesUpExactly(v: Values, s: Stmt, alter: bool, e: OptError)
    requires |v.val| == N_ATOMS && InRange(s)
    ensures OptStmt(v, s, alter) == Failed(e) <==> alter && GivesUp(v, s, e)
  {
    hide Known, Fold;
    if s.code.Alu? && IsConst(v.table, v.val[A_ATOM]) {
      var op, a := s.code.op, ConstVal(v.table, v.val[A_ATOM]);
      KeyTells(v, ConstKey(s.k));
      FoldFails(Known(v, ConstKey(s.k)).0, op, a, s.k, e);
      if IsConst(v.table, v.val[X_ATOM]) { FoldFails(v, op, a, ConstVal(v.table, v.val[X_ATOM]), e); }
    }
  }

  lemma FoldFails(v: Values, op: AluOp, a: Word, b: Word, e: OptError)
    requires |v.val| == N_ATOMS
    ensures Fold(v, op, a, b) == Failed(e) <==> e != BigShift && Faults(op, b, e)
  {
    hide Known;
  }

  /** Where the numbers are right about the constants a statement reads, giving up is right about its operand: it
      divides by 0, or shifts by more than 31. */
  lemma FailedIsRight(v: Values, s: Stmt, alter: bool, atoms: set<nat>, st: State, e: OptError)
    requires |v.val| == N_ATOMS && InRange(s) && UseSet(s) <= atoms && Right(v, atoms, st)
    requires OptStmt(v, s, alter) == Failed(e)
    ensures alter && s.code.Alu? && Faults(s.code.op, Operand(s.code.src, s.k, st), e)
  {
    hide OptStmt, UseSet, Right;
    GivesUpExactly(v, s, alter, e);
    ReadsRight(v, s, atoms, st);
  }

  /** In terms of states: if a statement is given up from numbers that describe the state it is reached in, it divides
      by 0 there or shifts by more than 31, and the error says which. */
  lemma FailedStatement(v: Values, s: Stmt, alter: bool, st: State, p: Packet, e: OptError)
    requires Shaped(v) && Describes(v, st, p) && InRange(s) && OptStmt(v, s, alter) == Failed(e)
    ensures alter && s.code.Alu? && Faults(s.code.op, Operand(s.code.src, s.k, st), e)
  {
    hide OptStmt, UseSet, Right, Describes;
    DescribedIsRight(v, st, p, UseSet(s));
    FailedIsRight(v, s, alter, UseSet(s), st, e);
  }

  /** Wherever control gets to the statement, its operand is what the error says. */
  ghost predicate FaultsOn(ss: seq<Stmt>, i: nat, e: OptError, st: State, p: Packet)
    requires i < |ss| && ss[i].code.Alu?
  {
    ExecList(ss[..i], st, p).Next? ==>
      Faults(ss[i].code.op, Operand(ss[i].code.src, ss[i].k, ExecList(ss[..i], st, p).st), e)
  }

  /** From every state and on every packet. */
  ghost predicate AlwaysFaults(ss: seq<Stmt>, i: nat, e: OptError)
  {
    i < |ss| && ss[i].code.Alu? && Risky(ss[i].code.op) && forall st: State, p: Packet :: FaultsOn(ss, i, e, st, p)
  }

  /** The statement a list is given up at. */
  ghost function FailIndex(v: Values, ss: seq<Stmt>, alter: bool): (i: nat)
    requires |v.val| == N_ATOMS && AllInRange(ss) && OptList(v, ss, alter).BlockFailed?
    ensures i < |ss| && ss[i].code.Alu? && Risky(ss[i].code.op)
    decreases |ss|
  {
    match OptStmt(v, ss[0], alter)
    case Failed(e) => GivesUpExactly(v, ss[0], alter, e); 0
    case Becomes(v1, _) => OptKeepsSize(v, ss[0], alter); 1 + FailIndex(v1, ss[1..], alter)
  }

  lemma FirstThenPrefix(ss: seq<Stmt>, i: nat, st: State, p: Packet)
    requires 0 < i < |ss|
    ensures ExecList(ss[..i], st, p) ==
            match Exec(ss[0], st, p) case Next(st1) => ExecList(ss[1..][..i - 1], st1, p) case other => other
  {
    hide Exec;
    assert ss[..i][1..] == ss[1..][..i - 1];
  }

  lemma {:induction false} FailedListFaults(v: Values, ss: seq<Stmt>, alter: bool, atoms: set<nat>, st: State,
                                            p: Packet)
    requires Shaped(v) && Distinct(v.table) && AllInRange(ss) && NoLength(ss) && Exposed(ss) <= atoms
    requires Right(v, atoms, st) && OptList(v, ss, alter).BlockFailed?
    ensures FaultsOn(ss, FailIndex(v, ss, alter), OptList(v, ss, alter).e, st, p)
    decreases |ss|
  {
    hide OptStmt, Exec, Shaped, Distinct, Right, InRange, UseSet, DefSet, Exposed, Straight, Faults, Recorded;
    ShapedBasics(v);
    TakeFirst(ss);
    match OptStmt(v, ss[0], alter)
    case Failed(e) =>
      FailedIsRight(v, ss[0], alter, atoms, st, e);
      assert ss[..0] == [];
    case Becomes(v1, _) =>
      FirstThenPrefix(ss, FailIndex(v, ss, alter), st, p);
      if Exec(ss[0], st, p).Next? {
        StepIsRight(v, ss[0], alter, atoms, st, p);
        RecordedTable(v, ss[0], alter, OptStmt(v, ss[0], alter));
        FailedListFaults(v1, ss[1..], alter, atoms + DefSet(ss[0]), Exec(ss[0], st, p).st, p);
      }
  }

  /** In terms of states, for a whole list: from numbers that describe the state the list is entered in. */
  lemma FailedList(v: Values, ss: seq<Stmt>, alter: bool, st: State, p: Packet)
    requires Shaped(v) && Describes(v, st, p) && Distinct(v.table) && AllInRange(ss) && NoLength(ss)
    requires OptList(v, ss, alter).BlockFailed?
    ensures FaultsOn(ss, FailIndex(v, ss, alter), OptList(v, ss, alter).e, st, p)
  {
    hide OptList, FaultsOn, Shaped, Distinct, Exposed, Describes, Right;
    ShapedBasics(v);
    DescribedIsRight(v, st, p, Exposed(ss));
    FailedListFaults(v, ss, alter, Exposed(ss), st, p);
  }

  /** A contained block that is given up has a statement that divides by 0 or shifts too far whenever it is reached,
      whatever the block is entered with. */
  lemma FailedBlockFaults(v: Values, ss: seq<Stmt>, alter: bool)
    requires Shaped(v) && Distinct(v.table) && Contained(ss) && OptList(v, ss, alter).BlockFailed?
    ensures AlwaysFaults(ss, FailIndex(v, ss, alter), OptList(v, ss, alter).e)
  {
    hide OptList, FaultsOn, Shaped, Distinct, Exposed;
    ShapedBasics(v);
    forall st: State, p: Packet ensures FaultsOn(ss, FailIndex(v, ss, alter), OptList(v, ss, alter).e, st, p) {
      FailedListFaults(v, ss, alter, {}, st, p);
    }
  }

  // -------------------------------------------------- what cannot be emitted

  function ErrorFor(op: AluOp): OptError { match op case Div => DivByZero case Mod => ModByZero case _ => BigShift }

  /** Rewriting makes an instruction the validator refuses of a legal one only where X is the constant 0 and divides. */
  lemma IllegalExactly(v: Values, s: Stmt)
    requires |v.val| == N_ATOMS && InRange(s) && A.Legal(s) && OptStmt(v, s, true).Becomes?
    ensures A.Legal(OptStmt(v, s, true).s) <==>
            !(&& s.code.Alu? && s.code.src == X && (s.code.op == Div || s.code.op == Mod)
              && ConstOf(v, X_ATOM) == Some(0) && ConstOf(v, A_ATOM).None?)
  {
    hide Known, Apply;
  }

  lemma IllegalFaults(v: Values, s: Stmt, atoms: set<nat>, st: State)
    requires |v.val| == N_ATOMS && InRange(s) && A.Legal(s) && OptStmt(v, s, true).Becomes?
    requires !A.Legal(OptStmt(v, s, true).s) && UseSet(s) <= atoms && Right(v, atoms, st)
    ensures s.code.Alu? && Faults(s.code.op, Operand(s.code.src, s.k, st), ErrorFor(s.code.op))
  {
    hide OptStmt, A.Legal, UseSet, Right;
    IllegalExactly(v, s);
    ReadsRight(v, s, atoms, st);
  }

  /** Statement i, legal before rewriting and not after it. */
  ghost predicate Spoilt(v: Values, ss: seq<Stmt>, i: nat)
    requires |v.val| == N_ATOMS && AllInRange(ss)
  {
    i < |ss| && A.Legal(ss[i]) &&
    var r := OptList(v, ss, true);
    r.Block? && i < |r.ss| && !A.Legal(r.ss[i])
  }

  lemma {:induction false} SpoiltStatement(v: Values, ss: seq<Stmt>, i: nat)
    requires |v.val| == N_ATOMS && AllInRange(ss) && Spoilt(v, ss, i)
    ensures ss[i].code.Alu? && Risky(ss[i].code.op)
    decreases |ss|
  {
    hide OptStmt, A.Legal, InRange;
    OptKeepsSize(v, ss[0], true);
    var v1 := OptStmt(v, ss[0], true).v;
    if i == 0 { IllegalExactly(v, ss[0]); } else { SpoiltStatement(v1, ss[1..], i - 1); }
  }

  lemma {:induction false} SpoiltFaults(v: Values, ss: seq<Stmt>, i: nat, atoms: set<nat>, st: State, p: Packet)
    requires Shaped(v) && Distinct(v.table) && AllInRange(ss) && NoLength(ss) && Exposed(ss) <= atoms
    requires Right(v, atoms, st) && Spoilt(v, ss, i) && ss[i].code.Alu?
    ensures FaultsOn(ss, i, ErrorFor(ss[i].code.op), st, p)
    decreases |ss|
  {
    hide OptStmt, Exec, Shaped, Distinct, Right, InRange, UseSet, DefSet, Exposed, Straight, Faults, Recorded, A.Legal;
    ShapedBasics(v);
    TakeFirst(ss);
    var v1 := OptStmt(v, ss[0], true).v;
    if i == 0 {
      IllegalFaults(v, ss[0], atoms, st);
      assert ss[..0] == [];
    } else {
      FirstThenPrefix(ss, i, st, p);
      if Exec(ss[0], st, p).Next? {
        StepIsRight(v, ss[0], true, atoms, st, p);
        RecordedTable(v, ss[0], true, OptStmt(v, ss[0], true));
        SpoiltFaults(v1, ss[1..], i - 1, atoms + DefSet(ss[0]), Exec(ss[0], st, p).st, p);
      }
    }
  }

  /** A legal statement of a contained block stays legal unless it divides by 0 whenever it is reached. */
  lemma SpoiltBlockFaults(v: Values, ss: seq<Stmt>, i: nat)
    requires Shaped(v) && Distinct(v.table) && |v.val| == N_ATOMS && Contained(ss) && Spoilt(v, ss, i)
    ensures ss[i].code.Alu? && AlwaysFaults(ss, i, ErrorFor(ss[i].code.op))
  {
    hide OptList, FaultsOn, Shaped, Distinct, Exposed;
    SpoiltStatement(v, ss, i);
    forall st: State, p: Packet ensures FaultsOn(ss, i, ErrorFor(ss[i].code.op), st, p) {
      SpoiltFaults(v, ss, i, {}, st, p);
    }
  }

  // -------------------------------------------------------- graphs and filters

  /** In one of the blocks a statement divides by 0 or shifts too far whenever it is reached. */
  ghost predicate CanFail(g: Graph, e: OptError)
  {
    exists b, i :: 0 <= b < |g| && AlwaysFaults(g[b].stmts, i, e)
  }

  /** A legal statement is still legal, or it divides by 0 whenever it is reached. */
  ghost predicate StaysLegal(ss: seq<Stmt>, ss': seq<Stmt>)
  {
    |ss'| == |ss| && forall i :: 0 <= i < |ss| && A.Legal(ss[i]) && !A.Legal(ss'[i]) ==>
      ss[i].code.Alu? && AlwaysFaults(ss, i, ErrorFor(ss[i].code.op))
  }

  predicate Calm(ss: seq<Stmt>) { forall i :: 0 <= i < |ss| && ss[i].code.Alu? ==> !Risky(ss[i].code.op) }

  /** Filters without a division, a modulus or a shift. */
  predicate CalmFilter(f: G.Filter)
  {
    match f
    case Atom(ss, _) => Calm(ss)
    case Both(a, b) => CalmFilter(a) && CalmFilter(b)
    case Either(a, b) => CalmFilter(a) && CalmFilter(b)
    case Negated(a) => CalmFilter(a)
  }

  /** Some test of the filter divides by 0 or shifts too far, whatever the packet, if it gets there at all. */
  ghost predicate FaultyFilter(f: G.Filter)
  {
    match f
    case Atom(ss, _) => exists i, e :: AlwaysFaults(ss, i, e)
    case Both(a, b) => FaultyFilter(a) || FaultyFilter(b)
    case Either(a, b) => FaultyFilter(a) || FaultyFilter(b)
    case Negated(a) => FaultyFilter(a)
  }

  lemma {:induction false} CalmIsNotFaulty(f: G.Filter)
    requires CalmFilter(f)
    ensures !FaultyFilter(f)
  {
    hide FaultsOn;
    match f
    case Atom(_, _) =>
    case Both(a, b) => CalmIsNotFaulty(a); CalmIsNotFaulty(b);
    case Either(a, b) => CalmIsNotFaulty(a); CalmIsNotFaulty(b);
    case Negated(a) => CalmIsNotFaulty(a);
  }
}
