/** The rewriting of statements by value numbers, and its soundness. */
module ValueRewrite {
  import opened Words
  import opened Machine
  import opened Liveness
  import opened ValueNumbers

  // ------------------------------------------------- what a number stands for

  /** What an operation gives on a packet, from the words its operands stand for. */
  function KeyValue(k: Key, a: Option<Word>, b: Option<Word>, p: Packet): Option<Word>
  {
    match k.code
    case LdImm => if k.v0 < TWO32 then Some(k.v0) else None
    case LdLen => Some(p.wirelen)
    case LdAbs(z) => if k.v0 + Bytes(z) <= |p.data| then Some(Fetch(p, z, k.v0)) else None
    case LdxMsh => if k.v0 < |p.data| then Some((p.data[k.v0] % 16) * 4) else None
    case LdInd(z) =>
      if b.Some? && b.value + k.v0 + Bytes(z) <= |p.data| then Some(Fetch(p, z, b.value + k.v0)) else None
    case Neg => if a.Some? then Some(Wrap(0 - a.value)) else None
    case Alu(op, _) => if a.Some? && b.Some? then Apply(op, a.value, b.value) else None
    case _ => None
  }

  /** The word a value number stands for on a packet; None when a load or division
      it depends on fails, or when it depends on an unknown value. Operands have
      smaller numbers than what is computed from them. */
  ghost function Meaning(t: Table, n: nat, p: Packet): Option<Word>
    decreases n
  {
    if n == 0 || n > |t| then None
    else
      var k := t[n - 1];
      KeyValue(k, if k.v0 < n then Meaning(t, k.v0, p) else None, if k.v1 < n then Meaning(t, k.v1, p) else None, p)
  }

  lemma {:induction false} MeaningStable(t: Table, t': Table, n: nat, p: Packet)
    requires t <= t' && n <= |t|
    ensures Meaning(t', n, p) == Meaning(t, n, p)
    decreases n
  {
    hide KeyValue;
    if n > 0 {
      var k := t[n - 1];
      assert t'[n - 1] == k;
      if k.v0 < n { MeaningStable(t, t', k.v0, p); }
      if k.v1 < n { MeaningStable(t, t', k.v1, p); }
    }
  }

  /** The table of a block: the values known so far and the number held by each register. */
  datatype Values = Values(table: Table, val: seq<nat>)

  /** Whether a field of the key is an operand's number. */
  predicate FirstIsNumber(k: Key) { k.code.Neg? || k.code.Alu? }
  predicate SecondIsNumber(k: Key) { k.code.LdInd? || k.code.Alu? }

  predicate Ordered(t: Table)
  {
    forall i :: 0 <= i < |t| ==> (FirstIsNumber(t[i]) ==> t[i].v0 <= i) && (SecondIsNumber(t[i]) ==> t[i].v1 <= i)
  }

  predicate Shaped(v: Values)
  {
    |v.val| == N_ATOMS && Ordered(v.table) && forall a :: 0 <= a < N_ATOMS ==> v.val[a] <= |v.table|
  }

  /** Every known number describes what its register holds. */
  ghost predicate Describes(v: Values, st: State, p: Packet)
    requires Shaped(v)
  {
    forall a :: 0 <= a < N_ATOMS && v.val[a] != UNKNOWN ==> Meaning(v.table, v.val[a], p) == Some(Val(st, a))
  }

  // ------------------------------------------------------------- rewriting

  datatype OptError = DivByZero | ModByZero | BigShift
  datatype Rewritten = Becomes(v: Values, s: Stmt) | Failed(e: OptError)

  /** Records a register's new number; a store of the value already there is deleted. */
  function VStore(v: Values, s: Stmt, atom: nat, n: nat, alter: bool): Rewritten
    requires |v.val| == N_ATOMS && atom < N_ATOMS
  {
    if alter && n != UNKNOWN && v.val[atom] == n then Becomes(v, s.(code := Nop))
    else Becomes(v.(val := v.val[atom := n]), s)
  }

  /** F, with the table threaded through. */
  function Known(v: Values, k: Key): (r: (Values, nat)) { (v.(table := Extend(v.table, k)), Number(v.table, k)) }

  function SetA(v: Values, n: nat): Values
    requires |v.val| == N_ATOMS
  {
    v.(val := v.val[A_ATOM := n])
  }

  /** Loads of a value that depends on the packet and the instruction only. */
  function OptLoad(v: Values, s: Stmt, k: Key, atom: nat, alter: bool): Rewritten
    requires |v.val| == N_ATOMS && atom < N_ATOMS
  {
    var (v1, n) := Known(v, k);
    VStore(v1, s, atom, n, alter)
  }

  /** fold_op: the statement becomes a load of the folded constant. */
  function Fold(v: Values, op: AluOp, a: Word, b: Word): Rewritten
    requires |v.val| == N_ATOMS
  {
    match Apply(op, a, b)
    case None => Failed(if op == Div then DivByZero else ModByZero)
    case Some(c) =>
      var (v1, n) := Known(v, ConstKey(c));
      Becomes(SetA(v1, n), Stmt(LdImm, c))
  }

  function OptAluK(v: Values, op: AluOp, s: Stmt, alter: bool): Rewritten
    requires |v.val| == N_ATOMS
  {
    var a := v.val[A_ATOM];
    if alter && s.k == 0 && op in {Add, Lsh, Rsh, Or_, Xor_} then Becomes(v, s.(code := Nop))
    else if alter && s.k == 0 && op in {Mul, And_} then
      var (v1, n) := Known(v, ConstKey(0));
      Becomes(SetA(v1, n), s.(code := LdImm))
    else if alter && s.k == 0 && op == Div then Failed(DivByZero)
    else if alter && s.k == 0 && op == Mod then Failed(ModByZero)
    else
      var (v1, kn) := Known(v, ConstKey(s.k));
      if alter && IsConst(v.table, a) then Fold(v1, op, ConstVal(v.table, a), s.k)
      else
        var (v2, n) := Known(v1, Key(Alu(op, K), a, kn));
        Becomes(SetA(v2, n), s)
  }

  function OptAluX(v: Values, op: AluOp, s: Stmt, alter: bool): Rewritten
    requires |v.val| == N_ATOMS
  {
    var a, x := v.val[A_ATOM], v.val[X_ATOM];
    if alter && IsConst(v.table, x) then
      var c := ConstVal(v.table, x);
      if IsConst(v.table, a) then Fold(v, op, ConstVal(v.table, a), c)
      else if op in {Lsh, Rsh} && c > 31 then Failed(BigShift)
      else
        var (v1, kn) := Known(v, ConstKey(c));
        var (v2, n) := Known(v1, Key(Alu(op, K), a, kn));
        Becomes(SetA(v2, n), Stmt(Alu(op, K), c))
    else if alter && IsConst(v.table, a) && ConstVal(v.table, a) == 0 && op in {Add, Or_, Xor_} then
      VStore(v, s.(code := Txa), A_ATOM, x, alter)
    else if alter && IsConst(v.table, a) && ConstVal(v.table, a) == 0 && op != Sub then
      OptLoad(v, Stmt(LdImm, 0), ConstKey(0), A_ATOM, alter)
    else
      var (v1, n) := Known(v, Key(Alu(op, X), a, x));
      Becomes(SetA(v1, n), s)
  }

  /** opt_stmt: records what a statement computes and, when altering, simplifies it. */
  function OptStmt(v: Values, s: Stmt, alter: bool): Rewritten
    requires |v.val| == N_ATOMS && InRange(s)
  {
    match s.code
    case LdAbs(_) => OptLoad(v, s, Key(s.code, s.k, 0), A_ATOM, alter)
    case LdInd(z) =>
      var x := v.val[X_ATOM];
      if alter && IsConst(v.table, x) then
        var k := Wrap(s.k + ConstVal(v.table, x));
        OptLoad(v, Stmt(LdAbs(z), k), Key(LdAbs(z), k, 0), A_ATOM, alter)
      else OptLoad(v, s, Key(s.code, s.k, x), A_ATOM, alter)
    case LdLen => OptLoad(v, s, Key(s.code, 0, 0), A_ATOM, alter)
    case LdImm => OptLoad(v, s, ConstKey(s.k), A_ATOM, alter)
    case LdxImm => OptLoad(v, s, ConstKey(s.k), X_ATOM, alter)
    case LdxMsh => OptLoad(v, s, Key(s.code, s.k, 0), X_ATOM, alter)
    case Neg =>
      var a := v.val[A_ATOM];
      if alter && IsConst(v.table, a) then
        var c := Wrap(0 - ConstVal(v.table, a));
        var (v1, n) := Known(v, ConstKey(c));
        Becomes(SetA(v1, n), Stmt(LdImm, c))
      else
        var (v1, n) := Known(v, Key(Neg, a, 0));
        Becomes(SetA(v1, n), s)
    case Alu(op, src) => if src == K then OptAluK(v, op, s, alter) else OptAluX(v, op, s, alter)
    case Txa => VStore(v, s, A_ATOM, v.val[X_ATOM], alter)
    case Tax => VStore(v, s, X_ATOM, v.val[A_ATOM], alter)
    case LdMem =>
      var n := v.val[s.k];
      VStore(v, if alter && IsConst(v.table, n) then Stmt(LdImm, ConstVal(v.table, n)) else s, A_ATOM, n, alter)
    case LdxMem =>
      var n := v.val[s.k];
      VStore(v, if alter && IsConst(v.table, n) then Stmt(LdxImm, ConstVal(v.table, n)) else s, X_ATOM, n, alter)
    case St => VStore(v, s, s.k, v.val[A_ATOM], alter)
    case Stx => VStore(v, s, s.k, v.val[X_ATOM], alter)
    case _ => Becomes(v, s)
  }

  // -------------------------------------------------------------- soundness

  function Put(st: State, atom: nat, w: Word): State
    requires atom < N_ATOMS
  {
    if atom < 16 then st.(mem := st.mem[atom := w]) else if atom == A_ATOM then st.(a := w) else st.(x := w)
  }

  lemma PutFacts(st: State, atom: nat, w: Word)
    requires atom < N_ATOMS
    ensures Val(st, atom) == w ==> Put(st, atom, w) == st
    ensures forall a :: 0 <= a < N_ATOMS ==> Val(Put(st, atom, w), a) == if a == atom then w else Val(st, a)
  {
    if atom < 16 && st.mem[atom] == w { assert st.mem[atom := w] == st.mem; }
  }

  /** The rewritten statement does what the original did, and the numbers describe the result. */
  ghost predicate Faithful(v: Values, r: Rewritten, st: State, st': State, p: Packet)
  {
    r.Becomes? ==>
      && Shaped(r.v) && v.table <= r.v.table && |r.v.table| <= |v.table| + 2
      && Exec(r.s, st, p) == Next(st') && Describes(r.v, st', p)
  }

  ghost predicate OperandsIn(k: Key, n: nat)
  {
    (FirstIsNumber(k) ==> k.v0 <= n) && (SecondIsNumber(k) ==> k.v1 <= n)
  }

  /** Looking a value up or entering it changes no meaning. */
  lemma KnownKeeps(v: Values, k: Key, st: State, p: Packet)
    requires Shaped(v) && Describes(v, st, p) && OperandsIn(k, |v.table|)
    ensures var (v1, n) := Known(v, k);
            && Shaped(v1) && v1.val == v.val && Describes(v1, st, p)
            && v.table <= v1.table && |v1.table| <= |v.table| + 1
            && 0 < n <= |v1.table| && v1.table[n - 1] == k && OperandsIn(k, n - 1)
  {
    hide Meaning, Val;
    var (v1, n) := Known(v, k);
    assert v1.table[n - 1] == k;
    forall a | 0 <= a < N_ATOMS && v1.val[a] != UNKNOWN ensures Meaning(v1.table, v1.val[a], p) == Some(Val(st, a)) {
      MeaningStable(v.table, v1.table, v.val[a], p);
    }
  }

  lemma VStoreFaithful(v: Values, s: Stmt, atom: nat, n: nat, alter: bool, st: State, w: Word, p: Packet)
    requires Shaped(v) && Describes(v, st, p) && atom < N_ATOMS && n <= |v.table|
    requires n != UNKNOWN ==> Meaning(v.table, n, p) == Some(w)
    requires Exec(s, st, p) == Next(Put(st, atom, w))
    ensures Faithful(v, VStore(v, s, atom, n, alter), st, Put(st, atom, w), p)
  {
    hide Exec, Meaning, Val, Put;
    PutFacts(st, atom, w);
    NopDoesNothing(s, st, p);
  }

  /** A register set to a value just numbered. */
  lemma SetFaithful(v: Values, k: Key, s: Stmt, st: State, w: Word, p: Packet)
    requires Shaped(v) && Describes(v, st, p) && OperandsIn(k, |v.table|)
    requires var (v1, n) := Known(v, k); Meaning(v1.table, n, p) == Some(w)
    requires Exec(s, st, p) == Next(Put(st, A_ATOM, w))
    ensures var (v1, n) := Known(v, k);
            Faithful(v, Becomes(SetA(v1, n), s), st, Put(st, A_ATOM, w), p)
  {
    hide Exec, Meaning, Val, Put;
    KnownKeeps(v, k, st, p);
    PutFacts(st, A_ATOM, w);
  }

  lemma LoadFaithful(v: Values, s: Stmt, k: Key, atom: nat, alter: bool, st: State, w: Word, p: Packet)
    requires Shaped(v) && Describes(v, st, p) && atom < N_ATOMS && OperandsIn(k, |v.table|)
    requires var (v1, n) := Known(v, k); Meaning(v1.table, n, p) == Some(w)
    requires Exec(s, st, p) == Next(Put(st, atom, w))
    ensures Faithful(v, OptLoad(v, s, k, atom, alter), st, Put(st, atom, w), p)
  {
    hide Exec, Meaning, Val, Put;
    KnownKeeps(v, k, st, p);
    var (v1, n) := Known(v, k);
    VStoreFaithful(v1, s, atom, n, alter, st, w, p);
  }

  /** What the number of a key means, given what its operands mean. */
  lemma KeyMeaning(v: Values, k: Key, st: State, p: Packet)
    requires Shaped(v) && Describes(v, st, p) && OperandsIn(k, |v.table|)
    ensures var (v1, n) := Known(v, k);
            && (k.code.LdImm? && k.v0 < TWO32 ==> Meaning(v1.table, n, p) == Some(k.v0))
            && (k.code.LdLen? ==> Meaning(v1.table, n, p) == Some(p.wirelen))
            && (k.code.LdAbs? && k.v0 + Bytes(k.code.size) <= |p.data| ==>
                  Meaning(v1.table, n, p) == Some(Fetch(p, k.code.size, k.v0)))
            && (k.code.LdxMsh? && k.v0 < |p.data| ==> Meaning(v1.table, n, p) == Some((p.data[k.v0] % 16) * 4))
  {
    hide Fetch, Apply;
    KnownKeeps(v, k, st, p);
  }

  /** The numbers a statement's own value is computed from are known. Copies may copy an unknown value, and an
      operation simplified because of a 0, or given up, does not compute from the unknown. ldx #len is not numbered,
      so X must be unknown before it. */
  predicate ReadsKnown(v: Values, s: Stmt, alter: bool)
    requires |v.val| == N_ATOMS
  {
    match s.code
    case LdInd(_) => v.val[X_ATOM] != UNKNOWN
    case Neg => v.val[A_ATOM] != UNKNOWN
    case Alu(op, src) =>
      if src == K then v.val[A_ATOM] != UNKNOWN || (alter && s.k == 0 && op in {Add, Lsh, Rsh, Or_, Xor_, Mul, And_})
      else (v.val[A_ATOM] != UNKNOWN && v.val[X_ATOM] != UNKNOWN) || (alter && SkipsUnknown(v, op))
    case LdxLen => v.val[X_ATOM] == UNKNOWN
    case c => Straight(c)
  }

  /** An operation with X, one operand unknown: given up as a shift too far, or simplified because A is 0. */
  predicate SkipsUnknown(v: Values, op: AluOp)
    requires |v.val| == N_ATOMS
  {
    var a, x := v.val[A_ATOM], v.val[X_ATOM];
    if IsConst(v.table, x) then !IsConst(v.table, a) && op in {Lsh, Rsh} && ConstVal(v.table, x) > 31
    else IsConst(v.table, a) && ConstVal(v.table, a) == 0 && op != Sub
  }

  lemma ConstMeaning(t: Table, n: nat, p: Packet)
    requires IsConst(t, n)
    ensures Meaning(t, n, p) == Some(ConstVal(t, n))
  {
  }

  lemma PlainLoad(v: Values, s: Stmt, alter: bool, st: State, p: Packet)
    requires Shaped(v) && Describes(v, st, p) && s.code in {LdAbs(W), LdAbs(H), LdAbs(B), LdLen, LdImm, LdxImm, LdxMsh}
    requires Exec(s, st, p).Next?
    ensures Faithful(v, OptStmt(v, s, alter), st, Exec(s, st, p).st, p)
  {
    hide Faithful, OptLoad, Describes, Shaped, Meaning, Known, Fetch;
    var k := if s.code.LdImm? || s.code.LdxImm? then ConstKey(s.k)
             else Key(s.code, if s.code.LdLen? then 0 else s.k, 0);
    var atom := if s.code.LdxImm? || s.code.LdxMsh? then X_ATOM else A_ATOM;
    var st' := Exec(s, st, p).st;
    KeyMeaning(v, k, st, p);
    LoadFaithful(v, s, k, atom, alter, st, Val(st', atom), p);
  }

  /** A number computed from the numbers of A and X, or of one of them. */
  lemma ComputedMeaning(v: Values, k: Key, st: State, p: Packet)
    requires Shaped(v) && Describes(v, st, p) && OperandsIn(k, |v.table|)
    ensures var (v1, n) := Known(v, k);
            match k.code
            case LdInd(z) =>
              (match Meaning(v.table, k.v1, p)
               case Some(x) => x + k.v0 + Bytes(z) <= |p.data| ==>
                 Meaning(v1.table, n, p) == Some(Fetch(p, z, x + k.v0))
               case None => true)
            case Neg =>
              (match Meaning(v.table, k.v0, p) case Some(a) => Meaning(v1.table, n, p) ==
                Some(Wrap(0 - a)) case None => true)
            case Alu(op, _) =>
              (match (Meaning(v.table, k.v0, p), Meaning(v.table, k.v1, p))
               case (Some(a), Some(b)) => Meaning(v1.table, n, p) == Apply(op, a, b)
               case _ => true)
            case _ => true
  {
    hide Fetch, Apply, Describes;
    KnownKeeps(v, k, st, p);
    var (v1, n) := Known(v, k);
    if FirstIsNumber(k) { MeaningStable(v.table, v1.table, k.v0, p); }
    if SecondIsNumber(k) { MeaningStable(v.table, v1.table, k.v1, p); }
  }

  lemma IndexedLoad(v: Values, s: Stmt, alter: bool, st: State, p: Packet)
    requires Shaped(v) && Describes(v, st, p) && s.code.LdInd? && v.val[X_ATOM] != UNKNOWN
    requires Exec(s, st, p).Next?
    ensures Faithful(v, OptStmt(v, s, alter), st, Exec(s, st, p).st, p)
  {
    hide Faithful, OptLoad, Shaped, Meaning, Known, Fetch;
    ShapedBasics(v);
    var x, z, w := v.val[X_ATOM], s.code.size, Exec(s, st, p).st.a;
    assert Meaning(v.table, x, p) == Some(Val(st, X_ATOM));
    if alter && IsConst(v.table, x) {
      ConstMeaning(v.table, x, p);
      var k := Wrap(s.k + ConstVal(v.table, x));
      KeyMeaning(v, Key(LdAbs(z), k, 0), st, p);
      LoadFaithful(v, Stmt(LdAbs(z), k), Key(LdAbs(z), k, 0), A_ATOM, alter, st, w, p);
    } else {
      ComputedMeaning(v, Key(s.code, s.k, x), st, p);
      LoadFaithful(v, s, Key(s.code, s.k, x), A_ATOM, alter, st, w, p);
    }
  }

  lemma ShapedBasics(v: Values)
    requires Shaped(v)
    ensures |v.val| == N_ATOMS && v.val[A_ATOM] <= |v.table| && v.val[X_ATOM] <= |v.table|
  {
  }

  lemma Negation(v: Values, s: Stmt, alter: bool, st: State, p: Packet)
    requires Shaped(v) && Describes(v, st, p) && s.code.Neg? && v.val[A_ATOM] != UNKNOWN
    ensures Exec(s, st, p).Next? && Faithful(v, OptStmt(v, s, alter), st, Exec(s, st, p).st, p)
  {
    hide Faithful, Shaped, Meaning, Known;
    ShapedBasics(v);
    var a, w := v.val[A_ATOM], Wrap(0 - st.a);
    assert Meaning(v.table, a, p) == Some(Val(st, A_ATOM));
    if alter && IsConst(v.table, a) {
      ConstMeaning(v.table, a, p);
      KeyMeaning(v, ConstKey(w), st, p);
      SetFaithful(v, ConstKey(w), Stmt(LdImm, w), st, w, p);
    } else {
      ComputedMeaning(v, Key(Neg, a, 0), st, p);
      SetFaithful(v, Key(Neg, a, 0), s, st, w, p);
    }
  }

  lemma FoldFaithful(v: Values, op: AluOp, a: Word, b: Word, st: State, w: Word, p: Packet)
    requires Shaped(v) && Describes(v, st, p) && Apply(op, a, b) == Some(w)
    ensures Faithful(v, Fold(v, op, a, b), st, Put(st, A_ATOM, w), p)
    ensures Fold(v, op, a, b).Becomes? && |Fold(v, op, a, b).v.table| <= |v.table| + 1
  {
    hide Faithful, Shaped, Meaning, Apply;
    ShapedBasics(v);
    KeyMeaning(v, ConstKey(w), st, p);
    SetFaithful(v, ConstKey(w), Stmt(LdImm, w), st, w, p);
  }

  /** Faithfulness from a table that has already grown by one entry. */
  lemma AfterOneMore(v: Values, v1: Values, r: Rewritten, st: State, st': State, p: Packet)
    requires v.table <= v1.table && |v1.table| <= |v.table| + 1
    requires Faithful(v1, r, st, st', p) && (r.Becomes? ==> |r.v.table| <= |v1.table| + 1)
    ensures Faithful(v, r, st, st', p)
  {
    hide Shaped, Describes, Exec;
  }

  /** The operation with a constant operand, its value given two numbers. */
  lemma AluKNumber(v: Values, op: AluOp, k: Word, s: Stmt, st: State, w: Word, p: Packet)
    requires Shaped(v) && Describes(v, st, p) && v.val[A_ATOM] != UNKNOWN && Apply(op, st.a, k) == Some(w)
    requires Exec(s, st, p) == Next(Put(st, A_ATOM, w))
    ensures var (v1, kn) := Known(v, ConstKey(k));
            var (v2, n) := Known(v1, Key(Alu(op, K), v.val[A_ATOM], kn));
            Faithful(v, Becomes(SetA(v2, n), s), st, Put(st, A_ATOM, w), p)
  {
    hide Meaning, Apply, Exec, Put, Find;
    ShapedBasics(v);
    var (v1, kn) := Known(v, ConstKey(k));
    KnownKeeps(v, ConstKey(k), st, p);
    KeyMeaning(v, ConstKey(k), st, p);
    var key := Key(Alu(op, K), v.val[A_ATOM], kn);
    assert Meaning(v1.table, v1.val[A_ATOM], p) == Some(Val(st, A_ATOM));
    ComputedMeaning(v1, key, st, p);
    SetFaithful(v1, key, s, st, w, p);
    KnownKeeps(v1, key, st, p);
    var (v2, n) := Known(v1, key);
    AfterOneMore(v, v1, Becomes(SetA(v2, n), s), st, Put(st, A_ATOM, w), p);
  }

  /** What an operation gives when its constant operand is 0. */
  lemma ZeroRight(op: AluOp, a: Word)
    ensures op in {Add, Lsh, Rsh, Or_, Xor_} ==> Apply(op, a, 0) == Some(a)
    ensures op in {Mul, And_} ==> Apply(op, a, 0) == Some(0)
  {
    hide BitOp, Pow2, And, Or, Xor, ShiftLeft, ShiftRight;
    ZeroBits(a);
    ZeroShifts(a);
  }

  /** What an operation gives when the accumulator is 0. */
  lemma ZeroLeft(op: AluOp, x: Word)
    ensures op in {Add, Or_, Xor_} ==> Apply(op, 0, x) == Some(x)
    ensures op !in {Add, Or_, Xor_, Sub} && Apply(op, 0, x).Some? ==> Apply(op, 0, x) == Some(0)
  {
    hide BitOp, Pow2, And, Or, Xor, ShiftLeft, ShiftRight;
    ZeroBits(x);
    ZeroShifts(x);
    if x > 0 { ZeroOver(x); }
  }

  lemma ConstantOperand(v: Values, s: Stmt, alter: bool, st: State, p: Packet)
    requires Shaped(v) && Describes(v, st, p) && s.code.Alu? && s.code.src == K && ReadsKnown(v, s, alter)
    requires Exec(s, st, p).Next?
    ensures Faithful(v, OptAluK(v, s.code.op, s, alter), st, Exec(s, st, p).st, p)
  {
    hide Faithful, Shaped, Meaning, Known, Apply, Fold;
    ShapedBasics(v);
    var op, a := s.code.op, v.val[A_ATOM];
    var w := Exec(s, st, p).st.a;
    assert a != UNKNOWN ==> Meaning(v.table, a, p) == Some(Val(st, A_ATOM));
    assert Exec(s, st, p) == Next(Put(st, A_ATOM, w)) && Apply(op, st.a, s.k) == Some(w);
    ZeroRight(op, st.a);
    if alter && s.k == 0 && op in {Add, Lsh, Rsh, Or_, Xor_} {
      NopDoesNothing(s, st, p);
      PutFacts(st, A_ATOM, w);
      Unchanged(v, s.(code := Nop), st, p);
    } else if alter && s.k == 0 && op in {Mul, And_} {
      KeyMeaning(v, ConstKey(0), st, p);
      SetFaithful(v, ConstKey(0), s.(code := LdImm), st, 0, p);
    } else if alter && IsConst(v.table, a) {
      ConstMeaning(v.table, a, p);
      KnownKeeps(v, ConstKey(s.k), st, p);
      var (v1, kn) := Known(v, ConstKey(s.k));
      FoldFaithful(v1, op, st.a, s.k, st, w, p);
      AfterOneMore(v, v1, Fold(v1, op, st.a, s.k), st, Put(st, A_ATOM, w), p);
    } else {
      AluKNumber(v, op, s.k, s, st, w, p);
    }
  }

  lemma Unchanged(v: Values, s: Stmt, st: State, p: Packet)
    requires Shaped(v) && Describes(v, st, p) && Exec(s, st, p) == Next(st)
    ensures Faithful(v, Becomes(v, s), st, st, p)
  {
  }

  lemma IndexOperand(v: Values, s: Stmt, alter: bool, st: State, p: Packet)
    requires Shaped(v) && Describes(v, st, p) && s.code.Alu? && s.code.src == X && ReadsKnown(v, s, alter)
    requires Exec(s, st, p).Next?
    ensures Faithful(v, OptAluX(v, s.code.op, s, alter), st, Exec(s, st, p).st, p)
  {
    hide Faithful, Shaped, Meaning, Known, Apply, Fold, OptLoad, VStore;
    ShapedBasics(v);
    var op, a, x := s.code.op, v.val[A_ATOM], v.val[X_ATOM];
    var w := Exec(s, st, p).st.a;
    assert a != UNKNOWN ==> Meaning(v.table, a, p) == Some(Val(st, A_ATOM));
    assert x != UNKNOWN ==> Meaning(v.table, x, p) == Some(Val(st, X_ATOM));
    assert Exec(s, st, p) == Next(Put(st, A_ATOM, w)) && Apply(op, st.a, st.x) == Some(w);
    ZeroLeft(op, st.x);
    if IsConst(v.table, a) { ConstMeaning(v.table, a, p); }
    if alter && IsConst(v.table, x) {
      ConstMeaning(v.table, x, p);
      if IsConst(v.table, a) {
        FoldFaithful(v, op, st.a, st.x, st, w, p);
      } else if !(op in {Lsh, Rsh} && st.x > 31) {
        NoDivision(op, st.a, st.x);
        AluKNumber(v, op, st.x, Stmt(Alu(op, K), st.x), st, w, p);
      } else {
        FailureIsFaithful(v, BigShift, st, p);
      }
    } else if alter && IsConst(v.table, a) && st.a == 0 && op in {Add, Or_, Xor_} {
      VStoreFaithful(v, s.(code := Txa), A_ATOM, x, alter, st, w, p);
    } else if alter && IsConst(v.table, a) && st.a == 0 && op != Sub {
      KeyMeaning(v, ConstKey(0), st, p);
      LoadFaithful(v, Stmt(LdImm, 0), ConstKey(0), A_ATOM, alter, st, 0, p);
    } else {
      ComputedMeaning(v, Key(Alu(op, X), a, x), st, p);
      SetFaithful(v, Key(Alu(op, X), a, x), s, st, w, p);
    }
  }

  lemma FailureIsFaithful(v: Values, e: OptError, st: State, p: Packet)
    ensures forall st' :: Faithful(v, Failed(e), st, st', p)
  {
  }

  lemma NoDivision(op: AluOp, a: Word, b: Word)
    requires Apply(op, a, b).Some?
    ensures op in {Div, Mod} ==> b != 0
  {
  }

  lemma Move(v: Values, s: Stmt, alter: bool, st: State, p: Packet)
    requires Shaped(v) && Describes(v, st, p) && s.code in {Txa, Tax, LdMem, LdxMem, St, Stx} && InRange(s)
    ensures Exec(s, st, p).Next? && Faithful(v, OptStmt(v, s, alter), st, Exec(s, st, p).st, p)
  {
    hide Faithful, Meaning, VStore;
    var from := match s.code case Txa => X_ATOM case Tax => A_ATOM case St => A_ATOM case Stx => X_ATOM case _ => s.k;
    var to := match s.code
              case Txa => A_ATOM case Tax => X_ATOM case LdMem => A_ATOM case LdxMem => X_ATOM case _ => s.k;
    var n, w := v.val[from], Val(st, from);
    var s' := if alter && IsConst(v.table, n) && s.code == LdMem then Stmt(LdImm, ConstVal(v.table, n))
              else if alter && IsConst(v.table, n) && s.code == LdxMem then Stmt(LdxImm, ConstVal(v.table, n)) else s;
    if IsConst(v.table, n) { ConstMeaning(v.table, n, p); }
    assert n != UNKNOWN ==> Meaning(v.table, n, p) == Some(w);
    VStoreFaithful(v, s', to, n, alter, st, w, p);
  }

  lemma Understood(v: Values, s: Stmt, alter: bool, st: State, p: Packet)
    requires Shaped(v) && Describes(v, st, p) && InRange(s) && ReadsKnown(v, s, alter) && Exec(s, st, p).Next?
    ensures Faithful(v, OptStmt(v, s, alter), st, Exec(s, st, p).st, p)
  {
    match s.code
    case LdInd(_) => IndexedLoad(v, s, alter, st, p);
    case Neg => Negation(v, s, alter, st, p);
    case Alu(_, src) => if src == K { ConstantOperand(v, s, alter, st, p); } else { IndexOperand(v, s, alter, st, p); }
    case LdAbs(_) => PlainLoad(v, s, alter, st, p);
    case LdLen => PlainLoad(v, s, alter, st, p);
    case LdImm => PlainLoad(v, s, alter, st, p);
    case LdxImm => PlainLoad(v, s, alter, st, p);
    case LdxMsh => PlainLoad(v, s, alter, st, p);
    case LdxLen => LengthInX(v, s, st, p);
    case Nop => NopDoesNothing(s, st, p); Unchanged(v, s, st, p);
    case _ => Move(v, s, alter, st, p);
  }

  /** The packet's length in X: the numbers stay as they were. */
  lemma LengthInX(v: Values, s: Stmt, st: State, p: Packet)
    requires Shaped(v) && Describes(v, st, p) && s.code.LdxLen?
    ensures Exec(s, st, p) == Next(st.(x := p.wirelen))
    ensures Faithful(v, Becomes(v, s), st, st.(x := p.wirelen), p) <==> v.val[X_ATOM] == UNKNOWN || st.x == p.wirelen
  {
    hide Meaning;
    var st' := st.(x := p.wirelen);
    assert Val(st', X_ATOM) == p.wirelen && Val(st, X_ATOM) == st.x;
    assert forall a :: 0 <= a < N_ATOMS && a != X_ATOM ==> Val(st', a) == Val(st, a);
  }

  predicate FromUnknown(k: Key)
  {
    (FirstIsNumber(k) && k.v0 == UNKNOWN) || (SecondIsNumber(k) && k.v1 == UNKNOWN)
  }

  /** A value computed from an unknown one has no meaning. */
  lemma MeansNothing(t: Table, n: nat, p: Packet)
    requires 0 < n <= |t| && FromUnknown(t[n - 1])
    ensures Meaning(t, n, p) == None
  {
  }

  /** A register given a number without meaning: no state is described. */
  lemma NothingDescribes(v: Values, r: Rewritten, st: State, st': State, p: Packet)
    requires HoldsUnknown(r)
    ensures !Faithful(v, r, st, st', p)
  {
    hide Meaning;
    MeansNothing(r.v.table, r.v.val[A_ATOM], p);
  }

  lemma Entered(v: Values, k: Key)
    ensures var (v1, n) := Known(v, k); v1.val == v.val && 0 < n <= |v1.table| && v1.table[n - 1] == k
  {
  }

  /** The accumulator holds a number computed from an unknown value. */
  predicate HoldsUnknown(r: Rewritten)
  {
    r.Becomes? && |r.v.val| == N_ATOMS && 0 < r.v.val[A_ATOM] <= |r.v.table| &&
      FromUnknown(r.v.table[r.v.val[A_ATOM] - 1])
  }

  lemma UnknownAluK(v: Values, op: AluOp, s: Stmt, alter: bool)
    requires |v.val| == N_ATOMS && s.code == Alu(op, K) && !ReadsKnown(v, s, alter) && OptAluK(v, op, s, alter).Becomes?
    ensures HoldsUnknown(OptAluK(v, op, s, alter))
  {
    hide Known, Fold;
    Entered(v, ConstKey(s.k));
    var (v1, kn) := Known(v, ConstKey(s.k));
    Entered(v1, Key(Alu(op, K), v.val[A_ATOM], kn));
  }

  lemma UnknownAluX(v: Values, op: AluOp, s: Stmt, alter: bool)
    requires |v.val| == N_ATOMS && s.code == Alu(op, X) && !ReadsKnown(v, s, alter) && OptAluX(v, op, s, alter).Becomes?
    ensures HoldsUnknown(OptAluX(v, op, s, alter))
  {
    hide Known, Fold, OptLoad, VStore;
    var a, x := v.val[A_ATOM], v.val[X_ATOM];
    if alter && IsConst(v.table, x) {
      var c := ConstVal(v.table, x);
      Entered(v, ConstKey(c));
      var (v1, kn) := Known(v, ConstKey(c));
      Entered(v1, Key(Alu(op, K), a, kn));
    } else {
      Entered(v, Key(Alu(op, X), a, x));
    }
  }

  /** Where the number of a statement that computes from an unknown value comes to stand. */
  lemma UnknownNumbered(v: Values, s: Stmt, alter: bool)
    requires |v.val| == N_ATOMS && InRange(s) && !s.code.LdxLen? && !ReadsKnown(v, s, alter) && Straight(s.code)
    requires OptStmt(v, s, alter).Becomes?
    ensures HoldsUnknown(OptStmt(v, s, alter))
  {
    hide Known, OptAluK, OptAluX, HoldsUnknown;
    match s.code
    case LdInd(_) => UnknownLoad(v, s, alter);
    case Neg => UnknownNeg(v, s, alter);
    case Alu(op, src) => if src == K { UnknownAluK(v, op, s, alter); } else { UnknownAluX(v, op, s, alter); }
    case _ => assert false;
  }

  lemma UnknownLoad(v: Values, s: Stmt, alter: bool)
    requires |v.val| == N_ATOMS && s.code.LdInd? && v.val[X_ATOM] == UNKNOWN
    ensures HoldsUnknown(OptStmt(v, s, alter))
  {
    hide Known;
    Entered(v, Key(s.code, s.k, UNKNOWN));
  }

  lemma UnknownNeg(v: Values, s: Stmt, alter: bool)
    requires |v.val| == N_ATOMS && s.code.Neg? && v.val[A_ATOM] == UNKNOWN
    ensures HoldsUnknown(OptStmt(v, s, alter))
  {
    hide Known;
    Entered(v, Key(Neg, UNKNOWN, 0));
  }

  lemma UnknownGoesOn(v: Values, s: Stmt, alter: bool, st: State, p: Packet)
    requires |v.val| == N_ATOMS && InRange(s) && !s.code.LdxLen? && !ReadsKnown(v, s, alter) && Exec(s, st, p).Next?
    ensures OptStmt(v, s, alter).Becomes?
  {
    hide Find;
  }

  /** On this run, the statement is numbered for what it computes. */
  ghost predicate ReadsKnownOn(v: Values, s: Stmt, alter: bool, st: State, p: Packet)
    requires |v.val| == N_ATOMS
  {
    ReadsKnown(v, s, alter) || (s.code.LdxLen? && st.x == p.wirelen)
  }

  /** Value numbering of one statement that does not reject or trap: its replacement does the same and the numbers
      stay right, exactly when what it reads is known. */
  lemma OptStmtFaithful(v: Values, s: Stmt, alter: bool, st: State, p: Packet)
    requires Shaped(v) && Describes(v, st, p) && InRange(s) && Exec(s, st, p).Next?
    ensures Faithful(v, OptStmt(v, s, alter), st, Exec(s, st, p).st, p) <==> ReadsKnownOn(v, s, alter, st, p)
  {
    hide Faithful, OptStmt, ReadsKnown, Exec, Describes, Shaped, InRange, HoldsUnknown;
    ShapedBasics(v);
    if ReadsKnown(v, s, alter) {
      Understood(v, s, alter, st, p);
    } else if s.code.LdxLen? {
      NotNumbered(v, s, alter);
      LengthInX(v, s, st, p);
      XIsKnown(v, s, alter);
    } else {
      RunsStraight(s, st, p);
      UnknownGoesOn(v, s, alter, st, p);
      UnknownNumbered(v, s, alter);
      NothingDescribes(v, OptStmt(v, s, alter), st, Exec(s, st, p).st, p);
    }
  }

  lemma RunsStraight(s: Stmt, st: State, p: Packet)
    requires Exec(s, st, p).Next?
    ensures Straight(s.code)
  {
  }

  lemma NotNumbered(v: Values, s: Stmt, alter: bool)
    requires |v.val| == N_ATOMS && InRange(s) && s.code.LdxLen?
    ensures OptStmt(v, s, alter) == Becomes(v, s)
  {
  }

  lemma XIsKnown(v: Values, s: Stmt, alter: bool)
    requires |v.val| == N_ATOMS && s.code.LdxLen? && !ReadsKnown(v, s, alter)
    ensures v.val[X_ATOM] != UNKNOWN
  {
  }

  // ------------------------------------------------------------ whole blocks

  datatype BlockRewritten = Block(v: Values, ss: seq<Stmt>) | BlockFailed(e: OptError)

  function OptList(v: Values, ss: seq<Stmt>, alter: bool): BlockRewritten
    requires |v.val| == N_ATOMS && AllInRange(ss)
    decreases |ss|
  {
    if ss == [] then Block(v, [])
    else
      match OptStmt(v, ss[0], alter)
      case Failed(e) => BlockFailed(e)
      case Becomes(v1, s) =>
        OptKeepsSize(v, ss[0], alter);
        match OptList(v1, ss[1..], alter)
        case BlockFailed(e) => BlockFailed(e)
        case Block(v2, rest) => Block(v2, [s] + rest)
  }

  lemma OptKeepsSize(v: Values, s: Stmt, alter: bool)
    requires |v.val| == N_ATOMS && InRange(s)
    ensures OptStmt(v, s, alter).Becomes? ==> |OptStmt(v, s, alter).v.val| == N_ATOMS
  {
    hide Extend, Number, Apply, IsConst, ConstVal;
  }

  /** Each statement reads known numbers when its turn comes. */
  ghost predicate KnownAlong(v: Values, ss: seq<Stmt>, alter: bool)
    requires |v.val| == N_ATOMS && AllInRange(ss)
    decreases |ss|
  {
    ss == [] ||
    (ReadsKnown(v, ss[0], alter) &&
     match OptStmt(v, ss[0], alter)
     case Failed(_) => true
     case Becomes(v1, _) => OptKeepsSize(v, ss[0], alter); KnownAlong(v1, ss[1..], alter))
  }

  /** Value numbering is sound for a block: whenever the original statements run through,
      the rewritten ones leave the same A, X and scratch memory, and the numbers describe them.
      A statement needs at most two new numbers. */
  lemma {:induction false} OptListFaithful(v: Values, ss: seq<Stmt>, alter: bool, st: State, p: Packet)
    requires Shaped(v) && Describes(v, st, p) && AllInRange(ss) && KnownAlong(v, ss, alter)
    requires ExecList(ss, st, p).Next?
    ensures var r := OptList(v, ss, alter);
            r.Block? ==>
              && ExecList(r.ss, st, p) == ExecList(ss, st, p)
              && Shaped(r.v) && Describes(r.v, ExecList(ss, st, p).st, p)
              && v.table <= r.v.table && |r.v.table| <= |v.table| + 2 * |ss|
    decreases |ss|
  {
    hide Exec, OptStmt, ReadsKnown, InRange, Shaped, Describes;
    ShapedBasics(v);
    if ss != [] {
      OptKeepsSize(v, ss[0], alter);
      Understood(v, ss[0], alter, st, p);
      match OptStmt(v, ss[0], alter)
      case Failed(_) =>
      case Becomes(v1, s) =>
        OptListFaithful(v1, ss[1..], alter, Exec(ss[0], st, p).st, p);
        match OptList(v1, ss[1..], alter) {
          case BlockFailed(_) =>
          case Block(_, rest) => assert ([s] + rest)[1..] == rest;
        }
    }
  }

  /** Every replacement does what its statement does on this run, and after each the numbers describe the state. */
  ghost predicate FaithfulAlong(v: Values, ss: seq<Stmt>, alter: bool, st: State, p: Packet)
    requires |v.val| == N_ATOMS && AllInRange(ss) && ExecList(ss, st, p).Next?
    decreases |ss|
  {
    ss == [] ||
    (Faithful(v, OptStmt(v, ss[0], alter), st, Exec(ss[0], st, p).st, p) &&
     match OptStmt(v, ss[0], alter)
     case Failed(_) => true
     case Becomes(v1, _) => OptKeepsSize(v, ss[0], alter); FaithfulAlong(v1, ss[1..], alter, Exec(ss[0], st, p).st, p))
  }

  /** Each statement reads known numbers when its turn comes on this run. */
  ghost predicate KnownOn(v: Values, ss: seq<Stmt>, alter: bool, st: State, p: Packet)
    requires |v.val| == N_ATOMS && AllInRange(ss) && ExecList(ss, st, p).Next?
    decreases |ss|
  {
    ss == [] ||
    (ReadsKnownOn(v, ss[0], alter, st, p) &&
     match OptStmt(v, ss[0], alter)
     case Failed(_) => true
     case Becomes(v1, _) => OptKeepsSize(v, ss[0], alter); KnownOn(v1, ss[1..], alter, Exec(ss[0], st, p).st, p))
  }

  /** For a whole list the numbers stay right step by step exactly when every statement reads known numbers. */
  lemma {:induction false} OptListExact(v: Values, ss: seq<Stmt>, alter: bool, st: State, p: Packet)
    requires Shaped(v) && Describes(v, st, p) && AllInRange(ss) && ExecList(ss, st, p).Next?
    ensures |v.val| == N_ATOMS && (FaithfulAlong(v, ss, alter, st, p) <==> KnownOn(v, ss, alter, st, p))
    decreases |ss|
  {
    hide Exec, OptStmt, ReadsKnownOn, InRange, Shaped, Describes;
    ShapedBasics(v);
    if ss != [] {
      OptStmtFaithful(v, ss[0], alter, st, p);
      match OptStmt(v, ss[0], alter)
      case Failed(_) =>
      case Becomes(v1, s) =>
        OptKeepsSize(v, ss[0], alter);
        if ReadsKnownOn(v, ss[0], alter, st, p) { OptListExact(v1, ss[1..], alter, Exec(ss[0], st, p).st, p); }
    }
  }

  /** The statements of a block, one after the other. */
  method OptStmts(v0: Values, ss: seq<Stmt>, alter: bool) returns (r: BlockRewritten)
    requires |v0.val| == N_ATOMS && AllInRange(ss)
    ensures r == OptList(v0, ss, alter)
  {
    hide OptStmt, InRange;
    var v, out := v0, [];
    for i := 0 to |ss|
      invariant |v.val| == N_ATOMS
      invariant OptList(v0, ss, alter) ==
                match OptList(v, ss[i..], alter)
                case BlockFailed(e) => BlockFailed(e)
                case Block(v', rest) => Block(v', out + rest)
    {
      assert ss[i..][1..] == ss[i + 1..];
      OptKeepsSize(v, ss[i], alter);
      match OptStmt(v, ss[i], alter) {
        case Failed(e) => return BlockFailed(e);
        case Becomes(v', s) =>
          v, out := v', out + [s];
      }
    }
    return Block(v, out);
  }

  // Why what is read must be known: an indexed load from an unknown X is numbered as if
  // all unknown X were equal, so a second load, from another X, is deleted.

  const TWO_LOADS: seq<Stmt> := [Stmt(LdInd(B), 0), Stmt(LdxMem, 0), Stmt(LdInd(B), 0)]
  const ONE_LOAD: seq<Stmt> := [Stmt(LdInd(B), 0), Stmt(LdxMem, 0), Stmt(Nop, 0)]
  const NOTHING_KNOWN: Values := Values([], [0, 0, 0, 0, 0, 0, 0, 0, 0, 0, 0, 0, 0, 0, 0, 0, 0, 0])

  const ONE_KNOWN: Values := Values([Key(LdInd(B), 0, 0)], [0, 0, 0, 0, 0, 0, 0, 0, 0, 0, 0, 0, 0, 0, 0, 0, 1, 0])

  lemma ConfusedSteps()
    ensures OptStmt(NOTHING_KNOWN, Stmt(LdInd(B), 0), true) == Becomes(ONE_KNOWN, Stmt(LdInd(B), 0))
    ensures OptStmt(ONE_KNOWN, Stmt(LdxMem, 0), true) == Becomes(ONE_KNOWN, Stmt(LdxMem, 0))
    ensures OptStmt(ONE_KNOWN, Stmt(LdInd(B), 0), true) == Becomes(ONE_KNOWN, Stmt(Nop, 0))
  {
    var key := Key(LdInd(B), 0, 0);
    assert Find([], key) == 0 && Find([key], key) == 1;
    assert NOTHING_KNOWN.val[A_ATOM := 1] == ONE_KNOWN.val;
    assert ONE_KNOWN.val[X_ATOM := 0] == ONE_KNOWN.val;
  }

  lemma SecondLoadDeleted()
    ensures Shaped(NOTHING_KNOWN) && AllInRange(TWO_LOADS) && !KnownAlong(NOTHING_KNOWN, TWO_LOADS, true)
    ensures OptList(NOTHING_KNOWN, TWO_LOADS, true).Block? && OptList(NOTHING_KNOWN, TWO_LOADS, true).ss == ONE_LOAD
  {
    hide OptStmt;
    ConfusedSteps();
    var s0, s1, nop := Stmt(LdInd(B), 0), Stmt(LdxMem, 0), Stmt(Nop, 0);
    var v1 := ONE_KNOWN;
    assert TWO_LOADS[1..] == [s1, s0] && [s1, s0][1..] == [s0] && [s0][1..] == [];
    assert OptList(v1, [], true) == Block(v1, []);
    assert OptList(v1, [s0], true) == Block(v1, [nop] + []);
    assert OptList(v1, [s1, s0], true) == Block(v1, [s1] + [nop]);
    assert [s0] + ([s1] + [nop]) == ONE_LOAD;
  }

  lemma LoadsDiffer(p: Packet, st: State)
    requires |p.data| == 2 && p.data[0] != p.data[1] && st.x == 0 && st.mem[0] == 1
    ensures ExecList(TWO_LOADS, st, p) == Next(st.(a := p.data[1], x := 1))
    ensures ExecList(ONE_LOAD, st, p) == Next(st.(a := p.data[0], x := 1))
  {
    var s0, s1, nop := Stmt(LdInd(B), 0), Stmt(LdxMem, 0), Stmt(Nop, 0);
    var st1 := st.(a := p.data[0]);
    var st2 := st1.(x := 1);
    var st3 := st2.(a := p.data[1]);
    assert Exec(s0, st, p) == Next(st1) && Exec(s1, st1, p) == Next(st2);
    assert Exec(s0, st2, p) == Next(st3) && Exec(nop, st2, p) == Next(st2);
    hide Exec;
    assert TWO_LOADS == [s0] + [s1] + [s0] && ONE_LOAD == [s0] + [s1] + [nop];
    RunOne(s0, st, p);
    RunThen([s0], s1, st, p);
    RunThen([s0] + [s1], s0, st, p);
    RunThen([s0] + [s1], nop, st, p);
  }

  /** With an unknown number read, the rewriting is wrong: the two lists leave different A. */
  lemma UnknownIndexIsConfused(p: Packet, st: State)
    requires |p.data| == 2 && p.data[0] != p.data[1] && st.x == 0 && st.mem[0] == 1
    ensures Shaped(NOTHING_KNOWN) && Describes(NOTHING_KNOWN, st, p) && AllInRange(TWO_LOADS)
    ensures var r := OptList(NOTHING_KNOWN, TWO_LOADS, true);
            r.Block? && ExecList(TWO_LOADS, st, p).Next? && ExecList(r.ss, st, p) != ExecList(TWO_LOADS, st, p)
  {
    hide OptList, ExecList, AllInRange;
    SecondLoadDeleted();
    LoadsDiffer(p, st);
  }
}
