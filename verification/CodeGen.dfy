/**
 * The boolean code generator. A fragment under construction keeps its
 * unresolved exits as two linked lists threaded through the blocks' own
 * branch fields; a block's `sense` says which of its fields is the link.
 */
module CodeGen {
  import opened Words
  import opened Machine
  import opened FlowGraph

  // ------------------------------------------------- expressions over blocks

  /** A filter: tests (a block's statements and branch) under and, or, not. */
  datatype Filter =
    | Atom(stmts: seq<Stmt>, s: Stmt)
    | Both(a: Filter, b: Filter)
    | Either(a: Filter, b: Filter)
    | Negated(a: Filter)

  /** A filter whose tests have been given blocks. */
  datatype Expr =
    | Test(id: nat, stmts: seq<Stmt>, s: Stmt)
    | And(a: Expr, b: Expr)
    | Or(a: Expr, b: Expr)
    | Not(a: Expr)

  function Erase(e: Expr): Filter
  {
    match e
    case Test(_, ss, s) => Atom(ss, s)
    case And(a, b) => Both(Erase(a), Erase(b))
    case Or(a, b) => Either(Erase(a), Erase(b))
    case Not(a) => Negated(Erase(a))
  }

  function Tests(e: Expr): set<nat>
  {
    match e
    case Test(i, _, _) => {i}
    case And(a, b) => Tests(a) + Tests(b)
    case Or(a, b) => Tests(a) + Tests(b)
    case Not(a) => Tests(a)
  }

  /** Every test has its own block, and ends in a conditional jump. */
  predicate Good(e: Expr)
  {
    match e
    case Test(_, _, s) => s.code.Jmp?
    case And(a, b) => Good(a) && Good(b) && Tests(a) !! Tests(b)
    case Or(a, b) => Good(a) && Good(b) && Tests(a) !! Tests(b)
    case Not(a) => Good(a)
  }

  /** Every test's block is below n. */
  ghost predicate Stored(e: Expr, n: nat)
    ensures Stored(e, n) ==> forall b :: b in Tests(e) ==> b < n
  {
    match e
    case Test(i, _, _) => i < n
    case And(a, b) => Stored(a, n) && Stored(b, n)
    case Or(a, b) => Stored(a, n) && Stored(b, n)
    case Not(a) => Stored(a, n)
  }

  /** The block where evaluation starts: the leftmost test. */
  function First(e: Expr): nat
  {
    match e case Test(i, _, _) => i case And(a, _) => First(a) case Or(a, _) => First(a) case Not(a) => First(a)
  }

  /** The block that stands for the fragment: the rightmost test. */
  function Last(e: Expr): nat
  {
    match e case Test(i, _, _) => i case And(_, b) => Last(b) case Or(_, b) => Last(b) case Not(a) => Last(a)
  }

  /** A branch field of a block: its true branch or its false branch. */
  datatype Exit = Exit(block: nat, onTrue: bool)

  /** The unresolved exits taken when the expression is true, in list order. */
  function TrueExits(e: Expr): seq<Exit>
  {
    match e
    case Test(i, _, _) => [Exit(i, true)]
    case And(a, b) => TrueExits(b)
    case Or(a, b) => TrueExits(b) + TrueExits(a)
    case Not(a) => FalseExits(a)
  }

  function FalseExits(e: Expr): seq<Exit>
  {
    match e
    case Test(i, _, _) => [Exit(i, false)]
    case And(a, b) => FalseExits(b) + FalseExits(a)
    case Or(a, b) => FalseExits(b)
    case Not(a) => TrueExits(a)
  }

  ghost predicate Apart(xs: seq<Exit>, ys: seq<Exit>) { forall x :: x in xs ==> x !in ys }

  ghost predicate Within(xs: seq<Exit>, blocks: set<nat>) { forall x :: x in xs ==> x.block in blocks }

  /** Both lists start at the standing block, with its two different fields, and share no field. */
  lemma {:induction false} ExitFacts(e: Expr)
    requires Good(e)
    ensures TrueExits(e) != [] && FalseExits(e) != []
    ensures TrueExits(e)[0].block == Last(e) == FalseExits(e)[0].block
    ensures TrueExits(e)[0].onTrue != FalseExits(e)[0].onTrue
    ensures Apart(TrueExits(e), FalseExits(e))
    ensures Within(TrueExits(e), Tests(e)) && Within(FalseExits(e), Tests(e))
    ensures Last(e) in Tests(e) && First(e) in Tests(e)
  {
    match e
    case Test(_, _, _) =>
    case And(a, b) => ExitFacts(a); ExitFacts(b);
    case Or(a, b) => ExitFacts(a); ExitFacts(b);
    case Not(a) => ExitFacts(a);
  }

  /** Apart from the standing block, no block is on both lists. */
  lemma {:induction false} ListsShareOnlyLast(e: Expr, x: Exit, y: Exit)
    requires Good(e) && x in TrueExits(e) && y in FalseExits(e) && x.block == y.block
    ensures x.block == Last(e)
  {
    match e
    case Test(_, _, _) =>
    case And(a, b) =>
      ExitFacts(a); ExitFacts(b);
      if y in FalseExits(b) { ListsShareOnlyLast(b, x, y); }
    case Or(a, b) =>
      ExitFacts(a); ExitFacts(b);
      if x in TrueExits(b) { ListsShareOnlyLast(b, x, y); }
    case Not(a) => ListsShareOnlyLast(a, y, x);
  }

  // ------------------------------------------------------------ block store

  datatype Block = Block(stmts: seq<Stmt>, s: Stmt, jt: int, jf: int, sense: bool, head: nat)
  type Store = seq<Block>

  function Field(bs: Store, x: Exit): int
    requires x.block < |bs|
  {
    if x.onTrue then bs[x.block].jt else bs[x.block].jf
  }

  function SetField(bs: Store, x: Exit, v: int): Store
    requires x.block < |bs|
  {
    bs[x.block := if x.onTrue then bs[x.block].(jt := v) else bs[x.block].(jf := v)]
  }

  function Flip(bs: Store, b: nat): Store
    requires b < |bs|
  {
    bs[b := bs[b].(sense := !bs[b].sense)]
  }

  /** The field a block lends to the list it is on. */
  function LinkOf(bs: Store, b: nat): Exit
    requires b < |bs|
  {
    Exit(b, !bs[b].sense)
  }

  ghost predicate InStore(bs: Store, xs: seq<Exit>) { forall x :: x in xs ==> x.block < |bs| }

  /** The exits form a list linked through their own fields and ended by NIL. */
  ghost predicate Chain(bs: Store, xs: seq<Exit>)
    requires InStore(bs, xs)
  {
    xs == [] ||
    (Field(bs, xs[0]) == (if |xs| == 1 then NIL else xs[1].block) && xs[0] !in xs[1..] && Chain(bs, xs[1..]))
  }

  /** Following links by each block's own sense visits exactly these exits. */
  ghost predicate Sensed(bs: Store, xs: seq<Exit>)
    requires InStore(bs, xs)
  {
    forall x :: x in xs ==> LinkOf(bs, x.block) == x
  }

  lemma {:induction false} ChainFrame(bs: Store, bs': Store, xs: seq<Exit>)
    requires InStore(bs, xs) && InStore(bs', xs) && Chain(bs, xs)
    requires forall x :: x in xs ==> Field(bs', x) == Field(bs, x)
    ensures Chain(bs', xs)
    decreases |xs|
  {
    if xs != [] { ChainFrame(bs, bs', xs[1..]); }
  }

  /** Linking the end of one list to the start of another joins them. */
  lemma {:induction false} ChainJoin(bs: Store, bs': Store, xs: seq<Exit>, ys: seq<Exit>)
    requires InStore(bs, xs) && InStore(bs, ys) && |bs'| == |bs| && xs != [] && ys != []
    requires Chain(bs, xs) && Chain(bs, ys) && Apart(xs, ys)
    requires Field(bs', xs[|xs| - 1]) == ys[0].block
    requires forall x :: x in xs && x != xs[|xs| - 1] ==> Field(bs', x) == Field(bs, x)
    requires forall y :: y in ys ==> Field(bs', y) == Field(bs, y)
    ensures InStore(bs', xs + ys) && Chain(bs', xs + ys)
    decreases |xs|
  {
    var zs := xs + ys;
    assert zs[1..] == xs[1..] + ys;
    if |xs| == 1 {
      assert zs[1..] == ys;
      ChainFrame(bs, bs', ys);
    } else {
      ChainJoin(bs, bs', xs[1..], ys);
    }
  }

  /** What backpatching a list of exits leaves in the store. */
  function Patched(bs: Store, xs: seq<Exit>, target: int): (r: Store)
    requires InStore(bs, xs)
    ensures |r| == |bs|
    decreases |xs|
  {
    if xs == [] then bs else Patched(SetField(bs, xs[0], target), xs[1..], target)
  }

  /** Only the branch fields of the exits change, and they all hold the target. */
  lemma {:induction false} PatchedField(bs: Store, xs: seq<Exit>, target: int, y: Exit)
    requires InStore(bs, xs) && y.block < |bs|
    ensures Field(Patched(bs, xs, target), y) == if y in xs then target else Field(bs, y)
    ensures var b, b' := bs[y.block], Patched(bs, xs, target)[y.block];
            (b'.stmts, b'.s, b'.sense, b'.head) == (b.stmts, b.s, b.sense, b.head)
    decreases |xs|
  {
    if xs != [] { PatchedField(SetField(bs, xs[0], target), xs[1..], target, y); }
  }

  // -------------------------------------------------------------- fragments

  /** Exits of `a` that an enclosing and/or has resolved lead to the start of `b`. */
  ghost predicate Joined(bs: Store, e: Expr)
    requires Good(e) && Stored(e, |bs|)
  {
    match e
    case Test(i, ss, s) => bs[i].stmts == ss && bs[i].s == s
    case And(a, b) => ExitFacts(a); Joined(bs, a) && Joined(bs, b) && Leads(bs, TrueExits(a), First(b))
    case Or(a, b) => ExitFacts(a); Joined(bs, a) && Joined(bs, b) && Leads(bs, FalseExits(a), First(b))
    case Not(a) => Joined(bs, a)
  }

  ghost predicate Leads(bs: Store, xs: seq<Exit>, target: int)
    requires InStore(bs, xs)
  {
    forall x :: x in xs ==> Field(bs, x) == target
  }

  /** The two stores hold the same code, and the same branch fields except at open exits of e. */
  ghost predicate SameInside(bs: Store, bs': Store, e: Expr)
    requires Stored(e, |bs|) && Stored(e, |bs'|)
  {
    forall b :: b in Tests(e) ==>
      && bs[b].stmts == bs'[b].stmts && bs[b].s == bs'[b].s
      && (Exit(b, true) !in TrueExits(e) && Exit(b, true) !in FalseExits(e) ==> bs[b].jt == bs'[b].jt)
      && (Exit(b, false) !in TrueExits(e) && Exit(b, false) !in FalseExits(e) ==> bs[b].jf == bs'[b].jf)
  }

  lemma {:induction false} JoinedFrame(bs: Store, bs': Store, e: Expr)
    requires Good(e) && Stored(e, |bs|) && Stored(e, |bs'|) && Joined(bs, e) && SameInside(bs, bs', e)
    ensures Joined(bs', e)
  {
    match e
    case Test(_, _, _) =>
    case And(a, b) =>
      ExitFacts(a); ExitFacts(b);
      JoinedFrame(bs, bs', a);
      JoinedFrame(bs, bs', b);
    case Or(a, b) =>
      ExitFacts(a); ExitFacts(b);
      JoinedFrame(bs, bs', a);
      JoinedFrame(bs, bs', b);
    case Not(a) => JoinedFrame(bs, bs', a);
  }

  /** The invariant of a fragment under construction. */
  ghost predicate Fragment(bs: Store, e: Expr)
  {
    && Good(e) && Stored(e, |bs|)
    && InStore(bs, TrueExits(e)) && InStore(bs, FalseExits(e)) && Last(e) < |bs|
    && Chain(bs, TrueExits(e)) && Chain(bs, FalseExits(e))
    && Sensed(bs, TrueExits(e))
    && (forall x :: x in FalseExits(e) && x.block != Last(e) ==> LinkOf(bs, x.block) == x)
    && bs[Last(e)].head == First(e)
    && Joined(bs, e)
  }

  /** Blocks outside the set are untouched, and no block changes its code. */
  ghost predicate OnlyWithin(bs: Store, bs': Store, blocks: set<nat>)
  {
    && |bs| == |bs'|
    && (forall b :: 0 <= b < |bs| && b !in blocks ==> bs'[b] == bs[b])
  }

  /** Fragments that share no block do not disturb each other. */
  lemma FragmentFrame(bs: Store, bs': Store, e: Expr, blocks: set<nat>)
    requires Fragment(bs, e) && OnlyWithin(bs, bs', blocks) && Tests(e) !! blocks
    ensures Fragment(bs', e)
  {
    ExitFacts(e);
    hide Chain, Joined, TrueExits, FalseExits, Good, Tests, First, Last;
    ChainFrame(bs, bs', TrueExits(e));
    ChainFrame(bs, bs', FalseExits(e));
    JoinedFrame(bs, bs', e);
  }

  /** What gen_and and gen_or change: one list of exits gets a target, one link is made,
      some senses flip, and one head is set. */
  ghost predicate Effect(bs: Store, bs': Store, patched: seq<Exit>, target: int, link: Exit, linked: int,
                         flips: set<nat>, last: nat, head: nat)
  {
    && |bs'| == |bs|
    && (forall y: Exit :: y.block < |bs| ==>
          Field(bs', y) == if y in patched then target else if y == link then linked else Field(bs, y))
    && (forall b :: 0 <= b < |bs| ==>
          && bs'[b].stmts == bs[b].stmts && bs'[b].s == bs[b].s
          && bs'[b].sense == (if b in flips then !bs[b].sense else bs[b].sense)
          && bs'[b].head == (if b == last then head else bs[b].head))
  }

  ghost predicate AndEffect(bs: Store, bs': Store, a: Expr, b: Expr)
  {
    FalseExits(b) != [] &&
    Effect(bs, bs', TrueExits(a), First(b), FalseExits(b)[|FalseExits(b)| - 1], Last(a), {Last(a)}, Last(b), First(a))
  }

  lemma AndKeepsTrueList(bs: Store, bs': Store, a: Expr, b: Expr)
    requires Fragment(bs, a) && Fragment(bs, b) && Tests(a) !! Tests(b) && AndEffect(bs, bs', a, b)
    ensures InStore(bs', TrueExits(b)) && Chain(bs', TrueExits(b)) && Sensed(bs', TrueExits(b))
  {
    ExitFacts(a); ExitFacts(b);
    hide Chain, Joined, Good, Tests, First, Stored, TrueExits, FalseExits;
    assert FalseExits(b)[|FalseExits(b)| - 1] in FalseExits(b);
    ChainFrame(bs, bs', TrueExits(b));
  }

  lemma AndKeepsFalseList(bs: Store, bs': Store, a: Expr, b: Expr)
    requires Fragment(bs, a) && Fragment(bs, b) && Tests(a) !! Tests(b) && AndEffect(bs, bs', a, b)
    ensures InStore(bs', FalseExits(b) + FalseExits(a)) && Chain(bs', FalseExits(b) + FalseExits(a))
  {
    ExitFacts(a); ExitFacts(b);
    hide Chain, Joined, Good, Tests, First, Stored, TrueExits, FalseExits, LinkOf, Sensed;
    assert FalseExits(b)[|FalseExits(b)| - 1] in FalseExits(b);
    ChainJoin(bs, bs', FalseExits(b), FalseExits(a));
  }

  lemma AndKeepsSenses(bs: Store, bs': Store, a: Expr, b: Expr, x: Exit)
    requires Fragment(bs, a) && Fragment(bs, b) && Tests(a) !! Tests(b) && AndEffect(bs, bs', a, b)
    requires x in FalseExits(b) + FalseExits(a) && x.block != Last(b)
    ensures x.block < |bs'| && LinkOf(bs', x.block) == x
  {
    ExitFacts(a); ExitFacts(b);
    hide Chain, Joined, Good, First, Stored, TrueExits, FalseExits, InStore, Field;
    if x in FalseExits(a) {
      assert TrueExits(a)[0] in TrueExits(a);
      if x.block == Last(a) { FalseOfLast(a, x); }
    }
  }

  /** The standing block lends a different field to each list. */
  lemma {:induction false} FalseOfLast(e: Expr, x: Exit)
    requires Good(e) && x in FalseExits(e) && x.block == Last(e)
    ensures x == FalseExits(e)[0]
  {
    ExitFacts(e);
    var t, f := TrueExits(e)[0], FalseExits(e)[0];
    assert t in TrueExits(e) && (x == t || x == f);
  }

  lemma AndKeepsEdges(bs: Store, bs': Store, a: Expr, b: Expr)
    requires Fragment(bs, a) && Fragment(bs, b) && Tests(a) !! Tests(b) && AndEffect(bs, bs', a, b)
    ensures Joined(bs', And(a, b))
  {
    ExitFacts(a); ExitFacts(b);
    assert FalseExits(b)[|FalseExits(b)| - 1] in FalseExits(b);
    InsideUnchanged(bs, bs', a);
    InsideUnchanged(bs, bs', b);
    JoinedFrame(bs, bs', a);
    JoinedFrame(bs, bs', b);
  }

  lemma InsideUnchanged(bs: Store, bs': Store, e: Expr)
    requires Good(e) && Stored(e, |bs|) && |bs| == |bs'|
    requires forall b :: b in Tests(e) ==> bs'[b].stmts == bs[b].stmts && bs'[b].s == bs[b].s
    requires forall y: Exit :: y.block in Tests(e) && y !in TrueExits(e) && y !in FalseExits(e) ==>
             Field(bs', y) == Field(bs, y)
    ensures SameInside(bs, bs', e)
  {
    hide TrueExits, FalseExits, Tests, Stored;
    forall b | b in Tests(e)
      ensures Exit(b, true) !in TrueExits(e) && Exit(b, true) !in FalseExits(e) ==> bs[b].jt == bs'[b].jt
      ensures Exit(b, false) !in TrueExits(e) && Exit(b, false) !in FalseExits(e) ==> bs[b].jf == bs'[b].jf
    {
      assert Field(bs, Exit(b, true)) == bs[b].jt && Field(bs, Exit(b, false)) == bs[b].jf;
      assert Field(bs', Exit(b, true)) == bs'[b].jt && Field(bs', Exit(b, false)) == bs'[b].jf;
    }
  }

  /** The invariant survives gen_and. */
  lemma AndFragment(bs: Store, bs': Store, a: Expr, b: Expr)
    requires Fragment(bs, a) && Fragment(bs, b) && Tests(a) !! Tests(b) && AndEffect(bs, bs', a, b)
    ensures Fragment(bs', And(a, b))
  {
    AndKeepsTrueList(bs, bs', a, b);
    AndKeepsFalseList(bs, bs', a, b);
    AndKeepsEdges(bs, bs', a, b);
    hide Chain, Joined;
    forall x | x in FalseExits(And(a, b)) && x.block != Last(b) ensures LinkOf(bs', x.block) == x {
      AndKeepsSenses(bs, bs', a, b, x);
    }
  }

  /** Flipping the sense of the standing block swaps the two lists. */
  lemma NotFragment(bs: Store, e: Expr)
    requires Fragment(bs, e)
    ensures Fragment(Flip(bs, Last(e)), Not(e))
  {
    var bs' := Flip(bs, Last(e));
    ExitFacts(e);
    hide Chain, Joined, Tests, First, Stored, Good;
    assert TrueExits(Not(e)) == FalseExits(e) && FalseExits(Not(e)) == TrueExits(e);
    ChainFrame(bs, bs', TrueExits(e));
    ChainFrame(bs, bs', FalseExits(e));
    NotInside(bs, bs', e);
    hide TrueExits, FalseExits;
    forall x | x in FalseExits(e) ensures LinkOf(bs', x.block) == x {
      assert TrueExits(e)[0] in TrueExits(e);
      if x.block == Last(e) { FalseOfLast(e, x); }
    }
  }

  lemma NotInside(bs: Store, bs': Store, e: Expr)
    requires Fragment(bs, e) && bs' == Flip(bs, Last(e))
    ensures Good(Not(e)) && Stored(Not(e), |bs'|) && Joined(bs', Not(e)) && bs'[Last(e)].head == First(Not(e))
  {
    JoinedFrame(bs, bs', e);
  }

  /** By De Morgan, an or is built as an and of the negations, negated. */
  lemma OrIsNotAnd(bs: Store, a: Expr, b: Expr)
    requires Fragment(bs, Not(And(Not(a), Not(b))))
    ensures Fragment(bs, Or(a, b))
  {
    var e := Not(And(Not(a), Not(b)));
    var c := And(Not(a), Not(b));
    assert TrueExits(c) == FalseExits(b) && FalseExits(c) == TrueExits(b) + TrueExits(a);
    assert Joined(bs, c) && Joined(bs, Not(a)) && Joined(bs, Not(b));
    assert First(c) == First(a) && Last(c) == Last(b) && Good(c) && Stored(c, |bs|);
    hide Chain;
  }

  ghost predicate OrEffect(bs: Store, bs': Store, a: Expr, b: Expr)
  {
    TrueExits(b) != [] &&
    Effect(bs, bs', FalseExits(a), First(b), TrueExits(b)[|TrueExits(b)| - 1], Last(a), {}, Last(b), First(a))
  }

  function FlipBoth(bs: Store, a: nat, b: nat): Store
    requires a < |bs| && b < |bs|
  {
    Flip(Flip(bs, a), b)
  }

  lemma BothNegated(bs: Store, a: Expr, b: Expr)
    requires Fragment(bs, a) && Fragment(bs, b) && Tests(a) !! Tests(b)
    ensures var bs' := FlipBoth(bs, Last(a), Last(b)); Fragment(bs', Not(a)) && Fragment(bs', Not(b))
  {
    ExitFacts(a); ExitFacts(b);
    var bsa := Flip(bs, Last(a));
    NotFragment(bs, a);
    hide Fragment, Chain, Joined, Good, Stored, TrueExits, FalseExits, First;
    FragmentFrame(bs, bsa, b, Tests(a));
    NotFragment(bsa, b);
    FragmentFrame(bsa, Flip(bsa, Last(b)), Not(a), Tests(b));
  }

  lemma EffectFlipped(bs: Store, bs': Store, xs: seq<Exit>, t: int, link: Exit, linked: int, a: nat, b: nat, head: nat)
    requires a < |bs| && b < |bs| && a != b && Effect(bs, bs', xs, t, link, linked, {}, b, head)
    ensures Effect(FlipBoth(bs, a, b), Flip(bs', b), xs, t, link, linked, {a}, b, head)
  {
    var bsx, bsy := FlipBoth(bs, a, b), Flip(bs', b);
    forall y: Exit | y.block < |bs| ensures Field(bsx, y) == Field(bs, y) && Field(bsy, y) == Field(bs', y) {
    }
  }

  lemma EffectNegated(bs: Store, bs': Store, a: Expr, b: Expr)
    requires Last(a) < |bs| && Last(b) < |bs| && Last(a) != Last(b) && OrEffect(bs, bs', a, b)
    ensures AndEffect(FlipBoth(bs, Last(a), Last(b)), Flip(bs', Last(b)), Not(a), Not(b))
  {
    EffectFlipped(bs, bs', FalseExits(a), First(b), TrueExits(b)[|TrueExits(b)| - 1], Last(a), Last(a), Last(b),
      First(a));
    hide Effect, Flip, FlipBoth;
  }

  /** The invariant survives gen_or. */
  lemma OrFragment(bs: Store, bs': Store, a: Expr, b: Expr)
    requires Fragment(bs, a) && Fragment(bs, b) && Tests(a) !! Tests(b) && OrEffect(bs, bs', a, b)
    ensures Fragment(bs', Or(a, b))
  {
    ExitFacts(a); ExitFacts(b);
    BothNegated(bs, a, b);
    EffectNegated(bs, bs', a, b);
    var bsy := Flip(bs', Last(b));
    assert Flip(bsy, Last(b)) == bs';
    hide Fragment, AndEffect, OrEffect, FlipBoth, TrueExits, FalseExits, Flip;
    AndFragment(FlipBoth(bs, Last(a), Last(b)), bsy, Not(a), Not(b));
    NotFragment(bsy, And(Not(a), Not(b)));
    OrIsNotAnd(bs', a, b);
  }

  // ------------------------------------------------------------- the methods

  class Generator {
    var blocks: Store

    constructor ()
      ensures blocks == []
    {
      blocks := [];
    }

    /** A block for one test, with both exits open. */
    method NewBlock(stmts: seq<Stmt>, s: Stmt) returns (b: nat)
      requires s.code.Jmp?
      modifies this
      ensures b == old(|blocks|) && |blocks| == b + 1 && blocks[..b] == old(blocks)
      ensures Fragment(blocks, Test(b, stmts, s))
    {
      b := |blocks|;
      blocks := blocks + [Block(stmts, s, NIL, NIL, false, b)];
      NewFragment(blocks, b);
    }

    method GenRetblk(v: Word) returns (b: nat)
      modifies this
      ensures b == old(|blocks|) && blocks == old(blocks) + [Block([], Stmt(RetK, v), NIL, NIL, false, b)]
    {
      b := |blocks|;
      blocks := blocks + [Block([], Stmt(RetK, v), NIL, NIL, false, b)];
    }

    /** Gives every exit of the list starting at `list` its target. */
    method Backpatch(list: int, target: int, ghost xs: seq<Exit>)
      requires InStore(blocks, xs) && Chain(blocks, xs) && Sensed(blocks, xs)
      requires list == if xs == [] then NIL else xs[0].block
      modifies this
      ensures blocks == Patched(old(blocks), xs, target)
    {
      var cur := list;
      ghost var rest := xs;
      while cur != NIL
        invariant |blocks| == old(|blocks|) && InStore(blocks, rest) && Chain(blocks, rest) && Sensed(blocks, rest)
        invariant cur == if rest == [] then NIL else rest[0].block
        invariant Patched(old(blocks), xs, target) == Patched(blocks, rest, target)
        decreases |rest|
      {
        ghost var before := blocks;
        var next;
        assert LinkOf(blocks, cur) == rest[0];
        if !blocks[cur].sense {
          next := blocks[cur].jt;
          blocks := blocks[cur := blocks[cur].(jt := target)];
        } else {
          next := blocks[cur].jf;
          blocks := blocks[cur := blocks[cur].(jf := target)];
        }
        assert blocks == SetField(before, rest[0], target);
        ChainFrame(before, blocks, rest[1..]);
        cur := next;
        rest := rest[1..];
      }
    }

    /** Appends the list starting at b1 to the list starting at b0. */
    method Merge(b0: nat, b1: nat, ghost xs: seq<Exit>)
      requires xs != [] && InStore(blocks, xs) && Chain(blocks, xs) && Sensed(blocks, xs) && b0 == xs[0].block
      modifies this
      ensures blocks == SetField(old(blocks), xs[|xs| - 1], b1)
    {
      var cur := b0;
      var next := if !blocks[cur].sense then blocks[cur].jt else blocks[cur].jf;
      ghost var rest := xs;
      assert LinkOf(blocks, cur) == rest[0];
      while next != NIL
        invariant blocks == old(blocks)
        invariant rest != [] && InStore(blocks, rest) && Chain(blocks, rest) && Sensed(blocks, rest)
        invariant cur == rest[0].block && cur < |blocks|
        invariant next == Field(blocks, rest[0]) == if |rest| == 1 then NIL else rest[1].block
        invariant rest[|rest| - 1] == xs[|xs| - 1]
        decreases |rest|
      {
        rest := rest[1..];
        cur := next;
        assert rest[0] in rest;
        assert LinkOf(blocks, cur) == rest[0];
        next := if !blocks[cur].sense then blocks[cur].jt else blocks[cur].jf;
      }
      assert rest[0] in rest;
      assert LinkOf(blocks, cur) == rest[0];
      if !blocks[cur].sense {
        blocks := blocks[cur := blocks[cur].(jt := b1)];
      } else {
        blocks := blocks[cur := blocks[cur].(jf := b1)];
      }
    }

    /** Both: b0's true exits lead to b1; the false lists are joined. */
    method GenAnd(b0: nat, b1: nat, ghost e0: Expr, ghost e1: Expr)
      requires Fragment(blocks, e0) && Fragment(blocks, e1) && Tests(e0) !! Tests(e1)
      requires b0 == Last(e0) && b1 == Last(e1)
      modifies this
      ensures Fragment(blocks, And(e0, e1)) && OnlyWithin(old(blocks), blocks, Tests(e0) + Tests(e1))
    {
      hide Fragment, TrueExits, FalseExits, Patched, Chain, AndEffect, Sensed, InStore, Tests, OnlyWithin, First;
      ghost var bs := blocks;
      ReadyToPatch(blocks, e0);
      AndReady(blocks, e0, e1);
      AndSteps(blocks, e0, e1);
      Backpatch(b0, blocks[b1].head, TrueExits(e0));
      blocks := blocks[b0 := blocks[b0].(sense := !blocks[b0].sense)];
      blocks := blocks[b1 := blocks[b1].(sense := !blocks[b1].sense)];
      Merge(b1, b0, FalseExits(e1));
      blocks := blocks[b1 := blocks[b1].(sense := !blocks[b1].sense)];
      blocks := blocks[b1 := blocks[b1].(head := blocks[b0].head)];
      AndFragment(bs, blocks, e0, e1);
    }

    /** Either: b0's false exits lead to b1; the true lists are joined. */
    method GenOr(b0: nat, b1: nat, ghost e0: Expr, ghost e1: Expr)
      requires Fragment(blocks, e0) && Fragment(blocks, e1) && Tests(e0) !! Tests(e1)
      requires b0 == Last(e0) && b1 == Last(e1)
      modifies this
      ensures Fragment(blocks, Or(e0, e1)) && OnlyWithin(old(blocks), blocks, Tests(e0) + Tests(e1))
    {
      hide Fragment, TrueExits, FalseExits, Patched, Chain, OrEffect, Sensed, InStore, Tests, OnlyWithin, First;
      ghost var bs := blocks;
      OrReady(blocks, e0, e1);
      OrSteps(blocks, e0, e1);
      blocks := blocks[b0 := blocks[b0].(sense := !blocks[b0].sense)];
      Backpatch(b0, blocks[b1].head, FalseExits(e0));
      blocks := blocks[b0 := blocks[b0].(sense := !blocks[b0].sense)];
      Merge(b1, b0, TrueExits(e1));
      blocks := blocks[b1 := blocks[b1].(head := blocks[b0].head)];
      OrFragment(bs, blocks, e0, e1);
    }

    method GenNot(b: nat, ghost e: Expr)
      requires Fragment(blocks, e) && b == Last(e)
      modifies this
      ensures Fragment(blocks, Not(e)) && OnlyWithin(old(blocks), blocks, Tests(e))
    {
      NotFragment(blocks, e);
      ExitFacts(e);
      blocks := blocks[b := blocks[b].(sense := !blocks[b].sense)];
    }

    /** Gives the two lists their return blocks. */
    method FinishParse(p: nat, snaplen: Word, ghost e: Expr) returns (root: nat)
      requires Fragment(blocks, e) && p == Last(e)
      modifies this
      ensures var n := old(|blocks|);
              && |blocks| == n + 2 && root == First(e) && Good(e) && Stored(e, n) && Stored(e, n + 2)
              && Wired(blocks, e, n, n + 1)
              && blocks[n] == Block([], Stmt(RetK, snaplen), NIL, NIL, false, n)
              && blocks[n + 1] == Block([], Stmt(RetK, 0), NIL, NIL, false, n + 1)
    {
      hide Fragment, TrueExits, FalseExits, Patched, Chain, Sensed, InStore, First, Wired, HalfDone;
      ghost var bs := blocks;
      SizeOf(blocks, e);
      var accept := GenRetblk(snaplen);
      FragmentLonger(bs, blocks, e);
      ReadyToPatch(blocks, e);
      TrueListDone(blocks, e, accept);
      Backpatch(p, accept, TrueExits(e));
      blocks := blocks[p := blocks[p].(sense := !blocks[p].sense)];
      ghost var bs2 := blocks;
      var reject := GenRetblk(0);
      HalfLonger(bs2, blocks, e, accept);
      FalseListDone(blocks, e, accept, reject);
      Backpatch(p, reject, FalseExits(e));
      root := blocks[p].head;
    }
  }

  lemma SizeOf(bs: Store, e: Expr)
    requires Fragment(bs, e)
    ensures Good(e) && Stored(e, |bs|) && Stored(e, |bs| + 1) && Stored(e, |bs| + 2) && Last(e) < |bs|
  {
    StoredLonger(e, |bs|, |bs| + 1);
    StoredLonger(e, |bs|, |bs| + 2);
  }

  lemma FragmentLonger(bs: Store, bs': Store, e: Expr)
    requires Fragment(bs, e) && bs <= bs'
    ensures Fragment(bs', e)
  {
    hide Chain, Joined, TrueExits, FalseExits, Good, Tests, First, Last, Stored;
    StoredLonger(e, |bs|, |bs'|);
    ChainFrame(bs, bs', TrueExits(e));
    ChainFrame(bs, bs', FalseExits(e));
    JoinedFrame(bs, bs', e);
  }

  lemma {:induction false} StoredLonger(e: Expr, n: nat, n': nat)
    requires Stored(e, n) && n <= n'
    ensures Stored(e, n')
  {
    match e
    case Test(_, _, _) =>
    case And(a, b) => StoredLonger(a, n, n'); StoredLonger(b, n, n');
    case Or(a, b) => StoredLonger(a, n, n'); StoredLonger(b, n, n');
    case Not(a) => StoredLonger(a, n, n');
  }

  /** The true list has its target; the false list can be followed. */
  ghost predicate HalfDone(bs: Store, e: Expr, t: int)
  {
    && Good(e) && Stored(e, |bs|) && Last(e) < |bs| && bs[Last(e)].head == First(e)
    && Joined(bs, e)
    && InStore(bs, TrueExits(e)) && Leads(bs, TrueExits(e), t)
    && FalseExits(e) != [] && FalseExits(e)[0].block == Last(e)
    && InStore(bs, FalseExits(e)) && Chain(bs, FalseExits(e)) && Sensed(bs, FalseExits(e))
  }

  lemma PatchKeepsInside(bs: Store, e: Expr, xs: seq<Exit>, target: int)
    requires Good(e) && Stored(e, |bs|) && Joined(bs, e) && InStore(bs, xs)
    requires xs == TrueExits(e) || xs == FalseExits(e)
    ensures Joined(Patched(bs, xs, target), e)
  {
    hide Joined, TrueExits, FalseExits, Good, Tests, Stored, Patched;
    PatchedEverywhere(bs, xs, target);
    InsideUnchanged(bs, Patched(bs, xs, target), e);
    JoinedFrame(bs, Patched(bs, xs, target), e);
  }

  lemma FlipKeepsInside(bs: Store, e: Expr, b: nat)
    requires Good(e) && Stored(e, |bs|) && Joined(bs, e) && b < |bs|
    ensures Joined(Flip(bs, b), e)
  {
    hide Joined, TrueExits, FalseExits, Good, Tests, Stored;
    JoinedFrame(bs, Flip(bs, b), e);
  }

  lemma TrueListDone(bs: Store, e: Expr, t: int)
    requires Fragment(bs, e) && InStore(bs, TrueExits(e)) && Last(e) < |bs|
    ensures var bs' := Flip(Patched(bs, TrueExits(e), t), Last(e));
            HalfDone(bs', e, t) && OnlyWithin(bs, bs', Tests(e))
  {
    hide Chain, Joined, TrueExits, FalseExits, Good, Tests, First, Stored, Patched;
    ExitFacts(e);
    var bs0 := Patched(bs, TrueExits(e), t);
    var bs' := Flip(bs0, Last(e));
    PatchKeepsInside(bs, e, TrueExits(e), t);
    FlipKeepsInside(bs0, e, Last(e));
    PatchedWithin(bs, TrueExits(e), t, Tests(e));
    PatchedEverywhere(bs, TrueExits(e), t);
    ChainFrame(bs, bs', FalseExits(e));
    forall x | x in FalseExits(e) ensures LinkOf(bs', x.block) == x {
      assert TrueExits(e)[0] in TrueExits(e);
      if x.block == Last(e) { FalseOfLast(e, x); }
    }
  }

  lemma HalfLonger(bs: Store, bs': Store, e: Expr, t: int)
    requires HalfDone(bs, e, t) && bs <= bs'
    ensures HalfDone(bs', e, t)
  {
    hide Chain, Joined, TrueExits, FalseExits, Good, Tests, First, Stored;
    StoredLonger(e, |bs|, |bs'|);
    ChainFrame(bs, bs', FalseExits(e));
    JoinedFrame(bs, bs', e);
  }

  /** With both lists patched the graph is wired, and nothing outside it has changed. */
  lemma FalseListDone(bs: Store, e: Expr, t: int, f: int)
    requires HalfDone(bs, e, t)
    ensures InStore(bs, FalseExits(e)) && Chain(bs, FalseExits(e)) && Sensed(bs, FalseExits(e))
    ensures FalseExits(e) != [] && FalseExits(e)[0].block == Last(e) && Good(e) && Last(e) < |bs|
    ensures var bs' := Patched(bs, FalseExits(e), f);
            Stored(e, |bs'|) && Wired(bs', e, t, f) && OnlyWithin(bs, bs', Tests(e)) && bs'[Last(e)].head == First(e)
  {
    hide Chain, Joined, TrueExits, FalseExits, Good, Tests, First, Stored, Patched, Wired;
    ExitFacts(e);
    var bs' := Patched(bs, FalseExits(e), f);
    PatchKeepsInside(bs, e, FalseExits(e), f);
    PatchedWithin(bs, FalseExits(e), f, Tests(e));
    PatchedEverywhere(bs, FalseExits(e), f);
    ClosedIsWired(bs', e, t, f);
  }

  /** The branches of a finished graph: each test goes where and, or and not send it. */
  ghost predicate Wired(bs: Store, e: Expr, t: int, f: int)
    requires Good(e) && Stored(e, |bs|)
  {
    match e
    case Test(i, ss, s) => bs[i].stmts == ss && bs[i].s == s && bs[i].jt == t && bs[i].jf == f
    case And(a, b) => Wired(bs, a, First(b), f) && Wired(bs, b, t, f)
    case Or(a, b) => Wired(bs, a, t, First(b)) && Wired(bs, b, t, f)
    case Not(a) => Wired(bs, a, f, t)
  }

  /** Resolved inner edges and resolved exits make a wired graph. */
  lemma {:induction false} ClosedIsWired(bs: Store, e: Expr, t: int, f: int)
    requires Good(e) && Stored(e, |bs|) && Joined(bs, e)
    requires InStore(bs, TrueExits(e)) && InStore(bs, FalseExits(e))
    requires Leads(bs, TrueExits(e), t) && Leads(bs, FalseExits(e), f)
    ensures Wired(bs, e, t, f)
  {
    match e
    case Test(i, _, _) =>
      assert TrueExits(e)[0] in TrueExits(e) && FalseExits(e)[0] in FalseExits(e);
    case And(a, b) =>
      ExitFacts(a); ExitFacts(b);
      ClosedIsWired(bs, a, First(b), f);
      ClosedIsWired(bs, b, t, f);
    case Or(a, b) =>
      ExitFacts(a); ExitFacts(b);
      ClosedIsWired(bs, a, t, First(b));
      ClosedIsWired(bs, b, t, f);
    case Not(a) => ClosedIsWired(bs, a, f, t);
  }

  lemma ReadyToPatch(bs: Store, e: Expr)
    requires Fragment(bs, e)
    ensures TrueExits(e) != [] && TrueExits(e)[0].block == Last(e) && Last(e) < |bs| && bs[Last(e)].head == First(e)
    ensures InStore(bs, TrueExits(e)) && Chain(bs, TrueExits(e)) && Sensed(bs, TrueExits(e))
  {
    ExitFacts(e);
  }

  /** Changing only branch fields and senses of blocks of `a` leaves b's fragment ready. */
  lemma StillReady(bs: Store, bs': Store, a: Expr, b: Expr)
    requires Fragment(bs, b) && OnlyWithin(bs, bs', Tests(a)) && Tests(a) !! Tests(b)
    ensures Last(b) < |bs'| && bs'[Last(b)].head == First(b)
    ensures TrueExits(b) != [] && TrueExits(b)[0].block == Last(b)
    ensures InStore(bs', TrueExits(b)) && Chain(bs', TrueExits(b)) && Sensed(bs', TrueExits(b))
    ensures var bs'' := Flip(bs', Last(b));
            && FalseExits(b) != [] && FalseExits(b)[0].block == Last(b)
            && InStore(bs'', FalseExits(b)) && Chain(bs'', FalseExits(b)) && Sensed(bs'', FalseExits(b))
  {
    hide Fragment;
    FragmentFrame(bs, bs', b, Tests(a));
    ReadyToPatch(bs', b);
    NotFragment(bs', b);
    ReadyToPatch(Flip(bs', Last(b)), Not(b));
  }

  lemma PatchedWithin(bs: Store, xs: seq<Exit>, target: int, blocks: set<nat>)
    requires InStore(bs, xs) && Within(xs, blocks)
    ensures OnlyWithin(bs, Patched(bs, xs, target), blocks)
  {
    forall b | 0 <= b < |bs| && b !in blocks ensures Patched(bs, xs, target)[b] == bs[b] {
      PatchedField(bs, xs, target, Exit(b, true));
      PatchedField(bs, xs, target, Exit(b, false));
    }
  }

  /** The store after patching, one link, and the flips of gen_and. */
  function AndStore(bs: Store, xs: seq<Exit>, target: int, a: nat, b: nat, link: Exit): Store
    requires InStore(bs, xs) && a < |bs| && b < |bs| && link.block < |bs|
  {
    var bs1 := FlipBoth(Patched(bs, xs, target), a, b);
    var bs2 := Flip(SetField(bs1, link, a), b);
    bs2[b := bs2[b].(head := bs2[a].head)]
  }

  lemma PatchedEverywhere(bs: Store, xs: seq<Exit>, target: int)
    requires InStore(bs, xs)
    ensures forall y: Exit :: y.block < |bs| ==>
              Field(Patched(bs, xs, target), y) == if y in xs then target else Field(bs, y)
    ensures forall b :: 0 <= b < |bs| ==>
              var c, c' := bs[b], Patched(bs, xs, target)[b];
              c'.stmts == c.stmts && c'.s == c.s && c'.sense == c.sense && c'.head == c.head
  {
    forall y: Exit | y.block < |bs|
      ensures Field(Patched(bs, xs, target), y) == if y in xs then target else Field(bs, y)
    {
      PatchedField(bs, xs, target, y);
    }
    forall b | 0 <= b < |bs|
      ensures var c, c' := bs[b], Patched(bs, xs, target)[b];
              c'.stmts == c.stmts && c'.s == c.s && c'.sense == c.sense && c'.head == c.head
    {
      PatchedField(bs, xs, target, Exit(b, true));
    }
  }

  lemma AndStoreEffect(bs: Store, xs: seq<Exit>, target: int, a: nat, b: nat, link: Exit)
    requires InStore(bs, xs) && a < |bs| && b < |bs| && a != b && link.block < |bs| && link !in xs
    ensures Effect(bs, AndStore(bs, xs, target, a, b, link), xs, target, link, a, {a}, b, bs[a].head)
  {
    hide Patched;
    PatchedEverywhere(bs, xs, target);
    var bs0 := Patched(bs, xs, target);
    var bs' := AndStore(bs, xs, target, a, b, link);
    forall y: Exit | y.block < |bs| ensures Field(bs', y) == if y == link then a else Field(bs0, y) {
    }
  }

  lemma AndStoreWithin(bs: Store, xs: seq<Exit>, target: int, a: nat, b: nat, link: Exit, blocks: set<nat>)
    requires InStore(bs, xs) && a < |bs| && b < |bs| && link.block < |bs|
    requires Within(xs, blocks) && a in blocks && b in blocks && link.block in blocks
    ensures OnlyWithin(bs, AndStore(bs, xs, target, a, b, link), blocks)
  {
    PatchedWithin(bs, xs, target, blocks);
    hide Patched;
  }

  lemma AndReady(bs: Store, a: Expr, b: Expr)
    requires Fragment(bs, a) && Fragment(bs, b) && Tests(a) !! Tests(b)
    ensures TrueExits(a) != [] && Last(a) < |bs| && Last(b) < |bs| && bs[Last(b)].head == First(b)
    ensures InStore(bs, TrueExits(a)) && InStore(bs, FalseExits(b))
    ensures FalseExits(b) != [] && FalseExits(b)[0].block == Last(b)
    ensures var bs' := FlipBoth(Patched(bs, TrueExits(a), First(b)), Last(a), Last(b));
            InStore(bs', FalseExits(b)) && Chain(bs', FalseExits(b)) && Sensed(bs', FalseExits(b))
  {
    hide Fragment, Chain, TrueExits, FalseExits, Tests, Patched, Sensed;
    FragmentExits(bs, a);
    FragmentExits(bs, b);
    ReadyToPatch(bs, a);
    ReadyToPatch(bs, b);
    var bs0 := Patched(bs, TrueExits(a), First(b));
    PatchedWithin(bs, TrueExits(a), First(b), Tests(a));
    StillReady(bs, Flip(bs0, Last(a)), a, b);
  }

  lemma FragmentExits(bs: Store, e: Expr)
    requires Fragment(bs, e)
    ensures Within(TrueExits(e), Tests(e)) && Last(e) in Tests(e)
    ensures InStore(bs, FalseExits(e)) && FalseExits(e) != [] && FalseExits(e)[0].block == Last(e)
  {
    hide Joined, Chain, Sensed;
    ExitFacts(e);
  }

  lemma AndSteps(bs: Store, a: Expr, b: Expr)
    requires Fragment(bs, a) && Fragment(bs, b) && Tests(a) !! Tests(b) && FalseExits(b) != []
    requires InStore(bs, TrueExits(a)) && InStore(bs, FalseExits(b)) && Last(a) < |bs| && Last(b) < |bs|
    ensures FalseExits(b)[|FalseExits(b)| - 1].block < |bs|
    ensures var bs' := AndStore(bs, TrueExits(a), First(b), Last(a), Last(b), FalseExits(b)[|FalseExits(b)| - 1]);
            AndEffect(bs, bs', a, b) && OnlyWithin(bs, bs', Tests(a) + Tests(b))
  {
    ExitFacts(a); ExitFacts(b);
    ReadyToPatch(bs, a);
    hide Fragment, TrueExits, FalseExits, Tests, AndStore;
    var link := FalseExits(b)[|FalseExits(b)| - 1];
    assert link in FalseExits(b);
    AndStoreEffect(bs, TrueExits(a), First(b), Last(a), Last(b), link);
    AndStoreWithin(bs, TrueExits(a), First(b), Last(a), Last(b), link, Tests(a) + Tests(b));
  }

  /** The store after patching, one link, and no net flip, as gen_or leaves it. */
  function OrStore(bs: Store, xs: seq<Exit>, target: int, a: nat, b: nat, link: Exit): Store
    requires InStore(bs, xs) && a < |bs| && b < |bs| && link.block < |bs|
  {
    var bs1 := SetField(Flip(Patched(Flip(bs, a), xs, target), a), link, a);
    bs1[b := bs1[b].(head := bs1[a].head)]
  }

  lemma OrStoreEffect(bs: Store, xs: seq<Exit>, target: int, a: nat, b: nat, link: Exit)
    requires InStore(bs, xs) && a < |bs| && b < |bs| && a != b && link.block < |bs| && link !in xs
    ensures Effect(bs, OrStore(bs, xs, target, a, b, link), xs, target, link, a, {}, b, bs[a].head)
  {
    hide Patched;
    PatchedEverywhere(Flip(bs, a), xs, target);
    assert forall y: Exit :: y.block < |bs| ==> Field(Flip(bs, a), y) == Field(bs, y);
  }

  lemma OrStoreWithin(bs: Store, xs: seq<Exit>, target: int, a: nat, b: nat, link: Exit, blocks: set<nat>)
    requires InStore(bs, xs) && a < |bs| && b < |bs| && link.block < |bs|
    requires Within(xs, blocks) && a in blocks && b in blocks && link.block in blocks
    ensures OnlyWithin(bs, OrStore(bs, xs, target, a, b, link), blocks)
  {
    PatchedWithin(Flip(bs, a), xs, target, blocks);
    hide Patched;
  }

  lemma OrReady(bs: Store, a: Expr, b: Expr)
    requires Fragment(bs, a) && Fragment(bs, b) && Tests(a) !! Tests(b)
    ensures Last(a) < |bs| && Last(b) < |bs| && Last(a) != Last(b) && bs[Last(b)].head == First(b)
    ensures FalseExits(a) != [] && FalseExits(a)[0].block == Last(a)
    ensures InStore(bs, FalseExits(a)) && InStore(bs, TrueExits(b))
    ensures var bs0 := Flip(bs, Last(a));
            && InStore(bs0, FalseExits(a)) && Chain(bs0, FalseExits(a)) && Sensed(bs0, FalseExits(a))
            && TrueExits(b) != [] && TrueExits(b)[0].block == Last(b)
            && var bs' := Flip(Patched(bs0, FalseExits(a), First(b)), Last(a));
               InStore(bs', TrueExits(b)) && Chain(bs', TrueExits(b)) && Sensed(bs', TrueExits(b))
  {
    ExitFacts(a); ExitFacts(b);
    var bs0 := Flip(bs, Last(a));
    assert OnlyWithin(bs, bs, {});
    NotFragment(bs, a);
    ReadyToPatch(bs, b);
    hide Fragment;
    ReadyToPatch(bs0, Not(a));
    hide Joined, Chain, TrueExits, FalseExits, Tests, Patched, Sensed;
    PatchedWithin(bs0, FalseExits(a), First(b), Tests(a));
    StillReady(bs, Flip(Patched(bs0, FalseExits(a), First(b)), Last(a)), a, b);
  }

  lemma OrSteps(bs: Store, a: Expr, b: Expr)
    requires Fragment(bs, a) && Fragment(bs, b) && Tests(a) !! Tests(b) && TrueExits(b) != []
    requires InStore(bs, FalseExits(a)) && InStore(bs, TrueExits(b)) && Last(a) < |bs| && Last(b) < |bs|
    ensures TrueExits(b)[|TrueExits(b)| - 1].block < |bs|
    ensures var bs' := OrStore(bs, FalseExits(a), First(b), Last(a), Last(b), TrueExits(b)[|TrueExits(b)| - 1]);
            OrEffect(bs, bs', a, b) && OnlyWithin(bs, bs', Tests(a) + Tests(b))
  {
    ExitFacts(a); ExitFacts(b);
    ReadyToPatch(bs, a);
    hide Fragment, TrueExits, FalseExits, Tests, OrStore;
    var link := TrueExits(b)[|TrueExits(b)| - 1];
    assert link in TrueExits(b);
    OrStoreEffect(bs, FalseExits(a), First(b), Last(a), Last(b), link);
    OrStoreWithin(bs, FalseExits(a), First(b), Last(a), Last(b), link, Tests(a) + Tests(b));
  }

  lemma NewFragment(bs: Store, b: nat)
    requires b < |bs| && bs[b].s.code.Jmp? && bs[b].jt == NIL == bs[b].jf && !bs[b].sense && bs[b].head == b
    ensures Fragment(bs, Test(b, bs[b].stmts, bs[b].s))
  {
  }
}
