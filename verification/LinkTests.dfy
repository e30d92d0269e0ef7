/** Tests of fields at fixed places of the link-layer header. */
module LinkTests {
  import opened Words
  import opened Machine
  import opened MachineLaws
  import opened Acceptance
  import opened CodeGen
  import opened Compiler

  // ------------------------------------------------- filters over loaded fields

  /** Every test loads one field, masks it or not, and compares it with a constant. */
  predicate LoadsOnly(f: Filter)
  {
    match f
    case Atom(ss, s) =>
      && 1 <= |ss| <= 2 && ss[0].code.LdAbs? && (|ss| == 2 ==> ss[1].code == Alu(And_, K))
      && s.code.Jmp? && s.code.src == K
    case Both(a, b) => LoadsOnly(a) && LoadsOnly(b)
    case Either(a, b) => LoadsOnly(a) && LoadsOnly(b)
    case Negated(a) => LoadsOnly(a)
  }

  /** Three-valued and, or, not: an answer that is missing ends the evaluation. */
  function AndThen(a: Option<bool>, b: Option<bool>): Option<bool> { if a == Some(true) then b else a }
  function OrElse(a: Option<bool>, b: Option<bool>): Option<bool> { if a == Some(false) then b else a }
  function Opposite(a: Option<bool>): Option<bool> { match a case Some(v) => Some(!v) case None => None }

  function AskField(z: Size, k: Word, masks: seq<Stmt>, op: JmpOp, v: Word, p: Packet): Option<bool>
    requires |masks| <= 1
  {
    if k + Bytes(z) <= |p.data| then
      var w := Fetch(p, z, k);
      Some(Compare(op, if masks == [] then w else Words.And(w, masks[0].k), v))
    else None
  }

  /** What the filter says about a packet; None where a field is not captured. */
  function Ask(f: Filter, p: Packet): Option<bool>
    requires LoadsOnly(f)
  {
    match f
    case Atom(ss, s) => AskField(ss[0].code.size, ss[0].k, ss[1..], s.code.jop, s.k, p)
    case Both(a, b) => AndThen(Ask(a, p), Ask(b, p))
    case Either(a, b) => OrElse(Ask(a, p), Ask(b, p))
    case Negated(a) => Opposite(Ask(a, p))
  }

  lemma {:induction false} LoadsOnlyIsLegal(f: Filter)
    requires LoadsOnly(f)
    ensures Sound(f) && LegalFilter(f) && StraightFilter(f)
  {
    match f
    case Atom(_, _) =>
    case Both(a, b) => LoadsOnlyIsLegal(a); LoadsOnlyIsLegal(b);
    case Either(a, b) => LoadsOnlyIsLegal(a); LoadsOnlyIsLegal(b);
    case Negated(a) => LoadsOnlyIsLegal(a);
  }

  /** The answer is what evaluation says, whatever the registers hold; without one the packet is rejected. */
  lemma {:induction false} AskIsEval(f: Filter, st: State, p: Packet)
    requires LoadsOnly(f)
    ensures Sound(f)
    ensures match Eval(f, st, p)
            case Says(v, _) => Ask(f, p) == Some(v)
            case Ends(r) => Ask(f, p) == None && r == Rejected
  {
    LoadsOnlyIsLegal(f);
    match f
    case Atom(ss, s) => AskIsTest(ss, s, st, p);
    case Both(a, b) =>
      AskIsEval(a, st, p);
      match Eval(a, st, p) {
        case Says(_, st') => AskIsEval(b, st', p);
        case Ends(_) =>
      }
    case Either(a, b) =>
      AskIsEval(a, st, p);
      match Eval(a, st, p) {
        case Says(_, st') => AskIsEval(b, st', p);
        case Ends(_) =>
      }
    case Negated(a) => AskIsEval(a, st, p);
  }

  lemma AskIsTest(ss: seq<Stmt>, s: Stmt, st: State, p: Packet)
    requires LoadsOnly(Atom(ss, s))
    ensures match EvalTest(ss, s, st, p)
            case Says(v, _) => AskField(ss[0].code.size, ss[0].k, ss[1..], s.code.jop, s.k, p) == Some(v)
            case Ends(r) => AskField(ss[0].code.size, ss[0].k, ss[1..], s.code.jop, s.k, p) == None && r == Rejected
  {
    hide Fetch, Words.And, AbsInside, Compare;
    if |ss| == 1 {
      assert ss == [ss[0]];
      RunOne(ss[0], st, p);
    } else {
      assert ss == [ss[0]] + [ss[1]] && ss[1..] == [ss[1]];
      RunThen([ss[0]], ss[1], st, p);
      RunOne(ss[0], st, p);
    }
  }

  /** A compiled filter of this kind accepts exactly the packets it answers true for. */
  lemma AskedProgram(prog: seq<Insn>, f: Filter, snaplen: Word, st: State, p: Packet)
    requires LoadsOnly(f) && Sound(f) && Compiles(prog, f, snaplen)
    ensures var r := Run(prog, 0, st, p, |prog|);
            r.Some? && !r.value.Trapped? && Value(r.value) == if Ask(f, p) == Some(true) then snaplen else 0
  {
    hide Run, Ask;
    AskIsEval(f, st, p);
    match Eval(f, st, p) case Says(_, _) => case Ends(_) =>
  }

  // ---------------------------------------------------------- single fields

  /** A field, masked, compared with a value; the test can be reversed for greater and greater-or-equal. */
  function GenNcmp(link: Word, offset: Word, z: Size, mask: Word, op: JmpOp, reverse: bool, v: Word): (f: Filter)
    ensures LoadsOnly(f) && Bound(f) <= 5
  {
    var load := Stmt(LdAbs(z), Wrap(link + offset));
    var f := Atom(if mask != 0xffff_ffff then [load, Stmt(Alu(And_, K), mask)] else [load], Stmt(Jmp(op, K), v));
    if reverse && (op == Jgt || op == Jge) then Negated(f) else f
  }

  /** The number the field's bytes write, the first of them highest, is compared under the mask;
      without the field there is no answer. */
  lemma NcmpAsks(link: Word, offset: Word, z: Size, mask: Word, op: JmpOp, reverse: bool, v: Word, p: Packet)
    ensures var k := Wrap(link + offset);
            if k + Bytes(z) <= |p.data| then
              && FromBytes(p.data[k..k + Bytes(z)]) < TWO32
              && Ask(GenNcmp(link, offset, z, mask, op, reverse, v), p) ==
                 Some(Compare(op, Words.And(FromBytes(p.data[k..k + Bytes(z)]), mask), v) !=
                      (reverse && (op == Jgt || op == Jge)))
            else Ask(GenNcmp(link, offset, z, mask, op, reverse, v), p) == None
  {
    hide Fetch, FromBytes, Words.And, Compare;
    var k := Wrap(link + offset);
    if k + Bytes(z) <= |p.data| {
      FullMask(Fetch(p, z, k));
      FetchIsNumber(p, z, k);
    }
  }

  function GenCmp(link: Word, offset: Word, z: Size, v: Word): Filter
  {
    GenNcmp(link, offset, z, 0xffff_ffff, Jeq, false, v)
  }

  // ------------------------------------------------------------ byte strings

  /** The filter tells whether the bytes at `at` are v, and has no answer if they are not all captured. */
  ghost predicate TestsBytes(f: Filter, at: nat, v: seq<Octet>)
  {
    LoadsOnly(f) &&
    forall p: Packet :: Ask(f, p) == if at + |v| <= |p.data| then Some(p.data[at..at + |v|] == v) else None
  }

  lemma BigEndianIsExact(a: seq<Octet>, b: seq<Octet>)
    requires |a| == 4 == |b|
    ensures BigEndian4(a[0], a[1], a[2], a[3]) == BigEndian4(b[0], b[1], b[2], b[3]) <==> a == b
    ensures BigEndian2(a[0], a[1]) == BigEndian2(b[0], b[1]) <==> a[..2] == b[..2]
  {
    if a[0] == b[0] && a[1] == b[1] {
      assert a[..2] == b[..2];
      if a[2] == b[2] && a[3] == b[3] { assert a == b; }
    }
  }

  function ValueOf(v: seq<Octet>): Word
    requires |v| == 4 || |v| == 2 || |v| == 1
  {
    if |v| == 4 then BigEndian4(v[0], v[1], v[2], v[3]) else if |v| == 2 then BigEndian2(v[0], v[1]) else v[0]
  }

  function ChunkSize(n: nat): Size { if n == 4 then W else if n == 2 then H else B }

  /** Loading a word, half-word or byte and comparing it compares its bytes. */
  lemma CmpTestsBytes(link: Word, offset: Word, v: seq<Octet>)
    requires (|v| == 4 || |v| == 2 || |v| == 1) && link + offset + |v| < TWO32
    ensures TestsBytes(GenCmp(link, offset, ChunkSize(|v|), ValueOf(v)), link + offset, v)
  {
    hide Fetch, FromBytes, Ask, ValueOf, Words.And, GenNcmp;
    var at, z := link + offset, ChunkSize(|v|);
    forall p: Packet
      ensures Ask(GenCmp(link, offset, z, ValueOf(v)), p) ==
              if at + |v| <= |p.data| then Some(p.data[at..at + |v|] == v) else None
    {
      NcmpAsks(link, offset, z, 0xffff_ffff, Jeq, false, ValueOf(v), p);
      if at + |v| <= |p.data| {
        FullMask(Fetch(p, z, at));
        FetchIsNumber(p, z, at);
        FieldIsBytes(p, at, v);
      }
    }
  }

  lemma FieldIsBytes(p: Packet, at: nat, v: seq<Octet>)
    requires (|v| == 4 || |v| == 2 || |v| == 1) && at + |v| <= |p.data|
    ensures Fetch(p, ChunkSize(|v|), at) == ValueOf(v) <==> p.data[at..at + |v|] == v
  {
    hide BigEndian4, BigEndian2;
    var d := p.data[at..at + |v|];
    if |v| == 4 {
      BigEndianIsExact(d, v);
    } else if |v| == 2 {
      BigEndianIsExact(d + [0, 0], v + [0, 0]);
      assert (d + [0, 0])[..2] == d && (v + [0, 0])[..2] == v;
    } else {
      assert d == [p.data[at]] && v == [v[0]];
    }
  }

  /** A test of later bytes and then of the bytes before them tests all of them. */
  lemma BytesBefore(f: Filter, g: Filter, at: nat, v: seq<Octet>, k: nat)
    requires 0 < k < |v| && TestsBytes(f, at + k, v[k..]) && TestsBytes(g, at, v[..k])
    ensures TestsBytes(Both(f, g), at, v)
  {
    forall p: Packet
      ensures Ask(Both(f, g), p) == if at + |v| <= |p.data| then Some(p.data[at..at + |v|] == v) else None
    {
      if at + |v| <= |p.data| {
        var d := p.data[at..at + |v|];
        assert d[k..] == p.data[at + k..at + |v|] && d[..k] == p.data[at..at + k];
        assert d == d[..k] + d[k..] && v == v[..k] + v[k..];
      }
    }
  }

  /** gen_bcmp: compares a byte string from its end, four bytes at a time, then two, then one. */
  method GenBcmp(link: Word, offset: Word, v: seq<Octet>) returns (b: Option<Filter>)
    requires link + offset + |v| < TWO32
    ensures b == None <==> v == []
    ensures b.Some? ==> TestsBytes(b.value, link + offset, v) && Bound(b.value) <= 5 * |v|
  {
    hide TestsBytes, ValueOf, Bound;
    var size := |v|;
    b := None;
    while size >= 4
      invariant 0 <= size <= |v| && Rest(b, link + offset, v, size)
    {
      b := AndChunk(link, offset, v, size, 4, b);
      size := size - 4;
    }
    while size >= 2
      invariant 0 <= size <= |v| && Rest(b, link + offset, v, size)
    {
      b := AndChunk(link, offset, v, size, 2, b);
      size := size - 2;
    }
    if size > 0 {
      b := AndChunk(link, offset, v, size, 1, b);
    }
    assert v[0..] == v;
  }

  /** What has been built so far tests the bytes from `size` on. */
  ghost predicate Rest(b: Option<Filter>, at: nat, v: seq<Octet>, size: nat)
    requires size <= |v|
  {
    match b
    case None => size == |v|
    case Some(f) => size < |v| && TestsBytes(f, at + size, v[size..]) && Bound(f) <= 5 * (|v| - size)
  }

  /** The test of the n bytes before `size`, after what is there already. */
  method AndChunk(link: Word, offset: Word, v: seq<Octet>, size: nat, n: nat, b: Option<Filter>)
    returns (b': Option<Filter>)
    requires link + offset + |v| < TWO32 && size <= |v| && Rest(b, link + offset, v, size)
    requires n <= size && (n == 4 || n == 2 || n == 1)
    ensures Rest(b', link + offset, v, size - n)
  {
    hide TestsBytes, ValueOf, GenNcmp;
    var lo := size - n;
    var chunk := v[lo..size];
    var tmp := GenCmp(link, offset + lo, ChunkSize(n), ValueOf(chunk));
    CmpTestsBytes(link, offset + lo, chunk);
    var rest := v[lo..];
    assert rest[..n] == chunk && rest[n..] == v[size..];
    match b {
      case None =>
        assert chunk == rest;
        b' := Some(tmp);
      case Some(f) =>
        BytesBefore(f, tmp, link + offset + lo, rest, n);
        b' := Some(Both(f, tmp));
    }
  }
}
