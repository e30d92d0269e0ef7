/** Tests of the source and destination address of 802.11 frames. */
module Wlan {
  import opened Words
  import opened Machine
  import opened CodeGen
  import opened Compiler
  import opened LinkTests
  import V = Validator

  // ------------------------------------------------------- the address layout

  // Bits of the two frame-control octets, sections 9.2.4.1.3 and 9.2.4.1.4 of IEEE 802.11-2016.
  predicate LowTypeBit(fc0: Octet) { fc0 / 4 % 2 == 1 }
  predicate IsData(fc0: Octet) { fc0 / 8 % 2 == 1 }
  predicate ToDs(fc1: Octet) { fc1 % 2 == 1 }
  predicate FromDs(fc1: Octet) { fc1 / 2 % 2 == 1 }

  datatype Dir = Src | Dst | AndBoth | OrEither

  /** Where a data frame carries an address: section 9.3.2.1 of IEEE 802.11-2016. */
  function DataOffset(dir: Dir, fc1: Octet): Word
  {
    if dir == Src then (if !FromDs(fc1) then 10 else if !ToDs(fc1) then 16 else 24)
    else if ToDs(fc1) then 16 else 4
  }

  /** Where a management frame carries it. */
  function ManagementOffset(dir: Dir): Word { if dir == Src then 10 else 4 }

  function BytesAre(p: Packet, at: nat, v: seq<Octet>): Option<bool>
  {
    if at + |v| <= |p.data| then Some(p.data[at..at + |v|] == v) else None
  }

  /** Whether the frame has the address: no for frames of the types without one, no answer if the
      octets that decide it are not captured. */
  function HasAddress(p: Packet, link: Word, dir: Dir, eaddr: seq<Octet>): Option<bool>
  {
    if link + 1 > |p.data| then None
    else if LowTypeBit(p.data[link]) then Some(false)
    else if !IsData(p.data[link]) then BytesAre(p, link + ManagementOffset(dir), eaddr)
    else if link + 2 > |p.data| then None
    else BytesAre(p, link + DataOffset(dir, p.data[link + 1]), eaddr)
  }

  // ----------------------------------------------------------------- bit tests

  lemma BitOpHalves(x: nat, n: nat)
    requires x < 256
    ensures BitOp(BitAnd, x, 1, n + 1) == x % 2
    ensures BitOp(BitAnd, x, 2, n + 2) == 2 * (x / 2 % 2)
    ensures BitOp(BitAnd, x, 4, n + 3) == 4 * (x / 4 % 2)
    ensures BitOp(BitAnd, x, 8, n + 4) == 8 * (x / 8 % 2)
  {
    AndOne(x, n);
    AndOne(x / 2, n);
    AndOne(x / 4, n);
    AndOne(x / 8, n);
    assert x / 2 / 2 == x / 4 && x / 4 / 2 == x / 8;
    assert BitOp(BitAnd, x / 4, 2, n + 2) == 2 * (x / 8 % 2);
    assert BitOp(BitAnd, x / 2, 2, n + 2) == 2 * (x / 4 % 2);
    assert BitOp(BitAnd, x / 2, 4, n + 3) == 4 * (x / 8 % 2);
  }

  lemma AndOne(x: nat, n: nat)
    ensures BitOp(BitAnd, x, 1, n + 1) == x % 2
  {
    NothingSet(x / 2, n);
  }

  lemma {:induction false} NothingSet(x: nat, n: nat)
    ensures BitOp(BitAnd, x, 0, n) == 0
  {
    if n > 0 { NothingSet(x / 2, n - 1); }
  }

  /** jset of one bit looks at that bit. */
  lemma JsetBits(x: Octet)
    ensures Words.And(x, 1) != 0 <==> x % 2 == 1
    ensures Words.And(x, 2) != 0 <==> x / 2 % 2 == 1
    ensures Words.And(x, 4) != 0 <==> x / 4 % 2 == 1
    ensures Words.And(x, 8) != 0 <==> x / 8 % 2 == 1
  {
    hide BitOp;
    BitOpHalves(x, 31);
    BitOpHalves(x, 30);
    BitOpHalves(x, 29);
    BitOpHalves(x, 28);
  }

  /** A test of one bit of a header octet. */
  function GenJset(link: Word, offset: Word, bit: Word): (f: Filter)
    ensures LoadsOnly(f) && Bound(f) == 4
  {
    Atom([Stmt(LdAbs(B), Wrap(link + offset))], Stmt(Jmp(Jset, K), bit))
  }

  lemma JsetAsks(link: Word, offset: Word, bit: Word, p: Packet)
    requires link + offset < TWO32
    ensures Ask(GenJset(link, offset, bit), p) ==
            if link + offset < |p.data| then Some(Words.And(p.data[link + offset], bit) != 0) else None
  {
    hide Words.And;
  }

  // ----------------------------------------------------------- the generator

  /** The checks of gen_wlanhostop, in the order its gen_and and gen_or calls put them; a10, a16, a24
      compare the six bytes at that offset. */
  function SourceChecks(link: Word, a10: Filter, a16: Filter, a24: Filter): Filter
  {
    var toDs, fromDs, data, low := GenJset(link, 1, 1), GenJset(link, 1, 2), GenJset(link, 0, 8), GenJset(link, 0, 4);
    var withFromDs := Both(fromDs, Either(Both(Negated(toDs), a16), Both(toDs, a24)));
    var dataFrame := Both(data, Either(Both(Negated(fromDs), a10), withFromDs));
    Both(Negated(low), Either(Both(Negated(data), a10), dataFrame))
  }

  function DestinationChecks(link: Word, a4: Filter, a16: Filter): Filter
  {
    var toDs, data, low := GenJset(link, 1, 1), GenJset(link, 0, 8), GenJset(link, 0, 4);
    var dataFrame := Both(data, Either(Both(Negated(toDs), a4), Both(toDs, a16)));
    Both(Negated(low), Either(Both(Negated(data), a4), dataFrame))
  }

  /** What the bit tests say, in the terms of the layout. */
  lemma FrameControl(link: Word, p: Packet)
    requires link + 2 < TWO32
    ensures Ask(GenJset(link, 0, 4), p) == if link < |p.data| then Some(LowTypeBit(p.data[link])) else None
    ensures Ask(GenJset(link, 0, 8), p) == if link < |p.data| then Some(IsData(p.data[link])) else None
    ensures Ask(GenJset(link, 1, 1), p) == if link + 1 < |p.data| then Some(ToDs(p.data[link + 1])) else None
    ensures Ask(GenJset(link, 1, 2), p) == if link + 1 < |p.data| then Some(FromDs(p.data[link + 1])) else None
  {
    hide Words.And, Ask;
    JsetAsks(link, 0, 4, p);
    JsetAsks(link, 0, 8, p);
    JsetAsks(link, 1, 1, p);
    JsetAsks(link, 1, 2, p);
    if link < |p.data| { JsetBits(p.data[link]); }
    if link + 1 < |p.data| { JsetBits(p.data[link + 1]); }
  }

  lemma AskBoth(a: Filter, b: Filter, p: Packet)
    requires LoadsOnly(a) && LoadsOnly(b)
    ensures LoadsOnly(Both(a, b)) && Ask(Both(a, b), p) == AndThen(Ask(a, p), Ask(b, p))
  {
  }

  lemma AskEither(a: Filter, b: Filter, p: Packet)
    requires LoadsOnly(a) && LoadsOnly(b)
    ensures LoadsOnly(Either(a, b)) && Ask(Either(a, b), p) == OrElse(Ask(a, p), Ask(b, p))
  {
  }

  lemma AskNegated(a: Filter, p: Packet)
    requires LoadsOnly(a)
    ensures LoadsOnly(Negated(a)) && Ask(Negated(a), p) == Opposite(Ask(a, p))
  {
  }

  /** If the bit is clear one check, if it is set the other: asked in the order the generator uses. */
  lemma Chosen(bit: Filter, isClear: Filter, isSet: Filter, p: Packet)
    requires LoadsOnly(bit) && LoadsOnly(isClear) && LoadsOnly(isSet)
    ensures var f := Either(Both(Negated(bit), isClear), Both(bit, isSet));
            LoadsOnly(f) && Ask(f, p) == match Ask(bit, p) case None => None case Some(v) => if v then Ask(isSet, p)
              else Ask(isClear, p)
  {
    hide LoadsOnly, Ask;
    AskNegated(bit, p);
    AskBoth(Negated(bit), isClear, p);
    AskBoth(bit, isSet, p);
    AskEither(Both(Negated(bit), isClear), Both(bit, isSet), p);
  }

  lemma SourceChecksRight(link: Word, eaddr: seq<Octet>, a10: Filter, a16: Filter, a24: Filter, p: Packet)
    requires link + 24 + |eaddr| < TWO32 && |eaddr| == 6
    requires TestsBytes(a10, link + 10, eaddr) && TestsBytes(a16, link + 16, eaddr) && TestsBytes(a24, link + 24, eaddr)
    ensures LoadsOnly(SourceChecks(link, a10, a16, a24))
    ensures Ask(SourceChecks(link, a10, a16, a24), p) == HasAddress(p, link, Src, eaddr)
  {
    hide LowTypeBit, IsData, ToDs, FromDs, GenJset, Ask, LoadsOnly;
    FrameControl(link, p);
    var toDs, fromDs, data, low := GenJset(link, 1, 1), GenJset(link, 1, 2), GenJset(link, 0, 8), GenJset(link, 0, 4);
    Chosen(toDs, a16, a24, p);
    var fromDsSet := Either(Both(Negated(toDs), a16), Both(toDs, a24));
    Chosen(fromDs, a10, fromDsSet, p);
    var dataSet := Either(Both(Negated(fromDs), a10), Both(fromDs, fromDsSet));
    Chosen(data, a10, dataSet, p);
    AskNegated(low, p);
    AskBoth(Negated(low), Either(Both(Negated(data), a10), Both(data, dataSet)), p);
  }

  lemma DestinationChecksRight(link: Word, eaddr: seq<Octet>, a4: Filter, a16: Filter, p: Packet)
    requires link + 24 + |eaddr| < TWO32 && |eaddr| == 6
    requires TestsBytes(a4, link + 4, eaddr) && TestsBytes(a16, link + 16, eaddr)
    ensures LoadsOnly(DestinationChecks(link, a4, a16))
    ensures Ask(DestinationChecks(link, a4, a16), p) == HasAddress(p, link, Dst, eaddr)
  {
    hide LowTypeBit, IsData, ToDs, FromDs, GenJset, Ask, LoadsOnly;
    FrameControl(link, p);
    var toDs, data, low := GenJset(link, 1, 1), GenJset(link, 0, 8), GenJset(link, 0, 4);
    Chosen(toDs, a4, a16, p);
    var dataSet := Either(Both(Negated(toDs), a4), Both(toDs, a16));
    Chosen(data, a4, dataSet, p);
    AskNegated(low, p);
    AskBoth(Negated(low), Either(Both(Negated(data), a4), Both(data, dataSet)), p);
  }

  /** Asked for both addresses, or either, the source is looked at first. */
  function Answer(p: Packet, link: Word, dir: Dir, eaddr: seq<Octet>): Option<bool>
  {
    match dir
    case AndBoth => AndThen(HasAddress(p, link, Src, eaddr), HasAddress(p, link, Dst, eaddr))
    case OrEither => OrElse(HasAddress(p, link, Src, eaddr), HasAddress(p, link, Dst, eaddr))
    case _ => HasAddress(p, link, dir, eaddr)
  }

  ghost predicate Answers(f: Filter, link: Word, dir: Dir, eaddr: seq<Octet>)
  {
    LoadsOnly(f) && forall p: Packet :: Ask(f, p) == Answer(p, link, dir, eaddr)
  }

  /** The six bytes at an offset of the frame. */
  method Address(link: Word, offset: Word, eaddr: seq<Octet>) returns (f: Filter)
    requires |eaddr| == 6 && link + offset + 6 < TWO32
    ensures TestsBytes(f, link + offset, eaddr) && Bound(f) <= 30
  {
    var b := GenBcmp(link, offset, eaddr);
    return b.value;
  }

  method GenWlanhostop(link: Word, eaddr: seq<Octet>, dir: Dir) returns (f: Filter)
    requires |eaddr| == 6 && link + 30 < TWO32
    ensures Answers(f, link, dir, eaddr) && Bound(f) <= if dir == Src || dir == Dst then 200 else 400
    decreases dir == AndBoth || dir == OrEither
  {
    hide Answer, TestsBytes, LoadsOnly, Ask, GenJset;
    match dir
    case Src =>
      var a24 := Address(link, 24, eaddr);
      var a16 := Address(link, 16, eaddr);
      var a10 := Address(link, 10, eaddr);
      f := SourceChecks(link, a10, a16, a24);
      SourceAnswers(link, eaddr, a10, a16, a24);
    case Dst =>
      var a16 := Address(link, 16, eaddr);
      var a4 := Address(link, 4, eaddr);
      f := DestinationChecks(link, a4, a16);
      DestinationAnswers(link, eaddr, a4, a16);
    case AndBoth =>
      var src := GenWlanhostop(link, eaddr, Src);
      var dst := GenWlanhostop(link, eaddr, Dst);
      f := Both(src, dst);
      BothAnswer(link, eaddr, src, dst);
    case OrEither =>
      var src := GenWlanhostop(link, eaddr, Src);
      var dst := GenWlanhostop(link, eaddr, Dst);
      f := Either(src, dst);
      BothAnswer(link, eaddr, src, dst);
  }

  lemma SourceAnswers(link: Word, eaddr: seq<Octet>, a10: Filter, a16: Filter, a24: Filter)
    requires link + 30 < TWO32 && |eaddr| == 6 && Bound(a10) <= 30 && Bound(a16) <= 30 && Bound(a24) <= 30
    requires TestsBytes(a10, link + 10, eaddr) && TestsBytes(a16, link + 16, eaddr) && TestsBytes(a24, link + 24, eaddr)
    ensures Answers(SourceChecks(link, a10, a16, a24), link, Src, eaddr)
    ensures Bound(SourceChecks(link, a10, a16, a24)) <= 200
  {
    hide TestsBytes, LoadsOnly, Ask, HasAddress, GenJset;
    SourceChecksRight(link, eaddr, a10, a16, a24, Packet([], 0));
    forall p: Packet ensures Ask(SourceChecks(link, a10, a16, a24), p) == HasAddress(p, link, Src, eaddr) {
      SourceChecksRight(link, eaddr, a10, a16, a24, p);
    }
    var toDs, fromDs, data, low := GenJset(link, 1, 1), GenJset(link, 1, 2), GenJset(link, 0, 8), GenJset(link, 0, 4);
    var e1 := Either(Both(Negated(toDs), a16), Both(toDs, a24));
    ChosenBound(toDs, a16, a24);
    var e2 := Either(Both(Negated(fromDs), a10), Both(fromDs, e1));
    ChosenBound(fromDs, a10, e1);
    ChosenBound(data, a10, e2);
  }

  lemma ChosenBound(bit: Filter, isClear: Filter, isSet: Filter)
    ensures Bound(Either(Both(Negated(bit), isClear), Both(bit, isSet))) ==
            2 * Bound(bit) + Bound(isClear) + Bound(isSet)
  {
    assert Bound(Both(Negated(bit), isClear)) == Bound(bit) + Bound(isClear);
  }

  lemma DestinationAnswers(link: Word, eaddr: seq<Octet>, a4: Filter, a16: Filter)
    requires link + 30 < TWO32 && |eaddr| == 6 && Bound(a4) <= 30 && Bound(a16) <= 30
    requires TestsBytes(a4, link + 4, eaddr) && TestsBytes(a16, link + 16, eaddr)
    ensures Answers(DestinationChecks(link, a4, a16), link, Dst, eaddr)
    ensures Bound(DestinationChecks(link, a4, a16)) <= 200
  {
    hide TestsBytes, LoadsOnly, Ask, HasAddress, GenJset;
    DestinationChecksRight(link, eaddr, a4, a16, Packet([], 0));
    forall p: Packet ensures Ask(DestinationChecks(link, a4, a16), p) == HasAddress(p, link, Dst, eaddr) {
      DestinationChecksRight(link, eaddr, a4, a16, p);
    }
    var toDs, data, low := GenJset(link, 1, 1), GenJset(link, 0, 8), GenJset(link, 0, 4);
    var e1 := Either(Both(Negated(toDs), a4), Both(toDs, a16));
    ChosenBound(toDs, a4, a16);
    ChosenBound(data, a4, e1);
  }

  lemma BothAnswer(link: Word, eaddr: seq<Octet>, src: Filter, dst: Filter)
    requires Answers(src, link, Src, eaddr) && Answers(dst, link, Dst, eaddr)
    ensures Answers(Both(src, dst), link, AndBoth, eaddr) && Answers(Either(src, dst), link, OrEither, eaddr)
  {
    hide HasAddress, Ask, LoadsOnly;
    AskBoth(src, dst, Packet([], 0));
    AskEither(src, dst, Packet([], 0));
    forall p: Packet
      ensures Ask(Both(src, dst), p) == Answer(p, link, AndBoth, eaddr)
      ensures Ask(Either(src, dst), p) == Answer(p, link, OrEither, eaddr)
    {
      AskBoth(src, dst, p);
      AskEither(src, dst, p);
    }
  }

  /** The program ends within one step per instruction, and returns the snapshot length if the frame
      carries the address, 0 if it does not or if the packet is too short to tell. */
  ghost predicate Filters(prog: seq<Insn>, st: State, p: Packet, link: Word, dir: Dir, eaddr: seq<Octet>, snaplen: Word)
  {
    var r := Run(prog, 0, st, p, |prog|);
    r.Some? && !r.value.Trapped? && Value(r.value) == if Answer(p, link, dir, eaddr) == Some(true) then snaplen else 0
  }

  /** End to end: the compiled filter is accepted by the checker and picks exactly the frames that carry the address. */
  method CompileWlan(link: Word, eaddr: seq<Octet>, dir: Dir, snaplen: Word) returns (prog: seq<Insn>)
    requires |eaddr| == 6 && link + 30 < TWO32
    ensures V.Accepted(prog)
    ensures forall st: State, p: Packet :: Filters(prog, st, p, link, dir, eaddr, snaplen)
  {
    hide Answer, Ask, LoadsOnly, Sound, LegalFilter, StraightFilter, Compiles, Filters;
    var f := GenWlanhostop(link, eaddr, dir);
    LoadsOnlyIsLegal(f);
    prog := Compile(f, snaplen);
    forall st: State, p: Packet ensures Filters(prog, st, p, link, dir, eaddr, snaplen) {
      AnsweredFilters(prog, f, link, dir, eaddr, snaplen, st, p);
    }
  }

  lemma AnsweredFilters(prog: seq<Insn>, f: Filter, link: Word, dir: Dir, eaddr: seq<Octet>, snaplen: Word, st: State,
                        p: Packet)
    requires Answers(f, link, dir, eaddr) && Sound(f) && Compiles(prog, f, snaplen)
    ensures Filters(prog, st, p, link, dir, eaddr, snaplen)
  {
    hide Ask, LoadsOnly, Run, Compiles, Answer;
    AskedProgram(prog, f, snaplen, st, p);
  }
}
