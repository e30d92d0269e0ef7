/**
 * The capture read loop on BPF devices and the hand-over of zero-copy buffers
 * between kernel and user.
 */
module Capture {
  import opened Words

  // ----------------------------------------------------------------- buffers

  /** One captured packet behind its header. */
  datatype Record = Record(hdrlen: nat, caplen: nat, datalen: nat, data: seq<Octet>)

  type Positive = n: nat | n > 0 witness 4

  /** Records are laid out at multiples of the alignment, which the system's own header fixes. */
  const ALIGNMENT: Positive

  function WordAlign(n: nat): nat { (n + (ALIGNMENT - 1)) / ALIGNMENT * ALIGNMENT }

  /** The first multiple of the alignment at or after n. */
  lemma AlignedExactly(n: nat, m: nat)
    ensures m == WordAlign(n) <==> m % ALIGNMENT == 0 && n <= m < n + ALIGNMENT
  {
    var r := WordAlign(n);
    Multiples((n + (ALIGNMENT - 1)) / ALIGNMENT, ALIGNMENT);
    if m % ALIGNMENT == 0 && n <= m < n + ALIGNMENT {
      SameMultiple(m / ALIGNMENT, r / ALIGNMENT, ALIGNMENT);
    }
  }

  lemma Multiples(q: nat, d: nat)
    requires d > 0
    ensures q * d % d == 0 && q * d / d == q
  {
    QuotientUnique(q * d, d, q);
  }

  lemma SameMultiple(i: nat, j: nat, d: nat)
    requires d > 0 && i * d < j * d + d && j * d < i * d + d
    ensures i == j
  {
    if i < j { Monotone(i + 1, j, d); }
    if j < i { Monotone(j + 1, i, d); }
  }

  function SizeOf(r: Record): nat { r.caplen + r.hdrlen }

  /** Where record i starts. */
  function Offset(recs: seq<Record>, i: nat): nat
    requires i <= |recs|
  {
    if i == 0 then 0 else Offset(recs, i - 1) + WordAlign(SizeOf(recs[i - 1]))
  }

  /** A full buffer: its records and its length, which need not be a multiple of the alignment. */
  datatype Batch = Batch(recs: seq<Record>, len: nat)

  predicate Filled(b: Batch)
  {
    && (forall i :: 0 <= i < |b.recs| ==> b.recs[i].hdrlen > 0)
    && (if b.recs == [] then b.len == 0
        else var last := |b.recs| - 1;
             Offset(b.recs, last) + SizeOf(b.recs[last]) <= b.len <= Offset(b.recs, |b.recs|))
  }

  lemma {:induction false} OffsetsRise(recs: seq<Record>, i: nat, j: nat)
    requires i < j <= |recs| && forall k :: 0 <= k < |recs| ==> recs[k].hdrlen > 0
    ensures Offset(recs, i) < Offset(recs, j)
    decreases j
  {
    if i < j - 1 { OffsetsRise(recs, i, j - 1); }
  }

  /** The read loop's test tells whether a record is left. */
  lemma MoreIffRecordLeft(b: Batch, i: nat)
    requires Filled(b) && i <= |b.recs|
    ensures Offset(b.recs, i) < b.len <==> i < |b.recs|
  {
    if i < |b.recs| {
      var last := |b.recs| - 1;
      if i < last { OffsetsRise(b.recs, i, last); }
    }
  }

  /** The records that pass the filter, in order. */
  function Passing(rs: seq<Record>, accepts: Record -> bool): seq<Record>
  {
    if rs == [] then []
    else
      var last := |rs| - 1;
      Passing(rs[..last], accepts) + if accepts(rs[last]) then [rs[last]] else []
  }

  /** All records of some buffers, in order. */
  function Flatten(bs: seq<Batch>): seq<Record>
  {
    if bs == [] then [] else Flatten(bs[..|bs| - 1]) + bs[|bs| - 1].recs
  }

  lemma {:induction false} PassingPrefix(rs: seq<Record>, more: seq<Record>, accepts: Record -> bool)
    ensures Passing(rs, accepts) <= Passing(rs + more, accepts)
    decreases |more|
  {
    if more == [] {
      assert rs + more == rs;
    } else {
      var last := |more| - 1;
      PassingPrefix(rs, more[..last], accepts);
      assert (rs + more)[..|rs| + last] == rs + more[..last];
    }
  }

  lemma PassingMore(rs: seq<Record>, r: Record, accepts: Record -> bool)
    ensures Passing(rs + [r], accepts) == if accepts(r) then Passing(rs, accepts) + [r] else Passing(rs, accepts)
  {
    assert (rs + [r])[..|rs|] == rs;
  }

  lemma FlattenMore(bs: seq<Batch>, b: Batch)
    ensures Flatten(bs + [b]) == Flatten(bs) + b.recs
  {
    assert (bs + [b])[..|bs|] == bs;
  }

  // --------------------------------------------------------- zero-copy buffers

  /** One shared buffer: the generations tell who owns it, user if they differ. */
  datatype Zbuf = Zbuf(userGen: Word, kernelGen: Word, batch: Batch)

  datatype Which = First | Second

  function Other(w: Which): Which { if w == First then Second else First }

  /** Buffers are used in turn: the i-th hand-over uses this one. */
  function Turn(i: nat): Which { if i % 2 == 0 then First else Second }

  /** Buffer w holds a hand-over that has not been acknowledged, or belongs to the kernel. */
  ghost predicate OwnedRight(z: Zbuf, w: Which, handed: seq<Batch>, acked: nat)
    requires acked <= |handed|
  {
    && (z.userGen != z.kernelGen <==> exists i :: acked <= i < |handed| && Turn(i) == w)
    && (forall i :: acked <= i < |handed| && Turn(i) == w ==> z.batch == handed[i])
  }

  /** The hand-over protocol: hand-overs acknowledged, taken and made, in this order; at most
      one is being read, at most two are out. */
  ghost predicate Handshake(one: Zbuf, two: Zbuf, handed: seq<Batch>, taken: nat, acked: nat, current: Option<Which>,
                            held: bool)
  {
    && acked <= taken <= |handed| <= acked + 2
    && taken == (if held then acked + 1 else acked)
    && current == (if taken == 0 then None else Some(Turn(taken - 1)))
    && OwnedRight(one, First, handed, acked) && OwnedRight(two, Second, handed, acked)
    && (forall i :: 0 <= i < |handed| ==> Filled(handed[i]))
  }

  /** What the user sees in the buffer whose turn it is, exactly when there is something to see. */
  lemma NextIsHanded(one: Zbuf, two: Zbuf, handed: seq<Batch>, taken: nat, acked: nat, current: Option<Which>)
    requires Handshake(one, two, handed, taken, acked, current, false)
    ensures var z := if current == None || current == Some(Second) then one else two;
            && (z.userGen != z.kernelGen <==> taken < |handed|)
            && (taken < |handed| ==> z.batch == handed[taken])
            && (taken < |handed| ==>
                  Handshake(one, two, handed, taken + 1, acked,
                    Some(if current == None || current == Some(Second) then First else Second), true))
  {
    hide Filled;
    assert taken == acked;
    assert Turn(taken) == if current == None || current == Some(Second) then First else Second;
    if taken < |handed| { assert acked <= taken < |handed| && Turn(taken) == Turn(taken); }
  }

  /** Acknowledging gives exactly the buffer just read back to the kernel. */
  lemma AckKeeps(one: Zbuf, two: Zbuf, handed: seq<Batch>, taken: nat, acked: nat, current: Option<Which>)
    requires Handshake(one, two, handed, taken, acked, current, true)
    ensures current.Some?
    ensures current.value == First ==>
            Handshake(one.(userGen := one.kernelGen), two, handed, taken, acked + 1, current, false)
    ensures current.value == Second ==>
            Handshake(one, two.(userGen := two.kernelGen), handed, taken, acked + 1, current, false)
  {
    hide Filled;
    assert Turn(acked) == current.value;
    OneTurn(handed, acked);
    assert forall i :: acked <= i < |handed| && Turn(i) == Turn(acked) ==> i == acked;
  }

  /** Of the at most two hand-overs that are out, the two buffers hold one each. */
  lemma OneTurn(handed: seq<Batch>, acked: nat)
    requires acked < |handed| <= acked + 2
    ensures forall i :: acked <= i < |handed| && Turn(i) == Turn(acked) ==> i == acked
  {
  }

  /** The kernel's contract: it hands over the buffers in turn, each only while it owns it. */
  /** The kernel owns the buffer whose turn it is exactly if not both await the user. */
  lemma RoomExactly(one: Zbuf, two: Zbuf, handed: seq<Batch>, taken: nat, acked: nat, current: Option<Which>,
                    held: bool)
    requires Handshake(one, two, handed, taken, acked, current, held)
    ensures var z := if Turn(|handed|) == First then one else two;
            z.userGen == z.kernelGen <==> |handed| < acked + 2
  {
    hide Filled;
    var w := Turn(|handed|);
    var z := if w == First then one else two;
    if z.userGen == z.kernelGen {
      KernelHasRoom(z, w, handed, acked);
    } else {
      assert OwnedRight(z, w, handed, acked);
    }
  }

  lemma HandOverKeeps(one: Zbuf, two: Zbuf, handed: seq<Batch>, taken: nat, acked: nat, current: Option<Which>,
                      held: bool, b: Batch)
    requires Handshake(one, two, handed, taken, acked, current, held) && Filled(b)
    ensures var w := Turn(|handed|);
            var z := if w == First then one else two;
            z.userGen == z.kernelGen ==>
              var z' := Zbuf(z.userGen, Wrap(z.kernelGen + 1), b);
              if w == First then Handshake(z', two, handed + [b], taken, acked, current, held)
              else Handshake(one, z', handed + [b], taken, acked, current, held)
  {
    hide OwnedRight, Filled, Wrap;
    var w := Turn(|handed|);
    var z := if w == First then one else two;
    if z.userGen == z.kernelGen {
      KernelHasRoom(z, w, handed, acked);
      NextGeneration(z.kernelGen);
      StillOwned(if w == First then two else one, Other(w), handed, b, acked);
      NewlyOwned(Zbuf(z.userGen, Wrap(z.kernelGen + 1), b), w, handed, b, acked);
    }
  }

  lemma KernelHasRoom(z: Zbuf, w: Which, handed: seq<Batch>, acked: nat)
    requires acked <= |handed| <= acked + 2 && OwnedRight(z, w, handed, acked) && w == Turn(|handed|)
    requires z.userGen == z.kernelGen
    ensures |handed| < acked + 2
  {
    assert !(acked <= acked < |handed| && Turn(acked) == w);
  }

  lemma NextGeneration(g: Word)
    ensures Wrap(g + 1) != g
  {
  }

  lemma StillOwned(z: Zbuf, w: Which, handed: seq<Batch>, b: Batch, acked: nat)
    requires acked <= |handed| && OwnedRight(z, w, handed, acked) && Turn(|handed|) != w
    ensures OwnedRight(z, w, handed + [b], acked)
  {
    var handed' := handed + [b];
    assert forall i :: acked <= i < |handed'| && Turn(i) == w ==> i < |handed| && handed'[i] == handed[i];
  }

  lemma NewlyOwned(z: Zbuf, w: Which, handed: seq<Batch>, b: Batch, acked: nat)
    requires acked <= |handed| < acked + 2 && Turn(|handed|) == w && z.userGen != z.kernelGen && z.batch == b
    ensures OwnedRight(z, w, handed + [b], acked)
  {
    var handed', h := handed + [b], |handed|;
    assert acked <= h < |handed'| && Turn(h) == w;
    assert forall i :: acked <= i < |handed'| && Turn(i) == w ==> i == h;
  }

  lemma FilledHandOver(one: Zbuf, two: Zbuf, handed: seq<Batch>, taken: nat, acked: nat, current: Option<Which>,
                       held: bool, i: nat)
    requires Handshake(one, two, handed, taken, acked, current, held) && i < |handed|
    ensures Filled(handed[i])
  {
  }

  lemma AckedAll(one: Zbuf, two: Zbuf, handed: seq<Batch>, taken: nat, acked: nat, current: Option<Which>)
    requires Handshake(one, two, handed, taken, acked, current, true)
    ensures acked + 1 == taken
  {
  }

  // ------------------------------------------------------------ the read loop

  /** What the system does next while a read waits: a buffer is filled, nothing happens, a
      non-blocking read finds nothing, or the device fails. */
  datatype Event = Fills(b: Batch) | Interrupted | WouldBlock | Fails

  /** How a read returns. Waiting: it has not returned, the events given are used up. */
  datatype Returned = Count(n: nat) | Break | Error | Waiting

  /** Everything taken is either passed or still ahead, and what passed was delivered if accepted. */
  ghost predicate Conserved(recs: seq<Record>, at: nat, passed: seq<Record>, all: seq<Record>, delivered: seq<Record>,
                            accepts: Record -> bool)
  {
    at <= |recs| && passed + recs[at..] == all && delivered == Passing(passed, accepts)
  }

  lemma ConservePassing(recs: seq<Record>, at: nat, passed: seq<Record>, all: seq<Record>, delivered: seq<Record>,
                        accepts: Record -> bool)
    requires Conserved(recs, at, passed, all, delivered, accepts) && at < |recs|
    ensures Conserved(recs, at + 1, passed + [recs[at]], all,
                      if accepts(recs[at]) then delivered + [recs[at]] else delivered, accepts)
  {
    PassingMore(passed, recs[at], accepts);
    assert recs[at..] == [recs[at]] + recs[at + 1..];
    assert passed + [recs[at]] + recs[at + 1..] == passed + recs[at..];
  }

  /** Moving on to another buffer once all of the last one is passed. */
  lemma ConserveNext(recs: seq<Record>, at: nat, passed: seq<Record>, taken: seq<Batch>, delivered: seq<Record>,
                     accepts: Record -> bool, b: Batch)
    requires Conserved(recs, at, passed, Flatten(taken), delivered, accepts) && at == |recs|
    ensures Conserved(b.recs, 0, passed, Flatten(taken + [b]), delivered, accepts)
    ensures Conserved([], 0, passed, Flatten(taken), delivered, accepts)
  {
    FlattenMore(taken, b);
    assert recs[at..] == [] && b.recs[0..] == b.recs && passed + [] == passed;
  }

  /** The protocol holds, and the buffer being walked is the one taken last and not acknowledged. */
  ghost predicate Shared(one: Zbuf, two: Zbuf, turn: Which, handed: seq<Batch>, taken: seq<Batch>, acked: nat,
                         current: Option<Which>, held: bool, buffer: Batch)
  {
    && Handshake(one, two, handed, |taken|, acked, current, held) && taken <= handed && turn == Turn(|handed|)
    && (held ==> taken != [] && buffer == taken[|taken| - 1]) && (!held ==> buffer.recs == [])
  }

  class Reader {
    const accepts: Record -> bool
    const raises: nat -> bool
    const zerocopy: bool

    // The buffer being walked, the place reached and the bytes left, as the calls leave them.
    var buffer: Batch
    var bp: nat
    var cc: nat
    var breakLoop: bool
    var polls: nat

    // The shared buffers; `current` is the one used last, `held` that it is not acknowledged,
    // `turn` the one the kernel hands over next.
    var one: Zbuf
    var two: Zbuf
    var current: Option<Which>
    var held: bool
    var turn: Which

    // What the callbacks were given.
    var delivered: seq<Record>

    // The buffers handed over by the kernel, those taken, those acknowledged; the records passed.
    ghost var handed: seq<Batch>
    ghost var taken: seq<Batch>
    ghost var acked: nat
    ghost var passed: seq<Record>
    ghost var at: nat

    ghost predicate Conserves()
      reads this`buffer, this`at, this`passed, this`taken, this`delivered
    {
      Conserved(buffer.recs, at, passed, Flatten(taken), delivered, accepts)
    }

    /** Between calls: the place stored is that of the next record. */
    ghost predicate Valid()
      reads this`buffer, this`at, this`passed, this`taken, this`delivered, this`bp, this`cc
      reads this`one, this`two, this`turn, this`handed, this`acked, this`current, this`held
    {
      && at <= |buffer.recs| && Conserves() && Filled(buffer) && (cc == 0 <==> at == |buffer.recs|)
      && (cc > 0 ==> bp == Offset(buffer.recs, at) && bp + cc == buffer.len)
      && ZeroCopyValid()
    }

    ghost predicate ZeroCopyValid()
      reads this`one, this`two, this`turn, this`handed, this`taken, this`acked, this`current, this`held, this`buffer
    {
      zerocopy ==> Shared(one, two, turn, handed, taken, acked, current, held, buffer)
    }

    constructor (accepts: Record -> bool, raises: nat -> bool, zerocopy: bool)
      ensures Valid() && delivered == [] && taken == [] && handed == []
      ensures this.accepts == accepts && this.raises == raises && this.zerocopy == zerocopy
    {
      this.accepts, this.raises, this.zerocopy := accepts, raises, zerocopy;
      buffer, bp, cc, breakLoop, polls := Batch([], 0), 0, 0, false, 0;
      one, two, current, held, turn := Zbuf(0, 0, Batch([], 0)), Zbuf(0, 0, Batch([], 0)), None, false, First;
      delivered, handed, taken, acked, passed, at := [], [], [], 0, [], 0;
    }

    /** pcap_breakloop() may have been called since the last look. */
    method Poll() returns (raised: bool)
      modifies this`breakLoop, this`polls
      ensures raised == breakLoop == (old(breakLoop) || raises(old(polls))) && polls == old(polls) + 1
    {
      breakLoop := breakLoop || raises(polls);
      polls := polls + 1;
      raised := breakLoop;
    }

    /** pcap_breakloop() was called before or at one of the looks since look number `first`. */
    ghost predicate WasTold(before: bool, first: nat)
      reads this`polls
    {
      before || exists k :: first <= k < polls && raises(k)
    }

    /** The last look since look number `first` saw that pcap_breakloop() had been called. */
    ghost predicate Saw(told: bool, first: nat)
      reads this`polls
    {
      first < polls && (told || raises(polls - 1))
    }

    /** Being told to break is heeded at once: no look but the last has seen it; it is reported, and forgotten, if
        nothing was delivered, and otherwise left for the next call. */
    ghost predicate Heeds(r: Returned, told: bool, first: nat, before: seq<Record>)
      reads this`polls, this`breakLoop, this`delivered
    {
      && first <= polls && (forall k :: first <= k < polls - 1 ==> !raises(k)) && (told ==> polls <= first + 1)
      && (r == Break <==> Saw(told, first) && delivered == before)
      && (breakLoop <==> if Saw(told, first) then delivered != before else told)
    }

    /** The kernel hands over the buffer whose turn it is, if it owns it. */
    method HandOver(b: Batch) returns (ok: bool)
      requires zerocopy && ZeroCopyValid() && Filled(b)
      modifies this`one, this`two, this`turn, this`handed
      ensures ZeroCopyValid() && handed == if ok then old(handed) + [b] else old(handed)
      ensures ok <==> |old(handed)| < acked + 2
    {
      hide Handshake, Filled, Flatten, Offset;
      HandOverKeeps(one, two, handed, |taken|, acked, current, held, b);
      RoomExactly(one, two, handed, |taken|, acked, current, held);
      var z := if turn == First then one else two;
      ok := z.userGen == z.kernelGen;
      if ok {
        z := Zbuf(z.userGen, Wrap(z.kernelGen + 1), b);
        if turn == First { one := z; } else { two := z; }
        turn := Other(turn);
        handed := handed + [b];
      }
    }

    /** pcap_next_zbuf_shm: takes up the next buffer if the kernel has handed it over. */
    method NextZbufShm() returns (data: bool)
      requires zerocopy && !held && ZeroCopyValid() && Conserves() && at == |buffer.recs|
      modifies this`buffer, this`current, this`held, this`taken, this`at
      ensures ZeroCopyValid() && Conserves() && held == data
      ensures data <==> |old(taken)| < |handed|
      ensures taken == if data then old(taken) + [handed[|old(taken)|]] else old(taken)
      ensures data ==> at == 0 && Filled(buffer)
      ensures !data ==> buffer == old(buffer) && at == old(at)
    {
      hide Handshake, Filled, Conserved, Flatten;
      NextIsHanded(one, two, handed, |taken|, acked, current);
      var w := if current == None || current == Some(Second) then First else Second;
      var z := if w == First then one else two;
      data := z.userGen != z.kernelGen;
      if data {
        FilledHandOver(one, two, handed, |taken|, acked, current, held, |taken|);
        ConserveNext(buffer.recs, at, passed, taken, delivered, accepts, z.batch);
        current, held, buffer := Some(w), true, z.batch;
        at, taken := 0, taken + [z.batch];
      }
    }

    /** pcap_ack_zbuf: gives the buffer back to the kernel. */
    method AckZbuf()
      requires zerocopy && held && ZeroCopyValid() && Conserves() && at == |buffer.recs|
      modifies this`one, this`two, this`held, this`buffer, this`at, this`acked
      ensures ZeroCopyValid() && Conserves() && !held && acked == old(acked) + 1 == |taken| && buffer == Batch([], 0)
      ensures at == 0
    {
      hide Handshake, Flatten, Conserved, Filled;
      ConserveNext(buffer.recs, at, passed, taken, delivered, accepts, buffer);
      AckKeeps(one, two, handed, |taken|, acked, current);
      AckedAll(one, two, handed, |taken|, acked, current);
      if current == Some(First) {
        one := one.(userGen := one.kernelGen);
      } else {
        two := two.(userGen := two.kernelGen);
      }
      held, acked := false, acked + 1;
      buffer, at := Batch([], 0), 0;
    }

    /** Remembers the place reached for the next call. Past the end counts as nothing left. */
    method Store(b: nat, ep: nat)
      requires Walking(b, ep)
      modifies this`bp, this`cc
      ensures Valid()
    {
      hide Shared, Flatten, Conserved, Filled;
      MoreIffRecordLeft(buffer, at);
      bp := b;
      cc := if ep < b then 0 else ep - b;
    }

    /** Handles the record at place b; gives it to the callback if it is accepted. */
    method Pass(b: nat, ep: nat) returns (b': nat, accepted: bool)
      requires Walking(b, ep) && b < ep
      modifies this`delivered, this`passed, this`at
      ensures Walking(b', ep) && at == old(at) + 1 <= |buffer.recs| && |passed| == |old(passed)| + 1
      ensures if accepted then |delivered| == |old(delivered)| + 1 && old(delivered) <= delivered
              else delivered == old(delivered)
    {
      hide Flatten, Conserved, Filled, Offset, WordAlign, Shared;
      AtInside(buffer.recs, at, passed, Flatten(taken), delivered, accepts);
      MoreIffRecordLeft(buffer, at);
      var rec := RecordAt(buffer, b, at);
      b' := b + WordAlign(SizeOf(rec));
      accepted := accepts(rec);
      NextOffset(buffer.recs, at);
      ConservePassing(buffer.recs, at, passed, Flatten(taken), delivered, accepts);
      at, passed := at + 1, passed + [rec];
      if accepted {
        delivered := delivered + [rec];
      }
    }

    /** Inside a call: place b is that of the next record, ep the end of the data. */
    ghost predicate Walking(b: nat, ep: nat)
      reads this`buffer, this`at, this`passed, this`taken, this`delivered
      reads this`one, this`two, this`turn, this`handed, this`acked, this`current, this`held
    {
      at <= |buffer.recs| && Conserves() && Filled(buffer) && ZeroCopyValid() && b == Offset(buffer.recs, at) &&
        ep == buffer.len
    }

    lemma NotSeen(n: nat, cnt: int, told: bool, first: nat, before: seq<Record>)
      requires first <= polls && (forall k :: first <= k < polls ==> !raises(k)) && (told ==> polls == first)
      requires breakLoop == told && |delivered| == |before| + n && (cnt > 0 ==> n <= cnt)
      requires cc == 0 || (cnt > 0 && n == cnt)
      ensures Heeds(Count(n), told, first, before) && Ends(Count(n), cnt, before, told, first) && !Saw(told, first)
    {
    }

    lemma Seen(r: Returned, n: nat, cnt: int, told: bool, first: nat, before: seq<Record>)
      requires first < polls && (forall k :: first <= k < polls - 1 ==> !raises(k)) && (told ==> polls == first + 1)
      requires (told || raises(polls - 1)) && |delivered| == |before| + n && before <= delivered
      requires (cnt > 0 ==> n <= cnt)
      requires r == (if n == 0 then Break else Count(n)) && (breakLoop <==> n > 0)
      ensures Heeds(r, told, first, before) && Ends(r, cnt, before, told, first) && Saw(told, first)
    {
      assert n == 0 ==> delivered == before;
    }

    /** Walks the buffer from place b0, giving accepted records to the callback: one look before every record passed,
        and nothing is passed after a look that saw the break. */
    method Walk(cnt: int, b0: nat, ep: nat) returns (r: Returned)
      requires Walking(b0, ep) && at <= |buffer.recs|
      modifies this`bp, this`cc, this`breakLoop, this`polls, this`delivered, this`passed, this`at
      ensures Valid() && old(delivered) <= delivered && Ends(r, cnt, old(delivered), old(breakLoop), old(polls))
      ensures r.Count? || r.Break?
      ensures Heeds(r, old(breakLoop), old(polls), old(delivered))
      ensures polls - old(polls) == |passed| - |old(passed)| + (if Saw(old(breakLoop), old(polls)) then 1 else 0)
    {
      hide Walking, Valid, Offset, Filled, Heeds, Ends, Saw;
      var n: nat, b: nat := 0, b0;
      while b < ep
        invariant Walking(b, ep) && old(delivered) <= delivered && |delivered| == |old(delivered)| + n
        invariant cnt > 0 ==> n < cnt
        invariant polls - old(polls) == |passed| - |old(passed)| >= 0
        invariant forall k :: old(polls) <= k < polls ==> !raises(k)
        invariant breakLoop == old(breakLoop) && (breakLoop ==> polls == old(polls))
        invariant at <= |buffer.recs|
        decreases |buffer.recs| - at
      {
        var raised := Poll();
        if raised {
          Store(b, ep);
          if n == 0 {
            breakLoop := false;
            Seen(Break, n, cnt, old(breakLoop), old(polls), old(delivered));
            return Break;
          }
          Seen(Count(n), n, cnt, old(breakLoop), old(polls), old(delivered));
          return Count(n);
        }
        var accepted;
        b, accepted := Pass(b, ep);
        if accepted {
          n := n + 1;
          if n >= cnt && !(cnt <= 0) {
            Store(b, ep);
            NotSeen(n, cnt, old(breakLoop), old(polls), old(delivered));
            return Count(n);
          }
        }
      }
      UsedUp(b, ep);
      NotSeen(n, cnt, old(breakLoop), old(polls), old(delivered));
      return Count(n);
    }

    /** Nothing is left of the buffer. */
    method UsedUp(b: nat, ep: nat)
      requires Walking(b, ep) && b >= ep
      modifies this`cc
      ensures Valid() && cc == 0
    {
      hide Flatten, Conserved, Filled, Shared;
      MoreIffRecordLeft(buffer, at);
      cc := 0;
    }

    /** Takes what read() put into the buffer. */
    method Take(b: Batch)
      requires !zerocopy && Valid() && cc == 0 && Filled(b)
      modifies this`buffer, this`at, this`taken
      ensures Walking(0, b.len) && buffer == b && taken == old(taken) + [b]
    {
      hide Flatten, Conserved, Filled;
      ConserveNext(buffer.recs, at, passed, taken, delivered, accepts, b);
      buffer, at, taken := b, 0, taken + [b];
    }

    /** With everything in the buffer handled, gives it back. */
    method Release()
      requires Valid() && cc == 0
      modifies this`one, this`two, this`held, this`buffer, this`at, this`acked
      ensures Valid() && (zerocopy ==> !held && acked == |taken|)
    {
      hide Flatten, Conserved, Handshake, Offset;
      if zerocopy && held {
        AckZbuf();
      }
      if zerocopy { NotHeld(one, two, handed, |taken|, acked, current); }
    }

    /** Looks for the next shared buffer, after what an event, if any, brings. */
    method NextShared(e: Option<Event>) returns (data: bool)
      requires zerocopy && Valid() && cc == 0 && !held && (e.Some? && e.value.Fills? ==> Filled(e.value.b))
      modifies this`one, this`two, this`turn, this`handed, this`buffer, this`current, this`held, this`taken, this`at
      ensures old(handed) <= handed && old(taken) <= taken && (data <==> taken != old(taken))
      ensures data <==> |old(taken)| < |handed|
      ensures handed == old(handed) + if e.Some? && e.value.Fills? && |old(handed)| < acked + 2 then [e.value.b] else []
      ensures if data then Walking(0, buffer.len) else Valid() && !held && cc == 0
    {
      hide Flatten, Conserved, Filled, Shared;
      if e.Some? && e.value.Fills? {
        var ok := HandOver(e.value.b);
      }
      data := NextZbufShm();
    }

    /** Gets the next buffer, with what one event brings. */
    method Refill(e: Event) returns (data: bool)
      requires Valid() && cc == 0 && (zerocopy ==> !held) && (e.Fills? ==> Filled(e.b))
      modifies this`one, this`two, this`turn, this`handed, this`buffer, this`current, this`held, this`taken, this`at
      ensures old(handed) <= handed && old(taken) <= taken && (data <==> taken != old(taken))
      ensures if data then Walking(0, buffer.len) else Valid()
      ensures !zerocopy ==> data == e.Fills? && taken == old(taken) + if data then [e.b] else []
      ensures zerocopy ==> (data <==> |old(taken)| < |handed|)
      ensures zerocopy ==> handed == old(handed) + if e.Fills? && |old(handed)| < acked + 2 then [e.b] else []
    {
      hide Flatten, Conserved, Filled, Shared;
      if zerocopy {
        data := NextShared(Some(e));
      } else {
        data := e.Fills?;
        if data {
          Take(e.b);
        }
      }
    }

    /** What a turn that finds no data answers; None goes round again. */
    function Answer(next: Option<Event>): Option<Returned>
    {
      match next
      case None => Some(Waiting)
      case Some(e) =>
        if e == Fails then Some(Error) else if e == WouldBlock && !zerocopy then Some(Count(0)) else None
    }

    /** With nothing left: the next buffer is walked, if there is one, at once or after the next event. */
    method Wait(cnt: int, next: Option<Event>) returns (r: Option<Returned>, took: bool)
      requires Valid() && cc == 0 && !breakLoop && (next.Some? && next.value.Fills? ==> Filled(next.value.b))
      modifies this
      ensures Valid() && old(delivered) <= delivered && old(taken) <= taken && old(handed) <= handed
      ensures r == None ==> took
      ensures taken == old(taken) ==>
                && took == next.Some? && r == Answer(next) && cc == 0
                && delivered == old(delivered) && passed == old(passed) && !breakLoop && polls == old(polls)
      ensures taken != old(taken) ==>
                && r.Some? && (r.value.Count? || r.value.Break?)
                && Ends(r.value, cnt, old(delivered), false, old(polls))
                && Heeds(r.value, false, old(polls), old(delivered))
      ensures polls - old(polls) == |passed| - |old(passed)| + (if Saw(false, old(polls)) then 1 else 0)
      ensures took ==> next.Some?
      ensures !zerocopy ==> taken == old(taken) + if took && next.value.Fills? then [next.value.b] else []
      ensures zerocopy && |old(taken)| < |old(handed)| ==> !took && taken != old(taken) && handed == old(handed)
      ensures zerocopy && |old(taken)| == |old(handed)| && next.Some? ==>
                took && handed == old(handed) + (if next.value.Fills? then [next.value.b] else []) &&
                (taken != old(taken) <==> next.value.Fills?)
    {
      hide Flatten, Conserved, Filled, Shared, Offset;
      took := false;
      Release();
      var data := false;
      if zerocopy {
        data := NextShared(None);
      }
      if !data && next.Some? {
        took := true;
        data := Refill(next.value);
      }
      if data {
        var w := Walk(cnt, 0, buffer.len);
        return Some(w), took;
      }
      return Answer(next), took;
    }

    /** One turn from the label `again`: what is left is walked, or the next buffer, or the next event is waited for. */
    method Again(cnt: int, next: Option<Event>) returns (r: Option<Returned>, took: bool)
      requires Valid() && (next.Some? && next.value.Fills? ==> Filled(next.value.b))
      modifies this
      ensures Valid() && old(delivered) <= delivered && old(taken) <= taken && old(handed) <= handed
      ensures polls > old(polls)
      ensures r == None ==> took && delivered == old(delivered) && !breakLoop && polls == old(polls) + 1
      ensures r == None ==> passed == old(passed) && !old(breakLoop) && !raises(old(polls))
      ensures r.Some? ==> Ends(r.value, cnt, old(delivered), old(breakLoop), old(polls))
      ensures r.Some? ==> Heeds(r.value, old(breakLoop), old(polls), old(delivered))
      ensures polls - old(polls) ==
              1 + |passed| - |old(passed)| + (if polls > old(polls) + 1 && raises(polls - 1) then 1 else 0)
      ensures took ==> next.Some?
      ensures !zerocopy ==> taken == old(taken) + if took && next.value.Fills? then [next.value.b] else []
      ensures if old(breakLoop) || raises(old(polls)) then r == Some(Break) && !took
              else if old(cc) > 0 then r.Some? && (r.value.Count? || r.value.Break?) && !took
              else if taken != old(taken) then r.Some? && (r.value.Count? || r.value.Break?)
              else took == next.Some? && r == Answer(next)
    {
      hide Flatten, Conserved, Filled, Shared, Offset;
      took := false;
      var raised := Poll();
      if raised {
        breakLoop := false;
        return Some(Break), took;
      }
      if cc > 0 {
        var w := Walk(cnt, bp, bp + cc);
        return Some(w), took;
      }
      r, took := Wait(cnt, next);
    }

    /** How a call may end: with a count of what was delivered, cut short only by the count asked for or by
        being told to break, which otherwise is reported once if nothing was delivered. */
    ghost predicate Ends(r: Returned, cnt: int, before: seq<Record>, told: bool, first: nat)
      reads this`delivered, this`cc, this`breakLoop, this`polls
    {
      match r
      case Count(n) => |delivered| == |before| + n && (cnt > 0 ==> n <= cnt) &&
        (cc == 0 || breakLoop || (cnt > 0 && n == cnt))
      case Break => delivered == before && !breakLoop && WasTold(told, first)
      case _ => delivered == before
    }

    /** pcap_read_bpf: one call, while the system does what `events` says; `used` of them have
        happened when it returns, after `turns` turns. */
    method ReadBpf(cnt: int, events: seq<Event>) returns (r: Returned, used: nat, ghost turns: nat)
      requires Valid() && forall i :: 0 <= i < |events| && events[i].Fills? ==> Filled(events[i].b)
      modifies this
      ensures Valid() && old(delivered) <= delivered && old(taken) <= taken && old(handed) <= handed
      ensures Ends(r, cnt, old(delivered), old(breakLoop), old(polls))
      ensures Heeds(r, old(breakLoop), old(polls), old(delivered)) && used <= turns <= used + 1
      ensures polls - old(polls) ==
              turns + |passed| - |old(passed)| + (if polls > old(polls) + turns && raises(polls - 1) then 1 else 0)
      ensures used <= |events| && (!zerocopy ==> taken == old(taken) + Fillings(events[..used]))
      ensures r == Waiting ==> used == |events|
      ensures r == Error ==> used > 0 && events[used - 1] == Fails
      ensures !zerocopy ==> AnswersEvents(r, events, used)
    {
      hide Valid, Filled, Fillings;
      used, turns := 0, 0;
      NoneFilled(events, taken);
      while true
        invariant Valid() && delivered == old(delivered) && old(taken) <= taken && old(handed) <= handed
        invariant used <= |events| && (!zerocopy ==> taken == old(taken) + Fillings(events[..used]))
        invariant polls == old(polls) + turns && turns == used && passed == old(passed)
        invariant forall k :: old(polls) <= k < polls ==> !raises(k)
        invariant breakLoop ==> old(breakLoop)
        invariant if turns == 0 then breakLoop == old(breakLoop) else !breakLoop && !old(breakLoop)
        invariant !zerocopy ==> forall i :: 0 <= i < used ==> events[i] == Interrupted
        decreases |events| - used
      {
        if used < |events| { FillingsNext(events, used); }
        var ended, took := Again(cnt, if used < |events| then Some(events[used]) else None);
        used, turns := if took then used + 1 else used, turns + 1;
        if ended.Some? {
          return ended.value, used, turns;
        }
      }
    }

    /** Each system call answers in its own way: an interrupted one is made again, one that would block ends the call
        with nothing read, and one that fails ends it with an error. */
    ghost predicate AnswersEvents(r: Returned, events: seq<Event>, used: nat)
      requires used <= |events|
    {
      && (forall i :: 0 <= i < used - 1 ==> events[i] == Interrupted)
      && (used > 0 && events[used - 1] == Fails ==> r == Error)
      && (used > 0 && events[used - 1] == WouldBlock ==> r == Count(0))
      && (used > 0 && events[used - 1].Fills? ==> r.Count? || r.Break?)
    }
  }

  /** The buffers filled by some events. */
  function Fillings(es: seq<Event>): seq<Batch>
  {
    if es == [] then []
    else
      var last := |es| - 1;
      Fillings(es[..last]) + if es[last].Fills? then [es[last].b] else []
  }

  lemma FillingsNext(es: seq<Event>, i: nat)
    requires i < |es|
    ensures Fillings(es[..i + 1]) == Fillings(es[..i]) + if es[i].Fills? then [es[i].b] else []
  {
    assert es[..i + 1][..i] == es[..i];
  }

  lemma NoneFilled(es: seq<Event>, taken: seq<Batch>)
    ensures taken == taken + Fillings(es[..0])
  {
  }

  lemma NotHeld(one: Zbuf, two: Zbuf, handed: seq<Batch>, taken: nat, acked: nat, current: Option<Which>)
    requires Handshake(one, two, handed, taken, acked, current, false)
    ensures acked == taken
  {
  }

  /** Capture loses and repeats nothing: what the callbacks have been given is a prefix of the accepted
      records of the buffers taken, and all of them once the last buffer is used up. */
  lemma NothingLost(r: Reader)
    requires r.Valid()
    ensures r.delivered <= Passing(Flatten(r.taken), r.accepts)
    ensures r.cc == 0 ==> r.delivered == Passing(Flatten(r.taken), r.accepts)
    ensures r.zerocopy ==> r.taken <= r.handed && |r.taken| <= r.acked + 1
  {
    PassingPrefix(r.passed, r.buffer.recs[r.at..], r.accepts);
    if r.cc == 0 { assert r.passed + r.buffer.recs[r.at..] == r.passed; }
  }

  lemma AtInside(recs: seq<Record>, at: nat, passed: seq<Record>, all: seq<Record>, delivered: seq<Record>,
                 accepts: Record -> bool)
    requires Conserved(recs, at, passed, all, delivered, accepts)
    ensures at <= |recs|
  {
  }

  lemma NextOffset(recs: seq<Record>, i: nat)
    requires i < |recs|
    ensures Offset(recs, i + 1) == Offset(recs, i) + WordAlign(SizeOf(recs[i]))
  {
  }

  /** The record that starts at an offset. */
  method RecordAt(b: Batch, off: nat, ghost i: nat) returns (r: Record)
    requires Filled(b) && i < |b.recs| && off == Offset(b.recs, i)
    ensures r == b.recs[i]
  {
    var k, place := 0, 0;
    while place != off
      invariant k <= i && place == Offset(b.recs, k)
      decreases i - k
    {
      place := place + WordAlign(SizeOf(b.recs[k]));
      k := k + 1;
    }
    if k < i { OffsetsRise(b.recs, k, i); }
    r := b.recs[k];
  }
}
