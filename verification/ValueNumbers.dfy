/**
 * Value numbering: symbolic values of registers, and the rewriting of a
 * block's statements that uses them.
 */
module ValueNumbers {
  import opened Words
  import opened Machine
  import opened Liveness

  /** How a value was computed: an operation applied to constants or to value numbers. */
  datatype Key = Key(code: Code, v0: nat, v1: nat)

  /** The values numbered so far: number n (from 1) is table[n - 1]. Number 0 means unknown. */
  type Table = seq<Key>

  const UNKNOWN: nat := 0

  ghost predicate Distinct(t: Table) { forall i, j :: 0 <= i < j < |t| ==> t[i] != t[j] }

  /** The number of a value, 0 if it has none yet. */
  function Find(t: Table, k: Key): (n: nat)
    ensures n <= |t| && (n == 0 <==> k !in t) && (n > 0 ==> t[n - 1] == k)
  {
    if t == [] then 0
    else
      var last := |t| - 1;
      assert t == t[..last] + [t[last]];
      if t[last] == k then |t| else Find(t[..last], k)
  }

  /** The number of a value, a new one if it has none yet. */
  function Number(t: Table, k: Key): nat { if Find(t, k) > 0 then Find(t, k) else |t| + 1 }
  function Extend(t: Table, k: Key): Table { if Find(t, k) > 0 then t else t + [k] }

  function ConstKey(k: Word): Key { Key(LdImm, k, 0) }

  predicate IsConst(t: Table, n: nat) { 0 < n <= |t| && t[n - 1].code == LdImm && t[n - 1].v0 < TWO32 }

  function ConstVal(t: Table, n: nat): Word
    requires IsConst(t, n)
  {
    t[n - 1].v0
  }

  /** Equal numbers are given exactly to equal values, so distinct constants get distinct numbers. */
  lemma NumbersAreExact(t: Table, k0: Key, k1: Key)
    requires Distinct(t)
    ensures Distinct(Extend(t, k0)) && Distinct(Extend(Extend(t, k0), k1))
    ensures Number(t, k0) == Number(Extend(t, k0), k1) <==> k0 == k1
  {
    var t0 := Extend(t, k0);
    assert t0[Number(t, k0) - 1] == k0;
    assert Find(t0, k1) > 0 ==> t0[Find(t0, k1) - 1] == k1;
    if k0 == k1 {
      assert k1 in t0;
      assert Find(t0, k1) == Number(t, k0);
    }
  }

  // ------------------------------------------------------- the hash table

  datatype ValNode = ValNode(key: Key, val: nat)

  const MODULUS: nat := 213

  function Hash(k: Key): (h: nat)
    ensures h < MODULUS
  {
    Xor(Xor(CodeBits(k.code), ShiftLeft(Wrap(k.v0), 4)), ShiftLeft(Wrap(k.v1), 8)) % MODULUS
  }

  function CodeBits(c: Code): Word { if c.Nop? then 0 else CodeIsSmall(c); Encode(c) }

  lemma CodeIsSmall(c: Code)
    requires !c.Nop?
    ensures Encode(c) < 256
  {
  }

  /** Every value is in the chain its hash selects, and the chains hold nothing else. */
  ghost predicate Chained(hashtbl: seq<seq<ValNode>>, t: Table)
  {
    && |hashtbl| == MODULUS
    && (forall h :: 0 <= h < MODULUS ==> RowOk(hashtbl[h], t))
    && (forall i :: 0 <= i < |t| ==> InChain(hashtbl, t[i], i + 1))
  }

  ghost predicate RowOk(row: seq<ValNode>, t: Table)
  {
    forall i :: 0 <= i < |row| ==> 0 < row[i].val <= |t| && t[row[i].val - 1] == row[i].key
  }

  ghost predicate InChain(hashtbl: seq<seq<ValNode>>, k: Key, n: nat)
    requires |hashtbl| == MODULUS
  {
    ValNode(k, n) in hashtbl[Hash(k)]
  }

  /** Exactly the numbers of constants are marked, with their constants. */
  ghost predicate Mapped(vmap: map<nat, Word>, t: Table)
  {
    forall n :: (n in vmap <==> IsConst(t, n)) && (n in vmap ==> vmap[n] == ConstVal(t, n))
  }

  class ValueTable {
    var hashtbl: seq<seq<ValNode>>
    var curval: nat
    var vmap: map<nat, Word>
    ghost var table: Table

    ghost predicate Valid()
      reads this
    {
      curval == |table| && Distinct(table) && Chained(hashtbl, table) && Mapped(vmap, table)
    }

    constructor ()
      ensures Valid() && table == []
    {
      hashtbl := seq(MODULUS, i => []);
      curval := 0;
      vmap := map[];
      table := [];
    }

    /** Looks the value up in its hash chain; makes a new entry when it is not there. */
    method F(k: Key) returns (val: nat)
      requires Valid()
      modifies this
      ensures Valid() && val == Number(old(table), k) && table == Extend(old(table), k)
    {
      hide Hash, Mapped, Distinct, Find;
      ChainOf(hashtbl, table, k);
      var hash := Hash(k);
      var chain := hashtbl[hash];
      for i := 0 to |chain|
        invariant forall j :: 0 <= j < i ==> chain[j].key != k
      {
        if chain[i].key == k {
          OnlyOne(table, k, chain[i].val);
          return chain[i].val;
        }
      }
      NotThere(hashtbl, table, k);
      val := curval + 1;
      AddToChain(hashtbl, table, k);
      AddToMap(vmap, table, k);
      curval := val;
      if k.code == LdImm && k.v0 < TWO32 {
        vmap := vmap[val := k.v0];
      }
      hashtbl := hashtbl[hash := [ValNode(k, val)] + chain];
      table := table + [k];
    }
  }

  lemma ChainOf(hashtbl: seq<seq<ValNode>>, t: Table, k: Key)
    requires Chained(hashtbl, t)
    ensures |hashtbl| == MODULUS && Hash(k) < MODULUS && RowOk(hashtbl[Hash(k)], t)
  {
  }

  lemma OnlyOne(t: Table, k: Key, n: nat)
    requires Distinct(t) && 0 < n <= |t| && t[n - 1] == k
    ensures Find(t, k) == n
  {
  }

  lemma NotThere(hashtbl: seq<seq<ValNode>>, t: Table, k: Key)
    requires Chained(hashtbl, t)
    requires forall j :: 0 <= j < |hashtbl[Hash(k)]| ==> hashtbl[Hash(k)][j].key != k
    ensures k !in t && Find(t, k) == 0
  {
    hide Hash;
    assert forall i :: 0 <= i < |t| ==> InChain(hashtbl, t[i], i + 1);
  }

  lemma RowLonger(row: seq<ValNode>, t: Table, k: Key)
    requires RowOk(row, t)
    ensures RowOk(row, t + [k]) && RowOk([ValNode(k, |t| + 1)] + row, t + [k])
  {
  }

  lemma StillInChain(hashtbl: seq<seq<ValNode>>, h': seq<seq<ValNode>>, k: Key, n: nat, k': Key, n': nat)
    requires |hashtbl| == MODULUS && Hash(k) < MODULUS && h' == hashtbl[Hash(k) := [ValNode(k, n)] + hashtbl[Hash(k)]]
    ensures InChain(h', k, n) && (InChain(hashtbl, k', n') ==> InChain(h', k', n'))
  {
    hide Hash;
    assert h'[Hash(k)][0] == ValNode(k, n);
    assert h'[Hash(k)][1..] == hashtbl[Hash(k)];
    assert InChain(hashtbl, k', n') && Hash(k') == Hash(k) ==> ValNode(k', n') in h'[Hash(k)][1..];
  }

  /** Entering a new value keeps every chain complete. */
  lemma AddToChain(hashtbl: seq<seq<ValNode>>, t: Table, k: Key)
    requires Chained(hashtbl, t) && Distinct(t) && k !in t
    ensures Distinct(t + [k])
    ensures Chained(hashtbl[Hash(k) := [ValNode(k, |t| + 1)] + hashtbl[Hash(k)]], t + [k])
  {
    hide Hash, RowOk, InChain;
    ChainOf(hashtbl, t, k);
    var t', h' := t + [k], hashtbl[Hash(k) := [ValNode(k, |t| + 1)] + hashtbl[Hash(k)]];
    forall h | 0 <= h < MODULUS ensures RowOk(h'[h], t') { RowLonger(hashtbl[h], t, k); }
    forall i | 0 <= i < |t'| ensures InChain(h', t'[i], i + 1) {
      StillInChain(hashtbl, h', k, |t| + 1, t'[i], i + 1);
      if i < |t| { assert InChain(hashtbl, t[i], i + 1); }
    }
  }

  lemma AddToMap(vmap: map<nat, Word>, t: Table, k: Key)
    requires Mapped(vmap, t)
    ensures Mapped(if k.code == LdImm && k.v0 < TWO32 then vmap[|t| + 1 := k.v0] else vmap, t + [k])
  {
    var t' := t + [k];
    assert forall i :: 0 <= i < |t| ==> t'[i] == t[i];
  }
}
