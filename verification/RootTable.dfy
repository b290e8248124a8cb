/** Declaring and retracting C roots: the closed hash table refines a multiset of roots. */
module RootTable {
  import opened Roots
  import opened Words
  import opened Bits

  const HASH_PAGE_BITS1: nat := 10
  const HASH_PAGE_BITS2: nat := 20
  const HASH_GROW_FRACTION := 2
  const HASH_SHRINK_FRACTION := 8
  const INITIAL_HASH_SIZE := 128
  const HASH_GROW_FACTOR := 2
  const HASH_SHRINK_FACTOR := 2

  ghost predicate PowerOfTwo(n: nat) {
    exists k: nat :: n == Pow(2, k)
  }

  lemma Halved(n: nat)
    requires PowerOfTwo(n) && n >= 2
    ensures PowerOfTwo(n / 2) && n % 2 == 0
  {
    var k: nat :| n == Pow(2, k);
    assert n / 2 == Pow(2, k - 1);
  }

  lemma Doubled(n: nat)
    requires PowerOfTwo(n)
    ensures PowerOfTwo(2 * n)
  {
    var k: nat :| n == Pow(2, k);
    assert 2 * n == Pow(2, k + 1);
  }

  /** The slot at which the probing for a root starts. */
  function RootHash(root: nat, size: nat): nat
    requires size > 0
  {
    And(Xor(Xor(root, root / Pow(2, HASH_PAGE_BITS1)), root / Pow(2, HASH_PAGE_BITS2)), size - 1)
  }

  lemma Masked(x: nat, size: nat)
    requires PowerOfTwo(size)
    ensures And(x, size - 1) == x % size
  {
    var k: nat :| size == Pow(2, k);
    Mask(x, k);
  }

  // ---- Tables as multisets ----

  /** The roots in the slots `s`, with their flags. */
  function RootsOf(s: seq<Entry>): (m: multiset<Entry>) {
    multiset(s)[Empty := 0]
  }

  lemma SlotCount(s: seq<Entry>)
    ensures |RootsOf(s)| + multiset(s)[Empty] == |s|
  {
    var m := multiset(s);
    assert m == RootsOf(s) + multiset{}[Empty := m[Empty]];
    assert |m| == |s|;
  }

  lemma SetSlot(s: seq<Entry>, h: int, e: Entry)
    requires 0 <= h < |s| && s[h] == Empty && e != Empty
    ensures RootsOf(s[h := e]) == RootsOf(s) + multiset{e}
  {
    assert multiset(s[h := e]) == multiset(s) - multiset{Empty} + multiset{e};
  }

  lemma ClearSlot(s: seq<Entry>, h: int)
    requires 0 <= h < |s| && s[h] != Empty
    ensures RootsOf(s[h := Empty]) == RootsOf(s) - multiset{s[h]} && s[h] in RootsOf(s)
    ensures |RootsOf(s[h := Empty])| == |RootsOf(s)| - 1
  {
    assert multiset(s[h := Empty]) == multiset(s) - multiset{s[h]} + multiset{Empty};
    assert s[h] in multiset(s);
    assert RootsOf(s) == RootsOf(s[h := Empty]) + multiset{s[h]};
  }

  lemma OneMore(s: seq<Entry>, i: int)
    requires 0 <= i < |s|
    ensures RootsOf(s[..i + 1]) == (if s[i] == Empty then RootsOf(s[..i]) else RootsOf(s[..i]) + multiset{s[i]})
  {
    assert s[..i + 1] == s[..i] + [s[i]];
  }

  lemma {:induction false} AllEmpty(s: seq<Entry>)
    requires forall i :: 0 <= i < |s| ==> s[i] == Empty
    ensures RootsOf(s) == multiset{}
  {
    assert forall e :: e in s ==> e == Empty;
  }

  /** If there are fewer roots than slots, there is an empty slot. */
  lemma SomeEmpty(s: seq<Entry>) returns (j: int)
    requires |RootsOf(s)| < |s|
    ensures 0 <= j < |s| && s[j] == Empty
  {
    SlotCount(s);
    assert Empty in multiset(s) && Empty in s;
    j :| 0 <= j < |s| && s[j] == Empty;
  }

  /** The number of steps that a probe starting at slot `h` takes to slot `j`. */
  function Distance(h: int, j: int, size: int): int {
    if h <= j then j - h else j - h + size
  }

  lemma Step(h: nat, size: nat)
    requires PowerOfTwo(size) && h < size
    ensures And(h + 1, size - 1) == if h + 1 == size then 0 else h + 1
  {
    hide And;
    Masked(h + 1, size);
  }

  lemma Start(root: nat, size: nat)
    requires PowerOfTwo(size)
    ensures RootHash(root, size) < size
  {
    hide And, Xor;
    Masked(Xor(Xor(root, root / Pow(2, HASH_PAGE_BITS1)), root / Pow(2, HASH_PAGE_BITS2)), size);
  }

  /** Probing for the address `root` passes no empty slot before slot `j`. */
  ghost predicate Leads(s: seq<Entry>, root: nat, j: int)
    requires 0 <= j < |s|
  {
    var start := RootHash(root, |s|);
    forall i | 0 <= i < |s| :: Distance(start, i, |s|) < Distance(start, j, |s|) ==> s[i] != Empty
  }

  /** Every root is in the first slot that was empty when it was put there, or in a slot probed before it. */
  ghost predicate Probed(s: seq<Entry>) {
    forall j | 0 <= j < |s| && s[j].Root? :: s[j].root >= 0 && Leads(s, s[j].root, j)
  }

  lemma ProbedStore(s: seq<Entry>, h: nat, e: Entry)
    requires Probed(s) && h < |s| && s[h] == Empty && e.Root? && e.root >= 0 && Leads(s, e.root, h)
    ensures Probed(s[h := e])
  {
    hide RootHash;
    var s1 := s[h := e];
    forall j | 0 <= j < |s1| && s1[j].Root? ensures s1[j].root >= 0 && Leads(s1, s1[j].root, j) {
      if j != h {
        assert s1[j] == s[j];
      }
    }
  }

  /** The table. */
  class Table {
    var slots: array<Entry>
    var live: nat

    /** The declared roots. */
    ghost function Roots(): multiset<Entry>
      reads this, slots
    {
      RootsOf(slots[..])
    }

    /** Addresses are not null. */
    ghost predicate Slotted()
      reads this, slots
    {
      forall i :: 0 <= i < slots.Length && slots[i].Root? ==> slots[i].root > 0
    }

    ghost predicate Valid()
      reads this, slots
    {
      Slotted() && live == |Roots()| && live * HASH_GROW_FRACTION <= slots.Length &&
        (slots.Length > 0 ==> PowerOfTwo(slots.Length))
    }

    constructor ()
      ensures Valid() && Roots() == multiset{} && slots.Length == 0 && fresh(slots)
    {
      slots := new Entry[0];
      live := 0;
      new;
      AllEmpty(slots[..]);
    }

    /** The first empty slot from where the probing for a root starts. There is one if the table is not full. */
    method Probe(root: nat) returns (hash: nat)
      requires |Roots()| < slots.Length && PowerOfTwo(slots.Length)
      ensures hash < slots.Length && slots[hash] == Empty
      ensures Leads(slots[..], root, hash)
    {
      hide And, RootHash, PowerOfTwo, RootsOf;
      Start(root, slots.Length);
      ghost var j := SomeEmpty(slots[..]);
      hash := RootHash(root, slots.Length);
      ghost var start := hash;
      while slots[hash] != Empty
        invariant hash < slots.Length && Distance(start, hash, slots.Length) <= Distance(start, j, slots.Length)
        invariant forall i | 0 <= i < slots.Length ::
                    Distance(start, i, slots.Length) < Distance(start, hash, slots.Length) ==> slots[i] != Empty
        decreases Distance(hash, j, slots.Length)
      {
        Step(hash, slots.Length);
        hash := And(hash + 1, slots.Length - 1);
      }
    }

    /** `store_root`. */
    method Store(e: Entry)
      requires e.Root? && e.root > 0 && Slotted() && |Roots()| < slots.Length && PowerOfTwo(slots.Length)
      modifies slots
      ensures Slotted() && Roots() == old(Roots()) + multiset{e} && (old(Probed(slots[..])) ==> Probed(slots[..]))
    {
      hide Probed, Leads, And, RootHash, PowerOfTwo, RootsOf;
      ghost var was := slots[..];
      var hash := Probe(e.root);
      SetSlot(was, hash, e);
      slots[hash] := e;
      assert slots[..] == was[hash := e];
      if Probed(was) {
        ProbedStore(was, hash, e);
      }
    }

    /** `rehash`: moves the roots to a new table. */
    method Rehash(size: nat)
      requires Slotted() && PowerOfTwo(size) && |Roots()| < size
      modifies this`slots
      ensures fresh(slots) && slots.Length == size && Slotted() && Roots() == old(Roots())
      ensures Probed(slots[..])
    {
      var oldRoots := slots;
      ghost var all := oldRoots[..];
      slots := new Entry[size](_ => Empty);
      AllEmpty(slots[..]);
      AllEmpty(all[..0]);
      var i := 0;
      while i < oldRoots.Length
        invariant 0 <= i <= oldRoots.Length && fresh(slots) && slots.Length == size && oldRoots[..] == all
        invariant slots != oldRoots
        invariant Slotted() && Roots() == RootsOf(all[..i]) && Probed(slots[..])
      {
        OneMore(all, i);
        if oldRoots[i] != Empty {
          Fewer(all, i + 1);
          Store(oldRoots[i]);
        }
        i := i + 1;
      }
      assert all[..i] == all;
    }

    /** `declare_root`. */
    method Declare(root: nat, liveForImageSave: bool)
      requires Valid() && root > 0
      modifies this, slots
      ensures Valid() && Roots() == old(Roots()) + multiset{Root(root, liveForImageSave)}
      ensures slots.Length > 0 && (slots == old(slots) || fresh(slots))
      ensures slots.Length == if 2 * |Roots()| <= old(slots.Length) then old(slots.Length)
                              else if old(slots.Length) > 0 then 2 * old(slots.Length) else 128
    {
      live := live + 1;
      if live * HASH_GROW_FRACTION > slots.Length {
        var size := if slots.Length > 0 then slots.Length * HASH_GROW_FACTOR else INITIAL_HASH_SIZE;
        if slots.Length > 0 {
          Doubled(slots.Length);
        } else {
          assert INITIAL_HASH_SIZE == Pow(2, 7);
        }
        Rehash(size);
      }
      Store(Root(root, liveForImageSave));
    }

    /** Looks through all the table for a root, from where the probing starts. */
    method Find(root: nat) returns (found: bool, hash: nat)
      requires Valid() && slots.Length > 0
      ensures found ==> hash < slots.Length && IsRoot(slots[hash], root)
      ensures !found ==> forall j :: 0 <= j < slots.Length ==> !IsRoot(slots[j], root)
    {
      hide And, RootHash, PowerOfTwo;
      Start(root, slots.Length);
      hash := RootHash(root, slots.Length);
      var oldHash := hash;
      ghost var n := 0;
      while true
        invariant hash < slots.Length && 0 <= n < slots.Length && n == Distance(oldHash, hash, slots.Length)
        invariant forall j :: 0 <= j < slots.Length && Distance(oldHash, j, slots.Length) < n ==>
                  !IsRoot(slots[j], root)
        decreases slots.Length - n
      {
        if slots[hash].Root? && slots[hash].root == root {
          return true, hash;
        }
        Step(hash, slots.Length);
        hash := And(hash + 1, slots.Length - 1);
        if hash == oldHash {
          return false, hash;
        }
        n := n + 1;
      }
    }

    /** `retract_root`. An address that is not declared is an error. */
    method Retract(root: nat) returns (found: bool, ghost gone: Entry)
      requires Valid() && slots.Length > 0
      modifies this, slots
      ensures Valid() && slots.Length > 0 && (slots == old(slots) || fresh(slots))
      ensures found <==> exists l :: Root(root, l) in old(Roots())
      ensures found ==> IsRoot(gone, root) && gone in old(Roots()) && Roots() == old(Roots()) - multiset{gone}
      ensures !found ==> Roots() == old(Roots()) && slots == old(slots)
      ensures found ==> slots.Length == if 8 * |Roots()| < old(slots.Length) then old(slots.Length) / 2
                                        else old(slots.Length)
    {
      var hash;
      found, hash := Find(root);
      gone := Empty;
      if found {
        gone := slots[hash];
        assert gone == Root(root, gone.live);
        Remove(hash);
      } else {
        forall l ensures Root(root, l) !in Roots() {
          NotThere(slots[..], root, l);
        }
      }
    }

    /** Empties a slot, and shrinks the table if few roots are left. */
    method Remove(hash: nat)
      requires Valid() && hash < slots.Length && slots[hash] != Empty
      modifies this, slots
      ensures Valid() && slots.Length > 0 && (slots == old(slots) || fresh(slots))
      ensures old(slots[hash]) in old(Roots()) && Roots() == old(Roots()) - multiset{old(slots[hash])}
      ensures slots.Length == if 8 * |Roots()| < old(slots.Length) then old(slots.Length) / 2 else old(slots.Length)
    {
      ghost var was := slots[..];
      ClearSlot(was, hash);
      slots[hash] := Empty;
      assert slots[..] == was[hash := Empty];
      live := live - 1;
      if live * HASH_SHRINK_FRACTION < slots.Length {
        Halved(slots.Length);
        Rehash(slots.Length / HASH_SHRINK_FACTOR);
      }
    }
  }

  ghost predicate IsRoot(e: Entry, root: nat) {
    e.Root? && e.root == root
  }

  lemma NotThere(s: seq<Entry>, root: nat, l: bool)
    requires forall j :: 0 <= j < |s| ==> !IsRoot(s[j], root)
    ensures Root(root, l) !in RootsOf(s)
  {
    assert Root(root, l) !in s;
  }

  /** A part of the slots has no more roots than all. */
  lemma Fewer(s: seq<Entry>, i: int)
    requires 0 <= i <= |s|
    ensures |RootsOf(s[..i])| <= |RootsOf(s)|
  {
    assert s == s[..i] + s[i..];
    assert RootsOf(s) == RootsOf(s[..i]) + RootsOf(s[i..]);
  }
}
