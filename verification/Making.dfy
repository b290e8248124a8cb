/** Generations that come and go between collections: making one in a free space, dropping an empty one, and
    renumbering the chain leave the heap at rest. */
module Making {
  import opened Heap
  import opened Seqs
  import opened Copying
  import opened Moving
  import opened Scanning
  import opened EntryLists
  import opened Remembered
  import opened Sweeping
  import opened Outcome
  import opened Aftermath
  import opened Steady
  import opened Areas
  import opened Cycle
  import opened Mutator
  import C = Collector

  /** The generation `g` holds nothing, and no array is on its entry list. */
  ghost predicate Idle(A: Ages, home: map<int, int>, g: int) {
    g in A.gens && A.gens[g].start == A.gens[g].top && A.gens[g].statics == [] && forall b :: b in home ==> home[b] != g
  }

  // ---- Numbers ----

  /** `A1` is `A` with other numbers and other places in the chain; generations that are not idle keep their order. */
  ghost predicate Renumbered(A: Ages, A1: Ages, home: map<int, int>) {
    && A1.gens.Keys == A.gens.Keys && A1.space == A.space && A1.holder == A.holder
    && (forall g :: g in A.gens ==>
          A1.gens[g].start == A.gens[g].start && A1.gens[g].top == A.gens[g].top &&
          A1.gens[g].statics == A.gens[g].statics)
    && (forall g, h :: g in A.gens && h in A.gens && !Idle(A, home, g) && !Idle(A, home, h) ==>
          (A.Number(g) <= A.Number(h) ==> A1.Number(g) <= A1.Number(h)))
  }

  lemma SameGen(L: Layout, A: Ages, A1: Ages, a: int)
    requires A1.space == A.space && A1.holder == A.holder
    ensures GenAt(L, A1, a) == GenAt(L, A, a)
  {
  }

  lemma KeysSame(A: Ages, A1: Ages)
    requires A1.gens.Keys == A.gens.Keys
    ensures forall g :: g in A1.gens <==> g in A.gens
  {
    assert forall g :: g in A.gens <==> g in A.gens.Keys;
  }

  /** The generation of an object is not idle. */
  lemma ObjectNotIdle(L: Layout, A: Ages, home: map<int, int>, c: int)
    requires HeapOk(L, A, home, {}) && c in L.own && L.Type(c) != From
    ensures GenAt(L, A, L.own[c]) in A.gens && !Idle(A, home, GenAt(L, A, L.own[c]))
  {
    hide L.ObjectsOk, Separate, SoundHeap, Filled, AreasOk, AgesOk;
    OwnBase(L, c);
    SameTypeAsBase(L, c);
    OwnerKnown(L, A, L.own[c]);
    BaseHeap(L, A, L.own[c]);
    assert Placed(L, A, c);
  }

  lemma SameTypeAsBase(L: Layout, c: int)
    requires Separate(L) && c in L.own
    ensures L.Type(c) == L.Type(L.own[c])
  {
  }

  lemma BaseHeap(L: Layout, A: Ages, b: int)
    requires AgesOk(L, A) && L.Base(b)
    ensures IsHeapType(L.Type(b))
  {
  }

  /** The generation that a reference leads to is not idle. */
  lemma WordNotIdle(L: Layout, A: Ages, home: map<int, int>, w: Word)
    requires HeapOk(L, A, home, {}) && Sound(L, w) && Collectable(L, w) && L.Type(w.addr) != From
    ensures WordGen(L, A, w) in A.gens && !Idle(A, home, WordGen(L, A, w))
  {
    hide L.ObjectsOk, Separate, SoundHeap, Filled, AreasOk, Orderly;
    SoundOwned(L, w);
    ObjectNotIdle(L, A, home, w.addr);
    SameTypeAsBase(L, w.addr);
    AddrGen(L, A, home, w.addr);
  }

  /** A word of an object lies in the generation of the object. */
  lemma AddrGen(L: Layout, A: Ages, home: map<int, int>, x: int)
    requires HeapOk(L, A, home, {}) && x in L.own && L.Type(x) != From
    ensures GenAt(L, A, x) == GenAt(L, A, L.own[x])
  {
    hide L.ObjectsOk, SoundHeap, Filled, AgesOk, Idle, Separate;
    OwnBase(L, x);
    SameTypeAsBase(L, x);
    if L.Type(x) != MlStatic {
      ObjectNotIdle(L, A, home, x);
      BaseHeap(L, A, L.own[x]);
      assert Placed(L, A, x);
      AreaWord(L, A, GenAt(L, A, L.own[x]), x);
    }
  }

  lemma NotedRenumbered(L: Layout, A: Ages, A1: Ages, home: map<int, int>, c: int)
    requires HeapOk(L, A, home, {}) && Renumbered(A, A1, home) && HoldsValue(L, c) && forall a :: L.Type(a) != From
    ensures Noted(L, A1, home, c)
  {
    hide L.ObjectsOk, Separate, Filled, AreasOk, Idle;
    HoldsOwned(L, c);
    var w, b := L.Was(c), L.own[c];
    SameGen(L, A, A1, b);
    assert Noted(L, A, home, c) && Sound(L, w);
    if Collectable(L, w) {
      SameGen(L, A, A1, w.addr);
      WordNotIdle(L, A, home, w);
      ObjectNotIdle(L, A, home, c);
      if b in home {
        HomeNotIdle(A, home, b);
      }
    }
  }

  lemma HomeNotIdle(A: Ages, home: map<int, int>, b: int)
    requires b in home
    ensures !Idle(A, home, home[b])
  {
  }

  lemma WeakRenumbered(L: Layout, A: Ages, A1: Ages, home: map<int, int>, b: int)
    requires HeapOk(L, A, home, {}) && Renumbered(A, A1, home) && forall a :: L.Type(a) != From
    ensures WeakNoted(L, A1, home, b)
  {
    hide L.ObjectsOk, Separate, SoundHeap, Filled, AreasOk, Idle;
    assert WeakNoted(L, A, home, b);
    SameGen(L, A, A1, b);
    if L.Base(b) && WeakHeader(L.Was(b)) {
      ObjectNotIdle(L, A, home, b);
      HomeNotIdle(A, home, b);
    }
  }

  lemma AreasRenumbered(L: Layout, A: Ages, A1: Ages, home: map<int, int>)
    requires AreasOk(L, A) && Renumbered(A, A1, home)
    ensures AreasOk(L, A1)
  {
    hide Idle, GenAt;
    KeysSame(A, A1);
    forall a ensures GenAt(L, A1, a) == GenAt(L, A, a) {
      SameGen(L, A, A1, a);
    }
    forall g, x {:trigger Occupied(L, A1, g, x)} | g in A1.gens && A1.gens[g].start <= x < A1.gens[g].top
      ensures Occupied(L, A1, g, x)
    {
      assert Occupied(L, A, g, x);
    }
    forall g, b {:trigger Held(L, A1, g, b)} | g in A1.gens && b in A1.gens[g].statics ensures Held(L, A1, g, b) {
      assert Held(L, A, g, b);
    }
    forall g {:trigger InOwnSpace(L, A1, g)} | g in A1.gens ensures InOwnSpace(L, A1, g) {
      assert InOwnSpace(L, A, g);
    }
  }

  lemma OrderlyRenumbered(L: Layout, A: Ages, A1: Ages, home: map<int, int>)
    requires HeapOk(L, A, home, {}) && Renumbered(A, A1, home) && forall a :: L.Type(a) != From
    ensures Orderly(L, A1, home, {})
  {
    hide L.ObjectsOk, Separate, SoundHeap, Filled, AreasOk, Idle, GenAt, Noted, WeakNoted, HoldsValue;
    KeysSame(A, A1);
    forall a ensures GenAt(L, A1, a) == GenAt(L, A, a) {
      SameGen(L, A, A1, a);
    }
    forall c | c in L.own ensures Placed(L, A1, c) {
      assert Placed(L, A, c);
    }
    forall c {:trigger HoldsValue(L, c)} | HoldsValue(L, c) ensures c in L.own && Noted(L, A1, home, c) {
      HoldsOwned(L, c);
      NotedRenumbered(L, A, A1, home, c);
    }
    forall b {:trigger WeakNoted(L, A1, home, b)} ensures WeakNoted(L, A1, home, b) {
      WeakRenumbered(L, A, A1, home, b);
    }
  }

  /** The heap is in order whatever numbers the generations have, as long as those in use keep their order. */
  lemma HeapRenumbered(L: Layout, A: Ages, A1: Ages, home: map<int, int>)
    requires HeapOk(L, A, home, {}) && Renumbered(A, A1, home) && forall a :: L.Type(a) != From
    ensures HeapOk(L, A1, home, {})
  {
    hide L.ObjectsOk, Separate, SoundHeap, Filled, AreasOk, Orderly, Renumbered;
    AreasRenumbered(L, A, A1, home);
    OrderlyRenumbered(L, A, A1, home);
  }

  /** The ages of `A` with the number of `g` set to `n`. */
  function WithNumber(A: Ages, g: int, n: int): Ages {
    if g in A.gens then A.(gens := A.gens[g := A.gens[g].(number := n)]) else A
  }

  /** The generations of the chain `all` that are in use are numbered in the order of the chain. */
  ghost predicate InChainOrder(A: Ages, home: map<int, int>, all: seq<int>) {
    && (forall g :: g in A.gens && !Idle(A, home, g) ==> g in all)
    && (forall i, j :: 0 <= i < j < |all| && !Idle(A, home, all[i]) && !Idle(A, home, all[j]) ==>
          A.Number(all[i]) < A.Number(all[j]))
  }

  /** The first `n` generations of the chain have their new numbers, all else is as in `A`. */
  ghost predicate NumberedTo(A: Ages, A1: Ages, all: seq<int>, n: int)
    requires 0 <= n <= |all|
  {
    && A1.gens.Keys == A.gens.Keys && A1.space == A.space && A1.holder == A.holder
    && (forall g :: g in A.gens && g !in all[..n] ==> A1.gens[g] == A.gens[g])
    && (forall i :: 0 <= i < n ==> all[i] in A.gens && A1.gens[all[i]] == A.gens[all[i]].(number := i))
  }

  lemma NumberedAll(A: Ages, A1: Ages, home: map<int, int>, all: seq<int>)
    requires InChainOrder(A, home, all) && NumberedTo(A, A1, all, |all|) && Distinct(all)
    ensures Renumbered(A, A1, home)
  {
    hide Idle;
    assert all[..|all|] == all;
    forall g | g in A.gens ensures A1.gens[g].(number := 0) == A.gens[g].(number := 0) {
      if g in all {
        var i :| 0 <= i < |all| && all[i] == g;
      }
    }
    forall g, h | g in A.gens && h in A.gens && !Idle(A, home, g) && !Idle(A, home, h)
      ensures A.Number(g) <= A.Number(h) ==> A1.Number(g) <= A1.Number(h)
    {
      var i :| 0 <= i < |all| && all[i] == g;
      var j :| 0 <= j < |all| && all[j] == h;
      assert A1.Number(all[i]) == i && A1.Number(all[j]) == j;
    }
  }

  lemma NumberStep(A: Ages, A1: Ages, creation: int, all: seq<int>, n: int)
    requires ParentsOk(A, creation, all) && 0 <= n < |all| && NumberedTo(A, A1, all, n)
    ensures var A2 := WithNumber(A1, all[n], n);
            NumberedTo(A, A2, all, n + 1) && all[n] in A2.gens && A2.gens[all[n]].parent == Nth(all, n + 1)
  {
    hide Distinct, NumberedTo;
    ParentStep(A, creation, all, n);
    NotBefore(all, n);
    NumberMore(A, A1, all, n);
  }

  lemma NumberMore(A: Ages, A1: Ages, all: seq<int>, n: int)
    requires 0 <= n < |all| && NumberedTo(A, A1, all, n) && all[n] in A.gens && all[n] !in all[..n]
    ensures NumberedTo(A, WithNumber(A1, all[n], n), all, n + 1) && all[n] in A1.gens
    ensures WithNumber(A1, all[n], n).gens[all[n]] == A.gens[all[n]].(number := n)
  {
    var g, A2 := all[n], WithNumber(A1, all[n], n);
    KeysSame(A, A1);
    assert A2.gens.Keys == A1.gens.Keys;
    forall h | h in A.gens && h != g ensures A2.gens[h] == A1.gens[h] {
    }
    assert all[..n + 1] == all[..n] + [g];
    forall i | 0 <= i < n ensures all[i] in A.gens && all[i] != g && A1.gens[all[i]] == A.gens[all[i]].(number := i) {
      assert all[..n][i] == all[i];
    }
  }

  /** Numbers the generations of the chain from the creation space upwards. */
  method NumberChain(c: C.Collector, creation: int, ghost all: seq<int>)
    requires ParentsOk(c.ages, creation, all)
    modifies c`ages
    ensures NumberedTo(old(c.ages), c.ages, all, |all|)
  {
    hide NumberedTo, WithNumber;
    ghost var A, n := c.ages, 0;
    var number, gen := 0, creation;
    NothingNumbered(A, all);
    while gen != 0
      invariant 0 <= n <= |all| && number == n && gen == Nth(all, n) && NumberedTo(A, c.ages, all, n)
      decreases |all| - n
    {
      ParentStep(A, creation, all, n);
      NumberStep(A, c.ages, creation, all, n);
      c.ages := WithNumber(c.ages, gen, number);
      gen := c.ages.gens[gen].parent;
      number, n := number + 1, n + 1;
    }
    ParentStep(A, creation, all, n);
  }

  lemma NothingNumbered(A: Ages, all: seq<int>)
    ensures NumberedTo(A, A, all, 0)
  {
  }

  /** `renumber_generations`: the heap stays at rest. */
  method RenumberGenerations(c: C.Collector, creation: int, ghost all: seq<int>)
    requires AtRest(c) && ParentsOk(c.ages, creation, all) && InChainOrder(c.ages, c.home, all)
    modifies c`ages
    ensures AtRest(c) && Renumbered(old(c.ages), c.ages, c.home)
    ensures forall i :: 0 <= i < |all| ==> c.ages.Number(all[i]) == i
  {
    hide HeapOk, Untouched, ThreadsOk, ListsOk, InChainOrder, Renumbered;
    ghost var A := c.ages;
    NumberChain(c, creation, all);
    NumberedAll(A, c.ages, c.home, all);
    HeapRenumbered(c.L, A, c.ages, c.home);
  }

  lemma NotBefore(s: seq<int>, n: int)
    requires Distinct(s) && 0 <= n < |s|
    ensures s[n] !in s[..n]
  {
  }

  // ---- Layouts with one generation more or less ----

  /** `N` has the objects of `L`, and heap spaces of `L` and `N` differ only where no object is. */
  ghost predicate SameObjects(L: Layout, N: Layout) {
    && N.m0 == L.m0 && N.own == L.own && N.tag == L.tag && N.roots == L.roots
    && (forall a :: a in L.own ==> N.Type(a) == L.Type(a))
  }

  lemma SoundThere(L: Layout, N: Layout, w: Word)
    requires SameObjects(L, N) && Sound(L, w) && (Collectable(N, w) ==> Collectable(L, w))
    ensures Sound(N, w)
  {
    if Collectable(N, w) {
      TargetStarts(L, N, w.tag, w.addr);
    }
  }

  /** References lead to legal targets still, if none leads into a space that has become one of the heap. */
  lemma ContentsThere(L: Layout, N: Layout)
    requires SameObjects(L, N) && SoundHeap(L) && Filled(L)
    requires forall x :: HoldsValue(L, x) || x in L.roots ==> (Collectable(N, L.Was(x)) ==> Collectable(L, L.Was(x)))
    ensures SoundHeap(N) && Filled(N)
  {
    hide Sound, Collectable;
    assert forall x :: HoldsValue(N, x) <==> HoldsValue(L, x);
    forall x {:trigger HoldsValue(N, x)} | HoldsValue(N, x) ensures Sound(N, N.Was(x)) && IsValue(N.Was(x)) {
      assert HoldsValue(L, x);
      SoundThere(L, N, L.Was(x));
    }
    forall x | x in N.roots ensures Sound(N, N.Was(x)) {
      SoundThere(L, N, L.Was(x));
    }
  }

  /** The areas of the generations of `A1` that are in `A` too are as dense as in `A`. */
  ghost predicate SameArea(L: Layout, N: Layout, A: Ages, A1: Ages, g: int) {
    g in A.gens && g in A1.gens && A1.gens[g] == A.gens[g] && InOwnSpace(N, A1, g)
  }

  ghost predicate Vacant(N: Layout, A1: Ages, g: int) {
    g in A1.gens && A1.gens[g].start == A1.gens[g].top && A1.gens[g].statics == [] && InOwnSpace(N, A1, g)
  }

  lemma AreasThere(L: Layout, N: Layout, A: Ages, A1: Ages)
    requires SameObjects(L, N) && AreasOk(L, A) && A1.holder == A.holder
    requires forall a :: a in L.own ==> GenAt(N, A1, a) == GenAt(L, A, a)
    requires forall g {:trigger Vacant(N, A1, g)} :: g in A1.gens ==> SameArea(L, N, A, A1, g) || Vacant(N, A1, g)
    ensures AreasOk(N, A1)
  {
    hide GenAt;
    forall g, x {:trigger Occupied(N, A1, g, x)} | g in A1.gens && A1.gens[g].start <= x < A1.gens[g].top
      ensures Occupied(N, A1, g, x)
    {
      assert SameArea(L, N, A, A1, g) || Vacant(N, A1, g);
      assert Occupied(L, A, g, x);
    }
    forall g, b {:trigger Held(N, A1, g, b)} | g in A1.gens && b in A1.gens[g].statics ensures Held(N, A1, g, b) {
      assert SameArea(L, N, A, A1, g) || Vacant(N, A1, g);
      assert Held(L, A, g, b);
    }
    forall g {:trigger InOwnSpace(N, A1, g)} | g in A1.gens ensures InOwnSpace(N, A1, g) {
      assert SameArea(L, N, A, A1, g) || Vacant(N, A1, g);
    }
  }

  /** What the lists record does not change with a generation that is idle. */
  lemma RecordsThere(L: Layout, N: Layout, A: Ages, A1: Ages, home: map<int, int>)
    requires SameObjects(L, N) && HeapOk(L, A, home, {}) && forall a :: L.Type(a) != From
    requires forall a :: a in L.own ==> GenAt(N, A1, a) == GenAt(L, A, a)
    requires forall g :: g in A.gens && !Idle(A, home, g) ==> g in A1.gens && A1.gens[g] == A.gens[g]
    requires forall x {:trigger HoldsValue(L, x)} :: HoldsValue(L, x) ==>
               (Collectable(N, L.Was(x)) ==> Collectable(L, L.Was(x)))
    ensures forall c :: c in N.own ==> Placed(N, A1, c)
    ensures forall c {:trigger HoldsValue(N, c)} :: HoldsValue(N, c) ==> c in N.own && Noted(N, A1, home, c)
    ensures forall b {:trigger WeakNoted(N, A1, home, b)} :: WeakNoted(N, A1, home, b)
  {
    hide L.ObjectsOk, Separate, SoundHeap, Filled, AreasOk, Idle, GenAt;
    forall c | c in N.own ensures Placed(N, A1, c) {
      PlacedThere(L, N, A, A1, home, c);
    }
    forall c {:trigger HoldsValue(N, c)} | HoldsValue(N, c) ensures c in N.own && Noted(N, A1, home, c) {
      assert HoldsValue(L, c);
      NotedThere(L, N, A, A1, home, c);
    }
    forall b {:trigger WeakNoted(N, A1, home, b)} ensures WeakNoted(N, A1, home, b) {
      WeakThere(L, N, A, A1, home, b);
    }
  }

  lemma PlacedThere(L: Layout, N: Layout, A: Ages, A1: Ages, home: map<int, int>, c: int)
    requires SameObjects(L, N) && HeapOk(L, A, home, {}) && (forall a :: L.Type(a) != From) && c in L.own
    requires forall a :: a in L.own ==> GenAt(N, A1, a) == GenAt(L, A, a)
    requires forall g :: g in A.gens && !Idle(A, home, g) ==> g in A1.gens && A1.gens[g] == A.gens[g]
    ensures Placed(N, A1, c)
  {
    hide L.ObjectsOk, Separate, SoundHeap, Filled, AreasOk, Idle, GenAt, AgesOk;
    ObjectNotIdle(L, A, home, c);
    OwnBase(L, c);
    assert Placed(L, A, c);
  }

  lemma NotedThere(L: Layout, N: Layout, A: Ages, A1: Ages, home: map<int, int>, c: int)
    requires SameObjects(L, N) && HeapOk(L, A, home, {}) && (forall a :: L.Type(a) != From) && HoldsValue(L, c)
    requires forall a :: a in L.own ==> GenAt(N, A1, a) == GenAt(L, A, a)
    requires forall g :: g in A.gens && !Idle(A, home, g) ==> g in A1.gens && A1.gens[g] == A.gens[g]
    requires Collectable(N, L.Was(c)) ==> Collectable(L, L.Was(c))
    ensures c in N.own && Noted(N, A1, home, c)
  {
    hide L.ObjectsOk, Separate, Filled, AreasOk, Idle, GenAt, AgesOk;
    HoldsOwned(L, c);
    OwnBase(L, c);
    var w, b := L.Was(c), L.own[c];
    assert Noted(L, A, home, c) && Sound(L, w);
    if Collectable(N, w) {
      SoundOwned(L, w);
      WordNotIdle(L, A, home, w);
      ObjectNotIdle(L, A, home, c);
      if b in home {
        HomeNotIdle(A, home, b);
        assert home[b] in A.gens;
      }
    }
  }

  lemma WeakThere(L: Layout, N: Layout, A: Ages, A1: Ages, home: map<int, int>, b: int)
    requires SameObjects(L, N) && HeapOk(L, A, home, {}) && forall a :: L.Type(a) != From
    requires forall a :: a in L.own ==> GenAt(N, A1, a) == GenAt(L, A, a)
    requires forall g :: g in A.gens && !Idle(A, home, g) ==> g in A1.gens && A1.gens[g] == A.gens[g]
    ensures WeakNoted(N, A1, home, b)
  {
    hide L.ObjectsOk, Separate, SoundHeap, Filled, AreasOk, Idle, GenAt, AgesOk;
    assert WeakNoted(L, A, home, b);
    if L.Base(b) && WeakHeader(L.Was(b)) {
      ObjectNotIdle(L, A, home, b);
      HomeNotIdle(A, home, b);
      assert home[b] in A.gens;
    }
  }

  // ---- Dropping a generation ----

  /** The layout without the generation `e`, whose space is `sp`. */
  ghost function Shrunk(L: Layout, e: int, sp: int): Layout {
    L.(heads := L.heads - {e}, typ := a => if a / SPACE_WORDS == sp then Reserved else L.typ(a))
  }

  function AgesWithout(A: Ages, e: int, sp: int): Ages {
    A.(gens := A.gens - {e}, space := A.space - {sp})
  }

  ghost function RingsWithout(T: Trail, e: int): Trail {
    T.(nxt := T.nxt - {e}, prv := T.prv - {e})
  }

  /** The generation `e` may be dropped: nothing is in it, and it has the one space `sp`. */
  ghost predicate Droppable(L: Layout, A: Ages, home: map<int, int>, types: map<int, SpaceType>, e: int, sp: int) {
    && HeapOk(L, A, home, {}) && Idle(A, home, e) && sp == A.gens[e].start / SPACE_WORDS
    && (forall s :: s in A.space && A.space[s] == e ==> s == sp)
    && (forall a :: L.Type(a) == TypeOf(types, a) && L.Type(a) != From)
  }

  /** No object lies in the space of an idle generation. */
  lemma NoObjectThere(L: Layout, A: Ages, home: map<int, int>, types: map<int, SpaceType>, e: int, sp: int, a: int)
    requires Droppable(L, A, home, types, e, sp) && a in L.own
    ensures a / SPACE_WORDS != sp
  {
    hide L.ObjectsOk, Separate, SoundHeap, Filled, Orderly, Idle;
    IdleParts(A, home, e);
    assert InOwnSpace(L, A, e);
    ObjectNotIdle(L, A, home, a);
    AddrGen(L, A, home, a);
  }

  lemma IdleParts(A: Ages, home: map<int, int>, e: int)
    requires Idle(A, home, e)
    ensures e in A.gens && A.gens[e].start == A.gens[e].top && A.gens[e].statics == []
    ensures forall b :: b in home ==> home[b] != e
  {
  }

  lemma ShrunkObjects(L: Layout, A: Ages, home: map<int, int>, types: map<int, SpaceType>, e: int, sp: int)
    requires Droppable(L, A, home, types, e, sp)
    ensures SameObjects(L, Shrunk(L, e, sp)) && forall w :: Collectable(Shrunk(L, e, sp), w) ==> Collectable(L, w)
    ensures forall a :: a in L.own ==> GenAt(Shrunk(L, e, sp), AgesWithout(A, e, sp), a) == GenAt(L, A, a)
  {
    hide HeapOk, Idle;
    forall a | a in L.own ensures a / SPACE_WORDS != sp {
      NoObjectThere(L, A, home, types, e, sp, a);
    }
  }

  lemma AgesLeft(L: Layout, A: Ages, home: map<int, int>, types: map<int, SpaceType>, e: int, sp: int)
    requires Droppable(L, A, home, types, e, sp)
    ensures AgesOk(Shrunk(L, e, sp), AgesWithout(A, e, sp))
  {
    hide Idle, L.ObjectsOk, Separate, SoundHeap, Filled, AreasOk;
    var N, A1 := Shrunk(L, e, sp), AgesWithout(A, e, sp);
    ShrunkObjects(L, A, home, types, e, sp);
    assert A1.gens.Keys == A.gens.Keys - {e};
    forall g | g in A.gens && g != e ensures g in A1.gens {
    }
    forall a | N.Type(a) == MlHeap || N.Type(a) == From ensures SpaceKnown(A1, a) {
      assert SpaceKnown(A, a);
    }
    forall b | N.Base(b) ensures L.Base(b) && N.Type(b) == L.Type(b) {
    }
    forall b | N.Base(b) && N.Type(b) == MlStatic ensures b in A1.holder && A1.holder[b] in A1.gens {
      StaticElsewhere(L, A, home, e, b);
    }
  }

  lemma ShrunkAges(L: Layout, A: Ages, home: map<int, int>, types: map<int, SpaceType>, e: int, sp: int)
    requires Droppable(L, A, home, types, e, sp)
    ensures AgesOk(Shrunk(L, e, sp), AgesWithout(A, e, sp)) && AreasOk(Shrunk(L, e, sp), AgesWithout(A, e, sp))
  {
    var N, A1 := Shrunk(L, e, sp), AgesWithout(A, e, sp);
    ShrunkObjects(L, A, home, types, e, sp);
    IdleParts(A, home, e);
    AgesLeft(L, A, home, types, e, sp);
    forall g {:trigger Vacant(N, A1, g)} | g in A1.gens ensures SameArea(L, N, A, A1, g) {
      SpaceElsewhere(L, A, e, g);
    }
    hide HeapOk, Idle;
    AreasThere(L, N, A, A1);
  }

  lemma StaticElsewhere(L: Layout, A: Ages, home: map<int, int>, e: int, b: int)
    requires HeapOk(L, A, home, {}) && Idle(A, home, e) && L.Base(b) && L.Type(b) == MlStatic
    ensures b in A.holder && A.holder[b] in A.gens && A.holder[b] != e
  {
    hide L.ObjectsOk, Separate, SoundHeap, Filled, AreasOk;
    ObjectNotIdle(L, A, home, b);
  }

  lemma SpaceElsewhere(L: Layout, A: Ages, e: int, g: int)
    requires AreasOk(L, A) && e in A.gens && g in A.gens && g != e
    ensures InOwnSpace(L, A, g) && A.gens[g].start / SPACE_WORDS != A.gens[e].start / SPACE_WORDS
  {
    assert InOwnSpace(L, A, g) && InOwnSpace(L, A, e);
  }

  /** An empty ring consists of its head. */
  lemma EmptyRing(L: Layout, A: Ages, T: Trail, lists: map<int, seq<int>>, home: map<int, int>, e: int)
    requires RingsOk(L, T) && ListsOk(L, T, lists, home) && e in L.heads && forall b :: b in home ==> home[b] != e
    ensures e in lists && lists[e] == [] && e in T.nxt && e in T.prv && T.nxt[e] == e && T.prv[e] == e
    ensures forall n :: n in T.nxt && n != e ==> n in T.prv && T.nxt[n] != e && T.prv[n] != e
  {
    hide RingsOk, Distinct;
    assert ListOk(L, T, home, e, lists[e]);
    if lists[e] != [] {
      assert home[lists[e][0]] == e;
    }
    RingStep(L, T, e);
    forall n | n in T.nxt && n != e ensures n in T.prv && T.nxt[n] != e && T.prv[n] != e {
      RingStep(L, T, n);
    }
  }

  lemma RingsLeft(L: Layout, A: Ages, T: Trail, lists: map<int, seq<int>>, home: map<int, int>, e: int, sp: int)
    requires RingsOk(L, T) && ListsOk(L, T, lists, home) && e in L.heads && forall b :: b in home ==> home[b] != e
    ensures RingsOk(Shrunk(L, e, sp), RingsWithout(T, e))
    ensures ListsOk(Shrunk(L, e, sp), RingsWithout(T, e), lists - {e}, home)
  {
    var N, T1 := Shrunk(L, e, sp), RingsWithout(T, e);
    EmptyRing(L, A, T, lists, home, e);
    ListsLeft(L, T, lists, home, e, sp);
    hide ListsOk;
    forall n {:trigger Listed(T1, n)} | Listed(T1, n)
      ensures Node(N, n) && n in T1.prv && T1.nxt[n] in T1.nxt && T1.nxt[n] in T1.prv && T1.prv[n] in T1.nxt
      ensures T1.prv[T1.nxt[n]] == n && T1.nxt[T1.prv[n]] == n && RankOk(N, T1, n)
    {
      RingLeft(L, T, e, sp, n);
    }
  }

  lemma ListLeft(L: Layout, T: Trail, home: map<int, int>, e: int, sp: int, h: int, s: seq<int>)
    requires ListOk(L, T, home, h, s) && h != e && e in L.heads
    ensures ListOk(Shrunk(L, e, sp), RingsWithout(T, e), home, h, s)
  {
    hide Distinct;
    forall i | 0 <= i < |s| ensures s[i] != e && s[i] in RingsWithout(T, e).nxt {
    }
  }

  lemma ListsLeft(L: Layout, T: Trail, lists: map<int, seq<int>>, home: map<int, int>, e: int, sp: int)
    requires ListsOk(L, T, lists, home) && e in L.heads && forall b :: b in home ==> home[b] != e
    ensures ListsOk(Shrunk(L, e, sp), RingsWithout(T, e), lists - {e}, home)
  {
    hide ListOk;
    var lists1 := lists - {e};
    assert lists1.Keys == lists.Keys - {e};
    forall h | h in lists1 ensures ListOk(Shrunk(L, e, sp), RingsWithout(T, e), home, h, lists1[h]) {
      ListLeft(L, T, home, e, sp, h, lists[h]);
    }
  }

  lemma RingLeft(L: Layout, T: Trail, e: int, sp: int, n: int)
    requires RingsOk(L, T) && n in T.nxt && n != e
    requires forall k :: k in T.nxt && k != e ==> k in T.prv && T.nxt[k] != e && T.prv[k] != e
    ensures var N, T1 := Shrunk(L, e, sp), RingsWithout(T, e);
            && Node(N, n) && n in T1.nxt && n in T1.prv && T1.nxt[n] in T1.nxt && T1.nxt[n] in T1.prv
            && T1.prv[n] in T1.nxt && T1.prv[T1.nxt[n]] == n && T1.nxt[T1.prv[n]] == n && RankOk(N, T1, n)
  {
    RingStep(L, T, n);
    RingStep(L, T, T.nxt[n]);
  }

  lemma ThreadsLeft(L: Layout, A: Ages, T: Trail, m: seq<Word>, lists: map<int, seq<int>>, home: map<int, int>, e: int,
                    sp: int)
    requires ThreadsOk(L, T, m) && ListsOk(L, T, lists, home) && e in L.heads && Separate(L)
    requires forall b :: b in home ==> home[b] != e
    ensures ThreadsOk(Shrunk(L, e, sp), RingsWithout(T, e), m)
    ensures ListsOk(Shrunk(L, e, sp), RingsWithout(T, e), lists - {e}, home)
  {
    RingsLeft(L, A, T, lists, home, e, sp);
    hide RingsOk, ListsOk, Threaded, Separate;
    var N, T1 := Shrunk(L, e, sp), RingsWithout(T, e);
    forall n {:trigger Threaded(T1, m, n)} | n in T1.nxt ensures Threaded(T1, m, n) {
      ThreadLeft(L, T, m, e, n);
    }
    forall b | N.Base(b) && IsArray(N.Was(b)) && b !in T1.nxt ensures Unlisted(T1, m, b) {
      HeadElsewhere(L, e, b);
      assert Unlisted(T, m, b);
    }
    hide ThreadsOk;
    AssembleThreads(N, T1, m);
  }

  lemma ThreadLeft(L: Layout, T: Trail, m: seq<Word>, e: int, n: int)
    requires ThreadsOk(L, T, m) && n in RingsWithout(T, e).nxt
    ensures Threaded(RingsWithout(T, e), m, n)
  {
    hide RingsOk;
    RingStep(L, T, n);
  }

  lemma HeadElsewhere(L: Layout, e: int, b: int)
    requires Separate(L) && e in L.heads && L.Base(b)
    ensures b != e
  {
    assert L.HeadWord(e, e);
  }

  lemma HeapLeft(L: Layout, A: Ages, home: map<int, int>, types: map<int, SpaceType>, e: int, sp: int)
    requires Droppable(L, A, home, types, e, sp)
    ensures HeapOk(Shrunk(L, e, sp), AgesWithout(A, e, sp), home, {})
  {
    var N, A1 := Shrunk(L, e, sp), AgesWithout(A, e, sp);
    ShrunkObjects(L, A, home, types, e, sp);
    ShrunkAges(L, A, home, types, e, sp);
    IdleParts(A, home, e);
    SeparateLeft(L, e, sp);
    hide L.ObjectsOk, Separate, AreasOk, AgesOk, Idle, Collectable, GenAt;
    ObjectsStart(L, N);
    ContentsThere(L, N);
    assert forall g :: g in A.gens && !Idle(A, home, g) ==> g in A1.gens && A1.gens[g] == A.gens[g];
    RecordsThere(L, N, A, A1, home);
  }

  lemma SeparateLeft(L: Layout, e: int, sp: int)
    requires Separate(L) && SameObjects(L, Shrunk(L, e, sp))
    requires forall a :: a in L.own ==> L.own[a] in L.own
    ensures Separate(Shrunk(L, e, sp))
  {
    var N := Shrunk(L, e, sp);
    forall h, x | N.HeadWord(h, x) ensures 0 < x < |N.m0| && x !in N.own && x !in N.roots && (x in N.heads ==> x == h) {
      assert L.HeadWord(h, x);
    }
  }

  /** `unmake_ml_heap`: the space of a generation that holds nothing is given back, and its descriptor with it. */
  method UnmakeGeneration(c: C.Collector, e: int)
    requires AtRest(c) && Idle(c.ages, c.home, e)
    requires forall s :: s in c.ages.space && c.ages.space[s] == e ==> s == c.ages.gens[e].start / SPACE_WORDS
    modifies c`ages, c`spaceType, c`L, c`T, c`lists
    ensures AtRest(c) && c.mem[..] == old(c.mem[..])
    ensures c.ages == AgesWithout(old(c.ages), e, old(c.ages).gens[e].start / SPACE_WORDS)
    ensures c.L == Shrunk(old(c.L), e, old(c.ages).gens[e].start / SPACE_WORDS) && c.lists == old(c.lists) - {e}
    ensures c.ages.gens == old(c.ages).gens - {e} && c.ages.holder == old(c.ages).holder
  {
    hide HeapOk, ThreadsOk, ListsOk, Idle, Shrunk;
    IdleParts(c.ages, c.home, e);
    var sp := c.ages.gens[e].start / SPACE_WORDS;
    RestParts(c, e);
    HeapLeft(c.L, c.ages, c.home, c.spaceType, e, sp);
    ThreadsLeft(c.L, c.ages, c.T, c.mem[..], c.lists, c.home, e, sp);
    ShrunkTypes(c.L, c.spaceType, e, sp);
    c.spaceType := c.spaceType[sp := Reserved];
    c.ages := AgesWithout(c.ages, e, sp);
    c.L, c.T, c.lists := Shrunk(c.L, e, sp), RingsWithout(c.T, e), c.lists - {e};
  }

  lemma RestParts(c: C.Collector, e: int)
    requires AtRest(c) && e in c.ages.gens
    ensures Separate(c.L) && e in c.L.heads
  {
    hide Untouched, ThreadsOk, ListsOk, SoundHeap, Filled, AreasOk;
  }

  lemma ShrunkTypes(L: Layout, types: map<int, SpaceType>, e: int, sp: int)
    requires forall a :: L.Type(a) == TypeOf(types, a) && L.Type(a) != From
    ensures var N := Shrunk(L, e, sp);
            N.m0 == L.m0 && forall a :: N.Type(a) == TypeOf(types[sp := Reserved], a) && N.Type(a) != From
  {
    var N := Shrunk(L, e, sp);
    forall a ensures N.Type(a) == TypeOf(types[sp := Reserved], a) && N.Type(a) != From {
      assert N.Type(a) == if a / SPACE_WORDS == sp then Reserved else L.Type(a);
    }
  }

  // ---- Making a generation ----

  /** The layout with a further generation `e` in the space `sp`. */
  ghost function Grown(L: Layout, e: int, sp: int): Layout {
    L.(heads := L.heads + {e}, typ := a => if a / SPACE_WORDS == sp then MlHeap else L.typ(a))
  }

  /** An empty generation at the start of the space `sp`. */
  function AgesWith(A: Ages, e: int, sp: int, number: int): Ages {
    A.(gens := A.gens[e := Gen(number, sp, 0, 0, sp * SPACE_WORDS, sp * SPACE_WORDS, [])], space := A.space[sp := e])
  }

  ghost function RingsWith(T: Trail, e: int): Trail {
    T.(nxt := T.nxt[e := e], prv := T.prv[e := e])
  }

  /** There is room for a descriptor at `e`, and no reference leads into the free space `sp`. */
  ghost predicate Vacancy(L: Layout, e: int, sp: int) {
    && e !in L.heads && 0 < e && e + 2 < |L.m0|
    && (forall x :: e <= x <= e + 2 ==> x !in L.own && x !in L.roots)
    && (forall h :: h in L.heads ==> h + 2 < e || e + 2 < h)
    && (forall a :: a / SPACE_WORDS == sp ==> L.Type(a) == Reserved)
    && (forall x :: (HoldsValue(L, x) || x in L.roots) && L.Was(x).Ptr? ==> L.Was(x).addr / SPACE_WORDS != sp)
  }

  lemma HeapTyped(L: Layout, A: Ages, home: map<int, int>, a: int)
    requires HeapOk(L, A, home, {}) && a in L.own
    ensures IsHeapType(L.Type(a))
  {
    hide L.ObjectsOk, SoundHeap, Filled, AreasOk, AgesOk;
    OwnBase(L, a);
    BaseHeap(L, A, L.own[a]);
  }

  lemma GrownObjects(L: Layout, A: Ages, home: map<int, int>, e: int, sp: int, number: int)
    requires HeapOk(L, A, home, {}) && Vacancy(L, e, sp)
    ensures var N := Grown(L, e, sp);
            && SameObjects(L, N)
            && (forall a :: a in L.own ==> GenAt(N, AgesWith(A, e, sp, number), a) == GenAt(L, A, a))
            && (forall x :: (HoldsValue(L, x) || x in L.roots) && Collectable(N, L.Was(x)) ==> Collectable(L, L.Was(x)))
  {
    hide HeapOk, HoldsValue;
    forall a | a in L.own ensures a / SPACE_WORDS != sp {
      HeapTyped(L, A, home, a);
    }
  }

  lemma GrownAges(L: Layout, A: Ages, e: int, sp: int, number: int)
    requires AgesOk(L, A) && Vacancy(L, e, sp) && SameObjects(L, Grown(L, e, sp))
    ensures AgesOk(Grown(L, e, sp), AgesWith(A, e, sp, number)) && e !in A.gens
  {
    hide HoldsValue;
    var N, A1 := Grown(L, e, sp), AgesWith(A, e, sp, number);
    assert A1.gens.Keys == A.gens.Keys + {e};
    assert e !in A.gens.Keys;
    forall g | g in A.gens ensures g in A1.gens {
    }
    forall a | N.Type(a) == MlHeap || N.Type(a) == From ensures SpaceKnown(A1, a) {
      if a / SPACE_WORDS != sp {
        assert SpaceKnown(A, a);
      }
    }
    forall b | N.Base(b)
      ensures IsHeapType(N.Type(b)) && (N.Type(b) == MlStatic ==> b in A1.holder && A1.holder[b] in A1.gens)
    {
      assert L.Base(b);
    }
  }

  lemma GrownAreas(L: Layout, A: Ages, e: int, sp: int, number: int)
    requires AreasOk(L, A) && Vacancy(L, e, sp) && SameObjects(L, Grown(L, e, sp)) && e !in A.gens
    requires var N, A1 := Grown(L, e, sp), AgesWith(A, e, sp, number);
             forall a :: a in L.own ==> GenAt(N, A1, a) == GenAt(L, A, a)
    ensures AreasOk(Grown(L, e, sp), AgesWith(A, e, sp, number))
  {
    var N, A1 := Grown(L, e, sp), AgesWith(A, e, sp, number);
    assert A1.gens[e].start / SPACE_WORDS == sp;
    assert Vacant(N, A1, e);
    forall g {:trigger Vacant(N, A1, g)} | g in A1.gens ensures SameArea(L, N, A, A1, g) || Vacant(N, A1, g) {
      if g != e {
        assert InOwnSpace(L, A, g);
      }
    }
    hide AreasOk, Vacancy, SameArea, Vacant;
    AreasThere(L, N, A, A1);
  }

  lemma SeparateGrown(L: Layout, e: int, sp: int)
    requires Separate(L) && Vacancy(L, e, sp) && SameObjects(L, Grown(L, e, sp))
    requires forall a :: a in L.own ==> L.own[a] in L.own
    ensures Separate(Grown(L, e, sp))
  {
    hide HoldsValue;
    var N := Grown(L, e, sp);
    forall h, x | N.HeadWord(h, x) ensures 0 < x < |N.m0| && x !in N.own && x !in N.roots && (x in N.heads ==> x == h) {
      if h != e {
        assert L.HeadWord(h, x);
      }
    }
  }

  lemma HeapGrown(L: Layout, A: Ages, home: map<int, int>, e: int, sp: int, number: int)
    requires HeapOk(L, A, home, {}) && Vacancy(L, e, sp) && forall a :: L.Type(a) != From
    ensures HeapOk(Grown(L, e, sp), AgesWith(A, e, sp, number), home, {})
  {
    var N, A1 := Grown(L, e, sp), AgesWith(A, e, sp, number);
    GrownObjects(L, A, home, e, sp, number);
    GrownAges(L, A, e, sp, number);
    GrownAreas(L, A, e, sp, number);
    SeparateGrown(L, e, sp);
    hide L.ObjectsOk, Separate, AreasOk, AgesOk, Idle, Collectable, GenAt, Vacancy, HoldsValue;
    ObjectsStart(L, N);
    ContentsThere(L, N);
    assert forall g :: g in A.gens && !Idle(A, home, g) ==> g in A1.gens && A1.gens[g] == A.gens[g];
    RecordsThere(L, N, A, A1, home);
  }

  lemma RingsGrown(L: Layout, T: Trail, lists: map<int, seq<int>>, home: map<int, int>, e: int, sp: int)
    requires RingsOk(L, T) && ListsOk(L, T, lists, home) && e !in T.nxt && e !in L.heads
    ensures RingsOk(Grown(L, e, sp), RingsWith(T, e))
  {
    var N, T1 := Grown(L, e, sp), RingsWith(T, e);
    hide ListsOk;
    forall n {:trigger Listed(T1, n)} | Listed(T1, n)
      ensures Node(N, n) && n in T1.prv && T1.nxt[n] in T1.nxt && T1.nxt[n] in T1.prv && T1.prv[n] in T1.nxt
      ensures T1.prv[T1.nxt[n]] == n && T1.nxt[T1.prv[n]] == n && RankOk(N, T1, n)
    {
      if n != e {
        RingStep(L, T, n);
        RingStep(L, T, T.nxt[n]);
      }
    }
  }

  lemma ListsGrown(L: Layout, T: Trail, lists: map<int, seq<int>>, home: map<int, int>, e: int, sp: int)
    requires ListsOk(L, T, lists, home) && e !in T.nxt && e !in L.heads
    ensures ListsOk(Grown(L, e, sp), RingsWith(T, e), lists[e := []], home)
  {
    hide ListOk;
    var N, T1, lists1 := Grown(L, e, sp), RingsWith(T, e), lists[e := []];
    assert lists1.Keys == lists.Keys + {e};
    forall h | h in lists1 ensures ListOk(N, T1, home, h, lists1[h]) {
      if h != e {
        ListGrown(L, T, home, e, sp, h, lists[h]);
      } else {
        EmptyList(N, T1, home, e);
      }
    }
  }

  lemma ListGrown(L: Layout, T: Trail, home: map<int, int>, e: int, sp: int, h: int, s: seq<int>)
    requires ListOk(L, T, home, h, s) && e !in T.nxt && h != e
    ensures ListOk(Grown(L, e, sp), RingsWith(T, e), home, h, s)
  {
    hide Distinct;
  }

  lemma EmptyList(N: Layout, T: Trail, home: map<int, int>, e: int)
    requires e in T.nxt && T.nxt[e] == e
    ensures ListOk(N, T, home, e, [])
  {
  }

  lemma ThreadsGrown(L: Layout, T: Trail, m: seq<Word>, lists: map<int, seq<int>>, home: map<int, int>, e: int, sp: int)
    requires ThreadsOk(L, T, m) && ListsOk(L, T, lists, home) && Vacancy(L, e, sp) && T.fw == map[]
    requires At(m, e + 1) == Imm(e) && At(m, e + 2) == Imm(e)
    ensures ThreadsOk(Grown(L, e, sp), RingsWith(T, e), m)
    ensures ListsOk(Grown(L, e, sp), RingsWith(T, e), lists[e := []], home)
  {
    var N, T1 := Grown(L, e, sp), RingsWith(T, e);
    NotListedYet(L, T, e, sp);
    RingsGrown(L, T, lists, home, e, sp);
    ListsGrown(L, T, lists, home, e, sp);
    hide RingsOk, ListsOk, Vacancy, Threaded;
    forall n {:trigger Threaded(T1, m, n)} | n in T1.nxt ensures Threaded(T1, m, n) {
      ThreadGrown(L, T, m, e, n);
    }
    forall b | N.Base(b) && IsArray(N.Was(b)) && b !in T1.nxt ensures Unlisted(T1, m, b) {
      assert Unlisted(T, m, b);
    }
    hide ThreadsOk;
    AssembleThreads(N, T1, m);
  }

  lemma ThreadGrown(L: Layout, T: Trail, m: seq<Word>, e: int, n: int)
    requires ThreadsOk(L, T, m) && T.fw == map[] && At(m, e + 1) == Imm(e) && At(m, e + 2) == Imm(e)
    requires n in RingsWith(T, e).nxt
    ensures Threaded(RingsWith(T, e), m, n)
  {
    hide RingsOk;
    if n != e {
      RingStep(L, T, n);
    }
  }

  lemma NotListedYet(L: Layout, T: Trail, e: int, sp: int)
    requires RingsOk(L, T) && Vacancy(L, e, sp)
    ensures e !in T.nxt
  {
    if e in T.nxt {
      RingStep(L, T, e);
    }
  }

  /** Writing the links of the new descriptor changes no word of the heap and no link of a list. */
  lemma DescriptorWritten(L: Layout, A: Ages, T: Trail, m1: seq<Word>, lists: map<int, seq<int>>, home: map<int, int>,
                          e: int, sp: int)
    requires HeapOk(L, A, home, {}) && Vacancy(L, e, sp) && T.fw == map[]
    requires ThreadsOk(L, T, L.m0) && ListsOk(L, T, lists, home) && Differ(L.m0, m1, e + 1, e + 2)
    ensures var L1 := L.(m0 := m1);
            HeapOk(L1, A, home, {}) && Vacancy(L1, e, sp) && ThreadsOk(L1, T, m1) && ListsOk(L1, T, lists, home)
  {
    hide ListsOk, RingsOk, Separate, SoundHeap, Filled, AreasOk, Orderly;
    NoObjectAt0(L);
    assert Changed(L, m1, 0);
    HeapChanged(L, m1, 0, A, home, {});
    forall n {:trigger Node(L, n)} | Node(L, n)
      ensures At(m1, T.Cur(n + 1)) == At(L.m0, T.Cur(n + 1)) && At(m1, T.Cur(n + 2)) == At(L.m0, T.Cur(n + 2))
    {
      LinkWord(L, n, 1);
      LinkWord(L, n, 2);
    }
    KeepThreads(L, T, L.m0, m1);
    ThreadsShape(L, T, m1);
    ListsShape(L, L.(m0 := m1), T, lists, home);
    VacancyStays(L, m1, e, sp);
  }

  lemma VacancyStays(L: Layout, m1: seq<Word>, e: int, sp: int)
    requires L.ObjectsOk() && Vacancy(L, e, sp) && Differ(L.m0, m1, e + 1, e + 2) && Changed(L, m1, 0)
    ensures Vacancy(L.(m0 := m1), e, sp)
  {
    SameShapes(L, m1, 0);
    hide L.ObjectsOk, Changed, HoldsValue;
    var N := L.(m0 := m1);
    forall x | (HoldsValue(N, x) || x in N.roots) && N.Was(x).Ptr? ensures N.Was(x).addr / SPACE_WORDS != sp {
      if HoldsValue(L, x) {
        HoldsOwned(L, x);
      }
      assert N.Was(x) == L.Was(x);
    }
    assert forall a :: N.Type(a) == L.Type(a);
  }

  /** `make_ml_heap`: an empty generation in a free space, with a descriptor of its own. */
  method MakeGeneration(c: C.Collector, e: int, sp: int, number: int)
    requires AtRest(c) && Vacancy(c.L, e, sp)
    modifies c`ages, c`spaceType, c`L, c`T, c`lists, c.mem
    ensures AtRest(c) && Differ(old(c.mem[..]), c.mem[..], e + 1, e + 2)
    ensures c.ages == AgesWith(old(c.ages), e, sp, number)
    ensures c.L == Grown(old(c.L).(m0 := c.mem[..]), e, sp) && c.lists == old(c.lists)[e := []]
    ensures Idle(c.ages, c.home, e) && c.ages.holder == old(c.ages).holder
    ensures c.ages.gens == old(c.ages).gens[e := Gen(number, sp, 0, 0, sp * SPACE_WORDS, sp * SPACE_WORDS, [])]
  {
    hide HeapOk, ThreadsOk, ListsOk, Vacancy, Grown;
    VacancyRoom(c.L, e, sp);
    ghost var L0, m0, A0 := c.L, c.mem[..], c.ages;
    NewcomerIdle(c, e, sp, number);
    c.mem[e + 1] := Imm(e);
    c.mem[e + 2] := Imm(e);
    ghost var m1 := c.mem[..];
    assert Differ(m0, m1, e + 1, e + 2);
    DescriptorWritten(L0, A0, c.T, m1, c.lists, c.home, e, sp);
    ghost var L1 := L0.(m0 := m1);
    assert forall a :: L1.Type(a) == L0.Type(a);
    HeapGrown(L1, A0, c.home, e, sp, number);
    ThreadsGrown(L1, c.T, m1, c.lists, c.home, e, sp);
    GrownTypes(L1, c.spaceType, e, sp);
    c.spaceType := c.spaceType[sp := MlHeap];
    c.ages := AgesWith(c.ages, e, sp, number);
    c.L, c.T, c.lists := Grown(L1, e, sp), RingsWith(c.T, e), c.lists[e := []];
  }

  lemma VacancyRoom(L: Layout, e: int, sp: int)
    requires Vacancy(L, e, sp)
    ensures 0 < e && e + 2 < |L.m0|
  {
  }

  lemma NewcomerIdle(c: C.Collector, e: int, sp: int, number: int)
    requires AtRest(c) && Vacancy(c.L, e, sp)
    ensures Idle(AgesWith(c.ages, e, sp, number), c.home, e)
  {
    hide Untouched, ThreadsOk, SoundHeap, Filled, AreasOk, Separate, ListsOk;
    assert e !in c.ages.gens.Keys;
  }

  lemma GrownTypes(L: Layout, types: map<int, SpaceType>, e: int, sp: int)
    requires forall a :: L.Type(a) == TypeOf(types, a) && L.Type(a) != From
    ensures var N := Grown(L, e, sp);
            N.m0 == L.m0 && forall a :: N.Type(a) == TypeOf(types[sp := MlHeap], a) && N.Type(a) != From
  {
    var N := Grown(L, e, sp);
    forall a ensures N.Type(a) == TypeOf(types[sp := MlHeap], a) && N.Type(a) != From {
      assert N.Type(a) == if a / SPACE_WORDS == sp then MlHeap else L.Type(a);
    }
  }
}
