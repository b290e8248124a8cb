/** Generations, which objects belong to which, and the remembered sets: the entry lists hold
    every array that refers to a generation younger than its own. */
module Remembered {
  import opened Heap
  import opened Seqs
  import opened Copying
  import opened Moving
  import opened Scanning
  import opened EntryLists

  /** A generation, known by the address of the head of its entry list. `parent` and `child` are the
      next older and the next younger one, or 0; `statics` are its static objects in list order. */
  datatype Gen = Gen(number: int, space: int, parent: int, child: int, start: int, top: int, statics: seq<int>)

  /** All generations, the generation of each space, and that of each static object. */
  datatype Ages = Ages(gens: map<int, Gen>, space: map<int, int>, holder: map<int, int>) {
    function Number(g: int): int {
      if g in gens then gens[g].number else 0
    }
  }

  predicate IsHeapType(t: SpaceType) {
    t == MlStatic || t == MlHeap || t == From
  }

  /** The generation of the object around the address `a`. */
  ghost function GenAt(L: Layout, A: Ages, a: int): int {
    if L.Type(a) == MlStatic then
      if a in L.own && L.own[a] in A.holder then A.holder[L.own[a]] else 0
    else if a / SPACE_WORDS in A.space then A.space[a / SPACE_WORDS] else 0
  }

  ghost function WordGen(L: Layout, A: Ages, w: Word): int {
    if w.Ptr? then GenAt(L, A, w.addr) else 0
  }

  ghost predicate Collectable(L: Layout, w: Word) {
    w.Ptr? && IsHeapType(L.Type(w.addr))
  }

  /** The space around the address `a` belongs to a generation. */
  ghost predicate SpaceKnown(A: Ages, a: int) {
    a / SPACE_WORDS in A.space && A.space[a / SPACE_WORDS] in A.gens
  }

  /** Every space of the heap and every static object belongs to a generation. */
  ghost predicate AgesOk(L: Layout, A: Ages) {
    && A.gens.Keys == L.heads
    && (forall b :: L.Base(b) ==> IsHeapType(L.Type(b)))
    && (forall a :: L.Type(a) == MlHeap || L.Type(a) == From ==> SpaceKnown(A, a))
    && (forall b :: L.Base(b) && L.Type(b) == MlStatic ==> b in A.holder && A.holder[b] in A.gens)
  }

  lemma SpaceGen(L: Layout, A: Ages, a: int)
    requires AgesOk(L, A) && (L.Type(a) == MlHeap || L.Type(a) == From)
    ensures a / SPACE_WORDS in A.space && A.space[a / SPACE_WORDS] in A.gens
    ensures GenAt(L, A, a) == A.space[a / SPACE_WORDS]
  {
  }

  lemma StaticGen(L: Layout, A: Ages, a: int)
    requires AgesOk(L, A) && L.Type(a) == MlStatic && a in L.own && L.Base(L.own[a]) && L.Type(L.own[a]) == MlStatic
    ensures L.own[a] in A.holder && A.holder[L.own[a]] in A.gens && GenAt(L, A, a) == A.holder[L.own[a]]
  {
  }

  predicate OrdinaryHeader(w: Word) {
    w.Hdr? && w.kind == Array
  }

  predicate WeakHeader(w: Word) {
    w.Hdr? && w.kind == WeakArray
  }

  // ---- The youngest generation an array refers to ----

  ghost predicate ElementOlder(L: Layout, A: Ages, T: Trail, m: seq<Word>, c: int, n: int) {
    var w := At(m, T.Cur(c));
    Collectable(L, w) ==> n <= A.Number(WordGen(L, A, w))
  }

  ghost predicate ElementIn(L: Layout, A: Ages, T: Trail, m: seq<Word>, c: int, g: int) {
    var w := At(m, T.Cur(c));
    Collectable(L, w) && WordGen(L, A, w) == g
  }

  /** `y` is the youngest generation among `own` and those that the first `i` elements of the
      array `b` refer to. */
  ghost predicate Youngest(L: Layout, A: Ages, T: Trail, m: seq<Word>, b: int, i: int, own: int, y: int) {
    && y in A.gens && own in A.gens && A.Number(y) <= A.Number(own)
    && (forall c {:trigger ElementOlder(L, A, T, m, c, A.Number(y))} :: b + 3 <= c < b + 3 + i ==>
          ElementOlder(L, A, T, m, c, A.Number(y)))
    && (y == own || (A.Number(y) < A.Number(own) && exists c :: b + 3 <= c < b + 3 + i && ElementIn(L, A, T, m, c, y)))
  }

  lemma YoungestStep(L: Layout, A: Ages, T: Trail, m: seq<Word>, b: int, i: int, own: int, y: int)
    requires Youngest(L, A, T, m, b, i, own, y) && 0 <= i
    ensures var w := At(m, T.Cur(b + 3 + i));
            var g := WordGen(L, A, w);
            if Collectable(L, w) && A.Number(g) < A.Number(y) then
              g in A.gens ==> Youngest(L, A, T, m, b, i + 1, own, g)
            else Youngest(L, A, T, m, b, i + 1, own, y)
  {
    var w := At(m, T.Cur(b + 3 + i));
    var g := WordGen(L, A, w);
    if Collectable(L, w) && A.Number(g) < A.Number(y) {
      assert ElementIn(L, A, T, m, b + 3 + i, g);
      forall c {:trigger ElementOlder(L, A, T, m, c, A.Number(g))} | b + 3 <= c < b + 3 + i + 1
        ensures ElementOlder(L, A, T, m, c, A.Number(g))
      {
        assert c < b + 3 + i ==> ElementOlder(L, A, T, m, c, A.Number(y));
      }
    } else if y != own {
      var c :| b + 3 <= c < b + 3 + i && ElementIn(L, A, T, m, c, y);
      assert b + 3 <= c < b + 3 + (i + 1);
    }
  }

  /** A word that needs no more fixing stays as it is. */
  lemma DoneSame(L: Layout, T: Trail, m: seq<Word>, marked: set<int>, T1: Trail, m1: seq<Word>, d: int)
    requires Evolves(L, T, m, T1, m1) && Kept(L, d) && Done(L, T, m, marked, d)
    ensures At(m1, T1.Cur(d)) == At(m, T.Cur(d))
  {
  }

  ghost predicate AllDone(L: Layout, T: Trail, m: seq<Word>, marked: set<int>, b: int, i: int) {
    forall c {:trigger Done(L, T, m, marked, c)} :: b + 3 <= c < b + 3 + i ==> Done(L, T, m, marked, c)
  }

  lemma YoungestStays(L: Layout, A: Ages, T: Trail, m: seq<Word>, marked: set<int>, T1: Trail, m1: seq<Word>, b: int,
                      i: int, own: int, y: int)
    requires Evolves(L, T, m, T1, m1) && Youngest(L, A, T, m, b, i, own, y)
    requires AllDone(L, T, m, marked, b, i) && forall c :: b + 3 <= c < b + 3 + i ==> Kept(L, c)
    ensures Youngest(L, A, T1, m1, b, i, own, y)
  {
    hide Evolves, Kept, Done, Collectable;
    forall c | b + 3 <= c < b + 3 + i ensures At(m1, T1.Cur(c)) == At(m, T.Cur(c)) {
      assert Done(L, T, m, marked, c);
      DoneSame(L, T, m, marked, T1, m1, c);
    }
    forall c {:trigger ElementOlder(L, A, T1, m1, c, A.Number(y))} | b + 3 <= c < b + 3 + i
      ensures ElementOlder(L, A, T1, m1, c, A.Number(y))
    {
      assert ElementOlder(L, A, T, m, c, A.Number(y));
    }
    if y != own {
      var c :| b + 3 <= c < b + 3 + i && ElementIn(L, A, T, m, c, y);
      assert ElementIn(L, A, T1, m1, c, y);
    }
  }

  lemma AllDoneStays(L: Layout, T: Trail, m: seq<Word>, marked: set<int>, T1: Trail, m1: seq<Word>, marked1: set<int>,
                     b: int, i: int)
    requires Evolves(L, T, m, T1, m1) && AllDone(L, T, m, marked, b, i) && marked1 <= marked
    requires forall c :: b + 3 <= c < b + 3 + i ==> Kept(L, c)
    ensures AllDone(L, T1, m1, marked1, b, i)
  {
    hide Evolves, Kept, Done;
    forall c {:trigger Done(L, T1, m1, marked1, c)} | b + 3 <= c < b + 3 + i ensures Done(L, T1, m1, marked1, c) {
      assert Done(L, T, m, marked, c);
      DoneStays(L, T, m, marked, T1, m1, marked1, c);
    }
  }

  /** The elements of an ordinary array. */
  lemma ArrayCells(L: Layout, T: Trail, b: int, c: int)
    requires L.ObjectsOk() && L.SpacesOk() && FwdOk(L, T) && L.Base(b) && L.Was(b).Hdr? && L.Was(b).kind == Array
    requires b + 3 <= c < b + 3 + L.Was(b).len
    ensures L.Within(b, c) && c in L.own && L.own[c] == b && L.Role(c) == Slot && L.Cell(c) && Kept(L, c)
    ensures T.Cur(c) == T.Cur(b) + (c - b)
  {
    assert L.Within(b, c);
    Inside(L, T, b, c - b);
  }

  // ---- Arrays that refer to themselves ----

  /** The cell `c` is an element of one of the arrays `P`. */
  ghost predicate ElementOf(L: Layout, P: seq<int>, c: int) {
    c in L.own && L.Role(c) == Slot && L.own[c] in P
  }

  /** An element of the array `b` refers to the array. */
  ghost predicate RefersToItself(L: Layout, b: int) {
    exists c :: ElementOf(L, [b], c) && L.PointsTo(c, b)
  }

  /** The array `b` stays where it is while its elements are fixed: it is not in from-space, or has been copied,
      or does not refer to itself. */
  ghost predicate Stays(L: Layout, T: Trail, b: int) {
    L.Type(b) != From || b in T.fw || !RefersToItself(L, b)
  }

  /** Fixing an element moves the array it is in just if it refers to the array. */
  lemma ArrayMoves(L: Layout, T: Trail, T1: Trail, m: seq<Word>, b: int, c: int)
    requires Inv(L, T, m) && FwdOk(L, T1) && Grows(T, T1) && OnlyMoves(L, T, T1, At(m, T.Cur(c)))
    requires L.Base(b) && c in L.own && L.own[c] == b && L.Cell(c) && IsArray(L.Was(b))
    ensures T1.Cur(b) != T.Cur(b) ==>
              b !in T.fw && b in T1.fw && T.Cur(b) == b && L.Type(b) == From && L.PointsTo(c, b)
  {
    hide Inv, Core, L.ObjectsOk, L.SpacesOk, InverseOk;
    InvParts(L, T, m);
    if T1.Cur(b) != T.Cur(b) {
      var v := At(m, T.Cur(c));
      SameSpace(L, v.addr);
      ReadCell(L, T, m, c, T.Cur(c));
    }
  }

  /** An array that is not copied when all its elements are done does not refer to itself. */
  lemma DoneThenStays(L: Layout, T: Trail, m: seq<Word>, marked: set<int>, b: int)
    requires Inv(L, T, m) && L.Base(b) && OrdinaryHeader(L.Was(b)) && AllDone(L, T, m, marked, b, L.Was(b).len)
    ensures Stays(L, T, b)
  {
    hide Inv, Core, L.ObjectsOk, L.SpacesOk, InverseOk, WholeOk, Done;
    InvParts(L, T, m);
    if c :| ElementOf(L, [b], c) && L.PointsTo(c, b) {
      OwnWithin(L, c);
      DoneTarget(L, T, m, marked, c, b);
    }
  }

  /** What a cell that needs no more fixing referred to has been copied. */
  lemma DoneTarget(L: Layout, T: Trail, m: seq<Word>, marked: set<int>, c: int, b: int)
    requires Inv(L, T, m) && L.Cell(c) && Done(L, T, m, marked, c) && L.PointsTo(c, b)
    ensures b in T.fw
  {
    hide L.ObjectsOk, L.SpacesOk, L.WordsFit, BasesMarked, EntriesMarked, ThreadsOk, ReachOk, FrameOk, InverseOk;
    if c in L.roots {
      RootPlace(L, T, c);
    }
    CopyTogether(L, T, L.Was(c).addr);
  }

  /** A reference into the heap remains one when it is fixed. */
  lemma FixedCollectable(L: Layout, T: Trail, v: Word, w: Word)
    requires L.SpacesOk() && InverseOk(L, T) && IsFixed(L, T, v, w) && Collectable(L, v)
    ensures Collectable(L, w)
  {
    if L.Type(v.addr) == From && v.addr in T.fw {
      FwImage(L, T, v.addr);
    }
  }

  lemma StaticTarget(L: Layout, T: Trail, m: seq<Word>, c: int, what: int)
    requires Inv(L, T, m) && Spot(L, T, c, what)
    ensures var w := At(m, what); w.Ptr? && L.Type(w.addr) == MlStatic ==> L.Target(w.tag, w.addr)
  {
    var w := At(m, what);
    if w.Ptr? && L.Type(w.addr) == MlStatic {
      ReadCell(L, T, m, c, what);
    }
  }

  /** A word that was a cell is one still when more has been copied. */
  lemma SpotStays(L: Layout, T: Trail, T1: Trail, c: int, what: int)
    requires L.SpacesOk() && FwdOk(L, T1) && Grows(T, T1) && Spot(L, T, c, what)
    ensures Spot(L, T1, c, what)
  {
  }

  lemma ElementsStay(L: Layout, A: Ages, T: Trail, m: seq<Word>, marked: set<int>, T1: Trail, m1: seq<Word>,
                     marked1: set<int>,
                     b: int, i: int, own: int, y: int)
    requires L.ObjectsOk() && L.SpacesOk() && FwdOk(L, T) && L.Base(b) && L.Was(b).Hdr? && L.Was(b).kind == Array
    requires 0 <= i <= L.Was(b).len
    requires Evolves(L, T, m, T1, m1) && marked1 <= marked
    requires Youngest(L, A, T, m, b, i, own, y) && AllDone(L, T, m, marked, b, i)
    ensures Youngest(L, A, T1, m1, b, i, own, y) && AllDone(L, T1, m1, marked1, b, i)
  {
    hide L.ObjectsOk, L.SpacesOk, InverseOk, WholeOk, Evolves, Youngest, AllDone, Kept;
    forall c | b + 3 <= c < b + 3 + i ensures Kept(L, c) {
      ArrayCells(L, T, b, c);
    }
    YoungestStays(L, A, T, m, marked, T1, m1, b, i, own, y);
    AllDoneStays(L, T, m, marked, T1, m1, marked1, b, i);
  }

  /** The elements of the ordinary array `b` are cells from which the collection sets out. */
  ghost predicate FixableArray(L: Layout, b: int) {
    L.Base(b) && L.Was(b).Hdr? && L.Was(b).kind == Array &&
    forall c :: b + 3 <= c < b + 3 + L.Was(b).len ==> c in L.entry
  }

  lemma FixableElement(L: Layout, T: Trail, b: int, c: int)
    requires FixableArray(L, b) && b + 3 <= c < b + 3 + L.Was(b).len
    ensures Source(L, T, c) && L.Base(b) && L.Was(b).Hdr? && L.Was(b).kind == Array
  {
  }

  /** While the elements of the array `b` are fixed, `arr` is where they are read: the present place of the array,
      or its old one if it was copied in the meantime because it refers to itself. */
  ghost predicate VisitedAt(L: Layout, T0: Trail, T: Trail, b: int, arr: int) {
    arr == T0.Cur(b) && (arr == T.Cur(b) || (arr == b && b in T.fw && !Stays(L, T0, b)))
  }

  lemma VisitSpot(L: Layout, T0: Trail, T: Trail, b: int, arr: int, i: int)
    requires L.ObjectsOk() && L.SpacesOk() && FwdOk(L, T) && L.Base(b) && OrdinaryHeader(L.Was(b))
    requires VisitedAt(L, T0, T, b, arr) && 0 <= i < L.Was(b).len
    ensures Spot(L, T, b + 3 + i, arr + 3 + i) && (arr == T.Cur(b) <==> arr + 3 + i == T.Cur(b + 3 + i))
  {
    hide Stays;
    ArrayCells(L, T, b, b + 3 + i);
    CopyTogether(L, T, b + 3 + i);
  }

  /** Fixing one element more leaves the array where it is unless the element refers to the array. */
  lemma VisitGoesOn(L: Layout, T0: Trail, T: Trail, T1: Trail, m: seq<Word>, b: int, arr: int, i: int)
    requires Inv(L, T, m) && FwdOk(L, T1) && Grows(T0, T) && Grows(T, T1) && L.Base(b) && OrdinaryHeader(L.Was(b))
    requires VisitedAt(L, T0, T, b, arr) && 0 <= i < L.Was(b).len && OnlyMoves(L, T, T1, At(m, arr + 3 + i))
    ensures VisitedAt(L, T0, T1, b, arr) && (arr == T1.Cur(b) ==> arr == T.Cur(b))
  {
    hide Inv, Core, L.ObjectsOk, L.SpacesOk, InverseOk, WholeOk, OnlyMoves;
    InvParts(L, T, m);
    VisitSpot(L, T0, T, b, arr, i);
    var c := b + 3 + i;
    ArrayCells(L, T, b, c);
    if arr == T.Cur(b) {
      ArrayMoves(L, T, T1, m, b, c);
      if T1.Cur(b) != T.Cur(b) {
        assert ElementOf(L, [b], c) && L.PointsTo(c, b);
      }
    } else {
      OldApart(L, T, b);
      OldApart(L, T1, b);
    }
  }

  /** The old place of a copied object is not its present one. */
  lemma OldApart(L: Layout, T: Trail, b: int)
    requires L.SpacesOk() && FwdOk(L, T) && b in T.fw && L.Base(b)
    ensures T.Cur(b) != b
  {
  }

  /** When the elements of the array `b` have been fixed, the link from which a walk along its list reads on is that to
      the next node just if the array stayed where it was; otherwise it is the tagged address of the copy. */
  lemma LinkAfter(L: Layout, T0: Trail, T: Trail, m: seq<Word>, marked: set<int>, b: int, arr: int)
    requires Inv(L, T, m) && Grows(T0, T) && L.Base(b) && OrdinaryHeader(L.Was(b)) && VisitedAt(L, T0, T, b, arr)
    requires arr == T.Cur(b) ==> AllDone(L, T, m, marked, b, L.Was(b).len)
    ensures arr == T.Cur(b) <==> Stays(L, T0, b)
    ensures b in T.nxt ==> (At(m, arr + 1) == Imm(T.Cur(T.nxt[b])) <==> Stays(L, T0, b))
    ensures !Stays(L, T0, b) ==> b in T.fw && At(m, arr + 1) == Ptr(RefPtr, T.fw[b])
  {
    hide Inv, Core, L.ObjectsOk, L.SpacesOk, InverseOk, WholeOk, AllDone, RefersToItself;
    InvParts(L, T, m);
    if arr == T.Cur(b) {
      DoneThenStays(L, T, m, marked, b);
      if b in T.nxt {
        UnlinkPlaces(L, T, m, b);
        assert T.Cur(b + 1) == T.Cur(b) + 1;
      }
      StaysFromStart(L, T0, T, b);
    } else {
      MarkedArray(L, T, m, b);
    }
  }

  lemma StaysFromStart(L: Layout, T0: Trail, T: Trail, b: int)
    requires L.SpacesOk() && FwdOk(L, T) && Grows(T0, T) && T0.Cur(b) == T.Cur(b) && Stays(L, T, b) && L.Base(b)
    ensures Stays(L, T0, b)
  {
  }

  lemma MarkedArray(L: Layout, T: Trail, m: seq<Word>, b: int)
    requires Core(L, T, m) && L.Base(b) && IsArray(L.Was(b)) && b in T.fw
    ensures At(m, b + 1) == Ptr(RefPtr, T.fw[b])
  {
    hide L.SpacesOk, WordsOk, EntriesMarked, ThreadsOk, FrameOk, ReachOk, WholeOk;
  }

  lemma NotCollectableDone(L: Layout, T: Trail, m: seq<Word>, marked: set<int>, c: int)
    requires !Collectable(L, At(m, T.Cur(c)))
    ensures Done(L, T, m, marked, c)
  {
  }

  lemma AllDoneNext(L: Layout, T: Trail, m: seq<Word>, marked: set<int>, b: int, i: int)
    requires AllDone(L, T, m, marked, b, i) && Done(L, T, m, marked, b + 3 + i)
    ensures AllDone(L, T, m, marked, b, i + 1)
  {
  }

  // ---- Where an array belongs ----

  /** The collection in progress copies the generation `from` into the generation `to`, which is
      the next older one or takes the place of `from`. */
  ghost predicate AgeingOk(L: Layout, A: Ages, from: int, to: int) {
    && AgesOk(L, A) && from in A.gens && to in A.gens && from != to
    && (forall a :: L.Type(a) == From ==> GenAt(L, A, a) == from)
    && (forall a :: L.start <= a < L.limit ==> GenAt(L, A, a) == to)
    && (forall a :: L.Type(a) == MlHeap ==> GenAt(L, A, a) != from)
    && (forall b :: L.Base(b) && L.Type(b) == MlStatic ==> GenAt(L, A, b) != from)
    && (A.Number(to) == A.Number(from) || A.Number(to) == A.Number(from) + 1)
    && (forall g, h :: g in A.gens && h in A.gens && A.Number(g) == A.Number(h) && g != h ==>
          (g == from && h == to) || (g == to && h == from))
  }

  /** The generation that the object at `b` is in or will be copied to. */
  ghost function Owner(L: Layout, A: Ages, to: int, b: int): int {
    if L.Type(b) == From then to else GenAt(L, A, b)
  }

  /** If the element `c` of the array `b` refers to a generation younger than `own`, the array is on
      the entry list of that generation or of a still younger one. */
  ghost predicate Recorded(L: Layout, A: Ages, T: Trail, m: seq<Word>, home: map<int, int>, b: int, own: int, c: int) {
    var w := At(m, T.Cur(c));
    Collectable(L, w) && A.Number(WordGen(L, A, w)) < A.Number(own) ==>
      b in home && A.Number(home[b]) <= A.Number(WordGen(L, A, w))
  }

  /** The array `b` is on an entry list exactly if it refers to a generation younger than `own`, and
      then on that of the youngest one it refers to. */
  ghost predicate Filed(L: Layout, A: Ages, T: Trail, m: seq<Word>, home: map<int, int>, b: int, n: int, own: int) {
    && (forall c {:trigger Recorded(L, A, T, m, home, b, own, c)} :: b + 3 <= c < b + 3 + n ==>
          Recorded(L, A, T, m, home, b, own, c))
    && (b in home ==>
          A.Number(home[b]) < A.Number(own) && exists c :: b + 3 <= c < b + 3 + n && ElementIn(L, A, T, m, c, home[b]))
  }

  /** The present generation of an array and the one it ends up in. */
  lemma OwnerNow(L: Layout, A: Ages, from: int, to: int, T: Trail, b: int)
    requires L.ObjectsOk() && L.SpacesOk() && FwdOk(L, T) && AgeingOk(L, A, from, to) && L.Base(b)
    ensures GenAt(L, A, T.Cur(b)) == if L.Type(b) == From && b !in T.fw then from else Owner(L, A, to, b)
  {
  }

  lemma WordGenOk(L: Layout, A: Ages, from: int, to: int, w: Word)
    requires L.ObjectsOk() && L.SpacesOk() && AgeingOk(L, A, from, to) && Collectable(L, w)
    requires L.Type(w.addr) == MlStatic ==> L.Target(w.tag, w.addr)
    ensures WordGen(L, A, w) in A.gens && (WordGen(L, A, w) == from <==> L.Type(w.addr) == From)
  {
    if L.Type(w.addr) == MlStatic {
      TargetFacts(L, w.tag, w.addr);
    }
  }

  lemma FiledElement(L: Layout, A: Ages, from: int, to: int, T: Trail, m: seq<Word>, marked: set<int>,
                     home: map<int, int>, b: int, own: int, y: int, c: int)
    requires Inv(L, T, m) && AgeingOk(L, A, from, to) && OrdinaryHeader(L.Was(b)) && own == GenAt(L, A, T.Cur(b))
    requires Youngest(L, A, T, m, b, L.Was(b).len, own, y) && b + 3 <= c < b + 3 + L.Was(b).len && L.Base(b)
    requires Done(L, T, m, marked, c)
    requires if A.Number(y) == A.Number(own) then b !in home else b in home && home[b] == y
    ensures Recorded(L, A, T, m, home, b, Owner(L, A, to, b), c)
  {
    hide Inv, Core, L.ObjectsOk, L.SpacesOk, InverseOk, WholeOk;
    InvParts(L, T, m);
    OwnerNow(L, A, from, to, T, b);
    var w := At(m, T.Cur(c));
    assert ElementOlder(L, A, T, m, c, A.Number(y));
    if Collectable(L, w) {
      ArrayCells(L, T, b, c);
      StaticTarget(L, T, m, c, T.Cur(c));
      WordGenOk(L, A, from, to, w);
    }
  }

  /** Filing an array under the youngest generation it refers to. */
  lemma FiledNow(L: Layout, A: Ages, from: int, to: int, T: Trail, m: seq<Word>, marked: set<int>, home: map<int, int>,
                 b: int, own: int, y: int)
    requires Inv(L, T, m) && AgeingOk(L, A, from, to) && OrdinaryHeader(L.Was(b)) && own == GenAt(L, A, T.Cur(b))
    requires L.Base(b)
    requires Youngest(L, A, T, m, b, L.Was(b).len, own, y) && AllDone(L, T, m, marked, b, L.Was(b).len)
    requires if A.Number(y) == A.Number(own) then b !in home else b in home && home[b] == y
    ensures Filed(L, A, T, m, home, b, L.Was(b).len, Owner(L, A, to, b))
  {
    hide Inv, Core, L.ObjectsOk, L.SpacesOk, InverseOk, WholeOk, AgeingOk, Recorded, Done;
    InvParts(L, T, m);
    var n, o := L.Was(b).len, Owner(L, A, to, b);
    forall c {:trigger Recorded(L, A, T, m, home, b, o, c)} | b + 3 <= c < b + 3 + n
      ensures Recorded(L, A, T, m, home, b, o, c)
    {
      assert Done(L, T, m, marked, c);
      FiledElement(L, A, from, to, T, m, marked, home, b, own, y, c);
    }
    OwnerNow(L, A, from, to, T, b);
    OwnerNotYounger(L, A, from, to, b);
  }

  lemma OwnerNotYounger(L: Layout, A: Ages, from: int, to: int, b: int)
    requires AgeingOk(L, A, from, to)
    ensures A.Number(from) <= A.Number(to)
  {
  }

  /** What an array refers to decides where it is filed. */
  lemma FiledFrame(L: Layout, A: Ages, T: Trail, m: seq<Word>, T1: Trail, m1: seq<Word>, home: map<int, int>,
                   home1: map<int, int>, b: int, n: int, own: int)
    requires Filed(L, A, T, m, home, b, n, own) && SameHome(home, home1, b)
    requires forall c :: b + 3 <= c < b + 3 + n ==> At(m1, T1.Cur(c)) == At(m, T.Cur(c))
    ensures Filed(L, A, T1, m1, home1, b, n, own)
  {
    hide Collectable;
    forall c {:trigger Recorded(L, A, T1, m1, home1, b, own, c)} | b + 3 <= c < b + 3 + n
      ensures Recorded(L, A, T1, m1, home1, b, own, c)
    {
      assert Recorded(L, A, T, m, home, b, own, c);
    }
    if b in home {
      var c :| b + 3 <= c < b + 3 + n && ElementIn(L, A, T, m, c, home[b]);
      assert ElementIn(L, A, T1, m1, c, home1[b]);
    }
  }

  lemma FiledStays(L: Layout, A: Ages, T: Trail, m: seq<Word>, marked: set<int>, T1: Trail, m1: seq<Word>,
                   home: map<int, int>, home1: map<int, int>, b: int, n: int, own: int)
    requires Evolves(L, T, m, T1, m1) && Filed(L, A, T, m, home, b, n, own) && AllDone(L, T, m, marked, b, n)
    requires forall c :: b + 3 <= c < b + 3 + n ==> Kept(L, c)
    requires SameHome(home, home1, b)
    ensures Filed(L, A, T1, m1, home1, b, n, own)
  {
    hide Evolves, Kept, Done, Filed;
    forall c | b + 3 <= c < b + 3 + n ensures At(m1, T1.Cur(c)) == At(m, T.Cur(c)) {
      assert Done(L, T, m, marked, c);
      DoneSame(L, T, m, marked, T1, m1, c);
    }
    FiledFrame(L, A, T, m, T1, m1, home, home1, b, n, own);
  }

  /** Changing links only is a way of evolving in which no word changes. */
  lemma RelinkEvolves(L: Layout, T: Trail, m: seq<Word>, T1: Trail, m1: seq<Word>)
    requires SameFw(T, T1) && forall a {:trigger Kept(L, a)} :: Kept(L, a) ==> At(m1, T1.Cur(a)) == At(m, T.Cur(a))
    ensures Evolves(L, T, m, T1, m1)
  {
  }

  lemma RelinkInv(L: Layout, T: Trail, m: seq<Word>, T1: Trail, m1: seq<Word>)
    requires WeakUntouched(L, T, m) && OldElementsOk(L, T, m) && Core(L, T1, m1) && OldPlacesKept(T, m, m1)
    requires SameFw(T, T1) && forall a {:trigger Kept(L, a)} :: Kept(L, a) ==> At(m1, T1.Cur(a)) == At(m, T.Cur(a))
    ensures Inv(L, T1, m1)
  {
    hide Core;
    forall a | a in L.own && L.Role(a) == WeakSlot ensures At(m1, T1.Cur(a)) == L.Was(a) {
      assert Kept(L, a);
    }
    forall x {:trigger OldElement(L, T1, x)} | OldElement(L, T1, x) ensures SlotRel(L, T1, L.Was(x), At(m1, x)) {
      assert OldElement(L, T, x);
    }
  }

  lemma ArrayType(L: Layout, A: Ages, T: Trail, b: int)
    requires L.ObjectsOk() && L.SpacesOk() && FwdOk(L, T) && AgesOk(L, A) && L.Base(b)
    ensures IsHeapType(L.Type(T.Cur(b))) && (L.Type(T.Cur(b)) == MlStatic ==> T.Cur(b) == b)
  {
  }

  lemma AgeingAges(L: Layout, A: Ages, from: int, to: int)
    requires AgeingOk(L, A, from, to)
    ensures AgesOk(L, A) && from in A.gens && to in A.gens
  {
  }

  /** The first word and the link words of an array on a list, at its present place. */
  lemma ListedWords(L: Layout, T: Trail, m: seq<Word>, lists: map<int, seq<int>>, home: map<int, int>, b: int, k: int)
    requires Core(L, T, m) && ListsOk(L, T, lists, home) && b in home && home[b] in lists
    requires 0 <= k < |lists[home[b]]| && lists[home[b]][k] == b
    ensures L.Base(b) && IsArray(L.Was(b)) && 0 < T.Cur(b) && T.Cur(b) + 2 < |m|
    ensures At(m, T.Cur(b)) == L.Was(b)
    ensures At(m, T.Cur(b) + 1) == Imm(T.Cur(Nth(lists[home[b]], k + 1, home[b])))
  {
    hide Core, L.ObjectsOk, L.SpacesOk, InverseOk, WholeOk, RingsOk, Node;
    CoreRings(L, T, m);
    ListedArray(L, T, lists, home, b);
    ListHead(L, T, lists, home, home[b]);
    UnlinkPlaces(L, T, m, b);
    assert T.Cur(b) > 0;
    HeaderKept(L, T, m, b);
  }

  lemma HeaderKept(L: Layout, T: Trail, m: seq<Word>, b: int)
    requires Core(L, T, m) && L.Base(b) && L.Was(b).Hdr?
    ensures At(m, T.Cur(b)) == L.Was(b)
  {
    hide L.SpacesOk, InverseOk, WholeOk, BasesMarked, EntriesMarked, ReachOk, ThreadsOk;
    assert L.Within(b, b);
  }

  lemma GenListed(L: Layout, A: Ages, T: Trail, lists: map<int, seq<int>>, home: map<int, int>, g: int)
    requires AgesOk(L, A) && ListsOk(L, T, lists, home)
    ensures g in A.gens <==> g in lists
  {
  }

  /** The elements of the array `b`, if it is an ordinary one, are fixed, and it is where it belongs. */
  ghost predicate Handled(L: Layout, A: Ages, T: Trail, m: seq<Word>, marked: set<int>, home: map<int, int>, to: int,
                          b: int) {
    L.Base(b) && OrdinaryHeader(L.Was(b)) ==>
      AllDone(L, T, m, marked, b, L.Was(b).len) && Filed(L, A, T, m, home, b, L.Was(b).len, Owner(L, A, to, b))
  }

  ghost predicate SameHome(home: map<int, int>, home1: map<int, int>, n: int) {
    (n in home <==> n in home1) && (n in home ==> home[n] == home1[n])
  }

  lemma HandledStays(L: Layout, A: Ages, T: Trail, m: seq<Word>, marked: set<int>, home: map<int, int>,
                     T1: Trail, m1: seq<Word>, marked1: set<int>, home1: map<int, int>, to: int, b: int)
    requires L.ObjectsOk() && L.SpacesOk() && FwdOk(L, T)
    requires Evolves(L, T, m, T1, m1) && marked1 <= marked && SameHome(home, home1, b)
    requires Handled(L, A, T, m, marked, home, to, b)
    ensures Handled(L, A, T1, m1, marked1, home1, to, b)
  {
    hide L.ObjectsOk, L.SpacesOk, InverseOk, WholeOk, Evolves, AllDone, Filed, Owner, Kept;
    if L.Base(b) && OrdinaryHeader(L.Was(b)) {
      var n := L.Was(b).len;
      forall c | b + 3 <= c < b + 3 + n ensures Kept(L, c) {
        ArrayCells(L, T, b, c);
      }
      FiledStays(L, A, T, m, marked, T1, m1, home, home1, b, n, Owner(L, A, to, b));
      AllDoneStays(L, T, m, marked, T1, m1, marked1, b, n);
    }
  }

  /** The array `b` stays where it is while its elements are fixed, or will if the arrays `P` are fixed first. */
  ghost predicate StaysAfter(L: Layout, T: Trail, P: seq<int>, b: int) {
    Stays(L, T, b) || exists c :: ElementOf(L, P, c) && L.PointsTo(c, b)
  }

  /** The elements of the ordinary arrays of `s` are cells from which the collection sets out. */
  ghost predicate OpenArrays(L: Layout, s: seq<int>) {
    forall b :: b in s && OrdinaryHeader(L.Was(b)) ==> FixableArray(L, b)
  }

  /** The first `n` arrays of the list `s` stay where they are when they are fixed one after another. */
  ghost predicate InTurn(L: Layout, T: Trail, s: seq<int>, n: int) {
    forall k :: 0 <= k < n && k < |s| && OrdinaryHeader(L.Was(s[k])) ==> StaysAfter(L, T, s[..k], s[k])
  }

  lemma InTurnMore(L: Layout, T: Trail, s: seq<int>, n: int)
    requires InTurn(L, T, s, n) && 0 <= n < |s| && (OrdinaryHeader(L.Was(s[n])) ==> StaysAfter(L, T, s[..n], s[n]))
    ensures InTurn(L, T, s, n + 1)
  {
    hide StaysAfter;
  }

  lemma EvolvesGrows(L: Layout, T: Trail, m: seq<Word>, T1: Trail, m1: seq<Word>)
    requires Evolves(L, T, m, T1, m1)
    ensures Grows(T, T1)
  {
  }

  /** Nothing but the end of the list is at the place of its head. */
  lemma EndOfList(L: Layout, T: Trail, m: seq<Word>, lists: map<int, seq<int>>, home: map<int, int>, gen: int, b: int)
    requires Core(L, T, m) && ListsOk(L, T, lists, home) && gen in lists && b in home
    ensures T.Cur(gen) == gen && T.Cur(b) != gen
  {
    hide Core, L.ObjectsOk, L.SpacesOk, WholeOk, InverseOk, RingsOk, ListsOk;
    CoreRings(L, T, m);
    ListHead(L, T, lists, home, gen);
    ListedArray(L, T, lists, home, b);
    HeadNotArray(L, T, gen, b);
  }

  lemma HeadNotArray(L: Layout, T: Trail, e: int, b: int)
    requires L.ObjectsOk() && L.SpacesOk() && FwdOk(L, T) && e in L.heads && L.Base(b)
    ensures T.Cur(e) == e && T.Cur(b) != e
  {
    HeadWords(L, T, e, 0);
  }

  lemma FirstPlace(L: Layout, T: Trail, m: seq<Word>, lists: map<int, seq<int>>, home: map<int, int>, gen: int)
    requires Core(L, T, m) && ListsOk(L, T, lists, home) && gen in lists
    ensures 0 < gen && gen + 2 < |m| && At(m, gen + 1) == Imm(T.Cur(Nth(lists[gen], 0, gen))) && Distinct(lists[gen])
  {
    hide L.ObjectsOk, L.WordsFit, WholeOk, WordsOk, BasesMarked, EntriesMarked, ReachOk, RingsOk;
    CoreRings(L, T, m);
    ListHead(L, T, lists, home, gen);
    HeadWords(L, T, gen, 0);
    UnlinkPlaces(L, T, m, gen);
    assert T.Cur(gen) == gen;
  }

  /** Where a walk along an entry list stands that has passed the first `k` arrays of `s` and left `kept` of them. */
  lemma OnList(L: Layout, T: Trail, m: seq<Word>, lists: map<int, seq<int>>, home: map<int, int>, gen: int, s: seq<int>,
               kept: seq<int>, k: int)
    requires Core(L, T, m) && ListsOk(L, T, lists, home) && gen in lists && 0 <= k <= |s| && lists[gen] == kept + s[k..]
    ensures k < |s| <==> T.Cur(Nth(s, k, gen)) != gen
    ensures k < |s| ==>
            s[k] in home && home[s[k]] == gen && lists[gen][|kept|] == s[k] &&
            Nth(lists[gen], |kept| + 1, gen) == Nth(s, k + 1, gen)
  {
    hide Core, RingsOk;
    CoreRings(L, T, m);
    ListHead(L, T, lists, home, gen);
    if k < |s| {
      assert lists[gen][|kept|] == s[k];
      EndOfList(L, T, m, lists, home, gen, s[k]);
    } else {
      HeadWords(L, T, gen, 0);
    }
  }

  lemma KeptStep(s: seq<int>, kept: seq<int>, k: int)
    requires 0 <= k < |s|
    ensures kept + s[k..] == (kept + [s[k]]) + s[k + 1..]
    ensures Without(kept + s[k..], |kept|) == kept + s[k + 1..]
  {
  }

  ghost predicate HandledAll(L: Layout, A: Ages, T: Trail, m: seq<Word>, marked: set<int>, home: map<int, int>, to: int,
                             s: seq<int>) {
    forall b {:trigger Handled(L, A, T, m, marked, home, to, b)} :: b in s ==> Handled(L, A, T, m, marked, home, to, b)
  }

  predicate HasKind(w: Word, weak: bool) {
    if weak then WeakHeader(w) else OrdinaryHeader(w)
  }

  /** Only the ordinary arrays of `s`, or only the weak ones, may have changed lists. */
  ghost predicate HomeFrame(L: Layout, home: map<int, int>, home1: map<int, int>, s: seq<int>, weak: bool := false) {
    forall n {:trigger SameHome(home, home1, n)} :: n !in s || !HasKind(L.Was(n), weak) ==> SameHome(home, home1, n)
  }

  lemma SameHomeBut(home: map<int, int>, home1: map<int, int>, b: int, n: int)
    requires home - {b} == home1 - {b} && n != b
    ensures SameHome(home, home1, n)
  {
    assert n in home <==> n in home - {b};
    assert n in home1 <==> n in home1 - {b};
    if n in home {
      assert (home - {b})[n] == home[n] && (home1 - {b})[n] == home1[n];
    }
  }

  lemma HandledMore(L: Layout, A: Ages, T: Trail, m: seq<Word>, marked: set<int>, home: map<int, int>,
                    T1: Trail, m1: seq<Word>, marked1: set<int>, home1: map<int, int>, to: int, s: seq<int>, k: int)
    requires L.ObjectsOk() && L.SpacesOk() && FwdOk(L, T)
    requires Evolves(L, T, m, T1, m1) && marked1 <= marked && Distinct(s) && 0 <= k < |s|
    requires HandledAll(L, A, T, m, marked, home, to, s[..k]) && Handled(L, A, T1, m1, marked1, home1, to, s[k])
    requires if OrdinaryHeader(L.Was(s[k])) then home1 - {s[k]} == home - {s[k]} else home1 == home
    ensures HandledAll(L, A, T1, m1, marked1, home1, to, s[..k + 1])
  {
    hide L.ObjectsOk, L.SpacesOk, InverseOk, WholeOk, Evolves, Handled, SameHome;
    forall b {:trigger Handled(L, A, T1, m1, marked1, home1, to, b)} | b in s[..k + 1]
      ensures Handled(L, A, T1, m1, marked1, home1, to, b)
    {
      if b != s[k] {
        assert b in s[..k];
        SameHomeBut(home, home1, s[k], b);
        HandledStays(L, A, T, m, marked, home, T1, m1, marked1, home1, to, b);
      }
    }
  }

  lemma FrameMore(L: Layout, home0: map<int, int>, home: map<int, int>, home1: map<int, int>, s: seq<int>, k: int,
                  weak: bool := false)
    requires 0 <= k < |s| && HomeFrame(L, home0, home, s[..k], weak)
    requires if HasKind(L.Was(s[k]), weak) then home1 - {s[k]} == home - {s[k]} else home1 == home
    ensures HomeFrame(L, home0, home1, s[..k + 1], weak)
  {
    forall n {:trigger SameHome(home0, home1, n)} | n !in s[..k + 1] || !HasKind(L.Was(n), weak)
      ensures SameHome(home0, home1, n)
    {
      assert s[..k + 1] == s[..k] + [s[k]];
      assert SameHome(home0, home, n);
      if HasKind(L.Was(s[k]), weak) {
        SameHomeBut(home, home1, s[k], n);
      }
    }
  }

  lemma HandledNone(L: Layout, A: Ages, T: Trail, m: seq<Word>, marked: set<int>, home: map<int, int>, to: int)
    ensures HandledAll(L, A, T, m, marked, home, to, []) && HomeFrame(L, home, home, [])
  {
  }

  /** When its turn comes, an array stays where it is if and only if that could be told when the walk began. */
  lemma TurnTold(L: Layout, A: Ages, T0: Trail, T: Trail, m: seq<Word>, marked: set<int>, home: map<int, int>, to: int,
                 P: seq<int>, D: set<int>, b: int)
    requires Inv(L, T, m) && Grows(T0, T) && L.Base(b) && HandledAll(L, A, T, m, marked, home, to, P)
    requires Brought(L, T0, T, D) && forall c :: c in D <==> ElementOf(L, P, c)
    requires forall d :: d in P ==> L.Base(d) && IsArray(L.Was(d))
    ensures Stays(L, T, b) <==> StaysAfter(L, T0, P, b)
  {
    hide Inv, Core, L.ObjectsOk, L.SpacesOk, Done, L.PointsTo, Filed, Handled, RefersToItself;
    InvParts(L, T, m);
    if c :| ElementOf(L, P, c) && L.PointsTo(c, b) {
      var d := L.own[c];
      assert Handled(L, A, T, m, marked, home, to, d);
      OwnWithin(L, c);
      HandledSlot(L, A, T, m, marked, home, to, d, c);
      DoneTarget(L, T, m, marked, c, b);
    }
    if b in T.fw && b !in T0.fw {
      assert LedTo(L, D, b);
    }
  }

  lemma HandledSlot(L: Layout, A: Ages, T: Trail, m: seq<Word>, marked: set<int>, home: map<int, int>, to: int,
                    d: int, c: int)
    requires L.ObjectsOk() && Handled(L, A, T, m, marked, home, to, d) && L.Base(d) && IsArray(L.Was(d))
    requires c in L.own && L.own[c] == d && L.Role(c) == Slot
    ensures Done(L, T, m, marked, c)
  {
    hide Filed, Done;
    OwnWithin(L, c);
  }

  lemma SameHomeTrans(home0: map<int, int>, home: map<int, int>, home1: map<int, int>, n: int)
    ensures SameHome(home0, home, n) && SameHome(home, home1, n) ==> SameHome(home0, home1, n)
  {
  }

  // ---- The heap between collections ----

  /** The word `c` of an object lies where the descriptor of the object's generation says. */
  ghost predicate Placed(L: Layout, A: Ages, c: int)
    requires c in L.own
  {
    var g := GenAt(L, A, L.own[c]);
    g in A.gens ==>
      if L.Type(L.own[c]) == MlStatic then L.own[c] in A.gens[g].statics
      else L.Type(L.own[c]) == MlHeap ==> A.gens[g].start <= c < A.gens[g].top
  }

  /** A reference from an older to a younger generation comes from an array on the entry list of
      that generation or of a still younger one. */
  ghost predicate Noted(L: Layout, A: Ages, home: map<int, int>, c: int)
    requires c in L.own
  {
    var w := L.Was(c);
    var b := L.own[c];
    Collectable(L, w) ==>
      A.Number(GenAt(L, A, b)) <= A.Number(WordGen(L, A, w)) ||
      (IsArray(L.Was(b)) && b in home && A.Number(home[b]) <= A.Number(WordGen(L, A, w)))
  }

  /** Weak arrays are always on the list of their own or of a younger generation. */
  ghost predicate WeakNoted(L: Layout, A: Ages, home: map<int, int>, b: int) {
    L.Base(b) && WeakHeader(L.Was(b)) ==> b in home && A.Number(home[b]) <= A.Number(GenAt(L, A, b))
  }

  /** The word at `x` of an object, not being a header or data, holds a value. */
  ghost predicate HoldsValue(L: Layout, x: int) {
    x in L.own && (L.Role(x) == Slot || L.Role(x) == WeakSlot)
  }

  /** Objects are where they belong, and the entry lists `home` record what has to be recorded, but for the
      arrays `updated`. */
  ghost predicate Orderly(L: Layout, A: Ages, home: map<int, int>, updated: set<int>) {
    && AgesOk(L, A)
    && (forall g :: g in A.gens ==> A.gens[g].start <= A.gens[g].top)
    && (forall c :: c in L.own ==> Placed(L, A, c))
    && (forall c {:trigger HoldsValue(L, c)} :: HoldsValue(L, c) && L.own[c] !in updated ==> Noted(L, A, home, c))
    && (forall b :: b in home ==> home[b] in A.gens)
    && (forall b {:trigger WeakNoted(L, A, home, b)} :: b !in updated ==> WeakNoted(L, A, home, b))
  }
}
