/** An array that refers to itself, on an entry list that is gone through: whether the walk along the list survives
    depends on a root that refers to the array too. */
module SelfReference {
  import opened Heap
  import opened Roots
  import opened Copying
  import opened Moving
  import opened Scanning
  import opened EntryLists
  import opened Remembered
  import opened Weak
  import opened Sweeping
  import opened Survival
  import opened Outcome
  import opened Cycle
  import C = Collector

  /** The descriptors of the three generations and the one root. */
  const CREATION := 4
  const FROM := 8
  const TO := 12
  const ROOT := 16

  /** An array with one element, which refers to the array, in the generation that is collected. */
  const SELF := 0x400000

  const TO_SPACE := 0x800000

  const FIRST_FREE := 0xC00000

  /** The array has been modified: it is on the entry list of the creation space. */
  function Initial(x: int): Word {
    if x == CREATION + 1 || x == CREATION + 2 then Imm(SELF)
    else if x == FROM + 1 || x == FROM + 2 then Imm(FROM)
    else if x == TO + 1 || x == TO + 2 then Imm(TO)
    else if x == SELF then Hdr(Array, 1)
    else if x == SELF + 1 || x == SELF + 2 then Imm(CREATION)
    else if x == SELF + 3 || x == ROOT then Ptr(RefPtr, SELF)
    else Imm(0)
  }

  const TYPES: map<int, SpaceType> := map[1 := From, 2 := MlHeap, 3 := MlHeap]

  const RESTING: map<int, SpaceType> := map[1 := MlHeap, 2 := MlHeap, 3 := MlHeap]

  function Memory(): (m: seq<Word>)
    ensures |m| == TO_SPACE + 4 && forall x :: 0 <= x < TO_SPACE + 4 ==> m[x] == Initial(x)
  {
    seq(TO_SPACE + 4, i => Initial(i))
  }

  ghost function Lay(): Layout {
    Layout(Memory(), map[SELF := SELF, SELF + 1 := SELF, SELF + 2 := SELF, SELF + 3 := SELF], map[SELF := RefPtr],
      {ROOT}, {CREATION, FROM, TO}, a => TypeOf(TYPES, a), SELF, SELF + 4, TO_SPACE, TO_SPACE + 4, {ROOT, SELF + 3})
  }

  function Generations(): Ages {
    Ages(map[CREATION := Gen(0, 3, FROM, 0, FIRST_FREE, FIRST_FREE, []),
      FROM := Gen(1, 1, 0, CREATION, SELF, SELF + 4, []), TO := Gen(1, 2, 0, 0, TO_SPACE, TO_SPACE, [])],
      map[1 := FROM, 2 := TO, 3 := CREATION], map[])
  }

  function Rings(): Trail {
    Trail(0, map[], map[], map[CREATION := SELF, SELF := CREATION, FROM := FROM, TO := TO],
      map[CREATION := SELF, SELF := CREATION, FROM := FROM, TO := TO], map[SELF := 0])
  }

  function Lists(): map<int, seq<int>> {
    map[CREATION := [SELF], FROM := [], TO := []]
  }

  /** The root counts for images just if `live`. */
  function Table(live: bool): seq<Entry> {
    [Root(ROOT, live)]
  }

  ghost function Scene(live: bool): Setting {
    Setting(Lay(), Generations(), Generations(), FROM, TO, [CREATION], map[SELF := CREATION], Table(live))
  }

  lemma Words(x: int)
    requires 0 <= x < TO_SPACE + 4
    ensures Lay().Was(x) == Initial(x)
  {
  }

  lemma Owned(a: int)
    ensures a in Lay().own <==> SELF <= a < SELF + 4
    ensures a in Lay().own ==> Lay().own[a] == SELF && Lay().Type(a) == From
    ensures Lay().Base(a) <==> a == SELF
    ensures Lay().Was(SELF) == Hdr(Array, 1) && Footprint(Lay().Was(SELF)) == 4
    ensures a in Lay().own ==> Lay().Role(a) == (if a == SELF then Head else if a < SELF + 3 then Link else Slot)
  {
    Words(SELF);
  }

  lemma Fixed()
    ensures var L := Lay();
            SELF in L.tag && L.tag[SELF] == RefPtr && |L.m0| == TO_SPACE + 4 && L.roots == {ROOT} &&
            L.heads == {CREATION, FROM, TO} && L.start == TO_SPACE && L.limit == TO_SPACE + 4 && L.lo == SELF &&
            L.hi == SELF + 4 && L.entry == {ROOT, SELF + 3}
    ensures forall a :: Lay().Type(a) == TypeOf(TYPES, a)
  {
  }

  lemma SceneObjects()
    ensures Lay().ObjectsOk()
  {
    var L := Lay();
    Fixed();
    hide Lay, Footprint;
    forall a
      ensures (a in L.own <==> SELF <= a < SELF + 4) && (a in L.own ==> L.own[a] == SELF) && (L.Base(a) <==> a == SELF)
    {
      Owned(a);
    }
    Owned(SELF);
  }

  lemma SceneSpaces()
    ensures Lay().SpacesOk()
  {
    var L := Lay();
    Fixed();
    hide Memory, Lay;
    forall a | a in L.own
      ensures SELF <= a < SELF + 4 && L.own[a] == SELF && L.Type(a) == From && L.Type(SELF) == From
    {
      Owned(a);
      Owned(SELF);
    }
    forall e, x | L.HeadWord(e, x)
      ensures 0 < x < |L.m0| && x !in L.own && x !in L.roots && !(L.start <= x < L.limit) && (x in L.heads ==> x == e)
    {
      Owned(x);
    }
    Owned(ROOT);
  }

  /** The element of the array and the root refer to the array. */
  lemma ToItself()
    ensures var L := Lay();
            L.Was(SELF + 3) == L.Was(ROOT) == Ptr(RefPtr, SELF) && L.Target(RefPtr, SELF) && L.Type(SELF) == From
    ensures Lay().PointsTo(SELF + 3, SELF) && Lay().PointsTo(ROOT, SELF)
    ensures Lay().Cell(SELF + 3) && Lay().Cell(ROOT) && RefersToItself(Lay(), SELF)
  {
    Fixed();
    Words(SELF + 3);
    Words(ROOT);
    Owned(SELF);
    Owned(SELF + 1);
    Owned(SELF + 3);
    hide Memory, Lay;
    assert ElementOf(Lay(), [SELF], SELF + 3);
  }

  lemma SceneFits()
    ensures Lay().WordsFit()
  {
    var L := Lay();
    ToItself();
    Fixed();
    hide Memory, Lay, L.Target;
    forall a | a in L.own
      ensures L.Role(a) == Slot || L.Role(a) == WeakSlot ==> a == SELF + 3
      ensures L.Role(a) == Link || L.Role(a) == Pad ==> L.Was(a).Imm?
    {
      Owned(a);
      Words(a);
    }
  }

  lemma SceneRings()
    ensures RingsOk(Lay(), Rings()) && ListsOk(Lay(), Rings(), Lists(), map[SELF := CREATION])
  {
    var L, T := Lay(), Rings();
    Fixed();
    Owned(SELF);
    hide Memory, Lay;
    forall n {:trigger Listed(T, n)} | Listed(T, n)
      ensures Node(L, n) && n in T.prv && T.nxt[n] in T.nxt && T.nxt[n] in T.prv && T.prv[n] in T.nxt
      ensures T.prv[T.nxt[n]] == n && T.nxt[T.prv[n]] == n && RankOk(L, T, n)
    {
    }
  }

  lemma SceneThreads()
    ensures ThreadsOk(Lay(), Rings(), Memory())
  {
    var L, T := Lay(), Rings();
    SceneRings();
    hide RingsOk, ListsOk;
    Words(CREATION + 1);
    Words(CREATION + 2);
    Words(FROM + 1);
    Words(FROM + 2);
    Words(TO + 1);
    Words(TO + 2);
    Words(SELF + 1);
    Words(SELF + 2);
    forall b | L.Base(b) ensures b == SELF {
      Owned(b);
    }
  }

  lemma SceneInv()
    ensures Inv(Lay(), Rings(), Memory())
  {
    var L, T := Lay(), Rings();
    SceneObjects();
    SceneSpaces();
    SceneFits();
    SceneThreads();
    hide Memory, RingsOk, ThreadsOk, L.ObjectsOk, L.SpacesOk, L.WordsFit, FwdOk, WordsOk, BasesMarked, EntriesMarked,
      FrameOk, ReachOk, WeakUntouched, OldElementsOk;
    NothingCopied(L, T);
  }

  lemma SceneGens(a: int)
    ensures var L, A := Lay(), Generations();
            && (L.Type(a) == From ==> a / SPACE_WORDS == 1 && GenAt(L, A, a) == FROM)
            && (L.Type(a) == MlHeap ==> (a / SPACE_WORDS == 2 && GenAt(L, A, a) == TO) ||
                                        (a / SPACE_WORDS == 3 && GenAt(L, A, a) == CREATION))
            && L.Type(a) != MlStatic && (TO_SPACE <= a < TO_SPACE + 4 ==> GenAt(L, A, a) == TO)
  {
  }

  lemma SceneAgesOk()
    ensures AgesOk(Lay(), Generations())
  {
    var L, A := Lay(), Generations();
    Fixed();
    hide Memory, Lay, GenAt;
    forall a ensures (L.Base(a) ==> a == SELF) && (L.Type(a) == MlHeap || L.Type(a) == From ==> SpaceKnown(A, a)) {
      Owned(a);
      SceneGens(a);
    }
    Owned(SELF);
    SceneGens(SELF);
  }

  lemma SceneAgeing()
    ensures AgeingOk(Lay(), Generations(), FROM, TO)
  {
    var L, A := Lay(), Generations();
    Fixed();
    SceneAgesOk();
    hide Memory, Lay, GenAt, AgesOk;
    forall a
      ensures (L.Type(a) == From ==> GenAt(L, A, a) == FROM) && (L.Type(a) == MlHeap ==> GenAt(L, A, a) != FROM)
      ensures L.Type(a) != MlStatic && (TO_SPACE <= a < TO_SPACE + 4 ==> GenAt(L, A, a) == TO)
    {
      SceneGens(a);
    }
  }

  lemma SceneNoted()
    ensures Orderly(Lay(), Generations(), map[SELF := CREATION], {})
  {
    var L, A := Lay(), Generations();
    SceneAgesOk();
    ToItself();
    SceneGens(SELF);
    hide Memory, Lay, AgesOk, GenAt;
    Owned(SELF);
    forall a
      ensures a in L.own <==> SELF <= a < SELF + 4
      ensures a in L.own ==> L.own[a] == SELF && L.Type(a) == From
      ensures HoldsValue(L, a) ==> a == SELF + 3
      ensures L.Base(a) <==> a == SELF
    {
      Owned(a);
    }
  }

  lemma SceneTable(live: bool)
    ensures TableCells(Table(live), true) == {ROOT} && TableCells(Table(live), false) == (if live then {ROOT} else {})
  {
    assert Root(ROOT, live) in Table(live);
  }

  lemma SceneParts(live: bool)
    ensures var S := Scene(live);
            && S.L == Lay() && S.before == S.ages == Generations() && S.from == FROM && S.to == TO
            && S.younger == [CREATION] && S.home == map[SELF := CREATION] && S.table == Table(live)
            && S.Statics() == [] && S.Young() == {FROM, CREATION}
  {
  }

  lemma SceneReady(live: bool)
    ensures Scene(live).Ready()
  {
    var S := Scene(live);
    SceneParts(live);
    SceneAgeing();
    SceneNoted();
    SceneTable(live);
    Fixed();
    ToItself();
    Owned(SELF);
    Owned(SELF + 3);
    hide Memory, Lay, AgeingOk, Orderly, TableCells, Scene, Table;
  }

  /** The array is copied before its turn comes if and only if the root counts for images. */
  lemma InTimeIffLive(live: bool)
    ensures OnTime(Scene(live), Lists()) <==> live
  {
    var S, lists := Scene(live), Lists();
    hide Memory, Lay, TableCells, Scene, Early, Timely;
    SceneParts(live);
    NothingElse(live);
    assert Turn(S, 0) == FROM && Turn(S, 1) == CREATION;
    FirstTurnEmpty(Early(S, lists, 0));
    ReferredIffRoot(Early(S, lists, 1));
  }

  lemma FirstTurnEmpty(D: set<int>)
    ensures Timely(Lay(), D, [])
  {
  }

  lemma ReferredIffRoot(D: set<int>)
    requires D == {ROOT} || D == {}
    ensures Timely(Lay(), D, [SELF]) <==> ROOT in D
  {
    ToItself();
    Owned(SELF);
    hide Memory, Lay;
    var s := [SELF];
    assert s[..0] == [] && ObjectCells(Lay(), s[..0]) == {};
    if ROOT in D {
      assert LedTo(Lay(), D + ObjectCells(Lay(), s[..0]), SELF);
    } else {
      assert OrdinaryHeader(Lay().Was(s[0])) && !LedTo(Lay(), D + ObjectCells(Lay(), s[..0]), s[0]);
    }
  }

  lemma NothingElse(live: bool)
    ensures Early(Scene(live), Lists(), 1) == if live then {ROOT} else {}
  {
    var S, lists := Scene(live), Lists();
    SceneParts(live);
    SceneTable(live);
    hide Memory, Lay, TableCells, Scene;
    assert ObjectCells(Lay(), []) == {} && RegionCells(Lay(), FIRST_FREE, FIRST_FREE) == {};
    assert GenCells(S.L, S.ages, CREATION) == {};
    assert Turn(S, 0) == FROM && lists[FROM] == [];
    assert Passed(S, lists, 0) == TableCells(S.table, false);
  }

  lemma SceneScans(live: bool)
    ensures var S := Scene(live);
            Entered(S.L, S.home, S.Young()) && StaticsScannable(S.L, Rings(), S.Statics()) &&
            GensScannable(S.L, S.ages, Rings(), S.younger)
  {
    SceneParts(live);
    Fixed();
    Owned(SELF);
    hide Memory, Lay, Scene;
  }

  lemma SceneTypes(a: int)
    ensures Lay().Type(a) == TypeOf(RESTING[Generations().gens[FROM].space := From], a)
  {
    Fixed();
    assert RESTING[1 := From] == TYPES;
  }

  lemma RingsUntouched()
    ensures Rings().used == 0 && Rings().fw == map[] && Generations().gens[TO].top == TO_SPACE
  {
  }

  /** The collection can begin. */
  lemma SceneCollectible(c: C.Collector, mem: array<Word>, live: bool)
    requires c.mem == mem && mem[..] == Memory() && c.spaceType == RESTING && c.ages == Generations() && c.marked == {}
    requires c.L == Lay() && c.T == Rings() && c.lists == Lists() && c.home == map[SELF := CREATION]
    ensures c.Collectible(Scene(live))
  {
    hide Memory, Lay, RingsOk, ListsOk, Inv, Scene, Entered, StaticsScannable, GensScannable, Rings, Lists, TypeOf;
    SceneParts(live);
    SceneReady(live);
    SceneInv();
    SceneRings();
    SceneScans(live);
    Fixed();
    RingsUntouched();
    forall a ensures Lay().Type(a) == TypeOf(RESTING[Generations().gens[FROM].space := From], a) {
      SceneTypes(a);
    }
  }

  method Build(spaceType: map<int, SpaceType>) returns (c: C.Collector)
    ensures fresh(c) && fresh(c.mem) && c.mem[..] == Memory() && c.spaceType == spaceType && c.ages == Generations()
    ensures c.marked == {} && c.L == Lay() && c.T == Rings() && c.lists == Lists() && c.home == map[SELF := CREATION]
  {
    hide Memory, Lay, Generations, Rings;
    var mem := new Word[TO_SPACE + 4](i => Initial(i));
    assert mem[..] == Memory();
    c := new C.Collector(mem, spaceType, Generations(), Lay(), Rings(), Lists(), map[SELF := CREATION]);
  }

  /** Without a root that counts for images, the walk along the list of the creation space reads on, after the elements
      of its first array, with the tagged address of the copy. */
  method WalkLost() returns (next: Word)
    ensures next == Ptr(RefPtr, TO_SPACE)
  {
    hide Memory, Lay, Generations, Rings, Inv, Lists;
    var c := Build(TYPES);
    c.marks := {};
    Visit(c);
    var arr := c.mem[CREATION + 1].n;
    var youngest, to := c.FixElements(arr, c.mem[arr].len, FROM, TO_SPACE, SELF);
    next := c.mem[arr + 1];
    assert next == At(c.mem[..], arr + 1);
    CopyPlace(c.L, c.T, c.mem[..]);
  }

  /** The first array on the list is visited before anything has been copied. */
  lemma Visit(c: C.Collector)
    requires c.mem[..] == Memory() && c.spaceType == TYPES && c.ages == Generations() && c.marks == c.marked == {}
    requires c.L == Lay() && c.T == Rings()
    ensures c.Collecting() && AgesOk(c.L, c.ages) && FixableArray(c.L, SELF) && c.L.Was(SELF).len == 1
    ensures CREATION + 1 < SELF < c.mem.Length && c.mem[CREATION + 1] == Imm(SELF) && c.mem[SELF] == Hdr(Array, 1)
    ensures c.T.Cur(SELF) == SELF
    ensures FROM in c.ages.gens && c.L.start + c.T.used == TO_SPACE && !Stays(c.L, c.T, SELF)
  {
    hide Memory, Lay, Inv, AgesOk, Rings, RefersToItself, TypeOf;
    SceneInv();
    SceneAgesOk();
    ToItself();
    Fixed();
    Owned(SELF);
    RingsUntouched();
    assert c.mem[CREATION + 1] == c.mem[..][CREATION + 1] && c.mem[SELF] == c.mem[..][SELF];
  }

  /** There is just room for the array. */
  lemma CopyPlace(L: Layout, T: Trail, m: seq<Word>)
    requires L == Lay() && Inv(L, T, m) && SELF in T.fw
    ensures T.fw[SELF] == TO_SPACE
  {
    hide Memory, Lay, Inv, Core;
    InvParts(L, T, m);
    Owned(SELF);
    Fixed();
    LastWord(L, T, SELF);
    CopyTogether(L, T, SELF);
  }

  /** If the root counts for images, the collection goes through, and the copy refers to itself; otherwise the walk
      along the list of the creation space is lost. */
  method CollectScene(live: bool) returns (c: C.Collector, lost: bool)
    ensures lost <==> !live
    ensures live ==> c.Collected(Scene(true)) && SELF in c.T.fw
    ensures live ==> At(c.mem[..], c.T.fw[SELF] + 3) == Ptr(RefPtr, c.T.fw[SELF])
  {
    hide Memory, Lay, Generations, Rings, Lists, Scene, C.Collector.Collectible, C.Collector.Collected, ParentsOk,
      SweptOk, OnTime;
    c := Build(RESTING);
    SceneCollectible(c, c.mem, live);
    SceneParts(live);
    InTimeIffLive(live);
    var table := new Entry[1](i => Root(ROOT, live));
    assert table[..] == Table(live);
    Fixed();
    SceneChain(live);
    var freed;
    freed, lost := c.CollectGen(FROM, TO, CREATION, table, Scene(live), [CREATION, FROM]);
    if live {
      CopyRefers(c);
    }
  }

  lemma SceneChain(live: bool)
    ensures ParentsOk(Generations(), CREATION, [CREATION, FROM]) && SweptOk(Scene(live), [CREATION, FROM])
  {
    SceneParts(live);
  }

  lemma CopyRefers(c: C.Collector)
    requires c.Collected(Scene(true))
    ensures SELF in c.T.fw && At(c.mem[..], c.T.fw[SELF] + 3) == Ptr(RefPtr, c.T.fw[SELF])
  {
    hide Memory, Lay, Scene, Remembers, Stranded, Core, Agree, AllDoomed, Doomed, ListsOk, Preserved, FwdOk, IsFixed;
    SceneParts(true);
    CollectedKeeps(c);
    ArrayKept(Scene(true), c.T, c.mem[..], c.marked);
  }

  lemma CollectedKeeps(c: C.Collector)
    requires c.Collected(Scene(true))
    ensures Preserved(Scene(true), c.T, c.mem[..], c.marked)
  {
    hide Memory, Lay, Scene, Remembers, Stranded, Core, Agree, AllDoomed, Doomed, ListsOk, Preserved;
  }

  lemma ArrayKept(S: Setting, T: Trail, m: seq<Word>, marked: set<int>)
    requires S.L == Lay() && Preserved(S, T, m, marked)
    ensures SELF in T.fw && At(m, T.fw[SELF] + 3) == Ptr(RefPtr, T.fw[SELF])
  {
    var L := Lay();
    hide Memory, Lay, InverseOk;
    ToItself();
    Owned(SELF);
    Owned(SELF + 3);
    IsReached();
    CopyTogether(L, T, SELF + 3);
  }

  lemma IsReached()
    ensures Lay().Reachable(SELF)
  {
    hide Memory, Lay;
    ToItself();
    Fixed();
    assert Lay().ReachedIn(SELF, 0);
  }
}
