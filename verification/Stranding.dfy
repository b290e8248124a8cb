/** A heap in which a collection in place leaves a freed array on an entry list. */
module Stranding {
  import opened Heap
  import opened Roots
  import opened Copying
  import opened Moving
  import opened Scanning
  import opened EntryLists
  import opened Remembered
  import opened Weak
  import opened Sweeping
  import opened Survival
  import opened Outcome
  import opened Cycle
  import C = Collector

  /** The descriptors of the two generations; their entry-list heads are three words each. */
  const FROM := 4
  const TO := 8

  /** A static weak array without elements, the only object. */
  const WEAK := 0x400000

  const TO_SPACE := 0x800000

  /** The weak array is on the entry list of its generation. */
  function Initial(x: int): Word {
    if x == FROM + 1 || x == FROM + 2 then Imm(WEAK)
    else if x == TO + 1 || x == TO + 2 then Imm(TO)
    else if x == WEAK then Hdr(WeakArray, 0)
    else if x == WEAK + 1 || x == WEAK + 2 then Imm(FROM)
    else Imm(0)
  }

  const TYPES: map<int, SpaceType> := map[1 := MlStatic, 2 := MlHeap, 3 := From]

  function Memory(): (m: seq<Word>)
    ensures |m| == TO_SPACE && forall x :: 0 <= x < TO_SPACE ==> m[x] == Initial(x)
  {
    seq(TO_SPACE, i => Initial(i))
  }

  ghost function Lay(): Layout {
    Layout(Memory(), map[WEAK := WEAK, WEAK + 1 := WEAK, WEAK + 2 := WEAK, WEAK + 3 := WEAK], map[WEAK := RefPtr],
      {}, {FROM, TO}, a => TypeOf(TYPES, a), 3 * SPACE_WORDS, 3 * SPACE_WORDS, TO_SPACE, TO_SPACE, {})
  }

  function Generations(): Ages {
    Ages(map[FROM := Gen(0, 3, 0, 0, 3 * SPACE_WORDS, 3 * SPACE_WORDS, [WEAK]),
      TO := Gen(0, 2, 0, 0, TO_SPACE, TO_SPACE, [])],
      map[2 := TO, 3 := FROM], map[WEAK := FROM])
  }

  function Rings(): Trail {
    Trail(0, map[], map[], map[FROM := WEAK, WEAK := FROM, TO := TO], map[FROM := WEAK, WEAK := FROM, TO := TO],
      map[WEAK := 0])
  }

  ghost function Scene(): Setting {
    var A := Generations();
    Setting(Lay(), A, A.(holder := map[WEAK := TO]), FROM, TO, [], map[WEAK := FROM], [])
  }

  lemma Words(x: int)
    requires 0 <= x < TO_SPACE
    ensures Lay().Was(x) == Initial(x)
  {
  }

  lemma Owned(a: int)
    ensures a in Lay().own <==> WEAK <= a < WEAK + 4
    ensures a in Lay().own ==> Lay().own[a] == WEAK && Lay().Type(a) == MlStatic
    ensures Lay().Base(a) <==> a == WEAK
    ensures Lay().Was(WEAK) == Hdr(WeakArray, 0) && Footprint(Lay().Was(WEAK)) == 4
    ensures a in Lay().own ==> Lay().Role(a) == (if a == WEAK then Head else if a < WEAK + 3 then Link else Pad)
  {
    Words(WEAK);
  }

  lemma SceneObjects()
    ensures Lay().ObjectsOk()
  {
    var L := Lay();
    hide Lay, Footprint;
    forall a
      ensures (a in L.own <==> WEAK <= a < WEAK + 4) && (a in L.own ==> L.own[a] == WEAK) && (L.Base(a) <==> a == WEAK)
    {
      Owned(a);
    }
    Owned(WEAK);
    Tagged();
  }

  lemma Tagged()
    ensures WEAK in Lay().tag && Lay().tag[WEAK] == RefPtr && |Lay().m0| == TO_SPACE
  {
  }

  lemma SceneSpaces()
    ensures Lay().SpacesOk()
  {
    var L := Lay();
    hide Memory;
    forall a | a in L.own
      ensures WEAK <= a < WEAK + 4 && L.own[a] == WEAK && L.Type(a) == MlStatic && L.Type(L.own[a]) == MlStatic
    {
      Owned(a);
      Owned(WEAK);
    }
    forall e, x | L.HeadWord(e, x)
      ensures 0 < x < |L.m0| && x !in L.own && x !in L.roots && !(L.start <= x < L.limit) && (x in L.heads ==> x == e)
    {
      Owned(x);
    }
  }

  lemma SceneFits()
    ensures Lay().WordsFit()
  {
    var L := Lay();
    hide Memory;
    forall a | a in L.own
      ensures L.Role(a) != Slot && L.Role(a) != WeakSlot && (L.Role(a) == Link || L.Role(a) == Pad ==> L.Was(a).Imm?)
    {
      Owned(a);
      Words(a);
    }
  }

  lemma SceneRings()
    ensures RingsOk(Lay(), Rings()) && ListsOk(Lay(), Rings(), map[FROM := [WEAK], TO := []], map[WEAK := FROM])
  {
    var L, T := Lay(), Rings();
    hide Memory;
    Owned(WEAK);
    forall n {:trigger Listed(T, n)} | Listed(T, n)
      ensures Node(L, n) && n in T.prv && T.nxt[n] in T.nxt && T.nxt[n] in T.prv && T.prv[n] in T.nxt
      ensures T.prv[T.nxt[n]] == n && T.nxt[T.prv[n]] == n && RankOk(L, T, n)
    {
    }
  }

  lemma SceneThreads()
    ensures ThreadsOk(Lay(), Rings(), Memory())
  {
    var L, T := Lay(), Rings();
    SceneRings();
    hide RingsOk, ListsOk;
    Words(FROM + 1);
    Words(FROM + 2);
    Words(TO + 1);
    Words(TO + 2);
    Words(WEAK + 1);
    Words(WEAK + 2);
    forall b | L.Base(b) ensures b == WEAK {
      Owned(b);
    }
  }

  lemma SceneInv()
    ensures Inv(Lay(), Rings(), Memory())
  {
    var L, T := Lay(), Rings();
    SceneObjects();
    SceneSpaces();
    SceneFits();
    SceneThreads();
    hide Memory, RingsOk, ThreadsOk, L.ObjectsOk, L.SpacesOk, L.WordsFit, FwdOk, WordsOk, BasesMarked, EntriesMarked,
      FrameOk, ReachOk, WeakUntouched, OldElementsOk;
    NothingCopied(L, T);
  }

  /** Which generation an address belongs to, before and after the array was moved. */
  lemma SceneGens(a: int, A: Ages)
    requires A == Scene().before || A == Scene().ages
    ensures var L := Lay();
            (L.Type(a) == From ==> a / SPACE_WORDS == 3 && GenAt(L, A, a) == FROM) &&
            (L.Type(a) == MlHeap ==> a / SPACE_WORDS == 2 && GenAt(L, A, a) == TO)
    ensures GenAt(Lay(), A, WEAK) == if A == Scene().before then FROM else TO
    ensures A.space == map[2 := TO, 3 := FROM]
  {
    Owned(WEAK);
  }

  lemma SceneKeys()
    ensures var S := Scene();
            S.L.heads == S.before.gens.Keys == S.ages.gens.Keys && S.before.holder == map[WEAK := FROM] &&
            S.ages.holder == map[WEAK := TO] && S.L == Lay()
    ensures var S := Scene();
            S.ages.gens == S.before.gens == Generations().gens && S.from == FROM && S.to == TO && S.younger == [] &&
            S.Statics() == [WEAK] && S.home == map[WEAK := FROM]
  {
  }

  lemma SceneAgesOk(A: Ages)
    requires A == Scene().before || A == Scene().ages
    ensures AgesOk(Lay(), A)
  {
    var L := Lay();
    SceneKeys();
    hide Memory, Lay, Scene, GenAt;
    forall a ensures (L.Base(a) <==> a == WEAK) && (L.Type(a) == MlHeap || L.Type(a) == From ==> SpaceKnown(A, a)) {
      Owned(a);
      SceneGens(a, A);
    }
    Owned(WEAK);
  }

  lemma SceneAgeing()
    ensures var S := Scene(); AgeingOk(S.L, S.ages, S.from, S.to)
  {
    var S := Scene();
    var L := Lay();
    SceneKeys();
    SceneAgesOk(S.ages);
    SceneSpacesTyped();
    hide Memory, Lay, Scene, GenAt, AgesOk;
    forall a
      ensures (L.Base(a) <==> a == WEAK) && (L.Type(a) == From ==> GenAt(L, S.ages, a) == FROM)
      ensures L.Type(a) == MlHeap ==> GenAt(L, S.ages, a) == TO
    {
      Owned(a);
      SceneGens(a, S.ages);
    }
    SceneGens(WEAK, S.ages);
  }

  lemma SceneAges()
    ensures var S := Scene();
            AgeingOk(S.L, S.ages, S.from, S.to) && S.AgesMove() && S.TargetOk() && ChainOk(S.ages, S.from, S.younger)
  {
    SceneKeys();
    SceneAgeing();
    hide Memory, Lay, GenAt, AgesOk, AgeingOk;
  }

  lemma SceneNoted()
    ensures Orderly(Scene().L, Scene().before, Scene().home, {})
  {
    var S := Scene();
    var L := S.L;
    SceneAgesOk(S.before);
    hide Memory, Lay, AgesOk;
    Owned(WEAK);
    forall a
      ensures a in L.own <==> WEAK <= a < WEAK + 4
      ensures a in L.own ==> L.own[a] == WEAK && L.Type(a) == MlStatic && L.Role(a) != Slot && L.Role(a) != WeakSlot
      ensures L.Base(a) <==> a == WEAK
    {
      Owned(a);
    }
  }

  lemma SceneReady()
    ensures Scene().Ready()
  {
    SceneAges();
    SceneNoted();
    SceneSpacesTyped();
    hide Memory, Lay, AgeingOk, ChainOk, Orderly;
    assert TableCells([], true) == {};
  }

  lemma SceneSpacesTyped()
    ensures var L := Lay();
            L.heads == {FROM, TO} && L.roots == {} && L.entry == {} && L.start == TO_SPACE && L.limit == TO_SPACE
    ensures forall a :: Lay().Type(a) == TypeOf(TYPES, a)
  {
  }

  /** Nothing refers to the weak array. */
  lemma NotMentioned()
    ensures !Lay().Mentioned(WEAK)
  {
    var L := Lay();
    forall a ensures !L.Mentions(a, WEAK) {
      Owned(a);
    }
  }

  lemma EmptyRings()
    ensures Rings().used == 0
  {
  }

  /** The collection can begin. */
  lemma SceneCollectible(c: C.Collector, mem: array<Word>)
    requires c.mem == mem && mem[..] == Memory() && c.spaceType == map[1 := MlStatic, 2 := MlHeap, 3 := MlHeap]
    requires c.ages == Generations() && c.marked == {}
    requires c.L == Lay() && c.T == Rings() && c.lists == map[FROM := [WEAK], TO := []] && c.home == map[WEAK := FROM]
    ensures c.Collectible(Scene())
  {
    var S := Scene();
    hide Memory, Lay, RingsOk, ListsOk, Inv, S.Ready, Entered, StaticsScannable, GensScannable, Rings;
    SceneReady();
    SceneInv();
    EmptyRings();
    SceneRings();
    SceneSpacesTyped();
    SceneScans();
    assert map[1 := MlStatic, 2 := MlHeap, 3 := MlHeap][3 := From] == TYPES;
  }

  lemma SceneScans()
    ensures var S := Scene();
            Entered(S.L, S.home, S.Young()) && StaticsScannable(S.L, Rings(), S.Statics()) &&
            GensScannable(S.L, S.ages, Rings(), S.younger)
    ensures forall b :: b in Scene().Statics() ==> b in Scene().before.holder
  {
    var L := Lay();
    hide Memory, Lay;
    Owned(WEAK);
    forall a
      ensures a in L.own <==> WEAK <= a < WEAK + 4
      ensures a in L.own ==> L.own[a] == WEAK && L.Type(a) == MlStatic && L.Role(a) != Slot
      ensures L.Base(a) <==> a == WEAK
    {
      Owned(a);
    }
  }

  lemma SceneStranded()
    ensures Stranded(Scene(), WEAK)
    ensures Lay().Base(WEAK) && IsArray(Lay().Was(WEAK)) && WEAK in Scene().Statics()
  {
    hide Memory;
    Owned(WEAK);
    NotMentioned();
  }

  lemma SceneChain()
    ensures ParentsOk(Generations(), FROM, [FROM]) && SweptOk(Scene(), [FROM])
  {
  }

  method Build() returns (c: C.Collector)
    ensures fresh(c) && fresh(c.mem) && c.Collectible(Scene()) && c.ages == Generations()
    ensures c.lists == map[FROM := [WEAK], TO := []]
  {
    hide Memory, Lay, Scene, Generations, Rings;
    var mem := new Word[TO_SPACE](i => Initial(i));
    assert mem[..] == Memory();
    c := new C.Collector(mem, map[1 := MlStatic, 2 := MlHeap, 3 := MlHeap], Generations(), Lay(), Rings(),
      map[FROM := [WEAK], TO := []], map[WEAK := FROM]);
    SceneCollectible(c, mem);
  }

  /** After this collection in place, the weak array has been freed and is still on an entry list. */
  method FreedButListed() returns (c: C.Collector, freed: seq<int>)
    ensures WEAK in freed && WEAK in c.home && c.home[WEAK] in c.lists && WEAK in c.lists[c.home[WEAK]]
  {
    hide Memory, Lay, ParentsOk, SweptOk, Scene, Generations, Rings, Stranded, Doomed, C.Collector.Collectible,
      C.Collector.Collected, OnTime;
    c := Build();
    var table := new Entry[0];
    SceneChain();
    SceneParts();
    SceneOnTime();
    var lost;
    freed, lost := c.CollectGen(FROM, TO, FROM, table, Scene(), [FROM]);
    SceneStranded();
    NotMentioned();
    StillListed(c);
  }

  /** There is no ordinary array that could refer to itself. */
  lemma SceneOnTime()
    ensures OnTime(Scene(), map[FROM := [WEAK], TO := []])
  {
    var S, s := Scene(), [WEAK];
    SceneKeys();
    hide Memory, Lay, Scene, Early;
    Owned(WEAK);
    assert Turn(S, 0) == FROM;
    assert Timely(S.L, Early(S, map[FROM := [WEAK], TO := []], 0), s);
  }

  lemma SceneParts()
    ensures Scene().L == Lay() && Scene().from == FROM && Scene().to == TO && Scene().table == []
  {
  }

  lemma StillListed(c: C.Collector)
    requires c.Collected(Scene()) && Scene().L == Lay() && WEAK in Scene().Statics() && !Lay().Mentioned(WEAK)
    requires Lay().Base(WEAK) && IsArray(Lay().Was(WEAK))
    requires Stranded(Scene(), WEAK)
    ensures WEAK in c.marked && WEAK in c.home && c.home[WEAK] in c.lists && WEAK in c.lists[c.home[WEAK]]
  {
    hide Stranded, Lay, Scene, Memory, Preserved, Remembers, Core, Agree, AllDoomed, Doomed;
  }
}
