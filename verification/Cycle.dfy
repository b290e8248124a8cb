/** From one collection to the next: what has to hold of the heap between collections, why a collection
    can start from it, and why it holds again when the collection is over. */
module Cycle {
  import opened Heap
  import opened Seqs
  import opened Copying
  import opened Moving
  import opened Scanning
  import opened EntryLists
  import opened Remembered
  import opened Weak
  import opened Sweeping
  import opened Survival
  import opened Roots
  import opened Outcome
  import opened Aftermath
  import opened Steady
  import opened Areas
  import opened Relisting
  import C = Collector

  // ---- The heap between collections ----

  /** The heads of entry lists, the roots and the objects lie apart, and no object spans two spaces. */
  ghost predicate Separate(L: Layout) {
    && (forall e, x :: L.HeadWord(e, x) ==> 0 < x < |L.m0| && x !in L.own && x !in L.roots && (x in L.heads ==> x == e))
    && (forall a :: a in L.roots ==> a !in L.own)
    && (forall a :: a in L.own ==> L.Type(a) == L.Type(L.own[a]))
  }

  predicate IsValue(w: Word) {
    w.Imm? || w.Ptr? || w == Dead
  }

  /** Where there should be values and links there are. */
  ghost predicate Filled(L: Layout) {
    && (forall x {:trigger HoldsValue(L, x)} :: HoldsValue(L, x) ==> IsValue(L.Was(x)))
    && (forall x :: x in L.own && (L.Role(x) == Link || L.Role(x) == Pad) ==> L.Was(x).Imm?)
    && (forall x :: x in L.roots ==> IsValue(L.Was(x)) && Sound(L, L.Was(x)))
  }

  /** Nothing has been copied. */
  predicate Untouched(T: Trail) {
    T.used == 0 && T.fw == map[] && T.bk == map[]
  }

  /** The heap between collections: whole objects whose references lead to legal targets, each in its
      generation, areas of generations without gaps, and entry lists that record what has to be recorded, but for the
      arrays `updated`. */
  ghost predicate HeapOk(L: Layout, A: Ages, home: map<int, int>, updated: set<int>) {
    L.ObjectsOk() && Separate(L) && SoundHeap(L) && Filled(L) && AreasOk(L, A) && Orderly(L, A, home, updated)
  }

  // ---- A collection can start ----

  /** `S` is a collection of the heap `L`: the space of the generation `S.from` has become from-space, objects are
      copied to the top of `S.to`, the collection sets out from all cells it can set out from, and the rest of the
      setting fits. */
  ghost predicate Chosen(L: Layout, A: Ages, home: map<int, int>, S: Setting) {
    && S.L.m0 == L.m0 && S.L.own == L.own && S.L.tag == L.tag && S.L.roots == L.roots && S.L.heads == L.heads
    && S.from in A.gens && S.to in A.gens && A.gens[S.to].top == S.L.start
    && (forall a :: S.L.Type(a) == if a / SPACE_WORDS == A.gens[S.from].space then From else L.Type(a))
    && (forall a :: a / SPACE_WORDS == A.gens[S.from].space ==> L.Type(a) == MlHeap)
    && (forall a :: L.Type(a) != From)
    && S.before == A && S.home == home && S.L.SpacesOk()
    && AgeingOk(S.L, S.ages, S.from, S.to) && S.AgesMove() && S.TargetOk() && ChainOk(S.ages, S.from, S.younger)
    && (forall g :: g in S.ages.gens && S.ages.Number(g) <= S.ages.Number(S.from) ==> g in S.Young() || g == S.to)
    && (forall c :: c in S.L.roots <==> c in TableCells(S.table, true))
    && (forall c :: c in S.L.entry <==> S.SetsOut(c) && S.L.Cell(c))
  }

  /** Before anything has been copied, every word is where it was. */
  lemma NothingCopied(L: Layout, T: Trail)
    requires L.SpacesOk() && L.WordsFit() && T.used == 0 && T.fw == map[] && T.bk == map[]
    ensures FwdOk(L, T) && WordsOk(L, T, L.m0) && BasesMarked(L, T, L.m0) && EntriesMarked(L, T, L.m0)
    ensures FrameOk(L, L.m0) && ReachOk(L, T) && WeakUntouched(L, T, L.m0) && OldElementsOk(L, T, L.m0)
  {
    hide L.ValueOk, L.Target;
  }

  lemma SameTypes(L: Layout, A: Ages, home: map<int, int>, S: Setting)
    requires Chosen(L, A, home, S)
    ensures forall w :: Collectable(S.L, w) <==> Collectable(L, w)
    ensures forall a :: GenAt(S.L, A, a) == GenAt(L, A, a)
    ensures forall x :: HoldsValue(S.L, x) <==> HoldsValue(L, x)
  {
    hide S.L.SpacesOk, AgeingOk, ChainOk, S.SetsOut, TableCells;
  }

  lemma OrderlyStarts(L: Layout, A: Ages, home: map<int, int>, S: Setting)
    requires Orderly(L, A, home, {}) && Chosen(L, A, home, S)
    ensures Orderly(S.L, A, home, {})
  {
    SameTypes(L, A, home, S);
    AgesStart(L, A, home, S);
    hide Chosen, AgesOk, SpaceKnown, Collectable, GenAt, HoldsValue;
    ChosenTypes(L, A, home, S);
    forall c | c in S.L.own ensures Placed(S.L, A, c) {
      assert Placed(L, A, c);
    }
    forall c {:trigger HoldsValue(S.L, c)} | HoldsValue(S.L, c) ensures c in S.L.own && Noted(S.L, A, home, c) {
      HoldsOwned(S.L, c);
      assert HoldsValue(L, c) && Noted(L, A, home, c);
      NotedStarts(L, A, home, S, c);
    }
    forall b {:trigger WeakNoted(S.L, A, home, b)} ensures WeakNoted(S.L, A, home, b) {
      assert WeakNoted(L, A, home, b);
    }
  }

  lemma ChosenTypes(L: Layout, A: Ages, home: map<int, int>, S: Setting)
    requires Chosen(L, A, home, S)
    ensures S.L.m0 == L.m0 && S.L.own == L.own && S.L.tag == L.tag && S.L.roots == L.roots && S.L.heads == L.heads
    ensures S.before == A && S.home == home
    ensures forall a :: S.L.Type(a) == L.Type(a) || (L.Type(a) == MlHeap && S.L.Type(a) == From)
  {
  }

  lemma AgesStart(L: Layout, A: Ages, home: map<int, int>, S: Setting)
    requires AgesOk(L, A) && Chosen(L, A, home, S)
    ensures AgesOk(S.L, A)
  {
    ChosenTypes(L, A, home, S);
    hide Chosen, SpaceKnown;
  }

  lemma NotedStarts(L: Layout, A: Ages, home: map<int, int>, S: Setting, c: int)
    requires Chosen(L, A, home, S) && c in L.own && Noted(L, A, home, c)
    ensures Noted(S.L, A, home, c)
  {
    ChosenTypes(L, A, home, S);
    SameTypes(L, A, home, S);
    hide Chosen;
  }

  lemma ReadyStarts(L: Layout, A: Ages, home: map<int, int>, S: Setting)
    requires HeapOk(L, A, home, {}) && Chosen(L, A, home, S)
    ensures S.Ready()
  {
    hide Orderly, AgeingOk, ChainOk, TableCells, S.SetsOut, L.ObjectsOk, Separate, SoundHeap, Filled, S.L.SpacesOk,
      S.AgesMove, S.TargetOk;
    OrderlyStarts(L, A, home, S);
  }

  lemma ValueStarts(L: Layout, A: Ages, home: map<int, int>, S: Setting, w: Word)
    requires Chosen(L, A, home, S) && L.ObjectsOk() && Sound(L, w) && IsValue(w)
    ensures S.L.ValueOk(w)
  {
    hide Chosen, L.ObjectsOk, S.L.SpacesOk;
    ChosenTypes(L, A, home, S);
    SameTypes(L, A, home, S);
    ChosenSpaces(L, A, home, S);
    if w.Ptr? && Collectable(L, w) {
      TargetStarts(L, S.L, w.tag, w.addr);
      TargetOwned(L, w.tag, w.addr);
    }
  }

  lemma ChosenSpaces(L: Layout, A: Ages, home: map<int, int>, S: Setting)
    requires Chosen(L, A, home, S)
    ensures S.L.SpacesOk()
    ensures forall a :: S.L.start <= a < S.L.limit ==> a !in L.own && L.Type(a) == MlHeap
  {
  }

  lemma TargetStarts(L: Layout, N: Layout, t: Tag, a: int)
    requires N.m0 == L.m0 && N.own == L.own && N.tag == L.tag && L.Target(t, a)
    ensures N.Target(t, a)
  {
    if L.SharedEntry(L.own[a], a) {
      forall x | L.own[a] < x <= a && (x - L.own[a]) % 2 == 0 ensures N.Was(x) == Null {
        assert L.Was(x) == Null;
      }
    }
  }

  lemma WordsStart(L: Layout, A: Ages, home: map<int, int>, S: Setting)
    requires HeapOk(L, A, home, {}) && Chosen(L, A, home, S)
    ensures S.L.WordsFit()
  {
    hide Chosen, L.ObjectsOk, Orderly, AgeingOk, S.L.ValueOk, Sound, Separate;
    ChosenTypes(L, A, home, S);
    SameTypes(L, A, home, S);
    var N := S.L;
    forall a | a in N.own && (N.Role(a) == Slot || N.Role(a) == WeakSlot) ensures N.ValueOk(N.Was(a)) {
      assert HoldsValue(L, a);
      ValueStarts(L, A, home, S, L.Was(a));
    }
    forall a | a in N.own && (N.Role(a) == Link || N.Role(a) == Pad) ensures N.Was(a).Imm? {
      assert L.Role(a) == N.Role(a);
    }
    forall a | a in N.roots ensures N.ValueOk(N.Was(a)) {
      ValueStarts(L, A, home, S, L.Was(a));
    }
  }

  lemma ObjectsStart(L: Layout, N: Layout)
    requires L.ObjectsOk() && N.m0 == L.m0 && N.own == L.own && N.tag == L.tag
    ensures N.ObjectsOk()
  {
    forall b, x | N.Within(b, x) ensures x in N.own && N.own[x] == b {
      assert L.Within(b, x);
    }
    forall a | a in N.own ensures N.Within(N.own[a], a) {
      assert L.Within(L.own[a], a);
    }
    forall b | N.Base(b) ensures IsFirstWord(N.Was(b)) && b in N.tag && TagFits(N.Was(b), N.tag[b]) {
      assert L.Base(b);
    }
  }

  lemma RingsShape(L: Layout, N: Layout, T: Trail)
    requires RingsOk(L, T) && N.own == L.own && N.heads == L.heads && forall b :: L.Base(b) ==> N.Was(b) == L.Was(b)
    ensures RingsOk(N, T)
  {
    forall n {:trigger Listed(T, n)} | Listed(T, n) ensures Node(N, n) && RankOk(N, T, n) {
      assert Node(L, n) && RankOk(L, T, n);
    }
  }

  lemma ListsShape(L: Layout, N: Layout, T: Trail, lists: map<int, seq<int>>, home: map<int, int>)
    requires ListsOk(L, T, lists, home) && N.heads == L.heads
    ensures ListsOk(N, T, lists, home)
  {
    hide ListOk;
    forall e | e in lists ensures ListOk(N, T, home, e, lists[e]) {
      ListShape(L, N, T, home, e, lists[e]);
    }
  }

  lemma ListShape(L: Layout, N: Layout, T: Trail, home: map<int, int>, e: int, s: seq<int>)
    requires ListOk(L, T, home, e, s) && N.heads == L.heads
    ensures ListOk(N, T, home, e, s)
  {
    hide Distinct;
  }

  lemma ThreadsStart(L: Layout, N: Layout, T: Trail, m: seq<Word>, lists: map<int, seq<int>>, home: map<int, int>)
    requires ThreadsOk(L, T, m) && ListsOk(L, T, lists, home) && N.m0 == L.m0 && N.own == L.own && N.heads == L.heads
    ensures ThreadsOk(N, T, m) && ListsOk(N, T, lists, home)
  {
    hide ListsOk, RingsOk, Unlisted;
    ListsShape(L, N, T, lists, home);
    ThreadsAlike(L, N, T, m);
  }

  lemma ThreadsAlike(L: Layout, N: Layout, T: Trail, m: seq<Word>)
    requires ThreadsOk(L, T, m) && N.m0 == L.m0 && N.own == L.own && N.heads == L.heads
    ensures ThreadsOk(N, T, m)
  {
    hide RingsOk, Unlisted;
    RingsShape(L, N, T);
    forall b | N.Base(b) && IsArray(N.Was(b)) && b !in T.nxt ensures Unlisted(T, m, b) {
      assert L.Base(b);
    }
  }

  /** References, those of the roots included, lead to legal targets. */
  ghost predicate AllSound(L: Layout) {
    SoundHeap(L) && forall a :: a in L.roots ==> Sound(L, L.Was(a))
  }

  /** References lead to legal targets when the collection starts. */
  lemma SoundStarts(L: Layout, A: Ages, home: map<int, int>, S: Setting)
    requires HeapOk(L, A, home, {}) && Chosen(L, A, home, S)
    ensures AllSound(S.L)
  {
    ChosenTypes(L, A, home, S);
    SameTypes(L, A, home, S);
    hide Chosen, L.ObjectsOk, Separate, Orderly, Sound, HoldsValue, Collectable;
    var N := S.L;
    forall x {:trigger HoldsValue(N, x)} | HoldsValue(N, x) ensures Sound(N, N.Was(x)) {
      assert HoldsValue(L, x);
      SoundSame(L, N, L.Was(x));
    }
    forall a | a in N.roots ensures Sound(N, N.Was(a)) {
      SoundSame(L, N, L.Was(a));
    }
  }

  lemma SoundSame(L: Layout, N: Layout, w: Word)
    requires N.m0 == L.m0 && N.own == L.own && N.tag == L.tag && (Collectable(N, w) <==> Collectable(L, w))
    requires Sound(L, w)
    ensures Sound(N, w)
  {
    if Collectable(L, w) {
      TargetStarts(L, N, w.tag, w.addr);
    }
  }

  lemma ChosenEntry(L: Layout, A: Ages, home: map<int, int>, S: Setting)
    requires Chosen(L, A, home, S)
    ensures forall c :: S.SetsOut(c) && S.L.Cell(c) ==> c in S.L.entry
    ensures S.from in A.gens && S.to in A.gens && A.gens[S.to].top == S.L.start
  {
    hide S.L.SpacesOk, AgeingOk, ChainOk, S.SetsOut, TableCells;
  }

  lemma ListedBases(L: Layout, T: Trail, m: seq<Word>, lists: map<int, seq<int>>, home: map<int, int>)
    requires ThreadsOk(L, T, m) && ListsOk(L, T, lists, home)
    ensures forall b :: b in home ==> L.Base(b)
  {
    hide RingsOk, ListsOk;
    forall b | b in home ensures L.Base(b) {
      ListedArray(L, T, lists, home, b);
    }
  }

  /** Between collections everything is as a collection needs it. */
  lemma Starts(L: Layout, A: Ages, T: Trail, lists: map<int, seq<int>>, home: map<int, int>, S: Setting)
    requires HeapOk(L, A, home, {}) && Untouched(T) && ThreadsOk(L, T, L.m0) && ListsOk(L, T, lists, home)
    requires Chosen(L, A, home, S)
    ensures S.Ready() && Inv(S.L, T, S.L.m0) && ListsOk(S.L, T, lists, home) && AllSound(S.L) && AreasOk(S.L, A)
    ensures Entered(S.L, home, S.Young()) && StaticsScannable(S.L, T, S.Statics())
    ensures GensScannable(S.L, S.ages, T, S.younger) && forall b :: b in S.Statics() ==> b in A.holder
  {
    SoundStarts(L, A, home, S);
    ReadyStarts(L, A, home, S);
    WordsStart(L, A, home, S);
    ChosenTypes(L, A, home, S);
    ChosenSpaces(L, A, home, S);
    ChosenEntry(L, A, home, S);
    SameTypes(L, A, home, S);
    hide Chosen, S.Ready, L.ObjectsOk, S.L.ObjectsOk, S.L.SpacesOk, S.L.WordsFit, FwdOk, WordsOk, BasesMarked,
      EntriesMarked, ThreadsOk, FrameOk, ReachOk, AreasOk, GenAt, Collectable, HoldsValue, S.SetsOut, Entered,
      WeakUntouched, OldElementsOk, ListsOk, Separate, SoundHeap, Filled, Orderly, StaticsScannable, GensScannable;
    ObjectsStart(L, S.L);
    ThreadsStart(L, S.L, T, L.m0, lists, home);
    NothingCopied(S.L, T);
    AreasSame(L, S.L, A);
    ListedBases(S.L, T, L.m0, lists, home);
    AllScannable(S, T);
  }

  // ---- A collection leaves the heap as it has to be ----

  lemma HeadsAgain(S: Setting, T: Trail, m: seq<Word>, marked: set<int>)
    requires S.L.ObjectsOk() && S.L.SpacesOk() && FwdOk(S.L, T) && |m| == |S.L.m0|
    ensures Separate(After(S, T, m, marked))
  {
    hide S.L.ObjectsOk, S.L.SpacesOk, After, InverseOk, WholeOk;
    var N := After(S, T, m, marked);
    forall e, x | N.HeadWord(e, x) ensures 0 < x < |N.m0| && x !in N.own && x !in N.roots && (x in N.heads ==> x == e) {
      HeadAgain(S, T, m, marked, e, x);
    }
    forall a | a in N.own ensures a !in N.roots && N.Type(a) == N.Type(N.own[a]) {
      PlaceAgain(S, T, m, marked, a);
    }
  }

  lemma HeadAgain(S: Setting, T: Trail, m: seq<Word>, marked: set<int>, e: int, x: int)
    requires S.L.ObjectsOk() && S.L.SpacesOk() && FwdOk(S.L, T) && |m| == |S.L.m0|
    requires After(S, T, m, marked).HeadWord(e, x)
    ensures var N := After(S, T, m, marked);
            0 < x < |N.m0| && x !in N.own && x !in N.roots && (x in N.heads ==> x == e)
  {
    hide S.L.ObjectsOk, S.L.SpacesOk, After, InverseOk, WholeOk;
    AfterSame(S, T, m, marked);
    AfterRoots(S, T, m, marked);
    HeadPlace(S.L, e, x);
    if x in After(S, T, m, marked).own {
      OldWord(S, T, m, marked, x);
      UsedBound(S.L, T);
    }
  }

  lemma PlaceAgain(S: Setting, T: Trail, m: seq<Word>, marked: set<int>, a: int)
    requires S.L.ObjectsOk() && S.L.SpacesOk() && FwdOk(S.L, T) && a in After(S, T, m, marked).own
    ensures var N := After(S, T, m, marked); a !in N.roots && N.Type(a) == N.Type(N.own[a])
  {
    hide S.L.ObjectsOk, S.L.SpacesOk, After, InverseOk, WholeOk;
    AfterSame(S, T, m, marked);
    AfterRoots(S, T, m, marked);
    OldWord(S, T, m, marked, a);
    OnePlace(S.L, T, Org(T, a));
  }

  lemma OnePlace(L: Layout, T: Trail, a: int)
    requires L.ObjectsOk() && L.SpacesOk() && FwdOk(L, T) && a in L.own
    ensures T.Cur(a) !in L.roots && L.Type(T.Cur(a)) == L.Type(T.Cur(L.own[a]))
  {
    CopyTogether(L, T, a);
    SameSpace(L, a);
    UsedBound(L, T);
  }

  lemma AfterRoots(S: Setting, T: Trail, m: seq<Word>, marked: set<int>)
    ensures After(S, T, m, marked).roots == S.L.roots
  {
  }

  lemma HeadPlace(L: Layout, e: int, x: int)
    requires L.SpacesOk() && L.HeadWord(e, x)
    ensures 0 < x < |L.m0| && x !in L.own && x !in L.roots && !(L.start <= x < L.limit) && (x in L.heads ==> x == e)
  {
  }

  lemma SoundAfter(S: Setting, T: Trail, m: seq<Word>, marked: set<int>)
    requires SoundHeap(Next(S.L, T, m, marked))
    ensures SoundHeap(After(S, T, m, marked))
  {
    var N0, N := Next(S.L, T, m, marked), After(S, T, m, marked);
    AfterSame(S, T, m, marked);
    NextTypes(S.L, T, m, marked);
    AfterTypes(S, T, m, marked);
    hide Next, After, Sound, HoldsValue, Collectable;
    forall x {:trigger HoldsValue(N, x)} | HoldsValue(N, x) ensures Sound(N, N.Was(x)) {
      NextHolds(S, T, m, marked, x);
      SoundSame(N0, N, N0.Was(x));
    }
  }

  lemma AfterTypes(S: Setting, T: Trail, m: seq<Word>, marked: set<int>)
    ensures After(S, T, m, marked).m0 == Next(S.L, T, m, marked).m0
    ensures forall w :: Collectable(After(S, T, m, marked), w) <==> Collectable(Next(S.L, T, m, marked), w)
  {
    hide LiveWord;
  }

  lemma FixedValue(L: Layout, T: Trail, w0: Word, w: Word)
    requires IsFixed(L, T, w0, w) && L.ValueOk(w0)
    ensures IsValue(w)
  {
  }

  lemma WeakValue(L: Layout, T: Trail, marked: set<int>, w: Word)
    requires L.ValueOk(w)
    ensures IsValue(WeakResult(L, T, marked, w))
  {
  }

  /** Words that should hold values or links do. */
  lemma WordFilled(S: Setting, T: Trail, m: seq<Word>, tidy: seq<Word>, marked: set<int>, dropped: set<int>, x: int)
    requires Preserved(S, T, m, marked) && LinksLeft(S.L, T, dropped, m, tidy, marked)
    requires x in After(S, T, m, marked).own
    ensures var N := After(S, T, m, marked);
            (HoldsValue(N, x) ==> IsValue(N.Was(x))) && (N.Role(x) == Link || N.Role(x) == Pad ==> N.Was(x).Imm?)
  {
    hide S.L.ObjectsOk, S.L.SpacesOk, S.L.WordsFit, FwdOk, LinksLeft, Preserved, After, Next, WeakResult, IsFixed,
      RingsOk;
    LinkedCore(S.L, T, dropped, m, tidy, marked);
    AfterSame(S, T, m, marked);
    OldWord(S, T, m, marked, x);
    var a := Org(T, x);
    SameRoleAfter(S, T, m, marked, x);
    if S.L.Role(a) == Slot {
      CellPreserved(S, T, m, marked, a);
      SlotValue(S.L, a);
      FixedValue(S.L, T, S.L.Was(a), At(m, x));
    } else if S.L.Role(a) == WeakSlot {
      WeakPreserved(S, T, m, marked, a);
      SlotValue(S.L, a);
      WeakValue(S.L, T, marked, S.L.Was(a));
    } else if S.L.Role(a) == Link {
      LinkFilled(S, T, m, tidy, marked, dropped, a);
    } else if S.L.Role(a) == Pad {
      PadFilled(S, T, m, marked, a);
    }
  }

  lemma SameRoleAfter(S: Setting, T: Trail, m: seq<Word>, marked: set<int>, x: int)
    requires Preserved(S, T, m, marked) && S.L.ObjectsOk() && S.L.SpacesOk() && x in After(S, T, m, marked).own
    ensures Org(T, x) in S.L.own && After(S, T, m, marked).Role(x) == S.L.Role(Org(T, x))
  {
    hide S.L.ObjectsOk, S.L.SpacesOk, InverseOk, WholeOk, Preserved, Next;
    PreservedFwd(S, T, m, marked);
    NextOrg(S.L, T, m, marked, x);
    SameRole(S, T, m, marked, Org(T, x));
    NextMemory(S.L, T, m, marked);
  }

  lemma PadFilled(S: Setting, T: Trail, m: seq<Word>, marked: set<int>, a: int)
    requires Preserved(S, T, m, marked) && S.L.WordsFit() && a in S.L.own && S.L.Role(a) == Pad
    ensures At(m, T.Cur(a)).Imm?
  {
  }

  lemma LinkFilled(S: Setting, T: Trail, m: seq<Word>, tidy: seq<Word>, marked: set<int>, dropped: set<int>, a: int)
    requires LinksLeft(S.L, T, dropped, m, tidy, marked) && a in S.L.own && S.L.Role(a) == Link
    requires Alive(S.L, T, marked, S.L.own[a])
    ensures At(m, T.Cur(a)).Imm?
  {
    hide S.L.ObjectsOk, S.L.SpacesOk, S.L.WordsFit, FwdOk, RingsOk, AllDoomed, LinkAmong, Core;
    LinkedCore(S.L, T, dropped, m, tidy, marked);
    var b := S.L.own[a];
    LinkOffset(S.L, a);
    ArrayNode(S.L, b);
    NodeCur(S.L, T, b, a - b);
    NotAmong(S.L, T, dropped, m, tidy, marked, b, a - b);
    CoreLink(S.L, T, tidy, a);
    assert At(m, T.Cur(a)) == At(tidy, T.Cur(a));
  }

  lemma LinkOffset(L: Layout, a: int)
    requires L.ObjectsOk() && a in L.own && L.Role(a) == Link
    ensures L.Base(L.own[a]) && IsArray(L.Was(L.own[a])) && (a - L.own[a] == 1 || a - L.own[a] == 2)
  {
    assert L.Within(L.own[a], a);
  }

  lemma CoreLink(L: Layout, T: Trail, m: seq<Word>, a: int)
    requires Core(L, T, m) && a in L.own && L.Role(a) == Link
    ensures At(m, T.Cur(a)).Imm?
  {
    hide L.ObjectsOk, L.SpacesOk, L.WordsFit, FwdOk, RingsOk, BasesMarked, EntriesMarked, ThreadsOk, FrameOk, ReachOk;
  }

  lemma RootsAfter(S: Setting, T: Trail, m: seq<Word>, marked: set<int>, home: map<int, int>)
    requires Finished(S, T, m, marked, home) && SoundHeap(S.L) && forall a :: a in S.L.roots ==> Sound(S.L, S.L.Was(a))
    ensures SoundHeap(After(S, T, m, marked))
    ensures forall a :: a in S.L.roots ==> IsValue(At(m, a)) && Sound(After(S, T, m, marked), At(m, a))
  {
    hide S.Ready, S.L.ObjectsOk, S.L.SpacesOk, InverseOk, WholeOk, Preserved, Remembers, After, Next, Sound, SoundHeap,
      Collectable, IsFixed, S.L.ValueOk;
    FinishedParts(S, T, m, marked, home);
    SoundAgain(S, T, m, marked);
    SoundAfter(S, T, m, marked);
    forall a | a in S.L.roots ensures IsValue(At(m, a)) && Sound(After(S, T, m, marked), At(m, a)) {
      RootStays(S.L, T, a);
      CellPreserved(S, T, m, marked, a);
      FixedValue(S.L, T, S.L.Was(a), At(m, a));
      AfterSame(S, T, m, marked);
      AfterTypes(S, T, m, marked);
      SoundSame(Next(S.L, T, m, marked), After(S, T, m, marked), At(m, a));
    }
  }

  /** After the collection the heap is as it has to be between collections. */
  lemma GoesOn(S: Setting, T: Trail, m: seq<Word>, tidy: seq<Word>, marked: set<int>, dropped: set<int>,
               home: map<int, int>)
    requires Finished(S, T, m, marked, home) && LinksLeft(S.L, T, dropped, m, tidy, marked)
    requires SoundHeap(S.L) && AreasOk(S.L, S.before) && forall a :: a in S.L.roots ==> Sound(S.L, S.L.Was(a))
    ensures HeapOk(After(S, T, m, marked), AgesAfter(S, marked, S.L.start + T.used), HomesAfter(S, T, m, marked, home),
            {})
  {
    hide S.Ready, S.L.ObjectsOk, S.L.SpacesOk, S.L.WordsFit, FwdOk, LinksLeft, Preserved, Remembers, After, AgesAfter,
      HomesAfter, Sound, SoundHeap, Orderly, AreasOk, HoldsValue, Separate, Finished, Next;
    var N := After(S, T, m, marked);
    FinishedParts(S, T, m, marked, home);
    ObjectsAgain(S, T, m, marked);
    AfterSame(S, T, m, marked);
    AfterTypes(S, T, m, marked);
    AfterRoots(S, T, m, marked);
    ObjectsStart(Next(S.L, T, m, marked), N);
    HeadsAgain(S, T, m, marked);
    RootsAfter(S, T, m, marked, home);
    OrderlyAgain(S, T, m, marked, home);
    AreasAgain(S, T, m, marked, home);
    forall x | x in N.own
      ensures (HoldsValue(N, x) ==> IsValue(N.Was(x))) && (N.Role(x) == Link || N.Role(x) == Pad ==> N.Was(x).Imm?)
    {
      WordFilled(S, T, m, tidy, marked, dropped, x);
    }
    forall x {:trigger HoldsValue(N, x)} | HoldsValue(N, x) ensures IsValue(N.Was(x)) {
      HoldsOwned(N, x);
    }
  }

  // ---- One collection after another ----

  /** What the setting of a collection that can start says once and for all. */
  ghost predicate SettingOk(S: Setting) {
    && S.Ready() && S.L.WellFormed() && S.to in S.ages.gens && S.ages.gens[S.to].top == S.L.start
    && (forall b :: b in S.Statics() ==> S.L.Type(b) == MlStatic)
  }

  lemma CollectibleSetting(c: C.Collector, S: Setting)
    requires c.Collectible(S)
    ensures SettingOk(S) && |c.mem[..]| == |S.L.m0|
  {
    hide S.L.ObjectsOk, S.L.SpacesOk, S.L.WordsFit, Entered, GensScannable, Core;
    ReadyGens(S);
    InvParts(S.L, c.T, c.mem[..]);
    InvCore(S.L, c.T, c.mem[..]);
    CoreFits(S.L, c.T, c.mem[..]);
    CoreRings(S.L, c.T, c.mem[..]);
    hide S.Ready;
    forall b | b in S.Statics() ensures S.L.Type(b) == MlStatic {
      assert StaticScannable(S.L, c.T, b);
    }
  }

  lemma CollectedFinished(c: C.Collector, S: Setting)
    requires c.Collected(S) && SettingOk(S) && |c.mem[..]| == |S.L.m0|
    ensures Finished(S, c.T, c.mem[..], c.marked, c.home) && LinksLeft(S.L, c.T, c.dropped, c.mem[..], c.tidy, c.marked)
    ensures ListsOk(S.L, c.T, c.lists, c.home) && LeftAre(S, c.T, c.marked, c.home)
  {
    hide S.Ready, S.L.ObjectsOk, S.L.SpacesOk, S.L.WordsFit, Core, ListsOk, Preserved, Remembers, Agree, AllDoomed,
      Doomed, Stranded, AgeingOk;
    ReadyParts(S);
    AgeingAges(S.L, S.ages, S.from, S.to);
    HomesAreGens(S.L, S.ages, c.T, c.lists, c.home);
  }

  /** The heap is in order after the collection. Its entry lists can be followed if and only if no array was
      stranded, in which case they are those left by the collection, at the new places of their arrays. */
  ghost predicate Again(S: Setting, T: Trail, m: seq<Word>, marked: set<int>, ages: Ages, lists: map<int, seq<int>>,
                        home: map<int, int>) {
    var N, homes, T1, lists1 :=
      After(S, T, m, marked), HomesAfter(S, T, m, marked, home), Fresh(T), ListsAfter(T, lists);
    && N.m0 == m && HeapOk(N, ages, homes, {}) && Untouched(T1)
    && (InOrder(N, m) <==> !SomeStranded(S))
    && (!SomeStranded(S) ==> ThreadsOk(N, T1, m) && ListsOk(N, T1, lists1, homes))
  }

  lemma FinishedAgain(S: Setting, T: Trail, m: seq<Word>, tidy: seq<Word>, marked: set<int>, dropped: set<int>,
                      lists: map<int, seq<int>>,
                      home: map<int, int>)
    requires Finished(S, T, m, marked, home) && LinksLeft(S.L, T, dropped, m, tidy, marked) && AllSound(S.L)
    requires AreasOk(S.L, S.before)
    requires ListsOk(S.L, T, lists, home) && LeftAre(S, T, marked, home)
    ensures Again(S, T, m, marked, AgesAfter(S, marked, S.L.start + T.used), lists, home)
  {
    hide S.Ready, Core, ListsOk, SoundHeap, Sound, Finished, LinksLeft, LeftAre, ThreadsOk, SomeStranded, InOrder,
      HeapOk, After, HomesAfter, AreasOk,
      Fresh, ListsAfter, AgesAfter, Preserved, Remembers, Untouched;
    FinishedParts(S, T, m, marked, home);
    GoesOn(S, T, m, tidy, marked, dropped, home);
    InOrderIffNoneStranded(S, T, m, tidy, marked, dropped, lists, home);
    AfterSame(S, T, m, marked);
    FreshUntouched(T);
  }

  lemma CollectedAgain(c: C.Collector, S: Setting)
    requires c.Collected(S) && SettingOk(S) && AllSound(S.L) && AreasOk(S.L, S.before)
    requires c.ages == AgesAfter(S, c.marked, S.L.start + c.T.used)
    ensures Again(S, c.T, c.mem[..], c.marked, c.ages, c.lists, c.home)
  {
    hide S.Ready, ListsOk, AllSound, Finished, LinksLeft, LeftAre, C.Collector.Collected, SettingOk, AgesAfter, Again,
      AreasOk;
    SameLength(c, S);
    CollectedFinished(c, S);
    FinishedAgain(S, c.T, c.mem[..], c.tidy, c.marked, c.dropped, c.lists, c.home);
  }

  /** The heap is at rest: in order, with nothing copied, marked or in from-space. */
  ghost predicate AtRest(c: C.Collector)
    reads c, c.mem
  {
    && c.L.m0 == c.mem[..] && HeapOk(c.L, c.ages, c.home, {}) && Untouched(c.T)
    && ThreadsOk(c.L, c.T, c.mem[..]) && ListsOk(c.L, c.T, c.lists, c.home)
    && c.marked == {} && forall a :: c.L.Type(a) == TypeOf(c.spaceType, a) && c.L.Type(a) != From
  }

  lemma ChosenSpace(L: Layout, A: Ages, home: map<int, int>, S: Setting, types: map<int, SpaceType>)
    requires Chosen(L, A, home, S) && forall a :: L.Type(a) == TypeOf(types, a)
    ensures forall a :: S.L.Type(a) == TypeOf(types[A.gens[S.from].space := From], a)
    ensures forall a :: (if S.L.Type(a) == From then MlHeap else S.L.Type(a)) ==
                        TypeOf(types[A.gens[S.from].space := MlHeap], a)
  {
    hide S.L.SpacesOk, AgeingOk, ChainOk, S.SetsOut, TableCells;
  }

  /** From a heap at rest every collection can start. */
  ghost method Choose(c: C.Collector, S: Setting)
    requires AtRest(c) && Chosen(c.L, c.ages, c.home, S)
    modifies c`L
    ensures c.Collectible(S) && AllSound(S.L) && AreasOk(S.L, S.before)
  {
    hide HeapOk, Untouched, ThreadsOk, ListsOk, Chosen, S.Ready, Inv, AllSound, AreasOk, Entered, StaticsScannable,
      GensScannable;
    Starts(c.L, c.ages, c.T, c.lists, c.home, S);
    ChosenTypes(c.L, c.ages, c.home, S);
    ChosenEntry(c.L, c.ages, c.home, S);
    ChosenSpace(c.L, c.ages, c.home, S, c.spaceType);
    UntouchedUsed(c.T);
    c.L := S.L;
  }

  lemma UntouchedUsed(T: Trail)
    requires Untouched(T)
    ensures T.used == 0
  {
  }

  lemma RestTypes(c: C.Collector, S: Setting)
    requires AtRest(c) && Chosen(c.L, c.ages, c.home, S)
    ensures S.from in c.ages.gens && S.L.m0 == c.mem[..]
    ensures forall a :: (if S.L.Type(a) == From then MlHeap else S.L.Type(a)) ==
                        TypeOf(c.spaceType[c.ages.gens[S.from].space := MlHeap], a)
  {
    hide HeapOk, Untouched, ThreadsOk, ListsOk, Chosen;
    ChosenTypes(c.L, c.ages, c.home, S);
    ChosenEntry(c.L, c.ages, c.home, S);
    ChosenSpace(c.L, c.ages, c.home, S, c.spaceType);
  }

  lemma RootsEnter(c: C.Collector, S: Setting, table: array<Entry>)
    requires AtRest(c) && Chosen(c.L, c.ages, c.home, S) && S.table == table[..]
    ensures forall i :: 0 <= i < table.Length && table[i].Root? ==>
              table[i].root in S.L.roots && table[i].root in S.L.entry
  {
    hide HeapOk, ThreadsOk, ListsOk, S.L.SpacesOk, AgeingOk, ChainOk;
    forall i | 0 <= i < table.Length && table[i].Root?
      ensures table[i].root in S.L.roots && table[i].root in S.L.entry
    {
      assert table[i] in table[..];
      assert table[i].root in TableCells(S.table, true);
      assert S.SetsOut(table[i].root) && S.L.Cell(table[i].root);
    }
  }

  /** The heap comes to rest after a collection that stranded nothing: its layout is that of the new places, and what
      was freed is gone. */
  method Settle(c: C.Collector, ghost S: Setting)
    requires Again(S, c.T, c.mem[..], c.marked, c.ages, c.lists, c.home)
    requires forall a :: (if S.L.Type(a) == From then MlHeap else S.L.Type(a)) == TypeOf(c.spaceType, a)
    modifies c
    ensures !SomeStranded(S) ==> AtRest(c)
    ensures c.ages == old(c.ages) && c.L == After(S, old(c.T), c.mem[..], old(c.marked))
    ensures c.home == HomesAfter(S, old(c.T), c.mem[..], old(c.marked), old(c.home))
    ensures c.T == Fresh(old(c.T)) && c.lists == ListsAfter(old(c.T), old(c.lists))
    ensures c.mem[..] == old(c.mem[..])
  {
    hide HeapOk, Untouched, ThreadsOk, ListsOk, After, HomesAfter, Fresh, ListsAfter, InOrder, SomeStranded;
    AfterSame(S, c.T, c.mem[..], c.marked);
    ghost var T0 := c.T;
    c.home := HomesAfter(S, T0, c.mem[..], c.marked, c.home);
    c.lists := ListsAfter(T0, c.lists);
    c.L := After(S, T0, c.mem[..], c.marked);
    c.T := Fresh(T0);
    c.marked := {};
  }

  /** Collects one generation of a heap that is in order, after which the heap is in order again. */
  method Collect(c: C.Collector, from: int, to: int, creation: int, table: array<Entry>, ghost S: Setting,
                 ghost all: seq<int>)
    returns (freed: seq<int>, lost: bool)
    requires c.Collectible(S) && S.from == from && S.to == to && S.table == table[..] && c.RootsFixable(table)
    requires ParentsOk(c.ages, creation, all) && SweptOk(S, all) && AllSound(S.L) && AreasOk(S.L, S.before)
    modifies c, c.mem
    ensures lost <==> !OnTime(S, old(c.lists))
    ensures !lost ==> c.Collected(S) && Again(S, c.T, c.mem[..], c.marked, c.ages, c.lists, c.home)
    ensures !lost ==> WeakFates(S, c.T, c.mem[..]) && SharedWithWeak(S, c.T, c.mem[..], c.marked)
    ensures !lost ==> c.ages == AgesAfter(S, c.marked, S.L.start + c.T.used)
    ensures !lost ==>
              S.from in old(c.ages).gens && c.spaceType == old(c.spaceType)[old(c.ages).gens[from].space := MlHeap]
    ensures !lost ==> forall b :: b in freed <==> b in S.Statics() && !S.L.Mentioned(b)
  {
    hide ParentsOk, SweptOk, Stranded, S.L.Mentioned, C.Collector.Collectible, C.Collector.Collected, SettingOk,
      AgesAfter, Again, AllSound, AreasOk, OnTime, WeakFates, SharedWithWeak;
    CollectibleSetting(c, S);
    CollectibleAges(c, S);
    freed, lost := c.CollectGen(from, to, creation, table, S, all);
    if !lost {
      SameLength(c, S);
      CollectedMarks(c, S);
      CollectedAgain(c, S);
    }
  }

  /** Collects one generation of a heap at rest. */
  method CollectRested(c: C.Collector, from: int, to: int, creation: int, table: array<Entry>, ghost S: Setting,
                       ghost all: seq<int>)
    returns (freed: seq<int>, lost: bool)
    requires AtRest(c) && Chosen(c.L, c.ages, c.home, S)
    requires S.from == from && S.to == to && S.table == table[..] && ParentsOk(c.ages, creation, all) && SweptOk(S, all)
    modifies c, c.mem
    ensures lost <==> !OnTime(S, old(c.lists))
    ensures !lost ==> c.Collected(S) && Again(S, c.T, c.mem[..], c.marked, c.ages, c.lists, c.home)
    ensures !lost ==> WeakFates(S, c.T, c.mem[..]) && SharedWithWeak(S, c.T, c.mem[..], c.marked)
    ensures !lost ==> c.ages == AgesAfter(S, c.marked, S.L.start + c.T.used)
    ensures !lost ==> forall b :: b in freed <==> b in S.Statics() && !S.L.Mentioned(b)
    ensures !lost ==> forall a :: (if S.L.Type(a) == From then MlHeap else S.L.Type(a)) == TypeOf(c.spaceType, a)
  {
    hide ParentsOk, SweptOk, AtRest, Chosen, C.Collector.Collectible, C.Collector.Collected, AgesAfter, Again, AllSound,
      AreasOk, OnTime, S.L.Mentioned, TypeOf, WeakFates, SharedWithWeak;
    RootsEnter(c, S, table);
    RestTypes(c, S);
    Choose(c, S);
    CollectibleAges(c, S);
    freed, lost := Collect(c, from, to, creation, table, S, all);
  }

  /** Collects one generation of a heap at rest. Either a walk along an entry list is lost, which can be told before, or
      the heap is in order again afterwards, and at rest unless an array was stranded. `T1` tells where objects went,
      `marked1` what was freed, `lists1` and `home1` how arrays are listed. */
  method CollectOnce(c: C.Collector, from: int, to: int, creation: int, table: array<Entry>, ghost S: Setting,
                     ghost all: seq<int>)
    returns (freed: seq<int>, lost: bool, ghost T1: Trail, ghost marked1: set<int>, ghost lists1: map<int, seq<int>>,
             ghost home1: map<int, int>)
    requires AtRest(c) && Chosen(c.L, c.ages, c.home, S)
    requires S.from == from && S.to == to && S.table == table[..] && ParentsOk(c.ages, creation, all) && SweptOk(S, all)
    modifies c, c.mem
    ensures lost <==> !OnTime(S, old(c.lists))
    ensures !lost ==> Preserved(S, T1, c.mem[..], marked1) && Remembers(S, T1, c.mem[..], marked1, home1)
    ensures !lost ==> WeakFates(S, T1, c.mem[..]) && SharedWithWeak(S, T1, c.mem[..], marked1)
    ensures !lost ==> AllListedExactly(S, T1, c.mem[..], marked1, home1)
    ensures !lost ==> Again(S, T1, c.mem[..], marked1, c.ages, lists1, home1)
    ensures !lost ==> c.ages == AgesAfter(S, marked1, S.L.start + T1.used)
    ensures !lost ==> forall b :: b in freed <==> b in S.Statics() && !S.L.Mentioned(b)
    ensures !lost && !SomeStranded(S) ==> AtRest(c)
    ensures !lost ==> c.L == After(S, T1, c.mem[..], marked1) && c.lists == ListsAfter(T1, lists1)
    ensures !lost ==> c.home == HomesAfter(S, T1, c.mem[..], marked1, home1)
  {
    hide ParentsOk, SweptOk, SomeStranded, AtRest, Chosen, C.Collector.Collected, AgesAfter, Again, After, HomesAfter,
      ListsAfter, OnTime, S.L.Mentioned, Preserved, Remembers, TypeOf, WeakFates, SharedWithWeak,
      AllListedExactly;
    freed, lost := CollectRested(c, from, to, creation, table, S, all);
    T1, marked1, lists1, home1 := c.T, c.marked, c.lists, c.home;
    if !lost {
      CollectedKeeps(c, S);
      AllFiledExactly(S, c.T, c.mem[..], c.marked, c.home);
      Settle(c, S);
    }
  }

  lemma CollectibleAges(c: C.Collector, S: Setting)
    requires c.Collectible(S)
    ensures S.L == c.L && S.before == c.ages
  {
  }

  lemma SameLength(c: C.Collector, S: Setting)
    requires c.Collected(S)
    ensures |c.mem[..]| == |S.L.m0| && S.L == c.L
  {
    hide Core, ListsOk, Preserved, Remembers, AllDoomed, Doomed, Stranded;
    CoreRings(S.L, c.T, c.tidy);
  }

  lemma CollectedMarks(c: C.Collector, S: Setting)
    requires c.Collected(S)
    ensures forall b :: b in S.Statics() ==> (b in c.marked <==> !S.L.Mentioned(b))
  {
    hide Core, ListsOk, Preserved, Remembers, AllDoomed, Doomed, Stranded, Agree;
  }

  lemma CollectedKeeps(c: C.Collector, S: Setting)
    requires c.Collected(S)
    ensures Preserved(S, c.T, c.mem[..], c.marked) && Remembers(S, c.T, c.mem[..], c.marked, c.home)
  {
    hide Core, ListsOk, Preserved, Remembers, AllDoomed, Doomed, Stranded, Agree;
  }

  lemma FreshUntouched(T: Trail)
    ensures Untouched(Fresh(T))
  {
  }
}
