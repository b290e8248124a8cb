/** The heap between collections: what a collection finds it leaves behind for the next one. */
module Steady {
  import opened Heap
  import opened Copying
  import opened Moving
  import opened Scanning
  import opened EntryLists
  import opened Remembered
  import opened Weak
  import opened Sweeping
  import opened Survival
  import opened Outcome
  import opened Aftermath

  // ---- The state after a collection ----

  /** The layout without a from-space. */
  ghost function NoFrom(L: Layout): Layout {
    L.(typ := a => if L.typ(a) == From then MlHeap else L.typ(a))
  }

  ghost function After(S: Setting, T: Trail, m: seq<Word>, marked: set<int>): Layout {
    NoFrom(Next(S.L, T, m, marked))
  }

  /** The generations after the collection: `from` is empty, what survived belongs to `to`. */
  ghost function AgesAfter(S: Setting, marked: set<int>, top: int): Ages {
    if S.to in S.ages.gens && S.from in S.ages.gens then
      var G := S.ages.gens;
      var target := G[S.to].(top := top, statics := Adopt(S.Statics(), marked, G[S.to].statics));
      S.ages.(gens := G[S.to := target][S.from := G[S.from].(top := G[S.from].start, statics := [])])
    else S.ages
  }

  /** The list each array is on, by the array's new place. */
  ghost function HomesAfter(S: Setting, T: Trail, m: seq<Word>, marked: set<int>, home: map<int, int>): map<int, int> {
    var N := After(S, T, m, marked);
    map x | x in N.own && N.own[x] == x && Org(T, x) in home :: home[Org(T, x)]
  }

  /** What is known when a collection is over. */
  ghost predicate Finished(S: Setting, T: Trail, m: seq<Word>, marked: set<int>, home: map<int, int>) {
    && S.Ready() && S.L.WellFormed() && Preserved(S, T, m, marked) && Remembers(S, T, m, marked, home)
    && |m| == |S.L.m0| && marked <= Elements(S.Statics()) && (forall b :: b in S.Statics() ==> S.L.Type(b) == MlStatic)
    && S.to in S.ages.gens && S.ages.gens[S.to].top == S.L.start
    && (forall b :: b in home ==> home[b] in S.ages.gens)
  }

  lemma FinishedParts(S: Setting, T: Trail, m: seq<Word>, marked: set<int>, home: map<int, int>)
    requires Finished(S, T, m, marked, home)
    ensures S.Ready() && S.L.ObjectsOk() && S.L.SpacesOk() && FwdOk(S.L, T) && Preserved(S, T, m, marked)
    ensures |m| == |S.L.m0| && (forall b :: b in marked ==> S.L.Type(b) == MlStatic && b in S.Statics())
    ensures S.from in S.ages.gens && S.to in S.ages.gens && S.from != S.to && S.ages.gens == S.before.gens
  {
    hide S.Ready, S.L.ObjectsOk, S.L.SpacesOk, S.L.WordsFit;
    ReadyGens(S);
    PreservedFwd(S, T, m, marked);
  }

  lemma AgesAfterKeys(S: Setting, marked: set<int>, top: int)
    requires S.to in S.ages.gens && S.from in S.ages.gens && S.from != S.to
    ensures var A := AgesAfter(S, marked, top);
            A.gens.Keys == S.ages.gens.Keys && A.space == S.ages.space && A.holder == S.ages.holder && forall g ::
              A.Number(g) == S.ages.Number(g)
  {
  }

  lemma AfterSame(S: Setting, T: Trail, m: seq<Word>, marked: set<int>)
    ensures var N, N1 := Next(S.L, T, m, marked), After(S, T, m, marked);
            N1.own == N.own && N1.m0 == m && N1.tag == N.tag && N1.heads == S.L.heads && N1.start == S.L.start &&
              N1.limit == S.L.limit
    ensures var N := After(S, T, m, marked);
            forall a :: N.Type(a) == (if S.L.Type(a) == From then MlHeap else S.L.Type(a))
  {
  }

  /** Whose word a word of the heap after the collection is. */
  lemma OldWord(S: Setting, T: Trail, m: seq<Word>, marked: set<int>, x: int)
    requires S.L.ObjectsOk() && S.L.SpacesOk() && FwdOk(S.L, T) && x in After(S, T, m, marked).own
    ensures var N, a := After(S, T, m, marked), Org(T, x);
            && a in S.L.own && T.Cur(a) == x && Alive(S.L, T, marked, S.L.own[a]) && N.own[x] == T.Cur(S.L.own[a])
            && (if S.L.own[a] in T.fw
                then a in T.fw && S.L.start <= x < S.L.start + T.used && S.L.Type(S.L.own[a]) == From
                else x == a && N.own[x] == S.L.own[a] && S.L.Type(S.L.own[a]) != From)
            && (N.Base(x) <==> S.L.Base(a))
  {
    hide S.L.ObjectsOk, S.L.SpacesOk;
    NextOrg(S.L, T, m, marked, x);
    var a := Org(T, x);
    OwnBase(S.L, a);
    CopyTogether(S.L, T, a);
    BothPlaces(S.L, T, a);
  }

  lemma BothPlaces(L: Layout, T: Trail, a: int)
    requires L.ObjectsOk() && L.SpacesOk() && FwdOk(L, T) && a in L.own
    ensures T.Cur(L.own[a]) == T.Cur(a) <==> L.own[a] == a
    ensures L.own[a] in T.fw <==> a in T.fw
    ensures a in T.fw ==> L.start <= T.Cur(a) < L.start + T.used && L.Type(L.own[a]) == From
  {
  }

  // ---- Generations ----

  /** An object that is alive belongs to the generation it was collected into or stayed in. */
  lemma OwnerAfter(S: Setting, T: Trail, m: seq<Word>, marked: set<int>, top: int, x: int)
    requires S.Ready() && S.L.ObjectsOk() && S.L.SpacesOk() && FwdOk(S.L, T) && x in After(S, T, m, marked).own
    requires S.to in S.ages.gens && S.from in S.ages.gens && S.from != S.to
    ensures var N, A, b := After(S, T, m, marked), AgesAfter(S, marked, top), S.L.own[Org(T, x)];
            GenAt(N, A, N.own[x]) == Owner(S.L, S.ages, S.to, b)
  {
    hide S.Ready, S.L.ObjectsOk, S.L.SpacesOk, After, AgesAfter, InverseOk, WholeOk;
    var N := After(S, T, m, marked);
    OldWord(S, T, m, marked, x);
    var b := S.L.own[Org(T, x)];
    OwnBase(S.L, Org(T, x));
    AfterSame(S, T, m, marked);
    AgesAfterKeys(S, marked, top);
    if b in T.fw {
      ToSpaceGen(S, T, b);
    } else {
      NextWord(S.L, T, m, marked, b);
    }
  }

  /** A word that leads to a legal target leads to the same generation as before. */
  lemma WordGenAfter(S: Setting, T: Trail, m: seq<Word>, marked: set<int>, top: int, w: Word)
    requires S.Ready() && S.L.ObjectsOk() && S.L.SpacesOk() && FwdOk(S.L, T) && Sound(Next(S.L, T, m, marked), w)
    requires S.to in S.ages.gens && S.from in S.ages.gens && S.from != S.to
    ensures var N, A := After(S, T, m, marked), AgesAfter(S, marked, top);
            (Collectable(N, w) <==> Collectable(S.L, w)) &&
            (Collectable(N, w) ==> WordGen(N, A, w) == WordGen(S.L, S.ages, w))
  {
    hide S.Ready, S.L.ObjectsOk, S.L.SpacesOk, AgesAfter, InverseOk, WholeOk, After, Next, Sound;
    AfterSame(S, T, m, marked);
    AgesAfterKeys(S, marked, top);
    NextTypes(S.L, T, m, marked);
    if Collectable(S.L, w) && S.L.Type(w.addr) == MlStatic {
      SoundOwned(Next(S.L, T, m, marked), w);
      OldWord(S, T, m, marked, w.addr);
      OwnBase(S.L, Org(T, w.addr));
      StaticPlace(S.L, T, w.addr);
      SameSpace(S.L, w.addr);
    }
  }

  lemma SoundOwned(L: Layout, w: Word)
    requires Sound(L, w) && Collectable(L, w)
    ensures w.addr in L.own
  {
  }

  lemma StaticPlace(L: Layout, T: Trail, a: int)
    requires L.SpacesOk() && InverseOk(L, T) && L.Type(a) == MlStatic
    ensures Org(T, a) == a
  {
  }

  lemma AgesAgain(S: Setting, T: Trail, m: seq<Word>, marked: set<int>, home: map<int, int>)
    requires Finished(S, T, m, marked, home)
    ensures AgesOk(After(S, T, m, marked), AgesAfter(S, marked, S.L.start + T.used))
  {
    hide S.Ready, S.L.ObjectsOk, S.L.SpacesOk, S.L.WordsFit, After, AgesAfter, InverseOk, WholeOk, Preserved, Remembers,
      AgeingOk, Next;
    var N, A := After(S, T, m, marked), AgesAfter(S, marked, S.L.start + T.used);
    FinishedParts(S, T, m, marked, home);
    AfterSame(S, T, m, marked);
    AgesAfterKeys(S, marked, S.L.start + T.used);
    ReadyParts(S);
    AgeingAges(S.L, S.ages, S.from, S.to);
    SpacesAgain(S, T, m, marked, A);
    forall b | N.Base(b)
      ensures IsHeapType(N.Type(b)) && (N.Type(b) == MlStatic ==> b in A.holder && A.holder[b] in A.gens)
    {
      BaseAgain(S, T, m, marked, b);
    }
  }

  lemma SpacesAgain(S: Setting, T: Trail, m: seq<Word>, marked: set<int>, A: Ages)
    requires AgesOk(S.L, S.ages) && A.gens.Keys == S.ages.gens.Keys && A.space == S.ages.space
    ensures A.gens.Keys == After(S, T, m, marked).heads
    ensures var N := After(S, T, m, marked); forall a :: N.Type(a) == MlHeap || N.Type(a) == From ==> SpaceKnown(A, a)
  {
    hide After, AgesOk, SpaceKnown;
    AfterSame(S, T, m, marked);
    SameKeys(S, A);
    var N := After(S, T, m, marked);
    forall a | N.Type(a) == MlHeap || N.Type(a) == From ensures SpaceKnown(A, a) {
      SpaceAgain(S, A, a);
    }
  }

  lemma SpaceAgain(S: Setting, A: Ages, a: int)
    requires AgesOk(S.L, S.ages) && A.gens.Keys == S.ages.gens.Keys && A.space == S.ages.space
    requires S.L.Type(a) == MlHeap || S.L.Type(a) == From
    ensures SpaceKnown(A, a)
  {
    SpaceGen(S.L, S.ages, a);
    SameKeys(S, A);
  }

  lemma SameKeys(S: Setting, A: Ages)
    requires AgesOk(S.L, S.ages) && A.gens.Keys == S.ages.gens.Keys
    ensures A.gens.Keys == S.L.heads
    ensures forall g :: g in A.gens <==> g in S.ages.gens
  {
    assert forall g :: g in A.gens <==> g in A.gens.Keys;
  }

  lemma BaseAgain(S: Setting, T: Trail, m: seq<Word>, marked: set<int>, b: int)
    requires S.Ready() && S.L.ObjectsOk() && S.L.SpacesOk() && FwdOk(S.L, T) && AgesOk(S.L, S.ages)
    requires After(S, T, m, marked).Base(b)
    ensures var N := After(S, T, m, marked);
            IsHeapType(N.Type(b)) && (N.Type(b) == MlStatic ==> b in S.ages.holder && S.ages.holder[b] in S.ages.gens)
  {
    hide S.Ready, S.L.ObjectsOk, S.L.SpacesOk, After, InverseOk, WholeOk;
    AfterSame(S, T, m, marked);
    OldWord(S, T, m, marked, b);
    BaseType(S, Org(T, b));
    TypeOfPlace(S.L, T, Org(T, b));
  }

  lemma TypeOfPlace(L: Layout, T: Trail, b: int)
    requires L.SpacesOk() && FwdOk(L, T) && L.Base(b)
    ensures b in T.fw ==> L.Type(T.Cur(b)) == MlHeap
  {
  }

  // ---- Where objects lie ----

  lemma PlacedAgain(S: Setting, T: Trail, m: seq<Word>, marked: set<int>, home: map<int, int>, x: int)
    requires Finished(S, T, m, marked, home) && x in After(S, T, m, marked).own
    ensures Placed(After(S, T, m, marked), AgesAfter(S, marked, S.L.start + T.used), x)
  {
    hide S.Ready, S.L.ObjectsOk, S.L.SpacesOk, S.L.WordsFit, After, InverseOk, WholeOk, Preserved, Remembers, AgeingOk,
      AgesOk, Next, Placed, AgesAfter,
      Finished, GenAt, Owner, FwdOk;
    FinishedParts(S, T, m, marked, home);
    var a := Org(T, x);
    OldWord(S, T, m, marked, x);
    OwnBase(S.L, a);
    OwnerAfter(S, T, m, marked, S.L.start + T.used, x);
    AfterSame(S, T, m, marked);
    FinishedTop(S, T, m, marked, home);
    if S.L.own[a] in T.fw {
      TypeOfPlace(S.L, T, S.L.own[a]);
      OwnerTo(S, S.L.own[a]);
      PlacedNew(S, After(S, T, m, marked), marked, S.L.start + T.used, x);
    } else {
      PlacedStays(S, a);
      OldTop(S.L, T);
      SpareStatic(S, T, marked, S.L.own[a]);
      PlacedOld(S, After(S, T, m, marked), marked, S.L.start + T.used, x, a);
    }
  }

  lemma FinishedTop(S: Setting, T: Trail, m: seq<Word>, marked: set<int>, home: map<int, int>)
    requires Finished(S, T, m, marked, home)
    ensures S.to in S.ages.gens && S.ages.gens[S.to].start <= S.ages.gens[S.to].top == S.L.start
  {
    hide S.L.ObjectsOk, S.L.SpacesOk, S.L.WordsFit, Preserved, Remembers, AgeingOk, AgesOk;
  }

  lemma OwnerTo(S: Setting, b: int)
    ensures S.L.Type(b) == From ==> Owner(S.L, S.ages, S.to, b) == S.to
  {
  }

  lemma SpareStatic(S: Setting, T: Trail, marked: set<int>, b: int)
    requires Alive(S.L, T, marked, b) && S.L.Type(b) != From
    ensures b !in marked
  {
  }

  /** A copied word is in the grown space of the target. */
  lemma PlacedNew(S: Setting, N: Layout, marked: set<int>, top: int, x: int)
    requires S.to in S.ages.gens && S.from in S.ages.gens && S.from != S.to
    requires S.ages.gens[S.to].start <= S.ages.gens[S.to].top == S.L.start
    requires x in N.own && N.Type(N.own[x]) == MlHeap && S.L.start <= x < top
    requires GenAt(N, AgesAfter(S, marked, top), N.own[x]) == S.to
    ensures Placed(N, AgesAfter(S, marked, top), x)
  {
    hide GenAt;
  }

  /** A word that stayed is where it was; static objects of `from` have joined those of the target. */
  lemma PlacedOld(S: Setting, N: Layout, marked: set<int>, top: int, x: int, a: int)
    requires S.to in S.ages.gens && S.from in S.ages.gens && S.from != S.to && S.ages.gens == S.before.gens
    requires S.ages.gens[S.to].top <= top
    requires a in S.L.own && x in N.own && x == a && N.own[x] == S.L.own[a] && N.Type(N.own[x]) == S.L.Type(S.L.own[a])
    requires S.L.own[a] !in marked
    requires var b := S.L.own[a];
             var g := GenAt(N, AgesAfter(S, marked, top), b);
             && g in S.before.gens && g != S.from
             && if S.L.Type(b) == MlStatic then (if b in S.Statics() then g == S.to else b in S.before.gens[g].statics)
                else S.L.Type(b) == MlHeap && S.before.gens[g].start <= a < S.before.gens[g].top
    ensures Placed(N, AgesAfter(S, marked, top), x)
  {
    hide GenAt;
  }

  lemma OldTop(L: Layout, T: Trail)
    requires FwdOk(L, T)
    ensures 0 <= T.used
  {
  }

  lemma ReadySpans(S: Setting)
    requires S.Ready()
    ensures forall g :: g in S.before.gens ==> S.before.gens[g].start <= S.before.gens[g].top
  {
  }

  /** The generation of an object that stays in place, unless it is a static object of `from`. */
  lemma PlacedStays(S: Setting, a: int)
    requires S.Ready() && S.L.ObjectsOk() && S.L.SpacesOk() && a in S.L.own && S.L.Type(S.L.own[a]) != From
    ensures var b := S.L.own[a];
            var g := Owner(S.L, S.ages, S.to, b);
            && g in S.before.gens && g != S.from
            && if S.L.Type(b) == MlStatic then (if b in S.Statics() then g == S.to else b in S.before.gens[g].statics)
               else S.L.Type(b) == MlHeap && S.before.gens[g].start <= a < S.before.gens[g].top
  {
    hide S.Ready, S.L.ObjectsOk, S.L.SpacesOk, AgeingOk, AgesOk;
    var b := S.L.own[a];
    OwnBase(S.L, a);
    ReadyCell(S, a);
    ReadyGens(S);
    OwnerGen(S, b);
    GenKnown(S, b);
    BaseType(S, b);
    ReadyParts(S);
    if S.L.Type(b) == MlStatic {
      StaticGen(S.L, S.before, b);
      assert b in S.Statics() <==> S.before.holder[b] == S.from;
    }
  }

  // ---- What the entry lists record ----

  lemma NotedAgain(S: Setting, T: Trail, m: seq<Word>, marked: set<int>, home: map<int, int>, x: int)
    requires Finished(S, T, m, marked, home) && SoundHeap(S.L) && HoldsValue(After(S, T, m, marked), x)
    ensures Noted(After(S, T, m, marked), AgesAfter(S, marked, S.L.start + T.used), HomesAfter(S, T, m, marked, home),
            x)
  {
    hide S.Ready, S.L.ObjectsOk, S.L.SpacesOk, S.L.WordsFit, InverseOk, WholeOk, AgeingOk, AgesOk, AgesAfter, SoundHeap,
      Preserved, Sound, After, Next, HomesAfter;
    FinishedParts(S, T, m, marked, home);
    var top := S.L.start + T.used;
    var N, A, a := After(S, T, m, marked), AgesAfter(S, marked, top), Org(T, x);
    AfterSame(S, T, m, marked);
    AgesAfterKeys(S, marked, top);
    OldWord(S, T, m, marked, x);
    NextHolds(S, T, m, marked, x);
    ValueAgain(S, T, m, marked, x);
    SameRole(S, T, m, marked, a);
    NextMemory(S.L, T, m, marked);
    WordGenAfter(S, T, m, marked, top, At(m, x));
    OwnerAfter(S, T, m, marked, top, x);
    assert HoldsValue(S.L, a) && NotedAfter(S, T, m, home, a);
    if IsArray(S.L.Was(S.L.own[a])) {
      HomeAt(S, T, m, marked, home, x);
      OwnBase(S.L, a);
      FirstWord(S, T, m, marked, S.L.own[a]);
    }
  }

  lemma NextHolds(S: Setting, T: Trail, m: seq<Word>, marked: set<int>, x: int)
    ensures HoldsValue(After(S, T, m, marked), x) <==> HoldsValue(Next(S.L, T, m, marked), x)
  {
  }

  lemma HomeAt(S: Setting, T: Trail, m: seq<Word>, marked: set<int>, home: map<int, int>, x: int)
    requires S.L.ObjectsOk() && S.L.SpacesOk() && FwdOk(S.L, T) && x in After(S, T, m, marked).own
    ensures var N, b, homes := After(S, T, m, marked), S.L.own[Org(T, x)], HomesAfter(S, T, m, marked, home);
            (N.own[x] in homes <==> b in home) && (b in home ==> homes[N.own[x]] == home[b])
  {
    hide S.L.ObjectsOk, S.L.SpacesOk, InverseOk, WholeOk, After;
    OldWord(S, T, m, marked, x);
    var b := S.L.own[Org(T, x)];
    OwnBase(S.L, Org(T, x));
    OrgCur(S.L, T, b);
    NextWord(S.L, T, m, marked, b);
    AfterSame(S, T, m, marked);
  }

  lemma WeakNotedAgain(S: Setting, T: Trail, m: seq<Word>, marked: set<int>, home: map<int, int>, x: int)
    requires Finished(S, T, m, marked, home)
    ensures WeakNoted(After(S, T, m, marked), AgesAfter(S, marked, S.L.start + T.used),
            HomesAfter(S, T, m, marked, home), x)
  {
    hide S.Ready, S.L.ObjectsOk, S.L.SpacesOk, S.L.WordsFit, InverseOk, WholeOk, AgesAfter, Preserved, After, Next,
      HomesAfter, NotedAfter, WellFiled;
    FinishedParts(S, T, m, marked, home);
    var top := S.L.start + T.used;
    var N := After(S, T, m, marked);
    AfterSame(S, T, m, marked);
    if N.Base(x) && WeakHeader(N.Was(x)) {
      AgesAfterKeys(S, marked, top);
      OldWord(S, T, m, marked, x);
      OwnerAfter(S, T, m, marked, top, x);
      HomeAt(S, T, m, marked, home, x);
      FirstWord(S, T, m, marked, Org(T, x));
    }
  }

  /** After a collection objects are where they belong, and the entry lists record what has to be recorded. */
  lemma OrderlyAgain(S: Setting, T: Trail, m: seq<Word>, marked: set<int>, home: map<int, int>)
    requires Finished(S, T, m, marked, home) && SoundHeap(S.L)
    ensures Orderly(After(S, T, m, marked), AgesAfter(S, marked, S.L.start + T.used), HomesAfter(S, T, m, marked, home),
            {})
  {
    hide S.Ready, S.L.ObjectsOk, S.L.SpacesOk, S.L.WordsFit, AgesOk, Preserved, Remembers, After, AgesAfter, HomesAfter,
      Placed, Noted, WeakNoted, SoundHeap,
      HoldsValue;
    var N, A, homes := After(S, T, m, marked), AgesAfter(S, marked, S.L.start + T.used),
      HomesAfter(S, T, m, marked, home);
    AgesAgain(S, T, m, marked, home);
    SpansAgain(S, T, m, marked, home);
    HomesAgain(S, T, m, marked, home);
    forall c | c in N.own ensures Placed(N, A, c) {
      PlacedAgain(S, T, m, marked, home, c);
    }
    forall c {:trigger HoldsValue(N, c)} | HoldsValue(N, c) ensures c in N.own && Noted(N, A, homes, c) {
      HoldsOwned(N, c);
      NotedAgain(S, T, m, marked, home, c);
    }
    forall b {:trigger WeakNoted(N, A, homes, b)} ensures WeakNoted(N, A, homes, b) {
      WeakNotedAgain(S, T, m, marked, home, b);
    }
  }

  lemma HoldsOwned(L: Layout, c: int)
    requires HoldsValue(L, c)
    ensures c in L.own
  {
  }

  lemma SpansAgain(S: Setting, T: Trail, m: seq<Word>, marked: set<int>, home: map<int, int>)
    requires Finished(S, T, m, marked, home)
    ensures var A := AgesAfter(S, marked, S.L.start + T.used);
            forall g :: g in A.gens ==> A.gens[g].start <= A.gens[g].top
  {
    hide S.Ready, S.L.ObjectsOk, S.L.SpacesOk, S.L.WordsFit, Preserved, Remembers;
    FinishedParts(S, T, m, marked, home);
    ReadySpans(S);
    OldTop(S.L, T);
  }

  lemma HomesAgain(S: Setting, T: Trail, m: seq<Word>, marked: set<int>, home: map<int, int>)
    requires Finished(S, T, m, marked, home)
    ensures var homes, A := HomesAfter(S, T, m, marked, home), AgesAfter(S, marked, S.L.start + T.used);
            forall b :: b in homes ==> homes[b] in A.gens
  {
    hide S.Ready, S.L.ObjectsOk, S.L.SpacesOk, S.L.WordsFit, Preserved, Remembers;
    FinishedParts(S, T, m, marked, home);
  }
}
