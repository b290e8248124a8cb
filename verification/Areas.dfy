/** The areas of generations between collections: from where it starts to its top each consists of whole objects of the
    generation, so that it can be scanned, and a collection leaves it so. */
module Areas {
  import opened Heap
  import opened Seqs
  import opened Copying
  import opened Moving
  import opened Scanning
  import opened EntryLists
  import opened Remembered
  import opened Survival
  import opened Outcome
  import opened Aftermath
  import opened Steady

  /** The word at `x` belongs to an object of the generation `g` that lies in the area of `g` as a whole. */
  ghost predicate Occupied(L: Layout, A: Ages, g: int, x: int)
    requires g in A.gens
  {
    && x in L.own && (L.Type(x) == MlHeap || L.Type(x) == From) && GenAt(L, A, x) == g
    && A.gens[g].start <= L.own[x] && L.own[x] + Footprint(L.Was(L.own[x])) <= A.gens[g].top
  }

  /** The static object `b` is one of the generation `g`. */
  ghost predicate Held(L: Layout, A: Ages, g: int, b: int) {
    L.Base(b) && L.Type(b) == MlStatic && b in A.holder && A.holder[b] == g
  }

  /** The area of the generation `g` starts in a space of the generation. */
  ghost predicate InOwnSpace(L: Layout, A: Ages, g: int)
    requires g in A.gens
  {
    var a := A.gens[g].start;
    (L.Type(a) == MlHeap || L.Type(a) == From) && GenAt(L, A, a) == g
  }

  /** The areas of all generations are dense, and their lists of static objects are right. */
  ghost predicate AreasOk(L: Layout, A: Ages) {
    && (forall g, x {:trigger Occupied(L, A, g, x)} :: g in A.gens && A.gens[g].start <= x < A.gens[g].top ==>
          Occupied(L, A, g, x))
    && (forall g, b {:trigger Held(L, A, g, b)} :: g in A.gens && b in A.gens[g].statics ==> Held(L, A, g, b))
    && (forall g {:trigger InOwnSpace(L, A, g)} :: g in A.gens ==> InOwnSpace(L, A, g))
  }

  lemma AreaWord(L: Layout, A: Ages, g: int, x: int)
    requires AreasOk(L, A) && g in A.gens && A.gens[g].start <= x < A.gens[g].top
    ensures Occupied(L, A, g, x)
  {
  }

  lemma AreaStart(L: Layout, A: Ages, g: int)
    requires AreasOk(L, A) && g in A.gens
    ensures InOwnSpace(L, A, g)
  {
    assert InOwnSpace(L, A, g);
  }

  lemma AreaStatic(L: Layout, A: Ages, g: int, b: int)
    requires AreasOk(L, A) && g in A.gens && b in A.gens[g].statics
    ensures Held(L, A, g, b)
  {
  }

  // ---- What a collection can scan ----

  /** Addresses in spaces of the heap belong to the same generations before and after static objects were moved. */
  lemma SpaceGens(L: Layout, A: Ages, A1: Ages, a: int)
    requires A1.space == A.space && L.Type(a) != MlStatic
    ensures GenAt(L, A1, a) == GenAt(L, A, a)
  {
  }

  /** The area of a younger generation is apart from to-space. */
  lemma AreaApart(S: Setting, g: int)
    requires AreasOk(S.L, S.before) && S.Ready() && S.L.SpacesOk() && g in S.younger && g in S.before.gens
    requires S.to in S.before.gens && S.before.gens[S.to].start <= S.before.gens[S.to].top == S.L.start
    ensures OutsideToSpace(S.L, S.before.gens[g].start, S.before.gens[g].top)
  {
    hide AreasOk, S.Ready, S.L.SpacesOk, AgeingOk;
    var L, A := S.L, S.before;
    var lo, hi, s, l := A.gens[g].start, A.gens[g].top, L.start, L.limit;
    YoungerOther(S, g);
    AreaStart(L, A, g);
    AreaStart(L, A, S.to);
    if s < hi && lo < l {
      SpaceBounds(L);
      if lo < hi && s < l {
        var x := if lo < s then s else lo;
        AreaWord(L, A, g, x);
        ToSpaceFree(L, x);
      } else if lo < hi {
        AreaWord(L, A, g, s);
        if A.gens[S.to].start < s {
          AreaWord(L, A, S.to, s - 1);
          AreaWord(L, A, g, s - 1);
        }
      } else {
        ToSpaceOwner(S, lo);
        assert false;
      }
    }
  }

  lemma SpaceBounds(L: Layout)
    requires L.SpacesOk()
    ensures L.start <= L.limit
  {
  }

  lemma ToSpaceFree(L: Layout, x: int)
    requires L.SpacesOk() && L.start <= x < L.limit
    ensures x !in L.own
  {
  }

  lemma ToSpaceOwner(S: Setting, x: int)
    requires S.Ready() && S.L.SpacesOk() && S.L.start <= x < S.L.limit
    ensures GenAt(S.L, S.before, x) == S.to
  {
    ReadyParts(S);
    SpaceGens(S.L, S.before, S.ages, x);
  }

  lemma YoungerOther(S: Setting, g: int)
    requires S.Ready() && g in S.younger
    ensures g != S.to && g != S.from
  {
    ReadyParts(S);
    ReadyChain(S);
    NumbersOk(S);
    var i :| 0 <= i < |S.younger| && S.younger[i] == g;
    assert S.ages.Number(S.younger[i]) == S.ages.Number(S.from) - 1 - i;
  }

  /** The area of a younger generation can be scanned. */
  lemma AreaRegion(S: Setting, T: Trail, g: int)
    requires AreasOk(S.L, S.before) && S.Ready() && S.L.SpacesOk() && g in S.younger && g in S.before.gens
    requires T.fw == map[] && T.bk == map[] && S.ages.gens == S.before.gens
    requires forall c :: S.SetsOut(c) && S.L.Cell(c) ==> c in S.L.entry
    ensures Region(S.L, T, S.before.gens[g].start, S.before.gens[g].top)
  {
    hide AreasOk, S.Ready, S.SetsOut, S.L.SpacesOk;
    var L, lo, hi := S.L, S.before.gens[g].start, S.before.gens[g].top;
    YoungerOther(S, g);
    forall x {:trigger InRegion(L, T, lo, hi, x)} | lo <= x < hi ensures InRegion(L, T, lo, hi, x) {
      AreaWord(L, S.before, g, x);
      if L.Type(x) == From {
        FromOwner(S, x);
      }
      if L.Role(x) == Slot {
        AreaEntry(S, g, x);
      }
    }
  }

  lemma FromOwner(S: Setting, x: int)
    requires S.Ready() && S.L.Type(x) == From
    ensures GenAt(S.L, S.before, x) == S.from
  {
    ReadyParts(S);
    SpaceGens(S.L, S.before, S.ages, x);
  }

  lemma AreaEntry(S: Setting, g: int, x: int)
    requires g in S.younger && g in S.ages.gens && S.ages.gens[g].start <= x < S.ages.gens[g].top
    requires x in S.L.own && S.L.Role(x) == Slot
    ensures S.SetsOut(x) && S.L.Cell(x)
  {
    assert x in GenCells(S.L, S.ages, g);
  }

  /** Static objects of a generation can be scanned if their slots are where the collection sets out. */
  lemma HeldScannable(S: Setting, T: Trail, g: int, s: seq<int>)
    requires AreasOk(S.L, S.before) && g in S.before.gens && s == S.before.gens[g].statics
    requires ObjectCells(S.L, s) <= S.L.entry
    ensures StaticsScannable(S.L, T, s)
  {
    hide AreasOk;
    forall b | b in s ensures StaticScannable(S.L, T, b) {
      AreaStatic(S.L, S.before, g, b);
      forall c | c in S.L.own && S.L.own[c] == b && S.L.Role(c) == Slot ensures c in S.L.entry {
        assert c in ObjectCells(S.L, s);
      }
    }
  }

  lemma StaticSetsOut(S: Setting, c: int)
    requires c in ObjectCells(S.L, S.Statics())
    ensures S.SetsOut(c) && S.L.Cell(c)
  {
  }

  lemma YoungerGen(S: Setting, g: int)
    requires S.Ready() && g in S.younger
    ensures g in S.ages.gens
  {
    ReadyChain(S);
  }

  lemma YoungerSetsOut(S: Setting, g: int, c: int)
    requires g in S.younger && g in S.ages.gens && c in ObjectCells(S.L, S.ages.gens[g].statics)
    ensures S.SetsOut(c) && S.L.Cell(c)
  {
    assert c in GenCells(S.L, S.ages, g);
  }

  lemma ArraySetsOut(S: Setting, b: int)
    requires S.L.ObjectsOk() && b in S.home && S.home[b] in S.Young() && OrdinaryHeader(S.L.Was(b)) && S.L.Base(b)
    requires forall c :: S.SetsOut(c) && S.L.Cell(c) ==> c in S.L.entry
    ensures FixableArray(S.L, b)
  {
    forall c | b + 3 <= c < b + 3 + S.L.Was(b).len ensures c in S.L.entry {
      assert S.L.Within(b, c);
      assert S.SetsOut(c) && S.L.Cell(c);
    }
  }

  /** Everything that a collection scans can be scanned. */
  lemma AllScannable(S: Setting, T: Trail)
    requires AreasOk(S.L, S.before) && S.Ready() && S.L.SpacesOk() && T.fw == map[] && T.bk == map[]
    requires forall c :: S.SetsOut(c) && S.L.Cell(c) ==> c in S.L.entry
    requires S.to in S.before.gens && S.before.gens[S.to].top == S.L.start
    requires S.L.ObjectsOk() && forall b :: b in S.home ==> S.L.Base(b)
    ensures StaticsScannable(S.L, T, S.Statics()) && GensScannable(S.L, S.ages, T, S.younger)
    ensures Entered(S.L, S.home, S.Young()) && forall b :: b in S.Statics() ==> b in S.before.holder
  {
    hide AreasOk, S.Ready, S.SetsOut, S.L.SpacesOk, StaticsScannable, Region, OutsideToSpace, FixableArray;
    ReadySpans(S);
    ReadyGens(S);
    forall c | c in ObjectCells(S.L, S.Statics()) ensures c in S.L.entry {
      StaticSetsOut(S, c);
    }
    HeldScannable(S, T, S.from, S.Statics());
    forall b | b in S.Statics() ensures b in S.before.holder {
      AreaStatic(S.L, S.before, S.from, b);
    }
    forall g | g in S.younger ensures g in S.ages.gens && GenScannable(S.L, S.ages, T, g) {
      YoungerGen(S, g);
      AreaApart(S, g);
      AreaRegion(S, T, g);
      forall c | c in ObjectCells(S.L, S.before.gens[g].statics) ensures c in S.L.entry {
        YoungerSetsOut(S, g, c);
      }
      HeldScannable(S, T, g, S.before.gens[g].statics);
    }
    forall b | b in S.home && S.home[b] in S.Young() && OrdinaryHeader(S.L.Was(b)) ensures FixableArray(S.L, b) {
      ArraySetsOut(S, b);
    }
  }

  // ---- After a collection ----

  /** A word of an area that is not collected is where it was, in the same object. */
  lemma OldOccupied(S: Setting, T: Trail, m: seq<Word>, marked: set<int>, home: map<int, int>, g: int, x: int)
    requires Finished(S, T, m, marked, home) && g in S.before.gens && g != S.from && Occupied(S.L, S.before, g, x)
    ensures var N := After(S, T, m, marked);
            && x in N.own && N.own[x] == S.L.own[x] && N.Type(x) == MlHeap
            && Footprint(N.Was(N.own[x])) == Footprint(S.L.Was(S.L.own[x]))
            && GenAt(N, AgesAfter(S, marked, S.L.start + T.used), x) == g
  {
    hide S.Ready, S.L.ObjectsOk, S.L.SpacesOk, S.L.WordsFit, Preserved, Remembers, After, AgesAfter, Next, Finished,
      InverseOk, WholeOk;
    FinishedParts(S, T, m, marked, home);
    AfterSame(S, T, m, marked);
    AgesAfterKeys(S, marked, S.L.start + T.used);
    ReadyParts(S);
    if S.L.Type(x) == From {
      FromOwner(S, x);
    }
    SameSpace(S.L, x);
    OwnBase(S.L, x);
    HeapStays(S.L, T, x);
    HeapUnmarked(S, marked, S.L.own[x]);
    NextWord(S.L, T, m, marked, x);
    FirstWord(S, T, m, marked, S.L.own[x]);
  }

  lemma HeapStays(L: Layout, T: Trail, x: int)
    requires L.SpacesOk() && FwdOk(L, T) && x in L.own && L.own[x] in L.own
    requires L.Type(x) != From && L.Type(L.own[x]) != From
    ensures T.Cur(x) == x && T.Cur(L.own[x]) == L.own[x] && x !in T.fw && L.own[x] !in T.fw
  {
  }

  lemma HeapUnmarked(S: Setting, marked: set<int>, b: int)
    requires forall c :: c in marked ==> S.L.Type(c) == MlStatic
    requires S.L.Type(b) == MlHeap
    ensures b !in marked
  {
  }

  /** A word that was copied lies in the grown area of the target, in the copy of its object. */
  lemma NewOccupied(S: Setting, T: Trail, m: seq<Word>, marked: set<int>, home: map<int, int>, x: int)
    requires Finished(S, T, m, marked, home) && S.L.start <= x < S.L.start + T.used
    ensures var N := After(S, T, m, marked);
            && x in N.own && N.Type(x) == MlHeap && GenAt(N, AgesAfter(S, marked, S.L.start + T.used), x) == S.to
            && S.L.start <= N.own[x] && N.own[x] + Footprint(N.Was(N.own[x])) <= S.L.start + T.used
  {
    hide S.Ready, S.L.ObjectsOk, S.L.SpacesOk, S.L.WordsFit, Preserved, Remembers, After, AgesAfter, Next, Finished,
      WholeOk;
    FinishedParts(S, T, m, marked, home);
    AfterSame(S, T, m, marked);
    AgesAfterKeys(S, marked, S.L.start + T.used);
    ReadyParts(S);
    assert x in T.bk;
    var a := T.bk[x];
    CopiedWord(S.L, T, a);
    var b := S.L.own[a];
    NextWord(S.L, T, m, marked, a);
    FirstWord(S, T, m, marked, b);
    LastWord(S.L, T, b);
    CopyTogether(S.L, T, a);
    UsedBound(S.L, T);
    ToSpaceOwner(S, x);
    ToSpaceHeap(S.L, x);
  }

  lemma CopiedWord(L: Layout, T: Trail, a: int)
    requires L.ObjectsOk() && L.SpacesOk() && FwdOk(L, T) && a in T.fw
    ensures a in L.own && L.Base(L.own[a]) && L.Type(L.own[a]) == From && L.own[a] in T.fw
  {
    OwnBase(L, a);
    SameSpace(L, a);
  }

  lemma ToSpaceHeap(L: Layout, x: int)
    requires L.SpacesOk() && L.start <= x < L.limit
    ensures L.Type(x) == MlHeap
  {
  }

  /** A static object that is not freed is held by the target if it was by `from`, and otherwise as before. */
  lemma HeldAgain(S: Setting, T: Trail, m: seq<Word>, marked: set<int>, home: map<int, int>, g: int, b: int)
    requires Finished(S, T, m, marked, home) && AreasOk(S.L, S.before)
    requires var A := AgesAfter(S, marked, S.L.start + T.used); g in A.gens && b in A.gens[g].statics
    ensures Held(After(S, T, m, marked), AgesAfter(S, marked, S.L.start + T.used), g, b)
  {
    hide S.Ready, S.L.ObjectsOk, S.L.SpacesOk, S.L.WordsFit, Preserved, Remembers, After, Next, Finished, InverseOk,
      WholeOk, AreasOk;
    FinishedParts(S, T, m, marked, home);
    AfterSame(S, T, m, marked);
    AgesAfterKeys(S, marked, S.L.start + T.used);
    ReadyParts(S);
    StaticsAfter(S, marked, S.L.start + T.used, g, b);
    if b in S.before.gens[g].statics {
      AreaStatic(S.L, S.before, g, b);
    }
    if b in S.Statics() {
      AreaStatic(S.L, S.before, S.from, b);
    }
    assert b !in marked;
    OwnBase(S.L, b);
    StaticStays(S.L, T, b);
    NextWord(S.L, T, m, marked, b);
  }

  lemma StaticsAfter(S: Setting, marked: set<int>, top: int, g: int, b: int)
    requires S.to in S.ages.gens && S.from in S.ages.gens && S.from != S.to && S.ages.gens == S.before.gens
    requires g in AgesAfter(S, marked, top).gens && b in AgesAfter(S, marked, top).gens[g].statics
    ensures g in S.before.gens && g != S.from
    ensures if g == S.to then b in S.before.gens[g].statics || (b in S.Statics() && b !in marked)
            else b in S.before.gens[g].statics
  {
  }

  lemma OwnSpaceAgain(S: Setting, T: Trail, m: seq<Word>, marked: set<int>, home: map<int, int>, g: int)
    requires Finished(S, T, m, marked, home) && AreasOk(S.L, S.before) && g in S.before.gens
    ensures var A := AgesAfter(S, marked, S.L.start + T.used);
            g in A.gens && A.gens[g].start == S.before.gens[g].start && InOwnSpace(After(S, T, m, marked), A, g)
  {
    hide S.Ready, S.L.ObjectsOk, S.L.SpacesOk, S.L.WordsFit, Preserved, Remembers, After, Next, Finished, FwdOk,
      AreasOk, AgeingOk;
    FinishedParts(S, T, m, marked, home);
    AfterSame(S, T, m, marked);
    AgesAfterKeys(S, marked, S.L.start + T.used);
    ReadyParts(S);
    AreaStart(S.L, S.before, g);
  }

  /** What the areas are after the collection. */
  lemma AreasAfter(S: Setting, marked: set<int>, top: int, g: int)
    requires S.to in S.ages.gens && S.from in S.ages.gens && S.from != S.to && S.ages.gens == S.before.gens
    requires g in S.before.gens
    ensures var A := AgesAfter(S, marked, top);
            g in A.gens && A.gens[g].start == S.before.gens[g].start &&
            A.gens[g].top == (if g == S.to then top else if g == S.from then A.gens[g].start else S.before.gens[g].top)
  {
  }

  lemma OccupiedAgain(S: Setting, T: Trail, m: seq<Word>, marked: set<int>, home: map<int, int>, g: int, x: int)
    requires Finished(S, T, m, marked, home) && AreasOk(S.L, S.before)
    requires var A := AgesAfter(S, marked, S.L.start + T.used); g in A.gens && A.gens[g].start <= x < A.gens[g].top
    ensures Occupied(After(S, T, m, marked), AgesAfter(S, marked, S.L.start + T.used), g, x)
  {
    hide S.Ready, S.L.ObjectsOk, S.L.SpacesOk, S.L.WordsFit, Preserved, Remembers, After, AgesAfter, Next, Finished,
      FwdOk, AreasOk;
    FinishedParts(S, T, m, marked, home);
    FinishedTop(S, T, m, marked, home);
    AgesAfterKeys(S, marked, S.L.start + T.used);
    assert g in S.before.gens.Keys;
    AreasAfter(S, marked, S.L.start + T.used, g);
    if g == S.to && S.L.start <= x {
      NewOccupied(S, T, m, marked, home, x);
    } else {
      AreaWord(S.L, S.before, g, x);
      OldOccupied(S, T, m, marked, home, g, x);
    }
  }

  /** After a collection the areas of all generations are dense again. */
  lemma AreasAgain(S: Setting, T: Trail, m: seq<Word>, marked: set<int>, home: map<int, int>)
    requires Finished(S, T, m, marked, home) && AreasOk(S.L, S.before)
    ensures AreasOk(After(S, T, m, marked), AgesAfter(S, marked, S.L.start + T.used))
  {
    hide S.Ready, S.L.ObjectsOk, S.L.SpacesOk, S.L.WordsFit, Preserved, Remembers, After, AgesAfter, Next, Finished,
      FwdOk, AreasOk, Occupied, Held, InOwnSpace;
    var N, A := After(S, T, m, marked), AgesAfter(S, marked, S.L.start + T.used);
    FinishedParts(S, T, m, marked, home);
    AgesAfterKeys(S, marked, S.L.start + T.used);
    assert forall g :: g in A.gens <==> g in A.gens.Keys;
    forall g, x {:trigger Occupied(N, A, g, x)} | g in A.gens && A.gens[g].start <= x < A.gens[g].top
      ensures Occupied(N, A, g, x)
    {
      OccupiedAgain(S, T, m, marked, home, g, x);
    }
    forall g, b {:trigger Held(N, A, g, b)} | g in A.gens && b in A.gens[g].statics ensures Held(N, A, g, b) {
      HeldAgain(S, T, m, marked, home, g, b);
    }
    forall g {:trigger InOwnSpace(N, A, g)} | g in A.gens ensures InOwnSpace(N, A, g) {
      assert g in S.before.gens.Keys;
      OwnSpaceAgain(S, T, m, marked, home, g);
    }
    AreasFrom(N, A);
  }

  lemma AreasFrom(L: Layout, A: Ages)
    requires forall g, x {:trigger Occupied(L, A, g, x)} :: g in A.gens && A.gens[g].start <= x < A.gens[g].top ==>
               Occupied(L, A, g, x)
    requires forall g, b {:trigger Held(L, A, g, b)} :: g in A.gens && b in A.gens[g].statics ==> Held(L, A, g, b)
    requires forall g {:trigger InOwnSpace(L, A, g)} :: g in A.gens ==> InOwnSpace(L, A, g)
    ensures AreasOk(L, A)
  {
  }

  // ---- Other layouts ----

  /** Areas are as dense when words other than headers change or one space becomes from-space. */
  lemma AreasSame(L: Layout, N: Layout, A: Ages)
    requires AreasOk(L, A) && N.own == L.own && forall x :: x in L.own ==> N.Was(L.own[x]) == L.Was(L.own[x])
    requires forall a :: N.Type(a) == L.Type(a) || (L.Type(a) == MlHeap && N.Type(a) == From)
    requires forall a :: GenAt(N, A, a) == GenAt(L, A, a)
    ensures AreasOk(N, A)
  {
    hide GenAt;
    forall g, x {:trigger Occupied(N, A, g, x)} | g in A.gens && A.gens[g].start <= x < A.gens[g].top
      ensures Occupied(N, A, g, x)
    {
      assert Occupied(L, A, g, x);
    }
    forall g, b {:trigger Held(N, A, g, b)} | g in A.gens && b in A.gens[g].statics ensures Held(N, A, g, b) {
      assert Held(L, A, g, b);
    }
    forall g {:trigger InOwnSpace(N, A, g)} | g in A.gens ensures InOwnSpace(N, A, g) {
      assert InOwnSpace(L, A, g);
    }
  }
}
