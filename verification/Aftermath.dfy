/** The heap after a collection is a well-formed heap again: its objects are the live objects of the
    heap before, and references that led to legal targets still do. */
module Aftermath {
  import opened Heap
  import opened Copying
  import opened Moving
  import opened Scanning
  import opened EntryLists
  import opened Remembered
  import opened Weak
  import opened Outcome

  /** `x` is a word of an object that is alive. */
  ghost predicate LiveWord(L: Layout, T: Trail, marked: set<int>, x: int) {
    var a := Org(T, x);
    a in L.own && T.Cur(a) == x && Alive(L, T, marked, L.own[a])
  }

  /** The layout of the heap after a collection. */
  ghost function Next(L: Layout, T: Trail, m: seq<Word>, marked: set<int>): Layout {
    L.(m0 := m,
       own := map x | x in T.bk.Keys + L.own.Keys && LiveWord(L, T, marked, x) :: T.Cur(L.own[Org(T, x)]),
       tag := map x | x in T.bk.Keys + L.own.Keys && LiveWord(L, T, marked, x) && L.own[Org(T, x)] in L.tag ::
         L.tag[L.own[Org(T, x)]])
  }

  lemma OrgCur(L: Layout, T: Trail, a: int)
    requires L.SpacesOk() && FwdOk(L, T) && a in L.own
    ensures Org(T, T.Cur(a)) == a && T.Cur(a) in T.bk.Keys + L.own.Keys
  {
  }

  lemma NextWord(L: Layout, T: Trail, m: seq<Word>, marked: set<int>, a: int)
    requires L.ObjectsOk() && L.SpacesOk() && FwdOk(L, T) && a in L.own && Alive(L, T, marked, L.own[a])
    ensures var N := Next(L, T, m, marked);
            T.Cur(a) in N.own && N.own[T.Cur(a)] == T.Cur(L.own[a]) && T.Cur(a) - a == T.Cur(L.own[a]) - L.own[a]
  {
    hide L.ObjectsOk, L.SpacesOk, InverseOk, WholeOk;
    OrgCur(L, T, a);
    OwnWithin(L, a);
    WithinOwn(L, a);
    Inside(L, T, L.own[a], a - L.own[a]);
  }

  lemma WithinOwn(L: Layout, a: int)
    requires L.ObjectsOk() && a in L.own
    ensures L.Within(L.own[a], a)
  {
  }

  lemma NextOrg(L: Layout, T: Trail, m: seq<Word>, marked: set<int>, x: int)
    requires x in Next(L, T, m, marked).own
    ensures var a := Org(T, x); a in L.own && T.Cur(a) == x && Alive(L, T, marked, L.own[a])
    ensures Next(L, T, m, marked).own[x] == T.Cur(L.own[Org(T, x)])
  {
  }

  /** The first word of a live object still tells its size and kind. */
  lemma FirstWord(S: Setting, T: Trail, m: seq<Word>, marked: set<int>, b: int)
    requires Preserved(S, T, m, marked) && S.L.ObjectsOk() && Alive(S.L, T, marked, b)
    ensures var w := At(m, T.Cur(b));
            Footprint(w) == Footprint(S.L.Was(b)) && IsFirstWord(w) && b in S.L.tag && TagFits(w, S.L.tag[b]) &&
              (w.Hdr? || S.L.Was(b).Hdr? ==> w == S.L.Was(b))
  {
    assert S.L.Within(b, b);
    if S.L.Was(b).Hdr? {
      assert S.L.Role(b) == Head;
    } else {
      assert S.L.Cell(b);
      assert IsFixed(S.L, T, S.L.Was(b), At(m, T.Cur(b)));
    }
  }

  lemma NextWithin(S: Setting, T: Trail, m: seq<Word>, marked: set<int>, x: int)
    requires Preserved(S, T, m, marked) && S.L.ObjectsOk() && S.L.SpacesOk() && |m| == |S.L.m0|
    requires x in Next(S.L, T, m, marked).own
    ensures var N := Next(S.L, T, m, marked); N.Within(N.own[x], x) && 0 < N.own[x] && N.own[x] % 2 == 0 && x < |m|
  {
    hide S.L.ObjectsOk, S.L.SpacesOk, InverseOk, WholeOk, Preserved, Next;
    PreservedFwd(S, T, m, marked);
    NextOrg(S.L, T, m, marked, x);
    var a := Org(T, x);
    OwnWithin(S.L, a);
    NextWord(S.L, T, m, marked, a);
    NextWord(S.L, T, m, marked, S.L.own[a]);
    FirstWord(S, T, m, marked, S.L.own[a]);
    NextMemory(S.L, T, m, marked);
    ArrayCur(S.L, T, S.L.own[a]);
    BaseEven(S.L, T, S.L.own[a]);
    PlaceInMemory(S.L, T, a);
  }

  lemma PlaceInMemory(L: Layout, T: Trail, a: int)
    requires L.ObjectsOk() && L.SpacesOk() && FwdOk(L, T) && a in L.own
    ensures T.Cur(a) < |L.m0|
  {
  }

  lemma NextMemory(L: Layout, T: Trail, m: seq<Word>, marked: set<int>)
    ensures Next(L, T, m, marked).m0 == m
  {
  }

  lemma PreservedFwd(S: Setting, T: Trail, m: seq<Word>, marked: set<int>)
    requires Preserved(S, T, m, marked)
    ensures FwdOk(S.L, T)
  {
  }

  lemma NextCovers(S: Setting, T: Trail, m: seq<Word>, marked: set<int>, b: int, x: int)
    requires Preserved(S, T, m, marked) && S.L.ObjectsOk() && S.L.SpacesOk() && Next(S.L, T, m, marked).Within(b, x)
    ensures x in Next(S.L, T, m, marked).own && Next(S.L, T, m, marked).own[x] == b
  {
    hide S.L.ObjectsOk, S.L.SpacesOk, InverseOk, WholeOk, Preserved, Next;
    PreservedFwd(S, T, m, marked);
    NextOrg(S.L, T, m, marked, b);
    NextMemory(S.L, T, m, marked);
    var c := Org(T, b);
    var o := S.L.own[c];
    OwnWithin(S.L, c);
    OrgCur(S.L, T, o);
    FirstWord(S, T, m, marked, o);
    WithinFrom(S.L, o, o + (x - b));
    NextWord(S.L, T, m, marked, o + (x - b));
    Inside(S.L, T, o, x - b);
  }

  lemma WithinFrom(L: Layout, b: int, x: int)
    requires L.ObjectsOk() && L.Base(b) && b <= x < b + Footprint(L.Was(b))
    ensures L.Within(b, x) && x in L.own && L.own[x] == b
  {
    assert L.Within(b, x);
  }

  lemma NextBase(S: Setting, T: Trail, m: seq<Word>, marked: set<int>, b: int)
    requires Preserved(S, T, m, marked) && S.L.ObjectsOk() && S.L.SpacesOk() && Next(S.L, T, m, marked).Base(b)
    ensures var N := Next(S.L, T, m, marked); IsFirstWord(N.Was(b)) && b in N.tag && TagFits(N.Was(b), N.tag[b])
    ensures S.L.Base(Org(T, b)) && Alive(S.L, T, marked, Org(T, b)) && T.Cur(Org(T, b)) == b
  {
    hide S.L.ObjectsOk, S.L.SpacesOk, InverseOk, WholeOk, Preserved;
    PreservedFwd(S, T, m, marked);
    NextOrg(S.L, T, m, marked, b);
    var c := Org(T, b);
    OwnWithin(S.L, c);
    OrgCur(S.L, T, c);
    OrgCur(S.L, T, S.L.own[c]);
    FirstWord(S, T, m, marked, S.L.own[c]);
  }

  /** The heap after a collection consists of whole, well-formed objects. */
  lemma ObjectsAgain(S: Setting, T: Trail, m: seq<Word>, marked: set<int>)
    requires Preserved(S, T, m, marked) && S.L.ObjectsOk() && S.L.SpacesOk() && |m| == |S.L.m0|
    ensures Next(S.L, T, m, marked).ObjectsOk()
  {
    hide S.L.ObjectsOk, S.L.SpacesOk, InverseOk, WholeOk, Preserved, Next;
    var N := Next(S.L, T, m, marked);
    NextMemory(S.L, T, m, marked);
    forall x | x in N.own ensures N.Within(N.own[x], x) && 0 < N.own[x] && N.own[x] % 2 == 0 && x < |m| {
      NextWithin(S, T, m, marked, x);
    }
    forall b, x | N.Within(b, x) ensures x in N.own && N.own[x] == b {
      NextCovers(S, T, m, marked, b, x);
    }
    forall b | N.Base(b) ensures IsFirstWord(N.Was(b)) && b in N.tag && TagFits(N.Was(b), N.tag[b]) {
      NextBase(S, T, m, marked, b);
    }
    Assemble(N);
  }

  lemma Assemble(N: Layout)
    requires forall a :: a in N.own ==> N.Within(N.own[a], a) && 0 < N.own[a] && N.own[a] % 2 == 0 && a < |N.m0|
    requires forall b, x :: N.Within(b, x) ==> x in N.own && N.own[x] == b
    requires forall b :: N.Base(b) ==> IsFirstWord(N.Was(b)) && b in N.tag && TagFits(N.Was(b), N.tag[b])
    ensures N.ObjectsOk()
  {
  }

  // ---- References ----

  /** `w` is no reference into the heap or one to a legal target. */
  ghost predicate Sound(L: Layout, w: Word) {
    Collectable(L, w) ==> L.Target(w.tag, w.addr)
  }

  /** All references in the heap lead to legal targets. */
  ghost predicate SoundHeap(L: Layout) {
    forall x {:trigger HoldsValue(L, x)} :: HoldsValue(L, x) ==> Sound(L, L.Was(x))
  }

  /** The role of a word does not change. */
  lemma SameRole(S: Setting, T: Trail, m: seq<Word>, marked: set<int>, a: int)
    requires Preserved(S, T, m, marked) && S.L.ObjectsOk() && S.L.SpacesOk() && a in S.L.own
    requires Alive(S.L, T, marked, S.L.own[a])
    ensures var N := Next(S.L, T, m, marked);
            T.Cur(a) in N.own && N.Role(T.Cur(a)) == S.L.Role(a) && N.own[T.Cur(a)] == T.Cur(S.L.own[a])
  {
    hide S.L.ObjectsOk, S.L.SpacesOk, InverseOk, WholeOk, Preserved, Next;
    PreservedFwd(S, T, m, marked);
    NextMemory(S.L, T, m, marked);
    NextWord(S.L, T, m, marked, a);
    OwnWithin(S.L, a);
    FirstWord(S, T, m, marked, S.L.own[a]);
    RoleFromHeader(S.L.Was(S.L.own[a]), At(m, T.Cur(S.L.own[a])), a - S.L.own[a]);
  }

  lemma RoleFromHeader(w: Word, w1: Word, i: int)
    requires w.Hdr? || w1.Hdr? ==> w1 == w
    ensures RoleAt(w1, i) == RoleAt(w, i)
  {
  }

  /** Inside records and code vectors, words that are no references stay as they are. */
  lemma PlainWord(S: Setting, T: Trail, m: seq<Word>, marked: set<int>, x: int)
    requires Preserved(S, T, m, marked) && x in S.L.own && Alive(S.L, T, marked, S.L.own[x]) && !S.L.Was(x).Ptr?
    requires S.L.Role(x) != Link
    ensures At(m, T.Cur(x)) == S.L.Was(x)
  {
    if S.L.Role(x) == Slot {
      assert S.L.Cell(x);
    }
  }

  lemma SharedAgain(S: Setting, T: Trail, m: seq<Word>, marked: set<int>, b: int, a: int)
    requires Preserved(S, T, m, marked) && S.L.ObjectsOk() && S.L.SpacesOk() && Alive(S.L, T, marked, b)
    requires S.L.SharedEntry(b, a) && a in S.L.own && S.L.own[a] == b
    ensures Next(S.L, T, m, marked).SharedEntry(T.Cur(b), T.Cur(a))
  {
    hide S.L.ObjectsOk, S.L.SpacesOk, InverseOk, WholeOk, Preserved, Next;
    PreservedFwd(S, T, m, marked);
    NextMemory(S.L, T, m, marked);
    FirstWord(S, T, m, marked, b);
    WithinOwn(S.L, a);
    Inside(S.L, T, b, a - b);
    forall x | T.Cur(b) < x <= T.Cur(a) && (x - T.Cur(b)) % 2 == 0 ensures At(m, x) == Null {
      var y := b + (x - T.Cur(b));
      WithinFrom(S.L, b, y);
      Inside(S.L, T, b, y - b);
      PlainWord(S, T, m, marked, y);
    }
  }

  lemma CodeAgain(S: Setting, T: Trail, m: seq<Word>, marked: set<int>, b: int, a: int)
    requires Preserved(S, T, m, marked) && S.L.ObjectsOk() && S.L.SpacesOk() && Alive(S.L, T, marked, b)
    requires S.L.CodeEntry(b, a) && a in S.L.own && S.L.own[a] == b
    ensures Next(S.L, T, m, marked).CodeEntry(T.Cur(b), T.Cur(a))
  {
    hide S.L.ObjectsOk, S.L.SpacesOk, InverseOk, WholeOk, Preserved, Next;
    PreservedFwd(S, T, m, marked);
    NextMemory(S.L, T, m, marked);
    FirstWord(S, T, m, marked, b);
    WithinOwn(S.L, a);
    Inside(S.L, T, b, a - b);
    PlainWord(S, T, m, marked, a);
  }

  /** A legal target is still one at its new place, with the same offset into its object. */
  lemma TargetAgain(S: Setting, T: Trail, m: seq<Word>, marked: set<int>, t: Tag, a: int)
    requires Preserved(S, T, m, marked) && S.L.ObjectsOk() && S.L.SpacesOk() && S.L.Target(t, a)
    requires Alive(S.L, T, marked, S.L.own[a])
    ensures Next(S.L, T, m, marked).Target(t, T.Cur(a))
    ensures T.Cur(a) - T.Cur(S.L.own[a]) == a - S.L.own[a]
  {
    hide S.L.ObjectsOk, S.L.SpacesOk, InverseOk, WholeOk, Preserved, S.L.SharedEntry, S.L.CodeEntry;
    PreservedFwd(S, T, m, marked);
    TargetFacts(S.L, t, a);
    var b := S.L.own[a];
    NextWord(S.L, T, m, marked, a);
    NextWord(S.L, T, m, marked, a + 1);
    OrgCur(S.L, T, b);
    NextTag(S.L, T, m, marked, b);
    if a != b {
      if S.L.SharedEntry(b, a) {
        SharedAgain(S, T, m, marked, b, a);
      } else {
        CodeAgain(S, T, m, marked, b, a);
      }
    }
  }

  lemma NextTag(L: Layout, T: Trail, m: seq<Word>, marked: set<int>, b: int)
    requires L.SpacesOk() && FwdOk(L, T) && b in L.tag && Alive(L, T, marked, b)
    ensures var N := Next(L, T, m, marked); T.Cur(b) in N.tag && N.tag[T.Cur(b)] == L.tag[b]
  {
    OrgCur(L, T, b);
  }

  /** A word that needs no more fixing leads to a live object and is as good as before. */
  lemma SameSound(S: Setting, T: Trail, m: seq<Word>, marked: set<int>, w: Word)
    requires Preserved(S, T, m, marked) && S.L.ObjectsOk() && S.L.SpacesOk() && Sound(S.L, w)
    requires w.Ptr? ==>
             S.L.Type(w.addr) != From &&
             (S.L.Type(w.addr) == MlStatic && w.addr in S.L.own ==> S.L.own[w.addr] !in marked)
    requires forall b :: b in marked ==> S.L.Type(b) == MlStatic
    ensures Sound(Next(S.L, T, m, marked), w)
  {
    hide S.L.ObjectsOk, S.L.SpacesOk, InverseOk, Preserved, Next, S.L.Target;
    NextTypes(S.L, T, m, marked);
    PreservedFwd(S, T, m, marked);
    if Collectable(S.L, w) {
      TargetFacts(S.L, w.tag, w.addr);
      TargetOwned(S.L, w.tag, w.addr);
      SameSpace(S.L, w.addr);
      TargetAgain(S, T, m, marked, w.tag, w.addr);
    }
  }

  lemma NextTypes(L: Layout, T: Trail, m: seq<Word>, marked: set<int>)
    ensures forall w :: Collectable(Next(L, T, m, marked), w) <==> Collectable(L, w)
  {
  }

  lemma TargetOwned(L: Layout, t: Tag, a: int)
    requires L.Target(t, a)
    ensures a in L.own
  {
  }

  lemma ForwardSound(S: Setting, T: Trail, m: seq<Word>, marked: set<int>, w: Word)
    requires Preserved(S, T, m, marked) && S.L.ObjectsOk() && S.L.SpacesOk() && Sound(S.L, w)
    requires w.Ptr? && S.L.Type(w.addr) == From && w.addr in T.fw
    ensures Sound(Next(S.L, T, m, marked), Ptr(w.tag, T.fw[w.addr]))
  {
    hide S.L.ObjectsOk, S.L.SpacesOk, InverseOk, Preserved, Next, S.L.Target;
    PreservedFwd(S, T, m, marked);
    TargetFacts(S.L, w.tag, w.addr);
    TargetOwned(S.L, w.tag, w.addr);
    SameSpace(S.L, w.addr);
    TargetAgain(S, T, m, marked, w.tag, w.addr);
  }

  lemma FixedSound(S: Setting, T: Trail, m: seq<Word>, marked: set<int>, a: int)
    requires Preserved(S, T, m, marked) && S.L.ObjectsOk() && S.L.SpacesOk() && Sound(S.L, S.L.Was(a))
    requires S.L.Cell(a) && (a in S.L.own ==> Alive(S.L, T, marked, S.L.own[a]))
    requires forall b :: b in marked ==> S.L.Type(b) == MlStatic
    ensures Sound(Next(S.L, T, m, marked), At(m, T.Cur(a)))
  {
    hide S.L.ObjectsOk, S.L.SpacesOk, InverseOk, WholeOk, Preserved, Next, Sound;
    CellPreserved(S, T, m, marked, a);
    var w0 := S.L.Was(a);
    if w0.Ptr? && S.L.Type(w0.addr) == From {
      ForwardSound(S, T, m, marked, w0);
    } else {
      SameSound(S, T, m, marked, w0);
    }
  }

  lemma CellPreserved(S: Setting, T: Trail, m: seq<Word>, marked: set<int>, a: int)
    requires Preserved(S, T, m, marked) && S.L.Cell(a) && (a in S.L.own ==> Alive(S.L, T, marked, S.L.own[a]))
    ensures IsFixed(S.L, T, S.L.Was(a), At(m, T.Cur(a))) && Done(S.L, T, m, marked, a)
  {
  }

  lemma WeakPreserved(S: Setting, T: Trail, m: seq<Word>, marked: set<int>, a: int)
    requires Preserved(S, T, m, marked) && a in S.L.own && S.L.Role(a) == WeakSlot
    ensures At(m, T.Cur(a)) == WeakResult(S.L, T, marked, S.L.Was(a))
  {
  }

  lemma WeakSound(S: Setting, T: Trail, m: seq<Word>, marked: set<int>, a: int)
    requires Preserved(S, T, m, marked) && S.L.ObjectsOk() && S.L.SpacesOk() && Sound(S.L, S.L.Was(a))
    requires a in S.L.own && S.L.Role(a) == WeakSlot && forall b :: b in marked ==> S.L.Type(b) == MlStatic
    ensures Sound(Next(S.L, T, m, marked), At(m, T.Cur(a)))
  {
    hide S.L.ObjectsOk, S.L.SpacesOk, InverseOk, WholeOk, Preserved, Next, Sound;
    WeakPreserved(S, T, m, marked, a);
    var w0 := S.L.Was(a);
    NoReference(Next(S.L, T, m, marked));
    if w0.Ptr? && S.L.Type(w0.addr) == From && w0.addr in T.fw {
      ForwardSound(S, T, m, marked, w0);
    } else if At(m, T.Cur(a)) != Dead {
      SameSound(S, T, m, marked, w0);
    }
  }

  lemma NoReference(L: Layout)
    ensures Sound(L, Dead)
  {
  }

  /** If all references led to legal targets before the collection, they do after it. */
  lemma SoundAgain(S: Setting, T: Trail, m: seq<Word>, marked: set<int>)
    requires Preserved(S, T, m, marked) && S.L.ObjectsOk() && S.L.SpacesOk() && SoundHeap(S.L)
    requires forall b :: b in marked ==> S.L.Type(b) == MlStatic
    ensures SoundHeap(Next(S.L, T, m, marked))
    ensures forall a :: a in S.L.roots && Sound(S.L, S.L.Was(a)) ==> Sound(Next(S.L, T, m, marked), At(m, a))
  {
    hide S.L.ObjectsOk, S.L.SpacesOk, InverseOk, WholeOk, Preserved, Next, Sound, HoldsValue;
    var N := Next(S.L, T, m, marked);
    forall x {:trigger HoldsValue(N, x)} | HoldsValue(N, x) ensures Sound(N, N.Was(x)) {
      ValueAgain(S, T, m, marked, x);
    }
    forall a | a in S.L.roots && Sound(S.L, S.L.Was(a)) ensures Sound(N, At(m, a)) {
      PreservedFwd(S, T, m, marked);
      RootStays(S.L, T, a);
      FixedSound(S, T, m, marked, a);
    }
  }

  lemma RootStays(L: Layout, T: Trail, a: int)
    requires L.SpacesOk() && FwdOk(L, T) && a in L.roots
    ensures T.Cur(a) == a && a !in L.own
  {
  }

  lemma ValueAgain(S: Setting, T: Trail, m: seq<Word>, marked: set<int>, x: int)
    requires Preserved(S, T, m, marked) && S.L.ObjectsOk() && S.L.SpacesOk() && SoundHeap(S.L)
    requires HoldsValue(Next(S.L, T, m, marked), x) && forall b :: b in marked ==> S.L.Type(b) == MlStatic
    ensures var N := Next(S.L, T, m, marked); Sound(N, N.Was(x))
  {
    hide S.L.ObjectsOk, S.L.SpacesOk, InverseOk, WholeOk, Preserved, Next, Sound;
    NextMemory(S.L, T, m, marked);
    NextOrg(S.L, T, m, marked, x);
    var a := Org(T, x);
    SameRole(S, T, m, marked, a);
    assert HoldsValue(S.L, a);
    if S.L.Role(a) == Slot {
      FixedSound(S, T, m, marked, a);
    } else {
      WeakSound(S, T, m, marked, a);
    }
  }

  // ---- Sharing ----

  /** Two live cells refer to the same word of the same object after the collection exactly if they did
      before, so that sharing and cycles are kept. */
  lemma SharingKept(S: Setting, T: Trail, m: seq<Word>, marked: set<int>, a: int, c: int)
    requires Preserved(S, T, m, marked) && S.L.SpacesOk() && S.L.WordsFit() && S.L.Cell(a) && S.L.Cell(c)
    requires a in S.L.own ==> Alive(S.L, T, marked, S.L.own[a])
    requires c in S.L.own ==> Alive(S.L, T, marked, S.L.own[c])
    ensures At(m, T.Cur(a)) == At(m, T.Cur(c)) <==> S.L.Was(a) == S.L.Was(c)
  {
    hide S.L.SpacesOk, S.L.WordsFit, WholeOk, Preserved;
    PreservedFwd(S, T, m, marked);
    CellPreserved(S, T, m, marked, a);
    CellPreserved(S, T, m, marked, c);
    CellValue(S.L, a);
    CellValue(S.L, c);
  }

  // ---- Weak elements ----

  /** What has become of the weak element at `c`. If it referred to an object of from-space, it refers to the same word
      of that object if the object can be reached, and has been cut if not; a reference to a static object of the
      collected generation has been cut if and only if nothing mentions the object; anything else is unchanged. */
  ghost predicate WeakFate(S: Setting, T: Trail, m: seq<Word>, c: int) {
    var w, w1 := S.L.Was(c), At(m, T.Cur(c));
    if w.Ptr? && S.L.Type(w.addr) == From then
      w.addr in S.L.own && if S.L.Reachable(S.L.own[w.addr]) then w.addr in T.fw && w1 == Ptr(w.tag, T.fw[w.addr])
                           else w1 == Dead
    else if w.Ptr? && S.L.Type(w.addr) == MlStatic && w.addr in S.L.own && S.L.own[w.addr] in S.Statics() then
      w1 == if S.L.Mentioned(S.L.own[w.addr]) then w else Dead
    else w1 == w
  }

  ghost predicate WeakFates(S: Setting, T: Trail, m: seq<Word>) {
    forall c {:trigger WeakCell(S.L, c)} :: WeakCell(S.L, c) ==> WeakFate(S, T, m, c)
  }

  /** A weak element and a live cell that held the same reference hold the same one. */
  ghost predicate SharedWithWeak(S: Setting, T: Trail, m: seq<Word>, marked: set<int>) {
    forall a, c {:trigger S.L.Cell(a), WeakCell(S.L, c)} |
      S.L.Cell(a) && (a in S.L.own ==> Alive(S.L, T, marked, S.L.own[a])) && WeakCell(S.L, c) ::
      S.L.Was(a) == S.L.Was(c) ==> At(m, T.Cur(c)) == At(m, T.Cur(a))
  }

  lemma WeakFateOf(S: Setting, T: Trail, m: seq<Word>, marked: set<int>, c: int)
    requires Preserved(S, T, m, marked) && S.L.ObjectsOk() && S.L.SpacesOk() && S.L.WordsFit() && WeakCell(S.L, c)
    requires marked <= Elements(S.Statics())
    requires forall b :: b in S.Statics() ==> (b in marked <==> !S.L.Mentioned(b))
    ensures WeakFate(S, T, m, c)
  {
    hide S.L.ObjectsOk, S.L.SpacesOk, InverseOk, WholeOk, Preserved, S.L.Mentioned, S.L.Reachable;
    WeakPreserved(S, T, m, marked, c);
    WeakValue(S.L, c);
    var w := S.L.Was(c);
    if w.Ptr? && S.L.Type(w.addr) == From {
      CopiedWhole(S, T, m, marked, w.addr);
    }
  }

  lemma WeakValue(L: Layout, c: int)
    requires L.WordsFit() && WeakCell(L, c)
    ensures L.ValueOk(L.Was(c))
  {
  }

  /** A word of a from-space object has been copied if and only if the object can be reached. */
  lemma CopiedWhole(S: Setting, T: Trail, m: seq<Word>, marked: set<int>, a: int)
    requires Preserved(S, T, m, marked) && S.L.ObjectsOk() && S.L.SpacesOk() && a in S.L.own && S.L.Type(a) == From
    ensures a in T.fw <==> S.L.Reachable(S.L.own[a])
  {
    hide S.L.Reachable;
    CopyTogether(S.L, T, a);
  }

  lemma WeakFatesOf(S: Setting, T: Trail, m: seq<Word>, marked: set<int>)
    requires Preserved(S, T, m, marked) && S.L.ObjectsOk() && S.L.SpacesOk() && S.L.WordsFit()
    requires marked <= Elements(S.Statics())
    requires forall b :: b in S.Statics() ==> (b in marked <==> !S.L.Mentioned(b))
    ensures WeakFates(S, T, m) && SharedWithWeak(S, T, m, marked)
  {
    hide S.L.ObjectsOk, S.L.SpacesOk, S.L.WordsFit, InverseOk, WholeOk, Preserved, S.L.Mentioned, WeakFate,
      IsFixed, Done;
    forall c {:trigger WeakCell(S.L, c)} | WeakCell(S.L, c) ensures WeakFate(S, T, m, c) {
      WeakFateOf(S, T, m, marked, c);
    }
    forall a, c {:trigger S.L.Cell(a), WeakCell(S.L, c)} |
      S.L.Cell(a) && (a in S.L.own ==> Alive(S.L, T, marked, S.L.own[a])) &&
      WeakCell(S.L, c) && S.L.Was(a) == S.L.Was(c)
      ensures At(m, T.Cur(c)) == At(m, T.Cur(a))
    {
      SharesWithWeak(S, T, m, marked, a, c);
    }
  }

  lemma SharesWithWeak(S: Setting, T: Trail, m: seq<Word>, marked: set<int>, a: int, c: int)
    requires Preserved(S, T, m, marked) && S.L.SpacesOk() && S.L.WordsFit() && S.L.Cell(a) && WeakCell(S.L, c)
    requires (a in S.L.own ==> Alive(S.L, T, marked, S.L.own[a])) && S.L.Was(a) == S.L.Was(c)
    requires forall b :: b in marked ==> b in S.Statics()
    ensures At(m, T.Cur(c)) == At(m, T.Cur(a))
  {
    hide S.L.SpacesOk, WholeOk, Preserved;
    CellPreserved(S, T, m, marked, a);
    WeakPreserved(S, T, m, marked, c);
  }
}
