/** Weak arrays: their elements are looked at when all copying is done, and those that refer to
    objects which did not survive are cut. */
module Weak {
  import opened Heap
  import opened Seqs
  import opened Copying
  import opened Moving
  import opened Scanning
  import opened EntryLists
  import opened Remembered

  ghost predicate WeakCell(L: Layout, c: int) {
    c in L.own && L.Role(c) == WeakSlot
  }

  /** What becomes of the weak element `w`: forwarded with its offset if the object was copied, cut if
      it was not or is a static object still marked, and otherwise unchanged. */
  ghost function WeakResult(L: Layout, T: Trail, marked: set<int>, w: Word): Word {
    if !w.Ptr? then w
    else if L.Type(w.addr) == From then if w.addr in T.fw then Ptr(w.tag, T.fw[w.addr]) else Dead
    else if L.Type(w.addr) == MlStatic && w.addr in L.own && L.own[w.addr] in marked then Dead
    else w
  }

  /** The weak element `w` has become `w1`: a reference to an object of from-space leads to the same word of its copy,
      or has been cut if there is none, and one to a static object is there unless that is still marked. */
  ghost predicate CutOrKept(L: Layout, T: Trail, marked: set<int>, w: Word, w1: Word) {
    if w.Ptr? && L.Type(w.addr) == From then
      w.addr in L.own && var b := L.own[w.addr];
      w1 == if b in T.fw then Ptr(w.tag, T.fw[b] + (w.addr - b)) else Dead
    else if w.Ptr? && L.Type(w.addr) == MlStatic then
      w.addr in L.own && w1 == if L.own[w.addr] in marked then Dead else w
    else w1 == w
  }

  lemma WeakSays(L: Layout, T: Trail, m: seq<Word>, marked: set<int>, c: int)
    requires Core(L, T, m) && WeakCell(L, c)
    ensures CutOrKept(L, T, marked, L.Was(c), WeakResult(L, T, marked, L.Was(c)))
  {
    hide L.ObjectsOk, L.SpacesOk, InverseOk, WholeOk, WordsOk, BasesMarked, EntriesMarked, ThreadsOk, FrameOk, ReachOk;
    var w := L.Was(c);
    if w.Ptr? && L.Type(w.addr) == From {
      CopyTogether(L, T, w.addr);
    }
  }

  /** The weak elements `W` have been dealt with, and no other weak element is anything else than it
      was or should become. */
  ghost predicate WeakState(L: Layout, T: Trail, m: seq<Word>, marked: set<int>, W: set<int>) {
    forall c {:trigger WeakCell(L, c)} :: WeakCell(L, c) ==>
      var w := At(m, T.Cur(c));
      w == WeakResult(L, T, marked, L.Was(c)) || (w == L.Was(c) && c !in W)
  }

  lemma WeakBegins(L: Layout, T: Trail, m: seq<Word>, marked: set<int>)
    requires WeakUntouched(L, T, m)
    ensures WeakState(L, T, m, marked, {})
  {
  }

  /** A weak element that refers to from-space or to a static object is still the original one. */
  lemma WeakRead(L: Layout, T: Trail, m: seq<Word>, marked: set<int>, W: set<int>, c: int)
    requires Core(L, T, m) && WeakState(L, T, m, marked, W) && WeakCell(L, c)
    requires var w := At(m, T.Cur(c)); w.Ptr? && (L.Type(w.addr) == From || L.Type(w.addr) == MlStatic)
    ensures At(m, T.Cur(c)) == L.Was(c) && L.Target(L.Was(c).tag, L.Was(c).addr)
  {
    var w0 := L.Was(c);
    if w0.Ptr? && L.Type(w0.addr) == From && w0.addr in T.fw {
      FwImage(L, T, w0.addr);
    }
  }

  lemma WeakPlace(L: Layout, T: Trail, m: seq<Word>, c: int)
    requires Core(L, T, m) && WeakCell(L, c)
    ensures 0 <= T.Cur(c) < |m| && T.Cur(c) !in T.fw && Kept(L, c)
  {
    CellPlace(L, T, m, c);
  }

  /** Writing a weak element changes nothing else. */
  lemma PokeWeak(L: Layout, T: Trail, m: seq<Word>, m1: seq<Word>, c: int)
    requires Core(L, T, m) && WeakCell(L, c) && Differ(m, m1, T.Cur(c), T.Cur(c))
    ensures Core(L, T, m1)
    ensures forall a :: (a in L.own || a in L.roots) && a != c ==> At(m1, T.Cur(a)) == At(m, T.Cur(a))
  {
    hide L.ObjectsOk, L.SpacesOk, L.WordsFit, InverseOk, WholeOk, WordsOk, BasesMarked, EntriesMarked, FrameOk, ReachOk,
      ThreadsOk;
    CellPlace(L, T, m, c);
    PokeElsewhere(L, T, m, m1, c);
    PokeWeakWords(L, T, m, m1, c);
    PokeThreads(L, T, m, m1, c);
    PokeMarkers(L, T, m, m1, T.Cur(c));
    PokeFrame(L, T, m, m1, c);
  }

  lemma PokeElsewhere(L: Layout, T: Trail, m: seq<Word>, m1: seq<Word>, c: int)
    requires L.ObjectsOk() && L.SpacesOk() && FwdOk(L, T) && c in L.own && Differ(m, m1, T.Cur(c), T.Cur(c))
    ensures forall a :: (a in L.own || a in L.roots) && a != c ==> At(m1, T.Cur(a)) == At(m, T.Cur(a))
  {
    forall a | (a in L.own || a in L.roots) && a != c ensures At(m1, T.Cur(a)) == At(m, T.Cur(a)) {
      if T.Cur(a) == T.Cur(c) {
        CurInjective(L, T, a, c);
      }
    }
  }

  lemma PokeWeakWords(L: Layout, T: Trail, m: seq<Word>, m1: seq<Word>, c: int)
    requires L.SpacesOk() && FwdOk(L, T) && WordsOk(L, T, m) && WeakCell(L, c)
    requires forall a :: (a in L.own || a in L.roots) && a != c ==> At(m1, T.Cur(a)) == At(m, T.Cur(a))
    ensures WordsOk(L, T, m1)
  {
    forall a | a in L.roots ensures T.Cur(a) == a && a != c {
    }
  }

  lemma WeakMore(L: Layout, T: Trail, m: seq<Word>, m1: seq<Word>, marked: set<int>, W: set<int>, c: int)
    requires WeakState(L, T, m, marked, W) && WeakCell(L, c)
    requires forall a :: (a in L.own || a in L.roots) && a != c ==> At(m1, T.Cur(a)) == At(m, T.Cur(a))
    requires At(m1, T.Cur(c)) == WeakResult(L, T, marked, L.Was(c))
    ensures WeakState(L, T, m1, marked, W + {c})
  {
  }

  /** A weak element that refers neither to from-space nor to a static object, and one that refers to an
      unmarked static object, is what it should become. */
  lemma WeakSettled(L: Layout, T: Trail, m: seq<Word>, marked: set<int>, W: set<int>, c: int)
    requires Core(L, T, m) && WeakState(L, T, m, marked, W) && WeakCell(L, c)
    requires var w := At(m, T.Cur(c));
             w.Ptr? ==>
               L.Type(w.addr) != From && (L.Type(w.addr) == MlStatic && w.addr in L.own ==> L.own[w.addr] !in marked)
    ensures At(m, T.Cur(c)) == WeakResult(L, T, marked, L.Was(c))
  {
  }

  /** Where the search for the header starts and how it ends, for an object in from-space. */
  ghost predicate FoundFrom(L: Layout, T: Trail, m: seq<Word>, tag: Tag, a: int, x: int) {
    0 <= x && x + 1 < |m| &&
    if a in T.fw then At(m, x) == Evacuated && At(m, x + 1) == Ptr(tag, T.fw[a] - (a - x)) else At(m, x) != Evacuated
  }

  lemma FoundAtOnce(L: Layout, T: Trail, m: seq<Word>, tag: Tag, a: int)
    requires Core(L, T, m) && L.Target(tag, a) && L.Type(a) == From
    ensures 0 <= a && a + 1 < |m|
    ensures At(m, a) == Evacuated || a == L.own[a] ==> FoundFrom(L, T, m, tag, a, a)
    ensures tag == Pointer && At(m, a) == Null ==> a != L.own[a] && L.SharedEntry(L.own[a], a)
    ensures tag == Pointer && At(m, a) != Null && At(m, a) != Evacuated ==> At(m, a).Hdr?
    ensures tag == Pointer && At(m, a).Hdr? && At(m, a).kind == BackPtr ==> a != L.own[a] && L.CodeEntry(L.own[a], a)
    ensures tag == Pointer && At(m, a).Hdr? && At(m, a).kind != BackPtr ==> a == L.own[a]
    ensures tag != Pointer ==> a == L.own[a]
  {
    hide L.SpacesOk, InverseOk, WholeOk, WordsOk, BasesMarked, EntriesMarked, ThreadsOk, ReachOk;
    LengthKept(L, T, m);
    TargetFacts(L, tag, a);
    HeaderCases(L, T, m, tag, a);
    if At(m, a) != Evacuated {
      KindCases(L, T, m, tag, a);
    }
  }

  lemma FoundCode(L: Layout, T: Trail, m: seq<Word>, a: int)
    requires Core(L, T, m) && L.Target(Pointer, a) && L.Type(a) == From && a != L.own[a] && L.CodeEntry(L.own[a], a)
    requires At(m, a) != Evacuated
    ensures At(m, a) == Hdr(BackPtr, 4 * (a - L.own[a])) && FoundFrom(L, T, m, Pointer, a, L.own[a])
  {
    hide L.SpacesOk, InverseOk, WholeOk, WordsOk, BasesMarked, EntriesMarked, ThreadsOk, ReachOk;
    LengthKept(L, T, m);
    TargetFacts(L, Pointer, a);
    CodeCases(L, T, m, a);
    CopyTogether(L, T, a);
  }

  lemma FoundShared(L: Layout, T: Trail, m: seq<Word>, a: int, x: int)
    requires Core(L, T, m) && L.Target(Pointer, a) && L.Type(a) == From && a != L.own[a] && L.SharedEntry(L.own[a], a)
    requires L.own[a] <= x <= a && (x - L.own[a]) % 2 == 0 && SharedWord(L, T, m, L.own[a], a, x) && At(m, x) != Null
    ensures FoundFrom(L, T, m, Pointer, a, x) && (At(m, x).Hdr? ==> At(m, x).kind != BackPtr)
  {
    hide L.SpacesOk, InverseOk, WholeOk, WordsOk, BasesMarked, EntriesMarked, ThreadsOk, ReachOk;
    TargetFacts(L, Pointer, a);
    CopyTogether(L, T, a);
  }

  function Span(b: int, n: nat): set<int> {
    set x | x in Range(b, n)
  }

  lemma SpanMore(b: int, n: nat)
    ensures Span(b, n + 1) == Span(b, n) + {b + n}
  {
    SpanHas(b, n);
    SpanHas(b, n + 1);
  }

  lemma SpanHas(b: int, n: nat)
    ensures forall x :: x in Span(b, n) <==> b <= x < b + n
  {
    forall x | b <= x < b + n ensures x in Span(b, n) {
      assert Range(b, n)[x - b] == x;
    }
  }

  /** The elements of a weak array. */
  lemma WeakCells(L: Layout, T: Trail, b: int, c: int)
    requires L.ObjectsOk() && L.SpacesOk() && FwdOk(L, T) && L.Base(b) && WeakHeader(L.Was(b))
    requires b + 3 <= c < b + 3 + L.Was(b).len
    ensures c in L.own && L.own[c] == b && WeakCell(L, c) && Kept(L, c) && T.Cur(c) == T.Cur(b) + (c - b)
  {
    assert L.Within(b, c);
    Inside(L, T, b, c - b);
  }

  /** Only weak elements and links differ. */
  ghost predicate WeakOnly(L: Layout, T: Trail, m: seq<Word>, m1: seq<Word>) {
    forall a {:trigger Kept(L, a)} :: Kept(L, a) && !WeakCell(L, a) ==> At(m1, T.Cur(a)) == At(m, T.Cur(a))
  }

  lemma NothingWeak(L: Layout, T: Trail, m: seq<Word>)
    ensures WeakOnly(L, T, m, m)
  {
  }

  lemma WeakOnlyTrans(L: Layout, T: Trail, m: seq<Word>, m1: seq<Word>, m2: seq<Word>)
    requires WeakOnly(L, T, m, m1) && WeakOnly(L, T, m1, m2)
    ensures WeakOnly(L, T, m, m2)
  {
    hide WeakCell;
  }

  lemma WeakDiffers(L: Layout, T: Trail, m: seq<Word>, m1: seq<Word>, c: int)
    requires Core(L, T, m) && WeakCell(L, c) && Differ(m, m1, T.Cur(c), T.Cur(c))
    ensures WeakOnly(L, T, m, m1)
    ensures forall a :: (a in L.own || a in L.roots) && a != c ==> At(m1, T.Cur(a)) == At(m, T.Cur(a))
  {
    hide Core, L.ObjectsOk, L.SpacesOk, InverseOk, WholeOk, RingsOk;
    CoreRings(L, T, m);
    PokeElsewhere(L, T, m, m1, c);
  }

  lemma YoungestFrame(L: Layout, A: Ages, T: Trail, m: seq<Word>, T1: Trail, m1: seq<Word>, b: int, i: int, own: int,
                      y: int)
    requires Youngest(L, A, T, m, b, i, own, y)
    requires forall c :: b + 3 <= c < b + 3 + i ==> At(m1, T1.Cur(c)) == At(m, T.Cur(c))
    ensures Youngest(L, A, T1, m1, b, i, own, y)
  {
    hide Collectable;
    forall c {:trigger ElementOlder(L, A, T1, m1, c, A.Number(y))} | b + 3 <= c < b + 3 + i
      ensures ElementOlder(L, A, T1, m1, c, A.Number(y))
    {
      assert ElementOlder(L, A, T, m, c, A.Number(y));
    }
    if y != own {
      var c :| b + 3 <= c < b + 3 + i && ElementIn(L, A, T, m, c, y);
      assert ElementIn(L, A, T1, m1, c, y);
    }
  }

  lemma WeakCollectable(L: Layout, T: Trail, m: seq<Word>, marked: set<int>, W: set<int>, c: int)
    requires Core(L, T, m) && WeakState(L, T, m, marked, W) && WeakCell(L, c) && Collectable(L, At(m, T.Cur(c)))
    ensures var w := WeakResult(L, T, marked, L.Was(c)); w == Dead || Collectable(L, w)
  {
    hide L.ObjectsOk, L.WordsFit, WholeOk, WordsOk, BasesMarked, EntriesMarked, ThreadsOk, ReachOk;
    var w0 := L.Was(c);
    if w0.Ptr? && L.Type(w0.addr) == From && w0.addr in T.fw {
      FwImage(L, T, w0.addr);
    }
  }

  lemma WeakTarget(L: Layout, T: Trail, m: seq<Word>, marked: set<int>, W: set<int>, c: int)
    requires Core(L, T, m) && WeakState(L, T, m, marked, W) && WeakCell(L, c)
    ensures var w := At(m, T.Cur(c)); w.Ptr? && L.Type(w.addr) == MlStatic ==> L.Target(w.tag, w.addr)
  {
    var w := At(m, T.Cur(c));
    if w.Ptr? && L.Type(w.addr) == MlStatic {
      WeakRead(L, T, m, marked, W, c);
    }
  }

  /** The elements of the array `b`, if it is a weak one, have been dealt with, and it is on the list of
      the youngest generation it refers to or lies in. */
  ghost predicate WeakHandled(L: Layout, A: Ages, T: Trail, m: seq<Word>, W: set<int>, home: map<int, int>, b: int) {
    L.Base(b) && WeakHeader(L.Was(b)) ==>
      Span(b + 3, L.Was(b).len) <= W && b in home &&
        Youngest(L, A, T, m, b, L.Was(b).len, GenAt(L, A, T.Cur(b)), home[b])
  }

  ghost predicate WeakHandledAll(L: Layout, A: Ages, T: Trail, m: seq<Word>, W: set<int>, home: map<int, int>,
                                 s: seq<int>) {
    forall b {:trigger WeakHandled(L, A, T, m, W, home, b)} :: b in s ==> WeakHandled(L, A, T, m, W, home, b)
  }

  lemma SettledSame(L: Layout, T: Trail, m: seq<Word>, marked: set<int>, W: set<int>, T1: Trail, m1: seq<Word>,
                    W1: set<int>, c: int)
    requires WeakState(L, T, m, marked, W) && WeakState(L, T1, m1, marked, W1) && SameFw(T, T1) && W <= W1
    requires WeakCell(L, c) && c in W
    ensures At(m1, T1.Cur(c)) == At(m, T.Cur(c))
  {
    SameCur(T, T1, c);
  }

  lemma WeakHandledStays(L: Layout, A: Ages, T: Trail, m: seq<Word>, marked: set<int>, W: set<int>, home: map<int, int>,
                         T1: Trail, m1: seq<Word>, W1: set<int>, home1: map<int, int>, b: int)
    requires L.ObjectsOk() && L.SpacesOk() && FwdOk(L, T) && SameFw(T, T1) && W <= W1 && SameHome(home, home1, b)
    requires WeakState(L, T, m, marked, W) && WeakState(L, T1, m1, marked, W1) && WeakHandled(L, A, T, m, W, home, b)
    ensures WeakHandled(L, A, T1, m1, W1, home1, b)
  {
    hide L.ObjectsOk, L.SpacesOk, InverseOk, WholeOk, WeakState, Youngest, Span, GenAt;
    if L.Base(b) && WeakHeader(L.Was(b)) {
      var n := L.Was(b).len;
      SameCur(T, T1, b);
      forall c | b + 3 <= c < b + 3 + n ensures At(m1, T1.Cur(c)) == At(m, T.Cur(c)) {
        SpanHas(b + 3, n);
        WeakCells(L, T, b, c);
        SettledSame(L, T, m, marked, W, T1, m1, W1, c);
      }
      YoungestFrame(L, A, T, m, T1, m1, b, n, GenAt(L, A, T.Cur(b)), home[b]);
    }
  }

  lemma WeakHandledMore(L: Layout, A: Ages, T: Trail, m: seq<Word>, marked: set<int>, W: set<int>, home: map<int, int>,
                        T1: Trail, m1: seq<Word>, W1: set<int>, home1: map<int, int>, s: seq<int>, k: int)
    requires L.ObjectsOk() && L.SpacesOk() && FwdOk(L, T) && SameFw(T, T1) && W <= W1
    requires WeakState(L, T, m, marked, W) && WeakState(L, T1, m1, marked, W1) && Distinct(s) && 0 <= k < |s|
    requires WeakHandledAll(L, A, T, m, W, home, s[..k]) && WeakHandled(L, A, T1, m1, W1, home1, s[k])
    requires if WeakHeader(L.Was(s[k])) then home1 - {s[k]} == home - {s[k]} else home1 == home
    ensures WeakHandledAll(L, A, T1, m1, W1, home1, s[..k + 1])
  {
    hide L.ObjectsOk, L.SpacesOk, InverseOk, WholeOk, WeakState, WeakHandled, SameHome, SameFw;
    forall b {:trigger WeakHandled(L, A, T1, m1, W1, home1, b)} | b in s[..k + 1]
      ensures WeakHandled(L, A, T1, m1, W1, home1, b)
    {
      if b != s[k] {
        assert b in s[..k];
        SameHomeBut(home, home1, s[k], b);
        WeakHandledStays(L, A, T, m, marked, W, home, T1, m1, W1, home1, b);
      }
    }
  }

  /** Moving an array to another list keeps the state of the weak elements. */
  lemma RelinkWeak(L: Layout, T: Trail, m: seq<Word>, marked: set<int>, W: set<int>, T1: Trail, m1: seq<Word>)
    requires WeakState(L, T, m, marked, W) && SameFw(T, T1)
    requires forall a {:trigger Kept(L, a)} :: Kept(L, a) ==> At(m1, T1.Cur(a)) == At(m, T.Cur(a))
    ensures WeakState(L, T1, m1, marked, W) && WeakOnly(L, T1, m, m1)
  {
    forall c {:trigger WeakCell(L, c)} | WeakCell(L, c) ensures At(m1, T1.Cur(c)) == At(m, T.Cur(c)) {
      assert Kept(L, c);
    }
    forall a {:trigger Kept(L, a)} | Kept(L, a) ensures T.Cur(a) == T1.Cur(a) {
    }
  }

  lemma WeakOnlySame(L: Layout, T: Trail, T1: Trail, m: seq<Word>, m1: seq<Word>)
    requires WeakOnly(L, T, m, m1) && SameFw(T, T1)
    ensures WeakOnly(L, T1, m, m1)
  {
    forall a {:trigger Kept(L, a)} | Kept(L, a) ensures T.Cur(a) == T1.Cur(a) {
    }
  }

  lemma SameFwRefl(T: Trail)
    ensures SameFw(T, T)
  {
  }

  lemma ArrayMovedOver(L: Layout, A: Ages, T: Trail, m: seq<Word>, T1: Trail, m1: seq<Word>, b: int, own: int, y: int)
    requires L.ObjectsOk() && L.SpacesOk() && FwdOk(L, T) && SameFw(T, T1) && L.Base(b) && WeakHeader(L.Was(b))
    requires Youngest(L, A, T, m, b, L.Was(b).len, own, y)
    requires forall a {:trigger Kept(L, a)} :: Kept(L, a) ==> At(m1, T1.Cur(a)) == At(m, T.Cur(a))
    ensures Youngest(L, A, T1, m1, b, L.Was(b).len, own, y) && T1.Cur(b) == T.Cur(b)
  {
    hide L.ObjectsOk, L.SpacesOk, InverseOk, WholeOk, Youngest, Kept;
    forall c | b + 3 <= c < b + 3 + L.Was(b).len ensures At(m1, T1.Cur(c)) == At(m, T.Cur(c)) {
      WeakCells(L, T, b, c);
    }
    YoungestFrame(L, A, T, m, T1, m1, b, L.Was(b).len, own, y);
  }

  lemma SameFwTrans(T: Trail, T1: Trail, T2: Trail)
    requires SameFw(T, T1) && SameFw(T1, T2)
    ensures SameFw(T, T2)
  {
  }

  lemma WeakNone(L: Layout, A: Ages, T: Trail, m: seq<Word>, W: set<int>, home: map<int, int>)
    ensures WeakHandledAll(L, A, T, m, W, home, []) && HomeFrame(L, home, home, [], true)
  {
  }

  lemma WeakHandledUnion(L: Layout, A: Ages, T: Trail, m: seq<Word>, marked: set<int>, W: set<int>, home: map<int, int>,
                         T1: Trail, m1: seq<Word>, W1: set<int>, home0: map<int, int>, home1: map<int, int>,
                           P: seq<int>, s: seq<int>)
    requires L.ObjectsOk() && L.SpacesOk() && FwdOk(L, T) && SameFw(T, T1) && W <= W1
    requires WeakState(L, T, m, marked, W) && WeakState(L, T1, m1, marked, W1)
    requires WeakHandledAll(L, A, T, m, W, home, P) && WeakHandledAll(L, A, T1, m1, W1, home1, s)
    requires HomeFrame(L, home0, home, P, true) && HomeFrame(L, home, home1, s, true)
    ensures WeakHandledAll(L, A, T1, m1, W1, home1, P + s) && HomeFrame(L, home0, home1, P + s, true)
  {
    hide L.ObjectsOk, L.SpacesOk, InverseOk, WholeOk, WeakState, WeakHandled, SameFw, SameHome;
    forall b {:trigger WeakHandled(L, A, T1, m1, W1, home1, b)} | b in P + s
      ensures WeakHandled(L, A, T1, m1, W1, home1, b)
    {
      if b !in s {
        assert SameHome(home, home1, b);
        WeakHandledStays(L, A, T, m, marked, W, home, T1, m1, W1, home1, b);
      }
    }
    forall n {:trigger SameHome(home0, home1, n)} | n !in P + s || !HasKind(L.Was(n), true)
      ensures SameHome(home0, home1, n)
    {
      assert SameHome(home0, home, n) && SameHome(home, home1, n);
      SameHomeTrans(home0, home, home1, n);
    }
  }
}
