/** What a collection starts from and what it achieves: the live part of the heap is copied word for
    word with its references forwarded, nothing that is live is missed, and the entry lists again
    record every reference to a younger generation. */
module Outcome {
  import opened Heap
  import opened Copying
  import opened Moving
  import opened Scanning
  import opened EntryLists
  import opened Remembered
  import opened Roots
  import opened Weak
  import opened Survival
  import opened Sweeping

  /** What a collection of the generation `from` into `to` starts from: the layout of the heap, the
      ages of objects before and after the static objects of `from` were moved to `to`, the younger
      generations, the list each array is on, and the roots of the table. */
  datatype Setting = Setting(
    L: Layout, before: Ages, ages: Ages, from: int, to: int, younger: seq<int>, home: map<int, int>, table: seq<Entry>)
  {
    ghost function Young(): set<int> {
      {from} + Elements(younger)
    }

    function Statics(): seq<int> {
      if from in before.gens then before.gens[from].statics else []
    }

    /** `to` is an older generation, or an empty one that takes the place of `from`. */
    ghost predicate TargetOk() {
      ages.Number(to) == ages.Number(from) ==>
        to in before.gens && before.gens[to].start == before.gens[to].top && before.gens[to].statics == [] &&
        forall b :: b in home ==> home[b] != to
    }

    /** The static objects of `from` count as objects of `to` while the collection runs. */
    ghost predicate AgesMove() {
      && ages.gens == before.gens && ages.space == before.space && ages.holder.Keys == before.holder.Keys
      && (forall b :: b in before.holder ==> ages.holder[b] == if b in Statics() then to else before.holder[b])
      && (forall b :: b in before.holder && b in L.own ==> (b in Statics() <==> before.holder[b] == from))
    }

    /** The collection sets out from `c`. */
    ghost predicate SetsOut(c: int) {
      || c in TableCells(table, true)
      || c in ObjectCells(L, Statics())
      || (exists g :: g in younger && c in GenCells(L, ages, g))
      || (c in L.own && L.Role(c) == Slot && L.own[c] in home && home[L.own[c]] in Young() &&
        OrdinaryHeader(L.Was(L.own[c])))
    }

    ghost predicate Ready() {
      && Orderly(L, before, home, {}) && AgeingOk(L, ages, from, to) && AgesMove() && TargetOk()
      && ChainOk(ages, from, younger)
      && (forall g :: g in ages.gens && ages.Number(g) <= ages.Number(from) ==> g in Young() || g == to)
      && (forall c :: c in L.roots <==> c in TableCells(table, true))
      && (forall c :: c in L.entry ==> SetsOut(c) && L.Cell(c))
    }
  }

  // ---- Arrays that refer to themselves ----

  /** The generation whose entry list is gone through when `i` lists have been. */
  function Turn(S: Setting, i: nat): int
    requires i <= |S.younger|
  {
    if i == 0 then S.from else S.younger[i - 1]
  }

  /** The elements of the arrays on the list of `g`. */
  ghost function ListCells(S: Setting, lists: map<int, seq<int>>, g: int): set<int> {
    if g in lists then ObjectCells(S.L, lists[g]) else {}
  }

  /** The cells that are fixed before the turn of the list `Turn(S, i)`. */
  ghost function Early(S: Setting, lists: map<int, seq<int>>, i: nat): set<int>
    requires i <= |S.younger|
    decreases i, 0
  {
    if i == 0 then TableCells(S.table, false)
    else Passed(S, lists, i - 1) + GenCells(S.L, S.ages, S.younger[i - 1])
  }

  /** The cells that are fixed when the turn of the list `Turn(S, i)` is over. */
  ghost function Passed(S: Setting, lists: map<int, seq<int>>, i: nat): set<int>
    requires i <= |S.younger|
    decreases i, 1
  {
    Early(S, lists, i) + ListCells(S, lists, Turn(S, i)) + if i == 0 then ObjectCells(S.L, S.Statics()) else {}
  }

  /** On each list that is gone through, every array that lies in from-space and refers to itself has been copied
      when its turn comes, because a root that counts for images, or a slot or element fixed earlier, refers to it. */
  ghost predicate OnTime(S: Setting, lists: map<int, seq<int>>) {
    forall i :: 0 <= i <= |S.younger| ==>
      Turn(S, i) in lists && Timely(S.L, Early(S, lists, i), lists[Turn(S, i)])
  }

  /** `b` is still there after the collection: not left behind in from-space, nor freed. */
  ghost predicate Alive(L: Layout, T: Trail, marked: set<int>, b: int) {
    L.Base(b) && if L.Type(b) == From then b in T.fw else b !in marked
  }

  /** What is known when all copying is done. */
  ghost predicate CopyingDone(S: Setting, T: Trail, m: seq<Word>, marked: set<int>, home: map<int, int>,
                              fixed: set<int>, filed: seq<int>) {
    && Inv(S.L, T, m) && marked <= Elements(S.Statics())
    && Progress(S.L, S.ages, T, m, marked, S.home, home, S.to, fixed, filed)
    && Picked(S.home, filed, S.Young())
    && DoneIn(S.L, T, m, marked, S.L.start, S.L.start + T.used)
    && TableCells(S.table, true) <= fixed && ObjectCells(S.L, S.Statics()) <= fixed
    && GensFixed(S.L, S.ages, fixed, S.younger)
  }

  // ---- Nothing is missed ----

  /** The word refers to the generation being collected. */
  ghost predicate IntoFrom(S: Setting, w: Word) {
    Collectable(S.L, w) && WordGen(S.L, S.before, w) == S.from
  }

  ghost predicate Ordinary(L: Layout, b: int) {
    L.Base(b) && OrdinaryHeader(L.Was(b))
  }

  lemma ReadyParts(S: Setting)
    requires S.Ready()
    ensures AgeingOk(S.L, S.ages, S.from, S.to) && AgesOk(S.L, S.before) && S.AgesMove() && S.TargetOk()
    ensures forall g :: g in S.ages.gens && S.ages.Number(g) <= S.ages.Number(S.from) ==> g in S.Young() || g == S.to
  {
  }

  lemma ReadyCell(S: Setting, c: int)
    requires S.Ready() && c in S.L.own
    ensures Placed(S.L, S.before, c) && (HoldsValue(S.L, c) ==> Noted(S.L, S.before, S.home, c))
    ensures S.L.own[c] in S.home ==> S.home[S.L.own[c]] in S.before.gens
    ensures WeakNoted(S.L, S.before, S.home, S.L.own[c])
  {
    hide AgesOk, AgeingOk, WeakNoted, Placed, Noted;
  }

  lemma GenKnown(S: Setting, b: int)
    requires S.Ready() && S.L.Base(b)
    ensures GenAt(S.L, S.before, b) in S.before.gens
    ensures S.L.Type(b) == From ==> GenAt(S.L, S.before, b) == S.from
    ensures S.L.Type(b) == MlHeap ==> GenAt(S.L, S.before, b) != S.from
  {
    ReadyParts(S);
    assert IsHeapType(S.L.Type(b));
    if S.L.Type(b) == From {
      assert GenAt(S.L, S.ages, b) == S.from;
    }
  }

  /** Where the objects of the generations up to `from` are that stay in place. */
  lemma YoungPlace(S: Setting, c: int)
    requires S.Ready() && S.L.ObjectsOk() && S.L.SpacesOk() && c in S.L.own && S.L.Type(c) != From
    requires var g := GenAt(S.L, S.before, S.L.own[c]); S.before.Number(g) <= S.before.Number(S.from)
    ensures var g := GenAt(S.L, S.before, S.L.own[c]);
            if g == S.from then S.L.own[c] in S.Statics()
            else g in S.younger && g in S.ages.gens &&
                 if S.L.Type(S.L.own[c]) == MlStatic then S.L.own[c] in S.ages.gens[g].statics
                 else S.ages.gens[g].start <= c < S.ages.gens[g].top
  {
    hide S.Ready, S.L.ObjectsOk, S.L.SpacesOk, AgeingOk, AgesOk;
    OwnBase(S.L, c);
    SameSpace(S.L, c);
    ReadyParts(S);
    ReadyCell(S, c);
    GenKnown(S, S.L.own[c]);
    BaseType(S, S.L.own[c]);
  }

  lemma BaseType(S: Setting, b: int)
    requires S.Ready() && S.L.Base(b)
    ensures IsHeapType(S.L.Type(b))
  {
  }

  /** An array that refers to the generation being collected from an older one is on a list that is gone through. */
  lemma YoungHome(S: Setting, b: int)
    requires S.Ready() && b in S.home && S.home[b] in S.before.gens
    requires S.before.Number(S.home[b]) <= S.before.Number(S.from)
    ensures S.home[b] in S.Young()
  {
    hide AgeingOk, AgesOk;
    ReadyParts(S);
    NumbersOk(S);
  }

  lemma NumbersOk(S: Setting)
    requires S.Ready()
    ensures S.ages.Number(S.to) == S.ages.Number(S.from) || S.ages.Number(S.to) == S.ages.Number(S.from) + 1
  {
  }

  /** In a slot of an object that stays in place and refers to the generation being collected, the
      reference is among those gone through. */
  lemma Covered(S: Setting, fixed: set<int>, filed: seq<int>, c: int)
    requires S.Ready() && S.L.ObjectsOk() && S.L.SpacesOk()
    requires Picked(S.home, filed, S.Young())
    requires ObjectCells(S.L, S.Statics()) <= fixed && GensFixed(S.L, S.ages, fixed, S.younger)
    requires c in S.L.own && S.L.Role(c) == Slot && S.L.Type(c) != From && IntoFrom(S, S.L.Was(c))
    ensures c in fixed || (Ordinary(S.L, S.L.own[c]) && S.L.own[c] in filed)
  {
    hide S.Ready, S.L.ObjectsOk, S.L.SpacesOk, AgeingOk, AgesOk, Placed;
    var L := S.L;
    var b := L.own[c];
    OwnBase(L, c);
    SameSpace(L, c);
    ReadyCell(S, c);
    if S.before.Number(GenAt(L, S.before, b)) <= S.before.Number(S.from) {
      YoungPlace(S, c);
    } else {
      YoungHome(S, b);
    }
  }

  lemma SlotOfArray(L: Layout, b: int, c: int)
    requires L.ObjectsOk() && Ordinary(L, b) && c in L.own && L.own[c] == b && L.Role(c) == Slot
    ensures b + 3 <= c < b + 3 + L.Was(b).len
  {
    assert L.Within(b, c);
  }

  /** A word that does not refer to the generation being collected refers neither to from-space nor
      to a static object that may be freed. */
  lemma OutOfFrom(S: Setting, marked: set<int>, w: Word)
    requires S.Ready() && S.L.ObjectsOk() && S.L.SpacesOk() && marked <= Elements(S.Statics()) && S.L.ValueOk(w)
    requires !IntoFrom(S, w)
    ensures w.Ptr? ==>
            S.L.Type(w.addr) != From &&
            (S.L.Type(w.addr) == MlStatic && w.addr in S.L.own ==> S.L.own[w.addr] !in marked)
  {
    hide S.L.ObjectsOk, S.L.SpacesOk, AgesOk;
    ReadyParts(S);
    if w.Ptr? && S.L.Type(w.addr) == From {
      FromWord(S, w);
    } else if w.Ptr? && S.L.Type(w.addr) == MlStatic && w.addr in S.L.own && S.L.own[w.addr] in marked {
      TargetFacts(S.L, w.tag, w.addr);
      SameSpace(S.L, w.addr);
      StaticGen(S.L, S.before, w.addr);
    }
  }

  lemma FromWord(S: Setting, w: Word)
    requires S.Ready() && w.Ptr? && S.L.Type(w.addr) == From
    ensures IntoFrom(S, w)
  {
    ReadyParts(S);
    assert GenAt(S.L, S.ages, w.addr) == S.from;
  }

  lemma CellValue(L: Layout, c: int)
    requires L.WordsFit() && L.Cell(c)
    ensures L.ValueOk(L.Was(c))
  {
  }

  /** A slot that did not refer to the generation being collected is as it was. */
  lemma UntouchedDone(S: Setting, T: Trail, m: seq<Word>, marked: set<int>, c: int)
    requires S.Ready() && Core(S.L, T, m) && marked <= Elements(S.Statics()) && S.L.Cell(c) && !IntoFrom(S, S.L.Was(c))
    ensures At(m, T.Cur(c)) == S.L.Was(c) && Done(S.L, T, m, marked, c)
  {
    hide S.Ready, Core, S.L.ObjectsOk, S.L.SpacesOk, S.L.WordsFit, IntoFrom;
    CoreRings(S.L, T, m);
    CellValue(S.L, c);
    OutOfFrom(S, marked, S.L.Was(c));
    CellRel(S.L, T, m, c);
  }

  lemma CellRel(L: Layout, T: Trail, m: seq<Word>, c: int)
    requires Core(L, T, m) && L.Cell(c)
    ensures SlotRel(L, T, L.Was(c), At(m, T.Cur(c))) && (c in L.roots ==> T.Cur(c) == c)
  {
    hide L.ObjectsOk, L.WordsFit, InverseOk, BasesMarked, EntriesMarked, ThreadsOk, ReachOk, FrameOk;
  }

  lemma HandledDone(L: Layout, A: Ages, T: Trail, m: seq<Word>, marked: set<int>, home: map<int, int>, to: int,
                    P: seq<int>, c: int)
    requires L.ObjectsOk() && HandledAll(L, A, T, m, marked, home, to, P) && c in L.own && L.Role(c) == Slot
    requires Ordinary(L, L.own[c]) && L.own[c] in P
    ensures Done(L, T, m, marked, c)
  {
    assert Handled(L, A, T, m, marked, home, to, L.own[c]);
    SlotOfArray(L, L.own[c], c);
  }

  lemma CopiedSlot(L: Layout, T: Trail, m: seq<Word>, marked: set<int>, c: int)
    requires FwdOk(L, T) && DoneIn(L, T, m, marked, L.start, L.start + T.used)
    requires c in L.own && L.own[c] in T.fw && L.Role(c) == Slot
    ensures Done(L, T, m, marked, c)
  {
    CopyTogether(L, T, c);
    var top := L.start + T.used;
    assert SlotIn(L, T, L.start, top, c);
  }

  /** When all copying is done, every root and every slot of a live object is done. */
  lemma LiveDone(S: Setting, T: Trail, m: seq<Word>, marked: set<int>, home: map<int, int>, fixed: set<int>,
                 filed: seq<int>, c: int)
    requires S.Ready() && CopyingDone(S, T, m, marked, home, fixed, filed)
    requires S.L.Cell(c) && (c in S.L.own ==> Alive(S.L, T, marked, S.L.own[c]))
    ensures Done(S.L, T, m, marked, c)
  {
    hide S.Ready, Inv, Core, S.L.ObjectsOk, S.L.SpacesOk, S.L.WordsFit, InverseOk, WholeOk, IntoFrom, ReachOk, RingsOk;
    InvParts(S.L, T, m);
    if c in S.L.roots {
      RootInTable(S, c);
      assert c in fixed;
    } else if S.L.own[c] in T.fw {
      CopiedSlot(S.L, T, m, marked, c);
    } else if IntoFrom(S, S.L.Was(c)) {
      SameSpace(S.L, c);
      Covered(S, fixed, filed, c);
      if c !in fixed {
        HandledDone(S.L, S.ages, T, m, marked, home, S.to, filed, c);
      }
    } else {
      UntouchedDone(S, T, m, marked, c);
    }
  }

  lemma RootInTable(S: Setting, c: int)
    requires S.Ready() && c in S.L.roots
    ensures c in TableCells(S.table, true)
  {
  }

  /** A done cell holds its original word, with the reference forwarded if it led to from-space. */
  lemma DoneFixed(L: Layout, T: Trail, m: seq<Word>, marked: set<int>, c: int)
    requires Core(L, T, m) && L.Cell(c) && Done(L, T, m, marked, c)
    ensures IsFixed(L, T, L.Was(c), At(m, T.Cur(c)))
  {
    hide Core;
    CellRel(L, T, m, c);
  }

  // ---- Exactly the reachable objects are copied ----

  /** Every slot from which the collection sets out is done. */
  lemma EntryDone(S: Setting, T: Trail, m: seq<Word>, marked: set<int>, home: map<int, int>, fixed: set<int>,
                  filed: seq<int>, c: int)
    requires S.Ready() && CopyingDone(S, T, m, marked, home, fixed, filed) && c in S.L.entry
    ensures S.L.Cell(c) && Done(S.L, T, m, marked, c)
  {
    hide S.Ready, Inv, Core, S.L.ObjectsOk, S.L.SpacesOk, S.L.WordsFit, InverseOk, WholeOk, RingsOk, ReachOk, GenCells,
      TableCells, ObjectCells,
      Handled, HandledAll, HomeFrame, DoneIn;
    InvParts(S.L, T, m);
    EntrySetsOut(S, c);
    if g :| g in S.younger && c in GenCells(S.L, S.ages, g) {
      assert c in fixed;
    } else if c !in fixed {
      OwnBase(S.L, c);
      HandledDone(S.L, S.ages, T, m, marked, home, S.to, filed, c);
    }
  }

  lemma EntrySetsOut(S: Setting, c: int)
    requires S.Ready() && c in S.L.entry
    ensures S.SetsOut(c) && S.L.Cell(c)
  {
  }

  lemma RefersOn(L: Layout, T: Trail, m: seq<Word>, marked: set<int>, c: int, b: int)
    requires Core(L, T, m) && L.Cell(c) && Done(L, T, m, marked, c) && L.PointsTo(c, b)
    ensures b in T.fw
  {
    hide Core;
    CoreRings(L, T, m);
    DoneFixed(L, T, m, marked, c);
    CopyTogether(L, T, L.Was(c).addr);
  }

  lemma {:induction false} ReachedCopied(S: Setting, T: Trail, m: seq<Word>, marked: set<int>, home: map<int, int>,
                                         fixed: set<int>, filed: seq<int>,
                                         b: int, k: nat)
    requires S.Ready() && CopyingDone(S, T, m, marked, home, fixed, filed) && S.L.ReachedIn(b, k)
    ensures b in T.fw
    decreases k
  {
    hide S.Ready, Inv, Core, Progress, Picked, DoneIn, GensFixed, TableCells, ObjectCells, Done, S.L.ObjectsOk,
      S.L.SpacesOk, S.L.WordsFit,
      InverseOk, WholeOk, RingsOk, ReachOk, S.L.PointsTo;
    InvParts(S.L, T, m);
    if k == 0 {
      var c :| c in S.L.entry && S.L.PointsTo(c, b);
      EntryDone(S, T, m, marked, home, fixed, filed, c);
      RefersOn(S.L, T, m, marked, c, b);
    } else {
      var c :| c in S.L.own && S.L.Role(c) == Slot && S.L.PointsTo(c, b) && S.L.ReachedIn(S.L.own[c], k - 1);
      ReachedCopied(S, T, m, marked, home, fixed, filed, S.L.own[c], k - 1);
      CopiedSlot(S.L, T, m, marked, c);
      RefersOn(S.L, T, m, marked, c, b);
    }
  }

  /** An object of from-space is copied if and only if it can be reached from where the collection sets out. */
  lemma CopiedIffReachable(S: Setting, T: Trail, m: seq<Word>, marked: set<int>, home: map<int, int>, fixed: set<int>,
                           filed: seq<int>, b: int)
    requires S.Ready() && CopyingDone(S, T, m, marked, home, fixed, filed) && S.L.Base(b) && S.L.Type(b) == From
    ensures b in T.fw <==> S.L.Reachable(b)
  {
    hide S.Ready, Inv, Core, CopyingDone, S.L.ReachedIn;
    if S.L.Reachable(b) {
      var k: nat :| S.L.ReachedIn(b, k);
      ReachedCopied(S, T, m, marked, home, fixed, filed, b, k);
    }
    if b in T.fw {
      CopyingReach(S, T, m, marked, home, fixed, filed);
    }
  }

  /** A done cell that refers to a static object has taken the mark off it. */
  lemma MentionUnmarks(L: Layout, T: Trail, m: seq<Word>, marked: set<int>, c: int, b: int)
    requires Core(L, T, m) && Done(L, T, m, marked, c) && L.Mentions(c, b)
    ensures b !in marked
  {
    hide Core;
    DoneFixed(L, T, m, marked, c);
  }

  /** A static object of the generation keeps its mark, and so is freed, if and only if nothing mentions it
      from where the collection sets out or from a reachable object. */
  lemma MarkedIffUnmentioned(S: Setting, T: Trail, m: seq<Word>, marked: set<int>, home: map<int, int>, fixed: set<int>,
                             filed: seq<int>, b: int)
    requires S.Ready() && CopyingDone(S, T, m, marked, home, fixed, filed) && Spared(S.L, Elements(S.Statics()), marked)
    requires b in S.Statics()
    ensures b in marked <==> !S.L.Mentioned(b)
  {
    hide S.Ready, Inv, Core, Progress, Picked, DoneIn, GensFixed, TableCells, ObjectCells, Done, S.L.ObjectsOk,
      S.L.SpacesOk, S.L.WordsFit,
      InverseOk, WholeOk, RingsOk, ReachOk, S.L.ReachedIn;
    InvParts(S.L, T, m);
    InvCore(S.L, T, m);
    if S.L.Mentioned(b) {
      var a :| S.L.Mentions(a, b);
      if a in S.L.entry {
        EntryDone(S, T, m, marked, home, fixed, filed, a);
      } else {
        var k: nat :| S.L.ReachedIn(S.L.own[a], k);
        ReachedCopied(S, T, m, marked, home, fixed, filed, S.L.own[a], k);
        SlotOfCopied(S.L, T, a);
        CopiedSlot(S.L, T, m, marked, a);
      }
      MentionUnmarks(S.L, T, m, marked, a, b);
    }
  }

  lemma SlotOfCopied(L: Layout, T: Trail, a: int)
    requires L.ObjectsOk() && L.SpacesOk() && FwdOk(L, T) && L.Cell(a) && a in L.own && L.own[a] in T.fw
    ensures L.Role(a) == Slot
  {
  }

  lemma AllMarked(S: Setting, T: Trail, m: seq<Word>, marked: set<int>, home: map<int, int>, fixed: set<int>,
                  filed: seq<int>)
    requires S.Ready() && CopyingDone(S, T, m, marked, home, fixed, filed) && Spared(S.L, Elements(S.Statics()), marked)
    ensures forall b :: b in S.Statics() ==> (b in marked <==> !S.L.Mentioned(b))
  {
    hide S.Ready, CopyingDone, Spared, S.L.Mentioned;
    forall b | b in S.Statics() ensures b in marked <==> !S.L.Mentioned(b) {
      MarkedIffUnmentioned(S, T, m, marked, home, fixed, filed, b);
    }
  }

  lemma CopyingReach(S: Setting, T: Trail, m: seq<Word>, marked: set<int>, home: map<int, int>, fixed: set<int>,
                     filed: seq<int>)
    requires CopyingDone(S, T, m, marked, home, fixed, filed)
    ensures ReachOk(S.L, T) && Core(S.L, T, m) && marked <= Elements(S.Statics())
  {
    hide Core, ReachOk, Progress;
    InvParts(S.L, T, m);
  }

  // ---- Weak arrays ----

  /** What is known when the weak arrays have been dealt with: those of `P` have, and only weak arrays
      have changed lists since `home1`. */
  ghost predicate WeakDone(S: Setting, T: Trail, m: seq<Word>, marked: set<int>, home1: map<int, int>,
                           home: map<int, int>, settled: set<int>, P: seq<int>) {
    && Core(S.L, T, m) && WeakState(S.L, T, m, marked, settled)
    && WeakHandledAll(S.L, S.ages, T, m, settled, home, P) && HomeFrame(S.L, home1, home, P, true)
    && Picked(home1, P, S.Young())
    && (forall b :: b in S.home && WeakHeader(S.L.Was(b)) ==> b in home1 && home1[b] == S.home[b])
  }

  lemma WeakSlotOf(L: Layout, b: int, c: int)
    requires L.ObjectsOk() && c in L.own && L.own[c] == b && L.Role(c) == WeakSlot
    ensures L.Base(b) && WeakHeader(L.Was(b)) && b + 3 <= c < b + 3 + L.Was(b).len && c in Span(b + 3, L.Was(b).len)
  {
    assert L.Within(b, c);
    SpanHas(b + 3, L.Was(b).len);
  }

  /** A weak element that refers to the generation being collected is on a list that is gone through. */
  lemma WeakCovered(S: Setting, c: int)
    requires S.Ready() && S.L.ObjectsOk() && S.L.SpacesOk()
    requires c in S.L.own && S.L.Role(c) == WeakSlot && IntoFrom(S, S.L.Was(c))
    ensures S.L.own[c] in S.home && S.home[S.L.own[c]] in S.Young()
  {
    hide S.Ready, S.L.ObjectsOk, S.L.SpacesOk, AgeingOk, AgesOk, Placed;
    var b := S.L.own[c];
    WeakSlotOf(S.L, b, c);
    ReadyCell(S, c);
    YoungHome(S, b);
  }

  lemma UnrelatedWeak(S: Setting, T: Trail, marked: set<int>, c: int)
    requires S.Ready() && S.L.ObjectsOk() && S.L.SpacesOk() && S.L.WordsFit() && marked <= Elements(S.Statics())
    requires c in S.L.own && S.L.Role(c) == WeakSlot && !IntoFrom(S, S.L.Was(c))
    ensures WeakResult(S.L, T, marked, S.L.Was(c)) == S.L.Was(c)
  {
    hide S.Ready, S.L.ObjectsOk, S.L.SpacesOk, IntoFrom;
    OutOfFrom(S, marked, S.L.Was(c));
  }

  /** Every weak element ends up forwarded if its object survived and cut if not. */
  lemma WeakOutcome(S: Setting, T: Trail, m: seq<Word>, marked: set<int>, home1: map<int, int>, home: map<int, int>,
                    settled: set<int>, P: seq<int>, c: int)
    requires S.Ready() && WeakDone(S, T, m, marked, home1, home, settled, P) && marked <= Elements(S.Statics())
    requires c in S.L.own && S.L.Role(c) == WeakSlot
    ensures At(m, T.Cur(c)) == WeakResult(S.L, T, marked, S.L.Was(c))
  {
    hide S.Ready, Core, S.L.ObjectsOk, S.L.SpacesOk, S.L.WordsFit, IntoFrom, WeakResult, HomeFrame, Youngest;
    CoreRings(S.L, T, m);
    assert WeakCell(S.L, c);
    if IntoFrom(S, S.L.Was(c)) {
      var b := S.L.own[c];
      WeakCovered(S, c);
      WeakSlotOf(S.L, b, c);
      assert b in P;
      assert WeakHandled(S.L, S.ages, T, m, settled, home, b);
      assert c in settled;
    } else {
      UnrelatedWeak(S, T, marked, c);
    }
  }

  // ---- The remembered sets after the collection ----

  /** `Noted` for the words, the lists and the generations after the collection. */
  ghost predicate NotedAfter(S: Setting, T: Trail, m: seq<Word>, home: map<int, int>, c: int)
    requires c in S.L.own
  {
    var w := At(m, T.Cur(c));
    var b := S.L.own[c];
    Collectable(S.L, w) ==>
      S.ages.Number(Owner(S.L, S.ages, S.to, b)) <= S.ages.Number(WordGen(S.L, S.ages, w)) ||
      (IsArray(S.L.Was(b)) && b in home && S.ages.Number(home[b]) <= S.ages.Number(WordGen(S.L, S.ages, w)))
  }

  /** Ages before and after the static objects of `from` were moved to `to`. */
  lemma AgesMoved(S: Setting, a: int)
    requires S.Ready()
    requires S.L.Type(a) == MlStatic ==> a in S.L.own && S.L.Base(S.L.own[a]) && S.L.Type(S.L.own[a]) == MlStatic
    ensures var g, g1 := GenAt(S.L, S.before, a), GenAt(S.L, S.ages, a);
            if S.L.Type(a) == MlStatic && g == S.from then g1 == S.to else g1 == g
    ensures S.ages.Number(S.from) == S.before.Number(S.from) && forall g :: S.ages.Number(g) == S.before.Number(g)
  {
    hide AgeingOk;
    ReadyParts(S);
    if S.L.Type(a) == MlStatic {
      StaticGen(S.L, S.before, a);
    }
  }

  lemma ToSpaceGen(S: Setting, T: Trail, a: int)
    requires S.Ready() && S.L.SpacesOk() && InverseOk(S.L, T) && a in T.fw
    ensures GenAt(S.L, S.ages, T.fw[a]) == S.to && S.L.Type(T.fw[a]) == MlHeap
  {
    ReadyParts(S);
  }

  /** A word that referred to the generation being collected refers to the target afterwards. */
  lemma IntoTarget(S: Setting, T: Trail, w0: Word, w: Word)
    requires S.Ready() && S.L.ObjectsOk() && S.L.SpacesOk() && InverseOk(S.L, T) && S.L.ValueOk(w0) && IntoFrom(S, w0)
    requires IsFixed(S.L, T, w0, w)
    ensures Collectable(S.L, w) && WordGen(S.L, S.ages, w) == S.to
  {
    hide S.Ready, S.L.ObjectsOk, S.L.SpacesOk, InverseOk;
    HeapNotFrom(S, w0.addr);
    if S.L.Type(w0.addr) == From {
      ToSpaceGen(S, T, w0.addr);
    } else {
      ValueBase(S.L, w0);
      AgesMoved(S, w0.addr);
    }
  }

  lemma HeapNotFrom(S: Setting, a: int)
    requires S.Ready()
    ensures S.L.Type(a) == MlHeap ==> GenAt(S.L, S.before, a) != S.from
  {
    ReadyParts(S);
    assert S.L.Type(a) == MlHeap ==> GenAt(S.L, S.ages, a) == GenAt(S.L, S.before, a);
  }

  lemma ValueBase(L: Layout, w: Word)
    requires L.ObjectsOk() && L.SpacesOk() && L.ValueOk(w) && w.Ptr? && L.Type(w.addr) == MlStatic
    ensures w.addr in L.own && L.Base(L.own[w.addr]) && L.Type(L.own[w.addr]) == MlStatic
  {
    TargetFacts(L, w.tag, w.addr);
    SameSpace(L, w.addr);
  }

  /** The generation in which an object ends up. */
  lemma OwnerGen(S: Setting, b: int)
    requires S.Ready() && S.L.ObjectsOk() && S.L.SpacesOk() && S.L.Base(b)
    ensures var g := GenAt(S.L, S.before, b); Owner(S.L, S.ages, S.to, b) == if g == S.from then S.to else g
    ensures GenAt(S.L, S.before, b) in S.ages.gens
  {
    hide AgeingOk, AgesOk, S.L.ObjectsOk, S.L.SpacesOk;
    GenKnown(S, b);
    ReadyParts(S);
    AgesMoved(S, b);
    HeapNotFrom(S, b);
    BaseType(S, b);
  }

  lemma NumbersApart(S: Setting, g: int)
    requires S.Ready() && g in S.ages.gens && g != S.from && S.ages.Number(S.from) <= S.ages.Number(g)
    ensures S.ages.Number(S.to) <= S.ages.Number(g)
  {
    ReadyParts(S);
  }

  lemma UnmovedGen(S: Setting, w: Word)
    requires S.Ready() && S.L.ObjectsOk() && S.L.SpacesOk() && S.L.ValueOk(w) && Collectable(S.L, w) && !IntoFrom(S, w)
    ensures WordGen(S.L, S.ages, w) == WordGen(S.L, S.before, w) && WordGen(S.L, S.ages, w) in S.ages.gens
    ensures WordGen(S.L, S.before, w) != S.from
  {
    hide S.Ready, S.L.ObjectsOk, S.L.SpacesOk;
    if S.L.Type(w.addr) == MlStatic {
      ValueBase(S.L, w);
    }
    AgesMoved(S, w.addr);
    CollectableGen(S, w);
  }

  lemma CollectableGen(S: Setting, w: Word)
    requires S.Ready() && Collectable(S.L, w)
    requires S.L.Type(w.addr) == MlStatic ==>
             w.addr in S.L.own && S.L.Base(S.L.own[w.addr]) && S.L.Type(S.L.own[w.addr]) == MlStatic
    ensures WordGen(S.L, S.ages, w) in S.ages.gens
  {
    ReadyParts(S);
    AgeingAges(S.L, S.ages, S.from, S.to);
    if S.L.Type(w.addr) == MlStatic {
      StaticGen(S.L, S.ages, w.addr);
    } else {
      SpaceGen(S.L, S.ages, w.addr);
    }
  }

  /** A reference from an array that was not filed anew, or from an object that is no array. */
  lemma NotedUnfiled(S: Setting, T: Trail, m: seq<Word>, home: map<int, int>, c: int)
    requires S.Ready() && S.L.ObjectsOk() && S.L.SpacesOk() && S.L.WordsFit() && InverseOk(S.L, T)
    requires c in S.L.own && (S.L.Role(c) == Slot || S.L.Role(c) == WeakSlot)
    requires IsFixed(S.L, T, S.L.Was(c), At(m, T.Cur(c)))
    requires S.L.own[c] in S.home ==> S.L.own[c] in home && home[S.L.own[c]] == S.home[S.L.own[c]]
    requires IntoFrom(S, S.L.Was(c)) ==> S.before.Number(GenAt(S.L, S.before, S.L.own[c])) <= S.before.Number(S.from)
    ensures NotedAfter(S, T, m, home, c)
  {
    hide S.Ready, S.L.ObjectsOk, S.L.SpacesOk, S.L.WordsFit, InverseOk, IntoFrom, AgeingOk, AgesOk;
    var b, w0, w := S.L.own[c], S.L.Was(c), At(m, T.Cur(c));
    OwnBase(S.L, c);
    OwnerGen(S, b);
    ReadyCell(S, c);
    SlotValue(S.L, c);
    AgesMoved(S, b);
    if IntoFrom(S, w0) {
      IntoTarget(S, T, w0, w);
      NumbersOk(S);
    } else if Collectable(S.L, w) {
      NotFromWord(S, w0);
      UnmovedGen(S, w0);
      if GenAt(S.L, S.before, b) == S.from && S.before.Number(S.from) <= S.before.Number(WordGen(S.L, S.before, w0)) {
        NumbersApart(S, WordGen(S.L, S.before, w0));
      }
    }
  }

  lemma NotFromWord(S: Setting, w: Word)
    requires S.Ready() && !IntoFrom(S, w)
    ensures w.Ptr? ==> S.L.Type(w.addr) != From
  {
    if w.Ptr? && S.L.Type(w.addr) == From {
      FromWord(S, w);
    }
  }

  lemma SlotValue(L: Layout, c: int)
    requires L.WordsFit() && c in L.own && (L.Role(c) == Slot || L.Role(c) == WeakSlot)
    ensures L.ValueOk(L.Was(c))
  {
  }

  /** From an older generation only filed arrays refer to the one being collected. */
  lemma OnlyFiled(S: Setting, filed: seq<int>, c: int)
    requires S.Ready() && S.L.ObjectsOk() && S.L.SpacesOk() && Picked(S.home, filed, S.Young())
    requires c in S.L.own && S.L.Role(c) == Slot && IntoFrom(S, S.L.Was(c))
    requires !(Ordinary(S.L, S.L.own[c]) && S.L.own[c] in filed)
    ensures S.before.Number(GenAt(S.L, S.before, S.L.own[c])) <= S.before.Number(S.from)
  {
    hide S.Ready, S.L.ObjectsOk, S.L.SpacesOk, Placed;
    OwnBase(S.L, c);
    ReadyCell(S, c);
    if S.before.Number(GenAt(S.L, S.before, S.L.own[c])) > S.before.Number(S.from) {
      YoungHome(S, S.L.own[c]);
    }
  }

  lemma FiledNoted(S: Setting, T: Trail, m: seq<Word>, marked: set<int>, home1: map<int, int>, home: map<int, int>,
                   filed: seq<int>, c: int)
    requires S.L.ObjectsOk() && HandledAll(S.L, S.ages, T, m, marked, home1, S.to, filed)
    requires c in S.L.own && S.L.Role(c) == Slot && Ordinary(S.L, S.L.own[c]) && S.L.own[c] in filed
    requires SameHome(home1, home, S.L.own[c])
    ensures NotedAfter(S, T, m, home, c)
  {
    var b := S.L.own[c];
    SlotOfArray(S.L, b, c);
    assert Handled(S.L, S.ages, T, m, marked, home1, S.to, b);
    assert Recorded(S.L, S.ages, T, m, home1, b, Owner(S.L, S.ages, S.to, b), c);
  }

  /** After the collection, too, references to younger generations come only from arrays on the
      right lists. */
  lemma SlotNoted(S: Setting, T: Trail, m: seq<Word>, marked: set<int>, home1: map<int, int>, home: map<int, int>,
                  fixed: set<int>, filed: seq<int>, c: int)
    requires S.Ready() && CopyingDone(S, T, m, marked, home1, fixed, filed)
    requires c in S.L.own && S.L.Role(c) == Slot && Alive(S.L, T, marked, S.L.own[c])
    requires SameHome(home1, home, S.L.own[c])
    ensures NotedAfter(S, T, m, home, c)
  {
    hide S.Ready, Inv, Core, S.L.ObjectsOk, S.L.SpacesOk, S.L.WordsFit, InverseOk, WholeOk, IntoFrom, ReachOk, RingsOk,
      HandledAll, Picked, NotedAfter,
      DoneAll, DoneIn, GensFixed;
    InvParts(S.L, T, m);
    var b := S.L.own[c];
    if Ordinary(S.L, b) && b in filed {
      FiledNoted(S, T, m, marked, home1, home, filed, c);
    } else {
      LiveDone(S, T, m, marked, home1, fixed, filed, c);
      DoneFixed(S.L, T, m, marked, c);
      if IntoFrom(S, S.L.Was(c)) {
        OnlyFiled(S, filed, c);
      }
      assert SameHome(S.home, home1, b);
      NotedUnfiled(S, T, m, home, c);
    }
  }

  lemma WeakNotedInP(S: Setting, T: Trail, m: seq<Word>, settled: set<int>, home1: map<int, int>, home: map<int, int>,
                     P: seq<int>, c: int)
    requires S.L.ObjectsOk() && WeakHandledAll(S.L, S.ages, T, m, settled, home1, P)
    requires c in S.L.own && S.L.Role(c) == WeakSlot && S.L.own[c] in P && SameHome(home1, home, S.L.own[c])
    ensures NotedAfter(S, T, m, home, c)
  {
    var b := S.L.own[c];
    WeakSlotOf(S.L, b, c);
    assert WeakHandled(S.L, S.ages, T, m, settled, home1, b);
    assert ElementOlder(S.L, S.ages, T, m, c, S.ages.Number(home1[b]));
  }

  lemma WeakSlotNoted(S: Setting, T: Trail, m: seq<Word>, marked: set<int>, home1: map<int, int>, home2: map<int, int>,
                      home: map<int, int>,
                      settled: set<int>, P: seq<int>, c: int)
    requires S.Ready() && WeakDone(S, T, m, marked, home1, home2, settled, P) && marked <= Elements(S.Statics())
    requires c in S.L.own && S.L.Role(c) == WeakSlot && Alive(S.L, T, marked, S.L.own[c])
    requires SameHome(home2, home, S.L.own[c])
    ensures NotedAfter(S, T, m, home, c)
  {
    hide S.Ready, Core, S.L.ObjectsOk, S.L.SpacesOk, S.L.WordsFit, InverseOk, WholeOk, IntoFrom, RingsOk,
      WeakHandledAll, NotedAfter, WeakState;
    CoreRings(S.L, T, m);
    var b := S.L.own[c];
    WeakSlotOf(S.L, b, c);
    if b in P {
      WeakNotedInP(S, T, m, settled, home2, home, P, c);
    } else {
      assert SameHome(home1, home2, b);
      ReadyCell(S, c);
      if IntoFrom(S, S.L.Was(c)) {
        WeakCovered(S, c);
      }
      WeakOutcome(S, T, m, marked, home1, home2, settled, P, c);
      UnrelatedWeak(S, T, marked, c);
      UnrelatedFixed(S, T, S.L.Was(c));
      NotedUnfiled(S, T, m, home, c);
    }
  }

  lemma UnrelatedFixed(S: Setting, T: Trail, w: Word)
    requires S.Ready() && !IntoFrom(S, w)
    ensures IsFixed(S.L, T, w, w)
  {
    hide S.Ready;
    NotFromWord(S, w);
  }

  /** Weak arrays are still on the list of their own or of a younger generation. */
  lemma WeakStillListed(S: Setting, T: Trail, m: seq<Word>, marked: set<int>, home1: map<int, int>,
                        home2: map<int, int>, home: map<int, int>,
                        settled: set<int>, P: seq<int>, b: int)
    requires S.Ready() && WeakDone(S, T, m, marked, home1, home2, settled, P)
    requires Alive(S.L, T, marked, b) && WeakHeader(S.L.Was(b)) && SameHome(home2, home, b)
    ensures b in home && S.ages.Number(home[b]) <= S.ages.Number(Owner(S.L, S.ages, S.to, b))
  {
    hide S.Ready, Core, S.L.ObjectsOk, S.L.SpacesOk, S.L.WordsFit, InverseOk, WholeOk, IntoFrom, RingsOk, WeakState;
    CoreRings(S.L, T, m);
    ReadyParts(S);
    ReadyBase(S, b);
    OwnerGen(S, b);
    AgesMoved(S, b);
    if b in P {
      assert WeakHandled(S.L, S.ages, T, m, settled, home2, b);
      OwnerNow(S.L, S.ages, S.from, S.to, T, b);
    } else {
      assert SameHome(home1, home2, b);
      if S.home[b] in S.before.gens && S.before.Number(S.home[b]) <= S.before.Number(S.from) {
        YoungHome(S, b);
      }
    }
  }

  lemma ReadyBase(S: Setting, b: int)
    requires S.Ready() && S.L.Base(b)
    ensures WeakNoted(S.L, S.before, S.home, b) && (b in S.home ==> S.home[b] in S.before.gens)
    ensures S.L.Type(b) == MlStatic ==> S.L.own[b] == b
  {
  }

  // ---- The whole collection ----

  /** Every live cell and every weak element has become what it should, all other words but links are
      unchanged, and just the reachable objects were copied. */
  ghost predicate Preserved(S: Setting, T: Trail, m: seq<Word>, marked: set<int>) {
    && FwdOk(S.L, T)
    && (forall c :: S.L.Cell(c) && (c in S.L.own ==> Alive(S.L, T, marked, S.L.own[c])) ==>
          IsFixed(S.L, T, S.L.Was(c), At(m, T.Cur(c))) && Done(S.L, T, m, marked, c))
    && (forall c :: c in S.L.own && S.L.Role(c) == WeakSlot ==>
          At(m, T.Cur(c)) == WeakResult(S.L, T, marked, S.L.Was(c)))
    && (forall c :: c in S.L.own && (S.L.Role(c) == Head || S.L.Role(c) == Raw || S.L.Role(c) == Pad) ==>
          At(m, T.Cur(c)) == S.L.Was(c))
    && (forall b :: S.L.Base(b) && S.L.Type(b) == From ==> (b in T.fw <==> S.L.Reachable(b)))
  }

  /** An array from a list that was gone through is now on that of the youngest generation it refers to,
      or, if it is an ordinary one that refers to none younger than its own, on none; any other array is
      where it was. */
  ghost predicate WellFiled(S: Setting, T: Trail, m: seq<Word>, home: map<int, int>, b: int)
    requires IsArray(S.L.Was(b))
  {
    var own, n := Owner(S.L, S.ages, S.to, b), S.L.Was(b).len;
    if b !in S.home || S.home[b] !in S.Young() then SameHome(S.home, home, b)
    else if WeakHeader(S.L.Was(b)) then b in home && Youngest(S.L, S.ages, T, m, b, n, own, home[b])
    else Filed(S.L, S.ages, T, m, home, b, n, own)
  }

  /** Element `c` of the array `b` refers to a generation younger than that of the array. */
  ghost predicate RefersDown(S: Setting, T: Trail, m: seq<Word>, b: int, c: int) {
    var w := At(m, T.Cur(c));
    b + 3 <= c < b + 3 + (if S.L.Was(b).Hdr? then S.L.Was(b).len else 0) && Collectable(S.L, w) &&
    S.ages.Number(WordGen(S.L, S.ages, w)) < S.ages.Number(Owner(S.L, S.ages, S.to, b))
  }

  /** An ordinary array is on a list if and only if an element refers to a younger generation than its own; a weak one
      always is. No element refers to a generation younger than that of the list, and one refers to just that, unless
      it is that of a weak array. */
  ghost predicate ListedExactly(S: Setting, T: Trail, m: seq<Word>, home: map<int, int>, b: int) {
    && (b in home <==> WeakHeader(S.L.Was(b)) || exists c :: RefersDown(S, T, m, b, c))
    && (b in home ==>
          && (forall c :: RefersDown(S, T, m, b, c) ==>
                S.ages.Number(home[b]) <= S.ages.Number(WordGen(S.L, S.ages, At(m, T.Cur(c)))))
          && ((exists c :: RefersDown(S, T, m, b, c) && WordGen(S.L, S.ages, At(m, T.Cur(c))) == home[b]) ||
              (WeakHeader(S.L.Was(b)) && home[b] == Owner(S.L, S.ages, S.to, b))))
  }

  /** This holds of all live arrays from lists that were gone through. */
  ghost predicate AllListedExactly(S: Setting, T: Trail, m: seq<Word>, marked: set<int>, home: map<int, int>) {
    forall b {:trigger ListedExactly(S, T, m, home, b)} | b in S.home && S.home[b] in S.Young() ::
      Alive(S.L, T, marked, b) && IsArray(S.L.Was(b)) ==> ListedExactly(S, T, m, home, b)
  }

  lemma FiledExactly(S: Setting, T: Trail, m: seq<Word>, home: map<int, int>, b: int)
    requires IsArray(S.L.Was(b)) && WellFiled(S, T, m, home, b) && b in S.home && S.home[b] in S.Young()
    ensures ListedExactly(S, T, m, home, b)
  {
    hide S.Young, WordGen, Collectable, Owner;
    var own, n := Owner(S.L, S.ages, S.to, b), S.L.Was(b).len;
    if WeakHeader(S.L.Was(b)) {
      forall c | RefersDown(S, T, m, b, c)
        ensures S.ages.Number(home[b]) <= S.ages.Number(WordGen(S.L, S.ages, At(m, T.Cur(c))))
      {
        assert ElementOlder(S.L, S.ages, T, m, c, S.ages.Number(home[b]));
      }
      if home[b] != own {
        var c :| b + 3 <= c < b + 3 + n && ElementIn(S.L, S.ages, T, m, c, home[b]);
        assert RefersDown(S, T, m, b, c);
      }
    } else {
      forall c | RefersDown(S, T, m, b, c)
        ensures b in home && S.ages.Number(home[b]) <= S.ages.Number(WordGen(S.L, S.ages, At(m, T.Cur(c))))
      {
        assert Recorded(S.L, S.ages, T, m, home, b, own, c);
      }
      if b in home {
        var c :| b + 3 <= c < b + 3 + n && ElementIn(S.L, S.ages, T, m, c, home[b]);
        assert RefersDown(S, T, m, b, c);
      }
    }
  }

  lemma AllFiledExactly(S: Setting, T: Trail, m: seq<Word>, marked: set<int>, home: map<int, int>)
    requires Remembers(S, T, m, marked, home)
    ensures AllListedExactly(S, T, m, marked, home)
  {
    hide S.Young, WellFiled, ListedExactly, NotedAfter, Alive;
    forall b | b in S.home && S.home[b] in S.Young() && Alive(S.L, T, marked, b) && IsArray(S.L.Was(b))
      ensures ListedExactly(S, T, m, home, b)
    {
      FiledExactly(S, T, m, home, b);
    }
  }

  /** The entry lists again hold every array that refers to a generation younger than its own. */
  ghost predicate Remembers(S: Setting, T: Trail, m: seq<Word>, marked: set<int>, home: map<int, int>) {
    && (forall c {:trigger HoldsValue(S.L, c)} :: HoldsValue(S.L, c) && Alive(S.L, T, marked, S.L.own[c]) ==>
          NotedAfter(S, T, m, home, c))
    && (forall b :: Alive(S.L, T, marked, b) && WeakHeader(S.L.Was(b)) ==>
          b in home && S.ages.Number(home[b]) <= S.ages.Number(Owner(S.L, S.ages, S.to, b)))
    && (forall b :: Alive(S.L, T, marked, b) && IsArray(S.L.Was(b)) ==> WellFiled(S, T, m, home, b))
  }

  /** The memories agree on all that is no link. */
  ghost predicate SameWordsKept(L: Layout, T: Trail, m: seq<Word>, T1: Trail, m1: seq<Word>) {
    T1.fw == T.fw && forall a {:trigger Kept(L, a)} :: Kept(L, a) ==> At(m1, T1.Cur(a)) == At(m, T.Cur(a))
  }

  /** The outcome for the words, put together from the end of the copying, the end of the work on weak
      arrays, and a final memory that differs from these in links only. */
  lemma PreservedEnd(S: Setting, T: Trail, m: seq<Word>, marked: set<int>, home1: map<int, int>, fixed: set<int>,
                     filed: seq<int>,
                     T2: Trail, m2: seq<Word>, home2: map<int, int>, settled: set<int>, P: seq<int>, T3: Trail,
                       m3: seq<Word>)
    requires S.Ready() && CopyingDone(S, T, m, marked, home1, fixed, filed)
    requires WeakDone(S, T2, m2, marked, home1, home2, settled, P)
    requires SameFw(T, T2) && WeakOnly(S.L, T2, m, m2) && SameFw(T2, T3) && SameWordsKept(S.L, T2, m2, T3, m3)
    ensures Preserved(S, T3, m3, marked)
  {
    hide S.Ready, Inv, Core, S.L.ObjectsOk, S.L.SpacesOk, S.L.WordsFit, InverseOk, WholeOk, CopyingDone, WeakDone,
      IsFixed, Done, WeakResult, S.L.Reachable;
    FwdSame(S, T, m, marked, home1, fixed, filed, T3);
    forall c | S.L.Cell(c) && (c in S.L.own ==> Alive(S.L, T3, marked, S.L.own[c]))
      ensures IsFixed(S.L, T3, S.L.Was(c), At(m3, T3.Cur(c))) && Done(S.L, T3, m3, marked, c)
    {
      CellEnd(S, T, m, marked, home1, fixed, filed, T2, m2, T3, m3, c);
    }
    forall c | c in S.L.own && S.L.Role(c) == WeakSlot
      ensures At(m3, T3.Cur(c)) == WeakResult(S.L, T3, marked, S.L.Was(c))
    {
      WeakEnd(S, T, m, marked, home1, fixed, filed, T2, m2, home2, settled, P, T3, m3, c);
    }
    forall c | c in S.L.own && (S.L.Role(c) == Head || S.L.Role(c) == Raw || S.L.Role(c) == Pad)
      ensures At(m3, T3.Cur(c)) == S.L.Was(c)
    {
      RawEnd(S, T, m, T2, m2, T3, m3, marked, home1, fixed, filed, c);
    }
    forall b | S.L.Base(b) && S.L.Type(b) == From ensures b in T3.fw <==> S.L.Reachable(b) {
      CopiedIffReachable(S, T, m, marked, home1, fixed, filed, b);
    }
  }

  lemma FwdSame(S: Setting, T: Trail, m: seq<Word>, marked: set<int>, home1: map<int, int>, fixed: set<int>,
                filed: seq<int>, T3: Trail)
    requires CopyingDone(S, T, m, marked, home1, fixed, filed) && SameFw(T, T3)
    ensures FwdOk(S.L, T3)
  {
    hide Core;
    InvParts(S.L, T, m);
    SameFwd(S.L, T, T3);
  }

  lemma CellEnd(S: Setting, T: Trail, m: seq<Word>, marked: set<int>, home1: map<int, int>, fixed: set<int>,
                filed: seq<int>,
                T2: Trail, m2: seq<Word>, T3: Trail, m3: seq<Word>, c: int)
    requires S.Ready() && CopyingDone(S, T, m, marked, home1, fixed, filed)
    requires SameFw(T, T2) && WeakOnly(S.L, T2, m, m2) && SameFw(T2, T3) && SameWordsKept(S.L, T2, m2, T3, m3)
    requires S.L.Cell(c) && (c in S.L.own ==> Alive(S.L, T3, marked, S.L.own[c]))
    ensures IsFixed(S.L, T3, S.L.Was(c), At(m3, T3.Cur(c))) && Done(S.L, T3, m3, marked, c)
  {
    hide S.Ready, Core, CopyingDone, S.L.ObjectsOk, S.L.SpacesOk, S.L.WordsFit, InverseOk, WholeOk;
    CopyingReach(S, T, m, marked, home1, fixed, filed);
    LiveDone(S, T, m, marked, home1, fixed, filed, c);
    DoneFixed(S.L, T, m, marked, c);
    CoreRings(S.L, T, m);
    CellNotWeak(S.L, c);
    SameCur(T, T2, c);
    SameCur(T2, T3, c);
  }

  lemma CellNotWeak(L: Layout, c: int)
    requires L.SpacesOk() && L.Cell(c)
    ensures Kept(L, c) && !WeakCell(L, c)
  {
  }

  lemma WeakEnd(S: Setting, T: Trail, m: seq<Word>, marked: set<int>, home1: map<int, int>, fixed: set<int>,
                filed: seq<int>,
                T2: Trail, m2: seq<Word>, home2: map<int, int>, settled: set<int>, P: seq<int>, T3: Trail,
                  m3: seq<Word>, c: int)
    requires S.Ready() && CopyingDone(S, T, m, marked, home1, fixed, filed)
    requires WeakDone(S, T2, m2, marked, home1, home2, settled, P)
    requires SameFw(T2, T3) && SameWordsKept(S.L, T2, m2, T3, m3) && c in S.L.own && S.L.Role(c) == WeakSlot
    ensures At(m3, T3.Cur(c)) == WeakResult(S.L, T3, marked, S.L.Was(c))
  {
    hide S.Ready, Inv, Core, WeakDone, S.L.ObjectsOk, S.L.SpacesOk, S.L.WordsFit, InverseOk, WholeOk, Progress;
    WeakOutcome(S, T2, m2, marked, home1, home2, settled, P, c);
    assert Kept(S.L, c);
    SameCur(T2, T3, c);
  }

  lemma RawEnd(S: Setting, T: Trail, m: seq<Word>, T2: Trail, m2: seq<Word>, T3: Trail, m3: seq<Word>, marked: set<int>,
               home1: map<int, int>,
               fixed: set<int>, filed: seq<int>, c: int)
    requires CopyingDone(S, T, m, marked, home1, fixed, filed)
    requires SameFw(T, T2) && WeakOnly(S.L, T2, m, m2) && SameFw(T2, T3) && SameWordsKept(S.L, T2, m2, T3, m3)
    requires c in S.L.own && (S.L.Role(c) == Head || S.L.Role(c) == Raw || S.L.Role(c) == Pad)
    ensures At(m3, T3.Cur(c)) == S.L.Was(c)
  {
    hide Core, CopyingDone, S.L.ObjectsOk, S.L.SpacesOk, S.L.WordsFit, InverseOk, WholeOk;
    CopyingReach(S, T, m, marked, home1, fixed, filed);
    RawKept(S.L, T, m, c);
    assert Kept(S.L, c) && !WeakCell(S.L, c);
    SameCur(T, T2, c);
    SameCur(T2, T3, c);
  }

  lemma RawKept(L: Layout, T: Trail, m: seq<Word>, c: int)
    requires Core(L, T, m) && c in L.own && (L.Role(c) == Head || L.Role(c) == Raw || L.Role(c) == Pad)
    ensures At(m, T.Cur(c)) == L.Was(c)
  {
  }

  lemma AliveNotDoomed(L: Layout, T: Trail, marked: set<int>, b: int)
    requires L.SpacesOk() && FwdOk(L, T) && Alive(L, T, marked, b)
    ensures !Doomed(L, T, marked, b)
  {
    if b in T.fw {
      FwImage(L, T, b);
    }
  }

  lemma AliveHome(S: Setting, T: Trail, marked: set<int>, home2: map<int, int>, home3: map<int, int>, G: set<int>,
                  b: int)
    requires S.L.SpacesOk() && FwdOk(S.L, T) && GensSwept(S.L, T, marked, home2, home3, G) && Alive(S.L, T, marked, b)
    ensures SameHome(home2, home3, b)
  {
    AliveNotDoomed(S.L, T, marked, b);
    assert HomeSwept(S.L, T, marked, home2, home3, b, OnListOf(home2, G, b));
  }

  lemma SlotNoWeak(L: Layout, c: int)
    requires L.ObjectsOk() && c in L.own && L.Role(c) == Slot
    ensures !WeakHeader(L.Was(L.own[c])) && L.Base(L.own[c]) && Kept(L, c) && !WeakCell(L, c)
  {
    assert L.Within(L.own[c], c);
  }

  lemma SlotEnd(S: Setting, T: Trail, m: seq<Word>, marked: set<int>, home1: map<int, int>, fixed: set<int>,
                filed: seq<int>,
                T2: Trail, m2: seq<Word>, home2: map<int, int>, settled: set<int>, P: seq<int>, T3: Trail,
                  m3: seq<Word>, home3: map<int, int>, G: set<int>, c: int)
    requires S.Ready() && CopyingDone(S, T, m, marked, home1, fixed, filed)
    requires WeakDone(S, T2, m2, marked, home1, home2, settled, P)
    requires SameFw(T, T2) && WeakOnly(S.L, T2, m, m2) && SameFw(T2, T3) && SameWordsKept(S.L, T2, m2, T3, m3)
    requires GensSwept(S.L, T3, marked, home2, home3, G)
    requires c in S.L.own && (S.L.Role(c) == Slot || S.L.Role(c) == WeakSlot) && Alive(S.L, T3, marked, S.L.own[c])
    ensures NotedAfter(S, T3, m3, home3, c)
  {
    hide S.Ready, Inv, Core, CopyingDone, S.L.ObjectsOk, S.L.SpacesOk, S.L.WordsFit, InverseOk, WholeOk, GensSwept,
      NotedAfter, WeakState, WeakHandledAll;
    CopyingReach(S, T, m, marked, home1, fixed, filed);
    CoreRings(S.L, T, m);
    FwdSame(S, T, m, marked, home1, fixed, filed, T2);
    SameFwTrans(T, T2, T3);
    FwdSame(S, T, m, marked, home1, fixed, filed, T3);
    var b := S.L.own[c];
    AliveHome(S, T3, marked, home2, home3, G, b);
    SameCur(T, T2, c);
    SameCur(T2, T3, c);
    if S.L.Role(c) == Slot {
      SlotNoWeak(S.L, c);
      assert SameHome(home1, home2, b);
      SameHomeTrans(home1, home2, home3, b);
      SlotNoted(S, T, m, marked, home1, home3, fixed, filed, c);
      SameNoted(S, T, m, T3, m3, home3, c);
    } else {
      assert Kept(S.L, c);
      WeakSlotNoted(S, T2, m2, marked, home1, home2, home3, settled, P, c);
      SameNoted(S, T2, m2, T3, m3, home3, c);
    }
  }

  lemma SameNoted(S: Setting, T: Trail, m: seq<Word>, T1: Trail, m1: seq<Word>, home: map<int, int>, c: int)
    requires At(m1, T1.Cur(c)) == At(m, T.Cur(c)) && c in S.L.own && NotedAfter(S, T, m, home, c)
    ensures NotedAfter(S, T1, m1, home, c)
  {
  }

  lemma ElementsSame(S: Setting, T: Trail, m: seq<Word>, T2: Trail, m2: seq<Word>, T3: Trail, m3: seq<Word>, b: int)
    requires S.L.ObjectsOk() && S.L.SpacesOk() && FwdOk(S.L, T) && Ordinary(S.L, b)
    requires SameFw(T, T2) && WeakOnly(S.L, T2, m, m2) && SameFw(T2, T3) && SameWordsKept(S.L, T2, m2, T3, m3)
    ensures forall c :: b + 3 <= c < b + 3 + S.L.Was(b).len ==> At(m3, T3.Cur(c)) == At(m, T.Cur(c))
  {
    hide S.L.ObjectsOk, S.L.SpacesOk, InverseOk, WholeOk, WeakOnly, SameWordsKept;
    forall c | b + 3 <= c < b + 3 + S.L.Was(b).len ensures At(m3, T3.Cur(c)) == At(m, T.Cur(c)) {
      ArrayCells(S.L, T, b, c);
      SameCur(T, T2, c);
      SameElement(S, T2, m, m2, T3, m3, c);
    }
  }

  lemma SameElement(S: Setting, T2: Trail, m: seq<Word>, m2: seq<Word>, T3: Trail, m3: seq<Word>, c: int)
    requires WeakOnly(S.L, T2, m, m2) && SameFw(T2, T3) && SameWordsKept(S.L, T2, m2, T3, m3) && c in S.L.own
    requires S.L.Role(c) == Slot
    ensures At(m3, T3.Cur(c)) == At(m, T2.Cur(c))
  {
    assert Kept(S.L, c) && !WeakCell(S.L, c);
  }

  lemma OrdinaryFiled(S: Setting, T: Trail, m: seq<Word>, marked: set<int>, home1: map<int, int>, fixed: set<int>,
                      filed: seq<int>,
                      T2: Trail, m2: seq<Word>, home2: map<int, int>, settled: set<int>, P: seq<int>, T3: Trail,
                        m3: seq<Word>, home3: map<int, int>, b: int)
    requires CopyingDone(S, T, m, marked, home1, fixed, filed) && WeakDone(S, T2, m2, marked, home1, home2, settled, P)
    requires SameFw(T, T2) && WeakOnly(S.L, T2, m, m2) && SameFw(T2, T3) && SameWordsKept(S.L, T2, m2, T3, m3)
    requires Ordinary(S.L, b) && SameHome(home2, home3, b)
    ensures WellFiled(S, T3, m3, home3, b)
  {
    hide Inv, Core, S.L.ObjectsOk, S.L.SpacesOk, S.L.WordsFit, InverseOk, WholeOk, WeakState, WeakHandledAll, WeakOnly,
      SameWordsKept, Filed, DoneAll,
      DoneIn, GensFixed, TableCells, ObjectCells, AllDone, SameFw;
    InvParts(S.L, T, m);
    assert SameHome(home1, home2, b);
    SameHomeTrans(home1, home2, home3, b);
    if b in filed {
      assert Handled(S.L, S.ages, T, m, marked, home1, S.to, b);
      ElementsSame(S, T, m, T2, m2, T3, m3, b);
      FiledFrame(S.L, S.ages, T, m, T3, m3, home1, home3, b, S.L.Was(b).len, Owner(S.L, S.ages, S.to, b));
    } else {
      assert SameHome(S.home, home1, b);
      SameHomeTrans(S.home, home1, home3, b);
    }
  }

  lemma WeakFiled(S: Setting, T: Trail, m: seq<Word>, marked: set<int>, home1: map<int, int>, home2: map<int, int>,
                  settled: set<int>, P: seq<int>,
                  T3: Trail, m3: seq<Word>, home3: map<int, int>, b: int)
    requires S.Ready() && WeakDone(S, T, m, marked, home1, home2, settled, P) && SameFw(T, T3)
    requires SameWordsKept(S.L, T, m, T3, m3)
    requires Alive(S.L, T, marked, b) && WeakHeader(S.L.Was(b)) && SameHome(home2, home3, b)
    ensures WellFiled(S, T3, m3, home3, b)
  {
    hide S.Ready, Core, S.L.ObjectsOk, S.L.SpacesOk, S.L.WordsFit, InverseOk, WholeOk, WeakState, SameWordsKept,
      Youngest, SameFw, AgeingOk;
    CoreRings(S.L, T, m);
    ReadyParts(S);
    ReadyBase(S, b);
    if b in P {
      assert WeakHandled(S.L, S.ages, T, m, settled, home2, b);
      OwnerNow(S.L, S.ages, S.from, S.to, T, b);
      forall c | b + 3 <= c < b + 3 + S.L.Was(b).len ensures At(m3, T3.Cur(c)) == At(m, T.Cur(c)) {
        WeakCells(S.L, T, b, c);
        SameKeptWord(S.L, T, m, T3, m3, c);
      }
      YoungestFrame(S.L, S.ages, T, m, T3, m3, b, S.L.Was(b).len, Owner(S.L, S.ages, S.to, b), home2[b]);
    } else {
      assert SameHome(home1, home2, b);
    }
  }

  lemma SameKeptWord(L: Layout, T: Trail, m: seq<Word>, T1: Trail, m1: seq<Word>, c: int)
    requires SameWordsKept(L, T, m, T1, m1) && Kept(L, c)
    ensures At(m1, T1.Cur(c)) == At(m, T.Cur(c))
  {
  }

  /** Every live array is filed where it should be. */
  lemma FiledEnd(S: Setting, T: Trail, m: seq<Word>, marked: set<int>, home1: map<int, int>, fixed: set<int>,
                 filed: seq<int>,
                 T2: Trail, m2: seq<Word>, home2: map<int, int>, settled: set<int>, P: seq<int>, T3: Trail,
                   m3: seq<Word>, home3: map<int, int>, G: set<int>)
    requires S.Ready() && CopyingDone(S, T, m, marked, home1, fixed, filed)
    requires WeakDone(S, T2, m2, marked, home1, home2, settled, P)
    requires SameFw(T, T2) && WeakOnly(S.L, T2, m, m2) && SameFw(T2, T3) && SameWordsKept(S.L, T2, m2, T3, m3)
    requires GensSwept(S.L, T3, marked, home2, home3, G)
    ensures forall b :: Alive(S.L, T3, marked, b) && IsArray(S.L.Was(b)) ==> WellFiled(S, T3, m3, home3, b)
  {
    hide S.Ready, Inv, Core, CopyingDone, WeakDone, S.L.ObjectsOk, S.L.SpacesOk, S.L.WordsFit, InverseOk, WholeOk,
      GensSwept, WellFiled, WeakOnly,
      SameWordsKept;
    WeakCore(S, T2, m2, marked, home1, home2, settled, P);
    CoreRings(S.L, T2, m2);
    FwdSame(S, T, m, marked, home1, fixed, filed, T2);
    SameFwTrans(T, T2, T3);
    FwdSame(S, T, m, marked, home1, fixed, filed, T3);
    forall b | Alive(S.L, T3, marked, b) && IsArray(S.L.Was(b)) ensures WellFiled(S, T3, m3, home3, b) {
      AliveHome(S, T3, marked, home2, home3, G, b);
      if WeakHeader(S.L.Was(b)) {
        WeakFiled(S, T2, m2, marked, home1, home2, settled, P, T3, m3, home3, b);
      } else {
        OrdinaryFiled(S, T, m, marked, home1, fixed, filed, T2, m2, home2, settled, P, T3, m3, home3, b);
      }
    }
  }

  /** The outcome for the entry lists. */
  lemma RemembersEnd(S: Setting, T: Trail, m: seq<Word>, marked: set<int>, home1: map<int, int>, fixed: set<int>,
                     filed: seq<int>,
                     T2: Trail, m2: seq<Word>, home2: map<int, int>, settled: set<int>, P: seq<int>, T3: Trail,
                       m3: seq<Word>, home3: map<int, int>, G: set<int>)
    requires S.Ready() && CopyingDone(S, T, m, marked, home1, fixed, filed)
    requires WeakDone(S, T2, m2, marked, home1, home2, settled, P)
    requires SameFw(T, T2) && WeakOnly(S.L, T2, m, m2) && SameFw(T2, T3) && SameWordsKept(S.L, T2, m2, T3, m3)
    requires GensSwept(S.L, T3, marked, home2, home3, G)
    ensures Remembers(S, T3, m3, marked, home3)
  {
    hide S.Ready, Inv, Core, CopyingDone, WeakDone, S.L.ObjectsOk, S.L.SpacesOk, S.L.WordsFit, InverseOk, WholeOk,
      GensSwept, NotedAfter, WeakOnly,
      SameWordsKept, WellFiled;
    CopyingReach(S, T, m, marked, home1, fixed, filed);
    CoreRings(S.L, T, m);
    SameFwTrans(T, T2, T3);
    FwdSame(S, T, m, marked, home1, fixed, filed, T3);
    forall c | c in S.L.own && (S.L.Role(c) == Slot || S.L.Role(c) == WeakSlot) && Alive(S.L, T3, marked, S.L.own[c])
      ensures NotedAfter(S, T3, m3, home3, c)
    {
      SlotEnd(S, T, m, marked, home1, fixed, filed, T2, m2, home2, settled, P, T3, m3, home3, G, c);
    }
    forall b | Alive(S.L, T3, marked, b) && WeakHeader(S.L.Was(b))
      ensures b in home3 && S.ages.Number(home3[b]) <= S.ages.Number(Owner(S.L, S.ages, S.to, b))
    {
      AliveHome(S, T3, marked, home2, home3, G, b);
      WeakStillListed(S, T2, m2, marked, home1, home2, home3, settled, P, b);
    }
    FiledEnd(S, T, m, marked, home1, fixed, filed, T2, m2, home2, settled, P, T3, m3, home3, G);
  }

  /** Where the doomed arrays are, and to which generation they count. */
  lemma DoomedPlace(S: Setting, T: Trail, marked: set<int>, b: int)
    requires S.Ready() && S.L.ObjectsOk() && S.L.SpacesOk() && FwdOk(S.L, T) && marked <= Elements(S.Statics())
    requires S.L.Base(b) && Doomed(S.L, T, marked, b)
    ensures Owner(S.L, S.ages, S.to, b) == S.to && T.Cur(b) == b && b !in T.fw
    ensures S.L.Type(b) == From || (S.L.Type(b) == MlStatic && b in marked && b in S.Statics())
    ensures GenAt(S.L, S.ages, b) == if S.L.Type(b) == From then S.from else S.to
  {
    hide S.Ready, AgesOk, AgeingOk, S.L.ObjectsOk, S.L.SpacesOk;
    if b in T.fw {
      FwImage(S.L, T, b);
    } else {
      ReadyParts(S);
      OwnerGen(S, b);
      GenKnown(S, b);
      AgesMoved(S, b);
      if S.L.Type(b) != From {
        StaticOf(S, b);
      }
    }
  }

  lemma StaticOf(S: Setting, b: int)
    requires S.Ready() && S.L.Base(b) && S.L.Type(b) == MlStatic && b in S.Statics()
    ensures GenAt(S.L, S.before, b) == S.from
  {
    ReadyParts(S);
    StaticGen(S.L, S.before, b);
  }

  lemma TargetNoList(S: Setting, b: int)
    requires S.Ready() && S.ages.Number(S.to) == S.ages.Number(S.from) && b in S.home
    ensures S.home[b] != S.to
  {
    ReadyParts(S);
  }

  /** An array that is left behind but still on a list when the lists have been swept is a static weak
      array of a generation collected in place, on the list of the new generation. */
  lemma LeftOnList(S: Setting, T: Trail, m: seq<Word>, marked: set<int>, home1: map<int, int>, fixed: set<int>,
                   filed: seq<int>,
                   T2: Trail, m2: seq<Word>, home2: map<int, int>, settled: set<int>, P: seq<int>, b: int)
    requires S.Ready() && CopyingDone(S, T, m, marked, home1, fixed, filed)
    requires WeakDone(S, T2, m2, marked, home1, home2, settled, P) && SameFw(T, T2)
    requires S.L.Base(b) && b in home2 && home2[b] == S.to && S.ages.Number(S.to) == S.ages.Number(S.from)
    requires Doomed(S.L, T2, marked, b)
    requires IsArray(S.L.Was(b))
    ensures WeakHeader(S.L.Was(b)) && S.L.Type(b) == MlStatic && b in marked && b in S.Statics()
  {
    hide S.Ready, Inv, Core, S.L.ObjectsOk, S.L.SpacesOk, S.L.WordsFit, WeakState, InverseOk, WholeOk, DoneAll, DoneIn,
      Doomed;
    InvParts(S.L, T, m);
    FwdSame(S, T, m, marked, home1, fixed, filed, T2);
    DoomedPlace(S, T2, marked, b);
    if WeakHeader(S.L.Was(b)) {
      if b in P {
        assert WeakHandled(S.L, S.ages, T2, m2, settled, home2, b);
        FromNotTo(S);
      } else {
        assert SameHome(home1, home2, b) && SameHome(S.home, home1, b);
        TargetNoList(S, b);
      }
    } else {
      assert SameHome(home1, home2, b);
      if b in filed {
        FiledYounger(S, T, m, marked, home1, filed, b);
      } else {
        assert SameHome(S.home, home1, b);
        TargetNoList(S, b);
      }
    }
  }

  lemma FiledYounger(S: Setting, T: Trail, m: seq<Word>, marked: set<int>, home: map<int, int>, filed: seq<int>, b: int)
    requires HandledAll(S.L, S.ages, T, m, marked, home, S.to, filed) && Ordinary(S.L, b) && b in filed && b in home
    ensures S.ages.Number(home[b]) < S.ages.Number(Owner(S.L, S.ages, S.to, b))
  {
    assert Handled(S.L, S.ages, T, m, marked, home, S.to, b);
  }

  lemma FromNotTo(S: Setting)
    requires S.Ready()
    ensures S.from != S.to
  {
  }

  /** The static objects `b` that are still marked are freed, the others join the list of `to`. */
  function Adopt(s: seq<int>, marked: set<int>, onto: seq<int>): (r: seq<int>)
    ensures forall b :: b in r <==> b in onto || (b in s && b !in marked)
  {
    if s == [] then onto
    else Adopt(s[1..], marked, if s[0] in marked then onto else [s[0]] + onto)
  }

  lemma AdoptNext(s: seq<int>, i: nat, marked: set<int>, onto: seq<int>)
    requires i < |s|
    ensures Adopt(s[i..], marked, onto) == Adopt(s[i + 1..], marked, if s[i] in marked then onto else [s[i]] + onto)
  {
    assert s[i..][1..] == s[i + 1..];
  }

  /** `freed` are the marked ones of `s`. */
  ghost predicate FreedOf(freed: seq<int>, s: seq<int>, marked: set<int>) {
    forall b :: b in freed <==> b in s && b in marked
  }

  lemma FreedNext(freed: seq<int>, s: seq<int>, i: nat, marked: set<int>)
    requires i < |s| && FreedOf(freed, s[..i], marked)
    ensures FreedOf(if s[i] in marked then freed + [s[i]] else freed, s[..i + 1], marked)
  {
    assert s[..i + 1] == s[..i] + [s[i]];
  }

  lemma AgesMarked(S: Setting, ages: Ages)
    requires S.AgesMove() && ages.gens == S.before.gens && ages.space == S.before.space
    requires forall b :: b in ages.holder <==> b in S.before.holder
    requires forall b :: b in ages.holder ==> ages.holder[b] == if b in S.Statics() then S.to else S.before.holder[b]
    ensures ages == S.ages
  {
    forall b | b in ages.holder ensures b in S.ages.holder && ages.holder[b] == S.ages.holder[b] {
      assert b in S.before.holder.Keys;
    }
    forall b | b in S.ages.holder ensures b in ages.holder {
      assert b in S.ages.holder.Keys;
    }
    assert ages.holder == S.ages.holder;
  }

  lemma ProgressBegins(L: Layout, A: Ages, T: Trail, m: seq<Word>, marked: set<int>, home: map<int, int>, to: int)
    ensures Progress(L, A, T, m, marked, home, home, to, {}, [])
  {
    HandledNone(L, A, T, m, marked, home, to);
  }

  lemma WeakHomes(S: Setting, home1: map<int, int>, filed: seq<int>)
    requires HomeFrame(S.L, S.home, home1, filed)
    ensures forall b :: b in S.home && WeakHeader(S.L.Was(b)) ==> b in home1 && home1[b] == S.home[b]
  {
    forall b | b in S.home && WeakHeader(S.L.Was(b)) ensures b in home1 && home1[b] == S.home[b] {
      assert SameHome(S.home, home1, b);
    }
  }

  /** To-space holds no more words than from-space did. */
  lemma SpaceBound(L: Layout, T: Trail)
    requires L.ObjectsOk() && L.SpacesOk() && FwdOk(L, T) && 0 <= T.used
    ensures T.used <= L.hi - L.lo
  {
    var s := seq(T.used, i requires 0 <= i < T.used => if L.start + i in T.bk then T.bk[L.start + i] else 0);
    forall i | 0 <= i < |s| ensures L.lo <= s[i] < L.hi && s[i] in T.fw && T.fw[s[i]] == L.start + i {
      assert L.start + i in T.bk;
    }
    forall i, j | 0 <= i < j < |s| ensures s[i] != s[j] {
      assert T.fw[s[i]] == L.start + i;
      assert T.fw[s[j]] == L.start + j;
    }
    DistinctBound(s, L.lo, L.hi);
  }

  lemma ReadyChain(S: Setting)
    requires S.Ready()
    ensures ChainOk(S.ages, S.from, S.younger)
  {
  }

  lemma NoneDoomed(L: Layout, T: Trail, marked: set<int>)
    ensures AllDoomed(L, T, marked, {})
  {
  }

  lemma GensFixedGrows(L: Layout, A: Ages, D: set<int>, D1: set<int>, G: seq<int>)
    requires GensFixed(L, A, D, G) && D <= D1
    ensures GensFixed(L, A, D1, G)
  {
    hide GenCells;
  }

  // ---- Which dead arrays stay on entry lists ----

  /** The generations whose lists are swept: all but `to` when that is not in the chain yet. */
  ghost predicate SweptOk(S: Setting, all: seq<int>) {
    forall g :: g in S.ages.gens ==> (g in all <==> !(g == S.to && S.ages.Number(S.to) == S.ages.Number(S.from)))
  }

  /** A static weak array that is freed by a collection in place, none of whose remaining elements
      refers to a younger generation. */
  ghost predicate Stuck(S: Setting, T: Trail, m: seq<Word>, marked: set<int>, b: int) {
    && S.ages.Number(S.to) == S.ages.Number(S.from) && S.L.Base(b) && WeakHeader(S.L.Was(b)) && S.L.Type(b) == MlStatic
    && b in marked
    && forall c {:trigger ElementOlder(S.L, S.ages, T, m, c, S.ages.Number(S.to))} ::
         b + 3 <= c < b + 3 + S.L.Was(b).len ==> ElementOlder(S.L, S.ages, T, m, c, S.ages.Number(S.to))
  }

  /** When the collection starts, the element `c` refers to no generation younger than the one collected. */
  ghost predicate RefersOlder(S: Setting, c: int) {
    Collectable(S.L, S.L.Was(c)) ==> S.before.Number(S.from) <= S.before.Number(WordGen(S.L, S.before, S.L.Was(c)))
  }

  /** What a collection in place will leave on an entry list although it frees it: a static weak array of
      the generation collected that nothing mentions and that refers to no younger generation. */
  ghost predicate Stranded(S: Setting, b: int) {
    && S.before.Number(S.to) == S.before.Number(S.from) && b in S.Statics()
    && S.L.Base(b) && S.L.Type(b) == MlStatic && WeakHeader(S.L.Was(b)) && !S.L.Mentioned(b)
    && forall c {:trigger RefersOlder(S, c)} :: b + 3 <= c < b + 3 + S.L.Was(b).len ==> RefersOlder(S, c)
  }

  /** What an element of a weak array refers to after a collection in place tells what it referred to before. */
  lemma ElementThen(S: Setting, T: Trail, m: seq<Word>, marked: set<int>, b: int, c: int)
    requires S.Ready() && S.L.WellFormed() && FwdOk(S.L, T) && marked <= Elements(S.Statics())
    requires S.ages.Number(S.to) == S.ages.Number(S.from) && S.L.Base(b) && WeakHeader(S.L.Was(b))
    requires b + 3 <= c < b + 3 + S.L.Was(b).len
    requires At(m, T.Cur(c)) == WeakResult(S.L, T, marked, S.L.Was(c))
    ensures ElementOlder(S.L, S.ages, T, m, c, S.ages.Number(S.to)) <==> RefersOlder(S, c)
  {
    hide S.Ready, S.L.ObjectsOk, S.L.SpacesOk, S.L.WordsFit, InverseOk, WholeOk, IntoFrom, AgeingOk;
    var w0, w := S.L.Was(c), At(m, T.Cur(c));
    WeakCells(S.L, T, b, c);
    SlotValue(S.L, c);
    SameNumbers(S);
    if IntoFrom(S, w0) {
      IntoFromGen(S, w0);
      if w != Dead {
        IntoTarget(S, T, w0, w);
      }
    } else {
      UnrelatedWeak(S, T, marked, c);
      if Collectable(S.L, w0) {
        UnmovedGen(S, w0);
      }
    }
  }

  lemma IntoFromGen(S: Setting, w: Word)
    requires IntoFrom(S, w)
    ensures Collectable(S.L, w) && WordGen(S.L, S.before, w) == S.from
  {
  }

  /** Which arrays stay on a list although they are freed can be told before the collection. */
  lemma StuckIffStranded(S: Setting, T: Trail, m: seq<Word>, marked: set<int>, b: int)
    requires S.Ready() && S.L.WellFormed() && Preserved(S, T, m, marked) && marked <= Elements(S.Statics())
    requires forall d :: d in S.Statics() ==> (d in marked <==> !S.L.Mentioned(d))
    ensures Stuck(S, T, m, marked, b) <==> Stranded(S, b)
  {
    hide S.Ready, S.L.ObjectsOk, S.L.SpacesOk, S.L.WordsFit, InverseOk, WholeOk, S.L.Mentioned, WeakResult,
      ElementOlder, RefersOlder;
    SameNumbers(S);
    if S.ages.Number(S.to) == S.ages.Number(S.from) && S.L.Base(b) && WeakHeader(S.L.Was(b)) {
      var n := S.ages.Number(S.to);
      forall c | b + 3 <= c < b + 3 + S.L.Was(b).len
        ensures ElementOlder(S.L, S.ages, T, m, c, n) <==> RefersOlder(S, c)
      {
        WeakCells(S.L, T, b, c);
        ElementThen(S, T, m, marked, b, c);
      }
    }
  }

  lemma SameNumbers(S: Setting)
    requires S.Ready()
    ensures forall g :: S.ages.Number(g) == S.before.Number(g)
  {
  }

  lemma AllStranded(S: Setting, T: Trail, m: seq<Word>, marked: set<int>)
    requires S.Ready() && S.L.WellFormed() && Preserved(S, T, m, marked) && marked <= Elements(S.Statics())
    requires forall d :: d in S.Statics() ==> (d in marked <==> !S.L.Mentioned(d))
    ensures forall b :: Stuck(S, T, m, marked, b) <==> Stranded(S, b)
  {
    hide S.Ready, S.L.ObjectsOk, S.L.SpacesOk, S.L.WordsFit, Preserved, Stuck, Stranded, S.L.Mentioned;
    forall b ensures Stuck(S, T, m, marked, b) <==> Stranded(S, b) {
      StuckIffStranded(S, T, m, marked, b);
    }
  }

  lemma StuckListed(S: Setting, T: Trail, m: seq<Word>, marked: set<int>, home1: map<int, int>, home2: map<int, int>,
                    settled: set<int>, P: seq<int>, b: int)
    requires S.Ready() && WeakDone(S, T, m, marked, home1, home2, settled, P) && marked <= Elements(S.Statics())
    requires Stuck(S, T, m, marked, b)
    ensures b in home2 && home2[b] == S.to
  {
    hide S.Ready, Core, S.L.ObjectsOk, S.L.SpacesOk, S.L.WordsFit, InverseOk, WholeOk, WeakState;
    CoreRings(S.L, T, m);
    ReadyBase(S, b);
    StaticOf(S, b);
    YoungHome(S, b);
    assert b in P;
    assert WeakHandled(S.L, S.ages, T, m, settled, home2, b);
    StaticStays(S.L, T, b);
    AgesMoved(S, b);
    forall c | b + 3 <= c < b + 3 + S.L.Was(b).len && ElementIn(S.L, S.ages, T, m, c, home2[b])
      ensures S.ages.Number(S.to) <= S.ages.Number(home2[b])
    {
      assert ElementOlder(S.L, S.ages, T, m, c, S.ages.Number(S.to));
    }
  }

  lemma ListedStuck(S: Setting, T: Trail, m: seq<Word>, marked: set<int>, home1: map<int, int>, home2: map<int, int>,
                    settled: set<int>, P: seq<int>, b: int)
    requires S.Ready() && WeakDone(S, T, m, marked, home1, home2, settled, P) && marked <= Elements(S.Statics())
    requires b in home2 && home2[b] == S.to && S.ages.Number(S.to) == S.ages.Number(S.from)
    requires S.L.Base(b) && WeakHeader(S.L.Was(b)) && S.L.Type(b) == MlStatic && b in marked
    ensures Stuck(S, T, m, marked, b)
  {
    hide S.Ready, Core, S.L.ObjectsOk, S.L.SpacesOk, S.L.WordsFit, InverseOk, WholeOk, WeakState;
    CoreRings(S.L, T, m);
    ReadyBase(S, b);
    StaticOf(S, b);
    YoungHome(S, b);
    assert b in P;
    assert WeakHandled(S.L, S.ages, T, m, settled, home2, b);
  }

  /** Just the stranded arrays stay on an entry list although they are dead. */
  lemma LeftExactly(S: Setting, T: Trail, m: seq<Word>, marked: set<int>, home1: map<int, int>, fixed: set<int>,
                    filed: seq<int>,
                    T2: Trail, m2: seq<Word>, home2: map<int, int>, settled: set<int>, P: seq<int>, T3: Trail,
                      m3: seq<Word>, home3: map<int, int>,
                    all: seq<int>, b: int)
    requires S.Ready() && CopyingDone(S, T, m, marked, home1, fixed, filed)
    requires WeakDone(S, T2, m2, marked, home1, home2, settled, P)
    requires SameFw(T, T2) && SameFw(T2, T3) && SameWordsKept(S.L, T2, m2, T3, m3)
    requires GensSwept(S.L, T3, marked, home2, home3, Elements(all)) && SweptOk(S, all)
    requires forall n :: n in home2 ==> home2[n] in S.ages.gens
    requires S.L.Base(b) && IsArray(S.L.Was(b))
    ensures b in home3 && Doomed(S.L, T3, marked, b) <==> Stuck(S, T3, m3, marked, b)
  {
    hide S.Ready, Inv, Core, CopyingDone, WeakDone, S.L.ObjectsOk, S.L.SpacesOk, S.L.WordsFit, InverseOk, WholeOk,
      Doomed, Stuck, AgeingOk;
    CopyingReach(S, T, m, marked, home1, fixed, filed);
    WeakCore(S, T2, m2, marked, home1, home2, settled, P);
    assert HomeSwept(S.L, T3, marked, home2, home3, b, OnListOf(home2, Elements(all), b));
    DoomedSame(S.L, T2, T3, marked, b);
    if b in home3 && Doomed(S.L, T3, marked, b) {
      LeftOnList(S, T, m, marked, home1, fixed, filed, T2, m2, home2, settled, P, b);
      ListedStuck(S, T2, m2, marked, home1, home2, settled, P, b);
      StuckSame(S, T2, m2, T3, m3, marked, b);
    }
    if Stuck(S, T3, m3, marked, b) {
      StuckSame(S, T2, m2, T3, m3, marked, b);
      StuckListed(S, T2, m2, marked, home1, home2, settled, P, b);
      StuckDoomed(S, T2, m2, marked, b);
      ReadyParts(S);
      AgeingAges(S.L, S.ages, S.from, S.to);
    }
  }

  lemma WeakCore(S: Setting, T: Trail, m: seq<Word>, marked: set<int>, home1: map<int, int>, home: map<int, int>,
                 settled: set<int>, P: seq<int>)
    requires WeakDone(S, T, m, marked, home1, home, settled, P)
    ensures Core(S.L, T, m)
  {
  }

  lemma StuckDoomed(S: Setting, T: Trail, m: seq<Word>, marked: set<int>, b: int)
    requires Core(S.L, T, m) && Stuck(S, T, m, marked, b)
    ensures Doomed(S.L, T, marked, b) && S.ages.Number(S.to) == S.ages.Number(S.from)
  {
    hide Core;
    CoreRings(S.L, T, m);
    StaticStays(S.L, T, b);
  }

  lemma StuckSame(S: Setting, T: Trail, m: seq<Word>, T1: Trail, m1: seq<Word>, marked: set<int>, b: int)
    requires Core(S.L, T, m) && SameFw(T, T1) && SameWordsKept(S.L, T, m, T1, m1)
    ensures Stuck(S, T, m, marked, b) <==> Stuck(S, T1, m1, marked, b)
  {
    hide Core, S.L.ObjectsOk, S.L.SpacesOk, InverseOk, WholeOk, Kept;
    CoreRings(S.L, T, m);
    if S.L.Base(b) && WeakHeader(S.L.Was(b)) {
      var n := S.ages.Number(S.to);
      forall c | b + 3 <= c < b + 3 + S.L.Was(b).len
        ensures ElementOlder(S.L, S.ages, T, m, c, n) <==> ElementOlder(S.L, S.ages, T1, m1, c, n)
      {
        WeakCells(S.L, T, b, c);
        assert Kept(S.L, c);
      }
    }
  }

  lemma ReadyGens(S: Setting)
    requires S.Ready()
    ensures S.from in S.ages.gens && S.to in S.ages.gens && S.from != S.to && S.ages.gens == S.before.gens
    ensures S.AgesMove()
  {
  }

  lemma AllLeftExactly(S: Setting, T: Trail, m: seq<Word>, marked: set<int>, home1: map<int, int>, fixed: set<int>,
                       filed: seq<int>,
                       T2: Trail, m2: seq<Word>, home2: map<int, int>, settled: set<int>, P: seq<int>, T3: Trail,
                         m3: seq<Word>, home3: map<int, int>,
                       all: seq<int>)
    requires S.Ready() && CopyingDone(S, T, m, marked, home1, fixed, filed)
    requires WeakDone(S, T2, m2, marked, home1, home2, settled, P)
    requires SameFw(T, T2) && SameFw(T2, T3) && SameWordsKept(S.L, T2, m2, T3, m3)
    requires GensSwept(S.L, T3, marked, home2, home3, Elements(all)) && SweptOk(S, all)
    requires forall n :: n in home2 ==> home2[n] in S.ages.gens
    ensures forall b :: S.L.Base(b) && IsArray(S.L.Was(b)) ==>
            (b in home3 && Doomed(S.L, T3, marked, b) <==> Stuck(S, T3, m3, marked, b))
  {
    hide S.Ready, CopyingDone, WeakDone, Doomed, Stuck, SweptOk, GensSwept, SameFw, SameWordsKept;
    forall b | S.L.Base(b) && IsArray(S.L.Was(b))
      ensures b in home3 && Doomed(S.L, T3, marked, b) <==> Stuck(S, T3, m3, marked, b)
    {
      LeftExactly(S, T, m, marked, home1, fixed, filed, T2, m2, home2, settled, P, T3, m3, home3, all, b);
    }
  }

  lemma HomesAreGens(L: Layout, A: Ages, T: Trail, lists: map<int, seq<int>>, home: map<int, int>)
    requires AgesOk(L, A) && ListsOk(L, T, lists, home)
    ensures forall n :: n in home ==> home[n] in A.gens
  {
    forall n | n in home ensures home[n] in A.gens {
      GenListed(L, A, T, lists, home, home[n]);
    }
  }
}
