/** What a stretch of fixing achieves, and how the scan of a region finds its way. */
module Scanning {
  import opened Heap
  import opened Copying
  import opened Moving
  import opened Roots

  // ---- Fixing many cells ----

  /** Some cells were fixed on the way from `T`, `m` to `T1`, `m1`; nothing else happened to the
      original words. */
  ghost predicate Evolves(L: Layout, T: Trail, m: seq<Word>, T1: Trail, m1: seq<Word>) {
    && Grows(T, T1)
    && forall d {:trigger Kept(L, d)} :: Kept(L, d) ==> IsKept(L, T1, At(m, T.Cur(d)), At(m1, T1.Cur(d)), d)
  }

  ghost predicate IsKept(L: Layout, T: Trail, v: Word, w: Word, d: int) {
    w == v || (L.Cell(d) && IsFixed(L, T, v, w))
  }

  lemma EvolvesByFix(L: Layout, T: Trail, m: seq<Word>, T1: Trail, m1: seq<Word>, c: int,
                     what: int)
    requires FixedCell(L, T, T1, m, m1, c, what) && L.Cell(c)
    ensures Evolves(L, T, m, T1, m1)
  {
    hide Inv, Core;
  }

  lemma EvolvesRefl(L: Layout, T: Trail, m: seq<Word>)
    ensures Evolves(L, T, m, T, m)
  {
  }

  lemma EvolvesTrans(L: Layout, T: Trail, m: seq<Word>, T1: Trail, m1: seq<Word>, T2: Trail, m2: seq<Word>)
    requires Evolves(L, T, m, T1, m1) && Evolves(L, T1, m1, T2, m2)
    requires L.SpacesOk() && InverseOk(L, T1)
    ensures Evolves(L, T, m, T2, m2)
  {
    forall d {:trigger Kept(L, d)} | Kept(L, d)
      ensures IsKept(L, T2, At(m, T.Cur(d)), At(m2, T2.Cur(d)), d)
    {
      KeptTrans(L, T1, T2, At(m, T.Cur(d)), At(m1, T1.Cur(d)), At(m2, T2.Cur(d)), d);
    }
  }

  lemma KeptTrans(L: Layout, T1: Trail, T2: Trail, u: Word, v: Word, w: Word, d: int)
    requires L.SpacesOk() && InverseOk(L, T1) && Grows(T1, T2)
    requires IsKept(L, T1, u, v, d) && IsKept(L, T2, v, w, d)
    ensures IsKept(L, T2, u, w, d)
  {
    if u.Ptr? && L.Type(u.addr) == From && u.addr in T1.fw {
      FwImage(L, T1, u.addr);
    }
  }

  /** The word at the original place `a` needs no more fixing. */
  ghost predicate Done(L: Layout, T: Trail, m: seq<Word>, marked: set<int>, a: int) {
    var w := At(m, T.Cur(a));
    w.Ptr? ==> L.Type(w.addr) != From && (L.Type(w.addr) == MlStatic && w.addr in L.own ==> L.own[w.addr] !in marked)
  }

  lemma DoneStays(L: Layout, T: Trail, m: seq<Word>, marked: set<int>, T1: Trail, m1: seq<Word>, marked1: set<int>,
                  a: int)
    requires Evolves(L, T, m, T1, m1) && marked1 <= marked && Kept(L, a) && Done(L, T, m, marked, a)
    ensures Done(L, T1, m1, marked1, a)
  {
  }

  // ---- Regions ----

  /** The original place of the word that is at `x` now. */
  ghost function Org(T: Trail, x: int): int {
    if x in T.bk then T.bk[x] else x
  }

  /** The object with first word `w` has a scan position at offset `i`: a scan does not stop inside
      the data of strings, bytearrays and code vectors nor inside weak arrays. */
  ghost predicate Stop(w: Word, i: int) {
    w.Hdr? && (w.kind == Code || w.kind == Text || w.kind == ByteArray || w.kind == WeakArray) ==>
      i == 0 || RoleAt(w, i) == Pad
  }

  ghost predicate Stand(L: Layout, a: int) {
    a in L.own && Stop(L.Was(L.own[a]), a - L.own[a])
  }

  /** A word of a region to be scanned, and the object it belongs to. */
  ghost predicate InRegion(L: Layout, T: Trail, lo: int, hi: int, x: int) {
    var a := Org(T, x);
    && a in L.own && T.Cur(a) == x
    && lo <= T.Cur(L.own[a]) && T.Cur(L.own[a]) + Footprint(L.Was(L.own[a])) <= hi
    && (if a in T.fw then true else L.Type(a) != From && (L.Role(a) == Slot ==> a in L.entry))
  }

  /** [lo, hi) consists of whole objects outside from-space. */
  ghost predicate Region(L: Layout, T: Trail, lo: int, hi: int) {
    forall x {:trigger InRegion(L, T, lo, hi, x)} :: lo <= x < hi ==> InRegion(L, T, lo, hi, x)
  }

  ghost predicate SlotIn(L: Layout, T: Trail, lo: int, hi: int, d: int) {
    d in L.own && L.Role(d) == Slot && lo <= T.Cur(d) < hi
  }

  ghost function SlotsIn(L: Layout, T: Trail, lo: int, hi: int): set<int> {
    set d | d in L.own && SlotIn(L, T, lo, hi, d)
  }

  /** All slots now in [lo, hi) are done. */
  ghost predicate DoneIn(L: Layout, T: Trail, m: seq<Word>, marked: set<int>, lo: int, hi: int) {
    forall d {:trigger SlotIn(L, T, lo, hi, d)} :: SlotIn(L, T, lo, hi, d) ==> Done(L, T, m, marked, d)
  }

  lemma RegionWord(L: Layout, T: Trail, lo: int, hi: int, x: int)
    requires L.ObjectsOk() && L.SpacesOk() && FwdOk(L, T) && Region(L, T, lo, hi) && lo <= x < hi
    ensures var a := Org(T, x);
            a in L.own && T.Cur(a) == x && 0 <= x < |L.m0| && L.Within(L.own[a], a) &&
            T.Cur(a) - a == T.Cur(L.own[a]) - L.own[a]
  {
    assert InRegion(L, T, lo, hi, x);
    var a := Org(T, x);
    assert L.Within(L.own[a], a);
  }

  /** Words of one object are adjacent, now as at the start. */
  lemma Inside(L: Layout, T: Trail, b: int, i: int)
    requires L.ObjectsOk() && L.SpacesOk() && FwdOk(L, T) && L.Within(b, b + i) && 0 <= i
    ensures b + i in L.own && L.own[b + i] == b && T.Cur(b + i) == T.Cur(b) + i && Org(T, T.Cur(b) + i) == b + i
  {
    CopyTogether(L, T, b + i);
  }

  /** What follows an object in a region is the start of another. */
  lemma AfterObject(L: Layout, T: Trail, lo: int, hi: int, b: int)
    requires L.ObjectsOk() && L.SpacesOk() && FwdOk(L, T) && Region(L, T, lo, hi)
    requires L.Base(b) && lo <= T.Cur(b) && T.Cur(b) + Footprint(L.Was(b)) < hi
    ensures var g := T.Cur(b) + Footprint(L.Was(b)); L.Base(Org(T, g)) && T.Cur(Org(T, g)) == g
  {
    hide L.ObjectsOk, L.SpacesOk, InverseOk, WholeOk, Region;
    var n := Footprint(L.Was(b));
    var g := T.Cur(b) + n;
    RegionWord(L, T, lo, hi, g);
    var a := Org(T, g);
    var c := L.own[a];
    if c != a {
      assert L.Within(c, c + (a - 1 - c));
      Inside(L, T, c, a - 1 - c);
      assert L.Within(b, b + (n - 1));
      Inside(L, T, b, n - 1);
    }
  }

  lemma BaseStands(L: Layout, a: int)
    requires L.Base(a)
    ensures Stand(L, a)
  {
  }

  /** The scan can go on at offset `i` of the object at `b`, or right after it. */
  lemma GoOn(L: Layout, T: Trail, lo: int, hi: int, b: int, i: int)
    requires L.ObjectsOk() && L.SpacesOk() && FwdOk(L, T) && Region(L, T, lo, hi)
    requires L.Base(b) && lo <= T.Cur(b) && T.Cur(b) + Footprint(L.Was(b)) <= hi
    requires 0 <= i <= Footprint(L.Was(b)) && (i < Footprint(L.Was(b)) ==> Stop(L.Was(b), i))
    ensures var g := T.Cur(b) + i; g <= hi && (g < hi ==> Stand(L, Org(T, g)))
  {
    hide L.ObjectsOk, L.SpacesOk, InverseOk, WholeOk, Region;
    if i < Footprint(L.Was(b)) {
      assert L.Within(b, b + i);
      Inside(L, T, b, i);
    } else if T.Cur(b) + i < hi {
      AfterObject(L, T, lo, hi, b);
      BaseStands(L, Org(T, T.Cur(b) + i));
    }
  }

  // ---- Advancing over an object ----

  function DoubleAlign(x: int): int {
    (x + 7) / 8 * 8
  }

  /** The distance from the header of a string or bytearray to the next object, computed by the
      scan in bytes, is the number of words that fixup copies. */
  lemma TextAdvance(f: int, bytes: nat)
    requires f % 2 == 0
    ensures DoubleAlign(4 * f + bytes + 4) / 4 == f + 2 + WLength(bytes) / 2 * 2
  {
    assert (4 * f + bytes + 4 + 7) / 8 == f / 2 + (bytes + 11) / 8;
  }

  /** Where the scan goes from the header of an object whose data it skips. */
  function SkipTo(w: Word, f: int): int {
    if !w.Hdr? then f
    else match w.kind
      case WeakArray => f + w.len + 3
      case Code => f + w.len + 1
      case _ => DoubleAlign(4 * f + w.len + 4) / 4
  }

  predicate Skipped(w: Word) {
    w.Hdr? && (w.kind == Code || w.kind == Text || w.kind == ByteArray || w.kind == WeakArray)
  }

  /** The word at a scan position tells whether data are to be skipped. */
  lemma ScanWord(L: Layout, T: Trail, m: seq<Word>, a: int)
    requires L.ObjectsOk() && L.WordsFit() && WordsOk(L, T, m) && Stand(L, a)
    ensures var v := At(m, T.Cur(a));
            if Skipped(v) then L.Base(a) && v == L.Was(a)
            else (v.Ptr? ==> L.Role(a) == Slot) && (L.Base(a) ==> !Skipped(L.Was(a)))
  {
    assert L.Within(L.own[a], a);
  }

  lemma BaseEven(L: Layout, T: Trail, b: int)
    requires L.ObjectsOk() && FwdOk(L, T) && L.Base(b)
    ensures T.Cur(b) % 2 == 0
  {
  }

  /** The scan skips to the pad word of the object, or to its end. */
  lemma SkipStops(L: Layout, T: Trail, b: int)
    requires L.ObjectsOk() && FwdOk(L, T) && L.Base(b) && Skipped(L.Was(b))
    ensures var i := SkipTo(L.Was(b), T.Cur(b)) - T.Cur(b);
            0 < i <= Footprint(L.Was(b)) && (i < Footprint(L.Was(b)) ==> Stop(L.Was(b), i))
  {
    BaseEven(L, T, b);
    TextAdvance(T.Cur(b), L.Was(b).len);
  }

  /** The only cell the scan skips over is the ancillary word of a code vector. */
  lemma SkippedSlot(L: Layout, T: Trail, b: int, d: int)
    requires L.ObjectsOk() && L.SpacesOk() && FwdOk(L, T) && L.Base(b) && Skipped(L.Was(b))
    requires SlotIn(L, T, T.Cur(b), SkipTo(L.Was(b), T.Cur(b)), d)
    ensures L.Was(b).kind == Code && d == b + 1
  {
    SkipStops(L, T, b);
    var i := T.Cur(d) - T.Cur(b);
    assert L.Within(b, b + i);
    Inside(L, T, b, i);
    assert T.Cur(d) == T.Cur(b + i);
    CurInjective(L, T, d, b + i);
  }

  lemma CodeCell(L: Layout, T: Trail, b: int)
    requires L.ObjectsOk() && L.SpacesOk() && FwdOk(L, T) && L.Base(b) && L.Was(b).Hdr? && L.Was(b).kind == Code
    ensures b + 1 in L.own && L.own[b + 1] == b && L.Role(b + 1) == Slot && L.Cell(b + 1)
    ensures T.Cur(b + 1) == T.Cur(b) + 1
  {
    assert L.Within(b, b + 1);
    Inside(L, T, b, 1);
  }

  lemma CodeSlot(L: Layout, T: Trail, b: int, f: int, f1: int)
    requires b + 1 in L.own && L.Role(b + 1) == Slot && f <= T.Cur(b + 1) < f1
    ensures {b + 1} <= SlotsIn(L, T, f, f1)
  {
    assert SlotIn(L, T, f, f1, b + 1);
  }

  lemma OneWord(L: Layout, T: Trail, lo: int, hi: int, f: int, d: int)
    requires L.ObjectsOk() && L.SpacesOk() && FwdOk(L, T) && Region(L, T, lo, hi) && lo <= f < hi
    requires SlotIn(L, T, f, f + 1, d)
    ensures d == Org(T, f)
  {
    RegionWord(L, T, lo, hi, f);
    CurInjective(L, T, d, Org(T, f));
  }

  /** Cells in a region may be fixed. */
  lemma RegionCell(L: Layout, T: Trail, lo: int, hi: int, x: int, c: int)
    requires L.ObjectsOk() && L.SpacesOk() && FwdOk(L, T) && Region(L, T, lo, hi) && lo <= x < hi
    requires c in L.own && L.Role(c) == Slot && T.Cur(c) == x
    ensures Spot(L, T, c, x) && Source(L, T, c)
  {
    assert InRegion(L, T, lo, hi, x);
    CurInjective(L, T, c, Org(T, x));
    CopyTogether(L, T, c);
  }

  /** The part of a region that has been scanned stays done, and grows. */
  lemma DoneInStays(L: Layout, T: Trail, m: seq<Word>, marked: set<int>, T1: Trail, m1: seq<Word>, marked1: set<int>,
                    lo: int, f: int)
    requires Evolves(L, T, m, T1, m1) && marked1 <= marked && FwdOk(L, T) && FwdOk(L, T1) && L.SpacesOk()
    requires DoneIn(L, T, m, marked, lo, f)
    requires f <= L.start + T.used || f <= L.start || L.limit <= lo
    ensures DoneIn(L, T1, m1, marked1, lo, f)
  {
    forall d {:trigger SlotIn(L, T1, lo, f, d)} | SlotIn(L, T1, lo, f, d) ensures Done(L, T1, m1, marked1, d) {
      SameSpot(L, T, T1, lo, f, d);
      assert SlotIn(L, T, lo, f, d);
      DoneStays(L, T, m, marked, T1, m1, marked1, d);
    }
  }

  /** What was copied later lies above what was copied before. */
  lemma NewAbove(L: Layout, T: Trail, T1: Trail, a: int)
    requires InverseOk(L, T) && InverseOk(L, T1) && Grows(T, T1) && a in T1.fw && a !in T.fw
    ensures T1.fw[a] >= L.start + T.used
  {
    forall x | x in T.bk ensures x in T1.bk && T1.bk[x] == T.bk[x] {
      var c := T.bk[x];
      assert c in T.fw && T.fw[c] == x;
      assert c in T1.fw && T1.fw[c] == x;
    }
  }

  lemma SameSpot(L: Layout, T: Trail, T1: Trail, lo: int, f: int, d: int)
    requires FwdOk(L, T) && FwdOk(L, T1) && Grows(T, T1) && lo <= T1.Cur(d) < f
    requires f <= L.start + T.used || f <= L.start || L.limit <= lo
    ensures T.Cur(d) == T1.Cur(d)
  {
    if d in T1.fw && d !in T.fw {
      NewAbove(L, T, T1, d);
    }
  }

  lemma RegionHas(L: Layout, T: Trail, lo: int, hi: int, x: int)
    requires Region(L, T, lo, hi) && lo <= x < hi
    ensures InRegion(L, T, lo, hi, x)
  {
  }

  /** Past a word whose data are not skipped the scan goes on with the next word. */
  lemma PlainStep(L: Layout, T: Trail, lo: int, hi: int, a: int)
    requires L.ObjectsOk() && L.SpacesOk() && FwdOk(L, T) && Region(L, T, lo, hi) && lo <= T.Cur(a) < hi
    requires Stand(L, a) && Org(T, T.Cur(a)) == a && (L.Base(a) ==> !Skipped(L.Was(a)))
    ensures var g := T.Cur(a) + 1; g < hi ==> Stand(L, Org(T, g))
  {
    hide L.ObjectsOk, L.SpacesOk, InverseOk, WholeOk, Region;
    var b := L.own[a];
    RegionHas(L, T, lo, hi, T.Cur(a));
    RegionWord(L, T, lo, hi, T.Cur(a));
    StopNext(L.Was(b), a - b);
    GoOn(L, T, lo, hi, b, a - b + 1);
  }

  lemma StopNext(w: Word, i: int)
    requires 0 <= i < Footprint(w) && Stop(w, i) && (i == 0 ==> !Skipped(w))
    ensures i + 1 < Footprint(w) ==> Stop(w, i + 1)
  {
  }

  /** At a scan position the word tells what to do, and a word to be fixed is the word of a cell. */
  lemma ScanChoice(L: Layout, T: Trail, m: seq<Word>, lo: int, hi: int, f: int)
    requires Inv(L, T, m) && Region(L, T, lo, hi) && lo <= f < hi && Stand(L, Org(T, f))
    ensures 0 <= f < |m| && T.Cur(Org(T, f)) == f && Org(T, f) in L.own
    ensures var v, a := At(m, f), Org(T, f);
            if Skipped(v) then
              L.Base(a) && v == L.Was(a) && f + Footprint(v) <= hi && lo <= f
            else
              (v.Ptr? ==> L.Role(a) == Slot) && (L.Base(a) ==> !Skipped(L.Was(a)))
  {
    hide L.ObjectsOk, L.SpacesOk, InverseOk, WholeOk, WordsOk, BasesMarked, EntriesMarked, ThreadsOk, FrameOk, ReachOk,
      Region;
    LengthKept(L, T, m);
    RegionWord(L, T, lo, hi, f);
    RegionHas(L, T, lo, hi, f);
    ScanWord(L, T, m, Org(T, f));
  }

  // ---- Whole scans ----

  lemma RegionStart(L: Layout, T: Trail, lo: int, hi: int)
    requires L.ObjectsOk() && L.SpacesOk() && FwdOk(L, T) && Region(L, T, lo, hi) && lo < hi
    ensures Stand(L, Org(T, lo))
  {
    RegionHas(L, T, lo, hi, lo);
    RegionWord(L, T, lo, hi, lo);
    BaseStands(L, Org(T, lo));
  }

  ghost predicate OutsideToSpace(L: Layout, lo: int, hi: int) {
    hi <= L.start || L.limit <= lo
  }

  lemma OrgOutside(L: Layout, T: Trail, x: int)
    requires InverseOk(L, T) && !(L.start <= x < L.limit)
    ensures Org(T, x) == x
  {
  }

  /** A region outside to-space stays one as copying goes on. */
  lemma RegionStays(L: Layout, T: Trail, T1: Trail, lo: int, hi: int)
    requires L.SpacesOk() && FwdOk(L, T) && FwdOk(L, T1) && Region(L, T, lo, hi) && OutsideToSpace(L, lo, hi)
    ensures Region(L, T1, lo, hi)
  {
    forall x {:trigger InRegion(L, T1, lo, hi, x)} | lo <= x < hi ensures InRegion(L, T1, lo, hi, x) {
      RegionHas(L, T, lo, hi, x);
      OrgOutside(L, T, x);
      OrgOutside(L, T1, x);
      StayPut(L, T, T1, x);
    }
  }

  lemma StayPut(L: Layout, T: Trail, T1: Trail, x: int)
    requires L.SpacesOk() && FwdOk(L, T) && FwdOk(L, T1) && x in L.own && T.Cur(x) == x
    ensures x !in T.fw
    ensures L.Type(x) != From ==> T1.Cur(x) == x && x !in T1.fw && T.Cur(L.own[x]) == T1.Cur(L.own[x])
  {
  }

  /** No object straddles `lo`. */
  ghost predicate Boundary(L: Layout, T: Trail, lo: int) {
    L.start <= lo <= L.start + T.used &&
    forall a :: a in T.fw && a in L.own && L.own[a] in T.fw && T.fw[a] >= lo ==> T.fw[L.own[a]] >= lo
  }

  lemma BoundaryAbove(L: Layout, T: Trail, lo: int)
    requires Boundary(L, T, lo)
    ensures L.start <= lo <= L.start + T.used
  {
  }

  lemma BoundaryStays(L: Layout, T: Trail, T1: Trail, lo: int)
    requires FwdOk(L, T) && FwdOk(L, T1) && Grows(T, T1) && Boundary(L, T, lo)
    ensures Boundary(L, T1, lo)
  {
    forall a | a in T1.fw && a in L.own && L.own[a] in T1.fw && T1.fw[a] >= lo ensures T1.fw[L.own[a]] >= lo {
      if L.own[a] in T.fw {
        CopyTogether(L, T, a);
      } else {
        NewAbove(L, T, T1, L.own[a]);
      }
    }
  }

  lemma BoundaryHere(L: Layout, T: Trail, lo: int)
    requires FwdOk(L, T) && (lo == L.start || lo == L.start + T.used)
    ensures Boundary(L, T, lo)
  {
  }

  /** From a boundary on, the used part of to-space is a region. */
  lemma ToSpaceRegion(L: Layout, T: Trail, lo: int)
    requires L.ObjectsOk() && L.SpacesOk() && FwdOk(L, T) && Boundary(L, T, lo)
    ensures Region(L, T, lo, L.start + T.used)
  {
    forall x {:trigger InRegion(L, T, lo, L.start + T.used, x)} | lo <= x < L.start + T.used
      ensures InRegion(L, T, lo, L.start + T.used, x)
    {
      ToSpaceWord(L, T, lo, x);
    }
  }

  lemma ToSpaceWord(L: Layout, T: Trail, lo: int, x: int)
    requires L.ObjectsOk() && L.SpacesOk() && FwdOk(L, T) && Boundary(L, T, lo) && lo <= x < L.start + T.used
    ensures InRegion(L, T, lo, L.start + T.used, x)
  {
    hide L.ObjectsOk, L.SpacesOk;
    assert x in T.bk;
    var a := T.bk[x];
    var b := L.own[a];
    CopyTogether(L, T, a);
    OwnBase(L, a);
    LastWord(L, T, b);
  }

  lemma LastWord(L: Layout, T: Trail, b: int)
    requires L.ObjectsOk() && L.SpacesOk() && FwdOk(L, T) && b in T.fw && L.Base(b)
    ensures T.fw[b] + Footprint(L.Was(b)) <= L.start + T.used
  {
    hide L.ObjectsOk, L.SpacesOk, InverseOk, WholeOk;
    var n := Footprint(L.Was(b));
    assert L.Within(b, b + (n - 1));
    Inside(L, T, b, n - 1);
    CopyTogether(L, T, b + (n - 1));
  }

  lemma OwnBase(L: Layout, a: int)
    requires L.ObjectsOk() && a in L.own
    ensures L.Base(L.own[a])
  {
    assert L.Within(L.own[a], a);
  }

  /** One more step of a scan. */
  lemma DoneInExtends(L: Layout, T: Trail, m: seq<Word>, marked: set<int>, T1: Trail, m1: seq<Word>, marked1: set<int>,
                      lo: int, f: int, f1: int)
    requires Evolves(L, T, m, T1, m1) && marked1 <= marked && FwdOk(L, T) && FwdOk(L, T1) && L.SpacesOk()
    requires DoneIn(L, T, m, marked, lo, f) && lo <= f <= f1
    requires f1 <= L.start + T.used || f1 <= L.start || L.limit <= lo
    requires forall d {:trigger SlotIn(L, T, f, f1, d)} :: SlotIn(L, T, f, f1, d) ==> Done(L, T1, m1, marked1, d)
    ensures DoneIn(L, T1, m1, marked1, lo, f1)
  {
    DoneInStays(L, T, m, marked, T1, m1, marked1, lo, f);
    forall d {:trigger SlotIn(L, T1, lo, f1, d)} | SlotIn(L, T1, lo, f1, d) ensures Done(L, T1, m1, marked1, d) {
      SameSpot(L, T, T1, lo, f1, d);
      assert SlotIn(L, T1, lo, f, d) || SlotIn(L, T, f, f1, d);
    }
  }

  lemma UsedBound(L: Layout, T: Trail)
    requires InverseOk(L, T)
    ensures L.start + T.used <= L.limit
  {
  }

  lemma OrgStays(L: Layout, T: Trail, T1: Trail, f: int)
    requires InverseOk(L, T) && InverseOk(L, T1) && Grows(T, T1) && L.start <= f < L.start + T.used
    ensures Org(T1, f) == Org(T, f)
  {
    assert f in T.bk;
    var c := T.bk[f];
    assert c in T.fw && T.fw[c] == f;
    assert c in T1.fw && T1.fw[c] == f;
  }

  /** After a step the scan of to-space stands at the same word, or at the first newly copied one. */
  lemma ScanResumes(L: Layout, T: Trail, T1: Trail, lo: int, f: int)
    requires L.ObjectsOk() && L.SpacesOk() && FwdOk(L, T) && FwdOk(L, T1) && Grows(T, T1)
    requires L.start <= f <= L.start + T.used && (f < L.start + T.used ==> Stand(L, Org(T, f)))
    ensures f < L.start + T1.used ==> Stand(L, Org(T1, f))
  {
    hide L.ObjectsOk, L.SpacesOk, InverseOk, WholeOk, Stand, Region, Boundary;
    if f < L.start + T.used {
      OrgStays(L, T, T1, f);
    } else if f < L.start + T1.used {
      BoundaryHere(L, T, f);
      BoundaryStays(L, T, T1, f);
      ToSpaceRegion(L, T1, f);
      RegionStart(L, T1, f, L.start + T1.used);
    }
  }

  /** What one turn of the scan of to-space adds to its invariant. */
  lemma ScanTurn(L: Layout, T: Trail, m: seq<Word>, T0: Trail, m0: seq<Word>, marked0: set<int>,
                 T1: Trail, m1: seq<Word>, marked1: set<int>, lo: int, f: int, f1: int)
    requires Inv(L, T0, m0) && Inv(L, T1, m1) && Boundary(L, T0, lo)
    requires Evolves(L, T, m, T0, m0) && Evolves(L, T0, m0, T1, m1) && marked1 <= marked0
    requires DoneIn(L, T0, m0, marked0, lo, f) && lo <= f <= f1 <= L.start + T0.used
    requires forall d {:trigger SlotIn(L, T0, f, f1, d)} :: SlotIn(L, T0, f, f1, d) ==> Done(L, T1, m1, marked1, d)
    requires f1 < L.start + T0.used ==> Stand(L, Org(T0, f1))
    ensures Boundary(L, T1, lo) && Evolves(L, T, m, T1, m1) && DoneIn(L, T1, m1, marked1, lo, f1)
    ensures L.start + T1.used <= L.limit && f1 <= L.start + T1.used
    ensures f1 < L.start + T1.used ==> Stand(L, Org(T1, f1))
  {
    hide L.ObjectsOk, L.SpacesOk, L.WordsFit, InverseOk, WholeOk, Stand, Inv, DoneIn, Done, SlotIn;
    InvParts(L, T0, m0);
    InvParts(L, T1, m1);
    EvolvesTrans(L, T, m, T0, m0, T1, m1);
    BoundaryStays(L, T0, T1, lo);
    DoneInExtends(L, T0, m0, marked0, T1, m1, marked1, lo, f, f1);
    ScanResumes(L, T0, T1, lo, f1);
    UsedBound(L, T1);
  }

  lemma ScanBegins(L: Layout, T: Trail, m: seq<Word>, marked: set<int>, lo: int)
    requires Inv(L, T, m) && Boundary(L, T, lo)
    ensures L.start + T.used <= L.limit && DoneIn(L, T, m, marked, lo, lo)
    ensures lo < L.start + T.used ==> Stand(L, Org(T, lo))
  {
    hide Inv, Core, L.ObjectsOk, L.SpacesOk, InverseOk, WholeOk, Stand, Region;
    InvParts(L, T, m);
    UsedBound(L, T);
    ToSpaceRegion(L, T, lo);
    if lo < L.start + T.used {
      RegionStart(L, T, lo, L.start + T.used);
    }
  }

  // ---- Roots and static objects ----

  ghost predicate RootsDone(L: Layout, T: Trail, m: seq<Word>, marked: set<int>, table: seq<Entry>, all: bool) {
    forall e {:trigger Done(L, T, m, marked, e.root)} :: e in table && e.Root? && (all || e.live) ==>
      Done(L, T, m, marked, e.root)
  }

  lemma RootCell(L: Layout, T: Trail, c: int)
    requires L.SpacesOk() && FwdOk(L, T) && c in L.roots && c in L.entry
    ensures T.Cur(c) == c && Spot(L, T, c, c) && Source(L, T, c)
  {
  }

  lemma RootsDoneStay(L: Layout, T: Trail, m: seq<Word>, marked: set<int>, T1: Trail, m1: seq<Word>, marked1: set<int>,
                      table: seq<Entry>, all: bool)
    requires Evolves(L, T, m, T1, m1) && marked1 <= marked && RootsDone(L, T, m, marked, table, all)
    requires forall e :: e in table && e.Root? ==> e.root in L.roots
    ensures RootsDone(L, T1, m1, marked1, table, all)
  {
    hide Evolves, Done;
    forall e {:trigger Done(L, T1, m1, marked1, e.root)} | e in table && e.Root? && (all || e.live)
      ensures Done(L, T1, m1, marked1, e.root)
    {
      assert Done(L, T, m, marked, e.root);
      DoneStays(L, T, m, marked, T1, m1, marked1, e.root);
    }
  }

  /** A static object whose slots are cells from which the collection sets out. */
  ghost predicate StaticScannable(L: Layout, T: Trail, b: int) {
    L.Base(b) && L.Type(b) == MlStatic && forall c :: c in L.own && L.own[c] == b && L.Role(c) == Slot ==> c in L.entry
  }

  ghost predicate StaticsScannable(L: Layout, T: Trail, s: seq<int>) {
    forall b :: b in s ==> StaticScannable(L, T, b)
  }

  /** All slots of the objects `s` are done. */
  ghost predicate StaticsDone(L: Layout, T: Trail, m: seq<Word>, marked: set<int>, s: seq<int>) {
    forall c {:trigger Done(L, T, m, marked, c)} :: c in L.own && L.own[c] in s && L.Role(c) == Slot ==>
      Done(L, T, m, marked, c)
  }

  /** A static object is a region by itself, and its first word gives its size. */
  lemma StaticBase(L: Layout, T: Trail, m: seq<Word>, b: int)
    requires Inv(L, T, m) && StaticScannable(L, T, b)
    ensures 0 <= b < |m| && Footprint(At(m, b)) == Footprint(L.Was(b))
    ensures Region(L, T, b, b + Footprint(L.Was(b))) && OutsideToSpace(L, b, b + Footprint(L.Was(b)))
  {
    hide Inv, Core, L.ObjectsOk, L.SpacesOk, L.WordsFit, InverseOk, WholeOk, StaticScannable, OutsideToSpace, InRegion;
    InvParts(L, T, m);
    StaticWords(L, T, b);
    StaticStays(L, T, b);
    BaseKind(L, T, m, b);
    forall x {:trigger InRegion(L, T, b, b + Footprint(L.Was(b)), x)} | b <= x < b + Footprint(L.Was(b))
      ensures InRegion(L, T, b, b + Footprint(L.Was(b)), x)
    {
      StaticWord(L, T, b, x);
    }
  }

  lemma StaticWords(L: Layout, T: Trail, b: int)
    requires L.ObjectsOk() && L.SpacesOk() && FwdOk(L, T) && StaticScannable(L, T, b)
    ensures L.Base(b) && L.own[b] == b && L.Type(b) == MlStatic && 0 <= b < |L.m0|
    ensures OutsideToSpace(L, b, b + Footprint(L.Was(b)))
    ensures Footprint(L.Was(b)) >= 2
  {
    var n := Footprint(L.Was(b));
    assert L.Within(b, b);
    if !OutsideToSpace(L, b, b + n) {
      assert L.Within(b, L.start);
    }
  }

  lemma StaticWord(L: Layout, T: Trail, b: int, x: int)
    requires L.ObjectsOk() && L.SpacesOk() && FwdOk(L, T) && StaticScannable(L, T, b)
    requires b <= x < b + Footprint(L.Was(b))
    ensures InRegion(L, T, b, b + Footprint(L.Was(b)), x)
  {
    assert L.Within(b, x);
    SameSpace(L, x);
    StaticStays(L, T, x);
    StaticStays(L, T, b);
    assert x !in T.bk;
  }

  lemma StaticsMore(L: Layout, T: Trail, m: seq<Word>, marked: set<int>, T1: Trail, m1: seq<Word>, marked1: set<int>,
                    s: seq<int>, i: int)
    requires L.ObjectsOk() && L.SpacesOk() && FwdOk(L, T1) && StaticsScannable(L, T1, s) && 0 <= i < |s|
    requires Evolves(L, T, m, T1, m1) && marked1 <= marked && StaticsDone(L, T, m, marked, s[..i])
    requires DoneIn(L, T1, m1, marked1, s[i], s[i] + Footprint(L.Was(s[i])))
    ensures StaticsDone(L, T1, m1, marked1, s[..i + 1])
  {
    hide L.ObjectsOk, L.SpacesOk, Evolves, Done, InverseOk, WholeOk;
    var b := s[i];
    assert StaticScannable(L, T1, b);
    forall c {:trigger Done(L, T1, m1, marked1, c)} | c in L.own && L.own[c] in s[..i + 1] && L.Role(c) == Slot
      ensures Done(L, T1, m1, marked1, c)
    {
      if L.own[c] == b {
        OwnWithin(L, c);
        SameSpace(L, c);
        StaticStays(L, T1, c);
        assert SlotIn(L, T1, b, b + Footprint(L.Was(b)), c);
      } else {
        assert L.own[c] in s[..i];
        assert Done(L, T, m, marked, c);
        DoneStays(L, T, m, marked, T1, m1, marked1, c);
      }
    }
  }

  lemma OwnWithin(L: Layout, c: int)
    requires L.ObjectsOk() && c in L.own
    ensures L.Base(L.own[c]) && L.own[c] <= c < L.own[c] + Footprint(L.Was(L.own[c]))
  {
    assert L.Within(L.own[c], c);
  }
}
