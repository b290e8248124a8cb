/** The cells a collection fixes one stretch after another, and what is known once they are all fixed. */
module Survival {
  import opened Heap
  import opened Seqs
  import opened Copying
  import opened Moving
  import opened Scanning
  import opened EntryLists
  import opened Remembered
  import opened Roots

  // ---- Sets of fixed cells ----

  ghost predicate DoneAll(L: Layout, T: Trail, m: seq<Word>, marked: set<int>, D: set<int>) {
    forall c {:trigger Done(L, T, m, marked, c)} :: c in D ==> Done(L, T, m, marked, c)
  }

  ghost predicate CellSet(L: Layout, D: set<int>) {
    forall c :: c in D ==> L.Cell(c)
  }

  lemma DoneAllStays(L: Layout, T: Trail, m: seq<Word>, marked: set<int>, T1: Trail, m1: seq<Word>, marked1: set<int>,
                     D: set<int>)
    requires Evolves(L, T, m, T1, m1) && marked1 <= marked && CellSet(L, D) && DoneAll(L, T, m, marked, D)
    ensures DoneAll(L, T1, m1, marked1, D)
  {
    hide Evolves, Done;
    forall c {:trigger Done(L, T1, m1, marked1, c)} | c in D ensures Done(L, T1, m1, marked1, c) {
      assert Done(L, T, m, marked, c);
      DoneStays(L, T, m, marked, T1, m1, marked1, c);
    }
  }

  /** The roots of the table. */
  function TableCells(table: seq<Entry>, all: bool): set<int> {
    set e | e in table && e.Root? && (all || e.live) :: e.root
  }

  /** The slots of objects in [lo, hi). */
  ghost function RegionCells(L: Layout, lo: int, hi: int): (D: set<int>)
    ensures CellSet(L, D)
  {
    set c | c in L.own && L.Role(c) == Slot && lo <= c < hi
  }

  /** The slots of the objects `s`. */
  ghost function ObjectCells(L: Layout, s: seq<int>): (D: set<int>)
    ensures CellSet(L, D)
  {
    set c | c in L.own && L.Role(c) == Slot && L.own[c] in s
  }

  /** The slots in the words of an object are those of the object. */
  lemma StaticCells(L: Layout, s: seq<int>, b: int)
    requires L.ObjectsOk() && L.Base(b) && b in s
    ensures RegionCells(L, b, b + Footprint(L.Was(b))) <= ObjectCells(L, s)
  {
    forall c | c in RegionCells(L, b, b + Footprint(L.Was(b))) ensures c in ObjectCells(L, s) {
      assert L.Within(b, c);
    }
  }

  /** What arrays that joined a list in front add to its cells. */
  lemma FrontCells(L: Layout, s: seq<int>, t: seq<int>, P: seq<int>)
    requires InFront(s, t, P)
    ensures ObjectCells(L, P) + ObjectCells(L, t) == ObjectCells(L, P) + ObjectCells(L, s)
  {
    var n := |t| - |s|;
    forall b | b in s ensures b in t {
      var i :| 0 <= i < |s| && s[i] == b;
      assert t[n..][i] == t[n + i];
    }
    forall b | b in t ensures b in P || b in s {
      var i :| 0 <= i < |t| && t[i] == b;
      if i >= n {
        assert t[n..][i - n] == s[i - n];
      }
    }
  }

  lemma CellsOfBoth(L: Layout, s: seq<int>, t: seq<int>)
    ensures ObjectCells(L, s + t) == ObjectCells(L, s) + ObjectCells(L, t)
  {
  }

  lemma TableDone(L: Layout, T: Trail, m: seq<Word>, marked: set<int>, table: seq<Entry>, all: bool)
    requires RootsDone(L, T, m, marked, table, all)
    requires forall e :: e in table && e.Root? ==> e.root in L.roots
    ensures DoneAll(L, T, m, marked, TableCells(table, all)) && CellSet(L, TableCells(table, all))
  {
    hide Done;
    forall c {:trigger Done(L, T, m, marked, c)} | c in TableCells(table, all)
      ensures Done(L, T, m, marked, c) && c in L.roots
    {
      var e :| e in table && e.Root? && (all || e.live) && e.root == c;
      assert Done(L, T, m, marked, e.root);
    }
  }

  lemma RegionDone(L: Layout, T: Trail, m: seq<Word>, marked: set<int>, lo: int, hi: int)
    requires L.SpacesOk() && FwdOk(L, T) && Region(L, T, lo, hi) && OutsideToSpace(L, lo, hi)
    requires DoneIn(L, T, m, marked, lo, hi)
    ensures DoneAll(L, T, m, marked, RegionCells(L, lo, hi))
  {
    hide Done;
    forall c {:trigger Done(L, T, m, marked, c)} | c in RegionCells(L, lo, hi) ensures Done(L, T, m, marked, c) {
      assert InRegion(L, T, lo, hi, c);
      OrgOutside(L, T, c);
      assert SlotIn(L, T, lo, hi, c);
    }
  }

  /** A part of a region outside to-space. */
  lemma SlotsOfRegion(L: Layout, T: Trail, lo: int, hi: int, f: int, f1: int)
    requires FwdOk(L, T) && OutsideToSpace(L, lo, hi) && lo <= f && f1 <= hi
    ensures SlotsIn(L, T, f, f1) <= RegionCells(L, lo, hi)
  {
  }

  lemma ObjectsDone(L: Layout, T: Trail, m: seq<Word>, marked: set<int>, s: seq<int>)
    requires StaticsDone(L, T, m, marked, s)
    ensures DoneAll(L, T, m, marked, ObjectCells(L, s))
  {
  }

  // ---- The generations whose references are looked through ----

  /** The younger generations of `from` are, from the oldest to the youngest, `younger`. */
  ghost predicate ChainOk(A: Ages, from: int, younger: seq<int>) {
    && from != 0 && from in A.gens && A.gens[from].child == Nth(younger, 0)
    && (forall i :: 0 <= i < |younger| ==>
          younger[i] != 0 && younger[i] in A.gens && A.gens[younger[i]].child == Nth(younger, i + 1))
    && (forall i :: 0 <= i < |younger| ==> A.Number(younger[i]) == A.Number(from) - 1 - i)
  }

  ghost predicate GenScannable(L: Layout, A: Ages, T: Trail, g: int)
    requires g in A.gens
  {
    && A.gens[g].start <= A.gens[g].top
    && Region(L, T, A.gens[g].start, A.gens[g].top) && OutsideToSpace(L, A.gens[g].start, A.gens[g].top)
    && StaticsScannable(L, T, A.gens[g].statics)
  }

  lemma GenScannableStays(L: Layout, A: Ages, T: Trail, T1: Trail, g: int)
    requires L.SpacesOk() && FwdOk(L, T) && FwdOk(L, T1) && g in A.gens && GenScannable(L, A, T, g)
    ensures GenScannable(L, A, T1, g)
  {
    RegionStays(L, T, T1, A.gens[g].start, A.gens[g].top);
  }

  /** The elements of the ordinary arrays on the entry lists of the generations `Y` are cells from which the
      collection sets out. */
  ghost predicate Entered(L: Layout, home: map<int, int>, Y: set<int>) {
    forall b :: b in home && home[b] in Y && OrdinaryHeader(L.Was(b)) ==> FixableArray(L, b)
  }

  // ---- Arrays that refer to themselves ----

  /** Every array of the list `s` that lies in from-space and refers to itself is copied before its turn comes: a cell
      of `D` or an element of an earlier array of the list refers to it. */
  ghost predicate Timely(L: Layout, D: set<int>, s: seq<int>) {
    forall k :: 0 <= k < |s| && OrdinaryHeader(L.Was(s[k])) && L.Type(s[k]) == From && RefersToItself(L, s[k]) ==>
      LedTo(L, D + ObjectCells(L, s[..k]), s[k])
  }

  ghost predicate AllArrays(L: Layout, P: seq<int>) {
    forall b :: b in P ==> L.Base(b) && IsArray(L.Was(b))
  }

  /** The list `t` is `s` with arrays of `P` in front. */
  ghost predicate InFront(s: seq<int>, t: seq<int>, P: seq<int>) {
    |s| <= |t| && t[|t| - |s|..] == s && forall i :: 0 <= i < |t| - |s| ==> t[i] in P
  }

  /** From `lists` to `lists1` only arrays of `P` have joined lists other than that of `gen`, each at the front. */
  ghost predicate Joined(lists: map<int, seq<int>>, lists1: map<int, seq<int>>, gen: int, P: seq<int>) {
    forall h :: h in lists && h != gen ==> h in lists1 && InFront(lists[h], lists1[h], P)
  }

  lemma JoinedNone(lists: map<int, seq<int>>, gen: int, P: seq<int>)
    ensures Joined(lists, lists, gen, P)
  {
  }

  lemma InFrontTrans(s: seq<int>, t: seq<int>, u: seq<int>, P: seq<int>, Q: seq<int>)
    requires InFront(s, t, P) && InFront(t, u, Q)
    ensures InFront(s, u, P + Q)
  {
    var k := |u| - |t|;
    assert u[|u| - |s|..] == u[k..][|t| - |s|..];
    forall i | 0 <= i < |u| - |s| ensures u[i] in P + Q {
      if i >= k {
        assert u[k..][i - k] == u[i];
      }
    }
  }

  lemma JoinedTrans(lists: map<int, seq<int>>, lists1: map<int, seq<int>>, lists2: map<int, seq<int>>, gen: int,
                    P: seq<int>, Q: seq<int>)
    requires Joined(lists, lists1, gen, P) && Joined(lists1, lists2, gen, Q)
    ensures Joined(lists, lists2, gen, P + Q)
  {
    hide InFront;
    forall h | h in lists && h != gen ensures h in lists2 && InFront(lists[h], lists2[h], P + Q) {
      InFrontTrans(lists[h], lists1[h], lists2[h], P, Q);
    }
  }

  /** Just the objects have been copied to which one of the cells `D` leads. */
  ghost predicate JustBrought(L: Layout, T: Trail, D: set<int>) {
    forall b {:trigger b in T.fw} :: b in T.fw && L.Base(b) ==> LedTo(L, D, b)
  }

  lemma JustBroughtMore(L: Layout, T: Trail, T1: Trail, D: set<int>, E: set<int>)
    requires JustBrought(L, T, D) && Brought(L, T, T1, E)
    ensures JustBrought(L, T1, D + E)
  {
    forall b {:trigger b in T1.fw} | b in T1.fw && L.Base(b) ensures LedTo(L, D + E, b) {
      if b in T.fw {
        var c :| c in D && L.PointsTo(c, b);
      } else {
        var c :| c in E && L.PointsTo(c, b);
      }
    }
  }

  /** When the turn of a list comes, its arrays stay where they are if and only if that can be told from the list as it
      was at the start: arrays that joined it since have been fixed before. */
  lemma TimelyIffInTurn(L: Layout, A: Ages, T: Trail, m: seq<Word>, marked: set<int>, home0: map<int, int>,
                        home: map<int, int>, to: int, D: set<int>, P: seq<int>, s: seq<int>, t: seq<int>)
    requires Inv(L, T, m) && Progress(L, A, T, m, marked, home0, home, to, D, P) && AllArrays(L, P) && AllArrays(L, t)
    requires InFront(s, t, P) && JustBrought(L, T, D + ObjectCells(L, P))
    ensures InTurn(L, T, t, |t|) <==> Timely(L, D + ObjectCells(L, P), s)
  {
    hide Inv, HandledAll, StaysAfter, DoneAll, HomeFrame, RefersToItself, LedTo, ObjectCells;
    var E := D + ObjectCells(L, P);
    var n := |t| - |s|;
    forall k | 0 <= k < n && OrdinaryHeader(L.Was(t[k])) ensures StaysAfter(L, T, t[..k], t[k]) {
      HandledThenStays(L, A, T, m, marked, home, to, P, t[k], t[..k]);
    }
    forall j | 0 <= j < |s|
      ensures s[j] == t[n + j] && (StaysAfter(L, T, t[..n + j], s[j]) <==> TimelyAt(L, E, s, j))
    {
      assert t[n..][j] == t[n + j];
      InTurnAt(L, A, T, m, marked, home, to, D, P, s, t, j);
    }
    TimelyParts(L, E, s);
    if Timely(L, E, s) {
      forall k | 0 <= k < |t| && OrdinaryHeader(L.Was(t[k])) ensures StaysAfter(L, T, t[..k], t[k]) {
        if k >= n {
          assert t[k] == s[k - n];
        }
      }
    }
  }

  /** The array at position `j` of the list is copied before its turn comes if it has to be. */
  ghost predicate TimelyAt(L: Layout, D: set<int>, s: seq<int>, j: int)
    requires 0 <= j < |s|
  {
    L.Type(s[j]) == From && RefersToItself(L, s[j]) ==> LedTo(L, D + ObjectCells(L, s[..j]), s[j])
  }

  lemma TimelyParts(L: Layout, D: set<int>, s: seq<int>)
    ensures Timely(L, D, s) <==> forall j :: 0 <= j < |s| && OrdinaryHeader(L.Was(s[j])) ==> TimelyAt(L, D, s, j)
  {
    hide LedTo, RefersToItself, ObjectCells;
  }

  lemma HandledThenStays(L: Layout, A: Ages, T: Trail, m: seq<Word>, marked: set<int>, home: map<int, int>, to: int,
                         P: seq<int>, b: int, Q: seq<int>)
    requires Inv(L, T, m) && HandledAll(L, A, T, m, marked, home, to, P) && b in P && AllArrays(L, P)
    requires OrdinaryHeader(L.Was(b))
    ensures StaysAfter(L, T, Q, b)
  {
    hide Inv, Filed, AllDone, Stays;
    assert Handled(L, A, T, m, marked, home, to, b);
    DoneThenStays(L, T, m, marked, b);
  }

  lemma InTurnAt(L: Layout, A: Ages, T: Trail, m: seq<Word>, marked: set<int>, home: map<int, int>, to: int,
                 D: set<int>, P: seq<int>, s: seq<int>, t: seq<int>, j: int)
    requires Inv(L, T, m) && CellSet(L, D) && DoneAll(L, T, m, marked, D) && AllArrays(L, P) && AllArrays(L, t)
    requires HandledAll(L, A, T, m, marked, home, to, P) && InFront(s, t, P) && 0 <= j < |s|
    requires JustBrought(L, T, D + ObjectCells(L, P))
    ensures StaysAfter(L, T, t[..|t| - |s| + j], s[j]) <==> TimelyAt(L, D + ObjectCells(L, P), s, j)
  {
    hide Inv, HandledAll, RefersToItself, L.PointsTo, Done, DoneAll;
    var n, b, E := |t| - |s|, s[j], D + ObjectCells(L, P);
    assert t[n..][j] == t[n + j] && b in t;
    if c :| c in E && L.PointsTo(c, b) {
      EarlyCellDone(L, A, T, m, marked, home, to, D, P, c);
      DoneTarget(L, T, m, marked, c, b);
    }
    if b in T.fw {
      assert LedTo(L, E, b);
    }
    FrontElements(L, P, s, t, j);
  }

  /** The elements of the arrays before the one at position `j`. */
  lemma FrontElements(L: Layout, P: seq<int>, s: seq<int>, t: seq<int>, j: int)
    requires InFront(s, t, P) && 0 <= j < |s|
    ensures forall c :: ElementOf(L, t[..|t| - |s| + j], c) ==> c in ObjectCells(L, P) + ObjectCells(L, s[..j])
    ensures forall c :: c in ObjectCells(L, s[..j]) ==> ElementOf(L, t[..|t| - |s| + j], c)
  {
    var n := |t| - |s|;
    forall b | b in s[..j] ensures b in t[..n + j] {
      var i :| 0 <= i < j && s[i] == b;
      assert t[..n + j][n + i] == t[n..][i];
    }
    forall b | b in t[..n + j] ensures b in P || b in s[..j] {
      var i :| 0 <= i < n + j && t[i] == b;
      if i >= n {
        assert s[..j][i - n] == t[n..][i - n];
      }
    }
  }

  lemma EarlyCellDone(L: Layout, A: Ages, T: Trail, m: seq<Word>, marked: set<int>, home: map<int, int>, to: int,
                      D: set<int>, P: seq<int>, c: int)
    requires Inv(L, T, m) && CellSet(L, D) && DoneAll(L, T, m, marked, D) && AllArrays(L, P)
    requires HandledAll(L, A, T, m, marked, home, to, P) && c in D + ObjectCells(L, P)
    ensures L.Cell(c) && Done(L, T, m, marked, c)
  {
    hide Inv, Handled, Done, Core;
    InvParts(L, T, m);
    if c !in D {
      assert Handled(L, A, T, m, marked, home, to, L.own[c]);
      HandledSlot(L, A, T, m, marked, home, to, L.own[c], c);
    }
  }

  // ---- The state of the first phase ----

  /** The cells `D` are done; the arrays `P` have been handled and no other array has changed lists. */
  ghost predicate Progress(L: Layout, A: Ages, T: Trail, m: seq<Word>, marked: set<int>, home0: map<int, int>,
                           home: map<int, int>,
                           to: int, D: set<int>, P: seq<int>) {
    CellSet(L, D) && DoneAll(L, T, m, marked, D) && HandledAll(L, A, T, m, marked, home, to, P) &&
      HomeFrame(L, home0, home, P)
  }

  lemma ProgressStays(L: Layout, A: Ages, T: Trail, m: seq<Word>, marked: set<int>, T1: Trail, m1: seq<Word>,
                      marked1: set<int>,
                      home0: map<int, int>, home: map<int, int>, to: int, D: set<int>, P: seq<int>, D1: set<int>)
    requires L.ObjectsOk() && L.SpacesOk() && FwdOk(L, T)
    requires Progress(L, A, T, m, marked, home0, home, to, D, P) && Evolves(L, T, m, T1, m1) && marked1 <= marked
    requires CellSet(L, D1) && DoneAll(L, T1, m1, marked1, D1)
    ensures Progress(L, A, T1, m1, marked1, home0, home, to, D + D1, P)
  {
    hide L.ObjectsOk, L.SpacesOk, InverseOk, WholeOk, Evolves, Handled, HomeFrame, Done;
    DoneAllStays(L, T, m, marked, T1, m1, marked1, D);
    forall b {:trigger Handled(L, A, T1, m1, marked1, home, to, b)} | b in P
      ensures Handled(L, A, T1, m1, marked1, home, to, b)
    {
      HandledStays(L, A, T, m, marked, home, T1, m1, marked1, home, to, b);
    }
  }

  lemma ProgressList(L: Layout, A: Ages, T: Trail, m: seq<Word>, marked: set<int>, T1: Trail, m1: seq<Word>,
                     marked1: set<int>,
                     home0: map<int, int>, home: map<int, int>, home1: map<int, int>, to: int, D: set<int>, P: seq<int>,
                       s: seq<int>)
    requires L.ObjectsOk() && L.SpacesOk() && FwdOk(L, T)
    requires Progress(L, A, T, m, marked, home0, home, to, D, P) && Evolves(L, T, m, T1, m1) && marked1 <= marked
    requires HandledAll(L, A, T1, m1, marked1, home1, to, s) && HomeFrame(L, home, home1, s)
    ensures Progress(L, A, T1, m1, marked1, home0, home1, to, D, P + s)
  {
    hide L.ObjectsOk, L.SpacesOk, InverseOk, WholeOk, Evolves, Handled, Done, SameHome;
    DoneAllStays(L, T, m, marked, T1, m1, marked1, D);
    forall b {:trigger Handled(L, A, T1, m1, marked1, home1, to, b)} | b in P + s
      ensures Handled(L, A, T1, m1, marked1, home1, to, b)
    {
      if b !in s {
        assert SameHome(home, home1, b);
        HandledStays(L, A, T, m, marked, home, T1, m1, marked1, home1, to, b);
      }
    }
    forall n {:trigger SameHome(home0, home1, n)} | n !in P + s || !HasKind(L.Was(n), false)
      ensures SameHome(home0, home1, n)
    {
      SameHomeTrans(home0, home, home1, n);
    }
  }


  /** The arrays `P` are those that were on the lists of the generations `G` at the start. */
  ghost predicate Picked(home0: map<int, int>, P: seq<int>, G: set<int>) {
    forall b :: b in P <==> b in home0 && home0[b] in G
  }

  lemma PickMore(L: Layout, T: Trail, lists: map<int, seq<int>>, home0: map<int, int>, home: map<int, int>, P: seq<int>,
                 G: set<int>, g: int, weak: bool := false)
    requires ListsOk(L, T, lists, home) && g in lists && Picked(home0, P, G) && HomeFrame(L, home0, home, P, weak)
    ensures Picked(home0, P + lists[g], G + {g})
  {
    assert ListOk(L, T, home, g, lists[g]);
    forall b ensures b in P + lists[g] <==> b in home0 && home0[b] in G + {g} {
      if b !in P {
        assert SameHome(home0, home, b);
      }
    }
  }

  lemma NoCells(L: Layout, T: Trail, m: seq<Word>, marked: set<int>)
    ensures DoneAll(L, T, m, marked, {}) && CellSet(L, {})
  {
  }

  /** The slots of the objects of the generation `g`. */
  ghost function GenCells(L: Layout, A: Ages, g: int): set<int> {
    if g in A.gens then RegionCells(L, A.gens[g].start, A.gens[g].top) + ObjectCells(L, A.gens[g].statics) else {}
  }

  /** The slots of the generations `G` are among `D`. */
  ghost predicate GensFixed(L: Layout, A: Ages, D: set<int>, G: seq<int>) {
    forall g :: g in G ==> GenCells(L, A, g) <= D
  }

  ghost predicate GensScannable(L: Layout, A: Ages, T: Trail, G: seq<int>) {
    forall g :: g in G ==> g in A.gens && GenScannable(L, A, T, g)
  }

  lemma GensScannableAt(L: Layout, A: Ages, T: Trail, G: seq<int>, i: int)
    requires GensScannable(L, A, T, G) && 0 <= i < |G|
    ensures G[i] in A.gens && GenScannable(L, A, T, G[i])
  {
    var g := G[i];
    assert g in G && g in A.gens;
  }

  lemma NoGensFixed(L: Layout, A: Ages, D: set<int>)
    ensures GensFixed(L, A, D, [])
  {
  }

  lemma GensScannableStay(L: Layout, A: Ages, T: Trail, T1: Trail, G: seq<int>)
    requires L.SpacesOk() && FwdOk(L, T) && FwdOk(L, T1) && GensScannable(L, A, T, G)
    ensures GensScannable(L, A, T1, G)
  {
    forall g | g in G ensures g in A.gens && GenScannable(L, A, T1, g) {
      GenScannableStays(L, A, T, T1, g);
    }
  }

  lemma GenScannableStatics(L: Layout, A: Ages, T: Trail, g: int)
    requires g in A.gens && GenScannable(L, A, T, g)
    ensures StaticsScannable(L, T, A.gens[g].statics)
  {
  }

  lemma StaticsScannableStay(L: Layout, T: Trail, T1: Trail, s: seq<int>)
    requires StaticsScannable(L, T, s)
    ensures StaticsScannable(L, T1, s)
  {
    forall b | b in s ensures StaticScannable(L, T1, b) {
      assert StaticScannable(L, T, b);
    }
  }

  lemma GensFixedMore(L: Layout, A: Ages, D: set<int>, D1: set<int>, G: seq<int>, i: int)
    requires 0 <= i < |G| && GensFixed(L, A, D, G[..i])
    requires D1 >= D + GenCells(L, A, G[i])
    ensures GensFixed(L, A, D1, G[..i + 1])
  {
    hide GenCells;
    assert G[..i + 1] == G[..i] + [G[i]];
  }

  lemma ChainStep(A: Ages, from: int, younger: seq<int>, i: int)
    requires ChainOk(A, from, younger) && 0 <= i <= |younger|
    ensures Nth(younger, i) != 0 <==> i < |younger|
    ensures i < |younger| ==> younger[i] in A.gens && A.gens[younger[i]].child == Nth(younger, i + 1)
    ensures from != 0 && from in A.gens && A.gens[from].child == Nth(younger, 0)
  {
  }

  lemma StartBoundary(L: Layout, T: Trail)
    requires FwdOk(L, T)
    ensures Boundary(L, T, L.start) && Boundary(L, T, L.start + T.used)
  {
    UsedNotNegative(L, T);
    BoundaryHere(L, T, L.start);
    BoundaryHere(L, T, L.start + T.used);
  }

  lemma UsedNotNegative(L: Layout, T: Trail)
    requires InverseOk(L, T)
    ensures L.start <= L.start + T.used <= L.limit
  {
  }

  /** What was scanned before stays done when more is copied and scanned. */
  lemma ScannedBoth(L: Layout, T: Trail, m: seq<Word>, marked: set<int>, T1: Trail, m1: seq<Word>, marked1: set<int>,
                    mid: int)
    requires L.SpacesOk() && FwdOk(L, T) && FwdOk(L, T1) && Evolves(L, T, m, T1, m1) && marked1 <= marked
    requires mid == L.start + T.used && DoneIn(L, T, m, marked, L.start, mid)
    requires DoneIn(L, T1, m1, marked1, mid, L.start + T1.used)
    ensures DoneIn(L, T1, m1, marked1, L.start, L.start + T1.used)
  {
    hide Evolves, Done, InverseOk, WholeOk, L.SpacesOk;
    DoneInStays(L, T, m, marked, T1, m1, marked1, L.start, mid);
    var top := L.start + T1.used;
    forall d {:trigger SlotIn(L, T1, L.start, top, d)} | SlotIn(L, T1, L.start, top, d)
      ensures Done(L, T1, m1, marked1, d)
    {
      if T1.Cur(d) < mid {
        assert SlotIn(L, T1, L.start, mid, d);
      } else {
        assert SlotIn(L, T1, mid, top, d);
      }
    }
  }

  lemma NonePicked(home0: map<int, int>)
    ensures Picked(home0, [], {})
  {
  }
}
