/** Moving one object to to-space: how the writes of fixup add up to an evacuation, what fixup
    finds when it follows a reference, and what fixing one cell achieves. */
module Moving {
  import opened Heap
  import opened Copying

  ghost predicate Grows(T: Trail, T1: Trail) {
    && T.used <= T1.used
    && forall a :: a in T.fw ==> a in T1.fw && T1.fw[a] == T.fw[a]
  }

  lemma GrowsTrans(T: Trail, T1: Trail, T2: Trail)
    requires Grows(T, T1) && Grows(T1, T2)
    ensures Grows(T, T2)
  {
  }

  /** `c` may serve as a starting point: it is an entry slot or lies in a copied object. */
  ghost predicate Source(L: Layout, T: Trail, c: int) {
    c in L.entry || (c in L.own && L.own[c] in T.fw)
  }

  /** Of the objects that are still in from-space only arrays have their cells fixed there. */
  ghost predicate InPlace(L: Layout, T: Trail, c: int) {
    c in L.own && L.Type(c) == From && c !in T.fw ==> IsArray(L.Was(L.own[c]))
  }

  /** The word at `what` is the cell `c`, at its present place or, in an array that was copied while its
      elements were being fixed, at its old one. */
  ghost predicate Spot(L: Layout, T: Trail, c: int, what: int) {
    L.Cell(c) && InPlace(L, T, c) && (what == T.Cur(c) || (what == c && OldElement(L, T, c)))
  }

  lemma SourceReaches(L: Layout, T: Trail, c: int)
    requires ReachOk(L, T) && FwdOk(L, T) && L.ObjectsOk() && L.SpacesOk() && L.Cell(c) && Source(L, T, c)
    requires L.Was(c).Ptr? && L.Type(L.Was(c).addr) == From && L.Was(c).addr in L.own
    ensures L.Reachable(L.own[L.Was(c).addr])
  {
    var b := L.own[L.Was(c).addr];
    assert L.PointsTo(c, b);
    if c in L.entry {
      assert L.ReachedIn(b, 0);
    } else {
      assert L.Within(L.own[c], c);
      var k: nat :| L.ReachedIn(L.own[c], k);
      assert L.ReachedIn(b, k + 1);
    }
  }

  /** The marks that have been taken off static objects since they were `marks`. */
  ghost predicate Spared(L: Layout, marks: set<int>, marked: set<int>) {
    forall b {:trigger L.Mentioned(b)} :: b in marks && b !in marked ==> L.Mentioned(b)
  }

  lemma SourceMentions(L: Layout, T: Trail, c: int)
    requires ReachOk(L, T) && FwdOk(L, T) && L.ObjectsOk() && L.Cell(c) && Source(L, T, c)
    requires L.Was(c).Ptr? && L.Type(L.Was(c).addr) == MlStatic && L.Was(c).addr in L.own
    ensures L.Mentioned(L.own[L.Was(c).addr])
  {
    if c !in L.entry {
      assert L.Within(L.own[c], c);
    }
    assert L.Mentions(c, L.own[L.Was(c).addr]);
  }

  // ---- The effect of moving an object and fixing the reference that led to it ----

  /** `m1` is `m` after the object at `b` was moved to the end of to-space because the word at
      `what` refers to its word `a`, which is marked as well when it is an inner entry. */
  ghost predicate Moved(L: Layout, T: Trail, m: seq<Word>, m1: seq<Word>, b: int, a: int, what: int, tag: Tag) {
    var to := L.start + T.used;
    var n := Footprint(L.Was(b));
    && |m1| == |m|
    && At(m1, b) == Evacuated && At(m1, b + 1) == Ptr(tag, to)
    && (a != b ==> At(m1, a) == Evacuated && At(m1, a + 1) == Ptr(Pointer, to + (a - b)))
    && At(m1, what) == Ptr(tag, to + (a - b))
    && (forall x {:trigger At(m1, x)} :: to <= x < to + n ==>
          At(m1, x) == if x - to + b == what then Ptr(tag, to + (a - b)) else At(m, x - to + b))
    && (b in T.nxt && b in T.prv ==> At(m1, T.Cur(T.nxt[b] + 2)) == Imm(to) && At(m1, T.Cur(T.prv[b] + 1)) == Imm(to))
    && (forall x {:trigger At(m1, x)} ::
          x != b && x != b + 1 && x != what && (a != b ==> x != a && x != a + 1) && !(to <= x < to + n) &&
          !Neighbour(T, b, x)
          ==> At(m1, x) == At(m, x))
  }

  /** The object to be moved and its destination do not overlap; the cell to be fixed is not in the
      destination, and in the object just if it is an element of that array. */
  lemma Apart(L: Layout, T: Trail, b: int, c: int, what: int)
    requires L.ObjectsOk() && L.SpacesOk() && FwdOk(L, T) && Evacuable(L, T, b) && Spot(L, T, c, what)
    ensures var to := L.start + T.used; var n := Footprint(L.Was(b));
            && 0 < b && b + n <= |L.m0| && 0 < to && to + n <= L.limit <= |L.m0|
            && (b + n <= to || to + n <= b)
            && !(to <= what < to + n) && 0 <= what < |L.m0|
            && (b <= what < b + n ==> c == what && c in L.own && L.own[c] == b && IsArray(L.Was(b)) && b + 3 <= what)
  {
    var to := L.start + T.used;
    var n := Footprint(L.Was(b));
    RoomFor(L, T, b);
    ObjectWords(L, T, b, b);
    ObjectWords(L, T, b, b + n - 1);
    if b <= to < b + n {
      ObjectWords(L, T, b, to);
    }
    if b <= what < b + n {
      ObjectWords(L, T, b, what);
    }
  }

  /** Everything about the places involved that the effect of a move depends on. */
  ghost predicate Places(L: Layout, T: Trail, m: seq<Word>, b: int, a: int, what: int) {
    var to := L.start + T.used;
    var n := Footprint(L.Was(b));
    && 0 < b && b + n <= |m| && 0 < to && to + n <= |m| && (b + n <= to || to + n <= b)
    && (b <= what < b + n ==> IsArray(L.Was(b)) && b + 3 <= what) && !(to <= what < to + n) && 0 <= what < |m|
    && b <= a && a + 1 < b + n && (a != b ==> b + 1 < a)
    && (!IsArray(L.Was(b)) ==> b !in T.nxt)
    && (a != b ==> !IsArray(L.Was(b)))
    && !Neighbour(T, b, what)
  }

  lemma PlacesOk(L: Layout, T: Trail, m: seq<Word>, b: int, a: int, c: int, what: int)
    requires L.ObjectsOk() && L.SpacesOk() && FwdOk(L, T) && RingsOk(L, T) && |m| == |L.m0|
    requires Evacuable(L, T, b) && Spot(L, T, c, what)
    requires L.Was(c).Ptr? && L.Was(c).addr == a && L.Target(L.Was(c).tag, a) && L.own[a] == b
    ensures Places(L, T, m, b, a, what)
  {
    hide L.ObjectsOk, L.SpacesOk, InverseOk, WholeOk, RingsOk, InnerEntry;
    Apart(L, T, b, c, what);
    TargetFacts(L, L.Was(c).tag, a);
    InnerWords(L, T, b, a);
    SpotNoNeighbour(L, T, b, c, what);
    if a != b {
      InnerNoArray(L, b, a);
    }
    if !IsArray(L.Was(b)) {
      NotListed(L, T, b);
    }
  }

  lemma SpotNoNeighbour(L: Layout, T: Trail, b: int, c: int, what: int)
    requires L.ObjectsOk() && L.SpacesOk() && FwdOk(L, T) && RingsOk(L, T) && Spot(L, T, c, what)
    ensures !Neighbour(T, b, what)
  {
    hide L.ObjectsOk, L.SpacesOk, InverseOk, WholeOk, RingsOk;
    if Neighbour(T, b, what) {
      if what == T.Cur(c) {
        NeighbourRole(L, T, b, c);
        RootsApart(L, c);
      } else {
        RingStep(L, T, b);
        NodeNotCopied(L, T, T.nxt[b], 2, c);
        NodeNotCopied(L, T, T.prv[b], 1, c);
      }
    }
  }

  /** A move is an evacuation, then the marking of the inner entry, then the fixing of the cell. */
  lemma MovedSteps(L: Layout, T: Trail, m: seq<Word>, mf: seq<Word>, b: int, a: int, what: int, tag: Tag)
    returns (m1: seq<Word>, m2: seq<Word>)
    requires Places(L, T, m, b, a, what) && b in L.tag && L.tag[b] == tag
    requires Moved(L, T, m, mf, b, a, what, tag) && !(b <= what < b + Footprint(L.Was(b)))
    ensures Evacuates(L, T, m, m1, b)
    ensures InnerMarked(L, T, m1, m2, b, a)
    ensures Differ(m2, mf, what, what)
  {
    m2 := mf[what := m[what]];
    m1 := if a == b then m2 else m2[a := m[a]][a + 1 := m[a + 1]];
    forall x {:trigger At(m1, x)}
      ensures At(m1, x) == if x == what || (a != b && (x == a || x == a + 1)) then At(m, x) else At(mf, x)
    {
    }
  }

  /** If the cell is in the array that moves, both the cell and its copy have been fixed. */
  lemma OwnSteps(L: Layout, T: Trail, m: seq<Word>, mf: seq<Word>, b: int, what: int, tag: Tag)
    returns (m1: seq<Word>, m2: seq<Word>)
    requires Places(L, T, m, b, b, what) && b in L.tag && L.tag[b] == tag
    requires Moved(L, T, m, mf, b, b, what, tag) && b <= what < b + Footprint(L.Was(b))
    ensures Evacuates(L, T, m, m1, b)
    ensures var y, w := L.start + T.used + (what - b), Ptr(tag, L.start + T.used);
            Differ(m1, m2, y, y) && At(m2, y) == w && Differ(m2, mf, what, what) && At(mf, what) == w
  {
    var y := L.start + T.used + (what - b);
    assert At(mf, y) == Ptr(tag, L.start + T.used);
    m2 := mf[what := m[what]];
    m1 := m2[y := m[what]];
    forall x {:trigger At(m1, x)} ensures At(m1, x) == if x == what || x == y then m[what] else At(mf, x) {
    }
  }

  ghost predicate InnerMarked(L: Layout, T: Trail, m1: seq<Word>, m2: seq<Word>, b: int, a: int) {
    if a == b then m2 == m1
    else Differ(m1, m2, a, a + 1) && At(m2, a) == Evacuated &&
         At(m2, a + 1) == Ptr(Pointer, L.start + T.used + (a - b))
  }

  lemma InvCore(L: Layout, T: Trail, m: seq<Word>)
    requires Inv(L, T, m)
    ensures Core(L, T, m) && WeakUntouched(L, T, m)
  {
  }

  lemma InvParts(L: Layout, T: Trail, m: seq<Word>)
    requires Inv(L, T, m)
    ensures L.ObjectsOk() && L.SpacesOk() && L.WordsFit() && FwdOk(L, T) && RingsOk(L, T) && |m| == |L.m0|
    ensures ReachOk(L, T) && Core(L, T, m)
  {
  }

  /** Moving the object that a cell refers to keeps the invariant and fixes the cell: here, a cell at its
      present place outside that object. */
  lemma MovedApart(L: Layout, T: Trail, T1: Trail, m: seq<Word>, mf: seq<Word>, b: int, a: int, c: int)
    requires Inv(L, T, m) && Evacuable(L, T, b) && L.Reachable(b) && Spot(L, T, c, T.Cur(c))
    requires c in L.own ==> L.own[c] != b
    requires L.Was(c).Ptr? && L.Was(c).addr == a && L.Type(a) == From && L.Target(L.Was(c).tag, a) && L.own[a] == b
    requires Moved(L, T, m, mf, b, a, T.Cur(c), L.Was(c).tag)
    requires T1 == Extend(L, T, b, Footprint(L.Was(b)))
    ensures Inv(L, T1, mf) && Extends(L, T, T1, b, Footprint(L.Was(b)))
    ensures a in T1.fw && At(mf, T1.Cur(c)) == Ptr(L.Was(c).tag, T1.fw[a])
    ensures forall d :: Kept(L, d) && d != c ==> At(mf, T1.Cur(d)) == At(m, T.Cur(d))
  {
    hide L.ObjectsOk, L.SpacesOk, L.WordsFit, InverseOk, WholeOk, RingsOk, Inv, Core, Evacuates, Moved, Places, Extend,
      InnerEntry, InnerMarked, Spot;
    var what := T.Cur(c);
    InvParts(L, T, m);
    SpotCell(L, T, c, what);
    PlacesOk(L, T, m, b, a, c, what);
    Apart(L, T, b, c, what);
    TargetFacts(L, L.Was(c).tag, a);
    InnerWords(L, T, b, a);
    var m1, m2 := MovedSteps(L, T, m, mf, b, a, what, L.Was(c).tag);
    EvacuateInv(L, T, T1, m, m1, b);
    MovedMark(L, T, T1, m1, m2, b, a);
    MovedCell(L, T, T1, b, c);
    MovedTo(L, T, m, mf, b, a, what, L.Was(c).tag);
    PokeInv(L, T1, m2, mf, c);
  }

  lemma SpotCell(L: Layout, T: Trail, c: int, what: int)
    requires Spot(L, T, c, what)
    ensures L.Cell(c) && InPlace(L, T, c) && (what == T.Cur(c) || (what == c && c in T.fw && OldElement(L, T, c)))
  {
  }

  /** The array moves that the cell is in, because it refers to itself: both the cell and its copy are fixed. */
  lemma MovedOwn(L: Layout, T: Trail, T1: Trail, m: seq<Word>, mf: seq<Word>, b: int, c: int)
    requires Inv(L, T, m) && Evacuable(L, T, b) && L.Reachable(b) && Spot(L, T, c, c) && c in L.own && L.own[c] == b
    requires L.Was(c) == Ptr(RefPtr, b) && L.Target(RefPtr, b) && c !in T.fw && IsArray(L.Was(b))
    requires Moved(L, T, m, mf, b, b, c, RefPtr)
    requires T1 == Extend(L, T, b, Footprint(L.Was(b)))
    ensures Inv(L, T1, mf) && Extends(L, T, T1, b, Footprint(L.Was(b)))
    ensures b in T1.fw && At(mf, T1.Cur(c)) == At(mf, c) == Ptr(RefPtr, T1.fw[b])
    ensures forall d :: Kept(L, d) && d != c ==> At(mf, T1.Cur(d)) == At(m, T.Cur(d))
  {
    hide L.ObjectsOk, L.SpacesOk, L.WordsFit, InverseOk, WholeOk, RingsOk, Inv, Core, Evacuates, Moved, Places, Extend,
      InnerEntry, Spot;
    InvParts(L, T, m);
    SpotCell(L, T, c, c);
    PlacesOk(L, T, m, b, b, c, c);
    TargetFacts(L, RefPtr, b);
    OwnWords(L, b);
    var m1, m2 := OwnSteps(L, T, m, mf, b, c, RefPtr);
    EvacuateInv(L, T, T1, m, m1, b);
    FromBase(L, b);
    assert T1.Cur(c) == L.start + T.used + (c - b) && T1.fw[b] == L.start + T.used;
    PokeInv(L, T1, m1, m2, c);
    assert OldElement(L, T1, c) by { RootsApart(L, c); }
    OldPokeInv(L, T1, m2, mf, c);
  }

  lemma FromBase(L: Layout, b: int)
    requires L.SpacesOk() && L.Base(b)
    ensures L.own[b] == b && b in L.own
  {
  }

  /** The cell is an old element of an array that was copied before. */
  lemma MovedOld(L: Layout, T: Trail, T1: Trail, m: seq<Word>, mf: seq<Word>, b: int, a: int, c: int)
    requires Inv(L, T, m) && Evacuable(L, T, b) && L.Reachable(b) && Spot(L, T, c, c) && OldElement(L, T, c)
    requires L.Was(c).Ptr? && L.Was(c).addr == a && L.Type(a) == From && L.Target(L.Was(c).tag, a) && L.own[a] == b
    requires Moved(L, T, m, mf, b, a, c, L.Was(c).tag)
    requires T1 == Extend(L, T, b, Footprint(L.Was(b)))
    ensures Inv(L, T1, mf) && Extends(L, T, T1, b, Footprint(L.Was(b)))
    ensures a in T1.fw && At(mf, c) == Ptr(L.Was(c).tag, T1.fw[a])
    ensures forall d :: Kept(L, d) ==> At(mf, T1.Cur(d)) == At(m, T.Cur(d))
  {
    hide L.ObjectsOk, L.SpacesOk, L.WordsFit, InverseOk, WholeOk, RingsOk, Inv, Core, Evacuates, Moved, Places, Extend,
      InnerEntry, InnerMarked, Spot;
    InvParts(L, T, m);
    SpotCell(L, T, c, c);
    PlacesOk(L, T, m, b, a, c, c);
    Apart(L, T, b, c, c);
    TargetFacts(L, L.Was(c).tag, a);
    InnerWords(L, T, b, a);
    if b <= c < b + Footprint(L.Was(b)) {
      ObjectWords(L, T, b, c);
    }
    var m1, m2 := MovedSteps(L, T, m, mf, b, a, c, L.Was(c).tag);
    EvacuateInv(L, T, T1, m, m1, b);
    MovedMark(L, T, T1, m1, m2, b, a);
    MovedTo(L, T, m, mf, b, a, c, L.Was(c).tag);
    assert OldElement(L, T1, c);
    OldPokeInv(L, T1, m2, mf, c);
  }

  lemma MovedTo(L: Layout, T: Trail, m: seq<Word>, mf: seq<Word>, b: int, a: int, what: int, tag: Tag)
    requires Moved(L, T, m, mf, b, a, what, tag)
    ensures At(mf, what) == Ptr(tag, L.start + T.used + (a - b))
  {
  }

  lemma MovedMark(L: Layout, T: Trail, T1: Trail, m1: seq<Word>, m2: seq<Word>, b: int, a: int)
    requires Inv(L, T1, m1) && Extends(L, T, T1, b, Footprint(L.Was(b))) && b <= a && a + 1 < b + Footprint(L.Was(b))
    requires InnerMarked(L, T, m1, m2, b, a) && (a == b || InnerEntry(L, a))
    ensures Inv(L, T1, m2)
    ensures forall c :: c in L.own || c in L.roots ==> At(m2, T1.Cur(c)) == At(m1, T1.Cur(c))
  {
    if a != b {
      MarkInv(L, T1, m1, m2, a);
      MarkKeeps(L, T1, m1, m2, a);
    }
  }

  lemma MarkKeeps(L: Layout, T: Trail, m: seq<Word>, m1: seq<Word>, a: int)
    requires L.SpacesOk() && FwdOk(L, T) && a in T.fw && a + 1 in T.fw && Differ(m, m1, a, a + 1)
    ensures forall c :: c in L.own || c in L.roots ==> At(m1, T.Cur(c)) == At(m, T.Cur(c))
  {
    forall c | c in L.own || c in L.roots ensures At(m1, T.Cur(c)) == At(m, T.Cur(c)) {
      CopiedIsDead(L, T, c, a);
      CopiedIsDead(L, T, c, a + 1);
    }
  }

  lemma InnerWords(L: Layout, T: Trail, b: int, a: int)
    requires L.ObjectsOk() && L.SpacesOk() && FwdOk(L, T) && Evacuable(L, T, b)
    requires a in L.own && a + 1 in L.own && L.own[a] == b && L.own[a + 1] == b
    ensures b <= a && a + 1 < b + Footprint(L.Was(b))
  {
    assert L.Within(b, a) && L.Within(b, a + 1);
  }

  lemma MovedCell(L: Layout, T: Trail, T1: Trail, b: int, c: int)
    requires L.ObjectsOk() && L.SpacesOk() && FwdOk(L, T) && Evacuable(L, T, b) && L.Cell(c)
    requires Extends(L, T, T1, b, Footprint(L.Was(b)))
    requires c in L.own ==> L.own[c] != b
    ensures T1.Cur(c) == T.Cur(c)
  {
    if b <= c < b + Footprint(L.Was(b)) {
      ObjectWords(L, T, b, c);
    }
  }

  lemma NotListed(L: Layout, T: Trail, b: int)
    requires L.SpacesOk() && RingsOk(L, T) && L.Base(b) && !IsArray(L.Was(b))
    ensures b !in T.nxt
  {
    if b in T.nxt {
      RingStep(L, T, b);
      NotHead(L, b);
    }
  }

  lemma InnerNoArray(L: Layout, b: int, a: int)
    requires L.SharedEntry(b, a) || L.CodeEntry(b, a)
    ensures !IsArray(L.Was(b))
  {
  }

  /** `m1` is `m` with the `k` words from obj + 2 on copied to to + 2. */
  ghost predicate Copied(m: seq<Word>, m1: seq<Word>, to: int, obj: int, k: int) {
    |m1| == |m| && forall x {:trigger At(m1, x)} ::
      At(m1, x) == if to + 2 <= x < to + 2 + k then At(m, x - to + obj) else At(m, x)
  }

  /** `m1` is `m` after an evacuation wrote the marker and the fixed reference into the object at
      `b`, the fixed reference into `what`, and the object's first two words into to-space. */
  ghost predicate Begun(m: seq<Word>, m1: seq<Word>, b: int, to: int, what: int, tag: Tag) {
    |m1| == |m| && forall x {:trigger At(m1, x)} ::
      At(m1, x) == if x == b then Evacuated
                   else if x == b + 1 || x == what then Ptr(tag, to)
                   else if x == to then At(m, b)
                   else if x == to + 1 then At(m, b + 1)
                   else At(m, x)
  }

  lemma RecordMoved(L: Layout, T: Trail, m: seq<Word>, m1: seq<Word>, m2: seq<Word>, b: int, what: int, tag: Tag,
                    k: int)
    requires Places(L, T, m, b, b, what) && !IsArray(L.Was(b)) && Footprint(L.Was(b)) == 2 + k
    requires Begun(m, m1, b, L.start + T.used, what, tag)
    requires Copied(m1, m2, L.start + T.used, b, k)
    ensures Moved(L, T, m, m2, b, b, what, tag)
  {
  }

  lemma WholeWord(L: Layout, T: Trail, m: seq<Word>, m1: seq<Word>, m2: seq<Word>, mf: seq<Word>, b: int, a: int,
                   what: int, k: int, x: int)
    requires Places(L, T, m, b, a, what) && a != b && Footprint(L.Was(b)) == 2 + k
    requires var to := L.start + T.used;
             m1 == m[b := Evacuated][b + 1 := Ptr(Pointer, to)][to := m[b]][to + 1 := m[b + 1]]
    requires Copied(m1, m2, L.start + T.used, b, k)
    requires var w := Ptr(Pointer, L.start + T.used + (a - b));
             mf == m2[a := Evacuated][a + 1 := w][what := w]
    ensures |mf| == |m|
    ensures var w := Ptr(Pointer, L.start + T.used + (a - b));
            At(mf, x) == if x == what || x == a + 1 then w else if x == a then Evacuated else At(m2, x)
    ensures At(m2, x) ==
            if L.start + T.used <= x < L.start + T.used + 2 + k then At(m, x - (L.start + T.used) + b)
            else if x == b then Evacuated
            else if x == b + 1 then Ptr(Pointer, L.start + T.used) else At(m, x)
  {
  }

  lemma WholeMoved(L: Layout, T: Trail, m: seq<Word>, m1: seq<Word>, m2: seq<Word>, mf: seq<Word>, b: int, a: int,
                   what: int, k: int)
    requires Places(L, T, m, b, a, what) && a != b && Footprint(L.Was(b)) == 2 + k
    requires var to := L.start + T.used;
             m1 == m[b := Evacuated][b + 1 := Ptr(Pointer, to)][to := m[b]][to + 1 := m[b + 1]]
    requires Copied(m1, m2, L.start + T.used, b, k)
    requires var w := Ptr(Pointer, L.start + T.used + (a - b));
             mf == m2[a := Evacuated][a + 1 := w][what := w]
    ensures Moved(L, T, m, mf, b, a, what, Pointer)
  {
    hide Copied;
    WholePlaces(L, T, m, b, a, what);
    forall x {:trigger At(mf, x)}
      ensures |mf| == |m| && At(mf, x) == if x == what || x == a + 1 then Ptr(Pointer, L.start + T.used + (a - b))
                                          else if x == a then Evacuated
                                          else if L.start + T.used <= x < L.start + T.used + 2 + k then
                                            At(m, x - (L.start + T.used) + b)
                                          else if x == b then Evacuated
                                          else if x == b + 1 then Ptr(Pointer, L.start + T.used) else At(m, x)
    {
      WholeWord(L, T, m, m1, m2, mf, b, a, what, k, x);
    }
  }

  lemma WholePlaces(L: Layout, T: Trail, m: seq<Word>, b: int, a: int, what: int)
    requires Places(L, T, m, b, a, what) && a != b
    ensures a + 1 != b && a != b + 1 && what != a && what != a + 1 && what != b && what != b + 1
  {
  }

  /** The links of the array at `b` lead to the present places of its neighbours, which are
      apart from the array and its destination; an array on no list has a null link back. */
  ghost predicate ArrayLinked(L: Layout, T: Trail, m: seq<Word>, b: int) {
    if b in T.nxt then
      && b in T.prv
      && At(m, b + 1).Imm? && At(m, b + 1).n + 2 == T.Cur(T.nxt[b] + 2)
      && At(m, b + 2).Imm? && At(m, b + 2).n + 1 == T.Cur(T.prv[b] + 1) && At(m, b + 2) != Null
      && LinkApart(L, T, m, b, T.Cur(T.nxt[b] + 2)) && LinkApart(L, T, m, b, T.Cur(T.prv[b] + 1))
    else At(m, b + 2) == Null
  }

  ghost predicate LinkApart(L: Layout, T: Trail, m: seq<Word>, b: int, x: int) {
    var to := L.start + T.used;
    var n := Footprint(L.Was(b));
    0 <= x < |m| && !(b <= x < b + n) && !(to <= x < to + n)
  }

  /** `m` with the words at `x` and `y` both set to `w`. */
  ghost function Both(m: seq<Word>, x: int, y: int, w: Word): (m1: seq<Word>)
    requires 0 <= x < |m| && 0 <= y < |m|
    ensures |m1| == |m|
    ensures forall z {:trigger At(m1, z)} :: At(m1, z) == if z == x || z == y then w else At(m, z)
  {
    m[x := w][y := w]
  }

  /** `m1` is `m` with the words `p` and `q` put at `x` and at `x + 1`. */
  ghost predicate TwoSet(m: seq<Word>, m1: seq<Word>, x: int, p: Word, q: Word) {
    |m1| == |m| && forall z {:trigger At(m1, z)} :: At(m1, z) == if z == x then p else if z == x + 1 then q
      else At(m, z)
  }

  /** What the steps of moving an array find. */
  lemma ArrayPlan(L: Layout, T: Trail, m: seq<Word>, m1: seq<Word>, b: int, what: int, k: nat)
    requires Places(L, T, m, b, b, what) && Footprint(L.Was(b)) == 4 + k && ArrayLinked(L, T, m, b)
    requires Begun(m, m1, b, L.start + T.used, what, RefPtr)
    ensures var to := L.start + T.used;
            0 < b && b + 4 + k <= |m| && 0 < to && to + 4 + k <= |m| && (b + 4 + k <= to || to + 4 + k <= b)
    ensures At(m1, b + 2) == At(m, b + 2) && At(m, b + 2).Imm? && (b in T.nxt <==> At(m, b + 2) != Null)
    ensures b in T.nxt ==> b in T.prv && At(m, b + 1).Imm?
    ensures b in T.nxt ==>
              var x, y := At(m, b + 1).n + 2, At(m, b + 2).n + 1;
              x == T.Cur(T.nxt[b] + 2) && y == T.Cur(T.prv[b] + 1) && 0 <= x < |m| && 0 <= y < |m| &&
              At(Both(m1, x, y, Imm(L.start + T.used)), b + 3) == At(m1, b + 3)
  {
  }

  /** The words of the array have arrived in to-space. */
  lemma ArrayArrived(L: Layout, T: Trail, m: seq<Word>, m1: seq<Word>, m2: seq<Word>, m3: seq<Word>, m4: seq<Word>,
                   b: int, what: int, k: nat, x: int)
    requires Places(L, T, m, b, b, what) && Footprint(L.Was(b)) == 4 + k && ArrayLinked(L, T, m, b)
    requires Begun(m, m1, b, L.start + T.used, what, RefPtr)
    requires m2 == if b in T.nxt then Both(m1, T.Cur(T.nxt[b] + 2), T.Cur(T.prv[b] + 1), Imm(L.start + T.used)) else m1
    requires TwoSet(m2, m3, L.start + T.used + 2, At(m, b + 2), At(m1, b + 3))
    requires Copied(m3, m4, L.start + T.used + 2, b + 2, k)
    requires L.start + T.used <= x < L.start + T.used + 4 + k
    ensures var to := L.start + T.used;
            At(m4, x) == if x - to + b == what then Ptr(RefPtr, to) else At(m, x - to + b)
  {
  }

  /** What moving an array writes outside the array and its copy. */
  lemma ArrayAround(L: Layout, T: Trail, m: seq<Word>, m1: seq<Word>, m2: seq<Word>, m3: seq<Word>, m4: seq<Word>,
                   b: int, what: int, k: nat, x: int)
    requires Places(L, T, m, b, b, what) && Footprint(L.Was(b)) == 4 + k && ArrayLinked(L, T, m, b)
    requires Begun(m, m1, b, L.start + T.used, what, RefPtr)
    requires m2 == if b in T.nxt then Both(m1, T.Cur(T.nxt[b] + 2), T.Cur(T.prv[b] + 1), Imm(L.start + T.used)) else m1
    requires TwoSet(m2, m3, L.start + T.used + 2, At(m, b + 2), At(m1, b + 3))
    requires Copied(m3, m4, L.start + T.used + 2, b + 2, k)
    requires !(L.start + T.used <= x < L.start + T.used + 4 + k)
    ensures At(m4, x) == At(m2, x) && |m4| == |m|
    ensures x != b && x != b + 1 && x != what && !Neighbour(T, b, x) ==> At(m4, x) == At(m, x)
  {
  }

  lemma ArrayMoved(L: Layout, T: Trail, m: seq<Word>, m1: seq<Word>, m2: seq<Word>, m3: seq<Word>, m4: seq<Word>,
                   b: int, what: int, k: nat)
    requires Places(L, T, m, b, b, what) && Footprint(L.Was(b)) == 4 + k && ArrayLinked(L, T, m, b)
    requires Begun(m, m1, b, L.start + T.used, what, RefPtr)
    requires m2 == if b in T.nxt then Both(m1, T.Cur(T.nxt[b] + 2), T.Cur(T.prv[b] + 1), Imm(L.start + T.used)) else m1
    requires TwoSet(m2, m3, L.start + T.used + 2, At(m, b + 2), At(m1, b + 3))
    requires Copied(m3, m4, L.start + T.used + 2, b + 2, k)
    ensures Moved(L, T, m, m4, b, b, what, RefPtr)
  {
    hide Copied, TwoSet;
    var to := L.start + T.used;
    ArrayAround(L, T, m, m1, m2, m3, m4, b, what, k, b);
    ArrayAround(L, T, m, m1, m2, m3, m4, b, what, k, b + 1);
    ArrayAround(L, T, m, m1, m2, m3, m4, b, what, k, what);
    if b in T.nxt {
      ArrayAround(L, T, m, m1, m2, m3, m4, b, what, k, T.Cur(T.nxt[b] + 2));
      ArrayAround(L, T, m, m1, m2, m3, m4, b, what, k, T.Cur(T.prv[b] + 1));
    }
    forall x {:trigger At(m4, x)} | to <= x < to + 4 + k
      ensures At(m4, x) == if x - to + b == what then Ptr(RefPtr, to) else At(m, x - to + b)
    {
      ArrayArrived(L, T, m, m1, m2, m3, m4, b, what, k, x);
    }
    forall x {:trigger At(m4, x)} | x != b && x != b + 1 && x != what && !(to <= x < to + 4 + k) && !Neighbour(T, b, x)
      ensures At(m4, x) == At(m, x)
    {
      ArrayAround(L, T, m, m1, m2, m3, m4, b, what, k, x);
    }
  }

  lemma NodeLinkPlace(L: Layout, T: Trail, m: seq<Word>, b: int, q: int, i: int)
    requires L.ObjectsOk() && L.SpacesOk() && FwdOk(L, T) && |m| == |L.m0| && Node(L, q) && (i == 1 || i == 2)
    requires Evacuable(L, T, b) && q != b
    ensures T.Cur(q + i) == T.Cur(q) + i && 0 < T.Cur(q) && LinkApart(L, T, m, b, T.Cur(q + i))
  {
    RoomFor(L, T, b);
    if q in L.heads {
      HeadWords(L, T, q, 0);
      HeadWords(L, T, q, i);
      assert L.HeadWord(q, q) && L.HeadWord(q, q + i);
      if b <= q + i < b + Footprint(L.Was(b)) {
        ObjectWords(L, T, b, q + i);
      }
    } else {
      ArrayLinks(L, T, q, i);
      ArrayCur(L, T, q);
      if b <= T.Cur(q + i) < b + Footprint(L.Was(b)) {
        ObjectWords(L, T, b, T.Cur(q + i));
      }
    }
  }

  lemma ArrayCur(L: Layout, T: Trail, q: int)
    requires L.ObjectsOk() && L.SpacesOk() && FwdOk(L, T) && L.Base(q)
    ensures 0 < T.Cur(q)
  {
  }

  lemma ArrayLinkedOk(L: Layout, T: Trail, m: seq<Word>, b: int)
    requires L.ObjectsOk() && L.SpacesOk() && FwdOk(L, T) && ThreadsOk(L, T, m) && |m| == |L.m0|
    requires Evacuable(L, T, b) && IsArray(L.Was(b))
    ensures ArrayLinked(L, T, m, b)
  {
    hide L.ObjectsOk, L.SpacesOk, InverseOk, WholeOk, RingsOk, Node, LinkApart;
    ArrayLinks(L, T, b, 1);
    ArrayLinks(L, T, b, 2);
    if b in T.nxt {
      RingStep(L, T, b);
      NotHead(L, b);
      NodeLinkPlace(L, T, m, b, T.nxt[b], 2);
      NodeLinkPlace(L, T, m, b, T.prv[b], 1);
    }
  }

  // ---- What fixup reads ----

  /** The from-space reference in a cell is the one it held at the start, to a legal target. */
  lemma ReadCell(L: Layout, T: Trail, m: seq<Word>, c: int, what: int)
    requires Inv(L, T, m) && Spot(L, T, c, what)
    requires At(m, what).Ptr?
    requires var t := L.Type(At(m, what).addr); t == From || t == MlStatic
    ensures At(m, what) == L.Was(c) && L.Target(L.Was(c).tag, L.Was(c).addr)
  {
    hide L.ObjectsOk, BasesMarked, EntriesMarked, ThreadsOk, ReachOk, FrameOk;
    assert SlotRel(L, T, L.Was(c), At(m, what)) by {
      if c in L.roots {
        assert T.Cur(c) == c;
      }
    }
    CellOk(L, c);
  }

  lemma CellOk(L: Layout, c: int)
    requires L.WordsFit() && L.Cell(c)
    ensures L.ValueOk(L.Was(c))
  {
  }

  lemma CellAt(L: Layout, T: Trail, m: seq<Word>, c: int)
    requires Inv(L, T, m) && L.Cell(c)
    ensures 0 <= T.Cur(c) < |m| && T.Cur(c) !in T.fw
  {
    CellPlace(L, T, m, c);
  }

  lemma SpotAt(L: Layout, T: Trail, m: seq<Word>, c: int, what: int)
    requires Inv(L, T, m) && Spot(L, T, c, what)
    ensures 0 <= what < |m|
  {
    hide WordsOk, WeakUntouched, BasesMarked, EntriesMarked, ThreadsOk, ReachOk;
    CellPlace(L, T, m, c);
  }

  /** What the word that a reference leads to says about the object. */
  lemma HeaderCases(L: Layout, T: Trail, m: seq<Word>, tag: Tag, a: int)
    requires Core(L, T, m) && L.Target(tag, a) && L.Type(a) == From
    ensures var b := L.own[a];
            if At(m, a) == Evacuated then a in T.fw && At(m, a + 1) == Ptr(tag, T.fw[a])
            else if a == b then Evacuable(L, T, b)
            else At(m, a) == L.Was(a) && ((L.SharedEntry(b, a) && L.Was(a) == Null) || L.CodeEntry(b, a))
  {
    TargetFacts(L, tag, a);
    CopyTogether(L, T, a);
    var b := L.own[a];
    if a == b {
      if b !in T.fw {
        FreshBase(L, T, m, b);
      }
    } else if a in T.fw {
      assert EntryMark(L, T, m, a);
    } else {
      EntryWord(L, T, m, a);
    }
  }

  // ---- Following inner entries ----

  /** The header word of a code item, and the code vector it belongs to. */
  lemma CodeCases(L: Layout, T: Trail, m: seq<Word>, a: int)
    requires Core(L, T, m) && L.Target(Pointer, a) && L.Type(a) == From && a != L.own[a] && L.CodeEntry(L.own[a], a)
    requires At(m, a) != Evacuated
    ensures var b := L.own[a];
            At(m, a) == Hdr(BackPtr, 4 * (a - b)) && L.Type(b) == From &&
            if b in T.fw then
              At(m, b) == Evacuated && At(m, b + 1) == Ptr(Pointer, T.fw[b]) &&
              a in T.fw && a + 1 in T.fw && T.fw[a] == T.fw[b] + (a - b)
            else At(m, b) == L.Was(b) && Evacuable(L, T, b)
  {
    TargetFacts(L, Pointer, a);
    CopyTogether(L, T, a);
    HeaderCases(L, T, m, Pointer, a);
    if L.own[a] !in T.fw {
      FreshBase(L, T, m, L.own[a]);
    } else {
      EntryPair(L, T, a);
    }
  }

  /** The word at `x`, between the header of a shared closure and its subclosure `a`, is zero
      until the closure is copied, and from then on zero or a marker with the right forwarding. */
  ghost predicate SharedWord(L: Layout, T: Trail, m: seq<Word>, b: int, a: int, x: int) {
    && 0 < x && x + 1 < |m|
    && (x > b && b !in T.fw ==> At(m, x) == Null)
    && (x == b && b !in T.fw ==> At(m, b) == L.Was(b))
    && (b in T.fw && x == b ==> At(m, x) == Evacuated)
    && (b in T.fw && At(m, x) != Null ==>
          At(m, x) == Evacuated && At(m, x + 1) == Ptr(Pointer, T.fw[b] + (x - b)))
  }

  lemma SharedInner(L: Layout, T: Trail, m: seq<Word>, a: int, x: int)
    requires Core(L, T, m) && a in L.own && InnerEntry(L, a) && L.SharedEntry(L.own[a], a)
    requires L.own[a] < x <= a && (x - L.own[a]) % 2 == 0
    ensures SharedWord(L, T, m, L.own[a], a, x)
  {
    hide WordsOk, WeakUntouched, BasesMarked, ThreadsOk, FrameOk, ReachOk, InnerEntry;
    var b := L.own[a];
    SharedPrefix(L, b, a, x);
    TargetFacts(L, Pointer, x);
    CopyTogether(L, T, x);
    if b in T.fw {
      assert EntryMark(L, T, m, x);
    } else {
      EntryWord(L, T, m, x);
    }
    LengthKept(L, T, m);
  }

  lemma LengthKept(L: Layout, T: Trail, m: seq<Word>)
    requires Core(L, T, m)
    ensures |m| == |L.m0|
  {
  }

  lemma SharedHead(L: Layout, T: Trail, m: seq<Word>, b: int)
    requires Core(L, T, m) && L.Base(b) && L.Was(b).Hdr? && L.Was(b).kind == Record
    ensures SharedWord(L, T, m, b, b, b)
  {
    hide WordsOk, WeakUntouched, EntriesMarked, ThreadsOk, FrameOk, ReachOk;
    LengthKept(L, T, m);
    assert L.Within(b, b) && L.Within(b, b + 1);
    if b !in T.fw {
      FreshBase(L, T, m, b);
    } else {
      BaseTag(L, b);
    }
  }

  lemma BaseTag(L: Layout, b: int)
    requires L.ObjectsOk() && L.Base(b) && L.Was(b).Hdr? && L.Was(b).kind == Record
    ensures b in L.tag && L.tag[b] == Pointer
  {
  }

  lemma SharedCases(L: Layout, T: Trail, m: seq<Word>, a: int, x: int)
    requires Core(L, T, m) && L.Target(Pointer, a) && L.Type(a) == From && a != L.own[a] && L.SharedEntry(L.own[a], a)
    requires L.own[a] <= x <= a && (x - L.own[a]) % 2 == 0
    ensures SharedWord(L, T, m, L.own[a], a, x)
  {
    if x == L.own[a] {
      TargetFacts(L, Pointer, a);
      SharedHead(L, T, m, x);
    } else {
      SharedInner(L, T, m, a, x);
    }
  }

  /** On the way back from a subclosure there are words, and the first one of the closure is not zero. */
  lemma SharedPlace(L: Layout, T: Trail, m: seq<Word>, a: int, x: int)
    requires Core(L, T, m) && L.Target(Pointer, a) && L.Type(a) == From && a != L.own[a] && L.SharedEntry(L.own[a], a)
    requires L.own[a] <= x <= a && (x - L.own[a]) % 2 == 0
    ensures SharedWord(L, T, m, L.own[a], a, x) && 0 < x && x + 1 < |m| && (x == L.own[a] ==> At(m, x) != Null)
  {
    hide L.ObjectsOk, L.SpacesOk, L.WordsFit, InverseOk, WholeOk, WordsOk, BasesMarked, EntriesMarked, ThreadsOk,
      FrameOk, ReachOk, RingsOk, InnerEntry;
    SharedCases(L, T, m, a, x);
  }

  // ---- What fixing one cell achieves ----

  /** What a word becomes when it is fixed. */
  ghost predicate IsFixed(L: Layout, T: Trail, v: Word, w: Word) {
    if v.Ptr? && L.Type(v.addr) == From then v.addr in T.fw && w == Ptr(v.tag, T.fw[v.addr]) else w == v
  }

  /** No object but the one that `v` refers to was copied. */
  ghost predicate OnlyMoves(L: Layout, T: Trail, T1: Trail, v: Word) {
    forall a :: a in T1.fw && a !in T.fw ==> v.Ptr? && v.addr in L.own && a in L.own && L.own[a] == L.own[v.addr]
  }

  /** One of the cells `D` referred to the from-space object at `b` when the collection started. */
  ghost predicate LedTo(L: Layout, D: set<int>, b: int) {
    exists c :: c in D && L.PointsTo(c, b)
  }

  /** From `T` to `T1` only objects were copied to which one of the cells `D` leads. */
  ghost predicate Brought(L: Layout, T: Trail, T1: Trail, D: set<int>) {
    forall b {:trigger b in T1.fw} :: b in T1.fw && b !in T.fw && L.Base(b) ==> LedTo(L, D, b)
  }

  lemma BroughtNone(L: Layout, T: Trail, T1: Trail, D: set<int>)
    requires T1.fw == T.fw
    ensures Brought(L, T, T1, D)
  {
  }

  lemma BroughtMore(L: Layout, T: Trail, T1: Trail, D: set<int>, E: set<int>)
    requires Brought(L, T, T1, D) && D <= E
    ensures Brought(L, T, T1, E)
  {
    forall b {:trigger b in T1.fw} | b in T1.fw && b !in T.fw && L.Base(b) ensures LedTo(L, E, b) {
      assert LedTo(L, D, b);
    }
  }

  lemma BroughtTrans(L: Layout, T: Trail, T1: Trail, T2: Trail, D: set<int>, E: set<int>)
    requires Brought(L, T, T1, D) && Brought(L, T1, T2, E)
    ensures Brought(L, T, T2, D + E)
  {
    BroughtMore(L, T, T1, D, D + E);
    BroughtMore(L, T1, T2, E, D + E);
    hide LedTo;
  }

  ghost predicate SameRings(T: Trail, T1: Trail) {
    T1.nxt == T.nxt && T1.prv == T.prv && T1.rank == T.rank
  }

  /** Fixing the word at `what`, which is the cell `c`, took trail and memory from `T`, `m` to `T1`, `m1`: the
      invariant holds, the word refers to the same word of the copied object, and so does the cell if that was its
      present place; every other original word is kept, and so is the order of the arrays on the entry lists. */
  ghost predicate FixedCell(L: Layout, T: Trail, T1: Trail, m: seq<Word>, m1: seq<Word>, c: int, what: int) {
    && Inv(L, T1, m1) && Grows(T, T1) && SameRings(T, T1) && OnlyMoves(L, T, T1, At(m, what))
    && IsFixed(L, T1, At(m, what), At(m1, what))
    && (what == T.Cur(c) ==> IsFixed(L, T1, At(m, what), At(m1, T1.Cur(c))))
    && (forall d {:trigger Kept(L, d)} :: Kept(L, d) && (d != c || what != T.Cur(c)) ==>
          At(m1, T1.Cur(d)) == At(m, T.Cur(d)))
  }

  lemma KeptCells(L: Layout, d: int)
    requires Kept(L, d)
    ensures d in L.own || d in L.roots
  {
  }

  /** The reference in `c` leads to a copied object and was replaced by the forwarded one. */
  lemma ForwardFixes(L: Layout, T: Trail, m: seq<Word>, m1: seq<Word>, c: int, what: int)
    requires Inv(L, T, m) && Spot(L, T, c, what) && At(m, what) == L.Was(c) && L.Was(c).Ptr?
    requires L.Type(L.Was(c).addr) == From && L.Was(c).addr in T.fw
    requires Differ(m, m1, what, what) && At(m1, what) == Ptr(L.Was(c).tag, T.fw[L.Was(c).addr])
    ensures FixedCell(L, T, T, m, m1, c, what)
  {
    hide L.ObjectsOk, L.SpacesOk, L.WordsFit, InverseOk, WholeOk, Inv, Core, Kept;
    forall d | Kept(L, d) ensures d in L.own || d in L.roots {
      KeptCells(L, d);
    }
    if what == T.Cur(c) {
      PokeInv(L, T, m, m1, c);
    } else {
      OldPokeInv(L, T, m, m1, c);
    }
  }

  lemma MarkFixes(L: Layout, T: Trail, m: seq<Word>, m1: seq<Word>, m2: seq<Word>, c: int, what: int)
    requires Inv(L, T, m) && Spot(L, T, c, what) && At(m, what) == L.Was(c) && L.Was(c).Ptr?
    requires var a := L.Was(c).addr;
             && L.Type(a) == From && a in T.fw && InnerEntry(L, a) && L.Was(c).tag == Pointer
             && Differ(m, m1, a, a + 1) && At(m1, a) == Evacuated && At(m1, a + 1) == Ptr(Pointer, T.fw[a])
             && Differ(m1, m2, what, what) && At(m2, what) == Ptr(Pointer, T.fw[a]) && what != a && what != a + 1
    ensures FixedCell(L, T, T, m, m2, c, what)
  {
    hide L.ObjectsOk, L.SpacesOk, L.WordsFit, Inv, Core, InnerEntry, Spot, Kept, InverseOk, WholeOk;
    var a := L.Was(c).addr;
    InvParts(L, T, m);
    EntryPair(L, T, a);
    MarkInv(L, T, m, m1, a);
    MarkKeeps(L, T, m, m1, a);
    ForwardFixes(L, T, m1, m2, c, what);
    forall d | Kept(L, d) ensures d in L.own || d in L.roots {
      KeptCells(L, d);
    }
  }

  /** The entry that is marked is not the cell that is fixed. */
  lemma SpotNoEntry(L: Layout, T: Trail, m: seq<Word>, c: int, what: int, a: int)
    requires Inv(L, T, m) && Spot(L, T, c, what) && InnerEntry(L, a) && a in T.fw && a + 1 in T.fw
    ensures what != a && what != a + 1
  {
    hide WordsOk, WeakUntouched, BasesMarked, EntriesMarked, ThreadsOk, ReachOk;
    CellPlace(L, T, m, c);
  }

  lemma MoveFixes(L: Layout, T: Trail, m: seq<Word>, m1: seq<Word>, c: int, what: int)
    requires Inv(L, T, m) && Spot(L, T, c, what) && Source(L, T, c) && L.Was(c).Ptr?
    requires L.Type(L.Was(c).addr) == From
    requires L.Target(L.Was(c).tag, L.Was(c).addr) && At(m, what) == L.Was(c)
    requires Evacuable(L, T, L.own[L.Was(c).addr])
    requires Moved(L, T, m, m1, L.own[L.Was(c).addr], L.Was(c).addr, what, L.Was(c).tag)
    ensures var b := L.own[L.Was(c).addr];
            var T1 := Extend(L, T, b, Footprint(L.Was(b)));
            FixedCell(L, T, T1, m, m1, c, what) && T1.used == T.used + Footprint(L.Was(b))
  {
    hide L.ObjectsOk, L.SpacesOk, InverseOk, WholeOk, ReachOk, Inv, Core, Moved, Extend, Evacuates, Source, Places,
      L.WordsFit, RingsOk, Spot;
    InvParts(L, T, m);
    var a := L.Was(c).addr;
    var b := L.own[a];
    var T1 := Extend(L, T, b, Footprint(L.Was(b)));
    SpotCell(L, T, c, what);
    SourceReaches(L, T, c);
    if what != T.Cur(c) {
      MovedOld(L, T, T1, m, m1, b, a, c);
    } else if c in L.own && L.own[c] == b {
      OwnTarget(L, T, m, c);
      MovedOwn(L, T, T1, m, m1, b, c);
    } else {
      MovedApart(L, T, T1, m, m1, b, a, c);
      MovedTo(L, T, m, m1, b, a, what, L.Was(c).tag);
      MovedCell(L, T, T1, b, c);
    }
    InvParts(L, T1, m1);
    ExtendsGrows(L, T, T1, b);
    FwImage(L, T1, a);
  }

  /** A cell that refers to the object it is in, which was not copied yet, is an element of an array that
      refers to the array. */
  lemma OwnTarget(L: Layout, T: Trail, m: seq<Word>, c: int)
    requires L.ObjectsOk() && L.SpacesOk() && FwdOk(L, T) && L.Cell(c) && InPlace(L, T, c) && L.Was(c).Ptr?
    requires L.Type(L.Was(c).addr) == From && L.Target(L.Was(c).tag, L.Was(c).addr)
    requires c in L.own && L.own[c] == L.own[L.Was(c).addr] && L.own[c] !in T.fw
    ensures L.Was(c) == Ptr(RefPtr, L.own[c]) && T.Cur(c) == c && c !in T.fw && IsArray(L.Was(L.own[c]))
  {
    SameSpace(L, c);
    SameSpace(L, L.Was(c).addr);
    CopyTogether(L, T, c);
    TargetFacts(L, L.Was(c).tag, L.Was(c).addr);
  }

  lemma ExtendsGrows(L: Layout, T: Trail, T1: Trail, b: int)
    requires L.ObjectsOk() && L.SpacesOk() && FwdOk(L, T) && Evacuable(L, T, b)
    requires Extends(L, T, T1, b, Footprint(L.Was(b)))
    ensures Grows(T, T1)
    ensures forall a :: a in T1.fw && a !in T.fw ==> a in L.own && L.own[a] == b
  {
    forall a | a in T1.fw && a !in T.fw ensures a in L.own && L.own[a] == b {
      ObjectWords(L, T, b, a);
    }
    forall a | a in T.fw ensures a in T1.fw && T1.fw[a] == T.fw[a] {
      if b <= a < b + Footprint(L.Was(b)) {
        ObjectWords(L, T, b, a);
      }
    }
  }

  lemma FwImage(L: Layout, T: Trail, a: int)
    requires L.SpacesOk() && InverseOk(L, T) && a in T.fw
    ensures L.Type(T.fw[a]) == MlHeap
  {
  }

  lemma MovePlaces(L: Layout, T: Trail, m: seq<Word>, c: int, what: int)
    requires Inv(L, T, m) && Spot(L, T, c, what) && L.Was(c).Ptr? && L.Target(L.Was(c).tag, L.Was(c).addr)
    requires Evacuable(L, T, L.own[L.Was(c).addr])
    ensures Places(L, T, m, L.own[L.Was(c).addr], L.Was(c).addr, what)
  {
    hide L.ObjectsOk, L.SpacesOk, L.WordsFit, WordsOk, WeakUntouched, BasesMarked, EntriesMarked, ReachOk, InverseOk,
      WholeOk, RingsOk, Spot;
    PlacesOk(L, T, m, L.own[L.Was(c).addr], L.Was(c).addr, c, what);
  }

  /** Whether the shared closure of `a` was copied already. */
  lemma SharedFate(L: Layout, T: Trail, m: seq<Word>, a: int)
    requires Core(L, T, m) && L.Target(Pointer, a) && L.Type(a) == From && a != L.own[a] && L.SharedEntry(L.own[a], a)
    ensures var b := L.own[a];
            if b in T.fw then a in T.fw && a + 1 in T.fw && T.fw[a] == T.fw[b] + (a - b) else Evacuable(L, T, b)
  {
    TargetFacts(L, Pointer, a);
    CopyTogether(L, T, a);
    SameSpace(L, a);
    if a in T.fw {
      EntryPair(L, T, a);
    }
  }

  /** How the word that a reference leads to, and the reference's tag, tell the kind of the object. */
  ghost predicate PlainHeader(L: Layout, w: Word, b: int) {
    && w.Hdr? && w == L.Was(b) && !IsArray(w)
    && Footprint(w) == 2 + (if w.kind == Text || w.kind == ByteArray then WLength(w.len) else w.len) / 2 * 2
  }

  lemma KindCases(L: Layout, T: Trail, m: seq<Word>, tag: Tag, a: int)
    requires Core(L, T, m) && L.Target(tag, a) && L.Type(a) == From && At(m, a) != Evacuated
    ensures tag == PairPtr || tag == Pointer || tag == RefPtr
    ensures tag == PairPtr ==> a == L.own[a] && Footprint(L.Was(a)) == 2 && !IsArray(L.Was(a))
    ensures tag == Pointer && At(m, a) == Null ==> a != L.own[a] && L.SharedEntry(L.own[a], a)
    ensures tag == Pointer && At(m, a) != Null ==> At(m, a).Hdr?
    ensures tag == Pointer && At(m, a).Hdr? && At(m, a).kind == BackPtr ==> a != L.own[a] && L.CodeEntry(L.own[a], a)
    ensures tag == Pointer && At(m, a).Hdr? && At(m, a).kind != BackPtr ==> a == L.own[a] && PlainHeader(L, At(m, a), a)
    ensures tag == RefPtr ==> a == L.own[a] && At(m, a).Hdr? && At(m, a) == L.Was(a)
    ensures tag == RefPtr && At(m, a).kind == ByteArray ==> PlainHeader(L, At(m, a), a)
    ensures tag == RefPtr && At(m, a).kind != ByteArray ==>
            IsArray(L.Was(a)) && Footprint(L.Was(a)) == 4 + At(m, a).len / 2 * 2
    ensures a == L.own[a] ==> Evacuable(L, T, a)
  {
    hide WordsOk, WeakUntouched, BasesMarked, EntriesMarked, ThreadsOk, ReachOk, FrameOk;
    HeaderCases(L, T, m, tag, a);
    TargetFacts(L, tag, a);
    if a == L.own[a] {
      BaseKind(L, T, m, a);
    }
  }

  lemma BaseKind(L: Layout, T: Trail, m: seq<Word>, b: int)
    requires Core(L, T, m) && L.Base(b) && b !in T.fw
    ensures L.Was(b).Hdr? ==> At(m, b) == L.Was(b)
    ensures !L.Was(b).Hdr? ==> !At(m, b).Hdr?
  {
    FreshBase(L, T, m, b);
  }

  /** A fixed cell refers neither to from-space nor, if it did refer to from-space, to a static object. */
  lemma FixedWord(L: Layout, T: Trail, T0: Trail, m: seq<Word>, m0: seq<Word>, c: int, what: int)
    requires FixedCell(L, T0, T, m0, m, c, what)
    ensures Inv(L, T, m)
    ensures var v := At(m0, what);
            v.Ptr? && L.Type(v.addr) == From ==>
              && At(m, what).Ptr? && L.Type(At(m, what).addr) == MlHeap
              && (what == T0.Cur(c) ==> At(m, T.Cur(c)) == At(m, what))
  {
    var v := At(m0, what);
    if v.Ptr? && L.Type(v.addr) == From {
      FwImage(L, T, v.addr);
    }
  }

  /** Fixing a cell brings at most the object that the cell leads to. */
  lemma BroughtByFix(L: Layout, T: Trail, T1: Trail, m: seq<Word>, c: int, what: int)
    requires Inv(L, T, m) && Spot(L, T, c, what) && OnlyMoves(L, T, T1, At(m, what)) && FwdOk(L, T1)
    ensures Brought(L, T, T1, {c})
  {
    hide Inv, Core, L.ObjectsOk, L.SpacesOk, InverseOk, Spot;
    InvParts(L, T, m);
    var v := At(m, what);
    forall b {:trigger b in T1.fw} | b in T1.fw && b !in T.fw && L.Base(b) ensures LedTo(L, {c}, b) {
      SameSpace(L, v.addr);
      ReadCell(L, T, m, c, what);
      assert L.PointsTo(c, b);
    }
  }

  /** Fixing a cell that does not refer to from-space changes nothing. */
  lemma NothingToFix(L: Layout, T: Trail, m: seq<Word>, c: int, what: int)
    requires Inv(L, T, m) && (At(m, what).Ptr? ==> L.Type(At(m, what).addr) != From)
    ensures FixedCell(L, T, T, m, m, c, what)
  {
  }

  /** Static objects do not move; the words by which fixup finds their start are as they were. */
  lemma StaticHead(L: Layout, T: Trail, m: seq<Word>, b: int)
    requires Core(L, T, m) && L.Base(b) && L.Type(b) == MlStatic && b in L.tag && L.tag[b] == Pointer
    ensures 0 < b < |m| && At(m, b).Hdr? && At(m, b).kind != BackPtr
  {
    hide WordsOk, WeakUntouched, BasesMarked, EntriesMarked, ThreadsOk, ReachOk;
    LengthKept(L, T, m);
    assert L.Within(b, b);
    StaticStays(L, T, b);
    FreshBase(L, T, m, b);
    BaseHeader(L, b);
  }

  lemma BaseHeader(L: Layout, b: int)
    requires L.ObjectsOk() && L.Base(b) && b in L.tag && L.tag[b] == Pointer
    ensures L.Was(b).Hdr? && L.Was(b).kind != BackPtr
  {
  }

  lemma StaticInner(L: Layout, T: Trail, m: seq<Word>, a: int)
    requires Core(L, T, m) && InnerEntry(L, a) && L.Type(a) == MlStatic
    ensures 0 < a < |m| && At(m, a) == L.Was(a)
  {
    hide WordsOk, WeakUntouched, BasesMarked, EntriesMarked, ThreadsOk, ReachOk, InnerEntry;
    LengthKept(L, T, m);
    InnerOwned(L, a);
    SameSpace(L, a);
    StaticStays(L, T, a);
    EntryWord(L, T, m, a);
  }

  lemma SameSpace(L: Layout, a: int)
    requires L.SpacesOk() && a in L.own
    ensures L.Type(a) == L.Type(L.own[a])
  {
  }

  /** The subclosures on the way back from the static shared subclosure `a`. */
  lemma StaticShared(L: Layout, T: Trail, m: seq<Word>, a: int, x: int)
    requires Core(L, T, m) && a in L.own && InnerEntry(L, a) && L.Type(a) == MlStatic && L.SharedEntry(L.own[a], a)
    requires L.own[a] < x <= a && (x - L.own[a]) % 2 == 0
    ensures 0 < x < |m| && At(m, x) == Null
  {
    hide WordsOk, WeakUntouched, BasesMarked, EntriesMarked, ThreadsOk, ReachOk, InnerEntry, FrameOk;
    SharedPrefix(L, L.own[a], a, x);
    InnerOwned(L, x);
    SameSpace(L, a);
    SameSpace(L, x);
    StaticInner(L, T, m, x);
  }

  lemma InnerOwned(L: Layout, x: int)
    requires L.ObjectsOk() && InnerEntry(L, x)
    ensures x in L.own && 0 < x < |L.m0|
  {
    assert L.Within(L.own[x], x);
  }

  lemma StaticStays(L: Layout, T: Trail, a: int)
    requires L.ObjectsOk() && L.SpacesOk() && FwdOk(L, T) && a in L.own && L.Type(L.own[a]) == MlStatic
    ensures a !in T.fw && T.Cur(a) == a && L.own[a] !in T.fw
  {
  }
}
