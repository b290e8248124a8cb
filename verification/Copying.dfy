/** What is true of the memory at every moment of a collection, and why evacuating
    an object, marking one of its entries and fixing a cell keep it true. */
module Copying {
  import opened Heap

  /** How far the copying has come: `used` words of to-space are filled. `fw` sends each word
      of a copied object to its copy and `bk` is its inverse. `nxt` and `prv` give the order of
      the arrays on the entry lists, in terms of where the arrays were when the collection
      started; `rank` grows along a list, so that every ring runs through its head. */
  datatype Trail = Trail(
    used: nat, fw: map<int, int>, bk: map<int, int>, nxt: map<int, int>, prv: map<int, int>, rank: map<int, int>)
  {
    /** Where the word that started at `a` is now. */
    function Cur(a: int): int {
      if a in fw then fw[a] else a
    }
  }

  /** `fw` and `bk` are inverse to each other and `bk` covers the used part of to-space. */
  ghost predicate InverseOk(L: Layout, T: Trail) {
    && T.used % 2 == 0 && T.used <= L.limit - L.start
    && (forall x :: x in T.bk <==> L.start <= x < L.start + T.used)
    && (forall x :: x in T.bk ==> T.bk[x] in T.fw && T.fw[T.bk[x]] == x)
    && (forall a :: a in T.fw ==> T.fw[a] in T.bk && T.bk[T.fw[a]] == a)
  }

  /** Objects are copied as a whole, from from-space, to even addresses. */
  ghost predicate WholeOk(L: Layout, T: Trail) {
    && (forall a :: a in T.fw ==> a in L.own && L.Type(a) == From)
    && (forall a :: a in L.own ==> (a in T.fw <==> L.own[a] in T.fw))
    && (forall a :: a in T.fw && a in L.own && L.own[a] in T.fw ==> T.fw[a] - a == T.fw[L.own[a]] - L.own[a])
    && (forall b :: b in T.fw && L.Base(b) ==> T.fw[b] % 2 == 0)
  }

  ghost predicate FwdOk(L: Layout, T: Trail) {
    InverseOk(L, T) && WholeOk(L, T)
  }

  /** `w` is `w0`, or `w0` was a pointer to a copied object and `w` is that pointer fixed. */
  ghost predicate SlotRel(L: Layout, T: Trail, w0: Word, w: Word) {
    w == w0 || (w0.Ptr? && L.Type(w0.addr) == From && w0.addr in T.fw && w == Ptr(w0.tag, T.fw[w0.addr]))
  }

  /** Every original word is, at its present place, what it was, up to fixing and relinking. */
  ghost predicate WordsOk(L: Layout, T: Trail, m: seq<Word>) {
    && (forall a :: a in L.own && L.Role(a) == Slot ==> SlotRel(L, T, L.Was(a), At(m, T.Cur(a))))
    && (forall a :: a in L.own && L.Role(a) == Link ==> At(m, T.Cur(a)).Imm?)
    && (forall a :: a in L.own && (L.Role(a) == Head || L.Role(a) == Raw || L.Role(a) == Pad) ==>
          At(m, T.Cur(a)) == L.Was(a))
    && (forall a :: a in L.roots ==> SlotRel(L, T, L.Was(a), At(m, a)))
  }

  ghost predicate WeakUntouched(L: Layout, T: Trail, m: seq<Word>) {
    forall a :: a in L.own && L.Role(a) == WeakSlot ==> At(m, T.Cur(a)) == L.Was(a)
  }

  /** A place inside an object to which a pointer may lead. */
  ghost predicate InnerEntry(L: Layout, a: int) {
    a in L.own && L.own[a] != a && L.Target(Pointer, a)
  }

  /** A copied object is marked at its first word. */
  ghost predicate BasesMarked(L: Layout, T: Trail, m: seq<Word>) {
    forall b :: b in T.fw && L.Base(b) ==>
      b in L.tag && At(m, b) == Evacuated && At(m, b + 1) == Ptr(L.tag[b], T.fw[b])
  }

  ghost predicate EntryMark(L: Layout, T: Trail, m: seq<Word>, a: int)
    requires a in T.fw
  {
    At(m, a) == L.Was(a) || (At(m, a) == Evacuated && At(m, a + 1) == Ptr(Pointer, T.fw[a]))
  }

  /** The inner entries of a copied object are marked or untouched. */
  ghost predicate EntriesMarked(L: Layout, T: Trail, m: seq<Word>) {
    forall a :: a in T.fw && InnerEntry(L, a) ==> EntryMark(L, T, m, a)
  }

  /** A node of an entry list, or an array that could become one. */
  ghost predicate Node(L: Layout, n: int) {
    n in L.heads || (L.Base(n) && IsArray(L.Was(n)))
  }

  ghost predicate Listed(T: Trail, n: int) {
    n in T.nxt
  }

  ghost predicate RankOk(L: Layout, T: Trail, n: int)
    requires n in T.nxt
  {
    n !in L.heads ==>
      n in T.rank && (T.nxt[n] in L.heads || (T.nxt[n] in T.rank && T.rank[n] < T.rank[T.nxt[n]]))
  }

  /** `nxt` and `prv` describe disjoint rings through the list heads and the arrays on lists. */
  ghost predicate RingsOk(L: Layout, T: Trail) {
    && (forall e :: e in L.heads ==> e in T.nxt)
    && (forall n {:trigger Listed(T, n)} :: Listed(T, n) ==>
          Node(L, n) && n in T.prv && T.nxt[n] in T.nxt && T.nxt[n] in T.prv && T.prv[n] in T.nxt &&
          T.prv[T.nxt[n]] == n && T.nxt[T.prv[n]] == n && RankOk(L, T, n))
  }

  lemma RingStep(L: Layout, T: Trail, n: int)
    requires RingsOk(L, T) && n in T.nxt
    ensures n in T.prv && T.nxt[n] in T.nxt && T.nxt[n] in T.prv && T.prv[n] in T.nxt
    ensures T.prv[T.nxt[n]] == n && T.nxt[T.prv[n]] == n
    ensures Node(L, n) && Node(L, T.nxt[n]) && Node(L, T.prv[n])
    ensures (T.nxt[n] == n || T.prv[n] == n) ==> n in L.heads
    ensures RankOk(L, T, n)
  {
    assert Listed(T, n);
    assert Listed(T, T.nxt[n]) && Listed(T, T.prv[n]);
  }

  /** The array `b` is on no list: its back link is null and its forward link is not. */
  ghost predicate Unlisted(T: Trail, m: seq<Word>, b: int) {
    At(m, T.Cur(b + 1)) != Null && At(m, T.Cur(b + 2)) == Null
  }

  /** The link words of memory thread the arrays, wherever they are now, in ring order. */
  ghost predicate ThreadsOk(L: Layout, T: Trail, m: seq<Word>) {
    && RingsOk(L, T)
    && (forall n :: n in T.nxt ==> At(m, T.Cur(n + 1)) == Imm(T.Cur(T.nxt[n])))
    && (forall n :: n in T.nxt && n in T.prv ==> At(m, T.Cur(n + 2)) == Imm(T.Cur(T.prv[n])))
    && (forall b :: L.Base(b) && IsArray(L.Was(b)) && b !in T.nxt ==> Unlisted(T, m, b))
  }

  ghost predicate InHead(L: Layout, x: int) {
    x - 1 in L.heads || x - 2 in L.heads
  }

  /** Nothing outside the heap, the roots and the list heads changes. */
  ghost predicate FrameOk(L: Layout, m: seq<Word>) {
    && |m| == |L.m0|
    && (forall x :: x !in L.own && x !in L.roots && !InHead(L, x) && !(L.start <= x < L.limit) ==>
          At(m, x) == L.Was(x))
  }

  /** Only reachable objects are copied. */
  ghost predicate ReachOk(L: Layout, T: Trail) {
    forall b :: b in T.fw && L.Base(b) ==> L.Reachable(b)
  }

  /** The invariant of a collection, but for weak slots. */
  ghost predicate Core(L: Layout, T: Trail, m: seq<Word>) {
    L.WellFormed() && FwdOk(L, T) && WordsOk(L, T, m) &&
    BasesMarked(L, T, m) && EntriesMarked(L, T, m) && ThreadsOk(L, T, m) && FrameOk(L, m) && ReachOk(L, T)
  }

  /** The old place of an element of an array that has been copied. */
  ghost predicate OldElement(L: Layout, T: Trail, x: int) {
    x in T.fw && x in L.own && L.Role(x) == Slot && IsArray(L.Was(L.own[x]))
  }

  /** The old elements of copied arrays are what they were, up to fixing. */
  ghost predicate OldElementsOk(L: Layout, T: Trail, m: seq<Word>) {
    forall x {:trigger OldElement(L, T, x)} :: OldElement(L, T, x) ==> SlotRel(L, T, L.Was(x), At(m, x))
  }

  /** The invariant of a collection; weak slots are left alone until all copying is done. */
  ghost predicate Inv(L: Layout, T: Trail, m: seq<Word>) {
    Core(L, T, m) && WeakUntouched(L, T, m) && OldElementsOk(L, T, m)
  }

  // ---- Room in to-space ----

  /** Distinct integers from [lo, hi) number at most hi - lo. */
  lemma {:induction false} DistinctBound(s: seq<int>, lo: int, hi: int)
    requires lo <= hi
    requires forall i :: 0 <= i < |s| ==> lo <= s[i] < hi
    requires forall i, j :: 0 <= i < j < |s| ==> s[i] != s[j]
    ensures |s| <= hi - lo
    decreases hi - lo
  {
    if s != [] {
      assert lo <= s[0] < hi;
      if i :| 0 <= i < |s| && s[i] == hi - 1 {
        var t := s[..i] + s[i + 1..];
        forall j | 0 <= j < |t| ensures lo <= t[j] < hi - 1 {
          assert t[j] == if j < i then s[j] else s[j + 1];
        }
        DistinctBound(t, lo, hi - 1);
      } else {
        DistinctBound(s, lo, hi - 1);
      }
    }
  }

  function Range(b: int, n: nat): (r: seq<int>)
    ensures |r| == n && forall i :: 0 <= i < n ==> r[i] == b + i
  {
    seq(n, i => b + i)
  }

  ghost predicate Evacuable(L: Layout, T: Trail, b: int) {
    L.Base(b) && L.Type(b) == From && b !in T.fw && b in L.tag
  }

  lemma ObjectWords(L: Layout, T: Trail, b: int, x: int)
    requires L.ObjectsOk() && L.SpacesOk() && FwdOk(L, T) && Evacuable(L, T, b)
    requires b <= x < b + Footprint(L.Was(b))
    ensures x in L.own && L.own[x] == b && x !in T.fw && L.Type(x) == From && L.lo <= x < L.hi
  {
    assert L.Within(b, x);
    assert L.Type(x) == L.Type(b);
  }

  /** There is always room to copy one more from-space object. */
  lemma RoomFor(L: Layout, T: Trail, b: int)
    requires L.ObjectsOk() && L.SpacesOk() && FwdOk(L, T) && Evacuable(L, T, b)
    ensures T.used + Footprint(L.Was(b)) <= L.hi - L.lo
  {
    var n := Footprint(L.Was(b));
    var s := seq(T.used + n, i requires 0 <= i < T.used + n =>
      if i < T.used then T.bk[L.start + i] else b + (i - T.used));
    forall i | 0 <= i < |s| ensures L.lo <= s[i] < L.hi && (i < T.used <==> s[i] in T.fw) {
      if i >= T.used {
        ObjectWords(L, T, b, s[i]);
      } else {
        assert L.start + i in T.bk;
      }
    }
    forall i, j | 0 <= i < j < |s| ensures s[i] != s[j] {
      if j < T.used {
        assert L.start + i in T.bk && L.start + j in T.bk;
      }
    }
    DistinctBound(s, L.lo, L.hi);
  }

  // ---- Evacuating one object ----

  ghost function Extend(L: Layout, T: Trail, b: int, n: nat): Trail {
    var to := L.start + T.used;
    T.(used := T.used + n,
       fw := map a | a in T.fw.Keys + (set x | x in Range(b, n)) :: if b <= a < b + n then to + (a - b) else T.fw[a],
       bk := map y | y in T.bk.Keys + (set x | x in Range(to, n)) :: if to <= y < to + n then b + (y - to) else T.bk[y])
  }

  /** `T1` also forwards the `n` words from `b` on, to the end of to-space. */
  ghost predicate Extends(L: Layout, T: Trail, T1: Trail, b: int, n: nat) {
    && T1.used == T.used + n && T1.nxt == T.nxt && T1.prv == T.prv && T1.rank == T.rank
    && (forall a :: a in T1.fw <==> a in T.fw || b <= a < b + n)
    && (forall a :: a in T1.fw ==> T1.fw[a] == if b <= a < b + n then L.start + T.used + (a - b) else T.fw[a])
  }

  lemma ExtendIsExtended(L: Layout, T: Trail, b: int, n: nat)
    ensures Extends(L, T, Extend(L, T, b, n), b, n)
  {
    var T1 := Extend(L, T, b, n);
    forall a | b <= a < b + n ensures a in T1.fw {
      assert Range(b, n)[a - b] == a;
    }
  }

  /** The link words that lead to the array `b` from its two neighbours. */
  ghost predicate Neighbour(T: Trail, b: int, x: int) {
    b in T.nxt && b in T.prv && (x == T.Cur(T.nxt[b] + 2) || x == T.Cur(T.prv[b] + 1))
  }

  /** `m1` is `m` after the object at `b` was copied to the end of to-space, its first two
      words replaced by the marker and the fixed reference, and, if it is an array on an
      entry list, its neighbours linked to the copy. */
  ghost predicate Evacuates(L: Layout, T: Trail, m: seq<Word>, m1: seq<Word>, b: int)
    requires b in L.tag
  {
    var to := L.start + T.used;
    var n := Footprint(L.Was(b));
    && |m1| == |m|
    && At(m1, b) == Evacuated && At(m1, b + 1) == Ptr(L.tag[b], to)
    && (forall x {:trigger At(m1, x)} :: to <= x < to + n ==> At(m1, x) == At(m, x - to + b))
    && (b in T.nxt && b in T.prv ==> At(m1, T.Cur(T.nxt[b] + 2)) == Imm(to) && At(m1, T.Cur(T.prv[b] + 1)) == Imm(to))
    && (forall x {:trigger At(m1, x)} ::
          x != b && x != b + 1 && !(to <= x < to + n) && !Neighbour(T, b, x) ==> At(m1, x) == At(m, x))
  }

  lemma ExtendBack(L: Layout, T: Trail, b: int, n: nat, y: int)
    ensures var T1, to := Extend(L, T, b, n), L.start + T.used;
            (y in T1.bk <==> y in T.bk || to <= y < to + n) &&
            (y in T1.bk ==> T1.bk[y] == if to <= y < to + n then b + (y - to) else T.bk[y])
  {
    var to := L.start + T.used;
    if to <= y < to + n {
      assert Range(to, n)[y - to] == y;
    }
  }

  lemma ExtendInverse(L: Layout, T: Trail, T1: Trail, b: int, n: nat)
    requires T1 == Extend(L, T, b, n)
    requires InverseOk(L, T) && n % 2 == 0 && T.used + n <= L.limit - L.start
    requires forall x :: b <= x < b + n ==> x !in T.fw
    ensures InverseOk(L, T1)
  {
    hide Extend;
    ExtendIsExtended(L, T, b, n);
    forall x ensures x in T1.bk <==> L.start <= x < L.start + T1.used {
      ExtendBack(L, T, b, n, x);
    }
    forall x | x in T1.bk ensures T1.bk[x] in T1.fw && T1.fw[T1.bk[x]] == x {
      ExtendBack(L, T, b, n, x);
    }
    forall a | a in T1.fw ensures T1.fw[a] in T1.bk && T1.bk[T1.fw[a]] == a {
      ExtendBack(L, T, b, n, T1.fw[a]);
    }
  }

  lemma ExtendWhole(L: Layout, T: Trail, T1: Trail, b: int, n: nat)
    requires Extends(L, T, T1, b, n)
    requires WholeOk(L, T) && n % 2 == 0 && T.used % 2 == 0 && L.start % 2 == 0
    requires n > 0 && L.Base(b)
    requires forall x :: b <= x < b + n ==> x in L.own && L.own[x] == b && x !in T.fw && L.Type(x) == From
    requires forall x :: x in L.own && L.own[x] == b ==> b <= x < b + n
    requires forall x :: x in L.own ==> L.own[x] in L.own && L.own[L.own[x]] == L.own[x]
    ensures WholeOk(L, T1)
  {
    assert forall a :: a in T1.fw ==> a in L.own && L.Type(a) == From;
    forall a | a in L.own ensures a in T1.fw <==> L.own[a] in T1.fw {
      assert b <= a < b + n <==> L.own[a] == b;
    }
    forall a | a in T1.fw && L.Base(a) ensures T1.fw[a] % 2 == 0 {
      if a in T.fw {
      } else {
        assert a == b;
      }
    }
    forall a | a in T1.fw && a in L.own && L.own[a] in T1.fw
      ensures T1.fw[a] - a == T1.fw[L.own[a]] - L.own[a]
    {
      if b <= a < b + n {
        assert T1.fw[b] == L.start + T.used;
      } else {
        assert a in T.fw && L.own[a] in T.fw;
      }
    }
  }

  /** The object at `b` is even in size and fits into what is left of to-space. */
  lemma ObjectFits(L: Layout, T: Trail, b: int)
    requires L.ObjectsOk() && L.SpacesOk() && FwdOk(L, T) && Evacuable(L, T, b)
    ensures var n := Footprint(L.Was(b)); n > 0 && n % 2 == 0 && T.used + n <= L.limit - L.start
    ensures T.used % 2 == 0 && L.start % 2 == 0 && L.Base(b)
  {
    hide L.ObjectsOk, WholeOk;
    RoomFor(L, T, b);
  }

  lemma OwnWords(L: Layout, b: int)
    requires L.ObjectsOk()
    ensures forall x :: x in L.own && L.own[x] == b ==> b <= x < b + Footprint(L.Was(b))
    ensures forall x :: x in L.own ==> L.own[x] in L.own && L.own[L.own[x]] == L.own[x]
  {
  }

  lemma ExtendFwd(L: Layout, T: Trail, T1: Trail, b: int, n: nat)
    requires T1 == Extend(L, T, b, n)
    requires L.ObjectsOk() && L.SpacesOk() && FwdOk(L, T) && Evacuable(L, T, b) && n == Footprint(L.Was(b))
    ensures FwdOk(L, T1)
  {
    hide InverseOk, WholeOk, Evacuable, L.ObjectsOk, L.SpacesOk, Extend, Extends;
    ObjectFits(L, T, b);
    OwnWords(L, b);
    forall x | b <= x < b + n
      ensures x in L.own && L.own[x] == b && x !in T.fw && L.Type(x) == From
    {
      ObjectWords(L, T, b, x);
    }
    ExtendInverse(L, T, T1, b, n);
    ExtendIsExtended(L, T, b, n);
    ExtendWhole(L, T, T1, b, n);
  }

  /** The words of distinct original places are at distinct present places. */
  lemma CurInjective(L: Layout, T: Trail, a: int, c: int)
    requires InverseOk(L, T) && T.Cur(a) == T.Cur(c)
    requires !(L.start <= a < L.limit) && !(L.start <= c < L.limit)
    ensures a == c
  {
  }

  /** The link words of an array move with it. */
  lemma ArrayLinks(L: Layout, T: Trail, q: int, i: int)
    requires L.ObjectsOk() && FwdOk(L, T) && L.Base(q) && IsArray(L.Was(q)) && (i == 1 || i == 2)
    ensures q + i in L.own && L.own[q + i] == q && T.Cur(q + i) == T.Cur(q) + i
    ensures L.Role(q + i) == Link
  {
    assert L.Within(q, q + i);
  }

  /** The words of list heads stay where they are, apart from heap and roots. */
  lemma HeadWords(L: Layout, T: Trail, e: int, i: int)
    requires L.SpacesOk() && FwdOk(L, T) && 0 <= i <= 2 && e in L.heads
    ensures e + i !in L.own && e + i !in L.roots && !(L.start <= e + i < L.limit) && T.Cur(e + i) == e + i
  {
    assert L.HeadWord(e, e + i);
  }

  /** A link word of a node is not the present place of anything but that link word. */
  lemma NodeLink(L: Layout, T: Trail, q: int, i: int, a: int)
    requires L.ObjectsOk() && L.SpacesOk() && FwdOk(L, T) && (i == 1 || i == 2) && Node(L, q)
    requires a in L.own || a in L.roots
    requires T.Cur(a) == T.Cur(q + i)
    ensures a in L.own && L.Role(a) == Link
  {
    if q in L.heads {
      HeadWords(L, T, q, i);
    } else {
      ArrayLinks(L, T, q, i);
    }
    CurInjective(L, T, a, q + i);
  }

  /** No word of the heap or root but a link word of an array is rewritten when a neighbour moves. */
  lemma NeighbourRole(L: Layout, T: Trail, b: int, a: int)
    requires L.ObjectsOk() && L.SpacesOk() && FwdOk(L, T) && RingsOk(L, T)
    requires a in L.own || a in L.roots
    requires Neighbour(T, b, T.Cur(a))
    ensures a in L.own && L.Role(a) == Link
  {
    RingStep(L, T, b);
    if T.Cur(a) == T.Cur(T.nxt[b] + 2) {
      NodeLink(L, T, T.nxt[b], 2, a);
    } else {
      NodeLink(L, T, T.prv[b], 1, a);
    }
  }

  lemma EvacuateMoved(L: Layout, T: Trail, T1: Trail, m: seq<Word>, m1: seq<Word>, b: int, a: int)
    requires L.ObjectsOk() && L.SpacesOk() && FwdOk(L, T) && Evacuable(L, T, b)
    requires Extends(L, T, T1, b, Footprint(L.Was(b))) && Evacuates(L, T, m, m1, b)
    requires b <= a < b + Footprint(L.Was(b))
    ensures a !in T.fw && At(m1, T1.Cur(a)) == At(m, T.Cur(a))
  {
    ObjectWords(L, T, b, a);
  }

  lemma EvacuateUnmoved(L: Layout, T: Trail, T1: Trail, m: seq<Word>, m1: seq<Word>, b: int, a: int)
    requires L.ObjectsOk() && L.SpacesOk() && FwdOk(L, T) && Evacuable(L, T, b)
    requires Extends(L, T, T1, b, Footprint(L.Was(b))) && Evacuates(L, T, m, m1, b)
    requires !(b <= a < b + Footprint(L.Was(b))) && !(L.start <= a < L.limit) && !Neighbour(T, b, T.Cur(a))
    ensures T1.Cur(a) == T.Cur(a) && At(m1, T1.Cur(a)) == At(m, T.Cur(a))
  {
    var n := Footprint(L.Was(b));
    RoomFor(L, T, b);
    ObjectWords(L, T, b, b);
    ObjectWords(L, T, b, b + 1);
    var x := T.Cur(a);
    assert x != b && x != b + 1 && !(L.start + T.used <= x < L.start + T.used + n);
  }

  /** Evacuation keeps the word of every original place, wherever it is now. */
  lemma EvacuateWord(L: Layout, T: Trail, T1: Trail, m: seq<Word>, m1: seq<Word>, b: int, a: int)
    requires L.ObjectsOk() && L.SpacesOk() && FwdOk(L, T) && RingsOk(L, T) && Evacuable(L, T, b)
    requires Extends(L, T, T1, b, Footprint(L.Was(b))) && Evacuates(L, T, m, m1, b)
    requires Kept(L, a)
    ensures At(m1, T1.Cur(a)) == At(m, T.Cur(a))
  {
    if b <= a < b + Footprint(L.Was(b)) {
      EvacuateMoved(L, T, T1, m, m1, b, a);
    } else {
      if Neighbour(T, b, T.Cur(a)) {
        NeighbourRole(L, T, b, a);
      }
      EvacuateUnmoved(L, T, T1, m, m1, b, a);
    }
  }

  lemma SlotRelGrows(L: Layout, T: Trail, T1: Trail, b: int, n: nat, w0: Word, w: Word)
    requires Extends(L, T, T1, b, n)
    requires SlotRel(L, T, w0, w) && forall x :: b <= x < b + n ==> x !in T.fw
    ensures SlotRel(L, T1, w0, w)
  {
  }

  lemma EvacuateLink(L: Layout, T: Trail, T1: Trail, m: seq<Word>, m1: seq<Word>, b: int, a: int)
    requires L.ObjectsOk() && L.SpacesOk() && FwdOk(L, T) && Evacuable(L, T, b)
    requires Extends(L, T, T1, b, Footprint(L.Was(b))) && Evacuates(L, T, m, m1, b)
    requires a in L.own && At(m, T.Cur(a)).Imm?
    ensures At(m1, T1.Cur(a)).Imm?
  {
    if b <= a < b + Footprint(L.Was(b)) {
      EvacuateMoved(L, T, T1, m, m1, b, a);
    } else if Neighbour(T, b, T.Cur(a)) {
    } else {
      EvacuateUnmoved(L, T, T1, m, m1, b, a);
    }
  }

  lemma EvacuateWords(L: Layout, T: Trail, T1: Trail, m: seq<Word>, m1: seq<Word>, b: int)
    requires L.ObjectsOk() && L.SpacesOk() && FwdOk(L, T) && RingsOk(L, T) && Evacuable(L, T, b)
    requires Extends(L, T, T1, b, Footprint(L.Was(b))) && Evacuates(L, T, m, m1, b)
    requires WordsOk(L, T, m) && WeakUntouched(L, T, m)
    ensures WordsOk(L, T1, m1) && WeakUntouched(L, T1, m1)
  {
    var n := Footprint(L.Was(b));
    forall x | b <= x < b + n ensures x !in T.fw && x !in L.roots {
      ObjectWords(L, T, b, x);
    }
    forall a | a in L.own && L.Role(a) == Slot ensures SlotRel(L, T1, L.Was(a), At(m1, T1.Cur(a))) {
      EvacuateWord(L, T, T1, m, m1, b, a);
      SlotRelGrows(L, T, T1, b, n, L.Was(a), At(m, T.Cur(a)));
    }
    forall a | a in L.roots ensures SlotRel(L, T1, L.Was(a), At(m1, a)) {
      EvacuateWord(L, T, T1, m, m1, b, a);
      SlotRelGrows(L, T, T1, b, n, L.Was(a), At(m, a));
      EvacuateRoot(L, T, T1, b, a);
    }
    forall a | a in L.own && L.Role(a) == Link ensures At(m1, T1.Cur(a)).Imm? {
      EvacuateLink(L, T, T1, m, m1, b, a);
    }
    forall a | a in L.own && L.Role(a) != Slot && L.Role(a) != Link ensures At(m1, T1.Cur(a)) == L.Was(a) {
      EvacuateWord(L, T, T1, m, m1, b, a);
    }
  }

  lemma EvacuateRoot(L: Layout, T: Trail, T1: Trail, b: int, a: int)
    requires L.ObjectsOk() && L.SpacesOk() && FwdOk(L, T) && Evacuable(L, T, b) && a in L.roots
    requires Extends(L, T, T1, b, Footprint(L.Was(b)))
    ensures T.Cur(a) == a == T1.Cur(a)
  {
    if b <= a < b + Footprint(L.Was(b)) {
      ObjectWords(L, T, b, a);
    }
  }

  // ---- Markers ----

  /** An inner entry that is not yet marked still holds its original word. */
  lemma EntryWord(L: Layout, T: Trail, m: seq<Word>, a: int)
    requires L.ObjectsOk() && L.WordsFit() && WordsOk(L, T, m) && InnerEntry(L, a) && T.Cur(a) == a
    ensures At(m, a) == L.Was(a) && L.Role(a) != Link
  {
    assert L.Within(L.own[a], a);
  }

  lemma NodeNotCopied(L: Layout, T: Trail, q: int, i: int, x: int)
    requires L.ObjectsOk() && L.SpacesOk() && FwdOk(L, T) && (i == 1 || i == 2) && x in T.fw && Node(L, q)
    ensures T.Cur(q + i) != x
  {
    if q in L.heads {
      HeadWords(L, T, q, i);
    }
  }

  /** The words of an object that has been copied already are left alone. */
  lemma EvacuateStill(L: Layout, T: Trail, m: seq<Word>, m1: seq<Word>, b: int, x: int)
    requires L.ObjectsOk() && L.SpacesOk() && FwdOk(L, T) && RingsOk(L, T) && Evacuable(L, T, b)
    requires Evacuates(L, T, m, m1, b) && x in T.fw
    ensures At(m1, x) == At(m, x)
  {
    RoomFor(L, T, b);
    ObjectWords(L, T, b, b);
    ObjectWords(L, T, b, b + 1);
    if b in T.nxt && b in T.prv {
      RingStep(L, T, b);
      NodeNotCopied(L, T, T.nxt[b], 2, x);
      NodeNotCopied(L, T, T.prv[b], 1, x);
    }
  }

  /** The inner entries of the object being evacuated keep their words. */
  lemma EvacuateInner(L: Layout, T: Trail, m: seq<Word>, m1: seq<Word>, b: int, a: int)
    requires L.ObjectsOk() && L.SpacesOk() && L.WordsFit() && FwdOk(L, T) && RingsOk(L, T) && Evacuable(L, T, b)
    requires Evacuates(L, T, m, m1, b) && WordsOk(L, T, m)
    requires b <= a < b + Footprint(L.Was(b)) && InnerEntry(L, a)
    ensures At(m1, a) == L.Was(a)
  {
    RoomFor(L, T, b);
    ObjectWords(L, T, b, a);
    EntryWord(L, T, m, a);
    assert a != b && a != b + 1;
    if Neighbour(T, b, a) {
      NeighbourRole(L, T, b, a);
    }
  }

  lemma BasePair(L: Layout, T: Trail, c: int)
    requires L.ObjectsOk() && FwdOk(L, T) && c in T.fw && L.Base(c)
    ensures c + 1 in T.fw
  {
    assert L.Within(c, c + 1);
  }

  lemma EntryPair(L: Layout, T: Trail, a: int)
    requires FwdOk(L, T) && InnerEntry(L, a) && a in T.fw
    ensures a + 1 in T.fw
  {
  }

  lemma StillPair(L: Layout, T: Trail, m: seq<Word>, m1: seq<Word>, b: int, x: int)
    requires L.ObjectsOk() && L.SpacesOk() && FwdOk(L, T) && RingsOk(L, T) && Evacuable(L, T, b)
    requires Evacuates(L, T, m, m1, b) && x in T.fw && x + 1 in T.fw
    ensures At(m1, x) == At(m, x) && At(m1, x + 1) == At(m, x + 1)
  {
    EvacuateStill(L, T, m, m1, b, x);
    EvacuateStill(L, T, m, m1, b, x + 1);
  }

  lemma EvacuateMarker(L: Layout, T: Trail, T1: Trail, m: seq<Word>, m1: seq<Word>, b: int, c: int)
    requires L.ObjectsOk() && L.SpacesOk() && FwdOk(L, T) && RingsOk(L, T) && Evacuable(L, T, b)
    requires Extends(L, T, T1, b, Footprint(L.Was(b))) && Evacuates(L, T, m, m1, b)
    requires BasesMarked(L, T, m) && c in T1.fw && L.Base(c)
    ensures c in L.tag && At(m1, c) == Evacuated && At(m1, c + 1) == Ptr(L.tag[c], T1.fw[c])
  {
    if b <= c < b + Footprint(L.Was(b)) {
      ObjectWords(L, T, b, c);
    } else {
      BasePair(L, T, c);
      StillPair(L, T, m, m1, b, c);
    }
  }

  lemma EvacuateEntry(L: Layout, T: Trail, T1: Trail, m: seq<Word>, m1: seq<Word>, b: int, a: int)
    requires L.ObjectsOk() && L.SpacesOk() && L.WordsFit() && FwdOk(L, T) && RingsOk(L, T) && Evacuable(L, T, b)
    requires Extends(L, T, T1, b, Footprint(L.Was(b))) && Evacuates(L, T, m, m1, b)
    requires WordsOk(L, T, m) && a in T1.fw && InnerEntry(L, a)
    requires a in T.fw ==> EntryMark(L, T, m, a)
    ensures EntryMark(L, T1, m1, a)
  {
    if b <= a < b + Footprint(L.Was(b)) {
      EvacuateInner(L, T, m, m1, b, a);
    } else {
      EntryPair(L, T, a);
      StillPair(L, T, m, m1, b, a);
    }
  }

  lemma EvacuateMarkers(L: Layout, T: Trail, T1: Trail, m: seq<Word>, m1: seq<Word>, b: int)
    requires L.ObjectsOk() && L.SpacesOk() && L.WordsFit() && FwdOk(L, T) && RingsOk(L, T) && Evacuable(L, T, b)
    requires Extends(L, T, T1, b, Footprint(L.Was(b))) && Evacuates(L, T, m, m1, b)
    requires WordsOk(L, T, m) && BasesMarked(L, T, m) && EntriesMarked(L, T, m)
    ensures BasesMarked(L, T1, m1) && EntriesMarked(L, T1, m1)
  {
    forall c | c in T1.fw && L.Base(c)
      ensures c in L.tag && At(m1, c) == Evacuated && At(m1, c + 1) == Ptr(L.tag[c], T1.fw[c])
    {
      EvacuateMarker(L, T, T1, m, m1, b, c);
    }
    forall a | a in T1.fw && InnerEntry(L, a) ensures EntryMark(L, T1, m1, a) {
      EvacuateEntry(L, T, T1, m, m1, b, a);
    }
  }

  // ---- Entry lists ----

  /** The link words of different nodes are different words. */
  lemma NodeWords(L: Layout, T: Trail, n: int, i: int, q: int, j: int)
    requires L.ObjectsOk() && L.SpacesOk() && FwdOk(L, T) && Node(L, n) && Node(L, q)
    requires (i == 1 || i == 2) && (j == 1 || j == 2) && T.Cur(n + i) == T.Cur(q + j)
    ensures n == q && i == j
  {
    NodePlace(L, n, i);
    NodePlace(L, q, j);
    CurInjective(L, T, n + i, q + j);
    if n in L.heads && q in L.heads {
      HeadsApart(L, n, i, q, j);
    }
  }

  lemma NodePlace(L: Layout, n: int, i: int)
    requires L.ObjectsOk() && L.SpacesOk() && Node(L, n) && (i == 1 || i == 2)
    ensures !(L.start <= n + i < L.limit)
    ensures if n in L.heads then n + i !in L.own else n + i in L.own && L.own[n + i] == n
  {
    if n in L.heads {
      assert L.HeadWord(n, n + i);
    } else {
      assert L.Within(n, n + i);
    }
  }

  lemma HeadsApart(L: Layout, n: int, i: int, q: int, j: int)
    requires L.SpacesOk() && n in L.heads && q in L.heads
    requires (i == 1 || i == 2) && (j == 1 || j == 2) && n + i == q + j
    ensures n == q && i == j
  {
    if n < q {
      assert L.HeadWord(n, q);
    } else {
      assert L.HeadWord(q, n);
    }
  }

  lemma NotNeighbour(L: Layout, T: Trail, b: int, n: int, i: int)
    requires L.ObjectsOk() && L.SpacesOk() && FwdOk(L, T) && RingsOk(L, T) && Node(L, n) && (i == 1 || i == 2)
    requires b in T.nxt && b in T.prv ==> !(n == T.nxt[b] && i == 2) && !(n == T.prv[b] && i == 1)
    ensures !Neighbour(T, b, T.Cur(n + i))
  {
    hide L.ObjectsOk, L.SpacesOk, InverseOk, WholeOk, RingsOk, Node;
    if Neighbour(T, b, T.Cur(n + i)) {
      RingStep(L, T, b);
      if T.Cur(n + i) == T.Cur(T.nxt[b] + 2) {
        NodeWords(L, T, n, i, T.nxt[b], 2);
      } else {
        NodeWords(L, T, n, i, T.prv[b], 1);
      }
    }
  }

  /** The nodes' words other than those leading to `b` are not touched by its evacuation. */
  lemma EvacuateNodeWord(L: Layout, T: Trail, T1: Trail, m: seq<Word>, m1: seq<Word>, b: int, n: int, i: int)
    requires L.ObjectsOk() && L.SpacesOk() && FwdOk(L, T) && RingsOk(L, T) && Evacuable(L, T, b)
    requires Extends(L, T, T1, b, Footprint(L.Was(b))) && Evacuates(L, T, m, m1, b)
    requires Node(L, n) && (i == 1 || i == 2)
    requires b in T.nxt && b in T.prv ==> !(n == T.nxt[b] && i == 2) && !(n == T.prv[b] && i == 1)
    ensures At(m1, T1.Cur(n + i)) == At(m, T.Cur(n + i))
  {
    NotNeighbour(L, T, b, n, i);
    NodePlace(L, n, i);
    if b <= n + i < b + Footprint(L.Was(b)) {
      EvacuateMoved(L, T, T1, m, m1, b, n + i);
    } else {
      EvacuateUnmoved(L, T, T1, m, m1, b, n + i);
    }
  }

  lemma EvacuateCur(L: Layout, T: Trail, T1: Trail, b: int, n: int)
    requires L.ObjectsOk() && L.SpacesOk() && FwdOk(L, T) && Evacuable(L, T, b)
    requires Extends(L, T, T1, b, Footprint(L.Was(b))) && Node(L, n)
    ensures T1.Cur(n) == if n == b then L.start + T.used else T.Cur(n)
  {
    if b <= n < b + Footprint(L.Was(b)) {
      ObjectWords(L, T, b, n);
    }
    if n in L.heads {
      assert L.HeadWord(n, n);
    }
  }

  /** The link words of nodes other than `b` lie outside the object at `b`. */
  lemma NodeOutside(L: Layout, T: Trail, T1: Trail, b: int, n: int, i: int)
    requires L.ObjectsOk() && L.SpacesOk() && FwdOk(L, T) && Evacuable(L, T, b) && Node(L, n) && (i == 1 || i == 2)
    requires Extends(L, T, T1, b, Footprint(L.Was(b))) && n != b
    ensures T1.Cur(n + i) == T.Cur(n + i)
  {
    NodePlace(L, n, i);
    if b <= n + i < b + Footprint(L.Was(b)) {
      ObjectWords(L, T, b, n + i);
    }
  }

  lemma NotHead(L: Layout, b: int)
    requires L.SpacesOk() && L.Base(b)
    ensures b !in L.heads
  {
    if b in L.heads {
      assert L.HeadWord(b, b);
    }
  }

  lemma EvacuateNext(L: Layout, T: Trail, T1: Trail, m: seq<Word>, m1: seq<Word>, b: int, n: int)
    requires L.ObjectsOk() && L.SpacesOk() && FwdOk(L, T) && Evacuable(L, T, b)
    requires Extends(L, T, T1, b, Footprint(L.Was(b))) && Evacuates(L, T, m, m1, b)
    requires RingsOk(L, T) && n in T.nxt && At(m, T.Cur(n + 1)) == Imm(T.Cur(T.nxt[n]))
    ensures At(m1, T1.Cur(n + 1)) == Imm(T1.Cur(T.nxt[n]))
  {
    hide L.ObjectsOk, L.SpacesOk, InverseOk, WholeOk, RingsOk, Node;
    RingStep(L, T, n);
    EvacuateCur(L, T, T1, b, T.nxt[n]);
    if b in T.nxt && T.nxt[n] == b {
      RingStep(L, T, b);
      NotHead(L, b);
      NodeOutside(L, T, T1, b, n, 1);
    } else {
      NextElsewhere(L, T, b, n);
      EvacuateNodeWord(L, T, T1, m, m1, b, n, 1);
    }
  }

  lemma EvacuatePrev(L: Layout, T: Trail, T1: Trail, m: seq<Word>, m1: seq<Word>, b: int, n: int)
    requires L.ObjectsOk() && L.SpacesOk() && FwdOk(L, T) && Evacuable(L, T, b)
    requires Extends(L, T, T1, b, Footprint(L.Was(b))) && Evacuates(L, T, m, m1, b)
    requires RingsOk(L, T) && n in T.nxt && n in T.prv && At(m, T.Cur(n + 2)) == Imm(T.Cur(T.prv[n]))
    ensures At(m1, T1.Cur(n + 2)) == Imm(T1.Cur(T.prv[n]))
  {
    hide L.ObjectsOk, L.SpacesOk, InverseOk, WholeOk, RingsOk, Node;
    RingStep(L, T, n);
    EvacuateCur(L, T, T1, b, T.prv[n]);
    if b in T.nxt && T.prv[n] == b {
      RingStep(L, T, b);
      NotHead(L, b);
      NodeOutside(L, T, T1, b, n, 2);
    } else {
      NextElsewhere(L, T, b, n);
      EvacuateNodeWord(L, T, T1, m, m1, b, n, 2);
    }
  }

  lemma NextElsewhere(L: Layout, T: Trail, b: int, n: int)
    requires RingsOk(L, T) && n in T.nxt
    ensures n in T.prv
    ensures b in T.nxt && T.nxt[n] != b ==> b in T.prv && n != T.prv[b]
    ensures b in T.nxt && T.prv[n] != b ==> n != T.nxt[b]
  {
    RingStep(L, T, n);
    if b in T.nxt {
      RingStep(L, T, b);
    }
  }

  lemma SameRingsOk(L: Layout, T: Trail, T1: Trail)
    requires RingsOk(L, T) && T1.nxt == T.nxt && T1.prv == T.prv && T1.rank == T.rank
    ensures RingsOk(L, T1)
  {
    forall n {:trigger Listed(T1, n)} | Listed(T1, n) ensures Listed(T, n) {
    }
  }

  lemma SameNodes(L: Layout, T: Trail, T1: Trail, b: int, n: nat)
    requires Extends(L, T, T1, b, n)
    ensures T1.nxt == T.nxt && T1.prv == T.prv && T1.rank == T.rank
  {
  }

  /** Both links of a node lead to the present places of its neighbours. */
  lemma EvacuateThread(L: Layout, T: Trail, T1: Trail, m: seq<Word>, m1: seq<Word>, b: int, n: int)
    requires L.ObjectsOk() && L.SpacesOk() && FwdOk(L, T) && Evacuable(L, T, b)
    requires Extends(L, T, T1, b, Footprint(L.Was(b))) && Evacuates(L, T, m, m1, b)
    requires ThreadsOk(L, T, m) && n in T.nxt
    ensures n in T.prv && At(m1, T1.Cur(n + 1)) == Imm(T1.Cur(T.nxt[n]))
    ensures At(m1, T1.Cur(n + 2)) == Imm(T1.Cur(T.prv[n]))
  {
    hide L.ObjectsOk, L.SpacesOk, InverseOk, WholeOk, Evacuable, Evacuates, Extends, RingsOk;
    RingStep(L, T, n);
    EvacuateNext(L, T, T1, m, m1, b, n);
    EvacuatePrev(L, T, T1, m, m1, b, n);
  }

  lemma EvacuateThreads(L: Layout, T: Trail, T1: Trail, m: seq<Word>, m1: seq<Word>, b: int)
    requires L.ObjectsOk() && L.SpacesOk() && FwdOk(L, T) && Evacuable(L, T, b)
    requires Extends(L, T, T1, b, Footprint(L.Was(b))) && Evacuates(L, T, m, m1, b)
    requires ThreadsOk(L, T, m)
    ensures ThreadsOk(L, T1, m1)
  {
    hide L.ObjectsOk, L.SpacesOk, InverseOk, WholeOk, Node, Evacuable, Evacuates, RingsOk, Extends;
    SameNodes(L, T, T1, b, Footprint(L.Was(b)));
    SameRingsOk(L, T, T1);
    forall n | n in T1.nxt
      ensures n in T1.prv && At(m1, T1.Cur(n + 1)) == Imm(T1.Cur(T1.nxt[n])) &&
              At(m1, T1.Cur(n + 2)) == Imm(T1.Cur(T1.prv[n]))
    {
      EvacuateThread(L, T, T1, m, m1, b, n);
    }
    forall c | L.Base(c) && IsArray(L.Was(c)) && c !in T1.nxt ensures Unlisted(T1, m1, c) {
      EvacuateOffList(L, T, T1, m, m1, b, c);
    }
  }

  lemma EvacuateOffList(L: Layout, T: Trail, T1: Trail, m: seq<Word>, m1: seq<Word>, b: int, c: int)
    requires L.ObjectsOk() && L.SpacesOk() && FwdOk(L, T) && Evacuable(L, T, b)
    requires Extends(L, T, T1, b, Footprint(L.Was(b))) && Evacuates(L, T, m, m1, b)
    requires ThreadsOk(L, T, m) && L.Base(c) && IsArray(L.Was(c)) && c !in T.nxt
    ensures Unlisted(T1, m1, c)
  {
    hide L.ObjectsOk, L.SpacesOk, InverseOk, WholeOk, RingsOk, Evacuable, Evacuates, Extends, Node;
    ArrayNode(L, c);
    if b in T.nxt {
      RingStep(L, T, b);
    }
    EvacuateNodeWord(L, T, T1, m, m1, b, c, 1);
    EvacuateNodeWord(L, T, T1, m, m1, b, c, 2);
  }

  lemma EvacuateFrame(L: Layout, T: Trail, m: seq<Word>, m1: seq<Word>, b: int)
    requires L.ObjectsOk() && L.SpacesOk() && FwdOk(L, T) && RingsOk(L, T) && Evacuable(L, T, b)
    requires Evacuates(L, T, m, m1, b) && FrameOk(L, m)
    ensures FrameOk(L, m1)
  {
    hide L.ObjectsOk, InverseOk, WholeOk, RingsOk, Node;
    RoomFor(L, T, b);
    ObjectWords(L, T, b, b);
    ObjectWords(L, T, b, b + 1);
    if b in T.nxt {
      RingStep(L, T, b);
      NodeInHeap(L, T, T.nxt[b], 2);
      NodeInHeap(L, T, T.prv[b], 1);
    }
  }

  lemma NodeInHeap(L: Layout, T: Trail, n: int, i: int)
    requires L.ObjectsOk() && L.SpacesOk() && FwdOk(L, T) && Node(L, n) && (i == 1 || i == 2)
    ensures var x := T.Cur(n + i); x in L.own || InHead(L, x) || L.start <= x < L.limit
  {
    if n in L.heads {
      assert L.HeadWord(n, n);
    } else {
      ArrayLinks(L, T, n, i);
    }
  }

  /** Evacuating a reachable object keeps the invariant, and the word of every original place
      that is not a link. */
  lemma EvacuateInv(L: Layout, T: Trail, T1: Trail, m: seq<Word>, m1: seq<Word>, b: int)
    requires Inv(L, T, m) && Evacuable(L, T, b) && L.Reachable(b)
    requires T1 == Extend(L, T, b, Footprint(L.Was(b))) && Evacuates(L, T, m, m1, b)
    ensures Inv(L, T1, m1) && Extends(L, T, T1, b, Footprint(L.Was(b)))
    ensures KeepsWords(L, T, T1, m, m1)
  {
    hide L.ObjectsOk, L.SpacesOk, L.WordsFit, InverseOk, WholeOk, WordsOk, BasesMarked, EntriesMarked, ReachOk,
      RingsOk, Evacuates, Extend, FrameOk, OldElementsOk;
    ExtendIsExtended(L, T, b, Footprint(L.Was(b)));
    ExtendFwd(L, T, T1, b, Footprint(L.Was(b)));
    EvacuateWords(L, T, T1, m, m1, b);
    EvacuateMarkers(L, T, T1, m, m1, b);
    EvacuateThreads(L, T, T1, m, m1, b);
    EvacuateFrame(L, T, m, m1, b);
    EvacuateReach(L, T, T1, b);
    EvacuateOld(L, T, T1, m, m1, b);
    forall a | Kept(L, a) ensures At(m1, T1.Cur(a)) == At(m, T.Cur(a)) {
      EvacuateWord(L, T, T1, m, m1, b, a);
    }
  }

  /** Places whose words are values or data, not links of entry lists. */
  ghost predicate Kept(L: Layout, a: int) {
    a in L.roots || (a in L.own && L.Role(a) != Link)
  }

  ghost predicate KeepsWords(L: Layout, T: Trail, T1: Trail, m: seq<Word>, m1: seq<Word>) {
    forall a {:trigger Kept(L, a)} :: Kept(L, a) ==> At(m1, T1.Cur(a)) == At(m, T.Cur(a))
  }

  /** The elements of the array that moves, and those that moved before, stay at their old places. */
  lemma EvacuateOld(L: Layout, T: Trail, T1: Trail, m: seq<Word>, m1: seq<Word>, b: int)
    requires L.ObjectsOk() && L.SpacesOk() && FwdOk(L, T) && RingsOk(L, T) && Evacuable(L, T, b)
    requires Extends(L, T, T1, b, Footprint(L.Was(b))) && Evacuates(L, T, m, m1, b)
    requires WordsOk(L, T, m) && OldElementsOk(L, T, m)
    ensures OldElementsOk(L, T1, m1)
  {
    hide L.ObjectsOk, L.SpacesOk, InverseOk, WholeOk, RingsOk, Evacuates, Extends, WordsOk, Evacuable;
    forall x {:trigger OldElement(L, T1, x)} | OldElement(L, T1, x) ensures SlotRel(L, T1, L.Was(x), At(m1, x)) {
      EvacuateOldElement(L, T, T1, m, m1, b, x);
    }
  }

  lemma EvacuateOldElement(L: Layout, T: Trail, T1: Trail, m: seq<Word>, m1: seq<Word>, b: int, x: int)
    requires L.ObjectsOk() && L.SpacesOk() && FwdOk(L, T) && RingsOk(L, T) && Evacuable(L, T, b)
    requires Extends(L, T, T1, b, Footprint(L.Was(b))) && Evacuates(L, T, m, m1, b)
    requires WordsOk(L, T, m) && OldElement(L, T1, x) && (OldElement(L, T, x) ==> SlotRel(L, T, L.Was(x), At(m, x)))
    ensures SlotRel(L, T1, L.Was(x), At(m1, x))
  {
    hide L.SpacesOk, InverseOk, WholeOk, RingsOk, SlotRel;
    var n := Footprint(L.Was(b));
    forall y | b <= y < b + n ensures y !in T.fw {
      ObjectWords(L, T, b, y);
    }
    if x in T.fw {
      EvacuateStill(L, T, m, m1, b, x);
    } else {
      ObjectWords(L, T, b, x);
      ObjectFits(L, T, b);
      ToApart(L, T, x);
      if Neighbour(T, b, T.Cur(x)) {
        NeighbourRole(L, T, b, x);
      }
      assert x != b && x != b + 1 && T.Cur(x) == x;
      assert At(m1, x) == At(m, x);
    }
    assert SlotRel(L, T, L.Was(x), At(m, x));
    SlotRelGrows(L, T, T1, b, n, L.Was(x), At(m, x));
  }

  lemma ToApart(L: Layout, T: Trail, x: int)
    requires L.SpacesOk() && x in L.own
    ensures !(L.start <= x < L.limit)
  {
  }

  lemma EvacuateReach(L: Layout, T: Trail, T1: Trail, b: int)
    requires L.ObjectsOk() && L.SpacesOk() && FwdOk(L, T) && Evacuable(L, T, b) && L.Reachable(b)
    requires Extends(L, T, T1, b, Footprint(L.Was(b))) && ReachOk(L, T)
    ensures ReachOk(L, T1)
  {
    forall c | c in T1.fw && L.Base(c) ensures L.Reachable(c) {
      if b <= c < b + Footprint(L.Was(b)) {
        ObjectWords(L, T, b, c);
      }
    }
  }

  // ---- Marking an inner entry, fixing a cell ----

  /** `m1` differs from `m` at most in the words `x` and `y`. */
  ghost predicate Differ(m: seq<Word>, m1: seq<Word>, x: int, y: int) {
    |m1| == |m| && forall z {:trigger At(m1, z)} :: z != x && z != y ==> At(m1, z) == At(m, z)
  }

  /** Neither cells, links nor weak slots are ever at a place that was copied from. */
  lemma CopiedIsDead(L: Layout, T: Trail, a: int, x: int)
    requires L.SpacesOk() && FwdOk(L, T) && x in T.fw && !(L.start <= a < L.limit)
    ensures T.Cur(a) != x
  {
  }

  /** If no link word of a node changes, the threads stay as they are. */
  lemma KeepThreads(L: Layout, T: Trail, m: seq<Word>, m1: seq<Word>)
    requires ThreadsOk(L, T, m)
    requires forall n {:trigger Node(L, n)} :: Node(L, n) ==>
               At(m1, T.Cur(n + 1)) == At(m, T.Cur(n + 1)) && At(m1, T.Cur(n + 2)) == At(m, T.Cur(n + 2))
    ensures ThreadsOk(L, T, m1)
  {
    hide Node;
    forall n | n in T.nxt
      ensures n in T.prv && At(m1, T.Cur(n + 1)) == Imm(T.Cur(T.nxt[n])) && At(m1, T.Cur(n + 2)) == Imm(T.Cur(T.prv[n]))
    {
      RingStep(L, T, n);
    }
    forall b | L.Base(b) && IsArray(L.Was(b)) && b !in T.nxt ensures Unlisted(T, m1, b) {
      ArrayNode(L, b);
    }
  }

  lemma MarkThreads(L: Layout, T: Trail, m: seq<Word>, m1: seq<Word>, x: int, y: int)
    requires L.ObjectsOk() && L.SpacesOk() && FwdOk(L, T) && ThreadsOk(L, T, m)
    requires x in T.fw && y in T.fw && Differ(m, m1, x, y)
    ensures ThreadsOk(L, T, m1)
  {
    hide L.ObjectsOk, L.SpacesOk, InverseOk, WholeOk, Node, RingsOk;
    forall n | Node(L, n)
      ensures At(m1, T.Cur(n + 1)) == At(m, T.Cur(n + 1)) && At(m1, T.Cur(n + 2)) == At(m, T.Cur(n + 2))
    {
      NodePlace(L, n, 1);
      NodePlace(L, n, 2);
      CopiedIsDead(L, T, n + 1, x);
      CopiedIsDead(L, T, n + 1, y);
      CopiedIsDead(L, T, n + 2, x);
      CopiedIsDead(L, T, n + 2, y);
    }
    KeepThreads(L, T, m, m1);
  }

  lemma ArrayNode(L: Layout, b: int)
    requires L.Base(b) && IsArray(L.Was(b))
    ensures Node(L, b)
  {
  }

  /** Marking an inner entry of a copied object keeps the invariant. */
  lemma MarkInv(L: Layout, T: Trail, m: seq<Word>, m1: seq<Word>, a: int)
    requires Inv(L, T, m) && InnerEntry(L, a) && a in T.fw && a + 1 in T.fw
    requires Differ(m, m1, a, a + 1) && At(m1, a) == Evacuated && At(m1, a + 1) == Ptr(Pointer, T.fw[a])
    ensures Inv(L, T, m1)
  {
    MarkWords(L, T, m, m1, a);
    MarkThreads(L, T, m, m1, a, a + 1);
    MarkMarkers(L, T, m, m1, a);
    MarkFrame(L, T, m, m1, a);
    MarkOld(L, T, m, m1, a);
  }

  /** An object with inner entries is no array. */
  lemma MarkOld(L: Layout, T: Trail, m: seq<Word>, m1: seq<Word>, a: int)
    requires OldElementsOk(L, T, m) && InnerEntry(L, a) && Differ(m, m1, a, a + 1)
    ensures OldElementsOk(L, T, m1)
  {
    forall x {:trigger OldElement(L, T, x)} | OldElement(L, T, x) ensures SlotRel(L, T, L.Was(x), At(m1, x)) {
      assert x != a && x != a + 1;
    }
  }

  lemma MarkWords(L: Layout, T: Trail, m: seq<Word>, m1: seq<Word>, a: int)
    requires L.SpacesOk() && FwdOk(L, T) && WordsOk(L, T, m) && WeakUntouched(L, T, m)
    requires a in T.fw && a + 1 in T.fw && Differ(m, m1, a, a + 1)
    ensures WordsOk(L, T, m1) && WeakUntouched(L, T, m1)
  {
    forall c | c in L.own || c in L.roots ensures At(m1, T.Cur(c)) == At(m, T.Cur(c)) {
      CopiedIsDead(L, T, c, a);
      CopiedIsDead(L, T, c, a + 1);
    }
  }

  lemma MarkMarkers(L: Layout, T: Trail, m: seq<Word>, m1: seq<Word>, a: int)
    requires L.ObjectsOk() && FwdOk(L, T) && BasesMarked(L, T, m) && EntriesMarked(L, T, m)
    requires InnerEntry(L, a) && a in T.fw && a + 1 in T.fw
    requires Differ(m, m1, a, a + 1) && At(m1, a) == Evacuated && At(m1, a + 1) == Ptr(Pointer, T.fw[a])
    ensures BasesMarked(L, T, m1) && EntriesMarked(L, T, m1)
  {
    forall b | b in T.fw && L.Base(b)
      ensures b in L.tag && At(m1, b) == Evacuated && At(m1, b + 1) == Ptr(L.tag[b], T.fw[b])
    {
      BaseApart(L, b, a);
    }
    forall c | c in T.fw && InnerEntry(L, c) ensures EntryMark(L, T, m1, c) {
      EntriesApart(L, c, a);
    }
  }

  lemma BaseApart(L: Layout, b: int, a: int)
    requires L.ObjectsOk() && L.Base(b) && InnerEntry(L, a)
    ensures b != a && b != a + 1 && b + 1 != a
  {
    assert L.Within(b, b + 1);
  }

  lemma EntriesApart(L: Layout, c: int, a: int)
    requires L.ObjectsOk() && InnerEntry(L, a) && InnerEntry(L, c)
    ensures c != a + 1 && c + 1 != a
  {
  }

  lemma MarkFrame(L: Layout, T: Trail, m: seq<Word>, m1: seq<Word>, a: int)
    requires FwdOk(L, T) && FrameOk(L, m) && a in T.fw && a + 1 in T.fw && Differ(m, m1, a, a + 1)
    ensures FrameOk(L, m1)
  {
  }

  lemma CellPlace(L: Layout, T: Trail, m: seq<Word>, c: int)
    requires L.ObjectsOk() && L.SpacesOk() && FwdOk(L, T) && FrameOk(L, m) && (c in L.own || c in L.roots)
    ensures 0 <= T.Cur(c) < |m| && T.Cur(c) !in T.fw && !(L.start <= c < L.limit)
    ensures c in L.roots ==> T.Cur(c) == c
  {
  }

  lemma CellNotLink(L: Layout, T: Trail, c: int, n: int, i: int)
    requires L.ObjectsOk() && L.SpacesOk() && FwdOk(L, T) && Kept(L, c) && Node(L, n) && (i == 1 || i == 2)
    ensures T.Cur(n + i) != T.Cur(c)
  {
    if T.Cur(c) == T.Cur(n + i) {
      NodeLink(L, T, n, i, c);
    }
  }

  lemma PokeThreads(L: Layout, T: Trail, m: seq<Word>, m1: seq<Word>, c: int)
    requires L.ObjectsOk() && L.SpacesOk() && FwdOk(L, T) && ThreadsOk(L, T, m)
    requires Kept(L, c) && Differ(m, m1, T.Cur(c), T.Cur(c))
    ensures ThreadsOk(L, T, m1)
  {
    hide L.ObjectsOk, L.SpacesOk, InverseOk, WholeOk, Node, RingsOk;
    forall n | Node(L, n)
      ensures At(m1, T.Cur(n + 1)) == At(m, T.Cur(n + 1)) && At(m1, T.Cur(n + 2)) == At(m, T.Cur(n + 2))
    {
      CellNotLink(L, T, c, n, 1);
      CellNotLink(L, T, c, n, 2);
    }
    KeepThreads(L, T, m, m1);
  }

  lemma RootsApart(L: Layout, c: int)
    requires L.SpacesOk() && L.Cell(c)
    ensures c in L.own ==> L.Role(c) == Slot
  {
  }

  lemma PokeWords(L: Layout, T: Trail, m: seq<Word>, m1: seq<Word>, c: int)
    requires L.ObjectsOk() && L.SpacesOk() && FwdOk(L, T) && WordsOk(L, T, m) && WeakUntouched(L, T, m)
    requires L.Cell(c) && Differ(m, m1, T.Cur(c), T.Cur(c)) && SlotRel(L, T, L.Was(c), At(m1, T.Cur(c)))
    ensures WordsOk(L, T, m1) && WeakUntouched(L, T, m1)
    ensures forall a :: (a in L.own || a in L.roots) && a != c ==> At(m1, T.Cur(a)) == At(m, T.Cur(a))
  {
    forall a | (a in L.own || a in L.roots) && a != c ensures At(m1, T.Cur(a)) == At(m, T.Cur(a)) {
      if T.Cur(a) == T.Cur(c) {
        CurInjective(L, T, a, c);
      }
    }
    forall a | a in L.roots ensures T.Cur(a) == a {
    }
    RootsApart(L, c);
  }

  lemma PokeMarkers(L: Layout, T: Trail, m: seq<Word>, m1: seq<Word>, x: int)
    requires L.ObjectsOk() && FwdOk(L, T) && BasesMarked(L, T, m) && EntriesMarked(L, T, m)
    requires x !in T.fw && Differ(m, m1, x, x)
    ensures BasesMarked(L, T, m1) && EntriesMarked(L, T, m1)
  {
    hide L.ObjectsOk, InverseOk, WholeOk, InnerEntry;
    forall b | b in T.fw && L.Base(b)
      ensures b in L.tag && At(m1, b) == Evacuated && At(m1, b + 1) == Ptr(L.tag[b], T.fw[b])
    {
      BasePair(L, T, b);
    }
    forall c | c in T.fw && InnerEntry(L, c) ensures EntryMark(L, T, m1, c) {
      assert EntryMark(L, T, m, c);
      EntryPair(L, T, c);
    }
  }

  /** Writing a cell with a value it may have keeps the invariant and every other word. */
  lemma PokeInv(L: Layout, T: Trail, m: seq<Word>, m1: seq<Word>, c: int)
    requires Inv(L, T, m) && L.Cell(c)
    requires Differ(m, m1, T.Cur(c), T.Cur(c)) && SlotRel(L, T, L.Was(c), At(m1, T.Cur(c)))
    ensures Inv(L, T, m1)
    ensures forall a :: (a in L.own || a in L.roots) && a != c ==> At(m1, T.Cur(a)) == At(m, T.Cur(a))
  {
    CellPlace(L, T, m, c);
    PokeWords(L, T, m, m1, c);
    PokeThreads(L, T, m, m1, c);
    PokeMarkers(L, T, m, m1, T.Cur(c));
    PokeFrame(L, T, m, m1, c);
  }

  /** Fixing an element of a copied array at its old place keeps the invariant and every word. */
  lemma OldPokeInv(L: Layout, T: Trail, m: seq<Word>, m1: seq<Word>, c: int)
    requires Inv(L, T, m) && OldElement(L, T, c) && Differ(m, m1, c, c) && SlotRel(L, T, L.Was(c), At(m1, c))
    ensures Inv(L, T, m1)
    ensures forall a :: a in L.own || a in L.roots ==> At(m1, T.Cur(a)) == At(m, T.Cur(a))
  {
    hide L.ObjectsOk, L.WordsFit, WordsOk, WeakUntouched, BasesMarked, EntriesMarked, ThreadsOk, FrameOk, ReachOk,
      InverseOk, WholeOk, SlotRel, L.SpacesOk;
    OldPokeWords(L, T, m, m1, c);
    MarkThreads(L, T, m, m1, c, c);
    OldPokeMarkers(L, T, m, m1, c);
    OldPokeFrame(L, m, m1, c);
  }

  lemma OldPokeWords(L: Layout, T: Trail, m: seq<Word>, m1: seq<Word>, c: int)
    requires L.SpacesOk() && FwdOk(L, T) && WordsOk(L, T, m) && WeakUntouched(L, T, m)
    requires c in T.fw && Differ(m, m1, c, c)
    ensures WordsOk(L, T, m1) && WeakUntouched(L, T, m1)
    ensures forall a :: a in L.own || a in L.roots ==> At(m1, T.Cur(a)) == At(m, T.Cur(a))
  {
    forall a | a in L.own || a in L.roots ensures At(m1, T.Cur(a)) == At(m, T.Cur(a)) {
      CopiedIsDead(L, T, a, c);
    }
    forall a | a in L.roots ensures T.Cur(a) == a {
    }
  }

  lemma OldPokeMarkers(L: Layout, T: Trail, m: seq<Word>, m1: seq<Word>, c: int)
    requires L.ObjectsOk() && BasesMarked(L, T, m) && EntriesMarked(L, T, m)
    requires OldElement(L, T, c) && Differ(m, m1, c, c)
    ensures BasesMarked(L, T, m1) && EntriesMarked(L, T, m1)
  {
    forall b | b in T.fw && L.Base(b)
      ensures b in L.tag && At(m1, b) == Evacuated && At(m1, b + 1) == Ptr(L.tag[b], T.fw[b])
    {
      assert L.Within(b, b + 1);
    }
    forall a | a in T.fw && InnerEntry(L, a) ensures EntryMark(L, T, m1, a) {
      assert a != c && a + 1 != c;
      assert EntryMark(L, T, m, a);
    }
  }

  lemma OldPokeFrame(L: Layout, m: seq<Word>, m1: seq<Word>, c: int)
    requires FrameOk(L, m) && c in L.own && Differ(m, m1, c, c)
    ensures FrameOk(L, m1)
  {
  }

  lemma PokeFrame(L: Layout, T: Trail, m: seq<Word>, m1: seq<Word>, c: int)
    requires L.SpacesOk() && FwdOk(L, T) && FrameOk(L, m) && (c in L.own || c in L.roots)
    requires Differ(m, m1, T.Cur(c), T.Cur(c))
    ensures FrameOk(L, m1)
  {
  }

  // ---- What fixup finds when it follows a reference ----

  /** The first word of an object that was not copied yet tells its kind. */
  lemma FreshBase(L: Layout, T: Trail, m: seq<Word>, b: int)
    requires L.ObjectsOk() && L.WordsFit() && FwdOk(L, T) && WordsOk(L, T, m) && L.Base(b) && b !in T.fw
    ensures L.Was(b).Hdr? ==> At(m, b) == L.Was(b)
    ensures !L.Was(b).Hdr? ==> !At(m, b).Hdr? && At(m, b) != Evacuated
  {
    assert L.Within(b, b);
    assert T.Cur(b) == b;
    if L.Was(b).Hdr? {
      assert L.Role(b) == Head;
    } else {
      assert L.Role(b) == Slot;
    }
  }

  /** Every second word between the header and a subclosure is a subclosure too. */
  lemma SharedPrefix(L: Layout, b: int, a: int, x: int)
    requires L.ObjectsOk() && InnerEntry(L, a) && L.own[a] == b && L.SharedEntry(b, a)
    requires b < x <= a && (x - b) % 2 == 0
    ensures InnerEntry(L, x) && L.own[x] == b && L.Was(x) == Null && L.SharedEntry(b, x)
  {
    assert L.Within(b, a);
    assert L.Within(b, a + 1);
    assert L.Within(b, x) && L.Within(b, x + 1);
  }

  lemma CopyTogether(L: Layout, T: Trail, a: int)
    requires FwdOk(L, T) && a in L.own
    ensures a in T.fw <==> L.own[a] in T.fw
    ensures a in T.fw ==> T.fw[a] == T.fw[L.own[a]] + (a - L.own[a]) && L.start <= T.fw[a] < L.start + T.used
  {
  }

  lemma TargetFacts(L: Layout, t: Tag, a: int)
    requires L.ObjectsOk() && L.Target(t, a)
    ensures L.Base(L.own[a]) && L.own[a] in L.tag && L.tag[L.own[a]] == t && TagFits(L.Was(L.own[a]), t)
    ensures IsFirstWord(L.Was(L.own[a])) && 0 < L.own[a] <= a && a + 1 < |L.m0|
    ensures a != L.own[a] ==> t == Pointer && InnerEntry(L, a) && (a - L.own[a]) % 2 == 0 && a + 1 in L.own
    ensures a != L.own[a] ==> L.SharedEntry(L.own[a], a) || L.CodeEntry(L.own[a], a)
  {
    assert L.Within(L.own[a], a);
  }
}

