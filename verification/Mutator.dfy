/** What the program does to arrays between two collections: an array that is written to leaves its entry
    list for the list of modified arrays, and before the next collection the modified arrays are put on
    the entry list of the creation generation, where they record every reference the program made. */
module Mutator {
  import opened Heap
  import opened Seqs
  import opened Copying
  import opened Moving
  import opened Scanning
  import opened EntryLists
  import opened Remembered
  import opened Sweeping
  import opened Outcome
  import opened Aftermath
  import opened Steady
  import opened Areas
  import opened Relisting
  import opened Cycle
  import C = Collector

  // ---- Link words ----

  lemma LinkWord(L: Layout, n: int, i: int)
    requires L.ObjectsOk() && Separate(L) && Node(L, n) && (i == 1 || i == 2)
    ensures 0 < n && n + i < |L.m0|
    ensures if n in L.heads then n + i !in L.own else n + i in L.own && L.own[n + i] == n && L.Role(n + i) == Link
  {
    if n in L.heads {
      assert L.HeadWord(n, n) && L.HeadWord(n, n + i);
    } else {
      assert L.Within(n, n + i);
    }
  }

  /** Distinct link words of distinct nodes lie at distinct places. */
  lemma LinksApart(L: Layout, n: int, i: int, q: int, j: int)
    requires L.ObjectsOk() && Separate(L) && Node(L, n) && Node(L, q) && (i == 1 || i == 2) && (j == 1 || j == 2)
    requires n + i == q + j
    ensures n == q && i == j
  {
    hide L.ObjectsOk, Separate;
    LinkWord(L, n, i);
    LinkWord(L, q, j);
    if n in L.heads && q in L.heads && n != q {
      TwoHeads(L, n, q);
    }
  }

  lemma TwoHeads(L: Layout, n: int, q: int)
    requires Separate(L) && n in L.heads && q in L.heads && n != q
    ensures n + 2 < q || q + 2 < n
  {
    if n < q <= n + 2 {
      assert L.HeadWord(n, q);
    } else if q < n <= q + 2 {
      assert L.HeadWord(q, n);
    }
  }

  // ---- The two kinds of lists ----

  /** The array at `b` is on the list of modified arrays, before `next`. */
  ghost predicate Modified(L: Layout, T: Trail, m: seq<Word>, b: int, next: int) {
    L.Base(b) && IsArray(L.Was(b)) && b !in L.heads && b !in T.nxt && At(m, b + 1) == Null && At(m, b + 2) == Imm(next)
  }

  /** The arrays `s` are linked through their back links, and lie on no entry list. */
  ghost predicate Chained(L: Layout, T: Trail, m: seq<Word>, s: seq<int>) {
    Distinct(s) && forall i {:trigger s[i]} :: 0 <= i < |s| ==> Modified(L, T, m, s[i], Nth(s, i + 1))
  }

  ghost predicate Forward(T: Trail, m: seq<Word>, n: int) {
    n in T.nxt && At(m, n + 1) == Imm(T.nxt[n])
  }

  ghost predicate Back(T: Trail, m: seq<Word>, n: int) {
    n in T.prv && At(m, n + 2) == Imm(T.prv[n])
  }

  /** Every array is on an entry list, or among the modified ones `s`, or on none with links that say so. */
  ghost predicate AllLinked(L: Layout, T: Trail, m: seq<Word>, s: seq<int>) {
    && RingsOk(L, T) && Chained(L, T, m, s)
    && (forall n {:trigger Listed(T, n)} :: Listed(T, n) ==> Forward(T, m, n) && Back(T, m, n))
    && (forall b :: L.Base(b) && IsArray(L.Was(b)) && b !in T.nxt && b !in s ==> Unlisted(T, m, b))
  }

  /** The lists while modified arrays are being put in front of the list with head `e`: the links to and
      from its first array are not written yet. */
  ghost predicate Splicing(L: Layout, T: Trail, m: seq<Word>, s: seq<int>, e: int) {
    && RingsOk(L, T) && Chained(L, T, m, s) && e in T.nxt
    && (forall n {:trigger Listed(T, n)} :: Listed(T, n) ==>
          (n != e ==> Forward(T, m, n)) && (n != T.nxt[e] ==> Back(T, m, n)))
    && (forall b :: L.Base(b) && IsArray(L.Was(b)) && b !in T.nxt && b !in s ==> Unlisted(T, m, b))
  }

  /** `m1` is `m` with links `p` and `q` written at `x` and `y`. */
  ghost predicate TwoLinks(m: seq<Word>, m1: seq<Word>, x: int, p: int, y: int, q: int) {
    |m1| == |m| && forall z {:trigger At(m1, z)} :: At(m1, z) == if z == y then Imm(q) else if z == x then Imm(p)
      else At(m, z)
  }

  // ---- Splicing ----

  lemma NodeAt(L: Layout, T: Trail, n: int)
    requires RingsOk(L, T) && n in T.nxt
    ensures n in T.prv && T.nxt[n] in T.nxt && T.prv[n] in T.nxt && Node(L, n) && Node(L, T.nxt[n]) && Node(L, T.prv[n])
    ensures T.nxt[n] in T.prv && T.prv[T.nxt[n]] == n && T.nxt[T.prv[n]] == n
  {
    RingStep(L, T, n);
  }

  lemma ChainHead(L: Layout, T: Trail, m: seq<Word>, s: seq<int>)
    requires Chained(L, T, m, s) && s != []
    ensures Modified(L, T, m, s[0], Nth(s, 1)) && s[0] !in s[1..] && Distinct(s[1..])
    ensures forall b :: b in s <==> b == s[0] || b in s[1..]
  {
  }

  /** The modified arrays that are left stay chained when other link words are written. */
  lemma ChainStays(L: Layout, T: Trail, T1: Trail, m: seq<Word>, m1: seq<Word>, s: seq<int>, x: int, p: int, y: int,
                   q: int)
    requires Chained(L, T, m, s) && TwoLinks(m, m1, x, p, y, q)
    requires forall i {:trigger s[i]} :: 0 <= i < |s| ==>
             s[i] !in T1.nxt && s[i] + 1 != x && s[i] + 2 != x && s[i] + 1 != y && s[i] + 2 != y
    ensures Chained(L, T1, m1, s)
  {
    hide Distinct;
    forall i {:trigger s[i]} | 0 <= i < |s| ensures Modified(L, T1, m1, s[i], Nth(s, i + 1)) {
      assert Modified(L, T, m, s[i], Nth(s, i + 1));
    }
  }

  lemma ChainTail(L: Layout, T: Trail, m: seq<Word>, s: seq<int>)
    requires Chained(L, T, m, s) && s != []
    ensures Chained(L, T, m, s[1..])
  {
    hide Modified;
    var t := s[1..];
    forall i {:trigger t[i]} | 0 <= i < |t| ensures Modified(L, T, m, t[i], Nth(t, i + 1)) {
      assert Modified(L, T, m, s[i + 1], Nth(s, i + 2));
    }
  }

  /** The array at `b` and the array or head at `x` have their link words at distinct places. */
  lemma LinksOff(L: Layout, n: int, q: int)
    requires L.ObjectsOk() && Separate(L) && Node(L, n) && Node(L, q) && n != q
    ensures n + 1 != q + 1 && n + 1 != q + 2 && n + 2 != q + 1 && n + 2 != q + 2
  {
    hide L.ObjectsOk, Separate, Node;
    if n + 1 == q + 2 {
      LinksApart(L, n, 1, q, 2);
    }
    if n + 2 == q + 1 {
      LinksApart(L, n, 2, q, 1);
    }
  }

  lemma ChainOff(L: Layout, T: Trail, m: seq<Word>, s: seq<int>, q: int)
    requires L.ObjectsOk() && Separate(L) && Chained(L, T, m, s) && Node(L, q) && q !in s
    ensures forall i {:trigger s[i]} :: 0 <= i < |s| ==>
            s[i] + 1 != q + 1 && s[i] + 2 != q + 1 && s[i] + 1 != q + 2 && s[i] + 2 != q + 2
  {
    hide L.ObjectsOk, Separate, Distinct;
    forall i {:trigger s[i]} | 0 <= i < |s|
      ensures s[i] + 1 != q + 1 && s[i] + 2 != q + 1 && s[i] + 1 != q + 2 && s[i] + 2 != q + 2
    {
      assert Modified(L, T, m, s[i], Nth(s, i + 1));
      LinksOff(L, s[i], q);
    }
  }

  lemma NotInChain(L: Layout, T: Trail, m: seq<Word>, s: seq<int>, q: int)
    requires Chained(L, T, m, s) && q in T.nxt
    ensures q !in s
  {
  }

  lemma SpliceStarts(L: Layout, T: Trail, m: seq<Word>, s: seq<int>, e: int)
    requires AllLinked(L, T, m, s) && e in L.heads
    ensures Splicing(L, T, m, s, e) && Node(L, e) && Node(L, T.nxt[e]) && (T.nxt[e] in T.nxt)
  {
    hide Chained, RingsOk, Forward, Back;
    HeadListed(L, T, e);
    NodeAt(L, T, e);
    assert Listed(T, e);
  }

  /** A node keeps its links, or gets those of its place in the new ring. */
  lemma SpliceNode(L: Layout, T: Trail, m: seq<Word>, m1: seq<Word>, s: seq<int>, e: int, n: int)
    requires L.ObjectsOk() && Separate(L) && Splicing(L, T, m, s, e) && s != [] && e in L.heads && T.nxt[e] in T.nxt
    requires TwoLinks(m, m1, T.nxt[e] + 2, s[0], s[0] + 1, T.nxt[e]) && n in Insert(T, s[0], e).nxt
    ensures var T1 := Insert(T, s[0], e); (n != e ==> Forward(T1, m1, n)) && (n != T1.nxt[e] ==> Back(T1, m1, n))
  {
    hide L.ObjectsOk, Separate, RingsOk, Chained, Node, Distinct;
    var b, k := s[0], T.nxt[e];
    ChainHead(L, T, m, s);
    SpliceNodes(L, T, m, s, e);
    if n != b {
      NodeAt(L, T, n);
      assert Listed(T, n);
      LinksOff(L, n, b);
      if n != k {
        LinksOff(L, n, k);
      }
    }
  }

  lemma SpliceNodes(L: Layout, T: Trail, m: seq<Word>, s: seq<int>, e: int)
    requires Splicing(L, T, m, s, e) && s != [] && e in L.heads
    ensures var b, k := s[0], T.nxt[e];
            b != e && b != k && b !in T.nxt && k in T.nxt && e in T.nxt && Node(L, b) && Node(L, k) && Node(L, e)
    ensures L.Base(s[0]) && IsArray(L.Was(s[0])) && s[0] !in L.heads
  {
    hide Distinct, RingsOk;
    NodeAt(L, T, e);
    assert Modified(L, T, m, s[0], Nth(s, 1));
  }

  /** Putting the first of the modified arrays in front of the list. */
  lemma SpliceKeep(L: Layout, T: Trail, m: seq<Word>, m1: seq<Word>, s: seq<int>, e: int)
    requires L.ObjectsOk() && Separate(L) && Splicing(L, T, m, s, e) && s != [] && e in L.heads && T.fw == map[]
    requires TwoLinks(m, m1, T.nxt[e] + 2, s[0], s[0] + 1, T.nxt[e])
    ensures Splicing(L, Insert(T, s[0], e), m1, s[1..], e)
  {
    hide L.ObjectsOk, Separate, RingsOk, Node, Distinct, Forward, Back, Insert, Unlisted, Chained;
    var b, T1 := s[0], Insert(T, s[0], e);
    SpliceNodes(L, T, m, s, e);
    ChainHead(L, T, m, s);
    InsertRings(L, T, b, e);
    InsertKeys(T, b, e);
    forall n {:trigger Listed(T1, n)} | Listed(T1, n)
      ensures (n != e ==> Forward(T1, m1, n)) && (n != T1.nxt[e] ==> Back(T1, m1, n))
    {
      SpliceNode(L, T, m, m1, s, e, n);
    }
    SpliceChain(L, T, T1, m, m1, s, e);
    forall c | L.Base(c) && IsArray(L.Was(c)) && c !in T1.nxt && c !in s[1..] ensures Unlisted(T1, m1, c) {
      SpliceOff(L, T, m, m1, s, e, c);
    }
  }

  lemma SpliceChain(L: Layout, T: Trail, T1: Trail, m: seq<Word>, m1: seq<Word>, s: seq<int>, e: int)
    requires L.ObjectsOk() && Separate(L) && Splicing(L, T, m, s, e) && s != [] && e in L.heads
    requires TwoLinks(m, m1, T.nxt[e] + 2, s[0], s[0] + 1, T.nxt[e])
    requires forall n :: n in T1.nxt <==> n in T.nxt || n == s[0]
    ensures Chained(L, T1, m1, s[1..])
  {
    hide L.ObjectsOk, Separate, RingsOk, Node, Distinct, Forward, Back, Unlisted, TwoLinks, Chained, Modified;
    SpliceNodes(L, T, m, s, e);
    ChainHead(L, T, m, s);
    ChainTail(L, T, m, s);
    var t := s[1..];
    NotInChain(L, T, m, t, T.nxt[e]);
    ChainOff(L, T, m, t, s[0]);
    ChainOff(L, T, m, t, T.nxt[e]);
    forall i {:trigger t[i]} | 0 <= i < |t| ensures t[i] !in T1.nxt {
      ChainAt(L, T, m, t, i);
    }
    ChainStays(L, T, T1, m, m1, t, T.nxt[e] + 2, s[0], s[0] + 1, T.nxt[e]);
  }

  lemma ChainAt(L: Layout, T: Trail, m: seq<Word>, s: seq<int>, i: int)
    requires Chained(L, T, m, s) && 0 <= i < |s|
    ensures Modified(L, T, m, s[i], Nth(s, i + 1)) && s[i] !in T.nxt
  {
  }

  lemma SpliceOff(L: Layout, T: Trail, m: seq<Word>, m1: seq<Word>, s: seq<int>, e: int, c: int)
    requires L.ObjectsOk() && Separate(L) && Splicing(L, T, m, s, e) && s != [] && e in L.heads && T.fw == map[]
    requires TwoLinks(m, m1, T.nxt[e] + 2, s[0], s[0] + 1, T.nxt[e])
    requires L.Base(c) && IsArray(L.Was(c)) && c !in T.nxt && c != s[0] && c !in s[1..]
    ensures Unlisted(Insert(T, s[0], e), m1, c)
  {
    hide L.ObjectsOk, Separate, RingsOk, Distinct, Forward, Back, Chained;
    SpliceNodes(L, T, m, s, e);
    ChainHead(L, T, m, s);
    LinksOff(L, c, s[0]);
    LinksOff(L, c, T.nxt[e]);
    assert Unlisted(T, m, c);
  }

  /** Leaving the first of the modified arrays on no list. */
  lemma SpliceDrop(L: Layout, T: Trail, m: seq<Word>, m1: seq<Word>, s: seq<int>, e: int)
    requires L.ObjectsOk() && Separate(L) && Splicing(L, T, m, s, e) && s != [] && e in L.heads && T.fw == map[]
    requires TwoLinks(m, m1, s[0] + 1, 1, s[0] + 2, 0)
    ensures Splicing(L, T, m1, s[1..], e)
  {
    hide L.ObjectsOk, Separate, RingsOk, Node, Distinct, Chained, Modified;
    var b, t := s[0], s[1..];
    SpliceNodes(L, T, m, s, e);
    ChainHead(L, T, m, s);
    ChainTail(L, T, m, s);
    ChainOff(L, T, m, t, b);
    forall i {:trigger t[i]} | 0 <= i < |t| ensures t[i] !in T.nxt {
      ChainAt(L, T, m, t, i);
    }
    ChainStays(L, T, T, m, m1, t, b + 1, 1, b + 2, 0);
    forall n {:trigger Listed(T, n)} | Listed(T, n)
      ensures (n != e ==> Forward(T, m1, n)) && (n != T.nxt[e] ==> Back(T, m1, n))
    {
      NodeAt(L, T, n);
      LinksOff(L, n, b);
    }
    forall c | L.Base(c) && IsArray(L.Was(c)) && c !in T.nxt && c !in t ensures Unlisted(T, m1, c) {
      if c != b {
        assert Unlisted(T, m, c);
        ArrayNode(L, c);
        LinksOff(L, c, b);
      }
    }
  }

  /** Writing the links between the head and the first array completes the list. */
  lemma SpliceEnds(L: Layout, T: Trail, m: seq<Word>, m1: seq<Word>, e: int)
    requires L.ObjectsOk() && Separate(L) && Splicing(L, T, m, [], e) && e in L.heads && T.fw == map[]
    requires TwoLinks(m, m1, T.nxt[e] + 2, e, e + 1, T.nxt[e])
    ensures ThreadsOk(L, T, m1)
  {
    hide L.ObjectsOk, Separate, RingsOk, Node, Distinct, Chained;
    NodeAt(L, T, e);
    forall n {:trigger Threaded(T, m1, n)} | n in T.nxt ensures Threaded(T, m1, n) {
      NodeAt(L, T, n);
      assert Listed(T, n);
      if n != e {
        LinksOff(L, n, e);
      }
      if n != T.nxt[e] {
        LinksOff(L, n, T.nxt[e]);
      }
    }
    forall c | L.Base(c) && IsArray(L.Was(c)) && c !in T.nxt ensures Unlisted(T, m1, c) {
      assert Unlisted(T, m, c);
      ArrayNode(L, c);
      LinksOff(L, c, e);
      LinksOff(L, c, T.nxt[e]);
    }
    AssembleThreads(L, T, m1);
  }

  // ---- What the heap holds ----

  /** The memory `m1` is that of `L` but for links and for elements of the array `a`, which hold legal values. */
  ghost predicate Changed(L: Layout, m1: seq<Word>, a: int) {
    |m1| == |L.m0| && forall x {:trigger At(m1, x)} :: At(m1, x) == L.Was(x) || ChangedAt(L, m1, a, x)
  }

  ghost predicate ChangedAt(L: Layout, m1: seq<Word>, a: int, x: int) {
    if x in L.own then
      if L.own[x] == a && HoldsValue(L, x) then IsArray(L.Was(a)) && IsValue(At(m1, x)) && Sound(L, At(m1, x))
      else L.Role(x) == Link && At(m1, x).Imm?
    else x !in L.roots
  }

  lemma FirstUnchanged(L: Layout, m1: seq<Word>, a: int, b: int)
    requires L.ObjectsOk() && Changed(L, m1, a) && L.Base(b)
    ensures At(m1, b) == L.Was(b)
  {
    assert L.Within(b, b);
  }

  lemma SameShapes(L: Layout, m1: seq<Word>, a: int)
    requires L.ObjectsOk() && Changed(L, m1, a)
    ensures var N := L.(m0 := m1);
            && (forall b :: L.Base(b) ==> N.Was(b) == L.Was(b))
            && (forall x :: x in L.own ==> N.Role(x) == L.Role(x))
            && (forall x :: HoldsValue(N, x) <==> HoldsValue(L, x))
  {
    hide Changed, L.ObjectsOk;
    var N := L.(m0 := m1);
    forall b | L.Base(b) ensures N.Was(b) == L.Was(b) {
      FirstUnchanged(L, m1, a, b);
    }
    forall x | x in L.own ensures L.Base(L.own[x]) {
      OwnWithin(L, x);
    }
  }

  lemma ObjectsChanged(L: Layout, m1: seq<Word>, a: int)
    requires L.ObjectsOk() && Separate(L) && Changed(L, m1, a)
    ensures var N := L.(m0 := m1); N.ObjectsOk() && Separate(N)
  {
    hide ChangedAt;
    var N := L.(m0 := m1);
    SameShapes(L, m1, a);
    forall x | x in N.own ensures N.Within(N.own[x], x) && 0 < N.own[x] && N.own[x] % 2 == 0 && x < |m1| {
      assert L.Within(L.own[x], x);
    }
    forall b, x | N.Within(b, x) ensures x in N.own && N.own[x] == b {
      assert L.Base(b) && L.Within(b, x);
    }
    forall b | N.Base(b) ensures IsFirstWord(N.Was(b)) && b in N.tag && TagFits(N.Was(b), N.tag[b]) {
      assert L.Base(b);
    }
    forall e, x | N.HeadWord(e, x) ensures 0 < x < |N.m0| && x !in N.own && x !in N.roots && (x in N.heads ==> x == e) {
      assert L.HeadWord(e, x);
    }
  }

  lemma PlainUnchanged(L: Layout, m1: seq<Word>, a: int, x: int)
    requires L.ObjectsOk() && Changed(L, m1, a) && x in L.own && !IsArray(L.Was(L.own[x]))
    ensures At(m1, x) == L.Was(x)
  {
    assert L.Within(L.own[x], x);
  }

  /** Legal targets stay legal: changes are made in arrays only. */
  lemma TargetChanged(L: Layout, m1: seq<Word>, a: int, t: Tag, x: int)
    requires L.ObjectsOk() && Changed(L, m1, a) && L.Target(t, x)
    ensures L.(m0 := m1).Target(t, x)
  {
    hide Changed, L.ObjectsOk;
    var N, b := L.(m0 := m1), L.own[x];
    TargetFacts(L, t, x);
    FirstUnchanged(L, m1, a, b);
    if x != b {
      if L.SharedEntry(b, x) {
        forall y | b < y <= x && (y - b) % 2 == 0 ensures N.Was(y) == Null {
          WithinTarget(L, t, x, y);
          PlainUnchanged(L, m1, a, y);
        }
      } else {
        PlainUnchanged(L, m1, a, x);
      }
    }
  }

  lemma WithinTarget(L: Layout, t: Tag, x: int, y: int)
    requires L.ObjectsOk() && L.Target(t, x) && L.own[x] <= y <= x
    ensures y in L.own && L.own[y] == L.own[x]
  {
    assert L.Within(L.own[x], x);
    assert L.Within(L.own[x], y);
  }

  lemma SoundChanged(L: Layout, m1: seq<Word>, a: int, w: Word)
    requires L.ObjectsOk() && Changed(L, m1, a) && Sound(L, w)
    ensures Sound(L.(m0 := m1), w)
  {
    hide Changed, L.ObjectsOk;
    if Collectable(L, w) {
      TargetChanged(L, m1, a, w.tag, w.addr);
    }
  }

  lemma ValueChanged(L: Layout, m1: seq<Word>, a: int, x: int)
    requires L.ObjectsOk() && SoundHeap(L) && Filled(L) && Changed(L, m1, a) && HoldsValue(L, x)
    ensures IsValue(At(m1, x)) && Sound(L.(m0 := m1), At(m1, x))
  {
    hide L.ObjectsOk, Sound;
    assert IsValue(L.Was(x)) && Sound(L, L.Was(x));
    assert At(m1, x) == L.Was(x) || ChangedAt(L, m1, a, x);
    SoundChanged(L, m1, a, At(m1, x));
  }

  lemma LinksChanged(L: Layout, m1: seq<Word>, a: int)
    requires L.ObjectsOk() && Filled(L) && Changed(L, m1, a)
    ensures forall x :: x in L.own && (L.Role(x) == Link || L.Role(x) == Pad) ==> At(m1, x).Imm?
    ensures forall x :: x in L.roots && x !in L.own ==> At(m1, x) == L.Was(x)
  {
  }

  lemma ContentsChanged(L: Layout, m1: seq<Word>, a: int)
    requires L.ObjectsOk() && Separate(L) && SoundHeap(L) && Filled(L) && Changed(L, m1, a)
    ensures var N := L.(m0 := m1); SoundHeap(N) && Filled(N)
  {
    SameShapes(L, m1, a);
    LinksChanged(L, m1, a);
    assert forall x :: x in L.roots ==> x !in L.own;
    hide L.ObjectsOk, Separate, Changed, Sound, HoldsValue, IsValue;
    var N := L.(m0 := m1);
    forall x {:trigger HoldsValue(N, x)} | HoldsValue(N, x) ensures IsValue(N.Was(x)) && Sound(N, N.Was(x)) {
      ValueChanged(L, m1, a, x);
    }
    forall x | x in N.roots ensures IsValue(N.Was(x)) && Sound(N, N.Was(x)) {
      SoundChanged(L, m1, a, L.Was(x));
    }
  }

  lemma OrderlyChanged(L: Layout, m1: seq<Word>, a: int, A: Ages, home: map<int, int>, U: set<int>)
    requires L.ObjectsOk() && Changed(L, m1, a) && Orderly(L, A, home, U) && (a in L.own ==> a in U)
    ensures Orderly(L.(m0 := m1), A, home, U)
  {
    SameShapes(L, m1, a);
    hide L.ObjectsOk, AgesOk, HoldsValue, Noted, WeakNoted, Placed;
    var N := L.(m0 := m1);
    SameAges(L, m1, A);
    forall c | c in N.own ensures Placed(N, A, c) {
      PlacedChanged(L, m1, A, c);
    }
    forall c {:trigger HoldsValue(N, c)} | HoldsValue(N, c) && N.own[c] !in U
      ensures c in N.own && Noted(N, A, home, c)
    {
      HoldsOwned(N, c);
      assert HoldsValue(L, c);
      NotedChanged(L, m1, a, A, home, c);
    }
    forall b {:trigger WeakNoted(N, A, home, b)} | b !in U ensures WeakNoted(N, A, home, b) {
      assert WeakNoted(L, A, home, b);
      WeakChanged(L, m1, A, home, b);
    }
  }

  lemma SameAges(L: Layout, m1: seq<Word>, A: Ages)
    requires AgesOk(L, A)
    ensures AgesOk(L.(m0 := m1), A)
  {
    forall b | L.(m0 := m1).Base(b) ensures L.Base(b) {
    }
  }

  lemma PlacedChanged(L: Layout, m1: seq<Word>, A: Ages, c: int)
    requires c in L.own && Placed(L, A, c)
    ensures Placed(L.(m0 := m1), A, c)
  {
  }

  lemma WeakChanged(L: Layout, m1: seq<Word>, A: Ages, home: map<int, int>, b: int)
    requires WeakNoted(L, A, home, b) && (L.Base(b) ==> At(m1, b) == L.Was(b))
    ensures WeakNoted(L.(m0 := m1), A, home, b)
  {
  }

  lemma NotedChanged(L: Layout, m1: seq<Word>, a: int, A: Ages, home: map<int, int>, c: int)
    requires L.ObjectsOk() && Changed(L, m1, a) && HoldsValue(L, c) && L.own[c] != a && Noted(L, A, home, c)
    ensures Noted(L.(m0 := m1), A, home, c)
  {
    OwnWithin(L, c);
    FirstUnchanged(L, m1, a, L.own[c]);
    hide L.ObjectsOk;
    assert At(m1, c) == L.Was(c) || ChangedAt(L, m1, a, c);
  }

  /** The heap with changed links and elements is as good as before if the lists are. */
  lemma HeapChanged(L: Layout, m1: seq<Word>, a: int, A: Ages, home: map<int, int>, U: set<int>)
    requires HeapOk(L, A, home, U) && Changed(L, m1, a) && (a in L.own ==> a in U)
    ensures HeapOk(L.(m0 := m1), A, home, U)
  {
    hide L.ObjectsOk, Separate, SoundHeap, Filled, Orderly, Changed, AreasOk;
    ObjectsChanged(L, m1, a);
    ContentsChanged(L, m1, a);
    AreasChanged(L, m1, a, A);
    OrderlyChanged(L, m1, a, A, home, U);
  }

  lemma AreasChanged(L: Layout, m1: seq<Word>, a: int, A: Ages)
    requires L.ObjectsOk() && Changed(L, m1, a) && AreasOk(L, A)
    ensures AreasOk(L.(m0 := m1), A)
  {
    hide L.ObjectsOk, Changed, AreasOk;
    SameShapes(L, m1, a);
    forall x | x in L.own ensures L.Base(L.own[x]) {
      OwnWithin(L, x);
    }
    AreasSame(L, L.(m0 := m1), A);
  }

  // ---- What the lists record ----

  /** An array that was written to need not be on an entry list. */
  lemma OrderlyUpdated(L: Layout, A: Ages, home: map<int, int>, U: set<int>, a: int)
    requires Orderly(L, A, home, U)
    ensures Orderly(L, A, home - {a}, U + {a})
  {
    hide AgesOk, Placed;
    forall c {:trigger HoldsValue(L, c)} | HoldsValue(L, c) && L.own[c] !in U + {a} ensures Noted(L, A, home - {a}, c) {
      assert Noted(L, A, home, c);
    }
    forall b {:trigger WeakNoted(L, A, home - {a}, b)} | b !in U + {a} ensures WeakNoted(L, A, home - {a}, b) {
      assert WeakNoted(L, A, home, b);
    }
  }

  /** `creation` is the youngest generation and all its objects are in its space. */
  ghost predicate YoungestGen(L: Layout, A: Ages, creation: int) {
    && creation in A.gens && (forall g :: g in A.gens ==> A.Number(creation) <= A.Number(g))
    && (forall a :: a / SPACE_WORDS == A.gens[creation].space ==> GenAt(L, A, a) == creation)
  }

  /** Which modified arrays get on the entry list: those outside the creation space, and weak ones. */
  ghost predicate Keeps(L: Layout, A: Ages, creation: int, b: int) {
    creation in A.gens && (b / SPACE_WORDS != A.gens[creation].space || WeakHeader(L.Was(b)))
  }

  lemma WordGenKnown(L: Layout, A: Ages, w: Word)
    requires AgesOk(L, A) && L.ObjectsOk() && Separate(L) && Sound(L, w) && Collectable(L, w)
    ensures WordGen(L, A, w) in A.gens
  {
    if L.Type(w.addr) == MlStatic {
      OwnWithin(L, w.addr);
    }
  }

  lemma OwnerKnown(L: Layout, A: Ages, b: int)
    requires AgesOk(L, A) && L.Base(b)
    ensures GenAt(L, A, b) in A.gens
  {
  }

  /** What a modified array refers to is recorded by its being on the list of the youngest generation, or
      needs no record if the array is in that generation itself. */
  lemma NotedMoved(L: Layout, A: Ages, home: map<int, int>, creation: int, c: int)
    requires AgesOk(L, A) && YoungestGen(L, A, creation) && L.ObjectsOk() && Separate(L) && HoldsValue(L, c)
    requires Sound(L, L.Was(c)) && IsArray(L.Was(L.own[c]))
    requires if Keeps(L, A, creation, L.own[c]) then L.own[c] in home && home[L.own[c]] == creation else true
    ensures Noted(L, A, home, c)
  {
    hide L.ObjectsOk, Separate, AgesOk, Sound;
    if Collectable(L, L.Was(c)) {
      WordGenKnown(L, A, L.Was(c));
      OwnWithin(L, c);
      OwnerKnown(L, A, L.own[c]);
    }
  }

  /** With the modified arrays on the list of the youngest generation the entry lists record everything. */
  lemma OrderlyMoved(L: Layout, A: Ages, home: map<int, int>, home1: map<int, int>, U: set<int>, creation: int)
    requires Orderly(L, A, home, U) && YoungestGen(L, A, creation) && SoundHeap(L) && L.ObjectsOk() && Separate(L)
    requires forall b {:trigger SameHome(home, home1, b)} :: b !in U ==> SameHome(home, home1, b)
    requires forall b :: b in U ==>
             L.Base(b) && IsArray(L.Was(b)) && if Keeps(L, A, creation, b) then b in home1 && home1[b] == creation
             else b !in home1
    ensures Orderly(L, A, home1, {})
  {
    hide AgesOk, Placed, L.ObjectsOk, Separate, Sound, HoldsValue, Keeps, GenAt;
    forall c {:trigger HoldsValue(L, c)} | HoldsValue(L, c) ensures c in L.own && Noted(L, A, home1, c) {
      HoldsOwned(L, c);
      if L.own[c] in U {
        NotedMoved(L, A, home1, creation, c);
      } else {
        assert Noted(L, A, home, c) && SameHome(home, home1, L.own[c]);
      }
    }
    forall b {:trigger WeakNoted(L, A, home1, b)} ensures WeakNoted(L, A, home1, b) {
      if b in U {
        WeakMoved(L, A, home1, creation, b);
      } else {
        assert WeakNoted(L, A, home, b) && SameHome(home, home1, b);
      }
    }
    forall b | b in home1 ensures home1[b] in A.gens {
      if b !in U {
        assert SameHome(home, home1, b);
      }
    }
  }

  lemma WeakMoved(L: Layout, A: Ages, home: map<int, int>, creation: int, b: int)
    requires AgesOk(L, A) && YoungestGen(L, A, creation)
    requires Keeps(L, A, creation, b) ==> b in home && home[b] == creation
    ensures WeakNoted(L, A, home, b)
  {
    hide AgesOk;
    if L.Base(b) {
      OwnerKnown(L, A, b);
    }
  }

  // ---- Modifying an array ----

  /** As `AllLinked`, but nothing is known of the links of the array `b`. */
  ghost predicate AllBut(L: Layout, T: Trail, m: seq<Word>, s: seq<int>, b: int) {
    && RingsOk(L, T) && Chained(L, T, m, s) && b !in T.nxt && b !in s && b !in L.heads
    && (forall n {:trigger Listed(T, n)} :: Listed(T, n) ==> Forward(T, m, n) && Back(T, m, n))
    && (forall c :: L.Base(c) && IsArray(L.Was(c)) && c !in T.nxt && c !in s && c != b ==> Unlisted(T, m, c))
  }

  /** What the links of an array say about where it is. */
  lemma WhereItIs(L: Layout, T: Trail, m: seq<Word>, s: seq<int>, b: int)
    requires AllLinked(L, T, m, s) && L.ObjectsOk() && Separate(L) && L.Base(b) && IsArray(L.Was(b)) && T.fw == map[]
    ensures b in s <==> At(m, b + 1) == Null
    ensures b !in s ==> (b in T.nxt <==> At(m, b + 2) != Null)
    ensures b !in L.heads && 0 < b && b + 2 < |L.m0| && (b in s ==> b !in T.nxt)
    ensures b !in s && b !in T.nxt ==> AllBut(L, T, m, s, b)
  {
    hide L.ObjectsOk, RingsOk, Distinct;
    ArrayNode(L, b);
    NoHead(L, b);
    LinkWord(L, b, 2) by { ArrayNode(L, b); }
    if b in T.nxt {
      assert Listed(T, b);
      NodeRange(L, T, b);
      NotInChain(L, T, m, s, b);
    } else if b in s {
      var i :| 0 <= i < |s| && s[i] == b;
      ChainAt(L, T, m, s, i);
    } else {
      assert Unlisted(T, m, b);
    }
  }

  lemma NoHead(L: Layout, b: int)
    requires Separate(L) && L.Base(b)
    ensures b !in L.heads
  {
    if b in L.heads {
      assert L.HeadWord(b, b);
    }
  }

  lemma CutNode(L: Layout, T: Trail, m: seq<Word>, m1: seq<Word>, s: seq<int>, b: int, n: int)
    requires L.ObjectsOk() && Separate(L) && AllLinked(L, T, m, s) && b in T.nxt && b in T.prv && T.nxt[b] in T.nxt
    requires b !in L.heads && T.fw == map[]
    requires Skips(T, m, m1, b) && n in T.nxt && n != b
    ensures var T1 := Remove(T, b); Forward(T1, m1, n) && Back(T1, m1, n)
  {
    hide L.ObjectsOk, Separate, RingsOk, Node, Chained;
    NodeAt(L, T, b);
    NodeAt(L, T, n);
    assert Listed(T, n);
    if n != T.prv[b] {
      LinksOff(L, n, T.prv[b]);
    }
    if n != T.nxt[b] {
      LinksOff(L, n, T.nxt[b]);
    }
  }

  /** Taking an array off its entry list. */
  lemma CutOff(L: Layout, T: Trail, m: seq<Word>, m1: seq<Word>, s: seq<int>, b: int)
    requires L.ObjectsOk() && Separate(L) && AllLinked(L, T, m, s) && b in T.nxt && b in T.prv && T.nxt[b] in T.nxt
    requires b !in L.heads && T.fw == map[]
    requires Skips(T, m, m1, b)
    ensures AllBut(L, Remove(T, b), m1, s, b)
  {
    hide L.ObjectsOk, Separate, RingsOk, Node, Chained, Forward, Back, Remove, Skips;
    var T1 := Remove(T, b);
    RemoveRings(L, T, b);
    RemoveKeys(T, b);
    NotInChain(L, T, m, s, b);
    forall n {:trigger Listed(T1, n)} | Listed(T1, n) ensures Forward(T1, m1, n) && Back(T1, m1, n) {
      CutNode(L, T, m, m1, s, b, n);
    }
    CutChain(L, T, T1, m, m1, s, b);
    forall c | L.Base(c) && IsArray(L.Was(c)) && c !in T1.nxt && c !in s && c != b ensures Unlisted(T1, m1, c) {
      assert Unlisted(T, m, c);
      ArrayNode(L, c);
      CutElsewhere(L, T, m, m1, b, c);
      RemoveFw(T, b);
    }
  }

  lemma RemoveKeys(T: Trail, b: int)
    requires b in T.nxt && b in T.prv
    ensures forall n :: n in Remove(T, b).nxt <==> n in T.nxt && n != b
  {
  }

  /** Cutting an array off its list writes no link of an array that is on none. */
  lemma CutElsewhere(L: Layout, T: Trail, m: seq<Word>, m1: seq<Word>, b: int, c: int)
    requires L.ObjectsOk() && Separate(L) && RingsOk(L, T) && b in T.nxt && b in T.prv && Skips(T, m, m1, b)
    requires Node(L, c) && c !in T.nxt
    ensures At(m1, c + 1) == At(m, c + 1) || T.fw != map[]
    ensures At(m1, c + 2) == At(m, c + 2) || T.fw != map[]
  {
    hide L.ObjectsOk, Separate, RingsOk, Node;
    NodeAt(L, T, b);
    LinksOff(L, c, T.prv[b]);
    LinksOff(L, c, T.nxt[b]);
  }

  lemma CutChain(L: Layout, T: Trail, T1: Trail, m: seq<Word>, m1: seq<Word>, s: seq<int>, b: int)
    requires L.ObjectsOk() && Separate(L) && RingsOk(L, T) && b in T.nxt && b in T.prv && Skips(T, m, m1, b)
    requires Chained(L, T, m, s) && T.fw == map[]
    requires forall n :: n in T1.nxt ==> n in T.nxt
    ensures Chained(L, T1, m1, s)
  {
    hide L.ObjectsOk, Separate, RingsOk, Node, Distinct, Skips;
    forall i {:trigger s[i]} | 0 <= i < |s| ensures Modified(L, T1, m1, s[i], Nth(s, i + 1)) {
      assert Modified(L, T, m, s[i], Nth(s, i + 1));
      ArrayNode(L, s[i]);
      CutElsewhere(L, T, m, m1, b, s[i]);
    }
  }

  lemma PushChain(L: Layout, T: Trail, m: seq<Word>, m1: seq<Word>, s: seq<int>, b: int)
    requires L.ObjectsOk() && Separate(L) && Chained(L, T, m, s) && b !in T.nxt && b !in s && b !in L.heads && L.Base(b)
    requires IsArray(L.Was(b))
    requires TwoLinks(m, m1, b + 1, 0, b + 2, Nth(s, 0))
    ensures Chained(L, T, m1, [b] + s)
  {
    hide L.ObjectsOk, Separate, Node, Distinct;
    ArrayNode(L, b);
    var t := [b] + s;
    PushDistinct(s, b);
    ChainOff(L, T, m, s, b);
    forall i {:trigger t[i]} | 0 <= i < |t| ensures Modified(L, T, m1, t[i], Nth(t, i + 1)) {
      if i > 0 {
        assert Modified(L, T, m, s[i - 1], Nth(s, i));
      }
    }
  }

  /** Putting the array `b` on the list of modified arrays. */
  lemma Push(L: Layout, T: Trail, m: seq<Word>, m1: seq<Word>, s: seq<int>, b: int)
    requires L.ObjectsOk() && Separate(L) && AllBut(L, T, m, s, b) && L.Base(b) && IsArray(L.Was(b)) && T.fw == map[]
    requires TwoLinks(m, m1, b + 1, 0, b + 2, Nth(s, 0))
    ensures AllLinked(L, T, m1, [b] + s)
  {
    hide L.ObjectsOk, Separate, RingsOk, Node, Chained;
    ArrayNode(L, b);
    PushChain(L, T, m, m1, s, b);
    forall n {:trigger Listed(T, n)} | Listed(T, n) ensures Forward(T, m1, n) && Back(T, m1, n) {
      NodeAt(L, T, n);
      LinksOff(L, n, b);
    }
    forall c | L.Base(c) && IsArray(L.Was(c)) && c !in T.nxt && c !in [b] + s ensures Unlisted(T, m1, c) {
      assert Unlisted(T, m, c);
      ArrayNode(L, c);
      LinksOff(L, c, b);
    }
  }

  lemma PushDistinct(s: seq<int>, b: int)
    requires Distinct(s) && b !in s
    ensures Distinct([b] + s)
  {
  }

  /** The lists do not depend on what the elements of arrays are. */
  lemma LinkedShape(L: Layout, T: Trail, m: seq<Word>, m1: seq<Word>, s: seq<int>, a: int, x: int)
    requires L.ObjectsOk() && Separate(L) && AllLinked(L, T, m, s) && Changed(L, m1, a) && T.fw == map[]
    requires |m1| == |m| && HoldsValue(L, x) && forall z {:trigger At(m1, z)} :: z != x ==> At(m1, z) == At(m, z)
    ensures AllLinked(L.(m0 := m1), T, m1, s)
  {
    SameShapes(L, m1, a);
    hide L.ObjectsOk, Separate, Distinct, Changed;
    var N := L.(m0 := m1);
    RingsShape(L, N, T);
    hide RingsOk;
    forall i {:trigger s[i]} | 0 <= i < |s| ensures Modified(N, T, m1, s[i], Nth(s, i + 1)) {
      assert Modified(L, T, m, s[i], Nth(s, i + 1));
      ArrayNode(L, s[i]);
      NoLink(L, s[i], x);
    }
    forall n {:trigger Listed(T, n)} | Listed(T, n) ensures Forward(T, m1, n) && Back(T, m1, n) {
      NodeAt(L, T, n);
      NoLink(L, n, x);
    }
    forall c | N.Base(c) && IsArray(N.Was(c)) && c !in T.nxt && c !in s ensures Unlisted(T, m1, c) {
      assert L.Base(c);
      assert Unlisted(T, m, c);
      ArrayNode(L, c);
      NoLink(L, c, x);
    }
  }

  lemma NoLink(L: Layout, n: int, x: int)
    requires L.ObjectsOk() && Separate(L) && Node(L, n) && HoldsValue(L, x)
    ensures x != n + 1 && x != n + 2
  {
    hide L.ObjectsOk, Separate;
    LinkWord(L, n, 1);
    LinkWord(L, n, 2);
  }

  lemma NodeRange(L: Layout, T: Trail, n: int)
    requires L.ObjectsOk() && Separate(L) && RingsOk(L, T) && n in T.nxt
    ensures n in T.prv && 0 < n && n + 2 < |L.m0| && 0 < T.nxt[n] && T.nxt[n] + 2 < |L.m0| && 0 < T.prv[n]
    ensures T.prv[n] + 2 < |L.m0|
  {
    hide L.ObjectsOk, Separate, RingsOk, Node;
    NodeAt(L, T, n);
    LinkWord(L, n, 2);
    LinkWord(L, T.nxt[n], 2);
    LinkWord(L, T.prv[n], 2);
  }

  // ---- Arrays between collections ----

  /** A link may be written where a node has one. */
  lemma LinkWritten(L: Layout, m1: seq<Word>, a: int, n: int, i: int)
    requires L.ObjectsOk() && Separate(L) && Node(L, n) && (i == 1 || i == 2) && At(m1, n + i).Imm?
    ensures ChangedAt(L, m1, a, n + i)
  {
    LinkWord(L, n, i);
    if n in L.heads {
      assert L.HeadWord(n, n + i);
    }
  }

  lemma CutChanged(L: Layout, T: Trail, m: seq<Word>, m1: seq<Word>, a: int, b: int)
    requires L.ObjectsOk() && Separate(L) && RingsOk(L, T) && b in T.nxt && b in T.prv && Skips(T, m, m1, b)
    requires Changed(L, m, a) && T.fw == map[]
    ensures Changed(L, m1, a)
  {
    hide L.ObjectsOk, Separate, RingsOk, Node;
    NodeAt(L, T, b);
    LinkWritten(L, m1, a, T.prv[b], 1);
    LinkWritten(L, m1, a, T.nxt[b], 2);
    forall x {:trigger At(m1, x)} ensures At(m1, x) == L.Was(x) || ChangedAt(L, m1, a, x) {
      if At(m1, x) == At(m, x) {
        assert At(m, x) == L.Was(x) || ChangedAt(L, m, a, x);
      }
    }
  }

  lemma TwoChanged(L: Layout, m: seq<Word>, m1: seq<Word>, a: int, n: int, i: int, p: int, q: int, j: int, r: int)
    requires L.ObjectsOk() && Separate(L) && Changed(L, m, a) && Node(L, n) && Node(L, q) && (i == 1 || i == 2)
    requires j == 1 || j == 2
    requires TwoLinks(m, m1, n + i, p, q + j, r)
    ensures Changed(L, m1, a)
  {
    hide L.ObjectsOk, Separate, Node;
    LinkWritten(L, m1, a, n, i);
    LinkWritten(L, m1, a, q, j);
    forall x {:trigger At(m1, x)} ensures At(m1, x) == L.Was(x) || ChangedAt(L, m1, a, x) {
      if At(m1, x) == At(m, x) {
        assert At(m, x) == L.Was(x) || ChangedAt(L, m, a, x);
      }
    }
  }

  lemma ElementChanged(L: Layout, m: seq<Word>, m1: seq<Word>, a: int, x: int)
    requires L.ObjectsOk() && Changed(L, m, a) && |m1| == |m| && L.Base(a) && IsArray(L.Was(a)) && L.Within(a, x)
    requires HoldsValue(L, x)
    requires IsValue(At(m1, x)) && Sound(L, At(m1, x))
    requires forall z {:trigger At(m1, z)} :: z != x ==> At(m1, z) == At(m, z)
    ensures Changed(L, m1, a)
  {
    hide L.ObjectsOk, Sound;
    WithinFrom(L, a, x);
    forall z {:trigger At(m1, z)} ensures At(m1, z) == L.Was(z) || ChangedAt(L, m1, a, z) {
      if z != x {
        assert At(m, z) == L.Was(z) || ChangedAt(L, m, a, z);
      }
    }
  }

  /** The elements of an array hold values. */
  lemma ElementWord(L: Layout, a: int, i: nat)
    requires L.ObjectsOk() && L.Base(a) && IsArray(L.Was(a)) && i < L.Was(a).len
    ensures L.Within(a, a + 3 + i) && HoldsValue(L, a + 3 + i) && a + 3 + i < |L.m0| && L.own[a + 3 + i] == a
  {
    assert L.Within(a, a + 3 + i);
  }

  lemma UpdatedNow(s: seq<int>, b: int)
    ensures Elements(if b in s then s else [b] + s) == Elements(s) + {b}
  {
  }

  lemma ChangedLength(L: Layout, m: seq<Word>, a: int)
    requires Changed(L, m, a)
    ensures |m| == |L.m0|
  {
  }

  lemma NothingChanged(L: Layout)
    ensures Changed(L, L.m0, 0)
  {
  }

  /** Where only links have changed, no element has: there is no object at 0. */
  lemma LinksOnlyChanged(L: Layout, m: seq<Word>, a: int)
    requires L.ObjectsOk() && Changed(L, m, 0)
    ensures Changed(L, m, a) && forall x :: x in L.own && L.Role(x) != Link ==> At(m, x) == L.Was(x)
  {
    forall x | x in L.own ensures L.own[x] != 0 {
    }
    forall x {:trigger At(m, x)} ensures At(m, x) == L.Was(x) || ChangedAt(L, m, a, x) {
      assert At(m, x) == L.Was(x) || ChangedAt(L, m, 0, x);
    }
  }

  /** No word but links and the one at `x` has changed. */
  ghost predicate SameBut(L: Layout, m1: seq<Word>, x: int) {
    forall y :: y in L.own && L.Role(y) != Link && y != x ==> At(m1, y) == L.Was(y)
  }

  lemma RestUnchanged(L: Layout, m: seq<Word>, m1: seq<Word>, a: int, x: int)
    requires L.ObjectsOk() && Changed(L, m1, a) && forall y :: y in L.own && L.Role(y) != Link ==> At(m, y) == L.Was(y)
    requires forall z {:trigger At(m1, z)} :: z != x ==> At(m1, z) == At(m, z)
    ensures SameBut(L, m1, x)
  {
  }

  lemma YoungestChanged(L: Layout, m1: seq<Word>, A: Ages, creation: int)
    requires YoungestGen(L, A, creation)
    ensures YoungestGen(L.(m0 := m1), A, creation)
  {
    var N := L.(m0 := m1);
    forall a ensures GenAt(N, A, a) == GenAt(L, A, a) {
    }
  }

  lemma ListedHome(L: Layout, T: Trail, lists: map<int, seq<int>>, home: map<int, int>, b: int)
    requires ListsOk(L, T, lists, home) && b in T.nxt && b !in L.heads
    ensures b in home && home[b] in lists && b in lists[home[b]]
  {
  }

  lemma ListedOnly(L: Layout, T: Trail, lists: map<int, seq<int>>, home: map<int, int>)
    requires ListsOk(L, T, lists, home)
    ensures forall b :: b in home ==> b in T.nxt
  {
  }

  /** The modified arrays `s` that get on the entry list, the last one first, in front of `onto`. */
  ghost function Spliced(L: Layout, A: Ages, creation: int, s: seq<int>, onto: seq<int>): seq<int> {
    if s == [] then onto else Spliced(L, A, creation, s[1..], if Keeps(L, A, creation, s[0]) then [s[0]] + onto
      else onto)
  }

  /** The list `s` ends with `t`. */
  ghost predicate OnFront(s: seq<int>, t: seq<int>) {
    |t| <= |s| && s[|s| - |t|..] == t
  }

  /** Which arrays get on the list: those outside the creation space and the weak ones, in front of those on it. */
  lemma {:induction false} SplicedHolds(L: Layout, A: Ages, creation: int, s: seq<int>, onto: seq<int>)
    ensures OnFront(Spliced(L, A, creation, s, onto), onto)
    ensures creation in A.gens ==> forall b :: b in Spliced(L, A, creation, s, onto) <==>
              b in onto || (b in s && (b / SPACE_WORDS != A.gens[creation].space || WeakHeader(L.Was(b))))
  {
    if s != [] {
      var onto1 := if Keeps(L, A, creation, s[0]) then [s[0]] + onto else onto;
      SplicedHolds(L, A, creation, s[1..], onto1);
      var r := Spliced(L, A, creation, s[1..], onto1);
      assert r[|r| - |onto1|..][|onto1| - |onto|..] == onto;
    }
  }

  /** The first of the modified arrays `done` have got their places: those to be kept on the list of `creation`. */
  ghost predicate Homed(L: Layout, A: Ages, creation: int, home0: map<int, int>, home: map<int, int>, s: seq<int>,
                        rest: seq<int>) {
    && (forall b {:trigger SameHome(home0, home, b)} :: b !in s || b in rest ==> SameHome(home0, home, b))
    && (forall b :: b in s && b !in rest ==> if Keeps(L, A, creation, b) then b in home && home[b] == creation
          else b !in home)
  }

  lemma HomedMore(L: Layout, A: Ages, creation: int, home0: map<int, int>, home: map<int, int>, s: seq<int>,
                  rest: seq<int>)
    requires Homed(L, A, creation, home0, home, s, rest) && rest != [] && Distinct(rest)
    requires !Keeps(L, A, creation, rest[0]) ==> rest[0] !in home
    ensures Homed(L, A, creation, home0, if Keeps(L, A, creation, rest[0]) then home[rest[0] := creation]
            else home, s, rest[1..]) || rest[0] !in s
  {
    hide Keeps;
    var home1 := if Keeps(L, A, creation, rest[0]) then home[rest[0] := creation] else home;
    assert rest[0] !in rest[1..];
    forall b {:trigger SameHome(home0, home1, b)} | b !in s || b in rest[1..]
      ensures SameHome(home0, home1, b) || rest[0] !in s
    {
      assert SameHome(home0, home, b);
    }
  }

  lemma HomedAll(L: Layout, A: Ages, creation: int, home: map<int, int>, s: seq<int>)
    ensures Homed(L, A, creation, home, home, s, s)
  {
  }

  class Mutator {
    const mem: array<Word>
    const creation: int               // the head of the entry list of the creation generation
    const ages: Ages
    var modified: int                 // the first of the modified arrays, or 0
    ghost var L: Layout
    ghost var T: Trail
    ghost var lists: map<int, seq<int>>
    ghost var home: map<int, int>
    ghost var updated: seq<int>       // the modified arrays

    /** The lists are linked as they should be. */
    ghost predicate Lists()
      reads this, mem
    {
      Untouched(T) && AllLinked(L, T, mem[..], updated) && ListsOk(L, T, lists, home) && modified == Nth(updated, 0)
    }

    ghost predicate Valid()
      reads this, mem
    {
      L.m0 == mem[..] && HeapOk(L, ages, home, Elements(updated)) && YoungestGen(L, ages, creation) && Lists()
    }

    /** A heap as a collection or `move_modified_list` leaves it, in which nothing has been modified yet. */
    constructor (mem: array<Word>, creation: int, ages: Ages, ghost L: Layout, ghost T: Trail,
                 ghost lists: map<int, seq<int>>, ghost home: map<int, int>)
      requires L.m0 == mem[..] && HeapOk(L, ages, home, {}) && YoungestGen(L, ages, creation)
      requires Untouched(T) && ThreadsOk(L, T, mem[..]) && ListsOk(L, T, lists, home)
      ensures Valid() && updated == [] && fresh(this)
      ensures this.mem == mem && this.creation == creation && this.ages == ages && this.L == L && this.T == T
      ensures this.lists == lists && this.home == home
    {
      this.mem, this.creation, this.ages, modified := mem, creation, ages, 0;
      this.L, this.T, this.lists, this.home, updated := L, T, lists, home, [];
      new;
      ThreadsLinked(L, T, mem[..]);
      assert Elements([]) == {};
    }

    /** The links of the array at `arr` to its neighbours on its entry list are cut. */
    method Unlink(arr: int)
      requires Lists() && L.ObjectsOk() && Separate(L) && |L.m0| == mem.Length && arr in T.nxt && arr !in L.heads
      modifies mem
      ensures arr in T.prv && T.nxt[arr] in T.nxt && Skips(T, old(mem[..]), mem[..], arr)
    {
      hide L.ObjectsOk, Separate, RingsOk, ListsOk, Chained;
      NodeAt(L, T, arr);
      NodeRange(L, T, arr);
      assert Listed(T, arr);
      assert mem[arr + 1] == At(mem[..], arr + 1) && mem[arr + 2] == At(mem[..], arr + 2);
      ghost var m0 := mem[..];
      var forward, back := mem[arr + 1].n, mem[arr + 2].n;
      mem[forward + 2] := Imm(back);
      mem[back + 1] := Imm(forward);
      if back + 1 == forward + 2 {
        LinksApart(L, back, 1, forward, 2);
      }
    }

    /** What `Leave` and its steps work on. */
    ghost predicate Working(arr: int)
      reads this, mem
    {
      && L.ObjectsOk() && Separate(L) && L.Base(arr) && IsArray(L.Was(arr)) && Changed(L, mem[..], 0)
      && Untouched(T) && ListsOk(L, T, lists, home) && modified == Nth(updated, 0)
    }

    /** Takes the array at `arr` off its entry list. */
    method LeaveEntryList(arr: int)
      requires Working(arr) && AllLinked(L, T, mem[..], updated) && arr in T.nxt && arr !in L.heads
      modifies mem, this`T, this`lists, this`home
      ensures Working(arr) && AllBut(L, T, mem[..], updated, arr) && home == old(home) - {arr}
    {
      hide L.ObjectsOk, Separate, RingsOk, ListsOk, Chained, Changed, Skips, Forward, Back;
      ghost var m0 := mem[..];
      ChangedLength(L, m0, 0);
      ListedHome(L, T, lists, home, arr);
      ghost var k :| 0 <= k < |lists[home[arr]]| && lists[home[arr]][k] == arr;
      RemoveLists(L, T, lists, home, home[arr], k);
      Unlink(arr);
      CutOff(L, T, m0, mem[..], updated, arr);
      CutChanged(L, T, m0, mem[..], 0, arr);
      RemoveFw(T, arr);
      lists := lists[home[arr] := Without(lists[home[arr]], k)];
      home := home - {arr};
      T := Remove(T, arr);
    }

    /** Puts the array at `arr`, which is on no list, on that of modified arrays. */
    method PushModified(arr: int)
      requires Working(arr) && AllBut(L, T, mem[..], updated, arr)
      modifies mem, this`modified, this`updated
      ensures Working(arr) && Lists() && updated == [arr] + old(updated)
    {
      hide L.ObjectsOk, Separate, RingsOk, ListsOk, Chained, Changed, Forward, Back, AllBut, AllLinked;
      ghost var m0 := mem[..];
      ChangedLength(L, m0, 0);
      ArrayNode(L, arr);
      LinkWord(L, arr, 2);
      mem[arr + 1] := Null;
      mem[arr + 2] := Imm(modified);
      modified := arr;
      Push(L, T, m0, mem[..], updated, arr);
      TwoChanged(L, m0, mem[..], 0, arr, 1, 0, arr, 2, Nth(updated, 0));
      updated := [arr] + updated;
    }

    /** The array at `arr` leaves its entry list, if it is on one, for the list of modified arrays. */
    method Leave(arr: int)
      requires Working(arr) && Lists()
      modifies mem, this`modified, this`T, this`lists, this`home, this`updated
      ensures Working(arr) && Lists() && home == old(home) - {arr}
      ensures updated == if arr in old(updated) then old(updated) else [arr] + old(updated)
    {
      hide L.ObjectsOk, Separate, AllLinked, ListsOk, Changed, AllBut;
      ChangedLength(L, mem[..], 0);
      WhereItIs(L, T, mem[..], updated, arr);
      ListedOnly(L, T, lists, home);
      assert mem[arr + 1] == At(mem[..], arr + 1) && mem[arr + 2] == At(mem[..], arr + 2);
      if mem[arr + 1] != Null {
        if mem[arr + 2] != Null {
          LeaveEntryList(arr);
        }
        PushModified(arr);
      }
    }

    /** `mlw_update`: writes the value `value` to the element `subscript` of the array at `arr`, which from
        then on is on no entry list but among the modified arrays. */
    method Update(arr: int, subscript: nat, value: Word)
      requires Valid() && L.Base(arr) && IsArray(L.Was(arr)) && subscript < L.Was(arr).len && IsValue(value)
      requires Sound(L, value)
      modifies this, mem
      ensures Valid() && L == old(L).(m0 := mem[..]) && At(mem[..], arr + 3 + subscript) == value
      ensures SameBut(old(L), mem[..], arr + 3 + subscript)
      ensures updated == (if arr in old(updated) then old(updated) else [arr] + old(updated))
      ensures home == old(home) - {arr}
    {
      hide L.ObjectsOk, Separate, SoundHeap, Filled, Orderly, AllLinked, ListsOk, YoungestGen, Changed, Sound;
      ghost var x, U := arr + 3 + subscript, Elements(updated);
      NothingChanged(L);
      Leave(arr);
      ghost var m1 := mem[..];
      ChangedLength(L, m1, 0);
      ElementWord(L, arr, subscript);
      mem[arr + 3 + subscript] := value;
      LinksOnlyChanged(L, m1, arr);
      ElementChanged(L, m1, mem[..], arr, x);
      LinkedShape(L, T, m1, mem[..], updated, arr, x);
      OrderlyUpdated(L, ages, old(home), U, arr);
      UpdatedNow(old(updated), arr);
      HeapChanged(L, mem[..], arr, ages, home, Elements(updated));
      ListsShape(L, L.(m0 := mem[..]), T, lists, home);
      YoungestChanged(L, mem[..], ages, creation);
      RestUnchanged(L, m1, mem[..], arr, x);
      L := L.(m0 := mem[..]);
    }

    /** The state of `MoveModifiedList` when the arrays `rest` are still to be looked at and `kept` is the
        first array of the list. */
    ghost predicate Half(rest: seq<int>, arr: int, kept: int, home0: map<int, int>, lists0: map<int, seq<int>>)
      reads this, mem
    {
      && L.ObjectsOk() && Separate(L) && Changed(L, mem[..], 0) && creation in L.heads && creation in lists0
      && creation in lists
      && Untouched(T) && Splicing(L, T, mem[..], rest, creation) && ListsOk(L, T, lists, home)
      && arr == Nth(rest, 0) && kept == T.nxt[creation] && kept in T.nxt
      && Homed(L, ages, creation, home0, home, updated, rest)
      && Spliced(L, ages, creation, updated, lists0[creation]) == Spliced(L, ages, creation, rest, lists[creation])
      && lists == lists0[creation := lists[creation]]
    }

    /** Whether the array at `arr` has to be on an entry list. */
    method MustKeep(arr: int) returns (keep: bool)
      requires |L.m0| == mem.Length && L.ObjectsOk() && Separate(L) && Changed(L, mem[..], 0) && L.Base(arr)
      requires IsArray(L.Was(arr)) && creation in ages.gens
      ensures keep == Keeps(L, ages, creation, arr)
    {
      hide L.ObjectsOk, Separate, Changed;
      FirstUnchanged(L, mem[..], 0, arr);
      LinkWord(L, arr, 2) by { ArrayNode(L, arr); }
      assert mem[arr] == At(mem[..], arr);
      keep := arr / SPACE_WORDS != ages.gens[creation].space || mem[arr].kind == WeakArray;
    }

    /** Leaves the array at `arr` on no list. */
    method DropModified(arr: int, kept: int, ghost rest: seq<int>, ghost home0: map<int, int>,
                        ghost lists0: map<int, seq<int>>)
      requires Half(rest, arr, kept, home0, lists0) && rest != [] && !Keeps(L, ages, creation, arr)
      requires rest[0] in updated
      modifies mem
      ensures Half(rest[1..], Nth(rest[1..], 0), kept, home0, lists0)
    {
      hide L.ObjectsOk, Separate, Changed, ListsOk, RingsOk, Keeps, Homed, Splicing;
      ghost var m0 := mem[..];
      ChangedLength(L, m0, 0);
      SpliceNodes(L, T, m0, rest, creation);
      LinkWord(L, arr, 2);
      mem[arr + 1] := Imm(1);
      mem[arr + 2] := Null;
      SpliceDrop(L, T, m0, mem[..], rest, creation);
      TwoChanged(L, m0, mem[..], 0, arr, 1, 1, arr, 2, 0);
      ListedOnly(L, T, lists, home);
      RestDistinct(L, T, m0, rest, creation);
      HomedMore(L, ages, creation, home0, home, updated, rest);
    }

    /** Puts the array at `arr` in front of the list. */
    method KeepModified(arr: int, kept: int, ghost rest: seq<int>, ghost home0: map<int, int>,
                        ghost lists0: map<int, seq<int>>)
      requires Half(rest, arr, kept, home0, lists0) && rest != [] && Keeps(L, ages, creation, arr) && rest[0] in updated
      modifies mem, this`T, this`lists, this`home
      ensures Half(rest[1..], Nth(rest[1..], 0), arr, home0, lists0)
    {
      hide L.ObjectsOk, Separate, Changed, ListsOk, RingsOk, Keeps, Homed, Splicing, Insert;
      ghost var m0 := mem[..];
      ChangedLength(L, m0, 0);
      SpliceNodes(L, T, m0, rest, creation);
      LinkWord(L, arr, 2);
      LinkWord(L, kept, 2);
      LinksOff(L, arr, kept);
      mem[kept + 2] := Imm(arr);
      mem[arr + 1] := Imm(kept);
      SpliceKeep(L, T, m0, mem[..], rest, creation);
      TwoChanged(L, m0, mem[..], 0, kept, 2, arr, arr, 1, kept);
      RestDistinct(L, T, m0, rest, creation);
      HomedMore(L, ages, creation, home0, home, updated, rest);
      InsertLists(L, T, lists, home, creation, arr);
      InsertHead(T, arr, creation);
      lists := lists[creation := [arr] + lists[creation]];
      home := home[arr := creation];
      T := Insert(T, arr, creation);
    }

    lemma HalfStands(rest: seq<int>, arr: int, kept: int, home0: map<int, int>, lists0: map<int, seq<int>>)
      requires Half(rest, arr, kept, home0, lists0)
      ensures |L.m0| == mem.Length && (arr != 0 <==> rest != [])
      ensures 0 < creation && creation + 2 < mem.Length && 0 < kept && kept + 2 < mem.Length && kept + 2 != creation + 1
      ensures rest != [] ==>
        arr == rest[0] && L.Base(arr) && IsArray(L.Was(arr)) && 0 < arr && arr + 2 < mem.Length &&
          mem[arr + 2] == Imm(Nth(rest[1..], 0))
    {
      hide L.ObjectsOk, Separate, ListsOk, RingsOk, Homed, Spliced, Changed;
      ChangedLength(L, mem[..], 0);
      NodeAt(L, T, creation);
      LinkWord(L, creation, 2);
      LinkWord(L, kept, 2);
      if kept + 2 == creation + 1 {
        LinksApart(L, kept, 2, creation, 1);
      }
      if rest != [] {
        ChainHead(L, T, mem[..], rest);
        LinkWord(L, rest[0], 2) by { ArrayNode(L, rest[0]); }
        assert mem[rest[0] + 2] == At(mem[..], rest[0] + 2);
      }
    }

    /** Looks at one of the modified arrays. */
    method MoveModified(arr: int, kept: int, ghost rest: seq<int>, ghost home0: map<int, int>,
                        ghost lists0: map<int, seq<int>>)
      returns (next: int, kept1: int)
      requires Half(rest, arr, kept, home0, lists0) && rest != [] && rest[0] in updated && creation in ages.gens
      modifies mem, this`T, this`lists, this`home
      ensures Half(rest[1..], next, kept1, home0, lists0)
    {
      hide Half;
      HalfStands(rest, arr, kept, home0, lists0);
      HalfParts(rest, arr, kept, home0, lists0);
      next := mem[arr + 2].n;
      var keep := MustKeep(arr);
      if keep {
        KeepModified(arr, kept, rest, home0, lists0);
        kept1 := arr;
      } else {
        DropModified(arr, kept, rest, home0, lists0);
        kept1 := kept;
      }
    }

    lemma HalfParts(rest: seq<int>, arr: int, kept: int, home0: map<int, int>, lists0: map<int, seq<int>>)
      requires Half(rest, arr, kept, home0, lists0)
      ensures L.ObjectsOk() && Separate(L) && Changed(L, mem[..], 0)
    {
      hide L.ObjectsOk, Separate, Changed, Splicing, ListsOk, Homed;
    }

    lemma HalfRest(rest: seq<int>, arr: int, kept: int, home0: map<int, int>, lists0: map<int, seq<int>>)
      requires Half(rest, arr, kept, home0, lists0)
      ensures Changed(L, mem[..], 0) && Untouched(T) && Splicing(L, T, mem[..], rest, creation)
      ensures ListsOk(L, T, lists, home)
      ensures creation in L.heads && creation in T.nxt && kept == T.nxt[creation]
    {
      hide L.ObjectsOk, Separate, Changed, ListsOk, Homed, Spliced, RingsOk;
    }

    /** The list of modified arrays has been gone through. */
    lemma HalfDone(arr: int, kept: int, home0: map<int, int>, lists0: map<int, seq<int>>, U: set<int>)
      requires Half([], arr, kept, home0, lists0) && HeapOk(L, ages, home0, U) && YoungestGen(L, ages, creation)
      requires U == Elements(updated)
      requires forall b :: b in updated ==> L.Base(b) && IsArray(L.Was(b))
      ensures HeapOk(L, ages, home, {})
      ensures lists == lists0[creation := Spliced(L, ages, creation, updated, lists0[creation])]
    {
      hide L.ObjectsOk, Separate, Changed, Splicing, ListsOk, SoundHeap, Filled, Orderly, YoungestGen, Keeps;
      OrderlyMoved(L, ages, home0, home, U, creation);
    }

    lemma HalfBegins()
      requires Valid()
      ensures 0 < creation && creation + 1 < mem.Length && creation in ages.gens && creation in lists
      ensures creation in T.nxt && mem[creation + 1] == Imm(T.nxt[creation])
      ensures Half(updated, modified, T.nxt[creation], home, lists)
      ensures forall b :: b in updated ==> L.Base(b) && IsArray(L.Was(b))
    {
      hide L.ObjectsOk, Separate, SoundHeap, Filled, ListsOk, RingsOk, Distinct, Spliced;
      CreationHead(L, ages, home, updated, creation);
      ListHeads(L, T, lists, home);
      SpliceStarts(L, T, mem[..], updated, creation);
      LinkWord(L, creation, 2);
      assert Listed(T, creation) && mem[creation + 1] == At(mem[..], creation + 1);
      NothingChanged(L);
      HomedAll(L, ages, creation, home, updated);
      forall b | b in updated ensures L.Base(b) && IsArray(L.Was(b)) {
        var i :| 0 <= i < |updated| && updated[i] == b;
        ChainAt(L, T, mem[..], updated, i);
      }
    }

    /** The links between the head and the first array complete the list. */
    lemma Finish(m1: seq<Word>, arr: int, kept: int, home0: map<int, int>, lists0: map<int, seq<int>>)
      requires HeapOk(L, ages, home, {}) && Changed(L, m1, 0) && Untouched(T) && Splicing(L, T, m1, [], creation)
      requires ListsOk(L, T, lists, home)
      requires creation in L.heads && kept == T.nxt[creation]
      requires TwoLinks(m1, mem[..], kept + 2, creation, creation + 1, kept)
      ensures var N := L.(m0 := mem[..]);
              HeapOk(N, ages, home, {}) && ThreadsOk(N, T, mem[..]) && ListsOk(N, T, lists, home) &&
              SameBut(L, mem[..], 0)
    {
      hide L.ObjectsOk, Separate, SoundHeap, Filled, Orderly, ListsOk, Changed, RingsOk, ThreadsOk;
      SpliceEnds(L, T, m1, mem[..], creation);
      NodeAt(L, T, creation);
      TwoChanged(L, m1, mem[..], 0, kept, 2, creation, creation, 1, kept);
      NoObjectAt0(L);
      HeapChanged(L, mem[..], 0, ages, home, {});
      LinksOnlyChanged(L, mem[..], 0);
      ThreadsShape(L, T, mem[..]);
      ListsShape(L, L.(m0 := mem[..]), T, lists, home);
    }

    /** `move_modified_list`: puts the modified arrays on the entry list of the creation generation, but for
        those of the creation space that are not weak, which leave all lists. Then everything is ready for a
        collection, and the list of modified arrays is empty. */
    method MoveModifiedList() returns (length: nat)
      requires Valid()
      modifies this, mem
      ensures length == |old(updated)| && modified == 0 && updated == [] && L == old(L).(m0 := mem[..])
      ensures SameBut(old(L), mem[..], 0)
      ensures HeapOk(L, ages, home, {}) && Untouched(T) && ThreadsOk(L, T, mem[..]) && ListsOk(L, T, lists, home)
      ensures creation in old(lists)
      ensures lists == old(lists)[creation := Spliced(old(L), ages, creation, old(updated), old(lists)[creation])]
      ensures OnFront(lists[creation], old(lists)[creation]) && creation in ages.gens
      ensures forall b :: b in lists[creation] <==>
                b in old(lists)[creation] || (b in old(updated) &&
                  (b / SPACE_WORDS != ages.gens[creation].space || WeakHeader(old(L).Was(b))))
    {
      hide L.ObjectsOk, Separate, SoundHeap, Filled, Orderly, AllLinked, ListsOk, YoungestGen, Changed, Half, SameBut,
        ThreadsOk, Spliced, OnFront;
      SplicedHolds(L, ages, creation, updated, if creation in lists then lists[creation] else []);
      ghost var rest, home0, lists0, U := updated, home, lists, Elements(updated);
      HalfBegins();
      var arr, kept := modified, mem[creation + 1].n;
      length := 0;
      HalfStands(rest, arr, kept, home0, lists0);
      while arr != 0
        invariant Half(rest, arr, kept, home0, lists0) && length <= |updated| && rest == updated[length..]
        invariant arr != 0 <==> rest != []
        decreases |updated| - length
        modifies mem, this`T, this`lists, this`home
      {
        arr, kept := MoveModified(arr, kept, rest, home0, lists0);
        length := length + 1;
        rest := rest[1..];
        HalfStands(rest, arr, kept, home0, lists0);
      }
      HalfDone(arr, kept, home0, lists0, U);
      HalfStands([], arr, kept, home0, lists0);
      HalfRest([], arr, kept, home0, lists0);
      ghost var m1 := mem[..];
      mem[kept + 2] := Imm(creation);
      mem[creation + 1] := Imm(kept);
      modified := 0;
      Finish(m1, arr, kept, home0, lists0);
      updated := [];
      L := L.(m0 := mem[..]);
    }
  }

  // ---- Between collections ----

  /** The heap at rest is handed over to the program, which may write to arrays. */
  method TakeOver(c: C.Collector, creation: int) returns (u: Mutator)
    requires AtRest(c) && YoungestGen(c.L, c.ages, creation)
    ensures fresh(u) && u.Valid() && u.updated == [] && u.mem == c.mem && u.creation == creation && u.ages == c.ages
    ensures u.L == c.L && u.T == c.T && u.lists == c.lists && u.home == c.home
  {
    hide HeapOk, YoungestGen, ThreadsOk, ListsOk;
    u := new Mutator(c.mem, creation, c.ages, c.L, c.T, c.lists, c.home);
  }

  /** When the modified arrays are on an entry list again, the heap is at rest again. */
  method HandBack(u: Mutator, c: C.Collector) returns (length: nat)
    requires u.Valid() && u.mem == c.mem && c.ages == u.ages && c.marked == {}
    requires forall a :: u.L.Type(a) == TypeOf(c.spaceType, a) && u.L.Type(a) != From
    modifies u, u.mem, c`L, c`T, c`lists, c`home
    ensures AtRest(c) && length == |old(u.updated)| && c.L == old(u.L).(m0 := c.mem[..])
    ensures SameBut(old(u.L), c.mem[..], 0)
  {
    hide HeapOk, YoungestGen, ThreadsOk, ListsOk, Untouched, SameBut, Spliced, AllLinked, TypeOf;
    length := u.MoveModifiedList();
    c.L, c.T, c.lists, c.home := u.L, u.T, u.lists, u.home;
  }

  lemma ThreadsLinked(L: Layout, T: Trail, m: seq<Word>)
    requires ThreadsOk(L, T, m) && T.fw == map[]
    ensures AllLinked(L, T, m, [])
  {
    hide Node;
    forall n {:trigger Listed(T, n)} | Listed(T, n) ensures Forward(T, m, n) && Back(T, m, n) {
      RingStep(L, T, n);
    }
  }

  lemma CreationHead(L: Layout, A: Ages, home: map<int, int>, U: seq<int>, creation: int)
    requires HeapOk(L, A, home, Elements(U)) && YoungestGen(L, A, creation)
    ensures creation in L.heads && creation in A.gens
  {
    hide L.ObjectsOk, Separate, SoundHeap, Filled;
  }

  lemma NoObjectAt0(L: Layout)
    requires L.ObjectsOk()
    ensures 0 !in L.own
  {
  }

  lemma ThreadsShape(L: Layout, T: Trail, m1: seq<Word>)
    requires L.ObjectsOk() && ThreadsOk(L, T, m1) && Changed(L, m1, 0)
    ensures ThreadsOk(L.(m0 := m1), T, m1)
  {
    SameShapes(L, m1, 0);
    hide L.ObjectsOk, Changed;
    RingsShape(L, L.(m0 := m1), T);
    hide RingsOk;
  }

  lemma InsertHead(T: Trail, b: int, e: int)
    requires e in T.nxt && b != e
    ensures var T1 := Insert(T, b, e); T1.nxt[e] == b && b in T1.nxt && (Untouched(T) ==> Untouched(T1))
  {
  }

  lemma RestDistinct(L: Layout, T: Trail, m: seq<Word>, s: seq<int>, e: int)
    requires Splicing(L, T, m, s, e)
    ensures Distinct(s) && RingsOk(L, T)
  {
  }
}
