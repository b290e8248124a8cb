/** Entry lists: taking arrays off a list and putting them on another while the arrays may be
    at their old or at their new places. */
module EntryLists {
  import opened Heap
  import opened Seqs
  import opened Copying
  import opened Moving

  // ---- Rings ----

  ghost function Remove(T: Trail, b: int): Trail
    requires b in T.nxt && b in T.prv
  {
    T.(nxt := map n | n in T.nxt && n != b :: if n == T.prv[b] then T.nxt[b] else T.nxt[n],
       prv := map n | n in T.prv && n != b :: if n == T.nxt[b] then T.prv[b] else T.prv[n])
  }

  /** Puts `b` right after the head `e`. */
  ghost function Insert(T: Trail, b: int, e: int): Trail
    requires e in T.nxt
  {
    T.(nxt := T.nxt[b := T.nxt[e]][e := b], prv := T.prv[T.nxt[e] := b][b := e],
       rank := T.rank[b := if T.nxt[e] in T.rank then T.rank[T.nxt[e]] - 1 else 0])
  }

  lemma RemoveRings(L: Layout, T: Trail, b: int)
    requires RingsOk(L, T) && b in T.nxt && b in T.prv && b !in L.heads
    ensures RingsOk(L, Remove(T, b))
  {
    var T1 := Remove(T, b);
    RingStep(L, T, b);
    forall n {:trigger Listed(T1, n)} | Listed(T1, n)
      ensures Node(L, n) && n in T1.prv && T1.nxt[n] in T1.nxt && T1.nxt[n] in T1.prv && T1.prv[n] in T1.nxt &&
              T1.prv[T1.nxt[n]] == n && T1.nxt[T1.prv[n]] == n && RankOk(L, T1, n)
    {
      RemoveStep(L, T, b, n);
    }
  }

  lemma RemoveStep(L: Layout, T: Trail, b: int, n: int)
    requires RingsOk(L, T) && b in T.nxt && b in T.prv && b !in L.heads && n in T.nxt && n != b
    ensures var T1 := Remove(T, b);
            && Node(L, n) && n in T1.nxt && n in T1.prv && T1.nxt[n] in T1.nxt && T1.nxt[n] in T1.prv
            && T1.prv[n] in T1.nxt
            && T1.prv[T1.nxt[n]] == n && T1.nxt[T1.prv[n]] == n && RankOk(L, T1, n)
  {
    RingStep(L, T, b);
    RingStep(L, T, n);
    RingStep(L, T, T.nxt[n]);
    RingStep(L, T, T.prv[n]);
    RingStep(L, T, T.nxt[b]);
    RingStep(L, T, T.prv[b]);
    if n == T.prv[b] && n == T.nxt[b] {
      TwoRing(L, T, b);
    }
  }

  /** A ring of one array and another node: the other one is a head. */
  lemma TwoRing(L: Layout, T: Trail, b: int)
    requires RingsOk(L, T) && b in T.nxt && b in T.prv && b !in L.heads && T.nxt[b] == T.prv[b]
    ensures T.nxt[b] in L.heads
  {
    RingStep(L, T, b);
    RingStep(L, T, T.nxt[b]);
  }

  lemma InsertRings(L: Layout, T: Trail, b: int, e: int)
    requires RingsOk(L, T) && e in L.heads && b !in T.nxt && b !in L.heads && Node(L, b)
    ensures e in T.nxt && RingsOk(L, Insert(T, b, e))
  {
    RingStep(L, T, e);
    var T1 := Insert(T, b, e);
    forall n {:trigger Listed(T1, n)} | Listed(T1, n)
      ensures Node(L, n) && n in T1.prv && T1.nxt[n] in T1.nxt && T1.nxt[n] in T1.prv && T1.prv[n] in T1.nxt &&
              T1.prv[T1.nxt[n]] == n && T1.nxt[T1.prv[n]] == n && RankOk(L, T1, n)
    {
      if n != b {
        RingStep(L, T, n);
        RingStep(L, T, T.nxt[n]);
        RingStep(L, T, T.prv[n]);
      }
      RingStep(L, T, T.nxt[e]);
    }
  }

  // ---- Writing links ----

  /** `m1` differs from `m` only in link words of nodes, which hold links again. */
  ghost predicate LinksOnly(L: Layout, T: Trail, m: seq<Word>, m1: seq<Word>) {
    |m1| == |m| && forall x {:trigger At(m1, x)} :: At(m1, x) == At(m, x) || (At(m1, x).Imm? && LinkPlace(L, T, x))
  }

  /** The old places of copied words are untouched. */
  ghost predicate OldPlacesKept(T: Trail, m: seq<Word>, m1: seq<Word>) {
    forall x {:trigger At(m1, x)} :: x in T.fw ==> At(m1, x) == At(m, x)
  }

  ghost predicate LinkOf(L: Layout, T: Trail, n: int, i: int, x: int) {
    Node(L, n) && (i == 1 || i == 2) && x == T.Cur(n + i)
  }

  ghost predicate LinkPlace(L: Layout, T: Trail, x: int) {
    exists n, i :: LinkOf(L, T, n, i, x)
  }

  lemma LinkPlaceRole(L: Layout, T: Trail, x: int)
    requires L.ObjectsOk() && L.SpacesOk() && FwdOk(L, T) && LinkPlace(L, T, x)
    ensures x !in T.fw && (x in L.own || InHead(L, x) || L.start <= x < L.limit)
    ensures forall a :: Kept(L, a) ==> T.Cur(a) != x
  {
    var n, i :| LinkOf(L, T, n, i, x);
    NodeInHeap(L, T, n, i);
    if x in T.fw {
      NodeNotCopied(L, T, n, i, x);
    }
    forall a | Kept(L, a) ensures T.Cur(a) != x {
      if T.Cur(a) == x {
        NodeLink(L, T, n, i, a);
      }
    }
  }

  lemma LinksKeepWords(L: Layout, T: Trail, m: seq<Word>, m1: seq<Word>)
    requires L.ObjectsOk() && L.SpacesOk() && FwdOk(L, T) && WordsOk(L, T, m)
    requires LinksOnly(L, T, m, m1)
    ensures WordsOk(L, T, m1)
    ensures forall a {:trigger Kept(L, a)} :: Kept(L, a) ==> At(m1, T.Cur(a)) == At(m, T.Cur(a))
  {
    hide L.ObjectsOk, L.SpacesOk, InverseOk, WholeOk, LinkPlace;
    forall a {:trigger Kept(L, a)} | Kept(L, a) ensures At(m1, T.Cur(a)) == At(m, T.Cur(a)) {
      if At(m1, T.Cur(a)) != At(m, T.Cur(a)) {
        LinkPlaceRole(L, T, T.Cur(a));
      }
    }
    forall a | a in L.roots ensures At(m1, a) == At(m, a) {
      assert Kept(L, a);
      RootPlace(L, T, a);
    }
    forall a | a in L.own && L.Role(a) != Link ensures At(m1, T.Cur(a)) == At(m, T.Cur(a)) {
      assert Kept(L, a);
    }
  }

  lemma RootPlace(L: Layout, T: Trail, a: int)
    requires L.SpacesOk() && FwdOk(L, T) && a in L.roots
    ensures T.Cur(a) == a
  {
  }

  lemma LinksKeepMarks(L: Layout, T: Trail, m: seq<Word>, m1: seq<Word>)
    requires L.ObjectsOk() && L.SpacesOk() && FwdOk(L, T) && BasesMarked(L, T, m) && EntriesMarked(L, T, m)
    requires FrameOk(L, m)
    requires LinksOnly(L, T, m, m1)
    ensures BasesMarked(L, T, m1) && EntriesMarked(L, T, m1) && FrameOk(L, m1) && OldPlacesKept(T, m, m1)
  {
    hide L.ObjectsOk, L.SpacesOk, InverseOk, WholeOk, InnerEntry, LinkPlace;
    forall x {:trigger At(m1, x)} | At(m1, x) != At(m, x)
      ensures x !in T.fw && (x in L.own || InHead(L, x) || L.start <= x < L.limit)
    {
      LinkPlaceRole(L, T, x);
    }
    forall b | b in T.fw && L.Base(b)
      ensures b in L.tag && At(m1, b) == Evacuated && At(m1, b + 1) == Ptr(L.tag[b], T.fw[b])
    {
      BasePair(L, T, b);
    }
    forall c | c in T.fw && InnerEntry(L, c) ensures EntryMark(L, T, m1, c) {
      assert EntryMark(L, T, m, c);
      EntryPair(L, T, c);
    }
  }

  // ---- Taking an array off its list, putting it on another ----

  /** `m1` is `m` after the array `b` was disconnected from its list. */
  ghost predicate Removed(L: Layout, T: Trail, m: seq<Word>, m1: seq<Word>, b: int)
    requires b in T.nxt && b in T.prv
  {
    && |m1| == |m|
    && At(m1, T.Cur(b + 1)).Imm? && At(m1, T.Cur(b + 1)) != Null && At(m1, T.Cur(b + 2)) == Null
    && At(m1, T.Cur(T.prv[b] + 1)) == Imm(T.Cur(T.nxt[b])) && At(m1, T.Cur(T.nxt[b] + 2)) == Imm(T.Cur(T.prv[b]))
    && forall x {:trigger At(m1, x)} ::
         x != T.Cur(b + 1) && x != T.Cur(b + 2) && x != T.Cur(T.prv[b] + 1) && x != T.Cur(T.nxt[b] + 2) ==>
         At(m1, x) == At(m, x)
  }

  /** `m1` is `m` after the array `b` was put at the front of the list with head `e`. */
  ghost predicate Inserted(L: Layout, T: Trail, m: seq<Word>, m1: seq<Word>, b: int, e: int)
    requires e in T.nxt
  {
    && |m1| == |m|
    && At(m1, T.Cur(b + 1)) == Imm(T.Cur(T.nxt[e])) && At(m1, T.Cur(b + 2)) == Imm(T.Cur(e))
    && At(m1, T.Cur(T.nxt[e] + 2)) == Imm(T.Cur(b)) && At(m1, T.Cur(e + 1)) == Imm(T.Cur(b))
    && forall x {:trigger At(m1, x)} ::
         x != T.Cur(b + 1) && x != T.Cur(b + 2) && x != T.Cur(T.nxt[e] + 2) && x != T.Cur(e + 1) ==>
         At(m1, x) == At(m, x)
  }

  lemma RemovedLinks(L: Layout, T: Trail, m: seq<Word>, m1: seq<Word>, b: int)
    requires RingsOk(L, T) && b in T.nxt && b in T.prv && Removed(L, T, m, m1, b)
    ensures LinksOnly(L, T, m, m1)
  {
    RingStep(L, T, b);
    assert LinkOf(L, T, b, 1, T.Cur(b + 1)) && LinkOf(L, T, b, 2, T.Cur(b + 2));
    assert LinkOf(L, T, T.prv[b], 1, T.Cur(T.prv[b] + 1)) && LinkOf(L, T, T.nxt[b], 2, T.Cur(T.nxt[b] + 2));
  }

  /** The forward link of a node other than the removed array. */
  lemma RemovedNext(L: Layout, T: Trail, m: seq<Word>, m1: seq<Word>, b: int, n: int)
    requires L.ObjectsOk() && L.SpacesOk() && FwdOk(L, T) && ThreadsOk(L, T, m)
    requires b in T.nxt && b in T.prv && b !in L.heads && Removed(L, T, m, m1, b) && n in T.nxt && n != b
    ensures At(m1, T.Cur(n + 1)) == Imm(T.Cur(if n == T.prv[b] then T.nxt[b] else T.nxt[n]))
  {
    hide L.ObjectsOk, L.SpacesOk, InverseOk, WholeOk, RingsOk, Node;
    if n != T.prv[b] {
      RingStep(L, T, b);
      RingStep(L, T, n);
      NodesApart(L, T, n, 1, b);
      NodesApart(L, T, n, 1, T.prv[b]);
      NodesApart(L, T, n, 1, T.nxt[b]);
    }
  }

  /** The back link of a node other than the removed array. */
  lemma RemovedPrev(L: Layout, T: Trail, m: seq<Word>, m1: seq<Word>, b: int, n: int)
    requires L.ObjectsOk() && L.SpacesOk() && FwdOk(L, T) && ThreadsOk(L, T, m)
    requires b in T.nxt && b in T.prv && b !in L.heads && Removed(L, T, m, m1, b) && n in T.nxt && n in T.prv && n != b
    ensures At(m1, T.Cur(n + 2)) == Imm(T.Cur(if n == T.nxt[b] then T.prv[b] else T.prv[n]))
  {
    hide L.ObjectsOk, L.SpacesOk, InverseOk, WholeOk, RingsOk, Node;
    if n != T.nxt[b] {
      RingStep(L, T, b);
      RingStep(L, T, n);
      NodesApart(L, T, n, 2, b);
      NodesApart(L, T, n, 2, T.prv[b]);
      NodesApart(L, T, n, 2, T.nxt[b]);
    }
  }

  lemma RemovedThread(L: Layout, T: Trail, m: seq<Word>, m1: seq<Word>, b: int, n: int)
    requires L.ObjectsOk() && L.SpacesOk() && FwdOk(L, T) && ThreadsOk(L, T, m)
    requires b in T.nxt && b in T.prv && b !in L.heads && Removed(L, T, m, m1, b) && n in T.nxt && n != b
    ensures var T1 := Remove(T, b);
            n in T1.nxt && n in T1.prv && At(m1, T.Cur(n + 1)) == Imm(T.Cur(T1.nxt[n])) &&
              At(m1, T.Cur(n + 2)) == Imm(T.Cur(T1.prv[n]))
  {
    hide L.ObjectsOk, L.SpacesOk, FwdOk, RingsOk, Removed;
    RingStep(L, T, n);
    RemovedNext(L, T, m, m1, b, n);
    RemovedPrev(L, T, m, m1, b, n);
  }

  /** The link word `i` of `n` is a link word of `q` only if it is the same one of the same node. */
  lemma NodesApart(L: Layout, T: Trail, n: int, i: int, q: int)
    requires L.ObjectsOk() && L.SpacesOk() && FwdOk(L, T) && Node(L, n) && Node(L, q) && (i == 1 || i == 2)
    ensures T.Cur(n + i) == T.Cur(q + 1) ==> n == q && i == 1
    ensures T.Cur(n + i) == T.Cur(q + 2) ==> n == q && i == 2
  {
    if T.Cur(n + i) == T.Cur(q + 1) {
      NodeWords(L, T, n, i, q, 1);
    }
    if T.Cur(n + i) == T.Cur(q + 2) {
      NodeWords(L, T, n, i, q, 2);
    }
  }

  lemma RemovedThreads(L: Layout, T: Trail, m: seq<Word>, m1: seq<Word>, b: int)
    requires L.ObjectsOk() && L.SpacesOk() && FwdOk(L, T) && ThreadsOk(L, T, m)
    requires b in T.nxt && b in T.prv && b !in L.heads && Removed(L, T, m, m1, b)
    ensures ThreadsOk(L, Remove(T, b), m1)
  {
    hide L.ObjectsOk, L.SpacesOk, InverseOk, WholeOk, RingsOk, Node, Removed;
    var T1 := Remove(T, b);
    RemoveRings(L, T, b);
    forall n | n in T1.nxt
      ensures n in T1.prv && At(m1, T1.Cur(n + 1)) == Imm(T1.Cur(T1.nxt[n]))
      ensures At(m1, T1.Cur(n + 2)) == Imm(T1.Cur(T1.prv[n]))
    {
      RemovedThread(L, T, m, m1, b, n);
    }
    forall c | L.Base(c) && IsArray(L.Was(c)) && c !in T1.nxt ensures Unlisted(T1, m1, c) {
      RemovedOff(L, T, m, m1, b, c);
    }
  }

  lemma RemovedOff(L: Layout, T: Trail, m: seq<Word>, m1: seq<Word>, b: int, c: int)
    requires L.ObjectsOk() && L.SpacesOk() && FwdOk(L, T) && ThreadsOk(L, T, m)
    requires b in T.nxt && b in T.prv && b !in L.heads && Removed(L, T, m, m1, b)
    requires L.Base(c) && IsArray(L.Was(c)) && (c == b || c !in T.nxt)
    ensures Unlisted(T, m1, c)
  {
    hide L.ObjectsOk, L.SpacesOk, InverseOk, WholeOk, RingsOk, Node;
    RingStep(L, T, b);
    ArrayNode(L, c);
    NodesApart(L, T, c, 1, b);
    NodesApart(L, T, c, 2, b);
    NodesApart(L, T, c, 1, T.prv[b]);
    NodesApart(L, T, c, 2, T.prv[b]);
    NodesApart(L, T, c, 1, T.nxt[b]);
    NodesApart(L, T, c, 2, T.nxt[b]);
  }

  /** Disconnecting an array keeps the invariant. */
  lemma RemoveCore(L: Layout, T: Trail, m: seq<Word>, m1: seq<Word>, b: int)
    requires Core(L, T, m) && b in T.nxt && b in T.prv && b !in L.heads && Removed(L, T, m, m1, b)
    ensures Core(L, Remove(T, b), m1) && OldPlacesKept(T, m, m1)
    ensures forall a {:trigger Kept(L, a)} :: Kept(L, a) ==> At(m1, T.Cur(a)) == At(m, T.Cur(a))
  {
    hide L.ObjectsOk, L.SpacesOk, L.WordsFit, InverseOk, WholeOk, WordsOk, BasesMarked, EntriesMarked, FrameOk,
      RingsOk, ReachOk, LinksOnly, Removed;
    RemovedLinks(L, T, m, m1, b);
    RemovedThreads(L, T, m, m1, b);
    LinksKeepWords(L, T, m, m1);
    LinksKeepMarks(L, T, m, m1);
    SameButRings(L, T, Remove(T, b), m1);
  }

  lemma SameFwd(L: Layout, T: Trail, T1: Trail)
    requires FwdOk(L, T) && ReachOk(L, T) && T1.used == T.used && T1.fw == T.fw && T1.bk == T.bk
    ensures FwdOk(L, T1) && ReachOk(L, T1)
  {
  }

  lemma SameWords(L: Layout, T: Trail, T1: Trail, m: seq<Word>)
    requires WordsOk(L, T, m) && T1.fw == T.fw
    ensures WordsOk(L, T1, m)
  {
    forall a | a in L.own && L.Role(a) == Slot ensures SlotRel(L, T1, L.Was(a), At(m, T1.Cur(a))) {
      assert T1.Cur(a) == T.Cur(a);
    }
    forall a | a in L.own ensures T1.Cur(a) == T.Cur(a) {
    }
  }

  lemma SameMarks(L: Layout, T: Trail, T1: Trail, m: seq<Word>)
    requires BasesMarked(L, T, m) && EntriesMarked(L, T, m) && T1.fw == T.fw
    ensures BasesMarked(L, T1, m) && EntriesMarked(L, T1, m)
  {
    hide InnerEntry;
    forall c | c in T1.fw && InnerEntry(L, c) ensures EntryMark(L, T1, m, c) {
      assert EntryMark(L, T, m, c);
    }
  }

  lemma SameButRings(L: Layout, T: Trail, T1: Trail, m: seq<Word>)
    requires FwdOk(L, T) && WordsOk(L, T, m) && BasesMarked(L, T, m) && EntriesMarked(L, T, m) && ReachOk(L, T)
    requires T1.used == T.used && T1.fw == T.fw && T1.bk == T.bk
    ensures FwdOk(L, T1) && WordsOk(L, T1, m) && BasesMarked(L, T1, m) && EntriesMarked(L, T1, m) && ReachOk(L, T1)
  {
    hide InverseOk, WholeOk, WordsOk, WeakUntouched, BasesMarked, EntriesMarked, ReachOk;
    SameFwd(L, T, T1);
    SameWords(L, T, T1, m);
    SameMarks(L, T, T1, m);
  }

  lemma InsertedLinks(L: Layout, T: Trail, m: seq<Word>, m1: seq<Word>, b: int, e: int)
    requires RingsOk(L, T) && e in T.nxt && Node(L, b) && Inserted(L, T, m, m1, b, e)
    ensures LinksOnly(L, T, m, m1)
  {
    RingStep(L, T, e);
    assert LinkOf(L, T, b, 1, T.Cur(b + 1)) && LinkOf(L, T, b, 2, T.Cur(b + 2));
    assert LinkOf(L, T, T.nxt[e], 2, T.Cur(T.nxt[e] + 2)) && LinkOf(L, T, e, 1, T.Cur(e + 1));
  }

  /** The forward link of a node that was on a list before. */
  lemma InsertedNext(L: Layout, T: Trail, m: seq<Word>, m1: seq<Word>, b: int, e: int, n: int)
    requires L.ObjectsOk() && L.SpacesOk() && FwdOk(L, T) && ThreadsOk(L, T, m)
    requires e in L.heads && e in T.nxt && b !in T.nxt && Node(L, b) && Inserted(L, T, m, m1, b, e) && n in T.nxt
    ensures At(m1, T.Cur(n + 1)) == Imm(T.Cur(if n == e then b else T.nxt[n]))
  {
    hide L.ObjectsOk, L.SpacesOk, InverseOk, WholeOk, RingsOk, Node;
    if n != e {
      RingStep(L, T, e);
      RingStep(L, T, n);
      NodesApart(L, T, n, 1, b);
      NodesApart(L, T, n, 1, e);
      NodesApart(L, T, n, 1, T.nxt[e]);
    }
  }

  /** The back link of a node that was on a list before. */
  lemma InsertedPrev(L: Layout, T: Trail, m: seq<Word>, m1: seq<Word>, b: int, e: int, n: int)
    requires L.ObjectsOk() && L.SpacesOk() && FwdOk(L, T) && ThreadsOk(L, T, m)
    requires e in L.heads && e in T.nxt && b !in T.nxt && Node(L, b) && Inserted(L, T, m, m1, b, e) && n in T.nxt
    requires n in T.prv
    ensures At(m1, T.Cur(n + 2)) == Imm(T.Cur(if n == T.nxt[e] then b else T.prv[n]))
  {
    hide L.ObjectsOk, L.SpacesOk, InverseOk, WholeOk, RingsOk, Node;
    if n != T.nxt[e] {
      RingStep(L, T, e);
      RingStep(L, T, n);
      NodesApart(L, T, n, 2, b);
      NodesApart(L, T, n, 2, e);
      NodesApart(L, T, n, 2, T.nxt[e]);
    }
  }

  lemma InsertedThread(L: Layout, T: Trail, m: seq<Word>, m1: seq<Word>, b: int, e: int, n: int)
    requires L.ObjectsOk() && L.SpacesOk() && FwdOk(L, T) && ThreadsOk(L, T, m)
    requires e in L.heads && e in T.nxt && b !in T.nxt && b !in L.heads && Node(L, b) && Inserted(L, T, m, m1, b, e)
    requires n in T.nxt
    ensures var T1 := Insert(T, b, e);
            n in T1.nxt && n in T1.prv && At(m1, T.Cur(n + 1)) == Imm(T.Cur(T1.nxt[n])) &&
              At(m1, T.Cur(n + 2)) == Imm(T.Cur(T1.prv[n]))
  {
    hide L.ObjectsOk, L.SpacesOk, FwdOk, RingsOk, Inserted, Node;
    RingStep(L, T, n);
    RingStep(L, T, e);
    InsertedNext(L, T, m, m1, b, e, n);
    InsertedPrev(L, T, m, m1, b, e, n);
  }

  lemma InsertedOff(L: Layout, T: Trail, m: seq<Word>, m1: seq<Word>, b: int, e: int, c: int)
    requires L.ObjectsOk() && L.SpacesOk() && FwdOk(L, T) && ThreadsOk(L, T, m)
    requires e in L.heads && e in T.nxt && Node(L, b) && Inserted(L, T, m, m1, b, e)
    requires L.Base(c) && IsArray(L.Was(c)) && c !in T.nxt && c != b
    ensures Unlisted(T, m1, c)
  {
    hide L.ObjectsOk, L.SpacesOk, InverseOk, WholeOk, RingsOk, Node;
    RingStep(L, T, e);
    ArrayNode(L, c);
    NodesApart(L, T, c, 1, b);
    NodesApart(L, T, c, 2, b);
    NodesApart(L, T, c, 1, e);
    NodesApart(L, T, c, 2, e);
    NodesApart(L, T, c, 1, T.nxt[e]);
    NodesApart(L, T, c, 2, T.nxt[e]);
  }

  lemma InsertedSelf(L: Layout, T: Trail, m: seq<Word>, m1: seq<Word>, b: int, e: int)
    requires e in T.nxt && b !in T.nxt && Inserted(L, T, m, m1, b, e)
    ensures var T1 := Insert(T, b, e);
            b in T1.nxt && b in T1.prv && At(m1, T.Cur(b + 1)) == Imm(T.Cur(T1.nxt[b])) &&
              At(m1, T.Cur(b + 2)) == Imm(T.Cur(T1.prv[b]))
  {
    assert b != e;
  }

  lemma InsertKeys(T: Trail, b: int, e: int)
    requires e in T.nxt
    ensures var T1 := Insert(T, b, e); T1.fw == T.fw && forall n :: n in T1.nxt <==> n in T.nxt || n == b
  {
  }

  ghost predicate Threaded(T: Trail, m: seq<Word>, n: int) {
    n in T.nxt && n in T.prv && At(m, T.Cur(n + 1)) == Imm(T.Cur(T.nxt[n])) &&
      At(m, T.Cur(n + 2)) == Imm(T.Cur(T.prv[n]))
  }

  lemma AssembleThreads(L: Layout, T: Trail, m: seq<Word>)
    requires RingsOk(L, T)
    requires forall n {:trigger Threaded(T, m, n)} :: n in T.nxt ==> Threaded(T, m, n)
    requires forall c :: L.Base(c) && IsArray(L.Was(c)) && c !in T.nxt ==> Unlisted(T, m, c)
    ensures ThreadsOk(L, T, m)
  {
    forall n | n in T.nxt
      ensures n in T.prv && At(m, T.Cur(n + 1)) == Imm(T.Cur(T.nxt[n])) && At(m, T.Cur(n + 2)) == Imm(T.Cur(T.prv[n]))
    {
      assert Threaded(T, m, n);
    }
  }

  lemma InsertedThreaded(L: Layout, T: Trail, m: seq<Word>, m1: seq<Word>, b: int, e: int, n: int)
    requires L.ObjectsOk() && L.SpacesOk() && FwdOk(L, T) && ThreadsOk(L, T, m)
    requires e in L.heads && e in T.nxt && b !in T.nxt && b !in L.heads && Node(L, b) && Inserted(L, T, m, m1, b, e)
    requires n in T.nxt || n == b
    ensures Threaded(Insert(T, b, e), m1, n)
  {
    hide L.ObjectsOk, L.SpacesOk, InverseOk, WholeOk, RingsOk, Node, Inserted, ThreadsOk;
    InsertKeys(T, b, e);
    if n != b {
      InsertedThread(L, T, m, m1, b, e, n);
    } else {
      InsertedSelf(L, T, m, m1, b, e);
    }
  }

  lemma InsertedThreads(L: Layout, T: Trail, m: seq<Word>, m1: seq<Word>, b: int, e: int)
    requires L.ObjectsOk() && L.SpacesOk() && FwdOk(L, T) && ThreadsOk(L, T, m) && RingsOk(L, T)
    requires e in L.heads && e in T.nxt && b !in T.nxt && b !in L.heads && Node(L, b) && Inserted(L, T, m, m1, b, e)
    ensures ThreadsOk(L, Insert(T, b, e), m1)
  {
    hide L.ObjectsOk, L.SpacesOk, InverseOk, WholeOk, RingsOk, Node, Inserted, ThreadsOk, Threaded, Insert;
    var T1 := Insert(T, b, e);
    InsertRings(L, T, b, e);
    InsertKeys(T, b, e);
    forall n {:trigger Threaded(T1, m1, n)} | n in T1.nxt ensures Threaded(T1, m1, n) {
      InsertedThreaded(L, T, m, m1, b, e, n);
    }
    forall c | L.Base(c) && IsArray(L.Was(c)) && c !in T1.nxt ensures Unlisted(T1, m1, c) {
      InsertedOff(L, T, m, m1, b, e, c);
    }
    AssembleThreads(L, T1, m1);
  }

  /** Putting an array on a list keeps the invariant. */
  lemma InsertCore(L: Layout, T: Trail, m: seq<Word>, m1: seq<Word>, b: int, e: int)
    requires Core(L, T, m) && e in L.heads && e in T.nxt && b !in T.nxt && L.Base(b) && IsArray(L.Was(b))
    requires Inserted(L, T, m, m1, b, e)
    ensures Core(L, Insert(T, b, e), m1) && OldPlacesKept(T, m, m1)
    ensures forall a {:trigger Kept(L, a)} :: Kept(L, a) ==> At(m1, T.Cur(a)) == At(m, T.Cur(a))
  {
    hide L.ObjectsOk, L.SpacesOk, L.WordsFit, InverseOk, WholeOk, WordsOk, BasesMarked, EntriesMarked, FrameOk,
      RingsOk, ReachOk, LinksOnly, Inserted;
    NotHead(L, b);
    InsertedLinks(L, T, m, m1, b, e);
    InsertedThreads(L, T, m, m1, b, e);
    LinksKeepWords(L, T, m, m1);
    LinksKeepMarks(L, T, m, m1);
    SameButRings(L, T, Insert(T, b, e), m1);
  }

  // ---- The lists as sequences ----

  function Elements(s: seq<int>): set<int> {
    set x | x in s
  }

  lemma ElementsHold(s: seq<int>)
    ensures forall b :: b in Elements(s) <==> b in s
  {
  }

  ghost predicate ListOk(L: Layout, T: Trail, home: map<int, int>, e: int, s: seq<int>) {
    && e in T.nxt && T.nxt[e] == Nth(s, 0, e) && Distinct(s)
    && (forall i :: 0 <= i < |s| ==>
          s[i] in T.nxt && s[i] !in L.heads && s[i] in home && home[s[i]] == e && T.nxt[s[i]] == Nth(s, i + 1, e))
  }

  /** `lists` gives the arrays on the entry list of each head in order, and `home` the head of the
      list that an array is on. */
  ghost predicate ListsOk(L: Layout, T: Trail, lists: map<int, seq<int>>, home: map<int, int>) {
    && lists.Keys == L.heads
    && (forall e :: e in lists ==> ListOk(L, T, home, e, lists[e]))
    && (forall n :: n in home ==> n in T.nxt && n !in L.heads && home[n] in lists && n in lists[home[n]])
    && (forall n :: n in T.nxt && n !in L.heads ==> n in home)
  }

  lemma ListsSame(L: Layout, T: Trail, T1: Trail, lists: map<int, seq<int>>, home: map<int, int>)
    requires ListsOk(L, T, lists, home) && SameRings(T, T1)
    ensures ListsOk(L, T1, lists, home)
  {
    forall e | e in lists ensures ListOk(L, T1, home, e, lists[e]) {
      assert ListOk(L, T, home, e, lists[e]);
    }
  }

  /** An array that stays on the list is followed by what is next among those that stay. */
  lemma RemoveListAt(L: Layout, T: Trail, home: map<int, int>, e: int, s: seq<int>, k: int, i: int)
    requires RingsOk(L, T) && ListOk(L, T, home, e, s) && 0 <= k < |s| && e in L.heads && s[k] in T.prv
    requires 0 <= i < |s| - 1
    ensures var t, T1, b := Without(s, k), Remove(T, s[k]), s[k];
            t[i] in T1.nxt && t[i] !in L.heads && t[i] in home - {b} && (home - {b})[t[i]] == e &&
            T1.nxt[t[i]] == Nth(t, i + 1, e)
  {
    hide RingsOk, Node, RankOk;
    var b := s[k];
    RingStep(L, T, b);
    var j := if i < k then i else i + 1;
    var p := if k == 0 then e else s[k - 1];
    RingStep(L, T, p);
    assert T.nxt[p] == b && T.prv[b] == p;
    assert Without(s, k)[i] == s[j] && s[j] != b;
  }

  lemma RemoveListOk(L: Layout, T: Trail, home: map<int, int>, e: int, s: seq<int>, k: int)
    requires RingsOk(L, T) && ListOk(L, T, home, e, s) && 0 <= k < |s| && e in L.heads
    ensures s[k] in T.prv && ListOk(L, Remove(T, s[k]), home - {s[k]}, e, Without(s, k))
  {
    hide RingsOk, Node, RankOk;
    var b := s[k];
    RingStep(L, T, b);
    var t, T1 := Without(s, k), Remove(T, b);
    var p := if k == 0 then e else s[k - 1];
    RingStep(L, T, p);
    assert T.nxt[p] == b && T.prv[b] == p;
    assert e != b;
    forall i | 0 <= i < |t|
      ensures t[i] in T1.nxt && t[i] !in L.heads && t[i] in home - {b} && (home - {b})[t[i]] == e
      ensures T1.nxt[t[i]] == Nth(t, i + 1, e)
    {
      RemoveListAt(L, T, home, e, s, k, i);
    }
  }

  lemma RemoveOtherOk(L: Layout, T: Trail, home: map<int, int>, e: int, s: seq<int>, b: int)
    requires RingsOk(L, T) && ListOk(L, T, home, e, s) && b in T.nxt && b in T.prv && b !in s && b != e
    ensures ListOk(L, Remove(T, b), home - {b}, e, s)
  {
    RingStep(L, T, b);
    var T1 := Remove(T, b);
    assert T.nxt[e] != b;
    forall i | 0 <= i < |s|
      ensures s[i] in T1.nxt && s[i] in home - {b} && T1.nxt[s[i]] == Nth(s, i + 1, e)
    {
      assert T.nxt[s[i]] != b;
    }
  }

  lemma RemoveLists(L: Layout, T: Trail, lists: map<int, seq<int>>, home: map<int, int>, e: int, k: int)
    requires RingsOk(L, T) && ListsOk(L, T, lists, home) && e in lists && 0 <= k < |lists[e]|
    ensures var b := lists[e][k];
            b in T.nxt && b in T.prv && b !in L.heads &&
            ListsOk(L, Remove(T, b), lists[e := Without(lists[e], k)], home - {b})
  {
    hide RingsOk, Without, Distinct;
    var b := lists[e][k];
    assert ListOk(L, T, home, e, lists[e]);
    RemoveListOk(L, T, home, e, lists[e], k);
    var lists1 := lists[e := Without(lists[e], k)];
    var T1 := Remove(T, b);
    forall f | f in lists1 ensures ListOk(L, T1, home - {b}, f, lists1[f]) {
      if f != e {
        assert ListOk(L, T, home, f, lists[f]);
        RemoveOtherOk(L, T, home, f, lists[f], b);
      }
    }
    HomesLess(L, T, lists, home, e, k);
  }

  lemma HomesLess(L: Layout, T: Trail, lists: map<int, seq<int>>, home: map<int, int>, e: int, k: int)
    requires ListsOk(L, T, lists, home) && e in lists && 0 <= k < |lists[e]|
    ensures var b, lists1 := lists[e][k], lists[e := Without(lists[e], k)];
            forall n :: n in home - {b} ==> n in T.nxt && n !in L.heads && home[n] in lists1 && n in lists1[home[n]]
  {
    hide ListOk, Without;
    var b, lists1 := lists[e][k], lists[e := Without(lists[e], k)];
    forall n | n in home - {b} ensures home[n] in lists1 && n in lists1[home[n]] {
      if home[n] == e {
        WithoutHas(lists[e], k, n);
      }
    }
  }

  lemma WithoutHas(s: seq<int>, k: int, n: int)
    requires 0 <= k < |s| && n in s && n != s[k]
    ensures n in Without(s, k)
  {
    var j :| 0 <= j < |s| && s[j] == n;
    assert Without(s, k)[if j < k then j else j - 1] == n;
  }

  lemma InsertLists(L: Layout, T: Trail, lists: map<int, seq<int>>, home: map<int, int>, e: int, b: int)
    requires RingsOk(L, T) && ListsOk(L, T, lists, home) && e in lists && b !in T.nxt && b !in L.heads
    ensures e in T.nxt && ListsOk(L, Insert(T, b, e), lists[e := [b] + lists[e]], home[b := e])
  {
    assert ListOk(L, T, home, e, lists[e]);
    RingStep(L, T, e);
    var T1 := Insert(T, b, e);
    var lists1 := lists[e := [b] + lists[e]];
    forall f | f in lists1 ensures ListOk(L, T1, home[b := e], f, lists1[f]) {
      assert ListOk(L, T, home, f, lists[f]);
      assert b !in lists[f];
      if f == e {
        InsertListOk(L, T, home, e, lists[e], b);
      }
    }
    forall n | n in home[b := e]
      ensures n in T1.nxt && n !in L.heads && home[b := e][n] in lists1 && n in lists1[home[b := e][n]]
    {
      if n != b && home[n] == e {
        var j :| 0 <= j < |lists[e]| && lists[e][j] == n;
        assert lists1[e][j + 1] == n;
      }
    }
  }

  lemma InsertListOk(L: Layout, T: Trail, home: map<int, int>, e: int, s: seq<int>, b: int)
    requires ListOk(L, T, home, e, s) && b !in T.nxt && b !in L.heads && e in L.heads && b !in s
    ensures ListOk(L, Insert(T, b, e), home[b := e], e, [b] + s)
  {
    var t := [b] + s;
    var T1 := Insert(T, b, e);
    forall i | 0 <= i < |t|
      ensures t[i] in T1.nxt && t[i] !in L.heads && t[i] in home[b := e] && home[b := e][t[i]] == e
      ensures T1.nxt[t[i]] == Nth(t, i + 1, e)
    {
      if i > 0 {
        assert t[i] == s[i - 1];
      }
    }
  }

  // ---- The writes of the list operations ----

  /** Link words are read and written relative to the present places of the nodes. */
  lemma NodeCur(L: Layout, T: Trail, n: int, i: int)
    requires L.ObjectsOk() && L.SpacesOk() && FwdOk(L, T) && Node(L, n) && (i == 1 || i == 2)
    ensures T.Cur(n + i) == T.Cur(n) + i && 0 < T.Cur(n) && 0 <= T.Cur(n + i) < |L.m0|
  {
    if n in L.heads {
      HeadWords(L, T, n, 0);
      HeadWords(L, T, n, i);
      assert L.HeadWord(n, n) && L.HeadWord(n, n + i);
    } else {
      ArrayLinks(L, T, n, i);
      ArrayCur(L, T, n);
      assert L.Within(n, n + i);
    }
  }

  /** The places that unlinking the array `b` reads and writes. */
  lemma UnlinkPlaces(L: Layout, T: Trail, m: seq<Word>, b: int)
    requires Core(L, T, m) && b in T.nxt
    ensures b in T.prv && T.nxt[b] in T.nxt && T.prv[b] in T.nxt
    ensures forall n {:trigger T.Cur(n)} :: n == b || n == T.nxt[b] || n == T.prv[b] ==>
              T.Cur(n + 1) == T.Cur(n) + 1 && T.Cur(n + 2) == T.Cur(n) + 2 && 0 < T.Cur(n) && T.Cur(n) + 2 < |m|
    ensures At(m, T.Cur(b + 1)) == Imm(T.Cur(T.nxt[b])) && At(m, T.Cur(b + 2)) == Imm(T.Cur(T.prv[b]))
  {
    hide L.ObjectsOk, L.SpacesOk, InverseOk, WholeOk, WordsOk, BasesMarked, EntriesMarked, ReachOk, RingsOk, Node;
    RingStep(L, T, b);
    forall n {:trigger T.Cur(n)} | n == b || n == T.nxt[b] || n == T.prv[b]
      ensures T.Cur(n + 1) == T.Cur(n) + 1 && T.Cur(n + 2) == T.Cur(n) + 2 && 0 < T.Cur(n) && T.Cur(n) + 2 < |m|
    {
      NodeCur(L, T, n, 1);
      NodeCur(L, T, n, 2);
    }
  }

  /** Unlinking writes the two link words that lead to the array from its neighbours. */
  ghost predicate Unlinked(T: Trail, m: seq<Word>, m1: seq<Word>, b: int)
    requires b in T.nxt && b in T.prv
  {
    && |m1| == |m|
    && At(m1, T.Cur(T.prv[b]) + 1) == Imm(T.Cur(T.nxt[b])) && At(m1, T.Cur(T.nxt[b]) + 2) == Imm(T.Cur(T.prv[b]))
    && forall x {:trigger At(m1, x)} ::
         x != T.Cur(T.prv[b]) + 1 && x != T.Cur(T.nxt[b]) + 2 ==> At(m1, x) == At(m, x)
  }

  ghost predicate TwoWords(m: seq<Word>, m1: seq<Word>, x: int, p: Word, q: Word) {
    |m1| == |m| && At(m1, x + 1) == p && At(m1, x + 2) == q &&
    forall z {:trigger At(m1, z)} :: z != x + 1 && z != x + 2 ==> At(m1, z) == At(m, z)
  }

  /** The link words that unlinking `b` writes are no link words of `b`. */
  lemma UnlinkApart(L: Layout, T: Trail, b: int)
    requires L.ObjectsOk() && L.SpacesOk() && FwdOk(L, T) && RingsOk(L, T) && b in T.nxt && b in T.prv && b !in L.heads
    ensures T.Cur(T.prv[b] + 1) != T.Cur(b + 1) && T.Cur(T.prv[b] + 1) != T.Cur(b + 2)
    ensures T.nxt[b] in T.nxt && T.Cur(T.nxt[b] + 2) != T.Cur(b + 1) && T.Cur(T.nxt[b] + 2) != T.Cur(b + 2)
  {
    hide L.ObjectsOk, L.SpacesOk, InverseOk, WholeOk, RingsOk, Node;
    RingStep(L, T, b);
    NodesApart(L, T, T.prv[b], 1, b);
    NodesApart(L, T, T.nxt[b], 2, b);
  }

  lemma UnlinkedRemoved(L: Layout, T: Trail, m: seq<Word>, m1: seq<Word>, m2: seq<Word>, b: int, p: Word)
    requires Core(L, T, m) && b in T.nxt && b in T.prv && b !in L.heads && Unlinked(T, m, m1, b)
    requires p.Imm? && p != Null && TwoWords(m1, m2, T.Cur(b), p, Null)
    ensures Removed(L, T, m, m2, b)
  {
    hide Core, L.ObjectsOk, L.SpacesOk, L.WordsFit, InverseOk, WholeOk, RingsOk;
    CoreRings(L, T, m);
    UnlinkPlaces(L, T, m, b);
    UnlinkApart(L, T, b);
    assert T.Cur(b + 1) == T.Cur(b) + 1 && T.Cur(T.prv[b] + 1) == T.Cur(T.prv[b]) + 1;
    assert T.Cur(T.nxt[b] + 2) == T.Cur(T.nxt[b]) + 2;
  }

  /** What putting `b` in front of the list with head `e` writes. */
  ghost predicate Linked(T: Trail, m: seq<Word>, m1: seq<Word>, b: int, e: int)
    requires e in T.nxt
  {
    && |m1| == |m|
    && At(m1, T.Cur(b) + 1) == Imm(T.Cur(T.nxt[e])) && At(m1, T.Cur(b) + 2) == Imm(T.Cur(e))
    && At(m1, T.Cur(T.nxt[e]) + 2) == Imm(T.Cur(b)) && At(m1, T.Cur(e) + 1) == Imm(T.Cur(b))
    && forall x {:trigger At(m1, x)} ::
         x != T.Cur(b) + 1 && x != T.Cur(b) + 2 && x != T.Cur(T.nxt[e]) + 2 && x != T.Cur(e) + 1 ==>
           At(m1, x) == At(m, x)
  }

  lemma HeadListed(L: Layout, T: Trail, e: int)
    requires RingsOk(L, T) && e in L.heads
    ensures e in T.nxt && Node(L, e)
  {
  }

  lemma LinkPlaces(L: Layout, T: Trail, m: seq<Word>, b: int, e: int)
    requires Core(L, T, m) && e in L.heads && L.Base(b) && IsArray(L.Was(b))
    ensures e in T.nxt && T.Cur(e) == e
    ensures forall n {:trigger T.Cur(n)} :: n == b || n == T.nxt[e] || n == e ==>
              T.Cur(n + 1) == T.Cur(n) + 1 && T.Cur(n + 2) == T.Cur(n) + 2 && 0 < T.Cur(n) && T.Cur(n) + 2 < |m|
    ensures At(m, e + 1) == Imm(T.Cur(T.nxt[e]))
  {
    hide L.ObjectsOk, L.SpacesOk, InverseOk, WholeOk, WordsOk, BasesMarked, EntriesMarked, ReachOk, Node, RingsOk;
    HeadWords(L, T, e, 0);
    HeadListed(L, T, e);
    RingStep(L, T, e);
    ArrayNode(L, b);
    forall n {:trigger T.Cur(n)} | n == b || n == T.nxt[e] || n == e
      ensures T.Cur(n + 1) == T.Cur(n) + 1 && T.Cur(n + 2) == T.Cur(n) + 2 && 0 < T.Cur(n) && T.Cur(n) + 2 < |m|
    {
      NodeCur(L, T, n, 1);
      NodeCur(L, T, n, 2);
    }
  }

  lemma LinkedInserted(L: Layout, T: Trail, m: seq<Word>, m1: seq<Word>, b: int, e: int)
    requires Core(L, T, m) && e in L.heads && e in T.nxt && L.Base(b) && IsArray(L.Was(b)) && Linked(T, m, m1, b, e)
    ensures Inserted(L, T, m, m1, b, e)
  {
    hide L.ObjectsOk, L.SpacesOk, InverseOk, WholeOk, WordsOk, BasesMarked, EntriesMarked, FrameOk, ReachOk, RingsOk,
      Node;
    LinkPlaces(L, T, m, b, e);
  }

  lemma NeighboursApart(L: Layout, T: Trail, m: seq<Word>, b: int)
    requires Core(L, T, m) && b in T.nxt && b in T.prv
    ensures T.nxt[b] in T.nxt && T.Cur(T.prv[b]) + 1 != T.Cur(T.nxt[b]) + 2
  {
    hide Core, L.ObjectsOk, L.SpacesOk, L.WordsFit, InverseOk, WholeOk, RingsOk, Node;
    CoreRings(L, T, m);
    UnlinkPlaces(L, T, m, b);
    RingStep(L, T, b);
    NodesApart(L, T, T.prv[b], 1, T.nxt[b]);
    assert T.Cur(T.prv[b] + 1) == T.Cur(T.prv[b]) + 1;
    assert T.Cur(T.nxt[b] + 2) == T.Cur(T.nxt[b]) + 2;
  }

  lemma LinkApartAll(L: Layout, T: Trail, m: seq<Word>, b: int, e: int)
    requires Core(L, T, m) && e in L.heads && e in T.nxt && L.Base(b) && IsArray(L.Was(b)) && b !in T.nxt
    ensures var q, a := T.Cur(T.nxt[e]), T.Cur(b);
            e + 1 != a + 1 && e + 1 != a + 2 && q + 2 != a + 1 && q + 2 != a + 2 && q + 2 != e + 1
  {
    hide L.ObjectsOk, L.SpacesOk, InverseOk, WholeOk, WordsOk, BasesMarked, EntriesMarked, FrameOk, ReachOk, RingsOk,
      Node;
    LinkPlaces(L, T, m, b, e);
    RingStep(L, T, e);
    ArrayNode(L, b);
    NodesApart(L, T, e, 1, b);
    NodesApart(L, T, T.nxt[e], 2, b);
    NodesApart(L, T, T.nxt[e], 2, e);
  }

  lemma ListedArray(L: Layout, T: Trail, lists: map<int, seq<int>>, home: map<int, int>, b: int)
    requires RingsOk(L, T) && ListsOk(L, T, lists, home) && b in home
    ensures b in T.nxt && b in T.prv && b !in L.heads && L.Base(b) && IsArray(L.Was(b)) && home[b] in L.heads
    ensures home[b] in lists
  {
    RingStep(L, T, b);
  }

  ghost predicate SameFw(T: Trail, T1: Trail) {
    T1.used == T.used && T1.fw == T.fw && T1.bk == T.bk
  }

  lemma CoreRings(L: Layout, T: Trail, m: seq<Word>)
    requires Core(L, T, m)
    ensures RingsOk(L, T) && |m| == |L.m0| && FwdOk(L, T) && L.ObjectsOk() && L.SpacesOk() && L.WordsFit()
  {
  }

  lemma CoreFits(L: Layout, T: Trail, m: seq<Word>)
    requires Core(L, T, m)
    ensures L.WellFormed()
  {
  }

  /** Everything in place for putting `b` in front of the list with head `e`. */
  ghost predicate LinkReady(T: Trail, m: seq<Word>, b: int, e: int) {
    && e in T.nxt && T.Cur(e) == e
    && var a, q := T.Cur(b), T.Cur(T.nxt[e]);
       && 0 < a && a + 2 < |m| && 0 < e && e + 2 < |m| && 0 < q && q + 2 < |m|
       && At(m, e + 1) == Imm(q)
       && e + 1 != a + 1 && e + 1 != a + 2 && q + 2 != a + 1 && q + 2 != a + 2 && q + 2 != e + 1
  }

  lemma RemoveFw(T: Trail, b: int)
    requires b in T.nxt && b in T.prv
    ensures SameFw(T, Remove(T, b)) && b !in Remove(T, b).nxt
    ensures forall a :: Remove(T, b).Cur(a) == T.Cur(a)
  {
  }

  lemma InsertFw(T: Trail, b: int, e: int)
    requires e in T.nxt
    ensures SameFw(T, Insert(T, b, e))
    ensures forall a :: Insert(T, b, e).Cur(a) == T.Cur(a)
  {
  }

  lemma UnlinkPlacesOk(L: Layout, T: Trail, m: seq<Word>, b: int)
    requires Core(L, T, m) && b in T.nxt && b in T.prv
    ensures 0 < T.Cur(b) && T.Cur(b) + 2 < |m|
  {
    UnlinkPlaces(L, T, m, b);
    assert 0 < T.Cur(b);
  }

  /** Between being unlinked and being linked again an array is as good as off all lists. */
  lemma AfterUnlink(L: Layout, T: Trail, m: seq<Word>, m1: seq<Word>, b: int, e: int) returns (m2: seq<Word>)
    requires Core(L, T, m) && b in T.nxt && b in T.prv && b !in L.heads && L.Base(b) && IsArray(L.Was(b))
    requires Unlinked(T, m, m1, b) && e in L.heads
    ensures Core(L, Remove(T, b), m2) && SameFw(T, Remove(T, b)) && b !in Remove(T, b).nxt && OldPlacesKept(T, m, m2)
    ensures |m2| == |m1|
    ensures forall x {:trigger At(m2, x)} :: x != T.Cur(b) + 1 && x != T.Cur(b) + 2 ==> At(m1, x) == At(m2, x)
    ensures LinkReady(Remove(T, b), m2, b, e)
    ensures forall a {:trigger Kept(L, a)} :: Kept(L, a) ==> At(m2, T.Cur(a)) == At(m, T.Cur(a))
    ensures forall a :: Remove(T, b).Cur(a) == T.Cur(a)
  {
    hide L.ObjectsOk, L.SpacesOk, L.WordsFit, Core, RingsOk, Removed, Remove;
    UnlinkPlacesOk(L, T, m, b);
    m2 := m1[T.Cur(b) + 1 := Imm(1)][T.Cur(b) + 2 := Null];
    UnlinkedRemoved(L, T, m, m1, m2, b, Imm(1));
    RemoveCore(L, T, m, m2, b);
    RemoveFw(T, b);
    ReadyToLink(L, Remove(T, b), m2, b, e);
  }

  lemma ReadyToLink(L: Layout, T: Trail, m: seq<Word>, b: int, e: int)
    requires Core(L, T, m) && b !in T.nxt && L.Base(b) && IsArray(L.Was(b)) && e in L.heads
    ensures LinkReady(T, m, b, e)
  {
    hide L.ObjectsOk, L.SpacesOk, L.WordsFit, Core;
    LinkPlaces(L, T, m, b, e);
    assert T.Cur(e) == e;
    assert 0 < T.Cur(b) && 0 < T.Cur(e) && 0 < T.Cur(T.nxt[e]);
    LinkApartAll(L, T, m, b, e);
  }

  lemma AfterLink(L: Layout, T: Trail, m: seq<Word>, m1: seq<Word>, b: int, e: int)
    requires Core(L, T, m) && b !in T.nxt && L.Base(b) && IsArray(L.Was(b)) && e in L.heads
    requires e in T.nxt && Linked(T, m, m1, b, e)
    ensures Core(L, Insert(T, b, e), m1) && SameFw(T, Insert(T, b, e)) && OldPlacesKept(T, m, m1)
    ensures forall a {:trigger Kept(L, a)} :: Kept(L, a) ==> At(m1, T.Cur(a)) == At(m, T.Cur(a))
    ensures forall a :: Insert(T, b, e).Cur(a) == T.Cur(a)
  {
    hide L.ObjectsOk, L.SpacesOk, L.WordsFit, Core, Linked, Insert;
    LinkedInserted(L, T, m, m1, b, e);
    InsertCore(L, T, m, m1, b, e);
    InsertFw(T, b, e);
  }


  lemma ListHead(L: Layout, T: Trail, lists: map<int, seq<int>>, home: map<int, int>, e: int)
    requires ListsOk(L, T, lists, home) && e in lists
    ensures e in L.heads && ListOk(L, T, home, e, lists[e])
  {
  }

  lemma SameCur(T: Trail, T1: Trail, a: int)
    requires SameFw(T, T1)
    ensures T1.Cur(a) == T.Cur(a) && T1.used == T.used
  {
  }

  lemma NoElements()
    ensures forall s: seq<int> {:trigger Elements(s)} :: |s| == 0 ==> Elements(s) == {}
  {
  }
}
