/** The entry lists after a collection, in terms of the new places of the arrays, are entry lists again,
    unless a freed array was left on one of them. */
module Relisting {
  import opened Heap
  import opened Seqs
  import opened Copying
  import opened Moving
  import opened Scanning
  import opened EntryLists
  import opened Remembered
  import opened Sweeping
  import opened Outcome
  import opened Aftermath
  import opened Steady

  // ---- Rings in terms of the new places ----

  ghost function Renamed(T: Trail, f: map<int, int>): map<int, int> {
    map x | x in (set n | n in f :: T.Cur(n)) && Org(T, x) in f :: T.Cur(f[Org(T, x)])
  }

  /** Nothing has been copied yet, and the rings are those of `T` at the new places. */
  ghost function Fresh(T: Trail): Trail {
    Trail(0, map[], map[], Renamed(T, T.nxt), Renamed(T, T.prv),
      map x | x in (set n | n in T.rank :: T.Cur(n)) && Org(T, x) in T.rank :: T.rank[Org(T, x)])
  }

  ghost function NewPlaces(T: Trail, s: seq<int>): (r: seq<int>)
    ensures |r| == |s| && forall i :: 0 <= i < |s| ==> r[i] == T.Cur(s[i])
  {
    seq(|s|, i requires 0 <= i < |s| => T.Cur(s[i]))
  }

  ghost function ListsAfter(T: Trail, lists: map<int, seq<int>>): map<int, seq<int>> {
    map e | e in lists :: NewPlaces(T, lists[e])
  }

  lemma NodeOrg(L: Layout, T: Trail, n: int)
    requires L.SpacesOk() && FwdOk(L, T) && Node(L, n)
    ensures Org(T, T.Cur(n)) == n && (n in L.heads ==> T.Cur(n) == n)
  {
    if n in L.heads {
      assert L.HeadWord(n, n);
    }
  }

  lemma RenamedAt(L: Layout, T: Trail, f: map<int, int>, n: int)
    requires L.SpacesOk() && FwdOk(L, T) && Node(L, n)
    ensures T.Cur(n) in Renamed(T, f) <==> n in f
    ensures n in f ==> Renamed(T, f)[T.Cur(n)] == T.Cur(f[n])
  {
    NodeOrg(L, T, n);
  }

  /** A node of the new rings is the new place of a node of the old ones. */
  lemma RenamedOrg(L: Layout, T: Trail, x: int)
    requires L.SpacesOk() && FwdOk(L, T) && RingsOk(L, T) && x in Fresh(T).nxt
    ensures var n := Org(T, x); n in T.nxt && T.Cur(n) == x && Node(L, n)
  {
    var n :| n in T.nxt && T.Cur(n) == x;
    RingStep(L, T, n);
    NodeOrg(L, T, n);
  }

  lemma RankAt(L: Layout, T: Trail, n: int)
    requires L.SpacesOk() && FwdOk(L, T) && Node(L, n) && n in T.rank
    ensures T.Cur(n) in Fresh(T).rank && Fresh(T).rank[T.Cur(n)] == T.rank[n]
  {
    NodeOrg(L, T, n);
  }

  /** Every array on a list is alive. */
  ghost predicate AllAlive(L: Layout, T: Trail, marked: set<int>) {
    forall n :: n in T.nxt && n !in L.heads ==> Alive(L, T, marked, n)
  }

  /** The new place of a node is a node. */
  lemma NodeAgain(S: Setting, T: Trail, m: seq<Word>, marked: set<int>, n: int)
    requires Preserved(S, T, m, marked) && S.L.ObjectsOk() && S.L.SpacesOk() && Node(S.L, n)
    requires n in S.L.heads || Alive(S.L, T, marked, n)
    ensures Node(After(S, T, m, marked), T.Cur(n)) && (T.Cur(n) in S.L.heads <==> n in S.L.heads)
  {
    hide S.L.ObjectsOk, S.L.SpacesOk, InverseOk, WholeOk, Preserved, After, Next;
    PreservedFwd(S, T, m, marked);
    AfterSame(S, T, m, marked);
    NodeOrg(S.L, T, n);
    if n !in S.L.heads {
      NextWord(S.L, T, m, marked, n);
      FirstWord(S, T, m, marked, n);
      PlaceNoHead(S.L, T, n);
    }
  }

  lemma PlaceNoHead(L: Layout, T: Trail, b: int)
    requires L.SpacesOk() && FwdOk(L, T) && L.Base(b)
    ensures T.Cur(b) !in L.heads
  {
    if T.Cur(b) in L.heads {
      assert L.HeadWord(T.Cur(b), T.Cur(b));
    }
  }

  lemma FreshStep(S: Setting, T: Trail, m: seq<Word>, marked: set<int>, x: int)
    requires Preserved(S, T, m, marked) && S.L.ObjectsOk() && S.L.SpacesOk() && RingsOk(S.L, T)
    requires AllAlive(S.L, T, marked) && x in Fresh(T).nxt
    ensures var N, T1 := After(S, T, m, marked), Fresh(T);
            Node(N, x) && x in T1.prv && T1.nxt[x] in T1.nxt && T1.nxt[x] in T1.prv && T1.prv[x] in T1.nxt &&
            T1.prv[T1.nxt[x]] == x && T1.nxt[T1.prv[x]] == x && RankOk(N, T1, x)
  {
    hide S.L.ObjectsOk, S.L.SpacesOk, InverseOk, WholeOk, Preserved, After, RingsOk, Renamed, Node;
    PreservedFwd(S, T, m, marked);
    AfterSame(S, T, m, marked);
    RenamedOrg(S.L, T, x);
    var n := Org(T, x);
    RingStep(S.L, T, n);
    RingStep(S.L, T, T.nxt[n]);
    RingStep(S.L, T, T.prv[n]);
    NodeAgain(S, T, m, marked, n);
    NodeAgain(S, T, m, marked, T.nxt[n]);
    RenamedAt(S.L, T, T.nxt, n);
    RenamedAt(S.L, T, T.prv, n);
    RenamedAt(S.L, T, T.nxt, T.nxt[n]);
    RenamedAt(S.L, T, T.prv, T.nxt[n]);
    RenamedAt(S.L, T, T.nxt, T.prv[n]);
    if n !in S.L.heads {
      RankAt(S.L, T, n);
      if T.nxt[n] in T.rank {
        RankAt(S.L, T, T.nxt[n]);
      }
    }
  }

  lemma FreshRings(S: Setting, T: Trail, m: seq<Word>, marked: set<int>)
    requires Preserved(S, T, m, marked) && S.L.ObjectsOk() && S.L.SpacesOk() && RingsOk(S.L, T)
    requires AllAlive(S.L, T, marked)
    ensures RingsOk(After(S, T, m, marked), Fresh(T))
  {
    hide S.L.ObjectsOk, S.L.SpacesOk, InverseOk, WholeOk, Preserved, After, Renamed, Node, Fresh, AllAlive;
    PreservedFwd(S, T, m, marked);
    AfterSame(S, T, m, marked);
    var N, T1 := After(S, T, m, marked), Fresh(T);
    forall e | e in N.heads ensures e in T1.nxt {
      HeadFresh(S.L, T, e);
    }
    forall n {:trigger Listed(T1, n)} | Listed(T1, n)
      ensures Node(N, n) && n in T1.prv && T1.nxt[n] in T1.nxt && T1.nxt[n] in T1.prv && T1.prv[n] in T1.nxt &&
              T1.prv[T1.nxt[n]] == n && T1.nxt[T1.prv[n]] == n && RankOk(N, T1, n)
    {
      FreshStep(S, T, m, marked, n);
    }
  }

  lemma HeadFresh(L: Layout, T: Trail, e: int)
    requires L.SpacesOk() && FwdOk(L, T) && RingsOk(L, T) && e in L.heads
    ensures e in T.nxt && e in Fresh(T).nxt && Fresh(T).nxt[e] == T.Cur(T.nxt[e])
  {
    hide L.SpacesOk, InverseOk, WholeOk, Renamed;
    NodeOrg(L, T, e);
    RenamedAt(L, T, T.nxt, e);
  }

  // ---- Threads ----

  /** What the outcome of a collection says about links. */
  ghost predicate LinksLeft(L: Layout, T: Trail, dropped: set<int>, m: seq<Word>, tidy: seq<Word>, marked: set<int>) {
    Core(L, T, tidy) && Agree(L, T, dropped, m, tidy) && AllDoomed(L, T, marked, dropped)
  }

  lemma NodeThread(L: Layout, T: Trail, dropped: set<int>, m: seq<Word>, tidy: seq<Word>, marked: set<int>, n: int)
    requires LinksLeft(L, T, dropped, m, tidy, marked) && n in T.nxt
    ensures n in T.prv && At(m, T.Cur(n) + 1) == Imm(T.Cur(T.nxt[n])) && At(m, T.Cur(n) + 2) == Imm(T.Cur(T.prv[n]))
  {
    hide L.ObjectsOk, L.SpacesOk, L.WordsFit, InverseOk, WholeOk, RingsOk, Agree, Node, AllDoomed;
    RingStep(L, T, n);
    NodeElsewhere(L, T, dropped, m, tidy, n, 1);
    NodeElsewhere(L, T, dropped, m, tidy, n, 2);
    NodeCur(L, T, n, 1);
    NodeCur(L, T, n, 2);
  }

  /** The links of an array that is alive and on no list are not those of one that was swept. */
  lemma OffThread(L: Layout, T: Trail, dropped: set<int>, m: seq<Word>, tidy: seq<Word>, marked: set<int>, b: int)
    requires LinksLeft(L, T, dropped, m, tidy, marked) && Alive(L, T, marked, b) && IsArray(L.Was(b)) && b !in T.nxt
    ensures At(m, T.Cur(b) + 1) != Null && At(m, T.Cur(b) + 2) == Null
  {
    hide L.ObjectsOk, L.SpacesOk, L.WordsFit, InverseOk, WholeOk, RingsOk, Node, AllDoomed, Doomed, LinkAmong, Core;
    CoreRings(L, T, tidy);
    ArrayNode(L, b);
    NodeCur(L, T, b, 1);
    NodeCur(L, T, b, 2);
    NotAmong(L, T, dropped, m, tidy, marked, b, 1);
    NotAmong(L, T, dropped, m, tidy, marked, b, 2);
    CoreUnlisted(L, T, tidy, b);
    assert At(m, T.Cur(b) + 1) == At(tidy, T.Cur(b) + 1) && At(m, T.Cur(b) + 2) == At(tidy, T.Cur(b) + 2);
  }

  lemma CoreUnlisted(L: Layout, T: Trail, m: seq<Word>, b: int)
    requires Core(L, T, m) && L.Base(b) && IsArray(L.Was(b)) && b !in T.nxt
    ensures Unlisted(T, m, b)
  {
    hide L.ObjectsOk, L.SpacesOk, L.WordsFit, FwdOk, RingsOk, WordsOk, BasesMarked, EntriesMarked, FrameOk, ReachOk;
  }

  lemma NotAmong(L: Layout, T: Trail, dropped: set<int>, m: seq<Word>, tidy: seq<Word>, marked: set<int>, b: int,
                 i: int)
    requires LinksLeft(L, T, dropped, m, tidy, marked) && Alive(L, T, marked, b) && IsArray(L.Was(b))
    requires i == 1 || i == 2
    ensures !LinkAmong(T, dropped, T.Cur(b) + i)
  {
    hide L.ObjectsOk, L.SpacesOk, L.WordsFit, InverseOk, WholeOk, RingsOk, Node, Core, Doomed;
    CoreRings(L, T, tidy);
    AliveNotDoomed(L, T, marked, b);
    ArrayNode(L, b);
    NodeCur(L, T, b, i);
    if LinkAmong(T, dropped, T.Cur(b) + i) {
      var c :| c in dropped && (T.Cur(b) + i == T.Cur(c) + 1 || T.Cur(b) + i == T.Cur(c) + 2);
      ArrayNode(L, c);
      NodeCur(L, T, c, 1);
      NodeCur(L, T, c, 2);
      NodesApart(L, T, b, i, c);
    }
  }

  lemma FreshCur(T: Trail)
    ensures forall a {:trigger Fresh(T).Cur(a)} :: Fresh(T).Cur(a) == a
  {
  }

  lemma FreshThreads(S: Setting, T: Trail, m: seq<Word>, tidy: seq<Word>, marked: set<int>, dropped: set<int>)
    requires Preserved(S, T, m, marked) && LinksLeft(S.L, T, dropped, m, tidy, marked) && AllAlive(S.L, T, marked)
    ensures ThreadsOk(After(S, T, m, marked), Fresh(T), m)
  {
    hide S.L.ObjectsOk, S.L.SpacesOk, S.L.WordsFit, InverseOk, WholeOk, Preserved, After, Renamed, Node, Fresh,
      AllAlive, LinksLeft, RingsOk;
    LinkedCore(S.L, T, dropped, m, tidy, marked);
    FreshRings(S, T, m, marked);
    FreshCur(T);
    var N, T1 := After(S, T, m, marked), Fresh(T);
    forall n {:trigger Threaded(T1, m, n)} | n in T1.nxt ensures Threaded(T1, m, n) {
      FreshThread(S, T, m, tidy, marked, dropped, n);
    }
    forall b | N.Base(b) && IsArray(N.Was(b)) && b !in T1.nxt ensures Unlisted(T1, m, b) {
      FreshOff(S, T, m, tidy, marked, dropped, b);
    }
    AssembleThreads(N, T1, m);
  }

  lemma LinkedCore(L: Layout, T: Trail, dropped: set<int>, m: seq<Word>, tidy: seq<Word>, marked: set<int>)
    requires LinksLeft(L, T, dropped, m, tidy, marked)
    ensures RingsOk(L, T) && FwdOk(L, T) && L.ObjectsOk() && L.SpacesOk() && L.WordsFit() && |m| == |L.m0|
  {
    hide Core;
    CoreRings(L, T, tidy);
  }

  lemma FreshThread(S: Setting, T: Trail, m: seq<Word>, tidy: seq<Word>, marked: set<int>, dropped: set<int>, x: int)
    requires LinksLeft(S.L, T, dropped, m, tidy, marked) && x in Fresh(T).nxt
    ensures Threaded(Fresh(T), m, x)
  {
    hide S.L.ObjectsOk, S.L.SpacesOk, S.L.WordsFit, InverseOk, WholeOk, Renamed, Node, LinksLeft, RingsOk;
    LinkedCore(S.L, T, dropped, m, tidy, marked);
    RenamedOrg(S.L, T, x);
    var n := Org(T, x);
    NodeThread(S.L, T, dropped, m, tidy, marked, n);
    RenamedAt(S.L, T, T.nxt, n);
    RenamedAt(S.L, T, T.prv, n);
    FreshCur(T);
  }

  lemma FreshOff(S: Setting, T: Trail, m: seq<Word>, tidy: seq<Word>, marked: set<int>, dropped: set<int>, x: int)
    requires Preserved(S, T, m, marked) && LinksLeft(S.L, T, dropped, m, tidy, marked)
    requires var N := After(S, T, m, marked); N.Base(x) && IsArray(N.Was(x)) && x !in Fresh(T).nxt
    ensures Unlisted(Fresh(T), m, x)
  {
    hide S.L.ObjectsOk, S.L.SpacesOk, S.L.WordsFit, InverseOk, WholeOk, Renamed, Node, LinksLeft, RingsOk, After,
      Preserved;
    LinkedCore(S.L, T, dropped, m, tidy, marked);
    AfterSame(S, T, m, marked);
    OldWord(S, T, m, marked, x);
    var b := Org(T, x);
    FirstWord(S, T, m, marked, b);
    ArrayNode(S.L, b);
    RenamedAt(S.L, T, T.nxt, b);
    OffThread(S.L, T, dropped, m, tidy, marked, b);
    FreshCur(T);
  }

  // ---- Lists ----

  lemma NewDistinct(T: Trail, s: seq<int>)
    requires Distinct(s) && forall i :: 0 <= i < |s| ==> Org(T, T.Cur(s[i])) == s[i]
    ensures Distinct(NewPlaces(T, s))
  {
    hide Org;
    var r := NewPlaces(T, s);
    forall i, j | 0 <= i < j < |r| ensures r[i] != r[j] {
      assert Org(T, r[i]) == s[i] && Org(T, r[j]) == s[j];
    }
  }

  lemma NewNth(T: Trail, s: seq<int>, e: int, i: int)
    requires T.Cur(e) == e && 0 <= i
    ensures Nth(NewPlaces(T, s), i, e) == T.Cur(Nth(s, i, e))
  {
  }

  lemma AssembleList(N: Layout, T: Trail, homes: map<int, int>, e: int, r: seq<int>)
    requires e in T.nxt && T.nxt[e] == Nth(r, 0, e) && Distinct(r)
    requires forall i :: 0 <= i < |r| ==> ListedAt(N, T, homes, e, r, i)
    ensures ListOk(N, T, homes, e, r)
  {
    hide Distinct, Nth;
    forall i | 0 <= i < |r|
      ensures r[i] in T.nxt && r[i] !in N.heads && r[i] in homes && homes[r[i]] == e && T.nxt[r[i]] == Nth(r, i + 1, e)
    {
      assert ListedAt(N, T, homes, e, r, i);
    }
  }

  ghost predicate ListedAt(N: Layout, T: Trail, homes: map<int, int>, e: int, r: seq<int>, i: int)
    requires 0 <= i < |r|
  {
    r[i] in T.nxt && r[i] !in N.heads && r[i] in homes && homes[r[i]] == e && T.nxt[r[i]] == Nth(r, i + 1, e)
  }

  lemma FreshListedAt(S: Setting, T: Trail, m: seq<Word>, marked: set<int>, home: map<int, int>, e: int, s: seq<int>,
                      i: int)
    requires Preserved(S, T, m, marked) && S.L.ObjectsOk() && S.L.SpacesOk() && RingsOk(S.L, T)
    requires AllAlive(S.L, T, marked)
    requires ListOk(S.L, T, home, e, s) && T.Cur(e) == e && 0 <= i < |s|
    ensures ListedAt(After(S, T, m, marked), Fresh(T), HomesAfter(S, T, m, marked, home), e, NewPlaces(T, s), i)
    ensures Org(T, T.Cur(s[i])) == s[i]
  {
    hide S.L.ObjectsOk, S.L.SpacesOk, InverseOk, WholeOk, Preserved, After, Fresh, AllAlive, RingsOk, HomesAfter, Org,
      Nth, Distinct;
    AfterSame(S, T, m, marked);
    FreshListed(S, T, m, marked, home, s[i]);
    NewNth(T, s, e, i + 1);
  }

  lemma FreshList(S: Setting, T: Trail, m: seq<Word>, marked: set<int>, home: map<int, int>, e: int, s: seq<int>)
    requires Preserved(S, T, m, marked) && S.L.ObjectsOk() && S.L.SpacesOk() && RingsOk(S.L, T)
    requires AllAlive(S.L, T, marked)
    requires ListOk(S.L, T, home, e, s) && e in S.L.heads
    ensures ListOk(After(S, T, m, marked), Fresh(T), HomesAfter(S, T, m, marked, home), e, NewPlaces(T, s))
  {
    hide S.L.ObjectsOk, S.L.SpacesOk, InverseOk, WholeOk, Preserved, After, Fresh, AllAlive, RingsOk, HomesAfter, Org,
      Nth, Distinct, ListedAt;
    PreservedFwd(S, T, m, marked);
    HeadFresh(S.L, T, e);
    HeadStays(S.L, T, e);
    var N, r, T1, homes := After(S, T, m, marked), NewPlaces(T, s), Fresh(T), HomesAfter(S, T, m, marked, home);
    forall i | 0 <= i < |r| ensures ListedAt(N, T1, homes, e, r, i) && Org(T, T.Cur(s[i])) == s[i] {
      FreshListedAt(S, T, m, marked, home, e, s, i);
    }
    NewNth(T, s, e, 0);
    NewDistinct(T, s);
    AssembleList(N, T1, homes, e, r);
  }

  lemma HeadStays(L: Layout, T: Trail, e: int)
    requires L.SpacesOk() && FwdOk(L, T) && e in L.heads
    ensures T.Cur(e) == e
  {
    NodeOrg(L, T, e);
  }

  lemma FreshListed(S: Setting, T: Trail, m: seq<Word>, marked: set<int>, home: map<int, int>, b: int)
    requires Preserved(S, T, m, marked) && S.L.ObjectsOk() && S.L.SpacesOk() && RingsOk(S.L, T)
    requires AllAlive(S.L, T, marked)
    requires b in T.nxt && b !in S.L.heads && b in home
    ensures var T1, homes := Fresh(T), HomesAfter(S, T, m, marked, home);
            Org(T, T.Cur(b)) == b && T.Cur(b) in T1.nxt && T.Cur(b) !in S.L.heads && T.Cur(b) in homes &&
              homes[T.Cur(b)] == home[b] &&
            T1.nxt[T.Cur(b)] == T.Cur(T.nxt[b])
  {
    hide S.L.ObjectsOk, S.L.SpacesOk, InverseOk, WholeOk, Preserved, After, Renamed, Node, RingsOk, HomesAfter;
    PreservedFwd(S, T, m, marked);
    AfterSame(S, T, m, marked);
    RingStep(S.L, T, b);
    NodeOrg(S.L, T, b);
    NodeAgain(S, T, m, marked, b);
    RenamedAt(S.L, T, T.nxt, b);
    NextWord(S.L, T, m, marked, b);
    HomeAt(S, T, m, marked, home, T.Cur(b));
  }

  lemma FreshHome(S: Setting, T: Trail, m: seq<Word>, marked: set<int>, lists: map<int, seq<int>>, home: map<int, int>,
                  x: int)
    requires Preserved(S, T, m, marked) && S.L.ObjectsOk() && S.L.SpacesOk() && RingsOk(S.L, T)
    requires AllAlive(S.L, T, marked)
    requires ListsOk(S.L, T, lists, home) && x in HomesAfter(S, T, m, marked, home)
    ensures var T1, lists1, homes := Fresh(T), ListsAfter(T, lists), HomesAfter(S, T, m, marked, home);
            x in T1.nxt && x !in S.L.heads && homes[x] in lists1 && x in lists1[homes[x]]
  {
    hide S.L.ObjectsOk, S.L.SpacesOk, InverseOk, WholeOk, Preserved, AllAlive, RingsOk, HomesAfter, Fresh, ListOk, Org,
      NewPlaces;
    PreservedFwd(S, T, m, marked);
    HomesOrg(S, T, m, marked, home, x);
    FreshListed(S, T, m, marked, home, Org(T, x));
    InNewPlaces(T, lists[home[Org(T, x)]], Org(T, x));
  }

  lemma FreshNode(S: Setting, T: Trail, m: seq<Word>, marked: set<int>, lists: map<int, seq<int>>, home: map<int, int>,
                  x: int)
    requires Preserved(S, T, m, marked) && S.L.ObjectsOk() && S.L.SpacesOk() && RingsOk(S.L, T)
    requires AllAlive(S.L, T, marked)
    requires ListsOk(S.L, T, lists, home) && x in Fresh(T).nxt && x !in S.L.heads
    ensures x in HomesAfter(S, T, m, marked, home)
  {
    hide S.L.ObjectsOk, S.L.SpacesOk, InverseOk, WholeOk, Preserved, AllAlive, RingsOk, HomesAfter, Fresh, ListOk, Org;
    PreservedFwd(S, T, m, marked);
    RenamedOrg(S.L, T, x);
    NodeOrg(S.L, T, Org(T, x));
    FreshListed(S, T, m, marked, home, Org(T, x));
  }

  lemma AssembleLists(N: Layout, T: Trail, lists: map<int, seq<int>>, homes: map<int, int>)
    requires lists.Keys == N.heads && forall e :: e in lists ==> ListOk(N, T, homes, e, lists[e])
    requires forall x :: x in homes ==> x in T.nxt && x !in N.heads && homes[x] in lists && x in lists[homes[x]]
    requires forall x :: x in T.nxt && x !in N.heads ==> x in homes
    ensures ListsOk(N, T, lists, homes)
  {
    hide ListOk;
  }

  lemma ListsAfterAt(T: Trail, lists: map<int, seq<int>>)
    ensures ListsAfter(T, lists).Keys == lists.Keys
    ensures forall e :: e in lists ==> ListsAfter(T, lists)[e] == NewPlaces(T, lists[e])
  {
  }

  lemma FreshLists(S: Setting, T: Trail, m: seq<Word>, marked: set<int>, lists: map<int, seq<int>>, home: map<int, int>)
    requires Preserved(S, T, m, marked) && S.L.ObjectsOk() && S.L.SpacesOk() && RingsOk(S.L, T)
    requires AllAlive(S.L, T, marked)
    requires ListsOk(S.L, T, lists, home)
    ensures ListsOk(After(S, T, m, marked), Fresh(T), ListsAfter(T, lists), HomesAfter(S, T, m, marked, home))
  {
    hide S.L.ObjectsOk, S.L.SpacesOk, Preserved, After, AllAlive, RingsOk, HomesAfter, Fresh, ListOk, NewPlaces,
      ListsAfter, ListsOk;
    AfterSame(S, T, m, marked);
    ListsAfterAt(T, lists);
    var N, T1, lists1, homes :=
      After(S, T, m, marked), Fresh(T), ListsAfter(T, lists), HomesAfter(S, T, m, marked, home);
    forall e | e in lists1 ensures ListOk(N, T1, homes, e, lists1[e]) {
      ListHead(S.L, T, lists, home, e);
      FreshList(S, T, m, marked, home, e, lists[e]);
    }
    forall x | x in homes ensures x in T1.nxt && x !in N.heads && homes[x] in lists1 && x in lists1[homes[x]] {
      FreshHome(S, T, m, marked, lists, home, x);
    }
    forall x | x in T1.nxt && x !in N.heads ensures x in homes {
      FreshNode(S, T, m, marked, lists, home, x);
    }
    ListHeads(S.L, T, lists, home);
    AssembleLists(N, T1, lists1, homes);
  }

  lemma ListHeads(L: Layout, T: Trail, lists: map<int, seq<int>>, home: map<int, int>)
    requires ListsOk(L, T, lists, home)
    ensures lists.Keys == L.heads
  {
  }

  lemma InNewPlaces(T: Trail, s: seq<int>, b: int)
    requires b in s
    ensures T.Cur(b) in NewPlaces(T, s)
  {
    var i :| 0 <= i < |s| && s[i] == b;
    assert NewPlaces(T, s)[i] == T.Cur(b);
  }

  lemma HomesOrg(S: Setting, T: Trail, m: seq<Word>, marked: set<int>, home: map<int, int>, x: int)
    requires S.L.ObjectsOk() && S.L.SpacesOk() && FwdOk(S.L, T) && x in HomesAfter(S, T, m, marked, home)
    ensures var b := Org(T, x); b in home && T.Cur(b) == x && HomesAfter(S, T, m, marked, home)[x] == home[b]
  {
    OldWord(S, T, m, marked, x);
  }

  // ---- When the lists are in order ----

  /** The arrays on lists that are left behind are just those that `Stranded` tells. */
  ghost predicate LeftAre(S: Setting, T: Trail, marked: set<int>, home: map<int, int>) {
    forall b :: S.L.Base(b) && IsArray(S.L.Was(b)) ==> (b in home && Doomed(S.L, T, marked, b) <==> Stranded(S, b))
  }

  /** The links of the memory `m` lead from each head through arrays of the heap and back. */
  ghost predicate InOrder(N: Layout, m: seq<Word>) {
    exists T: Trail :: T.fw == map[] && ThreadsOk(N, T, m)
  }

  ghost predicate SomeStranded(S: Setting) {
    exists b :: Stranded(S, b)
  }

  lemma NotDoomedAlive(L: Layout, T: Trail, marked: set<int>, b: int)
    requires L.SpacesOk() && FwdOk(L, T) && L.Base(b) && !Doomed(L, T, marked, b)
    requires b in marked ==> L.Type(b) == MlStatic
    ensures Alive(L, T, marked, b)
  {
  }

  lemma NoneStranded(S: Setting, T: Trail, marked: set<int>, lists: map<int, seq<int>>, home: map<int, int>)
    requires S.L.SpacesOk() && FwdOk(S.L, T) && RingsOk(S.L, T) && ListsOk(S.L, T, lists, home)
    requires LeftAre(S, T, marked, home)
    requires (forall b :: b in marked ==> S.L.Type(b) == MlStatic) && forall b :: !Stranded(S, b)
    ensures AllAlive(S.L, T, marked)
  {
    hide S.L.SpacesOk, InverseOk, WholeOk, RingsOk, Doomed, Stranded, Alive, ListOk;
    forall n | n in T.nxt && n !in S.L.heads ensures Alive(S.L, T, marked, n) {
      RingStep(S.L, T, n);
      NotDoomedAlive(S.L, T, marked, n);
    }
  }

  /** Following the forward links from the head `e` one comes to every array on its list. */
  lemma {:induction false} Walk(S: Setting, T: Trail, m: seq<Word>, tidy: seq<Word>, marked: set<int>,
                                dropped: set<int>, home: map<int, int>,
                                N: Layout, T1: Trail, e: int, s: seq<int>, k: nat)
    requires LinksLeft(S.L, T, dropped, m, tidy, marked) && ListOk(S.L, T, home, e, s) && e in S.L.heads && k <= |s|
    requires N.heads == S.L.heads && T1.fw == map[] && ThreadsOk(N, T1, m)
    ensures T.Cur(if k == 0 then e else s[k - 1]) in T1.nxt
  {
    hide S.L.ObjectsOk, S.L.SpacesOk, S.L.WordsFit, FwdOk, Node, LinksLeft, RingsOk, Distinct;
    LinkedCore(S.L, T, dropped, m, tidy, marked);
    if k == 0 {
      HeadStays(S.L, T, e);
      HeadListed(N, T1, e);
    } else {
      var n := if k == 1 then e else s[k - 2];
      Walk(S, T, m, tidy, marked, dropped, home, N, T1, e, s, k - 1);
      NodeThread(S.L, T, dropped, m, tidy, marked, n);
      RingStep(N, T1, T.Cur(n));
      assert T1.Cur(T.Cur(n) + 1) == T.Cur(n) + 1;
    }
  }

  /** With a freed array on a list, the entry lists of the heap after the collection lead out of the heap. */
  lemma StrandedBreaks(S: Setting, T: Trail, m: seq<Word>, tidy: seq<Word>, marked: set<int>, dropped: set<int>,
                       lists: map<int, seq<int>>,
                       home: map<int, int>, b: int, T1: Trail)
    requires LinksLeft(S.L, T, dropped, m, tidy, marked) && ListsOk(S.L, T, lists, home) && LeftAre(S, T, marked, home)
    requires Stranded(S, b) && T1.fw == map[]
    ensures !ThreadsOk(After(S, T, m, marked), T1, m)
  {
    hide S.L.ObjectsOk, S.L.SpacesOk, S.L.WordsFit, FwdOk, LinksLeft, RingsOk, Distinct, After, Doomed, ListOk;
    LinkedCore(S.L, T, dropped, m, tidy, marked);
    var N := After(S, T, m, marked);
    AfterSame(S, T, m, marked);
    if ThreadsOk(N, T1, m) {
      assert b in home && Doomed(S.L, T, marked, b);
      ListHead(S.L, T, lists, home, home[b]);
      var i :| 0 <= i < |lists[home[b]]| && lists[home[b]][i] == b;
      Walk(S, T, m, tidy, marked, dropped, home, N, T1, home[b], lists[home[b]], i + 1);
      RingStep(N, T1, T.Cur(b));
      StrandedPlace(S, T, marked, lists, home, b);
      OldWord(S, T, m, marked, b);
      OrgAt(S.L, T, b);
      AliveNotDoomed(S.L, T, marked, b);
    }
  }

  lemma OrgAt(L: Layout, T: Trail, b: int)
    requires L.SpacesOk() && FwdOk(L, T) && L.Base(b)
    ensures Org(T, T.Cur(b)) == b
  {
  }

  lemma StrandedPlace(S: Setting, T: Trail, marked: set<int>, lists: map<int, seq<int>>, home: map<int, int>, b: int)
    requires FwdOk(S.L, T) && ListsOk(S.L, T, lists, home) && b in home && Stranded(S, b)
    ensures T.Cur(b) == b && b !in S.L.heads && S.L.own[b] == b
  {
  }

  /** The entry lists of the heap after the collection are in order if and only if no freed array was left
      on one, which can be told before the collection. */
  lemma InOrderIffNoneStranded(S: Setting, T: Trail, m: seq<Word>, tidy: seq<Word>, marked: set<int>, dropped: set<int>,
                               lists: map<int, seq<int>>,
                               home: map<int, int>)
    requires LinksLeft(S.L, T, dropped, m, tidy, marked) && ListsOk(S.L, T, lists, home) && LeftAre(S, T, marked, home)
    requires Preserved(S, T, m, marked)
    requires forall b :: b in marked ==> S.L.Type(b) == MlStatic
    ensures InOrder(After(S, T, m, marked), m) <==> !SomeStranded(S)
    ensures !SomeStranded(S) ==> ThreadsOk(After(S, T, m, marked), Fresh(T), m)
    ensures !SomeStranded(S) ==>
            ListsOk(After(S, T, m, marked), Fresh(T), ListsAfter(T, lists), HomesAfter(S, T, m, marked, home))
  {
    hide S.L.ObjectsOk, S.L.SpacesOk, S.L.WordsFit, FwdOk, LinksLeft, RingsOk, After, ListsOk, Stranded, LeftAre,
      ThreadsOk, Preserved, HomesAfter, ListsAfter;
    LinkedCore(S.L, T, dropped, m, tidy, marked);
    if b :| Stranded(S, b) {
      forall T1: Trail | T1.fw == map[] ensures !ThreadsOk(After(S, T, m, marked), T1, m) {
        StrandedBreaks(S, T, m, tidy, marked, dropped, lists, home, b, T1);
      }
    } else {
      NoneStranded(S, T, marked, lists, home);
      FreshThreads(S, T, m, tidy, marked, dropped);
      FreshLists(S, T, m, marked, lists, home);
      assert Fresh(T).fw == map[];
    }
  }
}
