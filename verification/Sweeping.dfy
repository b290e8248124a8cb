/** Sweeping the entry lists: arrays that were left behind are unlinked, but their own links are not
    touched. */
module Sweeping {
  import opened Heap
  import opened Seqs
  import opened Copying
  import opened Moving
  import opened EntryLists
  import opened Remembered

  /** `x` is a link word of one of the arrays `S`. */
  ghost predicate LinkAmong(T: Trail, S: set<int>, x: int) {
    exists b :: b in S && (x == T.Cur(b) + 1 || x == T.Cur(b) + 2)
  }

  /** The memories agree but for the links of the arrays `S`, which are on no list any more. */
  ghost predicate Agree(L: Layout, T: Trail, S: set<int>, m: seq<Word>, tidy: seq<Word>) {
    && |m| == |tidy|
    && (forall b :: b in S ==> L.Base(b) && IsArray(L.Was(b)) && b !in T.nxt)
    && (forall x {:trigger At(m, x)} :: At(m, x) == At(tidy, x) || LinkAmong(T, S, x))
  }

  lemma AgreeRefl(L: Layout, T: Trail, m: seq<Word>)
    ensures Agree(L, T, {}, m, m)
  {
  }

  /** The links of a node on a list are not those of an array on none. */
  lemma NodeElsewhere(L: Layout, T: Trail, S: set<int>, m: seq<Word>, tidy: seq<Word>, n: int, i: int)
    requires Core(L, T, tidy) && Agree(L, T, S, m, tidy) && n in T.nxt && (i == 1 || i == 2)
    ensures !LinkAmong(T, S, T.Cur(n) + i) && At(m, T.Cur(n) + i) == At(tidy, T.Cur(n) + i)
  {
    hide Core, L.ObjectsOk, L.SpacesOk, InverseOk, WholeOk, RingsOk, Node;
    CoreRings(L, T, tidy);
    RingStep(L, T, n);
    NodeCur(L, T, n, i);
    if LinkAmong(T, S, T.Cur(n) + i) {
      var b :| b in S && (T.Cur(n) + i == T.Cur(b) + 1 || T.Cur(n) + i == T.Cur(b) + 2);
      ArrayNode(L, b);
      NodeCur(L, T, b, 1);
      NodeCur(L, T, b, 2);
      NodesApart(L, T, n, i, b);
    }
  }

  /** What unlinking the array `b` writes, with the link words it finds. */
  ghost predicate Skips(T: Trail, m: seq<Word>, m1: seq<Word>, b: int)
    requires b in T.nxt && b in T.prv
  {
    && |m1| == |m|
    && At(m1, T.Cur(T.prv[b]) + 1) == Imm(T.Cur(T.nxt[b])) && At(m1, T.Cur(T.nxt[b]) + 2) == Imm(T.Cur(T.prv[b]))
    && forall x {:trigger At(m1, x)} :: x != T.Cur(T.prv[b]) + 1 && x != T.Cur(T.nxt[b]) + 2 ==> At(m1, x) == At(m, x)
  }

  /** Dropping an array from its list. */
  lemma Dropped(L: Layout, T: Trail, S: set<int>, m: seq<Word>, tidy: seq<Word>, m1: seq<Word>, b: int)
    returns (tidy1: seq<Word>)
    requires Core(L, T, tidy) && Agree(L, T, S, m, tidy) && b in T.nxt && b in T.prv && b !in L.heads && L.Base(b)
    requires IsArray(L.Was(b))
    requires Skips(T, m, m1, b)
    ensures Core(L, Remove(T, b), tidy1) && Agree(L, Remove(T, b), S + {b}, m1, tidy1) && SameFw(T, Remove(T, b))
    ensures forall a {:trigger Kept(L, a)} :: Kept(L, a) ==> At(tidy1, T.Cur(a)) == At(tidy, T.Cur(a))
  {
    hide Core, L.ObjectsOk, L.SpacesOk, InverseOk, WholeOk, RingsOk, Removed, Remove, LinkAmong;
    UnlinkPlacesOk(L, T, tidy, b);
    UnlinkPlaces(L, T, tidy, b);
    var f, k, a := T.Cur(T.nxt[b]), T.Cur(T.prv[b]), T.Cur(b);
    assert 0 < f && f + 2 < |tidy| && 0 < k && k + 2 < |tidy|;
    NeighboursApart(L, T, tidy, b);
    var u := tidy[k + 1 := Imm(f)][f + 2 := Imm(k)];
    tidy1 := u[a + 1 := Imm(1)][a + 2 := Null];
    assert Unlinked(T, tidy, u, b);
    UnlinkedRemoved(L, T, tidy, u, tidy1, b, Imm(1));
    RemoveCore(L, T, tidy, tidy1, b);
    RemoveFw(T, b);
    DroppedAgree(L, T, S, m, tidy, m1, tidy1, b);
  }

  lemma DroppedAgree(L: Layout, T: Trail, S: set<int>, m: seq<Word>, tidy: seq<Word>, m1: seq<Word>, tidy1: seq<Word>,
                     b: int)
    requires Agree(L, T, S, m, tidy) && b in T.nxt && b in T.prv && L.Base(b) && IsArray(L.Was(b))
    requires Skips(T, m, m1, b) && |tidy1| == |tidy|
    requires forall x {:trigger At(tidy1, x)} :: x != T.Cur(b) + 1 && x != T.Cur(b) + 2 ==>
               At(tidy1, x) == if x == T.Cur(T.nxt[b]) + 2 then Imm(T.Cur(T.prv[b]))
                 else if x == T.Cur(T.prv[b]) + 1 then Imm(T.Cur(T.nxt[b])) else At(tidy, x)
    ensures Agree(L, Remove(T, b), S + {b}, m1, tidy1)
  {
    var T1 := Remove(T, b);
    RemoveFw(T, b);
    forall x {:trigger At(m1, x)} ensures At(m1, x) == At(tidy1, x) || LinkAmong(T1, S + {b}, x) {
      if LinkAmong(T, S, x) {
        var c :| c in S && (x == T.Cur(c) + 1 || x == T.Cur(c) + 2);
        assert T1.Cur(c) == T.Cur(c);
        assert LinkAmong(T1, S + {b}, x);
      } else if x == T.Cur(b) + 1 || x == T.Cur(b) + 2 {
        assert T1.Cur(b) == T.Cur(b);
        assert b in S + {b};
        assert LinkAmong(T1, S + {b}, x);
      }
    }
    forall c | c in S + {b} ensures L.Base(c) && IsArray(L.Was(c)) && c !in T1.nxt {
    }
  }

  /** An array that is left behind in from-space, or is a static object that will be freed. */
  ghost predicate Doomed(L: Layout, T: Trail, marked: set<int>, b: int) {
    L.Type(T.Cur(b)) == From || (L.Type(T.Cur(b)) == MlStatic && T.Cur(b) in marked)
  }

  /** The arrays of `s` that are not doomed. */
  ghost function Survivors(L: Layout, T: Trail, marked: set<int>, s: seq<int>): (r: seq<int>)
    ensures forall b :: b in r <==> b in s && !Doomed(L, T, marked, b)
  {
    if s == [] then []
    else
      var r := Survivors(L, T, marked, s[..|s| - 1]);
      var b := s[|s| - 1];
      assert s == s[..|s| - 1] + [b];
      if Doomed(L, T, marked, b) then r else r + [b]
  }

  lemma {:induction false} SurvivorsSame(L: Layout, T: Trail, T1: Trail, marked: set<int>, s: seq<int>)
    requires SameFw(T, T1)
    ensures Survivors(L, T1, marked, s) == Survivors(L, T, marked, s)
  {
    if s != [] {
      SurvivorsSame(L, T, T1, marked, s[..|s| - 1]);
      SameCur(T, T1, s[|s| - 1]);
    }
  }

  lemma SurvivorsStep(L: Layout, T: Trail, marked: set<int>, s: seq<int>, k: int)
    requires 0 <= k < |s|
    ensures Survivors(L, T, marked, s[..k + 1]) == Survivors(L, T, marked,
            s[..k]) + if Doomed(L, T, marked, s[k]) then [] else [s[k]]
  {
    assert s[..k + 1][..k] == s[..k];
  }

  /** What the sweep of an array on a list reads. */
  lemma SweepWords(L: Layout, T: Trail, S: set<int>, m: seq<Word>, tidy: seq<Word>, lists: map<int, seq<int>>,
                   home: map<int, int>, b: int)
    requires Core(L, T, tidy) && Agree(L, T, S, m, tidy) && ListsOk(L, T, lists, home) && b in home
    ensures b in T.nxt && b in T.prv && b !in L.heads && L.Base(b) && IsArray(L.Was(b)) && T.nxt[b] in T.nxt
    ensures T.prv[b] in T.nxt
    ensures 0 < T.Cur(b) && T.Cur(b) + 2 < |m|
    ensures At(m, T.Cur(b) + 1) == Imm(T.Cur(T.nxt[b])) && At(m, T.Cur(b) + 2) == Imm(T.Cur(T.prv[b]))
    ensures 0 < T.Cur(T.nxt[b]) && T.Cur(T.nxt[b]) + 2 < |m| && 0 < T.Cur(T.prv[b]) && T.Cur(T.prv[b]) + 2 < |m|
    ensures T.Cur(T.prv[b]) + 1 != T.Cur(T.nxt[b]) + 2
    ensures T.Cur(b) + 1 != T.Cur(T.nxt[b]) + 2 && T.Cur(b) + 2 != T.Cur(T.nxt[b]) + 2
    ensures T.Cur(b) + 1 != T.Cur(T.prv[b]) + 1
    ensures T.Cur(b) + 2 != T.Cur(T.prv[b]) + 1
  {
    hide Core, L.ObjectsOk, L.SpacesOk, InverseOk, WholeOk, RingsOk, ListsOk, LinkAmong, Node;
    CoreRings(L, T, tidy);
    ListedArray(L, T, lists, home, b);
    UnlinkPlaces(L, T, tidy, b);
    RingStep(L, T, b);
    NodeElsewhere(L, T, S, m, tidy, b, 1);
    NodeElsewhere(L, T, S, m, tidy, b, 2);
    NeighboursApart(L, T, tidy, b);
    OwnLinksApart(L, T, tidy, b);
    assert 0 < T.Cur(b) && 0 < T.Cur(T.nxt[b]) && 0 < T.Cur(T.prv[b]);
  }

  lemma OwnLinksApart(L: Layout, T: Trail, m: seq<Word>, b: int)
    requires Core(L, T, m) && b in T.nxt && b in T.prv && b !in L.heads
    ensures T.nxt[b] in T.nxt && T.prv[b] in T.nxt
    ensures T.Cur(b) + 1 != T.Cur(T.nxt[b]) + 2 && T.Cur(b) + 2 != T.Cur(T.nxt[b]) + 2
    ensures T.Cur(b) + 1 != T.Cur(T.prv[b]) + 1
    ensures T.Cur(b) + 2 != T.Cur(T.prv[b]) + 1
  {
    hide Core, L.ObjectsOk, L.SpacesOk, InverseOk, WholeOk, RingsOk, Node;
    CoreRings(L, T, m);
    UnlinkPlaces(L, T, m, b);
    RingStep(L, T, b);
    NodesApart(L, T, b, 1, T.nxt[b]);
    NodesApart(L, T, b, 2, T.nxt[b]);
    NodesApart(L, T, b, 1, T.prv[b]);
    NodesApart(L, T, b, 2, T.prv[b]);
  }

  lemma SweepStart(L: Layout, T: Trail, S: set<int>, m: seq<Word>, tidy: seq<Word>, lists: map<int, seq<int>>,
                   home: map<int, int>, gen: int)
    requires Core(L, T, tidy) && Agree(L, T, S, m, tidy) && ListsOk(L, T, lists, home) && gen in lists
    ensures 0 < gen && gen + 2 < |m| && At(m, gen + 1) == Imm(T.Cur(Nth(lists[gen], 0, gen))) && Distinct(lists[gen])
  {
    hide Core, RingsOk, ListsOk, LinkAmong;
    CoreRings(L, T, tidy);
    ListHead(L, T, lists, home, gen);
    FirstPlace(L, T, tidy, lists, home, gen);
    HeadWords(L, T, gen, 0);
    NodeElsewhere(L, T, S, m, tidy, gen, 1);
  }

  lemma NextOnList(L: Layout, T: Trail, lists: map<int, seq<int>>, home: map<int, int>, gen: int, k: int)
    requires ListsOk(L, T, lists, home) && gen in lists && 0 <= k < |lists[gen]|
    ensures lists[gen][k] in T.nxt && T.nxt[lists[gen][k]] == Nth(lists[gen], k + 1, gen)
  {
    assert ListOk(L, T, home, gen, lists[gen]);
  }

  /** Just the doomed arrays that were on the lists `G` are on no list any more. */
  ghost predicate HomeSwept(L: Layout, T: Trail, marked: set<int>, home: map<int, int>, home1: map<int, int>, n: int,
                            gone: bool) {
    if n in home && gone && Doomed(L, T, marked, n) then n !in home1 else SameHome(home, home1, n)
  }

  ghost predicate ListSwept(L: Layout, T: Trail, marked: set<int>, home: map<int, int>, home1: map<int, int>,
                            s: seq<int>) {
    forall n {:trigger HomeSwept(L, T, marked, home, home1, n, n in s)} ::
      HomeSwept(L, T, marked, home, home1, n, n in s)
  }

  lemma SweptNone(L: Layout, T: Trail, marked: set<int>, home: map<int, int>)
    ensures ListSwept(L, T, marked, home, home, [])
  {
  }

  lemma DoomedSame(L: Layout, T: Trail, T1: Trail, marked: set<int>, b: int)
    requires SameFw(T, T1)
    ensures Doomed(L, T1, marked, b) <==> Doomed(L, T, marked, b)
  {
    SameCur(T, T1, b);
  }

  lemma SweptMore(L: Layout, T: Trail, T1: Trail, marked: set<int>, home: map<int, int>, home1: map<int, int>,
                  home2: map<int, int>, s: seq<int>, k: int)
    requires 0 <= k < |s| && ListSwept(L, T, marked, home, home1, s[..k]) && SameFw(T, T1) && s[k] in home1
    requires Distinct(s)
    requires home2 == if Doomed(L, T, marked, s[k]) then home1 - {s[k]} else home1
    ensures ListSwept(L, T1, marked, home, home2, s[..k + 1])
  {
    hide Doomed, SameFw;
    var t := s[..k + 1];
    assert t == s[..k] + [s[k]];
    forall n {:trigger HomeSwept(L, T1, marked, home, home2, n, n in t)}
      ensures HomeSwept(L, T1, marked, home, home2, n, n in t)
    {
      DoomedSame(L, T, T1, marked, n);
      assert HomeSwept(L, T, marked, home, home1, n, n in s[..k]);
      if n != s[k] && Doomed(L, T, marked, s[k]) {
        SameHomeBut(home1, home2, s[k], n);
        SameHomeTrans(home, home1, home2, n);
      }
      if n == s[k] {
        assert n !in s[..k];
      }
    }
  }

  /** One step of the walk along a list that is being swept. */
  lemma SweepStep(L: Layout, T: Trail, T1: Trail, marked: set<int>, s: seq<int>, kept: seq<int>, k: int, list: seq<int>)
    requires 0 <= k < |s| && kept == Survivors(L, T, marked, s[..k]) && SameFw(T, T1)
    requires list == if Doomed(L, T, marked, s[k]) then Without(kept + s[k..], |kept|) else kept + s[k..]
    ensures var kept1 := if Doomed(L, T, marked, s[k]) then kept else kept + [s[k]];
            kept1 == Survivors(L, T1, marked, s[..k + 1]) && list == kept1 + s[k + 1..]
  {
    KeptStep(s, kept, k);
    SurvivorsStep(L, T, marked, s, k);
    SurvivorsSame(L, T, T1, marked, s[..k + 1]);
  }

  lemma NoSurvivors(L: Layout, T: Trail, marked: set<int>)
    ensures Survivors(L, T, marked, []) == []
  {
  }

  /** The words that are not links are the same. */
  ghost predicate SameKept(L: Layout, T: Trail, m: seq<Word>, T1: Trail, m1: seq<Word>) {
    forall a {:trigger Kept(L, a)} :: Kept(L, a) ==> At(m1, T1.Cur(a)) == At(m, T.Cur(a))
  }

  lemma SameKeptTrans(L: Layout, T: Trail, m: seq<Word>, T1: Trail, m1: seq<Word>, T2: Trail, m2: seq<Word>)
    requires SameKept(L, T, m, T1, m1) && SameKept(L, T1, m1, T2, m2)
    ensures SameKept(L, T, m, T2, m2)
  {
    hide Kept;
  }

  lemma SameKeptRefl(L: Layout, T: Trail, m: seq<Word>)
    ensures SameKept(L, T, m, T, m)
  {
  }

  ghost predicate AllDoomed(L: Layout, T: Trail, marked: set<int>, S: set<int>) {
    forall b :: b in S ==> Doomed(L, T, marked, b)
  }

  lemma AllDoomedMore(L: Layout, T: Trail, T1: Trail, marked: set<int>, S: set<int>, S1: set<int>, b: int)
    requires AllDoomed(L, T, marked, S) && SameFw(T, T1)
    requires S1 == if Doomed(L, T, marked, b) then S + {b} else S
    ensures AllDoomed(L, T1, marked, S1)
  {
    hide Doomed, SameFw;
    forall c | c in S1 ensures Doomed(L, T1, marked, c) {
      DoomedSame(L, T, T1, marked, c);
    }
  }

  // ---- The lists of all generations ----

  ghost predicate OnListOf(home: map<int, int>, G: set<int>, n: int) {
    n in home && home[n] in G
  }

  /** Just the doomed arrays that were on the lists of the generations `G` are on no list any more. */
  ghost predicate GensSwept(L: Layout, T: Trail, marked: set<int>, home: map<int, int>, home1: map<int, int>,
                            G: set<int>) {
    forall n {:trigger HomeSwept(L, T, marked, home, home1, n, OnListOf(home, G, n))} ::
      HomeSwept(L, T, marked, home, home1, n, OnListOf(home, G, n))
  }

  lemma GensSweptNone(L: Layout, T: Trail, marked: set<int>, home: map<int, int>)
    ensures GensSwept(L, T, marked, home, home, {})
  {
  }

  lemma GensSweptMore(L: Layout, T: Trail, T1: Trail, marked: set<int>, home: map<int, int>, home1: map<int, int>,
                      home2: map<int, int>,
                      lists1: map<int, seq<int>>, G: set<int>, g: int)
    requires GensSwept(L, T, marked, home, home1, G) && SameFw(T, T1) && g !in G
    requires ListsOk(L, T, lists1, home1) && g in lists1
    requires ListSwept(L, T1, marked, home1, home2, lists1[g])
    ensures GensSwept(L, T1, marked, home, home2, G + {g})
  {
    hide Doomed, SameFw;
    ListHead(L, T, lists1, home1, g);
    forall n {:trigger HomeSwept(L, T1, marked, home, home2, n, OnListOf(home, G + {g}, n))}
      ensures HomeSwept(L, T1, marked, home, home2, n, OnListOf(home, G + {g}, n))
    {
      DoomedSame(L, T, T1, marked, n);
      assert HomeSwept(L, T, marked, home, home1, n, OnListOf(home, G, n));
      assert HomeSwept(L, T1, marked, home1, home2, n, n in lists1[g]);
      OnTheList(L, T, lists1, home1, g, n);
    }
  }

  lemma OnTheList(L: Layout, T: Trail, lists: map<int, seq<int>>, home: map<int, int>, g: int, n: int)
    requires ListsOk(L, T, lists, home) && g in lists
    ensures n in lists[g] <==> n in home && home[n] == g
  {
    assert ListOk(L, T, home, g, lists[g]);
  }

  /** From `creation` on, the parents of generations are, one after the other, `all`. */
  ghost predicate ParentsOk(A: Ages, creation: int, all: seq<int>) {
    && Nth(all, 0) == creation && Distinct(all)
    && (forall i :: 0 <= i < |all| ==> all[i] != 0 && all[i] in A.gens && A.gens[all[i]].parent == Nth(all, i + 1))
  }

  lemma ParentsSame(A: Ages, A1: Ages, creation: int, all: seq<int>)
    requires ParentsOk(A, creation, all) && A1.gens == A.gens
    ensures ParentsOk(A1, creation, all)
  {
  }

  lemma ParentStep(A: Ages, creation: int, all: seq<int>, i: int)
    requires ParentsOk(A, creation, all) && 0 <= i <= |all|
    ensures Nth(all, i) != 0 <==> i < |all|
    ensures i < |all| ==> all[i] in A.gens && A.gens[all[i]].parent == Nth(all, i + 1) && all[i] !in Elements(all[..i])
    ensures i < |all| ==> Elements(all[..i + 1]) == Elements(all[..i]) + {all[i]}
    ensures Nth(all, 0) == creation
  {
    if i < |all| {
      assert all[..i + 1] == all[..i] + [all[i]];
    }
  }

  /** The links that the sweep leaves alone are no words of values. */
  lemma AgreeKept(L: Layout, T: Trail, S: set<int>, m: seq<Word>, tidy: seq<Word>)
    requires Core(L, T, tidy) && Agree(L, T, S, m, tidy)
    ensures SameKept(L, T, tidy, T, m)
  {
    hide Core, L.ObjectsOk, L.SpacesOk, InverseOk, WholeOk, LinkAmong;
    CoreRings(L, T, tidy);
    forall a {:trigger Kept(L, a)} | Kept(L, a) ensures At(m, T.Cur(a)) == At(tidy, T.Cur(a)) {
      if LinkAmong(T, S, T.Cur(a)) {
        KeptNoLink(L, T, S, a);
      }
    }
  }

  lemma KeptNoLink(L: Layout, T: Trail, S: set<int>, a: int)
    requires L.ObjectsOk() && L.SpacesOk() && FwdOk(L, T) && Kept(L, a)
    requires forall b :: b in S ==> L.Base(b) && IsArray(L.Was(b))
    ensures !LinkAmong(T, S, T.Cur(a))
  {
    hide L.ObjectsOk, InverseOk, WholeOk;
    if LinkAmong(T, S, T.Cur(a)) {
      var b :| b in S && (T.Cur(a) == T.Cur(b) + 1 || T.Cur(a) == T.Cur(b) + 2);
      var i := T.Cur(a) - T.Cur(b);
      ArrayLinks(L, T, b, i);
      ArrayNode(L, b);
      NodeLink(L, T, b, i, a);
    }
  }
}
