/** The chain of generations, from the creation space to the oldest, and the loop that collects those
    that are due. Generations are known by their addresses; address 0 is the null pointer. */
module Generations {
  import opened Seqs

  // ---- The doubly linked chain ----

  ghost predicate LinkAt(gens: seq<int>, child: map<int, int>, parent: map<int, int>, i: int)
    requires 0 <= i < |gens|
  {
    && gens[i] != 0 && gens[i] in child && gens[i] in parent
    && parent[gens[i]] == Nth(gens, i + 1) && child[gens[i]] == Nth(gens, i - 1)
  }

  /** The chain runs through `gens`, youngest first, in both directions. */
  ghost predicate Linked(gens: seq<int>, child: map<int, int>, parent: map<int, int>) {
    Distinct(gens) && forall i {:trigger LinkAt(gens, child, parent, i)} :: 0 <= i < |gens| ==>
      LinkAt(gens, child, parent, i)
  }

  function Inserted(gens: seq<int>, i: int, n: int): seq<int>
    requires 0 <= i <= |gens|
  {
    gens[..i] + [n] + gens[i..]
  }

  /** A new generation between two neighbours, or after the last one. */
  lemma InsertLinked(gens: seq<int>, child: map<int, int>, parent: map<int, int>, i: int, n: int)
    requires Linked(gens, child, parent) && 0 < i <= |gens| && n !in gens && n != 0
    ensures gens[i - 1] in parent
    ensures var child1 := child[n := gens[i - 1]]; var parent1 := parent[n := Nth(gens, i)][gens[i - 1] := n];
            Linked(Inserted(gens, i, n), if i < |gens| then child1[gens[i] := n] else child1, parent1)
  {
    var gens1 := Inserted(gens, i, n);
    var child0 := child[n := gens[i - 1]];
    var parent1 := parent[n := Nth(gens, i)][gens[i - 1] := n];
    var child1 := if i < |gens| then child0[gens[i] := n] else child0;
    assert LinkAt(gens, child, parent, i - 1);
    forall k {:trigger LinkAt(gens1, child1, parent1, k)} | 0 <= k < |gens1| ensures LinkAt(gens1, child1, parent1, k) {
      if k != i {
        var k0 := if k < i then k else k - 1;
        assert LinkAt(gens, child, parent, k0) && gens1[k] == gens[k0];
      }
    }
  }

  /** A generation that is not in the chain does not matter. */
  lemma StillLinked(gens: seq<int>, child: map<int, int>, parent: map<int, int>, n: int)
    requires Linked(gens, child, parent) && n !in gens
    ensures Linked(gens, child[n := 0], parent[n := 0])
  {
    forall i {:trigger LinkAt(gens, child[n := 0], parent[n := 0], i)} | 0 <= i < |gens|
      ensures LinkAt(gens, child[n := 0], parent[n := 0], i)
    {
      assert LinkAt(gens, child, parent, i) && gens[i] in gens;
    }
  }

  lemma LinksOf(gens: seq<int>, child: map<int, int>, parent: map<int, int>, i: int)
    requires Linked(gens, child, parent) && 0 <= i < |gens|
    ensures gens[i] in child && gens[i] in parent && parent[gens[i]] == Nth(gens, i + 1)
    ensures child[gens[i]] == Nth(gens, i - 1)
    ensures gens[i] != 0 && (i > 0 ==> gens[i - 1] != 0 && gens[i - 1] != gens[i])
    ensures i + 1 < |gens| ==> gens[i + 1] != 0 && gens[i + 1] != gens[i]
    ensures 0 < i && i + 1 < |gens| ==> gens[i + 1] != gens[i - 1]
  {
    assert LinkAt(gens, child, parent, i);
    if i > 0 {
      assert LinkAt(gens, child, parent, i - 1);
    }
    if i + 1 < |gens| {
      assert LinkAt(gens, child, parent, i + 1);
    }
  }

  lemma ChainEnd(gens: seq<int>, child: map<int, int>, parent: map<int, int>, n: int)
    requires Linked(gens, child, parent) && 0 <= n <= |gens|
    ensures Nth(gens, n) == 0 <==> n == |gens|
  {
    if n < |gens| {
      assert LinkAt(gens, child, parent, n);
    }
  }

  /** A new generation in the place of another one. */
  lemma ReplaceLinked(gens: seq<int>, child: map<int, int>, parent: map<int, int>, i: int, n: int)
    requires Linked(gens, child, parent) && 0 < i < |gens| && n !in gens && n != 0
    ensures var child1 := child[n := gens[i - 1]]; var parent1 := parent[n := Nth(gens, i + 1)][gens[i - 1] := n];
            Linked(gens[i := n], if i + 1 < |gens| then child1[gens[i + 1] := n] else child1, parent1)
  {
    var gens1 := gens[i := n];
    var child0 := child[n := gens[i - 1]];
    var parent1 := parent[n := Nth(gens, i + 1)][gens[i - 1] := n];
    var child1 := if i + 1 < |gens| then child0[gens[i + 1] := n] else child0;
    assert LinkAt(gens, child, parent, i - 1);
    forall k {:trigger LinkAt(gens1, child1, parent1, k)} | 0 <= k < |gens1| ensures LinkAt(gens1, child1, parent1, k) {
      assert LinkAt(gens, child, parent, k);
    }
  }

  /** Taking out a generation between two others. */
  lemma RemoveLinked(gens: seq<int>, child: map<int, int>, parent: map<int, int>, i: int)
    requires Linked(gens, child, parent) && 0 < i < |gens| - 1
    ensures Linked(Without(gens, i), child[gens[i + 1] := gens[i - 1]], parent[gens[i - 1] := gens[i + 1]])
  {
    var gens1 := Without(gens, i);
    var child1, parent1 := child[gens[i + 1] := gens[i - 1]], parent[gens[i - 1] := gens[i + 1]];
    forall k {:trigger LinkAt(gens1, child1, parent1, k)} | 0 <= k < |gens1| ensures LinkAt(gens1, child1, parent1, k) {
      var k0 := if k < i then k else k + 1;
      assert LinkAt(gens, child, parent, k0) && gens1[k] == gens[k0];
    }
  }

  // ---- What a round of collections comes to ----

  /** The data that survive a collection; where they are put within a generation is left open. */
  function Alive(d: set<int>, garbage: set<int>): set<int> {
    d - garbage
  }

  /** What generation `i` passes on to the next older one. */
  function Passed(D: seq<set<int>>, M: seq<bool>, garbage: set<int>, i: int): set<int>
    requires |D| == |M| && i < |D|
  {
    if 0 <= i && M[i] then Alive(D[i], garbage) else {}
  }

  /** A generation that is not collected keeps its data, and gets what comes from the next younger one. */
  function PromotedAt(D: seq<set<int>>, M: seq<bool>, garbage: set<int>, i: int): set<int>
    requires |D| == |M| && 0 <= i < |D|
  {
    (if M[i] then {} else D[i]) + Passed(D, M, garbage, i - 1)
  }

  /** The data of the generations after a round, from the data `D` and the marks `M` before. */
  function Promoted(D: seq<set<int>>, M: seq<bool>, garbage: set<int>): seq<set<int>>
    requires |D| == |M|
  {
    seq(|D|, i requires 0 <= i < |D| => PromotedAt(D, M, garbage, i))
  }

  lemma NoFirst(s: set<int>)
    ensures {} + s == s
  {
  }

  /** The marked ones of the first `n` generations. */
  function Due(gens: seq<int>, M: seq<bool>, n: nat): seq<int>
    requires |gens| == |M| && n <= |gens|
  {
    if n == 0 then [] else Due(gens, M, n - 1) + (if M[n - 1] then [gens[n - 1]] else [])
  }

  // ---- Merging ----

  /** The generation at position `k` is due and neither of its neighbours is. */
  predicate Alone(M: seq<bool>, k: int) {
    0 < k && k + 1 < |M| && M[k] && !M[k - 1] && !M[k + 1]
  }

  /** If a merge is wanted, `p` is the first of the positions below `n` that is due alone; it is -1 if there is none
      or no merge is wanted. */
  ghost predicate MergeSpot(M: seq<bool>, wanted: bool, n: int, p: int) {
    if wanted && exists k :: k < n && Alone(M, k)
    then p < n && Alone(M, p) && forall k :: k < p ==> !Alone(M, k)
    else p == -1
  }

  lemma SpotNext(M: seq<bool>, wanted: bool, o: int, p: int, o1: int, p1: int)
    requires MergeSpot(M, wanted, o, p) && 0 <= o < o1 && forall k :: o < k < o1 ==> !Alone(M, k)
    requires p1 == if wanted && p == -1 && Alone(M, o) then o else p
    ensures MergeSpot(M, wanted, o1, p1)
  {
    if wanted && p != -1 {
      assert p < o1 && Alone(M, p);
    } else if wanted && Alone(M, o) {
      assert o < o1;
    }
  }

  // ---- The state of a round ----

  /** The chain before a round. */
  datatype Start = Start(gens: seq<int>, D: seq<set<int>>, M: seq<bool>, garbage: set<int>)

  ghost predicate StartOk(S: Start) {
    && |S.D| == |S.gens| && |S.M| == |S.gens| && |S.gens| > 0 && !S.M[|S.M| - 1] && Distinct(S.gens)
    && forall i, j :: 0 <= i < j < |S.D| ==> S.D[i] !! S.D[j]
  }

  /** The log `c` has just the generations below position `n` that were due, each once, in the order of the chain: they
      were at the positions `P`. */
  ghost predicate DueAt(S: Start, n: nat, c: seq<int>, P: seq<int>)
    requires |S.M| == |S.gens| && n <= |S.gens|
  {
    && |P| == |c| && (forall a :: 0 <= a < |P| ==> 0 <= P[a] < n && S.M[P[a]] && c[a] == S.gens[P[a]])
    && (forall a, b :: 0 <= a < b < |P| ==> P[a] < P[b])
    && (forall i :: 0 <= i < n && S.M[i] ==> i in P)
  }

  lemma {:induction false} AllDue(S: Start, n: nat) returns (P: seq<int>)
    requires |S.M| == |S.gens| && n <= |S.gens|
    ensures DueAt(S, n, Due(S.gens, S.M, n), P)
  {
    P := [];
    if n > 0 {
      P := AllDue(S, n - 1);
      if S.M[n - 1] {
        P := P + [n - 1];
        assert n - 1 in P;
      }
    }
  }

  /** The log `c` has just the generations that were due, each once, the youngest first. */
  ghost predicate EachDueOnce(S: Start, c: seq<int>)
    requires |S.M| == |S.gens|
  {
    exists P: seq<int> :: DueAt(S, |S.gens|, c, P)
  }

  lemma AllDueOnce(S: Start)
    requires |S.M| == |S.gens|
    ensures EachDueOnce(S, Due(S.gens, S.M, |S.gens|))
  {
    var P := AllDue(S, |S.gens|);
  }

  ghost function Target(S: Start, p: int): seq<set<int>>
    requires StartOk(S)
  {
    var D := Promoted(S.D, S.M, S.garbage);
    if 0 <= p < |D| then Without(D, p) else D
  }

  /** The creation space keeps its mark if the next generation was due too: then it is collected in place. */
  predicate StillDue(M: seq<bool>) {
    1 < |M| && M[0] && M[1]
  }

  ghost predicate DoneAt(S: Start, p: int, gens: seq<int>, data: map<int, set<int>>, collect: map<int, bool>, i: int)
    requires StartOk(S)
  {
    0 <= i < |gens| && i < |Target(S, p)| && gens[i] in data && gens[i] in collect &&
      data[gens[i]] == Target(S, p)[i] && (collect[gens[i]] <==> i == 0 && StillDue(S.M))
  }

  ghost predicate RestAt(S: Start, data: map<int, set<int>>, collect: map<int, bool>, o: int, k: int)
    requires StartOk(S) && 0 <= k < |S.gens|
  {
    S.gens[k] in collect && S.gens[k] in data && collect[S.gens[k]] == S.M[k] && (k > o ==> data[S.gens[k]] == S.D[k])
  }

  /** The first `j` generations are as they are to be, and from there on the chain is still the one
      from position `o` on. */
  ghost predicate Halfway(S: Start, p: int, gens: seq<int>, data: map<int, set<int>>, collect: map<int, bool>, j: int,
                          o: int) {
    && StartOk(S) && 0 <= j <= |gens| && 0 <= o <= |S.gens| && gens[j..] == S.gens[o..]
    && (forall i {:trigger DoneAt(S, p, gens, data, collect, i)} :: 0 <= i < j ==> DoneAt(S, p, gens, data, collect, i))
    && (forall k {:trigger RestAt(S, data, collect, o, k)} :: o <= k < |S.gens| ==> RestAt(S, data, collect, o, k))
  }

  /** Position `i` of the chain to be is for the generation that was at position `o`. */
  ghost predicate Offset(S: Start, p: int, i: int, o: int) {
    0 <= i && ((p == -1 && o == i) || (0 < p <= i && p < |S.gens| && o == i + 1))
  }

  lemma TargetAt(S: Start, p: int, i: int, o: int)
    requires StartOk(S) && Offset(S, p, i, o) && o < |S.gens|
    ensures i < |Target(S, p)| && Target(S, p)[i] == PromotedAt(S.D, S.M, S.garbage, o)
  {
  }

  /** At the place of a marked generation there will be what the next younger one passes on. */
  lemma TargetMarked(S: Start, p: int, i: int, o: int)
    requires StartOk(S) && Offset(S, p, i, o) && o < |S.gens| && S.M[o]
    ensures i < |Target(S, p)| && Target(S, p)[i] == Passed(S.D, S.M, S.garbage, o - 1)
  {
    hide Target, Passed;
    TargetAt(S, p, i, o);
    NoFirst(Passed(S.D, S.M, S.garbage, o - 1));
  }

  // ---- What becomes of each datum ----

  /** `x` was in generation `k` before the round and no collection finds it dead. */
  ghost predicate Survivor(S: Start, x: int, k: int)
    requires StartOk(S)
  {
    0 <= k < |S.D| && x in S.D[k] && (S.M[k] ==> x !in S.garbage)
  }

  /** The position after the round of what survives from generation `k`: promoted if that was collected, and
      one less above a generation that was taken out. */
  function PlaceOf(M: seq<bool>, p: int, k: int): int
    requires 0 <= k < |M|
  {
    var q := if M[k] then k + 1 else k;
    if 0 <= p < q then q - 1 else q
  }

  /** The generation at position `i` holds `x`. */
  ghost predicate Holds(gens: seq<int>, data: map<int, set<int>>, i: int, x: int) {
    0 <= i < |gens| && gens[i] in data && x in data[gens[i]]
  }

  /** What survives is in one generation, and in no other, and nothing else is in any. */
  ghost predicate AllKept(S: Start, p: int, gens: seq<int>, data: map<int, set<int>>)
    requires StartOk(S)
  {
    forall i, x {:trigger Holds(gens, data, i, x)} :: Holds(gens, data, i, x) <==>
      exists k :: Survivor(S, x, k) && i == PlaceOf(S.M, p, k)
  }

  /** What was in an older generation than something else is not in a younger one than that afterwards. */
  ghost predicate AgesKept(S: Start, gens: seq<int>, data: map<int, set<int>>)
    requires StartOk(S)
  {
    forall i, j, x, y, a, b {:trigger Survivor(S, x, a), Survivor(S, y, b), Holds(gens, data, i, x),
      Holds(gens, data, j, y)} ::
      Survivor(S, x, a) && Survivor(S, y, b) && b < a && Holds(gens, data, i, x) && Holds(gens, data, j, y) ==> j <= i
  }

  ghost predicate Lost(S: Start, p: int)
    requires StartOk(S)
  {
    p == -1 || (0 < p < |S.gens| && S.M[p] && Promoted(S.D, S.M, S.garbage)[p] == {})
  }

  lemma PromotedHolds(S: Start, x: int, q: int)
    requires StartOk(S) && 0 <= q < |S.gens|
    ensures x in Promoted(S.D, S.M, S.garbage)[q] <==> exists k :: Survivor(S, x, k) && q == PlaceOf(S.M, -1, k)
  {
    if x in Promoted(S.D, S.M, S.garbage)[q] {
      var k := if x in (if S.M[q] then {} else S.D[q]) then q else q - 1;
      assert Survivor(S, x, k) && q == PlaceOf(S.M, -1, k);
    }
  }

  /** Each position of the chain to be holds what survives from the generations that go there. */
  lemma TargetHolds(S: Start, p: int, x: int, i: int)
    requires StartOk(S) && Lost(S, p) && 0 <= i < |Target(S, p)|
    ensures x in Target(S, p)[i] <==> exists k :: Survivor(S, x, k) && i == PlaceOf(S.M, p, k)
  {
    hide Promoted;
    var q := if 0 <= p <= i then i + 1 else i;
    TargetFrom(S, p, i);
    PromotedHolds(S, x, q);
    if x in Target(S, p)[i] {
      var k :| Survivor(S, x, k) && q == PlaceOf(S.M, -1, k);
      assert i == PlaceOf(S.M, p, k);
    }
    if k :| Survivor(S, x, k) && i == PlaceOf(S.M, p, k) {
      LostPlace(S, p, x, k);
      assert q == PlaceOf(S.M, -1, k);
    }
  }

  lemma TargetFrom(S: Start, p: int, i: int)
    requires StartOk(S) && Lost(S, p) && 0 <= i < |Target(S, p)|
    ensures var q := if 0 <= p <= i then i + 1
            else i; q < |S.gens| && Target(S, p)[i] == Promoted(S.D, S.M, S.garbage)[q]
  {
  }

  /** Nothing that survives goes to the position that is taken out. */
  lemma LostPlace(S: Start, p: int, x: int, k: int)
    requires StartOk(S) && Lost(S, p) && Survivor(S, x, k)
    ensures PlaceOf(S.M, -1, k) != p && 0 <= PlaceOf(S.M, -1, k) < |S.gens|
  {
    if PlaceOf(S.M, -1, k) == p {
      PromotedHolds(S, x, p);
    }
  }

  lemma PlacesGrow(M: seq<bool>, p: int, a: int, b: int)
    requires 0 <= b < a < |M|
    ensures PlaceOf(M, p, b) <= PlaceOf(M, p, a)
  {
  }

  /** What survives the round is kept, once, and in the order of the generations. */
  lemma RoundKeeps(S: Start, p: int, gens: seq<int>, data: map<int, set<int>>, collect: map<int, bool>)
    requires StartOk(S) && Lost(S, p) && |gens| == |Target(S, p)|
    requires forall i {:trigger DoneAt(S, p, gens, data, collect, i)} :: 0 <= i < |gens| ==>
             DoneAt(S, p, gens, data, collect, i)
    ensures AllKept(S, p, gens, data) && AgesKept(S, gens, data)
  {
    hide Target, Lost;
    forall i, x {:trigger Holds(gens, data, i, x)}
      ensures Holds(gens, data, i, x) <==> exists k :: Survivor(S, x, k) && i == PlaceOf(S.M, p, k)
    {
      if 0 <= i < |gens| {
        assert DoneAt(S, p, gens, data, collect, i);
        TargetHolds(S, p, x, i);
      } else if k :| Survivor(S, x, k) && i == PlaceOf(S.M, p, k) {
        LostPlace(S, p, x, k);
        TargetSize(S, p);
      }
    }
    OrderKept(S, p, gens, data);
  }

  lemma TargetSize(S: Start, p: int)
    requires StartOk(S) && Lost(S, p)
    ensures |Target(S, p)| == if p == -1 then |S.gens| else |S.gens| - 1
    ensures p == -1 || 0 < p < |S.gens|
  {
  }

  /** Only one generation can have held a datum before the round. */
  lemma OneBefore(S: Start, x: int, a: int, k: int)
    requires StartOk(S) && Survivor(S, x, a) && Survivor(S, x, k)
    ensures a == k
  {
  }

  lemma OrderKept(S: Start, p: int, gens: seq<int>, data: map<int, set<int>>)
    requires StartOk(S) && AllKept(S, p, gens, data)
    ensures AgesKept(S, gens, data)
  {
    forall i, j, x, y, a, b {:trigger Survivor(S, x, a), Survivor(S, y, b), Holds(gens, data, i, x),
      Holds(gens, data, j, y)} |
      Survivor(S, x, a) && Survivor(S, y, b) && b < a && Holds(gens, data, i, x) && Holds(gens, data, j, y)
      ensures j <= i
    {
      var k :| Survivor(S, x, k) && i == PlaceOf(S.M, p, k);
      var l :| Survivor(S, y, l) && j == PlaceOf(S.M, p, l);
      OneBefore(S, x, a, k);
      OneBefore(S, y, b, l);
      PlacesGrow(S.M, p, a, b);
    }
  }

  lemma SameSuffix(s: seq<int>, j: int, t: seq<int>, o: int, k: int)
    requires 0 <= j <= |s| && 0 <= o <= k < |t| && s[j..] == t[o..]
    ensures 0 <= j + k - o < |s| && s[j + k - o] == t[k] && |s| - j == |t| - o && t[k] in s
  {
    assert s[j..][k - o] == t[o..][k - o];
  }

  /** Data that are set for the generation `x` do not concern those before it. */
  lemma StillDone(S: Start, p: int, gens: seq<int>, data: map<int, set<int>>, collect: map<int, bool>, gens1: seq<int>,
                  data1: map<int, set<int>>, collect1: map<int, bool>, j: int)
    requires StartOk(S) && 0 <= j <= |gens| && j <= |gens1| && gens1[..j] == gens[..j]
    requires forall i {:trigger DoneAt(S, p, gens, data, collect, i)} :: 0 <= i < j ==>
             DoneAt(S, p, gens, data, collect, i)
    requires forall i :: 0 <= i < j ==> SameFor(gens[i], data, collect, data1, collect1)
    ensures forall i {:trigger DoneAt(S, p, gens1, data1, collect1, i)} :: 0 <= i < j ==>
            DoneAt(S, p, gens1, data1, collect1, i)
  {
    forall i {:trigger DoneAt(S, p, gens1, data1, collect1, i)} | 0 <= i < j
      ensures DoneAt(S, p, gens1, data1, collect1, i)
    {
      assert DoneAt(S, p, gens, data, collect, i) && gens1[..j][i] == gens[..j][i] &&
             SameFor(gens[i], data, collect, data1, collect1);
    }
  }

  ghost predicate SameFor(g: int, data: map<int, set<int>>, collect: map<int, bool>, data1: map<int, set<int>>,
                          collect1: map<int, bool>) {
    g in data && g in collect ==> g in data1 && g in collect1 && data1[g] == data[g] && collect1[g] == collect[g]
  }

  lemma StillRest(S: Start, data: map<int, set<int>>, collect: map<int, bool>, data1: map<int, set<int>>,
                  collect1: map<int, bool>, o: int, o1: int)
    requires StartOk(S) && 0 <= o <= o1
    requires forall k {:trigger RestAt(S, data, collect, o, k)} :: o <= k < |S.gens| ==> RestAt(S, data, collect, o, k)
    requires forall k :: o1 < k < |S.gens| ==> SameFor(S.gens[k], data, collect, data1, collect1)
    requires o1 < |S.gens| ==> S.gens[o1] in collect1 && S.gens[o1] in data1 && collect1[S.gens[o1]] == S.M[o1]
    ensures forall k {:trigger RestAt(S, data1, collect1, o1, k)} :: o1 <= k < |S.gens| ==>
            RestAt(S, data1, collect1, o1, k)
  {
    forall k {:trigger RestAt(S, data1, collect1, o1, k)} | o1 <= k < |S.gens|
      ensures RestAt(S, data1, collect1, o1, k)
    {
      assert RestAt(S, data, collect, o, k);
      if k > o1 {
        assert SameFor(S.gens[k], data, collect, data1, collect1);
      }
    }
  }

  /** `insert_gen_below`, before the first of several marked generations. */
  lemma InsertStep(S: Start, p: int, gens: seq<int>, data: map<int, set<int>>, collect: map<int, bool>, j: int, o: int,
                   n: int)
    requires 0 < j
    requires Halfway(S, p, gens, data, collect, j, o) && Offset(S, p, j, o) && o < |S.gens| && n !in gens
    requires S.M[o] && Passed(S.D, S.M, S.garbage, o - 1) == {}
    ensures Halfway(S, p, Inserted(gens, j, n), data[n := {}], collect[n := false], j + 1, o)
  {
    hide Promoted, Passed, Target;
    var gens1, data1, collect1 := Inserted(gens, j, n), data[n := {}], collect[n := false];
    TargetMarked(S, p, j, o);
    assert gens1[..j] == gens[..j] && gens1[j + 1..] == gens[j..];
    StillDone(S, p, gens, data, collect, gens1, data1, collect1, j);
    assert DoneAt(S, p, gens1, data1, collect1, j);
    forall k | o <= k < |S.gens| ensures S.gens[k] != n {
      SameSuffix(gens, j, S.gens, o, k);
    }
    assert RestAt(S, data, collect, o, o);
    StillRest(S, data, collect, data1, collect1, o, o);
  }

  /** `inplace_collect` of a marked generation below another one. */
  lemma InPlaceStep(S: Start, p: int, gens: seq<int>, data: map<int, set<int>>, collect: map<int, bool>, j: int, o: int,
                    n: int)
    requires Halfway(S, p, gens, data, collect, j, o) && j > 0 && Offset(S, p, j - 1, o) && o + 1 < |S.gens|
    requires n !in gens && Distinct(gens)
    requires S.M[o] && S.M[o + 1] && j < |gens| && gens[j] in data && data[gens[j]] == S.D[o]
    ensures Halfway(S, p, gens[j := n], data[n := Alive(S.D[o], S.garbage)][gens[j] := {}], collect[n := false], j + 1,
            o + 1)
    ensures S.gens[o + 1] in data && S.gens[o + 1] != gens[j] && S.gens[o + 1] != n && data[S.gens[o + 1]] == S.D[o + 1]
  {
    hide Promoted, Alive, Target;
    var from := gens[j];
    var gens1, data1, collect1 := gens[j := n], data[n := Alive(S.D[o], S.garbage)][from := {}], collect[n := false];
    TargetMarked(S, p, j, o + 1);
    assert gens1[..j] == gens[..j] && gens1[j + 1..] == gens[j + 1..] == gens[j..][1..] &&
           S.gens[o + 1..] == S.gens[o..][1..];
    StillDone(S, p, gens, data, collect, gens1, data1, collect1, j);
    SameSuffix(gens, j, S.gens, o, o);
    assert RestAt(S, data, collect, o, o) && RestAt(S, data, collect, o, o + 1);
    assert DoneAt(S, p, gens1, data1, collect1, j);
    forall k | o < k < |S.gens| ensures S.gens[k] != n && S.gens[k] != from {
      SameSuffix(gens, j, S.gens, o, k);
    }
    StillRest(S, data, collect, data1, collect1, o, o + 1);
  }

  /** `inplace_collect` of the creation space. */
  lemma CreationStep(S: Start, p: int, gens: seq<int>, data: map<int, set<int>>, collect: map<int, bool>, n: int)
    requires Halfway(S, p, gens, data, collect, 0, 0) && p == -1 && 1 < |S.gens| && n !in gens && n != 0
    requires S.M[0] && S.M[1] && 0 < |gens| && gens[0] in data && data[gens[0]] == S.D[0]
    ensures Halfway(S, p, Inserted(gens, 1, n), data[n := Alive(S.D[0], S.garbage)][gens[0] := {}], collect[n := false],
            2, 1)
    ensures S.gens[1] in data && S.gens[1] != gens[0] && S.gens[1] != n && data[S.gens[1]] == S.D[1]
  {
    hide Promoted, Alive, Target;
    var gens1, data1, collect1 :=
      Inserted(gens, 1, n), data[n := Alive(S.D[0], S.garbage)][gens[0] := {}], collect[n := false];
    TargetMarked(S, p, 0, 0);
    TargetMarked(S, p, 1, 1);
    assert gens1[2..] == gens[1..] == gens[0..][1..] && S.gens[1..] == S.gens[0..][1..];
    SameSuffix(gens, 0, S.gens, 0, 0);
    assert RestAt(S, data, collect, 0, 0) && RestAt(S, data, collect, 0, 1);
    assert DoneAt(S, p, gens1, data1, collect1, 0) && DoneAt(S, p, gens1, data1, collect1, 1);
    forall k | 0 < k < |S.gens| ensures S.gens[k] != n && S.gens[k] != gens[0] {
      SameSuffix(gens, 0, S.gens, 0, k);
    }
    StillRest(S, data, collect, data1, collect1, 0, 1);
  }

  /** What the last collection of a run sets. */
  ghost predicate PromotedTo(S: Start, data: map<int, set<int>>, collect: map<int, bool>, from: int, to: int, o: int,
                             data1: map<int, set<int>>, collect1: map<int, bool>)
    requires StartOk(S) && 0 <= o && o + 1 < |S.gens|
  {
    && data1 == data[to := S.D[o + 1] + Alive(S.D[o], S.garbage)][from := {}] && collect1 == collect[from := false]
    && S.M[o] && !S.M[o + 1] && from == S.gens[o] && to == S.gens[o + 1] && to in data1
    && data1[to] == PromotedAt(S.D, S.M, S.garbage, o + 1)
  }

  /** `from` at position `o` is promoted to the next generation, and the chain from there on is the rest. */
  lemma PromoteRest(S: Start, p: int, gens: seq<int>, data: map<int, set<int>>, collect: map<int, bool>, j: int, o: int)
    requires Halfway(S, p, gens, data, collect, j, o) && Distinct(gens) && o + 1 < |S.gens| && S.M[o] && !S.M[o + 1]
    ensures j + 1 < |gens| && gens[j] == S.gens[o] && gens[j + 1] == S.gens[o + 1] && gens[j] != gens[j + 1]
    ensures var from, to := gens[j], gens[j + 1];
            var data1, collect1 := data[to := S.D[o + 1] + Alive(S.D[o], S.garbage)][from := {}],
              collect[from := false];
            PromotedTo(S, data, collect, from, to, o, data1, collect1) && gens[j + 1..] == S.gens[o + 1..] &&
            forall k {:trigger RestAt(S, data1, collect1, o + 1, k)} :: o + 1 <= k < |S.gens| ==>
              RestAt(S, data1, collect1, o + 1, k)
  {
    hide Promoted, Alive;
    SameSuffix(gens, j, S.gens, o, o);
    SameSuffix(gens, j, S.gens, o, o + 1);
    var from, to := gens[j], gens[j + 1];
    var data1, collect1 := data[to := S.D[o + 1] + Alive(S.D[o], S.garbage)][from := {}], collect[from := false];
    assert gens[j + 1..] == gens[j..][1..] && S.gens[o + 1..] == S.gens[o..][1..];
    assert RestAt(S, data, collect, o, o + 1);
    StillRest(S, data, collect, data1, collect1, o, o + 1);
  }

  /** The promoted generation is taken out at the end of a run of several. */
  lemma PromoteAndRemove(S: Start, p: int, gens: seq<int>, data: map<int, set<int>>, collect: map<int, bool>, j: int,
                         o: int, data1: map<int, set<int>>, collect1: map<int, bool>)
    requires Halfway(S, p, gens, data, collect, j, o) && Distinct(gens) && o + 1 < |S.gens| && j + 1 < |gens|
    requires PromotedTo(S, data, collect, gens[j], gens[j + 1], o, data1, collect1)
    ensures Halfway(S, p, Without(gens, j), data1, collect1, j, o + 1)
  {
    hide Promoted, Alive;
    PromoteRest(S, p, gens, data, collect, j, o);
    var gens1 := Without(gens, j);
    assert gens1[..j] == gens[..j] && gens1[j..] == gens[j + 1..];
    StillDone(S, p, gens, data, collect, gens1, data1, collect1, j);
  }

  /** The promoted generation stays, without data. */
  lemma PromoteAndKeep(S: Start, p: int, gens: seq<int>, data: map<int, set<int>>, collect: map<int, bool>, j: int,
                       o: int, data1: map<int, set<int>>, collect1: map<int, bool>)
    requires Halfway(S, p, gens, data, collect, j, o) && Distinct(gens) && o + 1 < |S.gens| && j + 1 < |gens|
    requires PromotedTo(S, data, collect, gens[j], gens[j + 1], o, data1, collect1)
    requires Offset(S, p, j, o) && Passed(S.D, S.M, S.garbage, o - 1) == {}
    ensures Halfway(S, p, gens, data1, collect1, j + 1, o + 1)
  {
    hide Promoted, Alive, Passed;
    PromoteRest(S, p, gens, data, collect, j, o);
    TargetAt(S, p, j, o);
    StillDone(S, p, gens, data, collect, gens, data1, collect1, j);
    assert RestAt(S, data, collect, o, o);
    assert DoneAt(S, p, gens, data1, collect1, j);
  }

  /** The promoted generation is taken out to have fewer of them. */
  lemma PromoteAndMerge(S: Start, gens: seq<int>, data: map<int, set<int>>, collect: map<int, bool>, j: int,
                        data1: map<int, set<int>>, collect1: map<int, bool>)
    requires Halfway(S, -1, gens, data, collect, j, j) && Distinct(gens) && 0 < j && j + 1 < |S.gens| && j + 1 < |gens|
    requires PromotedTo(S, data, collect, gens[j], gens[j + 1], j, data1, collect1)
    ensures Halfway(S, j, Without(gens, j), data1, collect1, j, j + 1)
  {
    hide Promoted, Alive;
    PromoteAndRemove(S, -1, gens, data, collect, j, j, data1, collect1);
    var gens1 := Without(gens, j);
    forall i {:trigger DoneAt(S, j, gens1, data1, collect1, i)} | 0 <= i < j
      ensures DoneAt(S, j, gens1, data1, collect1, i)
    {
      assert DoneAt(S, -1, gens1, data1, collect1, i);
    }
  }


  /** The generation at hand and the next older one are those of the start. */
  lemma NextTwo(S: Start, p: int, gens: seq<int>, data: map<int, set<int>>, collect: map<int, bool>, j: int, o: int)
    requires Halfway(S, p, gens, data, collect, j, o) && o < |S.gens|
    ensures j < |gens| && gens[j] == S.gens[o] && gens[j] in collect && collect[gens[j]] == S.M[o]
    ensures |gens| - j == |S.gens| - o
    ensures o + 1 < |S.gens| ==>
            j + 1 < |gens| && gens[j + 1] == S.gens[o + 1] && gens[j + 1] in collect && gens[j + 1] in data
    ensures o + 1 < |S.gens| ==> collect[gens[j + 1]] == S.M[o + 1] && data[gens[j + 1]] == S.D[o + 1]
  {
    SameSuffix(gens, j, S.gens, o, o);
    assert RestAt(S, data, collect, o, o);
    if o + 1 < |S.gens| {
      SameSuffix(gens, j, S.gens, o, o + 1);
      assert RestAt(S, data, collect, o, o + 1);
    }
  }

  /** The chain of generations. */
  class Chain {
    var creation: int
    var number: map<int, int>
    var collect: map<int, bool>
    var child: map<int, int>
    var parent: map<int, int>
    var unused: int                       // no generation has been made at this address or a higher one
    ghost var gens: seq<int>
    ghost var data: map<int, set<int>>    // what each generation holds, at any grain
    ghost var collected: seq<int>         // the generations that were collected, in order

    ghost predicate Valid()
      reads this
    {
      && |gens| > 0 && gens[0] == creation && Linked(gens, child, parent) && 0 < unused
      && (forall i :: 0 <= i < |gens| ==> 0 < gens[i] < unused)
      && (forall g :: 0 < g < unused ==> g in number && g in collect && g in child && g in parent && g in data)
    }

    ghost predicate Numbered()
      reads this`number, this`gens
    {
      forall i :: 0 <= i < |gens| ==> gens[i] in number && number[gens[i]] == i
    }

    /** `make_ml_heap`, for an empty generation. */
    method MakeHeap() returns (made: int)
      requires Valid()
      modifies this`number, this`collect, this`child, this`parent, this`unused, this`data
      ensures Valid() && made == old(unused) && made !in gens && made != 0 && unused == made + 1
      ensures data == old(data)[made := {}] && collect == old(collect)[made := false]
      ensures child == old(child)[made := 0] && parent == old(parent)[made := 0] && number == old(number)[made := 0]
    {
      made := unused;
      unused := unused + 1;
      number, collect := number[made := 0], collect[made := false];
      child, parent := child[made := 0], parent[made := 0];
      data := data[made := {}];
      StillLinked(gens, old(child), old(parent), made);
    }

    /** `collect_gen`, as far as the chain is concerned. */
    method CollectGen(from: int, to: int, ghost garbage: set<int>)
      requires Valid() && 0 < from < unused && 0 < to < unused && from != to
      modifies this`data, this`collected
      ensures Valid() && data == old(data)[to := old(data)[to] + Alive(old(data)[from], garbage)][from := {}]
      ensures collected == old(collected) + [from]
    {
      data := data[to := data[to] + Alive(data[from], garbage)][from := {}];
      collected := collected + [from];
    }

    /** `renumber_generations`. */
    method Renumber()
      requires Valid()
      modifies this`number
      ensures Valid() && Numbered()
    {
      var n := 0;
      var gen := creation;
      while gen != 0
        invariant 0 <= n <= |gens| && gen == Nth(gens, n) && Valid()
        invariant forall i :: 0 <= i < n ==> gens[i] in number && number[gens[i]] == i
        decreases |gens| - n
      {
        assert LinkAt(gens, child, parent, n);
        number := number[gen := n];
        n := n + 1;
        gen := parent[gen];
      }
      ChainEnd(gens, child, parent, n);
    }

    /** Links a new generation in below `gen`. */
    method LinkBelow(gen: int, made: int, ghost i: int)
      requires Valid() && 0 < i < |gens| && gen == gens[i] && made !in gens && 0 < made < unused
      modifies this`child, this`parent, this`gens
      ensures Valid() && gens == Inserted(old(gens), i, made)
    {
      hide Linked;
      LinksOf(gens, child, parent, i);
      InsertLinked(gens, child, parent, i, made);
      ghost var child0, parent0 := child, parent;
      child := child[made := child[gen]];
      parent := parent[made := gen];
      parent := parent[child[made] := made];
      child := child[gen := made];
      assert parent == parent0[made := gen][gens[i - 1] := made];
      assert child == child0[made := gens[i - 1]][gen := made];
      gens := Inserted(gens, i, made);
    }

    /** `insert_gen_below`, for a generation other than the creation space. */
    method InsertGenBelow(gen: int, ghost i: int) returns (made: int)
      requires Valid() && 0 < i < |gens| && gen == gens[i]
      modifies this`number, this`collect, this`child, this`parent, this`unused, this`data, this`gens
      ensures Valid() && Numbered() && made == old(unused) && made !in old(gens) && gens == Inserted(old(gens), i, made)
      ensures data == old(data)[made := {}] && collect == old(collect)[made := false]
    {
      hide Linked, Distinct;
      made := MakeHeap();
      LinkBelow(gen, made, i);
      Renumber();
    }

    /** `remove_gen`, for a generation other than the creation space. */
    method RemoveGen(gen: int, ghost i: int)
      requires Valid() && 0 < i < |gens| - 1 && gen == gens[i]
      modifies this`number, this`child, this`parent, this`gens
      ensures Valid() && Numbered() && gens == Without(old(gens), i)
    {
      hide Linked;
      LinksOf(gens, child, parent, i);
      RemoveLinked(gens, child, parent, i);
      child := child[parent[gen] := child[gen]];
      parent := parent[child[gen] := parent[gen]];
      gens := Without(gens, i);
      Renumber();
    }

    /** Links a new generation in at the place of `it`, or above it if `it` is the creation space. */
    method LinkInPlace(it: int, made: int, ghost i: int)
      requires Valid() && 0 <= i < |gens| && it == gens[i] && made !in gens && 0 < made < unused
      modifies this`child, this`parent, this`gens
      ensures Valid() && gens == (if i == 0 then Inserted(old(gens), 1, made) else old(gens)[i := made])
      ensures made in parent && parent[made] == Nth(old(gens), i + 1)
    {
      hide Linked;
      LinksOf(gens, child, parent, i);
      if i == 0 {
        InsertLinked(gens, child, parent, 1, made);
      } else {
        ReplaceLinked(gens, child, parent, i, made);
      }
      ghost var child0, parent0, below := child, parent, if i == 0 then creation else gens[i - 1];
      child := child[made := child[it]];
      parent := parent[made := parent[it]];
      if child[made] == 0 {
        child := child[made := creation];
      }
      assert child[made] == below;
      parent := parent[child[made] := made];
      if parent[made] != 0 {
        child := child[parent[made] := made];
      }
      assert parent == parent0[made := Nth(gens, i + 1)][below := made];
      assert child == if i + 1 < |gens| then child0[made := below][gens[i + 1] := made] else child0[made := below];
      gens := if i == 0 then Inserted(gens, 1, made) else gens[i := made];
    }

    /** `inplace_collect`: collects into a new generation in the same place, or, for the creation space,
        in the place above it. */
    method InplaceCollect(it: int, ghost i: int, ghost garbage: set<int>) returns (made: int)
      requires Valid() && 0 <= i < |gens| && it == gens[i]
      modifies this`number, this`collect, this`child, this`parent, this`unused, this`data, this`gens, this`collected
      ensures Valid() && made == old(unused) && made !in old(gens)
      ensures gens == (if i == 0 then Inserted(old(gens), 1, made) else old(gens)[i := made])
      ensures it in old(data) && data == old(data)[made := Alive(old(data)[it], garbage)][it := {}]
      ensures collect == old(collect)[made := false]
      ensures collected == old(collected) + [it]
      ensures made in parent && parent[made] == Nth(old(gens), i + 1)
    {
      hide Linked, Distinct, Inserted, Alive;
      made := CollectToNew(it, garbage);
      collect := collect[made := false];
      LinkInPlace(it, made, i);
    }

    /** Collects into a new generation with the same number. */
    method CollectToNew(it: int, ghost garbage: set<int>) returns (made: int)
      requires Valid() && it in gens
      modifies this`number, this`collect, this`child, this`parent, this`unused, this`data, this`collected
      ensures Valid() && made == old(unused) && made !in gens && made != 0 && unused == made + 1
      ensures collected == old(collected) + [it]
      ensures it in old(data) && data == old(data)[made := Alive(old(data)[it], garbage)][it := {}]
      ensures collect == old(collect)[made := false]
    {
      hide Linked, Distinct, Alive;
      ghost var data0 := data;
      made := MakeHeap();
      number := number[made := number[it]];
      CollectGen(it, made, garbage);
      NoFirst(Alive(data0[it], garbage));
      assert data == data0[made := Alive(data0[it], garbage)][it := {}];
    }

    /** The generation at hand, `gen`, is due, and so were those before it in its run. */
    ghost predicate OnRun(S: Start, p: int, j: int, o: int, gen: int, above: int, log: seq<int>)
      reads this
    {
      && Valid() && Numbered() && StartOk(S) && Halfway(S, p, gens, data, collect, j, o) && 0 <= o && o + 1 < |S.gens|
      && S.M[o]
      && 0 <= j && j + 1 < |gens| && gen == gens[j] && above == gens[j + 1] && gen in data && above in data
      && above in collect
      && data[gen] == S.D[o] && data[above] == S.D[o + 1] && collect[above] == S.M[o + 1]
      && (if j == 0 then p == -1 && o == 0 else Offset(S, p, j - 1, o)) && collected == log + Due(S.gens, S.M, o)
    }

    /** The part of `think` for several generations in a row that are due: all but the last one are
        collected in place. */
    method CollectRun(gen0: int, parent0: int, ghost S: Start, ghost p: int, ghost j0: int, ghost o0: int,
                      ghost log: seq<int>)
      returns (gen: int, above: int, ghost j: int, ghost o: int)
      requires Valid() && Numbered() && StartOk(S) && Halfway(S, p, gens, data, collect, j0, o0) && Offset(S, p, j0, o0)
      requires o0 + 1 < |S.gens|
      requires S.M[o0] && S.M[o0 + 1] && j0 + 1 < |gens| && gen0 == gens[j0] && parent0 == gens[j0 + 1]
      requires collected == log + Due(S.gens, S.M, o0)
      requires data[gens[j0]] == S.D[o0] && Passed(S.D, S.M, S.garbage, o0 - 1) == {}
      modifies this`number, this`collect, this`child, this`parent, this`unused, this`data, this`gens, this`collected
      ensures OnRun(S, p, j, o, gen, above, log) && 0 < j && !S.M[o + 1] && o0 < o
      ensures forall k :: o0 <= k <= o ==> S.M[k]
    {
      hide Linked, Halfway, Promoted, Passed, Alive, Due, Distinct;
      gen, above, j, o := gen0, parent0, j0, o0;
      NextTwo(S, p, gens, data, collect, j, o);
      ApartFrom(j);
      if gen != creation {
        InsertStep(S, p, gens, data, collect, j, o, unused);
        var made := InsertGenBelow(gen, j);
        j := j + 1;
        NextTwo(S, p, gens, data, collect, j, o);
      }
      while collect[above]
        invariant OnRun(S, p, j, o, gen, above, log) && (j == 0 ==> S.M[1]) && o0 <= o
        invariant (o == o0 ==> collect[above]) && forall k :: o0 <= k <= o ==> S.M[k]
        decreases |S.gens| - o
      {
        j, o, gen, above := InPlaceTurn(gen, above, S, p, j, o, log);
      }
    }

    /** One turn of the loop over a run. */
    method InPlaceTurn(gen0: int, parent0: int, ghost S: Start, ghost p: int, ghost j0: int, ghost o0: int,
                       ghost log: seq<int>)
      returns (ghost j: int, ghost o: int, gen: int, above: int)
      requires OnRun(S, p, j0, o0, gen0, parent0, log) && collect[parent0]
      modifies this`number, this`collect, this`child, this`parent, this`unused, this`data, this`gens, this`collected
      ensures OnRun(S, p, j, o, gen, above, log) && o == o0 + 1 && 0 < j
    {
      hide Linked, Halfway, Promoted, Passed, Alive, Distinct, Inserted, Valid;
      NextTwo(S, p, gens, data, collect, j0, o0);
      ApartFrom(j0);
      j, o := if j0 == 0 then 2 else j0 + 1, o0 + 1;
      if j0 == 0 {
        CreationStep(S, p, gens, data, collect, unused);
      } else {
        InPlaceStep(S, p, gens, data, collect, j0, o0, unused);
      }
      var made := InplaceCollect(gen0, j0, S.garbage);
      Renumber();
      NextTwo(S, p, gens, data, collect, j, o);
      gen := parent[made];
      ApartFrom(j);
      above := parent[gen];
    }

    lemma ApartFrom(j: int)
      requires Valid() && 0 <= j < |gens|
      ensures Distinct(gens) && unused !in gens && gens[j] in data && gens[j] in collect
      ensures (gens[j] == creation <==> j == 0) && unused != 0
      ensures gens[j] in parent && parent[gens[j]] == Nth(gens, j + 1) && 0 < gens[j] < unused
    {
      LinksOf(gens, child, parent, j);
    }

    /** All generations before `gen` are done. */
    ghost predicate AtGen(S: Start, p: int, j: int, o: int, gen: int, log: seq<int>)
      reads this
    {
      && Valid() && Numbered() && StartOk(S) && Halfway(S, p, gens, data, collect, j, o) && gen == Nth(gens, j)
      && Offset(S, p, j, o)
      && 0 <= o <= |S.gens| && |gens| - j == |S.gens| - o
      && (o < |S.gens| ==> gen in data && data[gen] == S.D[o] + Passed(S.D, S.M, S.garbage, o - 1))
      && (o > 0 && S.M[o - 1] ==> o < |S.gens| && !S.M[o]) && collected == log + Due(S.gens, S.M, o)
    }

    /** A generation has been taken out at most at one position, where there were no data. */
    ghost predicate MergedAt(S: Start, p: int)
      requires StartOk(S)
      reads this
    {
      0 < p < |S.gens| && S.M[p] && Promoted(S.D, S.M, S.garbage)[p] == {}
    }

    method CollectAndClear(gen: int, above: int, ghost garbage: set<int>)
      requires Valid() && Numbered() && 0 < gen < unused && 0 < above < unused && gen != above
      modifies this`data, this`collected, this`collect
      ensures Valid() && Numbered()
      ensures data == old(data)[above := old(data)[above] + Alive(old(data)[gen], garbage)][gen := {}]
      ensures collect == old(collect)[gen := false] && collected == old(collected) + [gen]
    {
      CollectGen(gen, above, garbage);
      collect := collect[gen := false];
    }

    /** The end of a run: its last generation is promoted to its parent. */
    method PromoteGen(gen: int, above: int, keep: bool, merge: bool, ghost S: Start, ghost p: int, ghost j: int,
                      ghost o: int, ghost log: seq<int>)
      returns (merge1: bool, ghost p1: int, ghost j1: int, ghost o1: int)
      requires Valid() && Numbered() && StartOk(S) && Halfway(S, p, gens, data, collect, j, o) && 0 <= o
      requires o + 1 < |S.gens|
      requires S.M[o] && !S.M[o + 1] && 0 <= j && j + 1 < |gens| && gen == gens[j] && above == gens[j + 1]
      requires gen in data && above in data
      requires data[gen] == S.D[o] && data[above] == S.D[o + 1] && collected == log + Due(S.gens, S.M, o)
      requires if keep then Offset(S, p, j, o) && Passed(S.D, S.M, S.garbage, o - 1) == {}
               else 0 < j && Offset(S, p, j - 1, o)
      requires merge ==> p == -1
      modifies this`number, this`collect, this`child, this`parent, this`data, this`gens, this`collected
      ensures AtGen(S, p1, j1, o1, above, log) && o1 == o + 1
      ensures if merge && keep && 0 < o then !merge1 && p1 == o && MergedAt(S, p1) else p1 == p && merge1 == merge
    {
      hide Linked, Halfway, Promoted, Alive, Distinct, Without, PromotedAt, Valid, Numbered;
      merge1, p1, j1, o1 := merge, p, j, o + 1;
      ApartFrom(j);
      ApartFrom(j + 1);
      PromoteRest(S, p, gens, data, collect, j, o);
      ghost var data0, collect0, gens0 := data, collect, gens;
      CollectAndClear(gen, above, S.garbage);
      if gen != creation {
        if keep {
          if merge {
            PromoteAndMerge(S, gens, data0, collect0, j, data, collect);
            MergeHere(S, j);
            RemoveGen(gen, j);
            merge1, p1 := false, j;
          } else {
            PromoteAndKeep(S, p, gens, data0, collect0, j, o, data, collect);
            j1 := j + 1;
          }
        } else {
          PromoteAndRemove(S, p, gens, data0, collect0, j, o, data, collect);
          RemoveGen(gen, j);
        }
      } else {
        PromoteAndKeep(S, p, gens, data0, collect0, j, o, data, collect);
        j1 := j + 1;
      }
      AtNext(S, gens0, j, o);
      NextTwo(S, p1, gens, data, collect, j1, o1);
    }

    lemma AtNext(S: Start, gens0: seq<int>, j: int, o: int)
      requires 0 <= j && j + 1 < |gens0| && (gens == gens0 || gens == Without(gens0, j))
      ensures Nth(gens, if gens == gens0 then j + 1 else j) == gens0[j + 1]
    {
    }

    lemma MergeHere(S: Start, o: int)
      requires StartOk(S) && 0 < o && o + 1 < |S.gens| && S.M[o] && Passed(S.D, S.M, S.garbage, o - 1) == {}
      ensures MergedAt(S, o)
    {
    }

    /** A generation that is due, and a run of several that are. */
    method DueGen(gen0: int, above0: int, merge0: bool, ghost S: Start, ghost p0: int, ghost j0: int, ghost o0: int,
                  ghost log: seq<int>)
      returns (merge: bool, ghost p: int, ghost j: int, ghost o: int, above: int)
      requires AtGen(S, p0, j0, o0, gen0, log) && (merge0 ==> p0 == -1) && 0 <= j0 && j0 + 1 < |gens|
      requires o0 < |S.gens| && S.M[o0] && gen0 == gens[j0] && above0 == gens[j0 + 1] && above0 in collect
      modifies this`number, this`collect, this`child, this`parent, this`unused, this`data, this`gens, this`collected
      ensures AtGen(S, p, j, o, above, log) && o0 < o && forall k :: o0 < k < o ==> !Alone(S.M, k)
      ensures if merge0 && Alone(S.M, o0) then !merge && p == o0 && MergedAt(S, p) else p == p0 && merge == merge0
    {
      hide Linked, Halfway, Promoted, Alive, Distinct, Valid, Numbered, MergedAt, Offset, Passed;
      var gen := gen0;
      merge, p, j, o, above := merge0, p0, j0, o0, above0;
      NextTwo(S, p, gens, data, collect, j, o);
      var keep := true;
      NothingPassed(S, data[gen], o);
      if collect[above] {
        gen, above, j, o := CollectRun(gen, above, S, p, j, o, log);
        keep := false;
      }
      merge, p, j, o := PromoteGen(gen, above, keep, merge, S, p, j, o, log);
    }

    /** One turn of the loop over all generations. */
    method OneGen(gen0: int, merge0: bool, ghost S: Start, ghost p0: int, ghost j0: int, ghost o0: int,
                  ghost log: seq<int>)
      returns (merge: bool, ghost p: int, ghost j: int, ghost o: int, above: int)
      requires AtGen(S, p0, j0, o0, gen0, log) && gen0 != 0 && (merge0 ==> p0 == -1)
      modifies this`number, this`collect, this`child, this`parent, this`unused, this`data, this`gens, this`collected
      ensures AtGen(S, p, j, o, above, log) && o0 < o && forall k :: o0 < k < o ==> !Alone(S.M, k)
      ensures if merge0 && Alone(S.M, o0) then !merge && p == o0 && MergedAt(S, p) else p == p0 && merge == merge0
    {
      hide Linked, Halfway, Promoted, Alive, Distinct, Valid, Numbered, MergedAt, Offset, Passed;
      var gen := gen0;
      merge, p, j, o := merge0, p0, j0, o0;
      NextTwo(S, p, gens, data, collect, j, o);
      ApartFrom(j);
      above := parent[gen];
      if collect[gen] {
        merge, p, j, o, above := DueGen(gen, above, merge, S, p, j, o, log);
      } else {
        PassOver(S, p, j, o);
        j, o := j + 1, o + 1;
      }
    }

    /** A generation before which nothing is due has only what it had. */
    lemma NothingPassed(S: Start, d: set<int>, o: int)
      requires StartOk(S) && 0 <= o < |S.gens| && S.M[o] && d == S.D[o] + Passed(S.D, S.M, S.garbage, o - 1)
      requires o > 0 ==> !S.M[o - 1]
      ensures d == S.D[o] && Passed(S.D, S.M, S.garbage, o - 1) == {} && o + 1 < |S.gens|
    {
    }

    lemma Begin(S: Start)
      requires Valid() && Numbered() && StartOk(S) && S.gens == gens
      requires forall i :: 0 <= i < |gens| ==>
               gens[i] in data && gens[i] in collect && data[gens[i]] == S.D[i] && collect[gens[i]] == S.M[i]
      ensures AtGen(S, -1, 0, 0, creation, collected)
    {
    }

    lemma PassOver(S: Start, p: int, j: int, o: int)
      requires Valid() && StartOk(S) && Halfway(S, p, gens, data, collect, j, o) && Offset(S, p, j, o) && o < |S.gens|
      requires !S.M[o]
      requires j < |gens| && gens[j] in data && data[gens[j]] == S.D[o] + Passed(S.D, S.M, S.garbage, o - 1)
      ensures Halfway(S, p, gens, data, collect, j + 1, o + 1) && Offset(S, p, j + 1, o + 1)
      ensures j + 1 < |gens| ==>
              gens[j + 1] in data && o + 1 < |S.gens| &&
              data[gens[j + 1]] == S.D[o + 1] + Passed(S.D, S.M, S.garbage, o)
    {
      hide Linked, Promoted, Alive;
      TargetAt(S, p, j, o);
      NextTwo(S, p, gens, data, collect, j, o);
      assert gens[j + 1..] == gens[j..][1..] && S.gens[o + 1..] == S.gens[o..][1..];
      assert DoneAt(S, p, gens, data, collect, j);
      StillRest(S, data, collect, data, collect, o, o + 1);
    }

    lemma AtEnd(S: Start, p: int, j: int, o: int, log: seq<int>)
      requires AtGen(S, p, j, o, 0, log)
      ensures |gens| == |Target(S, p)| && collected == log + Due(S.gens, S.M, |S.gens|)
      ensures forall i {:trigger DoneAt(S, p, gens, data, collect, i)} :: 0 <= i < |gens| ==>
              DoneAt(S, p, gens, data, collect, i)
    {
    }

    /** The collections of `think`. To have fewer generations, if that is wanted, the first one that is due while its
        neighbours are not is taken out of the chain; it is without data, and its position is `p`. */
    method Round(desireMerge: bool, ghost S: Start) returns (ghost p: int)
      requires Valid() && Numbered() && StartOk(S) && S.gens == gens
      requires forall i :: 0 <= i < |gens| ==>
               gens[i] in data && gens[i] in collect && data[gens[i]] == S.D[i] && collect[gens[i]] == S.M[i]
      modifies this`number, this`collect, this`child, this`parent, this`unused, this`data, this`gens, this`collected
      ensures Valid() && Numbered() && |gens| == |Target(S, p)|
      ensures forall i {:trigger DoneAt(S, p, gens, data, collect, i)} :: 0 <= i < |gens| ==>
              DoneAt(S, p, gens, data, collect, i)
      ensures MergeSpot(S.M, desireMerge, |S.M|, p) && (p != -1 ==> Promoted(S.D, S.M, S.garbage)[p] == {})
      ensures |gens| == |S.gens| - (if p == -1 then 0 else 1)
      ensures AllKept(S, p, gens, data) && AgesKept(S, gens, data)
      ensures forall i :: 0 <= i < |gens| ==> gens[i] in collect && (collect[gens[i]] <==> i == 0 && StillDue(S.M))
      ensures collected == old(collected) + Due(S.gens, S.M, |S.gens|)
      ensures EachDueOnce(S, Due(S.gens, S.M, |S.gens|))
    {
      hide EachDueOnce;
      var gen := creation;
      var merge := desireMerge;
      ghost var j, o, log := 0, 0, collected;
      p := -1;
      Begin(S);
      while gen != 0
        invariant AtGen(S, p, j, o, gen, log) && MergeSpot(S.M, desireMerge, o, p) && (p == -1 || MergedAt(S, p))
        invariant merge <==> desireMerge && p == -1
        decreases |S.gens| - o
      {
        ghost var o0, p0 := o, p;
        merge, p, j, o, gen := OneGen(gen, merge, S, p, j, o, log);
        SpotNext(S.M, desireMerge, o0, p0, o, p);
      }
      AtEnd(S, p, j, o, log);
      RoundKeeps(S, p, gens, data, collect);
      AllDueOnce(S);
      forall i | 0 <= i < |gens| ensures gens[i] in collect && (collect[gens[i]] <==> i == 0 && StillDue(S.M)) {
        assert DoneAt(S, p, gens, data, collect, i);
      }
    }
  }
}
