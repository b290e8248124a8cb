/** Appending lists in two passes: new cells are put in front of the second list, and then filled with
    the heads of the first one, without telling the collector. */
module Lists {
  import opened Seqs

  datatype Value = Imm(n: int) | Ptr(obj: int)

  const MLNIL := Imm(1)
  const MLUNIT := Imm(0)
  const CONS_SIZE := 2

  /** A collection that is to happen: where the objects go, from which generation to which one, and
      where allocation goes on. */
  datatype Plan = Plan(to: map<int, int>, up: map<nat, nat>, free: int)

  function Moved(v: Value, to: map<int, int>): Value {
    if v.Ptr? && v.obj in to then Ptr(to[v.obj]) else v
  }

  function MovedAll(s: seq<Value>, to: map<int, int>): (r: seq<Value>)
    ensures |r| == |s| && forall i :: 0 <= i < |s| ==> r[i] == Moved(s[i], to)
  {
    seq(|s|, i requires 0 <= i < |s| => Moved(s[i], to))
  }

  /** The value is no pointer, or one to an object of `S`. */
  predicate Within(v: Value, S: set<int>) {
    v.Ptr? ==> v.obj in S
  }

  predicate FieldsWithin(objects: map<int, seq<Value>>, o: int, S: set<int>) {
    o in objects && forall i :: 0 <= i < |objects[o]| ==> Within(objects[o][i], S)
  }

  predicate Closed(objects: map<int, seq<Value>>, S: set<int>) {
    forall o {:trigger FieldsWithin(objects, o, S)} :: o in S ==> FieldsWithin(objects, o, S)
  }

  predicate Injective(to: map<int, int>) {
    forall a, b :: a in to && b in to && a != b ==> to[a] != to[b]
  }

  predicate Monotone(up: map<nat, nat>) {
    forall i, j :: i in up && j in up && i <= j ==> up[i] <= up[j]
  }

  /** A collection keeps what the roots refer to, moves no two objects to one place and no generation
      past another. */
  predicate Sensible(plan: Plan, objects: map<int, seq<Value>>, gen: map<int, nat>, roots: seq<Value>) {
    && plan.to.Keys <= objects.Keys && Closed(objects, plan.to.Keys) && Injective(plan.to) && Monotone(plan.up)
    && (forall o :: o in plan.to ==> o in gen && gen[o] in plan.up && plan.to[o] < plan.free)
    && (forall i :: 0 <= i < |roots| ==> Within(roots[i], plan.to.Keys))
  }

  /** The value after the first `i` of the cells `cs`. */
  function CellAt(cs: seq<int>, i: int, end: Value): Value {
    if 0 <= i < |cs| then Ptr(cs[i]) else end
  }

  ghost predicate CellOk(objects: map<int, seq<Value>>, cs: seq<int>, end: Value, i: int)
    requires 0 <= i < |cs|
  {
    cs[i] in objects && |objects[cs[i]]| == CONS_SIZE && objects[cs[i]][1] == CellAt(cs, i + 1, end)
  }

  /** `v` is a list with the cells `cs` in front of `end`. */
  ghost predicate Spine(objects: map<int, seq<Value>>, v: Value, cs: seq<int>, end: Value) {
    v == CellAt(cs, 0, end) && forall i {:trigger CellOk(objects, cs, end, i)} :: 0 <= i < |cs| ==>
      CellOk(objects, cs, end, i)
  }

  /** The object `o` is now at `at[o]`, with its fields moved. */
  ghost predicate KeptAt(objects0: map<int, seq<Value>>, objects: map<int, seq<Value>>, at: map<int, int>, o: int) {
    o in objects0 && o in at && at[o] in objects && objects[at[o]] == MovedAll(objects0[o], at)
  }

  /** The objects `at.Keys` are where `at` says, as they were. */
  ghost predicate Kept(objects0: map<int, seq<Value>>, objects: map<int, seq<Value>>, at: map<int, int>) {
    Injective(at) && Closed(objects0, at.Keys) && forall o {:trigger KeptAt(objects0, objects, at, o)} :: o in at ==>
      KeptAt(objects0, objects, at, o)
  }

  /** The cells `cs` are none of the objects that `at` has moved, and in no older generation than any of
      these. */
  ghost predicate Younger(gen: map<int, nat>, cs: seq<int>, at: map<int, int>) {
    forall i, o {:trigger YoungerAt(gen, cs, at, i, o)} :: 0 <= i < |cs| && o in at ==> YoungerAt(gen, cs, at, i, o)
  }

  ghost predicate YoungerAt(gen: map<int, nat>, cs: seq<int>, at: map<int, int>, i: int, o: int)
    requires 0 <= i < |cs| && o in at
  {
    cs[i] != at[o] && cs[i] in gen && at[o] in gen && gen[cs[i]] <= gen[at[o]]
  }

  /** What follows the cell `cs[i]` is in no younger generation than the cell. */
  ghost predicate TailOlder(gen: map<int, nat>, cs: seq<int>, end: Value, i: int)
    requires 0 <= i < |cs|
  {
    var tail := CellAt(cs, i + 1, end);
    tail.Ptr? ==> cs[i] in gen && tail.obj in gen && gen[cs[i]] <= gen[tail.obj]
  }

  ghost predicate TailsOlder(gen: map<int, nat>, cs: seq<int>, end: Value) {
    forall i {:trigger TailOlder(gen, cs, end, i)} :: 0 <= i < |cs| ==> TailOlder(gen, cs, end, i)
  }

  /** Where the objects `cs` have gone. */
  function Placed(cs: seq<int>, to: map<int, int>): (r: seq<int>)
    ensures |r| == |cs| && forall i :: 0 <= i < |cs| && cs[i] in to ==> r[i] == to[cs[i]]
  {
    seq(|cs|, i requires 0 <= i < |cs| => if cs[i] in to then to[cs[i]] else 0)
  }

  /** A cell in front of a list. */
  lemma SpineCons(objects: map<int, seq<Value>>, v: Value, cs: seq<int>, end: Value, c: int, h: Value)
    requires Spine(objects, v, cs, end) && c !in objects
    ensures Spine(objects[c := [h, v]], Ptr(c), [c] + cs, end)
  {
    var objects1, cs1 := objects[c := [h, v]], [c] + cs;
    forall i {:trigger CellOk(objects1, cs1, end, i)} | 0 <= i < |cs1| ensures CellOk(objects1, cs1, end, i) {
      if i > 0 {
        assert CellOk(objects, cs, end, i - 1);
      }
    }
  }

  /** A list after a collection. */
  lemma SpineMoved(objects: map<int, seq<Value>>, v: Value, cs: seq<int>, end: Value, to: map<int, int>,
                   objects1: map<int, seq<Value>>)
    requires Spine(objects, v, cs, end) && Within(v, to.Keys) && Closed(objects, to.Keys) && Injective(to)
    requires forall o {:trigger KeptAt(objects, objects1, to, o)} :: o in to ==> KeptAt(objects, objects1, to, o)
    ensures forall i :: 0 <= i < |cs| ==> cs[i] in to
    ensures Spine(objects1, Moved(v, to), Placed(cs, to), Moved(end, to))
  {
    var cs1 := Placed(cs, to);
    forall i | 0 <= i < |cs| ensures cs[i] in to {
      CellIn(objects, v, cs, end, to.Keys, i);
    }
    forall i {:trigger CellOk(objects1, cs1, Moved(end, to), i)} | 0 <= i < |cs1|
      ensures CellOk(objects1, cs1, Moved(end, to), i)
    {
      assert CellOk(objects, cs, end, i) && KeptAt(objects, objects1, to, cs[i]);
    }
  }

  /** A set that is closed under pointers holds all cells of a list that begins in it. */
  lemma {:induction false} CellIn(objects: map<int, seq<Value>>, v: Value, cs: seq<int>, end: Value, S: set<int>,
                                  i: int)
    requires Spine(objects, v, cs, end) && Within(v, S) && Closed(objects, S) && 0 <= i < |cs|
    ensures cs[i] in S
  {
    if i > 0 {
      CellIn(objects, v, cs, end, S, i - 1);
      assert CellOk(objects, cs, end, i - 1) && FieldsWithin(objects, cs[i - 1], S);
      assert Within(objects[cs[i - 1]][1], S);
    }
  }

  // ---- Collections ----

  function CollectedObjects(objects: map<int, seq<Value>>, to: map<int, int>): map<int, seq<Value>>
    requires Injective(to) && to.Keys <= objects.Keys
  {
    map o | o in to :: to[o] := MovedAll(objects[o], to)
  }

  lemma CollectedOk(objects: map<int, seq<Value>>, to: map<int, int>)
    requires Injective(to) && to.Keys <= objects.Keys && Closed(objects, to.Keys)
    ensures var objects1 := CollectedObjects(objects, to);
            Closed(objects1, objects1.Keys) && forall v :: v in objects1 ==> exists o :: o in to && to[o] == v
    ensures forall o {:trigger KeptAt(objects, CollectedObjects(objects, to), to, o)} :: o in to ==>
            KeptAt(objects, CollectedObjects(objects, to), to, o)
  {
    var objects1 := CollectedObjects(objects, to);
    forall o {:trigger FieldsWithin(objects1, o, objects1.Keys)} | o in objects1.Keys
      ensures FieldsWithin(objects1, o, objects1.Keys)
    {
      var o0 :| o0 in to && to[o0] == o;
      assert FieldsWithin(objects, o0, to.Keys);
      forall i | 0 <= i < |objects1[o]| ensures Within(objects1[o][i], objects1.Keys) {
        assert Within(objects[o0][i], to.Keys);
      }
    }
  }

  lemma RootsWithin(first: Value, second: Value, tmp: Value, S: set<int>)
    requires forall i :: 0 <= i < |[first, second, tmp]| ==> Within([first, second, tmp][i], S)
    ensures Within(first, S) && Within(second, S) && Within(tmp, S)
  {
    assert Within([first, second, tmp][0], S) && Within([first, second, tmp][1], S) &&
           Within([first, second, tmp][2], S);
  }

  function CollectedGens(gen: map<int, nat>, plan: Plan): map<int, nat>
    requires Injective(plan.to) && forall o :: o in plan.to ==> o in gen && gen[o] in plan.up
  {
    map o | o in plan.to :: plan.to[o] := plan.up[gen[o]]
  }

  lemma CollectedGensOk(gen: map<int, nat>, plan: Plan)
    requires Injective(plan.to) && forall o :: o in plan.to ==> o in gen && gen[o] in plan.up
    ensures var gen1 := CollectedGens(gen, plan);
            forall o :: o in plan.to ==> plan.to[o] in gen1 && gen1[plan.to[o]] == plan.up[gen[o]]
  {
  }

  /** What a sensible collection makes of the memory. */
  lemma SensibleFacts(plan: Plan, objects: map<int, seq<Value>>, gen: map<int, nat>, first: Value, second: Value,
                      tmp: Value)
    requires Sensible(plan, objects, gen, [first, second, tmp])
    ensures Within(first, plan.to.Keys) && Within(second, plan.to.Keys) && Monotone(plan.up)
    ensures Injective(plan.to) && plan.to.Keys <= objects.Keys && Closed(objects, plan.to.Keys)
    ensures forall o :: o in plan.to ==> o in gen && gen[o] in plan.up
    ensures var objects1 := CollectedObjects(objects, plan.to); var gen1 := CollectedGens(gen, plan);
            MemoryOk(objects1, gen1, plan.free, Moved(first, plan.to), Moved(second, plan.to), Moved(tmp, plan.to))
  {
    RootsWithin(first, second, tmp, plan.to.Keys);
    CollectedOk(objects, plan.to);
    CollectedGensOk(gen, plan);
    forall v | v in CollectedObjects(objects, plan.to) ensures v in CollectedGens(gen, plan) && v < plan.free {
      var o :| o in plan.to && plan.to[o] == v;
    }
  }

  // ---- The state of the append function ----

  /** The objects that survive a collection, and where they were at first. */
  function Through(at: map<int, int>, to: map<int, int>): map<int, int> {
    map o | o in at && at[o] in to :: to[at[o]]
  }

  lemma KeptThrough(objects0: map<int, seq<Value>>, objects: map<int, seq<Value>>, at: map<int, int>, to: map<int, int>,
                    objects1: map<int, seq<Value>>)
    requires Kept(objects0, objects, at) && Closed(objects, to.Keys) && Injective(to)
    requires forall o {:trigger KeptAt(objects, objects1, to, o)} :: o in to ==> KeptAt(objects, objects1, to, o)
    ensures Kept(objects0, objects1, Through(at, to))
  {
    var at1 := Through(at, to);
    forall o {:trigger FieldsWithin(objects0, o, at1.Keys)} | o in at1.Keys
      ensures FieldsWithin(objects0, o, at1.Keys)
    {
      FieldsThrough(objects0, objects, at, to, o);
    }
    forall o {:trigger KeptAt(objects0, objects1, at1, o)} | o in at1 ensures KeptAt(objects0, objects1, at1, o) {
      FieldsThrough(objects0, objects, at, to, o);
      assert KeptAt(objects0, objects, at, o) && KeptAt(objects, objects1, to, at[o]);
    }
  }

  lemma FieldsThrough(objects0: map<int, seq<Value>>, objects: map<int, seq<Value>>, at: map<int, int>,
                      to: map<int, int>, o: int)
    requires Kept(objects0, objects, at) && Closed(objects, to.Keys) && o in at && at[o] in to
    ensures FieldsWithin(objects0, o, Through(at, to).Keys)
    ensures MovedAll(MovedAll(objects0[o], at), to) == MovedAll(objects0[o], Through(at, to))
  {
    assert KeptAt(objects0, objects, at, o) && FieldsWithin(objects0, o, at.Keys) &&
           FieldsWithin(objects, at[o], to.Keys);
    forall i | 0 <= i < |objects0[o]| ensures Within(objects0[o][i], Through(at, to).Keys) {
      assert Within(objects0[o][i], at.Keys) && Within(objects[at[o]][i], to.Keys);
    }
  }

  ghost predicate MemoryOk(objects: map<int, seq<Value>>, gen: map<int, nat>, free: int, first: Value, second: Value,
                           tmp: Value) {
    && (forall o :: o in objects ==> o in gen && o < free)
    && Closed(objects, objects.Keys) && Within(first, objects.Keys) && Within(second, objects.Keys)
    && Within(tmp, objects.Keys)
  }

  /** The memory before, and the two lists in it. */
  datatype Before = Before(objects: map<int, seq<Value>>, first: Value, second: Value)

  /** The originals `at.Keys` are as they were, and `cs` are new cells in front of the second list. */
  ghost predicate Prepared(objects: map<int, seq<Value>>, gen: map<int, nat>, free: int, first: Value, second: Value,
                           tmp: Value,
                           before: Before, at: map<int, int>, cs: seq<int>) {
    && MemoryOk(objects, gen, free, first, second, tmp) && Kept(before.objects, objects, at)
    && Within(before.first, at.Keys) && Within(before.second, at.Keys)
    && first == Moved(before.first, at) && Spine(objects, second, cs, Moved(before.second, at)) && Distinct(cs)
    && Younger(gen, cs, at) && TailsOlder(gen, cs, Moved(before.second, at))
  }

  /** A new cell in front of the second list. */
  lemma PreparedCons(objects: map<int, seq<Value>>, gen: map<int, nat>, free: int, first: Value, second: Value,
                     tmp: Value, before: Before, at: map<int, int>, cs: seq<int>, c: int)
    requires Prepared(objects, gen, free, first, second, tmp, before, at, cs) && c !in objects && c < free
    ensures Prepared(objects[c := [MLUNIT, second]], gen[c := 0], free, first, Ptr(c), tmp, before, at, [c] + cs)
  {
    var objects1, gen1, cs1 := objects[c := [MLUNIT, second]], gen[c := 0], [c] + cs;
    SpineCons(objects, second, cs, Moved(before.second, at), c, MLUNIT);
    forall i | 0 <= i < |cs| ensures cs[i] in objects {
      assert CellOk(objects, cs, Moved(before.second, at), i);
    }
    forall o {:trigger KeptAt(before.objects, objects1, at, o)} | o in at
      ensures KeptAt(before.objects, objects1, at, o) && at[o] != c
    {
      assert KeptAt(before.objects, objects, at, o);
    }
    forall o {:trigger FieldsWithin(objects1, o, objects1.Keys)} | o in objects1.Keys
      ensures FieldsWithin(objects1, o, objects1.Keys)
    {
      if o != c {
        assert FieldsWithin(objects, o, objects.Keys);
      }
    }
    forall i, o {:trigger YoungerAt(gen1, cs1, at, i, o)} | 0 <= i < |cs1| && o in at
      ensures YoungerAt(gen1, cs1, at, i, o)
    {
      assert KeptAt(before.objects, objects1, at, o);
      if i > 0 {
        assert YoungerAt(gen, cs, at, i - 1, o);
      }
    }
    TailsCons(objects, gen, second, cs, Moved(before.second, at), c);
  }

  lemma TailsCons(objects: map<int, seq<Value>>, gen: map<int, nat>, second: Value, cs: seq<int>, end: Value, c: int)
    requires Spine(objects, second, cs, end) && TailsOlder(gen, cs, end) && c !in objects
    requires Closed(objects, objects.Keys) && Within(second, objects.Keys) && forall o :: o in objects ==> o in gen
    ensures TailsOlder(gen[c := 0], [c] + cs, end)
  {
    var gen1, cs1 := gen[c := 0], [c] + cs;
    forall i {:trigger TailOlder(gen1, cs1, end, i)} | 0 <= i < |cs1| ensures TailOlder(gen1, cs1, end, i) {
      if i > 0 {
        assert CellOk(objects, cs, end, i - 1) && FieldsWithin(objects, cs[i - 1], objects.Keys);
        assert TailOlder(gen, cs, end, i - 1) && Within(objects[cs[i - 1]][1], objects.Keys);
      }
    }
  }

  /** There are no objects from `free` on, and it may be advanced. */
  lemma MoreFree(objects: map<int, seq<Value>>, gen: map<int, nat>, free: int, first: Value, second: Value, tmp: Value,
                 before: Before, at: map<int, int>, cs: seq<int>)
    requires Prepared(objects, gen, free, first, second, tmp, before, at, cs)
    ensures forall o :: o in objects ==> o < free
    ensures forall free1 :: free <= free1 ==> Prepared(objects, gen, free1, first, second, tmp, before, at, cs)
  {
    hide Kept, Spine, Younger, TailsOlder;
  }

  /** The root `tmp` may be set to any object. */
  lemma NewTmp(objects: map<int, seq<Value>>, gen: map<int, nat>, free: int, first: Value, second: Value,
               before: Before, at: map<int, int>, cs: seq<int>)
    ensures forall tmp, tmp1 ::
            Prepared(objects, gen, free, first, second, tmp, before, at, cs) && Within(tmp1, objects.Keys) ==>
            Prepared(objects, gen, free, first, second, tmp1, before, at, cs)
  {
    hide Kept, Spine, Younger, TailsOlder;
  }

  /** A set that is closed under pointers holds what a list that begins in it ends with. */
  lemma EndIn(objects: map<int, seq<Value>>, v: Value, cs: seq<int>, end: Value, S: set<int>)
    requires Spine(objects, v, cs, end) && Within(v, S) && Closed(objects, S)
    ensures Within(end, S)
  {
    if cs != [] {
      CellIn(objects, v, cs, end, S, |cs| - 1);
      assert CellOk(objects, cs, end, |cs| - 1) && FieldsWithin(objects, cs[|cs| - 1], S);
      assert Within(objects[cs[|cs| - 1]][1], S);
    }
  }

  /** What the roots refer to survives. */
  lemma OriginIn(v: Value, at: map<int, int>, to: map<int, int>)
    requires Within(v, at.Keys) && Within(Moved(v, at), to.Keys)
    ensures Within(v, Through(at, to).Keys) && Moved(Moved(v, at), to) == Moved(v, Through(at, to))
  {
  }

  lemma YoungerMoved(gen: map<int, nat>, cs: seq<int>, at: map<int, int>, plan: Plan)
    requires Younger(gen, cs, at) && Injective(plan.to) && Monotone(plan.up)
    requires forall o :: o in plan.to ==> o in gen && gen[o] in plan.up
    requires forall i :: 0 <= i < |cs| ==> cs[i] in plan.to
    ensures Younger(CollectedGens(gen, plan), Placed(cs, plan.to), Through(at, plan.to))
  {
    var gen1, cs1, at1 := CollectedGens(gen, plan), Placed(cs, plan.to), Through(at, plan.to);
    CollectedGensOk(gen, plan);
    forall i, o {:trigger YoungerAt(gen1, cs1, at1, i, o)} | 0 <= i < |cs1| && o in at1
      ensures YoungerAt(gen1, cs1, at1, i, o)
    {
      assert YoungerAt(gen, cs, at, i, o);
    }
  }

  lemma TailsMoved(gen: map<int, nat>, cs: seq<int>, end: Value, plan: Plan)
    requires TailsOlder(gen, cs, end) && Injective(plan.to) && Monotone(plan.up) && Within(end, plan.to.Keys)
    requires forall o :: o in plan.to ==> o in gen && gen[o] in plan.up
    requires forall i :: 0 <= i < |cs| ==> cs[i] in plan.to
    ensures TailsOlder(CollectedGens(gen, plan), Placed(cs, plan.to), Moved(end, plan.to))
  {
    var gen1, cs1, end1 := CollectedGens(gen, plan), Placed(cs, plan.to), Moved(end, plan.to);
    CollectedGensOk(gen, plan);
    forall i {:trigger TailOlder(gen1, cs1, end1, i)} | 0 <= i < |cs1| ensures TailOlder(gen1, cs1, end1, i) {
      assert TailOlder(gen, cs, end, i);
      var c, tail := cs[i], CellAt(cs, i + 1, end);
      assert c in plan.to && cs1[i] == plan.to[c];
      assert Within(tail, plan.to.Keys) && CellAt(cs1, i + 1, end1) == Moved(tail, plan.to);
      assert gen1[plan.to[c]] == plan.up[gen[c]];
    }
  }

  /** A collection while the cells are being made. */
  lemma PreparedCollected(objects: map<int, seq<Value>>, gen: map<int, nat>, free: int, first: Value, second: Value,
                          tmp: Value, before: Before, at: map<int, int>, cs: seq<int>, plan: Plan)
    requires Prepared(objects, gen, free, first, second, tmp, before, at, cs)
    requires Sensible(plan, objects, gen, [first, second, tmp])
    ensures Injective(plan.to) && plan.to.Keys <= objects.Keys
    ensures forall o :: o in plan.to ==> o in gen && gen[o] in plan.up
    ensures Prepared(CollectedObjects(objects, plan.to), CollectedGens(gen, plan), plan.free, Moved(first, plan.to),
            Moved(second, plan.to), Moved(tmp, plan.to), before, Through(at, plan.to), Placed(cs, plan.to))
  {
    hide MemoryOk, Sensible, Spine, Closed, Kept, Younger, TailsOlder, Injective, Monotone, CollectedGens,
      CollectedObjects, Through;
    var to := plan.to;
    SensibleFacts(plan, objects, gen, first, second, tmp);
    CollectedOk(objects, to);
    CollectedGensOk(gen, plan);
    KeptThrough(before.objects, objects, at, to, CollectedObjects(objects, to));
    SpineMoved(objects, second, cs, Moved(before.second, at), to, CollectedObjects(objects, to));
    EndIn(objects, second, cs, Moved(before.second, at), to.Keys);
    OriginIn(before.first, at, to);
    OriginIn(before.second, at, to);
    YoungerMoved(gen, cs, at, plan);
    TailsMoved(gen, cs, Moved(before.second, at), plan);
  }

  /** The memory, and the roots of the append function. */
  class Memory {
    var objects: map<int, seq<Value>>
    var gen: map<int, nat>
    var first: Value
    var second: Value
    var tmp: Value
    var free: int
    var plans: seq<Plan>

    ghost predicate Valid()
      reads this
    {
      MemoryOk(objects, gen, free, first, second, tmp)
    }

    /** The two lists are as they were, and the new cells `cs` are in front of the second one. */
    ghost predicate Ready(before: Before, at: map<int, int>, cs: seq<int>)
      reads this
    {
      Prepared(objects, gen, free, first, second, tmp, before, at, cs)
    }

    /** A collection. */
    method Collect(plan: Plan, ghost before: Before, ghost at: map<int, int>, ghost cs: seq<int>)
      requires Ready(before, at, cs) && Sensible(plan, objects, gen, [first, second, tmp])
      modifies this`objects, this`gen, this`first, this`second, this`tmp, this`free
      ensures Ready(before, Through(at, plan.to), Placed(cs, plan.to))
    {
      hide Prepared, Injective, Sensible;
      PreparedCollected(objects, gen, free, first, second, tmp, before, at, cs, plan);
      objects := CollectedObjects(objects, plan.to);
      gen := CollectedGens(gen, plan);
      first, second, tmp := Moved(first, plan.to), Moved(second, plan.to), Moved(tmp, plan.to);
      free := plan.free;
    }

    /** `allocate_multiple`: as many cells as there is room for, and not more than wanted. There is no collection. */
    method AllocateMultiple(number: nat, available: nat) returns (k: nat, start: int)
      modifies this`free
      ensures k == (if available > number then number else available) && start == old(free)
      ensures free == old(free) + k * CONS_SIZE
    {
      k := if available > number then number else available;
      start := free;
      free := free + k * CONS_SIZE;
    }

    /** `allocate_record`, for a pair. There may be a collection. */
    method AllocateRecord(ghost before: Before, ghost at0: map<int, int>, ghost cs0: seq<int>)
      returns (obj: int, ghost at: map<int, int>, ghost cs: seq<int>)
      requires Ready(before, at0, cs0)
      modifies this
      ensures Ready(before, at, cs) && |cs| == |cs0| && obj !in objects && obj < free
    {
      at, cs := at0, cs0;
      if plans != [] {
        var plan := plans[0];
        plans := plans[1..];
        if Sensible(plan, objects, gen, [first, second, tmp]) {
          Collect(plan, before, at, cs);
          at, cs := Through(at, plan.to), Placed(cs, plan.to);
        }
      }
      obj := free;
      free := free + CONS_SIZE;
    }

    /** Fills new cells from `start` on with the unit value, each in front of the one before. */
    method Fill(start0: int, k0: nat, ghost before: Before, ghost at: map<int, int>, ghost cs0: seq<int>)
      returns (ghost cs: seq<int>)
      requires Ready(before, at, cs0) && start0 + k0 * CONS_SIZE <= free && forall o :: o in objects ==> o < start0
      modifies this`objects, this`gen, this`second
      ensures Ready(before, at, cs) && |cs| == |cs0| + k0
    {
      hide Prepared;
      cs := cs0;
      var start, k := start0, k0;
      while k > 0
        invariant 0 <= k <= k0 && start + k * CONS_SIZE <= free && (forall o :: o in objects ==> o < start)
        invariant Ready(before, at, cs) && |cs| == |cs0| + k0 - k
      {
        PreparedCons(objects, gen, free, first, second, tmp, before, at, cs, start);
        objects := objects[start := [MLUNIT, second]];
        gen := gen[start := 0];
        second := Ptr(start);
        cs := [start] + cs;
        k := k - 1;
        start := start + CONS_SIZE;
      }
    }

    /** The first pass: as many unit cells as the first list has, in front of the second one. */
    method Prepare(length0: nat, available: seq<nat>, ghost before: Before, ghost at0: map<int, int>)
      returns (ghost at: map<int, int>, ghost cs: seq<int>)
      requires Ready(before, at0, [])
      modifies this
      ensures Ready(before, at, cs) && |cs| == length0
    {
      hide Prepared, MemoryOk;
      at, cs := at0, [];
      var length, turn := length0, 0;
      while length > 0
        invariant Ready(before, at, cs) && 0 <= length && |cs| + length == length0
      {
        MoreFree(objects, gen, free, first, second, tmp, before, at, cs);
        var k, start := AllocateMultiple(length, if turn < |available| then available[turn] else 0);
        turn := turn + 1;
        if k > 0 {
          length := length - k;
          cs := Fill(start, k, before, at, cs);
        } else {
          length := length - 1;
          var obj;
          obj, at, cs := AllocateRecord(before, at, cs);
          PreparedCons(objects, gen, free, first, second, tmp, before, at, cs, obj);
          tmp := Ptr(obj);
          objects := objects[obj := [MLUNIT, second]];
          gen := gen[obj := 0];
          second := tmp;
          cs := [obj] + cs;
          NewTmp(objects, gen, free, first, second, before, at, cs);
        }
      }
    }

    /** The second pass: copies the heads of the first list to the new cells, without logging the stores. */
    method CopyHeads(ghost before: Before, ghost fs: seq<int>, ghost at: map<int, int>, ghost cs: seq<int>)
      requires Ready(before, at, cs) && Spine(before.objects, before.first, fs, MLNIL) && |cs| == |fs|
      modifies this`objects
      ensures Kept(before.objects, objects, at) && Spine(objects, second, cs, Moved(before.second, at))
      ensures forall j {:trigger HeadCopied(before.objects, objects, gen, fs, at, cs, j)} :: 0 <= j < |cs| ==>
              HeadCopied(before.objects, objects, gen, fs, at, cs, j)
    {
      hide MemoryOk, Kept, Younger, TailsOlder, Spine;
      var r, t := first, second;
      ghost var k, end := 0, Moved(before.second, at);
      SpineAt(before.objects, before.first, fs, MLNIL, 0);
      SpineAt(objects, second, cs, end, 0);
      while r != MLNIL
        invariant 0 <= k <= |fs| && r == Moved(CellAt(fs, k, MLNIL), at) && t == CellAt(cs, k, end)
        invariant Kept(before.objects, objects, at) && Spine(objects, second, cs, end)
        invariant forall j {:trigger HeadCopied(before.objects, objects, gen, fs, at, cs, j)} :: 0 <= j < k ==>
                  HeadCopied(before.objects, objects, gen, fs, at, cs, j)
        decreases |fs| - k
      {
        FirstCell(before.objects, objects, before.first, fs, at, k);
        SpineAt(objects, second, cs, end, k);
        CopyStep(before.objects, objects, gen, second, end, fs, at, cs, k);
        objects := objects[t.obj := objects[t.obj][0 := objects[r.obj][0]]];
        FirstCell(before.objects, objects, before.first, fs, at, k);
        SpineAt(objects, second, cs, end, k);
        r := objects[r.obj][1];
        t := objects[t.obj][1];
        k := k + 1;
      }
      assert k < |fs| ==> r.Ptr?;
    }

    /** The number of cells of the list `first`. */
    method Length(ghost fs: seq<int>) returns (length: nat)
      requires Spine(objects, first, fs, MLNIL)
      modifies this`tmp
      ensures length == |fs| && tmp == MLNIL
    {
      length := 0;
      tmp := first;
      while tmp != MLNIL
        invariant 0 <= length <= |fs| && tmp == CellAt(fs, length, MLNIL)
        decreases |fs| - length
      {
        assert CellOk(objects, fs, MLNIL, length);
        tmp := objects[tmp.obj][1];
        length := length + 1;
      }
    }

    /** `append`: of the two lists in the pair `argument`. The result shares the second one. */
    method Append(argument: int, available: seq<nat>, ghost fs: seq<int>)
      returns (t: Value, ghost at: map<int, int>, ghost cs: seq<int>)
      requires Valid() && argument in objects && |objects[argument]| == 2
      requires Spine(objects, objects[argument][0], fs, MLNIL)
      modifies this
      ensures Kept(old(objects), objects, at) && Within(old(objects)[argument][1], at.Keys)
      ensures Spine(objects, t, cs, Moved(old(objects)[argument][1], at)) && |cs| == |fs|
      ensures forall j {:trigger HeadCopied(old(objects), objects, gen, fs, at, cs, j)} :: 0 <= j < |cs| ==>
              HeadCopied(old(objects), objects, gen, fs, at, cs, j)
      ensures TailsOlder(gen, cs, Moved(old(objects)[argument][1], at))
    {
      hide Kept, Younger, TailsOlder;
      first := objects[argument][0];
      second := objects[argument][1];
      ghost var before := Before(objects, first, second);
      at := map o | o in objects :: o;
      assert FieldsWithin(objects, argument, objects.Keys);
      assert Within(objects[argument][0], objects.Keys) && Within(objects[argument][1], objects.Keys);
      var length := Length(fs);
      AtFirst(objects, at);
      at, cs := Prepare(length, available, before, at);
      CopyHeads(before, fs, at, cs);
      t := second;
      first, second, tmp := MLUNIT, MLUNIT, MLUNIT;
    }
  }

  /** The head of cell `j` is that of the first list, and in no younger generation than the cell. */
  ghost predicate HeadCopied(objects0: map<int, seq<Value>>, objects: map<int, seq<Value>>, gen: map<int, nat>,
                             fs: seq<int>, at: map<int, int>, cs: seq<int>, j: int)
  {
    && 0 <= j < |cs| && j < |fs| && cs[j] in objects && fs[j] in objects0 && |objects[cs[j]]| == CONS_SIZE
    && |objects0[fs[j]]| == CONS_SIZE
    && objects[cs[j]][0] == Moved(objects0[fs[j]][0], at)
    && (objects[cs[j]][0].Ptr? ==>
          cs[j] in gen && objects[cs[j]][0].obj in gen && gen[cs[j]] <= gen[objects[cs[j]][0].obj])
  }

  lemma SpineAt(objects: map<int, seq<Value>>, v: Value, cs: seq<int>, end: Value, i: int)
    requires Spine(objects, v, cs, end) && 0 <= i
    ensures v == CellAt(cs, 0, end) && (i < |cs| ==> CellOk(objects, cs, end, i))
  {
  }

  /** A cell of the first list, where it is now. */
  lemma FirstCell(objects0: map<int, seq<Value>>, objects: map<int, seq<Value>>, first: Value, fs: seq<int>,
                  at: map<int, int>, k: int)
    requires Kept(objects0, objects, at) && Spine(objects0, first, fs, MLNIL) && Within(first, at.Keys) && 0 <= k < |fs|
    ensures fs[k] in at && at[fs[k]] in objects && |objects[at[fs[k]]]| == CONS_SIZE && fs[k] in objects0
    ensures |objects0[fs[k]]| == CONS_SIZE
    ensures objects[at[fs[k]]][0] == Moved(objects0[fs[k]][0], at)
    ensures objects[at[fs[k]]][1] == Moved(CellAt(fs, k + 1, MLNIL), at)
    ensures Within(objects0[fs[k]][0], at.Keys)
  {
    CellIn(objects0, first, fs, MLNIL, at.Keys, k);
    assert CellOk(objects0, fs, MLNIL, k) && KeptAt(objects0, objects, at, fs[k]) &&
           FieldsWithin(objects0, fs[k], at.Keys);
  }

  /** Filling in one cell. */
  lemma CopyStep(objects0: map<int, seq<Value>>, objects: map<int, seq<Value>>, gen: map<int, nat>, second: Value,
                 end: Value, fs: seq<int>, at: map<int, int>, cs: seq<int>, k: int)
    requires Kept(objects0, objects, at) && Spine(objects, second, cs, end) && Distinct(cs) && Younger(gen, cs, at)
    requires 0 <= k < |fs| == |cs|
    requires fs[k] in objects0 && |objects0[fs[k]]| == CONS_SIZE && Within(objects0[fs[k]][0], at.Keys)
    requires forall j {:trigger HeadCopied(objects0, objects, gen, fs, at, cs, j)} :: 0 <= j < k ==>
             HeadCopied(objects0, objects, gen, fs, at, cs, j)
    ensures cs[k] in objects && |objects[cs[k]]| == CONS_SIZE
    ensures var objects1 := objects[cs[k] := objects[cs[k]][0 := Moved(objects0[fs[k]][0], at)]];
            Kept(objects0, objects1, at) && Spine(objects1, second, cs, end) &&
            forall j {:trigger HeadCopied(objects0, objects1, gen, fs, at, cs, j)} :: 0 <= j <= k ==>
              HeadCopied(objects0, objects1, gen, fs, at, cs, j)
  {
    assert CellOk(objects, cs, end, k);
    var objects1 := objects[cs[k] := objects[cs[k]][0 := Moved(objects0[fs[k]][0], at)]];
    forall o {:trigger KeptAt(objects0, objects1, at, o)} | o in at ensures KeptAt(objects0, objects1, at, o) {
      assert KeptAt(objects0, objects, at, o) && YoungerAt(gen, cs, at, k, o);
    }
    forall i {:trigger CellOk(objects1, cs, end, i)} | 0 <= i < |cs| ensures CellOk(objects1, cs, end, i) {
      assert CellOk(objects, cs, end, i);
    }
    forall j {:trigger HeadCopied(objects0, objects1, gen, fs, at, cs, j)} | 0 <= j <= k
      ensures HeadCopied(objects0, objects1, gen, fs, at, cs, j)
    {
      if j < k {
        assert HeadCopied(objects0, objects, gen, fs, at, cs, j);
      } else {
        var v := objects0[fs[k]][0];
        assert v.Ptr? ==> YoungerAt(gen, cs, at, k, v.obj);
      }
    }
  }

  /** At first, all objects are where they are. */
  lemma AtFirst(objects: map<int, seq<Value>>, at: map<int, int>)
    requires Closed(objects, objects.Keys) && at.Keys == objects.Keys && forall o :: o in at ==> at[o] == o
    ensures Kept(objects, objects, at)
    ensures forall gen :: Younger(gen, [], at)
    ensures forall gen, end :: TailsOlder(gen, [], end)
  {
  }
}
