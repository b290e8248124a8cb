/** The parts of an image: where they were, where they are put, and what is to become of their words. */
module ImageUnits {
  import opened Heap
  import opened ImageFormat
  import opened ImageScan

  /** The descriptor of a generation, its area, or a static object with its header. */
  datatype Unit = DescU(i: int) | RegionU(i: int) | StatU(j: int)

  /** What `make_ml_heap` and `make_static_object` return: the places of descriptors, areas and static objects. */
  datatype Places = Places(gen: int -> int, start: int -> int, stat: int -> int)

  /** The static objects `first[i]` to `first[i + 1]` are those of generation `i`. */
  datatype Lists = Lists(first: seq<int>, owner: seq<int>)

  ghost predicate IsUnit(img: Image, u: Unit) {
    match u
    case DescU(i) => 0 <= i < |img.gens|
    case RegionU(i) => 0 <= i < |img.gens|
    case StatU(j) => 0 <= j < |img.stats|
  }

  ghost predicate ShapesOk(img: Image) {
    GensOk(img.gens, 0) && StatsOk(img.stats)
  }

  lemma Shapes(img: Image, i: int)
    requires ShapesOk(img)
    ensures 0 <= i < |img.gens| ==>
            |img.gens[i].desc| == DESCRIPTOR &&
            TopOf(img.gens[i].desc, i) - Num(img.gens[i].desc[START]) == |img.gens[i].words|
    ensures 0 <= i < |img.stats| ==> |img.stats[i].desc| == STATIC_DESCRIPTOR
  {
    if 0 <= i < |img.gens| {
      assert GenOk(img.gens[i], 0 + i);
    }
    if 0 <= i < |img.stats| {
      assert StatOk(img.stats[i]);
    }
  }

  ghost function UnitLen(img: Image, u: Unit): nat
    requires IsUnit(img, u)
  {
    match u
    case DescU(_) => DESCRIPTOR
    case RegionU(i) => |img.gens[i].words|
    case StatU(j) => OBJECT + |img.stats[j].words|
  }

  ghost function NewAt(P: Places, u: Unit): int {
    match u
    case DescU(i) => P.gen(i)
    case RegionU(i) => P.start(i)
    case StatU(j) => P.stat(j)
  }

  /** The fields of a new descriptor, when `n` generations have been read. */
  function NewDesc(g: GenImage, P: Places, i: int, n: int): (r: seq<Word>)
    requires |g.desc| == DESCRIPTOR
    ensures |r| == DESCRIPTOR
  {
    var top := P.start(i) + |g.words|;
    [g.desc[NUMBER], Imm(if i + 1 < n then P.gen(i + 1) else 0), Imm(if i > 0 then P.gen(i - 1) else 0),
     Imm(P.start(i) / SPACE_WORDS), g.desc[COLLECT], g.desc[VALUES],
     Imm(P.start(i)), Imm(P.start(i) + (Num(g.desc[END]) - Num(g.desc[START]))), Imm(top), Imm(top)] + g.desc[ENTRY..]
  }

  function NewStat(s: StatImage): (r: seq<Word>)
    requires |s.desc| == STATIC_DESCRIPTOR
  {
    [s.desc[0], s.desc[1], Imm(0), Imm(0)] + s.words
  }

  /** The words of a unit when it has been put in its place, and not been relocated. */
  ghost function RawUnit(img: Image, P: Places, u: Unit, n: int): (r: seq<Word>)
    requires ShapesOk(img) && IsUnit(img, u)
    ensures |r| == UnitLen(img, u)
  {
    match u
    case DescU(i) => Shapes(img, i); NewDesc(img.gens[i], P, i, n)
    case RegionU(i) => img.gens[i].words
    case StatU(j) => Shapes(img, j); NewStat(img.stats[j])
  }

  ghost predicate Apart(a: int, n: nat, b: int, m: nat) {
    a + n <= b || b + m <= a
  }

  ghost predicate UnitsApart(img: Image, P: Places, u: Unit, v: Unit)
    requires IsUnit(img, u) && IsUnit(img, v)
  {
    u != v ==> Apart(NewAt(P, u), UnitLen(img, u), NewAt(P, v), UnitLen(img, v))
  }

  /** The new places are aligned and do not overlap. */
  ghost predicate PlacesOk(img: Image, P: Places) {
    && (forall u, v {:trigger UnitsApart(img, P, u, v)} :: IsUnit(img, u) && IsUnit(img, v) ==>
          UnitsApart(img, P, u, v))
    && (forall i :: 0 <= i < |img.gens| ==> P.gen(i) != 0 && P.start(i) % 2 == 0)
    && (forall j :: 0 <= j < |img.stats| ==> P.stat(j) % 2 == 0)
  }

  ghost predicate HasWords(mem: map<int, Word>, a: int, ws: seq<Word>) {
    forall x :: 0 <= x < |ws| ==> Get(mem, a + x) == ws[x]
  }

  /** The conversion tables for an image. */
  ghost predicate TablesFor(img: Image, P: Places, T: Tables) {
    && ShapesOk(img) && TablesOk(T) && |T.oldGen| == |img.gens| && |T.oldStat| == |img.stats|
    && (forall i :: 0 <= i < |img.gens| ==> T.oldGen[i] == img.gens[i].at && T.newGen[i] == P.gen(i))
    && (forall j :: 0 <= j < |img.stats| ==>
          T.oldStat[j] == img.stats[j].at && T.newStat[j] == P.stat(j) && T.sizes[j] == |img.stats[j].words|)
    && (forall i {:trigger BaseOf(img, P, T, i)} :: 0 <= i < |img.gens| ==> BaseOf(img, P, T, i))
    && (forall s {:trigger SpaceUsed(img, s)} :: s in T.oldBase ==> SpaceUsed(img, s))
  }

  ghost predicate BaseOf(img: Image, P: Places, T: Tables, i: int)
    requires ShapesOk(img) && TablesOk(T) && 0 <= i < |img.gens|
  {
    |img.gens[i].desc| == DESCRIPTOR &&
    var s := Num(img.gens[i].desc[SPACE]);
    s in T.oldBase && T.oldBase[s] == Num(img.gens[i].desc[START]) && T.newBase[s] == P.start(i)
  }

  ghost predicate SpaceUsed(img: Image, s: int) {
    exists i :: 0 <= i < |img.gens| && |img.gens[i].desc| == DESCRIPTOR && s == Num(img.gens[i].desc[SPACE])
  }

  // ---- Duties ----

  /** What loading does to word `x` of a unit; the last links of the first `k` generations have been fixed. */
  ghost function UnitDuty(img: Image, P: Places, L: Lists, u: Unit, k: int, x: int): Duty
    requires ShapesOk(img) && IsUnit(img, u) && |L.owner| == |img.stats|
  {
    match u
    case DescU(i) =>
      Shapes(img, i);
      if x == ENTRY + FORWARD || x == ENTRY + BACK then EntryLink
      else if x == STATICS || x == STATICS + 1 then StaticLink
      else if x == STATICS + GEN then Set(Imm(P.gen(i)))
      else if x == LAST + BACK && i < k && Num(img.gens[i].desc[NR_ENTRIES]) != 0 then EntryLink
      else Leave
    case RegionU(i) => DutyFrom(img.gens[i].words, 0, x)
    case StatU(j) =>
      if x == 0 || x == 1 then StaticLink
      else if x == GEN then Set(Imm(P.gen(L.owner[j])))
      else if x < OBJECT then Leave
      else DutyFrom(img.stats[j].words, 0, x - OBJECT)
  }

  ghost function UnitWord(img: Image, P: Places, L: Lists, T: Tables, u: Unit, k: int, x: int): Option<Word>
    requires ShapesOk(img) && TablesOk(T) && IsUnit(img, u) && |L.owner| == |img.stats| && 0 <= x < UnitLen(img, u)
  {
    Applied(T, UnitDuty(img, P, L, u, k, x), RawUnit(img, P, u, |img.gens|)[x])
  }

  ghost predicate WordFixed(img: Image, P: Places, L: Lists, T: Tables, mem: map<int, Word>, u: Unit, k: int, x: int)
    requires ShapesOk(img) && TablesOk(T) && IsUnit(img, u) && |L.owner| == |img.stats| && 0 <= x < UnitLen(img, u)
  {
    UnitWord(img, P, L, T, u, k, x) == Some(Get(mem, NewAt(P, u) + x))
  }

  /** All words of the unit have been relocated. */
  ghost predicate FixedUnit(img: Image, P: Places, L: Lists, T: Tables, mem: map<int, Word>, u: Unit, k: int)
    requires ShapesOk(img) && TablesOk(T) && IsUnit(img, u) && |L.owner| == |img.stats|
  {
    forall x {:trigger WordFixed(img, P, L, T, mem, u, k, x)} :: 0 <= x < UnitLen(img, u) ==>
      WordFixed(img, P, L, T, mem, u, k, x)
  }

  /** Some link in the unit cannot be fixed. */
  ghost predicate BadUnit(img: Image, P: Places, L: Lists, T: Tables, u: Unit)
    requires ShapesOk(img) && TablesOk(T) && |L.owner| == |img.stats|
  {
    IsUnit(img, u) && exists x :: 0 <= x < UnitLen(img, u) && UnitWord(img, P, L, T, u, 0, x).None?
  }

  /** The order in which units are fixed: those of generation `i` up to its descriptor, if `d`, and up to
      static object `j`. */
  ghost predicate Before(u: Unit, i: int, d: bool, j: int) {
    match u
    case DescU(k) => k < i || (k == i && d)
    case RegionU(k) => k < i
    case StatU(k) => k < j
  }

  ghost predicate UnitState(img: Image, P: Places, L: Lists, T: Tables, mem: map<int, Word>, u: Unit, i: int, d: bool,
                            j: int)
    requires ShapesOk(img) && TablesOk(T) && IsUnit(img, u) && |L.owner| == |img.stats|
  {
    if Before(u, i, d, j) then FixedUnit(img, P, L, T, mem, u, 0)
      else HasWords(mem, NewAt(P, u), RawUnit(img, P, u, |img.gens|))
  }

  ghost predicate FixedSoFar(img: Image, P: Places, L: Lists, T: Tables, mem: map<int, Word>, i: int, d: bool, j: int) {
    && TablesFor(img, P, T) && PlacesOk(img, P) && |L.owner| == |img.stats|
    && forall u {:trigger UnitState(img, P, L, T, mem, u, i, d, j)} :: IsUnit(img, u) ==>
          UnitState(img, P, L, T, mem, u, i, d, j)
  }

  /** Fixing one more unit leaves the others alone. */
  lemma OneFixed(img: Image, P: Places, L: Lists, T: Tables, mem: map<int, Word>, mem1: map<int, Word>, u: Unit, i: int,
                 d: bool, j: int, i1: int, d1: bool, j1: int)
    requires FixedSoFar(img, P, L, T, mem, i, d, j) && IsUnit(img, u)
    requires forall v :: IsUnit(img, v) ==> (Before(v, i1, d1, j1) <==> Before(v, i, d, j) || v == u)
    requires FixedUnit(img, P, L, T, mem1, u, 0) && SameOutside(mem, mem1, NewAt(P, u), UnitLen(img, u))
    ensures FixedSoFar(img, P, L, T, mem1, i1, d1, j1)
  {
    forall v {:trigger UnitState(img, P, L, T, mem1, v, i1, d1, j1)} | IsUnit(img, v)
      ensures UnitState(img, P, L, T, mem1, v, i1, d1, j1)
    {
      if v != u {
        assert UnitState(img, P, L, T, mem, v, i, d, j);
        OtherUnit(img, P, L, T, mem, mem1, u, v, 0);
      }
    }
  }

  /** A unit stays as it is while another one changes. */
  lemma OtherUnit(img: Image, P: Places, L: Lists, T: Tables, mem: map<int, Word>, mem1: map<int, Word>, u: Unit,
                  v: Unit, k: int)
    requires TablesFor(img, P, T) && PlacesOk(img, P) && |L.owner| == |img.stats| && IsUnit(img, u) && IsUnit(img, v)
    requires u != v
    requires SameOutside(mem, mem1, NewAt(P, u), UnitLen(img, u))
    ensures FixedUnit(img, P, L, T, mem, v, k) ==> FixedUnit(img, P, L, T, mem1, v, k)
    ensures forall n :: HasWords(mem, NewAt(P, v), RawUnit(img, P, v, n)) ==>
            HasWords(mem1, NewAt(P, v), RawUnit(img, P, v, n))
  {
    hide UnitWord, GensOk, StatsOk, BaseOf;
    assert UnitsApart(img, P, u, v);
    var a := NewAt(P, v);
    assert forall y :: a <= y < a + UnitLen(img, v) ==> Get(mem1, y) == Get(mem, y);
    if FixedUnit(img, P, L, T, mem, v, k) {
      forall x {:trigger WordFixed(img, P, L, T, mem1, v, k, x)} | 0 <= x < UnitLen(img, v)
        ensures WordFixed(img, P, L, T, mem1, v, k, x)
      {
        assert WordFixed(img, P, L, T, mem, v, k, x);
      }
    }
  }

  // ---- The image as it was ----

  /** The descriptors and static objects were at different places. */
  ghost predicate OldApart(img: Image) {
    && (forall i, j :: 0 <= i < j < |img.stats| ==> img.stats[i].at != img.stats[j].at)
    && (forall i, j :: 0 <= i < j < |img.gens| ==> img.gens[i].at != img.gens[j].at)
    && (forall i, j :: 0 <= i < |img.gens| && 0 <= j < |img.stats| ==> img.stats[j].at != img.gens[i].at + STATICS)
  }

  ghost predicate InList(L: Lists, i: int, j: int) {
    0 <= i && i + 1 < |L.first| && L.first[i] <= j < L.first[i + 1]
  }

  /** Node `j` of the list of generation `i`; before the first one and after the last one is the head. */
  ghost function OldNode(img: Image, L: Lists, i: int, j: int): int
    requires 0 <= i < |img.gens|
  {
    if InList(L, i, j) && 0 <= j < |img.stats| then img.stats[j].at else img.gens[i].at + STATICS
  }

  ghost function NewNode(img: Image, P: Places, L: Lists, i: int, j: int): int {
    if InList(L, i, j) && 0 <= j < |img.stats| then P.stat(j) else P.gen(i) + STATICS
  }

  ghost predicate HeadAt(img: Image, L: Lists, i: int)
    requires ShapesOk(img) && 0 <= i < |img.gens| && |L.first| == |img.gens| + 1
  {
    Shapes(img, i);
    var d := img.gens[i].desc;
    && 0 <= L.first[i] <= L.first[i + 1] <= |img.stats|
    && Num(d[STATICS]) == OldNode(img, L, i, L.first[i])
    && Num(d[STATICS + 1]) == OldNode(img, L, i, L.first[i + 1] - 1)
  }

  ghost predicate NodeAt(img: Image, L: Lists, j: int)
    requires ShapesOk(img) && 0 <= j < |img.stats| && |L.owner| == |img.stats|
  {
    Shapes(img, j);
    var i := L.owner[j];
    && 0 <= i < |img.gens| && InList(L, i, j)
    && Num(img.stats[j].desc[0]) == OldNode(img, L, i, j + 1) && Num(img.stats[j].desc[1]) == OldNode(img, L, i, j - 1)
  }

  /** The lists of static objects were circular, doubly linked lists. */
  ghost predicate ListsOk(img: Image, L: Lists) {
    && ShapesOk(img) && |L.first| == |img.gens| + 1 && L.first[0] == 0 && L.first[|img.gens|] == |img.stats|
    && |L.owner| == |img.stats|
    && (forall i {:trigger HeadAt(img, L, i)} :: 0 <= i < |img.gens| ==> HeadAt(img, L, i))
    && (forall j {:trigger NodeAt(img, L, j)} :: 0 <= j < |img.stats| ==> NodeAt(img, L, j))
    && (forall i, j :: InList(L, i, j) && 0 <= j < |img.stats| ==> L.owner[j] == i)
  }

  ghost predicate StatScans(img: Image, j: int)
    requires 0 <= j < |img.stats|
  {
    |img.stats[j].words| > 0 && Footprint(img.stats[j].words[0]) == |img.stats[j].words| &&
      ScanFits(img.stats[j].words, 0)
  }

  /** All areas and static objects can be scanned. */
  ghost predicate ScansOk(img: Image) {
    && (forall i :: 0 <= i < |img.gens| ==> ScanFits(img.gens[i].words, 0))
    && (forall j {:trigger StatScans(img, j)} :: 0 <= j < |img.stats| ==> StatScans(img, j))
  }

  lemma {:induction false} FoundAt(s: seq<int>, v: int, d: int, i: nat, k: nat)
    requires k < |s| && s[k] + d == v && i <= k && forall j :: 0 <= j < |s| && j != k ==> s[j] != s[k]
    ensures FindAt(s, v, d, i) == k
  {
    var r := FindAt(s, v, d, i);
    assert r <= k;
  }

  /** A link of a list of static objects leads to the same node in its new place. */
  lemma NodeMoved(img: Image, P: Places, L: Lists, T: Tables, i: int, j: int)
    requires TablesFor(img, P, T) && OldApart(img) && 0 <= i < |img.gens|
    ensures FixStaticLink(T, OldNode(img, L, i, j)) == Some(NewNode(img, P, L, i, j))
  {
    if InList(L, i, j) && 0 <= j < |img.stats| {
      FoundAt(T.oldStat, img.stats[j].at, 0, 0, j);
    } else {
      var r := FindAt(T.oldStat, img.gens[i].at + STATICS, 0, 0);
      FoundAt(T.oldGen, img.gens[i].at + STATICS, STATICS, 0, i);
    }
  }

  /** What is known of a unit that has not been fixed. */
  lemma RawWords(img: Image, P: Places, L: Lists, T: Tables, mem: map<int, Word>, i: int, d: bool, j: int, u: Unit)
    requires FixedSoFar(img, P, L, T, mem, i, d, j) && IsUnit(img, u) && !Before(u, i, d, j)
    ensures HasWords(mem, NewAt(P, u), RawUnit(img, P, u, |img.gens|))
  {
    assert UnitState(img, P, L, T, mem, u, i, d, j);
  }

  lemma FixedWords(img: Image, P: Places, L: Lists, T: Tables, mem: map<int, Word>, i: int, d: bool, j: int, u: Unit)
    requires FixedSoFar(img, P, L, T, mem, i, d, j) && IsUnit(img, u) && Before(u, i, d, j)
    ensures FixedUnit(img, P, L, T, mem, u, 0)
  {
    assert UnitState(img, P, L, T, mem, u, i, d, j);
  }

  // ---- Addresses ----

  ghost function OldAt(img: Image, u: Unit): int
    requires ShapesOk(img) && IsUnit(img, u)
  {
    match u
    case DescU(i) => img.gens[i].at
    case RegionU(i) => Shapes(img, i); Num(img.gens[i].desc[START])
    case StatU(j) => img.stats[j].at
  }

  ghost predicate InSpace(img: Image, i: int)
    requires ShapesOk(img) && 0 <= i < |img.gens|
  {
    Shapes(img, i);
    var d := img.gens[i].desc;
    forall a :: Num(d[START]) <= a < Num(d[START]) + |img.gens[i].words| ==> a / SPACE_WORDS == Num(d[SPACE])
  }

  ghost predicate OwnSpaces(img: Image, i: int, k: int)
    requires ShapesOk(img) && 0 <= i < |img.gens| && 0 <= k < |img.gens|
  {
    Shapes(img, i);
    Shapes(img, k);
    Num(img.gens[i].desc[SPACE]) != Num(img.gens[k].desc[SPACE])
  }

  /** Each generation had its own space, and nothing else was in the spaces of generations. The static
      objects did not overlap. */
  ghost predicate SpacesOk(img: Image) {
    && ShapesOk(img) && (forall i {:trigger InSpace(img, i)} :: 0 <= i < |img.gens| ==> InSpace(img, i))
    && (forall i, k {:trigger OwnSpaces(img, i, k)} :: 0 <= i < k < |img.gens| ==> OwnSpaces(img, i, k))
    && (forall i :: 0 <= i < |img.gens| ==> !SpaceUsed(img, (img.gens[i].at + ENTRY) / SPACE_WORDS))
    && (forall j, a | 0 <= j < |img.stats| ::
          img.stats[j].at + OBJECT <= a < img.stats[j].at + OBJECT + |img.stats[j].words| ==>
          !SpaceUsed(img, a / SPACE_WORDS))
    && (forall j, l {:trigger StatsApart(img, j, l)} :: 0 <= j < l < |img.stats| ==> StatsApart(img, j, l))
    && (forall i, j :: 0 <= i < |img.gens| && 0 <= j < |img.stats| ==>
          img.gens[i].at + ENTRY != img.stats[j].at + OBJECT)
    && (forall j :: 0 <= j < |img.stats| ==> |img.stats[j].words| > 0)
  }

  ghost predicate StatsApart(img: Image, j: int, l: int)
    requires 0 <= j < |img.stats| && 0 <= l < |img.stats|
  {
    Apart(img.stats[j].at + OBJECT, |img.stats[j].words|, img.stats[l].at + OBJECT, |img.stats[l].words|)
  }

  /** A pointer into the area of a generation keeps its offset. */
  lemma RegionMoved(img: Image, P: Places, T: Tables, i: int, x: int)
    requires TablesFor(img, P, T) && SpacesOk(img) && 0 <= i < |img.gens| && 0 <= x < |img.gens[i].words|
    ensures ScanTarget(T, OldAt(img, RegionU(i)) + x, P.start(i) + x)
  {
    Shapes(img, i);
    assert InSpace(img, i) && BaseOf(img, P, T, i);
    var a := Num(img.gens[i].desc[START]) + x;
    assert a / SPACE_WORDS == Num(img.gens[i].desc[SPACE]);
  }

  /** Values and links that lead to `a` will lead to `b`. */
  ghost predicate ScanTarget(T: Tables, a: int, b: int) {
    TablesOk(T) && ImageScan.Moved(T, a) == b && FixLink(T, a) == Some(b)
  }

  lemma NoBase(img: Image, P: Places, T: Tables, s: int)
    requires TablesFor(img, P, T) && !SpaceUsed(img, s)
    ensures s !in T.oldBase
  {
  }

  /** A pointer into a static object keeps its offset. */
  lemma StatMoved(img: Image, P: Places, T: Tables, j: int, x: int)
    requires TablesFor(img, P, T) && SpacesOk(img) && 0 <= j < |img.stats| && 0 <= x < |img.stats[j].words|
    ensures TablesOk(T) && ImageScan.Moved(T, img.stats[j].at + OBJECT + x) == P.stat(j) + OBJECT + x
  {
    var a := img.stats[j].at + OBJECT + x;
    NoBase(img, P, T, a / SPACE_WORDS);
    OneStat(img, j, FindStat(T, a, 0), a);
  }

  lemma OneStat(img: Image, j: int, l: int, a: int)
    requires SpacesOk(img) && 0 <= j < |img.stats|
    requires img.stats[j].at + OBJECT <= a < img.stats[j].at + OBJECT + |img.stats[j].words|
    ensures 0 <= l < |img.stats| && l != j ==>
            !(img.stats[l].at + OBJECT <= a < img.stats[l].at + OBJECT + |img.stats[l].words|)
  {
    if 0 <= l < j {
      assert StatsApart(img, l, j);
    } else if j < l < |img.stats| {
      assert StatsApart(img, j, l);
    }
  }

  /** A pointer to neither is left alone. */
  lemma OutsideKept(img: Image, P: Places, T: Tables, a: int)
    requires TablesFor(img, P, T) && !SpaceUsed(img, a / SPACE_WORDS)
    requires forall j :: 0 <= j < |img.stats| ==>
             !(img.stats[j].at + OBJECT <= a < img.stats[j].at + OBJECT + |img.stats[j].words|)
    ensures TablesOk(T) && ImageScan.Moved(T, a) == a
  {
    NoBase(img, P, T, a / SPACE_WORDS);
  }

  /** A link to a static array leads to it. */
  lemma StatLinkMoved(img: Image, P: Places, T: Tables, j: int)
    requires TablesFor(img, P, T) && SpacesOk(img) && OldApart(img) && 0 <= j < |img.stats|
    ensures TablesOk(T) && FixLink(T, img.stats[j].at + OBJECT) == Some(P.stat(j) + OBJECT)
  {
    NoBase(img, P, T, (img.stats[j].at + OBJECT) / SPACE_WORDS);
    FoundAt(T.oldStat, img.stats[j].at + OBJECT, OBJECT, 0, j);
  }

  /** A link to the head of an entry list leads to it. */
  lemma EntryMoved(img: Image, P: Places, T: Tables, i: int)
    requires TablesFor(img, P, T) && SpacesOk(img) && OldApart(img) && 0 <= i < |img.gens|
    ensures TablesOk(T) && FixLink(T, img.gens[i].at + ENTRY) == Some(P.gen(i) + ENTRY)
  {
    NoBase(img, P, T, (img.gens[i].at + ENTRY) / SPACE_WORDS);
    FoundAt(T.oldGen, img.gens[i].at + ENTRY, ENTRY, 0, i);
  }

  // ---- Entry lists ----

  /** Unit `v` holds the header, at offset `x`, of an array on an entry list, or of an entry list. */
  ghost predicate HeaderIn(img: Image, P: Places, L: Lists, v: Unit, x: int)
    requires ShapesOk(img) && |L.owner| == |img.stats|
  {
    && IsUnit(img, v) && 0 <= x && x + BACK < UnitLen(img, v)
    && UnitDuty(img, P, L, v, 0, x + FORWARD) == EntryLink && UnitDuty(img, P, L, v, 0, x + BACK) == EntryLink
    && (v.DescU? ==> x == ENTRY) && (v.StatU? ==> x == OBJECT)
  }

  /** A header moves with the unit that it is in. */
  lemma HeaderMoved(img: Image, P: Places, L: Lists, T: Tables, v: Unit, x: int)
    requires TablesFor(img, P, T) && SpacesOk(img) && OldApart(img) && |L.owner| == |img.stats|
    requires HeaderIn(img, P, L, v, x)
    ensures TablesOk(T) && FixLink(T, OldAt(img, v) + x) == Some(NewAt(P, v) + x)
  {
    hide UnitDuty, FixLink, TablesFor, SpacesOk, OldApart;
    match v
    case DescU(i) => EntryMoved(img, P, T, i);
    case RegionU(i) => RegionMoved(img, P, T, i, x);
    case StatU(j) => StatLinkMoved(img, P, T, j);
  }

  /** `b` is the header at `x` in `v`, and it links forward to `target`. */
  ghost predicate LinksTo(img: Image, P: Places, L: Lists, v: Unit, x: int, d: int, target: int)
    requires ShapesOk(img) && |L.owner| == |img.stats|
  {
    HeaderIn(img, P, L, v, x) && (d == FORWARD || d == BACK) && Num(RawUnit(img, P, v, |img.gens|)[x + d]) == target
  }

  ghost predicate EndsAt(img: Image, P: Places, L: Lists, i: int, v: Unit, x: int)
    requires ShapesOk(img) && |L.owner| == |img.stats| && 0 <= i < |img.gens|
  {
    Shapes(img, i);
    LinksTo(img, P, L, v, x, FORWARD, img.gens[i].at + ENTRY) &&
      OldAt(img, v) + x == Num(img.gens[i].desc[ENTRY + BACK])
  }

  /** The entry list of generation `i` ends where the descriptor says, as is arranged before saving. */
  ghost predicate LastAt(img: Image, P: Places, L: Lists, i: int)
    requires ShapesOk(img) && |L.owner| == |img.stats| && 0 <= i < |img.gens|
  {
    Shapes(img, i);
    var d := img.gens[i].desc;
    Num(d[NR_ENTRIES]) != 0 ==> d[LAST + BACK] == d[ENTRY + BACK] && exists v, x :: EndsAt(img, P, L, i, v, x)
  }

  ghost predicate LastOk(img: Image, P: Places, L: Lists) {
    ShapesOk(img) && |L.owner| == |img.stats| && forall i {:trigger LastAt(img, P, L, i)} :: 0 <= i < |img.gens| ==>
      LastAt(img, P, L, i)
  }

  ghost predicate AllFixed(img: Image, P: Places, L: Lists, T: Tables, mem: map<int, Word>, k: int) {
    && TablesFor(img, P, T) && |L.owner| == |img.stats|
    && forall u {:trigger FixedUnit(img, P, L, T, mem, u, k)} :: IsUnit(img, u) ==> FixedUnit(img, P, L, T, mem, u, k)
  }

  lemma TablesIn(img: Image, P: Places, T: Tables)
    requires TablesFor(img, P, T)
    ensures ShapesOk(img) && TablesOk(T)
  {
  }

  lemma DutyLater(img: Image, P: Places, L: Lists, v: Unit, k: int, x: int)
    requires ShapesOk(img) && IsUnit(img, v) && |L.owner| == |img.stats|
    ensures UnitDuty(img, P, L, v, 0, x) == EntryLink ==> UnitDuty(img, P, L, v, k, x) == EntryLink
  {
  }

  /** After loading, a link of an entry list leads to where the header it led to is now. */
  lemma LinkPreserved(img: Image, P: Places, L: Lists, T: Tables, mem: map<int, Word>, k: int, v: Unit, x: int, d: int,
                      w: Unit, y: int)
    requires AllFixed(img, P, L, T, mem, k) && SpacesOk(img) && OldApart(img)
    requires HeaderIn(img, P, L, w, y) && LinksTo(img, P, L, v, x, d, OldAt(img, w) + y)
    ensures Get(mem, NewAt(P, v) + x + d) == Imm(NewAt(P, w) + y)
  {
    hide FixLink, SpacesOk, OldApart, UnitDuty, RawUnit, TablesFor, UnitLen;
    TablesIn(img, P, T);
    HeaderMoved(img, P, L, T, w, y);
    DutyLater(img, P, L, v, k, x + d);
    assert FixedUnit(img, P, L, T, mem, v, k);
    assert WordFixed(img, P, L, T, mem, v, k, x + d);
  }

  // ---- Which links can be fixed ----

  /** `n` lies in the space of a generation, or is the head of an entry list or the place of a static object. */
  ghost predicate LinkGoes(img: Image, n: int) {
    || SpaceUsed(img, n / SPACE_WORDS)
    || (exists i :: 0 <= i < |img.gens| && n == img.gens[i].at + ENTRY)
    || (exists j :: 0 <= j < |img.stats| && n == img.stats[j].at + OBJECT)
  }

  ghost predicate IsLink(img: Image, P: Places, L: Lists, u: Unit, z: int)
    requires ShapesOk(img) && |L.owner| == |img.stats|
  {
    IsUnit(img, u) && 0 <= z < UnitLen(img, u) && UnitDuty(img, P, L, u, 0, z) == EntryLink
  }

  /** Every link of an entry list leads to such a place. */
  ghost predicate LinksGo(img: Image, P: Places, L: Lists)
    requires ShapesOk(img) && |L.owner| == |img.stats|
  {
    forall u, z {:trigger IsLink(img, P, L, u, z)} :: IsLink(img, P, L, u, z) ==>
      LinkGoes(img, Num(RawUnit(img, P, u, |img.gens|)[z]))
  }

  lemma BasesUsed(img: Image, P: Places, T: Tables, s: int)
    requires TablesFor(img, P, T)
    ensures s in T.oldBase <==> SpaceUsed(img, s)
  {
    if SpaceUsed(img, s) {
      var i :| 0 <= i < |img.gens| && |img.gens[i].desc| == DESCRIPTOR && s == Num(img.gens[i].desc[SPACE]);
      assert BaseOf(img, P, T, i);
    }
  }

  lemma GoesIffFixed(img: Image, P: Places, T: Tables, n: int)
    requires TablesFor(img, P, T)
    ensures TablesOk(T) && (FixLink(T, n).Some? <==> LinkGoes(img, n))
  {
    BasesUsed(img, P, T, n / SPACE_WORDS);
    var i, j := FindAt(T.oldGen, n, ENTRY, 0), FindAt(T.oldStat, n, OBJECT, 0);
    assert i < |T.oldGen| ==> n == img.gens[i].at + ENTRY;
    assert j < |T.oldStat| ==> n == img.stats[j].at + OBJECT;
  }

  /** The links of the lists of static objects can always be fixed. */
  lemma StaticLinksGo(img: Image, P: Places, L: Lists, T: Tables, u: Unit, z: int)
    requires TablesFor(img, P, T) && OldApart(img) && ListsOk(img, L) && IsUnit(img, u) && 0 <= z < UnitLen(img, u)
    ensures TablesOk(T) && |L.owner| == |img.stats| && ShapesOk(img)
    ensures UnitDuty(img, P, L, u, 0, z) == StaticLink ==>
            FixStaticLink(T, Num(RawUnit(img, P, u, |img.gens|)[z])).Some?
  {
    hide OldApart, FixStaticLink;
    match u
    case DescU(i) =>
      assert HeadAt(img, L, i);
      NodeMoved(img, P, L, T, i, L.first[i]);
      NodeMoved(img, P, L, T, i, L.first[i + 1] - 1);
    case RegionU(i) => NoStaticLink(img.gens[i].words, 0, z);
    case StatU(j) =>
      assert NodeAt(img, L, j);
      NodeMoved(img, P, L, T, L.owner[j], j + 1);
      NodeMoved(img, P, L, T, L.owner[j], j - 1);
      if OBJECT <= z {
        NoStaticLink(img.stats[j].words, 0, z - OBJECT);
      }
  }

  lemma {:induction false} NoStaticLink(ws: seq<Word>, i: int, x: int)
    requires 0 <= i
    ensures !DutyFrom(ws, i, x).StaticLink?
    decreases |ws| - i
  {
    if i < |ws| && i + StepSize(ws[i], i) <= x {
      NoStaticLink(ws, i + StepSize(ws[i], i), x);
    }
  }

  /** Everything can be fixed if and only if all links of entry lists lead to arrays or heads, which can be
      told from the image. */
  lemma BadIffLost(img: Image, P: Places, L: Lists, T: Tables)
    requires TablesFor(img, P, T) && OldApart(img) && ListsOk(img, L)
    ensures TablesOk(T) && |L.owner| == |img.stats| && ShapesOk(img)
    ensures (forall u :: !BadUnit(img, P, L, T, u)) <==> LinksGo(img, P, L)
  {
    TablesIn(img, P, T);
    hide TablesFor, OldApart, ListsOk, UnitDuty, RawUnit, FixLink, FixStaticLink, LinkGoes, TablesOk, ShapesOk, UnitLen;
    OwnersKnown(img, L);
    if forall u :: !BadUnit(img, P, L, T, u) {
      forall u, z {:trigger IsLink(img, P, L, u, z)} | IsLink(img, P, L, u, z)
        ensures LinkGoes(img, Num(RawUnit(img, P, u, |img.gens|)[z]))
      {
        assert !BadUnit(img, P, L, T, u);
        assert UnitWord(img, P, L, T, u, 0, z).Some?;
        GoesIffFixed(img, P, T, Num(RawUnit(img, P, u, |img.gens|)[z]));
      }
    }
    if LinksGo(img, P, L) {
      forall u, z | IsUnit(img, u) && 0 <= z < UnitLen(img, u) ensures UnitWord(img, P, L, T, u, 0, z).Some? {
        StaticLinksGo(img, P, L, T, u, z);
        assert IsLink(img, P, L, u, z) <==> UnitDuty(img, P, L, u, 0, z) == EntryLink;
        GoesIffFixed(img, P, T, Num(RawUnit(img, P, u, |img.gens|)[z]));
      }
    }
  }

  lemma OwnersKnown(img: Image, L: Lists)
    requires ListsOk(img, L)
    ensures |L.owner| == |img.stats|
  {
  }

  // ---- Entry lists as rings ----

  /** A place where an entry list goes through: offset `at` in a unit. */
  datatype Header = Header(unit: Unit, at: int)

  ghost function OldPlace(img: Image, h: Header): int
    requires ShapesOk(img) && IsUnit(img, h.unit)
  {
    OldAt(img, h.unit) + h.at
  }

  ghost function NewPlace(P: Places, h: Header): int {
    NewAt(P, h.unit) + h.at
  }

  /** The header after the `k`th of a ring. */
  function After(hs: seq<Header>, k: int): Header
    requires 0 <= k < |hs|
  {
    if k + 1 < |hs| then hs[k + 1] else hs[0]
  }

  function Ahead(hs: seq<Header>, k: int): Header
    requires 0 <= k < |hs|
  {
    if k > 0 then hs[k - 1] else hs[|hs| - 1]
  }

  ghost predicate OnRing(img: Image, P: Places, L: Lists, hs: seq<Header>, k: int)
    requires ShapesOk(img) && |L.owner| == |img.stats| && 0 <= k < |hs|
  {
    var h, n, p := hs[k], After(hs, k), Ahead(hs, k);
    && HeaderIn(img, P, L, h.unit, h.at) && HeaderIn(img, P, L, n.unit, n.at) && HeaderIn(img, P, L, p.unit, p.at)
    && LinksTo(img, P, L, h.unit, h.at, FORWARD, OldPlace(img, n))
    && LinksTo(img, P, L, h.unit, h.at, BACK, OldPlace(img, p))
  }

  /** The headers `hs` were linked to a ring, beginning with the head of the list of generation `i`. */
  ghost predicate OldRing(img: Image, P: Places, L: Lists, i: int, hs: seq<Header>)
    requires ShapesOk(img) && |L.owner| == |img.stats|
  {
    |hs| > 0 && hs[0] == Header(DescU(i), ENTRY) && forall k {:trigger OnRing(img, P, L, hs, k)} :: 0 <= k < |hs| ==>
      OnRing(img, P, L, hs, k)
  }

  ghost predicate NewLinks(mem: map<int, Word>, P: Places, hs: seq<Header>, k: int)
    requires 0 <= k < |hs|
  {
    && Get(mem, NewPlace(P, hs[k]) + FORWARD) == Imm(NewPlace(P, After(hs, k)))
    && Get(mem, NewPlace(P, hs[k]) + BACK) == Imm(NewPlace(P, Ahead(hs, k)))
  }

  /** The headers are linked to a ring at their new places. */
  ghost predicate NewRing(mem: map<int, Word>, P: Places, hs: seq<Header>) {
    forall k {:trigger NewLinks(mem, P, hs, k)} :: 0 <= k < |hs| ==> NewLinks(mem, P, hs, k)
  }

  ghost predicate LinkOnRing(rings: seq<seq<Header>>, u: Unit, z: int) {
    exists i, k :: 0 <= i < |rings| && 0 <= k < |rings[i]| && rings[i][k].unit == u &&
      (z == rings[i][k].at + FORWARD || z == rings[i][k].at + BACK)
  }

  /** The entry lists of the generations were rings, and every array that was linked was on one of them. */
  ghost predicate EntriesOk(img: Image, P: Places, L: Lists, rings: seq<seq<Header>>) {
    && ShapesOk(img) && |L.owner| == |img.stats| && |rings| == |img.gens|
    && (forall i {:trigger rings[i]} :: 0 <= i < |rings| ==> OldRing(img, P, L, i, rings[i]))
    && (forall u, z {:trigger IsLink(img, P, L, u, z)} :: IsLink(img, P, L, u, z) ==> LinkOnRing(rings, u, z))
  }

  lemma PlaceGoes(img: Image, P: Places, L: Lists, h: Header)
    requires SpacesOk(img) && ShapesOk(img) && |L.owner| == |img.stats| && HeaderIn(img, P, L, h.unit, h.at)
    ensures LinkGoes(img, OldPlace(img, h))
  {
    hide UnitDuty;
    match h.unit
    case DescU(i) =>
    case RegionU(i) =>
      Shapes(img, i);
      assert InSpace(img, i);
      var a := Num(img.gens[i].desc[START]) + h.at;
      assert a / SPACE_WORDS == Num(img.gens[i].desc[SPACE]);
    case StatU(j) =>
  }

  /** If the entry lists were rings, all their links can be fixed. */
  lemma RingsGo(img: Image, P: Places, L: Lists, rings: seq<seq<Header>>)
    requires EntriesOk(img, P, L, rings) && SpacesOk(img)
    ensures LinksGo(img, P, L)
  {
    hide UnitDuty, RawUnit, LinkGoes, SpacesOk, HeaderIn, ShapesOk, UnitLen;
    forall u, z {:trigger IsLink(img, P, L, u, z)} | IsLink(img, P, L, u, z)
      ensures LinkGoes(img, Num(RawUnit(img, P, u, |img.gens|)[z]))
    {
      var i, k :| 0 <= i < |rings| && 0 <= k < |rings[i]| && rings[i][k].unit == u &&
        (z == rings[i][k].at + FORWARD || z == rings[i][k].at + BACK);
      assert OldRing(img, P, L, i, rings[i]) && OnRing(img, P, L, rings[i], k);
      PlaceGoes(img, P, L, After(rings[i], k));
      PlaceGoes(img, P, L, Ahead(rings[i], k));
    }
  }

  /** After loading, an entry list is the same ring at the new places. */
  lemma RingKept(img: Image, P: Places, L: Lists, T: Tables, mem: map<int, Word>, n: int, i: int, hs: seq<Header>)
    requires AllFixed(img, P, L, T, mem, n) && SpacesOk(img) && OldApart(img) && ShapesOk(img)
    requires |L.owner| == |img.stats| && OldRing(img, P, L, i, hs)
    ensures NewRing(mem, P, hs)
  {
    hide UnitDuty, RawUnit, SpacesOk, OldApart, HeaderIn, ShapesOk, UnitLen, AllFixed, LinksTo;
    forall k {:trigger NewLinks(mem, P, hs, k)} | 0 <= k < |hs| ensures NewLinks(mem, P, hs, k) {
      assert OnRing(img, P, L, hs, k);
      var h, a, b := hs[k], After(hs, k), Ahead(hs, k);
      LinkPreserved(img, P, L, T, mem, n, h.unit, h.at, FORWARD, a.unit, a.at);
      LinkPreserved(img, P, L, T, mem, n, h.unit, h.at, BACK, b.unit, b.at);
    }
  }

  // ---- Lists of static objects ----

  ghost predicate StatLinked(img: Image, P: Places, L: Lists, mem: map<int, Word>, j: int)
    requires 0 <= j < |img.stats| && |L.owner| == |img.stats|
  {
    var i := L.owner[j];
    && Get(mem, P.stat(j)) == Imm(NewNode(img, P, L, i, j + 1))
    && Get(mem, P.stat(j) + 1) == Imm(NewNode(img, P, L, i, j - 1))
    && Get(mem, P.stat(j) + GEN) == Imm(P.gen(i)) && Get(mem, P.stat(j) + MARK) == Imm(0)
  }

  ghost predicate HeadLinked(img: Image, P: Places, L: Lists, mem: map<int, Word>, i: int)
    requires 0 <= i < |img.gens| && |L.first| == |img.gens| + 1
  {
    && Get(mem, P.gen(i) + STATICS) == Imm(NewNode(img, P, L, i, L.first[i]))
    && Get(mem, P.gen(i) + STATICS + 1) == Imm(NewNode(img, P, L, i, L.first[i + 1] - 1))
    && Get(mem, P.gen(i) + STATICS + GEN) == Imm(P.gen(i))
  }

  /** The lists of static objects are the same circular lists at the new places. */
  ghost predicate StaticsLinked(img: Image, P: Places, L: Lists, mem: map<int, Word>) {
    && |L.first| == |img.gens| + 1 && |L.owner| == |img.stats|
    && (forall i {:trigger HeadLinked(img, P, L, mem, i)} :: 0 <= i < |img.gens| ==> HeadLinked(img, P, L, mem, i))
    && (forall j {:trigger StatLinked(img, P, L, mem, j)} :: 0 <= j < |img.stats| ==> StatLinked(img, P, L, mem, j))
  }

  lemma StatKept(img: Image, P: Places, L: Lists, T: Tables, mem: map<int, Word>, n: int, j: int)
    requires AllFixed(img, P, L, T, mem, n) && OldApart(img) && ListsOk(img, L) && 0 <= j < |img.stats|
    ensures |L.owner| == |img.stats| && StatLinked(img, P, L, mem, j)
  {
    hide OldApart, FixStaticLink;
    Shapes(img, j);
    assert NodeAt(img, L, j);
    NodeMoved(img, P, L, T, L.owner[j], j + 1);
    NodeMoved(img, P, L, T, L.owner[j], j - 1);
    var u := StatU(j);
    assert FixedUnit(img, P, L, T, mem, u, n);
    assert WordFixed(img, P, L, T, mem, u, n, 0) && WordFixed(img, P, L, T, mem, u, n, 1) &&
           WordFixed(img, P, L, T, mem, u, n, GEN) && WordFixed(img, P, L, T, mem, u, n, MARK);
  }

  lemma HeadKept(img: Image, P: Places, L: Lists, T: Tables, mem: map<int, Word>, n: int, i: int)
    requires AllFixed(img, P, L, T, mem, n) && OldApart(img) && ListsOk(img, L) && 0 <= i < |img.gens|
    ensures |L.first| == |img.gens| + 1 && HeadLinked(img, P, L, mem, i)
  {
    hide OldApart, FixStaticLink;
    Shapes(img, i);
    assert HeadAt(img, L, i);
    NodeMoved(img, P, L, T, i, L.first[i]);
    NodeMoved(img, P, L, T, i, L.first[i + 1] - 1);
    var u := DescU(i);
    assert FixedUnit(img, P, L, T, mem, u, n);
    assert WordFixed(img, P, L, T, mem, u, n, STATICS) && WordFixed(img, P, L, T, mem, u, n, STATICS + 1) &&
           WordFixed(img, P, L, T, mem, u, n, STATICS + GEN);
  }

  lemma StaticsKept(img: Image, P: Places, L: Lists, T: Tables, mem: map<int, Word>, n: int)
    requires AllFixed(img, P, L, T, mem, n) && OldApart(img) && ListsOk(img, L)
    ensures StaticsLinked(img, P, L, mem)
  {
    hide AllFixed, OldApart;
    forall i {:trigger HeadLinked(img, P, L, mem, i)} | 0 <= i < |img.gens| ensures HeadLinked(img, P, L, mem, i) {
      HeadKept(img, P, L, T, mem, n, i);
    }
    forall j {:trigger StatLinked(img, P, L, mem, j)} | 0 <= j < |img.stats| ensures StatLinked(img, P, L, mem, j) {
      StatKept(img, P, L, T, mem, n, j);
    }
  }

  // ---- Descriptors ----

  /** The descriptor of generation `i` at its new place: it has the number, the sizes and the counts it had, is linked
      to the generations next to it, and describes an area of the old extent at the new place, all of whose words are
      live. */
  ghost predicate Described(img: Image, P: Places, mem: map<int, Word>, i: int)
    requires ShapesOk(img) && 0 <= i < |img.gens|
  {
    Shapes(img, i);
    var d, g, top := img.gens[i].desc, P.gen(i), P.start(i) + |img.gens[i].words|;
    && Get(mem, g + NUMBER) == d[NUMBER] && Get(mem, g + COLLECT) == d[COLLECT] && Get(mem, g + VALUES) == d[VALUES]
    && Get(mem, g + NR_ENTRIES) == d[NR_ENTRIES] && Get(mem, g + NR_STATIC) == d[NR_STATIC]
    && Get(mem, g + PARENT) == Imm(if i == |img.gens| - 1 then 0 else P.gen(i + 1))
    && Get(mem, g + CHILD) == Imm(if i == 0 then 0 else P.gen(i - 1))
    && Get(mem, g + SPACE) == Imm(P.start(i) / SPACE_WORDS)
    && Get(mem, g + START) == Imm(P.start(i)) && Get(mem, g + TOP) == Imm(top) && Get(mem, g + IMAGE_TOP) == Imm(top)
    && Get(mem, g + END) == Imm(P.start(i) + (Num(d[END]) - Num(d[START])))
    && (Num(d[NR_ENTRIES]) != 0 ==> Get(mem, g + LAST + BACK) == Get(mem, g + ENTRY + BACK))
  }

  lemma DescriptorKept(img: Image, P: Places, L: Lists, T: Tables, mem: map<int, Word>, i: int)
    requires AllFixed(img, P, L, T, mem, |img.gens|) && LastOk(img, P, L) && 0 <= i < |img.gens|
    ensures ShapesOk(img) && Described(img, P, mem, i)
  {
    hide AllFixed, LastOk, ShapesOk, HasWords;
    LastLink(img, P, L, T, mem, i);
    PlainWords(img, P, L, T, mem, i);
    DescriptorWords(img, P, mem, i);
  }

  /** All descriptors are in order at their new places. */
  ghost predicate AllDescribed(img: Image, P: Places, mem: map<int, Word>) {
    ShapesOk(img) && forall i {:trigger Described(img, P, mem, i)} :: 0 <= i < |img.gens| ==> Described(img, P, mem, i)
  }

  lemma DescriptorsKept(img: Image, P: Places, L: Lists, T: Tables, mem: map<int, Word>)
    requires AllFixed(img, P, L, T, mem, |img.gens|) && LastOk(img, P, L)
    ensures AllDescribed(img, P, mem)
  {
    hide AllFixed, Described;
    forall i {:trigger Described(img, P, mem, i)} | 0 <= i < |img.gens|
      ensures ShapesOk(img) && Described(img, P, mem, i)
    {
      DescriptorKept(img, P, L, T, mem, i);
    }
  }

  /** The words of a descriptor that are not relocated. */
  lemma PlainWords(img: Image, P: Places, L: Lists, T: Tables, mem: map<int, Word>, i: int)
    requires AllFixed(img, P, L, T, mem, |img.gens|) && 0 <= i < |img.gens|
    ensures ShapesOk(img) && |img.gens[i].desc| == DESCRIPTOR
    ensures HasWords(mem, P.gen(i), NewDesc(img.gens[i], P, i, |img.gens|)[..ENTRY])
    ensures Get(mem, P.gen(i) + NR_ENTRIES) == img.gens[i].desc[NR_ENTRIES]
    ensures Get(mem, P.gen(i) + NR_STATIC) == img.gens[i].desc[NR_STATIC]
  {
    Shapes(img, i);
    var u, n, r := DescU(i), |img.gens|, NewDesc(img.gens[i], P, i, |img.gens|);
    assert FixedUnit(img, P, L, T, mem, u, n);
    DescTail(img.gens[i], P, i, n);
    hide AllFixed, NewDesc, FixLink, FixStaticLink, TablesOk, ShapesOk;
    forall x | 0 <= x < ENTRY || x == NR_ENTRIES || x == NR_STATIC ensures Get(mem, P.gen(i) + x) == r[x] {
      assert WordFixed(img, P, L, T, mem, u, n, x);
    }
  }

  lemma DescTail(g: GenImage, P: Places, i: int, n: int)
    requires |g.desc| == DESCRIPTOR
    ensures forall x :: ENTRY <= x < DESCRIPTOR ==> NewDesc(g, P, i, n)[x] == g.desc[x]
  {
  }

  lemma DescriptorWords(img: Image, P: Places, mem: map<int, Word>, i: int)
    requires ShapesOk(img) && 0 <= i < |img.gens| && |img.gens[i].desc| == DESCRIPTOR
    requires HasWords(mem, P.gen(i), NewDesc(img.gens[i], P, i, |img.gens|)[..ENTRY])
    requires Get(mem, P.gen(i) + NR_ENTRIES) == img.gens[i].desc[NR_ENTRIES]
    requires Get(mem, P.gen(i) + NR_STATIC) == img.gens[i].desc[NR_STATIC]
    requires Num(img.gens[i].desc[NR_ENTRIES]) != 0 ==>
               Get(mem, P.gen(i) + LAST + BACK) == Get(mem, P.gen(i) + ENTRY + BACK)
    ensures Described(img, P, mem, i)
  {
    hide ShapesOk;
    var g, r := P.gen(i), NewDesc(img.gens[i], P, i, |img.gens|)[..ENTRY];
    assert Get(mem, g + NUMBER) == r[NUMBER] && Get(mem, g + PARENT) == r[PARENT] && Get(mem, g + CHILD) == r[CHILD];
    assert Get(mem, g + SPACE) == r[SPACE] && Get(mem, g + COLLECT) == r[COLLECT] && Get(mem, g + VALUES) == r[VALUES];
    assert Get(mem, g + START) == r[START] && Get(mem, g + END) == r[END] && Get(mem, g + TOP) == r[TOP];
    assert Get(mem, g + IMAGE_TOP) == r[IMAGE_TOP];
  }

  /** The last link is the link back from the head. */
  lemma LastLink(img: Image, P: Places, L: Lists, T: Tables, mem: map<int, Word>, i: int)
    requires AllFixed(img, P, L, T, mem, |img.gens|) && LastOk(img, P, L) && 0 <= i < |img.gens|
    ensures ShapesOk(img) && |img.gens[i].desc| == DESCRIPTOR
    ensures Num(img.gens[i].desc[NR_ENTRIES]) != 0 ==>
              Get(mem, P.gen(i) + LAST + BACK) == Get(mem, P.gen(i) + ENTRY + BACK)
  {
    Shapes(img, i);
    var u, n, g := DescU(i), |img.gens|, P.gen(i);
    DescTail(img.gens[i], P, i, n);
    if Num(img.gens[i].desc[NR_ENTRIES]) != 0 {
      assert FixedUnit(img, P, L, T, mem, u, n) && LastAt(img, P, L, i);
      hide AllFixed, LastOk, NewDesc, FixLink, TablesOk, ShapesOk;
      assert WordFixed(img, P, L, T, mem, u, n, LAST + BACK) && WordFixed(img, P, L, T, mem, u, n, ENTRY + BACK);
      assert g + (LAST + BACK) == g + LAST + BACK && g + (ENTRY + BACK) == g + ENTRY + BACK;
    }
  }

  // ---- Values ----

  /** `a` lies in the space of no generation and in no static object. */
  ghost predicate Outside(img: Image, a: int) {
    !SpaceUsed(img, a / SPACE_WORDS) && forall j :: 0 <= j < |img.stats| ==>
      !(img.stats[j].at + OBJECT <= a < img.stats[j].at + OBJECT + |img.stats[j].words|)
  }

  ghost predicate RegionPointer(img: Image, P: Places, T: Tables, i: int, x: int)
    requires ShapesOk(img) && TablesOk(T) && 0 <= i < |img.gens|
  {
    0 <= x < |img.gens[i].words| ==> ImageScan.Moved(T, OldAt(img, RegionU(i)) + x) == P.start(i) + x
  }

  ghost predicate StatPointer(img: Image, P: Places, T: Tables, j: int, x: int)
    requires TablesOk(T) && 0 <= j < |img.stats|
  {
    0 <= x < |img.stats[j].words| ==> ImageScan.Moved(T, img.stats[j].at + OBJECT + x) == P.stat(j) + OBJECT + x
  }

  /** Pointers into the heap keep their offsets in the area or static object they lead to; others do not change. */
  ghost predicate PointersKept(img: Image, P: Places, T: Tables) {
    && ShapesOk(img) && TablesOk(T)
    && (forall i, x {:trigger RegionPointer(img, P, T, i, x)} :: 0 <= i < |img.gens| ==> RegionPointer(img, P, T, i, x))
    && (forall j, x {:trigger StatPointer(img, P, T, j, x)} :: 0 <= j < |img.stats| ==> StatPointer(img, P, T, j, x))
    && (forall a {:trigger Outside(img, a)} :: Outside(img, a) ==> ImageScan.Moved(T, a) == a)
  }

  lemma AllPointersKept(img: Image, P: Places, T: Tables)
    requires TablesFor(img, P, T) && SpacesOk(img)
    ensures PointersKept(img, P, T)
  {
    TablesIn(img, P, T);
    hide TablesFor, SpacesOk, TablesOk, ShapesOk;
    forall i, x {:trigger RegionPointer(img, P, T, i, x)} | 0 <= i < |img.gens| ensures RegionPointer(img, P, T, i, x) {
      if 0 <= x < |img.gens[i].words| {
        RegionMoved(img, P, T, i, x);
      }
    }
    forall j, x {:trigger StatPointer(img, P, T, j, x)} | 0 <= j < |img.stats| ensures StatPointer(img, P, T, j, x) {
      if 0 <= x < |img.stats[j].words| {
        StatMoved(img, P, T, j, x);
      }
    }
    forall a {:trigger Outside(img, a)} | Outside(img, a) ensures ImageScan.Moved(T, a) == a {
      OutsideKept(img, P, T, a);
    }
  }
}
