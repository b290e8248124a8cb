/** Saving an image and loading it again. */
module ImageTrip {
  import opened Heap
  import opened Seqs
  import opened ImageFormat
  import opened ImageSave
  import opened ImageScan
  import opened ImageUnits
  import opened ImageLoad

  /** A loaded area of whole objects: just the values and the links of its objects have been relocated. */
  lemma AreaRelocated(img: Image, P: Places, L: Lists, T: Tables, mem: map<int, Word>, i: int, x: int)
    requires AllFixed(img, P, L, T, mem, |img.gens|) && 0 <= i < |img.gens| && ObjectsFrom(img.gens[i].words, 0)
    requires 0 <= x < |img.gens[i].words|
    ensures var ws := img.gens[i].words; var o := OwnerFrom(ws, 0, x);
            TablesOk(T) && Relocated(T, ws, o, x - o) == Some(Get(mem, P.start(i) + x))
  {
    hide DutyFrom, Applied, Relocated, ObjectsFrom, OwnerFrom, TablesFor, TablesOk;
    AllKnown(img, P, L, T, mem, |img.gens|);
    assert FixedUnit(img, P, L, T, mem, RegionU(i), |img.gens|);
    assert WordFixed(img, P, L, T, mem, RegionU(i), |img.gens|, x);
    ScanRelocates(T, img.gens[i].words, 0, x);
  }

  /** A loaded static object: likewise. */
  lemma StaticRelocated(img: Image, P: Places, L: Lists, T: Tables, mem: map<int, Word>, j: int, x: int)
    requires AllFixed(img, P, L, T, mem, |img.gens|) && 0 <= j < |img.stats| && ObjectsFrom(img.stats[j].words, 0)
    requires 0 <= x < |img.stats[j].words|
    ensures var ws := img.stats[j].words; var o := OwnerFrom(ws, 0, x);
            TablesOk(T) && Relocated(T, ws, o, x - o) == Some(Get(mem, P.stat(j) + OBJECT + x))
  {
    hide DutyFrom, Applied, Relocated, ObjectsFrom, OwnerFrom, TablesFor, TablesOk;
    AllKnown(img, P, L, T, mem, |img.gens|);
    Shapes(img, j);
    assert FixedUnit(img, P, L, T, mem, StatU(j), |img.gens|);
    assert WordFixed(img, P, L, T, mem, StatU(j), |img.gens|, OBJECT + x);
    assert RawUnit(img, P, StatU(j), |img.gens|)[OBJECT + x] == img.stats[j].words[x];
    ScanRelocates(T, img.stats[j].words, 0, x);
  }

  /** The heap in memory is in order: whole objects, circular lists of static objects, entry lists that are
      rings through all arrays that are linked; and the new places are apart. */
  ghost predicate Portable(mem: map<int, Word>, root: Word, S: Shape, P: Places, L: Lists, rings: seq<seq<Header>>) {
    && ShapeOk(mem, S) && |S.lists| == |S.gens| && Loadable(Picture(mem, root, S), P, L)
    && EntriesOk(Picture(mem, root, S), P, L, rings)
    && (forall i :: 0 <= i < |S.gens| ==> ObjectsFrom(GenPicture(mem, S.gens[i], i).words, 0))
    && (forall j :: 0 <= j < |Picture(mem, root, S).stats| ==> ObjectsFrom(Picture(mem, root, S).stats[j].words, 0))
  }

  /** What was at `a` in the area of a generation or in a static object is at `a1`; other addresses stay the same. */
  ghost predicate Leads(img: Image, P: Places, a: int, a1: int)
    requires ShapesOk(img)
  {
    && (forall k | 0 <= k < |img.gens| ::
          var start := OldAt(img, RegionU(k));
          start <= a < start + |img.gens[k].words| ==> a1 == P.start(k) + (a - start))
    && (forall j | 0 <= j < |img.stats| ::
          var start := img.stats[j].at + OBJECT;
          start <= a < start + |img.stats[j].words| ==> a1 == P.stat(j) + OBJECT + (a - start))
    && (Outside(img, a) ==> a1 == a)
  }

  /** The value `w` has become `w1`: a reference with the same tag to the same word, at its new place. */
  ghost predicate ValueBack(img: Image, P: Places, w: Word, w1: Word)
    requires ShapesOk(img)
  {
    if w.Ptr? then w1.Ptr? && w1.tag == w.tag && Leads(img, P, w.addr, w1.addr) else w1 == w
  }

  /** Word `x` of the whole objects `ws` has become `w1`: slots have been relocated, and links of arrays that are on a
      list, everything else is as it was. */
  ghost predicate Carried(img: Image, P: Places, ws: seq<Word>, x: int, w1: Word)
    requires ShapesOk(img) && ObjectsFrom(ws, 0) && 0 <= x < |ws|
  {
    var o := OwnerFrom(ws, 0, x);
    match RoleAt(ws[o], x - o)
    case Slot => ValueBack(img, P, ws[x], w1)
    case WeakSlot => ValueBack(img, P, ws[x], w1)
    case Link => if At(ws, o + BACK) == Null then w1 == ws[x] else w1.Imm?
    case _ => w1 == ws[x]
  }

  lemma LeadsMoved(img: Image, P: Places, T: Tables, a: int)
    requires PointersKept(img, P, T)
    ensures Leads(img, P, a, ImageScan.Moved(T, a))
  {
    hide TablesOk, ShapesOk;
    forall k | 0 <= k < |img.gens|
      ensures var start := OldAt(img, RegionU(k));
              start <= a < start + |img.gens[k].words| ==> ImageScan.Moved(T, a) == P.start(k) + (a - start)
    {
      assert RegionPointer(img, P, T, k, a - OldAt(img, RegionU(k)));
    }
    forall j | 0 <= j < |img.stats|
      ensures var start := img.stats[j].at + OBJECT;
              start <= a < start + |img.stats[j].words| ==> ImageScan.Moved(T, a) == P.stat(j) + OBJECT + (a - start)
    {
      assert StatPointer(img, P, T, j, a - (img.stats[j].at + OBJECT));
    }
  }

  lemma ValueMoved(img: Image, P: Places, T: Tables, w: Word)
    requires PointersKept(img, P, T)
    ensures ValueBack(img, P, w, FixValue(T, w))
  {
    hide ShapesOk, Leads, PointersKept, ImageScan.Moved;
    PointersIn(img, P, T);
    if w.Ptr? {
      LeadsMoved(img, P, T, w.addr);
    }
  }

  lemma PointersIn(img: Image, P: Places, T: Tables)
    requires PointersKept(img, P, T)
    ensures ShapesOk(img) && TablesOk(T)
  {
  }

  lemma RelocatedCarried(img: Image, P: Places, T: Tables, ws: seq<Word>, x: int, w1: Word)
    requires PointersKept(img, P, T) && ShapesOk(img) && TablesOk(T) && ObjectsFrom(ws, 0) && 0 <= x < |ws|
    requires var o := OwnerFrom(ws, 0, x); Relocated(T, ws, o, x - o) == Some(w1)
    ensures Carried(img, P, ws, x, w1)
  {
    hide ShapesOk, TablesOk, PointersKept, ValueBack, FixValue, FixLink, ObjectsFrom, OwnerFrom, ObjectAt;
    ValueMoved(img, P, T, ws[x]);
  }

  /** Word `x` of generation `i` is back. */
  ghost predicate WordBack(mem: map<int, Word>, root: Word, S: Shape, P: Places, mem1: map<int, Word>, i: int, x: int)
    requires 0 <= i < |S.gens| == |S.lists|
  {
    var ws, img := GenPicture(mem, S.gens[i], i).words, Picture(mem, root, S);
    && 0 <= x < |ws| && ShapesOk(img) && ObjectsFrom(ws, 0) && ws[x] == Get(mem, Num(Get(mem, S.gens[i] + START)) + x)
    && Carried(img, P, ws, x, Get(mem1, P.start(i) + x))
  }

  /** Word `x` of static object `j` is back. */
  ghost predicate StatBack(img: Image, P: Places, mem1: map<int, Word>, j: int, x: int)
    requires 0 <= j < |img.stats|
  {
    var ws := img.stats[j].words;
    && 0 <= x < |ws| && ShapesOk(img) && ObjectsFrom(ws, 0)
    && Carried(img, P, ws, x, Get(mem1, P.stat(j) + OBJECT + x))
  }

  /** The descriptor of generation `i` is back: its numbers and counts as they were, in a chain through the descriptors
      at their new places, for an area of the old extent with as many live words as were saved. */
  ghost predicate DescriptorBack(mem: map<int, Word>, S: Shape, P: Places, mem1: map<int, Word>, i: int)
    requires 0 <= i < |S.gens|
  {
    var g, h := S.gens[i], P.gen(i);
    var live := Num(Get(mem, g + if i == 0 then TOP else IMAGE_TOP)) - Num(Get(mem, g + START));
    && Get(mem1, h + NUMBER) == Get(mem, g + NUMBER) && Get(mem1, h + COLLECT) == Get(mem, g + COLLECT)
    && Get(mem1, h + VALUES) == Get(mem, g + VALUES) && Get(mem1, h + NR_ENTRIES) == Get(mem, g + NR_ENTRIES)
    && Get(mem1, h + NR_STATIC) == Get(mem, g + NR_STATIC)
    && Get(mem1, h + PARENT) == Imm(if i == |S.gens| - 1 then 0 else P.gen(i + 1))
    && Get(mem1, h + CHILD) == Imm(if i == 0 then 0 else P.gen(i - 1))
    && Get(mem1, h + SPACE) == Imm(P.start(i) / SPACE_WORDS) && Get(mem1, h + START) == Imm(P.start(i))
    && Get(mem1, h + END) == Imm(P.start(i) + (Num(Get(mem, g + END)) - Num(Get(mem, g + START))))
    && Get(mem1, h + TOP) == Imm(P.start(i) + live) && Get(mem1, h + IMAGE_TOP) == Imm(P.start(i) + live)
    && (Num(Get(mem, g + NR_ENTRIES)) != 0 ==> Get(mem1, h + LAST + BACK) == Get(mem1, h + ENTRY + BACK))
  }

  /** The image has all words of the static object `k` of generation `i`. */
  ghost predicate StatSaved(mem: map<int, Word>, S: Shape, img: Image, i: int, k: int)
    requires 0 <= i < |S.lists| && 0 <= k < |S.lists[i]|
  {
    var s, j := S.lists[i][k], Sum(S.lists, i) + k;
    j < |img.stats| && |img.stats[j].words| == Footprint(Get(mem, s + OBJECT)) &&
    forall x :: 0 <= x < |img.stats[j].words| ==> img.stats[j].words[x] == Get(mem, s + OBJECT + x)
  }

  lemma AllSaved(mem: map<int, Word>, root: Word, S: Shape, i: int, k: int)
    requires |S.lists| == |S.gens| && 0 <= i < |S.lists| && 0 <= k < |S.lists[i]|
    ensures StatSaved(mem, S, Picture(mem, root, S), i, k)
  {
    PictureAt(mem, S.lists, |S.lists|, i, k);
  }

  /** The chain and the lists of static objects at the new places: the static objects are counted through. */
  ghost function NewShape(S: Shape, P: Places): Shape
    requires |S.lists| == |S.gens|
  {
    Shape(seq(|S.gens|, i => P.gen(i)),
      seq(|S.gens|, i requires 0 <= i < |S.gens| =>
        seq(|S.lists[i]|, k requires 0 <= k < |S.lists[i]| => P.stat(Sum(S.lists, i) + k))))
  }

  /** The heap is back at its new places: the words of all areas and static objects, the descriptors, the lists of
      static objects and the entry lists; pointers lead to the same objects, and the heap can be saved again. */
  ghost predicate HeapBack(mem: map<int, Word>, root: Word, S: Shape, P: Places, L: Lists, rings: seq<seq<Header>>,
                           mem1: map<int, Word>) {
    && |S.lists| == |S.gens|
    && (forall i, x {:trigger WordBack(mem, root, S, P, mem1, i, x)} ::
          0 <= i < |S.gens| && 0 <= x < Live(mem, S.gens[i], i) ==> WordBack(mem, root, S, P, mem1, i, x))
    && (forall i {:trigger DescriptorBack(mem, S, P, mem1, i)} :: 0 <= i < |S.gens| ==>
          DescriptorBack(mem, S, P, mem1, i) && Live(mem1, P.gen(i), i) == Live(mem, S.gens[i], i))
    && ShapeOk(mem1, NewShape(S, P))
    && var img := Picture(mem, root, S);
       && (forall i, k {:trigger StatSaved(mem, S, img, i, k)} :: 0 <= i < |S.lists| && 0 <= k < |S.lists[i]| ==>
             StatSaved(mem, S, img, i, k))
       && (forall j, x {:trigger StatBack(img, P, mem1, j, x)} ::
             0 <= j < |img.stats| && 0 <= x < |img.stats[j].words| ==> StatBack(img, P, mem1, j, x))
       && StaticsLinked(img, P, L, mem1)
       && (forall i {:trigger rings[i]} :: 0 <= i < |rings| ==> NewRing(mem1, P, rings[i]))
  }

  /** Loading what has been saved gives the same heap at the new places, with its lists intact. */
  method SaveAndLoad(mem: map<int, Word>, creation: int, root: Word, toc: seq<int>, mem0: map<int, Word>, P: Places,
                     ghost S: Shape, ghost L: Lists, ghost rings: seq<seq<Header>>)
    returns (r: Loaded, mem1: map<int, Word>)
    requires Portable(mem, root, S, P, L, rings) && creation == Nth(S.gens, 0, 0)
    ensures |S.lists| == |S.gens| && ShapesOk(Picture(mem, root, S))
    ensures r.Loaded? && ValueBack(Picture(mem, root, S), P, root, r.root)
    ensures HeapBack(mem, root, S, P, L, rings, mem1)
  {
    hide ShapeOk, Loadable, AllFixed, TablesFor, ParseImage, Encode, StatPictures, GenPictures, Live, FixValue,
      HeapBack, LinksGo, EntriesOk, TablesOk, ValueBack, AllDescribed;
    PortableFacts(mem, root, S, P, L, rings);
    ghost var img := Picture(mem, root, S);
    var s := Save(mem, creation, root, toc, S);
    var ld := new Loader(mem0);
    r := Load(ld, s, P, L);
    mem1 := ld.mem;
    AllBack(mem, root, S, P, L, rings, ld.T, mem1);
  }

  lemma PortableFacts(mem: map<int, Word>, root: Word, S: Shape, P: Places, L: Lists, rings: seq<seq<Header>>)
    requires Portable(mem, root, S, P, L, rings)
    ensures ShapeOk(mem, S) && |S.lists| == |S.gens| && Loadable(Picture(mem, root, S), P, L)
    ensures |Picture(mem, root, S).gens| == |S.gens|
    ensures var img := Picture(mem, root, S); ShapesOk(img) && |L.owner| == |img.stats| && LinksGo(img, P, L)
    ensures EntriesOk(Picture(mem, root, S), P, L, rings)
  {
    hide ShapeOk, Loadable, EntriesOk, LinksGo, ObjectsFrom, StatPictures;
    var img := Picture(mem, root, S);
    LoadableKnown(img, P, L);
    ListsKnown(img, L);
    RingsGo(img, P, L, rings);
  }

  lemma AllBack(mem: map<int, Word>, root: Word, S: Shape, P: Places, L: Lists, rings: seq<seq<Header>>, T: Tables,
                mem1: map<int, Word>)
    requires Portable(mem, root, S, P, L, rings) && AllFixed(Picture(mem, root, S), P, L, T, mem1, |S.gens|)
    ensures TablesOk(T) && |S.lists| == |S.gens| && ShapesOk(Picture(mem, root, S))
    ensures HeapBack(mem, root, S, P, L, rings, mem1) && ValueBack(Picture(mem, root, S), P, root, FixValue(T, root))
  {
    hide ShapeOk, Loadable, AllFixed, TablesFor, StatPictures, GenPictures, Live, EntriesOk, TablesOk, WordBack,
      StatBack, StaticsLinked, PointersKept, Portable, DescriptorBack, ValueBack;
    PortableFacts(mem, root, S, P, L, rings);
    var img := Picture(mem, root, S);
    LoadableKnown(img, P, L);
    AllKnown(img, P, L, T, mem1, |S.gens|);
    AllPointersKept(img, P, T);
    WordsBack(mem, root, S, P, L, rings, T, mem1);
    StatsBack(mem, root, S, P, L, rings, T, mem1);
    StaticsKept(img, P, L, T, mem1, |S.gens|);
    ValueMoved(img, P, T, root);
    RingsBack(img, P, L, rings, T, mem1, |S.gens|);
    DescriptorsBack(mem, root, S, P, L, T, mem1);
    ShapeAgain(mem, root, S, P, L, mem1);
    hide Picture, StatSaved;
    forall i, k {:trigger StatSaved(mem, S, img, i, k)} | 0 <= i < |S.lists| && 0 <= k < |S.lists[i]|
      ensures StatSaved(mem, S, img, i, k)
    {
      AllSaved(mem, root, S, i, k);
    }
  }

  // ---- The chain and the lists of static objects ----

  lemma DescriptorsBack(mem: map<int, Word>, root: Word, S: Shape, P: Places, L: Lists, T: Tables,
                        mem1: map<int, Word>)
    requires ShapeOk(mem, S) && |S.lists| == |S.gens| && AllFixed(Picture(mem, root, S), P, L, T, mem1, |S.gens|)
    requires LastOk(Picture(mem, root, S), P, L)
    ensures forall i {:trigger DescriptorBack(mem, S, P, mem1, i)} :: 0 <= i < |S.gens| ==>
            DescriptorBack(mem, S, P, mem1, i) && Live(mem1, P.gen(i), i) == Live(mem, S.gens[i], i)
  {
    hide ShapeOk, AllFixed, LastOk, StatPictures, Described, DescriptorBack, ShapesOk, Live;
    var img := Picture(mem, root, S);
    forall i {:trigger DescriptorBack(mem, S, P, mem1, i)} | 0 <= i < |S.gens|
      ensures DescriptorBack(mem, S, P, mem1, i) && Live(mem1, P.gen(i), i) == Live(mem, S.gens[i], i)
    {
      DescriptorKept(img, P, L, T, mem1, i);
      GenFacts(mem, S, i);
      OneBack(mem, root, S, P, mem1, i);
    }
  }

  lemma OneBack(mem: map<int, Word>, root: Word, S: Shape, P: Places, mem1: map<int, Word>, i: int)
    requires |S.lists| == |S.gens| && ShapesOk(Picture(mem, root, S)) && 0 <= i < |S.gens|
    requires Described(Picture(mem, root, S), P, mem1, i) && 0 <= Live(mem, S.gens[i], i)
    ensures DescriptorBack(mem, S, P, mem1, i) && Live(mem1, P.gen(i), i) == Live(mem, S.gens[i], i)
  {
    hide ShapesOk, StatPictures;
    assert Picture(mem, root, S).gens[i] == GenPicture(mem, S.gens[i], i);
  }

  /** Where the static objects of each list are among all of them. */
  lemma {:induction false} PictureAt(mem: map<int, Word>, lists: seq<seq<int>>, n: nat, i: nat, k: nat)
    requires i < n <= |lists| && k < |lists[i]|
    ensures Sum(lists, i) + k < Sum(lists, i) + |lists[i]| <= Sum(lists, n) == |StatPictures(mem, lists, n)|
    ensures StatPictures(mem, lists, n)[Sum(lists, i) + k] == StatPicture(mem, lists[i][k])
  {
    StatCount(mem, lists, n - 1);
    StatCount(mem, lists, n);
    if i < n - 1 {
      PictureAt(mem, lists, n - 1, i, k);
    }
  }

  /** Both ways of following the links of a list of static objects come to the same. */
  lemma LinkAgrees(mem: map<int, Word>, root: Word, S: Shape, L: Lists, i: nat, t: nat)
    requires ShapeOk(mem, S) && |S.lists| == |S.gens| && ListsOk(Picture(mem, root, S), L) && i < |S.gens|
    requires L.first[i] == Sum(S.lists, i) && t <= |S.lists[i]| && L.first[i] + t <= L.first[i + 1]
    ensures OldNode(Picture(mem, root, S), L, i, L.first[i] + t) == Nth(S.lists[i], t, S.gens[i] + STATICS)
  {
    hide StatPictures, Footprint;
    var img := Picture(mem, root, S);
    assert HeadAt(img, L, i);
    if t == 0 {
      GenFacts(mem, S, i);
    } else {
      var j := L.first[i] + t - 1;
      assert InList(L, i, j);
      PictureAt(mem, S.lists, |S.lists|, i, t - 1);
      assert NodeAt(img, L, j);
      StatChain(mem, S, i, t);
    }
  }

  lemma HeadIsEnd(img: Image, L: Lists, i: nat, j: int)
    requires ListsOk(img, L) && OldApart(img) && i < |img.gens| && L.first[i] <= j <= L.first[i + 1]
    ensures OldNode(img, L, i, j) == img.gens[i].at + STATICS <==> j == L.first[i + 1]
  {
    assert HeadAt(img, L, i);
  }

  /** Each generation has as many static objects in the image as it had. */
  lemma {:induction false} FirstIsSum(mem: map<int, Word>, root: Word, S: Shape, L: Lists, i: nat)
    requires ShapeOk(mem, S) && |S.lists| == |S.gens| && ListsOk(Picture(mem, root, S), L) && i <= |S.gens|
    requires OldApart(Picture(mem, root, S))
    ensures |L.first| == |S.gens| + 1 && L.first[i] == Sum(S.lists, i)
  {
    hide ShapeOk, StatPictures, OldApart;
    var img := Picture(mem, root, S);
    if i > 0 {
      FirstIsSum(mem, root, S, L, i - 1);
      assert HeadAt(img, L, i - 1);
      var f, n := L.first[i - 1], |S.lists[i - 1]|;
      var t := if L.first[i] - f < n then L.first[i] - f else n;
      LinkAgrees(mem, root, S, L, i - 1, t);
      HeadIsEnd(img, L, i - 1, f + t);
      StatChain(mem, S, i - 1, t);
    }
  }

  /** The heap at its new places is in order for saving. */
  lemma ShapeAgain(mem: map<int, Word>, root: Word, S: Shape, P: Places, L: Lists, mem1: map<int, Word>)
    requires ShapeOk(mem, S) && |S.lists| == |S.gens| && Loadable(Picture(mem, root, S), P, L)
    requires StaticsLinked(Picture(mem, root, S), P, L, mem1)
    requires forall i {:trigger DescriptorBack(mem, S, P, mem1, i)} :: 0 <= i < |S.gens| ==>
             DescriptorBack(mem, S, P, mem1, i) && Live(mem1, P.gen(i), i) == Live(mem, S.gens[i], i)
    ensures ShapeOk(mem1, NewShape(S, P))
  {
    hide ShapeOk, StatPictures, StaticsLinked, Loadable, GenAt, StatAt, DescriptorBack, Live;
    var S1 := NewShape(S, P);
    forall i {:trigger GenAt(mem1, S1, i)} | 0 <= i < |S1.gens| ensures GenAt(mem1, S1, i) {
      assert DescriptorBack(mem, S, P, mem1, i);
      GenAgain(mem, root, S, P, L, mem1, i);
    }
    forall i, j {:trigger StatAt(mem1, S1, i, j)} | 0 <= i < |S1.gens| && 0 <= j < |S1.lists[i]|
      ensures StatAt(mem1, S1, i, j)
    {
      StatAgain(mem, root, S, P, L, mem1, i, j);
    }
    ShapeFrom(mem1, S1);
  }

  lemma ShapeFrom(mem: map<int, Word>, S: Shape)
    requires |S.lists| == |S.gens|
    requires forall i {:trigger GenAt(mem, S, i)} :: 0 <= i < |S.gens| ==> GenAt(mem, S, i)
    requires forall i, j {:trigger StatAt(mem, S, i, j)} :: 0 <= i < |S.gens| && 0 <= j < |S.lists[i]| ==>
             StatAt(mem, S, i, j)
    ensures ShapeOk(mem, S)
  {
    hide GenAt, StatAt;
  }

  lemma GenAgain(mem: map<int, Word>, root: Word, S: Shape, P: Places, L: Lists, mem1: map<int, Word>, i: int)
    requires ShapeOk(mem, S) && |S.lists| == |S.gens| && Loadable(Picture(mem, root, S), P, L)
    requires StaticsLinked(Picture(mem, root, S), P, L, mem1) && 0 <= i < |S.gens|
    requires DescriptorBack(mem, S, P, mem1, i) && Live(mem1, P.gen(i), i) == Live(mem, S.gens[i], i)
    ensures GenAt(mem1, NewShape(S, P), i)
  {
    hide ShapeOk, StatPictures, ListsOk, OldApart, ScansOk, SpacesOk, LastOk, Live;
    var img := Picture(mem, root, S);
    LoadableKnown(img, P, L);
    GenFacts(mem, S, i);
    NumberOf(mem, S, i);
    FirstIsSum(mem, root, S, L, i);
    FirstIsSum(mem, root, S, L, i + 1);
    assert HeadLinked(img, P, L, mem1, i);
    GensApart(img, P, 0, i);
    ListHere(mem, root, S, P, L, i, 0);
  }

  lemma NumberOf(mem: map<int, Word>, S: Shape, i: int)
    requires ShapeOk(mem, S) && 0 <= i < |S.gens|
    ensures Num(Get(mem, S.gens[i] + NUMBER)) == i
  {
    assert GenAt(mem, S, i);
  }

  lemma GensApart(img: Image, P: Places, i: int, k: int)
    requires PlacesOk(img, P) && 0 <= i < |img.gens| && 0 <= k < |img.gens|
    ensures P.gen(i) != 0 && (i != k ==> P.gen(i) != P.gen(k))
  {
    if i != k {
      assert UnitsApart(img, P, DescU(i), DescU(k));
    }
  }

  /** A node of a list at its new place, as the two ways of counting have it. */
  lemma ListHere(mem: map<int, Word>, root: Word, S: Shape, P: Places, L: Lists, i: int, k: nat)
    requires ShapeOk(mem, S) && |S.lists| == |S.gens| && ListsOk(Picture(mem, root, S), L)
    requires 0 <= i < |S.gens| && |L.first| == |S.gens| + 1 && L.first[i] == Sum(S.lists, i)
    requires L.first[i + 1] == Sum(S.lists, i + 1) && k <= |S.lists[i]|
    ensures NewNode(Picture(mem, root, S), P, L, i, Sum(S.lists, i) + k) ==
            Nth(NewShape(S, P).lists[i], k, P.gen(i) + STATICS)
  {
    hide ShapeOk, StatPictures;
    assert HeadAt(Picture(mem, root, S), L, i);
  }

  lemma StatAgain(mem: map<int, Word>, root: Word, S: Shape, P: Places, L: Lists, mem1: map<int, Word>, i: int, j: int)
    requires ShapeOk(mem, S) && |S.lists| == |S.gens| && Loadable(Picture(mem, root, S), P, L)
    requires StaticsLinked(Picture(mem, root, S), P, L, mem1) && 0 <= i < |S.gens| && 0 <= j < |S.lists[i]|
    ensures StatAt(mem1, NewShape(S, P), i, j)
  {
    hide ShapeOk, StatPictures, Picture, ListsOk, OldApart, ScansOk, SpacesOk, LastOk, PlacesOk, StaticsLinked, NewNode;
    var img, x := Picture(mem, root, S), Sum(S.lists, i) + j;
    PictureSize(mem, root, S, i, j);
    LoadableKnown(img, P, L);
    FirstIsSum(mem, root, S, L, i);
    FirstIsSum(mem, root, S, L, i + 1);
    NodeLinked(img, P, L, mem1, i, x);
    ListHere(mem, root, S, P, L, i, j + 1);
    NotHead(img, P, i, x);
  }

  lemma PictureSize(mem: map<int, Word>, root: Word, S: Shape, i: nat, j: nat)
    requires |S.lists| == |S.gens| && i < |S.gens| && j < |S.lists[i]|
    ensures |Picture(mem, root, S).gens| == |S.gens| && Sum(S.lists, i) + j < |Picture(mem, root, S).stats|
    ensures Sum(S.lists, i + 1) == Sum(S.lists, i) + |S.lists[i]|
  {
    PictureAt(mem, S.lists, |S.lists|, i, j);
  }

  lemma NodeLinked(img: Image, P: Places, L: Lists, mem1: map<int, Word>, i: int, x: int)
    requires ListsOk(img, L) && StaticsLinked(img, P, L, mem1) && 0 <= i < |img.gens| && 0 <= x < |img.stats|
    requires InList(L, i, x)
    ensures Get(mem1, P.stat(x)) == Imm(NewNode(img, P, L, i, x + 1))
  {
    assert StatLinked(img, P, L, mem1, x) && L.owner[x] == i;
  }

  lemma NotHead(img: Image, P: Places, i: int, x: int)
    requires PlacesOk(img, P) && 0 <= i < |img.gens| && 0 <= x < |img.stats|
    ensures P.stat(x) != P.gen(i) + STATICS
  {
    assert UnitsApart(img, P, DescU(i), StatU(x));
  }

  lemma RingsBack(img: Image, P: Places, L: Lists, rings: seq<seq<Header>>, T: Tables, mem1: map<int, Word>, n: int)
    requires AllFixed(img, P, L, T, mem1, n) && SpacesOk(img) && OldApart(img) && EntriesOk(img, P, L, rings)
    ensures forall i {:trigger rings[i]} :: 0 <= i < |rings| ==> NewRing(mem1, P, rings[i])
  {
    hide AllFixed, SpacesOk, OldApart, OldRing, NewRing, ShapesOk, LinkOnRing;
    forall i {:trigger rings[i]} | 0 <= i < |rings| ensures NewRing(mem1, P, rings[i]) {
      RingKept(img, P, L, T, mem1, n, i, rings[i]);
    }
  }

  /** All words of the generations are back. */
  lemma WordsBack(mem: map<int, Word>, root: Word, S: Shape, P: Places, L: Lists, rings: seq<seq<Header>>, T: Tables,
                  mem1: map<int, Word>)
    requires Portable(mem, root, S, P, L, rings) && AllFixed(Picture(mem, root, S), P, L, T, mem1, |S.gens|)
    requires PointersKept(Picture(mem, root, S), P, T)
    ensures |S.lists| == |S.gens|
    ensures forall i, x {:trigger WordBack(mem, root, S, P, mem1, i, x)} ::
              0 <= i < |S.gens| && 0 <= x < Live(mem, S.gens[i], i) ==> WordBack(mem, root, S, P, mem1, i, x)
  {
    hide ShapeOk, Loadable, AllFixed, TablesFor, TablesOk, StatPictures, ObjectsFrom, Relocated, OwnerFrom, EntriesOk,
      PointersKept, Carried, ShapesOk;
    forall i, x {:trigger WordBack(mem, root, S, P, mem1, i, x)} | 0 <= i < |S.gens| && 0 <= x < Live(mem, S.gens[i], i)
      ensures WordBack(mem, root, S, P, mem1, i, x)
    {
      assert ObjectsFrom(GenPicture(mem, S.gens[i], i).words, 0);
      AreaRelocated(Picture(mem, root, S), P, L, T, mem1, i, x);
      PointersIn(Picture(mem, root, S), P, T);
      RelocatedCarried(Picture(mem, root, S), P, T, GenPicture(mem, S.gens[i], i).words, x, Get(mem1, P.start(i) + x));
    }
  }

  /** All words of the static objects are back. */
  lemma StatsBack(mem: map<int, Word>, root: Word, S: Shape, P: Places, L: Lists, rings: seq<seq<Header>>, T: Tables,
                  mem1: map<int, Word>)
    requires Portable(mem, root, S, P, L, rings) && AllFixed(Picture(mem, root, S), P, L, T, mem1, |S.gens|)
    requires PointersKept(Picture(mem, root, S), P, T)
    ensures var img := Picture(mem, root, S);
            forall j, x {:trigger StatBack(img, P, mem1, j, x)} ::
              0 <= j < |img.stats| && 0 <= x < |img.stats[j].words| ==> StatBack(img, P, mem1, j, x)
  {
    hide ShapeOk, Loadable, AllFixed, TablesFor, TablesOk, StatPictures, ObjectsFrom, Relocated, OwnerFrom, EntriesOk,
      PointersKept, Carried, ShapesOk;
    var img := Picture(mem, root, S);
    forall j, x {:trigger StatBack(img, P, mem1, j, x)} | 0 <= j < |img.stats| && 0 <= x < |img.stats[j].words|
      ensures StatBack(img, P, mem1, j, x)
    {
      StaticRelocated(img, P, L, T, mem1, j, x);
      PointersIn(img, P, T);
      RelocatedCarried(img, P, T, img.stats[j].words, x, Get(mem1, P.stat(j) + OBJECT + x));
    }
  }
}
