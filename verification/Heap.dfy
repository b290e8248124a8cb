/** The ML heap as the collector sees it: tagged words, the shapes of objects,
    and what it means for a memory to hold a well-formed heap.

    Memory is indexed by word; a link or a pointer holds a word index. */
module Heap {

  /** Primary tags of words with the pointer bit set. */
  datatype Tag = PairPtr | RefPtr | Pointer | Primary7

  /** Secondary tags, carried by header words. */
  datatype Kind = Record | Text | Array | ByteArray | BackPtr | Code | Header50 | WeakArray

  /** `Imm` stands for every word without the pointer bit that is neither a header
      nor the marker DEAD: integers, and the untagged links of entry lists. */
  datatype Word =
    | Imm(n: int)
    | Hdr(kind: Kind, len: nat)
    | Ptr(tag: Tag, addr: int)
    | Evacuated
    | Dead

  const Null := Imm(0)
  const MlError := Ptr(Pointer, 0)

  datatype SpaceType = Reserved | MlHeap | From | MlStatic

  /** Words in one space of the arena. */
  const SPACE_WORDS := 0x400000

  /** The word of memory `m` at `x`. */
  function At(m: seq<Word>, x: int): Word {
    if 0 <= x < |m| then m[x] else Dead
  }

  function TypeOf(types: map<int, SpaceType>, a: int): SpaceType {
    var s := a / SPACE_WORDS;
    if s in types then types[s] else Reserved
  }

  // ---- Shapes of objects ----

  /** Length in words of `bytes` bytes. */
  function WLength(bytes: nat): nat {
    (bytes + 3) / 4
  }

  /** The number of words an object occupies, given its first word. */
  function Footprint(w: Word): nat {
    match w
    case Hdr(Record, n) => 2 + n / 2 * 2
    case Hdr(Code, n) => 2 + n / 2 * 2
    case Hdr(Text, n) => 2 + WLength(n) / 2 * 2
    case Hdr(ByteArray, n) => 2 + WLength(n) / 2 * 2
    case Hdr(Array, n) => 4 + n / 2 * 2
    case Hdr(WeakArray, n) => 4 + n / 2 * 2
    case _ => 2
  }

  predicate IsArray(w: Word) {
    w.Hdr? && (w.kind == Array || w.kind == WeakArray)
  }

  /** What a word of an object is for. */
  datatype Role = Head | Slot | Raw | Link | WeakSlot | Pad

  /** The role of the word at offset `i` of an object whose first word is `w`. */
  function RoleAt(w: Word, i: int): Role {
    match w
    case Hdr(Record, n) => if i == 0 then Head else if i <= n then Slot else Pad
    case Hdr(Code, n) => if i == 0 then Head else if i == 1 && 1 <= n then Slot else if i <= n then Raw else Pad
    case Hdr(Text, _) => if i == 0 then Head else Raw
    case Hdr(ByteArray, _) => if i == 0 then Head else Raw
    case Hdr(Array, n) => if i == 0 then Head else if i <= 2 then Link else if i <= n + 2 then Slot else Pad
    case Hdr(WeakArray, n) => if i == 0 then Head else if i <= 2 then Link else if i <= n + 2 then WeakSlot else Pad
    case _ => Slot
  }

  /** First words an object can have; anything but a header starts a pair. */
  predicate IsFirstWord(w: Word) {
    w.Hdr? ==> w.kind != BackPtr && w.kind != Header50 && (w.kind == Code ==> 1 <= w.len)
  }

  predicate TagFits(w: Word, tag: Tag) {
    match w
    case Hdr(Record, _) => tag == Pointer
    case Hdr(Code, _) => tag == Pointer
    case Hdr(Text, _) => tag == Pointer
    case Hdr(ByteArray, _) => tag == Pointer || tag == RefPtr
    case Hdr(Array, _) => tag == RefPtr
    case Hdr(WeakArray, _) => tag == RefPtr
    case _ => tag == PairPtr
  }

  /** Objects take pairs of words, with padding in the last word at most; texts have room for all their bytes, and for
      less than eight more. */
  lemma ShapeTight(w: Word)
    requires IsFirstWord(w)
    ensures Footprint(w) % 2 == 0 && 2 <= Footprint(w)
    ensures forall i :: 0 <= i < Footprint(w) - 1 ==> RoleAt(w, i) != Pad
    ensures forall i :: i >= Footprint(w) ==> RoleAt(w, i) == Pad || RoleAt(w, i) == Raw || !w.Hdr?
    ensures w.Hdr? && (w.kind == Text || w.kind == ByteArray) ==> w.len <= 4 * (Footprint(w) - 1) < w.len + 8
  {
  }

  // ---- A well-formed heap ----

  /** Everything about one collection that does not change while it runs.
      `own` sends each word of an object to the object's first word, `tag` gives the tag
      that references to an object carry, `roots` are the cells outside the heap that
      hold values, `heads` the entry-list heads of the generations, `typ` the type of the
      space that an address lies in. From-space is [lo, hi) and to-space grows from `start` to at most `limit`.
      `entry` are the slots from which the collection sets out. */
  datatype Layout = Layout(
    m0: seq<Word>, own: map<int, int>, tag: map<int, Tag>,
    roots: set<int>, heads: set<int>, typ: int -> SpaceType,
    lo: int, hi: int, start: int, limit: int, entry: set<int>)
  {
    ghost function Type(a: int): SpaceType {
      typ(a)
    }

    ghost predicate Base(b: int) {
      b in own && own[b] == b
    }

    /** The word at `a` when the collection starts. */
    ghost function Was(a: int): Word {
      At(m0, a)
    }

    ghost function Role(a: int): Role
      requires a in own
    {
      RoleAt(Was(own[a]), a - own[a])
    }

    /** A subclosure of a shared closure: every second word back to the header is zero. */
    ghost predicate SharedEntry(b: int, a: int) {
      b < a && Was(b).Hdr? && Was(b).kind == Record &&
      forall x :: b < x <= a && (x - b) % 2 == 0 ==> Was(x) == Null
    }

    /** A code item: its header gives the distance in bytes back to the code vector. */
    ghost predicate CodeEntry(b: int, a: int) {
      b < a && Was(b).Hdr? && Was(b).kind == Code && Was(a) == Hdr(BackPtr, 4 * (a - b))
    }

    /** `a` is a legal target for a reference with tag `t`. */
    ghost predicate Target(t: Tag, a: int) {
      a in own && a + 1 in own && own[a + 1] == own[a] && own[a] in tag && t == tag[own[a]] &&
      (a == own[a] ||
       (t == Pointer && (a - own[a]) % 2 == 0 && (SharedEntry(own[a], a) || CodeEntry(own[a], a))))
    }

    ghost predicate ValueOk(w: Word) {
      match w
      case Imm(_) => true
      case Dead => true
      case Ptr(t, a) => !(start <= a < limit) && (Type(a) == From || Type(a) == MlStatic ==> Target(t, a))
      case _ => false
    }

    /** `x` lies within the object that starts at `b`. */
    ghost predicate Within(b: int, x: int) {
      Base(b) && b <= x < b + Footprint(Was(b))
    }

    /** The memory `m0` holds a heap laid out as `own` and `tag` say. */
    ghost predicate ObjectsOk() {
      && (forall a :: a in own ==> Within(own[a], a) && 0 < own[a] && own[a] % 2 == 0 && a < |m0|)
      && (forall b, x :: Within(b, x) ==> x in own && own[x] == b)
      && (forall b :: Base(b) ==> IsFirstWord(Was(b)) && b in tag && TagFits(Was(b), tag[b]))
    }

    /** `x` is one of the three words of the entry-list head at `e`. */
    ghost predicate HeadWord(e: int, x: int) {
      e in heads && e <= x <= e + 2
    }

    ghost predicate SpacesOk() {
      && 0 < start <= limit <= |m0| && start % 2 == 0 && hi - lo <= limit - start && lo <= hi
      && (forall a :: start <= a < limit ==> Type(a) == MlHeap)
      && (forall a :: a in own ==> !(start <= a < limit))
      && (start in own ==> own[start] == start)
      && (forall a :: a in own ==> Type(a) == Type(own[a]))
      && (forall a :: a in own && Type(a) == From ==> lo <= a < hi)
      && (forall a :: a in roots ==> 0 <= a < |m0| && a !in own && !(start <= a < limit))
      && (forall e, x :: HeadWord(e, x) ==>
            0 < x < |m0| && x !in own && x !in roots && !(start <= x < limit) && (x in heads ==> x == e))
    }

    ghost predicate WordsFit() {
      && (forall a :: a in own && (Role(a) == Slot || Role(a) == WeakSlot) ==> ValueOk(Was(a)))
      && (forall a :: a in own && (Role(a) == Link || Role(a) == Pad) ==> Was(a).Imm?)
      && (forall a :: a in roots ==> ValueOk(Was(a)))
    }

    ghost predicate WellFormed() {
      ObjectsOk() && SpacesOk() && WordsFit()
    }

    /** A cell that a collection may have to fix. */
    ghost predicate Cell(a: int) {
      a in roots || (a in own && Role(a) == Slot)
    }

    /** The word at `a` refers to the from-space object starting at `b`. */
    ghost predicate PointsTo(a: int, b: int) {
      var w := Was(a);
      w.Ptr? && Type(w.addr) == From && w.addr in own && own[w.addr] == b
    }

    /** The from-space object at `b` can be reached from the entry slots through `k` other objects. */
    ghost predicate ReachedIn(b: int, k: nat)
      decreases k
    {
      if k == 0 then exists a :: a in entry && PointsTo(a, b)
      else exists a :: a in own && Role(a) == Slot && PointsTo(a, b) && ReachedIn(own[a], k - 1)
    }

    ghost predicate Reachable(b: int) {
      exists k: nat :: ReachedIn(b, k)
    }

    /** The word at `a`, an entry slot or a slot of a reachable from-space object, refers to the static
        object starting at `b`. */
    ghost predicate Mentions(a: int, b: int) {
      var w := Was(a);
      w.Ptr? && Type(w.addr) == MlStatic && w.addr in own && own[w.addr] == b &&
      Cell(a) && (a in entry || (a in own && Reachable(own[a])))
    }

    ghost predicate Mentioned(b: int) {
      exists a :: Mentions(a, b)
    }
  }
}
