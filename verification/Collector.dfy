/** The collector itself: memory, space types, marks of static objects, and the
    methods that copy objects and fix references in place. */
module Collector {
  import opened Heap
  import opened Seqs
  import opened Copying
  import opened Moving
  import opened Scanning
  import opened EntryLists
  import opened Remembered
  import opened Roots
  import opened Survival
  import opened Weak
  import opened Sweeping
  import opened Outcome
  import Aftermath
  import Steady

  class Collector {
    const mem: array<Word>
    var spaceType: map<int, SpaceType>
    var marked: set<int>     // static objects whose mark word is set
    var ages: Ages
    ghost var L: Layout
    ghost var T: Trail
    ghost var lists: map<int, seq<int>>   // entry lists by head, in terms of original places
    ghost var home: map<int, int>         // the head of the list an array is on
    ghost var oldGen: int    // the generation being collected
    ghost var newGen: int    // the generation it is collected into
    ghost var young: set<int>             // the generations whose entry lists are gone through
    ghost var marks: set<int>             // static objects whose mark word was set when copying started
    ghost var home0: map<int, int>        // `home` as it was when the collection started
    ghost var lists0: map<int, seq<int>>  // `lists` as they were then
    ghost var fixed: set<int>             // cells known to be done
    ghost var settled: set<int>           // weak elements that have been dealt with
    ghost var tidy: seq<Word>             // memory as it would be if arrays swept from lists had null links
    ghost var dropped: set<int>           // arrays swept from lists
    ghost var filed: seq<int>             // arrays that have been handled

    constructor (mem: array<Word>, spaceType: map<int, SpaceType>, ages: Ages, ghost L: Layout, ghost T: Trail,
                 ghost lists: map<int, seq<int>>, ghost home: map<int, int>)
      ensures this.mem == mem && this.spaceType == spaceType && this.ages == ages && marked == {}
      ensures this.L == L && this.T == T && this.lists == lists && this.home == home
    {
      this.mem, this.spaceType, this.ages, marked := mem, spaceType, ages, {};
      this.L, this.T, this.lists, this.home := L, T, lists, home;
    }

    /** The space types are those of the layout. */
    ghost predicate Typed()
      reads this`L, this`spaceType
    {
      forall a :: L.Type(a) == TypeOf(spaceType, a)
    }

    ghost predicate Collecting()
      reads this, mem
    {
      Inv(L, T, mem[..]) && Typed() && Spared(L, marks, marked)
    }

    /** Copies words two at a time, as the copy loops of fixup do. */
    method CopyPairs(to: int, obj: int, length: int) returns (to1: int)
      requires 0 <= obj && obj + 2 + length / 2 * 2 <= mem.Length
      requires 0 <= to && to + 2 + length / 2 * 2 <= mem.Length && 0 <= length
      requires obj + 2 + length / 2 * 2 <= to || to + 2 + length / 2 * 2 <= obj
      modifies mem
      ensures to1 == to + length / 2 * 2
      ensures Copied(old(mem[..]), mem[..], to, obj, length / 2 * 2)
    {
      var o, len := obj, length - 2;
      to1 := to;
      while len >= 0
        invariant -2 <= len && length - 2 - len == to1 - to == o - obj && (to1 - to) % 2 == 0 && to <= to1
        invariant forall x {:trigger mem[x]} :: to + 2 <= x < to1 + 2 ==> mem[x] == old(mem[x - to + obj])
        invariant forall x {:trigger mem[x]} :: 0 <= x < mem.Length && !(to + 2 <= x < to1 + 2) ==>
                  mem[x] == old(mem[x])
      {
        to1, o := to1 + 2, o + 2;
        mem[to1] := mem[o];
        mem[to1 + 1] := mem[o + 1];
        len := len - 2;
      }
    }
  
    /** The writes with which every evacuation through the object's first word begins. */
    method BeginMove(to: int, obj: int, what: int, header: Word, word1: Word, tag: Tag)
      requires Places(L, T, mem[..], obj, obj, what) && to == L.start + T.used
      requires header == mem[obj] && word1 == mem[obj + 1]
      modifies mem
      ensures Begun(old(mem[..]), mem[..], obj, to, what, tag)
    {
      mem[obj] := Evacuated;
      mem[obj + 1] := Ptr(tag, to);
      mem[what] := Ptr(tag, to);
      mem[to] := header;
      mem[to + 1] := word1;
    }

    /** Evacuates a pair. */
    method MovePair(to: int, obj: int, what: int, header: Word, word1: Word) returns (to1: int)
      requires Places(L, T, mem[..], obj, obj, what) && to == L.start + T.used
      requires Footprint(L.Was(obj)) == 2 && !IsArray(L.Was(obj))
      requires header == mem[obj] && word1 == mem[obj + 1]
      modifies mem
      ensures Moved(L, T, old(mem[..]), mem[..], obj, obj, what, PairPtr)
      ensures to1 == to + 2
    {
      BeginMove(to, obj, what, header, word1, PairPtr);
      to1 := to + 2;
    }

    /** Evacuates an object with a header and no entry-list links. */
    method MoveRecord(to: int, obj: int, what: int, header: Word, word1: Word, tag: Tag, length: int) returns (to1: int)
      requires Places(L, T, mem[..], obj, obj, what) && to == L.start + T.used
      requires 0 <= length && Footprint(L.Was(obj)) == 2 + length / 2 * 2 && !IsArray(L.Was(obj))
      requires header == mem[obj] && word1 == mem[obj + 1]
      modifies mem
      ensures Moved(L, T, old(mem[..]), mem[..], obj, obj, what, tag)
      ensures to1 == to + Footprint(L.Was(obj))
    {
      BeginMove(to, obj, what, header, word1, tag);
      ghost var m1 := mem[..];
      to1 := CopyPairs(to, obj, length);
      RecordMoved(L, T, old(mem[..]), m1, mem[..], obj, what, tag, length / 2 * 2);
      to1 := to1 + 2;
    }

    /** Evacuates the code vector or shared closure at `actual` because of a reference to its
        inner entry `obj`, and marks the entry. */
    method MoveWhole(to: int, actual: int, obj: int, what: int, header: Word, word1: Word, length: int)
      returns (to1: int)
      requires Places(L, T, mem[..], actual, obj, what) && to == L.start + T.used && actual != obj
      requires 0 <= length && Footprint(L.Was(actual)) == 2 + length / 2 * 2 && !IsArray(L.Was(actual))
      requires header == mem[actual] && word1 == mem[actual + 1]
      modifies mem
      ensures Moved(L, T, old(mem[..]), mem[..], actual, obj, what, Pointer)
      ensures to1 == to + Footprint(L.Was(actual))
    {
      mem[actual] := Evacuated;
      mem[actual + 1] := Ptr(Pointer, to);
      mem[to] := header;
      mem[to + 1] := word1;
      ghost var m1 := mem[..];
      to1 := CopyPairs(to, actual, length);
      ghost var m2 := mem[..];
      mem[obj] := Evacuated;
      mem[obj + 1] := Ptr(Pointer, to + (obj - actual));
      mem[what] := Ptr(Pointer, to + (obj - actual));
      WholeMoved(L, T, old(mem[..]), m1, m2, mem[..], actual, obj, what, length / 2 * 2);
      to1 := to1 + 2;
    }

    /** Makes the neighbours of an array on an entry list point to its copy. */
    method RelinkNeighbours(forward: Word, back: Word, to: int)
      requires back.Imm? && (back != Null ==>
                 forward.Imm? && 0 <= forward.n + 2 < mem.Length && 0 <= back.n + 1 < mem.Length)
      modifies mem
      ensures back == Null ==> mem[..] == old(mem[..])
      ensures back != Null ==> mem[..] == Both(old(mem[..]), forward.n + 2, back.n + 1, Imm(to))
    {
      if back != Null {
        mem[forward.n + 2] := Imm(to);
        mem[back.n + 1] := Imm(to);
      }
    }

    method CopyLinks(to: int, obj: int, back: Word)
      requires 0 <= to && to + 3 < mem.Length && 0 <= obj && obj + 3 < mem.Length
      modifies mem
      ensures TwoSet(old(mem[..]), mem[..], to + 2, back, old(mem[obj + 3]))
      requires to + 3 < obj || obj + 3 < to
    {
      mem[to + 2] := back;
      mem[to + 3] := mem[obj + 3];
    }

    /** Evacuates an array, linking its neighbours on an entry list to the copy. */
    method MoveArray(to: int, obj: int, what: int, header: Word, word1: Word, length: int) returns (to1: int)
      requires Places(L, T, mem[..], obj, obj, what) && to == L.start + T.used
      requires 0 <= length && Footprint(L.Was(obj)) == 4 + length / 2 * 2
      requires 0 <= obj && obj + 1 < mem.Length && header == mem[obj] && word1 == mem[obj + 1] == At(mem[..], obj + 1)
      requires ArrayLinked(L, T, mem[..], obj)
      modifies mem
      ensures Moved(L, T, old(mem[..]), mem[..], obj, obj, what, RefPtr)
      ensures to1 == to + Footprint(L.Was(obj))
    {
      hide Places, ArrayLinked, Begun, TwoSet, Copied, Moved;
      BeginMove(to, obj, what, header, word1, RefPtr);
      ghost var m1 := mem[..];
      ArrayPlan(L, T, old(mem[..]), m1, obj, what, length / 2 * 2);
      var back := mem[obj + 2];
      assert back == At(m1, obj + 2);
      RelinkNeighbours(word1, back, to);
      ghost var m2 := mem[..];
      assert mem[obj + 3] == At(m2, obj + 3);
      CopyLinks(to, obj, back);
      ghost var m3 := mem[..];
      to1 := CopyPairs(to + 2, obj + 2, length);
      ArrayMoved(L, T, old(mem[..]), m1, m2, m3, mem[..], obj, what, length / 2 * 2);
      to1 := to1 + 2;
    }
  
    // ---- fixup ----

    /** If the word at `x` refers to a static object, that object is not marked for sweeping. */
    ghost predicate StaticReached(x: int)
      reads this, mem
    {
      var w := At(mem[..], x);
      w.Ptr? && L.Type(w.addr) == MlStatic && w.addr in L.own ==> L.own[w.addr] !in marked
    }

    /** Steps back through a static shared closure to its header. */
    method StepBack(start: int) returns (obj: int)
      requires Core(L, T, mem[..]) && L.Target(Pointer, start) && L.Type(start) == MlStatic
      requires start != L.own[start] ==> L.SharedEntry(L.own[start], start)
      ensures obj == L.own[start]
    {
      hide Inv, Core, L.ObjectsOk, L.SpacesOk, L.WordsFit, InverseOk, WholeOk, RingsOk, ReachOk, InnerEntry;
      CoreRings(L, T, mem[..]);
      TargetFacts(L, Pointer, start);
      SameSpace(L, start);
      ghost var b := L.own[start];
      StaticHead(L, T, mem[..], b);
      obj := start;
      if start != b {
        StaticShared(L, T, mem[..], start, obj);
      }
      while mem[obj] == Null
        invariant b <= obj <= start && (obj - b) % 2 == 0 && obj < mem.Length
        invariant obj != b ==> At(mem[..], obj) == Null
        decreases obj
      {
        assert At(mem[..], b) != Null && mem[obj] == At(mem[..], obj);
        obj := obj - 2;
        if obj != b {
          StaticShared(L, T, mem[..], start, obj);
        }
      }
      assert mem[obj] == At(mem[..], obj);
    }

    /** The static object that a reference leads to, whatever part of it is referred to. */
    method StaticObject(value: Word) returns (obj: int)
      requires Core(L, T, mem[..]) && value.Ptr? && L.Type(value.addr) == MlStatic && L.Target(value.tag, value.addr)
      ensures value.addr in L.own && obj == L.own[value.addr] && L.Base(obj) && L.Type(obj) == MlStatic
    {
      hide Inv, Core, L.ObjectsOk, L.SpacesOk, L.WordsFit, InverseOk, WholeOk, RingsOk, ReachOk, InnerEntry;
      obj := value.addr;
      ghost var b := L.own[obj];
      CoreRings(L, T, mem[..]);
      TargetFacts(L, value.tag, obj);
      SameSpace(L, obj);
      if value.tag == Pointer {
        StaticHead(L, T, mem[..], b);
        if obj != b {
          StaticInner(L, T, mem[..], obj);
        }
        assert mem[obj] == At(mem[..], obj);
        if mem[obj].Hdr? && mem[obj].kind == BackPtr {
          obj := obj - mem[obj].len / 4;
        } else {
          obj := StepBack(obj);
        }
      }
    }

    /** A reference to a static object takes the mark off it. */
    method UnmarkStatic(value: Word)
      requires Core(L, T, mem[..]) && value.Ptr? && L.Type(value.addr) == MlStatic && L.Target(value.tag, value.addr)
      modifies this`marked
      ensures value.addr in L.own && marked == old(marked) - {L.own[value.addr]}
    {
      hide Inv, Core;
      var obj := StaticObject(value);
      marked := marked - {obj};
    }

    /** The word at `what`, which is the cell `c`, may be fixed now. */
    ghost predicate Fixable(to: int, what: int, c: int)
      reads this, mem
    {
      Collecting() && to == L.start + T.used && Spot(L, T, c, what) && Source(L, T, c)
    }

    /** `fixup` of a reference to a code item: the code vector is found by the distance in the
        item's header. */
    method FixBackPtr(to: int, what: int, obj: int, length: nat, ghost c: int) returns (to1: int)
      requires L.Target(Pointer, obj) && obj != L.own[obj] && L.CodeEntry(L.own[obj], obj)
      requires At(mem[..], what) == L.Was(c) == Ptr(Pointer, obj) && L.Type(obj) == From
      requires At(mem[..], obj) == Hdr(BackPtr, length)
      requires Fixable(to, what, c)
      modifies mem, this`T
      ensures FixedCell(L, old(T), T, old(mem[..]), mem[..], c, what)
      ensures to1 == L.start + T.used
    {
      hide Inv, Core, L.ObjectsOk, L.SpacesOk, L.WordsFit, InverseOk, WholeOk, RingsOk, InnerEntry, FixedCell, Source,
        Moved, Places, Extend, Spot;
      InvParts(L, T, mem[..]);
      SpotAt(L, T, mem[..], c, what);
      TargetFacts(L, Pointer, obj);
      CodeCases(L, T, mem[..], obj);
      var actual := obj - length / 4;
      var header, word1 := mem[actual], mem[actual + 1];
      assert header == At(mem[..], actual) && word1 == At(mem[..], actual + 1);
      if header == Evacuated {
        to1 := MarkAndFix(to, what, obj, Ptr(word1.tag, word1.addr + length / 4), c);
        return;
      }
      MovePlaces(L, T, mem[..], c, what);
      to1 := MoveWhole(to, actual, obj, what, header, word1, header.len);
      MoveFixes(L, T, old(mem[..]), mem[..], c, what);
      T := Extend(L, T, actual, Footprint(L.Was(actual)));
    }

    /** The object was copied before: marks the inner entry with its forwarding and fixes the cell. */
    method MarkAndFix(to: int, what: int, obj: int, fixed: Word, ghost c: int) returns (to1: int)
      requires At(mem[..], what) == L.Was(c) == Ptr(Pointer, obj) && L.Type(obj) == From
      requires 0 <= obj && obj + 1 < mem.Length && 0 <= what < mem.Length && obj + 1 in T.fw
      requires InnerEntry(L, obj) && obj in T.fw && fixed == Ptr(Pointer, T.fw[obj])
      requires Fixable(to, what, c)
      modifies mem
      ensures FixedCell(L, T, T, old(mem[..]), mem[..], c, what)
      ensures to1 == to
    {
      hide Inv, Core, L.ObjectsOk, L.SpacesOk, L.WordsFit, InverseOk, WholeOk, RingsOk, InnerEntry, FixedCell, Source,
        Spot;
      SpotNoEntry(L, T, mem[..], c, what, obj);
      mem[obj] := Evacuated;
      mem[obj + 1] := fixed;
      ghost var m1 := mem[..];
      mem[what] := fixed;
      MarkFixes(L, T, old(mem[..]), m1, mem[..], c, what);
      to1 := to;
    }

    /** Steps back from a subclosure to the header, or to a subclosure that was marked earlier. */
    method FindShared(obj: int) returns (actual: int)
      requires L.Target(Pointer, obj) && obj != L.own[obj] && L.SharedEntry(L.own[obj], obj) && L.Type(obj) == From
      requires Inv(L, T, mem[..])
      ensures L.own[obj] <= actual < obj && actual + 1 < mem.Length && mem[actual] != Null
      ensures SharedWord(L, T, mem[..], L.own[obj], obj, actual)
    {
      hide Inv, Core, L.ObjectsOk, L.SpacesOk, L.WordsFit, InverseOk, WholeOk, RingsOk, InnerEntry, SharedWord,
        L.Target, L.SharedEntry;
      InvParts(L, T, mem[..]);
      TargetFacts(L, Pointer, obj);
      ghost var b := L.own[obj];
      actual := obj - 2;
      SharedPlace(L, T, mem[..], obj, actual);
      SharedPlace(L, T, mem[..], obj, b);
      while mem[actual] == Null
        invariant b <= actual < obj && (actual - b) % 2 == 0 && 0 < actual && actual + 1 < mem.Length
        invariant SharedWord(L, T, mem[..], b, obj, actual)
        decreases actual
      {
        assert mem[actual] == At(mem[..], actual) && mem[b] == At(mem[..], b);
        actual := actual - 2;
        SharedPlace(L, T, mem[..], obj, actual);
      }
    }

    /** `fixup` of a reference to a subclosure: the header of the shared closure, or a subclosure
        marked earlier, is found by stepping back. */
    method FixShared(to: int, what: int, obj: int, ghost c: int) returns (to1: int)
      requires L.Target(Pointer, obj) && obj != L.own[obj] && L.SharedEntry(L.own[obj], obj)
      requires At(mem[..], what) == L.Was(c) == Ptr(Pointer, obj) && L.Type(obj) == From
      requires Fixable(to, what, c)
      modifies mem, this`T
      ensures FixedCell(L, old(T), T, old(mem[..]), mem[..], c, what)
      ensures to1 == L.start + T.used
    {
      hide Inv, Core, L.ObjectsOk, L.SpacesOk, L.WordsFit, InverseOk, WholeOk, RingsOk, InnerEntry, FixedCell,
        Source, Spot;
      InvParts(L, T, mem[..]);
      SpotAt(L, T, mem[..], c, what);
      TargetFacts(L, Pointer, obj);
      ghost var b := L.own[obj];
      var actual := FindShared(obj);
      var header, word1 := mem[actual], mem[actual + 1];
      assert header == At(mem[..], actual) && word1 == At(mem[..], actual + 1);
      SharedFate(L, T, mem[..], obj);
      if header == Evacuated {
        to1 := MarkAndFix(to, what, obj, Ptr(word1.tag, word1.addr + (obj - actual)), c);
        return;
      }
      MovePlaces(L, T, mem[..], c, what);
      to1 := MoveWhole(to, actual, obj, what, header, word1, header.len);
      MoveFixes(L, T, old(mem[..]), mem[..], c, what);
      T := Extend(L, T, actual, Footprint(L.Was(actual)));
    }

    /** `fixup` of a reference to a string, bytearray, record or code vector not copied yet. */
    method FixPlain(to: int, what: int, obj: int, header: Word, word1: Word, tag: Tag, ghost c: int) returns (to1: int)
      requires L.Target(tag, obj) && obj == L.own[obj] && PlainHeader(L, header, obj) && Evacuable(L, T, obj)
      requires At(mem[..], what) == L.Was(c) == Ptr(tag, obj) && L.Type(obj) == From
      requires 0 <= obj && obj + 1 < mem.Length && header == mem[obj] && word1 == mem[obj + 1]
      requires Fixable(to, what, c)
      modifies mem, this`T
      ensures FixedCell(L, old(T), T, old(mem[..]), mem[..], c, what)
      ensures to1 == L.start + T.used
    {
      hide Inv, Core, L.ObjectsOk, L.SpacesOk, L.WordsFit, InverseOk, WholeOk, RingsOk, InnerEntry, FixedCell,
        Source, Spot;
      MovePlaces(L, T, mem[..], c, what);
      var length := header.len;
      if header.kind == Text || header.kind == ByteArray {
        length := WLength(length);
      }
      to1 := MoveRecord(to, obj, what, header, word1, tag, length);
      MoveFixes(L, T, old(mem[..]), mem[..], c, what);
      T := Extend(L, T, obj, Footprint(L.Was(obj)));
    }

    /** `fixup` of a reference to a pair not copied yet. */
    method FixPair(to: int, what: int, obj: int, header: Word, word1: Word, ghost c: int) returns (to1: int)
      requires L.Target(PairPtr, obj) && obj == L.own[obj] && Evacuable(L, T, obj)
      requires Footprint(L.Was(obj)) == 2 && !IsArray(L.Was(obj))
      requires At(mem[..], what) == L.Was(c) == Ptr(PairPtr, obj) && L.Type(obj) == From
      requires 0 <= obj && obj + 1 < mem.Length && header == mem[obj] && word1 == mem[obj + 1]
      requires Fixable(to, what, c)
      modifies mem, this`T
      ensures FixedCell(L, old(T), T, old(mem[..]), mem[..], c, what)
      ensures to1 == L.start + T.used
    {
      hide Inv, Core, L.ObjectsOk, L.SpacesOk, L.WordsFit, InverseOk, WholeOk, RingsOk, InnerEntry, FixedCell,
        Source, Spot;
      MovePlaces(L, T, mem[..], c, what);
      to1 := MovePair(to, obj, what, header, word1);
      MoveFixes(L, T, old(mem[..]), mem[..], c, what);
      T := Extend(L, T, obj, Footprint(L.Was(obj)));
    }

    /** `fixup` of a reference to an array or weak array not copied yet. */
    method FixArray(to: int, what: int, obj: int, header: Word, word1: Word, ghost c: int) returns (to1: int)
      requires L.Target(RefPtr, obj) && obj == L.own[obj] && Evacuable(L, T, obj)
      requires header.Hdr? && IsArray(L.Was(obj)) && Footprint(L.Was(obj)) == 4 + header.len / 2 * 2
      requires At(mem[..], what) == L.Was(c) == Ptr(RefPtr, obj) && L.Type(obj) == From
      requires 0 <= obj && obj + 1 < mem.Length && header == mem[obj] && word1 == mem[obj + 1]
      requires Fixable(to, what, c)
      modifies mem, this`T
      ensures FixedCell(L, old(T), T, old(mem[..]), mem[..], c, what)
      ensures to1 == L.start + T.used
    {
      hide L.ObjectsOk, L.SpacesOk, L.WordsFit, InverseOk, WholeOk, WordsOk, WeakUntouched, BasesMarked, EntriesMarked,
        ThreadsOk,
        ReachOk, RingsOk, InnerEntry, FixedCell, Source, Spot;
      MovePlaces(L, T, mem[..], c, what);
      ArrayLinkedOk(L, T, mem[..], obj);
      to1 := MoveArray(to, obj, what, header, word1, header.len);
      MoveFixes(L, T, old(mem[..]), mem[..], c, what);
      T := Extend(L, T, obj, Footprint(L.Was(obj)));
    }

    /** The part of `fixup` that deals with references to from-space. */
    method FixFrom(to: int, what: int, value: Word, ghost c: int) returns (to1: int)
      requires 0 <= what < mem.Length && value == mem[what] && value.Ptr? && L.Type(value.addr) == From
      requires Fixable(to, what, c)
      modifies mem, this`T
      ensures FixedCell(L, old(T), T, old(mem[..]), mem[..], c, what)
      ensures to1 == L.start + T.used
    {
      hide Inv, Core, L.ObjectsOk, L.SpacesOk, L.WordsFit, InverseOk, WholeOk, RingsOk, InnerEntry, FixedCell, Source,
        Spot;
      assert value == At(mem[..], what);
      InvParts(L, T, mem[..]);
      ReadCell(L, T, mem[..], c, what);
      var obj := value.addr;
      HeaderCases(L, T, mem[..], value.tag, obj);
      TargetFacts(L, value.tag, obj);
      var header, word1 := mem[obj], mem[obj + 1];
      assert header == At(mem[..], obj) && word1 == At(mem[..], obj + 1);
      if header == Evacuated {
        SpotAt(L, T, mem[..], c, what);
        mem[what] := word1;
        ForwardFixes(L, T, old(mem[..]), mem[..], c, what);
        return to;
      }
      KindCases(L, T, mem[..], value.tag, obj);
      if value.tag == PairPtr {
        to1 := FixPair(to, what, obj, header, word1, c);
      } else if value.tag == Pointer {
        if header == Null {
          to1 := FixShared(to, what, obj, c);
        } else if header.kind == BackPtr {
          to1 := FixBackPtr(to, what, obj, header.len, c);
        } else {
          to1 := FixPlain(to, what, obj, header, word1, Pointer, c);
        }
      } else if header.kind == ByteArray {
        to1 := FixPlain(to, what, obj, header, word1, RefPtr, c);
      } else {
        to1 := FixArray(to, what, obj, header, word1, c);
      }
    }

    lemma MentionedHere(c: int)
      requires Core(L, T, mem[..]) && L.Cell(c) && Source(L, T, c)
      requires L.Was(c).Ptr? && L.Type(L.Was(c).addr) == MlStatic && L.Was(c).addr in L.own
      ensures L.Mentioned(L.own[L.Was(c).addr])
    {
      SourceMentions(L, T, c);
    }

    /** `fixup`: if the word at `what` refers to from-space, copies the object it refers to unless
        that was done already, and replaces the word by the reference to the copy. */
    method Fixup(to: int, what: int, ghost c: int) returns (to1: int)
      requires Fixable(to, what, c)
      modifies mem, this`T, this`marked
      ensures Collecting() && to1 == L.start + T.used
      ensures FixedCell(L, old(T), T, old(mem[..]), mem[..], c, what)
      ensures marked <= old(marked)
      ensures StaticReached(what) && (what == old(T).Cur(c) ==> StaticReached(T.Cur(c)))
    {
      hide Inv, Core, L.ObjectsOk, L.SpacesOk, L.WordsFit, InverseOk, WholeOk, RingsOk, InnerEntry, FixedCell, Source,
        Spot;
      SpotAt(L, T, mem[..], c, what);
      var value := mem[what];
      assert value == At(mem[..], what);
      if !value.Ptr? {
        NothingToFix(L, T, mem[..], c, what);
        return to;
      }
      var typ := TypeOf(spaceType, value.addr);
      assert L.Type(value.addr) == typ;
      if typ != From {
        NothingToFix(L, T, mem[..], c, what);
        if typ == MlStatic {
          InvCore(L, T, mem[..]);
          SpotCell(L, T, c, what);
          ReadCell(L, T, mem[..], c, what);
          MentionedHere(c);
          UnmarkStatic(value);
        }
        return to;
      }
      to1 := FixFrom(to, what, value, c);
      FixedWord(L, T, old(T), mem[..], old(mem[..]), c, what);
    }
  
    // ---- scan ----

    /** The macro `fix`: only words with the pointer bit are handed to `fixup`. */
    method Fix(to: int, what: int, ghost c: int) returns (to1: int)
      requires Fixable(to, what, c)
      modifies mem, this`T, this`marked
      ensures Collecting() && to1 == L.start + T.used
      ensures Evolves(L, old(T), old(mem[..]), T, mem[..]) && marked <= old(marked) && SameRings(old(T), T)
      ensures what == old(T).Cur(c) ==> Done(L, T, mem[..], marked, c)
      ensures OnlyMoves(L, old(T), T, At(old(mem[..]), what)) && Grows(old(T), T)
      ensures IsFixed(L, T, At(old(mem[..]), what), At(mem[..], what)) && Brought(L, old(T), T, {c})
    {
      hide Inv, Core, L.ObjectsOk, L.SpacesOk, InverseOk, WholeOk, Source, Spot, Brought;
      SpotAt(L, T, mem[..], c, what);
      SpotCell(L, T, c, what);
      to1 := to;
      if mem[what].Ptr? {
        to1 := Fixup(to, what, c);
        FixedWord(L, T, old(T), mem[..], old(mem[..]), c, what);
        EvolvesByFix(L, old(T), old(mem[..]), T, mem[..], c, what);
        InvParts(L, T, mem[..]);
        BroughtByFix(L, old(T), T, old(mem[..]), c, what);
      } else {
        BroughtNone(L, T, T, {c});
        EvolvesRefl(L, T, mem[..]);
        assert mem[what] == At(mem[..], what);
      }
    }

    /** The scan fixes the word at `f` and goes on with the next. */
    method ScanPlain(f: int, to: int, ghost lo: int, ghost hi: int) returns (to1: int)
      requires Collecting() && to == L.start + T.used && Region(L, T, lo, hi) && lo <= f < hi && Stand(L, Org(T, f))
      requires 0 <= f < mem.Length && !Skipped(mem[f])
      modifies mem, this`T, this`marked
      ensures Collecting() && to1 == L.start + T.used
      ensures f + 1 < hi ==> Stand(L, Org(old(T), f + 1))
      ensures Evolves(L, old(T), old(mem[..]), T, mem[..]) && marked <= old(marked) && SameRings(old(T), T)
      ensures forall d {:trigger SlotIn(L, old(T), f, f + 1, d)} :: SlotIn(L, old(T), f, f + 1, d) ==>
              Done(L, T, mem[..], marked, d)
      ensures Brought(L, old(T), T, SlotsIn(L, old(T), f, f + 1))
    {
      hide Inv, Core, L.ObjectsOk, L.SpacesOk, L.WordsFit, InverseOk, WholeOk, RingsOk, Source, Spot, Region,
        Stand, Evolves, Brought;
      InvParts(L, T, mem[..]);
      ScanChoice(L, T, mem[..], lo, hi, f);
      ghost var a, T0 := Org(T, f), T;
      PlainStep(L, T, lo, hi, a);
      to1 := to;
      if mem[f].Ptr? {
        RegionCell(L, T, lo, hi, f, a);
        to1 := Fix(to, f, a);
        assert SlotIn(L, T0, f, f + 1, a);
        BroughtMore(L, T0, T, {a}, SlotsIn(L, T0, f, f + 1));
      } else {
        EvolvesRefl(L, T, mem[..]);
        BroughtNone(L, T, T, SlotsIn(L, T0, f, f + 1));
      }
      forall d {:trigger SlotIn(L, T0, f, f + 1, d)} | SlotIn(L, T0, f, f + 1, d)
        ensures Done(L, T, mem[..], marked, d)
      {
        OneWord(L, T0, lo, hi, f, d);
      }
    }

    /** The scan skips the data of the object at `f`, but fixes the ancillary word of a code vector. */
    method ScanSkip(f: int, to: int, ghost lo: int, ghost hi: int) returns (f1: int, to1: int)
      requires Collecting() && to == L.start + T.used && Region(L, T, lo, hi) && lo <= f < hi && Stand(L, Org(T, f))
      requires 0 <= f < mem.Length && Skipped(mem[f])
      modifies mem, this`T, this`marked
      ensures Collecting() && to1 == L.start + T.used && f < f1 <= hi
      ensures f1 < hi ==> Stand(L, Org(old(T), f1))
      ensures Evolves(L, old(T), old(mem[..]), T, mem[..]) && marked <= old(marked) && SameRings(old(T), T)
      ensures forall d {:trigger SlotIn(L, old(T), f, f1, d)} :: SlotIn(L, old(T), f, f1, d) ==>
              Done(L, T, mem[..], marked, d)
      ensures Brought(L, old(T), T, SlotsIn(L, old(T), f, f1))
    {
      hide Inv, Core, L.ObjectsOk, L.SpacesOk, L.WordsFit, InverseOk, WholeOk, RingsOk, Source, Spot, Region,
        Stand, Evolves,
        Done, SlotIn, Brought;
      InvParts(L, T, mem[..]);
      ScanChoice(L, T, mem[..], lo, hi, f);
      ghost var a, T0 := Org(T, f), T;
      var value := mem[f];
      f1 := SkipTo(value, f);
      SkipStops(L, T, a);
      GoOn(L, T, lo, hi, a, f1 - f);
      to1 := to;
      if value.kind == Code {
        CodeCell(L, T, a);
        RegionCell(L, T, lo, hi, f + 1, a + 1);
        to1 := Fix(to, f + 1, a + 1);
        CodeSlot(L, T0, a, f, f1);
        BroughtMore(L, T0, T, {a + 1}, SlotsIn(L, T0, f, f1));
      } else {
        EvolvesRefl(L, T, mem[..]);
        BroughtNone(L, T, T, SlotsIn(L, T0, f, f1));
      }
      forall d {:trigger SlotIn(L, T0, f, f1, d)} | SlotIn(L, T0, f, f1, d) ensures Done(L, T, mem[..], marked, d) {
        SkippedSlot(L, T0, a, d);
      }
    }

    /** One turn of the scan loop at position `f` of the region [lo, hi). */
    method ScanStep(f: int, to: int, ghost lo: int, ghost hi: int) returns (f1: int, to1: int)
      requires Collecting() && to == L.start + T.used && Region(L, T, lo, hi) && lo <= f < hi && Stand(L, Org(T, f))
      modifies mem, this`T, this`marked
      ensures Collecting() && to1 == L.start + T.used && f < f1 <= hi
      ensures f1 < hi ==> Stand(L, Org(old(T), f1))
      ensures Evolves(L, old(T), old(mem[..]), T, mem[..]) && marked <= old(marked) && SameRings(old(T), T)
      ensures forall d {:trigger SlotIn(L, old(T), f, f1, d)} :: SlotIn(L, old(T), f, f1, d) ==>
              Done(L, T, mem[..], marked, d)
      ensures Brought(L, old(T), T, SlotsIn(L, old(T), f, f1))
    {
      hide Inv, Core, Region, Stand, Evolves, Done, SlotIn, Brought;
      ScanChoice(L, T, mem[..], lo, hi, f);
      if !Skipped(mem[f]) {
        f1 := f + 1;
        to1 := ScanPlain(f, to, lo, hi);
      } else {
        f1, to1 := ScanSkip(f, to, lo, hi);
      }
    }
  
    /** `scan` of a region outside to-space: every cell in it gets fixed. */
    method ScanRegion(start: int, end: int, to: int) returns (to1: int)
      requires Collecting() && to == L.start + T.used && start <= end
      requires Region(L, T, start, end) && OutsideToSpace(L, start, end)
      modifies mem, this`T, this`marked
      ensures Collecting() && to1 == L.start + T.used
      ensures Evolves(L, old(T), old(mem[..]), T, mem[..]) && marked <= old(marked) && SameRings(old(T), T)
      ensures DoneIn(L, T, mem[..], marked, start, end) && Brought(L, old(T), T, RegionCells(L, start, end))
    {
      hide Inv, Core, L.ObjectsOk, L.SpacesOk, L.WordsFit, InverseOk, WholeOk, RingsOk, Region, Stand, Evolves, Done,
        Brought, RegionCells, SlotsIn;
      InvParts(L, T, mem[..]);
      var f := start;
      to1 := to;
      EvolvesRefl(L, T, mem[..]);
      BroughtNone(L, T, T, RegionCells(L, start, end));
      if start < end {
        RegionStart(L, T, start, end);
        OrgOutside(L, T, start);
      }
      while f < end
        invariant start <= f <= end && Collecting() && to1 == L.start + T.used
        invariant Region(L, T, start, end) && (f < end ==> Stand(L, f))
        invariant f < end ==> Org(T, f) == f
        invariant Evolves(L, old(T), old(mem[..]), T, mem[..]) && marked <= old(marked) && SameRings(old(T), T)
        invariant DoneIn(L, T, mem[..], marked, start, f) && Brought(L, old(T), T, RegionCells(L, start, end))
        decreases end - f
      {
        ghost var T0, m0, marked0 := T, mem[..], marked;
        InvParts(L, T, mem[..]);
        ghost var f0 := f;
        f, to1 := ScanStep(f, to1, start, end);
        InvParts(L, T, mem[..]);
        EvolvesTrans(L, old(T), old(mem[..]), T0, m0, T, mem[..]);
        RegionStays(L, T0, T, start, end);
        DoneInExtends(L, T0, m0, marked0, T, mem[..], marked, start, f0, f);
        SlotsOfRegion(L, T0, start, end, f0, f);
        BroughtTrans(L, old(T), T0, T, RegionCells(L, start, end), SlotsIn(L, T0, f0, f));
        assert RegionCells(L, start, end) + SlotsIn(L, T0, f0, f) == RegionCells(L, start, end);
        if f < end {
          OrgOutside(L, T0, f);
          OrgOutside(L, T, f);
        }
      }
    }

    /** `scan` of to-space, whose end moves as objects are copied. */
    method ScanTo(start: int, to: int) returns (to1: int)
      requires Collecting() && to == L.start + T.used && Boundary(L, T, start)
      modifies mem, this`T, this`marked
      ensures Collecting() && to1 == L.start + T.used
      ensures Evolves(L, old(T), old(mem[..]), T, mem[..]) && marked <= old(marked) && SameRings(old(T), T)
      ensures DoneIn(L, T, mem[..], marked, start, to1)
    {
      hide Inv, Core, L.ObjectsOk, L.SpacesOk, L.WordsFit, InverseOk, WholeOk, RingsOk, WordsOk, ReachOk, Region, Stand,
        Evolves, Done, DoneIn,
        SlotIn, Boundary, Org;
      InvParts(L, T, mem[..]);
      var f := start;
      to1 := to;
      EvolvesRefl(L, T, mem[..]);
      BoundaryAbove(L, T, start);
      ScanBegins(L, T, mem[..], marked, start);
      while f < to1
        invariant start <= f <= to1 && Collecting() && to1 == L.start + T.used <= L.limit
        invariant Boundary(L, T, start) && (f < to1 ==> Stand(L, Org(T, f)))
        invariant Evolves(L, old(T), old(mem[..]), T, mem[..]) && marked <= old(marked) && SameRings(old(T), T)
        invariant DoneIn(L, T, mem[..], marked, start, f)
        decreases L.limit - f
      {
        ghost var T0, m0, marked0, f0 := T, mem[..], marked, f;
        InvParts(L, T, mem[..]);
        ToSpaceRegion(L, T, start);
        f, to1 := ScanStep(f, to1, start, to1);
        ScanTurn(L, old(T), old(mem[..]), T0, m0, marked0, T, mem[..], marked, start, f0, f);
      }
    }
  
    // ---- Entry lists ----

    ghost predicate Listing()
      reads this
    {
      ListsOk(L, T, lists, home)
    }

    /** Links the neighbours of the array at `arr` to each other. */
    method Unlink(arr: int, ghost b: int)
      requires Core(L, T, mem[..]) && b in T.nxt && b in T.prv && b !in L.heads && arr == T.Cur(b)
      modifies mem
      ensures Unlinked(T, old(mem[..]), mem[..], b)
    {
      hide Core, L.ObjectsOk;
      UnlinkPlaces(L, T, mem[..], b);
      assert mem[arr + 1] == At(mem[..], arr + 1) && mem[arr + 2] == At(mem[..], arr + 2);
      var forward, back := mem[arr + 1], mem[arr + 2];
      mem[back.n + 1] := forward;
      mem[forward.n + 2] := back;
      assert back.n + 1 != forward.n + 2 by { NeighboursApart(L, T, old(mem[..]), b); }
    }

    /** Puts the array at `arr`, whose own links do not matter any more, in front of a list. */
    method LinkIn(arr: int, head: int, ghost T1: Trail, ghost m: seq<Word>, ghost b: int)
      requires |m| == mem.Length
      requires forall x {:trigger At(m, x)} :: x != arr + 1 && x != arr + 2 ==> At(mem[..], x) == At(m, x)
      requires LinkReady(T1, m, b, head) && arr == T1.Cur(b)
      modifies mem
      ensures Linked(T1, m, mem[..], b, head)
    {
      assert mem[head + 1] == At(m, head + 1);
      mem[arr + 1] := mem[head + 1];
      mem[arr + 2] := Imm(head);
      mem[mem[arr + 1].n + 2] := Imm(arr);
      mem[mem[arr + 2].n + 1] := Imm(arr);
      forall x {:trigger At(mem[..], x)}
        ensures At(mem[..], x) ==
          if x == head + 1 || x == T1.Cur(T1.nxt[head]) + 2 then Imm(arr)
          else if x == arr + 1 then Imm(T1.Cur(T1.nxt[head]))
          else if x == arr + 2 then Imm(head)
          else At(m, x)
      {
      }
    }

    /** Takes the array at `arr` off its entry list. */
    method Disconnect(arr: int, ghost b: int, ghost k: int)
      requires Core(L, T, mem[..]) && Listing() && arr == T.Cur(b) && b in home && home[b] in lists
      requires 0 <= k < |lists[home[b]]| && lists[home[b]][k] == b
      modifies mem, this`T, this`lists, this`home
      ensures Core(L, T, mem[..]) && Listing() && SameFw(old(T), T)
      ensures lists == old(lists)[old(home)[b] := Without(old(lists)[old(home)[b]], k)] && home == old(home) - {b}
      ensures forall a {:trigger Kept(L, a)} :: Kept(L, a) ==> At(mem[..], T.Cur(a)) == At(old(mem[..]), old(T).Cur(a))
      ensures OldPlacesKept(old(T), old(mem[..]), mem[..])
    {
      hide L.ObjectsOk, L.SpacesOk, L.WordsFit, InverseOk, WholeOk, WordsOk, BasesMarked, EntriesMarked, FrameOk,
        ReachOk, RingsOk,
        ListsOk, Removed, Unlinked, Without;
      assert RingsOk(L, T);
      ListedArray(L, T, lists, home, b);
      RemoveLists(L, T, lists, home, home[b], k);
      ghost var m0, e := mem[..], home[b];
      UnlinkPlaces(L, T, mem[..], b);
      Unlink(arr, b);
      ghost var m1 := mem[..];
      mem[arr + 1] := Imm(1);
      mem[arr + 2] := Null;
      UnlinkedRemoved(L, T, m0, m1, mem[..], b, Imm(1));
      RemoveCore(L, T, m0, mem[..], b);
      lists := lists[e := Without(lists[e], k)];
      home := home - {b};
      T := Remove(T, b);
    }

    /** Moves the array at `arr` from its entry list to the front of the list with head `head`. */
    method MoveToList(arr: int, head: int, ghost b: int, ghost k: int)
      requires Core(L, T, mem[..]) && Listing() && arr == T.Cur(b) && b in home && home[b] in lists && head in lists
      requires 0 <= k < |lists[home[b]]| && lists[home[b]][k] == b
      modifies mem, this`T, this`lists, this`home
      ensures Core(L, T, mem[..]) && Listing() && SameFw(old(T), T)
      ensures lists == var l := old(lists)[old(home)[b] := Without(old(lists)[old(home)[b]],
              k)]; l[head := [b] + l[head]]
      ensures home == old(home)[b := head]
      ensures forall a {:trigger Kept(L, a)} :: Kept(L, a) ==> At(mem[..], T.Cur(a)) == At(old(mem[..]), old(T).Cur(a))
      ensures OldPlacesKept(old(T), old(mem[..]), mem[..])
    {
      hide L.ObjectsOk, L.SpacesOk, L.WordsFit, InverseOk, WholeOk, WordsOk, Core, RingsOk, ListsOk, Unlinked, Without,
        Linked,
        Insert, Remove, LinkReady;
      CoreRings(L, T, mem[..]);
      ListedArray(L, T, lists, home, b);
      ListHead(L, T, lists, home, head);
      RemoveLists(L, T, lists, home, home[b], k);
      ghost var m0, e, T0 := mem[..], home[b], T;
      ghost var T1 := Remove(T, b);
      Unlink(arr, b);
      ghost var m1 := mem[..];
      ghost var m2 := AfterUnlink(L, T0, m0, m1, b, head);
      LinkIn(arr, head, T1, m2, b);
      CoreRings(L, T1, m2);
      AfterLink(L, T1, m2, mem[..], b, head);
      lists := lists[e := Without(lists[e], k)];
      home := home - {b};
      InsertLists(L, T1, lists, home, head, b);
      lists := lists[head := [b] + lists[head]];
      home := home[b := head];
      T := Insert(T1, b, head);
    }

    // ---- Generations ----

    /** The macro GENERATION: the generation of the object that starts at `a`. */
    method Generation(a: int) returns (g: int)
      requires Typed() && AgesOk(L, ages) && IsHeapType(L.Type(a)) && (L.Type(a) == MlStatic ==> L.Base(a))
      ensures g == GenAt(L, ages, a) && g in ages.gens
    {
      hide Inv, Core;
      if TypeOf(spaceType, a) == MlStatic {
        StaticGen(L, ages, a);
        g := ages.holder[a];
      } else {
        SpaceGen(L, ages, a);
        g := ages.space[a / SPACE_WORDS];
      }
    }

    /** The generation of the object that a collectable value refers to. */
    method ValueGeneration(value: Word) returns (g: int)
      requires Core(L, T, mem[..]) && Typed() && AgesOk(L, ages) && Collectable(L, value)
      requires L.Type(value.addr) == MlStatic ==> L.Target(value.tag, value.addr)
      ensures g == WordGen(L, ages, value) && g in ages.gens
    {
      hide Inv, Core, L.ObjectsOk, L.SpacesOk;
      if TypeOf(spaceType, value.addr) == MlStatic {
        var obj := StaticObject(value);
        StaticGen(L, ages, value.addr);
        g := ages.holder[obj];
      } else {
        SpaceGen(L, ages, value.addr);
        g := ages.space[value.addr / SPACE_WORDS];
      }
    }

    /** The array `b` is being visited at `arr` since the trail was `T0`, and its first `i` elements have been fixed.
        As long as it stays where it is, `youngest` is the youngest generation they refer to. */
    ghost predicate Visiting(T0: Trail, arr: int, b: int, i: int, own: int, youngest: int)
      reads this, mem
    {
      && FixableArray(L, b) && VisitedAt(L, T0, T, b, arr) && Grows(T0, T) && youngest in ages.gens
      && Brought(L, T0, T, ObjectCells(L, [b]))
      && (arr == T.Cur(b) ==>
            Youngest(L, ages, T, mem[..], b, i, own, youngest) && AllDone(L, T, mem[..], marked, b, i))
    }

    /** Fixes the element `i` of the array visited at `arr` and finds out how young the object it refers to is. */
    method FixElement(arr: int, youngest: int, to: int, ghost T0: Trail, ghost b: int, i: nat, ghost own: int)
      returns (y: int, to1: int)
      requires Collecting() && to == L.start + T.used && AgesOk(L, ages)
      requires Visiting(T0, arr, b, i, own, youngest) && i < L.Was(b).len
      modifies mem, this`T, this`marked
      ensures Collecting() && to1 == L.start + T.used
      ensures Evolves(L, old(T), old(mem[..]), T, mem[..]) && marked <= old(marked) && SameRings(old(T), T)
      ensures Visiting(T0, arr, b, i + 1, own, y)
    {
      hide Inv, Core, L.ObjectsOk, L.SpacesOk, L.WordsFit, InverseOk, WholeOk, RingsOk, ReachOk, Youngest, AgesOk,
        Evolves, Done, AllDone, Spot, Source, OnlyMoves, Grows, VisitedAt, FixableArray, IsFixed, Brought, ObjectCells;
      InvParts(L, T, mem[..]);
      ghost var c := b + 3 + i;
      FixableElement(L, T, b, c);
      ArrayCells(L, T, b, c);
      VisitSpot(L, T0, T, b, arr, i);
      SpotAt(L, T, mem[..], c, arr + 3 + i);
      y, to1 := youngest, to;
      var value := mem[arr + 3 + i];
      assert value == At(mem[..], arr + 3 + i);
      if value.Ptr? && IsHeapType(TypeOf(spaceType, value.addr)) {
        ghost var T1, m1, marked1 := T, mem[..], marked;
        to1 := Fix(to, arr + 3 + i, c);
        ElementFixed(T0, T1, m1, arr, b, i);
        ElementBrings(T0, T1, b, c);
        value := mem[arr + 3 + i];
        assert value == At(mem[..], arr + 3 + i);
        var g := ValueGeneration(value);
        if ages.Number(g) < ages.Number(y) {
          y := g;
        }
        ElementVisited(T0, T1, m1, marked1, arr, b, i, own, youngest);
      } else {
        EvolvesRefl(L, T, mem[..]);
        if arr == T.Cur(b) {
          NotCollectableDone(L, T, mem[..], marked, c);
        }
        ElementVisited(T0, T, mem[..], marked, arr, b, i, own, youngest);
      }
    }

    lemma ElementBrings(T0: Trail, T1: Trail, b: int, c: int)
      requires Brought(L, T0, T1, ObjectCells(L, [b])) && Brought(L, T1, T, {c})
      requires c in L.own && L.own[c] == b && L.Role(c) == Slot
      ensures Brought(L, T0, T, ObjectCells(L, [b]))
    {
      hide Brought;
      BroughtTrans(L, T0, T1, T, ObjectCells(L, [b]), {c});
      assert ObjectCells(L, [b]) + {c} == ObjectCells(L, [b]);
    }

    /** A reference in an element is one still when it has been fixed. */
    lemma ElementFixed(T0: Trail, T1: Trail, m1: seq<Word>, arr: int, b: int, i: nat)
      requires Inv(L, T1, m1) && Inv(L, T, mem[..]) && L.Base(b) && OrdinaryHeader(L.Was(b)) && i < L.Was(b).len
      requires Grows(T0, T1) && Grows(T1, T) && VisitedAt(L, T0, T1, b, arr)
      requires OnlyMoves(L, T1, T, At(m1, arr + 3 + i)) && Collectable(L, At(m1, arr + 3 + i))
      requires IsFixed(L, T, At(m1, arr + 3 + i), At(mem[..], arr + 3 + i))
      ensures Core(L, T, mem[..]) && Grows(T0, T) && VisitedAt(L, T0, T, b, arr)
      ensures arr == T.Cur(b) ==> arr == T1.Cur(b)
      ensures var w := At(mem[..], arr + 3 + i);
              Collectable(L, w) && (L.Type(w.addr) == MlStatic ==> L.Target(w.tag, w.addr))
    {
      hide Inv, Core, L.ObjectsOk, L.SpacesOk, InverseOk, WholeOk, Grows, VisitedAt, OnlyMoves, IsFixed, Spot;
      InvParts(L, T1, m1);
      InvParts(L, T, mem[..]);
      GrowsTrans(T0, T1, T);
      VisitGoesOn(L, T0, T1, T, m1, b, arr, i);
      VisitSpot(L, T0, T1, b, arr, i);
      SpotStays(L, T1, T, b + 3 + i, arr + 3 + i);
      FixedCollectable(L, T, At(m1, arr + 3 + i), At(mem[..], arr + 3 + i));
      StaticTarget(L, T, mem[..], b + 3 + i, arr + 3 + i);
    }

    /** What one more element adds, as long as the array stays where it is. */
    lemma ElementVisited(T0: Trail, T1: Trail, m1: seq<Word>, marked1: set<int>, arr: int, b: int, i: nat, own: int,
                         youngest: int)
      requires Inv(L, T1, m1) && Inv(L, T, mem[..]) && L.Base(b) && OrdinaryHeader(L.Was(b)) && i < L.Was(b).len
      requires Evolves(L, T1, m1, T, mem[..]) && marked <= marked1 && VisitedAt(L, T0, T1, b, arr)
      requires arr == T1.Cur(b) ==>
                 Youngest(L, ages, T1, m1, b, i, own, youngest) && AllDone(L, T1, m1, marked1, b, i) &&
                 Done(L, T, mem[..], marked, b + 3 + i)
      requires arr == T.Cur(b) ==> arr == T1.Cur(b)
      ensures arr == T.Cur(b) ==> T.Cur(b + 3 + i) == arr + 3 + i && AllDone(L, T, mem[..], marked, b, i + 1)
      ensures arr == T.Cur(b) ==>
                var w := At(mem[..], arr + 3 + i);
                var g := WordGen(L, ages, w);
                if Collectable(L, w) && ages.Number(g) < ages.Number(youngest) then
                  g in ages.gens ==> Youngest(L, ages, T, mem[..], b, i + 1, own, g)
                else Youngest(L, ages, T, mem[..], b, i + 1, own, youngest)
    {
      hide Inv, Core, L.ObjectsOk, L.SpacesOk, L.WordsFit, InverseOk, WholeOk, RingsOk, ReachOk, Youngest, Evolves,
        Done, AllDone;
      InvParts(L, T1, m1);
      InvParts(L, T, mem[..]);
      if arr == T.Cur(b) {
        ArrayCells(L, T, b, b + 3 + i);
        ElementsStay(L, ages, T1, m1, marked1, T, mem[..], marked, b, i, own, youngest);
        AllDoneNext(L, T, mem[..], marked, b, i);
        YoungestStep(L, ages, T, mem[..], b, i, own, youngest);
      }
    }

    /** Fixes the elements of the array at `arr` and finds the youngest generation it refers to. An array of from-space
        that has not been copied and refers to itself is copied meanwhile, and its forward link is lost. */
    method FixElements(arr: int, length: nat, own: int, to: int, ghost b: int) returns (youngest: int, to1: int)
      requires Collecting() && to == L.start + T.used && AgesOk(L, ages)
      requires FixableArray(L, b) && length == L.Was(b).len && arr == T.Cur(b) && own in ages.gens
      modifies mem, this`T, this`marked
      ensures Collecting() && to1 == L.start + T.used && youngest in ages.gens
      ensures Evolves(L, old(T), old(mem[..]), T, mem[..]) && marked <= old(marked) && SameRings(old(T), T)
      ensures Stays(L, old(T), b) ==>
                T.Cur(b) == arr && Youngest(L, ages, T, mem[..], b, length, own, youngest) &&
                AllDone(L, T, mem[..], marked, b, length)
      ensures b in T.nxt ==> (At(mem[..], arr + 1) == Imm(T.Cur(T.nxt[b])) <==> Stays(L, old(T), b))
      ensures !Stays(L, old(T), b) ==> b in T.fw && At(mem[..], arr + 1) == Ptr(RefPtr, T.fw[b])
      ensures Brought(L, old(T), T, ObjectCells(L, [b]))
    {
      hide Inv, Core, L.ObjectsOk, L.SpacesOk, L.WordsFit, InverseOk, WholeOk, RingsOk, ReachOk, AgesOk, Evolves, Stays,
        Brought, ObjectCells;
      youngest, to1 := own, to;
      EvolvesRefl(L, T, mem[..]);
      BroughtNone(L, T, T, ObjectCells(L, [b]));
      for i := 0 to length
        invariant Collecting() && to1 == L.start + T.used
        invariant Evolves(L, old(T), old(mem[..]), T, mem[..]) && marked <= old(marked) && SameRings(old(T), T)
        invariant Visiting(old(T), arr, b, i, own, youngest)
      {
        hide Visiting;
        ghost var T1, m1 := T, mem[..];
        InvParts(L, T, mem[..]);
        youngest, to1 := FixElement(arr, youngest, to1, old(T), b, i, own);
        EvolvesTrans(L, old(T), old(mem[..]), T1, m1, T, mem[..]);
      }
      LinkAfter(L, old(T), T, mem[..], marked, b, arr);
    }

    /** Puts an array whose elements were fixed on the entry list of the youngest generation it
        refers to, or on none if that is its own. */
    method FileArray(gen: int, arr: int, own: int, youngest: int, ghost b: int, ghost k: int)
      requires Collecting() && Listing() && arr == T.Cur(b) && b in home && home[b] == gen && gen in lists
      requires youngest in lists
      requires 0 <= k < |lists[gen]| && lists[gen][k] == b
      modifies mem, this`T, this`lists, this`home
      ensures Collecting() && Listing() && SameFw(old(T), T) && Evolves(L, old(T), old(mem[..]), T, mem[..])
      ensures home == if ages.Number(youngest) == ages.Number(own) then old(home) - {b} else old(home)[b := youngest]
      ensures gen in lists
      ensures lists[gen] == if ages.Number(youngest) == ages.Number(own) || youngest != gen
                            then Without(old(lists)[gen], k) else old(lists)[gen]
      ensures Joined(old(lists), lists, gen, [b])
    {
      hide Core, WeakUntouched, OldElementsOk, ListsOk, Without, Evolves, OldPlacesKept;
      ghost var T0, m0 := T, mem[..];
      if ages.Number(youngest) == ages.Number(own) {
        Disconnect(arr, b, k);
        RelinkInv(L, T0, m0, T, mem[..]);
        RelinkEvolves(L, T0, m0, T, mem[..]);
      } else if youngest != gen {
        MoveToList(arr, youngest, b, k);
        RelinkInv(L, T0, m0, T, mem[..]);
        RelinkEvolves(L, T0, m0, T, mem[..]);
      } else {
        EvolvesRefl(L, T, mem[..]);
        assert old(home)[b := youngest] == old(home);
      }
    }

    /** Fixes the ordinary array at `arr`, the one at position `k` of the entry list of `gen`, and
        files it under the youngest generation it refers to. If there is no link where the walk reads on, it is lost;
        what the code does from there is not modelled. */
    method FixListedArray(gen: int, arr: int, to: int, ghost b: int, ghost k: int, ghost s: seq<int>)
      returns (next: int, to1: int, lost: bool)
      requires gen in lists && lists[gen] == s && 0 <= k < |s| && s[k] == b && OrdinaryHeader(L.Was(b))
      requires arr == T.Cur(b) && b in home && home[b] == gen
      requires Collecting() && Listing() && to == L.start + T.used && AgeingOk(L, ages, oldGen, newGen)
      requires FixableArray(L, b)
      modifies mem, this`T, this`marked, this`lists, this`home
      ensures lost <==> !Stays(L, old(T), b)
      ensures !lost ==>
                AtMostWithout(lists, gen, s, k) && next == T.Cur(Nth(s, k + 1, gen)) && home - {b} == old(home) - {b}
      ensures !lost ==> Collecting() && Listing() && to1 == L.start + T.used
      ensures !lost ==> Evolves(L, old(T), old(mem[..]), T, mem[..]) && marked <= old(marked)
      ensures !lost ==> Handled(L, ages, T, mem[..], marked, home, newGen, b)
      ensures !lost ==> Joined(old(lists), lists, gen, [b]) && Brought(L, old(T), T, ObjectCells(L, [b]))
    {
      hide Inv, Core, L.ObjectsOk, L.SpacesOk, L.WordsFit, InverseOk, WholeOk, RingsOk, ListsOk, AgeingOk, AgesOk,
        Evolves, Youngest, AllDone, Filed, FixableArray, SameFw, Without, GenAt, Owner, Nth, WeakUntouched, L.Within,
        Footprint, Spared, Typed, Stays, Brought, ObjectCells, Joined;
      ghost var T0, m0 := T, mem[..];
      InvCore(L, T, mem[..]);
      InvParts(L, T, mem[..]);
      AgeingAges(L, ages, oldGen, newGen);
      ListedWords(L, T, mem[..], lists, home, b, k);
      assert mem[arr] == At(mem[..], arr);
      var length := mem[arr].len;
      ArrayType(L, ages, T, b);
      var own := Generation(arr);
      var youngest;
      youngest, to1 := FixElements(arr, length, own, to, b);
      ListsSame(L, T0, T, lists, home);
      LinkThere(T0, arr, b);
      next, lost := 0, !mem[arr + 1].Imm?;
      if !lost {
        next := FileVisited(gen, arr, own, youngest, b, k, s, T0, m0);
      }
    }

    /** The list of `gen` is `s`, or `s` without the array at position `k`. */
    ghost predicate AtMostWithout(l: map<int, seq<int>>, gen: int, s: seq<int>, k: int) {
      gen in l && 0 <= k < |s| && (l[gen] == s || l[gen] == Without(s, k))
    }

    /** The link from which the walk reads on is one, in the list as it was, just if the array stayed where it was. */
    lemma LinkThere(T0: Trail, arr: int, b: int)
      requires Collecting() && Listing() && SameRings(T0, T) && b in home && arr == T0.Cur(b)
      requires b in T.nxt ==> (At(mem[..], arr + 1) == Imm(T.Cur(T.nxt[b])) <==> Stays(L, T0, b))
      requires !Stays(L, T0, b) ==> b in T.fw && At(mem[..], arr + 1) == Ptr(RefPtr, T.fw[b])
      requires 0 <= arr && arr + 1 < mem.Length
      ensures mem[arr + 1].Imm? <==> Stays(L, T0, b)
    {
      hide Inv, Core, L.ObjectsOk, L.SpacesOk, RingsOk, ListOk, Stays;
      assert mem[arr + 1] == At(mem[..], arr + 1);
    }

    /** Files the array that has been visited and stayed where it was. */
    method FileVisited(gen: int, arr: int, own: int, youngest: int, ghost b: int, ghost k: int, ghost s: seq<int>,
                       ghost T0: Trail, ghost m0: seq<Word>) returns (next: int)
      requires gen in lists && lists[gen] == s && 0 <= k < |s| && s[k] == b && OrdinaryHeader(L.Was(b))
      requires b in home && home[b] == gen && youngest in ages.gens
      requires Youngest(L, ages, T, mem[..], b, L.Was(b).len, own, youngest)
      requires AllDone(L, T, mem[..], marked, b, L.Was(b).len)
      requires arr == T.Cur(b) && L.Base(b) && own == GenAt(L, ages, T.Cur(b))
      requires Collecting() && Listing() && AgeingOk(L, ages, oldGen, newGen)
      requires Evolves(L, T0, m0, T, mem[..]) && Brought(L, T0, T, ObjectCells(L, [b]))
      modifies mem, this`T, this`lists, this`home
      ensures AtMostWithout(lists, gen, s, k) && next == T.Cur(Nth(s, k + 1, gen)) && home - {b} == old(home) - {b}
      ensures Collecting() && Listing() && T.used == old(T).used && Evolves(L, T0, m0, T, mem[..])
      ensures Handled(L, ages, T, mem[..], marked, home, newGen, b)
      ensures Joined(old(lists), lists, gen, [b]) && Brought(L, T0, T, ObjectCells(L, [b]))
    {
      hide Inv, Core, L.ObjectsOk, L.SpacesOk, L.WordsFit, InverseOk, WholeOk, RingsOk, ListsOk, AgeingOk, AgesOk,
        Evolves, Youngest, AllDone, Filed, Without, GenAt, Owner, Nth, Spared, Typed, ObjectCells, Joined, LedTo;
      ghost var T1, m1, marked1 := T, mem[..], marked;
      InvCore(L, T, mem[..]);
      AgeingAges(L, ages, oldGen, newGen);
      ListedWords(L, T, mem[..], lists, home, b, k);
      assert mem[arr + 1] == At(mem[..], arr + 1);
      next := mem[arr + 1].n;
      GenListed(L, ages, T, lists, home, youngest);
      FileArray(gen, arr, own, youngest, b, k);
      InvParts(L, T1, m1);
      EvolvesTrans(L, T0, m0, T1, m1, T, mem[..]);
      SameCur(T1, T, Nth(s, k + 1, gen));
      ArrayFiled(T1, m1, marked1, b, own, youngest);
    }

    /** An array that has been filed under the youngest generation it refers to is where it belongs. */
    lemma ArrayFiled(T1: Trail, m1: seq<Word>, marked1: set<int>, b: int, own: int, youngest: int)
      requires Inv(L, T1, m1) && Inv(L, T, mem[..]) && AgeingOk(L, ages, oldGen, newGen) && SameFw(T1, T)
      requires Evolves(L, T1, m1, T, mem[..]) && marked <= marked1
      requires L.Base(b) && OrdinaryHeader(L.Was(b)) && own == GenAt(L, ages, T1.Cur(b))
      requires Youngest(L, ages, T1, m1, b, L.Was(b).len, own, youngest) && AllDone(L, T1, m1, marked1, b, L.Was(b).len)
      requires if ages.Number(youngest) == ages.Number(own) then b !in home else b in home && home[b] == youngest
      ensures AllDone(L, T, mem[..], marked, b, L.Was(b).len)
      ensures Filed(L, ages, T, mem[..], home, b, L.Was(b).len, Owner(L, ages, newGen, b))
    {
      hide Inv, Core, L.ObjectsOk, L.SpacesOk, InverseOk, WholeOk, RingsOk, AgeingOk, Evolves, Youngest, AllDone, Filed,
        GenAt, Owner;
      InvParts(L, T1, m1);
      ElementsStay(L, ages, T1, m1, marked1, T, mem[..], marked, b, L.Was(b).len, own, youngest);
      SameCur(T1, T, b);
      FiledNow(L, ages, oldGen, newGen, T, mem[..], marked, home, b, own, youngest);
    }


    /** One turn of the loop of `fix_entry_list`. */
    method FixNext(gen: int, arr: int, to: int, ghost b: int, ghost k: int) returns (next: int, to1: int, lost: bool)
      requires Collecting() && Listing() && to == L.start + T.used && AgeingOk(L, ages, oldGen, newGen)
      requires arr == T.Cur(b) && b in home && home[b] == gen && gen in lists && 0 <= k < |lists[gen]|
      requires lists[gen][k] == b && (OrdinaryHeader(L.Was(b)) ==> FixableArray(L, b))
      modifies mem, this`T, this`marked, this`lists, this`home
      ensures lost <==> OrdinaryHeader(L.Was(b)) && !Stays(L, old(T), b)
      ensures !lost ==> Collecting() && Listing() && to1 == L.start + T.used
      ensures !lost ==> Evolves(L, old(T), old(mem[..]), T, mem[..]) && marked <= old(marked)
      ensures !lost ==> Handled(L, ages, T, mem[..], marked, home, newGen, b)
      ensures !lost ==> next == T.Cur(Nth(old(lists)[gen], k + 1, gen)) && gen in lists
      ensures !lost ==> lists[gen] == old(lists)[gen] || lists[gen] == Without(old(lists)[gen], k)
      ensures !lost ==> if OrdinaryHeader(L.Was(b)) then home - {b} == old(home) - {b} else home == old(home)
      ensures !lost ==> Joined(old(lists), lists, gen, [b]) && Brought(L, old(T), T, ObjectCells(L, [b]))
    {
      hide Inv, Core, L.ObjectsOk, L.SpacesOk, L.WordsFit, InverseOk, WholeOk, RingsOk, ListsOk, AgeingOk, AgesOk,
        Evolves, Youngest, AllDone, Filed, FixableArray, SameFw, Without, GenAt, Owner, Nth, WeakUntouched, Stays,
        Brought, ObjectCells;
      InvCore(L, T, mem[..]);
      ListedWords(L, T, mem[..], lists, home, b, k);
      assert mem[arr] == At(mem[..], arr) && mem[arr + 1] == At(mem[..], arr + 1);
      if mem[arr].kind == Array {
        next, to1, lost := FixListedArray(gen, arr, to, b, k, lists[gen]);
      } else {
        EvolvesRefl(L, T, mem[..]);
        next, to1, lost := mem[arr + 1].n, to, false;
        JoinedNone(lists, gen, [b]);
        BroughtNone(L, T, T, ObjectCells(L, [b]));
      }
    }

    /** `fix_entry_list` has gone through the first `k` of the arrays `s` on the list of `gen`, of which
        `kept` are still on it, since the trail was `T0`, the memory `m0` and the lists were `home1` and `lists1`; all
        of them stayed where they were. */
    ghost predicate PartFixed(gen: int, s: seq<int>, kept: seq<int>, k: int, T0: Trail, m0: seq<Word>,
                              home1: map<int, int>, lists1: map<int, seq<int>>)
      reads this, mem
    {
      && 0 <= k <= |s| && Distinct(s) && gen in lists && lists[gen] == kept + s[k..]
      && Evolves(L, T0, m0, T, mem[..]) && HandledAll(L, ages, T, mem[..], marked, home, newGen, s[..k])
      && HomeFrame(L, home1, home, s[..k]) && AllArrays(L, s) && OpenArrays(L, s) && Joined(lists1, lists, gen, s[..k])
      && InTurn(L, T0, s, k) && Brought(L, T0, T, ObjectCells(L, s[..k]))
    }

    /** Where the walk along the list stands. */
    lemma FixStands(gen: int, s: seq<int>, kept: seq<int>, k: int, T0: Trail, m0: seq<Word>, home1: map<int, int>,
                    lists1: map<int, seq<int>>)
      requires Collecting() && Listing() && PartFixed(gen, s, kept, k, T0, m0, home1, lists1)
      ensures 0 <= k <= |s| && InTurn(L, T0, s, k) && (k < |s| <==> T.Cur(Nth(s, k, gen)) != gen)
      ensures k < |s| ==>
        && s[k] in home && home[s[k]] == gen && |kept| < |lists[gen]| && lists[gen][|kept|] == s[k]
        && Nth(lists[gen], |kept| + 1, gen) == Nth(s, k + 1, gen)
        && (OrdinaryHeader(L.Was(s[k])) ==> FixableArray(L, s[k]))
        && (Stays(L, T, s[k]) <==> StaysAfter(L, T0, s[..k], s[k]))
      ensures k == |s| ==> s[..k] == s
    {
      hide Inv, Core, ListsOk, Evolves, HandledAll, HomeFrame, FixableArray, Stays, StaysAfter, InTurn, Brought,
        Distinct, Joined;
      InvCore(L, T, mem[..]);
      OnList(L, T, mem[..], lists, home, gen, s, kept, k);
      if k < |s| {
        EvolvesGrows(L, T0, m0, T, mem[..]);
        assert forall d :: d in s[..k] ==> d in s;
        TurnTold(L, ages, T0, T, mem[..], marked, home, newGen, s[..k], ObjectCells(L, s[..k]), s[k]);
      }
    }

    /** What one more array adds. */
    lemma FixMore(gen: int, s: seq<int>, kept: seq<int>, k: int, T0: Trail, m0: seq<Word>, home1: map<int, int>,
                  lists1: map<int, seq<int>>, T1: Trail, m1: seq<Word>, marked1: set<int>, home2: map<int, int>,
                  lists2: map<int, seq<int>>) returns (kept1: seq<int>)
      requires 0 <= k < |s| && Distinct(s) && gen in lists2 && lists2[gen] == kept + s[k..]
      requires Inv(L, T1, m1) && Evolves(L, T0, m0, T1, m1)
      requires HandledAll(L, ages, T1, m1, marked1, home2, newGen, s[..k])
      requires HomeFrame(L, home1, home2, s[..k]) && AllArrays(L, s) && OpenArrays(L, s)
      requires Joined(lists1, lists2, gen, s[..k]) && InTurn(L, T0, s, k) && Brought(L, T0, T1, ObjectCells(L, s[..k]))
      requires OrdinaryHeader(L.Was(s[k])) ==> StaysAfter(L, T0, s[..k], s[k])
      requires Evolves(L, T1, m1, T, mem[..]) && marked <= marked1 && Brought(L, T1, T, ObjectCells(L, [s[k]]))
      requires Handled(L, ages, T, mem[..], marked, home, newGen, s[k])
      requires |kept| < |lists2[gen]| && Joined(lists2, lists, gen, [s[k]])
      requires gen in lists && (lists[gen] == lists2[gen] || lists[gen] == Without(lists2[gen], |kept|))
      requires if OrdinaryHeader(L.Was(s[k])) then home - {s[k]} == home2 - {s[k]} else home == home2
      ensures PartFixed(gen, s, kept1, k + 1, T0, m0, home1, lists1)
    {
      hide Inv, Core, L.ObjectsOk, L.SpacesOk, InverseOk, WholeOk, Evolves, HandledAll, Handled, HomeFrame, StaysAfter,
        Distinct, Without, Grows, AllArrays, OpenArrays, Joined, InTurn, Brought, ObjectCells;
      InvParts(L, T1, m1);
      KeptStep(s, kept, k);
      kept1 := if lists[gen] == kept + s[k..] then kept + [s[k]] else kept;
      EvolvesTrans(L, T0, m0, T1, m1, T, mem[..]);
      HandledMore(L, ages, T1, m1, marked1, home2, T, mem[..], marked, home, newGen, s, k);
      FrameMore(L, home1, home2, home, s, k);
      JoinedTrans(lists1, lists2, lists, gen, s[..k], [s[k]]);
      assert s[..k] + [s[k]] == s[..k + 1];
      InTurnMore(L, T0, s, k);
      BroughtTrans(L, T0, T1, T, ObjectCells(L, s[..k]), ObjectCells(L, [s[k]]));
      CellsOfBoth(L, s[..k], [s[k]]);
    }

    /** Fixes the array at which the walk along the list stands. */
    method FixTurn(gen: int, arr: int, to: int, ghost s: seq<int>, ghost kept: seq<int>, ghost k: int,
                   ghost T0: Trail, ghost m0: seq<Word>, ghost home1: map<int, int>, ghost lists1: map<int, seq<int>>)
      returns (next: int, to1: int, lost: bool, ghost kept1: seq<int>)
      requires Collecting() && Listing() && to == L.start + T.used && AgeingOk(L, ages, oldGen, newGen)
      requires PartFixed(gen, s, kept, k, T0, m0, home1, lists1) && k < |s| && arr == T.Cur(s[k])
      modifies mem, this`T, this`marked, this`lists, this`home
      ensures lost <==> OrdinaryHeader(L.Was(s[k])) && !StaysAfter(L, T0, s[..k], s[k])
      ensures !lost ==> Collecting() && Listing() && to1 == L.start + T.used && marked <= old(marked)
      ensures !lost ==> PartFixed(gen, s, kept1, k + 1, T0, m0, home1, lists1) && next == T.Cur(Nth(s, k + 1, gen))
    {
      hide Inv, Core, ListsOk, AgeingOk, Evolves, FixableArray, Stays, StaysAfter, HandledAll, Handled, HomeFrame,
        Distinct, Without, Spared, Typed, AllArrays, OpenArrays, Joined, InTurn, Brought, ObjectCells;
      ghost var T1, m1, marked1, home2, lists2 := T, mem[..], marked, home, lists;
      FixStands(gen, s, kept, k, T0, m0, home1, lists1);
      next, to1, lost := FixNext(gen, arr, to, s[k], |kept|);
      kept1 := kept;
      if !lost {
        kept1 := FixMore(gen, s, kept, k, T0, m0, home1, lists1, T1, m1, marked1, home2, lists2);
      }
    }

    lemma FixBegins(gen: int)
      requires Collecting() && Listing() && gen in lists && OpenArrays(L, lists[gen])
      ensures PartFixed(gen, lists[gen], [], 0, T, mem[..], home, lists)
      ensures 0 < gen && gen + 1 < mem.Length && mem[gen + 1] == Imm(T.Cur(Nth(lists[gen], 0, gen)))
    {
      hide Inv, Core, ListsOk, Evolves, HandledAll, HomeFrame, Distinct, AllArrays, OpenArrays, Joined, Brought;
      InvCore(L, T, mem[..]);
      FirstPlace(L, T, mem[..], lists, home, gen);
      assert mem[gen + 1] == At(mem[..], gen + 1);
      EvolvesRefl(L, T, mem[..]);
      HandledNone(L, ages, T, mem[..], marked, home, newGen);
      ListArrays(gen);
      JoinedNone(lists, gen, []);
      BroughtNone(L, T, T, ObjectCells(L, []));
    }

    lemma ListArrays(gen: int)
      requires Collecting() && Listing() && gen in lists
      ensures AllArrays(L, lists[gen]) && forall b :: b in lists[gen] ==> b in home && home[b] == gen
    {
      hide Inv, Core, L.ObjectsOk, L.SpacesOk, RingsOk, Distinct;
      InvParts(L, T, mem[..]);
      assert ListOk(L, T, home, gen, lists[gen]);
      forall b | b in lists[gen] ensures L.Base(b) && IsArray(L.Was(b)) {
        ListedArray(L, T, lists, home, b);
      }
    }

    /** `fix_entry_list`: fixes every ordinary array on the entry list of `gen` and files it under the
        youngest generation it refers to. The walk along the list is lost if and only if an array that refers to itself
        has not been copied when its turn comes. */
    method FixEntryList(gen: int, to: int) returns (to1: int, lost: bool)
      requires Collecting() && Listing() && to == L.start + T.used && AgeingOk(L, ages, oldGen, newGen)
      requires gen in lists && OpenArrays(L, lists[gen])
      modifies mem, this`T, this`marked, this`lists, this`home
      ensures lost <==> !InTurn(L, old(T), old(lists)[gen], |old(lists)[gen]|)
      ensures !lost ==> Collecting() && Listing() && to1 == L.start + T.used
      ensures !lost ==> Evolves(L, old(T), old(mem[..]), T, mem[..]) && marked <= old(marked)
      ensures !lost ==> HandledAll(L, ages, T, mem[..], marked, home, newGen, old(lists)[gen])
      ensures !lost ==>
                HomeFrame(L, old(home), home, old(lists)[gen]) && Joined(old(lists), lists, gen, old(lists)[gen]) &&
                Brought(L, old(T), T, ObjectCells(L, old(lists)[gen]))
    {
      hide Inv, Core, ListsOk, AgeingOk, Evolves, HandledAll, HomeFrame, Distinct, Spared, Typed, Collecting, Listing,
        AllArrays, OpenArrays, Joined, Brought, StaysAfter, ObjectCells;
      ghost var s, k, kept, T0, m0, home1, lists1 := lists[gen], 0, [], T, mem[..], home, lists;
      to1, lost := to, false;
      FixBegins(gen);
      var arr := mem[gen + 1].n;
      FixStands(gen, s, kept, k, T0, m0, home1, lists1);
      while arr != gen
        invariant Collecting() && Listing() && to1 == L.start + T.used && marked <= old(marked)
        invariant PartFixed(gen, s, kept, k, T0, m0, home1, lists1) && arr == T.Cur(Nth(s, k, gen))
        invariant 0 <= k <= |s| && InTurn(L, T0, s, k) && (k < |s| <==> arr != gen) && !lost
        invariant k == |s| ==> s[..k] == s
        decreases |s| - k
      {
        hide PartFixed;
        arr, to1, lost, kept := FixTurn(gen, arr, to1, s, kept, k, T0, m0, home1, lists1);
        if lost {
          return;
        }
        k := k + 1;
        FixStands(gen, s, kept, k, T0, m0, home1, lists1);
      }
    }

    // ---- C roots and static objects ----

    /** Every root in the table is a cell from which the collection sets out. */
    ghost predicate RootsFixable(table: array<Entry>)
      reads this, table
    {
      forall i :: 0 <= i < table.Length && table[i].Root? ==> table[i].root in L.roots && table[i].root in L.entry
    }

    /** `fix_c_roots`: fixes the roots that count for saving an image, or all of them. */
    method FixCRoots(table: array<Entry>, all: bool, to: int) returns (to1: int)
      requires Collecting() && to == L.start + T.used && RootsFixable(table)
      modifies mem, this`T, this`marked
      ensures Collecting() && to1 == L.start + T.used
      ensures Evolves(L, old(T), old(mem[..]), T, mem[..]) && marked <= old(marked) && SameRings(old(T), T)
      ensures RootsDone(L, T, mem[..], marked, table[..], all) && Brought(L, old(T), T, TableCells(table[..], all))
    {
      hide Inv, Core, L.ObjectsOk, L.SpacesOk, L.WordsFit, InverseOk, WholeOk, RingsOk, ReachOk, Evolves, Done, Brought;
      to1 := to;
      EvolvesRefl(L, T, mem[..]);
      ghost var D := TableCells(table[..], all);
      BroughtNone(L, T, T, D);
      assert RootsDone(L, T, mem[..], marked, table[..0], all);
      for i := 0 to table.Length
        invariant Collecting() && to1 == L.start + T.used
        invariant Evolves(L, old(T), old(mem[..]), T, mem[..]) && marked <= old(marked) && SameRings(old(T), T)
        invariant RootsDone(L, T, mem[..], marked, table[..i], all) && Brought(L, old(T), T, D)
      {
        ghost var T0, m0, marked0 := T, mem[..], marked;
        InvParts(L, T, mem[..]);
        if table[i].Root? && (all || table[i].live) {
          ghost var c := table[i].root;
          RootCell(L, T, c);
          to1 := Fix(to1, table[i].root, c);
          InvParts(L, T, mem[..]);
          EvolvesTrans(L, old(T), old(mem[..]), T0, m0, T, mem[..]);
          RootsDoneStay(L, T0, m0, marked0, T, mem[..], marked, table[..i], all);
          BroughtTrans(L, old(T), T0, T, D, {c});
          assert table[i] in table[..];
          assert D + {c} == D;
        }
        assert table[..i + 1] == table[..i] + [table[i]];
      }
      assert table[..table.Length] == table[..];
    }

    /** `scan_static_objects`: scans the static objects of a generation. */
    method ScanStatics(statics: seq<int>, to: int) returns (to1: int)
      requires Collecting() && to == L.start + T.used && StaticsScannable(L, T, statics)
      modifies mem, this`T, this`marked
      ensures Collecting() && to1 == L.start + T.used
      ensures Evolves(L, old(T), old(mem[..]), T, mem[..]) && marked <= old(marked) && SameRings(old(T), T)
      ensures StaticsDone(L, T, mem[..], marked, statics) && Brought(L, old(T), T, ObjectCells(L, statics))
    {
      hide Inv, Core, L.ObjectsOk, L.SpacesOk, L.WordsFit, InverseOk, WholeOk, RingsOk, ReachOk, Evolves, Done, Region,
        DoneIn, Brought, ObjectCells, RegionCells;
      to1 := to;
      EvolvesRefl(L, T, mem[..]);
      BroughtNone(L, T, T, ObjectCells(L, statics));
      assert StaticsDone(L, T, mem[..], marked, statics[..0]);
      for i := 0 to |statics|
        invariant Collecting() && to1 == L.start + T.used && StaticsScannable(L, T, statics)
        invariant Evolves(L, old(T), old(mem[..]), T, mem[..]) && marked <= old(marked) && SameRings(old(T), T)
        invariant StaticsDone(L, T, mem[..], marked, statics[..i]) && Brought(L, old(T), T, ObjectCells(L, statics))
      {
        ghost var T0, m0, marked0 := T, mem[..], marked;
        InvParts(L, T, mem[..]);
        var base := statics[i];
        StaticBase(L, T, mem[..], base);
        assert mem[base] == At(mem[..], base);
        to1 := ScanRegion(base, base + Footprint(mem[base]), to1);
        InvParts(L, T, mem[..]);
        EvolvesTrans(L, old(T), old(mem[..]), T0, m0, T, mem[..]);
        StaticsMore(L, T0, m0, marked0, T, mem[..], marked, statics, i);
        StaticCells(L, statics, base);
        BroughtMore(L, T0, T, RegionCells(L, base, base + Footprint(L.Was(base))), ObjectCells(L, statics));
        BroughtTrans(L, old(T), T0, T, ObjectCells(L, statics), ObjectCells(L, statics));
        assert ObjectCells(L, statics) + ObjectCells(L, statics) == ObjectCells(L, statics);
      }
      assert statics[..|statics|] == statics;
    }

    // ---- The first two phases of a collection ----

    ghost predicate Phase()
      reads this, mem
    {
      && Collecting() && Listing() && AgeingOk(L, ages, oldGen, newGen)
      && Progress(L, ages, T, mem[..], marked, home0, home, newGen, fixed, filed)
      && Entered(L, home0, young)
    }

    /** The lists of the generations `rest`, whose turn is still to come, are those of the start with arrays in front
        that have been handled. */
    ghost predicate Waiting(rest: set<int>)
      reads this`lists, this`lists0, this`filed, this`L
    {
      && AllArrays(L, filed)
      && forall g :: g in rest ==> g in lists && g in lists0 && InFront(lists0[g], lists[g], filed)
    }

    /** The cells that were done before, and those of handled arrays. */
    ghost function FixedSoFar(): set<int>
      reads this`fixed, this`filed, this`L
    {
      fixed + ObjectCells(L, filed)
    }

    /** Just the objects have been copied to which a cell leads that has been fixed. */
    ghost predicate Exact()
      reads this`T, this`fixed, this`filed, this`L
    {
      JustBrought(L, T, FixedSoFar())
    }

    lemma PhaseParts()
      requires Phase()
      ensures Collecting() && Inv(L, T, mem[..]) && L.ObjectsOk() && L.SpacesOk() && FwdOk(L, T)
    {
      hide Inv, Core;
      InvParts(L, T, mem[..]);
    }

    /** Fixes the roots of the table. */
    method RootsPhase(table: array<Entry>, all: bool, to: int) returns (to1: int)
      requires Phase() && to == L.start + T.used && RootsFixable(table)
      modifies mem, this`T, this`marked, this`fixed
      ensures Phase() && to1 == L.start + T.used && fixed == old(fixed) + TableCells(table[..], all)
      ensures Evolves(L, old(T), old(mem[..]), T, mem[..]) && marked <= old(marked)
      ensures old(Exact()) ==> Exact()
    {
      hide Inv, Core, L.ObjectsOk, L.SpacesOk, L.WordsFit, InverseOk, WholeOk, RingsOk, ListsOk, AgeingOk, Evolves,
        Progress, Entered, RootsDone, TableCells, Brought, JustBrought, ObjectCells;
      ghost var T0, m0, marked0 := T, mem[..], marked;
      InvParts(L, T, mem[..]);
      to1 := FixCRoots(table, all, to);
      TableDone(L, T, mem[..], marked, table[..], all);
      PhaseStays(T0, m0, marked0, TableCells(table[..], all));
      fixed := fixed + TableCells(table[..], all);
      StillExact(T0, old(fixed), TableCells(table[..], all));
    }

    /** Objects that the cells `D` led to were copied, which count as fixed now. */
    lemma StillExact(T0: Trail, fixed0: set<int>, D: set<int>)
      requires Brought(L, T0, T, D) && fixed == fixed0 + D
      ensures JustBrought(L, T0, fixed0 + ObjectCells(L, filed)) ==> Exact()
    {
      hide Brought, JustBrought, ObjectCells;
      if JustBrought(L, T0, fixed0 + ObjectCells(L, filed)) {
        JustBroughtMore(L, T0, T, fixed0 + ObjectCells(L, filed), D);
        assert fixed0 + ObjectCells(L, filed) + D == FixedSoFar();
      }
    }

    /** Fixing more cells keeps what the phase has achieved. */
    lemma PhaseStays(T0: Trail, m0: seq<Word>, marked0: set<int>, D: set<int>)
      requires Inv(L, T0, m0) && ListsOk(L, T0, lists, home)
      requires Progress(L, ages, T0, m0, marked0, home0, home, newGen, fixed, filed)
      requires SameRings(T0, T)
      requires Evolves(L, T0, m0, T, mem[..]) && marked <= marked0 && DoneAll(L, T, mem[..], marked, D) && CellSet(L, D)
      ensures Listing()
      ensures Progress(L, ages, T, mem[..], marked, home0, home, newGen, fixed + D, filed)
    {
      hide Inv, Core, L.ObjectsOk, L.SpacesOk, L.WordsFit, InverseOk, WholeOk, RingsOk, ListsOk, Evolves, Progress,
        HomeFrame;
      InvParts(L, T0, m0);
      ListsSame(L, T0, T, lists, home);
      ProgressStays(L, ages, T0, m0, marked0, T, mem[..], marked, home0, home, newGen, fixed, filed, D);
    }

    /** Scans the static objects of the generation `g`. */
    method StaticsPhase(g: int, to: int) returns (to1: int)
      requires Phase() && to == L.start + T.used && g in ages.gens && StaticsScannable(L, T, ages.gens[g].statics)
      modifies mem, this`T, this`marked, this`fixed
      ensures Phase() && to1 == L.start + T.used && fixed == old(fixed) + ObjectCells(L, ages.gens[g].statics)
      ensures Evolves(L, old(T), old(mem[..]), T, mem[..]) && marked <= old(marked)
      ensures old(Exact()) ==> Exact()
    {
      hide Inv, Core, L.ObjectsOk, L.SpacesOk, L.WordsFit, InverseOk, WholeOk, RingsOk, ListsOk, AgeingOk, Evolves,
        Progress, Entered, StaticsDone, ObjectCells, Brought, JustBrought;
      ghost var T0, m0, marked0 := T, mem[..], marked;
      to1 := ScanStatics(ages.gens[g].statics, to);
      ObjectsDone(L, T, mem[..], marked, ages.gens[g].statics);
      PhaseStays(T0, m0, marked0, ObjectCells(L, ages.gens[g].statics));
      fixed := fixed + ObjectCells(L, ages.gens[g].statics);
      StillExact(T0, old(fixed), ObjectCells(L, ages.gens[g].statics));
    }

    /** Scans the space of the generation `g`. */
    method RegionPhase(g: int, to: int) returns (to1: int)
      requires Phase() && to == L.start + T.used && g in ages.gens && GenScannable(L, ages, T, g)
      modifies mem, this`T, this`marked, this`fixed
      ensures Phase() && to1 == L.start + T.used
      ensures fixed == old(fixed) + RegionCells(L, ages.gens[g].start, ages.gens[g].top)
      ensures Evolves(L, old(T), old(mem[..]), T, mem[..]) && marked <= old(marked)
      ensures old(Exact()) ==> Exact()
    {
      hide Inv, Core, L.ObjectsOk, L.SpacesOk, L.WordsFit, InverseOk, WholeOk, RingsOk, ListsOk, AgeingOk, Evolves,
        Progress, Entered, DoneIn, RegionCells, Region, OutsideToSpace, Brought, JustBrought, ObjectCells;
      ghost var T0, m0, marked0, lo, hi := T, mem[..], marked, ages.gens[g].start, ages.gens[g].top;
      InvParts(L, T, mem[..]);
      to1 := ScanRegion(ages.gens[g].start, ages.gens[g].top, to);
      InvParts(L, T, mem[..]);
      RegionStays(L, T0, T, lo, hi);
      RegionDone(L, T, mem[..], marked, lo, hi);
      PhaseStays(T0, m0, marked0, RegionCells(L, lo, hi));
      fixed := fixed + RegionCells(L, lo, hi);
      StillExact(T0, old(fixed), RegionCells(L, lo, hi));
    }

    /** Fixes the entry list of the generation `g`, whose turn comes when the cells `D` have been fixed. */
    method ListPhase(g: int, to: int, ghost s0: seq<int>, ghost D: set<int>, ghost G: set<int>, ghost rest: set<int>)
      returns (to1: int, lost: bool)
      requires g in lists0 && lists0[g] == s0 && g in ages.gens && g in young && g !in rest && G <= young
      requires Phase() && to == L.start + T.used && Picked(home0, filed, G)
      requires Waiting(rest + {g}) && D == FixedSoFar() && Exact()
      modifies mem, this`T, this`marked, this`lists, this`home, this`filed
      ensures lost <==> !Timely(L, D, s0)
      ensures !lost ==> Phase() && to1 == L.start + T.used && Picked(home0, filed, G + {g}) && Waiting(rest)
      ensures !lost ==> FixedSoFar() == D + ObjectCells(L, s0) && Exact()
      ensures !lost ==> Evolves(L, old(T), old(mem[..]), T, mem[..]) && marked <= old(marked)
    {
      hide Inv, Core, L.ObjectsOk, L.SpacesOk, L.WordsFit, InverseOk, WholeOk, RingsOk, ListsOk, AgeingOk, AgesOk,
        Evolves, Entered, HandledAll, HomeFrame, InTurn, Picked, DoneAll, CellSet, Timely, Waiting, Joined, OpenArrays,
        Brought, JustBrought, ObjectCells, Progress;
      ghost var T0, m0, marked0, home1, s := T, mem[..], marked, home, lists;
      InvParts(L, T, mem[..]);
      AgeingAges(L, ages, oldGen, newGen);
      GenListed(L, ages, T, lists, home, g);
      ListReady(g, D, G, rest);
      PickMore(L, T, lists, home0, home, filed, G, g);
      to1, lost := FixEntryList(g, to);
      if !lost {
        ListFixed(T0, m0, marked0, home1, s[g]);
        filed := filed + s[g];
        WaitingOn(old(filed), s, g, rest);
        ListExact(T0, old(filed), s[g]);
      }
    }

    /** What fixing a list adds to what the phase has achieved. */
    lemma ListFixed(T0: Trail, m0: seq<Word>, marked0: set<int>, home1: map<int, int>, t: seq<int>)
      requires Inv(L, T0, m0) && Progress(L, ages, T0, m0, marked0, home0, home1, newGen, fixed, filed)
      requires Evolves(L, T0, m0, T, mem[..]) && marked <= marked0
      requires HandledAll(L, ages, T, mem[..], marked, home, newGen, t) && HomeFrame(L, home1, home, t)
      ensures Progress(L, ages, T, mem[..], marked, home0, home, newGen, fixed, filed + t)
    {
      hide Inv, Core, L.ObjectsOk, L.SpacesOk, InverseOk, WholeOk, Evolves, HandledAll, HomeFrame, Progress;
      InvParts(L, T0, m0);
      ProgressList(L, ages, T0, m0, marked0, T, mem[..], marked, home0, home1, home, newGen, fixed, filed, t);
    }

    lemma ListExact(T0: Trail, P: seq<int>, t: seq<int>)
      requires JustBrought(L, T0, fixed + ObjectCells(L, P)) && Brought(L, T0, T, ObjectCells(L, t)) && filed == P + t
      ensures Exact()
    {
      hide Brought, JustBrought, ObjectCells;
      JustBroughtMore(L, T0, T, fixed + ObjectCells(L, P), ObjectCells(L, t));
      CellsOfBoth(L, P, t);
      assert fixed + ObjectCells(L, P) + ObjectCells(L, t) == FixedSoFar();
    }

    lemma ListReady(g: int, D: set<int>, G: set<int>, rest: set<int>)
      requires Phase() && g in young && Picked(home0, filed, G) && G <= young && g in lists && Waiting(rest + {g})
      requires D == FixedSoFar() && Exact() && g in lists0
      ensures OpenArrays(L, lists[g]) && AllArrays(L, lists[g]) && InFront(lists0[g], lists[g], filed)
      ensures InTurn(L, T, lists[g], |lists[g]|) <==> Timely(L, D, lists0[g])
      ensures AllArrays(L, filed) && HomeFrame(L, home0, home, filed)
      ensures forall h :: h in rest ==> h in lists && h in lists0 && InFront(lists0[h], lists[h], filed)
    {
      hide Inv, ListsOk, AgeingOk, InTurn, Timely, Spared, Typed, JustBrought, FixableArray, InFront, HandledAll,
        DoneAll, HomeFrame;
      ListArrays(g);
      TimelyIffInTurn(L, ages, T, mem[..], marked, home0, home, newGen, fixed, filed, lists0[g], lists[g]);
      forall b | b in lists[g] && OrdinaryHeader(L.Was(b)) ensures FixableArray(L, b) {
        ArrayEntered(G, b);
      }
    }

    lemma ArrayEntered(G: set<int>, b: int)
      requires Progress(L, ages, T, mem[..], marked, home0, home, newGen, fixed, filed) && Entered(L, home0, young)
      requires Picked(home0, filed, G) && G <= young && b in home && home[b] in young && OrdinaryHeader(L.Was(b))
      ensures FixableArray(L, b)
    {
      hide HandledAll, DoneAll, FixableArray;
      if b !in filed {
        assert SameHome(home0, home, b);
      }
    }

    /** The lists that still wait for their turn only gain arrays in front. */
    lemma WaitingOn(P: seq<int>, s: map<int, seq<int>>, g: int, rest: set<int>)
      requires g in s && filed == P + s[g] && Joined(s, lists, g, s[g]) && g !in rest && g in lists0
      requires AllArrays(L, P) && AllArrays(L, s[g]) && InFront(lists0[g], s[g], P)
      requires forall h :: h in rest ==> h in s && h in lists0 && InFront(lists0[h], s[h], P)
      ensures Waiting(rest) && ObjectCells(L, filed) == ObjectCells(L, P) + ObjectCells(L, lists0[g])
    {
      hide ObjectCells;
      forall h | h in rest ensures h in lists && InFront(lists0[h], lists[h], filed) {
        InFrontTrans(lists0[h], s[h], lists[h], P, s[g]);
      }
      FrontCells(L, lists0[g], s[g], P);
      CellsOfBoth(L, P, s[g]);
    }

    /** Scans to-space from `start` on. */
    method ScanPhase(start: int, to: int) returns (to1: int)
      requires Phase() && to == L.start + T.used && Boundary(L, T, start)
      modifies mem, this`T, this`marked
      ensures Phase() && to1 == L.start + T.used && DoneIn(L, T, mem[..], marked, start, to1)
      ensures Evolves(L, old(T), old(mem[..]), T, mem[..]) && marked <= old(marked)
    {
      hide Inv, Core, L.ObjectsOk, L.SpacesOk, L.WordsFit, InverseOk, WholeOk, RingsOk, ListsOk, AgeingOk, Evolves,
        Progress, Entered,
        DoneIn, Boundary;
      ghost var T0, m0, marked0 := T, mem[..], marked;
      to1 := ScanTo(start, to);
      NoCells(L, T, mem[..], marked);
      PhaseStays(T0, m0, marked0, {});
      assert fixed + {} == fixed;
    }

    /** What a collection needs to know of the generation it collects and of the younger ones. */
    ghost predicate Scannable(S: Setting)
      reads this
    {
      && S.L == L && S.ages == ages && ChainOk(ages, S.from, S.younger) && ages.gens[S.from].statics == S.Statics()
      && StaticsScannable(L, T, S.Statics()) && GensScannable(L, ages, T, S.younger)
      && young == S.Young()
    }

    /** Fixes what one younger generation refers to. */
    method GenerationPhase(gen: int, to: int, ghost s0: seq<int>, ghost D: set<int>, ghost G: set<int>,
                           ghost rest: set<int>) returns (to1: int, lost: bool)
      requires gen in lists0 && lists0[gen] == s0 && gen in ages.gens && gen in young && gen !in rest && G <= young
      requires Phase() && to == L.start + T.used && GenScannable(L, ages, T, gen)
      requires Picked(home0, filed, G) && Waiting(rest + {gen})
      requires D == FixedSoFar() + GenCells(L, ages, gen) && Exact()
      modifies mem, this`T, this`marked, this`lists, this`home, this`filed, this`fixed
      ensures lost <==> !Timely(L, D, s0)
      ensures !lost ==> Phase() && to1 == L.start + T.used && fixed == old(fixed) + GenCells(L, ages, gen)
      ensures !lost ==> Evolves(L, old(T), old(mem[..]), T, mem[..]) && marked <= old(marked)
      ensures !lost ==> Picked(home0, filed, G + {gen}) && Waiting(rest)
      ensures !lost ==> FixedSoFar() == D + ObjectCells(L, s0) && Exact()
    {
      hide Inv, Core, L.ObjectsOk, L.SpacesOk, L.WordsFit, InverseOk, WholeOk, RingsOk, ListsOk, AgeingOk, AgesOk,
        Evolves, Entered, Progress, Picked, RegionCells, ObjectCells, GenScannable, Waiting, Timely, JustBrought;
      ghost var T0, m0 := T, mem[..];
      GenScannableStatics(L, ages, T, gen);
      InvParts(L, T, mem[..]);
      to1 := RegionPhase(gen, to);
      ghost var T1, m1 := T, mem[..];
      InvParts(L, T1, m1);
      StaticsScannableStay(L, T0, T1, ages.gens[gen].statics);
      to1 := StaticsPhase(gen, to1);
      ghost var T2, m2 := T, mem[..];
      InvParts(L, T2, m2);
      assert FixedSoFar() == D;
      to1, lost := ListPhase(gen, to1, s0, D, G, rest);
      if !lost {
        EvolvesTrans(L, T0, m0, T1, m1, T2, m2);
        EvolvesTrans(L, T0, m0, T2, m2, T, mem[..]);
      }
    }

    /** The generations whose lists have been gone through when those of `S.from` and of the first `i` younger ones have
        been, and those whose lists have not. */
    ghost function Gone(S: Setting, i: nat): set<int>
      requires i <= |S.younger|
    {
      {S.from} + Elements(S.younger[..i])
    }

    ghost function Left(S: Setting, i: nat): set<int>
      requires i <= |S.younger|
    {
      Elements(S.younger[i..])
    }

    lemma GoneMore(S: Setting, i: nat)
      requires i < |S.younger| && ChainOk(ages, S.from, S.younger)
      ensures Gone(S, i + 1) == Gone(S, i) + {S.younger[i]} && Left(S, i) == Left(S, i + 1) + {S.younger[i]}
      ensures S.younger[i] !in Left(S, i + 1) && S.younger[i] in S.Young() && Gone(S, i) <= S.Young()
    {
      hide ChainOk;
      LaterOthers(S, i);
      assert S.younger[..i + 1] == S.younger[..i] + [S.younger[i]];
      assert S.younger[i..] == [S.younger[i]] + S.younger[i + 1..];
      assert S.younger == S.younger[..i] + S.younger[i..];
    }

    lemma LaterOthers(S: Setting, i: nat)
      requires i < |S.younger| && ChainOk(ages, S.from, S.younger)
      ensures S.younger[i] !in S.younger[i + 1..]
    {
      var later := S.younger[i + 1..];
      forall j | 0 <= j < |later| ensures later[j] != S.younger[i] {
        assert ages.Number(S.younger[i + 1 + j]) == ages.Number(S.from) - 1 - (i + 1 + j);
      }
    }

    /** What has been fixed when the turn of a younger generation comes. */
    lemma TurnComes(S: Setting, i: nat)
      requires i < |S.younger| && S.L == L && S.ages == ages && S.younger[i] in lists0
      ensures Early(S, lists0, i + 1) == Passed(S, lists0, i) + GenCells(L, ages, S.younger[i])
      ensures Passed(S, lists0, i + 1) == Early(S, lists0, i + 1) + ObjectCells(L, lists0[S.younger[i]])
    {
      hide GenCells, ObjectCells;
      PassedNext(S, lists0, i + 1);
    }

    lemma PassedNext(S: Setting, lists1: map<int, seq<int>>, i: nat)
      requires 0 < i <= |S.younger| && S.younger[i - 1] in lists1
      ensures Passed(S, lists1, i) == Early(S, lists1, i) + ObjectCells(S.L, lists1[S.younger[i - 1]])
    {
      hide Early;
    }

    /** The lists of the first `i` younger generations are fixed in time. */
    ghost predicate TimelySoFar(S: Setting, i: nat)
      requires i <= |S.younger|
      reads this`lists0
    {
      forall j :: 0 <= j < i ==> S.younger[j] in lists0 && Timely(S.L, Early(S, lists0, j + 1), lists0[S.younger[j]])
    }

    /** Fixes all that younger generations refer to. */
    method YoungerPhase(from: int, to: int, ghost S: Setting) returns (to1: int, lost: bool)
      requires Phase() && to == L.start + T.used && Scannable(S) && S.from == from && Picked(home0, filed, {from})
      requires Waiting(Elements(S.younger)) && Passed(S, lists0, 0) == FixedSoFar() && Exact()
      modifies mem, this`T, this`marked, this`lists, this`home, this`filed, this`fixed
      ensures lost <==> !TimelySoFar(S, |S.younger|)
      ensures !lost ==> Phase() && to1 == L.start + T.used && old(fixed) <= fixed
      ensures !lost ==> GensFixed(L, ages, fixed, S.younger)
      ensures !lost ==> Picked(home0, filed, young)
      ensures !lost ==> Evolves(L, old(T), old(mem[..]), T, mem[..]) && marked <= old(marked)
    {
      hide Inv, Core, L.ObjectsOk, L.SpacesOk, L.WordsFit, InverseOk, WholeOk, RingsOk, ListsOk, AgeingOk, AgesOk,
        Evolves, Entered, Progress, Picked, RegionCells, ObjectCells, GenScannable, ChainOk, GensScannable, GensFixed,
        Spared, Phase, Waiting, Timely, FixedSoFar, Passed, Early, JustBrought, Exact;
      to1, lost := to, false;
      EvolvesRefl(L, T, mem[..]);
      ghost var i := 0;
      NoGensFixed(L, ages, fixed);
      assert S.younger[..0] == [] && S.younger[0..] == S.younger;
      ChainStep(ages, from, S.younger, 0);
      assert Gone(S, 0) == {from};
      var gen := ages.gens[from].child;
      while gen != 0
        invariant 0 <= i <= |S.younger| && gen == Nth(S.younger, i) && !lost
        invariant Phase() && to1 == L.start + T.used && GensScannable(L, ages, T, S.younger)
        invariant old(fixed) <= fixed && GensFixed(L, ages, fixed, S.younger[..i]) && TimelySoFar(S, i)
        invariant Picked(home0, filed, Gone(S, i)) && Waiting(Left(S, i)) && Passed(S, lists0, i) == FixedSoFar()
        invariant Evolves(L, old(T), old(mem[..]), T, mem[..]) && marked <= old(marked) && Exact()
        decreases |S.younger| - i
      {
        ghost var T0, m0, D := T, mem[..], fixed;
        PhaseParts();
        ChainStep(ages, from, S.younger, i);
        GensScannableAt(L, ages, T, S.younger, i);
        GoneMore(S, i);
        WaitingHas(S, i);
        TurnComes(S, i);
        to1, lost := GenerationPhase(gen, to1, lists0[gen], Early(S, lists0, i + 1), Gone(S, i), Left(S, i + 1));
        if lost {
          return;
        }
        PhaseParts();
        EvolvesTrans(L, old(T), old(mem[..]), T0, m0, T, mem[..]);
        GensScannableStay(L, ages, T0, T, S.younger);
        GensFixedMore(L, ages, D, fixed, S.younger, i);
        gen := ages.gens[gen].child;
        i := i + 1;
      }
      ChainStep(ages, from, S.younger, i);
      assert S.younger[..i] == S.younger;
    }

    lemma WaitingHas(S: Setting, i: nat)
      requires i < |S.younger| && Waiting(Left(S, i))
      ensures S.younger[i] in lists0
    {
      assert S.younger[i..][0] == S.younger[i];
    }

    /** The first phase: everything that an image needs. */
    method FirstPhase(from: int, start: int, table: array<Entry>, ghost S: Setting) returns (to1: int, lost: bool)
      requires Phase() && start == L.start && T.used == 0 && Scannable(S) && S.from == from
      requires filed == [] && fixed == {}
      requires RootsFixable(table) && S.table == table[..] && lists0 == lists
      modifies mem, this`T, this`marked, this`lists, this`home, this`filed, this`fixed
      ensures lost <==> !OnTime(S, lists0)
      ensures !lost ==> Phase() && to1 == L.start + T.used && TableCells(table[..], false) <= fixed
      ensures !lost ==> ObjectCells(L, S.Statics()) <= fixed && GensFixed(L, ages, fixed, S.younger)
      ensures !lost ==> Picked(home0, filed, young) && DoneIn(L, T, mem[..], marked, start, to1)
      ensures !lost ==> Evolves(L, old(T), old(mem[..]), T, mem[..]) && marked <= old(marked)
    {
      hide Inv, Core, L.ObjectsOk, L.SpacesOk, L.WordsFit, InverseOk, WholeOk, RingsOk, ListsOk, AgeingOk, AgesOk,
        Evolves, Entered, Progress, RegionCells, ObjectCells, GenScannable, ChainOk, TableCells, Boundary, DoneIn,
        GensFixed, Phase, Collecting, Picked, Waiting, OnTime, Timely, Passed, Early, JustBrought, TimelySoFar, Exact;
      ghost var T0, m0 := T, mem[..];
      PhaseParts();
      ListsWait(S);
      TimelyIffOnTime(S);
      to1, lost := FirstLists(from, start, table, S);
      if lost {
        return;
      }
      ghost var T3, m3 := T, mem[..];
      PhaseParts();
      GensScannableStay(L, ages, T0, T3, S.younger);
      to1, lost := YoungerPhase(from, to1, S);
      if lost {
        return;
      }
      ghost var T4, m4 := T, mem[..];
      PhaseParts();
      StartBoundary(L, T);
      to1 := ScanPhase(start, to1);
      PhaseParts();
      EvolvesTrans(L, T0, m0, T3, m3, T4, m4);
      EvolvesTrans(L, T0, m0, T4, m4, T, mem[..]);
    }

    /** Fixes the roots that count for images and what the generation itself refers to. */
    method FirstLists(from: int, start: int, table: array<Entry>, ghost S: Setting) returns (to1: int, lost: bool)
      requires Phase() && start == L.start && T.used == 0 && Scannable(S) && S.from == from
      requires filed == [] && fixed == {}
      requires RootsFixable(table) && S.table == table[..] && lists0 == lists && S.from in lists0
      requires Waiting(Elements(S.younger) + {S.from}) && S.from !in Elements(S.younger)
      modifies mem, this`T, this`marked, this`lists, this`home, this`filed, this`fixed
      ensures lost <==> !Timely(L, Early(S, lists0, 0), lists0[S.from])
      ensures !lost ==> Phase() && to1 == L.start + T.used && TableCells(table[..], false) <= fixed
      ensures !lost ==> ObjectCells(L, S.Statics()) <= fixed && Picked(home0, filed, {from})
      ensures !lost ==> Waiting(Elements(S.younger)) && Passed(S, lists0, 0) == FixedSoFar() && Exact()
      ensures !lost ==> Evolves(L, old(T), old(mem[..]), T, mem[..]) && marked <= old(marked)
    {
      hide Inv, Core, L.ObjectsOk, L.SpacesOk, L.WordsFit, InverseOk, WholeOk, RingsOk, ListsOk, AgeingOk, AgesOk,
        Evolves, Entered, Progress, RegionCells, ObjectCells, GenScannable, ChainOk, TableCells, Boundary, DoneIn,
        GensFixed, Phase, Collecting, Picked, Waiting, OnTime, Timely, Passed, Early, JustBrought, Exact;
      ghost var T0, m0 := T, mem[..];
      PhaseParts();
      NonePicked(home0);
      NothingBrought();
      ChainStep(ages, from, S.younger, 0);
      FirstTurn(S);
      to1 := RootsPhase(table, false, start);
      ghost var T1, m1 := T, mem[..];
      PhaseParts();
      to1, lost := ListPhase(from, to1, lists0[from], Early(S, lists0, 0), {}, Elements(S.younger));
      if lost {
        return;
      }
      assert {} + {from} == {from};
      ghost var T2, m2 := T, mem[..];
      PhaseParts();
      StaticsScannableStay(L, T0, T2, ages.gens[from].statics);
      to1 := StaticsPhase(from, to1);
      PhaseParts();
      EvolvesTrans(L, T0, m0, T1, m1, T2, m2);
      EvolvesTrans(L, T0, m0, T2, m2, T, mem[..]);
    }

    /** Before anything has been copied, just nothing has been. */
    lemma NothingBrought()
      requires Collecting() && T.used == 0
      ensures Exact()
    {
      hide Core;
      InvParts(L, T, mem[..]);
    }

    /** At the start all lists wait for their turn. */
    lemma ListsWait(S: Setting)
      requires Phase() && lists0 == lists && filed == [] && S.ages == ages && S.L == L
      requires ChainOk(ages, S.from, S.younger)
      ensures Waiting(Elements(S.younger) + {S.from}) && S.from !in Elements(S.younger) && S.from in lists0
      ensures forall g :: g in S.younger ==> g in lists0
    {
      hide Inv, Progress, Entered, Spared, Typed;
      AgeingAges(L, ages, oldGen, newGen);
      forall g | g in ages.gens ensures g in lists {
        GenListed(L, ages, T, lists, home, g);
      }
    }

    lemma FirstTurn(S: Setting)
      requires S.L == L && S.from in lists0
      ensures ObjectCells(L, []) == {}
      ensures Early(S, lists0, 0) == TableCells(S.table, false)
      ensures Passed(S, lists0, 0) ==
              Early(S, lists0, 0) + ObjectCells(L, lists0[S.from]) + ObjectCells(L, S.Statics())
    {
      hide TableCells;
      assert ObjectCells(L, []) == {};
    }

    lemma TimelyIffOnTime(S: Setting)
      requires S.L == L && S.from in lists0 && forall g :: g in S.younger ==> g in lists0
      ensures OnTime(S, lists0) <==>
              Timely(L, Early(S, lists0, 0), lists0[S.from]) && TimelySoFar(S, |S.younger|)
    {
      hide Timely, Early;
      assert Turn(S, 0) == S.from;
      forall j | 0 <= j < |S.younger| ensures Turn(S, j + 1) == S.younger[j] && S.younger[j] in lists0 {
      }
      if Timely(L, Early(S, lists0, 0), lists0[S.from]) && TimelySoFar(S, |S.younger|) {
        forall i | 0 <= i <= |S.younger|
          ensures Turn(S, i) in lists0 && Timely(S.L, Early(S, lists0, i), lists0[Turn(S, i)])
        {
          if i > 0 {
            assert S.younger[i - 1] in lists0 && Timely(S.L, Early(S, lists0, i - 1 + 1), lists0[S.younger[i - 1]]);
          }
        }
      }
    }

    /** The second phase: the remaining roots. */
    method SecondPhase(to: int, table: array<Entry>) returns (to1: int)
      requires Phase() && to == L.start + T.used && RootsFixable(table) && DoneIn(L, T, mem[..], marked, L.start, to)
      modifies mem, this`T, this`marked, this`fixed
      ensures Phase() && to1 == L.start + T.used && fixed == old(fixed) + TableCells(table[..], true)
      ensures DoneIn(L, T, mem[..], marked, L.start, to1)
      ensures Evolves(L, old(T), old(mem[..]), T, mem[..]) && marked <= old(marked)
    {
      hide Inv, Core, L.ObjectsOk, L.SpacesOk, L.WordsFit, InverseOk, WholeOk, RingsOk, ListsOk, AgeingOk, AgesOk,
        Evolves, Entered, Progress,
        TableCells, Boundary, DoneIn, SlotIn, HandledAll, DoneAll, CellSet, Grows, Phase, Collecting;
      ghost var T0, m0, marked0 := T, mem[..], marked;
      PhaseParts();
      StartBoundary(L, T);
      to1 := RootsPhase(table, true, to);
      ghost var T1, m1 := T, mem[..];
      PhaseParts();
      EvolvesGrows(L, T0, m0, T1, m1);
      BoundaryStays(L, T0, T1, to);
      to1 := ScanPhase(to, to1);
      PhaseParts();
      EvolvesTrans(L, T0, m0, T1, m1, T, mem[..]);
      ScannedBoth(L, T0, m0, marked0, T, mem[..], marked, to);
    }

    // ---- Weak arrays ----

    /** The object in from-space that a reference leads to, or a marked entry of it. */
    method FoundObject(value: Word) returns (obj: int)
      requires Core(L, T, mem[..]) && value.Ptr? && L.Type(value.addr) == From && L.Target(value.tag, value.addr)
      ensures FoundFrom(L, T, mem[..], value.tag, value.addr, obj)
    {
      hide Core, L.ObjectsOk, L.SpacesOk, L.WordsFit, InverseOk, WholeOk, RingsOk, ReachOk, InnerEntry, SharedWord,
        FoundFrom;
      obj := value.addr;
      FoundAtOnce(L, T, mem[..], value.tag, obj);
      if value.tag == Pointer {
        obj := SkipZeros(obj);
        assert mem[obj] == At(mem[..], obj);
        if mem[obj].Hdr? && mem[obj].kind == BackPtr {
          FoundCode(L, T, mem[..], obj);
          obj := obj - mem[obj].len / 4;
        }
      }
    }

    /** Steps back over the zero words of a shared closure in from-space. */
    method SkipZeros(start: int) returns (obj: int)
      requires Core(L, T, mem[..]) && L.Type(start) == From && L.Target(Pointer, start)
      ensures 0 <= obj < mem.Length && (mem[obj].Hdr? && mem[obj].kind == BackPtr ==> obj == start)
      ensures mem[obj].Hdr? && mem[obj].kind == BackPtr ==> start != L.own[start] && L.CodeEntry(L.own[start], start)
      ensures !(mem[obj].Hdr? && mem[obj].kind == BackPtr) ==> FoundFrom(L, T, mem[..], Pointer, start, obj)
    {
      hide Core, L.ObjectsOk, L.SpacesOk, L.WordsFit, InverseOk, WholeOk, RingsOk, ReachOk, InnerEntry, FoundFrom;
      obj := start;
      FoundAtOnce(L, T, mem[..], Pointer, start);
      assert mem[obj] == At(mem[..], obj);
      if mem[obj] == Null {
        ghost var b := L.own[start];
        CoreRings(L, T, mem[..]);
        TargetFacts(L, Pointer, start);
        SharedCases(L, T, mem[..], start, obj);
        SharedCases(L, T, mem[..], start, b);
        while mem[obj] == Null
          invariant b <= obj <= start && (obj - b) % 2 == 0 && obj + 1 < mem.Length
          invariant SharedWord(L, T, mem[..], b, start, obj)
          decreases obj
        {
          assert mem[obj] == At(mem[..], obj);
          obj := obj - 2;
          SharedCases(L, T, mem[..], start, obj);
        }
        assert mem[obj] == At(mem[..], obj);
        FoundShared(L, T, mem[..], start, obj);
      }
    }

    /** `weak_fix`: forwards or cuts the weak element at `what`. */
    method WeakFix(what: int, ghost c: int)
      requires Core(L, T, mem[..]) && Typed() && WeakState(L, T, mem[..], marked, settled) && WeakCell(L, c)
      requires what == T.Cur(c)
      modifies mem, this`settled
      ensures Core(L, T, mem[..]) && WeakState(L, T, mem[..], marked, settled) && settled == old(settled) + {c}
      ensures Differ(old(mem[..]), mem[..], what, what) && At(mem[..], what) == WeakResult(L, T, marked, L.Was(c))
      ensures CutOrKept(L, T, marked, L.Was(c), At(mem[..], what))
    {
      hide CutOrKept, Core, L.ObjectsOk, L.SpacesOk, L.WordsFit, InverseOk, WholeOk, RingsOk, ReachOk, InnerEntry,
        WeakState;
      CoreRings(L, T, mem[..]);
      WeakPlace(L, T, mem[..], c);
      ghost var m0 := mem[..];
      var value := mem[what];
      assert value == At(mem[..], what);
      if value.Ptr? && TypeOf(spaceType, value.addr) == MlStatic {
        assert L.Type(value.addr) == MlStatic;
        WeakRead(L, T, mem[..], marked, settled, c);
        var obj := StaticObject(value);
        if obj in marked {
          mem[what] := Dead;
        }
      } else if value.Ptr? && TypeOf(spaceType, value.addr) == From {
        assert L.Type(value.addr) == From;
        WeakRead(L, T, mem[..], marked, settled, c);
        var obj := FoundObject(value);
        assert mem[obj] == At(mem[..], obj) && mem[obj + 1] == At(mem[..], obj + 1);
        if mem[obj] == Evacuated {
          mem[what] := Ptr(mem[obj + 1].tag, mem[obj + 1].addr + (value.addr - obj));
        } else {
          mem[what] := Dead;
        }
      } else {
        WeakSettled(L, T, mem[..], marked, settled, c);
      }
      WeakSays(L, T, m0, marked, c);
      PokeWeak(L, T, m0, mem[..], c);
      WeakMore(L, T, m0, mem[..], marked, settled, c);
      settled := settled + {c};
    }

    /** The state while weak arrays are being dealt with. */
    ghost predicate WeakPhase()
      reads this, mem
    {
      Core(L, T, mem[..]) && Typed() && WeakState(L, T, mem[..], marked, settled) && AgeingOk(L, ages, oldGen, newGen)
    }

    /** Deals with one element of a weak array and finds out how young the object it refers to is. */
    method WeakElement(what: int, youngest: int, ghost b: int, ghost i: int, ghost own: int) returns (y: int)
      requires WeakPhase() && L.Base(b) && WeakHeader(L.Was(b)) && 0 <= i < L.Was(b).len && what == T.Cur(b) + 3 + i
      requires Youngest(L, ages, T, mem[..], b, i, own, youngest)
      modifies mem, this`settled
      ensures WeakPhase() && settled == old(settled) + {b + 3 + i} && WeakOnly(L, T, old(mem[..]), mem[..])
      ensures Youngest(L, ages, T, mem[..], b, i + 1, own, y)
    {
      hide Core, L.ObjectsOk, L.SpacesOk, L.WordsFit, InverseOk, WholeOk, RingsOk, ReachOk, WeakState, AgeingOk, AgesOk,
        Youngest, WeakOnly;
      ghost var c, m0 := b + 3 + i, mem[..];
      CoreRings(L, T, mem[..]);
      WeakCells(L, T, b, c);
      WeakPlace(L, T, mem[..], c);
      AgeingAges(L, ages, oldGen, newGen);
      y := youngest;
      var value := mem[what];
      assert value == At(mem[..], what);
      if value.Ptr? && IsHeapType(TypeOf(spaceType, value.addr)) {
        WeakCollectable(L, T, mem[..], marked, settled, c);
        WeakFix(what, c);
        WeakDiffers(L, T, m0, mem[..], c);
        forall d | b + 3 <= d < b + 3 + i ensures At(mem[..], T.Cur(d)) == At(m0, T.Cur(d)) {
          WeakCells(L, T, b, d);
        }
        YoungestFrame(L, ages, T, m0, T, mem[..], b, i, own, youngest);
        YoungestStep(L, ages, T, mem[..], b, i, own, youngest);
        value := mem[what];
        assert value == At(mem[..], what);
        if value != Dead {
          WeakTarget(L, T, mem[..], marked, settled, c);
          var g := ValueGeneration(value);
          if ages.Number(g) < ages.Number(youngest) {
            y := g;
          }
        }
      } else {
        WeakSettled(L, T, mem[..], marked, settled, c);
        WeakMore(L, T, mem[..], mem[..], marked, settled, c);
        settled := settled + {c};
        NothingWeak(L, T, mem[..]);
        YoungestStep(L, ages, T, mem[..], b, i, own, youngest);
      }
    }

    /** Deals with the elements of the weak array at `arr`. */
    method WeakElements(arr: int, length: nat, own: int, ghost b: int) returns (youngest: int)
      requires WeakPhase() && L.Base(b) && WeakHeader(L.Was(b)) && length == L.Was(b).len && arr == T.Cur(b)
      requires own in ages.gens
      modifies mem, this`settled
      ensures WeakPhase() && settled == old(settled) + Span(b + 3, length) && WeakOnly(L, T, old(mem[..]), mem[..])
      ensures Youngest(L, ages, T, mem[..], b, length, own, youngest) && youngest in ages.gens
    {
      hide WeakPhase, WeakOnly;
      youngest := own;
      NothingWeak(L, T, mem[..]);
      for i := 0 to length
        invariant WeakPhase() && settled == old(settled) + Span(b + 3, i) && WeakOnly(L, T, old(mem[..]), mem[..])
        invariant Youngest(L, ages, T, mem[..], b, i, own, youngest)
      {
        hide Youngest;
        ghost var m0 := mem[..];
        youngest := WeakElement(arr + 3 + i, youngest, b, i, own);
        WeakOnlyTrans(L, T, old(mem[..]), m0, mem[..]);
        SpanMore(b + 3, i);
      }
    }

    /** Deals with the weak array at `arr`, the one at position `k` of the entry list of `gen`. */
    method WeakArrayOnList(gen: int, arr: int, ghost b: int, ghost k: int) returns (next: int)
      requires WeakPhase() && Listing() && arr == T.Cur(b) && b in home && home[b] == gen && gen in lists
      requires 0 <= k < |lists[gen]| && lists[gen][k] == b && WeakHeader(L.Was(b))
      modifies mem, this`T, this`settled, this`lists, this`home
      ensures WeakPhase() && Listing() && SameFw(old(T), T) && WeakOnly(L, T, old(mem[..]), mem[..])
      ensures old(settled) <= settled
      ensures WeakHandled(L, ages, T, mem[..], settled, home, b) && home - {b} == old(home) - {b}
      ensures next == T.Cur(Nth(old(lists)[gen], k + 1, gen))
      ensures gen in lists && (lists[gen] == old(lists)[gen] || lists[gen] == Without(old(lists)[gen], k))
    {
      hide Core, L.ObjectsOk, L.SpacesOk, L.WordsFit, InverseOk, WholeOk, RingsOk, ListsOk, AgeingOk, AgesOk, WeakState,
        WeakOnly, Youngest,
        SameFw, Without, GenAt, Nth, Span, WeakPhase;
      ghost var s := lists[gen];
      WeakParts();
      ListedWords(L, T, mem[..], lists, home, b, k);
      assert mem[arr] == At(mem[..], arr);
      var length := mem[arr].len;
      ArrayType(L, ages, T, b);
      var own := Generation(arr);
      var youngest := WeakElements(arr, length, own, b);
      ghost var T1, m1 := T, mem[..];
      WeakParts();
      ListedWords(L, T, mem[..], lists, home, b, k);
      assert mem[arr + 1] == At(mem[..], arr + 1);
      next := mem[arr + 1].n;
      GenListed(L, ages, T, lists, home, youngest);
      if youngest != gen {
        MoveToList(arr, youngest, b, k);
        WeakMoved(T1, m1);
        ArrayMovedOver(L, ages, T1, m1, T, mem[..], b, own, youngest);
        SameCur(T1, T, Nth(s, k + 1, gen));
        WeakOnlySame(L, T1, T, old(mem[..]), m1);
        WeakOnlyTrans(L, T, old(mem[..]), m1, mem[..]);
      } else {
        SameFwRefl(T);
      }
    }

    lemma WeakParts()
      requires WeakPhase()
      ensures Core(L, T, mem[..]) && Typed() && AgeingOk(L, ages, oldGen, newGen) && AgesOk(L, ages)
      ensures WeakState(L, T, mem[..], marked, settled)
      ensures L.ObjectsOk() && L.SpacesOk() && FwdOk(L, T) && RingsOk(L, T)
    {
      hide Core;
      CoreRings(L, T, mem[..]);
      AgeingAges(L, ages, oldGen, newGen);
    }

    /** Moving an array to another list keeps the state of the weak elements. */
    lemma WeakMoved(T0: Trail, m0: seq<Word>)
      requires Core(L, T, mem[..]) && Typed() && AgeingOk(L, ages, oldGen, newGen)
      requires WeakState(L, T0, m0, marked, settled) && SameFw(T0, T)
      requires forall a {:trigger Kept(L, a)} :: Kept(L, a) ==> At(mem[..], T.Cur(a)) == At(m0, T0.Cur(a))
      ensures WeakPhase() && WeakOnly(L, T, m0, mem[..])
    {
      hide Core, AgeingOk, WeakState, WeakOnly;
      RelinkWeak(L, T0, m0, marked, settled, T, mem[..]);
    }

    /** One turn of the loop of `weak_fix_entry_list`. */
    method WeakNext(gen: int, arr: int, ghost b: int, ghost k: int) returns (next: int)
      requires WeakPhase() && Listing() && arr == T.Cur(b) && b in home && home[b] == gen && gen in lists
      requires 0 <= k < |lists[gen]| && lists[gen][k] == b
      modifies mem, this`T, this`settled, this`lists, this`home
      ensures WeakPhase() && Listing() && SameFw(old(T), T) && WeakOnly(L, T, old(mem[..]), mem[..])
      ensures old(settled) <= settled
      ensures WeakHandled(L, ages, T, mem[..], settled, home, b)
      ensures if WeakHeader(L.Was(b)) then home - {b} == old(home) - {b} else home == old(home)
      ensures next == T.Cur(Nth(old(lists)[gen], k + 1, gen))
      ensures gen in lists && (lists[gen] == old(lists)[gen] || lists[gen] == Without(old(lists)[gen], k))
    {
      hide Core, L.ObjectsOk, L.SpacesOk, L.WordsFit, InverseOk, WholeOk, RingsOk, ListsOk, AgeingOk, AgesOk, WeakState,
        WeakOnly, Youngest,
        SameFw, Without, GenAt, Nth, Span, WeakPhase;
      WeakParts();
      ListedWords(L, T, mem[..], lists, home, b, k);
      assert mem[arr] == At(mem[..], arr) && mem[arr + 1] == At(mem[..], arr + 1);
      if mem[arr].kind == WeakArray {
        next := WeakArrayOnList(gen, arr, b, k);
      } else {
        next := mem[arr + 1].n;
        SameFwRefl(T);
        NothingWeak(L, T, mem[..]);
      }
    }

    /** `weak_fix_entry_list` has gone through the first `k` of the arrays `s` on the list of `gen`, of which
        `kept` are still on it, since the trail was `T0`, the memory `m0` and the lists were `home1`; `W0` had
        been settled before. */
    ghost predicate PartWeak(gen: int, s: seq<int>, kept: seq<int>, k: int, T0: Trail, m0: seq<Word>, W0: set<int>,
                             home1: map<int, int>)
      reads this, mem
    {
      && 0 <= k <= |s| && Distinct(s) && gen in lists && lists[gen] == kept + s[k..]
      && SameFw(T0, T) && WeakOnly(L, T, m0, mem[..]) && W0 <= settled
      && WeakHandledAll(L, ages, T, mem[..], settled, home, s[..k]) && HomeFrame(L, home1, home, s[..k], true)
    }

    /** What one more array adds. */
    lemma WeakMoreDone(gen: int, s: seq<int>, kept: seq<int>, k: int, T0: Trail, m0: seq<Word>, W0: set<int>,
                       home1: map<int, int>, T1: Trail, m1: seq<Word>, W1: set<int>, home2: map<int, int>,
                       lists1: map<int, seq<int>>) returns (kept1: seq<int>)
      requires 0 <= k < |s| && Distinct(s) && gen in lists1 && lists1[gen] == kept + s[k..] && |kept| < |lists1[gen]|
      requires SameFw(T0, T1) && WeakOnly(L, T1, m0, m1) && W0 <= W1 && FwdOk(L, T1) && WeakState(L, T1, m1, marked, W1)
      requires WeakHandledAll(L, ages, T1, m1, W1, home2, s[..k]) && HomeFrame(L, home1, home2, s[..k], true)
      requires WeakPhase() && SameFw(T1, T) && WeakOnly(L, T, m1, mem[..]) && W1 <= settled
      requires WeakHandled(L, ages, T, mem[..], settled, home, s[k])
      requires if WeakHeader(L.Was(s[k])) then home - {s[k]} == home2 - {s[k]} else home == home2
      requires gen in lists && (lists[gen] == lists1[gen] || lists[gen] == Without(lists1[gen], |kept|))
      ensures PartWeak(gen, s, kept1, k + 1, T0, m0, W0, home1)
    {
      hide WeakPhase, FwdOk, WeakState, WeakOnly, SameFw, Without, WeakHandled, WeakHandledAll, HomeFrame, Distinct,
        SameHome;
      KeptStep(s, kept, k);
      kept1 := if lists[gen] == kept + s[k..] then kept + [s[k]] else kept;
      WeakStep(T1, m1, W1, home2, s, k);
      SameFwTrans(T0, T1, T);
      WeakOnlySame(L, T1, T, m0, m1);
      WeakOnlyTrans(L, T, m0, m1, mem[..]);
      FrameMore(L, home1, home2, home, s, k, true);
    }

    /** Deals with the array at which the walk along the list stands. */
    method WeakTurn(gen: int, arr: int, ghost s: seq<int>, ghost kept: seq<int>, ghost k: int, ghost T0: Trail,
                    ghost m0: seq<Word>, ghost W0: set<int>, ghost home1: map<int, int>)
      returns (next: int, ghost kept1: seq<int>)
      requires WeakPhase() && Listing() && PartWeak(gen, s, kept, k, T0, m0, W0, home1) && k < |s| && arr == T.Cur(s[k])
      modifies mem, this`T, this`settled, this`lists, this`home
      ensures WeakPhase() && Listing() && PartWeak(gen, s, kept1, k + 1, T0, m0, W0, home1)
      ensures next == T.Cur(Nth(s, k + 1, gen))
    {
      hide WeakPhase, Listing, WeakState, WeakOnly, SameFw, Without, WeakHandled, WeakHandledAll, HomeFrame, Distinct,
        Core, L.ObjectsOk, L.SpacesOk, InverseOk, WholeOk, RingsOk, AgeingOk, AgesOk, Typed;
      ghost var T1, m1, W1, home2, lists1 := T, mem[..], settled, home, lists;
      WeakParts();
      WeakStands(gen, s, kept, k);
      next := WeakNext(gen, arr, s[k], |kept|);
      SameCurs(T1, T, Nth(s, k + 1, gen));
      kept1 := WeakMoreDone(gen, s, kept, k, T0, m0, W0, home1, T1, m1, W1, home2, lists1);
    }

    lemma WeakBounds(gen: int, s: seq<int>, kept: seq<int>, k: int, T0: Trail, m0: seq<Word>, W0: set<int>,
                     home1: map<int, int>)
      requires PartWeak(gen, s, kept, k, T0, m0, W0, home1)
      ensures 0 <= k <= |s| && gen in lists && lists[gen] == kept + s[k..]
    {
    }

    lemma WeakPartBegins(gen: int)
      requires gen in lists && Distinct(lists[gen])
      ensures PartWeak(gen, lists[gen], [], 0, T, mem[..], settled, home)
    {
      hide SameFw, WeakOnly, WeakHandledAll, HomeFrame, Distinct;
      WeakNone(L, ages, T, mem[..], settled, home);
      SameFwRefl(T);
      NothingWeak(L, T, mem[..]);
    }

    /** `weak_fix_entry_list`: deals with every weak array on the entry list of `gen`. */
    method WeakFixEntryList(gen: int)
      requires WeakPhase() && Listing() && gen in lists
      modifies mem, this`T, this`settled, this`lists, this`home
      ensures WeakPhase() && Listing() && SameFw(old(T), T) && WeakOnly(L, T, old(mem[..]), mem[..])
      ensures old(settled) <= settled
      ensures WeakHandledAll(L, ages, T, mem[..], settled, home, old(lists)[gen])
      ensures HomeFrame(L, old(home), home, old(lists)[gen], true)
    {
      hide WeakPhase, Listing, SameFw, WeakOnly, WeakHandledAll, HomeFrame, Distinct;
      ghost var s, k, kept, T0, m0, W0, home1 := lists[gen], 0, [], T, mem[..], settled, home;
      WeakStart(gen);
      var arr := mem[gen + 1].n;
      WeakPartBegins(gen);
      while arr != gen
        invariant WeakPhase() && Listing() && PartWeak(gen, s, kept, k, T0, m0, W0, home1)
        invariant arr == T.Cur(Nth(s, k, gen)) && (k < |s| <==> arr != gen)
        decreases |s| - k
      {
        hide PartWeak;
        WeakBounds(gen, s, kept, k, T0, m0, W0, home1);
        arr, kept := WeakTurn(gen, arr, s, kept, k, T0, m0, W0, home1);
        k := k + 1;
        WeakBounds(gen, s, kept, k, T0, m0, W0, home1);
        WeakStands(gen, s, kept, k);
      }
      assert s[..k] == s;
    }

    lemma WeakStart(gen: int)
      requires WeakPhase() && Listing() && gen in lists
      ensures 0 < gen && gen + 1 < mem.Length && mem[gen + 1] == Imm(T.Cur(Nth(lists[gen], 0, gen)))
      ensures Distinct(lists[gen])
      ensures T.Cur(Nth(lists[gen], 0, gen)) != gen <==> 0 < |lists[gen]|
    {
      hide Core, ListsOk, WeakPhase;
      WeakParts();
      FirstPlace(L, T, mem[..], lists, home, gen);
      assert mem[gen + 1] == At(mem[..], gen + 1);
      OnList(L, T, mem[..], lists, home, gen, lists[gen], [], 0);
    }

    lemma WeakStands(gen: int, s: seq<int>, kept: seq<int>, k: int)
      requires WeakPhase() && Listing() && gen in lists && 0 <= k <= |s| && lists[gen] == kept + s[k..]
      ensures k < |s| <==> T.Cur(Nth(s, k, gen)) != gen
      ensures k < |s| ==>
              s[k] in home && home[s[k]] == gen && lists[gen][|kept|] == s[k] &&
              Nth(lists[gen], |kept| + 1, gen) == Nth(s, k + 1, gen)
    {
      hide Core, ListsOk, WeakPhase;
      WeakParts();
      OnList(L, T, mem[..], lists, home, gen, s, kept, k);
    }

    lemma WeakStep(T0: Trail, m0: seq<Word>, W0: set<int>, home1: map<int, int>, s: seq<int>, k: int)
      requires WeakPhase() && FwdOk(L, T0) && SameFw(T0, T) && W0 <= settled && Distinct(s) && 0 <= k < |s|
      requires WeakState(L, T0, m0, marked, W0) && WeakHandledAll(L, ages, T0, m0, W0, home1, s[..k])
      requires WeakHandled(L, ages, T, mem[..], settled, home, s[k])
      requires if WeakHeader(L.Was(s[k])) then home - {s[k]} == home1 - {s[k]} else home == home1
      ensures WeakHandledAll(L, ages, T, mem[..], settled, home, s[..k + 1])
    {
      hide Core, WeakPhase, WeakState, WeakHandledAll, WeakHandled, InverseOk, WholeOk, SameFw;
      WeakParts();
      WeakHandledMore(L, ages, T0, m0, marked, W0, home1, T, mem[..], settled, home, s, k);
    }

    /** The weak arrays of `P` have been dealt with, and no other array has changed lists since `home1`. */
    ghost predicate WeakProgress(home1: map<int, int>, P: seq<int>)
      reads this, mem
    {
      WeakPhase() && Listing() && WeakHandledAll(L, ages, T, mem[..], settled, home, P) &&
        HomeFrame(L, home1, home, P, true)
    }

    /** Deals with the weak arrays on the entry list of one more generation. */
    method WeakGeneration(gen: int, ghost home1: map<int, int>, ghost P: seq<int>, ghost G: set<int>)
      returns (ghost P1: seq<int>)
      requires WeakProgress(home1, P) && gen in ages.gens && Picked(home1, P, G)
      modifies mem, this`T, this`settled, this`lists, this`home
      ensures WeakProgress(home1, P1) && Picked(home1, P1, G + {gen})
      ensures SameFw(old(T), T) && WeakOnly(L, T, old(mem[..]), mem[..]) && old(settled) <= settled
    {
      hide Core, L.ObjectsOk, L.SpacesOk, L.WordsFit, InverseOk, WholeOk, RingsOk, ListsOk, AgeingOk, AgesOk, WeakState,
        WeakOnly,
        SameFw, WeakHandledAll, HomeFrame, WeakPhase, Picked, WeakHandled;
      ghost var T0, m0, W0, home2, s := T, mem[..], settled, home, lists;
      WeakParts();
      GenListed(L, ages, T, lists, home, gen);
      PickMore(L, T, lists, home1, home, P, G, gen, true);
      WeakFixEntryList(gen);
      WeakParts();
      P1 := P + s[gen];
      WeakHandledUnion(L, ages, T0, m0, marked, W0, home2, T, mem[..], settled, home1, home, P, s[gen]);
    }

    /** Deals with the weak arrays on the entry lists of `from` and of all younger generations. */
    method WeakGenerations(from: int, ghost younger: seq<int>) returns (ghost P: seq<int>)
      requires WeakPhase() && Listing() && ChainOk(ages, from, younger)
      modifies mem, this`T, this`settled, this`lists, this`home
      ensures WeakProgress(old(home), P) && Picked(old(home), P, {from} + Elements(younger))
      ensures SameFw(old(T), T) && WeakOnly(L, T, old(mem[..]), mem[..]) && old(settled) <= settled
    {
      hide Core, L.ObjectsOk, L.SpacesOk, L.WordsFit, InverseOk, WholeOk, RingsOk, ListsOk, AgeingOk, AgesOk, WeakState,
        WeakOnly,
        SameFw, WeakHandledAll, HomeFrame, WeakPhase, Picked, WeakHandled, ChainOk, WeakProgress, Listing;
      var gen := from;
      ghost var i := -1;
      WeakNone(L, ages, T, mem[..], settled, home);
      SameFwRefl(T);
      NothingWeak(L, T, mem[..]);
      NonePicked(home);
      P := [];
      assert WeakProgress(home, []) by { WeakProgressStarts(); }
      ghost var G: set<int> := {};
      ChainStep(ages, from, younger, 0);
      while gen != 0
        invariant -1 <= i <= |younger| && gen == (if i == -1 then from else Nth(younger, i))
        invariant WeakProgress(old(home), P) && Picked(old(home), P, G)
        invariant G == if i == -1 then {} else {from} + Elements(younger[..i])
        invariant SameFw(old(T), T) && WeakOnly(L, T, old(mem[..]), mem[..]) && old(settled) <= settled
        decreases |younger| - i
      {
        ghost var T0, m0 := T, mem[..];
        if i >= 0 {
          ChainStep(ages, from, younger, i);
        }
        P := WeakGeneration(gen, old(home), P, G);
        SameFwTrans(old(T), T0, T);
        WeakOnlySame(L, T0, T, old(mem[..]), m0);
        WeakOnlyTrans(L, T, old(mem[..]), m0, mem[..]);
        G := G + {gen};
        gen := ages.gens[gen].child;
        i := i + 1;
        assert i > 0 ==> younger[..i] == younger[..i - 1] + [younger[i - 1]];
      }
      ChainStep(ages, from, younger, i);
      assert younger[..i] == younger;
    }

    lemma WeakProgressStarts()
      requires WeakPhase() && Listing()
      ensures WeakProgress(home, [])
    {
      hide WeakPhase, Listing;
      WeakNone(L, ages, T, mem[..], settled, home);
    }

    // ---- Sweeping ----

    /** The state while the entry lists are being swept. */
    ghost predicate SweepPhase()
      reads this, mem
    {
      Core(L, T, tidy) && ListsOk(L, T, lists, home) && Agree(L, T, dropped, mem[..], tidy) && Typed()
    }

    /** Lets the neighbours of the array at `arr` skip it. */
    method SkipArray(arr: int, ghost b: int)
      requires SweepPhase() && arr == T.Cur(b) && b in home
      modifies mem
      ensures b in T.nxt && b in T.prv && b !in L.heads && L.Base(b) && IsArray(L.Was(b))
      ensures Skips(T, old(mem[..]), mem[..], b)
      ensures 0 < arr && arr + 1 < mem.Length && mem[arr + 1] == old(mem[arr + 1])
    {
      hide Core, ListsOk, Agree, RingsOk;
      SweepWords(L, T, dropped, mem[..], tidy, lists, home, b);
      ghost var m0 := mem[..];
      assert mem[arr + 1] == At(m0, arr + 1) && mem[arr + 2] == At(m0, arr + 2);
      var forward, back := mem[arr + 1], mem[arr + 2];
      mem[forward.n + 2] := back;
      mem[back.n + 1] := forward;
    }

    /** Unlinks the array at `arr`. */
    method Drop(arr: int, ghost b: int, ghost k: int)
      requires SweepPhase() && arr == T.Cur(b) && b in home && home[b] in lists
      requires 0 <= k < |lists[home[b]]| && lists[home[b]][k] == b
      modifies mem, this`T, this`lists, this`home, this`tidy, this`dropped
      ensures SweepPhase() && SameFw(old(T), T) && dropped == old(dropped) + {b}
      ensures lists == old(lists)[old(home)[b] := Without(old(lists)[old(home)[b]], k)] && home == old(home) - {b}
      ensures 0 < arr && arr + 1 < mem.Length && mem[arr + 1] == old(mem[arr + 1])
      ensures SameKept(L, old(T), old(tidy), T, tidy)
    {
      hide Core, ListsOk, Agree, RingsOk, Without, Skips;
      ghost var m0 := mem[..];
      SkipArray(arr, b);
      CoreRings(L, T, tidy);
      RemoveLists(L, T, lists, home, home[b], k);
      tidy := Dropped(L, T, dropped, m0, tidy, mem[..], b);
      dropped := dropped + {b};
      lists := lists[home[b] := Without(lists[home[b]], k)];
      home := home - {b};
      RemoveFw(T, b);
      T := Remove(T, b);
    }

    /** Whether the array at `arr` is left behind: in from-space, or a static object still marked. */
    method LeftBehind(arr: int, ghost b: int) returns (doomed: bool)
      requires Typed() && arr == T.Cur(b)
      ensures doomed == Doomed(L, T, marked, b)
    {
      var typ := TypeOf(spaceType, arr);
      doomed := typ == From || (typ == MlStatic && arr in marked);
    }

    /** One turn of the loop of `sweep_entry_lists`. */
    method SweepNext(gen: int, arr: int, ghost b: int, ghost k: int) returns (next: int)
      requires SweepPhase() && arr == T.Cur(b) && b in home && home[b] == gen && gen in lists && 0 <= k < |lists[gen]|
      requires lists[gen][k] == b
      modifies mem, this`T, this`lists, this`home, this`tidy, this`dropped
      ensures SweepPhase() && SameFw(old(T), T) && gen in lists
      ensures lists == old(lists)[gen := if Doomed(L, old(T), marked, b) then Without(old(lists)[gen], k)
              else old(lists)[gen]]
      ensures home == if Doomed(L, old(T), marked, b) then old(home) - {b} else old(home)
      ensures dropped == if Doomed(L, old(T), marked, b) then old(dropped) + {b} else old(dropped)
      ensures next == T.Cur(Nth(old(lists)[gen], k + 1, gen))
      ensures SameKept(L, old(T), old(tidy), T, tidy)
    {
      hide Core, ListsOk, Agree, RingsOk, Without, Doomed, Kept, SameKept;
      SweepWords(L, T, dropped, mem[..], tidy, lists, home, b);
      NextOnList(L, T, lists, home, gen, k);
      assert mem[arr + 1] == At(mem[..], arr + 1);
      ghost var T0, n := T, Nth(lists[gen], k + 1, gen);
      SameFwRefl(T);
      SameKeptRefl(L, T, tidy);
      var doomed := LeftBehind(arr, b);
      if doomed {
        Drop(arr, b, k);
        SameCur(T0, T, n);
      }
      next := mem[arr + 1].n;
    }

    lemma SweepStands(gen: int, s: seq<int>, kept: seq<int>, k: int)
      requires SweepPhase() && gen in lists && 0 <= k <= |s| && lists[gen] == kept + s[k..]
      ensures k < |s| <==> T.Cur(Nth(s, k, gen)) != gen
      ensures k < |s| ==>
              s[k] in home && home[s[k]] == gen && lists[gen][|kept|] == s[k] &&
              Nth(lists[gen], |kept| + 1, gen) == Nth(s, k + 1, gen)
    {
      hide Core, ListsOk, Agree;
      OnList(L, T, tidy, lists, home, gen, s, kept, k);
    }

    lemma SweepBegins(gen: int)
      requires SweepPhase() && gen in lists
      ensures 0 < gen && gen + 1 < mem.Length && mem[gen + 1] == Imm(T.Cur(Nth(lists[gen], 0, gen)))
      ensures Distinct(lists[gen])
    {
      hide Core, ListsOk, Agree;
      SweepStart(L, T, dropped, mem[..], tidy, lists, home, gen);
      assert mem[gen + 1] == At(mem[..], gen + 1);
    }

    /** The first `k` of the arrays `s` on the list of `gen` have been swept, and `kept` of them are still on
        it, since the trail was `T0`, the tidied memory `tidy0` and the lists were `lists0` and `home0`. */
    ghost predicate PartSwept(gen: int, s: seq<int>, kept: seq<int>, k: int, T0: Trail, tidy0: seq<Word>,
                              lists0: map<int, seq<int>>, home0: map<int, int>)
      reads this, mem
    {
      && 0 <= k <= |s| && Distinct(s) && gen in lists && lists == lists0[gen := kept + s[k..]] && SameFw(T0, T)
      && kept == Survivors(L, T, marked, s[..k]) && ListSwept(L, T, marked, home0, home, s[..k])
      && AllDoomed(L, T, marked, dropped) && SameKept(L, T0, tidy0, T, tidy)
    }

    /** What one more array adds. */
    lemma SweepMore(gen: int, s: seq<int>, kept: seq<int>, k: int, T0: Trail, tidy0: seq<Word>,
                    lists0: map<int, seq<int>>, home0: map<int, int>, T1: Trail, tidy1: seq<Word>,
                    lists1: map<int, seq<int>>, home1: map<int, int>,
                    dropped1: set<int>) returns (kept1: seq<int>)
      requires 0 <= k < |s| && Distinct(s) && lists1 == lists0[gen := kept + s[k..]] && SameFw(T0, T1)
      requires |kept| < |lists1[gen]| && lists1[gen][|kept|] == s[k] && s[k] in home1
      requires kept == Survivors(L, T1, marked, s[..k]) && ListSwept(L, T1, marked, home0, home1, s[..k])
      requires AllDoomed(L, T1, marked, dropped1) && SameKept(L, T0, tidy0, T1, tidy1)
      requires SameFw(T1, T) && SameKept(L, T1, tidy1, T, tidy)
      requires lists == lists1[gen := if Doomed(L, T1, marked, s[k]) then Without(lists1[gen], |kept|) else lists1[gen]]
      requires home == if Doomed(L, T1, marked, s[k]) then home1 - {s[k]} else home1
      requires dropped == if Doomed(L, T1, marked, s[k]) then dropped1 + {s[k]} else dropped1
      ensures PartSwept(gen, s, kept1, k + 1, T0, tidy0, lists0, home0)
    {
      hide Doomed, Kept, SameFw, ListSwept, Survivors, SameKept, AllDoomed, Without, Distinct, HomeSwept, SameHome;
      SameFwTrans(T0, T1, T);
      SweepStep(L, T1, T, marked, s, kept, k, lists[gen]);
      SweptMore(L, T1, T, marked, home0, home1, home, s, k);
      AllDoomedMore(L, T1, T, marked, dropped1, dropped, s[k]);
      SameKeptTrans(L, T0, tidy0, T1, tidy1, T, tidy);
      kept1 := if Doomed(L, T1, marked, s[k]) then kept else kept + [s[k]];
    }

    /** Sweeps the array at which the walk along the list stands. */
    method SweepTurn(gen: int, arr: int, ghost s: seq<int>, ghost kept: seq<int>, ghost k: int, ghost T0: Trail,
                     ghost tidy0: seq<Word>, ghost lists0: map<int, seq<int>>, ghost home0: map<int, int>)
      returns (next: int, ghost kept1: seq<int>)
      requires SweepPhase() && PartSwept(gen, s, kept, k, T0, tidy0, lists0, home0) && k < |s| && arr == T.Cur(s[k])
      modifies mem, this`T, this`lists, this`home, this`tidy, this`dropped
      ensures SweepPhase() && PartSwept(gen, s, kept1, k + 1, T0, tidy0, lists0, home0)
      ensures next == T.Cur(Nth(s, k + 1, gen))
    {
      hide SweepPhase, Doomed, SameFw, ListSwept, Survivors, SameKept, AllDoomed, Without, Distinct;
      ghost var T1, tidy1, lists1, home1, dropped1 := T, tidy, lists, home, dropped;
      SweepStands(gen, s, kept, k);
      next := SweepNext(gen, arr, s[k], |kept|);
      SameCurs(T1, T, Nth(s, k + 1, gen));
      kept1 := SweepMore(gen, s, kept, k, T0, tidy0, lists0, home0, T1, tidy1, lists1, home1, dropped1);
    }

    lemma SameCurs(T0: Trail, T1: Trail, a: int)
      requires SameFw(T0, T1)
      ensures T1.Cur(a) == T0.Cur(a)
    {
    }

    /** Sweeps the entry list of one generation. */
    method SweepList(gen: int)
      requires SweepPhase() && gen in lists && AllDoomed(L, T, marked, dropped)
      modifies mem, this`T, this`lists, this`home, this`tidy, this`dropped
      ensures SweepPhase() && SameFw(old(T), T) && lists == old(lists)[gen := Survivors(L, T, marked, old(lists)[gen])]
      ensures ListSwept(L, T, marked, old(home), home, old(lists)[gen])
      ensures AllDoomed(L, T, marked, dropped)
      ensures SameKept(L, old(T), old(tidy), T, tidy)
    {
      hide SweepPhase, SameFw, ListSwept, Survivors, Distinct, SameKept, AllDoomed;
      ghost var s, k, kept, T0, tidy0, lists0, home0 := lists[gen], 0, [], T, tidy, lists, home;
      SweepBegins(gen);
      var arr := mem[gen + 1].n;
      SweepStands(gen, s, kept, k);
      PartBegins(gen);
      while arr != gen
        invariant SweepPhase() && PartSwept(gen, s, kept, k, T0, tidy0, lists0, home0) && arr == T.Cur(Nth(s, k, gen))
        invariant k < |s| <==> arr != gen
        decreases |s| - k
      {
        hide PartSwept;
        SweepBounds(gen, s, kept, k, T0, tidy0, lists0, home0);
        arr, kept := SweepTurn(gen, arr, s, kept, k, T0, tidy0, lists0, home0);
        k := k + 1;
        SweepBounds(gen, s, kept, k, T0, tidy0, lists0, home0);
        SweepStands(gen, s, kept, k);
      }
      assert s[..k] == s && kept + s[k..] == kept;
    }

    lemma SweepBounds(gen: int, s: seq<int>, kept: seq<int>, k: int, T0: Trail, tidy0: seq<Word>,
                      lists0: map<int, seq<int>>, home0: map<int, int>)
      requires PartSwept(gen, s, kept, k, T0, tidy0, lists0, home0)
      ensures 0 <= k <= |s| && gen in lists && lists[gen] == kept + s[k..]
    {
    }

    lemma PartBegins(gen: int)
      requires gen in lists && Distinct(lists[gen]) && AllDoomed(L, T, marked, dropped)
      ensures PartSwept(gen, lists[gen], [], 0, T, tidy, lists, home)
    {
      hide SameFw, ListSwept, Survivors, Distinct, SameKept, AllDoomed;
      SameFwRefl(T);
      SweptNone(L, T, marked, home);
      NoSurvivors(L, T, marked);
      SameKeptRefl(L, T, tidy);
      assert [] + lists[gen][0..] == lists[gen];
      assert lists == lists[gen := lists[gen]];
    }

    /** `sweep_entry_lists`: takes the arrays that are left behind off the entry lists of all generations. */
    method SweepEntryLists(creation: int, ghost all: seq<int>)
      requires SweepPhase() && AgesOk(L, ages) && ParentsOk(ages, creation, all) && AllDoomed(L, T, marked, dropped)
      modifies mem, this`T, this`lists, this`home, this`tidy, this`dropped
      ensures SweepPhase() && SameFw(old(T), T) && SameKept(L, old(T), old(tidy), T, tidy)
      ensures AllDoomed(L, T, marked, dropped)
      ensures GensSwept(L, T, marked, old(home), home, Elements(all))
      ensures forall g :: g in lists <==> g in old(lists)
      ensures forall g :: g in lists ==>
                lists[g] == if g in all then Survivors(L, T, marked, old(lists)[g]) else old(lists)[g]
    {
      hide Core, ListsOk, Agree, RingsOk, Without, Doomed, Kept, SameFw, ListSwept, GensSwept, Survivors, Distinct,
        SameKept, AllDoomed,
        AgesOk, ParentsOk, SweepPhase, HomeSwept, SameHome, Elements;
      var gen := creation;
      ghost var i := 0;
      ParentStep(ages, creation, all, 0);
      SameFwRefl(T);
      SameKeptRefl(L, T, tidy);
      GensSweptNone(L, T, marked, home);
      NoElements();
      while gen != 0
        invariant 0 <= i <= |all| && gen == Nth(all, i)
        invariant SweepPhase() && SameFw(old(T), T) && SameKept(L, old(T), old(tidy), T, tidy)
        invariant AllDoomed(L, T, marked, dropped)
        invariant GensSwept(L, T, marked, old(home), home, Elements(all[..i]))
        invariant forall g :: g in lists <==> g in old(lists)
        invariant forall g :: g in lists ==>
                    lists[g] == if g in all[..i] then Survivors(L, T, marked, old(lists)[g]) else old(lists)[g]
        decreases |all| - i
      {
        ghost var T0, tidy0, home1, lists1 := T, tidy, home, lists;
        ParentStep(ages, creation, all, i);
        SweepParts();
        GenListed(L, ages, T, lists, home, gen);
        SweepList(gen);
        SameFwTrans(old(T), T0, T);
        SameKeptTrans(L, old(T), old(tidy), T0, tidy0, T, tidy);
        GensSweptMore(L, T0, T, marked, old(home), home1, home, lists1, Elements(all[..i]), gen);
        forall s ensures Survivors(L, T, marked, s) == Survivors(L, T0, marked, s) {
          SurvivorsSame(L, T0, T, marked, s);
        }
        ElementsHold(all[..i]);
        assert all[..i + 1] == all[..i] + [gen];
        gen := ages.gens[gen].parent;
        i := i + 1;
      }
      ParentStep(ages, creation, all, i);
      assert all[..i] == all;
    }

    lemma SweepParts()
      requires SweepPhase()
      ensures Core(L, T, tidy) && ListsOk(L, T, lists, home) && Agree(L, T, dropped, mem[..], tidy) && Typed()
    {
    }

    // ---- Collecting a generation ----

    /** `mark_static_objects`: marks the static objects of `from` and lets them count as objects of `to`. */
    method MarkStatics(from: int, to: int, ghost S: Setting)
      requires S.before == ages && S.from == from && S.to == to && S.AgesMove() && from in ages.gens && marked == {}
      requires forall b :: b in S.Statics() ==> b in S.before.holder
      modifies this`marked, this`ages
      ensures marked == Elements(S.Statics()) && ages == S.ages
    {
      var statics := ages.gens[from].statics;
      for i := 0 to |statics|
        invariant marked == Elements(statics[..i])
        invariant ages.gens == S.before.gens && ages.space == S.before.space
        invariant forall b :: b in ages.holder <==> b in S.before.holder
        invariant forall b :: b in ages.holder ==> ages.holder[b] == if b in statics[..i] then to
                  else S.before.holder[b]
      {
        assert statics[..i + 1] == statics[..i] + [statics[i]];
        assert statics[i] in S.Statics();
        marked := marked + {statics[i]};
        ages := ages.(holder := ages.holder[statics[i] := to]);
      }
      assert statics[..|statics|] == statics;
      AgesMarked(S, ages);
    }

    /** Tells the static objects that are still marked from those that are handed over. */
    method SortStatics(statics: seq<int>, onto: seq<int>) returns (kept: seq<int>, freed: seq<int>)
      ensures kept == Adopt(statics, marked, onto) && FreedOf(freed, statics, marked)
    {
      kept, freed := onto, [];
      var i := 0;
      assert statics[0..] == statics;
      while i < |statics|
        invariant 0 <= i <= |statics|
        invariant Adopt(statics[i..], marked, kept) == Adopt(statics, marked, onto)
        invariant FreedOf(freed, statics[..i], marked)
      {
        hide FreedOf, Adopt;
        AdoptNext(statics, i, marked, kept);
        FreedNext(freed, statics, i, marked);
        if statics[i] in marked {
          freed := freed + [statics[i]];
        } else {
          kept := [statics[i]] + kept;
        }
        i := i + 1;
      }
      assert statics[i..] == [] && statics[..i] == statics;
    }

    /** `sweep_static_objects`: frees the static objects still marked and moves the others to `to`. */
    method SweepStatics(from: int, to: int) returns (freed: seq<int>)
      requires from in ages.gens && to in ages.gens && from != to
      modifies this`ages
      ensures ages.gens.Keys == old(ages).gens.Keys && ages.space == old(ages).space && ages.holder == old(ages).holder
      ensures ages.gens[from] == old(ages).gens[from].(statics := [])
      ensures ages.gens[to] == old(ages).gens[to].(statics := Adopt(old(ages).gens[from].statics, marked,
              old(ages).gens[to].statics))
      ensures forall g :: g in ages.gens && g != from && g != to ==> ages.gens[g] == old(ages).gens[g]
      ensures forall b :: b in freed <==> b in old(ages).gens[from].statics && b in marked
    {
      var kept;
      kept, freed := SortStatics(ages.gens[from].statics, ages.gens[to].statics);
      ages := ages.(gens := ages.gens[to := ages.gens[to].(statics := kept)]);
      ages := ages.(gens := ages.gens[from := ages.gens[from].(statics := [])]);
    }

    /** What has to hold when the generation `S.from` is to be collected. */
    ghost predicate Collectible(S: Setting)
      reads this, mem
    {
      && S.L == L && S.before == ages && S.home == home && S.Ready()
      && Inv(L, T, mem[..]) && T.used == 0 && Listing() && marked == {}
      && (forall a :: L.Type(a) == TypeOf(spaceType[ages.gens[S.from].space := From], a))
      && ages.gens[S.to].top == L.start
      && Entered(L, home, S.Young()) && StaticsScannable(L, T, S.Statics())
      && GensScannable(L, S.ages, T, S.younger)
      && (forall b :: b in S.Statics() ==> b in S.before.holder)
    }

    /** Everything is ready for copying once the static objects are marked. */
    lemma CopyingStarts(S: Setting)
      requires S.L == L && S.ages == ages && S.home == home == home0 && S.Ready() && Inv(L, T, mem[..]) && Listing()
      requires Typed()
      requires oldGen == S.from && newGen == S.to && young == S.Young() && fixed == {} && filed == [] && marks == marked
      requires Entered(L, home, S.Young()) && StaticsScannable(L, T, S.Statics())
      requires GensScannable(L, S.ages, T, S.younger)
      ensures Phase() && Scannable(S) && S.from in ages.gens && ages.gens[S.from].statics == S.Statics()
    {
      hide Inv, Core, ListsOk, Entered, Progress, AgesOk;
      ReadyParts(S);
      ReadyChain(S);
      ProgressBegins(L, ages, T, mem[..], marked, home, newGen);
    }

    /** Copies all that is live: the two phases of a collection. */
    method CopyLive(from: int, start: int, table: array<Entry>, ghost S: Setting) returns (top: int, lost: bool)
      requires Phase() && Scannable(S) && start == L.start && T.used == 0 && filed == [] && fixed == {}
      requires lists0 == lists
      requires RootsFixable(table)
      requires S.L == L && S.ages == ages && S.from == from == oldGen && S.to == newGen && S.home == home0
      requires S.table == table[..] && young == S.Young()
      requires marked <= Elements(S.Statics()) && ages.gens[from].statics == S.Statics()
      modifies mem, this`T, this`marked, this`lists, this`home, this`filed, this`fixed
      ensures lost <==> !OnTime(S, lists0)
      ensures !lost ==> Phase() && top == L.start + T.used && CopyingDone(S, T, mem[..], marked, home, fixed, filed)
      ensures !lost ==> marked <= old(marked) && Spared(L, marks, marked)
    {
      hide Inv, Core, L.ObjectsOk, L.SpacesOk, L.WordsFit, InverseOk, WholeOk, RingsOk, ListsOk, AgeingOk, AgesOk,
        Evolves, Entered, Progress, RegionCells, ObjectCells, GenScannable, ChainOk, TableCells, Boundary, DoneIn,
        GensFixed, Picked, Phase, Collecting, OnTime;
      top, lost := FirstPhase(from, start, table, S);
      if lost {
        return;
      }
      ghost var D := fixed;
      top := SecondPhase(top, table);
      GensFixedGrows(L, ages, D, fixed, S.younger);
      PhaseParts();
      PhaseProgress();
    }

    lemma PhaseProgress()
      requires Phase()
      ensures Spared(L, marks, marked)
      ensures Progress(L, ages, T, mem[..], marked, home0, home, newGen, fixed, filed)
      ensures AgeingOk(L, ages, oldGen, newGen) && Listing() && Typed()
    {
    }

    /** Deals with all weak arrays that may refer to the generation being collected. */
    method WeakArrays(from: int, ghost S: Setting) returns (ghost P: seq<int>)
      requires CopyingDone(S, T, mem[..], marked, home, fixed, filed) && Listing() && Typed()
      requires AgeingOk(L, ages, oldGen, newGen)
      requires S.L == L && S.ages == ages && S.from == from == oldGen && S.to == newGen && S.home == home0 && S.Ready()
      modifies mem, this`T, this`settled, this`lists, this`home
      ensures WeakDone(S, T, mem[..], marked, old(home), home, settled, P)
      ensures Core(L, T, mem[..]) && Listing() && SameFw(old(T), T) && WeakOnly(L, T, old(mem[..]), mem[..])
    {
      hide Inv, Core, L.ObjectsOk, L.SpacesOk, L.WordsFit, InverseOk, WholeOk, RingsOk, ListsOk, AgeingOk, AgesOk,
        HandledAll, WeakState, ChainOk,
        WeakHandledAll, HomeFrame, DoneAll, DoneIn, GensFixed, Picked, S.Ready;
      InvCore(L, T, mem[..]);
      WeakBegins(L, T, mem[..], marked);
      settled := {};
      ReadyChain(S);
      WeakHomes(S, home, filed);
      P := WeakGenerations(from, S.younger);
    }

    /** Sweeps the entry lists. */
    method SweepArrays(creation: int, ghost all: seq<int>)
      requires Core(L, T, mem[..]) && Listing() && Typed() && AgesOk(L, ages) && ParentsOk(ages, creation, all)
      modifies mem, this`T, this`lists, this`home, this`tidy, this`dropped
      ensures SweepPhase() && AllDoomed(L, T, marked, dropped) && SameFw(old(T), T)
      ensures SameWordsKept(L, old(T), old(mem[..]), T, mem[..])
      ensures GensSwept(L, T, marked, old(home), home, Elements(all))
    {
      hide Core, RingsOk, ListsOk, AgesOk, Agree, Kept, GensSwept, AllDoomed, ParentsOk;
      ghost var T0, m0 := T, mem[..];
      tidy := mem[..];
      dropped := {};
      AgreeRefl(L, T, mem[..]);
      NoneDoomed(L, T, marked);
      SweepEntryLists(creation, all);
      AgreeKept(L, T, dropped, mem[..], tidy);
      SameKeptTrans(L, T0, m0, T, tidy, T, mem[..]);
    }

    lemma SweptSpace()
      requires SweepPhase()
      ensures 0 <= T.used <= L.hi - L.lo
    {
      hide Core, ListsOk, Agree;
      CoreRings(L, T, tidy);
      SpaceBound(L, T);
    }

    /** Makes `from` from-space and marks its static objects. */
    method TakeSpace(from: int, to: int, ghost S: Setting)
      requires Collectible(S) && S.from == from && S.to == to
      modifies this`spaceType, this`marked, this`ages
      ensures S.ages == ages && Typed() && marked == Elements(S.Statics())
      ensures from in ages.gens && to in ages.gens && from != to && ages.gens == old(ages).gens
      ensures ages.gens[from].statics == S.Statics()
      ensures spaceType == old(spaceType)[ages.gens[from].space := From]
    {
      hide Inv, Core, ListsOk, Entered, AgesOk, AgeingOk, StaticsScannable, GensScannable, S.Ready, S.Young,
        Elements;
      ReadyGens(S);
      spaceType := spaceType[ages.gens[from].space := From];
      MarkStatics(from, to, S);
    }

    lemma CollectibleParts(S: Setting)
      requires Collectible(S)
      ensures S.L == L && S.home == home && S.Ready() && Inv(L, T, mem[..]) && T.used == 0 && Listing()
      ensures Entered(L, home, S.Young()) && StaticsScannable(L, T, S.Statics())
      ensures GensScannable(L, S.ages, T, S.younger) && S.to in ages.gens && ages.gens[S.to].top == L.start
    {
      hide Inv, Core, ListsOk, Entered, StaticsScannable, GensScannable;
      ReadyGens(S);
    }

    /** The ghost state from which copying starts. */
    ghost method BeginCopying(S: Setting)
      requires S.L == L && S.ages == ages && S.home == home && S.Ready() && Inv(L, T, mem[..]) && Listing() && Typed()
      requires Entered(L, home, S.Young()) && StaticsScannable(L, T, S.Statics())
      requires GensScannable(L, S.ages, T, S.younger)
      modifies this`oldGen, this`newGen, this`young, this`home0, this`lists0, this`marks, this`fixed, this`filed
      ensures Phase() && Scannable(S) && filed == [] && fixed == {} && lists0 == lists && marks == marked
      ensures S.from == oldGen && S.to == newGen && S.home == home0 && young == S.Young()
    {
      hide Inv, Core, ListsOk, Entered, Progress, AgesOk, AgeingOk, Phase, Scannable, StaticsScannable,
        GensScannable, S.Ready, S.Young, Elements, Typed;
      oldGen, newGen, young, home0, lists0, marks, fixed, filed :=
        S.from, S.to, S.Young(), home, lists, marked, {}, [];
      CopyingStarts(S);
    }

    /** Makes everything ready for copying. */
    method Prepare(from: int, to: int, ghost S: Setting)
      requires Collectible(S) && S.from == from && S.to == to
      modifies this
      ensures Phase() && Scannable(S) && T.used == 0 && filed == [] && fixed == {} && L == old(L)
      ensures lists0 == lists == old(lists)
      ensures S.L == L && S.ages == ages && S.from == oldGen && S.to == newGen && S.home == home0 && young == S.Young()
      ensures from in ages.gens && to in ages.gens && from != to && ages.gens == old(ages).gens
      ensures ages.gens[to].top == L.start
      ensures marked == marks == Elements(S.Statics()) && ages.gens[from].statics == S.Statics()
      ensures spaceType == old(spaceType)[ages.gens[from].space := From]
    {
      hide Inv, Core, ListsOk, Entered, Phase, Scannable, StaticsScannable, GensScannable, S.Ready, S.Young,
        Elements, Collectible;
      CollectibleParts(S);
      TakeSpace(from, to, S);
      BeginCopying(S);
    }

    /** What a collection achieves, but for the bookkeeping at its end. */
    ghost predicate Collected(S: Setting)
      reads this`L, this`T, this`marked, this`lists, this`home, this`tidy, this`dropped, mem
    {
      && S.L == L && Preserved(S, T, mem[..], marked) && Remembers(S, T, mem[..], marked, home)
      && marked <= Elements(S.Statics()) && 0 <= T.used <= L.hi - L.lo
      && (forall b :: b in S.Statics() ==> (b in marked <==> !L.Mentioned(b)))
      && ListsOk(L, T, lists, home) && Core(L, T, tidy) && Agree(L, T, dropped, mem[..], tidy)
      && AllDoomed(L, T, marked, dropped)
      && (forall b :: L.Base(b) && IsArray(L.Was(b)) ==> (b in home && Doomed(L, T, marked, b) <==> Stranded(S, b)))
    }

    /** Copies what is live, deals with weak arrays and sweeps the entry lists. */
    method CopyAndSweep(from: int, start: int, creation: int, table: array<Entry>, ghost S: Setting,
                        ghost all: seq<int>)
      returns (top: int, lost: bool)
      requires Phase() && Scannable(S) && start == L.start && T.used == 0 && filed == [] && fixed == {}
      requires lists0 == lists
      requires RootsFixable(table) && S.Ready()
      requires S.L == L && S.ages == ages && S.from == from == oldGen && S.to == newGen && S.home == home0
      requires S.table == table[..] && young == S.Young()
      requires marked == marks == Elements(S.Statics()) && ages.gens[from].statics == S.Statics()
      requires ParentsOk(ages, creation, all) && SweptOk(S, all)
      modifies mem, this`T, this`marked, this`lists, this`home, this`filed, this`fixed, this`settled, this`tidy,
        this`dropped
      ensures lost <==> !OnTime(S, lists0)
      ensures !lost ==> Collected(S) && top == L.start + T.used
    {
      hide Inv, Core, L.ObjectsOk, L.SpacesOk, L.WordsFit, InverseOk, WholeOk, RingsOk, ListsOk, AgeingOk, AgesOk,
        Entered, Progress, TableCells, Phase, Scannable, CopyingDone, WeakDone, Preserved, Remembers, Stranded, Doomed,
        AllDoomed, Agree, GensSwept, S.Ready, WeakOnly, SameFw, SameWordsKept, ParentsOk, SweptOk, Listing, Typed,
        Elements, SweepPhase, Collecting, Collected, OnTime;
      top, lost := CopyLive(from, start, table, S);
      if lost {
        return;
      }
      PhaseProgress();
      AgeingAges(L, ages, oldGen, newGen);
      ghost var T1, m1, home1 := T, mem[..], home;
      ghost var P := WeakArrays(from, S);
      ghost var T2, m2, home2 := T, mem[..], home;
      ListedInGens();
      SweepArrays(creation, all);
      Finish(S, T1, m1, home1, T2, m2, home2, P, all, top);
    }

    lemma ListedInGens()
      requires Listing() && AgesOk(L, ages)
      ensures forall n :: n in home ==> home[n] in ages.gens
    {
      HomesAreGens(L, ages, T, lists, home);
    }

    lemma Finish(S: Setting, T1: Trail, m1: seq<Word>, home1: map<int, int>, T2: Trail, m2: seq<Word>,
                 home2: map<int, int>, P: seq<int>, all: seq<int>, top: int)
      requires S.L == L && S.ages == ages && S.Ready() && CopyingDone(S, T1, m1, marked, home1, fixed, filed)
      requires top == L.start + T1.used
      requires WeakDone(S, T2, m2, marked, home1, home2, settled, P) && SameFw(T1, T2) && WeakOnly(L, T2, m1, m2)
      requires SweepPhase() && AllDoomed(L, T, marked, dropped) && SameFw(T2, T) && SameWordsKept(L, T2, m2, T, mem[..])
      requires GensSwept(L, T, marked, home2, home, Elements(all)) && SweptOk(S, all)
      requires forall n :: n in home2 ==> home2[n] in ages.gens
      requires Spared(L, Elements(S.Statics()), marked)
      ensures Collected(S) && top == L.start + T.used
    {
      hide Core, ListsOk, CopyingDone, WeakDone, Preserved, Remembers, Stuck, Stranded, Doomed, AllDoomed, Agree,
        GensSwept, S.Ready, WeakOnly,
        SameWordsKept, SweptOk, Typed, Spared, L.Mentioned;
      AllMarked(S, T1, m1, marked, home1, fixed, filed);
      PreservedEnd(S, T1, m1, marked, home1, fixed, filed, T2, m2, home2, settled, P, T, mem[..]);
      RemembersEnd(S, T1, m1, marked, home1, fixed, filed, T2, m2, home2, settled, P, T, mem[..], home, Elements(all));
      AllLeftExactly(S, T1, m1, marked, home1, fixed, filed, T2, m2, home2, settled, P, T, mem[..], home, all);
      SweptSpace();
      CopyingReach(S, T1, m1, marked, home1, fixed, filed);
      assert L.WellFormed() by { CoreFits(L, T1, m1); }
      AllStranded(S, T, mem[..], marked);
    }

    /** The bookkeeping at the end of a collection: frees the static objects still marked, hands the others
        and all copied words over to `to`, and empties `from`. */
    method Close(from: int, to: int, top: int, ghost S: Setting) returns (freed: seq<int>)
      requires ages == S.ages && S.from == from && S.to == to && from in ages.gens && to in ages.gens && from != to
      requires ages.gens[from].statics == S.Statics()
      modifies this`ages, this`spaceType
      ensures ages == Steady.AgesAfter(S, marked, top)
      ensures spaceType == old(spaceType)[old(ages).gens[from].space := MlHeap]
      ensures forall b :: b in freed <==> b in S.Statics() && b in marked
    {
      freed := SweepStatics(from, to);
      spaceType := spaceType[ages.gens[from].space := MlHeap];
      ages := ages.(gens := ages.gens[to := ages.gens[to].(top := top)]);
      ages := ages.(gens := ages.gens[from := ages.gens[from].(top := ages.gens[from].start)]);
      CloseAges(S, marked, top);
    }

    /** The generations are those after the collection. */
    lemma CloseAges(S: Setting, marked: set<int>, top: int)
      requires S.from in S.ages.gens && S.to in S.ages.gens && S.from != S.to
      requires S.ages.gens[S.from].statics == S.Statics()
      requires ages.gens.Keys == S.ages.gens.Keys && ages.space == S.ages.space && ages.holder == S.ages.holder
      requires ages.gens[S.from] == S.ages.gens[S.from].(statics := [], top := S.ages.gens[S.from].start)
      requires ages.gens[S.to] == S.ages.gens[S.to].(statics := Adopt(S.Statics(), marked, S.ages.gens[S.to].statics),
               top := top)
      requires forall g :: g in ages.gens && g != S.from && g != S.to ==> ages.gens[g] == S.ages.gens[g]
      ensures ages == Steady.AgesAfter(S, marked, top)
    {
      var A := Steady.AgesAfter(S, marked, top);
      assert ages.gens.Keys == A.gens.Keys;
      assert forall g :: g in A.gens ==> ages.gens[g] == A.gens[g];
      assert ages.gens == A.gens;
    }

    /** `collect_gen`: collects the generation `from` into `to`, unless a walk along an entry list is lost, which can be
        told from the heap before. */
    method CollectGen(from: int, to: int, creation: int, table: array<Entry>, ghost S: Setting, ghost all: seq<int>)
      returns (freed: seq<int>, lost: bool)
      requires Collectible(S) && S.from == from && S.to == to && S.table == table[..] && RootsFixable(table)
      requires ParentsOk(ages, creation, all) && SweptOk(S, all)
      modifies this, mem
      ensures L == old(L) && (lost <==> !OnTime(S, old(lists)))
      ensures !lost ==> Collected(S) && ages == Steady.AgesAfter(S, marked, L.start + T.used)
      ensures !lost ==> Aftermath.WeakFates(S, T, mem[..]) && Aftermath.SharedWithWeak(S, T, mem[..], marked)
      ensures !lost ==> forall b :: b in freed <==> b in S.Statics() && b in marked
      ensures !lost ==> from in old(ages).gens && spaceType == old(spaceType)[old(ages).gens[from].space := MlHeap]
    {
      hide Inv, Core, ListsOk, AgeingOk, AgesOk, Entered, Progress, Phase, Scannable, Collected, S.Ready,
        ParentsOk, SweptOk, Steady.AgesAfter, OnTime, Aftermath.WeakFates, Aftermath.SharedWithWeak;
      freed := [];
      Prepare(from, to, S);
      ParentsSame(S.before, ages, creation, all);
      var start, top := ages.gens[to].top, 0;
      top, lost := CopyAndSweep(from, start, creation, table, S, all);
      if !lost {
        freed := Close(from, to, top, S);
        WeakCollected(S);
      }
    }

    /** What has become of weak elements, and of what they share with other cells. */
    lemma WeakCollected(S: Setting)
      requires Collected(S)
      ensures Aftermath.WeakFates(S, T, mem[..]) && Aftermath.SharedWithWeak(S, T, mem[..], marked)
    {
      hide L.ObjectsOk, L.SpacesOk, L.WordsFit, Preserved, Remembers, ListsOk, Core, Agree, AllDoomed, Doomed, Stranded,
        L.Mentioned, Aftermath.WeakFates, Aftermath.SharedWithWeak;
      CoreRings(L, T, tidy);
      Aftermath.WeakFatesOf(S, T, mem[..], marked);
    }
  }
}
