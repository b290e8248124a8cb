/** Relocating the words of a loaded image: the pointer conversion tables, and the scan of an area. */
module ImageScan {
  import opened Heap
  import opened ImageFormat

  datatype Option<T> = None | Some(value: T)

  /** What was where when the image was saved, and where it is now. */
  datatype Tables = Tables(
    oldGen: seq<int>, newGen: seq<int>, oldStat: seq<int>, newStat: seq<int>, sizes: seq<nat>,
    oldBase: map<int, int>, newBase: map<int, int>)

  ghost predicate TablesOk(T: Tables) {
    |T.newGen| == |T.oldGen| && |T.newStat| == |T.oldStat| && |T.sizes| == |T.oldStat| &&
      T.newBase.Keys == T.oldBase.Keys
  }

  /** The first static object from the `i`th on that `addr` points into. */
  function FindStat(T: Tables, addr: int, i: nat): (r: nat)
    requires |T.sizes| == |T.oldStat|
    ensures i <= |T.oldStat| ==> i <= r <= |T.oldStat|
    ensures r < |T.oldStat| ==> T.oldStat[r] + OBJECT <= addr < T.oldStat[r] + OBJECT + T.sizes[r]
    ensures forall j :: i <= j < r && j < |T.oldStat| ==>
            !(T.oldStat[j] + OBJECT <= addr < T.oldStat[j] + OBJECT + T.sizes[j])
    decreases |T.oldStat| - i
  {
    if i >= |T.oldStat| then i
    else if T.oldStat[i] + OBJECT <= addr < T.oldStat[i] + OBJECT + T.sizes[i] then i
    else FindStat(T, addr, i + 1)
  }

  /** The first position from `i` on at which `s` has `v - d`. */
  function FindAt(s: seq<int>, v: int, d: int, i: nat): (r: nat)
    ensures i <= |s| ==> i <= r <= |s|
    ensures r < |s| ==> s[r] + d == v
    ensures forall j :: i <= j < r && j < |s| ==> s[j] + d != v
    decreases |s| - i
  {
    if i >= |s| || s[i] + d == v then i else FindAt(s, v, d, i + 1)
  }

  /** Where the word at `addr` is now. */
  function Moved(T: Tables, addr: int): int
    requires TablesOk(T)
  {
    var space := addr / SPACE_WORDS;
    if space in T.oldBase then addr - T.oldBase[space] + T.newBase[space]
    else
      var i := FindStat(T, addr, 0);
      if i < |T.oldStat| then T.newStat[i] + OBJECT + (addr - (T.oldStat[i] + OBJECT)) else addr
  }

  function FixValue(T: Tables, w: Word): Word
    requires TablesOk(T)
  {
    if w.Ptr? then Ptr(w.tag, Moved(T, w.addr)) else w
  }

  /** A link of an entry list. It must be one to an array or to an entry list header. */
  function FixLink(T: Tables, n: int): Option<int>
    requires TablesOk(T)
  {
    var space := n / SPACE_WORDS;
    if space in T.oldBase then Some(n - T.oldBase[space] + T.newBase[space])
    else
      var i := FindAt(T.oldGen, n, ENTRY, 0);
      if i < |T.oldGen| then Some(T.newGen[i] + ENTRY)
      else
        var j := FindAt(T.oldStat, n, OBJECT, 0);
        if j < |T.oldStat| then Some(T.newStat[j] + OBJECT) else None
  }

  /** A link of a list of static objects. */
  function FixStaticLink(T: Tables, n: int): Option<int>
    requires TablesOk(T)
  {
    var i := FindAt(T.oldStat, n, 0, 0);
    if i < |T.oldStat| then Some(T.newStat[i])
    else
      var j := FindAt(T.oldGen, n, STATICS, 0);
      if j < |T.oldGen| then Some(T.newGen[j] + STATICS) else None
  }

  // ---- What is to be done to the words of an area ----

  /** What loading does to a word: leave it, fix it as a value, as a link of an entry list or of a list of
      static objects, or set it. */
  datatype Duty = Leave | Value | EntryLink | StaticLink | Set(word: Word)

  function LinkWord(r: Option<int>): Option<Word> {
    if r.Some? then Some(Imm(r.value)) else None
  }

  function Applied(T: Tables, d: Duty, w: Word): Option<Word>
    requires TablesOk(T)
  {
    match d
    case Leave => Some(w)
    case Value => Some(FixValue(T, w))
    case EntryLink => LinkWord(FixLink(T, Num(w)))
    case StaticLink => LinkWord(FixStaticLink(T, Num(w)))
    case Set(v) => Some(v)
  }

  /** The end of a string, relative to a place that is aligned. */
  function TextEnd(i: int, len: nat): int {
    (4 * (i + 1) + len + 7) / 8 * 2
  }

  /** How far a scan that stops at word `i` goes on. */
  function StepSize(w: Word, i: int): (n: int)
    ensures n >= 1
  {
    match w
    case Hdr(Text, len) => TextEnd(i, len) - i
    case Hdr(ByteArray, len) => TextEnd(i, len) - i
    case Hdr(Code, len) => len + 1
    case Hdr(Array, _) => 3
    case Hdr(WeakArray, _) => 3
    case _ => 1
  }

  /** What it does to word `x` on the way. */
  function StepDuty(ws: seq<Word>, i: int, x: int): Duty
    requires 0 <= i < |ws|
  {
    match ws[i]
    case Hdr(Code, _) => if x == i + 1 then Value else Leave
    case Hdr(Array, _) => if (x == i + FORWARD || x == i + BACK) && At(ws, i + BACK) != Null then EntryLink else Leave
    case Hdr(WeakArray, _) => if (x == i + FORWARD || x == i + BACK) && At(ws, i + BACK) != Null then EntryLink
      else Leave
    case Ptr(tag, _) => if tag == Primary7 then Leave else Value
    case _ => Leave
  }

  /** What a scan from word `i` on does to word `x`. */
  function DutyFrom(ws: seq<Word>, i: int, x: int): Duty
    requires 0 <= i
    decreases |ws| - i
  {
    if i >= |ws| || x < i then Leave
    else if x < i + StepSize(ws[i], i) then StepDuty(ws, i, x)
    else DutyFrom(ws, i + StepSize(ws[i], i), x)
  }

  /** A scan from word `i` on ends at the end of the area. */
  ghost predicate ScanFits(ws: seq<Word>, i: int)
    requires 0 <= i
    decreases |ws| - i
  {
    i == |ws| || (i < |ws| && (ws[i].Hdr? && ws[i].kind == Code ==> 1 <= ws[i].len) &&
      ScanFits(ws, i + StepSize(ws[i], i)))
  }

  lemma {:induction false} FitsEnd(ws: seq<Word>, i: int)
    requires 0 <= i && ScanFits(ws, i)
    ensures i <= |ws| && (i < |ws| ==> i + StepSize(ws[i], i) <= |ws|)
    decreases |ws| - i
  {
    if i < |ws| {
      FitsEnd(ws, i + StepSize(ws[i], i));
    }
  }

  /** The area at `start` has the words `ws`, with those before word `i` done. */
  ghost predicate ScannedTo(T: Tables, mem: map<int, Word>, start: int, ws: seq<Word>, i: int)
    requires TablesOk(T)
  {
    forall x {:trigger WordScanned(T, mem, start, ws, i, x)} :: 0 <= x < |ws| ==> WordScanned(T, mem, start, ws, i, x)
  }

  ghost predicate WordScanned(T: Tables, mem: map<int, Word>, start: int, ws: seq<Word>, i: int, x: int)
    requires TablesOk(T) && 0 <= x < |ws|
  {
    if x < i then Applied(T, DutyFrom(ws, 0, x), ws[x]) == Some(Get(mem, start + x)) else Get(mem, start + x) == ws[x]
  }

  /** Only words of the area have changed. */
  ghost predicate SameOutside(mem: map<int, Word>, mem1: map<int, Word>, start: int, n: int) {
    forall a :: a < start || start + n <= a ==> Get(mem1, a) == Get(mem, a)
  }

  /** A link in the area cannot be fixed. */
  ghost predicate BadWord(T: Tables, ws: seq<Word>)
    requires TablesOk(T)
  {
    exists x :: 0 <= x < |ws| && Applied(T, DutyFrom(ws, 0, x), ws[x]).None?
  }

  /** A scan that stops at word `i` has come from the beginning: its duties are those of the whole scan. */
  ghost predicate OnPath(ws: seq<Word>, i: int)
    requires 0 <= i
  {
    forall x :: i <= x ==> DutyFrom(ws, 0, x) == DutyFrom(ws, i, x)
  }

  lemma PathStep(ws: seq<Word>, i: int)
    requires 0 <= i < |ws| && OnPath(ws, i)
    ensures OnPath(ws, i + StepSize(ws[i], i))
    ensures forall x :: i <= x < i + StepSize(ws[i], i) ==> DutyFrom(ws, 0, x) == StepDuty(ws, i, x)
  {
  }

  lemma FitsStep(ws: seq<Word>, i: int)
    requires 0 <= i < |ws| && ScanFits(ws, i)
    ensures ScanFits(ws, i + StepSize(ws[i], i)) && i + StepSize(ws[i], i) <= |ws|
    ensures ws[i].Hdr? && ws[i].kind == Code ==> 1 <= ws[i].len
  {
    FitsEnd(ws, i);
  }

  /** The words of one step. */
  ghost predicate StepDone(T: Tables, mem: map<int, Word>, start: int, ws: seq<Word>, i: int)
    requires TablesOk(T) && 0 <= i < |ws|
  {
    forall x :: i <= x < i + StepSize(ws[i], i) && x < |ws| ==> StepWord(T, mem, start, ws, i, x)
  }

  ghost predicate StepWord(T: Tables, mem: map<int, Word>, start: int, ws: seq<Word>, i: int, x: int)
    requires TablesOk(T) && 0 <= i < |ws| && 0 <= x < |ws|
  {
    Applied(T, StepDuty(ws, i, x), ws[x]) == Some(Get(mem, start + x))
  }

  lemma Advance(T: Tables, mem: map<int, Word>, mem1: map<int, Word>, start: int, ws: seq<Word>, i: int)
    requires TablesOk(T) && 0 <= i < |ws| && ScannedTo(T, mem, start, ws, i) && OnPath(ws, i)
    requires StepDone(T, mem1, start, ws, i) && SameOutside(mem, mem1, start + i, StepSize(ws[i], i))
    ensures ScannedTo(T, mem1, start, ws, i + StepSize(ws[i], i)) && OnPath(ws, i + StepSize(ws[i], i))
  {
    hide DutyFrom, StepDuty, StepSize, Applied;
    PathStep(ws, i);
    var n := i + StepSize(ws[i], i);
    forall x {:trigger WordScanned(T, mem1, start, ws, n, x)} | 0 <= x < |ws|
      ensures WordScanned(T, mem1, start, ws, n, x)
    {
      assert WordScanned(T, mem, start, ws, i, x);
      if i <= x < n {
        assert StepWord(T, mem1, start, ws, i, x);
      }
    }
  }

  /** What the word at which a scan stops is, and those behind it. */
  lemma NotYet(T: Tables, mem: map<int, Word>, start: int, ws: seq<Word>, i: int)
    requires TablesOk(T) && 0 <= i < |ws| && ScannedTo(T, mem, start, ws, i)
    ensures forall x :: i <= x < |ws| ==> Get(mem, start + x) == ws[x]
  {
    forall x | i <= x < |ws| ensures Get(mem, start + x) == ws[x] {
      assert WordScanned(T, mem, start, ws, i, x);
    }
  }

  lemma TextAligned(start: int, i: int, len: nat)
    requires start % 2 == 0
    ensures (4 * (start + i + 1) + len + 7) / 8 * 2 == start + TextEnd(i, len)
  {
    var b, x := start / 2, 4 * (i + 1) + len + 7;
    assert 4 * (start + i + 1) + len + 7 == 8 * b + x;
    assert (8 * b + x) / 8 == b + x / 8;
  }

  lemma ScanBegins(T: Tables, mem: map<int, Word>, start: int, ws: seq<Word>)
    requires TablesOk(T) && Slice(mem, start, |ws|) == ws
    ensures ScannedTo(T, mem, start, ws, 0) && OnPath(ws, 0)
  {
    forall x {:trigger WordScanned(T, mem, start, ws, 0, x)} | 0 <= x < |ws|
      ensures WordScanned(T, mem, start, ws, 0, x)
    {
      assert Slice(mem, start, |ws|)[x] == Get(mem, start + x);
    }
  }

  /** A link that cannot be fixed. */
  lemma FoundBad(T: Tables, ws: seq<Word>, i: int, x: int)
    requires TablesOk(T) && 0 <= i <= x < |ws| && x < i + StepSize(ws[i], i) && OnPath(ws, i)
    requires StepDuty(ws, i, x) == EntryLink && FixLink(T, Num(ws[x])).None?
    ensures BadWord(T, ws)
  {
    PathStep(ws, i);
    assert Applied(T, DutyFrom(ws, 0, x), ws[x]).None?;
  }

  // ---- Areas of whole objects ----

  /** A word that a slot can hold. */
  predicate SlotWord(w: Word) {
    w.Imm? || w.Dead? || (w.Ptr? && w.tag != Primary7)
  }

  /** There is an object at `b`. */
  ghost predicate ObjectAt(ws: seq<Word>, b: int) {
    && 0 <= b < |ws| && b % 2 == 0 && IsFirstWord(ws[b]) && b + Footprint(ws[b]) <= |ws|
    && forall k :: 0 <= k < Footprint(ws[b]) ==> RoleWord(RoleAt(ws[b], k), At(ws, b + k))
  }

  ghost predicate RoleWord(role: Role, w: Word) {
    (role == Slot || role == WeakSlot ==> SlotWord(w)) && (role == Pad || role == Role.Link ==> w.Imm?)
  }

  /** The area consists of whole objects from word `b` on. */
  ghost predicate ObjectsFrom(ws: seq<Word>, b: int)
    decreases |ws| - b
  {
    b == |ws| || (ObjectAt(ws, b) && ObjectsFrom(ws, b + Footprint(ws[b])))
  }

  /** The first word of the object that word `x` belongs to, if there is an object at `b`. */
  ghost function OwnerFrom(ws: seq<Word>, b: int, x: int): (o: int)
    requires ObjectsFrom(ws, b) && b <= x < |ws|
    ensures ObjectAt(ws, o) && o <= x < o + Footprint(ws[o])
    decreases |ws| - b
  {
    if x < b + Footprint(ws[b]) then b else OwnerFrom(ws, b + Footprint(ws[b]), x)
  }

  /** What is to become of the word at offset `k` of an object: values and the links of arrays on entry
      lists are relocated; headers, the data of strings, bytearrays and code, and padding are not touched. */
  ghost function Relocated(T: Tables, ws: seq<Word>, b: int, k: int): Option<Word>
    requires TablesOk(T) && 0 <= b && 0 <= k && b + k < |ws|
  {
    match RoleAt(ws[b], k)
    case Slot => Some(FixValue(T, ws[b + k]))
    case WeakSlot => Some(FixValue(T, ws[b + k]))
    case Link => if At(ws, b + BACK) != Null then LinkWord(FixLink(T, Num(ws[b + k]))) else Some(ws[b + k])
    case _ => Some(ws[b + k])
  }

  /** Words that are no headers are looked at one by one. */
  lemma {:induction false} PlainWords(ws: seq<Word>, i: int, n: int)
    requires 0 <= i <= i + n <= |ws| && forall x :: i <= x < i + n ==> !ws[x].Hdr?
    ensures forall x :: i + n <= x ==> DutyFrom(ws, i, x) == DutyFrom(ws, i + n, x)
    ensures forall x :: i <= x < i + n ==> DutyFrom(ws, i, x) == StepDuty(ws, x, x)
    ensures ScanFits(ws, i) <==> ScanFits(ws, i + n)
    decreases n
  {
    if n > 0 {
      PlainWords(ws, i + 1, n - 1);
    }
  }

  lemma TextFootprint(b: int, len: nat)
    requires b % 2 == 0
    ensures TextEnd(b, len) - b == 2 + WLength(len) / 2 * 2
  {
    var c := b / 2;
    assert 4 * (b + 1) + len + 7 == 8 * c + (len + 11);
    assert (8 * c + (len + 11)) / 8 == c + (len + 11) / 8;
  }

  /** The first step into an object, and how far it leads. */
  lemma FirstStep(ws: seq<Word>, b: int)
    requires ObjectAt(ws, b)
    ensures StepSize(ws[b], b) <= Footprint(ws[b])
    ensures ws[b].Hdr? && (ws[b].kind == Text || ws[b].kind == ByteArray) ==> StepSize(ws[b], b) == Footprint(ws[b])
    ensures forall x :: b + StepSize(ws[b], b) <= x < b + Footprint(ws[b]) ==> !ws[x].Hdr?
  {
    if ws[b].Hdr? && (ws[b].kind == Text || ws[b].kind == ByteArray) {
      TextFootprint(b, ws[b].len);
    }
    forall x | b + StepSize(ws[b], b) <= x < b + Footprint(ws[b]) ensures !ws[x].Hdr? {
      assert RoleWord(RoleAt(ws[b], x - b), At(ws, b + (x - b)));
    }
  }

  /** The scan of one object does what is to be done to its words, and stops right behind it. */
  lemma ScanObject(T: Tables, ws: seq<Word>, b: int)
    requires TablesOk(T) && ObjectAt(ws, b)
    ensures ScanFits(ws, b) <==> ScanFits(ws, b + Footprint(ws[b]))
    ensures forall x :: b + Footprint(ws[b]) <= x ==> DutyFrom(ws, b, x) == DutyFrom(ws, b + Footprint(ws[b]), x)
    ensures forall x :: b <= x < b + Footprint(ws[b]) ==>
            Applied(T, DutyFrom(ws, b, x), ws[x]) == Relocated(T, ws, b, x - b)
  {
    hide FixValue, FixLink, TablesOk, Footprint;
    FirstStep(ws, b);
    var n, m := StepSize(ws[b], b), Footprint(ws[b]);
    PlainWords(ws, b + n, m - n);
    forall x | b <= x < b + m ensures Applied(T, DutyFrom(ws, b, x), ws[x]) == Relocated(T, ws, b, x - b) {
      assert RoleWord(RoleAt(ws[b], x - b), At(ws, b + (x - b)));
      ScanWord(T, ws, b, x);
    }
  }

  lemma ScanWord(T: Tables, ws: seq<Word>, b: int, x: int)
    requires TablesOk(T) && ObjectAt(ws, b) && b <= x < b + Footprint(ws[b]) && RoleWord(RoleAt(ws[b], x - b), ws[x])
    requires DutyFrom(ws, b, x) == if x < b + StepSize(ws[b], b) then StepDuty(ws, b, x) else StepDuty(ws, x, x)
    requires ws[b].Hdr? && (ws[b].kind == Text || ws[b].kind == ByteArray) ==> StepSize(ws[b], b) == Footprint(ws[b])
    ensures Applied(T, DutyFrom(ws, b, x), ws[x]) == Relocated(T, ws, b, x - b)
  {
    hide Moved, FixLink, TablesOk, Footprint, DutyFrom, TextEnd, WLength;
  }

  /** A scan of whole objects ends with the last one. */
  lemma {:induction false} ObjectsFit(ws: seq<Word>, b: int)
    requires ObjectsFrom(ws, b) && 0 <= b
    ensures ScanFits(ws, b)
    decreases |ws| - b
  {
    if b < |ws| {
      hide ObjectsFrom;
      ObjectsStep(ws, b);
      ScanObject(Tables([], [], [], [], [], map[], map[]), ws, b);
      ObjectsFit(ws, b + Footprint(ws[b]));
    }
  }

  /** Over an area of whole objects, a scan relocates just the values and links of all objects. */
  lemma {:induction false} ScanRelocates(T: Tables, ws: seq<Word>, b: int, x: int)
    requires TablesOk(T) && ObjectsFrom(ws, b) && 0 <= b <= x < |ws|
    ensures var o := OwnerFrom(ws, b, x); Applied(T, DutyFrom(ws, b, x), ws[x]) == Relocated(T, ws, o, x - o)
    decreases |ws| - b
  {
    hide DutyFrom, Applied, TablesOk, ObjectAt, ObjectsFrom, OwnerFrom, Relocated, Footprint, ScanFits;
    ObjectsStep(ws, b);
    OwnerStep(ws, b, x);
    ScanObject(T, ws, b);
    if b + Footprint(ws[b]) <= x {
      ScanRelocates(T, ws, b + Footprint(ws[b]), x);
    }
  }

  lemma ObjectsStep(ws: seq<Word>, b: int)
    requires ObjectsFrom(ws, b) && 0 <= b < |ws|
    ensures ObjectAt(ws, b) && ObjectsFrom(ws, b + Footprint(ws[b])) && b + Footprint(ws[b]) <= |ws|
    ensures 0 < Footprint(ws[b])
  {
  }

  lemma OwnerStep(ws: seq<Word>, b: int, x: int)
    requires ObjectsFrom(ws, b) && 0 <= b <= x < |ws| && ObjectAt(ws, b) && ObjectsFrom(ws, b + Footprint(ws[b]))
    ensures OwnerFrom(ws, b, x) == if x < b + Footprint(ws[b]) then b else OwnerFrom(ws, b + Footprint(ws[b]), x)
  {
  }

  /** The loader: memory, and the conversion tables. */
  class Loader {
    var mem: map<int, Word>
    var T: Tables

    constructor (mem: map<int, Word>)
      ensures this.mem == mem
    {
      this.mem := mem;
      T := Tables([], [], [], [], [], map[], map[]);
    }

    /** The value that `fix` makes of a value. */
    method Relocate(value: Word) returns (v: Word)
      requires TablesOk(T)
      ensures v == FixValue(T, value)
    {
      if !value.Ptr? {
        return value;
      }
      var space := value.addr / SPACE_WORDS;
      if space in T.oldBase {
        return Ptr(value.tag, value.addr - T.oldBase[space] + T.newBase[space]);
      }
      var i := 0;
      while i < |T.oldStat|
        invariant 0 <= i <= |T.oldStat| && FindStat(T, value.addr, 0) == FindStat(T, value.addr, i)
      {
        var offset := value.addr - (T.oldStat[i] + OBJECT);
        if 0 <= offset < T.sizes[i] {
          return Ptr(value.tag, T.newStat[i] + OBJECT + offset);
        }
        i := i + 1;
      }
      v := value;
    }

    /** `fix`. */
    method Fix(what: int)
      requires TablesOk(T)
      modifies this`mem
      ensures mem == old(mem)[what := FixValue(T, Get(old(mem), what))]
    {
      var v := Relocate(Get(mem, what));
      mem := mem[what := v];
    }

    /** `fix_entry`. */
    method FixEntry(what: int) returns (ok: bool)
      requires TablesOk(T)
      modifies this`mem
      ensures ok <==> FixLink(T, Num(Get(old(mem), what))).Some?
      ensures mem == if ok then old(mem)[what := Imm(FixLink(T, Num(Get(old(mem), what))).value)] else old(mem)
    {
      var entry := Num(Get(mem, what));
      var space := entry / SPACE_WORDS;
      ok := true;
      if space in T.oldBase {
        mem := mem[what := Imm(entry - T.oldBase[space] + T.newBase[space])];
        return;
      }
      var i := 0;
      while i < |T.oldGen|
        invariant 0 <= i <= |T.oldGen| && mem == old(mem)
        invariant FindAt(T.oldGen, entry, ENTRY, 0) == FindAt(T.oldGen, entry, ENTRY, i)
      {
        if entry == T.oldGen[i] + ENTRY {
          mem := mem[what := Imm(T.newGen[i] + ENTRY)];
          return;
        }
        i := i + 1;
      }
      i := 0;
      while i < |T.oldStat|
        invariant 0 <= i <= |T.oldStat| && mem == old(mem)
        invariant FindAt(T.oldStat, entry, OBJECT, 0) == FindAt(T.oldStat, entry, OBJECT, i)
      {
        if entry == T.oldStat[i] + OBJECT {
          mem := mem[what := Imm(T.newStat[i] + OBJECT)];
          return;
        }
        i := i + 1;
      }
      ok := false;
    }

    /** `fix_static`. */
    method FixStatic(what: int) returns (ok: bool)
      requires TablesOk(T)
      modifies this`mem
      ensures ok <==> FixStaticLink(T, Num(Get(old(mem), what))).Some?
      ensures mem == if ok then old(mem)[what := Imm(FixStaticLink(T, Num(Get(old(mem), what))).value)] else old(mem)
    {
      var stat := Num(Get(mem, what));
      ok := true;
      var i := 0;
      while i < |T.oldStat|
        invariant 0 <= i <= |T.oldStat| && mem == old(mem)
        invariant FindAt(T.oldStat, stat, 0, 0) == FindAt(T.oldStat, stat, 0, i)
      {
        if stat == T.oldStat[i] {
          mem := mem[what := Imm(T.newStat[i])];
          return;
        }
        i := i + 1;
      }
      i := 0;
      while i < |T.oldGen|
        invariant 0 <= i <= |T.oldGen| && mem == old(mem)
        invariant FindAt(T.oldGen, stat, STATICS, 0) == FindAt(T.oldGen, stat, STATICS, i)
      {
        if stat == T.oldGen[i] + STATICS {
          mem := mem[what := Imm(T.newGen[i] + STATICS)];
          return;
        }
        i := i + 1;
      }
      ok := false;
    }

    /** `scan`, of an area that holds `ws`. */
    method Scan(start0: int, end: int, ghost ws: seq<Word>) returns (ok: bool)
      requires TablesOk(T) && end == start0 + |ws| && Slice(mem, start0, |ws|) == ws && start0 % 2 == 0
      requires ScanFits(ws, 0)
      modifies this`mem
      ensures SameOutside(old(mem), mem, start0, |ws|)
      ensures if ok then ScannedTo(T, mem, start0, ws, |ws|) else BadWord(T, ws)
    {
      hide TablesOk, ScannedTo, OnPath, ScanFits, DutyFrom, StepDone, BadWord;
      ScanBegins(T, mem, start0, ws);
      FitsEnd(ws, 0);
      ok := true;
      var start := start0;
      ghost var i := 0;
      while start < end
        invariant 0 <= i <= |ws| && start == start0 + i && TablesOk(T)
        invariant ScannedTo(T, mem, start0, ws, i) && OnPath(ws, i) && ScanFits(ws, i)
        invariant SameOutside(old(mem), mem, start0, |ws|)
        decreases |ws| - i
      {
        NotYet(T, mem, start0, ws, i);
        FitsStep(ws, i);
        ok, start := ScanOne(start, start0, ws, i);
        if !ok {
          return;
        }
        i := i + StepSize(ws[i], i);
      }
    }

    /** One step of the scan. */
    method ScanOne(start0: int, ghost base: int, ghost ws: seq<Word>, ghost i: int) returns (ok: bool, start: int)
      requires TablesOk(T) && 0 <= i < |ws| && start0 == base + i && base % 2 == 0 && ScannedTo(T, mem, base, ws, i)
      requires OnPath(ws, i) && i + StepSize(ws[i], i) <= |ws|
      requires forall x :: i <= x < |ws| ==> Get(mem, base + x) == ws[x]
      requires ws[i].Hdr? && ws[i].kind == Code ==> 1 <= ws[i].len
      modifies this`mem
      ensures SameOutside(old(mem), mem, base + i, StepSize(ws[i], i))
      ensures if ok
              then var n := i + StepSize(ws[i], i); start == base + n && ScannedTo(T, mem, base, ws, n) && OnPath(ws, n)
              else BadWord(T, ws)
    {
      hide TablesOk, ScannedTo, OnPath, DutyFrom, BadWord, FixValue, FixLink;
      ok, start := true, start0;
      ghost var mem0 := mem;
      var value := Get(mem, start);
      match value {
      case Hdr(kind, len) =>
        match kind {
          case Text =>
            TextAligned(base, i, len);
            start := (4 * (start + 1) + len + 7) / 8 * 2;
          case ByteArray =>
            TextAligned(base, i, len);
            start := (4 * (start + 1) + len + 7) / 8 * 2;
          case Code =>
            Fix(start + 1);
            start := start + len + 1;
          case Array =>
            ok := ScanLinks(start, ws, i, base);
            start := start + 3;
          case WeakArray =>
            ok := ScanLinks(start, ws, i, base);
            start := start + 3;
          case _ =>
            start := start + 1;
        }
      case Ptr(tag, _) =>
        if tag != Primary7 {
          Fix(start);
        }
        start := start + 1;
      case _ =>
        start := start + 1;
      }
      if ok {
        Advance(T, mem0, mem, base, ws, i);
      }
    }

    /** The links of an array that is on an entry list. */
    method ScanLinks(start: int, ghost ws: seq<Word>, ghost i: int, ghost base: int) returns (ok: bool)
      requires TablesOk(T) && 0 <= i && i + 3 <= |ws| && start == base + i && IsArray(ws[i]) && OnPath(ws, i)
      requires forall x :: i <= x < |ws| ==> Get(mem, base + x) == ws[x]
      modifies this`mem
      ensures SameOutside(old(mem), mem, start, 3) && (ok ==> StepDone(T, mem, base, ws, i)) && (!ok ==> BadWord(T, ws))
    {
      hide TablesOk, OnPath, DutyFrom, BadWord, FixLink;
      ok := true;
      if Get(mem, start + BACK) != Null {
        ok := FixEntry(start + FORWARD);
        if !ok {
          FoundBad(T, ws, i, i + FORWARD);
          return;
        }
        ok := FixEntry(start + BACK);
        if !ok {
          FoundBad(T, ws, i, i + BACK);
        }
      }
    }
  }
}
