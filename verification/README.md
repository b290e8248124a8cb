# The memory system of the MLWorks runtime

The MLWorks runtime keeps ML values in a heap of generations. When the creation space is full, arrays that
were written to since the last collection are put on an *entry list*, the remembered set of a generation, which
is threaded through link words inside the arrays themselves. A generation is collected by copying its live
objects to the end of another one, leaving a forwarding reference behind; large *static objects* are not moved
but marked and freed, and *weak arrays* lose their references to objects that died. References may lead into the
middle of an object: to a subclosure of a shared closure, or to a code item of a code vector. This project models
that collector on one memory of tagged words and proves what a collection keeps, what it frees and what it leaves
behind for the next one. Around it are the other parts of the runtime with a law at their centre: conversion of
binary fractions to decimal digits on big integers, heap images that can be saved and loaded at other places, two
allocators, the hash table of C roots, `append`, which writes into old cells without telling the collector, and
the codec of the foreign interface.

`dafny verify dfyconfig.toml` checks all of it.

## How the modules fit together

- **Words and objects.** `Heap` has the tagged words, the shapes of objects and the layout of a heap: which words
  belong to which object, the roots, the heads of entry lists, the types of spaces, and what is reachable.
- **One collection.** `Copying` has the invariant of a collection in progress: a trail `T` that says where each
  original word is now, and the rings of the entry lists in terms of original places. `Moving` shows that the steps
  of `fixup` keep it, `Scanning` does the same for the loop that scans a region whose end moves, `EntryLists`,
  `Remembered`, `Weak` and `Sweeping` for the work on lists. `Collector` is the class with the methods that change
  memory; `Outcome` and `Survival` turn what the phases achieve into the result of a whole collection.
- **One collection after another.** `Aftermath`, `Steady`, `Areas` and `Relisting` describe the heap after a collection
  in terms of the new places and show that it is a well-formed heap again, whose areas can be scanned. `Cycle` closes
  the circle: it says when a heap is *at rest* (`AtRest`), shows that any collection can start from such a heap and that
  it leads to a heap at rest. `Mutator` has the writes to arrays in between, `Making` the making, numbering and giving
  back of generations; they lead from a heap at rest to one at rest, too. Two things can go wrong in a collection, and
  each has its exact condition on the heap before: `Stranding` and `SelfReference` are heaps in which they do.
- **The chain of generations** is `Generations`; **the table of roots** is `RootTable` (`Roots` has its entries).
- **Decimal digits.** `Words`, `Bignum`, `Aligning`, `Digits`, `Shortest`.
- **Heap images.** `ImageFormat` (the stream), `ImageChecks` (which streams are refused, and why), `ImageSave`,
  `ImageScan` (relocation), `ImageUnits` (what was where and goes where), `ImageLoad`, `ImageTrip` (saving and loading
  again).
- **Allocators.** `Malloc` and `Statics`. **Lists** and **marshalling**: `Lists`, `Marshal`. `Bits` and `Seqs` are small
  helpers.

Code that works on fields is a class with the methods of the source; each method is proved against functions and
predicates over the values of those fields, and the laws are lemmas about these.

## Model

| member | source | states |
|---|---|---|
| Heap.ShapeTight | src/rts/src/values.h:347-355 | objects take an even number of words, with room for all their fields or bytes and no more than one word, or seven bytes, to spare |
| Collector.Collector.Fixup | src/rts/src/fixup.c:186-452 | a call on any cell leaves every other original word what it was, wherever it is now; the cell's reference into from-space is forwarded with its offset; at most the object it leads to is copied, and then as a whole; a static object it leads to loses its mark; what stays behind at the old place of a copied array is its old elements, up to forwarding; the invariant of the collection holds again, list links included |
| Copying.EvacuateNext | src/rts/src/fixup.c:402-448 | after an array has moved, the forward link of every node of every entry list leads to the present place of its successor |
| Copying.EvacuatePrev | src/rts/src/fixup.c:422-425 | the same for back links |
| Collector.Collector.ScanRegion | src/rts/src/fixup.h:136-166 | scanning an area of whole objects leaves no slot in it that refers to from-space or to a marked static object; nothing but slots of cells changes, and those only by being forwarded |
| Collector.Collector.ScanTo | src/rts/src/gc.c:1712-1749 | scanning to-space while it grows ends, and then all slots up to the final end are done |
| Collector.Collector.FixElements | src/rts/src/gc.c:1217-1244 | after the elements of a listed array have been fixed, the forward link read there leads to the present place of its successor if and only if the array is not in from-space, has been copied before, or has no element that refers to it; otherwise the word read is a tagged reference to its copy |
| Collector.Collector.FixEntryList | src/rts/src/gc.c:1195-1288 | the walk along a list is lost if and only if one of its ordinary arrays lies in from-space, has not been copied at the start, refers to itself, and no element of an array ahead of it on the list refers to it; otherwise every ordinary array on the list, old copy or new, has all its elements done and is afterwards on the list of the youngest generation it refers to, or on none if that is its own; no other array changes lists |
| Survival.TimelyIffInTurn | src/rts/src/gc.c:1682-1707 | whether an array that refers to itself has been copied when its turn comes can be told from the lists as they were when the collection began and from the cells fixed so far |
| SelfReference.WalkLost | src/rts/src/gc.c:1221-1244 | a concrete heap with one array that contains itself: the word read as the next array on the list is the tagged address of its copy |
| SelfReference.CollectScene | src/rts/src/gc.c:1682-1707 | in that heap a whole collection loses the walk if and only if no root that counts for images refers to the array; if one does, the copy contains itself |
| Collector.Collector.WeakFix | src/rts/src/gc.c:1072-1119 | a weak element is forwarded with its offset if its object was copied, cut if it was not or is a static object still marked, and otherwise unchanged, also for references into the middle of objects; no other word changes |
| Collector.Collector.WeakFixEntryList | src/rts/src/gc.c:1301-1368 | all weak arrays on a list have been dealt with and are on the list of the youngest generation that they still refer to or lie in; no other array changes lists |
| Collector.Collector.SweepEntryLists | src/rts/src/gc.c:1138-1174 | from the lists of all generations of the chain just the arrays are taken that are left behind, the others stay in order |
| Collector.Collector.FixCRoots | src/rts/src/gc.c:1612-1627 | all roots of the table, or those that count for an image, are done |
| Collector.Collector.MarkStatics | src/rts/src/gc.c:1429-1443 | the static objects of the generation are marked and count as objects of the target, and no other |
| Collector.Collector.SweepStatics | src/rts/src/gc.c:1453-1482 | just the objects still marked are freed; the others join the list of the target, no generation else changes |
| Collector.Collector.CollectGen | src/rts/src/gc.c:1662-1766 | a collection loses a walk if and only if an array of from-space that refers to itself, on a list that is gone through, is the target of no image root and of no slot or element fixed before its turn (`OnTime`, on the heap before); in all other cases: every live word is the original one with its reference forwarded, just the reachable objects are copied, just the unmentioned static objects freed, every weak element refers to the same word of its object if that can be reached and is cut if not, so that it still shares with live cells, every live array listed where it belongs, the links of all lists intact; dead arrays stay on a list just if they are stranded in the sense told beforehand |
| Outcome.LiveDone | src/rts/src/gc.c:1634-1654 | when copying is over, no root and no slot of a live object in any generation, the older ones included, refers to from-space or to a freed object: the remembered sets missed nothing |
| Outcome.CopiedIffReachable | src/rts/src/gc.c:1634-1654 | an object of from-space is copied if and only if a chain of references leads to it from where the collection sets out |
| Outcome.MarkedIffUnmentioned | src/rts/src/gc.c:1453-1468 | a static object keeps its mark, and so is freed, if and only if neither an entry slot nor a reachable object refers to it |
| Outcome.WeakOutcome | src/rts/src/gc.c:1061-1070 | the result of `weak_fix` holds of every weak element of the heap, also of those on lists that are not gone through |
| Aftermath.WeakFatesOf | src/rts/src/gc.c:1061-1119 | in terms of what can be reached: a weak element that referred into from-space refers to the same word of the same object at its new place if a chain of references leads to the object, and is cut if not; one that referred to a static object of the collected generation is cut if and only if nothing mentions the object; any other is unchanged; and a weak element that held the same reference as a live cell holds the same one again |
| Outcome.RemembersEnd | src/rts/src/gc.c:1186-1193 | references from older to younger generations come only from arrays on the list of that or a still younger generation; arrays from lists that were gone through are on the list of exactly the youngest generation they refer to, all others where they were |
| Outcome.AllFiledExactly | src/rts/src/gc.c:1246-1275 | a live array from a list that was gone through is on a list if and only if it is weak or refers to a younger generation than its own, and then on that of the youngest one it refers to, or, if it is weak, of its own |
| Outcome.SpaceBound | src/rts/src/gc.c:2001-2006 | the words copied are never more than from-space held, so the room made for them suffices |
| Outcome.StuckIffStranded | src/rts/src/gc.c:1138-1174 | which arrays stay on a list although they are freed can be told before the collection: the static weak arrays of a generation collected in place that nothing mentions and that refer to no younger generation |
| Stranding.FreedButListed | src/rts/src/gc.c:1796-1830 | a concrete heap with such an array: after the collection it has been freed and is still on an entry list |
| Aftermath.ObjectsAgain | src/rts/src/fixup.c:263-450 | the heap after a collection consists of whole, well-formed objects that do not overlap |
| Aftermath.SoundAgain | src/rts/src/fixup.c:302-394 | if all references led to legal targets, entries of shared closures and code vectors included, they do again |
| Aftermath.SharingKept | src/rts/src/fixup.c:226-233 | two live cells hold the same reference afterwards if and only if they did before: sharing and cycles are kept |
| Steady.OrderlyAgain | src/rts/src/gc.c:1646-1648 | after a collection every object lies where the descriptor of its generation says, and every reference to a younger generation is recorded, for the layout in terms of the new places |
| Relisting.InOrderIffNoneStranded | src/rts/src/gc.c:1151-1155 | the link words left in memory are entry lists through live arrays if and only if no array was stranded |
| Areas.AllScannable | src/rts/src/gc.c:1691-1707 | the areas of all younger generations and the static objects of a heap in order can be scanned as whole objects, without a gap |
| Areas.AreasAgain | src/rts/src/gc.c:1748-1766 | after a collection the area of every generation is whole objects without a gap again: that of the target is longer by just the copies, that of the collected generation empty |
| Cycle.Starts | src/rts/src/gc.c:1640-1654 | from a heap at rest, whatever generation is chosen, everything holds that a collection asks for (`Cycle.Choose` puts it together as `Collectible`) |
| Cycle.CollectOnce | src/rts/src/gc.c:1662-1766 | a collection of a heap at rest, if no walk is lost, preserves what is live, cuts just the weak references to what cannot be reached, and leaves whole objects, legal references, recorded references and areas without gaps; if moreover no array was stranded, the heap is at rest again, so collections can follow each other in any number |
| Mutator.TakeOver | src/rts/src/gc.c:1384-1420 | from a heap at rest the program can go on and write to arrays |
| Mutator.HandBack | src/rts/src/gc.c:1384-1420 | after any writes, moving the modified arrays to the entry list brings the heap back to rest, so that a collection can start |
| Making.HeapRenumbered | src/rts/src/gc.c:1844-1852 | the heap stays in order under any change of numbers that keeps the order of the generations in use |
| Making.RenumberGenerations | src/rts/src/gc.c:1844-1852 | along the parent links every generation gets its place in the chain as its number, and the heap stays at rest |
| Making.MakeGeneration | src/rts/src/mem.c:671-704 | a new generation in a free space is empty, with an empty entry list; no word but the links of its descriptor changes, and the heap stays at rest |
| Making.UnmakeGeneration | src/rts/src/mem.c:706-711 | an empty generation can be given back with its space and descriptor, and the heap stays at rest |
| Mutator.Mutator.Update | src/rts/src/values.c:183-202 | writing any legal value to any array, wherever it is listed, keeps the heap in order but for the modified arrays; the array is on the list of modified arrays once and on no entry list |
| Mutator.Mutator.MoveModifiedList | src/rts/src/gc.c:1384-1420 | from a list of modified arrays of any length all references are recorded again, the entry lists are well linked, that of the creation space gets in front of what it had just the arrays outside that space and the weak ones, and the number of modified arrays is returned |
| Generations.Chain.InplaceCollect | src/rts/src/gc.c:1796-1831 | the new generation takes the place of the old one in the chain, or, for the creation space, the place above it; the chain stays doubly linked |
| Generations.Chain.InsertGenBelow | src/rts/src/gc.c:1857-1866 | the chain is the old one with an empty generation inserted, numbered in order |
| Generations.Chain.RemoveGen | src/rts/src/gc.c:1885-1891 | the chain is the old one without the generation, numbered in order |
| Generations.Chain.Round | src/rts/src/gc.c:1968-2049 | for any set of due generations: each is collected once, youngest first; what survives is kept, once; what was in an older generation than something else is not in a younger one afterwards; if a merge is wanted, the first generation that is due while neither of its neighbours is, and only that one, is taken out of the chain, empty, and none if there is no such generation or no wish; just the creation space may still be due |
| Generations.RoundKeeps | src/rts/src/gc.c:1968-2049 | whatever the collections find dead, the survivors of each generation are in the one position the plan gives them, and positions keep the order of ages |
| RootTable.Table.Declare | src/rts/src/gc.c:1585-1592 | the multiset of roots grows by the one declared, with its flag; the table is doubled, or made, just when more than half of it would be taken |
| RootTable.Table.Retract | src/rts/src/gc.c:1594-1610 | a root is found if and only if it was declared; one entry of it goes, all others stay and can still be found; the table is halved just when less than an eighth of it is taken |
| RootTable.Table.Rehash | src/rts/src/gc.c:1561-1583 | the roots of the new table are those of the old one, and from where the probing for any of them starts there is no empty slot before it |
| Bignum.Pool.MultAdd | src/rts/src/dtoa.c:457-500 | the value is multiplied and added to exactly, growing by a word when it must |
| Bignum.Pool.Mult | src/rts/src/dtoa.c:638-726 | schoolbook multiplication in 16-bit halves gives the product |
| Bignum.Pool.Pow5Mult | src/rts/src/dtoa.c:728-783 | the product with a power of five; the shared list of squares grows lazily, stays a list of the right powers, and none of its numbers is given away or changed |
| Bignum.Pool.LShift | src/rts/src/dtoa.c:785-843 | the product with a power of two |
| Bignum.Cmp | src/rts/src/dtoa.c:845-877 | the sign is that of the comparison of the values |
| Bignum.Pool.Diff | src/rts/src/dtoa.c:879-958 | the difference of the values and its sign |
| Bignum.QuoRem | src/rts/src/dtoa.c:1926-2030 | the estimate from the leading words needs at most one correction: the result is the quotient, what is left is the remainder |
| Aligning.AlignDivisor | src/rts/src/dtoa.c:2561-2582 | after the shift the divisor has its leading word where the quotient estimate needs it, and is scaled by just that power of two |
| Digits.RoundOff | src/rts/src/dtoa.c:2689-2697 | dropping trailing nines and carrying adds one to the digits as a number, to the point where the exponent grows |
| Digits.FixedDigits | src/rts/src/dtoa.c:2676-2702 | the digits are the quotient rounded to the nearest number with as many places as asked for, of two equally near ones to the even one, without trailing zeros |
| Shortest.ShortestDigits | src/rts/src/dtoa.c:2605-2675 | the digits denote a number within the rounding interval, and no shorter digits do; if the upper margin is not the smaller one, which it never is in `dtoa`, no number with as many digits in the interval is nearer, if and only if the interval is not one in which nine is rounded up to its end (`NineUp`); of two equally near numbers it is the even one, or the lower one if the upper one is just the end of the interval; the last digit is not zero |
| Shortest.DecidedNearest | src/rts/src/dtoa.c:2624-2663 | where the digits stop, and whichever branch is taken, the choice between rounding down and up gives the nearer number that is allowed, but for a nine that is rounded up to the end of the interval |
| Shortest.NineUpHappens | src/rts/src/dtoa.c:2630-2633 | with 9.3 and margins of 0.7 the digits say ten, although nine is nearer and allowed |
| Malloc.CHeap.Malloc | src/rts/src/alloc.c:334-378 | a block that was not in use, large enough and less than a minimal block too large; no other block in use changes, in place or in contents; memory is extended only if no free block fits; and no free block that fits lies before it |
| Malloc.CHeap.Extend | src/rts/src/alloc.c:273-300 | the new chunk is one free block; blocks and contents are untouched |
| Malloc.CHeap.Free | src/rts/src/alloc.c:423-482 | the block joins the free space, merged with neighbours, so that no two free blocks touch; all other blocks in use keep place and contents; an address that no block in use begins at is left alone, be the mark missing there or be it found in the old contents of a free block |
| Malloc.CHeap.Realloc | src/rts/src/alloc.c:484-525 | the first bytes, up to the smaller of the sizes, are the same at the result; no other block in use changes; the old block is freed if the contents moved; with the cases of null pointers, size 0 and pointers without the mark as the code has them |
| Malloc.EachByteOnce | src/rts/src/alloc.c:273-300 | every byte of a chunk belongs to just one block, which is either in use or on the free list |
| Malloc.FirstFit | src/rts/src/alloc.c:334-360 | among the free blocks the first in address order that fits is taken |
| Statics.StaticSpaces.Make | src/rts/src/mem.c:515-575 | the objects of one space grow by the new one, all others stay; it is the end of the first fitting hole of the first space that has one; only if no hole fits is it put behind the last space that has room at its end, or in a new static space |
| Statics.Unmake | src/rts/src/mem.c:583-622 | the freed object becomes a hole merged with both neighbours, in the address-ordered circular list, with sizes adding up |
| Statics.StaticSpaces.Free | src/rts/src/mem.c:583-622 | just the one object goes, all other objects of all spaces stay |
| Lists.Memory.Append | src/rts/src/lists.c:85-130 | for any two lists and however collections fall between its allocations: the result has the elements of the first list and then the second list itself, nothing else changes, and no new cell refers to anything in a younger generation, neither with its head nor with its tail |
| Lists.Memory.Prepare | src/rts/src/lists.c:100-120 | the cells put in front of the second list are younger than everything they are going to refer to, through any collection |
| Lists.Memory.CopyHeads | src/rts/src/lists.c:122-128 | the unlogged writes fill just those cells |
| Marshal.MarshalAll | src/rts/src/marshal.c:90-129 | the bytes written are the encoding of the values; it fails just for unknown codes |
| Marshal.Unmarshal | src/rts/src/marshal.c:131-182 | what is read is the decoding of the bytes, with the position behind them |
| Marshal.RoundTrip | src/rts/src/marshal.c:90-182 | decoding what was encoded, before and behind anything else, gives the values back and stops right behind them |
| Marshal.ReadBack | src/rts/src/marshal.c:59-88 | the chunks of any number are read back as that number |
| Marshal.FiveChunks | src/rts/src/marshal.c:59-70 | a 16-bit value takes at most three bytes and a 32-bit value at most five |
| Marshal.ChunkDigits | src/rts/src/marshal.c:59-70 | the chunks are the digits of the number to the base of 128, the least significant first and without leading zeros, and all but the last are marked |
| Marshal.IntegerBack | src/rts/src/marshal.c:72-88 | any integer of up to five chunks is read back but for the bits that its type has no room for |
| ImageFormat.ImageBack | src/rts/src/image.c:375-497 | parsing the stream of an image gives the image back and stops right behind it |
| ImageChecks.SumLaws | src/rts/src/image.c:356-366 | the checksum of no words, of one word, and of areas put together: the exclusive or of the parts |
| ImageChecks.OneAltered | src/rts/src/image.c:356-366 | areas that differ in just one word have different checksums |
| ImageChecks.RawApart | src/rts/src/image.c:356-366 | different words are different numbers to the checksum |
| Bits.XorBit | src/rts/src/image.c:361 | a bit of the exclusive or is set if and only if it is set in just one of the numbers |
| ImageChecks.AlteredGen | src/rts/src/image.c:919-926 | the stream of an image in which one word of a generation is altered is refused with a format error |
| ImageChecks.AlteredStat | src/rts/src/image.c:953-962 | likewise for a word of a static object |
| ImageChecks.CutShort | src/rts/src/image.c:794-962 | no proper beginning of the stream of an image is read as one: it gives a read error |
| ImageChecks.Unidentified | src/rts/src/image.c:811-826 | offsets that are not in order give a format error, and another identification a version error |
| ImageChecks.OnlyImages | src/rts/src/image.c:802-962 | whatever is read as an image has the identification, and after it word for word what is written for the image that was read, with generations numbered in order and the right checksums |
| ImageChecks.TableInPlace | src/rts/src/image.c:375-428 | the offsets at the beginning of the stream lead to the table of contents, which ends with a zero, and to the image |
| ImageSave.Save | src/rts/src/image.c:375-497 | the stream that is written is that of the heap in memory: chain, static lists, contents and checksums |
| ImageScan.ScanRelocates | src/rts/src/image.c:742-792 | over an area of whole objects the loader's scan relocates just the values and the links of listed arrays; headers, strings, bytearrays and code are untouched |
| ImageUnits.RingKept | src/rts/src/image.c:682-714 | an entry list is the same ring after loading, through the same arrays at their new places, across areas, static objects and descriptors |
| ImageUnits.BadIffLost | src/rts/src/image.c:682-740 | a link cannot be fixed just if it leads to none of a generation's space, a static object or a list head |
| ImageUnits.DescriptorKept | src/rts/src/image.c:883-913 | the descriptor of each generation after loading, field by field |
| ImageLoad.ReadImage | src/rts/src/image.c:802-962 | reading agrees with the parser on every stream, errors included |
| ImageLoad.Load | src/rts/src/image.c:794-1053 | a stream that is no image gives the parser's error; an image whose lists of static objects, spaces and last fields are in order is loaded if and only if each of its entry links leads into the space of a generation, to a static object or to a list head; then every word of every area, static object and descriptor is relocated as it should be, and every descriptor has its number, sizes and counts, the links to its neighbours in the chain, and the bounds of its area at the new place |
| ImageTrip.SaveAndLoad | src/rts/src/image.c:375-1053 | loading what was saved from a heap in order succeeds, and gives the same words with references relocated, the same descriptors in one doubly linked chain, the same lists of static objects and the same entry lists; references, that of the root included, keep their tags and lead to the same words of the same objects, those out of the heap are untouched; and the heap can be saved again, with as many live words |
| ImageTrip.ShapeAgain | src/rts/src/image.c:883-913 | the chain and the lists of static objects at the new places are as saving needs them |


## Findings

- **A freed array can stay on an entry list.** `sweep_entry_lists` goes through the generations of the chain
  (src/rts/src/gc.c:1144), but during `inplace_collect` the target is not in the chain yet. A dead static weak array
  of the generation that is collected is moved by `weak_fix_entry_list` to the list of the target
  (src/rts/src/gc.c:1350-1361), is not swept from there, and is freed by `sweep_static_objects`.
  `Stranding.FreedButListed` gives such a heap. `Stranded` says exactly which arrays this happens to, in terms of the
  heap before the collection, and `Relisting.InOrderIffNoneStranded` that the lists are in order in all other cases.
- **The creation space stays due.** When the creation space and the next generation are both due, the creation
  space is collected in place and its `collect` is not reset (src/rts/src/gc.c:1978-1986). `Generations.Chain.Round`
  has the exact condition, `StillDue`. It has no effect on what is collected next, since `think` adds 1 to the
  creation space's `collect` each time.
- **An array that contains itself.** `fix_entry_list` reads the forward link of an array after fixing its elements
  (src/rts/src/gc.c:1244), and `fixup` overwrites that link when it copies the array. The walk along the list then goes
  on at the tagged address of the copy. For one visit `Collector.Collector.FixElements` has the exact condition: the
  array lies in from-space, has not been copied yet and has an element that refers to it. For a whole collection
  `OnTime` in `Outcome` has it, in terms of the heap before: nothing goes wrong if and only if every such array on a
  list that is gone through has been reached by an image root, or by a slot or an element that is fixed earlier.
  `SelfReference` has a heap where the walk is lost, and shows that it is not lost in the same heap if the root that
  refers to the array counts for images. `CollectGen` and `CollectOnce` are proved for all heaps: they tell by `lost`
  which case it is.
- **Nine may be rounded up to ten.** Where the upper end of the rounding interval counts and is a number with as many
  digits as have been produced, the digit loop takes it if the last digit is nine, even if rounding down would give a
  nearer number of the interval (src/rts/src/dtoa.c:2630-2633). `Shortest.ShortestDigits` has the exact condition,
  `NineUp`, and `Shortest.NineUpHappens` an instance. It needs a margin of more than a twentieth of the number.
- The comment of `sweep_entry_lists` speaks of all generations; the code visits those in the chain. `fixup.c` names the
  type of static spaces `TYPE_STATIC`, which elsewhere is `TYPE_ML_STATIC`; the model has one type.

## Left out

- Collector.Collector.CollectGen: does not say what memory is like when a walk has been lost: the code would go on and
  read a tagged address as that of an array.
- Malloc.CHeap.Realloc: for a size other than 0, a pointer into a free block whose old contents show the mark is left
  out: the code would take a size from those contents. `Free`, and size 0, leave such a pointer alone.
- Malloc.CHeap.Free: a pointer into the middle of a block in use, whose contents happen to show the mark, is left out:
  the code cannot tell it from a block.
- ImageLoad.Load: images whose static lists, spaces or last fields are not in order are left out; `Loadable` says what
  is asked of them.
- Stack crawling (`stack_crawl_phase_one` and `_two`): values on the ML stack can be given as further roots of the
  table.
- Split collections and `image_top` differing from `top`: the second pass over younger generations is only made when
  split collection is switched on.
- `sort_entry_list` and the fields `nr_entries` and `last`: before an image is saved the lists are sorted; the loader's
  treatment of `last` is modelled, with the condition that sorting establishes.
- Allocation of objects and arrays between collections: `Mutator` has the writes to arrays, whose record-keeping is
  what later collections rely on.
- The policy of `think` (which generations are due, floating point) and the resizing of spaces: due generations are a
  parameter of `Round`, room in to-space is a condition that `SpaceBound` justifies.
- Which objects a collection in the chain finds dead is a parameter of `Round`; `Collector` says which they are.
- `collect_gen` sets the top of the target before weak arrays and lists are dealt with; the model sets it with the rest
  of the bookkeeping at the end. Nothing in between reads it.
- Lists of static objects as the collector sees them are sequences; their links are modelled in `ImageSave` and
  `ImageLoad`. The collector's generations have numbers and parent links, and `Making` shows that a heap at rest stays
  so when generations are made, numbered and given back; the doubly linked chain of `Generations` is a class of its own.
- Machine-code versions of `fixup` and `scan`, statistics, heap analysis and profiling hooks, and cache flushing.
- `strtod`, the setup of `dtoa` from a floating point number, its test of the estimated exponent (`k_check`) and its
  fast paths for small numbers: the digit loops are modelled on the big integers they work on.
- Image streams are sequences of words: the bytes of the table of contents are one to a word. Files, memory streams
  and errors of the operating system are not modelled; a failed load leaves no claim about memory. The list of module
  names is a parameter. The loader reads areas right into their places; the model reads the image first and places it
  then.
- `space_alloc`, `space_resize` and the hole functions of the arena: the places of new spaces and chunks are parameters.
- `check_malloced` looks at the word before a pointer; for pointers into unmapped memory the model says that there is no
  block.
- `calloc`, `_msize` and stacks, which add only easy members. What `malloc` and `realloc` do with a size of 0 is that of
  the Linux layer (src/rts/src/OS/Linux/os.c:175-189).
