/** What moving a part does to its words, and when moving a part that was read from a package is right. */
module PartMove {
  import opened Bytes
  import opened Modular
  import opened RelocTable
  import opened PkgParts
  import opened PackageImage
  import opened PackageTable
  import opened PackageReadBack
  import opened PackageRoundTrip
  import opened PackageFixedPoint

  /** Relocations of distinct whole words of the data, in order. */
  predicate WordsOf(data: seq<byte>, relocations: seq<u32>) {
    Ascending(relocations) && forall r <- relocations :: r % 4 == 0 && r + 4 <= |data|
  }

  predicate EndBefore(relocations: seq<u32>, limit: nat) {
    forall r <- relocations :: r as int + 4 <= limit
  }

  lemma PatchedWord(data: seq<byte>, at: nat, delta: int)
    requires at + 4 <= |data|
    ensures U32At(PatchWord(data, at, delta), at) == Low32(U32At(data, at) + delta)
    ensures forall j :: 0 <= j < |data| && !(at <= j < at + 4) ==> PatchWord(data, at, delta)[j] == data[j]
  {
    hide BE32, U32At, Low32;
    var v := Low32(U32At(data, at) + delta);
    assert PatchWord(data, at, delta)[at..at + 4] == BE32(v);
    DecodeBE32(PatchWord(data, at, delta), at, v);
  }

  lemma WordsFront(data: seq<byte>, relocations: seq<u32>)
    requires WordsOf(data, relocations) && relocations != []
    ensures WordsOf(data, relocations[..|relocations| - 1]) && AllInside(data, relocations[..|relocations| - 1])
    ensures EndBefore(relocations[..|relocations| - 1], relocations[|relocations| - 1])
    ensures WordStart(relocations[|relocations| - 1]) == relocations[|relocations| - 1] as int <= |data| - 4
    ensures Accessible(data, relocations)
  {
    var n := |relocations| - 1;
    var front := relocations[..n];
    assert relocations[n] in relocations;
    forall i | 0 <= i < n ensures front[i] + 4 <= relocations[n] && front[i] in relocations {
      assert relocations[i] in relocations;
    }
    assert forall r <- relocations :: r <= |data| ==> r / 4 * 4 == r;
  }

  lemma RelocatedLast(data: seq<byte>, relocations: seq<u32>, delta: int)
    requires WordsOf(data, relocations) && relocations != []
    ensures Accessible(data, relocations) && Accessible(data, relocations[..|relocations| - 1])
    ensures relocations[|relocations| - 1] + 4 <= |data|
    ensures Relocated(data, relocations, delta)
         == PatchWord(Relocated(data, relocations[..|relocations| - 1], delta), relocations[|relocations| - 1], delta)
  {
    hide WordsOf, PatchWord, WordStart;
    WordsFront(data, relocations);
    assert forall r <- relocations[..|relocations| - 1] :: r in relocations;
  }

  lemma WordsAccessible(data: seq<byte>, relocations: seq<u32>)
    requires WordsOf(data, relocations)
    ensures Accessible(data, relocations) && AllInside(data, relocations)
  {
    if relocations != [] {
      WordsFront(data, relocations);
    }
  }

  predicate Outside(j: nat, relocations: seq<u32>) {
    forall r <- relocations :: !(r <= j < r as int + 4)
  }

  /** Bytes outside the relocated words stay. */
  lemma {:induction false} RelocatedElsewhere(data: seq<byte>, relocations: seq<u32>, delta: int, j: nat)
    requires WordsOf(data, relocations) && j < |data| && Outside(j, relocations)
    ensures Accessible(data, relocations) && Relocated(data, relocations, delta)[j] == data[j]
  {
    WordsAccessible(data, relocations);
    if relocations != [] {
      var n := |relocations| - 1;
      var front, r := relocations[..n], relocations[n];
      WordsFront(data, relocations);
      RelocatedLast(data, relocations, delta);
      assert forall x <- front :: x in relocations;
      assert r in relocations;
      RelocatedElsewhere(data, front, delta, j);
      PatchedWord(Relocated(data, front, delta), r, delta);
    }
  }

  /** A patch elsewhere, or bytes that did not change: the word is the same. */
  lemma SameWord(a: seq<byte>, b: seq<byte>, at: nat)
    requires |a| == |b| && at + 4 <= |a| && forall j :: at <= j < at + 4 ==> a[j] == b[j]
    ensures U32At(a, at) == U32At(b, at)
  {
  }

  lemma NotYetMoved(data: seq<byte>, front: seq<u32>, delta: int, r: nat)
    requires WordsOf(data, front) && EndBefore(front, r) && r + 4 <= |data|
    ensures Accessible(data, front) && U32At(Relocated(data, front, delta), r) == U32At(data, r)
  {
    hide U32At, Relocated;
    WordsAccessible(data, front);
    var d := Relocated(data, front, delta);
    forall j | r <= j < r + 4 ensures d[j] == data[j] {
      RelocatedElsewhere(data, front, delta, j);
    }
    SameWord(d, data, r);
  }

  lemma PatchedElsewhere(d: seq<byte>, at: nat, delta: int, other: nat)
    requires at + 4 <= |d| && other + 4 <= at
    ensures U32At(PatchWord(d, at, delta), other) == U32At(d, other)
  {
    hide U32At, PatchWord;
    PatchedWord(d, at, delta);
    SameWord(PatchWord(d, at, delta), d, other);
  }

  /** Every relocated word is moved once, whatever the number of relocations. */
  lemma {:induction false} RelocatedWord(data: seq<byte>, relocations: seq<u32>, delta: int, k: nat)
    requires WordsOf(data, relocations) && k < |relocations|
    ensures Accessible(data, relocations) && relocations[k] as int + 4 <= |data|
    ensures U32At(Relocated(data, relocations, delta), relocations[k]) == Low32(U32At(data, relocations[k]) + delta)
  {
    hide U32At, Relocated, PatchWord, Low32, WordsOf, Accessible;
    var n := |relocations| - 1;
    var front, r := relocations[..n], relocations[n];
    WordsFront(data, relocations);
    WordsAccessible(data, front);
    RelocatedLast(data, relocations, delta);
    var d := Relocated(data, front, delta);
    if k < n {
      RelocatedWord(data, front, delta, k);
      assert front[k] in front;
      PatchedElsewhere(d, r, delta, relocations[k]);
    } else {
      NotYetMoved(data, front, delta, r);
      PatchedWord(d, r, delta);
    }
  }

  lemma DeltaMatters(w: u32, a: int, b: int)
    ensures Low32(w + a) == Low32(w + b) <==> Congruent(a, b, TWO_32)
  {
  }

  lemma DeltasAdd(w: u32, a: int, b: int)
    ensures Low32(Low32(w + a) + b) == Low32(w + (a + b))
  {
  }

  lemma WordDigits(a: byte, b: byte, c: byte, d: byte, e: byte, f: byte, g: byte, h: byte)
    requires a as int * 0x100_0000 + b as int * 0x1_0000 + c as int * 0x100 + d as int
          == e as int * 0x100_0000 + f as int * 0x1_0000 + g as int * 0x100 + h as int
    ensures a == e && b == f && c == g && d == h
  {
  }

  lemma EqualWords(x: seq<byte>, y: seq<byte>, at: nat)
    requires |x| == |y| && at + 4 <= |x| && U32At(x, at) == U32At(y, at)
    ensures forall j :: at <= j < at + 4 ==> x[j] == y[j]
  {
    WordDigits(x[at], x[at + 1], x[at + 2], x[at + 3], y[at], y[at + 1], y[at + 2], y[at + 3]);
  }

  /** Bytes are determined by the relocated words and the bytes outside them. */
  lemma SameByWords(x: seq<byte>, y: seq<byte>, relocations: seq<u32>)
    requires |x| == |y| && WordsOf(x, relocations)
    requires forall k :: 0 <= k < |relocations| && relocations[k] as int + 4 <= |x| ==>
               U32At(x, relocations[k]) == U32At(y, relocations[k])
    requires forall j :: 0 <= j < |x| && Outside(j, relocations) ==> x[j] == y[j]
    ensures x == y
  {
    hide U32At;
    forall j | 0 <= j < |x| ensures x[j] == y[j] {
      if !Outside(j, relocations) {
        var r :| r in relocations && r <= j < r as int + 4;
        var k :| 0 <= k < |relocations| && relocations[k] == r;
        EqualWords(x, y, relocations[k]);
      }
    }
  }

  lemma {:induction false} MovedTwice(data: seq<byte>, once: seq<byte>, relocations: seq<u32>, a: int, b: int, sum: int, k: nat)
    requires WordsOf(data, relocations) && WordsOf(once, relocations) && k < |relocations| && sum == a + b
    requires Accessible(data, relocations) && once == Relocated(data, relocations, a)
    ensures Accessible(once, relocations) && relocations[k] as int + 4 <= |data|
    ensures U32At(Relocated(once, relocations, b), relocations[k]) == U32At(Relocated(data, relocations, sum), relocations[k])
  {
    hide U32At, Relocated, Low32, Accessible, WordsOf;
    RelocatedWord(data, relocations, a, k);
    RelocatedWord(once, relocations, b, k);
    RelocatedWord(data, relocations, sum, k);
    DeltasAdd(U32At(data, relocations[k]), a, b);
  }

  /** Moving twice is moving once by the sum. */
  lemma MovesCompose(data: seq<byte>, relocations: seq<u32>, a: int, b: int, sum: int)
    requires WordsOf(data, relocations) && sum == a + b
    ensures Accessible(data, relocations) && Accessible(Relocated(data, relocations, a), relocations)
    ensures Relocated(Relocated(data, relocations, a), relocations, b) == Relocated(data, relocations, sum)
  {
    hide U32At, Relocated, Low32, Accessible;
    WordsAccessible(data, relocations);
    var once := Relocated(data, relocations, a);
    WordsAccessible(once, relocations);
    var twice, direct := Relocated(once, relocations, b), Relocated(data, relocations, sum);
    forall k | 0 <= k < |relocations| && relocations[k] as int + 4 <= |data|
      ensures U32At(twice, relocations[k]) == U32At(direct, relocations[k])
    {
      MovedTwice(data, once, relocations, a, b, sum, k);
    }
    forall j | 0 <= j < |data| && Outside(j, relocations) ensures twice[j] == direct[j] {
      RelocatedElsewhere(data, relocations, a, j);
      RelocatedElsewhere(once, relocations, b, j);
      RelocatedElsewhere(data, relocations, sum, j);
    }
    SameByWords(twice, direct, relocations);
  }

  lemma MovedByNothing(data: seq<byte>, relocations: seq<u32>)
    requires WordsOf(data, relocations)
    ensures Accessible(data, relocations) && Relocated(data, relocations, 0) == data
  {
    hide U32At, Relocated, Low32, Accessible;
    WordsAccessible(data, relocations);
    var same := Relocated(data, relocations, 0);
    forall k | 0 <= k < |relocations| && relocations[k] as int + 4 <= |data|
      ensures U32At(same, relocations[k]) == U32At(data, relocations[k])
    {
      RelocatedWord(data, relocations, 0, k);
      Low32Exact(U32At(data, relocations[k]));
    }
    forall j | 0 <= j < |data| && Outside(j, relocations) ensures same[j] == data[j] {
      RelocatedElsewhere(data, relocations, 0, j);
    }
    SameByWords(same, data, relocations);
  }

  /** Moving by different amounts gives different bytes, as soon as there is a relocation. */
  lemma MovesDiffer(data: seq<byte>, relocations: seq<u32>, a: int, b: int)
    requires WordsOf(data, relocations)
    ensures Accessible(data, relocations)
    ensures Relocated(data, relocations, a) == Relocated(data, relocations, b)
        <==> relocations == [] || Congruent(a, b, TWO_32)
  {
    hide U32At, Relocated, Low32, Accessible, Congruent, WordsOf;
    WordsAccessible(data, relocations);
    if relocations == [] {
      NothingMoved(data, relocations, a, b);
    } else {
      RelocatedWord(data, relocations, a, 0);
      RelocatedWord(data, relocations, b, 0);
      DeltaMatters(U32At(data, relocations[0]), a, b);
      if Congruent(a, b, TWO_32) {
        SameMoves(data, relocations, a, b);
      }
    }
  }

  lemma NothingMoved(data: seq<byte>, relocations: seq<u32>, a: int, b: int)
    requires relocations == []
    ensures Accessible(data, relocations) && Relocated(data, relocations, a) == Relocated(data, relocations, b)
  {
  }

  lemma SameMovedWord(data: seq<byte>, relocations: seq<u32>, a: int, b: int, k: nat)
    requires WordsOf(data, relocations) && Congruent(a, b, TWO_32) && k < |relocations|
    ensures Accessible(data, relocations) && relocations[k] as int + 4 <= |data|
    ensures U32At(Relocated(data, relocations, a), relocations[k]) == U32At(Relocated(data, relocations, b), relocations[k])
  {
    hide U32At, Relocated, Low32, Accessible, WordsOf, Congruent;
    RelocatedWord(data, relocations, a, k);
    RelocatedWord(data, relocations, b, k);
    DeltaMatters(U32At(data, relocations[k]), a, b);
  }

  lemma SameMoves(data: seq<byte>, relocations: seq<u32>, a: int, b: int)
    requires WordsOf(data, relocations) && Congruent(a, b, TWO_32)
    ensures Accessible(data, relocations) && Relocated(data, relocations, a) == Relocated(data, relocations, b)
  {
    hide U32At, Relocated, Low32, Accessible, Congruent, WordsOf, Outside;
    WordsAccessible(data, relocations);
    var x, y := Relocated(data, relocations, a), Relocated(data, relocations, b);
    forall k | 0 <= k < |relocations| && relocations[k] as int + 4 <= |data|
      ensures U32At(x, relocations[k]) == U32At(y, relocations[k])
    {
      SameMovedWord(data, relocations, a, b, k);
    }
    forall j | 0 <= j < |data| && Outside(j, relocations) ensures x[j] == y[j] {
      RelocatedElsewhere(data, relocations, a, j);
      RelocatedElsewhere(data, relocations, b, j);
    }
    WordsOfMoved(data, x, relocations);
    SameByWords(x, y, relocations);
  }

  lemma WordsOfMoved(data: seq<byte>, moved: seq<byte>, relocations: seq<u32>)
    requires WordsOf(data, relocations) && |moved| == |data|
    ensures WordsOf(moved, relocations)
  {
  }

  /** A part is moved rightly when every relocated word changes by as much as the part moves. */
  predicate MovedRightly(part: Part, at: u32)
    requires Accessible(part.data, part.relocations)
  {
    Moved(part, at).data == Relocated(part.data, part.relocations, at as int - part.offset as int)
  }

  /** The encoder moves by the distance from the base address, so it is right exactly when the part stays, has no
      relocations, or was last encoded for its base address. */
  lemma MovedRightlyIff(part: Part, at: u32)
    requires WordsOf(part.data, part.relocations)
    ensures Accessible(part.data, part.relocations)
    ensures MovedRightly(part, at) <==> part.relocations == [] || at == part.offset || part.base == part.offset
  {
    hide Accessible, AllInside, WordsOf, Relocated;
    WordsAccessible(part.data, part.relocations);
    if NeedsEncoding(part, at) {
      var x, y := at as int - part.base as int, at as int - part.offset as int;
      MovesDifferUnless(part.data, part.relocations, x, y, part.base, part.offset, at);
    } else {
      MovedByNothing(part.data, part.relocations);
      if part.relocations == [] {
        NothingMoved(part.data, part.relocations, at as int - part.offset as int, 0);
      }
    }
  }

  lemma MovesDifferUnless(data: seq<byte>, relocations: seq<u32>, x: int, y: int, a: u32, b: u32, at: u32)
    requires WordsOf(data, relocations) && relocations != []
    requires x == at as int - a as int && y == at as int - b as int
    ensures Accessible(data, relocations)
    ensures Relocated(data, relocations, x) == Relocated(data, relocations, y) <==> a == b
  {
    hide Relocated, Accessible, WordsOf, Congruent;
    MovesDiffer(data, relocations, x, y);
    SameModulo(a, b, at, x, y);
  }

  lemma SameModulo(a: u32, b: u32, at: u32, x: int, y: int)
    requires x == at as int - a as int && y == at as int - b as int
    ensures Congruent(x, y, TWO_32) <==> a == b
  {
  }

  lemma BaseIsPlaceIff(part: Part, placed: Part, load: u32, dataStart: u32, offset: nat, to: u32)
    requires WordsOf(placed.data, placed.relocations)
    requires part == RereadPart(placed, Low32(load as int + dataStart as int + offset), dataStart)
    ensures Accessible(part.data, part.relocations) && part.relocations == placed.relocations
    ensures MovedRightly(part, to)
       <==> part.relocations == [] || to == part.offset || (load as int + offset) % TWO_32 == 0
  {
    MovedRightlyIff(part, to);
    WrapsToStart(load as int + offset, dataStart);
  }

  lemma WrapsToStart(x: int, start: u32)
    ensures Low32(x + start) == start <==> x % TWO_32 == 0
  {
  }

  lemma PlacedPart(entries: seq<Entry>, load: u32, dataStart: nat, i: nat)
    requires AccessibleParts(entries) && i < |entries|
    ensures Placed(entries, load, dataStart)[i].part.relocations == entries[i].part.relocations
    ensures |Placed(entries, load, dataStart)[i].part.data| == |entries[i].part.data|
  {
    hide PlaceOf, Accessible, Relocated;
  }

  lemma PlaceIs(p: PackageValue, load: u32, i: nat)
    requires ValidStrings(p) && i < |p.entries|
    ensures PlaceOf(p.entries, load, DataStart(p), i) == Low32(load as int + DataStart(p) as int + DataEnd(p.entries[..i]))
  {
    hide DataStart, DataEnd;
  }

  lemma RereadPlace(p: PackageValue, load: u32, i: nat)
    requires ValidStrings(p) && AccessibleParts(p.entries) && i < |p.entries|
    ensures |Reread(p, load).entries| == |p.entries|
    ensures Reread(p, load).entries[i].part
         == RereadPart(Placed(p.entries, load, DataStart(p))[i].part, PlaceOf(p.entries, load, DataStart(p), i),
                       Low32(DataStart(p)))
  {
    hide *;
    RereadPartIs(p, load, i);
    RereadPlaced(p, load, i);
  }

  lemma RereadPlaced(p: PackageValue, load: u32, i: nat)
    requires ValidStrings(p) && AccessibleParts(p.entries) && i < |p.entries|
    ensures PlaceOf(Placed(p.entries, load, DataStart(p)), load, DataStart(p), i)
         == PlaceOf(p.entries, load, DataStart(p), i)
  {
    hide DataStart, PlaceOf, Placed, Alike, ValidStrings, AccessibleParts;
    PlacedShape(p.entries, load, DataStart(p));
    PlaceAlike(Placed(p.entries, load, DataStart(p)), p.entries, load, DataStart(p), i);
  }

  lemma WellRelocatedPart(p: PackageValue, i: nat)
    requires WellFormed(p) && i < |p.entries|
    ensures PartRelocated(p.entries[i].part, DataStart(p) + DataEnd(p.entries[..i]))
  {
    hide DataStart, DataEnd, PartRelocated, FieldsFit, AccessibleParts;
  }

  lemma DataStartFits(p: PackageValue)
    requires WellFormed(p)
    ensures DataStart(p) < TWO_32
  {
    hide DataEnd, DataStart, AccessibleParts, WellRelocated, StringsSize, InfoSize;
  }

  lemma RelocatedWords(part: Part, data: seq<byte>, start: nat)
    requires PartRelocated(part, start) && |data| == |part.data|
    ensures WordsOf(data, part.relocations)
  {
  }

  /** A part read back from a package was encoded for its place, but its base address is the start of the part data
      without the load address or the part's own offset: asked for its bytes at another place, it is moved rightly
      exactly when that makes no difference, that is, without relocations, or for the part at the start of the part data
      of a package read at address 0 (or where the two wrap around to 0). */
  lemma RereadMovedRightlyIff(p: PackageValue, load: u32, i: nat, to: u32)
    requires WellFormed(p) && i < |p.entries|
    ensures ValidStrings(p) && AccessibleParts(p.entries) && |Reread(p, load).entries| == |p.entries|
    ensures var part := Reread(p, load).entries[i].part;
            && Accessible(part.data, part.relocations) && part.relocations == p.entries[i].part.relocations
            && (MovedRightly(part, to)
                <==> part.relocations == [] || to == part.offset
                     || (load as int + DataEnd(p.entries[..i])) % TWO_32 == 0)
  {
    hide *;
    Unpacked(p);
    DataStartFits(p);
    Low32Exact(DataStart(p));
    WellRelocatedPart(p, i);
    PlaceIs(p, load, i);
    RereadPlace(p, load, i);
    PlacedPart(p.entries, load, DataStart(p), i);
    var part, placed := Reread(p, load).entries[i].part, Placed(p.entries, load, DataStart(p))[i].part;
    var start, offset := DataStart(p), DataEnd(p.entries[..i]);
    RelocatedWords(p.entries[i].part, placed.data, start + offset);
    BaseIsPlaceIff(part, placed, load, start, offset, to);
  }

  // Two parts of a word each; the word of the second is relocated.
  const FIRST := Entry(0, 0, [], [], Part(0, 0, [1, 2, 3, 4], []))
  const SECOND := Entry(0, 0, [], [], Part(0, 0, [0, 0, 0, 0], [0]))
  const TWO_PARTS := PackageValue(true, 0, 0, 0, 0, [0], [0], [], [FIRST, SECOND])

  lemma TwoPartsLayout()
    ensures ValidStrings(TWO_PARTS) && StringsSize(TWO_PARTS) == 4 && DirectorySize(TWO_PARTS) == 120
    ensures InfoSize(TWO_PARTS.entries) == 0 && DataEnd([FIRST]) == 4 && DataEnd(TWO_PARTS.entries) == 8
    ensures DataEnd([]) == 0 && RelocationSize(TWO_PARTS.entries) == 28
  {
    var p := TWO_PARTS;
    assert p.copyright[0] == 0 && p.name[0] == 0;
    assert StrLen([0]) == 0 && |CString([0])| == 1;
    assert p.entries[..1] == [FIRST] && [FIRST][..0] == [];
    assert Infos([]) == [] && Infos([FIRST]) == [];
    assert Infos(p.entries) == Infos([FIRST]) + SECOND.info + SECOND.extra == [];
    assert InfoSize([FIRST]) == 0;
    assert PageCount([]) == 0 && PageCount([FIRST]) == 0;
    assert RelocationCount([FIRST]) == 0 && RelocationCount(p.entries) == 1;
  }

  lemma NoInfoYet()
    ensures InfoSize([]) == 0 && InfoSize([FIRST]) == 0
  {
    assert [FIRST][..0] == [];
  }

  lemma TwoPartsWellFormed()
    ensures WellFormed(TWO_PARTS)
  {
    hide DirectorySize, StringsSize, InfoSize, DataEnd, RelocationSize;
    TwoPartsLayout();
    var entries := TWO_PARTS.entries;
    assert entries[..0] == [] && entries[..1] == [FIRST];
    assert InfoSize([]) == 0 && InfoSize([FIRST]) == 0 by {
      NoInfoYet();
    }
    assert |CString([0])| == 1 by {
      assert StrLen([0]) == 0;
    }
    assert PartRelocated(FIRST.part, DataStart(TWO_PARTS)) && PartRelocated(SECOND.part, DataStart(TWO_PARTS) + 4);
  }

  /** Read back at address 0, the second of them is moved wrongly to every other place. */
  lemma SecondPartMovedWrongly(to: u32)
    ensures WellFormed(TWO_PARTS) && AccessibleParts(TWO_PARTS.entries) && |Reread(TWO_PARTS, 0).entries| == 2
    ensures var part := Reread(TWO_PARTS, 0).entries[1].part;
            Accessible(part.data, part.relocations) && (to != part.offset ==> !MovedRightly(part, to))
  {
    TwoPartsWellFormed();
    TwoPartsLayout();
    RereadMovedRightlyIff(TWO_PARTS, 0, 1, to);
    assert TWO_PARTS.entries[..1] == [FIRST];
  }
}
