/** The table always fits the space reserved for it, so the bytes of a written package can be stated outright. */
module PackageTable {
  import opened Bytes
  import opened Sequences
  import opened RelocTable
  import opened PkgParts
  import opened PackageImage

  /** Relocations in order, of aligned words inside their part, that the table can represent. */
  predicate PartRelocated(part: Part, start: nat) {
    && Ascending(part.relocations)
    && forall r <- part.relocations :: r % 4 == 0 && r + 4 <= |part.data| && start + r < 0x400_0000
  }

  predicate WellRelocated(entries: seq<Entry>, dataStart: nat) {
    forall i :: 0 <= i < |entries| ==> PartRelocated(entries[i].part, dataStart + DataEnd(entries[..i]))
  }

  /** Addresses in order that the table can represent, all below a limit. */
  predicate Listed(addresses: seq<u32>, limit: nat) {
    Ascending(addresses) && forall a <- addresses :: Representable(a) && a < limit
  }

  lemma ShiftListed(part: Part, start: nat)
    requires PartRelocated(part, start) && start % 4 == 0
    ensures Listed(Shift(part.relocations, start), start + |part.data|)
    ensures forall a <- Shift(part.relocations, start) :: start <= a
    ensures |Sets(Shift(part.relocations, start))| <= PageEstimate(part.relocations)
  {
    hide Sets, PageEstimate;
    PartRelocatedFits(part, start);
    var rs, shifted := part.relocations, Shift(part.relocations, start);
    forall i | 0 <= i < |rs| ensures shifted[i] == rs[i] + start && rs[i] in rs {
      assert rs[i] in rs;
    }
  }

  lemma PartRelocatedFits(part: Part, start: nat)
    requires PartRelocated(part, start)
    ensures |Sets(Shift(part.relocations, start))| <= PageEstimate(part.relocations)
  {
    hide Sets, PageEstimate, Shift;
    var rs := part.relocations;
    if rs != [] {
      assert rs[|rs| - 1] in rs;
    }
    PagesWithinEstimate(rs, start);
  }

  lemma ListedAppend(a: seq<u32>, b: seq<u32>, middle: nat, limit: nat)
    requires Listed(a, middle) && Listed(b, limit) && middle <= limit
    requires forall x <- b :: middle <= x
    ensures Listed(a + b, limit)
  {
    var c := a + b;
    forall i, j | 0 <= i < j < |c| ensures c[i] < c[j] {
      if i < |a| <= j {
        assert c[i] == a[i] && a[i] in a && c[j] == b[j - |a|] && b[j - |a|] in b;
      }
    }
  }

  /** The relocations of one more part come after all the others. */
  lemma PartListed(front: seq<u32>, part: Part, start: nat, end: nat)
    requires Listed(front, start) && PartRelocated(part, start) && start % 4 == 0 && start + |part.data| <= end
    ensures Listed(front + Shift(part.relocations, start), end)
    ensures |front + Shift(part.relocations, start)| == |front| + |part.relocations|
    ensures |Sets(front + Shift(part.relocations, start))| <= |Sets(front)| + PageEstimate(part.relocations)
  {
    hide Sets, PageEstimate, Shift, Listed, PartRelocated;
    var shifted := Shift(part.relocations, start);
    ShiftListed(part, start);
    ListedMore(shifted, start + |part.data|, end);
    ListedAppend(front, shifted, start, end);
    SetCountAppend(front, shifted);
  }

  /** The package's relocations, one part after the other: in order, representable, as many as counted, and in no
      more sets than the estimates of the parts add up to. */
  lemma {:induction false} AllRelocationsListed(entries: seq<Entry>, dataStart: nat)
    requires WellRelocated(entries, dataStart) && dataStart % 4 == 0
    ensures Listed(AllRelocations(entries, dataStart), dataStart + DataEnd(entries))
    ensures |AllRelocations(entries, dataStart)| == RelocationCount(entries)
    ensures |Sets(AllRelocations(entries, dataStart))| <= PageCount(entries)
  {
    hide Sets, PageEstimate, Shift, Listed, PartRelocated, WellRelocated, DataEnd, AllRelocations, PageCount,
         RelocationCount;
    if entries == [] {
      NoneListed(dataStart);
      NoEntries(dataStart);
    } else {
      var n := |entries| - 1;
      var start, end := dataStart + DataEnd(entries[..n]), dataStart + DataEnd(entries);
      WellRelocatedFront(entries, dataStart);
      LastEntry(entries, dataStart);
      AllRelocationsListed(entries[..n], dataStart);
      PartListed(AllRelocations(entries[..n], dataStart), entries[n].part, start, end);
    }
  }

  lemma NoEntries(dataStart: nat)
    ensures AllRelocations([], dataStart) == [] && RelocationCount([]) == PageCount([]) == DataEnd([]) == 0
  {
  }

  /** What the last part adds. */
  lemma LastEntry(entries: seq<Entry>, dataStart: nat)
    requires entries != []
    ensures var n := |entries| - 1;
            var part := entries[n].part;
            && AllRelocations(entries, dataStart)
               == AllRelocations(entries[..n], dataStart) + Shift(part.relocations, dataStart + DataEnd(entries[..n]))
            && RelocationCount(entries) == RelocationCount(entries[..n]) + |part.relocations|
            && PageCount(entries) == PageCount(entries[..n]) + PageEstimate(part.relocations)
            && DataEnd(entries) >= DataEnd(entries[..n]) + |part.data|
  {
    hide Shift, PageEstimate, Pad4;
  }

  lemma NoneListed(limit: nat)
    ensures Listed([], limit) && Sets([]) == []
  {
  }

  lemma ListedMore(addresses: seq<u32>, a: nat, b: nat)
    requires Listed(addresses, a) && a <= b
    ensures Listed(addresses, b)
  {
  }

  lemma WellRelocatedFront(entries: seq<Entry>, dataStart: nat)
    requires WellRelocated(entries, dataStart) && entries != []
    ensures WellRelocated(entries[..|entries| - 1], dataStart)
    ensures PartRelocated(entries[|entries| - 1].part, dataStart + DataEnd(entries[..|entries| - 1]))
  {
    hide PartRelocated, DataEnd;
    var front := entries[..|entries| - 1];
    forall i | 0 <= i < |front| ensures PartRelocated(front[i].part, dataStart + DataEnd(front[..i])) {
      assert front[..i] == entries[..i];
    }
  }

  /** The space bound: the sets of a package, each padded, fit the space reserved from the estimates. */
  lemma {:induction false} TableFits(entries: seq<Entry>, dataStart: nat)
    requires WellRelocated(entries, dataStart) && dataStart % 4 == 0
    ensures TableSize(Sets(AllRelocations(entries, dataStart))) <= ReservedForSets(entries)
    ensures forall x <- Sets(AllRelocations(entries, dataStart)) :: |x.offsets| <= 256
  {
    hide Sets, AllRelocations, WellRelocated, PageCount, RelocationCount, SetMax, SetSize, TableSize, Ascending,
         Representable, OffsetOf;
    AllRelocationsListed(entries, dataStart);
    var all := AllRelocations(entries, dataStart);
    var total := RelocationCount(entries);
    SetsAreSmall(all);
    forall x <- Sets(all) ensures SetSize(x) <= SetMax(total) && |x.offsets| <= 256 {
      SetWithinMax(x, total);
    }
    TableSizeBound(Sets(all), SetMax(total));
    ProductMonotone(|Sets(all)|, PageCount(entries), SetMax(total));
  }

  lemma ProductMonotone(a: nat, b: nat, m: nat)
    requires a <= b
    ensures a * m <= b * m
  {
  }

  // ---- the bytes of a package, table included ------------------------------------------

  /** The relocation header and the sets, each padded; zeros fill what the estimate reserved too much. */
  function FilledArea(size: u32, reserved: nat, sets: seq<RelocSet>): (r: seq<byte>)
    requires TableSize(sets) <= reserved
    ensures |r| == TABLE_HEADER_SIZE + reserved
  {
    BE32(0) + BE32(size) + BE32(PAGE_SIZE) + BE32(Low32(|sets|)) + BE32(0)
    + (PaddedBytes(sets) + Zeros(reserved - TableSize(sets)))
  }

  lemma SetsFilled(reserved: nat, sets: seq<RelocSet>)
    requires sets != [] && TableSize(sets) <= reserved
    ensures |TableBytes(sets)| <= reserved
    ensures Overwrite(Zeros(reserved), 0, TableBytes(sets)) == PaddedBytes(sets) + Zeros(reserved - TableSize(sets))
  {
    hide SetBytes, Zeros, Pad4, Overwrite, PaddedBytes;
    var n := |sets| - 1;
    PaddedIsTable(sets);
    var pad := Pad4(|sets[n].offsets|);
    OverwriteZeros(reserved, TableBytes(sets));
    ZerosSplit(pad, reserved - TableSize(sets));
    AppendAssoc(TableBytes(sets), Zeros(pad), Zeros(reserved - TableSize(sets)));
  }

  lemma PaddedIsTable(sets: seq<RelocSet>)
    requires sets != []
    ensures var pad := Pad4(|sets[|sets| - 1].offsets|);
            && PaddedBytes(sets) == TableBytes(sets) + Zeros(pad)
            && TableSize(sets) == |TableBytes(sets)| + pad
  {
    hide SetBytes, Zeros, Pad4;
  }

  /** Emitting over the blank area, first the sets and then their number, fills it. */
  lemma AreaFilled(size: u32, reserved: nat, sets: seq<RelocSet>)
    requires sets != [] && TableSize(sets) <= reserved
    ensures |TableBytes(sets)| <= reserved
    ensures Overwrite(Overwrite(BlankArea(size, reserved), 20, TableBytes(sets)), 12, BE32(Low32(|sets|)))
         == FilledArea(size, reserved, sets)
  {
    hide SetBytes, Zeros, Overwrite, PaddedBytes, TableBytes, TableSize, BE32, Low32;
    SetsFilled(reserved, sets);
    var h, z, n := BE32(0) + BE32(size) + BE32(PAGE_SIZE), BE32(0), BE32(Low32(|sets|));
    var body := PaddedBytes(sets) + Zeros(reserved - TableSize(sets));
    OverwriteSuffix(h + z + BE32(0), Zeros(reserved), 0, TableBytes(sets));
    OverwritePrefix(h + z + BE32(0), body, 12, n);
    OverwritePrefix(h + z, BE32(0), 12, n);
    OverwriteSuffix(h, z, 0, n);
    OverwriteWhole(z, n);
  }

  lemma OverwriteWhole(d: seq<byte>, e: seq<byte>)
    requires |d| == |e|
    ensures Overwrite(d, 0, e) == e
  {
  }

  function TableArea(p: PackageValue): (r: seq<byte>)
    requires ValidStrings(p) && WellRelocated(p.entries, DataStart(p))
  {
    if HasRelocationFlag(EffectiveFlags(p)) then
      DataStartAligned(p);
      TableFits(p.entries, DataStart(p));
      FilledArea(Low32(RelocationSize(p.entries)), ReservedForSets(p.entries), Sets(AllRelocations(p.entries, DataStart(p))))
    else []
  }

  /** The bytes of a package written for a load address. */
  function Image(p: PackageValue, load: u32): seq<byte>
    requires ValidStrings(p) && AccessibleParts(p.entries) && WellRelocated(p.entries, DataStart(p))
  {
    Directory(p) + TableArea(p) + Bodies(Placed(p.entries, load, DataStart(p)))
  }

  /** The writer's back-patching, seen as a whole: exactly the image is written, whatever was there before. */
  lemma WrittenIsImage(was: seq<byte>, start: nat, p: PackageValue, load: u32)
    requires start <= |was| && ValidStrings(p) && AccessibleParts(p.entries) && WellRelocated(p.entries, DataStart(p))
    ensures Written(was, start, p, load) == Overwrite(was, start, Image(p, load))
    ensures |Image(p, load)| == |Plain(p, load)|
  {
    hide Overwrite, Directory, DirectorySize, DataStart, BlankArea, FilledArea, Sets, AllRelocations, Bodies, Placed,
         RelocationCount, PageCount, HasRelocationFlag, Low32, WellRelocated, TableSize, TableBytes, Listed,
         AccessibleParts, ValidStrings, ReservedForSets, RelocationSize;
    DataStartAligned(p);
    AllRelocationsListed(p.entries, DataStart(p));
    TableFits(p.entries, DataStart(p));
    DirectoryLength(p);
    FlagMeans(p);
    var all := AllRelocations(p.entries, DataStart(p));
    if RelocationCount(p.entries) == 0 {
      EmptyTable(p);
      TableWithoutFlag(p);
    } else {
      var size, reserved := Low32(RelocationSize(p.entries)), ReservedForSets(p.entries);
      AreaFilled(size, reserved, Sets(all));
      var d, blank, bodies := Directory(p), BlankArea(size, reserved), Bodies(Placed(p.entries, load, DataStart(p)));
      EmitInside(was, start, d, blank, bodies, TableBytes(Sets(all)), BE32(Low32(|Sets(all)|)));
    }
  }

  /** Without relocations there is nothing to emit: a set flag leaves a header that declares no size. */
  lemma EmptyTable(p: PackageValue)
    requires ValidStrings(p) && WellRelocated(p.entries, DataStart(p)) && RelocationCount(p.entries) == 0
    ensures RelocationSize(p.entries) == 0 && AllRelocations(p.entries, DataStart(p)) == []
    ensures TableSize([]) == 0
    ensures HasRelocationFlag(EffectiveFlags(p)) ==> TableArea(p) == FilledArea(0, 0, []) == RelocationArea(p)
  {
    hide DataStart, DirectorySize, FilledArea, BlankArea, WellRelocated, EffectiveFlags, HasRelocationFlag, SetMax,
         AllRelocations, Listed, RelocationCount, PageCount, Ascending, Sets;
    CountsAgree(p.entries);
    DataStartAligned(p);
    AllRelocationsListed(p.entries, DataStart(p));
    TableFits(p.entries, DataStart(p));
    NoneListed(0);
    NothingToFill();
    assert ReservedForSets(p.entries) == 0;
  }

  lemma NothingToFill()
    ensures TableSize([]) == 0 && FilledArea(0, 0, []) == BlankArea(0, 0)
  {
    hide BE32;
  }

  lemma TableWithoutFlag(p: PackageValue)
    requires ValidStrings(p) && WellRelocated(p.entries, DataStart(p))
    ensures !HasRelocationFlag(EffectiveFlags(p)) ==> TableArea(p) == RelocationArea(p) == []
  {
    hide DataStart, FilledArea, BlankArea, WellRelocated, EffectiveFlags, HasRelocationFlag;
  }

  lemma FlagMeans(p: PackageValue)
    ensures HasRelocationFlag(EffectiveFlags(p)) <==> RelocationCount(p.entries) > 0 || HasRelocationFlag(p.flags)
    ensures PageCount(p.entries) > 0 <==> RelocationCount(p.entries) > 0
  {
    hide PageCount, RelocationCount;
    CountsAgree(p.entries);
    if !HasRelocationFlag(p.flags) {
      FlagAdded(p.flags);
    }
  }

  lemma FlagAdded(flags: u32)
    requires !HasRelocationFlag(flags)
    ensures HasRelocationFlag(Low32(flags + RELOCATION_FLAG)) && Low32(flags + RELOCATION_FLAG) == flags + RELOCATION_FLAG
  {
  }

  lemma {:induction false} CountsAgree(entries: seq<Entry>)
    ensures PageCount(entries) > 0 <==> RelocationCount(entries) > 0
  {
    if entries != [] {
      CountsAgree(entries[..|entries| - 1]);
    }
  }

  lemma EmitInside(was: seq<byte>, start: nat, d: seq<byte>, blank: seq<byte>, bodies: seq<byte>,
                   table: seq<byte>, count: seq<byte>)
    requires start <= |was| && 20 + |table| <= |blank| && |count| == 4
    ensures Overwrite(Overwrite(Overwrite(was, start, d + blank + bodies), start + |d| + 12 + 8, table), start + |d| + 12, count)
         == Overwrite(was, start, d + Overwrite(Overwrite(blank, 20, table), 12, count) + bodies)
  {
    hide Overwrite;
    var plain := d + blank + bodies;
    OverwriteInside(was, start, plain, |d| + 20, table);
    OverwritePrefix(d + blank, bodies, |d| + 20, table);
    OverwriteSuffix(d, blank, 20, table);
    var filled := Overwrite(blank, 20, table);
    OverwriteInside(was, start, d + filled + bodies, |d| + 12, count);
    OverwritePrefix(d + filled, bodies, |d| + 12, count);
    OverwriteSuffix(d, filled, 12, count);
  }

  /** The size the writer adds up is the size it writes, except when the relocation flag was set on a package without
      relocations: then it writes a relocation header it did not count. */
  lemma SizeCountedIff(p: PackageValue, load: u32)
    requires ValidStrings(p) && AccessibleParts(p.entries)
    ensures |Plain(p, load)| == GlobalSize(p) <==> !(HasRelocationFlag(p.flags) && RelocationCount(p.entries) == 0)
    ensures |Plain(p, load)| >= GlobalSize(p)
  {
    hide Directory, DirectorySize, Placed, Bodies, DataEnd, BlankArea, PageCount, RelocationCount, RelocationArea,
         RelocationSize, HasRelocationFlag, ValidStrings, AccessibleParts, SameShape;
    DirectoryLength(p);
    CountsAgree(p.entries);
    PlacedShape(p.entries, load, DataStart(p));
    SameShapeSame(Placed(p.entries, load, DataStart(p)), p.entries, 0, 0);
    AreaLength(p);
  }

  lemma AreaLength(p: PackageValue)
    ensures |RelocationArea(p)| == RelocationSize(p.entries) <==> !(HasRelocationFlag(p.flags) && PageCount(p.entries) == 0)
    ensures |RelocationArea(p)| >= RelocationSize(p.entries)
  {
    hide PageCount, RelocationCount, SetMax, BlankArea;
    if !HasRelocationFlag(p.flags) {
      FlagAdded(p.flags);
    }
    if PageCount(p.entries) == 0 {
      assert ReservedForSets(p.entries) == 0;
    }
  }

  /** The size the header declares, in 32 bits, is the size written if and only if the package is below 4 GiB and not
      one without relocations whose relocation flag was set. */
  lemma DeclaredSizeIff(p: PackageValue, load: u32)
    requires ValidStrings(p) && AccessibleParts(p.entries)
    ensures Low32(GlobalSize(p)) == |Plain(p, load)|
       <==> GlobalSize(p) < TWO_32 && !(HasRelocationFlag(p.flags) && RelocationCount(p.entries) == 0)
  {
    hide *;
    SizeCountedIff(p, load);
    WrapsUnless(GlobalSize(p), |Plain(p, load)|);
  }

  lemma WrapsUnless(size: nat, written: nat)
    requires written >= size
    ensures Low32(size) == written <==> size < TWO_32 && written == size
  {
  }

  /** A package without parts or relocations whose relocation flag is set. */
  const FLAGGED := PackageValue(true, 0, RELOCATION_FLAG, 0, 0, [0], [0], [], [])

  /** It declares 56 bytes and writes 76. */
  lemma FlaggedDeclaresTooLittle(load: u32)
    ensures ValidStrings(FLAGGED) && AccessibleParts(FLAGGED.entries)
    ensures Low32(GlobalSize(FLAGGED)) == 56 && |Plain(FLAGGED, load)| == 76
  {
    var p := FLAGGED;
    assert p.copyright[0] == 0 && p.name[0] == 0;
    assert StrLen([0]) == 0 && |CString([0])| == 1;
    assert UnpaddedDirectorySize(p) == 56 && DirectorySize(p) == 56;
    assert RelocationSize(p.entries) == 0 && DataEnd(p.entries) == 0;
    DirectoryLength(p);
    assert Placed(p.entries, load, DataStart(p)) == [];
    assert HasRelocationFlag(p.flags) && EffectiveFlags(p) == p.flags;
    assert |RelocationArea(p)| == 20;
  }

  // A part of a word whose only relocation is 2.
  const ODD_ENTRY := Entry(0, 0, [], [], Part(0, 0, [0, 0, 0, 0], [2]))
  const ODD_PACKAGE := PackageValue(true, 0, 0, 0, 0, [0], [0], [], [ODD_ENTRY])

  /** Its part data starts at 116, so its relocation is at 118, and the table holds 116 for it. */
  lemma RelocationLost()
    ensures ValidStrings(ODD_PACKAGE) && AccessibleParts(ODD_PACKAGE.entries) && DataStart(ODD_PACKAGE) == 116
    ensures AllRelocations(ODD_PACKAGE.entries, 116) == [118] && Addresses(Sets([118])) == [116]
  {
    hide Sets, Addresses;
    var p := ODD_PACKAGE;
    assert p.copyright[0] == 0 && p.name[0] == 0;
    assert StrLen([0]) == 0 && |CString([0])| == 1;
    assert p.entries[..0] == [] && Infos([]) == [] && Infos(p.entries) == [];
    assert DirectorySize(p) == 88;
    assert PageCount([]) == 0 && RelocationCount([]) == 0 && RelocationCount(p.entries) == 1;
    assert RelocationSize(p.entries) == 28;
    assert AllRelocations([], 116) == [] && DataEnd([]) == 0;
    assert Shift([2], 116) == [118];
    SetsThenAddresses([118]);
    assert AllTruncated([118]) == [116];
  }
}
