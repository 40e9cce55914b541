/** Reading back what was written: the same package, with the directory padding as extra info, each part with
    exactly its own relocations; and writing that again writes the same bytes. */
module PackageRoundTrip {
  import opened Wrappers
  import opened Bytes
  import opened MemStreams
  import opened RelocTable
  import opened PkgParts
  import opened PackageImage
  import opened PackageTable
  import opened PackageParse
  import opened PackageReadBack

  // ---- the directory --------------------------------------------------------------------------

  /** The header the reader finds. */
  function HeaderOf(p: PackageValue): RawHeader
    requires WellFormed(p)
  {
    HeaderFits(p);
    RawHeader(EffectiveNos1(p), p.id, EffectiveFlags(p), p.version,
              0, 2 * |CString(p.copyright)|, 2 * |CString(p.copyright)|, 2 * |CString(p.name)|,
              GlobalSize(p), p.date, DirectorySize(p), |p.entries|)
  }

  predicate HeaderMatches(p: PackageValue, h: RawHeader)
    requires ValidStrings(p)
  {
    && h.nos1 == EffectiveNos1(p) && h.id == p.id && h.flags == EffectiveFlags(p) && h.version == p.version
    && h.copyrightOffset == 0 && h.copyrightLength == 2 * |CString(p.copyright)| == h.nameOffset
    && h.nameLength == 2 * |CString(p.name)| && h.size == GlobalSize(p) && h.date == p.date
    && h.directorySize == DirectorySize(p) && h.numParts == |p.entries|
  }

  lemma HeaderFits(p: PackageValue)
    requires WellFormed(p)
    ensures 2 * |CString(p.copyright)| < TWO_16 && 2 * |CString(p.name)| < TWO_16
    ensures GlobalSize(p) < TWO_32 && DirectorySize(p) < TWO_32 && |p.entries| < TWO_32
    ensures HEADER_SIZE + ENTRY_SIZE * |p.entries| < DirectorySize(p)
    ensures EntriesFit(p.entries, StringsSize(p))
  {
    hide CString, Infos, InfoSize, RelocationSize, DataEnd, WellRelocated, AccessibleParts, Pad4;
  }

  lemma HeaderOfMatches(p: PackageValue)
    requires WellFormed(p)
    ensures ValidStrings(p) && HeaderMatches(p, HeaderOf(p))
  {
    hide CString, GlobalSize, DirectorySize, EffectiveFlags, EffectiveNos1, AccessibleParts, WellRelocated,
         FieldsFit, RelocationCount;
  }

  lemma Low16Of(x: nat, v: u16)
    requires x == v
    ensures Low16(x) == v
  {
  }

  lemma Low32Of(x: nat, v: u32)
    requires x == v
    ensures Low32(x) == v
  {
  }

  lemma HeaderExact(p: PackageValue, h: RawHeader)
    requires ValidStrings(p) && HeaderMatches(p, h)
    ensures Header(p) == HeaderBytes(h.nos1, h.id, h.flags, h.version, h.copyrightLength, h.nameLength, h.size, h.date,
                                     h.directorySize, h.numParts)
  {
    hide HeaderBytes, CString, GlobalSize, DirectorySize, EffectiveFlags, EffectiveNos1, Low16, Low32;
    Low16Of(2 * |CString(p.copyright)|, h.copyrightLength);
    Low16Of(2 * |CString(p.name)|, h.nameLength);
    Low32Of(GlobalSize(p), h.size);
    Low32Of(DirectorySize(p), h.directorySize);
    Low32Of(|p.entries|, h.numParts);
  }

  lemma HeaderEven(p: PackageValue, h: RawHeader)
    requires ValidStrings(p) && HeaderMatches(p, h)
    ensures h.copyrightLength % 2 == 0 && h.nameLength % 2 == 0
    ensures h.copyrightOffset == 0 && h.nameOffset == h.copyrightLength
    ensures h.copyrightLength == 2 * |CString(p.copyright)| && h.nameLength == 2 * |CString(p.name)|
    ensures h.numParts == |p.entries| && h.directorySize == DirectorySize(p)
  {
    hide CString, GlobalSize, DirectorySize, ValidStrings, EffectiveFlags, EffectiveNos1;
  }

  lemma HeaderIs(p: PackageValue, h: RawHeader, s: seq<byte>, pos: nat)
    requires ValidStrings(p) && HeaderMatches(p, h) && Holds(s, pos, Header(p))
    ensures HeaderAt(s, pos) == Got(h, pos + HEADER_SIZE)
  {
    hide *;
    HeaderEven(p, h);
    HeaderExact(p, h);
    HeaderReadBack(s, pos, h.nos1, h.id, h.flags, h.version, h.copyrightLength, h.nameLength, h.size, h.date,
                   h.directorySize, h.numParts);
  }

  lemma DirectoryParts(p: PackageValue, s: seq<byte>, pos: nat, p1: nat, p2: nat)
    requires ValidStrings(p) && Holds(s, pos, Directory(p))
    requires p1 == pos + HEADER_SIZE && p2 == p1 + ENTRY_SIZE * |p.entries|
    ensures Holds(s, pos, Header(p)) && Holds(s, p1, EntriesBytes(p.entries, StringsSize(p)))
    ensures Holds(s, p2, DirectoryData(p))
    ensures |DirectoryData(p)| == DirectorySize(p) - (HEADER_SIZE + ENTRY_SIZE * |p.entries|)
  {
    hide Holds, Header, EntriesBytes, DirectoryData, StringsSize, DirectorySize;
    DirectoryDataLength(p);
    HoldsBoth(s, pos, Header(p) + EntriesBytes(p.entries, StringsSize(p)), DirectoryData(p));
    HoldsBoth(s, pos, Header(p), EntriesBytes(p.entries, StringsSize(p)));
  }

  lemma DirectoryDataLength(p: PackageValue)
    requires ValidStrings(p)
    ensures |DirectoryData(p)| == DirectorySize(p) - (HEADER_SIZE + ENTRY_SIZE * |p.entries|)
  {
    hide Infos, CString, Pad4;
  }

  lemma DirectoryFrom(s: seq<byte>, pos: nat, p1: nat, p2: nat, h: RawHeader, raws: seq<RawEntry>, d: seq<byte>,
                      directory: RawDirectory)
    requires HeaderAt(s, pos) == Got(h, p1) && EntriesAt(s, p1, h.numParts) == Got(raws, p2)
    requires HEADER_SIZE + ENTRY_SIZE * h.numParts < h.directorySize
    requires |d| == h.directorySize - (HEADER_SIZE + ENTRY_SIZE * h.numParts)
    requires BytesAt(s, p2, |d|) == Got(d, p2 + |d|)
    requires h.copyrightLength % 2 == 0 && h.nameLength % 2 == 0 && DirectoryIn(d, h, raws) == Success(directory)
    ensures DirectoryAt(s, pos) == Got(RawPackage(h, raws, directory), p2 + |d|)
  {
    hide HeaderAt, EntriesAt, BytesAt, DirectoryIn;
    Low32Exact(HEADER_SIZE + ENTRY_SIZE * h.numParts);
  }

  lemma DirectoryIs(p: PackageValue, h: RawHeader, raws: seq<RawEntry>, s: seq<byte>, pos: nat)
    requires ValidStrings(p) && HeaderMatches(p, h) && EntriesFit(p.entries, StringsSize(p))
    requires HEADER_SIZE + ENTRY_SIZE * |p.entries| < DirectorySize(p)
    requires raws == RawsOf(p.entries, StringsSize(p)) && Holds(s, pos, Directory(p))
    ensures DirectoryAt(s, pos) == Got(RawPackage(h, raws, DirectoryOf(p)), pos + DirectorySize(p))
  {
    hide HeaderMatches, Holds, Header, EntriesBytes, DirectoryData, StringsSize, HeaderAt, EntriesAt, BytesAt, DirectoryIn,
         DirectoryOf, RawsOf, DirectorySize, EntriesFit, CString, Directory, DirectoryAt, ValidStrings;
    HeaderEven(p, h);
    var p1 := pos + HEADER_SIZE;
    var p2 := p1 + ENTRY_SIZE * |p.entries|;
    var d := DirectoryData(p);
    DirectoryParts(p, s, pos, p1, p2);
    HeaderIs(p, h, s, pos);
    EntriesReadBack(s, p1, p.entries, StringsSize(p));
    BytesHeld(s, p2, d);
    DirectoryReadBack(p, h);
    DirectoryFrom(s, pos, p1, p2, h, raws, d, DirectoryOf(p));
  }

  // ---- the relocations --------------------------------------------------------------------------

  predicate TableRead(p: PackageValue, s: seq<byte>, pos: nat)
    requires ValidStrings(p) && WellRelocated(p.entries, DataStart(p)) && RelocationSize(p.entries) < TWO_32
  {
    RelocationsIfFlagged(s, pos, EffectiveFlags(p))
    == Got(RawRelocations(RelocationSize(p.entries), 0, Sets(AllRelocations(p.entries, DataStart(p)))),
           pos + |TableArea(p)|)
  }

  lemma TableIs(p: PackageValue, s: seq<byte>, pos: nat)
    requires ValidStrings(p) && WellRelocated(p.entries, DataStart(p)) && GlobalSize(p) < TWO_32
    requires Holds(s, pos, TableArea(p))
    ensures RelocationsIfFlagged(s, pos, EffectiveFlags(p))
         == Got(RawRelocations(RelocationSize(p.entries), 0, Sets(AllRelocations(p.entries, DataStart(p)))),
                pos + |TableArea(p)|)
  {
    hide Holds, Sets, AllRelocations, WellRelocated, PageCount, RelocationCount, RelocationsIfFlagged, TableArea,
         RelocationSize, DataStart, EffectiveFlags, ValidStrings;
    AreaSizes(p);
    if RelocationCount(p.entries) == 0 {
      NoTableIs(p, s, pos);
    } else {
      SomeTableIs(p, s, pos);
    }
  }

  lemma NoTableIs(p: PackageValue, s: seq<byte>, pos: nat)
    requires ValidStrings(p) && WellRelocated(p.entries, DataStart(p)) && RelocationCount(p.entries) == 0
    requires RelocationSize(p.entries) < TWO_32 && Holds(s, pos, TableArea(p))
    ensures TableRead(p, s, pos)
  {
    hide Holds, Sets, AllRelocations, WellRelocated, PageCount, RelocationCount, RelocationsAt, FilledArea, TableSize,
         DirectorySize, DataStart, EffectiveFlags, HasRelocationFlag, TableArea, RelocationSize, RelocationArea;
    EmptyTable(p);
    TableWithoutFlag(p);
    NoSets(AllRelocations(p.entries, DataStart(p)));
    if HasRelocationFlag(EffectiveFlags(p)) {
      EmptyTableReadBack(s, pos);
    }
  }

  lemma SomeTableIs(p: PackageValue, s: seq<byte>, pos: nat)
    requires ValidStrings(p) && WellRelocated(p.entries, DataStart(p)) && RelocationCount(p.entries) > 0
    requires RelocationSize(p.entries) < TWO_32 && PageCount(p.entries) < TWO_32 && Holds(s, pos, TableArea(p))
    ensures TableRead(p, s, pos)
  {
    hide Holds, Sets, AllRelocations, WellRelocated, PageCount, RelocationCount, RelocationsAt, FilledArea, TableSize,
         DirectorySize, DataStart, DataEnd, EffectiveFlags, HasRelocationFlag, Listed, ReservedForSets, Low32;
    FlagMeans(p);
    DataStartAligned(p);
    TableFits(p.entries, DataStart(p));
    AllRelocationsListed(p.entries, DataStart(p));
    Low32Exact(RelocationSize(p.entries));
    RelocationsReadBack(s, pos, RelocationSize(p.entries), ReservedForSets(p.entries),
                        Sets(AllRelocations(p.entries, DataStart(p))));
  }

  lemma NoSets(addresses: seq<u32>)
    ensures addresses == [] ==> Sets(addresses) == []
  {
  }

  lemma AreaSizes(p: PackageValue)
    requires ValidStrings(p) && GlobalSize(p) < TWO_32
    ensures RelocationSize(p.entries) < 0x1_0000_0000 && PageCount(p.entries) < 0x1_0000_0000
    ensures DataStart(p) < 0x1_0000_0000 && DataStart(p) + DataEnd(p.entries) == GlobalSize(p)
  {
    hide PageCount, RelocationCount, DataEnd, DirectorySize;
    if PageCount(p.entries) > 0 {
      assert SetMax(RelocationCount(p.entries)) >= 1;
      AtLeastFactor(PageCount(p.entries), SetMax(RelocationCount(p.entries)));
    }
  }

  lemma AtLeastFactor(a: nat, m: nat)
    requires m >= 1
    ensures a * m >= a
  {
  }

  /** The reader gets the package's own addresses back from the table. */
  lemma {:induction false} AddressesReadBack(entries: seq<Entry>, dataStart: nat)
    requires WellRelocated(entries, dataStart) && dataStart % 4 == 0
    ensures Addresses(Sets(AllRelocations(entries, dataStart))) == AllRelocations(entries, dataStart)
  {
    hide Sets, Addresses, AllRelocations, WellRelocated, Representable, Ascending;
    AllRelocationsListed(entries, dataStart);
    AddressesKeptIff(AllRelocations(entries, dataStart));
  }

  // ---- the parts --------------------------------------------------------------------------------

  lemma {:induction false} RawsSame(a: seq<Entry>, b: seq<Entry>, infoBase: nat)
    requires Alike(a, b)
    ensures RawsOf(a, infoBase) == RawsOf(b, infoBase)
  {
    hide DataEnd, InfoSize, Low16, Low32;
    if a != [] {
      var n := |a| - 1;
      assert Alike(a[..n], b[..n]);
      RawsSame(a[..n], b[..n], infoBase);
      AlikeSame(a[..n], b[..n], 0, infoBase);
    }
  }

  lemma PartRelocatedSame(a: Part, b: Part, start: nat)
    requires |a.data| == |b.data| && a.relocations == b.relocations && PartRelocated(b, start)
    ensures PartRelocated(a, start)
  {
  }

  lemma WellRelocatedSame(a: seq<Entry>, b: seq<Entry>, dataStart: nat)
    requires Alike(a, b) && WellRelocated(b, dataStart)
    ensures WellRelocated(a, dataStart)
  {
    hide DataEnd, PartRelocated;
    forall i | 0 <= i < |a| ensures PartRelocated(a[i].part, dataStart + DataEnd(a[..i])) {
      AlikeSame(a[..i], b[..i], dataStart, 0);
      PartRelocatedSame(a[i].part, b[i].part, dataStart + DataEnd(b[..i]));
    }
  }

  lemma InfoFitsSame(a: seq<Entry>, b: seq<Entry>, infoBase: nat)
    requires Alike(a, b) && InfoFits(b, infoBase)
    ensures InfoFits(a, infoBase)
  {
    hide InfoSize;
    forall i | 0 <= i < |a| ensures infoBase + InfoSize(a[..i]) < TWO_16 && |a[i].info| < TWO_16 {
      AlikeSame(a[..i], b[..i], 0, infoBase);
    }
  }

  lemma PlacedHeld(p: PackageValue, placed: seq<Entry>, at: Placement)
    requires WellFormed(p) && placed == Placed(p.entries, at.packageOffset, DataStart(p))
    requires at.dataStart == DataStart(p) && at.addresses == AllRelocations(p.entries, DataStart(p))
    ensures PartsHeld(Bodies(placed), placed, StringsSize(p), at)
    ensures RawsOf(placed, StringsSize(p)) == RawsOf(p.entries, StringsSize(p))
    ensures SameShape(placed, p.entries) && DataEnd(placed) == DataEnd(p.entries)
  {
    hide Bodies, RawsOf, DataEnd, DataStart, StringsSize, AllRelocations, WellRelocated, IsNOSPart, AccessibleParts,
         RelocationCount, HasRelocationFlag, Placed, InfoSize, GlobalSize, InfoFits;
    HeaderFits(p);
    AreaSizes(p);
    DataStartAligned(p);
    PlacedShape(p.entries, at.packageOffset, DataStart(p));
    SameShapeSame(placed, p.entries, DataStart(p), StringsSize(p));
    RawsSame(placed, p.entries, StringsSize(p));
    InfoFitsSame(placed, p.entries, StringsSize(p));
    WellRelocatedSame(placed, p.entries, DataStart(p));
  }

  lemma EntriesReread(p: PackageValue, placed: seq<Entry>, load: u32, dataStart: u32, raws: seq<RawEntry>)
    requires ValidStrings(p) && dataStart == DataStart(p) && SameShape(placed, p.entries)
    requires EntriesFit(placed, StringsSize(p)) && raws == RawsOf(placed, StringsSize(p))
    ensures EntriesFrom(raws, InfosRead(p), RereadParts(placed, load, dataStart, dataStart))
         == RereadEntries(p, placed, load)
  {
    hide DataStart, StringsSize, InfosRead, EntriesFit, RawsOf, PlaceOf, DataEnd, InfoSize;
    Low32Exact(dataStart);
    forall i | 0 <= i < |placed|
      ensures EntryFrom(raws[i], InfosRead(p)[i], RereadParts(placed, load, dataStart, dataStart)[i])
           == RereadEntry(p, placed, load, i)
    {
      RawsAt(placed, StringsSize(p), i);
    }
  }

  // ---- the whole package ---------------------------------------------------------------------------

  lemma SplitInThree(s: seq<byte>, pos: nat, p1: nat, p2: nat, a: seq<byte>, b: seq<byte>, c: seq<byte>)
    requires Holds(s, pos, a + b + c) && p1 == pos + |a| && p2 == p1 + |b|
    ensures Holds(s, pos, a) && Holds(s, p1, b) && Holds(s, p2, c)
  {
    hide Holds;
    HoldsBoth(s, pos, a + b, c);
    HoldsBoth(s, pos, a, b);
  }

  lemma ImageParts(p: PackageValue, load: u32, s: seq<byte>, pos: nat, p1: nat, p2: nat, bodies: seq<byte>)
    requires ValidStrings(p) && AccessibleParts(p.entries) && WellRelocated(p.entries, DataStart(p))
    requires Holds(s, pos, Image(p, load))
    requires p1 == pos + DirectorySize(p) && p2 == p1 + |TableArea(p)|
    requires bodies == Bodies(Placed(p.entries, load, DataStart(p)))
    ensures Holds(s, pos, Directory(p)) && Holds(s, p1, TableArea(p)) && Holds(s, p2, bodies)
    ensures |Image(p, load)| == DirectorySize(p) + |TableArea(p)| + |bodies|
  {
    hide Holds, Directory, TableArea, Bodies, Placed, DirectorySize, DataStart, AccessibleParts, WellRelocated, ValidStrings;
    DirectoryLength(p);
    SplitInThree(s, pos, p1, p2, Directory(p), TableArea(p), bodies);
  }

  lemma {:induction false} PackageFrom(s: seq<byte>, pos: nat, p1: nat, p2: nat, load: u32, raw: RawPackage, relocations: RawRelocations,
                    dataStart: u32, data: seq<byte>, parts: seq<Part>)
    requires DirectoryAt(s, pos) == Got(raw, p1) && |raw.directory.infos| == |raw.raws| == |parts|
    requires RelocationsIfFlagged(s, p1, raw.header.flags) == Got(relocations, p2)
    requires dataStart == raw.header.directorySize as nat + relocations.size as nat
    requires raw.header.size == dataStart + |data| && BytesAt(s, p2, |data|) == Got(data, p2 + |data|)
    requires PartsIn(data, raw.raws, Placement(Addresses(relocations.sets), dataStart, relocations.base, load))
          == Success(parts)
    ensures PackageAt(s, pos, load)
         == Got(PackageValue(raw.header.nos1, raw.header.id, raw.header.flags, raw.header.version, raw.header.date,
                             raw.directory.copyright, raw.directory.name, raw.directory.extra,
                             EntriesFrom(raw.raws, raw.directory.infos, parts)), p2 + |data|)
  {
    hide DirectoryAt, RelocationsIfFlagged, BytesAt, PartsIn, Addresses, EntriesFrom;
    Low32Exact(dataStart);
    Low32Exact(|data|);
  }

  lemma {:induction false} DirectoryStep(p: PackageValue, h: RawHeader, raws: seq<RawEntry>, s: seq<byte>, pos: nat)
    requires WellFormed(p) && h == HeaderOf(p)
    requires raws == RawsOf(p.entries, StringsSize(p)) && Holds(s, pos, Directory(p))
    ensures DirectoryAt(s, pos) == Got(RawPackage(h, raws, DirectoryOf(p)), pos + DirectorySize(p))
  {
    hide *;
    HeaderFits(p);
    HeaderOfMatches(p);
    DirectoryIs(p, h, raws, s, pos);
  }

  lemma Unpacked(p: PackageValue)
    requires WellFormed(p)
    ensures ValidStrings(p) && AccessibleParts(p.entries) && WellRelocated(p.entries, DataStart(p))
    ensures GlobalSize(p) < TWO_32
  {
  }

  lemma {:induction false} PartsStep(p: PackageValue, placed: seq<Entry>, raws: seq<RawEntry>, load: u32, ds: u32, addresses: seq<u32>)
    requires WellFormed(p) && placed == Placed(p.entries, load, DataStart(p)) && ds == DataStart(p)
    requires raws == RawsOf(p.entries, StringsSize(p)) && addresses == AllRelocations(p.entries, DataStart(p))
    ensures PartsIn(Bodies(placed), raws, Placement(addresses, ds, 0, load)) == Success(RereadParts(placed, load, ds, ds))
    ensures |Bodies(placed)| == DataEnd(p.entries)
    ensures EntriesFrom(raws, InfosRead(p), RereadParts(placed, load, ds, ds))
         == RereadEntries(p, placed, load)
  {
    hide *;
    Unpacked(p);
    var at := Placement(addresses, ds, 0, load);
    PlacedHeld(p, placed, at);
    HeldFits(placed, StringsSize(p), at);
    PartsReadBack(Bodies(placed), placed, StringsSize(p), at, |placed|);
    EntriesReread(p, placed, load, ds, raws);
    assert raws[..|placed|] == raws;
    var parts := RereadParts(placed, load, ds, ds);
    assert parts[..|placed|] == parts;
  }

  lemma HeldFits(placed: seq<Entry>, infoBase: nat, at: Placement)
    requires PartsHeld(Bodies(placed), placed, infoBase, at)
    ensures EntriesFit(placed, infoBase)
  {
  }

  lemma RereadIs(p: PackageValue, load: u32, h: RawHeader, placed: seq<Entry>)
    requires WellFormed(p) && h == HeaderOf(p) && placed == Placed(p.entries, load, DataStart(p))
    ensures Reread(p, load)
         == PackageValue(h.nos1, h.id, h.flags, h.version, h.date, DirectoryOf(p).copyright, DirectoryOf(p).name,
                         DirectoryOf(p).extra, RereadEntries(p, placed, load))
    ensures DirectoryOf(p).infos == InfosRead(p) && h.flags == EffectiveFlags(p)
    ensures h.size == DataStart(p) + DataEnd(p.entries) && h.directorySize == DirectorySize(p)
  {
    hide WellFormed, CString, EffectiveFlags, EffectiveNos1, Placed, RereadEntries, PaddingOf, InfosRead, DirectorySize,
         DataStart, DataEnd, AccessibleParts, WellRelocated, RelocationCount;
    Unpacked(p);
  }

  /** What the writer wrote at a load address, the reader reads back at that address, whatever surrounds it. */
  lemma RoundTrip(p: PackageValue, load: u32, s: seq<byte>, pos: nat)
    requires WellFormed(p) && Holds(s, pos, Image(p, load))
    ensures PackageAt(s, pos, load) == Got(Reread(p, load), pos + |Image(p, load)|)
  {
    hide *;
    Unpacked(p);
    AreaSizes(p);
    DataStartAligned(p);
    DataStartIs(p);
    var h, raws, ds := HeaderOf(p), RawsOf(p.entries, StringsSize(p)), DataStart(p);
    var placed, all := Placed(p.entries, load, ds), AllRelocations(p.entries, ds);
    var size: u32 := RelocationSize(p.entries);
    var p1 := pos + DirectorySize(p);
    var p2 := p1 + |TableArea(p)|;
    ImageParts(p, load, s, pos, p1, p2, Bodies(placed));
    DirectoryStep(p, h, raws, s, pos);
    TableIs(p, s, p1);
    AddressesReadBack(p.entries, ds);
    PartsStep(p, placed, raws, load, ds, all);
    RereadIs(p, load, h, placed);
    BytesHeld(s, p2, Bodies(placed));
    PackageFrom(s, pos, p1, p2, load, RawPackage(h, raws, DirectoryOf(p)),
                RawRelocations(size, 0, Sets(all)), ds, Bodies(placed),
                RereadParts(placed, load, ds, ds));
  }

  lemma DataStartIs(p: PackageValue)
    requires ValidStrings(p)
    ensures DataStart(p) == DirectorySize(p) + RelocationSize(p.entries)
  {
  }

  // ---- when everything comes back ------------------------------------------------------------------

  /** The infos and extra infos are as they were, the padding added to the last. */
  predicate InfosKept(q: PackageValue, p: PackageValue)
    requires ValidStrings(p)
  {
    && |q.entries| == |p.entries| && q.extra == (if p.entries == [] then p.extra + PaddingOf(p) else p.extra)
    && forall i :: 0 <= i < |p.entries| ==>
         (q.entries[i].info, q.entries[i].extra) == InfosOf(p.entries, PaddingOf(p))[i]
  }

  /** They are if and only if there was extra info only at the end of the directory. */
  lemma RereadKeepsInfosIff(p: PackageValue, load: u32)
    requires ValidStrings(p) && AccessibleParts(p.entries)
    ensures InfosKept(Reread(p, load), p) <==> ExtraAtEnd(p)
  {
    hide DataStart, CString, PaddingOf, EffectiveFlags, EffectiveNos1, InfosRead, InfosOf, PlaceOf, Low32, RereadPart;
    InfosKeptIff(p);
    var q := Reread(p, load);
    assert forall i :: 0 <= i < |p.entries| ==> (q.entries[i].info, q.entries[i].extra) == InfosRead(p)[i];
    if InfosKept(q, p) {
      assert InfosRead(p) == InfosOf(p.entries, PaddingOf(p));
    }
  }

  // A package with a byte of extra info before the info, of a byte, of its part.
  const EXTRA_FIRST := PackageValue(true, 0, 0, 0, 0, [0], [0], [7], [Entry(0, 0, [8], [], Part(0, 0, [], []))])

  lemma ExtraFirstLayout()
    ensures ValidStrings(EXTRA_FIRST) && CString([0]) == [0] && StringsSize(EXTRA_FIRST) == 4
    ensures InfoSize([]) == 0 && Infos([]) == [] && InfoSize(EXTRA_FIRST.entries) == 1
    ensures Infos(EXTRA_FIRST.entries) == [8] && DirectorySize(EXTRA_FIRST) == 92
    ensures RelocationSize(EXTRA_FIRST.entries) == 0 && DataEnd([]) == 0 && DataEnd(EXTRA_FIRST.entries) == 0
    ensures EXTRA_FIRST.entries[..0] == []
  {
    var p := EXTRA_FIRST;
    assert p.copyright[0] == 0 && p.name[0] == 0;
    assert StrLen([0]) == 0;
    assert p.entries[..0] == [];
    assert PageCount([]) == 0;
  }

  /** It is read back with that byte as the info: the offset written is one too small. */
  lemma ExtraFirstMisread(load: u32)
    ensures WellFormed(EXTRA_FIRST) && |Reread(EXTRA_FIRST, load).entries| == 1
    ensures RawsOf(EXTRA_FIRST.entries, 4)[0].infoOffset == 4 && InfoPlace(EXTRA_FIRST, 0) == 5
    ensures Reread(EXTRA_FIRST, load).entries[0].info == [7] && Reread(EXTRA_FIRST, load).extra == []
  {
    hide CString, StringsSize, InfoSize, Infos, DirectorySize, RelocationSize, DataEnd, Low32, PlaceOf, RawsOf, WellFormed,
         DirectoryData, RereadPart, EffectiveFlags, EffectiveNos1, PaddingOf, DataStart;
    var p := EXTRA_FIRST;
    ExtraFirstLayout();
    ExtraFirstWellFormed();
    OffsetIs(p.entries, 4, 0);
    ExtraFirstData();
    assert InfosRead(p)[0] == InfoTaken(DirectoryData(p), 4, p.entries, 0);
  }

  lemma ExtraFirstWellFormed()
    ensures WellFormed(EXTRA_FIRST)
  {
    hide CString, StringsSize, InfoSize, Infos, DirectorySize, RelocationSize, DataEnd;
    ExtraFirstLayout();
  }

  lemma ExtraFirstData()
    ensures |DirectoryData(EXTRA_FIRST)| >= 5 && DirectoryData(EXTRA_FIRST)[4..5] == [7]
  {
    hide CString, Infos, DirectorySize, Units, Pad4, Zeros;
    ExtraFirstLayout();
    var u := Units([0]) + Units([0]);
    assert |u| == 4 && DirectoryData(EXTRA_FIRST)[4] == 7;
  }
}
