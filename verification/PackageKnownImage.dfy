/** Two packages as they are in a file, byte for byte, and what the reader makes of those bytes: a 'package0' with one
    part, and a 'package1' with two parts whose relocations fall in two pages. */
module PackageKnownImage {
  import opened Bytes
  import opened MemStreams
  import opened RelocTable
  import opened PkgParts
  import opened PackageImage
  import opened PackageTable
  import opened PackageParse
  import opened PackageReadBack
  import opened PackageRoundTrip

  // ---- lists of one and of two parts -----------------------------------------------------------------

  lemma NoEntry(start: nat)
    ensures InfoSize([]) == PageCount([]) == RelocationCount([]) == DataEnd([]) == 0
    ensures Infos([]) == EntriesBytes([], start) == Bodies([]) == [] && AllRelocations([], start) == []
  {
  }

  lemma OneSize(e: Entry, start: nat)
    ensures InfoSize([e]) == |e.info| && DataEnd([e]) == |e.part.data| + Pad4(|e.part.data|)
    ensures PageCount([e]) == PageEstimate(e.part.relocations) && RelocationCount([e]) == |e.part.relocations|
  {
    hide PageEstimate, Pad4;
    NoEntry(start);
    assert [e][..0] == [];
  }

  lemma OneEntryBytes(e: Entry, start: nat)
    ensures EntriesBytes([e], start)
         == EntryBytes(0, Low32(|e.part.data|), e.type_, e.flags, Low16(start), Low16(|e.info|))
  {
    hide EntryBytes, DataEnd, InfoSize;
    NoEntry(start);
    assert [e][..0] == [];
  }

  lemma OneInfo(e: Entry)
    ensures Infos([e]) == e.info + e.extra
  {
    assert [e][..0] == [];
    assert [] + e.info == e.info;
  }

  lemma OneBody(e: Entry)
    ensures Bodies([e]) == e.part.data + Zeros(Pad4(|e.part.data|))
  {
    hide Pad4, Zeros, DataEnd;
    NoEntry(0);
    assert [e][..0] == [];
    assert [] + e.part.data == e.part.data;
  }

  lemma OneContents(e: Entry, start: nat)
    ensures Infos([e]) == e.info + e.extra && Bodies([e]) == e.part.data + Zeros(Pad4(|e.part.data|))
    ensures AllRelocations([e], start) == Shift(e.part.relocations, start)
  {
    hide Shift, Pad4, Zeros, DataEnd, Infos, Bodies;
    OneInfo(e);
    OneBody(e);
    NoEntry(start);
    assert [e][..0] == [];
  }

  lemma OneEntry(e: Entry, start: nat)
    ensures InfoSize([e]) == |e.info| && Infos([e]) == e.info + e.extra
    ensures PageCount([e]) == PageEstimate(e.part.relocations) && RelocationCount([e]) == |e.part.relocations|
    ensures DataEnd([e]) == |e.part.data| + Pad4(|e.part.data|)
    ensures EntriesBytes([e], start)
         == EntryBytes(0, Low32(|e.part.data|), e.type_, e.flags, Low16(start), Low16(|e.info|))
    ensures AllRelocations([e], start) == Shift(e.part.relocations, start)
    ensures Bodies([e]) == e.part.data + Zeros(Pad4(|e.part.data|))
  {
    hide *;
    OneSize(e, start);
    OneEntryBytes(e, start);
    OneContents(e, start);
  }

  lemma TwoEntries(a: Entry, b: Entry, start: nat)
    ensures InfoSize([a, b]) == |a.info| + |b.info| && Infos([a, b]) == a.info + a.extra + b.info + b.extra
    ensures PageCount([a, b]) == PageEstimate(a.part.relocations) + PageEstimate(b.part.relocations)
    ensures RelocationCount([a, b]) == |a.part.relocations| + |b.part.relocations|
    ensures DataEnd([a, b]) == DataEnd([a]) + |b.part.data| + Pad4(|b.part.data|)
  {
    hide PageEstimate, Pad4, DataEnd;
    OneEntry(a, start);
    assert [a, b][..1] == [a];
    LastEntry([a, b], start);
    LastEnds(a, b);
  }

  lemma LastEnds(a: Entry, b: Entry)
    ensures DataEnd([a, b]) == DataEnd([a]) + |b.part.data| + Pad4(|b.part.data|)
  {
    hide Pad4;
    assert [a, b][..1] == [a];
  }

  lemma TwoEntriesBytes(a: Entry, b: Entry, start: nat)
    ensures EntriesBytes([a, b], start)
         == EntriesBytes([a], start)
            + EntryBytes(Low32(DataEnd([a])), Low32(|b.part.data|), b.type_, b.flags, Low16(start + |a.info|),
                         Low16(|b.info|))
    ensures AllRelocations([a, b], start)
         == Shift(a.part.relocations, start) + Shift(b.part.relocations, start + DataEnd([a]))
    ensures Bodies([a, b]) == Bodies([a]) + b.part.data + Zeros(Pad4(|b.part.data|))
  {
    hide EntryBytes, Shift, PageEstimate, Pad4, Zeros, DataEnd, Low32, Low16;
    OneEntry(a, start);
    assert [a, b][..1] == [a];
  }

  // ---- signature and flag -------------------------------------------------------------------------------

  predicate NoRelocations(entries: seq<Entry>) {
    forall i :: 0 <= i < |entries| ==> entries[i].part.relocations == []
  }

  lemma {:induction false} NoPagesIff(entries: seq<Entry>)
    ensures PageCount(entries) == 0 <==> NoRelocations(entries)
  {
    if entries != [] {
      var n := |entries| - 1;
      NoPagesIff(entries[..n]);
      assert forall i :: 0 <= i < n ==> entries[..n][i] == entries[i];
    }
  }

  lemma FlagAdded(flags: u32)
    requires flags / 0x0400_0000 % 2 == 0
    ensures Low32(flags + RELOCATION_FLAG) == flags + 0x0400_0000
  {
  }

  lemma HeaderBegins(p: PackageValue, rest: seq<byte>)
    requires ValidStrings(p)
    ensures Holds(Header(p) + rest, 0, Signature(EffectiveNos1(p)))
    ensures Holds(Header(p) + rest, 12, BE32(EffectiveFlags(p)))
  {
    hide BE32, BE16, Low32, Low16, GlobalSize, DirectorySize, CString, EffectiveFlags, EffectiveNos1, Signature;
  }

  lemma ImageBegins(p: PackageValue, load: u32)
    requires WellFormed(p)
    ensures Holds(Image(p, load), 0, Signature(EffectiveNos1(p)))
    ensures Holds(Image(p, load), 12, BE32(EffectiveFlags(p)))
  {
    hide Header, EntriesBytes, DirectoryData, Bodies, Placed, TableArea, EffectiveFlags, EffectiveNos1, BE32, Holds,
         Signature, WellRelocated;
    HeaderBegins(p, Image(p, load)[52..]);
    assert Image(p, load) == Header(p) + Image(p, load)[52..];
  }

  lemma Beginning(image: seq<byte>, nos1: bool, flags: u32)
    requires Holds(image, 0, Signature(nos1)) && Holds(image, 12, BE32(flags))
    ensures |image| >= 16 && U32At(image, 12) == flags
    ensures image[..8] == [0x70, 0x61, 0x63, 0x6B, 0x61, 0x67, 0x65] + [if nos1 then 0x30 else 0x31]
  {
    hide BE32, U32At;
    DecodeBE32(image, 12, flags);
  }

  /** The writer adds the flag for relocations that is missing. */
  predicate FlagIsAdded(p: PackageValue) {
    !NoRelocations(p.entries) && p.flags / 0x0400_0000 % 2 == 0
  }

  lemma EffectiveIff(p: PackageValue)
    ensures EffectiveNos1(p) == (p.nos1 && !FlagIsAdded(p))
    ensures EffectiveFlags(p) == if FlagIsAdded(p) then p.flags + 0x0400_0000 else p.flags
  {
    hide Low32, PageCount, NoRelocations;
    NoPagesIff(p.entries);
    if p.flags / 0x0400_0000 % 2 == 0 {
      FlagAdded(p.flags);
    }
  }

  /** A package goes to NewtonOS 1.x unless the flag has to be added for its relocations. */
  lemma SignatureIff(p: PackageValue, load: u32)
    requires WellFormed(p)
    ensures var image := Image(p, load);
            && |image| >= 16 && U32At(image, 12) == (if FlagIsAdded(p) then p.flags + 0x0400_0000 else p.flags)
            && image[..8] == [0x70, 0x61, 0x63, 0x6B, 0x61, 0x67, 0x65]
                             + [if p.nos1 && !FlagIsAdded(p) then 0x30 else 0x31]
  {
    hide Image, BE32, U32At, Holds, FlagIsAdded, WellRelocated, EffectiveFlags, EffectiveNos1, DataStart, GlobalSize;
    ImageBegins(p, load);
    Beginning(Image(p, load), EffectiveNos1(p), EffectiveFlags(p));
    EffectiveIff(p);
  }

  // ---- a package for NewtonOS 1.x ---------------------------------------------------------------------

  const FORM := Entry(0x666F_726D, 0x81, [0x21, 0x22, 0x23], [], Part(0, 0, [9, 8, 7, 6, 5], []))
  const SMALL := PackageValue(true, 0x7878_7878, 0x9000_0000, 0x1_0002, 0xB0B1_B2B3, [0x43, 0, 0x77], [0x4E, 0x73, 0],
                              [], [FORM])

  const SMALL_HEADER: seq<byte> :=
    [0x70, 0x61, 0x63, 0x6B, 0x61, 0x67, 0x65, 0x30]                                        // package0
    + [0x78, 0x78, 0x78, 0x78] + [0x90, 0x00, 0x00, 0x00] + [0x00, 0x01, 0x00, 0x02]        // id, flags, version
    + [0x00, 0x00] + [0x00, 0x04] + [0x00, 0x04] + [0x00, 0x06]                             // copyright, name
    + [0x00, 0x00, 0x00, 0x6C] + [0xB0, 0xB1, 0xB2, 0xB3]                                   // size, date
    + [0x00, 0x00, 0x00, 0x00] + [0x00, 0x00, 0x00, 0x00]
    + [0x00, 0x00, 0x00, 0x64] + [0x00, 0x00, 0x00, 0x01]                                   // of the directory, parts

  const SMALL_ENTRY: seq<byte> :=
    [0x00, 0x00, 0x00, 0x00] + [0x00, 0x00, 0x00, 0x05] + [0x00, 0x00, 0x00, 0x05]          // offset, size twice
    + [0x66, 0x6F, 0x72, 0x6D] + [0x00, 0x00, 0x00, 0x00] + [0x00, 0x00, 0x00, 0x81]        // type, flags
    + [0x00, 0x0A] + [0x00, 0x03] + [0x00, 0x00, 0x00, 0x00]                                // info

  const SMALL_DATA: seq<byte> :=
    [0x00, 0x43, 0x00, 0x00] + [0x00, 0x4E, 0x00, 0x73, 0x00, 0x00] + [0x21, 0x22, 0x23] + [0x00, 0x00, 0x00]

  const SMALL_BODY: seq<byte> := [0x09, 0x08, 0x07, 0x06, 0x05] + [0x00, 0x00, 0x00]

  lemma SmallStrings()
    ensures ValidStrings(SMALL) && CString([0x43, 0, 0x77]) == [0x43, 0] && CString([0x4E, 0x73, 0]) == [0x4E, 0x73, 0]
    ensures StringsSize(SMALL) == 10
  {
    assert SMALL.copyright[1] == 0 && SMALL.name[2] == 0;
    assert [0x43, 0, 0x77][1..] == [0, 0x77];
    assert [0x4E, 0x73, 0][1..] == [0x73, 0] && [0x73, 0][1..] == [0];
    assert StrLen([0, 0x77]) == 0 && StrLen([0]) == 0 && StrLen([0x73, 0]) == 1;
    assert StrLen([0x43, 0, 0x77]) == 1 && StrLen([0x4E, 0x73, 0]) == 2;
  }

  lemma SmallSizes()
    ensures ValidStrings(SMALL) && DirectorySize(SMALL) == UnpaddedDirectorySize(SMALL) + 3 == 100
    ensures DataStart(SMALL) == 100 && GlobalSize(SMALL) == 108 && RelocationSize(SMALL.entries) == 0
    ensures EffectiveFlags(SMALL) == 0x9000_0000 && EffectiveNos1(SMALL)
  {
    hide StringsSize, InfoSize, Infos, PageCount, RelocationCount, DataEnd;
    SmallStrings();
    OneEntry(FORM, 0);
  }

  lemma SmallHeader()
    ensures ValidStrings(SMALL) && Header(SMALL) == SMALL_HEADER
  {
    hide CString, GlobalSize, DirectorySize, EffectiveFlags, EffectiveNos1, BE32, BE16;
    SmallStrings();
    SmallSizes();
    BytesOfWord(0x78, 0x78, 0x78, 0x78, 0x7878_7878);
    BytesOfWord(0x90, 0, 0, 0, 0x9000_0000);
    BytesOfWord(0, 0x01, 0, 0x02, 0x1_0002);
    BytesOfWord(0, 0, 0, 0x6C, 0x6C);
    BytesOfWord(0xB0, 0xB1, 0xB2, 0xB3, 0xB0B1_B2B3);
    BytesOfWord(0, 0, 0, 0, 0);
    BytesOfWord(0, 0, 0, 0x64, 0x64);
    BytesOfWord(0, 0, 0, 1, 1);
    BytesOfShort(0, 0, 0);
    BytesOfShort(0, 4, 4);
    BytesOfShort(0, 6, 6);
    assert Signature(true) == [0x70, 0x61, 0x63, 0x6B, 0x61, 0x67, 0x65, 0x30];
  }

  lemma SmallEntry()
    ensures EntriesBytes(SMALL.entries, 10) == SMALL_ENTRY
  {
    hide BE32, BE16, EntriesBytes;
    OneEntry(FORM, 10);
    BytesOfWord(0, 0, 0, 0, 0);
    BytesOfWord(0, 0, 0, 5, 5);
    BytesOfWord(0x66, 0x6F, 0x72, 0x6D, 0x666F_726D);
    BytesOfWord(0, 0, 0, 0x81, 0x81);
    BytesOfShort(0, 10, 10);
    BytesOfShort(0, 3, 3);
  }

  lemma UnitsOfTwo(a: u16, b: u16)
    ensures Units([a, b]) == BE16(a) + BE16(b)
  {
    hide BE16;
    assert [a, b][..1] == [a] && [a][..0] == [];
    assert Units([a]) == [] + BE16(a) == BE16(a);
  }

  lemma UnitsOfThree(a: u16, b: u16, c: u16)
    ensures Units([a, b, c]) == BE16(a) + BE16(b) + BE16(c)
  {
    hide BE16, Units;
    UnitsOfTwo(a, b);
    UnitsMore([a, b], c);
    assert [a, b] + [c] == [a, b, c];
  }

  lemma UnitsMore(s: seq<u16>, u: u16)
    ensures Units(s + [u]) == Units(s) + BE16(u)
  {
    hide BE16;
    assert (s + [u])[..|s|] == s;
  }

  lemma ZerosOf(n: nat)
    ensures Zeros(0) == [] && Zeros(1) == [0] && Zeros(2) == [0, 0] && Zeros(3) == [0, 0, 0]
  {
  }

  lemma SmallData()
    ensures ValidStrings(SMALL) && DirectoryData(SMALL) == SMALL_DATA
  {
    hide CString, Units, Infos, UnpaddedDirectorySize, DirectorySize, BE16, Zeros;
    SmallStrings();
    SmallSizes();
    OneEntry(FORM, 0);
    UnitsOfTwo(0x43, 0);
    UnitsOfThree(0x4E, 0x73, 0);
    BytesOfShort(0, 0x43, 0x43);
    BytesOfShort(0, 0, 0);
    BytesOfShort(0, 0x4E, 0x4E);
    BytesOfShort(0, 0x73, 0x73);
    ZerosOf(3);
    assert [0x00, 0x43] + [0x00, 0x00] == [0x00, 0x43, 0x00, 0x00];
    assert [0x00, 0x4E] + [0x00, 0x73] + [0x00, 0x00] == [0x00, 0x4E, 0x00, 0x73, 0x00, 0x00];
    assert FORM.info + FORM.extra == [0x21, 0x22, 0x23];
    var u := Units(CString(SMALL.copyright)) + Units(CString(SMALL.name));
    assert u + SMALL.extra == u;
  }

  lemma SmallWellFormed()
    ensures WellFormed(SMALL)
  {
    hide CString, StringsSize, InfoSize, DataEnd, GlobalSize, DataStart;
    SmallStrings();
    SmallSizes();
    NoEntry(0);
    assert SMALL.entries[..0] == [];
  }

  /** The whole image at any load address: its one part has no relocations. */
  lemma SmallImage(load: u32)
    ensures WellFormed(SMALL) && Image(SMALL, load) == SMALL_HEADER + SMALL_ENTRY + SMALL_DATA + SMALL_BODY
  {
    hide Header, EntriesBytes, DirectoryData, Bodies, WellFormed, EffectiveFlags, Zeros, StringsSize;
    SmallWellFormed();
    SmallStrings();
    SmallSizes();
    SmallHeader();
    SmallEntry();
    SmallData();
    SmallBodies(load);
    var d := SMALL_HEADER + SMALL_ENTRY + SMALL_DATA;
    assert d + [] == d;
  }

  lemma SmallBodies(load: u32)
    ensures ValidStrings(SMALL) && AccessibleParts(SMALL.entries)
    ensures Bodies(Placed(SMALL.entries, load, 100)) == SMALL_BODY
  {
    hide Bodies, Zeros, PlaceOf;
    SmallStrings();
    var placed := Placed(SMALL.entries, load, 100);
    assert placed == [placed[0]] && placed[0].part.data == FORM.part.data;
    OneBody(placed[0]);
    ZerosOf(3);
  }

  /** What the reader makes of those bytes: the memory behind the terminator is gone, the padding of the directory is
      extra info of the part. */
  function SmallRead(load: u32): PackageValue {
    var at := Low32(load + 100);
    PackageValue(true, 0x7878_7878, 0x9000_0000, 0x1_0002, 0xB0B1_B2B3, [0x43, 0], [0x4E, 0x73, 0], [],
                 [Entry(0x666F_726D, 0x81, [0x21, 0x22, 0x23], [0, 0, 0], Part(at, at, [9, 8, 7, 6, 5], []))])
  }

  lemma SmallReadBack(load: u32)
    ensures PackageAt(SMALL_HEADER + SMALL_ENTRY + SMALL_DATA + SMALL_BODY, 0, load) == Got(SmallRead(load), 108)
  {
    hide WellFormed, Image, PackageAt, Reread;
    SmallImage(load);
    var s := SMALL_HEADER + SMALL_ENTRY + SMALL_DATA + SMALL_BODY;
    HoldsItself(s);
    RoundTrip(SMALL, load, s, 0);
    SmallReread(load);
  }

  lemma SmallReread(load: u32)
    ensures ValidStrings(SMALL) && AccessibleParts(SMALL.entries) && Reread(SMALL, load) == SmallRead(load)
  {
    hide CString, DataEnd, EffectiveFlags, EffectiveNos1, InfosRead, DataStart, UnpaddedDirectorySize, Low32;
    SmallStrings();
    SmallSizes();
    SmallInfos();
    NoEntry(0);
    var placed := Placed(SMALL.entries, load, 100);
    assert placed[..0] == [];
    assert RereadEntries(SMALL, placed, load) == [RereadEntry(SMALL, placed, load, 0)];
  }

  lemma SmallInfos()
    ensures ValidStrings(SMALL) && InfosRead(SMALL) == [([0x21, 0x22, 0x23], [0, 0, 0])]
  {
    hide CString, InfoSize, DirectoryData, StringsSize, InfosTaken;
    SmallStrings();
    SmallData();
    InfosInside(SMALL);
    SmallTaken();
  }

  lemma SmallTaken()
    ensures 10 + InfoSize(SMALL.entries) <= |SMALL_DATA|
    ensures InfosTaken(SMALL_DATA, 10, SMALL.entries) == [([0x21, 0x22, 0x23], [0, 0, 0])]
  {
    hide InfoSize;
    OneEntry(FORM, 0);
    NoEntry(0);
    assert SMALL.entries[..0] == [];
    assert SMALL_DATA[10..13] == [0x21, 0x22, 0x23] && SMALL_DATA[13..] == [0, 0, 0];
  }

  // ---- a package with relocations -----------------------------------------------------------------------

  /** Part data with three words, and a byte over. */
  function Code(x: u32, y: u32, z: u32): (r: seq<byte>)
    ensures |r| == 1041
  {
    Zeros(8) + BE32(x) + Zeros(988) + BE32(y) + Zeros(32) + BE32(z) + [0xEE]
  }

  const AUTO := Entry(0x6175_746F, 0x80, [0x31], [], Part(0, 0, [0, 0, 0, 8, 1, 2, 3, 4], [0]))
  const CODE := Entry(0x636F_6465, 0x82, [], [], Part(0, 0, Code(0x100, 0x200, 0x300), [8, 1000, 1036]))
  const LARGE := PackageValue(true, 0x7878_7878, 0x1000_0000, 1, 2, [0x43, 0, 0x77], [0x4E, 0], [], [AUTO, CODE])

  const LARGE_HEADER: seq<byte> :=
    [0x70, 0x61, 0x63, 0x6B, 0x61, 0x67, 0x65, 0x31]                                        // package1
    + [0x78, 0x78, 0x78, 0x78] + [0x14, 0x00, 0x00, 0x00] + [0x00, 0x00, 0x00, 0x01]        // id, flags, version
    + [0x00, 0x00] + [0x00, 0x04] + [0x00, 0x04] + [0x00, 0x04]                             // copyright, name
    + [0x00, 0x00, 0x04, 0xD0] + [0x00, 0x00, 0x00, 0x02]                                   // size, date
    + [0x00, 0x00, 0x00, 0x00] + [0x00, 0x00, 0x00, 0x00]
    + [0x00, 0x00, 0x00, 0x80] + [0x00, 0x00, 0x00, 0x02]                                   // of the directory, parts

  const AUTO_ENTRY: seq<byte> :=
    [0x00, 0x00, 0x00, 0x00] + [0x00, 0x00, 0x00, 0x08] + [0x00, 0x00, 0x00, 0x08]          // offset, size twice
    + [0x61, 0x75, 0x74, 0x6F] + [0x00, 0x00, 0x00, 0x00] + [0x00, 0x00, 0x00, 0x80]        // type, flags
    + [0x00, 0x08] + [0x00, 0x01] + [0x00, 0x00, 0x00, 0x00]                                // info

  const CODE_ENTRY: seq<byte> :=
    [0x00, 0x00, 0x00, 0x08] + [0x00, 0x00, 0x04, 0x11] + [0x00, 0x00, 0x04, 0x11]
    + [0x63, 0x6F, 0x64, 0x65] + [0x00, 0x00, 0x00, 0x00] + [0x00, 0x00, 0x00, 0x82]
    + [0x00, 0x09] + [0x00, 0x00] + [0x00, 0x00, 0x00, 0x00]

  const LARGE_DATA: seq<byte> := [0x00, 0x43, 0x00, 0x00] + [0x00, 0x4E, 0x00, 0x00] + [0x31] + [0x00, 0x00, 0x00]

  const LARGE_TABLE: seq<byte> :=
    [0x00, 0x00, 0x00, 0x00] + [0x00, 0x00, 0x00, 0x34] + [0x00, 0x00, 0x04, 0x00]          // size, page size
    + [0x00, 0x00, 0x00, 0x02] + [0x00, 0x00, 0x00, 0x00]                                   // number of sets, base
    + ([0x00, 0x00, 0x00, 0x02, 0x2D, 0x31] + [0x00, 0x00]                                  // page 0
       + [0x00, 0x01, 0x00, 0x02, 0x29, 0x32] + [0x00, 0x00]                                // page 1
       + Zeros(16))                                                                         // reserved in vain

  // The parts as they are at the load address 0x1000: each word has the address of its part added.
  const LARGE_BODIES: seq<byte> :=
    [0x00, 0x00, 0x10, 0xBC, 0x01, 0x02, 0x03, 0x04]
    + (Zeros(8) + [0x00, 0x00, 0x11, 0xBC] + Zeros(988) + [0x00, 0x00, 0x12, 0xBC] + Zeros(32)
       + [0x00, 0x00, 0x13, 0xBC] + [0xEE])
    + [0x00, 0x00, 0x00]

  lemma LargeStrings()
    ensures ValidStrings(LARGE) && CString([0x43, 0, 0x77]) == [0x43, 0] && CString([0x4E, 0]) == [0x4E, 0]
    ensures StringsSize(LARGE) == 8
  {
    assert LARGE.copyright[1] == 0 && LARGE.name[1] == 0;
    assert [0x43, 0, 0x77][1..] == [0, 0x77] && [0x4E, 0][1..] == [0];
    assert StrLen([0, 0x77]) == 0 && StrLen([0]) == 0;
    assert StrLen([0x43, 0, 0x77]) == 1 && StrLen([0x4E, 0]) == 1;
  }

  lemma Estimates()
    ensures PageEstimate([0]) == 1 && PageEstimate([8, 1000, 1036]) == 3
    ensures SetMax(4) == 8
  {
  }

  lemma LargeCounts()
    ensures PageCount(LARGE.entries) == 4 && RelocationCount(LARGE.entries) == 4
    ensures ReservedForSets(LARGE.entries) == 32 && RelocationSize(LARGE.entries) == 52
    ensures InfoSize(LARGE.entries) == 1 && Infos(LARGE.entries) == [0x31]
    ensures DataEnd([AUTO]) == 8 && DataEnd(LARGE.entries) == 1052 && InfoSize([AUTO]) == 1
  {
    hide PageCount, RelocationCount, InfoSize, Infos, DataEnd, PageEstimate, SetMax, Code;
    OneSize(AUTO, 0);
    TwoEntries(AUTO, CODE, 0);
    Estimates();
    assert AUTO.info + AUTO.extra + CODE.info + CODE.extra == [0x31];
  }

  lemma LargeSizes()
    ensures ValidStrings(LARGE) && DirectorySize(LARGE) == UnpaddedDirectorySize(LARGE) + 3 == 128
    ensures DataStart(LARGE) == 180 && GlobalSize(LARGE) == 1232
    ensures EffectiveFlags(LARGE) == 0x1400_0000 && !EffectiveNos1(LARGE)
  {
    hide StringsSize, InfoSize, Infos, PageCount, RelocationCount, DataEnd, RelocationSize, ReservedForSets;
    LargeStrings();
    LargeCounts();
  }

  lemma LargeHeader()
    ensures ValidStrings(LARGE) && Header(LARGE) == LARGE_HEADER
  {
    hide CString, GlobalSize, DirectorySize, EffectiveFlags, EffectiveNos1, BE32, BE16;
    LargeStrings();
    LargeSizes();
    BytesOfWord(0x78, 0x78, 0x78, 0x78, 0x7878_7878);
    BytesOfWord(0x14, 0, 0, 0, 0x1400_0000);
    BytesOfWord(0, 0, 0, 1, 1);
    BytesOfWord(0, 0, 0x04, 0xD0, 1232);
    BytesOfWord(0, 0, 0, 2, 2);
    BytesOfWord(0, 0, 0, 0, 0);
    BytesOfWord(0, 0, 0, 0x80, 128);
    BytesOfShort(0, 0, 0);
    BytesOfShort(0, 4, 4);
    assert Signature(false) == [0x70, 0x61, 0x63, 0x6B, 0x61, 0x67, 0x65, 0x31];
  }

  lemma LargeEntries()
    ensures EntriesBytes(LARGE.entries, 8) == AUTO_ENTRY + CODE_ENTRY
  {
    hide BE32, BE16, EntriesBytes, DataEnd, Code;
    OneEntryBytes(AUTO, 8);
    OneSize(AUTO, 8);
    TwoEntriesBytes(AUTO, CODE, 8);
    BytesOfWord(0, 0, 0, 0, 0);
    BytesOfWord(0, 0, 0, 8, 8);
    BytesOfWord(0x61, 0x75, 0x74, 0x6F, 0x6175_746F);
    BytesOfWord(0, 0, 0, 0x80, 0x80);
    BytesOfWord(0, 0, 0x04, 0x11, 1041);
    BytesOfWord(0x63, 0x6F, 0x64, 0x65, 0x636F_6465);
    BytesOfWord(0, 0, 0, 0x82, 0x82);
    BytesOfShort(0, 8, 8);
    BytesOfShort(0, 1, 1);
    BytesOfShort(0, 9, 9);
    BytesOfShort(0, 0, 0);
  }

  lemma LargeData()
    ensures ValidStrings(LARGE) && DirectoryData(LARGE) == LARGE_DATA
  {
    hide CString, Units, Infos, UnpaddedDirectorySize, DirectorySize, BE16, Zeros;
    LargeStrings();
    LargeSizes();
    LargeCounts();
    UnitsOfTwo(0x43, 0);
    UnitsOfTwo(0x4E, 0);
    BytesOfShort(0, 0x43, 0x43);
    BytesOfShort(0, 0, 0);
    BytesOfShort(0, 0x4E, 0x4E);
    ZerosOf(3);
    assert [0x00, 0x43] + [0x00, 0x00] == [0x00, 0x43, 0x00, 0x00];
    assert [0x00, 0x4E] + [0x00, 0x00] == [0x00, 0x4E, 0x00, 0x00];
    var u := Units(CString(LARGE.copyright)) + Units(CString(LARGE.name));
    assert u + LARGE.extra == u;
  }

  // ---- its relocations ------------------------------------------------------------------------------------

  lemma LargeAddresses()
    ensures AllRelocations(LARGE.entries, 180) == [180, 196, 1188, 1224]
  {
    hide AllRelocations, DataEnd, Code, Shift;
    LargeCounts();
    TwoEntriesBytes(AUTO, CODE, 180);
    Shifts();
    assert [180] + [196, 1188, 1224] == [180, 196, 1188, 1224];
  }

  lemma Shifts()
    ensures Shift([0], 180) == [180] && Shift([8, 1000, 1036], 188) == [196, 1188, 1224]
  {
  }

  lemma SetsMore(addresses: seq<u32>, a: u32, sets: seq<RelocSet>)
    requires Sets(addresses) == sets
    ensures Sets(addresses + [a]) == Extend(sets, PageOf(a), OffsetOf(a))
  {
    hide PageOf, OffsetOf, Extend;
    assert (addresses + [a])[..|addresses|] == addresses;
  }

  lemma Extended(front: seq<RelocSet>, page: u16, x: byte, y: byte)
    requires front == [] || front[|front| - 1].page != page
    ensures Extend(front, page, x) == front + [RelocSet(page, [x])]
    ensures Extend(front + [RelocSet(page, [x])], page, y) == front + [RelocSet(page, [x, y])]
  {
    assert [x] + [y] == [x, y];
    var sets := front + [RelocSet(page, [x])];
    assert sets[..|sets| - 1] == front;
  }

  lemma LargeSets(all: seq<u32>)
    requires all == [180, 196, 1188, 1224]
    ensures Sets(all) == [RelocSet(0, [0x2D, 0x31]), RelocSet(1, [0x29, 0x32])]
  {
    hide Sets, Extend;
    assert all[..0] + [180] == all[..1] && all[..1] + [196] == all[..2] && all[..2] + [1188] == all[..3];
    assert all[..3] + [1224] == all;
    NothingSet(all[..0]);
    Extended([], 0, 0x2D, 0x31);
    Extended([RelocSet(0, [0x2D, 0x31])], 1, 0x29, 0x32);
    assert [] + [RelocSet(0, [0x2D])] == [RelocSet(0, [0x2D])];
    assert [] + [RelocSet(0, [0x2D, 0x31])] == [RelocSet(0, [0x2D, 0x31])];
    assert [RelocSet(0, [0x2D, 0x31])] + [RelocSet(1, [0x29])] == [RelocSet(0, [0x2D, 0x31]), RelocSet(1, [0x29])];
    assert [RelocSet(0, [0x2D, 0x31])] + [RelocSet(1, [0x29, 0x32])]
        == [RelocSet(0, [0x2D, 0x31]), RelocSet(1, [0x29, 0x32])];
    SetsMore(all[..0], 180, []);
    SetsMore(all[..1], 196, [RelocSet(0, [0x2D])]);
    SetsMore(all[..2], 1188, [RelocSet(0, [0x2D, 0x31])]);
    SetsMore(all[..3], 1224, [RelocSet(0, [0x2D, 0x31]), RelocSet(1, [0x29])]);
  }

  lemma NothingSet(addresses: seq<u32>)
    requires addresses == []
    ensures Sets(addresses) == []
  {
  }

  lemma TwoSets(a: RelocSet, b: RelocSet)
    ensures PaddedBytes([a, b])
         == SetBytes(a) + Zeros(Pad4(|a.offsets|)) + SetBytes(b) + Zeros(Pad4(|b.offsets|))
    ensures TableSize([a, b]) == SetSize(a) + SetSize(b)
  {
    hide SetBytes, Zeros, Pad4, SetSize;
    assert [a, b][..1] == [a] && [a][..0] == [];
    assert PaddedBytes([]) == [] && TableSize([]) == 0;
    assert [] + SetBytes(a) == SetBytes(a);
  }

  lemma PageSet(page: u16, x: byte, y: byte, high: byte, low: byte)
    requires page as int == high as int * 0x100 + low as int
    ensures SetBytes(RelocSet(page, [x, y])) == [high, low, 0x00, 0x02, x, y] && SetSize(RelocSet(page, [x, y])) == 8
  {
    hide BE16;
    BytesOfShort(high, low, page);
    BytesOfShort(0, 2, 2);
  }

  lemma LargeWellRelocated()
    ensures AccessibleParts(LARGE.entries) && WellRelocated(LARGE.entries, 180)
  {
    hide Code, DataEnd;
    LargeCounts();
    NoEntry(0);
    assert LARGE.entries[..0] == [] && LARGE.entries[..1] == [AUTO];
    assert PartRelocated(AUTO.part, 180) && PartRelocated(CODE.part, 188);
  }

  lemma LargeTable()
    ensures ValidStrings(LARGE) && DataStart(LARGE) == 180 && WellRelocated(LARGE.entries, 180)
    ensures TableArea(LARGE) == LARGE_TABLE
  {
    hide DataStart, WellRelocated, EffectiveFlags, RelocationSize, ReservedForSets, Sets, AllRelocations, BE32, SetBytes,
         PaddedBytes, TableSize, SetSize, Zeros;
    LargeStrings();
    LargeSizes();
    LargeCounts();
    LargeWellRelocated();
    LargeAddresses();
    LargeSets([180, 196, 1188, 1224]);
    TwoSets(RelocSet(0, [0x2D, 0x31]), RelocSet(1, [0x29, 0x32]));
    PageSet(0, 0x2D, 0x31, 0, 0);
    PageSet(1, 0x29, 0x32, 0, 1);
    ZerosOf(2);
    BytesOfWord(0, 0, 0, 0, 0);
    BytesOfWord(0, 0, 0, 0x34, 52);
    BytesOfWord(0, 0, 0x04, 0, 1024);
    BytesOfWord(0, 0, 0, 2, 2);
  }

  // ---- its parts --------------------------------------------------------------------------------------------

  lemma PatchMiddle(a: seq<byte>, x: u32, b: seq<byte>, delta: int)
    ensures PatchWord(a + BE32(x) + b, |a|, delta) == a + BE32(Low32(x + delta)) + b
  {
    hide BE32, Low32;
    var d := a + BE32(x) + b;
    assert Holds(d, |a|, BE32(x)) by {
      assert d[|a|..|a| + 4] == BE32(x);
    }
    DecodeBE32(d, |a|, x);
  }

  lemma PatchFirst(x: u32, y: u32, z: u32, delta: int)
    ensures PatchWord(Code(x, y, z), 8, delta) == Code(Low32(x + delta), y, z)
  {
    hide BE32, PatchWord, Zeros;
    var v, a, b := Low32(x + delta), Zeros(8), Zeros(988) + BE32(y) + Zeros(32) + BE32(z) + [0xEE];
    assert Code(x, y, z) == a + BE32(x) + b;
    assert Code(v, y, z) == a + BE32(v) + b;
    PatchMiddle(a, x, b, delta);
  }

  lemma PatchSecond(x: u32, y: u32, z: u32, delta: int)
    ensures PatchWord(Code(x, y, z), 1000, delta) == Code(x, Low32(y + delta), z)
  {
    hide BE32, PatchWord, Zeros;
    var v, a, b := Low32(y + delta), Zeros(8) + BE32(x) + Zeros(988), Zeros(32) + BE32(z) + [0xEE];
    assert Code(x, y, z) == a + BE32(y) + b;
    assert Code(x, v, z) == a + BE32(v) + b;
    PatchMiddle(a, y, b, delta);
  }

  lemma PatchThird(x: u32, y: u32, z: u32, delta: int)
    ensures PatchWord(Code(x, y, z), 1036, delta) == Code(x, y, Low32(z + delta))
  {
    hide BE32, PatchWord, Zeros;
    var v, a, b := Low32(z + delta), Zeros(8) + BE32(x) + Zeros(988) + BE32(y) + Zeros(32), [0xEE];
    assert Code(x, y, z) == a + BE32(z) + b;
    assert Code(x, y, v) == a + BE32(v) + b;
    PatchMiddle(a, z, b, delta);
  }

  lemma NextPatched(data: seq<byte>, relocations: seq<u32>, i: nat, delta: int, done: seq<byte>)
    requires Accessible(data, relocations) && AllInside(data, relocations) && i < |relocations|
    requires Accessible(data, relocations[..i]) && Relocated(data, relocations[..i], delta) == done
    requires WordStart(relocations[i]) + 4 <= |done|
    ensures Accessible(data, relocations[..i + 1])
    ensures Relocated(data, relocations[..i + 1], delta) == PatchWord(done, WordStart(relocations[i]), delta)
  {
    hide PatchWord, WordStart, Relocated;
    assert relocations[i] in relocations;
    assert forall r <- relocations[..i] :: r in relocations;
    RelocatedNext(data, relocations, i, delta);
  }

  lemma CodeRelocated()
    ensures var data, rs := CODE.part.data, CODE.part.relocations;
            Accessible(data, rs) && AllInside(data, rs) && Relocated(data, rs, 0x10BC) == Code(0x11BC, 0x12BC, 0x13BC)
  {
    hide Code, PatchWord, Relocated;
    var data, rs := CODE.part.data, CODE.part.relocations;
    assert rs[..0] == [] && rs[..3] == rs;
    NoneRelocated(data, 0x10BC);
    NextPatched(data, rs, 0, 0x10BC, data);
    PatchFirst(0x100, 0x200, 0x300, 0x10BC);
    NextPatched(data, rs, 1, 0x10BC, Code(0x11BC, 0x200, 0x300));
    PatchSecond(0x11BC, 0x200, 0x300, 0x10BC);
    NextPatched(data, rs, 2, 0x10BC, Code(0x11BC, 0x12BC, 0x300));
    PatchThird(0x11BC, 0x12BC, 0x300, 0x10BC);
  }

  lemma AutoRelocated()
    ensures var data, rs := AUTO.part.data, AUTO.part.relocations;
            Accessible(data, rs) && AllInside(data, rs) && Relocated(data, rs, 0x10B4) == [0, 0, 0x10, 0xBC, 1, 2, 3, 4]
  {
    hide PatchWord, Relocated, BE32;
    var data, rs := AUTO.part.data, AUTO.part.relocations;
    assert rs[..0] == [] && rs[..1] == rs;
    NoneRelocated(data, 0x10B4);
    NextPatched(data, rs, 0, 0x10B4, data);
    BytesOfWord(0, 0, 0, 8, 8);
    BytesOfWord(0, 0, 0x10, 0xBC, 0x10BC);
    PatchMiddle([], 8, [1, 2, 3, 4], 0x10B4);
    assert [] + [0, 0, 0, 8] + [1, 2, 3, 4] == data;
    assert [] + [0, 0, 0x10, 0xBC] + [1, 2, 3, 4] == [0, 0, 0x10, 0xBC, 1, 2, 3, 4];
  }

  const AUTO_PLACED := Part(0x10B4, 0, [0, 0, 0x10, 0xBC, 1, 2, 3, 4], [0])
  const CODE_PLACED := Part(0x10BC, 0, Code(0x11BC, 0x12BC, 0x13BC), [8, 1000, 1036])

  lemma LargePlaced()
    ensures AccessibleParts(LARGE.entries)
    ensures Placed(LARGE.entries, 0x1000, 180) == [AUTO.(part := AUTO_PLACED), CODE.(part := CODE_PLACED)]
  {
    hide Code, Relocated, DataEnd;
    LargeCounts();
    NoEntry(0);
    AutoRelocated();
    CodeRelocated();
    LargeWellRelocated();
    assert LARGE.entries[..0] == [] && LARGE.entries[..1] == [AUTO];
    var placed := Placed(LARGE.entries, 0x1000, 180);
    assert placed == [placed[0], placed[1]];
  }

  lemma LargeBodies()
    ensures AccessibleParts(LARGE.entries) && Bodies(Placed(LARGE.entries, 0x1000, 180)) == LARGE_BODIES
  {
    hide Bodies, Zeros, BE32, Placed, DataEnd;
    LargePlaced();
    var a, b := AUTO.(part := AUTO_PLACED), CODE.(part := CODE_PLACED);
    OneContents(a, 0);
    TwoEntriesBytes(a, b, 0);
    ZerosOf(3);
    BytesOfWord(0, 0, 0x11, 0xBC, 0x11BC);
    BytesOfWord(0, 0, 0x12, 0xBC, 0x12BC);
    BytesOfWord(0, 0, 0x13, 0xBC, 0x13BC);
    var word := [0x00, 0x00, 0x10, 0xBC, 0x01, 0x02, 0x03, 0x04];
    assert a.part.data == word && word + [] == word;
  }

  lemma LargeWellFormed()
    ensures WellFormed(LARGE)
  {
    hide CString, StringsSize, InfoSize, DataEnd, GlobalSize, DataStart, WellRelocated, Code;
    LargeStrings();
    LargeSizes();
    LargeCounts();
    LargeWellRelocated();
    NoEntry(0);
    assert LARGE.entries[..0] == [] && LARGE.entries[..1] == [AUTO];
  }

  const LARGE_IMAGE: seq<byte> :=
    LARGE_HEADER + (AUTO_ENTRY + CODE_ENTRY) + LARGE_DATA + LARGE_TABLE + LARGE_BODIES

  /** The whole image at the load address 0x1000. */
  lemma LargeImage()
    ensures WellFormed(LARGE) && Image(LARGE, 0x1000) == LARGE_IMAGE && |LARGE_IMAGE| == 1232
  {
    hide Header, EntriesBytes, DirectoryData, Bodies, WellFormed, Zeros, StringsSize, TableArea, DataStart, WellRelocated,
         AccessibleParts, Placed;
    LargeWellFormed();
    LargeStrings();
    LargeSizes();
    LargeHeader();
    LargeEntries();
    LargeData();
    LargeTable();
    LargeBodies();
  }

  // What the reader makes of it at that address: the parts with their own relocations and the bytes they have there.
  const LARGE_READ := PackageValue(
    false, 0x7878_7878, 0x1400_0000, 1, 2, [0x43, 0], [0x4E, 0], [],
    [Entry(0x6175_746F, 0x80, [0x31], [], Part(0x10B4, 180, [0, 0, 0x10, 0xBC, 1, 2, 3, 4], [0])),
     Entry(0x636F_6465, 0x82, [], [0, 0, 0], Part(0x10BC, 180, Code(0x11BC, 0x12BC, 0x13BC), [8, 1000, 1036]))])

  lemma LargeReadBack()
    ensures PackageAt(LARGE_IMAGE, 0, 0x1000) == Got(LARGE_READ, 1232)
  {
    hide WellFormed, Image, PackageAt, Reread, Code;
    LargeImage();
    HoldsItself(LARGE_IMAGE);
    RoundTrip(LARGE, 0x1000, LARGE_IMAGE, 0);
    LargeReread();
  }

  lemma LargeReread()
    ensures ValidStrings(LARGE) && AccessibleParts(LARGE.entries) && Reread(LARGE, 0x1000) == LARGE_READ
  {
    hide CString, DataEnd, EffectiveFlags, EffectiveNos1, InfosRead, DataStart, UnpaddedDirectorySize, Placed, Code,
         AccessibleParts;
    LargeStrings();
    LargeSizes();
    LargeCounts();
    LargeInfos();
    LargePlaced();
    NoEntry(0);
    OneSize(AUTO.(part := AUTO_PLACED), 0);
    var placed := Placed(LARGE.entries, 0x1000, 180);
    assert placed[..0] == [] && placed[..1] == [AUTO.(part := AUTO_PLACED)];
    assert RereadEntries(LARGE, placed, 0x1000)
        == [RereadEntry(LARGE, placed, 0x1000, 0), RereadEntry(LARGE, placed, 0x1000, 1)];
  }

  lemma LargeInfos()
    ensures ValidStrings(LARGE) && InfosRead(LARGE) == [([0x31], []), ([], [0, 0, 0])]
  {
    hide CString, InfoSize, DirectoryData, StringsSize, InfosTaken;
    LargeStrings();
    LargeData();
    InfosInside(LARGE);
    LargeTaken();
  }

  lemma LargeTaken()
    ensures 8 + InfoSize(LARGE.entries) <= |LARGE_DATA|
    ensures InfosTaken(LARGE_DATA, 8, LARGE.entries) == [([0x31], []), ([], [0, 0, 0])]
  {
    hide InfoSize, Code;
    LargeCounts();
    NoEntry(0);
    assert LARGE.entries[..0] == [] && LARGE.entries[..1] == [AUTO];
    assert LARGE_DATA[8..9] == [0x31] && LARGE_DATA[9..9] == [] && LARGE_DATA[9..] == [0, 0, 0];
  }
}
