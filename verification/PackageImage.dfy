/** A package as a value, and the bytes the writer is meant to put on a stream for it: where everything
    goes, and in what order. Nothing here writes or seeks. */
module PackageImage {
  import opened Bytes
  import opened RelocTable
  import opened PkgParts

  const HEADER_SIZE := 52
  const ENTRY_SIZE := 32
  const RELOCATION_FLAG: int := 0x0400_0000

  // 'package0' and 'package1'
  const SIGNATURE_STEM: seq<byte> := [0x70, 0x61, 0x63, 0x6B, 0x61, 0x67, 0x65]

  datatype Entry = Entry(type_: u32, flags: u32, info: seq<byte>, extra: seq<byte>, part: Part)

  datatype PackageValue = PackageValue(
    nos1: bool,               // compatible with NewtonOS 1.x
    id: u32, flags: u32, version: u32, date: u32,
    copyright: seq<u16>,      // memory of a string, with its terminator
    name: seq<u16>,
    extra: seq<byte>,
    entries: seq<Entry>)

  // ---- strings ----------------------------------------------------------------

  /** The number of units before the first zero. */
  function StrLen(s: seq<u16>): (n: nat)
    ensures n <= |s| && (0 in s ==> n < |s| && s[n] == 0) && 0 !in s[..n]
  {
    if s == [] || s[0] == 0 then 0
    else
      var n := 1 + StrLen(s[1..]);
      assert s[..n] == [s[0]] + s[1..][..n - 1];
      n
  }

  /** A string up to and including its terminator. */
  function CString(s: seq<u16>): (r: seq<u16>)
    requires 0 in s
    ensures |r| == StrLen(s) + 1 && r[|r| - 1] == 0
  {
    s[..StrLen(s) + 1]
  }

  function Units(s: seq<u16>): (r: seq<byte>)
    ensures |r| == 2 * |s|
  {
    if s == [] then [] else Units(s[..|s| - 1]) + BE16(s[|s| - 1])
  }

  // ---- sizes and offsets --------------------------------------------------------

  function InfoSize(entries: seq<Entry>): nat {
    if entries == [] then 0
    else InfoSize(entries[..|entries| - 1]) + |entries[|entries| - 1].info|
  }

  /** The handler infos, each with its extra bytes. */
  function Infos(entries: seq<Entry>): seq<byte> {
    if entries == [] then []
    else
      var e := entries[|entries| - 1];
      Infos(entries[..|entries| - 1]) + e.info + e.extra
  }

  function StringsSize(p: PackageValue): nat
    requires ValidStrings(p)
  {
    2 * |CString(p.copyright)| + 2 * |CString(p.name)|
  }

  predicate ValidStrings(p: PackageValue) {
    0 in p.copyright && 0 in p.name
  }

  function UnpaddedDirectorySize(p: PackageValue): nat
    requires ValidStrings(p)
  {
    HEADER_SIZE + ENTRY_SIZE * |p.entries| + StringsSize(p) + |p.extra| + |Infos(p.entries)|
  }

  function DirectorySize(p: PackageValue): (n: nat)
    requires ValidStrings(p)
    ensures n % 4 == 0
  {
    UnpaddedDirectorySize(p) + Pad4(UnpaddedDirectorySize(p))
  }

  function PageCount(entries: seq<Entry>): nat {
    if entries == [] then 0
    else PageCount(entries[..|entries| - 1]) + PageEstimate(entries[|entries| - 1].part.relocations)
  }

  function RelocationCount(entries: seq<Entry>): nat {
    if entries == [] then 0
    else RelocationCount(entries[..|entries| - 1]) + |entries[|entries| - 1].part.relocations|
  }

  function ReservedForSets(entries: seq<Entry>): (n: nat) {
    PageCount(entries) * SetMax(RelocationCount(entries))
  }

  function RelocationSize(entries: seq<Entry>): nat {
    if PageCount(entries) > 0 then TABLE_HEADER_SIZE + ReservedForSets(entries) else 0
  }

  /** Where the part data ends, from the start of the part data; parts begin on multiples of four. */
  function DataEnd(entries: seq<Entry>): (n: nat)
    ensures n % 4 == 0
  {
    if entries == [] then 0
    else
      var size := |entries[|entries| - 1].part.data|;
      DataEnd(entries[..|entries| - 1]) + size + Pad4(size)
  }

  function DataStart(p: PackageValue): nat
    requires ValidStrings(p)
  {
    DirectorySize(p) + RelocationSize(p.entries)
  }

  function GlobalSize(p: PackageValue): nat
    requires ValidStrings(p)
  {
    DataStart(p) + DataEnd(p.entries)
  }

  // ---- effective flags ------------------------------------------------------------

  predicate HasRelocationFlag(flags: u32) {
    flags / RELOCATION_FLAG % 2 == 1
  }

  /** The writer adds the flag, and gives up NewtonOS 1.x, when there are relocations and no flag yet. */
  function EffectiveFlags(p: PackageValue): u32 {
    if PageCount(p.entries) > 0 && !HasRelocationFlag(p.flags) then Low32(p.flags + RELOCATION_FLAG) else p.flags
  }

  predicate EffectiveNos1(p: PackageValue) {
    p.nos1 && !(PageCount(p.entries) > 0 && !HasRelocationFlag(p.flags))
  }

  // ---- the bytes ------------------------------------------------------------------

  function Signature(nos1: bool): (r: seq<byte>)
    ensures |r| == 8
  {
    SIGNATURE_STEM + [if nos1 then 0x30 else 0x31]
  }

  function HeaderBytes(nos1: bool, id: u32, flags: u32, version: u32, copyrightLen: u16, nameLen: u16,
                       size: u32, date: u32, directorySize: u32, numParts: u32): (r: seq<byte>)
    ensures |r| == HEADER_SIZE
  {
    Signature(nos1) + BE32(id) + BE32(flags) + BE32(version)
    + BE16(0) + BE16(copyrightLen) + BE16(copyrightLen) + BE16(nameLen)
    + BE32(size) + BE32(date) + BE32(0) + BE32(0) + BE32(directorySize) + BE32(numParts)
  }

  function EntryBytes(offset: u32, size: u32, type_: u32, flags: u32, infoOffset: u16, infoSize: u16): (r: seq<byte>)
    ensures |r| == ENTRY_SIZE
  {
    BE32(offset) + BE32(size) + BE32(size) + BE32(type_) + BE32(0) + BE32(flags)
    + BE16(infoOffset) + BE16(infoSize) + BE32(0)
  }

  function Header(p: PackageValue): (r: seq<byte>)
    requires ValidStrings(p)
    ensures |r| == HEADER_SIZE
  {
    HeaderBytes(EffectiveNos1(p), p.id, EffectiveFlags(p), p.version,
                Low16(2 * |CString(p.copyright)|), Low16(2 * |CString(p.name)|),
                Low32(GlobalSize(p)), p.date, Low32(DirectorySize(p)), Low32(|p.entries|))
  }

  /** The directory entries of the parts; infoBase is where the first handler info is, in the directory data. */
  function EntriesBytes(entries: seq<Entry>, infoBase: nat): (r: seq<byte>)
    ensures |r| == ENTRY_SIZE * |entries|
  {
    if entries == [] then []
    else
      var front, e := entries[..|entries| - 1], entries[|entries| - 1];
      EntriesBytes(front, infoBase)
      + EntryBytes(Low32(DataEnd(front)), Low32(|e.part.data|), e.type_, e.flags,
                   Low16(infoBase + InfoSize(front)), Low16(|e.info|))
  }

  function DirectoryData(p: PackageValue): seq<byte>
    requires ValidStrings(p)
  {
    Units(CString(p.copyright)) + Units(CString(p.name)) + p.extra + Infos(p.entries)
    + Zeros(Pad4(UnpaddedDirectorySize(p)))
  }

  /** The relocation header, with no set counted yet, and the blank space reserved for the sets. */
  function BlankArea(size: u32, reserved: nat): (r: seq<byte>)
    ensures |r| == TABLE_HEADER_SIZE + reserved
  {
    BE32(0) + BE32(size) + BE32(PAGE_SIZE) + BE32(0) + BE32(0) + Zeros(reserved)
  }

  /** The reserved relocation area before the table is emitted over it. */
  function RelocationArea(p: PackageValue): seq<byte> {
    if HasRelocationFlag(EffectiveFlags(p)) then
      BlankArea(Low32(RelocationSize(p.entries)), ReservedForSets(p.entries))
    else []
  }

  predicate AccessibleParts(entries: seq<Entry>) {
    forall i :: 0 <= i < |entries| ==> Accessible(entries[i].part.data, entries[i].part.relocations)
  }

  /** The offset a part is encoded for: where it is in the package, from the load address on. */
  function PlaceOf(entries: seq<Entry>, load: u32, dataStart: nat, i: nat): u32
    requires i <= |entries|
  {
    Low32(load + dataStart + DataEnd(entries[..i]))
  }

  /** Every part that is still to be moved can be moved to its place. */
  predicate CanPlace(entries: seq<Entry>, load: u32, dataStart: nat) {
    CanPlaceFirst(entries, load, dataStart, |entries|)
  }

  predicate CanPlaceFirst(entries: seq<Entry>, load: u32, dataStart: nat, n: nat)
    requires n <= |entries|
  {
    forall i :: 0 <= i < n ==> CanMove(entries[i].part, PlaceOf(entries, load, dataStart, i))
  }

  function PlacedEntry(entries: seq<Entry>, load: u32, dataStart: nat, i: nat): (e: Entry)
    requires i < |entries| && AccessibleParts(entries)
  {
    entries[i].(part := Moved(entries[i].part, PlaceOf(entries, load, dataStart, i)))
  }

  /** The parts as they are once the package has been laid out for a load address. */
  function Placed(entries: seq<Entry>, load: u32, dataStart: nat): (r: seq<Entry>)
    requires AccessibleParts(entries)
    ensures |r| == |entries|
  {
    seq(|entries|, i requires 0 <= i < |entries| => PlacedEntry(entries, load, dataStart, i))
  }

  /** The data of the parts, each padded to a multiple of four. */
  function Bodies(entries: seq<Entry>): (r: seq<byte>)
    ensures |r| == DataEnd(entries)
  {
    if entries == [] then []
    else
      var e := entries[|entries| - 1];
      Bodies(entries[..|entries| - 1]) + e.part.data + Zeros(Pad4(|e.part.data|))
  }

  /** All the relocations of the package, from the start of the package on. */
  function AllRelocations(entries: seq<Entry>, dataStart: nat): seq<u32> {
    if entries == [] then []
    else
      var n := |entries| - 1;
      AllRelocations(entries[..n], dataStart)
      + Shift(entries[n].part.relocations, dataStart + DataEnd(entries[..n]))
  }

  function Directory(p: PackageValue): seq<byte>
    requires ValidStrings(p)
  {
    Header(p) + EntriesBytes(p.entries, StringsSize(p)) + DirectoryData(p)
  }

  /** Everything in order, with the relocation area still blank. */
  function Plain(p: PackageValue, load: u32): seq<byte>
    requires ValidStrings(p) && AccessibleParts(p.entries)
  {
    Directory(p) + RelocationArea(p) + Bodies(Placed(p.entries, load, DataStart(p)))
  }

  /** A stream after the package has been written at start: everything in order, then the table over the blank area. */
  function Written(was: seq<byte>, start: nat, p: PackageValue, load: u32): seq<byte>
    requires start <= |was| && ValidStrings(p) && AccessibleParts(p.entries)
  {
    var all := AllRelocations(p.entries, DataStart(p));
    var blank := Overwrite(was, start, Plain(p, load));
    if HasRelocationFlag(EffectiveFlags(p)) && all != [] then
      PlainHasTable(p, load);
      Emitted(blank, start + DirectorySize(p) + 12, all)
    else blank
  }

  lemma PlainHasTable(p: PackageValue, load: u32)
    requires ValidStrings(p) && AccessibleParts(p.entries)
    ensures HasRelocationFlag(EffectiveFlags(p)) ==> |Plain(p, load)| >= DirectorySize(p) + TABLE_HEADER_SIZE
  {
    hide Directory, DirectorySize, Placed, Bodies, DataStart;
    DirectoryLength(p);
  }

  lemma DirectoryLength(p: PackageValue)
    requires ValidStrings(p)
    ensures |Directory(p)| == DirectorySize(p)
  {
  }

  lemma ProductAligned(a: nat, m: nat)
    requires m % 4 == 0
    ensures a * m % 4 == 0
  {
    var q := m / 4;
    assert a * m == 4 * (a * q);
  }

  lemma SetMaxAligned(total: nat)
    ensures SetMax(total) % 4 == 0
  {
  }

  lemma RelocationSizeAligned(entries: seq<Entry>)
    ensures RelocationSize(entries) % 4 == 0
  {
    hide SetMax, PageCount, RelocationCount;
    SetMaxAligned(RelocationCount(entries));
    ProductAligned(PageCount(entries), SetMax(RelocationCount(entries)));
  }

  lemma DataStartAligned(p: PackageValue)
    requires ValidStrings(p)
    ensures DataStart(p) % 4 == 0
  {
    hide DirectorySize, RelocationSize;
    RelocationSizeAligned(p.entries);
    SumAligned(DirectorySize(p), RelocationSize(p.entries));
  }

  lemma SumAligned(a: nat, b: nat)
    requires a % 4 == 0 && b % 4 == 0
    ensures (a + b) % 4 == 0
  {
  }

  /** Parts that are laid out the same: equal but for what is in their data and infos and for their extra info. */
  predicate Alike(a: seq<Entry>, b: seq<Entry>) {
    && |a| == |b|
    && forall i :: 0 <= i < |a| ==>
         && a[i].type_ == b[i].type_ && a[i].flags == b[i].flags && |a[i].info| == |b[i].info|
         && |a[i].part.data| == |b[i].part.data| && a[i].part.relocations == b[i].part.relocations
  }

  /** The same parts, except for what is in their data. */
  predicate SameShape(a: seq<Entry>, b: seq<Entry>) {
    Alike(a, b) && forall i :: 0 <= i < |a| ==> a[i].info == b[i].info && a[i].extra == b[i].extra
  }

  lemma PlacedShape(entries: seq<Entry>, load: u32, dataStart: nat)
    requires AccessibleParts(entries)
    ensures SameShape(Placed(entries, load, dataStart), entries)
  {
    hide PlaceOf;
  }

  lemma AlikeFront(a: seq<Entry>, b: seq<Entry>)
    requires Alike(a, b) && a != []
    ensures Alike(a[..|a| - 1], b[..|a| - 1])
  {
  }

  lemma {:induction false} SizesSame(a: seq<Entry>, b: seq<Entry>)
    requires Alike(a, b)
    ensures DataEnd(a) == DataEnd(b) && InfoSize(a) == InfoSize(b)
  {
    hide Pad4;
    if a != [] {
      AlikeFront(a, b);
      SizesSame(a[..|a| - 1], b[..|a| - 1]);
    }
  }

  lemma {:induction false} CountsSame(a: seq<Entry>, b: seq<Entry>)
    requires Alike(a, b)
    ensures PageCount(a) == PageCount(b) && RelocationCount(a) == RelocationCount(b)
  {
    hide PageEstimate;
    if a != [] {
      AlikeFront(a, b);
      CountsSame(a[..|a| - 1], b[..|a| - 1]);
    }
  }

  lemma {:induction false} EntriesBytesSame(a: seq<Entry>, b: seq<Entry>, infoBase: nat)
    requires Alike(a, b)
    ensures EntriesBytes(a, infoBase) == EntriesBytes(b, infoBase)
  {
    hide EntryBytes, DataEnd, InfoSize, Low16, Low32;
    if a != [] {
      AlikeFront(a, b);
      SizesSame(a[..|a| - 1], b[..|a| - 1]);
      EntriesBytesSame(a[..|a| - 1], b[..|a| - 1], infoBase);
    }
  }

  lemma {:induction false} RelocationsSame(a: seq<Entry>, b: seq<Entry>, dataStart: nat)
    requires Alike(a, b)
    ensures AllRelocations(a, dataStart) == AllRelocations(b, dataStart)
  {
    hide Shift, DataEnd;
    if a != [] {
      AlikeFront(a, b);
      SizesSame(a[..|a| - 1], b[..|a| - 1]);
      RelocationsSame(a[..|a| - 1], b[..|a| - 1], dataStart);
    }
  }

  lemma AlikeSame(a: seq<Entry>, b: seq<Entry>, dataStart: nat, infoBase: nat)
    requires Alike(a, b)
    ensures DataEnd(a) == DataEnd(b) && InfoSize(a) == InfoSize(b)
    ensures EntriesBytes(a, infoBase) == EntriesBytes(b, infoBase)
    ensures AllRelocations(a, dataStart) == AllRelocations(b, dataStart)
    ensures PageCount(a) == PageCount(b) && RelocationCount(a) == RelocationCount(b)
  {
    hide Alike, DataEnd, InfoSize, EntriesBytes, AllRelocations, PageCount, RelocationCount;
    SizesSame(a, b);
    CountsSame(a, b);
    EntriesBytesSame(a, b, infoBase);
    RelocationsSame(a, b, dataStart);
  }

  lemma {:induction false} InfosSame(a: seq<Entry>, b: seq<Entry>)
    requires SameShape(a, b)
    ensures Infos(a) == Infos(b)
  {
    if a != [] {
      var n := |a| - 1;
      InfosSame(a[..n], b[..n]);
    }
  }

  lemma SameShapeSame(a: seq<Entry>, b: seq<Entry>, dataStart: nat, infoBase: nat)
    requires SameShape(a, b)
    ensures DataEnd(a) == DataEnd(b) && InfoSize(a) == InfoSize(b) && Infos(a) == Infos(b)
    ensures EntriesBytes(a, infoBase) == EntriesBytes(b, infoBase)
    ensures AllRelocations(a, dataStart) == AllRelocations(b, dataStart)
    ensures PageCount(a) == PageCount(b) && RelocationCount(a) == RelocationCount(b)
  {
    InfosSame(a, b);
    AlikeSame(a, b, dataStart, infoBase);
  }
}
