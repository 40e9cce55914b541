/** What the package reader makes of a stream's bytes, as functions of the bytes and the position. */
module PackageParse {
  import opened Wrappers
  import opened Bytes
  import opened MemStreams
  import opened RelocTable
  import opened PkgParts
  import opened PackageImage

  // ---- the directory ----------------------------------------------------------------

  datatype RawHeader = RawHeader(
    nos1: bool, id: u32, flags: u32, version: u32,
    copyrightOffset: u16, copyrightLength: u16, nameOffset: u16, nameLength: u16,
    size: u32, date: u32, directorySize: u32, numParts: u32)

  datatype RawEntry = RawEntry(offset: u32, size: u32, type_: u32, flags: u32, infoOffset: u16, infoSize: u16)

  function SignatureAt(s: seq<byte>, pos: nat): Reading<bool> {
    var (signature, next) :- BytesAt(s, pos, 8);
    if signature == Signature(true) then Got(true, next)
    else if signature == Signature(false) then Got(false, next)
    else Failed(UnknownSignature)
  }

  function HeaderAt(s: seq<byte>, pos: nat): Reading<RawHeader> {
    var (nos1, p0) :- SignatureAt(s, pos);
    var (id, p1) :- LongAt(s, p0);
    var (flags, p2) :- LongAt(s, p1);
    var (version, p3) :- LongAt(s, p2);
    var (copyrightOffset, p4) :- ShortAt(s, p3);
    var (copyrightLength, p5) :- ShortAt(s, p4);
    var (nameOffset, p6) :- ShortAt(s, p5);
    var (nameLength, p7) :- ShortAt(s, p6);
    if copyrightLength % 2 == 1 || nameLength % 2 == 1 then Failed(StringsDontSeemUniCStr)
    else
      var (size, p8) :- LongAt(s, p7);
      var (date, p9) :- LongAt(s, p8);
      var (reserved1, p10) :- LongAt(s, p9);
      var (reserved2, p11) :- LongAt(s, p10);
      var (directorySize, p12) :- LongAt(s, p11);
      var (numParts, p13) :- LongAt(s, p12);
      Got(RawHeader(nos1, id, flags, version, copyrightOffset, copyrightLength, nameOffset, nameLength,
                    size, date, directorySize, numParts), p13)
  }

  function EntryAt(s: seq<byte>, pos: nat): Reading<RawEntry> {
    var (offset, p1) :- LongAt(s, pos);
    var (size, p2) :- LongAt(s, p1);
    var (size2, p3) :- LongAt(s, p2);
    var (type_, p4) :- LongAt(s, p3);
    var (reserved1, p5) :- LongAt(s, p4);
    var (flags, p6) :- LongAt(s, p5);
    var (infoOffset, p7) :- ShortAt(s, p6);
    var (infoSize, p8) :- ShortAt(s, p7);
    var (reserved2, p9) :- LongAt(s, p8);
    Got(RawEntry(offset, size, type_, flags, infoOffset, infoSize), p9)
  }

  function EntriesAt(s: seq<byte>, pos: nat, n: nat): Reading<seq<RawEntry>> {
    if n == 0 then Got([], pos)
    else
      var (front, next) :- EntriesAt(s, pos, n - 1);
      var (last, end) :- EntryAt(s, next);
      Got(front + [last], end)
  }

  function DirectoryInfoSize(numParts: u32): u32 {
    Low32(HEADER_SIZE + ENTRY_SIZE * numParts)
  }

  // ---- the directory data -------------------------------------------------------------

  function ToUnits(d: seq<byte>): (r: seq<u16>)
    requires |d| % 2 == 0
    ensures 2 * |r| == |d|
  {
    seq(|d| / 2, i requires 0 <= i < |d| / 2 => U16At(d, 2 * i))
  }

  /** A string of the directory data; its last unit must be the terminator. */
  function StringIn(d: seq<byte>, offset: nat, length: nat): (r: Result<seq<u16>, Error>)
    requires length % 2 == 0 && length > 0
    ensures r.Success? ==> 0 in r.value
  {
    if length + offset > |d| then Failure(WeirdDirectorySize)
    else
      var units := ToUnits(d[offset..offset + length]);
      if units[length / 2 - 1] != 0 then Failure(StringsDontSeemUniCStr) else Success(units)
  }

  /** The bytes between the end of one item and the next; where the original would copy past the directory
      data, it throws at its next check, with this error. */
  function ExtraIn(d: seq<byte>, from: nat, next: nat): Result<seq<byte>, Error> {
    if from >= next then Success([])
    else if next > |d| then Failure(WeirdDirectorySize)
    else Success(d[from..next])
  }

  /** Where the info of a part is, or the end of the directory data after the last part. */
  function InfoStart(d: seq<byte>, raws: seq<RawEntry>, i: nat): nat {
    if i < |raws| then raws[i].infoOffset else |d|
  }

  function InfoIn(d: seq<byte>, raws: seq<RawEntry>, i: nat): Result<(seq<byte>, seq<byte>), Error>
    requires i < |raws|
  {
    var from, to := raws[i].infoOffset as nat, raws[i].infoOffset as nat + raws[i].infoSize as nat;
    if to > |d| then Failure(WeirdDirectorySize)
    else
      var extra :- ExtraIn(d, to, InfoStart(d, raws, i + 1));
      Success((d[from..to], extra))
  }

  function InfosIn(d: seq<byte>, raws: seq<RawEntry>, n: nat): (r: Result<seq<(seq<byte>, seq<byte>)>, Error>)
    requires n <= |raws|
    ensures r.Success? ==> |r.value| == n
  {
    if n == 0 then Success([])
    else
      var front :- InfosIn(d, raws, n - 1);
      var last :- InfoIn(d, raws, n - 1);
      Success(front + [last])
  }

  datatype RawDirectory = RawDirectory(copyright: seq<u16>, name: seq<u16>, extra: seq<byte>,
                                       infos: seq<(seq<byte>, seq<byte>)>)

  function DirectoryIn(d: seq<byte>, h: RawHeader, raws: seq<RawEntry>): (r: Result<RawDirectory, Error>)
    requires h.copyrightLength % 2 == 0 && h.nameLength % 2 == 0
    ensures r.Success? ==> |r.value.infos| == |raws| && 0 in r.value.copyright && 0 in r.value.name
  {
    var copyright :- if h.copyrightLength > 0 then StringIn(d, h.copyrightOffset, h.copyrightLength)
                     else Success([0]);
    if h.nameLength == 0 then Failure(NoName)
    else
      var name :- StringIn(d, h.nameOffset, h.nameLength);
      var extra :- ExtraIn(d, h.nameOffset as nat + h.nameLength as nat, InfoStart(d, raws, 0));
      var infos :- InfosIn(d, raws, |raws|);
      Success(RawDirectory(copyright, name, extra, infos))
  }

  // ---- relocations ---------------------------------------------------------------------

  datatype RawRelocations = RawRelocations(size: u32, base: u32, sets: seq<RelocSet>)

  /** The relocation header, the sets, and whatever is left of the declared size. */
  function RelocationsAt(s: seq<byte>, pos: nat): Reading<RawRelocations> {
    var (reserved, p1) :- LongAt(s, pos);
    var (size, p2) :- LongAt(s, p1);
    var (pageSize, p3) :- LongAt(s, p2);
    var (numEntries, p4) :- LongAt(s, p3);
    var (base, p5) :- LongAt(s, p4);
    var (sets, p6) :- SetsAt(s, p5, numEntries);
    var used := p6 as int - pos as int;
    var (skipped, p7) :- BytesAt(s, p6, if used < size then size - used else 0);
    Got(RawRelocations(size, base, sets), p7)
  }

  function FirstAtLeast(addresses: seq<u32>, start: nat): (i: nat)
    ensures i <= |addresses|
    ensures forall k :: 0 <= k < i ==> addresses[k] < start
    ensures i < |addresses| ==> addresses[i] >= start
  {
    if addresses == [] || addresses[0] >= start then 0
    else 1 + FirstAtLeast(addresses[1..], start)
  }

  function CountWithin(addresses: seq<u32>, start: nat, end: nat): (n: nat)
    ensures n <= |addresses|
  {
    if addresses == [] then 0
    else CountWithin(addresses[..|addresses| - 1], start, end)
         + if start <= addresses[|addresses| - 1] < end then 1 else 0
  }

  lemma CountAfterFirst(addresses: seq<u32>, start: nat, end: nat)
    ensures FirstAtLeast(addresses, start) + CountWithin(addresses, start, end) <= |addresses|
  {
    var i := FirstAtLeast(addresses, start);
    CountAppend(addresses[..i], addresses[i..], start, end);
    assert addresses[..i] + addresses[i..] == addresses;
    CountNone(addresses[..i], start, end);
  }

  lemma {:induction false} CountAppend(a: seq<u32>, b: seq<u32>, start: nat, end: nat)
    ensures CountWithin(a + b, start, end) == CountWithin(a, start, end) + CountWithin(b, start, end)
  {
    if b == [] {
      assert a + b == a;
    } else {
      var n := |b| - 1;
      assert (a + b)[..|a + b| - 1] == a + b[..n];
      CountAppend(a, b[..n], start, end);
    }
  }

  lemma {:induction false} CountNone(a: seq<u32>, start: nat, end: nat)
    requires forall k :: 0 <= k < |a| ==> !(start <= a[k] < end)
    ensures CountWithin(a, start, end) == 0
  {
    if a != [] {
      CountNone(a[..|a| - 1], start, end);
    }
  }

  /** The slice of the package's addresses that a part gets: from the first at or after its start on, as many
      as there are inside the part. */
  function SliceFor(addresses: seq<u32>, start: nat, end: nat): seq<u32> {
    var first := FirstAtLeast(addresses, start);
    CountAfterFirst(addresses, start, end);
    addresses[first..first + CountWithin(addresses, start, end)]
  }

  // ---- the parts ---------------------------------------------------------------------

  predicate IsNOSPart(flags: u32) {
    flags % 4 == 1
  }

  /** Where the parts are and how to relocate them: the package's addresses, the start of the part data, the base
      address and the offset the package was loaded at. */
  datatype Placement = Placement(addresses: seq<u32>, dataStart: u32, base: u32, packageOffset: u32)

  function PartIn(data: seq<byte>, raw: RawEntry, at: Placement): Result<Part, Error> {
    var end := raw.offset as nat + raw.size as nat;
    if end > |data| then Failure(WeirdPartSize)
    else
      var bytes := data[raw.offset..end];
      var start := at.dataStart as nat + raw.offset as nat;
      var slice := SliceFor(at.addresses, start, start + raw.size as nat);
      var offset := Low32(start + at.packageOffset);
      if IsNOSPart(raw.flags) || slice == [] then Success(Part(offset, offset, bytes, []))
      else Success(Part(offset, Low32(at.base as nat + at.dataStart as nat), bytes, FromOrigin(slice, Low32(start))))
  }

  function PartsIn(data: seq<byte>, raws: seq<RawEntry>, at: Placement): (r: Result<seq<Part>, Error>)
    ensures r.Success? ==> |r.value| == |raws|
  {
    if raws == [] then Success([])
    else
      var front :- PartsIn(data, raws[..|raws| - 1], at);
      var last :- PartIn(data, raws[|raws| - 1], at);
      Success(front + [last])
  }

  // ---- the package ---------------------------------------------------------------------

  function EntryFrom(raw: RawEntry, info: (seq<byte>, seq<byte>), part: Part): Entry {
    Entry(raw.type_, raw.flags, info.0, info.1, part)
  }

  function EntriesFrom(raws: seq<RawEntry>, infos: seq<(seq<byte>, seq<byte>)>, parts: seq<Part>): (r: seq<Entry>)
    requires |raws| == |infos| == |parts|
    ensures |r| == |raws|
  {
    seq(|raws|, i requires 0 <= i < |raws| => EntryFrom(raws[i], infos[i], parts[i]))
  }

  function RelocationsIfFlagged(s: seq<byte>, pos: nat, flags: u32): Reading<RawRelocations> {
    if HasRelocationFlag(flags) then RelocationsAt(s, pos) else Got(RawRelocations(0, 0, []), pos)
  }

  /** The directory of a package: its header, its entries and the directory data. */
  datatype RawPackage = RawPackage(header: RawHeader, raws: seq<RawEntry>, directory: RawDirectory)

  function LiftDirectory(header: RawHeader, raws: seq<RawEntry>, d: Result<RawDirectory, Error>, next: nat):
    Reading<RawPackage>
  {
    if d.Success? then Got(RawPackage(header, raws, d.value), next) else Failed(d.error)
  }

  function DirectoryAt(s: seq<byte>, pos: nat): Reading<RawPackage> {
    var (header, p1) :- HeaderAt(s, pos);
    if header.directorySize <= DirectoryInfoSize(header.numParts) then Failed(WeirdDirectorySize)
    else
      var (raws, p2) :- EntriesAt(s, p1, header.numParts);
      var (d, p3) :- BytesAt(s, p2, header.directorySize - DirectoryInfoSize(header.numParts));
      HeaderStringsEven(s, pos);
      LiftDirectory(header, raws, DirectoryIn(d, header, raws), p3)
  }

  lemma HeaderStringsEven(s: seq<byte>, pos: nat)
    ensures HeaderAt(s, pos).Got? ==>
              HeaderAt(s, pos).value.copyrightLength % 2 == 0 && HeaderAt(s, pos).value.nameLength % 2 == 0
  {
  }

  lemma DirectoryShape(s: seq<byte>, pos: nat)
    ensures DirectoryAt(s, pos).Got? ==>
              |DirectoryAt(s, pos).value.directory.infos| == |DirectoryAt(s, pos).value.raws|
  {
    hide HeaderAt, EntriesAt, BytesAt, DirectoryIn;
    HeaderStringsEven(s, pos);
  }

  function LiftParts(raw: RawPackage, parts: Result<seq<Part>, Error>, next: nat): Reading<PackageValue>
    requires |raw.directory.infos| == |raw.raws|
    requires parts.Success? ==> |parts.value| == |raw.raws|
  {
    if parts.Failure? then Failed(parts.error)
    else
      Got(PackageValue(raw.header.nos1, raw.header.id, raw.header.flags, raw.header.version, raw.header.date,
                       raw.directory.copyright, raw.directory.name, raw.directory.extra,
                       EntriesFrom(raw.raws, raw.directory.infos, parts.value)), next)
  }

  /** A package, and the position after it. Sizes wrap at 32 bits as they do in the original. */
  function PackageAt(s: seq<byte>, pos: nat, packageOffset: u32): Reading<PackageValue> {
    var (raw, p1) :- DirectoryAt(s, pos);
    var (relocations, p2) :- RelocationsIfFlagged(s, p1, raw.header.flags);
    var dataStart := Low32(raw.header.directorySize as nat + relocations.size as nat);
    var (data, p3) :- BytesAt(s, p2, Low32(raw.header.size as int - dataStart as int));
    DirectoryShape(s, pos);
    LiftParts(raw, PartsIn(data, raw.raws, Placement(Addresses(relocations.sets), dataStart, relocations.base,
                                                     packageOffset)), p3)
  }
}
