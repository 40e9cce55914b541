/** The package reader: field by field from the stream, then the parts, each with its slice of the relocations. */
module PackageReader {
  import opened Wrappers
  import opened Bytes
  import opened MemStreams
  import opened RelocTable
  import opened PkgParts
  import opened PackageImage
  import opened PackageWriter
  import opened PackageParse

  method ReadSignature(stream: MemStream) returns (r: Result<bool, Error>)
    requires stream.Valid()
    modifies stream
    ensures stream.Valid() && stream.data == old(stream.data)
    ensures Agrees(r, SignatureAt(stream.data, old(stream.cursor)), stream.cursor)
  {
    hide Overwrite;
    var signature := stream.Read(8);
    if |signature| != 8 {
      return Failure(EndOfFile);
    }
    if signature == Signature(true) {
      return Success(true);
    } else if signature == Signature(false) {
      return Success(false);
    } else {
      return Failure(UnknownSignature);
    }
  }

  method ReadHeader(stream: MemStream) returns (r: Result<RawHeader, Error>)
    requires stream.Valid()
    modifies stream
    ensures stream.Valid() && stream.data == old(stream.data)
    ensures Agrees(r, HeaderAt(stream.data, old(stream.cursor)), stream.cursor)
  {
    hide stream.Valid, SignatureAt, LongAt, ShortAt;
    var nos1 :- ReadSignature(stream);
    var id :- stream.GetLong();
    var flags :- stream.GetLong();
    var version :- stream.GetLong();
    var copyrightOffset :- stream.GetShort();
    var copyrightLength :- stream.GetShort();
    var nameOffset :- stream.GetShort();
    var nameLength :- stream.GetShort();
    if copyrightLength % 2 == 1 {
      return Failure(StringsDontSeemUniCStr);
    }
    if nameLength % 2 == 1 {
      return Failure(StringsDontSeemUniCStr);
    }
    var size :- stream.GetLong();
    var date :- stream.GetLong();
    var reserved1 :- stream.GetLong();
    var reserved2 :- stream.GetLong();
    var directorySize :- stream.GetLong();
    var numParts :- stream.GetLong();
    return Success(RawHeader(nos1, id, flags, version, copyrightOffset, copyrightLength, nameOffset, nameLength,
                             size, date, directorySize, numParts));
  }

  method ReadEntry(stream: MemStream) returns (r: Result<RawEntry, Error>)
    requires stream.Valid()
    modifies stream
    ensures stream.Valid() && stream.data == old(stream.data)
    ensures Agrees(r, EntryAt(stream.data, old(stream.cursor)), stream.cursor)
  {
    hide stream.Valid, LongAt, ShortAt;
    var offset :- stream.GetLong();
    var size :- stream.GetLong();
    var size2 :- stream.GetLong();
    var type_ :- stream.GetLong();
    var reserved1 :- stream.GetLong();
    var flags :- stream.GetLong();
    var infoOffset :- stream.GetShort();
    var infoSize :- stream.GetShort();
    var reserved2 :- stream.GetLong();
    return Success(RawEntry(offset, size, type_, flags, infoOffset, infoSize));
  }

  lemma EntriesAtNext(s: seq<byte>, pos: nat, i: nat, n: nat, raws: seq<RawEntry>, next: nat)
    requires i < n && EntriesAt(s, pos, i) == Got(raws, next)
    ensures EntryAt(s, next).Got? ==>
              EntriesAt(s, pos, i + 1) == Got(raws + [EntryAt(s, next).value], EntryAt(s, next).next)
    ensures EntryAt(s, next).Failed? ==> EntriesAt(s, pos, n) == Failed(EntryAt(s, next).error)
  {
    hide EntryAt;
    if EntryAt(s, next).Failed? {
      EntriesAtFails(s, pos, i + 1, n);
    }
  }

  lemma EntriesAtFails(s: seq<byte>, pos: nat, i: nat, n: nat)
    requires i <= n && EntriesAt(s, pos, i).Failed?
    ensures EntriesAt(s, pos, n) == Failed(EntriesAt(s, pos, i).error)
  {
    hide EntryAt;
    if i < n {
      EntriesAtFails(s, pos, i, n - 1);
    }
  }

  lemma EntriesAtStart(s: seq<byte>, pos: nat)
    ensures EntriesAt(s, pos, 0) == Got([], pos)
  {
  }

  method ReadEntries(stream: MemStream, n: nat) returns (r: Result<seq<RawEntry>, Error>)
    requires stream.Valid()
    modifies stream
    ensures stream.Valid() && stream.data == old(stream.data)
    ensures Agrees(r, EntriesAt(stream.data, old(stream.cursor), n), stream.cursor)
  {
    hide stream.Valid, EntryAt, EntriesAt;
    ghost var start := stream.cursor;
    var raws: seq<RawEntry> := [];
    EntriesAtStart(stream.data, start);
    for i := 0 to n
      invariant stream.Valid() && stream.data == old(stream.data)
      invariant EntriesAt(stream.data, start, i) == Got(raws, stream.cursor)
    {
      EntriesAtNext(stream.data, start, i, n, raws, stream.cursor);
      var raw :- ReadEntry(stream);
      raws := raws + [raw];
    }
    return Success(raws);
  }

  method ReadRelocations(stream: MemStream) returns (r: Result<RawRelocations, Error>)
    requires stream.Valid()
    modifies stream
    ensures stream.Valid() && stream.data == old(stream.data)
    ensures Agrees(r, RelocationsAt(stream.data, old(stream.cursor)), stream.cursor)
  {
    hide stream.Valid, LongAt, SetsAt;
    var start := stream.cursor;
    var reserved :- stream.GetLong();
    var size :- stream.GetLong();
    var pageSize :- stream.GetLong();
    var numEntries :- stream.GetLong();
    var base :- stream.GetLong();
    var sets :- ReadSets(stream, numEntries);
    var used := stream.cursor - start;
    var skipped :- SkipBytes(stream, if used < size then size - used else 0);
    return Success(RawRelocations(size, base, sets));
  }

  method SkipBytes(stream: MemStream, count: nat) returns (r: Result<seq<byte>, Error>)
    requires stream.Valid()
    modifies stream
    ensures stream.Valid() && stream.data == old(stream.data)
    ensures Agrees(r, BytesAt(stream.data, old(stream.cursor), count), stream.cursor)
  {
    hide Overwrite;
    ghost var start := stream.cursor;
    for i := 0 to count
      invariant stream.Valid() && stream.data == old(stream.data)
      invariant stream.cursor == start + i
    {
      var b :- stream.GetByte();
    }
    return Success(stream.data[stream.cursor - count..stream.cursor]);
  }

  /** The infos of the parts, copied one part after the other. */
  method CopyInfos(d: seq<byte>, raws: seq<RawEntry>) returns (r: Result<seq<(seq<byte>, seq<byte>)>, Error>)
    ensures r == InfosIn(d, raws, |raws|)
  {
    hide InfoIn, InfosIn;
    var infos: seq<(seq<byte>, seq<byte>)> := [];
    InfosInStart(d, raws);
    for i := 0 to |raws|
      invariant InfosIn(d, raws, i) == Success(infos)
    {
      InfosInNext(d, raws, i, |raws|, infos);
      var info :- InfoIn(d, raws, i);
      infos := infos + [info];
    }
    return Success(infos);
  }

  lemma InfosInStart(d: seq<byte>, raws: seq<RawEntry>)
    ensures InfosIn(d, raws, 0) == Success([])
  {
  }

  lemma InfosInNext(d: seq<byte>, raws: seq<RawEntry>, i: nat, n: nat, infos: seq<(seq<byte>, seq<byte>)>)
    requires i < n <= |raws| && InfosIn(d, raws, i) == Success(infos)
    ensures InfoIn(d, raws, i).Success? ==> InfosIn(d, raws, i + 1) == Success(infos + [InfoIn(d, raws, i).value])
    ensures InfoIn(d, raws, i).Failure? ==> InfosIn(d, raws, n) == Failure(InfoIn(d, raws, i).error)
  {
    hide InfoIn;
    if InfoIn(d, raws, i).Failure? {
      InfosInFails(d, raws, i + 1, n);
    }
  }

  lemma InfosInFails(d: seq<byte>, raws: seq<RawEntry>, i: nat, n: nat)
    requires i <= n <= |raws| && InfosIn(d, raws, i).Failure?
    ensures InfosIn(d, raws, n) == Failure(InfosIn(d, raws, i).error)
  {
    hide InfoIn;
    if i < n {
      InfosInFails(d, raws, i, n - 1);
    }
  }

  method ReadDirectory(stream: MemStream) returns (r: Result<RawPackage, Error>)
    requires stream.Valid()
    modifies stream
    ensures stream.Valid() && stream.data == old(stream.data)
    ensures Agrees(r, DirectoryAt(stream.data, old(stream.cursor)), stream.cursor)
  {
    hide stream.Valid, HeaderAt, EntriesAt, DirectoryIn, DirectoryInfoSize;
    HeaderStringsEven(stream.data, stream.cursor);
    var header :- ReadHeader(stream);
    if header.directorySize <= DirectoryInfoSize(header.numParts) {
      return Failure(WeirdDirectorySize);
    }
    var raws :- ReadEntries(stream, header.numParts);
    var size := header.directorySize - DirectoryInfoSize(header.numParts);
    var d := stream.Read(size);
    if |d| != size {
      return Failure(EndOfFile);
    }
    var directory :- CopyDirectory(d, header, raws);
    return Success(RawPackage(header, raws, directory));
  }

  method CopyDirectory(d: seq<byte>, h: RawHeader, raws: seq<RawEntry>) returns (r: Result<RawDirectory, Error>)
    requires h.copyrightLength % 2 == 0 && h.nameLength % 2 == 0
    ensures r == DirectoryIn(d, h, raws)
  {
    hide StringIn, ExtraIn, InfosIn;
    var copyright: seq<u16> := [0];
    if h.copyrightLength > 0 {
      copyright :- StringIn(d, h.copyrightOffset, h.copyrightLength);
    }
    if h.nameLength == 0 {
      return Failure(NoName);
    }
    var name :- StringIn(d, h.nameOffset, h.nameLength);
    var extra :- ExtraIn(d, h.nameOffset as nat + h.nameLength as nat, InfoStart(d, raws, 0));
    var infos :- CopyInfos(d, raws);
    return Success(RawDirectory(copyright, name, extra, infos));
  }

  method ReadRelocationsIfFlagged(stream: MemStream, flags: u32) returns (r: Result<RawRelocations, Error>)
    requires stream.Valid()
    modifies stream
    ensures stream.Valid() && stream.data == old(stream.data)
    ensures Agrees(r, RelocationsIfFlagged(stream.data, old(stream.cursor), flags), stream.cursor)
  {
    hide stream.Valid, RelocationsAt, HasRelocationFlag;
    if HasRelocationFlag(flags) {
      r := ReadRelocations(stream);
    } else {
      r := Success(RawRelocations(0, 0, []));
    }
  }

  /** The addresses of all the sets, one page after the other. */
  method CollectAddresses(sets: seq<RelocSet>) returns (all: seq<u32>)
    ensures all == Addresses(sets)
  {
    hide AddressOf;
    all := [];
    assert sets[..|sets|] == sets;
    for i := 0 to |sets|
      invariant all == Addresses(sets[..i])
    {
      ghost var before := all;
      assert sets[..i + 1][..i] == sets[..i];
      for k := 0 to |sets[i].offsets|
        invariant all == before + SetAddresses(sets[i])[..k]
      {
        all := all + [AddressOf(sets[i].page, sets[i].offsets[k])];
      }
    }
  }

  /** The reader's scan for the relocations of one part. */
  method ScanRelocations(addresses: seq<u32>, start: nat, end: nat) returns (slice: seq<u32>)
    ensures slice == SliceFor(addresses, start, end)
  {
    var first, found, count := 0, false, 0;
    assert addresses[..|addresses|] == addresses;
    for i := 0 to |addresses|
      invariant found ==> first < i && first == FirstAtLeast(addresses, start)
      invariant !found ==> forall k :: 0 <= k < i ==> addresses[k] < start
      invariant count == CountWithin(addresses[..i], start, end)
    {
      assert addresses[..i + 1][..i] == addresses[..i];
      if !found && addresses[i] >= start {
        first, found := i, true;
      }
      if start <= addresses[i] < end {
        count := count + 1;
      }
    }
    CountAfterFirst(addresses, start, end);
    if found {
      slice := addresses[first..first + count];
    } else {
      CountNone(addresses, start, end);
      slice := [];
    }
  }

  method BuildPart(data: seq<byte>, raw: RawEntry, at: Placement) returns (r: Result<PkgPart, Error>)
    ensures PartIn(data, raw, at).Success? ==>
              r.Success? && fresh(r.value) && r.value.Value() == PartIn(data, raw, at).value
    ensures PartIn(data, raw, at).Failure? ==> r == Failure(PartIn(data, raw, at).error)
  {
    hide SliceFor, FromOrigin, Low32, IsNOSPart;
    var end := raw.offset as nat + raw.size as nat;
    if end > |data| {
      return Failure(WeirdPartSize);
    }
    var start := at.dataStart as nat + raw.offset as nat;
    var slice := ScanRelocations(at.addresses, start, start + raw.size as nat);
    var part := new PkgPart(Low32(start + at.packageOffset), data[raw.offset..end]);
    if !IsNOSPart(raw.flags) && slice != [] {
      part.SetRelocations(slice, Low32(at.base as nat + at.dataStart as nat), Low32(start));
    }
    return Success(part);
  }

  ghost predicate PartsHave(parts: seq<PkgPart>, values: seq<Part>)
    reads parts
    ensures PartsHave(parts, values) ==> |parts| == |values|
  {
    && |parts| == |values|
    && (forall i, j :: 0 <= i < j < |parts| ==> parts[i] != parts[j])
    && forall i :: 0 <= i < |parts| ==> parts[i].Value() == values[i]
  }

  method BuildParts(data: seq<byte>, raws: seq<RawEntry>, at: Placement) returns (r: Result<seq<PkgPart>, Error>)
    ensures PartsIn(data, raws, at).Success? ==>
              r.Success? && fresh(r.value) && PartsHave(r.value, PartsIn(data, raws, at).value)
    ensures PartsIn(data, raws, at).Failure? ==> r == Failure(PartsIn(data, raws, at).error)
  {
    hide PartIn, PartsIn;
    var parts: seq<PkgPart> := [];
    ghost var values: seq<Part> := [];
    PartsInStart(data, raws, at);
    for i := 0 to |raws|
      invariant PartsIn(data, raws[..i], at) == Success(values)
      invariant fresh(parts) && PartsHave(parts, values)
    {
      PartsInNext(data, raws, i, at, values);
      var part :- BuildPart(data, raws[i], at);
      parts := parts + [part];
      values := values + [part.Value()];
    }
    return Success(parts);
  }

  lemma PartsInStart(data: seq<byte>, raws: seq<RawEntry>, at: Placement)
    ensures PartsIn(data, raws[..0], at) == Success([]) && raws[..|raws|] == raws
  {
  }

  lemma PartsInNext(data: seq<byte>, raws: seq<RawEntry>, i: nat, at: Placement, values: seq<Part>)
    requires i < |raws| && PartsIn(data, raws[..i], at) == Success(values)
    ensures PartIn(data, raws[i], at).Success? ==>
              PartsIn(data, raws[..i + 1], at) == Success(values + [PartIn(data, raws[i], at).value])
    ensures PartIn(data, raws[i], at).Failure? ==> PartsIn(data, raws, at) == Failure(PartIn(data, raws[i], at).error)
  {
    hide PartIn;
    assert raws[..i + 1][..i] == raws[..i];
    if PartIn(data, raws[i], at).Failure? {
      PartsInFails(data, raws, i + 1, at);
      assert raws[..|raws|] == raws;
    }
  }

  lemma PartsInFails(data: seq<byte>, raws: seq<RawEntry>, i: nat, at: Placement)
    requires i <= |raws| && PartsIn(data, raws[..i], at).Failure?
    ensures PartsIn(data, raws, at) == Failure(PartsIn(data, raws[..i], at).error)
    decreases |raws| - i
  {
    hide PartIn;
    if i < |raws| {
      assert raws[..i + 1][..i] == raws[..i];
      PartsInFails(data, raws, i + 1, at);
    } else {
      assert raws[..i] == raws;
    }
  }

  /** The package object, once everything has been read. */
  method Assemble(raw: RawPackage, parts: seq<PkgPart>, ghost values: seq<Part>) returns (package: Package)
    requires |raw.directory.infos| == |raw.raws| == |parts| && PartsHave(parts, values)
    ensures fresh(package)
    ensures package.Represents(LiftParts(raw, Success(values), 0).value)
    ensures forall i, j :: 0 <= i < j < |package.parts| ==> package.parts[i].part != package.parts[j].part
  {
    var h, d := raw.header, raw.directory;
    var datas: seq<PartData> :=
      seq(|parts|, i requires 0 <= i < |parts| =>
            PartData(raw.raws[i].type_, raw.raws[i].flags, d.infos[i].0, d.infos[i].1, parts[i]));
    package := new Package(h.nos1, h.id, h.flags, h.version, h.date, d.copyright, d.name, d.extra, datas);
  }

  /** Reads the package at the cursor of the stream. */
  method ReadPackage(stream: MemStream, packageOffset: u32) returns (r: Result<Package, Error>)
    requires stream.Valid()
    modifies stream
    ensures stream.Valid() && stream.data == old(stream.data)
    ensures PackageAt(stream.data, old(stream.cursor), packageOffset).Got? ==>
              && r.Success? && fresh(r.value)
              && r.value.Represents(PackageAt(stream.data, old(stream.cursor), packageOffset).value)
              && stream.cursor == PackageAt(stream.data, old(stream.cursor), packageOffset).next
    ensures PackageAt(stream.data, old(stream.cursor), packageOffset).Failed? ==>
              r == Failure(PackageAt(stream.data, old(stream.cursor), packageOffset).error)
  {
    hide stream.Valid, DirectoryAt, RelocationsIfFlagged, PartsIn, PartsHave, Addresses, Low32;
    DirectoryShape(stream.data, stream.cursor);
    var raw :- ReadDirectory(stream);
    var relocations :- ReadRelocationsIfFlagged(stream, raw.header.flags);
    var dataStart := Low32(raw.header.directorySize as nat + relocations.size as nat);
    var addresses := CollectAddresses(relocations.sets);
    var size := Low32(raw.header.size as int - dataStart as int);
    var data := stream.Read(size);
    if |data| != size {
      return Failure(EndOfFile);
    }
    var at := Placement(addresses, dataStart, relocations.base, packageOffset);
    var parts :- BuildParts(data, raw.raws, at);
    var package := Assemble(raw, parts, PartsIn(data, raw.raws, at).value);
    return Success(package);
  }
}
