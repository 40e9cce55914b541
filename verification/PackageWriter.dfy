/** The package object and its writer: sizes first, then the directory, a blank relocation area, the
    parts, and at last the relocation table, emitted over the blank area. */
module PackageWriter {
  import opened Wrappers
  import opened Bytes
  import opened Sequences
  import opened MemStreams
  import opened RelocTable
  import opened PkgParts
  import opened PackageImage

  // ---- the pieces of the directory --------------------------------------------------

  lemma Regroup14(x: seq<byte>, a: seq<byte>, b: seq<byte>, c: seq<byte>, d: seq<byte>, e: seq<byte>, f: seq<byte>,
                  g: seq<byte>, h: seq<byte>, i: seq<byte>, j: seq<byte>, k: seq<byte>, l: seq<byte>, m: seq<byte>,
                  n: seq<byte>)
    ensures x + a + b + c + d + e + f + g + h + i + j + k + l + m + n
         == x + (a + b + c + d + e + f + g + h + i + j + k + l + m + n)
  {
    AppendAssoc(x, a, b);
    AppendAssoc(x, a + b, c);
    AppendAssoc(x, a + b + c, d);
    AppendAssoc(x, a + b + c + d, e);
    AppendAssoc(x, a + b + c + d + e, f);
    AppendAssoc(x, a + b + c + d + e + f, g);
    AppendAssoc(x, a + b + c + d + e + f + g, h);
    AppendAssoc(x, a + b + c + d + e + f + g + h, i);
    AppendAssoc(x, a + b + c + d + e + f + g + h + i, j);
    AppendAssoc(x, a + b + c + d + e + f + g + h + i + j, k);
    AppendAssoc(x, a + b + c + d + e + f + g + h + i + j + k, l);
    AppendAssoc(x, a + b + c + d + e + f + g + h + i + j + k + l, m);
    AppendAssoc(x, a + b + c + d + e + f + g + h + i + j + k + l + m, n);
  }

  lemma Regroup5(x: seq<byte>, a: seq<byte>, b: seq<byte>, c: seq<byte>, d: seq<byte>, e: seq<byte>)
    ensures x + a + b + c + d + e == x + (a + b + c + d + e)
  {
    AppendAssoc(x, a, b);
    AppendAssoc(x, a + b, c);
    AppendAssoc(x, a + b + c, d);
    AppendAssoc(x, a + b + c + d, e);
  }

  method WriteHeader(stream: MemStream, nos1: bool, id: u32, flags: u32, version: u32, copyrightLen: u16, nameLen: u16,
                     size: u32, date: u32, directorySize: u32, numParts: u32)
    requires stream.Valid()
    modifies stream
    ensures stream.Valid() && stream.was == old(stream.was) && stream.start == old(stream.start)
    ensures stream.written == old(stream.written)
              + HeaderBytes(nos1, id, flags, version, copyrightLen, nameLen, size, date, directorySize, numParts)
  {
    Regroup14(stream.written, Signature(nos1), BE32(id), BE32(flags), BE32(version), BE16(0), BE16(copyrightLen),
              BE16(copyrightLen), BE16(nameLen), BE32(size), BE32(date), BE32(0), BE32(0), BE32(directorySize),
              BE32(numParts));
    assert HeaderBytes(nos1, id, flags, version, copyrightLen, nameLen, size, date, directorySize, numParts)
        == Signature(nos1) + BE32(id) + BE32(flags) + BE32(version)
           + BE16(0) + BE16(copyrightLen) + BE16(copyrightLen) + BE16(nameLen)
           + BE32(size) + BE32(date) + BE32(0) + BE32(0) + BE32(directorySize) + BE32(numParts);
    hide *;
    stream.Write(Signature(nos1));
    stream.PutLong(id);
    stream.PutLong(flags);
    stream.PutLong(version);
    stream.PutShort(0);
    stream.PutShort(copyrightLen);
    stream.PutShort(copyrightLen);
    stream.PutShort(nameLen);
    stream.PutLong(size);
    stream.PutLong(date);
    stream.PutLong(0);
    stream.PutLong(0);
    stream.PutLong(directorySize);
    stream.PutLong(numParts);
  }

  method WriteEntry(stream: MemStream, offset: u32, size: u32, type_: u32, flags: u32, infoOffset: u16, infoSize: u16)
    requires stream.Valid()
    modifies stream
    ensures stream.Valid() && stream.was == old(stream.was) && stream.start == old(stream.start)
    ensures stream.written == old(stream.written) + EntryBytes(offset, size, type_, flags, infoOffset, infoSize)
  {
    assert stream.written + EntryBytes(offset, size, type_, flags, infoOffset, infoSize)
        == stream.written + BE32(offset) + BE32(size) + BE32(size) + BE32(type_) + BE32(0) + BE32(flags)
           + BE16(infoOffset) + BE16(infoSize) + BE32(0);
    hide *;
    stream.PutLong(offset);
    stream.PutLong(size);
    stream.PutLong(size);
    stream.PutLong(type_);
    stream.PutLong(0);
    stream.PutLong(flags);
    stream.PutShort(infoOffset);
    stream.PutShort(infoSize);
    stream.PutLong(0);
  }

  /** The relocation header and the blank space; the cursor of the number of sets is returned. */
  method WriteRelocationArea(stream: MemStream, size: u32, reserved: nat) returns (entriesAt: nat)
    requires stream.Valid()
    modifies stream
    ensures stream.Valid() && stream.was == old(stream.was) && stream.start == old(stream.start)
    ensures stream.written == old(stream.written) + BlankArea(size, reserved)
    ensures entriesAt == old(stream.cursor) + 12
  {
    hide BE32, Zeros, Overwrite;
    Regroup6(stream.written, BE32(0), BE32(size), BE32(PAGE_SIZE), BE32(0), BE32(0), Zeros(reserved));
    stream.PutLong(0);
    stream.PutLong(size);
    stream.PutLong(PAGE_SIZE);
    entriesAt := stream.cursor;
    stream.PutLong(0);
    stream.PutLong(0);
    PutZeros(stream, reserved);
  }

  lemma Regroup6(x: seq<byte>, a: seq<byte>, b: seq<byte>, c: seq<byte>, d: seq<byte>, e: seq<byte>, f: seq<byte>)
    ensures x + a + b + c + d + e + f == x + (a + b + c + d + e + f)
  {
    Regroup5(x, a, b, c, d, e);
    AppendAssoc(x, a + b + c + d + e, f);
  }

  method WriteAreaIfFlagged(stream: MemStream, l: Layout, ghost was: seq<byte>, ghost start: nat, ghost before: seq<byte>,
                            ghost area: seq<byte>)
    returns (entriesAt: nat)
    requires stream.Wrote(was, start, before)
    requires area == if HasRelocationFlag(l.flags) then BlankArea(Low32(l.relocationSize), l.reserved) else []
    modifies stream
    ensures stream.Wrote(was, start, before + area)
    ensures HasRelocationFlag(l.flags) ==> entriesAt == start + |before| + 12
  {
    hide HasRelocationFlag, Low32, BlankArea;
    entriesAt := 0;
    if HasRelocationFlag(l.flags) {
      entriesAt := WriteRelocationArea(stream, Low32(l.relocationSize), l.reserved);
    } else {
      assert before + area == before;
    }
  }

  method WriteBody(stream: MemStream, data: seq<byte>, padding: nat)
    requires stream.Valid()
    modifies stream
    ensures stream.Valid() && stream.was == old(stream.was) && stream.start == old(stream.start)
    ensures stream.written == old(stream.written) + data + Zeros(padding)
  {
    hide *;
    stream.Write(data);
    PutZeros(stream, padding);
  }

  /** The bytes of a string up to and including its terminator. */
  method FirstUnits(s: seq<u16>, n: nat) returns (r: seq<byte>)
    requires 0 in s && n == |CString(s)|
    ensures r == Units(CString(s))
  {
    r := Units(s[..n]);
  }

  // ---- the package object --------------------------------------------------------------

  /** What the package keeps about a part, and the part. */
  datatype PartData = PartData(type_: u32, flags: u32, info: seq<byte>, extra: seq<byte>, part: PkgPart)

  ghost function EntryOf(d: PartData): Entry
    reads d.part
  {
    Entry(d.type_, d.flags, d.info, d.extra, d.part.Value())
  }

  /** Every part has been asked for its size or bytes at its place, so asking again changes nothing. */
  predicate Settled(entries: seq<Entry>, load: u32, dataStart: nat) {
    forall i :: 0 <= i < |entries| ==> entries[i].part.offset == PlaceOf(entries, load, dataStart, i)
  }

  lemma DataEndNext(entries: seq<Entry>, i: nat)
    requires i < |entries|
    ensures DataEnd(entries[..i + 1]) == DataEnd(entries[..i]) + |entries[i].part.data| + Pad4(|entries[i].part.data|)
  {
    assert entries[..i + 1][..i] == entries[..i];
  }

  lemma PadAligned(aligned: nat, size: nat)
    requires aligned % 4 == 0
    ensures Pad4(aligned + size) == Pad4(size)
  {
  }

  lemma SameLengthsSameEnd(a: seq<Entry>, b: seq<Entry>)
    requires |a| == |b| && forall i :: 0 <= i < |a| ==> |a[i].part.data| == |b[i].part.data|
    ensures DataEnd(a) == DataEnd(b)
  {
    if a != [] {
      SameLengthsSameEnd(a[..|a| - 1], b[..|b| - 1]);
    }
  }

  /** Laying the parts out changes no length, so it changes no offset. */
  lemma PlacedIsSettled(entries: seq<Entry>, load: u32, dataStart: nat)
    requires AccessibleParts(entries)
    ensures Settled(Placed(entries, load, dataStart), load, dataStart)
    ensures DataEnd(Placed(entries, load, dataStart)) == DataEnd(entries)
  {
    hide AccessibleParts, DataEnd, PlaceOf;
    var placed := Placed(entries, load, dataStart);
    SameLengthsSameEnd(placed, entries);
    forall i | 0 <= i < |entries|
      ensures placed[i].part.offset == PlaceOf(placed, load, dataStart, i)
    {
      SameLengthsSamePlace(placed, entries, load, dataStart, i);
    }
  }

  lemma SameLengthsSamePlace(a: seq<Entry>, b: seq<Entry>, load: u32, dataStart: nat, i: nat)
    requires |a| == |b| && forall i :: 0 <= i < |a| ==> |a[i].part.data| == |b[i].part.data|
    requires i <= |a|
    ensures PlaceOf(a, load, dataStart, i) == PlaceOf(b, load, dataStart, i)
  {
    hide DataEnd;
    SameLengthsSameEnd(a[..i], b[..i]);
  }

  class Package {
    var nos1: bool
    var id: u32
    var flags: u32
    var version: u32
    var date: u32
    var copyright: seq<u16>
    var name: seq<u16>
    var extra: seq<byte>
    var parts: seq<PartData>

    constructor (nos1: bool, id: u32, flags: u32, version: u32, date: u32,
                 copyright: seq<u16>, name: seq<u16>, extra: seq<byte>, parts: seq<PartData>)
      ensures this.parts == parts
      ensures Describes(PackageValue(nos1, id, flags, version, date, copyright, name, extra, []))
    {
      this.nos1, this.id, this.flags, this.version, this.date := nos1, id, flags, version, date;
      this.copyright, this.name, this.extra, this.parts := copyright, name, extra, parts;
    }

    ghost function Objects(): set<PkgPart>
      reads this
    {
      set d <- parts :: d.part
    }

    /** The parts are, entry by entry, these values. */
    ghost predicate PartsAre(entries: seq<Entry>)
      reads this, Objects()
    {
      |entries| == |parts| && forall i :: 0 <= i < |parts| ==> EntryOf(parts[i]) == entries[i]
    }

    /** The fields other than the parts have these values. */
    ghost predicate Describes(p: PackageValue)
      reads this
    {
      && nos1 == p.nos1 && id == p.id && flags == p.flags && version == p.version && date == p.date
      && copyright == p.copyright && name == p.name && extra == p.extra
    }

    ghost predicate Represents(p: PackageValue)
      reads this, Objects()
    {
      Describes(p) && PartsAre(p.entries)
    }

    ghost predicate ValidParts()
      reads this, Objects()
    {
      && (forall i, j :: 0 <= i < j < |parts| ==> parts[i].part != parts[j].part)
      && (forall i :: 0 <= i < |parts| ==> parts[i].part.Encodable())
    }

    /** The parts have these values and have all been placed. */
    ghost predicate Ready(entries: seq<Entry>, load: u32, dataStart: nat)
      reads this, Objects()
      ensures Ready(entries, load, dataStart) ==> |entries| == |parts|
    {
      ValidParts() && PartsAre(entries) && Settled(entries, load, dataStart)
    }

    lemma ReadyEntry(entries: seq<Entry>, load: u32, dataStart: nat, i: nat)
      requires Ready(entries, load, dataStart) && i < |parts|
      ensures EntryOf(parts[i]) == entries[i]
    {
    }

    ghost predicate Valid()
      reads this, Objects()
    {
      ValidParts() && 0 in copyright && 0 in name
    }

    /** Asks one part for its size at an offset; no other part changes. */
    method AskSize(i: nat, at: u32, ghost entries: seq<Entry>) returns (r: Result<nat, Error>)
      requires ValidParts() && PartsAre(entries) && i < |parts|
      modifies Objects()
      ensures ValidParts()
      ensures r.Success? <==> CanMove(entries[i].part, at)
      ensures r.Failure? ==> r.error == BadParam
      ensures r.Success? ==> Accessible(entries[i].part.data, entries[i].part.relocations)
      ensures r.Success? ==> PartsAre(entries[i := entries[i].(part := Moved(entries[i].part, at))])
      ensures r.Success? ==> r.value == |entries[i].part.data|
    {
      hide Accessible, Moved, CanMove;
      var part := parts[i].part;
      assert EntryOf(parts[i]) == entries[i];
      r := part.GetSize(at);
    }

    /** Asks a part again for its size where it already is: nothing changes. */
    method AskSizeAgain(i: nat, at: u32, ghost entries: seq<Entry>, ghost load: u32, ghost dataStart: nat)
      returns (size: nat, type_: u32, flags: u32, infoSize: nat)
      requires Ready(entries, load, dataStart) && i < |parts|
      requires at == PlaceOf(entries, load, dataStart, i)
      modifies Objects()
      ensures Ready(entries, load, dataStart)
      ensures size == |entries[i].part.data| && infoSize == |entries[i].info|
      ensures type_ == entries[i].type_ && flags == entries[i].flags
    {
      hide Accessible, PlaceOf;
      var d := parts[i];
      assert EntryOf(d) == entries[i];
      type_, flags, infoSize := d.type_, d.flags, |d.info|;
      var r := d.part.GetSize(at);
      size := r.value;
    }

    /** Asks a part again for its size, then for its bytes and its relocations: nothing changes. */
    method AskPartAgain(i: nat, at: u32, ghost entries: seq<Entry>, ghost load: u32, ghost dataStart: nat)
      returns (size: nat, data: seq<byte>, relocations: seq<u32>)
      requires Ready(entries, load, dataStart) && i < |parts|
      requires at == PlaceOf(entries, load, dataStart, i)
      modifies Objects()
      ensures Ready(entries, load, dataStart)
      ensures data == entries[i].part.data && relocations == entries[i].part.relocations && size == |data|
    {
      hide Accessible, PlaceOf;
      var part := parts[i].part;
      assert EntryOf(parts[i]) == entries[i];
      var s := part.GetSize(at);
      size := s.value;
      var r := part.GetBuffer(at);
      data := r.value;
      relocations := part.relocations;
    }

    /** One step of the first pass: a part is asked for its size where it will be, and encodes if it must. */
    method PlaceNext(i: nat, load: u32, size: nat, ghost dataStart: nat, ghost entries: seq<Entry>)
      returns (r: Result<nat, Error>)
      requires ValidParts() && i < |parts| && |parts| == |entries| && dataStart % 4 == 0 && AccessibleParts(entries)
      requires PartsAre(Placing(entries, load, dataStart, i)) && size == dataStart + DataEnd(entries[..i])
      modifies Objects()
      ensures ValidParts()
      ensures r.Success? <==> CanMove(entries[i].part, PlaceOf(entries, load, dataStart, i))
      ensures r.Failure? ==> r.error == BadParam
      ensures r.Success? ==> PartsAre(Placing(entries, load, dataStart, i + 1))
      ensures r.Success? ==> r.value == dataStart + DataEnd(entries[..i + 1])
    {
      hide Placing, CanMove, PlaceOf, DataEnd, Moved, Accessible, AccessibleParts, PartsAre, ValidParts, NextAligned, Low32;
      ghost var now := Placing(entries, load, dataStart, i);
      var at := Low32(load + size);
      PlacingNext(entries, load, dataStart, i, size, now, at);
      var partSize :- AskSize(i, at, now);
      return Success(NextAligned(size + partSize));
    }

    /** The first pass over the parts. */
    method PlaceParts(load: u32, dataStart: nat, ghost entries: seq<Entry>) returns (r: Result<nat, Error>)
      requires ValidParts() && PartsAre(entries) && dataStart % 4 == 0 && AccessibleParts(entries)
      modifies Objects()
      ensures ValidParts()
      ensures r.Success? <==> CanPlace(entries, load, dataStart)
      ensures r.Failure? ==> r.error == BadParam
      ensures r.Success? ==> PartsAre(Placed(entries, load, dataStart))
      ensures r.Success? ==> r.value == dataStart + DataEnd(entries)
    {
      PlacingEnds(entries, load, dataStart);
      assert |entries| == |parts|;
      hide Placing, Placed, CanPlaceFirst, CanMove, PlaceOf, DataEnd, AccessibleParts, PartsAre, ValidParts;
      var size := dataStart;
      for i := 0 to |parts|
        invariant ValidParts() && PartsAre(Placing(entries, load, dataStart, i))
        invariant size == dataStart + DataEnd(entries[..i])
        invariant CanPlaceFirst(entries, load, dataStart, i)
      {
        CanPlaceNext(entries, load, dataStart, i);
        size :- PlaceNext(i, load, size, dataStart, entries);
      }
      return Success(size);
    }

    /** The directory grows by every info and extra info; the relocation area by every part's estimate. */
    method SumParts(ghost entries: seq<Entry>) returns (infos: nat, pages: nat, relocations: nat)
      requires PartsAre(entries)
      ensures infos == |Infos(entries)| && pages == PageCount(entries) && relocations == RelocationCount(entries)
    {
      infos, pages, relocations := 0, 0, 0;
      SumsStart(entries);
      for i := 0 to |parts|
        invariant infos == |Infos(entries[..i])| && pages == PageCount(entries[..i])
        invariant relocations == RelocationCount(entries[..i])
      {
        SumsNext(entries, i);
        hide Infos, PageCount, RelocationCount, PageEstimate;
        var d := parts[i];
        assert EntryOf(d) == entries[i];
        infos := infos + |d.info| + |d.extra|;
        pages := pages + d.part.PageCountEstimate();
        relocations := relocations + |d.part.relocations|;
      }
    }

    method WriteNextEntry(stream: MemStream, i: nat, load: u32, dataStart: nat, offset: nat, infoOffset: nat,
                          ghost entries: seq<Entry>, ghost infoBase: nat, ghost was: seq<byte>, ghost start: nat, ghost before: seq<byte>)
      returns (nextOffset: nat, nextInfoOffset: nat)
      requires Ready(entries, load, dataStart) && i < |parts|
      requires stream.Wrote(was, start, before + EntriesBytes(entries[..i], infoBase))
      requires offset == DataEnd(entries[..i]) && infoOffset == infoBase + InfoSize(entries[..i])
      modifies stream, Objects()
      ensures Ready(entries, load, dataStart)
      ensures stream.Wrote(was, start, before + EntriesBytes(entries[..i + 1], infoBase))
      ensures nextOffset == DataEnd(entries[..i + 1]) && nextInfoOffset == infoBase + InfoSize(entries[..i + 1])
    {
      hide DataEnd, InfoSize, Ready, PlaceOf, Low32, Low16, EntryBytes, EntriesBytes, NextAligned, stream.Valid, PartsAre,
           ValidParts, Settled;
      OffsetsNext(entries, load, dataStart, i, offset);
      var size, type_, flags, infoSize :=
        AskSizeAgain(i, Low32(load + (offset + dataStart)), entries, load, dataStart);
      EntriesNext(entries, infoBase, i, before, offset, size, type_, flags, infoOffset, infoSize);
      WriteEntry(stream, Low32(offset), Low32(size), type_, flags, Low16(infoOffset), Low16(infoSize));
      nextOffset := NextAligned(offset + size);
      nextInfoOffset := infoOffset + infoSize;
    }

    method WriteEntries(stream: MemStream, load: u32, dataStart: nat, infoBase: nat, ghost entries: seq<Entry>,
                      ghost was: seq<byte>, ghost start: nat, ghost before: seq<byte>)
      requires Ready(entries, load, dataStart) && stream.Wrote(was, start, before)
      modifies stream, Objects()
      ensures Ready(entries, load, dataStart)
      ensures stream.Wrote(was, start, before + EntriesBytes(entries, infoBase))
    {
      hide DataEnd, InfoSize, Ready, EntriesBytes, EntryBytes;
      var offset, infoOffset := 0, infoBase;
      EntriesStart(entries, infoBase, before);
      assert |entries| == |parts|;
      for i := 0 to |parts|
        invariant Ready(entries, load, dataStart)
        invariant stream.Wrote(was, start, before + EntriesBytes(entries[..i], infoBase))
        invariant offset == DataEnd(entries[..i]) && infoOffset == infoBase + InfoSize(entries[..i])
      {
        offset, infoOffset :=
          WriteNextEntry(stream, i, load, dataStart, offset, infoOffset, entries, infoBase, was, start, before);
      }
    }

    method WriteInfos(stream: MemStream, ghost entries: seq<Entry>, ghost load: u32, ghost dataStart: nat,
                      ghost was: seq<byte>, ghost start: nat, ghost before: seq<byte>)
      requires Ready(entries, load, dataStart) && stream.Wrote(was, start, before)
      modifies stream
      ensures Ready(entries, load, dataStart)
      ensures stream.Wrote(was, start, before + Infos(entries))
    {
      hide Infos, Ready, ValidParts, PartsAre, Settled, stream.Valid;
      InfosStart(entries, before);
      assert stream as object !in set o: object | o in Objects();
      for i := 0 to |parts|
        invariant Ready(entries, load, dataStart)
        invariant stream.Wrote(was, start, before + Infos(entries[..i]))
      {
        InfosNext(entries, i, before);
        ReadyEntry(entries, load, dataStart, i);
        var d := parts[i];
        stream.Write(d.info);
        stream.Write(d.extra);
      }
    }

    /** The part bodies; the relocations met on the way are collected, from the start of the package on. */
    method WriteNextPart(stream: MemStream, i: nat, load: u32, offset: nat, all: seq<u32>,
                         ghost entries: seq<Entry>, ghost dataStart: nat, ghost was: seq<byte>, ghost start: nat, ghost before: seq<byte>)
      returns (nextOffset: nat, nextAll: seq<u32>)
      requires Ready(entries, load, dataStart) && i < |parts|
      requires dataStart % 4 == 0 && offset == dataStart + DataEnd(entries[..i])
      requires stream.Wrote(was, start, before + Bodies(entries[..i])) && all == AllRelocations(entries[..i], dataStart)
      modifies stream, Objects()
      ensures Ready(entries, load, dataStart)
      ensures stream.Wrote(was, start, before + Bodies(entries[..i + 1]))
      ensures nextOffset == dataStart + DataEnd(entries[..i + 1])
      ensures nextAll == AllRelocations(entries[..i + 1], dataStart)
    {
      hide DataEnd, Bodies, AllRelocations, Ready, PlaceOf, Low32, Shift, Zeros, Pad4, stream.Valid, PartsAre, ValidParts, Settled;
      PlaceIs(entries, load, dataStart, i, offset);
      var size, data, relocations := AskPartAgain(i, Low32(load + offset), entries, load, dataStart);
      nextAll := all + Shift(relocations, offset);
      BodiesNext(entries, dataStart, i, before, data, Pad4(offset + size), offset, relocations);
      WriteBody(stream, data, Pad4(offset + size));
      nextOffset := offset + size + Pad4(offset + size);
    }

    method WriteParts(stream: MemStream, load: u32, dataStart: nat, ghost entries: seq<Entry>,
                      ghost was: seq<byte>, ghost start: nat, ghost before: seq<byte>) returns (all: seq<u32>)
      requires Ready(entries, load, dataStart)
      requires stream.Wrote(was, start, before) && dataStart % 4 == 0
      modifies stream, Objects()
      ensures Ready(entries, load, dataStart)
      ensures stream.Wrote(was, start, before + Bodies(entries))
      ensures all == AllRelocations(entries, dataStart)
    {
      hide DataEnd, Ready, Bodies, AllRelocations, Shift, Zeros, Pad4;
      all := [];
      var offset := dataStart;
      BodiesStart(entries, dataStart, before);
      assert |entries| == |parts|;
      for i := 0 to |parts|
        invariant Ready(entries, load, dataStart)
        invariant stream.Wrote(was, start, before + Bodies(entries[..i]))
        invariant all == AllRelocations(entries[..i], dataStart) && offset == dataStart + DataEnd(entries[..i])
      {
        offset, all := WriteNextPart(stream, i, load, offset, all, entries, dataStart, was, start, before);
      }
    }

    /** Adds a part, without extra info, at the end of the package: the package is the one with that entry more, and
        the part is not copied. */
    method AddPart(type_: u32, flags: u32, info: seq<byte>, part: PkgPart, ghost p: PackageValue) returns (index: nat)
      requires Valid() && Represents(p) && part !in Objects() && part.Encodable()
      modifies this`parts
      ensures Valid() && Represents(p.(entries := p.entries + [Entry(type_, flags, info, [], part.Value())]))
      ensures index == |p.entries| && Objects() == old(Objects()) + {part}
    {
      index := |parts|;
      parts := parts + [PartData(type_, flags, info, [], part)];
      assert parts[index] == PartData(type_, flags, info, [], part);
      assert forall d <- parts :: d in old(parts) || d == parts[index];
      assert forall i :: 0 <= i < index ==> parts[i] == old(parts)[i];
    }

    /** Removes a part; the parts after it move down by one. */
    method RemovePart(i: nat, ghost p: PackageValue)
      requires Valid() && Represents(p) && i < |parts|
      modifies this`parts
      ensures Valid() && Represents(p.(entries := p.entries[..i] + p.entries[i + 1..]))
      ensures Objects() == old(Objects()) - {old(parts)[i].part}
    {
      ghost var was := parts;
      parts := parts[..i] + parts[i + 1..];
      PartsWithout(was, p.entries, i);
    }

    lemma PartsWithout(was: seq<PartData>, entries: seq<Entry>, i: nat)
      requires i < |was| == |entries| && parts == was[..i] + was[i + 1..]
      requires forall k :: 0 <= k < |was| ==> EntryOf(was[k]) == entries[k] && was[k].part.Encodable()
      requires forall j, k :: 0 <= j < k < |was| ==> was[j].part != was[k].part
      ensures PartsAre(entries[..i] + entries[i + 1..]) && ValidParts()
      ensures Objects() == (set d <- was :: d.part) - {was[i].part}
    {
      hide Accessible;
      assert forall k :: 0 <= k < |parts| ==> parts[k] == was[if k < i then k else k + 1];
      forall k | 0 <= k < |was| && k != i ensures was[k].part in Objects() && was[k].part != was[i].part {
        assert was[k] == parts[if k < i then k else k - 1];
      }
    }

    /** The strings, the extra info, the handler infos and the alignment of the directory. */
    method WriteDirectoryData(stream: MemStream, l: Layout, ghost p: PackageValue, ghost placed: seq<Entry>,
                              ghost load: u32, ghost was: seq<byte>, ghost start: nat, ghost before: seq<byte>)
      requires ValidStrings(p) && Describes(p) && Ready(placed, load, DataStart(p)) && stream.Wrote(was, start, before)
      requires 0 in p.copyright && 0 in p.name
      requires l.copyrightUnits == |CString(p.copyright)| && l.nameUnits == |CString(p.name)|
      requires Infos(placed) == Infos(p.entries) && l.padding == Pad4(UnpaddedDirectorySize(p))
      modifies stream
      ensures Ready(placed, load, DataStart(p))
      ensures stream.Wrote(was, start, before + DirectoryData(p))
    {
      hide PartsAre, ValidParts, UnpaddedDirectorySize, CString, Units, Infos, Zeros, Pad4, Settled, DataStart,
           ValidStrings, stream.Valid, Ready;
      assert stream as object !in set o: object | o in Objects();
      var c := FirstUnits(copyright, l.copyrightUnits);
      var n := FirstUnits(name, l.nameUnits);
      stream.Write(c);
      stream.Write(n);
      stream.Write(extra);
      WriteInfos(stream, placed, load, DataStart(p), was, start, before + c + n + extra);
      PutZeros(stream, l.padding);
      Regroup5(before, c, n, extra, Infos(placed), Zeros(l.padding));
    }

    /** The sizes, and the first pass over the parts; nothing is written yet. */
    method Measure(load: u32, ghost p: PackageValue) returns (r: Result<Layout, Error>)
      requires ValidParts() && PartsAre(p.entries) && Describes(p) && ValidStrings(p) && AccessibleParts(p.entries)
      modifies Objects()
      ensures ValidParts()
      ensures r.Success? <==> CanPlace(p.entries, load, DataStart(p))
      ensures r.Failure? ==> r.error == BadParam
      ensures r.Success? ==> PartsAre(Placed(p.entries, load, DataStart(p))) && IsLayout(r.value, p)
    {
      hide ValidStrings, ValidParts, StrLen, Placed, CanPlace, AccessibleParts, LayoutFrom, DataStart, DataEnd,
           GlobalSize, IsLayout, Infos, PageCount, RelocationCount;
      var infos, pages, relocations := SumParts(p.entries);
      var l := LayoutFrom(StrLen(copyright) + 1, StrLen(name) + 1, |parts|, |extra|, infos, pages, relocations, flags, nos1);
      LayoutFromIs(p, infos, pages, relocations, l);
      var globalSize :- PlaceParts(load, l.directorySize + l.relocationSize, p.entries);
      return Success(l.(globalSize := globalSize));
    }

    method WriteHeaderOf(stream: MemStream, l: Layout, ghost p: PackageValue,
                         ghost was: seq<byte>, ghost start: nat, ghost before: seq<byte>)
      requires ValidStrings(p) && IsLayout(l, p) && Describes(p) && |parts| == |p.entries|
      requires stream.Wrote(was, start, before)
      modifies stream
      ensures stream.Wrote(was, start, before + Header(p))
    {
      hide IsLayout, HeaderBytes, Header, Low16, Low32, ValidStrings, StringsSize, DataStart;
      LayoutMeans(l, p);
      WriteHeader(stream, l.nos1, id, l.flags, version, Low16(2 * l.copyrightUnits), Low16(2 * l.nameUnits),
                  Low32(l.globalSize), date, Low32(l.directorySize), Low32(|parts|));
    }

    /** The header and the entries. */
    method WriteHeaderAndEntries(stream: MemStream, load: u32, l: Layout, ghost p: PackageValue, ghost placed: seq<Entry>,
                                 ghost was: seq<byte>, ghost start: nat, ghost before: seq<byte>)
      requires ValidStrings(p) && IsLayout(l, p) && Ready(placed, load, DataStart(p)) && SameShape(placed, p.entries)
      requires Describes(p) && stream.Wrote(was, start, before)
      modifies stream, Objects()
      ensures Ready(placed, load, DataStart(p))
      ensures stream.Wrote(was, start, before + Header(p) + EntriesBytes(p.entries, StringsSize(p)))
    {
      hide IsLayout, Ready, SameShape, Header, EntriesBytes, StringsSize, DirectorySize, DataStart, UnpaddedDirectorySize,
           ValidStrings, Describes, stream.Wrote, stream.Valid, RelocationArea, GlobalSize, EffectiveFlags, EffectiveNos1,
           CString, HasRelocationFlag, BlankArea, Low32, Low16, HeaderBytes;
      var dataStart, infoBase := l.directorySize + l.relocationSize, 2 * l.copyrightUnits + 2 * l.nameUnits;
      LayoutBases(l, p, dataStart, infoBase);
      EntriesSame(placed, p.entries, infoBase);
      WriteHeaderOf(stream, l, p, was, start, before);
      WriteEntries(stream, load, dataStart, infoBase, placed, was, start, before + Header(p));
    }

    /** The header, the entries and the directory data. */
    method WriteDirectory(stream: MemStream, load: u32, l: Layout, ghost p: PackageValue, ghost placed: seq<Entry>,
                          ghost was: seq<byte>, ghost start: nat, ghost before: seq<byte>)
      requires ValidStrings(p) && IsLayout(l, p) && Ready(placed, load, DataStart(p)) && SameShape(placed, p.entries)
      requires Describes(p) && stream.Wrote(was, start, before)
      modifies stream, Objects()
      ensures Ready(placed, load, DataStart(p))
      ensures stream.Wrote(was, start, before + Directory(p))
    {
      hide IsLayout, Ready, SameShape, Header, EntriesBytes, DirectoryData, StringsSize, DirectorySize,
           DataStart, Infos, UnpaddedDirectorySize, Pad4, ValidStrings, Describes, stream.Wrote, stream.Valid,
           RelocationArea, GlobalSize, EffectiveFlags, EffectiveNos1, CString, HasRelocationFlag, BlankArea, Low32, Low16;
      SameShapeSame(placed, p.entries, DataStart(p), StringsSize(p));
      LayoutMeans(l, p);
      ghost var h, e := Header(p), EntriesBytes(p.entries, StringsSize(p));
      WriteHeaderAndEntries(stream, load, l, p, placed, was, start, before);
      WriteDirectoryData(stream, l, p, placed, load, was, start, before + h + e);
      AppendAssoc(before, h, e);
      AppendAssoc(before, h + e, DirectoryData(p));
    }

    /** Everything in order, with the relocation area blank. */
    method WriteBlank(stream: MemStream, load: u32, l: Layout, ghost p: PackageValue, ghost placed: seq<Entry>,
                      ghost was: seq<byte>, ghost start: nat, ghost before: seq<byte>)
      returns (entriesAt: nat, all: seq<u32>)
      requires ValidStrings(p) && IsLayout(l, p) && Ready(placed, load, DataStart(p)) && Describes(p)
      requires AccessibleParts(p.entries) && placed == Placed(p.entries, load, DataStart(p))
      requires stream.Wrote(was, start, before)
      modifies stream, Objects()
      ensures Ready(placed, load, DataStart(p)) && stream.Wrote(was, start, before + Plain(p, load))
      ensures all == AllRelocations(p.entries, DataStart(p))
      ensures HasRelocationFlag(l.flags) ==> entriesAt == start + |before| + DirectorySize(p) + 12
    {
      hide IsLayout, Ready, SameShape, Directory, DirectorySize, DataStart, DataEnd, Placed, Bodies, AllRelocations,
           ValidStrings, Describes, AccessibleParts, BlankArea, HasRelocationFlag, Overwrite, RelocationArea, Low32,
           EffectiveFlags, UnpaddedDirectorySize, StringsSize, CString, Pad4, ValidParts, PartsAre, Settled, Header,
           EntriesBytes, Infos, InfoSize, PageCount, RelocationCount;
      PlacedShape(p.entries, load, DataStart(p));
      SameShapeSame(placed, p.entries, DataStart(p), 0);
      LayoutMeans(l, p);
      DirectoryLength(p);
      ghost var d, area := Directory(p), RelocationArea(p);
      AppendAssoc(before, d, area);
      AppendAssoc(before, d + area, Bodies(placed));
      WriteDirectory(stream, load, l, p, placed, was, start, before);
      entriesAt := WriteAreaIfFlagged(stream, l, was, start, before + d, area);
      all := WriteParts(stream, load, l.directorySize + l.relocationSize, placed, was, start, before + d + area);
    }

    /** Lays the package out for a load address and writes it at the cursor of the stream. */
    method WriteToStream(stream: MemStream, load: u32, ghost p: PackageValue) returns (r: Result<(), Error>)
      requires Valid() && Represents(p) && stream.Valid()
      modifies stream, Objects()
      ensures stream.Valid() && ValidParts() && AccessibleParts(p.entries) && ValidStrings(p)
      ensures r.Success? <==> CanPlace(p.entries, load, DataStart(p))
      ensures r.Failure? ==> r.error == BadParam && stream.data == old(stream.data)
      ensures r.Success? ==> Represents(p.(entries := Placed(p.entries, load, DataStart(p))))
      ensures r.Success? ==> stream.data == Written(old(stream.data), old(stream.cursor), p, load)
      ensures r.Success? ==> stream.cursor == old(stream.cursor) + |Plain(p, load)|
    {
      hide AccessibleParts, IsLayout, PartsAre, ValidParts, Describes, DataStart, Placed, CanPlace, Plain, Written,
           stream.Valid, Valid, Represents, ValidStrings;
      ValidMeans(p);
      var l :- Measure(load, p);
      WriteMeasured(stream, load, l, p);
      RepresentsWith(p, Placed(p.entries, load, DataStart(p)));
      return Success(());
    }

    lemma ValidMeans(p: PackageValue)
      requires Valid() && Represents(p)
      ensures ValidParts() && PartsAre(p.entries) && Describes(p) && ValidStrings(p) && AccessibleParts(p.entries)
    {
    }

    lemma RepresentsWith(p: PackageValue, entries: seq<Entry>)
      requires Describes(p) && PartsAre(entries)
      ensures Represents(p.(entries := entries))
    {
    }

    lemma PlacedIsReady(entries: seq<Entry>, load: u32, dataStart: nat)
      requires AccessibleParts(entries) && ValidParts() && PartsAre(Placed(entries, load, dataStart))
      ensures Ready(Placed(entries, load, dataStart), load, dataStart)
    {
      hide Placed, Settled, PartsAre, ValidParts, AccessibleParts;
      PlacedIsSettled(entries, load, dataStart);
    }

    lemma ReadyMeans(entries: seq<Entry>, load: u32, dataStart: nat)
      requires Ready(entries, load, dataStart)
      ensures ValidParts() && PartsAre(entries)
    {
    }

    method WriteMeasured(stream: MemStream, load: u32, l: Layout, ghost p: PackageValue)
      requires ValidStrings(p) && IsLayout(l, p) && AccessibleParts(p.entries) && Describes(p)
      requires ValidParts() && PartsAre(Placed(p.entries, load, DataStart(p)))
      requires stream.Valid()
      modifies stream, Objects()
      ensures ValidParts() && PartsAre(Placed(p.entries, load, DataStart(p))) && stream.Valid()
      ensures stream.data == Written(old(stream.data), old(stream.cursor), p, load)
      ensures stream.cursor == old(stream.cursor) + |Plain(p, load)|
    {
      hide IsLayout, DirectorySize, DataStart, DataEnd, Placed, AllRelocations, Settled, PartsAre, ValidParts,
           ValidStrings, Describes, AccessibleParts, HasRelocationFlag, Overwrite, Plain, Emitted, Written, EffectiveFlags,
           stream.Valid, stream.Wrote, Ready;
      stream.Opened();
      ghost var placed := Placed(p.entries, load, DataStart(p));
      PlacedIsReady(p.entries, load, DataStart(p));
      LayoutFlags(l, p);
      ghost var was, start, x := stream.was, stream.start, stream.written;
      OverwriteAppend(was, start, x, Plain(p, load));
      WrittenMeans(stream.data, stream.cursor, p, load);
      var entriesAt, all := WriteBlank(stream, load, l, p, placed, was, start, x);
      stream.Closed(was, start, x + Plain(p, load));
      ReadyMeans(placed, load, DataStart(p));
      if HasRelocationFlag(l.flags) && all != [] {
        EmitTable(stream, entriesAt, all);
      }
    }
  }

  lemma WrittenMeans(was: seq<byte>, start: nat, p: PackageValue, load: u32)
    requires start <= |was| && ValidStrings(p) && AccessibleParts(p.entries)
    ensures HasRelocationFlag(EffectiveFlags(p)) && AllRelocations(p.entries, DataStart(p)) != [] ==>
              && start + DirectorySize(p) + 12 + 8 <= |Overwrite(was, start, Plain(p, load))|
              && Written(was, start, p, load)
                 == Emitted(Overwrite(was, start, Plain(p, load)), start + DirectorySize(p) + 12,
                            AllRelocations(p.entries, DataStart(p)))
    ensures !(HasRelocationFlag(EffectiveFlags(p)) && AllRelocations(p.entries, DataStart(p)) != []) ==>
              Written(was, start, p, load) == Overwrite(was, start, Plain(p, load))
  {
    hide DirectorySize, DataStart, AllRelocations, HasRelocationFlag, EffectiveFlags, Overwrite, Plain, Emitted;
    PlainHasTable(p, load);
  }

  /** The sizes the writer computes before it writes. */
  datatype Layout = Layout(copyrightUnits: nat, nameUnits: nat, padding: nat, directorySize: nat,
                           relocationSize: nat, reserved: nat, globalSize: nat, flags: u32, nos1: bool)

  predicate IsLayout(l: Layout, p: PackageValue)
    requires ValidStrings(p)
  {
    && l.copyrightUnits == |CString(p.copyright)| && l.nameUnits == |CString(p.name)|
    && l.padding == Pad4(UnpaddedDirectorySize(p)) && l.directorySize == DirectorySize(p)
    && l.relocationSize == RelocationSize(p.entries) && l.reserved == ReservedForSets(p.entries)
    && l.globalSize == GlobalSize(p)
    && l.flags == EffectiveFlags(p) && l.nos1 == EffectiveNos1(p)
  }

  lemma LayoutMeans(l: Layout, p: PackageValue)
    requires ValidStrings(p) && IsLayout(l, p)
    ensures Header(p) == HeaderBytes(l.nos1, p.id, l.flags, p.version, Low16(2 * l.copyrightUnits),
                                     Low16(2 * l.nameUnits), Low32(l.globalSize), p.date, Low32(l.directorySize),
                                     Low32(|p.entries|))
    ensures StringsSize(p) == 2 * l.copyrightUnits + 2 * l.nameUnits && 0 in p.copyright && 0 in p.name
    ensures DataStart(p) == l.directorySize + l.relocationSize && DataStart(p) % 4 == 0
    ensures l.copyrightUnits == |CString(p.copyright)| && l.nameUnits == |CString(p.name)|
    ensures l.padding == Pad4(UnpaddedDirectorySize(p)) && l.directorySize == DirectorySize(p)
    ensures l.flags == EffectiveFlags(p)
    ensures RelocationArea(p) == if HasRelocationFlag(l.flags) then BlankArea(Low32(l.relocationSize), l.reserved) else []
  {
    hide HeaderBytes, CString, UnpaddedDirectorySize, RelocationSize, ReservedForSets, Low16, Low32, Pad4;
    RelocationSizeAligned(p.entries);
  }

  lemma LayoutFlags(l: Layout, p: PackageValue)
    requires ValidStrings(p) && IsLayout(l, p)
    ensures l.flags == EffectiveFlags(p)
  {
  }

  lemma LayoutBases(l: Layout, p: PackageValue, dataStart: nat, infoBase: nat)
    requires ValidStrings(p) && IsLayout(l, p)
    requires dataStart == l.directorySize + l.relocationSize && infoBase == 2 * l.copyrightUnits + 2 * l.nameUnits
    ensures DataStart(p) == dataStart && StringsSize(p) == infoBase
  {
    hide *;
    LayoutMeans(l, p);
  }

  lemma EntriesSame(a: seq<Entry>, b: seq<Entry>, infoBase: nat)
    requires SameShape(a, b)
    ensures EntriesBytes(a, infoBase) == EntriesBytes(b, infoBase)
  {
    hide *;
    SameShapeSame(a, b, 0, infoBase);
  }

  function LayoutFrom(copyrightUnits: nat, nameUnits: nat, numParts: nat, extra: nat, infos: nat, pages: nat,
                      relocations: nat, flags: u32, nos1: bool): Layout
  {
    var unpadded := HEADER_SIZE + 2 * copyrightUnits + 2 * nameUnits + ENTRY_SIZE * numParts + extra + infos;
    var reserved := pages * SetMax(relocations);
    var addsFlag := pages > 0 && !HasRelocationFlag(flags);
    Layout(copyrightUnits, nameUnits, Pad4(unpadded), unpadded + Pad4(unpadded),
           if pages > 0 then TABLE_HEADER_SIZE + reserved else 0, reserved, 0,
           if addsFlag then Low32(flags + RELOCATION_FLAG) else flags, nos1 && !addsFlag)
  }

  lemma LayoutFromIs(p: PackageValue, infos: nat, pages: nat, relocations: nat, l: Layout)
    requires ValidStrings(p)
    requires infos == |Infos(p.entries)| && pages == PageCount(p.entries) && relocations == RelocationCount(p.entries)
    requires l == LayoutFrom(StrLen(p.copyright) + 1, StrLen(p.name) + 1, |p.entries|, |p.extra|, infos, pages,
                             relocations, p.flags, p.nos1)
    ensures l.directorySize + l.relocationSize == DataStart(p) && DataStart(p) % 4 == 0
    ensures IsLayout(l.(globalSize := DataStart(p) + DataEnd(p.entries)), p)
  {
    hide UnpaddedDirectorySize, RelocationSize, ReservedForSets, SetMax, PageCount, Pad4, HasRelocationFlag, Low32, StrLen,
         DataEnd, Infos, RelocationCount, EffectiveFlags, EffectiveNos1;
    UnpaddedIs(p, HEADER_SIZE + 2 * (StrLen(p.copyright) + 1) + 2 * (StrLen(p.name) + 1) + ENTRY_SIZE * |p.entries|
                  + |p.extra| + infos);
    ReservedIs(p.entries, pages * SetMax(relocations));
    FlagsAre(p, l.flags, l.nos1);
    DataStartAligned(p);
  }

  lemma FlagsAre(p: PackageValue, flags: u32, nos1: bool)
    requires flags == if PageCount(p.entries) > 0 && !HasRelocationFlag(p.flags) then Low32(p.flags + RELOCATION_FLAG)
                      else p.flags
    requires nos1 == (p.nos1 && !(PageCount(p.entries) > 0 && !HasRelocationFlag(p.flags)))
    ensures flags == EffectiveFlags(p) && nos1 == EffectiveNos1(p)
  {
    hide PageCount, HasRelocationFlag, Low32;
  }

  lemma UnpaddedIs(p: PackageValue, unpadded: nat)
    requires ValidStrings(p)
    requires unpadded == HEADER_SIZE + 2 * (StrLen(p.copyright) + 1) + 2 * (StrLen(p.name) + 1) + ENTRY_SIZE * |p.entries|
                         + |p.extra| + |Infos(p.entries)|
    ensures unpadded == UnpaddedDirectorySize(p)
  {
    hide Infos, StrLen;
  }

  lemma ReservedIs(entries: seq<Entry>, reserved: nat)
    requires reserved == PageCount(entries) * SetMax(RelocationCount(entries))
    ensures reserved == ReservedForSets(entries)
    ensures RelocationSize(entries) == if PageCount(entries) > 0 then TABLE_HEADER_SIZE + reserved else 0
  {
    hide SetMax, PageCount, RelocationCount;
  }

  // ---- one more part ---------------------------------------------------------------------

  lemma SumsStart(entries: seq<Entry>)
    ensures Infos(entries[..0]) == [] && PageCount(entries[..0]) == 0 && RelocationCount(entries[..0]) == 0
    ensures entries[..|entries|] == entries
  {
  }

  lemma SumsNext(entries: seq<Entry>, i: nat)
    requires i < |entries|
    ensures |Infos(entries[..i + 1])| == |Infos(entries[..i])| + |entries[i].info| + |entries[i].extra|
    ensures PageCount(entries[..i + 1]) == PageCount(entries[..i]) + PageEstimate(entries[i].part.relocations)
    ensures RelocationCount(entries[..i + 1]) == RelocationCount(entries[..i]) + |entries[i].part.relocations|
  {
    hide PageEstimate;
    assert entries[..i + 1][..i] == entries[..i];
  }

  lemma InfosStart(entries: seq<Entry>, before: seq<byte>)
    ensures before == before + Infos(entries[..0]) && entries[..|entries|] == entries
  {
  }

  lemma InfosNext(entries: seq<Entry>, i: nat, before: seq<byte>)
    requires i < |entries|
    ensures before + Infos(entries[..i]) + entries[i].info + entries[i].extra == before + Infos(entries[..i + 1])
  {
    assert entries[..i + 1][..i] == entries[..i];
    AppendAssoc(before, Infos(entries[..i]), entries[i].info);
    AppendAssoc(before, Infos(entries[..i]) + entries[i].info, entries[i].extra);
  }

  lemma OffsetsNext(entries: seq<Entry>, load: u32, dataStart: nat, i: nat, offset: nat)
    requires i < |entries| && offset == DataEnd(entries[..i])
    ensures PlaceOf(entries, load, dataStart, i) == Low32(load + (offset + dataStart))
    ensures DataEnd(entries[..i + 1]) == NextAligned(offset + |entries[i].part.data|)
    ensures InfoSize(entries[..i + 1]) == InfoSize(entries[..i]) + |entries[i].info|
  {
    assert entries[..i + 1][..i] == entries[..i];
    DataEndNext(entries, i);
    PadAligned(offset, |entries[i].part.data|);
  }

  lemma PlaceIs(entries: seq<Entry>, load: u32, dataStart: nat, i: nat, offset: nat)
    requires i < |entries| && dataStart % 4 == 0
    requires offset == dataStart + DataEnd(entries[..i])
    ensures PlaceOf(entries, load, dataStart, i) == Low32(load + offset)
    ensures DataEnd(entries[..i + 1]) == DataEnd(entries[..i]) + |entries[i].part.data| + Pad4(|entries[i].part.data|)
    ensures Pad4(offset + |entries[i].part.data|) == Pad4(|entries[i].part.data|)
  {
    hide DataEnd, Pad4;
    assert Low32(load + dataStart + DataEnd(entries[..i])) == Low32(load + offset);
    DataEndNext(entries, i);
    PadAligned(offset, |entries[i].part.data|);
  }

  lemma EntriesStart(entries: seq<Entry>, infoBase: nat, before: seq<byte>)
    ensures before == before + EntriesBytes(entries[..0], infoBase)
    ensures DataEnd(entries[..0]) == 0 && InfoSize(entries[..0]) == 0
    ensures entries[..|entries|] == entries
  {
  }

  lemma EntriesNext(entries: seq<Entry>, infoBase: nat, i: nat, before: seq<byte>,
                    offset: nat, size: nat, type_: u32, flags: u32, infoOffset: nat, infoSize: nat)
    requires i < |entries|
    requires offset == DataEnd(entries[..i]) && infoOffset == infoBase + InfoSize(entries[..i])
    requires size == |entries[i].part.data| && infoSize == |entries[i].info|
    requires type_ == entries[i].type_ && flags == entries[i].flags
    ensures before + EntriesBytes(entries[..i], infoBase)
            + EntryBytes(Low32(offset), Low32(size), type_, flags, Low16(infoOffset), Low16(infoSize))
         == before + EntriesBytes(entries[..i + 1], infoBase)
  {
    hide EntryBytes, DataEnd, InfoSize, Low32, Low16;
    assert entries[..i + 1][..i] == entries[..i];
    AppendAssoc(before, EntriesBytes(entries[..i], infoBase),
          EntryBytes(Low32(offset), Low32(size), type_, flags, Low16(infoOffset), Low16(infoSize)));
  }

  lemma BodiesStart(entries: seq<Entry>, dataStart: nat, before: seq<byte>)
    ensures before == before + Bodies(entries[..0]) && AllRelocations(entries[..0], dataStart) == []
    ensures DataEnd(entries[..0]) == 0 && entries[..|entries|] == entries
  {
  }

  lemma BodiesNext(entries: seq<Entry>, dataStart: nat, i: nat, before: seq<byte>,
                   data: seq<byte>, padding: nat, offset: nat, relocations: seq<u32>)
    requires i < |entries|
    requires data == entries[i].part.data && padding == Pad4(|data|)
    requires offset == dataStart + DataEnd(entries[..i]) && relocations == entries[i].part.relocations
    ensures before + Bodies(entries[..i]) + data + Zeros(padding) == before + Bodies(entries[..i + 1])
    ensures AllRelocations(entries[..i + 1], dataStart)
         == AllRelocations(entries[..i], dataStart) + Shift(relocations, offset)
  {
    hide Zeros, Pad4, DataEnd, Shift;
    assert entries[..i + 1][..i] == entries[..i];
    AppendAssoc(before, Bodies(entries[..i]), data);
    AppendAssoc(before, Bodies(entries[..i]) + data, Zeros(padding));
  }

  /** The parts during the first pass: those before i are placed. */
  function Placing(entries: seq<Entry>, load: u32, dataStart: nat, i: nat): (r: seq<Entry>)
    requires AccessibleParts(entries) && i <= |entries|
    ensures |r| == |entries|
  {
    Placed(entries, load, dataStart)[..i] + entries[i..]
  }

  lemma UpdateAtSplit<T>(a: seq<T>, b: seq<T>, i: nat)
    requires |a| == |b| && i < |a|
    ensures (a[..i] + b[i..])[i] == b[i]
    ensures (a[..i] + b[i..])[i := a[i]] == a[..i + 1] + b[i + 1..]
  {
  }

  lemma PlacedAt(entries: seq<Entry>, load: u32, dataStart: nat, i: nat, at: u32)
    requires AccessibleParts(entries) && i < |entries| && at == PlaceOf(entries, load, dataStart, i)
    ensures Accessible(entries[i].part.data, entries[i].part.relocations)
    ensures Placed(entries, load, dataStart)[i] == entries[i].(part := Moved(entries[i].part, at))
  {
    hide PlaceOf, Moved, Accessible;
  }

  lemma PlacingNext(entries: seq<Entry>, load: u32, dataStart: nat, i: nat, size: nat, now: seq<Entry>, at: u32)
    requires AccessibleParts(entries) && i < |entries| && dataStart % 4 == 0
    requires now == Placing(entries, load, dataStart, i)
    requires size == dataStart + DataEnd(entries[..i]) && at == Low32(load + size)
    ensures now[i] == entries[i] && at == PlaceOf(entries, load, dataStart, i)
    ensures Accessible(entries[i].part.data, entries[i].part.relocations)
    ensures now[i := now[i].(part := Moved(now[i].part, at))] == Placing(entries, load, dataStart, i + 1)
    ensures NextAligned(size + |entries[i].part.data|) == dataStart + DataEnd(entries[..i + 1])
  {
    hide DataEnd, Moved, Accessible, Pad4, Low32, Placed, PlaceOf, AccessibleParts;
    PlaceIs(entries, load, dataStart, i, size);
    PlacedAt(entries, load, dataStart, i, at);
    UpdateAtSplit(Placed(entries, load, dataStart), entries, i);
  }

  function NextAligned(size: nat): nat {
    size + Pad4(size)
  }

  lemma CanPlaceNext(entries: seq<Entry>, load: u32, dataStart: nat, i: nat)
    requires i < |entries| && CanPlaceFirst(entries, load, dataStart, i)
    ensures CanMove(entries[i].part, PlaceOf(entries, load, dataStart, i)) ==>
              CanPlaceFirst(entries, load, dataStart, i + 1)
    ensures !CanMove(entries[i].part, PlaceOf(entries, load, dataStart, i)) ==> !CanPlace(entries, load, dataStart)
  {
  }

  lemma PlacingEnds(entries: seq<Entry>, load: u32, dataStart: nat)
    requires AccessibleParts(entries)
    ensures CanPlaceFirst(entries, load, dataStart, 0)
    ensures Placing(entries, load, dataStart, 0) == entries
    ensures Placing(entries, load, dataStart, |entries|) == Placed(entries, load, dataStart)
    ensures entries[..|entries|] == entries && DataEnd(entries[..0]) == 0
  {
  }
}
