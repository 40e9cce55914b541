/** What the reader finds, piece by piece, in bytes that hold what the writer writes. */
module PackageReadBack {
  import opened Wrappers
  import opened Bytes
  import opened MemStreams
  import opened RelocTable
  import opened PkgParts
  import opened PackageImage
  import opened PackageTable
  import opened PackageParse

  // ---- which packages -----------------------------------------------------------------

  /** Extra info only at the end of the directory: the writer's info offsets do not count it (InfoOffsetIff). */
  predicate ExtraAtEnd(p: PackageValue) {
    && (p.entries != [] ==> p.extra == [])
    && forall i :: 0 <= i < |p.entries| - 1 ==> p.entries[i].extra == []
  }

  /** Where each info starts, and its size, fit their fields; the last info may end beyond. */
  predicate InfoFits(entries: seq<Entry>, infoBase: nat) {
    forall i :: 0 <= i < |entries| ==> infoBase + InfoSize(entries[..i]) < TWO_16 && |entries[i].info| < TWO_16
  }

  /** Every size and every offset fits its field of the directory. */
  predicate FieldsFit(p: PackageValue)
    requires ValidStrings(p)
  {
    && GlobalSize(p) < TWO_32
    && 2 * |CString(p.copyright)| < TWO_16 && 2 * |CString(p.name)| < TWO_16
    && InfoFits(p.entries, StringsSize(p))
  }

  predicate WellFormed(p: PackageValue) {
    && ValidStrings(p) && AccessibleParts(p.entries) && WellRelocated(p.entries, DataStart(p))
    && FieldsFit(p) && PlainNOS(p.entries)
  }

  /** Parts of the NewtonScript kind have no relocations of their own. */
  predicate PlainNOS(entries: seq<Entry>) {
    forall i :: 0 <= i < |entries| && IsNOSPart(entries[i].flags) ==> entries[i].part.relocations == []
  }

  // ---- what is read back ----------------------------------------------------------------

  function PaddingOf(p: PackageValue): seq<byte>
    requires ValidStrings(p)
  {
    Zeros(Pad4(UnpaddedDirectorySize(p)))
  }

  /** The infos as the reader takes them from the directory data: each from where the writer says it is, with no extra
      info but what is left behind the last. */
  function InfoTaken(d: seq<byte>, base: nat, entries: seq<Entry>, i: nat): (seq<byte>, seq<byte>)
    requires i < |entries| && base + InfoSize(entries) <= |d|
  {
    InfoSizeFront(entries, i);
    var from := base + InfoSize(entries[..i]);
    var to := from + |entries[i].info|;
    (d[from..to], if i == |entries| - 1 then d[to..] else [])
  }

  lemma {:induction false} InfoSizeFront(entries: seq<Entry>, i: nat)
    requires i < |entries|
    ensures InfoSize(entries[..i]) + |entries[i].info| <= InfoSize(entries)
    ensures i == |entries| - 1 ==> InfoSize(entries[..i]) + |entries[i].info| == InfoSize(entries)
  {
    var n := |entries| - 1;
    if i < n {
      InfoSizeFront(entries[..n], i);
      assert entries[..n][..i] == entries[..i];
    }
  }

  function InfosTaken(d: seq<byte>, base: nat, entries: seq<Entry>): (r: seq<(seq<byte>, seq<byte>)>)
    requires base + InfoSize(entries) <= |d|
    ensures |r| == |entries|
  {
    seq(|entries|, i requires 0 <= i < |entries| => InfoTaken(d, base, entries, i))
  }

  lemma {:induction false} InfosAtLeast(entries: seq<Entry>)
    ensures |Infos(entries)| >= InfoSize(entries)
    ensures |Infos(entries)| == InfoSize(entries) <==> NoExtraBefore(entries, |entries|)
  {
    if entries != [] {
      var front := entries[..|entries| - 1];
      InfosAtLeast(front);
      assert NoExtraBefore(entries, |front|) <==> NoExtraBefore(front, |front|);
    }
  }

  lemma InfosInside(p: PackageValue)
    requires ValidStrings(p)
    ensures StringsSize(p) + InfoSize(p.entries) <= |DirectoryData(p)|
  {
    hide CString, InfoSize, Infos, UnpaddedDirectorySize, Pad4;
    InfosAtLeast(p.entries);
  }

  function InfosRead(p: PackageValue): (r: seq<(seq<byte>, seq<byte>)>)
    requires ValidStrings(p)
    ensures |r| == |p.entries|
  {
    InfosInside(p);
    InfosTaken(DirectoryData(p), StringsSize(p), p.entries)
  }

  /** The part as read back at a place: its bytes as they were placed there, its own relocations. */
  function RereadPart(part: Part, at: u32, base: u32): Part {
    Part(at, if part.relocations == [] then at else base, part.data, part.relocations)
  }

  /** An entry as read back: the info from where the writer said it was, and what is left behind the last info as extra
      info of the last part. */
  function RereadEntry(p: PackageValue, placed: seq<Entry>, load: u32, i: nat): Entry
    requires ValidStrings(p) && i < |placed| == |p.entries|
  {
    var e := placed[i];
    var (info, extra) := InfosRead(p)[i];
    Entry(e.type_, e.flags, info, extra, RereadPart(e.part, PlaceOf(placed, load, DataStart(p), i), Low32(DataStart(p))))
  }

  function RereadEntries(p: PackageValue, placed: seq<Entry>, load: u32): (r: seq<Entry>)
    requires ValidStrings(p) && |placed| == |p.entries|
    ensures |r| == |placed|
  {
    seq(|placed|, i requires 0 <= i < |placed| => RereadEntry(p, placed, load, i))
  }

  /** The package as read back at the load address it was written for. */
  function Reread(p: PackageValue, load: u32): PackageValue
    requires ValidStrings(p) && AccessibleParts(p.entries)
  {
    var placed := Placed(p.entries, load, DataStart(p));
    PackageValue(EffectiveNos1(p), p.id, EffectiveFlags(p), p.version, p.date,
                 CString(p.copyright), CString(p.name), if placed == [] then p.extra + PaddingOf(p) else [],
                 RereadEntries(p, placed, load))
  }

  // ---- the header and the entries ----------------------------------------------------------

  lemma SignatureReadBack(s: seq<byte>, pos: nat, nos1: bool)
    requires Holds(s, pos, Signature(nos1))
    ensures SignatureAt(s, pos) == Got(nos1, pos + 8)
  {
    BytesHeld(s, pos, Signature(nos1));
    assert Signature(true)[7] != Signature(false)[7];
  }

  lemma LongReadBack(s: seq<byte>, pos: nat, v: u32)
    requires Holds(s, pos, BE32(v))
    ensures LongAt(s, pos) == Got(v, pos + 4)
  {
    DecodeBE32(s, pos, v);
  }

  lemma ShortReadBack(s: seq<byte>, pos: nat, v: u16)
    requires Holds(s, pos, BE16(v))
    ensures ShortAt(s, pos) == Got(v, pos + 2)
  {
    DecodeBE16(s, pos, v);
  }

  /** The first half of the header: signature, identity and strings. */
  lemma HeaderSplit(s: seq<byte>, pos: nat, a: seq<byte>, b: seq<byte>, c: seq<byte>, d: seq<byte>, e: seq<byte>,
                    f: seq<byte>, g: seq<byte>, h: seq<byte>, i: seq<byte>, j: seq<byte>, k: seq<byte>, l: seq<byte>,
                    m: seq<byte>, n: seq<byte>)
    requires Holds(s, pos, a + b + c + d + e + f + g + h + i + j + k + l + m + n)
    requires |a| == 8 && |b| == |c| == |d| == 4 && |e| == |f| == |g| == |h| == 2
    requires |i| == |j| == |k| == |l| == |m| == |n| == 4
    ensures Holds(s, pos, a) && Holds(s, pos + 8, b) && Holds(s, pos + 12, c) && Holds(s, pos + 16, d)
    ensures Holds(s, pos + 20, e) && Holds(s, pos + 22, f) && Holds(s, pos + 24, g) && Holds(s, pos + 26, h)
    ensures Holds(s, pos + 28, i) && Holds(s, pos + 32, j) && Holds(s, pos + 36, k) && Holds(s, pos + 40, l)
    ensures Holds(s, pos + 44, m) && Holds(s, pos + 48, n)
  {
    hide Holds;
    HoldsBoth(s, pos, a + b + c + d + e + f + g + h + i + j + k + l + m, n);
    HoldsBoth(s, pos, a + b + c + d + e + f + g + h + i + j + k + l, m);
    HoldsBoth(s, pos, a + b + c + d + e + f + g + h + i + j + k, l);
    HoldsBoth(s, pos, a + b + c + d + e + f + g + h + i + j, k);
    HoldsBoth(s, pos, a + b + c + d + e + f + g + h + i, j);
    HoldsBoth(s, pos, a + b + c + d + e + f + g + h, i);
    HoldsBoth(s, pos, a + b + c + d + e + f + g, h);
    HoldsBoth(s, pos, a + b + c + d + e + f, g);
    HoldsBoth(s, pos, a + b + c + d + e, f);
    HoldsBoth(s, pos, a + b + c + d, e);
    HoldsBoth(s, pos, a + b + c, d);
    HoldsBoth(s, pos, a + b, c);
    HoldsBoth(s, pos, a, b);
  }

  lemma HeaderReadBack(s: seq<byte>, pos: nat, nos1: bool, id: u32, flags: u32, version: u32, copyrightLen: u16,
                       nameLen: u16, size: u32, date: u32, directorySize: u32, numParts: u32)
    requires Holds(s, pos, HeaderBytes(nos1, id, flags, version, copyrightLen, nameLen, size, date, directorySize, numParts))
    requires copyrightLen % 2 == 0 && nameLen % 2 == 0
    ensures HeaderAt(s, pos) == Got(RawHeader(nos1, id, flags, version, 0, copyrightLen, copyrightLen, nameLen,
                                              size, date, directorySize, numParts), pos + HEADER_SIZE)
  {
    hide Holds, Signature, BE32, BE16, SignatureAt, LongAt, ShortAt;
    HeaderSplit(s, pos, Signature(nos1), BE32(id), BE32(flags), BE32(version), BE16(0), BE16(copyrightLen),
                BE16(copyrightLen), BE16(nameLen), BE32(size), BE32(date), BE32(0), BE32(0), BE32(directorySize),
                BE32(numParts));
    SignatureReadBack(s, pos, nos1);
    LongReadBack(s, pos + 8, id);
    LongReadBack(s, pos + 12, flags);
    LongReadBack(s, pos + 16, version);
    ShortReadBack(s, pos + 20, 0);
    ShortReadBack(s, pos + 22, copyrightLen);
    ShortReadBack(s, pos + 24, copyrightLen);
    ShortReadBack(s, pos + 26, nameLen);
    LongReadBack(s, pos + 28, size);
    LongReadBack(s, pos + 32, date);
    LongReadBack(s, pos + 36, 0);
    LongReadBack(s, pos + 40, 0);
    LongReadBack(s, pos + 44, directorySize);
    LongReadBack(s, pos + 48, numParts);
  }

  lemma EntryReadBack(s: seq<byte>, pos: nat, offset: u32, size: u32, type_: u32, flags: u32, infoOffset: u16,
                      infoSize: u16)
    requires Holds(s, pos, EntryBytes(offset, size, type_, flags, infoOffset, infoSize))
    ensures EntryAt(s, pos) == Got(RawEntry(offset, size, type_, flags, infoOffset, infoSize), pos + ENTRY_SIZE)
  {
    hide Holds, BE32, BE16, LongAt, ShortAt;
    var a, b, c, d, e, f := BE32(offset), BE32(size), BE32(type_), BE32(0), BE32(flags), BE16(infoOffset);
    HoldsBoth(s, pos, a + b + b + c + d + e + f + BE16(infoSize), d);
    HoldsBoth(s, pos, a + b + b + c + d + e + f, BE16(infoSize));
    HoldsBoth(s, pos, a + b + b + c + d + e, f);
    HoldsBoth(s, pos, a + b + b + c + d, e);
    HoldsBoth(s, pos, a + b + b + c, d);
    HoldsBoth(s, pos, a + b + b, c);
    HoldsBoth(s, pos, a + b, b);
    HoldsBoth(s, pos, a, b);
    LongReadBack(s, pos, offset);
    LongReadBack(s, pos + 4, size);
    LongReadBack(s, pos + 8, size);
    LongReadBack(s, pos + 12, type_);
    LongReadBack(s, pos + 16, 0);
    LongReadBack(s, pos + 20, flags);
    ShortReadBack(s, pos + 24, infoOffset);
    ShortReadBack(s, pos + 26, infoSize);
    LongReadBack(s, pos + 28, 0);
  }

  /** The entries as the reader sees them. */
  function RawsOf(entries: seq<Entry>, infoBase: nat): (r: seq<RawEntry>)
    ensures |r| == |entries|
  {
    if entries == [] then []
    else
      var front, e := entries[..|entries| - 1], entries[|entries| - 1];
      RawsOf(front, infoBase)
      + [RawEntry(Low32(DataEnd(front)), Low32(|e.part.data|), e.type_, e.flags,
                  Low16(infoBase + InfoSize(front)), Low16(|e.info|))]
  }

  lemma {:induction false} EntriesReadBack(s: seq<byte>, pos: nat, entries: seq<Entry>, infoBase: nat)
    requires Holds(s, pos, EntriesBytes(entries, infoBase))
    ensures EntriesAt(s, pos, |entries|) == Got(RawsOf(entries, infoBase), pos + ENTRY_SIZE * |entries|)
  {
    hide Holds, EntryBytes, EntryAt, DataEnd, InfoSize, Low32, Low16;
    if entries != [] {
      var n := |entries| - 1;
      var front, e := entries[..n], entries[n];
      var offset, size, infoOffset, infoSize :=
        Low32(DataEnd(front)), Low32(|e.part.data|), Low16(infoBase + InfoSize(front)), Low16(|e.info|);
      HoldsBoth(s, pos, EntriesBytes(front, infoBase), EntryBytes(offset, size, e.type_, e.flags, infoOffset, infoSize));
      EntriesReadBack(s, pos, front, infoBase);
      EntryReadBack(s, pos + ENTRY_SIZE * n, offset, size, e.type_, e.flags, infoOffset, infoSize);
    }
  }

  /** No size or offset was too large for its field. */
  predicate EntriesFit(entries: seq<Entry>, infoBase: nat) {
    DataEnd(entries) < TWO_32 && InfoFits(entries, infoBase)
  }

  lemma InfoFitsFront(entries: seq<Entry>, infoBase: nat)
    requires entries != [] && InfoFits(entries, infoBase)
    ensures InfoFits(entries[..|entries| - 1], infoBase)
    ensures infoBase + InfoSize(entries[..|entries| - 1]) < TWO_16 && |entries[|entries| - 1].info| < TWO_16
  {
    hide InfoSize;
    var front := entries[..|entries| - 1];
    assert forall i :: 0 <= i < |front| ==> front[..i] == entries[..i];
  }

  lemma {:induction false} RawsFront(entries: seq<Entry>, infoBase: nat)
    requires entries != [] && EntriesFit(entries, infoBase)
    ensures RawsOf(entries, infoBase)[..|entries| - 1] == RawsOf(entries[..|entries| - 1], infoBase)
    ensures RawIs(RawsOf(entries, infoBase)[|entries| - 1], entries[..|entries| - 1], entries[|entries| - 1], infoBase)
    ensures EntriesFit(entries[..|entries| - 1], infoBase)
    ensures DataEnd(entries[..|entries| - 1]) + |entries[|entries| - 1].part.data| <= DataEnd(entries)
    ensures InfoSize(entries[..|entries| - 1]) + |entries[|entries| - 1].info| <= InfoSize(entries)
  {
    hide DataEnd, Pad4, Low16, Low32, InfoFits;
    DataEndLast(entries);
    var n := |entries| - 1;
    var front, e := entries[..n], entries[n];
    InfoFitsFront(entries, infoBase);
    Low16Exact(infoBase + InfoSize(front));
    Low16Exact(|e.info|);
    Low32Exact(DataEnd(front));
    Low32Exact(|e.part.data|);
  }

  lemma Low16Exact(x: nat)
    requires x < TWO_16
    ensures Low16(x) == x
  {
  }

  lemma Low32Exact(x: nat)
    requires x < TWO_32
    ensures Low32(x) == x
  {
  }

  lemma DataEndLast(entries: seq<Entry>)
    requires entries != []
    ensures var n := |entries| - 1;
            DataEnd(entries) == DataEnd(entries[..n]) + |entries[n].part.data| + Pad4(|entries[n].part.data|)
  {
  }

  /** The entry of a part that comes after others. */
  predicate RawIs(raw: RawEntry, before: seq<Entry>, e: Entry, infoBase: nat) {
    && raw.offset == DataEnd(before) && raw.size == |e.part.data| && raw.type_ == e.type_ && raw.flags == e.flags
    && raw.infoOffset == infoBase + InfoSize(before) && raw.infoSize == |e.info|
  }

  lemma {:induction false} RawsAt(entries: seq<Entry>, infoBase: nat, i: nat)
    requires i < |entries| && EntriesFit(entries, infoBase)
    ensures RawIs(RawsOf(entries, infoBase)[i], entries[..i], entries[i], infoBase)
    ensures DataEnd(entries[..i]) + |entries[i].part.data| <= DataEnd(entries)
    ensures InfoSize(entries[..i]) + |entries[i].info| <= InfoSize(entries)
  {
    hide RawsOf, RawIs, DataEnd, InfoSize, EntriesFit;
    var n := |entries| - 1;
    RawsFront(entries, infoBase);
    if i < n {
      RawsAt(entries[..n], infoBase, i);
      assert entries[..n][..i] == entries[..i];
      assert RawsOf(entries, infoBase)[i] == RawsOf(entries, infoBase)[..n][i];
    }
  }

  // ---- the strings -------------------------------------------------------------------------

  lemma {:induction false} UnitAt(s: seq<u16>, i: nat)
    requires i < |s|
    ensures Holds(Units(s), 2 * i, BE16(s[i]))
  {
    hide BE16;
    var n := |s| - 1;
    if i < n {
      UnitAt(s[..n], i);
      HoldsWithin(Units(s), 0, Units(s[..n]), 2 * i, BE16(s[i]));
    }
  }

  lemma UnitsReadBack(s: seq<u16>)
    ensures ToUnits(Units(s)) == s
  {
    hide Units, BE16, U16At;
    forall i | 0 <= i < |s| ensures U16At(Units(s), 2 * i) == s[i] {
      UnitAt(s, i);
      DecodeBE16(Units(s), 2 * i, s[i]);
    }
  }

  lemma StringReadBack(d: seq<byte>, offset: nat, s: seq<u16>)
    requires 0 in s && Holds(d, offset, Units(CString(s)))
    ensures StringIn(d, offset, 2 * |CString(s)|) == Success(CString(s))
  {
    hide Units, ToUnits, StrLen;
    UnitsReadBack(CString(s));
  }

  // ---- the handler infos ----------------------------------------------------------------------

  predicate NoExtraBefore(entries: seq<Entry>, n: int) {
    forall i :: 0 <= i < n && i < |entries| ==> entries[i].extra == []
  }

  lemma {:induction false} InfosLength(entries: seq<Entry>)
    requires NoExtraBefore(entries, |entries|)
    ensures |Infos(entries)| == InfoSize(entries)
  {
    if entries != [] {
      InfosLength(entries[..|entries| - 1]);
    }
  }

  /** The info of a part is where the writer's offset says, when only the last part has extra info. */
  lemma {:induction false} InfoHeld(d: seq<byte>, base: nat, entries: seq<Entry>, i: nat)
    requires i < |entries| && NoExtraBefore(entries, |entries| - 1) && Holds(d, base, Infos(entries))
    ensures Holds(d, base + InfoSize(entries[..i]), entries[i].info)
    ensures i == |entries| - 1 ==> Holds(d, base + InfoSize(entries[..i]) + |entries[i].info|, entries[i].extra)
    ensures i == |entries| - 1 ==>
              |Infos(entries)| == InfoSize(entries[..i]) + |entries[i].info| + |entries[i].extra|
  {
    hide Holds, InfoSize;
    var n := |entries| - 1;
    var front, e := entries[..n], entries[n];
    HoldsBoth(d, base, Infos(front) + e.info, e.extra);
    HoldsBoth(d, base, Infos(front), e.info);
    InfosLength(front);
    if i < n {
      InfoHeld(d, base, front, i);
      assert front[..i] == entries[..i];
    }
  }

  // ---- where the writer's info offsets are right -----------------------------------------------

  /** Where the info of a part is in the directory data. */
  function InfoPlace(p: PackageValue, i: nat): nat
    requires ValidStrings(p) && i <= |p.entries|
  {
    StringsSize(p) + |p.extra| + |Infos(p.entries[..i])|
  }

  lemma {:induction false} OffsetIs(entries: seq<Entry>, infoBase: nat, i: nat)
    requires i < |entries|
    ensures RawsOf(entries, infoBase)[i].infoOffset == Low16(infoBase + InfoSize(entries[..i]))
  {
    hide InfoSize, DataEnd, Low16, Low32;
    var n := |entries| - 1;
    if i < n {
      OffsetIs(entries[..n], infoBase, i);
      assert entries[..n][..i] == entries[..i];
    }
  }

  lemma {:induction false} InfoPlaced(d: seq<byte>, base: nat, entries: seq<Entry>, i: nat)
    requires i < |entries| && Holds(d, base, Infos(entries))
    ensures Holds(d, base + |Infos(entries[..i])|, entries[i].info)
  {
    hide Holds;
    var n := |entries| - 1;
    var front, e := entries[..n], entries[n];
    HoldsBoth(d, base, Infos(front) + e.info, e.extra);
    HoldsBoth(d, base, Infos(front), e.info);
    if i < n {
      InfoPlaced(d, base, front, i);
      assert front[..i] == entries[..i];
    }
  }

  lemma OffsetRight(offset: nat, place: nat)
    requires offset <= place
    ensures Low16(offset) == place <==> offset == place && offset < TWO_16
  {
  }

  /** The info of a part is where its entry says if and only if no extra info comes before it, neither of the package nor
      of another part, and the offset fits its field. */
  lemma InfoOffsetIff(p: PackageValue, i: nat)
    requires ValidStrings(p) && i < |p.entries|
    ensures Holds(DirectoryData(p), InfoPlace(p, i), p.entries[i].info)
    ensures RawsOf(p.entries, StringsSize(p))[i].infoOffset == InfoPlace(p, i)
       <==> p.extra == [] && NoExtraBefore(p.entries, i) && StringsSize(p) + InfoSize(p.entries[..i]) < TWO_16
  {
    hide Holds, CString, DirectoryData, Infos, RawsOf, InfoSize, Low16, UnpaddedDirectorySize, PaddingOf;
    DirectoryDataHeld(p);
    InfoPlaced(DirectoryData(p), StringsSize(p) + |p.extra|, p.entries, i);
    OffsetIs(p.entries, StringsSize(p), i);
    InfosAtLeast(p.entries[..i]);
    assert NoExtraBefore(p.entries[..i], i) <==> NoExtraBefore(p.entries, i);
    OffsetRight(StringsSize(p) + InfoSize(p.entries[..i]), InfoPlace(p, i));
  }

  /** What the directory data holds, and where. */
  predicate DirectoryHeld(d: seq<byte>, p: PackageValue)
    requires ValidStrings(p)
  {
    var c, n := Units(CString(p.copyright)), Units(CString(p.name));
    var base := |c| + |n|;
    && Holds(d, 0, c) && Holds(d, |c|, n)
    && Holds(d, base, p.extra)
    && Holds(d, base + |p.extra|, Infos(p.entries))
    && Holds(d, base + |p.extra| + |Infos(p.entries)|, PaddingOf(p))
    && |d| == base + |p.extra| + |Infos(p.entries)| + |PaddingOf(p)|
  }

  lemma DirectoryDataHeld(p: PackageValue)
    requires ValidStrings(p)
    ensures DirectoryHeld(DirectoryData(p), p)
  {
    hide Units, CString, Infos, Holds, UnpaddedDirectorySize, Pad4, Zeros;
    var c, n := Units(CString(p.copyright)), Units(CString(p.name));
    var d := DirectoryData(p);
    HoldsItself(d);
    HoldsBoth(d, 0, c + n + p.extra + Infos(p.entries), PaddingOf(p));
    HoldsBoth(d, 0, c + n + p.extra, Infos(p.entries));
    HoldsBoth(d, 0, c + n, p.extra);
    HoldsBoth(d, 0, c, n);
  }

  lemma TailHeld(d: seq<byte>, from: nat, tail: seq<byte>)
    requires Holds(d, from, tail) && |d| == from + |tail|
    ensures ExtraIn(d, from, |d|) == Success(tail)
  {
    assert d[from..|d|] == tail;
  }

  lemma InfoReadBack(d: seq<byte>, base: nat, entries: seq<Entry>, i: nat)
    requires i < |entries| && EntriesFit(entries, base) && base + InfoSize(entries) <= |d|
    ensures InfoIn(d, RawsOf(entries, base), i) == Success(InfoTaken(d, base, entries, i))
  {
    hide InfoSize, DataEnd, RawsOf, EntriesFit;
    RawsAt(entries, base, i);
    InfoSizeFront(entries, i);
    if i + 1 < |entries| {
      RawsAt(entries, base, i + 1);
      InfoSizeNext(entries, i);
    } else {
      var to := base + InfoSize(entries[..i]) + |entries[i].info|;
      assert d[to..] == d[to..|d|];
    }
  }

  lemma NothingBetween(d: seq<byte>, from: nat)
    ensures ExtraIn(d, from, from) == Success([])
  {
  }

  lemma InfoSizeNext(entries: seq<Entry>, i: nat)
    requires i < |entries|
    ensures InfoSize(entries[..i + 1]) == InfoSize(entries[..i]) + |entries[i].info|
  {
    assert entries[..i + 1][..i] == entries[..i];
  }

  lemma {:induction false} InfosReadBack(d: seq<byte>, base: nat, entries: seq<Entry>, k: nat)
    requires k <= |entries| && EntriesFit(entries, base) && base + InfoSize(entries) <= |d|
    ensures InfosIn(d, RawsOf(entries, base), k) == Success(InfosTaken(d, base, entries)[..k])
  {
    hide EntriesFit, InfoIn, RawsOf, InfoTaken, InfoSize;
    if k > 0 {
      InfosReadBack(d, base, entries, k - 1);
      InfoReadBack(d, base, entries, k - 1);
      var infos := InfosTaken(d, base, entries);
      assert infos[..k] == infos[..k - 1] + [infos[k - 1]];
    }
  }

  /** The directory data as read back. */
  function DirectoryOf(p: PackageValue): RawDirectory
    requires ValidStrings(p)
  {
    RawDirectory(CString(p.copyright), CString(p.name), if p.entries == [] then p.extra + PaddingOf(p) else [],
                 InfosRead(p))
  }

  lemma DirectoryReadBack(p: PackageValue, h: RawHeader)
    requires ValidStrings(p) && EntriesFit(p.entries, StringsSize(p))
    requires h.copyrightLength % 2 == 0 && h.nameLength % 2 == 0
    requires h.copyrightOffset == 0 && h.copyrightLength == 2 * |CString(p.copyright)|
    requires h.nameOffset == h.copyrightLength && h.nameLength == 2 * |CString(p.name)|
    ensures DirectoryIn(DirectoryData(p), h, RawsOf(p.entries, StringsSize(p)))
         == Success(DirectoryOf(p))
  {
    hide Units, CString, Infos, Holds, UnpaddedDirectorySize, PaddingOf, DirectoryData, InfosTaken, InfosIn, StringIn, ExtraIn,
         EntriesFit, RawsOf, DataEnd, InfoSize;
    var d, base := DirectoryData(p), StringsSize(p);
    var raws := RawsOf(p.entries, base);
    DirectoryDataHeld(p);
    StringReadBack(d, 0, p.copyright);
    StringReadBack(d, h.copyrightLength, p.name);
    InfosInside(p);
    InfosReadBack(d, base, p.entries, |p.entries|);
    assert InfosRead(p)[..|p.entries|] == InfosRead(p);
    if p.entries == [] {
      NoInfos();
      HoldsJoined(d, base, p.extra, PaddingOf(p));
      TailHeld(d, base, p.extra + PaddingOf(p));
    } else {
      RawsAt(p.entries, base, 0);
      NoInfos();
      assert p.entries[..0] == [];
      NothingBetween(d, base);
    }
  }

  lemma NoInfos()
    ensures Infos([]) == [] && InfoSize([]) == 0
  {
  }

  // ---- when the infos read back are those written -----------------------------------------------

  /** The infos and extra infos as written, with the padding. */
  function InfosOf(entries: seq<Entry>, padding: seq<byte>): (r: seq<(seq<byte>, seq<byte>)>)
    ensures |r| == |entries|
  {
    seq(|entries|, i requires 0 <= i < |entries| =>
          (entries[i].info, if i == |entries| - 1 then entries[i].extra + padding else entries[i].extra))
  }

  /** The directory data from the infos on: the infos, then the padding, then nothing. */
  predicate InfosHeld(d: seq<byte>, base: nat, entries: seq<Entry>, padding: seq<byte>) {
    && Holds(d, base, Infos(entries)) && Holds(d, base + |Infos(entries)|, padding)
    && |d| == base + |Infos(entries)| + |padding|
  }

  lemma {:induction false} InfoKept(d: seq<byte>, base: nat, entries: seq<Entry>, padding: seq<byte>, i: nat)
    requires i < |entries| && NoExtraBefore(entries, |entries| - 1) && base + InfoSize(entries) <= |d|
    requires InfosHeld(d, base, entries, padding)
    ensures InfoTaken(d, base, entries, i) == InfosOf(entries, padding)[i]
  {
    hide Infos, InfoSize, Holds;
    InfoSizeFront(entries, i);
    InfoHeld(d, base, entries, i);
    var from, to := base + InfoSize(entries[..i]), base + InfoSize(entries[..i]) + |entries[i].info|;
    SliceHeld(d, from, to, entries[i].info);
    if i == |entries| - 1 {
      assert to + |entries[i].extra| == base + |Infos(entries)|;
      HoldsJoined(d, to, entries[i].extra, padding);
      RestHeld(d, to, entries[i].extra + padding);
    }
  }

  lemma SliceHeld(d: seq<byte>, from: nat, to: nat, info: seq<byte>)
    requires Holds(d, from, info) && to == from + |info|
    ensures to <= |d| && d[from..to] == info
  {
  }

  lemma RestHeld(d: seq<byte>, from: nat, rest: seq<byte>)
    requires Holds(d, from, rest) && |d| == from + |rest|
    ensures d[from..] == rest
  {
  }

  /** What is read back is what was written, infos and extra infos, if and only if there was extra info only at the end. */
  lemma InfosKeptIff(p: PackageValue)
    requires ValidStrings(p)
    ensures InfosRead(p) == InfosOf(p.entries, PaddingOf(p)) <==> ExtraAtEnd(p)
  {
    hide Holds, CString, Infos, InfoSize, UnpaddedDirectorySize, PaddingOf, DirectoryData, Units, InfoTaken;
    InfosInside(p);
    DirectoryDataHeld(p);
    var d, base, n := DirectoryData(p), StringsSize(p), |p.entries|;
    if ExtraAtEnd(p) {
      forall i | 0 <= i < n ensures InfosRead(p)[i] == InfosOf(p.entries, PaddingOf(p))[i] {
        InfoKept(d, base, p.entries, PaddingOf(p), i);
      }
    } else if InfosRead(p) == InfosOf(p.entries, PaddingOf(p)) {
      forall i | 0 <= i < n - 1 ensures p.entries[i].extra == [] {
        NoneBetween(d, base, p.entries, i);
        assert InfosRead(p)[i].1 == p.entries[i].extra;
      }
      assert InfosRead(p)[n - 1].1 == p.entries[n - 1].extra + PaddingOf(p);
      LastTaken(d, base, p.entries);
    }
  }

  lemma NoneBetween(d: seq<byte>, base: nat, entries: seq<Entry>, i: nat)
    requires i < |entries| - 1 && base + InfoSize(entries) <= |d|
    ensures InfoTaken(d, base, entries, i).1 == []
  {
  }

  lemma LastTaken(d: seq<byte>, base: nat, entries: seq<Entry>)
    requires entries != [] && base + InfoSize(entries) <= |d| && NoExtraBefore(entries, |entries| - 1)
    ensures |InfoTaken(d, base, entries, |entries| - 1).1| == |d| - base - InfoSize(entries)
    ensures |Infos(entries)| == InfoSize(entries) + |entries[|entries| - 1].extra|
  {
    var n := |entries| - 1;
    InfoSizeFront(entries, n);
    InfosLength(entries[..n]);
  }

  // ---- the relocation area ------------------------------------------------------------------

  predicate TableHeaderAt(s: seq<byte>, pos: nat, size: u32, numSets: u32) {
    && LongAt(s, pos) == Got(0, pos + 4) && LongAt(s, pos + 4) == Got(size, pos + 8)
    && LongAt(s, pos + 8) == Got(PAGE_SIZE, pos + 12) && LongAt(s, pos + 12) == Got(numSets, pos + 16)
    && LongAt(s, pos + 16) == Got(0, pos + 20)
  }

  lemma TableHeaderReadBack(s: seq<byte>, pos: nat, size: u32, numSets: u32)
    requires Holds(s, pos, BE32(0) + BE32(size) + BE32(PAGE_SIZE) + BE32(numSets) + BE32(0))
    ensures TableHeaderAt(s, pos, size, numSets)
  {
    hide Holds, BE32, LongAt;
    HoldsBoth(s, pos, BE32(0) + BE32(size) + BE32(PAGE_SIZE) + BE32(numSets), BE32(0));
    HoldsBoth(s, pos, BE32(0) + BE32(size) + BE32(PAGE_SIZE), BE32(numSets));
    HoldsBoth(s, pos, BE32(0) + BE32(size), BE32(PAGE_SIZE));
    HoldsBoth(s, pos, BE32(0), BE32(size));
    LongReadBack(s, pos, 0);
    LongReadBack(s, pos + 4, size);
    LongReadBack(s, pos + 8, PAGE_SIZE);
    LongReadBack(s, pos + 12, numSets);
    LongReadBack(s, pos + 16, 0);
  }

  /** The sets, and after them what fills the reserved space. */
  predicate TableBodyAt(s: seq<byte>, from: nat, at: nat, sets: seq<RelocSet>, rest: seq<byte>) {
    SetsAt(s, from, |sets|) == Got(sets, at) && BytesAt(s, at, |rest|) == Got(rest, at + |rest|)
  }

  lemma TableBodyReadBack(s: seq<byte>, from: nat, at: nat, sets: seq<RelocSet>, rest: seq<byte>)
    requires at == from + TableSize(sets) && forall x <- sets :: |x.offsets| <= 256
    requires Holds(s, from, PaddedBytes(sets) + rest)
    ensures TableBodyAt(s, from, at, sets, rest)
  {
    hide Holds, SetsAt, BytesAt, PaddedBytes, TableSize;
    HoldsBoth(s, from, PaddedBytes(sets), rest);
    SetsReadBack(sets, s, from);
    BytesHeld(s, at, rest);
  }

  lemma TableReadBack(s: seq<byte>, pos: nat, from: nat, at: nat, size: u32, sets: seq<RelocSet>, rest: seq<byte>)
    requires |sets| < TWO_32 && TableHeaderAt(s, pos, size, |sets|)
    requires TableBodyAt(s, from, at, sets, rest) && from == pos + 20 <= at && at + |rest| == pos + size
    ensures RelocationsAt(s, pos) == Got(RawRelocations(size, 0, sets), pos + size)
  {
    hide LongAt, SetsAt, BytesAt;
  }

  lemma {:induction false} AreaSplit(size: u32, reserved: nat, sets: seq<RelocSet>, rest: seq<byte>)
    requires TableSize(sets) <= reserved && |sets| < TWO_32 && rest == Zeros(reserved - TableSize(sets))
    ensures FilledArea(size, reserved, sets)
         == BE32(0) + BE32(size) + BE32(PAGE_SIZE) + BE32(|sets|) + BE32(0) + (PaddedBytes(sets) + rest)
  {
    hide BE32, PaddedBytes, Zeros, TableSize;
    Low32Exact(|sets|);
  }

  lemma {:induction false} RelocationsReadBack(s: seq<byte>, pos: nat, size: u32, reserved: nat, sets: seq<RelocSet>)
    requires TableSize(sets) <= reserved && size == TABLE_HEADER_SIZE + reserved
    requires |sets| < TWO_32 && forall x <- sets :: |x.offsets| <= 256
    requires Holds(s, pos, FilledArea(size, reserved, sets))
    ensures RelocationsAt(s, pos) == Got(RawRelocations(size, 0, sets), pos + size)
  {
    hide Holds, BE32, TableHeaderAt, TableBodyAt, PaddedBytes, Zeros, TableSize, RelocationsAt, FilledArea;
    var rest := Zeros(reserved - TableSize(sets));
    AreaSplit(size, reserved, sets, rest);
    HoldsBoth(s, pos, BE32(0) + BE32(size) + BE32(PAGE_SIZE) + BE32(|sets|) + BE32(0), PaddedBytes(sets) + rest);
    TableHeaderReadBack(s, pos, size, |sets|);
    var from := pos + 20;
    var at := from + TableSize(sets);
    TableBodyReadBack(s, from, at, sets, rest);
    TableReadBack(s, pos, from, at, size, sets, rest);
  }

  /** A header that declares no size, as a flagged package without relocations has: the reader takes the header and goes
      on behind it. */
  lemma {:induction false} EmptyTableReadBack(s: seq<byte>, pos: nat)
    requires Holds(s, pos, FilledArea(0, 0, []))
    ensures RelocationsAt(s, pos) == Got(RawRelocations(0, 0, []), pos + TABLE_HEADER_SIZE)
  {
    hide Holds, BE32, LongAt, FilledArea;
    NoSetBytes();
    AreaSplit(0, 0, [], []);
    assert FilledArea(0, 0, []) == BE32(0) + BE32(0) + BE32(PAGE_SIZE) + BE32(0) + BE32(0);
    TableHeaderReadBack(s, pos, 0, 0);
    assert s[pos + 20..pos + 20] == [] by { HoldsInside(s, pos, FilledArea(0, 0, [])); }
  }

  lemma NoSetBytes()
    ensures TableSize([]) == 0 && PaddedBytes([]) == [] && Zeros(0) == []
  {
  }

  lemma HoldsInside(s: seq<byte>, pos: nat, d: seq<byte>)
    requires Holds(s, pos, d)
    ensures pos + |d| <= |s|
  {
  }

  // ---- each part gets its own relocations -----------------------------------------------------

  lemma FirstIn(a: seq<u32>, b: seq<u32>, start: nat)
    ensures FirstAtLeast(a, start) < |a| ==> FirstAtLeast(a + b, start) == FirstAtLeast(a, start)
    ensures FirstAtLeast(a, start) == |a| ==> FirstAtLeast(a + b, start) >= |a|
  {
    forall k | 0 <= k < |a| ensures (a + b)[k] == a[k] {
    }
  }

  lemma SliceIgnoresLater(a: seq<u32>, b: seq<u32>, start: nat, end: nat)
    requires start <= end && forall x <- b :: end <= x
    ensures SliceFor(a + b, start, end) == SliceFor(a, start, end)
  {
    CountAfterFirst(a, start, end);
    CountAfterFirst(a + b, start, end);
    CountAppend(a, b, start, end);
    forall k | 0 <= k < |b| ensures !(start <= b[k] < end) {
      assert b[k] in b;
    }
    CountNone(b, start, end);
    FirstIn(a, b, start);
    if FirstAtLeast(a, start) == |a| {
      CountNone(a, start, end);
    }
  }

  lemma {:induction false} CountAll(b: seq<u32>, start: nat, end: nat)
    requires forall x <- b :: start <= x < end
    ensures CountWithin(b, start, end) == |b|
  {
    if b != [] {
      var n := |b| - 1;
      assert b[n] in b && forall x <- b[..n] :: x in b;
      CountAll(b[..n], start, end);
    }
  }

  lemma SliceIsLast(a: seq<u32>, b: seq<u32>, start: nat, end: nat)
    requires forall x <- a :: x < start
    requires forall x <- b :: start <= x < end
    ensures SliceFor(a + b, start, end) == b
  {
    CountAfterFirst(a + b, start, end);
    CountAppend(a, b, start, end);
    forall k | 0 <= k < |a| ensures a[k] < start {
      assert a[k] in a;
    }
    CountNone(a, start, end);
    CountAll(b, start, end);
    FirstIn(a, b, start);
    if b != [] {
      assert b[0] in b && (a + b)[|a|] == b[0];
    }
  }

  predicate SliceIs(all: seq<u32>, start: nat, part: Part) {
    SliceFor(all, start, start + |part.data|) == Shift(part.relocations, start)
  }

  lemma SliceBefore(all: seq<u32>, start: nat, part: Part, later: seq<u32>, last: nat)
    requires SliceIs(all, start, part) && start + |part.data| <= last && forall x <- later :: last <= x
    ensures SliceIs(all + later, start, part)
  {
    hide SliceFor, Shift;
    SliceIgnoresLater(all, later, start, start + |part.data|);
  }

  lemma SliceLast(all: seq<u32>, start: nat, part: Part)
    requires PartRelocated(part, start) && start % 4 == 0 && Listed(all, start)
    ensures SliceIs(all + Shift(part.relocations, start), start, part)
  {
    hide SliceFor, Shift, PartRelocated;
    ShiftListed(part, start);
    SliceIsLast(all, Shift(part.relocations, start), start, start + |part.data|);
  }

  /** The reader's scan gives a part the addresses the writer made of that part's relocations. */
  lemma {:induction false} SliceForPart(entries: seq<Entry>, dataStart: nat, i: nat)
    requires WellRelocated(entries, dataStart) && dataStart % 4 == 0 && i < |entries|
    ensures SliceIs(AllRelocations(entries, dataStart), dataStart + DataEnd(entries[..i]), entries[i].part)
    ensures DataEnd(entries[..i]) + |entries[i].part.data| <= DataEnd(entries)
  {
    hide SliceIs, Shift, PartRelocated, WellRelocated, Sets, Pad4, Listed, DataEnd;
    var n := |entries| - 1;
    var front, part := entries[..n], entries[n].part;
    var last := dataStart + DataEnd(front);
    WellRelocatedFront(entries, dataStart);
    DataEndLast(entries);
    if i < n {
      assert front[..i] == entries[..i];
      SliceForPart(front, dataStart, i);
      ShiftListed(part, last);
      SliceBefore(AllRelocations(front, dataStart), dataStart + DataEnd(entries[..i]), entries[i].part,
                  Shift(part.relocations, last), last);
    } else {
      AllRelocationsListed(front, dataStart);
      SliceLast(AllRelocations(front, dataStart), last, part);
    }
  }

  lemma ShiftBack(relocations: seq<u32>, start: nat)
    requires start < TWO_32
    ensures FromOrigin(Shift(relocations, start), start) == relocations
  {
    var back := FromOrigin(Shift(relocations, start), start);
    forall i | 0 <= i < |relocations| ensures back[i] == relocations[i] {
      WrapBack(relocations[i], start);
    }
  }

  lemma WrapBack(x: u32, start: nat)
    requires start < TWO_32
    ensures Low32(Low32(x + start) as int - start) == x
  {
  }

  // ---- the parts ------------------------------------------------------------------------------

  lemma {:induction false} BodyHeld(entries: seq<Entry>, i: nat)
    requires i < |entries|
    ensures Holds(Bodies(entries), DataEnd(entries[..i]), entries[i].part.data)
  {
    hide Holds, DataEnd, Zeros, Pad4;
    var n := |entries| - 1;
    var front, part := entries[..n], entries[n].part;
    var d := Bodies(entries);
    HoldsItself(d);
    HoldsBoth(d, 0, Bodies(front) + part.data, Zeros(Pad4(|part.data|)));
    HoldsBoth(d, 0, Bodies(front), part.data);
    if i < n {
      BodyHeld(front, i);
      assert front[..i] == entries[..i];
      HoldsWithin(d, 0, Bodies(front), DataEnd(entries[..i]), entries[i].part.data);
    }
  }

  /** Everything the reader uses to make the part of an entry. */
  predicate PartHeld(data: seq<byte>, raw: RawEntry, at: Placement, part: Part, start: nat) {
    && raw.size == |part.data| && start == at.dataStart + raw.offset && start < TWO_32
    && Holds(data, raw.offset, part.data)
    && SliceIs(at.addresses, start, part)
    && (IsNOSPart(raw.flags) ==> part.relocations == [])
  }

  lemma PartReadBack(data: seq<byte>, raw: RawEntry, at: Placement, part: Part, start: nat)
    requires PartHeld(data, raw, at, part, start)
    ensures PartIn(data, raw, at)
         == Success(RereadPart(part, Low32(start + at.packageOffset), Low32(at.base as nat + at.dataStart as nat)))
  {
    hide SliceFor, FromOrigin, Shift, IsNOSPart, Low32;
    Low32Exact(start);
    ShiftBack(part.relocations, start);
    EmptyFromOrigin(start);
  }

  lemma EmptyFromOrigin(start: nat)
    ensures forall relocations: seq<u32> :: |Shift(relocations, start)| == |relocations|
  {
  }

  /** The package's part data and relocations, as the reader has them when it makes the parts. */
  predicate PartsHeld(data: seq<byte>, entries: seq<Entry>, infoBase: nat, at: Placement) {
    && data == Bodies(entries) && EntriesFit(entries, infoBase) && PlainNOS(entries)
    && at.dataStart % 4 == 0 && WellRelocated(entries, at.dataStart)
    && at.addresses == AllRelocations(entries, at.dataStart)
    && at.dataStart + DataEnd(entries) < TWO_32
  }

  lemma PartAtHeld(data: seq<byte>, entries: seq<Entry>, infoBase: nat, at: Placement, i: nat)
    requires PartsHeld(data, entries, infoBase, at) && i < |entries|
    ensures PartHeld(data, RawsOf(entries, infoBase)[i], at, entries[i].part, at.dataStart + DataEnd(entries[..i]))
  {
    hide Holds, Bodies, DataEnd, InfoSize, WellRelocated, AllRelocations, SliceIs, IsNOSPart, RawsOf, EntriesFit;
    RawsAt(entries, infoBase, i);
    BodyHeld(entries, i);
    SliceForPart(entries, at.dataStart, i);
  }

  function RereadParts(entries: seq<Entry>, load: u32, dataStart: u32, base: u32): (r: seq<Part>)
    ensures |r| == |entries|
  {
    seq(|entries|, i requires 0 <= i < |entries| =>
          RereadPart(entries[i].part, PlaceOf(entries, load, dataStart, i), base))
  }

  lemma PartOfEntry(data: seq<byte>, entries: seq<Entry>, infoBase: nat, at: Placement, i: nat)
    requires PartsHeld(data, entries, infoBase, at) && i < |entries| && at.base == 0
    ensures PartIn(data, RawsOf(entries, infoBase)[i], at)
         == Success(RereadParts(entries, at.packageOffset, at.dataStart, at.dataStart)[i])
  {
    hide PartsHeld, PartHeld, PartIn, DataEnd, RawsOf, RereadPart, Low32;
    var start := at.dataStart + DataEnd(entries[..i]);
    PartAtHeld(data, entries, infoBase, at, i);
    PartReadBack(data, RawsOf(entries, infoBase)[i], at, entries[i].part, start);
    Low32Exact(at.dataStart);
    assert start + at.packageOffset == at.packageOffset + at.dataStart + DataEnd(entries[..i]);
  }

  lemma {:induction false} PartsReadBack(data: seq<byte>, entries: seq<Entry>, infoBase: nat, at: Placement, k: nat)
    requires PartsHeld(data, entries, infoBase, at) && k <= |entries| && at.base == 0
    ensures PartsIn(data, RawsOf(entries, infoBase)[..k], at)
         == Success(RereadParts(entries, at.packageOffset, at.dataStart, at.dataStart)[..k])
  {
    hide PartsHeld, PartIn, RawsOf, RereadParts;
    var raws, parts := RawsOf(entries, infoBase), RereadParts(entries, at.packageOffset, at.dataStart, at.dataStart);
    if k > 0 {
      PartsReadBack(data, entries, infoBase, at, k - 1);
      PartOfEntry(data, entries, infoBase, at, k - 1);
      assert raws[..k][..k - 1] == raws[..k - 1] && parts[..k] == parts[..k - 1] + [parts[k - 1]];
    }
  }
}
