/** Writing, reading and writing again at the same load address writes the same bytes. */
module PackageFixedPoint {
  import opened Bytes
  import opened Sequences
  import opened RelocTable
  import opened PkgParts
  import opened PackageImage
  import opened PackageTable
  import opened PackageParse
  import opened PackageReadBack
  import opened PackageRoundTrip
  import opened MemStreams

  // ---- the same layout --------------------------------------------------------------------------

  lemma {:induction false} StrLenIs(s: seq<u16>, n: nat)
    requires n < |s| && s[n] == 0 && 0 !in s[..n]
    ensures StrLen(s) == n
  {
    if n > 0 {
      assert s[0] == s[..n][0] && s[1..][..n - 1] == s[1..n];
      assert forall x <- s[1..n] :: x in s[..n];
      StrLenIs(s[1..], n - 1);
    }
  }

  lemma CStringAgain(s: seq<u16>)
    requires 0 in s
    ensures 0 in CString(s) && CString(CString(s)) == CString(s)
  {
    var n := StrLen(s);
    var c := CString(s);
    assert c[n] == 0 && c[..n] == s[..n];
    StrLenIs(c, n);
  }

  lemma RereadAlike(p: PackageValue, load: u32)
    requires ValidStrings(p) && AccessibleParts(p.entries)
    ensures Alike(Reread(p, load).entries, p.entries)
    ensures Alike(Reread(p, load).entries, Placed(p.entries, load, DataStart(p)))
  {
    hide PlaceOf, DataStart, CString, InfosTaken, EffectiveFlags, EffectiveNos1, StringsSize, DirectoryData, InfoSize, PaddingOf;
    InfosInside(p);
    forall i | 0 <= i < |p.entries| ensures |InfosRead(p)[i].0| == |p.entries[i].info| {
      TakenLengths(DirectoryData(p), StringsSize(p), p.entries, i);
    }
  }

  lemma FlagsAgain(p: PackageValue, q: PackageValue)
    requires q.flags == EffectiveFlags(p) && q.nos1 == EffectiveNos1(p)
    requires PageCount(q.entries) == PageCount(p.entries)
    ensures EffectiveFlags(q) == EffectiveFlags(p) && EffectiveNos1(q) == EffectiveNos1(p)
  {
    hide PageCount;
    if !HasRelocationFlag(p.flags) {
      FlagAdded(p.flags);
    }
  }

  /** Entries that have their infos, of the same sizes as others, from consecutive slices of d, the last one with all
      that follows as extra info. */
  predicate Sliced(a: seq<Entry>, b: seq<Entry>, d: seq<byte>, base: nat) {
    && |a| == |b| && base + InfoSize(b) <= |d|
    && forall i :: 0 <= i < |a| ==> (a[i].info, a[i].extra) == InfosTaken(d, base, b)[i]
  }

  lemma TakenLengths(d: seq<byte>, base: nat, b: seq<Entry>, i: nat)
    requires i < |b| && base + InfoSize(b) <= |d|
    ensures |InfosTaken(d, base, b)[i].0| == |b[i].info|
    ensures i < |b| - 1 ==> InfosTaken(d, base, b)[i].1 == []
  {
    hide InfoSize;
    InfoSizeFront(b, i);
  }

  /** Together they are that part of d. */
  lemma {:induction false} SlicesJoined(a: seq<Entry>, b: seq<Entry>, d: seq<byte>, base: nat, k: nat)
    requires Sliced(a, b, d, base) && k < |a| == |b|
    ensures base + InfoSize(b[..k]) <= |d| && Infos(a[..k]) == d[base..base + InfoSize(b[..k])]
  {
    hide InfosTaken, Sliced;
    if k > 0 {
      SlicesJoined(a, b, d, base, k - 1);
      SliceNext(a, b, d, base, k - 1);
      assert a[..k][..k - 1] == a[..k - 1] && b[..k][..k - 1] == b[..k - 1];
    } else {
      NoInfos();
      SlicedInside(a, b, d, base);
      assert a[..0] == [] && b[..0] == [] && d[base..base] == [];
    }
  }

  lemma SlicedInside(a: seq<Entry>, b: seq<Entry>, d: seq<byte>, base: nat)
    requires Sliced(a, b, d, base)
    ensures base <= |d|
  {
  }

  lemma SliceNext(a: seq<Entry>, b: seq<Entry>, d: seq<byte>, base: nat, i: nat)
    requires Sliced(a, b, d, base) && i < |a| - 1 && base + InfoSize(b[..i]) <= |d|
    ensures base + InfoSize(b[..i]) + |b[i].info| <= |d|
    ensures d[base..base + InfoSize(b[..i])] + a[i].info + a[i].extra == d[base..base + InfoSize(b[..i]) + |b[i].info|]
    ensures InfoSize(b[..i + 1]) == InfoSize(b[..i]) + |b[i].info|
  {
    hide InfoSize;
    InfoSizeFront(b, i);
    InfoSizeNext(b, i);
    assert (a[i].info, a[i].extra) == InfosTaken(d, base, b)[i] == InfoTaken(d, base, b, i);
  }

  lemma AllSlicesJoined(a: seq<Entry>, b: seq<Entry>, d: seq<byte>, base: nat)
    requires Sliced(a, b, d, base) && a != []
    ensures Infos(a) == d[base..]
  {
    var n := |a| - 1;
    SlicesJoined(a, b, d, base, n);
    InfoSizeFront(b, n);
    LastSlice(a, b, d, base);
  }

  lemma LastSlice(a: seq<Entry>, b: seq<Entry>, d: seq<byte>, base: nat)
    requires Sliced(a, b, d, base) && a != [] && base + InfoSize(b[..|a| - 1]) <= |d|
    ensures d[base..base + InfoSize(b[..|a| - 1])] + a[|a| - 1].info + a[|a| - 1].extra == d[base..]
  {
    hide InfoSize;
    var i := |a| - 1;
    InfoSizeFront(b, i);
    assert (a[i].info, a[i].extra) == InfosTaken(d, base, b)[i] == InfoTaken(d, base, b, i);
  }

  lemma RereadSliced(p: PackageValue, load: u32)
    requires ValidStrings(p) && AccessibleParts(p.entries)
    ensures Sliced(Reread(p, load).entries, p.entries, DirectoryData(p), StringsSize(p))
  {
    hide PlaceOf, DataStart, CString, PaddingOf, EffectiveFlags, EffectiveNos1, Infos, InfosTaken, DirectoryData, InfoSize;
    InfosInside(p);
  }

  lemma DataFromInfos(p: PackageValue)
    requires ValidStrings(p)
    ensures StringsSize(p) <= |DirectoryData(p)|
    ensures DirectoryData(p)[StringsSize(p)..] == p.extra + Infos(p.entries) + PaddingOf(p)
  {
    hide CString, Infos, PaddingOf, DirectoryData;
    var u := Units(CString(p.copyright)) + Units(CString(p.name));
    PaddedData(p, u);
    assert |u| == StringsSize(p);
  }

  /** All that the directory data has behind the strings is read back as infos and extra info. */
  lemma RereadExtra(p: PackageValue, load: u32)
    requires ValidStrings(p) && AccessibleParts(p.entries)
    ensures Reread(p, load).extra + Infos(Reread(p, load).entries) == p.extra + Infos(p.entries) + PaddingOf(p)
    ensures ExtraAtEnd(Reread(p, load))
  {
    hide Reread, PlaceOf, DataStart, CString, PaddingOf, EffectiveFlags, EffectiveNos1, Infos, InfosTaken, DirectoryData,
         StringsSize, InfoSize;
    var q := Reread(p, load);
    RereadSliced(p, load);
    DataFromInfos(p);
    RereadPackageExtra(p, load);
    if p.entries == [] {
      NoInfos();
      assert p.extra + [] + PaddingOf(p) == p.extra + PaddingOf(p);
    } else {
      AllSlicesJoined(q.entries, p.entries, DirectoryData(p), StringsSize(p));
      forall i | 0 <= i < |q.entries| - 1 ensures q.entries[i].extra == [] {
        TakenLengths(DirectoryData(p), StringsSize(p), p.entries, i);
      }
    }
  }

  lemma RereadPackageExtra(p: PackageValue, load: u32)
    requires ValidStrings(p) && AccessibleParts(p.entries)
    ensures |Reread(p, load).entries| == |p.entries|
    ensures Reread(p, load).extra == if p.entries == [] then p.extra + PaddingOf(p) else []
  {
    hide PlaceOf, DataStart, CString, PaddingOf, EffectiveFlags, EffectiveNos1;
  }

  /** What reading back does not change, apart from the parts themselves. */
  predicate SameFields(q: PackageValue, p: PackageValue)
    requires ValidStrings(p)
  {
    && q.id == p.id && q.version == p.version && q.date == p.date
    && q.flags == EffectiveFlags(p) && q.nos1 == EffectiveNos1(p)
    && q.copyright == CString(p.copyright) && q.name == CString(p.name)
    && q.extra + Infos(q.entries) == p.extra + Infos(p.entries) + PaddingOf(p)
    && Alike(q.entries, p.entries) && ExtraAtEnd(q)
  }

  lemma RereadFields(p: PackageValue, load: u32)
    requires ValidStrings(p) && AccessibleParts(p.entries)
    ensures SameFields(Reread(p, load), p)
  {
    hide Infos, CString, PaddingOf, EffectiveFlags, EffectiveNos1, Alike, Placed, RereadEntries, ExtraAtEnd;
    RereadAlike(p, load);
    RereadExtra(p, load);
  }

  lemma StringsAgain(q: PackageValue, p: PackageValue)
    requires ValidStrings(p) && SameFields(q, p)
    ensures ValidStrings(q) && CString(q.copyright) == CString(p.copyright) && CString(q.name) == CString(p.name)
  {
    hide CString, PaddingOf, EffectiveFlags, EffectiveNos1, Alike, Infos, ExtraAtEnd;
    CStringAgain(p.copyright);
    CStringAgain(p.name);
  }

  lemma UnpaddedAgain(q: PackageValue, p: PackageValue)
    requires ValidStrings(p) && SameFields(q, p)
    ensures ValidStrings(q) && UnpaddedDirectorySize(q) == DirectorySize(p) && |q.entries| == |p.entries|
    ensures StringsSize(q) == StringsSize(p)
  {
    hide CString, EffectiveFlags, EffectiveNos1, Infos, ExtraAtEnd, Pad4, PaddingOf;
    StringsAgain(q, p);
    PaddingLength(p);
    assert |q.extra + Infos(q.entries)| == |p.extra + Infos(p.entries) + PaddingOf(p)|;
  }

  lemma SizesAgain(q: PackageValue, p: PackageValue)
    requires ValidStrings(p) && SameFields(q, p)
    ensures ValidStrings(q) && UnpaddedDirectorySize(q) == DirectorySize(p) == DirectorySize(q)
    ensures DataStart(q) == DataStart(p) && StringsSize(q) == StringsSize(p) && GlobalSize(q) == GlobalSize(p)
  {
    hide SameFields, UnpaddedDirectorySize, StringsSize, DataEnd, RelocationSize, ValidStrings, DirectorySize, InfoSize,
         EntriesBytes, AllRelocations, PageCount, RelocationCount, Alike;
    UnpaddedAgain(q, p);
    PaddedTwice(q, p);
    EntriesAlike(q, p);
    AlikeSame(q.entries, p.entries, 0, 0);
    ReservedAgain(q.entries, p.entries);
  }

  lemma EntriesAlike(q: PackageValue, p: PackageValue)
    requires ValidStrings(p) && SameFields(q, p)
    ensures Alike(q.entries, p.entries)
  {
    hide CString, PaddingOf, EffectiveFlags, EffectiveNos1, Infos, ExtraAtEnd, Alike;
  }

  lemma PaddedTwice(q: PackageValue, p: PackageValue)
    requires ValidStrings(q) && ValidStrings(p) && UnpaddedDirectorySize(q) == DirectorySize(p)
    ensures DirectorySize(q) == DirectorySize(p)
  {
    hide UnpaddedDirectorySize;
  }

  lemma ReservedAgain(a: seq<Entry>, b: seq<Entry>)
    requires PageCount(a) == PageCount(b) && RelocationCount(a) == RelocationCount(b)
    ensures RelocationSize(a) == RelocationSize(b)
  {
    hide PageCount, RelocationCount, SetMax;
  }

  lemma PaddingLength(p: PackageValue)
    requires ValidStrings(p)
    ensures |PaddingOf(p)| == Pad4(UnpaddedDirectorySize(p))
  {
  }

  lemma DataAgain(q: PackageValue, p: PackageValue)
    requires ValidStrings(p) && SameFields(q, p)
    ensures ValidStrings(q) && DirectoryData(q) == DirectoryData(p)
  {
    StringsAgain(q, p);
    SizesAgain(q, p);
    var u := Units(CString(p.copyright)) + Units(CString(p.name));
    PaddedData(p, u);
    NoPadding(q, u);
    AppendAssoc(u, p.extra + Infos(p.entries), PaddingOf(p));
    hide *;
  }

  lemma PaddedData(p: PackageValue, u: seq<byte>)
    requires ValidStrings(p) && u == Units(CString(p.copyright)) + Units(CString(p.name))
    ensures DirectoryData(p) == u + (p.extra + Infos(p.entries) + PaddingOf(p))
  {
    hide Units, CString, Infos, UnpaddedDirectorySize, Zeros, Pad4;
    AppendAssoc(u, p.extra, Infos(p.entries));
    AppendAssoc(u, p.extra + Infos(p.entries), PaddingOf(p));
  }

  lemma NoPadding(q: PackageValue, u: seq<byte>)
    requires ValidStrings(q) && u == Units(CString(q.copyright)) + Units(CString(q.name))
    requires UnpaddedDirectorySize(q) % 4 == 0
    ensures DirectoryData(q) == u + (q.extra + Infos(q.entries))
  {
    hide Units, CString, Infos, UnpaddedDirectorySize;
    AppendAssoc(u, q.extra, Infos(q.entries));
  }

  lemma HeaderAgain(q: PackageValue, p: PackageValue)
    requires ValidStrings(p) && SameFields(q, p)
    ensures ValidStrings(q) && Header(q) == Header(p)
  {
    hide CString, PaddingOf, EffectiveFlags, EffectiveNos1, Infos, ExtraAtEnd, HeaderBytes, GlobalSize, DirectorySize,
         ValidStrings, Low16, Low32;
    StringsAgain(q, p);
    SizesAgain(q, p);
    AlikeSame(q.entries, p.entries, 0, 0);
    FlagsAgain(p, q);
  }

  lemma DirectoryAgain(q: PackageValue, p: PackageValue)
    requires ValidStrings(p) && SameFields(q, p)
    ensures ValidStrings(q) && Directory(q) == Directory(p)
  {
    HeaderAgain(q, p);
    DataAgain(q, p);
    SizesAgain(q, p);
    AlikeSame(q.entries, p.entries, 0, StringsSize(p));
    hide SameFields, Header, EntriesBytes, DirectoryData, StringsSize, ValidStrings;
  }

  lemma TableAgain(q: PackageValue, p: PackageValue)
    requires ValidStrings(p) && SameFields(q, p) && WellRelocated(p.entries, DataStart(p))
    ensures ValidStrings(q) && WellRelocated(q.entries, DataStart(q)) && TableArea(q) == TableArea(p)
  {
    hide SameFields, HasRelocationFlag, EffectiveFlags, EffectiveNos1, PageCount, RelocationCount, FilledArea, Sets,
         AllRelocations, DataStart, ValidStrings, WellRelocated, Low32, Alike, DataEnd, InfoSize, EntriesBytes,
         ReservedForSets, RelocationSize;
    SizesAgain(q, p);
    EntriesAlike(q, p);
    AlikeSame(q.entries, p.entries, DataStart(p), 0);
    AreaAgain(q, p);
    SameFlags(q, p);
    FlagsAgain(p, q);
    WellRelocatedSame(q.entries, p.entries, DataStart(p));
  }

  lemma AreaAgain(q: PackageValue, p: PackageValue)
    requires PageCount(q.entries) == PageCount(p.entries) && RelocationCount(q.entries) == RelocationCount(p.entries)
    ensures ReservedForSets(q.entries) == ReservedForSets(p.entries)
    ensures RelocationSize(q.entries) == RelocationSize(p.entries)
  {
    hide PageCount, RelocationCount, SetMax;
  }

  lemma SameFlags(q: PackageValue, p: PackageValue)
    requires ValidStrings(p) && SameFields(q, p)
    ensures q.flags == EffectiveFlags(p) && q.nos1 == EffectiveNos1(p)
  {
    hide CString, PaddingOf, EffectiveFlags, EffectiveNos1, Infos, ExtraAtEnd, Alike;
  }

  // ---- the parts are already in place ---------------------------------------------------------------

  /** Parts that were last encoded for where they are going. */
  predicate InPlace(entries: seq<Entry>, load: u32, dataStart: nat) {
    forall i :: 0 <= i < |entries| ==> entries[i].part.offset == PlaceOf(entries, load, dataStart, i)
  }

  /** Laying out parts that are in place changes none of them. */
  lemma PlacedInPlace(entries: seq<Entry>, load: u32, dataStart: nat)
    requires AccessibleParts(entries) && InPlace(entries, load, dataStart)
    ensures Placed(entries, load, dataStart) == entries
  {
    hide PlaceOf, Relocated, Accessible;
  }

  lemma {:induction false} BodiesSame(a: seq<Entry>, b: seq<Entry>)
    requires |a| == |b| && forall i :: 0 <= i < |a| ==> a[i].part.data == b[i].part.data
    ensures Bodies(a) == Bodies(b)
  {
    hide Zeros, Pad4;
    if a != [] {
      BodiesSame(a[..|a| - 1], b[..|b| - 1]);
    }
  }

  lemma RereadPartIs(p: PackageValue, load: u32, i: nat)
    requires ValidStrings(p) && AccessibleParts(p.entries) && i < |p.entries|
    ensures |Reread(p, load).entries| == |p.entries|
    ensures Reread(p, load).entries[i].part
         == RereadPart(Placed(p.entries, load, DataStart(p))[i].part,
                       PlaceOf(Placed(p.entries, load, DataStart(p)), load, DataStart(p), i), Low32(DataStart(p)))
  {
    hide Placed, CString, PaddingOf, EffectiveFlags, EffectiveNos1, DataStart, PlaceOf, Low32, RereadPart;
  }

  lemma PlaceAlike(a: seq<Entry>, b: seq<Entry>, load: u32, dataStart: nat, i: nat)
    requires Alike(a, b) && i < |a|
    ensures PlaceOf(a, load, dataStart, i) == PlaceOf(b, load, dataStart, i)
  {
    AlikeSame(a[..i], b[..i], 0, 0);
    hide Low32, DataEnd;
  }

  lemma RereadInPlace(p: PackageValue, load: u32)
    requires ValidStrings(p) && AccessibleParts(p.entries)
    ensures InPlace(Reread(p, load).entries, load, DataStart(p))
  {
    hide Placed, DataStart, PlaceOf, Low32, Reread, ValidStrings, AccessibleParts, Alike;
    var entries, placed := Reread(p, load).entries, Placed(p.entries, load, DataStart(p));
    RereadAlike(p, load);
    AlikeLength(entries, p.entries);
    forall i | 0 <= i < |entries| ensures entries[i].part.offset == PlaceOf(entries, load, DataStart(p), i) {
      RereadPartIs(p, load, i);
      PlaceAlike(entries, placed, load, DataStart(p), i);
    }
  }

  lemma AlikeLength(a: seq<Entry>, b: seq<Entry>)
    requires Alike(a, b)
    ensures |a| == |b|
  {
  }

  lemma RereadBodies(p: PackageValue, load: u32)
    requires ValidStrings(p) && AccessibleParts(p.entries)
    ensures Bodies(Reread(p, load).entries) == Bodies(Placed(p.entries, load, DataStart(p)))
    ensures AccessibleParts(Reread(p, load).entries)
  {
    hide Placed, DataStart, PlaceOf, Low32, Reread, ValidStrings, Accessible, Bodies;
    var entries, placed := Reread(p, load).entries, Placed(p.entries, load, DataStart(p));
    RereadAlike(p, load);
    forall i | 0 <= i < |entries|
      ensures entries[i].part.data == placed[i].part.data && Accessible(entries[i].part.data, entries[i].part.relocations)
    {
      RereadPartIs(p, load, i);
      AccessibleAlike(entries[i].part, p.entries[i].part);
    }
    BodiesSame(entries, placed);
  }

  lemma AccessibleAlike(a: Part, b: Part)
    requires |a.data| == |b.data| && a.relocations == b.relocations && Accessible(b.data, b.relocations)
    ensures Accessible(a.data, a.relocations)
  {
  }

  // ---- the fixed point ----------------------------------------------------------------------------------

  lemma FieldsFitAgain(q: PackageValue, p: PackageValue)
    requires ValidStrings(p) && SameFields(q, p) && FieldsFit(p)
    ensures ValidStrings(q) && FieldsFit(q)
  {
    hide GlobalSize, CString, StringsSize, InfoFits, SameFields;
    StringsAgain(q, p);
    SizesAgain(q, p);
    SameAlike(q, p);
    InfoFitsSame(q.entries, p.entries, StringsSize(p));
  }

  lemma SameAlike(q: PackageValue, p: PackageValue)
    requires ValidStrings(p) && SameFields(q, p)
    ensures Alike(q.entries, p.entries) && ExtraAtEnd(q)
  {
    hide Alike, ExtraAtEnd, CString, Infos, PaddingOf, EffectiveFlags, EffectiveNos1;
  }

  lemma PlainAlike(a: seq<Entry>, b: seq<Entry>)
    requires Alike(a, b) && PlainNOS(b)
    ensures PlainNOS(a)
  {
    hide IsNOSPart;
  }

  lemma RereadWellFormed(p: PackageValue, load: u32)
    requires WellFormed(p)
    ensures WellFormed(Reread(p, load))
  {
    hide Reread, DataStart, WellRelocated, AccessibleParts, TableArea, Bodies, ValidStrings, Placed, FieldsFit,
         SameFields, Alike, PlainNOS;
    var q := Reread(p, load);
    RereadFields(p, load);
    RereadBodies(p, load);
    TableAgain(q, p);
    FieldsFitAgain(q, p);
    SameAlike(q, p);
    PlainAlike(q.entries, p.entries);
  }

  /** Writing again what was read back writes the same bytes. */
  lemma WritingAgain(p: PackageValue, load: u32)
    requires WellFormed(p)
    ensures WellFormed(Reread(p, load)) && Image(Reread(p, load), load) == Image(p, load)
  {
    hide *;
    Unpacked(p);
    var q := Reread(p, load);
    RereadWellFormed(p, load);
    Unpacked(q);
    HeaderOfMatches(p);
    RereadFields(p, load);
    DirectoryAgain(q, p);
    TableAgain(q, p);
    SizesAgain(q, p);
    RereadInPlace(p, load);
    RereadBodies(p, load);
    PlacedInPlace(q.entries, load, DataStart(p));
    ImageIs(q, load, Directory(p), TableArea(p), Bodies(Placed(p.entries, load, DataStart(p))));
    ImageIs(p, load, Directory(p), TableArea(p), Bodies(Placed(p.entries, load, DataStart(p))));
  }

  lemma ImageIs(p: PackageValue, load: u32, directory: seq<byte>, table: seq<byte>, bodies: seq<byte>)
    requires ValidStrings(p) && AccessibleParts(p.entries) && WellRelocated(p.entries, DataStart(p))
    requires directory == Directory(p) && table == TableArea(p)
    requires bodies == Bodies(Placed(p.entries, load, DataStart(p)))
    ensures Image(p, load) == directory + table + bodies
  {
  }

  /** Reading back is final: a second reading gives the package of the first. */
  lemma RereadAgain(p: PackageValue, load: u32)
    requires WellFormed(p)
    ensures WellFormed(Reread(p, load)) && Reread(Reread(p, load), load) == Reread(p, load)
  {
    hide *;
    Unpacked(p);
    var q := Reread(p, load);
    WritingAgain(p, load);
    Unpacked(q);
    HoldsItself(Image(p, load));
    RoundTrip(p, load, Image(p, load), 0);
    RoundTrip(q, load, Image(p, load), 0);
  }

  /** A part that was read back is where it is going already: asked for its size or bytes there, it does not encode. */
  lemma NoneEncodedAgain(p: PackageValue, load: u32)
    requires WellFormed(p)
    ensures WellFormed(Reread(p, load))
    ensures Placed(Reread(p, load).entries, load, DataStart(Reread(p, load))) == Reread(p, load).entries
  {
    hide *;
    Unpacked(p);
    HeaderOfMatches(p);
    RereadFields(p, load);
    SizesAgain(Reread(p, load), p);
    RereadWellFormed(p, load);
    Unpacked(Reread(p, load));
    RereadInPlace(p, load);
    PlacedInPlace(Reread(p, load).entries, load, DataStart(p));
  }

  // ---- on a stream ----------------------------------------------------------------------------------------

  lemma HeldAfterwards(was: seq<byte>, start: nat, d: seq<byte>)
    requires start <= |was|
    ensures Holds(Overwrite(was, start, d), start, d)
  {
  }

  lemma CanAlwaysPlace(p: PackageValue, load: u32)
    requires WellFormed(p)
    ensures CanPlace(p.entries, load, DataStart(p))
  {
    hide PlaceOf, DataEnd, DataStart, ValidStrings, FieldsFit, RelocationCount, HasRelocationFlag, Accessible;
    forall i | 0 <= i < |p.entries| ensures AllInside(p.entries[i].part.data, p.entries[i].part.relocations) {
      assert PartRelocated(p.entries[i].part, DataStart(p) + DataEnd(p.entries[..i]));
    }
  }

  /** Written anywhere on a stream and read back from there: the writer does not fail, changes nothing before or after
      the package, and the reader stops at the end of what was written. */
  lemma WriteThenRead(was: seq<byte>, start: nat, p: PackageValue, load: u32)
    requires start <= |was| && WellFormed(p)
    ensures CanPlace(p.entries, load, DataStart(p))
    ensures Written(was, start, p, load) == Overwrite(was, start, Image(p, load))
    ensures PackageAt(Written(was, start, p, load), start, load) == Got(Reread(p, load), start + |Image(p, load)|)
    ensures |Image(p, load)| == GlobalSize(p) <==> !(HasRelocationFlag(p.flags) && RelocationCount(p.entries) == 0)
  {
    hide *;
    CanAlwaysPlace(p, load);
    Unpacked(p);
    SizeCountedIff(p, load);
    WrittenIsImage(was, start, p, load);
    HeldAfterwards(was, start, Image(p, load));
    RoundTrip(p, load, Written(was, start, p, load), start);
  }
}
