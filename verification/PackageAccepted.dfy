/** What the reader accepts, and what it takes from where: not by reading on from field to field but by the places of
    the fields in the stream. */
module PackageAccepted {
  import opened Wrappers
  import opened Bytes
  import opened MemStreams
  import opened RelocTable
  import opened PkgParts
  import opened PackageImage
  import opened PackageParse

  // ---- the header --------------------------------------------------------------------

  /** 'package0' or 'package1'. */
  predicate Signed(s: seq<byte>, pos: nat) {
    Holds(s, pos, [0x70, 0x61, 0x63, 0x6B, 0x61, 0x67, 0x65, 0x30])
    || Holds(s, pos, [0x70, 0x61, 0x63, 0x6B, 0x61, 0x67, 0x65, 0x31])
  }

  /** Both strings are whole characters long. */
  predicate EvenStrings(s: seq<byte>, pos: nat)
    requires pos + 28 <= |s|
  {
    U16At(s, pos + 22) % 2 == 0 && U16At(s, pos + 26) % 2 == 0
  }

  predicate HeaderThere(s: seq<byte>, pos: nat) {
    pos + 52 <= |s| && Signed(s, pos) && EvenStrings(s, pos)
  }

  function HeaderPlaces(s: seq<byte>, pos: nat): RawHeader
    requires pos + 52 <= |s|
  {
    RawHeader(s[pos + 7] == 0x30, U32At(s, pos + 8), U32At(s, pos + 12), U32At(s, pos + 16),
              U16At(s, pos + 20), U16At(s, pos + 22), U16At(s, pos + 24), U16At(s, pos + 26),
              U32At(s, pos + 28), U32At(s, pos + 32), U32At(s, pos + 44), U32At(s, pos + 48))
  }

  lemma SignatureAtIff(s: seq<byte>, pos: nat)
    ensures SignatureAt(s, pos) == Failed(EndOfFile) <==> pos + 8 > |s|
    ensures SignatureAt(s, pos) == Failed(UnknownSignature) <==> pos + 8 <= |s| && !Signed(s, pos)
    ensures Signed(s, pos) ==> pos + 8 <= |s| && SignatureAt(s, pos) == Got(s[pos + 7] == 0x30, pos + 8)
  {
    assert Signature(true) == [0x70, 0x61, 0x63, 0x6B, 0x61, 0x67, 0x65, 0x30];
    assert Signature(false) == [0x70, 0x61, 0x63, 0x6B, 0x61, 0x67, 0x65, 0x31];
    assert Signature(true)[7] != Signature(false)[7];
    if pos + 8 <= |s| {
      assert s[pos..pos + 8][7] == s[pos + 7];
    }
  }

  /** The header is read exactly if it is signed, whole and its strings are of whole characters; otherwise the first
      of these that fails is what is thrown. */
  lemma HeaderAtIff(s: seq<byte>, pos: nat)
    ensures HeaderThere(s, pos) ==> HeaderAt(s, pos) == Got(HeaderPlaces(s, pos), pos + 52)
    ensures HeaderAt(s, pos) == Failed(UnknownSignature) <==> pos + 8 <= |s| && !Signed(s, pos)
    ensures HeaderAt(s, pos) == Failed(StringsDontSeemUniCStr)
        <==> pos + 28 <= |s| && Signed(s, pos) && !EvenStrings(s, pos)
    ensures HeaderAt(s, pos) == Failed(EndOfFile)
        <==> pos + 8 > |s| || (Signed(s, pos) && (pos + 28 > |s| || (EvenStrings(s, pos) && pos + 52 > |s|)))
  {
    hide Signed, SignatureAt, U32At, U16At, Signature;
    SignatureAtIff(s, pos);
  }

  // ---- the entries -------------------------------------------------------------------

  function EntryPlaces(s: seq<byte>, pos: nat): RawEntry
    requires pos + 32 <= |s|
  {
    RawEntry(U32At(s, pos), U32At(s, pos + 4), U32At(s, pos + 12), U32At(s, pos + 20),
             U16At(s, pos + 24), U16At(s, pos + 26))
  }

  lemma EntryAtIs(s: seq<byte>, pos: nat)
    ensures EntryAt(s, pos) == if pos + 32 <= |s| then Got(EntryPlaces(s, pos), pos + 32) else Failed(EndOfFile)
  {
    hide U32At, U16At;
  }

  function EntriesPlaces(s: seq<byte>, pos: nat, n: nat): (r: seq<RawEntry>)
    requires pos + 32 * n <= |s|
    ensures |r| == n
  {
    seq(n, k requires 0 <= k < n => EntryPlaces(s, pos + 32 * k))
  }

  /** The k-th entry is 32 bytes behind the one before. */
  lemma {:induction false} EntriesAtIs(s: seq<byte>, pos: nat, n: nat)
    requires pos <= |s|
    ensures EntriesAt(s, pos, n)
         == if pos + 32 * n <= |s| then Got(EntriesPlaces(s, pos, n), pos + 32 * n) else Failed(EndOfFile)
  {
    hide EntryAt, EntryPlaces;
    if n > 0 {
      EntriesAtIs(s, pos, n - 1);
      EntryAtIs(s, pos + 32 * (n - 1));
      if pos + 32 * n <= |s| {
        assert EntriesPlaces(s, pos, n) == EntriesPlaces(s, pos, n - 1) + [EntryPlaces(s, pos + 32 * (n - 1))];
      }
    } else {
      assert EntriesPlaces(s, pos, 0) == [];
    }
  }

  // ---- the directory data --------------------------------------------------------------

  /** A string lies in the directory data and ends with its terminator. */
  predicate StringThere(d: seq<byte>, offset: nat, length: nat)
    requires length >= 2
  {
    offset + length <= |d| && d[offset + length - 2] == d[offset + length - 1] == 0
  }

  function UnitsOf(d: seq<byte>, offset: nat, n: nat): seq<u16>
    requires offset + 2 * n <= |d|
  {
    seq(n, k requires 0 <= k < n => U16At(d, offset + 2 * k))
  }

  lemma StringInIff(d: seq<byte>, offset: nat, length: nat)
    requires length % 2 == 0 && length > 0
    ensures StringIn(d, offset, length).Success? <==> StringThere(d, offset, length)
    ensures StringIn(d, offset, length) == Failure(WeirdDirectorySize) <==> offset + length > |d|
    ensures StringIn(d, offset, length) == Failure(StringsDontSeemUniCStr)
        <==> offset + length <= |d| && !StringThere(d, offset, length)
    ensures StringThere(d, offset, length) ==> StringIn(d, offset, length) == Success(UnitsOf(d, offset, length / 2))
  {
    if offset + length <= |d| {
      var t := d[offset..offset + length];
      assert t[length - 2] == d[offset + length - 2] && t[length - 1] == d[offset + length - 1];
      assert ToUnits(t) == UnitsOf(d, offset, length / 2);
    }
  }

  function InfoEnd(raw: RawEntry): nat {
    raw.infoOffset as nat + raw.infoSize as nat
  }

  /** The info lies in the directory data, and so does whatever is before the next info. */
  predicate InfoThere(d: seq<byte>, raws: seq<RawEntry>, i: nat)
    requires i < |raws|
  {
    InfoEnd(raws[i]) <= |d| && (i + 1 < |raws| && InfoEnd(raws[i]) < raws[i + 1].infoOffset ==>
                                  raws[i + 1].infoOffset <= |d|)
  }

  /** Whatever is behind an info, up to the next one or the end. */
  function BehindInfo(d: seq<byte>, raws: seq<RawEntry>, i: nat): seq<byte>
    requires i < |raws| && InfoThere(d, raws, i)
  {
    var end := InfoEnd(raws[i]);
    if i + 1 == |raws| then d[end..]
    else if end < raws[i + 1].infoOffset then d[end..raws[i + 1].infoOffset]
    else []
  }

  lemma InfoInIff(d: seq<byte>, raws: seq<RawEntry>, i: nat)
    requires i < |raws|
    ensures InfoThere(d, raws, i) ==>
              InfoIn(d, raws, i) == Success((d[raws[i].infoOffset..InfoEnd(raws[i])], BehindInfo(d, raws, i)))
    ensures !InfoThere(d, raws, i) ==> InfoIn(d, raws, i) == Failure(WeirdDirectorySize)
  {
    if InfoThere(d, raws, i) && i + 1 == |raws| {
      assert d[InfoEnd(raws[i])..|d|] == d[InfoEnd(raws[i])..];
    }
  }

  predicate InfosThere(d: seq<byte>, raws: seq<RawEntry>, n: nat)
    requires n <= |raws|
  {
    forall i :: 0 <= i < n ==> InfoThere(d, raws, i)
  }

  lemma {:induction false} InfosInIff(d: seq<byte>, raws: seq<RawEntry>, n: nat)
    requires n <= |raws|
    ensures InfosThere(d, raws, n) ==>
              InfosIn(d, raws, n).Success?
              && forall i :: 0 <= i < n ==> InfoIn(d, raws, i) == Success(InfosIn(d, raws, n).value[i])
    ensures !InfosThere(d, raws, n) ==> InfosIn(d, raws, n) == Failure(WeirdDirectorySize)
  {
    hide InfoIn, InfoThere;
    if n > 0 {
      InfosInIff(d, raws, n - 1);
      InfoInIff(d, raws, n - 1);
    }
  }

  /** The copyright may be missing, the name may not. */
  predicate DirectoryThere(d: seq<byte>, h: RawHeader, raws: seq<RawEntry>)
    requires h.copyrightLength % 2 == 0 && h.nameLength % 2 == 0
  {
    && (h.copyrightLength > 0 ==> StringThere(d, h.copyrightOffset, h.copyrightLength))
    && h.nameLength > 0 && StringThere(d, h.nameOffset, h.nameLength)
    && (raws != [] && h.nameOffset + h.nameLength < raws[0].infoOffset ==> raws[0].infoOffset <= |d|)
    && InfosThere(d, raws, |raws|)
  }

  /** What is taken from the directory data, and where from. */
  predicate DirectoryFrom(r: RawDirectory, d: seq<byte>, h: RawHeader, raws: seq<RawEntry>)
    requires h.copyrightLength % 2 == 0 && h.nameLength % 2 == 0 && DirectoryThere(d, h, raws)
  {
    && r.copyright == (if h.copyrightLength == 0 then [0] else UnitsOf(d, h.copyrightOffset, h.copyrightLength / 2))
    && r.name == UnitsOf(d, h.nameOffset, h.nameLength / 2) && r.extra == BehindName(d, h, raws)
    && InfosFrom(r.infos, d, raws)
  }

  function BehindName(d: seq<byte>, h: RawHeader, raws: seq<RawEntry>): seq<byte> {
    var end, next: nat := h.nameOffset as nat + h.nameLength as nat, if raws == [] then |d| else raws[0].infoOffset;
    if end <= next <= |d| then d[end..next] else []
  }

  predicate InfosFrom(infos: seq<(seq<byte>, seq<byte>)>, d: seq<byte>, raws: seq<RawEntry>)
    requires InfosThere(d, raws, |raws|)
  {
    && |infos| == |raws|
    && forall i :: 0 <= i < |raws| ==> InfoFrom(infos[i], d, raws, i)
  }

  predicate InfoFrom(info: (seq<byte>, seq<byte>), d: seq<byte>, raws: seq<RawEntry>, i: nat)
    requires i < |raws| && InfoThere(d, raws, i)
  {
    info.0 == d[raws[i].infoOffset..InfoEnd(raws[i])] && info.1 == BehindInfo(d, raws, i)
  }

  lemma InfosTakenFrom(d: seq<byte>, raws: seq<RawEntry>)
    requires InfosThere(d, raws, |raws|)
    ensures InfosIn(d, raws, |raws|).Success? && InfosFrom(InfosIn(d, raws, |raws|).value, d, raws)
  {
    hide InfoIn, InfoThere, InfosIn, BehindInfo;
    InfosInIff(d, raws, |raws|);
    forall i | 0 <= i < |raws| ensures InfoFrom(InfosIn(d, raws, |raws|).value[i], d, raws, i) {
      InfoInIff(d, raws, i);
    }
  }

  lemma DirectoryInIff(d: seq<byte>, h: RawHeader, raws: seq<RawEntry>)
    requires h.copyrightLength % 2 == 0 && h.nameLength % 2 == 0
    ensures DirectoryIn(d, h, raws).Success? <==> DirectoryThere(d, h, raws)
    ensures DirectoryThere(d, h, raws) ==> DirectoryFrom(DirectoryIn(d, h, raws).value, d, h, raws)
    ensures DirectoryIn(d, h, raws) == Failure(NoName)
        <==> h.nameLength == 0 && (h.copyrightLength > 0 ==> StringThere(d, h.copyrightOffset, h.copyrightLength))
  {
    hide StringIn, StringThere, InfosIn, InfosThere, InfosFrom, UnitsOf;
    if h.copyrightLength > 0 {
      StringInIff(d, h.copyrightOffset, h.copyrightLength);
    }
    if h.nameLength > 0 {
      StringInIff(d, h.nameOffset, h.nameLength);
    }
    InfosInIff(d, raws, |raws|);
    if InfosThere(d, raws, |raws|) {
      InfosTakenFrom(d, raws);
    }
  }

  predicate PackageHeaderThere(s: seq<byte>, pos: nat) {
    HeaderThere(s, pos) && U32At(s, pos + 44) > Low32(52 + 32 * U32At(s, pos + 48))
  }

  /** Where the directory ends; the size of header and entries is taken modulo 2^32. */
  function DirectoryEnd(s: seq<byte>, pos: nat): (end: nat)
    requires PackageHeaderThere(s, pos)
    ensures end >= pos + 52 + 32 * U32At(s, pos + 48)
  {
    var head := 52 + 32 * U32At(s, pos + 48);
    pos + head + (U32At(s, pos + 44) - Low32(head))
  }

  predicate DirectoryAccepted(s: seq<byte>, pos: nat) {
    && PackageHeaderThere(s, pos) && DirectoryEnd(s, pos) <= |s|
    && DirectoryThere(DataOf(s, pos), HeaderPlaces(s, pos), RawsOf(s, pos))
  }

  function DataOf(s: seq<byte>, pos: nat): seq<byte>
    requires PackageHeaderThere(s, pos) && DirectoryEnd(s, pos) <= |s|
  {
    s[pos + 52 + 32 * U32At(s, pos + 48)..DirectoryEnd(s, pos)]
  }

  function RawsOf(s: seq<byte>, pos: nat): seq<RawEntry>
    requires PackageHeaderThere(s, pos) && DirectoryEnd(s, pos) <= |s|
  {
    EntriesPlaces(s, pos + 52, U32At(s, pos + 48))
  }

  lemma DirectoryAtIff(s: seq<byte>, pos: nat)
    ensures DirectoryAt(s, pos).Got? <==> DirectoryAccepted(s, pos)
    ensures DirectoryAccepted(s, pos) ==>
              DirectoryTaken(DirectoryAt(s, pos), s, pos) && DirectoryAt(s, pos).next == DirectoryEnd(s, pos)
  {
    hide HeaderAt, EntriesAt, DirectoryIn, DirectoryThere, DirectoryFrom, EntriesPlaces, U32At, U16At, Signed;
    HeaderAtIff(s, pos);
    if PackageHeaderThere(s, pos) {
      EntriesAtIs(s, pos + 52, U32At(s, pos + 48));
      if DirectoryEnd(s, pos) <= |s| {
        DirectoryInIff(DataOf(s, pos), HeaderPlaces(s, pos), RawsOf(s, pos));
      }
    }
  }

  predicate DirectoryTaken(r: Reading<RawPackage>, s: seq<byte>, pos: nat)
    requires DirectoryAccepted(s, pos)
  {
    && r.Got? && r.value.header == HeaderPlaces(s, pos) && r.value.raws == RawsOf(s, pos)
    && DirectoryFrom(r.value.directory, DataOf(s, pos), HeaderPlaces(s, pos), RawsOf(s, pos))
  }

  // ---- the relocation table --------------------------------------------------------------

  /** Behind page, number of offsets, the offsets and their padding. */
  function SetEnd(s: seq<byte>, pos: nat): (end: nat)
    requires pos + 4 <= |s|
    ensures end >= pos + 4 + U16At(s, pos + 2)
  {
    var n: nat := U16At(s, pos + 2);
    pos + 4 + n + Pad4(n)
  }

  lemma SetAtIs(s: seq<byte>, pos: nat)
    ensures pos + 4 > |s| ==> SetAt(s, pos) == Failed(EndOfFile)
    ensures pos + 4 <= |s| && SetEnd(s, pos) > |s| ==> SetAt(s, pos) == Failed(EndOfFile)
    ensures pos + 4 <= |s| && SetEnd(s, pos) <= |s| ==>
              SetAt(s, pos)
              == Got(RelocSet(U16At(s, pos), s[pos + 4..pos + 4 + U16At(s, pos + 2)]), SetEnd(s, pos))
  {
    hide U16At, Pad4;
  }

  lemma {:induction false} SetsInside(s: seq<byte>, pos: nat, n: nat)
    requires pos <= |s|
    ensures SetsAt(s, pos, n).Got? ==> pos <= SetsAt(s, pos, n).next <= |s|
    ensures SetsAt(s, pos, n).Failed? ==> SetsAt(s, pos, n) == Failed(EndOfFile)
  {
    hide SetAt;
    if n > 0 {
      SetsInside(s, pos, n - 1);
      if SetsAt(s, pos, n - 1).Got? {
        SetAtIs(s, SetsAt(s, pos, n - 1).next);
      }
    }
  }

  /** The table header, as many sets as it says, and as many bytes as it says. */
  predicate TableThere(s: seq<byte>, pos: nat) {
    && pos + 20 <= |s| && SetsAt(s, pos + 20, U32At(s, pos + 12)).Got?
    && pos + U32At(s, pos + 4) as nat <= |s|
  }

  function TableEnd(s: seq<byte>, pos: nat): nat
    requires TableThere(s, pos)
  {
    var setsEnd, end := SetsAt(s, pos + 20, U32At(s, pos + 12)).next, pos + U32At(s, pos + 4);
    if setsEnd < end then end else setsEnd
  }

  lemma RelocationsAtIff(s: seq<byte>, pos: nat)
    ensures !TableThere(s, pos) ==> RelocationsAt(s, pos) == Failed(EndOfFile)
    ensures TableThere(s, pos) ==>
              RelocationsAt(s, pos)
              == Got(RawRelocations(U32At(s, pos + 4), U32At(s, pos + 16),
                                    SetsAt(s, pos + 20, U32At(s, pos + 12)).value), TableEnd(s, pos))
  {
    hide U32At, SetsAt;
    if pos + 20 <= |s| {
      SetsInside(s, pos + 20, U32At(s, pos + 12));
    }
  }

  // ---- the relocations of a part -----------------------------------------------------------

  predicate IsWithin(a: u32, start: nat, end: nat) {
    start <= a < end
  }

  /** The addresses in a part, in their order. */
  function Within(addresses: seq<u32>, start: nat, end: nat): (r: seq<u32>) {
    if addresses == [] then []
    else
      var n := |addresses| - 1;
      Within(addresses[..n], start, end) + if IsWithin(addresses[n], start, end) then [addresses[n]] else []
  }

  /** From the first address at or behind the start of the part on, those in the part come first. */
  predicate Grouped(addresses: seq<u32>, start: nat, end: nat) {
    forall i, j :: FirstAtLeast(addresses, start) <= i < j < |addresses| && IsWithin(addresses[j], start, end) ==>
      IsWithin(addresses[i], start, end)
  }

  lemma {:induction false} WithinCounted(a: seq<u32>, start: nat, end: nat)
    ensures |Within(a, start, end)| == CountWithin(a, start, end)
    ensures forall x <- Within(a, start, end) :: IsWithin(x, start, end)
  {
    if a != [] {
      WithinCounted(a[..|a| - 1], start, end);
    }
  }

  lemma {:induction false} WithinAppend(a: seq<u32>, b: seq<u32>, start: nat, end: nat)
    ensures Within(a + b, start, end) == Within(a, start, end) + Within(b, start, end)
  {
    if b == [] {
      assert a + b == a;
    } else {
      var n := |b| - 1;
      assert (a + b)[..|a + b| - 1] == a + b[..n];
      WithinAppend(a, b[..n], start, end);
    }
  }

  lemma {:induction false} WithinAll(a: seq<u32>, start: nat, end: nat)
    requires forall k :: 0 <= k < |a| ==> IsWithin(a[k], start, end)
    ensures Within(a, start, end) == a
  {
    if a != [] {
      var n := |a| - 1;
      WithinAll(a[..n], start, end);
      assert a == a[..n] + [a[n]];
    }
  }

  lemma {:induction false} WithinNone(a: seq<u32>, start: nat, end: nat)
    requires forall k :: 0 <= k < |a| ==> !IsWithin(a[k], start, end)
    ensures Within(a, start, end) == []
  {
    if a != [] {
      WithinNone(a[..|a| - 1], start, end);
    }
  }

  /** How many of a list come before the first that is not in the part. */
  function Leading(a: seq<u32>, start: nat, end: nat): (n: nat)
    ensures n <= |a|
    ensures forall k :: 0 <= k < n ==> IsWithin(a[k], start, end)
    ensures n < |a| ==> !IsWithin(a[n], start, end)
  {
    if a == [] || !IsWithin(a[0], start, end) then 0 else 1 + Leading(a[1..], start, end)
  }

  /** Those before the first that is not in the part, and those behind it. */
  lemma LeadingFirst(a: seq<u32>, start: nat, end: nat)
    ensures var n := Leading(a, start, end);
            Within(a, start, end) == a[..n] + Within(a[n..], start, end)
  {
    var n := Leading(a, start, end);
    assert a[..n] + a[n..] == a;
    WithinAppend(a[..n], a[n..], start, end);
    WithinAll(a[..n], start, end);
  }

  lemma {:induction false} NoneWithin(a: seq<u32>, start: nat, end: nat)
    requires Within(a, start, end) == []
    ensures forall k :: 0 <= k < |a| ==> !IsWithin(a[k], start, end)
  {
    if a != [] {
      NoneWithin(a[..|a| - 1], start, end);
    }
  }

  /** None in the part is behind one that is not. */
  predicate Foremost(a: seq<u32>, start: nat, end: nat) {
    forall i, j :: 0 <= i < j < |a| && IsWithin(a[j], start, end) ==> IsWithin(a[i], start, end)
  }

  lemma NoneBehind(a: seq<u32>, n: nat, start: nat, end: nat)
    requires n <= |a|
    ensures Within(a[n..], start, end) == [] <==> forall k :: n <= k < |a| ==> !IsWithin(a[k], start, end)
  {
    hide Within, IsWithin;
    if Within(a[n..], start, end) == [] {
      NoneWithin(a[n..], start, end);
      forall k | n <= k < |a| ensures !IsWithin(a[k], start, end) {
        assert a[n..][k - n] == a[k];
      }
    }
    if forall k :: n <= k < |a| ==> !IsWithin(a[k], start, end) {
      WithinNone(a[n..], start, end);
    }
  }

  lemma FirstAreForemost(a: seq<u32>, start: nat, end: nat)
    requires Within(a, start, end) <= a
    ensures Foremost(a, start, end)
  {
    hide Within, Leading, IsWithin;
    var n, w := Leading(a, start, end), Within(a, start, end);
    WithinCounted(a, start, end);
    LeadingFirst(a, start, end);
    forall k | 0 <= k < |w| ensures IsWithin(a[k], start, end) {
      assert a[k] == w[k] && w[k] in w;
    }
    NoneBehind(a, n, start, end);
  }

  lemma ForemostAreFirst(a: seq<u32>, start: nat, end: nat)
    requires Foremost(a, start, end)
    ensures Within(a, start, end) <= a
  {
    hide Within, Leading, IsWithin;
    var n := Leading(a, start, end);
    LeadingFirst(a, start, end);
    assert forall k :: n <= k < |a| ==> !IsWithin(a[k], start, end);
    NoneBehind(a, n, start, end);
    assert a[..n] + [] == a[..n];
  }

  lemma NoneBefore(addresses: seq<u32>, start: nat, end: nat)
    ensures Within(addresses, start, end) == Within(addresses[FirstAtLeast(addresses, start)..], start, end)
  {
    hide Within, IsWithin;
    var first := FirstAtLeast(addresses, start);
    forall k | 0 <= k < first ensures !IsWithin(addresses[..first][k], start, end) {
      NotYetWithin(addresses[k], start, end);
    }
    WithinNone(addresses[..first], start, end);
    WithinAppend(addresses[..first], addresses[first..], start, end);
    assert addresses[..first] + addresses[first..] == addresses;
  }

  lemma SliceIsFirst(addresses: seq<u32>, start: nat, end: nat)
    ensures var a, n := addresses[FirstAtLeast(addresses, start)..], |Within(addresses, start, end)|;
            n <= |a| && SliceFor(addresses, start, end) == a[..n]
  {
    hide Within, CountWithin, FirstAtLeast;
    WithinCounted(addresses, start, end);
    CountAfterFirst(addresses, start, end);
  }

  /** A part is given its own relocations exactly when they are grouped so in the table. */
  lemma SliceIsWithinIff(addresses: seq<u32>, start: nat, end: nat)
    ensures SliceFor(addresses, start, end) == Within(addresses, start, end) <==> Grouped(addresses, start, end)
  {
    hide *;
    NoneBefore(addresses, start, end);
    SliceIsFirst(addresses, start, end);
    GroupedBehind(addresses, start, end);
    var a := addresses[FirstAtLeast(addresses, start)..];
    if Within(a, start, end) <= a {
      FirstAreForemost(a, start, end);
    }
    if Foremost(a, start, end) {
      ForemostAreFirst(a, start, end);
    }
  }

  lemma NotYetWithin(x: u32, start: nat, end: nat)
    requires x < start
    ensures !IsWithin(x, start, end)
  {
  }

  lemma GroupedBehind(addresses: seq<u32>, start: nat, end: nat)
    ensures Grouped(addresses, start, end)
        <==> Foremost(addresses[FirstAtLeast(addresses, start)..], start, end)
  {
    hide FirstAtLeast, IsWithin;
    var first := FirstAtLeast(addresses, start);
    var a := addresses[first..];
    assert forall k :: first <= k < |addresses| ==> addresses[k] == a[k - first];
    assert forall k :: 0 <= k < |a| ==> addresses[k + first] == a[k];
  }

  /** So they are in a table in ascending order. */
  lemma AscendingGrouped(addresses: seq<u32>, start: nat, end: nat)
    requires Ascending(addresses)
    ensures SliceFor(addresses, start, end) == Within(addresses, start, end)
  {
    hide Within, SliceFor;
    SliceIsWithinIff(addresses, start, end);
    var first := FirstAtLeast(addresses, start);
    forall i | first <= i < |addresses| ensures addresses[i] >= start {
      assert addresses[first] <= addresses[i];
    }
  }

  /** Out of order, the part at 100 gets the address of another in place of its own. */
  lemma OutOfOrder()
    ensures SliceFor([200, 120], 100, 140) == [200] && Within([200, 120], 100, 140) == [120]
  {
    assert [200, 120][..1] == [200] && [200][..0] == [];
    assert FirstAtLeast([200, 120], 100) == 0;
    assert CountWithin([200], 100, 140) == 0;
    assert Within([200], 100, 140) == [];
  }

  // ---- the package -------------------------------------------------------------------------

  predicate PartThere(raw: RawEntry, length: nat) {
    raw.offset as nat + raw.size as nat <= length
  }

  predicate PartsThere(raws: seq<RawEntry>, length: nat) {
    forall i :: 0 <= i < |raws| ==> PartThere(raws[i], length)
  }

  lemma {:induction false} PartsInIff(data: seq<byte>, raws: seq<RawEntry>, at: Placement)
    ensures PartsThere(raws, |data|) ==>
              PartsIn(data, raws, at).Success?
              && forall i :: 0 <= i < |raws| ==> PartIn(data, raws[i], at) == Success(PartsIn(data, raws, at).value[i])
    ensures !PartsThere(raws, |data|) ==> PartsIn(data, raws, at) == Failure(WeirdPartSize)
  {
    hide PartIn, PartThere;
    if raws != [] {
      PartsInIff(data, raws[..|raws| - 1], at);
      PartInIff(data, raws[|raws| - 1], at);
    }
  }

  lemma PartInIff(data: seq<byte>, raw: RawEntry, at: Placement)
    ensures !PartThere(raw, |data|) ==> PartIn(data, raw, at) == Failure(WeirdPartSize)
    ensures PartThere(raw, |data|) ==>
              PartIn(data, raw, at).Success?
              && PartIn(data, raw, at).value.data == data[raw.offset..raw.offset + raw.size]
  {
    hide SliceFor, Low32, FromOrigin, IsNOSPart;
  }

  /** The relocations of a part are its own, from its start on, if the table groups them; only for a NOS part, whose
      flags end with the bits 01, are there none. Their base is that of the table. */
  lemma PartRelocations(data: seq<byte>, raw: RawEntry, at: Placement)
    requires PartThere(raw, |data|)
    requires Grouped(at.addresses, at.dataStart + raw.offset, at.dataStart + raw.offset + raw.size)
    ensures PartIn(data, raw, at).Success?
    ensures OwnRelocations(PartIn(data, raw, at).value, raw, at)
  {
    hide Within, SliceFor, Grouped;
    var start: nat := at.dataStart as nat + raw.offset as nat;
    SliceIsWithinIff(at.addresses, start, start + raw.size);
    WithinCounted(at.addresses, start, start + raw.size);
    var own := Within(at.addresses, start, start + raw.size);
    var part := PartIn(data, raw, at).value;
    if raw.flags % 4 != 1 {
      forall k | 0 <= k < |own| ensures IsWithin(own[k], start, start + raw.size) {
        assert own[k] in own;
      }
    }
  }

  predicate OwnRelocations(part: Part, raw: RawEntry, at: Placement) {
    var start: nat := at.dataStart as nat + raw.offset as nat;
    var own := Within(at.addresses, start, start + raw.size);
    && part.offset == (start + at.packageOffset) % 0x1_0000_0000
    && if raw.flags % 4 == 1 || own == [] then part.relocations == [] && part.base == part.offset
       else
         && part.base == (at.base + at.dataStart) % 0x1_0000_0000 && |part.relocations| == |own|
         && forall k :: 0 <= k < |own| ==> part.relocations[k] + start == own[k]
  }

  predicate Flagged(s: seq<byte>, pos: nat)
    requires HeaderThere(s, pos)
  {
    U32At(s, pos + 12) / 0x0400_0000 % 2 == 1
  }

  predicate TablesThere(s: seq<byte>, pos: nat)
    requires PackageHeaderThere(s, pos)
  {
    Flagged(s, pos) ==> TableThere(s, DirectoryEnd(s, pos))
  }

  /** Where the part data is in the stream. */
  function PartsPlace(s: seq<byte>, pos: nat): nat
    requires PackageHeaderThere(s, pos) && TablesThere(s, pos)
  {
    if Flagged(s, pos) then TableEnd(s, DirectoryEnd(s, pos)) else DirectoryEnd(s, pos)
  }

  /** Where the part data is in the package by the sizes declared. */
  function DeclaredStart(s: seq<byte>, pos: nat): u32
    requires PackageHeaderThere(s, pos) && TablesThere(s, pos)
  {
    Low32(U32At(s, pos + 44) as nat + if Flagged(s, pos) then U32At(s, DirectoryEnd(s, pos) + 4) else 0)
  }

  function PartsLength(s: seq<byte>, pos: nat): nat
    requires PackageHeaderThere(s, pos) && TablesThere(s, pos)
  {
    Low32(U32At(s, pos + 28) as int - DeclaredStart(s, pos) as int)
  }

  /** Directory, table and part data are there, and every part lies in the part data. */
  predicate Accepted(s: seq<byte>, pos: nat) {
    && DirectoryAccepted(s, pos) && TablesThere(s, pos)
    && PartsPlace(s, pos) + PartsLength(s, pos) <= |s|
    && PartsThere(RawsOf(s, pos), PartsLength(s, pos))
  }

  lemma TablesIff(s: seq<byte>, pos: nat)
    requires PackageHeaderThere(s, pos)
    ensures var r := RelocationsIfFlagged(s, DirectoryEnd(s, pos), U32At(s, pos + 12));
            && (r.Got? <==> TablesThere(s, pos))
            && (r.Got? ==> r.next == PartsPlace(s, pos)
                           && Low32(U32At(s, pos + 44) as nat + r.value.size as nat) == DeclaredStart(s, pos))
  {
    hide RelocationsAt, TableThere, TableEnd, U32At, DirectoryEnd, HeaderThere, Low32;
    RelocationsAtIff(s, DirectoryEnd(s, pos));
  }

  /** Every field of the package is what is at its place in the stream. */
  predicate Taken(p: PackageValue, s: seq<byte>, pos: nat)
    requires Accepted(s, pos)
  {
    var h, d, raws := HeaderPlaces(s, pos), DataOf(s, pos), RawsOf(s, pos);
    && p.nos1 == h.nos1 && p.id == h.id && p.flags == h.flags && p.version == h.version && p.date == h.date
    && p.copyright == (if h.copyrightLength == 0 then [0] else UnitsOf(d, h.copyrightOffset, h.copyrightLength / 2))
    && p.name == UnitsOf(d, h.nameOffset, h.nameLength / 2) && p.extra == BehindName(d, h, raws)
    && |p.entries| == |raws|
    && forall i :: 0 <= i < |raws| ==> EntryTaken(p.entries[i], s, pos, i)
  }

  predicate EntryTaken(e: Entry, s: seq<byte>, pos: nat, i: nat)
    requires Accepted(s, pos) && i < |RawsOf(s, pos)|
  {
    var raws := RawsOf(s, pos);
    && e.type_ == raws[i].type_ && e.flags == raws[i].flags
    && InfosThere(DataOf(s, pos), raws, |raws|) && InfoFrom((e.info, e.extra), DataOf(s, pos), raws, i)
    && |e.part.data| == raws[i].size && Holds(s, PartsPlace(s, pos) + raws[i].offset, e.part.data)
  }

  // From the directory, the table and its end on.
  function BytesLeft(h: RawHeader, r: RawRelocations): nat {
    Low32(h.size as int - Low32(h.directorySize as nat + r.size as nat) as int)
  }

  function PlacementFor(h: RawHeader, r: RawRelocations, load: u32): Placement {
    Placement(Addresses(r.sets), Low32(h.directorySize as nat + r.size as nat), r.base, load)
  }

  function Built(s: seq<byte>, place: nat, raw: RawPackage, r: RawRelocations, load: u32): Reading<PackageValue>
    requires |raw.directory.infos| == |raw.raws|
  {
    var n := BytesLeft(raw.header, r);
    if place + n > |s| then Failed(EndOfFile)
    else LiftParts(raw, PartsIn(s[place..place + n], raw.raws, PlacementFor(raw.header, r, load)), place + n)
  }

  lemma Stages(s: seq<byte>, pos: nat, load: u32, raw: RawPackage, end: nat)
    requires DirectoryAt(s, pos) == Got(raw, end)
    ensures |raw.directory.infos| == |raw.raws|
    ensures var tables := RelocationsIfFlagged(s, end, raw.header.flags);
            PackageAt(s, pos, load)
            == if tables.Failed? then Failed(tables.error) else Built(s, tables.next, raw, tables.value, load)
  {
    hide DirectoryAt, RelocationsIfFlagged, PartsIn, LiftParts, Addresses, Low32;
    DirectoryShape(s, pos);
  }

  /** Fields and infos are those read before, the data of the parts is where their entries say. */
  predicate BuiltFrom(p: PackageValue, s: seq<byte>, place: nat, raw: RawPackage)
    requires |raw.directory.infos| == |raw.raws|
  {
    var h, d := raw.header, raw.directory;
    && p.nos1 == h.nos1 && p.id == h.id && p.flags == h.flags && p.version == h.version && p.date == h.date
    && p.copyright == d.copyright && p.name == d.name && p.extra == d.extra && |p.entries| == |raw.raws|
    && forall i :: 0 <= i < |raw.raws| ==> EntryBuilt(p.entries[i], s, place, raw.raws[i], d.infos[i])
  }

  predicate EntryBuilt(e: Entry, s: seq<byte>, place: nat, raw: RawEntry, info: (seq<byte>, seq<byte>)) {
    && e.type_ == raw.type_ && e.flags == raw.flags && e.info == info.0 && e.extra == info.1
    && |e.part.data| == raw.size && Holds(s, place + raw.offset, e.part.data)
  }

  lemma BuiltIff(s: seq<byte>, place: nat, raw: RawPackage, r: RawRelocations, load: u32)
    requires |raw.directory.infos| == |raw.raws|
    ensures var n := BytesLeft(raw.header, r);
            var built := Built(s, place, raw, r, load);
            && (built.Got? <==> place + n <= |s| && PartsThere(raw.raws, n))
            && (built.Got? ==> built.next == place + n && BuiltFrom(built.value, s, place, raw))
  {
    hide BytesLeft, PlacementFor, PartsIn, PartsThere, PartIn, PartThere, EntryBuilt;
    var n := BytesLeft(raw.header, r);
    if place + n <= |s| {
      var data, at := s[place..place + n], PlacementFor(raw.header, r, load);
      PartsInIff(data, raw.raws, at);
      if PartsThere(raw.raws, n) {
        var built := Built(s, place, raw, r, load).value;
        forall i | 0 <= i < |raw.raws|
          ensures EntryBuilt(built.entries[i], s, place, raw.raws[i], raw.directory.infos[i])
        {
          BuiltEntry(s, place, data, raw.raws[i], raw.directory.infos[i], at);
        }
      }
    }
  }

  lemma BuiltEntry(s: seq<byte>, place: nat, data: seq<byte>, raw: RawEntry, info: (seq<byte>, seq<byte>), at: Placement)
    requires Holds(s, place, data)
    ensures PartIn(data, raw, at).Success? ==>
              EntryBuilt(EntryFrom(raw, info, PartIn(data, raw, at).value), s, place, raw, info)
  {
    hide PartIn, Holds;
    PartInIff(data, raw, at);
    if PartThere(raw, |data|) {
      SliceHeld(data, raw.offset, raw.offset + raw.size);
      HoldsWithin(s, place, data, raw.offset, data[raw.offset..raw.offset + raw.size]);
    }
  }

  lemma SliceHeld(d: seq<byte>, from: nat, to: nat)
    requires from <= to <= |d|
    ensures Holds(d, from, d[from..to])
  {
  }

  lemma NoDirectory(s: seq<byte>, pos: nat, load: u32)
    requires DirectoryAt(s, pos).Failed?
    ensures PackageAt(s, pos, load).Failed?
  {
    hide DirectoryAt;
  }

  lemma BuiltTaken(p: PackageValue, s: seq<byte>, pos: nat)
    requires Accepted(s, pos) && DirectoryTaken(DirectoryAt(s, pos), s, pos)
    requires |DirectoryAt(s, pos).value.directory.infos| == |DirectoryAt(s, pos).value.raws|
    requires BuiltFrom(p, s, PartsPlace(s, pos), DirectoryAt(s, pos).value)
    ensures Taken(p, s, pos)
  {
    hide DirectoryAt, U32At, U16At, UnitsOf, BehindName, EntriesPlaces, PartsPlace, Holds, PackageHeaderThere, InfoThere,
         BehindInfo, InfoEnd, PartsThere, StringThere;
  }

  /** The reader takes a package from exactly these bytes, each field from its place. */
  lemma PackageAtIff(s: seq<byte>, pos: nat, load: u32)
    ensures PackageAt(s, pos, load).Got? <==> Accepted(s, pos)
    ensures Accepted(s, pos) ==>
              PackageAt(s, pos, load).next == PartsPlace(s, pos) + PartsLength(s, pos)
              && Taken(PackageAt(s, pos, load).value, s, pos)
  {
    hide DirectoryAt, RelocationsIfFlagged, PackageAt, Built, BuiltFrom, Low32, DirectoryThere, U32At, U16At,
         DirectoryFrom, EntriesPlaces, TablesThere, DirectoryEnd, Signed, EvenStrings, PartsThere, Taken, PartsPlace;
    DirectoryAtIff(s, pos);
    if DirectoryAccepted(s, pos) {
      var directory := DirectoryAt(s, pos);
      Stages(s, pos, load, directory.value, directory.next);
      TablesIff(s, pos);
      if TablesThere(s, pos) {
        var tables := RelocationsIfFlagged(s, directory.next, directory.value.header.flags);
        BuiltIff(s, tables.next, directory.value, tables.value, load);
        if Accepted(s, pos) {
          BuiltTaken(PackageAt(s, pos, load).value, s, pos);
        }
      }
    } else {
      NoDirectory(s, pos, load);
    }
  }
}
