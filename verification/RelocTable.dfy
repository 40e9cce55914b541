/** The paged relocation table of a package: sets of offsets, one set a page, written over a reserved
    area whose size is only an estimate. */
module RelocTable {
  import opened Wrappers
  import opened Bytes
  import opened Sequences
  import opened MemStreams

  const PAGE_SIZE := 1024
  const TABLE_HEADER_SIZE := 20

  datatype RelocSet = RelocSet(page: u16, offsets: seq<byte>)

  // ---- addresses and sets ---------------------------------------------------

  function PageOf(address: u32): u16 {
    Low16(address / 1024)
  }

  function OffsetOf(address: u32): byte {
    address % 1024 / 4
  }

  /** The reader's address of an offset in a page; the two fields do not overlap, so "or" is a sum. */
  function AddressOf(page: u16, offset: byte): u32 {
    page * 1024 + offset * 4
  }

  /** What is left of an address after it has been split into a 16-bit page and an 8-bit offset. */
  function Truncated(address: u32): u32 {
    address % 0x400_0000 - address % 4
  }

  function AllTruncated(addresses: seq<u32>): (r: seq<u32>)
    ensures |r| == |addresses|
  {
    seq(|addresses|, i requires 0 <= i < |addresses| => Truncated(addresses[i]))
  }

  /** The sets the writer forms, one address after the other: a set ends where the page changes. */
  function Sets(addresses: seq<u32>): (sets: seq<RelocSet>)
    ensures addresses != [] ==> sets != [] && sets[|sets| - 1].page == PageOf(addresses[|addresses| - 1])
    ensures forall s <- sets :: s.offsets != []
  {
    if addresses == [] then []
    else
      var n := |addresses| - 1;
      Extend(Sets(addresses[..n]), PageOf(addresses[n]), OffsetOf(addresses[n]))
  }

  function Extend(sets: seq<RelocSet>, page: u16, offset: byte): (r: seq<RelocSet>)
    ensures r != [] && r[|r| - 1].page == page
  {
    var n := |sets|;
    if n > 0 && sets[n - 1].page == page then
      sets[..n - 1] + [RelocSet(page, sets[n - 1].offsets + [offset])]
    else
      sets + [RelocSet(page, [offset])]
  }

  function SetAddresses(s: RelocSet): (r: seq<u32>)
    ensures |r| == |s.offsets|
  {
    seq(|s.offsets|, i requires 0 <= i < |s.offsets| => AddressOf(s.page, s.offsets[i]))
  }

  /** All the addresses of a table, as the reader collects them. */
  function Addresses(sets: seq<RelocSet>): seq<u32> {
    if sets == [] then [] else Addresses(sets[..|sets| - 1]) + SetAddresses(sets[|sets| - 1])
  }

  lemma AddressSplit(a: u32)
    ensures AddressOf(PageOf(a), OffsetOf(a)) == Truncated(a)
  {
    assert a / 1024 % 0x1_0000 * 1024 + a % 1024 == a % 0x400_0000;
  }

  lemma ExtendAddresses(sets: seq<RelocSet>, page: u16, offset: byte)
    ensures Addresses(Extend(sets, page, offset)) == Addresses(sets) + [AddressOf(page, offset)]
  {
    var n := |sets|;
    var r := Extend(sets, page, offset);
    if n > 0 && sets[n - 1].page == page {
      assert r[..n - 1] == sets[..n - 1];
      assert SetAddresses(r[n - 1]) == SetAddresses(sets[n - 1]) + [AddressOf(page, offset)];
    } else {
      assert r[..n] == sets;
      assert SetAddresses(r[n]) == [AddressOf(page, offset)];
    }
  }

  /** Splitting any addresses into sets and reading the sets back truncates each address, no more. */
  lemma {:induction false} SetsThenAddresses(addresses: seq<u32>)
    ensures Addresses(Sets(addresses)) == AllTruncated(addresses)
  {
    hide PageOf, OffsetOf, AddressOf, Truncated, Extend;
    if addresses != [] {
      var n := |addresses| - 1;
      SetsThenAddresses(addresses[..n]);
      ExtendAddresses(Sets(addresses[..n]), PageOf(addresses[n]), OffsetOf(addresses[n]));
      AddressSplit(addresses[n]);
      assert AllTruncated(addresses) == AllTruncated(addresses[..n]) + [Truncated(addresses[n])];
    }
  }

  predicate Representable(address: u32) {
    address % 4 == 0 && address < 0x400_0000
  }

  lemma TruncatedKeepsIff(a: u32)
    ensures Truncated(a) == a <==> Representable(a)
  {
  }

  /** The table keeps a list of addresses exactly when each is a multiple of four below 2^26. */
  lemma {:induction false} AddressesKeptIff(addresses: seq<u32>)
    ensures Addresses(Sets(addresses)) == addresses <==> forall a <- addresses :: Representable(a)
  {
    hide Truncated, Representable;
    SetsThenAddresses(addresses);
    forall a: u32 ensures Truncated(a) == a <==> Representable(a) {
      TruncatedKeepsIff(a);
    }
    if forall a <- addresses :: Representable(a) {
      assert forall i :: 0 <= i < |addresses| ==> addresses[i] in addresses;
      assert AllTruncated(addresses) == addresses;
    } else {
      var i :| 0 <= i < |addresses| && !Representable(addresses[i]);
      assert AllTruncated(addresses)[i] != addresses[i];
    }
  }

  /** The table loses an address of 64 MiB or more. */
  lemma AddressLost()
    ensures Addresses(Sets([0x400_0008])) == [8]
  {
    hide Sets, Addresses;
    SetsThenAddresses([0x400_0008]);
    assert AllTruncated([0x400_0008]) == [8];
  }

  // ---- the size estimate ----------------------------------------------------

  predicate Ascending(addresses: seq<u32>) {
    forall i, j :: 0 <= i < j < |addresses| ==> addresses[i] < addresses[j]
  }

  function PageEstimate(relocations: seq<u32>): nat {
    if relocations == [] then 0
    else
      var first, last := relocations[0], relocations[|relocations| - 1];
      if last == first then 1
      else 2 + Low32(last as int - first as int) / PAGE_SIZE
  }

  /** The size reserved for one set when the package has this many relocations. */
  function SetMax(total: nat): nat {
    if total < 256 then 4 + total + Pad4(total) else 4 + 256
  }

  function SetSize(s: RelocSet): nat {
    4 + |s.offsets| + Pad4(|s.offsets|)
  }

  function TableSize(sets: seq<RelocSet>): nat {
    if sets == [] then 0 else TableSize(sets[..|sets| - 1]) + SetSize(sets[|sets| - 1])
  }

  function Shift(relocations: seq<u32>, at: nat): (r: seq<u32>)
    ensures |r| == |relocations|
  {
    seq(|relocations|, i requires 0 <= i < |relocations| => Low32(relocations[i] + at))
  }

  lemma {:induction false} SetCountAppend(a: seq<u32>, b: seq<u32>)
    ensures |Sets(a + b)| <= |Sets(a)| + |Sets(b)|
    ensures b != [] && a != [] && PageOf(b[0]) == PageOf(a[|a| - 1]) ==> |Sets(a + b)| == |Sets(a)| + |Sets(b)| - 1
    ensures !(b != [] && a != [] && PageOf(b[0]) == PageOf(a[|a| - 1])) ==> |Sets(a + b)| == |Sets(a)| + |Sets(b)|
  {
    if b == [] {
      assert a + b == a;
    } else {
      var n := |b| - 1;
      assert (a + b)[..|a + b| - 1] == a + b[..n];
      SetCountAppend(a, b[..n]);
    }
  }

  lemma PagesMonotone(a: u32, b: u32)
    requires a < b
    ensures a / 1024 <= b / 1024
    ensures a / 1024 == b / 1024 ==> PageOf(a) == PageOf(b)
    ensures Representable(a) && Representable(b) && PageOf(a) == PageOf(b) ==> OffsetOf(a) < OffsetOf(b)
  {
  }

  /** Addresses in order need at most one set for each page between the first and the last. */
  lemma {:induction false} SetCountBound(addresses: seq<u32>)
    requires addresses != [] && Ascending(addresses)
    ensures |Sets(addresses)| <= addresses[|addresses| - 1] / 1024 - addresses[0] / 1024 + 1
  {
    var n := |addresses| - 1;
    if n == 0 {
      assert Sets(addresses[..0]) == [];
    } else {
      SetCountBound(addresses[..n]);
      var a, b := addresses[n - 1], addresses[n];
      PagesMonotone(a, b);
      hide PageOf, OffsetOf;
    }
  }

  lemma ShiftExact(relocations: seq<u32>, at: nat)
    requires relocations != [] && Ascending(relocations) && relocations[|relocations| - 1] + at < TWO_32
    ensures Ascending(Shift(relocations, at))
    ensures forall i :: 0 <= i < |relocations| ==> Shift(relocations, at)[i] == relocations[i] + at
    ensures relocations[0] <= relocations[|relocations| - 1]
    ensures relocations[0] == relocations[|relocations| - 1] ==> |relocations| == 1
  {
    var n := |relocations| - 1;
    forall i | 0 <= i <= n ensures Shift(relocations, at)[i] == relocations[i] + at {
      assert relocations[i] <= relocations[n];
    }
    if n > 0 {
      assert relocations[0] < relocations[n];
    }
  }

  lemma PageSpan(a: nat, b: nat, at: nat)
    requires a <= b
    ensures (b + at) / 1024 - (a + at) / 1024 <= (b - a) / 1024 + 1
  {
  }

  /** Wherever a part lands, its relocations need no more sets than its estimate. */
  lemma PagesWithinEstimate(relocations: seq<u32>, at: nat)
    requires Ascending(relocations)
    requires relocations != [] ==> relocations[|relocations| - 1] + at < TWO_32
    ensures |Sets(Shift(relocations, at))| <= PageEstimate(relocations)
  {
    hide Sets, Shift, Ascending;
    if relocations != [] {
      ShiftExact(relocations, at);
      SetCountBound(Shift(relocations, at));
      PageSpan(relocations[0], relocations[|relocations| - 1], at);
    } else {
      EmptyShift(at);
    }
  }

  lemma EmptyShift(at: nat)
    ensures Sets(Shift([], at)) == []
  {
  }

  predicate SmallSets(sets: seq<RelocSet>, bound: nat, lastBound: int) {
    && (forall s <- sets :: 1 <= |s.offsets| <= 256 && |s.offsets| <= bound)
    && (sets != [] ==> |sets[|sets| - 1].offsets| <= lastBound)
  }

  lemma ExtendSmall(sets: seq<RelocSet>, page: u16, offset: byte, bound: nat, lastBound: int)
    requires SmallSets(sets, bound, lastBound)
    requires sets != [] && sets[|sets| - 1].page == page ==> lastBound <= offset
    ensures SmallSets(Extend(sets, page, offset), bound + 1, offset as int + 1)
  {
    var r := Extend(sets, page, offset);
    forall s <- r ensures 1 <= |s.offsets| <= 256 && |s.offsets| <= bound + 1 {
      if s in sets {
      } else {
        assert s == r[|r| - 1];
        if sets != [] { assert sets[|sets| - 1] in sets; }
      }
    }
  }

  lemma AscendingFront(addresses: seq<u32>)
    requires Ascending(addresses) && addresses != [] && forall a <- addresses :: Representable(a)
    ensures Ascending(addresses[..|addresses| - 1]) && forall a <- addresses[..|addresses| - 1] :: Representable(a)
    ensures var n := |addresses| - 1;
            Representable(addresses[n])
            && (n > 0 ==> Representable(addresses[n - 1]) && addresses[n - 1] < addresses[n])
  {
    hide Representable;
    var n := |addresses| - 1;
    assert forall i :: 0 <= i <= n ==> addresses[i] in addresses;
    assert forall a <- addresses[..n] :: a in addresses;
  }

  /** What the last set of some addresses can hold: their last one is in it. */
  function LastBound(addresses: seq<u32>): int {
    if addresses == [] then 0 else OffsetOf(addresses[|addresses| - 1]) as int + 1
  }

  /** In order and representable, a set never holds more than 256 offsets nor more than there are. */
  lemma {:induction false} SetsAreSmall(addresses: seq<u32>)
    requires Ascending(addresses) && forall a <- addresses :: Representable(a)
    ensures SmallSets(Sets(addresses), |addresses|, LastBound(addresses))
  {
    hide PageOf, OffsetOf, Representable, Extend, Ascending, SmallSets;
    if addresses == [] {
      NoSmallSets();
    } else {
      var n := |addresses| - 1;
      var front, last := addresses[..n], addresses[n];
      AscendingFront(addresses);
      SetsAreSmall(front);
      if n > 0 {
        PagesMonotone(front[n - 1], last);
      }
      ExtendSmall(Sets(front), PageOf(last), OffsetOf(last), n, LastBound(front));
    }
  }

  lemma NoSmallSets()
    ensures SmallSets([], 0, 0)
  {
  }

  lemma SetWithinMax(s: RelocSet, total: nat)
    requires |s.offsets| <= 256 && |s.offsets| <= total
    ensures SetSize(s) <= SetMax(total)
  {
  }

  /** The size reserved for a set is that of the largest the package can have: all its relocations, or 256 of them. */
  lemma SetMaxIs(s: RelocSet, total: nat)
    requires |s.offsets| == if total < 256 then total else 256
    ensures SetMax(total) == SetSize(s)
  {
  }

  /** Two relocations a word apart can need as many sets as is estimated for them. */
  lemma EstimateReached()
    ensures |Sets(Shift([1020, 1024], 0))| == PageEstimate([1020, 1024]) == 2
  {
    hide Extend;
    var all := Shift([1020, 1024], 0);
    assert all == [1020, 1024] && all[..1] == [1020] && [1020][..0] == [];
    assert Sets([]) == [];
    TwoPages();
  }

  lemma TwoPages()
    ensures Extend([], PageOf(1020), OffsetOf(1020)) == [RelocSet(0, [255])]
    ensures |Extend([RelocSet(0, [255])], PageOf(1024), OffsetOf(1024))| == 2
  {
  }

  lemma {:induction false} TableSizeBound(sets: seq<RelocSet>, max: nat)
    requires forall s <- sets :: SetSize(s) <= max
    ensures TableSize(sets) <= |sets| * max
  {
    hide SetSize;
    if sets != [] {
      var n := |sets| - 1;
      TableSizeBound(sets[..n], max);
      assert sets[n] in sets;
      assert |sets| * max == n * max + max;
    }
  }

  // ---- the bytes of a table -------------------------------------------------

  function SetBytes(s: RelocSet): (r: seq<byte>)
    ensures |r| == 4 + |s.offsets|
  {
    BE16(s.page) + BE16(Low16(|s.offsets|)) + s.offsets
  }

  /** Sets one after the other, each padded to a multiple of four bytes. */
  function PaddedBytes(sets: seq<RelocSet>): (r: seq<byte>)
    ensures |r| == TableSize(sets)
  {
    if sets == [] then []
    else
      var s := sets[|sets| - 1];
      PaddedBytes(sets[..|sets| - 1]) + SetBytes(s) + Zeros(Pad4(|s.offsets|))
  }

  /** What the writer puts over the reserved area: the last set gets no padding of its own. */
  function TableBytes(sets: seq<RelocSet>): (r: seq<byte>)
    requires sets != []
  {
    PaddedBytes(sets[..|sets| - 1]) + SetBytes(sets[|sets| - 1])
  }

  /** Writing one set after another: the last set's bytes while its count is still zero. */
  function OpenBytes(front: seq<RelocSet>, page: u16, offsets: seq<byte>): (r: seq<byte>)
    ensures |r| == TableSize(front) + 4 + |offsets|
  {
    PaddedBytes(front) + (BE16(page) + BE16(0) + offsets)
  }

  lemma CloseSet(front: seq<RelocSet>, page: u16, offsets: seq<byte>)
    ensures Overwrite(OpenBytes(front, page, offsets), TableSize(front) + 2, BE16(Low16(|offsets|)))
         == TableBytes(front + [RelocSet(page, offsets)])
  {
    hide Overwrite, BE16, PaddedBytes, TableSize, Low16, Pad4, Zeros;
    var sets := front + [RelocSet(page, offsets)];
    assert sets[..|sets| - 1] == front;
    OverwriteMiddle(PaddedBytes(front), BE16(page), BE16(0), offsets, BE16(Low16(|offsets|)));
  }

  lemma PadAndOpen(front: seq<RelocSet>, page: u16, offsets: seq<byte>, next: u16)
    ensures var closed := front + [RelocSet(page, offsets)];
            TableBytes(closed) + Zeros(Pad4(|offsets|)) + (BE16(next) + BE16(0)) == OpenBytes(closed, next, [])
  {
    var closed := front + [RelocSet(page, offsets)];
    assert closed[..|closed| - 1] == front;
    assert BE16(next) + BE16(0) + [] == BE16(next) + BE16(0);
  }

  lemma TableSizeClosed(front: seq<RelocSet>, page: u16, offsets: seq<byte>)
    ensures TableSize(front + [RelocSet(page, offsets)]) == TableSize(front) + 4 + |offsets| + Pad4(|offsets|)
  {
    var closed := front + [RelocSet(page, offsets)];
    assert closed[..|closed| - 1] == front;
  }

  lemma NextSetBytes(front: seq<RelocSet>, page: u16, offsets: seq<byte>, next: u16, padded: seq<byte>)
    requires padded == OpenBytes(front, page, offsets) + Zeros(Pad4(|offsets|)) + BE16(next)
    ensures Overwrite(padded, TableSize(front) + 2, BE16(Low16(|offsets|))) + BE16(0)
         == OpenBytes(front + [RelocSet(page, offsets)], next, [])
  {
    hide *;
    var open, z, c := OpenBytes(front, page, offsets), Zeros(Pad4(|offsets|)), BE16(Low16(|offsets|));
    var table, at := TableBytes(front + [RelocSet(page, offsets)]), TableSize(front) + 2;
    PadAndOpen(front, page, offsets, next);
    CloseSet(front, page, offsets);
    OverwritePrefix(open, z, at, c);
    OverwritePrefix(open + z, BE16(next), at, c);
    AppendAssoc(table + z, BE16(next), BE16(0));
  }

  /** Padding the open set, writing the next page, patching the count and writing a zero count opens the next set. */
  lemma NextSetData(was: seq<byte>, start: nat, front: seq<RelocSet>, page: u16, offsets: seq<byte>, next: u16,
                    padded: seq<byte>, countAt: nat, nextCountAt: nat)
    requires start <= |was| && countAt == start + TableSize(front) + 2
    requires nextCountAt == start + TableSize(front + [RelocSet(page, offsets)]) + 2
    requires padded == OpenBytes(front, page, offsets) + Zeros(Pad4(|offsets|)) + BE16(next)
    ensures |padded| == nextCountAt - start
    ensures Overwrite(Overwrite(Overwrite(was, start, padded), countAt, BE16(Low16(|offsets|))), nextCountAt, BE16(0))
         == Overwrite(was, start, OpenBytes(front + [RelocSet(page, offsets)], next, []))
  {
    hide *;
    TableSizeClosed(front, page, offsets);
    NextSetBytes(front, page, offsets, next, padded);
    OverwritePatched(was, start, padded, TableSize(front) + 2, BE16(Low16(|offsets|)), BE16(0));
  }

  // ---- emission with back-patched counts ------------------------------------

  /** What the emission does to a stream: the sets after the two last header words, then their number. */
  function Emitted(was: seq<byte>, entriesAt: nat, addresses: seq<u32>): seq<byte>
    requires entriesAt + 8 <= |was| && addresses != []
  {
    Overwrite(Overwrite(was, entriesAt + 8, TableBytes(Sets(addresses))), entriesAt, BE32(Low32(|Sets(addresses)|)))
  }

  /** A set is open at the end of what has been written over the stream's old data from start on. */
  ghost predicate SetOpen(stream: MemStream, was: seq<byte>, start: nat,
                          front: seq<RelocSet>, page: u16, offsets: seq<byte>, countAt: nat)
    reads stream
  {
    && stream.Valid() && start <= |was|
    && stream.data == Overwrite(was, start, OpenBytes(front, page, offsets))
    && stream.cursor == start + TableSize(front) + 4 + |offsets|
    && countAt == start + TableSize(front) + 2
  }

  /** Opens the first set after the header. */
  method StartTable(stream: MemStream, start: nat, page: u16) returns (countAt: nat)
    requires stream.Valid() && start <= |stream.data|
    modifies stream
    ensures SetOpen(stream, old(stream.data), start, [], page, [], countAt)
  {
    ghost var was := stream.data;
    var moved := stream.SetCursor(start, FromStart);
    stream.PutShort(page);
    countAt := stream.cursor;
    stream.PutShort(0);
    OverwriteAppend(was, start, BE16(page), BE16(0));
    assert OpenBytes([], page, []) == BE16(page) + BE16(0);
  }

  method PutOffset(stream: MemStream, offset: byte, countAt: nat, ghost was: seq<byte>, ghost start: nat,
                   ghost front: seq<RelocSet>, ghost page: u16, ghost offsets: seq<byte>)
    requires SetOpen(stream, was, start, front, page, offsets, countAt)
    modifies stream
    ensures SetOpen(stream, was, start, front, page, offsets + [offset], countAt)
  {
    hide Overwrite, OpenBytes, TableSize;
    stream.PutByte(offset);
    OffsetEntersSet(was, start, front, page, offsets, offset);
  }

  /** Goes back to the count of the open set and patches it. */
  method PatchCount(stream: MemStream, countAt: nat, count: nat, ghost was: seq<byte>, ghost start: nat,
                    ghost front: seq<RelocSet>, ghost page: u16, ghost offsets: seq<byte>)
    requires SetOpen(stream, was, start, front, page, offsets, countAt) && count == |offsets|
    modifies stream
    ensures stream.Valid() && |was| <= |stream.data|
    ensures stream.data == Overwrite(was, start, TableBytes(front + [RelocSet(page, offsets)]))
  {
    hide Overwrite, OpenBytes, TableBytes, TableSize;
    var moved := stream.SetCursor(countAt, FromStart);
    stream.PutShort(Low16(count));
    OverwriteInside(was, start, OpenBytes(front, page, offsets), TableSize(front) + 2, BE16(Low16(count)));
    CloseSet(front, page, offsets);
  }

  /** Pads the open set to a multiple of four and writes the page of the next one. */
  method PadSet(stream: MemStream, count: nat, next: u16, ghost was: seq<byte>, ghost start: nat, ghost open: seq<byte>)
    requires stream.Valid() && start <= |was| && stream.data == Overwrite(was, start, open)
    requires stream.cursor == start + |open|
    modifies stream
    ensures stream.Valid() && stream.data == Overwrite(was, start, open + Zeros(Pad4(count)) + BE16(next))
    ensures stream.cursor == start + |open| + Pad4(count) + 2
  {
    hide Overwrite, Zeros, Pad4, BE16;
    PutZeros(stream, Pad4(count));
    OverwriteAppend(was, start, open, Zeros(Pad4(count)));
    stream.PutShort(next);
    OverwriteAppend(was, start, open + Zeros(Pad4(count)), BE16(next));
  }

  /** Ends the open set and opens the next one: padding, the next page, the patched count, a zero count. */
  method StartNextSet(stream: MemStream, countAt: nat, count: nat, next: u16, ghost was: seq<byte>, ghost start: nat,
                      ghost front: seq<RelocSet>, ghost page: u16, ghost offsets: seq<byte>)
    returns (nextCountAt: nat)
    requires SetOpen(stream, was, start, front, page, offsets, countAt) && count == |offsets|
    modifies stream
    ensures SetOpen(stream, was, start, front + [RelocSet(page, offsets)], next, [], nextCountAt)
  {
    hide Overwrite, OpenBytes, TableSize, Zeros, Pad4, Low16, BE16;
    TableSizeClosed(front, page, offsets);
    PadSet(stream, count, next, was, start, OpenBytes(front, page, offsets));
    nextCountAt := stream.cursor;
    NextSetData(was, start, front, page, offsets, next,
                OpenBytes(front, page, offsets) + Zeros(Pad4(count)) + BE16(next), countAt, nextCountAt);
    var moved := stream.SetCursor(countAt, FromStart);
    stream.PutShort(Low16(count));
    moved := stream.SetCursor(nextCountAt, FromStart);
    stream.PutShort(0);
  }

  /** The writer's position between two addresses: a set is open that the next address belongs to. */
  predicate OpenAt(done: seq<u32>, front: seq<RelocSet>, page: u16, offsets: seq<byte>) {
    if offsets == [] then
      Sets(done) == front && (front != [] ==> front[|front| - 1].page != page)
    else
      Sets(done) == front + [RelocSet(page, offsets)]
  }

  lemma AddressEntersSet(addresses: seq<u32>, ix: nat, front: seq<RelocSet>, page: u16, offsets: seq<byte>)
    requires ix < |addresses| && page == PageOf(addresses[ix])
    requires OpenAt(addresses[..ix], front, page, offsets)
    ensures Sets(addresses[..ix + 1]) == front + [RelocSet(page, offsets + [OffsetOf(addresses[ix])])]
  {
    hide PageOf, OffsetOf;
    assert addresses[..ix + 1][..ix] == addresses[..ix];
    assert [] + [OffsetOf(addresses[ix])] == [OffsetOf(addresses[ix])];
  }

  lemma NothingOpen(addresses: seq<u32>, page: u16)
    ensures OpenAt(addresses[..0], [], page, [])
  {
    assert addresses[..0] == [];
  }

  lemma SetEndsWhen(done: seq<u32>, front: seq<RelocSet>, page: u16, offsets: seq<byte>, next: u16)
    requires Sets(done) == front + [RelocSet(page, offsets)] && offsets != []
    ensures next != page ==> OpenAt(done, front + [RelocSet(page, offsets)], next, [])
    ensures next == page ==> OpenAt(done, front, page, offsets)
  {
  }

  lemma OffsetEntersSet(was: seq<byte>, start: nat, front: seq<RelocSet>, page: u16, offsets: seq<byte>, offset: byte)
    requires start <= |was|
    ensures Overwrite(Overwrite(was, start, OpenBytes(front, page, offsets)),
                      start + TableSize(front) + 4 + |offsets|, [offset])
         == Overwrite(was, start, OpenBytes(front, page, offsets + [offset]))
  {
    hide Overwrite, BE16, PaddedBytes, TableSize;
    OverwriteAppend(was, start, OpenBytes(front, page, offsets), [offset]);
    AppendAssoc(PaddedBytes(front), BE16(page) + BE16(0) + offsets, [offset]);
    AppendAssoc(BE16(page) + BE16(0), offsets, [offset]);
  }

  /** The sets of all the addresses, from a position in the stream on; the last count is patched at the end. */
  method EmitSets(stream: MemStream, start: nat, addresses: seq<u32>) returns (numSets: nat)
    requires stream.Valid() && start <= |stream.data| && addresses != []
    modifies stream
    ensures stream.Valid() && |old(stream.data)| <= |stream.data|
    ensures stream.data == Overwrite(old(stream.data), start, TableBytes(Sets(addresses)))
    ensures numSets == |Sets(addresses)|
  {
    hide *;
    ghost var was := stream.data;
    numSets := 1;
    var ix := 0;
    var relocation := addresses[0];
    var currentPage := PageOf(relocation);
    var count := 0;
    var countAt := StartTable(stream, start, currentPage);
    ghost var front: seq<RelocSet>, offsets: seq<byte> := [], [];
    NothingOpen(addresses, currentPage);
    while ix < |addresses|
      invariant 0 <= ix <= |addresses|
      invariant numSets == |front| + 1 && count == |offsets|
      invariant ix < |addresses| ==>
                  && relocation == addresses[ix] && currentPage == PageOf(relocation)
                  && OpenAt(addresses[..ix], front, currentPage, offsets)
                  && SetOpen(stream, was, start, front, currentPage, offsets, countAt)
      invariant ix == |addresses| ==>
                  && stream.Valid() && |was| <= |stream.data| && numSets == |Sets(addresses)|
                  && stream.data == Overwrite(was, start, TableBytes(Sets(addresses)))
    {
      AddressEntersSet(addresses, ix, front, currentPage, offsets);
      ix := ix + 1;
      PutOffset(stream, OffsetOf(relocation), countAt, was, start, front, currentPage, offsets);
      count, offsets := count + 1, offsets + [OffsetOf(relocation)];
      if ix < |addresses| {
        relocation := addresses[ix];
        var nextPage := PageOf(relocation);
        SetEndsWhen(addresses[..ix], front, currentPage, offsets, nextPage);
        if nextPage != currentPage {
          countAt := StartNextSet(stream, countAt, count, nextPage, was, start, front, currentPage, offsets);
          front, offsets := front + [RelocSet(currentPage, offsets)], [];
          count, currentPage, numSets := 0, nextPage, numSets + 1;
        }
      } else {
        assert addresses[..ix] == addresses;
        PatchCount(stream, countAt, count, was, start, front, currentPage, offsets);
      }
    }
  }

  /** Emits the table over the reserved area, from just after the header, and leaves the cursor where it was. */
  method EmitTable(stream: MemStream, entriesAt: nat, addresses: seq<u32>)
    requires stream.Valid() && entriesAt + 8 <= |stream.data| && addresses != []
    modifies stream
    ensures stream.Valid() && stream.cursor == old(stream.cursor)
    ensures stream.data == Emitted(old(stream.data), entriesAt, addresses)
  {
    hide stream.Valid, Overwrite, Sets, TableBytes, BE32;
    var endCursor := stream.cursor;
    var numSets := EmitSets(stream, entriesAt + 8, addresses);
    var moved := stream.SetCursor(entriesAt, FromStart);
    stream.PutLong(Low32(numSets));
    moved := stream.SetCursor(endCursor, FromStart);
  }

  // ---- reading the table ----------------------------------------------------

  function SetAt(s: seq<byte>, pos: nat): (r: Reading<RelocSet>) {
    var (page, afterPage) :- ShortAt(s, pos);
    var (count, afterCount) :- ShortAt(s, afterPage);
    var (offsets, afterOffsets) :- BytesAt(s, afterCount, count);
    var (padding, next) :- BytesAt(s, afterOffsets, Pad4(count));
    Got(RelocSet(page, offsets), next)
  }

  function SetsAt(s: seq<byte>, pos: nat, n: nat): (r: Reading<seq<RelocSet>>) {
    if n == 0 then Got([], pos)
    else
      var (front, next) :- SetsAt(s, pos, n - 1);
      var (last, end) :- SetAt(s, next);
      Got(front + [last], end)
  }

  method ReadSet(stream: MemStream) returns (r: Result<RelocSet, Error>)
    requires stream.Valid()
    modifies stream
    ensures stream.Valid() && stream.data == old(stream.data)
    ensures Agrees(r, SetAt(stream.data, old(stream.cursor)), stream.cursor)
  {
    var page :- stream.GetShort();
    var count :- stream.GetShort();
    var offsets := stream.Read(count);
    if |offsets| != count {
      return Failure(EndOfFile);
    }
    var padding := Pad4(count);
    var i := 0;
    ghost var start := stream.cursor;
    while i < padding
      invariant stream.Valid() && stream.data == old(stream.data)
      invariant 0 <= i <= padding && stream.cursor == start + i
    {
      var skipped :- stream.GetByte();
      i := i + 1;
    }
    return Success(RelocSet(page, offsets));
  }

  method ReadSets(stream: MemStream, n: nat) returns (r: Result<seq<RelocSet>, Error>)
    requires stream.Valid()
    modifies stream
    ensures stream.Valid() && stream.data == old(stream.data)
    ensures Agrees(r, SetsAt(stream.data, old(stream.cursor), n), stream.cursor)
  {
    ghost var start := stream.cursor;
    var sets: seq<RelocSet> := [];
    assert SetsAt(stream.data, start, 0) == Got(sets, start);
    hide SetAt, SetsAt, Pad4, Low16;
    for i := 0 to n
      invariant stream.Valid() && stream.data == old(stream.data)
      invariant SetsAt(stream.data, start, i) == Got(sets, stream.cursor)
    {
      SetsAtNext(stream.data, start, i, n, sets, stream.cursor);
      var s :- ReadSet(stream);
      sets := sets + [s];
    }
    return Success(sets);
  }

  lemma SetsAtStart(s: seq<byte>, pos: nat)
    ensures SetsAt(s, pos, 0) == Got([], pos)
  {
  }

  lemma SetsAtNext(s: seq<byte>, pos: nat, i: nat, n: nat, sets: seq<RelocSet>, next: nat)
    requires i < n && SetsAt(s, pos, i) == Got(sets, next)
    ensures SetAt(s, next).Got? ==>
              SetsAt(s, pos, i + 1) == Got(sets + [SetAt(s, next).value], SetAt(s, next).next)
    ensures SetAt(s, next).Failed? ==> SetsAt(s, pos, n) == Failed(SetAt(s, next).error)
  {
    hide SetAt;
    if SetAt(s, next).Failed? {
      SetsAtFails(s, pos, i + 1, n);
    }
  }

  lemma SetsAtFails(s: seq<byte>, pos: nat, i: nat, n: nat)
    requires i <= n && SetsAt(s, pos, i).Failed?
    ensures SetsAt(s, pos, n) == Failed(SetsAt(s, pos, i).error)
  {
    if i < n {
      SetsAtFails(s, pos, i, n - 1);
    }
  }

  lemma SetBytesReadBack(x: RelocSet, s: seq<byte>, pos: nat)
    requires |x.offsets| < TWO_16
    requires Holds(s, pos, SetBytes(x) + Zeros(Pad4(|x.offsets|)))
    ensures SetAt(s, pos) == Got(x, pos + SetSize(x))
  {
    hide Holds, Zeros, Pad4, BE16;
    var n := |x.offsets|;
    HoldsBoth(s, pos, SetBytes(x), Zeros(Pad4(n)));
    HoldsBoth(s, pos, BE16(x.page) + BE16(n), x.offsets);
    HoldsBoth(s, pos, BE16(x.page), BE16(n));
    DecodeBE16(s, pos, x.page);
    DecodeBE16(s, pos + 2, n);
    BytesHeld(s, pos + 4, x.offsets);
    BytesHeld(s, pos + 4 + n, Zeros(Pad4(n)));
  }

  /** Reading as many sets as were written padded gives exactly those sets and stops just after them. */
  lemma {:induction false} SetsReadBack(sets: seq<RelocSet>, s: seq<byte>, pos: nat)
    requires forall x <- sets :: |x.offsets| < TWO_16
    requires Holds(s, pos, PaddedBytes(sets))
    ensures SetsAt(s, pos, |sets|) == Got(sets, pos + TableSize(sets))
  {
    hide SetAt, SetsAt, SetBytes, SetSize, Zeros, Pad4, Holds;
    if sets == [] {
      SetsAtStart(s, pos);
    } else {
      var n := |sets| - 1;
      var front, last := sets[..n], sets[n];
      assert last in sets && forall x <- front :: x in sets;
      AppendAssoc(PaddedBytes(front), SetBytes(last), Zeros(Pad4(|last.offsets|)));
      HoldsBoth(s, pos, PaddedBytes(front), SetBytes(last) + Zeros(Pad4(|last.offsets|)));
      SetsReadBack(front, s, pos);
      SetBytesReadBack(last, s, pos + TableSize(front));
      SetsAtNext(s, pos, n, n + 1, front, pos + TableSize(front));
      assert front + [last] == sets;
    }
  }
}
