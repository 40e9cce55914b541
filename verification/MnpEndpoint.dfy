/** One end of an MNP connection, as a value: its buffers and packet indices, and what each operation does to them
    and sends. Nothing here encodes or decodes bytes. */
module MnpEndpoint {
  import opened Sequences

  const LA: bv8 := 0x05
  const LT: bv8 := 0x04
  const DEFAULT_CREDITS: bv8 := 8

  type Octets = seq<bv8>

  datatype Endpoint = Endpoint(capacity: nat, output: Octets, outIndex: bv8,
                               input: Octets, cursor: nat, inIndex: bv8, keepAlive: bool)

  function DataFrame(index: bv8, data: Octets): Octets {
    [2, LT, index] + data
  }

  function AckFrame(index: bv8): (f: Octets)
    ensures |f| == 4
  {
    [3, LA, index, DEFAULT_CREDITS]
  }

  predicate IsAck(f: Octets) {
    |f| == 4 && f[1] == LA
  }

  /** A frame the receiver can take: an acknowledgement, or data after a header of three bytes. */
  predicate Proper(f: Octets) {
    |f| >= 3
  }

  function PayloadOf(f: Octets): Octets {
    if IsAck(f) || !Proper(f) then [] else f[3..]
  }

  /** The data carried by frames, acknowledgements left out. */
  function Payloads(frames: seq<Octets>): Octets {
    if frames == [] then [] else Payloads(frames[..|frames| - 1]) + PayloadOf(frames[|frames| - 1])
  }

  // ---- sending ------------------------------------------------------------------------------

  /** The endpoint once its output buffer has been sent, and the frame that was sent. */
  function AfterSend(e: Endpoint): Endpoint {
    e.(output := [], outIndex := e.outIndex + 1)
  }

  function FrameToSend(e: Endpoint): Octets {
    DataFrame(e.outIndex, e.output)
  }

  function ChunkSize(e: Endpoint, n: nat): nat
    requires |e.output| <= e.capacity
  {
    if n + |e.output| > e.capacity then e.capacity - |e.output| else n
  }

  predicate RoomLeft(e: Endpoint) {
    |e.output| < e.capacity
  }

  /** Taking a chunk that fits, and sending if that fills the buffer. */
  function AfterChunk(e: Endpoint, chunk: Octets): (r: Endpoint)
    requires RoomLeft(e) && |e.output| + |chunk| <= e.capacity
    ensures RoomLeft(r) && r.capacity == e.capacity
  {
    var filled := e.(output := e.output + chunk);
    if |filled.output| == e.capacity then AfterSend(filled) else filled
  }

  function ChunkFrames(e: Endpoint, chunk: Octets): seq<Octets>
    requires RoomLeft(e) && |e.output| + |chunk| <= e.capacity
  {
    var filled := e.(output := e.output + chunk);
    if |filled.output| == e.capacity then [FrameToSend(filled)] else []
  }

  function AfterWrite(e: Endpoint, data: Octets): (r: Endpoint)
    requires RoomLeft(e)
    ensures RoomLeft(r) && r.capacity == e.capacity
    decreases |data|
  {
    if data == [] then e
    else
      var n := ChunkSize(e, |data|);
      AfterWrite(AfterChunk(e, data[..n]), data[n..])
  }

  function WriteFrames(e: Endpoint, data: Octets): seq<Octets>
    requires RoomLeft(e)
    decreases |data|
  {
    if data == [] then []
    else
      var n := ChunkSize(e, |data|);
      ChunkFrames(e, data[..n]) + WriteFrames(AfterChunk(e, data[..n]), data[n..])
  }

  // ---- receiving ------------------------------------------------------------------------------

  function AfterFrame(e: Endpoint, f: Octets): Endpoint
    requires Proper(f)
  {
    if IsAck(f) then e else e.(inIndex := f[2], input := e.input + f[3..])
  }

  /** What is sent back for a frame: data is acknowledged with its own index, an acknowledgement is answered, with
      the index received last, only to keep the connection alive. */
  function Reply(keepAlive: bool, index: bv8, f: Octets): seq<Octets>
    requires Proper(f)
  {
    if !IsAck(f) then [AckFrame(f[2])] else if keepAlive then [AckFrame(index)] else []
  }

  predicate AllProper(frames: seq<Octets>) {
    forall f <- frames :: Proper(f)
  }

  /** The index received last. */
  function LastIndex(index: bv8, frames: seq<Octets>): bv8 {
    if frames == [] then index
    else
      var f := frames[|frames| - 1];
      if IsAck(f) || !Proper(f) then LastIndex(index, frames[..|frames| - 1]) else f[2]
  }

  function Replies(keepAlive: bool, index: bv8, frames: seq<Octets>): seq<Octets>
    requires AllProper(frames)
  {
    if frames == [] then []
    else
      var n := |frames| - 1;
      Replies(keepAlive, index, frames[..n]) + Reply(keepAlive, LastIndex(index, frames[..n]), frames[n])
  }

  function Unread(e: Endpoint): Octets
    requires e.cursor <= |e.input|
  {
    e.input[e.cursor..]
  }

  // ---- what writing does, whatever the chunks --------------------------------------------------

  lemma PayloadsNext(frames: seq<Octets>, f: Octets)
    ensures Payloads(frames + [f]) == Payloads(frames) + PayloadOf(f)
  {
    assert (frames + [f])[..|frames|] == frames;
  }

  lemma {:induction false} PayloadsAppend(a: seq<Octets>, b: seq<Octets>)
    ensures Payloads(a + b) == Payloads(a) + Payloads(b)
  {
    hide PayloadOf;
    if b == [] {
      assert a + b == a;
    } else {
      var n := |b| - 1;
      PayloadsAppend(a, b[..n]);
      assert (a + b)[..|a + b| - 1] == a + b[..n];
      AppendAssoc(Payloads(a), Payloads(b[..n]), PayloadOf(b[n]));
    }
  }

  /** The indices of the data frames, in order. */
  function Indices(frames: seq<Octets>): seq<bv8> {
    if frames == [] then []
    else
      var f := frames[|frames| - 1];
      Indices(frames[..|frames| - 1]) + if IsAck(f) || !Proper(f) then [] else [f[2]]
  }

  /** Consecutive indices, modulo 256. */
  function Counting(from: bv8, n: nat): (r: seq<bv8>)
    ensures |r| == n
    decreases n
  {
    if n == 0 then [] else [from] + Counting(from + 1, n - 1)
  }

  /** Full data frames, numbered from an index on. */
  predicate FullFrames(frames: seq<Octets>, index: bv8, capacity: nat)
    decreases |frames|
  {
    || frames == []
    || (&& |PayloadOf(frames[0])| == capacity && frames[0] == DataFrame(index, PayloadOf(frames[0]))
        && FullFrames(frames[1..], index + 1, capacity))
  }

  lemma DataFrameIs(index: bv8, data: Octets)
    ensures Proper(DataFrame(index, data)) && !IsAck(DataFrame(index, data))
    ensures PayloadOf(DataFrame(index, data)) == data && DataFrame(index, data)[2] == index
  {
    var f := DataFrame(index, data);
    assert f[1] == LT && f[3..] == data;
  }

  lemma OneMoreFull(index: bv8, data: Octets, capacity: nat, frames: seq<Octets>)
    requires |data| == capacity && FullFrames(frames, index + 1, capacity)
    ensures FullFrames([DataFrame(index, data)] + frames, index, capacity)
    ensures Payloads([DataFrame(index, data)] + frames) == data + Payloads(frames)
  {
    hide PayloadOf, DataFrame, Payloads;
    var f := DataFrame(index, data);
    DataFrameIs(index, data);
    assert ([f] + frames)[1..] == frames;
    PayloadsAppend([f], frames);
    OnePayload(f);
  }

  lemma OnePayload(f: Octets)
    ensures Payloads([f]) == PayloadOf(f)
  {
    hide PayloadOf;
    assert [f][..0] == [];
  }

  lemma WriteNext(e: Endpoint, data: Octets)
    requires RoomLeft(e) && data != []
    ensures var n := ChunkSize(e, |data|);
            && 0 < n <= |data| && |e.output| + n <= e.capacity
            && AfterWrite(e, data) == AfterWrite(AfterChunk(e, data[..n]), data[n..])
            && WriteFrames(e, data) == ChunkFrames(e, data[..n]) + WriteFrames(AfterChunk(e, data[..n]), data[n..])
  {
    hide AfterChunk, ChunkFrames;
  }

  lemma ChunkIs(e: Endpoint, chunk: Octets)
    requires RoomLeft(e) && |e.output| + |chunk| <= e.capacity
    ensures |e.output| + |chunk| == e.capacity ==>
              && AfterChunk(e, chunk) == e.(output := [], outIndex := e.outIndex + 1)
              && ChunkFrames(e, chunk) == [DataFrame(e.outIndex, e.output + chunk)]
    ensures |e.output| + |chunk| < e.capacity ==>
              AfterChunk(e, chunk) == e.(output := e.output + chunk) && ChunkFrames(e, chunk) == []
  {
    hide DataFrame;
  }

  /** Writing loses nothing and keeps order: the frames sent and the buffer left over hold, in order, what the buffer
      held and what was written; every frame is full and numbered in turn. */
  lemma {:induction false} WriteConserves(e: Endpoint, data: Octets)
    requires RoomLeft(e)
    ensures Payloads(WriteFrames(e, data)) + AfterWrite(e, data).output == e.output + data
    ensures FullFrames(WriteFrames(e, data), e.outIndex, e.capacity)
    ensures AfterWrite(e, data) == e.(output := AfterWrite(e, data).output, outIndex := AfterWrite(e, data).outIndex)
    decreases |data|
  {
    hide FullFrames, Payloads, DataFrame, AfterWrite, WriteFrames, AfterChunk, ChunkFrames, ChunkSize;
    if data == [] {
      NoFrames(e.outIndex, e.capacity);
      WritingNothing(e);
    } else {
      WriteNext(e, data);
      var n := ChunkSize(e, |data|);
      var chunk, rest := data[..n], data[n..];
      var next := AfterChunk(e, chunk);
      ChunkIs(e, chunk);
      WriteConserves(next, rest);
      assert data == chunk + rest;
      AppendAssoc(e.output, chunk, rest);
      if |e.output| + n == e.capacity {
        OneMoreFull(e.outIndex, e.output + chunk, e.capacity, WriteFrames(next, rest));
        AppendAssoc(e.output + chunk, Payloads(WriteFrames(next, rest)), AfterWrite(next, rest).output);
      } else {
        assert [] + WriteFrames(next, rest) == WriteFrames(next, rest);
      }
    }
  }

  lemma WritingNothing(e: Endpoint)
    requires RoomLeft(e)
    ensures AfterWrite(e, []) == e && WriteFrames(e, []) == []
  {
  }

  lemma NoFrames(index: bv8, capacity: nat)
    ensures FullFrames([], index, capacity) && Payloads([]) == []
  {
  }

  // ---- what receiving does -----------------------------------------------------------------------

  function Acks(indices: seq<bv8>): (r: seq<Octets>)
    ensures |r| == |indices|
  {
    if indices == [] then [] else Acks(indices[..|indices| - 1]) + [AckFrame(indices[|indices| - 1])]
  }

  /** Without keep-alive, exactly the data frames are acknowledged, once each, in order, by their indices. */
  lemma {:induction false} RepliesAreAcks(index: bv8, frames: seq<Octets>)
    requires AllProper(frames)
    ensures Replies(false, index, frames) == Acks(Indices(frames))
  {
    hide AckFrame, IsAck;
    if frames != [] {
      var n := |frames| - 1;
      assert frames[n] in frames && forall f <- frames[..n] :: f in frames;
      RepliesAreAcks(index, frames[..n]);
      if !IsAck(frames[n]) {
        var i := frames[n][2];
        assert (Indices(frames[..n]) + [i])[..|Indices(frames[..n])|] == Indices(frames[..n]);
      } else {
        assert Indices(frames[..n]) + [] == Indices(frames[..n]);
      }
    }
  }

  /** A frame with bytes behind its header gives exactly these to the input, unless it is of four bytes of which the
      second is five; just such a frame is left unanswered without keep-alive. */
  lemma CarriesIff(e: Endpoint, f: Octets)
    requires |f| > 3
    ensures AfterFrame(e, f).input == e.input <==> |f| == 4 && f[1] == 0x05
    ensures Reply(false, e.inIndex, f) == [] <==> |f| == 4 && f[1] == 0x05
    ensures AfterFrame(e, f).input != e.input ==>
              AfterFrame(e, f).input == e.input + f[3..] && Reply(e.keepAlive, e.inIndex, f) == [[0x03, 0x05, f[2], 0x08]]
  {
    assert |e.input + f[3..]| > |e.input|;
  }

  /** With keep-alive every frame is answered, acknowledgements too, each with the index received last by then. */
  lemma {:induction false} KeepAliveReplies(index: bv8, frames: seq<Octets>, i: nat)
    requires AllProper(frames) && i < |frames|
    ensures |Replies(true, index, frames)| == |frames|
    ensures Replies(true, index, frames)[i] == AckFrame(LastIndex(index, frames[..i + 1]))
  {
    hide AckFrame, IsAck;
    var n := |frames| - 1;
    assert frames[n] in frames && forall f <- frames[..n] :: f in frames;
    assert frames[..n + 1] == frames;
    if n == 0 {
      assert frames[..0] == [];
    } else {
      KeepAliveReplies(index, frames[..n], if i < n then i else 0);
      assert i < n ==> frames[..n][..i + 1] == frames[..i + 1];
    }
  }

  /** The index received last is that of the last data frame, however many acknowledgements follow it. */
  lemma {:induction false} LastIndexIs(index: bv8, before: seq<Octets>, f: Octets, acks: seq<Octets>)
    requires |f| >= 3 && (|f| != 4 || f[1] != 0x05)
    requires forall i :: 0 <= i < |acks| ==> |acks[i]| == 4 && acks[i][1] == 0x05
    ensures LastIndex(index, acks) == index && LastIndex(index, before + [f] + acks) == f[2]
  {
    var frames := before + [f] + acks;
    if acks == [] {
      assert frames[|frames| - 1] == f;
    } else {
      var n := |acks| - 1;
      LastIndexIs(index, before, f, acks[..n]);
      assert frames[..|frames| - 1] == before + [f] + acks[..n];
    }
  }

  function Emptied(e: Endpoint): Endpoint {
    e.(input := [], cursor := 0)
  }

  /** What reading has done so far: the bytes read and those unread are the bytes that were unread and those of the
      frames received, in order; nothing of the sending side changed. */
  predicate HasRead(was: Endpoint, now: Endpoint, frames: seq<Octets>, out: Octets)
    requires was.cursor <= |was.input|
  {
    && now.cursor <= |now.input|
    && out + Unread(now) == Unread(was) + Payloads(frames)
    && now.inIndex == LastIndex(was.inIndex, frames)
    && now.output == was.output && now.outIndex == was.outIndex && now.capacity == was.capacity
    && now.keepAlive == was.keepAlive
  }

  lemma NothingRead(e: Endpoint)
    requires e.cursor <= |e.input|
    ensures HasRead(e, e, [], [])
  {
    assert [] + Unread(e) == Unread(e) + [];
  }

  lemma ReadEmptied(was: Endpoint, now: Endpoint, frames: seq<Octets>, out: Octets)
    requires was.cursor <= |was.input| && HasRead(was, now, frames, out) && now.cursor == |now.input|
    ensures HasRead(was, Emptied(now), frames, out)
  {
    hide Payloads, LastIndex;
    assert Unread(now) == [] == Unread(Emptied(now));
  }

  lemma LastIndexNext(index: bv8, frames: seq<Octets>, f: Octets)
    requires Proper(f)
    ensures LastIndex(index, frames + [f]) == if IsAck(f) then LastIndex(index, frames) else f[2]
  {
    assert (frames + [f])[..|frames|] == frames;
  }

  lemma ReadFrameToo(was: Endpoint, now: Endpoint, frames: seq<Octets>, out: Octets, f: Octets)
    requires was.cursor <= |was.input| && HasRead(was, now, frames, out) && Proper(f)
    ensures HasRead(was, AfterFrame(now, f), frames + [f], out)
  {
    hide Payloads, IsAck, LastIndex;
    PayloadsNext(frames, f);
    LastIndexNext(was.inIndex, frames, f);
    if IsAck(f) {
      assert Payloads(frames) + [] == Payloads(frames);
    } else {
      assert Unread(AfterFrame(now, f)) == Unread(now) + f[3..];
      AppendAssoc(out, Unread(now), f[3..]);
      AppendAssoc(Unread(was), Payloads(frames), f[3..]);
    }
  }

  lemma ReadCopied(was: Endpoint, now: Endpoint, frames: seq<Octets>, out: Octets, n: nat)
    requires was.cursor <= |was.input| && HasRead(was, now, frames, out) && n <= |Unread(now)|
    ensures HasRead(was, now.(cursor := now.cursor + n), frames, out + Unread(now)[..n])
  {
    hide Payloads, LastIndex;
    var after := now.(cursor := now.cursor + n);
    assert Unread(now) == Unread(now)[..n] + Unread(after);
    AppendAssoc(out, Unread(now)[..n], Unread(after));
  }

  lemma RepliesNext(keepAlive: bool, index: bv8, frames: seq<Octets>, f: Octets)
    requires AllProper(frames) && Proper(f)
    ensures AllProper(frames + [f])
    ensures Replies(keepAlive, index, frames + [f])
         == Replies(keepAlive, index, frames) + Reply(keepAlive, LastIndex(index, frames), f)
  {
    assert (frames + [f])[..|frames|] == frames;
  }

  // ---- the turns of the reading loop ----------------------------------------------------------------

  /** A turn of the reading loop takes a frame, once everything has been read, or hands out unread bytes. */
  datatype ReadTurn = Fetch(f: Octets) | Copy(n: nat)

  predicate CanTurn(e: Endpoint, t: ReadTurn) {
    match t
    case Fetch(f) => e.cursor == |e.input| && Proper(f)
    case Copy(n) => e.cursor <= |e.input| && n <= |Unread(e)|
  }

  function AfterTurn(e: Endpoint, t: ReadTurn): Endpoint
    requires CanTurn(e, t)
  {
    match t
    case Fetch(f) => AfterFrame(Emptied(e), f)
    case Copy(n) => e.(cursor := e.cursor + n)
  }

  predicate TurnsFit(e: Endpoint, turns: seq<ReadTurn>)
    decreases |turns|, 0
  {
    turns == [] || (TurnsFit(e, turns[..|turns| - 1]) && CanTurn(AfterTurns(e, turns[..|turns| - 1]), turns[|turns| - 1]))
  }

  function AfterTurns(e: Endpoint, turns: seq<ReadTurn>): Endpoint
    requires TurnsFit(e, turns)
    decreases |turns|, 1
  {
    if turns == [] then e else AfterTurn(AfterTurns(e, turns[..|turns| - 1]), turns[|turns| - 1])
  }

  /** The frames taken. */
  function Fetched(turns: seq<ReadTurn>): seq<Octets> {
    if turns == [] then []
    else
      var t := turns[|turns| - 1];
      Fetched(turns[..|turns| - 1]) + if t.Fetch? then [t.f] else []
  }

  /** The bytes handed out. */
  function Copied(e: Endpoint, turns: seq<ReadTurn>): Octets
    requires TurnsFit(e, turns)
  {
    if turns == [] then []
    else
      var t, front := turns[|turns| - 1], turns[..|turns| - 1];
      Copied(e, front) + if t.Copy? then Unread(AfterTurns(e, front))[..t.n] else []
  }

  predicate TurnsAre(was: Endpoint, now: Endpoint, turns: seq<ReadTurn>, frames: seq<Octets>, out: Octets) {
    TurnsFit(was, turns) && now == AfterTurns(was, turns) && frames == Fetched(turns) && out == Copied(was, turns)
  }

  lemma NoTurns(e: Endpoint)
    ensures TurnsAre(e, e, [], [], [])
  {
  }

  lemma TurnFront(turns: seq<ReadTurn>, t: ReadTurn)
    ensures (turns + [t])[..|turns + [t]| - 1] == turns && (turns + [t])[|turns + [t]| - 1] == t
  {
  }

  lemma FetchTurn(was: Endpoint, now: Endpoint, turns: seq<ReadTurn>, frames: seq<Octets>, out: Octets, f: Octets)
    requires TurnsAre(was, now, turns, frames, out) && now.cursor == |now.input| && Proper(f)
    ensures TurnsAre(was, AfterFrame(Emptied(now), f), turns + [Fetch(f)], frames + [f], out)
  {
    hide AfterFrame, Unread;
    TurnFront(turns, Fetch(f));
    assert out + [] == out;
  }

  lemma CopyTurn(was: Endpoint, now: Endpoint, turns: seq<ReadTurn>, frames: seq<Octets>, out: Octets, n: nat)
    requires TurnsAre(was, now, turns, frames, out) && now.cursor <= |now.input| && n <= |Unread(now)|
    ensures TurnsAre(was, now.(cursor := now.cursor + n), turns + [Copy(n)], frames, out + Unread(now)[..n])
  {
    hide AfterFrame, Unread;
    TurnFront(turns, Copy(n));
    assert frames + [] == frames;
  }
}
