/** Two ends of an MNP connection, once it is made, and the lines between them: turns of their loops in any order. */
module MnpSystem {
  import opened Sequences
  import opened MnpFrame
  import opened MnpEndpoint
  import opened MnpPipes

  /** An end, and what has happened to it: bytes its user wrote and read, frames it put on its line and took from the
      other. */
  datatype Peer = Peer(e: Endpoint, written: Octets, delivered: Octets, emitted: seq<Octets>, consumed: seq<Octets>)

  /** Turns of the loops: a chunk is put in the output buffer, and sent if that fills it; the buffer is sent; a frame is
      taken once all has been read; bytes are handed out; or a read stops, its buffer empty, without a frame. */
  datatype Action = Put(chunk: Octets) | Flush | Receive | Take(n: nat) | Stop

  datatype Side = Left | Right

  datatype System = System(left: Peer, right: Peer, toRight: Octets, toLeft: Octets)

  // ---- the steps of one end ---------------------------------------------------------------

  /** Whether an action can be taken by an end, with the bytes that are on the line to it. A frame is taken only when
      the input buffer has been read; a reader that finds no whole frame waits. */
  predicate Enabled(p: Peer, line: Octets, a: Action) {
    && RoomLeft(p.e) && p.e.cursor <= |p.e.input|
    && match a
       case Put(chunk) => |p.e.output| + |chunk| <= p.e.capacity
       case Flush => true
       case Receive => p.e.cursor == |p.e.input| && FrameAt(line, 0).Data? && Proper(FrameAt(line, 0).data)
                       && FrameAt(line, 0).next <= |line|
       case Take(n) => n <= |Unread(p.e)|
       case Stop => p.e.cursor == |p.e.input|
  }

  /** The frames an action puts on the line. */
  function Emits(p: Peer, line: Octets, a: Action): seq<Octets>
    requires Enabled(p, line, a)
  {
    match a
    case Put(chunk) => ChunkFrames(p.e, chunk)
    case Flush => [FrameToSend(p.e)]
    case Receive => Reply(p.e.keepAlive, p.e.inIndex, FrameAt(line, 0).data)
    case Take(_) => []
    case Stop => []
  }

  function Act(p: Peer, line: Octets, a: Action): Peer
    requires Enabled(p, line, a)
  {
    var emitted := p.emitted + Emits(p, line, a);
    match a
    case Put(chunk) => p.(e := AfterChunk(p.e, chunk), written := p.written + chunk, emitted := emitted)
    case Flush => p.(e := AfterSend(p.e), emitted := emitted)
    case Receive =>
      var f := FrameAt(line, 0).data;
      p.(e := AfterFrame(Emptied(p.e), f), consumed := p.consumed + [f], emitted := emitted)
    case Take(n) =>
      p.(e := p.e.(cursor := p.e.cursor + n), delivered := p.delivered + Unread(p.e)[..n], emitted := emitted)
    case Stop => p.(e := Emptied(p.e), emitted := emitted)
  }

  function LineAfter(p: Peer, line: Octets, a: Action): Octets
    requires Enabled(p, line, a)
  {
    if a.Receive? then line[FrameAt(line, 0).next..] else line
  }

  // ---- the steps of the system ----------------------------------------------------------------

  predicate Possible(s: System, side: Side, a: Action) {
    if side.Left? then Enabled(s.left, s.toLeft, a) else Enabled(s.right, s.toRight, a)
  }

  function Step(s: System, side: Side, a: Action): System
    requires Possible(s, side, a)
  {
    match side
    case Left =>
      System(Act(s.left, s.toLeft, a), s.right,
             s.toRight + Sent(Emits(s.left, s.toLeft, a)), LineAfter(s.left, s.toLeft, a))
    case Right =>
      System(s.left, Act(s.right, s.toRight, a),
             LineAfter(s.right, s.toRight, a), s.toLeft + Sent(Emits(s.right, s.toRight, a)))
  }

  predicate CanRun(s: System, run: seq<(Side, Action)>)
    decreases |run|
  {
    run == [] || (Possible(s, run[0].0, run[0].1) && CanRun(Step(s, run[0].0, run[0].1), run[1..]))
  }

  function After(s: System, run: seq<(Side, Action)>): System
    requires CanRun(s, run)
    decreases |run|
  {
    if run == [] then s else After(Step(s, run[0].0, run[0].1), run[1..])
  }

  function NewPeer(capacity: nat, keepAlive: bool): Peer {
    Peer(Endpoint(capacity, [], 1, [], 0, 1, keepAlive), [], [], [], [])
  }

  predicate Initial(s: System) {
    && s.toRight == [] && s.toLeft == []
    && s.left == NewPeer(s.left.e.capacity, s.left.e.keepAlive) && s.left.e.capacity > 0
    && s.right == NewPeer(s.right.e.capacity, s.right.e.keepAlive) && s.right.e.capacity > 0
  }

  // ---- what one end keeps ------------------------------------------------------------------------

  /** The acknowledgements among frames. */
  function OnlyAcks(frames: seq<Octets>): seq<Octets> {
    if frames == [] then []
    else
      var f := frames[|frames| - 1];
      OnlyAcks(frames[..|frames| - 1]) + if IsAck(f) then [f] else []
  }

  /** The index of the n-th data frame, from 0 on. */
  function IndexOf(n: nat): bv8 {
    if n == 0 then 1 else IndexOf(n - 1) + 1
  }

  function FirstIndices(n: nat): (r: seq<bv8>)
    ensures |r| == n
  {
    if n == 0 then [] else FirstIndices(n - 1) + [IndexOf(n - 1)]
  }

  predicate Numbered(frames: seq<Octets>, next: bv8) {
    && Indices(frames) == FirstIndices(|Indices(frames)|) && next == IndexOf(|Indices(frames)|)
  }

  predicate Buffers(p: Peer) {
    && RoomLeft(p.e) && p.e.cursor <= |p.e.input|
    && p.written == Payloads(p.emitted) + p.e.output
    && Payloads(p.consumed) == p.delivered + Unread(p.e)
  }

  predicate Frames(p: Peer) {
    && AllProper(p.emitted) && Numbered(p.emitted, p.e.outIndex)
    && (!p.e.keepAlive ==> OnlyAcks(p.emitted) == Acks(Indices(p.consumed)))
  }

  predicate Sound(p: Peer) {
    Buffers(p) && Frames(p)
  }

  lemma ActKeepsBuffers(p: Peer, line: Octets, a: Action)
    requires Buffers(p) && Enabled(p, line, a)
    ensures Buffers(Act(p, line, a))
  {
    hide FrameAt, Payloads, IsAck;
    PayloadsAppend(p.emitted, Emits(p, line, a));
    match a
    case Put(chunk) =>
      PutPayload(p.e, chunk);
      PutConserves(Payloads(p.emitted), p.e.output, chunk, Payloads(ChunkFrames(p.e, chunk)), AfterChunk(p.e, chunk).output);
    case Flush =>
      FramePayload(p.e);
      PutConserves(Payloads(p.emitted), p.e.output, [], p.e.output, []);
      assert p.written + [] == p.written;
    case Receive =>
      var f := FrameAt(line, 0).data;
      ReplyPayload(p.e.keepAlive, p.e.inIndex, f);
      PayloadsNext(p.consumed, f);
      assert Payloads(p.emitted) + [] == Payloads(p.emitted);
      ReceiveConserves(p.e, f, Payloads(p.consumed), p.delivered);
    case Take(n) =>
      NoPayload();
      assert Payloads(p.emitted) + [] == Payloads(p.emitted);
      TakeConserves(p.e, n, p.delivered);
    case Stop =>
      NoPayload();
      assert Payloads(p.emitted) + [] == Payloads(p.emitted);
      assert Unread(p.e) == Unread(Emptied(p.e)) == [];
  }

  lemma PutPayload(e: Endpoint, chunk: Octets)
    requires RoomLeft(e) && |e.output| + |chunk| <= e.capacity
    ensures Payloads(ChunkFrames(e, chunk)) + AfterChunk(e, chunk).output == e.output + chunk
  {
    hide Payloads, FrameToSend;
    FramePayload(e.(output := e.output + chunk));
    NoPayload();
  }

  lemma FramePayload(e: Endpoint)
    ensures Payloads([FrameToSend(e)]) == e.output
  {
    hide Payloads, PayloadOf, DataFrame;
    OnePayload(FrameToSend(e));
    DataFrameIs(e.outIndex, e.output);
  }

  lemma NoPayload()
    ensures Payloads([]) == []
  {
  }

  lemma ReplyPayload(keepAlive: bool, index: bv8, f: Octets)
    requires Proper(f)
    ensures Payloads(Reply(keepAlive, index, f)) == []
  {
    hide Payloads;
    OnePayload(AckFrame(f[2]));
    OnePayload(AckFrame(index));
    NoPayload();
  }

  lemma PutConserves(before: Octets, output: Octets, chunk: Octets, sent: Octets, left: Octets)
    requires sent + left == output + chunk
    ensures before + output + chunk == before + sent + left
  {
    AppendAssoc(before, output, chunk);
    AppendAssoc(before, sent, left);
  }

  lemma ReceiveConserves(e: Endpoint, f: Octets, consumed: Octets, delivered: Octets)
    requires e.cursor == |e.input| && Proper(f) && consumed == delivered + Unread(e)
    ensures consumed + PayloadOf(f) == delivered + Unread(AfterFrame(Emptied(e), f))
  {
    hide IsAck;
    assert Unread(e) == [] && delivered + [] == delivered;
    if IsAck(f) {
      assert Unread(Emptied(e)) == [];
    } else {
      assert Unread(AfterFrame(Emptied(e), f)) == [] + f[3..] == f[3..];
    }
  }

  lemma TakeConserves(e: Endpoint, n: nat, delivered: Octets)
    requires e.cursor <= |e.input| && n <= |Unread(e)|
    ensures delivered + Unread(e) == delivered + Unread(e)[..n] + Unread(e.(cursor := e.cursor + n))
  {
    assert Unread(e) == Unread(e)[..n] + Unread(e.(cursor := e.cursor + n));
  }

  lemma {:induction false} OnlyAcksAppend(a: seq<Octets>, b: seq<Octets>)
    ensures OnlyAcks(a + b) == OnlyAcks(a) + OnlyAcks(b)
  {
    hide IsAck;
    if b == [] {
      assert a + b == a;
    } else {
      var n := |b| - 1;
      assert (a + b)[..|a + b| - 1] == a + b[..n];
      OnlyAcksAppend(a, b[..n]);
      AppendAssoc(OnlyAcks(a), OnlyAcks(b[..n]), if IsAck(b[n]) then [b[n]] else []);
    }
  }

  lemma {:induction false} IndicesAppend(a: seq<Octets>, b: seq<Octets>)
    ensures Indices(a + b) == Indices(a) + Indices(b)
  {
    hide IsAck;
    if b == [] {
      assert a + b == a;
    } else {
      var n := |b| - 1;
      assert (a + b)[..|a + b| - 1] == a + b[..n];
      IndicesAppend(a, b[..n]);
      AppendAssoc(Indices(a), Indices(b[..n]), if IsAck(b[n]) || !Proper(b[n]) then [] else [b[n][2]]);
    }
  }

  lemma OneFrame(f: Octets)
    requires Proper(f)
    ensures Indices([f]) == if IsAck(f) then [] else [f[2]]
    ensures OnlyAcks([f]) == if IsAck(f) then [f] else []
    ensures Indices([]) == [] && OnlyAcks([]) == []
  {
    hide IsAck;
    assert [f][..0] == [];
  }

  lemma AcksNext(indices: seq<bv8>, i: bv8)
    ensures Acks(indices + [i]) == Acks(indices) + [AckFrame(i)]
  {
    assert (indices + [i])[..|indices|] == indices;
  }

  /** A data frame takes the next number. */
  lemma DataEmitted(emitted: seq<Octets>, index: bv8, data: Octets)
    requires AllProper(emitted) && Numbered(emitted, index)
    ensures AllProper(emitted + [DataFrame(index, data)]) && Numbered(emitted + [DataFrame(index, data)], index + 1)
    ensures OnlyAcks(emitted + [DataFrame(index, data)]) == OnlyAcks(emitted)
  {
    hide DataFrame, IsAck, Proper, Indices, OnlyAcks;
    var f := DataFrame(index, data);
    DataFrameIs(index, data);
    OneFrame(f);
    IndicesAppend(emitted, [f]);
    OnlyAcksAppend(emitted, [f]);
    assert OnlyAcks(emitted) + [] == OnlyAcks(emitted);
  }

  /** An acknowledgement takes no number. */
  lemma AckEmitted(emitted: seq<Octets>, next: bv8, index: bv8)
    requires AllProper(emitted) && Numbered(emitted, next)
    ensures AllProper(emitted + [AckFrame(index)]) && Numbered(emitted + [AckFrame(index)], next)
    ensures OnlyAcks(emitted + [AckFrame(index)]) == OnlyAcks(emitted) + [AckFrame(index)]
  {
    hide Indices, OnlyAcks;
    var f := AckFrame(index);
    OneFrame(f);
    IndicesAppend(emitted, [f]);
    OnlyAcksAppend(emitted, [f]);
    assert Indices(emitted) + [] == Indices(emitted);
  }

  lemma ConsumedNext(consumed: seq<Octets>, f: Octets)
    requires Proper(f)
    ensures Acks(Indices(consumed + [f])) == Acks(Indices(consumed)) + if IsAck(f) then [] else [AckFrame(f[2])]
  {
    hide IsAck, AckFrame, Indices, Acks;
    OneFrame(f);
    IndicesAppend(consumed, [f]);
    if IsAck(f) {
      assert Indices(consumed) + [] == Indices(consumed);
      assert Acks(Indices(consumed)) + [] == Acks(Indices(consumed));
    } else {
      AcksNext(Indices(consumed), f[2]);
    }
  }

  lemma ActKeepsFrames(p: Peer, line: Octets, a: Action)
    requires Frames(p) && Enabled(p, line, a)
    ensures Frames(Act(p, line, a))
  {
    hide FrameAt, IsAck, Indices, OnlyAcks, Acks, Numbered, AckFrame, DataFrame;
    match a
    case Put(chunk) =>
      DataEmitted(p.emitted, p.e.outIndex, p.e.output + chunk);
      assert p.emitted + [] == p.emitted;
    case Flush => DataEmitted(p.emitted, p.e.outIndex, p.e.output);
    case Receive =>
      var f := FrameAt(line, 0).data;
      AckEmitted(p.emitted, p.e.outIndex, p.e.inIndex);
      AckEmitted(p.emitted, p.e.outIndex, f[2]);
      ConsumedNext(p.consumed, f);
      assert p.emitted + [] == p.emitted && OnlyAcks(p.emitted) + [] == OnlyAcks(p.emitted);
    case Take(n) => assert p.emitted + [] == p.emitted;
    case Stop => assert p.emitted + [] == p.emitted;
  }

  // ---- the lines --------------------------------------------------------------------------------------

  /** The whole frames on a line. */
  function OnLine(line: Octets): seq<Octets>
    decreases |line|
  {
    if FrameAt(line, 0).Data? && 0 < FrameAt(line, 0).next <= |line| then
      [FrameAt(line, 0).data] + OnLine(line[FrameAt(line, 0).next..])
    else []
  }

  lemma {:induction false} OnLineIs(frames: seq<Octets>)
    ensures OnLine(Sent(frames)) == frames
    decreases |frames|
  {
    hide FrameAt, Sent, Frame;
    if frames == [] {
      NothingReceived();
    } else {
      FirstReceived(frames);
      FrameNotEmpty(frames[0]);
      OnLineIs(frames[1..]);
      assert [frames[0]] + frames[1..] == frames;
    }
  }

  lemma FrameNotEmpty(data: Octets)
    ensures |Frame(data)| > 0
  {
    hide Tail;
  }

  /** The line holds, as whole frames and nothing else, what was put on it and has not been taken from it. */
  predicate Carries(line: Octets, from: Peer, to: Peer) {
    from.emitted == to.consumed + OnLine(line) && line == Sent(OnLine(line))
  }

  lemma CarriesMore(line: Octets, from: Peer, to: Peer, more: seq<Octets>)
    requires Carries(line, from, to)
    ensures Carries(line + Sent(more), from.(emitted := from.emitted + more), to)
  {
    hide Sent, OnLine;
    SentAppend(OnLine(line), more);
    OnLineIs(OnLine(line) + more);
    AppendAssoc(to.consumed, OnLine(line), more);
  }

  /** Of a line that is not empty the first frame is there, whole, and the receiver takes it. */
  lemma {:induction false} FrameReady(line: Octets, from: Peer, to: Peer)
    requires Carries(line, from, to) && AllProper(from.emitted) && line != []
    ensures FrameAt(line, 0).Data? && Proper(FrameAt(line, 0).data) && 0 < FrameAt(line, 0).next <= |line|
    ensures OnLine(line) != [] && FrameAt(line, 0).data == OnLine(line)[0]
    ensures line[FrameAt(line, 0).next..] == Sent(OnLine(line)[1..])
  {
    hide FrameAt, Frame;
    var frames := OnLine(line);
    if frames == [] {
      NothingReceived();
    } else {
      FirstReceived(frames);
      FrameNotEmpty(frames[0]);
      assert frames[0] == from.emitted[|to.consumed|] && from.emitted[|to.consumed|] in from.emitted;
    }
  }

  lemma {:induction false} CarriesLess(line: Octets, from: Peer, to: Peer)
    requires Carries(line, from, to) && AllProper(from.emitted) && line != []
    ensures Carries(line[FrameAt(line, 0).next..], from, to.(consumed := to.consumed + [FrameAt(line, 0).data]))
  {
    hide FrameAt, Sent, OnLine;
    FrameReady(line, from, to);
    var frames := OnLine(line);
    OnLineIs(frames[1..]);
    assert to.consumed + [frames[0]] + frames[1..] == to.consumed + frames;
  }

  // ---- the invariant of the system ---------------------------------------------------------------------

  predicate Inv(s: System) {
    && Sound(s.left) && Sound(s.right)
    && Carries(s.toRight, s.left, s.right) && Carries(s.toLeft, s.right, s.left)
  }

  lemma InitialInv(s: System)
    requires Initial(s)
    ensures Inv(s)
  {
    hide FrameAt, Sound;
    NothingReceived();
    NewPeerSound(s.left.e.capacity, s.left.e.keepAlive);
    NewPeerSound(s.right.e.capacity, s.right.e.keepAlive);
  }

  lemma NewPeerSound(capacity: nat, keepAlive: bool)
    requires capacity > 0
    ensures Sound(NewPeer(capacity, keepAlive))
  {
    NothingRead(NewPeer(capacity, keepAlive).e);
  }

  /** One end acts: it stays sound, and both lines still carry what they should. */
  lemma {:induction false} ActKeeps(p: Peer, q: Peer, line: Octets, back: Octets, a: Action)
    requires Sound(p) && Sound(q) && Carries(line, q, p) && Carries(back, p, q) && Enabled(p, line, a)
    ensures Sound(Act(p, line, a))
    ensures Carries(LineAfter(p, line, a), q, Act(p, line, a))
    ensures Carries(back + Sent(Emits(p, line, a)), Act(p, line, a), q)
  {
    hide FrameAt, Buffers, Sent, OnLine, AfterFrame, AfterChunk, AfterSend, ChunkFrames, Reply, FrameToSend;
    ActKeepsBuffers(p, line, a);
    ActKeepsFrames(p, line, a);
    CarriesMore(back, p, q, Emits(p, line, a));
    if a.Receive? {
      LineNotEmpty(line);
      CarriesLess(line, q, p);
    }
  }

  lemma LineNotEmpty(line: Octets)
    requires FrameAt(line, 0).Data?
    ensures line != []
  {
    NothingReceived();
  }

  lemma {:induction false} StepKeepsInv(s: System, side: Side, a: Action)
    requires Inv(s) && Possible(s, side, a)
    ensures Inv(Step(s, side, a))
  {
    hide Sound, Carries, Act, Emits, LineAfter, Enabled, Sent;
    match side
    case Left => ActKeeps(s.left, s.right, s.toLeft, s.toRight, a);
    case Right => ActKeeps(s.right, s.left, s.toRight, s.toLeft, a);
  }

  lemma {:induction false} RunKeepsInv(s: System, run: seq<(Side, Action)>)
    requires Inv(s) && CanRun(s, run)
    ensures Inv(After(s, run))
    decreases |run|
  {
    hide Inv, Step, Possible;
    if run != [] {
      StepKeepsInv(s, run[0].0, run[0].1);
      RunKeepsInv(Step(s, run[0].0, run[0].1), run[1..]);
    }
  }

  // ---- what that means for the users ---------------------------------------------------------------------

  /** Everything written by one end is, in order: read by the other, waiting in its input buffer, on the line, or
      waiting in the output buffer. */
  predicate Conserved(from: Peer, to: Peer, line: Octets)
    requires to.e.cursor <= |to.e.input|
  {
    from.written == to.delivered + Unread(to.e) + Payloads(OnLine(line)) + from.e.output
  }

  /** The data frames are numbered 1, 2 and so on modulo 256 and arrive in order; each one that has arrived has been
      acknowledged once, in order, by its number, and the acknowledgements have come back or are on their way. */
  predicate Acknowledged(from: Peer, to: Peer, line: Octets, back: Octets) {
    && Indices(to.consumed) + Indices(OnLine(line)) == FirstIndices(|Indices(from.emitted)|)
    && from.e.outIndex == IndexOf(|Indices(from.emitted)|)
    && (!to.e.keepAlive ==> OnlyAcks(from.consumed) + OnlyAcks(OnLine(back)) == Acks(Indices(to.consumed)))
  }

  /** No receiver ever meets bytes that are no frame, or a frame it cannot take. */
  predicate NeverRefused(line: Octets) {
    line == [] || (FrameAt(line, 0).Data? && Proper(FrameAt(line, 0).data))
  }

  /** One direction, from an end to the other, with the line between them and the line back. */
  predicate Honest(from: Peer, to: Peer, line: Octets, back: Octets) {
    && to.e.cursor <= |to.e.input| && Conserved(from, to, line)
    && Acknowledged(from, to, line, back) && NeverRefused(line)
  }

  lemma {:induction false} SoundConserves(from: Peer, to: Peer, line: Octets, back: Octets)
    requires Sound(from) && Sound(to) && Carries(line, from, to) && Carries(back, to, from)
    ensures Honest(from, to, line, back)
  {
    hide FrameAt, Payloads, OnLine, Sent, Indices, OnlyAcks, Acks, AllProper, RoomLeft, Proper, Unread;
    if line != [] {
      FrameReady(line, from, to);
    }
    PayloadsAppend(to.consumed, OnLine(line));
    IndicesAppend(to.consumed, OnLine(line));
    OnlyAcksAppend(from.consumed, OnLine(back));
  }

  /** Every run of the two ends, in any interleaving, conserves the bytes in both directions, acknowledges exactly the
      data frames that arrived, and never leaves a receiver with bytes it cannot take. */
  lemma {:induction false} EveryRunConserves(s: System, run: seq<(Side, Action)>)
    requires Initial(s) && CanRun(s, run)
    ensures Honest(After(s, run).left, After(s, run).right, After(s, run).toRight, After(s, run).toLeft)
    ensures Honest(After(s, run).right, After(s, run).left, After(s, run).toLeft, After(s, run).toRight)
  {
    InitialInv(s);
    RunKeepsInv(s, run);
    var t := After(s, run);
    SoundConserves(t.left, t.right, t.toRight, t.toLeft);
    SoundConserves(t.right, t.left, t.toLeft, t.toRight);
    hide *;
  }

  /** Everything written has been read or waits to be read, and every data frame has been acknowledged. */
  predicate Arrived(from: Peer, to: Peer) {
    && to.e.cursor <= |to.e.input| && from.written == to.delivered + Unread(to.e)
    && Indices(to.consumed) == FirstIndices(|Indices(from.emitted)|)
    && (!to.e.keepAlive ==> OnlyAcks(from.consumed) == Acks(Indices(to.consumed)))
  }

  /** Once a direction is quiet, everything written in it has arrived and been acknowledged. */
  lemma {:induction false} QuietMeansArrived(s: System, run: seq<(Side, Action)>)
    requires Initial(s) && CanRun(s, run)
    requires After(s, run).toRight == [] && After(s, run).toLeft == [] && After(s, run).left.e.output == []
    ensures Arrived(After(s, run).left, After(s, run).right)
  {
    hide FrameAt, After, CanRun, Initial, Sent;
    EveryRunConserves(s, run);
    NothingReceived();
    OnLineIs([]);
    var t := After(s, run);
    QuietParts(t);
  }

  lemma QuietParts(t: System)
    ensures Payloads([]) == [] && Indices([]) == [] && OnlyAcks([]) == []
    ensures Indices(t.right.consumed) + [] == Indices(t.right.consumed)
    ensures OnlyAcks(t.left.consumed) + [] == OnlyAcks(t.left.consumed)
  {
  }

  /** The number of the n-th data frame. */
  lemma {:induction false} IndexIs(n: nat)
    ensures IndexOf(n) as int == (1 + n) % 256
  {
    if n > 0 {
      IndexIs(n - 1);
      NextIndex(IndexOf(n - 1));
      NextModulo(n);
    }
  }

  lemma NextModulo(n: nat)
    ensures (n % 256 + 1) % 256 == (1 + n) % 256
  {
  }

  lemma NextIndex(i: bv8)
    ensures (i + 1) as int == (i as int + 1) % 256
  {
  }
}
