/** The operations of the pipe are runs of the system: a write is a run of puts, a read one of receives and takes. */
module MnpRuns {
  import opened Sequences
  import opened MnpFrame
  import opened MnpEndpoint
  import opened MnpPipes
  import opened MnpSystem

  // ---- the system seen from one end ----------------------------------------------------------------

  function PeerOf(s: System, side: Side): Peer {
    if side.Left? then s.left else s.right
  }

  function LineTo(s: System, side: Side): Octets {
    if side.Left? then s.toLeft else s.toRight
  }

  function LineFrom(s: System, side: Side): Octets {
    if side.Left? then s.toRight else s.toLeft
  }

  /** The system with one end, what is on the line to it and what is on the line from it replaced. */
  function With(s: System, side: Side, p: Peer, to: Octets, from: Octets): System {
    if side.Left? then System(p, s.right, from, to) else System(s.left, p, to, from)
  }

  lemma StepIs(s: System, side: Side, a: Action)
    requires Enabled(PeerOf(s, side), LineTo(s, side), a)
    ensures Possible(s, side, a)
    ensures Step(s, side, a)
         == With(s, side, Act(PeerOf(s, side), LineTo(s, side), a), LineAfter(PeerOf(s, side), LineTo(s, side), a),
                 LineFrom(s, side) + Sent(Emits(PeerOf(s, side), LineTo(s, side), a)))
  {
    hide Enabled, Act, LineAfter, Emits, Sent;
  }

  lemma {:induction false} RunMore(s: System, run: seq<(Side, Action)>, side: Side, a: Action)
    requires CanRun(s, run) && Possible(After(s, run), side, a)
    ensures CanRun(s, run + [(side, a)]) && After(s, run + [(side, a)]) == Step(After(s, run), side, a)
    decreases |run|
  {
    hide Possible, Step;
    if run == [] {
      assert run + [(side, a)] == [(side, a)] && [(side, a)][1..] == [];
    } else {
      RunMore(Step(s, run[0].0, run[0].1), run[1..], side, a);
      assert (run + [(side, a)])[1..] == run[1..] + [(side, a)];
    }
  }

  // ---- writing --------------------------------------------------------------------------------------

  function WriteRun(side: Side, e: Endpoint, data: Octets): seq<(Side, Action)>
    requires RoomLeft(e)
    decreases |data|
  {
    if data == [] then []
    else
      var n := ChunkSize(e, |data|);
      [(side, Put(data[..n]))] + WriteRun(side, AfterChunk(e, data[..n]), data[n..])
  }

  /** The system after one end has written: its pipe as the pipe's Write leaves it, and on the line what that sends. */
  function Wrote(s: System, side: Side, data: Octets): System
    requires RoomLeft(PeerOf(s, side).e)
  {
    var p := PeerOf(s, side);
    var frames := WriteFrames(p.e, data);
    With(s, side, p.(e := AfterWrite(p.e, data), written := p.written + data, emitted := p.emitted + frames),
         LineTo(s, side), LineFrom(s, side) + Sent(frames))
  }

  lemma WroteNothing(s: System, side: Side)
    requires RoomLeft(PeerOf(s, side).e)
    ensures Wrote(s, side, []) == s
  {
    var p := PeerOf(s, side);
    SentNone();
    assert p.written + [] == p.written && p.emitted + [] == p.emitted && LineFrom(s, side) + [] == LineFrom(s, side);
  }

  lemma WroteMore(s: System, side: Side, data: Octets, n: nat)
    requires RoomLeft(PeerOf(s, side).e) && data != [] && n == ChunkSize(PeerOf(s, side).e, |data|)
    requires PeerOf(s, side).e.cursor <= |PeerOf(s, side).e.input|
    ensures Possible(s, side, Put(data[..n])) && RoomLeft(PeerOf(Step(s, side, Put(data[..n])), side).e)
    ensures PeerOf(Step(s, side, Put(data[..n])), side).e == AfterChunk(PeerOf(s, side).e, data[..n])
    ensures Wrote(Step(s, side, Put(data[..n])), side, data[n..]) == Wrote(s, side, data)
  {
    hide Step, Possible, Sent, AfterChunk, ChunkFrames, FrameAt;
    var p := PeerOf(s, side);
    var chunk, rest := data[..n], data[n..];
    StepIs(s, side, Put(chunk));
    assert chunk + rest == data;
    AppendAssoc(p.written, chunk, rest);
    ChunkWritten(p.e, data, n, p.emitted, LineFrom(s, side));
    var frames, later := ChunkFrames(p.e, chunk), WriteFrames(AfterChunk(p.e, chunk), rest);
    SentAppend(frames, later);
    AppendAssoc(LineFrom(s, side), Sent(frames), Sent(later));
    AppendAssoc([], frames, later);
  }

  lemma ChunkKeepsInput(e: Endpoint, chunk: Octets)
    requires RoomLeft(e) && |e.output| + |chunk| <= e.capacity
    ensures AfterChunk(e, chunk).input == e.input && AfterChunk(e, chunk).cursor == e.cursor
  {
  }

  /** Write is a run of puts. */
  lemma {:induction false} WriteIsRun(s: System, side: Side, data: Octets)
    requires RoomLeft(PeerOf(s, side).e) && PeerOf(s, side).e.cursor <= |PeerOf(s, side).e.input|
    ensures CanRun(s, WriteRun(side, PeerOf(s, side).e, data))
    ensures After(s, WriteRun(side, PeerOf(s, side).e, data)) == Wrote(s, side, data)
    decreases |data|
  {
    hide Step, Possible, Wrote, AfterChunk, PeerOf;
    if data == [] {
      WroteNothing(s, side);
    } else {
      var e := PeerOf(s, side).e;
      var n := ChunkSize(e, |data|);
      WroteMore(s, side, data, n);
      ChunkKeepsInput(e, data[..n]);
      var run := WriteRun(side, e, data);
      assert run[0] == (side, Put(data[..n])) && run[1..] == WriteRun(side, AfterChunk(e, data[..n]), data[n..]);
      WriteIsRun(Step(s, side, Put(data[..n])), side, data[n..]);
    }
  }

  // ---- frames at a position and frames of what is left of a line ---------------------------------------

  /** What was received from the rest of a line, with the position on the whole of it. */
  function Later(r: Received, k: nat): Received {
    if r.Data? then Data(r.data, r.next + k) else r
  }

  lemma {:induction false} SkipLater(s: Octets, k: nat, pos: nat)
    requires k <= |s|
    ensures SkipSyns(s, k + pos) == k + SkipSyns(s[k..], pos)
    decreases |s| - pos
  {
    if k + pos < |s| && s[k + pos] == SYN {
      SkipLater(s, k, pos + 1);
    }
  }

  lemma {:induction false} BodyLater(s: Octets, k: nat, pos: nat, data: Octets)
    requires k <= |s|
    ensures BodyAt(s, k + pos, data) == Later(BodyAt(s[k..], pos, data), k)
    decreases |s| - pos
  {
    hide FrameCrc;
    if k + pos < |s| {
      if s[k + pos] != DLE {
        BodyLater(s, k, pos + 1, data + [s[k + pos]]);
      } else if k + pos + 1 < |s| && s[k + pos + 1] == DLE {
        BodyLater(s, k, pos + 2, data + [DLE]);
      }
    }
  }

  lemma FrameLater(s: Octets, k: nat, pos: nat)
    requires k <= |s|
    ensures FrameAt(s, k + pos) == Later(FrameAt(s[k..], pos), k)
  {
    hide BodyAt;
    SkipLater(s, k, pos);
    BodyLater(s, k, SkipSyns(s[k..], pos) + 2, []);
  }

  /** Frames on a line from a position on are those on the rest of the line. */
  lemma {:induction false} FramesLater(s: Octets, k: nat, n: nat)
    requires k <= |s| && FramesAt(s, k, n).Batch?
    ensures FramesAt(s[k..], 0, n).Batch? && FramesAt(s[k..], 0, n).frames == FramesAt(s, k, n).frames
    ensures FramesAt(s, k, n).next == k + FramesAt(s[k..], 0, n).next
  {
    hide FrameAt;
    if n > 0 {
      FramesLater(s, k, n - 1);
      FrameLater(s, k, FramesAt(s[k..], 0, n - 1).next);
    }
  }

  lemma {:induction false} FramesInside(s: Octets, n: nat)
    requires FramesAt(s, 0, n).Batch?
    ensures FramesAt(s, 0, n).next <= |s|
  {
    hide FrameAt, Tail;
    if n > 0 {
      var p := FramesAt(s, 0, n - 1).next;
      LineAccepted(s, p, FrameAt(s, p).data, FrameAt(s, p).next);
    }
  }

  // ---- reading ------------------------------------------------------------------------------------------

  function ActionOf(t: ReadTurn): Action {
    match t
    case Fetch(_) => Receive
    case Copy(n) => Take(n)
  }

  function ReadRun(side: Side, turns: seq<ReadTurn>): (r: seq<(Side, Action)>)
    ensures |r| == |turns|
  {
    if turns == [] then [] else ReadRun(side, turns[..|turns| - 1]) + [(side, ActionOf(turns[|turns| - 1]))]
  }

  /** The turns take the first frames of a line, whole. */
  predicate FetchesFrom(line: Octets, turns: seq<ReadTurn>, next: nat) {
    FramesAt(line, 0, |Fetched(turns)|) == Batch(Fetched(turns), next) && AllProper(Fetched(turns))
  }

  /** The end after the turns of a read: its pipe as the turns leave it, with what was handed out and the replies. */
  function Reader(p: Peer, turns: seq<ReadTurn>): Peer
    requires TurnsFit(p.e, turns) && AllProper(Fetched(turns))
  {
    p.(e := AfterTurns(p.e, turns), delivered := p.delivered + Copied(p.e, turns),
       consumed := p.consumed + Fetched(turns),
       emitted := p.emitted + Replies(p.e.keepAlive, p.e.inIndex, Fetched(turns)))
  }

  /** The system after the turns of a read at one end. */
  function HasReadFrom(s: System, side: Side, turns: seq<ReadTurn>, next: nat): System
    requires TurnsFit(PeerOf(s, side).e, turns) && AllProper(Fetched(turns)) && next <= |LineTo(s, side)|
  {
    var p := PeerOf(s, side);
    With(s, side, Reader(p, turns), LineTo(s, side)[next..],
         LineFrom(s, side) + Sent(Replies(p.e.keepAlive, p.e.inIndex, Fetched(turns))))
  }

  lemma ReadNothing(s: System, side: Side)
    ensures HasReadFrom(s, side, [], 0) == s
  {
    var p := PeerOf(s, side);
    SentNone();
    assert p.delivered + [] == p.delivered && p.consumed + [] == p.consumed && p.emitted + [] == p.emitted;
    assert LineFrom(s, side) + [] == LineFrom(s, side) && LineTo(s, side)[0..] == LineTo(s, side);
  }

  /** The sending side is none of a reader's business, and it remembers the index received last. */
  lemma {:induction false} TurnsKeep(e: Endpoint, turns: seq<ReadTurn>)
    requires TurnsFit(e, turns) && AllProper(Fetched(turns))
    ensures AfterTurns(e, turns).output == e.output && AfterTurns(e, turns).capacity == e.capacity
    ensures AfterTurns(e, turns).outIndex == e.outIndex && AfterTurns(e, turns).keepAlive == e.keepAlive
    ensures AfterTurns(e, turns).inIndex == LastIndex(e.inIndex, Fetched(turns))
  {
    if turns != [] {
      var front, t := turns[..|turns| - 1], turns[|turns| - 1];
      ProperFront(turns);
      TurnsKeep(e, front);
      if t.Fetch? {
        LastIndexNext(e.inIndex, Fetched(front), t.f);
      } else {
        assert Fetched(front) + [] == Fetched(front);
      }
    }
  }

  lemma ProperFront(turns: seq<ReadTurn>)
    requires turns != [] && AllProper(Fetched(turns))
    ensures AllProper(Fetched(turns[..|turns| - 1]))
  {
    hide Proper;
    var front := Fetched(turns[..|turns| - 1]);
    assert forall f <- front :: f in Fetched(turns);
  }

  lemma CopyStep(s: System, was: System, side: Side, turns: seq<ReadTurn>, next: nat, n: nat)
    requires TurnsFit(PeerOf(was, side).e, turns + [Copy(n)]) && AllProper(Fetched(turns)) && next <= |LineTo(was, side)|
    requires TurnsFit(PeerOf(was, side).e, turns) && RoomLeft(PeerOf(was, side).e)
    requires s == HasReadFrom(was, side, turns, next)
    ensures Fetched(turns + [Copy(n)]) == Fetched(turns)
    ensures Possible(s, side, Take(n)) && Step(s, side, Take(n)) == HasReadFrom(was, side, turns + [Copy(n)], next)
  {
    hide Possible, Step, FrameAt, Sent, Replies, AllProper;
    var p := PeerOf(was, side);
    TurnFront(turns, Copy(n));
    TurnsKeep(p.e, turns);
    assert Fetched(turns) + [] == Fetched(turns);
    StepIs(s, side, Take(n));
    SentNone();
    var now := PeerOf(s, side);
    assert now.emitted + [] == now.emitted && LineFrom(s, side) + [] == LineFrom(s, side);
    AppendAssoc(p.delivered, Copied(p.e, turns), Unread(now.e)[..n]);
  }

  lemma FetchedMore(turns: seq<ReadTurn>, f: Octets)
    requires AllProper(Fetched(turns)) && Proper(f)
    ensures Fetched(turns + [Fetch(f)]) == Fetched(turns) + [f] && AllProper(Fetched(turns + [Fetch(f)]))
  {
    TurnFront(turns, Fetch(f));
  }

  lemma NextOnLine(line: Octets, next: nat, f: Octets, after: nat)
    requires next <= |line| && FrameAt(line, next) == Data(f, after)
    ensures next <= after <= |line| && FrameAt(line[next..], 0) == Data(f, after - next)
    ensures line[next..][after - next..] == line[after..]
  {
    hide FrameAt, Tail;
    FrameLater(line, next, 0);
    LineAccepted(line, next, f, after);
  }

  lemma RepliedMore(p: Peer, turns: seq<ReadTurn>, f: Octets, sent: Octets)
    requires AllProper(Fetched(turns)) && Proper(f)
    ensures AllProper(Fetched(turns) + [f])
    ensures var was, reply := Replies(p.e.keepAlive, p.e.inIndex, Fetched(turns)), Reply(p.e.keepAlive, LastIndex(p.e.inIndex, Fetched(turns)), f);
            && Replies(p.e.keepAlive, p.e.inIndex, Fetched(turns) + [f]) == was + reply
            && sent + Sent(was) + Sent(reply) == sent + Sent(was + reply)
            && p.emitted + was + reply == p.emitted + (was + reply)
            && p.consumed + Fetched(turns) + [f] == p.consumed + (Fetched(turns) + [f])
  {
    hide Sent, Replies, Reply, LastIndex;
    var was, reply := Replies(p.e.keepAlive, p.e.inIndex, Fetched(turns)), Reply(p.e.keepAlive, LastIndex(p.e.inIndex, Fetched(turns)), f);
    RepliesNext(p.e.keepAlive, p.e.inIndex, Fetched(turns), f);
    SentAppend(was, reply);
    AppendAssoc(sent, Sent(was), Sent(reply));
    AppendAssoc(p.emitted, was, reply);
    AppendAssoc(p.consumed, Fetched(turns), [f]);
  }

  lemma FetchStep(s: System, was: System, side: Side, turns: seq<ReadTurn>, next: nat, f: Octets, after: nat)
    requires TurnsFit(PeerOf(was, side).e, turns + [Fetch(f)]) && AllProper(Fetched(turns)) && next <= |LineTo(was, side)|
    requires TurnsFit(PeerOf(was, side).e, turns) && RoomLeft(PeerOf(was, side).e)
    requires s == HasReadFrom(was, side, turns, next) && FrameAt(LineTo(was, side), next) == Data(f, after)
    ensures AllProper(Fetched(turns + [Fetch(f)])) && after <= |LineTo(was, side)|
    ensures Possible(s, side, Receive) && Step(s, side, Receive) == HasReadFrom(was, side, turns + [Fetch(f)], after)
  {
    hide Possible, Step, FrameAt, Sent, Replies, AllProper, Reply, AfterFrame, LastIndex, Proper;
    var p := PeerOf(was, side);
    TurnFront(turns, Fetch(f));
    FetchedMore(turns, f);
    TurnsKeep(p.e, turns);
    NextOnLine(LineTo(was, side), next, f, after);
    RepliedMore(p, turns, f, LineFrom(was, side));
    assert Copied(p.e, turns) + [] == Copied(p.e, turns);
    assert |LineTo(s, side)| == |LineTo(was, side)| - next;
    StepIs(s, side, Receive);
  }

  /** The turns of a read are a run of the system. */
  lemma {:induction false} ReadIsRun(s: System, side: Side, turns: seq<ReadTurn>, next: nat)
    requires RoomLeft(PeerOf(s, side).e) && TurnsFit(PeerOf(s, side).e, turns)
    requires FetchesFrom(LineTo(s, side), turns, next)
    ensures next <= |LineTo(s, side)| && CanRun(s, ReadRun(side, turns))
    ensures After(s, ReadRun(side, turns)) == HasReadFrom(s, side, turns, next)
    decreases |turns|
  {
    hide FrameAt, Possible, Step, HasReadFrom, AllProper, AfterTurn, CanTurn, RoomLeft;
    if turns == [] {
      ReadNothing(s, side);
    } else {
      var n := |turns| - 1;
      var front, t := turns[..n], turns[n];
      assert front + [t] == turns;
      ProperFront(turns);
      var line := LineTo(s, side);
      match t
      case Copy(k) =>
        assert Fetched(turns) == Fetched(front) + [] == Fetched(front);
        ReadIsRun(s, side, front, next);
        CopyStep(After(s, ReadRun(side, front)), s, side, front, next, k);
        RunMore(s, ReadRun(side, front), side, Take(k));
      case Fetch(f) =>
        var before := FramesAt(line, 0, |Fetched(front)|).next;
        FetchedLast(line, front, f, next);
        ReadIsRun(s, side, front, before);
        FetchStep(After(s, ReadRun(side, front)), s, side, front, before, f, next);
        RunMore(s, ReadRun(side, front), side, Receive);
    }
  }

  lemma FetchedLast(line: Octets, front: seq<ReadTurn>, f: Octets, next: nat)
    requires FetchesFrom(line, front + [Fetch(f)], next) && AllProper(Fetched(front))
    ensures FramesAt(line, 0, |Fetched(front)|).Batch?
    ensures FetchesFrom(line, front, FramesAt(line, 0, |Fetched(front)|).next)
    ensures FrameAt(line, FramesAt(line, 0, |Fetched(front)|).next) == Data(f, next)
  {
    hide FrameAt, AllProper;
    TurnFront(front, Fetch(f));
    var all := Fetched(front + [Fetch(f)]);
    assert all == Fetched(front) + [f];
    var m := |Fetched(front)|;
    var before := FramesAt(line, 0, m);
    assert before.frames + [FrameAt(line, before.next).data] == all;
    assert all[..m] == Fetched(front) && all[m] == f;
    FramesCounted(line, 0, m);
  }

  lemma {:induction false} FramesCounted(s: Octets, pos: nat, n: nat)
    ensures FramesAt(s, pos, n).Batch? ==> |FramesAt(s, pos, n).frames| == n
  {
    hide FrameAt;
    if n > 0 {
      FramesCounted(s, pos, n - 1);
    }
  }

  /** What the pipe's Read says of its turns and of the bytes that have come in, said of the line. */
  lemma PipeFetches(incoming: Octets, start: nat, cursor: nat, turns: seq<ReadTurn>)
    requires start <= |incoming| && AllProper(Fetched(turns))
    requires FramesAt(incoming, start, |Fetched(turns)|) == Batch(Fetched(turns), cursor)
    ensures start <= cursor <= |incoming| && FetchesFrom(incoming[start..], turns, cursor - start)
    ensures incoming[start..][cursor - start..] == incoming[cursor..]
  {
    hide FramesAt, AllProper;
    FramesLater(incoming, start, |Fetched(turns)|);
    FramesInside(incoming[start..], |Fetched(turns)|);
  }

  // ---- the operations, used by both ends in any order ------------------------------------------------------

  /** An operation of the pipe; of a read, the turns it took, and whether it then stopped for want of a frame. */
  datatype Operation = Write(data: Octets) | FlushOutput | Read(turns: seq<ReadTurn>, next: nat, stopped: bool)

  predicate CanDo(s: System, side: Side, op: Operation) {
    var p := PeerOf(s, side);
    && RoomLeft(p.e) && p.e.cursor <= |p.e.input|
    && match op
       case Write(_) => true
       case FlushOutput => true
       case Read(turns, next, stopped) =>
         && TurnsFit(p.e, turns) && FetchesFrom(LineTo(s, side), turns, next) && next <= |LineTo(s, side)|
         && (stopped ==> AfterTurns(p.e, turns).cursor == |AfterTurns(p.e, turns).input|)
  }

  /** The pipe afterwards is as the operation leaves it, the lines have what it sent and not what it took. */
  function Do(s: System, side: Side, op: Operation): System
    requires CanDo(s, side, op)
  {
    var p := PeerOf(s, side);
    match op
    case Write(data) => Wrote(s, side, data)
    case FlushOutput =>
      With(s, side, p.(e := AfterSend(p.e), emitted := p.emitted + [FrameToSend(p.e)]), LineTo(s, side),
           LineFrom(s, side) + Frame(FrameToSend(p.e)))
    case Read(turns, next, stopped) =>
      var t := HasReadFrom(s, side, turns, next);
      if stopped then With(t, side, PeerOf(t, side).(e := Emptied(PeerOf(t, side).e)), LineTo(t, side), LineFrom(t, side))
      else t
  }

  lemma FlushIsStep(s: System, side: Side)
    requires CanDo(s, side, FlushOutput)
    ensures Possible(s, side, Flush) && Step(s, side, Flush) == Do(s, side, FlushOutput)
  {
    hide Possible, Step, Frame, FrameAt;
    StepIs(s, side, Flush);
    SentFew(FrameToSend(PeerOf(s, side).e));
  }

  lemma StopIsStep(s: System, side: Side)
    requires RoomLeft(PeerOf(s, side).e) && PeerOf(s, side).e.cursor == |PeerOf(s, side).e.input|
    ensures Possible(s, side, Stop)
    ensures Step(s, side, Stop)
         == With(s, side, PeerOf(s, side).(e := Emptied(PeerOf(s, side).e)), LineTo(s, side), LineFrom(s, side))
  {
    hide Possible, Step, Frame, FrameAt;
    StepIs(s, side, Stop);
    SentNone();
    assert LineFrom(s, side) + [] == LineFrom(s, side) && PeerOf(s, side).emitted + [] == PeerOf(s, side).emitted;
  }

  lemma ReaderIs(s: System, side: Side, turns: seq<ReadTurn>, next: nat)
    requires TurnsFit(PeerOf(s, side).e, turns) && AllProper(Fetched(turns)) && next <= |LineTo(s, side)|
    ensures PeerOf(HasReadFrom(s, side, turns, next), side).e == AfterTurns(PeerOf(s, side).e, turns)
  {
  }

  lemma OneStep(s: System, side: Side, a: Action)
    requires Possible(s, side, a)
    ensures CanRun(s, [(side, a)]) && After(s, [(side, a)]) == Step(s, side, a)
  {
    hide Possible, Step;
    assert [(side, a)][1..] == [];
  }

  /** Every operation is a run. */
  lemma OperationIsRun(s: System, side: Side, op: Operation) returns (run: seq<(Side, Action)>)
    requires CanDo(s, side, op)
    ensures CanRun(s, run) && After(s, run) == Do(s, side, op)
  {
    hide Possible, Step, Wrote, HasReadFrom, AfterTurns, FetchesFrom, CanRun, After, TurnsFit;
    match op
    case Write(data) =>
      WriteIsRun(s, side, data);
      run := WriteRun(side, PeerOf(s, side).e, data);
    case FlushOutput =>
      FlushIsStep(s, side);
      OneStep(s, side, Flush);
      run := [(side, Flush)];
    case Read(turns, next, stopped) =>
      FetchesProper(LineTo(s, side), turns, next);
      ReadIsRun(s, side, turns, next);
      run := ReadRun(side, turns);
      if stopped {
        ReaderIs(s, side, turns, next);
        TurnsKeep(PeerOf(s, side).e, turns);
        StopIsStep(After(s, run), side);
        RunMore(s, run, side, Stop);
        run := run + [(side, Stop)];
      }
  }

  lemma FetchesProper(line: Octets, turns: seq<ReadTurn>, next: nat)
    requires FetchesFrom(line, turns, next)
    ensures AllProper(Fetched(turns))
  {
  }

  predicate CanUse(s: System, uses: seq<(Side, Operation)>)
    decreases |uses|
  {
    uses == [] || (CanDo(s, uses[0].0, uses[0].1) && CanUse(Do(s, uses[0].0, uses[0].1), uses[1..]))
  }

  function AfterUses(s: System, uses: seq<(Side, Operation)>): System
    requires CanUse(s, uses)
    decreases |uses|
  {
    if uses == [] then s else AfterUses(Do(s, uses[0].0, uses[0].1), uses[1..])
  }

  lemma {:induction false} RunAppend(s: System, a: seq<(Side, Action)>, b: seq<(Side, Action)>)
    requires CanRun(s, a) && CanRun(After(s, a), b)
    ensures CanRun(s, a + b) && After(s, a + b) == After(After(s, a), b)
    decreases |a|
  {
    hide Possible, Step;
    if a == [] {
      assert a + b == b;
    } else {
      RunAppend(Step(s, a[0].0, a[0].1), a[1..], b);
      assert (a + b)[1..] == a[1..] + b;
    }
  }

  lemma {:induction false} UsesAreRun(s: System, uses: seq<(Side, Operation)>) returns (run: seq<(Side, Action)>)
    requires CanUse(s, uses)
    ensures CanRun(s, run) && After(s, run) == AfterUses(s, uses)
    decreases |uses|
  {
    hide CanDo, Do, Possible, Step;
    if uses == [] {
      run := [];
    } else {
      var first := OperationIsRun(s, uses[0].0, uses[0].1);
      var rest := UsesAreRun(Do(s, uses[0].0, uses[0].1), uses[1..]);
      RunAppend(s, first, rest);
      run := first + rest;
    }
  }

  /** However the two ends use Write, FlushOutput and Read, bytes are conserved, data frames numbered and acknowledged,
      and nothing refused, in both directions. */
  lemma EveryUseConserves(s: System, uses: seq<(Side, Operation)>)
    requires Initial(s) && CanUse(s, uses)
    ensures Honest(AfterUses(s, uses).left, AfterUses(s, uses).right, AfterUses(s, uses).toRight, AfterUses(s, uses).toLeft)
    ensures Honest(AfterUses(s, uses).right, AfterUses(s, uses).left, AfterUses(s, uses).toLeft, AfterUses(s, uses).toRight)
  {
    hide *;
    var run := UsesAreRun(s, uses);
    EveryRunConserves(s, run);
  }
}
