/** The frames of the MNP pipe: how the bytes of a frame go over the line, and what the receiver makes of bytes. */
module MnpFrame {
  import opened Wrappers
  import opened Crc16

  const SYN: bv8 := 0x16
  const DLE: bv8 := 0x10
  const STX: bv8 := 0x02
  const ETX: bv8 := 0x03

  const FRAME_INCREMENT := 1024

  // ---- what is sent ---------------------------------------------------------------------

  /** The data of a frame with every DLE doubled. */
  function Stuffed(data: seq<bv8>): seq<bv8> {
    if data == [] then []
    else
      var b := data[|data| - 1];
      Stuffed(data[..|data| - 1]) + if b == DLE then [DLE, DLE] else [b]
  }

  function FrameCrc(data: seq<bv8>): bv16 {
    Update(Crc(data), ETX)
  }

  function Low(crc: bv16): bv8 {
    (crc & 0x00FF) as bv8
  }

  function High(crc: bv16): bv8 {
    ((crc & 0xFF00) >> 8) as bv8
  }

  /** A frame from its STX on. */
  function Tail(data: seq<bv8>): seq<bv8> {
    Stuffed(data) + [DLE, ETX, Low(FrameCrc(data)), High(FrameCrc(data))]
  }

  function Frame(data: seq<bv8>): seq<bv8> {
    [SYN, DLE, STX] + Tail(data)
  }

  // ---- what is received -------------------------------------------------------------------

  /** A frame and the position after it, bytes that are no frame, or a frame that is not over yet. */
  datatype Received = Data(data: seq<bv8>, next: nat) | Refused | Waiting

  function SkipSyns(s: seq<bv8>, pos: nat): (r: nat)
    ensures pos <= |s| ==> pos <= r <= |s|
    ensures forall i :: pos <= i < r ==> i < |s| && s[i] == SYN
    ensures pos <= r && (r < |s| ==> s[r] != SYN)
    decreases |s| - pos
  {
    if pos < |s| && s[pos] == SYN then SkipSyns(s, pos + 1) else pos
  }

  function CrcAt(s: seq<bv8>, pos: nat): bv16
    requires pos + 2 <= |s|
  {
    (s[pos] as bv16) | ((s[pos + 1] as bv16) << 8)
  }

  /** What follows the STX: the data so far, then the rest of the frame. */
  function BodyAt(s: seq<bv8>, pos: nat, data: seq<bv8>): Received
    decreases |s| - pos
  {
    if pos >= |s| then Waiting
    else if s[pos] != DLE then BodyAt(s, pos + 1, data + [s[pos]])
    else if pos + 1 >= |s| then Waiting
    else if s[pos + 1] == DLE then BodyAt(s, pos + 2, data + [DLE])
    else if s[pos + 1] != ETX then Refused
    else if pos + 4 > |s| then Waiting
    else if CrcAt(s, pos + 2) == FrameCrc(data) then Data(data, pos + 4)
    else Refused
  }

  function FrameAt(s: seq<bv8>, pos: nat): Received {
    var p := SkipSyns(s, pos);
    if p >= |s| then Waiting
    else if s[p] != DLE then Refused
    else if p + 1 >= |s| then Waiting
    else if s[p + 1] != STX then Refused
    else BodyAt(s, p + 2, [])
  }

  // ---- the round trip -----------------------------------------------------------------------

  predicate At(s: seq<bv8>, pos: nat, d: seq<bv8>) {
    pos + |d| <= |s| && s[pos..pos + |d|] == d
  }

  lemma AtBoth(s: seq<bv8>, pos: nat, a: seq<bv8>, b: seq<bv8>)
    ensures At(s, pos, a + b) <==> At(s, pos, a) && At(s, pos + |a|, b)
  {
    var d := a + b;
    if pos + |d| <= |s| {
      var t := s[pos..pos + |d|];
      assert t[..|a|] == s[pos..pos + |a|] && t[|a|..] == s[pos + |a|..pos + |d|];
      assert t == t[..|a|] + t[|a|..];
      assert d[..|a|] == a && d[|a|..] == b;
    }
  }

  lemma CrcBytes(crc: bv16)
    ensures (Low(crc) as bv16) | ((High(crc) as bv16) << 8) == crc
  {
  }

  lemma StuffedNext(data: seq<bv8>, b: bv8)
    ensures Stuffed(data + [b]) == Stuffed(data) + if b == DLE then [DLE, DLE] else [b]
  {
    assert (data + [b])[..|data|] == data;
  }

  lemma ByteReadBack(s: seq<bv8>, p: nat, before: seq<bv8>, b: bv8)
    requires At(s, p, if b == DLE then [DLE, DLE] else [b])
    ensures BodyAt(s, p, before) == BodyAt(s, p + (if b == DLE then 2 else 1), before + [b])
  {
    hide FrameCrc, CrcAt;
    var stuffed := if b == DLE then [DLE, DLE] else [b];
    assert s[p] == s[p..p + |stuffed|][0];
    assert b == DLE ==> s[p + 1] == s[p..p + |stuffed|][1];
  }

  /** Stuffed data is read byte after byte, whatever follows. */
  lemma {:induction false} StuffedReadBack(s: seq<bv8>, pos: nat, before: seq<bv8>, data: seq<bv8>)
    requires At(s, pos, Stuffed(data))
    ensures BodyAt(s, pos, before) == BodyAt(s, pos + |Stuffed(data)|, before + data)
  {
    hide BodyAt, At;
    if data == [] {
      assert before + data == before;
    } else {
      var n := |data| - 1;
      var front, b := data[..n], data[n];
      AtBoth(s, pos, Stuffed(front), if b == DLE then [DLE, DLE] else [b]);
      StuffedReadBack(s, pos, before, front);
      ByteReadBack(s, pos + |Stuffed(front)|, before + front, b);
      assert before + front + [b] == before + data;
    }
  }

  lemma EndReadBack(s: seq<bv8>, p: nat, data: seq<bv8>)
    requires At(s, p, [DLE, ETX, Low(FrameCrc(data)), High(FrameCrc(data))])
    ensures BodyAt(s, p, data) == Data(data, p + 4)
  {
    hide FrameCrc, Low, High;
    var t := s[p..p + 4];
    assert s[p] == t[0] && s[p + 1] == t[1] && s[p + 2] == t[2] && s[p + 3] == t[3];
    CrcBytes(FrameCrc(data));
  }

  lemma TailReadBack(s: seq<bv8>, pos: nat, data: seq<bv8>)
    requires At(s, pos, Tail(data))
    ensures BodyAt(s, pos, []) == Data(data, pos + |Tail(data)|)
  {
    hide Stuffed, BodyAt, At, FrameCrc, Low, High;
    AtBoth(s, pos, Stuffed(data), [DLE, ETX, Low(FrameCrc(data)), High(FrameCrc(data))]);
    StuffedReadBack(s, pos, [], data);
    assert [] + data == data;
    EndReadBack(s, pos + |Stuffed(data)|, data);
  }

  function Syns(n: nat): (r: seq<bv8>)
    ensures |r| == n
  {
    seq(n, _ => SYN)
  }

  /** What the receiver takes for a frame: SYNs, as many as there are, then the rest. */
  function Line(syns: nat, data: seq<bv8>): seq<bv8> {
    Syns(syns) + ([DLE, STX] + Tail(data))
  }

  lemma SkipsAll(s: seq<bv8>, pos: nat, n: nat)
    requires At(s, pos, Syns(n)) && pos + n < |s| && s[pos + n] != SYN
    ensures SkipSyns(s, pos) == pos + n
  {
    var t := s[pos..pos + n];
    forall i | pos <= i < pos + n ensures s[i] == SYN {
      assert s[i] == t[i - pos];
    }
  }

  lemma LineReadBack(s: seq<bv8>, pos: nat, syns: nat, data: seq<bv8>)
    requires At(s, pos, Line(syns, data))
    ensures FrameAt(s, pos) == Data(data, pos + |Line(syns, data)|)
  {
    hide Tail;
    AtBoth(s, pos, Syns(syns), [DLE, STX] + Tail(data));
    AtBoth(s, pos + syns, [DLE, STX], Tail(data));
    var p := pos + syns;
    var t := s[p..p + 2];
    assert s[p] == t[0] && s[p + 1] == t[1];
    SkipsAll(s, pos, syns);
    TailReadBack(s, p + 2, data);
  }

  // ---- only frames are received ---------------------------------------------------------------

  lemma {:induction false} StuffedAppend(a: seq<bv8>, b: seq<bv8>)
    ensures Stuffed(a + b) == Stuffed(a) + Stuffed(b)
  {
    if b == [] {
      assert a + b == a;
    } else {
      var n := |b| - 1;
      assert a + b == a + b[..n] + [b[n]];
      StuffedAppend(a, b[..n]);
      StuffedNext(a + b[..n], b[n]);
      var last := if b[n] == DLE then [DLE, DLE] else [b[n]];
      assert Stuffed(a) + Stuffed(b[..n]) + last == Stuffed(a) + (Stuffed(b[..n]) + last);
    }
  }

  function End(data: seq<bv8>): (r: seq<bv8>)
    ensures |r| == 4
  {
    [DLE, ETX, Low(FrameCrc(data)), High(FrameCrc(data))]
  }

  /** The bytes from pos to next are the rest of a frame of which the data before has been received. */
  predicate Ends(s: seq<bv8>, pos: nat, next: nat, before: seq<bv8>, data: seq<bv8>) {
    && |before| <= |data| && data[..|before|] == before
    && next == pos + |Stuffed(data[|before|..])| + 4
    && At(s, pos, Stuffed(data[|before|..]) + End(data))
  }

  lemma CrcFromBytes(crc: bv16, a: bv8, b: bv8)
    requires crc == (a as bv16) | ((b as bv16) << 8)
    ensures Low(crc) == a && High(crc) == b
  {
  }

  lemma StuffedNone()
    ensures Stuffed([]) == []
  {
  }

  lemma EndsHere(s: seq<bv8>, pos: nat, data: seq<bv8>)
    requires pos + 4 <= |s| && s[pos] == DLE && s[pos + 1] == ETX && CrcAt(s, pos + 2) == FrameCrc(data)
    ensures Ends(s, pos, pos + 4, data, data)
  {
    hide FrameCrc, Stuffed, Low, High;
    CrcFromBytes(FrameCrc(data), s[pos + 2], s[pos + 3]);
    assert s[pos..pos + 4] == End(data);
    StuffedNone();
    assert data[|data|..] == [] && [] + End(data) == End(data);
  }

  lemma EndsLater(s: seq<bv8>, pos: nat, p: nat, next: nat, before: seq<bv8>, b: bv8, data: seq<bv8>)
    requires Ends(s, p, next, before + [b], data)
    requires At(s, pos, Stuffed([b])) && p == pos + |Stuffed([b])|
    ensures Ends(s, pos, next, before, data)
  {
    hide Stuffed, End;
    var rest := data[|before| + 1..];
    assert data[|before|..] == [b] + rest && data[..|before|] == data[..|before| + 1][..|before|];
    StuffedAppend([b], rest);
    assert Stuffed([b]) + (Stuffed(rest) + End(data)) == Stuffed([b]) + Stuffed(rest) + End(data);
    AtBoth(s, pos, Stuffed([b]), Stuffed(rest) + End(data));
  }

  lemma StuffedOne(b: bv8)
    ensures Stuffed([b]) == if b == DLE then [DLE, DLE] else [b]
  {
    StuffedNext([], b);
  }

  lemma {:induction false} BodyAccepts(s: seq<bv8>, pos: nat, before: seq<bv8>, data: seq<bv8>, next: nat)
    requires BodyAt(s, pos, before) == Data(data, next)
    ensures Ends(s, pos, next, before, data)
    decreases |s| - pos
  {
    hide Ends, FrameCrc, Stuffed;
    if s[pos] != DLE {
      StuffedOne(s[pos]);
      assert s[pos..pos + 1] == [s[pos]];
      BodyAccepts(s, pos + 1, before + [s[pos]], data, next);
      EndsLater(s, pos, pos + 1, next, before, s[pos], data);
    } else if s[pos + 1] == DLE {
      StuffedOne(DLE);
      assert s[pos..pos + 2] == [DLE, DLE];
      BodyAccepts(s, pos + 2, before + [DLE], data, next);
      EndsLater(s, pos, pos + 2, next, before, DLE, data);
    } else {
      EndsHere(s, pos, data);
    }
  }

  lemma LineAccepted(s: seq<bv8>, pos: nat, data: seq<bv8>, next: nat)
    requires FrameAt(s, pos) == Data(data, next)
    ensures At(s, pos, Line(SkipSyns(s, pos) - pos, data)) && next == pos + |Line(SkipSyns(s, pos) - pos, data)|
  {
    hide FrameCrc, Stuffed, BodyAt;
    var p := SkipSyns(s, pos);
    BodyAccepts(s, p + 2, [], data, next);
    assert data[0..] == data;
    assert s[p..p + 2] == [DLE, STX];
    assert s[pos..p] == Syns(p - pos);
    AtBoth(s, p, [DLE, STX], Tail(data));
    AtBoth(s, pos, Syns(p - pos), [DLE, STX] + Tail(data));
  }

  /** The receiver accepts exactly the bytes that some number of SYNs and the sender's encoding make, and stops just
      after them. */
  lemma FrameAtIff(s: seq<bv8>, pos: nat, data: seq<bv8>, next: nat)
    ensures FrameAt(s, pos) == Data(data, next)
       <==> exists syns: nat :: At(s, pos, Line(syns, data)) && next == pos + |Line(syns, data)|
  {
    hide FrameAt, Line, At;
    if FrameAt(s, pos) == Data(data, next) {
      LineAccepted(s, pos, data, next);
    } else if syns: nat :| At(s, pos, Line(syns, data)) && next == pos + |Line(syns, data)| {
      LineReadBack(s, pos, syns, data);
    }
  }

  // ---- damaged frames -----------------------------------------------------------------------------

  /** A frame whose data was changed on the line by a burst of at most sixteen bits, however long the frame, is
      refused, provided the damage left its end recognizable. */
  lemma {:induction false} DamageRefused(s: seq<bv8>, pos: nat, sent: seq<bv8>, damaged: seq<bv8>, from: nat, to: nat)
    requires |sent| == |damaged| && sent != damaged && BurstApart(AllBits(sent), AllBits(damaged), from, to)
    requires At(s, pos, Stuffed(damaged) + End(sent))
    ensures BodyAt(s, pos, []) == Refused
  {
    hide Stuffed, Update, Crc, AllBits, At, BodyAt, End, BurstApart;
    BurstDetected(sent, damaged, from, to, ETX);
    AtBoth(s, pos, Stuffed(damaged), End(sent));
    StuffedReadBack(s, pos, [], damaged);
    assert [] + damaged == damaged;
    EndRefused(s, pos + |Stuffed(damaged)|, sent, damaged);
  }

  lemma EndRefused(s: seq<bv8>, p: nat, sent: seq<bv8>, damaged: seq<bv8>)
    requires At(s, p, End(sent)) && FrameCrc(sent) != FrameCrc(damaged)
    ensures BodyAt(s, p, damaged) == Refused
  {
    hide FrameCrc;
    var t := s[p..p + 4];
    assert s[p] == t[0] && s[p + 1] == t[1] && s[p + 2] == t[2] && s[p + 3] == t[3];
    CrcBytes(FrameCrc(sent));
  }

  // ---- streams of frames -------------------------------------------------------------------------

  /** The bytes of frames sent one after the other. */
  function Sent(frames: seq<seq<bv8>>): seq<bv8> {
    if frames == [] then [] else Sent(frames[..|frames| - 1]) + Frame(frames[|frames| - 1])
  }

  /** The same with any number of SYNs before each frame, as a line that idles on SYN gives. */
  function Idling(frames: seq<(nat, seq<bv8>)>): seq<bv8> {
    if frames == [] then []
    else Idling(frames[..|frames| - 1]) + Syns(frames[|frames| - 1].0) + Frame(frames[|frames| - 1].1)
  }

  datatype Batch = Batch(frames: seq<seq<bv8>>, next: nat) | Broken

  /** As many frames as asked for, received one after the other. */
  function FramesAt(s: seq<bv8>, pos: nat, n: nat): Batch {
    if n == 0 then Batch([], pos)
    else
      var front := FramesAt(s, pos, n - 1);
      if front.Broken? then Broken
      else
        match FrameAt(s, front.next)
        case Data(data, next) => Batch(front.frames + [data], next)
        case _ => Broken
  }

  function DataOf(frames: seq<(nat, seq<bv8>)>): (r: seq<seq<bv8>>)
    ensures |r| == |frames|
  {
    seq(|frames|, i requires 0 <= i < |frames| => frames[i].1)
  }

  lemma FrameIsLine(syns: nat, data: seq<bv8>)
    ensures Syns(syns) + Frame(data) == Line(syns + 1, data)
  {
    hide Tail;
    assert Syns(syns) + [SYN] == Syns(syns + 1);
  }

  /** Reading as many frames as were sent gives exactly the data that was sent and uses exactly those bytes. */
  lemma {:induction false} StreamReadBack(s: seq<bv8>, pos: nat, frames: seq<(nat, seq<bv8>)>)
    requires At(s, pos, Idling(frames))
    ensures FramesAt(s, pos, |frames|) == Batch(DataOf(frames), pos + |Idling(frames)|)
  {
    hide At, Frame, FrameAt, Line, Syns;
    if frames == [] {
      assert DataOf(frames) == [];
    } else {
      var n := |frames| - 1;
      var front, syns, data := frames[..n], frames[n].0, frames[n].1;
      assert Idling(front) + Syns(syns) + Frame(data) == Idling(front) + (Syns(syns) + Frame(data));
      FrameIsLine(syns, data);
      AtBoth(s, pos, Idling(front), Line(syns + 1, data));
      StreamReadBack(s, pos, front);
      LineReadBack(s, pos + |Idling(front)|, syns + 1, data);
      assert DataOf(frames) == DataOf(front) + [data];
    }
  }

  /** The first of the frames that were sent is received, and the others are left. */
  lemma {:induction false} FirstReceived(frames: seq<seq<bv8>>)
    requires frames != []
    ensures FrameAt(Sent(frames), 0) == Data(frames[0], |Frame(frames[0])|)
    ensures |Frame(frames[0])| <= |Sent(frames)| && Sent(frames)[|Frame(frames[0])|..] == Sent(frames[1..])
  {
    hide Frame, FrameAt, Line;
    SentFirst(frames);
    var s := Sent(frames);
    FrameIsLine(0, frames[0]);
    assert Syns(0) + Frame(frames[0]) == Frame(frames[0]);
    assert s[0..|Frame(frames[0])|] == Frame(frames[0]);
    LineReadBack(s, 0, 1, frames[0]);
  }

  lemma {:induction false} SentFirst(frames: seq<seq<bv8>>)
    requires frames != []
    ensures Sent(frames) == Frame(frames[0]) + Sent(frames[1..])
  {
    hide Frame;
    var n := |frames| - 1;
    if n == 0 {
      assert frames[..0] == [] && frames[1..] == [];
    } else {
      SentFirst(frames[..n]);
      assert frames[1..][..n - 1] == frames[..n][1..];
      assert Frame(frames[0]) + Sent(frames[..n][1..]) + Frame(frames[n])
          == Frame(frames[0]) + (Sent(frames[..n][1..]) + Frame(frames[n]));
    }
  }

  /** Nothing is received from a line on which nothing was sent. */
  lemma NothingReceived()
    ensures Sent([]) == [] && FrameAt([], 0) == Waiting
  {
  }
}
