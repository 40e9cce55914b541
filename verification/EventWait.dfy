/** Posters and the one waiter of an event queue, in any interleaving. Each section under the semaphore is a step; so
    are the calls of Sleep and WakeUp, which count wake-ups. */
module EventWait {
  import opened EventQueues

  datatype Posted = Posted(serial: nat, kind: bv32)

  /** An event that was returned to the waiter, and the mask it had asked with. */
  datatype Delivery = Delivery(event: Posted, mask: bv32)

  /** The waiter: outside, about to look at the queue, about to sleep having found nothing, or asleep. */
  datatype Waiter = Outside | Looking(mask: bv32, timed: bool) | Empty(mask: bv32, timed: bool)
                  | Asleep(mask: bv32, timed: bool)

  /** The kinds of all events in the order they were posted, those still queued, those delivered; the wake-ups counted,
      and the posters that have queued their event but not yet called WakeUp. */
  datatype State = State(kinds: seq<bv32>, queue: seq<Posted>, log: seq<Delivery>, wakeUps: nat, pending: nat,
                         waiter: Waiter)

  datatype Action = Post(kind: bv32) | WakeUp | Wait(mask: bv32, timed: bool) | Look | Sleep | Wake | TimeOut

  function KindsOf(queue: seq<Posted>): (r: seq<bv32>)
    ensures |r| == |queue|
  {
    seq(|queue|, i requires 0 <= i < |queue| => queue[i].kind)
  }

  function Found(s: State): (i: nat)
    requires s.waiter.Looking?
    ensures i <= |s.queue|
  {
    FirstMatch(KindsOf(s.queue), s.waiter.mask)
  }

  predicate Enabled(s: State, a: Action) {
    match a
    case Post(_) => true
    case WakeUp => s.pending > 0
    case Wait(_, _) => s.waiter.Outside?
    case Look => s.waiter.Looking?
    case Sleep => s.waiter.Empty?
    case Wake => s.waiter.Asleep? && s.wakeUps > 0
    case TimeOut => s.waiter.Asleep? && s.waiter.timed
  }

  function Step(s: State, a: Action): State
    requires Enabled(s, a)
  {
    match a
    case Post(kind) =>
      s.(kinds := s.kinds + [kind], queue := s.queue + [Posted(|s.kinds|, kind)], pending := s.pending + 1)
    case WakeUp => s.(pending := s.pending - 1, wakeUps := s.wakeUps + 1)
    case Wait(mask, timed) => s.(waiter := Looking(mask, timed))
    case Look =>
      var i := Found(s);
      if i < |s.queue| then
        s.(queue := Without(s.queue, i), log := s.log + [Delivery(s.queue[i], s.waiter.mask)], waiter := Outside)
      else s.(waiter := Empty(s.waiter.mask, s.waiter.timed))
    case Sleep =>
      if s.wakeUps > 0 then s.(wakeUps := s.wakeUps - 1, waiter := Looking(s.waiter.mask, s.waiter.timed))
      else s.(waiter := Asleep(s.waiter.mask, s.waiter.timed))
    case Wake => s.(wakeUps := s.wakeUps - 1, waiter := Looking(s.waiter.mask, s.waiter.timed))
    case TimeOut => s.(waiter := Outside)
  }

  predicate CanRun(s: State, run: seq<Action>)
    decreases |run|
  {
    run == [] || (Enabled(s, run[0]) && CanRun(Step(s, run[0]), run[1..]))
  }

  function After(s: State, run: seq<Action>): State
    requires CanRun(s, run)
    decreases |run|
  {
    if run == [] then s else After(Step(s, run[0]), run[1..])
  }

  const START := State([], [], [], 0, 0, Outside)

  // ---- the invariant -------------------------------------------------------------------------

  predicate Known(s: State, e: Posted) {
    e.serial < |s.kinds| && e.kind == s.kinds[e.serial]
  }

  /** The queue is in posting order. */
  predicate Ordered(s: State) {
    && (forall i :: 0 <= i < |s.queue| ==> Known(s, s.queue[i]))
    && forall i, j :: 0 <= i < j < |s.queue| ==> s.queue[i].serial < s.queue[j].serial
  }

  ghost predicate Queued(queue: seq<Posted>, serial: nat) {
    exists i :: 0 <= i < |queue| && queue[i].serial == serial
  }

  ghost predicate Delivered(log: seq<Delivery>, serial: nat) {
    exists k :: 0 <= k < |log| && log[k].event.serial == serial
  }

  /** Every event posted is in the queue or was delivered, not both, and none was delivered twice. */
  ghost predicate Conserved(s: State) {
    && (forall serial: nat :: serial < |s.kinds| ==> (Queued(s.queue, serial) <==> !Delivered(s.log, serial)))
    && (forall k :: 0 <= k < |s.log| ==> Known(s, s.log[k].event) && Matches(s.log[k].event.kind, s.log[k].mask))
    && forall j, k :: 0 <= j < k < |s.log| ==> s.log[j].event.serial != s.log[k].event.serial
  }

  /** When an event was delivered, every event posted before it that its mask also asked for had been. */
  ghost predicate FirstComeAt(s: State, k: nat)
    requires k < |s.log|
  {
    forall serial: nat :: serial < s.log[k].event.serial && serial < |s.kinds| && Matches(s.kinds[serial], s.log[k].mask) ==>
      Delivered(s.log[..k], serial)
  }

  ghost predicate FirstCome(s: State) {
    forall k :: 0 <= k < |s.log| ==> FirstComeAt(s, k)
  }

  predicate HasMatch(queue: seq<Posted>, mask: bv32) {
    FirstMatch(KindsOf(queue), mask) < |queue|
  }

  /** Some queued event has a kind with a bit of the mask. */
  predicate AskedFor(queue: seq<Posted>, mask: bv32) {
    exists i :: 0 <= i < |queue| && queue[i].kind & mask != 0
  }

  lemma HasMatchIff(queue: seq<Posted>, mask: bv32)
    ensures HasMatch(queue, mask) <==> AskedFor(queue, mask)
  {
    hide FirstMatch, Matches;
    FoundMatches(queue, mask);
    var i := FirstMatch(KindsOf(queue), mask);
    if i < |queue| {
      MatchesBits(queue[i].kind, mask);
    } else {
      forall j | 0 <= j < |queue| ensures queue[j].kind & mask == 0 {
        MatchesBits(queue[j].kind, mask);
      }
    }
  }

  /** A mask of all ones asks for every event whose kind is not zero, a mask of zero for none. */
  lemma AnyEventAndNone(queue: seq<Posted>)
    ensures HasMatch(queue, 0xFFFF_FFFF) <==> exists i :: 0 <= i < |queue| && queue[i].kind != 0
    ensures !HasMatch(queue, 0)
  {
    hide HasMatch;
    HasMatchIff(queue, 0xFFFF_FFFF);
    HasMatchIff(queue, 0);
  }

  /** A waiter that found nothing and sleeps, or is about to, is not forgotten: if an event it asks for is queued, a
      wake-up has been counted, or a poster has yet to call WakeUp. */
  predicate NotForgotten(s: State) {
    (s.waiter.Empty? || s.waiter.Asleep?) && HasMatch(s.queue, s.waiter.mask) ==> s.wakeUps + s.pending > 0
  }

  ghost predicate Inv(s: State) {
    Ordered(s) && Conserved(s) && FirstCome(s) && NotForgotten(s)
  }

  // ---- posting -----------------------------------------------------------------------------------

  lemma PostKeeps(s: State, kind: bv32)
    requires Inv(s)
    ensures Ordered(Step(s, Post(kind))) && Conserved(Step(s, Post(kind))) && FirstCome(Step(s, Post(kind)))
  {
    hide Matches, NotForgotten;
    var t := Step(s, Post(kind));
    forall serial: nat | serial < |t.kinds| ensures Queued(t.queue, serial) <==> !Delivered(t.log, serial) {
      if serial < |s.kinds| {
        if Queued(s.queue, serial) {
          var i :| 0 <= i < |s.queue| && s.queue[i].serial == serial;
          assert t.queue[i].serial == serial;
        }
      } else {
        assert t.queue[|s.queue|].serial == serial;
      }
    }
    forall k | 0 <= k < |t.log| ensures FirstComeAt(t, k) {
      assert FirstComeAt(s, k) && Known(s, s.log[k].event);
    }
  }

  // ---- delivering ----------------------------------------------------------------------------------

  lemma FoundMatches(queue: seq<Posted>, mask: bv32)
    ensures FirstMatch(KindsOf(queue), mask) < |queue| ==> Matches(queue[FirstMatch(KindsOf(queue), mask)].kind, mask)
    ensures forall j :: 0 <= j < FirstMatch(KindsOf(queue), mask) ==> !Matches(queue[j].kind, mask)
  {
    hide Matches, FirstMatch;
    forall j | 0 <= j < |queue| ensures KindsOf(queue)[j] == queue[j].kind {
    }
  }

  lemma QueuedWithout(queue: seq<Posted>, i: nat, serial: nat)
    requires i < |queue| && forall j, k :: 0 <= j < k < |queue| ==> queue[j].serial < queue[k].serial
    ensures Queued(Without(queue, i), serial) <==> Queued(queue, serial) && serial != queue[i].serial
  {
    var after := Without(queue, i);
    forall j | 0 <= j < |after| ensures after[j] == queue[if j < i then j else j + 1] {
    }
    if Queued(queue, serial) && serial != queue[i].serial {
      var j :| 0 <= j < |queue| && queue[j].serial == serial;
      assert after[if j < i then j else j - 1].serial == serial;
    }
  }

  lemma DeliveredMore(log: seq<Delivery>, d: Delivery, serial: nat)
    ensures Delivered(log + [d], serial) <==> Delivered(log, serial) || d.event.serial == serial
  {
    if Delivered(log, serial) {
      var k :| 0 <= k < |log| && log[k].event.serial == serial;
      assert (log + [d])[k].event.serial == serial;
    }
    assert (log + [d])[|log|] == d;
  }

  /** Before the event that is found, the queue has none of the mask. */
  lemma FoundIsFirst(s: State, mask: bv32, serial: nat)
    requires Ordered(s) && Conserved(s) && HasMatch(s.queue, mask)
    requires serial < s.queue[FirstMatch(KindsOf(s.queue), mask)].serial && serial < |s.kinds|
    requires Matches(s.kinds[serial], mask)
    ensures Delivered(s.log, serial)
  {
    hide Matches, FirstMatch;
    FoundMatches(s.queue, mask);
    forall j | 0 <= j < |s.queue| ensures s.queue[j].serial != serial {
      assert Known(s, s.queue[j]);
    }
  }

  lemma LookKeepsOrder(s: State)
    requires Ordered(s) && s.waiter.Looking?
    ensures Ordered(Step(s, Look))
  {
    hide FirstMatch;
  }

  lemma LookConserves(s: State)
    requires Ordered(s) && Conserved(s) && s.waiter.Looking? && Found(s) < |s.queue|
    ensures Conserved(Step(s, Look))
  {
    hide Matches, FirstMatch, Queued, Delivered, Without;
    var t, i := Step(s, Look), Found(s);
    FoundMatches(s.queue, s.waiter.mask);
    var d := Delivery(s.queue[i], s.waiter.mask);
    FoundOnce(s, i);
    forall serial: nat | serial < |t.kinds| ensures Queued(t.queue, serial) <==> !Delivered(t.log, serial) {
      QueuedWithout(s.queue, i, serial);
      DeliveredMore(s.log, d, serial);
    }
  }

  /** What is queued has not been delivered. */
  lemma FoundOnce(s: State, i: nat)
    requires Ordered(s) && Conserved(s) && i < |s.queue|
    ensures !Delivered(s.log, s.queue[i].serial) && Queued(s.queue, s.queue[i].serial) && Known(s, s.queue[i])
    ensures forall k :: 0 <= k < |s.log| ==> s.log[k].event.serial != s.queue[i].serial
  {
    hide Matches;
  }

  lemma LookFirstCome(s: State)
    requires Inv(s) && s.waiter.Looking? && Found(s) < |s.queue|
    ensures FirstCome(Step(s, Look))
  {
    hide Matches, FirstMatch, Delivered, Queued, Conserved, Ordered, Without;
    var t := Step(s, Look);
    forall k | 0 <= k < |t.log| ensures FirstComeAt(t, k) {
      if k < |s.log| {
        assert FirstComeAt(s, k) && t.log[..k] == s.log[..k];
      } else {
        assert t.log[..k] == s.log;
        forall serial: nat | serial < t.log[k].event.serial && serial < |s.kinds| && Matches(s.kinds[serial], s.waiter.mask)
          ensures Delivered(s.log, serial)
        {
          FoundIsFirst(s, s.waiter.mask, serial);
        }
      }
    }
  }

  lemma {:induction false} StepKeepsInv(s: State, a: Action)
    requires Inv(s) && Enabled(s, a)
    ensures Inv(Step(s, a))
  {
    hide Matches, FirstMatch, Queued, Delivered, Without;
    match a
    case Post(kind) => PostKeeps(s, kind);
    case Look =>
      if Found(s) < |s.queue| {
        LookKeepsOrder(s);
        LookConserves(s);
        LookFirstCome(s);
      } else {
        SameLog(s, Step(s, Look));
      }
    case _ => SameLog(s, Step(s, a));
  }

  lemma SameLog(s: State, t: State)
    requires Ordered(s) && Conserved(s) && FirstCome(s) && t.kinds == s.kinds && t.queue == s.queue && t.log == s.log
    ensures Ordered(t) && Conserved(t) && FirstCome(t)
  {
    hide Matches, Queued, Delivered;
    forall k | 0 <= k < |t.log| ensures FirstComeAt(t, k) {
      assert FirstComeAt(s, k);
    }
    forall i | 0 <= i < |t.queue| ensures Known(t, t.queue[i]) {
      assert Known(s, s.queue[i]);
    }
    forall k | 0 <= k < |t.log| ensures Known(t, t.log[k].event) {
      assert Known(s, s.log[k].event);
    }
  }

  lemma {:induction false} RunKeepsInv(s: State, run: seq<Action>)
    requires Inv(s) && CanRun(s, run)
    ensures Inv(After(s, run))
    decreases |run|
  {
    hide Inv, Step, Enabled;
    if run != [] {
      StepKeepsInv(s, run[0]);
      RunKeepsInv(Step(s, run[0]), run[1..]);
    }
  }

  // ---- every run --------------------------------------------------------------------------------------

  /** In every run: nothing is lost or delivered twice, what is skipped stays in posting order, what a mask asks for is
      delivered first come first served, and no sleeping waiter is forgotten. */
  lemma EveryRun(run: seq<Action>)
    requires CanRun(START, run)
    ensures Inv(After(START, run))
  {
    hide After, CanRun;
    RunKeepsInv(START, run);
  }

  /** A waiter asleep without limit while an event it asks for is queued can be woken now, or once a poster that is not
      through with its PostEvent goes on. */
  lemma SleeperWakes(run: seq<Action>)
    requires CanRun(START, run)
    requires After(START, run).waiter.Asleep? && AskedFor(After(START, run).queue, After(START, run).waiter.mask)
    ensures Enabled(After(START, run), Wake) || (Enabled(After(START, run), WakeUp)
            && Enabled(Step(After(START, run), WakeUp), Wake))
  {
    hide After, CanRun, HasMatch, AskedFor;
    EveryRun(run);
    HasMatchIff(After(START, run).queue, After(START, run).waiter.mask);
  }

  /** A delivered event had a bit of the mask that asked for it, and every event posted before it that had one had been
      delivered. */
  ghost predicate AsAsked(s: State, k: nat)
    requires k < |s.log|
  {
    var event, mask := s.log[k].event, s.log[k].mask;
    && event.serial < |s.kinds| && event.kind == s.kinds[event.serial] && event.kind & mask != 0
    && EarlierGone(s, event.serial, mask, s.log[..k])
  }

  ghost predicate EarlierGone(s: State, before: nat, mask: bv32, log: seq<Delivery>)
    requires before <= |s.kinds|
  {
    forall serial: nat :: serial < before && s.kinds[serial] & mask != 0 ==> Delivered(log, serial)
  }

  lemma DeliveredAsAsked(run: seq<Action>, k: nat)
    requires CanRun(START, run) && k < |After(START, run).log|
    ensures AsAsked(After(START, run), k)
  {
    hide After, CanRun, AsAsked;
    EveryRun(run);
    AskedIs(After(START, run), k);
  }

  lemma AskedIs(s: State, k: nat)
    requires Conserved(s) && FirstCome(s) && k < |s.log|
    ensures AsAsked(s, k)
  {
    hide Matches, Delivered, Queued, EarlierGone;
    assert FirstComeAt(s, k) && Known(s, s.log[k].event);
    MatchesBits(s.log[k].event.kind, s.log[k].mask);
    EarlierIsGone(s, k);
  }

  lemma EarlierIsGone(s: State, k: nat)
    requires k < |s.log| && FirstComeAt(s, k) && s.log[k].event.serial <= |s.kinds|
    ensures EarlierGone(s, s.log[k].event.serial, s.log[k].mask, s.log[..k])
  {
    hide Matches, Delivered;
    forall serial: nat | serial < s.log[k].event.serial && s.kinds[serial] & s.log[k].mask != 0
      ensures Delivered(s.log[..k], serial)
    {
      MatchesBits(s.kinds[serial], s.log[k].mask);
    }
  }

  /** With one mask throughout, events are delivered in the order they were posted. */
  lemma OneMaskInOrder(run: seq<Action>, mask: bv32, j: nat, k: nat)
    requires CanRun(START, run) && j < k < |After(START, run).log|
    requires forall i :: 0 <= i < |After(START, run).log| ==> After(START, run).log[i].mask == mask
    ensures After(START, run).log[j].event.serial < After(START, run).log[k].event.serial
  {
    hide After, CanRun, Matches;
    EveryRun(run);
    var s := After(START, run);
    NotDeliveredBefore(s, j, k);
    assert FirstComeAt(s, j) && Known(s, s.log[k].event);
  }

  lemma NotDeliveredBefore(s: State, j: nat, k: nat)
    requires Conserved(s) && j < k < |s.log|
    ensures !Delivered(s.log[..j], s.log[k].event.serial) && s.log[j].event.serial != s.log[k].event.serial
  {
    hide Matches;
    forall i | 0 <= i < j ensures s.log[..j][i].event.serial != s.log[k].event.serial {
      assert s.log[..j][i] == s.log[i];
    }
  }
}
