/** The event queue of a thread: an intrusive linked list, scanned for the first event of a mask. */
module EventQueues {
  /** Whether an event of a kind is one of those asked for. */
  predicate Matches(kind: bv32, mask: bv32) {
    kind & mask != 0
  }

  /** The first kind that matches, or the length if none does. */
  function FirstMatch(kinds: seq<bv32>, mask: bv32): (i: nat)
    ensures i <= |kinds|
    ensures forall k :: 0 <= k < i ==> !Matches(kinds[k], mask)
    ensures i < |kinds| ==> Matches(kinds[i], mask)
  {
    if kinds == [] || Matches(kinds[0], mask) then 0 else 1 + FirstMatch(kinds[1..], mask)
  }

  function Without<T>(s: seq<T>, i: nat): (r: seq<T>)
    ensures |r| == if i < |s| then |s| - 1 else |s|
  {
    if i < |s| then s[..i] + s[i + 1..] else s
  }

  class Event {
    const kind: bv32
    var next: Event?

    constructor (kind: bv32)
      ensures this.kind == kind && next == null
    {
      this.kind, next := kind, null;
    }
  }

  function Following(events: seq<Event>, i: nat): Event? {
    if i + 1 < |events| then events[i + 1] else null
  }

  /** Next events that make a list of a sequence of events, none twice. */
  ghost predicate Links(events: seq<Event>, nexts: seq<Event?>) {
    && |nexts| == |events|
    && (forall i, j :: 0 <= i < j < |events| ==> events[i] != events[j])
    && forall i {:trigger nexts[i]} :: 0 <= i < |events| ==> nexts[i] == Following(events, i)
  }

  /** The events have those next events. */
  ghost predicate Have(events: seq<Event>, nexts: seq<Event?>)
    reads events
  {
    |nexts| == |events| && forall i :: 0 <= i < |events| ==> events[i].next == nexts[i]
  }

  /** None of the first events has a kind with a bit of the mask. */
  ghost predicate NoneAsked(events: seq<Event>, n: nat, mask: bv32)
    requires n <= |events|
  {
    forall i :: 0 <= i < n ==> events[i].kind & mask == 0
  }

  /** The first event that has a kind with a bit of the mask. */
  ghost predicate FirstAsked(events: seq<Event>, r: Event, mask: bv32) {
    r.kind & mask != 0 && exists i :: 0 <= i < |events| && events[i] == r && NoneAsked(events, i, mask)
  }

  lemma MatchesBits(kind: bv32, mask: bv32)
    ensures Matches(kind, mask) <==> kind & mask != 0
  {
  }

  lemma NoneIsAsked(events: seq<Event>, n: nat, mask: bv32)
    requires n <= |events| && forall j :: 0 <= j < n ==> !Matches(events[j].kind, mask)
    ensures NoneAsked(events, n, mask)
  {
    hide Matches;
    forall i | 0 <= i < n ensures events[i].kind & mask == 0 {
      MatchesBits(events[i].kind, mask);
    }
  }

  /** What is found by the mask: the first event that has one of its bits in its kind, and nothing only if there is
      none. */
  lemma MatchIsFirst(events: seq<Event>, mask: bv32)
    ensures var r := EventAt(events, FirstMatch(Kinds(events), mask));
            && (r == null ==> NoneAsked(events, |events|, mask))
            && (r != null ==> FirstAsked(events, r, mask))
  {
    hide Matches, FirstMatch, NoneAsked, Kinds;
    var i := FirstMatch(Kinds(events), mask);
    FoundIs(events, mask);
    NoneIsAsked(events, i, mask);
    if i < |events| {
      MatchesBits(events[i].kind, mask);
    }
  }

  function EventAt(events: seq<Event>, i: nat): Event? {
    if i < |events| then events[i] else null
  }

  function Kinds(events: seq<Event>): (r: seq<bv32>)
    ensures |r| == |events|
  {
    seq(|events|, i requires 0 <= i < |events| => events[i].kind)
  }

  class EventQueue {
    var first: Event?
    var last: Event?
    ghost var events: seq<Event>
    ghost var nexts: seq<Event?>

    ghost predicate Valid()
      reads this, events
    {
      && Links(events, nexts) && Have(events, nexts)
      && first == (if events == [] then null else events[0])
      && last == (if events == [] then null else events[|events| - 1])
    }

    constructor ()
      ensures Valid() && events == []
    {
      first, last, events, nexts := null, null, [], [];
    }

    /** Puts an event after the others; what was its next event no longer matters. */
    method Post(e: Event)
      requires Valid() && e !in events
      modifies this, events, e
      ensures Valid() && events == old(events) + [e]
    {
      hide Links;
      LinksMore(events, nexts, e);
      if last == null {
        first := e;
        last := e;
      } else {
        last.next := e;
        last := e;
      }
      e.next := null;
      nexts := (if events == [] then [] else nexts[|nexts| - 1 := e]) + [null];
      events := events + [e];
    }

    /** The scan: the first event of the mask, the one before it, and where it is. */
    method Find(mask: bv32) returns (r: Event?, previous: Event?, ghost i: nat)
      requires Valid()
      ensures i == FirstMatch(Kinds(events), mask) <= |events|
      ensures r == EventAt(events, i) && previous == if i == 0 then null else events[i - 1]
    {
      hide Matches, FirstMatch, Kinds;
      r := first;
      previous := null;
      i := 0;
      FoundIs(events, mask);
      while r != null && !Matches(r.kind, mask)
        invariant i <= FirstMatch(Kinds(events), mask) <= |events|
        invariant r == EventAt(events, i) && previous == if i == 0 then null else events[i - 1]
        decreases |events| - i
      {
        previous := r;
        r := r.next;
        i := i + 1;
      }
    }

    /** Takes an event out of the list. */
    method Unlink(e: Event, previous: Event?, ghost i: nat)
      requires Valid() && i < |events| && e == events[i]
      requires previous == if i == 0 then null else events[i - 1]
      modifies this, events
      ensures Valid() && events == Without(old(events), i)
    {
      hide Links, Without;
      ghost var changed := if i == 0 then nexts else nexts[i - 1 := nexts[i]];
      LinksWithout(events, nexts, i);
      EndsWithout(events, i);
      var next := e.next;
      if previous != null {
        previous.next := next;
      } else {
        first := next;
      }
      if next == null {
        last := previous;
      }
      HaveWithout(events, changed, i);
      nexts := Without(changed, i);
      events := Without(events, i);
    }

    /** Takes the first event of the mask out of the list, if there is one. */
    method Take(mask: bv32) returns (r: Event?)
      requires Valid()
      modifies this, events
      ensures Valid() && events == Without(old(events), FirstMatch(Kinds(old(events)), mask))
      ensures r == EventAt(old(events), FirstMatch(Kinds(old(events)), mask))
      ensures r == null ==> NoneAsked(old(events), |old(events)|, mask)
      ensures r != null ==> FirstAsked(old(events), r, mask)
    {
      hide FirstMatch, Kinds, Links, Have, FirstAsked, NoneAsked, Matches;
      MatchIsFirst(events, mask);
      var previous: Event?;
      ghost var i: nat;
      r, previous, i := Find(mask);
      if r != null {
        Unlink(r, previous, i);
      }
    }

    /** What the destructor deletes: every event left, once, in order. */
    method DeleteAll() returns (deleted: seq<Event>)
      requires Valid()
      ensures deleted == events
    {
      deleted := [];
      var e := first;
      while e != null
        invariant |deleted| <= |events| && deleted == events[..|deleted|]
        invariant e == if |deleted| < |events| then events[|deleted|] else null
        decreases |events| - |deleted|
      {
        var next := e.next;
        deleted := deleted + [e];
        e := next;
      }
    }
  }

  lemma LinksMore(events: seq<Event>, nexts: seq<Event?>, e: Event)
    requires Links(events, nexts) && e !in events
    ensures |nexts| == |events| && forall i, j :: 0 <= i < j < |events| ==> events[i] != events[j]
    ensures Links(events + [e], (if events == [] then [] else nexts[|nexts| - 1 := e]) + [null])
  {
  }

  /** Without one event, the one before it has the next event of that one. */
  lemma LinksWithout(events: seq<Event>, nexts: seq<Event?>, i: nat)
    requires Links(events, nexts) && i < |events|
    ensures |nexts| == |events| && nexts[i] == Following(events, i)
    ensures forall j, k :: 0 <= j < k < |events| ==> events[j] != events[k]
    ensures Links(Without(events, i), Without(if i == 0 then nexts else nexts[i - 1 := nexts[i]], i))
  {
    hide Following, Without;
    var after, changed := Without(events, i), if i == 0 then nexts else nexts[i - 1 := nexts[i]];
    assert nexts[i] == Following(events, i);
    WithoutAt(events, i);
    WithoutAt(changed, i);
    forall k | 0 <= k < |after| ensures Without(changed, i)[k] == Following(after, k) {
      var j := if k < i then k else k + 1;
      assert nexts[j] == Following(events, j);
      FollowingWithout(events, i, k);
    }
  }

  lemma WithoutAt<T>(s: seq<T>, i: nat)
    requires i < |s|
    ensures |Without(s, i)| == |s| - 1
    ensures forall k :: 0 <= k < |s| - 1 ==> Without(s, i)[k] == s[if k < i then k else k + 1]
  {
  }

  lemma FollowingWithout(events: seq<Event>, i: nat, k: nat)
    requires i < |events| && k + 1 < |events|
    ensures Following(Without(events, i), k) == Following(events, if k < i - 1 then k else k + 1)
  {
  }

  lemma HaveWithout(events: seq<Event>, nexts: seq<Event?>, i: nat)
    requires Have(events, nexts) && i < |events|
    ensures Have(Without(events, i), Without(nexts, i))
  {
    var after := Without(events, i);
    forall k | 0 <= k < |after| ensures after[k].next == Without(nexts, i)[k] {
      assert after[k] == events[if k < i then k else k + 1];
    }
  }

  lemma EndsWithout(events: seq<Event>, i: nat)
    requires i < |events|
    ensures Without(events, i) == [] <==> |events| == 1
    ensures |events| > 1 ==> Without(events, i)[0] == if i == 0 then events[1] else events[0]
    ensures |events| > 1 ==>
              Without(events, i)[|events| - 2] == if i == |events| - 1 then events[i - 1] else events[|events| - 1]
  {
  }

  lemma FoundIs(events: seq<Event>, mask: bv32)
    ensures forall k :: 0 <= k < FirstMatch(Kinds(events), mask) ==> !Matches(events[k].kind, mask)
    ensures FirstMatch(Kinds(events), mask) < |events| ==> Matches(events[FirstMatch(Kinds(events), mask)].kind, mask)
  {
    hide Matches, FirstMatch;
    forall k | 0 <= k < |events| ensures Kinds(events)[k] == events[k].kind {
    }
  }
}
