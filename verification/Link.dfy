/** The loop of a link, given what the application, the pipe and the protocol do in each turn, exceptions included. */
module Links {
  import opened Sequences

  datatype EState = Disconnected | Connecting | Connected | Running | Disconnecting | Unknown

  /** End of file, another exception of the library, or anything else thrown. */
  datatype Thrown = Eof | Error | Foreign

  datatype Call<+T> = Returns(value: T) | Throws(what: Thrown)

  /** What a turn in the running state meets: no event in time, or an event, by its number, and what follows it. */
  datatype RunningTurn =
    | Nothing(idle: Call<EState>)
    | AppCommand(id: nat, begin: Call<()>, process: Call<(EState, bool)>, report: Call<()>, reportError: Call<()>)
    | BytesAvailable(id: nat, left: Call<bool>, receive: Call<()>, process: Call<(EState, bool)>, refuse: Call<()>,
                     clear: Call<()>)
    | DisconnectLink(id: nat)
    | CloseLink(id: nat)
    | OtherEvent(id: nat)

  /** What a turn of the loop meets, whichever state it is in. */
  datatype Turn = Turn(connect: Call<()>, connected: Call<()>, running: RunningTurn, farewell: Call<()>, answer: Call<()>)

  datatype End = Returned | Threw(what: Thrown) | Unfinished

  // ---- what is promised of the states ----------------------------------------------------------

  /** One turn to the next: connecting, connected, running for as long as it takes, disconnecting or not, disconnected. */
  predicate Follows(a: EState, b: EState) {
    match a
    case Connecting => b.Connected?
    case Connected => b.Running?
    case Running => b.Running? || b.Disconnecting? || b.Disconnected?
    case Disconnecting => b.Disconnected?
    case _ => false
  }

  predicate Chained(states: seq<EState>) {
    forall i :: 0 < i < |states| ==> Follows(states[i - 1], states[i])
  }

  predicate Path(states: seq<EState>) {
    (states != [] ==> states[0].Connecting?) && Chained(states)
  }

  predicate Tame(next: EState) {
    next.Running? || next.Disconnecting? || next.Disconnected?
  }

  /** The protocol only asks to go on or to stop, as it is documented to. */
  predicate TameTurn(t: RunningTurn) {
    match t
    case Nothing(idle) => idle.Returns? ==> Tame(idle.value)
    case AppCommand(_, _, process, _, _) => process.Returns? ==> Tame(process.value.0)
    case BytesAvailable(_, _, _, process, _, _) => process.Returns? ==> Tame(process.value.0)
    case _ => true
  }

  // ---- what the code does, call after call ---------------------------------------------------------

  /** A call made unless the one before it threw. */
  function Then<S, T>(first: Call<S>, next: Call<T>): Call<T> {
    if first.Throws? then Throws(first.what) else next
  }

  /** What serving an application command throws: a command nobody processed is an exception. */
  function AppCalls(t: RunningTurn): Call<()>
    requires t.AppCommand?
  {
    var processed := t.process.Returns? && t.process.value.1;
    Then(t.begin, Then(t.process, if processed then t.report else Throws(Error)))
  }

  /** What serving a message throws: one that was not processed is refused; without bytes there is none. */
  function DockCalls(t: RunningTurn): Call<()>
    requires t.BytesAvailable?
  {
    var some := t.left.Returns? && t.left.value;
    var refuse := if t.process.Returns? && t.process.value.1 then Returns(()) else t.refuse;
    var message := if some then Then(t.receive, Then(t.process, refuse)) else Returns(());
    Then(t.left, Then(message, t.clear))
  }

  /** Exceptions of the library are reported to the application and end there. */
  function AfterAppCommand(t: RunningTurn): Call<EState>
    requires t.AppCommand?
  {
    var next := if t.begin.Returns? && t.process.Returns? then t.process.value.0 else Running;
    var thrown := AppCalls(t);
    if thrown.Returns? then Returns(next)
    else if thrown.what.Foreign? then Throws(Foreign)
    else Then(t.reportError, Returns(next))
  }

  function AfterDockCommand(t: RunningTurn): Call<EState>
    requires t.BytesAvailable?
  {
    var some := t.left.Returns? && t.left.value && t.process.Returns?;
    Then(DockCalls(t), Returns(if some then t.process.value.0 else Running))
  }

  function AfterRunning(t: RunningTurn): Call<EState> {
    match t
    case Nothing(idle) => idle
    case AppCommand(_, _, _, _, _) => AfterAppCommand(t)
    case BytesAvailable(_, _, _, _, _, _) => AfterDockCommand(t)
    case DisconnectLink(_) => Returns(Disconnecting)
    case CloseLink(_) => Returns(Disconnected)
    case OtherEvent(_) => Returns(Running)
  }

  /** Only an end of file while the answer is awaited is as good as an answer. */
  function AfterDisconnect(hasPipe: bool, farewell: Call<()>, answer: Call<()>): Call<EState> {
    if !hasPipe then Throws(Error)
    else if farewell.Throws? then Throws(farewell.what)
    else if answer.Throws? && !answer.what.Eof? then Throws(answer.what)
    else Returns(Disconnected)
  }

  function AfterState(state: EState, hasPipe: bool, t: Turn): Call<EState> {
    match state
    case Connecting => if t.connect.Returns? then Returns(Connected) else Throws(t.connect.what)
    case Connected => if t.connected.Returns? then Returns(Running) else Throws(t.connected.what)
    case Running => AfterRunning(t.running)
    case Disconnecting => AfterDisconnect(hasPipe, t.farewell, t.answer)
    case _ => Throws(Eof)
  }

  /** The state a turn ends with, and whether the loop goes on. */
  function LoopOn(next: Call<EState>): Call<(EState, bool)> {
    if next.Returns? then Returns((next.value, true))
    else if next.what.Eof? then Returns((Disconnected, false))
    else Throws(next.what)
  }

  /** Where the loop is after the turns: an end of file stops it like being disconnected does, anything else thrown
      leaves it. */
  function RunFrom(state: EState, plan: seq<Turn>): (End, EState)
    decreases plan
  {
    if plan == [] then (Unfinished, state)
    else
      var next := AfterState(state, true, plan[0]);
      if next.Returns? then RunFrom(next.value, plan[1..])
      else if next.what.Eof? then (Returned, Disconnected)
      else (Threw(next.what), state)
  }

  /** The states the loop is in, turn after turn. */
  function StatesFrom(state: EState, plan: seq<Turn>): seq<EState>
    decreases plan
  {
    if plan == [] then []
    else
      var next := AfterState(state, true, plan[0]);
      [state] + if next.Returns? then StatesFrom(next.value, plan[1..]) else []
  }

  /** The events it takes. */
  function EventsFrom(state: EState, plan: seq<Turn>): seq<nat>
    decreases plan
  {
    if plan == [] then []
    else
      var next := AfterState(state, true, plan[0]);
      (if state.Running? then EventOf(plan[0].running) else [])
      + if next.Returns? then EventsFrom(next.value, plan[1..]) else []
  }

  /** How often it says farewell to the Newton. */
  function FarewellsFrom(state: EState, plan: seq<Turn>): nat
    decreases plan
  {
    if plan == [] then 0
    else
      var next := AfterState(state, true, plan[0]);
      FarewellOf(state, true, plan[0]) + if next.Returns? then FarewellsFrom(next.value, plan[1..]) else 0
  }

  function FarewellOf(state: EState, hasPipe: bool, t: Turn): nat {
    if state.Disconnecting? && hasPipe && t.farewell.Returns? then 1 else 0
  }

  function EventOf(t: RunningTurn): seq<nat> {
    if t.Nothing? then [] else [t.id]
  }

  class Link {
    var state: EState
    var hasPipe: bool
    var isBusy: bool
    var told: nat              // how often the server was told Disconnected
    var farewells: nat         // how often the Newton was sent the disconnect command

    // Events taken from the queue, events deleted, states the loop has been in.
    ghost var taken: seq<nat>
    ghost var deleted: seq<nat>
    ghost var states: seq<EState>

    constructor ()
      ensures state == Disconnected && !hasPipe && !isBusy && told == farewells == 0
      ensures taken == [] && deleted == [] && states == []
    {
      state, hasPipe, isBusy, told, farewells := Disconnected, false, false, 0, 0;
      taken, deleted, states := [], [], [];
    }

    /** Between turns: every event taken has been deleted once, and the link is not busy. */
    ghost predicate Tidy()
      reads this
    {
      deleted == taken && !isBusy
    }

    method Connect() returns (ok: bool)
      modifies this`state, this`hasPipe
      ensures ok == old(state).Disconnected?
      ensures ok ==> state == Connecting && hasPipe
      ensures !ok ==> state == old(state) && hasPipe == old(hasPipe)
    {
      ok := state.Disconnected?;
      if ok {
        state := Connecting;
        hasPipe := true;
      }
    }

    /** The link gives up its pipe and tells the server. */
    method TellDisconnected()
      modifies this`hasPipe, this`told
      ensures !hasPipe && told == old(told) + 1
    {
      hasPipe := false;
      told := told + 1;
    }

    method Delete(id: nat)
      modifies this`deleted
      ensures deleted == old(deleted) + [id]
    {
      deleted := deleted + [id];
    }

    /** A command of the application. */
    method ServeAppCommand(t: RunningTurn) returns (r: Call<EState>)
      requires t.AppCommand?
      ensures r == AfterAppCommand(t)
      ensures t.begin == Throws(Foreign) ==> r == Throws(Foreign)
      ensures t.begin.Returns? && t.process == Throws(Foreign) ==> r == Throws(Foreign)
      ensures t.begin.Returns? && t.process.Returns? && t.process.value.1 && t.report == Throws(Foreign) ==> r == Throws(Foreign)
      ensures t.begin == Throws(Eof) || t.begin == Throws(Error) ==>
                r == if t.reportError.Throws? then Throws(t.reportError.what) else Returns(Running)
      ensures t.begin.Returns? && (t.process == Throws(Eof) || t.process == Throws(Error)) ==>
                r == if t.reportError.Throws? then Throws(t.reportError.what) else Returns(Running)
      ensures t.begin.Returns? && t.process.Returns?
              && (!t.process.value.1 || t.report == Throws(Eof) || t.report == Throws(Error)) ==>
                r == if t.reportError.Throws? then Throws(t.reportError.what) else Returns(t.process.value.0)
      ensures t.begin.Returns? && t.process.Returns? && t.process.value.1 && t.report.Returns? ==>
                r == Returns(t.process.value.0)
    {
      var next := Running;
      var thrown: Call<()> := t.begin;
      if thrown.Returns? {
        if t.process.Throws? {
          thrown := Throws(t.process.what);
        } else {
          next := t.process.value.0;
          thrown := if t.process.value.1 then t.report else Throws(Error);
        }
      }
      if thrown.Throws? {
        if thrown.what.Foreign? {
          return Throws(thrown.what);
        }
        if t.reportError.Throws? {
          return Throws(t.reportError.what);
        }
      }
      return Returns(next);
    }

    /** A command of the Newton, if there still are bytes. */
    method ServeDockCommand(t: RunningTurn) returns (r: Call<EState>)
      requires t.BytesAvailable?
      ensures r == AfterDockCommand(t)
      ensures t.left.Throws? ==> r == Throws(t.left.what)
      ensures t.left == Returns(false) ==> r == if t.clear.Throws? then Throws(t.clear.what) else Returns(Running)
      ensures t.left == Returns(true) && t.receive.Throws? ==> r == Throws(t.receive.what)
      ensures t.left == Returns(true) && t.receive.Returns? && t.process.Throws? ==> r == Throws(t.process.what)
      ensures t.left == Returns(true) && t.receive.Returns? && t.process.Returns? && !t.process.value.1 && t.refuse.Throws? ==>
                r == Throws(t.refuse.what)
      ensures t.left == Returns(true) && t.receive.Returns? && t.process.Returns? && (t.process.value.1 || t.refuse.Returns?) ==>
                r == if t.clear.Throws? then Throws(t.clear.what) else Returns(t.process.value.0)
    {
      var next := Running;
      if t.left.Throws? {
        return Throws(t.left.what);
      }
      if t.left.value {
        if t.receive.Throws? {
          return Throws(t.receive.what);
        }
        if t.process.Throws? {
          return Throws(t.process.what);
        }
        next := t.process.value.0;
        if !t.process.value.1 && t.refuse.Throws? {
          return Throws(t.refuse.what);
        }
      }
      if t.clear.Throws? {
        return Throws(t.clear.what);
      }
      return Returns(next);
    }

    /** The event that was taken, if any, has been deleted once and the link is not busy, whatever was thrown. */
    method TransitionFromRunning(t: RunningTurn) returns (r: Call<EState>)
      requires Tidy()
      modifies this`isBusy, this`taken, this`deleted
      ensures Tidy() && taken == old(taken) + EventOf(t)
      ensures r == AfterRunning(t)
      ensures t.DisconnectLink? ==> r == Returns(Disconnecting)
      ensures t.CloseLink? ==> r == Returns(Disconnected)
      ensures t.OtherEvent? ==> r == Returns(Running)
    {
      if t.Nothing? {
        assert taken + [] == taken;
        return t.idle;
      }
      taken := taken + [t.id];
      var next := true;           // the event is still to be deleted
      isBusy := true;
      match t {
        case AppCommand(id, _, _, _, _) =>
          r := ServeAppCommand(t);
          if r.Returns? {
            Delete(id);
            next := false;
          }
        case BytesAvailable(_, _, _, _, _, _) => r := ServeDockCommand(t);
        case DisconnectLink(_) => r := Returns(Disconnecting);
        case CloseLink(_) => r := Returns(Disconnected);
        case OtherEvent(_) => r := Returns(Running);
      }
      if r.Throws? {
        if next {
          Delete(t.id);
        }
        isBusy := false;
        return;
      }
      isBusy := false;
      if next {
        Delete(t.id);
      }
    }

    /** One turn of the loop: what the state it is in leads to. When the link is disconnected, or disconnects, it gives
        up its pipe and tells the server, once. */
    method TakeTurn(t: Turn) returns (r: Call<(EState, bool)>)
      requires Tidy()
      modifies this`isBusy, this`taken, this`deleted, this`hasPipe, this`told, this`farewells
      ensures Tidy()
      ensures farewells == old(farewells) + FarewellOf(state, old(hasPipe), t)
      ensures r == LoopOn(AfterState(state, old(hasPipe), t))
      ensures r.Returns? && !r.value.1 ==> !hasPipe && told == old(told) + 1
      ensures r.Throws? || r.value.1 ==> hasPipe == old(hasPipe) && told == old(told)
      ensures taken == old(taken) + if state.Running? then EventOf(t.running) else []
    {
      var outcome: Call<EState>;
      match state {
        case Connecting =>
          outcome := if t.connect.Returns? then Returns(Connected) else Throws(t.connect.what);
        case Connected =>
          outcome := if t.connected.Returns? then Returns(Running) else Throws(t.connected.what);
        case Running =>
          outcome := TransitionFromRunning(t.running);
        case Disconnecting =>
          outcome := DoDisconnect(t.farewell, t.answer);
        case _ =>
          TellDisconnected();
          return Returns((Disconnected, false));
      }
      if outcome == Throws(Eof) {
        TellDisconnected();
        return Returns((Disconnected, false));
      }
      r := if outcome.Throws? then Throws(outcome.what) else Returns((outcome.value, true));
    }

    /** Without a pipe this is an error. An end of file leaves it only when the farewell threw it, never from the wait
        for the answer; anything else that was thrown leaves it as it was. */
    method DoDisconnect(farewell: Call<()>, answer: Call<()>) returns (r: Call<EState>)
      modifies this`farewells
      ensures farewells == old(farewells) + if hasPipe && farewell.Returns? then 1 else 0
      ensures r == AfterDisconnect(hasPipe, farewell, answer)
      ensures r == Throws(Eof) <==> hasPipe && farewell == Throws(Eof)
      ensures r == Returns(Disconnected) <==> hasPipe && farewell.Returns? && answer != Throws(Error) && answer != Throws(Foreign)
      ensures r == Throws(Foreign) <==> hasPipe && (farewell == Throws(Foreign) || (farewell.Returns? && answer == Throws(Foreign)))
    {
      if !hasPipe {
        return Throws(Error);
      }
      if farewell.Throws? {
        return Throws(farewell.what);
      }
      farewells := farewells + 1;
      if answer.Returns? || answer.what.Eof? {
        return Returns(Disconnected);
      }
      return Throws(answer.what);
    }

    /** The main loop, for as many turns as are given. */
    method Run(plan: seq<Turn>) returns (end: End)
      requires Tidy() && state.Connecting? && hasPipe && states == []
      modifies this
      ensures Tidy() && taken == old(taken) + EventsFrom(Connecting, plan)
      ensures (end, state) == RunFrom(Connecting, plan) && states == StatesFrom(Connecting, plan)
      ensures farewells == old(farewells) + FarewellsFrom(Connecting, plan)
      ensures end.Returned? ==> state == Disconnected && !hasPipe && told == old(told) + 1
      ensures !end.Returned? ==> hasPipe && told == old(told)
    {
      hide RunFrom, StatesFrom, EventsFrom, FarewellsFrom, AfterState, EventOf, FarewellOf;
      var keepLooping := true;
      var i := 0;
      assert plan[0..] == plan;
      while keepLooping
        invariant i <= |plan| && Tidy()
        invariant keepLooping ==> hasPipe && told == old(told)
        invariant !keepLooping ==> state == Disconnected && !hasPipe && told == old(told) + 1
        invariant RunFrom(Connecting, plan) == if keepLooping then RunFrom(state, plan[i..]) else (Returned, state)
        invariant StatesFrom(Connecting, plan) == states + if keepLooping then StatesFrom(state, plan[i..]) else []
        invariant old(taken) + EventsFrom(Connecting, plan)
               == taken + if keepLooping then EventsFrom(state, plan[i..]) else []
        invariant old(farewells) + FarewellsFrom(Connecting, plan)
               == farewells + if keepLooping then FarewellsFrom(state, plan[i..]) else 0
        decreases |plan| - i, keepLooping
      {
        if i == |plan| {
          NothingLeft(state);
          assert plan[i..] == [] && states + [] == states && taken + [] == taken;
          return Unfinished;
        }
        TurnNext(state, plan, i, AfterState(state, true, plan[i]), states, taken);
        var theState := state;
        states := states + [theState];
        var r := TakeTurn(plan[i]);
        i := i + 1;
        if r.Throws? {
          return Threw(r.what);
        }
        keepLooping := r.value.1;
        if theState != r.value.0 {
          state := r.value.0;
        }
      }
      return Returned;
    }

    /** After an exception the link is disconnected, or in no known state when it had got as far as a connection; it
        never runs, and the next turn of the loop would be its last. */
    method HandleException()
      modifies this`state
      ensures state == AfterException(old(state))
      ensures state.Disconnected? || state.Unknown?
      ensures state.Unknown? <==> old(state).Connected? || old(state).Running? || old(state).Unknown?
      ensures forall t, pipe :: AfterState(state, pipe, t) == Throws(Eof)
    {
      state := match state
        case Disconnected => Disconnected
        case Connecting => Disconnected
        case Disconnecting => Disconnected
        case _ => Unknown;
    }

    /** The thread: an exception of the loop is handled, and ends here. */
    method DoRun(plan: seq<Turn>) returns (end: End)
      requires Tidy() && state.Connecting? && hasPipe && states == []
      modifies this
      ensures Tidy() && taken == old(taken) + EventsFrom(Connecting, plan)
      ensures farewells == old(farewells) + FarewellsFrom(Connecting, plan)
      ensures end == RunFrom(Connecting, plan).0
      ensures state == if end.Threw? then AfterException(RunFrom(Connecting, plan).1) else RunFrom(Connecting, plan).1
      ensures end.Returned? ==> state == Disconnected && !hasPipe && told == old(told) + 1
      ensures !end.Returned? ==> hasPipe && told == old(told)
      ensures !end.Unfinished? ==> state.Disconnected? || state.Unknown?
    {
      hide RunFrom, EventsFrom, FarewellsFrom;
      end := Run(plan);
      if end.Threw? {
        HandleException();
      }
    }

    /** The destructor tells the server unless it was told. */
    method Destroy()
      modifies this`hasPipe, this`told
      ensures !hasPipe && told == old(told) + if old(hasPipe) then 1 else 0
    {
      if hasPipe {
        TellDisconnected();
      }
    }
  }

  function AfterException(s: EState): EState {
    if s.Disconnected? || s.Connecting? || s.Disconnecting? then Disconnected else Unknown
  }

  lemma NothingLeft(state: EState)
    ensures RunFrom(state, []) == (Unfinished, state) && StatesFrom(state, []) == [] && EventsFrom(state, []) == []
    ensures FarewellsFrom(state, []) == 0
  {
  }

  /** A turn is taken off the plan, its state and event added to those before. */
  lemma TurnNext(state: EState, plan: seq<Turn>, i: nat, next: Call<EState>, states: seq<EState>, taken: seq<nat>)
    requires i < |plan| && next == AfterState(state, true, plan[i])
    ensures RunFrom(state, plan[i..])
         == if next.Returns? then RunFrom(next.value, plan[i + 1..])
            else if next.what.Eof? then (Returned, Disconnected) else (Threw(next.what), state)
    ensures states + StatesFrom(state, plan[i..])
         == states + [state] + if next.Returns? then StatesFrom(next.value, plan[i + 1..]) else []
    ensures taken + EventsFrom(state, plan[i..])
         == taken + (if state.Running? then EventOf(plan[i].running) else [])
            + if next.Returns? then EventsFrom(next.value, plan[i + 1..]) else []
    ensures FarewellsFrom(state, plan[i..])
         == FarewellOf(state, true, plan[i]) + if next.Returns? then FarewellsFrom(next.value, plan[i + 1..]) else 0
  {
    hide AfterState, EventOf, FarewellOf, RunFrom, StatesFrom, EventsFrom, FarewellsFrom;
    PlanTail(plan, i);
    TurnTaken(state, plan[i..], next);
    AppendAssoc(states, [state], if next.Returns? then StatesFrom(next.value, plan[i + 1..]) else []);
    AppendAssoc(taken, if state.Running? then EventOf(plan[i].running) else [],
                if next.Returns? then EventsFrom(next.value, plan[i + 1..]) else []);
  }

  lemma PlanTail(plan: seq<Turn>, i: nat)
    requires i < |plan|
    ensures plan[i..] != [] && plan[i..][0] == plan[i] && plan[i..][1..] == plan[i + 1..]
  {
  }

  lemma TurnTaken(state: EState, plan: seq<Turn>, next: Call<EState>)
    requires plan != [] && next == AfterState(state, true, plan[0])
    ensures RunFrom(state, plan)
         == if next.Returns? then RunFrom(next.value, plan[1..])
            else if next.what.Eof? then (Returned, Disconnected) else (Threw(next.what), state)
    ensures StatesFrom(state, plan) == [state] + if next.Returns? then StatesFrom(next.value, plan[1..]) else []
    ensures EventsFrom(state, plan) == (if state.Running? then EventOf(plan[0].running) else [])
                                       + if next.Returns? then EventsFrom(next.value, plan[1..]) else []
    ensures FarewellsFrom(state, plan)
         == FarewellOf(state, true, plan[0]) + if next.Returns? then FarewellsFrom(next.value, plan[1..]) else 0
  {
    hide AfterState, EventOf, FarewellOf;
  }

  predicate TamePlan(plan: seq<Turn>) {
    forall t <- plan :: TameTurn(t.running)
  }

  lemma StepFollows(state: EState, t: Turn)
    requires TameTurn(t.running) && AfterState(state, true, t).Returns?
    ensures Follows(state, AfterState(state, true, t).value)
  {
  }

  lemma {:induction false} FollowsFrom(state: EState, plan: seq<Turn>)
    requires TamePlan(plan)
    ensures Chained(StatesFrom(state, plan))
    decreases plan
  {
    hide AfterState, Follows;
    if plan != [] && AfterState(state, true, plan[0]).Returns? {
      StepFollows(state, plan[0]);
      FollowsFrom(AfterState(state, true, plan[0]).value, plan[1..]);
    }
  }

  /** When the protocol only asks to go on or to stop, the loop keeps to its path; and the only exceptions that leave it
      are others than an end of file, thrown in a state that is not disconnected. */
  lemma StatesFollow(plan: seq<Turn>)
    requires TamePlan(plan)
    ensures Path(StatesFrom(Connecting, plan))
  {
    FollowsFrom(Connecting, plan);
  }

  /** An end of file stops the loop like a disconnection does; what else is thrown leaves it, in a state to which
      the link was still connected. */
  lemma {:induction false} HowItEnds(state: EState, plan: seq<Turn>)
    ensures RunFrom(state, plan).0.Returned? ==> RunFrom(state, plan).1 == Disconnected
    ensures RunFrom(state, plan).0.Threw? ==>
              && RunFrom(state, plan).0.what != Eof
              && RunFrom(state, plan).1 in {Connecting, Connected, Running, Disconnecting}
    ensures RunFrom(state, plan).0.Unfinished? ==> |StatesFrom(state, plan)| == |plan|
    decreases plan
  {
    if plan != [] && AfterState(state, true, plan[0]).Returns? {
      HowItEnds(AfterState(state, true, plan[0]).value, plan[1..]);
    }
  }

  // ---- where events lead ---------------------------------------------------------------------------

  lemma {:induction false} StateNext(state: EState, plan: seq<Turn>, i: nat)
    requires i + 1 < |StatesFrom(state, plan)|
    ensures |StatesFrom(state, plan)| <= |plan|
    ensures AfterState(StatesFrom(state, plan)[i], true, plan[i]) == Returns(StatesFrom(state, plan)[i + 1])
    decreases plan
  {
    hide AfterState;
    StatesFit(state, plan);
    if i > 0 {
      StateNext(AfterState(state, true, plan[0]).value, plan[1..], i - 1);
    }
  }

  lemma {:induction false} StatesFit(state: EState, plan: seq<Turn>)
    ensures |StatesFrom(state, plan)| <= |plan|
    ensures plan != [] ==> StatesFrom(state, plan) != [] && StatesFrom(state, plan)[0] == state
    decreases plan
  {
    hide AfterState;
    if plan != [] && AfterState(state, true, plan[0]).Returns? {
      StatesFit(AfterState(state, true, plan[0]).value, plan[1..]);
    }
  }

  /** What a running link that meets an event is in the next turn: disconnecting when told to disconnect, disconnected
      when told to close, running after any other event of the link; after a command, what the protocol asked for, and
      running if it could not be asked. */
  lemma EventLeads(plan: seq<Turn>, i: nat)
    requires i + 1 < |StatesFrom(Connecting, plan)| <= |plan| && StatesFrom(Connecting, plan)[i].Running?
    ensures var t, next := plan[i].running, StatesFrom(Connecting, plan)[i + 1];
            && (t.DisconnectLink? ==> next.Disconnecting?)
            && (t.CloseLink? ==> next.Disconnected?)
            && (t.OtherEvent? ==> next.Running?)
            && (t.Nothing? ==> t.idle == Returns(next))
            && (t.AppCommand? ==>
                  next == if t.begin.Returns? && t.process.Returns? then t.process.value.0 else Running)
            && (t.BytesAvailable? && t.left == Returns(true) ==> t.process.Returns? && next == t.process.value.0)
            && (t.BytesAvailable? && t.left == Returns(false) ==> next.Running?)
  {
    hide StatesFrom;
    StateNext(Connecting, plan, i);
  }

  /** A turn asks to disconnect: by an event, or by what the protocol answers to a command or to idling. */
  predicate AsksToDisconnect(t: RunningTurn) {
    match t
    case Nothing(idle) => idle == Returns(Disconnecting)
    case AppCommand(_, begin, process, _, _) => begin.Returns? && process.Returns? && process.value.0.Disconnecting?
    case BytesAvailable(_, left, receive, process, _, _) =>
      left == Returns(true) && receive.Returns? && process.Returns? && process.value.0.Disconnecting?
    case DisconnectLink(_) => true
    case CloseLink(_) => false
    case OtherEvent(_) => false
  }

  ghost predicate Asked(states: seq<EState>, plan: seq<Turn>) {
    exists i :: 0 <= i < |states| <= |plan| && states[i].Running? && AsksToDisconnect(plan[i].running)
  }

  lemma AskedNext(states: seq<EState>, plan: seq<Turn>)
    requires 0 < |states| <= |plan|
    ensures Asked(states, plan)
       <==> (states[0].Running? && AsksToDisconnect(plan[0].running)) || Asked(states[1..], plan[1..])
  {
    hide AsksToDisconnect;
    if i: nat :| i < |states| && states[i].Running? && AsksToDisconnect(plan[i].running) {
      if i > 0 {
        assert states[1..][i - 1] == states[i] && plan[1..][i - 1] == plan[i];
      }
    }
    if Asked(states[1..], plan[1..]) {
      var i :| 0 <= i < |states[1..]| && states[1..][i].Running? && AsksToDisconnect(plan[1..][i].running);
      assert states[i + 1] == states[1..][i] && plan[i + 1] == plan[1..][i];
    }
  }

  /** The loop came to be disconnected, turn after turn, with no exception to cut it short. */
  predicate EndsItself(states: seq<EState>) {
    states != [] && states[|states| - 1].Disconnected?
  }

  lemma AskedLeads(t: Turn)
    requires AfterState(Running, true, t).Returns? && TameTurn(t.running)
    ensures AfterState(Running, true, t).value.Disconnecting? <==> AsksToDisconnect(t.running)
    ensures Tame(AfterState(Running, true, t).value)
  {
  }

  lemma {:induction false} FarewellsAre(state: EState, plan: seq<Turn>)
    requires TamePlan(plan) && EndsItself(StatesFrom(state, plan)) && state != Unknown
    ensures FarewellsFrom(state, plan) == if state.Disconnecting? || Asked(StatesFrom(state, plan), plan) then 1 else 0
    decreases plan
  {
    hide Asked, AsksToDisconnect, TameTurn, AfterState;
    var states := StatesFrom(state, plan);
    StatesFit(state, plan);
    AskedNext(states, plan);
    NothingAsked(plan[1..]);
    LastTurn(state, plan[0]);
    var next := AfterState(state, true, plan[0]);
    if next.Returns? {
      assert states[1..] == StatesFrom(next.value, plan[1..]);
      StatesFit(next.value, plan[1..]);
      FarewellsAre(next.value, plan[1..]);
      if state.Running? {
        AskedLeads(plan[0]);
      }
      if state.Disconnecting? {
        NeverAsked(next.value, plan[1..]);
      }
      if next.value.Disconnecting? {
        NeverAsked(next.value, plan[1..]);
      }
    }
  }

  lemma NothingAsked(plan: seq<Turn>)
    ensures !Asked([], plan)
  {
  }

  /** What a turn leads to when it does not throw. */
  lemma LastTurn(state: EState, t: Turn)
    requires state != Unknown && TameTurn(t.running)
    ensures state.Disconnected? ==> AfterState(state, true, t).Throws?
    ensures state.Connecting? && AfterState(state, true, t).Returns? ==> AfterState(state, true, t).value.Connected?
    ensures state.Connected? && AfterState(state, true, t).Returns? ==> AfterState(state, true, t).value.Running?
    ensures state.Disconnecting? && AfterState(state, true, t).Returns? ==>
              t.farewell.Returns? && AfterState(state, true, t).value.Disconnected?
    ensures AfterState(state, true, t).Returns? ==> AfterState(state, true, t).value != Unknown
  {
  }

  lemma {:induction false} NeverAsked(state: EState, plan: seq<Turn>)
    requires state.Disconnecting? || state.Disconnected?
    ensures !Asked(StatesFrom(state, plan), plan)
    decreases plan
  {
    hide Asked, AsksToDisconnect;
    if plan == [] {
      NothingAsked(plan);
    } else {
      var states, next := StatesFrom(state, plan), AfterState(state, true, plan[0]);
      StatesFit(state, plan);
      AskedNext(states, plan);
      NothingAsked(plan[1..]);
      assert states[1..] == if next.Returns? then StatesFrom(next.value, plan[1..]) else [];
      if next.Returns? {
        NeverAsked(next.value, plan[1..]);
      }
    }
  }

  /** In a run that no exception cuts short, the link says farewell once if it met an event to disconnect, or the
      protocol asked to, while it was running, and otherwise never. */
  lemma FarewellIff(plan: seq<Turn>)
    requires TamePlan(plan) && EndsItself(StatesFrom(Connecting, plan))
    ensures FarewellsFrom(Connecting, plan) == if Asked(StatesFrom(Connecting, plan), plan) then 1 else 0
  {
    hide FarewellsFrom, StatesFrom, Asked;
    FarewellsAre(Connecting, plan);
  }

  /** A link told to close says no farewell, and is disconnected in the next turn. */
  lemma {:induction false} ClosedWithoutFarewell(state: EState, plan: seq<Turn>, i: nat)
    requires TamePlan(plan) && i < |StatesFrom(state, plan)| <= |plan| && StatesFrom(state, plan)[i].Running?
    requires plan[i].running.CloseLink? && !state.Disconnecting?
    ensures FarewellsFrom(state, plan) == 0
    ensures i + 1 < |plan| ==> |StatesFrom(state, plan)| == i + 2 && StatesFrom(state, plan)[i + 1].Disconnected?
    decreases plan
  {
    var next := AfterState(state, true, plan[0]);
    StatesFit(state, plan);
    if i == 0 {
      assert next == Returns(Disconnected);
      if plan[1..] != [] {
        assert AfterState(Disconnected, true, plan[1]).Throws? && plan[1..][0] == plan[1];
      }
    } else {
      StepFollows(state, plan[0]);
      StatesFit(next.value, plan[1..]);
      if next.value.Disconnecting? {
        NotRunningAfter(plan[1..], i - 1);
      }
      ClosedWithoutFarewell(next.value, plan[1..], i - 1);
    }
  }

  lemma NotRunningAfter(plan: seq<Turn>, i: nat)
    requires i < |StatesFrom(Disconnecting, plan)|
    ensures !StatesFrom(Disconnecting, plan)[i].Running?
  {
  }

  /** On a path, after the connection the link runs until it stops: once disconnected, or disconnecting, it never runs
      again. */
  lemma {:induction false} NeverRunsAgain(states: seq<EState>, i: nat, j: nat)
    requires Path(states) && i < j < |states|
    ensures states[i].Disconnecting? ==> states[j].Disconnected? && j == i + 1 == |states| - 1
    ensures states[i].Disconnected? ==> false
    ensures states[j].Running? ==> states[i].Connecting? || states[i].Connected? || states[i].Running?
    decreases j - i
  {
    assert Follows(states[i + 1 - 1], states[i + 1]);
    if i + 1 < j {
      assert Follows(states[i + 2 - 1], states[i + 2]);
      NeverRunsAgain(states, i + 1, j);
    } else if j + 1 < |states| {
      assert Follows(states[j + 1 - 1], states[j + 1]);
    }
  }

  /** A whole life: a link that was connected, ran and was destroyed has told its server exactly once, however it ended,
      and has deleted every event it took exactly once. */
  method Life(plan: seq<Turn>) returns (link: Link, end: End)
    ensures link.told == 1 && !link.hasPipe && link.deleted == link.taken && !link.isBusy
    ensures link.taken == EventsFrom(Connecting, plan) && end == RunFrom(Connecting, plan).0
    ensures link.farewells == FarewellsFrom(Connecting, plan)
  {
    hide RunFrom, EventsFrom, FarewellsFrom;
    link := new Link();
    var ok := link.Connect();
    end := link.DoRun(plan);
    assert [] + EventsFrom(Connecting, plan) == EventsFrom(Connecting, plan);
    link.Destroy();
  }
}
