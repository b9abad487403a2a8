/** The airlock cycle sequencer: an eight-state machine that moves strictly forward,
    one step per call, and drives its doors and vents through delegates.

    The delegates are modelled by a recorded trace of their invocations (`Event`);
    the two oracle delegates (`AreDoorsClosed`, `IsRoomReady`) have their answer passed
    in per call and recorded in the trace when they are consulted. */
module StateMachine {

  /** The stages of one cycle, in declaration (and execution) order. */
  datatype CycleState =
    | Init
    | DoorsClosing
    | DoorsClosed
    | DoorsLocked
    | Cycling
    | Cycled
    | DoorsUnlocked
    | Finished

  /** Position of a state in the enum declaration. */
  function Ordinal(s: CycleState): nat
  {
    match s
    case Init => 0
    case DoorsClosing => 1
    case DoorsClosed => 2
    case DoorsLocked => 3
    case Cycling => 4
    case Cycled => 5
    case DoorsUnlocked => 6
    case Finished => 7
  }

  datatype Status = Running | Complete

  /** Which of the nullable delegates are wired. The five command delegates and the
      two oracles are invoked unconditionally; these five are skipped when null. */
  datatype Hooks = Hooks(
    startCountdown: bool,
    startCycleLights: bool,
    setLockedLights: bool,
    setOpenLights: bool,
    stopCycleLights: bool)

  /** One invocation of a delegate, with the answer where the delegate is an oracle. */
  datatype Event =
    | StartCountdown
    | CloseDoors
    | LockDoors
    | CycleAir
    | UnlockDoors
    | OpenDoors
    | AreDoorsClosed(closed: bool)
    | IsRoomReady(ready: bool)
    | StartCycleLights
    | SetLockedLights
    | SetOpenLights
    | StopCycleLights

  /** The five actuating delegates: the ones that move doors and air. */
  predicate IsCommand(e: Event)
  {
    e.CloseDoors? || e.LockDoors? || e.CycleAir? || e.UnlockDoors? || e.OpenDoors?
  }

  /** The order in which a complete cycle issues its commands. */
  const CommandOrder: seq<Event> := [CloseDoors, LockDoors, CycleAir, UnlockDoors, OpenDoors]

  /** How many commands of `CommandOrder` a machine has issued once it is in state `s`. */
  function Issued(s: CycleState): (n: nat)
    ensures n <= |CommandOrder|
  {
    match s
    case Init => 0
    case DoorsClosing => 1
    case DoorsClosed => 1
    case DoorsLocked => 2
    case Cycling => 3
    case Cycled => 3
    case DoorsUnlocked => 4
    case Finished => 5
  }

  /** The commands of a trace, in order, with hooks and observations dropped. */
  function Commands(trace: seq<Event>): (r: seq<Event>)
    ensures |r| <= |trace|
  {
    if trace == [] then []
    else if IsCommand(trace[0]) then [trace[0]] + Commands(trace[1..])
    else Commands(trace[1..])
  }

  lemma {:induction false} CommandsAppend(a: seq<Event>, b: seq<Event>)
    ensures Commands(a + b) == Commands(a) + Commands(b)
  {
    if a == [] {
      assert a + b == b;
    } else {
      assert (a + b)[0] == a[0];
      assert (a + b)[1..] == a[1..] + b;
      CommandsAppend(a[1..], b);
    }
  }

  function Hook(wired: bool, e: Event): seq<Event>
  {
    if wired then [e] else []
  }

  /** What one call of `Run` does from state `s`: the next state, the returned status
      and the delegate invocations, in the order the script makes them. */
  datatype StepResult = StepResult(next: CycleState, status: Status, events: seq<Event>)

  function Step(s: CycleState, hooks: Hooks, doorsClosed: bool, roomReady: bool): StepResult
  {
    var countdown := Hook(hooks.startCountdown, StartCountdown);
    match s
    case Init =>
      StepResult(DoorsClosing, Running,
                 countdown + [CloseDoors] + Hook(hooks.startCycleLights, StartCycleLights))
    case DoorsClosing =>
      StepResult(if doorsClosed then DoorsClosed else DoorsClosing, Running,
                 countdown + [AreDoorsClosed(doorsClosed)])
    case DoorsClosed =>
      StepResult(DoorsLocked, Running,
                 countdown + [LockDoors] + Hook(hooks.setLockedLights, SetLockedLights))
    case DoorsLocked =>
      StepResult(Cycling, Running, countdown + [CycleAir])
    case Cycling =>
      StepResult(if roomReady then Cycled else Cycling, Running,
                 countdown + [IsRoomReady(roomReady)])
    case Cycled =>
      StepResult(DoorsUnlocked, Running,
                 countdown + [UnlockDoors] + Hook(hooks.setOpenLights, SetOpenLights)
                 + Hook(hooks.stopCycleLights, StopCycleLights))
    case DoorsUnlocked =>
      StepResult(Finished, Complete, countdown + [OpenDoors])
    case Finished =>
      StepResult(Finished, Running, countdown)
  }

  /** Each call moves the state forward by at most one position, never backward. */
  lemma StepMovesForward(s: CycleState, hooks: Hooks, doorsClosed: bool, roomReady: bool)
    ensures var r := Step(s, hooks, doorsClosed, roomReady);
      Ordinal(s) <= Ordinal(r.next) <= Ordinal(s) + 1
  {
  }

  /** `Complete` is returned exactly from `DoorsUnlocked`, which opens the doors and
      enters `Finished`; every other call, `Finished` included, returns `Running`. */
  lemma StepCompletesOnlyFromDoorsUnlocked(s: CycleState, hooks: Hooks, doorsClosed: bool, roomReady: bool)
    ensures var r := Step(s, hooks, doorsClosed, roomReady);
      && (r.status == Complete <==> s == DoorsUnlocked)
      && (r.status == Complete ==> r.next == Finished && Commands(r.events) == [OpenDoors])
  {
    var r := Step(s, hooks, doorsClosed, roomReady);
    if s == DoorsUnlocked {
      CommandsAppend(Hook(hooks.startCountdown, StartCountdown), [OpenDoors]);
    }
  }

  /** In the two waiting states the state advances iff the oracle says so, and a call
      that does not advance issues no command. */
  lemma StepWaitsOnOracles(s: CycleState, hooks: Hooks, doorsClosed: bool, roomReady: bool)
    requires s == DoorsClosing || s == Cycling
    ensures var r := Step(s, hooks, doorsClosed, roomReady);
      && (s == DoorsClosing ==> (r.next == DoorsClosed <==> doorsClosed))
      && (s == Cycling ==> (r.next == Cycled <==> roomReady))
      && Commands(r.events) == []
  {
    var c := Hook(hooks.startCountdown, StartCountdown);
    if s == DoorsClosing {
      CommandsAppend(c, [AreDoorsClosed(doorsClosed)]);
    } else {
      CommandsAppend(c, [IsRoomReady(roomReady)]);
    }
  }

  /** The countdown hook fires first on every call, whatever the state, when it is wired;
      a light hook fires only when it is wired. */
  lemma StepHooks(s: CycleState, hooks: Hooks, doorsClosed: bool, roomReady: bool)
    ensures var r := Step(s, hooks, doorsClosed, roomReady);
      && (hooks.startCountdown <==> StartCountdown in r.events)
      && (hooks.startCountdown ==> r.events[0] == StartCountdown)
      && (StartCycleLights in r.events ==> hooks.startCycleLights)
      && (SetLockedLights in r.events ==> hooks.setLockedLights)
      && (SetOpenLights in r.events ==> hooks.setOpenLights)
      && (StopCycleLights in r.events ==> hooks.stopCycleLights)
  {
  }

  lemma CommandsOfOne(e: Event)
    ensures Commands([e]) == if IsCommand(e) then [e] else []
  {
    assert [e][1..] == [];
  }

  lemma CommandsOfHook(wired: bool, e: Event)
    requires !IsCommand(e)
    ensures Commands(Hook(wired, e)) == []
  {
    if wired {
      CommandsOfOne(e);
    }
  }

  /** A command between two stretches without commands is the only command. */
  lemma CommandsAround(before: seq<Event>, e: Event, after: seq<Event>)
    requires Commands(before) == [] && Commands(after) == []
    ensures Commands(before + [e] + after) == if IsCommand(e) then [e] else []
  {
    CommandsOfOne(e);
    CommandsAppend(before, [e]);
    CommandsAppend(before + [e], after);
  }

  lemma StepCommandsBeforeCycling(s: CycleState, hooks: Hooks, doorsClosed: bool, roomReady: bool)
    requires Ordinal(s) < Ordinal(Cycling)
    ensures var r := Step(s, hooks, doorsClosed, roomReady);
      Commands(r.events) == CommandOrder[Issued(s)..Issued(r.next)]
  {
    var r := Step(s, hooks, doorsClosed, roomReady);
    var c := Hook(hooks.startCountdown, StartCountdown);
    CommandsOfHook(hooks.startCountdown, StartCountdown);
    if s == Init {
      var h := Hook(hooks.startCycleLights, StartCycleLights);
      CommandsOfHook(hooks.startCycleLights, StartCycleLights);
      CommandsAround(c, CloseDoors, h);
      assert CommandOrder[0..1] == [CloseDoors];
    } else if s == DoorsClosing {
      assert r.events == c + [AreDoorsClosed(doorsClosed)] + [];
      CommandsAround(c, AreDoorsClosed(doorsClosed), []);
    } else if s == DoorsClosed {
      var h := Hook(hooks.setLockedLights, SetLockedLights);
      CommandsOfHook(hooks.setLockedLights, SetLockedLights);
      CommandsAround(c, LockDoors, h);
      assert CommandOrder[1..2] == [LockDoors];
    } else {
      assert r.events == c + [CycleAir] + [];
      CommandsAround(c, CycleAir, []);
      assert CommandOrder[2..3] == [CycleAir];
    }
  }

  lemma StepCommandsFromCycling(s: CycleState, hooks: Hooks, doorsClosed: bool, roomReady: bool)
    requires Ordinal(s) >= Ordinal(Cycling)
    ensures var r := Step(s, hooks, doorsClosed, roomReady);
      Commands(r.events) == CommandOrder[Issued(s)..Issued(r.next)]
  {
    assert CommandOrder[3..4] == [UnlockDoors];
    var r := Step(s, hooks, doorsClosed, roomReady);
    var c := Hook(hooks.startCountdown, StartCountdown);
    CommandsOfHook(hooks.startCountdown, StartCountdown);
    if s == Cycling {
      assert r.events == c + [IsRoomReady(roomReady)] + [];
      CommandsAround(c, IsRoomReady(roomReady), []);
    } else if s == Cycled {
      StepCommandsAtCycled(hooks, doorsClosed, roomReady);
    } else if s == DoorsUnlocked {
      assert r.events == c + [OpenDoors] + [];
      CommandsAround(c, OpenDoors, []);
      assert CommandOrder[4..5] == [OpenDoors];
    }
  }

  lemma StepCommandsAtCycled(hooks: Hooks, doorsClosed: bool, roomReady: bool)
    ensures Commands(Step(Cycled, hooks, doorsClosed, roomReady).events) == [UnlockDoors]
  {
    var r := Step(Cycled, hooks, doorsClosed, roomReady);
    var c := Hook(hooks.startCountdown, StartCountdown);
    var h1 := Hook(hooks.setOpenLights, SetOpenLights);
    var h2 := Hook(hooks.stopCycleLights, StopCycleLights);
    CommandsOfHook(hooks.startCountdown, StartCountdown);
    CommandsOfHook(hooks.setOpenLights, SetOpenLights);
    CommandsOfHook(hooks.stopCycleLights, StopCycleLights);
    assert r.events == c + [UnlockDoors] + (h1 + h2);
    CommandsAppend(h1, h2);
    CommandsAround(c, UnlockDoors, h1 + h2);
  }

  /** The commands a step issues are exactly the next slice of `CommandOrder`. */
  lemma StepCommands(s: CycleState, hooks: Hooks, doorsClosed: bool, roomReady: bool)
    ensures var r := Step(s, hooks, doorsClosed, roomReady);
      Issued(s) <= Issued(r.next) &&
      Commands(r.events) == CommandOrder[Issued(s)..Issued(r.next)]
  {
    if Ordinal(s) < Ordinal(Cycling) {
      StepCommandsBeforeCycling(s, hooks, doorsClosed, roomReady);
    } else {
      StepCommandsFromCycling(s, hooks, doorsClosed, roomReady);
    }
  }

  /** A trace is one that a machine now in state `s` can have produced: its commands are
      the prefix of `CommandOrder` the state implies (so each command occurs at most once
      and in order), and locking and unlocking were issued only after the corresponding
      oracle answered true. */
  ghost predicate TraceFits(s: CycleState, trace: seq<Event>)
  {
    && Commands(trace) == CommandOrder[..Issued(s)]
    && (Ordinal(s) >= Ordinal(DoorsClosed) ==> AreDoorsClosed(true) in trace)
    && (Ordinal(s) >= Ordinal(Cycled) ==> IsRoomReady(true) in trace)
    && Guarded(trace, LockDoors, AreDoorsClosed(true))
    && Guarded(trace, UnlockDoors, IsRoomReady(true))
  }

  /** Every `cmd` in the trace comes after an `obs`. */
  ghost predicate Guarded(trace: seq<Event>, cmd: Event, obs: Event)
    decreases |trace|
  {
    trace == [] ||
      var k := |trace| - 1;
      Guarded(trace[..k], cmd, obs) && (trace[k] == cmd ==> obs in trace[..k])
  }

  lemma {:induction false} GuardedMeans(trace: seq<Event>, cmd: Event, obs: Event)
    ensures Guarded(trace, cmd, obs) <==>
      forall i :: 0 <= i < |trace| && trace[i] == cmd ==> obs in trace[..i]
    decreases |trace|
  {
    if trace != [] {
      var k := |trace| - 1;
      GuardedMeans(trace[..k], cmd, obs);
      forall i | 0 <= i < k
        ensures trace[..k][i] == trace[i] && trace[..k][..i] == trace[..i]
      {
      }
    }
  }

  /** Where in the cycle locking, unlocking and the two positive observations happen. */
  lemma StepLandmarks(s: CycleState, hooks: Hooks, doorsClosed: bool, roomReady: bool)
    ensures var r := Step(s, hooks, doorsClosed, roomReady);
      && (LockDoors in r.events ==> s == DoorsClosed)
      && (UnlockDoors in r.events ==> s == Cycled)
      && (Ordinal(s) < Ordinal(DoorsClosed) <= Ordinal(r.next) ==> AreDoorsClosed(true) in r.events)
      && (Ordinal(s) < Ordinal(Cycled) <= Ordinal(r.next) ==> IsRoomReady(true) in r.events)
  {
  }

  /** A step result that issues the next slice of commands at the right landmarks keeps
      a trace fitting its state. */
  lemma {:induction false} LandmarkedStepKeepsTraceFit(s: CycleState, trace: seq<Event>, r: StepResult)
    requires TraceFits(s, trace)
    requires Ordinal(s) <= Ordinal(r.next)
    requires Issued(s) <= Issued(r.next)
    requires Commands(r.events) == CommandOrder[Issued(s)..Issued(r.next)]
    requires LockDoors in r.events ==> s == DoorsClosed
    requires UnlockDoors in r.events ==> s == Cycled
    requires Ordinal(s) < Ordinal(DoorsClosed) <= Ordinal(r.next) ==> AreDoorsClosed(true) in r.events
    requires Ordinal(s) < Ordinal(Cycled) <= Ordinal(r.next) ==> IsRoomReady(true) in r.events
    ensures TraceFits(r.next, trace + r.events)
  {
    var t := trace + r.events;
    CommandsAppend(trace, r.events);
    assert CommandOrder[..Issued(s)] + CommandOrder[Issued(s)..Issued(r.next)] == CommandOrder[..Issued(r.next)];
    GuardedAppend(trace, r.events, LockDoors, AreDoorsClosed(true));
    GuardedAppend(trace, r.events, UnlockDoors, IsRoomReady(true));
  }

  /** Events without `cmd` keep a trace guarded, and so do any events once `obs` has occurred. */
  lemma {:induction false} GuardedAppend(trace: seq<Event>, events: seq<Event>, cmd: Event, obs: Event)
    requires Guarded(trace, cmd, obs)
    requires cmd in events ==> obs in trace
    ensures Guarded(trace + events, cmd, obs)
    decreases |events|
  {
    if events == [] {
      assert trace + events == trace;
    } else {
      var k := |events| - 1;
      var t := trace + events;
      assert t[..|t| - 1] == trace + events[..k] && t[|t| - 1] == events[k];
      assert cmd in events[..k] ==> cmd in events;
      GuardedAppend(trace, events[..k], cmd, obs);
      if events[k] == cmd {
        assert obs in trace;
        assert trace <= t[..|t| - 1];
      }
    }
  }

  /** One call keeps a trace fitting its state. */
  lemma StepKeepsTraceFit(s: CycleState, trace: seq<Event>, hooks: Hooks,
                          doorsClosed: bool, roomReady: bool)
    requires TraceFits(s, trace)
    ensures TraceFits(Step(s, hooks, doorsClosed, roomReady).next,
                      trace + Step(s, hooks, doorsClosed, roomReady).events)
  {
    StepCommands(s, hooks, doorsClosed, roomReady);
    StepLandmarks(s, hooks, doorsClosed, roomReady);
    StepMovesForward(s, hooks, doorsClosed, roomReady);
    LandmarkedStepKeepsTraceFit(s, trace, Step(s, hooks, doorsClosed, roomReady));
  }

  /** The oracle answers seen by one call of `Run`. */
  datatype Input = Input(doorsClosed: bool, roomReady: bool)

  /** What a sequence of calls does: final state, the trace they append, their statuses. */
  datatype Outcome = Outcome(final: CycleState, trace: seq<Event>, statuses: seq<Status>)

  function RunAll(s: CycleState, hooks: Hooks, inputs: seq<Input>): (o: Outcome)
    ensures |o.statuses| == |inputs|
    decreases |inputs|
  {
    if inputs == [] then Outcome(s, [], [])
    else
      var r := Step(s, hooks, inputs[0].doorsClosed, inputs[0].roomReady);
      var rest := RunAll(r.next, hooks, inputs[1..]);
      Outcome(rest.final, r.events + rest.trace, [r.status] + rest.statuses)
  }

  lemma AppendAssoc<T>(a: seq<T>, b: seq<T>, c: seq<T>)
    ensures (a + b) + c == a + (b + c)
  {
  }

  /** The trace of a first call fits the state it leaves the machine in. */
  lemma CountdownFits()
    ensures TraceFits(DoorsClosing, [StartCountdown, CloseDoors])
  {
    assert Commands([StartCountdown, CloseDoors]) == [CloseDoors] by {
      assert [StartCountdown, CloseDoors][1..] == [CloseDoors];
      assert [CloseDoors][1..] == [];
    }
    assert CommandOrder[..Issued(DoorsClosing)] == [CloseDoors];
    var events := [StartCountdown, CloseDoors];
    assert [] + events == events;
    GuardedAppend([], events, LockDoors, AreDoorsClosed(true));
    GuardedAppend([], events, UnlockDoors, IsRoomReady(true));
  }

  /** Any run keeps the trace fitting the state. */
  lemma {:induction false} RunAllKeepsTraceFit(s: CycleState, trace: seq<Event>, hooks: Hooks, inputs: seq<Input>)
    requires TraceFits(s, trace)
    ensures var o := RunAll(s, hooks, inputs); TraceFits(o.final, trace + o.trace)
    decreases |inputs|
  {
    var o := RunAll(s, hooks, inputs);
    if inputs == [] {
      assert trace + o.trace == trace;
    } else {
      var r := Step(s, hooks, inputs[0].doorsClosed, inputs[0].roomReady);
      var rest := RunAll(r.next, hooks, inputs[1..]);
      assert o.final == rest.final && o.trace == r.events + rest.trace;
      StepKeepsTraceFit(s, trace, hooks, inputs[0].doorsClosed, inputs[0].roomReady);
      RunAllKeepsTraceFit(r.next, trace + r.events, hooks, inputs[1..]);
      AppendAssoc(trace, r.events, rest.trace);
    }
  }

  /** Whatever the oracles answer, a fresh machine issues CloseDoors, LockDoors, CycleAir,
      UnlockDoors, OpenDoors in that order, each at most once; LockDoors only after the
      doors were observed closed and UnlockDoors only after the room was observed ready. */
  lemma CommandsAreOrdered(hooks: Hooks, inputs: seq<Input>)
    ensures var o := RunAll(Init, hooks, inputs);
      && Commands(o.trace) <= CommandOrder
      && (forall i :: 0 <= i < |o.trace| && o.trace[i] == LockDoors ==> AreDoorsClosed(true) in o.trace[..i])
      && (forall i :: 0 <= i < |o.trace| && o.trace[i] == UnlockDoors ==> IsRoomReady(true) in o.trace[..i])
  {
    assert Commands([]) == [];
    RunAllKeepsTraceFit(Init, [], hooks, inputs);
    var t := RunAll(Init, hooks, inputs).trace;
    assert [] + t == t;
    GuardedMeans(t, LockDoors, AreDoorsClosed(true));
    GuardedMeans(t, UnlockDoors, IsRoomReady(true));
  }

  /** Over any run the state only moves forward, at most one position per call. */
  lemma {:induction false} RunAllMovesForward(s: CycleState, hooks: Hooks, inputs: seq<Input>)
    ensures Ordinal(s) <= Ordinal(RunAll(s, hooks, inputs).final) <= Ordinal(s) + |inputs|
    decreases |inputs|
  {
    if inputs != [] {
      var r := Step(s, hooks, inputs[0].doorsClosed, inputs[0].roomReady);
      StepMovesForward(s, hooks, inputs[0].doorsClosed, inputs[0].roomReady);
      RunAllMovesForward(r.next, hooks, inputs[1..]);
    }
  }

  /** A machine reports `Complete` at most once over any run, and never once finished. */
  lemma {:induction false} CompletesAtMostOnce(s: CycleState, hooks: Hooks, inputs: seq<Input>)
    ensures multiset(RunAll(s, hooks, inputs).statuses)[Complete] <= 1
    ensures s == Finished ==> Complete !in RunAll(s, hooks, inputs).statuses
    decreases |inputs|
  {
    if inputs != [] {
      var o := RunAll(s, hooks, inputs);
      var r := Step(s, hooks, inputs[0].doorsClosed, inputs[0].roomReady);
      var rest := RunAll(r.next, hooks, inputs[1..]);
      assert o.statuses == [r.status] + rest.statuses;
      StepCompletesOnlyFromDoorsUnlocked(s, hooks, inputs[0].doorsClosed, inputs[0].roomReady);
      assert s == Finished ==> r.next == Finished;
      CompletesAtMostOnce(r.next, hooks, inputs[1..]);
      assert multiset(o.statuses) == multiset([r.status]) + multiset(rest.statuses);
    }
  }

  /** The oracle answers of `n` calls in which doors are closed and the room is ready. */
  function AllReady(n: nat): (inputs: seq<Input>)
    ensures |inputs| == n && forall i :: 0 <= i < n ==> inputs[i] == Input(true, true)
  {
    seq(n, _ => Input(true, true))
  }

  /** When both oracles always answer true, the seventh call is the first to complete. */
  lemma CompletesOnSeventhReadyCall(hooks: Hooks)
    ensures var o := RunAll(Init, hooks, AllReady(7));
      && o.final == Finished
      && o.statuses == [Running, Running, Running, Running, Running, Running, Complete]
  {
    var ins := AllReady(7);
    assert ins[1..] == AllReady(6);
    assert AllReady(6)[1..] == AllReady(5);
    assert AllReady(5)[1..] == AllReady(4);
    assert AllReady(4)[1..] == AllReady(3);
    assert AllReady(3)[1..] == AllReady(2);
    assert AllReady(2)[1..] == AllReady(1);
    assert AllReady(1)[1..] == [];
  }

  /** While the doors never report closed, the machine stays in `DoorsClosing` and never
      completes. */
  lemma {:induction false} StallsWhileDoorsOpen(hooks: Hooks, inputs: seq<Input>)
    requires forall i :: 0 <= i < |inputs| ==> !inputs[i].doorsClosed
    ensures RunAll(DoorsClosing, hooks, inputs).final == DoorsClosing
    ensures forall i :: 0 <= i < |inputs| ==> RunAll(DoorsClosing, hooks, inputs).statuses[i] == Running
    decreases |inputs|
  {
    if inputs != [] {
      StallsWhileDoorsOpen(hooks, inputs[1..]);
    }
  }

  /** While the room never reports ready, the machine stays in `Cycling` and never
      completes. */
  lemma {:induction false} StallsWhileRoomNotReady(hooks: Hooks, inputs: seq<Input>)
    requires forall i :: 0 <= i < |inputs| ==> !inputs[i].roomReady
    ensures RunAll(Cycling, hooks, inputs).final == Cycling
    ensures forall i :: 0 <= i < |inputs| ==> RunAll(Cycling, hooks, inputs).statuses[i] == Running
    decreases |inputs|
  {
    if inputs != [] {
      StallsWhileRoomNotReady(hooks, inputs[1..]);
    }
  }

  /** The machine object: its current stage, the hooks it was built with, and the trace
      of delegate invocations it has made. */
  class AirlockStateMachine {
    const hooks: Hooks
    var state: CycleState
    var trace: seq<Event>

    ghost predicate Valid()
      reads this
    {
      TraceFits(state, trace)
    }

    /** A new machine starts in `Init` and has invoked nothing. */
    constructor (hooks: Hooks)
      ensures Valid()
      ensures this.hooks == hooks && state == Init && trace == []
    {
      this.hooks := hooks;
      state := Init;
      trace := [];
    }

    /** One call of the sequencer: the countdown hook, then the `switch` on the current
        state. The delegate invocations of the call are collected in `events`, an optional
        hook (`hook?.Invoke()`) contributing only when wired, and recorded at the end. */
    method Run(doorsClosed: bool, roomReady: bool) returns (status: Status)
      requires Valid()
      modifies this
      ensures Valid()
      ensures var r := Step(old(state), hooks, doorsClosed, roomReady);
        state == r.next && trace == old(trace) + r.events && status == r.status
    {
      ghost var s0 := state;
      var events := Hook(hooks.startCountdown, StartCountdown);
      match state {
        case Init =>
          events := events + [CloseDoors];
          events := events + Hook(hooks.startCycleLights, StartCycleLights);
          state := DoorsClosing;
          status := Running;
        case DoorsClosing =>
          events := events + [AreDoorsClosed(doorsClosed)];
          if doorsClosed {
            state := DoorsClosed;
          }
          status := Running;
        case DoorsClosed =>
          events := events + [LockDoors];
          events := events + Hook(hooks.setLockedLights, SetLockedLights);
          state := DoorsLocked;
          status := Running;
        case DoorsLocked =>
          events := events + [CycleAir];
          state := Cycling;
          status := Running;
        case Cycling =>
          events := events + [IsRoomReady(roomReady)];
          if roomReady {
            state := Cycled;
          }
          status := Running;
        case Cycled =>
          events := events + [UnlockDoors];
          state := DoorsUnlocked;
          events := events + Hook(hooks.setOpenLights, SetOpenLights);
          events := events + Hook(hooks.stopCycleLights, StopCycleLights);
          status := Running;
        case DoorsUnlocked =>
          events := events + [OpenDoors];
          state := Finished;
          status := Complete;
        case Finished =>
          status := Running;
      }
      StepKeepsTraceFit(s0, trace, hooks, doorsClosed, roomReady);
      trace := trace + events;
    }
  }
}
