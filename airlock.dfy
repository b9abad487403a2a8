/** One airlock: the device lists it sorts its discovered blocks into, the sequencer it
    owns while a cycle runs, and the device commands it sends on the sequencer's behalf. */
module Airlocks {
  import opened Devices
  import SM = StateMachine

  /** What `Update` reports to the registry. */
  datatype Status = Idle | Cycling | Complete

  /** The airlock wires the countdown hook (to the registry's timer) and no light hook. */
  const AirlockHooks := SM.Hooks(true, false, false, false, false)

  /** The search tag a later `Reinitialize` computes as written: interpolating the wrapper
      array itself yields the array's type name, not its two parts. */
  const ArrayTypeName := "System.String[]"

  function TagAsWritten(wrapper: seq<string>, name: string): (tag: string)
    ensures |tag| == 2 * |ArrayTypeName| + |name|
    ensures tag[|ArrayTypeName|..|ArrayTypeName| + |name|] == name
  {
    ArrayTypeName + name + ArrayTypeName
  }

  /** With a wrapper such as `[`, `]` the tag as written is not the wrapped name, so the
      re-run search looks for a different name than the one the airlock was built with. */
  lemma TagAsWrittenDiffers()
    ensures TagAsWritten(["[", "]"], "A") != SearchTag(["[", "]"], "A")
  {
    assert |TagAsWritten(["[", "]"], "A")| == 31;
    assert |SearchTag(["[", "]"], "A")| == 3;
  }

  class Airlock {
    const name: string
    var tag: string
    var terminalBlocks: seq<Block>
    var allDoors: seq<Door>
    var interiorDoors: seq<Door>
    var exteriorDoors: seq<Door>
    var airVents: seq<Vent>
    var oxygenTanks: seq<Tank>
    var cycleLights: seq<Light>
    var interiorLights: seq<Light>
    var exteriorLights: seq<Light>
    var stateMachine: SM.AirlockStateMachine?
    /** The wiring chosen when the current machine was built: its delegates act on the
        interior or on the exterior doors and wait on the matching ready test. */
    var direction: Direction
    /** Every device command sent so far, in order. */
    var commands: seq<DeviceCommand>

    function Lists(): Inventory
      reads this`interiorDoors, this`exteriorDoors, this`airVents, this`oxygenTanks,
            this`interiorLights, this`exteriorLights, this`cycleLights
    {
      Inventory(interiorDoors, exteriorDoors, airVents, oxygenTanks, interiorLights, exteriorLights, cycleLights)
    }

    /** All doors are the interior doors followed by the exterior doors; a machine that is
        held is wired as above, satisfies its own invariant and has not yet finished (the
        finishing call hands back `Complete` and drops it). */
    ghost predicate Valid()
      reads this, stateMachine
    {
      && allDoors == interiorDoors + exteriorDoors
      && (stateMachine != null ==>
            && stateMachine.hooks == AirlockHooks
            && stateMachine.Valid()
            && stateMachine.state != SM.Finished)
    }

    /** A new airlock holds no devices and no machine; its search tag is its name inside
        the two halves of the wrapper. */
    constructor (name: string, wrapper: seq<string>)
      requires |wrapper| >= 2
      ensures this.name == name && tag == SearchTag(wrapper, name)
      ensures Lists() == NoDevices && allDoors == [] && terminalBlocks == []
      ensures stateMachine == null && commands == []
      ensures Valid()
    {
      this.name := name;
      tag := SearchTag(wrapper, name);
      terminalBlocks := [];
      allDoors := [];
      interiorDoors := [];
      exteriorDoors := [];
      airVents := [];
      oxygenTanks := [];
      cycleLights := [];
      interiorLights := [];
      exteriorLights := [];
      stateMachine := null;
      direction := Pressurize;
      commands := [];
    }

    // -------------------------------------------------------------------------
    // Aggregate readings
    // -------------------------------------------------------------------------

    method DoorsAreClosed(r: Readings) returns (closed: bool)
      ensures closed <==> forall i :: 0 <= i < |allDoors| ==> r.closedFlag(allDoors[i])
      ensures closed == Devices.DoorsAreClosed(allDoors, r)
    {
      DoorsAreClosedIff(allDoors, r);
      closed := true;
      var i := 0;
      while i < |allDoors|
        invariant 0 <= i <= |allDoors|
        invariant closed && forall j :: 0 <= j < i ==> r.closedFlag(allDoors[j])
      {
        if !r.closedFlag(allDoors[i]) {
          closed := false;
          break;
        }
        i := i + 1;
      }
    }

    method IsDepressurized(r: Readings) returns (depressurized: bool)
      ensures depressurized <==>
        forall i :: 0 <= i < |airVents| ==>
          || r.ventStatus(airVents[i]) == Depressurized
          || (r.ventStatus(airVents[i]) == Depressurizing && r.oxygenLevel(airVents[i]) <= 0.01)
      ensures depressurized == Devices.IsDepressurized(airVents, r)
    {
      IsDepressurizedIff(airVents, r);
      depressurized := true;
      var i := 0;
      while i < |airVents|
        invariant 0 <= i <= |airVents|
        invariant depressurized && forall j :: 0 <= j < i ==> VentDepressurized(airVents[j], r)
      {
        var vent := airVents[i];
        if r.ventStatus(vent) != Depressurized {
          if r.ventStatus(vent) == Depressurizing && r.oxygenLevel(vent) > 0.01 {
            depressurized := false;
            break;
          } else if r.ventStatus(vent) != Depressurizing {
            depressurized := false;
            break;
          }
        }
        i := i + 1;
      }
    }

    method IsPressurized(r: Readings) returns (pressurized: bool)
      ensures pressurized <==> forall i :: 0 <= i < |airVents| ==> r.ventStatus(airVents[i]) == Pressurized
      ensures pressurized == Devices.IsPressurized(airVents, r)
    {
      IsPressurizedIff(airVents, r);
      pressurized := true;
      var i := 0;
      while i < |airVents|
        invariant 0 <= i <= |airVents|
        invariant pressurized && forall j :: 0 <= j < i ==> r.ventStatus(airVents[j]) == Pressurized
      {
        if r.ventStatus(airVents[i]) != Pressurized {
          pressurized := false;
          break;
        }
        i := i + 1;
      }
    }

    method CanPressurize(r: Readings) returns (canPressurize: bool)
      ensures canPressurize <==> forall i :: 0 <= i < |airVents| ==> r.ventCanPressurize(airVents[i])
      ensures canPressurize == Devices.CanPressurize(airVents, r)
    {
      CanPressurizeIff(airVents, r);
      canPressurize := true;
      var i := 0;
      while i < |airVents|
        invariant 0 <= i <= |airVents|
        invariant canPressurize && forall j :: 0 <= j < i ==> r.ventCanPressurize(airVents[j])
      {
        if !r.ventCanPressurize(airVents[i]) {
          canPressurize := false;
          break;
        }
        i := i + 1;
      }
    }

    // -------------------------------------------------------------------------
    // Discovery
    // -------------------------------------------------------------------------

    /** Empties the block and device lists; the machine is left alone. */
    method Clear()
      modifies this`terminalBlocks, this`allDoors, this`interiorDoors, this`exteriorDoors,
               this`airVents, this`oxygenTanks, this`cycleLights, this`interiorLights, this`exteriorLights
      ensures Lists() == NoDevices && allDoors == [] && terminalBlocks == []
    {
      interiorDoors := [];
      exteriorDoors := [];
      airVents := [];
      oxygenTanks := [];
      terminalBlocks := [];
      cycleLights := [];
      interiorLights := [];
      exteriorLights := [];
      allDoors := [];
    }

    /** The validity test on the sorted lists. */
    method IsValid() returns (isValid: bool)
      ensures isValid <==> |interiorDoors| > 0 && |exteriorDoors| > 0 && |airVents| > 0 && |oxygenTanks| > 0
      ensures isValid == Devices.IsValid(Lists())
    {
      isValid := true;
      if |interiorDoors| == 0 {
        isValid := false;
      }
      if |exteriorDoors| == 0 {
        isValid := false;
      }
      if |airVents| == 0 {
        isValid := false;
      }
      if |oxygenTanks| == 0 {
        isValid := false;
      }
    }

    /** Files one block of the search under the list its kind and name select. */
    method PlaceBlock(block: Block)
      modifies this`interiorDoors, this`exteriorDoors, this`airVents, this`oxygenTanks,
               this`cycleLights, this`interiorLights, this`exteriorLights
      ensures Lists() == Devices.Place(old(Lists()), block)
    {
      match block {
        case DoorBlock(d) =>
          if IsExteriorName(d.customName) {
            exteriorDoors := exteriorDoors + [d];
          } else {
            interiorDoors := interiorDoors + [d];
          }
        case VentBlock(v) =>
          airVents := airVents + [v];
        case TankBlock(t) =>
          oxygenTanks := oxygenTanks + [t];
        case LightBlock(l) =>
          var lower := Lower(l.customName);
          if Contains(lower, "interior") {
            interiorLights := interiorLights + [l];
          } else if Contains(lower, "exterior") {
            exteriorLights := exteriorLights + [l];
          } else if Contains(lower, "cycle") {
            cycleLights := cycleLights + [l];
          }
      }
    }

    /** Rebuilds the device lists from the blocks the grid search returns for the tag and
        reports whether the airlock is usable; `discover` stands for that search. A machine
        already held keeps running, on the rebuilt lists. */
    method Initialize(discover: string -> seq<Block>) returns (ok: bool)
      requires Valid()
      modifies this`terminalBlocks, this`allDoors, this`interiorDoors, this`exteriorDoors,
               this`airVents, this`oxygenTanks, this`cycleLights, this`interiorLights, this`exteriorLights
      ensures Valid()
      ensures terminalBlocks == discover(tag)
      ensures Lists() == Partition(terminalBlocks)
      ensures ok <==> Devices.IsValid(Lists())
    {
      Clear();
      var blocks := discover(tag);
      terminalBlocks := blocks;
      var i := 0;
      while i < |blocks|
        invariant 0 <= i <= |blocks| && terminalBlocks == blocks
        invariant Lists() == Partition(blocks[..i])
      {
        assert blocks[..i + 1][..i] == blocks[..i];
        PlaceBlock(blocks[i]);
        i := i + 1;
      }
      assert blocks[..i] == blocks;
      allDoors := interiorDoors + exteriorDoors;
      ok := IsValid();
    }

    /** Re-runs discovery under a new tag. The tag is the new name inside the wrapper's
        two halves (see `TagAsWritten` for what the assignment computes as written). */
    method Reinitialize(newTag: string, wrapper: seq<string>, discover: string -> seq<Block>) returns (ok: bool)
      requires Valid() && |wrapper| >= 2
      modifies this`tag, this`terminalBlocks, this`allDoors, this`interiorDoors, this`exteriorDoors,
               this`airVents, this`oxygenTanks, this`cycleLights, this`interiorLights, this`exteriorLights
      ensures Valid()
      ensures tag == SearchTag(wrapper, newTag)
      ensures Lists() == Partition(discover(tag))
      ensures ok <==> Devices.IsValid(Lists())
    {
      tag := SearchTag(wrapper, newTag);
      ok := Initialize(discover);
    }

    // -------------------------------------------------------------------------
    // Device commands
    // -------------------------------------------------------------------------

    /** Sends `action` to each door of `doors`, in order. */
    method SendToDoors(doors: seq<Door>, action: DoorAction)
      modifies this`commands
      ensures commands == old(commands) + DoorCommands(doors, action)
    {
      var i := 0;
      while i < |doors|
        invariant 0 <= i <= |doors|
        invariant commands == old(commands) + DoorCommands(doors[..i], action)
      {
        commands := commands + [DoorCommand(doors[i], action)];
        assert doors[..i + 1][..i] == doors[..i];
        i := i + 1;
      }
      assert doors[..i] == doors;
    }

    method CloseDoors()
      modifies this`commands
      ensures commands == old(commands) + DoorCommands(allDoors, CloseDoor)
    {
      SendToDoors(allDoors, CloseDoor);
    }

    /** Locking a door is disabling it. */
    method LockDoors()
      modifies this`commands
      ensures commands == old(commands) + DoorCommands(allDoors, SetEnabled(false))
    {
      SendToDoors(allDoors, SetEnabled(false));
    }

    method OpenDoors(doors: seq<Door>)
      modifies this`commands
      ensures commands == old(commands) + DoorCommands(doors, OpenDoor)
    {
      SendToDoors(doors, OpenDoor);
    }

    method UnlockDoors(doors: seq<Door>)
      modifies this`commands
      ensures commands == old(commands) + DoorCommands(doors, SetEnabled(true))
    {
      SendToDoors(doors, SetEnabled(true));
    }

    /** Every vent is set to depressurize exactly when the room is not to be pressurized. */
    method SetAirVent(pressurize: bool)
      modifies this`commands
      ensures commands == old(commands) + VentCommands(airVents, !pressurize)
    {
      var i := 0;
      while i < |airVents|
        invariant 0 <= i <= |airVents|
        invariant commands == old(commands) + VentCommands(airVents[..i], !pressurize)
      {
        commands := commands + [VentCommand(airVents[i], !pressurize)];
        assert airVents[..i + 1][..i] == airVents[..i];
        i := i + 1;
      }
      assert airVents[..i] == airVents;
    }

    /** Carries out one delegate invocation with the wiring of `direction`: the unlock
        and open delegates act on the interior doors when pressurizing and on the exterior
        doors otherwise, the cycle delegate sets the vents to pressurize or not. */
    method Act(e: SM.Event)
      requires allDoors == interiorDoors + exteriorDoors
      modifies this`commands
      ensures commands == old(commands) + Effect(e, direction, Lists())
    {
      var target := if direction == Pressurize then interiorDoors else exteriorDoors;
      match e {
        case CloseDoors => CloseDoors();
        case LockDoors => LockDoors();
        case CycleAir => SetAirVent(direction == Pressurize);
        case UnlockDoors => UnlockDoors(target);
        case OpenDoors => OpenDoors(target);
        case _ =>
      }
    }

    /** Carries out the delegate invocations of one machine call, in order. */
    method Actuate(events: seq<SM.Event>)
      requires allDoors == interiorDoors + exteriorDoors
      modifies this`commands
      ensures commands == old(commands) + Effects(events, direction, Lists())
    {
      ghost var inv := Lists();
      var i := 0;
      while i < |events|
        invariant 0 <= i <= |events|
        invariant commands == old(commands) + Effects(events[..i], direction, inv)
      {
        Act(events[i]);
        Devices.EffectsSnoc(events, i, direction, inv);
        SM.AppendAssoc(old(commands), Effects(events[..i], direction, inv), Effect(events[i], direction, inv));
        i := i + 1;
      }
      assert events[..i] == events;
    }

    // -------------------------------------------------------------------------
    // Cycling
    // -------------------------------------------------------------------------

    /** The answers of the machine's two oracles: whether all doors are closed, and the
        ready test of the current direction. */
    method ReadOracles(r: Readings) returns (closed: bool, ready: bool)
      ensures closed == Devices.DoorsAreClosed(allDoors, r)
      ensures ready == RoomReady(direction, airVents, r)
    {
      closed := DoorsAreClosed(r);
      if direction == Pressurize {
        ready := IsPressurized(r);
      } else {
        ready := IsDepressurized(r);
      }
    }

    /** One call of the held machine: the oracles read the current devices, the machine
        steps, and its delegate invocations are carried out. `countdown` tells whether the
        countdown hook was invoked. */
    method RunMachine(r: Readings) returns (status: SM.Status, countdown: bool, ghost step: SM.StepResult)
      requires Valid() && stateMachine != null
      modifies stateMachine, this`commands
      ensures stateMachine.Valid()
      ensures step == SM.Step(old(stateMachine.state), AirlockHooks,
                              Devices.DoorsAreClosed(allDoors, r), RoomReady(direction, airVents, r))
      ensures stateMachine.state == step.next
      ensures stateMachine.trace == old(stateMachine.trace) + step.events
      ensures status == step.status
      ensures commands == old(commands) + Effects(step.events, direction, Lists())
      ensures countdown
    {
      var closed, ready := ReadOracles(r);
      step := SM.Step(stateMachine.state, AirlockHooks, closed, ready);
      SM.StepHooks(stateMachine.state, AirlockHooks, closed, ready);
      var before := |stateMachine.trace|;
      status := stateMachine.Run(closed, ready);
      var events := stateMachine.trace[before..];
      assert events == step.events;
      countdown := SM.StartCountdown in events;
      Actuate(events);
    }

    /** Builds a new machine, wired for the direction the vents allow. */
    method Arm(r: Readings)
      requires Valid() && stateMachine == null
      modifies this`stateMachine, this`direction
      ensures Valid()
      ensures direction == ChooseDirection(airVents, r)
      ensures fresh(stateMachine) && stateMachine.state == SM.Init && stateMachine.trace == []
    {
      var pressurize := CanPressurize(r);
      direction := if pressurize then Pressurize else Depressurize;
      stateMachine := new SM.AirlockStateMachine(AirlockHooks);
    }

    /** Starts a cycle unless one is running: the direction follows whether every vent can
        pressurize, a new machine is built with that wiring and run once, which closes all
        doors. */
    method Cycle(r: Readings) returns (countdown: bool)
      requires Valid()
      modifies this`stateMachine, this`direction, this`commands
      ensures Valid()
      ensures ViewOf(this) == Begin(old(ViewOf(this)), r)
      ensures countdown <==> old(stateMachine) == null
      ensures old(stateMachine) != null ==> stateMachine == old(stateMachine)
      ensures old(stateMachine) == null ==> stateMachine != null && fresh(stateMachine)
    {
      if stateMachine != null {
        return false;
      }
      ghost var inv := Lists();
      Arm(r);
      assert Lists() == inv;
      var _, fired, step := RunMachine(r);
      assert Lists() == inv;
      InitStep(Devices.DoorsAreClosed(allDoors, r), RoomReady(direction, airVents, r), direction, Lists());
      assert stateMachine.trace == [] + step.events;
      assert commands == old(commands) + DoorCommands(allDoors, CloseDoor);
      countdown := fired;
    }

    /** Runs the held machine once, if any: `Idle` without a machine, `Complete` (and the
        machine dropped) when the call finished the cycle, `Cycling` otherwise. */
    method Update(r: Readings) returns (status: Status, countdown: bool)
      requires Valid()
      modifies this`stateMachine, this`commands, stateMachine
      ensures Valid()
      ensures ViewOf(this) == Advance(old(ViewOf(this)), r)
      ensures Tick(countdown, status == Complete) == TickOf(old(ViewOf(this)), r)
      ensures status == Idle <==> old(stateMachine) == null
      ensures stateMachine == null || stateMachine == old(stateMachine)
    {
      if stateMachine == null {
        return Idle, false;
      }
      ghost var s0 := stateMachine.state;
      var machineStatus;
      ghost var step;
      machineStatus, countdown, step := RunMachine(r);
      HeldMachineNeverFinished(s0, Devices.DoorsAreClosed(allDoors, r), RoomReady(direction, airVents, r));
      if machineStatus == SM.Complete {
        stateMachine := null;
        return Complete, countdown;
      }
      status := Cycling;
    }
  }

  /** An airlock as construction leaves it: tagged with its name in the wrapper, its
      device lists sorted from what the search finds for that tag, and no machine. */
  ghost predicate Built(a: Airlock, wrapper: seq<string>, discover: string -> seq<Block>)
    requires |wrapper| >= 2
    reads a
  {
    && a.stateMachine == null
    && a.tag == SearchTag(wrapper, a.name)
    && a.Lists() == Partition(discover(a.tag))
  }

  /** `new Airlock(name, ...)`: the constructor builds the tag and initializes the device
      lists; `ok` is false where that initialization throws. */
  method Build(name: string, wrapper: seq<string>, discover: string -> seq<Block>) returns (a: Airlock, ok: bool)
    requires |wrapper| >= 2
    ensures fresh(a) && a.Valid() && a.name == name && Built(a, wrapper, discover)
    ensures ok <==> Devices.IsValid(a.Lists())
  {
    a := new Airlock(name, wrapper);
    ok := a.Initialize(discover);
  }

  // ---------------------------------------------------------------------------
  // What the registry observes of an airlock
  // ---------------------------------------------------------------------------

  /** What updating one airlock did: whether its countdown hook fired and whether the
      update reported `Complete`. */
  datatype Tick = Tick(countdown: bool, completed: bool)

  /** What the registry can observe of an airlock: whether it holds a machine, that
      machine's state and trace, its command log, its cycle direction and its devices. */
  datatype View = View(
    holding: bool,
    state: SM.CycleState,
    trace: seq<SM.Event>,
    commands: seq<DeviceCommand>,
    direction: Direction,
    allDoors: seq<Door>,
    inventory: Inventory)

  function ViewOf(a: Airlock): View
    reads a, a.stateMachine
  {
    var m := a.stateMachine;
    View(m != null, if m == null then SM.Init else m.state, if m == null then [] else m.trace,
         a.commands, a.direction, a.allDoors, a.Lists())
  }

  /** An airlock none of whose objects changed is still valid and looks the same. */
  twostate lemma Untouched(a: Airlock)
    requires old(a.Valid()) && unchanged(a)
    requires old(a.stateMachine) != null ==> unchanged(old(a.stateMachine))
    ensures a.Valid() && ViewOf(a) == old(ViewOf(a))
  {
  }

  /** The machine's step on the current readings, for an airlock whose cycle runs. */
  function StepOf(v: View, r: Readings): SM.StepResult
  {
    SM.Step(v.state, AirlockHooks, Devices.DoorsAreClosed(v.allDoors, r), RoomReady(v.direction, v.inventory.airVents, r))
  }

  /** What one `Update` does to an airlock: nothing when no cycle runs; otherwise the
      machine takes one step on the current readings, the step's device commands are
      sent, and the machine is dropped when the step completes the cycle. */
  function Advance(v: View, r: Readings): View
  {
    if !v.holding then v
    else
      var s := StepOf(v, r);
      var sent := v.commands + Effects(s.events, v.direction, v.inventory);
      if s.status == SM.Complete then v.(holding := false, state := SM.Init, trace := [], commands := sent)
      else v.(state := s.next, trace := v.trace + s.events, commands := sent)
  }

  /** What one `Update` reports: whether the countdown hook fired, and whether it completed. */
  function TickOf(v: View, r: Readings): Tick
  {
    if !v.holding then Tick(false, false) else Tick(true, StepOf(v, r).status == SM.Complete)
  }

  /** The view of a running airlock, as the machine's invariant sees it. */
  ghost predicate Running(v: View)
  {
    v.holding && v.state != SM.Finished && SM.TraceFits(v.state, v.trace)
  }

  /** An update keeps an airlock's devices and direction, only adds commands, reports a
      completion exactly when it drops the machine, and leaves a running airlock running
      or idle. */
  lemma AdvanceProperties(v: View, r: Readings)
    requires v.holding ==> Running(v)
    ensures var w := Advance(v, r);
      && w.direction == v.direction && w.allDoors == v.allDoors && w.inventory == v.inventory
      && v.commands <= w.commands
      && (TickOf(v, r).completed <==> v.holding && !w.holding)
      && (TickOf(v, r).countdown <==> v.holding)
      && (TickOf(v, r).completed ==> v.state == SM.DoorsUnlocked)
      && (w.holding ==> Running(w))
  {
    if v.holding {
      var s := StepOf(v, r);
      SM.StepKeepsTraceFit(v.state, v.trace, AirlockHooks, Devices.DoorsAreClosed(v.allDoors, r),
                           RoomReady(v.direction, v.inventory.airVents, r));
      SM.StepCompletesOnlyFromDoorsUnlocked(v.state, AirlockHooks, Devices.DoorsAreClosed(v.allDoors, r),
                                            RoomReady(v.direction, v.inventory.airVents, r));
      HeldMachineNeverFinished(v.state, Devices.DoorsAreClosed(v.allDoors, r),
                                        RoomReady(v.direction, v.inventory.airVents, r));
    }
  }

  /** With the doors closed and the room ready, an update of a started cycle moves its
      machine one state forward and keeps it, except from `DoorsUnlocked`, where the update
      completes and drops it; either way the countdown hook fires. */
  lemma ReadyAdvance(w: View, r: Readings)
    requires Running(w) && w.state != SM.Init
    requires Devices.DoorsAreClosed(w.allDoors, r) && RoomReady(w.direction, w.inventory.airVents, r)
    ensures var x := Advance(w, r);
      && x.direction == w.direction && x.allDoors == w.allDoors && x.inventory == w.inventory
      && TickOf(w, r) == Tick(true, w.state == SM.DoorsUnlocked)
      && (x.holding <==> w.state != SM.DoorsUnlocked)
      && (x.holding ==> Running(x) && SM.Ordinal(x.state) == SM.Ordinal(w.state) + 1)
  {
    AdvanceProperties(w, r);
  }

  /** What `Cycle` does to an airlock: nothing while a cycle runs; otherwise a new machine,
      wired for the direction the vents allow, has counted down and sent every door the
      close command. */
  function Begin(v: View, r: Readings): View
  {
    if v.holding then v
    else
      v.(holding := true, state := SM.DoorsClosing, trace := [SM.StartCountdown, SM.CloseDoors],
         direction := ChooseDirection(v.inventory.airVents, r),
         commands := v.commands + DoorCommands(v.allDoors, CloseDoor))
  }

  /** A started cycle is running and has only closed doors. */
  lemma BeginStartsRunning(v: View, r: Readings)
    requires !v.holding
    ensures var w := Begin(v, r);
      && Running(w) && w.state == SM.DoorsClosing
      && w.allDoors == v.allDoors && w.inventory == v.inventory
      && w.commands == v.commands + DoorCommands(v.allDoors, CloseDoor)
  {
    SM.CountdownFits();
  }

  /** The first call of the airlock's machine counts down, closes all doors and waits for
      them to close, whatever the oracles say. */
  lemma InitStep(doorsClosed: bool, roomReady: bool, dir: Direction, inv: Inventory)
    ensures var r := SM.Step(SM.Init, AirlockHooks, doorsClosed, roomReady);
      && r.next == SM.DoorsClosing && r.status == SM.Running
      && r.events == [SM.StartCountdown, SM.CloseDoors]
      && Effects(r.events, dir, inv) == DoorCommands(AllDoors(inv), CloseDoor)
  {
    var events := [SM.StartCountdown, SM.CloseDoors];
    assert events[..1] == [SM.StartCountdown] && [SM.StartCountdown][..0] == [];
    assert Effects(events, dir, inv) == Effects([SM.StartCountdown], dir, inv) + DoorCommands(AllDoors(inv), CloseDoor);
  }

  /** From any state but `Finished`, a call of the airlock's machine enters `Finished`
      exactly when it returns `Complete`; so the machine `Update` keeps after a `Running`
      call is never `Finished`. */
  lemma HeldMachineNeverFinished(s: SM.CycleState, doorsClosed: bool, roomReady: bool)
    requires s != SM.Finished
    ensures var r := SM.Step(s, AirlockHooks, doorsClosed, roomReady);
      r.next == SM.Finished <==> r.status == SM.Complete
  {
    SM.StepCompletesOnlyFromDoorsUnlocked(s, AirlockHooks, doorsClosed, roomReady);
    SM.StepMovesForward(s, AirlockHooks, doorsClosed, roomReady);
  }
}
