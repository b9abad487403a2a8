# AirlockControl in Dafny

A model of the airlock controller script of AirlockControl. The script runs on a
programmable block. Each named airlock is a set of doors, air vents and oxygen tanks found
on the grid by a tag. The command `cycle <name>` closes and locks the airlock's doors,
pressurizes or depressurizes the room, then unlocks and opens one side's doors. The side is
fixed when the cycle is requested: if every vent can pressurize, the room is pressurized and
the interior doors open, whichever side the user came from; otherwise the room is
depressurized and the exterior doors open.
A shared timer block re-runs the script while a cycle is in progress.

The model has five modules:

- `StateMachine` (`state_machine.dfy`) is the cycle sequencer `AirlockStateMachine`. It
  has eight states, from `Init` to `Finished`. Its `Run` method does one step per call.
  - Each delegate invocation is recorded as an `Event` in a `trace`. This covers the
    commands, the optional hooks and the answers of the two oracles.
  - The pure function `Step` is the reference definition of one call. `RunAll` is a
    sequence of calls.
  - The machine's invariant `TraceFits` says that the commands issued so far are exactly
    the prefix of `CloseDoors, LockDoors, CycleAir, UnlockDoors, OpenDoors` the state
    implies. It also says that locking and unlocking come only after a positive oracle
    answer.
- `Devices` (`devices.dfy`) holds the pure part of an airlock:
  - door, vent and tank records, and the four aggregate readings;
  - how discovered blocks are sorted into device lists (`Partition`), and the validity
    test;
  - the device commands each delegate issues for the direction the cycle was built with.
- `Airlocks` (`airlock.dfy`) is the class `Airlock`. Its device lists are refilled by
  `Initialize`, and it holds at most one machine. `Cycle` and `Update` run that machine.
  - The loops that send commands to doors and vents append `DeviceCommand`s to a command
    log.
  - `View`/`ViewOf` is what the registry can observe of an airlock. `Advance` and `Begin`
    describe what `Update` and `Cycle` do to it.
- `Registry` (`program.dfy`) is the script class `Program`:
  - the registry of airlocks, rebuilt by `Connect`;
  - the `cycle`, `continue` and `connect` commands, and the dispatch rule of `Main`;
  - the timer arbiter: the `UsingTimer` list plus the timer block's countdown flag, in
    one `TimerState` record.
  - The registry is a sequence of airlocks in enumeration order. A dictionary that was
    cleared and then only added to enumerates in insertion order, so this order matches.
- `Logging` (`log_panel.dfy`) is the class `LogPanel`. It is a bounded FIFO of lines, shown
  joined by the platform's line separator.

Device state changes in the world, so the model does not keep it. Each call that reads
devices takes a `Readings` snapshot: each door's `Closed` property, vent status, oxygen level and whether a
vent can pressurize. The grid search by tag becomes a function parameter, `discover`, from
a tag to the blocks found for it. Configuration parsing becomes an input, `Config`. Command
line parsing becomes an input too: the words of the argument, or `None`.

In `Cycle` and `Update` the airlock evaluates both oracles before the machine's call. The
source calls the delegate lazily, inside the switch. A reading has no side effect, so the
answers are the same.

## Model

| member | source | states |
|---|---|---|
| StateMachine.AirlockStateMachine.constructor | AirlockScript/AirlockStateMachine.cs:158 | a new machine starts in `Init` with an empty trace and satisfies its invariant |
| StateMachine.AirlockStateMachine.Run | AirlockScript/AirlockStateMachine.cs:169-213 | the new state, the appended trace and the returned status are those of one `Step` from the old state; the trace invariant is kept |
| StateMachine.StepMovesForward | AirlockScript/AirlockStateMachine.cs:172-212 | a call moves the state forward by at most one position in enum order, never backward |
| StateMachine.StepCompletesOnlyFromDoorsUnlocked | AirlockScript/AirlockStateMachine.cs:206-211 | `Complete` is returned iff the pre-state is `DoorsUnlocked`; that call issues only `OpenDoors` and enters `Finished`; every other call, from `Finished` too, returns `Running` |
| StateMachine.StepWaitsOnOracles | AirlockScript/AirlockStateMachine.cs:179-199 | in `DoorsClosing` and `Cycling` the state advances iff the oracle answers true, and no command is issued |
| StateMachine.StepHooks | AirlockScript/AirlockStateMachine.cs:171-204 | the countdown hook fires on every call, first, iff it is wired; a light hook fires only when it is wired |
| StateMachine.StepCommands | AirlockScript/AirlockStateMachine.cs:172-212 | the commands of one call are exactly the next slice of the command order the state implies |
| StateMachine.StepKeepsTraceFit | AirlockScript/AirlockStateMachine.cs:172-212 | one call keeps the trace invariant: the commands so far are the prefix the state implies, and locking and unlocking each follow a positive oracle answer |
| StateMachine.RunAllKeepsTraceFit | AirlockScript/AirlockStateMachine.cs:169-213 | any number of calls keep the trace invariant, whatever the oracles answer |
| StateMachine.CommandsAreOrdered | AirlockScript/AirlockStateMachine.cs:174-209 | from a new machine, the commands are a prefix of `CloseDoors, LockDoors, CycleAir, UnlockDoors, OpenDoors`, so each occurs at most once and in this order; `LockDoors` follows a closed-doors answer and `UnlockDoors` a ready answer |
| StateMachine.GuardedMeans | AirlockScript/AirlockStateMachine.cs:180-201 | the recursive precedence predicate means: every occurrence of the command has the observation somewhere before it |
| StateMachine.RunAllMovesForward | AirlockScript/AirlockStateMachine.cs:172-212 | over `n` calls the state moves forward by at most `n` positions and never backward |
| StateMachine.CompletesAtMostOnce | AirlockScript/AirlockStateMachine.cs:206-211 | a run returns `Complete` at most once, and never from `Finished` |
| StateMachine.CompletesOnSeventhReadyCall | AirlockScript/AirlockStateMachine.cs:172-209 | with both oracles always true, the first six calls return `Running` and the seventh `Complete`, ending in `Finished` |
| StateMachine.StallsWhileDoorsOpen | AirlockScript/AirlockStateMachine.cs:179-184 | while the doors are not closed, a machine in `DoorsClosing` stays there and returns `Running` |
| StateMachine.StallsWhileRoomNotReady | AirlockScript/AirlockStateMachine.cs:194-199 | while the room is not ready, a machine in `Cycling` stays there and returns `Running` |
| Devices.DoorsAreClosedIff | AirlockScript/Airlock.cs:158-174 | all doors are closed iff every door reports closed; an empty list counts as closed |
| Devices.IsDepressurizedIff | AirlockScript/Airlock.cs:179-206 | the room is depressurized iff every vent is `Depressurized`, or is `Depressurizing` with at most 0.01 oxygen |
| Devices.IsPressurizedIff | AirlockScript/Airlock.cs:211-227 | the room is pressurized iff every vent reports `Pressurized` |
| Devices.CanPressurizeIff | AirlockScript/Airlock.cs:232-248 | the room can be pressurized iff every vent reports it can |
| Airlocks.Airlock.DoorsAreClosed | AirlockScript/Airlock.cs:158-174 | the early-exit loop returns true iff every door of all doors is closed |
| Airlocks.Airlock.IsDepressurized | AirlockScript/Airlock.cs:179-206 | the early-exit loop returns true iff every vent passes the depressurized test |
| Airlocks.Airlock.IsPressurized | AirlockScript/Airlock.cs:211-227 | the early-exit loop returns true iff every vent reports `Pressurized` |
| Airlocks.Airlock.CanPressurize | AirlockScript/Airlock.cs:232-248 | the early-exit loop returns true iff every vent reports it can pressurize |
| Devices.SearchTag | AirlockScript/Airlock.cs:147 | the search tag is the name between the wrapper's two parts |
| Airlocks.Airlock.constructor | AirlockScript/Airlock.cs:144-149 | the constructor's assignments: a new airlock has its name, the wrapped tag, empty lists and no machine; the `Initialize` call at Airlock.cs:150 is made by `Airlocks.Build` |
| Airlocks.Build | AirlockScript/Airlock.cs:137-151 | construction tags the airlock, sorts the blocks found for the tag, holds no machine, and succeeds iff the lists are valid (failure stands for the thrown exception) |
| Airlocks.Airlock.Clear | AirlockScript/Airlock.cs:392-403 | every block and device list is empty afterwards |
| Airlocks.Airlock.IsValid | AirlockScript/Airlock.cs:467-497 | valid iff there are interior doors, exterior doors, vents and oxygen tanks |
| Airlocks.Airlock.Initialize | AirlockScript/Airlock.cs:330-387 | the blocks are those found for the tag; the lists are their sorting in order; all doors are the interior doors followed by the exterior doors; success iff the lists are valid |
| Airlocks.Airlock.PlaceBlock | AirlockScript/Airlock.cs:345-377 | one block is appended to exactly the list its kind and (lower-cased) name select, and a light matching no keyword to none: the lists become `Place` of the old lists and the block |
| Devices.PartitionKeepsDoors | AirlockScript/Airlock.cs:343-381 | the interior doors followed by the exterior doors are the discovered doors, each as often as it was found |
| Devices.PartitionSplitsDoors | AirlockScript/Airlock.cs:345-352 | a door goes to the exterior list iff its lower-cased name contains "exterior", and to the interior list otherwise |
| Devices.PartitionKeepsVentsAndTanks | AirlockScript/Airlock.cs:353-360 | every discovered vent and oxygen tank is kept, and nothing else |
| Devices.PartitionValidIff | AirlockScript/Airlock.cs:343-386 | initialization succeeds iff the search found an exterior door, another door, a vent and an oxygen tank |
| Airlocks.Airlock.Reinitialize | AirlockScript/Airlock.cs:255-260 | corrected: the new tag is the new name between the wrapper's parts, the lists are rebuilt for it, and a held machine is kept |
| Airlocks.TagAsWritten | AirlockScript/Airlock.cs:258 | as written: the interpolated array gives its type name on both sides of the name |
| Airlocks.TagAsWrittenDiffers | AirlockScript/Airlock.cs:258 | as written, with wrapper `[`, `]` the re-run search uses a different tag than construction did |
| Airlocks.Airlock.CloseDoors | AirlockScript/Airlock.cs:408-414 | appends a close command for each door of all doors, in order |
| Airlocks.Airlock.LockDoors | AirlockScript/Airlock.cs:419-425 | appends a disable command for each door of all doors, in order |
| Airlocks.Airlock.OpenDoors | AirlockScript/Airlock.cs:431-437 | appends an open command for each given door, in order |
| Airlocks.Airlock.UnlockDoors | AirlockScript/Airlock.cs:443-449 | appends an enable command for each given door, in order |
| Airlocks.Airlock.SetAirVent | AirlockScript/Airlock.cs:455-461 | appends, for each vent in order, `Depressurize` set to the opposite of pressurizing |
| Airlocks.Airlock.Act | AirlockScript/Airlock.cs:274-298 | one delegate invocation issues the commands of the cycle's wiring for that event |
| Airlocks.Airlock.Actuate | AirlockScript/Airlock.cs:274-298 | the invocations of one machine call issue their commands in order |
| Devices.DirectionWiring | AirlockScript/Airlock.cs:272-299 | pressurizing is chosen iff every vent can pressurize; pressurizing unlocks and opens the interior doors, sets `Depressurize` false and waits for pressurized; otherwise the exterior doors, `Depressurize` true and the depressurized test |
| Devices.OnlyTargetReleased | AirlockScript/Airlock.cs:276-297 | whatever the machine invokes, only doors of the chosen side are unlocked or opened |
| Devices.ReleasedDoorsMatchDirection | AirlockScript/Airlock.cs:272-299 | with doors sorted by name, a pressurizing cycle never releases a door named exterior, and a depressurizing cycle releases only such doors |
| Airlocks.Airlock.ReadOracles | AirlockScript/Airlock.cs:281-296 | the oracles answer whether all doors are closed, and the ready test of the cycle's direction |
| Airlocks.Airlock.RunMachine | AirlockScript/Airlock.cs:312 | one call of the held machine is one `Step` on the current readings; its invocations' commands are sent and the countdown hook fires |
| Airlocks.Airlock.Arm | AirlockScript/Airlock.cs:272-299 | a new machine in `Init` is built, wired for the direction the vents allow |
| Airlocks.Airlock.Cycle | AirlockScript/Airlock.cs:265-302 | a no-op while a machine is held; otherwise exactly one new machine runs once, closing all doors (`Begin`); the countdown fires iff no machine was held |
| Airlocks.BeginStartsRunning | AirlockScript/Airlock.cs:265-302 | a started cycle is in `DoorsClosing`, satisfies the trace invariant, and has sent only the close commands |
| Airlocks.InitStep | AirlockScript/AirlockStateMachine.cs:174-178 | from `Init` a call counts down, closes all doors, moves to `DoorsClosing` and returns `Running`, whatever the oracles say |
| Airlocks.Airlock.Update | AirlockScript/Airlock.cs:308-325 | `Idle` iff no machine is held; otherwise one step (`Advance`); on completion the machine is dropped and `Complete` returned, else `Cycling` |
| Airlocks.ReadyAdvance | AirlockScript/Airlock.cs:308-325 | with the doors closed and the room ready, an update of a started cycle fires the countdown and moves the machine exactly one state forward, keeping it, except from `DoorsUnlocked`, where it completes and drops the machine |
| Airlocks.AdvanceProperties | AirlockScript/Airlock.cs:308-325 | an update keeps devices and direction and only appends commands; it reports completion iff it drops the machine, which happens only from `DoorsUnlocked`; a running cycle stays running or ends |
| Airlocks.HeldMachineNeverFinished | AirlockScript/Airlock.cs:312-321 | a held machine enters `Finished` exactly on the call that returns `Complete`, so the one kept is never finished |
| Registry.Classify | AirlockScript/Program.cs:96-120 | an unparsable argument or no first word gives continue; `cycle`, with the second word as name, and `connect` run their commands; any other first word is unrecognized |
| Registry.Program.Dispatch | AirlockScript/Program.cs:92-127 | a run keeps the registry's invariant; with no command every airlock advances and the timer follows their ticks, as `Continue` states; `cycle` leaves the registry alone and starts the named airlock's cycle and the timer, or changes nothing for a missing or unknown name, as `Cycle` states; `connect` re-reads the configuration with `Connect`'s result; an unrecognized command changes nothing |
| Registry.TagWrapperOf | AirlockScript/Program.cs:142-147 | the wrapper always has two parts: the split if it has exactly two, else two empty strings |
| Registry.DefaultWrapperTagsByName | AirlockScript/Program.cs:144-147 | with the default wrapper the search tag is the airlock's name |
| Registry.RegisteredIff | AirlockScript/Program.cs:171-182 | after rebuilding, a name is registered iff it is configured and its airlock builds, whatever other names fail; no name is registered twice |
| Registry.Program.Connect | AirlockScript/Program.cs:132-183 | each early stop keeps what was set before it; if configuration gets that far the registry is cleared and holds exactly the `Registered` names, each airlock built anew |
| Registry.Program.Rebuild | AirlockScript/Program.cs:166-182 | clears the registry and registers, in order, each accumulated name that builds and is not yet taken |
| Registry.Program.ConnectAt | AirlockScript/Program.cs:174-181 | one name is built and registered iff it builds and is not yet a key |
| Registry.Program.constructor | AirlockScript/Program.cs:79-85 | a new script is valid, its timer list is empty and not counting down, its delay is 1 unless configured; it holds the configured names, and its registry is the one the first `Connect` registers from them, or empty when the configuration stops early |
| Registry.Blank | AirlockScript/Program.cs:149 | the scan for a blank timer name holds exactly when every character is white space; the empty name is blank |
| Registry.Lookup | AirlockScript/Program.cs:194 | the position found holds an airlock of that name |
| Registry.LookupMissing | AirlockScript/Program.cs:194-198 | the lookup fails iff the name is not registered |
| Registry.Program.Cycle | AirlockScript/Program.cs:188-201 | a missing or unknown name changes no airlock and no timer; a known one starts a cycle (`Begin`) and only that airlock changes; a started cycle's countdown starts the timer |
| Registry.Program.StartTimer | AirlockScript/Program.cs:223-232 | the name is appended; only a timer not counting down is silenced, given the delay and started |
| Registry.Program.StopTimer | AirlockScript/Program.cs:238-245 | the first occurrence of the name is removed; the countdown stops iff the list is then empty |
| Registry.StartStopKeepIdle | AirlockScript/Program.cs:223-245 | after a start the timer counts down with the name appended; after a stop one copy of the name is gone and the countdown runs iff it ran and names are left; a counting timer always has a waiting name |
| Registry.RemoveFirst | AirlockScript/Program.cs:240 | removes one copy of the name, or nothing when absent |
| Registry.RemoveFirstDropsFirst | AirlockScript/Program.cs:240 | it is the first occurrence that is removed, and the rest keep their order |
| Registry.Program.TickAt | AirlockScript/Program.cs:208-215 | one airlock is updated (`Advance`); its fired countdown starts the timer and its completion stops it; no other airlock changes |
| Registry.Program.Continue | AirlockScript/Program.cs:206-217 | every airlock is updated once in enumeration order (`AdvanceAll`); the timer is started for each countdown fired and stopped exactly for each `Complete` (`Ticked`) |
| Registry.TickedKeepsIdle | AirlockScript/Program.cs:206-217 | a round of updates keeps a counting timer with a waiting name |
| Registry.StartedTimesAppends | AirlockScript/Program.cs:225 | `k` starts append `k` copies of the name and leave the timer counting down |
| Registry.StartsThenOneStop | AirlockScript/Program.cs:206-245 | after `k` starts and the one stop of a cycle, the list holds `k - 1` more copies of the name than before (as a multiset, whatever was waiting; exactly appended when the name was not waiting); the countdown runs iff the list is not empty |
| Registry.SoleContinue | AirlockScript/Program.cs:206-217 | with one airlock registered, a run of `continue` is that airlock's one update, and the timer follows its tick |
| Registry.FullCycleLeavesSixEntries | AirlockScript/Program.cs:188-245 | on an idle airlock, alone in the registry, with the doors closed and the room ready: after `cycle` (`Begin` and one timer start), five updates leave the machine running and the sixth drops it; the timer list then holds six more copies of the name than before (exactly six appended when it was not waiting), and the countdown is not stopped |
| Registry.ReadyViewStep | AirlockScript/Airlock.cs:308-325 | an update from state `k` < 6 of a cycle with the doors closed and the room ready only starts the timer and leaves the airlock held at state `k + 1`, still with the doors closed and the room ready |
| Registry.ReadyStep | AirlockScript/Program.cs:206-245 | such an update, with its timer update, takes a cycle whose `k` calls each started the timer to one whose `k + 1` calls did |
| Registry.LastRound | AirlockScript/Program.cs:223-245 | the completing update after `k` starts leaves the countdown running and `k` more copies of the name waiting (as a multiset; exactly appended when the name was not waiting) |
| Registry.ReadyLastRound | AirlockScript/Airlock.cs:308-325 | the update from `DoorsUnlocked` of a cycle whose six calls started the timer drops the machine and ends the cycle as `CycleEnded` states |
| Registry.ReadyRounds | AirlockScript/Program.cs:206-245 | from any state `k` of a ready cycle, `7 - k` updates end it as `CycleEnded` states: machine dropped, countdown running, six more copies of the name |
| Registry.ReadyRoundsHold | AirlockScript/Program.cs:206-245 | from any state `k` of a ready cycle, `6 - k` updates leave the machine held |
| Logging.LogPanel.constructor | AirlockScript/LogPanel.cs:32-42 | the panel starts with no lines and the limit it was given |
| Logging.LogPanel.WriteText | AirlockScript/LogPanel.cs:44-55 | the lines become `Appended` of the old lines; the text is the lines joined by the separator; a bounded list stays bounded |
| Logging.AppendedProperties | AirlockScript/LogPanel.cs:46-52 | the written line is last; only the oldest line is dropped, exactly when a positive limit is exceeded; the rest keep their order; with no positive limit the list grows by one; the limit is kept |
| Logging.JoinSplit | AirlockScript/LogPanel.cs:54 | joining any split of the lines, with the separator between the parts, gives the joined whole |

## Left out

- Device discovery: the type tests, the same-construct test and the tank name filter are
  left out. The `discover` parameter returns the blocks already filtered.
- Grid and timer-block lookup, configuration parsing and command-line parsing are inputs
  (`Config`, `Readings`, the parsed words). A configuration that fails to parse is
  `None`.
- `Echo` messages and the texts of exceptions are output only. The exceptions that stop
  `Connect` become early returns. A failed airlock construction is `Build` returning
  `false`.
- The delay of the timer block and the scheduler are outside the model. The timer block
  is its countdown, silence and delay fields. `CountdownElapsed` is there only to show
  that letting the countdown run out keeps the registry's invariant.
- The oxygen level is a `real`, compared with 0.01. Floating-point rounding is not
  modelled.
- The Dispose pattern is empty and is left out.
- The light hooks are never wired by an airlock. The machine has them as optional `Hooks`
  flags, and the airlock sets them all off. The light lists are sorted but not used.
- Lower-casing covers the ASCII letters only.
- Registry.Blank: counts only the six ASCII white-space characters as white space, where
  `string.IsNullOrWhiteSpace` also accepts the other Unicode white-space characters.
- `Environment.NewLine` is a constructor parameter of `LogPanel`. The configured line
  limit is a constructor parameter too.
- Registry.Program.Connect: states that the rebuilt airlocks are not ones held before.
  It does not state that they are newly allocated: a `fresh` loop invariant was too costly
  to verify.
- Registry.Program.Connect: keeps the timer's countdown, silence and delay fields when a
  later configuration finds a different timer block (Program.cs:155-160). The script then
  drives the new block, whose own state the model does not know.
- Registry.Program.constructor: in the script, a first `Connect` that throws aborts the
  construction (Program.cs:84, 134-163). The model instead ends with a valid script whose
  registry is empty.
- Registry.Program.constructor: assumes the timer block is idle when first found (no
  name waiting, not counting down) and that only the script starts or stops it, apart
  from its own elapse. The script reads the block as the world left it (Program.cs:78-84,
  155-160), and `StartTimer` branches on its real `IsCountingDown` (Program.cs:226). A
  block already counting down at construction (after a reload, or started by a player or
  another script) would count with no name waiting, and the first `StartTimer` would skip
  setting silence and delay. The invariant `IdleWhenUnused` in `Program.Valid` rests on
  this assumption.
- Devices.Readings: `closedFlag` is the door's `Closed` property, which Airlock.cs:165
  reads. The model treats it as an opaque reading. What the game's API means by it is not
  part of this model.
- Airlocks.View: holds no machine identity. `Views` shows what each airlock's machine
  does, not which object it is.
- Both `Cycle` and `Continue` start the timer for each fired countdown hook, and the hook
  fires on every call of a machine. So the timer does not run exactly while some airlock
  is cycling, and the model does not claim that it does. `FullCycleLeavesSixEntries`
  states what holds instead.

## Findings

| source | as written | input that shows it | evidently intended | confidence | as-written member | corrected member |
|---|---|---|---|---|---|---|
| AirlockScript/Airlock.cs:258 | `Reinitialize` interpolates the whole `TagWrapper` array on both sides of the name, which yields the array's type name | wrapper `[`, `]` and name `A`: the tag becomes `System.String[]ASystem.String[]` instead of `[A]` | the first part, the name, then the second part, as the constructor does at Airlock.cs:147 | high (not executed) | Airlocks.TagAsWrittenDiffers | Airlocks.Airlock.Reinitialize |
