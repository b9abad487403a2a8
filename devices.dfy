/** The pure logic of one airlock: its device records, the aggregate readings the
    cycle waits on, how discovered blocks are sorted into device lists, and which
    device commands each delegate of the sequencer issues. */
module Devices {
  import SM = StateMachine

  datatype Door = Door(id: nat, customName: string)
  datatype Vent = Vent(id: nat)
  datatype Tank = Tank(id: nat)
  datatype Light = Light(id: nat, customName: string)

  datatype VentStatus = Depressurized | Depressurizing | Pressurized | Pressurizing

  /** What the devices report at the moment of a call: device state is changed by the
      world, so it is an input of each call rather than something the model keeps. */
  datatype Readings = Readings(
    closedFlag: Door -> bool,          // the door's `Closed` property
    ventStatus: Vent -> VentStatus,    // the vent's `Status`
    oxygenLevel: Vent -> real,
    ventCanPressurize: Vent -> bool)

  // ---------------------------------------------------------------------------
  // Aggregate predicates: each is a loop over a list that stops at the first
  // device that fails, i.e. a conjunction evaluated left to right.
  // ---------------------------------------------------------------------------

  predicate DoorsAreClosed(doors: seq<Door>, r: Readings)
  {
    doors == [] || (r.closedFlag(doors[0]) && DoorsAreClosed(doors[1..], r))
  }

  predicate IsPressurized(vents: seq<Vent>, r: Readings)
  {
    vents == [] || (r.ventStatus(vents[0]) == Pressurized && IsPressurized(vents[1..], r))
  }

  /** The test applied to one vent inside the depressurized loop. Vents may stay in
      `Depressurizing` after the room is empty, so below one percent oxygen counts. */
  predicate VentDepressurized(v: Vent, r: Readings)
  {
    if r.ventStatus(v) != Depressurized then
      if r.ventStatus(v) == Depressurizing && r.oxygenLevel(v) > 0.01 then false
      else if r.ventStatus(v) != Depressurizing then false
      else true
    else true
  }

  predicate IsDepressurized(vents: seq<Vent>, r: Readings)
  {
    vents == [] || (VentDepressurized(vents[0], r) && IsDepressurized(vents[1..], r))
  }

  predicate CanPressurize(vents: seq<Vent>, r: Readings)
  {
    vents == [] || (r.ventCanPressurize(vents[0]) && CanPressurize(vents[1..], r))
  }

  /** All doors are closed exactly when each door reports closed; no doors count as closed. */
  lemma {:induction false} DoorsAreClosedIff(doors: seq<Door>, r: Readings)
    ensures DoorsAreClosed(doors, r) <==> forall i :: 0 <= i < |doors| ==> r.closedFlag(doors[i])
    decreases |doors|
  {
    if doors != [] {
      DoorsAreClosedIff(doors[1..], r);
      assert forall i :: 1 <= i < |doors| ==> doors[i] == doors[1..][i - 1];
    }
  }

  /** The room is pressurized exactly when every vent reports `Pressurized`. */
  lemma {:induction false} IsPressurizedIff(vents: seq<Vent>, r: Readings)
    ensures IsPressurized(vents, r) <==> forall i :: 0 <= i < |vents| ==> r.ventStatus(vents[i]) == Pressurized
    decreases |vents|
  {
    if vents != [] {
      IsPressurizedIff(vents[1..], r);
      assert forall i :: 1 <= i < |vents| ==> vents[i] == vents[1..][i - 1];
    }
  }

  /** The room is depressurized exactly when every vent is `Depressurized`, or is still
      `Depressurizing` with at most one percent oxygen. */
  lemma {:induction false} IsDepressurizedIff(vents: seq<Vent>, r: Readings)
    ensures IsDepressurized(vents, r) <==>
      forall i :: 0 <= i < |vents| ==>
        || r.ventStatus(vents[i]) == Depressurized
        || (r.ventStatus(vents[i]) == Depressurizing && r.oxygenLevel(vents[i]) <= 0.01)
    decreases |vents|
  {
    if vents != [] {
      IsDepressurizedIff(vents[1..], r);
      assert forall i :: 1 <= i < |vents| ==> vents[i] == vents[1..][i - 1];
    }
  }

  /** The room can be pressurized exactly when every vent reports it can. */
  lemma {:induction false} CanPressurizeIff(vents: seq<Vent>, r: Readings)
    ensures CanPressurize(vents, r) <==> forall i :: 0 <= i < |vents| ==> r.ventCanPressurize(vents[i])
    decreases |vents|
  {
    if vents != [] {
      CanPressurizeIff(vents[1..], r);
      assert forall i :: 1 <= i < |vents| ==> vents[i] == vents[1..][i - 1];
    }
  }

  // ---------------------------------------------------------------------------
  // Sorting discovered blocks into device lists
  // ---------------------------------------------------------------------------

  /** A block returned by the grid search, already filtered to this airlock's doors,
      vents, oxygen tanks and lights. */
  datatype Block = DoorBlock(door: Door) | VentBlock(vent: Vent) | TankBlock(tank: Tank) | LightBlock(light: Light)

  /** The device lists of an airlock (all doors are `interiorDoors + exteriorDoors`). */
  datatype Inventory = Inventory(
    interiorDoors: seq<Door>,
    exteriorDoors: seq<Door>,
    airVents: seq<Vent>,
    oxygenTanks: seq<Tank>,
    interiorLights: seq<Light>,
    exteriorLights: seq<Light>,
    cycleLights: seq<Light>)

  const NoDevices := Inventory([], [], [], [], [], [], [])

  function AllDoors(inv: Inventory): seq<Door>
  {
    inv.interiorDoors + inv.exteriorDoors
  }

  /** Lower-casing, for the ASCII letters. */
  function Lower(s: string): (t: string)
    ensures |t| == |s|
  {
    seq(|s|, i requires 0 <= i < |s| => if 'A' <= s[i] <= 'Z' then (s[i] as int + 32) as char else s[i])
  }

  predicate OccursAt(s: string, part: string, i: nat)
  {
    i + |part| <= |s| && s[i..i + |part|] == part
  }

  predicate Contains(s: string, part: string)
  {
    exists i: nat | i <= |s| :: OccursAt(s, part, i)
  }

  predicate IsExteriorName(name: string)
  {
    Contains(Lower(name), "exterior")
  }

  /** One iteration of the sorting loop: a door whose lower-cased name contains
      "exterior" is exterior, every other door interior; a light goes to the first of
      interior, exterior, cycle whose word its name contains, and is dropped otherwise. */
  function Place(inv: Inventory, b: Block): Inventory
  {
    match b
    case DoorBlock(d) =>
      if IsExteriorName(d.customName) then inv.(exteriorDoors := inv.exteriorDoors + [d])
      else inv.(interiorDoors := inv.interiorDoors + [d])
    case VentBlock(v) => inv.(airVents := inv.airVents + [v])
    case TankBlock(t) => inv.(oxygenTanks := inv.oxygenTanks + [t])
    case LightBlock(l) =>
      var name := Lower(l.customName);
      if Contains(name, "interior") then inv.(interiorLights := inv.interiorLights + [l])
      else if Contains(name, "exterior") then inv.(exteriorLights := inv.exteriorLights + [l])
      else if Contains(name, "cycle") then inv.(cycleLights := inv.cycleLights + [l])
      else inv
  }

  /** The device lists obtained by sorting `blocks` in order into empty lists. */
  function Partition(blocks: seq<Block>): Inventory
    decreases |blocks|
  {
    if blocks == [] then NoDevices
    else Place(Partition(blocks[..|blocks| - 1]), blocks[|blocks| - 1])
  }

  /** The doors among `blocks`, in order. */
  function DoorsOf(blocks: seq<Block>): seq<Door>
    decreases |blocks|
  {
    if blocks == [] then []
    else
      var last := blocks[|blocks| - 1];
      DoorsOf(blocks[..|blocks| - 1]) + (if last.DoorBlock? then [last.door] else [])
  }

  /** An airlock needs interior doors, exterior doors, vents and oxygen tanks. */
  predicate IsValid(inv: Inventory)
  {
    |inv.interiorDoors| > 0 && |inv.exteriorDoors| > 0 && |inv.airVents| > 0 && |inv.oxygenTanks| > 0
  }

  /** Placing one block adds the block's door, if it is one, to the doors. */
  lemma PlaceKeepsDoors(inv: Inventory, b: Block)
    ensures multiset(AllDoors(Place(inv, b)))
         == multiset(AllDoors(inv)) + (if b.DoorBlock? then multiset{b.door} else multiset{})
  {
    var p := Place(inv, b);
    match b
    case DoorBlock(d) =>
      if IsExteriorName(d.customName) {
        assert AllDoors(p) == AllDoors(inv) + [d];
      } else {
        assert multiset(AllDoors(p)) == multiset(inv.interiorDoors) + multiset{d} + multiset(inv.exteriorDoors);
      }
    case _ =>
      assert AllDoors(p) == AllDoors(inv);
  }

  /** Sorting keeps every discovered door, as often as it was discovered. */
  lemma {:induction false} PartitionKeepsDoors(blocks: seq<Block>)
    ensures multiset(AllDoors(Partition(blocks))) == multiset(DoorsOf(blocks))
    decreases |blocks|
  {
    if blocks != [] {
      var init, last := blocks[..|blocks| - 1], blocks[|blocks| - 1];
      PartitionKeepsDoors(init);
      PlaceKeepsDoors(Partition(init), last);
      assert DoorsOf(blocks) == DoorsOf(init) + (if last.DoorBlock? then [last.door] else []);
    }
  }

  /** A door is sorted to the exterior list exactly when it was discovered and its name
      contains "exterior", and to the interior list exactly when it was discovered and its
      name does not. */
  lemma {:induction false} PartitionSplitsDoors(blocks: seq<Block>)
    ensures var p := Partition(blocks);
      && (forall d :: d in p.exteriorDoors <==> DoorBlock(d) in blocks && IsExteriorName(d.customName))
      && (forall d :: d in p.interiorDoors <==> DoorBlock(d) in blocks && !IsExteriorName(d.customName))
    decreases |blocks|
  {
    if blocks != [] {
      var init, last := blocks[..|blocks| - 1], blocks[|blocks| - 1];
      assert blocks == init + [last];
      PartitionSplitsDoors(init);
    }
  }

  /** Every discovered vent and oxygen tank is kept, and nothing else is. */
  lemma {:induction false} PartitionKeepsVentsAndTanks(blocks: seq<Block>)
    ensures var p := Partition(blocks);
      && (forall v :: v in p.airVents <==> VentBlock(v) in blocks)
      && (forall t :: t in p.oxygenTanks <==> TankBlock(t) in blocks)
    decreases |blocks|
  {
    if blocks != [] {
      var init, last := blocks[..|blocks| - 1], blocks[|blocks| - 1];
      assert blocks == init + [last];
      PartitionKeepsVentsAndTanks(init);
    }
  }

  /** The validity check after sorting holds exactly when the discovery found an exterior
      door, a door that is not exterior, a vent and an oxygen tank. */
  lemma PartitionValidIff(blocks: seq<Block>)
    ensures IsValid(Partition(blocks)) <==>
      && (exists d :: DoorBlock(d) in blocks && IsExteriorName(d.customName))
      && (exists d :: DoorBlock(d) in blocks && !IsExteriorName(d.customName))
      && (exists v :: VentBlock(v) in blocks)
      && (exists t :: TankBlock(t) in blocks)
  {
    var p := Partition(blocks);
    PartitionSplitsDoors(blocks);
    PartitionKeepsVentsAndTanks(blocks);
    if |p.interiorDoors| > 0 { assert p.interiorDoors[0] in p.interiorDoors; }
    if |p.exteriorDoors| > 0 { assert p.exteriorDoors[0] in p.exteriorDoors; }
    if |p.airVents| > 0 { assert p.airVents[0] in p.airVents; }
    if |p.oxygenTanks| > 0 { assert p.oxygenTanks[0] in p.oxygenTanks; }
  }

  /** The search tag of an airlock: its name between the two halves of the wrapper. */
  function SearchTag(wrapper: seq<string>, name: string): (tag: string)
    requires |wrapper| >= 2
    ensures |tag| == |wrapper[0]| + |name| + |wrapper[1]|
    ensures tag[|wrapper[0]|..|wrapper[0]| + |name|] == name
  {
    wrapper[0] + name + wrapper[1]
  }

  // ---------------------------------------------------------------------------
  // Device commands
  // ---------------------------------------------------------------------------

  datatype DoorAction = CloseDoor | OpenDoor | SetEnabled(enabled: bool)

  /** A command sent to one device: a door is closed, opened, or locked by disabling it
      (`Enabled := false`) and unlocked by enabling it; a vent is set to depressurize or not. */
  datatype DeviceCommand = DoorCommand(door: Door, action: DoorAction) | VentCommand(vent: Vent, depressurize: bool)

  /** The same action sent to each door, in list order. */
  function DoorCommands(doors: seq<Door>, action: DoorAction): (cs: seq<DeviceCommand>)
    ensures |cs| == |doors|
    ensures forall i :: 0 <= i < |doors| ==> cs[i] == DoorCommand(doors[i], action)
    decreases |doors|
  {
    if doors == [] then []
    else DoorCommands(doors[..|doors| - 1], action) + [DoorCommand(doors[|doors| - 1], action)]
  }

  /** The same setting sent to each vent, in list order. */
  function VentCommands(vents: seq<Vent>, depressurize: bool): (cs: seq<DeviceCommand>)
    ensures |cs| == |vents|
    ensures forall i :: 0 <= i < |vents| ==> cs[i] == VentCommand(vents[i], depressurize)
    decreases |vents|
  {
    if vents == [] then []
    else VentCommands(vents[..|vents| - 1], depressurize) + [VentCommand(vents[|vents| - 1], depressurize)]
  }

  /** The direction a new cycle is given: pressurize (and release the interior doors)
      when the room can be pressurized, depressurize (and release the exterior doors)
      otherwise. */
  datatype Direction = Pressurize | Depressurize

  function ChooseDirection(vents: seq<Vent>, r: Readings): Direction
  {
    if CanPressurize(vents, r) then Pressurize else Depressurize
  }

  /** The doors a cycle unlocks and opens at its end. */
  function Target(dir: Direction, inv: Inventory): seq<Door>
  {
    if dir == Pressurize then inv.interiorDoors else inv.exteriorDoors
  }

  /** The `IsRoomReady` oracle a cycle is built with. */
  predicate RoomReady(dir: Direction, vents: seq<Vent>, r: Readings)
  {
    if dir == Pressurize then IsPressurized(vents, r) else IsDepressurized(vents, r)
  }

  /** The device commands one delegate invocation issues, given the direction the machine
      was built with: closing and locking act on all doors, unlocking and opening on the
      target side, cycling sets every vent's `Depressurize` to the opposite of pressurizing. */
  function Effect(e: SM.Event, dir: Direction, inv: Inventory): seq<DeviceCommand>
  {
    match e
    case CloseDoors => DoorCommands(AllDoors(inv), CloseDoor)
    case LockDoors => DoorCommands(AllDoors(inv), SetEnabled(false))
    case CycleAir => VentCommands(inv.airVents, dir != Pressurize)
    case UnlockDoors => DoorCommands(Target(dir, inv), SetEnabled(true))
    case OpenDoors => DoorCommands(Target(dir, inv), OpenDoor)
    case _ => []
  }

  /** The device commands of a sequence of delegate invocations, in order. */
  function Effects(events: seq<SM.Event>, dir: Direction, inv: Inventory): seq<DeviceCommand>
    decreases |events|
  {
    if events == [] then []
    else Effects(events[..|events| - 1], dir, inv) + Effect(events[|events| - 1], dir, inv)
  }

  /** The commands of one more invocation follow those of the ones before it. */
  lemma EffectsSnoc(events: seq<SM.Event>, i: nat, dir: Direction, inv: Inventory)
    requires i < |events|
    ensures Effects(events[..i + 1], dir, inv) == Effects(events[..i], dir, inv) + Effect(events[i], dir, inv)
  {
    assert events[..i + 1][..i] == events[..i];
  }

  /** A command that lets a door be passed: unlocking or opening it. */
  predicate Releases(c: DeviceCommand)
  {
    c.DoorCommand? && (c.action == OpenDoor || c.action == SetEnabled(true))
  }

  /** Whatever the machine invokes, only doors of the target side are ever released. */
  lemma {:induction false} OnlyTargetReleased(events: seq<SM.Event>, dir: Direction, inv: Inventory)
    ensures forall c :: c in Effects(events, dir, inv) && Releases(c) ==> c.door in Target(dir, inv)
    decreases |events|
  {
    if events != [] {
      var init, last := events[..|events| - 1], events[|events| - 1];
      OnlyTargetReleased(init, dir, inv);
      forall c | c in Effect(last, dir, inv) && Releases(c)
        ensures c.door in Target(dir, inv)
      {
        var cs := Effect(last, dir, inv);
        var k :| 0 <= k < |cs| && cs[k] == c;
      }
    }
  }

  /** With the doors sorted by name, a pressurizing cycle never releases a door named
      exterior, and a depressurizing cycle releases only doors named exterior. */
  lemma ReleasedDoorsMatchDirection(blocks: seq<Block>, events: seq<SM.Event>, dir: Direction)
    ensures forall c :: c in Effects(events, dir, Partition(blocks)) && Releases(c) ==>
      (IsExteriorName(c.door.customName) <==> dir == Depressurize)
  {
    var p := Partition(blocks);
    OnlyTargetReleased(events, dir, p);
    PartitionSplitsDoors(blocks);
    forall c | c in Effects(events, dir, p) && Releases(c)
      ensures (IsExteriorName(c.door.customName) <==> dir == Depressurize)
    {
      assert c.door in Target(dir, p);
    }
  }

  /** The wiring chosen when a cycle starts: with every vent able to pressurize, the
      machine pressurizes, waits for every vent to report pressurized and releases the
      interior doors; otherwise it depressurizes, waits for the depressurized test and
      releases the exterior doors. Locking and closing always act on all doors. */
  lemma DirectionWiring(inv: Inventory, r: Readings)
    ensures var dir := ChooseDirection(inv.airVents, r);
      && ((forall i :: 0 <= i < |inv.airVents| ==> r.ventCanPressurize(inv.airVents[i])) <==> dir == Pressurize)
      && (dir == Pressurize ==>
            && Effect(SM.UnlockDoors, dir, inv) == DoorCommands(inv.interiorDoors, SetEnabled(true))
            && Effect(SM.OpenDoors, dir, inv) == DoorCommands(inv.interiorDoors, OpenDoor)
            && Effect(SM.CycleAir, dir, inv) == VentCommands(inv.airVents, false)
            && (RoomReady(dir, inv.airVents, r) <==> IsPressurized(inv.airVents, r)))
      && (dir == Depressurize ==>
            && Effect(SM.UnlockDoors, dir, inv) == DoorCommands(inv.exteriorDoors, SetEnabled(true))
            && Effect(SM.OpenDoors, dir, inv) == DoorCommands(inv.exteriorDoors, OpenDoor)
            && Effect(SM.CycleAir, dir, inv) == VentCommands(inv.airVents, true)
            && (RoomReady(dir, inv.airVents, r) <==> IsDepressurized(inv.airVents, r)))
      && Effect(SM.CloseDoors, dir, inv) == DoorCommands(AllDoors(inv), CloseDoor)
      && Effect(SM.LockDoors, dir, inv) == DoorCommands(AllDoors(inv), SetEnabled(false))
  {
    CanPressurizeIff(inv.airVents, r);
  }
}
