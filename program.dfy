/** The programmable block's script: the registry of airlocks by name, the shared
    timer that keeps the script running while airlocks cycle, and the rule that maps a
    run's argument to a command. */
module Registry {
  import opened Devices
  import opened Airlocks
  import SM = StateMachine
  import opened Logging

  datatype Option<T> = None | Some(value: T)

  // ---------------------------------------------------------------------------
  // The timer arbiter
  // ---------------------------------------------------------------------------

  /** The names of the airlocks that asked for the timer (with repetitions), and the
      timer block's countdown flag, silence flag and delay. */
  datatype TimerState = TimerState(usingTimer: seq<string>, countingDown: bool, silent: bool, triggerDelay: int)

  /** A timer that is counting down has an airlock waiting for it. */
  ghost predicate IdleWhenUnused(t: TimerState)
  {
    t.usingTimer == [] ==> !t.countingDown
  }

  /** The list without the first occurrence of `x`. */
  function RemoveFirst<T(==)>(s: seq<T>, x: T): (t: seq<T>)
    ensures x !in s ==> t == s
    ensures multiset(t) == multiset(s) - multiset{x}
  {
    if s == [] then []
    else
      assert s == [s[0]] + s[1..];
      if s[0] == x then s[1..] else [s[0]] + RemoveFirst(s[1..], x)
  }

  /** The position of the first occurrence of `x`. */
  function FirstIndex<T(==)>(s: seq<T>, x: T): (i: nat)
    requires x in s
    ensures i < |s| && s[i] == x && x !in s[..i]
  {
    if s[0] == x then 0
    else
      assert s == [s[0]] + s[1..];
      var j := FirstIndex(s[1..], x);
      assert s[..j + 1] == [s[0]] + s[1..][..j];
      j + 1
  }

  /** Skipping position `i` of the tail, then putting the head back, skips position `i + 1`. */
  lemma SkipAfterHead<T>(s: seq<T>, i: nat)
    requires i + 1 < |s|
    ensures [s[0]] + (s[1..][..i] + s[1..][i + 1..]) == s[..i + 1] + s[i + 2..]
  {
    assert s[..i + 1] == [s[0]] + s[1..][..i];
    assert s[i + 2..] == s[1..][i + 1..];
  }

  /** It is the first occurrence that goes, and the rest keep their order. */
  lemma {:induction false} RemoveFirstDropsFirst<T>(s: seq<T>, x: T)
    requires x in s
    ensures var i := FirstIndex(s, x); RemoveFirst(s, x) == s[..i] + s[i + 1..]
    decreases |s|
  {
    if s[0] != x {
      var rest := s[1..];
      var i := FirstIndex(rest, x);
      RemoveFirstDropsFirst(rest, x);
      assert FirstIndex(s, x) == i + 1;
      assert RemoveFirst(s, x) == [s[0]] + RemoveFirst(rest, x);
      SkipAfterHead(s, i);
    }
  }

  /** `StartTimer(name)`: the name is appended, and a timer that is not counting down is
      set silent, given the delay and started. */
  function Started(t: TimerState, name: string, timing: int16): TimerState
  {
    var waiting := t.usingTimer + [name];
    if t.countingDown then t.(usingTimer := waiting)
    else TimerState(waiting, true, true, timing as int)
  }

  /** `StopTimer(name)`: the first occurrence of the name is removed, and the countdown is
      stopped when no name is left. */
  function Stopped(t: TimerState, name: string): TimerState
  {
    var waiting := RemoveFirst(t.usingTimer, name);
    if waiting == [] then t.(usingTimer := waiting, countingDown := false)
    else t.(usingTimer := waiting)
  }

  /** Starting always leaves the timer counting down with the name waiting; stopping
      stops the countdown exactly when the list empties, and otherwise leaves it as it was;
      so both keep an unused timer idle. */
  lemma StartStopKeepIdle(t: TimerState, name: string, timing: int16)
    ensures var u := Started(t, name, timing);
      && u.countingDown && u.usingTimer == t.usingTimer + [name]
      && (t.countingDown ==> u.silent == t.silent && u.triggerDelay == t.triggerDelay)
      && (!t.countingDown ==> u.silent && u.triggerDelay == timing as int)
      && IdleWhenUnused(u)
    ensures var u := Stopped(t, name);
      && multiset(u.usingTimer) == multiset(t.usingTimer) - multiset{name}
      && (u.countingDown <==> t.countingDown && u.usingTimer != [])
      && (IdleWhenUnused(t) ==> IdleWhenUnused(u))
  {
  }

  /** `name` repeated `k` times. */
  function Repeat(name: string, k: nat): (s: seq<string>)
    ensures |s| == k && forall i :: 0 <= i < k ==> s[i] == name
  {
    seq(k, _ => name)
  }

  /** `k` calls of `StartTimer(name)`. */
  function StartedTimes(t: TimerState, name: string, timing: int16, k: nat): TimerState
    decreases k
  {
    if k == 0 then t else Started(StartedTimes(t, name, timing, k - 1), name, timing)
  }

  lemma {:induction false} StartedTimesAppends(t: TimerState, name: string, timing: int16, k: nat)
    ensures StartedTimes(t, name, timing, k).usingTimer == t.usingTimer + Repeat(name, k)
    ensures k > 0 ==> StartedTimes(t, name, timing, k).countingDown
    decreases k
  {
    if k == 0 {
      assert t.usingTimer + Repeat(name, 0) == t.usingTimer;
    } else {
      StartedTimesAppends(t, name, timing, k - 1);
      assert Repeat(name, k - 1) + [name] == Repeat(name, k);
    }
  }

  /** Removing the name from a list with it only in the trailing run drops one of the run. */
  lemma {:induction false} RemoveFirstFromRun(p: seq<string>, name: string, k: nat)
    requires k > 0 && name !in p
    ensures RemoveFirst(p + Repeat(name, k), name) == p + Repeat(name, k - 1)
    decreases |p|
  {
    if p == [] {
      assert p + Repeat(name, k) == Repeat(name, k);
      assert Repeat(name, k)[1..] == Repeat(name, k - 1);
    } else {
      var s := p + Repeat(name, k);
      assert s[0] == p[0];
      assert s[1..] == p[1..] + Repeat(name, k);
      RemoveFirstFromRun(p[1..], name, k);
      assert p == [p[0]] + p[1..];
    }
  }

  /** Removing the name from a list ending in a run of it leaves one copy fewer. */
  lemma RemoveOneOfRun(p: seq<string>, name: string, k: nat)
    requires k > 0
    ensures multiset(RemoveFirst(p + Repeat(name, k), name)) == multiset(p) + multiset(Repeat(name, k - 1))
  {
    assert p + Repeat(name, k) == p + Repeat(name, k - 1) + [name];
  }

  /** An airlock's countdown hook fires on every call of its machine, but `StopTimer` runs
      once, when the cycle completes: after `k` starts and the one stop, `k - 1` more copies
      of the name wait than before (exactly appended, when the name was not waiting), and
      the countdown is stopped only if nothing is left. */
  lemma StartsThenOneStop(t: TimerState, name: string, timing: int16, k: nat)
    requires k > 0
    ensures var u := Stopped(StartedTimes(t, name, timing, k), name);
      && multiset(u.usingTimer) == multiset(t.usingTimer) + multiset(Repeat(name, k - 1))
      && (name !in t.usingTimer ==> u.usingTimer == t.usingTimer + Repeat(name, k - 1))
      && (u.countingDown <==> u.usingTimer != [])
  {
    StartedTimesAppends(t, name, timing, k);
    RemoveOneOfRun(t.usingTimer, name, k);
    if name !in t.usingTimer {
      RemoveFirstFromRun(t.usingTimer, name, k);
    }
  }

  /** The timer after updating one airlock: a fired hook starts the timer, a completion stops it. */
  function TickTimer(t: TimerState, name: string, tick: Tick, timing: int16): TimerState
  {
    var started := if tick.countdown then Started(t, name, timing) else t;
    if tick.completed then Stopped(started, name) else started
  }

  /** `TickTimer` is the start, if any, followed by the stop, if any. */
  lemma TickTimerSteps(t: TimerState, name: string, tick: Tick, timing: int16, started: TimerState, final: TimerState)
    requires started == if tick.countdown then Started(t, name, timing) else t
    requires final == if tick.completed then Stopped(started, name) else started
    ensures final == TickTimer(t, name, tick, timing)
  {
  }

  /** The timer after updating the airlocks `names` in order. */
  function Ticked(t: TimerState, names: seq<string>, ticks: seq<Tick>, timing: int16): TimerState
    requires |names| == |ticks|
    decreases |names|
  {
    if names == [] then t
    else
      var k := |names| - 1;
      TickTimer(Ticked(t, names[..k], ticks[..k], timing), names[k], ticks[k], timing)
  }

  lemma {:induction false} TickedKeepsIdle(t: TimerState, names: seq<string>, ticks: seq<Tick>, timing: int16)
    requires |names| == |ticks| && IdleWhenUnused(t)
    ensures IdleWhenUnused(Ticked(t, names, ticks, timing))
    decreases |names|
  {
    if names != [] {
      var k := |names| - 1;
      var before := Ticked(t, names[..k], ticks[..k], timing);
      TickedKeepsIdle(t, names[..k], ticks[..k], timing);
      StartStopKeepIdle(before, names[k], timing);
      StartStopKeepIdle(Started(before, names[k], timing), names[k], timing);
    }
  }

  // ---------------------------------------------------------------------------
  // Configuration and registration
  // ---------------------------------------------------------------------------

  /** What reading the script's configuration yields: the delay if it is a valid `short`,
      the tag wrapper split on the delimiter (absent when the delimiter is empty, where
      the split fails), the timer block's name, the airlock list split on the delimiter
      (absent when the key is missing), and whether a timer block of that name on the same
      construct was found. */
  datatype Config = Config(
    delay: Option<int16>,
    tagParts: Option<seq<string>>,
    timerName: string,
    airlockNames: Option<seq<string>>,
    timerFound: bool)

  /** The white space characters recognised: space, tab, line feed, vertical tab, form
      feed and carriage return. */
  predicate IsWhiteSpace(c: char)
  {
    c == ' ' || '\t' <= c <= '\r'
  }

  /** Empty or made of white space: the scan stops at the first other character. */
  predicate Blank(s: string): (b: bool)
    ensures b <==> forall i :: 0 <= i < |s| ==> IsWhiteSpace(s[i])
    decreases |s|
  {
    s == [] || (IsWhiteSpace(s[0]) && Blank(s[1..]))
  }

  /** A wrapper that does not split into exactly two parts is replaced by two empty strings. */
  function TagWrapperOf(parts: seq<string>): (wrapper: seq<string>)
    ensures |wrapper| == 2
  {
    if |parts| != 2 then ["", ""] else parts
  }

  /** With the default wrapper, the search tag is the airlock's name itself. */
  lemma DefaultWrapperTagsByName(parts: seq<string>, name: string)
    requires |parts| != 2
    ensures SearchTag(TagWrapperOf(parts), name) == name
  {
    assert TagWrapperOf(parts)[0] == "" && TagWrapperOf(parts)[1] == "";
  }

  /** Whether configuration gets as far as rebuilding the registry. */
  predicate Connects(c: Config)
  {
    c.tagParts.Some? && !Blank(c.timerName) && c.airlockNames.Some? && c.timerFound
  }

  /** Whether an airlock of this name is built: its discovered blocks sort into a valid
      airlock. `discover` stands for the grid search by tag. */
  predicate Builds(discover: string -> seq<Block>, wrapper: seq<string>, name: string)
    requires |wrapper| >= 2
  {
    Devices.IsValid(Partition(discover(SearchTag(wrapper, name))))
  }

  /** The names registered by the construction loop, in registration order: a name is
      added when its airlock builds and the name is not yet a key (a duplicate key makes
      the insertion fail, which is caught like a failed construction). */
  function Registered(names: seq<string>, discover: string -> seq<Block>, wrapper: seq<string>): seq<string>
    requires |wrapper| >= 2
    decreases |names|
  {
    if names == [] then []
    else
      var before := Registered(names[..|names| - 1], discover, wrapper);
      var name := names[|names| - 1];
      if Builds(discover, wrapper, name) && name !in before then before + [name] else before
  }

  /** One more name of the loop: registered if it builds and is new. */
  lemma RegisteredNext(names: seq<string>, i: nat, discover: string -> seq<Block>, wrapper: seq<string>,
                       before: seq<string>, after: seq<string>)
    requires |wrapper| >= 2 && i < |names| && before == Registered(names[..i], discover, wrapper)
    requires after == if Builds(discover, wrapper, names[i]) && names[i] !in before then before + [names[i]] else before
    ensures after == Registered(names[..i + 1], discover, wrapper)
  {
    assert names[..i + 1][..i] == names[..i];
  }

  /** A name is registered exactly when it is listed and its airlock builds, whatever
      other names fail; each is registered once. */
  lemma {:induction false} RegisteredIff(names: seq<string>, discover: string -> seq<Block>, wrapper: seq<string>)
    requires |wrapper| >= 2
    ensures forall n :: n in Registered(names, discover, wrapper) <==> n in names && Builds(discover, wrapper, n)
    ensures Distinct(Registered(names, discover, wrapper))
    decreases |names|
  {
    if names != [] {
      var init := names[..|names| - 1];
      RegisteredIff(init, discover, wrapper);
      assert names == init + [names[|names| - 1]];
      var before := Registered(init, discover, wrapper);
      var name := names[|names| - 1];
      if Builds(discover, wrapper, name) && name !in before {
        var reg := before + [name];
        assert reg[..|reg| - 1] == before;
      }
    }
  }

  // ---------------------------------------------------------------------------
  // Command dispatch
  // ---------------------------------------------------------------------------

  datatype Command = ContinueCommand | CycleCommand(name: Option<string>) | ConnectCommand | Unrecognized(word: string)

  /** The dispatch rule: an argument that does not parse, or parses to no words, checks
      the running airlocks; a first word naming a registered command runs it (`cycle` takes
      the airlock's name from the second word); any other first word is reported. */
  function Classify(parsed: Option<seq<string>>): (c: Command)
    ensures c == ContinueCommand <==> parsed.None? || parsed.value == []
    ensures c.CycleCommand? <==> parsed.Some? && |parsed.value| > 0 && parsed.value[0] == "cycle"
    ensures c.CycleCommand? ==> c.name == if |parsed.value| > 1 then Some(parsed.value[1]) else None
    ensures c == ConnectCommand <==> parsed.Some? && |parsed.value| > 0 && parsed.value[0] == "connect"
    ensures c.Unrecognized? ==> c.word == parsed.value[0] && c.word != "cycle" && c.word != "connect"
  {
    if parsed.None? || parsed.value == [] then ContinueCommand
    else
      var args := parsed.value;
      if args[0] == "cycle" then CycleCommand(if |args| > 1 then Some(args[1]) else None)
      else if args[0] == "connect" then ConnectCommand
      else Unrecognized(args[0])
  }

  // ---------------------------------------------------------------------------
  // The registry
  // ---------------------------------------------------------------------------

  /** The names of the registered airlocks, in enumeration order. */
  function Names(entries: seq<Airlock>): (ns: seq<string>)
    ensures |ns| == |entries| && forall i :: 0 <= i < |entries| ==> ns[i] == entries[i].name
  {
    seq(|entries|, i requires 0 <= i < |entries| => entries[i].name)
  }

  /** Registering one more airlock adds its name at the end. */
  lemma NamesSnoc(entries: seq<Airlock>, a: Airlock)
    ensures Names(entries + [a]) == Names(entries) + [a.name]
  {
  }

  /** Where the airlock registered as `name` is, or `|entries|` when there is none. */
  function Lookup(entries: seq<Airlock>, name: string): (k: nat)
    ensures k <= |entries|
    ensures k < |entries| ==> entries[k].name == name
    decreases |entries|
  {
    if entries == [] || entries[0].name == name then 0
    else 1 + Lookup(entries[1..], name)
  }

  /** The lookup fails exactly for a name that is not registered, and otherwise finds
      the first airlock of that name. */
  lemma {:induction false} LookupMissing(entries: seq<Airlock>, name: string)
    ensures Lookup(entries, name) == |entries| <==> name !in Names(entries)
    ensures forall i :: 0 <= i < Lookup(entries, name) ==> Names(entries)[i] != name
    decreases |entries|
  {
    if entries != [] && entries[0].name != name {
      LookupMissing(entries[1..], name);
      assert Names(entries) == [entries[0].name] + Names(entries[1..]);
    }
  }

  /** No name occurs twice: each is new to the names before it. */
  ghost predicate Distinct(ns: seq<string>)
    decreases |ns|
  {
    ns == [] || (Distinct(ns[..|ns| - 1]) && ns[|ns| - 1] !in ns[..|ns| - 1])
  }

  /** A name new to a list of distinct names keeps them distinct. */
  lemma DistinctSnoc(ns: seq<string>, x: string)
    requires Distinct(ns) && x !in ns
    ensures Distinct(ns + [x])
  {
    assert (ns + [x])[..|ns|] == ns;
  }

  /** Distinct names differ at different positions. */
  lemma {:induction false} DistinctAt(ns: seq<string>, i: nat, j: nat)
    requires Distinct(ns) && i < |ns| && j < |ns| && i != j
    ensures ns[i] != ns[j]
    decreases |ns|
  {
    var k := |ns| - 1;
    if i == k {
      assert ns[j] == ns[..k][j];
    } else if j == k {
      assert ns[i] == ns[..k][i];
    } else {
      DistinctAt(ns[..k], i, j);
    }
  }

  /** A sequence that differs from another only at `i`. */
  lemma ReplacedAt(before: seq<View>, after: seq<View>, i: nat, v: View)
    requires |after| == |before| && i < |before| && after[i] == v
    requires forall j :: 0 <= j < |before| && j != i ==> after[j] == before[j]
    ensures after == before[i := v]
  {
  }

  /** One `Update` of every airlock in `vs`. */
  function AdvanceAll(vs: seq<View>, r: Readings): (ws: seq<View>)
    ensures |ws| == |vs| && forall i :: 0 <= i < |vs| ==> ws[i] == Advance(vs[i], r)
    decreases |vs|
  {
    if vs == [] then [] else AdvanceAll(vs[..|vs| - 1], r) + [Advance(vs[|vs| - 1], r)]
  }

  /** What each of those updates reports. */
  function TicksOf(vs: seq<View>, r: Readings): (ts: seq<Tick>)
    ensures |ts| == |vs| && forall i :: 0 <= i < |vs| ==> ts[i] == TickOf(vs[i], r)
    decreases |vs|
  {
    if vs == [] then [] else TicksOf(vs[..|vs| - 1], r) + [TickOf(vs[|vs| - 1], r)]
  }

  /** With one airlock registered, a run of `continue` is that airlock's update, and the
      timer follows its tick. */
  lemma SoleContinue(v: View, t: TimerState, name: string, r: Readings, timing: int16)
    ensures AdvanceAll([v], r) == [Advance(v, r)]
    ensures Ticked(t, [name], TicksOf([v], r), timing) == TickTimer(t, name, TickOf(v, r), timing)
  {
    var ticks := TicksOf([v], r);
    assert [name][..0] == [] && ticks[..0] == [];
  }

  /** `n` updates of one airlock with the same readings, each passing its tick to the timer:
      by `SoleContinue`, `n` runs of `continue` over a registry of that one airlock. */
  function Rounds(v: View, t: TimerState, name: string, r: Readings, timing: int16, n: nat): (View, TimerState)
    decreases n
  {
    if n == 0 then (v, t)
    else Rounds(Advance(v, r), TickTimer(t, name, TickOf(v, r), timing), name, r, timing, n - 1)
  }

  /** `cycle <name>` on an idle airlock, the only one registered, followed by six runs of
      `continue`, with the doors closed and the room ready throughout. Every machine call
      fires the countdown hook, so each of the seven starts the timer; only the sixth
      update completes, which drops the machine and stops the timer once. So six more
      copies of the name wait than before, and the countdown is not stopped. */
  lemma FullCycleLeavesSixEntries(v: View, t: TimerState, name: string, r: Readings, timing: int16)
    requires !v.holding
    requires Devices.DoorsAreClosed(v.allDoors, r)
    requires RoomReady(ChooseDirection(v.inventory.airVents, r), v.inventory.airVents, r)
    ensures Rounds(Begin(v, r), Started(t, name, timing), name, r, timing, 5).0.holding
    ensures var o := Rounds(Begin(v, r), Started(t, name, timing), name, r, timing, 6);
      && !o.0.holding && o.1.countingDown
      && multiset(o.1.usingTimer) == multiset(t.usingTimer) + multiset(Repeat(name, 6))
      && (name !in t.usingTimer ==> o.1.usingTimer == t.usingTimer + Repeat(name, 6))
  {
    ReadyStart(v, r);
    assert Started(t, name, timing) == StartedTimes(t, name, timing, 1);
    ReadyRounds(Begin(v, r), Started(t, name, timing), name, r, timing, t, 1);
    ReadyRoundsHold(Begin(v, r), Started(t, name, timing), name, r, timing, t, 1);
  }

  /** A cycle started with the doors closed and the room ready sees them so still. */
  lemma ReadyStart(v: View, r: Readings)
    requires !v.holding
    requires Devices.DoorsAreClosed(v.allDoors, r)
    requires RoomReady(ChooseDirection(v.inventory.airVents, r), v.inventory.airVents, r)
    ensures var w := Begin(v, r);
      && Running(w) && SM.Ordinal(w.state) == 1
      && Devices.DoorsAreClosed(w.allDoors, r) && RoomReady(w.direction, w.inventory.airVents, r)
  {
    BeginStartsRunning(v, r);
  }

  /** The update that completes a cycle whose `k` calls so far each started the timer. */
  lemma LastRound(t: TimerState, name: string, timing: int16, k: nat)
    requires k > 0
    ensures var u := TickTimer(StartedTimes(t, name, timing, k), name, Tick(true, true), timing);
      && u.countingDown
      && multiset(u.usingTimer) == multiset(t.usingTimer) + multiset(Repeat(name, k))
      && (name !in t.usingTimer ==> u.usingTimer == t.usingTimer + Repeat(name, k))
  {
    var before := StartedTimes(t, name, timing, k);
    assert Started(before, name, timing) == StartedTimes(t, name, timing, k + 1);
    StartsThenOneStop(t, name, timing, k + 1);
    assert |Repeat(name, k)| > 0;
  }

  /** Where a cycle that started the timer seven times and stopped it once ends, from
      the timer `t` it found: the machine dropped, the countdown running, and six more
      copies of the name waiting. */
  predicate CycleEnded(o: (View, TimerState), t: TimerState, name: string)
  {
    && !o.0.holding && o.1.countingDown
    && multiset(o.1.usingTimer) == multiset(t.usingTimer) + multiset(Repeat(name, 6))
    && (name !in t.usingTimer ==> o.1.usingTimer == t.usingTimer + Repeat(name, 6))
  }

  /** The first of `m + 1` updates, then the other `m`. */
  lemma RoundsUnfold(w: View, u: TimerState, name: string, r: Readings, timing: int16, m: nat)
    ensures Rounds(w, u, name, r, timing, m + 1)
         == Rounds(Advance(w, r), TickTimer(u, name, TickOf(w, r), timing), name, r, timing, m)
  {
  }

  /** An airlock at position `k` of a cycle, with the doors closed and the room ready:
      the machine is held at its `k`-th state. */
  ghost predicate ViewReady(w: View, r: Readings, k: nat)
  {
    && Running(w) && SM.Ordinal(w.state) == k && 1 <= k <= 6
    && Devices.DoorsAreClosed(w.allDoors, r) && RoomReady(w.direction, w.inventory.airVents, r)
  }

  /** The state at position `k` of a cycle requested on timer `t`: the airlock is ready
      there, and each of the `k` calls so far started the timer. */
  ghost predicate ReadyAt(w: View, u: TimerState, name: string, r: Readings, timing: int16, t: TimerState, k: nat)
  {
    ViewReady(w, r, k) && u == StartedTimes(t, name, timing, k)
  }

  /** One update before the last moves a ready airlock one position on and only starts
      the timer. */
  lemma ReadyViewStep(w: View, r: Readings, k: nat)
    requires ViewReady(w, r, k) && k < 6
    ensures ViewReady(Advance(w, r), r, k + 1) && TickOf(w, r) == Tick(true, false)
  {
    ReadyAdvance(w, r);
  }

  /** So it moves a ready cycle one position on. */
  lemma ReadyStep(w: View, u: TimerState, name: string, r: Readings, timing: int16, t: TimerState, k: nat)
    requires ReadyAt(w, u, name, r, timing, t, k) && k < 6
    ensures ReadyAt(Advance(w, r), TickTimer(u, name, TickOf(w, r), timing), name, r, timing, t, k + 1)
  {
    ReadyViewStep(w, r, k);
    assert TickTimer(u, name, Tick(true, false), timing) == Started(u, name, timing);
  }

  /** The updates that take a ready cycle from position `k` to its end: the last drops
      the machine, and by then the timer was started seven times in all (once by
      `cycle`) and stopped once. */
  lemma {:induction false} ReadyRounds(w: View, u: TimerState, name: string, r: Readings, timing: int16,
                                       t: TimerState, k: nat)
    requires ReadyAt(w, u, name, r, timing, t, k)
    ensures CycleEnded(Rounds(w, u, name, r, timing, 7 - k), t, name)
    decreases 6 - k
  {
    if k == 6 {
      ReadyLastRound(w, u, name, r, timing, t);
    } else {
      ReadyStep(w, u, name, r, timing, t, k);
      RoundsUnfold(w, u, name, r, timing, 6 - k);
      ReadyRounds(Advance(w, r), TickTimer(u, name, TickOf(w, r), timing), name, r, timing, t, k + 1);
    }
  }

  /** The last of those updates, from the state with the doors unlocked. */
  lemma ReadyLastRound(w: View, u: TimerState, name: string, r: Readings, timing: int16, t: TimerState)
    requires ReadyAt(w, u, name, r, timing, t, 6)
    ensures CycleEnded(Rounds(w, u, name, r, timing, 1), t, name)
  {
    ReadyAdvance(w, r);
    RoundsUnfold(w, u, name, r, timing, 0);
    LastRound(t, name, timing, 6);
  }

  /** Until that last update, the machine is held. */
  lemma {:induction false} ReadyRoundsHold(w: View, u: TimerState, name: string, r: Readings, timing: int16,
                                           t: TimerState, k: nat)
    requires ReadyAt(w, u, name, r, timing, t, k)
    ensures Rounds(w, u, name, r, timing, 6 - k).0.holding
    decreases 6 - k
  {
    if k < 6 {
      ReadyStep(w, u, name, r, timing, t, k);
      RoundsUnfold(w, u, name, r, timing, 5 - k);
      ReadyRoundsHold(Advance(w, r), TickTimer(u, name, TickOf(w, r), timing), name, r, timing, t, k + 1);
    }
  }

  /** Replacing the `i`-th element of `initial` after the first `i` were replaced by
      those of `final` continues the replacement one element further. */
  lemma Spliced<T>(final: seq<T>, initial: seq<T>, i: nat, before: seq<T>, after: seq<T>)
    requires |final| == |initial| && i < |initial|
    requires before == final[..i] + initial[i..] && after == before[i := final[i]]
    ensures after == final[..i + 1] + initial[i + 1..]
  {
    var t := final[..i + 1] + initial[i + 1..];
    assert |after| == |t|;
    forall k | 0 <= k < |after| ensures after[k] == t[k] {
      if k < i {
        assert after[k] == final[k] && t[k] == final[k];
      } else if k > i {
        assert after[k] == initial[k] && t[k] == initial[k];
      }
    }
  }

  /** The whole sequence is its longest prefix. */
  lemma WholePrefix<T>(s: seq<T>)
    ensures s[..|s|] == s && s[|s|..] == []
  {
  }

  /** Once every element is done, nothing of the rest is left. */
  lemma AllDone<T>(done: seq<T>, rest: seq<T>)
    requires |done| == |rest|
    ensures done[..|rest|] + rest[|rest|..] == done
  {
    assert rest[|rest|..] == [];
  }

  /** The timer after one more airlock's update. */
  lemma {:induction false} TickedStep(t: TimerState, names: seq<string>, ticks: seq<Tick>, timing: int16, i: nat,
                                      before: TimerState, after: TimerState)
    requires |names| == |ticks| && i < |names|
    requires before == Ticked(t, names[..i], ticks[..i], timing)
    requires after == TickTimer(before, names[i], ticks[i], timing)
    ensures after == Ticked(t, names[..i + 1], ticks[..i + 1], timing)
  {
    assert names[..i + 1][..i] == names[..i];
    assert ticks[..i + 1][..i] == ticks[..i];
  }

  /** Changing only the `i`-th airlock and its machine, keeping it valid and its machine
      recorded as its own, keeps the registry stored and leaves the other airlocks valid,
      with their machines and their views. */
  twostate lemma Restored(p: Program, new i: nat)
    requires old(p.Stored()) && old(p.Keyed()) && i < |old(p.airlocks)|
    requires p.airlocks == old(p.airlocks) && old(p.Repr) <= p.Repr && p !in p.Repr
    requires forall o :: o in old(p.Repr) && o != old(p.airlocks[i]) && o != old(p.airlocks[i].stateMachine) ==> unchanged(o)
    requires forall m :: m in old(p.owner) ==> m in p.owner && p.owner[m] == old(p.owner[m])
    requires p.airlocks[i].Valid()
    requires p.airlocks[i].stateMachine != null ==>
      && p.airlocks[i].stateMachine in p.Repr && p.airlocks[i].stateMachine in p.owner
      && p.owner[p.airlocks[i].stateMachine] == p.airlocks[i].name
    ensures p.Stored() && p.Keyed()
    ensures forall j :: 0 <= j < |p.airlocks| && j != i ==> ViewOf(p.airlocks[j]) == old(ViewOf(p.airlocks[j]))
  {
    forall j | 0 <= j < |p.airlocks| && j != i
      ensures p.airlocks[j].Valid() && p.airlocks[j].stateMachine == old(p.airlocks[j].stateMachine)
      ensures ViewOf(p.airlocks[j]) == old(ViewOf(p.airlocks[j]))
    {
      DistinctAt(Names(p.airlocks), i, j);
      Untouched(p.airlocks[j]);
    }
  }

  class Program {
    /** The configured names, accumulated over every configuration that got this far. */
    var airlockNames: seq<string>
    /** The registered airlocks in enumeration (insertion) order; each is registered
        under its own name. */
    var airlocks: seq<Airlock>
    /** The names waiting for the timer, with the timer block's countdown, silence and delay. */
    var timer: TimerState
    var timing: int16
    /** Whether a timer block has been found. */
    var hasTimer: bool
    ghost var Repr: set<object>
    /** The name of the airlock each held machine belongs to. */
    ghost var owner: map<SM.AirlockStateMachine, string>

    /** Each registered airlock is valid; it and its machine belong to the registry, and
        the machine is recorded as that airlock's (so no two airlocks share a machine). */
    ghost predicate Stored()
      reads this`airlocks, this`Repr, this`owner, Repr
    {
      && this !in Repr
      && forall i :: 0 <= i < |airlocks| ==>
           && airlocks[i] in Repr
           && (airlocks[i].stateMachine != null ==>
                 && airlocks[i].stateMachine in Repr && airlocks[i].stateMachine in owner
                 && owner[airlocks[i].stateMachine] == airlocks[i].name)
           && airlocks[i].Valid()
    }

    /** No name is registered twice (and so no airlock either). */
    ghost predicate Keyed()
      reads this`airlocks
    {
      Distinct(Names(airlocks))
    }

    /** The registry's invariant; besides the above, a registry with airlocks has found
        its timer, and a timer that counts down has a waiting name. */
    ghost predicate Valid()
      reads this, Repr
    {
      Stored() && Keyed() && (|airlocks| > 0 ==> hasTimer) && IdleWhenUnused(timer)
    }

    /** What the registry observes of its airlocks, in enumeration order. */
    ghost function Views(): (vs: seq<View>)
      reads this`airlocks, this`Repr, this`owner, Repr
      requires Stored()
      ensures |vs| == |airlocks| && forall i :: 0 <= i < |airlocks| ==> vs[i] == ViewOf(airlocks[i])
    {
      ViewsUpTo(|airlocks|)
    }

    /** The views of the first `n` airlocks. */
    ghost function ViewsUpTo(n: nat): (vs: seq<View>)
      reads this`airlocks, this`Repr, this`owner, Repr
      requires Stored() && n <= |airlocks|
      ensures |vs| == n && forall i :: 0 <= i < n ==> vs[i] == ViewOf(airlocks[i])
    {
      if n == 0 then [] else ViewsUpTo(n - 1) + [ViewOf(airlocks[n - 1])]
    }

    /** The script's construction: the command table, then a first configuration. The
        timer's list starts empty and the delay at 1; the registry is what that first
        `Connect` builds from the configured names alone, and is empty when the
        configuration stops early. */
    constructor (cfg: Option<Config>, discover: string -> seq<Block>)
      ensures Valid()
      ensures timer == TimerState([], false, false, 0)
      ensures timing == if cfg.Some? && cfg.value.delay.Some? then cfg.value.delay.value else 1
      ensures airlockNames ==
        if cfg.Some? && cfg.value.tagParts.Some? && !Blank(cfg.value.timerName) && cfg.value.airlockNames.Some?
        then cfg.value.airlockNames.value
        else []
      ensures (cfg.None? || !Connects(cfg.value)) ==> airlocks == [] && !hasTimer
      ensures cfg.Some? && Connects(cfg.value) ==>
        var wrapper := TagWrapperOf(cfg.value.tagParts.value);
        && hasTimer
        && Names(airlocks) == Registered(airlockNames, discover, wrapper)
        && forall i :: 0 <= i < |airlocks| ==> Built(airlocks[i], wrapper, discover)
    {
      airlockNames := [];
      airlocks := [];
      timer := TimerState([], false, false, 0);
      timing := 1;
      hasTimer := false;
      Repr := {};
      owner := map[];
      new;
      Connect(cfg, discover);
    }

    /** Records that `name` waits for the timer and starts a countdown not yet running. */
    method StartTimer(name: string)
      requires Valid() && hasTimer
      modifies this`timer
      ensures Valid() && Views() == old(Views())
      ensures timer == Started(old(timer), name, timing)
    {
      var waiting := timer.usingTimer + [name];
      if !timer.countingDown {
        timer := TimerState(waiting, true, true, timing as int);
      } else {
        timer := timer.(usingTimer := waiting);
      }
    }

    /** Removes the first occurrence of `name` and stops the countdown if none is left. */
    method StopTimer(name: string)
      requires Valid() && hasTimer
      modifies this`timer
      ensures Valid() && Views() == old(Views())
      ensures timer == Stopped(old(timer), name)
    {
      var waiting := RemoveFirst(timer.usingTimer, name);
      if waiting == [] {
        timer := timer.(usingTimer := waiting, countingDown := false);
      } else {
        timer := timer.(usingTimer := waiting);
      }
    }

    /** The timer block's countdown ran out; it then runs the script, outside this model. */
    method CountdownElapsed()
      requires Valid()
      modifies this`timer
      ensures Valid() && timer == old(timer).(countingDown := false)
    {
      timer := timer.(countingDown := false);
    }

    /** Updates the `i`-th airlock; the others are not touched. */
    method UpdateAt(i: nat, r: Readings) returns (status: Status, countdown: bool)
      requires Valid() && i < |airlocks|
      modifies airlocks[i], airlocks[i].stateMachine
      ensures Valid()
      ensures Views() == old(Views())[i := Advance(old(Views())[i], r)]
      ensures Tick(countdown, status == Complete) == TickOf(old(Views())[i], r)
    {
      var a := airlocks[i];
      ghost var before := Views();
      status, countdown := a.Update(r);
      Restored(this, i);
      assert ViewOf(a) == Advance(before[i], r);
      ReplacedAt(before, Views(), i, Advance(before[i], r));
    }

    /** Updates the `i`-th airlock and passes its countdown and completion on to the
        timer; the other airlocks are not touched. */
    method TickAt(i: nat, r: Readings) returns (tick: Tick)
      requires Valid() && i < |airlocks|
      modifies this`timer, airlocks[i], airlocks[i].stateMachine
      ensures Valid()
      ensures Views() == old(Views())[i := Advance(old(Views())[i], r)]
      ensures tick == TickOf(old(Views())[i], r)
      ensures timer == TickTimer(old(timer), airlocks[i].name, tick, timing)
    {
      var name := airlocks[i].name;
      ghost var t0 := timer;
      assert (airlocks[i] as object) != this && (airlocks[i].stateMachine as object?) != this;
      var status, countdown := UpdateAt(i, r);
      assert timer == t0;
      tick := Tick(countdown, status == Complete);
      ghost var started := if countdown then Started(t0, name, timing) else t0;
      if countdown {
        StartTimer(name);
      }
      assert timer == started;
      if status == Complete {
        StopTimer(name);
      }
      TickTimerSteps(t0, name, tick, timing, started, timer);
    }

    /** One step of `Continue`: the `i`-th airlock is updated after the ones before it. */
    method ContinueAt(i: nat, r: Readings, ghost initial: seq<View>, ghost names: seq<string>, ghost t0: TimerState)
      requires Valid() && i < |airlocks| == |initial| && names == Names(airlocks)
      requires Views() == AdvanceAll(initial, r)[..i] + initial[i..]
      requires timer == Ticked(t0, names[..i], TicksOf(initial, r)[..i], timing)
      modifies this`timer, airlocks[i], airlocks[i].stateMachine
      ensures Valid() && airlocks == old(airlocks) && Repr == old(Repr)
      ensures Views() == AdvanceAll(initial, r)[..i + 1] + initial[i + 1..]
      ensures timer == Ticked(t0, names[..i + 1], TicksOf(initial, r)[..i + 1], timing)
    {
      ghost var before, clock := Views(), timer;
      ghost var final, ticks := AdvanceAll(initial, r), TicksOf(initial, r);
      var tick := TickAt(i, r);
      assert before[i] == initial[i];
      assert tick == TickOf(initial[i], r);
      assert tick == ticks[i];
      assert airlocks[i].name == names[i];
      assert Advance(before[i], r) == final[i];
      Spliced(final, initial, i, before, Views());
      TickedStep(t0, names, ticks, timing, i, clock, timer);
    }

    /** Updates every registered airlock once, in enumeration order; the timer is started
        for each fired countdown hook and stopped for each completion. */
    method Continue(r: Readings)
      requires Valid()
      modifies this`timer, Repr
      ensures Valid()
      ensures Views() == AdvanceAll(old(Views()), r)
      ensures timer == Ticked(old(timer), Names(airlocks), TicksOf(old(Views()), r), timing)
    {
      ghost var initial := Views();
      ghost var names := Names(airlocks);
      ghost var final, ticks := AdvanceAll(initial, r), TicksOf(initial, r);
      var i := 0;
      while i < |airlocks|
        invariant 0 <= i <= |airlocks| == |initial|
        invariant Valid() && Names(airlocks) == names && Repr == old(Repr)
        invariant Views() == final[..i] + initial[i..]
        invariant timer == Ticked(old(timer), names[..i], ticks[..i], timing)
      {
        ContinueAt(i, r, initial, names, old(timer));
        i := i + 1;
      }
      AllDone(final, initial);
      WholePrefix(names);
      WholePrefix(ticks);
    }

    /** Asks the `i`-th airlock to start a cycle; the others are not touched. */
    method CycleAt(i: nat, r: Readings) returns (countdown: bool)
      requires Valid() && i < |airlocks|
      modifies this`Repr, this`owner, airlocks[i]
      ensures Valid()
      ensures countdown <==> !old(Views())[i].holding
      ensures countdown ==> fresh(airlocks[i].stateMachine)
      ensures Views() == old(Views())[i := Begin(old(Views())[i], r)]
    {
      var a := airlocks[i];
      ghost var before := Views();
      countdown := a.Cycle(r);
      if countdown {
        Repr, owner := Repr + {a.stateMachine}, owner[a.stateMachine := a.name];
      }
      Restored(this, i);
      assert ViewOf(a) == Begin(before[i], r);
      ReplacedAt(before, Views(), i, Begin(before[i], r));
    }

    /** `cycle <name>`: a missing or unknown name changes nothing; a known airlock starts
        a cycle unless one is running, and the started cycle's countdown starts the timer. */
    method Cycle(name: Option<string>, r: Readings)
      requires Valid()
      modifies this`Repr, this`owner, this`timer, Repr
      ensures Valid()
      ensures var k := if name.None? then |airlocks| else Lookup(airlocks, name.value);
        && (k == |airlocks| ==> Views() == old(Views()) && timer == old(timer))
        && (k < |airlocks| ==>
              && Views() == old(Views())[k := Begin(old(Views())[k], r)]
              && timer == if !old(Views())[k].holding then Started(old(timer), name.value, timing) else old(timer))
    {
      if name.None? {
        return;
      }
      var k := Lookup(airlocks, name.value);
      if k == |airlocks| {
        return;
      }
      ghost var before := Views();
      var countdown := CycleAt(k, r);
      ghost var after := Views();
      if countdown {
        StartTimer(name.value);
      }
      assert Views() == after == before[k := Begin(before[k], r)];
    }

    /** Adds an airlock under a name not yet registered. */
    method Enrol(a: Airlock, ghost wrapper: seq<string>, ghost discover: string -> seq<Block>)
      requires Valid() && hasTimer && a.Valid() && a.stateMachine == null && a !in Repr && a.name !in Names(airlocks)
      requires |wrapper| >= 2 && Built(a, wrapper, discover)
      requires forall j :: 0 <= j < |airlocks| ==> Built(airlocks[j], wrapper, discover)
      modifies this`airlocks, this`Repr
      ensures Valid() && airlocks == old(airlocks) + [a] && Repr == old(Repr) + {a}
      ensures Names(airlocks) == Names(old(airlocks)) + [a.name]
      ensures forall j :: 0 <= j < |airlocks| ==> Built(airlocks[j], wrapper, discover)
    {
      NamesSnoc(airlocks, a);
      DistinctSnoc(Names(airlocks), a.name);
      airlocks, Repr := airlocks + [a], Repr + {a};
    }

    /** One step of the construction loop: builds the airlock of the `i`-th name and
        registers it if it is valid and its name is not yet taken. */
    method ConnectAt(i: nat, wrapper: seq<string>, discover: string -> seq<Block>) returns (a: Airlock)
      requires Valid() && hasTimer && |wrapper| >= 2 && i < |airlockNames|
      requires Names(airlocks) == Registered(airlockNames[..i], discover, wrapper)
      requires forall j :: 0 <= j < |airlocks| ==> Built(airlocks[j], wrapper, discover)
      modifies this`airlocks, this`Repr
      ensures Valid() && Names(airlocks) == Registered(airlockNames[..i + 1], discover, wrapper)
      ensures forall j :: 0 <= j < |airlocks| ==> Built(airlocks[j], wrapper, discover)
      ensures fresh(a) && (Repr == old(Repr) || Repr == old(Repr) + {a})
    {
      var name := airlockNames[i];
      ghost var before := Names(airlocks);
      var ok;
      a, ok := Build(name, wrapper, discover);
      assert ok == Builds(discover, wrapper, name);
      LookupMissing(airlocks, name);
      if ok && Lookup(airlocks, name) == |airlocks| {
        Enrol(a, wrapper, discover);
      }
      RegisteredNext(airlockNames, i, discover, wrapper, before, Names(airlocks));
    }

    /** Reads the configuration and, when it gets that far, rebuilds the registry from the
        accumulated names: airlocks that fail to build are left out, the others are
        registered. A configuration that stops early keeps the registry as it was. The
        timer's waiting list is not touched. */
    method Connect(cfg: Option<Config>, discover: string -> seq<Block>)
      requires Valid()
      modifies this
      ensures Valid()
      ensures timer == old(timer)
      ensures cfg.None? ==> unchanged(this)
      ensures cfg.Some? ==> timing == (if cfg.value.delay.Some? then cfg.value.delay.value else old(timing))
      ensures airlockNames ==
        if cfg.Some? && cfg.value.tagParts.Some? && !Blank(cfg.value.timerName) && cfg.value.airlockNames.Some?
        then old(airlockNames) + cfg.value.airlockNames.value
        else old(airlockNames)
      ensures (cfg.None? || !Connects(cfg.value)) ==>
        airlocks == old(airlocks) && hasTimer == old(hasTimer) && Repr == old(Repr) && owner == old(owner)
      ensures cfg.Some? && Connects(cfg.value) ==>
        var wrapper := TagWrapperOf(cfg.value.tagParts.value);
        && hasTimer
        && Names(airlocks) == Registered(airlockNames, discover, wrapper)
        && forall i :: 0 <= i < |airlocks| ==> airlocks[i] !in old(Repr) && Built(airlocks[i], wrapper, discover)
    {
      if cfg.None? {
        return;
      }
      var c := cfg.value;
      if c.delay.Some? {
        timing := c.delay.value;
      }
      if c.tagParts.None? {
        return;
      }
      var wrapper := TagWrapperOf(c.tagParts.value);
      if Blank(c.timerName) || c.airlockNames.None? {
        return;
      }
      airlockNames := airlockNames + c.airlockNames.value;
      if !c.timerFound {
        return;
      }
      Rebuild(wrapper, discover);
    }

    /** With the timer block found: the registry is cleared and every accumulated name is
        tried in order. */
    method Rebuild(wrapper: seq<string>, discover: string -> seq<Block>)
      requires Valid() && |wrapper| >= 2
      modifies this`hasTimer, this`airlocks, this`Repr, this`owner
      ensures Valid() && hasTimer
      ensures Names(airlocks) == Registered(airlockNames, discover, wrapper)
      ensures forall i :: 0 <= i < |airlocks| ==> airlocks[i] !in old(Repr) && Built(airlocks[i], wrapper, discover)
    {
      hasTimer, airlocks, Repr, owner := true, [], {}, map[];
      var i := 0;
      while i < |airlockNames|
        invariant 0 <= i <= |airlockNames|
        invariant Names(airlocks) == Registered(airlockNames[..i], discover, wrapper)
        invariant Valid()
        invariant forall j :: 0 <= j < |airlocks| ==> Built(airlocks[j], wrapper, discover)
        invariant Repr !! old(Repr)
        modifies this`airlocks, this`Repr
      {
        var _ := ConnectAt(i, wrapper, discover);
        i := i + 1;
      }
      WholePrefix(airlockNames);
    }

    /** One run of the script with the parsed argument (`None` when it does not parse). */
    method Dispatch(parsed: Option<seq<string>>, r: Readings, cfg: Option<Config>, discover: string -> seq<Block>)
      requires Valid()
      modifies this, Repr
      ensures Valid()
      ensures Classify(parsed) == ContinueCommand ==>
        && airlocks == old(airlocks)
        && Views() == AdvanceAll(old(Views()), r)
        && timer == Ticked(old(timer), Names(airlocks), TicksOf(old(Views()), r), timing)
      ensures Classify(parsed).CycleCommand? ==>
        var name := Classify(parsed).name;
        var k := if name.None? then |old(airlocks)| else Lookup(old(airlocks), name.value);
        && airlocks == old(airlocks) && |old(Views())| == |old(airlocks)|
        && (k == |airlocks| ==> Views() == old(Views()) && timer == old(timer))
        && (k < |airlocks| ==>
              && Views() == old(Views())[k := Begin(old(Views())[k], r)]
              && timer == if !old(Views())[k].holding then Started(old(timer), name.value, timing) else old(timer))
      ensures Classify(parsed) == ConnectCommand ==>
        && timer == old(timer)
        && (cfg.None? ==> unchanged(this))
        && (cfg.Some? ==> timing == (if cfg.value.delay.Some? then cfg.value.delay.value else old(timing)))
        && airlockNames ==
             (if cfg.Some? && cfg.value.tagParts.Some? && !Blank(cfg.value.timerName) && cfg.value.airlockNames.Some?
              then old(airlockNames) + cfg.value.airlockNames.value
              else old(airlockNames))
        && ((cfg.None? || !Connects(cfg.value)) ==>
              airlocks == old(airlocks) && hasTimer == old(hasTimer) && Repr == old(Repr) && owner == old(owner))
        && (cfg.Some? && Connects(cfg.value) ==>
              var wrapper := TagWrapperOf(cfg.value.tagParts.value);
              && hasTimer
              && Names(airlocks) == Registered(airlockNames, discover, wrapper)
              && forall i :: 0 <= i < |airlocks| ==> airlocks[i] !in old(Repr) && Built(airlocks[i], wrapper, discover))
      ensures Classify(parsed).Unrecognized? ==> unchanged(this) && unchanged(Repr)
    {
      match Classify(parsed) {
        case ContinueCommand =>
          Continue(r);
        case CycleCommand(name) =>
          Cycle(name, r);
        case ConnectCommand =>
          Connect(cfg, discover);
        case Unrecognized(_) =>
      }
    }
  }
}
