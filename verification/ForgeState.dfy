/** The scheduler and supervisor: the operations that update the unit graph's state in place. */
module ForgeStates {
  import opened Units
  import opened Names
  import opened Graphs
  import opened ForgeModel
  import opened Activation
  import opened Resolution
  import opened ReverseIndex
  import opened Supervision
  import opened Keeping
  import opened Devices
  import opened BootPlan
  import opened BootLog
  import opened Schedules
  import opened RestartDrain
  import opened ExitOutcomes
  import opened StopOutcomes
  import Scheduling
  import Runlevels
  import RestartLimiter

  /** The active target's name denotes a target unit. */
  ghost predicate HasTarget(f: Forge) {
    f.activeTarget in f.nameIndex && f.nameIndex[f.activeTarget] < |f.arena|
    && f.arena[f.nameIndex[f.activeTarget]].kind.Target?
  }

  ghost function TargetOf(f: Forge): UnitKey
    requires HasTarget(f)
  {
    f.nameIndex[f.activeTarget]
  }

  /** The target reaches a unit that requires an unresolvable name. */
  ghost predicate ClosureMisses(f: Forge)
    requires HasTarget(f)
  {
    exists k :: ReachableNeedsMissing(f, TargetOf(f), k)
  }

  /** The error reports such a unit and name. */
  ghost predicate ReportsMiss(f: Forge, e: ForgeError)
    requires HasTarget(f)
  {
    exists k :: ReachableNeedsMissing(f, TargetOf(f), k) && NamesMissingNeed(f, k, e)
  }

  /** The active and required sets a successful closure leaves. */
  ghost function ClosureOf(f: Forge, db: Runlevels.Markers): Forge
    requires HasTarget(f)
  {
    var active := Filtered(f, db, Activated(f, TargetOf(f)));
    f.(activeUnits := active, requiredUnits := ReachSet(RequireGraph(f), active))
  }

  /** The closure fails, or it works and then the resolution of its units. */
  ghost predicate GraphFails(f: Forge, db: Runlevels.Markers) {
    || !HasTarget(f)
    || (!f.bootLenient && (ClosureMisses(f) || ActiveOrdersMissing(ClosureOf(f, db))))
  }

  /** What closure and resolution make of f: a failed closure changes nothing. */
  ghost predicate GraphResult(f: Forge, db: Runlevels.Markers, g: Forge, r: Result<()>) {
    if !HasTarget(f) || (!f.bootLenient && ClosureMisses(f)) then r.Err? && g == f
    else ResolvedTo(ClosureOf(f, db), g, r)
  }

  /** A boot fails before it attempts anything: no graph, or no schedule for a boot that is not lenient. */
  ghost predicate BootFails(f: Forge, db: Runlevels.Markers, g: Forge) {
    GraphFails(f, db) || (!f.bootLenient && Deadlocked(g))
  }

  lemma GraphExact(f: Forge, db: Runlevels.Markers, g: Forge, r: Result<()>)
    requires Sound(f) && GraphResult(f, db, g, r)
    ensures r.Err? <==> GraphFails(f, db)
    ensures g.bootLenient == f.bootLenient && Reordered(f.arena, g.arena) && Extends(f, g)
    ensures r.Ok? ==> HasTarget(f) && FreshlyResolved(g) && g.activeUnits <= g.requiredUnits
    ensures r.Ok? ==> g == ClosureOf(f, db).(arena := g.arena, reverse := g.reverse)
  {
    if HasTarget(f) {
      ClosureRequiresActive(f, db);
    }
    ReorderedExtends(f, g);
  }

  lemma SoundDistinct(f: Forge)
    requires Sound(f)
    ensures DistinctNames(f.arena)
  {
    SoundNames(f);
  }

  lemma ActivatedLive(f: Forge, target: UnitKey)
    ensures forall k | k in Activated(f, target) :: k < |f.arena|
  {
  }

  class ForgeState {
    var arena: seq<Unit>
    var nameIndex: map<string, UnitKey>
    var pidIndex: map<Pid, UnitKey>
    var providesIndex: map<string, UnitKey>
    var activeUnits: set<UnitKey>
    var requiredUnits: set<UnitKey>
    var reverse: map<UnitKey, seq<UnitKey>>
    var pendingRestarts: seq<UnitKey>
    var restartTimes: map<string, seq<Time>>
    var activeTarget: string
    var shuttingDown: bool
    var bootLenient: bool
    var strictBoot: bool

    function View(): Forge
      reads this
    {
      Forge(arena, nameIndex, pidIndex, providesIndex, activeUnits, requiredUnits, reverse,
            pendingRestarts, restartTimes, activeTarget, shuttingDown, bootLenient, strictBoot)
    }

    constructor (target: string)
      ensures View() == EMPTY.(activeTarget := target)
    {
      arena, nameIndex, pidIndex, providesIndex := [], map[], map[], map[];
      activeUnits, requiredUnits, reverse := {}, {}, map[];
      pendingRestarts, restartTimes := [], map[];
      activeTarget := target;
      shuttingDown, bootLenient, strictBoot := false, false, false;
    }

    // ---- Registration ---------------------------------------------------------------------------------------

    method InsertUnit(name: string, kind: Kind) returns (key: UnitKey)
      modifies this`arena, this`nameIndex
      ensures (View(), key) == Supervision.InsertUnit(old(View()), name, kind)
    {
      if name in nameIndex {
        return nameIndex[name];
      }
      key := |arena|;
      arena := arena + [Unit(name, kind.Definition(), Dead, [], None)];
      nameIndex := nameIndex[name := key];
    }

    method RegisterUnit(name: string, kind: Kind, virtuals: seq<string>) returns (key: UnitKey)
      modifies this`arena, this`nameIndex, this`providesIndex
      ensures (View(), key) == Register(old(View()), name, kind, virtuals)
    {
      key := InsertUnit(name, kind);
      ghost var claimed := providesIndex;
      for i := 0 to |virtuals|
        invariant View() == Supervision.InsertUnit(old(View()), name, kind).0.(providesIndex := providesIndex)
        invariant providesIndex == Claim(claimed, virtuals[..i], key)
      {
        assert virtuals[..i + 1][..i] == virtuals[..i];
        if virtuals[i] !in providesIndex {
          providesIndex := providesIndex[virtuals[i] := key];
        }
      }
      assert virtuals[..|virtuals|] == virtuals;
    }

    /** OpenRC `before`: orders `first` ahead of `unit`. */
    method PrependOrdering(unit: string, first: string) returns (r: Result<()>)
      modifies this`arena
      ensures (View(), r) == Supervision.PrependOrdering(old(View()), unit, first)
    {
      if unit !in nameIndex || nameIndex[unit] >= |arena| {
        return Err(NotFound(unit));
      }
      var key := nameIndex[unit];
      arena := arena[key := arena[key].(kind := WithAfter(arena[key].kind, first))];
      r := Ok(());
    }

    // ---- Activation and ordering ----------------------------------------------------------------------------

    /** Recomputes the active and required sets for the active target, or leaves both alone. */
    method ResolveTargetClosure(db: Runlevels.Markers) returns (r: Result<()>)
      requires Sound(View())
      modifies this`activeUnits, this`requiredUnits
      ensures r.Err? ==> View() == old(View())
      ensures activeTarget !in nameIndex ==> r == Err(MissingUnit("default-target", activeTarget))
      ensures activeTarget in nameIndex && !HasTarget(old(View())) ==> r == Err(InvalidOperation(activeTarget))
      ensures HasTarget(old(View())) ==> (r.Err? <==> !bootLenient && ClosureMisses(old(View())))
      ensures HasTarget(old(View())) && r.Err? ==> ReportsMiss(old(View()), r.error)
      ensures r.Ok? ==> HasTarget(old(View())) && View() == ClosureOf(old(View()), db) && Sound(View())
    {
      var reached := ReachTarget();
      if reached.Err? {
        return Err(reached.error);
      }
      ghost var f := View();
      ClosedSound(f, db);
      var active, required := Activate(reached.value, db);
      activeUnits, requiredUnits := active, required;
      assert View() == ClosureOf(f, db);
      r := Ok(());
    }

    /** The units reachable from the active target. */
    method ReachTarget() returns (r: Result<set<UnitKey>>)
      requires Sound(View())
      ensures activeTarget !in nameIndex ==> r == Err(MissingUnit("default-target", activeTarget))
      ensures activeTarget in nameIndex && !HasTarget(View()) ==> r == Err(InvalidOperation(activeTarget))
      ensures HasTarget(View()) ==> (r.Err? <==> !bootLenient && ClosureMisses(View()))
      ensures HasTarget(View()) && r.Err? ==> ReportsMiss(View(), r.error)
      ensures r.Ok? ==> HasTarget(View()) && r.value == ReachSet(ClosureGraph(View()), {TargetOf(View())})
    {
      if activeTarget !in nameIndex {
        return Err(MissingUnit("default-target", activeTarget));
      }
      var target := nameIndex[activeTarget];
      if !arena[target].kind.Target? {
        return Err(InvalidOperation(activeTarget));
      }
      assert HasTarget(View()) && target == TargetOf(View());
      r := TargetClosure(View(), target);
    }

    /** Sockets join the closure, the runlevel filters it, and the hard requirements are collected. */
    method Activate(closure: set<UnitKey>, db: Runlevels.Markers) returns (active: set<UnitKey>, required: set<UnitKey>)
      requires Sound(View()) && HasTarget(View())
      requires closure == ReachSet(ClosureGraph(View()), {TargetOf(View())})
      ensures active == ClosureOf(View(), db).activeUnits && required == ClosureOf(View(), db).requiredUnits
    {
      active := ExpandSocketDependencies(View(), closure);
      active := FilterActiveByRunlevel(active, db);
      required := CollectRequiredUnits(View(), active);
    }

    /** Drops services not enabled at the target's runlevel, if the marker database is in use. */
    method FilterActiveByRunlevel(units: set<UnitKey>, db: Runlevels.Markers) returns (kept: set<UnitKey>)
      requires forall k | k in units :: k < |arena|
      ensures kept == Filtered(View(), db, units)
    {
      if !db.seeded {
        return units;
      }
      var level := Runlevels.TargetToRunlevel(activeTarget);
      kept := set k | k in units && EnabledAt(View(), db, level, k);
    }

    /** Computes every active unit's dependency list and the reverse index. */
    method ResolveDependencies() returns (r: Result<()>)
      requires Sound(View())
      modifies this`arena, this`reverse
      ensures ResolvedTo(old(View()), View(), r)
    {
      ghost var f := View();
      var units, index, result := Resolve(View());
      arena := units;
      reverse := index;
      assert View() == f.(arena := units, reverse := index);
      r := result;
    }

    method BootableUnits() returns (units: set<UnitKey>)
      ensures units == BootableSet(View())
    {
      units := set k | k in activeUnits && k < |arena| && arena[k].kind.Bootable();
    }

    /** Layered topological order of the bootable units; an error when some can never start. */
    method BootWaves() returns (r: Result<seq<seq<UnitKey>>>)
      requires Sound(View()) && !Underflow(View())
      ensures r.Ok? ==> Counted(View(), r.value)
      ensures r.Err? ==> r.error == CycleDetected
      ensures r.Err? <==> Stalls(View())
    {
      hide Stalls, Sound;
      ghost var f := View();
      var bootable := BootableUnits();
      SoundDistinct(f);
      var waves, complete, underflow := Scheduling.BootWaves(arena, bootable, reverse);
      StallsExact(f, |waves|);
      if !complete {
        return Err(CycleDetected);
      }
      r := Ok(waves);
    }

    /** Services, latest wave first. */
    method StopOrder() returns (r: Result<seq<UnitKey>>)
      requires Sound(View()) && !Underflow(View())
      ensures r.Err? <==> Stalls(View())
      ensures r.Ok? ==> exists waves :: Counted(View(), waves) && r.value == ServicesBackwards(View(), waves)
    {
      hide Counted, Stalls, Underflow, Sound;
      var planned := BootWaves();
      if planned.Err? {
        return Err(planned.error);
      }
      var waves := planned.value;
      var order: seq<UnitKey> := [];
      var i := |waves|;
      while i > 0
        invariant 0 <= i <= |waves|
        invariant order == ServicesBackwards(View(), waves[i..])
      {
        i := i - 1;
        assert waves[i..] == [waves[i]] + waves[i + 1..];
        order := order + ServicesIn(View(), waves[i]);
      }
      assert waves[0..] == waves;
      r := Ok(order);
    }

    // ---- Supervision ----------------------------------------------------------------------------------------

    method RestartAllowed(name: string, now: Time) returns (granted: bool)
      modifies this`restartTimes
      ensures (granted, restartTimes) == RestartLimiter.Decide(old(restartTimes), RestartLimiter.Request(name, now))
    {
      var kept := RestartLimiter.Prune(RestartLimiter.TimesOf(restartTimes, name), now);
      restartTimes := restartTimes[name := kept];
      if |kept| >= RestartLimiter.RESTART_BURST_MAX {
        return false;
      }
      restartTimes := restartTimes[name := kept + [now]];
      assert restartTimes == old(restartTimes)[name := kept + [now]];
      granted := true;
    }

    method OnChildExit(pid: Pid, status: ExitStatus) returns (known: bool)
      modifies this`arena, this`pidIndex, this`pendingRestarts
      ensures (View(), known) == Supervision.OnChildExit(old(View()), pid, status)
    {
      if pid !in pidIndex || pidIndex[pid] >= |arena| {
        return false;
      }
      var key := pidIndex[pid];
      pidIndex := pidIndex - {pid};
      var unit := arena[key];
      var restart := !shuttingDown && unit.kind.Service? && WantsRestart(unit.kind.restart, status);
      arena := arena[key := ExitedUnit(unit, status)];
      if restart {
        pendingRestarts := pendingRestarts + [key];
      }
      known := true;
    }

    /** Handles every exit waitpid reports until it has none left. */
    method ReapAllPending(exits: seq<(Pid, ExitStatus)>)
      modifies this`arena, this`pidIndex, this`pendingRestarts
      ensures View() == Reap(old(View()), exits)
    {
      for i := 0 to |exits|
        invariant View() == Reap(old(View()), exits[..i])
      {
        assert exits[..i + 1][..i] == exits[..i];
        var _ := OnChildExit(exits[i].0, exits[i].1);
      }
      assert exits[..|exits|] == exits;
    }

    method ActivateSocketUnit(key: UnitKey, listeners: map<UnitKey, seq<SocketEntry>>) returns (r: Result<()>)
      requires key < |arena|
      modifies this`arena
      ensures (View(), r) == ActivateSocket(old(View()), key, listeners)
    {
      var unit := arena[key];
      if !unit.kind.Socket? {
        return Ok(());
      }
      arena := arena[key := unit.(state := Starting)];
      if key !in listeners {
        return Err(SocketFailed(unit.name));
      }
      arena := arena[key := unit.(kind := unit.kind.(activation := Some(listeners[key])), state := Listening)];
      assert arena == old(arena)[key := arena[key]];
      r := Ok(());
    }

    method ActivateMountUnit(key: UnitKey, works: bool, pid1: bool) returns (r: Result<()>)
      requires key < |arena|
      modifies this`arena
      ensures (View(), r) == ActivateMount(old(View()), key, works, pid1)
    {
      var unit := arena[key];
      if !unit.kind.Mount? || unit.kind.mounted {
        return Ok(());
      }
      arena := arena[key := unit.(state := Starting)];
      if !works {
        if pid1 {
          return Err(InvalidOperation(unit.name));
        }
        arena := arena[key := unit.(state := Dead)];
        assert arena == old(arena)[key := arena[key]];
        return Ok(());
      }
      arena := arena[key := unit.(kind := unit.kind.(mounted := true), state := Running)];
      assert arena == old(arena)[key := arena[key]];
      r := Ok(());
    }

    /** The entries of the named sockets in order, activating those not listening yet. */
    method CollectSocketFds(names: seq<string>, listeners: map<UnitKey, seq<SocketEntry>>)
      returns (r: Result<seq<SocketEntry>>)
      modifies this`arena
      ensures (View(), r) == CollectSockets(old(View()), names, listeners)
    {
      var entries: seq<SocketEntry> := [];
      assert names[0..] == names;
      BehindNothing(CollectSockets(View(), names, listeners));
      for i := 0 to |names|
        invariant CollectSockets(old(View()), names, listeners)
               == Behind(entries, CollectSockets(View(), names[i..], listeners))
      {
        assert names[i..][0] == names[i] && names[i..][1..] == names[i + 1..];
        var found := OpenSocketUnit(names[i], listeners);
        if found.Err? {
          return Err(found.error);
        }
        BehindTwice(entries, found.value, CollectSockets(View(), names[i + 1..], listeners));
        entries := entries + found.value;
      }
      assert names[|names|..] == [] && entries + [] == entries;
      r := Ok(entries);
    }

    method OpenSocketUnit(name: string, listeners: map<UnitKey, seq<SocketEntry>>) returns (r: Result<seq<SocketEntry>>)
      modifies this`arena
      ensures (View(), r) == OpenSocket(old(View()), name, listeners)
    {
      if name !in nameIndex || nameIndex[name] >= |arena| {
        return Err(MissingUnit("service", name));
      }
      var key := nameIndex[name];
      if !arena[key].kind.Socket? {
        return Err(InvalidOperation(name));
      }
      if arena[key].state != Listening {
        var activated := ActivateSocketUnit(key, listeners);
        if activated.Err? {
          return Err(activated.error);
        }
      }
      if arena[key].kind.activation.Some? {
        return Ok(arena[key].kind.activation.value);
      }
      r := Ok([]);
    }

    method StartService(key: UnitKey, w: World) returns (r: Result<Pid>)
      requires key < |arena|
      modifies this`arena, this`pidIndex, this`pendingRestarts
      ensures (View(), r) == Supervision.StartService(old(View()), key, w)
    {
      var unit := arena[key];
      if !unit.kind.Service? {
        return Err(NotService(unit.name));
      }
      arena := arena[key := unit.(state := Starting)];
      if unit.name == "forge-early" {
        if !w.earlyBoot {
          return Err(SpawnFailed(unit.name));
        }
        arena := arena[key := unit.(state := Dead)];
        return Ok(0);
      }
      if w.adopted {
        arena := arena[key := unit.(state := Running)];
        return Ok(0);
      }
      if !w.prepared {
        return Err(SpawnFailed(unit.name));
      }
      CollectKeeps(View(), unit.kind.sockets, w.sockets);
      var collected := CollectSocketFds(unit.kind.sockets, w.sockets);
      if collected.Err? {
        return Err(collected.error);
      }
      if w.spawned.None? {
        return Err(SpawnFailed(unit.name));
      }
      WriteSlot(key, w.spawned);
      r := AwaitLaunched(key, w.spawned.value, w);
    }

    method WriteSlot(key: UnitKey, pid: Option<Pid>)
      requires key < |arena|
      modifies this`arena
      ensures View() == SetSlot(old(View()), key, pid)
    {
      arena := arena[key := arena[key].(kind := WithPid(arena[key].kind, pid))];
    }

    /** Waits as the service type demands, and records the process that stays. */
    method AwaitLaunched(key: UnitKey, pid: Pid, w: World) returns (r: Result<Pid>)
      requires key < |arena| && arena[key].kind.Service?
      modifies this`arena, this`pidIndex, this`pendingRestarts
      ensures (View(), r) == Launched(old(View()), key, pid, w)
    {
      var name, kind := arena[key].name, arena[key].kind.serviceType;
      if !w.ready {
        WriteSlot(key, None);
        return Err(SpawnFailed(name));
      }
      if !kind.Forking? && !kind.Oneshot? {
        RecordPid(key, pid);
        return Ok(pid);
      }
      ReapKeeps(View(), w.reaped);
      ReapAllPending(w.reaped);
      if w.waited.None? {
        WriteSlot(key, None);
        return Err(SpawnFailed(name));
      }
      var success := w.waited.value.Success();
      if kind.Oneshot? {
        WriteSlot(key, None);
        arena := arena[key := arena[key].(state := if success then Dead else UnitState.Failed)];
        if !success {
          return Err(SpawnFailed(name));
        }
        return Ok(pid);
      }
      if !success || w.daemon.None? {
        WriteSlot(key, None);
        return Err(SpawnFailed(name));
      }
      RecordPid(key, w.daemon.value);
      r := Ok(w.daemon.value);
    }

    method RecordPid(key: UnitKey, pid: Pid)
      requires key < |arena|
      modifies this`arena, this`pidIndex
      ensures View() == Record(old(View()), key, pid)
    {
      WriteSlot(key, Some(pid));
      arena := arena[key := arena[key].(state := Running)];
      pidIndex := pidIndex[pid := key];
    }

    method StopService(key: UnitKey) returns (r: Result<()>)
      requires key < |arena|
      modifies this`arena
      ensures (View(), r) == Supervision.StopService(old(View()), key)
    {
      if !arena[key].kind.Service? || arena[key].kind.pid.None? {
        return Err(NotRunning(arena[key].name));
      }
      arena := arena[key := arena[key].(state := Stopping)];
      r := Ok(());
    }

    method StartServiceByName(name: string, w: World) returns (r: Result<Pid>)
      requires Sound(View())
      modifies this`arena, this`pidIndex, this`pendingRestarts, this`activeUnits
      ensures (View(), r) == StartByName(old(View()), name, w)
    {
      var found := Lookup(View(), name);
      if found.None? {
        return Err(NotFound(name));
      }
      if !arena[found.value].kind.Service? {
        return Err(NotService(name));
      }
      activeUnits := activeUnits + {found.value};
      r := StartService(found.value, w);
    }

    method StopServiceByName(name: string) returns (r: Result<()>)
      requires Sound(View())
      modifies this`arena
      ensures (View(), r) == StopByName(old(View()), name)
    {
      var found := Lookup(View(), name);
      if found.None? {
        return Err(NotFound(name));
      }
      r := StopService(found.value);
    }

    method StopAndReap(key: UnitKey, exits: seq<(Pid, ExitStatus)>)
      requires key < |arena|
      modifies this`arena, this`pidIndex, this`pendingRestarts
      ensures View() == Reap(Supervision.StopService(old(View()), key).0, exits) && |arena| == |old(arena)|
    {
      ReapKeeps(Supervision.StopService(View(), key).0, exits);
      var _ := StopService(key);
      ReapAllPending(exits);
    }

    /** Stops the service if it runs, reaps what exits meanwhile, and starts it. */
    method RestartServiceByName(name: string, exits: seq<(Pid, ExitStatus)>, w: World) returns (r: Result<Pid>)
      requires Sound(View())
      modifies this`arena, this`pidIndex, this`pendingRestarts
      ensures (View(), r) == RestartByName(old(View()), name, exits, w)
    {
      hide Supervision.StartService, Supervision.StopService, Reap;
      var found := Lookup(View(), name);
      if found.None? {
        return Err(NotFound(name));
      }
      var key := found.value;
      if arena[key].kind.Service? && arena[key].kind.pid.Some? {
        StopAndReap(key, exits);
      }
      r := StartService(key, w);
    }

    /**
      Drains the restart queue while the clock stays within a span of windows. Each start may queue any number of
      further restarts; the drain still ends. `turns` are the turns it took, and `states` the states between them.
     */
    method ProcessPendingRestarts(span: RestartLimiter.Span) returns (ghost states: seq<Forge>, ghost turns: seq<Turn>)
      requires Sound(View())
      modifies this`arena, this`pidIndex, this`pendingRestarts, this`restartTimes
      ensures Sound(View()) && SameShape(old(View()), View())
      ensures DrainTrace(states, turns) && states[0] == old(View()) && states[|turns|] == View()
      ensures WithinSpan(span, turns) && pendingRestarts == []
    {
      hide DrainStep, Sound, SameShape, WithinSpan, SpanLeft;
      ghost var f := View();
      ShapeRefl(f);
      states, turns := [f], [];
      var left := span;
      SpanWhole(span);
      while pendingRestarts != []
        invariant Keeps(f, View())
        invariant DrainTrace(states, turns) && states[0] == f && states[|turns|] == View()
        invariant WithinSpan(span, turns) && left == SpanLeft(span, turns)
        decreases Allowance(NamesOf(f.arena), restartTimes, left), |pendingRestarts|
      {
        ghost var t;
        t, left := DrainTurn(f, left);
        SpanNext(span, turns, t);
        states, turns := states + [View()], turns + [t];
      }
    }

    /** One turn, with the clock anywhere in what is left of the span, and any outcome of the start. */
    method DrainTurn(ghost f: Forge, left0: RestartLimiter.Span) returns (ghost t: Turn, left: RestartLimiter.Span)
      requires Keeps(f, View()) && pendingRestarts != []
      modifies this`arena, this`pidIndex, this`pendingRestarts, this`restartTimes
      ensures Keeps(f, View()) && DrainStep(old(View()), t, View())
      ensures left0.start <= t.now < RestartLimiter.SpanEnd(left0) && left == RestartLimiter.SpanFrom(left0, t.now)
      ensures Spent(NamesOf(f.arena), old(View()), left0, View(), left)
    {
      hide RestartNext;
      ghost var g := View();
      assert left0.start < RestartLimiter.SpanEnd(left0);
      var now: Time :| left0.start <= now < RestartLimiter.SpanEnd(left0);
      var w: World := *;
      t := Turn(now, w);
      left := RestartLimiter.SpanFrom(left0, now);
      HeadNamed(f, g, t);
      TurnKeeps(f, g, now, w);
      DrainNext(now, w);
      DrainMeasure(NamesOf(f.arena), g, t, View(), left0);
    }

    /** Takes the next queued unit and starts it if its name still has allowance. */
    method DrainNext(now: Time, w: World)
      requires pendingRestarts != [] && Live(arena, pendingRestarts)
      modifies this`arena, this`pidIndex, this`pendingRestarts, this`restartTimes
      ensures View() == RestartNext(old(View()), now, w)
    {
      var key := pendingRestarts[0];
      pendingRestarts := pendingRestarts[1..];
      var granted := RestartAllowed(arena[key].name, now);
      if granted {
        var _ := StartService(key, w);
      }
    }

    /** Raises the flag once, stops the services in dependency order, and reaps what exits. */
    method Shutdown(exits: seq<(Pid, ExitStatus)>) returns (ghost order: seq<UnitKey>)
      requires Sound(View()) && !Underflow(View())
      modifies this`arena, this`pidIndex, this`pendingRestarts, this`shuttingDown
      ensures Live(old(arena), order) && View() == Supervision.Shutdown(old(View()), order, exits)
      ensures if old(shuttingDown) then View() == old(View())
              else ShutDown(old(View()), exits, View()) && ShutdownOrder(old(View()), order)
    {
      hide ShutDown, ShutdownOrder, Underflow, Stalls, Counted, ReapedIndex, Stopped, ReapedUnit;
      order := [];
      if shuttingDown {
        assert View() == Supervision.Shutdown(View(), order, exits);
        return;
      }
      ghost var f := View();
      var stops := PlanShutdown();
      order := stops;
      ServicesStopped(f, order, exits);
      shuttingDown := true;
      StopEach(stops);
      ReapAllPending(exits);
    }

    /** The stop order, or all bootable services if there is none. */
    method PlanShutdown() returns (order: seq<UnitKey>)
      requires Sound(View()) && !Underflow(View())
      ensures Live(arena, order) && ShutdownOrder(View(), order)
    {
      hide Stalls, Underflow;
      var planned := StopOrder();
      if planned.Ok? {
        ghost var waves :| Counted(View(), waves) && planned.value == ServicesBackwards(View(), waves);
        ServicesOnly(View(), waves);
        CountedPartitions(View(), waves);
        StopOrderServices(View(), waves);
        return planned.value;
      }
      order := AnyOrder();
    }

    method StopEach(order: seq<UnitKey>)
      requires Live(arena, order)
      modifies this`arena
      ensures View() == StopAll(old(View()), order)
    {
      for i := 0 to |order|
        invariant View() == StopAll(old(View()), order[..i])
      {
        assert order[..i + 1][..i] == order[..i];
        if arena[order[i]].kind.Service? {
          var _ := StopService(order[i]);
        }
      }
      assert order[..|order|] == order;
    }

    /** The bootable services in no particular order. */
    method AnyOrder() returns (order: seq<UnitKey>)
      ensures NoDuplicates(order) && Live(arena, order)
      ensures forall k :: k in order <==> k in BootableSet(View()) && arena[k].kind.Service?
    {
      order := [];
      var rest := BootableUnits();
      ghost var all := rest;
      while rest != {}
        invariant rest <= all
        invariant NoDuplicates(order) && forall k :: k in order <==> k in all - rest && arena[k].kind.Service?
        decreases rest
      {
        var key :| key in rest;
        rest := rest - {key};
        if arena[key].kind.Service? {
          order := order + [key];
        }
      }
      assert forall i | 0 <= i < |order| :: order[i] in order;
    }

    // ---- Boot -----------------------------------------------------------------------------------------------

    /** Activates one unit by kind, with any outcome. */
    method ActivateUnit(key: UnitKey) returns (r: Result<()>, ghost env: Environment)
      requires key < |arena|
      modifies this`arena, this`pidIndex, this`pendingRestarts
      ensures (View(), r) == ActivateByKind(old(View()), key, env)
    {
      hide Supervision.StartService, ActivateSocket, ActivateMount;
      var listeners: map<UnitKey, seq<SocketEntry>> := *;
      var works, pid1: bool := *, *;
      var world: World := *;
      env := Environment(listeners, works, pid1, world, []);
      if arena[key].kind.Socket? {
        r := ActivateSocketUnit(key, listeners);
      } else if arena[key].kind.Mount? {
        r := ActivateMountUnit(key, works, pid1);
      } else {
        var started := StartService(key, world);
        r := if started.Ok? then Ok(()) else Err(started.error);
      }
    }

    /** Activates one unit; a failure marks it. */
    method AttemptUnit(ghost f: Forge, key: UnitKey) returns (r: Result<()>, ghost env: Environment)
      requires Keeps(f, View()) && key < |arena|
      modifies this`arena, this`pidIndex, this`pendingRestarts
      ensures Keeps(f, View()) && AttemptStep(old(View()), key, env, View(), r)
    {
      hide ActivateByKind;
      ghost var g := View();
      r, env := ActivateUnit(key);
      if r.Err? && key < |arena| {
        arena := arena[key := arena[key].(state := UnitState.Failed)];
      }
      AttemptKeeps(f, g, key, env, View(), r);
    }

    /**
      What one pass does at one unit; in a strict boot the failure of a required unit is an error. The log records it
      with the states around it.
     */
    method PassUnit(ghost f: Forge, ghost index: nat, key: UnitKey, pass: Pass, ghost start: Forge,
          ghost log: seq<Entry>, ghost plan: seq<Planned>)
      returns (r: Result<()>, ghost log': seq<Entry>)
      requires Keeps(f, View()) && key < |arena| && Finished(f, log, plan) && Traced(start, log, View())
      modifies this`arena, this`pidIndex, this`pendingRestarts
      ensures Keeps(f, View()) && Traced(start, log', View())
      ensures LoopEnds(f, log', plan + PlannedHere(f, index, key, pass), r)
    {
      hide AttemptStep, Traced, Sound;
      r, log' := Ok(()), log;
      KindSame(f, View(), key, pass);
      if InPass(arena[key].kind, pass) {
        ghost var before := View();
        var done;
        ghost var env;
        done, env := AttemptUnit(f, key);
        ghost var e := Entry(Planned(index, key), env, before, View(), done);
        EntryNext(f, log, plan, e);
        EntryTraced(start, log, e);
        log' := log + [e];
        if done.Err? && strictBoot && key in requiredUnits {
          r := done;
        }
      } else {
        assert plan + PlannedHere(f, index, key, pass) == plan;
      }
    }

    /** One pass over a wave. */
    method RunPass(ghost f: Forge, ghost index: nat, wave: seq<UnitKey>, pass: Pass)
      returns (r: Result<()>, ghost log: seq<Entry>)
      requires Keeps(f, View()) && Live(arena, wave)
      modifies this`arena, this`pidIndex, this`pendingRestarts
      ensures Keeps(f, View()) && Traced(old(View()), log, View())
      ensures LoopEnds(f, log, PassPlan(f, index, wave, pass), r)
    {
      hide Sound, Performed;
      log := [];
      ghost var start := View();
      for i := 0 to |wave|
        invariant Keeps(f, View()) && |arena| == |f.arena| && Traced(start, log, View())
        invariant Finished(f, log, PassPlan(f, index, wave[..i], pass))
      {
        assert wave[..i + 1][..i] == wave[..i];
        r, log := PassUnit(f, index, wave[i], pass, start, log, PassPlan(f, index, wave[..i], pass));
        if r.Err? {
          ghost var rest := PassPlanPrefix(f, index, wave, pass, i + 1);
          AbortedEarly(f, log, PassPlan(f, index, wave[..i + 1], pass), rest);
          return;
        }
      }
      assert wave[..|wave|] == wave;
      r := Ok(());
    }

    /** One pass more, behind those that finished. */
    method RunNextPass(ghost f: Forge, ghost index: nat, wave: seq<UnitKey>, pass: Pass, ghost start: Forge,
          ghost log0: seq<Entry>, ghost plan: seq<Planned>)
      returns (r: Result<()>, ghost log: seq<Entry>)
      requires Keeps(f, View()) && Live(f.arena, wave)
      requires Finished(f, log0, plan) && Traced(start, log0, View())
      modifies this`arena, this`pidIndex, this`pendingRestarts
      ensures Keeps(f, View()) && Traced(start, log, View())
      ensures LoopEnds(f, log, plan + PassPlan(f, index, wave, pass), r)
    {
      hide Sound, Performed, PassPlan;
      ghost var g := View();
      ghost var more;
      r, more := RunPass(f, index, wave, pass);
      FinishedThen(f, log0, plan, more, PassPlan(f, index, wave, pass));
      TracedThen(start, log0, g, more, View());
      log := log0 + more;
    }

    /** Sockets, then mounts, then services of one wave, and then any exits. */
    method RunWave(ghost f: Forge, ghost index: nat, wave: seq<UnitKey>)
      returns (r: Result<()>, ghost log: seq<Entry>)
      requires Keeps(f, View()) && Live(f.arena, wave)
      modifies this`arena, this`pidIndex, this`pendingRestarts
      ensures Keeps(f, View()) && Traced(old(View()), log, View())
      ensures LoopEnds(f, log, WavePlan(f, index, wave), r)
    {
      hide Sound, Finished, Traced, Performed, PassPlan, SameShape;
      ghost var start := View();
      ghost var a, b := PassPlan(f, index, wave, Sockets), PassPlan(f, index, wave, Mounts);
      ghost var c, end := PassPlan(f, index, wave, Services), [WaveEnd(index)];
      NothingTraced(f, start);
      r, log := RunNextPass(f, index, wave, Sockets, start, [], []);
      assert [] + a == a;
      if r.Err? {
        AbortedEarly(f, log, a, b);
        AbortedEarly(f, log, a + b, c);
        AbortedEarly(f, log, a + b + c, end);
        return;
      }
      r, log := RunNextPass(f, index, wave, Mounts, start, log, a);
      if r.Err? {
        AbortedEarly(f, log, a + b, c);
        AbortedEarly(f, log, a + b + c, end);
        return;
      }
      r, log := RunNextPass(f, index, wave, Services, start, log, a + b);
      if r.Err? {
        AbortedEarly(f, log, a + b + c, end);
        return;
      }
      log := EndWave(f, index, start, log, a + b + c);
    }

    /** Reaps what exited meanwhile. */
    method EndWave(ghost f: Forge, ghost index: nat, ghost start: Forge, ghost log0: seq<Entry>,
          ghost plan: seq<Planned>)
      returns (ghost log: seq<Entry>)
      requires Keeps(f, View()) && Finished(f, log0, plan) && Traced(start, log0, View())
      modifies this`arena, this`pidIndex, this`pendingRestarts
      ensures Keeps(f, View()) && Traced(start, log, View())
      ensures Finished(f, log, plan + [WaveEnd(index)])
    {
      hide Sound, Reap, Traced;
      var exits: seq<(Pid, ExitStatus)> := *;
      ghost var before := View();
      ReapSoundFrom(f, View(), exits);
      ReapAllPending(exits);
      ghost var e := Entry(WaveEnd(index), Environment(map[], false, false, AnyWorld(), exits), before, View(), Ok(()));
      EntryNext(f, log0, plan, e);
      EntryTraced(start, log0, e);
      log := log0 + [e];
    }

    /** The wave loop: it follows the plan to its end, or to the first failure that a strict boot cannot accept. */
    method RunWaves(ghost f: Forge, waves: seq<seq<UnitKey>>) returns (r: Result<()>, ghost log: seq<Entry>)
      requires Keeps(f, View()) && forall i | 0 <= i < |waves| :: Live(f.arena, waves[i])
      modifies this`arena, this`pidIndex, this`pendingRestarts
      ensures Keeps(f, View()) && Traced(old(View()), log, View())
      ensures LoopEnds(f, log, Plan(f, waves), r)
    {
      hide Sound, Finished, Traced, Performed, WavePlan, SameShape;
      log := [];
      ghost var start := View();
      NothingTraced(f, start);
      for i := 0 to |waves|
        invariant Keeps(f, View()) && Traced(start, log, View())
        invariant Finished(f, log, Plan(f, waves[..i]))
      {
        assert waves[..i + 1][..i] == waves[..i];
        ghost var more;
        ghost var g := View();
        r, more := RunWave(f, i, waves[i]);
        FinishedThen(f, log, Plan(f, waves[..i]), more, WavePlan(f, i, waves[i]));
        TracedThen(start, log, g, more, View());
        log := log + more;
        if r.Err? {
          ghost var rest := PlanPrefix(f, waves, i + 1);
          AbortedEarly(f, log, Plan(f, waves[..i + 1]), rest);
          return;
        }
      }
      assert waves[..|waves|] == waves;
      r := Ok(());
    }

    /** The waves to run: the schedule, or, leniently, all bootable units at once if there is none. */
    method PlanWaves() returns (r: Result<seq<seq<UnitKey>>>)
      requires Sound(View()) && !Underflow(View())
      ensures r.Err? <==> Stalls(View()) && !bootLenient
      ensures r.Err? ==> r.error == CycleDetected
      ensures r.Ok? ==> Partition(r.value, BootableSet(View()))
      ensures r.Ok? ==> forall i | 0 <= i < |r.value| :: Live(arena, r.value[i])
      ensures r.Ok? && !Stalls(View()) ==> Counted(View(), r.value)
    {
      r := BootWaves();
      if r.Ok? {
        CountedPartitions(View(), r.value);
        CountedLive(View(), r.value);
      } else if bootLenient {
        var units := BootableUnits();
        var all := AsList(units);
        assert forall i | 0 <= i < |all| :: all[i] in all;
        OneWavePartitions(all, units);
        r := Ok([all]);
      }
    }

    /** Closure and resolution. */
    method PrepareGraph(db: Runlevels.Markers) returns (r: Result<()>)
      requires Sound(View())
      modifies this`arena, this`reverse, this`activeUnits, this`requiredUnits
      ensures Sound(View()) && GraphResult(old(View()), db, View(), r)
    {
      hide Sound, ClosureMisses;
      ghost var f := View();
      r := ResolveTargetClosure(db);
      if r.Err? {
        return;
      }
      r := ResolveDependencies();
    }

    /** Closure, resolution and scheduling; an error before the wave loop starts nothing. */
    method PrepareBoot(db: Runlevels.Markers) returns (r: Result<seq<seq<UnitKey>>>)
      requires Sound(View())
      modifies this`arena, this`reverse, this`activeUnits, this`requiredUnits
      ensures Sound(View()) && Extends(old(View()), View())
      ensures r.Err? <==> GraphFails(old(View()), db) || (!bootLenient && Deadlocked(View()))
      ensures GraphFails(old(View()), db) ==> r.Err? && GraphResult(old(View()), db, View(), Err(r.error))
      ensures !GraphFails(old(View()), db) ==> GraphResult(old(View()), db, View(), Ok(()))
      ensures !GraphFails(old(View()), db) && r.Err? ==> r.error == CycleDetected
      ensures r.Ok? ==> Booted(View(), r.value)
      ensures r.Ok? && !Deadlocked(View()) ==> Scheduled(View(), r.value)
    {
      hide FreshlyResolved, ReverseExact, ClosureOf, HasTarget, Reordered, GraphResult, GraphFails, Deadlocked, Sound;
      hide Extends, Underflow, Stalls, Counted, Scheduled, Partition;
      ghost var f := View();
      var prepared := PrepareGraph(db);
      GraphExact(f, db, View(), prepared);
      if prepared.Err? {
        return Err(prepared.error);
      }
      assert prepared.value == ();
      FreshSchedules(View());
      r := PlanWaves();
    }

    // ---- Devices --------------------------------------------------------------------------------------------

    method ActivateDeviceByKey(key: UnitKey, w: World) returns (r: Result<()>)
      requires Sound(View()) && key < |arena|
      modifies this`arena, this`pidIndex, this`pendingRestarts, this`activeUnits
      ensures (View(), r) == ActivateDevice(old(View()), key, w)
    {
      var kind := arena[key].kind;
      if !kind.Device? || kind.activated {
        return Ok(());
      }
      MarkKeeps(View(), key);
      arena := arena[key := arena[key].(kind := kind.(activated := true))];
      assert View() == MarkDevice(old(View()), key);
      var started := StartServiceByName(kind.service, w);
      r := if started.Ok? then Ok(()) else Err(started.error);
    }

    /** Devices still to be activated whose path is present, in arena order. */
    method PendingDevices(present: set<UnitKey>) returns (keys: seq<UnitKey>)
      ensures keys == ReadyDevices(View(), present)
    {
      keys := [];
      for k := 0 to |arena|
        invariant keys == ReadyBelow(View(), present, k)
      {
        if arena[k].kind.Device? && !arena[k].kind.activated && k in present {
          keys := keys + [k];
        }
      }
    }

    /** Activates one device, with any outcome of its start. */
    method ActivateNext(ghost f: Forge, key: UnitKey) returns (r: Result<()>, ghost w: World)
      requires Onward(f, View()) && key < |arena|
      modifies this`arena, this`pidIndex, this`pendingRestarts, this`activeUnits
      ensures Onward(f, View()) && |arena| == |old(arena)|
      ensures DeviceStep(old(View()), key, w, View(), r.Ok?)
    {
      var world: World := *;
      w := world;
      ghost var g := View();
      r := ActivateDeviceByKey(key, world);
      DeviceOnward(g, key, w);
      OnwardTrans(f, g, View());
    }

    /** Activates the devices whose path is present, up to the first failure. */
    method ActivateReadyDevices(present: set<UnitKey>) returns (r: Result<()>)
      requires Sound(View())
      modifies this`arena, this`pidIndex, this`pendingRestarts, this`activeUnits
      ensures Sound(View()) && DevicesRun(old(View()), View(), present, r.Ok?)
    {
      hide Sound, Onward, DeviceStep;
      var keys := PendingDevices(present);
      ghost var f := View();
      ghost var states, worlds := [f], [];
      r := Ok(());
      OnwardRefl(f);
      for i := 0 to |keys|
        invariant Onward(f, View()) && |arena| == |f.arena| && r.Ok?
        invariant DevicePass(states, keys[..i], worlds, true) && states[0] == f && states[i] == View()
      {
        ghost var w;
        r, w := ActivateNext(f, keys[i]);
        PassExtends(states, keys, worlds, i, w, View(), r.Ok?);
        states, worlds := states + [View()], worlds + [w];
        if r.Err? {
          OnwardSound(f, View());
          assert DevicesRunBy(f, View(), present, false, states, worlds, i + 1);
          return;
        }
      }
      OnwardSound(f, View());
      assert DevicesRunBy(f, View(), present, true, states, worlds, |keys|);
    }

    /** The wave loop, and, unless it fails, the devices present then; a failure among those is ignored. */
    method RunBoot(ghost planned: Forge, waves: seq<seq<UnitKey>>, present: set<UnitKey>)
      returns (r: Result<()>, ghost log: seq<Entry>, ghost finished: Forge)
      requires Keeps(planned, View()) && forall i | 0 <= i < |waves| :: Live(planned.arena, waves[i])
      modifies this`arena, this`pidIndex, this`pendingRestarts, this`activeUnits
      ensures Sound(View()) && Keeps(planned, finished) && Traced(old(View()), log, finished)
      ensures LoopEnds(planned, log, Plan(planned, waves), r)
      ensures if r.Ok? then DevicesDone(finished, View(), present) else View() == finished
    {
      r, log := RunWaves(planned, waves);
      finished := View();
      if r.Ok? {
        var _ := ActivateReadyDevices(present);
      }
    }

    /**
      Boots the active target. `planned` is the state when the wave loop begins, `waves` what it runs, `log` what it
      did, and `finished` the state when it ends. The paths of the devices in `present` exist by then.
     */
    method BootParallel(db: Runlevels.Markers, present: set<UnitKey>)
      returns (r: Result<()>, ghost planned: Forge, ghost waves: seq<seq<UnitKey>>, ghost log: seq<Entry>,
               ghost finished: Forge)
      requires Sound(View())
      modifies this`arena, this`reverse, this`activeUnits, this`requiredUnits, this`pidIndex, this`pendingRestarts
      ensures Sound(View()) && Extends(old(View()), planned)
      ensures Traced(planned, log, finished) && SameShape(planned, finished)
      ensures BootFails(old(View()), db, planned) <==> r.Err? && log == []
      ensures GraphFails(old(View()), db) ==> r.Err? && GraphResult(old(View()), db, planned, r)
      ensures !GraphFails(old(View()), db) ==> GraphResult(old(View()), db, planned, Ok(()))
      ensures !BootFails(old(View()), db, planned) ==> Booted(planned, waves)
      ensures !BootFails(old(View()), db, planned) && !Deadlocked(planned) ==> Scheduled(planned, waves)
      ensures !BootFails(old(View()), db, planned) ==> LoopEnds(planned, log, Plan(planned, waves), r)
      ensures if r.Ok? then DevicesDone(finished, View(), present) else View() == finished
      ensures r.Err? && log == [] && !GraphFails(old(View()), db) ==> r.error == CycleDetected
    {
      hide Sound, SameShape, GraphFails, GraphResult, Deadlocked, Scheduled, Finished, Performed, Partition;
      hide FreshlyResolved, Extends;
      waves, log := [], [];
      var plan := PrepareBoot(db);
      planned := View();
      ShapeRefl(planned);
      if plan.Err? {
        r := Err(plan.error);
        finished := planned;
        return;
      }
      waves := plan.value;
      r, log, finished := RunBoot(planned, plan.value, present);
    }
  }

  /** A list of the units of a set, in any order. */
  method AsList(units: set<UnitKey>) returns (list: seq<UnitKey>)
    ensures NoDuplicates(list) && forall k :: k in list <==> k in units
  {
    list := [];
    var rest := units;
    while rest != {}
      invariant rest <= units && NoDuplicates(list) && forall k :: k in list <==> k in units - rest
      decreases rest
    {
      var key :| key in rest;
      assert key !in list;
      rest := rest - {key};
      list := list + [key];
    }
  }

  lemma OneWavePartitions(list: seq<UnitKey>, units: set<UnitKey>)
    requires NoDuplicates(list) && forall k :: k in list <==> k in units
    ensures Partition([list], units)
  {
    forall k | k in units ensures InSomeWave([list], k) {
      assert k in [list][0];
    }
  }

  /** The required set is seeded with every active unit. */
  lemma ClosureRequiresActive(f: Forge, db: Runlevels.Markers)
    requires Sound(f) && HasTarget(f)
    ensures ClosureOf(f, db).activeUnits <= ClosureOf(f, db).requiredUnits
  {
    ActivatedLive(f, TargetOf(f));
    var g, active := RequireGraph(f), ClosureOf(f, db).activeUnits;
    forall k | k in active ensures k in ReachSet(g, active) {
      ReachesSelf(g, k);
      assert Reached(g, active, k);
    }
  }

  lemma BehindNothing(rest: (Forge, Result<seq<SocketEntry>>))
    ensures Behind([], rest) == rest
  {
    if rest.1.Ok? {
      assert [] + rest.1.value == rest.1.value;
    }
  }

  lemma BehindTwice(a: seq<SocketEntry>, b: seq<SocketEntry>, rest: (Forge, Result<seq<SocketEntry>>))
    ensures Behind(a, Behind(b, rest)) == Behind(a + b, rest)
  {
    if rest.1.Ok? {
      assert a + (b + rest.1.value) == a + b + rest.1.value;
    }
  }

  lemma ReorderedExtends(f: Forge, g: Forge)
    requires Reordered(f.arena, g.arena) && g.nameIndex == f.nameIndex && g.providesIndex == f.providesIndex
    ensures Extends(f, g)
  {
  }

  lemma ClosedSound(f: Forge, db: Runlevels.Markers)
    requires Sound(f) && HasTarget(f)
    ensures Sound(ClosureOf(f, db))
  {
    ActivatedLive(f, TargetOf(f));
  }

  // ---- The stop order ---------------------------------------------------------------------------------------

  function ServicesIn(f: Forge, wave: seq<UnitKey>): seq<UnitKey> {
    if wave == [] then []
    else (if wave[0] < |f.arena| && f.arena[wave[0]].kind.Service? then [wave[0]] else []) + ServicesIn(f, wave[1..])
  }

  function ServicesBackwards(f: Forge, waves: seq<seq<UnitKey>>): seq<UnitKey> {
    if waves == [] then [] else ServicesBackwards(f, waves[1..]) + ServicesIn(f, waves[0])
  }

  lemma {:induction false} ServicesInOnly(f: Forge, wave: seq<UnitKey>)
    ensures forall k :: k in ServicesIn(f, wave) <==> k in wave && k < |f.arena| && f.arena[k].kind.Service?
  {
    if wave == [] {
    } else {
      ServicesInOnly(f, wave[1..]);
      assert wave == [wave[0]] + wave[1..];
    }
  }

  lemma {:induction false} ServicesOnly(f: Forge, waves: seq<seq<UnitKey>>)
    ensures forall k | k in ServicesBackwards(f, waves) :: k < |f.arena| && f.arena[k].kind.Service?
    ensures Live(f.arena, ServicesBackwards(f, waves))
  {
    if waves == [] {
    } else {
      ServicesOnly(f, waves[1..]);
      ServicesInOnly(f, waves[0]);
    }
    var all := ServicesBackwards(f, waves);
    assert forall i | 0 <= i < |all| :: all[i] in all;
  }

  lemma {:induction false} BackwardsHas(f: Forge, waves: seq<seq<UnitKey>>, k: UnitKey)
    ensures k in ServicesBackwards(f, waves)
            <==> k < |f.arena| && f.arena[k].kind.Service? && InSomeWave(waves, k)
  {
    if waves == [] {
    } else {
      BackwardsHas(f, waves[1..], k);
      ServicesInOnly(f, waves[0]);
      assert waves == [waves[0]] + waves[1..];
      if i :| 0 <= i < |waves[1..]| && k in waves[1..][i] { assert k in waves[i + 1]; }
      if i :| 0 < i < |waves| && k in waves[i] { assert k in waves[1..][i - 1]; }
    }
  }

  /** The services of waves that partition the bootable units are the bootable services. */
  lemma StopOrderServices(f: Forge, waves: seq<seq<UnitKey>>)
    requires Partition(waves, BootableSet(f))
    ensures forall k :: k in ServicesBackwards(f, waves) <==> k in BootableSet(f) && f.arena[k].kind.Service?
  {
    forall k: UnitKey ensures k in ServicesBackwards(f, waves) <==> k in BootableSet(f) && f.arena[k].kind.Service? {
      BackwardsHas(f, waves, k);
    }
  }

  /** The order of a shutdown: the bootable services, in the order of a schedule if the counters give one. */
  ghost predicate ShutdownOrder(f: Forge, order: seq<UnitKey>) {
    && (forall k :: k in order <==> k in BootableSet(f) && f.arena[k].kind.Service?)
    && if Stalls(f) then NoDuplicates(order)
       else exists waves :: Counted(f, waves) && order == ServicesBackwards(f, waves)
  }

  lemma ServicesStopped(f: Forge, order: seq<UnitKey>, exits: seq<(Pid, ExitStatus)>)
    requires Sound(f) && !f.shuttingDown && Live(f.arena, order) && ShutdownOrder(f, order)
    ensures ShutDown(f, exits, Supervision.Shutdown(f, order, exits))
  {
    ShutdownExact(f, order, exits);
    hide Supervision.Shutdown, Stalls, Counted, ReapedIndex, Stopped, ReapedUnit;
  }

  /** A shutdown that begins stops every bootable service that runs, and no other unit; exactly the reported pids go. */
  ghost predicate ShutDown(f: Forge, exits: seq<(Pid, ExitStatus)>, g: Forge) {
    && g.shuttingDown && |g.arena| == |f.arena| && ReapedIndex(f.pidIndex, exits, g.pidIndex)
    && g.pendingRestarts == f.pendingRestarts
    && forall k | 0 <= k < |f.arena| ::
         if k in BootableSet(f) && HasProcess(f.arena[k]) then Stopped(f, exits, k, g.arena[k])
         else ReapedUnit(f, exits, k, g.arena[k])
  }
}
