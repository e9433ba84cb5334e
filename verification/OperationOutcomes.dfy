/** Devices, restarts and turns of the drain end in starts: what they leave, and what every run keeps in the index. */
module OperationOutcomes {
  import opened Units
  import opened Names
  import opened ForgeModel
  import opened Supervision
  import opened Keeping
  import opened Devices
  import opened NamedGraphs
  import opened ExitOutcomes
  import opened StartOutcomes
  import opened StopOutcomes
  import opened Runs
  import RestartLimiter

  /** The service was started: what its child left in its unit and in the index. */
  ghost predicate LeavesStarted(f: Forge, k: UnitKey, w: World, g: Forge)
    requires k < |f.arena| && f.arena[k].kind.Service?
  {
    var t := f.arena[k].kind.serviceType;
    && |g.arena| == |f.arena| && LaunchedUnit(f.arena[k].(state := Starting), t, w, g.arena[k])
    && StartedIndex(f.pidIndex, Awaited(t, w), Stays(t, w), k, g.pidIndex)
  }

  /** f and g offer the same to a start of unit k. */
  ghost predicate AlikeFor(f: Forge, g: Forge, k: UnitKey) {
    && k < |f.arena| == |g.arena| && f.arena[k] == g.arena[k] && f.nameIndex == g.nameIndex && f.pidIndex == g.pidIndex
    && forall j | 0 <= j < |f.arena| ::
         f.arena[j] == g.arena[j] || (!f.arena[j].kind.Socket? && !g.arena[j].kind.Socket?)
  }

  lemma StartsAlike(f: Forge, g: Forge, k: UnitKey, w: World)
    requires AlikeFor(f, g, k) && f.arena[k].kind.Service?
    ensures Succeeds(f, f.arena[k], w) <==> Succeeds(g, g.arena[k], w)
    ensures Launches(f, f.arena[k], w) <==> Launches(g, g.arena[k], w)
    ensures forall h :: LeavesStarted(f, k, w, h) <==> LeavesStarted(g, k, w, h)
  {
    hide ComesUp, LaunchedUnit, StartedIndex;
    forall i | 0 <= i < |f.arena[k].kind.sockets|
      ensures Opens(f, f.arena[k].kind.sockets[i], w.sockets) <==> Opens(g, g.arena[k].kind.sockets[i], w.sockets) {}
  }

  // ---- Devices ----------------------------------------------------------------------------------------------

  /**
    The first activation of a device marks it, activates the service that answers to its name, and works exactly if
    there is one and its start succeeds; a child that was spawned is recorded as in any start.
   */
  lemma DeviceExact(f: Forge, k: UnitKey, w: World)
    requires Sound(f) && k < |f.arena| && f.arena[k].kind.Device? && !f.arena[k].kind.activated
    ensures var (g, r) := ActivateDevice(f, k, w);
            var name := f.arena[k].kind.service;
            && |g.arena| == |f.arena| && g.arena[k].kind == Device(name, f.arena[k].kind.after, true)
            && (r.Ok? <==> exists s: UnitKey :: AnswersService(f, name, s) && Succeeds(f, f.arena[s], w))
            && forall s: UnitKey | AnswersService(f, name, s) ::
                 && g.activeUnits == f.activeUnits + {s}
                 && (Launches(f, f.arena[s], w) ==> LeavesStarted(f, s, w, g))
  {
    var name, m := f.arena[k].kind.service, MarkDevice(f, k);
    DeviceOnward(f, k, w);
    DeviceMarked(f, k, w);
    MarkKeeps(f, k);
    StartByNameExact(m, name, w);
    MarkAnswers(f, k, name);
    hide ActivateDevice, MarkDevice, StartByName, Sound, Continues, Extends, LeavesStarted, Launches, Succeeds, Answers;
    forall s: UnitKey | AnswersService(f, name, s)
      ensures AnswersService(m, name, s) && (Succeeds(m, m.arena[s], w) <==> Succeeds(f, f.arena[s], w))
      ensures Launches(f, f.arena[s], w) ==> LeavesStarted(f, s, w, ActivateDevice(f, k, w).0)
    {
      MarkedStart(f, k, name, s, w);
    }
  }

  lemma DeviceMarked(f: Forge, k: UnitKey, w: World)
    requires Sound(f) && k < |f.arena| && f.arena[k].kind.Device? && !f.arena[k].kind.activated
    requires Activates(f, ActivateDevice(f, k, w).0, [k])
    ensures Sound(MarkDevice(f, k))
    ensures var (g, r) := ActivateDevice(f, k, w);
            var (h, started) := StartByName(MarkDevice(f, k), f.arena[k].kind.service, w);
            && g == h && (r.Ok? <==> started.Ok?) && MarkDevice(f, k).activeUnits == f.activeUnits
            && |g.arena| == |f.arena| && g.arena[k].kind == Device(f.arena[k].kind.service, f.arena[k].kind.after, true)
  {
    MarkKeeps(f, k);
    hide Sound, StartByName;
    assert ActivatesAt(f, ActivateDevice(f, k, w).0, k, k in [k]);
  }

  lemma MarkAnswers(f: Forge, k: UnitKey, name: string)
    requires k < |f.arena| && f.arena[k].kind.Device?
    ensures forall s: UnitKey :: AnswersService(MarkDevice(f, k), name, s) <==> AnswersService(f, name, s)
  {
  }

  lemma MarkedStart(f: Forge, k: UnitKey, name: string, s: UnitKey, w: World)
    requires Sound(f) && k < |f.arena| && f.arena[k].kind.Device? && AnswersService(f, name, s)
    requires Sound(MarkDevice(f, k))
    ensures var m := MarkDevice(f, k);
            && AnswersService(m, name, s) && (Succeeds(m, m.arena[s], w) <==> Succeeds(f, f.arena[s], w))
            && (Launches(f, f.arena[s], w) ==> LeavesStarted(f, s, w, StartByName(m, name, w).0))
  {
    var m := MarkDevice(f, k);
    assert AlikeFor(f, m, s);
    StartsAlike(f, m, s, w);
    if Launches(m, m.arena[s], w) {
      StartByNameLaunched(m, name, s, w);
    }
    hide Sound, StartByName, LaunchedUnit, StartedIndex, Launches, Succeeds;
  }

  // ---- The drain --------------------------------------------------------------------------------------------

  /**
    A turn of the drain takes the head of the queue. If the limiter grants it, the head's service is started, and a
    child that was spawned is recorded; if not, nothing but queue and history changes.
   */
  lemma TurnExact(f: Forge, now: Time, w: World)
    requires Sound(f) && f.pendingRestarts != []
    ensures var k := f.pendingRestarts[0];
            var g := RestartNext(f, now, w);
            if RestartLimiter.Decide(f.restartTimes, RestartLimiter.Request(f.arena[k].name, now)).0
            then f.arena[k].kind.Service? && Launches(f, f.arena[k], w) ==> LeavesStarted(f, k, w, g)
            else g == f.(pendingRestarts := f.pendingRestarts[1..], restartTimes := g.restartTimes)
  {
    var k := f.pendingRestarts[0];
    var (granted, times) := RestartLimiter.Decide(f.restartTimes, RestartLimiter.Request(f.arena[k].name, now));
    if granted && f.arena[k].kind.Service? && Launches(f, f.arena[k], w) {
      var f1 := f.(pendingRestarts := f.pendingRestarts[1..], restartTimes := times);
      assert AlikeFor(f, f1, k);
      StartsAlike(f, f1, k, w);
      SoundBoth(f);
      StartLaunched(f1, k, w);
    }
    hide RestartLimiter.Decide, Sound, StartService, Launches, LaunchedUnit, StartedIndex;
  }

  // ---- Restarts by name -------------------------------------------------------------------------------------

  /** The state in which a restart starts the service: stopped and reaped if it ran. */
  ghost function Halted(f: Forge, k: UnitKey, exits: seq<(Pid, ExitStatus)>): Forge
    requires k < |f.arena|
  {
    if HasProcess(f.arena[k]) then Reap(StopService(f, k).0, exits) else f
  }

  /** The reports that a restart handles before its start. */
  function HaltReports(f: Forge, k: UnitKey, exits: seq<(Pid, ExitStatus)>): seq<(Pid, ExitStatus)>
    requires k < |f.arena|
  {
    if HasProcess(f.arena[k]) then exits else []
  }

  /** The same service apart from its process and state. */
  ghost predicate SameButRunning(u: Unit, v: Unit) {
    u.kind.Service? && v.kind.Service? && u.name == v.name && v.kind == u.kind.(pid := v.kind.pid)
  }

  lemma HaltedExact(f: Forge, k: UnitKey, exits: seq<(Pid, ExitStatus)>)
    requires Sound(f) && IndexesServices(f) && k < |f.arena| && f.arena[k].kind.Service?
    ensures var g := Halted(f, k, exits);
            && |g.arena| == |f.arena| && g.nameIndex == f.nameIndex
            && ReapedIndex(f.pidIndex, HaltReports(f, k, exits), g.pidIndex)
            && SameButRunning(f.arena[k], g.arena[k])
            && forall j | 0 <= j < |f.arena| ::
                 f.arena[j] == g.arena[j] || (!f.arena[j].kind.Socket? && !g.arena[j].kind.Socket?)
  {
    var mid := StopService(f, k).0;
    NothingReaped(f);
    StopExact(f, k);
    if HasProcess(f.arena[k]) {
      ReapExact(mid, exits);
      hide Sound, Reap, ReapedIndex, StopService;
      var g := Reap(mid, exits);
      forall j | 0 <= j < |f.arena|
        ensures j == k ==> SameButRunning(f.arena[k], g.arena[k])
        ensures f.arena[j] == g.arena[j] || (!f.arena[j].kind.Socket? && !g.arena[j].kind.Socket?)
      {
        ReapedSocket(mid, exits, j, g.arena[j]);
      }
    }
  }

  lemma HaltedKeeps(f: Forge, k: UnitKey, exits: seq<(Pid, ExitStatus)>)
    requires Sound(f) && k < |f.arena|
    ensures Keeps(f, Halted(f, k, exits))
  {
    ShapeRefl(f);
    if HasProcess(f.arena[k]) {
      StateSound(f, f, k, Stopping);
      ReapSoundFrom(f, StopService(f, k).0, exits);
    }
  }

  lemma ReapedSocket(f: Forge, exits: seq<(Pid, ExitStatus)>, k: UnitKey, v: Unit)
    requires IndexesServices(f) && k < |f.arena| && ReapedUnit(f, exits, k, v)
    ensures f.arena[k].kind.Service? ==> SameButRunning(f.arena[k], v)
    ensures v == f.arena[k] || (!f.arena[k].kind.Socket? && !v.kind.Socket?)
  {
    if v != f.arena[k] {
      var i: nat :| LastReport(f, exits, i, k) && Exits(f.arena[k], v, exits[i].1);
      assert f.arena[k].kind.Service?;
    }
  }

  lemma HaltedStarts(f: Forge, g: Forge, k: UnitKey, w: World)
    requires k < |f.arena| == |g.arena| && SameButRunning(f.arena[k], g.arena[k]) && f.nameIndex == g.nameIndex
    requires forall j | 0 <= j < |f.arena| ::
               f.arena[j] == g.arena[j] || (!f.arena[j].kind.Socket? && !g.arena[j].kind.Socket?)
    ensures Launches(f, f.arena[k], w) <==> Launches(g, g.arena[k], w)
    ensures Succeeds(f, f.arena[k], w) <==> Succeeds(g, g.arena[k], w)
    ensures forall v, t :: LaunchedUnit(g.arena[k].(state := Starting), t, w, v)
                           <==> LaunchedUnit(f.arena[k].(state := Starting), t, w, v)
  {
    hide ComesUp;
    forall i | 0 <= i < |f.arena[k].kind.sockets|
      ensures Opens(f, f.arena[k].kind.sockets[i], w.sockets) <==> Opens(g, g.arena[k].kind.sockets[i], w.sockets) {}
  }

  /**
    Restarting a service by name leaves what a start leaves. Before that, if it ran, exactly the pids reported while it
    stopped leave the index, its own among them if its exit is reported.
   */
  lemma RestartExact(f: Forge, name: string, k: UnitKey, exits: seq<(Pid, ExitStatus)>, w: World)
    requires Sound(f) && IndexesServices(f) && AnswersService(f, name, k) && Launches(f, f.arena[k], w)
    ensures var (g, r) := RestartByName(f, name, exits, w);
            var t := f.arena[k].kind.serviceType;
            && (r.Ok? <==> ComesUp(t, w))
            && |g.arena| == |f.arena| && LaunchedUnit(f.arena[k].(state := Starting), t, w, g.arena[k])
            && forall p :: p in g.pidIndex <==>
                 Stays(t, w) == Some(p)
                 || (p in f.pidIndex && !Reported(Awaited(t, w), p) && !Reported(HaltReports(f, k, exits), p))
  {
    AnswersExact(f, name, k);
    HaltedExact(f, k, exits);
    HaltedKeeps(f, k, exits);
    RestartForm(f, name, k, exits, w);
    var h := Halted(f, k, exits);
    HaltedStarts(f, h, k, w);
    SoundBoth(h);
    StartExact(h, k, w);
    StartLaunched(h, k, w);
    hide Sound, NamesBijective, IndexLive, RestartByName, StartService, Halted, HaltReports, LaunchedUnit, AllOpen;
    hide ComesUp, Stays, Awaited, Reported, IndexesServices;
  }

  lemma RestartForm(f: Forge, name: string, k: UnitKey, exits: seq<(Pid, ExitStatus)>, w: World)
    requires Sound(f) && Lookup(f, name) == Some(k) && k < |f.arena| && f.arena[k].kind.Service?
    ensures k < |Halted(f, k, exits).arena|
    ensures RestartByName(f, name, exits, w) == StartService(Halted(f, k, exits), k, w)
  {
    ReapKeeps(StopService(f, k).0, exits);
    hide Reap, StopService, StartService;
  }

  // ---- The index over whole runs ----------------------------------------------------------------------------

  lemma IndexedOn(f: Forge, g: Forge)
    requires IndexesServices(f) && IndexesFrom(f, g) && Extends(f, g)
    ensures IndexesServices(g)
  {
    forall p | p in g.pidIndex ensures g.pidIndex[p] < |g.arena| && g.arena[g.pidIndex[p]].kind.Service? {
      var k := g.pidIndex[p];
      KindStays(f.arena[k], g.arena[k]);
    }
  }

  lemma KindStays(u: Unit, v: Unit)
    requires SameDefinition(u, v)
    ensures u.kind.Service? <==> v.kind.Service?
  {
  }

  lemma IndexSame(f: Forge, g: Forge)
    requires g.pidIndex == f.pidIndex
    ensures IndexesFrom(f, g)
  {
  }

  lemma StartByNameIndexes(f: Forge, name: string, w: World)
    requires Sound(f)
    ensures IndexesFrom(f, StartByName(f, name, w).0)
  {
    hide StartService;
    match Lookup(f, name)
    case None =>
    case Some(k) =>
      if f.arena[k].kind.Service? {
        ActiveSound(f, f.(activeUnits := f.activeUnits + {k}), k);
        StartIndexes(f.(activeUnits := f.activeUnits + {k}), k, w);
      }
  }

  lemma DeviceIndexes(f: Forge, k: UnitKey, w: World)
    requires Sound(f) && k < |f.arena|
    ensures IndexesFrom(f, ActivateDevice(f, k, w).0)
  {
    hide StartByName;
    if f.arena[k].kind.Device? && !f.arena[k].kind.activated {
      MarkKeeps(f, k);
      StartByNameIndexes(MarkDevice(f, k), f.arena[k].kind.service, w);
    }
  }

  lemma RestartIndexes(f: Forge, name: string, exits: seq<(Pid, ExitStatus)>, w: World)
    requires Sound(f) && IndexesServices(f)
    ensures IndexesFrom(f, RestartByName(f, name, exits, w).0)
  {
    hide StartService, Reap, StopService;
    match Lookup(f, name)
    case None =>
    case Some(k) =>
      if f.arena[k].kind.Service? {
        RestartForm(f, name, k, exits, w);
        HaltedExact(f, k, exits);
        HaltedKeeps(f, k, exits);
        StartIndexes(Halted(f, k, exits), k, w);
        hide Halted, HaltReports, RestartByName, Sound, SameUnit;
        HaltedIndexes(f, Halted(f, k, exits), RestartByName(f, name, exits, w).0);
      } else {
        RestartOther(f, name, k, exits, w);
      }
  }

  lemma HaltedIndexes(f: Forge, h: Forge, g: Forge)
    requires SameShape(f, h) && IndexesFrom(h, g)
    requires forall p | p in h.pidIndex :: p in f.pidIndex && h.pidIndex[p] == f.pidIndex[p]
    ensures IndexesFrom(f, g)
  {
    forall k | 0 <= k < |f.arena| ensures f.arena[k].kind.Service? <==> h.arena[k].kind.Service? {
      assert SameUnit(f.arena[k], h.arena[k]);
    }
  }

  lemma RestartOther(f: Forge, name: string, k: UnitKey, exits: seq<(Pid, ExitStatus)>, w: World)
    requires Sound(f) && Lookup(f, name) == Some(k) && !f.arena[k].kind.Service?
    ensures RestartByName(f, name, exits, w).0 == f
  {
    hide Reap;
  }

  lemma DrainIndexes(f: Forge, now: Time, w: World)
    requires Inv(f) && f.pendingRestarts != []
    ensures IndexesFrom(f, RestartNext(f, now, w))
  {
    var k := f.pendingRestarts[0];
    var times := RestartLimiter.Decide(f.restartTimes, RestartLimiter.Request(f.arena[k].name, now)).1;
    var f1 := f.(pendingRestarts := f.pendingRestarts[1..], restartTimes := times);
    DequeueKeeps(f, f1);
    StartIndexes(f1, k, w);
    hide StartService, RestartLimiter.Decide;
  }

  lemma ShutDownIndexes(f: Forge, order: seq<UnitKey>, exits: seq<(Pid, ExitStatus)>)
    requires Sound(f) && Live(f.arena, order)
    ensures IndexesFrom(f, Shutdown(f, order, exits))
  {
    if !f.shuttingDown {
      SoundBoth(f);
      ShutdownExact(f, order, exits);
      hide Shutdown, Stopped, ReapedUnit;
    }
  }

  lemma ClaimIndexes(f: Forge, name: string, kind: Kind, virtuals: seq<string>)
    ensures Register(f, name, kind, virtuals).0.pidIndex == f.pidIndex
  {
    hide Claim;
  }

  /** Only services are ever indexed: no step of a run changes that. */
  lemma StepIndexes(f: Forge, s: Step)
    requires Inv(f) && IndexesServices(f) && Admissible(f, s)
    ensures IndexesServices(Apply(f, s))
  {
    StepKeeps(f, s);
    StepIndexesFrom(f, s);
    hide Apply;
    IndexedOn(f, Apply(f, s));
  }

  lemma StepIndexesFrom(f: Forge, s: Step)
    requires Inv(f) && IndexesServices(f) && Admissible(f, s)
    ensures IndexesFrom(f, Apply(f, s))
  {
    hide IndexesFrom, IndexesServices, Register, StartByName, StartService, ActivateDevice, RestartByName, RestartNext;
    hide Shutdown, OnChildExit, ActivateSocket, ActivateMount, StopService, Sound;
    var g := Apply(f, s);
    match s
    case RegisterUnit(name, kind, virtuals) => ClaimIndexes(f, name, kind, virtuals); IndexSame(f, g);
    case Order(_, _) => IndexSame(f, g);
    case Start(name, w) => StartByNameIndexes(f, name, w);
    case BootStart(k, w) => StartIndexes(f, k, w);
    case BootSocket(k, listeners) => ActivateKeeps(f, k, listeners); IndexSame(f, g);
    case BootMount(k, works, pid1) => MountIndexes(f, k, works, pid1); IndexSame(f, g);
    case BootFail(_) => IndexSame(f, g);
    case DeviceReady(k, w) => DeviceIndexes(f, k, w);
    case Stop(name) => StopIndex(f, name); IndexSame(f, g);
    case Restart(name, exits, w) => RestartIndexes(f, name, exits, w);
    case Exit(pid, status) => ExitIndexes(f, pid, status);
    case Drain(now, w) => if f.pendingRestarts == [] { IndexSame(f, g); } else { DrainIndexes(f, now, w); }
    case ShutDown(order, exits) => ShutDownIndexes(f, order, exits);
  }

  lemma MountIndexes(f: Forge, k: UnitKey, works: bool, pid1: bool)
    requires k < |f.arena|
    ensures ActivateMount(f, k, works, pid1).0.pidIndex == f.pidIndex
  {
  }

  lemma ExitIndexes(f: Forge, pid: Pid, status: ExitStatus)
    ensures IndexesFrom(f, OnChildExit(f, pid, status).0)
  {
  }

  /** In every run every indexed process belongs to a service. */
  lemma {:induction false} RunIndexes(f: Forge, steps: seq<Step>)
    requires Inv(f) && IndexesServices(f) && Possible(f, steps)
    ensures IndexesServices(Run(f, steps))
    decreases |steps|
  {
    hide IndexesServices, Apply, Inv;
    if steps == [] {
    } else {
      StepIndexes(f, steps[0]);
      StepKeeps(f, steps[0]);
      RunIndexes(Apply(f, steps[0]), steps[1..]);
    }
  }
}
