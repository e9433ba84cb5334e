/** Whole runs of supervision: what every reachable state satisfies, and what no step takes back. */
module Runs {
  import opened Units
  import opened Names
  import opened ForgeModel
  import opened Supervision
  import opened Keeping
  import opened Devices
  import opened ReverseIndex
  import opened Schedules
  import RestartLimiter

  datatype Step =
    | RegisterUnit(name: string, kind: Kind, virtuals: seq<string>)
    | Order(unit: string, first: string)
    | Start(name: string, w: World)
    | BootStart(key: UnitKey, w: World)
    | BootSocket(key: UnitKey, listeners: map<UnitKey, seq<SocketEntry>>)
    | BootMount(key: UnitKey, works: bool, pid1: bool)
    | BootFail(key: UnitKey)
    | DeviceReady(key: UnitKey, w: World)
    | Stop(name: string)
    | Restart(name: string, exits: seq<(Pid, ExitStatus)>, w: World)
    | Exit(pid: Pid, status: ExitStatus)
    | Drain(now: Time, w: World)
    | ShutDown(order: seq<UnitKey>, exits: seq<(Pid, ExitStatus)>)

  /** Steps the system can take: keys come from its own lists, and the kernel hands out fresh pids. */
  ghost predicate Admissible(f: Forge, s: Step) {
    match s
    case RegisterUnit(_, _, _) => true
    case Order(_, _) => true
    case Start(name, w) => FreshByName(f, name, w)
    case BootStart(k, w) => k < |f.arena| && Fresh(f, k, w)
    case BootSocket(k, _) => k < |f.arena|
    case BootMount(k, _, _) => k < |f.arena|
    case BootFail(k) => k < |f.arena|
    case DeviceReady(k, w) => k < |f.arena| && (f.arena[k].kind.Device? ==> FreshByName(f, f.arena[k].kind.service, w))
    case Stop(_) => true
    case Restart(name, _, w) => FreshByName(f, name, w)
    case Exit(_, _) => true
    case Drain(_, w) => f.pendingRestarts != [] ==> Fresh(f, f.pendingRestarts[0], w)
    case ShutDown(order, _) => Live(f.arena, order)
  }

  ghost predicate FreshByName(f: Forge, name: string, w: World) {
    Lookup(f, name).Some? ==> Fresh(f, Lookup(f, name).value, w)
  }

  function Apply(f: Forge, s: Step): Forge
    requires Sound(f) && Admissible(f, s)
  {
    match s
    case RegisterUnit(name, kind, virtuals) => Register(f, name, kind, virtuals).0
    case Order(unit, first) => PrependOrdering(f, unit, first).0
    case Start(name, w) => StartByName(f, name, w).0
    case BootStart(k, w) => StartService(f, k, w).0
    case BootSocket(k, listeners) => ActivateSocket(f, k, listeners).0
    case BootMount(k, works, pid1) => ActivateMount(f, k, works, pid1).0
    case BootFail(k) => SetState(f, k, Failed)
    case DeviceReady(k, w) => ActivateDevice(f, k, w).0
    case Stop(name) => StopByName(f, name).0
    case Restart(name, exits, w) => RestartByName(f, name, exits, w).0
    case Exit(pid, status) => OnChildExit(f, pid, status).0
    case Drain(now, w) => if f.pendingRestarts == [] then f else RestartNext(f, now, w)
    case ShutDown(order, exits) => Shutdown(f, order, exits)
  }

  ghost predicate Inv(f: Forge) {
    Sound(f) && SlotsIndexed(f)
  }

  /** f with one more unit under a new name. */
  ghost predicate Grown(f: Forge, g: Forge, u: Unit) {
    && u.name !in f.nameIndex && u.dependencies == []
    && g == f.(arena := f.arena + [u], nameIndex := f.nameIndex[u.name := |f.arena|])
  }

  lemma InsertCases(f: Forge, name: string, kind: Kind)
    ensures var (g, k) := InsertUnit(f, name, kind);
            || (name in f.nameIndex && g == f && k == f.nameIndex[name])
            || (Grown(f, g, Unit(name, kind.Definition(), Dead, [], None)) && k == |f.arena|)
  {
  }

  lemma GrownNames(f: Forge, g: Forge, u: Unit)
    requires NamesBijective(f) && Grown(f, g, u)
    ensures NamesBijective(g)
  {
  }

  lemma GrownSound(f: Forge, g: Forge, u: Unit)
    requires Sound(f) && Grown(f, g, u)
    ensures Sound(g)
  {
    GrownNames(f, g, u);
    forall k | 0 <= k < |g.arena| ensures Live(g.arena, g.arena[k].dependencies) {
      if k < |f.arena| { assert g.arena[k] == f.arena[k]; }
    }
  }

  lemma GrownExtends(f: Forge, g: Forge, u: Unit)
    requires Grown(f, g, u)
    ensures Continues(f, g)
  {
    assert forall j | 0 <= j < |f.arena| :: g.arena[j] == f.arena[j];
  }

  lemma InsertKeeps(f: Forge, name: string, kind: Kind)
    requires Sound(f)
    ensures var (g, k) := InsertUnit(f, name, kind);
            Sound(g) && Continues(f, g) && k < |g.arena| && g.arena[k].name == name
  {
    InsertCases(f, name, kind);
    var g, u := InsertUnit(f, name, kind).0, Unit(name, kind.Definition(), Dead, [], None);
    if Grown(f, g, u) {
      GrownSound(f, g, u);
      GrownExtends(f, g, u);
    } else {
      ShapeRefl(f);
      ShapeContinues(f, f);
    }
  }

  lemma InsertSlots(f: Forge, name: string, kind: Kind)
    requires SlotsIndexed(f)
    ensures SlotsIndexed(InsertUnit(f, name, kind).0)
  {
    var g := InsertUnit(f, name, kind).0;
    if name !in f.nameIndex {
      assert Slot(g.arena[|f.arena|]) == None;
      forall j | 0 <= j < |g.arena| ensures SlotIndexed(g, j) {
        if j < |f.arena| { assert SlotIndexed(f, j); }
      }
    }
  }

  /** The first claim stands; only the listed names are added, all for k. */
  lemma {:induction false} ClaimExact(claimed: map<string, UnitKey>, names: seq<string>, k: UnitKey)
    ensures var c := Claim(claimed, names, k);
            forall v :: (v in c <==> v in claimed || v in names)
                     && (v in c ==> c[v] == if v in claimed then claimed[v] else k)
    decreases |names|
  {
    if names == [] {
    } else {
      var n := |names| - 1;
      ClaimExact(claimed, names[..n], k);
      assert names == names[..n] + [names[n]];
    }
  }

  lemma ClaimKeeps(f: Forge, virtuals: seq<string>, k: UnitKey)
    requires Sound(f) && k < |f.arena|
    ensures var g := f.(providesIndex := Claim(f.providesIndex, virtuals, k));
            Sound(g) && Continues(f, g) && (SlotsIndexed(f) ==> SlotsIndexed(g))
  {
    ClaimExact(f.providesIndex, virtuals, k);
    var g := f.(providesIndex := Claim(f.providesIndex, virtuals, k));
    forall v | v in g.providesIndex ensures g.providesIndex[v] < |g.arena| {
      assert g.providesIndex[v] == if v in f.providesIndex then f.providesIndex[v] else k;
    }
    ShapeRefl(f);
    if SlotsIndexed(f) {
      SlotsCarried(f, g);
    }
  }

  lemma RegisterKeeps(f: Forge, name: string, kind: Kind, virtuals: seq<string>)
    requires Sound(f)
    ensures var (g, k) := Register(f, name, kind, virtuals);
            Sound(g) && Continues(f, g) && k < |g.arena| && g.arena[k].name == name
            && (SlotsIndexed(f) ==> SlotsIndexed(g))
  {
    var (f1, k) := InsertUnit(f, name, kind);
    InsertKeeps(f, name, kind);
    if SlotsIndexed(f) { InsertSlots(f, name, kind); }
    ClaimKeeps(f1, virtuals, k);
    ContinuesTrans(f, f1, Register(f, name, kind, virtuals).0);
  }

  /** The definition of a new unit: what its file says, and nothing running, mounted, activated or listening. */
  ghost predicate RegisteredAs(kind: Kind, k: Kind) {
    match kind
    case Service(after, needs, wants, sockets, restart, serviceType, runlevels, _) =>
      k == Service(after, needs, wants, sockets, restart, serviceType, runlevels, None)
    case Timer(after) => k == Timer(after)
    case Mount(after, _) => k == Mount(after, false)
    case Device(service, after, _) => k == Device(service, after, false)
    case Socket(activates, after, _) => k == Socket(activates, after, None)
    case Target(needs, wants) => k == Target(needs, wants)
  }

  /** What registering a unit gives: its first definition, and every virtual name that is not yet claimed. */
  ghost predicate Registers(f: Forge, name: string, kind: Kind, virtuals: seq<string>, g: Forge, k: UnitKey) {
    && (name in f.nameIndex ==> k == f.nameIndex[name] && g.arena == f.arena && g.nameIndex == f.nameIndex)
    && (name !in f.nameIndex ==>
          && k == |f.arena| && |g.arena| == k + 1 && g.arena[..k] == f.arena && g.nameIndex == f.nameIndex[name := k]
          && g.arena[k] == Unit(name, g.arena[k].kind, Dead, [], None) && RegisteredAs(kind, g.arena[k].kind))
    && (forall v :: v in g.providesIndex <==> v in f.providesIndex || v in virtuals)
    && (forall v | v in g.providesIndex ::
          g.providesIndex[v] == if v in f.providesIndex then f.providesIndex[v] else k)
  }

  lemma RegisterExact(f: Forge, name: string, kind: Kind, virtuals: seq<string>)
    ensures var (g, k) := Register(f, name, kind, virtuals); Registers(f, name, kind, virtuals, g, k)
  {
    var (f1, k) := InsertUnit(f, name, kind);
    ClaimExact(f1.providesIndex, virtuals, k);
    hide Claim;
  }

  /** Registering a known name changes no unit; only its unclaimed virtual names go to the first definition. */
  lemma DuplicateKeepsFirst(f: Forge, name: string, kind: Kind, virtuals: seq<string>)
    requires name in f.nameIndex
    ensures var (g, k) := Register(f, name, kind, virtuals);
            && g == f.(providesIndex := g.providesIndex)
            && k == f.nameIndex[name]
            && forall v | v !in f.providesIndex ::
                 (v in g.providesIndex <==> v in virtuals) && (v in virtuals ==> g.providesIndex[v] == k)
  {
    ClaimExact(f.providesIndex, virtuals, f.nameIndex[name]);
  }

  lemma OrderKeeps(f: Forge, unit: string, first: string)
    requires Sound(f)
    ensures var g := PrependOrdering(f, unit, first).0;
            Sound(g) && Continues(f, g) && (SlotsIndexed(f) ==> SlotsIndexed(g))
  {
    var g := PrependOrdering(f, unit, first).0;
    if unit in f.nameIndex {
      var k := f.nameIndex[unit];
      OrderedDefinition(f.arena[k], first);
      assert Redefined(f, g, k);
      RedefinedSound(f, g, k);
      RedefinedContinues(f, g, k);
    } else {
      ShapeRefl(f);
      ShapeContinues(f, f);
    }
  }

  lemma OrderedDefinition(u: Unit, first: string)
    ensures var v := u.(kind := WithAfter(u.kind, first));
            SameDefinition(u, v) && Slot(v) == Slot(u) && v.kind.Target? == u.kind.Target?
            && (!u.kind.Target? ==> first in After(v.kind))
  {
  }

  /** Ordering works exactly for a known unit, adds one entry to its list unless it is there, and once is enough. */
  lemma OrderExact(f: Forge, unit: string, first: string)
    requires Sound(f)
    ensures var (g, r) := PrependOrdering(f, unit, first);
            && (r.Ok? <==> unit in f.nameIndex) && (r.Err? ==> g == f && r.error == NotFound(unit))
            && PrependOrdering(g, unit, first) == (g, r)
            && |g.arena| == |f.arena| && g == f.(arena := g.arena)
            && forall k | 0 <= k < |f.arena| ::
                 if f.arena[k].name != unit || f.arena[k].kind.Target? then g.arena[k] == f.arena[k]
                 else !g.arena[k].kind.Target? && first in g.arena[k].kind.after
                      && (first in f.arena[k].kind.after ==> g.arena[k] == f.arena[k])
                      && (first !in f.arena[k].kind.after ==> g.arena[k].kind.after == f.arena[k].kind.after + [first])
                      && g.arena[k] == f.arena[k].(kind := f.arena[k].kind.(after := g.arena[k].kind.after))
  {
    var g := PrependOrdering(f, unit, first).0;
    if unit in f.nameIndex {
      var k := f.nameIndex[unit];
      assert g.arena[k := g.arena[k]] == g.arena;
    }
  }

  // ---- Stopping ---------------------------------------------------------------------------------------------

  lemma StopKeeps(f: Forge, g: Forge, k: UnitKey)
    requires Keeps(f, g) && k < |g.arena|
    ensures Keeps(f, StopService(g, k).0)
    ensures SlotsIndexed(g) ==> SlotsIndexed(StopService(g, k).0)
  {
    StateSound(f, g, k, Stopping);
    if SlotsIndexed(g) {
      StateSlots(g, k, Stopping);
    }
  }

  lemma {:induction false} StopAllKeeps(f: Forge, g: Forge, order: seq<UnitKey>)
    requires Keeps(f, g) && Live(g.arena, order)
    ensures Keeps(f, StopAll(g, order)) && (SlotsIndexed(g) ==> SlotsIndexed(StopAll(g, order)))
    decreases |order|
  {
    if order == [] {
    } else {
      var n := |order| - 1;
      StopAllKeeps(f, g, order[..n]);
      StopKeeps(f, StopAll(g, order[..n]), order[n]);
    }
  }

  // ---- Runs -------------------------------------------------------------------------------------------------

  /** A start in a state that keeps the invariant and extends f. */
  lemma StartAfter(f: Forge, g: Forge, k: UnitKey, w: World)
    requires Inv(g) && Continues(f, g) && k < |g.arena| && Fresh(g, k, w)
    ensures Inv(StartService(g, k, w).0) && Continues(f, StartService(g, k, w).0)
  {
    StartKeeps(g, k, w);
    StartSlots(g, k, w);
    ShapeContinues(g, StartService(g, k, w).0);
    ContinuesTrans(f, g, StartService(g, k, w).0);
  }

  lemma ActiveKeeps(f: Forge, g: Forge, k: UnitKey)
    requires Inv(f) && k < |f.arena| && g == f.(activeUnits := f.activeUnits + {k})
    ensures Inv(g) && Continues(f, g)
  {
    ActiveSound(f, g, k);
    SlotsCarried(f, g);
  }

  lemma StartByNameKeeps(f: Forge, name: string, w: World)
    requires Inv(f) && Continues(f, f) && FreshByName(f, name, w)
    ensures Inv(StartByName(f, name, w).0) && Continues(f, StartByName(f, name, w).0)
  {
    if Lookup(f, name).Some? {
      var k := Lookup(f, name).value;
      var g := f.(activeUnits := f.activeUnits + {k});
      ActiveKeeps(f, g, k);
      StartAfter(f, g, k, w);
    }
  }

  lemma StopByNameKeeps(f: Forge, name: string)
    requires Inv(f) && Continues(f, f)
    ensures Inv(StopByName(f, name).0) && Continues(f, StopByName(f, name).0)
  {
    if Lookup(f, name).Some? {
      ShapeRefl(f);
      StopKeeps(f, f, Lookup(f, name).value);
      ShapeContinues(f, StopByName(f, name).0);
    }
  }

  /** Reaping keeps the invariant, and no other service takes up a pid meanwhile. */
  lemma ReapInv(f: Forge, g: Forge, exits: seq<(Pid, ExitStatus)>)
    requires Keeps(f, g) && SlotsIndexed(g)
    ensures Inv(Reap(g, exits)) && Continues(f, Reap(g, exits)) && |Reap(g, exits).arena| == |g.arena|
    ensures forall k, w | Fresh(g, k, w) :: Fresh(Reap(g, exits), k, w)
  {
    ReapSoundFrom(f, g, exits);
    ReapSlots(g, exits, {});
    ShapeContinues(f, Reap(g, exits));
  }

  lemma StateFresh(f: Forge, k: UnitKey, s: UnitState, j: UnitKey, w: World)
    requires k < |f.arena| && Fresh(f, j, w)
    ensures Fresh(SetState(f, k, s), j, w)
  {
    var g := SetState(f, k, s);
    forall i | 0 <= i < |g.arena| && i != j && Slot(g.arena[i]).Some?
      ensures Slot(g.arena[i]) != w.spawned && Slot(g.arena[i]) != w.daemon
    {
      assert Slot(g.arena[i]) == Slot(f.arena[i]);
    }
  }

  lemma RestartByNameKeeps(f: Forge, name: string, exits: seq<(Pid, ExitStatus)>, w: World)
    requires Inv(f) && Continues(f, f) && FreshByName(f, name, w)
    ensures Inv(RestartByName(f, name, exits, w).0) && Continues(f, RestartByName(f, name, exits, w).0)
  {
    if Lookup(f, name).Some? {
      var k := Lookup(f, name).value;
      ShapeRefl(f);
      StopKeeps(f, f, k);
      StateFresh(f, k, Stopping, k, w);
      ReapInv(f, StopService(f, k).0, exits);
      StartAfter(f, if Slot(f.arena[k]).Some? then Reap(StopService(f, k).0, exits) else f, k, w);
    }
  }

  lemma ExitInv(f: Forge, pid: Pid, status: ExitStatus)
    requires Inv(f)
    ensures Inv(OnChildExit(f, pid, status).0) && Continues(f, OnChildExit(f, pid, status).0)
  {
    ExitLive(f, pid, status);
    ExitSlots(f, pid, status, {});
    ExitKeeps(f, pid, status);
    ShapeContinues(f, OnChildExit(f, pid, status).0);
  }

  /** Taking the head off the restart queue, and any change of the restart history. */
  lemma DequeueKeeps(f: Forge, g: Forge)
    requires Inv(f) && f.pendingRestarts != []
    requires g == f.(pendingRestarts := f.pendingRestarts[1..], restartTimes := g.restartTimes)
    ensures Inv(g) && Continues(f, g)
  {
    ShapeRefl(f);
    SlotsCarried(f, g);
    SoundOfShape(f, g);
    ShapeContinues(f, g);
  }

  lemma DrainKeeps(f: Forge, now: Time, w: World)
    requires Inv(f) && f.pendingRestarts != [] && Fresh(f, f.pendingRestarts[0], w)
    ensures Inv(RestartNext(f, now, w)) && Continues(f, RestartNext(f, now, w))
  {
    var k := f.pendingRestarts[0];
    var times := RestartLimiter.Decide(f.restartTimes, RestartLimiter.Request(f.arena[k].name, now)).1;
    var g := f.(pendingRestarts := f.pendingRestarts[1..], restartTimes := times);
    DequeueKeeps(f, g);
    StartAfter(f, g, k, w);
  }

  lemma FlagKeeps(f: Forge, g: Forge)
    requires Inv(f) && g == f.(shuttingDown := true)
    ensures Keeps(f, g) && SlotsIndexed(g)
  {
    SlotsCarried(f, g);
    ShapeRefl(f);
    SoundOfShape(f, g);
  }

  lemma ShutDownKeeps(f: Forge, order: seq<UnitKey>, exits: seq<(Pid, ExitStatus)>)
    requires Inv(f) && Continues(f, f) && Live(f.arena, order)
    ensures Inv(Shutdown(f, order, exits)) && Continues(f, Shutdown(f, order, exits))
  {
    if !f.shuttingDown {
      var g := f.(shuttingDown := true);
      FlagKeeps(f, g);
      StopAllKeeps(f, g, order);
      ReapInv(f, StopAll(g, order), exits);
    }
  }

  lemma SocketKeeps(f: Forge, k: UnitKey, listeners: map<UnitKey, seq<SocketEntry>>)
    requires Inv(f) && k < |f.arena|
    ensures Inv(ActivateSocket(f, k, listeners).0) && Continues(f, ActivateSocket(f, k, listeners).0)
  {
    hide ActivateSocket, Sound;
    var g := ActivateSocket(f, k, listeners).0;
    ShapeRefl(f);
    SocketSound(f, f, k, listeners);
    ActivateKeeps(f, k, listeners);
    forall j | 0 <= j < |f.arena| ensures Slot(g.arena[j]) == Slot(f.arena[j]) {
      assert SameUnit(f.arena[j], g.arena[j]);
    }
    SlotsCarried(f, g);
    ShapeContinues(f, g);
  }

  lemma PutSlots(f: Forge, k: UnitKey, u: Unit)
    requires k < |f.arena| && Slot(u) == Slot(f.arena[k])
    ensures forall j | 0 <= j < |f.arena| :: Slot(f.arena[k := u][j]) == Slot(f.arena[j])
  {
  }

  lemma MountSlots(f: Forge, k: UnitKey, works: bool, pid1: bool)
    requires k < |f.arena|
    ensures var g := ActivateMount(f, k, works, pid1).0;
            |g.arena| == |f.arena| && g.pidIndex == f.pidIndex && g.pendingRestarts == f.pendingRestarts
            && forall j | 0 <= j < |f.arena| :: Slot(g.arena[j]) == Slot(f.arena[j])
  {
    if f.arena[k].kind.Mount? {
      hide ActivateMount;
      MountChanges(f, k, works, pid1);
      PutSlots(f, k, MountedUnit(f.arena[k], works, pid1));
    }
  }

  lemma MountKeeps(f: Forge, k: UnitKey, works: bool, pid1: bool)
    requires Inv(f) && k < |f.arena|
    ensures Inv(ActivateMount(f, k, works, pid1).0) && Continues(f, ActivateMount(f, k, works, pid1).0)
  {
    hide ActivateMount, Sound;
    var g := ActivateMount(f, k, works, pid1).0;
    ShapeRefl(f);
    MountSound(f, f, k, works, pid1);
    MountSlots(f, k, works, pid1);
    SlotsCarried(f, g);
    ShapeContinues(f, g);
  }

  lemma FailKeeps(f: Forge, k: UnitKey)
    requires Inv(f) && k < |f.arena|
    ensures Inv(SetState(f, k, Failed)) && Continues(f, SetState(f, k, Failed))
  {
    ShapeRefl(f);
    StateSound(f, f, k, Failed);
    StateSlots(f, k, Failed);
    ShapeContinues(f, SetState(f, k, Failed));
  }

  lemma MarkedInv(f: Forge, k: UnitKey)
    requires Inv(f) && k < |f.arena| && f.arena[k].kind.Device?
    ensures Inv(MarkDevice(f, k)) && Continues(f, MarkDevice(f, k))
    ensures forall name, w | FreshByName(f, name, w) :: FreshByName(MarkDevice(f, k), name, w)
  {
    var g := MarkDevice(f, k);
    MarkKeeps(f, k);
    RedefinedContinues(f, g, k);
    forall j | 0 <= j < |f.arena| ensures Slot(g.arena[j]) == Slot(f.arena[j]) {}
    forall name, w | FreshByName(f, name, w) ensures FreshByName(g, name, w) {
      assert Lookup(g, name) == Lookup(f, name);
    }
  }

  lemma DeviceKeeps(f: Forge, k: UnitKey, w: World)
    requires Inv(f) && Admissible(f, DeviceReady(k, w))
    ensures Inv(ActivateDevice(f, k, w).0) && Continues(f, ActivateDevice(f, k, w).0)
  {
    if f.arena[k].kind.Device? && !f.arena[k].kind.activated {
      var g, name := MarkDevice(f, k), f.arena[k].kind.service;
      MarkedInv(f, k);
      ShapeRefl(g);
      ShapeContinues(g, g);
      StartByNameKeeps(g, name, w);
      ContinuesTrans(f, g, StartByName(g, name, w).0);
    } else {
      ShapeRefl(f);
      ShapeContinues(f, f);
    }
  }

  /** One step keeps the invariant, and takes back no name, definition or claim. */
  lemma StepKeeps(f: Forge, s: Step)
    requires Inv(f) && Admissible(f, s)
    ensures Inv(Apply(f, s)) && Continues(f, Apply(f, s))
  {
    ShapeRefl(f);
    ShapeContinues(f, f);
    match s
    case RegisterUnit(name, kind, virtuals) => RegisterKeeps(f, name, kind, virtuals);
    case Order(unit, first) => OrderKeeps(f, unit, first);
    case Start(name, w) => StartByNameKeeps(f, name, w);
    case BootStart(k, w) => StartAfter(f, f, k, w);
    case BootSocket(k, listeners) => SocketKeeps(f, k, listeners);
    case BootMount(k, works, pid1) => MountKeeps(f, k, works, pid1);
    case BootFail(k) => FailKeeps(f, k);
    case DeviceReady(k, w) => DeviceKeeps(f, k, w);
    case Stop(name) => StopByNameKeeps(f, name);
    case Restart(name, exits, w) => RestartByNameKeeps(f, name, exits, w);
    case Exit(pid, status) => ExitInv(f, pid, status);
    case Drain(now, w) => if f.pendingRestarts != [] { DrainKeeps(f, now, w); }
    case ShutDown(order, exits) => ShutDownKeeps(f, order, exits);
  }

  ghost predicate Possible(f: Forge, steps: seq<Step>)
    decreases |steps|
  {
    steps == [] || (Sound(f) && Admissible(f, steps[0]) && Possible(Apply(f, steps[0]), steps[1..]))
  }

  ghost function Run(f: Forge, steps: seq<Step>): Forge
    requires Possible(f, steps)
    decreases |steps|
  {
    if steps == [] then f else Run(Apply(f, steps[0]), steps[1..])
  }

  lemma RunFirst(f: Forge, s: Step, rest: seq<Step>)
    requires Sound(f) && Admissible(f, s) && Possible(Apply(f, s), rest)
    ensures Possible(f, [s] + rest) && Run(f, [s] + rest) == Run(Apply(f, s), rest)
  {
    hide Sound, Admissible, Apply;
    assert ([s] + rest)[1..] == rest;
  }

  /** Every state of every run satisfies the invariant and extends every earlier one. */
  lemma {:induction false} RunKeeps(f: Forge, steps: seq<Step>)
    requires Inv(f) && Possible(f, steps)
    ensures Inv(Run(f, steps)) && Continues(f, Run(f, steps))
    decreases |steps|
  {
    if steps == [] {
      ShapeRefl(f);
      ShapeContinues(f, f);
    } else {
      var f1 := Apply(f, steps[0]);
      StepKeeps(f, steps[0]);
      RunKeeps(f1, steps[1..]);
      ContinuesTrans(f, f1, Run(f1, steps[1..]));
    }
  }

  /** From the empty scheduler on: names stay a bijection, keys live, and recorded pids indexed. */
  lemma RunFromStart(steps: seq<Step>)
    requires Possible(EMPTY, steps)
    ensures Inv(Run(EMPTY, steps))
  {
    RunKeeps(EMPTY, steps);
  }

  /** A pid already indexed nowhere is fresh. */
  lemma UnindexedIsFresh(f: Forge, k: UnitKey, w: World)
    requires SlotsIndexed(f)
    requires w.spawned.Some? ==> w.spawned.value !in f.pidIndex
    requires w.daemon.Some? ==> w.daemon.value !in f.pidIndex
    ensures Fresh(f, k, w)
  {
    forall j | 0 <= j < |f.arena| && j != k && Slot(f.arena[j]).Some?
      ensures Slot(f.arena[j]) != w.spawned && Slot(f.arena[j]) != w.daemon
    {
      assert SlotIndexed(f, j);
    }
  }

  lemma ContinuedBounded(f: Forge, g: Forge)
    requires IndexBounded(f) && Continues(f, g)
    ensures IndexBounded(g) && CountsDown(g)
  {
    forall d: UnitKey, k: UnitKey ensures Indexed(g, d, k) <= Entries(g, k, d) {
      assert Indexed(f, d, k) <= Entries(f, k, d);
    }
  }

  /** An index that counts no more than the lists stays so in every run: a schedule never counts below zero. */
  lemma RunCountsDown(f: Forge, steps: seq<Step>)
    requires Inv(f) && IndexBounded(f) && Possible(f, steps)
    ensures IndexBounded(Run(f, steps)) && CountsDown(Run(f, steps)) && !Underflow(Run(f, steps))
  {
    RunKeeps(f, steps);
    ContinuedBounded(f, Run(f, steps));
    CountedExact(Run(f, steps), []);
  }

  /** What is mounted or activated as a device stays so in every run, and is never mounted or activated again. */
  lemma SettledOnce(f: Forge, steps: seq<Step>, k: UnitKey, works: bool, pid1: bool, w: World)
    requires Inv(f) && Possible(f, steps) && k < |f.arena| && f.arena[k].kind.Settled()
    ensures k < |Run(f, steps).arena| && Run(f, steps).arena[k].kind.Settled()
    ensures ActivateMount(Run(f, steps), k, works, pid1) == (Run(f, steps), Ok(()))
    ensures Inv(Run(f, steps)) && ActivateDevice(Run(f, steps), k, w) == (Run(f, steps), Ok(()))
  {
    RunKeeps(f, steps);
    assert SameDefinition(f.arena[k], Run(f, steps).arena[k]);
  }

  // ---- Repeated exit reports --------------------------------------------------------------------------------

  /** The pid is one that a start in this step spawns or finds. */
  predicate Brings(s: Step, pid: Pid) {
    match s
    case Start(_, w) => BringsPid(w, pid)
    case BootStart(_, w) => BringsPid(w, pid)
    case DeviceReady(_, w) => BringsPid(w, pid)
    case Restart(_, _, w) => BringsPid(w, pid)
    case Drain(_, w) => BringsPid(w, pid)
    case _ => false
  }

  predicate BringsPid(w: World, pid: Pid) {
    w.spawned == Some(pid) || w.daemon == Some(pid)
  }

  lemma {:induction false} ReapIndex(f: Forge, exits: seq<(Pid, ExitStatus)>)
    ensures forall p | p in Reap(f, exits).pidIndex :: p in f.pidIndex
    decreases |exits|
  {
    if exits == [] {
    } else {
      ReapIndex(f, exits[..|exits| - 1]);
    }
  }

  lemma {:induction false} StopAllIndex(f: Forge, order: seq<UnitKey>)
    requires Live(f.arena, order)
    ensures StopAll(f, order).pidIndex == f.pidIndex
    decreases |order|
  {
    if order == [] {
    } else {
      StopAllIndex(f, order[..|order| - 1]);
    }
  }

  lemma LaunchedIndex(f: Forge, k: UnitKey, child: Pid, w: World, pid: Pid)
    requires k < |f.arena| && f.arena[k].kind.Service? && w.spawned == Some(child)
    requires pid !in f.pidIndex && !BringsPid(w, pid)
    ensures pid !in Launched(f, k, child, w).0.pidIndex
  {
    LaunchedCases(f, k, child, w);
    ReapIndex(f, w.reaped);
  }

  /** A start indexes no other pid than those it spawns or finds. */
  lemma StartIndex(f: Forge, k: UnitKey, w: World, pid: Pid)
    requires k < |f.arena| && pid !in f.pidIndex && !BringsPid(w, pid)
    ensures pid !in StartService(f, k, w).0.pidIndex
  {
    if f.arena[k].kind.Service? {
      StartCases(f, k, w);
      BeforeLaunchSlots(f, k, w);
      var g := BeforeLaunch(f, k, w);
      if w.spawned.Some? {
        LaunchedIndex(SetSlot(g, k, w.spawned), k, w.spawned.value, w, pid);
      }
    }
  }

  lemma RestartIndex(f: Forge, name: string, exits: seq<(Pid, ExitStatus)>, w: World, pid: Pid)
    requires Sound(f) && pid !in f.pidIndex && !BringsPid(w, pid)
    ensures pid !in RestartByName(f, name, exits, w).0.pidIndex
  {
    hide StartService, Reap;
    if Lookup(f, name).Some? {
      var k := Lookup(f, name).value;
      var g := StopService(f, k).0;
      ReapKeeps(g, exits);
      ReapIndex(g, exits);
      StartIndex(if Slot(f.arena[k]).Some? then Reap(g, exits) else f, k, w, pid);
    }
  }

  lemma ShutDownIndex(f: Forge, order: seq<UnitKey>, exits: seq<(Pid, ExitStatus)>, pid: Pid)
    requires Live(f.arena, order) && pid !in f.pidIndex
    ensures pid !in Shutdown(f, order, exits).pidIndex
  {
    if !f.shuttingDown {
      StopAllIndex(f.(shuttingDown := true), order);
      ReapIndex(StopAll(f.(shuttingDown := true), order), exits);
    }
  }

  lemma StartByNameIndex(f: Forge, name: string, w: World, pid: Pid)
    requires Sound(f) && pid !in f.pidIndex && !BringsPid(w, pid)
    ensures pid !in StartByName(f, name, w).0.pidIndex
  {
    if Lookup(f, name).Some? {
      var k := Lookup(f, name).value;
      StartIndex(f.(activeUnits := f.activeUnits + {k}), k, w, pid);
    }
  }

  lemma DeviceIndex(f: Forge, k: UnitKey, w: World, pid: Pid)
    requires Sound(f) && k < |f.arena| && pid !in f.pidIndex && !BringsPid(w, pid)
    ensures pid !in ActivateDevice(f, k, w).0.pidIndex
  {
    if f.arena[k].kind.Device? && !f.arena[k].kind.activated {
      MarkKeeps(f, k);
      StartByNameIndex(MarkDevice(f, k), f.arena[k].kind.service, w, pid);
    }
  }

  lemma DrainIndex(f: Forge, now: Time, w: World, pid: Pid)
    requires Sound(f) && f.pendingRestarts != [] && pid !in f.pidIndex && !BringsPid(w, pid)
    ensures pid !in RestartNext(f, now, w).pidIndex
  {
    var k := f.pendingRestarts[0];
    var times := RestartLimiter.Decide(f.restartTimes, RestartLimiter.Request(f.arena[k].name, now)).1;
    StartIndex(f.(pendingRestarts := f.pendingRestarts[1..], restartTimes := times), k, w, pid);
  }

  lemma RegisterIndex(f: Forge, name: string, kind: Kind, virtuals: seq<string>)
    ensures Register(f, name, kind, virtuals).0.pidIndex == f.pidIndex
  {
  }

  lemma OrderIndex(f: Forge, unit: string, first: string)
    ensures PrependOrdering(f, unit, first).0.pidIndex == f.pidIndex
  {
  }

  lemma StopIndex(f: Forge, name: string)
    requires Sound(f)
    ensures StopByName(f, name).0.pidIndex == f.pidIndex
  {
  }

  lemma StepIndex(f: Forge, s: Step, pid: Pid)
    requires Sound(f) && Admissible(f, s) && pid !in f.pidIndex && !Brings(s, pid)
    ensures pid !in Apply(f, s).pidIndex
  {
    hide Sound, StartByName, StartService, RestartByName, RestartNext, Shutdown, ActivateDevice, Register, StopByName;
    hide PrependOrdering, ActivateSocket, ActivateMount;
    match s
    case RegisterUnit(name, kind, virtuals) => RegisterIndex(f, name, kind, virtuals);
    case Order(unit, first) => OrderIndex(f, unit, first);
    case Stop(name) => StopIndex(f, name);
    case BootSocket(k, listeners) => ActivateKeeps(f, k, listeners);
    case BootMount(k, works, pid1) => MountSlots(f, k, works, pid1);
    case Start(name, w) => StartByNameIndex(f, name, w, pid);
    case BootStart(k, w) => StartIndex(f, k, w, pid);
    case Restart(name, exits, w) => RestartIndex(f, name, exits, w, pid);
    case Drain(now, w) => if f.pendingRestarts != [] { DrainIndex(f, now, w, pid); }
    case DeviceReady(k, w) => DeviceIndex(f, k, w, pid);
    case ShutDown(order, exits) => ShutDownIndex(f, order, exits, pid);
    case _ =>
  }

  lemma {:induction false} RunIndex(f: Forge, steps: seq<Step>, pid: Pid)
    requires Possible(f, steps) && pid !in f.pidIndex && forall i | 0 <= i < |steps| :: !Brings(steps[i], pid)
    ensures pid !in Run(f, steps).pidIndex
    decreases |steps|
  {
    if steps == [] {
    } else {
      StepIndex(f, steps[0], pid);
      RunIndex(Apply(f, steps[0]), steps[1..], pid);
    }
  }

  /**
    After an exit report, whatever else happens, a second report for the same pid finds nothing and changes nothing,
    until a start spawns or finds that pid again.
   */
  lemma SecondExitIgnored(f: Forge, pid: Pid, first: ExitStatus, steps: seq<Step>, second: ExitStatus)
    requires Sound(f) && Possible(OnChildExit(f, pid, first).0, steps)
    requires forall i | 0 <= i < |steps| :: !Brings(steps[i], pid)
    ensures var g := Run(OnChildExit(f, pid, first).0, steps); OnChildExit(g, pid, second) == (g, false)
  {
    RunIndex(OnChildExit(f, pid, first).0, steps, pid);
  }

  /**
    The freshness condition is needed: a forking service whose process search finds a pid that another service
    records takes that pid's index entry away, and the other service's exit will be reported for the wrong unit.
   */
  lemma SharedDaemonBreaksIndex(f: Forge, k: UnitKey, j: UnitKey, w: World)
    requires SlotsIndexed(f) && k < |f.arena| && j < |f.arena| && j != k
    requires f.arena[k].kind.Service? && f.arena[k].kind.serviceType.Forking? && f.arena[k].kind.sockets == []
    requires f.arena[k].name != "forge-early" && !w.adopted && w.prepared && w.ready
    requires w.spawned.Some? && w.reaped == [] && w.waited == Some(Exited(0))
    requires w.daemon.Some? && Slot(f.arena[j]) == w.daemon
    ensures !SlotsIndexed(StartService(f, k, w).0)
  {
    var f1 := SetState(f, k, Starting);
    var f2 := SetSlot(f1, k, w.spawned);
    assert CollectSockets(f1, [], w.sockets).0 == f1;
    assert StartService(f, k, w).0 == Record(f2, k, w.daemon.value);
    forall i | 0 <= i < |f2.arena| && i !in {k} ensures SlotIndexed(f2, i) {
      assert SlotIndexed(f, i);
    }
    assert Slot(f2.arena[j]) == w.daemon;
    RecordSlots(f2, k, w.daemon.value);
  }

  // ---- The restart queue ------------------------------------------------------------------------------------

  predicate Restartable(kind: Kind) {
    kind.Service? && !kind.restart.No?
  }

  /** Only services whose policy allows it wait for a restart. */
  ghost predicate QueueRestartable(f: Forge) {
    forall i | 0 <= i < |f.pendingRestarts| ::
      f.pendingRestarts[i] < |f.arena| && Restartable(f.arena[f.pendingRestarts[i]].kind)
  }

  /** Exactly which exits queue a restart, and that they queue one. */
  lemma ExitQueuesExactly(f: Forge, pid: Pid, status: ExitStatus)
    requires Sound(f) && pid in f.pidIndex
    ensures var g, k := OnChildExit(f, pid, status).0, f.pidIndex[pid];
            var failed := status.Signaled? || (status.Exited? && status.code != 0);
            g.pendingRestarts == f.pendingRestarts +
              (if !f.shuttingDown && Restartable(f.arena[k].kind) && (failed || f.arena[k].kind.restart.Always?)
               then [k] else [])
  {
  }

  /** Once shutdown has begun no exit queues a restart. */
  lemma {:induction false} ShutdownQueuesNothing(f: Forge, exits: seq<(Pid, ExitStatus)>)
    requires f.shuttingDown
    ensures Reap(f, exits).pendingRestarts == f.pendingRestarts && Reap(f, exits).shuttingDown
    decreases |exits|
  {
    if exits == [] {
    } else {
      ShutdownQueuesNothing(f, exits[..|exits| - 1]);
    }
  }

  /** Dropping queue entries, or changing anything but the definitions, keeps the queue restartable. */
  lemma QueueCarried(f: Forge, g: Forge, n: nat)
    requires QueueRestartable(f) && Extends(f, g)
    requires n <= |f.pendingRestarts| && g.pendingRestarts == f.pendingRestarts[n..]
    ensures QueueRestartable(g)
  {
    forall i | 0 <= i < |g.pendingRestarts|
      ensures g.pendingRestarts[i] < |g.arena| && Restartable(g.arena[g.pendingRestarts[i]].kind)
    {
      var k := f.pendingRestarts[n + i];
      assert SameDefinition(f.arena[k], g.arena[k]);
      PolicyStays(f.arena[k], g.arena[k]);
    }
  }

  lemma PolicyStays(u: Unit, v: Unit)
    requires SameDefinition(u, v)
    ensures Restartable(u.kind) == Restartable(v.kind)
  {
  }

  lemma ExitQueue(f: Forge, pid: Pid, status: ExitStatus)
    requires QueueRestartable(f)
    ensures QueueRestartable(OnChildExit(f, pid, status).0)
  {
    var g := OnChildExit(f, pid, status).0;
    ExitKeeps(f, pid, status);
    ShapeExtends(f, g);
    QueueCarried(f, g.(pendingRestarts := f.pendingRestarts), 0);
    if g.pendingRestarts != f.pendingRestarts {
      var k := f.pidIndex[pid];
      assert Restartable(f.arena[k].kind);
      PolicyStays(f.arena[k], g.arena[k]);
    }
  }

  lemma {:induction false} ReapQueue(f: Forge, exits: seq<(Pid, ExitStatus)>)
    requires QueueRestartable(f)
    ensures QueueRestartable(Reap(f, exits))
    decreases |exits|
  {
    if exits == [] {
    } else {
      var n := |exits| - 1;
      ReapQueue(f, exits[..n]);
      ExitQueue(Reap(f, exits[..n]), exits[n].0, exits[n].1);
    }
  }

  lemma SlotQueue(f: Forge, k: UnitKey, pid: Option<Pid>, s: UnitState)
    requires QueueRestartable(f) && k < |f.arena|
    ensures QueueRestartable(SetSlot(f, k, pid)) && QueueRestartable(SetState(f, k, s))
    ensures QueueRestartable(SetState(SetSlot(f, k, pid), k, s))
  {
    var g := SetSlot(f, k, pid);
    SlotKeeps(f, k, pid);
    StateKeeps(f, k, s);
    StateKeeps(g, k, s);
    ShapeTrans(f, g, SetState(g, k, s));
    ShapeExtends(f, g);
    ShapeExtends(f, SetState(f, k, s));
    ShapeExtends(f, SetState(g, k, s));
    QueueCarried(f, g, 0);
    QueueCarried(f, SetState(f, k, s), 0);
    QueueCarried(f, SetState(g, k, s), 0);
  }

  lemma LaunchedQueue(f: Forge, k: UnitKey, pid: Pid, w: World)
    requires QueueRestartable(f) && k < |f.arena| && f.arena[k].kind.Service?
    ensures QueueRestartable(Launched(f, k, pid, w).0)
  {
    LaunchedCases(f, k, pid, w);
    ReapQueue(f, w.reaped);
    var h := LaunchedFrom(f, k, w);
    SlotQueue(h, k, None, LaunchedState(w));
    SlotQueue(h, k, Some(pid), Running);
    if w.daemon.Some? { SlotQueue(h, k, w.daemon, Running); }
  }

  lemma StartQueue(f: Forge, k: UnitKey, w: World)
    requires QueueRestartable(f) && k < |f.arena|
    ensures QueueRestartable(StartService(f, k, w).0)
  {
    var g := StartService(f, k, w).0;
    if f.arena[k].kind.Service? {
      StartCases(f, k, w);
      var f1, f2 := SetState(f, k, Starting), BeforeLaunch(f, k, w);
      SlotQueue(f, k, None, Starting);
      CollectKeeps(f1, f.arena[k].kind.sockets, w.sockets);
      ShapeExtends(f1, f2);
      QueueCarried(f1, f2, 0);
      if s :| g == SetState(f1, k, s) {
        SlotQueue(f1, k, None, s);
      } else if g != f2 {
        SlotQueue(f2, k, w.spawned, Starting);
        LaunchedQueue(SetSlot(f2, k, w.spawned), k, w.spawned.value, w);
      }
    }
  }

  lemma {:induction false} StopAllQueue(f: Forge, order: seq<UnitKey>)
    requires QueueRestartable(f) && Live(f.arena, order)
    ensures QueueRestartable(StopAll(f, order))
    decreases |order|
  {
    if order == [] {
    } else {
      var n := |order| - 1;
      StopAllQueue(f, order[..n]);
      SlotQueue(StopAll(f, order[..n]), order[n], None, Stopping);
    }
  }

  lemma RestartByNameQueue(f: Forge, name: string, exits: seq<(Pid, ExitStatus)>, w: World)
    requires Sound(f) && QueueRestartable(f)
    ensures QueueRestartable(RestartByName(f, name, exits, w).0)
  {
    if Lookup(f, name).Some? {
      var k := Lookup(f, name).value;
      var f1 := StopService(f, k).0;
      SlotQueue(f, k, None, Stopping);
      ReapQueue(f1, exits);
      ReapKeeps(f1, exits);
      StartQueue(if Slot(f.arena[k]).Some? then Reap(f1, exits) else f, k, w);
    }
  }

  lemma DrainQueue(f: Forge, now: Time, w: World)
    requires Sound(f) && QueueRestartable(f)
    ensures QueueRestartable(if f.pendingRestarts == [] then f else RestartNext(f, now, w))
  {
    if f.pendingRestarts != [] {
      var k := f.pendingRestarts[0];
      var times := RestartLimiter.Decide(f.restartTimes, RestartLimiter.Request(f.arena[k].name, now)).1;
      var f1 := f.(pendingRestarts := f.pendingRestarts[1..], restartTimes := times);
      assert QueueRestartable(f1);
      StartQueue(f1, k, w);
    }
  }

  lemma ShutDownQueue(f: Forge, order: seq<UnitKey>, exits: seq<(Pid, ExitStatus)>)
    requires QueueRestartable(f) && Live(f.arena, order)
    ensures QueueRestartable(Shutdown(f, order, exits))
  {
    if !f.shuttingDown {
      var f1 := f.(shuttingDown := true);
      assert QueueRestartable(f1);
      StopAllQueue(f1, order);
      ReapQueue(StopAll(f1, order), exits);
    }
  }

  lemma StartByNameQueue(f: Forge, name: string, w: World)
    requires Sound(f) && QueueRestartable(f)
    ensures QueueRestartable(StartByName(f, name, w).0)
  {
    if Lookup(f, name).Some? {
      var k := Lookup(f, name).value;
      var g := f.(activeUnits := f.activeUnits + {k});
      assert QueueRestartable(g);
      StartQueue(g, k, w);
    }
  }

  lemma SocketQueue(f: Forge, k: UnitKey, listeners: map<UnitKey, seq<SocketEntry>>)
    requires QueueRestartable(f) && k < |f.arena|
    ensures QueueRestartable(ActivateSocket(f, k, listeners).0)
  {
    ActivateKeeps(f, k, listeners);
    ShapeExtends(f, ActivateSocket(f, k, listeners).0);
    QueueCarried(f, ActivateSocket(f, k, listeners).0, 0);
  }

  lemma MountQueue(f: Forge, k: UnitKey, works: bool, pid1: bool)
    requires Sound(f) && QueueRestartable(f) && k < |f.arena|
    ensures QueueRestartable(ActivateMount(f, k, works, pid1).0)
  {
    hide ActivateMount, Sound;
    ShapeRefl(f);
    MountSlots(f, k, works, pid1);
    MountSound(f, f, k, works, pid1);
    ShapeExtends(f, ActivateMount(f, k, works, pid1).0);
    QueueCarried(f, ActivateMount(f, k, works, pid1).0, 0);
  }

  lemma DeviceQueue(f: Forge, k: UnitKey, w: World)
    requires Sound(f) && QueueRestartable(f) && k < |f.arena|
    ensures QueueRestartable(ActivateDevice(f, k, w).0)
  {
    if f.arena[k].kind.Device? && !f.arena[k].kind.activated {
      MarkKeeps(f, k);
      RedefinedContinues(f, MarkDevice(f, k), k);
      QueueCarried(f, MarkDevice(f, k), 0);
      StartByNameQueue(MarkDevice(f, k), f.arena[k].kind.service, w);
    }
  }

  lemma StopByNameQueue(f: Forge, name: string)
    requires Sound(f) && QueueRestartable(f)
    ensures QueueRestartable(StopByName(f, name).0)
  {
    if Lookup(f, name).Some? {
      SlotQueue(f, Lookup(f, name).value, None, Stopping);
    }
  }

  lemma RegisterQueue(f: Forge, name: string, kind: Kind, virtuals: seq<string>)
    requires Sound(f) && QueueRestartable(f)
    ensures QueueRestartable(Register(f, name, kind, virtuals).0)
  {
    RegisterKeeps(f, name, kind, virtuals);
    QueueCarried(f, Register(f, name, kind, virtuals).0, 0);
  }

  lemma OrderQueue(f: Forge, unit: string, first: string)
    requires Sound(f) && QueueRestartable(f)
    ensures QueueRestartable(PrependOrdering(f, unit, first).0)
  {
    OrderKeeps(f, unit, first);
    QueueCarried(f, PrependOrdering(f, unit, first).0, 0);
  }

  /** One step queues no service whose policy is `no`. */
  lemma StepQueue(f: Forge, s: Step)
    requires Sound(f) && Admissible(f, s) && QueueRestartable(f)
    ensures QueueRestartable(Apply(f, s))
  {
    match s
    case RegisterUnit(name, kind, virtuals) => RegisterQueue(f, name, kind, virtuals);
    case Order(unit, first) => OrderQueue(f, unit, first);
    case Start(name, w) => StartByNameQueue(f, name, w);
    case BootStart(k, w) => StartQueue(f, k, w);
    case BootSocket(k, listeners) => SocketQueue(f, k, listeners);
    case BootMount(k, works, pid1) => MountQueue(f, k, works, pid1);
    case BootFail(k) => SlotQueue(f, k, None, Failed);
    case DeviceReady(k, w) => DeviceQueue(f, k, w);
    case Stop(name) => StopByNameQueue(f, name);
    case Restart(name, exits, w) => RestartByNameQueue(f, name, exits, w);
    case Exit(pid, status) => ExitQueue(f, pid, status);
    case Drain(now, w) => DrainQueue(f, now, w);
    case ShutDown(order, exits) => ShutDownQueue(f, order, exits);
  }

  /** In no run does a service whose policy is `no` ever wait for a restart. */
  lemma {:induction false} RunQueue(f: Forge, steps: seq<Step>)
    requires QueueRestartable(f) && Possible(f, steps)
    ensures QueueRestartable(Run(f, steps))
    decreases |steps|
  {
    if steps == [] {
    } else {
      StepQueue(f, steps[0]);
      RunQueue(Apply(f, steps[0]), steps[1..]);
    }
  }
}
