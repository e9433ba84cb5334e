/** When recorded pids and the pid index are inverse to each other, and what an exit report then does to other slots. */
module PidIndex {
  import opened Units
  import opened Names
  import opened ForgeModel
  import opened Supervision
  import opened Keeping
  import opened Devices
  import opened Runs
  import RestartLimiter

  /** The unit that a pid is indexed to records that pid. */
  ghost predicate Slotted(f: Forge, p: Pid)
    requires p in f.pidIndex
  {
    f.pidIndex[p] < |f.arena| && Slot(f.arena[f.pidIndex[p]]) == Some(p)
  }

  ghost predicate AllSlotted(f: Forge) {
    forall p | p in f.pidIndex :: Slotted(f, p)
  }

  /** Recorded pids and the index are inverse to each other. */
  ghost predicate Inverse(f: Forge) {
    SlotsIndexed(f) && AllSlotted(f)
  }

  /** While unit k is being started its slot is provisional, and no pid is indexed to it. */
  ghost predicate SlottedBut(f: Forge, k: UnitKey) {
    forall p | p in f.pidIndex :: Slotted(f, p) && f.pidIndex[p] != k
  }

  // ---- One exit ---------------------------------------------------------------------------------------------

  /** Every slot that holds another pid than the one reported is as before. */
  ghost predicate OthersStay(f: Forge, g: Forge, pid: Pid) {
    |g.arena| == |f.arena| && forall j | 0 <= j < |f.arena| :: OtherStays(f.arena[j], g.arena[j], pid)
  }

  ghost predicate OtherStays(u: Unit, v: Unit, pid: Pid) {
    Slot(u).Some? && Slot(u) != Some(pid) ==> Slot(v) == Slot(u)
  }

  /**
    The exit handler clears the slot of the unit it finds without a look at the pid in it: it leaves the slots of all
    other pids alone exactly if that slot is empty or holds the pid that was reported.
   */
  lemma ExitSlotExact(f: Forge, pid: Pid, status: ExitStatus)
    requires Sound(f) && pid in f.pidIndex
    ensures OthersStay(f, OnChildExit(f, pid, status).0, pid) <==> Slot(f.arena[f.pidIndex[pid]]) in {None, Some(pid)}
  {
    var g, k := OnChildExit(f, pid, status).0, f.pidIndex[pid];
    assert Slot(g.arena[k]) == None;
    forall j | 0 <= j < |f.arena| && j != k ensures OtherStays(f.arena[j], g.arena[j], pid) {
      assert g.arena[j] == f.arena[j];
    }
    assert OtherStays(f.arena[k], g.arena[k], pid) <==> Slot(f.arena[k]) in {None, Some(pid)};
  }

  /** If index and slots are inverse, no exit report touches the slot of another pid. */
  lemma ExitSparesOthers(f: Forge, pid: Pid, status: ExitStatus)
    requires Sound(f) && AllSlotted(f)
    ensures OthersStay(f, OnChildExit(f, pid, status).0, pid)
  {
    if pid in f.pidIndex {
      assert Slotted(f, pid);
      ExitSlotExact(f, pid, status);
    }
  }

  /** g is f without the pid in the index, and without the slot of the unit it was indexed to. */
  ghost predicate Removed(f: Forge, g: Forge, pid: Pid)
    requires pid in f.pidIndex
  {
    && |g.arena| == |f.arena| && g.pidIndex == f.pidIndex - {pid}
    && forall j | 0 <= j < |f.arena| :: Slot(g.arena[j]) == if j == f.pidIndex[pid] then None else Slot(f.arena[j])
  }

  lemma ExitRemoves(f: Forge, pid: Pid, status: ExitStatus)
    requires pid in f.pidIndex && f.pidIndex[pid] < |f.arena|
    ensures Removed(f, OnChildExit(f, pid, status).0, pid)
  {
    var k := f.pidIndex[pid];
    assert Slot(ExitedUnit(f.arena[k], status)) == None;
  }

  lemma RemovedSlotted(f: Forge, g: Forge, pid: Pid)
    requires AllSlotted(f) && pid in f.pidIndex && Removed(f, g, pid)
    ensures AllSlotted(g) && forall k | SlottedBut(f, k) :: SlottedBut(g, k)
  {
    assert Slotted(f, pid);
    forall p | p in g.pidIndex ensures Slotted(g, p) {
      assert Slotted(f, p);
    }
  }

  lemma ExitSlotted(f: Forge, pid: Pid, status: ExitStatus)
    requires AllSlotted(f)
    ensures AllSlotted(OnChildExit(f, pid, status).0)
    ensures forall k | SlottedBut(f, k) :: SlottedBut(OnChildExit(f, pid, status).0, k)
  {
    if pid in f.pidIndex {
      assert Slotted(f, pid);
      ExitRemoves(f, pid, status);
      hide OnChildExit;
      RemovedSlotted(f, OnChildExit(f, pid, status).0, pid);
    }
  }

  lemma {:induction false} ReapSlotted(f: Forge, exits: seq<(Pid, ExitStatus)>)
    requires AllSlotted(f)
    ensures AllSlotted(Reap(f, exits))
    ensures forall k | SlottedBut(f, k) :: SlottedBut(Reap(f, exits), k)
    decreases |exits|
  {
    if exits == [] {
    } else {
      var n := |exits| - 1;
      ReapSlotted(f, exits[..n]);
      ExitSlotted(Reap(f, exits[..n]), exits[n].0, exits[n].1);
    }
  }

  // ---- One record -------------------------------------------------------------------------------------------

  /** Recording a fresh pid keeps index and slots inverse exactly if the unit recorded no other pid before. */
  lemma RecordInverse(f: Forge, k: UnitKey, pid: Pid)
    requires Inverse(f) && k < |f.arena| && f.arena[k].kind.Service?
    requires forall j | 0 <= j < |f.arena| && j != k :: Slot(f.arena[j]) != Some(pid)
    ensures Inverse(Record(f, k, pid)) <==> Slot(f.arena[k]) in {None, Some(pid)}
  {
    var g := Record(f, k, pid);
    RecordSlots(f, k, pid);
    assert Slot(g.arena[k]) == Some(pid);
    forall p | p in g.pidIndex
      ensures Slotted(g, p) <==> p == pid || f.pidIndex[p] != k
    {
      if p != pid { assert Slotted(f, p); }
    }
    if Slot(f.arena[k]).Some? && Slot(f.arena[k]) != Some(pid) {
      assert SlotIndexed(f, k);
      assert !Slotted(g, Slot(f.arena[k]).value);
    }
    if Slot(f.arena[k]) in {None, Some(pid)} {
      forall p | p in g.pidIndex ensures Slotted(g, p) {
        if p != pid { assert Slotted(f, p); }
      }
    }
  }

  lemma RecordSlotted(f: Forge, k: UnitKey, pid: Pid)
    requires SlottedBut(f, k) && k < |f.arena| && f.arena[k].kind.Service?
    ensures AllSlotted(Record(f, k, pid))
  {
    var g := Record(f, k, pid);
    forall p | p in g.pidIndex ensures Slotted(g, p) {
      if p != pid { assert Slotted(f, p); }
    }
  }

  // ---- One start --------------------------------------------------------------------------------------------

  lemma SlottedCarried(f: Forge, g: Forge)
    requires AllSlotted(f) && |f.arena| <= |g.arena| && g.pidIndex == f.pidIndex
    requires forall j | 0 <= j < |f.arena| :: Slot(g.arena[j]) == Slot(f.arena[j])
    ensures AllSlotted(g) && forall k | SlottedBut(f, k) :: SlottedBut(g, k)
  {
    forall p | p in g.pidIndex ensures Slotted(g, p) {
      assert Slotted(f, p);
    }
  }

  lemma ClearSlotted(f: Forge, k: UnitKey, pid: Option<Pid>)
    requires SlottedBut(f, k) && k < |f.arena|
    ensures AllSlotted(SetSlot(f, k, pid)) && SlottedBut(SetSlot(f, k, pid), k)
  {
    var g := SetSlot(f, k, pid);
    forall p | p in g.pidIndex ensures Slotted(g, p) && g.pidIndex[p] != k {
      assert Slotted(f, p);
    }
  }

  lemma StateSlotted(f: Forge, k: UnitKey, s: UnitState)
    requires AllSlotted(f) && k < |f.arena|
    ensures AllSlotted(SetState(f, k, s)) && forall j | SlottedBut(f, j) :: SlottedBut(SetState(f, k, s), j)
  {
    PutSlots(f, k, f.arena[k].(state := s));
    SlottedCarried(f, SetState(f, k, s));
  }

  lemma LaunchedSlotted(f: Forge, k: UnitKey, pid: Pid, w: World)
    requires k < |f.arena| && f.arena[k].kind.Service? && SlottedBut(f, k)
    ensures AllSlotted(Launched(f, k, pid, w).0)
  {
    hide Launched;
    LaunchedCases(f, k, pid, w);
    var h := LaunchedFrom(f, k, w);
    ReapSlotted(f, w.reaped);
    ReapKindKept(f, w.reaped, k);
    ClearSlotted(h, k, None);
    StateSlotted(SetSlot(h, k, None), k, LaunchedState(w));
    RecordSlotted(h, k, pid);
    if w.daemon.Some? {
      RecordSlotted(h, k, w.daemon.value);
    }
  }

  lemma NoneIndexedTo(f: Forge, k: UnitKey)
    requires AllSlotted(f) && k < |f.arena| && Slot(f.arena[k]) == None
    ensures SlottedBut(f, k)
  {
    forall p | p in f.pidIndex ensures Slotted(f, p) && f.pidIndex[p] != k {
      assert Slotted(f, p);
    }
  }

  /** Starting a service that records no pid keeps every indexed pid recorded where it is indexed, in any outcome. */
  lemma StartSlotted(f: Forge, k: UnitKey, w: World)
    requires AllSlotted(f) && k < |f.arena| && Slot(f.arena[k]) == None
    ensures AllSlotted(StartService(f, k, w).0)
  {
    hide StartService, Launched;
    var g := StartService(f, k, w).0;
    NoneIndexedTo(f, k);
    if f.arena[k].kind.Service? {
      StartCases(f, k, w);
      BeforeLaunchSlots(f, k, w);
      var f1, f2 := SetState(f, k, Starting), BeforeLaunch(f, k, w);
      StateSlotted(f, k, Starting);
      SlottedCarried(f, f2);
      if s :| g == SetState(f1, k, s) {
        StateSlotted(f1, k, s);
      } else if g != f2 {
        ClearSlotted(f2, k, w.spawned);
        LaunchedSlotted(SetSlot(f2, k, w.spawned), k, w.spawned.value, w);
      }
    } else {
      OtherStart(f, k, w);
    }
  }

  lemma OtherStart(f: Forge, k: UnitKey, w: World)
    requires k < |f.arena| && !f.arena[k].kind.Service?
    ensures StartService(f, k, w).0 == f
  {
  }

  // ---- Runs -------------------------------------------------------------------------------------------------

  /** The named service, if there is one, records no pid. */
  ghost predicate IdleName(f: Forge, name: string) {
    Lookup(f, name).Some? ==> Idle(f, Lookup(f, name).value)
  }

  ghost predicate Idle(f: Forge, k: UnitKey) {
    k < |f.arena| ==> Slot(f.arena[k]) == None
  }

  /** The service that a step starts, if any, records no pid when the start begins. */
  ghost predicate StartsIdle(f: Forge, s: Step)
    requires Sound(f) && Admissible(f, s)
  {
    match s
    case Start(name, _) => IdleName(f, name)
    case BootStart(k, _) => Idle(f, k)
    case Restart(name, exits, _) =>
      Lookup(f, name).Some? ==> Idle(Stopped(f, Lookup(f, name).value, exits), Lookup(f, name).value)
    case Drain(now, _) => f.pendingRestarts != [] ==> Idle(f, f.pendingRestarts[0])
    case DeviceReady(k, _) => f.arena[k].kind.Device? ==> IdleName(f, f.arena[k].kind.service)
    case _ => true
  }

  /** The state in which a restart begins its start. */
  ghost function Stopped(f: Forge, k: UnitKey, exits: seq<(Pid, ExitStatus)>): Forge
    requires k < |f.arena|
  {
    if Slot(f.arena[k]).Some? then Reap(StopService(f, k).0, exits) else f
  }

  lemma StopSlotted(f: Forge, k: UnitKey)
    requires AllSlotted(f) && k < |f.arena|
    ensures AllSlotted(StopService(f, k).0)
  {
    StateSlotted(f, k, Stopping);
  }

  lemma {:induction false} StopAllSlotted(f: Forge, order: seq<UnitKey>)
    requires AllSlotted(f) && Live(f.arena, order)
    ensures AllSlotted(StopAll(f, order))
    decreases |order|
  {
    if order == [] {
    } else {
      var n := |order| - 1;
      StopAllSlotted(f, order[..n]);
      StopSlotted(StopAll(f, order[..n]), order[n]);
    }
  }

  lemma StartByNameSlotted(f: Forge, name: string, w: World)
    requires Sound(f) && AllSlotted(f) && IdleName(f, name)
    ensures AllSlotted(StartByName(f, name, w).0)
  {
    hide StartService;
    if Lookup(f, name).Some? {
      var k := Lookup(f, name).value;
      var g := f.(activeUnits := f.activeUnits + {k});
      SlottedCarried(f, g);
      StartSlotted(g, k, w);
    }
  }

  lemma RestartSlotted(f: Forge, name: string, exits: seq<(Pid, ExitStatus)>, w: World)
    requires Sound(f) && AllSlotted(f) && Admissible(f, Restart(name, exits, w))
    requires StartsIdle(f, Restart(name, exits, w))
    ensures AllSlotted(RestartByName(f, name, exits, w).0)
  {
    hide StartService, Reap, StopService;
    if Lookup(f, name).Some? {
      var k := Lookup(f, name).value;
      StopSlotted(f, k);
      ReapSlotted(StopService(f, k).0, exits);
      ReapKeeps(StopService(f, k).0, exits);
      StopLength(f, k);
      StartSlotted(Stopped(f, k, exits), k, w);
    }
  }

  lemma StopLength(f: Forge, k: UnitKey)
    requires k < |f.arena|
    ensures |StopService(f, k).0.arena| == |f.arena|
  {
  }

  lemma DrainSlotted(f: Forge, now: Time, w: World)
    requires Sound(f) && AllSlotted(f) && f.pendingRestarts != [] && Idle(f, f.pendingRestarts[0])
    ensures AllSlotted(RestartNext(f, now, w))
  {
    hide StartService;
    var k := f.pendingRestarts[0];
    var times := RestartLimiter.Decide(f.restartTimes, RestartLimiter.Request(f.arena[k].name, now)).1;
    var g := f.(pendingRestarts := f.pendingRestarts[1..], restartTimes := times);
    SlottedCarried(f, g);
    StartSlotted(g, k, w);
  }

  lemma DeviceSlotted(f: Forge, k: UnitKey, w: World)
    requires Inv(f) && AllSlotted(f) && Admissible(f, DeviceReady(k, w)) && StartsIdle(f, DeviceReady(k, w))
    ensures AllSlotted(ActivateDevice(f, k, w).0)
  {
    hide StartByName;
    if f.arena[k].kind.Device? && !f.arena[k].kind.activated {
      var g, name := MarkDevice(f, k), f.arena[k].kind.service;
      MarkKeeps(f, k);
      PutSlots(f, k, g.arena[k]);
      SlottedCarried(f, g);
      assert Lookup(g, name) == Lookup(f, name);
      StartByNameSlotted(g, name, w);
    }
  }

  lemma ShutDownSlotted(f: Forge, order: seq<UnitKey>, exits: seq<(Pid, ExitStatus)>)
    requires AllSlotted(f) && Live(f.arena, order)
    ensures AllSlotted(Shutdown(f, order, exits))
  {
    hide StopAll, Reap;
    if !f.shuttingDown {
      var g := f.(shuttingDown := true);
      SlottedCarried(f, g);
      StopAllSlotted(g, order);
      ReapSlotted(StopAll(g, order), exits);
    }
  }

  lemma RegisterSlotted(f: Forge, name: string, kind: Kind, virtuals: seq<string>)
    requires Sound(f) && AllSlotted(f)
    ensures AllSlotted(Register(f, name, kind, virtuals).0)
  {
    RegisterIndex(f, name, kind, virtuals);
    InsertCases(f, name, kind);
    SlottedCarried(f, Register(f, name, kind, virtuals).0);
  }

  lemma OrderSlotted(f: Forge, unit: string, first: string)
    requires Sound(f) && AllSlotted(f)
    ensures AllSlotted(PrependOrdering(f, unit, first).0)
  {
    OrderIndex(f, unit, first);
    if unit in f.nameIndex {
      OrderedDefinition(f.arena[f.nameIndex[unit]], first);
      PutSlots(f, f.nameIndex[unit], PrependOrdering(f, unit, first).0.arena[f.nameIndex[unit]]);
    }
    SlottedCarried(f, PrependOrdering(f, unit, first).0);
  }

  lemma SocketSlotted(f: Forge, k: UnitKey, listeners: map<UnitKey, seq<SocketEntry>>)
    requires AllSlotted(f) && k < |f.arena|
    ensures AllSlotted(ActivateSocket(f, k, listeners).0)
  {
    var g := ActivateSocket(f, k, listeners).0;
    ActivateKeeps(f, k, listeners);
    forall j | 0 <= j < |f.arena| ensures Slot(g.arena[j]) == Slot(f.arena[j]) {
      assert SameUnit(f.arena[j], g.arena[j]);
    }
    SlottedCarried(f, g);
  }

  lemma MountSlotted(f: Forge, k: UnitKey, works: bool, pid1: bool)
    requires AllSlotted(f) && k < |f.arena|
    ensures AllSlotted(ActivateMount(f, k, works, pid1).0)
  {
    MountSlots(f, k, works, pid1);
    SlottedCarried(f, ActivateMount(f, k, works, pid1).0);
  }

  lemma StepSlotted(f: Forge, s: Step)
    requires Inv(f) && AllSlotted(f) && Admissible(f, s) && StartsIdle(f, s)
    ensures AllSlotted(Apply(f, s))
  {
    hide StartByName, StartService, RestartByName, RestartNext, Shutdown, ActivateDevice, Register, OnChildExit;
    hide PrependOrdering, ActivateSocket, ActivateMount, StopService, SlotsIndexed;
    match s
    case RegisterUnit(name, kind, virtuals) => RegisterSlotted(f, name, kind, virtuals);
    case Order(unit, first) => OrderSlotted(f, unit, first);
    case Start(name, w) => StartByNameSlotted(f, name, w);
    case BootStart(k, w) => StartSlotted(f, k, w);
    case BootSocket(k, listeners) => SocketSlotted(f, k, listeners);
    case BootMount(k, works, pid1) => MountSlotted(f, k, works, pid1);
    case BootFail(k) => StateSlotted(f, k, Failed);
    case DeviceReady(k, w) => DeviceSlotted(f, k, w);
    case Stop(name) => if Lookup(f, name).Some? { StopSlotted(f, Lookup(f, name).value); }
    case Restart(name, exits, w) => RestartSlotted(f, name, exits, w);
    case Exit(pid, status) => ExitSlotted(f, pid, status);
    case Drain(now, w) => if f.pendingRestarts != [] { DrainSlotted(f, now, w); }
    case ShutDown(order, exits) => ShutDownSlotted(f, order, exits);
  }

  /** No step of the run starts a service that records a pid. */
  ghost predicate IdleStarts(f: Forge, steps: seq<Step>)
    requires Possible(f, steps)
    decreases |steps|
  {
    steps == [] || (StartsIdle(f, steps[0]) && IdleStarts(Apply(f, steps[0]), steps[1..]))
  }

  /** In a run that starts no running service, index and slots stay inverse. */
  lemma {:induction false} RunInverse(f: Forge, steps: seq<Step>)
    requires Inv(f) && AllSlotted(f) && Possible(f, steps) && IdleStarts(f, steps)
    ensures Sound(Run(f, steps)) && Inverse(Run(f, steps))
    decreases |steps|
  {
    hide Sound, SlotsIndexed, AllSlotted, StartsIdle, Admissible, Apply, Continues;
    if steps == [] {
    } else {
      StepKeeps(f, steps[0]);
      StepSlotted(f, steps[0]);
      RunInverse(Apply(f, steps[0]), steps[1..]);
    }
  }

  /** So no exit in or after such a run clears the slot of a process that still runs. */
  lemma RunSparesOthers(steps: seq<Step>, pid: Pid, status: ExitStatus)
    requires Possible(EMPTY, steps) && IdleStarts(EMPTY, steps)
    ensures OthersStay(Run(EMPTY, steps), OnChildExit(Run(EMPTY, steps), pid, status).0, pid)
  {
    RunInverse(EMPTY, steps);
    ExitSparesOthers(Run(EMPTY, steps), pid, status);
  }
}
