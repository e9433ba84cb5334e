/** What single supervision operations keep: soundness, the graph's shape, and the pid slots. */
module Keeping {
  import opened Units
  import opened Names
  import opened ForgeModel
  import opened Supervision

  /** No other service records a pid that this start may record. A pid that is in no index qualifies. */
  ghost predicate Fresh(f: Forge, k: UnitKey, w: World) {
    forall j | 0 <= j < |f.arena| && j != k && Slot(f.arena[j]).Some? ::
      Slot(f.arena[j]) != w.spawned && Slot(f.arena[j]) != w.daemon
  }

  // ---- Definitions ------------------------------------------------------------------------------------------

  function WithoutAfter(kind: Kind): Kind {
    var definition := kind.Definition();
    if definition.Target? then definition else definition.(after := [])
  }

  /** Definitions stay: a later state only adds units, virtual names and `after` entries. */
  ghost predicate Extends(f: Forge, g: Forge) {
    && |f.arena| <= |g.arena|
    && (forall n | n in f.nameIndex :: n in g.nameIndex && g.nameIndex[n] == f.nameIndex[n])
    && (forall v | v in f.providesIndex :: v in g.providesIndex && g.providesIndex[v] == f.providesIndex[v])
    && forall k | 0 <= k < |f.arena| :: SameDefinition(f.arena[k], g.arena[k])
  }

  ghost predicate SameDefinition(u: Unit, v: Unit) {
    && u.name == v.name
    && WithoutAfter(u.kind) == WithoutAfter(v.kind)
    && After(u.kind) <= After(v.kind)
    && (u.kind.Settled() ==> v.kind.Settled())
  }

  lemma ExtendsTrans(f: Forge, g: Forge, h: Forge)
    requires Extends(f, g) && Extends(g, h)
    ensures Extends(f, h)
  {
    forall k | 0 <= k < |f.arena| ensures SameDefinition(f.arena[k], h.arena[k]) {
      assert SameDefinition(f.arena[k], g.arena[k]) && SameDefinition(g.arena[k], h.arena[k]);
    }
  }

  lemma ShapeExtends(f: Forge, g: Forge)
    requires SameShape(f, g)
    ensures Extends(f, g)
  {
    forall k | 0 <= k < |f.arena| ensures SameDefinition(f.arena[k], g.arena[k]) {
      assert SameUnit(f.arena[k], g.arena[k]);
    }
  }

  /** Besides the definitions, every dependency list and the reverse index stay. */
  ghost predicate Continues(f: Forge, g: Forge) {
    && Extends(f, g) && g.reverse == f.reverse
    && forall k | 0 <= k < |f.arena| :: g.arena[k].dependencies == f.arena[k].dependencies
  }

  lemma ShapeContinues(f: Forge, g: Forge)
    requires SameShape(f, g)
    ensures Continues(f, g)
  {
    ShapeExtends(f, g);
    forall k | 0 <= k < |f.arena| ensures g.arena[k].dependencies == f.arena[k].dependencies {
      assert SameUnit(f.arena[k], g.arena[k]);
    }
  }

  lemma ContinuesTrans(f: Forge, g: Forge, h: Forge)
    requires Continues(f, g) && Continues(g, h)
    ensures Continues(f, h)
  {
    ExtendsTrans(f, g, h);
  }

  // ---- Slots ------------------------------------------------------------------------------------------------

  /** Slot soundness, except for the units of s. */
  ghost predicate SlotsIndexedBut(f: Forge, s: set<UnitKey>) {
    forall k | 0 <= k < |f.arena| && k !in s :: SlotIndexed(f, k)
  }

  lemma ExitSlots(f: Forge, pid: Pid, status: ExitStatus, s: set<UnitKey>)
    requires SlotsIndexedBut(f, s)
    ensures var g := OnChildExit(f, pid, status).0;
            SlotsIndexedBut(g, s) && |g.arena| == |f.arena|
            && forall j | 0 <= j < |f.arena| :: Slot(g.arena[j]) == Slot(f.arena[j]) || Slot(g.arena[j]) == None
  {
    var g := OnChildExit(f, pid, status).0;
    forall j | 0 <= j < |f.arena| && j !in s ensures SlotIndexed(g, j) {
      assert SlotIndexed(f, j);
    }
  }

  lemma {:induction false} ReapSlots(f: Forge, exits: seq<(Pid, ExitStatus)>, s: set<UnitKey>)
    requires SlotsIndexedBut(f, s)
    ensures var g := Reap(f, exits);
            SlotsIndexedBut(g, s) && |g.arena| == |f.arena|
            && forall j | 0 <= j < |f.arena| :: Slot(g.arena[j]) == Slot(f.arena[j]) || Slot(g.arena[j]) == None
    decreases |exits|
  {
    if exits == [] {
    } else {
      var n := |exits| - 1;
      ReapSlots(f, exits[..n], s);
      ExitSlots(Reap(f, exits[..n]), exits[n].0, exits[n].1, s);
    }
  }

  lemma ExitLive(f: Forge, pid: Pid, status: ExitStatus)
    requires Sound(f)
    ensures Sound(OnChildExit(f, pid, status).0)
  {
    var g := OnChildExit(f, pid, status).0;
    ExitKeeps(f, pid, status);
    SoundOfShape(f, g);
  }

  lemma SoundOfShape(f: Forge, g: Forge)
    requires Sound(f) && SameShape(f, g)
    requires forall p | p in g.pidIndex :: g.pidIndex[p] < |f.arena|
    requires Live(f.arena, g.pendingRestarts)
    ensures Sound(g)
  {
    forall k | 0 <= k < |f.arena|
      ensures g.arena[k].name == f.arena[k].name && g.arena[k].dependencies == f.arena[k].dependencies
      ensures g.arena[k].kind.Target? == f.arena[k].kind.Target?
    {
      assert SameUnit(f.arena[k], g.arena[k]);
    }
  }

  lemma {:induction false} ReapSound(f: Forge, exits: seq<(Pid, ExitStatus)>)
    requires Sound(f)
    ensures Sound(Reap(f, exits)) && SameShape(f, Reap(f, exits))
    decreases |exits|
  {
    if exits == [] {
    } else {
      var n := |exits| - 1;
      ReapSound(f, exits[..n]);
      ExitLive(Reap(f, exits[..n]), exits[n].0, exits[n].1);
      ReapKeeps(f, exits);
    }
  }

  /** Recording a pid keeps the slots sound exactly when no other service records it. */
  lemma RecordSlots(f: Forge, k: UnitKey, pid: Pid)
    requires k < |f.arena| && f.arena[k].kind.Service? && SlotsIndexedBut(f, {k})
    ensures SlotsIndexed(Record(f, k, pid))
            <==> forall j | 0 <= j < |f.arena| && j != k :: Slot(f.arena[j]) != Some(pid)
  {
    var g := Record(f, k, pid);
    assert Slot(g.arena[k]) == Some(pid) && SlotIndexed(g, k);
    forall j | 0 <= j < |f.arena| && j != k
      ensures SlotIndexed(g, j) <==> Slot(f.arena[j]) != Some(pid)
    {
      assert SlotIndexed(f, j);
      assert Slot(g.arena[j]) == Slot(f.arena[j]);
    }
    if SlotsIndexed(g) {
      forall j | 0 <= j < |f.arena| && j != k ensures Slot(f.arena[j]) != Some(pid) {
        assert SlotIndexed(g, j);
      }
    }
  }

  lemma ClearSlots(f: Forge, k: UnitKey)
    requires k < |f.arena| && f.arena[k].kind.Service? && SlotsIndexedBut(f, {k})
    ensures SlotsIndexed(SetSlot(f, k, None))
  {
    var g := SetSlot(f, k, None);
    forall j | 0 <= j < |f.arena| ensures SlotIndexed(g, j) {
      if j != k { assert SlotIndexed(f, j); }
    }
  }

  // ---- Starts -----------------------------------------------------------------------------------------------

  /** g is a sound state of the same graph as f. */
  ghost predicate Keeps(f: Forge, g: Forge) {
    Sound(g) && SameShape(f, g)
  }

  lemma SlotSound(f: Forge, g: Forge, k: UnitKey, pid: Option<Pid>)
    requires Keeps(f, g) && k < |g.arena|
    ensures Keeps(f, SetSlot(g, k, pid))
  {
    SlotKeeps(g, k, pid);
    SoundOfShape(g, SetSlot(g, k, pid));
    ShapeTrans(f, g, SetSlot(g, k, pid));
  }

  lemma StateSound(f: Forge, g: Forge, k: UnitKey, s: UnitState)
    requires Keeps(f, g) && k < |g.arena|
    ensures Keeps(f, SetState(g, k, s))
  {
    StateKeeps(g, k, s);
    SoundOfShape(g, SetState(g, k, s));
    ShapeTrans(f, g, SetState(g, k, s));
  }

  lemma RecordSound(f: Forge, g: Forge, k: UnitKey, pid: Pid)
    requires Keeps(f, g) && k < |g.arena|
    ensures Keeps(f, Record(g, k, pid))
  {
    SlotSound(f, g, k, Some(pid));
    var h := SetState(SetSlot(g, k, Some(pid)), k, Running);
    StateSound(f, SetSlot(g, k, Some(pid)), k, Running);
    SoundOfShape(h, h.(pidIndex := h.pidIndex[pid := k]));
  }

  lemma ReapSoundFrom(f: Forge, g: Forge, exits: seq<(Pid, ExitStatus)>)
    requires Keeps(f, g)
    ensures Keeps(f, Reap(g, exits))
  {
    ReapSound(g, exits);
    ShapeTrans(f, g, Reap(g, exits));
  }

  lemma CollectSound(f: Forge, g: Forge, names: seq<string>, listeners: map<UnitKey, seq<SocketEntry>>)
    requires Keeps(f, g)
    ensures Keeps(f, CollectSockets(g, names, listeners).0)
  {
    var h := CollectSockets(g, names, listeners).0;
    CollectKeeps(g, names, listeners);
    SoundOfShape(g, h);
    ShapeTrans(f, g, h);
  }

  lemma LaunchedKeeps(f: Forge, g: Forge, k: UnitKey, pid: Pid, w: World)
    requires Keeps(f, g) && k < |g.arena| && g.arena[k].kind.Service?
    ensures Keeps(f, Launched(g, k, pid, w).0)
  {
    LaunchedCases(g, k, pid, w);
    var h := LaunchedFrom(g, k, w);
    if h != g {
      ReapSoundFrom(f, g, w.reaped);
    }
    SlotSound(f, h, k, None);
    StateSound(f, SetSlot(h, k, None), k, LaunchedState(w));
    RecordSound(f, h, k, pid);
    if w.daemon.Some? {
      RecordSound(f, h, k, w.daemon.value);
    }
  }

  /** The state after any children were reaped while the launched one was awaited. */
  ghost function LaunchedFrom(f: Forge, k: UnitKey, w: World): (g: Forge)
    requires k < |f.arena| && f.arena[k].kind.Service?
    ensures g == f || g == Reap(f, w.reaped)
    ensures |g.arena| == |f.arena|
  {
    ReapKeeps(f, w.reaped);
    var waits := f.arena[k].kind.serviceType.Forking? || f.arena[k].kind.serviceType.Oneshot?;
    if w.ready && waits then Reap(f, w.reaped) else f
  }

  ghost function LaunchedState(w: World): UnitState {
    if w.waited == Some(Exited(0)) then Dead else Failed
  }

  /** The states a launched start can end in. */
  lemma LaunchedCases(f: Forge, k: UnitKey, pid: Pid, w: World)
    requires k < |f.arena| && f.arena[k].kind.Service?
    ensures var g, f1 := Launched(f, k, pid, w).0, LaunchedFrom(f, k, w);
            || g == SetSlot(f1, k, None)
            || g == SetState(SetSlot(f1, k, None), k, LaunchedState(w))
            || g == Record(f1, k, pid)
            || (w.daemon.Some? && g == Record(f1, k, w.daemon.value))
  {
    ReapKeeps(f, w.reaped);
  }

  lemma LaunchedSlots(f: Forge, k: UnitKey, pid: Pid, w: World)
    requires k < |f.arena| && f.arena[k].kind.Service? && SlotsIndexedBut(f, {k})
    requires w.spawned == Some(pid) && Fresh(f, k, w)
    ensures SlotsIndexed(Launched(f, k, pid, w).0)
  {
    LaunchedCases(f, k, pid, w);
    var h := LaunchedFrom(f, k, w);
    ReapSlots(f, w.reaped, {k});
    ReapKindKept(f, w.reaped, k);
    ClearSlots(h, k);
    StateSlots(SetSlot(h, k, None), k, LaunchedState(w));
    RecordSlots(h, k, pid);
    if w.daemon.Some? {
      RecordSlots(h, k, w.daemon.value);
    }
  }

  lemma ReapKindKept(f: Forge, exits: seq<(Pid, ExitStatus)>, k: UnitKey)
    requires k < |f.arena|
    ensures var g := Reap(f, exits); k < |g.arena| && (g.arena[k].kind.Service? <==> f.arena[k].kind.Service?)
  {
    ReapKeeps(f, exits);
    assert SameUnit(f.arena[k], Reap(f, exits).arena[k]);
  }

  lemma StateSlots(f: Forge, k: UnitKey, s: UnitState)
    requires k < |f.arena| && SlotsIndexed(f)
    ensures SlotsIndexed(SetState(f, k, s))
  {
    var g := SetState(f, k, s);
    forall j | 0 <= j < |f.arena| ensures SlotIndexed(g, j) {
      assert SlotIndexed(f, j);
    }
  }

  /** The state in which a start has its child, if the start gets that far. */
  ghost function BeforeLaunch(f: Forge, k: UnitKey, w: World): Forge
    requires k < |f.arena| && f.arena[k].kind.Service?
  {
    CollectSockets(SetState(f, k, Starting), f.arena[k].kind.sockets, w.sockets).0
  }

  lemma BeforeLaunchKeeps(f: Forge, k: UnitKey, w: World)
    requires Sound(f) && k < |f.arena| && f.arena[k].kind.Service?
    ensures Keeps(f, BeforeLaunch(f, k, w))
  {
    ShapeRefl(f);
    StateSound(f, f, k, Starting);
    CollectSound(f, SetState(f, k, Starting), f.arena[k].kind.sockets, w.sockets);
  }

  lemma BeforeLaunchSlots(f: Forge, k: UnitKey, w: World)
    requires k < |f.arena| && f.arena[k].kind.Service?
    ensures var g := BeforeLaunch(f, k, w);
            |g.arena| == |f.arena| && g.pidIndex == f.pidIndex && g.arena[k].kind == f.arena[k].kind
            && forall j | 0 <= j < |f.arena| :: Slot(g.arena[j]) == Slot(f.arena[j])
  {
    var f1 := SetState(f, k, Starting);
    CollectKeeps(f1, f.arena[k].kind.sockets, w.sockets);
    var g := BeforeLaunch(f, k, w);
    forall j | 0 <= j < |f.arena| ensures Slot(g.arena[j]) == Slot(f.arena[j]) {
      assert Slot(f1.arena[j]) == Slot(f.arena[j]);
      assert SameUnit(f1.arena[j], g.arena[j]);
    }
  }

  /** The states a start can end in. */
  lemma StartCases(f: Forge, k: UnitKey, w: World)
    requires k < |f.arena| && f.arena[k].kind.Service?
    ensures var g := StartService(f, k, w).0;
            || (exists s :: g == SetState(SetState(f, k, Starting), k, s))
            || g == BeforeLaunch(f, k, w)
            || (w.spawned.Some? && |BeforeLaunch(f, k, w).arena| == |f.arena|
                && BeforeLaunch(f, k, w).arena[k].kind.Service?
                && g == Launched(SetSlot(BeforeLaunch(f, k, w), k, w.spawned), k, w.spawned.value, w).0)
  {
    var f1 := SetState(f, k, Starting);
    CollectKeeps(f1, f.arena[k].kind.sockets, w.sockets);
    assert SetState(f1, k, Starting) == f1;
    var g := StartService(f, k, w).0;
    if f.arena[k].name == "forge-early" {
      assert g == SetState(f1, k, if w.earlyBoot then Dead else Starting);
    } else if w.adopted {
      assert g == SetState(f1, k, Running);
    } else if !w.prepared {
      assert g == SetState(f1, k, Starting);
    }
  }

  lemma StartKeeps(f: Forge, k: UnitKey, w: World)
    requires Sound(f) && k < |f.arena|
    ensures Keeps(f, StartService(f, k, w).0)
  {
    var g := StartService(f, k, w).0;
    ShapeRefl(f);
    if f.arena[k].kind.Service? {
      StartCases(f, k, w);
      StateSound(f, f, k, Starting);
      BeforeLaunchKeeps(f, k, w);
      var f1, f2 := SetState(f, k, Starting), BeforeLaunch(f, k, w);
      if s :| g == SetState(f1, k, s) {
        StateSound(f, f1, k, s);
      } else if g != f2 {
        SlotSound(f, f2, k, w.spawned);
        LaunchedKeeps(f, SetSlot(f2, k, w.spawned), k, w.spawned.value, w);
      }
    }
  }

  /** A start whose child is fresh keeps every recorded pid mapped back to its service. */
  lemma StartSlots(f: Forge, k: UnitKey, w: World)
    requires SlotsIndexed(f) && k < |f.arena| && Fresh(f, k, w)
    ensures SlotsIndexed(StartService(f, k, w).0)
  {
    var g := StartService(f, k, w).0;
    if f.arena[k].kind.Service? {
      StartCases(f, k, w);
      BeforeLaunchSlots(f, k, w);
      var f1, f2 := SetState(f, k, Starting), BeforeLaunch(f, k, w);
      StateSlots(f, k, Starting);
      SlotsCarried(f, f2);
      if s :| g == SetState(f1, k, s) {
        StateSlots(f1, k, s);
      } else if g != f2 {
        var f3 := SetSlot(f2, k, w.spawned);
        forall j | 0 <= j < |f.arena| && j != k ensures SlotIndexed(f3, j) && Slot(f3.arena[j]) == Slot(f.arena[j]) {
          assert SlotIndexed(f2, j);
        }
        LaunchedSlots(f3, k, w.spawned.value, w);
      }
    }
  }

  lemma SlotsCarried(f: Forge, g: Forge)
    requires SlotsIndexed(f) && |f.arena| == |g.arena| && g.pidIndex == f.pidIndex
    requires forall j | 0 <= j < |f.arena| :: Slot(g.arena[j]) == Slot(f.arena[j])
    ensures SlotsIndexed(g)
  {
    forall j | 0 <= j < |g.arena| ensures SlotIndexed(g, j) {
      assert SlotIndexed(f, j);
    }
  }

  lemma ActiveSound(f: Forge, g: Forge, k: UnitKey)
    requires Sound(f) && k < |f.arena| && g == f.(activeUnits := f.activeUnits + {k})
    ensures Sound(g) && Continues(f, g)
  {
  }

  /** f with the definition of one unit extended. */
  ghost predicate Redefined(f: Forge, g: Forge, k: UnitKey) {
    && k < |f.arena| == |g.arena| && g == f.(arena := f.arena[k := g.arena[k]])
    && SameDefinition(f.arena[k], g.arena[k]) && g.arena[k].dependencies == f.arena[k].dependencies
    && g.arena[k].kind.Target? == f.arena[k].kind.Target? && Slot(g.arena[k]) == Slot(f.arena[k])
  }

  lemma RedefinedSound(f: Forge, g: Forge, k: UnitKey)
    requires Sound(f) && Redefined(f, g, k)
    ensures Sound(g)
  {
    forall j | 0 <= j < |f.arena|
      ensures g.arena[j].name == f.arena[j].name && g.arena[j].dependencies == f.arena[j].dependencies
      ensures g.arena[j].kind.Target? == f.arena[j].kind.Target?
    {
      assert j != k ==> g.arena[j] == f.arena[j];
    }
  }

  lemma RedefinedContinues(f: Forge, g: Forge, k: UnitKey)
    requires Redefined(f, g, k)
    ensures Continues(f, g) && (SlotsIndexed(f) ==> SlotsIndexed(g))
  {
    forall j | 0 <= j < |f.arena|
      ensures SameDefinition(f.arena[j], g.arena[j]) && Slot(g.arena[j]) == Slot(f.arena[j])
    {
      assert j != k ==> g.arena[j] == f.arena[j];
    }
    if SlotsIndexed(f) {
      SlotsCarried(f, g);
    }
  }

  lemma MountSound(f: Forge, g: Forge, k: UnitKey, works: bool, pid1: bool)
    requires Keeps(f, g) && k < |g.arena|
    ensures Keeps(f, ActivateMount(g, k, works, pid1).0)
  {
    StateSound(f, g, k, Starting);
    StateSound(f, g, k, Dead);
    var u := g.arena[k];
    if u.kind.Mount? && !u.kind.mounted && works {
      var kind := u.kind.(mounted := true);
      assert kind.Static() == u.kind.Static();
      PutKeeps(g, k, u.(kind := kind, state := Running));
      var h := g.(arena := g.arena[k := u.(kind := kind, state := Running)]);
      SoundOfShape(g, h);
      ShapeTrans(f, g, h);
    }
  }

  /** The mount unit as activating it leaves it. */
  function MountedUnit(u: Unit, works: bool, pid1: bool): Unit
    requires u.kind.Mount?
  {
    if u.kind.mounted then u
    else if works then u.(kind := u.kind.(mounted := true), state := Running)
    else u.(state := if pid1 then Starting else Dead)
  }

  lemma MountChanges(f: Forge, k: UnitKey, works: bool, pid1: bool)
    requires k < |f.arena| && f.arena[k].kind.Mount?
    ensures ActivateMount(f, k, works, pid1).0 == f.(arena := f.arena[k := MountedUnit(f.arena[k], works, pid1)])
  {
    if f.arena[k].kind.mounted {
      assert f.arena[k := f.arena[k]] == f.arena;
    }
  }

  /** What activating a mount unit gives: PID 1 reports a failure, anyone else only leaves the unit dead. */
  lemma MountExact(f: Forge, k: UnitKey, works: bool, pid1: bool)
    requires k < |f.arena| && f.arena[k].kind.Mount?
    ensures var (g, r) := ActivateMount(f, k, works, pid1);
            && |g.arena| == |f.arena| && g.arena[k].kind.Mount?
            && (g.arena[k].kind.mounted <==> f.arena[k].kind.mounted || works)
            && (r.Ok? <==> g.arena[k].kind.mounted || !pid1)
            && (!g.arena[k].kind.mounted ==> g.arena[k].state == if pid1 then Starting else Dead)
            && (!f.arena[k].kind.mounted && works ==> g.arena[k].state == Running)
            && forall j | 0 <= j < |f.arena| && j != k :: g.arena[j] == f.arena[j]
  {
    MountChanges(f, k, works, pid1);
  }

  lemma SocketSound(f: Forge, g: Forge, k: UnitKey, listeners: map<UnitKey, seq<SocketEntry>>)
    requires Keeps(f, g) && k < |g.arena|
    ensures Keeps(f, ActivateSocket(g, k, listeners).0)
  {
    var h := ActivateSocket(g, k, listeners).0;
    ActivateKeeps(g, k, listeners);
    SoundOfShape(g, h);
    ShapeTrans(f, g, h);
  }

  lemma StartSound(f: Forge, g: Forge, k: UnitKey, w: World)
    requires Keeps(f, g) && k < |g.arena|
    ensures Keeps(f, StartService(g, k, w).0)
  {
    StartKeeps(g, k, w);
    ShapeTrans(f, g, StartService(g, k, w).0);
  }

  lemma LaunchedTimes(f: Forge, k: UnitKey, pid: Pid, w: World)
    requires k < |f.arena| && f.arena[k].kind.Service?
    ensures Launched(f, k, pid, w).0.restartTimes == f.restartTimes
  {
    ReapTimes(f, w.reaped);
    LaunchedCases(f, k, pid, w);
    assert LaunchedFrom(f, k, w).restartTimes == f.restartTimes;
  }

  lemma BeforeLaunchTimes(f: Forge, k: UnitKey, w: World)
    requires k < |f.arena| && f.arena[k].kind.Service?
    ensures BeforeLaunch(f, k, w).restartTimes == f.restartTimes
  {
    CollectKeeps(SetState(f, k, Starting), f.arena[k].kind.sockets, w.sockets);
  }

  /** Starting a service leaves the restart history alone. */
  lemma StartTimes(f: Forge, k: UnitKey, w: World)
    requires k < |f.arena|
    ensures StartService(f, k, w).0.restartTimes == f.restartTimes
  {
    if f.arena[k].kind.Service? {
      StartCases(f, k, w);
      BeforeLaunchTimes(f, k, w);
      var f2 := BeforeLaunch(f, k, w);
      if w.spawned.Some? && |f2.arena| == |f.arena| && f2.arena[k].kind.Service? {
        LaunchedTimes(SetSlot(f2, k, w.spawned), k, w.spawned.value, w);
      }
    }
  }

  lemma {:induction false} ReapTimes(f: Forge, exits: seq<(Pid, ExitStatus)>)
    ensures Reap(f, exits).restartTimes == f.restartTimes
    decreases |exits|
  {
    if exits == [] {
    } else {
      ReapTimes(f, exits[..|exits| - 1]);
    }
  }

  // ---- Sockets ----------------------------------------------------------------------------------------------

  /** The entries of one named socket unit, as they stand in f. */
  function EntriesOf(f: Forge, name: string): seq<SocketEntry> {
    if name in f.nameIndex && f.nameIndex[name] < |f.arena| && f.arena[f.nameIndex[name]].kind.Socket?
       && f.arena[f.nameIndex[name]].kind.activation.Some?
    then f.arena[f.nameIndex[name]].kind.activation.value
    else []
  }

  function AllEntries(f: Forge, names: seq<string>): seq<SocketEntry> {
    if names == [] then [] else EntriesOf(f, names[0]) + AllEntries(f, names[1..])
  }

  ghost predicate ListeningSocket(f: Forge, name: string) {
    name in f.nameIndex && f.nameIndex[name] < |f.arena|
    && f.arena[f.nameIndex[name]].kind.Socket? && f.arena[f.nameIndex[name]].state == Listening
  }

  lemma OpenListens(f: Forge, name: string, listeners: map<UnitKey, seq<SocketEntry>>)
    ensures var (g, r) := OpenSocket(f, name, listeners);
            r.Ok? ==> ListeningSocket(g, name) && r.value == EntriesOf(g, name)
  {
    var g := OpenSocket(f, name, listeners).0;
    OpenKeeps(f, name, listeners);
    if name in f.nameIndex && f.nameIndex[name] < |f.arena| {
      assert SameUnit(f.arena[f.nameIndex[name]], g.arena[f.nameIndex[name]]);
    }
  }

  /** A listening socket is never opened again. */
  lemma OpenLeavesListening(f: Forge, name: string, other: string, listeners: map<UnitKey, seq<SocketEntry>>)
    requires ListeningSocket(f, other)
    ensures var g := OpenSocket(f, name, listeners).0;
            ListeningSocket(g, other) && EntriesOf(g, other) == EntriesOf(f, other)
  {
    var g := OpenSocket(f, name, listeners).0;
    OpenChangesOne(f, name, listeners);
    assert g.arena[f.nameIndex[other]] == f.arena[f.nameIndex[other]];
  }

  lemma OpenChangesOne(f: Forge, name: string, listeners: map<UnitKey, seq<SocketEntry>>)
    ensures var g := OpenSocket(f, name, listeners).0;
            |g.arena| == |f.arena| && g.nameIndex == f.nameIndex
            && forall k | 0 <= k < |f.arena| && f.arena[k].state == Listening :: g.arena[k] == f.arena[k]
  {
    OpenCases(f, name, listeners);
    if name in f.nameIndex && f.nameIndex[name] < |f.arena| {
      ActivateChangesOne(f, f.nameIndex[name], listeners);
    }
  }

  lemma ActivateChangesOne(f: Forge, k: UnitKey, listeners: map<UnitKey, seq<SocketEntry>>)
    requires k < |f.arena|
    ensures var g := ActivateSocket(f, k, listeners).0;
            |g.arena| == |f.arena| && g.nameIndex == f.nameIndex
            && forall j | 0 <= j < |f.arena| && j != k :: g.arena[j] == f.arena[j]
  {
  }

  lemma {:induction false} CollectLeavesListening(f: Forge, names: seq<string>, other: string,
        listeners: map<UnitKey, seq<SocketEntry>>)
    requires ListeningSocket(f, other)
    ensures var g := CollectSockets(f, names, listeners).0;
            ListeningSocket(g, other) && EntriesOf(g, other) == EntriesOf(f, other)
    decreases |names|
  {
    if names == [] {
    } else {
      OpenLeavesListening(f, names[0], other, listeners);
      CollectLeavesListening(OpenSocket(f, names[0], listeners).0, names[1..], other, listeners);
    }
  }

  /** What a service inherits: all entries of its sockets, in the order it names them, and all of them listening. */
  lemma {:induction false} CollectedInOrder(f: Forge, names: seq<string>, listeners: map<UnitKey, seq<SocketEntry>>)
    ensures var (g, r) := CollectSockets(f, names, listeners);
            r.Ok? ==> r.value == AllEntries(g, names) && forall n | n in names :: ListeningSocket(g, n)
    decreases |names|
  {
    if names == [] {
    } else {
      var (f1, r1) := OpenSocket(f, names[0], listeners);
      OpenListens(f, names[0], listeners);
      if r1.Ok? {
        CollectedInOrder(f1, names[1..], listeners);
        CollectLeavesListening(f1, names[1..], names[0], listeners);
        assert names == [names[0]] + names[1..];
      }
    }
  }
}
