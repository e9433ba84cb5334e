/** Every supervision operation as a function on the scheduler's state, and what whole runs of them keep. */
module Supervision {
  import opened Units
  import opened Names
  import opened ForgeModel
  import RestartLimiter

  /** What the environment decides during one service start. */
  datatype World = World(
    earlyBoot: bool,                            // the built-in early boot sequence succeeds
    adopted: bool,                              // the host's own instance is adopted (not PID 1)
    prepared: bool,                             // ExecStartPre succeeds
    sockets: map<UnitKey, seq<SocketEntry>>,    // sockets that can be opened, with their entries
    spawned: Option<Pid>,                       // log, command and fork succeed, giving this child
    ready: bool,                                // the activation check (notify, bus name) succeeds
    reaped: seq<(Pid, ExitStatus)>,             // children reaped while waiting for this one
    waited: Option<ExitStatus>,                 // exit status of the awaited child
    daemon: Option<Pid>)                        // the daemon a forking service left behind

  function SetState(f: Forge, k: UnitKey, s: UnitState): Forge
    requires k < |f.arena|
  {
    f.(arena := f.arena[k := f.arena[k].(state := s)])
  }

  /** Writes the pid slot; only services have one. */
  function SetSlot(f: Forge, k: UnitKey, pid: Option<Pid>): Forge
    requires k < |f.arena|
  {
    f.(arena := f.arena[k := f.arena[k].(kind := WithPid(f.arena[k].kind, pid))])
  }

  // ---- Registration -----------------------------------------------------------------------------------------

  /** Registers a unit; a known name keeps its first definition. */
  function InsertUnit(f: Forge, name: string, kind: Kind): (Forge, UnitKey) {
    if name in f.nameIndex then (f, f.nameIndex[name])
    else
      (f.(arena := f.arena + [Unit(name, kind.Definition(), Dead, [], None)],
          nameIndex := f.nameIndex[name := |f.arena|]),
       |f.arena|)
  }

  /** First claim of a virtual name wins. */
  function Claim(claimed: map<string, UnitKey>, names: seq<string>, k: UnitKey): map<string, UnitKey> {
    if names == [] then claimed
    else
      var n := |names| - 1;
      var front := Claim(claimed, names[..n], k);
      if names[n] in front then front else front[names[n] := k]
  }

  function Register(f: Forge, name: string, kind: Kind, virtuals: seq<string>): (Forge, UnitKey) {
    var (f1, k) := InsertUnit(f, name, kind);
    (f1.(providesIndex := Claim(f1.providesIndex, virtuals, k)), k)
  }

  function WithAfter(kind: Kind, name: string): Kind {
    if kind.Target? || name in kind.after then kind else kind.(after := kind.after + [name])
  }

  /** Orders `first` ahead of `unit` by adding its name to the unit's `after` list. */
  function PrependOrdering(f: Forge, unit: string, first: string): (Forge, Result<()>) {
    if unit !in f.nameIndex || f.nameIndex[unit] >= |f.arena| then (f, Err(NotFound(unit)))
    else
      var k := f.nameIndex[unit];
      (f.(arena := f.arena[k := f.arena[k].(kind := WithAfter(f.arena[k].kind, first))]), Ok(()))
  }

  // ---- Exits ------------------------------------------------------------------------------------------------

  function WantsRestart(policy: RestartPolicy, status: ExitStatus): bool {
    policy.Always? || (policy.OnFailure? && status.Failure())
  }

  function WithPid(kind: Kind, pid: Option<Pid>): (r: Kind)
    ensures r.Static() == kind.Static() && r.Settled() == kind.Settled()
  {
    if kind.Service? then kind.(pid := pid) else kind
  }

  function ExitedUnit(u: Unit, status: ExitStatus): Unit {
    Unit(u.name, WithPid(u.kind, None), if status.Failure() then Failed else Dead, u.dependencies, Some(status))
  }

  /** The report that a child exited; an unknown pid changes nothing. */
  function OnChildExit(f: Forge, pid: Pid, status: ExitStatus): (Forge, bool) {
    if pid !in f.pidIndex || f.pidIndex[pid] >= |f.arena| then (f, false)
    else
      var k := f.pidIndex[pid];
      var u := f.arena[k];
      var queue := !f.shuttingDown && u.kind.Service? && WantsRestart(u.kind.restart, status);
      (f.(pidIndex := f.pidIndex - {pid},
          arena := f.arena[k := ExitedUnit(u, status)],
          pendingRestarts := if queue then f.pendingRestarts + [k] else f.pendingRestarts), true)
  }

  function Reap(f: Forge, exits: seq<(Pid, ExitStatus)>): Forge {
    if exits == [] then f
    else
      var n := |exits| - 1;
      OnChildExit(Reap(f, exits[..n]), exits[n].0, exits[n].1).0
  }

  // ---- Starting ---------------------------------------------------------------------------------------------

  /** Opens a socket unit's listeners; anything but a socket is left alone. */
  function ActivateSocket(f: Forge, k: UnitKey, listeners: map<UnitKey, seq<SocketEntry>>): (Forge, Result<()>)
    requires k < |f.arena|
  {
    var u := f.arena[k];
    if !u.kind.Socket? then (f, Ok(()))
    else if k !in listeners then (SetState(f, k, Starting), Err(SocketFailed(u.name)))
    else
      (f.(arena := f.arena[k := u.(kind := u.kind.(activation := Some(listeners[k])), state := Listening)]), Ok(()))
  }

  /** Mounts a mount unit once. Outside PID 1 a failure is only skipped. */
  function ActivateMount(f: Forge, k: UnitKey, works: bool, pid1: bool): (Forge, Result<()>)
    requires k < |f.arena|
  {
    var u := f.arena[k];
    if !u.kind.Mount? || u.kind.mounted then (f, Ok(()))
    else if works then (f.(arena := f.arena[k := u.(kind := u.kind.(mounted := true), state := Running)]), Ok(()))
    else if pid1 then (SetState(f, k, Starting), Err(InvalidOperation(u.name)))
    else (SetState(f, k, Dead), Ok(()))
  }

  /** The entries of one named socket, opened first if it is not listening. */
  function OpenSocket(f: Forge, name: string, listeners: map<UnitKey, seq<SocketEntry>>): (Forge,
        Result<seq<SocketEntry>>)
  {
    if name !in f.nameIndex || f.nameIndex[name] >= |f.arena| then (f, Err(MissingUnit("service", name)))
    else
      var k := f.nameIndex[name];
      if !f.arena[k].kind.Socket? then (f, Err(InvalidOperation(name)))
      else
        var (f1, r) := if f.arena[k].state != Listening then ActivateSocket(f, k, listeners) else (f, Ok(()));
        if r.Err? then (f1, Err(r.error))
        else if f1.arena[k].kind.activation.Some? then (f1, Ok(f1.arena[k].kind.activation.value))
        else (f1, Ok([]))
  }

  /** The entries a service inherits: those of its sockets, in the order named. */
  function CollectSockets(f: Forge, names: seq<string>, listeners: map<UnitKey, seq<SocketEntry>>)
    : (Forge, Result<seq<SocketEntry>>)
    decreases |names|
  {
    if names == [] then (f, Ok([]))
    else
      var (f1, r) := OpenSocket(f, names[0], listeners);
      if r.Err? then (f1, r) else Behind(r.value, CollectSockets(f1, names[1..], listeners))
  }

  function Behind(front: seq<SocketEntry>, rest: (Forge, Result<seq<SocketEntry>>)): (Forge, Result<seq<SocketEntry>>) {
    if rest.1.Err? then rest else (rest.0, Ok(front + rest.1.value))
  }

  /** Records a running process in the slot and in the pid index. */
  function Record(f: Forge, k: UnitKey, pid: Pid): Forge
    requires k < |f.arena|
  {
    var f1 := SetState(SetSlot(f, k, Some(pid)), k, Running);
    f1.(pidIndex := f1.pidIndex[pid := k])
  }

  function StartService(f: Forge, k: UnitKey, w: World): (Forge, Result<Pid>)
    requires k < |f.arena|
  {
    var u := f.arena[k];
    if !u.kind.Service? then (f, Err(NotService(u.name)))
    else
      var f1 := SetState(f, k, Starting);
      if u.name == "forge-early" then
        if w.earlyBoot then (SetState(f1, k, Dead), Ok(0)) else (f1, Err(SpawnFailed(u.name)))
      else if w.adopted then (SetState(f1, k, Running), Ok(0))
      else if !w.prepared then (f1, Err(SpawnFailed(u.name)))
      else
        var (f2, r) := CollectSockets(f1, u.kind.sockets, w.sockets);
        CollectKeeps(f1, u.kind.sockets, w.sockets);
        if r.Err? then (f2, Err(r.error))
        else if w.spawned.None? then (f2, Err(SpawnFailed(u.name)))
        else Launched(SetSlot(f2, k, w.spawned), k, w.spawned.value, w)
  }

  /** The rest of a start once the child runs and its slot is set. */
  function Launched(f: Forge, k: UnitKey, pid: Pid, w: World): (Forge, Result<Pid>)
    requires k < |f.arena| && f.arena[k].kind.Service?
  {
    var u := f.arena[k];
    var failed := Err(SpawnFailed(u.name));
    if !w.ready then (SetSlot(f, k, None), failed)
    else if !u.kind.serviceType.Forking? && !u.kind.serviceType.Oneshot? then (Record(f, k, pid), Ok(pid))
    else
      var f1 := Reap(f, w.reaped);
      ReapKeeps(f, w.reaped);
      if w.waited.None? then (SetSlot(f1, k, None), failed)
      else if u.kind.serviceType.Oneshot? then
        if w.waited.value.Success() then (SetState(SetSlot(f1, k, None), k, Dead), Ok(pid))
        else (SetState(SetSlot(f1, k, None), k, Failed), failed)
      else if !w.waited.value.Success() || w.daemon.None? then (SetSlot(f1, k, None), failed)
      else (Record(f1, k, w.daemon.value), Ok(w.daemon.value))
  }

  function StartByName(f: Forge, name: string, w: World): (Forge, Result<Pid>)
    requires Sound(f)
  {
    match Lookup(f, name)
    case None => (f, Err(NotFound(name)))
    case Some(k) =>
      if !f.arena[k].kind.Service? then (f, Err(NotService(name)))
      else StartService(f.(activeUnits := f.activeUnits + {k}), k, w)
  }

  // ---- Stopping ---------------------------------------------------------------------------------------------

  /** Signals a running service; the slot is kept until the exit is reported. */
  function StopService(f: Forge, k: UnitKey): (Forge, Result<()>)
    requires k < |f.arena|
  {
    if Slot(f.arena[k]).None? then (f, Err(NotRunning(f.arena[k].name)))
    else (SetState(f, k, Stopping), Ok(()))
  }

  function StopByName(f: Forge, name: string): (Forge, Result<()>)
    requires Sound(f)
  {
    match Lookup(f, name)
    case None => (f, Err(NotFound(name)))
    case Some(k) => StopService(f, k)
  }

  /** Stops a running service, reaps what exits meanwhile, and starts it. */
  function RestartByName(f: Forge, name: string, exits: seq<(Pid, ExitStatus)>, w: World): (Forge, Result<Pid>)
    requires Sound(f)
  {
    match Lookup(f, name)
    case None => (f, Err(NotFound(name)))
    case Some(k) =>
      var f1 := if Slot(f.arena[k]).Some? then Reap(StopService(f, k).0, exits) else f;
      ReapKeeps(StopService(f, k).0, exits);
      StartService(f1, k, w)
  }

  function StopAll(f: Forge, order: seq<UnitKey>): (g: Forge)
    requires Live(f.arena, order)
    ensures |g.arena| == |f.arena|
  {
    if order == [] then f
    else
      var n := |order| - 1;
      var g := StopAll(f, order[..n]);
      if g.arena[order[n]].kind.Service? then StopService(g, order[n]).0 else g
  }

  /** The first shutdown raises the flag, stops services in the given order, and reaps. */
  function Shutdown(f: Forge, order: seq<UnitKey>, exits: seq<(Pid, ExitStatus)>): Forge
    requires Live(f.arena, order)
  {
    if f.shuttingDown then f else Reap(StopAll(f.(shuttingDown := true), order), exits)
  }

  /** One round of the restart drain. */
  function RestartNext(f: Forge, now: Time, w: World): Forge
    requires f.pendingRestarts != [] && Live(f.arena, f.pendingRestarts)
  {
    var k := f.pendingRestarts[0];
    var (granted, times) := RestartLimiter.Decide(f.restartTimes, RestartLimiter.Request(f.arena[k].name, now));
    var f1 := f.(pendingRestarts := f.pendingRestarts[1..], restartTimes := times);
    if granted then StartService(f1, k, w).0 else f1
  }

  // ---- Shape ------------------------------------------------------------------------------------------------

  lemma ShapeTrans(f: Forge, g: Forge, h: Forge)
    requires SameShape(f, g) && SameShape(g, h)
    ensures SameShape(f, h)
  {
  }

  lemma ShapeRefl(f: Forge)
    ensures SameShape(f, f)
  {
  }

  lemma PutKeeps(f: Forge, k: UnitKey, u: Unit)
    requires k < |f.arena| && SameUnit(f.arena[k], u)
    ensures SameShape(f, f.(arena := f.arena[k := u]))
  {
  }

  lemma SlotKeeps(f: Forge, k: UnitKey, pid: Option<Pid>)
    requires k < |f.arena|
    ensures SameShape(f, SetSlot(f, k, pid))
  {
    PutKeeps(f, k, f.arena[k].(kind := WithPid(f.arena[k].kind, pid)));
  }

  lemma StateKeeps(f: Forge, k: UnitKey, s: UnitState)
    requires k < |f.arena|
    ensures SameShape(f, SetState(f, k, s))
  {
  }

  lemma ExitKeeps(f: Forge, pid: Pid, status: ExitStatus)
    ensures SameShape(f, OnChildExit(f, pid, status).0)
  {
    if pid in f.pidIndex && f.pidIndex[pid] < |f.arena| {
      var k := f.pidIndex[pid];
      PutKeeps(f, k, ExitedUnit(f.arena[k], status));
    }
  }

  lemma {:induction false} ReapKeeps(f: Forge, exits: seq<(Pid, ExitStatus)>)
    ensures SameShape(f, Reap(f, exits))
    decreases |exits|
  {
    if exits == [] {
    } else {
      var n := |exits| - 1;
      ReapKeeps(f, exits[..n]);
      ExitKeeps(Reap(f, exits[..n]), exits[n].0, exits[n].1);
    }
  }

  /** Two states that differ only in socket units, and in those only by activation and unit state. */
  ghost predicate SocketsOpened(f: Forge, g: Forge) {
    && SameShape(f, g)
    && g == f.(arena := g.arena)
    && forall k | 0 <= k < |f.arena| && !f.arena[k].kind.Socket? :: g.arena[k] == f.arena[k]
  }

  lemma ActivateKeeps(f: Forge, k: UnitKey, listeners: map<UnitKey, seq<SocketEntry>>)
    requires k < |f.arena|
    ensures SocketsOpened(f, ActivateSocket(f, k, listeners).0)
  {
    var u := f.arena[k];
    if u.kind.Socket? {
      if k in listeners {
        var kind := u.kind.(activation := Some(listeners[k]));
        assert kind.Static() == u.kind.Static();
        PutKeeps(f, k, u.(kind := kind, state := Listening));
      } else {
        StateKeeps(f, k, Starting);
      }
    }
  }

  lemma OpenCases(f: Forge, name: string, listeners: map<UnitKey, seq<SocketEntry>>)
    ensures OpenSocket(f, name, listeners).0 == f
         || (name in f.nameIndex && f.nameIndex[name] < |f.arena| && f.arena[f.nameIndex[name]].state != Listening
             && OpenSocket(f, name, listeners).0 == ActivateSocket(f, f.nameIndex[name], listeners).0)
  {
  }

  lemma OpenKeeps(f: Forge, name: string, listeners: map<UnitKey, seq<SocketEntry>>)
    ensures SocketsOpened(f, OpenSocket(f, name, listeners).0)
  {
    OpenCases(f, name, listeners);
    if name in f.nameIndex && f.nameIndex[name] < |f.arena| {
      ActivateKeeps(f, f.nameIndex[name], listeners);
    }
  }

  lemma {:induction false} CollectKeeps(f: Forge, names: seq<string>, listeners: map<UnitKey, seq<SocketEntry>>)
    ensures SocketsOpened(f, CollectSockets(f, names, listeners).0)
    decreases |names|
  {
    if names == [] {
    } else {
      var (f1, r) := OpenSocket(f, names[0], listeners);
      OpenKeeps(f, names[0], listeners);
      if r.Ok? {
        CollectKeeps(f1, names[1..], listeners);
        ShapeTrans(f, f1, CollectSockets(f1, names[1..], listeners).0);
      }
    }
  }
}
