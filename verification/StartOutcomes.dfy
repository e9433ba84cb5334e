/** When a start succeeds and what it leaves, said of the fields of the units and of what the environment decides. */
module StartOutcomes {
  import opened Units
  import opened ForgeModel
  import opened Supervision
  import opened Keeping
  import opened NamedGraphs
  import opened ExitOutcomes

  // ---- Sockets ----------------------------------------------------------------------------------------------

  /** A socket unit after an attempt to open it: listening with the entries opened, or left where it failed. */
  function Opened(u: Unit, k: UnitKey, listeners: map<UnitKey, seq<SocketEntry>>): Unit
    requires u.kind.Socket?
  {
    if k in listeners then
      Unit(u.name, Socket(u.kind.activates, u.kind.after, Some(listeners[k])), Listening, u.dependencies, u.lastExit)
    else Unit(u.name, u.kind, Starting, u.dependencies, u.lastExit)
  }

  /** A socket unit listens, with the entries its listener gave, exactly if its listener can be opened. */
  lemma SocketExact(f: Forge, k: UnitKey, listeners: map<UnitKey, seq<SocketEntry>>)
    requires k < |f.arena| && f.arena[k].kind.Socket?
    ensures var (g, r) := ActivateSocket(f, k, listeners);
            && (r.Ok? <==> k in listeners) && (r.Err? ==> r.error == SocketFailed(f.arena[k].name))
            && g == f.(arena := f.arena[k := Opened(f.arena[k], k, listeners)])
  {
  }

  /** The name is that of a socket unit that listens, or whose listener can be opened. */
  predicate Opens(f: Forge, name: string, listeners: map<UnitKey, seq<SocketEntry>>) {
    && name in f.nameIndex && f.nameIndex[name] < |f.arena| && f.arena[f.nameIndex[name]].kind.Socket?
    && (f.arena[f.nameIndex[name]].state == Listening || f.nameIndex[name] in listeners)
  }

  predicate AllOpen(f: Forge, names: seq<string>, listeners: map<UnitKey, seq<SocketEntry>>) {
    forall i | 0 <= i < |names| :: Opens(f, names[i], listeners)
  }

  /** What becomes of unit k when the named sockets are opened: only a named socket that did not listen changes. */
  ghost predicate AfterOpening(f: Forge, names: seq<string>, listeners: map<UnitKey, seq<SocketEntry>>, k: UnitKey,
        v: Unit)
    requires k < |f.arena|
  {
    v == f.arena[k]
    || (f.arena[k].kind.Socket? && f.arena[k].state != Listening && f.arena[k].name in names
        && v == Opened(f.arena[k], k, listeners))
  }

  lemma OpenExact(f: Forge, name: string, listeners: map<UnitKey, seq<SocketEntry>>)
    requires NamesBijective(f)
    ensures var (g, r) := OpenSocket(f, name, listeners);
            && (r.Ok? <==> Opens(f, name, listeners))
            && |g.arena| == |f.arena| && g == f.(arena := g.arena) && NamesBijective(g)
            && (forall k | 0 <= k < |f.arena| :: AfterOpening(f, [name], listeners, k, g.arena[k]))
            && (r.Ok? ==> g.arena[g.nameIndex[name]].state == Listening)
  {
    if name in f.nameIndex && f.arena[f.nameIndex[name]].kind.Socket? {
      var k := f.nameIndex[name];
      SocketExact(f, k, listeners);
      OpenedNames(f, k, listeners);
      assert f.arena[k].name == name;
      hide NamesBijective, ActivateSocket;
    }
  }

  lemma OpenedNames(f: Forge, k: UnitKey, listeners: map<UnitKey, seq<SocketEntry>>)
    requires NamesBijective(f) && k < |f.arena| && f.arena[k].kind.Socket?
    ensures NamesBijective(f.(arena := f.arena[k := Opened(f.arena[k], k, listeners)]))
  {
  }

  lemma OpensStill(f: Forge, g: Forge, first: string, listeners: map<UnitKey, seq<SocketEntry>>, name: string)
    requires NamesBijective(f) && |g.arena| == |f.arena| && g == f.(arena := g.arena)
    requires Opens(f, first, listeners) && g.arena[g.nameIndex[first]].state == Listening
    requires forall k | 0 <= k < |f.arena| :: AfterOpening(f, [first], listeners, k, g.arena[k])
    ensures Opens(g, name, listeners) <==> Opens(f, name, listeners)
  {
    if name in f.nameIndex {
      assert AfterOpening(f, [first], listeners, f.nameIndex[name], g.arena[f.nameIndex[name]]);
    }
  }

  lemma OpeningOn(f: Forge, g: Forge, names: seq<string>, listeners: map<UnitKey, seq<SocketEntry>>, k: UnitKey,
        v: Unit)
    requires names != [] && k < |f.arena| == |g.arena| && g.nameIndex == f.nameIndex && NamesBijective(f)
    requires Opens(f, names[0], listeners) && g.arena[g.nameIndex[names[0]]].state == Listening
    requires AfterOpening(f, [names[0]], listeners, k, g.arena[k])
    requires AfterOpening(g, names[1..], listeners, k, v)
    ensures AfterOpening(f, names, listeners, k, v)
  {
    assert names == [names[0]] + names[1..];
  }

  /**
    Opening the named sockets works exactly if each name is that of a socket unit that listens or can be opened;
    whatever the outcome, only named sockets that did not listen change.
   */
  lemma {:induction false} CollectExact(f: Forge, names: seq<string>, listeners: map<UnitKey, seq<SocketEntry>>)
    requires NamesBijective(f)
    ensures var (g, r) := CollectSockets(f, names, listeners);
            && (r.Ok? <==> AllOpen(f, names, listeners))
            && |g.arena| == |f.arena| && g == f.(arena := g.arena)
            && forall k | 0 <= k < |f.arena| :: AfterOpening(f, names, listeners, k, g.arena[k])
    decreases |names|
  {
    hide OpenSocket, NamesBijective, AfterOpening, Opens;
    if names == [] {
      NothingOpened(f, listeners);
    } else {
      var (f1, r1) := OpenSocket(f, names[0], listeners);
      OpenExact(f, names[0], listeners);
      var (g, r) := CollectSockets(f, names, listeners);
      if r1.Ok? {
        CollectExact(f1, names[1..], listeners);
        forall i | 0 <= i < |names| ensures Opens(f1, names[i], listeners) <==> Opens(f, names[i], listeners) {
          OpensStill(f, f1, names[0], listeners, names[i]);
        }
        assert names == [names[0]] + names[1..];
        forall k | 0 <= k < |f.arena| ensures AfterOpening(f, names, listeners, k, g.arena[k]) {
          OpeningOn(f, f1, names, listeners, k, g.arena[k]);
        }
      } else {
        forall k | 0 <= k < |f.arena| ensures AfterOpening(f, names, listeners, k, g.arena[k]) {
          OpeningMore(f, names, listeners, k, g.arena[k]);
        }
      }
    }
  }

  lemma NothingOpened(f: Forge, listeners: map<UnitKey, seq<SocketEntry>>)
    ensures forall k | 0 <= k < |f.arena| :: AfterOpening(f, [], listeners, k, f.arena[k])
  {
  }

  lemma OpeningMore(f: Forge, names: seq<string>, listeners: map<UnitKey, seq<SocketEntry>>, k: UnitKey, v: Unit)
    requires names != [] && k < |f.arena| && AfterOpening(f, [names[0]], listeners, k, v)
    ensures AfterOpening(f, names, listeners, k, v)
  {
  }

  /** What is wrong with a name whose socket does not open: unknown, no socket, or a listener that fails. */
  function OpenError(f: Forge, name: string): ForgeError {
    if name !in f.nameIndex then MissingUnit("service", name)
    else if f.nameIndex[name] < |f.arena| && !f.arena[f.nameIndex[name]].kind.Socket? then InvalidOperation(name)
    else SocketFailed(name)
  }

  /** Name i is the first whose socket does not open. */
  ghost predicate FirstClosed(f: Forge, names: seq<string>, listeners: map<UnitKey, seq<SocketEntry>>, i: nat) {
    i < |names| && AllOpen(f, names[..i], listeners) && !Opens(f, names[i], listeners)
  }

  /** An error while collecting is that of the first name whose socket does not open. */
  lemma {:induction false} CollectFails(f: Forge, names: seq<string>, listeners: map<UnitKey, seq<SocketEntry>>)
    requires NamesBijective(f) && !AllOpen(f, names, listeners)
    ensures exists i: nat :: FirstClosed(f, names, listeners, i)
                             && CollectSockets(f, names, listeners).1 == Err(OpenError(f, names[i]))
    decreases |names|
  {
    OpenExact(f, names[0], listeners);
    var (f1, r1) := OpenSocket(f, names[0], listeners);
    assert names == [names[0]] + names[1..];
    if r1.Ok? {
      forall n ensures Opens(f1, n, listeners) <==> Opens(f, n, listeners)
               ensures OpenError(f1, n) == OpenError(f, n)
      {
        OpensStill(f, f1, names[0], listeners, n);
        OpenErrorStill(f, f1, names[0], listeners, n);
      }
      hide OpenSocket, NamesBijective, AfterOpening, Opens, OpenError;
      CollectFails(f1, names[1..], listeners);
      var i: nat :| FirstClosed(f1, names[1..], listeners, i)
                    && CollectSockets(f1, names[1..], listeners).1 == Err(OpenError(f1, names[1..][i]));
      FirstClosedBehind(f, f1, names, listeners, i);
    } else {
      OpenFails(f, names[0], listeners);
      assert FirstClosed(f, names, listeners, 0);
    }
  }

  lemma FirstClosedBehind(f: Forge, g: Forge, names: seq<string>, listeners: map<UnitKey, seq<SocketEntry>>, i: nat)
    requires names != [] && Opens(f, names[0], listeners) && FirstClosed(g, names[1..], listeners, i)
    requires forall n :: Opens(g, n, listeners) <==> Opens(f, n, listeners)
    ensures FirstClosed(f, names, listeners, i + 1)
  {
    hide Opens;
    var open, rest := names[..i + 1], names[1..][..i];
    forall j | 0 <= j < |open| ensures Opens(f, open[j], listeners) {
      if j > 0 { assert rest[j - 1] == open[j] && Opens(g, rest[j - 1], listeners); }
    }
  }

  lemma OpenErrorStill(f: Forge, g: Forge, first: string, listeners: map<UnitKey, seq<SocketEntry>>, name: string)
    requires NamesBijective(f) && |g.arena| == |f.arena| && g.nameIndex == f.nameIndex
    requires forall k | 0 <= k < |f.arena| :: AfterOpening(f, [first], listeners, k, g.arena[k])
    ensures OpenError(g, name) == OpenError(f, name)
  {
    if name in f.nameIndex {
      assert AfterOpening(f, [first], listeners, f.nameIndex[name], g.arena[f.nameIndex[name]]);
    }
  }

  lemma OpenFails(f: Forge, name: string, listeners: map<UnitKey, seq<SocketEntry>>)
    requires NamesBijective(f) && !Opens(f, name, listeners)
    ensures OpenSocket(f, name, listeners).1 == Err(OpenError(f, name))
  {
  }

  // ---- Starts -----------------------------------------------------------------------------------------------

  /** The child gets through the checks of its service type. */
  predicate ComesUp(t: ServiceType, w: World) {
    && w.ready
    && (t == Forking || t == Oneshot ==> w.waited == Some(Exited(0)))
    && (t == Forking ==> w.daemon.Some?)
  }

  /** The start gets as far as a running child. */
  predicate Launches(f: Forge, u: Unit, w: World)
    requires u.kind.Service?
  {
    u.name != "forge-early" && !w.adopted && w.prepared && AllOpen(f, u.kind.sockets, w.sockets) && w.spawned.Some?
  }

  /** The start of service u on state f works: early boot, adoption, or a child that comes up. */
  predicate Succeeds(f: Forge, u: Unit, w: World)
    requires u.kind.Service?
  {
    if u.name == "forge-early" then w.earlyBoot
    else w.adopted || (Launches(f, u, w) && ComesUp(u.kind.serviceType, w))
  }

  /** The process that a service runs once its start is over: none unless the child came up, nor for a oneshot. */
  function Stays(t: ServiceType, w: World): Option<Pid> {
    if !ComesUp(t, w) || t == Oneshot then None else if t == Forking then w.daemon else w.spawned
  }

  /** The exits that are reaped during the start: those seen while waiting for the child. */
  function Awaited(t: ServiceType, w: World): seq<(Pid, ExitStatus)> {
    if w.ready && (t == Forking || t == Oneshot) then w.reaped else []
  }

  /** The index once the reported pids are gone, and the process that stays is recorded. */
  ghost predicate StartedIndex(before: map<Pid, UnitKey>, exits: seq<(Pid, ExitStatus)>, stays: Option<Pid>, k: UnitKey,
        after: map<Pid, UnitKey>) {
    && (forall p :: p in after <==> stays == Some(p) || (p in before && !Reported(exits, p)))
    && (forall p | p in after :: after[p] == if stays == Some(p) then k else before[p])
  }

  lemma NothingReported(index: map<Pid, UnitKey>, k: UnitKey)
    ensures StartedIndex(index, [], None, k, index)
  {
  }

  /** The service as its child leaves it: dead or failed after a oneshot, running if it came up. */
  ghost predicate LaunchedUnit(u: Unit, t: ServiceType, w: World, v: Unit) {
    && u.kind.Service? && v.kind == u.kind.(pid := Stays(t, w))
    && (ComesUp(t, w) ==> v.state == if t == Oneshot then Dead else Running)
    && (!w.ready ==> v.state == u.state)
    && (w.ready && t == Oneshot && w.waited.Some? && w.waited != Some(Exited(0)) ==> v.state == Failed)
  }

  /** What becomes of the service, the index and the other units once the child runs. */
  ghost predicate LaunchedAs(f: Forge, k: UnitKey, w: World, g: Forge)
    requires k < |f.arena| && f.arena[k].kind.Service?
  {
    var t := f.arena[k].kind.serviceType;
    && |g.arena| == |f.arena| && LaunchedUnit(f.arena[k], t, w, g.arena[k])
    && StartedIndex(f.pidIndex, Awaited(t, w), Stays(t, w), k, g.pidIndex)
    && forall j | 0 <= j < |f.arena| && j != k :: ReapedUnit(f, Awaited(t, w), j, g.arena[j])
  }

  lemma LaunchedResult(f: Forge, k: UnitKey, pid: Pid, w: World)
    requires k < |f.arena| && f.arena[k].kind.Service? && w.spawned == Some(pid)
    ensures var r, t := Launched(f, k, pid, w).1, f.arena[k].kind.serviceType;
            && (r.Ok? <==> ComesUp(t, w)) && (r.Err? ==> r.error == SpawnFailed(f.arena[k].name))
            && (r.Ok? ==> r.value == if t == Forking then w.daemon.value else pid)
  {
    ReapKeeps(f, w.reaped);
  }

  lemma LaunchedExact(f: Forge, k: UnitKey, pid: Pid, w: World)
    requires IndexLive(f) && k < |f.arena| && f.arena[k].kind.Service? && w.spawned == Some(pid)
    ensures LaunchedAs(f, k, w, Launched(f, k, pid, w).0)
  {
    hide Launched, LaunchedUnit, StartedIndex, ReapedUnit;
    var t := f.arena[k].kind.serviceType;
    if w.ready && (t == Forking || t == Oneshot) {
      ReapExact(f, w.reaped);
      ReapKeeps(f, w.reaped);
      AwaitedExact(f, k, pid, w, Reap(f, w.reaped));
    } else {
      NothingReaped(f);
      AtOnceExact(f, k, pid, w);
    }
  }

  lemma AtOnceExact(f: Forge, k: UnitKey, pid: Pid, w: World)
    requires k < |f.arena| && f.arena[k].kind.Service? && w.spawned == Some(pid)
    requires !w.ready || (f.arena[k].kind.serviceType != Forking && f.arena[k].kind.serviceType != Oneshot)
    ensures var g, t := Launched(f, k, pid, w).0, f.arena[k].kind.serviceType;
            && |g.arena| == |f.arena| && LaunchedUnit(f.arena[k], t, w, g.arena[k])
            && StartedIndex(f.pidIndex, [], Stays(t, w), k, g.pidIndex)
            && forall j | 0 <= j < |f.arena| && j != k :: g.arena[j] == f.arena[j]
  {
  }

  lemma AwaitedExact(f: Forge, k: UnitKey, pid: Pid, w: World, mid: Forge)
    requires k < |f.arena| && f.arena[k].kind.Service? && w.spawned == Some(pid)
    requires w.ready && (f.arena[k].kind.serviceType == Forking || f.arena[k].kind.serviceType == Oneshot)
    requires mid == Reap(f, w.reaped) && |mid.arena| == |f.arena|
    requires ReapedIndex(f.pidIndex, w.reaped, mid.pidIndex) && ReapedUnit(f, w.reaped, k, mid.arena[k])
    ensures var g, t := Launched(f, k, pid, w).0, f.arena[k].kind.serviceType;
            && |g.arena| == |f.arena| && LaunchedUnit(f.arena[k], t, w, g.arena[k])
            && StartedIndex(f.pidIndex, w.reaped, Stays(t, w), k, g.pidIndex)
            && forall j | 0 <= j < |f.arena| && j != k :: g.arena[j] == mid.arena[j]
  {
    var t := f.arena[k].kind.serviceType;
    ReapedKind(f, w.reaped, k, mid.arena[k]);
    IndexThen(f.pidIndex, w.reaped, mid.pidIndex, Stays(t, w), k);
    AwaitedState(f, k, pid, w, mid);
    hide Launched, Reap, ReapedIndex, ReapedUnit, StartedIndex;
  }

  lemma AwaitedState(f: Forge, k: UnitKey, pid: Pid, w: World, mid: Forge)
    requires k < |f.arena| && f.arena[k].kind.Service? && w.spawned == Some(pid)
    requires w.ready && (f.arena[k].kind.serviceType == Forking || f.arena[k].kind.serviceType == Oneshot)
    requires mid == Reap(f, w.reaped) && |mid.arena| == |f.arena| && mid.arena[k].kind.Service?
    ensures var g, t := Launched(f, k, pid, w).0, f.arena[k].kind.serviceType;
            && g.pidIndex == (if Stays(t, w).Some? then mid.pidIndex[Stays(t, w).value := k] else mid.pidIndex)
            && g.arena == mid.arena[k := mid.arena[k].(kind := mid.arena[k].kind.(pid := Stays(t, w)),
                                                       state := WaitedState(t, w, mid.arena[k].state))]
  {
    AwaitedForm(f, k, pid, w, mid);
    hide Launched, Reap;
    if ComesUp(f.arena[k].kind.serviceType, w) && f.arena[k].kind.serviceType == Forking {
      RecordedState(mid, k, w.daemon.value);
      hide Record, SetSlot, SetState;
    } else {
      ClearedState(mid, k);
      hide Record, SetSlot, SetState;
    }
  }

  lemma AwaitedForm(f: Forge, k: UnitKey, pid: Pid, w: World, mid: Forge)
    requires k < |f.arena| && f.arena[k].kind.Service? && w.spawned == Some(pid)
    requires w.ready && (f.arena[k].kind.serviceType == Forking || f.arena[k].kind.serviceType == Oneshot)
    requires mid == Reap(f, w.reaped) && |mid.arena| == |f.arena|
    ensures var t, cleared := f.arena[k].kind.serviceType, SetSlot(mid, k, None);
            && |cleared.arena| == |f.arena|
            && Launched(f, k, pid, w).0
            == if ComesUp(t, w) && t == Forking then Record(mid, k, w.daemon.value)
               else if t == Oneshot && w.waited.Some? then SetState(cleared, k, if ComesUp(t, w) then Dead else Failed)
               else cleared
  {
    hide Reap, Record, SetState, WithPid;
  }

  lemma RecordedState(f: Forge, k: UnitKey, pid: Pid)
    requires k < |f.arena| && f.arena[k].kind.Service?
    ensures Record(f, k, pid).pidIndex == f.pidIndex[pid := k]
    ensures Record(f, k, pid).arena
         == f.arena[k := f.arena[k].(kind := f.arena[k].kind.(pid := Some(pid)), state := Running)]
  {
  }

  lemma ClearedState(f: Forge, k: UnitKey)
    requires k < |f.arena| && f.arena[k].kind.Service?
    ensures var g := SetSlot(f, k, None);
            && |g.arena| == |f.arena| && g.pidIndex == f.pidIndex
            && g.arena == f.arena[k := f.arena[k].(kind := f.arena[k].kind.(pid := None), state := f.arena[k].state)]
            && forall s :: SetState(g, k, s).pidIndex == f.pidIndex
                 && SetState(g, k, s).arena
                 == f.arena[k := f.arena[k].(kind := f.arena[k].kind.(pid := None), state := s)]
  {
  }

  /** The state that waiting for the child ends in; a child that could not be awaited leaves it. */
  function WaitedState(t: ServiceType, w: World, s: UnitState): UnitState {
    if ComesUp(t, w) then (if t == Oneshot then Dead else Running)
    else if t == Oneshot && w.waited.Some? then Failed else s
  }

  lemma IndexThen(before: map<Pid, UnitKey>, exits: seq<(Pid, ExitStatus)>, mid: map<Pid, UnitKey>,
                  stays: Option<Pid>, k: UnitKey)
    requires ReapedIndex(before, exits, mid)
    ensures StartedIndex(before, exits, stays, k, if stays.Some? then mid[stays.value := k] else mid)
  {
  }

  lemma ReapedKind(f: Forge, exits: seq<(Pid, ExitStatus)>, k: UnitKey, v: Unit)
    requires k < |f.arena| && f.arena[k].kind.Service? && ReapedUnit(f, exits, k, v)
    ensures v.kind.Service? && forall pid :: v.kind.(pid := pid) == f.arena[k].kind.(pid := pid)
    ensures v.name == f.arena[k].name
  {
    if i: nat :| LastReport(f, exits, i, k) && Exits(f.arena[k], v, exits[i].1) {
    }
  }

  /** The state in which the child starts to run. */
  ghost function AtLaunch(f: Forge, k: UnitKey, w: World): Forge
    requires k < |f.arena| && f.arena[k].kind.Service?
  {
    var f2 := BeforeLaunch(f, k, w);
    if k < |f2.arena| then SetSlot(f2, k, w.spawned) else f2
  }

  /** Everything but named sockets is at the launch as it was; the service is starting, and records the child. */
  ghost predicate Ready(f: Forge, k: UnitKey, w: World, g: Forge)
    requires k < |f.arena| && f.arena[k].kind.Service?
  {
    && |g.arena| == |f.arena| && g == f.(arena := g.arena)
    && g.arena[k] == f.arena[k].(kind := f.arena[k].kind.(pid := w.spawned), state := Starting)
    && forall j | 0 <= j < |f.arena| && j != k :: AfterOpening(f, f.arena[k].kind.sockets, w.sockets, j, g.arena[j])
  }

  /** Marking a service as starting affects no socket. */
  lemma StartingOpens(f: Forge, k: UnitKey, names: seq<string>, listeners: map<UnitKey, seq<SocketEntry>>)
    requires NamesBijective(f) && k < |f.arena| && f.arena[k].kind.Service?
    ensures var f1 := SetState(f, k, Starting);
            NamesBijective(f1) && (AllOpen(f1, names, listeners) <==> AllOpen(f, names, listeners))
            && forall j, v | 0 <= j < |f.arena| && j != k ::
                 AfterOpening(f1, names, listeners, j, v) <==> AfterOpening(f, names, listeners, j, v)
  {
    var f1 := SetState(f, k, Starting);
    forall i | 0 <= i < |names| ensures Opens(f1, names[i], listeners) <==> Opens(f, names[i], listeners) {}
  }

  lemma BeforeLaunchExact(f: Forge, k: UnitKey, w: World)
    requires NamesBijective(f) && k < |f.arena| && f.arena[k].kind.Service?
    ensures Ready(f, k, w, AtLaunch(f, k, w))
    ensures var g := BeforeLaunch(f, k, w);
            |g.arena| == |f.arena| && g.pidIndex == f.pidIndex && g.arena[k] == f.arena[k].(state := Starting)
  {
    hide NamesBijective, AllOpen;
    var f1, names := SetState(f, k, Starting), f.arena[k].kind.sockets;
    StartingOpens(f, k, names, w.sockets);
    CollectExact(f1, names, w.sockets);
    hide CollectSockets;
    var f2 := BeforeLaunch(f, k, w);
    assert AfterOpening(f1, names, w.sockets, k, f2.arena[k]);
    forall j | 0 <= j < |f.arena| && j != k ensures AfterOpening(f, names, w.sockets, j, f2.arena[j]) {}
  }

  /** How a start that gets as far as a child relates to the launch. */
  lemma StartForm(f: Forge, k: UnitKey, w: World)
    requires NamesBijective(f) && k < |f.arena| && f.arena[k].kind.Service?
    ensures var u := f.arena[k];
            var g := AtLaunch(f, k, w);
            && |g.arena| == |f.arena| && g.arena[k].kind.Service?
            && (Launches(f, u, w) ==> StartService(f, k, w) == Launched(g, k, w.spawned.value, w))
            && (!Launches(f, u, w) ==> (StartService(f, k, w).1.Ok? <==> Succeeds(f, u, w)))
  {
    BeforeLaunchExact(f, k, w);
    StartingOpens(f, k, f.arena[k].kind.sockets, w.sockets);
    CollectExact(SetState(f, k, Starting), f.arena[k].kind.sockets, w.sockets);
    hide NamesBijective, AllOpen, AfterOpening, Ready, CollectSockets, Launched;
  }

  /** A start returns Ok exactly if early boot works, the service is adopted, or a child is spawned and comes up. */
  lemma StartExact(f: Forge, k: UnitKey, w: World)
    requires NamesBijective(f) && k < |f.arena| && f.arena[k].kind.Service?
    ensures StartService(f, k, w).1.Ok? <==> Succeeds(f, f.arena[k], w)
  {
    StartForm(f, k, w);
    if Launches(f, f.arena[k], w) {
      BeforeLaunchExact(f, k, w);
      LaunchedResult(AtLaunch(f, k, w), k, w.spawned.value, w);
    }
  }

  /** The error of a start: of a unit that is no service, of the first socket that does not open, or of the spawn. */
  lemma StartFails(f: Forge, k: UnitKey, w: World)
    requires NamesBijective(f) && k < |f.arena| && StartService(f, k, w).1.Err?
    ensures var u, e := f.arena[k], StartService(f, k, w).1.error;
            if !u.kind.Service? then e == NotService(u.name)
            else if u.name != "forge-early" && w.prepared && !AllOpen(f, u.kind.sockets, w.sockets) then
              exists i: nat :: FirstClosed(f, u.kind.sockets, w.sockets, i) && e == OpenError(f, u.kind.sockets[i])
            else e == SpawnFailed(u.name)
  {
    var u := f.arena[k];
    if u.kind.Service? {
      var f1, names := SetState(f, k, Starting), u.kind.sockets;
      StartingOpens(f, k, names, w.sockets);
      StartExact(f, k, w);
      StartForm(f, k, w);
      CollectExact(f1, names, w.sockets);
      if Launches(f, u, w) {
        BeforeLaunchExact(f, k, w);
        LaunchedResult(AtLaunch(f, k, w), k, w.spawned.value, w);
      } else if u.name != "forge-early" && w.prepared && !AllOpen(f, names, w.sockets) {
        CollectFails(f1, names, w.sockets);
        StartingFails(f, k, names, w.sockets);
        ClosedForm(f, k, w);
      } else {
        hide NamesBijective, AllOpen, AfterOpening, CollectSockets, Launched;
      }
    }
  }

  lemma StartingFails(f: Forge, k: UnitKey, names: seq<string>, listeners: map<UnitKey, seq<SocketEntry>>)
    requires NamesBijective(f) && k < |f.arena| && f.arena[k].kind.Service?
    ensures var f1 := SetState(f, k, Starting);
            forall i: nat | FirstClosed(f1, names, listeners, i) ::
              FirstClosed(f, names, listeners, i) && OpenError(f1, names[i]) == OpenError(f, names[i])
  {
    var f1 := SetState(f, k, Starting);
    forall n ensures Opens(f1, n, listeners) <==> Opens(f, n, listeners) {}
    forall n ensures OpenError(f1, n) == OpenError(f, n) {}
    hide Opens, OpenError;
  }

  lemma ClosedForm(f: Forge, k: UnitKey, w: World)
    requires k < |f.arena| && f.arena[k].kind.Service? && f.arena[k].name != "forge-early" && w.prepared
    requires StartService(f, k, w).1.Err?
    requires CollectSockets(SetState(f, k, Starting), f.arena[k].kind.sockets, w.sockets).1.Err?
    ensures StartService(f, k, w).1.error
         == CollectSockets(SetState(f, k, Starting), f.arena[k].kind.sockets, w.sockets).1.error
  {
    hide CollectSockets, Launched;
  }

  /**
    What a start leaves that gets as far as a child. If the child comes up, a oneshot is dead without a process, and
    any other service runs and has the process that stays both in its slot and indexed to it. If it does not, the slot
    is empty. The index gains nothing else, and loses exactly the exits reported while waiting.
   */
  lemma StartLaunched(f: Forge, k: UnitKey, w: World)
    requires NamesBijective(f) && IndexLive(f)
    requires k < |f.arena| && f.arena[k].kind.Service? && Launches(f, f.arena[k], w)
    ensures var (g, r) := StartService(f, k, w);
            var t := f.arena[k].kind.serviceType;
            && |g.arena| == |f.arena| && LaunchedUnit(f.arena[k].(state := Starting), t, w, g.arena[k])
            && StartedIndex(f.pidIndex, Awaited(t, w), Stays(t, w), k, g.pidIndex)
            && (forall j | 0 <= j < |f.arena| && j != k && !f.arena[j].kind.Socket? ::
                  ReapedUnit(f, Awaited(t, w), j, g.arena[j]))
            && (r.Ok? ==> Some(r.value) == if t == Forking then w.daemon else w.spawned)
  {
    hide LaunchedUnit, StartedIndex, ReapedUnit, StartService, Launched, Succeeds, AllOpen;
    StartForm(f, k, w);
    BeforeLaunchExact(f, k, w);
    var f3, t := AtLaunch(f, k, w), f.arena[k].kind.serviceType;
    LaunchedExact(f3, k, w.spawned.value, w);
    LaunchedResult(f3, k, w.spawned.value, w);
    var g := StartService(f, k, w).0;
    LaunchedSame(f.arena[k].(state := Starting), f3.arena[k], t, w, g.arena[k]);
    forall j | 0 <= j < |f.arena| && j != k && !f.arena[j].kind.Socket?
      ensures ReapedUnit(f, Awaited(t, w), j, g.arena[j])
    {
      ReapedSame(f, f3, Awaited(t, w), j, g.arena[j]);
    }
  }

  lemma LaunchedSame(u: Unit, v: Unit, t: ServiceType, w: World, x: Unit)
    requires u.kind.Service? && v == u.(kind := u.kind.(pid := w.spawned)) && LaunchedUnit(v, t, w, x)
    ensures LaunchedUnit(u, t, w, x)
  {
  }

  lemma ReapedSame(f: Forge, g: Forge, exits: seq<(Pid, ExitStatus)>, k: UnitKey, v: Unit)
    requires k < |f.arena| == |g.arena| && f.arena[k] == g.arena[k] && f.pidIndex == g.pidIndex
    requires ReapedUnit(g, exits, k, v)
    ensures ReapedUnit(f, exits, k, v)
  {
    forall i: nat ensures ReportsUnit(f, exits, i, k) <==> ReportsUnit(g, exits, i, k) {}
    if i: nat :| LastReport(g, exits, i, k) && Exits(g.arena[k], v, exits[i].1) {
      assert LastReport(f, exits, i, k);
    }
  }

  /** A start that gets no child changes no slot and no index; only early boot and adoption end it well. */
  lemma StartHalted(f: Forge, k: UnitKey, w: World)
    requires NamesBijective(f) && k < |f.arena| && f.arena[k].kind.Service? && !Launches(f, f.arena[k], w)
    ensures var (g, r) := StartService(f, k, w);
            var u := f.arena[k];
            && |g.arena| == |f.arena| && g == f.(arena := g.arena)
            && g.arena[k] == u.(state := if r.Err? then Starting
                                         else if u.name == "forge-early" then Dead else Running)
            && (forall j | 0 <= j < |f.arena| && j != k :: AfterOpening(f, u.kind.sockets, w.sockets, j, g.arena[j]))
            && (r.Ok? ==> r.value == 0)
  {
    var names := f.arena[k].kind.sockets;
    BeforeLaunchExact(f, k, w);
    HaltedForm(f, k, w);
    UnopenedStays(f, names, w.sockets);
    hide NamesBijective, StartService, AfterOpening, BeforeLaunch, Launches, Succeeds, Opens;
    var g := StartService(f, k, w).0;
    if g != BeforeLaunch(f, k, w) {
      assert forall j | 0 <= j < |f.arena| && j != k :: g.arena[j] == f.arena[j];
    } else {
      OpenedOthers(f, k, w);
    }
  }

  lemma OpenedOthers(f: Forge, k: UnitKey, w: World)
    requires NamesBijective(f) && k < |f.arena| && f.arena[k].kind.Service?
    ensures var g := BeforeLaunch(f, k, w);
            && |g.arena| == |f.arena| && g == f.(arena := g.arena)
            && forall j | 0 <= j < |f.arena| && j != k ::
                 AfterOpening(f, f.arena[k].kind.sockets, w.sockets, j, g.arena[j])
  {
    BeforeLaunchExact(f, k, w);
    hide AfterOpening, NamesBijective;
    var g := BeforeLaunch(f, k, w);
    CollectKeeps(SetState(f, k, Starting), f.arena[k].kind.sockets, w.sockets);
    hide BeforeLaunch;
    forall j | 0 <= j < |f.arena| && j != k
      ensures AfterOpening(f, f.arena[k].kind.sockets, w.sockets, j, g.arena[j])
    {
      assert AtLaunch(f, k, w).arena[j] == g.arena[j];
    }
  }

  /** Where such a start halts. */
  lemma HaltedForm(f: Forge, k: UnitKey, w: World)
    requires NamesBijective(f) && k < |f.arena| && f.arena[k].kind.Service? && !Launches(f, f.arena[k], w)
    ensures var (g, r) := StartService(f, k, w);
            var u := f.arena[k];
            && (r.Ok? ==> r.value == 0 && (u.name == "forge-early" || w.adopted))
            && ((g == BeforeLaunch(f, k, w) && r.Err?)
                || g == f.(arena := f.arena[k := u.(state := if r.Err? then Starting
                                                             else if u.name == "forge-early" then Dead else Running)]))
  {
    StartingOpens(f, k, f.arena[k].kind.sockets, w.sockets);
    CollectExact(SetState(f, k, Starting), f.arena[k].kind.sockets, w.sockets);
    hide NamesBijective, AllOpen, AfterOpening, CollectSockets, Launched;
    SetTwice(f, k);
  }

  lemma SetTwice(f: Forge, k: UnitKey)
    requires k < |f.arena|
    ensures forall s :: SetState(SetState(f, k, Starting), k, s) == SetState(f, k, s)
  {
  }

  lemma UnopenedStays(f: Forge, names: seq<string>, listeners: map<UnitKey, seq<SocketEntry>>)
    ensures forall j | 0 <= j < |f.arena| :: AfterOpening(f, names, listeners, j, f.arena[j])
  {
  }

  lemma SoundBoth(f: Forge)
    requires Sound(f)
    ensures NamesBijective(f) && IndexLive(f)
  {
  }

  /** Activating a further unit affects no start. */
  lemma ActivatedStarts(f: Forge, g: Forge, k: UnitKey, w: World)
    requires Sound(f) && k < |f.arena| && f.arena[k].kind.Service?
    requires g == f.(activeUnits := f.activeUnits + {k})
    ensures Sound(g)
    ensures Launches(g, f.arena[k], w) <==> Launches(f, f.arena[k], w)
    ensures Succeeds(g, f.arena[k], w) <==> Succeeds(f, f.arena[k], w)
    ensures StartService(g, k, w).0.activeUnits == g.activeUnits
  {
    hide ComesUp, StartService;
    ActiveSound(f, g, k);
    StartKeeps(g, k, w);
    hide Sound;
    forall i | 0 <= i < |f.arena[k].kind.sockets|
      ensures Opens(f, f.arena[k].kind.sockets[i], w.sockets) <==> Opens(g, f.arena[k].kind.sockets[i], w.sockets) {}
  }

  lemma ServiceByName(f: Forge, name: string, k: UnitKey, w: World)
    requires Sound(f) && Lookup(f, name) == Some(k) && k < |f.arena| && f.arena[k].kind.Service?
    ensures var (g, r) := StartByName(f, name, w);
            (r.Ok? <==> Succeeds(f, f.arena[k], w)) && g.activeUnits == f.activeUnits + {k}
  {
    hide StartService, Succeeds;
    var f1 := f.(activeUnits := f.activeUnits + {k});
    ActivatedStarts(f, f1, k, w);
    SoundBoth(f1);
    StartExact(f1, k, w);
  }

  /**
    Starting by name works exactly if a service answers to the name and its start succeeds. The service is active from
    then on, whether or not its start succeeds; without a service nothing changes.
   */
  lemma StartByNameExact(f: Forge, name: string, w: World)
    requires Sound(f)
    ensures var (g, r) := StartByName(f, name, w);
            && (r.Ok? <==> exists k: UnitKey :: AnswersService(f, name, k) && Succeeds(f, f.arena[k], w))
            && (forall k: UnitKey | AnswersService(f, name, k) :: g.activeUnits == f.activeUnits + {k})
            && ((forall k: UnitKey :: !AnswersService(f, name, k)) ==> g == f)
            && (r == Err(NotFound(name)) <== forall k: UnitKey :: !Answers(f, name, k))
            && (r == Err(NotService(name)) <== exists k: UnitKey :: Answers(f, name, k) && !AnswersService(f, name, k))
  {
    forall k: UnitKey ensures Answers(f, name, k) <==> Lookup(f, name) == Some(k) {
      AnswersExact(f, name, k);
    }
    if Lookup(f, name).Some? {
      var k := Lookup(f, name).value;
      AnswersExact(f, name, k);
      if f.arena[k].kind.Service? {
        ServiceByName(f, name, k, w);
      }
      hide Sound, Answers, Succeeds, StartService;
      assert Answers(f, name, k);
      assert AnswersService(f, name, k) <==> f.arena[k].kind.Service?;
    } else {
      hide Sound, Answers, Succeeds, StartService;
    }
  }

  predicate AnswersService(f: Forge, name: string, k: UnitKey) {
    Answers(f, name, k) && k < |f.arena| && f.arena[k].kind.Service?
  }

  /** And it leaves what a start leaves. */
  lemma StartByNameLaunched(f: Forge, name: string, k: UnitKey, w: World)
    requires Sound(f) && Answers(f, name, k) && f.arena[k].kind.Service? && Launches(f, f.arena[k], w)
    ensures var (g, r) := StartByName(f, name, w);
            var t := f.arena[k].kind.serviceType;
            && |g.arena| == |f.arena| && LaunchedUnit(f.arena[k].(state := Starting), t, w, g.arena[k])
            && StartedIndex(f.pidIndex, Awaited(t, w), Stays(t, w), k, g.pidIndex)
  {
    hide StartService, LaunchedUnit, StartedIndex, Launches, Sound;
    SoundBoth(f);
    AnswersExact(f, name, k);
    var f1 := f.(activeUnits := f.activeUnits + {k});
    ActivatedStarts(f, f1, k, w);
    SoundBoth(f1);
    StartLaunched(f1, k, w);
  }

  // ---- What a start leaves alone ----------------------------------------------------------------------------

  /** Every process in the index belongs to a service. */
  ghost predicate IndexesServices(f: Forge) {
    forall p | p in f.pidIndex :: f.pidIndex[p] < |f.arena| && f.arena[f.pidIndex[p]].kind.Service?
  }

  /** What g indexes is in f, or belongs to a service of f. */
  ghost predicate IndexesFrom(f: Forge, g: Forge) {
    forall p | p in g.pidIndex ::
      (p in f.pidIndex && g.pidIndex[p] == f.pidIndex[p])
      || (g.pidIndex[p] < |f.arena| && f.arena[g.pidIndex[p]].kind.Service?)
  }

  lemma StartIndexes(f: Forge, k: UnitKey, w: World)
    requires Sound(f) && k < |f.arena|
    ensures IndexesFrom(f, StartService(f, k, w).0)
  {
    SoundBoth(f);
    if f.arena[k].kind.Service? {
      if Launches(f, f.arena[k], w) {
        StartLaunched(f, k, w);
      } else {
        StartHalted(f, k, w);
      }
    }
    hide Sound, NamesBijective, IndexLive, StartService, Launches, LaunchedUnit, ReapedUnit, AfterOpening;
  }

  lemma ReapIndexes(f: Forge, exits: seq<(Pid, ExitStatus)>)
    requires Sound(f)
    ensures IndexesFrom(f, Reap(f, exits))
  {
    ReapExact(f, exits);
    hide ReapedUnit, Sound;
  }

  /** A start leaves every other socket that listens as it is. */
  lemma StartSparesListening(f: Forge, k: UnitKey, w: World, j: UnitKey)
    requires Sound(f) && IndexesServices(f) && k < |f.arena| && j < |f.arena|
    requires f.arena[j].kind.Socket? && f.arena[j].state == Listening
    ensures j < |StartService(f, k, w).0.arena| && StartService(f, k, w).0.arena[j] == f.arena[j]
  {
    SoundBoth(f);
    if f.arena[k].kind.Service? {
      BeforeLaunchExact(f, k, w);
      if Launches(f, f.arena[k], w) {
        StartForm(f, k, w);
        var g := AtLaunch(f, k, w);
        LaunchedExact(g, k, w.spawned.value, w);
        hide Sound, NamesBijective, StartService, Launched, Launches, LaunchedUnit, StartedIndex, AtLaunch;
        assert g.arena[j] == f.arena[j];
        Unreported(g, Awaited(f.arena[k].kind.serviceType, w), j);
      } else {
        StartHalted(f, k, w);
      }
    }
  }

  /** A unit that has no process in the index is not touched by reports. */
  lemma Unreported(f: Forge, exits: seq<(Pid, ExitStatus)>, k: UnitKey)
    requires k < |f.arena| && forall p | p in f.pidIndex :: f.pidIndex[p] != k
    ensures forall v | ReapedUnit(f, exits, k, v) :: v == f.arena[k]
  {
    forall i: nat ensures !ReportsUnit(f, exits, i, k) {}
  }
}
