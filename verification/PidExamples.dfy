/** Runs from the empty scheduler after which recorded pids and the index no longer agree. */
module PidExamples {
  import opened Units
  import opened ForgeModel
  import opened Supervision
  import opened Keeping
  import opened Runs
  import opened PidIndex

  const SIMPLE := Service([], [], [], [], Always, Simple, [], None)
  const FORKING := Service([], [], [], [], Always, Forking, [], None)

  /** A start whose child gets this pid and becomes ready. */
  function Spawning(pid: Pid): World {
    World(false, false, true, map[], Some(pid), true, [], None, None)
  }

  /** A start whose child exits well, and whose process search then finds this pid. */
  function Finding(pid: Pid, daemon: Pid): World {
    World(false, false, true, map[], Some(pid), true, [], Some(Exited(0)), Some(daemon))
  }

  // ---- A simple service -------------------------------------------------------------------------------------

  /** The unit records the pid, the pid is indexed to it, and nothing else changes. */
  ghost predicate Recorded(f: Forge, g: Forge, k: UnitKey, pid: Pid)
    requires k < |f.arena|
  {
    && |g.arena| == |f.arena| && g.nameIndex == f.nameIndex && g.pidIndex == f.pidIndex[pid := k]
    && g.shuttingDown == f.shuttingDown && g.pendingRestarts == f.pendingRestarts
    && (f.arena[k].kind.Service? ==> g.arena[k].kind == f.arena[k].kind.(pid := Some(pid)))
    && g.arena[k].name == f.arena[k].name
    && forall j | 0 <= j < |f.arena| && j != k :: g.arena[j] == f.arena[j]
  }

  lemma SimpleStart(f: Forge, k: UnitKey, pid: Pid)
    requires k < |f.arena| && f.arena[k].kind.Service? && f.arena[k].kind.serviceType.Simple?
    requires f.arena[k].kind.sockets == [] && f.arena[k].name != "forge-early"
    ensures Recorded(f, StartService(f, k, Spawning(pid)).0, k, pid)
  {
    var f1 := SetState(f, k, Starting);
    assert CollectSockets(f1, [], map[]).0 == f1;
    assert StartService(f, k, Spawning(pid)).0 == Record(SetSlot(f1, k, Some(pid)), k, pid);
  }

  // ---- A service started twice ------------------------------------------------------------------------------

  /**
    A running service started once more loses its index agreement: the exit of the first process then clears the slot of
    the second, which still runs, and queues the service for a restart.
   */
  lemma SecondStartLosesSlot(f: Forge, k: UnitKey, p: Pid, q: Pid, status: ExitStatus)
    requires Sound(f) && Inverse(f) && k < |f.arena| && Slot(f.arena[k]) == Some(p) && p != q
    requires f.arena[k].kind.serviceType.Simple? && f.arena[k].kind.sockets == [] && f.arena[k].name != "forge-early"
    requires f.arena[k].kind.restart.Always? && !f.shuttingDown
    ensures var g := StartService(f, k, Spawning(q)).0;
            var h := OnChildExit(g, p, status).0;
            && !AllSlotted(g) && !OthersStay(g, h, p)
            && |h.arena| == |f.arena| && Slot(h.arena[k]) == None && q in h.pidIndex && h.pidIndex[q] == k
            && h.pendingRestarts == f.pendingRestarts + [k]
  {
    var g := StartService(f, k, Spawning(q)).0;
    SimpleStart(f, k, q);
    assert SlotIndexed(f, k);
    SecondExit(f, g, k, p, q, status);
  }

  lemma SecondExit(f: Forge, g: Forge, k: UnitKey, p: Pid, q: Pid, status: ExitStatus)
    requires k < |f.arena| && Recorded(f, g, k, q) && p != q && f.arena[k].kind.Service?
    requires p in f.pidIndex && f.pidIndex[p] == k && f.arena[k].kind.restart.Always? && !f.shuttingDown
    ensures var h := OnChildExit(g, p, status).0;
            && !AllSlotted(g) && !OthersStay(g, h, p)
            && |h.arena| == |f.arena| && Slot(h.arena[k]) == None && q in h.pidIndex && h.pidIndex[q] == k
            && h.pendingRestarts == f.pendingRestarts + [k]
  {
    assert p in g.pidIndex && g.pidIndex[p] == k && Slot(g.arena[k]) == Some(q);
    assert !Slotted(g, p);
    var h := OnChildExit(g, p, status).0;
    ExitRemoves(g, p, status);
    assert !OtherStays(g.arena[k], h.arena[k], p);
  }

  // ---- Reached from the start -------------------------------------------------------------------------------

  function OneService(): Forge {
    EMPTY.(arena := [Unit("a", SIMPLE, Dead, [], None)], nameIndex := map["a" := 0])
  }

  lemma OneRegistered()
    ensures Sound(EMPTY) && Apply(EMPTY, RegisterUnit("a", SIMPLE, [])) == OneService()
    ensures Inv(OneService()) && Inverse(OneService())
  {
  }

  lemma NamedStart(f: Forge, name: string, k: UnitKey, pid: Pid)
    requires Sound(f) && name in f.nameIndex && f.nameIndex[name] == k && k < |f.arena|
    requires f.arena[k].kind.Service? && f.arena[k].kind.serviceType.Simple?
    requires f.arena[k].kind.sockets == [] && f.arena[k].name != "forge-early"
    ensures StartByName(f, name, Spawning(pid)).0
         == StartService(f.(activeUnits := f.activeUnits + {k}), k, Spawning(pid)).0
    ensures Recorded(f, StartByName(f, name, Spawning(pid)).0, k, pid)
  {
    hide StartService, Sound;
    SimpleStart(f.(activeUnits := f.activeUnits + {k}), k, pid);
  }

  /** The service is registered and started twice, and then its first process exits. */
  function TwiceStarted(): seq<Step> {
    [RegisterUnit("a", SIMPLE, []), Start("a", Spawning(1)), Start("a", Spawning(2))]
  }

  /** The failure is reached: the service's second process runs, unrecorded, and a restart is queued all the same. */
  lemma SecondStartReached(status: ExitStatus)
    ensures Possible(EMPTY, TwiceStarted()) && !IdleStarts(EMPTY, TwiceStarted())
    ensures var g := Run(EMPTY, TwiceStarted());
            var h := OnChildExit(g, 1, status).0;
            && !OthersStay(g, h, 1) && 2 in h.pidIndex && h.pidIndex[2] == 0
            && |h.arena| == 1 && Slot(h.arena[0]) == None && h.pendingRestarts == [0]
  {
    hide StartService, Sound, Register, StartByName, OnChildExit;
    var steps := TwiceStarted();
    var f0, s1, s2 := OneService(), Start("a", Spawning(1)), Start("a", Spawning(2));
    OneRegistered();
    OneStarted(f0);
    var f1 := Apply(f0, s1);
    OneStartedAgain(f0, f1);
    var f2 := Apply(f1, s2);
    RunFirst(f1, s2, []);
    RunFirst(f0, s1, [s2] + []);
    RunFirst(EMPTY, steps[0], [s1] + ([s2] + []));
    assert steps == [steps[0]] + ([s1] + ([s2] + []));
    SecondExit(f1, f2, 0, 1, 2, status);
  }

  lemma OneStarted(f: Forge)
    requires f == OneService() && Inv(f)
    ensures Admissible(f, Start("a", Spawning(1)))
    ensures var g := Apply(f, Start("a", Spawning(1))); Recorded(f, g, 0, 1) && Inv(g) && Inverse(g)
  {
    hide StartService, Sound, StartByName;
    NamedStart(f, "a", 0, 1);
    StepKeeps(f, Start("a", Spawning(1)));
    assert AllSlotted(f);
    StepSlotted(f, Start("a", Spawning(1)));
  }

  lemma OneStartedAgain(f: Forge, g: Forge)
    requires f == OneService() && Recorded(f, g, 0, 1) && Inv(g)
    ensures Admissible(g, Start("a", Spawning(2))) && !StartsIdle(g, Start("a", Spawning(2)))
    ensures Recorded(g, Apply(g, Start("a", Spawning(2))), 0, 2)
  {
    hide StartService, Sound, StartByName;
    NamedStart(g, "a", 0, 2);
  }

  // ---- A daemon found twice ---------------------------------------------------------------------------------

  function TwoServices(): Forge {
    EMPTY.(arena := [Unit("a", SIMPLE, Dead, [], None), Unit("b", FORKING, Dead, [], None)],
           nameIndex := map["a" := 0, "b" := 1])
  }

  lemma TwoInserted()
    ensures Register(OneService(), "b", FORKING, []).0 == TwoServices()
  {
    var f, g := OneService(), TwoServices();
    assert f.arena + [Unit("b", FORKING, Dead, [], None)] == g.arena;
    assert f.nameIndex["b" := 1] == g.nameIndex;
    assert Claim(f.providesIndex, [], 1) == f.providesIndex;
  }

  lemma TwoRegistered()
    ensures Inv(OneService()) && Apply(OneService(), RegisterUnit("b", FORKING, [])) == TwoServices()
    ensures Inv(TwoServices())
  {
    OneRegistered();
    TwoInserted();
    hide Sound, SlotsIndexed, Register;
    SecondKeeps(OneService(), TwoServices());
  }

  lemma SecondKeeps(f: Forge, g: Forge)
    requires Inv(f) && g == Apply(f, RegisterUnit("b", FORKING, []))
    ensures Inv(g)
  {
    StepKeeps(f, RegisterUnit("b", FORKING, []));
  }

  /** A simple and a forking service are registered, and the simple one is started as process 1. */
  function OneRunning(): seq<Step> {
    [RegisterUnit("a", SIMPLE, []), RegisterUnit("b", FORKING, []), Start("a", Spawning(1))]
  }

  /** The failing start is reached: the forking service's search finds process 1, and the index loses service "a". */
  lemma SharedDaemonReached()
    ensures Possible(EMPTY, OneRunning())
    ensures var f := Run(EMPTY, OneRunning());
            && Inv(f) && !Admissible(f, Start("b", Finding(2, 1)))
            && !SlotsIndexed(StartByName(f, "b", Finding(2, 1)).0)
  {
    hide StartService, Sound, Register, StartByName;
    var steps := OneRunning();
    var f0, f1, s1, s2 := OneService(), TwoServices(), steps[1], steps[2];
    OneRegistered();
    TwoRegistered();
    TwoStarted(f1);
    var f2 := Apply(f1, s2);
    RunFirst(f1, s2, []);
    RunFirst(f0, s1, [s2] + []);
    RunFirst(EMPTY, steps[0], [s1] + ([s2] + []));
    assert steps == [steps[0]] + ([s1] + ([s2] + []));
    DaemonTaken(f1, f2);
  }

  lemma TwoStarted(f: Forge)
    requires f == TwoServices() && Inv(f)
    ensures Admissible(f, Start("a", Spawning(1)))
    ensures var g := Apply(f, Start("a", Spawning(1))); Recorded(f, g, 0, 1) && Inv(g)
  {
    hide StartService, Sound, StartByName;
    NamedStart(f, "a", 0, 1);
    StepKeeps(f, Start("a", Spawning(1)));
  }

  lemma DaemonTaken(f: Forge, g: Forge)
    requires f == TwoServices() && Recorded(f, g, 0, 1) && Inv(g)
    ensures !Admissible(g, Start("b", Finding(2, 1)))
    ensures !SlotsIndexed(StartByName(g, "b", Finding(2, 1)).0)
  {
    hide StartService, Sound;
    var h := g.(activeUnits := g.activeUnits + {1});
    assert Slot(g.arena[0]) == Some(1);
    SlotsCarried(g, h);
    SharedDaemonBreaksIndex(h, 1, 0, Finding(2, 1));
  }
}
