/** A drain of the restart queue that goes on for as long as time does. */
module DrainExamples {
  import opened Units
  import opened ForgeModel
  import opened Supervision
  import opened Keeping
  import opened Runs
  import opened RestartDrain
  import RestartLimiter

  const FORKING := Service([], [], [], [], Always, Forking, [], None)

  /** A start that, while it waits, reaps these exits, and that then finds the daemon. */
  function Finding(pid: Pid, reaped: seq<(Pid, ExitStatus)>, daemon: Pid): World {
    World(false, false, true, map[], Some(pid), true, reaped, Some(Exited(0)), Some(daemon))
  }

  predicate Daemon(u: Unit) {
    && u.kind.Service? && u.kind.serviceType.Forking? && u.kind.restart.Always? && u.kind.sockets == []
    && u.name != "forge-early"
  }

  /** Two daemons; a waits for a restart, and b runs as process p. */
  ghost predicate Alternating(f: Forge, a: UnitKey, b: UnitKey, p: Pid) {
    && Sound(f) && |f.arena| == 2 && {a, b} == {0, 1} && !f.shuttingDown
    && Daemon(f.arena[0]) && Daemon(f.arena[1])
    && f.pendingRestarts == [a] && f.pidIndex == map[p := b]
  }

  /** No restart that the history records lies in the window before t. */
  ghost predicate AllOld(table: RestartLimiter.Table, t: Time) {
    forall n | n in table :: Old(table[n], t)
  }

  ghost predicate Old(times: seq<Time>, t: Time) {
    forall i | 0 <= i < |times| :: times[i] + RestartLimiter.RESTART_BURST_WINDOW <= t
  }

  lemma {:induction false} OldPruned(times: seq<Time>, t: Time)
    requires Old(times, t)
    ensures RestartLimiter.Prune(times, t) == []
  {
    if times == [] {
    } else {
      OldPruned(times[1..], t);
    }
  }

  lemma OldGranted(table: RestartLimiter.Table, r: RestartLimiter.Request)
    requires AllOld(table, r.now)
    ensures var (granted, after) := RestartLimiter.Decide(table, r);
            granted && AllOld(after, r.now + RestartLimiter.RESTART_BURST_WINDOW)
  {
    var times := RestartLimiter.TimesOf(table, r.name);
    if r.name in table { assert Old(table[r.name], r.now); }
    OldPruned(times, r.now);
    var after := RestartLimiter.Decide(table, r).1;
    forall n | n in after ensures Old(after[n], r.now + RestartLimiter.RESTART_BURST_WINDOW) {
      if n != r.name { assert Old(table[n], r.now); }
    }
  }

  /** The states inside the start of a daemon. */
  lemma DaemonStart(f: Forge, k: UnitKey, reaped: seq<(Pid, ExitStatus)>, daemon: Pid)
    requires k < |f.arena| && Daemon(f.arena[k])
    ensures var f1 := SetSlot(SetState(f, k, Starting), k, Some(9));
            |Reap(f1, reaped).arena| == |f.arena|
            && StartService(f, k, Finding(9, reaped, daemon)).0 == Record(Reap(f1, reaped), k, daemon)
  {
    var f0 := SetState(f, k, Starting);
    assert CollectSockets(f0, [], map[]).0 == f0;
    ReapKeeps(SetSlot(f0, k, Some(9)), reaped);
  }

  lemma OneReaped(f: Forge, pid: Pid, status: ExitStatus)
    ensures Reap(f, [(pid, status)]) == OnChildExit(f, pid, status).0
  {
    assert [(pid, status)][..0] == [];
    assert Reap(f, []) == f;
  }

  /** While a is started b exits, and is queued in turn. */
  lemma Alternates(f: Forge, a: UnitKey, b: UnitKey, p: Pid, q: Pid, t: Time)
    requires Alternating(f, a, b, p) && AllOld(f.restartTimes, t)
    ensures var turn := Turn(t, Finding(9, [(p, Exited(0))], q));
            var g := RestartNext(f, turn.now, turn.w);
            && Alternating(g, b, a, q) && AllOld(g.restartTimes, t + RestartLimiter.RESTART_BURST_WINDOW)
            && DrainStep(f, turn, g) && StartsName(f, turn, f.arena[a].name)
  {
    var w := Finding(9, [(p, Exited(0))], q);
    var r := RestartLimiter.Request(f.arena[a].name, t);
    var times := RestartLimiter.Decide(f.restartTimes, r).1;
    var f1 := f.(pendingRestarts := [], restartTimes := times);
    OldGranted(f.restartTimes, r);
    assert f.pendingRestarts[1..] == [];
    ShapeRefl(f);
    var g := RestartNext(f, t, w);
    assert g == StartService(f1, a, w).0;
    TurnKeeps(f, f, t, w);
    StartTimes(f1, a, w);
    DaemonTurn(f1, a, b, p, q);
  }

  lemma DaemonTurn(f: Forge, a: UnitKey, b: UnitKey, p: Pid, q: Pid)
    requires |f.arena| == 2 && {a, b} == {0, 1} && !f.shuttingDown
    requires Daemon(f.arena[0]) && Daemon(f.arena[1]) && f.pendingRestarts == [] && f.pidIndex == map[p := b]
    ensures var g := StartService(f, a, Finding(9, [(p, Exited(0))], q)).0;
            && |g.arena| == 2 && Daemon(g.arena[0]) && Daemon(g.arena[1])
            && g.pendingRestarts == [b] && g.pidIndex == map[q := a] && !g.shuttingDown
  {
    hide StartService, OnChildExit;
    DaemonStart(f, a, [(p, Exited(0))], q);
    var f1 := SetSlot(SetState(f, a, Starting), a, Some(9));
    OneReaped(f1, p, Exited(0));
    LastExits(f1, b, p);
  }

  /** The one running daemon exits, and is queued. */
  lemma LastExits(f: Forge, b: UnitKey, p: Pid)
    requires |f.arena| == 2 && b < 2 && !f.shuttingDown
    requires Daemon(f.arena[0]) && Daemon(f.arena[1]) && f.pendingRestarts == [] && f.pidIndex == map[p := b]
    ensures var g := OnChildExit(f, p, Exited(0)).0;
            && |g.arena| == 2 && Daemon(g.arena[0]) && Daemon(g.arena[1])
            && g.pendingRestarts == [b] && g.pidIndex == map[] && !g.shuttingDown
  {
    assert f.pidIndex - {p} == map[];
  }

  /** Every turn starts a unit. */
  ghost predicate AllGranted(states: seq<Forge>, turns: seq<Turn>) {
    |states| == |turns| + 1 && forall i | 0 <= i < |turns| :: Granted(states[i], turns[i])
  }

  ghost predicate Granted(f: Forge, t: Turn) {
    exists n :: StartsName(f, t, n)
  }

  /** One turn a window, as many as wanted, and still a unit is queued. */
  lemma {:induction false} DrainLasts(f: Forge, a: UnitKey, b: UnitKey, p: Pid, t: Time, n: nat)
    returns (states: seq<Forge>, turns: seq<Turn>)
    requires Alternating(f, a, b, p) && AllOld(f.restartTimes, t)
    ensures DrainTrace(states, turns) && |turns| == n && states[0] == f && AllGranted(states, turns)
    ensures Queued(states[n])
    decreases n
  {
    hide DrainStep, StartsName, RestartNext, Alternating, AllOld;
    AlternatingQueued(f, a, b, p);
    if n == 0 {
      states, turns := [f], [];
    } else {
      var turn := Turn(t, Finding(9, [(p, Exited(0))], p));
      var g := RestartNext(f, turn.now, turn.w);
      Alternates(f, a, b, p, p, t);
      var s, rest := DrainLasts(g, b, a, p, t + RestartLimiter.RESTART_BURST_WINDOW, n - 1);
      states, turns := [f] + s, [turn] + rest;
      assert StartsName(f, turn, f.arena[a].name);
      assert Granted(f, turn);
      forall i | 0 <= i < n ensures DrainStep(states[i], turns[i], states[i + 1]) && Granted(states[i], turns[i]) {
        if i > 0 { assert states[i] == s[i - 1] && turns[i] == rest[i - 1] && states[i + 1] == s[i]; }
      }
    }
  }

  lemma AlternatingQueued(f: Forge, a: UnitKey, b: UnitKey, p: Pid)
    requires Alternating(f, a, b, p)
    ensures Queued(f) && a < |f.arena|
  {
  }

  // ---- Reached from the start -------------------------------------------------------------------------------

  function TwoDaemons(): Forge {
    EMPTY.(arena := [Unit("a", FORKING, Dead, [], None), Unit("b", FORKING, Dead, [], None)],
           nameIndex := map["a" := 0, "b" := 1])
  }

  function Begin(): seq<Step> {
    [RegisterUnit("a", FORKING, []), RegisterUnit("b", FORKING, []), BootStart(0, Finding(9, [], 10)),
     BootStart(1, Finding(9, [], 11)), Exit(10, Exited(0))]
  }

  lemma FirstInserted()
    ensures Register(EMPTY, "a", FORKING, []).0
         == EMPTY.(arena := [Unit("a", FORKING, Dead, [], None)], nameIndex := map["a" := 0])
    ensures Inv(EMPTY)
  {
    assert Claim(map[], [], 0) == map[];
  }

  lemma SecondInserted(f: Forge)
    requires f == EMPTY.(arena := [Unit("a", FORKING, Dead, [], None)], nameIndex := map["a" := 0])
    ensures Register(f, "b", FORKING, []).0 == TwoDaemons()
  {
    var g := TwoDaemons();
    assert f.arena + [Unit("b", FORKING, Dead, [], None)] == g.arena;
    assert f.nameIndex["b" := 1] == g.nameIndex;
    assert Claim(f.providesIndex, [], 1) == f.providesIndex;
  }

  /** A daemon started with nothing to reap. */
  lemma PlainStart(f: Forge, k: UnitKey, daemon: Pid)
    requires k < |f.arena| && Daemon(f.arena[k])
    ensures var g := StartService(f, k, Finding(9, [], daemon)).0;
            && |g.arena| == |f.arena| && g.pidIndex == f.pidIndex[daemon := k]
            && g.pendingRestarts == f.pendingRestarts && g.shuttingDown == f.shuttingDown
            && g.restartTimes == f.restartTimes && Daemon(g.arena[k]) && Slot(g.arena[k]) == Some(daemon)
            && forall j | 0 <= j < |f.arena| && j != k :: g.arena[j] == f.arena[j]
  {
    hide StartService;
    DaemonStart(f, k, [], daemon);
  }

  /** The state before the drain: "a" waits for a restart, and "b" runs as process 11. */
  lemma BeginReached()
    ensures Possible(EMPTY, Begin())
    ensures var f := Run(EMPTY, Begin()); Alternating(f, 0, 1, 11) && f.restartTimes == map[]
  {
    hide StartService, Register, OnChildExit, Sound, SlotsIndexed, Fresh;
    var steps := Begin();
    FirstInserted();
    var f1 := Apply(EMPTY, steps[0]);
    StepKeeps(EMPTY, steps[0]);
    SecondInserted(f1);
    var f2 := Apply(f1, steps[1]);
    StepKeeps(f1, steps[1]);
    StartedFrom(f2, steps[2], steps[3], steps[4]);
    RunFirst(f1, steps[1], [steps[2], steps[3], steps[4]]);
    RunFirst(EMPTY, steps[0], [steps[1]] + [steps[2], steps[3], steps[4]]);
    assert steps == [steps[0]] + ([steps[1]] + [steps[2], steps[3], steps[4]]);
  }

  /** Both daemons run. */
  ghost predicate BothRun(f: Forge) {
    && Inv(f) && |f.arena| == 2 && !f.shuttingDown && Daemon(f.arena[0]) && Daemon(f.arena[1])
    && f.pidIndex == map[10 := 0, 11 := 1] && f.pendingRestarts == [] && f.restartTimes == map[]
  }

  lemma BothStarted(f: Forge, s: Step, t: Step)
    requires f == TwoDaemons() && Inv(f)
    requires s == BootStart(0, Finding(9, [], 10)) && t == BootStart(1, Finding(9, [], 11))
    ensures Admissible(f, s) && Inv(Apply(f, s)) && Admissible(Apply(f, s), t) && BothRun(Apply(Apply(f, s), t))
  {
    hide StartService, Sound, SlotsIndexed;
    PlainStart(f, 0, 10);
    StepKeeps(f, s);
    PlainStart(Apply(f, s), 1, 11);
    StepKeeps(Apply(f, s), t);
  }

  lemma StartedFrom(f: Forge, s: Step, t: Step, u: Step)
    requires f == TwoDaemons() && Inv(f)
    requires s == BootStart(0, Finding(9, [], 10)) && t == BootStart(1, Finding(9, [], 11)) && u == Exit(10, Exited(0))
    ensures Possible(f, [s, t, u])
    ensures var g := Run(f, [s, t, u]); Alternating(g, 0, 1, 11) && g.restartTimes == map[]
  {
    hide StartService, OnChildExit, Sound, SlotsIndexed, Fresh, TwoDaemons;
    BothStarted(f, s, t);
    var g := Apply(f, s);
    var h := Apply(g, t);
    StepKeeps(h, u);
    ExitQueuesOne(h);
    RunFirst(h, u, []);
    RunFirst(g, t, [u] + []);
    RunFirst(f, s, [t] + ([u] + []));
    assert [s, t, u] == [s] + ([t] + ([u] + []));
  }

  lemma ExitQueuesOne(f: Forge)
    requires Sound(f) && |f.arena| == 2 && !f.shuttingDown && Daemon(f.arena[0]) && Daemon(f.arena[1])
    requires f.pidIndex == map[10 := 0, 11 := 1] && f.pendingRestarts == []
    ensures Alternating(OnChildExit(f, 10, Exited(0)).0, 0, 1, 11)
    ensures OnChildExit(f, 10, Exited(0)).0.restartTimes == f.restartTimes
  {
    ExitLive(f, 10, Exited(0));
    assert f.pidIndex - {10} == map[11 := 1];
  }

  /** From a state that the system reaches, a drain can go on for any number of turns, each granted, and not be done. */
  lemma DrainNeedNotEnd(n: nat) returns (states: seq<Forge>, turns: seq<Turn>)
    ensures Possible(EMPTY, Begin()) && DrainTrace(states, turns) && |turns| == n
    ensures states[0] == Run(EMPTY, Begin()) && AllGranted(states, turns) && Queued(states[n])
  {
    BeginReached();
    states, turns := DrainLasts(Run(EMPTY, Begin()), 0, 1, 11, 0, n);
  }
}
