/** What a boot activates, what keeps it from starting anything, and what it starts, read off the units' own fields. */
module BootOutcomes {
  import opened Units
  import opened Graphs
  import opened ForgeModel
  import opened Activation
  import opened NamedGraphs
  import opened Supervision
  import opened Keeping
  import opened ExitOutcomes
  import opened StartOutcomes
  import opened BootPlan
  import opened BootLog
  import opened ForgeStates
  import opened Schedules
  import opened Guarantees
  import Runlevels

  // ---- Attempts ---------------------------------------------------------------------------------------------

  /** The same service, whatever process it records. */
  ghost predicate SameService(u: Unit, v: Unit) {
    u.kind.Service? && v.kind.Service? && u.name == v.name && u.kind.(pid := None) == v.kind.(pid := None)
  }

  lemma ServiceCarried(f: Forge, g: Forge, k: UnitKey)
    requires SameShape(f, g) && k < |f.arena| && f.arena[k].kind.Service?
    ensures SameService(f.arena[k], g.arena[k])
  {
    assert SameUnit(f.arena[k], g.arena[k]);
  }

  lemma SucceedsAlike(f: Forge, u: Unit, v: Unit, w: World)
    requires SameService(u, v)
    ensures Succeeds(f, u, w) <==> Succeeds(f, v, w)
    ensures Launches(f, u, w) <==> Launches(f, v, w)
    ensures u.kind.serviceType == v.kind.serviceType
  {
    assert u.kind.(pid := None).sockets == u.kind.sockets && v.kind.(pid := None).sockets == v.kind.sockets;
    assert u.kind.(pid := None).serviceType == u.kind.serviceType;
    assert v.kind.(pid := None).serviceType == v.kind.serviceType;
  }

  /** An attempt of service u: its result and what it leaves, by the state before it and what the environment did. */
  ghost predicate ServiceAttempt(u: Unit, k: UnitKey, e: Entry)
    requires u.kind.Service?
  {
    var w, t := e.env.world, u.kind.serviceType;
    && (e.result.Ok? <==> Succeeds(e.before, u, w))
    && k < |e.after.arena|
    && (e.result.Err? ==> e.after.arena[k].state == Failed)
    && (Launches(e.before, u, w) ==>
          && Slot(e.after.arena[k]) == Stays(t, w)
          && StartedIndex(e.before.pidIndex, Awaited(t, w), Stays(t, w), k, e.after.pidIndex)
          && (e.result.Ok? ==> e.after.arena[k].state == if t == Oneshot then Dead else Running))
    && (!Launches(e.before, u, w) ==>
          && e.after.pidIndex == e.before.pidIndex
          && (e.result.Ok? ==> e.after.arena[k].state == if u.name == "forge-early" then Dead else Running))
  }

  /** An attempt of a socket unit: it works exactly if its listener can be opened, and the unit then listens. */
  ghost predicate SocketAttempt(u: Unit, k: UnitKey, e: Entry)
    requires u.kind.Socket?
  {
    && (e.result.Ok? <==> k in e.env.listeners)
    && k < |e.after.arena| && e.after.arena[k].kind.Socket?
    && (e.result.Ok? ==> e.after.arena[k].state == Listening
                         && e.after.arena[k].kind.activation == Some(e.env.listeners[k]))
    && (e.result.Err? ==> e.after.arena[k].state == Failed)
    && e.after.pidIndex == e.before.pidIndex
  }

  /** An attempt of a mount unit: PID 1 reports a failure, anyone else goes on without the mount. */
  ghost predicate MountAttempt(u: Unit, k: UnitKey, e: Entry)
    requires u.kind.Mount?
  {
    && k < |e.before.arena| == |e.after.arena| && e.before.arena[k].kind.Mount? && e.after.arena[k].kind.Mount?
    && (e.after.arena[k].kind.mounted <==> e.before.arena[k].kind.mounted || e.env.works)
    && (e.result.Ok? <==> e.after.arena[k].kind.mounted || !e.env.pid1)
    && (e.result.Err? ==> e.after.arena[k].state == Failed)
    && e.after.pidIndex == e.before.pidIndex
  }

  lemma ServiceStep(f: Forge, k: UnitKey, e: Entry)
    requires Sound(e.before) && SameShape(f, e.before) && k < |f.arena| && f.arena[k].kind.Service?
    requires AttemptStep(e.before, k, e.env, e.after, e.result)
    ensures ServiceAttempt(f.arena[k], k, e)
  {
    var b, w := e.before, e.env.world;
    ServiceCarried(f, b, k);
    SoundBoth(b);
    SucceedsAlike(b, f.arena[k], b.arena[k], w);
    StartExact(b, k, w);
    if Launches(b, b.arena[k], w) {
      StartLaunched(b, k, w);
    } else {
      StartHalted(b, k, w);
    }
    hide Sound, NamesBijective, IndexLive, StartedIndex, ReapedUnit, AfterOpening, SameShape;
    hide StartService, Launches, Succeeds, Awaited, SameService;
  }

  lemma SocketStep(f: Forge, k: UnitKey, e: Entry)
    requires SameShape(f, e.before) && k < |f.arena| && f.arena[k].kind.Socket?
    requires AttemptStep(e.before, k, e.env, e.after, e.result)
    ensures SocketAttempt(f.arena[k], k, e)
  {
    assert SameUnit(f.arena[k], e.before.arena[k]);
    SocketExact(e.before, k, e.env.listeners);
    hide SameShape, StartService;
  }

  lemma MountStep(f: Forge, k: UnitKey, e: Entry)
    requires SameShape(f, e.before) && k < |f.arena| && f.arena[k].kind.Mount?
    requires AttemptStep(e.before, k, e.env, e.after, e.result)
    ensures MountAttempt(f.arena[k], k, e)
  {
    assert SameUnit(f.arena[k], e.before.arena[k]);
    MountExact(e.before, k, e.env.works, e.env.pid1);
    hide SameShape, StartService;
  }

  lemma AttemptPerformed(f: Forge, log: seq<Entry>, g: Forge, i: nat, k: UnitKey)
    requires Sound(f) && Traced(f, log, g) && Attempts(log, i, k)
    ensures AttemptStep(log[i].before, k, log[i].env, log[i].after, log[i].result)
    ensures Sound(log[i].before) && SameShape(f, log[i].before)
  {
    ShapeRefl(f);
    hide Sound, AttemptStep, SameShape;
    TraceKeeps(f, f, log, g);
    assert EntryWithin(f, log[i]) && Performed(log[i]);
  }

  /** Every attempt in the log of a boot, strict or not, is exactly what its environment made of it. */
  lemma AttemptExact(f: Forge, log: seq<Entry>, g: Forge, i: nat, k: UnitKey)
    requires Sound(f) && Traced(f, log, g) && Attempts(log, i, k) && k < |f.arena|
    ensures f.arena[k].kind.Service? ==> ServiceAttempt(f.arena[k], k, log[i])
    ensures f.arena[k].kind.Socket? ==> SocketAttempt(f.arena[k], k, log[i])
    ensures f.arena[k].kind.Mount? ==> MountAttempt(f.arena[k], k, log[i])
  {
    hide Sound, AttemptStep, SameShape, ServiceAttempt, SocketAttempt, MountAttempt, Traced;
    AttemptPerformed(f, log, g, i, k);
    if f.arena[k].kind.Service? {
      ServiceStep(f, k, log[i]);
    } else if f.arena[k].kind.Socket? {
      SocketStep(f, k, log[i]);
    } else if f.arena[k].kind.Mount? {
      MountStep(f, k, log[i]);
    }
  }

  /** A strict boot that succeeds: each active service was attempted, and its start worked. */
  lemma StrictBootStarts(f: Forge, waves: seq<seq<UnitKey>>, log: seq<Entry>, g: Forge, k: UnitKey)
    requires Booted(f, waves) && Finished(f, log, Plan(f, waves)) && Traced(f, log, g) && f.strictBoot
    requires k in f.activeUnits && k < |f.arena| && f.arena[k].kind.Service?
    ensures exists i: nat :: Attempts(log, i, k) && ServiceAttempt(f.arena[k], k, log[i])
                             && Succeeds(log[i].before, f.arena[k], log[i].env.world)
  {
    StrictBootComplete(f, waves, log, g, k);
    hide AttemptStep, Traced, Booted, Finished, Succeeds, Launches, StartedIndex;
    assert MustAttempt(f, k);
    var i: nat :| Attempts(log, i, k);
    SoundOfBooted(f, waves);
    AttemptExact(f, log, g, i, k);
  }

  lemma SoundOfBooted(f: Forge, waves: seq<seq<UnitKey>>)
    requires Booted(f, waves)
    ensures Sound(f)
  {
  }

  /** The log starts a simple service: a child was spawned and ready, runs, and is recorded in slot and index. */
  ghost predicate StartsSimple(k: UnitKey, e: Entry) {
    && e.env.world.prepared && e.env.world.ready && e.env.world.spawned.Some?
    && k < |e.after.arena| && e.after.arena[k].state == Running && Slot(e.after.arena[k]) == e.env.world.spawned
    && e.env.world.spawned.value in e.after.pidIndex && e.after.pidIndex[e.env.world.spawned.value] == k
  }

  /** In particular each active simple service, unless adopted from the host, runs as the child that was spawned. */
  lemma StrictBootSpawns(f: Forge, waves: seq<seq<UnitKey>>, log: seq<Entry>, g: Forge, k: UnitKey)
    requires Booted(f, waves) && Finished(f, log, Plan(f, waves)) && Traced(f, log, g) && f.strictBoot
    requires k in f.activeUnits && k < |f.arena| && f.arena[k].kind.Service?
    requires f.arena[k].kind.serviceType == Simple && f.arena[k].name != "forge-early"
    ensures exists i: nat :: Attempts(log, i, k) && (log[i].env.world.adopted || StartsSimple(k, log[i]))
  {
    StrictBootStarts(f, waves, log, g, k);
    hide AttemptStep, Traced, Booted, Finished, Attempts, AllOpen;
    var i: nat :| Attempts(log, i, k) && ServiceAttempt(f.arena[k], k, log[i])
                  && Succeeds(log[i].before, f.arena[k], log[i].env.world);
    assert log[i].env.world.adopted || StartsSimple(k, log[i]);
  }

  // ---- Listening at the end of a boot -----------------------------------------------------------------------

  ghost predicate Listens(f: Forge, k: UnitKey) {
    k < |f.arena| && f.arena[k].kind.Socket? && f.arena[k].state == Listening
  }

  /** The entry was performed, and k is not what it attempts. */
  ghost predicate SparesUnit(e: Entry, k: UnitKey) {
    Performed(e) && (e.what.Planned? ==> e.what.key != k)
  }

  lemma EntryIndexes(e: Entry)
    requires Performed(e) && Sound(e.before) && IndexesServices(e.before)
    ensures IndexesServices(e.after)
  {
    ShapeRefl(e.before);
    EntryKeeps(e.before, e);
    EntryIndex(e);
    hide Performed, Sound;
    IndexedThen(e.before, e.after);
  }

  lemma EntryIndex(e: Entry)
    requires Performed(e) && Sound(e.before)
    ensures IndexesFrom(e.before, e.after)
  {
    match e.what
    case WaveEnd(_) => ReapIndexes(e.before, e.env.exits);
    case Planned(_, k) =>
      hide Sound, StartService, ActivateSocket, ActivateMount, IndexesFrom;
      var f := e.before;
      StartIndexes(f, k, e.env.world);
      ActivateKeeps(f, k, e.env.listeners);
      MountIndex(f, k, e.env.works, e.env.pid1);
      AttemptIndex(e, k);
  }

  lemma MountIndex(f: Forge, k: UnitKey, works: bool, pid1: bool)
    requires k < |f.arena|
    ensures ActivateMount(f, k, works, pid1).0.pidIndex == f.pidIndex
  {
  }

  lemma AttemptIndex(e: Entry, k: UnitKey)
    requires AttemptStep(e.before, k, e.env, e.after, e.result)
    requires IndexesFrom(e.before, StartService(e.before, k, e.env.world).0)
    requires ActivateSocket(e.before, k, e.env.listeners).0.pidIndex == e.before.pidIndex
    requires ActivateMount(e.before, k, e.env.works, e.env.pid1).0.pidIndex == e.before.pidIndex
    ensures IndexesFrom(e.before, e.after)
  {
    hide StartService, ActivateSocket, ActivateMount;
  }

  lemma IndexedThen(f: Forge, g: Forge)
    requires IndexesServices(f) && IndexesFrom(f, g) && SameShape(f, g)
    ensures IndexesServices(g)
  {
    forall p | p in g.pidIndex ensures g.pidIndex[p] < |g.arena| && g.arena[g.pidIndex[p]].kind.Service? {
      assert SameUnit(f.arena[g.pidIndex[p]], g.arena[g.pidIndex[p]]);
    }
  }

  lemma EntryListens(e: Entry, k: UnitKey)
    requires SparesUnit(e, k) && Sound(e.before) && IndexesServices(e.before) && Listens(e.before, k)
    ensures Listens(e.after, k)
  {
    match e.what
    case WaveEnd(_) =>
      ReapExact(e.before, e.env.exits);
      Unreported(e.before, e.env.exits, k);
      hide ReapedUnit, ReapedIndex, Reap, Sound;
    case Planned(_, j) =>
      StartSparesListening(e.before, j, e.env.world, k);
      ActivateChangesOne(e.before, j, e.env.listeners);
      MountChangesOne(e.before, j, e.env.works, e.env.pid1);
      hide Sound, StartService, ActivateSocket, ActivateMount, IndexesServices;
  }

  lemma MountChangesOne(f: Forge, k: UnitKey, works: bool, pid1: bool)
    requires k < |f.arena|
    ensures var g := ActivateMount(f, k, works, pid1).0;
            |g.arena| == |f.arena| && forall j | 0 <= j < |f.arena| && j != k :: g.arena[j] == f.arena[j]
  {
  }

  lemma {:induction false} TraceIndexes(f: Forge, log: seq<Entry>, g: Forge)
    requires Sound(f) && IndexesServices(f) && Traced(f, log, g)
    ensures Sound(g) && IndexesServices(g)
    decreases |log|
  {
    hide Sound, IndexesServices, Performed;
    if log == [] {
    } else {
      var e := log[|log| - 1];
      TraceFront(f, log, g);
      TraceIndexes(f, log[..|log| - 1], e.before);
      EntryIndexes(e);
      ShapeRefl(e.before);
      EntryKeeps(e.before, e);
    }
  }

  lemma {:induction false} TraceListens(f: Forge, log: seq<Entry>, g: Forge, k: UnitKey)
    requires Sound(f) && IndexesServices(f) && Traced(f, log, g) && Listens(f, k)
    requires forall i: nat :: !Attempts(log, i, k)
    ensures Listens(g, k)
    decreases |log|
  {
    hide Sound, IndexesServices, Performed, Listens;
    if log == [] {
    } else {
      var n := |log| - 1;
      var e := log[n];
      TraceFront(f, log, g);
      forall i: nat ensures !Attempts(log[..n], i, k) {
        assert i < n ==> log[..n][i] == log[i] && !Attempts(log, i, k);
      }
      TraceListens(f, log[..n], e.before, k);
      TraceIndexes(f, log[..n], e.before);
      assert !Attempts(log, n, k);
      EntryListens(e, k);
    }
  }

  lemma TraceTo(f: Forge, log: seq<Entry>, g: Forge, i: nat)
    requires Traced(f, log, g) && i < |log|
    ensures Traced(f, log[..i + 1], log[i].after)
  {
    hide Performed;
  }

  lemma LaterAttempt(log: seq<Entry>, i: nat, j: nat, k: UnitKey)
    requires i <= |log|
    ensures Attempts(log[i..], j, k) <==> Attempts(log, i + j, k)
  {
  }

  /** A strict boot that succeeds leaves every active socket unit listening, whatever was started or exited after it. */
  lemma StrictBootListens(f: Forge, waves: seq<seq<UnitKey>>, log: seq<Entry>, g: Forge, k: UnitKey)
    requires Booted(f, waves) && Finished(f, log, Plan(f, waves)) && Traced(f, log, g) && f.strictBoot
    requires IndexesServices(f) && k in f.activeUnits && k < |f.arena| && f.arena[k].kind.Socket?
    ensures Listens(g, k)
  {
    StrictBootComplete(f, waves, log, g, k);
    SoundOfBooted(f, waves);
    assert MustAttempt(f, k);
    hide AttemptStep, Booted, Finished, Sound, IndexesServices;
    var i: nat :| Attempts(log, i, k);
    AttemptExact(f, log, g, i, k);
    TraceTo(f, log, g, i);
    TraceIndexes(f, log[..i + 1], log[i].after);
    TraceBack(f, log, g, i + 1);
    hide Traced;
    var rest := log[i + 1..];
    forall j: nat ensures !Attempts(rest, j, k) {
      LaterAttempt(log, i + 1, j, k);
    }
    TraceListens(log[i].after, rest, g, k);
  }

  // ---- Waves and attempts -----------------------------------------------------------------------------------

  /** The waves of a boot hold every active unit but targets and timers. */
  lemma WavesHold(f: Forge, waves: seq<seq<UnitKey>>, k: UnitKey)
    requires Booted(f, waves)
    ensures InSomeWave(waves, k)
            <==> k in f.activeUnits && k < |f.arena| && !f.arena[k].kind.Target? && !f.arena[k].kind.Timer?
  {
    hide FreshlyResolved, Sound;
  }

  /** A boot that finishes attempts exactly the active services, sockets and mounts. */
  lemma AttemptsExact(f: Forge, waves: seq<seq<UnitKey>>, log: seq<Entry>, g: Forge, k: UnitKey)
    requires Booted(f, waves) && Finished(f, log, Plan(f, waves)) && Traced(f, log, g)
    ensures (exists i: nat :: Attempts(log, i, k))
            <==> k in f.activeUnits && k < |f.arena|
                 && (f.arena[k].kind.Service? || f.arena[k].kind.Socket? || f.arena[k].kind.Mount?)
  {
    if MustAttempt(f, k) {
      AttemptPlanned(f, waves, log, k);
    }
    if i: nat :| Attempts(log, i, k) {
      PlannedAttempt(f, waves, log, g, i, k);
    }
    hide Booted, Finished, Traced, AttemptStep;
  }

  lemma RelaxedGoesOn(f: Forge, log: seq<Entry>, plan: seq<Planned>, r: Result<()>)
    requires LoopEnds(f, log, plan, r) && !f.strictBoot
    ensures r.Ok?
  {
  }

  /** A boot that is not strict always finishes, whatever fails, and so attempts all of them. */
  lemma RelaxedBootFinishes(f: Forge, waves: seq<seq<UnitKey>>, log: seq<Entry>, g: Forge, r: Result<()>, k: UnitKey)
    requires Booted(f, waves) && LoopEnds(f, log, Plan(f, waves), r) && Traced(f, log, g) && !f.strictBoot
    requires k in f.activeUnits && k < |f.arena|
    requires f.arena[k].kind.Service? || f.arena[k].kind.Socket? || f.arena[k].kind.Mount?
    ensures r.Ok? && exists i: nat :: Attempts(log, i, k)
  {
    hide Booted, Finished, Traced, Follows;
    assert r.Ok? by { hide *; RelaxedGoesOn(f, log, Plan(f, waves), r); }
    AttemptsExact(f, waves, log, g, k);
  }

  // ---- What a boot activates --------------------------------------------------------------------------------

  /** In a seeded database the filter keeps every unit but the services that are not marked for the target. */
  ghost predicate Kept(f: Forge, db: Runlevels.Markers, k: UnitKey)
    requires k < |f.arena|
  {
    db.seeded && f.arena[k].kind.Service? ==> MarkedForTarget(f, db, k)
  }

  /**
    The active set of a boot, before and after the filter, and the required set: each the least set closed under what
    its units name in the fields that count there.
   */
  lemma ClosureExact(f: Forge, db: Runlevels.Markers)
    requires Sound(f) && HasTarget(f) && Runlevels.OnDisk(db)
    ensures var g := ClosureOf(f, db);
            && LeastNeeded(f, g.activeUnits, g.requiredUnits)
            && exists reached, all ::
                 && LeastPulled(f, {f.nameIndex[f.activeTarget]}, reached) && LeastSocketed(f, reached, all)
                 && ActiveAfterFilter(f, db, all, g.activeUnits)
  {
    var g := ClosureOf(f, db);
    var t := f.nameIndex[f.activeTarget];
    var reached, all := ReachSet(ClosureGraph(f), {t}), Activated(f, t);
    ActivatedLive(f, t);
    NeededLeast(f, g.activeUnits);
    PulledLeast(f, {t});
    SocketedLeast(f, reached);
    FilteredExact(f, db, all);
    hide Sound, LeastPulled, LeastSocketed, LeastNeeded, ActiveAfterFilter, ReachSet, Filtered;
    assert LeastPulled(f, {t}, reached) && LeastSocketed(f, reached, all);
  }

  ghost predicate ActiveAfterFilter(f: Forge, db: Runlevels.Markers, all: set<UnitKey>, active: set<UnitKey>) {
    && (forall k | k in all :: k < |f.arena|)
    && forall k | 0 <= k < |f.arena| :: k in active <==> k in all && Kept(f, db, k)
  }

  lemma FilteredExact(f: Forge, db: Runlevels.Markers, all: set<UnitKey>)
    requires Runlevels.OnDisk(db) && forall k | k in all :: k < |f.arena|
    ensures ActiveAfterFilter(f, db, all, Filtered(f, db, all))
  {
    forall k | 0 <= k < |f.arena| ensures k in Filtered(f, db, all) <==> k in all && Kept(f, db, k) {
      if k in all {
        FilterExact(f, db, all, k);
      }
      hide MarkedForTarget;
    }
  }

  /** The active unit k starts after something that neither index has. */
  ghost predicate OrdersUnanswered(f: Forge, k: UnitKey) {
    k < |f.arena| && k in f.activeUnits && exists n :: StartsAfter(f.arena[k].kind, n) && Unanswered(f, n)
  }

  /**
    Closure or resolution fails exactly if the target's name is not that of a target unit, or the boot is not lenient
    and a unit it reaches needs, or an active unit starts after, a name that is in neither index.
   */
  lemma GraphFailsExact(f: Forge, db: Runlevels.Markers)
    requires Sound(f)
    ensures GraphFails(f, db) <==>
            if f.activeTarget !in f.nameIndex || !f.arena[f.nameIndex[f.activeTarget]].kind.Target? then true
            else !f.bootLenient && (PullsUnanswered(f, f.nameIndex[f.activeTarget])
                                    || exists k :: OrdersUnanswered(ClosureOf(f, db), k))
  {
    if HasTarget(f) {
      UnansweredExact(f, TargetOf(f));
      var g := ClosureOf(f, db);
      forall k: UnitKey ensures OrdersUnanswered(g, k) <==> k in g.activeUnits && k < |g.arena| && OrdersMissing(g, k) {
        if k < |g.arena| { OrdersMissingExact(g, k); }
      }
      hide Sound, PullsUnanswered, OrdersUnanswered, ClosureOf, OrdersMissing, ReachableNeedsMissing;
    }
  }

  lemma OrdersMissingExact(f: Forge, k: UnitKey)
    requires k < |f.arena|
    ensures OrdersMissing(f, k) <==> exists n :: StartsAfter(f.arena[k].kind, n) && Unanswered(f, n)
  {
    var names := Ordering(f.arena[k].kind);
    forall n ensures StartsAfter(f.arena[k].kind, n) <==> n in names {}
    hide StartsAfter, Ordering;
    if i :| 0 <= i < |names| && Lookup(f, names[i]) == None {
      assert StartsAfter(f.arena[k].kind, names[i]) && Unanswered(f, names[i]);
    }
    if n :| StartsAfter(f.arena[k].kind, n) && Unanswered(f, n) {
      var i :| 0 <= i < |names| && names[i] == n;
      assert Lookup(f, names[i]) == None;
    }
  }

  // ---- Timers -----------------------------------------------------------------------------------------------

  /** A bootable unit that names an active timer to start after, by real or virtual name, deadlocks the whole boot. */
  lemma NamedTimerDeadlocks(f: Forge, k: UnitKey, n: string, d: UnitKey)
    requires Sound(f) && FreshlyResolved(f)
    requires k in f.activeUnits && k < |f.arena| && d in f.activeUnits && d < |f.arena|
    requires f.arena[k].kind.Service? || f.arena[k].kind.Socket? || f.arena[k].kind.Device? || f.arena[k].kind.Mount?
    requires StartsAfter(f.arena[k].kind, n) && Answers(f, n, d) && f.arena[d].kind.Timer?
    ensures Deadlocked(f)
  {
    DependsExact(f, k, d);
    TimerDependencyDeadlocks(f, k, d);
  }

  /** So a boot whose closure holds such a unit and its timer starts nothing, unless it is lenient. */
  lemma NamedTimerFailsBoot(f: Forge, db: Runlevels.Markers, g: Forge, k: UnitKey, n: string, d: UnitKey)
    requires Sound(f) && HasTarget(f) && Sound(g) && !f.bootLenient
    requires GraphFails(f, db) || GraphResult(f, db, g, Ok(()))
    requires k in ClosureOf(f, db).activeUnits && k < |f.arena| && d in ClosureOf(f, db).activeUnits && d < |f.arena|
    requires f.arena[k].kind.Service? || f.arena[k].kind.Socket? || f.arena[k].kind.Device? || f.arena[k].kind.Mount?
    requires StartsAfter(f.arena[k].kind, n) && Answers(f, n, d) && f.arena[d].kind.Timer?
    ensures BootFails(f, db, g)
  {
    if !GraphFails(f, db) {
      GraphExact(f, db, g, Ok(()));
      hide Sound, FreshlyResolved, GraphFails, GraphResult;
      NamedTimerDeadlocks(g, k, n, d);
    }
  }
}
