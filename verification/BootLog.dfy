/** What the log of a boot says about it: which units were attempted, on which states, and with what result. */
module BootLog {
  import opened Units
  import opened Names
  import opened ForgeModel
  import opened Supervision
  import opened Keeping
  import opened BootPlan

  /** Waves that hold each bootable unit once, over a freshly resolved graph in which every active unit is required. */
  ghost predicate Booted(f: Forge, waves: seq<seq<UnitKey>>) {
    && FreshlyResolved(f) && Sound(f)
    && f.activeUnits <= f.requiredUnits
    && Partition(waves, BootableSet(f))
    && (forall i | 0 <= i < |waves| :: Live(f.arena, waves[i]))
  }

  /** The loop ends with the plan, or with the failure that its last entry reports. */
  ghost predicate LoopEnds(f: Forge, log: seq<Entry>, plan: seq<Planned>, r: Result<()>) {
    if r.Ok? then Finished(f, log, plan) else Aborted(f, log, plan) && r == log[|log| - 1].result
  }

  function AnyWorld(): World {
    World(false, false, false, map[], None, false, [], None, None)
  }

  lemma NothingTraced(f: Forge, g: Forge)
    ensures Finished(f, [], []) && Traced(g, [], g)
  {
  }

  lemma EntryTraced(f: Forge, log: seq<Entry>, e: Entry)
    requires Traced(f, log, e.before) && Performed(e)
    ensures Traced(f, log + [e], e.after)
  {
    hide Performed;
    assert Traced(e.before, [e], e.after);
    TracedThen(f, log, e.before, [e], e.after);
  }

  lemma ActivateKeepsAll(f: Forge, g: Forge, k: UnitKey, env: Environment)
    requires Keeps(f, g) && k < |g.arena|
    ensures Keeps(f, ActivateByKind(g, k, env).0)
  {
    hide StartService, ActivateSocket, ActivateMount;
    SocketSound(f, g, k, env.listeners);
    MountSound(f, g, k, env.works, env.pid1);
    StartSound(f, g, k, env.world);
  }

  lemma AttemptKeeps(f: Forge, g: Forge, k: UnitKey, env: Environment, h: Forge, r: Result<()>)
    requires Keeps(f, g) && AttemptStep(g, k, env, h, r)
    ensures Keeps(f, h)
  {
    hide ActivateByKind;
    ActivateKeepsAll(f, g, k, env);
    var after := ActivateByKind(g, k, env).0;
    if k < |after.arena| {
      StateSound(f, after, k, UnitState.Failed);
    }
  }

  ghost predicate EntryWithin(f: Forge, e: Entry) {
    Keeps(f, e.before) && Keeps(f, e.after)
  }

  /** Whatever a boot did, every state on the way is a sound state of the same graph. */
  lemma {:induction false} TraceKeeps(f: Forge, g: Forge, log: seq<Entry>, h: Forge)
    requires Keeps(f, g) && Traced(g, log, h)
    ensures Keeps(f, h) && forall i | 0 <= i < |log| :: EntryWithin(f, log[i])
    decreases |log|
  {
    hide Keeps, Performed;
    if log == [] {
    } else {
      var n := |log| - 1;
      TraceFront(g, log, h);
      TraceKeeps(f, g, log[..n], log[n].before);
      EntryKeeps(f, log[n]);
      forall i | 0 <= i < |log| ensures EntryWithin(f, log[i]) {
        if i < n { assert log[..n][i] == log[i]; }
      }
    }
  }

  lemma TraceFront(g: Forge, log: seq<Entry>, h: Forge)
    requires Traced(g, log, h) && log != []
    ensures Traced(g, log[..|log| - 1], log[|log| - 1].before) && Performed(log[|log| - 1]) && log[|log| - 1].after == h
  {
    hide Performed;
  }

  lemma EntryKeeps(f: Forge, e: Entry)
    requires Keeps(f, e.before) && Performed(e)
    ensures Keeps(f, e.after)
  {
    hide AttemptStep, Reap;
    match e.what
    case Planned(_, k) => AttemptKeeps(f, e.before, k, e.env, e.after, e.result);
    case WaveEnd(_) => ReapSoundFrom(f, e.before, e.env.exits);
  }

  /** Entry i of the log is an attempt of unit k. */
  ghost predicate Attempts(log: seq<Entry>, i: nat, k: UnitKey) {
    i < |log| && log[i].what.Planned? && log[i].what.key == k
  }

  lemma AttemptPlanned(f: Forge, waves: seq<seq<UnitKey>>, log: seq<Entry>, k: UnitKey)
    requires Booted(f, waves) && Finished(f, log, Plan(f, waves)) && MustAttempt(f, k)
    ensures exists i: nat :: Attempts(log, i, k)
  {
    PlanCovers(f, waves, k);
    var plan := Plan(f, waves);
    var w :| Planned(w, k) in plan;
    var i :| 0 <= i < |plan| && plan[i] == Planned(w, k);
    assert Attempts(log, i, k);
  }

  lemma PlannedAttempt(f: Forge, waves: seq<seq<UnitKey>>, log: seq<Entry>, g: Forge, i: nat, k: UnitKey)
    requires Booted(f, waves) && Finished(f, log, Plan(f, waves)) && Traced(f, log, g) && Attempts(log, i, k)
    ensures MustAttempt(f, k) && (f.strictBoot ==> log[i].result.Ok?)
    ensures AttemptStep(log[i].before, k, log[i].env, log[i].after, log[i].result)
  {
    hide AttemptStep;
    var plan := Plan(f, waves);
    PlanCovers(f, waves, k);
    assert plan[i] in plan && plan[i] == Planned(plan[i].wave, k);
    assert Tolerable(f, log[i]) && Performed(log[i]);
  }

  lemma AttemptedOnce(f: Forge, waves: seq<seq<UnitKey>>, log: seq<Entry>, i: nat, j: nat, k: UnitKey)
    requires Booted(f, waves) && Finished(f, log, Plan(f, waves)) && Attempts(log, i, k) && Attempts(log, j, k)
    ensures i == j
  {
    assert log[i].what == Plan(f, waves)[i] && log[j].what == Plan(f, waves)[j];
    PlanOnce(f, waves, i, j);
  }

  /**
    In a strict boot, success means that every active socket, mount and service was attempted exactly once, nothing
    else was attempted, and each attempt, carried out on the state that the entries before it left, returned Ok.
   */
  lemma StrictBootComplete(f: Forge, waves: seq<seq<UnitKey>>, log: seq<Entry>, g: Forge, k: UnitKey)
    requires Booted(f, waves) && Finished(f, log, Plan(f, waves)) && Traced(f, log, g) && f.strictBoot
    ensures MustAttempt(f, k) <==> exists i: nat :: Attempts(log, i, k)
    ensures forall i: nat, j: nat | Attempts(log, i, k) && Attempts(log, j, k) :: i == j
    ensures forall i: nat | Attempts(log, i, k) ::
              log[i].result == Ok(()) && AttemptStep(log[i].before, k, log[i].env, log[i].after, Ok(()))
  {
    hide AttemptStep, Traced, MustAttempt, Booted, Finished;
    if MustAttempt(f, k) {
      AttemptPlanned(f, waves, log, k);
    }
    forall i: nat | Attempts(log, i, k)
      ensures MustAttempt(f, k) && log[i].result == Ok(())
      ensures AttemptStep(log[i].before, k, log[i].env, log[i].after, Ok(()))
    {
      PlannedAttempt(f, waves, log, g, i, k);
      assert log[i].result.value == ();
    }
    forall i: nat, j: nat | Attempts(log, i, k) && Attempts(log, j, k) ensures i == j {
      AttemptedOnce(f, waves, log, i, j, k);
    }
  }

  /** In PID 1 a strict boot that succeeds leaves every active mount mounted. */
  lemma StrictBootMounts(f: Forge, waves: seq<seq<UnitKey>>, log: seq<Entry>, g: Forge, k: UnitKey)
    requires Booted(f, waves) && Finished(f, log, Plan(f, waves)) && Traced(f, log, g) && f.strictBoot
    requires forall i | 0 <= i < |log| :: log[i].env.pid1
    requires k in f.activeUnits && k < |f.arena| && f.arena[k].kind.Mount?
    ensures k < |g.arena| && g.arena[k].kind.Mount? && g.arena[k].kind.mounted
  {
    hide AttemptStep, FreshlyResolved, Sound;
    StrictBootComplete(f, waves, log, g, k);
    assert MustAttempt(f, k);
    var i: nat :| Attempts(log, i, k);
    AttemptedMounts(f, log, g, k, i);
  }

  lemma AttemptedMounts(f: Forge, log: seq<Entry>, g: Forge, k: UnitKey, i: nat)
    requires Sound(f) && Traced(f, log, g) && k < |f.arena| && f.arena[k].kind.Mount?
    requires Attempts(log, i, k) && log[i].env.pid1
    requires AttemptStep(log[i].before, k, log[i].env, log[i].after, Ok(()))
    ensures k < |g.arena| && g.arena[k].kind.Mount? && g.arena[k].kind.mounted
  {
    hide Sound, AttemptStep, Performed;
    var e := log[i];
    ShapeRefl(f);
    TraceKeeps(f, f, log, g);
    assert EntryWithin(f, e);
    MountStays(f, e.before, k);
    MountAttempted(e.before, k, e.env, e.after);
    TraceBack(f, log, g, i + 1);
    ShapeRefl(e.after);
    TraceKeeps(e.after, e.after, log[i + 1..], g);
    MountStays(f, e.after, k);
    MountStays(e.after, g, k);
  }

  lemma MountStays(f: Forge, g: Forge, k: UnitKey)
    requires SameShape(f, g) && k < |f.arena| && f.arena[k].kind.Mount?
    ensures k < |g.arena| && g.arena[k].kind.Mount? && (f.arena[k].kind.mounted ==> g.arena[k].kind.mounted)
  {
    assert SameUnit(f.arena[k], g.arena[k]);
  }

  lemma MountAttempted(f: Forge, k: UnitKey, env: Environment, g: Forge)
    requires AttemptStep(f, k, env, g, Ok(())) && f.arena[k].kind.Mount? && env.pid1
    ensures k < |g.arena| && g.arena[k].kind.Settled()
  {
    MountExact(f, k, env.works, env.pid1);
  }

  lemma TraceBack(f: Forge, log: seq<Entry>, g: Forge, i: nat)
    requires Traced(f, log, g) && 0 < i <= |log|
    ensures Traced(log[i - 1].after, log[i..], g)
  {
    hide Performed;
  }

  lemma EarlierWorked(f: Forge, waves: seq<seq<UnitKey>>, log: seq<Entry>, g: Forge, i: nat)
    requires Booted(f, waves) && Aborted(f, log, Plan(f, waves)) && Traced(f, log, g) && i < |log| - 1
    ensures log[i].result.Ok? && Performed(log[i])
  {
    hide Performed, FreshlyResolved, Sound;
    var plan := Plan(f, waves);
    EntryResult(log[i]);
    if log[i].what.Planned? {
      PlanCovers(f, waves, log[i].what.key);
      assert plan[i] in plan && plan[i] == Planned(plan[i].wave, plan[i].key);
    }
  }

  lemma LastWave(f: Forge, waves: seq<seq<UnitKey>>, log: seq<Entry>, i: nat)
    requires Booted(f, waves) && Aborted(f, log, Plan(f, waves)) && i < |log|
    ensures log[i].what.wave <= log[|log| - 1].what.wave
  {
    hide Plan, Tolerable, FreshlyResolved, Sound;
    PlanOrdered(f, waves);
    assert log[i].what == Plan(f, waves)[i] && log[|log| - 1].what == Plan(f, waves)[|log| - 1];
  }

  lemma LastFails(f: Forge, log: seq<Entry>, plan: seq<Planned>, g: Forge)
    requires Aborted(f, log, plan) && Traced(f, log, g)
    ensures var e := log[|log| - 1];
            && e.what.Planned? && e.what.key in f.requiredUnits && e.result.Err?
            && AttemptStep(e.before, e.what.key, e.env, g, e.result)
  {
    hide Performed, AttemptStep;
    EntryResult(log[|log| - 1]);
  }

  /**
    An error raised in wave i means that nothing of a later wave was attempted, and that every attempt before the last
    one had worked; the last is the attempt of a required unit, and its failure is what the boot reports.
   */
  lemma AbortStaysInWave(f: Forge, waves: seq<seq<UnitKey>>, log: seq<Entry>, g: Forge)
    requires Booted(f, waves) && Aborted(f, log, Plan(f, waves)) && Traced(f, log, g)
    ensures forall i | 0 <= i < |log| :: log[i].what.wave <= log[|log| - 1].what.wave
    ensures forall i | 0 <= i < |log| - 1 :: log[i].result.Ok? && Performed(log[i])
    ensures var e := log[|log| - 1];
            && e.what.Planned? && e.what.key in f.requiredUnits && e.result.Err?
            && AttemptStep(e.before, e.what.key, e.env, g, e.result)
  {
    hide Performed, AttemptStep, Booted, Traced, Plan, Tolerable, Follows;
    forall i | 0 <= i < |log| ensures log[i].what.wave <= log[|log| - 1].what.wave {
      LastWave(f, waves, log, i);
    }
    forall i | 0 <= i < |log| - 1 ensures log[i].result.Ok? && Performed(log[i]) {
      EarlierWorked(f, waves, log, g, i);
    }
    LastFails(f, log, Plan(f, waves), g);
  }

  lemma EntryResult(e: Entry)
    requires Performed(e)
    ensures e.what.WaveEnd? ==> e.result.Ok?
    ensures e.what.Planned? ==> AttemptStep(e.before, e.what.key, e.env, e.after, e.result)
  {
  }
}
