/** In which order the boot loop attempts units, and what a run of it may have done. */
module BootPlan {
  import opened Units
  import opened Names
  import opened Waves
  import opened ForgeModel
  import opened Supervision

  /** Each wave is passed over three times: sockets, mounts, services. Devices are not attempted. */
  datatype Pass = Sockets | Mounts | Services

  predicate InPass(kind: Kind, pass: Pass) {
    match pass
    case Sockets => kind.Socket?
    case Mounts => kind.Mount?
    case Services => kind.Service?
  }

  predicate Attemptable(kind: Kind) {
    kind.Socket? || kind.Mount? || kind.Service?
  }

  /** What the loop does: it attempts a unit, or it reaps at the end of a wave. */
  datatype Planned = Planned(wave: nat, key: UnitKey) | WaveEnd(wave: nat)

  /** The units of a wave that one pass attempts. */
  function PassPlan(f: Forge, index: nat, wave: seq<UnitKey>, pass: Pass): seq<Planned> {
    if wave == [] then []
    else
      var n := |wave| - 1;
      PassPlan(f, index, wave[..n], pass) + PlannedHere(f, index, wave[n], pass)
  }

  function PlannedHere(f: Forge, index: nat, k: UnitKey, pass: Pass): seq<Planned> {
    if k < |f.arena| && InPass(f.arena[k].kind, pass) then [Planned(index, k)] else []
  }

  lemma KindSame(f: Forge, g: Forge, k: UnitKey, pass: Pass)
    requires SameShape(f, g) && k < |f.arena|
    ensures InPass(f.arena[k].kind, pass) <==> InPass(g.arena[k].kind, pass)
  {
    assert SameUnit(f.arena[k], g.arena[k]);
  }

  function WavePlan(f: Forge, index: nat, wave: seq<UnitKey>): seq<Planned> {
    PassPlan(f, index, wave, Sockets) + PassPlan(f, index, wave, Mounts) + PassPlan(f, index, wave, Services)
    + [WaveEnd(index)]
  }

  function Plan(f: Forge, waves: seq<seq<UnitKey>>): seq<Planned> {
    if waves == [] then []
    else
      var n := |waves| - 1;
      Plan(f, waves[..n]) + WavePlan(f, n, waves[n])
  }

  /** The waves hold each unit of s once, and no other unit. */
  ghost predicate Partition(waves: seq<seq<UnitKey>>, s: set<UnitKey>) {
    && (forall i | 0 <= i < |waves| :: NoDuplicates(waves[i]) && forall k | k in waves[i] :: k in s)
    && (forall k | k in s :: InSomeWave(waves, k))
    && (forall i, j, k | 0 <= i < |waves| && 0 <= j < |waves| && k in waves[i] && k in waves[j] :: i == j)
  }

  ghost predicate InSomeWave(waves: seq<seq<UnitKey>>, k: UnitKey) {
    exists i :: 0 <= i < |waves| && k in waves[i]
  }

  lemma LayeringPartitions(f: Forge, waves: seq<seq<UnitKey>>)
    requires Layering(f.arena, DependencyGraph(f), BootableSet(f), waves)
    requires Started(DependencyGraph(f), BootableSet(f), |waves|) == BootableSet(f)
    ensures Partition(waves, BootableSet(f))
  {
    var g, b := DependencyGraph(f), BootableSet(f);
    forall i | 0 <= i < |waves| ensures LayeringAt(f.arena, g, b, i, waves[i]) {}
    forall i, k | 0 <= i < |waves| && k in waves[i] ensures k in b {
      StartedGrows(g, b, i + 1, i + 1);
    }
    forall k | k in b ensures InSomeWave(waves, k) {
      var i := WaveOf(g, b, |waves|, k);
      assert k in waves[i];
    }
    forall i, j, k | 0 <= i < |waves| && 0 <= j < |waves| && k in waves[i] && k in waves[j] ensures i == j {
      WaveUnique(g, b, i, j, k);
    }
  }

  lemma {:induction false} PassPlanExact(f: Forge, index: nat, wave: seq<UnitKey>, pass: Pass)
    requires Live(f.arena, wave) && NoDuplicates(wave)
    ensures NoDuplicates(PassPlan(f, index, wave, pass))
    ensures forall p :: p in PassPlan(f, index, wave, pass)
              <==> p.Planned? && p.wave == index && p.key in wave && p.key < |f.arena|
                   && InPass(f.arena[p.key].kind, pass)
  {
    if wave == [] {
    } else {
      var n := |wave| - 1;
      PassPlanExact(f, index, wave[..n], pass);
      assert wave == wave[..n] + [wave[n]];
      assert wave[n] !in wave[..n];
    }
  }

  lemma Joined<T>(a: seq<T>, b: seq<T>)
    requires NoDuplicates(a) && NoDuplicates(b) && forall x | x in a :: x !in b
    ensures NoDuplicates(a + b)
  {
    forall i, j | 0 <= i < j < |a + b| ensures (a + b)[i] != (a + b)[j] {
      if i < |a| <= j {
        assert a[i] in a && b[j - |a|] in b;
      }
    }
  }

  ghost predicate AttemptedIn(f: Forge, wave: seq<UnitKey>, k: UnitKey) {
    k in wave && k < |f.arena| && Attemptable(f.arena[k].kind)
  }

  lemma WavePlanExact(f: Forge, index: nat, wave: seq<UnitKey>)
    requires Live(f.arena, wave) && NoDuplicates(wave)
    ensures NoDuplicates(WavePlan(f, index, wave))
    ensures forall p :: p in WavePlan(f, index, wave)
              <==> p.wave == index && (p.Planned? ==> AttemptedIn(f, wave, p.key))
  {
    var a, b := PassPlan(f, index, wave, Sockets), PassPlan(f, index, wave, Mounts);
    var c := PassPlan(f, index, wave, Services);
    PassPlanExact(f, index, wave, Sockets);
    PassPlanExact(f, index, wave, Mounts);
    PassPlanExact(f, index, wave, Services);
    Joined(a, b);
    Joined(a + b, c);
    Joined(a + b + c, [WaveEnd(index)]);
  }

  /** The plan lists exactly the attemptable units of each wave, each once. */
  lemma {:induction false} PlanExact(f: Forge, waves: seq<seq<UnitKey>>)
    requires forall i | 0 <= i < |waves| :: Live(f.arena, waves[i]) && NoDuplicates(waves[i])
    ensures NoDuplicates(Plan(f, waves))
    ensures forall p :: p in Plan(f, waves)
              <==> p.wave < |waves| && (p.Planned? ==> AttemptedIn(f, waves[p.wave], p.key))
    decreases |waves|
  {
    if waves == [] {
    } else {
      var n := |waves| - 1;
      PlanExact(f, waves[..n]);
      WavePlanExact(f, n, waves[n]);
      Joined(Plan(f, waves[..n]), WavePlan(f, n, waves[n]));
    }
  }

  ghost predicate InOrder(plan: seq<Planned>) {
    forall i, j | 0 <= i < j < |plan| :: plan[i].wave <= plan[j].wave
  }

  lemma InOrderThen(a: seq<Planned>, b: seq<Planned>, n: nat)
    requires InOrder(a) && (forall p | p in a :: p.wave < n) && forall p | p in b :: p.wave == n
    ensures InOrder(a + b)
  {
    forall i | 0 <= i < |a| + |b| ensures if i < |a| then (a + b)[i].wave < n else (a + b)[i].wave == n {
      assert (a + b)[i] == if i < |a| then a[i] else b[i - |a|];
    }
  }

  /** Later entries of the plan are in the same or a later wave. */
  lemma {:induction false} PlanOrdered(f: Forge, waves: seq<seq<UnitKey>>)
    requires forall i | 0 <= i < |waves| :: Live(f.arena, waves[i]) && NoDuplicates(waves[i])
    ensures InOrder(Plan(f, waves))
    decreases |waves|
  {
    if waves == [] {
    } else {
      var n := |waves| - 1;
      PlanOrdered(f, waves[..n]);
      PlanExact(f, waves[..n]);
      WavePlanExact(f, n, waves[n]);
      InOrderThen(Plan(f, waves[..n]), WavePlan(f, n, waves[n]), n);
    }
  }

  ghost predicate EarlierIn(wave: seq<UnitKey>, a: UnitKey, b: UnitKey) {
    exists i, j :: 0 <= i < j < |wave| && wave[i] == a && wave[j] == b
  }

  /** Sockets come before mounts, and these before services. */
  function Rank(kind: Kind): nat {
    if kind.Socket? then 0 else if kind.Mount? then 1 else 2
  }

  /** p comes before q: its wave is earlier, or q ends their wave, or its kind, or in one kind its place in the wave. */
  ghost predicate Precedes(f: Forge, waves: seq<seq<UnitKey>>, p: Planned, q: Planned) {
    || p.wave < q.wave
    || (p.wave == q.wave < |waves| && p.Planned? && q.WaveEnd?)
    || (p.wave == q.wave < |waves| && p.Planned? && q.Planned? && p.key < |f.arena| && q.key < |f.arena|
        && (Rank(f.arena[p.key].kind) < Rank(f.arena[q.key].kind)
            || (f.arena[p.key].kind.Socket? == f.arena[q.key].kind.Socket?
                && f.arena[p.key].kind.Mount? == f.arena[q.key].kind.Mount?
                && EarlierIn(waves[p.wave], p.key, q.key))))
  }

  ghost predicate Sequenced(f: Forge, waves: seq<seq<UnitKey>>, plan: seq<Planned>) {
    forall i, j | 0 <= i < j < |plan| :: Precedes(f, waves, plan[i], plan[j])
  }

  lemma SequencedThen(f: Forge, waves: seq<seq<UnitKey>>, a: seq<Planned>, b: seq<Planned>)
    requires Sequenced(f, waves, a) && Sequenced(f, waves, b)
    requires forall p, q | p in a && q in b :: Precedes(f, waves, p, q)
    ensures Sequenced(f, waves, a + b)
  {
    hide Precedes;
    var all := a + b;
    forall i, j | 0 <= i < j < |all| ensures Precedes(f, waves, all[i], all[j]) {
      if i < |a| <= j {
        assert all[i] in a && all[j] in b;
      }
    }
  }

  lemma {:induction false} PassSequenced(f: Forge, waves: seq<seq<UnitKey>>, n: nat, m: nat, pass: Pass)
    requires n < |waves| && m <= |waves[n]| && Live(f.arena, waves[n]) && NoDuplicates(waves[n])
    ensures Sequenced(f, waves, PassPlan(f, n, waves[n][..m], pass))
    decreases m
  {
    if m == 0 {
    } else {
      var wave := waves[n][..m];
      PassSequenced(f, waves, n, m - 1, pass);
      assert wave[..m - 1] == waves[n][..m - 1];
      var front, last := PassPlan(f, n, wave[..m - 1], pass), PlannedHere(f, n, wave[m - 1], pass);
      assert PassPlan(f, n, wave, pass) == front + last;
      PassPlanExact(f, n, wave[..m - 1], pass);
      OneSequenced(f, waves, Planned(n, wave[m - 1]));
      hide Precedes, Sequenced, PassPlan;
      forall p, q | p in front && q in last ensures Precedes(f, waves, p, q) {
        PassPrecedes(f, waves, n, m - 1, pass, p, q);
      }
      assert last == [] || last == [Planned(n, wave[m - 1])];
      SequencedThen(f, waves, front, last);
    }
  }

  lemma PassPrecedes(f: Forge, waves: seq<seq<UnitKey>>, n: nat, m: nat, pass: Pass, p: Planned, q: Planned)
    requires n < |waves| && m < |waves[n]|
    requires p.Planned? && p.wave == n && p.key in waves[n][..m] && p.key < |f.arena|
    requires InPass(f.arena[p.key].kind, pass)
    requires q == Planned(n, waves[n][m]) && q.key < |f.arena| && InPass(f.arena[q.key].kind, pass)
    ensures Precedes(f, waves, p, q)
  {
    var i :| 0 <= i < m && waves[n][..m][i] == p.key;
    assert waves[n][i] == p.key && waves[n][m] == q.key;
  }

  lemma WaveSequenced(f: Forge, waves: seq<seq<UnitKey>>, n: nat)
    requires n < |waves| && Live(f.arena, waves[n]) && NoDuplicates(waves[n])
    ensures Sequenced(f, waves, WavePlan(f, n, waves[n]))
  {
    var wave := waves[n];
    var a, b := PassPlan(f, n, wave, Sockets), PassPlan(f, n, wave, Mounts);
    var c := PassPlan(f, n, wave, Services);
    assert wave[..|wave|] == wave;
    PassSequenced(f, waves, n, |wave|, Sockets);
    PassSequenced(f, waves, n, |wave|, Mounts);
    PassSequenced(f, waves, n, |wave|, Services);
    PassPlanExact(f, n, wave, Sockets);
    PassPlanExact(f, n, wave, Mounts);
    PassPlanExact(f, n, wave, Services);
    hide PassPlan, Sequenced;
    SequencedThen(f, waves, a, b);
    SequencedThen(f, waves, a + b, c);
    OneSequenced(f, waves, WaveEnd(n));
    SequencedThen(f, waves, a + b + c, [WaveEnd(n)]);
  }

  lemma OneSequenced(f: Forge, waves: seq<seq<UnitKey>>, p: Planned)
    ensures Sequenced(f, waves, [p]) && Sequenced(f, waves, [])
  {
  }

  /** The plan goes wave by wave, in each through sockets, mounts and services in the wave's order, then ends it. */
  lemma {:induction false} PlanSequenced(f: Forge, waves: seq<seq<UnitKey>>, n: nat)
    requires n <= |waves| && forall i | 0 <= i < |waves| :: Live(f.arena, waves[i]) && NoDuplicates(waves[i])
    ensures Sequenced(f, waves, Plan(f, waves[..n]))
    decreases n
  {
    if n == 0 {
    } else {
      PlanSequenced(f, waves, n - 1);
      assert waves[..n][..n - 1] == waves[..n - 1];
      PlanExact(f, waves[..n - 1]);
      WavePlanExact(f, n - 1, waves[n - 1]);
      WaveSequenced(f, waves, n - 1);
      hide Sequenced, WavePlan;
      SequencedThen(f, waves, Plan(f, waves[..n - 1]), WavePlan(f, n - 1, waves[n - 1]));
    }
  }

  /** Entries of the plan come in that order, and the loop follows the plan. */
  lemma PlanOrderExact(f: Forge, waves: seq<seq<UnitKey>>)
    requires forall i | 0 <= i < |waves| :: Live(f.arena, waves[i]) && NoDuplicates(waves[i])
    ensures Sequenced(f, waves, Plan(f, waves))
  {
    PlanSequenced(f, waves, |waves|);
    assert waves[..|waves|] == waves;
  }

  ghost predicate MustAttempt(f: Forge, k: UnitKey) {
    k in f.activeUnits && k < |f.arena| && Attemptable(f.arena[k].kind)
  }

  /** In a partition of the bootable units, exactly the active sockets, mounts and services are planned. */
  lemma PlanCovers(f: Forge, waves: seq<seq<UnitKey>>, k: UnitKey)
    requires Partition(waves, BootableSet(f)) && forall i | 0 <= i < |waves| :: Live(f.arena, waves[i])
    ensures MustAttempt(f, k) <==> exists w :: Planned(w, k) in Plan(f, waves)
  {
    PlanExact(f, waves);
    if MustAttempt(f, k) {
      assert InSomeWave(waves, k);
      var i :| 0 <= i < |waves| && k in waves[i];
      assert Planned(i, k) in Plan(f, waves);
    }
  }

  /** And none of them twice. */
  lemma PlanOnce(f: Forge, waves: seq<seq<UnitKey>>, i: nat, j: nat)
    requires Partition(waves, BootableSet(f)) && forall i | 0 <= i < |waves| :: Live(f.arena, waves[i])
    requires i < |Plan(f, waves)| && j < |Plan(f, waves)| && Plan(f, waves)[i].Planned? && Plan(f, waves)[j].Planned?
    requires Plan(f, waves)[i].key == Plan(f, waves)[j].key
    ensures i == j
  {
    PlanExact(f, waves);
    var p, q := Plan(f, waves)[i], Plan(f, waves)[j];
    assert p in Plan(f, waves) && q in Plan(f, waves);
    assert p == q;
  }

  // ---- The log ----------------------------------------------------------------------------------------------

  /** What the environment decides during one entry of the log. */
  datatype Environment = Environment(
    listeners: map<UnitKey, seq<SocketEntry>>,  // sockets that can be opened
    works: bool,                                // the mount call succeeds
    pid1: bool,                                 // the manager is PID 1
    world: World,                               // a service start
    exits: seq<(Pid, ExitStatus)>)              // exits reported at the end of a wave

  /** An entry of the plan carried out: the states around it, and its result. */
  datatype Entry = Entry(what: Planned, env: Environment, before: Forge, after: Forge, result: Result<()>)

  function ActivateByKind(f: Forge, k: UnitKey, env: Environment): (Forge, Result<()>)
    requires k < |f.arena|
  {
    if f.arena[k].kind.Socket? then ActivateSocket(f, k, env.listeners)
    else if f.arena[k].kind.Mount? then ActivateMount(f, k, env.works, env.pid1)
    else
      var (g, r) := StartService(f, k, env.world);
      (g, if r.Ok? then Ok(()) else Err(r.error))
  }

  /** A failure marks the unit. */
  function MarkFailed(f: Forge, k: UnitKey, r: Result<()>): Forge {
    if r.Err? && k < |f.arena| then SetState(f, k, Failed) else f
  }

  ghost predicate AttemptStep(f: Forge, k: UnitKey, env: Environment, g: Forge, r: Result<()>) {
    && k < |f.arena|
    && r == ActivateByKind(f, k, env).1
    && g == MarkFailed(ActivateByKind(f, k, env).0, k, r)
  }

  ghost predicate Performed(e: Entry) {
    match e.what
    case Planned(_, k) => AttemptStep(e.before, k, e.env, e.after, e.result)
    case WaveEnd(_) => e.result == Ok(()) && e.after == Reap(e.before, e.env.exits)
  }

  /** The log leads from f to g: each entry was performed, on the state that the one before it left. */
  ghost predicate Traced(f: Forge, log: seq<Entry>, g: Forge) {
    && (if log == [] then f == g else log[0].before == f && log[|log| - 1].after == g)
    && (forall i | 0 < i < |log| :: log[i].before == log[i - 1].after)
    && (forall i | 0 <= i < |log| :: Performed(log[i]))
  }

  lemma TracedThen(f: Forge, a: seq<Entry>, g: Forge, b: seq<Entry>, h: Forge)
    requires Traced(f, a, g) && Traced(g, b, h)
    ensures Traced(f, a + b, h)
  {
    hide Performed;
    forall i | 0 < i < |a + b| ensures (a + b)[i].before == (a + b)[i - 1].after {}
  }

  /** The log follows the plan as far as it goes. */
  ghost predicate Follows(log: seq<Entry>, plan: seq<Planned>) {
    |log| <= |plan| && forall i | 0 <= i < |log| :: log[i].what == plan[i]
  }

  /** In a strict boot the loop goes on only if the entry worked, or its unit is not required. */
  ghost predicate Tolerable(f: Forge, e: Entry) {
    f.strictBoot ==> e.result.Ok? || e.what.WaveEnd? || e.what.key !in f.requiredUnits
  }

  /** A finished pass: everything planned was done, and in a strict boot every failure was tolerable. */
  ghost predicate Finished(f: Forge, log: seq<Entry>, plan: seq<Planned>) {
    |log| == |plan| && Follows(log, plan) && forall i | 0 <= i < |log| :: Tolerable(f, log[i])
  }

  /** An aborted pass: its last attempt is the failure of a required unit in a strict boot, the first such. */
  ghost predicate Aborted(f: Forge, log: seq<Entry>, plan: seq<Planned>) {
    && log != [] && Follows(log, plan)
    && !Tolerable(f, log[|log| - 1])
    && forall i | 0 <= i < |log| - 1 :: Tolerable(f, log[i])
  }

  lemma FinishedThen(f: Forge, a: seq<Entry>, p: seq<Planned>, b: seq<Entry>, q: seq<Planned>)
    requires Finished(f, a, p)
    ensures Finished(f, b, q) ==> Finished(f, a + b, p + q)
    ensures Aborted(f, b, q) ==> Aborted(f, a + b, p + q)
  {
  }

  lemma AbortedEarly(f: Forge, log: seq<Entry>, p: seq<Planned>, q: seq<Planned>)
    requires Aborted(f, log, p)
    ensures Aborted(f, log, p + q)
  {
  }

  lemma {:induction false} PassPlanPrefix(f: Forge, index: nat, wave: seq<UnitKey>, pass: Pass, m: nat)
    returns (rest: seq<Planned>)
    requires m <= |wave|
    ensures PassPlan(f, index, wave, pass) == PassPlan(f, index, wave[..m], pass) + rest
    decreases |wave|
  {
    if m == |wave| {
      assert wave[..m] == wave;
      rest := [];
    } else {
      var n := |wave| - 1;
      var mid := PassPlanPrefix(f, index, wave[..n], pass, m);
      assert wave[..n][..m] == wave[..m];
      rest := mid + PlannedHere(f, index, wave[n], pass);
    }
  }

  lemma Regroup<T>(a: seq<T>, b: seq<T>, c: seq<T>)
    ensures (a + b) + c == a + (b + c)
  {
  }

  lemma {:induction false} PlanPrefix(f: Forge, waves: seq<seq<UnitKey>>, m: nat) returns (rest: seq<Planned>)
    requires m <= |waves|
    ensures Plan(f, waves) == Plan(f, waves[..m]) + rest
    decreases |waves|
  {
    if m == |waves| {
      assert waves[..m] == waves;
      rest := [];
    } else {
      var n := |waves| - 1;
      var mid := PlanPrefix(f, waves[..n], m);
      assert waves[..n][..m] == waves[..m];
      rest := mid + WavePlan(f, n, waves[n]);
      Regroup(Plan(f, waves[..m]), mid, WavePlan(f, n, waves[n]));
    }
  }

  /** One more entry: the log goes on, or, if a required unit failed in a strict boot, ends. */
  lemma EntryNext(f: Forge, log: seq<Entry>, plan: seq<Planned>, e: Entry)
    requires Finished(f, log, plan)
    ensures Tolerable(f, e) ==> Finished(f, log + [e], plan + [e.what])
    ensures !Tolerable(f, e) ==> Aborted(f, log + [e], plan + [e.what])
  {
  }
}
