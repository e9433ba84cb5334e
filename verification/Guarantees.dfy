/** What the schedule guarantees about whole dependency chains: start order, stop order, and when there is none. */
module Guarantees {
  import opened Units
  import opened Names
  import opened Graphs
  import opened Waves
  import opened ForgeModel
  import opened Keeping
  import opened BootPlan
  import opened Schedules
  import opened ForgeStates

  /** Wherever the two units are scheduled, b is in a strictly earlier wave than a. */
  ghost predicate RunsBefore(waves: seq<seq<UnitKey>>, b: UnitKey, a: UnitKey) {
    forall i, j | 0 <= i < |waves| && 0 <= j < |waves| && a in waves[i] && b in waves[j] :: j < i
  }

  /** If unit a names unit b in `after` or `requires`, by any name, every schedule puts b in a strictly earlier wave. */
  lemma NamedStartsEarlier(f: Forge, waves: seq<seq<UnitKey>>, a: UnitKey, b: UnitKey, name: string)
    requires a < |f.arena| && Lookup(f, name) == Some(b)
    requires name in After(f.arena[a].kind) || (f.arena[a].kind.Service? && name in f.arena[a].kind.needs)
    ensures FreshlyResolved(f) && Scheduled(f, waves) ==> RunsBefore(waves, b, a)
  {
    if FreshlyResolved(f) && Scheduled(f, waves) {
      forall i, j | 0 <= i < |waves| && 0 <= j < |waves| && a in waves[i] && b in waves[j] ensures j < i {
        var g, s := DependencyGraph(f), BootableSet(f);
        BootableOnly(f, waves, i, a);
        BootableOnly(f, waves, j, b);
        assert name in Ordering(f.arena[a].kind);
        assert b in DependencyList(f, Ordering(f.arena[a].kind));
        assert LayeringAt(f.arena, g, s, i, waves[i]) && LayeringAt(f.arena, g, s, j, waves[j]);
        var w := DependencyEarlier(g, s, i, a, b);
        WaveUnique(g, s, w, j, b);
      }
    }
  }

  lemma BootableOnly(f: Forge, waves: seq<seq<UnitKey>>, i: nat, k: UnitKey)
    requires Scheduled(f, waves) && i < |waves| && k in waves[i]
    ensures k in BootableSet(f)
  {
    LayeringPartitions(f, waves);
  }

  /** The unit named t orders after the unit named first, unless it is a target. */
  ghost predicate OrderedBehind(f: Forge, first: string, t: string) {
    && t in f.nameIndex && f.nameIndex[t] < |f.arena|
    && (f.arena[f.nameIndex[t]].kind.Target? || first in After(f.arena[f.nameIndex[t]].kind))
  }

  /** An ordering once recorded stays. */
  lemma OrderedBehindStays(f: Forge, g: Forge, first: string, t: string)
    requires Extends(f, g) && Sound(g) && OrderedBehind(f, first, t)
    ensures OrderedBehind(g, first, t)
  {
    var k := f.nameIndex[t];
    assert SameDefinition(f.arena[k], g.arena[k]);
    TargetStays(f.arena[k], g.arena[k]);
  }

  lemma TargetStays(u: Unit, v: Unit)
    requires SameDefinition(u, v)
    ensures u.kind.Target? <==> v.kind.Target?
  {
  }

  /** A `before` edge recorded at any time puts its origin in a strictly earlier wave of every later schedule. */
  lemma BeforeStartsEarlier(f0: Forge, f: Forge, waves: seq<seq<UnitKey>>, first: string, t: string)
    requires OrderedBehind(f0, first, t) && Extends(f0, f)
    requires first in f.nameIndex && t in f.nameIndex
    ensures Sound(f) && FreshlyResolved(f) && Scheduled(f, waves)
            ==> RunsBefore(waves, f.nameIndex[first], f.nameIndex[t])
  {
    if Sound(f) && FreshlyResolved(f) && Scheduled(f, waves) {
      OrderedBehindStays(f0, f, first, t);
      if f.arena[f.nameIndex[t]].kind.Target? {
        TargetsUnscheduled(f, waves, f.nameIndex[t]);
      } else {
        NamedStartsEarlier(f, waves, f.nameIndex[t], f.nameIndex[first], first);
      }
    }
  }

  lemma TargetsUnscheduled(f: Forge, waves: seq<seq<UnitKey>>, k: UnitKey)
    requires Scheduled(f, waves) && k < |f.arena| && f.arena[k].kind.Target?
    ensures forall i | 0 <= i < |waves| :: k !in waves[i]
  {
    LayeringPartitions(f, waves);
  }

  /** When every dependency is bootable, scheduling fails exactly on a dependency cycle. */
  lemma DeadlockIsCycle(f: Forge)
    requires forall k, d | k in BootableSet(f) && d in f.arena[k].dependencies :: d in BootableSet(f)
    ensures Deadlocked(f) <==> exists c :: Cycle(DependencyGraph(f), c) && c[0] in BootableSet(f)
  {
    BlockedMeansCycle(DependencyGraph(f), BootableSet(f));
  }

  /** A dependency on an active timer is never released: a single such unit deadlocks the whole boot. */
  lemma TimerDependencyDeadlocks(f: Forge, k: UnitKey, d: UnitKey)
    requires k in BootableSet(f) && d in f.arena[k].dependencies && d < |f.arena| && f.arena[d].kind.Timer?
    ensures Deadlocked(f)
  {
    assert d in DependencyGraph(f)[k] && d !in BootableSet(f);
    assert Waits(DependencyGraph(f), BootableSet(f), {k}, k);
    assert Blocked(DependencyGraph(f), BootableSet(f), {k});
  }

  /** A bootable unit lists an active timer. */
  ghost predicate ListsTimer(f: Forge) {
    exists k, d :: k in BootableSet(f) && d in f.arena[k].dependencies && d < |f.arena| && f.arena[d].kind.Timer?
  }

  ghost predicate CycleFromBootable(f: Forge) {
    exists c :: Cycle(DependencyGraph(f), c) && c[0] in BootableSet(f)
  }

  /** Exactly when a resolved graph has no schedule: a unit waits for a timer, or units wait for each other. */
  lemma DeadlockExact(f: Forge)
    requires FreshlyResolved(f)
    ensures Deadlocked(f) <==> ListsTimer(f) || CycleFromBootable(f)
  {
    if ListsTimer(f) {
      var k, d :| k in BootableSet(f) && d in f.arena[k].dependencies && d < |f.arena| && f.arena[d].kind.Timer?;
      TimerDependencyDeadlocks(f, k, d);
    } else {
      forall k, d | k in BootableSet(f) && d in f.arena[k].dependencies ensures d in BootableSet(f) {
        assert d in DependencyList(f, Ordering(f.arena[k].kind)) && Orders(f, d);
      }
      DeadlockIsCycle(f);
    }
  }

  // ---- Stop order -------------------------------------------------------------------------------------------

  lemma {:induction false} BackwardsSplit(f: Forge, u: seq<seq<UnitKey>>, v: seq<seq<UnitKey>>)
    ensures ServicesBackwards(f, u + v) == ServicesBackwards(f, v) + ServicesBackwards(f, u)
  {
    if u == [] {
      assert u + v == v;
    } else {
      assert (u + v)[1..] == u[1..] + v;
      BackwardsSplit(f, u[1..], v);
    }
  }

  lemma {:induction false} ServicesInOnce(f: Forge, wave: seq<UnitKey>)
    requires NoDuplicates(wave)
    ensures NoDuplicates(ServicesIn(f, wave))
  {
    if wave == [] {
    } else {
      ServicesInOnce(f, wave[1..]);
      ServicesInOnly(f, wave[1..]);
      assert wave == [wave[0]] + wave[1..];
      assert wave[0] !in wave[1..];
    }
  }

  /** No unit occurs twice in the waves. */
  ghost predicate Apart(waves: seq<seq<UnitKey>>) {
    && (forall i | 0 <= i < |waves| :: NoDuplicates(waves[i]))
    && (forall i, j, k | 0 <= i < |waves| && 0 <= j < |waves| && k in waves[i] && k in waves[j] :: i == j)
  }

  lemma {:induction false} BackwardsOnce(f: Forge, waves: seq<seq<UnitKey>>)
    requires Apart(waves)
    ensures NoDuplicates(ServicesBackwards(f, waves))
  {
    if waves == [] {
    } else {
      var rest := waves[1..];
      assert forall i | 0 <= i < |rest| :: rest[i] == waves[i + 1];
      BackwardsOnce(f, rest);
      ServicesInOnce(f, waves[0]);
      ServicesInOnly(f, waves[0]);
      forall k | k in ServicesBackwards(f, rest) ensures k !in ServicesIn(f, waves[0]) {
        BackwardsHas(f, rest, k);
        var i :| 0 <= i < |rest| && k in rest[i];
        assert k in waves[i + 1];
      }
      Joined(ServicesBackwards(f, rest), ServicesIn(f, waves[0]));
    }
  }

  /** The stop order of any waves that hold each bootable unit once lists each bootable service exactly once. */
  lemma StopOrderComplete(f: Forge, waves: seq<seq<UnitKey>>, k: UnitKey)
    requires Partition(waves, BootableSet(f))
    ensures NoDuplicates(ServicesBackwards(f, waves))
    ensures k in ServicesBackwards(f, waves) <==> k in BootableSet(f) && f.arena[k].kind.Service?
  {
    BackwardsOnce(f, waves);
    BackwardsHas(f, waves, k);
  }

  /** A service is stopped before every service it depends on through any chain of units. */
  lemma StopsBeforeDependencies(f: Forge, waves: seq<seq<UnitKey>>, p: seq<UnitKey>, m: nat, n: nat)
    requires Scheduled(f, waves) && Walk(DependencyGraph(f), p) && |p| > 1
    requires p[0] in BootableSet(f)
    requires m < |ServicesBackwards(f, waves)| && ServicesBackwards(f, waves)[m] == p[0]
    requires n < |ServicesBackwards(f, waves)| && ServicesBackwards(f, waves)[n] == p[|p| - 1]
    ensures m < n
  {
    var g, s := DependencyGraph(f), BootableSet(f);
    var i := WaveOf(g, s, |waves|, p[0]);
    var j := ChainDescends(g, s, i, p);
    assert LayeringAt(f.arena, g, s, i, waves[i]) && LayeringAt(f.arena, g, s, j, waves[j]);
    LayeringPartitions(f, waves);
    StopOrderComplete(f, waves, p[0]);
    LaterWaveStopsFirst(f, waves, i, j, m, n);
  }

  lemma LaterWaveStopsFirst(f: Forge, waves: seq<seq<UnitKey>>, i: nat, j: nat, m: nat, n: nat)
    requires j < i < |waves| && NoDuplicates(ServicesBackwards(f, waves))
    requires m < |ServicesBackwards(f, waves)| && n < |ServicesBackwards(f, waves)|
    requires ServicesBackwards(f, waves)[m] in waves[i] && ServicesBackwards(f, waves)[n] in waves[j]
    ensures m < n
  {
    var order := ServicesBackwards(f, waves);
    var late, early := ServicesBackwards(f, waves[i..]), ServicesBackwards(f, waves[..i]);
    assert waves == waves[..i] + waves[i..];
    BackwardsSplit(f, waves[..i], waves[i..]);
    InParts(f, waves, i, order[m], order[n], j);
    var x :| 0 <= x < |late| && late[x] == order[m];
    var y :| 0 <= y < |early| && early[y] == order[n];
    SameIndex(order, m, x);
    SameIndex(order, n, |late| + y);
  }

  lemma SameIndex(s: seq<UnitKey>, i: nat, j: nat)
    requires NoDuplicates(s) && i < |s| && j < |s| && s[i] == s[j]
    ensures i == j
  {
  }

  lemma InParts(f: Forge, waves: seq<seq<UnitKey>>, i: nat, a: UnitKey, b: UnitKey, j: nat)
    requires i < |waves| && j < i && a in waves[i] && b in waves[j]
    requires a in ServicesBackwards(f, waves) && b in ServicesBackwards(f, waves)
    ensures a in ServicesBackwards(f, waves[i..]) && b in ServicesBackwards(f, waves[..i])
  {
    BackwardsHas(f, waves, a);
    BackwardsHas(f, waves, b);
    assert a in waves[i..][0] && b in waves[..i][j];
    BackwardsHas(f, waves[i..], a);
    BackwardsHas(f, waves[..i], b);
  }

  lemma {:induction false} ServicesInSorted(f: Forge, wave: seq<UnitKey>)
    requires Live(f.arena, wave) && SortedByName(f.arena, wave)
    ensures Live(f.arena, ServicesIn(f, wave)) && SortedByName(f.arena, ServicesIn(f, wave))
  {
    if wave == [] {
    } else {
      var rest := wave[1..];
      ServicesInSorted(f, rest);
      ServicesInOnly(f, rest);
      forall i | 0 <= i < |ServicesIn(f, rest)|
        ensures Before(f.arena[wave[0]].name, f.arena[ServicesIn(f, rest)[i]].name)
      {
        assert ServicesIn(f, rest)[i] in rest;
        var j :| 0 <= j < |rest| && rest[j] == ServicesIn(f, rest)[i];
        assert wave[j + 1] == rest[j];
      }
    }
  }

  lemma SameWaveByName(f: Forge, waves: seq<seq<UnitKey>>, i: nat, m: nat, n: nat)
    requires i < |waves| && Live(f.arena, waves[i]) && SortedByName(f.arena, waves[i])
    requires NoDuplicates(ServicesBackwards(f, waves)) && m < n < |ServicesBackwards(f, waves)|
    requires ServicesBackwards(f, waves)[m] in waves[i] && ServicesBackwards(f, waves)[n] in waves[i]
    ensures ServicesBackwards(f, waves)[m] < |f.arena| && ServicesBackwards(f, waves)[n] < |f.arena|
    ensures Before(f.arena[ServicesBackwards(f, waves)[m]].name, f.arena[ServicesBackwards(f, waves)[n]].name)
  {
    var here := ServicesIn(f, waves[i]);
    ServicesInOnly(f, waves[i]);
    ServicesInSorted(f, waves[i]);
    var x := PlaceInWave(f, waves, i, m);
    var y := PlaceInWave(f, waves, i, n);
    hide ServicesBackwards, ServicesIn, Before, NoDuplicates;
    assert x < y && here[x] in here && here[y] in here;
  }

  /** Where the service at place m of the stop order stands among the services of its wave. */
  lemma PlaceInWave(f: Forge, waves: seq<seq<UnitKey>>, i: nat, m: nat) returns (x: nat)
    requires i < |waves| && NoDuplicates(ServicesBackwards(f, waves))
    requires m < |ServicesBackwards(f, waves)| && ServicesBackwards(f, waves)[m] in waves[i]
    ensures x < |ServicesIn(f, waves[i])| && ServicesIn(f, waves[i])[x] == ServicesBackwards(f, waves)[m]
    ensures m == |ServicesBackwards(f, waves[i + 1..])| + x
  {
    var order, here := ServicesBackwards(f, waves), ServicesIn(f, waves[i]);
    var late, early := ServicesBackwards(f, waves[i + 1..]), ServicesBackwards(f, waves[..i]);
    assert waves == waves[..i] + waves[i..];
    BackwardsSplit(f, waves[..i], waves[i..]);
    assert order == late + here + early;
    ServicesOnly(f, waves);
    ServicesInOnly(f, waves[i]);
    assert order[m] in order;
    hide ServicesBackwards, ServicesIn;
    x :| 0 <= x < |here| && here[x] == order[m];
    SameIndex(order, m, |late| + x);
  }

  /** Whole stop order: of two services the one in the later wave stops first, and within a wave the one named first. */
  lemma StopOrderExact(f: Forge, waves: seq<seq<UnitKey>>, i: nat, j: nat, m: nat, n: nat)
    requires Scheduled(f, waves) && i < |waves| && j < |waves| && m < n < |ServicesBackwards(f, waves)|
    requires ServicesBackwards(f, waves)[m] in waves[i] && ServicesBackwards(f, waves)[n] in waves[j]
    ensures j <= i
    ensures var a, b := ServicesBackwards(f, waves)[m], ServicesBackwards(f, waves)[n];
            i == j ==> a < |f.arena| && b < |f.arena| && Before(f.arena[a].name, f.arena[b].name)
  {
    LayeringPartitions(f, waves);
    StopOrderComplete(f, waves, 0);
    if i < j {
      LaterWaveStopsFirst(f, waves, j, i, n, m);
    } else if i == j {
      assert LayeringAt(f.arena, DependencyGraph(f), BootableSet(f), i, waves[i]);
      SameWaveByName(f, waves, i, m, n);
    }
  }
}
