/**
  What a layered schedule of a dependency graph is: which units have started after each round,
  when the schedule covers every bootable unit, and where in it a unit lies. Nothing here mentions
  degrees, queues or the reverse index that the scheduler works with.
 */
module Waves {
  import opened Units
  import opened Names
  import opened Graphs

  ghost predicate Released(g: Graph, done: set<UnitKey>, k: UnitKey) {
    k < |g| && forall d | d in g[k] :: d in done
  }

  /** The bootable units started by the first i rounds. */
  ghost function Started(g: Graph, b: set<UnitKey>, i: nat): set<UnitKey> {
    if i == 0 then {} else Started(g, b, i - 1) + (set k | k in b && Released(g, Started(g, b, i - 1), k))
  }

  /** The units that start in round i. */
  ghost function Wave(g: Graph, b: set<UnitKey>, i: nat): set<UnitKey> {
    Started(g, b, i + 1) - Started(g, b, i)
  }

  lemma {:induction false} StartedGrows(g: Graph, b: set<UnitKey>, i: nat, j: nat)
    requires i <= j
    ensures Started(g, b, i) <= Started(g, b, j) <= b
  {
    if j == 0 {
    } else {
      StartedGrows(g, b, if i < j then i else i - 1, j - 1);
    }
  }

  lemma WaveReleased(g: Graph, b: set<UnitKey>, i: nat, k: UnitKey)
    ensures k in Wave(g, b, i) <==> k in b && k !in Started(g, b, i) && Released(g, Started(g, b, i), k)
  {
    StartedGrows(g, b, i, i);
  }

  /** After an empty round nothing more ever starts. */
  lemma {:induction false} StartedSettles(g: Graph, b: set<UnitKey>, n: nat, m: nat)
    requires Wave(g, b, n) == {} && n <= m
    ensures Started(g, b, m) == Started(g, b, n)
  {
    StartedGrows(g, b, n, n + 1);
    if n == m {
    } else {
      StartedSettles(g, b, n, m - 1);
      assert Started(g, b, n + 1) == Started(g, b, n) + Wave(g, b, n);
      assert Started(g, b, m - 1) == Started(g, b, n);
    }
  }

  /** Some round is empty. */
  lemma {:induction false} EmptyWave(g: Graph, b: set<UnitKey>, i: nat) returns (n: nat)
    ensures Wave(g, b, n) == {}
    decreases |b - Started(g, b, i)|
  {
    if Wave(g, b, i) == {} {
      n := i;
    } else {
      StartedGrows(g, b, i, i + 1);
      var k :| k in Wave(g, b, i);
      assert k in b - Started(g, b, i) && k !in b - Started(g, b, i + 1);
      Fewer(b - Started(g, b, i + 1), b - Started(g, b, i));
      n := EmptyWave(g, b, i + 1);
    }
  }

  lemma Fewer(s: set<UnitKey>, t: set<UnitKey>)
    requires s < t
    ensures |s| < |t|
  {
    assert t == s + (t - s) && t - s != {};
  }

  /** A started unit lies in exactly one wave. */
  lemma {:induction false} WaveExists(g: Graph, b: set<UnitKey>, i: nat, k: UnitKey) returns (w: nat)
    requires k in Started(g, b, i)
    ensures w < i && k in Wave(g, b, w)
  {
    if k in Started(g, b, i - 1) {
      w := WaveExists(g, b, i - 1, k);
    } else {
      w := i - 1;
    }
  }

  lemma WaveUnique(g: Graph, b: set<UnitKey>, i: nat, j: nat, k: UnitKey)
    requires k in Wave(g, b, i) && k in Wave(g, b, j)
    ensures i == j
  {
    if i < j { StartedGrows(g, b, i + 1, j); }
    if j < i { StartedGrows(g, b, j + 1, i); }
  }

  /** Every dependency of a scheduled unit lies in a strictly earlier wave. */
  lemma DependencyEarlier(g: Graph, b: set<UnitKey>, i: nat, k: UnitKey, d: UnitKey) returns (w: nat)
    requires k in Wave(g, b, i) && k < |g| && d in g[k]
    ensures w < i && d in Wave(g, b, w)
  {
    WaveReleased(g, b, i, k);
    w := WaveExists(g, b, i, d);
  }

  /** A set of bootable units none of which can be the first of the set to start. */
  ghost predicate Blocked(g: Graph, b: set<UnitKey>, s: set<UnitKey>) {
    s != {} && s <= b && forall k | k in s :: Waits(g, b, s, k)
  }

  ghost predicate Waits(g: Graph, b: set<UnitKey>, s: set<UnitKey>, k: UnitKey) {
    k < |g| && exists d :: d in g[k] && (d in s || d !in b)
  }

  lemma {:induction false} BlockedNeverStarts(g: Graph, b: set<UnitKey>, s: set<UnitKey>, i: nat)
    requires Blocked(g, b, s)
    ensures s !! Started(g, b, i)
  {
    if i == 0 {
    } else {
      BlockedNeverStarts(g, b, s, i - 1);
      StartedGrows(g, b, i - 1, i - 1);
      forall k | k in s ensures k !in Started(g, b, i) {
        assert Waits(g, b, s, k);
      }
    }
  }

  /** The schedule misses a bootable unit exactly when some set of them is blocked. */
  lemma CoverageExact(g: Graph, b: set<UnitKey>, n: nat)
    requires Wave(g, b, n) == {} && forall k | k in b :: k < |g|
    ensures Started(g, b, n) != b <==> exists s :: Blocked(g, b, s)
  {
    StartedGrows(g, b, n, n);
    if Started(g, b, n) != b {
      var s := b - Started(g, b, n);
      forall k | k in s ensures Waits(g, b, s, k) {
        WaveReleased(g, b, n, k);
      }
      assert Started(g, b, n) + s == b;
      assert Blocked(g, b, s);
    }
    if s :| Blocked(g, b, s) {
      BlockedNeverStarts(g, b, s, n);
      var k :| k in s;
      assert k in b && k !in Started(g, b, n);
    }
  }

  /** With bootable dependencies only, a blocked set is a dependency cycle. */
  lemma BlockedMeansCycle(g: Graph, b: set<UnitKey>)
    requires forall k, d | k in b && k < |g| && d in g[k] :: d in b
    ensures (exists s :: Blocked(g, b, s)) <==> (exists c :: Cycle(g, c) && c[0] in b)
  {
    if s :| Blocked(g, b, s) {
      forall k | k in s ensures HasNext(g, s, k) {
        assert Waits(g, b, s, k);
      }
      var c := CycleInside(g, s);
      assert c[0] in c;
    }
    if c :| Cycle(g, c) && c[0] in b {
      CycleBlocks(g, b, c);
    }
  }

  lemma CycleBlocks(g: Graph, b: set<UnitKey>, c: seq<UnitKey>)
    requires Cycle(g, c) && c[0] in b
    requires forall k, d | k in b && k < |g| && d in g[k] :: d in b
    ensures exists s :: Blocked(g, b, s)
  {
    var s := set k | k in c;
    WalkStaysClosed(g, b, c);
    forall k | k in s ensures Waits(g, b, s, k) {
      var i :| 0 <= i < |c| && c[i] == k;
      var d := if i + 1 < |c| then c[i + 1] else c[1];
      assert d in g[k] && d in s;
    }
    assert c[0] in s;
    assert Blocked(g, b, s);
  }

  /** Some dependency chain of i edges starts at a unit of wave i. */
  lemma {:induction false} ChainOfWave(g: Graph, b: set<UnitKey>, i: nat, k: UnitKey) returns (p: seq<UnitKey>)
    requires WellFormed(g) && k in Wave(g, b, i)
    ensures Walk(g, p) && p[0] == k && |p| == i + 1
  {
    WaveReleased(g, b, i, k);
    if i == 0 {
      p := [k];
    } else {
      var d := LatestDependency(g, b, i, k);
      var q := ChainOfWave(g, b, i - 1, d);
      p := [k] + q;
      forall m | 0 < m < |p| ensures p[m] in g[p[m - 1]] {
        assert p[m] == q[m - 1];
      }
    }
  }

  lemma LatestDependency(g: Graph, b: set<UnitKey>, i: nat, k: UnitKey) returns (d: UnitKey)
    requires i > 0 && k in Wave(g, b, i) && k < |g|
    ensures d in g[k] && d in Wave(g, b, i - 1)
  {
    WaveReleased(g, b, i, k);
    StartedGrows(g, b, i - 1, i);
    assert !Released(g, Started(g, b, i - 1), k);
    d :| d in g[k] && d !in Started(g, b, i - 1);
  }

  /** No dependency chain from a unit of wave i has more than i edges. */
  lemma {:induction false} ChainBound(g: Graph, b: set<UnitKey>, i: nat, p: seq<UnitKey>)
    requires Walk(g, p) && p[0] in Wave(g, b, i)
    ensures |p| <= i + 1
    decreases i
  {
    if |p| == 1 {
    } else {
      var w := DependencyEarlier(g, b, i, p[0], p[1]);
      ChainBound(g, b, w, p[1..]);
    }
  }

  /** A unit's wave is the length of its longest dependency chain. */
  lemma WaveIsLongestChain(g: Graph, b: set<UnitKey>, i: nat, k: UnitKey)
    requires WellFormed(g) && k in Wave(g, b, i)
    ensures exists p :: Walk(g, p) && p[0] == k && |p| == i + 1
    ensures forall p | Walk(g, p) && p[0] == k :: |p| <= i + 1
  {
    var q := ChainOfWave(g, b, i, k);
    forall p | Walk(g, p) && p[0] == k ensures |p| <= i + 1 {
      ChainBound(g, b, i, p);
    }
  }

  /** Any assignment of rounds that puts each dependency of a bootable unit in an earlier round. */
  ghost predicate Schedule(g: Graph, b: set<UnitKey>, slot: map<UnitKey, nat>) {
    slot.Keys == b && forall k, d | k in b && k < |g| && d in g[k] :: d in b && slot[d] < slot[k]
  }

  /** No schedule starts a unit earlier than its wave, so none has fewer rounds. */
  lemma {:induction false} WaveIsEarliest(g: Graph, b: set<UnitKey>, slot: map<UnitKey, nat>, i: nat, k: UnitKey)
    requires Schedule(g, b, slot) && k in Wave(g, b, i)
    ensures k in slot && i <= slot[k]
    decreases i
  {
    WaveReleased(g, b, i, k);
    if i == 0 {
    } else {
      var d := LatestDependency(g, b, i, k);
      WaveIsEarliest(g, b, slot, i - 1, d);
    }
  }

  /** The wave of a unit that starts within n rounds. */
  ghost function WaveOf(g: Graph, b: set<UnitKey>, n: nat, k: UnitKey): (w: nat)
    requires k in Started(g, b, n)
    ensures w < n && k in Wave(g, b, w)
  {
    if k in Started(g, b, n - 1) then WaveOf(g, b, n - 1, k) else n - 1
  }

  lemma DependencyWave(g: Graph, b: set<UnitKey>, n: nat, k: UnitKey, d: UnitKey)
    requires Started(g, b, n) == b && k in b && k < |g| && d in g[k]
    ensures d in b && WaveOf(g, b, n, d) < WaveOf(g, b, n, k)
  {
    var i := WaveOf(g, b, n, k);
    var w := DependencyEarlier(g, b, i, k, d);
    StartedGrows(g, b, w + 1, n);
    WaveUnique(g, b, w, WaveOf(g, b, n, d), d);
  }

  /** A complete layering is a schedule: each unit's wave number. */
  lemma LayeringSchedules(g: Graph, b: set<UnitKey>, n: nat)
    requires Started(g, b, n) == b
    ensures exists slot :: Schedule(g, b, slot)
  {
    var slot := map k | k in b :: WaveOf(g, b, n, k);
    forall k, d | k in b && k < |g| && d in g[k] ensures d in b && slot[d] < slot[k] {
      DependencyWave(g, b, n, k, d);
    }
    assert Schedule(g, b, slot);
  }

  lemma NoneBlocked(g: Graph, b: set<UnitKey>, slot: map<UnitKey, nat>, s: set<UnitKey>)
    requires Schedule(g, b, slot)
    ensures !Blocked(g, b, s)
  {
    if s != {} && s <= b {
      var k := EarliestOf(slot, s);
      assert !Waits(g, b, s, k);
    }
  }

  lemma {:induction false} EarliestOf(slot: map<UnitKey, nat>, s: set<UnitKey>) returns (k: UnitKey)
    requires s != {} && s <= slot.Keys
    ensures k in s && forall j | j in s :: slot[k] <= slot[j]
  {
    k :| k in s;
    if s == {k} {
    } else {
      var m := EarliestOf(slot, s - {k});
      k := if slot[m] < slot[k] then m else k;
    }
  }

  lemma ScheduleCovers(g: Graph, b: set<UnitKey>, n: nat, slot: map<UnitKey, nat>)
    requires Wave(g, b, n) == {} && Schedule(g, b, slot) && forall k | k in b :: k < |g|
    ensures Started(g, b, n) == b
  {
    CoverageExact(g, b, n);
    forall s ensures !Blocked(g, b, s) {
      NoneBlocked(g, b, slot, s);
    }
  }

  /** The layering covers every bootable unit exactly when any schedule of them exists. */
  lemma ScheduleExists(g: Graph, b: set<UnitKey>, n: nat)
    requires Wave(g, b, n) == {} && forall k | k in b :: k < |g|
    ensures Started(g, b, n) == b <==> exists slot :: Schedule(g, b, slot)
  {
    if Started(g, b, n) == b {
      LayeringSchedules(g, b, n);
    }
    if slot :| Schedule(g, b, slot) {
      ScheduleCovers(g, b, n, slot);
    }
  }

  /** The list of waves is the layering: wave by wave the right units, each once, in name order. */
  ghost predicate Layering(arena: seq<Unit>, g: Graph, b: set<UnitKey>, waves: seq<seq<UnitKey>>) {
    && Wave(g, b, |waves|) == {}
    && forall i | 0 <= i < |waves| :: LayeringAt(arena, g, b, i, waves[i])
  }

  ghost predicate LayeringAt(arena: seq<Unit>, g: Graph, b: set<UnitKey>, i: nat, wave: seq<UnitKey>) {
    && Live(arena, wave)
    && wave != []
    && NoDuplicates(wave)
    && SortedByName(arena, wave)
    && forall k :: k in wave <==> k in Wave(g, b, i)
  }

  lemma WaveOccupied(arena: seq<Unit>, g: Graph, b: set<UnitKey>, waves: seq<seq<UnitKey>>, i: nat)
    requires Layering(arena, g, b, waves) && i < |waves|
    ensures Wave(g, b, i) != {}
  {
    assert LayeringAt(arena, g, b, i, waves[i]);
    assert waves[i][0] in Wave(g, b, i);
  }

  /** Names and dependencies fix the layering: it does not depend on any iteration order. */
  lemma LayeringUnique(arena: seq<Unit>, g: Graph, b: set<UnitKey>, v: seq<seq<UnitKey>>, w: seq<seq<UnitKey>>)
    requires Layering(arena, g, b, v) && Layering(arena, g, b, w)
    ensures v == w
  {
    if |v| < |w| { WaveOccupied(arena, g, b, w, |v|); }
    if |w| < |v| { WaveOccupied(arena, g, b, v, |w|); }
    forall i | 0 <= i < |v| ensures v[i] == w[i] {
      assert LayeringAt(arena, g, b, i, v[i]) && LayeringAt(arena, g, b, i, w[i]);
      SortedUnique(arena, v[i], w[i]);
    }
  }

  /** In a complete layering each bootable unit has one position, and its dependencies earlier waves. */
  lemma PositionUnique(arena: seq<Unit>, g: Graph, b: set<UnitKey>, waves: seq<seq<UnitKey>>, k: UnitKey)
    requires Layering(arena, g, b, waves) && Started(g, b, |waves|) == b && k in b && k < |g|
    ensures exists i, j :: 0 <= i < |waves| && 0 <= j < |waves[i]| && waves[i][j] == k
    ensures forall i, j, i', j' | 0 <= i < |waves| && 0 <= j < |waves[i]| && 0 <= i' < |waves|
              && 0 <= j' < |waves[i']| && waves[i][j] == k == waves[i'][j'] :: i == i' && j == j'
    ensures forall i, d | 0 <= i < |waves| && k in waves[i] && d in g[k] ::
              exists w :: 0 <= w < i && d in waves[w]
  {
    var i := WaveOf(g, b, |waves|, k);
    assert LayeringAt(arena, g, b, i, waves[i]);
    forall i, j, i', j' | 0 <= i < |waves| && 0 <= j < |waves[i]| && 0 <= i' < |waves|
      && 0 <= j' < |waves[i']| && waves[i][j] == k == waves[i'][j']
      ensures i == i' && j == j'
    {
      assert LayeringAt(arena, g, b, i, waves[i]) && LayeringAt(arena, g, b, i', waves[i']);
      assert k in waves[i] && k in waves[i'];
      WaveUnique(g, b, i, i', k);
    }
    forall i, d | 0 <= i < |waves| && k in waves[i] && d in g[k]
      ensures exists w :: 0 <= w < i && d in waves[w]
    {
      assert LayeringAt(arena, g, b, i, waves[i]);
      var w := DependencyEarlier(g, b, i, k, d);
      assert LayeringAt(arena, g, b, w, waves[w]);
    }
  }

  /** Along any chain of at least one dependency the wave strictly drops. */
  lemma {:induction false} ChainDescends(g: Graph, b: set<UnitKey>, i: nat, p: seq<UnitKey>) returns (w: nat)
    requires Walk(g, p) && p[0] in Wave(g, b, i)
    ensures p[|p| - 1] in Wave(g, b, w) && (|p| > 1 ==> w < i) && w <= i
    decreases |p|
  {
    if |p| == 1 {
      w := i;
    } else {
      var v := DependencyEarlier(g, b, i, p[0], p[1]);
      w := ChainDescends(g, b, v, p[1..]);
      assert p[1..][|p| - 2] == p[|p| - 1];
    }
  }
}
