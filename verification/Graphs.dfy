/** Directed graphs over unit keys as adjacency lists, reachability, and cycles. */
module Graphs {
  import opened Units
  import opened Names

  /** Entry k lists the successors of unit k, with multiplicity. */
  type Graph = seq<seq<UnitKey>>

  ghost predicate WellFormed(g: Graph) {
    forall k, d | 0 <= k < |g| && d in g[k] :: d < |g|
  }

  ghost predicate Walk(g: Graph, p: seq<UnitKey>) {
    p != [] && (forall i | 0 <= i < |p| :: p[i] < |g|) && (forall i | 0 < i < |p| :: p[i] in g[p[i - 1]])
  }

  ghost predicate Reaches(g: Graph, a: UnitKey, b: UnitKey) {
    exists p :: Walk(g, p) && p[0] == a && p[|p| - 1] == b
  }

  ghost predicate Closed(g: Graph, s: set<UnitKey>) {
    forall k, d | k in s && k < |g| && d in g[k] :: d in s
  }

  ghost predicate Reached(g: Graph, seeds: set<UnitKey>, k: UnitKey) {
    exists s :: s in seeds && Reaches(g, s, k)
  }

  /** The units some seed reaches. */
  ghost function ReachSet(g: Graph, seeds: set<UnitKey>): set<UnitKey> {
    set k: UnitKey | 0 <= k < |g| && Reached(g, seeds, k)
  }

  lemma ReachesSelf(g: Graph, a: UnitKey)
    requires a < |g|
    ensures Reaches(g, a, a)
  {
    assert Walk(g, [a]) && [a][0] == a && [a][|[a]| - 1] == a;
  }

  lemma ReachesStep(g: Graph, a: UnitKey, b: UnitKey, c: UnitKey)
    requires Reaches(g, a, b) && c < |g| && c in g[b]
    ensures Reaches(g, a, c)
  {
    var p :| Walk(g, p) && p[0] == a && p[|p| - 1] == b;
    var q := p + [c];
    assert Walk(g, q) && q[0] == a && q[|q| - 1] == c;
  }

  lemma {:induction false} WalkStaysClosed(g: Graph, s: set<UnitKey>, p: seq<UnitKey>)
    requires Closed(g, s) && Walk(g, p) && p[0] in s
    ensures forall i | 0 <= i < |p| :: p[i] in s
    decreases |p|
  {
    if |p| == 1 {
    } else {
      var q := p[..|p| - 1];
      assert Walk(g, q);
      WalkStaysClosed(g, s, q);
      forall i | 0 <= i < |p| ensures p[i] in s {
        if i < |q| {
          assert p[i] == q[i];
        } else {
          assert p[i - 1] == q[i - 1];
        }
      }
    }
  }

  /** A closed set that holds the seeds, and nothing they do not reach, is the reachable set. */
  lemma ReachSetUnique(g: Graph, seeds: set<UnitKey>, s: set<UnitKey>)
    requires seeds <= s && Closed(g, s)
    requires forall k | k in s :: k < |g| && Reached(g, seeds, k)
    ensures s == ReachSet(g, seeds)
  {
    forall k | k in ReachSet(g, seeds) ensures k in s {
      var a :| a in seeds && Reaches(g, a, k);
      var p :| Walk(g, p) && p[0] == a && p[|p| - 1] == k;
      WalkStaysClosed(g, s, p);
    }
  }

  /** Reachability is the least set that holds the seeds and is closed under the edges. */
  lemma ReachSetLeast(g: Graph, seeds: set<UnitKey>, t: set<UnitKey>)
    requires WellFormed(g) && forall s | s in seeds :: s < |g|
    ensures seeds <= ReachSet(g, seeds) && Closed(g, ReachSet(g, seeds))
    ensures seeds <= t && Closed(g, t) ==> ReachSet(g, seeds) <= t
  {
    forall s | s in seeds ensures s in ReachSet(g, seeds) {
      ReachesSelf(g, s);
    }
    forall k, d | k in ReachSet(g, seeds) && k < |g| && d in g[k] ensures d in ReachSet(g, seeds) {
      var s :| s in seeds && Reaches(g, s, k);
      ReachesStep(g, s, k, d);
    }
    if seeds <= t && Closed(g, t) {
      forall k | k in ReachSet(g, seeds) ensures k in t {
        var s :| s in seeds && Reaches(g, s, k);
        var p :| Walk(g, p) && p[0] == s && p[|p| - 1] == k;
        WalkStaysClosed(g, t, p);
      }
    }
  }

  lemma ReachesFront(g: Graph, a: UnitKey, b: UnitKey, c: UnitKey)
    requires a < |g| && b in g[a] && Reaches(g, b, c)
    ensures Reaches(g, a, c)
  {
    var p :| Walk(g, p) && p[0] == b && p[|p| - 1] == c;
    var q := [a] + p;
    forall i | 0 < i < |q| ensures q[i] in g[q[i - 1]] {
      assert i > 1 ==> p[i - 1] in g[p[i - 2]];
    }
    assert Walk(g, q) && q[0] == a && q[|q| - 1] == c;
  }

  /** A search from one seed in progress: what is seen or queued is reached, and seen units are expanded. */
  ghost predicate Searching(g: Graph, seed: UnitKey, seen: set<UnitKey>, queue: seq<UnitKey>) {
    && (seed in seen || seed in queue)
    && (forall k | k in seen :: k < |g| && Reached(g, {seed}, k))
    && (forall i | 0 <= i < |queue| :: queue[i] < |g| && Reached(g, {seed}, queue[i]))
    && (forall k, d | k in seen && k < |g| && d in g[k] :: d in seen || d in queue)
  }

  lemma SearchSkips(g: Graph, seed: UnitKey, seen: set<UnitKey>, queue: seq<UnitKey>)
    requires Searching(g, seed, seen, queue) && queue != [] && queue[0] in seen
    ensures Searching(g, seed, seen, queue[1..])
  {
    assert queue == [queue[0]] + queue[1..];
  }

  lemma SearchExpands(g: Graph, seed: UnitKey, seen: set<UnitKey>, queue: seq<UnitKey>)
    requires WellFormed(g) && Searching(g, seed, seen, queue) && queue != []
    ensures Searching(g, seed, seen + {queue[0]}, queue[1..] + g[queue[0]])
  {
    var k := queue[0];
    assert queue == [k] + queue[1..];
    var next := queue[1..] + g[k];
    forall i | 0 <= i < |next| ensures next[i] < |g| && Reached(g, {seed}, next[i]) {
      if i < |queue| - 1 {
        assert next[i] == queue[i + 1];
      } else {
        assert next[i] in g[k];
        ReachesStep(g, seed, k, next[i]);
      }
    }
  }

  lemma SearchEnds(g: Graph, seed: UnitKey, seen: set<UnitKey>)
    requires Searching(g, seed, seen, [])
    ensures seen == ReachSet(g, {seed})
  {
    assert Closed(g, seen) by {
      forall k, d | k in seen && k < |g| && d in g[k] ensures d in seen {}
    }
    ReachSetUnique(g, {seed}, seen);
  }

  /** A walk of at least one edge back to its start. */
  ghost predicate Cycle(g: Graph, p: seq<UnitKey>) {
    |p| > 1 && Walk(g, p) && p[0] == p[|p| - 1]
  }

  ghost predicate HasNext(g: Graph, s: set<UnitKey>, k: UnitKey) {
    k < |g| && exists d :: d in g[k] && d in s
  }

  lemma WalkOn(g: Graph, s: set<UnitKey>, p: seq<UnitKey>) returns (q: seq<UnitKey>)
    requires Walk(g, p) && HasNext(g, s, p[|p| - 1]) && forall k | k in s :: k < |g|
    ensures Walk(g, q) && |q| == |p| + 1 && q[..|p|] == p && q[|p|] in s
  {
    var d :| d in g[p[|p| - 1]] && d in s;
    q := p + [d];
  }

  /** In a set where every unit has a successor inside, some walk inside has any wanted length. */
  lemma {:induction false} LongWalk(g: Graph, s: set<UnitKey>, n: nat) returns (p: seq<UnitKey>)
    requires s != {} && forall k | k in s :: HasNext(g, s, k)
    ensures Walk(g, p) && |p| == n + 1 && forall i | 0 <= i < |p| :: p[i] in s
  {
    if n == 0 {
      var k :| k in s;
      assert HasNext(g, s, k);
      p := [k];
    } else {
      var q := LongWalk(g, s, n - 1);
      p := WalkOn(g, s, q);
      assert forall i | 0 <= i < |q| :: p[i] == p[..|q|][i];
    }
  }

  lemma {:induction false} Pigeonhole(p: seq<UnitKey>, s: set<UnitKey>)
    requires NoDuplicates(p) && forall i | 0 <= i < |p| :: p[i] in s
    ensures |p| <= |s|
  {
    if p == [] {
    } else {
      var q := p[..|p| - 1];
      forall i | 0 <= i < |q| ensures q[i] in s - {p[|p| - 1]} {
        assert q[i] == p[i];
      }
      Pigeonhole(q, s - {p[|p| - 1]});
    }
  }

  lemma MustRepeat(p: seq<UnitKey>, s: set<UnitKey>)
    requires |p| > |s| && forall i | 0 <= i < |p| :: p[i] in s
    ensures exists i, j :: 0 <= i < j < |p| && p[i] == p[j]
  {
    if NoDuplicates(p) {
      Pigeonhole(p, s);
    }
  }

  lemma CutCycle(g: Graph, p: seq<UnitKey>, i: nat, j: nat)
    requires Walk(g, p) && i < j < |p| && p[i] == p[j]
    ensures Cycle(g, p[i..j + 1])
  {
    var c := p[i..j + 1];
    forall m | 0 < m < |c| ensures c[m] in g[c[m - 1]] {
      assert c[m] == p[i + m] && c[m - 1] == p[i + m - 1];
    }
  }

  lemma CycleInside(g: Graph, s: set<UnitKey>) returns (c: seq<UnitKey>)
    requires s != {} && forall k | k in s :: HasNext(g, s, k)
    ensures Cycle(g, c) && forall k | k in c :: k in s
  {
    var p := LongWalk(g, s, |s|);
    MustRepeat(p, s);
    var i, j :| 0 <= i < j < |p| && p[i] == p[j];
    c := p[i..j + 1];
    CutCycle(g, p, i, j);
  }
}
