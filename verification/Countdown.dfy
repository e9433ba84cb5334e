/**
  What the degree counters make of any reverse index, exact or not: which units have started after each round, and when
  a counter would go below zero. On an index that agrees with the dependency lists the rounds are those of the layering.
 */
module Countdown {
  import opened Units
  import opened Names
  import opened Graphs
  import opened Waves
  import opened ForgeModel

  type Index = map<UnitKey, seq<UnitKey>>

  /** How many entries for k the index holds at the units of s below n. */
  ghost function Hits(reverse: Index, s: set<UnitKey>, k: UnitKey, n: nat): nat {
    if n == 0 then 0
    else Hits(reverse, s, k, n - 1) + (if n - 1 in s then multiset(Dependents(reverse, n - 1))[k] else 0)
  }

  lemma {:induction false} HitsNone(reverse: Index, k: UnitKey, n: nat)
    ensures Hits(reverse, {}, k, n) == 0
  {
    if n == 0 {
    } else {
      HitsNone(reverse, k, n - 1);
    }
  }

  lemma {:induction false} HitsSame(reverse: Index, s: set<UnitKey>, t: set<UnitKey>, k: UnitKey, n: nat)
    requires forall d: UnitKey | d < n :: d in s <==> d in t
    ensures Hits(reverse, s, k, n) == Hits(reverse, t, k, n)
  {
    if n == 0 {
    } else {
      HitsSame(reverse, s, t, k, n - 1);
    }
  }

  /** Processing one more unit counts its entries. */
  lemma {:induction false} HitsAdd(reverse: Index, s: set<UnitKey>, d: UnitKey, k: UnitKey, n: nat)
    requires d !in s && d < n
    ensures Hits(reverse, s + {d}, k, n) == Hits(reverse, s, k, n) + multiset(Dependents(reverse, d))[k]
  {
    if d == n - 1 {
      HitsSame(reverse, s, s + {d}, k, n - 1);
    } else {
      HitsAdd(reverse, s, d, k, n - 1);
    }
  }

  lemma {:induction false} HitsGrow(reverse: Index, s: set<UnitKey>, t: set<UnitKey>, k: UnitKey, n: nat)
    requires s <= t
    ensures Hits(reverse, s, k, n) <= Hits(reverse, t, k, n)
  {
    if n == 0 {
    } else {
      HitsGrow(reverse, s, t, k, n - 1);
    }
  }

  /** As many entries as its list is long have been counted for k. */
  ghost predicate Ripe(arena: seq<Unit>, reverse: Index, done: set<UnitKey>, k: UnitKey) {
    k < |arena| && Hits(reverse, done, k, |arena|) >= |arena[k].dependencies|
  }

  /** The bootable units whose counter has reached zero within the first i rounds. */
  ghost function Round(arena: seq<Unit>, reverse: Index, b: set<UnitKey>, i: nat): set<UnitKey> {
    if i == 0 then {}
    else
      Round(arena, reverse, b, i - 1) + (set k | k in b && Ripe(arena, reverse, Round(arena, reverse, b, i - 1), k))
  }

  ghost function RoundWave(arena: seq<Unit>, reverse: Index, b: set<UnitKey>, i: nat): set<UnitKey> {
    Round(arena, reverse, b, i + 1) - Round(arena, reverse, b, i)
  }

  lemma {:induction false} RoundGrows(arena: seq<Unit>, reverse: Index, b: set<UnitKey>, i: nat, j: nat)
    requires i <= j
    ensures Round(arena, reverse, b, i) <= Round(arena, reverse, b, j) <= b
  {
    if j == 0 {
    } else {
      RoundGrows(arena, reverse, b, if i < j then i else i - 1, j - 1);
    }
  }

  lemma {:induction false} RoundSettles(arena: seq<Unit>, reverse: Index, b: set<UnitKey>, n: nat, i: nat)
    requires RoundWave(arena, reverse, b, n) == {}
    ensures Round(arena, reverse, b, i) <= Round(arena, reverse, b, n)
  {
    if i <= n {
      RoundGrows(arena, reverse, b, i, n);
    } else {
      RoundSettles(arena, reverse, b, n, i - 1);
      RoundGrows(arena, reverse, b, n, i - 1);
      RoundGrows(arena, reverse, b, n, n + 1);
      assert Round(arena, reverse, b, i - 1) == Round(arena, reverse, b, n);
      assert Round(arena, reverse, b, i) == Round(arena, reverse, b, n + 1);
      assert Round(arena, reverse, b, n + 1) == Round(arena, reverse, b, n) + RoundWave(arena, reverse, b, n);
    }
  }

  lemma {:induction false} RoundRipe(arena: seq<Unit>, reverse: Index, b: set<UnitKey>, i: nat)
    ensures forall k | k in Round(arena, reverse, b, i) :: Ripe(arena, reverse, Round(arena, reverse, b, i), k)
  {
    if i == 0 {
    } else {
      var r, s := Round(arena, reverse, b, i - 1), Round(arena, reverse, b, i);
      RoundRipe(arena, reverse, b, i - 1);
      forall k | k in s ensures Ripe(arena, reverse, s, k) {
        HitsGrow(reverse, r, s, k, |arena|);
      }
    }
  }

  lemma {:induction false} RoundExists(arena: seq<Unit>, reverse: Index, b: set<UnitKey>, i: nat, k: UnitKey)
    returns (w: nat)
    requires k in Round(arena, reverse, b, i)
    ensures w < i && k in RoundWave(arena, reverse, b, w)
  {
    if k in Round(arena, reverse, b, i - 1) {
      w := RoundExists(arena, reverse, b, i - 1, k);
    } else {
      w := i - 1;
    }
  }

  lemma RoundUnique(arena: seq<Unit>, reverse: Index, b: set<UnitKey>, i: nat, j: nat, k: UnitKey)
    requires k in RoundWave(arena, reverse, b, i) && k in RoundWave(arena, reverse, b, j)
    ensures i == j
  {
    if i < j { RoundGrows(arena, reverse, b, i + 1, j); }
    if j < i { RoundGrows(arena, reverse, b, j + 1, i); }
  }

  /** After the units of done, more entries were counted for k than its list is long. */
  ghost predicate Overcounted(arena: seq<Unit>, reverse: Index, done: set<UnitKey>, k: UnitKey) {
    k < |arena| && Hits(reverse, done, k, |arena|) > |arena[k].dependencies|
  }

  /** In some round the counter of some bootable unit goes below zero. */
  ghost predicate Underflows(arena: seq<Unit>, reverse: Index, b: set<UnitKey>) {
    exists i: nat, k :: k in b && Overcounted(arena, reverse, Round(arena, reverse, b, i), k)
  }

  /** The waves are the rounds: the right units, each once, in name order. */
  ghost predicate Rounds(arena: seq<Unit>, reverse: Index, b: set<UnitKey>, waves: seq<seq<UnitKey>>) {
    && RoundWave(arena, reverse, b, |waves|) == {}
    && forall i | 0 <= i < |waves| :: RoundAt(arena, reverse, b, i, waves[i])
  }

  ghost predicate RoundAt(arena: seq<Unit>, reverse: Index, b: set<UnitKey>, i: nat, wave: seq<UnitKey>) {
    && Live(arena, wave)
    && wave != []
    && NoDuplicates(wave)
    && SortedByName(arena, wave)
    && forall k :: k in wave <==> k in RoundWave(arena, reverse, b, i)
  }

  // ---- An index that agrees with lists ----------------------------------------------------------------------

  /** How many entries of a dependency list are not done. */
  function Pending(deps: seq<UnitKey>, done: set<UnitKey>): nat {
    if deps == [] then 0 else (if deps[0] in done then 0 else 1) + Pending(deps[1..], done)
  }

  lemma {:induction false} PendingNone(deps: seq<UnitKey>, done: set<UnitKey>)
    ensures Pending(deps, done) == 0 <==> forall d | d in deps :: d in done
  {
    if deps == [] {
    } else {
      PendingNone(deps[1..], done);
      assert deps == [deps[0]] + deps[1..];
    }
  }

  lemma {:induction false} PendingAll(deps: seq<UnitKey>)
    ensures Pending(deps, {}) == |deps|
  {
    if deps == [] {
    } else {
      PendingAll(deps[1..]);
    }
  }

  /** Finishing a unit releases each of its occurrences. */
  lemma {:induction false} PendingRelease(deps: seq<UnitKey>, done: set<UnitKey>, d: UnitKey)
    requires d !in done
    ensures Pending(deps, done + {d}) + multiset(deps)[d] == Pending(deps, done)
  {
    if deps == [] {
    } else {
      PendingRelease(deps[1..], done, d);
      assert deps == [deps[0]] + deps[1..];
    }
  }

  /** The index lists each bootable dependent of a bootable unit as often as the dependent lists the unit. */
  ghost predicate IndexesBootable(arena: seq<Unit>, g: Graph, b: set<UnitKey>, reverse: Index) {
    && |g| == |arena| && (forall k | k in b :: k < |g| && |g[k]| == |arena[k].dependencies|)
    && forall d, k | d in b && k in b && k < |g| :: multiset(Dependents(reverse, d))[k] == multiset(g[k])[d]
  }

  /** Then a counter holds the entries still pending. */
  lemma {:induction false} HitsPending(reverse: Index, s: set<UnitKey>, k: UnitKey, deps: seq<UnitKey>, n: nat)
    requires forall d | d in s && d < n :: multiset(Dependents(reverse, d))[k] == multiset(deps)[d]
    ensures Hits(reverse, s, k, n) + Pending(deps, set d | d in s && d < n) == |deps|
  {
    if n == 0 {
      assert (set d | d in s && d < n) == {};
      PendingAll(deps);
    } else {
      HitsPending(reverse, s, k, deps, n - 1);
      var below := set d | d in s && d < n - 1;
      if n - 1 in s {
        assert (set d | d in s && d < n) == below + {n - 1};
        PendingRelease(deps, below, n - 1);
      } else {
        assert (set d | d in s && d < n) == below;
      }
    }
  }

  lemma RipeMeansReleased(arena: seq<Unit>, g: Graph, b: set<UnitKey>, reverse: Index, done: set<UnitKey>, k: UnitKey)
    requires IndexesBootable(arena, g, b, reverse) && done <= b && k in b
    ensures Ripe(arena, reverse, done, k) <==> Released(g, done, k)
    ensures !Overcounted(arena, reverse, done, k)
  {
    HitsPending(reverse, done, k, g[k], |arena|);
    assert (set d | d in done && d < |arena|) == done;
    PendingNone(g[k], done);
  }

  /** On such an index the rounds are those of the layering, and no counter goes below zero. */
  lemma {:induction false} RoundIsStarted(arena: seq<Unit>, g: Graph, b: set<UnitKey>, reverse: Index, i: nat)
    requires IndexesBootable(arena, g, b, reverse)
    ensures Round(arena, reverse, b, i) == Started(g, b, i)
  {
    hide Ripe, Released, IndexesBootable;
    if i == 0 {
    } else {
      RoundIsStarted(arena, g, b, reverse, i - 1);
      RoundGrows(arena, reverse, b, i - 1, i - 1);
      forall k | k in b
        ensures Ripe(arena, reverse, Started(g, b, i - 1), k) <==> Released(g, Started(g, b, i - 1), k)
      {
        RipeMeansReleased(arena, g, b, reverse, Started(g, b, i - 1), k);
      }
    }
  }

  lemma NoUnderflow(arena: seq<Unit>, g: Graph, b: set<UnitKey>, reverse: Index)
    requires IndexesBootable(arena, g, b, reverse)
    ensures !Underflows(arena, reverse, b)
  {
    forall i: nat, k | k in b ensures !Overcounted(arena, reverse, Round(arena, reverse, b, i), k) {
      RoundGrows(arena, reverse, b, i, i);
      RipeMeansReleased(arena, g, b, reverse, Round(arena, reverse, b, i), k);
    }
  }

  lemma RoundsAreLayering(arena: seq<Unit>, g: Graph, b: set<UnitKey>, reverse: Index, waves: seq<seq<UnitKey>>)
    requires IndexesBootable(arena, g, b, reverse)
    ensures Rounds(arena, reverse, b, waves) <==> Layering(arena, g, b, waves)
  {
    forall i: nat ensures RoundWave(arena, reverse, b, i) == Wave(g, b, i) {
      RoundIsStarted(arena, g, b, reverse, i);
      RoundIsStarted(arena, g, b, reverse, i + 1);
    }
    forall i | 0 <= i < |waves|
      ensures RoundAt(arena, reverse, b, i, waves[i]) <==> LayeringAt(arena, g, b, i, waves[i])
    {
    }
  }
}
