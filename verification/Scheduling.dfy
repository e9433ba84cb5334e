/** The degree-counting loop: units in waves, over the lengths of the dependency lists and the reverse index. */
module Scheduling {
  import opened Units
  import opened Names
  import opened ForgeModel
  import opened Countdown

  /** What the counters say while the units of `done` have been processed. */
  ghost predicate Degrees(arena: seq<Unit>, reverse: Index, b: set<UnitKey>, degree: map<UnitKey, nat>,
        done: set<UnitKey>) {
    degree.Keys == b && forall k | k in b && k < |arena| ::
      degree[k] + Hits(reverse, done, k, |arena|) == |arena[k].dependencies|
  }

  /** The counters in the middle of processing a unit, once its first entries were counted down. */
  ghost predicate DegreesWithin(arena: seq<Unit>, reverse: Index, b: set<UnitKey>, degree: map<UnitKey, nat>,
        done: set<UnitKey>, counted: seq<UnitKey>) {
    degree.Keys == b && forall k | k in b && k < |arena| ::
      degree[k] + Hits(reverse, done, k, |arena|) + multiset(counted)[k] == |arena[k].dependencies|
  }

  /** The ready queue: once each, the units of degree zero that have not started. */
  ghost predicate ReadyExactly(b: set<UnitKey>, degree: map<UnitKey, nat>, started: set<UnitKey>, ready: seq<UnitKey>)
    requires degree.Keys == b
  {
    NoDuplicates(ready) && forall k :: k in ready <==> k in b && k !in started && degree[k] == 0
  }

  ghost predicate ZeroDegrees(b: set<UnitKey>, degree: map<UnitKey, nat>, started: set<UnitKey>)
    requires degree.Keys == b
  {
    forall k | k in b && k in started :: degree[k] == 0
  }

  /** Some bootable unit is counted down more often than its list is long. */
  ghost predicate SomeOvercounted(arena: seq<Unit>, reverse: Index, b: set<UnitKey>, done: set<UnitKey>) {
    exists k :: k in b && Overcounted(arena, reverse, done, k)
  }

  lemma OvercountStays(arena: seq<Unit>, reverse: Index, b: set<UnitKey>, s: set<UnitKey>, t: set<UnitKey>)
    requires SomeOvercounted(arena, reverse, b, s) && s <= t
    ensures SomeOvercounted(arena, reverse, b, t)
  {
    var k :| k in b && Overcounted(arena, reverse, s, k);
    HitsGrow(reverse, s, t, k, |arena|);
    assert Overcounted(arena, reverse, t, k);
  }

  /** Counts down every dependent of a processed unit, unless a counter would go below zero. */
  method Release(ghost arena: seq<Unit>, ghost reverse: Index, bootable: set<UnitKey>, dependents: seq<UnitKey>,
                 ghost d: UnitKey, ghost done: set<UnitKey>, ghost started: set<UnitKey>,
                 degree0: map<UnitKey, nat>, ready0: seq<UnitKey>)
    returns (degree: map<UnitKey, nat>, ready: seq<UnitKey>, underflow: bool)
    requires forall k | k in bootable :: k < |arena|
    requires dependents == Dependents(reverse, d) && d !in done && d < |arena|
    requires Degrees(arena, reverse, bootable, degree0, done)
    requires ReadyExactly(bootable, degree0, started, ready0) && ZeroDegrees(bootable, degree0, started)
    ensures underflow ==> SomeOvercounted(arena, reverse, bootable, done + {d})
    ensures !underflow ==>
              && Degrees(arena, reverse, bootable, degree, done + {d})
              && ReadyExactly(bootable, degree, started, ready) && ZeroDegrees(bootable, degree, started)
  {
    degree, ready, underflow := degree0, ready0, false;
    for j := 0 to |dependents|
      invariant DegreesWithin(arena, reverse, bootable, degree, done, dependents[..j])
      invariant ReadyExactly(bootable, degree, started, ready) && ZeroDegrees(bootable, degree, started)
    {
      var other := dependents[j];
      if other in bootable {
        if degree[other] == 0 {
          CountedTooOften(arena, reverse, bootable, degree, done, d, j);
          underflow := true;
          return;
        }
        CountDown(arena, reverse, bootable, degree, done, dependents, j);
        ReadyAfter(bootable, degree, started, ready, other);
        degree := degree[other := degree[other] - 1];
        if degree[other] == 0 {
          ready := ready + [other];
        }
      } else {
        assert dependents[..j + 1] == dependents[..j] + [other];
      }
    }
    assert dependents[..|dependents|] == dependents;
    forall k | k in bootable
      ensures degree[k] + Hits(reverse, done + {d}, k, |arena|) == |arena[k].dependencies|
    {
      HitsAdd(reverse, done, d, k, |arena|);
    }
  }

  /** A counter at zero before one more entry: that entry is one too many. */
  lemma CountedTooOften(arena: seq<Unit>, reverse: Index, b: set<UnitKey>, degree: map<UnitKey, nat>,
                        done: set<UnitKey>, d: UnitKey, j: nat)
    requires d !in done && d < |arena| && j < |Dependents(reverse, d)| && Dependents(reverse, d)[j] in b
    requires Dependents(reverse, d)[j] < |arena|
    requires DegreesWithin(arena, reverse, b, degree, done, Dependents(reverse, d)[..j])
    requires degree[Dependents(reverse, d)[j]] == 0
    ensures SomeOvercounted(arena, reverse, b, done + {d})
  {
    var dependents := Dependents(reverse, d);
    CountedBefore(dependents, j);
    HitsAdd(reverse, done, d, dependents[j], |arena|);
    assert Overcounted(arena, reverse, done + {d}, dependents[j]);
  }

  lemma CountDown(arena: seq<Unit>, reverse: Index, b: set<UnitKey>, degree: map<UnitKey, nat>, done: set<UnitKey>,
                  dependents: seq<UnitKey>, j: nat)
    requires j < |dependents| && dependents[j] in b && degree.Keys == b && degree[dependents[j]] > 0
    requires DegreesWithin(arena, reverse, b, degree, done, dependents[..j])
    ensures DegreesWithin(arena, reverse, b, degree[dependents[j] := degree[dependents[j]] - 1], done,
                          dependents[..j + 1])
  {
    assert dependents[..j + 1] == dependents[..j] + [dependents[j]];
  }

  lemma ReadyAfter(b: set<UnitKey>, degree: map<UnitKey, nat>, started: set<UnitKey>, ready: seq<UnitKey>, k: UnitKey)
    requires degree.Keys == b && ReadyExactly(b, degree, started, ready) && k in b && degree[k] > 0
    requires ZeroDegrees(b, degree, started)
    ensures var after := degree[k := degree[k] - 1];
            && ReadyExactly(b, after, started, if after[k] == 0 then ready + [k] else ready)
            && ZeroDegrees(b, after, started)
  {
  }

  lemma CountedBefore(s: seq<UnitKey>, j: nat)
    requires j < |s|
    ensures multiset(s[..j])[s[j]] < multiset(s)[s[j]]
  {
    assert s == s[..j] + [s[j]] + s[j + 1..];
  }

  /** The units of a wave, as a set. */
  function Elements(s: seq<UnitKey>): set<UnitKey> {
    set k | k in s
  }

  lemma NothingReady(b: set<UnitKey>, degree: map<UnitKey, nat>, started: set<UnitKey>, wave: seq<UnitKey>)
    requires degree.Keys == b && forall k | k in b && degree[k] == 0 :: k in started || k in wave
    ensures ReadyExactly(b, degree, started + Elements(wave), [])
  {
  }

  /** Processes one wave: its units are started, and the next wave becomes ready. */
  method ProcessWave(ghost arena: seq<Unit>, bootable: set<UnitKey>, reverse: Index, wave: seq<UnitKey>,
                     ghost started: set<UnitKey>, degree0: map<UnitKey, nat>)
    returns (degree: map<UnitKey, nat>, ready: seq<UnitKey>, underflow: bool)
    requires forall k | k in bootable :: k < |arena|
    requires NoDuplicates(wave) && forall k | k in wave :: k in bootable && k !in started
    requires Degrees(arena, reverse, bootable, degree0, started)
    requires forall k | k in bootable && degree0[k] == 0 :: k in started || k in wave
    requires ZeroDegrees(bootable, degree0, started + Elements(wave))
    ensures underflow ==> SomeOvercounted(arena, reverse, bootable, started + Elements(wave))
    ensures !underflow ==>
              && Degrees(arena, reverse, bootable, degree, started + Elements(wave))
              && ReadyExactly(bootable, degree, started + Elements(wave), ready)
              && ZeroDegrees(bootable, degree, started + Elements(wave))
  {
    hide SomeOvercounted, Hits, ReadyExactly;
    degree, ready, underflow := degree0, [], false;
    NothingReady(bootable, degree, started, wave);
    ghost var all := started + Elements(wave);
    assert started + Elements(wave[..0]) == started;
    for i := 0 to |wave|
      invariant Degrees(arena, reverse, bootable, degree, started + Elements(wave[..i]))
      invariant ReadyExactly(bootable, degree, all, ready) && ZeroDegrees(bootable, degree, all)
    {
      ghost var done := started + Elements(wave[..i]);
      assert wave[..i + 1] == wave[..i] + [wave[i]];
      assert done + {wave[i]} == started + Elements(wave[..i + 1]);
      assert wave[i] !in wave[..i];
      var dependents := if wave[i] in reverse then reverse[wave[i]] else [];
      degree, ready, underflow := Release(arena, reverse, bootable, dependents, wave[i], done, all, degree, ready);
      if underflow {
        OvercountStays(arena, reverse, bootable, done + {wave[i]}, all);
        return;
      }
    }
    assert wave[..|wave|] == wave;
  }

  /** The degree-zero units not yet started are the next round. */
  lemma ReadyIsRound(arena: seq<Unit>, reverse: Index, b: set<UnitKey>, degree: map<UnitKey, nat>, i: nat,
                     ready: seq<UnitKey>)
    requires forall k | k in b :: k < |arena|
    requires Degrees(arena, reverse, b, degree, Round(arena, reverse, b, i))
    requires ReadyExactly(b, degree, Round(arena, reverse, b, i), ready)
    ensures forall k :: k in ready <==> k in RoundWave(arena, reverse, b, i)
    ensures Round(arena, reverse, b, i + 1) == Round(arena, reverse, b, i) + Elements(ready)
    ensures forall k | k in b && degree[k] == 0 :: k in Round(arena, reverse, b, i) || k in ready
    ensures ZeroDegrees(b, degree, Round(arena, reverse, b, i + 1))
  {
    var done := Round(arena, reverse, b, i);
    RoundGrows(arena, reverse, b, i, i + 1);
    RoundRipe(arena, reverse, b, i);
    forall k | k in b ensures degree[k] == 0 <==> Ripe(arena, reverse, done, k) {
    }
  }

  /** The waves by the counters, and whether they hold every bootable unit, unless a counter would go below zero. */
  method BootWaves(arena: seq<Unit>, bootable: set<UnitKey>, reverse: Index)
    returns (waves: seq<seq<UnitKey>>, complete: bool, underflow: bool)
    requires DistinctNames(arena) && forall k | k in bootable :: k < |arena|
    ensures underflow <==> Underflows(arena, reverse, bootable)
    ensures !underflow ==> Rounds(arena, reverse, bootable, waves)
    ensures !underflow ==> complete == (Round(arena, reverse, bootable, |waves|) == bootable)
  {
    var degree := InitialDegrees(arena, bootable, reverse);
    var ready := InitiallyReady(bootable, degree);
    waves, complete := [], false;
    var count := 0;
    while ready != []
      invariant Degrees(arena, reverse, bootable, degree, Round(arena, reverse, bootable, |waves|))
      invariant ReadyExactly(bootable, degree, Round(arena, reverse, bootable, |waves|), ready)
      invariant RoundsSoFar(arena, reverse, bootable, waves)
      invariant count == |Round(arena, reverse, bootable, |waves|)|
      decreases bootable - Round(arena, reverse, bootable, |waves|)
    {
      ghost var n := |waves|;
      var wave := TakeWave(arena, bootable, reverse, degree, n, ready);
      count := count + |wave|;
      degree, ready, underflow :=
        ProcessWave(arena, bootable, reverse, wave, Round(arena, reverse, bootable, n), degree);
      if underflow {
        UnderflowFound(arena, reverse, bootable, n + 1);
        return;
      }
      RoundsFurther(arena, reverse, bootable, waves, wave);
      waves := waves + [wave];
      assert |waves| == n + 1;
    }
    RoundsEnd(arena, reverse, bootable, waves, degree);
    complete, underflow := count == |bootable|, false;
  }

  lemma UnderflowFound(arena: seq<Unit>, reverse: Index, b: set<UnitKey>, i: nat)
    requires SomeOvercounted(arena, reverse, b, Round(arena, reverse, b, i))
    ensures Underflows(arena, reverse, b)
  {
    var k :| k in b && Overcounted(arena, reverse, Round(arena, reverse, b, i), k);
  }

  /** The ready units in name order: the next round, which starts further units. */
  method TakeWave(arena: seq<Unit>, bootable: set<UnitKey>, ghost reverse: Index, degree: map<UnitKey, nat>,
                  ghost n: nat, ready: seq<UnitKey>)
    returns (wave: seq<UnitKey>)
    requires DistinctNames(arena) && ready != []
    requires forall k | k in bootable :: k < |arena|
    requires Degrees(arena, reverse, bootable, degree, Round(arena, reverse, bootable, n))
    requires ReadyExactly(bootable, degree, Round(arena, reverse, bootable, n), ready)
    ensures RoundAt(arena, reverse, bootable, n, wave)
    ensures forall k | k in wave :: k in bootable && k !in Round(arena, reverse, bootable, n)
    ensures Round(arena, reverse, bootable, n + 1) == Round(arena, reverse, bootable, n) + Elements(wave)
    ensures |Round(arena, reverse, bootable, n + 1)| == |Round(arena, reverse, bootable, n)| + |wave|
    ensures bootable - Round(arena, reverse, bootable, n + 1) < bootable - Round(arena, reverse, bootable, n)
    ensures forall k | k in bootable && degree[k] == 0 :: k in Round(arena, reverse, bootable, n) || k in wave
    ensures ZeroDegrees(bootable, degree, Round(arena, reverse, bootable, n + 1))
  {
    hide Round, Degrees;
    ReadyIsRound(arena, reverse, bootable, degree, n, ready);
    assert forall j | 0 <= j < |ready| :: ready[j] in ready;
    wave := Sort(arena, ready);
    SameElements(ready, wave);
    assert Elements(wave) == Elements(ready);
    WaveProgress(arena, reverse, bootable, n, wave);
  }

  /** Starting a nonempty wave makes progress by as many units. */
  lemma WaveProgress(arena: seq<Unit>, reverse: Index, b: set<UnitKey>, n: nat, wave: seq<UnitKey>)
    requires NoDuplicates(wave) && wave != [] && forall k :: k in wave <==> k in RoundWave(arena, reverse, b, n)
    requires Round(arena, reverse, b, n + 1) == Round(arena, reverse, b, n) + Elements(wave)
    ensures |Round(arena, reverse, b, n + 1)| == |Round(arena, reverse, b, n)| + |wave|
    ensures b - Round(arena, reverse, b, n + 1) < b - Round(arena, reverse, b, n)
  {
    RoundGrows(arena, reverse, b, n, n + 1);
    CountElements(wave);
    assert Round(arena, reverse, b, n) !! Elements(wave);
    assert wave[0] in RoundWave(arena, reverse, b, n);
    assert wave[0] in b - Round(arena, reverse, b, n) && wave[0] in Round(arena, reverse, b, n + 1);
  }

  ghost predicate RoundsSoFar(arena: seq<Unit>, reverse: Index, b: set<UnitKey>, waves: seq<seq<UnitKey>>) {
    forall i | 0 <= i < |waves| :: RoundAt(arena, reverse, b, i, waves[i])
  }

  lemma RoundsFurther(arena: seq<Unit>, reverse: Index, b: set<UnitKey>, waves: seq<seq<UnitKey>>, wave: seq<UnitKey>)
    requires RoundsSoFar(arena, reverse, b, waves) && RoundAt(arena, reverse, b, |waves|, wave)
    ensures RoundsSoFar(arena, reverse, b, waves + [wave])
  {
  }

  /** With nothing ready the rounds are finished, and no counter ever went below zero. */
  lemma RoundsEnd(arena: seq<Unit>, reverse: Index, b: set<UnitKey>, waves: seq<seq<UnitKey>>,
                  degree: map<UnitKey, nat>)
    requires forall k | k in b :: k < |arena|
    requires RoundsSoFar(arena, reverse, b, waves)
    requires Degrees(arena, reverse, b, degree, Round(arena, reverse, b, |waves|))
    requires ReadyExactly(b, degree, Round(arena, reverse, b, |waves|), [])
    ensures Rounds(arena, reverse, b, waves) && !Underflows(arena, reverse, b)
    ensures |Round(arena, reverse, b, |waves|)| == |b| <==> Round(arena, reverse, b, |waves|) == b
  {
    var n := |waves|;
    ReadyIsRound(arena, reverse, b, degree, n, []);
    assert RoundWave(arena, reverse, b, n) == {} by {
      forall k ensures k !in RoundWave(arena, reverse, b, n) {
        assert k in [] <==> k in RoundWave(arena, reverse, b, n);
      }
    }
    NeverOvercounted(arena, reverse, b, n, degree);
    RoundGrows(arena, reverse, b, n, n);
    if |Round(arena, reverse, b, n)| == |b| {
      SubsetSameSize(Round(arena, reverse, b, n), b);
    }
  }

  lemma NeverOvercounted(arena: seq<Unit>, reverse: Index, b: set<UnitKey>, n: nat, degree: map<UnitKey, nat>)
    requires RoundWave(arena, reverse, b, n) == {} && Degrees(arena, reverse, b, degree, Round(arena, reverse, b, n))
    ensures !Underflows(arena, reverse, b)
  {
    forall i: nat, k | k in b ensures !Overcounted(arena, reverse, Round(arena, reverse, b, i), k) {
      RoundSettles(arena, reverse, b, n, i);
      HitsGrow(reverse, Round(arena, reverse, b, i), Round(arena, reverse, b, n), k, |arena|);
    }
  }

  method InitialDegrees(arena: seq<Unit>, bootable: set<UnitKey>, ghost reverse: Index)
    returns (degree: map<UnitKey, nat>)
    requires forall k | k in bootable :: k < |arena|
    ensures Degrees(arena, reverse, bootable, degree, {})
  {
    degree := map k | k in bootable :: |arena[k].dependencies|;
    forall k | k in bootable ensures Hits(reverse, {}, k, |arena|) == 0 {
      HitsNone(reverse, k, |arena|);
    }
  }

  /** Degree-zero units, in any order. */
  method InitiallyReady(bootable: set<UnitKey>, degree: map<UnitKey, nat>) returns (ready: seq<UnitKey>)
    requires degree.Keys == bootable
    ensures ReadyExactly(bootable, degree, {}, ready)
  {
    ready := [];
    var rest := bootable;
    while rest != {}
      invariant rest <= bootable
      invariant NoDuplicates(ready) && forall k :: k in ready <==> k in bootable - rest && degree[k] == 0
      decreases rest
    {
      var key :| key in rest;
      rest := rest - {key};
      if degree[key] == 0 {
        ready := ready + [key];
      }
    }
  }

  lemma SameElements(a: seq<UnitKey>, b: seq<UnitKey>)
    requires multiset(a) == multiset(b) && NoDuplicates(a)
    ensures (forall k :: k in a <==> k in b) && NoDuplicates(b)
  {
    forall k ensures k in a <==> k in b {
      assert k in a <==> k in multiset(a);
      assert k in b <==> k in multiset(b);
    }
    forall i, j | 0 <= i < j < |b| ensures b[i] != b[j] {
      OccursOnce(a, b[i]);
      assert b == b[..j] + [b[j]] + b[j + 1..];
      assert b[i] in b[..j];
      assert multiset(b)[b[j]] == multiset(b[..j])[b[j]] + 1 + multiset(b[j + 1..])[b[j]];
    }
  }

  lemma {:induction false} OccursOnce(a: seq<UnitKey>, k: UnitKey)
    requires NoDuplicates(a)
    ensures multiset(a)[k] <= 1
  {
    if a == [] {
    } else {
      OccursOnce(a[1..], k);
      assert a == [a[0]] + a[1..];
      if k == a[0] {
        assert k !in a[1..];
      }
    }
  }

  lemma {:induction false} CountElements(s: seq<UnitKey>)
    requires NoDuplicates(s)
    ensures |Elements(s)| == |s|
  {
    if s == [] {
    } else {
      CountElements(s[1..]);
      assert s == [s[0]] + s[1..];
      assert Elements(s) == {s[0]} + Elements(s[1..]);
      assert s[0] !in Elements(s[1..]);
    }
  }

  lemma SubsetSameSize(a: set<UnitKey>, b: set<UnitKey>)
    requires a <= b && |a| == |b|
    ensures a == b
  {
    assert b == a + (b - a);
    assert |b| == |a| + |b - a|;
  }
}
