/** When a state has a boot schedule, and how the schedule that the counters yield relates to the dependency lists. */
module Schedules {
  import opened Units
  import opened Names
  import opened Graphs
  import opened Waves
  import opened ForgeModel
  import opened Countdown
  import opened Resolution
  import opened ReverseIndex
  import opened BootPlan

  /** Some bootable units can never be the first of them to start. */
  ghost predicate Deadlocked(f: Forge) {
    exists s :: Blocked(DependencyGraph(f), BootableSet(f), s)
  }

  /** No schedule comes out: units deadlock, or the index does not count some entry that a unit waits for. */
  ghost predicate Unschedulable(f: Forge) {
    Deadlocked(f) || EntryUncounted(f)
  }

  /** Complete layering of the bootable units. */
  ghost predicate Scheduled(f: Forge, waves: seq<seq<UnitKey>>) {
    && Layering(f.arena, DependencyGraph(f), BootableSet(f), waves)
    && Started(DependencyGraph(f), BootableSet(f), |waves|) == BootableSet(f)
  }

  // ---- What the counters yield ------------------------------------------------------------------------------

  /** The bootable units that the counters have let start within i rounds. */
  ghost function RoundOf(f: Forge, i: nat): set<UnitKey> {
    Round(f.arena, f.reverse, BootableSet(f), i)
  }

  /** A schedule would count some unit's degree below zero. */
  ghost predicate Underflow(f: Forge) {
    Underflows(f.arena, f.reverse, BootableSet(f))
  }

  /** Some bootable unit's counter never reaches zero. */
  ghost predicate Stalls(f: Forge) {
    forall i: nat :: RoundOf(f, i) != BootableSet(f)
  }

  /** The waves are the rounds of the counters, and they hold every bootable unit. */
  ghost predicate Counted(f: Forge, waves: seq<seq<UnitKey>>) {
    Rounds(f.arena, f.reverse, BootableSet(f), waves) && RoundOf(f, |waves|) == BootableSet(f)
  }

  lemma StallsExact(f: Forge, n: nat)
    requires RoundWave(f.arena, f.reverse, BootableSet(f), n) == {}
    ensures Stalls(f) <==> RoundOf(f, n) != BootableSet(f)
  {
    forall i: nat ensures RoundOf(f, i) <= RoundOf(f, n) <= BootableSet(f) {
      RoundSettles(f.arena, f.reverse, BootableSet(f), n, i);
      RoundGrows(f.arena, f.reverse, BootableSet(f), n, n);
    }
  }

  lemma CountedIndexes(f: Forge)
    requires CountsDown(f)
    ensures IndexesBootable(f.arena, CountedGraph(f), BootableSet(f), f.reverse)
  {
    forall d, k | d in BootableSet(f) && k in BootableSet(f) && k < |f.arena|
      ensures multiset(Dependents(f.reverse, d))[k] == multiset(CountedGraph(f)[k])[d]
    {
      CountedTranspose(f, d, k);
    }
  }

  /** If every entry of the lists is indexed, and no other, the entries that the index counts are the lists. */
  lemma CountedCoverage(f: Forge, waves: seq<seq<UnitKey>>)
    requires Layering(f.arena, CountedGraph(f), BootableSet(f), waves)
    ensures Started(CountedGraph(f), BootableSet(f), |waves|) == BootableSet(f) ==> Scheduled(f, waves)
    ensures Started(CountedGraph(f), BootableSet(f), |waves|) == BootableSet(f) <==> !Unschedulable(f)
  {
    CoverageExact(CountedGraph(f), BootableSet(f), |waves|);
    if EntryUncounted(f) {
      UncountedBlocks(f);
    } else {
      CountedSame(f);
    }
  }

  lemma BlockedExact(f: Forge)
    ensures (exists s :: Blocked(CountedGraph(f), BootableSet(f), s)) <==> Unschedulable(f)
  {
    if EntryUncounted(f) {
      UncountedBlocks(f);
    } else {
      CountedSame(f);
    }
  }

  lemma StallsIfBlocked(f: Forge)
    requires CountsDown(f)
    ensures Stalls(f) <==> Unschedulable(f)
  {
    hide Unschedulable, Stalls, Blocked, CountedGraph;
    var g, b := CountedGraph(f), BootableSet(f);
    CountedIndexes(f);
    BlockedExact(f);
    var n := EmptyWave(g, b, 0);
    BootableLive(f);
    CoverageExact(g, b, n);
    RoundIsStarted(f.arena, g, b, f.reverse, n);
    RoundIsStarted(f.arena, g, b, f.reverse, n + 1);
    StallsExact(f, n);
  }

  lemma BootableLive(f: Forge)
    ensures |CountedGraph(f)| == |f.arena| && forall k | k in BootableSet(f) :: k < |f.arena|
  {
  }

  /**
    On an index that for no pair of bootable units counts more than the list, no counter goes below zero, the counters
    stall exactly if units deadlock or an entry is not counted, and what they yield is a schedule of the lists.
   */
  lemma CountedExact(f: Forge, waves: seq<seq<UnitKey>>)
    requires CountsDown(f)
    ensures !Underflow(f) && (Stalls(f) <==> Unschedulable(f))
    ensures Counted(f, waves) <==> Scheduled(f, waves) && !EntryUncounted(f)
  {
    var g, b := CountedGraph(f), BootableSet(f);
    CountedIndexes(f);
    NoUnderflow(f.arena, g, b, f.reverse);
    StallsIfBlocked(f);
    RoundsAreLayering(f.arena, g, b, f.reverse, waves);
    RoundIsStarted(f.arena, g, b, f.reverse, |waves|);
    if EntryUncounted(f) {
      if Layering(f.arena, g, b, waves) {
        CountedCoverage(f, waves);
      }
    } else {
      CountedSame(f);
    }
  }

  /** After a successful resolution the counters yield exactly the schedules of the lists. */
  lemma ExactSchedules(f: Forge)
    requires ReverseExact(f)
    ensures !Underflow(f) && (Stalls(f) <==> Deadlocked(f))
    ensures forall waves :: Counted(f, waves) <==> Scheduled(f, waves)
  {
    ExactCounts(f);
    forall waves ensures Counted(f, waves) <==> Scheduled(f, waves) {
      CountedExact(f, waves);
    }
    CountedExact(f, []);
  }

  lemma FreshSchedules(f: Forge)
    requires FreshlyResolved(f)
    ensures !Underflow(f) && (Stalls(f) <==> Deadlocked(f))
    ensures forall waves :: Counted(f, waves) <==> Scheduled(f, waves)
  {
    ExactSchedules(f);
  }

  // ---- Examples ---------------------------------------------------------------------------------------------

  /** After the failed resolution of the example the first wave counts a degree of zero down. */
  lemma FailedResolutionUnderflows(arena: seq<Unit>, index: Index, lists: Graph, done: set<UnitKey>, k: UnitKey)
    requires StoppedAt(GoneExample(), arena, lists, done, k) && OrdersMissing(GoneExample(), k)
    requires TransposeOf(index, lists)
    ensures Underflow(GoneExample().(arena := arena, reverse := index))
  {
    var f := GoneExample();
    var g := f.(arena := arena, reverse := index);
    FailedResolutionInexact(arena, index, lists, done, k);
    GoneFacts();
    PartialReordered(f, arena, lists[k := []], done);
    SameBootable(f, g);
    FirstRoundUnderflows(arena, index, BootableSet(g), 0, 1);
  }

  /** An index entry for a unit without a list, at another unit without one, is counted below zero. */
  lemma FirstRoundUnderflows(arena: seq<Unit>, index: Index, b: set<UnitKey>, k: UnitKey, d: UnitKey)
    requires k in b && d in b && k < |arena| && d < |arena| && k in Dependents(index, d)
    requires arena[k].dependencies == [] && arena[d].dependencies == []
    ensures Underflows(arena, index, b)
  {
    var r := Round(arena, index, b, 1);
    assert Round(arena, index, b, 0) == {};
    assert Ripe(arena, index, {}, d) && d in r;
    HitsAdd(index, {}, d, k, |arena|);
    HitsGrow(index, {} + {d}, r, k, |arena|);
    assert k in multiset(Dependents(index, d));
    assert Overcounted(arena, index, Round(arena, index, b, 1), k);
  }

  /** Unit "a" lists only an active timer, and an older index entry still counts it as a dependent of unit "b". */
  ghost function SpareExample(): Forge {
    EMPTY.(arena := [Unit("a", Service(["t"], [], [], [], No, Simple, [], None), Dead, [2], None),
                     Unit("b", Service([], [], [], [], No, Simple, [], None), Dead, [], None),
                     Unit("t", Timer([]), Dead, [], None)],
           nameIndex := map["a" := 0, "b" := 1, "t" := 2], activeUnits := {0, 1, 2}, reverse := map[1 := [0]])
  }

  /** The index counts a pair that no list has, but each unit's total suffices: nothing goes wrong with the counters. */
  lemma SpareEntryCounts()
    ensures !CountsDown(SpareExample()) && !Underflow(SpareExample()) && !Stalls(SpareExample())
  {
    var f := SpareExample();
    var b, r := BootableSet(f), f.reverse;
    assert b == {0, 1};
    assert 0 in multiset(Dependents(r, 1)) && Indexed(f, 1, 0) > Entries(f, 0, 1);
    SpareNeverOver(f, b);
    SpareRounds(f, b);
    assert RoundOf(f, 2) == b;
  }

  lemma SpareNeverOver(f: Forge, b: set<UnitKey>)
    requires f == SpareExample() && b == {0, 1}
    ensures !Underflows(f.arena, f.reverse, b)
  {
    SpareHits(f.reverse, {0, 1});
    forall i: nat, k | k in b ensures !Overcounted(f.arena, f.reverse, Round(f.arena, f.reverse, b, i), k) {
      RoundGrows(f.arena, f.reverse, b, i, i);
      HitsGrow(f.reverse, Round(f.arena, f.reverse, b, i), {0, 1}, k, 3);
    }
  }

  lemma SpareRounds(f: Forge, b: set<UnitKey>)
    requires f == SpareExample() && b == {0, 1}
    ensures Round(f.arena, f.reverse, b, 2) == b
  {
    SpareHits(f.reverse, {1});
    HitsNone(f.reverse, 0, 3);
    HitsNone(f.reverse, 1, 3);
    assert Round(f.arena, f.reverse, b, 0) == {};
    assert Round(f.arena, f.reverse, b, 1) == {1};
  }

  lemma SpareHits(r: Index, s: set<UnitKey>)
    requires r == map[1 := [0]] && 1 in s && s <= {0, 1}
    ensures Hits(r, s, 0, 3) == 1 && Hits(r, s, 1, 3) == 0
  {
    assert forall k :: Hits(r, s, k, 0) == 0;
    assert forall k: UnitKey :: Hits(r, s, k, 1) == 0;
    assert forall k: UnitKey :: Hits(r, s, k, 2) == multiset([0])[k];
    assert 0 in multiset([0]) && 1 !in multiset([0 as UnitKey]);
  }

  // ---- The waves hold every unit once -----------------------------------------------------------------------

  lemma CountedLive(f: Forge, waves: seq<seq<UnitKey>>)
    requires Counted(f, waves)
    ensures forall i | 0 <= i < |waves| :: Live(f.arena, waves[i])
  {
    forall i | 0 <= i < |waves| ensures Live(f.arena, waves[i]) {
      assert RoundAt(f.arena, f.reverse, BootableSet(f), i, waves[i]);
    }
  }

  lemma CountedPartitions(f: Forge, waves: seq<seq<UnitKey>>)
    requires Counted(f, waves)
    ensures Partition(waves, BootableSet(f))
  {
    var a, r, b := f.arena, f.reverse, BootableSet(f);
    forall i | 0 <= i < |waves| ensures RoundAt(a, r, b, i, waves[i]) {}
    forall i, k | 0 <= i < |waves| && k in waves[i] ensures k in b {
      RoundGrows(a, r, b, i + 1, i + 1);
    }
    forall k | k in b ensures InSomeWave(waves, k) {
      var i := RoundExists(a, r, b, |waves|, k);
      assert k in waves[i];
    }
    forall i, j, k | 0 <= i < |waves| && 0 <= j < |waves| && k in waves[i] && k in waves[j] ensures i == j {
      RoundUnique(a, r, b, i, j, k);
    }
  }
}
