/** What the reverse index holds after resolution, and which index the schedule can be computed from. */
module ReverseIndex {
  import opened Units
  import opened Names
  import opened Graphs
  import opened Waves
  import opened ForgeModel
  import opened Resolution

  /** Only dependency lists differ. */
  ghost predicate Reordered(a: seq<Unit>, b: seq<Unit>) {
    |a| == |b| && forall k | 0 <= k < |a| :: b[k] == a[k].(dependencies := b[k].dependencies)
  }

  lemma {:induction false} DependencyListSame(f: Forge, g: Forge, names: seq<string>)
    requires g == f.(arena := g.arena, reverse := g.reverse) && Reordered(f.arena, g.arena)
    ensures DependencyList(f, names) == DependencyList(g, names)
  {
    if names == [] {
    } else {
      DependencyListSame(f, g, names[..|names| - 1]);
    }
  }

  lemma ResolvedFresh(f: Forge, arena: seq<Unit>, index: map<UnitKey, seq<UnitKey>>, lists: Graph)
    requires Sound(f) && Partial(f, arena, lists, f.activeUnits) && TransposeOf(index, lists)
    ensures var g := f.(arena := arena, reverse := index); Sound(g) && Reordered(f.arena, arena) && FreshlyResolved(g)
  {
    var g := f.(arena := arena, reverse := index);
    PartialReordered(f, arena, lists, f.activeUnits);
    ReorderedSound(f, arena, index, lists);
    forall d: UnitKey, k: UnitKey ensures multiset(Dependents(index, d))[k] == Uses(g, k, d) {
      assert multiset(Dependents(index, d))[k] == Listed(lists, k, d);
      if k < |arena| {
        assert PartialAt(f, arena, lists, f.activeUnits, k);
      }
    }
    forall k | k in g.activeUnits && k < |g.arena|
      ensures g.arena[k].dependencies == DependencyList(g, Ordering(g.arena[k].kind))
    {
      assert PartialAt(f, arena, lists, f.activeUnits, k);
      DependencyListSame(f, g, Ordering(f.arena[k].kind));
    }
  }

  lemma StoppedSound(f: Forge, arena: seq<Unit>, index: map<UnitKey, seq<UnitKey>>, lists: Graph,
        done: set<UnitKey>, k: UnitKey)
    requires Sound(f) && StoppedAt(f, arena, lists, done, k) && TransposeOf(index, lists)
    ensures Sound(f.(arena := arena, reverse := index)) && Reordered(f.arena, arena)
  {
    PartialReordered(f, arena, lists[k := []], done);
    ReorderedSound(f, arena, index, lists);
  }

  /** g is f after a resolution that stopped: the finished lists, the index, and the error belong together. */
  ghost predicate ResolutionStopped(f: Forge, g: Forge, e: ForgeError) {
    exists k, done, lists ::
      StoppedAt(f, g.arena, lists, done, k) && TransposeOf(g.reverse, lists) && NamesMissingOrder(f, k, e)
  }

  /** What a resolution of f leaves: only lists and index change, and they are exact unless a name was missing. */
  ghost predicate ResolvedTo(f: Forge, g: Forge, r: Result<()>) {
    && g == f.(arena := g.arena, reverse := g.reverse) && Reordered(f.arena, g.arena) && Sound(g)
    && (r.Err? <==> !f.bootLenient && ActiveOrdersMissing(f))
    && (r.Err? ==> ResolutionStopped(f, g, r.error))
    && (r.Ok? ==> FreshlyResolved(g))
  }

  lemma ResolutionResult(f: Forge, arena: seq<Unit>, index: map<UnitKey, seq<UnitKey>>, lists: Graph, r: Result<()>)
    requires Sound(f) && TransposeOf(index, lists)
    requires r.Err? <==> !f.bootLenient && ActiveOrdersMissing(f)
    requires r.Ok? ==> Partial(f, arena, lists, f.activeUnits)
    requires r.Err? ==> exists k, done :: StoppedAt(f, arena, lists, done, k) && NamesMissingOrder(f, k, r.error)
    ensures ResolvedTo(f, f.(arena := arena, reverse := index), r)
  {
    if r.Ok? {
      ResolvedFresh(f, arena, index, lists);
    } else {
      var k, done :| StoppedAt(f, arena, lists, done, k) && NamesMissingOrder(f, k, r.error);
      StoppedSound(f, arena, index, lists, done, k);
    }
  }

  method Resolve(f: Forge) returns (arena: seq<Unit>, reverse: map<UnitKey, seq<UnitKey>>, r: Result<()>)
    requires Sound(f)
    ensures ResolvedTo(f, f.(arena := arena, reverse := reverse), r)
  {
    ghost var lists;
    arena, reverse, r, lists := ResolveAll(f);
    ResolutionResult(f, arena, reverse, lists, r);
  }

  lemma PartialReordered(f: Forge, arena: seq<Unit>, lists: Graph, done: set<UnitKey>)
    requires Partial(f, arena, lists, done) && Sound(f)
    ensures Reordered(f.arena, arena)
    ensures forall k | 0 <= k < |arena| :: Live(arena, arena[k].dependencies)
    ensures forall k | 0 <= k < |arena| && arena[k].kind.Target? :: arena[k].dependencies == []
  {
    forall k | 0 <= k < |arena|
      ensures arena[k] == f.arena[k].(dependencies := arena[k].dependencies)
      ensures Live(arena, arena[k].dependencies)
      ensures arena[k].kind.Target? ==> arena[k].dependencies == []
    {
      assert PartialAt(f, arena, lists, done, k);
    }
  }

  lemma ReorderedSound(f: Forge, arena: seq<Unit>, index: map<UnitKey, seq<UnitKey>>, lists: Graph)
    requires Sound(f) && Reordered(f.arena, arena) && |lists| == |arena| && TransposeOf(index, lists)
    requires forall k | 0 <= k < |arena| :: Live(arena, arena[k].dependencies)
    requires forall k | 0 <= k < |arena| && arena[k].kind.Target? :: arena[k].dependencies == []
    ensures Sound(f.(arena := arena, reverse := index))
  {
    forall d | d in index ensures Live(arena, index[d]) {
      TransposeLive(index, lists, d);
    }
  }

  // ---- Where the index is not exact -------------------------------------------------------------------------

  /** How often the index counts k as a dependent of d. */
  ghost function Indexed(f: Forge, d: UnitKey, k: UnitKey): nat {
    multiset(Dependents(f.reverse, d))[k]
  }

  /** What an error leaves of the pair d, j: the entries of j and those indexed for it. */
  ghost predicate StoppedPair(f: Forge, g: Forge, done: set<UnitKey>, k: UnitKey, d: UnitKey, j: UnitKey)
    requires k < |f.arena|
  {
    if j in f.activeUnits - done && j < |f.arena| then
      Uses(g, j, d) == multiset(f.arena[j].dependencies)[d]
      && Indexed(g, d, j) == if j == k then multiset(StoppedList(f, k))[d] else 0
    else Indexed(g, d, j) == Uses(g, j, d)
  }

  lemma StoppedCounts(f: Forge, arena: seq<Unit>, index: map<UnitKey, seq<UnitKey>>, lists: Graph,
                      done: set<UnitKey>, k: UnitKey, d: UnitKey, j: UnitKey)
    requires Sound(f) && StoppedAt(f, arena, lists, done, k) && TransposeOf(index, lists)
    ensures StoppedPair(f, f.(arena := arena, reverse := index), done, k, d, j)
  {
    assert multiset(Dependents(index, d))[j] == Listed(lists, j, d);
    if j < |arena| { assert PartialAt(f, arena, lists[k := []], done, j); }
  }

  /** The state before a resolution already has the lists that it would index for the units it does not finish. */
  ghost predicate ListedBefore(f: Forge, done: set<UnitKey>, k: UnitKey)
    requires k < |f.arena|
  {
    && multiset(f.arena[k].dependencies) == multiset(StoppedList(f, k))
    && forall j | j in f.activeUnits - done && j != k && j < |f.arena| :: f.arena[j].dependencies == []
  }

  /**
    A failed resolution leaves the index exact only by luck: exactly if, before it began, the unit it stops at had the
    entries up to its missing name, and no other unit it does not reach had any.
   */
  lemma FailedResolutionIndex(f: Forge, arena: seq<Unit>, index: map<UnitKey, seq<UnitKey>>, lists: Graph,
                              done: set<UnitKey>, k: UnitKey)
    requires Sound(f) && StoppedAt(f, arena, lists, done, k) && TransposeOf(index, lists)
    ensures ReverseExact(f.(arena := arena, reverse := index)) <==> ListedBefore(f, done, k)
  {
    var g := f.(arena := arena, reverse := index);
    forall d: UnitKey, j: UnitKey ensures StoppedPair(f, g, done, k, d, j) {
      StoppedCounts(f, arena, index, lists, done, k, d, j);
    }
    if ListedBefore(f, done, k) {
      ExactIfListed(f, g, done, k);
    }
    if ReverseExact(g) {
      ListedIfExact(f, g, done, k);
    }
  }

  lemma ExactIfListed(f: Forge, g: Forge, done: set<UnitKey>, k: UnitKey)
    requires k < |f.arena| && ListedBefore(f, done, k)
    requires forall d, j :: StoppedPair(f, g, done, k, d, j)
    ensures ReverseExact(g)
  {
    forall d: UnitKey, j: UnitKey ensures multiset(Dependents(g.reverse, d))[j] == Uses(g, j, d) {
      assert StoppedPair(f, g, done, k, d, j);
      if j in f.activeUnits - done && j < |f.arena| && j != k {
        assert f.arena[j].dependencies == [];
      }
    }
  }

  lemma ListedIfExact(f: Forge, g: Forge, done: set<UnitKey>, k: UnitKey)
    requires k < |f.arena| && k in f.activeUnits - done && ReverseExact(g)
    requires forall d, j :: StoppedPair(f, g, done, k, d, j)
    ensures ListedBefore(f, done, k)
  {
    forall d: UnitKey ensures multiset(f.arena[k].dependencies)[d] == multiset(StoppedList(f, k))[d] {
      assert StoppedPair(f, g, done, k, d, k);
      assert Indexed(g, d, k) == Uses(g, k, d);
    }
    forall j | j in f.activeUnits - done && j != k && j < |f.arena| ensures f.arena[j].dependencies == [] {
      forall d: UnitKey ensures multiset(f.arena[j].dependencies)[d] == 0 {
        assert StoppedPair(f, g, done, k, d, j);
        assert Indexed(g, d, j) == Uses(g, j, d);
      }
      HeadListed(f.arena[j].dependencies);
    }
  }

  lemma HeadListed(deps: seq<UnitKey>)
    ensures deps == [] || multiset(deps)[deps[0]] > 0
  {
    if deps != [] { assert deps[0] in multiset(deps); }
  }

  /** For no pair of units does the index count more than the list. */
  ghost predicate IndexBounded(f: Forge) {
    forall d: UnitKey, k: UnitKey :: Indexed(f, d, k) <= Entries(f, k, d)
  }

  ghost function Entries(f: Forge, k: UnitKey, d: UnitKey): nat {
    if k < |f.arena| then multiset(f.arena[k].dependencies)[d] else 0
  }

  /** The same for bootable units, as the scheduler's degree counters need it: none is counted below zero. */
  ghost predicate CountsDown(f: Forge) {
    forall d, k | d in BootableSet(f) && k in BootableSet(f) :: Indexed(f, d, k) <= Entries(f, k, d)
  }

  /** Some bootable unit has an entry that the index does not count. */
  ghost predicate EntryUncounted(f: Forge) {
    exists d, k :: d in BootableSet(f) && k in BootableSet(f) && Indexed(f, d, k) < Entries(f, k, d)
  }

  lemma ExactCounts(f: Forge)
    requires ReverseExact(f)
    ensures IndexBounded(f) && CountsDown(f) && !EntryUncounted(f)
  {
    forall d: UnitKey, k: UnitKey
      ensures Indexed(f, d, k) <= Entries(f, k, d)
      ensures k in BootableSet(f) ==> Indexed(f, d, k) == Entries(f, k, d)
    {
      assert Indexed(f, d, k) == Uses(f, k, d);
    }
  }

  /** When the schedule can be computed in spite of a failed resolution. */
  lemma FailedResolutionCounts(f: Forge, arena: seq<Unit>, index: map<UnitKey, seq<UnitKey>>, lists: Graph,
                               done: set<UnitKey>, k: UnitKey)
    requires Sound(f) && StoppedAt(f, arena, lists, done, k) && TransposeOf(index, lists)
    ensures CountsDown(f.(arena := arena, reverse := index)) <==>
            (k in BootableSet(f) ==> forall d | d in BootableSet(f) ::
               multiset(StoppedList(f, k))[d] <= multiset(f.arena[k].dependencies)[d])
  {
    var g := f.(arena := arena, reverse := index);
    PartialReordered(f, arena, lists[k := []], done);
    SameBootable(f, g);
    forall d: UnitKey, j: UnitKey ensures StoppedPair(f, g, done, k, d, j) {
      StoppedCounts(f, arena, index, lists, done, k, d, j);
    }
    CountsIfPrefixListed(f, g, done, k);
  }

  lemma CountsIfPrefixListed(f: Forge, g: Forge, done: set<UnitKey>, k: UnitKey)
    requires k < |f.arena| == |g.arena| && BootableSet(g) == BootableSet(f) && g.activeUnits == f.activeUnits
    requires k in f.activeUnits - done && forall d, j :: StoppedPair(f, g, done, k, d, j)
    ensures CountsDown(g) <==>
            (k in BootableSet(f) ==> forall d | d in BootableSet(f) ::
               multiset(StoppedList(f, k))[d] <= multiset(f.arena[k].dependencies)[d])
  {
    hide StoppedList;
    forall d, j | d in BootableSet(g) && j in BootableSet(g)
      ensures j != k ==> Indexed(g, d, j) <= Entries(g, j, d)
      ensures j == k ==> Indexed(g, d, j) == multiset(StoppedList(f, k))[d]
      ensures j == k ==> Entries(g, j, d) == multiset(f.arena[k].dependencies)[d]
    {
      assert StoppedPair(f, g, done, k, d, j);
      assert Uses(g, j, d) == Entries(g, j, d);
    }
  }

  lemma SameBootable(f: Forge, g: Forge)
    requires Reordered(f.arena, g.arena) && g.activeUnits == f.activeUnits
    ensures BootableSet(g) == BootableSet(f)
  {
  }

  /** Unit "a" orders after "b" and after a name that no unit has. */
  ghost function GoneExample(): Forge {
    EMPTY.(arena := [Unit("a", Service(["b", "gone"], [], [], [], No, Simple, [], None), Dead, [], None),
                     Unit("b", Service([], [], [], [], No, Simple, [], None), Dead, [], None)],
           nameIndex := map["a" := 0, "b" := 1], activeUnits := {0, 1})
  }

  lemma GoneSound()
    ensures Sound(GoneExample())
  {
  }

  lemma GoneFacts()
    ensures var f := GoneExample();
            && BootableSet(f) == {0, 1} && f.arena[0].dependencies == []
            && OrdersMissing(f, 0) && !OrdersMissing(f, 1)
  {
    var f := GoneExample();
    assert Ordering(f.arena[1].kind) == [];
    assert "gone" in Ordering(f.arena[0].kind) && Lookup(f, "gone") == None;
  }

  lemma GoneList()
    ensures StoppedList(GoneExample(), 0) == [1]
  {
    var f := GoneExample();
    var names := Ordering(f.arena[0].kind);
    assert names == ["b", "gone"];
    assert names[1..] == ["gone"];
    assert Resolvable(f, names) == ["b"];
    assert ["b"][..0] == [];
    assert DependencyList(f, ["b"]) == [1];
  }

  /** An entry indexed for a bootable unit that had none before counts that unit below zero. */
  lemma FailedResolutionBreaks(f: Forge, arena: seq<Unit>, index: map<UnitKey, seq<UnitKey>>, lists: Graph,
                               done: set<UnitKey>, k: UnitKey, d: UnitKey)
    requires Sound(f) && StoppedAt(f, arena, lists, done, k) && TransposeOf(index, lists)
    requires f.arena[k].dependencies == [] && d in StoppedList(f, k)
    ensures var g := f.(arena := arena, reverse := index);
            !ReverseExact(g) && (k in BootableSet(f) && d in BootableSet(f) ==> !CountsDown(g))
  {
    FailedResolutionIndex(f, arena, index, lists, done, k);
    FailedResolutionCounts(f, arena, index, lists, done, k);
    assert d in multiset(StoppedList(f, k));
  }

  /**
    In the example every resolution fails at "a" and leaves an inexact index. Both units then have degree zero, and the
    index counts "a" as a dependent of "b", so the first wave would count it below zero.
   */
  lemma FailedResolutionInexact(arena: seq<Unit>, index: map<UnitKey, seq<UnitKey>>, lists: Graph,
                                done: set<UnitKey>, k: UnitKey)
    requires StoppedAt(GoneExample(), arena, lists, done, k) && OrdersMissing(GoneExample(), k)
    requires TransposeOf(index, lists)
    ensures Sound(GoneExample()) && OrdersMissing(GoneExample(), 0) && k == 0
    ensures var g := GoneExample().(arena := arena, reverse := index); !ReverseExact(g) && !CountsDown(g)
    ensures |arena| == 2 && arena[0].dependencies == arena[1].dependencies == [] && 0 in Dependents(index, 1)
  {
    GoneSound();
    GoneFacts();
    GoneList();
    assert k == 0;
    FailedResolutionBreaks(GoneExample(), arena, index, lists, done, 0, 1);
    GoneArena(arena, lists, done);
    assert multiset(Dependents(index, 1))[0] == Listed(lists, 0, 1);
    assert 1 in multiset(lists[0]);
  }

  lemma GoneArena(arena: seq<Unit>, lists: Graph, done: set<UnitKey>)
    requires StoppedAt(GoneExample(), arena, lists, done, 0)
    ensures |arena| == 2 && arena[0].dependencies == arena[1].dependencies == []
  {
    var f := GoneExample();
    assert PartialAt(f, arena, lists[0 := []], done, 0) && PartialAt(f, arena, lists[0 := []], done, 1);
    assert ResolvedList(f, 1) == [];
  }

  /** Activating one more unit later keeps the index exact exactly if that unit has no dependency list. */
  lemma LateActivationIndex(f: Forge, k: UnitKey)
    requires ReverseExact(f) && k !in f.activeUnits && k < |f.arena|
    ensures ReverseExact(f.(activeUnits := f.activeUnits + {k})) <==> f.arena[k].dependencies == []
  {
    var g, deps := f.(activeUnits := f.activeUnits + {k}), f.arena[k].dependencies;
    forall d: UnitKey, j: UnitKey
      ensures multiset(Dependents(g.reverse, d))[j] == Uses(f, j, d)
      ensures j != k ==> Uses(g, j, d) == Uses(f, j, d)
      ensures Uses(g, k, d) == multiset(deps)[d] && Uses(f, k, d) == 0
    {
      assert multiset(Dependents(f.reverse, d))[j] == Uses(f, j, d);
    }
    if deps != [] {
      assert deps[0] in multiset(deps);
      assert multiset(Dependents(g.reverse, deps[0]))[k] != Uses(g, k, deps[0]);
    }
  }

  /** The index then stays bounded in any case. */
  lemma LateActivationCounts(f: Forge, k: UnitKey)
    requires IndexBounded(f)
    ensures IndexBounded(f.(activeUnits := f.activeUnits + {k})) && CountsDown(f.(activeUnits := f.activeUnits + {k}))
  {
    var g := f.(activeUnits := f.activeUnits + {k});
    forall d: UnitKey, j: UnitKey ensures Indexed(g, d, j) <= Entries(g, j, d) {
      assert Indexed(f, d, j) <= Entries(f, j, d);
    }
  }

  // ---- The graph the index counts ---------------------------------------------------------------------------

  /** A list with those entries for bootable units that the index does not count replaced by a key of no unit. */
  ghost function CountedList(f: Forge, b: set<UnitKey>, k: UnitKey, deps: seq<UnitKey>): (r: seq<UnitKey>)
    ensures |r| == |deps|
  {
    if deps == [] then []
    else
      var n := |deps| - 1;
      CountedList(f, b, k, deps[..n]) + [CountedEntry(f, b, k, deps[..n], deps[n])]
  }

  ghost function CountedEntry(f: Forge, b: set<UnitKey>, k: UnitKey, front: seq<UnitKey>, d: UnitKey): UnitKey {
    if d in b && multiset(front)[d] >= Indexed(f, d, k) then |f.arena| else d
  }

  ghost function CountedGraph(f: Forge): Graph {
    var b := BootableSet(f);
    seq(|f.arena|, k requires 0 <= k < |f.arena| =>
      if k in b then CountedList(f, b, k, f.arena[k].dependencies) else f.arena[k].dependencies)
  }

  lemma LastTimes(s: seq<UnitKey>, last: UnitKey, d: UnitKey)
    ensures multiset(s + [last])[d] == multiset(s)[d] + if last == d then 1 else 0
  {
  }

  lemma {:induction false} CountedTimes(f: Forge, b: set<UnitKey>, k: UnitKey, deps: seq<UnitKey>, d: UnitKey)
    requires d in b && d < |f.arena| && Indexed(f, d, k) <= multiset(deps)[d]
    ensures multiset(CountedList(f, b, k, deps))[d] == Indexed(f, d, k)
  {
    if deps == [] {
    } else {
      var n := |deps| - 1;
      var front: seq<UnitKey> := deps[..n];
      assert deps == front + [deps[n]];
      LastTimes(front, deps[n], d);
      LastTimes(CountedList(f, b, k, front), CountedEntry(f, b, k, front, deps[n]), d);
      if multiset(front)[d] < Indexed(f, d, k) {
        assert deps[n] == d;
        KeptTimes(f, b, k, front, d);
      } else {
        CountedTimes(f, b, k, front, d);
      }
    }
  }

  lemma {:induction false} KeptTimes(f: Forge, b: set<UnitKey>, k: UnitKey, deps: seq<UnitKey>, d: UnitKey)
    requires d in b && d < |f.arena| && multiset(deps)[d] < Indexed(f, d, k)
    ensures multiset(CountedList(f, b, k, deps))[d] == multiset(deps)[d]
  {
    if deps == [] {
    } else {
      var n := |deps| - 1;
      var front: seq<UnitKey> := deps[..n];
      assert deps == front + [deps[n]];
      LastTimes(front, deps[n], d);
      LastTimes(CountedList(f, b, k, front), CountedEntry(f, b, k, front, deps[n]), d);
      KeptTimes(f, b, k, front, d);
    }
  }

  lemma {:induction false} AllCounted(f: Forge, b: set<UnitKey>, k: UnitKey, deps: seq<UnitKey>)
    requires forall d | d in b :: multiset(deps)[d] <= Indexed(f, d, k)
    ensures CountedList(f, b, k, deps) == deps
  {
    if deps == [] {
    } else {
      var n := |deps| - 1;
      assert deps == deps[..n] + [deps[n]];
      forall d | d in b ensures multiset(deps[..n])[d] <= Indexed(f, d, k) {
        LastTimes(deps[..n], deps[n], d);
      }
      AllCounted(f, b, k, deps[..n]);
      LastTimes(deps[..n], deps[n], deps[n]);
    }
  }

  lemma {:induction false} NotAllCounted(f: Forge, b: set<UnitKey>, k: UnitKey, deps: seq<UnitKey>, d: UnitKey)
    requires d in b && Indexed(f, d, k) < multiset(deps)[d]
    ensures |f.arena| in CountedList(f, b, k, deps)
  {
    var n := |deps| - 1;
    assert deps == deps[..n] + [deps[n]];
    if Indexed(f, d, k) < multiset(deps[..n])[d] {
      NotAllCounted(f, b, k, deps[..n], d);
    } else {
      LastTimes(deps[..n], deps[n], d);
    }
  }

  /** The index counts exactly the graph's entries for bootable units. */
  lemma CountedTranspose(f: Forge, d: UnitKey, k: UnitKey)
    requires CountsDown(f) && d in BootableSet(f) && k in BootableSet(f)
    ensures multiset(Dependents(f.reverse, d))[k] == multiset(CountedGraph(f)[k])[d]
  {
    CountedTimes(f, BootableSet(f), k, f.arena[k].dependencies, d);
  }

  /** If it misses no entry, that graph is the units' own lists. */
  lemma CountedSame(f: Forge)
    requires !EntryUncounted(f)
    ensures CountedGraph(f) == DependencyGraph(f)
  {
    forall k | k in BootableSet(f) ensures CountedGraph(f)[k] == f.arena[k].dependencies {
      forall d | d in BootableSet(f) ensures multiset(f.arena[k].dependencies)[d] <= Indexed(f, d, k) {
        assert !(Indexed(f, d, k) < Entries(f, k, d));
      }
      AllCounted(f, BootableSet(f), k, f.arena[k].dependencies);
    }
  }

  /** If it misses one, that unit is never released. */
  lemma UncountedBlocks(f: Forge)
    requires EntryUncounted(f)
    ensures exists s :: Blocked(CountedGraph(f), BootableSet(f), s)
  {
    var b := BootableSet(f);
    var d, k :| d in b && k in b && Indexed(f, d, k) < Entries(f, k, d);
    NotAllCounted(f, b, k, f.arena[k].dependencies, d);
    assert Waits(CountedGraph(f), b, {k}, k);
    assert Blocked(CountedGraph(f), b, {k});
  }
}
