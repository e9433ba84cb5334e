/** Dependency resolution: forward lists together with their reverse index. */
module Resolution {
  import opened Units
  import opened Graphs
  import opened ForgeModel

  /** The index counts, for every pair of units, how often the second lists the first. */
  ghost predicate TransposeOf(reverse: map<UnitKey, seq<UnitKey>>, lists: Graph) {
    forall d: UnitKey, k: UnitKey :: multiset(Dependents(reverse, d))[k] == Listed(lists, k, d)
  }

  ghost function Listed(lists: Graph, k: UnitKey, d: UnitKey): nat {
    if k < |lists| then multiset(lists[k])[d] else 0
  }

  function Push(reverse: map<UnitKey, seq<UnitKey>>, d: UnitKey, k: UnitKey): map<UnitKey, seq<UnitKey>> {
    reverse[d := (if d in reverse then reverse[d] else []) + [k]]
  }

  /** One more entry in a forward list, and one in the index. */
  lemma TransposePush(reverse: map<UnitKey, seq<UnitKey>>, lists: Graph, d: UnitKey, k: UnitKey)
    requires TransposeOf(reverse, lists) && k < |lists|
    ensures TransposeOf(Push(reverse, d, k), lists[k := lists[k] + [d]])
  {
    var r, l := Push(reverse, d, k), lists[k := lists[k] + [d]];
    forall e: UnitKey, j: UnitKey ensures multiset(Dependents(r, e))[j] == Listed(l, j, e) {
      assert multiset(Dependents(reverse, e))[j] == Listed(lists, j, e);
      if e == d {
        assert Dependents(r, e) == Dependents(reverse, e) + [k];
      }
    }
  }

  lemma PushEntry(reverse: map<UnitKey, seq<UnitKey>>, lists: Graph, k: UnitKey, deps: seq<UnitKey>, d: UnitKey)
    requires k < |lists| && TransposeOf(reverse, lists[k := deps])
    ensures TransposeOf(Push(reverse, d, k), lists[k := deps + [d]])
  {
    TransposePush(reverse, lists[k := deps], d, k);
    assert lists[k := deps][k := deps + [d]] == lists[k := deps + [d]];
  }

  lemma TransposeLive(reverse: map<UnitKey, seq<UnitKey>>, lists: Graph, d: UnitKey)
    requires TransposeOf(reverse, lists) && d in reverse
    ensures forall i | 0 <= i < |reverse[d]| :: reverse[d][i] < |lists|
  {
    forall i | 0 <= i < |reverse[d]| ensures reverse[d][i] < |lists| {
      assert reverse[d][i] in multiset(Dependents(reverse, d));
      assert Listed(lists, reverse[d][i], d) > 0;
    }
  }

  /** The names a unit orders after: its `after` list, then each hard requirement not yet listed. */
  method OrderingOf(kind: Kind) returns (ordering: seq<string>)
    ensures ordering == Ordering(kind)
  {
    ordering := After(kind);
    if kind.Service? {
      var needs := kind.needs;
      for i := 0 to |needs|
        invariant ordering == AppendNew(kind.after, needs[..i])
      {
        assert needs[..i + 1][..i] == needs[..i];
        if needs[i] !in ordering {
          ordering := ordering + [needs[i]];
        }
      }
      assert needs[..|needs|] == needs;
    }
  }

  /** The names before the first one that nothing answers to. */
  function Resolvable(f: Forge, names: seq<string>): (front: seq<string>)
    ensures front <= names
    ensures forall i | 0 <= i < |front| :: Lookup(f, names[i]).Some?
    ensures |front| < |names| ==> Lookup(f, names[|front|]) == None
  {
    if names == [] || Lookup(f, names[0]).None? then [] else [names[0]] + Resolvable(f, names[1..])
  }

  lemma StopsBefore(f: Forge, names: seq<string>, i: nat)
    requires i < |names| && Lookup(f, names[i]) == None && !AnyMissing(f, names[..i])
    ensures Resolvable(f, names) == names[..i] && Resolvable(f, names) + [names[i]] <= names
    ensures AnyMissing(f, names)
  {
    forall j | 0 <= j < i ensures Lookup(f, names[j]).Some? {
      assert names[..i][j] == names[j];
    }
  }

  /** Resolves one unit's names, filling its list and the index together, up to the first missing name. */
  method ResolveUnit(f: Forge, key: UnitKey, ordering: seq<string>, reverse: map<UnitKey, seq<UnitKey>>,
        ghost lists: Graph)
    returns (deps: seq<UnitKey>, index: map<UnitKey, seq<UnitKey>>, missing: Option<string>)
    requires TransposeOf(reverse, lists) && key < |lists| && lists[key] == []
    ensures TransposeOf(index, lists[key := deps])
    ensures missing.None? ==> deps == DependencyList(f, ordering)
    ensures missing.Some? <==> !f.bootLenient && AnyMissing(f, ordering)
    ensures missing.Some? ==> Resolvable(f, ordering) + [missing.value] <= ordering
    ensures missing.Some? ==> deps == DependencyList(f, Resolvable(f, ordering))
  {
    hide TransposeOf, AnyMissing, DependencyList, Resolvable, Lookup, Orders, Push;
    deps, index, missing := [], reverse, None;
    assert lists[key := []] == lists;
    NothingListed(f);
    NoneMissing(f, ordering);
    for i := 0 to |ordering|
      invariant deps == DependencyList(f, ordering[..i])
      invariant TransposeOf(index, lists[key := deps])
      invariant !f.bootLenient ==> !AnyMissing(f, ordering[..i])
    {
      ListedNext(f, ordering, i);
      MissingNext(f, ordering, i);
      match Lookup(f, ordering[i])
      case Some(d) =>
        if Orders(f, d) {
          PushEntry(index, lists, key, deps, d);
          deps := deps + [d];
          index := Push(index, d, key);
        }
      case None =>
        if !f.bootLenient {
          StopsBefore(f, ordering, i);
          missing := Some(ordering[i]);
          return;
        }
    }
    assert ordering[..|ordering|] == ordering;
  }

  /** What one more name adds to the list. */
  lemma ListedNext(f: Forge, names: seq<string>, i: nat)
    requires i < |names|
    ensures DependencyList(f, names[..i + 1]) == DependencyList(f, names[..i]) +
              match Lookup(f, names[i])
              case Some(d) => (if Orders(f, d) then [d] else [])
              case None => []
  {
    assert names[..i + 1][..i] == names[..i];
  }

  lemma NothingListed(f: Forge)
    ensures DependencyList(f, []) == []
  {
  }

  /** The list resolution leaves at an active unit. */
  function ResolvedList(f: Forge, k: UnitKey): seq<UnitKey>
    requires k < |f.arena|
  {
    DependencyList(f, Ordering(f.arena[k].kind))
  }

  /** The entries indexed for a unit at which resolution stops. */
  function StoppedList(f: Forge, k: UnitKey): seq<UnitKey>
    requires k < |f.arena|
  {
    DependencyList(f, Resolvable(f, Ordering(f.arena[k].kind)))
  }

  /** Forward lists so far: the resolved units' lists, all others empty. */
  ghost predicate Partial(f: Forge, arena: seq<Unit>, lists: Graph, done: set<UnitKey>) {
    && |arena| == |lists| == |f.arena|
    && forall k | 0 <= k < |f.arena| :: PartialAt(f, arena, lists, done, k)
  }

  ghost predicate PartialAt(f: Forge, arena: seq<Unit>, lists: Graph, done: set<UnitKey>, k: UnitKey)
    requires k < |arena| == |lists| == |f.arena|
  {
    && lists[k] == (if k in done then ResolvedList(f, k) else [])
    && arena[k] == f.arena[k].(dependencies := if k in done then ResolvedList(f, k) else f.arena[k].dependencies)
  }

  /** Some active unit orders after a name that nothing answers to. */
  ghost predicate ActiveOrdersMissing(f: Forge) {
    exists k :: k in f.activeUnits && k < |f.arena| && OrdersMissing(f, k)
  }

  /** Resolves every active unit, in any order. On an error what was done so far stays. */
  method ResolveAll(f: Forge)
    returns (arena: seq<Unit>, reverse: map<UnitKey, seq<UnitKey>>, r: Result<()>, ghost lists: Graph)
    requires forall k | k in f.activeUnits :: k < |f.arena|
    requires TargetsFree(f)
    ensures |arena| == |lists| == |f.arena| && TransposeOf(reverse, lists)
    ensures r.Ok? ==> Partial(f, arena, lists, f.activeUnits)
    ensures r.Err? <==> !f.bootLenient && ActiveOrdersMissing(f)
    ensures r.Err? ==> exists k, done :: StoppedAt(f, arena, lists, done, k) && NamesMissingOrder(f, k, r.error)
  {
    reverse, arena := map[], f.arena;
    lists := seq(|f.arena|, k => []);
    ghost var done: set<UnitKey> := {};
    var rest := f.activeUnits;
    while rest != {}
      invariant rest <= f.activeUnits && done == f.activeUnits - rest
      invariant TransposeOf(reverse, lists)
      invariant Partial(f, arena, lists, done)
      invariant !f.bootLenient ==> forall k | k in done :: !OrdersMissing(f, k)
      decreases rest
    {
      var key :| key in rest;
      rest := rest - {key};
      assert PartialAt(f, arena, lists, done, key);
      if f.arena[key].kind.Target? {
        PartialStep(f, arena, lists, done, key, []);
        assert arena[key := arena[key].(dependencies := [])] == arena && lists[key := []] == lists;
        done := done + {key};
        continue;
      }
      var ordering := OrderingOf(f.arena[key].kind);
      var deps, index, missing := ResolveUnit(f, key, ordering, reverse, lists);
      if missing.Some? {
        r := Err(MissingUnit(f.arena[key].name, missing.value));
        assert lists[key := deps][key := []] == lists;
        lists := lists[key := deps];
        reverse := index;
        assert OrdersMissing(f, key) && StoppedAt(f, arena, lists, done, key) && NamesMissingOrder(f, key, r.error);
        return;
      }
      PartialStep(f, arena, lists, done, key, deps);
      reverse := index;
      lists := lists[key := deps];
      arena := arena[key := arena[key].(dependencies := deps)];
      done := done + {key};
    }
    assert done == f.activeUnits;
    r := Ok(());
  }

  /** Where an error leaves resolution: some units have their lists, and the next is indexed up to a missing name. */
  ghost predicate StoppedAt(f: Forge, arena: seq<Unit>, lists: Graph, done: set<UnitKey>, k: UnitKey) {
    && k in f.activeUnits && k < |f.arena| == |lists| && done < f.activeUnits && k !in done
    && lists[k] == StoppedList(f, k)
    && Partial(f, arena, lists[k := []], done)
  }

  /** The error names unit k and the first of its names that nothing answers to. */
  ghost predicate NamesMissingOrder(f: Forge, k: UnitKey, e: ForgeError) {
    && k < |f.arena|
    && e.MissingUnit?
    && e.unit == f.arena[k].name
    && Resolvable(f, Ordering(f.arena[k].kind)) + [e.dependency] <= Ordering(f.arena[k].kind)
    && Lookup(f, e.dependency) == None
  }

  lemma PartialStep(f: Forge, arena: seq<Unit>, lists: Graph, done: set<UnitKey>, key: UnitKey, deps: seq<UnitKey>)
    requires Partial(f, arena, lists, done) && key < |f.arena| && key !in done && deps == ResolvedList(f, key)
    ensures Partial(f, arena[key := arena[key].(dependencies := deps)], lists[key := deps], done + {key})
  {
    var a, l := arena[key := arena[key].(dependencies := deps)], lists[key := deps];
    forall k | 0 <= k < |f.arena| ensures PartialAt(f, a, l, done + {key}, k) {
      assert PartialAt(f, arena, lists, done, k);
    }
  }
}
