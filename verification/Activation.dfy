/** Which units a target activates, and which of those are hard requirements. */
module Activation {
  import opened Units
  import opened Graphs
  import opened ForgeModel
  import Runlevels

  function AllKeys(f: Forge): set<UnitKey> {
    Below(|f.arena|)
  }

  function Below(n: nat): (keys: set<UnitKey>)
    ensures forall k: UnitKey :: k in keys <==> k < n
  {
    if n == 0 then {} else Below(n - 1) + {n - 1}
  }

  /** A unit the target reaches that requires an unresolvable name. */
  ghost predicate ReachableNeedsMissing(f: Forge, target: UnitKey, k: UnitKey) {
    k < |f.arena| && k in ReachSet(ClosureGraph(f), {target}) && NeedsMissing(f, k)
  }

  /** The error names the unit and the name it cannot do without. */
  ghost predicate NamesMissingNeed(f: Forge, k: UnitKey, e: ForgeError) {
    && k < |f.arena|
    && e.MissingUnit?
    && e.unit == f.arena[k].name
    && e.dependency in ClosureNeeds(f.arena[k].kind)
    && Lookup(f, e.dependency) == None
  }

  lemma ClosureWellFormed(f: Forge)
    requires Sound(f)
    ensures WellFormed(ClosureGraph(f))
  {
  }

  /** The units named, unresolvable names skipped. */
  method ResolveWanted(f: Forge, names: seq<string>) returns (keys: seq<UnitKey>)
    ensures keys == Resolved(f, names)
  {
    keys := [];
    for i := 0 to |names|
      invariant keys == Resolved(f, names[..i])
    {
      assert names[..i + 1][..i] == names[..i];
      match Lookup(f, names[i])
      case Some(d) => keys := keys + [d];
      case None =>
    }
    assert names[..|names|] == names;
  }

  /** The units named; the first unresolvable name is returned unless they are skipped. */
  method ResolveNeeded(f: Forge, names: seq<string>) returns (keys: seq<UnitKey>, missing: Option<string>)
    ensures missing.None? ==> keys == Resolved(f, names)
    ensures missing.Some? <==> !f.bootLenient && AnyMissing(f, names)
    ensures missing.Some? ==> missing.value in names && Lookup(f, missing.value) == None
  {
    hide AnyMissing, Resolved, Lookup;
    keys, missing := [], None;
    NothingResolved(f);
    NoneMissing(f, names);
    for i := 0 to |names|
      invariant keys == Resolved(f, names[..i])
      invariant !f.bootLenient ==> !AnyMissing(f, names[..i])
    {
      ResolvedNext(f, names, i);
      MissingNext(f, names, i);
      match Lookup(f, names[i])
      case Some(d) => keys := keys + [d];
      case None =>
        if !f.bootLenient {
          missing := Some(names[i]);
          return;
        }
    }
    assert names[..|names|] == names;
  }

  lemma NothingResolved(f: Forge)
    ensures Resolved(f, []) == []
  {
  }

  /** The units one unit pulls in, or a name it cannot do without. */
  method ClosureEdges(f: Forge, key: UnitKey) returns (next: seq<UnitKey>, missing: Option<string>)
    requires key < |f.arena|
    ensures missing.None? ==> next == ClosureGraph(f)[key]
    ensures missing.Some? <==> !f.bootLenient && NeedsMissing(f, key)
    ensures missing.Some? ==> missing.value in ClosureNeeds(f.arena[key].kind) && Lookup(f, missing.value) == None
  {
    var needed, wanted;
    needed, missing := ResolveNeeded(f, ClosureNeeds(f.arena[key].kind));
    wanted := ResolveWanted(f, ClosureWants(f.arena[key].kind));
    next := needed + wanted;
  }

  /** Breadth-first search over requires, wants, socket-service and device-service edges. */
  method TargetClosure(f: Forge, target: UnitKey) returns (r: Result<set<UnitKey>>)
    requires Sound(f) && target < |f.arena|
    ensures r.Ok? ==> r.value == ReachSet(ClosureGraph(f), {target})
    ensures r.Err? <==> !f.bootLenient && exists k :: ReachableNeedsMissing(f, target, k)
    ensures r.Err? ==> exists k :: ReachableNeedsMissing(f, target, k) && NamesMissingNeed(f, k, r.error)
  {
    hide Searching, ReachSet, NeedsMissing;
    ghost var g := ClosureGraph(f);
    ClosureWellFormed(f);
    var queue: seq<UnitKey> := [target];
    var seen: set<UnitKey> := {};
    SearchStarts(g, target);
    while queue != []
      invariant Searching(g, target, seen, queue)
      invariant !f.bootLenient ==> forall k | k in seen && k < |f.arena| :: !NeedsMissing(f, k)
      decreases AllKeys(f) - seen, |queue|
    {
      var key := queue[0];
      if key in seen {
        SearchSkips(g, target, seen, queue);
        queue := queue[1..];
      } else {
        QueuedReached(g, target, seen, queue);
        SearchExpands(g, target, seen, queue);
        var next, missing := ClosureEdges(f, key);
        if missing.Some? {
          r := Err(MissingUnit(f.arena[key].name, missing.value));
          assert ReachableNeedsMissing(f, target, key) && NamesMissingNeed(f, key, r.error);
          return;
        }
        assert key in AllKeys(f);
        seen := seen + {key};
        queue := queue[1..] + next;
      }
    }
    SearchEnds(g, target, seen);
    r := Ok(seen);
  }

  lemma QueuedReached(g: Graph, seed: UnitKey, seen: set<UnitKey>, queue: seq<UnitKey>)
    requires Searching(g, seed, seen, queue) && queue != []
    ensures queue[0] < |g| && queue[0] in ReachSet(g, {seed})
  {
  }

  lemma SearchStarts(g: Graph, seed: UnitKey)
    requires seed < |g|
    ensures Searching(g, seed, {}, [seed])
  {
    ReachesSelf(g, seed);
  }

  /** Every unit of s is reached from the seeds. */
  ghost predicate Within(g: Graph, seeds: set<UnitKey>, s: set<UnitKey>) {
    forall k | k in s :: k < |g| && Reached(g, seeds, k)
  }

  lemma WithinSeeds(g: Graph, seeds: set<UnitKey>)
    requires forall k | k in seeds :: k < |g|
    ensures Within(g, seeds, seeds)
  {
    forall k | k in seeds ensures Reached(g, seeds, k) {
      ReachesSelf(g, k);
    }
  }

  lemma WithinStep(g: Graph, seeds: set<UnitKey>, s: set<UnitKey>, b: UnitKey, c: UnitKey)
    requires Within(g, seeds, s) && b in s && c < |g| && c in g[b]
    ensures Within(g, seeds, s + {c})
  {
    var a :| a in seeds && Reaches(g, a, b);
    ReachesStep(g, a, b, c);
  }

  /** The successors of every unit in done are in s. */
  ghost predicate Expanded(g: Graph, done: set<UnitKey>, s: set<UnitKey>) {
    forall k, d | k in done && k < |g| && d in g[k] :: d in s
  }

  /** Adds the sockets that active services name until a whole pass adds none. */
  method ExpandSocketDependencies(f: Forge, start: set<UnitKey>) returns (active: set<UnitKey>)
    requires NamesLive(f) && forall k | k in start :: k < |f.arena|
    ensures active == ReachSet(SocketGraph(f), start)
  {
    ghost var g := SocketGraph(f);
    SocketGraphNamed(f);
    WithinSeeds(g, start);
    active := start;
    var changed := true;
    while changed
      invariant start <= active && Within(g, start, active)
      invariant !changed ==> Closed(g, active)
      decreases AllKeys(f) - active, changed
    {
      var keys := active;
      active := SocketPass(f, g, start, keys);
      changed := active != keys;
      if changed {
        Grown(f, keys, active);
      }
    }
    ReachSetUnique(g, start, active);
  }

  lemma Grown(f: Forge, a: set<UnitKey>, b: set<UnitKey>)
    requires a <= b && a != b && forall k | k in b :: k < |f.arena|
    ensures AllKeys(f) - b < AllKeys(f) - a
  {
    assert a + (b - a) == b;
    var k :| k in b - a;
    assert k in AllKeys(f) - a;
  }

  ghost predicate NamesLive(f: Forge) {
    forall n | n in f.nameIndex :: f.nameIndex[n] < |f.arena|
  }

  /** Some of the names is d's real name. */
  ghost predicate Named(f: Forge, names: seq<string>, d: UnitKey) {
    exists i :: 0 <= i < |names| && names[i] in f.nameIndex && f.nameIndex[names[i]] == d
  }

  lemma ResolvedNamed(f: Forge, names: seq<string>)
    ensures forall d :: d in ResolvedReal(f, names) <==> Named(f, names, d)
  {
    forall d ensures d in ResolvedReal(f, names) <==> Named(f, names, d) {
      if n :| n in names && LookupReal(f, n) == Some(d) {
        var i :| 0 <= i < |names| && names[i] == n;
      }
      if i :| 0 <= i < |names| && names[i] in f.nameIndex && f.nameIndex[names[i]] == d {
        assert names[i] in names && LookupReal(f, names[i]) == Some(d);
      }
    }
  }

  /** g is the graph whose edges from k are the units that `names` gives for k's kind. */
  ghost predicate EdgesNamed(f: Forge, g: Graph, k: UnitKey, names: seq<string>)
    requires k < |g|
  {
    forall d :: d in g[k] <==> Named(f, names, d)
  }

  ghost predicate IsSocketGraph(f: Forge, g: Graph) {
    |g| == |f.arena| && forall k | 0 <= k < |g| :: EdgesNamed(f, g, k, SocketNames(f.arena[k].kind))
  }

  lemma SocketGraphNamed(f: Forge)
    ensures IsSocketGraph(f, SocketGraph(f))
  {
    forall k | 0 <= k < |f.arena| ensures EdgesNamed(f, SocketGraph(f), k, SocketNames(f.arena[k].kind)) {
      ResolvedNamed(f, SocketNames(f.arena[k].kind));
    }
  }

  lemma RequireGraphNamed(f: Forge)
    ensures IsRequireGraph(f, RequireGraph(f))
  {
    forall k | 0 <= k < |f.arena| ensures EdgesNamed(f, RequireGraph(f), k, ClosureNeeds(f.arena[k].kind)) {
      ResolvedNamed(f, ClosureNeeds(f.arena[k].kind));
    }
  }

  /** One pass over the units active at its start, in any order. */
  method SocketPass(f: Forge, ghost g: Graph, ghost start: set<UnitKey>, keys: set<UnitKey>)
    returns (active: set<UnitKey>)
    requires NamesLive(f) && IsSocketGraph(f, g) && Within(g, start, keys)
    ensures keys <= active && Within(g, start, active)
    ensures Expanded(g, keys, active)
  {
    active := keys;
    var rest := keys;
    while rest != {}
      invariant rest <= keys <= active && Within(g, start, active)
      invariant Expanded(g, keys - rest, active)
      decreases rest
    {
      var key :| key in rest;
      rest := rest - {key};
      active := AddSockets(f, g, start, key, active);
    }
  }

  /** Activates the sockets one active unit names. */
  method AddSockets(f: Forge, ghost g: Graph, ghost start: set<UnitKey>, key: UnitKey, active: set<UnitKey>)
    returns (more: set<UnitKey>)
    requires NamesLive(f) && IsSocketGraph(f, g) && Within(g, start, active) && key in active
    ensures active <= more && Within(g, start, more)
    ensures Expanded(g, {key}, more)
  {
    var names := SocketNames(f.arena[key].kind);
    more := active;
    for i := 0 to |names|
      invariant active <= more && Within(g, start, more)
      invariant forall j | 0 <= j < i && names[j] in f.nameIndex :: f.nameIndex[names[j]] in more
    {
      if names[i] in f.nameIndex {
        assert EdgesNamed(f, g, key, names) && Named(f, names, f.nameIndex[names[i]]);
        WithinStep(g, start, more, key, f.nameIndex[names[i]]);
        more := more + {f.nameIndex[names[i]]};
      }
    }
    assert EdgesNamed(f, g, key, names);
  }

  /** The units hard requirements reach from the active ones, visited in any order. */
  method CollectRequiredUnits(f: Forge, active: set<UnitKey>) returns (required: set<UnitKey>)
    requires NamesLive(f) && forall k | k in active :: k < |f.arena|
    ensures required == ReachSet(RequireGraph(f), active)
  {
    ghost var g := RequireGraph(f);
    RequireGraphNamed(f);
    required := {};
    var rest := active;
    while rest != {}
      invariant rest <= active && active - rest <= required
      invariant Closed(g, required) && Within(g, active, required)
      decreases rest
    {
      var key :| key in rest;
      rest := rest - {key};
      ghost var before := required;
      required := CollectRequiresFrom(f, g, key, required);
      forall k | k in required ensures k < |g| && Reached(g, active, k) {
        if k !in before {
          assert k in required - before;
          assert Reaches(g, key, k);
        }
      }
    }
    ReachSetUnique(g, active, required);
  }

  /** What a search from key adds to the units already seen: reached from key, and expanded into all. */
  ghost predicate Added(g: Graph, key: UnitKey, seen: set<UnitKey>, all: set<UnitKey>) {
    && seen <= all
    && (forall k | k in all - seen :: k < |g| && Reaches(g, key, k))
  }

  ghost predicate IsRequireGraph(f: Forge, g: Graph) {
    |g| == |f.arena| && forall k | 0 <= k < |g| :: EdgesNamed(f, g, k, ClosureNeeds(f.arena[k].kind))
  }

  /** Depth-first search that shares its seen set with the searches before it. */
  method CollectRequiresFrom(f: Forge, ghost g: Graph, key: UnitKey, seen: set<UnitKey>) returns (all: set<UnitKey>)
    requires NamesLive(f) && key < |f.arena| && IsRequireGraph(f, g)
    ensures key in all && Added(g, key, seen, all)
    ensures Expanded(g, all - seen, all)
    decreases AllKeys(f) - seen
  {
    if key in seen {
      return seen;
    }
    all := seen + {key};
    ReachesSelf(g, key);
    var names := ClosureNeeds(f.arena[key].kind);
    assert key in AllKeys(f) - seen;
    for i := 0 to |names|
      invariant key in all && Added(g, key, seen, all)
      invariant Expanded(g, all - seen - {key}, all)
      invariant forall j | 0 <= j < i && names[j] in f.nameIndex :: f.nameIndex[names[j]] in all
    {
      if names[i] in f.nameIndex {
        var dep := f.nameIndex[names[i]];
        assert EdgesNamed(f, g, key, names) && Named(f, names, dep);
        ghost var before := all;
        all := CollectRequiresFrom(f, g, dep, all);
        AddedFurther(g, key, dep, seen, before, all);
      }
    }
    assert EdgesNamed(f, g, key, names);
    ExpandedToo(g, all - seen - {key}, key, all);
    assert all - seen - {key} + {key} == all - seen;
  }

  lemma ExpandedToo(g: Graph, done: set<UnitKey>, key: UnitKey, s: set<UnitKey>)
    requires Expanded(g, done, s) && key < |g| && forall d | d in g[key] :: d in s
    ensures Expanded(g, done + {key}, s)
  {
  }

  lemma AddedFurther(g: Graph, key: UnitKey, dep: UnitKey, seen: set<UnitKey>, mid: set<UnitKey>, all: set<UnitKey>)
    requires key < |g| && dep in g[key] && Added(g, key, seen, mid) && Added(g, dep, mid, all)
    requires Expanded(g, mid - seen - {key}, mid) && Expanded(g, all - mid, all)
    ensures Added(g, key, seen, all) && Expanded(g, all - seen - {key}, all)
  {
    forall k | k in all - seen ensures k < |g| && Reaches(g, key, k) {
      if k in mid {
        assert k in mid - seen;
      } else {
        assert k in all - mid;
        ReachesFront(g, key, dep, k);
      }
    }
  }

  // ---- The runlevel filter ----------------------------------------------------------------------------------

  /** The target inherits a level at which the service is marked, and may run at the target's level. */
  ghost predicate MarkedForTarget(f: Forge, db: Runlevels.Markers, k: UnitKey)
    requires k < |f.arena| && f.arena[k].kind.Service?
  {
    var chain := Runlevels.Ancestors(Runlevels.Lower(f.activeTarget));
    && (exists m :: m in chain && db.Marked(m, f.arena[k].name))
    && (f.arena[k].kind.runlevels == [] || exists l :: l in f.arena[k].kind.runlevels && l in chain)
  }

  /**
    What the filter drops: in a seeded database exactly the services that no level inherited by the target marks, or
    that do not declare such a level; never another kind of unit, and nothing at all without a seed.
   */
  lemma FilterExact(f: Forge, db: Runlevels.Markers, units: set<UnitKey>, k: UnitKey)
    requires Runlevels.OnDisk(db) && forall j | j in units :: j < |f.arena|
    requires k in units
    ensures k in Filtered(f, db, units) <==>
            !db.seeded || !f.arena[k].kind.Service? || MarkedForTarget(f, db, k)
  {
    Runlevels.TargetInheritsAsNamed(f.activeTarget);
  }

  /** A target whose level inherits another's keeps at least what the other keeps, in any database. */
  lemma FilterInherits(f: Forge, g: Forge, db: Runlevels.Markers, units: set<UnitKey>)
    requires g == f.(activeTarget := g.activeTarget) && forall k | k in units :: k < |f.arena|
    requires Runlevels.TargetToRunlevel(f.activeTarget) in
             Runlevels.Ancestors(Runlevels.TargetToRunlevel(g.activeTarget))
    ensures Filtered(f, db, units) <= Filtered(g, db, units)
  {
    var high, low := Runlevels.TargetToRunlevel(g.activeTarget), Runlevels.TargetToRunlevel(f.activeTarget);
    forall k | k in Filtered(f, db, units) ensures k in Filtered(g, db, units) {
      var u := f.arena[k];
      if u.kind.Service? && db.seeded {
        Runlevels.InheritanceMonotone(db, u.name, high, low, u.kind.runlevels);
      }
    }
  }
}
