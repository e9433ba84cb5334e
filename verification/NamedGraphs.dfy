/** The graphs that the scheduler follows, read off the names in the units' own fields. */
module NamedGraphs {
  import opened Units
  import opened Graphs
  import opened ForgeModel
  import opened Activation

  /** Found by real name, or else by a virtual one. */
  predicate Answers(f: Forge, name: string, k: UnitKey) {
    if name in f.nameIndex then f.nameIndex[name] == k
    else name in f.providesIndex && f.providesIndex[name] == k
  }

  predicate Unanswered(f: Forge, name: string) {
    name !in f.nameIndex && name !in f.providesIndex
  }

  lemma AnswersExact(f: Forge, name: string, k: UnitKey)
    requires Sound(f)
    ensures Answers(f, name, k) <==> Lookup(f, name) == Some(k)
    ensures Answers(f, name, k) ==> k < |f.arena|
  {
  }

  // ---- Activation -------------------------------------------------------------------------------------------

  /** A unit of that kind cannot do without the name: a target or service requires it, or a socket activates it. */
  predicate Needs(kind: Kind, n: string) {
    || ((kind.Target? || kind.Service?) && n in kind.needs)
    || (kind.Socket? && kind.activates == Some(n))
  }

  /** A unit of that kind activates the name: besides what it needs, what it wants, or a device's service. */
  predicate Pulls(kind: Kind, n: string) {
    || Needs(kind, n)
    || ((kind.Target? || kind.Service?) && n in kind.wants)
    || (kind.Device? && n == kind.service)
  }

  /** Every unit that a unit of s pulls in by real or virtual name is in s. */
  ghost predicate PullClosed(f: Forge, s: set<UnitKey>) {
    forall k, n, d: UnitKey | k in s && k < |f.arena| && Pulls(f.arena[k].kind, n) && Answers(f, n, d) :: d in s
  }

  /** Every socket that a service of s names is in s; only real names count. */
  ghost predicate SocketClosed(f: Forge, s: set<UnitKey>) {
    forall k, n | k in s && k < |f.arena| && f.arena[k].kind.Service? && n in f.arena[k].kind.sockets
      && n in f.nameIndex :: f.nameIndex[n] in s
  }

  /** Every unit that a unit of s needs is in s; only real names count. */
  ghost predicate NeedClosed(f: Forge, s: set<UnitKey>) {
    forall k, n | k in s && k < |f.arena| && Needs(f.arena[k].kind, n) && n in f.nameIndex :: f.nameIndex[n] in s
  }

  ghost predicate LeastPulled(f: Forge, seeds: set<UnitKey>, s: set<UnitKey>) {
    seeds <= s && PullClosed(f, s) && forall t | seeds <= t && PullClosed(f, t) :: s <= t
  }

  ghost predicate LeastSocketed(f: Forge, seeds: set<UnitKey>, s: set<UnitKey>) {
    seeds <= s && SocketClosed(f, s) && forall t | seeds <= t && SocketClosed(f, t) :: s <= t
  }

  ghost predicate LeastNeeded(f: Forge, seeds: set<UnitKey>, s: set<UnitKey>) {
    seeds <= s && NeedClosed(f, s) && forall t | seeds <= t && NeedClosed(f, t) :: s <= t
  }

  lemma NeedsExact(kind: Kind, n: string)
    ensures Needs(kind, n) <==> n in ClosureNeeds(kind)
    ensures Pulls(kind, n) <==> n in ClosureNeeds(kind) || n in ClosureWants(kind)
  {
  }

  lemma ClosureEdge(f: Forge, k: UnitKey, d: UnitKey)
    requires Sound(f) && k < |f.arena|
    ensures d in ClosureGraph(f)[k] <==> exists n :: Pulls(f.arena[k].kind, n) && Answers(f, n, d)
  {
    forall n ensures Answers(f, n, d) <==> Lookup(f, n) == Some(d) { AnswersExact(f, n, d); }
    forall n ensures Pulls(f.arena[k].kind, n)
                     <==> n in ClosureNeeds(f.arena[k].kind) || n in ClosureWants(f.arena[k].kind)
    {
      NeedsExact(f.arena[k].kind, n);
    }
    hide Sound, Answers, Pulls, Lookup, ClosureNeeds, ClosureWants;
  }

  lemma ClosureClosed(f: Forge, s: set<UnitKey>)
    requires Sound(f)
    ensures Closed(ClosureGraph(f), s) <==> PullClosed(f, s)
  {
    forall k: UnitKey, d: UnitKey | k < |f.arena|
      ensures d in ClosureGraph(f)[k] <==> exists n :: Pulls(f.arena[k].kind, n) && Answers(f, n, d)
    {
      ClosureEdge(f, k, d);
    }
    hide Sound, Answers, Pulls;
    var g := ClosureGraph(f);
    assert |g| == |f.arena|;
    hide ClosureGraph;
  }

  lemma SocketClosedExact(f: Forge, s: set<UnitKey>)
    ensures Closed(SocketGraph(f), s) <==> SocketClosed(f, s)
  {
    forall k: UnitKey, d: UnitKey | k < |f.arena|
      ensures d in SocketGraph(f)[k] <==>
              f.arena[k].kind.Service? && exists n :: n in f.arena[k].kind.sockets && LookupReal(f, n) == Some(d) {}
    var g := SocketGraph(f);
    assert |g| == |f.arena|;
    hide SocketGraph;
    if Closed(g, s) {
      forall k, n | k in s && k < |f.arena| && f.arena[k].kind.Service? && n in f.arena[k].kind.sockets
                    && n in f.nameIndex ensures f.nameIndex[n] in s
      {
        assert LookupReal(f, n) == Some(f.nameIndex[n]);
        assert f.nameIndex[n] in g[k];
      }
    }
  }

  lemma NeedClosedExact(f: Forge, s: set<UnitKey>)
    ensures Closed(RequireGraph(f), s) <==> NeedClosed(f, s)
  {
    forall k: UnitKey, d: UnitKey | k < |f.arena|
      ensures d in RequireGraph(f)[k] <==> exists n :: Needs(f.arena[k].kind, n) && LookupReal(f, n) == Some(d)
    {
      forall n ensures Needs(f.arena[k].kind, n) <==> n in ClosureNeeds(f.arena[k].kind) {
        NeedsExact(f.arena[k].kind, n);
      }
    }
    var g := RequireGraph(f);
    assert |g| == |f.arena|;
    hide RequireGraph, Needs;
    if Closed(g, s) {
      forall k, n | k in s && k < |f.arena| && Needs(f.arena[k].kind, n) && n in f.nameIndex
        ensures f.nameIndex[n] in s
      {
        assert LookupReal(f, n) == Some(f.nameIndex[n]);
        assert f.nameIndex[n] in g[k];
      }
    }
  }

  lemma PulledLeast(f: Forge, seeds: set<UnitKey>)
    requires Sound(f) && forall k | k in seeds :: k < |f.arena|
    ensures LeastPulled(f, seeds, ReachSet(ClosureGraph(f), seeds))
  {
    var g := ClosureGraph(f);
    ClosureWellFormed(f);
    ReachSetLeast(g, seeds, {});
    ClosureClosed(f, ReachSet(g, seeds));
    assert |g| == |f.arena|;
    hide Sound, PullClosed, ReachSet, ClosureGraph;
    forall t | seeds <= t && PullClosed(f, t) ensures ReachSet(g, seeds) <= t {
      ClosureClosed(f, t);
      ReachSetLeast(g, seeds, t);
    }
  }

  lemma RealLive(f: Forge)
    requires Sound(f)
    ensures WellFormed(SocketGraph(f)) && WellFormed(RequireGraph(f))
  {
  }

  lemma SocketedLeast(f: Forge, seeds: set<UnitKey>)
    requires Sound(f) && forall k | k in seeds :: k < |f.arena|
    ensures LeastSocketed(f, seeds, ReachSet(SocketGraph(f), seeds))
  {
    var g := SocketGraph(f);
    RealLive(f);
    ReachSetLeast(g, seeds, {});
    SocketClosedExact(f, ReachSet(g, seeds));
    assert |g| == |f.arena|;
    hide Sound, SocketClosed, ReachSet, SocketGraph;
    forall t | seeds <= t && SocketClosed(f, t) ensures ReachSet(g, seeds) <= t {
      SocketClosedExact(f, t);
      ReachSetLeast(g, seeds, t);
    }
  }

  lemma NeededLeast(f: Forge, seeds: set<UnitKey>)
    requires Sound(f) && forall k | k in seeds :: k < |f.arena|
    ensures LeastNeeded(f, seeds, ReachSet(RequireGraph(f), seeds))
  {
    var g := RequireGraph(f);
    RealLive(f);
    ReachSetLeast(g, seeds, {});
    NeedClosedExact(f, ReachSet(g, seeds));
    assert |g| == |f.arena|;
    hide Sound, NeedClosed, ReachSet, RequireGraph;
    forall t | seeds <= t && NeedClosed(f, t) ensures ReachSet(g, seeds) <= t {
      NeedClosedExact(f, t);
      ReachSetLeast(g, seeds, t);
    }
  }

  /**
    What a target activates before the runlevel filter: first the least set with the target that holds whatever its
    units pull in by name, and then the least set with these that holds the sockets its services name.
   */
  lemma ActivatedExact(f: Forge, target: UnitKey)
    requires Sound(f) && target < |f.arena|
    ensures exists reached :: LeastPulled(f, {target}, reached) && LeastSocketed(f, reached, Activated(f, target))
  {
    var reached := ReachSet(ClosureGraph(f), {target});
    PulledLeast(f, {target});
    SocketedLeast(f, reached);
    hide LeastPulled, LeastSocketed;
  }

  /** A unit of the least pulled set needs a name that nothing answers to. */
  ghost predicate PullsUnanswered(f: Forge, target: UnitKey) {
    exists reached, k, n :: LeastPulled(f, {target}, reached) && NeedsUnanswered(f, reached, k, n)
  }

  ghost predicate NeedsUnanswered(f: Forge, reached: set<UnitKey>, k: UnitKey, n: string) {
    k in reached && k < |f.arena| && Needs(f.arena[k].kind, n) && Unanswered(f, n)
  }

  lemma NeedsMissingExact(f: Forge, k: UnitKey)
    requires k < |f.arena|
    ensures NeedsMissing(f, k) <==> exists n :: Needs(f.arena[k].kind, n) && Unanswered(f, n)
  {
    var names := ClosureNeeds(f.arena[k].kind);
    forall n ensures Needs(f.arena[k].kind, n) <==> n in names { NeedsExact(f.arena[k].kind, n); }
    hide Needs, ClosureNeeds;
    if i :| 0 <= i < |names| && Lookup(f, names[i]) == None {
      assert Needs(f.arena[k].kind, names[i]) && Unanswered(f, names[i]);
    }
    if n :| Needs(f.arena[k].kind, n) && Unanswered(f, n) {
      var i :| 0 <= i < |names| && names[i] == n;
      assert Lookup(f, names[i]) == None;
    }
  }

  /** The closure meets an unresolvable requirement exactly if a unit it reaches needs a name in neither index. */
  lemma UnansweredExact(f: Forge, target: UnitKey)
    requires Sound(f) && target < |f.arena|
    ensures (exists k :: ReachableNeedsMissing(f, target, k)) <==> PullsUnanswered(f, target)
  {
    var reached := ReachSet(ClosureGraph(f), {target});
    PulledLeast(f, {target});
    hide ReachSet, ClosureGraph, Sound, LeastPulled, NeedsMissing;
    if k: UnitKey :| ReachableNeedsMissing(f, target, k) {
      NeedsMissingExact(f, k);
      var n :| Needs(f.arena[k].kind, n) && Unanswered(f, n);
      assert NeedsUnanswered(f, reached, k, n);
    }
    if s, k, n :| LeastPulled(f, {target}, s) && NeedsUnanswered(f, s, k, n) {
      LeastOne(f, {target}, s, reached);
      NeedsMissingExact(f, k);
      assert ReachableNeedsMissing(f, target, k);
    }
  }

  lemma LeastOne(f: Forge, seeds: set<UnitKey>, s: set<UnitKey>, t: set<UnitKey>)
    requires LeastPulled(f, seeds, s) && LeastPulled(f, seeds, t)
    ensures s == t
  {
    assert s <= t && t <= s;
  }

  // ---- Ordering ---------------------------------------------------------------------------------------------

  /** A unit of that kind starts after whatever answers to the name; targets order nothing. */
  predicate StartsAfter(kind: Kind, n: string) {
    !kind.Target? && (n in kind.after || (kind.Service? && n in kind.needs))
  }

  /** Positions in a list of names to which unit d answers. */
  ghost function Places(f: Forge, names: seq<string>, d: UnitKey): set<nat> {
    set i: nat | i < |names| && Answers(f, names[i], d)
  }

  /** Names of `more`, other than those of `base`, to which unit d answers. */
  ghost function Further(f: Forge, base: seq<string>, more: seq<string>, d: UnitKey): set<string> {
    set n | n in more && n !in base && Answers(f, n, d)
  }

  lemma PlacesNext(f: Forge, names: seq<string>, n: string, d: UnitKey)
    ensures |Places(f, names + [n], d)| == |Places(f, names, d)| + (if Answers(f, n, d) then 1 else 0)
  {
    hide Answers;
    var more := Places(f, names + [n], d);
    assert more == Places(f, names, d) + (if Answers(f, n, d) then {|names|} else {});
    assert |names| !in Places(f, names, d);
  }

  lemma {:induction false} AppendedPlaces(f: Forge, base: seq<string>, more: seq<string>, d: UnitKey)
    ensures |Places(f, AppendNew(base, more), d)| == |Places(f, base, d)| + |Further(f, base, more, d)|
  {
    hide Answers;
    if more == [] {
    } else {
      var m := |more| - 1;
      var n, front := more[m], AppendNew(base, more[..m]);
      AppendedPlaces(f, base, more[..m], d);
      assert more == more[..m] + [n];
      assert Further(f, base, more, d)
          == Further(f, base, more[..m], d) + (if n !in base && Answers(f, n, d) then {n} else {});
      PlacesNext(f, front, n, d);
    }
  }

  lemma {:induction false} ListedPlaces(f: Forge, names: seq<string>, d: UnitKey)
    requires Sound(f)
    ensures multiset(DependencyList(f, names))[d]
         == if d < |f.arena| && d in f.activeUnits && !f.arena[d].kind.Target? then |Places(f, names, d)| else 0
  {
    if names == [] {
    } else {
      var n := |names| - 1;
      ListedPlaces(f, names[..n], d);
      PlacesNext(f, names[..n], names[n], d);
      assert names == names[..n] + [names[n]];
      AnswersExact(f, names[n], d);
      hide Sound, Places, Answers;
    }
  }

  /**
    The list that resolution leaves at an active unit, read off the fields: it holds d once for each entry of `after`
    that d answers to, and, for a service, once for each further name it requires that d answers to, provided that d is
    active and not a target.
   */
  lemma DependsExact(f: Forge, k: UnitKey, d: UnitKey)
    requires Sound(f) && FreshlyResolved(f) && k in f.activeUnits && k < |f.arena| && d < |f.arena|
    ensures var u, deps := f.arena[k], f.arena[k].dependencies;
            && (d in deps <==> d in f.activeUnits && !f.arena[d].kind.Target?
                               && exists n :: StartsAfter(u.kind, n) && Answers(f, n, d))
            && (d in deps ==>
                  multiset(deps)[d] == |Places(f, u.kind.after, d)|
                    + (if u.kind.Service? then |Further(f, u.kind.after, u.kind.needs, d)| else 0))
  {
    var u := f.arena[k];
    var names := Ordering(u.kind);
    ListedPlaces(f, names, d);
    if u.kind.Service? {
      AppendedPlaces(f, u.kind.after, u.kind.needs, d);
    }
    forall n ensures n in names <==> StartsAfter(u.kind, n) {}
    PlacesNamed(f, names, d);
    hide Ordering, Answers, Places, Further, StartsAfter, DependencyList;
  }

  lemma PlacesNamed(f: Forge, names: seq<string>, d: UnitKey)
    ensures Places(f, names, d) != {} <==> exists n :: n in names && Answers(f, n, d)
  {
    hide Answers;
    if n :| n in names && Answers(f, n, d) {
      var i: nat :| i < |names| && names[i] == n;
      assert i in Places(f, names, d);
    }
    if i: nat :| i in Places(f, names, d) {
      assert names[i] in names && Answers(f, names[i], d);
    }
  }
}
