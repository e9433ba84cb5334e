/** What stopping a list of units, and a whole shutdown, leave behind, said of the fields of the units. */
module StopOutcomes {
  import opened Units
  import opened Names
  import opened ForgeModel
  import opened Supervision
  import opened NamedGraphs
  import opened ExitOutcomes
  import Runs

  /** A service that records a running process. */
  predicate HasProcess(u: Unit) {
    u.kind.Service? && u.kind.pid.Some?
  }

  /** Between f and g exactly the listed services that record a process became Stopping; all else is as it was. */
  ghost predicate Stops(f: Forge, order: seq<UnitKey>, g: Forge) {
    && |g.arena| == |f.arena| && g == f.(arena := g.arena)
    && forall k | 0 <= k < |f.arena| ::
         g.arena[k] == if k in order && HasProcess(f.arena[k]) then f.arena[k].(state := Stopping) else f.arena[k]
  }

  lemma {:induction false} StopAllExact(f: Forge, order: seq<UnitKey>)
    requires Live(f.arena, order)
    ensures Stops(f, order, StopAll(f, order))
  {
    if order == [] {
    } else {
      var n := |order| - 1;
      StopAllExact(f, order[..n]);
      StopsNext(f, order, n, StopAll(f, order[..n]));
    }
  }

  lemma StopsNext(f: Forge, order: seq<UnitKey>, n: nat, g: Forge)
    requires Live(f.arena, order) && n + 1 == |order| && Stops(f, order[..n], g)
    ensures Stops(f, order, if g.arena[order[n]].kind.Service? then StopService(g, order[n]).0 else g)
  {
    var last := order[n];
    var h := if g.arena[last].kind.Service? then StopService(g, last).0 else g;
    assert order == order[..n] + [last];
    StopExact(g, last);
    hide StopService;
    forall k | 0 <= k < |f.arena|
      ensures h.arena[k] == if k in order && HasProcess(f.arena[k]) then f.arena[k].(state := Stopping) else f.arena[k]
    {
      assert k in order <==> k in order[..n] || k == last;
    }
  }

  /** Stopping changes the state of a service that records a process, and nothing else; otherwise it is an error. */
  lemma StopExact(f: Forge, k: UnitKey)
    requires k < |f.arena|
    ensures var (g, r) := StopService(f, k);
            && (r.Ok? <==> HasProcess(f.arena[k])) && (r.Err? ==> r.error == NotRunning(f.arena[k].name))
            && |g.arena| == |f.arena| && g == f.(arena := g.arena)
            && forall j | 0 <= j < |f.arena| ::
                 g.arena[j] == if j == k && HasProcess(f.arena[j]) then f.arena[j].(state := Stopping) else f.arena[j]
  {
  }

  /** A unit after a shutdown: its service is still stopping, or the last exit reported of it is recorded. */
  ghost predicate Stopped(f: Forge, exits: seq<(Pid, ExitStatus)>, k: UnitKey, v: Unit)
    requires k < |f.arena|
  {
    || (v == f.arena[k].(state := Stopping) && forall i: nat :: !ReportsUnit(f, exits, i, k))
    || exists i: nat :: LastReport(f, exits, i, k) && Exits(f.arena[k], v, exits[i].1)
  }

  /** A first shutdown stops every listed service that runs; the reported pids leave the index, and nothing restarts. */
  lemma ShutdownExact(f: Forge, order: seq<UnitKey>, exits: seq<(Pid, ExitStatus)>)
    requires Live(f.arena, order) && IndexLive(f) && !f.shuttingDown
    ensures var g := Shutdown(f, order, exits);
            && |g.arena| == |f.arena| && g.shuttingDown && ReapedIndex(f.pidIndex, exits, g.pidIndex)
            && g.pendingRestarts == f.pendingRestarts
            && (forall k | 0 <= k < |f.arena| && k in order && HasProcess(f.arena[k]) ::
                  Stopped(f, exits, k, g.arena[k]))
            && (forall k | 0 <= k < |f.arena| && !(k in order && HasProcess(f.arena[k])) ::
                  ReapedUnit(f, exits, k, g.arena[k]))
  {
    hide StopAll, Reap, ReapedIndex, HasProcess;
    var f1 := f.(shuttingDown := true);
    StopAllExact(f1, order);
    var mid := StopAll(f1, order);
    ReapExact(mid, exits);
    Runs.ShutdownQueuesNothing(mid, exits);
    var g := Shutdown(f, order, exits);
    forall k | 0 <= k < |f.arena|
      ensures if k in order && HasProcess(f.arena[k]) then Stopped(f, exits, k, g.arena[k])
              else ReapedUnit(f, exits, k, g.arena[k])
    {
      ReapedAfterStop(f, mid, exits, k, g.arena[k]);
    }
  }

  lemma ReapedAfterStop(f: Forge, mid: Forge, exits: seq<(Pid, ExitStatus)>, k: UnitKey, v: Unit)
    requires k < |f.arena| == |mid.arena| && mid.pidIndex == f.pidIndex && ReapedUnit(mid, exits, k, v)
    ensures mid.arena[k] == f.arena[k] ==> ReapedUnit(f, exits, k, v)
    ensures mid.arena[k] == f.arena[k].(state := Stopping) ==> Stopped(f, exits, k, v)
  {
    forall i: nat ensures ReportsUnit(f, exits, i, k) <==> ReportsUnit(mid, exits, i, k) {}
    if i: nat :| LastReport(mid, exits, i, k) && Exits(mid.arena[k], v, exits[i].1) {
      assert LastReport(f, exits, i, k);
      assert mid.arena[k] == f.arena[k].(state := Stopping) ==> Exits(f.arena[k], v, exits[i].1);
    }
  }

  /** Stopping by name works exactly if the unit that answers is a service with a process, which is then Stopping. */
  lemma StopByNameExact(f: Forge, name: string)
    requires Sound(f)
    ensures var (g, r) := StopByName(f, name);
            && (r.Ok? <==> exists k: UnitKey :: Answers(f, name, k) && k < |f.arena| && HasProcess(f.arena[k]))
            && (r.Ok? ==> exists k: UnitKey :: Answers(f, name, k) && Stops(f, [k], g))
            && (r.Err? ==> g == f)
            && (Unanswered(f, name) ==> r == Err(NotFound(name)))
  {
    forall k: UnitKey ensures Answers(f, name, k) <==> Lookup(f, name) == Some(k) && k < |f.arena| {
      AnswersExact(f, name, k);
    }
    hide Sound, StopService, Answers;
    if k: UnitKey :| Answers(f, name, k) {
      StopExact(f, k);
      hide HasProcess;
    }
  }
}
