/** What a series of exit reports leaves behind, said of the fields of the units and of the index. */
module ExitOutcomes {
  import opened Units
  import opened ForgeModel
  import opened Supervision

  // ---- Exits ------------------------------------------------------------------------------------------------

  ghost predicate IndexLive(f: Forge) {
    forall p | p in f.pidIndex :: f.pidIndex[p] < |f.arena|
  }

  /** Some exit of that pid is reported. */
  ghost predicate Reported(exits: seq<(Pid, ExitStatus)>, pid: Pid) {
    exists i :: 0 <= i < |exits| && exits[i].0 == pid
  }

  /** Report i is the first of its pid, which is indexed to unit k. */
  ghost predicate ReportsUnit(f: Forge, exits: seq<(Pid, ExitStatus)>, i: nat, k: UnitKey) {
    && i < |exits| && exits[i].0 in f.pidIndex && f.pidIndex[exits[i].0] == k
    && !Reported(exits[..i], exits[i].0)
  }

  /** v is u after an exit with that status: failed on a nonzero code or a signal, and with no process. */
  ghost predicate Exits(u: Unit, v: Unit, status: ExitStatus) {
    && v.name == u.name && v.dependencies == u.dependencies && v.lastExit == Some(status)
    && v.state == (match status
                   case Exited(code) => if code == 0 then Dead else Failed
                   case Signaled(_) => Failed
                   case Abnormal => Dead)
    && v.kind == if u.kind.Service? then u.kind.(pid := None) else u.kind
  }

  /** A unit after some exits: as it was, if none of its processes is reported, and else as the last of them left it. */
  ghost predicate ReapedUnit(f: Forge, exits: seq<(Pid, ExitStatus)>, k: UnitKey, v: Unit)
    requires k < |f.arena|
  {
    || (v == f.arena[k] && forall i: nat :: !ReportsUnit(f, exits, i, k))
    || (exists i: nat :: LastReport(f, exits, i, k) && Exits(f.arena[k], v, exits[i].1))
  }

  ghost predicate LastReport(f: Forge, exits: seq<(Pid, ExitStatus)>, i: nat, k: UnitKey) {
    ReportsUnit(f, exits, i, k) && forall j: nat | j > i :: !ReportsUnit(f, exits, j, k)
  }

  /** The index after some exits: without the reported pids. */
  ghost predicate ReapedIndex(before: map<Pid, UnitKey>, exits: seq<(Pid, ExitStatus)>, after: map<Pid, UnitKey>) {
    && (forall p :: p in after <==> p in before && !Reported(exits, p))
    && (forall p | p in after :: after[p] == before[p])
  }

  /** Reports change nothing but units, index and restart queue. */
  ghost predicate OnlyReaped(f: Forge, g: Forge) {
    g == f.(arena := g.arena, pidIndex := g.pidIndex, pendingRestarts := g.pendingRestarts)
  }

  lemma ExitExact(f: Forge, pid: Pid, status: ExitStatus)
    requires IndexLive(f)
    ensures var (g, known) := OnChildExit(f, pid, status);
            && (known <==> pid in f.pidIndex) && |g.arena| == |f.arena| && IndexLive(g)
            && g.pidIndex == f.pidIndex - {pid} && OnlyReaped(f, g)
            && forall k | 0 <= k < |f.arena| ::
                 if known && k == f.pidIndex[pid] then Exits(f.arena[k], g.arena[k], status)
                 else g.arena[k] == f.arena[k]
  {
  }

  lemma ReportedNext(exits: seq<(Pid, ExitStatus)>, n: nat, p: Pid)
    requires n < |exits|
    ensures Reported(exits[..n + 1], p) <==> Reported(exits[..n], p) || exits[n].0 == p
  {
    var more := exits[..n + 1];
    if i :| 0 <= i < |more| && more[i].0 == p && i < n { assert exits[..n][i] == more[i]; }
    if i :| 0 <= i < n && exits[..n][i].0 == p { assert more[i].0 == p; }
    assert more[n] == exits[n];
  }

  lemma IndexNext(before: map<Pid, UnitKey>, mid: map<Pid, UnitKey>, exits: seq<(Pid, ExitStatus)>, n: nat)
    requires n < |exits| && ReapedIndex(before, exits[..n], mid)
    ensures ReapedIndex(before, exits[..n + 1], mid - {exits[n].0})
  {
    var after := mid - {exits[n].0};
    forall p ensures p in after <==> p in before && !Reported(exits[..n + 1], p) {
      ReportedNext(exits, n, p);
    }
  }

  lemma ExitsAgain(u: Unit, v: Unit, w: Unit, first: ExitStatus, second: ExitStatus)
    requires Exits(u, v, first) && Exits(v, w, second)
    ensures Exits(u, w, second)
  {
  }

  lemma ReportsNext(f: Forge, g: Forge, exits: seq<(Pid, ExitStatus)>, n: nat, k: UnitKey)
    requires n < |exits| && ReapedIndex(f.pidIndex, exits[..n], g.pidIndex)
    ensures SameReports(f, exits[..n], exits[..n + 1], k)
    ensures ReportsUnit(f, exits[..n + 1], n, k) <==> exits[n].0 in g.pidIndex && g.pidIndex[exits[n].0] == k
  {
    hide Reported;
    var more := exits[..n + 1];
    forall i: nat | i < n ensures ReportsUnit(f, more, i, k) <==> ReportsUnit(f, exits[..n], i, k) {
      assert more[..i] == exits[..n][..i];
    }
    assert more[..n] == exits[..n];
  }

  lemma UnitNext(f: Forge, g: Forge, exits: seq<(Pid, ExitStatus)>, n: nat, k: UnitKey, v: Unit)
    requires n < |exits| && k < |f.arena| == |g.arena| && ReapedIndex(f.pidIndex, exits[..n], g.pidIndex)
    requires ReapedUnit(f, exits[..n], k, g.arena[k])
    requires if exits[n].0 in g.pidIndex && g.pidIndex[exits[n].0] == k then Exits(g.arena[k], v, exits[n].1)
             else v == g.arena[k]
    ensures ReapedUnit(f, exits[..n + 1], k, v)
  {
    ReportsNext(f, g, exits, n, k);
    hide Exits, ReportsUnit, ReapedIndex, LastReport, ReapedUnit;
    if ReportsUnit(f, exits[..n + 1], n, k) {
      OneMoreReport(f, exits[..n], exits[..n + 1], k, g.arena[k], v);
    } else {
      NoMoreReport(f, exits[..n], exits[..n + 1], k, v);
    }
  }

  ghost predicate SameReports(f: Forge, short: seq<(Pid, ExitStatus)>, more: seq<(Pid, ExitStatus)>, k: UnitKey) {
    && |more| == |short| + 1
    && forall i: nat | i < |short| ::
         more[i] == short[i] && (ReportsUnit(f, more, i, k) <==> ReportsUnit(f, short, i, k))
  }

  lemma OneMoreReport(f: Forge, short: seq<(Pid, ExitStatus)>, more: seq<(Pid, ExitStatus)>, k: UnitKey, u: Unit,
        v: Unit)
    requires k < |f.arena| && SameReports(f, short, more, k) && ReportsUnit(f, more, |short|, k)
    requires ReapedUnit(f, short, k, u) && Exits(u, v, more[|short|].1)
    ensures ReapedUnit(f, more, k, v)
  {
    NoneBeyond(f, more, k);
    NoneBeyond(f, short, k);
    hide Exits, ReportsUnit;
    if i: nat :| LastReport(f, short, i, k) && Exits(f.arena[k], u, short[i].1) {
      ExitsAgain(f.arena[k], u, v, short[i].1, more[|short|].1);
    }
    assert LastReport(f, more, |short|, k) && Exits(f.arena[k], v, more[|short|].1);
  }

  lemma NoMoreReport(f: Forge, short: seq<(Pid, ExitStatus)>, more: seq<(Pid, ExitStatus)>, k: UnitKey, v: Unit)
    requires k < |f.arena| && SameReports(f, short, more, k) && !ReportsUnit(f, more, |short|, k)
    requires ReapedUnit(f, short, k, v)
    ensures ReapedUnit(f, more, k, v)
  {
    NoneBeyond(f, more, k);
    NoneBeyond(f, short, k);
    forall i: nat ensures ReportsUnit(f, more, i, k) <==> ReportsUnit(f, short, i, k) {
      assert i < |short| ==> more[i] == short[i];
    }
    if i: nat :| LastReport(f, short, i, k) && Exits(f.arena[k], v, short[i].1) {
      assert more[i] == short[i] && LastReport(f, more, i, k);
      assert Exits(f.arena[k], v, more[i].1);
    }
  }

  lemma NoneBeyond(f: Forge, exits: seq<(Pid, ExitStatus)>, k: UnitKey)
    ensures forall i: nat | ReportsUnit(f, exits, i, k) :: i < |exits|
  {
  }

  /**
    What a series of reports does, repetitions included: exactly the reported pids leave the index, and a
    unit changes exactly if one of its processes is reported; it is then as the last of those exits left it.
   */
  lemma {:induction false} ReapExact(f: Forge, exits: seq<(Pid, ExitStatus)>)
    requires IndexLive(f)
    ensures var g := Reap(f, exits);
            && |g.arena| == |f.arena| && IndexLive(g) && ReapedIndex(f.pidIndex, exits, g.pidIndex) && OnlyReaped(f, g)
            && forall k | 0 <= k < |f.arena| :: ReapedUnit(f, exits, k, g.arena[k])
    decreases |exits|
  {
    hide ReapedIndex, Exits, ReapedUnit, OnChildExit;
    if exits == [] {
      NothingReaped(f);
    } else {
      var n := |exits| - 1;
      ReapExact(f, exits[..n]);
      var mid := Reap(f, exits[..n]);
      ExitExact(mid, exits[n].0, exits[n].1);
      assert exits[..n + 1] == exits;
      var g := OnChildExit(mid, exits[n].0, exits[n].1).0;
      IndexNext(f.pidIndex, mid.pidIndex, exits, n);
      forall k | 0 <= k < |f.arena| ensures ReapedUnit(f, exits, k, g.arena[k]) {
        UnitNext(f, mid, exits, n, k, g.arena[k]);
      }
    }
  }

  lemma NothingReaped(f: Forge)
    ensures ReapedIndex(f.pidIndex, [], f.pidIndex)
    ensures forall k | 0 <= k < |f.arena| :: ReapedUnit(f, [], k, f.arena[k])
  {
  }
}
