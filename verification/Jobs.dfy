/** The job queue, and the D-Bus manager calls that share it under one lock. */
module Jobs {
  import opened Units

  datatype JobResult = Done | Failed | Canceled | Timeout | Dependency | Skipped

  datatype JobState = Waiting | Running | Completed

  /** Job ids come from a 32-bit counter that starts at 1 and wraps. */
  const ID_SPACE: nat := 0x1_0000_0000

  type JobId = id: nat | id < ID_SPACE

  datatype Job = Job(id: JobId, unit: string, mode: string, state: JobState, result: Option<JobResult>) {
    function Complete(r: JobResult): Job {
      this.(state := Completed, result := Some(r))
    }
  }

  const MAX_HISTORY: nat := 256

  /** The id of the job issued after n others. */
  function IdAfter(n: nat): JobId {
    (n + 1) % ID_SPACE
  }

  /** Position of the first job with the id. */
  function Position(jobs: seq<Job>, id: JobId): (p: Option<nat>)
    ensures p.Some? ==> p.value < |jobs| && jobs[p.value].id == id && forall i | 0 <= i < p.value :: jobs[i].id != id
    ensures p.None? ==> forall i | 0 <= i < |jobs| :: jobs[i].id != id
  {
    if jobs == [] then None
    else if jobs[0].id == id then Some(0)
    else
      match Position(jobs[1..], id)
      case Some(p) => assert forall i | 0 < i < |jobs| :: jobs[i] == jobs[1..][i - 1]; Some(p + 1)
      case None => assert forall i | 0 < i < |jobs| :: jobs[i] == jobs[1..][i - 1]; None
  }

  function Without(jobs: seq<Job>, p: nat): seq<Job>
    requires p < |jobs|
  {
    jobs[..p] + jobs[p + 1..]
  }

  function LastJobs(jobs: seq<Job>, n: nat): seq<Job> {
    if |jobs| <= n then jobs else jobs[|jobs| - n..]
  }

  function Reversed(jobs: seq<Job>): (r: seq<Job>)
    ensures |r| == |jobs| && forall i | 0 <= i < |jobs| :: r[i] == jobs[|jobs| - 1 - i]
  {
    if jobs == [] then [] else [jobs[|jobs| - 1]] + Reversed(jobs[..|jobs| - 1])
  }

  /** The queue as a value, with the number of jobs issued so far. */
  datatype Queue = Queue(active: seq<Job>, history: seq<Job>, issued: nat)

  function Enqueue(q: Queue, unit: string, mode: string): (Queue, Job) {
    var job := Job(IdAfter(q.issued), unit, mode, Waiting, None);
    (q.(active := q.active + [job], issued := q.issued + 1), job)
  }

  function Finish(q: Queue, id: JobId, r: JobResult): (Queue, Option<Job>) {
    match Position(q.active, id)
    case None => (q, None)
    case Some(p) =>
      var job := q.active[p].Complete(r);
      (q.(active := Without(q.active, p), history := LastJobs(q.history + [job], MAX_HISTORY)), Some(job))
  }

  /** The first job with the id, at place p, is finished: it leaves the queue and ends the history with its result. */
  ghost predicate Finishes(q: Queue, id: JobId, r: JobResult, p: nat, after: Queue, done: Option<Job>) {
    && p < |q.active| && q.active[p].id == id && (forall i | 0 <= i < p :: q.active[i].id != id)
    && after.issued == q.issued && after.active == q.active[..p] + q.active[p + 1..]
    && done == Some(Job(id, q.active[p].unit, q.active[p].mode, Completed, Some(r)))
    && after.history != [] && |after.history| <= 256 && after.history[|after.history| - 1] == done.value
    && (|q.history| < 256 ==> after.history == q.history + [done.value])
    && (|q.history| >= 256 ==> after.history == q.history[|q.history| - 255..] + [done.value])
  }

  /** Finishing completes the first job with the id, if there is one, with the given result, and nothing else. */
  lemma FinishExact(q: Queue, id: JobId, r: JobResult)
    ensures var (after, done) := Finish(q, id, r);
            && (done == None <==> forall i | 0 <= i < |q.active| :: q.active[i].id != id)
            && (done == None ==> after == q)
            && (done.Some? ==> exists p: nat :: Finishes(q, id, r, p, after, done))
  {
    var (after, done) := Finish(q, id, r);
    if done.Some? {
      var p := Position(q.active, id).value;
      var all := q.history + [done.value];
      assert |q.history| >= 256 ==> all[|all| - 256..] == q.history[|q.history| - 255..] + [done.value];
      assert Finishes(q, id, r, p, after, done);
    }
  }

  class JobQueue {
    var active: seq<Job>
    var history: seq<Job>
    var issued: nat

    ghost function View(): Queue
      reads this
    {
      Queue(active, history, issued)
    }

    constructor ()
      ensures View() == Queue([], [], 0)
    {
      active, history, issued := [], [], 0;
    }

    method EnqueueJob(unit: string, mode: string) returns (job: Job)
      modifies this`active, this`issued
      ensures (View(), job) == Enqueue(old(View()), unit, mode)
    {
      job := Job(IdAfter(issued), unit, mode, Waiting, None);
      issued := issued + 1;
      active := active + [job];
    }

    /** Moves the first job with the id to the history, and trims the history from the front. */
    method FinishJob(id: JobId, r: JobResult) returns (finished: Option<Job>)
      modifies this`active, this`history
      ensures (View(), finished) == Finish(old(View()), id, r)
    {
      var pos := 0;
      while pos < |active| && active[pos].id != id
        invariant pos <= |active| && forall i | 0 <= i < pos :: active[i].id != id
      {
        pos := pos + 1;
      }
      assert Position(active, id) == if pos == |active| then None else Some(pos);
      if pos == |active| {
        return None;
      }
      var job := active[pos].Complete(r);
      active := Without(active, pos);
      history := history + [job];
      TrimHistory();
      finished := Some(job);
    }

    method TrimHistory()
      modifies this`history
      ensures history == LastJobs(old(history), MAX_HISTORY)
    {
      ghost var all := history;
      while |history| > MAX_HISTORY
        invariant |history| <= |all| && history == all[|all| - |history|..]
        invariant |all| > MAX_HISTORY ==> |history| >= MAX_HISTORY
        invariant |all| <= MAX_HISTORY ==> history == all
        decreases |history|
      {
        history := history[1..];
      }
    }

    /** The latest n finished jobs, latest first. */
    method Recent(n: nat) returns (jobs: seq<Job>)
      ensures jobs == Reversed(LastJobs(history, n))
    {
      jobs := [];
      while |jobs| < n && |jobs| < |history|
        invariant |jobs| <= n && |jobs| <= |history|
        invariant forall i | 0 <= i < |jobs| :: jobs[i] == history[|history| - 1 - i]
      {
        jobs := jobs + [history[|history| - 1 - |jobs|]];
      }
    }
  }

  // ---- Concurrent calls -------------------------------------------------------------------------------------

  /** Where an in-flight call stands: its job is queued and its work is to be done, or done with a result. */
  datatype Phase = Working(job: Job) | Finishing(job: Job, result: JobResult)

  type CallId = nat

  /** The locked state, the calls in flight, and every job ever finished, in order. */
  datatype System = System(queue: Queue, calls: map<CallId, Phase>, finished: seq<Job>)

  /** No job was ever issued. */
  const IDLE := System(Queue([], [], 0), map[], [])

  /** The critical sections of start, stop and session-scope calls. A scope call has no work section. */
  datatype Section =
    | BeginUnit(call: CallId, unit: string, mode: string)
    | BeginScope(call: CallId, unit: string, mode: string)
    | Work(call: CallId, ok: bool)
    | End(call: CallId)

  /** Names that a transient-unit call treats as a session scope. */
  predicate SessionScope(name: string) {
    "session-" <= name && |name| >= 6 && name[|name| - 6..] == ".scope"
  }

  /** Sections that can run: a call begins once, and its sections follow in order. */
  predicate Enabled(s: System, x: Section) {
    match x
    case BeginUnit(c, _, _) => c !in s.calls
    case BeginScope(c, unit, _) => c !in s.calls && SessionScope(unit)
    case Work(c, _) => c in s.calls && s.calls[c].Working?
    case End(c) => c in s.calls && s.calls[c].Finishing?
  }

  function Step(s: System, x: Section): System
    requires Enabled(s, x)
  {
    match x
    case BeginUnit(c, unit, mode) =>
      var (q, job) := Enqueue(s.queue, unit, mode);
      s.(queue := q, calls := s.calls[c := Working(job)])
    case BeginScope(c, unit, mode) =>
      var (q, job) := Enqueue(s.queue, unit, mode);
      s.(queue := q, calls := s.calls[c := Finishing(job, Done)])
    case Work(c, ok) =>
      s.(calls := s.calls[c := Finishing(s.calls[c].job, if ok then JobResult.Done else JobResult.Failed)])
    case End(c) =>
      var (q, done) := Finish(s.queue, s.calls[c].job.id, s.calls[c].result);
      System(q, s.calls - {c}, s.finished + (if done.Some? then [done.value] else []))
  }

  /** A section that queues a job. */
  predicate Begins(x: Section) {
    x.BeginUnit? || x.BeginScope?
  }

  ghost predicate DistinctIds(jobs: seq<Job>) {
    forall i, j | 0 <= i < j < |jobs| :: jobs[i].id != jobs[j].id
  }

  /** The active jobs are exactly the jobs of the calls in flight, once each. */
  ghost predicate Matched(active: seq<Job>, calls: map<CallId, Phase>) {
    && DistinctIds(active)
    && (forall c | c in calls :: calls[c].job in active)
    && (forall c, d | c in calls && d in calls && c != d :: calls[c].job.id != calls[d].job.id)
    && (forall i | 0 <= i < |active| :: OwnedBySome(calls, active[i]))
  }

  ghost predicate OwnedBySome(calls: map<CallId, Phase>, job: Job) {
    exists c :: c in calls && calls[c].job == job
  }

  ghost predicate InFlight(s: System) {
    Matched(s.queue.active, s.calls)
  }

  /** The id that the next job gets is not that of a job still active. */
  ghost predicate NextIdFree(q: Queue) {
    forall i | 0 <= i < |q.active| :: q.active[i].id != IdAfter(q.issued)
  }

  // ---- One section ------------------------------------------------------------------------------------------

  lemma OwnedStays(calls: map<CallId, Phase>, c: CallId, phase: Phase, job: Job)
    requires OwnedBySome(calls, job) && (c in calls ==> calls[c].job == phase.job)
    ensures OwnedBySome(calls[c := phase], job)
  {
    var d :| d in calls && calls[d].job == job;
    assert d in calls[c := phase] && calls[c := phase][d].job == job;
  }

  lemma BeginFree(s: System, c: CallId, unit: string, mode: string, phase: Phase)
    requires InFlight(s) && c !in s.calls && phase.job == Enqueue(s.queue, unit, mode).1
    requires NextIdFree(s.queue)
    ensures Matched(Enqueue(s.queue, unit, mode).0.active, s.calls[c := phase])
  {
    var active, calls := Enqueue(s.queue, unit, mode).0.active, s.calls[c := phase];
    forall i | 0 <= i < |active| ensures OwnedBySome(calls, active[i]) {
      if i < |s.queue.active| {
        OwnedStays(s.calls, c, phase, active[i]);
      } else {
        assert c in calls && calls[c].job == active[i];
      }
    }
    assert phase.job == active[|s.queue.active|];
  }

  /** Queueing a job keeps jobs and calls matched exactly when its id is free, however many jobs there were before. */
  lemma BeginExact(s: System, c: CallId, unit: string, mode: string, phase: Phase)
    requires InFlight(s) && c !in s.calls && phase.job == Enqueue(s.queue, unit, mode).1
    ensures Matched(Enqueue(s.queue, unit, mode).0.active, s.calls[c := phase]) <==> NextIdFree(s.queue)
  {
    if NextIdFree(s.queue) {
      BeginFree(s, c, unit, mode, phase);
    } else {
      var active := Enqueue(s.queue, unit, mode).0.active;
      var i :| 0 <= i < |s.queue.active| && s.queue.active[i].id == IdAfter(s.queue.issued);
      assert active[i].id == active[|s.queue.active|].id;
    }
  }

  /** If the next id is taken, the new call's finish completes the older job, and its own job stays behind. */
  lemma TakenIdFinishesOlder(s: System, unit: string, mode: string, r: JobResult)
    requires InFlight(s) && !NextIdFree(s.queue)
    ensures var (q, job) := Enqueue(s.queue, unit, mode);
            var (after, done) := Finish(q, job.id, r);
            && done.Some? && (exists i | 0 <= i < |s.queue.active| :: done == Some(s.queue.active[i].Complete(r)))
            && after.active != [] && after.active[|after.active| - 1] == job
  {
    var (q, job) := Enqueue(s.queue, unit, mode);
    var i :| 0 <= i < |s.queue.active| && s.queue.active[i].id == job.id;
    assert q.active[i].id == job.id;
    var p := Position(q.active, job.id).value;
    assert p <= i;
    assert Finish(q, job.id, r).1 == Some(s.queue.active[p].Complete(r));
  }

  /** A finish section finds the call's own job, whatever ran in between. */
  lemma FinishHitsOwn(s: System, c: CallId)
    requires InFlight(s) && c in s.calls && s.calls[c].Finishing?
    ensures Finish(s.queue, s.calls[c].job.id, s.calls[c].result).1 == Some(s.calls[c].job.Complete(s.calls[c].result))
    ensures var p := Position(s.queue.active, s.calls[c].job.id); p.Some? && s.queue.active[p.value] == s.calls[c].job
  {
    var job := s.calls[c].job;
    var i :| 0 <= i < |s.queue.active| && s.queue.active[i] == job;
    var p := Position(s.queue.active, job.id);
    assert p == Some(i);
  }

  lemma WithoutIndex(jobs: seq<Job>, p: nat, i: nat)
    requires p < |jobs| && i < |jobs| - 1
    ensures Without(jobs, p)[i] == jobs[if i < p then i else i + 1]
  {
  }

  lemma WithoutHolds(jobs: seq<Job>, p: nat, job: Job)
    requires p < |jobs| && job in jobs && job != jobs[p]
    ensures job in Without(jobs, p)
  {
    var i :| 0 <= i < |jobs| && jobs[i] == job;
    WithoutIndex(jobs, p, if i < p then i else i - 1);
  }

  lemma WithoutDistinct(jobs: seq<Job>, p: nat)
    requires p < |jobs| && DistinctIds(jobs)
    ensures DistinctIds(Without(jobs, p)) && forall i | 0 <= i < |jobs| - 1 :: Without(jobs, p)[i].id != jobs[p].id
  {
    forall i | 0 <= i < |jobs| - 1 ensures Without(jobs, p)[i] == jobs[if i < p then i else i + 1] {
      WithoutIndex(jobs, p, i);
    }
  }

  /** Dropping a call together with its job leaves the rest matched. */
  lemma MatchedWithout(active: seq<Job>, calls: map<CallId, Phase>, p: nat, c: CallId)
    requires Matched(active, calls) && p < |active| && c in calls && calls[c].job == active[p]
    ensures Matched(Without(active, p), calls - {c})
  {
    var rest, others := Without(active, p), calls - {c};
    WithoutDistinct(active, p);
    forall d | d in others ensures others[d].job in rest {
      WithoutHolds(active, p, calls[d].job);
    }
    forall i | 0 <= i < |rest| ensures OwnedBySome(others, rest[i]) {
      WithoutIndex(active, p, i);
      OwnedByOther(calls, active[if i < p then i else i + 1], c);
    }
  }

  lemma OwnedByOther(calls: map<CallId, Phase>, job: Job, c: CallId)
    requires OwnedBySome(calls, job) && c in calls && calls[c].job != job
    ensures OwnedBySome(calls - {c}, job)
  {
    var d :| d in calls && calls[d].job == job;
    assert d in calls - {c} && (calls - {c})[d].job == job;
  }

  lemma EndInFlight(s: System, c: CallId)
    requires InFlight(s) && c in s.calls && s.calls[c].Finishing?
    ensures InFlight(Step(s, End(c)))
  {
    FinishHitsOwn(s, c);
    MatchedWithout(s.queue.active, s.calls, Position(s.queue.active, s.calls[c].job.id).value, c);
  }

  lemma WorkInFlight(s: System, c: CallId, ok: bool)
    requires InFlight(s) && c in s.calls && s.calls[c].Working?
    ensures InFlight(Step(s, Work(c, ok)))
  {
    var t := Step(s, Work(c, ok));
    forall i | 0 <= i < |t.queue.active| ensures OwnedBySome(t.calls, t.queue.active[i]) {
      OwnedStays(s.calls, c, t.calls[c], t.queue.active[i]);
    }
  }

  /** Exactly the sections that queue a job under a taken id break the match. */
  lemma StepExact(s: System, x: Section)
    requires InFlight(s) && Enabled(s, x)
    ensures InFlight(Step(s, x)) <==> (Begins(x) ==> NextIdFree(s.queue))
  {
    match x
    case BeginUnit(c, unit, mode) => BeginExact(s, c, unit, mode, Working(Enqueue(s.queue, unit, mode).1));
    case BeginScope(c, unit, mode) => BeginExact(s, c, unit, mode, Finishing(Enqueue(s.queue, unit, mode).1, Done));
    case Work(c, ok) => WorkInFlight(s, c, ok);
    case End(c) => EndInFlight(s, c);
  }

  // ---- Runs -------------------------------------------------------------------------------------------------

  ghost predicate Possible(s: System, run: seq<Section>)
    decreases |run|
  {
    run == [] || (Enabled(s, run[0]) && Possible(Step(s, run[0]), run[1..]))
  }

  ghost function After(s: System, run: seq<Section>): System
    requires Possible(s, run)
    decreases |run|
  {
    if run == [] then s else After(Step(s, run[0]), run[1..])
  }

  /** Every job of the run gets an id that no active job has at that moment. */
  ghost predicate FreshIds(s: System, run: seq<Section>)
    requires Possible(s, run)
    decreases |run|
  {
    run == [] || ((Begins(run[0]) ==> NextIdFree(s.queue)) && FreshIds(Step(s, run[0]), run[1..]))
  }

  /** Jobs and calls are matched in every state of the run. */
  ghost predicate AlwaysInFlight(s: System, run: seq<Section>)
    requires Possible(s, run)
    decreases |run|
  {
    InFlight(s) && (run == [] || AlwaysInFlight(Step(s, run[0]), run[1..]))
  }

  /** In every run, of any length: jobs and calls stay matched exactly while each new job gets a free id. */
  lemma {:induction false} InFlightExact(s: System, run: seq<Section>)
    requires InFlight(s) && Possible(s, run)
    ensures AlwaysInFlight(s, run) <==> FreshIds(s, run)
    decreases |run|
  {
    if run == [] {
    } else {
      StepExact(s, run[0]);
      if InFlight(Step(s, run[0])) {
        InFlightExact(Step(s, run[0]), run[1..]);
      }
    }
  }

  /** No section of the run belongs to the call. */
  ghost predicate Spares(run: seq<Section>, c: CallId) {
    forall i | 0 <= i < |run| :: run[i].call != c
  }

  lemma {:induction false} CallStays(s: System, run: seq<Section>, c: CallId)
    requires Possible(s, run) && Spares(run, c) && c in s.calls
    ensures c in After(s, run).calls && After(s, run).calls[c] == s.calls[c]
    decreases |run|
  {
    if run == [] {
    } else {
      assert run[0].call != c && Spares(run[1..], c);
      CallStays(Step(s, run[0]), run[1..], c);
    }
  }

  /**
    A call's job is finished with the result of that call's work, whatever other calls do between the work and the
    finish, as long as their jobs get free ids.
   */
  lemma WorkDecides(s: System, c: CallId, ok: bool, run: seq<Section>)
    requires InFlight(s) && Enabled(s, Work(c, ok))
    requires var t := Step(s, Work(c, ok)); Possible(t, run) && FreshIds(t, run) && Spares(run, c)
    ensures var t, job := After(Step(s, Work(c, ok)), run), s.calls[c].job;
            && Enabled(t, End(c))
            && Step(t, End(c)).finished == t.finished +
                 [Job(job.id, job.unit, job.mode, Completed, Some(if ok then JobResult.Done else JobResult.Failed))]
            && c !in Step(t, End(c)).calls
  {
    var t := Step(s, Work(c, ok));
    WorkInFlight(s, c, ok);
    CallStays(t, run, c);
    RunMatched(t, run);
    EndFinishes(After(t, run), c);
  }

  /** A scope call does no work: whatever runs in between, its job is finished as done. */
  lemma ScopeIsDone(s: System, c: CallId, unit: string, mode: string, run: seq<Section>)
    requires InFlight(s) && Enabled(s, BeginScope(c, unit, mode)) && NextIdFree(s.queue)
    requires var t := Step(s, BeginScope(c, unit, mode)); Possible(t, run) && FreshIds(t, run) && Spares(run, c)
    ensures var t := After(Step(s, BeginScope(c, unit, mode)), run);
            && Enabled(t, End(c))
            && Step(t, End(c)).finished == t.finished +
                 [Job((s.queue.issued + 1) % 0x1_0000_0000, unit, mode, Completed, Some(Done))]
            && c !in Step(t, End(c)).calls
  {
    var t := Step(s, BeginScope(c, unit, mode));
    StepExact(s, BeginScope(c, unit, mode));
    ScopeBegun(s, c, unit, mode);
    CallStays(t, run, c);
    RunMatched(t, run);
    EndFinishes(After(t, run), c);
    EndsCall(After(t, run), c);
    hide Step, Enqueue, InFlight, Possible, FreshIds, Spares, SessionScope, After;
  }

  lemma ScopeBegun(s: System, c: CallId, unit: string, mode: string)
    requires Enabled(s, BeginScope(c, unit, mode))
    ensures var t := Step(s, BeginScope(c, unit, mode));
            c in t.calls
            && t.calls[c] == Finishing(Job((s.queue.issued + 1) % 0x1_0000_0000, unit, mode, Waiting, None), Done)
  {
  }

  lemma EndsCall(s: System, c: CallId)
    requires Enabled(s, End(c))
    ensures c !in Step(s, End(c)).calls
  {
  }

  /** A session scope is named `session-`, anything, and `.scope`. */
  lemma SessionScopeExact(name: string)
    ensures SessionScope(name) <==> exists middle :: name == "session-" + middle + ".scope"
  {
    if SessionScope(name) {
      var n := |name| - 6;
      assert name[n..][0] == '.' && name[..8] == "session-";
      assert forall i | 0 <= i < 8 :: name[i] != '.';
      assert name == name[..8] + name[8..n] + name[n..];
    }
    if middle :| name == "session-" + middle + ".scope" {
      assert name == "session-" + (middle + ".scope");
    }
  }

  lemma {:induction false} RunMatched(s: System, run: seq<Section>)
    requires InFlight(s) && Possible(s, run) && FreshIds(s, run)
    ensures InFlight(After(s, run))
    decreases |run|
  {
    if run == [] {
    } else {
      StepExact(s, run[0]);
      RunMatched(Step(s, run[0]), run[1..]);
    }
  }

  /** The history is the latest finishes. */
  ghost predicate HistoryKept(s: System) {
    s.queue.history == LastJobs(s.finished, MAX_HISTORY)
  }

  lemma StepHistory(s: System, x: Section)
    requires HistoryKept(s) && Enabled(s, x)
    ensures HistoryKept(Step(s, x))
  {
  }

  /** Every job issued is either active or finished. */
  ghost predicate Accounted(s: System) {
    |s.finished| + |s.queue.active| == s.queue.issued
  }

  lemma EndFinishes(s: System, c: CallId)
    requires InFlight(s) && c in s.calls && s.calls[c].Finishing?
    ensures Step(s, End(c)).finished == s.finished + [s.calls[c].job.Complete(s.calls[c].result)]
  {
    FinishHitsOwn(s, c);
  }

  lemma StepAccounted(s: System, x: Section)
    requires InFlight(s) && Accounted(s) && Enabled(s, x)
    ensures Accounted(Step(s, x))
  {
    if x.End? {
      FinishHitsOwn(s, x.call);
    }
  }

  /** Any interleaving of any calls in which no id returns while its job is active. */
  lemma {:induction false} RunKeeps(s: System, run: seq<Section>)
    requires InFlight(s) && HistoryKept(s) && Accounted(s) && Possible(s, run) && FreshIds(s, run)
    ensures var t := After(s, run); InFlight(t) && HistoryKept(t) && Accounted(t)
    decreases |run|
  {
    if run == [] {
    } else {
      StepExact(s, run[0]);
      StepHistory(s, run[0]);
      StepAccounted(s, run[0]);
      RunKeeps(Step(s, run[0]), run[1..]);
    }
  }

  /** What holds after any interleaving of any calls in which no id returns while its job is active. */
  lemma InterleavingSafe(run: seq<Section>)
    requires Possible(IDLE, run) && FreshIds(IDLE, run)
    ensures var s := After(IDLE, run);
            && InFlight(s) && HistoryKept(s) && Accounted(s)
            && |s.queue.active| == |s.calls|
            && forall c | c in s.calls && s.calls[c].Finishing? ::
                 Step(s, End(c)).finished == s.finished + [s.calls[c].job.Complete(s.calls[c].result)]
  {
    RunKeeps(IDLE, run);
    var s := After(IDLE, run);
    AsManyAsCalls(s.queue.active, s.calls);
    forall c | c in s.calls && s.calls[c].Finishing?
      ensures Step(s, End(c)).finished == s.finished + [s.calls[c].job.Complete(s.calls[c].result)]
    {
      EndFinishes(s, c);
    }
  }

  lemma {:induction false} AsManyAsCalls(active: seq<Job>, calls: map<CallId, Phase>)
    requires Matched(active, calls)
    ensures |active| == |calls|
    decreases |active|
  {
    if active == [] {
      forall c ensures c !in calls.Keys {}
      assert calls.Keys == {};
    } else {
      assert OwnedBySome(calls, active[0]);
      var c :| c in calls && calls[c].job == active[0];
      MatchedWithout(active, calls, 0, c);
      AsManyAsCalls(Without(active, 0), calls - {c});
      OneFewer(calls, c);
    }
  }

  lemma OneFewer(calls: map<CallId, Phase>, c: CallId)
    requires c in calls
    ensures |calls| == |calls - {c}| + 1
  {
    assert calls.Keys == (calls - {c}).Keys + {c};
  }

  // ---- The id space -----------------------------------------------------------------------------------------

  predicate IssuedWithin(id: JobId, n: nat) {
    1 <= id <= n || (id == 0 && n >= ID_SPACE)
  }

  /** No two jobs ever issued share an id. */
  ghost predicate NoIdTwice(s: System) {
    && DistinctIds(s.finished) && DistinctIds(s.queue.active)
    && forall i, j | 0 <= i < |s.finished| && 0 <= j < |s.queue.active| :: s.finished[i].id != s.queue.active[j].id
  }

  ghost predicate IdsIssued(s: System) {
    && (forall i | 0 <= i < |s.queue.active| :: IssuedWithin(s.queue.active[i].id, s.queue.issued))
    && (forall i | 0 <= i < |s.finished| :: IssuedWithin(s.finished[i].id, s.queue.issued))
  }

  lemma NextIdFresh(n: nat, id: JobId)
    requires n < ID_SPACE
    ensures IssuedWithin(IdAfter(n), n + 1) && (IssuedWithin(id, n) ==> id != IdAfter(n) && IssuedWithin(id, n + 1))
  {
  }

  lemma EndIds(s: System, c: CallId)
    requires InFlight(s) && NoIdTwice(s) && IdsIssued(s) && c in s.calls && s.calls[c].Finishing?
    ensures NoIdTwice(Step(s, End(c))) && IdsIssued(Step(s, End(c)))
  {
    FinishHitsOwn(s, c);
    var t := Step(s, End(c));
    var jobs := s.queue.active;
    var p := Position(jobs, s.calls[c].job.id).value;
    WithoutDistinct(jobs, p);
    forall i, j | 0 <= i < |t.finished| && 0 <= j < |t.queue.active| ensures t.finished[i].id != t.queue.active[j].id {
      WithoutIndex(jobs, p, j);
    }
  }

  lemma BeginIds(s: System, x: Section)
    requires InFlight(s) && NoIdTwice(s) && IdsIssued(s) && Enabled(s, x) && Begins(x) && s.queue.issued < ID_SPACE
    ensures NoIdTwice(Step(s, x)) && IdsIssued(Step(s, x)) && NextIdFree(s.queue)
  {
    forall id: JobId { NextIdFresh(s.queue.issued, id); }
  }

  lemma {:induction false} IssuedGrows(s: System, run: seq<Section>)
    requires Possible(s, run)
    ensures s.queue.issued <= After(s, run).queue.issued
    decreases |run|
  {
    if run == [] {
    } else {
      IssuedGrows(Step(s, run[0]), run[1..]);
    }
  }

  lemma {:induction false} FewJobsFresh(s: System, run: seq<Section>)
    requires InFlight(s) && NoIdTwice(s) && IdsIssued(s) && Possible(s, run) && After(s, run).queue.issued <= ID_SPACE
    ensures FreshIds(s, run) && NoIdTwice(After(s, run))
    decreases |run|
  {
    if run == [] {
    } else {
      IssuedGrows(Step(s, run[0]), run[1..]);
      if Begins(run[0]) {
        BeginIds(s, run[0]);
      } else if run[0].End? {
        EndIds(s, run[0].call);
      }
      StepExact(s, run[0]);
      FewJobsFresh(Step(s, run[0]), run[1..]);
    }
  }

  lemma {:induction false} FewBelow(ids: set<nat>, n: nat)
    requires forall x | x in ids :: x < n
    ensures |ids| <= n
  {
    if n == 0 {
      assert ids == {};
    } else {
      FewBelow(ids - {n - 1}, n - 1);
    }
  }

  lemma {:induction false} CountIds(jobs: seq<Job>) returns (ids: set<nat>)
    requires DistinctIds(jobs)
    ensures |ids| == |jobs| && forall x :: x in ids <==> exists i :: 0 <= i < |jobs| && jobs[i].id == x
  {
    if jobs == [] {
      ids := {};
    } else {
      var n := |jobs| - 1;
      var front := CountIds(jobs[..n]);
      ids := front + {jobs[n].id};
    }
  }

  /** The first 2^32 jobs all have free ids; with any more, some id was issued twice. */
  lemma IdsDistinctExact(run: seq<Section>)
    requires Possible(IDLE, run)
    ensures After(IDLE, run).queue.issued <= ID_SPACE ==> FreshIds(IDLE, run)
    ensures FreshIds(IDLE, run) ==> (NoIdTwice(After(IDLE, run)) <==> After(IDLE, run).queue.issued <= ID_SPACE)
  {
    var s := After(IDLE, run);
    if s.queue.issued <= ID_SPACE {
      FewJobsFresh(IDLE, run);
    } else if FreshIds(IDLE, run) && NoIdTwice(s) {
      RunKeeps(IDLE, run);
      var ids := CountIds(s.finished + s.queue.active);
      FewBelow(ids, ID_SPACE);
    }
  }

  /** A long call next to n session-scope calls, one after the other. */
  function Churn(n: nat): seq<Section> {
    if n == 0 then [] else [BeginScope(1, "session-1.scope", "fail"), End(1)] + Churn(n - 1)
  }

  /** Only the long call is in flight, and n jobs were issued. */
  ghost predicate LongCall(s: System, n: nat) {
    s.queue.issued == n && s.queue.active == [LONG_JOB] && s.calls == map[0 := Working(LONG_JOB)]
  }

  const LONG_JOB := Job(1, "nginx", "replace", Waiting, None)

  lemma ScopeCall(s: System, n: nat)
    requires LongCall(s, n) && 1 <= n < ID_SPACE
    ensures var begin := BeginScope(1, "session-1.scope", "fail");
            && Enabled(s, begin) && NextIdFree(s.queue)
            && Enabled(Step(s, begin), End(1)) && LongCall(Step(Step(s, begin), End(1)), n + 1)
  {
    var t := Step(s, BeginScope(1, "session-1.scope", "fail"));
    assert t.queue.active == [LONG_JOB, t.calls[1].job];
    assert Position(t.queue.active, t.calls[1].job.id) == Some(1);
    assert Without(t.queue.active, 1) == [LONG_JOB];
    assert t.calls - {1} == s.calls;
  }

  lemma {:induction false} ChurnRuns(s: System, n: nat, m: nat)
    requires LongCall(s, n) && 1 <= n && n + m <= ID_SPACE
    ensures Possible(s, Churn(m)) && FreshIds(s, Churn(m)) && LongCall(After(s, Churn(m)), n + m)
    decreases m
  {
    if m == 0 {
    } else {
      ScopeCall(s, n);
      var t := Step(s, BeginScope(1, "session-1.scope", "fail"));
      ChurnRuns(Step(t, End(1)), n + 1, m - 1);
      assert Churn(m)[1..] == [End(1)] + Churn(m - 1) && Churn(m)[1..][1..] == Churn(m - 1);
      assert Possible(t, Churn(m)[1..]) && FreshIds(t, Churn(m)[1..]);
    }
  }

  /** A unit call takes so long that 2^32 - 1 scope calls come and go meanwhile. */
  function WrappingRun(n: nat): seq<Section> {
    [BeginUnit(0, LONG_JOB.unit, LONG_JOB.mode)] + Churn(n)
  }

  /** The failure is reached from the start: after 2^32 jobs the next call's finish completes the long call's job. */
  lemma WrappedIdFinishesOlder(n: nat, c: CallId, unit: string, mode: string)
    requires n + 1 == ID_SPACE && c > 0
    ensures Possible(IDLE, WrappingRun(n)) && FreshIds(IDLE, WrappingRun(n))
    ensures LongCall(After(IDLE, WrappingRun(n)), ID_SPACE)
    ensures var s := After(IDLE, WrappingRun(n));
            var t := Step(s, BeginUnit(c, unit, mode));
            && !NextIdFree(s.queue) && !InFlight(t)
            && Step(Step(t, Work(c, true)), End(c)).finished == s.finished + [LONG_JOB.Complete(Done)]
  {
    var run := WrappingRun(n);
    var first := Step(IDLE, run[0]);
    assert first.queue.active == [LONG_JOB];
    ChurnRuns(first, 1, n);
    assert run[1..] == Churn(n);
    assert Possible(first, run[1..]) && FreshIds(first, run[1..]);
    WrappedFinish(After(IDLE, run), c, unit, mode);
  }

  lemma WrappedFinish(s: System, c: CallId, unit: string, mode: string)
    requires LongCall(s, ID_SPACE) && c > 0
    ensures var t := Step(s, BeginUnit(c, unit, mode));
            && !NextIdFree(s.queue) && !InFlight(t)
            && Step(Step(t, Work(c, true)), End(c)).finished == s.finished + [LONG_JOB.Complete(Done)]
  {
    var t := Step(s, BeginUnit(c, unit, mode));
    assert t.queue.active == [LONG_JOB, t.calls[c].job] && t.queue.active[0].id == t.queue.active[1].id;
    assert Position(t.queue.active, LONG_JOB.id) == Some(0);
  }
}
