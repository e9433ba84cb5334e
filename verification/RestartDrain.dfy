/** The drain of the restart queue: what a sequence of its turns does, and how often it starts each name. */
module RestartDrain {
  import opened Units
  import opened Names
  import opened ForgeModel
  import opened Supervision
  import opened Keeping
  import RestartLimiter

  /** One turn of the drain: the clock reading, and what the environment decides if the unit is started. */
  datatype Turn = Turn(now: Time, w: World)

  ghost predicate Queued(f: Forge) {
    f.pendingRestarts != [] && Live(f.arena, f.pendingRestarts)
  }

  ghost predicate DrainStep(f: Forge, t: Turn, g: Forge) {
    Queued(f) && g == RestartNext(f, t.now, t.w)
  }

  /** The states of a drain, and its turns between them. */
  ghost predicate DrainTrace(states: seq<Forge>, turns: seq<Turn>) {
    |states| == |turns| + 1 && forall i | 0 <= i < |turns| :: DrainStep(states[i], turns[i], states[i + 1])
  }

  /** What a turn asks of the limiter. */
  ghost function RequestOf(f: Forge, t: Turn): RestartLimiter.Request
    requires Queued(f)
  {
    RestartLimiter.Request(f.arena[f.pendingRestarts[0]].name, t.now)
  }

  /** The turn starts a unit of that name. */
  ghost predicate StartsName(f: Forge, t: Turn, name: string) {
    Queued(f) && RequestOf(f, t).name == name && RestartLimiter.Decide(f.restartTimes, RequestOf(f, t)).0
  }

  /** How many turns of a drain start a unit of that name. */
  ghost function Starts(states: seq<Forge>, turns: seq<Turn>, name: string): nat
    requires |states| == |turns| + 1
    decreases |turns|
  {
    if turns == [] then 0
    else
      var m := |turns| - 1;
      Starts(states[..m + 1], turns[..m], name) + (if StartsName(states[m], turns[m], name) then 1 else 0)
  }

  /** The clock stays within the span, and never goes back to an earlier window of it. */
  ghost predicate WithinSpan(span: RestartLimiter.Span, turns: seq<Turn>) {
    forall i | 0 <= i < |turns| :: WithinAt(span, turns, i)
  }

  ghost predicate WithinAt(span: RestartLimiter.Span, turns: seq<Turn>, i: nat)
    requires i < |turns|
  {
    && span.start <= turns[i].now < RestartLimiter.SpanEnd(span)
    && (i > 0 && span.start <= turns[i - 1].now < RestartLimiter.SpanEnd(span) ==>
          RestartLimiter.SpanFrom(span, turns[i - 1].now).start <= turns[i].now)
  }

  /** What is left of the span when the turns are over. */
  ghost function SpanLeft(span: RestartLimiter.Span, turns: seq<Turn>): (left: RestartLimiter.Span)
    requires WithinSpan(span, turns)
    ensures RestartLimiter.SpanEnd(left) == RestartLimiter.SpanEnd(span)
  {
    if turns == [] then span
    else
      assert WithinAt(span, turns, |turns| - 1);
      RestartLimiter.SpanFrom(span, turns[|turns| - 1].now)
  }

  lemma SpanWhole(span: RestartLimiter.Span)
    ensures WithinSpan(span, []) && SpanLeft(span, []) == span
  {
  }

  lemma SpanNext(span: RestartLimiter.Span, turns: seq<Turn>, t: Turn)
    requires WithinSpan(span, turns)
    requires SpanLeft(span, turns).start <= t.now < RestartLimiter.SpanEnd(span)
    ensures WithinSpan(span, turns + [t])
    ensures SpanLeft(span, turns + [t]) == RestartLimiter.SpanFrom(SpanLeft(span, turns), t.now)
  {
    var more := turns + [t];
    if turns != [] {
      assert WithinAt(span, turns, |turns| - 1);
      RestartLimiter.SpanFromTwice(span, turns[|turns| - 1].now, t.now);
    }
    forall i | 0 <= i < |more| ensures WithinAt(span, more, i) {
      if i < |turns| { assert WithinAt(span, turns, i); }
    }
  }

  lemma SpanBefore(span: RestartLimiter.Span, turns: seq<Turn>)
    requires WithinSpan(span, turns) && turns != []
    ensures var m := |turns| - 1;
            && WithinSpan(span, turns[..m])
            && SpanLeft(span, turns[..m]).start <= turns[m].now < RestartLimiter.SpanEnd(span)
  {
    var m := |turns| - 1;
    forall i | 0 <= i < m ensures WithinAt(span, turns[..m], i) {
      assert WithinAt(span, turns, i);
    }
    assert WithinAt(span, turns, m);
    if m > 0 {
      assert WithinAt(span, turns, m - 1);
      assert turns[..m][m - 1] == turns[m - 1];
    }
  }

  /** A turn records in the restart history just what the limiter decided. */
  lemma DrainTimes(f: Forge, t: Turn, g: Forge)
    requires DrainStep(f, t, g)
    ensures g.restartTimes == RestartLimiter.Decide(f.restartTimes, RequestOf(f, t)).1
  {
    hide StartService;
    var k := f.pendingRestarts[0];
    var times := RestartLimiter.Decide(f.restartTimes, RequestOf(f, t)).1;
    StartTimes(f.(pendingRestarts := f.pendingRestarts[1..], restartTimes := times), k, t.w);
  }

  /** Every start in a drain is paid from the budget of its name. */
  lemma {:induction false} DrainPaid(states: seq<Forge>, turns: seq<Turn>, span: RestartLimiter.Span, name: string)
    requires DrainTrace(states, turns) && WithinSpan(span, turns)
    ensures Starts(states, turns, name)
            + RestartLimiter.Budget(states[|turns|].restartTimes, name, SpanLeft(span, turns))
            <= RestartLimiter.Budget(states[0].restartTimes, name, span)
    decreases |turns|
  {
    hide DrainStep;
    if turns == [] {
    } else {
      var m := |turns| - 1;
      SpanBefore(span, turns);
      assert DrainTrace(states[..m + 1], turns[..m]);
      DrainPaid(states[..m + 1], turns[..m], span, name);
      assert turns == turns[..m] + [turns[m]];
      SpanNext(span, turns[..m], turns[m]);
      TurnPaid(states[m], turns[m], states[m + 1], SpanLeft(span, turns[..m]), name);
    }
  }

  lemma TurnPaid(f: Forge, t: Turn, g: Forge, left: RestartLimiter.Span, name: string)
    requires DrainStep(f, t, g) && left.start <= t.now < RestartLimiter.SpanEnd(left)
    ensures RestartLimiter.Budget(g.restartTimes, name, RestartLimiter.SpanFrom(left, t.now))
            + (if StartsName(f, t, name) then 1 else 0)
            <= RestartLimiter.Budget(f.restartTimes, name, left)
  {
    hide RestartNext;
    DrainTimes(f, t, g);
    RestartLimiter.DecisionSpendsBudget(f.restartTimes, RequestOf(f, t), left, name);
  }

  /** In a drain over any number of windows no name is started more than five times a window. */
  lemma DrainBound(states: seq<Forge>, turns: seq<Turn>, span: RestartLimiter.Span, name: string)
    requires DrainTrace(states, turns) && WithinSpan(span, turns)
    ensures Starts(states, turns, name) <= RestartLimiter.Budget(states[0].restartTimes, name, span)
    ensures Starts(states, turns, name) <= RestartLimiter.RESTART_BURST_MAX * (span.more + 1)
  {
    DrainPaid(states, turns, span, name);
  }

  // ---- Why it ends ------------------------------------------------------------------------------------------

  function NamesOf(arena: seq<Unit>): (names: seq<string>)
    ensures |names| == |arena| && forall i | 0 <= i < |arena| :: names[i] == arena[i].name
  {
    seq(|arena|, i requires 0 <= i < |arena| => arena[i].name)
  }

  /** All restarts that could still be granted before the span has passed. */
  ghost function Allowance(names: seq<string>, table: RestartLimiter.Table, s: RestartLimiter.Span): nat {
    if names == [] then 0 else RestartLimiter.Budget(table, names[0], s) + Allowance(names[1..], table, s)
  }

  lemma {:induction false} AllowanceSpent(names: seq<string>, table: RestartLimiter.Table,
        r: RestartLimiter.Request, s: RestartLimiter.Span)
    requires s.start <= r.now < RestartLimiter.SpanEnd(s)
    ensures var (granted, after) := RestartLimiter.Decide(table, r);
            var t := RestartLimiter.SpanFrom(s, r.now);
            && Allowance(names, after, t) <= Allowance(names, table, s)
            && (granted && r.name in names ==> Allowance(names, after, t) < Allowance(names, table, s))
  {
    if names == [] {
    } else {
      AllowanceSpent(names[1..], table, r, s);
      RestartLimiter.DecisionSpendsBudget(table, r, s, names[0]);
      assert names == [names[0]] + names[1..];
    }
  }

  /** A turn spends allowance, or else shortens the queue. */
  ghost predicate Spent(names: seq<string>, f: Forge, s: RestartLimiter.Span, g: Forge, t: RestartLimiter.Span) {
    || Allowance(names, g.restartTimes, t) < Allowance(names, f.restartTimes, s)
    || (Allowance(names, g.restartTimes, t) == Allowance(names, f.restartTimes, s)
        && |g.pendingRestarts| < |f.pendingRestarts|)
  }

  lemma DrainMeasure(names: seq<string>, f: Forge, t: Turn, g: Forge, s: RestartLimiter.Span)
    requires DrainStep(f, t, g) && RequestOf(f, t).name in names
    requires s.start <= t.now < RestartLimiter.SpanEnd(s)
    ensures Spent(names, f, s, g, RestartLimiter.SpanFrom(s, t.now))
  {
    hide StartService;
    AllowanceSpent(names, f.restartTimes, RequestOf(f, t), s);
    DrainTimes(f, t, g);
  }

  lemma TurnKeeps(f: Forge, g: Forge, now: Time, w: World)
    requires Keeps(f, g) && g.pendingRestarts != []
    ensures Keeps(f, RestartNext(g, now, w))
  {
    var k := g.pendingRestarts[0];
    var times := RestartLimiter.Decide(g.restartTimes, RestartLimiter.Request(g.arena[k].name, now)).1;
    var h := g.(pendingRestarts := g.pendingRestarts[1..], restartTimes := times);
    SoundOfShape(g, h);
    StartSound(f, h, k, w);
  }

  lemma HeadNamed(f: Forge, g: Forge, t: Turn)
    requires Keeps(f, g) && g.pendingRestarts != []
    ensures Queued(g) && RequestOf(g, t).name in NamesOf(f.arena)
  {
    var k := g.pendingRestarts[0];
    assert SameUnit(f.arena[k], g.arena[k]);
    assert NamesOf(f.arena)[k] == g.arena[k].name;
  }
}
