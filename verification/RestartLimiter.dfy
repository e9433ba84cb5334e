/** The sliding-window limiter on automatic restarts. */
module RestartLimiter {
  import opened Units

  const RESTART_BURST_MAX: nat := 5
  const RESTART_BURST_WINDOW: Time := 60_000_000_000

  type Table = map<string, seq<Time>>

  /** One call of the limiter. */
  datatype Request = Request(name: string, now: Time)

  /** A reading still inside the window; a reading ahead of `now` has age zero. */
  predicate Counts(t: Time, now: Time) {
    now < t + RESTART_BURST_WINDOW
  }

  function Prune(times: seq<Time>, now: Time): (kept: seq<Time>)
    ensures |kept| <= |times|
  {
    if times == [] then []
    else (if Counts(times[0], now) then [times[0]] else []) + Prune(times[1..], now)
  }

  function TimesOf(table: Table, name: string): seq<Time> {
    if name in table then table[name] else []
  }

  /** The decision, and the table after it. */
  function Decide(table: Table, r: Request): (bool, Table) {
    var kept := Prune(TimesOf(table, r.name), r.now);
    if |kept| >= RESTART_BURST_MAX then (false, table[r.name := kept])
    else (true, table[r.name := kept + [r.now]])
  }

  ghost function TableAfter(reqs: seq<Request>): Table {
    if reqs == [] then map[]
    else Decide(TableAfter(reqs[..|reqs| - 1]), reqs[|reqs| - 1]).1
  }

  ghost predicate Granted(reqs: seq<Request>, i: nat)
    requires i < |reqs|
  {
    Decide(TableAfter(reqs[..i]), reqs[i]).0
  }

  /** The times of all grants one name ever received, in order. */
  ghost function Grants(reqs: seq<Request>, name: string): seq<Time> {
    if reqs == [] then []
    else
      var n := |reqs| - 1;
      Grants(reqs[..n], name) + (if reqs[n].name == name && Granted(reqs, n) then [reqs[n].now] else [])
  }

  ghost predicate ClockNeverBack(reqs: seq<Request>) {
    forall i, j | 0 <= i < j < |reqs| :: reqs[i].now <= reqs[j].now
  }

  lemma {:induction false} PruneAppend(a: seq<Time>, b: seq<Time>, now: Time)
    ensures Prune(a + b, now) == Prune(a, now) + Prune(b, now)
  {
    if a == [] {
      assert a + b == b;
    } else {
      var head := if Counts(a[0], now) then [a[0]] else [];
      assert (a + b)[1..] == a[1..] + b;
      PruneAppend(a[1..], b, now);
      assert Prune(a + b, now) == head + (Prune(a[1..], now) + Prune(b, now));
    }
  }

  /** Pruning early loses nothing a later decision would count. */
  lemma {:induction false} PruneTwice(times: seq<Time>, now: Time, later: Time)
    requires now <= later
    ensures Prune(Prune(times, now), later) == Prune(times, later)
  {
    if times == [] {
    } else {
      PruneTwice(times[1..], now, later);
      var head := if Counts(times[0], now) then [times[0]] else [];
      PruneAppend(head, Prune(times[1..], now), later);
    }
  }

  /** What one more request adds to the stored list, and to the history of grants, looks the same later. */
  lemma PruningKeepsGrant(reqs: seq<Request>, now: Time)
    requires reqs != [] && reqs[|reqs| - 1].now <= now
    ensures var n := |reqs| - 1;
            var before, name := reqs[..n], reqs[n].name;
            Prune(TimesOf(TableAfter(before), name), now) == Prune(Grants(before, name), now)
            ==> Prune(TimesOf(TableAfter(reqs), name), now) == Prune(Grants(reqs, name), now)
  {
    var n := |reqs| - 1;
    var before, r := reqs[..n], reqs[n];
    var stored := TimesOf(TableAfter(before), r.name);
    PruneTwice(stored, r.now, now);
    if Granted(reqs, n) {
      PruneAppend(Prune(stored, r.now), [r.now], now);
      PruneAppend(Grants(before, r.name), [r.now], now);
      assert TimesOf(TableAfter(reqs), r.name) == Prune(stored, r.now) + [r.now];
    } else {
      assert TimesOf(TableAfter(reqs), r.name) == Prune(stored, r.now);
      assert Grants(reqs, r.name) == Grants(before, r.name);
    }
  }

  /** For every later decision the stored, pruned list stands for the whole history of grants. */
  lemma {:induction false} PruningLosesNothing(reqs: seq<Request>, name: string, now: Time)
    requires ClockNeverBack(reqs) && forall i | 0 <= i < |reqs| :: reqs[i].now <= now
    ensures Prune(TimesOf(TableAfter(reqs), name), now) == Prune(Grants(reqs, name), now)
  {
    if reqs == [] {
    } else {
      var n := |reqs| - 1;
      PruningLosesNothing(reqs[..n], name, now);
      if reqs[n].name == name {
        PruningKeepsGrant(reqs, now);
      } else {
        assert Grants(reqs, name) == Grants(reqs[..n], name);
      }
    }
  }

  lemma DecisionPrunes(reqs: seq<Request>, i: nat)
    requires ClockNeverBack(reqs) && i < |reqs|
    ensures Granted(reqs, i)
            <==> |Prune(Grants(reqs[..i], reqs[i].name), reqs[i].now)| < RESTART_BURST_MAX
  {
    PruningLosesNothing(reqs[..i], reqs[i].name, reqs[i].now);
  }

  /** Places of the readings that lie less than 60 seconds before `now`. */
  ghost function LastMinute(times: seq<Time>, now: Time): set<nat> {
    set i: nat | i < |times| && now - times[i] < 60 * 1_000_000_000
  }

  lemma {:induction false} PruneCounts(times: seq<Time>, now: Time)
    ensures |Prune(times, now)| == |LastMinute(times, now)|
  {
    if times == [] {
    } else {
      var n := |times| - 1;
      PruneCounts(times[..n], now);
      PruneAppend(times[..n], [times[n]], now);
      assert times == times[..n] + [times[n]];
      assert LastMinute(times, now)
          == LastMinute(times[..n], now) + (if now - times[n] < 60 * 1_000_000_000 then {n} else {});
      assert n !in LastMinute(times[..n], now);
    }
  }

  /** A request is granted exactly when fewer than five grants of its name are less than 60 seconds old. */
  lemma DecisionExact(reqs: seq<Request>, i: nat)
    requires ClockNeverBack(reqs) && i < |reqs|
    ensures Granted(reqs, i) <==> |LastMinute(Grants(reqs[..i], reqs[i].name), reqs[i].now)| < 5
  {
    DecisionPrunes(reqs, i);
    PruneCounts(Grants(reqs[..i], reqs[i].name), reqs[i].now);
  }

  lemma {:induction false} GrantsOrdered(reqs: seq<Request>, name: string)
    requires ClockNeverBack(reqs)
    ensures forall i, j | 0 <= i < j < |Grants(reqs, name)| :: Grants(reqs, name)[i] <= Grants(reqs, name)[j]
    ensures reqs != [] ==> forall j | 0 <= j < |Grants(reqs, name)| ::
              Grants(reqs, name)[j] <= reqs[|reqs| - 1].now
  {
    if reqs == [] {
    } else {
      var n := |reqs| - 1;
      GrantsOrdered(reqs[..n], name);
      forall j | 0 <= j < |Grants(reqs[..n], name)| ensures Grants(reqs[..n], name)[j] <= reqs[n].now {
        if n > 0 { assert reqs[n - 1].now <= reqs[n].now; }
      }
    }
  }

  lemma {:induction false} YoungTail(times: seq<Time>, now: Time, m: nat)
    requires m <= |times| && forall i | |times| - m <= i < |times| :: Counts(times[i], now)
    ensures |Prune(times, now)| >= m
  {
    if times == [] {
    } else {
      YoungTail(times[1..], now, if m < |times| then m else m - 1);
    }
  }

  /** Any six consecutive grants of one name span at least the window. */
  lemma {:induction false} SixGrantsSpanWindow(reqs: seq<Request>, name: string, i: nat)
    requires ClockNeverBack(reqs) && i + RESTART_BURST_MAX < |Grants(reqs, name)|
    ensures Grants(reqs, name)[i] + RESTART_BURST_WINDOW <= Grants(reqs, name)[i + RESTART_BURST_MAX]
  {
    var n := |reqs| - 1;
    var before := Grants(reqs[..n], name);
    if i + RESTART_BURST_MAX < |before| {
      SixGrantsSpanWindow(reqs[..n], name, i);
    } else {
      DecisionPrunes(reqs, n);
      GrantsOrdered(reqs[..n], name);
      if Counts(before[i], reqs[n].now) {
        YoungTail(before, reqs[n].now, RESTART_BURST_MAX);
      }
    }
  }

  /** The grants of a name at or after a given time, as far as the table still records them. */
  function Recent(times: seq<Time>, start: Time): (n: nat)
    ensures n <= |times|
  {
    if times == [] then 0
    else (if start <= times[0] then 1 else 0) + Recent(times[1..], start)
  }

  lemma {:induction false} RecentAppend(a: seq<Time>, b: seq<Time>, start: Time)
    ensures Recent(a + b, start) == Recent(a, start) + Recent(b, start)
  {
    if a == [] {
      assert a + b == b;
    } else {
      assert (a + b)[1..] == a[1..] + b;
      RecentAppend(a[1..], b, start);
    }
  }

  /** Within one window from `start`, pruning keeps every grant made since `start`. */
  lemma {:induction false} PruneKeepsRecent(times: seq<Time>, start: Time, now: Time)
    requires now < start + RESTART_BURST_WINDOW
    ensures Recent(Prune(times, now), start) == Recent(times, start)
  {
    if times == [] {
    } else {
      PruneKeepsRecent(times[1..], start, now);
      var head := if Counts(times[0], now) then [times[0]] else [];
      RecentAppend(head, Prune(times[1..], now), start);
    }
  }

  /** How many more restarts one name can be granted before the window from `start` has passed. */
  function Remaining(table: Table, name: string, start: Time): nat {
    var used := Recent(TimesOf(table, name), start);
    if used < RESTART_BURST_MAX then RESTART_BURST_MAX - used else 0
  }

  /** Inside the window a grant spends one of its name's remaining restarts, and a denial none. */
  lemma DecisionSpends(table: Table, r: Request, start: Time)
    requires start <= r.now < start + RESTART_BURST_WINDOW
    ensures var (granted, after) := Decide(table, r);
            Remaining(after, r.name, start) + (if granted then 1 else 0) == Remaining(table, r.name, start)
    ensures forall n | n != r.name :: Remaining(Decide(table, r).1, n, start) == Remaining(table, n, start)
  {
    var kept := Prune(TimesOf(table, r.name), r.now);
    PruneKeepsRecent(TimesOf(table, r.name), start, r.now);
    RecentAppend(kept, [r.now], start);
  }

  /** A window that begins at `start`, and `more` windows that follow it. */
  datatype Span = Span(start: Time, more: nat)

  function SpanEnd(s: Span): (end: Time)
    ensures end >= s.start + RESTART_BURST_WINDOW
    decreases s.more
  {
    if s.more == 0 then s.start + RESTART_BURST_WINDOW
    else SpanEnd(Span(s.start + RESTART_BURST_WINDOW, s.more - 1))
  }

  /** What is left of a span from the window on that a time lies in. */
  function SpanFrom(s: Span, now: Time): (t: Span)
    requires s.start <= now < SpanEnd(s)
    ensures t.start <= now < t.start + RESTART_BURST_WINDOW && SpanEnd(t) == SpanEnd(s)
    decreases s.more
  {
    if now < s.start + RESTART_BURST_WINDOW then s
    else SpanFrom(Span(s.start + RESTART_BURST_WINDOW, s.more - 1), now)
  }

  /** Going on to a later time from the window of an earlier one. */
  lemma {:induction false} SpanFromTwice(s: Span, first: Time, now: Time)
    requires s.start <= first < SpanEnd(s) && SpanFrom(s, first).start <= now < SpanEnd(s)
    ensures s.start <= now && SpanFrom(SpanFrom(s, first), now) == SpanFrom(s, now)
    decreases s.more
  {
    if first < s.start + RESTART_BURST_WINDOW {
    } else {
      SpanFromTwice(Span(s.start + RESTART_BURST_WINDOW, s.more - 1), first, now);
    }
  }

  /** How many more restarts one name can be granted before the span has passed. */
  function Budget(table: Table, name: string, s: Span): nat {
    Remaining(table, name, s.start) + s.more * RESTART_BURST_MAX
  }

  lemma {:induction false} BudgetShrinks(table: Table, name: string, s: Span, now: Time)
    requires s.start <= now < SpanEnd(s)
    ensures Budget(table, name, SpanFrom(s, now)) <= Budget(table, name, s)
    decreases s.more
  {
    if now < s.start + RESTART_BURST_WINDOW {
    } else {
      BudgetShrinks(table, name, Span(s.start + RESTART_BURST_WINDOW, s.more - 1), now);
    }
  }

  /** Over any number of windows every grant is paid from the budget of its name, and no decision raises a budget. */
  lemma DecisionSpendsBudget(table: Table, r: Request, s: Span, name: string)
    requires s.start <= r.now < SpanEnd(s)
    ensures var (granted, after) := Decide(table, r);
            Budget(after, name, SpanFrom(s, r.now)) + (if granted && r.name == name then 1 else 0)
            <= Budget(table, name, s)
  {
    var t := SpanFrom(s, r.now);
    BudgetShrinks(table, name, s, r.now);
    DecisionSpends(table, r, t.start);
    assert name != r.name ==> Remaining(Decide(table, r).1, name, t.start) == Remaining(table, name, t.start);
  }
}
