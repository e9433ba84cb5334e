/** The scheduler's state as a value, what keeps it consistent, and the graphs that its searches follow. */
module ForgeModel {
  import opened Units
  import opened Names
  import opened Graphs
  import RestartLimiter
  import Runlevels

  /** The fields of the scheduler. `reverse` is the source's `reverse_dependencies`. */
  datatype Forge = Forge(
    arena: seq<Unit>,
    nameIndex: map<string, UnitKey>,
    pidIndex: map<Pid, UnitKey>,
    providesIndex: map<string, UnitKey>,
    activeUnits: set<UnitKey>,
    requiredUnits: set<UnitKey>,
    reverse: map<UnitKey, seq<UnitKey>>,
    pendingRestarts: seq<UnitKey>,
    restartTimes: RestartLimiter.Table,
    activeTarget: string,
    shuttingDown: bool,
    bootLenient: bool,
    strictBoot: bool)

  const EMPTY := Forge([], map[], map[], map[], {}, {}, map[], [], map[], "", false, false, false)

  /** A unit by its real name, else by a virtual name it provides. */
  function Lookup(f: Forge, name: string): Option<UnitKey> {
    if name in f.nameIndex then Some(f.nameIndex[name])
    else if name in f.providesIndex then Some(f.providesIndex[name])
    else None
  }

  function LookupReal(f: Forge, name: string): Option<UnitKey> {
    if name in f.nameIndex then Some(f.nameIndex[name]) else None
  }

  /** The slot that records a service's running process. */
  function Slot(u: Unit): Option<Pid> {
    if u.kind.Service? then u.kind.pid else None
  }

  /** Unit names and the name index are inverse to each other. */
  ghost predicate NamesBijective(f: Forge) {
    && (forall n | n in f.nameIndex :: f.nameIndex[n] < |f.arena| && f.arena[f.nameIndex[n]].name == n)
    && (forall k | 0 <= k < |f.arena| :: f.arena[k].name in f.nameIndex && f.nameIndex[f.arena[k].name] == k)
  }

  /** Every key held in an index, set, queue or list names a unit of the arena. */
  ghost predicate KeysLive(f: Forge) {
    && (forall n | n in f.providesIndex :: f.providesIndex[n] < |f.arena|)
    && (forall p | p in f.pidIndex :: f.pidIndex[p] < |f.arena|)
    && (forall k | k in f.activeUnits :: k < |f.arena|)
    && (forall k | k in f.requiredUnits :: k < |f.arena|)
    && (forall k | k in f.reverse :: Live(f.arena, f.reverse[k]))
    && Live(f.arena, f.pendingRestarts)
    && (forall k | 0 <= k < |f.arena| :: Live(f.arena, f.arena[k].dependencies))
  }

  /** Targets order nothing: they never carry dependencies. */
  ghost predicate TargetsFree(f: Forge) {
    forall k | 0 <= k < |f.arena| && f.arena[k].kind.Target? :: f.arena[k].dependencies == []
  }

  ghost predicate Sound(f: Forge) {
    NamesBijective(f) && KeysLive(f) && TargetsFree(f)
  }

  lemma SoundNames(f: Forge)
    requires NamesBijective(f)
    ensures DistinctNames(f.arena)
  {
  }

  /** The process recorded for a service is indexed to that service. */
  ghost predicate SlotsIndexed(f: Forge) {
    forall k | 0 <= k < |f.arena| :: SlotIndexed(f, k)
  }

  ghost predicate SlotIndexed(f: Forge, k: UnitKey)
    requires k < |f.arena|
  {
    Slot(f.arena[k]).Some? ==>
      Slot(f.arena[k]).value in f.pidIndex && f.pidIndex[Slot(f.arena[k]).value] == k
  }

  // ---- Activation -------------------------------------------------------------------------------------------

  /** Names a unit pulls in and cannot do without. */
  function ClosureNeeds(kind: Kind): seq<string> {
    match kind
    case Target(needs, _) => needs
    case Service(_, needs, _, _, _, _, _, _) => needs
    case Socket(Some(service), _, _) => [service]
    case _ => []
  }

  /** Names a unit pulls in if they exist. */
  function ClosureWants(kind: Kind): seq<string> {
    match kind
    case Target(_, wants) => wants
    case Service(_, _, wants, _, _, _, _, _) => wants
    case Device(service, _, _) => [service]
    case _ => []
  }

  function Resolved(f: Forge, names: seq<string>): (keys: seq<UnitKey>)
    ensures Sound(f) ==> Live(f.arena, keys)
    ensures forall d :: d in keys <==> exists n :: n in names && Lookup(f, n) == Some(d)
  {
    if names == [] then []
    else
      var n := |names| - 1;
      var front := Resolved(f, names[..n]);
      assert names == names[..n] + [names[n]];
      match Lookup(f, names[n])
      case Some(d) => front + [d]
      case None => front
  }

  lemma ResolvedNext(f: Forge, names: seq<string>, i: nat)
    requires i < |names|
    ensures Resolved(f, names[..i + 1]) == Resolved(f, names[..i]) +
              match Lookup(f, names[i])
              case Some(d) => [d]
              case None => []
  {
    assert names[..i + 1][..i] == names[..i];
  }

  function ResolvedReal(f: Forge, names: seq<string>): (keys: seq<UnitKey>)
    ensures Sound(f) ==> Live(f.arena, keys)
    ensures forall d :: d in keys <==> exists n :: n in names && LookupReal(f, n) == Some(d)
  {
    if names == [] then []
    else
      var n := |names| - 1;
      var front := ResolvedReal(f, names[..n]);
      assert names == names[..n] + [names[n]];
      match LookupReal(f, names[n])
      case Some(d) => front + [d]
      case None => front
  }

  /** Requires, wants, socket-service and device-service edges. */
  ghost function ClosureGraph(f: Forge): Graph {
    seq(|f.arena|, k requires 0 <= k < |f.arena| =>
      Resolved(f, ClosureNeeds(f.arena[k].kind)) + Resolved(f, ClosureWants(f.arena[k].kind)))
  }

  function SocketNames(kind: Kind): seq<string> {
    if kind.Service? then kind.sockets else []
  }

  /** Edges from a service to the units its `sockets` names. */
  ghost function SocketGraph(f: Forge): Graph {
    seq(|f.arena|, k requires 0 <= k < |f.arena| => ResolvedReal(f, SocketNames(f.arena[k].kind)))
  }

  /** Requires and socket-service edges through real names only. */
  ghost function RequireGraph(f: Forge): Graph {
    seq(|f.arena|, k requires 0 <= k < |f.arena| => ResolvedReal(f, ClosureNeeds(f.arena[k].kind)))
  }

  /** Nothing answers to one of the names. */
  ghost predicate AnyMissing(f: Forge, names: seq<string>) {
    exists i :: 0 <= i < |names| && Lookup(f, names[i]) == None
  }

  lemma NoneMissing(f: Forge, names: seq<string>)
    ensures !AnyMissing(f, names[..0])
  {
  }

  lemma MissingNext(f: Forge, names: seq<string>, i: nat)
    requires i < |names|
    ensures AnyMissing(f, names[..i + 1]) <==> AnyMissing(f, names[..i]) || Lookup(f, names[i]) == None
    ensures Lookup(f, names[i]) == None ==> AnyMissing(f, names)
  {
    var more := names[..i + 1];
    assert more[i] == names[i];
    if j :| 0 <= j < |more| && Lookup(f, more[j]) == None && j < i { assert names[..i][j] == more[j]; }
    if j :| 0 <= j < i && Lookup(f, names[..i][j]) == None { assert more[j] == names[..i][j]; }
  }

  /** A unit that names something unresolvable as required. */
  ghost predicate NeedsMissing(f: Forge, k: UnitKey)
    requires k < |f.arena|
  {
    AnyMissing(f, ClosureNeeds(f.arena[k].kind))
  }

  /** The units a target activates, before the runlevel filter. */
  ghost function Activated(f: Forge, target: UnitKey): set<UnitKey> {
    ReachSet(SocketGraph(f), ReachSet(ClosureGraph(f), {target}))
  }

  predicate EnabledAt(f: Forge, db: Runlevels.Markers, level: string, k: UnitKey)
    requires k < |f.arena|
  {
    var u := f.arena[k];
    u.kind.Service? ==> Runlevels.Enabled(db, u.name, level, u.kind.runlevels)
  }

  /** In a seeded marker database only services enabled at the target's runlevel stay active. */
  ghost function Filtered(f: Forge, db: Runlevels.Markers, units: set<UnitKey>): set<UnitKey>
    requires forall k | k in units :: k < |f.arena|
  {
    if !db.seeded then units
    else set k | k in units && EnabledAt(f, db, Runlevels.TargetToRunlevel(f.activeTarget), k)
  }

  // ---- Ordering ---------------------------------------------------------------------------------------------

  function After(kind: Kind): seq<string> {
    if kind.Target? then [] else kind.after
  }

  /** Hard requirements also order, except those already listed. */
  function Ordering(kind: Kind): (names: seq<string>)
    ensures forall n :: n in names <==> n in After(kind) || (kind.Service? && n in kind.needs)
  {
    if kind.Service? then AppendNew(kind.after, kind.needs) else After(kind)
  }

  function AppendNew(base: seq<string>, more: seq<string>): (names: seq<string>)
    ensures forall n :: n in names <==> n in base || n in more
  {
    if more == [] then base
    else
      var m := |more| - 1;
      var front := AppendNew(base, more[..m]);
      assert more == more[..m] + [more[m]];
      if more[m] in front then front else front + [more[m]]
  }

  /** What a resolved name orders against: active units other than targets. */
  predicate Orders(f: Forge, d: UnitKey) {
    d < |f.arena| && d in f.activeUnits && !f.arena[d].kind.Target?
  }

  /** The dependency list resolution computes, entry by entry, unresolved names skipped. */
  function DependencyList(f: Forge, names: seq<string>): (deps: seq<UnitKey>)
    ensures forall d :: d in deps <==> Orders(f, d) && exists n :: n in names && Lookup(f, n) == Some(d)
    ensures Live(f.arena, deps)
  {
    if names == [] then []
    else
      var n := |names| - 1;
      var front := DependencyList(f, names[..n]);
      assert names == names[..n] + [names[n]];
      match Lookup(f, names[n])
      case Some(d) => if Orders(f, d) then front + [d] else front
      case None => front
  }

  ghost predicate OrdersMissing(f: Forge, k: UnitKey)
    requires k < |f.arena|
  {
    AnyMissing(f, Ordering(f.arena[k].kind))
  }

  /** Forward lists as a graph. */
  ghost function DependencyGraph(f: Forge): Graph {
    seq(|f.arena|, k requires 0 <= k < |f.arena| => f.arena[k].dependencies)
  }

  ghost function Dependents(reverse: map<UnitKey, seq<UnitKey>>, d: UnitKey): seq<UnitKey> {
    if d in reverse then reverse[d] else []
  }

  /** How often unit k lists d, if k is active. */
  ghost function Uses(f: Forge, k: UnitKey, d: UnitKey): nat {
    if k < |f.arena| && k in f.activeUnits then multiset(f.arena[k].dependencies)[d] else 0
  }

  /** The reverse index is the multiset transpose of the active units' dependency lists. */
  ghost predicate ReverseExact(f: Forge) {
    forall d: UnitKey, k: UnitKey :: multiset(Dependents(f.reverse, d))[k] == Uses(f, k, d)
  }

  /** The state that a successful resolution leaves. */
  ghost predicate FreshlyResolved(f: Forge) {
    && ReverseExact(f)
    && forall k | k in f.activeUnits && k < |f.arena| ::
         f.arena[k].dependencies == DependencyList(f, Ordering(f.arena[k].kind))
  }

  ghost function BootableSet(f: Forge): set<UnitKey> {
    set k | k in f.activeUnits && k < |f.arena| && f.arena[k].kind.Bootable()
  }

  /** Starting and stopping units changes neither the graph nor anything the schedule reads, and unmounts nothing. */
  ghost predicate SameShape(f: Forge, g: Forge) {
    && |f.arena| == |g.arena|
    && f.nameIndex == g.nameIndex && f.providesIndex == g.providesIndex
    && f.activeUnits == g.activeUnits && f.requiredUnits == g.requiredUnits && f.reverse == g.reverse
    && f.activeTarget == g.activeTarget && f.bootLenient == g.bootLenient && f.strictBoot == g.strictBoot
    && forall k | 0 <= k < |f.arena| :: SameUnit(f.arena[k], g.arena[k])
  }

  ghost predicate SameUnit(u: Unit, v: Unit) {
    && u.name == v.name && u.dependencies == v.dependencies && u.kind.Static() == v.kind.Static()
    && (u.kind.Settled() ==> v.kind.Settled())
  }
}
