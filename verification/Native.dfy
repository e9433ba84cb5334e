/** Loading native unit files: registration in path order, and the `before` edges applied afterwards. */
module Native {
  import opened Units
  import opened ForgeModel
  import opened Supervision
  import opened Keeping
  import opened BootLog
  import opened Schedules
  import opened ForgeStates
  import opened Guarantees
  import opened Runs
  import opened Runlevels

  /** A parsed unit file. `loadable` is false when a command line or environment file in it cannot be read. */
  datatype NativeUnit =
    | NativeService(name: string, kind: Kind, virtuals: seq<string>, before: seq<string>, loadable: bool)
    | NativeOther(name: string, kind: Kind)

  /** What reading one file gave. */
  datatype NativeFile = Unreadable | Parsed(unit: NativeUnit)

  datatype Edge = Edge(first: string, unit: string)

  /** A load succeeds, or stops at the first problem, or, leniently, skips problems and counts them. */
  datatype LoadResult = Loaded | Stopped | Skipped(errors: nat)

  /** Edge e comes from the `before` list of a service among the files. */
  ghost predicate Declares(files: seq<NativeFile>, e: Edge) {
    exists i :: 0 <= i < |files| && DeclaresAt(files[i], e)
  }

  ghost predicate DeclaresAt(file: NativeFile, e: Edge) {
    file.Parsed? && file.unit.NativeService? && file.unit.name == e.first && e.unit in file.unit.before
  }

  function EdgesOf(u: NativeUnit): (edges: seq<Edge>)
    ensures u.NativeService? ==> forall t :: t in u.before <==> Edge(u.name, t) in edges
    ensures forall e | e in edges :: u.NativeService? && e.first == u.name
  {
    if u.NativeService? then EdgesTo(u.name, u.before) else []
  }

  function EdgesTo(first: string, units: seq<string>): (edges: seq<Edge>)
    ensures forall t :: t in units <==> Edge(first, t) in edges
    ensures forall e | e in edges :: e.first == first
  {
    if units == [] then []
    else
      assert units == [units[0]] + units[1..];
      [Edge(first, units[0])] + EdgesTo(first, units[1..])
  }

  ghost predicate Applied(f: Forge, edges: seq<Edge>) {
    forall i | 0 <= i < |edges| && edges[i].unit in f.nameIndex :: OrderedBehind(f, edges[i].first, edges[i].unit)
  }

  /** The file was read, and what its unit refers to can be read too. */
  predicate Good(file: NativeFile) {
    file.Parsed? && (file.unit.NativeService? ==> file.unit.loadable)
  }

  /** The file was read and its unit's name is registered. */
  ghost predicate Known(f: Forge, file: NativeFile) {
    file.Parsed? && file.unit.name in f.nameIndex
  }

  /** The state once a file's unit is registered, or refused. */
  ghost function Taken(f: Forge, file: NativeFile): Forge {
    if Good(file) then Register(f, file.unit.name, file.unit.kind, VirtualsOf(file.unit)).0 else f
  }

  function VirtualsOf(u: NativeUnit): seq<string> {
    if u.NativeService? then u.virtuals else []
  }

  /** The file's unit is registered by its own name and, for a service, its virtual names. */
  ghost predicate Takes(f: Forge, file: NativeFile, g: Forge) {
    file.Parsed? && exists k :: Registers(f, file.unit.name, file.unit.kind, VirtualNames(file.unit), g, k)
  }

  lemma TakenTakes(f: Forge, file: NativeFile)
    requires Good(file)
    ensures Takes(f, file, Taken(f, file))
  {
    RegisterExact(f, file.unit.name, file.unit.kind, VirtualsOf(file.unit));
    hide Register, Registers;
    assert VirtualsOf(file.unit) == VirtualNames(file.unit);
  }

  ghost function VirtualNames(u: NativeUnit): seq<string> {
    match u
    case NativeService(_, _, virtuals, _, _) => virtuals
    case NativeOther(_, _) => []
  }

  /** Registers one file's unit; a service with an unreadable command is refused, which changes nothing. */
  method RegisterNative(state: ForgeState, file: NativeFile) returns (ok: bool)
    requires Sound(state.View())
    modifies state
    ensures Sound(state.View()) && Extends(old(state.View()), state.View())
    ensures state.View() == Taken(old(state.View()), file)
    ensures ok <==> Good(file)
    ensures if ok then Takes(old(state.View()), file, state.View()) else state.View() == old(state.View())
    ensures ok ==> Known(state.View(), file)
  {
    ghost var f := state.View();
    ShapeRefl(f);
    ShapeExtends(f, f);
    if !Good(file) {
      return false;
    }
    var virtuals := VirtualsOf(file.unit);
    RegisterKeeps(f, file.unit.name, file.unit.kind, virtuals);
    TakenTakes(f, file);
    hide Takes;
    var key := state.RegisterUnit(file.unit.name, file.unit.kind, virtuals);
    assert state.arena[key].name == file.unit.name;
    ok := true;
  }

  /** Applies the collected edges in order; an unknown unit is an error. */
  method ApplyEdges(state: ForgeState, edges: seq<Edge>, lenient: bool) returns (errors: nat, stopped: bool)
    requires Sound(state.View())
    modifies state
    ensures Sound(state.View()) && Extends(old(state.View()), state.View())
    ensures state.nameIndex == old(state.nameIndex)
    ensures !stopped ==> Applied(state.View(), edges)
    ensures !stopped ==> (errors == 0 <==> AllKnown(old(state.View()), edges))
    ensures stopped <==> !lenient && !AllKnown(old(state.View()), edges)
  {
    errors, stopped := 0, false;
    ghost var f := state.View();
    ShapeRefl(f);
    ShapeExtends(f, f);
    for i := 0 to |edges|
      invariant Sound(state.View()) && Extends(f, state.View()) && state.nameIndex == f.nameIndex
      invariant Applied(state.View(), edges[..i])
      invariant errors == 0 || !lenient ==> AllKnown(f, edges[..i])
      invariant errors > 0 ==> !AllKnown(f, edges)
    {
      var ok := ApplyEdge(state, f, edges, i);
      KnownEdges(f, edges, i);
      if !ok {
        if !lenient {
          stopped := true;
          return;
        }
        errors := errors + 1;
      }
    }
    assert edges[..|edges|] == edges;
  }

  ghost predicate AllKnown(f: Forge, edges: seq<Edge>) {
    forall i | 0 <= i < |edges| :: edges[i].unit in f.nameIndex
  }

  lemma KnownEdges(f: Forge, edges: seq<Edge>, i: nat)
    requires i < |edges|
    ensures AllKnown(f, edges[..i]) && edges[i].unit in f.nameIndex ==> AllKnown(f, edges[..i + 1])
    ensures edges[i].unit !in f.nameIndex ==> !AllKnown(f, edges)
  {
    assert edges[..i + 1] == edges[..i] + [edges[i]];
  }

  method ApplyEdge(state: ForgeState, ghost f: Forge, edges: seq<Edge>, i: nat) returns (ok: bool)
    requires Sound(state.View()) && Extends(f, state.View()) && state.nameIndex == f.nameIndex
    requires i < |edges| && Applied(state.View(), edges[..i])
    modifies state
    ensures Sound(state.View()) && Extends(f, state.View()) && state.nameIndex == f.nameIndex
    ensures Applied(state.View(), edges[..i + 1])
    ensures ok <==> edges[i].unit in f.nameIndex
  {
    ghost var g := state.View();
    OrderKeeps(g, edges[i].unit, edges[i].first);
    OrderRecords(g, edges[i].first, edges[i].unit);
    var r := state.PrependOrdering(edges[i].unit, edges[i].first);
    ExtendsTrans(f, g, state.View());
    AppliedFurther(g, state.View(), edges, i);
    ok := r.Ok?;
  }

  lemma OrderRecords(f: Forge, first: string, t: string)
    requires Sound(f)
    ensures var (g, r) := PrependOrdering(f, t, first);
            (r.Ok? <==> t in f.nameIndex) && g.nameIndex == f.nameIndex && (r.Ok? ==> OrderedBehind(g, first, t))
  {
    if t in f.nameIndex {
      OrderedDefinition(f.arena[f.nameIndex[t]], first);
    }
  }

  lemma AppliedFurther(f: Forge, g: Forge, edges: seq<Edge>, i: nat)
    requires Extends(f, g) && Sound(g) && g.nameIndex == f.nameIndex && i < |edges| && Applied(f, edges[..i])
    requires edges[i].unit in f.nameIndex ==> OrderedBehind(g, edges[i].first, edges[i].unit)
    ensures Applied(g, edges[..i + 1])
  {
    var more := edges[..i + 1];
    forall j | 0 <= j < |more| && more[j].unit in g.nameIndex ensures OrderedBehind(g, more[j].first, more[j].unit) {
      if j < i {
        assert edges[..i][j] == edges[j];
        OrderedBehindStays(f, g, edges[j].first, edges[j].unit);
      }
    }
  }

  ghost predicate AllGood(files: seq<NativeFile>) {
    forall i | 0 <= i < |files| :: Good(files[i])
  }

  /** The names of the units that the files add. */
  ghost function GoodNames(files: seq<NativeFile>): set<string> {
    set i | 0 <= i < |files| && Good(files[i]) :: files[i].unit.name
  }

  lemma RegisterNames(f: Forge, name: string, kind: Kind, virtuals: seq<string>)
    ensures Register(f, name, kind, virtuals).0.nameIndex.Keys == f.nameIndex.Keys + {name}
  {
    hide Claim;
    var g := InsertUnit(f, name, kind).0;
    assert g.nameIndex == if name in f.nameIndex then f.nameIndex else f.nameIndex[name := |f.arena|];
    assert Register(f, name, kind, virtuals).0.nameIndex == g.nameIndex;
  }

  lemma TakenNames(f: Forge, file: NativeFile)
    ensures Taken(f, file).nameIndex.Keys == f.nameIndex.Keys + (if Good(file) then {file.unit.name} else {})
  {
    hide Register;
    if Good(file) {
      RegisterNames(f, file.unit.name, file.unit.kind, VirtualsOf(file.unit));
    }
  }

  lemma GoodNamesNext(files: seq<NativeFile>, i: nat)
    requires i < |files|
    ensures GoodNames(files[..i + 1])
         == GoodNames(files[..i]) + (if Good(files[i]) then {files[i].unit.name} else {})
  {
    var more := files[..i + 1];
    assert more[i] == files[i];
    forall j | 0 <= j < i ensures more[j] == files[..i][j] == files[j] {}
    forall n | n in GoodNames(more) ensures n in GoodNames(files[..i]) || (Good(files[i]) && n == files[i].unit.name) {
      var j :| 0 <= j < |more| && Good(more[j]) && more[j].unit.name == n;
      if j < i { assert Good(files[..i][j]); }
    }
    forall n | n in GoodNames(files[..i]) ensures n in GoodNames(more) {
      var j :| 0 <= j < i && Good(files[..i][j]) && files[..i][j].unit.name == n;
      assert Good(more[j]);
    }
    if Good(files[i]) { assert Good(more[i]); }
  }

  /** The units of the first files are registered on top of f, and their virtual names are claimed. */
  ghost predicate Registered(f: Forge, g: Forge, files: seq<NativeFile>) {
    && Sound(g) && Extends(f, g) && g.nameIndex.Keys == f.nameIndex.Keys + GoodNames(files)
    && VirtualsClaimed(g, files)
  }

  ghost predicate VirtualsClaimed(f: Forge, files: seq<NativeFile>) {
    forall i, v | 0 <= i < |files| && Good(files[i]) && v in VirtualNames(files[i].unit) :: v in f.providesIndex
  }

  lemma VirtualsClaimedNext(g: Forge, h: Forge, files: seq<NativeFile>, i: nat)
    requires i < |files| && VirtualsClaimed(g, files[..i]) && Extends(g, h)
    requires Good(files[i]) ==> Takes(g, files[i], h)
    ensures VirtualsClaimed(h, files[..i + 1])
  {
    var more := files[..i + 1];
    forall j, v | 0 <= j < |more| && Good(more[j]) && v in VirtualNames(more[j].unit) ensures v in h.providesIndex {
      if j < i { assert more[j] == files[..i][j]; }
    }
  }

  lemma RegisteredNext(f: Forge, g: Forge, h: Forge, files: seq<NativeFile>, i: nat)
    requires i < |files| && Registered(f, g, files[..i]) && h == Taken(g, files[i]) && Sound(h) && Extends(g, h)
    requires Good(files[i]) ==> Takes(g, files[i], h)
    ensures Registered(f, h, files[..i + 1])
  {
    VirtualsClaimedNext(g, h, files, i);
    hide VirtualsClaimed, Takes;
    TakenNames(g, files[i]);
    GoodNamesNext(files, i);
    ExtendsTrans(f, g, h);
  }

  /** Registers the units file by file; a refused service's edges are collected all the same. */
  method RegisterFiles(state: ForgeState, files: seq<NativeFile>, lenient: bool)
    returns (edges: seq<Edge>, errors: nat, stopped: bool)
    requires Sound(state.View())
    modifies state
    ensures Sound(state.View()) && Extends(old(state.View()), state.View())
    ensures stopped <==> !lenient && !AllGood(files)
    ensures !stopped ==> Collected(files, edges) && Registered(old(state.View()), state.View(), files)
    ensures !stopped ==> (errors == 0 <==> AllGood(files))
  {
    hide Collected, AllGood, Good, Extends;
    edges, errors, stopped := [], 0, false;
    ghost var f := state.View();
    ShapeRefl(f);
    ShapeExtends(f, f);
    NoFiles();
    for i := 0 to |files|
      invariant Registered(f, state.View(), files[..i])
      invariant Collected(files[..i], edges)
      invariant errors == 0 <==> AllGood(files[..i])
      invariant !lenient ==> errors == 0
    {
      edges := CollectEdges(edges, files, i);
      ghost var g := state.View();
      GoodNext(files, i);
      var ok := RegisterNative(state, files[i]);
      RegisteredNext(f, g, state.View(), files, i);
      if !ok {
        if !lenient {
          stopped := true;
          return;
        }
        errors := errors + 1;
      }
    }
    assert files[..|files|] == files;
  }

  lemma NoFiles()
    ensures Collected([], []) && AllGood([])
  {
  }

  lemma GoodNext(files: seq<NativeFile>, i: nat)
    requires i < |files|
    ensures AllGood(files[..i + 1]) <==> AllGood(files[..i]) && Good(files[i])
    ensures !Good(files[i]) ==> !AllGood(files)
  {
    assert files[..i + 1] == files[..i] + [files[i]];
  }

  /** The edges are exactly those the files declare. */
  ghost predicate Collected(files: seq<NativeFile>, edges: seq<Edge>) {
    forall e :: e in edges <==> Declares(files, e)
  }

  /** Collects the edges of one more file. */
  method CollectEdges(edges: seq<Edge>, files: seq<NativeFile>, i: nat) returns (more: seq<Edge>)
    requires i < |files| && Collected(files[..i], edges)
    ensures Collected(files[..i + 1], more)
  {
    DeclaresFurther(files, i);
    more := edges + (if files[i].Parsed? then EdgesOf(files[i].unit) else []);
  }

  lemma DeclaresFurther(files: seq<NativeFile>, i: nat)
    requires i < |files|
    ensures forall e :: Declares(files[..i + 1], e) <==> Declares(files[..i], e) || DeclaresAt(files[i], e)
    ensures forall e :: DeclaresAt(files[i], e) <==> files[i].Parsed? && e in EdgesOf(files[i].unit)
  {
    forall e ensures Declares(files[..i + 1], e) <==> Declares(files[..i], e) || DeclaresAt(files[i], e) {
      if DeclaresAt(files[i], e) { assert files[..i + 1][i] == files[i]; }
      if j :| 0 <= j < i && DeclaresAt(files[..i][j], e) { assert files[..i + 1][j] == files[..i][j]; }
      var more := files[..i + 1];
      if j :| 0 <= j < |more| && DeclaresAt(more[j], e) { assert j < i ==> files[..i][j] == files[j]; }
    }
    forall e ensures DeclaresAt(files[i], e) <==> files[i].Parsed? && e in EdgesOf(files[i].unit) {
      assert e == Edge(e.first, e.unit);
    }
  }

  /** Every file can be registered, and every edge ends at a unit that is known then. */
  ghost predicate Loadable(f: Forge, files: seq<NativeFile>) {
    && AllGood(files)
    && forall e | Declares(files, e) :: e.unit in f.nameIndex.Keys + GoodNames(files)
  }

  /** Every declared edge to a known unit is recorded. */
  ghost predicate EdgesRecorded(f: Forge, files: seq<NativeFile>) {
    forall e | Declares(files, e) && e.unit in f.nameIndex :: OrderedBehind(f, e.first, e.unit)
  }

  lemma EdgesKnown(f: Forge, g: Forge, files: seq<NativeFile>, edges: seq<Edge>)
    requires Collected(files, edges) && g.nameIndex.Keys == f.nameIndex.Keys + GoodNames(files)
    ensures AllGood(files) ==> (Loadable(f, files) <==> AllKnown(g, edges))
  {
    forall i | 0 <= i < |edges| ensures Declares(files, edges[i]) {
      assert edges[i] in edges;
    }
    forall e | Declares(files, e) ensures exists i :: 0 <= i < |edges| && edges[i] == e {
      assert e in edges;
    }
  }

  lemma AppliedRecords(f: Forge, files: seq<NativeFile>, edges: seq<Edge>)
    requires Collected(files, edges) && Applied(f, edges)
    ensures EdgesRecorded(f, files)
  {
    forall e | Declares(files, e) && e.unit in f.nameIndex ensures OrderedBehind(f, e.first, e.unit) {
      var i :| 0 <= i < |edges| && edges[i] == e;
    }
  }

  /**
    Loads a directory: it succeeds exactly if every file is good and every `before` edge known, and otherwise stops,
    or leniently counts what it skipped. Unless it stops, every good file's unit is registered, and every edge to a
    known unit recorded.
   */
  method LoadNativeUnits(state: ForgeState, files: seq<NativeFile>, lenient: bool) returns (r: LoadResult)
    requires Sound(state.View())
    modifies state
    ensures Sound(state.View()) && Extends(old(state.View()), state.View())
    ensures r.Loaded? <==> Loadable(old(state.View()), files)
    ensures (r.Stopped? ==> !lenient) && (r.Skipped? ==> lenient)
    ensures !r.Stopped? ==> Registered(old(state.View()), state.View(), files) && EdgesRecorded(state.View(), files)
  {
    ghost var f := state.View();
    var edges, errors, stopped := RegisterFiles(state, files, lenient);
    if stopped {
      return Stopped;
    }
    ghost var g := state.View();
    EdgesKnown(f, g, files, edges);
    var more;
    more, stopped := ApplyEdges(state, edges, lenient);
    ExtendsTrans(f, g, state.View());
    if stopped {
      return Stopped;
    }
    AppliedRecords(state.View(), files, edges);
    if lenient && errors + more > 0 {
      return Skipped(errors + more);
    }
    r := Loaded;
  }

  lemma LoadedRecords(f: Forge, g: Forge, files: seq<NativeFile>, e: Edge)
    requires Loadable(f, files) && g.nameIndex.Keys == f.nameIndex.Keys + GoodNames(files)
    requires EdgesRecorded(g, files) && Declares(files, e)
    ensures OrderedBehind(g, e.first, e.unit)
  {
  }

  /** Of an edge's two ends, if both are booted, the first is in a strictly earlier wave. */
  ghost predicate EdgeKept(f: Forge, waves: seq<seq<UnitKey>>, e: Edge) {
    e.first in f.nameIndex && e.unit in f.nameIndex ==> RunsBefore(waves, f.nameIndex[e.first], f.nameIndex[e.unit])
  }

  /** Loading and then booting: every `before` edge of the files orders the waves. */
  method LoadAndBoot(state: ForgeState, files: seq<NativeFile>, db: Markers, present: set<UnitKey>)
    returns (loaded: LoadResult, r: Result<()>, ghost planned: Forge, ghost waves: seq<seq<UnitKey>>)
    requires Sound(state.View())
    modifies state
    ensures Sound(state.View()) && Extends(old(state.View()), planned)
    ensures r.Ok? ==> Booted(planned, waves)
    ensures r.Ok? && !state.bootLenient ==> Scheduled(planned, waves)
    ensures loaded.Loaded? && r.Ok? && !state.bootLenient ==>
              forall e | Declares(files, e) :: EdgeKept(planned, waves, e)
  {
    hide Loadable, EdgesRecorded, Booted, Scheduled, EdgeKept, Extends;
    ghost var f := state.View();
    loaded := LoadNativeUnits(state, files, state.bootLenient);
    ghost var g := state.View();
    ghost var log, finished;
    r, planned, waves, log, finished := state.BootParallel(db, present);
    ExtendsTrans(f, g, planned);
    if loaded.Loaded? && r.Ok? && !state.bootLenient {
      forall e | Declares(files, e) ensures EdgeKept(planned, waves, e) {
        LoadedRecords(f, g, files, e);
        EdgeOrdersWaves(g, planned, waves, e);
      }
    }
  }

  lemma EdgeOrdersWaves(g: Forge, f: Forge, waves: seq<seq<UnitKey>>, e: Edge)
    requires OrderedBehind(g, e.first, e.unit) && Extends(g, f)
    ensures Booted(f, waves) && Scheduled(f, waves) ==> EdgeKept(f, waves, e)
  {
    if e.first in f.nameIndex && e.unit in f.nameIndex {
      BeforeStartsEarlier(g, f, waves, e.first, e.unit);
    }
  }
}
