/** Device units: each starts its service once, when its path appears. */
module Devices {
  import opened Units
  import opened Names
  import opened ForgeModel
  import opened Supervision
  import opened Keeping

  function MarkDevice(f: Forge, k: UnitKey): Forge
    requires k < |f.arena| && f.arena[k].kind.Device?
  {
    f.(arena := f.arena[k := f.arena[k].(kind := f.arena[k].kind.(activated := true))])
  }

  lemma MarkKeeps(f: Forge, k: UnitKey)
    requires k < |f.arena| && f.arena[k].kind.Device?
    ensures Redefined(f, MarkDevice(f, k), k)
    ensures Sound(f) ==> Sound(MarkDevice(f, k))
  {
    if Sound(f) {
      RedefinedSound(f, MarkDevice(f, k), k);
    }
  }

  /** Marks a device and starts its service, once; a device stays marked when the start fails. */
  function ActivateDevice(f: Forge, k: UnitKey, w: World): (Forge, Result<()>)
    requires Sound(f) && k < |f.arena|
  {
    var kind := f.arena[k].kind;
    if !kind.Device? || kind.activated then (f, Ok(()))
    else
      MarkKeeps(f, k);
      var (g, r) := StartByName(MarkDevice(f, k), kind.service, w);
      (g, if r.Ok? then Ok(()) else Err(r.error))
  }

  /** Devices still to be activated whose path is present, in arena order. */
  predicate Ready(f: Forge, present: set<UnitKey>, k: UnitKey) {
    k < |f.arena| && f.arena[k].kind.Device? && !f.arena[k].kind.activated && k in present
  }

  function ReadyBelow(f: Forge, present: set<UnitKey>, n: nat): (keys: seq<UnitKey>)
    ensures forall k: UnitKey :: k in keys <==> k < n && Ready(f, present, k)
    ensures NoDuplicates(keys) && Live(f.arena, keys)
    ensures forall i, j | 0 <= i < j < |keys| :: keys[i] < keys[j]
  {
    if n == 0 then []
    else
      var front := ReadyBelow(f, present, n - 1);
      assert forall i | 0 <= i < |front| :: front[i] in front;
      if Ready(f, present, n - 1) then front + [n - 1] else front
  }

  function ReadyDevices(f: Forge, present: set<UnitKey>): seq<UnitKey> {
    ReadyBelow(f, present, |f.arena|)
  }

  /** One activation, with its outcome. */
  ghost predicate DeviceStep(f: Forge, k: UnitKey, w: World, g: Forge, ok: bool) {
    Sound(f) && k < |f.arena| && g == ActivateDevice(f, k, w).0 && ok == ActivateDevice(f, k, w).1.Ok?
  }

  /** A pass over devices in order: every activation but the last succeeds, and the last unless the pass fails. */
  ghost predicate DevicePass(states: seq<Forge>, keys: seq<UnitKey>, worlds: seq<World>, ok: bool) {
    && |worlds| == |keys| && |states| == |keys| + 1
    && forall i | 0 <= i < |keys| :: DeviceStep(states[i], keys[i], worlds[i], states[i + 1], ok || i + 1 < |keys|)
  }

  // ---- What an activation keeps -----------------------------------------------------------------------------

  /** g is a sound state with the units of f, whose definitions and dependency lists stay. */
  ghost predicate Onward(f: Forge, g: Forge) {
    Sound(g) && Continues(f, g) && |g.arena| == |f.arena|
  }

  lemma OnwardTrans(f: Forge, g: Forge, h: Forge)
    requires Onward(f, g) && Onward(g, h)
    ensures Onward(f, h)
  {
    ContinuesTrans(f, g, h);
  }

  lemma OnwardSound(f: Forge, g: Forge)
    requires Onward(f, g)
    ensures Sound(g)
  {
  }

  lemma OnwardRefl(f: Forge)
    requires Sound(f)
    ensures Onward(f, f)
  {
    ShapeRefl(f);
    ShapeContinues(f, f);
  }

  /** Between f and g exactly the devices of s were activated. */
  ghost predicate Activates(f: Forge, g: Forge, s: seq<UnitKey>) {
    |g.arena| == |f.arena| && forall j | 0 <= j < |f.arena| && f.arena[j].kind.Device? :: ActivatesAt(f, g, j, j in s)
  }

  ghost predicate ActivatesAt(f: Forge, g: Forge, j: UnitKey, on: bool)
    requires j < |f.arena| == |g.arena| && f.arena[j].kind.Device?
  {
    g.arena[j].kind == f.arena[j].kind.(activated := f.arena[j].kind.activated || on)
  }

  lemma ActivatesTrans(f: Forge, g: Forge, h: Forge, s: seq<UnitKey>, t: seq<UnitKey>)
    requires Activates(f, g, s) && Activates(g, h, t)
    ensures Activates(f, h, s + t)
  {
    forall j | 0 <= j < |f.arena| && f.arena[j].kind.Device? ensures ActivatesAt(f, h, j, j in s + t) {
      assert ActivatesAt(f, g, j, j in s) && ActivatesAt(g, h, j, j in t);
    }
  }

  lemma ShapeActivates(f: Forge, g: Forge)
    requires SameShape(f, g)
    ensures Activates(f, g, [])
  {
    forall j | 0 <= j < |f.arena| && f.arena[j].kind.Device? ensures ActivatesAt(f, g, j, j in []) {
      assert SameUnit(f.arena[j], g.arena[j]);
    }
  }

  lemma ShapeOnward(f: Forge, g: Forge)
    requires Keeps(f, g)
    ensures Onward(f, g) && Activates(f, g, [])
  {
    ShapeContinues(f, g);
    ShapeActivates(f, g);
  }

  lemma ActiveOnward(f: Forge, g: Forge, k: UnitKey)
    requires Sound(f) && k < |f.arena| && g == f.(activeUnits := f.activeUnits + {k})
    ensures Onward(f, g) && Activates(f, g, [])
  {
    ActiveSound(f, g, k);
  }

  /** Starting a service activates no device. */
  lemma StartOnward(f: Forge, k: UnitKey, w: World)
    requires Sound(f) && k < |f.arena|
    ensures Onward(f, StartService(f, k, w).0) && Activates(f, StartService(f, k, w).0, [])
  {
    StartKeeps(f, k, w);
    ShapeOnward(f, StartService(f, k, w).0);
  }

  lemma FurtherOnward(f: Forge, g: Forge, h: Forge, s: seq<UnitKey>, t: seq<UnitKey>, all: seq<UnitKey>)
    requires Onward(f, g) && Activates(f, g, s) && Onward(g, h) && Activates(g, h, t) && all == s + t
    ensures Onward(f, h) && Activates(f, h, all)
  {
    OnwardTrans(f, g, h);
    ActivatesTrans(f, g, h, s, t);
  }

  lemma StartOnwardAfter(f: Forge, g: Forge, k: UnitKey, w: World)
    requires Onward(f, g) && Activates(f, g, []) && k < |g.arena|
    ensures Onward(f, StartService(g, k, w).0) && Activates(f, StartService(g, k, w).0, [])
  {
    StartOnward(g, k, w);
    FurtherOnward(f, g, StartService(g, k, w).0, [], [], []);
  }

  lemma NothingOnward(f: Forge)
    requires Sound(f)
    ensures Onward(f, f) && Activates(f, f, [])
  {
    ShapeRefl(f);
    ShapeOnward(f, f);
  }

  lemma StartByNameOnward(f: Forge, name: string, w: World)
    requires Sound(f)
    ensures Onward(f, StartByName(f, name, w).0) && Activates(f, StartByName(f, name, w).0, [])
  {
    match Lookup(f, name)
    case None => NothingOnward(f);
    case Some(k) =>
      if f.arena[k].kind.Service? {
        ActiveOnward(f, f.(activeUnits := f.activeUnits + {k}), k);
        StartOnwardAfter(f, f.(activeUnits := f.activeUnits + {k}), k, w);
      } else {
        NothingOnward(f);
      }
  }

  lemma MarkOnward(f: Forge, k: UnitKey)
    requires Sound(f) && k < |f.arena| && f.arena[k].kind.Device?
    ensures Onward(f, MarkDevice(f, k)) && Activates(f, MarkDevice(f, k), [k])
  {
    MarkKeeps(f, k);
    RedefinedContinues(f, MarkDevice(f, k), k);
  }

  lemma DeviceOnward(f: Forge, k: UnitKey, w: World)
    requires Sound(f) && k < |f.arena|
    ensures Onward(f, ActivateDevice(f, k, w).0) && Activates(f, ActivateDevice(f, k, w).0, [k])
  {
    hide Sound, Continues, StartByName;
    if f.arena[k].kind.Device? && !f.arena[k].kind.activated {
      MarkOnward(f, k);
      StartByNameOnward(MarkDevice(f, k), f.arena[k].kind.service, w);
      FurtherOnward(f, MarkDevice(f, k), ActivateDevice(f, k, w).0, [k], [], [k]);
    } else {
      OnwardRefl(f);
    }
  }

  ghost predicate OnwardBy(f: Forge, g: Forge, s: seq<UnitKey>) {
    Onward(f, g) && Activates(f, g, s)
  }

  lemma StepOnward(f: Forge, k: UnitKey, w: World, g: Forge, ok: bool)
    requires DeviceStep(f, k, w, g, ok)
    ensures OnwardBy(f, g, [k])
  {
    DeviceOnward(f, k, w);
  }

  lemma {:induction false} StepsOnward(states: seq<Forge>, keys: seq<UnitKey>, n: nat)
    requires n <= |keys| < |states| && Sound(states[0])
    requires forall i | 0 <= i < |keys| :: OnwardBy(states[i], states[i + 1], [keys[i]])
    ensures OnwardBy(states[0], states[n], keys[..n])
  {
    if n == 0 {
      NothingOnward(states[0]);
    } else {
      StepsOnward(states, keys, n - 1);
      assert keys[..n] == keys[..n - 1] + [keys[n - 1]];
      FurtherOnward(states[0], states[n - 1], states[n], keys[..n - 1], [keys[n - 1]], keys[..n]);
    }
  }

  /** A pass activates its devices, whether or not their services start, and no other. */
  lemma PassActivates(states: seq<Forge>, keys: seq<UnitKey>, worlds: seq<World>, ok: bool)
    requires DevicePass(states, keys, worlds, ok) && Sound(states[0])
    ensures OnwardBy(states[0], states[|keys|], keys)
  {
    forall i | 0 <= i < |keys| ensures OnwardBy(states[i], states[i + 1], [keys[i]]) {
      StepOnward(states[i], keys[i], worlds[i], states[i + 1], ok || i + 1 < |keys|);
    }
    StepsOnward(states, keys, |keys|);
    assert keys[..|keys|] == keys;
  }

  lemma PassExtends(states: seq<Forge>, keys: seq<UnitKey>, worlds: seq<World>, i: nat, w: World, g: Forge, ok: bool)
    requires i < |keys| && DevicePass(states, keys[..i], worlds, true) && DeviceStep(states[i], keys[i], w, g, ok)
    ensures DevicePass(states + [g], keys[..i + 1], worlds + [w], ok)
  {
    hide DeviceStep;
    assert keys[..i + 1][..i] == keys[..i];
  }

  /** g is f after the devices present were activated in arena order, to the end or up to the first failure. */
  ghost predicate DevicesRun(f: Forge, g: Forge, present: set<UnitKey>, ok: bool) {
    exists states, worlds, m: nat :: DevicesRunBy(f, g, present, ok, states, worlds, m)
  }

  ghost predicate DevicesDone(f: Forge, g: Forge, present: set<UnitKey>) {
    DevicesRun(f, g, present, true) || DevicesRun(f, g, present, false)
  }

  ghost predicate DevicesRunBy(f: Forge, g: Forge, present: set<UnitKey>, ok: bool, states: seq<Forge>,
        worlds: seq<World>, m: nat) {
    var keys := ReadyDevices(f, present);
    && m <= |keys| && (ok ==> m == |keys|) && (!ok ==> m > 0)
    && DevicePass(states, keys[..m], worlds, ok) && states[0] == f && states[m] == g
  }

  /** Such a run activates a first part of the ready devices, all of them if it succeeds, and no other device. */
  lemma DevicesRunActivates(f: Forge, g: Forge, present: set<UnitKey>, ok: bool)
    requires Sound(f) && DevicesRun(f, g, present, ok)
    ensures Onward(f, g)
    ensures exists m :: 0 <= m <= |ReadyDevices(f, present)| && Activates(f, g, ReadyDevices(f, present)[..m])
    ensures ok ==> Activates(f, g, ReadyDevices(f, present))
  {
    hide DeviceStep, Onward, Activates;
    var states, worlds, m: nat :| DevicesRunBy(f, g, present, ok, states, worlds, m);
    var keys := ReadyDevices(f, present);
    PassActivates(states, keys[..m], worlds, ok);
    assert keys[..|keys|] == keys;
  }

  /** A run activates only devices whose path is present, and, if it succeeds, all of them. */
  lemma DevicesRunPresent(f: Forge, g: Forge, present: set<UnitKey>, ok: bool, j: UnitKey)
    requires Sound(f) && DevicesRun(f, g, present, ok) && j < |f.arena| && f.arena[j].kind.Device?
    ensures j < |g.arena| && g.arena[j].kind.Device?
    ensures g.arena[j].kind.activated ==> f.arena[j].kind.activated || j in present
    ensures ok ==> (g.arena[j].kind.activated <==> f.arena[j].kind.activated || j in present)
  {
    DevicesRunActivates(f, g, present, ok);
    hide DevicesRun, Onward, Activates;
    var keys := ReadyDevices(f, present);
    var m :| 0 <= m <= |keys| && Activates(f, g, keys[..m]);
    ActivatedAt(f, g, keys[..m], j);
    if j in keys[..m] { assert j in keys; }
    if ok {
      ActivatedAt(f, g, keys, j);
    }
  }

  lemma ActivatedAt(f: Forge, g: Forge, s: seq<UnitKey>, j: UnitKey)
    requires Activates(f, g, s) && j < |f.arena| && f.arena[j].kind.Device?
    ensures j < |g.arena| && g.arena[j].kind == f.arena[j].kind.(activated := f.arena[j].kind.activated || j in s)
  {
    assert ActivatesAt(f, g, j, j in s);
  }
}
