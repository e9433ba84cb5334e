/** The runlevel marker database and runlevel inheritance. */
module Runlevels {

  /** What exists on disk: the root directory, its seed file, and the markers of each level directory. */
  datatype Markers = Markers(root: bool, seeded: bool, levels: map<string, set<string>>) {
    predicate Marked(level: string, service: string) {
      level in levels && service in levels[level]
    }

    predicate MarkedAnywhere(service: string) {
      exists l :: l in levels.Keys && service in levels[l]
    }

    predicate MarkedInChain(level: string, service: string) {
      exists l :: l in Ancestors(level) && Marked(l, service)
    }

    function Enable(service: string, level: string): Markers {
      Markers(true, seeded, levels[level := (if level in levels then levels[level] else {}) + {service}])
    }

    function Disable(service: string, level: string): Markers {
      if Marked(level, service) then this.(levels := levels[level := levels[level] - {service}]) else this
    }
  }

  /** From the level itself to the most general one it inherits. */
  function Ancestors(level: string): seq<string> {
    if level == "graphical" then ["graphical", "multi-user", "boot", "sysinit"]
    else if level == "multi-user" then ["multi-user", "boot", "sysinit"]
    else if level == "boot" then ["boot", "sysinit"]
    else if level == "sysinit" then ["sysinit"]
    else if level == "single" || level == "rescue" || level == "emergency" then ["single", "sysinit"]
    else []
  }

  function Lower(s: string): string {
    seq(|s|, i requires 0 <= i < |s| => if 'A' <= s[i] <= 'Z' then s[i] + 32 as char else s[i])
  }

  function TargetToRunlevel(target: string): string {
    var t := Lower(target);
    if t == "rescue" || t == "single" || t == "emergency" then "single"
    else if t == "graphical" || t == "multi-user" || t == "sysinit" || t == "boot" then t
    else target
  }

  /** Some declared level is inherited by `level`; declaring none means every level. */
  predicate Eligible(declared: seq<string>, level: string) {
    declared == [] || exists l :: l in declared && l in Ancestors(level)
  }

  predicate Enabled(db: Markers, service: string, level: string, declared: seq<string>) {
    && Eligible(declared, level)
    && (!db.root || db.MarkedInChain(level, service) || (!db.seeded && !db.MarkedAnywhere(service)))
  }

  lemma LevelsAreLowerCase(level: string)
    requires Ancestors(level) != []
    ensures Lower(level) == level
  {
    assert forall i | 0 <= i < |level| :: !('A' <= level[i] <= 'Z');
  }

  /** A target inherits what its lower-case name inherits; the aliases of `single` share its chain. */
  lemma TargetInheritsAsNamed(target: string)
    ensures Ancestors(TargetToRunlevel(target)) == Ancestors(Lower(target))
  {
    if Ancestors(target) != [] {
      LevelsAreLowerCase(target);
    }
  }

  /** The two names differ at most in the case of ASCII letters. */
  ghost predicate SameLetters(a: string, b: string) {
    |a| == |b| && forall i | 0 <= i < |a| ::
      a[i] == b[i] || ('A' <= a[i] <= 'Z' && b[i] as int == a[i] as int + 32)
      || ('A' <= b[i] <= 'Z' && a[i] as int == b[i] as int + 32)
  }

  /** Case makes no difference to what a target inherits. */
  lemma CaseBlind(a: string, b: string)
    requires SameLetters(a, b)
    ensures Ancestors(TargetToRunlevel(a)) == Ancestors(TargetToRunlevel(b))
  {
    assert Lower(a) == Lower(b);
    TargetInheritsAsNamed(a);
    TargetInheritsAsNamed(b);
  }

  /** What a level inherits directly. */
  predicate Inherits(level: string, l: string) {
    || (level == "graphical" && l == "multi-user")
    || (level == "multi-user" && l == "boot")
    || (level == "boot" && l == "sysinit")
    || (level == "single" && l == "sysinit")
  }

  /** Names of levels, the aliases of `single` included. */
  predicate IsLevel(level: string) {
    level in ["graphical", "multi-user", "boot", "sysinit", "single", "rescue", "emergency"]
  }

  /** The level that a name stands for. */
  function Unaliased(level: string): string {
    if level == "rescue" || level == "emergency" then "single" else level
  }

  /** A chain begins with its level, goes on by direct inheritance, and ends with `sysinit`. */
  lemma ChainExact(level: string)
    ensures var chain := Ancestors(level);
            && (chain == [] <==> !IsLevel(level))
            && (chain != [] ==> chain[0] == Unaliased(level))
            && (forall i | 0 < i < |chain| :: Inherits(chain[i - 1], chain[i]))
            && (chain != [] ==> chain[|chain| - 1] == "sysinit")
  {
  }

  /** From any place in a chain on, the chain is that place's own. */
  lemma AncestorsFrom(level: string, i: nat)
    requires i < |Ancestors(level)|
    ensures Ancestors(Ancestors(level)[i]) == Ancestors(level)[i..]
  {
    if i == 0 {
    } else if i == 1 {
    } else if i == 2 {
    } else {
    }
  }

  /** The chains are nested: a level inherits all that any level in its chain inherits. */
  lemma AncestorsNested(level: string, inherited: string)
    requires inherited in Ancestors(level)
    ensures forall l | l in Ancestors(inherited) :: l in Ancestors(level)
  {
    var i :| 0 <= i < |Ancestors(level)| && Ancestors(level)[i] == inherited;
    AncestorsFrom(level, i);
  }

  /** What is enabled at a level is enabled at every level that inherits it, in any database. */
  lemma InheritanceMonotone(db: Markers, service: string, level: string, inherited: string, declared: seq<string>)
    requires inherited in Ancestors(level) && Enabled(db, service, inherited, declared)
    ensures Enabled(db, service, level, declared)
  {
    AncestorsNested(level, inherited);
    if declared != [] {
      var l :| l in declared && l in Ancestors(inherited);
      assert l in Ancestors(level);
    }
    if l :| l in Ancestors(inherited) && db.Marked(l, service) {
      assert l in Ancestors(level);
    }
  }

  /** A marker is stored in a level directory, which lies under the root. */
  ghost predicate OnDisk(db: Markers) {
    !db.root ==> db.levels == map[] && !db.seeded
  }

  /**
    Exactly what enabling a service at one level does to every answer, in any database. Another service's answers
    stay. The service itself is then on where its level inherits a marker, the new one included, and nowhere else:
    in an unseeded database that turns a service without markers off at all other levels.
   */
  lemma EnableExact(db: Markers, service: string, level: string, s: string, l: string, declared: seq<string>)
    requires OnDisk(db)
    ensures OnDisk(db.Enable(service, level))
    ensures s != service ==> Enabled(db.Enable(service, level), s, l, declared) == Enabled(db, s, l, declared)
    ensures Enabled(db.Enable(service, level), service, l, declared)
            <==> Eligible(declared, l) && (level in Ancestors(l) || db.MarkedInChain(l, service))
  {
    var after := db.Enable(service, level);
    assert forall m, t :: after.Marked(m, t) <==> db.Marked(m, t) || (m == level && t == service);
    assert after.Marked(level, service) && level in after.levels.Keys;
    assert forall t | t != service :: after.MarkedInChain(l, t) == db.MarkedInChain(l, t);
    AnywhereMeansMarked(db, s);
    AnywhereMeansMarked(after, s);
  }

  /** Some level other than the given one has a marker for the service. */
  ghost predicate MarkedElsewhere(db: Markers, service: string, level: string) {
    exists m :: m != level && db.Marked(m, service)
  }

  /**
    Exactly what disabling does, in any database: the marker at that level no longer counts. In an unseeded database
    a service that loses its last marker is on everywhere again.
   */
  lemma DisableExact(db: Markers, service: string, level: string, l: string, declared: seq<string>)
    requires OnDisk(db)
    ensures OnDisk(db.Disable(service, level))
    ensures forall s | s != service ::
              Enabled(db.Disable(service, level), s, l, declared) == Enabled(db, s, l, declared)
    ensures Enabled(db.Disable(service, level), service, l, declared) <==>
            Eligible(declared, l)
            && (!db.root || (exists m :: m in Ancestors(l) && m != level && db.Marked(m, service))
                || (!db.seeded && !MarkedElsewhere(db, service, level)))
  {
    var after := db.Disable(service, level);
    assert forall m, t :: after.Marked(m, t) <==> db.Marked(m, t) && (m != level || t != service);
    AnywhereMeansMarked(after, service);
    forall s | s != service ensures Enabled(after, s, l, declared) == Enabled(db, s, l, declared) {
      AnywhereMeansMarked(db, s);
      AnywhereMeansMarked(after, s);
      assert after.MarkedInChain(l, s) == db.MarkedInChain(l, s);
    }
  }

  /** The service keeps its answer, whatever runlevels it declares, at every level that does not inherit `level`. */
  ghost predicate SameElsewhere(before: Markers, after: Markers, service: string, level: string) {
    forall l, declared | level !in Ancestors(l) ::
      Enabled(after, service, l, declared) == Enabled(before, service, l, declared)
  }

  /** Enabling is local exactly in a seeded database, or for a service that has some marker already. */
  lemma EnableLocalExact(db: Markers, service: string, level: string)
    requires OnDisk(db)
    ensures SameElsewhere(db, db.Enable(service, level), service, level) <==> db.seeded || db.MarkedAnywhere(service)
  {
    var after := db.Enable(service, level);
    forall l, declared | level !in Ancestors(l)
      ensures Enabled(after, service, l, declared) <==> Eligible(declared, l) && db.MarkedInChain(l, service)
    {
      EnableExact(db, service, level, service, l, declared);
    }
    if !db.seeded && !db.MarkedAnywhere(service) {
      AnywhereMeansMarked(db, service);
      assert Ancestors("") == [] && Eligible([], "");
      assert Enabled(db, service, "", []) && !Enabled(after, service, "", []);
    }
  }

  /** Disabling is local exactly unless it removes the last marker of the service from an unseeded database. */
  lemma DisableLocalExact(db: Markers, service: string, level: string)
    requires OnDisk(db)
    ensures SameElsewhere(db, db.Disable(service, level), service, level)
            <==> db.seeded || !db.Marked(level, service) || MarkedElsewhere(db, service, level)
  {
    var after := db.Disable(service, level);
    AnywhereMeansMarked(db, service);
    forall l, declared | level !in Ancestors(l)
      ensures Enabled(after, service, l, declared) <==>
              Eligible(declared, l) && (!db.root || db.MarkedInChain(l, service)
                                        || (!db.seeded && !MarkedElsewhere(db, service, level)))
    {
      DisableExact(db, service, level, l, declared);
    }
    if !db.seeded && db.Marked(level, service) && !MarkedElsewhere(db, service, level) {
      assert Ancestors("") == [] && Eligible([], "");
      assert !Enabled(db, service, "", []) && Enabled(after, service, "", []);
    }
  }

  /** Enabling and then disabling answers as disabling alone, which without an earlier marker changes nothing. */
  lemma DisableUndoesEnable(db: Markers, service: string, level: string, s: string, l: string, declared: seq<string>)
    requires OnDisk(db)
    ensures Enabled(db.Enable(service, level).Disable(service, level), s, l, declared)
         == Enabled(db.Disable(service, level), s, l, declared)
    ensures !db.Marked(level, service) ==> db.Disable(service, level) == db
  {
    var after, plain := db.Enable(service, level).Disable(service, level), db.Disable(service, level);
    assert forall m, t :: after.Marked(m, t) <==> plain.Marked(m, t);
    assert after.MarkedInChain(l, s) == plain.MarkedInChain(l, s);
    AnywhereMeansMarked(after, s);
    AnywhereMeansMarked(plain, s);
  }

  /** Locality fails without a seed: enabling at one level turns a service without markers off at another. */
  lemma UnseededEnableTurnsOff()
    ensures var db := Markers(true, false, map[]);
            Enabled(db, "sshd", "single", []) && !Enabled(db.Enable("sshd", "boot"), "sshd", "single", [])
  {
    var db := Markers(true, false, map[]);
    EnableExact(db, "sshd", "boot", "sshd", "single", []);
    assert Ancestors("single") == ["single", "sysinit"];
  }

  /** Nor is disabling local then: removing the last marker at one level turns the service on at another. */
  lemma UnseededDisableTurnsOn()
    ensures var db := Markers(true, false, map["boot" := {"sshd"}]);
            !Enabled(db, "sshd", "single", []) && Enabled(db.Disable("sshd", "boot"), "sshd", "single", [])
  {
    var db := Markers(true, false, map["boot" := {"sshd"}]);
    DisableExact(db, "sshd", "boot", "single", []);
    assert Ancestors("single") == ["single", "sysinit"];
    assert db.Marked("boot", "sshd");
  }

  lemma AnywhereMeansMarked(db: Markers, service: string)
    ensures db.MarkedAnywhere(service) <==> exists m :: db.Marked(m, service)
  {
    if m :| db.Marked(m, service) {
      assert m in db.levels.Keys;
    }
    if m :| m in db.levels.Keys && service in db.levels[m] {
      assert db.Marked(m, service);
    }
  }

  /** Outcomes of the file system calls behind the two updates. */
  datatype Io = Works | DirectoryFails | FileFails

  class MarkerDatabase {
    var root: bool
    var seeded: bool
    var levels: map<string, set<string>>

    ghost function View(): Markers
      reads this
    {
      Markers(root, seeded, levels)
    }

    method IsEnabled(service: string, level: string, declared: seq<string>) returns (on: bool)
      ensures on == Enabled(View(), service, level, declared)
    {
      if !(declared == [] || exists l :: l in declared && l in Ancestors(level)) {
        return false;
      }
      if !root {
        return true;
      }
      var chain := Ancestors(level);
      for i := 0 to |chain|
        invariant forall j | 0 <= j < i :: !View().Marked(chain[j], service)
      {
        if chain[i] in levels && service in levels[chain[i]] {
          assert chain[i] in Ancestors(level) && View().Marked(chain[i], service);
          return true;
        }
      }
      assert !View().MarkedInChain(level, service);
      if seeded {
        return false;
      }
      on := !exists l :: l in levels.Keys && service in levels[l];
    }

    method EnableService(service: string, level: string, io: Io) returns (ok: bool)
      modifies this
      ensures ok == io.Works?
      ensures ok ==> View() == old(View()).Enable(service, level)
      ensures forall s, l :: s != service || !ok ==> View().Marked(l, s) == old(View()).Marked(l, s)
    {
      if io.DirectoryFails? {
        return false;
      }
      root := true;
      if level !in levels {
        levels := levels[level := {}];
      }
      if io.FileFails? {
        return false;
      }
      levels := levels[level := levels[level] + {service}];
      ok := true;
    }

    method DisableService(service: string, level: string, io: Io) returns (ok: bool)
      modifies this
      ensures ok == (io.Works? || !old(View()).Marked(level, service))
      ensures View() == if ok then old(View()).Disable(service, level) else old(View())
    {
      if level in levels && service in levels[level] {
        if !io.Works? {
          return false;
        }
        levels := levels[level := levels[level] - {service}];
      }
      ok := true;
    }
  }
}
