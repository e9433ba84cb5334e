/**
  Passing listening sockets to a service: duplicating their descriptors, renumbering them to 3, 4, ... in the child
  (POSIX.1-2017, System Interfaces, `dup2()` and `fcntl()` F_DUPFD_CLOEXEC), and printing LISTEN_PID.
 */
module FdPassing {
  import opened Units
  import opened Names

  type Fd = nat

  datatype OpenFd = OpenFd(file: nat, cloexec: bool)

  const LISTEN_FDS_START: Fd := 3

  /** What a system call returns in place of a descriptor when it fails. */
  const FAILED: int := -1

  /** The lowest descriptor number from `min` on that is not taken. */
  function LowestFree(taken: set<Fd>, min: Fd): (r: Fd)
    ensures min <= r && r !in taken && forall x | min <= x < r :: x in taken
    decreases taken
  {
    if min !in taken then min else LowestFree(taken - {min}, min + 1)
  }

  /** Descriptor x is the same in both tables. */
  ghost predicate Same(a: map<Fd, OpenFd>, b: map<Fd, OpenFd>, x: Fd) {
    (x in a <==> x in b) && (x in a ==> a[x] == b[x])
  }

  /** The open file behind descriptor x. */
  function FileOf(table: map<Fd, OpenFd>, x: int): nat
    requires x in table
  {
    table[x as Fd].file
  }

  predicate Targeted(x: int, n: nat) {
    LISTEN_FDS_START <= x < LISTEN_FDS_START + n
  }

  /** A process's descriptor table. `fails` stands for the errors a call may return. */
  class FdTable {
    var fds: map<Fd, OpenFd>

    constructor (initial: map<Fd, OpenFd>)
      ensures fds == initial
    {
      fds := initial;
    }

    /** dup(): the lowest free descriptor of the same open file, close-on-exec clear; FAILED on an error. */
    method Dup(fd: Fd, fails: bool) returns (r: int)
      modifies this
      ensures fails || fd !in old(fds) ==> r == FAILED && fds == old(fds)
      ensures !fails && fd in old(fds) ==>
                r == LowestFree(old(fds).Keys, 0) && fds == old(fds)[r := OpenFd(old(fds)[fd].file, false)]
    {
      if fails || fd !in fds {
        return FAILED;
      }
      var free := LowestFree(fds.Keys, 0);
      fds := fds[free := OpenFd(fds[fd].file, false)];
      r := free;
    }

    /** F_DUPFD_CLOEXEC: the lowest free descriptor not below `min`; FAILED on an error. */
    method DupCloexec(fd: int, min: Fd, fails: bool) returns (r: int)
      modifies this
      ensures fails || fd !in old(fds) ==> r == FAILED && fds == old(fds)
      ensures !fails && fd in old(fds) ==>
                r == LowestFree(old(fds).Keys, min) && fds == old(fds)[r := OpenFd(FileOf(old(fds), fd), true)]
    {
      if fails || fd !in fds {
        return FAILED;
      }
      var free := LowestFree(fds.Keys, min);
      fds := fds[free := OpenFd(FileOf(fds, fd), true)];
      r := free;
    }

    /** dup2(): closes the target silently; a descriptor onto itself changes nothing, one that is not open fails. */
    method Dup2(fd: int, target: Fd, fails: bool) returns (ok: bool)
      modifies this
      ensures ok == (!fails && fd in old(fds))
      ensures fds == if !ok || fd == target then old(fds) else old(fds)[target := OpenFd(old(fds)[fd].file, false)]
    {
      if fails || fd !in fds {
        return false;
      }
      if fd != target {
        fds := fds[target := OpenFd(fds[fd].file, false)];
      }
      ok := true;
    }

    /** F_SETFD with no flags. */
    method ClearCloexec(fd: Fd)
      requires fd in fds
      modifies this
      ensures fds == old(fds)[fd := OpenFd(old(fds)[fd].file, false)]
    {
      fds := fds[fd := OpenFd(fds[fd].file, false)];
    }

    method Close(fd: int)
      modifies this
      ensures fds == old(fds) - {fd}
    {
      fds := fds - {fd};
    }
  }

  // ---- The child's renumbering ------------------------------------------------------------------------------

  /** Each source so far has a place outside the targets; only moved sources and their new places changed. */
  ghost predicate Parked(before: map<Fd, OpenFd>, now: map<Fd, OpenFd>, sources: seq<int>, parked: seq<int>, n: nat) {
    && |parked| <= |sources|
    && NoDuplicates(parked)
    && (forall j | 0 <= j < |parked| :: ParkedAt(before, now, sources, parked, n, j))
    && (forall j | |parked| <= j < |sources| :: sources[j] in before && sources[j] !in parked)
    && forall x: Fd | x !in parked && x !in sources[..|parked|] :: Same(before, now, x)
  }

  ghost predicate ParkedAt(before: map<Fd, OpenFd>, now: map<Fd, OpenFd>, sources: seq<int>, parked: seq<int>,
        n: nat, j: nat)
    requires j < |parked| <= |sources|
  {
    && sources[j] in before && parked[j] in now && FileOf(now, parked[j]) == FileOf(before, sources[j])
    && !Targeted(parked[j], n)
    && (if Targeted(sources[j], n) then sources[j] !in now && parked[j] !in before else parked[j] == sources[j])
  }

  lemma ParkStays(before: map<Fd, OpenFd>, now: map<Fd, OpenFd>, sources: seq<int>, parked: seq<int>, n: nat)
    requires Parked(before, now, sources, parked, n) && |parked| < |sources| && NoDuplicates(sources)
    requires !Targeted(sources[|parked|], n)
    ensures Parked(before, now, sources, parked + [sources[|parked|]], n)
  {
    var i := |parked|;
    var p := parked + [sources[i]];
    assert sources[..i + 1] == sources[..i] + [sources[i]];
    assert sources[i] !in sources[..i];
    assert Same(before, now, sources[i]);
    forall j | 0 <= j < |p| ensures ParkedAt(before, now, sources, p, n, j) {
      if j < i { assert ParkedAt(before, now, sources, parked, n, j); }
    }
  }

  lemma ParkMoves(before: map<Fd, OpenFd>, now: map<Fd, OpenFd>, sources: seq<int>, parked: seq<int>, n: nat, free: Fd)
    requires Parked(before, now, sources, parked, n) && |parked| < |sources| && NoDuplicates(sources)
    requires Targeted(sources[|parked|], n) && sources[|parked|] in now
    requires free !in now && free >= LISTEN_FDS_START + n
    ensures var after := now[free := OpenFd(FileOf(now, sources[|parked|]), true)] - {sources[|parked|]};
            Parked(before, after, sources, parked + [free], n)
  {
    var i := |parked|;
    var s, p := sources[i], parked + [free];
    var after := now[free := OpenFd(FileOf(now, s), true)] - {s};
    assert sources[..i + 1] == sources[..i] + [s];
    assert s !in sources[..i] && Same(before, now, s);
    forall j | 0 <= j < i ensures ParkedAt(before, now, sources, parked, n, j) && parked[j] != free && parked[j] != s {
    }
    assert free !in before by {
      if free in sources[..i] {
        var j :| 0 <= j < i && sources[j] == free;
        assert ParkedAt(before, now, sources, parked, n, j);
      } else {
        assert Same(before, now, free);
      }
    }
    forall j | 0 <= j < |p| ensures ParkedAt(before, after, sources, p, n, j) {
      if j < i {
        assert ParkedAt(before, now, sources, parked, n, j);
        assert sources[j] != s;
      }
    }
  }

  /** The parked descriptors move to the targets one by one; nothing else outside the targets changes. */
  ghost predicate Placed(mid: map<Fd, OpenFd>, now: map<Fd, OpenFd>, parked: seq<int>, i: nat) {
    && i <= |parked|
    && (forall j | 0 <= j < i :: PlacedAt(mid, now, parked, j))
    && (forall j | i <= j < |parked| :: parked[j] in mid && Same(mid, now, parked[j]))
    && forall x: Fd | !Targeted(x, |parked|) && x !in parked :: Same(mid, now, x)
  }

  ghost predicate PlacedAt(mid: map<Fd, OpenFd>, now: map<Fd, OpenFd>, parked: seq<int>, j: nat)
    requires j < |parked|
  {
    && parked[j] in mid && parked[j] !in now
    && LISTEN_FDS_START + j in now && now[LISTEN_FDS_START + j] == OpenFd(FileOf(mid, parked[j]), false)
  }

  lemma PlaceNext(mid: map<Fd, OpenFd>, now: map<Fd, OpenFd>, parked: seq<int>, i: nat)
    requires Placed(mid, now, parked, i) && i < |parked| && NoDuplicates(parked)
    requires forall j | 0 <= j < |parked| :: !Targeted(parked[j], |parked|)
    ensures parked[i] in now && parked[i] != LISTEN_FDS_START + i
    ensures var after := now[LISTEN_FDS_START + i := OpenFd(FileOf(now, parked[i]), false)] - {parked[i]};
            Placed(mid, after, parked, i + 1)
  {
    var t := LISTEN_FDS_START + i;
    assert Targeted(t, |parked|);
    var after := now[t := OpenFd(FileOf(now, parked[i]), false)] - {parked[i]};
    forall j | 0 <= j < i + 1 ensures PlacedAt(mid, after, parked, j) {
      if j < i {
        assert PlacedAt(mid, now, parked, j);
        assert Targeted(LISTEN_FDS_START + j, |parked|);
      }
    }
  }

  /** The child sees entry i at descriptor 3 + i without close-on-exec, its source gone, the rest as before. */
  ghost predicate Passed(before: map<Fd, OpenFd>, after: map<Fd, OpenFd>, sources: seq<int>) {
    && (forall i | 0 <= i < |sources| :: sources[i] in before && LISTEN_FDS_START + i in after
                                      && after[LISTEN_FDS_START + i] == OpenFd(FileOf(before, sources[i]), false))
    && (forall i | 0 <= i < |sources| && !Targeted(sources[i], |sources|) :: sources[i] !in after)
    && (forall x: Fd | !Targeted(x, |sources|) && x !in sources :: Same(before, after, x))
  }

  lemma PassedWhole(before: map<Fd, OpenFd>, mid: map<Fd, OpenFd>, after: map<Fd, OpenFd>, sources: seq<int>,
        parked: seq<int>)
    requires |parked| == |sources| && Parked(before, mid, sources, parked, |sources|)
    requires Placed(mid, after, parked, |parked|)
    ensures Passed(before, after, sources)
  {
    assert sources[..|parked|] == sources;
    forall i | 0 <= i < |sources|
      ensures sources[i] in before && LISTEN_FDS_START + i in after
      ensures after[LISTEN_FDS_START + i] == OpenFd(FileOf(before, sources[i]), false)
      ensures !Targeted(sources[i], |sources|) ==> sources[i] !in after
    {
      assert ParkedAt(before, mid, sources, parked, |sources|, i) && PlacedAt(mid, after, parked, i);
    }
    forall x: Fd | !Targeted(x, |sources|) && x !in sources ensures Same(before, after, x) {
      if x in parked {
        var j :| 0 <= j < |parked| && parked[j] == x;
        assert ParkedAt(before, mid, sources, parked, |sources|, j) && PlacedAt(mid, after, parked, j);
      } else {
        assert Same(before, mid, x) && Same(mid, after, x);
      }
    }
  }

  /** Distinct open descriptors, with FAILED in place of those that could not be duplicated. */
  ghost predicate Sources(table: map<Fd, OpenFd>, s: seq<int>) {
    && (forall i | 0 <= i < |s| :: s[i] == FAILED || s[i] in table)
    && (forall i, j | 0 <= i < j < |s| :: s[i] == FAILED || s[i] != s[j])
  }

  /**
    The child's two phases: sources inside the target range first step aside, then each takes its number. It fails if
    a source could not be duplicated.
   */
  method PassFds(table: FdTable, inherited: seq<int>) returns (ok: bool)
    requires Sources(table.fds, inherited)
    modifies table
    ensures ok ==> FAILED !in inherited && Passed(old(table.fds), table.fds, inherited)
  {
    ghost var before := table.fds;
    var parked := ParkAll(table, inherited);
    if parked.None? {
      return false;
    }
    ghost var mid := table.fds;
    ok := PlaceAll(table, inherited, parked.value, before);
    if ok {
      PassedWhole(before, mid, table.fds, inherited, parked.value);
    }
  }

  /** First phase: a place outside the target range for each source. */
  method ParkAll(table: FdTable, inherited: seq<int>) returns (r: Option<seq<int>>)
    requires Sources(table.fds, inherited)
    modifies table
    ensures r.Some? ==> |r.value| == |inherited| && FailedStay(inherited, r.value)
    ensures r.Some? && FAILED !in inherited ==>
              Parked(old(table.fds), table.fds, inherited, r.value, |inherited|)
  {
    ghost var before := table.fds;
    var n := |inherited|;
    var parked: seq<int> := [];
    for i := 0 to n
      invariant |parked| == i && FailedStay(inherited, parked)
      invariant FAILED !in inherited ==> Parked(before, table.fds, inherited, parked, n)
    {
      var src := inherited[i];
      ghost var now := table.fds;
      SourceWaits(before, now, inherited, parked, n);
      if LISTEN_FDS_START <= src < LISTEN_FDS_START + n {
        var fails: bool := *;
        var moved := table.DupCloexec(src, LISTEN_FDS_START + n, fails);
        if moved == FAILED {
          return None;
        }
        if FAILED !in inherited {
          ParkMoves(before, now, inherited, parked, n, moved);
        }
        table.Close(src);
        parked := parked + [moved];
      } else {
        if FAILED !in inherited {
          ParkStays(before, now, inherited, parked, n);
        }
        parked := parked + [src];
      }
    }
    r := Some(parked);
  }

  /** A failed duplication is carried along as it is. */
  ghost predicate FailedStay(sources: seq<int>, parked: seq<int>) {
    |parked| <= |sources| && forall j | 0 <= j < |parked| && sources[j] == FAILED :: parked[j] == FAILED
  }

  lemma SourceWaits(before: map<Fd, OpenFd>, now: map<Fd, OpenFd>, sources: seq<int>, parked: seq<int>, n: nat)
    requires Sources(before, sources) && |parked| < |sources|
    requires FAILED !in sources ==> Parked(before, now, sources, parked, n)
    ensures FAILED !in sources ==> NoDuplicates(sources) && sources[|parked|] in now
  {
    if FAILED !in sources {
      assert sources[|parked|] !in sources[..|parked|];
      assert Same(before, now, sources[|parked|]);
    }
  }

  /** Second phase: each parked descriptor moves to its target. */
  method PlaceAll(table: FdTable, ghost inherited: seq<int>, parked: seq<int>, ghost before: map<Fd, OpenFd>)
    returns (ok: bool)
    requires |parked| == |inherited| && FailedStay(inherited, parked)
    requires FAILED !in inherited ==> Parked(before, table.fds, inherited, parked, |inherited|)
    modifies table
    ensures ok ==> FAILED !in inherited && Placed(old(table.fds), table.fds, parked, |parked|)
  {
    ghost var mid := table.fds;
    var n := |parked|;
    forall j | 0 <= j < n && FAILED !in inherited ensures parked[j] in mid && !Targeted(parked[j], n) {
      assert ParkedAt(before, mid, inherited, parked, n, j);
    }
    for i := 0 to n
      invariant forall j | 0 <= j < i :: parked[j] != FAILED
      invariant FAILED !in inherited ==> Placed(mid, table.fds, parked, i)
    {
      var fails: bool := *;
      ghost var now := table.fds;
      if FAILED !in inherited {
        PlaceNext(mid, now, parked, i);
      }
      var placed := table.Dup2(parked[i], LISTEN_FDS_START + i, fails);
      if !placed {
        return false;
      }
      table.ClearCloexec(LISTEN_FDS_START + i);
      if parked[i] != LISTEN_FDS_START + i {
        table.Close(parked[i]);
      }
      if FAILED !in inherited {
        assert table.fds == now[LISTEN_FDS_START + i := OpenFd(FileOf(now, parked[i]), false)] - {parked[i]};
      }
    }
    ok := true;
  }

  /** The copies are new descriptors of the entries' open files; every other descriptor is as before. */
  ghost predicate Copied(before: map<Fd, OpenFd>, now: map<Fd, OpenFd>, entries: seq<Fd>, copies: seq<int>) {
    && |copies| <= |entries| && Sources(now, copies)
    && (forall i | 0 <= i < |copies| && copies[i] != FAILED :: CopiedAt(before, now, entries[i], copies[i]))
    && (forall x: Fd | x !in copies :: Same(before, now, x))
  }

  ghost predicate CopiedAt(before: map<Fd, OpenFd>, now: map<Fd, OpenFd>, entry: Fd, copy: int) {
    && copy !in before && copy in now
    && entry in before && now[copy as Fd] == OpenFd(before[entry].file, false)
  }

  lemma CopyNext(before: map<Fd, OpenFd>, now: map<Fd, OpenFd>, entries: seq<Fd>, copies: seq<int>, copy: Fd)
    requires Copied(before, now, entries, copies) && |copies| < |entries|
    requires copy !in now && entries[|copies|] in before
    ensures entries[|copies|] in now
    ensures Copied(before, now[copy := OpenFd(now[entries[|copies|]].file, false)], entries, copies + [copy])
  {
    forall i | 0 <= i < |copies| ensures copies[i] != copy && copies[i] != entries[|copies|] {
      assert copies[i] != FAILED ==> CopiedAt(before, now, entries[i], copies[i]);
    }
    assert Same(before, now, entries[|copies|]) && Same(before, now, copy);
    var after, all := now[copy := OpenFd(now[entries[|copies|]].file, false)], copies + [copy];
    forall i | 0 <= i < |all| && all[i] != FAILED ensures CopiedAt(before, after, entries[i], all[i]) {
      if i < |copies| { assert CopiedAt(before, now, entries[i], copies[i]); }
    }
  }

  lemma CopyFails(before: map<Fd, OpenFd>, now: map<Fd, OpenFd>, entries: seq<Fd>, copies: seq<int>)
    requires Copied(before, now, entries, copies) && |copies| < |entries|
    ensures Copied(before, now, entries, copies + [FAILED])
  {
    forall x: Fd | x !in copies + [FAILED] ensures Same(before, now, x) {
      assert x !in copies;
    }
  }

  /** The parent duplicates each entry's descriptor, in order, without a check; the entries themselves stay open. */
  method DupEntries(table: FdTable, entries: seq<Fd>) returns (copies: seq<int>)
    requires forall i | 0 <= i < |entries| :: entries[i] in table.fds
    modifies table
    ensures |copies| == |entries| && Copied(old(table.fds), table.fds, entries, copies)
  {
    ghost var before := table.fds;
    copies := [];
    for i := 0 to |entries|
      invariant |copies| == i && Copied(before, table.fds, entries, copies)
    {
      var fails: bool := *;
      CopyNext(before, table.fds, entries, copies, LowestFree(table.fds.Keys, 0));
      CopyFails(before, table.fds, entries, copies);
      var copy := table.Dup(entries[i], fails);
      copies := copies + [copy];
    }
  }

  /** Descriptor fds[i] of the table is the i-th collected socket's. */
  ghost predicate Holds(table: map<Fd, OpenFd>, fds: seq<Fd>, collected: seq<SocketEntry>) {
    |fds| == |collected| && forall i | 0 <= i < |fds| :: fds[i] in table && table[fds[i]].file == collected[i].file
  }

  /** The i-th collected socket is at descriptor 3 + i, and survives exec. */
  ghost predicate Inherits(child: map<Fd, OpenFd>, collected: seq<SocketEntry>) {
    forall i | 0 <= i < |collected| :: InheritsAt(child, collected, i)
  }

  ghost predicate InheritsAt(child: map<Fd, OpenFd>, collected: seq<SocketEntry>, i: nat)
    requires i < |collected|
  {
    LISTEN_FDS_START + i in child && child[LISTEN_FDS_START + i] == OpenFd(collected[i].file, false)
  }

  /** From collected sockets to the child, for any table; the parent's own descriptors stay. */
  method PassEntries(parent: FdTable, fds: seq<Fd>, ghost collected: seq<SocketEntry>)
    returns (child: FdTable, ok: bool)
    requires Holds(parent.fds, fds, collected)
    modifies parent
    ensures fresh(child)
    ensures ok ==> Inherits(child.fds, collected)
    ensures forall x: Fd | x in old(parent.fds) :: Same(old(parent.fds), parent.fds, x)
  {
    ghost var before := parent.fds;
    var copies := DupEntries(parent, fds);
    ghost var between := parent.fds;
    child := new FdTable(parent.fds);
    ok := PassFds(child, copies);
    if ok {
      forall i | 0 <= i < |collected| ensures InheritsAt(child.fds, collected, i) {
        assert copies[i] in copies && CopiedAt(before, between, fds[i], copies[i]);
        assert child.fds[LISTEN_FDS_START + i] == OpenFd(FileOf(between, copies[i]), false);
      }
    }
  }

  // ---- LISTEN_PID -------------------------------------------------------------------------------------------

  type Byte = b: nat | b < 256

  const ZERO: Byte := 48

  predicate Digit(b: Byte) {
    ZERO <= b < ZERO + 10
  }

  /** The number a string of decimal digits denotes. */
  function Decoded(s: seq<Byte>): int {
    if s == [] then 0 else 10 * Decoded(s[..|s| - 1]) + (s[|s| - 1] - ZERO)
  }

  function Pow10(e: nat): nat {
    if e == 0 then 1 else 10 * Pow10(e - 1)
  }

  lemma TenTimes(x: int, p: int, y: int)
    ensures 10 * (x * p + y) == x * (10 * p) + 10 * y
  {
    assert 10 * (x * p) == x * (10 * p);
  }

  lemma {:induction false} DecodedAppend(a: seq<Byte>, b: seq<Byte>)
    ensures Decoded(a + b) == Decoded(a) * Pow10(|b|) + Decoded(b)
    decreases |b|
  {
    if b == [] {
      assert a + b == a;
    } else {
      var c := b[..|b| - 1];
      assert (a + b)[..|a + b| - 1] == a + c;
      DecodedAppend(a, c);
      assert Decoded(a + b) == 10 * (Decoded(a) * Pow10(|c|) + Decoded(c)) + (b[|b| - 1] - ZERO);
      TenTimes(Decoded(a), Pow10(|c|), Decoded(c));
    }
  }

  /** Decimal digits with no superfluous leading zero. */
  ghost predicate PlainDecimal(s: seq<Byte>) {
    s != [] && (forall i | 0 <= i < |s| :: Digit(s[i])) && (|s| > 1 ==> s[0] != ZERO)
  }

  /** The digits printed so far, and the value left to print in front of them. */
  ghost predicate Printing(pid: nat, val: nat, digits: seq<Byte>) {
    && |digits| <= 10 && val < Pow10(10 - |digits|)
    && (digits == [] ==> val > 0)
    && (forall i | 0 <= i < |digits| :: Digit(digits[i]))
    && (val == 0 ==> digits != [] && digits[0] != ZERO)
    && pid == val * Pow10(|digits|) + Decoded(digits)
  }

  /** Printing the last digit of a positive value leaves a value of one digit less. */
  lemma PrintDigit(pid: nat, val: nat, digits: seq<Byte>)
    requires Printing(pid, val, digits) && val > 0
    ensures |digits| < 10 && Printing(pid, val / 10, [ZERO + val % 10] + digits)
  {
    var d: seq<Byte> := [ZERO + val % 10];
    assert |digits| < 10;
    assert d[..0] == [];
    assert Decoded(d) == val % 10;
    DecodedAppend(d, digits);
    PrintStep(val, Pow10(|digits|));
  }

  lemma PrintStep(val: nat, p: nat)
    ensures val * p == (val / 10) * (10 * p) + (val % 10) * p
  {
    assert (val / 10 * 10 + val % 10) * p == (val / 10 * 10) * p + (val % 10) * p;
    assert (val / 10 * 10) * p == (val / 10) * (10 * p);
  }

  lemma PidHasTenDigits()
    ensures Pow10(10) == 10_000_000_000
  {
    assert Pow10(5) == 100_000;
  }

  /** Prints a pid from the end of a 16-byte buffer; the string runs from the result to the NUL. */
  method FormatPid(buf: array<Byte>, pid: nat) returns (idx: nat)
    requires buf.Length == 16 && pid < 0x8000_0000
    modifies buf
    ensures 5 <= idx < 15 && buf[15] == 0
    ensures PlainDecimal(buf[idx..15]) && Decoded(buf[idx..15]) == pid
  {
    var val: nat := pid;
    idx := 15;
    buf[idx] := 0;
    if val == 0 {
      idx := idx - 1;
      buf[idx] := ZERO;
      assert buf[14..15] == [ZERO];
      assert [ZERO][..0] == [];
      return;
    }
    PidHasTenDigits();
    while val > 0 && idx > 0
      invariant idx <= 15 && buf[15] == 0 && Printing(pid, val, buf[idx..15])
      decreases val
    {
      ghost var rest := buf[idx..15];
      PrintDigit(pid, val, rest);
      idx := idx - 1;
      buf[idx] := ZERO + val % 10;
      assert buf[idx..15] == [ZERO + val % 10] + rest;
      val := val / 10;
    }
  }
}
