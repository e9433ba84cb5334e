/** Unit names under the byte order that sorts each boot wave. */
module Names {
  import opened Units

  /** Strict lexicographic order. */
  predicate Before(a: string, b: string) {
    b != [] && (a == [] || a[0] < b[0] || (a[0] == b[0] && Before(a[1..], b[1..])))
  }

  lemma {:induction false} BeforeTotal(a: string, b: string)
    ensures a == b || Before(a, b) || Before(b, a)
  {
    if a == [] || b == [] || a[0] != b[0] {
    } else {
      BeforeTotal(a[1..], b[1..]);
      assert a == [a[0]] + a[1..] && b == [b[0]] + b[1..];
    }
  }

  lemma {:induction false} BeforeStrict(a: string, b: string)
    requires Before(a, b)
    ensures a != b && !Before(b, a)
  {
    if a == [] || a[0] != b[0] {
    } else {
      BeforeStrict(a[1..], b[1..]);
    }
  }

  lemma {:induction false} BeforeTransitive(a: string, b: string, c: string)
    requires Before(a, b) && Before(b, c)
    ensures Before(a, c)
  {
    if a == [] || !(a[0] == b[0] == c[0]) {
    } else {
      BeforeTransitive(a[1..], b[1..], c[1..]);
    }
  }

  /** The names agree up to place i, where a ends or has the smaller character. */
  ghost predicate DiffersAt(a: string, b: string, i: nat) {
    i <= |a| && i < |b| && a[..i] == b[..i] && (i == |a| || a[i] < b[i])
  }

  /** The order is decided at the first place where the names differ; a name comes before its continuations. */
  lemma {:induction false} BeforeExact(a: string, b: string)
    ensures Before(a, b) <==> exists i: nat :: DiffersAt(a, b, i)
  {
    if b == [] {
    } else if a == [] || a[0] < b[0] {
      assert DiffersAt(a, b, 0);
    } else {
      BeforeExact(a[1..], b[1..]);
      forall i: nat | 0 < i <= |a| && i <= |b| && a[..i] == b[..i] ensures a[0] == b[0] {
        assert a[..i][0] == b[..i][0];
      }
      if a[0] == b[0] {
        if i: nat :| DiffersAt(a[1..], b[1..], i) {
          assert a[..i + 1] == [a[0]] + a[1..][..i] && b[..i + 1] == [b[0]] + b[1..][..i];
          assert DiffersAt(a, b, i + 1);
        }
        if i: nat :| DiffersAt(a, b, i) {
          assert a[1..][..i - 1] == a[..i][1..] && b[1..][..i - 1] == b[..i][1..];
          assert DiffersAt(a[1..], b[1..], i - 1);
        }
      }
    }
  }

  ghost predicate NoDuplicates<T>(s: seq<T>) {
    forall i, j | 0 <= i < j < |s| :: s[i] != s[j]
  }

  ghost predicate DistinctNames(arena: seq<Unit>) {
    forall i, j | 0 <= i < j < |arena| :: arena[i].name != arena[j].name
  }

  ghost predicate Live(arena: seq<Unit>, keys: seq<UnitKey>) {
    forall i | 0 <= i < |keys| :: keys[i] < |arena|
  }

  ghost predicate SortedByName(arena: seq<Unit>, keys: seq<UnitKey>)
    requires Live(arena, keys)
  {
    forall i, j | 0 <= i < j < |keys| :: Before(arena[keys[i]].name, arena[keys[j]].name)
  }

  /** Puts k at its place in a sorted wave. */
  function Insert(arena: seq<Unit>, k: UnitKey, keys: seq<UnitKey>): (r: seq<UnitKey>)
    requires k < |arena| && Live(arena, keys)
    ensures multiset(r) == multiset(keys) + multiset{k}
    ensures Live(arena, r)
    ensures DistinctNames(arena) && k !in keys && SortedByName(arena, keys) ==> SortedByName(arena, r)
  {
    if keys == [] then [k]
    else if Before(arena[k].name, arena[keys[0]].name) then
      InsertFront(arena, k, keys);
      [k] + keys
    else
      var rest := Insert(arena, k, keys[1..]);
      InsertBehind(arena, k, keys, rest);
      [keys[0]] + rest
  }

  lemma InsertFront(arena: seq<Unit>, k: UnitKey, keys: seq<UnitKey>)
    requires k < |arena| && Live(arena, keys) && keys != []
    requires Before(arena[k].name, arena[keys[0]].name)
    ensures Live(arena, [k] + keys)
    ensures multiset([k] + keys) == multiset(keys) + multiset{k}
    ensures SortedByName(arena, keys) ==> SortedByName(arena, [k] + keys)
  {
    if SortedByName(arena, keys) {
      forall j | 0 < j < |keys| ensures Before(arena[k].name, arena[keys[j]].name) {
        BeforeTransitive(arena[k].name, arena[keys[0]].name, arena[keys[j]].name);
      }
    }
  }

  lemma InsertBehind(arena: seq<Unit>, k: UnitKey, keys: seq<UnitKey>, rest: seq<UnitKey>)
    requires k < |arena| && Live(arena, keys) && keys != [] && Live(arena, rest)
    requires !Before(arena[k].name, arena[keys[0]].name)
    requires multiset(rest) == multiset(keys[1..]) + multiset{k}
    ensures Live(arena, [keys[0]] + rest)
    ensures multiset([keys[0]] + rest) == multiset(keys) + multiset{k}
    ensures DistinctNames(arena) && k !in keys && SortedByName(arena, keys) && SortedByName(arena, rest)
            ==> SortedByName(arena, [keys[0]] + rest)
  {
    assert keys == [keys[0]] + keys[1..];
    if DistinctNames(arena) && k !in keys && SortedByName(arena, keys) {
      BeforeTotal(arena[k].name, arena[keys[0]].name);
      forall j | 0 <= j < |rest| ensures Before(arena[keys[0]].name, arena[rest[j]].name) {
        assert rest[j] in multiset(rest);
        assert rest[j] == k || rest[j] in keys[1..];
      }
    }
  }

  /** The library's stable sort by name, over a list of keys. */
  function Sort(arena: seq<Unit>, keys: seq<UnitKey>): (r: seq<UnitKey>)
    requires Live(arena, keys)
    ensures multiset(r) == multiset(keys)
    ensures Live(arena, r)
    ensures DistinctNames(arena) && NoDuplicates(keys) ==> SortedByName(arena, r)
  {
    if keys == [] then []
    else
      assert keys == [keys[0]] + keys[1..];
      var rest := Sort(arena, keys[1..]);
      assert keys[0] in rest ==> keys[0] in multiset(keys[1..]);
      Insert(arena, keys[0], rest)
  }

  /** A wave in name order is determined by the set of its units. */
  lemma {:induction false} SortedUnique(arena: seq<Unit>, a: seq<UnitKey>, b: seq<UnitKey>)
    requires Live(arena, a) && Live(arena, b) && SortedByName(arena, a) && SortedByName(arena, b)
    requires forall k :: k in a <==> k in b
    ensures a == b
  {
    assert a != [] ==> a[0] in a;
    assert b != [] ==> b[0] in b;
    if a == [] {
    } else {
      HeadFirst(arena, a, b);
      SortedDistinct(arena, a);
      SortedDistinct(arena, b);
      assert a == [a[0]] + a[1..] && b == [b[0]] + b[1..];
      forall k ensures k in a[1..] <==> k in b[1..] {
        assert k in a <==> k == a[0] || k in a[1..];
        assert k in b <==> k == b[0] || k in b[1..];
      }
      SortedUnique(arena, a[1..], b[1..]);
      assert a == [a[0]] + a[1..] && b == [b[0]] + b[1..];
    }
  }

  lemma HeadFirst(arena: seq<Unit>, a: seq<UnitKey>, b: seq<UnitKey>)
    requires Live(arena, a) && Live(arena, b) && SortedByName(arena, a) && SortedByName(arena, b)
    requires a != [] && b != [] && a[0] in b && b[0] in a
    ensures a[0] == b[0]
  {
    if a[0] != b[0] {
      var i :| 0 <= i < |a| && a[i] == b[0];
      var j :| 0 <= j < |b| && b[j] == a[0];
      BeforeStrict(arena[a[0]].name, arena[b[0]].name);
    }
  }

  lemma SortedDistinct(arena: seq<Unit>, keys: seq<UnitKey>)
    requires Live(arena, keys) && SortedByName(arena, keys)
    ensures NoDuplicates(keys)
  {
    forall i, j | 0 <= i < j < |keys| ensures keys[i] != keys[j] {
      BeforeStrict(arena[keys[i]].name, arena[keys[j]].name);
    }
  }
}
