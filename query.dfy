/**
 * The few ORM query shapes the application uses, over a table held as a
 * sequence of rows in primary-key order: `filter`, `count`, `get` and a
 * lookup by primary key.
 */
module Query {
  import opened Wrappers

  /** `Model.objects.filter(p)`: the rows satisfying `p`, in table order. */
  function Filter<T(==)>(s: seq<T>, p: T -> bool): (r: seq<T>)
    ensures |r| <= |s|
    ensures forall x :: x in r ==> x in s && p(x)
    ensures forall x :: x in s && p(x) ==> x in r
    ensures forall x {:trigger multiset(r)[x]} :: x in s ==> multiset(r)[x] == if p(x) then multiset(s)[x] else 0
  {
    if s == [] then []
    else
      assert s == [s[0]] + s[1..];
      (if p(s[0]) then [s[0]] else []) + Filter(s[1..], p)
  }

  /** Every key occurs at most once: a primary-key or unique column. */
  ghost predicate UniqueBy<T, K>(s: seq<T>, key: T -> K)
  {
    forall i, j :: 0 <= i < j < |s| ==> key(s[i]) != key(s[j])
  }

  /** No row occurs twice. */
  ghost predicate NoDuplicates<T>(s: seq<T>)
  {
    forall i, j :: 0 <= i < j < |s| ==> s[i] != s[j]
  }

  /** `get(pk=...)` on a primary key: the first row satisfying `p`, if any. */
  function First<T>(s: seq<T>, p: T -> bool): (r: Option<T>)
    ensures r.Some? ==> r.value in s && p(r.value)
    ensures r.None? ==> forall x :: x in s ==> !p(x)
    ensures (forall x :: x in s ==> !p(x)) ==> r.None?
  {
    if s == [] then None
    else if p(s[0]) then Some(s[0])
    else First(s[1..], p)
  }

  /** The outcome of Django's `get()` on a non-unique column. */
  datatype Lookup<T> = NoRow | OneRow(row: T) | ManyRows

  /** `get(p)`: DoesNotExist with no match, the row with one, MultipleObjectsReturned with more. */
  function Get<T(==)>(s: seq<T>, p: T -> bool): (r: Lookup<T>)
    ensures r.NoRow? ==> forall x :: x in s ==> !p(x)
    ensures (forall x :: x in s ==> !p(x)) ==> r.NoRow?
    ensures r.OneRow? ==> r.row in s && p(r.row) && forall x :: x in s && p(x) ==> x == r.row
    ensures r.OneRow? <==> |Filter(s, p)| == 1
    ensures r.OneRow? ==> Filter(s, p) == [r.row]
    ensures r.ManyRows? <==> |Filter(s, p)| >= 2
  {
    var matches := Filter(s, p);
    assert matches != [] ==> matches[0] in matches;
    if |matches| == 0 then NoRow
    else if |matches| == 1 then
      assert matches == [matches[0]];
      OneRow(matches[0])
    else ManyRows
  }

  /** Applies `f` to every row, keeping the order. */
  function MapRows<T, U>(s: seq<T>, f: T -> U): (r: seq<U>)
    ensures |r| == |s|
    ensures forall i :: 0 <= i < |s| ==> r[i] == f(s[i])
    ensures forall y :: y in r ==> exists x :: x in s && y == f(x)
    ensures forall x :: x in s ==> f(x) in r
  {
    if s == [] then [] else [f(s[0])] + MapRows(s[1..], f)
  }

  /** Two rows of a table with unique keys that share a key are the same row. */
  lemma UniqueKeyDetermines<T, K>(s: seq<T>, key: T -> K, x: T, y: T)
    requires UniqueBy(s, key)
    requires x in s && y in s && key(x) == key(y)
    ensures x == y
  {
    var i :| 0 <= i < |s| && s[i] == x;
    var j :| 0 <= j < |s| && s[j] == y;
    assert i == j;
  }

  /** On a table with unique keys, `get()` by key never returns MultipleObjectsReturned. */
  lemma GetOnUniqueKey<T, K>(s: seq<T>, key: T -> K, k: K, p: T -> bool)
    requires UniqueBy(s, key)
    requires forall x :: p(x) ==> key(x) == k
    ensures !Get(s, p).ManyRows?
  {
    var matches := Filter(s, p);
    NoDuplicatesOfUnique(s, key);
    FilterNoDuplicates(s, p);
    if |matches| >= 2 {
      assert matches[0] in s && matches[1] in s;
      UniqueKeyDetermines(s, key, matches[0], matches[1]);
      assert false;
    }
  }

  /** A table with unique keys has no repeated row. */
  lemma NoDuplicatesOfUnique<T, K>(s: seq<T>, key: T -> K)
    requires UniqueBy(s, key)
    ensures NoDuplicates(s)
  {
    forall i, j | 0 <= i < j < |s| ensures s[i] != s[j] {
      assert key(s[i]) != key(s[j]);
    }
  }

  /** Filtering a table without repeated rows yields no repeated row. */
  lemma {:induction false} FilterNoDuplicates<T>(s: seq<T>, p: T -> bool)
    requires NoDuplicates(s)
    ensures NoDuplicates(Filter(s, p))
  {
    if s != [] {
      var tail := s[1..];
      assert NoDuplicates(tail) by {
        forall i, j | 0 <= i < j < |tail| ensures tail[i] != tail[j] {
          assert tail[i] == s[i + 1] && tail[j] == s[j + 1];
        }
      }
      FilterNoDuplicates(tail, p);
      assert s[0] !in tail by {
        forall k | 0 <= k < |tail| ensures tail[k] != s[0] {
          assert tail[k] == s[k + 1];
        }
      }
    }
  }

  /** Filtering keeps keys unique. */
  lemma {:induction false} FilterUnique<T, K>(s: seq<T>, p: T -> bool, key: T -> K)
    requires UniqueBy(s, key)
    ensures UniqueBy(Filter(s, p), key)
  {
    if s != [] {
      var tail := s[1..];
      assert UniqueBy(tail, key) by {
        forall i, j | 0 <= i < j < |tail| ensures key(tail[i]) != key(tail[j]) {
          assert tail[i] == s[i + 1] && tail[j] == s[j + 1];
        }
      }
      FilterUnique(tail, p, key);
      forall x | x in Filter(tail, p) ensures key(x) != key(s[0]) {
        var k :| 0 <= k < |tail| && tail[k] == x;
        assert tail[k] == s[k + 1];
      }
    }
  }

  /** A map that keeps every row's key keeps the keys unique. */
  lemma MapRowsUnique<T, K>(s: seq<T>, f: T -> T, key: T -> K)
    requires UniqueBy(s, key)
    requires forall x :: x in s ==> key(f(x)) == key(x)
    ensures UniqueBy(MapRows(s, f), key)
  {
    var r := MapRows(s, f);
    forall i, j | 0 <= i < j < |r| ensures key(r[i]) != key(r[j]) {
      assert r[i] == f(s[i]) && r[j] == f(s[j]);
      assert key(s[i]) != key(s[j]);
    }
  }

  /** Filtering distributes over concatenation of tables. */
  lemma {:induction false} FilterAppend<T>(s: seq<T>, t: seq<T>, p: T -> bool)
    ensures Filter(s + t, p) == Filter(s, p) + Filter(t, p)
  {
    if s == [] {
      assert s + t == t;
    } else {
      assert (s + t)[0] == s[0];
      assert (s + t)[1..] == s[1..] + t;
      FilterAppend(s[1..], t, p);
    }
  }

  /** A filter that no row satisfies is empty. */
  lemma FilterNone<T>(s: seq<T>, p: T -> bool)
    requires forall x :: x in s ==> !p(x)
    ensures Filter(s, p) == []
  {
  }
}
