/** Tables are sequences of records. This module holds the lookups every
    repository performs on them: the first row whose key equals a value
    (JavaScript's `Array.prototype.find`, and Prisma's `findUnique` on a
    table whose key is unique), key uniqueness, removal of one row, and the
    ascending-id order a `findMany({ orderBy: { id: "asc" } })` returns. */
module Tables {
  import opened Wrappers

  /** No row of `s` has key `k`. */
  predicate Absent<T, K(==)>(s: seq<T>, key: T -> K, k: K)
  {
    forall j :: 0 <= j < |s| ==> key(s[j]) != k
  }

  /** Row `i` is the first row of `s` whose key is `k`. */
  predicate FirstMatch<T, K(==)>(s: seq<T>, key: T -> K, k: K, i: int)
  {
    0 <= i < |s| && key(s[i]) == k && forall j :: 0 <= j < i ==> key(s[j]) != k
  }

  /** The index of the first row whose key is `k`, if there is one. */
  function Find<T, K(==)>(s: seq<T>, key: T -> K, k: K): (r: Option<nat>)
    ensures r.None? <==> Absent(s, key, k)
    ensures r.Some? ==> FirstMatch(s, key, k, r.value)
    decreases |s|
  {
    if |s| == 0 then None
    else if key(s[0]) == k then Some(0)
    else
      match Find(s[1..], key, k)
      case None => None
      case Some(i) => Some(i + 1)
  }

  /** There is only one first match. */
  lemma FirstMatchIsUnique<T, K>(s: seq<T>, key: T -> K, k: K, i: int, j: int)
    requires FirstMatch(s, key, k, i) && FirstMatch(s, key, k, j)
    ensures i == j
  {
  }

  /** `x` is the first row of `s` whose key is `k`: the row
      `Array.prototype.find` returns. */
  ghost predicate IsFirst<T, K>(s: seq<T>, key: T -> K, k: K, x: T)
  {
    exists i :: 0 <= i < |s| && FirstMatch(s, key, k, i) && s[i] == x
  }

  /** The first row whose key is `k`, if there is one. */
  function Lookup<T, K(==)>(s: seq<T>, key: T -> K, k: K): (r: Option<T>)
    ensures r.None? <==> Absent(s, key, k)
    ensures r.Some? ==> IsFirst(s, key, k, r.value) && key(r.value) == k
  {
    match Find(s, key, k)
    case None => None
    case Some(i) => Some(s[i])
  }

  /** The first row is the one `Lookup` returns. */
  lemma LookupOfFirst<T, K>(s: seq<T>, key: T -> K, k: K, x: T)
    requires IsFirst(s, key, k, x)
    ensures Lookup(s, key, k) == Some(x)
  {
    var i :| 0 <= i < |s| && FirstMatch(s, key, k, i) && s[i] == x;
    var j := Find(s, key, k).value;
    FirstMatchIsUnique(s, key, k, i, j);
  }

  /** No two rows share a key (a primary key or a `@unique` column). */
  predicate Unique<T, K(==)>(s: seq<T>, key: T -> K)
  {
    forall i, j :: 0 <= i < j < |s| ==> key(s[i]) != key(s[j])
  }

  /** Under unique keys, two rows with the same key are the same row. */
  lemma SameKeySameIndex<T, K>(s: seq<T>, key: T -> K, a: int, b: int)
    requires Unique(s, key) && 0 <= a < |s| && 0 <= b < |s| && key(s[a]) == key(s[b])
    ensures a == b
  {
  }

  /** A prefix of a table with unique keys has unique keys. */
  lemma UniqueOfPrefix<T, K>(s: seq<T>, key: T -> K, n: nat)
    requires Unique(s, key) && n <= |s|
    ensures Unique(s[..n], key)
  {
  }

  /** Appending a row whose key is new keeps the key unique. */
  lemma UniqueAfterAppend<T, K>(s: seq<T>, key: T -> K, x: T)
    requires Unique(s, key) && Absent(s, key, key(x))
    ensures Unique(s + [x], key)
  {
  }

  /** Overwriting row `i` keeps the key unique when no other row has the
      new key. */
  lemma UniqueAfterReplace<T, K>(s: seq<T>, key: T -> K, i: nat, x: T)
    requires Unique(s, key) && i < |s|
    requires forall j :: 0 <= j < |s| && j != i ==> key(s[j]) != key(x)
    ensures Unique(s[i := x], key)
  {
  }

  /** The table without its row `i`. */
  function Remove<T>(s: seq<T>, i: nat): (r: seq<T>)
    requires i < |s|
    ensures |r| == |s| - 1
    ensures forall j :: 0 <= j < i ==> r[j] == s[j]
    ensures forall j :: i <= j < |r| ==> r[j] == s[j + 1]
    ensures multiset(r) + multiset{s[i]} == multiset(s)
  {
    assert s == s[..i] + [s[i]] + s[i + 1..];
    s[..i] + s[i + 1..]
  }

  /** Removing a row keeps any key unique. */
  lemma UniqueAfterRemove<T, K>(s: seq<T>, key: T -> K, i: nat)
    requires Unique(s, key) && i < |s|
    ensures Unique(Remove(s, i), key)
  {
    var r := Remove(s, i);
    forall a, b | 0 <= a < b < |r| ensures key(r[a]) != key(r[b]) {
      var a' := if a < i then a else a + 1;
      var b' := if b < i then b else b + 1;
      assert r[a] == s[a'] && r[b] == s[b'] && a' < b';
    }
  }

  /** Rows in ascending order of `key`. */
  predicate SortedBy<T>(s: seq<T>, key: T -> int)
  {
    forall i, j :: 0 <= i < j < |s| ==> key(s[i]) <= key(s[j])
  }

  /** `x` inserted into a sorted table at its place. */
  function Insert<T>(x: T, s: seq<T>, key: T -> int): (r: seq<T>)
    requires SortedBy(s, key)
    ensures SortedBy(r, key)
    ensures multiset(r) == multiset(s) + multiset{x}
    decreases |s|
  {
    if |s| == 0 then [x]
    else if key(x) <= key(s[0]) then [x] + s
    else
      var rest := Insert(x, s[1..], key);
      assert s == [s[0]] + s[1..];
      assert forall y | y in multiset(rest) :: key(s[0]) <= key(y) by {
        forall y | y in multiset(rest) ensures key(s[0]) <= key(y) {
          if y != x {
            assert y in multiset(s[1..]);
            var k :| 0 <= k < |s[1..]| && s[1..][k] == y;
            assert s[k + 1] == y;
          }
        }
      }
      assert forall k | 0 <= k < |rest| :: rest[k] in multiset(rest);
      [s[0]] + rest
  }

  /** The table in ascending order of `key`: a sorted permutation of it. */
  function SortBy<T>(s: seq<T>, key: T -> int): (r: seq<T>)
    ensures SortedBy(r, key)
    ensures multiset(r) == multiset(s)
    decreases |s|
  {
    if |s| == 0 then []
    else
      assert s == [s[0]] + s[1..];
      Insert(s[0], SortBy(s[1..], key), key)
  }
}
