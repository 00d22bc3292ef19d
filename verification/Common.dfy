/** Small vocabulary shared by every module: optional values, sequences without repetition, and the
    result of an SQL `SELECT ... ORDER BY key DESC LIMIT n` over a table with a primary key. */
module Common {

  datatype Option<+T> = None | Some(value: T)

  function Min(a: int, b: int): int { if a <= b then a else b }

  function Max(a: int, b: int): int { if a <= b then b else a }

  predicate ContainsText(text: string, word: string) {
    exists i :: 0 <= i <= |text| - |word| && text[i..][..|word|] == word
  }

  ghost predicate Distinct<T>(s: seq<T>) {
    forall i, j :: 0 <= i < j < |s| ==> s[i] != s[j]
  }

  ghost function Elements<T>(s: seq<T>): set<T> { set x | x in s }

  lemma {:induction false} DistinctCardinality<T>(s: seq<T>)
    requires Distinct(s)
    ensures |Elements(s)| == |s|
  {
    if s != [] {
      var front, last := s[..|s| - 1], s[|s| - 1];
      assert s == front + [last];
      DistinctCardinality(front);
      assert last !in front;
      assert Elements(s) == Elements(front) + {last};
    }
  }

  /** A sequence of distinct members of `all` is no longer than `all`, and equally long only if it lists `all`. */
  lemma DistinctWithin<T>(s: seq<T>, all: set<T>)
    requires Distinct(s) && forall x :: x in s ==> x in all
    ensures |s| <= |all|
    ensures |s| == |all| ==> Elements(s) == all
  {
    DistinctCardinality(s);
    assert Elements(s) <= all;
    SubsetCardinality(Elements(s), all);
  }

  lemma SubsetCardinality<T>(a: set<T>, b: set<T>)
    requires a <= b
    ensures |a| <= |b| && (|a| == |b| ==> a == b)
  {
    assert b == a + (b - a);
    assert |b| == |a| + |b - a|;
  }

  /** `s` without the element `x`, the rest in order: what deleting a key does to a dictionary's insertion order. */
  function Without<T(==,!new)>(s: seq<T>, x: T): (r: seq<T>)
    ensures forall y :: y in r <==> y in s && y != x
    ensures x !in s ==> r == s
  {
    if s == [] then []
    else if s[0] == x then Without(s[1..], x)
    else [s[0]] + Without(s[1..], x)
  }

  lemma {:induction false} WithoutDistinct<T(!new)>(s: seq<T>, x: T)
    requires Distinct(s)
    ensures Distinct(Without(s, x))
  {
    if s != [] {
      WithoutDistinct(s[1..], x);
      assert s[0] !in s[1..];
    }
  }

  /** The sum of all values of a map. */
  ghost function Sum<K(!new)>(m: map<K, int>): int
    decreases |m|
  {
    if m == map[] then 0
    else
      var k :| k in m;
      m[k] + Sum(m - {k})
  }

  lemma {:induction false} SumWithout<K(!new)>(m: map<K, int>, k: K)
    requires k in m
    ensures Sum(m) == m[k] + Sum(m - {k})
    decreases |m|
  {
    var picked :| picked in m && Sum(m) == m[picked] + Sum(m - {picked});
    if picked != k {
      SumWithout(m - {picked}, k);
      SumWithout(m - {k}, picked);
      assert m - {picked} - {k} == m - {k} - {picked};
    }
  }
}

/** Tables with a text primary key, as the SQLite stores use them: INSERT OR REPLACE is a map update, and a
    listing is any sequence of keys the ORDER BY ... DESC LIMIT clause allows (ties come in any order). */
module Table {
  import opened Common

  ghost predicate IsListing<K, V>(rows: map<K, V>, key: V -> real, limit: nat, ids: seq<K>) {
    && Distinct(ids)
    && (forall id :: id in ids ==> id in rows)
    && |ids| == Min(limit, |rows|)
    && (forall i, j :: 0 <= i < j < |ids| ==> key(rows[ids[i]]) >= key(rows[ids[j]]))
    && (forall id, i :: id in rows && id !in ids && 0 <= i < |ids| ==> key(rows[ids[i]]) >= key(rows[id]))
  }

  /** A listing whose limit is not reached names every row. */
  lemma ListingIsComplete<K, V>(rows: map<K, V>, key: V -> real, limit: nat, ids: seq<K>)
    requires IsListing(rows, key, limit, ids)
    requires |rows| <= limit
    ensures Elements(ids) == rows.Keys
  {
    DistinctWithin(ids, rows.Keys);
  }

  lemma {:induction false} NewestExists<K, V>(rows: map<K, V>, key: V -> real, rest: set<K>)
    requires rest != {} && rest <= rows.Keys
    ensures exists k :: k in rest && forall j :: j in rest ==> key(rows[j]) <= key(rows[k])
    decreases |rest|
  {
    var k :| k in rest;
    if rest != {k} {
      var rest' := rest - {k};
      NewestExists(rows, key, rest');
      var m :| m in rest' && forall j :: j in rest' ==> key(rows[j]) <= key(rows[m]);
      var best := if key(rows[m]) <= key(rows[k]) then k else m;
      assert forall j :: j in rest ==> j == k || j in rest';
      assert best in rest && forall j :: j in rest ==> key(rows[j]) <= key(rows[best]);
    }
  }

  /** Evaluates the ORDER BY ... DESC LIMIT clause. */
  method Newest<K(==,!new), V>(rows: map<K, V>, key: V -> real, limit: nat) returns (ids: seq<K>)
    ensures IsListing(rows, key, limit, ids)
  {
    ids := [];
    var rest := rows.Keys;
    while |ids| < limit && rest != {}
      invariant rest <= rows.Keys && Distinct(ids)
      invariant forall id :: id in ids <==> id in rows && id !in rest
      invariant |ids| <= limit && |ids| + |rest| == |rows|
      invariant forall i, j :: 0 <= i < j < |ids| ==> key(rows[ids[i]]) >= key(rows[ids[j]])
      invariant forall id, i :: id in rest && 0 <= i < |ids| ==> key(rows[ids[i]]) >= key(rows[id])
      decreases rest
    {
      NewestExists(rows, key, rest);
      var k :| k in rest && forall j :: j in rest ==> key(rows[j]) <= key(rows[k]);
      ids, rest := ids + [k], rest - {k};
    }
  }
}
