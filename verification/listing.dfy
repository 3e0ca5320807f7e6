/**
 * Listings the source sorts (`sort({ createdAt: -1 })`, `sort({ date: -1 })`)
 * and paginates (`skip`, `limit`). A listing is a sequence of identifiers
 * of the collection, each once, ordered by a key from largest to smallest;
 * the order among equal keys is not specified.
 */
module Listing {
  import opened Lookup

  predicate Distinct(r: seq<Id>) {
    forall i, j :: 0 <= i < j < |r| ==> r[i] != r[j]
  }

  predicate Within<T>(m: map<Id, T>, r: seq<Id>) {
    forall i :: 0 <= i < |r| ==> r[i] in m
  }

  predicate SortedDesc<T>(m: map<Id, T>, key: T -> int, r: seq<Id>) {
    forall i, j :: 0 <= i < j < |r| && r[i] in m && r[j] in m ==> key(m[r[i]]) >= key(m[r[j]])
  }

  /** The identifiers of a set in increasing order: a collection's natural order. */
  function InOrder(ks: set<Id>): (r: seq<Id>)
    ensures forall k :: k in r <==> k in ks
    ensures forall i, j :: 0 <= i < j < |r| ==> r[i] < r[j]
    ensures |r| == |ks|
    decreases ks
  {
    if ks == {} then []
    else
      var k := Least(ks).value;
      var rest := InOrder(ks - {k});
      PrependLeast(ks, k, rest);
      [k] + rest
  }

  /** The recursive case of `InOrder`: the least identifier goes in front of the ordered rest. */
  lemma PrependLeast(ks: set<Id>, k: Id, rest: seq<Id>)
    requires k in ks && forall j :: j in ks ==> k <= j
    requires forall x :: x in rest <==> x in ks - {k}
    requires forall i, j :: 0 <= i < j < |rest| ==> rest[i] < rest[j]
    requires |rest| == |ks - {k}|
    ensures forall x :: x in [k] + rest <==> x in ks
    ensures forall i, j :: 0 <= i < j < |[k] + rest| ==> ([k] + rest)[i] < ([k] + rest)[j]
    ensures |[k] + rest| == |ks|
  {
    var r := [k] + rest;
    forall i, j | 0 <= i < j < |r| ensures r[i] < r[j] {
      assert r[j] == rest[j - 1] && rest[j - 1] in rest;
      if i > 0 {
        assert r[i] == rest[i - 1];
      }
    }
  }

  /** Inserts `k` into a listing sorted by `key`, before the first smaller-or-equal key. */
  function Insert<T>(m: map<Id, T>, key: T -> int, r: seq<Id>, k: Id): (r': seq<Id>)
    requires Within(m, r) && k in m
    requires SortedDesc(m, key, r)
    ensures Within(m, r')
    ensures SortedDesc(m, key, r')
    ensures |r'| == |r| + 1
    ensures forall x :: x in r' <==> x in r || x == k
    ensures Distinct(r) && k !in r ==> Distinct(r')
    decreases |r|
  {
    if |r| == 0 || key(m[k]) >= key(m[r[0]]) then
      Prepend(m, key, k, r);
      [k] + r
    else
      var rest := Insert(m, key, r[1..], k);
      InsertBehind(m, key, r, k, rest);
      [r[0]] + rest
  }

  /** The recursive case of `Insert`: `k` goes behind the head of `r`, into the tail. */
  lemma InsertBehind<T>(m: map<Id, T>, key: T -> int, r: seq<Id>, k: Id, rest: seq<Id>)
    requires Within(m, r) && k in m && SortedDesc(m, key, r)
    requires |r| > 0 && key(m[k]) < key(m[r[0]])
    requires Within(m, rest) && SortedDesc(m, key, rest)
    requires forall x :: x in rest <==> x in r[1..] || x == k
    requires Distinct(r[1..]) && k !in r[1..] ==> Distinct(rest)
    ensures Within(m, [r[0]] + rest) && SortedDesc(m, key, [r[0]] + rest)
    ensures forall x :: x in [r[0]] + rest <==> x in r || x == k
    ensures Distinct(r) && k !in r ==> Distinct([r[0]] + rest)
  {
    assert r == [r[0]] + r[1..];
    forall x | x in rest ensures key(m[x]) <= key(m[r[0]]) {
      if x != k {
        var i :| 0 <= i < |r[1..]| && r[1..][i] == x;
        assert r[i + 1] == x;
      }
    }
    if Distinct(r) && k !in r {
      assert Distinct(r[1..]) by {
        forall i, j | 0 <= i < j < |r[1..]| ensures r[1..][i] != r[1..][j] {
          assert r[1..][i] == r[i + 1] && r[1..][j] == r[j + 1];
        }
      }
      assert r[0] !in r[1..] by {
        forall i | 0 <= i < |r[1..]| ensures r[1..][i] != r[0] {
          assert r[1..][i] == r[i + 1];
        }
      }
    }
    Prepend(m, key, r[0], rest);
  }

  /** Putting in front a record whose key is at least every listed key keeps the listing sorted. */
  lemma Prepend<T>(m: map<Id, T>, key: T -> int, x: Id, rest: seq<Id>)
    requires x in m && Within(m, rest) && SortedDesc(m, key, rest)
    requires forall y :: y in rest ==> key(m[y]) <= key(m[x])
    ensures Within(m, [x] + rest) && SortedDesc(m, key, [x] + rest)
    ensures Distinct(rest) && x !in rest ==> Distinct([x] + rest)
  {
    var r := [x] + rest;
    forall i, j | 0 <= i < j < |r| && r[i] in m && r[j] in m
      ensures key(m[r[i]]) >= key(m[r[j]])
    {
      if i > 0 {
        assert r[i] == rest[i - 1] && r[j] == rest[j - 1];
      } else {
        assert r[j] == rest[j - 1];
      }
    }
  }

  /** The identifiers of the records satisfying `keep`, largest `key` first. */
  method NewestFirst<T>(m: map<Id, T>, keep: T -> bool, key: T -> int) returns (r: seq<Id>)
    ensures Within(m, r)
    ensures forall k :: k in r <==> k in m && keep(m[k])
    ensures Distinct(r)
    ensures SortedDesc(m, key, r)
  {
    var todo := m.Keys;
    r := [];
    while todo != {}
      invariant todo <= m.Keys
      invariant Within(m, r)
      invariant forall k :: k in r ==> k in m && keep(m[k]) && k !in todo
      invariant forall k :: k in m && k !in todo && keep(m[k]) ==> k in r
      invariant Distinct(r)
      invariant SortedDesc(m, key, r)
      decreases todo
    {
      var k :| k in todo;
      todo := todo - {k};
      if keep(m[k]) {
        r := Insert(m, key, r, k);
      }
    }
  }

  /** A listing that holds each identifier of `ids` once is as long as `ids` is large. */
  lemma {:induction false} DistinctLength(r: seq<Id>, ids: set<Id>)
    requires Distinct(r)
    requires forall k :: k in r <==> k in ids
    ensures |r| == |ids|
    decreases |r|
  {
    if |r| > 0 {
      assert forall k :: k in r[1..] <==> k in ids - {r[0]};
      DistinctLength(r[1..], ids - {r[0]});
    } else {
      assert ids == {};
    }
  }

  /** `.skip(skip).limit(limit)`: a limit of 0 means no limit, a negative one its magnitude. */
  function Page(r: seq<Id>, skip: nat, limit: int): (p: seq<Id>)
    ensures skip >= |r| ==> p == []
    ensures skip < |r| ==> skip + |p| <= |r| && p == r[skip..skip + |p|]
    ensures forall i :: 0 <= i < |p| ==> skip + i < |r| && p[i] == r[skip + i]
    ensures limit == 0 ==> |p| == if skip <= |r| then |r| - skip else 0
    ensures limit != 0 ==> |p| <= if limit > 0 then limit else -limit
    ensures limit > 0 && skip < |r| ==> |p| == if skip + limit <= |r| then limit else |r| - skip
  {
    if skip >= |r| then []
    else
      var size := if limit > 0 then limit else -limit;
      if limit == 0 || skip + size >= |r| then r[skip..] else r[skip..skip + size]
  }

  /** A page of a listing is a listing too: its records come from the listing, each once, in the same order. */
  lemma PageKeepsOrder<T>(m: map<Id, T>, key: T -> int, r: seq<Id>, skip: nat, limit: int)
    requires Distinct(r) && SortedDesc(m, key, r)
    ensures var p := Page(r, skip, limit);
            && (forall x :: x in p ==> x in r)
            && Distinct(p) && SortedDesc(m, key, p)
  {
    var p := Page(r, skip, limit);
    if skip < |r| {
      forall i | 0 <= i < |p| ensures p[i] == r[skip + i] && p[i] in r { }
    }
  }

  /** The first `n` entries of a listing are the top `n`: no entry left out has a larger key. */
  lemma PrefixIsTop<T>(m: map<Id, T>, key: T -> int, r: seq<Id>, n: nat)
    requires n <= |r| && Within(m, r) && Distinct(r) && SortedDesc(m, key, r)
    ensures Distinct(r[..n]) && SortedDesc(m, key, r[..n])
    ensures forall u, v :: u in r && u !in r[..n] && v in r[..n] ==> key(m[v]) >= key(m[u])
  {
    forall u, v | u in r && u !in r[..n] && v in r[..n]
      ensures key(m[v]) >= key(m[u])
    {
      var i :| 0 <= i < |r| && r[i] == u;
      var j :| 0 <= j < n && r[..n][j] == v;
      assert r[j] == v;
      assert j < i;
    }
  }
}

