/**
 * Identifiers, optional values and the lookups every handler is built from.
 *
 * A collection of the document store is a map from identifier to record.
 * MongoDB returns the first document in natural order when `findOne`
 * matches several; identifiers here are handed out in increasing order
 * (`FreshId`), so "first in natural order" is "least identifier".
 */
module Lookup {

  /** A document identifier (an ObjectId in the original system). */
  type Id = nat

  datatype Option<+T> = None | Some(value: T) {
    /** The value, or `default` when absent: how an update body's missing key leaves a field alone. */
    function Or(default: T): T {
      if Some? then value else default
    }
  }

  /** JavaScript truthiness of an optional number: absent and 0 are falsy. */
  predicate Truthy(n: Option<int>) {
    n.Some? && n.value != 0
  }

  /** A least element of a non-empty set of identifiers, found by removing one element at a time. */
  lemma {:induction false} LeastWitness(s: set<Id>) returns (k: Id)
    requires s != {}
    ensures k in s && forall j :: j in s ==> k <= j
    decreases s
  {
    var x :| x in s;
    if s == {x} {
      k := x;
    } else {
      var k' := LeastWitness(s - {x});
      k := if x < k' then x else k';
      forall j | j in s ensures k <= j {
        if j != x { assert j in s - {x}; }
      }
    }
  }

  lemma LeastExists(s: set<Id>)
    requires s != {}
    ensures exists k :: k in s && forall j :: j in s ==> k <= j
  {
    var k := LeastWitness(s);
  }

  /** A greatest element of a non-empty set of identifiers. */
  lemma {:induction false} GreatestWitness(s: set<Id>) returns (k: Id)
    requires s != {}
    ensures k in s && forall j :: j in s ==> j <= k
    decreases s
  {
    var x :| x in s;
    if s == {x} {
      k := x;
    } else {
      var k' := GreatestWitness(s - {x});
      k := if x < k' then k' else x;
      forall j | j in s ensures j <= k {
        if j != x { assert j in s - {x}; }
      }
    }
  }

  lemma GreatestExists(s: set<Id>)
    requires s != {}
    ensures exists k :: k in s && forall j :: j in s ==> j <= k
  {
    var k := GreatestWitness(s);
  }

  /** The least identifier of a set, if the set is not empty. */
  function Least(s: set<Id>): (r: Option<Id>)
    ensures r.None? <==> s == {}
    ensures r.Some? ==> r.value in s && forall j :: j in s ==> r.value <= j
  {
    if s == {} then None
    else
      LeastExists(s);
      var k :| k in s && forall j :: j in s ==> k <= j;
      Some(k)
  }

  /** An identifier not yet used in `m`, larger than every one that is. */
  function FreshId<T>(m: map<Id, T>): (r: Id)
    ensures r !in m
    ensures forall k :: k in m ==> k < r
  {
    if m.Keys == {} then 0
    else
      GreatestExists(m.Keys);
      var k :| k in m.Keys && forall j :: j in m.Keys ==> j <= k;
      k + 1
  }

  /** `findOne(filter)`: the first record (least identifier) satisfying `p`. */
  function FindFirst<T>(m: map<Id, T>, p: T -> bool): (r: Option<Id>)
    ensures r.Some? ==> r.value in m && p(m[r.value])
    ensures r.Some? ==> forall k :: k in m && p(m[k]) ==> r.value <= k
    ensures r.None? <==> forall k :: k in m ==> !p(m[k])
  {
    var matching := set k | k in m && p(m[k]);
    assert forall k :: k in m && p(m[k]) ==> k in matching;
    Least(matching)
  }

  /** `find(filter)`: the sub-collection of records satisfying `p`. */
  function Where<T>(m: map<Id, T>, p: T -> bool): (r: map<Id, T>)
    ensures forall k :: k in r <==> k in m && p(m[k])
    ensures forall k :: k in r ==> r[k] == m[k]
  {
    map k | k in m && p(m[k]) :: m[k]
  }
}
