/** Shared vocabulary: optional values, results and identifiers. */
module Basics {
  datatype Option<+T> = None | Some(value: T) {
    function GetOr(default: T): T {
      if Some? then value else default
    }

    function Or(other: Option<T>): Option<T> {
      if Some? then this else other
    }
  }

  datatype Result<+T, +E> = Ok(value: T) | Err(error: E)

  /** Identifiers are opaque to the broker: only their equality and one fixed
      total order matter, so natural numbers stand for them. */
  type Id = nat

  /** An identifier factory (the source draws random UUIDs). */
  method FreshId(used: set<Id>) returns (id: Id)
    ensures forall x :: x in used ==> x < id
  {
    id := 0;
    var rest := used;
    while rest != {}
      invariant forall x :: x in used ==> x in rest || x < id
      decreases rest
    {
      var x :| x in rest;
      if id <= x {
        id := x + 1;
      }
      rest := rest - {x};
    }
  }

  // ----- sequences as ordered sets -----

  function Elements<T>(s: seq<T>): set<T> {
    set x | x in s
  }

  ghost predicate NoRepeats<T>(s: seq<T>) {
    forall i, j :: 0 <= i < j < |s| ==> s[i] != s[j]
  }

  lemma AppendNew<T>(s: seq<T>, x: T)
    ensures Elements(s + [x]) == Elements(s) + {x}
    ensures NoRepeats(s) && x !in Elements(s) ==> NoRepeats(s + [x])
  {
    if NoRepeats(s) && x !in Elements(s) {
      assert forall i :: 0 <= i < |s| ==> s[i] in Elements(s);
    }
  }

  lemma ConcatNew<T>(a: seq<T>, b: seq<T>)
    requires NoRepeats(a) && NoRepeats(b) && Elements(a) !! Elements(b)
    ensures NoRepeats(a + b) && Elements(a + b) == Elements(a) + Elements(b)
  {
    assert forall i :: 0 <= i < |a| ==> a[i] in Elements(a);
    assert forall i :: 0 <= i < |b| ==> b[i] in Elements(b);
  }

  lemma {:induction false} SubsetSize<T>(a: set<T>, b: set<T>)
    requires a <= b
    ensures |a| <= |b|
    ensures |a| == |b| ==> a == b
    decreases |a|
  {
    if a != {} {
      var x :| x in a;
      SubsetSize(a - {x}, b - {x});
      assert a == (a - {x}) + {x} && b == (b - {x}) + {x};
    }
  }

  // ----- maps -----

  lemma UpdateThenRemove<K, V>(m: map<K, V>, k: K, v: V)
    ensures m[k := v] - {k} == m - {k}
  {
  }

  lemma PlusNothing<K, V>(m: map<K, V>)
    ensures m + map[] == m
  {
  }

  lemma PlusUpdate<K, V>(a: map<K, V>, b: map<K, V>, k: K, v: V)
    ensures a + b[k := v] == (a + b)[k := v]
  {
  }

  /** The part of a map whose keys are in a set. */
  function Restrict<K, V>(m: map<K, V>, keep: set<K>): map<K, V> {
    map k | k in m && k in keep :: m[k]
  }

  /** Deletes, key by key, every entry whose key is not retained. */
  method PruneMapEntries<K, V>(items: map<K, V>, retained: set<K>) returns (pruned: map<K, V>)
    ensures pruned == Restrict(items, retained)
  {
    pruned := items;
    var rest := items.Keys;
    while rest != {}
      invariant rest <= items.Keys
      invariant pruned.Keys == rest + (items.Keys * retained)
      invariant forall k :: k in pruned ==> pruned[k] == items[k]
      decreases rest
    {
      var k :| k in rest;
      if k !in retained {
        pruned := pruned - {k};
      }
      rest := rest - {k};
    }
  }
}
