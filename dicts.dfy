/**
 * Python dictionaries with string keys, modelled as insertion-ordered
 * sequences of (key, value) pairs.  Every operation recurses on the
 * prefix `d[..|d| - 1]`, so that a loop walking a dictionary from the
 * front keeps the invariant `acc == F(d[..i])`.  A later pair for a key
 * shadows an earlier one, as a later assignment `d[k] = v` would.
 */
module Dicts {
  import opened Wrappers

  type Dict<V> = seq<(string, V)>

  /** The key set of the dictionary. */
  function Keys<V>(d: Dict<V>): set<string>
  {
    if d == [] then {} else Keys(d[..|d| - 1]) + {d[|d| - 1].0}
  }

  /** `d.get(k)`: the value stored under `k`, if any. */
  function Lookup<V>(d: Dict<V>, k: string): (r: Option<V>)
    ensures r.Some? <==> k in Keys(d)
  {
    if d == [] then None
    else if d[|d| - 1].0 == k then Some(d[|d| - 1].1)
    else Lookup(d[..|d| - 1], k)
  }

  /** No key occurs twice, as in every real dictionary. */
  predicate UniqueKeys<V>(d: Dict<V>)
  {
    d == [] || (UniqueKeys(d[..|d| - 1]) && d[|d| - 1].0 !in Keys(d[..|d| - 1]))
  }

  /** What appending one pair does to the keys and the uniqueness of a dictionary. */
  lemma Snoc<V>(p: Dict<V>, e: (string, V))
    ensures (p + [e])[..|p|] == p
    ensures Keys(p + [e]) == Keys(p) + {e.0}
    ensures UniqueKeys(p + [e]) <==> UniqueKeys(p) && e.0 !in Keys(p)
  {
  }

  /** `d[k] = v`: replaces the value of an existing key in place, appends a new key at the end. */
  function Put<V>(d: Dict<V>, k: string, v: V): (r: Dict<V>)
    ensures Keys(r) == Keys(d) + {k}
    ensures UniqueKeys(d) ==> UniqueKeys(r)
    ensures k !in Keys(d) ==> r == d + [(k, v)]
  {
    if k !in Keys(d) then
      Snoc(d, (k, v));
      d + [(k, v)]
    else
      var p, last := d[..|d| - 1], d[|d| - 1];
      assert d == p + [last];
      Snoc(p, last);
      if last.0 == k then
        Snoc(p, (k, v));
        p + [(k, v)]
      else
        var q := Put(p, k, v);
        Snoc(q, last);
        q + [last]
  }

  /** After `d[k] = v`, key `k` holds `v` and every other key holds what it held before. */
  lemma {:induction false} PutLookup<V>(d: Dict<V>, k: string, v: V, j: string)
    ensures Lookup(Put(d, k, v), j) == if j == k then Some(v) else Lookup(d, j)
  {
    if k !in Keys(d) {
      Snoc(d, (k, v));
    } else {
      var p, last := d[..|d| - 1], d[|d| - 1];
      assert d == p + [last];
      Snoc(p, last);
      if last.0 == k {
        Snoc(p, (k, v));
      } else {
        var q := Put(p, k, v);
        Snoc(q, last);
        PutLookup(p, k, v, j);
      }
    }
  }

  /** In a dictionary without repeated keys, the pair at each position is what a lookup of its key finds. */
  lemma {:induction false} LookupAt<V>(d: Dict<V>, i: nat)
    requires UniqueKeys(d) && i < |d|
    ensures Lookup(d, d[i].0) == Some(d[i].1)
  {
    if i < |d| - 1 {
      var p := d[..|d| - 1];
      assert p[i] == d[i];
      LookupAt(p, i);
      assert d[i].0 in Keys(p);
    }
  }

  /** A lookup that finds a value finds it at some position of the dictionary. */
  lemma {:induction false} LookupPosition<V>(d: Dict<V>, k: string) returns (i: nat)
    requires Lookup(d, k).Some?
    ensures i < |d| && d[i] == (k, Lookup(d, k).value)
  {
    if d[|d| - 1].0 == k {
      i := |d| - 1;
    } else {
      var p := d[..|d| - 1];
      i := LookupPosition(p, k);
      assert d[i] == p[i];
    }
  }
}
