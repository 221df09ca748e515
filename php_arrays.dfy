/** PHP's ordered arrays with string keys, the one collection type of the client.
 *  Entries keep insertion order; each array operation the client uses
 *  (`$a[$k] = $v`, `unset`, `+`, `array_intersect_key`, `array_merge`) is a
 *  function here, and the lemmas say how each one changes what a key looks up. */
module PhpArrays {
  import opened Wrappers

  /** An ordered array: (key, value) entries in insertion order. */
  type Arr<V> = seq<(string, V)>

  /** `$a[$k]`: the value of the first entry under `k`, if any. */
  function Get<V>(a: Arr<V>, k: string): Option<V>
  {
    if a == [] then None
    else if a[0].0 == k then Some(a[0].1)
    else Get(a[1..], k)
  }

  predicate HasKey<V>(a: Arr<V>, k: string)
  {
    Get(a, k).Some?
  }

  function GetOr<V>(a: Arr<V>, k: string, default: V): V
  {
    match Get(a, k)
    case Some(v) => v
    case None => default
  }

  /** No key occurs twice, as in every PHP array. */
  ghost predicate DistinctKeys<V>(a: Arr<V>)
  {
    a == [] || (!HasKey(a[1..], a[0].0) && DistinctKeys(a[1..]))
  }

  /** `$a[$k] = $v`: overwrite in place, or append a new entry at the end. */
  function Set<V>(a: Arr<V>, k: string, v: V): Arr<V>
  {
    if a == [] then [(k, v)]
    else if a[0].0 == k then [(k, v)] + a[1..]
    else [a[0]] + Set(a[1..], k, v)
  }

  /** `unset($a[$k])`: drop the entry, keep the order of the others. */
  function Unset<V>(a: Arr<V>, k: string): Arr<V>
  {
    if a == [] then []
    else (if a[0].0 == k then [] else [a[0]]) + Unset(a[1..], k)
  }

  /** The entries of `b` whose key `a` does not have. */
  function Without<V>(b: Arr<V>, a: Arr<V>): Arr<V>
  {
    if b == [] then []
    else (if HasKey(a, b[0].0) then [] else [b[0]]) + Without(b[1..], a)
  }

  /** `$a + $b`: `a`, then the entries of `b` under keys `a` lacks. */
  function Union<V>(a: Arr<V>, b: Arr<V>): Arr<V>
  {
    a + Without(b, a)
  }

  /** `array_intersect_key($a, array_flip($allowed))`: the entries of `a`
   *  whose key is allowed, in the order of `a`. */
  function IntersectKey<V>(a: Arr<V>, allowed: set<string>): Arr<V>
  {
    if a == [] then []
    else (if a[0].0 in allowed then [a[0]] else []) + IntersectKey(a[1..], allowed)
  }

  /** `array_merge($a, $b)` for string keys: every entry of `b`, in order,
   *  written into `a` as by `$a[$k] = $v`. */
  function Merge<V>(a: Arr<V>, b: Arr<V>): Arr<V>
    decreases |b|
  {
    if b == [] then a else Merge(Set(a, b[0].0, b[0].1), b[1..])
  }

  lemma {:induction false} GetAppend<V>(a: Arr<V>, b: Arr<V>, k: string)
    ensures Get(a + b, k) == if HasKey(a, k) then Get(a, k) else Get(b, k)
  {
    if a == [] {
      assert a + b == b;
    } else {
      assert (a + b)[0] == a[0];
      assert (a + b)[1..] == a[1..] + b;
      GetAppend(a[1..], b, k);
    }
  }

  lemma {:induction false} GetSet<V>(a: Arr<V>, k: string, v: V, j: string)
    ensures Get(Set(a, k, v), j) == if j == k then Some(v) else Get(a, j)
  {
    if a != [] && a[0].0 != k {
      assert ([a[0]] + Set(a[1..], k, v))[1..] == Set(a[1..], k, v);
      GetSet(a[1..], k, v, j);
    } else if a != [] {
      assert ([(k, v)] + a[1..])[1..] == a[1..];
    }
  }

  /** Setting a key the array lacks appends exactly one entry at the end. */
  lemma {:induction false} SetAbsent<V>(a: Arr<V>, k: string, v: V)
    requires !HasKey(a, k)
    ensures Set(a, k, v) == a + [(k, v)]
  {
    if a != [] {
      SetAbsent(a[1..], k, v);
      assert [a[0]] + (a[1..] + [(k, v)]) == a + [(k, v)];
    }
  }

  /** A second write to the same key replaces the first. */
  lemma {:induction false} SetSet<V>(a: Arr<V>, k: string, v: V, w: V)
    ensures Set(Set(a, k, v), k, w) == Set(a, k, w)
  {
    if a == [] {
      assert [(k, w)] + [(k, v)][1..] == [(k, w)];
    } else if a[0].0 == k {
      assert ([(k, v)] + a[1..])[1..] == a[1..];
    } else {
      assert ([a[0]] + Set(a[1..], k, v))[1..] == Set(a[1..], k, v);
      SetSet(a[1..], k, v, w);
    }
  }

  /** Setting a key the array has changes no length: the entry is overwritten in place. */
  lemma {:induction false} SetPresent<V>(a: Arr<V>, k: string, v: V)
    requires HasKey(a, k)
    ensures |Set(a, k, v)| == |a|
  {
    if a[0].0 != k {
      SetPresent(a[1..], k, v);
    }
  }

  lemma {:induction false} SetDistinct<V>(a: Arr<V>, k: string, v: V)
    requires DistinctKeys(a)
    ensures DistinctKeys(Set(a, k, v))
  {
    var r := Set(a, k, v);
    if a == [] {
      assert r[1..] == [];
    } else if a[0].0 == k {
      assert r[1..] == a[1..];
    } else {
      assert r[0] == a[0] && r[1..] == Set(a[1..], k, v);
      GetSet(a[1..], k, v, a[0].0);
      SetDistinct(a[1..], k, v);
    }
  }

  lemma {:induction false} GetUnset<V>(a: Arr<V>, k: string, j: string)
    ensures Get(Unset(a, k), j) == if j == k then None else Get(a, j)
  {
    if a != [] {
      var head: Arr<V> := if a[0].0 == k then [] else [a[0]];
      GetAppend(head, Unset(a[1..], k), j);
      GetUnset(a[1..], k, j);
    }
  }

  lemma {:induction false} GetWithout<V>(b: Arr<V>, a: Arr<V>, k: string)
    ensures Get(Without(b, a), k) == if HasKey(a, k) then None else Get(b, k)
  {
    if b != [] {
      var head: Arr<V> := if HasKey(a, b[0].0) then [] else [b[0]];
      GetAppend(head, Without(b[1..], a), k);
      GetWithout(b[1..], a, k);
    }
  }

  /** `$a + $b` looks a key up in `a` first and falls back to `b`. */
  lemma GetUnion<V>(a: Arr<V>, b: Arr<V>, k: string)
    ensures Get(Union(a, b), k) == if HasKey(a, k) then Get(a, k) else Get(b, k)
  {
    GetAppend(a, Without(b, a), k);
    GetWithout(b, a, k);
  }

  /** When no key of `b` is in `a`, `$a + $b` is plain concatenation. */
  lemma {:induction false} UnionOfDisjoint<V>(a: Arr<V>, b: Arr<V>)
    requires forall i :: 0 <= i < |b| ==> !HasKey(a, b[i].0)
    ensures Union(a, b) == a + b
  {
    WithoutNothing(b, a);
  }

  lemma {:induction false} WithoutNothing<V>(b: Arr<V>, a: Arr<V>)
    requires forall i :: 0 <= i < |b| ==> !HasKey(a, b[i].0)
    ensures Without(b, a) == b
  {
    if b != [] {
      assert forall i :: 0 <= i < |b[1..]| ==> b[1..][i] == b[i + 1];
      WithoutNothing(b[1..], a);
    }
  }

  /** array_intersect_key keeps exactly the allowed keys with their values. */
  lemma {:induction false} GetIntersectKey<V>(a: Arr<V>, allowed: set<string>, k: string)
    ensures Get(IntersectKey(a, allowed), k) == if k in allowed then Get(a, k) else None
  {
    if a != [] {
      var head: Arr<V> := if a[0].0 in allowed then [a[0]] else [];
      GetAppend(head, IntersectKey(a[1..], allowed), k);
      GetIntersectKey(a[1..], allowed, k);
    }
  }

  /** Every entry array_intersect_key keeps comes from `a` under an allowed key,
   *  and every such entry of `a` is kept. */
  lemma {:induction false} IntersectKeyEntries<V>(a: Arr<V>, allowed: set<string>)
    ensures forall e :: e in IntersectKey(a, allowed) <==> e in a && e.0 in allowed
  {
    if a != [] {
      IntersectKeyEntries(a[1..], allowed);
      var head: Arr<V> := if a[0].0 in allowed then [a[0]] else [];
      assert IntersectKey(a, allowed) == head + IntersectKey(a[1..], allowed);
      assert a == [a[0]] + a[1..];
    }
  }

  lemma {:induction false} IntersectKeyDistinct<V>(a: Arr<V>, allowed: set<string>)
    requires DistinctKeys(a)
    ensures DistinctKeys(IntersectKey(a, allowed))
  {
    if a != [] {
      IntersectKeyDistinct(a[1..], allowed);
      var rest := IntersectKey(a[1..], allowed);
      if a[0].0 in allowed {
        GetIntersectKey(a[1..], allowed, a[0].0);
        assert ([a[0]] + rest)[1..] == rest;
      } else {
        assert [] + rest == rest;
      }
    }
  }

  /** array_merge: a key `b` has takes `b`'s value; any other key keeps `a`'s. */
  lemma {:induction false} GetMerge<V>(a: Arr<V>, b: Arr<V>, k: string)
    requires DistinctKeys(b)
    ensures Get(Merge(a, b), k) == if HasKey(b, k) then Get(b, k) else Get(a, k)
    decreases |b|
  {
    if b != [] {
      GetMerge(Set(a, b[0].0, b[0].1), b[1..], k);
      GetSet(a, b[0].0, b[0].1, k);
    }
  }

  /** Merging one more entry is one more `$a[$k] = $v`: the shape of a loop
   *  that copies attributes one at a time. */
  lemma {:induction false} MergeSnoc<V>(a: Arr<V>, b: Arr<V>, k: string, v: V)
    ensures Merge(a, b + [(k, v)]) == Set(Merge(a, b), k, v)
    decreases |b|
  {
    if b == [] {
      assert [] + [(k, v)] == [(k, v)];
    } else {
      assert (b + [(k, v)])[0] == b[0];
      assert (b + [(k, v)])[1..] == b[1..] + [(k, v)];
      MergeSnoc(Set(a, b[0].0, b[0].1), b[1..], k, v);
    }
  }
}
