/**
 Inverting a dictionary by walking its items and writing each value back to
 its key, as the protocol module does to derive its numeric-to-symbolic table
 from the symbolic-to-numeric one.
 */
module MapInversion {

  /** No two keys of `m` share a value. */
  ghost predicate Injective<K, V>(m: map<K, V>)
  {
    forall k1, k2 :: k1 in m && k2 in m && m[k1] == m[k2] ==> k1 == k2
  }

  /** `inv` undoes `m` and `m` undoes `inv`: the lookup round-trips in both directions. */
  ghost predicate IsInverse<K, V>(m: map<K, V>, inv: map<V, K>)
  {
    && inv.Keys == m.Values
    && (forall v :: v in inv ==> inv[v] in m && m[inv[v]] == v)
    && (forall k :: k in m ==> m[k] in inv && inv[m[k]] == k)
  }

  /**
   `inv` is what the inversion has built after visiting the keys in `done`:
   each visited key's value is present, and every entry maps a value back to
   a visited key that carries it. When `m` is injective, each visited key is
   recovered exactly.
   */
  ghost predicate InvertsVisited<K, V>(m: map<K, V>, done: set<K>, inv: map<V, K>)
  {
    && done <= m.Keys
    && (forall k :: k in done ==> m[k] in inv)
    && (forall v :: v in inv ==> inv[v] in done && m[inv[v]] == v)
    && (Injective(m) ==> forall k :: k in done ==> inv[m[k]] == k)
  }

  /**
   Builds the inverse of `m` starting from an empty map and, for each key
   `k` taken in no particular order, setting `inv[m[k]] := k`.

   Every value of `m` becomes a key of the result and is mapped back to a key
   that carries it. When `m` is injective no write overwrites an earlier one,
   so the result is the inverse of `m`, whatever order the keys were visited
   in, and it has as many entries as `m`.
   */
  method Invert<K(==), V(==)>(m: map<K, V>) returns (inv: map<V, K>)
    ensures inv.Keys == m.Values
    ensures forall v :: v in inv ==> inv[v] in m && m[inv[v]] == v
    ensures Injective(m) ==> IsInverse(m, inv) && |inv| == |m|
  {
    inv := map[];
    var todo := m.Keys;
    ghost var done: set<K> := {};
    while todo != {}
      invariant todo !! done && todo + done == m.Keys
      invariant InvertsVisited(m, done, inv)
      decreases todo
    {
      var k :| k in todo;
      VisitStep(m, done, inv, k);
      inv := inv[m[k] := k];
      todo := todo - {k};
      done := done + {k};
    }
    assert done == m.Keys;
    assert inv.Keys == m.Values by {
      forall v | v in m.Values
        ensures v in inv
      {
        var k :| k in m && m[k] == v;
      }
    }
    if Injective(m) {
      InverseSize(m, inv);
    }
  }

  /** Visiting one more key keeps the partial inverse in step with the visited keys. */
  lemma VisitStep<K, V>(m: map<K, V>, done: set<K>, inv: map<V, K>, k: K)
    requires InvertsVisited(m, done, inv) && k in m && k !in done
    ensures InvertsVisited(m, done + {k}, inv[m[k] := k])
  {
  }

  /** Only an injective map has an inverse: two keys with one value cannot both be recovered. */
  lemma InverseOnlyIfInjective<K, V>(m: map<K, V>, inv: map<V, K>)
    requires IsInverse(m, inv)
    ensures Injective(m)
  {
  }

  /** Being inverses is symmetric: the two tables are mutual inverses. */
  lemma InverseIsMutual<K, V>(m: map<K, V>, inv: map<V, K>)
    requires IsInverse(m, inv)
    ensures IsInverse(inv, m)
  {
  }

  /** The inverse is unique, so it does not depend on the order in which it was built. */
  lemma InverseUnique<K, V>(m: map<K, V>, a: map<V, K>, b: map<V, K>)
    requires IsInverse(m, a) && IsInverse(m, b)
    ensures a == b
  {
  }

  /** An inverse has exactly as many entries as the map it inverts. */
  lemma {:induction false} InverseSize<K, V>(m: map<K, V>, inv: map<V, K>)
    requires IsInverse(m, inv)
    ensures |inv| == |m|
    decreases |m|
  {
    if m != map[] {
      var k :| k in m;
      var m' := m - {k};
      var inv' := inv - {m[k]};
      InverseOnlyIfInjective(m, inv);
      assert m'.Values == m.Values - {m[k]} by {
        forall v | v in m.Values - {m[k]}
          ensures v in m'.Values
        {
          assert inv[v] in m';
        }
      }
      assert IsInverse(m', inv');
      InverseSize(m', inv');
      assert |m'| == |m| - 1;
      assert |inv'| == |inv| - 1;
    } else {
      assert inv.Keys == {};
    }
  }
}
