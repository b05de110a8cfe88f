/** The expiring map and the two-level sieve as they run. */
module ExpMapCell {
  import opened Common
  import opened ExpMap
  import Sieve

  class Expiring<K(==), V> {
    var m: map<K, Val<V>>
    const minlife: int
    const zero: V

    constructor (minlife: int, zero: V)
      ensures m == map[] && this.minlife == minlife && this.zero == zero
    {
      m := map[];
      this.minlife := minlife;
      this.zero := zero;
    }

    method Get(key: K, n: int) returns (hits: nat)
      modifies this
      ensures m == Step(old(m), minlife, zero, At(n, Op.Get(key)))
      ensures Hits(hits) == Answer(old(m), At(n, Op.Get(key)))
    {
      if key !in m {
        m := m[key := Val(zero, n, 0)];
        return 0;
      }
      var v := m[key];
      hits := if n > v.expiry then 0 else (v.hits + 1) % WRAP;
      m := m[key := v.(hits := hits)];
    }

    method Upsert(key: K, value: V, life: int, now: int) returns (hits: nat, replaced: bool)
      modifies this
      ensures m == Step(old(m), minlife, zero, At(now, Op.Upsert(key, value, life)))
      ensures Stored(hits, replaced) == Answer(old(m), At(now, Op.Upsert(key, value, life)))
    {
      var n := now + if life < minlife then minlife else life;
      replaced := key in m && now < m[key].expiry;
      var v;
      if key !in m {
        v := Val(value, n, 0);
      } else {
        v := m[key];
        if now > v.expiry {
          v := v.(hits := 0);
        }
        if n > v.expiry {
          v := v.(expiry := n);
        }
        v := v.(v := value);
      }
      m := m[key := v];
      hits := v.hits;
    }

    method Look(key: K, now: int) returns (v: V, alive: bool)
      ensures Looked(if alive then Some(v) else None) == Answer(m, At(now, Op.Look(key)))
    {
      if key in m {
        return m[key].v, now < m[key].expiry;
      }
      return zero, false;
    }

    method Delete(key: K) returns (deleted: bool)
      modifies this
      ensures m == old(m) - {key} && deleted == (key in old(m))
    {
      deleted := key in m;
      m := m - {key};
    }

    /** purgeLocked: deletes while looping over the keys, in whatever order they come. */
    method Purge(now: int) returns (n: nat)
      modifies this
      ensures m == Purged(old(m), old(m).Keys, now)
      ensures n == |old(m)| - |m|
    {
      n := 0;
      ghost var was := m;
      var rest := m.Keys;
      while rest != {}
        invariant rest <= m.Keys <= was.Keys
        invariant forall k :: k in m ==> m[k] == was[k]
        invariant forall k :: k in was && k !in rest ==> (k in m <==> now <= was[k].expiry)
        invariant n + |m| == |was|
        decreases rest
      {
        var k :| k in rest;
        if now > m[k].expiry {
          m := m - {k};
          n := n + 1;
        }
        rest := rest - {k};
      }
      assert m == Purged(was, was.Keys, now);
    }
  }

  class Sieve2K<K1(==), K2(==), V> {
    var m: map<K1, map<K2, Val<V>>>
    const life: int

    constructor (life: int)
      ensures m == map[] && this.life == life
    {
      m := map[];
      this.life := life;
    }

    method Put(k1: K1, k2: K2, v: V, now: int) returns (replaced: bool)
      modifies this
      ensures m == Sieve.Step2(old(m), life, Sieve.At2(now, Sieve.Put(k1, k2, v)))
      ensures Sieve.Answer2(old(m), Sieve.At2(now, Sieve.Put(k1, k2, v))).replaced == replaced
    {
      if k1 !in m {
        m := m[k1 := map[]];
      }
      var inn := m[k1];
      replaced := k2 in inn && now < inn[k2].expiry;
      m := m[k1 := inn[k2 := Written(Find(inn, k2), now, v, now + life)]];
    }

    /** reclaimIfEmpty: an inner map without keys is given up. */
    method ReclaimIfEmpty(k1: K1)
      modifies this
      ensures m == Sieve.Reclaimed(old(m), k1)
    {
      if k1 in m && |m[k1]| == 0 {
        m := m - {k1};
      }
    }

    method Del(k1: K1, k2: K2, ghost now: int) returns (deleted: bool)
      modifies this
      ensures m == Sieve.Step2(old(m), life, Sieve.At2(now, Sieve.Del(k1, k2)))
      ensures deleted == (k1 in old(m) && k2 in old(m)[k1])
    {
      deleted := false;
      if k1 in m {
        deleted := k2 in m[k1];
        m := m[k1 := m[k1] - {k2}];
      }
      ReclaimIfEmpty(k1);
    }
  }
}
