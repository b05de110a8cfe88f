/** The store of ExpStore as the object the gateway updates in place. */
module ExpStoreCell {
  import opened Slices
  import opened ExpStore

  function Only<T>(m: map<string, Entry<T>>, ks: set<string>): map<string, Entry<T>> {
    map k | k in ks && k in m :: m[k]
  }

  class Cell<T(==)> {
    var pri: map<string, Entry<T>>
    var past: map<string, Entry<T>>
    var lastVacuum: nat

    constructor (pri: map<string, Entry<T>>)
      ensures State() == Store(pri, map[], 0)
    {
      this.pri, past, lastVacuum := pri, map[], 0;
    }

    function State(): Store<T>
      reads this
    {
      Store(pri, past, lastVacuum)
    }

    /** relegateLocked: moves `v` into `past`, on top of what is still shown there. */
    method Relegate(k: string, v: Entry<T>, now: nat)
      modifies this`past
      ensures past == old(past)[k := Relegated(At(old(past), k), v, now)]
    {
      if k in past && WithinStale(past[k], now) {
        var cur := past[k];
        var items := CopyUniq([cur.items, v.items]);
        assert Flatten([cur.items, v.items]) == cur.items + v.items by {
          FlattenTwo(cur.items, v.items);
        }
        past := past[k := Entry(items, cur.ttl, if cur.dob < v.dob then v.dob else cur.dob)];
      } else {
        var items := CopyUniq([v.items]);
        assert Flatten([v.items]) == v.items by {
          FlattenSnoc([], v.items);
          assert [] + [v.items] == [v.items];
        }
        past := past[k := Entry(items, v.ttl, v.dob)];
      }
    }

    /** vaccumLocked: drops at most MAX_VACUUM_ITER forgotten entries, at most every two minutes. */
    method Vacuum(now: nat) returns (ghost seen: set<string>)
      modifies this`past, this`lastVacuum
      ensures State() == Vacuumed(old(State()), seen, now)
      ensures |seen| <= MAX_VACUUM_ITER
    {
      seen := {};
      if lastVacuum != 0 && now - lastVacuum < VACUUM_INTERVAL {
        return;
      }
      var n, todo := 0, past.Keys;
      while todo != {} && n < MAX_VACUUM_ITER
        invariant |seen| == n <= MAX_VACUUM_ITER
        invariant seen !! todo && todo <= old(past).Keys && seen <= old(past).Keys
        invariant past == map k | k in old(past) && (k !in seen || WithinStale(old(past)[k], now)) :: old(past)[k]
        decreases todo
      {
        var k :| k in todo;
        n, todo, seen := n + 1, todo - {k}, seen + {k};
        if !WithinStale(past[k], now) {
          past := past - {k};
        }
      }
      lastVacuum := now;
    }

    /** The loop of merge over the incoming entries, in whatever order the map yields them. */
    method MergeEntries(q: map<string, Entry<T>>, now: nat)
      modifies this`pri, this`past
      ensures pri == MergedPri(old(pri), q, now)
      ensures past == MergedPast(old(State()), q, now)
    {
      ghost var s0 := State();
      var todo := q.Keys;
      Untouched(s0, now);
      assert Only(q, q.Keys - todo) == map[];
      while todo != {}
        invariant todo <= q.Keys
        invariant pri == MergedPri(s0.pri, Only(q, q.Keys - todo), now)
        invariant past == MergedPast(s0, Only(q, q.Keys - todo), now)
        decreases todo
      {
        var k :| k in todo;
        ghost var seen := q.Keys - todo;
        MergedAt(s0, Only(q, seen), now, k);
        var pv, qv := At(pri, k), q[k];
        if !Fresh(pv, now) {
          if |pv.items| > 0 && WithinStale(pv, now) {
            Relegate(k, pv, now);
          }
          pri := pri[k := qv];
        } else {
          var items, dob;
          FlattenTwo(Alive(qv, now), Alive(pv, now));
          FlattenTwo(Alive(pv, now), Alive(qv, now));
          if !After(pv, qv) {
            items := CopyUniq([Alive(qv, now), Alive(pv, now)]);
            dob := qv.dob;
          } else {
            items := CopyUniq([Alive(pv, now), Alive(qv, now)]);
            dob := pv.dob;
          }
          if |qv.items| > 0 && WithinStale(qv, now) {
            Relegate(k, qv, now);
          }
          var ttl := if !FresherThan(pv, qv) then qv.ttl else pv.ttl;
          pri := pri[k := Entry(items, ttl, dob)];
        }
        MergeOneMorePri(s0.pri, q, seen, k, now);
        MergeOneMorePast(s0, q, seen, k, now);
        todo := todo - {k};
        assert q.Keys - todo == seen + {k};
      }
      assert Only(q, q.Keys - todo) == q;
    }

    /** Expires the fresh entries of `ks` and moves each to `past`, in any order. */
    method ExpireEntries(ks: set<string>, now: nat) returns (n: nat)
      modifies this`pri, this`past
      ensures State() == Expired(old(State()), ks, now)
      ensures n > 0 <==> exists k :: Expires(old(State()), ks, k, now)
    {
      ghost var s0 := State();
      var todo := ks;
      n := 0;
      assert State() == Expired(s0, {}, now);
      while todo != {}
        invariant todo <= ks
        invariant State() == Expired(s0, ks - todo, now)
        invariant n > 0 <==> exists k :: Expires(s0, ks - todo, k, now)
        decreases todo
      {
        var k :| k in todo;
        ghost var done := ks - todo;
        ExpiredAt(s0, done, now, k);
        if k in pri && Fresh(pri[k], now) {
          n := n + 1;
          var v := pri[k].(ttl := now);
          pri := pri[k := v];
          Relegate(k, v, now);
        }
        ExpireOneMore(s0, done, k, now);
        ExpiresOneMore(s0, done, k, now);
        todo := todo - {k};
        assert ks - todo == done + {k};
      }
      assert ks - todo == ks;
    }
  }

  lemma Untouched<T>(s: Store<T>, now: nat)
    ensures MergedPri(s.pri, map[], now) == s.pri
    ensures MergedPast(s, map[], now) == s.past
  {
  }

  lemma MergeOneMorePri<T>(pri: map<string, Entry<T>>, q: map<string, Entry<T>>, seen: set<string>, k: string, now: nat)
    requires k in q && k !in seen
    ensures MergedPri(pri, Only(q, seen + {k}), now) == MergedPri(pri, Only(q, seen), now)[k := Joined(At(pri, k), q[k], now)]
  {
  }

  lemma CapturedMore<T>(s: Store<T>, q: map<string, Entry<T>>, seen: set<string>, k: string, now: nat, j: string)
    requires k in q && k !in seen
    ensures var a, b := Only(q, seen + {k}), Only(q, seen);
            && CapturedAt(s, a, j, now) == (if j == k then CapturedAt(s, q, k, now) else CapturedAt(s, b, j, now))
            && PastAfter(s, a, j, now) == if j == k then PastAfter(s, q, k, now) else PastAfter(s, b, j, now)
  {
  }

  lemma MergeOneMorePast<T>(s: Store<T>, q: map<string, Entry<T>>, seen: set<string>, k: string, now: nat)
    requires k in q && k !in seen
    ensures MergedPast(s, Only(q, seen + {k}), now)
         == if CapturedAt(s, q, k, now)
            then MergedPast(s, Only(q, seen), now)[k := PastAfter(s, q, k, now)]
            else MergedPast(s, Only(q, seen), now)
  {
    var a, b := Only(q, seen + {k}), Only(q, seen);
    forall j
      ensures CapturedAt(s, a, j, now) == if j == k then CapturedAt(s, q, k, now) else CapturedAt(s, b, j, now)
      ensures PastAfter(s, a, j, now) == if j == k then PastAfter(s, q, k, now) else PastAfter(s, b, j, now)
    {
      CapturedMore(s, q, seen, k, now, j);
    }
    PastOneMore(s, q, a, b, k, now);
  }

  lemma PastOneMore<T>(s: Store<T>, q: map<string, Entry<T>>, a: map<string, Entry<T>>, b: map<string, Entry<T>>, k: string, now: nat)
    requires a.Keys == b.Keys + {k} && k !in b && k in q
    requires forall j :: CapturedAt(s, a, j, now) == if j == k then CapturedAt(s, q, k, now) else CapturedAt(s, b, j, now)
    requires forall j :: PastAfter(s, a, j, now) == if j == k then PastAfter(s, q, k, now) else PastAfter(s, b, j, now)
    ensures MergedPast(s, a, now) ==
            if CapturedAt(s, q, k, now) then MergedPast(s, b, now)[k := PastAfter(s, q, k, now)] else MergedPast(s, b, now)
  {
    var l := MergedPast(s, a, now);
    var r := if CapturedAt(s, q, k, now) then MergedPast(s, b, now)[k := PastAfter(s, q, k, now)] else MergedPast(s, b, now);
    assert !CapturedAt(s, b, k, now);
    forall j
      ensures (j in l <==> j in r) && (j in l ==> l[j] == r[j])
    {
      if j == k && !CapturedAt(s, q, k, now) {
        assert PastAfter(s, b, k, now) == At(s.past, k) == PastAfter(s, q, k, now);
      }
    }
  }

  lemma ExpiresOneMore<T>(s: Store<T>, done: set<string>, k: string, now: nat)
    ensures (exists j :: Expires(s, done + {k}, j, now)) <==>
            (exists j :: Expires(s, done, j, now)) || (k in s.pri && Fresh(s.pri[k], now))
  {
    forall j
      ensures Expires(s, done + {k}, j, now) <==> Expires(s, done, j, now) || (j == k && k in s.pri && Fresh(s.pri[k], now))
    {
    }
    if k in s.pri && Fresh(s.pri[k], now) {
      assert Expires(s, done + {k}, k, now);
    }
  }

  lemma ExpireOneMorePri<T>(s: Store<T>, done: set<string>, k: string, now: nat)
    requires k !in done
    ensures var p := Expired(s, done, now).pri;
            Expired(s, done + {k}, now).pri
            == if k in s.pri && Fresh(s.pri[k], now) then p[k := s.pri[k].(ttl := now)] else p
  {
  }

  lemma ExpireOneMorePast<T>(s: Store<T>, done: set<string>, k: string, now: nat)
    requires k !in done
    ensures var p := Expired(s, done, now).past;
            Expired(s, done + {k}, now).past
            == if k in s.pri && Fresh(s.pri[k], now)
               then p[k := Relegated(At(s.past, k), s.pri[k].(ttl := now), now)] else p
  {
  }

  lemma ExpireOneMore<T>(s: Store<T>, done: set<string>, k: string, now: nat)
    requires k !in done
    ensures var e := Expired(s, done, now);
            Expired(s, done + {k}, now)
            == if k in s.pri && Fresh(s.pri[k], now)
               then Store(e.pri[k := s.pri[k].(ttl := now)],
                          e.past[k := Relegated(At(s.past, k), s.pri[k].(ttl := now), now)], e.lastVacuum)
               else e
  {
    ExpireOneMorePri(s, done, k, now);
    ExpireOneMorePast(s, done, k, now);
  }
}
