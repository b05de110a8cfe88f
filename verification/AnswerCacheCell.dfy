/** A cache bucket as it runs. */
module AnswerCacheCell {
  import opened AnswerCache

  lemma LeftNext(c: map<string, Cached>, visited: set<string>, k: string, t: int)
    requires k in c && k !in visited
    ensures k in Left(c, visited, t) && Left(c, visited, t)[k] == c[k]
    ensures Left(c, visited + {k}, t) == if t > c[k].expiry then Left(c, visited, t) - {k} else Left(c, visited, t)
  {
  }

  lemma NothingLeft(c: map<string, Cached>, t: int)
    ensures Left(c, {}, t) == c
  {
  }

  /** Visits keys in whatever order the map yields them, and stops after the limit. */
  method ScrubLoop(c: map<string, Cached>, t: int, highload: bool) returns (left: map<string, Cached>, ghost visited: set<string>)
    ensures left == if highload then Left(c, visited, t) else c
    ensures Visits(c, visited)
  {
    left, visited := c, {};
    NothingLeft(c, t);
    var rest, i := c.Keys, 0;
    while rest != {}
      invariant rest !! visited && rest + visited == c.Keys
      invariant i == |visited| <= MAX_SCRUBS && |rest| + |visited| == |c|
      invariant left == if highload then Left(c, visited, t) else c
      decreases rest
    {
      var k :| k in rest;
      LeftNext(c, visited, k, t);
      rest, visited, i := rest - {k}, visited + {k}, i + 1;
      if highload && t > c[k].expiry {
        left := left - {k};
      }
      if i > MAX_SCRUBS {
        break;
      }
    }
  }

  class Bucket {
    const cfg: Config
    var c: map<string, Cached>
    var scrubtime: int
    ghost var puts: map<string, int>

    ghost predicate Valid()
      reads this
    {
      cfg.halflife >= 0 && Inv(cfg, Now())
    }

    ghost function Now(): State
      reads this
    {
      State(c, scrubtime, puts)
    }

    constructor (ttl: nat)
      ensures Valid() && cfg == NewConfig(ttl) && c == map[]
    {
      cfg := NewConfig(ttl);
      c, scrubtime, puts := map[], 0, map[];
    }

    /** freshCopy: the entry as the read left it, and whether it may be used. */
    method FreshCopy(key: string, coin: bool, t: int) returns (found: bool, v: Cached, ok: bool)
      requires Valid()
      modifies this
      ensures Valid() && Now() == Step(cfg, old(Now()), At(t, Read(key, coin)))
      ensures found == (key in old(c)) && (found ==> v == c[key])
      ensures ok == Fresh(old(Now()), key, coin, t)
    {
      StepInv(cfg, Now(), At(t, Read(key, coin)));
      if key !in c {
        return false, Cached(0, 0, 0), false;
      }
      v := c[key];
      var recent, alive := v.bumps <= 2, t <= v.expiry;
      if v.bumps < cfg.bumps {
        var n := v.bumps * cfg.halflife;
        if alive && t < v.expiry - n {
          v := v.(expiry := v.expiry + n);
        }
        v := v.(bumps := v.bumps + 1);
      }
      c := c[key := v];
      return true, v, (coin || recent) && alive;
    }

    method PutAnswer(key: string, a: Answer, t: int) returns (ok: bool)
      requires Valid()
      modifies this
      ensures Valid() && Now() == Step(cfg, old(Now()), At(t, Put(key, a)))
      ensures ok == Storable(key, a)
    {
      StepInv(cfg, Now(), At(t, Put(key, a)));
      if !a.present || !a.success || a.truncated || Contains(key, ".onion:") || a.unwanted {
        return false;
      }
      var ansttl := a.ttl;
      if ansttl < cfg.ttl {
        ansttl := cfg.ttl;
      } else {
        ansttl := ansttl + cfg.halflife;
      }
      c := c[key := Cached(a.id, t + ansttl, 0)];
      puts := puts[key := t + ansttl];
      return true;
    }

    /** scrubCache: at most every five minutes. */
    method ScrubCache(t: int) returns (ghost visited: set<string>)
      requires Valid()
      modifies this
      ensures Valid() && Now() == Step(cfg, old(Now()), At(t, Scrub(visited)))
      ensures t - old(scrubtime) >= SCRUB_GAP ==> Visits(old(c), visited)
    {
      visited := {};
      if t - scrubtime < SCRUB_GAP {
        return;
      }
      scrubtime := t;
      var highload := |c| >= SIZE * 75 / 100;
      c, visited := ScrubLoop(c, t, highload);
    }
  }
}
