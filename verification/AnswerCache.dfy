/**
 One bucket of the DNS answer cache. Reading an entry may push its expiry back; the more often it was
 read, the further. `puts` remembers the expiry each key was last stored with.
 */
module AnswerCache {

  const SCRUB_GAP := 300_000
  const MAX_SCRUBS := 64
  const MAX_BUMPS := 10
  const SIZE := 256

  datatype Config = Config(ttl: int, halflife: int, bumps: nat)

  /** The settings of a caching transport with the given lifetime. */
  function NewConfig(ttl: nat): Config {
    Config(ttl, ttl / 2, MAX_BUMPS)
  }

  datatype Cached = Cached(ans: nat, expiry: int, bumps: nat)

  datatype State = State(c: map<string, Cached>, scrubtime: int, puts: map<string, int>)

  /** An answer offered to the cache, and what makes it unfit for it. */
  datatype Answer = Answer(id: nat, present: bool, success: bool, truncated: bool, ttl: nat, unwanted: bool)

  datatype Event =
    | Read(key: string, coin: bool)
    | Put(key: string, a: Answer)
    | Scrub(visited: set<string>)
    | Clear

  datatype Timed = At(t: int, e: Event)

  predicate Contains(s: string, sub: string)
    requires sub != ""
  {
    |sub| <= |s| && (sub <= s || Contains(s[1..], sub))
  }

  predicate Storable(key: string, a: Answer) {
    a.present && a.success && !a.truncated && !Contains(key, ".onion:") && !a.unwanted
  }

  /** How far one read pushes the expiry back: not at all unless it is already that far away. */
  function Bumped(cfg: Config, v: Cached, t: int): Cached {
    if v.bumps >= cfg.bumps then v
    else
      var n := v.bumps * cfg.halflife;
      var expiry := if t <= v.expiry && t < v.expiry - n then v.expiry + n else v.expiry;
      Cached(v.ans, expiry, v.bumps + 1)
  }

  function PutExpiry(cfg: Config, a: Answer, t: int): int {
    t + if a.ttl < cfg.ttl then cfg.ttl else a.ttl + cfg.halflife
  }

  /** The keys a scrub looks at: all of them, or one more than the limit. */
  predicate Visits(c: map<string, Cached>, visited: set<string>) {
    visited <= c.Keys && |visited| == if |c| <= MAX_SCRUBS then |c| else MAX_SCRUBS + 1
  }

  function Scrubbed(c: map<string, Cached>, visited: set<string>, t: int): map<string, Cached> {
    if |c| >= SIZE * 75 / 100 then Left(c, visited, t) else c
  }

  /** What is left once the expired among the visited keys are gone. */
  function Left(c: map<string, Cached>, visited: set<string>, t: int): map<string, Cached> {
    map k | k in c && !(k in visited && t > c[k].expiry) :: c[k]
  }

  function Step(cfg: Config, s: State, e: Timed): State {
    match e.e
    case Read(key, _) => if key in s.c then s.(c := s.c[key := Bumped(cfg, s.c[key], e.t)]) else s
    case Put(key, a) =>
      if Storable(key, a) then
        var x := PutExpiry(cfg, a, e.t);
        s.(c := s.c[key := Cached(a.id, x, 0)], puts := s.puts[key := x])
      else s
    case Scrub(visited) =>
      if e.t - s.scrubtime < SCRUB_GAP then s
      else s.(c := Scrubbed(s.c, visited, e.t), scrubtime := e.t)
    case Clear => s.(c := map[])
  }

  function Run(cfg: Config, s: State, es: seq<Timed>): State {
    if es == [] then s else Step(cfg, Run(cfg, s, es[..|es| - 1]), es[|es| - 1])
  }

  /** What a read reports: the entry is used if alive, and recent or the coin says so. */
  predicate Fresh(s: State, key: string, coin: bool, t: int) {
    key in s.c && (coin || s.c[key].bumps <= 2) && t <= s.c[key].expiry
  }

  // ---- Bounded life ----------------------------------------------------------------------------

  /** At most `b` reads push the expiry back by this much. */
  function Reach(cfg: Config, b: nat): int {
    if b == 0 then 0 else Reach(cfg, b - 1) + (b - 1) * cfg.halflife
  }

  predicate Bounded(cfg: Config, v: Cached, put: int) {
    v.bumps <= cfg.bumps && put <= v.expiry <= put + Reach(cfg, v.bumps)
  }

  ghost predicate Inv(cfg: Config, s: State) {
    forall k :: k in s.c ==> k in s.puts && Bounded(cfg, s.c[k], s.puts[k])
  }

  lemma BumpedBounded(cfg: Config, v: Cached, put: int, t: int)
    requires Bounded(cfg, v, put) && cfg.halflife >= 0
    ensures Bounded(cfg, Bumped(cfg, v, t), put)
    ensures Bumped(cfg, v, t).expiry >= v.expiry
    ensures t > v.expiry ==> Bumped(cfg, v, t).expiry == v.expiry
  {
    if v.bumps < cfg.bumps {
      assert v.bumps * cfg.halflife >= 0;
    }
  }

  lemma {:induction false} ReachIs(cfg: Config, b: nat)
    ensures 2 * Reach(cfg, b) == b * (b - 1) * cfg.halflife
  {
    if b > 0 {
      ReachIs(cfg, b - 1);
      Triangle(b, cfg.halflife);
    }
  }

  lemma Triangle(b: int, h: int)
    ensures (b - 1) * (b - 2) * h + 2 * ((b - 1) * h) == b * (b - 1) * h
  {
    Regroup(b - 1, b - 2, h);
    Regroup(b - 1, b, h);
    TwoMore(b, (b - 1) * h);
  }

  lemma Regroup(a: int, b: int, h: int)
    ensures a * b * h == b * (a * h) && b * a * h == b * (a * h)
  {
  }

  lemma TwoMore(b: int, x: int)
    ensures (b - 2) * x + 2 * x == b * x
  {
  }

  lemma {:induction false} ReachGrows(cfg: Config, a: nat, b: nat)
    requires a <= b && cfg.halflife >= 0
    ensures Reach(cfg, a) <= Reach(cfg, b)
  {
    if a < b {
      ReachGrows(cfg, a, b - 1);
      assert (b - 1) * cfg.halflife >= 0;
    }
  }

  lemma StepInv(cfg: Config, s: State, e: Timed)
    requires Inv(cfg, s) && cfg.halflife >= 0
    ensures Inv(cfg, Step(cfg, s, e))
  {
    if e.e.Read? && e.e.key in s.c {
      BumpedBounded(cfg, s.c[e.e.key], s.puts[e.e.key], e.t);
    }
  }

  lemma {:induction false} EveryRunBounded(cfg: Config, es: seq<Timed>)
    requires cfg.halflife >= 0
    ensures Inv(cfg, Run(cfg, State(map[], 0, map[]), es))
  {
    if es != [] {
      EveryRunBounded(cfg, es[..|es| - 1]);
      StepInv(cfg, Run(cfg, State(map[], 0, map[]), es[..|es| - 1]), es[|es| - 1]);
    }
  }

  /** Over any run an entry is bumped at most ten times and outlives its put expiry by at most 45 half-lives. */
  lemma BoundedLife(ttl: nat, es: seq<Timed>, k: string)
    requires k in Run(NewConfig(ttl), State(map[], 0, map[]), es).c
    ensures var s := Run(NewConfig(ttl), State(map[], 0, map[]), es);
            k in s.puts && s.c[k].bumps <= 10 && s.puts[k] <= s.c[k].expiry <= s.puts[k] + 45 * (ttl / 2)
  {
    EveryRunBounded(NewConfig(ttl), es);
    var s := Run(NewConfig(ttl), State(map[], 0, map[]), es);
    WithinReach(NewConfig(ttl), s.c[k], s.puts[k]);
  }

  lemma WithinReach(cfg: Config, v: Cached, put: int)
    requires cfg.bumps == 10 && cfg.halflife >= 0 && Bounded(cfg, v, put)
    ensures v.expiry <= put + 45 * cfg.halflife
  {
    ReachGrows(cfg, v.bumps, 10);
    ReachIs(cfg, 10);
  }

  // ---- Between two puts ------------------------------------------------------------------------

  predicate NoPut(es: seq<Timed>, k: string) {
    forall i :: 0 <= i < |es| ==> !(es[i].e.Put? && es[i].e.key == k)
  }

  predicate From(t: int, es: seq<Timed>) {
    forall i :: 0 <= i < |es| ==> es[i].t >= t
  }

  lemma StepNoPut(cfg: Config, s: State, e: Timed, k: string)
    requires cfg.halflife >= 0 && !(e.e.Put? && e.e.key == k)
    ensures k in Step(cfg, s, e).c ==>
            k in s.c && Step(cfg, s, e).c[k].ans == s.c[k].ans
            && Step(cfg, s, e).c[k].expiry >= s.c[k].expiry && Step(cfg, s, e).c[k].bumps >= s.c[k].bumps
    ensures k in Step(cfg, s, e).c && e.t > s.c[k].expiry ==> Step(cfg, s, e).c[k].expiry == s.c[k].expiry
  {
    if e.e.Read? && e.e.key == k && k in s.c && s.c[k].bumps < cfg.bumps {
      assert s.c[k].bumps * cfg.halflife >= 0;
    }
  }

  /** Until the next put an entry keeps its answer and its expiry never comes closer. */
  lemma {:induction false} ExpiryGrows(cfg: Config, s: State, es: seq<Timed>, k: string)
    requires cfg.halflife >= 0 && NoPut(es, k) && k in Run(cfg, s, es).c
    ensures k in s.c && Run(cfg, s, es).c[k].ans == s.c[k].ans && Run(cfg, s, es).c[k].expiry >= s.c[k].expiry
  {
    if es != [] {
      StepNoPut(cfg, Run(cfg, s, es[..|es| - 1]), es[|es| - 1], k);
      ExpiryGrows(cfg, s, es[..|es| - 1], k);
    }
  }

  lemma {:induction false} ExpiredFrozen(cfg: Config, s: State, es: seq<Timed>, k: string, t: int)
    requires cfg.halflife >= 0 && NoPut(es, k) && From(t, es) && k in Run(cfg, s, es).c
    requires k in s.c ==> t > s.c[k].expiry
    ensures k in s.c && Run(cfg, s, es).c[k].expiry == s.c[k].expiry
  {
    if es != [] {
      var r := Run(cfg, s, es[..|es| - 1]);
      StepNoPut(cfg, r, es[|es| - 1], k);
      ExpiredFrozen(cfg, s, es[..|es| - 1], k, t);
    }
  }

  /** Once expired, an entry is never reported fresh again without a new put. */
  lemma ExpiredNeverFresh(cfg: Config, s: State, es: seq<Timed>, k: string, coin: bool, t: int, now: int)
    requires cfg.halflife >= 0 && NoPut(es, k) && From(t, es) && now >= t
    requires k in s.c ==> t > s.c[k].expiry
    ensures !Fresh(Run(cfg, s, es), k, coin, now)
  {
    if k in Run(cfg, s, es).c {
      ExpiredFrozen(cfg, s, es, k, t);
    }
  }

  /** A scrub deletes nothing that is alive, and nothing at all while the bucket is less than three quarters full. */
  lemma ScrubSpares(cfg: Config, s: State, visited: set<string>, t: int, k: string)
    requires k in s.c && k !in Step(cfg, s, At(t, Scrub(visited))).c
    ensures t > s.c[k].expiry && k in visited && |s.c| >= 192 && t - s.scrubtime >= SCRUB_GAP
  {
  }

  function Often(cfg: Config, v: Cached, t: int, b: nat): Cached {
    if b == 0 then v else Bumped(cfg, Often(cfg, v, t, b - 1), t)
  }

  lemma BumpFar(cfg: Config, v: Cached, t: int, n: int)
    requires v.bumps < cfg.bumps && n == v.bumps * cfg.halflife && 0 <= n && t < v.expiry - n
    ensures Bumped(cfg, v, t) == Cached(v.ans, v.expiry + n, v.bumps + 1)
  {
  }

  lemma Scale(b: nat, half: int)
    requires half >= 0 && b <= 9
    ensures 0 <= b * half <= 9 * half
  {
  }

  /** The bound of 45 half-lives is reached: ten reads right after a put that is far enough from expiring. */
  lemma {:induction false} BoundIsTight(cfg: Config, v: Cached, t: int, b: nat)
    requires cfg.halflife >= 0 && cfg.bumps == 10 && v.bumps == 0 && b <= 10 && t < v.expiry - 9 * cfg.halflife
    ensures var r := Often(cfg, v, t, b); r.bumps == b && r.expiry == v.expiry + Reach(cfg, b)
  {
    if b > 0 {
      BoundIsTight(cfg, v, t, b - 1);
      ReachGrows(cfg, 0, b - 1);
      Scale(b - 1, cfg.halflife);
      BumpFar(cfg, Often(cfg, v, t, b - 1), t, (b - 1) * cfg.halflife);
    }
  }

  /** An answer that is stored is fresh for its own lifetime and for the cache's, whichever is longer. */
  lemma PutIsFresh(cfg: Config, s: State, key: string, a: Answer, t: int, coin: bool, now: int)
    requires Storable(key, a) && cfg.halflife >= 0 && t <= now <= t + (if a.ttl < cfg.ttl then cfg.ttl else a.ttl)
    ensures Fresh(Step(cfg, s, At(t, Put(key, a))), key, coin, now)
    ensures Step(cfg, s, At(t, Put(key, a))).c[key].ans == a.id
  {
  }

  /** A read pushes an expiry back if and only if the entry has been bumped before and may be again, and its expiry
      is further away than the push. */
  lemma PushedIff(cfg: Config, v: Cached, t: int)
    requires cfg.halflife > 0
    ensures Bumped(cfg, v, t).expiry > v.expiry <==> 0 < v.bumps < cfg.bumps && v.expiry - t > v.bumps * cfg.halflife
    ensures Bumped(cfg, v, t).expiry == v.expiry || Bumped(cfg, v, t).expiry == v.expiry + v.bumps * cfg.halflife
  {
    assert v.bumps > 0 ==> v.bumps * cfg.halflife > 0;
  }

  /** For one: an expiry ten half-lives away is pushed back, one half a half-life away is not. */
  lemma FarIsPushed()
    ensures var cfg := NewConfig(20);
            && Bumped(cfg, Cached(0, 100, 1), 0).expiry == 110
            && Bumped(cfg, Cached(0, 5, 1), 0).expiry == 5
  {
  }
}
