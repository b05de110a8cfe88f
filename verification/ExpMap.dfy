/** A map whose keys expire and count reads, with expired keys reaped now and then. */
module ExpMap {
  import opened Common

  const WRAP: nat := 0x1_0000_0000

  datatype Val<V> = Val(v: V, expiry: int, hits: nat)

  datatype Op<K, V> =
    | Get(k: K)
    | Upsert(k: K, v: V, life: int)
    | Look(k: K)
    | Delete(k: K)
    | Clear
    /** The reaper; it deletes those of `ks` that have expired. */
    | Purge(ks: set<K>)

  datatype Event<K, V> = At(t: int, op: Op<K, V>)

  /** What a caller can tell: hit counts, whether a live entry was replaced, freshness and fresh values. */
  datatype Out<V> = Hits(hits: nat) | Stored(storedHits: nat, replaced: bool) | Looked(got: Option<V>) | Silent

  function ReadHits<V>(e: Val<V>, t: int): Val<V> {
    e.(hits := if t > e.expiry then 0 else (e.hits + 1) % WRAP)
  }

  /** The entry after a write: a later expiry wins, and an expired entry starts its hits anew. */
  function Written<V>(old_: Option<Val<V>>, t: int, v: V, expiry: int): Val<V> {
    match old_
    case None => Val(v, expiry, 0)
    case Some(e) => Val(v, if expiry > e.expiry then expiry else e.expiry, if t > e.expiry then 0 else e.hits)
  }

  function Find<K, V>(m: map<K, Val<V>>, k: K): Option<Val<V>> {
    if k in m then Some(m[k]) else None
  }

  function Clamp(life: int, minlife: int): int {
    if life < minlife then minlife else life
  }

  function Purged<K, V>(m: map<K, Val<V>>, ks: set<K>, t: int): map<K, Val<V>> {
    map k | k in m && !(k in ks && t > m[k].expiry) :: m[k]
  }

  function Step<K, V>(m: map<K, Val<V>>, minlife: int, zero: V, e: Event<K, V>): map<K, Val<V>> {
    match e.op
    case Get(k) => m[k := if k in m then ReadHits(m[k], e.t) else Val(zero, e.t, 0)]
    case Upsert(k, v, life) => m[k := Written(Find(m, k), e.t, v, e.t + Clamp(life, minlife))]
    case Look(_) => m
    case Delete(k) => m - {k}
    case Clear => map[]
    case Purge(ks) => Purged(m, ks, e.t)
  }

  function Answer<K, V>(m: map<K, Val<V>>, e: Event<K, V>): Out<V> {
    match e.op
    case Get(k) => Hits(if k in m then ReadHits(m[k], e.t).hits else 0)
    case Upsert(k, v, _) =>
      Stored(if k in m && e.t <= m[k].expiry then m[k].hits else 0, k in m && e.t < m[k].expiry)
    case Look(k) => Looked(if k in m && e.t < m[k].expiry then Some(m[k].v) else None)
    case Delete(_) => Silent
    case Clear => Silent
    case Purge(_) => Silent
  }

  function Run<K, V>(m: map<K, Val<V>>, minlife: int, zero: V, es: seq<Event<K, V>>): map<K, Val<V>> {
    if es == [] then m else Step(Run(m, minlife, zero, es[..|es| - 1]), minlife, zero, es[|es| - 1])
  }

  /** Everything the callers were told, in order. */
  function Answers<K, V>(m: map<K, Val<V>>, minlife: int, zero: V, es: seq<Event<K, V>>): seq<Out<V>> {
    if es == [] then []
    else
      var e := es[|es| - 1];
      Answers(m, minlife, zero, es[..|es| - 1]) +
      if e.op.Purge? then [] else [Answer(Run(m, minlife, zero, es[..|es| - 1]), e)]
  }

  /** The same run with the reaper never coming by. */
  function Unreaped<K, V>(es: seq<Event<K, V>>): seq<Event<K, V>> {
    if es == [] then []
    else Unreaped(es[..|es| - 1]) + if es[|es| - 1].op.Purge? then [] else [es[|es| - 1]]
  }

  lemma RunSnoc<K, V>(m: map<K, Val<V>>, minlife: int, zero: V, es: seq<Event<K, V>>, e: Event<K, V>)
    ensures Run(m, minlife, zero, es + [e]) == Step(Run(m, minlife, zero, es), minlife, zero, e)
    ensures Answers(m, minlife, zero, es + [e]) ==
            Answers(m, minlife, zero, es) + if e.op.Purge? then [] else [Answer(Run(m, minlife, zero, es), e)]
  {
    assert (es + [e])[..|es + [e]| - 1] == es;
  }

  // ---- Two maps that answer alike --------------------------------------------------------------

  /** Missing, or past its expiry at any moment after `t`. */
  predicate Dead<V>(e: Option<Val<V>>, t: int) {
    e.None? || e.value.expiry <= t
  }

  ghost predicate Alike<V>(a: Option<Val<V>>, b: Option<Val<V>>, t: int) {
    a == b || (Dead(a, t) && Dead(b, t))
  }

  ghost predicate Sim<K(!new), V>(a: map<K, Val<V>>, b: map<K, Val<V>>, t: int) {
    forall k :: Alike(Find(a, k), Find(b, k), t)
  }

  lemma AlikeLater<V>(a: Option<Val<V>>, b: Option<Val<V>>, t: int, t': int)
    requires Alike(a, b, t) && t <= t'
    ensures Alike(a, b, t')
  {
  }

  lemma AlikeRead<V>(a: Option<Val<V>>, b: Option<Val<V>>, zero: V, t: int, now: int)
    requires Alike(a, b, t) && t < now
    ensures var a' := Some(if a.Some? then ReadHits(a.value, now) else Val(zero, now, 0));
            var b' := Some(if b.Some? then ReadHits(b.value, now) else Val(zero, now, 0));
            Alike(a', b', now)
  {
  }

  lemma AlikeWritten<V>(a: Option<Val<V>>, b: Option<Val<V>>, v: V, t: int, now: int, expiry: int)
    requires Alike(a, b, t) && t < now <= expiry
    ensures Written(a, now, v, expiry) == Written(b, now, v, expiry)
  {
  }

  lemma StepAlike<K(!new), V>(a: map<K, Val<V>>, b: map<K, Val<V>>, minlife: int, zero: V, t: int, e: Event<K, V>, k: K)
    requires Alike(Find(a, k), Find(b, k), t) && t < e.t && minlife >= 0 && !e.op.Purge?
    ensures Alike(Find(Step(a, minlife, zero, e), k), Find(Step(b, minlife, zero, e), k), e.t)
  {
    AlikeLater(Find(a, k), Find(b, k), t, e.t);
    match e.op {
      case Get(_) => AlikeRead(Find(a, k), Find(b, k), zero, t, e.t);
      case Upsert(_, v, life) => AlikeWritten(Find(a, k), Find(b, k), v, t, e.t, e.t + Clamp(life, minlife));
      case _ =>
    }
  }

  lemma StepSim<K(!new), V>(a: map<K, Val<V>>, b: map<K, Val<V>>, minlife: int, zero: V, t: int, e: Event<K, V>)
    requires Sim(a, b, t) && t < e.t && minlife >= 0 && !e.op.Purge?
    ensures Sim(Step(a, minlife, zero, e), Step(b, minlife, zero, e), e.t)
  {
    forall k
      ensures Alike(Find(Step(a, minlife, zero, e), k), Find(Step(b, minlife, zero, e), k), e.t)
    {
      StepAlike(a, b, minlife, zero, t, e, k);
    }
  }

  lemma PurgeSim<K(!new), V>(a: map<K, Val<V>>, b: map<K, Val<V>>, ks: set<K>, t: int, now: int)
    requires Sim(a, b, t) && t < now
    ensures Sim(Purged(a, ks, now), b, now)
  {
    forall k
      ensures Alike(Find(Purged(a, ks, now), k), Find(b, k), now)
    {
      assert Alike(Find(a, k), Find(b, k), t);
    }
  }

  lemma AnswersAlike<K(!new), V>(a: map<K, Val<V>>, b: map<K, Val<V>>, t: int, e: Event<K, V>)
    requires Sim(a, b, t) && t < e.t && !e.op.Purge?
    ensures Answer(a, e) == Answer(b, e)
  {
    match e.op {
      case Get(k) => assert Alike(Find(a, k), Find(b, k), t);
      case Upsert(k, _, _) => assert Alike(Find(a, k), Find(b, k), t);
      case Look(k) => assert Alike(Find(a, k), Find(b, k), t);
      case _ =>
    }
  }

  function Times<K, V>(es: seq<Event<K, V>>): (ts: seq<int>)
    ensures |ts| == |es|
  {
    seq(|es|, i requires 0 <= i < |es| => es[i].t)
  }

  /** The clock never runs back. */
  predicate Forward(ts: seq<int>) {
    forall i :: 1 <= i < |ts| ==> ts[i - 1] <= ts[i]
  }

  /** The clock strictly increases, from the second moment on. */
  predicate Steady(ts: seq<int>) {
    Forward(ts) && forall i :: 2 <= i < |ts| ==> ts[i - 1] < ts[i]
  }

  /** The moment up to which an entry must have expired to be dead for all that follows. */
  function Mark(ts: seq<int>): int
    requires ts != []
  {
    if |ts| == 1 then ts[0] - 1 else ts[|ts| - 1]
  }

  lemma SteadyInit(ts: seq<int>)
    requires Steady(ts) && |ts| >= 2
    ensures Steady(ts[..|ts| - 1]) && Mark(ts[..|ts| - 1]) < ts[|ts| - 1]
  {
  }

  lemma FirstSim<K(!new), V>(m: map<K, Val<V>>, minlife: int, zero: V, e: Event<K, V>)
    ensures var b := if e.op.Purge? then m else Step(m, minlife, zero, e); Sim(Step(m, minlife, zero, e), b, e.t - 1)
  {
  }

  /** One event, which the second map does not see if it is the reaper's. */
  lemma NextSim<K(!new), V>(a: map<K, Val<V>>, b: map<K, Val<V>>, minlife: int, zero: V, t: int, e: Event<K, V>)
    requires Sim(a, b, t) && t < e.t && minlife >= 0
    ensures var b' := if e.op.Purge? then b else Step(b, minlife, zero, e); Sim(Step(a, minlife, zero, e), b', e.t)
    ensures !e.op.Purge? ==> Answer(a, e) == Answer(b, e)
  {
    if e.op.Purge? {
      PurgeSim(a, b, e.op.ks, t, e.t);
    } else {
      StepSim(a, b, minlife, zero, t, e);
      AnswersAlike(a, b, t, e);
    }
  }

  lemma UnreapedNext<K, V>(m: map<K, Val<V>>, minlife: int, zero: V, es: seq<Event<K, V>>)
    requires es != []
    ensures var init, e := es[..|es| - 1], es[|es| - 1];
            var b := Run(m, minlife, zero, Unreaped(init));
            && Run(m, minlife, zero, Unreaped(es)) == (if e.op.Purge? then b else Step(b, minlife, zero, e))
            && Answers(m, minlife, zero, Unreaped(es)) ==
               Answers(m, minlife, zero, Unreaped(init)) + if e.op.Purge? then [] else [Answer(b, e)]
  {
    var init, e := es[..|es| - 1], es[|es| - 1];
    if e.op.Purge? {
      assert Unreaped(es) == Unreaped(init);
    } else {
      RunSnoc(m, minlife, zero, Unreaped(init), e);
    }
  }

  lemma TimesInit<K, V>(es: seq<Event<K, V>>)
    requires es != []
    ensures Times(es[..|es| - 1]) == Times(es)[..|es| - 1] && Times(es)[|es| - 1] == es[|es| - 1].t
  {
  }

  /** Reaping is invisible: whatever expired keys are deleted and whenever, callers are told the same. */
  lemma {:induction false} ReapingInvisible<K(!new), V>(m: map<K, Val<V>>, minlife: int, zero: V, es: seq<Event<K, V>>)
    requires Steady(Times(es)) && minlife >= 0
    ensures Answers(m, minlife, zero, es) == Answers(m, minlife, zero, Unreaped(es))
    ensures es != [] ==> Sim(Run(m, minlife, zero, es), Run(m, minlife, zero, Unreaped(es)), Mark(Times(es)))
  {
    if es != [] {
      var init, e := es[..|es| - 1], es[|es| - 1];
      TimesInit(es);
      UnreapedNext(m, minlife, zero, es);
      if |es| == 1 {
        FirstSim(m, minlife, zero, e);
      } else {
        SteadyInit(Times(es));
        ReapingInvisible(m, minlife, zero, init);
        NextSim(Run(m, minlife, zero, init), Run(m, minlife, zero, Unreaped(init)), minlife, zero, Mark(Times(init)), e);
      }
    }
  }

  /** Two reapers that come by at different moments are told apart by no one. */
  lemma AnyTwoReapers<K(!new), V>(m: map<K, Val<V>>, minlife: int, zero: V, es: seq<Event<K, V>>, fs: seq<Event<K, V>>)
    requires Steady(Times(es)) && Steady(Times(fs)) && minlife >= 0 && Unreaped(es) == Unreaped(fs)
    ensures Answers(m, minlife, zero, es) == Answers(m, minlife, zero, fs)
  {
    ReapingInvisible(m, minlife, zero, es);
    ReapingInvisible(m, minlife, zero, fs);
  }

  // ---- Exactly which clocks hide the reaper --------------------------------------------------------

  /** No map, and no operations at these moments, give the reaper away. */
  ghost predicate Invisible<K(!new), V(!new)>(ts: seq<int>) {
    forall m: map<K, Val<V>>, minlife: nat, zero: V, es: seq<Event<K, V>> ::
      Times(es) == ts ==> Answers(m, minlife, zero, es) == Answers(m, minlife, zero, Unreaped(es))
  }

  /** Looks, then the reaper, then reads of one key. */
  function Telling<K, V>(k: K, ts: seq<int>, i: int): (es: seq<Event<K, V>>)
    ensures |es| == |ts|
  {
    seq(|ts|, j requires 0 <= j < |ts| => At(ts[j], if j < i then Look(k) else if j == i then Purge({k}) else Get(k)))
  }

  lemma {:induction false} LooksKeep<K, V>(m: map<K, Val<V>>, minlife: int, zero: V, es: seq<Event<K, V>>)
    requires forall i :: 0 <= i < |es| ==> es[i].op.Look?
    ensures Unreaped(es) == es && Run(m, minlife, zero, es) == m
  {
    if es != [] {
      LooksKeep(m, minlife, zero, es[..|es| - 1]);
      assert es == es[..|es| - 1] + [es[|es| - 1]];
    }
  }

  lemma UnreapedSnoc<K, V>(es: seq<Event<K, V>>, e: Event<K, V>)
    ensures Unreaped(es + [e]) == Unreaped(es) + if e.op.Purge? then [] else [e]
  {
    assert (es + [e])[..|es + [e]| - 1] == es;
  }

  lemma UnreapedReads<K, V>(es: seq<Event<K, V>>, p: Event<K, V>, g: Event<K, V>)
    requires Unreaped(es) == es && p.op.Purge? && !g.op.Purge?
    ensures Unreaped(es + [p] + [g] + [g]) == es + [g] + [g]
  {
    UnreapedSnoc(es, p);
    UnreapedSnoc(es + [p], g);
    UnreapedSnoc(es + [p] + [g], g);
    assert es + [] == es;
  }

  lemma SecondRead<K, V>(a: map<K, Val<V>>, b: map<K, Val<V>>, minlife: int, zero: V, k: K, t: int)
    requires k !in a && k in b && b[k].expiry < t
    ensures var read: Event<K, V> := At(t, Get(k));
            Answer(Step(a, minlife, zero, read), read) == Hits(1) && Answer(Step(b, minlife, zero, read), read) == Hits(0)
  {
  }

  lemma LastAnswer<K, V>(m: map<K, Val<V>>, minlife: int, zero: V, es: seq<Event<K, V>>, e: Event<K, V>)
    requires !e.op.Purge?
    ensures var x := Answers(m, minlife, zero, es + [e] + [e]);
            && x != []
            && x[|x| - 1] == Answer(Step(Run(m, minlife, zero, es), minlife, zero, e), e)
  {
    RunSnoc(m, minlife, zero, es, e);
    RunSnoc(m, minlife, zero, es + [e], e);
  }

  /** Two reads at one moment, after an expired key was reaped: the second finds it alive. */
  lemma RepeatTells<K, V>(m: map<K, Val<V>>, minlife: int, zero: V, k: K, es: seq<Event<K, V>>, t1: int, t: int)
    requires (forall i :: 0 <= i < |es| ==> es[i].op.Look?) && k in m && m[k].expiry < t1 <= t
    ensures var p, g: Event<K, V> := At(t1, Purge({k})), At(t, Get(k));
            Answers(m, minlife, zero, es + [p] + [g] + [g]) != Answers(m, minlife, zero, Unreaped(es + [p] + [g] + [g]))
  {
    var p, g: Event<K, V> := At(t1, Purge({k})), At(t, Get(k));
    LooksKeep(m, minlife, zero, es);
    UnreapedReads(es, p, g);
    RunSnoc(m, minlife, zero, es, p);
    SecondRead(Purged(m, {k}, t1), m, minlife, zero, k, t);
    LastsDiffer(m, minlife, zero, es + [p], es, g);
  }

  /** Two runs whose last answers differ. */
  lemma LastsDiffer<K, V>(m: map<K, Val<V>>, minlife: int, zero: V, a: seq<Event<K, V>>, b: seq<Event<K, V>>, g: Event<K, V>)
    requires !g.op.Purge?
    requires Answer(Step(Run(m, minlife, zero, a), minlife, zero, g), g) != Answer(Step(Run(m, minlife, zero, b), minlife, zero, g), g)
    ensures Answers(m, minlife, zero, a + [g] + [g]) != Answers(m, minlife, zero, b + [g] + [g])
  {
    LastAnswer(m, minlife, zero, a, g);
    LastAnswer(m, minlife, zero, b, g);
  }

  lemma DropLast<T>(a: seq<T>, b: seq<T>, x: seq<T>, y: seq<T>)
    requires a + x == b + y && |x| == |y|
    ensures a == b
  {
    assert a == (a + x)[..|a|] && b == (b + y)[..|b|];
  }

  lemma {:induction false} AnswersPrefix<K, V>(m: map<K, Val<V>>, minlife: int, zero: V, es: seq<Event<K, V>>, n: nat)
    requires n <= |es| && Answers(m, minlife, zero, es) == Answers(m, minlife, zero, Unreaped(es))
    ensures Answers(m, minlife, zero, es[..n]) == Answers(m, minlife, zero, Unreaped(es[..n]))
    decreases |es|
  {
    if n == |es| {
      assert es[..n] == es;
    } else {
      var init := es[..|es| - 1];
      UnreapedNext(m, minlife, zero, es);
      DropLast(Answers(m, minlife, zero, init), Answers(m, minlife, zero, Unreaped(init)),
               if es[|es| - 1].op.Purge? then [] else [Answer(Run(m, minlife, zero, init), es[|es| - 1])],
               if es[|es| - 1].op.Purge? then [] else [Answer(Run(m, minlife, zero, Unreaped(init)), es[|es| - 1])]);
      assert init[..n] == es[..n];
      AnswersPrefix(m, minlife, zero, init, n);
    }
  }

  lemma TellingIs<K, V>(k: K, ts: seq<int>, i: nat)
    requires i + 2 < |ts| && ts[i + 1] == ts[i + 2]
    ensures var es := Telling<K, V>(k, ts, i);
            && Times(es) == ts && (forall j :: 0 <= j < i ==> es[..i][j].op.Look?)
            && es[..i + 3] == es[..i] + [At(ts[i], Purge({k}))] + [At(ts[i + 1], Get(k))] + [At(ts[i + 1], Get(k))]
  {
  }

  lemma RepeatVisible<K(!new), V(!new)>(k: K, zero: V, ts: seq<int>, i: nat)
    requires i + 2 < |ts| && ts[i] <= ts[i + 1] == ts[i + 2]
    ensures !Invisible<K, V>(ts)
  {
    var m: map<K, Val<V>> := map[k := Val(zero, ts[i] - 1, 0)];
    var es := Telling<K, V>(k, ts, i);
    TellingIs<K, V>(k, ts, i);
    RepeatTells(m, 0, zero, k, es[..i], ts[i], ts[i + 1]);
    if Answers(m, 0, zero, es) == Answers(m, 0, zero, Unreaped(es)) {
      AnswersPrefix(m, 0, zero, es, i + 3);
    }
  }

  /** On a clock that never runs back, the reaper is invisible if and only if the clock strictly increases from
      the second moment on. */
  lemma InvisibleIff<K(!new), V(!new)>(k: K, zero: V, ts: seq<int>)
    requires Forward(ts)
    ensures Invisible<K, V>(ts) <==> Steady(ts)
  {
    if Steady(ts) {
      forall m: map<K, Val<V>>, minlife: nat, zero: V, es: seq<Event<K, V>> | Times(es) == ts
        ensures Answers(m, minlife, zero, es) == Answers(m, minlife, zero, Unreaped(es))
      {
        ReapingInvisible(m, minlife, zero, es);
      }
    } else {
      var i :| 2 <= i < |ts| && ts[i - 1] >= ts[i];
      assert ts[i - 1] <= ts[i];
      assert ts[i - 2] <= ts[i - 1];
      RepeatVisible(k, zero, ts, i - 2);
    }
  }

  /** For one: reaped at 4, read twice at 5. */
  lemma StandingClockTells()
    ensures var m: map<int, Val<int>> := map[7 := Val(0, 1, 0)];
            var es: seq<Event<int, int>> := [] + [At(4, Purge({7}))] + [At(5, Get(7))] + [At(5, Get(7))];
            Answers(m, 0, 0, es) != Answers(m, 0, 0, Unreaped(es))
  {
    RepeatTells(map[7 := Val(0, 1, 0)], 0, 0, 7, [], 4, 5);
  }
}
