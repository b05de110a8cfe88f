/** The two-level sieve: one expiring map per outer key, reclaimed when it runs empty. */
module Sieve {
  import opened Common
  import opened ExpMap

  type Nested<K1, K2, V> = map<K1, map<K2, Val<V>>>

  datatype Op2<K1, K2, V> =
    | Put(k1: K1, k2: K2, v: V)
    | Get2(k1: K1, k2: K2)
    | Del(k1: K1, k2: K2)
    /** The reaper of one inner map, with its hook. */
    | Reap(k1: K1)
    | Clear2

  datatype Event2<K1, K2, V> = At2(t: int, op: Op2<K1, K2, V>)

  function Inner<K1, K2, V>(s: Nested<K1, K2, V>, k1: K1): map<K2, Val<V>> {
    if k1 in s then s[k1] else map[]
  }

  /** Forgets an outer key whose inner map is empty. */
  function Reclaimed<K1, K2, V>(s: Nested<K1, K2, V>, k1: K1): Nested<K1, K2, V> {
    if k1 in s && |s[k1]| == 0 then s - {k1} else s
  }

  function Step2<K1, K2, V>(s: Nested<K1, K2, V>, life: int, e: Event2<K1, K2, V>): Nested<K1, K2, V> {
    match e.op
    case Put(k1, k2, v) =>
      var inn := Inner(s, k1);
      s[k1 := inn[k2 := Written(Find(inn, k2), e.t, v, e.t + life)]]
    case Get2(_, _) => s
    case Del(k1, k2) => if k1 in s then Reclaimed(s[k1 := s[k1] - {k2}], k1) else s
    case Reap(k1) => if k1 in s then Reclaimed(s[k1 := Purged(s[k1], s[k1].Keys, e.t)], k1) else s
    case Clear2 => map[]
  }

  function Answer2<K1, K2, V>(s: Nested<K1, K2, V>, e: Event2<K1, K2, V>): Out<V> {
    match e.op
    case Put(k1, k2, v) => Answer(Inner(s, k1), At(e.t, Upsert(k2, v, 0)))
    case Get2(k1, k2) => Answer(Inner(s, k1), At(e.t, Op.Look(k2)))
    case _ => Silent
  }

  // ---- The flat map it stands for --------------------------------------------------------------

  /** The entry under a pair of keys. */
  function Entry<K1, K2, V>(s: Nested<K1, K2, V>, k1: K1, k2: K2): Option<Val<V>> {
    Find(Inner(s, k1), k2)
  }

  /** A flat map keyed by pairs that holds the same entries. */
  ghost predicate Flattens<K1(!new), K2(!new), V>(m: map<(K1, K2), Val<V>>, s: Nested<K1, K2, V>) {
    forall k1, k2 :: Find(m, (k1, k2)) == Entry(s, k1, k2)
  }

  function Under<K1, K2, V>(s: Nested<K1, K2, V>, k1: K1): set<(K1, K2)> {
    set k2 | k2 in Inner(s, k1) :: (k1, k2)
  }

  /** The flat operation a sieve operation amounts to. */
  function FlatOp<K1, K2, V>(s: Nested<K1, K2, V>, life: int, e: Event2<K1, K2, V>): Event<(K1, K2), V> {
    match e.op
    case Put(k1, k2, v) => At(e.t, Upsert((k1, k2), v, life))
    case Get2(k1, k2) => At(e.t, Op.Look((k1, k2)))
    case Del(k1, k2) => At(e.t, Delete((k1, k2)))
    case Reap(k1) => At(e.t, Purge(Under(s, k1)))
    case Clear2 => At(e.t, Op.Clear)
  }

  lemma ReclaimedEntry<K1, K2, V>(s: Nested<K1, K2, V>, k1: K1, j1: K1, j2: K2)
    ensures Entry(Reclaimed(s, k1), j1, j2) == Entry(s, j1, j2)
  {
  }

  lemma PutEntry<K1, K2, V>(s: Nested<K1, K2, V>, life: int, t: int, k1: K1, k2: K2, v: V, j1: K1, j2: K2)
    ensures Entry(Step2(s, life, At2(t, Put(k1, k2, v))), j1, j2) ==
            if (j1, j2) == (k1, k2) then Some(Written(Entry(s, k1, k2), t, v, t + life)) else Entry(s, j1, j2)
  {
  }

  lemma DelEntry<K1, K2, V>(s: Nested<K1, K2, V>, life: int, t: int, k1: K1, k2: K2, j1: K1, j2: K2)
    ensures Entry(Step2(s, life, At2(t, Del(k1, k2))), j1, j2) ==
            if (j1, j2) == (k1, k2) then None else Entry(s, j1, j2)
  {
    if k1 in s {
      ReclaimedEntry(s[k1 := s[k1] - {k2}], k1, j1, j2);
    }
  }

  lemma ReapEntry<K1, K2, V>(s: Nested<K1, K2, V>, life: int, t: int, k1: K1, j1: K1, j2: K2)
    ensures Entry(Step2(s, life, At2(t, Reap(k1))), j1, j2) ==
            var e := Entry(s, j1, j2);
            if j1 == k1 && e.Some? && t > e.value.expiry then None else e
  {
    if k1 in s {
      ReclaimedEntry(s[k1 := Purged(s[k1], s[k1].Keys, t)], k1, j1, j2);
    }
  }

  lemma StepEntry<K1(!new), K2(!new), V>(m: map<(K1, K2), Val<V>>, s: Nested<K1, K2, V>, life: int, zero: V,
                                         e: Event2<K1, K2, V>, j1: K1, j2: K2)
    requires Flattens(m, s)
    ensures Find(Step(m, life, zero, FlatOp(s, life, e)), (j1, j2)) == Entry(Step2(s, life, e), j1, j2)
  {
    assert Find(m, (j1, j2)) == Entry(s, j1, j2);
    match e.op {
      case Put(k1, k2, v) => PutEntry(s, life, e.t, k1, k2, v, j1, j2);
      case Get2(_, _) =>
      case Del(k1, k2) => DelEntry(s, life, e.t, k1, k2, j1, j2);
      case Reap(k1) =>
        ReapEntry(s, life, e.t, k1, j1, j2);
        assert (j1, j2) in Under(s, k1) <==> j1 == k1 && j2 in Inner(s, k1);
      case Clear2 =>
    }
  }

  /** Every sieve operation does to the flat map what its flat counterpart does. */
  lemma StepFlat<K1(!new), K2(!new), V>(m: map<(K1, K2), Val<V>>, s: Nested<K1, K2, V>, life: int, zero: V, e: Event2<K1, K2, V>)
    requires Flattens(m, s)
    ensures Flattens(Step(m, life, zero, FlatOp(s, life, e)), Step2(s, life, e))
  {
    forall j1, j2
      ensures Find(Step(m, life, zero, FlatOp(s, life, e)), (j1, j2)) == Entry(Step2(s, life, e), j1, j2)
    {
      StepEntry(m, s, life, zero, e, j1, j2);
    }
  }

  /** And is answered alike. */
  lemma AnswerFlat<K1(!new), K2(!new), V>(m: map<(K1, K2), Val<V>>, s: Nested<K1, K2, V>, life: int, e: Event2<K1, K2, V>)
    requires Flattens(m, s)
    ensures Answer2(s, e) == Answer(m, FlatOp(s, life, e))
  {
    match e.op {
      case Put(k1, k2, v) => assert Find(m, (k1, k2)) == Entry(s, k1, k2);
      case Get2(k1, k2) => assert Find(m, (k1, k2)) == Entry(s, k1, k2);
      case _ =>
    }
  }

  // ---- Whole runs ------------------------------------------------------------------------------

  function Run2<K1(==), K2(==), V>(life: int, es: seq<Event2<K1, K2, V>>): Nested<K1, K2, V> {
    if es == [] then map[] else Step2(Run2(life, es[..|es| - 1]), life, es[|es| - 1])
  }

  predicate Quiet<K1, K2, V>(e: Event2<K1, K2, V>) {
    e.op.Reap?
  }

  function Answers2<K1(==), K2(==), V>(life: int, es: seq<Event2<K1, K2, V>>): seq<Out<V>> {
    if es == [] then []
    else
      Answers2(life, es[..|es| - 1]) +
      if Quiet(es[|es| - 1]) then [] else [Answer2(Run2(life, es[..|es| - 1]), es[|es| - 1])]
  }

  function FlatRun<K1(==), K2(==), V>(life: int, es: seq<Event2<K1, K2, V>>): seq<Event<(K1, K2), V>> {
    if es == [] then []
    else FlatRun(life, es[..|es| - 1]) + [FlatOp(Run2(life, es[..|es| - 1]), life, es[|es| - 1])]
  }

  lemma {:induction false} SieveFlattens<K1(!new), K2(!new), V>(life: int, zero: V, es: seq<Event2<K1, K2, V>>)
    ensures Flattens(Run(map[], life, zero, FlatRun(life, es)), Run2(life, es))
  {
    if es != [] {
      var init, e := es[..|es| - 1], es[|es| - 1];
      SieveFlattens(life, zero, init);
      var s, m := Run2(life, init), Run(map[], life, zero, FlatRun(life, init));
      StepFlat(m, s, life, zero, e);
      RunSnoc(map[], life, zero, FlatRun(life, init), FlatOp(s, life, e));
    }
  }

  lemma {:induction false} SieveIsFlat<K1(!new), K2(!new), V>(life: int, zero: V, es: seq<Event2<K1, K2, V>>)
    ensures Answers2(life, es) == Answers(map[], life, zero, FlatRun(life, es))
  {
    if es != [] {
      var init, e := es[..|es| - 1], es[|es| - 1];
      SieveIsFlat(life, zero, init);
      SieveFlattens(life, zero, init);
      FlatNext(life, zero, init, e, es);
    }
  }

  lemma FlatNext<K1(!new), K2(!new), V>(life: int, zero: V, init: seq<Event2<K1, K2, V>>, e: Event2<K1, K2, V>,
                                        es: seq<Event2<K1, K2, V>>)
    requires es != [] && init == es[..|es| - 1] && e == es[|es| - 1]
    requires Answers2(life, init) == Answers(map[], life, zero, FlatRun(life, init))
    requires Flattens(Run(map[], life, zero, FlatRun(life, init)), Run2(life, init))
    ensures Answers2(life, es) == Answers(map[], life, zero, FlatRun(life, es))
  {
    var s, fs := Run2(life, init), FlatRun(life, init);
    AnswerFlat(Run(map[], life, zero, fs), s, life, e);
    AskedOp(s, life, e);
    AnswersNext(life, init, e, es);
    RunSnoc(map[], life, zero, fs, FlatOp(s, life, e));
  }

  lemma AnswersNext<K1, K2, V>(life: int, init: seq<Event2<K1, K2, V>>, e: Event2<K1, K2, V>, es: seq<Event2<K1, K2, V>>)
    requires es != [] && init == es[..|es| - 1] && e == es[|es| - 1]
    ensures Answers2(life, es) == Answers2(life, init) + if Quiet(e) then [] else [Answer2(Run2(life, init), e)]
    ensures FlatRun(life, es) == FlatRun(life, init) + [FlatOp(Run2(life, init), life, e)]
  {
  }

  /** Inner maps never linger once they are empty. */
  ghost predicate NoHusks<K1, K2, V>(s: Nested<K1, K2, V>) {
    forall k1 :: k1 in s ==> s[k1] != map[]
  }

  lemma StepNoHusks<K1, K2, V>(s: Nested<K1, K2, V>, life: int, e: Event2<K1, K2, V>)
    requires NoHusks(s)
    ensures NoHusks(Step2(s, life, e))
  {
  }

  lemma {:induction false} NeverHusks<K1, K2, V>(life: int, es: seq<Event2<K1, K2, V>>)
    ensures NoHusks(Run2(life, es))
  {
    if es != [] {
      NeverHusks(life, es[..|es| - 1]);
      StepNoHusks(Run2(life, es[..|es| - 1]), life, es[|es| - 1]);
    }
  }

  function Times2<K1, K2, V>(es: seq<Event2<K1, K2, V>>): (ts: seq<int>)
    ensures |ts| == |es|
  {
    seq(|es|, i requires 0 <= i < |es| => es[i].t)
  }

  lemma {:induction false} FlatTimes<K1, K2, V>(life: int, es: seq<Event2<K1, K2, V>>)
    ensures Times(FlatRun(life, es)) == Times2(es)
  {
    if es != [] {
      FlatTimes(life, es[..|es| - 1]);
      assert Times2(es) == Times2(es[..|es| - 1]) + [es[|es| - 1].t];
    }
  }

  /** What the callers asked for, on pairs of keys. */
  function Asked<K1(==), K2(==), V>(life: int, es: seq<Event2<K1, K2, V>>): seq<Event<(K1, K2), V>> {
    if es == [] then []
    else
      var e := es[|es| - 1];
      Asked(life, es[..|es| - 1]) + if Quiet(e) then [] else [FlatOp(map[], life, e)]
  }

  lemma {:induction false} AskedIsUnreaped<K1, K2, V>(life: int, es: seq<Event2<K1, K2, V>>)
    ensures Unreaped(FlatRun(life, es)) == Asked(life, es)
  {
    if es != [] {
      var init, e := es[..|es| - 1], es[|es| - 1];
      AskedIsUnreaped(life, init);
      UnreapedSnoc(FlatRun(life, init), FlatOp(Run2(life, init), life, e));
      AskedOp(Run2(life, init), life, e);
    }
  }

  /** Only the reaper's own steps depend on the state. */
  lemma AskedOp<K1, K2, V>(s: Nested<K1, K2, V>, life: int, e: Event2<K1, K2, V>)
    ensures FlatOp(s, life, e).op.Purge? <==> Quiet(e)
    ensures !Quiet(e) ==> FlatOp(s, life, e) == FlatOp(map[], life, e)
  {
  }

  /** The sieve, reaped and reclaimed at any moments, answers like one flat expiring map that is never reaped. */
  lemma SieveAnswersFlat<K1(!new), K2(!new), V>(life: int, zero: V, es: seq<Event2<K1, K2, V>>)
    requires Steady(Times2(es)) && life >= 0
    ensures Answers2(life, es) == Answers(map[], life, zero, Asked(life, es))
  {
    SieveIsFlat(life, zero, es);
    FlatTimes(life, es);
    ReapingInvisible<(K1, K2), V>(map[], life, zero, FlatRun(life, es));
    AskedIsUnreaped(life, es);
  }
}
